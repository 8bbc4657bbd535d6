/** The table that the writes up to an epoch make, and when it can no longer change. */
module LohatReplay {
  import opened Options
  import opened LohatModel
  import opened LohatBasic
  import opened LohatInvariant
  import opened LohatEpochs

  /** The record committed at an epoch, if any. */
  function CommittedAt(recs: seq<Record>, e: nat, n: nat): Option<nat>
    requires n <= |recs|
  {
    if n == 0 then None
    else if recs[n - 1].writeEpoch == e then Some(n - 1)
    else CommittedAt(recs, e, n - 1)
  }

  /** The table after the writes with epochs 1 to e, carried out one after the other. */
  function Replay(recs: seq<Record>, buckets: nat, e: nat): (table: seq<Option<nat>>)
    ensures |table| == buckets
  {
    if e == 0 then seq(buckets, i => None)
    else
      var before, r := Replay(recs, buckets, e - 1), CommittedAt(recs, e, |recs|);
      if r.Some? && r.value < |recs| && recs[r.value].bucket < buckets then before[recs[r.value].bucket := r]
      else before
  }

  lemma {:induction false} CommittedAtIs(recs: seq<Record>, e: nat, n: nat, r: nat)
    requires n <= |recs| && r < n && WE(recs, r) == e
    requires forall i :: 0 <= i < |recs| && i != r ==> WE(recs, i) != e
    ensures CommittedAt(recs, e, n) == Some(r)
  {
    if r < n - 1 {
      assert WE(recs, n - 1) != e;
      CommittedAtIs(recs, e, n - 1, r);
    }
  }

  lemma {:induction false} CommittedAtHas(recs: seq<Record>, e: nat, n: nat)
    requires n <= |recs|
    ensures CommittedAt(recs, e, n).Some? ==>
              CommittedAt(recs, e, n).value < n && WE(recs, CommittedAt(recs, e, n).value) == e
  {
    if n > 0 && recs[n - 1].writeEpoch != e { CommittedAtHas(recs, e, n - 1); }
  }

  /** No write of bucket b has an epoch above lo and up to hi, so the bucket does not change. */
  lemma {:induction false} ReplayUnchanged(recs: seq<Record>, buckets: nat, b: nat, lo: nat, hi: nat)
    requires b < buckets && lo <= hi
    requires forall i :: 0 <= i < |recs| && recs[i].bucket == b ==> WE(recs, i) <= lo || hi < WE(recs, i)
    ensures Replay(recs, buckets, hi)[b] == Replay(recs, buckets, lo)[b]
    decreases hi
  {
    if lo < hi {
      ReplayUnchanged(recs, buckets, b, lo, hi - 1);
      CommittedAtHas(recs, hi, |recs|);
    }
  }

  /** The newest write of bucket b up to epoch e is what the replay leaves there. */
  lemma ReplayIsNewest(recs: seq<Record>, buckets: nat, b: nat, e: nat, r: nat)
    requires b < buckets && r < |recs| && recs[r].bucket == b && 0 < WE(recs, r) <= e
    requires forall i :: 0 <= i < |recs| && i != r ==> WE(recs, i) != WE(recs, r)
    requires forall i :: 0 <= i < |recs| && recs[i].bucket == b ==> WE(recs, i) <= WE(recs, r) || e < WE(recs, i)
    ensures Replay(recs, buckets, e)[b] == Some(r)
  {
    ReplayUnchanged(recs, buckets, b, WE(recs, r), e);
    CommittedAtIs(recs, WE(recs, r), |recs|, r);
  }

  lemma {:induction false} ReplayEmpty(recs: seq<Record>, buckets: nat, b: nat, e: nat)
    requires b < buckets
    requires forall i :: 0 <= i < |recs| && recs[i].bucket == b ==> WE(recs, i) == 0 || e < WE(recs, i)
    ensures Replay(recs, buckets, e)[b] == None
  {
    ReplayUnchanged(recs, buckets, b, 0, e);
  }

  lemma {:induction false} ReplayIsCommitted(recs: seq<Record>, buckets: nat, e: nat, b: nat)
    requires b < buckets && Replay(recs, buckets, e)[b].Some?
    ensures var r := Replay(recs, buckets, e)[b].value; r < |recs| && 0 < WE(recs, r) <= e
  {
    if e > 0 {
      CommittedAtHas(recs, e, |recs|);
      var r := CommittedAt(recs, e, |recs|);
      if Replay(recs, buckets, e)[b] != r { ReplayIsCommitted(recs, buckets, e - 1, b); }
    }
  }

  lemma {:induction false} SameReplay(recs: seq<Record>, recs': seq<Record>, buckets: nat, e: nat)
    requires |recs| <= |recs'|
    requires forall i :: 0 <= i < |recs| ==> recs'[i].bucket == recs[i].bucket
    requires forall i :: 0 <= i < |recs| ==> WE(recs', i) == WE(recs, i) || (WE(recs, i) == 0 && e < WE(recs', i))
    requires forall i :: |recs| <= i < |recs'| ==> WE(recs', i) == 0
    ensures Replay(recs', buckets, e) == Replay(recs, buckets, e)
  {
    if e > 0 {
      SameReplay(recs, recs', buckets, e - 1);
      SameCommittedAt(recs, recs', e, |recs'|);
      CommittedAtHas(recs, e, |recs|);
    }
  }

  lemma {:induction false} SameCommittedAt(recs: seq<Record>, recs': seq<Record>, e: nat, n: nat)
    requires |recs| <= |recs'| && n <= |recs'| && e > 0
    requires forall i :: 0 <= i < |recs| ==> WE(recs', i) == WE(recs, i) || (WE(recs, i) == 0 && e < WE(recs', i))
    requires forall i :: |recs| <= i < |recs'| ==> WE(recs', i) == 0
    ensures CommittedAt(recs', e, n) == CommittedAt(recs, e, if n <= |recs| then n else |recs|)
  {
    if n > 0 {
      SameCommittedAt(recs, recs', e, n - 1);
      if n <= |recs| {
        assert WE(recs', n - 1) == WE(recs, n - 1) || WE(recs, n - 1) == 0;
      } else {
        assert WE(recs', n - 1) == 0;
      }
    }
  }

  // ---- settled epochs -----------------------------------------------------------------

  /** Record r, which may be yet to come, has no epoch up to e and no one has drawn one for it. */
  ghost predicate Late(s: State, r: nat, e: nat)
  {
    && e <= s.epoch
    && (r < |s.recs| ==> WE(s.recs, r) == 0 || e < WE(s.recs, r))
    && (r < |s.recs| && WE(s.recs, r) == 0 ==>
          forall u :: 0 <= u < |s.threads| && s.threads[u].pc.HelpSwapping? && s.threads[u].pc.rec == r ==>
            e < s.threads[u].pc.mine)
  }

  lemma LateStays(s: State, m: Move, r: nat, e: nat)
    requires Basic(s) && Allowed(s, m) && Late(s, r, e)
    ensures Late(Apply(s, m), r, e)
  {
    MoveEpoch(s, m);
    if m.Turn? {
      StepEpochs(s, m.t, m.c);
      OnlyMover(s, m.t, m.c);
      SwapsOrNot(s, m.t, m.c);
      if r >= |s.recs| { NoneYet(s, r, m.t, m.c); }
      hide Basic, Step, NextPC;
    }
  }

  /** No one can swap an epoch into a record that has just been pushed. */
  lemma NoneYet(s: State, r: nat, t: nat, c: Choice)
    requires Basic(s) && r >= |s.recs| && Enabled(s, t, c)
    ensures forall u :: 0 <= u < |s.threads| && s.threads[u].pc.HelpSwapping? ==> s.threads[u].pc.rec != r
    ensures NextPC(s, t, c).HelpSwapping? ==> NextPC(s, t, c).rec != r
  {
    forall u | 0 <= u < |s.threads| ensures s.threads[u].pc.HelpSwapping? ==> s.threads[u].pc.rec != r {
      assert ThreadOK(s, u);
    }
    assert ThreadOK(s, t);
  }

  lemma {:induction false} LateForGood(s: State, moves: seq<Move>, r: nat, e: nat)
    requires Basic(s) && Continue(s, moves).Some? && Late(s, r, e)
    ensures Late(Continue(s, moves).value, r, e)
  {
    hide Basic, Apply, Allowed, Late;
    if moves != [] {
      var n := |moves| - 1;
      LateForGood(s, moves[..n], r, e);
      LateStays(Continue(s, moves[..n]).value, moves[n], r, e);
    }
  }

  /** In every run, what is pushed from now on gets an epoch later than the current one.  So a view
      that has finished has missed nothing but writes that come after it. */
  lemma LaterPushesAreNotSeen(s: State, moves: seq<Move>, r: nat, e: nat)
    requires Basic(s) && Continue(s, moves).Some? && e <= s.epoch
    requires |s.recs| <= r < |Continue(s, moves).value.recs|
    ensures var recs' := Continue(s, moves).value.recs; WE(recs', r) == 0 || e < WE(recs', r)
  {
    LateForGood(s, moves, r, e);
    hide Basic, Apply, Allowed;
  }

  /** No record can still receive an epoch up to e. */
  ghost predicate Settled(s: State, e: nat)
  {
    e <= s.epoch && forall r :: 0 <= r < |s.recs| && WE(s.recs, r) == 0 ==> Late(s, r, e)
  }

  /** A settled epoch stays settled, and its table does not change any more. */
  lemma SettledStays(s: State, m: Move, e: nat)
    requires Basic(s) && Allowed(s, m) && Settled(s, e)
    ensures Settled(Apply(s, m), e)
    ensures Replay(Apply(s, m).recs, |s.heads|, e) == Replay(s.recs, |s.heads|, e)
  {
    MoveEpoch(s, m);
    forall r | 0 <= r < |Apply(s, m).recs| && WE(Apply(s, m).recs, r) == 0 ensures Late(Apply(s, m), r, e) {
      if m.Turn? { StepEpochs(s, m.t, m.c); }
      LateStays(s, m, r, e);
    }
    if m.Turn? {
      StepEpochs(s, m.t, m.c);
      assert ThreadOK(s, m.t);
      var pc := s.threads[m.t].pc;
      assert pc.HelpSwapping? && WE(s.recs, pc.rec) == 0 ==> Late(s, pc.rec, e);
      hide Step, NextPC, Basic, Replay;
      SameReplay(s.recs, Step(s, m.t, m.c).recs, |s.heads|, e);
    }
  }

  lemma {:induction false} SettledForGood(s: State, moves: seq<Move>, e: nat)
    requires Basic(s) && Continue(s, moves).Some? && Settled(s, e)
    ensures Settled(Continue(s, moves).value, e) && |Continue(s, moves).value.heads| == |s.heads|
    ensures Replay(Continue(s, moves).value.recs, |s.heads|, e) == Replay(s.recs, |s.heads|, e)
  {
    hide Basic, Apply, Allowed, Settled, Replay;
    if moves != [] {
      var n := |moves| - 1;
      SettledForGood(s, moves[..n], e);
      SettledStays(Continue(s, moves[..n]).value, moves[n], e);
      BucketsStay(Continue(s, moves[..n]).value, moves[n]);
    }
  }

  lemma BucketsStay(s: State, m: Move)
    requires Basic(s) && Allowed(s, m)
    ensures |Apply(s, m).heads| == |s.heads|
  {
    if m.Turn? { assert ThreadOK(s, m.t); }
    hide NextPC, Basic;
  }

  /** The records that have an epoch up to e in a later state have it already. */
  ghost predicate NothingNew(s: State, s': State, e: nat)
  {
    forall r :: 0 <= r < |s'.recs| && 0 < WE(s'.recs, r) <= e ==> r < |s.recs| && WE(s.recs, r) == WE(s'.recs, r)
  }

  /** An epoch that has been drawn is settled if and only if nothing that can happen gives a record
      an epoch up to it. */
  lemma SettledExactly(s: State, e: nat)
    requires EpochsInv(s) && e <= s.epoch
    ensures Settled(s, e) <==> forall moves :: Continue(s, moves).Some? ==> NothingNew(s, Continue(s, moves).value, e)
  {
    if Settled(s, e) {
      forall moves | Continue(s, moves).Some? ensures NothingNew(s, Continue(s, moves).value, e) {
        SettledAddsNothing(s, moves, e);
      }
    } else {
      var r :| 0 <= r < |s.recs| && WE(s.recs, r) == 0 && !Late(s, r, e);
      var u :| 0 <= u < |s.threads| && s.threads[u].pc.HelpSwapping? && s.threads[u].pc.rec == r
               && s.threads[u].pc.mine <= e;
      assert PCEpochs(s.recs, s.epoch, s.threads[u].pc);
      var m := Turn(u, Go);
      assert Allowed(s, m) && WE(Apply(s, m).recs, r) == s.threads[u].pc.mine by { SwapCommits(s, u); }
      ContinueOne(s, m);
      hide EpochsInv, Basic, Apply, Allowed;
      assert !NothingNew(s, Continue(s, [m]).value, e);
    }
  }

  lemma SwapCommits(s: State, u: nat)
    requires Basic(s) && u < |s.threads| && s.threads[u].pc.HelpSwapping?
    requires s.threads[u].pc.rec < |s.recs| && WE(s.recs, s.threads[u].pc.rec) == 0
    ensures Enabled(s, u, Go) && s.threads[u].pc.rec < |Step(s, u, Go).recs|
    ensures WE(Step(s, u, Go).recs, s.threads[u].pc.rec) == s.threads[u].pc.mine
  {
    hide NextPC;
  }

  lemma {:induction false} SettledAddsNothing(s: State, moves: seq<Move>, e: nat)
    requires EpochsInv(s) && Settled(s, e) && Continue(s, moves).Some?
    ensures NothingNew(s, Continue(s, moves).value, e)
  {
    assert Basic(s);
    hide EpochsInv, Basic, Apply, Allowed, Settled;
    if moves != [] {
      var n := |moves| - 1;
      SettledAddsNothing(s, moves[..n], e);
      SettledForGood(s, moves[..n], e);
      SettledStep(Continue(s, moves[..n]).value, moves[n], e);
    }
  }

  lemma SettledStep(s: State, m: Move, e: nat)
    requires Basic(s) && Allowed(s, m) && Settled(s, e)
    ensures NothingNew(s, Apply(s, m), e)
  {
    if m.Turn? {
      StepEpochs(s, m.t, m.c);
      assert ThreadOK(s, m.t);
      var pc := s.threads[m.t].pc;
      assert pc.HelpSwapping? && WE(s.recs, pc.rec) == 0 ==> Late(s, pc.rec, e);
      hide Step, NextPC, Basic;
    }
  }
}
