/** Every step keeps indices in range and heads on top of their buckets. */
module LohatBasic {
  import opened Options
  import opened LohatModel

  /** The same buckets, at least the same records, but for their epochs, and at least the same threads. */
  predicate Extends(s: State, s': State)
  {
    && |s'.heads| == |s.heads|
    && |s.recs| <= |s'.recs|
    && |s.threads| <= |s'.threads|
    && forall i :: 0 <= i < |s.recs| ==>
         && s'.recs[i].bucket == s.recs[i].bucket && s'.recs[i].next == s.recs[i].next
         && s'.recs[i].deleted == s.recs[i].deleted
  }

  lemma PCExtends(s: State, s': State, pc: PC)
    requires Extends(s, s') && PCOK(s, pc)
    ensures PCOK(s', pc)
  {
  }

  /** Threads that did not move are still well formed. */
  lemma OthersOK(s: State, s': State, t: nat)
    requires Basic(s) && Extends(s, s') && t < |s.threads|
    requires forall u :: 0 <= u < |s.threads| && u != t ==> s'.threads[u] == s.threads[u]
    ensures forall u :: 0 <= u < |s.threads| && u != t ==> ThreadOK(s', u)
  {
    hide PCOK;
    forall u | 0 <= u < |s.threads| && u != t
      ensures ThreadOK(s', u)
    {
      assert ThreadOK(s, u);
      PCExtends(s, s', s.threads[u].pc);
    }
  }

  /** A step that leaves records in their buckets and the heads alone. */
  lemma QuietStep(s: State, s': State, t: nat)
    requires Basic(s) && Extends(s, s') && t < |s.threads| == |s'.threads| == |s'.reservations|
    requires |s'.recs| == |s.recs| && s'.heads == s.heads
    requires forall u :: 0 <= u < |s.threads| && u != t ==> s'.threads[u] == s.threads[u]
    requires ThreadOK(s', t)
    ensures Basic(s')
  {
    hide PCOK, ThreadOK;
    OthersOK(s, s', t);
    forall b | 0 <= b < |s'.heads| ensures HeadOK(s', b) { assert HeadOK(s, b); }
    forall i | 0 <= i < |s'.recs| ensures RecordOK(s', i) { assert RecordOK(s, i); }
  }

  lemma Pushed(s: State, s': State, t: nat, w: Write)
    requires Basic(s) && t < |s.threads| && WriteOK(s, w) && InstallSucceeds(s, w)
    requires s' == Goto(Push(s, w), t, AfterInstall(s, w))
    ensures Basic(s')
  {
    assert ThreadOK(s, t);
    hide ThreadOK;
    OthersOK(s, s', t);
    assert ThreadOK(s', t) by {
      assert WriteOK(s', w);
      ThreadFrom(s, s', t);
    }
    forall b | 0 <= b < |s'.heads| ensures HeadOK(s', b) { assert HeadOK(s, b); }
    forall i | 0 <= i < |s'.recs| ensures RecordOK(s', i) {
      if i < |s.recs| { assert RecordOK(s, i); }
    }
  }

  lemma ThreadFrom(s: State, s': State, t: nat)
    requires t < |s.threads| && ThreadOK(s, t) && |s.recs| <= |s'.recs| && t < |s'.threads|
    requires PCOK(s', s'.threads[t].pc)
    requires forall k :: 0 <= k < |s'.threads[t].retired| ==> s'.threads[t].retired[k] in s.threads[t].retired
    ensures ThreadOK(s', t)
  {
    hide PCOK;
  }

  lemma StepKeepsBasic(s: State, t: nat, c: Choice)
    requires Basic(s) && Enabled(s, t, c)
    ensures Basic(Step(s, t, c))
  {
    var s' := Step(s, t, c);
    assert ThreadOK(s, t);
    var pc := s.threads[t].pc;
    if pc.Installing? && InstallSucceeds(s, pc.w) {
      Pushed(s, s', t, pc.w);
    } else {
      NextPCOK(s, t, c);
      EffectOK(s, t, c);
      hide Effect, NextPC, PCOK;
      PCExtends(s, s', NextPC(s, t, c));
      QuietStep(s, s', t);
    }
  }

  /** Effects other than a push change neither buckets nor links nor heads; a retire list gains at
      most the record that is being retired. */
  lemma EffectOK(s: State, t: nat, c: Choice)
    requires Basic(s) && Enabled(s, t, c)
    requires var pc := s.threads[t].pc; pc.Installing? && WriteOK(s, pc.w) ==> !InstallSucceeds(s, pc.w)
    ensures var e := Effect(s, t, c);
            && Extends(s, e) && |e.recs| == |s.recs| && e.heads == s.heads
            && |e.threads| == |s.threads| && |e.reservations| == |s.reservations|
            && (forall u :: 0 <= u < |s.threads| && u != t ==> e.threads[u] == s.threads[u])
            && (forall k :: 0 <= k < |e.threads[t].retired| ==> e.threads[t].retired[k] < |s.recs|)
  {
    assert ThreadOK(s, t);
    hide NextPC;
  }

  lemma NextPCOK(s: State, t: nat, c: Choice)
    requires Basic(s) && Enabled(s, t, c)
    requires var pc := s.threads[t].pc; pc.Installing? && WriteOK(s, pc.w) ==> !InstallSucceeds(s, pc.w)
    ensures PCOK(s, NextPC(s, t, c))
  {
    hide Effect;
    assert ThreadOK(s, t);
    match s.threads[t].pc {
      case Installing(w) => assert HeadOK(s, w.op.bucket);
      case Reserved(op) => if !op.View? { assert HeadOK(s, op.bucket); }
      case ViewBucket(_, got) => if |got| < |s.heads| { assert HeadOK(s, |got|); }
      case Descending(_, got, cur) => if cur.Some? { assert RecordOK(s, cur.value); }
      case HelpLoading(_, k) => ResumeOK(s, k);
      case HelpSwapping(_, _, k) => ResumeOK(s, k);
      case _ =>
    }
  }

  lemma ResumeOK(s: State, k: Cont)
    requires ContOK(s, k)
    ensures PCOK(s, Resume(k))
  {
  }

  lemma RegisterKeepsBasic(s: State)
    requires Basic(s)
    ensures Basic(Register(s))
  {
    var s' := Register(s);
    forall u | 0 <= u < |s'.threads| ensures ThreadOK(s', u) {
      if u < |s.threads| {
        assert ThreadOK(s, u);
        PCExtends(s, s', s.threads[u].pc);
      }
    }
    forall b | 0 <= b < |s'.heads| ensures HeadOK(s', b) { assert HeadOK(s, b); }
    forall i | 0 <= i < |s'.recs| ensures RecordOK(s', i) { assert RecordOK(s, i); }
  }

  lemma ApplyKeepsBasic(s: State, m: Move)
    requires Basic(s) && Allowed(s, m)
    ensures Basic(Apply(s, m))
  {
    match m
    case Join => RegisterKeepsBasic(s);
    case Turn(t, c) => StepKeepsBasic(s, t, c);
  }

  /** The state a schedule leads to from s, or None if some move of it is not possible. */
  function Continue(s: State, moves: seq<Move>): (r: Option<State>)
    requires Basic(s)
    ensures r.Some? ==> Basic(r.value)
  {
    if moves == [] then Some(s) else
      var before := Continue(s, moves[..|moves| - 1]);
      var m := moves[|moves| - 1];
      if before.Some? && Allowed(before.value, m) then
        ApplyKeepsBasic(before.value, m);
        Some(Apply(before.value, m))
      else None
  }

  /** A run: a schedule from the empty table. */
  function Exec(buckets: nat, moves: seq<Move>): (r: Option<State>)
    ensures r.Some? ==> Basic(r.value)
  {
    assert forall b :: 0 <= b < buckets ==> HeadOK(Init(buckets), b);
    Continue(Init(buckets), moves)
  }

  lemma ContinueOne(s: State, m: Move)
    requires Basic(s) && Allowed(s, m)
    ensures Continue(s, [m]) == Some(Apply(s, m))
  {
    hide Basic, Apply, Allowed;
    assert [m][..0] == [];
    assert Continue(s, [m][..0]) == Some(s);
  }

  lemma {:induction false} ContinueOn(s: State, moves: seq<Move>, more: seq<Move>)
    requires Basic(s) && Continue(s, moves).Some?
    ensures Continue(s, moves + more) == Continue(Continue(s, moves).value, more)
  {
    hide Basic, Apply, Allowed;
    if more == [] {
      assert moves + more == moves;
    } else {
      var n := |more| - 1;
      ContinueOn(s, moves, more[..n]);
      assert (moves + more)[..|moves + more| - 1] == moves + more[..n];
    }
  }

  /** A prefix of a possible schedule is possible. */
  lemma {:induction false} PrefixRuns(buckets: nat, moves: seq<Move>, k: nat)
    requires Exec(buckets, moves).Some? && k <= |moves|
    ensures Exec(buckets, moves[..k]).Some?
    decreases |moves|
  {
    hide Basic, Apply, Allowed;
    if k == |moves| {
      assert moves[..k] == moves;
    } else {
      var n := |moves| - 1;
      PrefixRuns(buckets, moves[..n], k);
      assert moves[..n][..k] == moves[..k];
    }
  }
}
