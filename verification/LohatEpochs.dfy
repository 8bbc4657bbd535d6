/** What holds of epochs in every run, whatever is pushed where: write epochs are drawn from one
    counter, each for one record. */
module LohatEpochs {
  import opened Options
  import opened LohatModel
  import opened LohatBasic
  import opened LohatInvariant

  // ---- what a step does to epochs -----------------------------------------------------

  lemma OnlyMover(s: State, t: nat, c: Choice)
    requires Basic(s) && Enabled(s, t, c)
    ensures |Step(s, t, c).threads| == |s.threads| && Step(s, t, c).threads[t].pc == NextPC(s, t, c)
    ensures forall u :: 0 <= u < |s.threads| && u != t ==> Step(s, t, c).threads[u] == s.threads[u]
  {
    hide NextPC, Basic;
  }

  predicate IsDraw(s: State, m: Move) { m.Turn? && m.t < |s.threads| && s.threads[m.t].pc.HelpBumping? }

  /** A step changes write epochs only by the commit of a pending epoch, retire epochs only to the
      current one, and the counter only by drawing. */
  lemma StepEpochs(s: State, t: nat, c: Choice)
    requires Basic(s) && Enabled(s, t, c)
    ensures var s', pc := Step(s, t, c), s.threads[t].pc;
            && s'.epoch == (if pc.HelpBumping? then s.epoch + 1 else s.epoch) && |s.recs| <= |s'.recs|
            && (forall i :: 0 <= i < |s.recs| ==> s'.recs[i].bucket == s.recs[i].bucket)
            && (forall i :: 0 <= i < |s.recs| && WE(s'.recs, i) != WE(s.recs, i) ==>
                  pc.HelpSwapping? && pc.rec == i && WE(s.recs, i) == 0 && WE(s'.recs, i) == pc.mine)
            && (forall i :: 0 <= i < |s.recs| ==> RE(s'.recs, i) == RE(s.recs, i) || RE(s'.recs, i) == s.epoch)
            && (forall i :: |s.recs| <= i < |s'.recs| ==> WE(s'.recs, i) == 0 && RE(s'.recs, i) == 0)
  {
    assert ThreadOK(s, t);
    hide NextPC;
  }

  /** After its swap, or on finding an epoch, a thread goes on with a record that has one. */
  lemma StepCommits(s: State, t: nat, c: Choice)
    requires Basic(s) && Enabled(s, t, c)
    ensures var s', pc := Step(s, t, c), s.threads[t].pc;
            (pc.HelpSwapping? || (pc.HelpLoading? && !NextPC(s, t, c).HelpBumping?)) ==>
              pc.rec < |s'.recs| && (pc.HelpSwapping? || WE(s.recs, pc.rec) != 0)
              && (pc.HelpSwapping? && pc.mine != 0 ==> WE(s'.recs, pc.rec) != 0)
              && NextPC(s, t, c) == Resume(pc.k)
  {
    assert ThreadOK(s, t);
  }

  // ---- the invariant ------------------------------------------------------------------

  /** A pending epoch has been drawn and is not used; an overwritten record is retired only after
      the new one has an epoch. */
  ghost predicate PCEpochs(recs: seq<Record>, epoch: nat, pc: PC)
  {
    && (pc.HelpSwapping? ==> 1 < pc.mine <= epoch && forall i :: 0 <= i < |recs| ==> WE(recs, i) != pc.mine)
    && ((pc.HelpLoading? || pc.HelpBumping? || pc.HelpSwapping?) && pc.k.ThenRetire? ==> pc.k.own == pc.rec)
    && (pc.Retiring? ==> pc.own < |recs| && WE(recs, pc.own) != 0)
    && (Viewing(pc) ==> ViewEpoch(pc) <= epoch)
  }

  predicate Rivals(a: PC, b: PC) { a.HelpSwapping? && b.HelpSwapping? && a.mine == b.mine }

  ghost predicate EpochsInv(s: State)
  {
    && Basic(s) && s.epoch >= 1
    && (forall i :: 0 <= i < |s.recs| ==> WE(s.recs, i) <= s.epoch && RE(s.recs, i) <= s.epoch)
    && (forall i :: 0 <= i < |s.recs| ==> WE(s.recs, i) != 1)
    && (forall i, j :: 0 <= i < j < |s.recs| && WE(s.recs, i) != 0 ==> WE(s.recs, i) != WE(s.recs, j))
    && (forall t :: 0 <= t < |s.threads| ==> PCEpochs(s.recs, s.epoch, s.threads[t].pc))
    && (forall t, u :: 0 <= t < u < |s.threads| ==> !Rivals(s.threads[t].pc, s.threads[u].pc))
  }

  lemma MoverEpochs(s: State, t: nat, c: Choice)
    requires EpochsInv(s) && Enabled(s, t, c)
    ensures PCEpochs(Step(s, t, c).recs, Step(s, t, c).epoch, NextPC(s, t, c))
  {
    var s', pc, pc' := Step(s, t, c), s.threads[t].pc, NextPC(s, t, c);
    assert PCEpochs(s.recs, s.epoch, pc);
    EpochsPassed(s);
    StepEpochs(s, t, c);
    StepCommits(s, t, c);
    SwapsOrNot(s, t, c);
    NextIs(s, t, c);
    hide Step, NextPC, EpochsInv;
  }

  /** Where a thread can be when it depends on epochs, and how it came there. */
  lemma NextIs(s: State, t: nat, c: Choice)
    requires Basic(s) && Enabled(s, t, c)
    ensures var pc, pc' := s.threads[t].pc, NextPC(s, t, c);
            && ((pc'.HelpLoading? || pc'.HelpBumping? || pc'.HelpSwapping?) && pc'.k.ThenRetire? ==>
                  pc'.k.own == pc'.rec || (pc.HelpLoading? && pc' == HelpBumping(pc.rec, pc.k))
                  || (pc.HelpBumping? && pc' == HelpSwapping(pc.rec, s.epoch + 1, pc.k)))
            && (pc'.Retiring? ==> (pc.HelpSwapping? || pc.HelpLoading?) && pc.k == ThenRetire(pc'.w, pc'.own))
            && (Viewing(pc') ==> ViewEpoch(pc') <= s.epoch || (Viewing(pc) && ViewEpoch(pc') == ViewEpoch(pc)))
  {
    assert ThreadOK(s, t);
    hide Effect;
  }

  lemma EpochsPassed(s: State)
    requires EpochsInv(s)
    ensures forall i :: 0 <= i < |s.recs| ==> WE(s.recs, i) <= s.epoch
  {
    hide Basic, PCEpochs;
  }

  lemma StepKeepsEpochs(s: State, t: nat, c: Choice)
    requires EpochsInv(s) && Enabled(s, t, c)
    ensures EpochsInv(Step(s, t, c))
  {
    var s', pc := Step(s, t, c), s.threads[t].pc;
    StepKeepsBasic(s, t, c);
    StepEpochs(s, t, c);
    OnlyMover(s, t, c);
    MoverEpochs(s, t, c);
    assert PCEpochs(s.recs, s.epoch, pc);
    SwapsOrNot(s, t, c);
    hide Step, NextPC, Basic;
    forall u | 0 <= u < |s'.threads| ensures PCEpochs(s'.recs, s'.epoch, s'.threads[u].pc) {
      if u != t {
        assert PCEpochs(s.recs, s.epoch, s.threads[u].pc);
        assert u < t ==> !Rivals(s.threads[u].pc, pc);
        assert t < u ==> !Rivals(pc, s.threads[u].pc);
      }
    }
    forall u, v | 0 <= u < v < |s'.threads| ensures !Rivals(s'.threads[u].pc, s'.threads[v].pc) {
      assert PCEpochs(s.recs, s.epoch, s.threads[u].pc) && PCEpochs(s.recs, s.epoch, s.threads[v].pc);
      assert !Rivals(s.threads[u].pc, s.threads[v].pc);
    }
  }

  lemma SwapsOrNot(s: State, t: nat, c: Choice)
    requires Basic(s) && Enabled(s, t, c)
    ensures NextPC(s, t, c).HelpSwapping? ==>
              s.threads[t].pc.HelpBumping? && NextPC(s, t, c).mine == s.epoch + 1
  {
    assert ThreadOK(s, t);
  }

  lemma MoveKeepsEpochs(s: State, m: Move)
    requires EpochsInv(s) && Allowed(s, m)
    ensures EpochsInv(Apply(s, m))
  {
    match m
    case Turn(t, c) => hide EpochsInv, Step; StepKeepsEpochs(s, t, c);
    case Join =>
      RegisterKeepsBasic(s);
      var s' := Register(s);
      forall t, u | 0 <= t < u < |s'.threads| ensures !Rivals(s'.threads[t].pc, s'.threads[u].pc) {
        if u < |s.threads| { assert !Rivals(s.threads[t].pc, s.threads[u].pc); }
      }
      hide Basic;
  }

  lemma {:induction false} ContinueKeepsEpochs(s: State, moves: seq<Move>)
    requires EpochsInv(s) && Continue(s, moves).Some?
    ensures EpochsInv(Continue(s, moves).value)
  {
    assert Basic(s);
    hide EpochsInv, Apply, Allowed;
    if moves != [] {
      var n := |moves| - 1;
      ContinueKeepsEpochs(s, moves[..n]);
      MoveKeepsEpochs(Continue(s, moves[..n]).value, moves[n]);
    }
  }

  lemma RunsKeepEpochs(buckets: nat, moves: seq<Move>)
    requires Exec(buckets, moves).Some?
    ensures EpochsInv(Exec(buckets, moves).value)
  {
    assert EpochsInv(Init(buckets));
    hide EpochsInv;
    ContinueKeepsEpochs(Init(buckets), moves);
  }

  // ---- write epochs -------------------------------------------------------------------

  /** In every run, no two records share a write epoch. */
  lemma EpochsAreUnique(buckets: nat, moves: seq<Move>, i: nat, j: nat)
    requires Exec(buckets, moves).Some?
    requires i < |Exec(buckets, moves).value.recs| && j < |Exec(buckets, moves).value.recs| && i != j
    ensures var recs := Exec(buckets, moves).value.recs; WE(recs, i) != 0 ==> WE(recs, i) != WE(recs, j)
  {
    RunsKeepEpochs(buckets, moves);
    hide Basic, PCEpochs;
  }

  // ---- retire epochs ------------------------------------------------------------------

  predicate DrawsAt(buckets: nat, moves: seq<Move>, k: nat)
  {
    k < |moves| && Exec(buckets, moves[..k]).Some? && IsDraw(Exec(buckets, moves[..k]).value, moves[k])
  }

  /** Every epoch after the first was drawn by one move of the run, and it is the current one exactly
      if no move after that one drew. */
  lemma {:induction false} EpochIsDrawn(buckets: nat, moves: seq<Move>, e: nat) returns (j: nat)
    requires Exec(buckets, moves).Some? && 1 < e <= Exec(buckets, moves).value.epoch
    ensures DrawsAt(buckets, moves, j) && Exec(buckets, moves[..j]).value.epoch + 1 == e
    ensures Exec(buckets, moves).value.epoch == e <==> forall k :: j < k < |moves| ==> !DrawsAt(buckets, moves, k)
  {
    hide Basic, Step, Allowed, Register;
    var n := |moves| - 1;
    var before, m := Exec(buckets, moves[..n]).value, moves[n];
    assert before.epoch <= Exec(buckets, moves).value.epoch <= before.epoch + 1
      && (before.epoch < Exec(buckets, moves).value.epoch <==> IsDraw(before, m)) by { MoveEpoch(before, m); }
    assert forall k :: 0 <= k < n ==> moves[..n][..k] == moves[..k];
    if e == before.epoch + 1 {
      j := n;
    } else {
      j := EpochIsDrawn(buckets, moves[..n], e);
      EarlierDraws(buckets, moves);
      assert DrawsAt(buckets, moves, n) == IsDraw(before, m);
      hide DrawsAt, Exec;
      forall k | j < k < n && DrawsAt(buckets, moves[..n], k) ensures DrawsAt(buckets, moves, k) {}
      forall k | j < k < n && DrawsAt(buckets, moves, k) ensures DrawsAt(buckets, moves[..n], k) {}
    }
  }

  lemma EarlierDraws(buckets: nat, moves: seq<Move>)
    requires moves != []
    ensures forall k :: 0 <= k < |moves| - 1 ==> DrawsAt(buckets, moves[..|moves| - 1], k) == DrawsAt(buckets, moves, k)
  {
    hide Exec, IsDraw;
    assert forall k :: 0 <= k < |moves| - 1 ==> moves[..|moves| - 1][..k] == moves[..k];
  }

  lemma MoveEpoch(s: State, m: Move)
    requires Basic(s) && Allowed(s, m)
    ensures Apply(s, m).epoch == if IsDraw(s, m) then s.epoch + 1 else s.epoch
  {
    if m.Turn? {
      StepEpochs(s, m.t, m.c);
      hide Step, Basic;
    }
  }

  /** In every run: retiring the record below `own` stores an epoch no earlier than the commit epoch of
      `own`, and it stores just that epoch if and only if none has been drawn after it. */
  lemma RetireEpochExactly(buckets: nat, moves: seq<Move>, t: nat, c: Choice) returns (draw: nat)
    requires Exec(buckets, moves).Some? && Enabled(Exec(buckets, moves).value, t, c)
    requires Exec(buckets, moves).value.threads[t].pc.Retiring?
    ensures var s := Exec(buckets, moves).value;
            var s', h, own := Step(s, t, c), s.threads[t].pc.w.head, s.threads[t].pc.own;
            && h.Some? && h.value < |s'.recs| && own < |s.recs|
            && DrawsAt(buckets, moves, draw) && Exec(buckets, moves[..draw]).value.epoch + 1 == WE(s.recs, own)
            && WE(s.recs, own) <= RE(s'.recs, h.value)
            && (RE(s'.recs, h.value) == WE(s.recs, own)
                <==> forall k :: draw < k < |moves| ==> !DrawsAt(buckets, moves, k))
  {
    RunsKeepEpochs(buckets, moves);
    var s := Exec(buckets, moves).value;
    RetireStores(s, t, c);
    hide Basic, Step, Exec, DrawsAt;
    var own := s.threads[t].pc.own;
    assert PCEpochs(s.recs, s.epoch, s.threads[t].pc);
    draw := EpochIsDrawn(buckets, moves, WE(s.recs, own));
  }

  lemma RetireStores(s: State, t: nat, c: Choice)
    requires Basic(s) && Enabled(s, t, c) && s.threads[t].pc.Retiring?
    ensures var h := s.threads[t].pc.w.head;
            h.Some? && h.value < |Step(s, t, c).recs| && RE(Step(s, t, c).recs, h.value) == s.epoch
  {
    assert ThreadOK(s, t);
    hide NextPC;
  }

  // ---- real-time order ----------------------------------------------------------------

  /** A view keeps its epoch, and a view that begins takes the epoch of that moment. */
  lemma ViewEpochStays(s: State, m: Move, t: nat)
    requires Basic(s) && Allowed(s, m) && t < |s.threads|
    ensures s.epoch <= Apply(s, m).epoch && t < |Apply(s, m).threads|
    ensures var pc, pc' := s.threads[t].pc, Apply(s, m).threads[t].pc;
            Viewing(pc') ==> if Viewing(pc) then ViewEpoch(pc') == ViewEpoch(pc) else s.epoch <= ViewEpoch(pc')
  {
    MoveEpoch(s, m);
    if m.Turn? {
      OnlyMover(s, m.t, m.c);
      if m.t == t && Viewing(NextPC(s, t, m.c)) { NextViewEpoch(s, t, m.c); }
      hide Basic, Step, NextPC;
    }
  }

  lemma NextViewEpoch(s: State, t: nat, c: Choice)
    requires Basic(s) && Enabled(s, t, c) && Viewing(NextPC(s, t, c))
    ensures var pc, pc' := s.threads[t].pc, NextPC(s, t, c);
            if Viewing(pc) then ViewEpoch(pc') == ViewEpoch(pc) else s.epoch <= ViewEpoch(pc')
  {
    assert ThreadOK(s, t);
    hide Basic;
  }

  /** In every run, a view sees each write that was committed before it began: its epoch is no
      earlier. */
  lemma {:induction false} ViewsSeeEarlierWrites(buckets: nat, moves: seq<Move>, k: nat, t: nat, r: nat)
    requires Exec(buckets, moves).Some? && k <= |moves|
    requires Exec(buckets, moves[..k]).Some?
    requires var s := Exec(buckets, moves[..k]).value;
             t < |s.threads| && !Viewing(s.threads[t].pc) && r < |s.recs| && WE(s.recs, r) != 0
    ensures var s, s' := Exec(buckets, moves[..k]).value, Exec(buckets, moves).value;
            && t < |s'.threads| && s.epoch <= s'.epoch && WE(s.recs, r) <= s.epoch
            && (Viewing(s'.threads[t].pc) ==> WE(s.recs, r) <= ViewEpoch(s'.threads[t].pc))
  {
    hide Basic, Step, Allowed, Register, Viewing, ViewEpoch, EpochsInv;
    if k == |moves| {
      assert moves[..k] == moves;
      RunsKeepEpochs(buckets, moves);
      EpochsPassed(Exec(buckets, moves).value);
    } else {
      var n := |moves| - 1;
      assert moves[..n][..k] == moves[..k];
      ViewsSeeEarlierWrites(buckets, moves[..n], k, t, r);
      ViewEpochStays(Exec(buckets, moves[..n]).value, moves[n], t);
    }
  }
}
