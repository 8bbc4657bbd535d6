/** Creation epochs: a record that overwrites a live one inherits its creation epoch, which is the write
    epoch of the oldest record in the chain of overwrites. */
module LohatCreate {
  import opened Options
  import opened LohatModel
  import opened LohatBasic
  import opened LohatInvariant
  import opened LohatMover
  import opened LohatEffects
  import opened LohatProof
  import opened LohatEpochs
  import opened LohatSafety

  /** The live record that record i overwrites, if any. */
  function Overwrites(recs: seq<Record>, i: nat): Option<nat>
    requires i < |recs|
  {
    var p := recs[i].next;
    if !recs[i].deleted && p.Some? && p.value < i && !recs[p.value].deleted then p else None
  }

  /** The oldest record in the chain of overwrites that ends in record i. */
  function Oldest(recs: seq<Record>, i: nat): (r: nat)
    requires i < |recs|
    ensures r <= i
    decreases i
  {
    var p := Overwrites(recs, i);
    if p.Some? then Oldest(recs, p.value) else i
  }

  // ---- the invariant ------------------------------------------------------------------

  /** A creation epoch is taken from the record that is overwritten, once that has one. */
  predicate Inherits(recs: seq<Record>, head: Option<nat>, createEpoch: nat)
  {
    if head.Some? && head.value < |recs| && !recs[head.value].deleted then
      createEpoch == CreateEpochOf(recs[head.value]) && createEpoch != 0
    else createEpoch == 0
  }

  ghost predicate RecordCreate(recs: seq<Record>, i: nat)
    requires i < |recs|
  {
    recs[i].deleted || Inherits(recs, Overwrites(recs, i), recs[i].createEpoch)
  }

  ghost predicate PCCreate(recs: seq<Record>, pc: PC)
  {
    match pc
    case HeadLoaded(w) => w.op.Replace? || w.createEpoch == 0
    case HelpLoading(_, k) => ContCreate(k)
    case HelpBumping(_, k) => ContCreate(k)
    case HelpSwapping(_, _, k) => ContCreate(k)
    case CopyingEpoch(w) => w.op.Put? ==> w.createEpoch == 0
    case Installing(w) => w.op.Remove? || Inherits(recs, w.head, w.createEpoch)
    case _ => true
  }

  predicate ContCreate(k: Cont) { k.ThenCopyEpoch? && k.w.op.Put? ==> k.w.createEpoch == 0 }

  ghost predicate CreateInv(s: State)
  {
    && Inv(s)
    && (forall i :: 0 <= i < |s.recs| ==> RecordCreate(s.recs, i))
    && (forall t :: 0 <= t < |s.threads| ==> PCCreate(s.recs, s.threads[t].pc))
  }

  // ---- what a step leaves as it is ----------------------------------------------------

  /** Creation epochs stay, for records and for those that take theirs from them. */
  ghost predicate SameCreate(recs: seq<Record>, recs': seq<Record>)
  {
    && |recs| <= |recs'|
    && forall i :: 0 <= i < |recs| ==>
         && recs'[i].next == recs[i].next && recs'[i].deleted == recs[i].deleted
         && recs'[i].createEpoch == recs[i].createEpoch
         && (CreateEpochOf(recs[i]) != 0 ==> CreateEpochOf(recs'[i]) == CreateEpochOf(recs[i]))
  }

  lemma StepSameCreate(s: State, t: nat, c: Choice)
    requires Basic(s) && Enabled(s, t, c)
    ensures SameCreate(s.recs, Step(s, t, c).recs)
  {
    assert ThreadOK(s, t);
    hide NextPC;
  }

  lemma CreateStays(recs: seq<Record>, recs': seq<Record>, i: nat)
    requires SameCreate(recs, recs') && i < |recs| && RecordCreate(recs, i)
    ensures RecordCreate(recs', i)
  {
  }

  lemma PCCreateStays(s: State, recs': seq<Record>, pc: PC)
    requires SameCreate(s.recs, recs') && PCOK(s, pc) && PCCreate(s.recs, pc)
    ensures PCCreate(recs', pc)
  {
  }

  /** The mover: what it copies, it copies from a head that has an epoch. */
  lemma NextCreate(s: State, t: nat, c: Choice)
    requires CreateInv(s) && Enabled(s, t, c)
    ensures PCCreate(s.recs, NextPC(s, t, c))
  {
    var pc := s.threads[t].pc;
    assert PCCreate(s.recs, pc);
    if pc.CopyingEpoch? {
      CopiesCommitted(s, t);
    } else if pc.HeadLoaded? {
      LoadsFresh(s, t);
    } else {
      OthersCreate(s, t, c);
    }
  }

  lemma LoadsFresh(s: State, t: nat)
    requires Basic(s) && t < |s.threads| && s.threads[t].pc.HeadLoaded? && Enabled(s, t, Go)
    requires PCCreate(s.recs, s.threads[t].pc)
    ensures PCCreate(s.recs, NextPC(s, t, Go))
  {
    assert ThreadOK(s, t);
    hide Basic, Effect;
  }

  lemma OthersCreate(s: State, t: nat, c: Choice)
    requires Basic(s) && Enabled(s, t, c) && PCCreate(s.recs, s.threads[t].pc)
    requires !s.threads[t].pc.HeadLoaded? && !s.threads[t].pc.CopyingEpoch?
    ensures PCCreate(s.recs, NextPC(s, t, c))
  {
    assert ThreadOK(s, t);
    hide Basic, Effect, Examine, Cut, Inherits;
  }

  lemma CopiesCommitted(s: State, t: nat)
    requires CreateInv(s) && t < |s.threads| && s.threads[t].pc.CopyingEpoch? && Enabled(s, t, Go)
    ensures PCCreate(s.recs, NextPC(s, t, Go))
  {
    ThreadOf(s, t);
    assert PCCreate(s.recs, s.threads[t].pc) && Committed(s.recs, s.threads[t].pc.w.head);
    hide CreateInv, Inv, Basic, ThreadInv, RecordsInv, Effect;
  }

  /** A linked push takes its creation epoch from the record it overwrites. */
  lemma PushCreate(s: State, w: Write)
    requires Basic(s) && WriteOK(s, w) && LinkedPush(w)
    requires w.op.Remove? || w.op.Get? || Inherits(s.recs, w.head, w.createEpoch)
    requires !w.op.Get?
    ensures RecordCreate(s.recs + [Candidate(w)], |s.recs|)
  {
    var recs', n := s.recs + [Candidate(w)], |s.recs|;
    if !w.op.Remove? {
      assert w.head.Some? ==> recs'[w.head.value] == s.recs[w.head.value];
      assert recs'[n].next == w.head;
    }
  }

  lemma StepKeepsCreate(s: State, t: nat, c: Choice)
    requires CreateInv(s) && Enabled(s, t, c) && LinkedMove(s, Turn(t, c))
    ensures CreateInv(Step(s, t, c))
  {
    var s', pc := Step(s, t, c), s.threads[t].pc;
    assert ThreadOK(s, t) && PCCreate(s.recs, pc);
    StepKeepsInv(s, t, c);
    StepSameCreate(s, t, c);
    OnlyMover(s, t, c);
    NextCreate(s, t, c);
    NextPCIs(s, t, c);
    if pc.Installing? && InstallSucceeds(s, pc.w) { PushCreate(s, pc.w); }
    RecordsAfter(s, t, c);
    forall u | 0 <= u < |s.threads| ensures PCOK(s, s.threads[u].pc) { assert ThreadOK(s, u); }
    hide Inv, Basic, Step, NextPC, SameCreate, RecordCreate, PCCreate, LinkedMove, PCOK;
    forall i | 0 <= i < |s'.recs| ensures RecordCreate(s'.recs, i) {
      if i < |s.recs| { CreateStays(s.recs, s'.recs, i); }
    }
    forall u | 0 <= u < |s'.threads| ensures PCCreate(s'.recs, s'.threads[u].pc) {
      if u != t { PCCreateStays(s, s'.recs, s.threads[u].pc); }
    }
  }

  /** Where the mover is relies on no record that its step has just added or changed. */
  lemma NextPCIs(s: State, t: nat, c: Choice)
    requires CreateInv(s) && Enabled(s, t, c) && PCCreate(s.recs, NextPC(s, t, c))
    ensures PCCreate(Step(s, t, c).recs, NextPC(s, t, c))
  {
    StepSameCreate(s, t, c);
    assert ThreadOK(s, t);
    var pc, pc' := s.threads[t].pc, NextPC(s, t, c);
    if pc'.Installing? {
      assert WriteOK(s, pc'.w);
      hide Inv, Basic, Step, NextPC;
    }
  }

  lemma RecordsAfter(s: State, t: nat, c: Choice)
    requires Basic(s) && Enabled(s, t, c)
    ensures var s', pc := Step(s, t, c), s.threads[t].pc;
            |s'.recs| == |s.recs|
            || (pc.Installing? && WriteOK(s, pc.w) && InstallSucceeds(s, pc.w) && s'.recs == s.recs + [Candidate(pc.w)])
  {
    assert ThreadOK(s, t);
    hide NextPC;
  }

  lemma MoveKeepsCreate(s: State, m: Move)
    requires CreateInv(s) && Allowed(s, m) && LinkedMove(s, m)
    ensures CreateInv(Apply(s, m))
  {
    match m
    case Turn(t, c) => StepKeepsCreate(s, t, c);
    case Join =>
      RegisterKeepsInv(s);
      hide Inv, RecordCreate;
  }

  lemma {:induction false} LinkedRunsKeepCreate(buckets: nat, moves: seq<Move>)
    requires Exec(buckets, moves).Some? && LinkedRun(buckets, moves)
    ensures CreateInv(Exec(buckets, moves).value)
  {
    if moves == [] {
      InitInv(buckets);
    } else {
      var k := |moves| - 1;
      LinkedRunsKeepCreate(buckets, moves[..k]);
      hide CreateInv, LinkedMove;
      MoveKeepsCreate(Exec(buckets, moves[..k]).value, moves[k]);
    }
  }

  // ---- the result ---------------------------------------------------------------------

  lemma {:induction false} CreateEpochOfChain(recs: seq<Record>, i: nat)
    requires i < |recs| && !recs[i].deleted
    requires forall j :: 0 <= j < |recs| ==> RecordCreate(recs, j)
    ensures CreateEpochOf(recs[i]) == WE(recs, Oldest(recs, i))
    decreases i
  {
    assert RecordCreate(recs, i);
    var p := Overwrites(recs, i);
    if p.Some? { CreateEpochOfChain(recs, p.value); }
  }

  /** In linked runs, the creation epoch of a live record is the write epoch of the oldest record in the
      chain of overwrites that ends in it. */
  lemma CreateEpochIsOldest(buckets: nat, moves: seq<Move>, i: nat)
    requires Exec(buckets, moves).Some? && LinkedRun(buckets, moves)
    requires i < |Exec(buckets, moves).value.recs| && !Exec(buckets, moves).value.recs[i].deleted
    ensures var recs := Exec(buckets, moves).value.recs; CreateEpochOf(recs[i]) == WE(recs, Oldest(recs, i))
  {
    LinkedRunsKeepCreate(buckets, moves);
    hide Inv, RecordCreate, PCCreate;
    CreateEpochOfChain(Exec(buckets, moves).value.recs, i);
  }
}
