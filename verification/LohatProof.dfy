/** The invariant holds in every state of every run whose pushes are linked. */
module LohatProof {
  import opened Options
  import opened LohatModel
  import opened LohatBasic
  import opened LohatInvariant
  import opened LohatFrames
  import opened LohatMover
  import opened LohatEffects
  import opened LohatReclaim

  /** A move is linked unless it pushes a record that does not lead to the head it replaces. */
  predicate LinkedMove(s: State, m: Move)
    requires Basic(s) && Allowed(s, m)
  {
    m.Turn? && s.threads[m.t].pc.Installing? ==>
      var w := s.threads[m.t].pc.w;
      assert ThreadOK(s, m.t);
      InstallSucceeds(s, w) ==> LinkedPush(w)
  }

  /** A step whose thread, afterwards, holds no more than before. */
  lemma NoMoreInv(s: State, s': State, t: nat, pc': PC)
    requires Inv(s) && t < |s.threads| && Basic(s') && s' == Goto(s, t, pc')
    requires NoMore(s.threads[t].pc, pc') && PCInv(s.recs, s.epoch, pc')
    requires Viewing(pc') ==>
               t < |s.reservations| && s.reservations[t].Some?
               && ViewInv(s.recs, s.epoch, pc', s.reservations[t].value)
    ensures Inv(s')
  {
    hide NoMore, PCInv;
    MoverNoMore(s, s', t, pc');
    QuietStepInv(s, s', t, pc');
  }

  lemma HoldsNothingInv(s: State, s': State, t: nat, pc': PC, res': Option<nat>)
    requires Inv(s) && t < |s.threads| == |s.reservations| && Basic(s') && s' == Goto(Reserve(s, t, res'), t, pc')
    requires Harmless(pc') && Doomed(s.threads[t].pc) == [] && OwnRecord(pc') == None
    requires Held(pc') == {} && !Viewing(pc') && PCInv(s.recs, s.epoch, pc')
    requires (Reserving(pc') ==> res'.Some?) && (res'.Some? ==> res'.value <= s.epoch)
    ensures Inv(s')
  {
    ThreadOf(s, t);
    MoverHoldsNothing(s, s', t, pc', res');
    hide ThreadInv, SafeFrom, Apart, MoverHolds, OthersHold, RecordsInv, PCInv;
    QuietFrame(s, s', t);
    Assemble(s, s', t);
  }

  /** An idle thread starts mmm_empty. */
  lemma StartEmptyInv(s: State, s': State, t: nat)
    requires Inv(s) && t < |s.threads| && s.threads[t].pc == Idle && Basic(s') && s' == Goto(s, t, StartScan(s, None))
    ensures Inv(s')
  {
    var th, th', res := s.threads[t], s'.threads[t], s.reservations[t];
    ThreadOf(s, t);
    assert ThreadInv(s'.recs, s'.epoch, th', res) by {
      assert LimboInv(s.recs, th') by { assert Limbo(th') == Limbo(th); }
      hide LimboInv, Basic, RecordsInv;
    }
    forall u | 0 <= u < |s'.threads|
      ensures SafeFrom(s'.recs, t, th'.pc, res, s'.threads[u])
      ensures u != t ==> SafeFrom(s'.recs, u, s'.threads[u].pc, s'.reservations[u], th')
      ensures u != t ==> Apart(th', s'.threads[u])
    {
      hide RecordsInv, ThreadInv;
      if u != t {
        StartsScanSafe(s, s'.recs, u, s'.threads[u].pc, s'.reservations[u], th');
        ApartOf(s, t, u);
        assert Limbo(th') == Limbo(th);
      }
    }
    QuietStepInv(s, s', t, th'.pc);
  }

  lemma BeginOrEnd(s: State, t: nat, c: Choice)
    requires Inv(s) && Enabled(s, t, c)
    requires var pc := s.threads[t].pc; pc.Booting? || pc.Idle? || pc.EpochLoaded? || pc.Ending?
    ensures Inv(Step(s, t, c))
  {
    var s' := Step(s, t, c);
    StepKeepsBasic(s, t, c);
    ThreadOf(s, t);
    hide Inv, RecordsInv, LimboInv, SafeFrom;
    match s.threads[t].pc {
      case Booting => HoldsNothingInv(s, s', t, Idle, None);
      case Ending => HoldsNothingInv(s, s', t, Idle, None);
      case EpochLoaded(op, loaded) => HoldsNothingInv(s, s', t, Reserved(op), Some(loaded));
      case Idle =>
        if c.Start? {
          assert s.reservations[t := s.reservations[t]] == s.reservations;
          HoldsNothingInv(s, s', t, EpochLoaded(c.op, s.epoch), s.reservations[t]);
        } else {
          StartEmptyInv(s, s', t);
        }
    }
  }

  lemma TakeHeadInv(s: State, s': State, t: nat, pc': PC, b: nat)
    requires Inv(s) && t < |s.threads| && Basic(s') && s' == Goto(s, t, pc') && b < |s.heads|
    requires Harmless(pc') && Doomed(s.threads[t].pc) == [] && OwnRecord(pc') == None
    requires Reserving(s.threads[t].pc) && Held(pc') == Opt(s.heads[b]) && PCInv(s.recs, s.epoch, pc')
    requires Viewing(pc') ==> Viewing(s.threads[t].pc) && ViewEpoch(pc') == ViewEpoch(s.threads[t].pc)
    ensures Inv(s')
  {
    MoverTakesHead(s, s', t, pc', b);
    QuietStepInv(s, s', t, pc');
  }

  lemma ReservedInv(s: State, t: nat, c: Choice)
    requires Inv(s) && Enabled(s, t, c) && s.threads[t].pc.Reserved?
    ensures Inv(Step(s, t, c))
  {
    var s' := Step(s, t, c);
    StepKeepsBasic(s, t, c);
    ThreadOf(s, t);
    var op := s.threads[t].pc.op;
    if op.View? {
      MoverStartsView(s, s', t);
      QuietStepInv(s, s', t, ViewBucket(s.epoch, []));
    } else {
      TakeHeadInv(s, s', t, HeadLoaded(Write(op, s.heads[op.bucket], s.heads[op.bucket], 0)), op.bucket);
    }
  }

  lemma StoreInv(s: State, t: nat, c: Choice)
    requires Inv(s) && Enabled(s, t, c)
    requires var pc := s.threads[t].pc; pc.HeadLoaded? || pc.CopyingEpoch? || pc.Finishing? || pc.Viewed?
                                        || (pc.Freeing? && pc.doomed == [])
    ensures Inv(Step(s, t, c))
  {
    var s' := Step(s, t, c);
    StepKeepsBasic(s, t, c);
    ThreadOf(s, t);
    var pc' := NextPC(s, t, c);
    assert s' == Goto(s, t, pc');
    StoreNoMore(s, t, c);
    hide Basic, ThreadInv, RecordsInv, NoMore, Step, NextPC;
    NoMoreInv(s, s', t, pc');
  }

  lemma StoreNoMore(s: State, t: nat, c: Choice)
    requires Inv(s) && Enabled(s, t, c)
    requires var pc := s.threads[t].pc; pc.HeadLoaded? || pc.CopyingEpoch? || pc.Finishing? || pc.Viewed?
                                        || (pc.Freeing? && pc.doomed == [])
    ensures NoMore(s.threads[t].pc, NextPC(s, t, c)) && PCInv(s.recs, s.epoch, NextPC(s, t, c))
    ensures !Viewing(NextPC(s, t, c))
  {
    ThreadOf(s, t);
    hide RecordsInv, LimboInv, Protected, SafeFrom, Apart, Inv, Cut, Resume, Lower;
  }

  lemma FailedInstallInv(s: State, t: nat, c: Choice)
    requires Inv(s) && Enabled(s, t, c) && s.threads[t].pc.Installing?
    requires WriteOK(s, s.threads[t].pc.w) && !InstallSucceeds(s, s.threads[t].pc.w)
    ensures Inv(Step(s, t, c))
  {
    var w := s.threads[t].pc.w;
    var pc' := AfterInstall(s, w);
    StepKeepsBasic(s, t, c);
    FailedInstall(s, t, c);
    ThreadOf(s, t);
    hide Inv, Basic, RecordsInv, ThreadInv, SafeFrom, Step, NextPC, PCInv, NoMore;
    if Held(pc') == {} {
      NoMoreInv(s, Step(s, t, c), t, pc');
    } else {
      TakeHeadInv(s, Step(s, t, c), t, pc', w.op.bucket);
    }
  }

  lemma FailedInstall(s: State, t: nat, c: Choice)
    requires Inv(s) && Enabled(s, t, c) && s.threads[t].pc.Installing?
    requires WriteOK(s, s.threads[t].pc.w) && !InstallSucceeds(s, s.threads[t].pc.w)
    ensures var w := s.threads[t].pc.w;
            var pc, pc' := s.threads[t].pc, AfterInstall(s, w);
            && Step(s, t, c) == Goto(s, t, pc') && PCInv(s.recs, s.epoch, pc')
            && Harmless(pc') && Doomed(pc) == [] && OwnRecord(pc') == None && !Viewing(pc') && Reserving(pc)
            && (Held(pc') == {} ==> NoMore(pc, pc'))
            && (Held(pc') != {} ==> Held(pc') == Opt(s.heads[w.op.bucket]))
  {
    ThreadOf(s, t);
    hide RecordsInv, LimboInv, Protected, SafeFrom, Apart;
  }

  lemma HelpLoadInv(s: State, t: nat, c: Choice)
    requires Inv(s) && Enabled(s, t, c) && s.threads[t].pc.HelpLoading?
    ensures Inv(Step(s, t, c))
  {
    ThreadOf(s, t);
    var pc := s.threads[t].pc;
    if WE(s.recs, pc.rec) != 0 {
      ResumeQuietly(s, t, c);
    } else {
      StepKeepsBasic(s, t, c);
      var pc' := HelpBumping(pc.rec, pc.k);
      assert Step(s, t, c) == Goto(s, t, pc');
      if Viewing(pc') { HelpLoadView(s, pc, s.reservations[t].value); }
      hide Basic, RecordsInv, ThreadInv, Step;
      NoMoreInv(s, Step(s, t, c), t, pc');
    }
  }

  lemma HelpLoadView(s: State, pc: PC, reserved: nat)
    requires pc.HelpLoading? && Viewing(pc) && ViewInv(s.recs, s.epoch, pc, reserved)
    ensures ViewInv(s.recs, s.epoch, HelpBumping(pc.rec, pc.k), reserved)
  {
    assert ViewEpoch(HelpBumping(pc.rec, pc.k)) == ViewEpoch(pc);
  }

  lemma ViewBucketInv(s: State, t: nat, c: Choice)
    requires Inv(s) && Enabled(s, t, c) && s.threads[t].pc.ViewBucket?
    ensures Inv(Step(s, t, c))
  {
    var s', pc, pc' := Step(s, t, c), s.threads[t].pc, NextPC(s, t, c);
    StepKeepsBasic(s, t, c);
    ThreadOf(s, t);
    assert s' == Goto(s, t, pc');
    assert ViewEpoch(pc') == ViewEpoch(pc);
    if pc'.HelpLoading? {
      hide Inv, Basic, RecordsInv, ThreadInv, Step;
      TakeHeadInv(s, s', t, pc', |pc.got|);
    } else {
      hide Inv, Basic, RecordsInv, ThreadInv, Step;
      NoMoreInv(s, s', t, pc');
    }
  }

  lemma DescendInv(s: State, t: nat, c: Choice)
    requires Inv(s) && Enabled(s, t, c) && s.threads[t].pc.Descending?
    ensures Inv(Step(s, t, c))
  {
    var s', pc, pc' := Step(s, t, c), s.threads[t].pc, NextPC(s, t, c);
    StepKeepsBasic(s, t, c);
    ThreadOf(s, t);
    assert s' == Goto(s, t, pc');
    assert ViewEpoch(pc') == ViewEpoch(pc);
    if pc.cur.None? || WE(s.recs, pc.cur.value) <= pc.epoch {
      hide Inv, Basic, RecordsInv, ThreadInv, Step;
      NoMoreInv(s, s', t, pc');
    } else {
      MoverDescends(s, s', t, pc');
      QuietStepInv(s, s', t, pc');
    }
  }

  /** The item has been read; the view goes on to the next bucket. */
  lemma TakeInv(s: State, t: nat, c: Choice)
    requires Inv(s) && Enabled(s, t, c) && s.threads[t].pc.Taking?
    ensures Inv(Step(s, t, c))
  {
    var s', pc, pc' := Step(s, t, c), s.threads[t].pc, NextPC(s, t, c);
    StepKeepsBasic(s, t, c);
    ThreadOf(s, t);
    assert s' == Goto(s, t, pc');
    assert ViewEpoch(pc') == ViewEpoch(pc);
    hide Inv, Basic, RecordsInv, ThreadInv, Step;
    NoMoreInv(s, s', t, pc');
  }

  /** Every linked step keeps the invariant. */
  lemma StepKeepsInv(s: State, t: nat, c: Choice)
    requires Inv(s) && Enabled(s, t, c) && LinkedMove(s, Turn(t, c))
    ensures Inv(Step(s, t, c))
  {
    var pc := s.threads[t].pc;
    hide Step;
    match pc {
      case Booting => BeginOrEnd(s, t, c);
      case Idle => BeginOrEnd(s, t, c);
      case EpochLoaded(_, _) => BeginOrEnd(s, t, c);
      case Ending => BeginOrEnd(s, t, c);
      case Reserved(_) => ReservedInv(s, t, c);
      case HeadLoaded(_) => StoreInv(s, t, c);
      case CopyingEpoch(_) => StoreInv(s, t, c);
      case Installing(w) =>
        ThreadOf(s, t);
        if InstallSucceeds(s, w) { PushInv(s, t, c, w); } else { FailedInstallInv(s, t, c); }
      case HelpLoading(_, _) => HelpLoadInv(s, t, c);
      case HelpBumping(_, _) => BumpInv(s, t, c);
      case HelpSwapping(_, _, _) => SwapInv(s, t, c);
      case Retiring(_, _) => RetireInv(s, t, c);
      case Scanning(last, slot, _, _) =>
        ThreadOf(s, t);
        if slot < last { ScanInv(s, t, c); } else { CutInv(s, t, c); }
      case Freeing(doomed, _) => if doomed != [] { FreeInv(s, t, c); } else { StoreInv(s, t, c); }
      case Finishing(_) => StoreInv(s, t, c);
      case ViewBucket(_, _) => ViewBucketInv(s, t, c);
      case Descending(_, _, _) => DescendInv(s, t, c);
      case Taking(_, _, _) => TakeInv(s, t, c);
      case Viewed(_, _) => StoreInv(s, t, c);
    }
  }

  lemma RegisterKeepsInv(s: State)
    requires Inv(s)
    ensures Inv(Register(s))
  {
    var s' := Register(s);
    var n := |s.threads|;
    RegisterKeepsBasic(s);
    hide Basic, RecordsInv;
    forall t | 0 <= t < |s'.threads| ensures ThreadInv(s'.recs, s'.epoch, s'.threads[t], s'.reservations[t]) {
      if t < n { assert ThreadInv(s.recs, s.epoch, s.threads[t], s.reservations[t]); }
    }
    forall t, u | 0 <= t < |s'.threads| && 0 <= u < |s'.threads|
      ensures SafeFrom(s'.recs, t, s'.threads[t].pc, s'.reservations[t], s'.threads[u])
    {
      if u == n {
        HarmlessOther(s'.recs, t, s'.threads[t].pc, s'.reservations[t], s'.threads[u]);
      } else if t < n {
        SafeOf(s, t, u);
      }
    }
    forall t, u | 0 <= t < u < |s'.threads| ensures Apart(s'.threads[t], s'.threads[u]) {
      if u < n { assert Apart(s.threads[t], s.threads[u]); }
    }
  }

  lemma InitInv(buckets: nat)
    ensures Inv(Init(buckets))
  {
  }
}
