/** Snapshots: in runs whose pushes are clean, that is, linked and onto a record that has its epoch, a
    view returns the table of its epoch. */
module LohatSnapshot {
  import opened Options
  import opened LohatModel
  import opened LohatInvariant
  import opened LohatFrames
  import opened LohatMover
  import opened LohatEffects
  import opened LohatProof
  import opened LohatEpochs

  // ---- the invariant ------------------------------------------------------------------

  /** Only the last record of a bucket may be without an epoch. */
  predicate OnlyHeadsPend(recs: seq<Record>)
  {
    forall i, j :: 0 <= i < j < |recs| && SameBucket(recs, i, j) ==> WE(recs, i) != 0
  }

  /** And epochs grow along a chain. */
  predicate Ordered(recs: seq<Record>)
  {
    && OnlyHeadsPend(recs)
    && forall i, j ::
         0 <= i < j < |recs| && SameBucket(recs, i, j) && WE(recs, j) != 0 ==> WE(recs, i) < WE(recs, j)
  }

  function ViewGot(pc: PC): seq<Option<nat>>
    requires Viewing(pc)
  {
    if pc.ViewBucket? || pc.Descending? || pc.Taking? || pc.Viewed? then pc.got else pc.k.got
  }

  predicate Above(r: Option<nat>, m: nat) { r.None? || r.value < m }

  /** Where a view stands in its bucket, if it has come to the bucket's head. */
  predicate Stands(pc: PC, m: nat)
    requires Viewing(pc)
  {
    if pc.Descending? then Above(pc.cur, m)
    else if pc.Taking? then pc.rec < m
    else (pc.HelpLoading? || pc.HelpBumping? || pc.HelpSwapping?) && pc.k.rec < m
  }

  /** Record m of bucket b lies above what the view has taken, or has reached, in that bucket. */
  predicate Passed(pc: PC, b: nat, m: nat)
    requires Viewing(pc)
  {
    (b < |ViewGot(pc)| && Above(ViewGot(pc)[b], m)) || (b == |ViewGot(pc)| && Stands(pc, m))
  }

  /** A view has taken records up to its epoch, and all it has passed over came later. */
  predicate ViewSnap(recs: seq<Record>, pc: PC)
    requires Viewing(pc)
  {
    && (forall b :: 0 <= b < |ViewGot(pc)| && ViewGot(pc)[b].Some? ==>
          ViewGot(pc)[b].value < |recs| && 0 < WE(recs, ViewGot(pc)[b].value) <= ViewEpoch(pc))
    && (forall m :: 0 <= m < |recs| && Passed(pc, recs[m].bucket, m) && WE(recs, m) != 0 ==>
          ViewEpoch(pc) < WE(recs, m))
  }

  /** An epoch drawn for a record is later than all below; a view goes down committed records. */
  predicate PCSnap(recs: seq<Record>, pc: PC)
  {
    && (pc.HelpSwapping? ==>
          pc.rec < |recs| && forall i :: 0 <= i < pc.rec && SameBucket(recs, i, pc.rec) ==> WE(recs, i) < pc.mine)
    && (pc.Descending? ==> Committed(recs, pc.cur))
    && (pc.Taking? ==> pc.rec < |recs| && 0 < WE(recs, pc.rec) <= pc.epoch)
    && (Viewing(pc) ==> ViewSnap(recs, pc))
  }

  /** What another thread still commits above the records a view has seen comes later. */
  predicate PairSnap(recs: seq<Record>, pc: PC, other: PC)
  {
    Viewing(pc) && other.HelpSwapping? && other.rec < |recs| && Passed(pc, recs[other.rec].bucket, other.rec) ==>
      CommitsAfter(recs, other, ViewEpoch(pc))
  }

  ghost predicate Snap(s: State)
  {
    && Inv(s) && Ordered(s.recs)
    && (forall t :: 0 <= t < |s.threads| ==> PCSnap(s.recs, s.threads[t].pc))
    && (forall t, u :: 0 <= t < |s.threads| && 0 <= u < |s.threads| ==>
          PairSnap(s.recs, s.threads[t].pc, s.threads[u].pc))
  }

  // ---- clean moves --------------------------------------------------------------------

  /** The push leads to the record it replaces, and that record has its epoch. */
  predicate CleanPush(s: State, w: Write) { LinkedPush(w) && Committed(s.recs, w.head) }

  predicate CleanMove(s: State, m: Move)
    requires Basic(s) && Allowed(s, m)
  {
    m.Turn? && s.threads[m.t].pc.Installing? ==>
      var w := s.threads[m.t].pc.w;
      assert ThreadOK(s, m.t);
      InstallSucceeds(s, w) ==> CleanPush(s, w)
  }

  lemma CleanIsLinked(s: State, m: Move)
    requires Basic(s) && Allowed(s, m) && CleanMove(s, m)
    ensures LinkedMove(s, m)
  {
    hide Basic;
  }

  // ---- steps that change neither records nor write epochs -----------------------------

  /** Records as far as snapshots are concerned: buckets, links and write epochs. */
  ghost predicate SameWrites(recs: seq<Record>, recs': seq<Record>)
  {
    |recs'| == |recs| && SameShape(recs, recs') && SameWE(recs, recs')
  }

  lemma SameWritesSnap(recs: seq<Record>, recs': seq<Record>)
    requires SameWrites(recs, recs')
    ensures Ordered(recs) ==> Ordered(recs')
    ensures forall pc :: PCSnap(recs, pc) ==> PCSnap(recs', pc)
    ensures forall pc, other :: PairSnap(recs, pc, other) ==> PairSnap(recs', pc, other)
  {
    forall pc | PCSnap(recs, pc) ensures PCSnap(recs', pc) { SamePC(recs, recs', pc); }
    forall pc, other | PairSnap(recs, pc, other) ensures PairSnap(recs', pc, other) {}
  }

  lemma SamePC(recs: seq<Record>, recs': seq<Record>, pc: PC)
    requires SameWrites(recs, recs') && PCSnap(recs, pc)
    ensures PCSnap(recs', pc)
  {
    hide Passed, ViewSnap;
    if Viewing(pc) { SameView(recs, recs', pc); }
  }

  lemma SameView(recs: seq<Record>, recs': seq<Record>, pc: PC)
    requires SameWrites(recs, recs') && Viewing(pc) && ViewSnap(recs, pc)
    ensures ViewSnap(recs', pc)
  {
    hide Viewing, ViewGot, ViewEpoch, Passed;
  }

  /** The invariant after a step of t, from what it says of t. */
  lemma AssembleSnap(s: State, s': State, t: nat)
    requires Snap(s) && Inv(s') && t < |s.threads| == |s'.threads| && Ordered(s'.recs)
    requires forall u :: 0 <= u < |s.threads| && u != t ==> s'.threads[u] == s.threads[u]
    requires forall u :: 0 <= u < |s.threads| && u != t ==> PCSnap(s'.recs, s.threads[u].pc)
    requires forall u, v :: 0 <= u < |s.threads| && 0 <= v < |s.threads| && u != t && v != t ==>
               PairSnap(s'.recs, s.threads[u].pc, s.threads[v].pc)
    requires PCSnap(s'.recs, s'.threads[t].pc)
    requires forall u :: 0 <= u < |s.threads| ==> PairSnap(s'.recs, s'.threads[t].pc, s'.threads[u].pc)
    requires forall u :: 0 <= u < |s.threads| && u != t ==> PairSnap(s'.recs, s.threads[u].pc, s'.threads[t].pc)
    ensures Snap(s')
  {
    hide Inv, Ordered, PCSnap, PairSnap;
  }

  lemma PCOf(s: State, t: nat)
    requires Snap(s) && t < |s.threads|
    ensures Inv(s) && Basic(s) && Ordered(s.recs) && PCSnap(s.recs, s.threads[t].pc)
    ensures forall u :: 0 <= u < |s.threads| ==> PairSnap(s.recs, s.threads[t].pc, s.threads[u].pc)
    ensures forall u :: 0 <= u < |s.threads| ==> PairSnap(s.recs, s.threads[u].pc, s.threads[t].pc)
  {
    assert Basic(s);
    hide Inv, Basic, Ordered, PCSnap, PairSnap;
  }

  lemma QuietSnap(s: State, s': State, t: nat)
    requires Snap(s) && Inv(s') && t < |s.threads| == |s'.threads|
    requires forall u :: 0 <= u < |s.threads| && u != t ==> s'.threads[u] == s.threads[u]
    requires SameWrites(s.recs, s'.recs)
    requires PCSnap(s.recs, s'.threads[t].pc)
    requires forall u :: 0 <= u < |s.threads| && u != t ==>
               PairSnap(s.recs, s'.threads[t].pc, s.threads[u].pc)
               && PairSnap(s.recs, s.threads[u].pc, s'.threads[t].pc)
    requires PairSnap(s.recs, s'.threads[t].pc, s'.threads[t].pc)
    ensures Snap(s')
  {
    SameWritesSnap(s.recs, s'.recs);
    assert forall u :: 0 <= u < |s.threads| ==> PCSnap(s.recs, s.threads[u].pc);
    hide Inv, Ordered, PCSnap, PairSnap, SameWrites;
    AssembleSnap(s, s', t);
  }

  // ---- what the mover sees ------------------------------------------------------------

  /** A step that is no commit and no push leaves buckets, links and write epochs alone. */
  lemma StepIsQuiet(s: State, t: nat, c: Choice)
    requires Basic(s) && Enabled(s, t, c)
    requires var pc := s.threads[t].pc; pc.HelpSwapping? && pc.rec < |s.recs| ==> WE(s.recs, pc.rec) != 0
    requires var pc := s.threads[t].pc; pc.Installing? && WriteOK(s, pc.w) ==> !InstallSucceeds(s, pc.w)
    ensures SameWrites(s.recs, Step(s, t, c).recs)
  {
    assert ThreadOK(s, t);
    hide NextPC;
  }

  /** A thread at a place where it neither views nor commits. */
  predicate Elsewhere(pc: PC) { !Viewing(pc) && !pc.HelpSwapping? }

  lemma ElsewhereSnap(recs: seq<Record>, pc: PC)
    requires Elsewhere(pc)
    ensures PCSnap(recs, pc) && forall other :: PairSnap(recs, pc, other) && PairSnap(recs, other, pc)
  {
  }

  /** A view at pc' has passed nothing but what it had passed at pc and what came later. */
  ghost predicate PassesLater(recs: seq<Record>, pc: PC, pc': PC)
    requires Viewing(pc) && Viewing(pc')
  {
    forall m :: 0 <= m < |recs| && Passed(pc', recs[m].bucket, m) ==>
      Passed(pc, recs[m].bucket, m) || ViewEpoch(pc) < WE(recs, m)
  }

  ghost predicate TakesCommitted(recs: seq<Record>, pc: PC, pc': PC)
    requires Viewing(pc) && Viewing(pc')
  {
    forall b :: 0 <= b < |ViewGot(pc')| && ViewGot(pc')[b].Some? ==>
      (b < |ViewGot(pc)| && ViewGot(pc')[b] == ViewGot(pc)[b])
      || (ViewGot(pc')[b].value < |recs| && 0 < WE(recs, ViewGot(pc')[b].value) <= ViewEpoch(pc))
  }

  /** From pc a view goes on to pc', and has seen no more than it may. */
  ghost predicate Onward(recs: seq<Record>, pc: PC, pc': PC)
  {
    && Viewing(pc) && Viewing(pc') && ViewEpoch(pc') == ViewEpoch(pc) && !pc'.HelpSwapping?
    && PassesLater(recs, pc, pc') && TakesCommitted(recs, pc, pc')
    && (pc'.Descending? ==> Committed(recs, pc'.cur))
    && (pc'.Taking? ==> pc'.rec < |recs| && 0 < WE(recs, pc'.rec) <= pc'.epoch)
  }

  lemma ViewGoesOn(recs: seq<Record>, pc: PC, pc': PC)
    requires PCSnap(recs, pc) && Onward(recs, pc, pc')
    ensures PCSnap(recs, pc')
    ensures forall other :: PairSnap(recs, pc, other) ==> PairSnap(recs, pc', other)
    ensures forall other :: PairSnap(recs, other, pc')
  {
    ViewSeesOn(recs, pc, pc');
    hide Passed, ViewSnap, TakesCommitted, ViewGot;
  }

  lemma ViewSeesOn(recs: seq<Record>, pc: PC, pc': PC)
    requires Viewing(pc) && Viewing(pc') && ViewSnap(recs, pc) && ViewEpoch(pc') == ViewEpoch(pc)
    requires PassesLater(recs, pc, pc') && TakesCommitted(recs, pc, pc')
    ensures ViewSnap(recs, pc')
  {
    hide Viewing, ViewGot, ViewEpoch, Passed;
  }

  predicate ViewStepping(recs: seq<Record>, pc: PC)
  {
    || pc.ViewBucket? || pc.Descending? || pc.Taking? || (pc.HelpLoading? && pc.k.ThenDescend?)
    || (pc.HelpSwapping? && pc.k.ThenDescend? && pc.rec < |recs| && WE(recs, pc.rec) != 0)
  }

  /** A view's steps within a bucket and from one to the next. */
  lemma ViewSteps(s: State, t: nat, c: Choice)
    requires Snap(s) && Enabled(s, t, c) && ViewStepping(s.recs, s.threads[t].pc)
    ensures Onward(s.recs, s.threads[t].pc, NextPC(s, t, c))
  {
    PCOf(s, t);
    ViewNext(s, t, c);
    var pc := s.threads[t].pc;
    ViewHelps(s, t);
    assert Chained(s.recs) by { ChainOf(s); }
    assert PCOK(s, pc) by { assert ThreadOK(s, t); }
    hide Inv, Basic, Ordered, Chained, PCSnap, PairSnap, Onward, Snap, NextPC, PCOK;
    match pc {
      case Descending(_, _, _) => Descends(s, pc);
      case ViewBucket(_, _) => TakesBucket(s, pc);
      case Taking(_, _, _) => Takes(s.recs, pc);
      case HelpLoading(_, _) => Helps(s, pc, NextPC(s, t, c));
      case HelpSwapping(_, _, _) => Helps(s, pc, NextPC(s, t, c));
    }
  }

  lemma ViewHelps(s: State, t: nat)
    requires Inv(s) && t < |s.threads|
    ensures var pc := s.threads[t].pc;
            (pc.HelpLoading? || pc.HelpSwapping?) && pc.k.ThenDescend? ==> pc.k.rec == pc.rec && pc.rec < |s.recs|
  {
    ThreadOf(s, t);
    hide Inv, RecordsInv, LimboInv, Protected;
  }

  lemma ViewNext(s: State, t: nat, c: Choice)
    requires Basic(s) && Enabled(s, t, c) && ViewStepping(s.recs, s.threads[t].pc)
    ensures var pc := s.threads[t].pc;
            NextPC(s, t, c) ==
              match pc
              case ViewBucket(e, got) =>
                if |got| >= |s.heads| then Viewed(e, got)
                else if s.heads[|got|].None? then Descending(e, got, None)
                else HelpLoading(s.heads[|got|].value, ThenDescend(e, got, s.heads[|got|].value))
              case Descending(e, got, cur) =>
                if cur.None? then ViewBucket(e, got + [cur])
                else if cur.value >= |s.recs| then pc
                else if WE(s.recs, cur.value) <= e then Taking(e, got, cur.value)
                else Descending(e, got, s.recs[cur.value].next)
              case Taking(e, got, rec) => ViewBucket(e, got + [Some(rec)])
              case HelpLoading(rec, k) =>
                if rec < |s.recs| && WE(s.recs, rec) == 0 then HelpBumping(rec, k) else Resume(k)
              case HelpSwapping(_, _, k) => Resume(k)
              case _ => pc
  {
    assert ThreadOK(s, t);
  }

  lemma Helps(s: State, pc: PC, pc': PC)
    requires (pc.HelpLoading? || pc.HelpSwapping?) && pc.k.ThenDescend? && pc.k.rec == pc.rec && pc.rec < |s.recs|
    requires (pc' == Resume(pc.k) && WE(s.recs, pc.rec) != 0) || (pc.HelpLoading? && pc' == HelpBumping(pc.rec, pc.k))
    ensures Onward(s.recs, pc, pc')
  {
  }

  lemma Takes(recs: seq<Record>, pc: PC)
    requires pc.Taking? && PCSnap(recs, pc)
    ensures Onward(recs, pc, ViewBucket(pc.epoch, pc.got + [Some(pc.rec)]))
  {
    hide ViewSnap;
  }

  lemma TakesBucket(s: State, pc: PC)
    requires Basic(s) && pc.ViewBucket? && PCOK(s, pc)
    ensures var b, e, got := |pc.got|, pc.epoch, pc.got;
            Onward(s.recs, pc,
                   if b == |s.heads| then Viewed(e, got)
                   else if s.heads[b].None? then Descending(e, got, None)
                   else HelpLoading(s.heads[b].value, ThenDescend(e, got, s.heads[b].value)))
  {
    if |pc.got| < |s.heads| { assert HeadOK(s, |pc.got|); }
    hide Basic;
  }

  lemma Descends(s: State, pc: PC)
    requires Basic(s) && Chained(s.recs) && Ordered(s.recs) && PCOK(s, pc) && pc.Descending? && PCSnap(s.recs, pc)
    ensures var e, got, cur := pc.epoch, pc.got, pc.cur;
            Onward(s.recs, pc,
                   if cur.None? then ViewBucket(e, got + [cur])
                   else if WE(s.recs, cur.value) <= e then Taking(e, got, cur.value)
                   else Descending(e, got, s.recs[cur.value].next))
  {
    if pc.cur.Some? && pc.epoch < WE(s.recs, pc.cur.value) { GoesDown(s, pc); }
    hide Basic, Ordered, Chained, ViewSnap;
  }

  lemma GoesDown(s: State, pc: PC)
    requires Basic(s) && Chained(s.recs) && Ordered(s.recs) && PCOK(s, pc)
    requires pc.Descending? && pc.cur.Some? && pc.epoch < WE(s.recs, pc.cur.value)
    ensures var pc' := pc.(cur := s.recs[pc.cur.value].next);
            PassesLater(s.recs, pc, pc') && Committed(s.recs, pc'.cur)
  {
    var c := pc.cur.value;
    var pc' := pc.(cur := s.recs[c].next);
    assert Linked(s.recs, c) && RecordOK(s, c);
    if pc'.cur.Some? { assert SameBucket(s.recs, pc'.cur.value, c); }
    hide Basic, Ordered;
    forall m | 0 <= m < |s.recs| && Passed(pc', s.recs[m].bucket, m)
      ensures Passed(pc, s.recs[m].bucket, m) || m == c
    {
    }
  }

  // ---- every clean step keeps the invariant -------------------------------------------

  lemma ViewSnapStep(s: State, t: nat, c: Choice)
    requires Snap(s) && Enabled(s, t, c) && Inv(Step(s, t, c))
    requires ViewStepping(s.recs, s.threads[t].pc)
    ensures Snap(Step(s, t, c))
  {
    PCOf(s, t);
    ViewSteps(s, t, c);
    StepIsQuiet(s, t, c);
    OnlyMover(s, t, c);
    hide Inv, Ordered, PCSnap, PairSnap, Step, NextPC, Onward, Basic, SameWrites;
    ViewGoesOn(s.recs, s.threads[t].pc, NextPC(s, t, c));
    QuietSnap(s, Step(s, t, c), t);
  }

  /** A thread's step to a place where it neither views nor commits. */
  lemma ElsewhereSnapStep(s: State, t: nat, c: Choice)
    requires Snap(s) && Enabled(s, t, c) && Inv(Step(s, t, c)) && Elsewhere(NextPC(s, t, c))
    requires var pc := s.threads[t].pc; pc.HelpSwapping? && pc.rec < |s.recs| ==> WE(s.recs, pc.rec) != 0
    requires var pc := s.threads[t].pc; pc.Installing? && WriteOK(s, pc.w) ==> !InstallSucceeds(s, pc.w)
    ensures Snap(Step(s, t, c))
  {
    StepIsQuiet(s, t, c);
    OnlyMover(s, t, c);
    hide Inv, Ordered, PCSnap, PairSnap, Step, NextPC, Basic, SameWrites, Elsewhere;
    ElsewhereSnap(s.recs, NextPC(s, t, c));
    QuietSnap(s, Step(s, t, c), t);
  }

  /** A view that begins has passed nothing. */
  lemma BeginSnapStep(s: State, t: nat, c: Choice)
    requires Snap(s) && Enabled(s, t, c) && Inv(Step(s, t, c)) && s.threads[t].pc == Reserved(View)
    ensures Snap(Step(s, t, c))
  {
    StepIsQuiet(s, t, c);
    OnlyMover(s, t, c);
    var pc' := NextPC(s, t, c);
    assert pc' == ViewBucket(s.epoch, []);
    hide Inv, Ordered, Step, NextPC, Basic, SameWrites;
    QuietSnap(s, Step(s, t, c), t);
  }

  /** The drawn epoch is later than all epochs in use and than every view's. */
  lemma BumpSnapStep(s: State, t: nat, c: Choice)
    requires Snap(s) && Enabled(s, t, c) && Inv(Step(s, t, c)) && s.threads[t].pc.HelpBumping?
    ensures Snap(Step(s, t, c))
  {
    PCOf(s, t);
    StepIsQuiet(s, t, c);
    OnlyMover(s, t, c);
    var pc, pc' := s.threads[t].pc, NextPC(s, t, c);
    assert pc' == HelpSwapping(pc.rec, s.epoch + 1, pc.k) && ThreadOK(s, t);
    forall u | 0 <= u < |s.threads|
      ensures PairSnap(s.recs, pc', s.threads[u].pc) && PairSnap(s.recs, s.threads[u].pc, pc')
    {
      BumpPairs(s, t, u);
    }
    BumpPC(s, t);
    hide Inv, Ordered, Step, NextPC, Basic, SameWrites, PCSnap, PairSnap;
    QuietSnap(s, Step(s, t, c), t);
  }

  lemma BumpPC(s: State, t: nat)
    requires Snap(s) && t < |s.threads| && s.threads[t].pc.HelpBumping?
    ensures var pc := s.threads[t].pc;
            var pc' := HelpSwapping(pc.rec, s.epoch + 1, pc.k);
            PCSnap(s.recs, pc') && PairSnap(s.recs, pc', pc')
  {
    PCOf(s, t);
    ThreadOf(s, t);
    var pc := s.threads[t].pc;
    hide Inv, Basic, Ordered, Passed, LimboInv, Protected, Snap, PairSnap;
    assert forall i :: 0 <= i < |s.recs| ==> WE(s.recs, i) <= s.epoch;
    if pc.k.ThenDescend? { SamePlace(pc, HelpSwapping(pc.rec, s.epoch + 1, pc.k)); }
    BumpPairs(s, t, t);
  }

  lemma BumpPairs(s: State, t: nat, u: nat)
    requires Snap(s) && t < |s.threads| && u < |s.threads| && s.threads[t].pc.HelpBumping?
    ensures var pc := s.threads[t].pc;
            var pc' := HelpSwapping(pc.rec, s.epoch + 1, pc.k);
            PairSnap(s.recs, pc', s.threads[u].pc) && PairSnap(s.recs, s.threads[u].pc, pc')
            && PairSnap(s.recs, pc', pc')
  {
    PCOf(s, t);
    ThreadOf(s, t); ThreadOf(s, u);
    var pc := s.threads[t].pc;
    hide Inv, Basic, Ordered, Passed, RecordsInv, LimboInv, Protected, PCInv, PCSnap, Snap;
    assert PairSnap(s.recs, pc, s.threads[u].pc);
    if pc.k.ThenDescend? { SamePlace(pc, HelpSwapping(pc.rec, s.epoch + 1, pc.k)); }
  }

  lemma SamePlace(pc: PC, pc': PC)
    requires (pc.HelpBumping? || pc.HelpLoading?) && pc.k.ThenDescend? && pc'.HelpSwapping? && pc'.k == pc.k
    ensures Viewing(pc) && Viewing(pc') && ViewEpoch(pc') == ViewEpoch(pc) && ViewGot(pc') == ViewGot(pc)
    ensures forall b, m :: Passed(pc', b, m) == Passed(pc, b, m)
  {
  }

  // ---- a commit -----------------------------------------------------------------------

  lemma CommitOrdered(recs: seq<Record>, recs': seq<Record>, pc: PC)
    requires pc.HelpSwapping? && IsCommit(recs, recs', pc.rec, pc.mine) && Ordered(recs) && PCSnap(recs, pc)
    requires pc.mine > 0
    ensures Ordered(recs')
  {
    assert forall i, j :: 0 <= i < |recs| && 0 <= j < |recs| && SameBucket(recs', i, j) ==> SameBucket(recs, i, j);
  }

  lemma CommitPC(recs: seq<Record>, recs': seq<Record>, mover: PC, pc: PC)
    requires mover.HelpSwapping? && IsCommit(recs, recs', mover.rec, mover.mine) && mover.mine > 0
    requires Ordered(recs) && PCSnap(recs, pc) && PairSnap(recs, pc, mover)
    ensures PCSnap(recs', pc)
  {
    hide ViewSnap;
    if Viewing(pc) { CommitSees(recs, recs', mover, pc); }
  }

  lemma CommitSees(recs: seq<Record>, recs': seq<Record>, mover: PC, pc: PC)
    requires mover.HelpSwapping? && IsCommit(recs, recs', mover.rec, mover.mine) && mover.mine > 0
    requires Viewing(pc) && ViewSnap(recs, pc) && PairSnap(recs, pc, mover)
    ensures ViewSnap(recs', pc)
  {
    hide Viewing, ViewGot, ViewEpoch, Passed;
  }

  lemma CommitPairSnap(recs: seq<Record>, recs': seq<Record>, r: nat, e: nat, pc: PC, other: PC)
    requires IsCommit(recs, recs', r, e) && PairSnap(recs, pc, other)
    ensures PairSnap(recs', pc, other)
  {
  }

  lemma ResumeSnap(recs: seq<Record>, pc: PC)
    requires pc.HelpSwapping? && pc.rec < |recs| && WE(recs, pc.rec) != 0 && PCSnap(recs, pc)
    requires pc.k.ThenDescend? ==> pc.k.rec == pc.rec
    ensures PCSnap(recs, Resume(pc.k))
    ensures forall other :: PairSnap(recs, pc, other) ==> PairSnap(recs, Resume(pc.k), other)
    ensures forall other :: PairSnap(recs, other, Resume(pc.k))
  {
    var pc' := Resume(pc.k);
    if Viewing(pc') {
      assert forall b, m :: Passed(pc', b, m) == Passed(pc, b, m);
      assert ViewGot(pc') == ViewGot(pc) && ViewEpoch(pc') == ViewEpoch(pc);
      hide Passed;
      assert ViewSnap(recs, pc');
    }
  }

  lemma CommitSnapStep(s: State, t: nat, c: Choice)
    requires Snap(s) && Enabled(s, t, c) && Inv(Step(s, t, c)) && s.threads[t].pc.HelpSwapping?
    requires s.threads[t].pc.rec < |s.recs| && WE(s.recs, s.threads[t].pc.rec) == 0
    ensures Snap(Step(s, t, c))
  {
    var s', pc := Step(s, t, c), s.threads[t].pc;
    var recs, recs' := s.recs, s'.recs;
    PCOf(s, t);
    OnlyMover(s, t, c);
    CommitIsCommit(s, pc.rec, pc.mine);
    assert NextPC(s, t, c) == Resume(pc.k) && recs' == Commit(s, pc.rec, pc.mine).recs;
    assert pc.mine > 0 && (pc.k.ThenDescend? ==> pc.k.rec == pc.rec) by {
      ThreadOf(s, t);
      hide RecordsInv, LimboInv, Protected;
    }
    hide Inv, Ordered, PCSnap, PairSnap, Step, NextPC, Basic, Resume, Commit;
    CommitOrdered(recs, recs', pc);
    forall u | 0 <= u < |s.threads| ensures PCSnap(recs', s.threads[u].pc) {
      PCOf(s, u);
      CommitPC(recs, recs', pc, s.threads[u].pc);
    }
    forall u, v | 0 <= u < |s.threads| && 0 <= v < |s.threads|
      ensures PairSnap(recs', s.threads[u].pc, s.threads[v].pc)
    {
      PCOf(s, u);
      CommitPairSnap(recs, recs', pc.rec, pc.mine, s.threads[u].pc, s.threads[v].pc);
    }
    assert WE(recs', pc.rec) != 0 by { hide Inv; }
    ResumeSnap(recs', pc);
    AssembleSnap(s, s', t);
  }

  // ---- a push -------------------------------------------------------------------------

  lemma PushOrdered(s: State, w: Write)
    requires Basic(s) && Ordered(s.recs) && WriteOK(s, w) && InstallSucceeds(s, w) && CleanPush(s, w)
    ensures Ordered(Push(s, w).recs)
  {
    var recs', n := Push(s, w).recs, |s.recs|;
    PushIsPush(s, w);
    PushShape(s.recs, recs');
    assert HeadOK(s, w.op.bucket);
    forall i, j | 0 <= i < j < |recs'| && SameBucket(recs', i, j) ensures WE(recs', i) != 0 {
      if j < n {
        assert SameBucket(s.recs, i, j);
      } else if i < w.head.value {
        assert SameBucket(s.recs, i, w.head.value);
      }
    }
  }

  lemma PushPC(s: State, recs': seq<Record>, pc: PC)
    requires IsPush(s.recs, recs') && PCOK(s, pc) && PCSnap(s.recs, pc)
    ensures PCSnap(recs', pc)
  {
    PushShape(s.recs, recs');
    hide IsPush, Passed, ViewSnap;
    if Viewing(pc) { PushSees(s.recs, recs', pc); }
  }

  lemma PushSees(recs: seq<Record>, recs': seq<Record>, pc: PC)
    requires IsPush(recs, recs') && Viewing(pc) && ViewSnap(recs, pc)
    ensures ViewSnap(recs', pc)
  {
    PushShape(recs, recs');
    hide IsPush, Viewing, ViewGot, ViewEpoch, Passed;
  }

  lemma PushPairSnap(s: State, recs': seq<Record>, pc: PC, other: PC)
    requires IsPush(s.recs, recs') && PCOK(s, other) && PairSnap(s.recs, pc, other)
    ensures PairSnap(recs', pc, other)
  {
    PushShape(s.recs, recs');
    hide IsPush, Passed;
  }

  lemma PushSnapStep(s: State, t: nat, c: Choice, w: Write)
    requires Snap(s) && Enabled(s, t, c) && Inv(Step(s, t, c)) && s.threads[t].pc == Installing(w)
    requires WriteOK(s, w) && InstallSucceeds(s, w) && CleanPush(s, w)
    ensures Snap(Step(s, t, c))
  {
    var s' := Step(s, t, c);
    PCOf(s, t);
    OnlyMover(s, t, c);
    PushIsPush(s, w);
    PushOrdered(s, w);
    var recs' := Push(s, w).recs;
    assert s'.recs == recs' && Elsewhere(s'.threads[t].pc);
    forall u | 0 <= u < |s.threads| ensures PCOK(s, s.threads[u].pc) { assert ThreadOK(s, u); }
    ElsewhereSnap(recs', s'.threads[t].pc);
    hide Inv, Ordered, PCSnap, PairSnap, Step, NextPC, Basic, IsPush, PCOK;
    forall u | 0 <= u < |s.threads| ensures PCSnap(recs', s.threads[u].pc) {
      PCOf(s, u);
      PushPC(s, recs', s.threads[u].pc);
    }
    forall u, v | 0 <= u < |s.threads| && 0 <= v < |s.threads|
      ensures PairSnap(recs', s.threads[u].pc, s.threads[v].pc)
    {
      PCOf(s, u);
      PushPairSnap(s, recs', s.threads[u].pc, s.threads[v].pc);
    }
    AssembleSnap(s, s', t);
  }

  // ---- all steps ----------------------------------------------------------------------

  /** Where a step that is neither a view's, nor a draw, nor a commit, leads. */
  lemma LeadsElsewhere(s: State, t: nat, c: Choice)
    requires Basic(s) && Enabled(s, t, c)
    requires var pc := s.threads[t].pc;
             && (Viewing(pc) ==> pc.Viewed?) && pc != Reserved(View) && !pc.HelpBumping?
    ensures Elsewhere(NextPC(s, t, c))
  {
    assert ThreadOK(s, t);
  }

  lemma StepKeepsSnap(s: State, t: nat, c: Choice)
    requires Snap(s) && Enabled(s, t, c) && CleanMove(s, Turn(t, c))
    ensures Snap(Step(s, t, c))
  {
    PCOf(s, t);
    assert ThreadOK(s, t);
    CleanIsLinked(s, Turn(t, c));
    var pc := s.threads[t].pc;
    hide Inv, Step, NextPC, Snap, LinkedMove;
    StepKeepsInv(s, t, c);
    if pc.Installing? && InstallSucceeds(s, pc.w) {
      PushSnapStep(s, t, c, pc.w);
    } else if pc.HelpSwapping? && WE(s.recs, pc.rec) == 0 {
      CommitSnapStep(s, t, c);
    } else if pc.HelpBumping? {
      BumpSnapStep(s, t, c);
    } else if pc == Reserved(View) {
      BeginSnapStep(s, t, c);
    } else if Viewing(pc) && !pc.Viewed? {
      ViewSnapStep(s, t, c);
    } else {
      LeadsElsewhere(s, t, c);
      ElsewhereSnapStep(s, t, c);
    }
  }

  lemma MoveKeepsSnap(s: State, m: Move)
    requires Snap(s) && Allowed(s, m) && CleanMove(s, m)
    ensures Snap(Apply(s, m))
  {
    match m
    case Turn(t, c) => hide Snap, CleanMove, Step; StepKeepsSnap(s, t, c);
    case Join =>
      RegisterKeepsInv(s);
      var s', n := Register(s), |s.threads|;
      ElsewhereSnap(s.recs, Booting);
      hide Inv, Ordered, PCSnap, PairSnap;
      forall t | 0 <= t < |s'.threads| ensures PCSnap(s'.recs, s'.threads[t].pc) {
        if t < n { assert PCSnap(s.recs, s.threads[t].pc); }
      }
      forall t, u | 0 <= t < |s'.threads| && 0 <= u < |s'.threads|
        ensures PairSnap(s'.recs, s'.threads[t].pc, s'.threads[u].pc)
      {
        if t < n && u < n { assert PairSnap(s.recs, s.threads[t].pc, s.threads[u].pc); }
      }
  }
}
