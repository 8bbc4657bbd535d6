/** The invariant for the steps that change shared memory: drawing an epoch, committing, pushing,
    retiring, scanning and freeing. */
module LohatEffects {
  import opened Options
  import opened LohatModel
  import opened LohatBasic
  import opened LohatInvariant
  import opened LohatFrames
  import opened LohatMover

  // ---- drawing an epoch ---------------------------------------------------------------

  lemma MoverBumps(s: State, s': State, t: nat)
    requires Inv(s) && t < |s.threads| && s.threads[t].pc.HelpBumping?
    requires var pc := s.threads[t].pc;
             s' == Goto(s.(epoch := s.epoch + 1), t, HelpSwapping(pc.rec, s.epoch + 1, pc.k))
    ensures MoverHolds(s', t)
  {
    var th, th', res := s.threads[t], s'.threads[t], s.reservations[t];
    ThreadOf(s, t);
    BumpThread(s, th, res);
    assert th' == Bumped(s, th);
    hide Inv, Basic, RecordsInv, ThreadInv, SafeFrom, Apart, Bumped;
    forall u | 0 <= u < |s'.threads|
      ensures SafeFrom(s'.recs, t, th'.pc, res, s'.threads[u])
      ensures u != t ==> SafeFrom(s'.recs, u, s'.threads[u].pc, s'.reservations[u], th')
      ensures u != t ==> Apart(th', s'.threads[u])
    {
      SafeOf(s, t, u); SafeOf(s, u, t);
      ThreadOf(s, u);
      if u == t {
        BumpSafe(s, t, th', res, th);
      } else {
        BumpPair(s, t, th, res, s.threads[u]);
        BumpOther(s, u, s.threads[u], s.reservations[u], th);
        ApartOf(s, t, u);
        BumpApart(s, th, s.threads[u], s.reservations[u]);
      }
    }
  }

  function Bumped(s: State, th: Thread): Thread
    requires th.pc.HelpBumping?
  {
    th.(pc := HelpSwapping(th.pc.rec, s.epoch + 1, th.pc.k))
  }

  lemma BumpThread(s: State, th: Thread, res: Option<nat>)
    requires th.pc.HelpBumping? && ThreadInv(s.recs, s.epoch, th, res) && PCOK(s, th.pc)
    requires RecordsInv(s.recs, s.heads, s.epoch)
    ensures ThreadInv(s.recs, s.epoch + 1, Bumped(s, th), res)
  {
    var th' := Bumped(s, th);
    assert LimboInv(s.recs, th') by { assert Limbo(th') == Limbo(th); }
    assert PendingInv(s.recs, s.epoch + 1, th.pc.rec, s.epoch + 1);
    hide LimboInv, PendingInv, RecordsInv, Protected;
    assert Held(th'.pc) == Held(th.pc) && Reserving(th'.pc) == Reserving(th.pc);
    if Viewing(th'.pc) { BumpView(s, th, res.value); }
  }

  lemma BumpView(s: State, th: Thread, reserved: nat)
    requires th.pc.HelpBumping? && Viewing(th.pc) && ViewInv(s.recs, s.epoch, th.pc, reserved)
    ensures ViewInv(s.recs, s.epoch + 1, Bumped(s, th).pc, reserved)
  {
    assert ViewEpoch(Bumped(s, th).pc) == ViewEpoch(th.pc);
  }

  lemma BumpPair(s: State, t: nat, th: Thread, res: Option<nat>, other: Thread)
    requires th.pc.HelpBumping? && SafeFrom(s.recs, t, th.pc, res, other)
    ensures SafeFrom(s.recs, t, Bumped(s, th).pc, res, other)
  {
    hide HolderSafe;
  }

  /** The drawn epoch is later than every reservation and every view. */
  lemma BumpOther(s: State, u: nat, th: Thread, res: Option<nat>, mover: Thread)
    requires mover.pc.HelpBumping? && SafeFrom(s.recs, u, th.pc, res, mover)
    requires ThreadInv(s.recs, s.epoch, th, res)
    ensures SafeFrom(s.recs, u, th.pc, res, Bumped(s, mover))
  {
    hide PCInv, LimboInv, Protected;
  }

  lemma BumpSafe(s: State, t: nat, th': Thread, res: Option<nat>, th: Thread)
    requires th.pc.HelpBumping? && th' == Bumped(s, th) && SafeFrom(s.recs, t, th.pc, res, th)
    requires ThreadInv(s.recs, s.epoch, th, res)
    ensures SafeFrom(s.recs, t, th'.pc, res, th')
  {
    BumpOther(s, t, th, res, th);
    hide HolderSafe, ThreadInv;
  }

  lemma BumpApart(s: State, mover: Thread, th: Thread, res: Option<nat>)
    requires mover.pc.HelpBumping? && Apart(mover, th) && ThreadInv(s.recs, s.epoch, th, res)
    ensures Apart(Bumped(s, mover), th)
  {
    assert Limbo(Bumped(s, mover)) == Limbo(mover);
    hide Protected, LimboInv;
  }

  lemma BumpInv(s: State, t: nat, c: Choice)
    requires Inv(s) && Enabled(s, t, c) && s.threads[t].pc.HelpBumping?
    ensures Inv(Step(s, t, c))
  {
    var s' := Step(s, t, c);
    StepKeepsBasic(s, t, c);
    ThreadOf(s, t);
    MoverBumps(s, s', t);
    hide Basic, ThreadInv, SafeFrom, Apart, MoverHolds, OthersHold, RecordsInv;
    LaterRecords(s.recs, s.heads, s.epoch, s'.epoch);
    QuietFrame(s, s', t);
    Assemble(s, s', t);
  }

  // ---- committing ---------------------------------------------------------------------

  lemma CommitRecords(s: State, r: nat, e: nat)
    requires RecordsInv(s.recs, s.heads, s.epoch) && r < |s.recs| && WE(s.recs, r) == 0
    requires PendingInv(s.recs, s.epoch, r, e)
    ensures RecordsInv(Commit(s, r, e).recs, s.heads, s.epoch)
  {
    var recs' := Commit(s, r, e).recs;
    CommitIsCommit(s, r, e);
    forall i | 0 <= i < |recs'| ensures Linked(recs', i) { assert Linked(s.recs, i); }
    assert Chained(recs');
  }

  /** The mover itself: its own commit came after everything it relies on. */
  lemma CommitOwnThread(s: State, t: nat, r: nat, e: nat, pc': PC)
    requires Inv(s) && t < |s.threads| && Pending(s.threads[t].pc, r, e) && r < |s.recs| && WE(s.recs, r) == 0
    requires pc' == Resume(s.threads[t].pc.k)
    ensures |s.reservations| == |s.threads|
    ensures ThreadInv(Commit(s, r, e).recs, s.epoch, Thread(pc', s.threads[t].retired), s.reservations[t])
  {
    var th, res := s.threads[t], s.reservations[t];
    var recs' := Commit(s, r, e).recs;
    ThreadOf(s, t);
    SafeOf(s, t, t);
    CommitIsCommit(s, r, e);
    var th' := Thread(pc', th.retired);
    assert LimboInv(recs', th') by { assert Limbo(th') == Limbo(th); }
    hide Basic, RecordsInv, LimboInv;
    ResumeHoldsLess(th.pc, th.pc.k);
    if Reserving(pc') {
      forall h | h in Held(pc') ensures Protected(recs', h, res.value) {
        assert h in Held(th.pc);
        assert Protected(s.recs, h, res.value) && HolderSafe(s.recs, t, h, res.value, th);
      }
    }
    if Viewing(pc') { CommitView(s, recs', r, e, th.pc, pc', res.value); }
    CommitResumes(s, r, e, th.pc.k);
    hide PCInv, Protected, IsCommit, Resume;
  }

  lemma CommitResumes(s: State, r: nat, e: nat, k: Cont)
    requires r < |s.recs| && WE(s.recs, r) == 0 && 0 < e && ContInv(s.recs, r, k)
    ensures PCInv(Commit(s, r, e).recs, s.epoch, Resume(k))
  {
    var recs' := Commit(s, r, e).recs;
    assert ContInv(recs', r, k);
    ResumePCInv(recs', s.epoch, r, k);
  }

  lemma CommitView(s: State, recs': seq<Record>, r: nat, e: nat, pc: PC, pc': PC, reserved: nat)
    requires Pending(pc, r, e) && IsCommit(s.recs, recs', r, e) && pc.k.ThenDescend? && pc' == Resume(pc.k)
    requires ViewInv(s.recs, s.epoch, pc, reserved)
    ensures ViewInv(recs', s.epoch, pc', reserved)
  {
    assert ViewEpoch(pc') == ViewEpoch(pc);
  }

  lemma ResumeHoldsLess(pc: PC, k: Cont)
    requires (pc.HelpSwapping? || pc.HelpLoading?) && pc.k == k
    ensures Held(Resume(k)) <= Held(pc) && Harmless(Resume(k)) && Doomed(Resume(k)) == []
    ensures OwnRecord(Resume(k)) == None || OwnRecord(Resume(k)) == OwnRecord(pc)
    ensures Viewing(Resume(k)) ==> Viewing(pc) && ViewEpoch(Resume(k)) == ViewEpoch(pc)
  {
  }

  lemma MoverCommits(s: State, s': State, t: nat, r: nat, e: nat)
    requires Inv(s) && t < |s.threads| && Pending(s.threads[t].pc, r, e) && r < |s.recs| && WE(s.recs, r) == 0
    requires s' == Goto(Commit(s, r, e), t, Resume(s.threads[t].pc.k))
    ensures MoverHolds(s', t)
  {
    var th, th', res := s.threads[t], s'.threads[t], s.reservations[t];
    CommitOwnThread(s, t, r, e, th'.pc);
    CommitIsCommit(s, r, e);
    ResumeHoldsLess(th.pc, th.pc.k);
    ThreadOf(s, t);
    hide Basic, RecordsInv, ThreadInv, IsCommit;
    forall u | 0 <= u < |s'.threads|
      ensures SafeFrom(s'.recs, t, th'.pc, res, s'.threads[u])
      ensures u != t ==> SafeFrom(s'.recs, u, s'.threads[u].pc, s'.reservations[u], th')
      ensures u != t ==> Apart(th', s'.threads[u])
    {
      SafeOf(s, t, u);
      if u == t {
        HarmlessOther(s'.recs, t, th'.pc, res, th');
      } else {
        HarmlessOther(s'.recs, u, s'.threads[u].pc, s'.reservations[u], th');
        ResumeSafe(s.recs, t, th.pc, res, s.threads[u]);
        CommitPair(s.recs, s'.recs, r, e, t, th', res, s.threads[u]);
        ApartOf(s, t, u);
        assert Limbo(th') == Limbo(th);
      }
    }
  }

  lemma ResumeSafe(recs: seq<Record>, t: nat, pc: PC, res: Option<nat>, other: Thread)
    requires (pc.HelpSwapping? || pc.HelpLoading?) && SafeFrom(recs, t, pc, res, other)
    ensures SafeFrom(recs, t, Resume(pc.k), res, other)
  {
    ResumeHoldsLess(pc, pc.k);
    hide HolderSafe;
  }

  /** Once its record has an epoch, a thread may go on whether its own swap or another's did it. */
  lemma ResumePCInv(recs: seq<Record>, epoch: nat, rec: nat, k: Cont)
    requires ContInv(recs, rec, k) && rec < |recs| && WE(recs, rec) != 0
    ensures PCInv(recs, epoch, Resume(k))
  {
  }

  lemma ResumeQuietly(s: State, t: nat, c: Choice)
    requires Inv(s) && Enabled(s, t, c)
    requires var pc := s.threads[t].pc;
             (pc.HelpSwapping? || pc.HelpLoading?) && pc.rec < |s.recs| && WE(s.recs, pc.rec) != 0
    ensures Inv(Step(s, t, c))
  {
    var s' := Step(s, t, c);
    var pc := s.threads[t].pc;
    var pc' := Resume(pc.k);
    StepKeepsBasic(s, t, c);
    ThreadOf(s, t);
    assert s' == Goto(s, t, pc');
    ResumePCInv(s.recs, s.epoch, pc.rec, pc.k);
    ResumeHoldsLess(pc, pc.k);
    if Viewing(pc') { ResumeView(s, pc, s.reservations[t].value); }
    hide Basic, RecordsInv, ThreadInv, Resume;
    MoverNoMore(s, s', t, pc');
    QuietStepInv(s, s', t, pc');
  }

  lemma ResumeView(s: State, pc: PC, reserved: nat)
    requires (pc.HelpSwapping? || pc.HelpLoading?) && pc.k.ThenDescend? && ViewInv(s.recs, s.epoch, pc, reserved)
    ensures ViewInv(s.recs, s.epoch, Resume(pc.k), reserved)
  {
    assert ViewEpoch(Resume(pc.k)) == ViewEpoch(pc);
  }

  lemma SwapInv(s: State, t: nat, c: Choice)
    requires Inv(s) && Enabled(s, t, c) && s.threads[t].pc.HelpSwapping?
    ensures Inv(Step(s, t, c))
  {
    var s' := Step(s, t, c);
    var pc := s.threads[t].pc;
    ThreadOf(s, t);
    if WE(s.recs, pc.rec) != 0 {
      ResumeQuietly(s, t, c);
    } else {
      StepKeepsBasic(s, t, c);
      assert s' == Goto(Commit(s, pc.rec, pc.mine), t, Resume(pc.k));
      CommitRecords(s, pc.rec, pc.mine);
      CommitIsCommit(s, pc.rec, pc.mine);
      MoverCommits(s, s', t, pc.rec, pc.mine);
      hide Basic, ThreadInv, SafeFrom, Apart, MoverHolds, OthersHold, RecordsInv, IsCommit;
      CommitFrame(s, s', t, pc.rec, pc.mine);
      Assemble(s, s', t);
    }
  }

  // ---- pushing ------------------------------------------------------------------------

  /** The new record leads to the record it replaces. */
  predicate LinkedPush(w: Write) { w.next == w.head }

  lemma PushIsPush(s: State, w: Write)
    requires WriteOK(s, w)
    ensures IsPush(s.recs, Push(s, w).recs)
  {
  }

  lemma PushRecords(s: State, w: Write)
    requires Basic(s) && RecordsInv(s.recs, s.heads, s.epoch) && WriteOK(s, w) && InstallSucceeds(s, w)
    requires LinkedPush(w)
    ensures RecordsInv(Push(s, w).recs, Push(s, w).heads, s.epoch)
  {
    var recs', n := Push(s, w).recs, |s.recs|;
    PushIsPush(s, w);
    PushShape(s.recs, recs');
    assert HeadOK(s, w.op.bucket);
    PushChain(s, w);
    hide IsPush, Chained;
    forall i, j | 0 <= i < |recs'| && 0 <= j < |recs'| && Follows(recs', j, i) && RE(recs', i) != 0
      ensures 0 < WE(recs', j) <= RE(recs', i)
    {
      if j == n { assert false; } else { assert RecordOK(s, j); }
    }
  }

  lemma PushChain(s: State, w: Write)
    requires Basic(s) && Chained(s.recs) && WriteOK(s, w) && InstallSucceeds(s, w) && LinkedPush(w)
    ensures Chained(Push(s, w).recs)
  {
    var recs', n := Push(s, w).recs, |s.recs|;
    PushIsPush(s, w);
    PushShape(s.recs, recs');
    assert HeadOK(s, w.op.bucket);
    forall i | 0 <= i < |recs'| ensures Linked(recs', i) {
      if i < n { assert Linked(s.recs, i); assert recs'[i] == s.recs[i]; }
    }
  }

  /** The pusher holds its new record, which nothing follows yet, and the head it replaced. */
  lemma PushOwnThread(s: State, t: nat, w: Write)
    requires Inv(s) && t < |s.threads| && s.threads[t].pc == Installing(w)
    requires WriteOK(s, w) && InstallSucceeds(s, w) && LinkedPush(w)
    ensures |s.reservations| == |s.threads|
    ensures ThreadInv(Push(s, w).recs, s.epoch, Thread(AfterInstall(s, w), s.threads[t].retired), s.reservations[t])
  {
    var th, res, n := s.threads[t], s.reservations[t], |s.recs|;
    var recs' := Push(s, w).recs;
    var th' := Thread(AfterInstall(s, w), th.retired);
    ThreadOf(s, t);
    PushIsPush(s, w);
    PushShape(s.recs, recs');
    PushThread(s, recs', th, res);
    assert LimboInv(recs', th') by { assert Limbo(th') == Limbo(th); }
    if w.head.Some? { HeadUnretired(s, w.op.bucket, w.head.value); }
    forall m | 0 <= m < |recs'| ensures !Follows(recs', m, n) {
      if m < n { assert RecordOK(s, m); }
    }
    assert Protected(recs', n, res.value);
    assert Held(th'.pc) == Opt(w.head) + {n};
    hide LimboInv, Basic, RecordsInv, IsPush, Protected;
  }

  lemma PushOwnSafe(s: State, t: nat, w: Write, u: nat)
    requires Inv(s) && t < |s.threads| && s.threads[t].pc == Installing(w) && u < |s.threads|
    requires WriteOK(s, w) && InstallSucceeds(s, w)
    ensures |s.reservations| == |s.threads|
    ensures SafeFrom(Push(s, w).recs, t, AfterInstall(s, w), s.reservations[t], s.threads[u])
  {
    var recs', n := Push(s, w).recs, |s.recs|;
    ThreadOf(s, t);
    assert ThreadOK(s, u);
    SafeOf(s, t, u);
    PushIsPush(s, w);
    PushPair(s, recs', t, s.threads[t], s.reservations[t], s.threads[u]);
    assert Held(AfterInstall(s, w)) == Opt(w.head) + {n};
    NewRecordSafe(s, recs', t, n, s.reservations[t].value, u);
    hide Basic, RecordsInv, ThreadInv, HolderSafe, IsPush;
  }

  lemma NewRecordSafe(s: State, recs': seq<Record>, t: nat, n: nat, reserved: nat, u: nat)
    requires Basic(s) && IsPush(s.recs, recs') && n == |s.recs| && u < |s.threads|
    ensures HolderSafe(recs', t, n, reserved, s.threads[u])
  {
    assert ThreadOK(s, u);
    var pc := s.threads[u].pc;
    if pc.HelpSwapping? {
      assert RecordOK(s, pc.rec);
      assert recs'[pc.rec] == s.recs[pc.rec];
    }
  }

  lemma PushInv(s: State, t: nat, c: Choice, w: Write)
    requires Inv(s) && Enabled(s, t, c) && s.threads[t].pc == Installing(w)
    requires WriteOK(s, w) && InstallSucceeds(s, w) && LinkedPush(w)
    ensures Inv(Step(s, t, c))
  {
    var s' := Step(s, t, c);
    StepKeepsBasic(s, t, c);
    ThreadOf(s, t);
    PushRecords(s, w);
    PushIsPush(s, w);
    MoverPushes(s, s', t, w);
    hide Basic, ThreadInv, SafeFrom, Apart, MoverHolds, OthersHold, RecordsInv, IsPush;
    PushFrame(s, s', t);
    Assemble(s, s', t);
  }

  lemma MoverPushes(s: State, s': State, t: nat, w: Write)
    requires Inv(s) && t < |s.threads| && s.threads[t].pc == Installing(w)
    requires WriteOK(s, w) && InstallSucceeds(s, w) && LinkedPush(w)
    requires s' == Goto(Push(s, w), t, AfterInstall(s, w))
    ensures MoverHolds(s', t)
  {
    var th, th', res := s.threads[t], s'.threads[t], s.reservations[t];
    PushOwnThread(s, t, w);
    assert Harmless(th'.pc) && Limbo(th') == Limbo(th) && OwnRecord(th'.pc) == Some(|s.recs|);
    forall u | 0 <= u < |s'.threads|
      ensures SafeFrom(s'.recs, t, th'.pc, res, s'.threads[u])
      ensures u != t ==> SafeFrom(s'.recs, u, s'.threads[u].pc, s'.reservations[u], th')
      ensures u != t ==> Apart(th', s'.threads[u])
    {
      hide RecordsInv, ThreadInv, SafeFrom;
      if u == t {
        HarmlessOther(s'.recs, t, th'.pc, res, th');
      } else {
        HarmlessOther(s'.recs, u, s'.threads[u].pc, s'.reservations[u], th');
        PushOwnSafe(s, t, w, u);
        ApartOf(s, t, u);
        OldOwn(s, u);
      }
    }
  }

  lemma OldOwn(s: State, u: nat)
    requires Basic(s) && u < |s.threads|
    ensures OwnRecord(s.threads[u].pc).Some? ==> OwnRecord(s.threads[u].pc).value < |s.recs|
  {
    assert ThreadOK(s, u);
  }

  // ---- retiring -----------------------------------------------------------------------

  lemma RetireRecords(s: State, t: nat, r: nat, own: nat)
    requires Basic(s) && RecordsInv(s.recs, s.heads, s.epoch) && t < |s.threads|
    requires r < |s.recs| && own < |s.recs| && Follows(s.recs, own, r) && WE(s.recs, own) != 0 && RE(s.recs, r) == 0
    ensures RecordsInv(Retire(s, t, r).recs, s.heads, s.epoch)
  {
    var recs' := Retire(s, t, r).recs;
    RetireIsRetire(s, t, r);
    assert Linked(s.recs, own);
    assert HeadOK(s, s.recs[r].bucket) by { assert RecordOK(s, r); }
    forall i | 0 <= i < |recs'| ensures Linked(recs', i) { assert Linked(s.recs, i); }
    assert Chained(recs');
    hide Basic, IsRetire;
    forall i, j | 0 <= i < |recs'| && 0 <= j < |recs'| && Follows(recs', j, i) && RE(recs', i) != 0
      ensures 0 < WE(recs', j) <= RE(recs', i)
    {
      if i == r { OneSuccessor(s.recs, j, own, r); }
    }
  }

  lemma RetireOwnThread(s: State, t: nat, pc': PC)
    requires Inv(s) && t < |s.threads| && s.threads[t].pc.Retiring?
    requires s.threads[t].pc.w.head.Some? && s.threads[t].pc.w.head.value < |s.recs|
    requires var h := s.threads[t].pc.w.head; pc' == StartScan(s, h) || pc' == Finishing(h.value)
    ensures |s.reservations| == |s.threads|
    ensures var r := s.threads[t].pc.w.head.value;
            ThreadInv(Retire(s, t, r).recs, s.epoch, Thread(pc', [r] + s.threads[t].retired), s.reservations[t])
  {
    var th, res := s.threads[t], s.reservations[t];
    var r, own := th.pc.w.head.value, th.pc.own;
    ThreadOf(s, t);
    RetireIsRetire(s, t, r);
    var recs' := Retire(s, t, r).recs;
    hide Basic;
    RetiredGrows(s, recs', r, th, pc');
    assert Held(pc') == {r};
    assert r in Held(th.pc);
    assert Protected(s.recs, r, res.value);
    assert WE(s.recs, own) <= s.epoch;
    hide LimboInv, RecordsInv;
    assert Protected(recs', r, res.value);
  }

  lemma RetiredGrows(s: State, recs': seq<Record>, r: nat, th: Thread, pc': PC)
    requires LimboInv(s.recs, th) && IsRetire(s.recs, recs', r, s.epoch) && Doomed(th.pc) == [] && Doomed(pc') == []
    requires RecordsInv(s.recs, s.heads, s.epoch) && !s.recs[r].freed
    ensures LimboInv(recs', Thread(pc', [r] + th.retired))
  {
    NotInLimbo(s.recs, th, r);
    var th' := Thread(pc', [r] + th.retired);
    assert Limbo(th) == th.retired && Limbo(th') == [r] + th.retired;
    assert forall i :: 0 <= i < |th.retired| ==> Limbo(th)[i] == th.retired[i] && th.retired[i] != r;
    assert forall i :: 0 <= i < |th.retired| ==> RE(recs', th.retired[i]) == RE(s.recs, th.retired[i]) <= s.epoch;
    assert RE(recs', r) == s.epoch;
    assert forall i :: 0 < i < |th'.retired| ==> th'.retired[i] == th.retired[i - 1];
  }

  /** A thread that starts to scan has scanned past no one. */
  lemma StartsScanSafe(s: State, recs: seq<Record>, u: nat, pc: PC, res: Option<nat>, other: Thread)
    requires u < |s.threads| && (other.pc.Finishing? || exists back :: other.pc == StartScan(s, back))
    ensures SafeFrom(recs, u, pc, res, other)
  {
  }

  lemma MoverRetires(s: State, s': State, t: nat, pc': PC)
    requires Inv(s) && t < |s.threads| && s.threads[t].pc.Retiring?
    requires s.threads[t].pc.w.head.Some? && s.threads[t].pc.w.head.value < |s.recs|
    requires var h := s.threads[t].pc.w.head; pc' == StartScan(s, h) || pc' == Finishing(h.value)
    requires s' == Goto(Retire(s, t, s.threads[t].pc.w.head.value), t, pc')
    ensures MoverHolds(s', t)
  {
    var th, th', res := s.threads[t], s'.threads[t], s.reservations[t];
    var r := th.pc.w.head.value;
    RetireOwnThread(s, t, pc');
    ThreadOf(s, t);
    assert Held(pc') == {r} && r in Held(th.pc);
    forall u | 0 <= u < |s'.threads|
      ensures SafeFrom(s'.recs, t, th'.pc, res, s'.threads[u])
      ensures u != t ==> SafeFrom(s'.recs, u, s'.threads[u].pc, s'.reservations[u], th')
      ensures u != t ==> Apart(th', s'.threads[u])
    {
      hide RecordsInv, ThreadInv, SafeFrom, Basic;
      StartsScanSafe(s, s'.recs, u, s'.threads[u].pc, s'.reservations[u], th');
      if u != t {
        RetirerSafe(s, t, pc', u);
        RetirerApart(s, t, pc', u);
      }
    }
  }

  lemma RetirerSafe(s: State, t: nat, pc': PC, u: nat)
    requires Inv(s) && t < |s.threads| && u < |s.threads| && u != t && s.threads[t].pc.Retiring?
    requires s.threads[t].pc.w.head.Some? && s.threads[t].pc.w.head.value < |s.recs|
    requires Held(pc') == {s.threads[t].pc.w.head.value} && !Viewing(pc')
    ensures |s.reservations| == |s.threads|
    ensures SafeFrom(Retire(s, t, s.threads[t].pc.w.head.value).recs, t, pc', s.reservations[t], s.threads[u])
  {
    var r := s.threads[t].pc.w.head.value;
    ThreadOf(s, t);
    RetireIsRetire(s, t, r);
    SafeOf(s, t, u);
    LimboOf(s, u);
    RetirePair(s.recs, Retire(s, t, r).recs, r, s.epoch, t, s.threads[t], s.reservations[t], s.threads[u]);
    assert r in Held(s.threads[t].pc);
    hide Basic, RecordsInv, ThreadInv, HolderSafe, IsRetire, LimboInv;
  }

  lemma RetirerApart(s: State, t: nat, pc': PC, u: nat)
    requires Inv(s) && t < |s.threads| && u < |s.threads| && u != t && s.threads[t].pc.Retiring?
    requires s.threads[t].pc.w.head.Some? && s.threads[t].pc.w.head.value < |s.recs|
    requires !pc'.HelpSwapping? && OwnRecord(pc') == None && Doomed(pc') == []
    ensures Apart(Thread(pc', [s.threads[t].pc.w.head.value] + s.threads[t].retired), s.threads[u])
  {
    var r := s.threads[t].pc.w.head.value;
    ThreadOf(s, t);
    LimboOf(s, u);
    NotInLimbo(s.recs, s.threads[u], r);
    ApartOf(s, t, u);
    hide Basic, RecordsInv, ThreadInv, LimboInv;
    var th := s.threads[t];
    var th' := Thread(pc', [r] + th.retired);
    assert Limbo(th) == th.retired && Limbo(th') == [r] + th.retired;
    forall i, j | 0 <= i < |Limbo(th')| && 0 <= j < |Limbo(s.threads[u])|
      ensures Limbo(th')[i] != Limbo(s.threads[u])[j]
    {
      if i == 0 {
        assert Limbo(s.threads[u])[j] in s.threads[u].retired || Limbo(s.threads[u])[j] in Doomed(s.threads[u].pc);
      } else {
        assert Limbo(th')[i] == Limbo(th)[i - 1];
      }
    }
  }

  lemma RetireInv(s: State, t: nat, c: Choice)
    requires Inv(s) && Enabled(s, t, c) && s.threads[t].pc.Retiring?
    ensures Inv(Step(s, t, c))
  {
    var s' := Step(s, t, c);
    var pc := s.threads[t].pc;
    StepKeepsBasic(s, t, c);
    ThreadOf(s, t);
    var r := pc.w.head.value;
    assert s' == Goto(Retire(s, t, r), t, if c.Empty? then StartScan(s, pc.w.head) else Finishing(r));
    RetireRecords(s, t, r, pc.own);
    RetireIsRetire(s, t, r);
    MoverRetires(s, s', t, s'.threads[t].pc);
    hide Basic, ThreadInv, SafeFrom, Apart, MoverHolds, OthersHold, RecordsInv, IsRetire;
    RetireFrame(s, s', t, r, pc.own);
    Assemble(s, s', t);
  }
}
