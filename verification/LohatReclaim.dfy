/** The invariant for mmm_empty: scanning the reservations, cutting the retire list, freeing. */
module LohatReclaim {
  import opened Options
  import opened LohatModel
  import opened LohatBasic
  import opened LohatInvariant
  import opened LohatFrames
  import opened LohatMover

  // ---- scanning one slot --------------------------------------------------------------

  function Scanned(s: State, pc: PC): PC
    requires pc.Scanning? && pc.slot < |s.reservations|
  {
    pc.(slot := pc.slot + 1, lowest := Lower(pc.lowest, s.reservations[pc.slot]))
  }

  /** Whoever was spared before is spared, and so is whoever holds the slot just read. */
  lemma ScanOther(s: State, u: nat, th: Thread, res: Option<nat>, mover: Thread)
    requires mover.pc.Scanning? && mover.pc.slot < |s.reservations|
    requires u == mover.pc.slot ==> res == s.reservations[u]
    requires SafeFrom(s.recs, u, th.pc, res, mover) && ThreadInv(s.recs, s.epoch, th, res)
    requires LimboInv(s.recs, mover)
    ensures SafeFrom(s.recs, u, th.pc, res, Thread(Scanned(s, mover.pc), mover.retired))
  {
    var after := Thread(Scanned(s, mover.pc), mover.retired);
    if Reserving(th.pc) && res.Some? {
      forall h | h in Held(th.pc) && h < |s.recs| ensures HolderSafe(s.recs, u, h, res.value, after) {
        assert HolderSafe(s.recs, u, h, res.value, mover);
        assert Protected(s.recs, h, res.value);
        if h in mover.retired { RetiredInLimbo(s.recs, mover, h); }
      }
    }
    if Viewing(th.pc) {
      assert ViewSafe(s.recs, u, th.pc, mover);
      assert ViewInv(s.recs, s.epoch, th.pc, res.value);
      hide ThreadInv, LimboInv, ViewInv;
    }
  }

  lemma ScanInv(s: State, t: nat, c: Choice)
    requires Inv(s) && Enabled(s, t, c) && s.threads[t].pc.Scanning?
    requires s.threads[t].pc.slot < s.threads[t].pc.last
    ensures Inv(Step(s, t, c))
  {
    var s' := Step(s, t, c);
    StepKeepsBasic(s, t, c);
    ThreadOf(s, t);
    var pc' := Scanned(s, s.threads[t].pc);
    assert s' == Goto(s, t, pc');
    hide Step;
    MoverScans(s, s', t, pc');
    QuietStepInv(s, s', t, pc');
  }

  lemma MoverScans(s: State, s': State, t: nat, pc': PC)
    requires Inv(s) && t < |s.threads| && s.threads[t].pc.Scanning?
    requires s.threads[t].pc.slot < |s.reservations| && pc' == Scanned(s, s.threads[t].pc)
    requires s' == Goto(s, t, pc')
    ensures MoverHolds(s', t)
  {
    var th, th', res := s.threads[t], s'.threads[t], s.reservations[t];
    ThreadOf(s, t);
    assert ThreadInv(s'.recs, s'.epoch, th', res) by {
      assert LimboInv(s.recs, th') by { assert Limbo(th') == Limbo(th); }
      hide LimboInv, Protected, Basic, RecordsInv;
    }
    LimboOf(s, t);
    hide RecordsInv, ThreadInv, LimboInv;
    forall u | 0 <= u < |s'.threads|
      ensures SafeFrom(s'.recs, t, th'.pc, res, s'.threads[u])
      ensures u != t ==> SafeFrom(s'.recs, u, s'.threads[u].pc, s'.reservations[u], th')
      ensures u != t ==> Apart(th', s'.threads[u])
    {
      ThreadOf(s, u);
      SafeOf(s, t, u); SafeOf(s, u, t);
      ScanOther(s, u, s.threads[u], s.reservations[u], th);
      if u == t {
        SameHolds(s.recs, t, th.pc, th'.pc, res, th');
      } else {
        SameHolds(s.recs, t, th.pc, th'.pc, res, s.threads[u]);
        ApartOf(s, t, u);
        assert Limbo(th') == Limbo(th);
      }
    }
  }

  /** Scanning and freeing, a thread holds what it held. */
  lemma SameHolds(recs: seq<Record>, t: nat, pc: PC, pc': PC, res: Option<nat>, other: Thread)
    requires Held(pc') <= Held(pc) && (Reserving(pc') ==> Reserving(pc)) && !Viewing(pc')
    requires SafeFrom(recs, t, pc, res, other)
    ensures SafeFrom(recs, t, pc', res, other)
  {
    hide HolderSafe;
  }

  // ---- cutting the retire list --------------------------------------------------------

  /** What is cut off the list is below the lowest reservation: the list is sorted. */
  lemma CutIsBelow(s: State, th: Thread, lowest: Option<nat>, i: nat)
    requires LimboInv(s.recs, th)
    requires Cut(s, th.retired, lowest) <= i < |th.retired|
    ensures Below(s, th.retired[i], lowest)
  {
    var k := Cut(s, th.retired, lowest);
    assert i == k || RE(s.recs, th.retired[i]) <= RE(s.recs, th.retired[k]);
  }

  function CutThread(s: State, th: Thread): Thread
    requires th.pc.Scanning? && forall i :: 0 <= i < |th.retired| ==> th.retired[i] < |s.recs|
  {
    var k := Cut(s, th.retired, th.pc.lowest);
    Thread(Freeing(th.retired[k..], th.pc.back), th.retired[..k])
  }

  /** A complete scan has passed every thread, so what it dooms no one holds or will reach. */
  lemma CutOther(s: State, u: nat, th: Thread, res: Option<nat>, mover: Thread)
    requires mover.pc.Scanning? && mover.pc.slot == mover.pc.last
    requires LimboInv(s.recs, mover)
    requires SafeFrom(s.recs, u, th.pc, res, mover)
    ensures SafeFrom(s.recs, u, th.pc, res, CutThread(s, mover))
  {
    var after := CutThread(s, mover);
    CutIsPassed(s, mover);
    hide LimboInv, CutThread, CommitsAfter;
    if Reserving(th.pc) && res.Some? {
      forall h | h in Held(th.pc) && h < |s.recs| ensures HolderSafe(s.recs, u, h, res.value, after) {
        assert HolderSafe(s.recs, u, h, res.value, mover);
      }
    }
    if Viewing(th.pc) { assert ViewSafe(s.recs, u, th.pc, mover); }
  }

  lemma CutIsPassed(s: State, mover: Thread)
    requires mover.pc.Scanning? && mover.pc.slot == mover.pc.last && LimboInv(s.recs, mover)
    ensures var after := CutThread(s, mover);
            && after.pc.Freeing?
            && forall r :: r in Doomed(after.pc) ==>
                 r in mover.retired && r < |s.recs| && !Spares(mover.pc, RE(s.recs, r))
    ensures forall u: nat :: ScannedPast(mover.pc, u)
  {
    var after := CutThread(s, mover);
    forall r | r in Doomed(after.pc)
      ensures r in mover.retired && r < |s.recs| && !Spares(mover.pc, RE(s.recs, r))
    {
      var k := Cut(s, mover.retired, mover.pc.lowest);
      var i :| 0 <= i < |mover.retired[k..]| && mover.retired[k..][i] == r;
      CutIsBelow(s, mover, mover.pc.lowest, k + i);
    }
  }

  lemma CutLimbo(s: State, th: Thread)
    requires th.pc.Scanning? && LimboInv(s.recs, th)
    ensures Limbo(CutThread(s, th)) == Limbo(th) && LimboInv(s.recs, CutThread(s, th))
  {
    var k := Cut(s, th.retired, th.pc.lowest);
    assert th.retired == th.retired[..k] + th.retired[k..];
    assert Limbo(CutThread(s, th)) == Limbo(th);
  }

  lemma CutInv(s: State, t: nat, c: Choice)
    requires Inv(s) && Enabled(s, t, c) && s.threads[t].pc.Scanning?
    requires s.threads[t].pc.slot == s.threads[t].pc.last
    ensures Inv(Step(s, t, c))
  {
    var s' := Step(s, t, c);
    StepKeepsBasic(s, t, c);
    ThreadOf(s, t);
    LimboOf(s, t);
    assert s' == s.(threads := s.threads[t := CutThread(s, s.threads[t])]);
    hide Step;
    MoverCuts(s, s', t);
    hide Basic, ThreadInv, SafeFrom, Apart, MoverHolds, OthersHold, RecordsInv, LimboInv, CutThread;
    QuietFrame(s, s', t);
    Assemble(s, s', t);
  }

  lemma MoverCuts(s: State, s': State, t: nat)
    requires Inv(s) && t < |s.threads| && s.threads[t].pc.Scanning? && LimboInv(s.recs, s.threads[t])
    requires s.threads[t].pc.slot == s.threads[t].pc.last
    requires s' == s.(threads := s.threads[t := CutThread(s, s.threads[t])])
    ensures MoverHolds(s', t)
  {
    var th, th', res := s.threads[t], s'.threads[t], s.reservations[t];
    ThreadOf(s, t);
    CutLimbo(s, th);
    assert Held(th'.pc) == Held(th.pc) && Reserving(th'.pc) == Reserving(th.pc) && th'.pc.Freeing?;
    hide CutThread;
    assert ThreadInv(s'.recs, s'.epoch, th', res) by { hide LimboInv, Protected, Basic, RecordsInv; }
    hide RecordsInv, ThreadInv, LimboInv;
    forall u | 0 <= u < |s'.threads|
      ensures SafeFrom(s'.recs, t, th'.pc, res, s'.threads[u])
      ensures u != t ==> SafeFrom(s'.recs, u, s'.threads[u].pc, s'.reservations[u], th')
      ensures u != t ==> Apart(th', s'.threads[u])
    {
      SafeOf(s, t, u); SafeOf(s, u, t);
      CutOther(s, u, s.threads[u], s.reservations[u], th);
      if u == t {
        SameHolds(s.recs, t, th.pc, th'.pc, res, th');
      } else {
        SameHolds(s.recs, t, th.pc, th'.pc, res, s.threads[u]);
        ApartOf(s, t, u);
      }
    }
  }

  // ---- freeing ------------------------------------------------------------------------

  lemma FreeRecords(s: State, r: nat)
    requires RecordsInv(s.recs, s.heads, s.epoch) && r < |s.recs| && RE(s.recs, r) != 0
    ensures RecordsInv(Free(s, r).recs, s.heads, s.epoch)
  {
    FreeIsFree(s, r);
    forall i | 0 <= i < |s.recs| ensures Linked(Free(s, r).recs, i) { assert Linked(s.recs, i); }
  }

  function FreedThread(th: Thread): Thread
    requires th.pc.Freeing? && th.pc.doomed != []
  {
    th.(pc := Freeing(th.pc.doomed[1..], th.pc.back))
  }

  lemma FreeOwnThread(s: State, t: nat)
    requires Inv(s) && t < |s.threads| && s.threads[t].pc.Freeing? && s.threads[t].pc.doomed != []
    requires s.threads[t].pc.doomed[0] < |s.recs|
    ensures |s.reservations| == |s.threads|
    ensures ThreadInv(Free(s, s.threads[t].pc.doomed[0]).recs, s.epoch, FreedThread(s.threads[t]), s.reservations[t])
  {
    var th, res := s.threads[t], s.reservations[t];
    var r := th.pc.doomed[0];
    var recs' := Free(s, r).recs;
    ThreadOf(s, t);
    SafeOf(s, t, t);
    FreeIsFree(s, r);
    FreeLimbo(s, recs', th);
    hide Basic, RecordsInv, LimboInv;
    assert Held(FreedThread(th).pc) == Held(th.pc);
    if Reserving(th.pc) {
      forall h | h in Held(th.pc) ensures Protected(recs', h, res.value) {
        assert Protected(s.recs, h, res.value) && HolderSafe(s.recs, t, h, res.value, th);
      }
    }
  }

  lemma FreeLimbo(s: State, recs': seq<Record>, th: Thread)
    requires th.pc.Freeing? && th.pc.doomed != [] && LimboInv(s.recs, th)
    requires IsFree(s.recs, recs', th.pc.doomed[0])
    ensures LimboInv(recs', FreedThread(th))
  {
    var q, q', n := Limbo(th), Limbo(FreedThread(th)), |th.retired|;
    assert q[n] == th.pc.doomed[0] && q' == q[..n] + q[n + 1..];
    forall i | 0 <= i < |q'|
      ensures q'[i] < |recs'| && RE(recs', q'[i]) != 0 && !recs'[q'[i]].freed
    {
      var k := WithoutAt(q, q', n, i);
      assert q[k] != q[n];
    }
    forall i, j | 0 <= i < j < |q'| ensures q'[i] != q'[j] {
      var k, l := WithoutAt(q, q', n, i), WithoutAt(q, q', n, j);
      assert q[k] != q[l];
    }
  }

  /** The position in q of entry i of q without position n. */
  function WithoutAt(q: seq<nat>, q': seq<nat>, n: nat, i: nat): (k: nat)
    requires n < |q| && q' == q[..n] + q[n + 1..] && i < |q'|
    ensures k < |q| && k != n && q'[i] == q[k] && (i < n ==> k == i) && (i >= n ==> k == i + 1)
  {
    if i < n then i else i + 1
  }

  lemma LessDoomed(recs: seq<Record>, u: nat, pc: PC, res: Option<nat>, mover: Thread)
    requires mover.pc.Freeing? && mover.pc.doomed != [] && SafeFrom(recs, u, pc, res, mover)
    ensures SafeFrom(recs, u, pc, res, FreedThread(mover))
  {
    assert forall r :: r in FreedThread(mover).pc.doomed ==> r in mover.pc.doomed;
  }

  lemma LessApart(mover: Thread, th: Thread)
    requires mover.pc.Freeing? && mover.pc.doomed != [] && Apart(mover, th)
    ensures Apart(FreedThread(mover), th)
  {
    var q, q', n := Limbo(mover), Limbo(FreedThread(mover)), |mover.retired|;
    assert q' == q[..n] + q[n + 1..];
    forall i, j | 0 <= i < |q'| && 0 <= j < |Limbo(th)| ensures q'[i] != Limbo(th)[j] {
      assert q[WithoutAt(q, q', n, i)] != Limbo(th)[j];
    }
  }

  lemma MoverFrees(s: State, s': State, t: nat)
    requires Inv(s) && t < |s.threads| && s.threads[t].pc.Freeing? && s.threads[t].pc.doomed != []
    requires s.threads[t].pc.doomed[0] < |s.recs|
    requires s' == Goto(Free(s, s.threads[t].pc.doomed[0]), t, FreedThread(s.threads[t]).pc)
    ensures MoverHolds(s', t)
  {
    var th, th', res := s.threads[t], s'.threads[t], s.reservations[t];
    var r := th.pc.doomed[0];
    FreeOwnThread(s, t);
    FreeIsFree(s, r);
    ThreadOf(s, t);
    assert th' == FreedThread(th) && Held(th'.pc) == Held(th.pc) && Reserving(th'.pc) == Reserving(th.pc);
    hide Basic, RecordsInv, ThreadInv, IsFree;
    forall u | 0 <= u < |s'.threads|
      ensures SafeFrom(s'.recs, t, th'.pc, res, s'.threads[u])
      ensures u != t ==> SafeFrom(s'.recs, u, s'.threads[u].pc, s'.reservations[u], th')
      ensures u != t ==> Apart(th', s'.threads[u])
    {
      SafeOf(s, t, u); SafeOf(s, u, t);
      FreePair(s.recs, s'.recs, r, u, s.threads[u], s.reservations[u], th);
      FreePair(s.recs, s'.recs, r, t, th, res, s.threads[u]);
      LessDoomed(s'.recs, u, s.threads[u].pc, s.reservations[u], th);
      if u == t {
        SameHolds(s'.recs, t, th.pc, th'.pc, res, th');
      } else {
        SameHolds(s'.recs, t, th.pc, th'.pc, res, s.threads[u]);
        ApartOf(s, t, u);
        LessApart(th, s.threads[u]);
      }
    }
  }

  /** The record that is freed was retired, was not freed before, and no one holds it. */
  lemma FreeInv(s: State, t: nat, c: Choice)
    requires Inv(s) && Enabled(s, t, c) && s.threads[t].pc.Freeing? && s.threads[t].pc.doomed != []
    ensures Inv(Step(s, t, c))
  {
    var s' := Step(s, t, c);
    var th := s.threads[t];
    StepKeepsBasic(s, t, c);
    ThreadOf(s, t);
    var r := th.pc.doomed[0];
    assert s' == Goto(Free(s, r), t, FreedThread(th).pc);
    hide Step;
    RetiredInLimbo(s.recs, th, r);
    FreeRecords(s, r);
    FreeIsFree(s, r);
    MoverFrees(s, s', t);
    hide Basic, ThreadInv, SafeFrom, Apart, MoverHolds, OthersHold, RecordsInv, IsFree;
    FreeFrame(s, s', t, r);
    Assemble(s, s', t);
  }
}
