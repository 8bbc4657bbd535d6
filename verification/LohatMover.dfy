/** The invariant for the thread that moves, step by step. */
module LohatMover {
  import opened Options
  import opened LohatModel
  import opened LohatInvariant
  import opened LohatFrames

  // ---- what the invariant says of one thread ------------------------------------------

  lemma ThreadOf(s: State, t: nat)
    requires Inv(s) && t < |s.threads|
    ensures |s.reservations| == |s.threads| && ThreadInv(s.recs, s.epoch, s.threads[t], s.reservations[t])
    ensures RecordsInv(s.recs, s.heads, s.epoch) && ThreadOK(s, t)
  {
    hide SafeFrom, RecordsInv, Apart, ThreadInv;
  }

  lemma SafeOf(s: State, t: nat, u: nat)
    requires Inv(s) && t < |s.threads| && u < |s.threads|
    ensures |s.reservations| == |s.threads|
    ensures SafeFrom(s.recs, t, s.threads[t].pc, s.reservations[t], s.threads[u])
  {
    hide SafeFrom, RecordsInv, Apart, ThreadInv;
  }

  /** A thread that neither scans nor frees nor is about to commit endangers no one. */
  predicate Harmless(pc: PC) { !pc.Scanning? && !pc.Freeing? && !pc.HelpSwapping? }

  lemma HarmlessOther(recs: seq<Record>, t: nat, pc: PC, res: Option<nat>, other: Thread)
    requires Harmless(other.pc)
    ensures SafeFrom(recs, t, pc, res, other)
  {
  }

  // ---- steps that only move the program counter ---------------------------------------

  /** pc' touches no more than pc. */
  ghost predicate NoMore(pc: PC, pc': PC)
  {
    && Harmless(pc') && Doomed(pc) == []
    && (OwnRecord(pc') == None || OwnRecord(pc') == OwnRecord(pc))
    && Held(pc') <= Held(pc)
    && (Reserving(pc') ==> Reserving(pc))
    && (Viewing(pc') ==> Viewing(pc) && ViewEpoch(pc') == ViewEpoch(pc))
  }

  lemma MoverNoMore(s: State, s': State, t: nat, pc': PC)
    requires Inv(s) && t < |s.threads| && s' == Goto(s, t, pc')
    requires NoMore(s.threads[t].pc, pc') && PCInv(s.recs, s.epoch, pc')
    requires Viewing(pc') ==> s.reservations[t].Some? && ViewInv(s.recs, s.epoch, pc', s.reservations[t].value)
    ensures MoverHolds(s', t)
  {
    var th, th' := s.threads[t], s'.threads[t];
    ThreadOf(s, t);
    assert ThreadInv(s'.recs, s'.epoch, th', s'.reservations[t]) by {
      assert LimboInv(s.recs, th') by { assert Limbo(th') == Limbo(th); }
      hide LimboInv, PCInv, Protected, ViewInv;
    }
    hide RecordsInv, ThreadInv;
    forall u | 0 <= u < |s'.threads|
      ensures SafeFrom(s'.recs, t, th'.pc, s'.reservations[t], s'.threads[u])
      ensures u != t ==> SafeFrom(s'.recs, u, s'.threads[u].pc, s'.reservations[u], th')
      ensures u != t ==> Apart(th', s'.threads[u])
    {
      SafeOf(s, t, u);
      if u == t {
        HarmlessOther(s'.recs, t, th'.pc, s'.reservations[t], th');
      } else {
        HarmlessOther(s'.recs, u, s'.threads[u].pc, s'.reservations[u], th');
        ApartOf(s, t, u);
        assert Limbo(th') == Limbo(th);
        SafeNoMore(s.recs, t, th.pc, th'.pc, s.reservations[t], s.threads[u]);
      }
    }
  }

  lemma SafeNoMore(recs: seq<Record>, t: nat, pc: PC, pc': PC, res: Option<nat>, other: Thread)
    requires NoMore(pc, pc') && SafeFrom(recs, t, pc, res, other)
    ensures SafeFrom(recs, t, pc', res, other)
  {
    hide HolderSafe;
  }

  /** The invariant after a step that only moves the program counter of thread t. */
  lemma QuietStepInv(s: State, s': State, t: nat, pc': PC)
    requires Inv(s) && t < |s.threads| && s' == Goto(s, t, pc') && Basic(s')
    requires MoverHolds(s', t)
    ensures Inv(s')
  {
    hide ThreadInv, SafeFrom, Apart, MoverHolds, OthersHold;
    ThreadOf(s, t);
    hide RecordsInv;
    QuietFrame(s, s', t);
    Assemble(s, s', t);
  }

  // ---- taking hold of the head of a bucket --------------------------------------------

  /** The head of a bucket has not been retired, so nothing that is under way endangers it. */
  lemma HeadIsSafe(s: State, t: nat, b: nat, h: nat, reserved: nat)
    requires Inv(s) && b < |s.heads| && s.heads[b] == Some(h)
    ensures Protected(s.recs, h, reserved) && RE(s.recs, h) == 0
    ensures forall u :: 0 <= u < |s.threads| ==> HolderSafe(s.recs, t, h, reserved, s.threads[u])
  {
    hide SafeFrom, Apart, ThreadInv;
    assert HeadOK(s, b);
    HeadUnretired(s, b, h);
    forall m | 0 <= m < |s.recs| ensures !Follows(s.recs, m, h) {
      assert Linked(s.recs, m);
    }
    forall u | 0 <= u < |s.threads| ensures HolderSafe(s.recs, t, h, reserved, s.threads[u]) {
      LimboOf(s, u);
      NotInLimbo(s.recs, s.threads[u], h);
    }
  }

  lemma HeadUnretired(s: State, b: nat, h: nat)
    requires Inv(s) && b < |s.heads| && s.heads[b] == Some(h)
    ensures h < |s.recs| && s.recs[h].bucket == b && RE(s.recs, h) == 0 && !s.recs[h].freed
  {
    hide SafeFrom, Apart, ThreadInv, Chained;
    assert HeadOK(s, b);
  }

  /** pc' holds the head of bucket b and nothing else. */
  lemma MoverTakesHead(s: State, s': State, t: nat, pc': PC, b: nat)
    requires Inv(s) && t < |s.threads| && s' == Goto(s, t, pc') && b < |s.heads|
    requires Harmless(pc') && Doomed(s.threads[t].pc) == [] && OwnRecord(pc') == None
    requires Reserving(s.threads[t].pc) && Held(pc') == Opt(s.heads[b])
    requires PCInv(s.recs, s.epoch, pc')
    requires Viewing(pc') ==> Viewing(s.threads[t].pc) && ViewEpoch(pc') == ViewEpoch(s.threads[t].pc)
    ensures MoverHolds(s', t)
  {
    var th, th' := s.threads[t], s'.threads[t];
    ThreadOf(s, t);
    var res := s.reservations[t];
    if s.heads[b].Some? { HeadIsSafe(s, t, b, s.heads[b].value, res.value); }
    assert ThreadInv(s'.recs, s'.epoch, th', res) by {
      assert LimboInv(s.recs, th') by { assert Limbo(th') == Limbo(th); }
      hide LimboInv, PCInv, Protected, Basic;
    }
    hide RecordsInv, ThreadInv;
    forall u | 0 <= u < |s'.threads|
      ensures SafeFrom(s'.recs, t, th'.pc, res, s'.threads[u])
      ensures u != t ==> SafeFrom(s'.recs, u, s'.threads[u].pc, s'.reservations[u], th')
      ensures u != t ==> Apart(th', s'.threads[u])
    {
      SafeOf(s, t, u);
      if u == t {
        HarmlessOther(s'.recs, t, th'.pc, res, th');
      } else {
        HarmlessOther(s'.recs, u, s'.threads[u].pc, s'.reservations[u], th');
        ApartOf(s, t, u);
        assert Limbo(th') == Limbo(th);
        TakesHeadSafe(s, t, b, th.pc, th'.pc, res, s.threads[u]);
      }
    }
  }

  lemma TakesHeadSafe(s: State, t: nat, b: nat, pc: PC, pc': PC, res: Option<nat>, other: Thread)
    requires b < |s.heads| && res.Some?
    requires Held(pc') == Opt(s.heads[b])
    requires s.heads[b].Some? ==>
               s.heads[b].value < |s.recs| && HolderSafe(s.recs, t, s.heads[b].value, res.value, other)
    requires Viewing(pc') ==> Viewing(pc) && ViewEpoch(pc') == ViewEpoch(pc)
    requires SafeFrom(s.recs, t, pc, res, other)
    ensures SafeFrom(s.recs, t, pc', res, other)
  {
    hide HolderSafe;
  }

  // ---- steps that hold nothing --------------------------------------------------------

  /** pc' holds no record and is no view: booting, starting, ending, reserving. */
  lemma MoverHoldsNothing(s: State, s': State, t: nat, pc': PC, res': Option<nat>)
    requires Inv(s) && t < |s.threads| && s' == Goto(Reserve(s, t, res'), t, pc')
    requires Harmless(pc') && Doomed(s.threads[t].pc) == [] && OwnRecord(pc') == None
    requires Held(pc') == {} && !Viewing(pc') && PCInv(s.recs, s.epoch, pc')
    requires (Reserving(pc') ==> res'.Some?) && (res'.Some? ==> res'.value <= s.epoch)
    ensures MoverHolds(s', t)
  {
    var th, th' := s.threads[t], s'.threads[t];
    ThreadOf(s, t);
    assert ThreadInv(s'.recs, s'.epoch, th', res') by {
      assert LimboInv(s.recs, th') by { assert Limbo(th') == Limbo(th); }
      hide LimboInv, PCInv, Protected, Basic;
    }
    hide RecordsInv, ThreadInv;
    forall u | 0 <= u < |s'.threads|
      ensures SafeFrom(s'.recs, t, th'.pc, res', s'.threads[u])
      ensures u != t ==> SafeFrom(s'.recs, u, s'.threads[u].pc, s'.reservations[u], th')
      ensures u != t ==> Apart(th', s'.threads[u])
    {
      if u != t {
        HarmlessOther(s'.recs, u, s'.threads[u].pc, s'.reservations[u], th');
        ApartOf(s, t, u);
        assert Limbo(th') == Limbo(th);
      }
    }
  }

  /** The view loads its epoch: everything retired so far was retired by then. */
  lemma MoverStartsView(s: State, s': State, t: nat)
    requires Inv(s) && t < |s.threads| && s.threads[t].pc.Reserved?
    requires s' == Goto(s, t, ViewBucket(s.epoch, []))
    ensures MoverHolds(s', t)
  {
    var th, th', res := s.threads[t], s'.threads[t], s.reservations[t];
    ThreadOf(s, t);
    assert LimboInv(s.recs, th') by { assert Limbo(th') == Limbo(th); }
    hide LimboInv, Basic, Chained, Protected;
    assert forall r :: 0 <= r < |s.recs| ==> RE(s.recs, r) <= s.epoch;
    assert ThreadInv(s'.recs, s'.epoch, th', res);
    hide RecordsInv, ThreadInv;
    forall u | 0 <= u < |s'.threads|
      ensures SafeFrom(s'.recs, t, th'.pc, res, s'.threads[u])
      ensures u != t ==> SafeFrom(s'.recs, u, s'.threads[u].pc, s'.reservations[u], th')
      ensures u != t ==> Apart(th', s'.threads[u])
    {
      if u != t {
        HarmlessOther(s'.recs, u, s'.threads[u].pc, s'.reservations[u], th');
        ApartOf(s, t, u);
        assert Limbo(th') == Limbo(th);
      }
    }
  }

  // ---- a view goes down a chain -------------------------------------------------------

  /** The record below one that committed after the view's epoch was retired after that epoch, if
      at all; so it is still in memory and stays there. */
  lemma BelowIsSafe(s: State, t: nat, c: nat, p: nat)
    requires Inv(s) && t < |s.threads| && Viewing(s.threads[t].pc)
    requires c < |s.recs| && p < |s.recs| && Follows(s.recs, c, p) && ViewEpoch(s.threads[t].pc) < WE(s.recs, c)
    ensures |s.reservations| == |s.threads| && s.reservations[t].Some?
    ensures Protected(s.recs, p, s.reservations[t].value)
    ensures forall u :: 0 <= u < |s.threads| ==> HolderSafe(s.recs, t, p, s.reservations[t].value, s.threads[u])
  {
    ThreadOf(s, t);
    var pc, res := s.threads[t].pc, s.reservations[t];
    assert ViewInv(s.recs, s.epoch, pc, res.value);
    assert RE(s.recs, p) != 0 ==> WE(s.recs, c) <= RE(s.recs, p);
    forall m | 0 <= m < |s.recs| && Follows(s.recs, m, p) ensures m == c {
      OneSuccessor(s.recs, m, c, p);
    }
    hide Basic, ThreadInv, RecordsInv, Chained;
    forall u | 0 <= u < |s.threads| ensures HolderSafe(s.recs, t, p, res.value, s.threads[u]) {
      SafeOf(s, t, u);
      assert ViewSafe(s.recs, t, pc, s.threads[u]);
      if p in Doomed(s.threads[u].pc) { LimboOf(s, u); RetiredInLimbo(s.recs, s.threads[u], p); }
      if p in s.threads[u].retired { LimboOf(s, u); RetiredInLimbo(s.recs, s.threads[u], p); }
    }
  }

  lemma RetiredInLimbo(recs: seq<Record>, th: Thread, r: nat)
    requires LimboInv(recs, th) && (r in th.retired || r in Doomed(th.pc))
    ensures r < |recs| && RE(recs, r) != 0
  {
    assert r in Limbo(th);
  }

  predicate Descends(s: State, t: nat, pc': PC)
    requires t < |s.threads|
  {
    var pc := s.threads[t].pc;
    && pc.Descending? && pc.cur.Some? && pc.cur.value < |s.recs|
    && pc.epoch < WE(s.recs, pc.cur.value)
    && pc' == pc.(cur := s.recs[pc.cur.value].next)
  }

  lemma DescendThread(s: State, t: nat, pc': PC)
    requires Inv(s) && t < |s.threads| && Descends(s, t, pc')
    ensures |s.reservations| == |s.threads|
    ensures ThreadInv(s.recs, s.epoch, Thread(pc', s.threads[t].retired), s.reservations[t])
  {
    var th, res := s.threads[t], s.reservations[t];
    var th' := Thread(pc', th.retired);
    var c := th.pc.cur.value;
    ThreadOf(s, t);
    assert RecordOK(s, c) && Linked(s.recs, c);
    if s.recs[c].next.Some? { BelowIsSafe(s, t, c, s.recs[c].next.value); }
    assert LimboInv(s.recs, th') by { assert Limbo(th') == Limbo(th); }
    assert ViewEpoch(pc') == ViewEpoch(th.pc);
    hide LimboInv, Protected, Basic, RecordsInv, Linked;
  }

  lemma DescendSafe(s: State, t: nat, pc': PC, u: nat)
    requires Inv(s) && t < |s.threads| && Descends(s, t, pc') && u < |s.threads|
    ensures |s.reservations| == |s.threads|
    ensures SafeFrom(s.recs, t, pc', s.reservations[t], s.threads[u])
  {
    var pc, res := s.threads[t].pc, s.reservations[t];
    var c := pc.cur.value;
    ThreadOf(s, t);
    assert RecordOK(s, c) && Linked(s.recs, c);
    if s.recs[c].next.Some? { BelowIsSafe(s, t, c, s.recs[c].next.value); }
    SafeOf(s, t, u);
    hide Basic, RecordsInv, ThreadInv, Linked, HolderSafe;
    assert ViewSafe(s.recs, t, pc, s.threads[u]);
  }

  lemma MoverDescends(s: State, s': State, t: nat, pc': PC)
    requires Inv(s) && t < |s.threads| && Descends(s, t, pc') && s' == Goto(s, t, pc')
    ensures MoverHolds(s', t)
  {
    var th, th' := s.threads[t], s'.threads[t];
    DescendThread(s, t, pc');
    hide Basic, RecordsInv, ThreadInv, Descends;
    forall u | 0 <= u < |s'.threads|
      ensures SafeFrom(s'.recs, t, th'.pc, s'.reservations[t], s'.threads[u])
      ensures u != t ==> SafeFrom(s'.recs, u, s'.threads[u].pc, s'.reservations[u], th')
      ensures u != t ==> Apart(th', s'.threads[u])
    {
      assert Harmless(th'.pc) && OwnRecord(th'.pc) == None && Limbo(th') == Limbo(th) by { PlainDescent(s, t, pc'); }
      if u == t {
        HarmlessOther(s'.recs, t, th'.pc, s'.reservations[t], th');
      } else {
        HarmlessOther(s'.recs, u, s'.threads[u].pc, s'.reservations[u], th');
        ApartOf(s, t, u);
        DescendSafe(s, t, pc', u);
      }
    }
  }

  lemma PlainDescent(s: State, t: nat, pc': PC)
    requires t < |s.threads| && Descends(s, t, pc')
    ensures Harmless(pc') && OwnRecord(pc') == None && Doomed(pc') == Doomed(s.threads[t].pc) == []
  {
  }
}
