/** What a change of memory by one thread leaves true of the other threads. */
module LohatFrames {
  import opened Options
  import opened LohatModel
  import opened LohatInvariant

  ghost predicate OthersHold(s: State, s': State, t: nat)
  {
    && |s'.threads| == |s.threads| == |s'.reservations| == |s.reservations|
    && (forall u :: 0 <= u < |s.threads| && u != t ==>
          && s'.threads[u] == s.threads[u] && s'.reservations[u] == s.reservations[u]
          && ThreadInv(s'.recs, s'.epoch, s.threads[u], s.reservations[u]))
    && (forall u, v :: 0 <= u < |s.threads| && 0 <= v < |s.threads| && u != t && v != t ==>
          SafeFrom(s'.recs, u, s.threads[u].pc, s.reservations[u], s.threads[v]))
  }

  ghost predicate MoverHolds(s: State, t: nat)
    requires t < |s.threads| == |s.reservations|
  {
    && ThreadInv(s.recs, s.epoch, s.threads[t], s.reservations[t])
    && (forall u :: 0 <= u < |s.threads| ==>
          SafeFrom(s.recs, t, s.threads[t].pc, s.reservations[t], s.threads[u]))
    && (forall u :: 0 <= u < |s.threads| && u != t ==>
          && SafeFrom(s.recs, u, s.threads[u].pc, s.reservations[u], s.threads[t])
          && Apart(s.threads[t], s.threads[u]))
  }

  lemma ApartSymmetric(a: Thread, b: Thread)
    requires Apart(a, b)
    ensures Apart(b, a)
  {
  }

  /** The invariant after a step of thread t, from its parts. */
  lemma Assemble(s: State, s': State, t: nat)
    requires Inv(s) && Basic(s') && RecordsInv(s'.recs, s'.heads, s'.epoch) && t < |s.threads|
    requires OthersHold(s, s', t) && MoverHolds(s', t)
    ensures Inv(s')
  {
    hide ThreadInv, SafeFrom, Basic, RecordsInv, Apart;
    forall u, v | 0 <= u < v < |s'.threads| ensures Apart(s'.threads[u], s'.threads[v]) {
      if u == t {
      } else if v == t {
        ApartSymmetric(s'.threads[t], s'.threads[u]);
      } else {
        assert Apart(s.threads[u], s.threads[v]);
      }
    }
  }

  // ---- records unchanged --------------------------------------------------------------

  lemma QuietFrame(s: State, s': State, t: nat)
    requires Inv(s) && t < |s.threads| == |s'.threads| == |s'.reservations|
    requires s'.recs == s.recs && s.epoch <= s'.epoch
    requires forall u :: 0 <= u < |s.threads| && u != t ==>
               s'.threads[u] == s.threads[u] && s'.reservations[u] == s.reservations[u]
    ensures OthersHold(s, s', t)
  {
    hide SafeFrom, RecordsInv, ThreadInv;
    forall u | 0 <= u < |s.threads| && u != t
      ensures ThreadInv(s'.recs, s'.epoch, s.threads[u], s.reservations[u])
    {
      LaterEpoch(s.recs, s.epoch, s'.epoch, s.threads[u], s.reservations[u]);
    }
  }

  lemma LaterEpoch(recs: seq<Record>, epoch: nat, epoch': nat, th: Thread, res: Option<nat>)
    requires epoch <= epoch' && ThreadInv(recs, epoch, th, res)
    ensures ThreadInv(recs, epoch', th, res)
  {
    hide LimboInv, Protected, ContInv;
  }

  lemma LaterRecords(recs: seq<Record>, heads: seq<Option<nat>>, epoch: nat, epoch': nat)
    requires RecordsInv(recs, heads, epoch) && epoch <= epoch'
    ensures RecordsInv(recs, heads, epoch')
  {
    hide Chained;
  }

  // ---- a push -------------------------------------------------------------------------

  ghost predicate IsPush(recs: seq<Record>, recs': seq<Record>)
  {
    && |recs'| == |recs| + 1 && recs'[..|recs|] == recs
    && recs'[|recs|].writeEpoch == 0 && recs'[|recs|].retireEpoch == 0 && !recs'[|recs|].freed
  }

  lemma PushFrame(s: State, s': State, t: nat)
    requires Inv(s) && t < |s.threads| == |s'.threads| == |s'.reservations|
    requires IsPush(s.recs, s'.recs) && s.epoch == s'.epoch
    requires forall u :: 0 <= u < |s.threads| && u != t ==>
               s'.threads[u] == s.threads[u] && s'.reservations[u] == s.reservations[u]
    ensures OthersHold(s, s', t)
  {
    hide SafeFrom, RecordsInv, ThreadInv;
    forall u | 0 <= u < |s.threads| && u != t
      ensures ThreadInv(s'.recs, s'.epoch, s.threads[u], s.reservations[u])
    {
      assert ThreadOK(s, u);
      PushThread(s, s'.recs, s.threads[u], s.reservations[u]);
    }
    forall u, v | 0 <= u < |s.threads| && 0 <= v < |s.threads| && u != t && v != t
      ensures SafeFrom(s'.recs, u, s.threads[u].pc, s.reservations[u], s.threads[v])
    {
      assert ThreadOK(s, u) && ThreadOK(s, v);
      PushPair(s, s'.recs, u, s.threads[u], s.reservations[u], s.threads[v]);
    }
  }

  /** Everything but write epochs, retire epochs and the freed flag is fixed when a record is
      pushed. */
  ghost predicate SameShape(recs: seq<Record>, recs': seq<Record>)
  {
    && |recs| <= |recs'|
    && (forall i, j :: 0 <= i < |recs| && 0 <= j < |recs| ==> SameBucket(recs', i, j) == SameBucket(recs, i, j))
    && (forall i, h :: 0 <= i < |recs| ==> Follows(recs', i, h) == Follows(recs, i, h))
    && (forall i :: 0 <= i < |recs| ==> recs'[i].bucket == recs[i].bucket && recs'[i].next == recs[i].next)
  }

  ghost predicate SameWE(recs: seq<Record>, recs': seq<Record>)
    requires |recs| <= |recs'|
  {
    forall i :: 0 <= i < |recs| ==> WE(recs', i) == WE(recs, i)
  }

  ghost predicate SameRE(recs: seq<Record>, recs': seq<Record>)
    requires |recs| <= |recs'|
  {
    forall i :: 0 <= i < |recs| ==> RE(recs', i) == RE(recs, i)
  }

  ghost predicate SameFreed(recs: seq<Record>, recs': seq<Record>)
    requires |recs| <= |recs'|
  {
    forall i :: 0 <= i < |recs| ==> recs'[i].freed == recs[i].freed
  }

  lemma PushShape(recs: seq<Record>, recs': seq<Record>)
    requires IsPush(recs, recs')
    ensures SameShape(recs, recs') && SameWE(recs, recs') && SameRE(recs, recs') && SameFreed(recs, recs')
    ensures WE(recs', |recs|) == 0 && RE(recs', |recs|) == 0 && !recs'[|recs|].freed
  {
    assert forall i :: 0 <= i < |recs| ==> recs'[i] == recs[i];
  }

  lemma PushThread(s: State, recs': seq<Record>, th: Thread, res: Option<nat>)
    requires IsPush(s.recs, recs') && PCOK(s, th.pc)
    requires ThreadInv(s.recs, s.epoch, th, res)
    ensures ThreadInv(recs', s.epoch, th, res)
  {
    PushShape(s.recs, recs');
    hide IsPush;
    assert PCInv(recs', s.epoch, th.pc);
    assert LimboInv(recs', th);
    if Viewing(th.pc) { assert ViewInv(recs', s.epoch, th.pc, res.value); }
    if Reserving(th.pc) {
      forall h | h in Held(th.pc) ensures Protected(recs', h, res.value) { assert Protected(s.recs, h, res.value); }
    }
  }

  lemma PushPair(s: State, recs': seq<Record>, t: nat, th: Thread, res: Option<nat>, other: Thread)
    requires IsPush(s.recs, recs') && PCOK(s, th.pc) && PCOK(s, other.pc)
    requires forall k :: 0 <= k < |other.retired| ==> other.retired[k] < |s.recs|
    requires SafeFrom(s.recs, t, th.pc, res, other)
    ensures SafeFrom(recs', t, th.pc, res, other)
  {
    PushShape(s.recs, recs');
    hide IsPush;
  }

  // ---- a commit -----------------------------------------------------------------------

  ghost predicate IsCommit(recs: seq<Record>, recs': seq<Record>, r: nat, e: nat)
  {
    && |recs'| == |recs| && r < |recs| && WE(recs, r) == 0
    && SameShape(recs, recs') && SameRE(recs, recs') && SameFreed(recs, recs')
    && forall i :: 0 <= i < |recs| ==> WE(recs', i) == if i == r then e else WE(recs, i)
  }

  lemma CommitIsCommit(s: State, r: nat, e: nat)
    requires r < |s.recs| && WE(s.recs, r) == 0
    ensures IsCommit(s.recs, Commit(s, r, e).recs, r, e)
  {
  }

  lemma CommitFrame(s: State, s': State, t: nat, r: nat, e: nat)
    requires Inv(s) && t < |s.threads| == |s'.threads| == |s'.reservations|
    requires Pending(s.threads[t].pc, r, e)
    requires IsCommit(s.recs, s'.recs, r, e) && s.epoch == s'.epoch
    requires forall u :: 0 <= u < |s.threads| && u != t ==>
               s'.threads[u] == s.threads[u] && s'.reservations[u] == s.reservations[u]
    ensures OthersHold(s, s', t)
  {
    hide SafeFrom, RecordsInv, ThreadInv, IsCommit, Apart;
    assert Chained(s.recs) by { ChainOf(s); }
    forall u | 0 <= u < |s.threads| && u != t
      ensures ThreadInv(s'.recs, s'.epoch, s.threads[u], s.reservations[u])
    {
      assert ThreadOK(s, u);
      ApartOf(s, u, t);
      CommitThread(s, s'.recs, r, e, u, s.threads[u], s.reservations[u], s.threads[t]);
    }
    forall u, v | 0 <= u < |s.threads| && 0 <= v < |s.threads| && u != t && v != t
      ensures SafeFrom(s'.recs, u, s.threads[u].pc, s.reservations[u], s.threads[v])
    {
      CommitPair(s.recs, s'.recs, r, e, u, s.threads[u], s.reservations[u], s.threads[v]);
    }
  }

  lemma ChainOf(s: State)
    requires Inv(s)
    ensures Chained(s.recs)
  {
    hide Basic, ThreadInv, SafeFrom, Apart, Chained;
  }

  lemma ApartOf(s: State, t: nat, u: nat)
    requires Inv(s) && t < |s.threads| && u < |s.threads| && t != u
    ensures Apart(s.threads[t], s.threads[u])
  {
    hide Basic, ThreadInv, SafeFrom, RecordsInv, Apart;
    if u < t { ApartSymmetric(s.threads[u], s.threads[t]); }
  }

  lemma CommitThread(s: State, recs': seq<Record>, r: nat, e: nat, t: nat, th: Thread, res: Option<nat>, mover: Thread)
    requires IsCommit(s.recs, recs', r, e) && Chained(s.recs) && PCOK(s, th.pc)
    requires ThreadInv(s.recs, s.epoch, th, res)
    requires Pending(mover.pc, r, e) && SafeFrom(s.recs, t, th.pc, res, mover) && Apart(th, mover)
    ensures ThreadInv(recs', s.epoch, th, res)
  {
    assert PCInv(recs', s.epoch, th.pc);
    assert LimboInv(recs', th);
    if Viewing(th.pc) { assert ViewInv(recs', s.epoch, th.pc, res.value); }
    if Reserving(th.pc) {
      forall h | h in Held(th.pc) ensures Protected(recs', h, res.value) {
        assert Protected(s.recs, h, res.value) && HolderSafe(s.recs, t, h, res.value, mover);
      }
    }
  }

  lemma CommitPair(recs: seq<Record>, recs': seq<Record>, r: nat, e: nat, t: nat, th: Thread,
                   res: Option<nat>, other: Thread)
    requires IsCommit(recs, recs', r, e) && SafeFrom(recs, t, th.pc, res, other)
    ensures SafeFrom(recs', t, th.pc, res, other)
  {
  }

  // ---- a retirement -------------------------------------------------------------------

  ghost predicate IsRetire(recs: seq<Record>, recs': seq<Record>, r: nat, e: nat)
  {
    && |recs'| == |recs| && r < |recs| && RE(recs, r) == 0
    && SameShape(recs, recs') && SameWE(recs, recs') && SameFreed(recs, recs')
    && forall i :: 0 <= i < |recs| ==> RE(recs', i) == if i == r then e else RE(recs, i)
  }

  lemma RetireIsRetire(s: State, t: nat, r: nat)
    requires t < |s.threads| && r < |s.recs| && RE(s.recs, r) == 0
    ensures IsRetire(s.recs, Retire(s, t, r).recs, r, s.epoch)
  {
  }

  lemma RetireFrame(s: State, s': State, t: nat, r: nat, own: nat)
    requires Inv(s) && t < |s.threads| == |s'.threads| == |s'.reservations|
    requires OwnRecord(s.threads[t].pc) == Some(own) && own < |s.recs|
    requires Follows(s.recs, own, r) && WE(s.recs, own) != 0
    requires IsRetire(s.recs, s'.recs, r, s.epoch) && s.epoch == s'.epoch
    requires forall u :: 0 <= u < |s.threads| && u != t ==>
               s'.threads[u] == s.threads[u] && s'.reservations[u] == s.reservations[u]
    ensures OthersHold(s, s', t)
  {
    hide SafeFrom, RecordsInv, ThreadInv, IsRetire, Apart;
    forall u | 0 <= u < |s.threads| && u != t
      ensures ThreadInv(s'.recs, s'.epoch, s.threads[u], s.reservations[u])
    {
      assert ThreadOK(s, u);
      ApartOf(s, t, u);
      RetireThread(s, s'.recs, r, own, s.threads[u], s.reservations[u], s.threads[t]);
    }
    forall u, v | 0 <= u < |s.threads| && 0 <= v < |s.threads| && u != t && v != t
      ensures SafeFrom(s'.recs, u, s.threads[u].pc, s.reservations[u], s.threads[v])
    {
      LimboOf(s, v);
      RetirePair(s.recs, s'.recs, r, s.epoch, u, s.threads[u], s.reservations[u], s.threads[v]);
    }
  }

  lemma LimboOf(s: State, t: nat)
    requires Inv(s) && t < |s.threads|
    ensures LimboInv(s.recs, s.threads[t])
  {
    hide SafeFrom, RecordsInv, LimboInv, Apart;
    assert ThreadInv(s.recs, s.epoch, s.threads[t], s.reservations[t]);
  }

  lemma OneSuccessor(recs: seq<Record>, i: nat, j: nat, h: nat)
    requires Chained(recs) && i < |recs| && j < |recs| && h < |recs| && Follows(recs, i, h) && Follows(recs, j, h)
    ensures i == j
  {
    assert Linked(recs, i) && Linked(recs, j);
  }

  lemma RetireThread(s: State, recs': seq<Record>, r: nat, own: nat, th: Thread, res: Option<nat>, mover: Thread)
    requires IsRetire(s.recs, recs', r, s.epoch) && RecordsInv(s.recs, s.heads, s.epoch) && PCOK(s, th.pc)
    requires ThreadInv(s.recs, s.epoch, th, res) && Apart(mover, th)
    requires OwnRecord(mover.pc) == Some(own) && own < |s.recs| && Follows(s.recs, own, r) && WE(s.recs, own) != 0
    ensures ThreadInv(recs', s.epoch, th, res)
  {
    RetireLimbo(s.recs, recs', r, s.epoch, th);
    assert PCInv(recs', s.epoch, th.pc) by {
      hide Protected, LimboInv, IsRetire;
      if th.pc.HelpLoading? || th.pc.HelpBumping? || th.pc.HelpSwapping? {
        RetireCont(s.recs, recs', r, s.epoch, own, th.pc.rec, th.pc.k);
        if th.pc.HelpSwapping? { RetirePending(s.recs, recs', r, s.epoch, th.pc.rec, th.pc.mine); }
      } else if th.pc.Retiring? {
        RetireOwn(s.recs, recs', r, s.epoch, own, th.pc.w, th.pc.own);
      }
      RetireCommitted(s.recs, recs', r, s.epoch);
    }
    hide LimboInv, PCInv, Chained;
    if Viewing(th.pc) { assert ViewInv(recs', s.epoch, th.pc, res.value); }
    if Reserving(th.pc) {
      forall h | h in Held(th.pc) ensures Protected(recs', h, res.value) {
        assert Protected(s.recs, h, res.value);
      }
    }
  }

  lemma RetireCommitted(recs: seq<Record>, recs': seq<Record>, r: nat, e: nat)
    requires IsRetire(recs, recs', r, e)
    ensures |recs'| == |recs|
    ensures forall x :: Committed(recs, x) ==> Committed(recs', x)
    ensures forall i :: 0 <= i < |recs| && WE(recs, i) != 0 ==> WE(recs', i) != 0
  {
  }

  lemma RetirePending(recs: seq<Record>, recs': seq<Record>, r: nat, epoch: nat, rec: nat, mine: nat)
    requires IsRetire(recs, recs', r, epoch) && PendingInv(recs, epoch, rec, mine)
    ensures PendingInv(recs', epoch, rec, mine)
  {
  }

  lemma RetireLimbo(recs: seq<Record>, recs': seq<Record>, r: nat, e: nat, th: Thread)
    requires IsRetire(recs, recs', r, e) && LimboInv(recs, th)
    ensures LimboInv(recs', th)
  {
    NotInLimbo(recs, th, r);
    var q := Limbo(th);
    assert forall i :: 0 <= i < |q| ==> q[i] != r;
    assert forall i :: 0 <= i < |th.retired| ==> th.retired[i] != r;
  }

  lemma RetireOwn(recs: seq<Record>, recs': seq<Record>, r: nat, e: nat, own: nat, w: Write, own': nat)
    requires IsRetire(recs, recs', r, e) && Chained(recs) && own < |recs| && Follows(recs, own, r)
    requires OwnInv(recs, w, own') && own != own'
    ensures OwnInv(recs', w, own')
  {
    if w.head == Some(r) { OneSuccessor(recs, own, own', r); }
  }

  lemma RetireCont(recs: seq<Record>, recs': seq<Record>, r: nat, e: nat, own: nat, rec: nat, k: Cont)
    requires IsRetire(recs, recs', r, e) && Chained(recs) && own < |recs| && Follows(recs, own, r)
    requires ContInv(recs, rec, k) && OwnInCont(k) != Some(own)
    ensures ContInv(recs', rec, k)
  {
    hide IsRetire, Chained;
    if k.ThenCommit? || k.ThenRetire? { RetireOwn(recs, recs', r, e, own, k.w, k.own); }
  }

  lemma RetirePair(recs: seq<Record>, recs': seq<Record>, r: nat, e: nat, t: nat, th: Thread,
                   res: Option<nat>, other: Thread)
    requires IsRetire(recs, recs', r, e) && SafeFrom(recs, t, th.pc, res, other) && LimboInv(recs, other)
    ensures SafeFrom(recs', t, th.pc, res, other)
  {
    assert r !in other.retired && r !in Doomed(other.pc) by { NotInLimbo(recs, other, r); }
  }

  lemma NotInLimbo(recs: seq<Record>, th: Thread, r: nat)
    requires LimboInv(recs, th) && r < |recs| && (RE(recs, r) == 0 || recs[r].freed)
    ensures r !in th.retired && r !in Doomed(th.pc)
  {
    var q := Limbo(th);
    assert r !in q;
    assert forall x :: x in th.retired || x in Doomed(th.pc) ==> x in q;
  }

  // ---- freeing ------------------------------------------------------------------------

  ghost predicate IsFree(recs: seq<Record>, recs': seq<Record>, r: nat)
  {
    && |recs'| == |recs| && r < |recs|
    && SameShape(recs, recs') && SameWE(recs, recs') && SameRE(recs, recs')
    && forall i :: 0 <= i < |recs| ==> recs'[i].freed == (i == r || recs[i].freed)
  }

  lemma FreeIsFree(s: State, r: nat)
    requires r < |s.recs|
    ensures IsFree(s.recs, Free(s, r).recs, r)
  {
  }

  lemma FreeFrame(s: State, s': State, t: nat, r: nat)
    requires Inv(s) && t < |s.threads| == |s'.threads| == |s'.reservations|
    requires r in Doomed(s.threads[t].pc)
    requires IsFree(s.recs, s'.recs, r) && s.epoch == s'.epoch
    requires forall u :: 0 <= u < |s.threads| && u != t ==>
               s'.threads[u] == s.threads[u] && s'.reservations[u] == s.reservations[u]
    ensures OthersHold(s, s', t)
  {
    hide SafeFrom, RecordsInv, ThreadInv, IsFree, Apart;
    forall u | 0 <= u < |s.threads| && u != t
      ensures ThreadInv(s'.recs, s'.epoch, s.threads[u], s.reservations[u])
    {
      assert ThreadOK(s, u);
      ApartOf(s, t, u);
      FreeThread(s, s'.recs, r, u, s.threads[u], s.reservations[u], s.threads[t]);
    }
    forall u, v | 0 <= u < |s.threads| && 0 <= v < |s.threads| && u != t && v != t
      ensures SafeFrom(s'.recs, u, s.threads[u].pc, s.reservations[u], s.threads[v])
    {
      FreePair(s.recs, s'.recs, r, u, s.threads[u], s.reservations[u], s.threads[v]);
    }
  }

  lemma FreeThread(s: State, recs': seq<Record>, r: nat, t: nat, th: Thread, res: Option<nat>, mover: Thread)
    requires IsFree(s.recs, recs', r) && PCOK(s, th.pc)
    requires ThreadInv(s.recs, s.epoch, th, res)
    requires r in Doomed(mover.pc) && SafeFrom(s.recs, t, th.pc, res, mover) && Apart(mover, th)
    ensures ThreadInv(recs', s.epoch, th, res)
  {
    assert forall i :: 0 <= i < |Limbo(th)| ==> Limbo(th)[i] != r by { DoomedIsLimbo(mover, th, r); }
    assert LimboInv(recs', th);
    assert PCInv(recs', s.epoch, th.pc);
    if Viewing(th.pc) { assert ViewInv(recs', s.epoch, th.pc, res.value); }
    if Reserving(th.pc) {
      forall h | h in Held(th.pc) ensures Protected(recs', h, res.value) {
        assert Protected(s.recs, h, res.value) && HolderSafe(s.recs, t, h, res.value, mover);
      }
    }
  }

  lemma DoomedIsLimbo(mover: Thread, th: Thread, r: nat)
    requires r in Doomed(mover.pc) && Apart(mover, th)
    ensures forall i :: 0 <= i < |Limbo(th)| ==> Limbo(th)[i] != r
  {
    var k :| 0 <= k < |Doomed(mover.pc)| && Doomed(mover.pc)[k] == r;
    assert Limbo(mover)[|mover.retired| + k] == r;
  }

  lemma FreePair(recs: seq<Record>, recs': seq<Record>, r: nat, t: nat, th: Thread, res: Option<nat>, other: Thread)
    requires IsFree(recs, recs', r) && SafeFrom(recs, t, th.pc, res, other)
    ensures SafeFrom(recs', t, th.pc, res, other)
  {
  }
}
