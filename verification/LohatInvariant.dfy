/** The invariant of runs in which every push is linked, that is, leads to the record it replaces.
    It is what reclamation needs: who holds a record, and what can let it be freed. */
module LohatInvariant {
  import opened Options
  import opened LohatModel

  // ---- the record chains --------------------------------------------------------------

  /** Record i links to the record pushed before it to the same bucket. */
  predicate Linked(recs: seq<Record>, i: nat)
    requires i < |recs|
  {
    match recs[i].next
    case None => forall j :: 0 <= j < i ==> recs[j].bucket != recs[i].bucket
    case Some(p) =>
      && p < i && recs[p].bucket == recs[i].bucket
      && forall j :: p < j < i ==> recs[j].bucket != recs[i].bucket
  }

  predicate SameBucket(recs: seq<Record>, i: nat, j: nat)
    requires i < |recs| && j < |recs|
  {
    recs[i].bucket == recs[j].bucket
  }

  function WE(recs: seq<Record>, i: nat): nat requires i < |recs| { recs[i].writeEpoch }

  function RE(recs: seq<Record>, i: nat): nat requires i < |recs| { recs[i].retireEpoch }

  predicate Follows(recs: seq<Record>, m: nat, h: nat)
    requires m < |recs|
  {
    recs[m].next == Some(h)
  }

  /** Chains run through all records of their bucket in push order. */
  predicate Chained(recs: seq<Record>)
  {
    forall i :: 0 <= i < |recs| ==> Linked(recs, i)
  }

  /** No epoch is later than the current one; a record is retired after the record on top of it has
      committed, and freed only when retired. */
  predicate RecordsInv(recs: seq<Record>, heads: seq<Option<nat>>, epoch: nat)
  {
    && Chained(recs)
    && epoch >= 1
    && (forall i :: 0 <= i < |recs| ==> WE(recs, i) <= epoch && RE(recs, i) <= epoch)
    && (forall i :: 0 <= i < |recs| && recs[i].freed ==> RE(recs, i) != 0)
    && (forall i ::
          0 <= i < |recs| && recs[i].bucket < |heads| && heads[recs[i].bucket] == Some(i) ==> RE(recs, i) == 0)
    && (forall i, j :: 0 <= i < |recs| && 0 <= j < |recs| && Follows(recs, j, i) && RE(recs, i) != 0 ==>
          0 < WE(recs, j) <= RE(recs, i))
  }

  // ---- what a thread holds ------------------------------------------------------------

  function Opt(r: Option<nat>): set<nat> { if r.Some? then {r.value} else {} }

  function HeldByCont(k: Cont): set<nat>
  {
    match k
    case ThenCopyEpoch(w) => Opt(w.head)
    case ThenCommit(w, own) => Opt(w.head) + {own}
    case ThenRetire(w, own) => Opt(w.head) + {own}
    case ThenReturn(head) => {head}
    case ThenDescend(_, _, rec) => {rec}
  }

  /** The records whose memory a thread may touch from where it is. */
  function Held(pc: PC): set<nat>
  {
    match pc
    case HeadLoaded(w) => Opt(w.head)
    case CopyingEpoch(w) => Opt(w.head)
    case Installing(w) => Opt(w.head)
    case HelpLoading(rec, k) => {rec} + HeldByCont(k)
    case HelpBumping(rec, k) => {rec} + HeldByCont(k)
    case HelpSwapping(rec, _, k) => {rec} + HeldByCont(k)
    case Retiring(w, own) => Opt(w.head) + {own}
    case Scanning(_, _, _, back) => Opt(back)
    case Freeing(_, back) => Opt(back)
    case Finishing(head) => {head}
    case Descending(_, _, cur) => Opt(cur)
    case Taking(_, _, rec) => {rec}
    case _ => {}
  }

  /** Where a thread relies on its reservation. */
  predicate Reserving(pc: PC)
  {
    match pc
    case Booting => false
    case Idle => false
    case EpochLoaded(_, _) => false
    case Scanning(_, _, _, back) => back.Some?
    case Freeing(_, back) => back.Some?
    case Ending => false
    case _ => true
  }

  /** A held record is in memory, and everything that can let it be reclaimed happened, or will
      happen, after the reserved epoch. */
  predicate Protected(recs: seq<Record>, h: nat, reserved: nat)
  {
    && h < |recs| && !recs[h].freed
    && (RE(recs, h) != 0 ==> reserved < RE(recs, h))
    && forall m :: 0 <= m < |recs| && Follows(recs, m, h) && WE(recs, m) != 0 ==> reserved < WE(recs, m)
  }

  // ---- pending commits ----------------------------------------------------------------

  predicate Pending(pc: PC, rec: nat, mine: nat) { pc.HelpSwapping? && pc.rec == rec && pc.mine == mine }

  predicate PendingInv(recs: seq<Record>, epoch: nat, rec: nat, mine: nat)
  {
    rec < |recs| && 0 < mine <= epoch
  }

  // ---- store operations ---------------------------------------------------------------

  predicate Committed(recs: seq<Record>, r: Option<nat>) { r.Some? ==> r.value < |recs| && WE(recs, r.value) != 0 }

  /** The record a thread has pushed and whose predecessor it will retire. */
  function OwnRecord(pc: PC): Option<nat>
  {
    match pc
    case HelpLoading(_, k) => OwnInCont(k)
    case HelpBumping(_, k) => OwnInCont(k)
    case HelpSwapping(_, _, k) => OwnInCont(k)
    case Retiring(_, own) => Some(own)
    case _ => None
  }

  function OwnInCont(k: Cont): Option<nat>
  {
    if k.ThenCommit? || k.ThenRetire? then Some(k.own) else None
  }

  predicate OwnInv(recs: seq<Record>, w: Write, own: nat)
  {
    && own < |recs| && recs[own].next == w.head
    && (w.head.Some? ==> w.head.value < |recs| && RE(recs, w.head.value) == 0)
  }

  /** The record that a helper works on is the one its caller wants committed. */
  predicate ContInv(recs: seq<Record>, rec: nat, k: Cont)
  {
    match k
    case ThenCopyEpoch(w) => w.head == Some(rec)
    case ThenCommit(w, own) => OwnInv(recs, w, own) && w.head == Some(rec)
    case ThenRetire(w, own) => OwnInv(recs, w, own) && own == rec
    case ThenReturn(head) => head == rec
    case ThenDescend(_, _, r) => r == rec
  }

  predicate PCInv(recs: seq<Record>, epoch: nat, pc: PC)
  {
    match pc
    case EpochLoaded(_, loaded) => loaded <= epoch
    case CopyingEpoch(w) => Committed(recs, w.head)
    case Installing(w) => w.op.Put? || w.op.Replace? ==> Committed(recs, w.head)
    case HelpLoading(rec, k) => ContInv(recs, rec, k)
    case HelpBumping(rec, k) => ContInv(recs, rec, k)
    case HelpSwapping(rec, mine, k) => ContInv(recs, rec, k) && PendingInv(recs, epoch, rec, mine)
    case Retiring(w, own) => OwnInv(recs, w, own) && WE(recs, own) != 0
    case _ => true
  }

  // ---- views --------------------------------------------------------------------------

  predicate Viewing(pc: PC)
  {
    pc.ViewBucket? || pc.Descending? || pc.Taking? || pc.Viewed?
    || ((pc.HelpLoading? || pc.HelpBumping? || pc.HelpSwapping?) && pc.k.ThenDescend?)
  }

  function ViewEpoch(pc: PC): nat
    requires Viewing(pc)
  {
    if pc.ViewBucket? || pc.Descending? || pc.Taking? || pc.Viewed? then pc.epoch else pc.k.epoch
  }

  /** All that was freed was retired by the view's epoch. */
  predicate ViewInv(recs: seq<Record>, epoch: nat, pc: PC, reserved: nat)
    requires Viewing(pc)
  {
    && reserved <= ViewEpoch(pc) <= epoch
    && forall r :: 0 <= r < |recs| && recs[r].freed ==> RE(recs, r) <= ViewEpoch(pc)
  }

  // ---- retire lists -------------------------------------------------------------------

  function Doomed(pc: PC): seq<nat> { if pc.Freeing? then pc.doomed else [] }

  /** Everything a thread has retired and not yet freed. */
  function Limbo(th: Thread): seq<nat> { th.retired + Doomed(th.pc) }

  predicate Distinct(q: seq<nat>) { forall i, j :: 0 <= i < j < |q| ==> q[i] != q[j] }

  predicate LimboInv(recs: seq<Record>, th: Thread)
  {
    var q := Limbo(th);
    && Distinct(q)
    && (forall i :: 0 <= i < |q| ==> q[i] < |recs| && RE(recs, q[i]) != 0 && !recs[q[i]].freed)
    && (forall i :: 0 <= i < |th.retired| ==> th.retired[i] < |recs|)
    && (forall i, j :: 0 <= i < j < |th.retired| ==> RE(recs, th.retired[j]) <= RE(recs, th.retired[i]))
  }

  // ---- one thread ---------------------------------------------------------------------

  predicate ThreadInv(recs: seq<Record>, epoch: nat, th: Thread, res: Option<nat>)
  {
    && (res.Some? ==> res.value <= epoch)
    && (Reserving(th.pc) ==> res.Some?)
    && (Reserving(th.pc) ==> forall h :: h in Held(th.pc) ==> Protected(recs, h, res.value))
    && PCInv(recs, epoch, th.pc)
    && (Viewing(th.pc) ==> ViewInv(recs, epoch, th.pc, res.value))
    && LimboInv(recs, th)
  }

  // ---- two threads --------------------------------------------------------------------

  /** Thread t posts its reservation too late for this scan to see it, or the scan has seen it. */
  predicate ScannedPast(pc: PC, t: nat) { pc.Scanning? && (t < pc.slot || pc.last <= t) }

  predicate Spares(pc: PC, retireEpoch: nat)
    requires pc.Scanning?
  {
    pc.lowest.Some? && pc.lowest.value <= retireEpoch
  }

  /** A commit that is still to come will come after the reserved epoch. */
  predicate CommitsAfter(recs: seq<Record>, other: PC, reserved: nat)
    requires other.HelpSwapping? && other.rec < |recs|
  {
    WE(recs, other.rec) == 0 ==> reserved < other.mine
  }

  /** Another thread will neither free record h nor, by a commit on top of it, let it be retired at
      or before the epoch that thread t has reserved. */
  predicate HolderSafe(recs: seq<Record>, t: nat, h: nat, reserved: nat, other: Thread)
    requires h < |recs|
  {
    && h !in Doomed(other.pc)
    && (ScannedPast(other.pc, t) && h in other.retired ==> Spares(other.pc, RE(recs, h)))
    && (other.pc.HelpSwapping? && other.pc.rec < |recs| && Follows(recs, other.pc.rec, h) ==>
          CommitsAfter(recs, other.pc, reserved))
  }

  /** What another thread frees was retired by the view's epoch. */
  predicate ViewSafe(recs: seq<Record>, t: nat, pc: PC, other: Thread)
    requires Viewing(pc)
  {
    && (forall r :: r in Doomed(other.pc) && r < |recs| ==> RE(recs, r) <= ViewEpoch(pc))
    && (forall r :: ScannedPast(other.pc, t) && r in other.retired && r < |recs| ==>
          RE(recs, r) <= ViewEpoch(pc) || Spares(other.pc, RE(recs, r)))
  }

  /** Thread t, at pc with the given reservation, is safe from another thread. */
  predicate SafeFrom(recs: seq<Record>, t: nat, pc: PC, res: Option<nat>, other: Thread)
  {
    && (Reserving(pc) && res.Some? ==>
          forall h :: h in Held(pc) && h < |recs| ==> HolderSafe(recs, t, h, res.value, other))
    && (Viewing(pc) ==> ViewSafe(recs, t, pc, other))
  }

  /** Two different threads own different records and different garbage. */
  predicate Apart(a: Thread, b: Thread)
  {
    && (OwnRecord(a.pc).Some? ==> OwnRecord(a.pc) != OwnRecord(b.pc))
    && (forall i, j :: 0 <= i < |Limbo(a)| && 0 <= j < |Limbo(b)| ==> Limbo(a)[i] != Limbo(b)[j])
  }

  predicate Inv(s: State)
  {
    && Basic(s)
    && RecordsInv(s.recs, s.heads, s.epoch)
    && (forall t :: 0 <= t < |s.threads| ==> ThreadInv(s.recs, s.epoch, s.threads[t], s.reservations[t]))
    && (forall t, u :: 0 <= t < |s.threads| && 0 <= u < |s.threads| ==>
          SafeFrom(s.recs, t, s.threads[t].pc, s.reservations[t], s.threads[u]))
    && (forall t, u :: 0 <= t < u < |s.threads| ==> Apart(s.threads[t], s.threads[u]))
  }
}
