/** The lohat table over the mmm memory manager as a state machine: every load, store,
    fetch-and-add and compare-and-swap on shared memory is one step of one thread, and threads
    interleave freely.  Records are never reused: a record's index is its address, given out when
    it is installed, so indices grow in the order in which records were pushed. */
module LohatModel {
  import opened Options

  /** lohat_record_st with its mmm_header_st.  Epoch zero means not set. */
  datatype Record = Record(bucket: nat, item: int, deleted: bool, next: Option<nat>, createEpoch: nat,
                           writeEpoch: nat, retireEpoch: nat, freed: bool)

  datatype Op =
    | Put(bucket: nat, item: int)
    | Add(bucket: nat, item: int)
    | Replace(bucket: nat, item: int)
    | Remove(bucket: nat)
    | Get(bucket: nat)
    | View

  /** The local variables of a store operation: the `next` field of its candidate record, the
      head it expects to replace, and the candidate's create epoch. */
  datatype Write = Write(op: Op, next: Option<nat>, head: Option<nat>, createEpoch: nat)

  /** What follows a call of mmm_help_commit or mmm_commit_write. */
  datatype Cont =
    | ThenCopyEpoch(w: Write)
    | ThenCommit(w: Write, own: nat)
    | ThenRetire(w: Write, own: nat)
    | ThenReturn(head: nat)
    | ThenDescend(epoch: nat, got: seq<Option<nat>>, rec: nat)

  datatype PC =
    | Booting                                    // has a thread id; its reservation slot is still zero
    | Idle
    | EpochLoaded(op: Op, loaded: nat)           // mmm_start_*_op has loaded the epoch
    | Reserved(op: Op)                           // ... and posted it
    | HeadLoaded(w: Write)
    | CopyingEpoch(w: Write)
    | Installing(w: Write)                       // before the compare-and-swap on the head
    | HelpLoading(rec: nat, k: Cont)          // mmm_help_commit: before the load of write_epoch
    | HelpBumping(rec: nat, k: Cont)          // before the fetch-and-add of the epoch
    | HelpSwapping(rec: nat, mine: nat, k: Cont) // before the compare-and-swap of write_epoch
    | Retiring(w: Write, own: nat)               // before mmm_retire of the replaced head
    | Scanning(last: nat, slot: nat, lowest: Option<nat>, back: Option<nat>) // mmm_empty
    | Freeing(doomed: seq<nat>, back: Option<nat>)
    | Finishing(head: nat)                       // reads the result out of a record
    | ViewBucket(epoch: nat, got: seq<Option<nat>>)
    | Descending(epoch: nat, got: seq<Option<nat>>, cur: Option<nat>)
    | Taking(epoch: nat, got: seq<Option<nat>>, rec: nat) // reads the item of the record it stopped at
    | Viewed(epoch: nat, got: seq<Option<nat>>)
    | Ending                                     // before mmm_end_op

  /** A thread and its retire list, most recently retired first. */
  datatype Thread = Thread(pc: PC, retired: seq<nat>)

  /** `reservations[t]` is None for HATRACK_EPOCH_UNRESERVED. */
  datatype State = State(epoch: nat, recs: seq<Record>, heads: seq<Option<nat>>,
                         reservations: seq<Option<nat>>, threads: seq<Thread>)

  /** How a thread resolves a choice: which operation to start, and when to run mmm_empty. */
  datatype Choice = Start(op: Op) | Empty | Go

  function Init(buckets: nat): State
  {
    State(1, [], seq(buckets, i => None), [], [])
  }

  // ---- well-formed program counters ---------------------------------------------------

  predicate OpOK(s: State, op: Op)
  {
    op.View? || op.bucket < |s.heads|
  }

  predicate InBucket(s: State, r: nat, b: nat)
  {
    r < |s.recs| && s.recs[r].bucket == b
  }

  predicate OptInBucket(s: State, r: Option<nat>, b: nat)
  {
    r.Some? ==> InBucket(s, r.value, b)
  }

  predicate WriteOK(s: State, w: Write)
  {
    && !w.op.View? && w.op.bucket < |s.heads|
    && OptInBucket(s, w.next, w.op.bucket) && OptInBucket(s, w.head, w.op.bucket)
    && (w.head.None? ==> w.next.None?)
    && (if w.op.Replace? then w.head.Some? ==> w.next.Some? else w.next == w.head)
  }

  /** Replace and remove go on only if they have found a record that is not deleted, add only if it has not. */
  predicate ChoiceOK(s: State, w: Write)
  {
    && (w.op.Replace? || w.op.Remove? ==> w.head.Some? && w.head.value < |s.recs| && !s.recs[w.head.value].deleted)
    && (w.op.Add? && w.head.Some? ==> w.head.value < |s.recs| && s.recs[w.head.value].deleted)
  }

  predicate OwnOK(s: State, w: Write, own: nat)
  {
    WriteOK(s, w) && InBucket(s, own, w.op.bucket)
  }

  predicate GotOK(s: State, got: seq<Option<nat>>)
  {
    |got| <= |s.heads| && forall b :: 0 <= b < |got| ==> OptInBucket(s, got[b], b)
  }

  predicate ContOK(s: State, k: Cont)
  {
    match k
    case ThenCopyEpoch(w) => WriteOK(s, w) && w.head.Some? && (w.op.Put? || w.op.Replace?) && ChoiceOK(s, w)
    case ThenCommit(w, own) => OwnOK(s, w, own) && w.head.Some?
    case ThenRetire(w, own) => OwnOK(s, w, own)
    case ThenReturn(head) => head < |s.recs|
    case ThenDescend(_, got, rec) => GotOK(s, got) && |got| < |s.heads| && InBucket(s, rec, |got|)
  }

  predicate PCOK(s: State, pc: PC)
  {
    match pc
    case Booting => true
    case Idle => true
    case EpochLoaded(op, _) => OpOK(s, op)
    case Reserved(op) => OpOK(s, op)
    case HeadLoaded(w) => WriteOK(s, w)
    case CopyingEpoch(w) => WriteOK(s, w) && w.head.Some? && (w.op.Put? || w.op.Replace?) && ChoiceOK(s, w)
    case Installing(w) => WriteOK(s, w) && !w.op.Get? && ChoiceOK(s, w)
    case HelpLoading(rec, k) => rec < |s.recs| && ContOK(s, k)
    case HelpBumping(rec, k) => rec < |s.recs| && ContOK(s, k)
    case HelpSwapping(rec, _, k) => rec < |s.recs| && ContOK(s, k)
    case Retiring(w, own) => OwnOK(s, w, own) && w.head.Some?
    case Scanning(last, slot, _, back) => slot <= last <= |s.threads| && (back.Some? ==> back.value < |s.recs|)
    case Freeing(doomed, back) =>
      (forall k :: 0 <= k < |doomed| ==> doomed[k] < |s.recs|) && (back.Some? ==> back.value < |s.recs|)
    case Finishing(head) => head < |s.recs|
    case ViewBucket(_, got) => GotOK(s, got)
    case Descending(_, got, cur) => GotOK(s, got) && |got| < |s.heads| && OptInBucket(s, cur, |got|)
    case Taking(_, got, rec) => GotOK(s, got) && |got| < |s.heads| && InBucket(s, rec, |got|)
    case Viewed(_, got) => GotOK(s, got) && |got| == |s.heads|
    case Ending => true
  }

  /** What every state of every run satisfies, whatever the threads do: indices are in range,
      chains lead to older records, and each head is the record pushed last to its bucket. */
  predicate HeadOK(s: State, b: nat)
    requires b < |s.heads|
  {
    match s.heads[b]
    case None => forall i :: 0 <= i < |s.recs| ==> s.recs[i].bucket != b
    case Some(h) => InBucket(s, h, b) && forall i :: h < i < |s.recs| ==> s.recs[i].bucket != b
  }

  predicate RecordOK(s: State, i: nat)
    requires i < |s.recs|
  {
    && s.recs[i].bucket < |s.heads| && OptInBucket(s, s.recs[i].next, s.recs[i].bucket)
    && (s.recs[i].next.Some? ==> s.recs[i].next.value < i)
  }

  predicate ThreadOK(s: State, t: nat)
    requires t < |s.threads|
  {
    PCOK(s, s.threads[t].pc)
    && forall k :: 0 <= k < |s.threads[t].retired| ==> s.threads[t].retired[k] < |s.recs|
  }

  predicate Basic(s: State)
  {
    && |s.reservations| == |s.threads|
    && (forall b :: 0 <= b < |s.heads| ==> HeadOK(s, b))
    && (forall i :: 0 <= i < |s.recs| ==> RecordOK(s, i))
    && (forall t :: 0 <= t < |s.threads| ==> ThreadOK(s, t))
  }

  // ---- steps --------------------------------------------------------------------------

  function Goto(s: State, t: nat, pc: PC): State
    requires t < |s.threads|
  {
    s.(threads := s.threads[t := s.threads[t].(pc := pc)])
  }

  function Reserve(s: State, t: nat, r: Option<nat>): State
    requires t < |s.reservations|
  {
    s.(reservations := s.reservations[t := r])
  }

  function Resume(k: Cont): PC
  {
    match k
    case ThenCopyEpoch(w) => CopyingEpoch(w)
    case ThenCommit(w, own) => HelpBumping(own, ThenRetire(w, own))
    case ThenRetire(w, own) => if w.head.Some? then Retiring(w, own) else Ending
    case ThenReturn(head) => Finishing(head)
    case ThenDescend(epoch, got, rec) => Descending(epoch, got, Some(rec))
  }

  /** What a store operation does once it has loaded the head of its bucket. */
  function Examine(s: State, w: Write): PC
    requires WriteOK(s, w)
  {
    match w.op
    case Put(_, _) => if w.head.Some? then HelpLoading(w.head.value, ThenCopyEpoch(w)) else Installing(w)
    case Add(_, _) => if w.head.Some? && !s.recs[w.head.value].deleted then Ending else Installing(w)
    case Replace(_, _) =>
      if w.head.None? || s.recs[w.head.value].deleted then Ending
      else HelpLoading(w.head.value, ThenCopyEpoch(w))
    case Remove(_) => if w.head.None? || s.recs[w.head.value].deleted then Ending else Installing(w)
    case Get(_) =>
      if w.head.None? || s.recs[w.head.value].deleted then Ending
      else HelpLoading(w.head.value, ThenReturn(w.head.value))
  }

  /** mmm_get_create_epoch */
  function CreateEpochOf(r: Record): nat { if r.createEpoch != 0 then r.createEpoch else r.writeEpoch }

  function Candidate(w: Write): Record
    requires !w.op.View?
  {
    Record(w.op.bucket, if w.op.Remove? || w.op.Get? then 0 else w.op.item, w.op.Remove?, w.next,
           w.createEpoch, 0, 0, false)
  }

  function Push(s: State, w: Write): State
    requires !w.op.View? && w.op.bucket < |s.heads|
  {
    s.(recs := s.recs + [Candidate(w)], heads := s.heads[w.op.bucket := Some(|s.recs|)])
  }

  predicate InstallSucceeds(s: State, w: Write)
    requires WriteOK(s, w)
  {
    s.heads[w.op.bucket] == w.head
  }

  /** After the compare-and-swap on the head.  Put and replace have helped the old head before it;
      add and remove help it after.  On failure put, add and remove give up, and replace starts
      over with the new head but leaves the `next` field of its candidate as it was. */
  function AfterInstall(s: State, w: Write): PC
    requires WriteOK(s, w)
  {
    var head := s.heads[w.op.bucket];
    if InstallSucceeds(s, w) then
      if (w.op.Add? || w.op.Remove?) && w.head.Some? then HelpLoading(w.head.value, ThenCommit(w, |s.recs|))
      else HelpBumping(|s.recs|, ThenRetire(w, |s.recs|))
    else if w.op.Replace? then HeadLoaded(w.(head := head))
    else if w.op.Remove? && head.Some? then Finishing(head.value)
    else Ending
  }

  function Commit(s: State, r: nat, e: nat): State
    requires r < |s.recs|
  {
    if s.recs[r].writeEpoch == 0 then s.(recs := s.recs[r := s.recs[r].(writeEpoch := e)]) else s
  }

  /** mmm_retire: the epoch recorded is the current one. */
  function Retire(s: State, t: nat, r: nat): State
    requires t < |s.threads| && r < |s.recs|
  {
    s.(recs := s.recs[r := s.recs[r].(retireEpoch := s.epoch)],
       threads := s.threads[t := s.threads[t].(retired := [r] + s.threads[t].retired)])
  }

  /** mmm_empty scans the slots of the threads that have an id when it starts. */
  function StartScan(s: State, back: Option<nat>): PC { Scanning(|s.threads|, 0, None, back) }

  function Lower(lowest: Option<nat>, reservation: Option<nat>): Option<nat>
  {
    if reservation.Some? && (lowest.None? || reservation.value < lowest.value) then reservation else lowest
  }

  predicate Below(s: State, r: nat, lowest: Option<nat>)
    requires r < |s.recs|
  {
    lowest.None? || s.recs[r].retireEpoch < lowest.value
  }

  /** The position of the first cell of a retire list that is below the lowest reservation;
      mmm_empty frees it and everything after it. */
  function Cut(s: State, list: seq<nat>, lowest: Option<nat>): (k: nat)
    requires forall i :: 0 <= i < |list| ==> list[i] < |s.recs|
    ensures k <= |list|
    ensures forall i :: 0 <= i < k ==> !Below(s, list[i], lowest)
    ensures k < |list| ==> Below(s, list[k], lowest)
  {
    if list == [] || Below(s, list[0], lowest) then 0 else 1 + Cut(s, list[1..], lowest)
  }

  function Free(s: State, r: nat): State
    requires r < |s.recs|
  {
    s.(recs := s.recs[r := s.recs[r].(freed := true)])
  }

  predicate Enabled(s: State, t: nat, c: Choice)
  {
    && t < |s.threads|
    && match s.threads[t].pc
       case Idle => (c.Start? && OpOK(s, c.op)) || (c.Empty? && s.threads[t].retired != [])
       case Retiring(_, _) => c.Empty? || c.Go?
       case _ => c.Go?
  }

  /** Where thread t is after its step. */
  function NextPC(s: State, t: nat, c: Choice): PC
    requires Basic(s) && Enabled(s, t, c)
  {
    assert ThreadOK(s, t);
    match s.threads[t].pc
    case Booting => Idle
    case Idle => if c.Start? then EpochLoaded(c.op, s.epoch) else StartScan(s, None)
    case EpochLoaded(op, _) => Reserved(op)
    case Reserved(op) =>
      if op.View? then ViewBucket(s.epoch, [])
      else HeadLoaded(Write(op, s.heads[op.bucket], s.heads[op.bucket], 0))
    case HeadLoaded(w) => Examine(s, w)
    case CopyingEpoch(w) =>
      var head := s.recs[w.head.value];
      Installing(if head.deleted then w else w.(createEpoch := CreateEpochOf(head)))
    case Installing(w) => AfterInstall(s, w)
    case HelpLoading(rec, k) => if s.recs[rec].writeEpoch == 0 then HelpBumping(rec, k) else Resume(k)
    case HelpBumping(rec, k) => HelpSwapping(rec, s.epoch + 1, k)
    case HelpSwapping(_, _, k) => Resume(k)
    case Retiring(w, _) => if c.Empty? then StartScan(s, w.head) else Finishing(w.head.value)
    case Scanning(last, slot, lowest, back) =>
      if slot < last then Scanning(last, slot + 1, Lower(lowest, s.reservations[slot]), back)
      else Freeing(s.threads[t].retired[Cut(s, s.threads[t].retired, lowest)..], back)
    case Freeing(doomed, back) =>
      if doomed != [] then Freeing(doomed[1..], back) else if back.Some? then Finishing(back.value) else Idle
    case Finishing(_) => Ending
    case ViewBucket(epoch, got) =>
      if |got| == |s.heads| then Viewed(epoch, got)
      else if s.heads[|got|].None? then Descending(epoch, got, None)
      else HelpLoading(s.heads[|got|].value, ThenDescend(epoch, got, s.heads[|got|].value))
    case Descending(epoch, got, cur) =>
      if cur.None? then ViewBucket(epoch, got + [cur])
      else if s.recs[cur.value].writeEpoch <= epoch then Taking(epoch, got, cur.value)
      else Descending(epoch, got, s.recs[cur.value].next)
    case Taking(epoch, got, rec) => ViewBucket(epoch, got + [Some(rec)])
    case Viewed(_, _) => Ending
    case Ending => Idle
  }

  /** What the step of thread t does to memory. */
  function Effect(s: State, t: nat, c: Choice): State
    requires Basic(s) && Enabled(s, t, c)
  {
    assert ThreadOK(s, t);
    match s.threads[t].pc
    case Booting => Reserve(s, t, None)
    case EpochLoaded(_, loaded) => Reserve(s, t, Some(loaded))
    case Installing(w) => if InstallSucceeds(s, w) then Push(s, w) else s
    case HelpBumping(_, _) => s.(epoch := s.epoch + 1)
    case HelpSwapping(rec, mine, _) => Commit(s, rec, mine)
    case Retiring(w, _) => Retire(s, t, w.head.value)
    case Scanning(last, slot, lowest, _) =>
      if slot < last then s
      else
        var list := s.threads[t].retired;
        s.(threads := s.threads[t := s.threads[t].(retired := list[..Cut(s, list, lowest)])])
    case Freeing(doomed, _) => if doomed == [] then s else Free(s, doomed[0])
    case Ending => Reserve(s, t, None)
    case _ => s
  }

  /** One step of thread t. */
  function Step(s: State, t: nat, c: Choice): State
    requires Basic(s) && Enabled(s, t, c)
  {
    Goto(Effect(s, t, c), t, NextPC(s, t, c))
  }

  /** mmm_thread_acquire for a new thread: the reservation slot is zero until the thread stores
      there. */
  function Register(s: State): State
  {
    s.(reservations := s.reservations + [Some(0)], threads := s.threads + [Thread(Booting, [])])
  }

  /** A run is a number of buckets and a schedule: who moves, and how choices are resolved. */
  datatype Move = Join | Turn(t: nat, c: Choice)

  predicate Allowed(s: State, m: Move)
  {
    m.Turn? ==> Enabled(s, m.t, m.c)
  }

  function Apply(s: State, m: Move): State
    requires Basic(s) && Allowed(s, m)
  {
    match m
    case Join => Register(s)
    case Turn(t, c) => Step(s, t, c)
  }
}
