/** The table as its users see it: a map from buckets to items.  What the operations of a run do to it, in the
    order in which they take effect, and in the order of their epochs. */
module LohatTable {
  import opened Options
  import opened LohatModel
  import opened LohatBasic
  import opened LohatInvariant
  import opened LohatEpochs
  import opened LohatReplay
  import opened LohatSafety
  import opened LohatSnapshot
  import opened LohatTheorems
  import opened LohatAlone

  // ---- the operations on a map --------------------------------------------------------

  /** What an operation leaves in its bucket: put stores an item, add only where there is none, replace only
      where there is one, remove deletes. */
  function After(before: Option<int>, op: Op): Option<int>
  {
    match op
    case Put(_, item) => Some(item)
    case Add(_, item) => if before.None? then Some(item) else before
    case Replace(_, item) => if before.Some? then Some(item) else before
    case Remove(_) => None
    case Get(_) => before
    case View => before
  }

  function ApplyOp(table: seq<Option<int>>, op: Op): (after: seq<Option<int>>)
    ensures |after| == |table|
  {
    if op.View? || op.bucket >= |table| then table else table[op.bucket := After(table[op.bucket], op)]
  }

  /** The item in a record, or None if the record says that there is none. */
  function ItemOf(recs: seq<Record>, r: Option<nat>): Option<int>
  {
    if r.None? || r.value >= |recs| || recs[r.value].deleted then None else Some(recs[r.value].item)
  }

  /** A table of records, read as items. */
  function Items(recs: seq<Record>, table: seq<Option<nat>>): (items: seq<Option<int>>)
    ensures |items| == |table|
  {
    seq(|table|, b requires 0 <= b < |table| => ItemOf(recs, table[b]))
  }

  /** What an operation finds that loads the heads now. */
  function Current(s: State): (items: seq<Option<int>>)
    ensures |items| == |s.heads|
  {
    Items(s.recs, s.heads)
  }

  // ---- when an operation takes effect -------------------------------------------------

  /** The operation whose record a move pushes. */
  function PushedBy(s: State, m: Move): (op: Option<Op>)
    requires Basic(s) && Allowed(s, m)
    ensures op.Some? ==> !op.value.View? && op.value.bucket < |s.heads|
  {
    if m.Turn? && s.threads[m.t].pc.Installing? then
      assert ThreadOK(s, m.t);
      var w := s.threads[m.t].pc.w;
      if InstallSucceeds(s, w) then Some(w.op) else None
    else None
  }

  lemma StepKeepsItems(s: State, t: nat, c: Choice)
    requires Basic(s) && Enabled(s, t, c)
    ensures var recs' := Step(s, t, c).recs;
            |s.recs| <= |recs'| && forall i :: 0 <= i < |s.recs| ==>
              recs'[i].item == s.recs[i].item && recs'[i].deleted == s.recs[i].deleted
              && recs'[i].bucket == s.recs[i].bucket
  {
    assert ThreadOK(s, t);
    hide NextPC;
  }

  lemma StepHeads(s: State, t: nat, c: Choice)
    requires Basic(s) && Enabled(s, t, c)
    ensures var s', pc := Step(s, t, c), s.threads[t].pc;
            match PushedBy(s, Turn(t, c))
            case None => s'.heads == s.heads && |s'.recs| == |s.recs|
            case Some(op) =>
              && !op.View? && op.bucket < |s.heads| && pc.Installing? && WriteOK(s, pc.w) && pc.w.op == op
              && s.heads[op.bucket] == pc.w.head && ChoiceOK(s, pc.w) && !op.Get?
              && s'.heads == s.heads[op.bucket := Some(|s.recs|)] && s'.recs == s.recs + [Candidate(pc.w)]
  {
    assert ThreadOK(s, t);
    hide NextPC;
  }

  lemma SameItem(s: State, s': State, b: nat)
    requires Basic(s) && b < |s.heads| && b < |s'.heads| && s'.heads[b] == s.heads[b] && |s.recs| <= |s'.recs|
    requires forall i :: 0 <= i < |s.recs| ==>
               s'.recs[i].item == s.recs[i].item && s'.recs[i].deleted == s.recs[i].deleted
    ensures Current(s')[b] == Current(s)[b]
  {
    assert HeadOK(s, b);
  }

  /** The new record holds what its operation leaves in its bucket. */
  lemma PushedItem(s: State, w: Write, recs': seq<Record>)
    requires Basic(s) && WriteOK(s, w) && ChoiceOK(s, w) && !w.op.Get? && s.heads[w.op.bucket] == w.head
    requires recs' == s.recs + [Candidate(w)]
    ensures ItemOf(recs', Some(|s.recs|)) == ApplyOp(Current(s), w.op)[w.op.bucket]
  {
    assert HeadOK(s, w.op.bucket);
    hide Basic;
  }

  /** A push does to the current table what its operation means, and no other move changes it: this is where an
      operation takes effect, in every run. */
  lemma CurrentFollows(s: State, m: Move)
    requires Basic(s) && Allowed(s, m)
    ensures Current(Apply(s, m))
         == match PushedBy(s, m) case None => Current(s) case Some(op) => ApplyOp(Current(s), op)
  {
    if m.Turn? {
      StepKeepsItems(s, m.t, m.c);
      StepHeads(s, m.t, m.c);
      var s' := Step(s, m.t, m.c);
      hide Step, Basic, PushedBy, Enabled, NextPC, Current;
      forall b | 0 <= b < |s'.heads| && s'.heads[b] == s.heads[b] ensures Current(s')[b] == Current(s)[b] {
        SameItem(s, s', b);
      }
      var pushed := PushedBy(s, m);
      if pushed.Some? {
        PushedItem(s, s.threads[m.t].pc.w, s'.recs);
        var b := pushed.value.bucket;
        assert Current(s')[b] == ItemOf(s'.recs, Some(|s.recs|)) by { CurrentAt(s', b); }
        assert forall k :: 0 <= k < |s.heads| && k != b ==> s'.heads[k] == s.heads[k];
        assert Current(s') == ApplyOp(Current(s), pushed.value);
      } else {
        assert Current(s') == Current(s);
      }
    } else {
      assert Current(Register(s)) == Current(s);
    }
  }

  lemma CurrentAt(s: State, b: nat)
    requires b < |s.heads|
    ensures Current(s)[b] == ItemOf(s.recs, s.heads[b])
  {
  }

  // ---- an operation that runs alone ---------------------------------------------------

  /** Thread t carries out op and has not pushed, and the head it expects is the current one. */
  predicate Underway(s: State, t: nat, op: Op)
  {
    && t < |s.threads|
    && match s.threads[t].pc
       case EpochLoaded(o, _) => o == op
       case Reserved(o) => o == op
       case HeadLoaded(w) => Holds(s, w, op)
       case CopyingEpoch(w) => Holds(s, w, op)
       case Installing(w) => Holds(s, w, op)
       case HelpLoading(_, k) => k.ThenCopyEpoch? && Holds(s, k.w, op)
       case HelpBumping(_, k) => k.ThenCopyEpoch? && Holds(s, k.w, op)
       case HelpSwapping(_, _, k) => k.ThenCopyEpoch? && Holds(s, k.w, op)
       case _ => false
  }

  predicate Holds(s: State, w: Write, op: Op)
  {
    w.op == op && !op.View? && op.bucket < |s.heads| && s.heads[op.bucket] == w.head
  }

  /** Either thread t is on the way and the table is the one before, or the operation has had its effect. */
  ghost predicate Effective(s: State, t: nat, op: Op, before: seq<Option<int>>)
  {
    || (Underway(s, t, op) && Current(s) == before)
    || (t < |s.threads| && OpOf(s.threads[t].pc) == None && Current(s) == ApplyOp(before, op))
  }

  /** If the thread goes no further with its operation, there was nothing to do. */
  lemma GivesUp(s: State, t: nat, op: Op)
    requires Basic(s) && Underway(s, t, op) && Enabled(s, t, Go)
    ensures var pc', pushed := NextPC(s, t, Go), PushedBy(s, Turn(t, Go));
            || (pushed == Some(op) && OpOf(pc') == None)
            || (pushed == None && OpOf(pc') == Some(op))
            || (pushed == None && OpOf(pc') == None && ApplyOp(Current(s), op) == Current(s))
  {
    assert ThreadOK(s, t);
    var pc := s.threads[t].pc;
    if pc.HeadLoaded? && pc.w.head.Some? { assert HeadOK(s, op.bucket); }
    hide Effect;
  }

  lemma StaysUnderway(s: State, t: nat, op: Op)
    requires Basic(s) && Underway(s, t, op) && Enabled(s, t, Go) && OpOf(NextPC(s, t, Go)) == Some(op)
    requires PushedBy(s, Turn(t, Go)) == None
    ensures Underway(Step(s, t, Go), t, op)
  {
    assert ThreadOK(s, t);
    StepHeads(s, t, Go);
    OnlyMover(s, t, Go);
    hide Step, Effect, Basic;
  }

  lemma StepKeepsEffect(s: State, t: nat, op: Op, before: seq<Option<int>>)
    requires Basic(s) && Effective(s, t, op, before) && s.threads[t].pc != Idle && Enabled(s, t, Go)
    ensures Effective(Step(s, t, Go), t, op, before)
  {
    CurrentFollows(s, Turn(t, Go));
    OnlyMover(s, t, Go);
    OpStays(s, t, Go);
    if Underway(s, t, op) && Current(s) == before {
      GivesUp(s, t, op);
      if OpOf(NextPC(s, t, Go)) == Some(op) && PushedBy(s, Turn(t, Go)) == None { StaysUnderway(s, t, op); }
    } else {
      NoPush(s, t);
    }
    hide Basic, Step, NextPC, PushedBy, Current, ApplyOp, Enabled, Underway;
  }

  lemma NoPush(s: State, t: nat)
    requires Basic(s) && t < |s.threads| && OpOf(s.threads[t].pc) == None && Enabled(s, t, Go)
    ensures PushedBy(s, Turn(t, Go)) == None
  {
    hide Basic;
  }

  lemma EffectAtEnd(s: State, t: nat, op: Op, before: seq<Option<int>>)
    requires Effective(s, t, op, before) && t < |s.threads| && s.threads[t].pc == Idle
    ensures Current(s) == ApplyOp(before, op)
  {
    hide Current, ApplyOp;
  }

  /** Alone, thread t comes to the end of its operation, which has had its effect then. */
  lemma {:induction false} RunsToEffect(s: State, t: nat, op: Op, before: seq<Option<int>>) returns (moves: seq<Move>)
    requires Basic(s) && t < |s.threads| && Effective(s, t, op, before)
    ensures Alone(moves, t) && Continue(s, moves).Some?
    ensures var s' := Continue(s, moves).value;
            t < |s'.threads| && s'.threads[t].pc == Idle && Current(s') == ApplyOp(before, op)
    decreases Stage(s, s.threads[t].pc), Left(s, s.threads[t].pc), Depth(s, s.threads[t].pc)
  {
    hide Basic, Step, NextPC, Effective, Stage, Left, Depth, Enabled, Current, ApplyOp;
    if s.threads[t].pc == Idle {
      EffectAtEnd(s, t, op, before);
      return [];
    }
    ComesNearer(s, t);
    LeftIsNat(s, t);
    StepKeepsBasic(s, t, Go);
    StepKeepsEffect(s, t, op, before);
    assert Allowed(s, Turn(t, Go));
    var rest := RunsToEffect(Step(s, t, Go), t, op, before);
    ContinueThen(s, Turn(t, Go), rest);
    moves := [Turn(t, Go)] + rest;
  }

  /** The schedule of a new thread that carries out one operation by itself. */
  predicate LoneOp(moves: seq<Move>, t: nat, op: Op)
  {
    && |moves| >= 3 && moves[0] == Join && moves[1] == Turn(t, Go) && moves[2] == Turn(t, Start(op))
    && forall k :: 3 <= k < |moves| ==> moves[k] == Turn(t, Go)
  }

  lemma StartAlone(s: State, op: Op)
    requires Basic(s) && OpOK(s, op)
    ensures var t := |s.threads|;
            var s1 := Register(s);
            && Basic(s1) && Allowed(s1, Turn(t, Go))
            && var s2 := Step(s1, t, Go);
               && Basic(s2) && Allowed(s2, Turn(t, Start(op)))
               && var s3 := Step(s2, t, Start(op));
                  Basic(s3) && t < |s3.threads| && Effective(s3, t, op, Current(s))
  {
    var t, s1 := |s.threads|, Register(s);
    RegisterKeepsBasic(s);
    CurrentFollows(s, Join);
    CurrentFollows(s1, Turn(t, Go));
    StepKeepsBasic(s1, t, Go);
    var s2 := Step(s1, t, Go);
    assert s2.threads[t].pc == Idle && s2.heads == s.heads;
    CurrentFollows(s2, Turn(t, Start(op)));
    StepKeepsBasic(s2, t, Start(op));
    hide Basic, Current;
  }

  /** From every state an operation that a new thread runs alone ends, and has then done to the table what it
      means.  So an add on an empty bucket, or on a deleted record, leaves its item there. */
  lemma LoneOpTakesEffect(s: State, op: Op) returns (moves: seq<Move>)
    requires Basic(s) && OpOK(s, op)
    ensures LoneOp(moves, |s.threads|, op) && Continue(s, moves).Some?
    ensures var s' := Continue(s, moves).value;
            && |s.threads| < |s'.threads| && s'.threads[|s.threads|].pc == Idle
            && Current(s') == ApplyOp(Current(s), op)
  {
    var t, s1 := |s.threads|, Register(s);
    StartAlone(s, op);
    var s2 := Step(s1, t, Go);
    var s3 := Step(s2, t, Start(op));
    hide Basic, Step, Register, Effective, Current, ApplyOp, Allowed, Alone;
    var rest := RunsToEffect(s3, t, op, Current(s));
    JoinAllowed(s);
    ContinueThen(s2, Turn(t, Start(op)), rest);
    ContinueThen(s1, Turn(t, Go), [Turn(t, Start(op))] + rest);
    ContinueThen(s, Join, [Turn(t, Go)] + ([Turn(t, Start(op))] + rest));
    moves := [Join] + ([Turn(t, Go)] + ([Turn(t, Start(op))] + rest));
    IsLoneOp(rest, t, op);
  }

  lemma JoinAllowed(s: State)
    requires Basic(s)
    ensures Allowed(s, Join) && Apply(s, Join) == Register(s)
  {
  }

  lemma IsLoneOp(rest: seq<Move>, t: nat, op: Op)
    requires Alone(rest, t)
    ensures LoneOp([Join] + ([Turn(t, Go)] + ([Turn(t, Start(op))] + rest)), t, op)
  {
  }

  // ---- the operations of a run --------------------------------------------------------

  /** The operations that pushed the records of a run, in the order of the records. */
  function History(buckets: nat, moves: seq<Move>): seq<Op>
    requires Exec(buckets, moves).Some?
  {
    if moves == [] then []
    else
      var k := |moves| - 1;
      var before, pushed := History(buckets, moves[..k]), PushedBy(Exec(buckets, moves[..k]).value, moves[k]);
      if pushed.Some? then before + [pushed.value] else before
  }

  /** The empty table after the given operations, carried out one after the other. */
  function ApplyAll(buckets: nat, ops: seq<Op>): seq<Option<int>>
  {
    if ops == [] then seq(buckets, b => None)
    else ApplyOp(ApplyAll(buckets, ops[..|ops| - 1]), ops[|ops| - 1])
  }

  /** In every run the current table is what the operations that have pushed make, in the order of their pushes. */
  lemma {:induction false} CurrentIsHistory(buckets: nat, moves: seq<Move>)
    requires Exec(buckets, moves).Some?
    ensures Current(Exec(buckets, moves).value) == ApplyAll(buckets, History(buckets, moves))
  {
    hide Basic, Apply, Allowed, PushedBy, Current, ApplyOp;
    if moves == [] {
      CurrentAtFirst(buckets);
    } else {
      var k := |moves| - 1;
      var s, ops := Exec(buckets, moves[..k]).value, History(buckets, moves[..k]);
      CurrentIsHistory(buckets, moves[..k]);
      CurrentFollows(s, moves[k]);
      var pushed := PushedBy(s, moves[k]);
      if pushed.Some? { assert (ops + [pushed.value])[..|ops|] == ops; }
    }
  }

  lemma CurrentAtFirst(buckets: nat)
    ensures Current(Init(buckets)) == seq(buckets, b => None)
  {
  }

  // ---- records and their operations ---------------------------------------------------

  /** The last of the first n records that was pushed to bucket b. */
  function LastOf(recs: seq<Record>, b: nat, n: nat): (r: Option<nat>)
    requires n <= |recs|
    ensures r.Some? ==> r.value < n && recs[r.value].bucket == b
    ensures forall i :: 0 <= i < n && recs[i].bucket == b ==> r.Some? && i <= r.value
  {
    if n == 0 then None else if recs[n - 1].bucket == b then Some(n - 1) else LastOf(recs, b, n - 1)
  }

  /** Record i holds what op left in its bucket, after the record before it there. */
  predicate MadeBy(recs: seq<Record>, i: nat, op: Op)
    requires i < |recs|
  {
    && !op.View? && op.bucket == recs[i].bucket
    && ItemOf(recs, Some(i)) == After(ItemOf(recs, LastOf(recs, op.bucket, i)), op)
  }

  ghost predicate Made(recs: seq<Record>, ops: seq<Op>)
  {
    |ops| == |recs| && forall i :: 0 <= i < |recs| ==> MadeBy(recs, i, ops[i])
  }

  lemma {:induction false} SameLast(recs: seq<Record>, recs': seq<Record>, b: nat, n: nat)
    requires n <= |recs| <= |recs'| && forall i :: 0 <= i < |recs| ==> recs'[i].bucket == recs[i].bucket
    ensures LastOf(recs', b, n) == LastOf(recs, b, n)
  {
    if n > 0 { SameLast(recs, recs', b, n - 1); }
  }

  lemma StillMade(recs: seq<Record>, recs': seq<Record>, i: nat, op: Op)
    requires i < |recs| <= |recs'| && MadeBy(recs, i, op)
    requires forall i :: 0 <= i < |recs| ==> recs'[i].bucket == recs[i].bucket && recs'[i].item == recs[i].item
                                             && recs'[i].deleted == recs[i].deleted
    ensures MadeBy(recs', i, op)
  {
    SameLast(recs, recs', op.bucket, i);
    hide LastOf, After;
  }

  lemma HeadIsLast(s: State, b: nat)
    requires Basic(s) && b < |s.heads|
    ensures LastOf(s.recs, b, |s.recs|) == s.heads[b]
  {
    assert HeadOK(s, b);
    hide Basic;
  }

  lemma MoveKeepsItems(s: State, m: Move)
    requires Basic(s) && Allowed(s, m)
    ensures var recs' := Apply(s, m).recs;
            |s.recs| <= |recs'| && forall i :: 0 <= i < |s.recs| ==>
              recs'[i].bucket == s.recs[i].bucket && recs'[i].item == s.recs[i].item
              && recs'[i].deleted == s.recs[i].deleted
  {
    if m.Turn? { StepKeepsItems(s, m.t, m.c); }
    hide Basic, Step;
  }

  lemma NewIsMade(s: State, m: Move)
    requires Basic(s) && Allowed(s, m)
    ensures var recs', pushed := Apply(s, m).recs, PushedBy(s, m);
            match pushed
            case None => |recs'| == |s.recs|
            case Some(op) => |recs'| == |s.recs| + 1 && MadeBy(recs', |s.recs|, op)
  {
    if m.Turn? {
      StepHeads(s, m.t, m.c);
      var recs', pushed := Step(s, m.t, m.c).recs, PushedBy(s, m);
      if pushed.Some? {
        var w, b := s.threads[m.t].pc.w, pushed.value.bucket;
        PushedItem(s, w, recs');
        HeadIsLast(s, b);
        SameLast(s.recs, recs', b, |s.recs|);
        CurrentAt(s, b);
        assert HeadOK(s, b);
        hide Basic, Step, PushedBy, Current, LastOf;
      }
    }
  }

  /** In every run each record holds what its operation left in its bucket. */
  lemma {:induction false} RunsAreMade(buckets: nat, moves: seq<Move>)
    requires Exec(buckets, moves).Some?
    ensures Made(Exec(buckets, moves).value.recs, History(buckets, moves))
  {
    hide Basic, Apply, Allowed, PushedBy, MadeBy;
    if moves != [] {
      var k := |moves| - 1;
      var s, ops := Exec(buckets, moves[..k]).value, History(buckets, moves[..k]);
      RunsAreMade(buckets, moves[..k]);
      MoveKeepsItems(s, moves[k]);
      NewIsMade(s, moves[k]);
      forall i | 0 <= i < |s.recs| ensures MadeBy(Apply(s, moves[k]).recs, i, ops[i]) {
        StillMade(s.recs, Apply(s, moves[k]).recs, i, ops[i]);
      }
    }
  }

  // ---- what a view shows --------------------------------------------------------------

  /** The empty table after the operations with write epochs 1 to e, carried out in the order of their epochs. */
  function Outcome(recs: seq<Record>, ops: seq<Op>, buckets: nat, e: nat): (table: seq<Option<int>>)
    requires |ops| == |recs|
    ensures |table| == buckets
  {
    if e == 0 then seq(buckets, b => None)
    else
      var before, r := Outcome(recs, ops, buckets, e - 1), CommittedAt(recs, e, |recs|);
      if r.Some? && r.value < |ops| then ApplyOp(before, ops[r.value]) else before
  }

  /** In a bucket, records below r have earlier epochs, and those above r later ones or none. */
  lemma EpochsAround(recs: seq<Record>, r: nat, i: nat)
    requires Ordered(recs) && r < |recs| && i < |recs| && recs[i].bucket == recs[r].bucket && WE(recs, r) > 0
    ensures i < r ==> 0 < WE(recs, i) < WE(recs, r)
    ensures i > r ==> WE(recs, i) == 0 || WE(recs, r) < WE(recs, i)
  {
    if i < r { assert SameBucket(recs, i, r); }
    if i > r { assert SameBucket(recs, r, i); }
  }

  lemma UniqueEpoch(s: State, r: nat)
    requires EpochsInv(s) && r < |s.recs| && WE(s.recs, r) > 0
    ensures forall i :: 0 <= i < |s.recs| && i != r ==> WE(s.recs, i) != WE(s.recs, r)
  {
    hide Basic, PCEpochs;
  }

  lemma ReplayBeforeSome(recs: seq<Record>, n: nat, r: nat, p: nat)
    requires Ordered(recs) && r < |recs| && WE(recs, r) > 0 && recs[r].bucket < n
    requires p < r && recs[p].bucket == recs[r].bucket && WE(recs, p) > 0
    requires forall i :: 0 <= i < |recs| && i != p ==> WE(recs, i) != WE(recs, p)
    requires forall i :: 0 <= i < r && recs[i].bucket == recs[r].bucket ==> i <= p
    ensures Replay(recs, n, WE(recs, r) - 1)[recs[r].bucket] == Some(p)
  {
    hide Ordered, Replay;
    var e := WE(recs, r);
    EpochsAround(recs, r, p);
    forall i | 0 <= i < |recs| && recs[i].bucket == recs[r].bucket
      ensures WE(recs, i) <= WE(recs, p) || e - 1 < WE(recs, i)
    {
      EpochsAround(recs, r, i); EpochsAround(recs, p, i);
    }
    ReplayIsNewest(recs, n, recs[r].bucket, e - 1, p);
  }

  lemma ReplayBeforeNone(recs: seq<Record>, n: nat, r: nat)
    requires Ordered(recs) && r < |recs| && WE(recs, r) > 0 && recs[r].bucket < n
    requires forall i :: 0 <= i < r ==> recs[i].bucket != recs[r].bucket
    ensures Replay(recs, n, WE(recs, r) - 1)[recs[r].bucket] == None
  {
    hide Ordered, Replay;
    var e := WE(recs, r);
    forall i | 0 <= i < |recs| && recs[i].bucket == recs[r].bucket ensures WE(recs, i) == 0 || e - 1 < WE(recs, i) {
      EpochsAround(recs, r, i);
    }
    ReplayEmpty(recs, n, recs[r].bucket, e - 1);
  }

  /** Before the epoch of a record, the replay leaves in its bucket the record below it. */
  lemma ReplayBefore(s: State, r: nat)
    requires Basic(s) && Ordered(s.recs) && EpochsInv(s) && r < |s.recs| && WE(s.recs, r) > 0
    ensures var b := s.recs[r].bucket;
            b < |s.heads| && Replay(s.recs, |s.heads|, WE(s.recs, r) - 1)[b] == LastOf(s.recs, b, r)
  {
    hide EpochsInv, Ordered, LastOf, Replay, ThreadOK, HeadOK;
    assert RecordOK(s, r);
    var p := LastOf(s.recs, s.recs[r].bucket, r);
    if p.Some? {
      EpochsAround(s.recs, r, p.value);
      UniqueEpoch(s, p.value);
      ReplayBeforeSome(s.recs, |s.heads|, r, p.value);
    } else {
      ReplayBeforeNone(s.recs, |s.heads|, r);
    }
  }

  /** One more epoch, on both sides. */
  lemma OutcomeStep(s: State, ops: seq<Op>, e: nat)
    requires Basic(s) && Ordered(s.recs) && EpochsInv(s) && Made(s.recs, ops) && e > 0
    requires Items(s.recs, Replay(s.recs, |s.heads|, e - 1)) == Outcome(s.recs, ops, |s.heads|, e - 1)
    ensures Items(s.recs, Replay(s.recs, |s.heads|, e)) == Outcome(s.recs, ops, |s.heads|, e)
  {
    var recs, n := s.recs, |s.heads|;
    var r := CommittedAt(recs, e, |recs|);
    CommittedAtHas(recs, e, |recs|);
    if r.Some? {
      ReplayBefore(s, r.value);
      var b, before := recs[r.value].bucket, Replay(recs, n, e - 1);
      assert MadeBy(recs, r.value, ops[r.value]);
      assert Replay(recs, n, e) == before[b := r];
      hide Basic, EpochsInv, Ordered, LastOf, After, ItemOf, Replay, Made;
      assert Items(recs, before)[b] == ItemOf(recs, before[b]);
      assert Items(recs, before[b := r]) == Items(recs, before)[b := ItemOf(recs, r)];
    }
  }

  lemma {:induction false} ReplayIsOutcome(s: State, ops: seq<Op>, e: nat)
    requires Basic(s) && Ordered(s.recs) && EpochsInv(s) && Made(s.recs, ops)
    ensures Items(s.recs, Replay(s.recs, |s.heads|, e)) == Outcome(s.recs, ops, |s.heads|, e)
  {
    if e > 0 {
      ReplayIsOutcome(s, ops, e - 1);
      hide Basic, Ordered, EpochsInv, Made, Items, Replay, Outcome;
      OutcomeStep(s, ops, e);
    } else {
      hide Basic, Ordered, EpochsInv, Made;
      assert Items(s.recs, seq(|s.heads|, i => None)) == seq(|s.heads|, b => None);
    }
  }

  lemma SnapOrdered(s: State)
    requires Snap(s)
    ensures Basic(s) && Ordered(s.recs)
  {
    SnapChain(s);
    hide Inv, Ordered, PCSnap, PairSnap;
  }

  /** In every clean run a finished view shows, as items, the empty table after the operations that were committed
      up to its epoch, one after the other in the order of their epochs. */
  lemma ViewShowsOutcome(buckets: nat, moves: seq<Move>, t: nat)
    requires Exec(buckets, moves).Some? && CleanRun(buckets, moves)
    requires var s := Exec(buckets, moves).value; t < |s.threads| && s.threads[t].pc.Viewed?
    ensures var s, ops := Exec(buckets, moves).value, History(buckets, moves);
            var pc := s.threads[t].pc;
            |ops| == |s.recs| && Items(s.recs, pc.got) == Outcome(s.recs, ops, |s.heads|, pc.epoch)
  {
    var s := Exec(buckets, moves).value;
    CleanRunsKeepSnap(buckets, moves);
    RunsKeepEpochs(buckets, moves);
    RunsAreMade(buckets, moves);
    SnapOrdered(s);
    hide Snap, EpochsInv, Exec, Basic, Ordered, Items, Replay, Outcome, MadeBy, History, CleanRun;
    ViewIsSnapshot(s, t);
    ReplayIsOutcome(s, History(buckets, moves), s.threads[t].pc.epoch);
  }

  /** And when every record of a clean run has its epoch, the order of the epochs leads to the current table, as
      the order of the pushes does. */
  lemma OrdersAgree(buckets: nat, moves: seq<Move>)
    requires Exec(buckets, moves).Some? && CleanRun(buckets, moves)
    requires var recs := Exec(buckets, moves).value.recs; forall r :: 0 <= r < |recs| ==> WE(recs, r) != 0
    ensures var s, ops := Exec(buckets, moves).value, History(buckets, moves);
            |ops| == |s.recs| && ApplyAll(buckets, ops) == Current(s) == Outcome(s.recs, ops, |s.heads|, s.epoch)
  {
    var s := Exec(buckets, moves).value;
    CleanRunsKeepSnap(buckets, moves);
    RunsKeepEpochs(buckets, moves);
    RunsAreMade(buckets, moves);
    CurrentIsHistory(buckets, moves);
    SnapOrdered(s);
    hide Snap, Exec, Ordered, MadeBy, History, CleanRun, ApplyAll, Outcome, PCEpochs;
    ReplayIsOutcome(s, History(buckets, moves), s.epoch);
    forall b | 0 <= b < |s.heads| ensures Replay(s.recs, |s.heads|, s.epoch)[b] == s.heads[b] {
      HeadIsReplayed(s, b);
    }
    assert Replay(s.recs, |s.heads|, s.epoch) == s.heads;
  }

  lemma HeadIsReplayed(s: State, b: nat)
    requires Basic(s) && Ordered(s.recs) && EpochsInv(s) && b < |s.heads|
    requires forall r :: 0 <= r < |s.recs| ==> WE(s.recs, r) != 0
    ensures Replay(s.recs, |s.heads|, s.epoch)[b] == s.heads[b]
  {
    assert HeadOK(s, b);
    hide Basic, PCEpochs, Replay;
    if s.heads[b].Some? {
      var h := s.heads[b].value;
      forall i | 0 <= i < |s.recs| && s.recs[i].bucket == b ensures WE(s.recs, i) <= WE(s.recs, h) {
        if i < h { assert SameBucket(s.recs, i, h); }
      }
      ReplayIsNewest(s.recs, |s.heads|, b, s.epoch, h);
    } else {
      ReplayEmpty(s.recs, |s.heads|, b, s.epoch);
    }
  }

  // ---- what an operation returns ------------------------------------------------------

  /** Thread t is on the way to return v: it holds a record to read its result from, or it has none to read. */
  predicate Returns(s: State, t: nat, v: Option<int>)
  {
    && t < |s.threads|
    && match s.threads[t].pc
       case HeadLoaded(w) => w.op.Get? && ItemOf(s.recs, w.head) == v
       case HelpLoading(_, k) => ContReturns(s.recs, k, v)
       case HelpBumping(_, k) => ContReturns(s.recs, k, v)
       case HelpSwapping(_, _, k) => ContReturns(s.recs, k, v)
       case Retiring(w, _) => ItemOf(s.recs, w.head) == v
       case Scanning(_, _, _, back) => back.Some? ==> ItemOf(s.recs, back) == v
       case Freeing(_, back) => back.Some? ==> ItemOf(s.recs, back) == v
       case Finishing(head) => ItemOf(s.recs, Some(head)) == v
       case Ending => true
       case Idle => true
       case _ => false
  }

  predicate ContReturns(recs: seq<Record>, k: Cont, v: Option<int>)
  {
    match k
    case ThenReturn(head) => ItemOf(recs, Some(head)) == v
    case ThenCommit(w, _) => ItemOf(recs, w.head) == v
    case ThenRetire(w, _) => ItemOf(recs, w.head) == v
    case _ => false
  }

  lemma NextReturns(s: State, t: nat, c: Choice, v: Option<int>)
    requires Basic(s) && Returns(s, t, v) && Enabled(s, t, c) && !c.Start?
    ensures Returns(Goto(s, t, NextPC(s, t, c)), t, v) && PushedBy(s, Turn(t, c)) == None
  {
    assert ThreadOK(s, t);
    hide Effect, Basic;
  }

  lemma SameReturns(s: State, s': State, t: nat, v: Option<int>)
    requires Returns(s, t, v) && t < |s'.threads| && s'.threads[t].pc == s.threads[t].pc && |s.recs| <= |s'.recs|
    requires PCOK(s, s.threads[t].pc)
    requires forall i :: 0 <= i < |s.recs| ==>
               s'.recs[i].item == s.recs[i].item && s'.recs[i].deleted == s.recs[i].deleted
    ensures Returns(s', t, v)
  {
  }

  lemma MoveKeepsReturns(s: State, m: Move, t: nat, v: Option<int>)
    requires Basic(s) && Allowed(s, m) && Returns(s, t, v)
    requires m.Turn? && m.t == t ==> !m.c.Start?
    ensures Returns(Apply(s, m), t, v)
  {
    assert ThreadOK(s, t);
    MoveKeepsItems(s, m);
    if m.Turn? && m.t == t {
      NextReturns(s, t, m.c, v);
      StepKeepsBasic(s, t, m.c);
      NextIsOK(s, t, m.c);
      OnlyMover(s, t, m.c);
      hide Basic, Step, NextPC, Returns, PCOK;
      SameReturns(Goto(s, t, NextPC(s, t, m.c)), Step(s, t, m.c), t, v);
    } else {
      if m.Turn? { OnlyMover(s, m.t, m.c); }
      hide Basic, Step, NextPC, Returns, PCOK;
      SameReturns(s, Apply(s, m), t, v);
    }
  }

  lemma NextIsOK(s: State, t: nat, c: Choice)
    requires Basic(s) && Enabled(s, t, c) && PushedBy(s, Turn(t, c)) == None
    ensures PCOK(Goto(s, t, NextPC(s, t, c)), NextPC(s, t, c))
  {
    assert ThreadOK(s, t);
    NextPCOK(s, t, c);
    hide Basic, NextPC, Effect;
    PCExtends(s, Goto(s, t, NextPC(s, t, c)), NextPC(s, t, c));
  }

  /** Thread t starts no other operation. */
  predicate OneOp(moves: seq<Move>, t: nat)
  {
    forall k :: 0 <= k < |moves| ==> (moves[k].Turn? && moves[k].t == t ==> !moves[k].c.Start?)
  }

  lemma {:induction false} ReturnsOn(s: State, moves: seq<Move>, t: nat, v: Option<int>)
    requires Basic(s) && Continue(s, moves).Some? && Returns(s, t, v) && OneOp(moves, t)
    ensures Returns(Continue(s, moves).value, t, v)
  {
    hide Basic, Apply, Allowed, Returns;
    if moves != [] {
      var n := |moves| - 1;
      ReturnsOn(s, moves[..n], t, v);
      MoveKeepsReturns(Continue(s, moves[..n]).value, moves[n], t, v);
    }
  }

  lemma LoadReturns(s: State, t: nat, b: nat)
    requires Basic(s) && t < |s.threads| && s.threads[t].pc == Reserved(Get(b))
    ensures b < |s.heads| && Enabled(s, t, Go) && Returns(Step(s, t, Go), t, Current(s)[b])
  {
    assert ThreadOK(s, t);
  }

  /** In every run, however it interleaves: the record from which a get reads its result holds the item that was
      in the bucket when it loaded the head. */
  lemma GetReturnsCurrent(s: State, t: nat, b: nat, moves: seq<Move>)
    requires Basic(s) && t < |s.threads| && s.threads[t].pc == Reserved(Get(b)) && OneOp(moves, t)
    requires Continue(s, [Turn(t, Go)] + moves).Some?
    ensures b < |s.heads|
    ensures var s' := Continue(s, [Turn(t, Go)] + moves).value;
            && t < |s'.threads|
            && (s'.threads[t].pc.Finishing? ==> ItemOf(s'.recs, Some(s'.threads[t].pc.head)) == Current(s)[b])
  {
    LoadReturns(s, t, b);
    hide Basic, Step, Current, OneOp, Enabled;
    ContinueThen(s, Turn(t, Go), moves);
    ReturnsOn(Step(s, t, Go), moves, t, Current(s)[b]);
  }

  /** It reads a result if and only if there was an item. */
  lemma GetFindsExactly(s: State, t: nat)
    requires Basic(s) && t < |s.threads| && s.threads[t].pc.HeadLoaded? && s.threads[t].pc.w.op.Get?
    ensures Enabled(s, t, Go)
    ensures NextPC(s, t, Go) == Ending <==> ItemOf(s.recs, s.threads[t].pc.w.head).None?
  {
    assert ThreadOK(s, t);
    hide Basic;
  }

  lemma PushReturns(s: State, t: nat, c: Choice)
    requires Basic(s) && Enabled(s, t, c) && PushedBy(s, Turn(t, c)).Some?
    ensures var b := PushedBy(s, Turn(t, c)).value.bucket;
            b < |s.heads| && Returns(Step(s, t, c), t, Current(s)[b])
  {
    assert ThreadOK(s, t);
    StepHeads(s, t, c);
    OnlyMover(s, t, c);
    var b := PushedBy(s, Turn(t, c)).value.bucket;
    assert HeadOK(s, b);
    hide Basic, Step, Effect;
  }

  /** And the record from which a store operation that has pushed reads its result holds the item that it has
      replaced. */
  lemma StoreReturnsReplaced(s: State, t: nat, c: Choice, moves: seq<Move>)
    requires Basic(s) && Enabled(s, t, c) && PushedBy(s, Turn(t, c)).Some? && OneOp(moves, t)
    requires Continue(s, [Turn(t, c)] + moves).Some?
    ensures var b := PushedBy(s, Turn(t, c)).value.bucket;
            var s' := Continue(s, [Turn(t, c)] + moves).value;
            && t < |s'.threads|
            && (s'.threads[t].pc.Finishing? ==> ItemOf(s'.recs, Some(s'.threads[t].pc.head)) == Current(s)[b])
  {
    PushReturns(s, t, c);
    var b := PushedBy(s, Turn(t, c)).value.bucket;
    hide Basic, Step, Current, OneOp, Enabled;
    ContinueThen(s, Turn(t, c), moves);
    ReturnsOn(Step(s, t, c), moves, t, Current(s)[b]);
  }
}
