/** A thread that runs alone finishes its operation. */
module LohatAlone {
  import opened Options
  import opened LohatModel
  import opened LohatBasic
  import opened LohatInvariant
  import opened LohatEpochs
  import opened LohatSnapshot

  lemma ContinueThen(s: State, m: Move, rest: seq<Move>)
    requires Basic(s) && Allowed(s, m)
    ensures Basic(Apply(s, m)) && Continue(s, [m] + rest) == Continue(Apply(s, m), rest)
  {
    ApplyKeepsBasic(s, m);
    hide Basic, Apply, Allowed;
    ContinueOne(s, m);
    ContinueOn(s, [m], rest);
  }

  predicate Alone(moves: seq<Move>, t: nat)
  {
    forall k :: 0 <= k < |moves| ==> moves[k] == Turn(t, Go)
  }

  // ---- every operation ends -----------------------------------------------------------

  /** The head a store expects has been replaced. */
  predicate Stale(s: State, w: Write) { w.op.View? || w.op.bucket >= |s.heads| || s.heads[w.op.bucket] != w.head }

  /** How far an operation is from its end: first the stage it has reached, ... */
  function Stage(s: State, pc: PC): nat
  {
    match pc
    case Idle => 0
    case Booting => 1
    case Ending => 1
    case Finishing(_) => 2
    case Viewed(_, _) => 2
    case ViewBucket(_, _) => 3
    case Descending(_, _, _) => 3
    case Taking(_, _, _) => 3
    case Freeing(_, _) => 3
    case Scanning(_, _, _, _) => 4
    case Retiring(_, _) => 4
    case HelpLoading(_, k) => ContStage(s, k)
    case HelpBumping(_, k) => ContStage(s, k)
    case HelpSwapping(_, _, k) => ContStage(s, k)
    case Installing(w) => if Stale(s, w) then 12 else 7
    case CopyingEpoch(w) => if Stale(s, w) then 13 else 8
    case HeadLoaded(w) => if Stale(s, w) then 15 else 10
    case Reserved(_) => 16
    case EpochLoaded(_, _) => 17
  }

  function ContStage(s: State, k: Cont): nat
  {
    match k
    case ThenReturn(_) => 3
    case ThenDescend(_, _, _) => 3
    case ThenRetire(_, _) => 5
    case ThenCommit(_, _) => 6
    case ThenCopyEpoch(w) => if Stale(s, w) then 14 else 9
  }

  /** ... then what is left to be done in a loop, ... */
  function Left(s: State, pc: PC): int
  {
    if Viewing(pc) then |s.heads| - |ViewGot(pc)|
    else if pc.Scanning? then pc.last - pc.slot
    else if pc.Freeing? then |pc.doomed|
    else 0
  }

  /** ... then how far it is from the end of helping and of descending a chain. */
  function Depth(s: State, pc: PC): nat
  {
    match pc
    case ViewBucket(_, _) => |s.recs| + 6
    case HelpLoading(_, _) => |s.recs| + 5
    case HelpBumping(_, _) => |s.recs| + 4
    case HelpSwapping(_, _, _) => |s.recs| + 3
    case Descending(_, _, cur) => if cur.Some? then cur.value + 2 else 1
    case _ => 0
  }

  predicate Nearer(s: State, pc: PC, s': State, pc': PC)
  {
    && 0 <= Left(s', pc')
    && (|| Stage(s', pc') < Stage(s, pc)
        || (Stage(s', pc') == Stage(s, pc) && Left(s', pc') < Left(s, pc))
        || (Stage(s', pc') == Stage(s, pc) && Left(s', pc') == Left(s, pc) && Depth(s', pc') < Depth(s, pc)))
  }

  lemma LeftIsNat(s: State, t: nat)
    requires Basic(s) && t < |s.threads|
    ensures Left(s, s.threads[t].pc) >= 0
  {
    assert ThreadOK(s, t);
  }

  /** A thread that is not idle can always take a step, and comes nearer to the end by it. */
  lemma ComesNearer(s: State, t: nat)
    requires Basic(s) && t < |s.threads| && s.threads[t].pc != Idle
    ensures Enabled(s, t, Go)
    ensures var s' := Step(s, t, Go); t < |s'.threads| && Nearer(s, s.threads[t].pc, s', s'.threads[t].pc)
  {
    assert ThreadOK(s, t);
    var pc, s' := s.threads[t].pc, Step(s, t, Go);
    OnlyMover(s, t, Go);
    StepKeepsBasic(s, t, Go);
    LeftIsNat(s', t);
    HeadsAfter(s, t);
    hide Step, Effect, NextPC, Basic;
    if pc.Installing? {
      InstallNearer(s, t, s');
    } else {
      OtherNearer(s, t, s');
    }
  }

  lemma InstallNearer(s: State, t: nat, s': State)
    requires Basic(s) && t < |s.threads| && s.threads[t].pc.Installing? && Enabled(s, t, Go)
    requires WriteOK(s, s.threads[t].pc.w) && !InstallSucceeds(s, s.threads[t].pc.w) ==> s'.heads == s.heads
    ensures Stage(s', NextPC(s, t, Go)) < Stage(s, s.threads[t].pc)
  {
    assert ThreadOK(s, t);
    hide Basic;
  }

  lemma OtherNearer(s: State, t: nat, s': State)
    requires Basic(s) && t < |s.threads| && s.threads[t].pc != Idle && !s.threads[t].pc.Installing? && Enabled(s, t, Go)
    requires s'.heads == s.heads && |s'.recs| == |s.recs| && 0 <= Left(s', NextPC(s, t, Go))
    ensures Nearer(s, s.threads[t].pc, s', NextPC(s, t, Go))
  {
    assert ThreadOK(s, t);
    var pc := s.threads[t].pc;
    if pc.Descending? && pc.cur.Some? { assert RecordOK(s, pc.cur.value); }
    hide Basic;
  }

  lemma HeadsAfter(s: State, t: nat)
    requires Basic(s) && t < |s.threads| && s.threads[t].pc != Idle && Enabled(s, t, Go)
    ensures var pc, s' := s.threads[t].pc, Step(s, t, Go);
            && |s'.heads| == |s.heads|
            && (!pc.Installing? ==> s'.heads == s.heads && |s'.recs| == |s.recs|)
            && (pc.Installing? && WriteOK(s, pc.w) && !InstallSucceeds(s, pc.w) ==> s'.heads == s.heads)
  {
    assert ThreadOK(s, t);
    hide NextPC;
  }
}
