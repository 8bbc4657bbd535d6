/** What a push that is not linked can lead to: a view that goes down to a record that was freed. */
module LohatUnlinked {
  import opened Options
  import opened LohatModel
  import opened LohatBasic
  import opened LohatInvariant
  import opened LohatFrames
  import opened LohatMover
  import opened LohatProof
  import opened LohatEpochs
  import opened LohatSafety
  import opened LohatSnapshot
  import opened LohatAlone
  import opened LohatLoneView

  // ---- overwritten records get retired, retired ones get freed ------------------------

  /** A record that has been overwritten is retired, or the thread that overwrote it is going to. */
  ghost predicate Due(s: State, j: nat)
    requires j < |s.recs|
  {
    s.recs[j].next.Some? && s.recs[j].next.value < |s.recs| && RE(s.recs, s.recs[j].next.value) == 0 ==>
      exists u :: 0 <= u < |s.threads| && OwnRecord(s.threads[u].pc) == Some(j)
  }

  /** A retired record has been freed or is on its way. */
  ghost predicate Kept(s: State, i: nat)
    requires i < |s.recs|
  {
    RE(s.recs, i) != 0 && !s.recs[i].freed ==> exists u :: 0 <= u < |s.threads| && i in Limbo(s.threads[u])
  }

  /** An idle thread has no reservation. */
  predicate Resting(pc: PC, res: Option<nat>)
  {
    pc.Idle? || pc.EpochLoaded? || (pc.Scanning? && pc.back.None?) || (pc.Freeing? && pc.back.None?) ==> res.None?
  }

  ghost predicate AllResting(s: State)
  {
    |s.reservations| == |s.threads|
    && forall t :: 0 <= t < |s.threads| ==> Resting(s.threads[t].pc, s.reservations[t])
  }

  ghost predicate Accounted(s: State)
  {
    && (forall j :: 0 <= j < |s.recs| ==> Due(s, j))
    && (forall i :: 0 <= i < |s.recs| ==> Kept(s, i))
    && AllResting(s)
  }

  /** How a step changes reservations, links, retire epochs and the freed flags. */
  lemma StepMemory(s: State, t: nat, c: Choice)
    requires Basic(s) && Enabled(s, t, c)
    ensures var s', pc := Step(s, t, c), s.threads[t].pc;
            && |s'.reservations| == |s.reservations|
            && (forall u :: 0 <= u < |s.reservations| && u != t ==> s'.reservations[u] == s.reservations[u])
            && |s.recs| <= |s'.recs| <= |s.recs| + 1
            && (forall i :: 0 <= i < |s.recs| ==>
                  && s'.recs[i].next == s.recs[i].next && s'.recs[i].bucket == s.recs[i].bucket
                  && (s.recs[i].freed ==> s'.recs[i].freed)
                  && (s'.recs[i].freed && !s.recs[i].freed ==> pc.Freeing? && pc.doomed != [] && pc.doomed[0] == i)
                  && (RE(s'.recs, i) != RE(s.recs, i) ==>
                        pc.Retiring? && pc.w.head == Some(i) && RE(s'.recs, i) == s.epoch))
            && (|s.recs| < |s'.recs| ==>
                  && pc.Installing? && WriteOK(s, pc.w) && InstallSucceeds(s, pc.w)
                  && s'.recs[|s.recs|] == Candidate(pc.w))
  {
    assert ThreadOK(s, t);
    hide NextPC;
  }

  /** A step takes out of a thread's garbage only what it frees, and adds what it retires. */
  lemma StepLimbo(s: State, t: nat, c: Choice)
    requires Basic(s) && Enabled(s, t, c)
    ensures var s', pc := Step(s, t, c), s.threads[t].pc;
            && t < |s'.threads|
            && (forall i :: i in Limbo(s.threads[t]) ==>
                  i in Limbo(s'.threads[t]) || (i < |s'.recs| && s'.recs[i].freed))
            && (pc.Retiring? && pc.w.head.Some? ==> pc.w.head.value in Limbo(s'.threads[t]))
  {
    var th, th' := s.threads[t], Step(s, t, c).threads[t];
    OnlyMover(s, t, c);
    RetiredNext(s, t, c);
    hide Step, Effect, Basic;
    if th.pc.Scanning? && th.pc.slot >= th.pc.last {
      var k := Cut(s, th.retired, th.pc.lowest);
      assert th.retired == th.retired[..k] + th.retired[k..];
      hide NextPC, Cut;
    } else if th.pc.Freeing? && th.pc.doomed != [] {
      assert th.pc.doomed == [th.pc.doomed[0]] + th.pc.doomed[1..];
      hide NextPC;
    } else if th.pc.Retiring? {
      assert th'.retired == [th.pc.w.head.value] + th.retired;
      hide NextPC;
    } else {
      hide NextPC;
    }
  }

  lemma RetiredNext(s: State, t: nat, c: Choice)
    requires Basic(s) && Enabled(s, t, c)
    ensures t < |Step(s, t, c).threads|
    ensures var th, s' := s.threads[t], Step(s, t, c);
            var pc, th' := th.pc, s'.threads[t];
            if pc.Scanning? && pc.slot >= pc.last then
              && (forall k :: 0 <= k < |th.retired| ==> th.retired[k] < |s.recs|)
              && th'.retired == th.retired[..Cut(s, th.retired, pc.lowest)]
              && Doomed(th'.pc) == th.retired[Cut(s, th.retired, pc.lowest)..]
            else if pc.Freeing? && pc.doomed != [] then
              && th'.retired == th.retired && Doomed(th'.pc) == pc.doomed[1..]
              && pc.doomed[0] < |s'.recs| && s'.recs[pc.doomed[0]].freed
            else if pc.Retiring? then
              pc.w.head.Some? && th'.retired == [pc.w.head.value] + th.retired && Doomed(th'.pc) == []
            else th'.retired == th.retired && Doomed(th'.pc) == [] && Doomed(pc) == []
  {
    OnlyMover(s, t, c);
    DoomedNext(s, t, c);
    RetiredStep(s, t, c);
    hide Basic, NextPC, Step, Doomed, Cut;
  }

  lemma RetiredStep(s: State, t: nat, c: Choice)
    requires Basic(s) && Enabled(s, t, c)
    ensures t < |Step(s, t, c).threads|
    ensures var th, s' := s.threads[t], Step(s, t, c);
            var pc, retired := th.pc, s'.threads[t].retired;
            if pc.Scanning? && pc.slot >= pc.last then
              && (forall k :: 0 <= k < |th.retired| ==> th.retired[k] < |s.recs|)
              && retired == th.retired[..Cut(s, th.retired, pc.lowest)]
            else if pc.Freeing? && pc.doomed != [] then
              retired == th.retired && pc.doomed[0] < |s'.recs| && s'.recs[pc.doomed[0]].freed
            else if pc.Retiring? then pc.w.head.Some? && retired == [pc.w.head.value] + th.retired
            else retired == th.retired
  {
    assert ThreadOK(s, t);
    hide Basic, NextPC, Cut;
  }

  lemma DoomedNext(s: State, t: nat, c: Choice)
    requires Basic(s) && Enabled(s, t, c)
    ensures var th, pc' := s.threads[t], NextPC(s, t, c);
            if th.pc.Scanning? && th.pc.slot >= th.pc.last then
              && (forall k :: 0 <= k < |th.retired| ==> th.retired[k] < |s.recs|)
              && Doomed(pc') == th.retired[Cut(s, th.retired, th.pc.lowest)..]
            else if th.pc.Freeing? && th.pc.doomed != [] then Doomed(pc') == th.pc.doomed[1..]
            else Doomed(pc') == [] && Doomed(th.pc) == []
  {
    assert ThreadOK(s, t);
    hide Basic, Effect;
  }

  lemma OwnStays(s: State, t: nat, c: Choice)
    requires Inv(s) && Enabled(s, t, c) && OwnRecord(s.threads[t].pc).Some?
    ensures var pc, pc', j := s.threads[t].pc, NextPC(s, t, c), OwnRecord(s.threads[t].pc).value;
            && j < |s.recs|
            && (OwnRecord(pc') == Some(j) || s.recs[j].next.None? || (pc.Retiring? && pc.w.head == s.recs[j].next))
  {
    ThreadOf(s, t);
    hide Inv, RecordsInv, LimboInv, Protected;
  }

  lemma NewOwner(s: State, t: nat, c: Choice)
    requires Basic(s) && Enabled(s, t, c) && s.threads[t].pc.Installing?
    requires WriteOK(s, s.threads[t].pc.w) && InstallSucceeds(s, s.threads[t].pc.w)
    ensures OwnRecord(NextPC(s, t, c)) == Some(|s.recs|)
  {
    hide Basic;
  }

  lemma StepKeepsDue(s: State, t: nat, c: Choice, j: nat)
    requires Inv(s) && Enabled(s, t, c) && j < |Step(s, t, c).recs| && (j < |s.recs| ==> Due(s, j))
    ensures Due(Step(s, t, c), j)
  {
    var s', pc := Step(s, t, c), s.threads[t].pc;
    OnlyMover(s, t, c);
    StepMemory(s, t, c);
    if j == |s.recs| {
      NewOwner(s, t, c);
      assert OwnRecord(s'.threads[t].pc) == Some(j);
    } else if s'.recs[j].next.Some? && s'.recs[j].next.value < |s'.recs| && RE(s'.recs, s'.recs[j].next.value) == 0 {
      assert RecordOK(s, j);
      var i := s.recs[j].next.value;
      assert RE(s.recs, i) == 0 by { EpochPositive(s); }
      var u :| 0 <= u < |s.threads| && OwnRecord(s.threads[u].pc) == Some(j);
      if u == t {
        OwnStays(s, t, c);
        if pc.Retiring? && pc.w.head == Some(i) { RetireStores(s, t, c); EpochPositive(s); }
      }
      hide Step, NextPC, Inv, Basic;
      assert OwnRecord(s'.threads[u].pc) == Some(j);
    }
  }

  lemma EpochPositive(s: State)
    requires Inv(s)
    ensures s.epoch >= 1
  {
    hide Basic, ThreadInv, SafeFrom, Apart;
  }

  lemma StepKeepsKept(s: State, t: nat, c: Choice, i: nat)
    requires Inv(s) && Enabled(s, t, c) && i < |Step(s, t, c).recs| && (i < |s.recs| ==> Kept(s, i))
    ensures Kept(Step(s, t, c), i)
  {
    var s', pc := Step(s, t, c), s.threads[t].pc;
    OnlyMover(s, t, c);
    StepMemory(s, t, c);
    StepLimbo(s, t, c);
    if RE(s'.recs, i) != 0 && !s'.recs[i].freed {
      hide Step, NextPC, Inv, Basic;
      if i < |s.recs| && RE(s.recs, i) != 0 {
        var u :| 0 <= u < |s.threads| && i in Limbo(s.threads[u]);
        assert i in Limbo(s'.threads[u]);
      } else {
        assert i in Limbo(s'.threads[t]);
      }
    }
  }

  lemma StepKeepsResting(s: State, t: nat, c: Choice)
    requires Basic(s) && Enabled(s, t, c) && AllResting(s)
    ensures AllResting(Step(s, t, c))
  {
    OnlyMover(s, t, c);
    StepMemory(s, t, c);
    assert Resting(s.threads[t].pc, s.reservations[t]);
    MoverRests(s, t, c);
    hide Step, NextPC, Basic, Resting;
  }

  lemma MoverRests(s: State, t: nat, c: Choice)
    requires Basic(s) && Enabled(s, t, c) && Resting(s.threads[t].pc, s.reservations[t])
    ensures t < |Step(s, t, c).reservations| && Resting(NextPC(s, t, c), Step(s, t, c).reservations[t])
  {
    assert ThreadOK(s, t);
  }

  lemma MoveKeepsAccounts(s: State, m: Move)
    requires Inv(s) && Allowed(s, m) && Accounted(s)
    ensures Accounted(Apply(s, m))
  {
    var s' := Apply(s, m);
    match m {
      case Turn(t, c) =>
        StepKeepsResting(s, t, c);
        hide Inv, Step, Basic, AllResting, Due, Kept;
        forall j | 0 <= j < |s'.recs| ensures Due(s', j) { StepKeepsDue(s, t, c, j); }
        forall i | 0 <= i < |s'.recs| ensures Kept(s', i) { StepKeepsKept(s, t, c, i); }
      case Join =>
        hide Inv, Basic;
        assert forall u :: 0 <= u < |s.threads| ==> s'.threads[u] == s.threads[u];
        forall j | 0 <= j < |s'.recs| ensures Due(s', j) { assert Due(s, j); }
        forall i | 0 <= i < |s'.recs| ensures Kept(s', i) { assert Kept(s, i); }
    }
  }

  lemma {:induction false} LinkedKeepsAccounts(s: State, moves: seq<Move>)
    requires Inv(s) && Accounted(s) && Basic(s) && Continue(s, moves).Some? && LinkedFrom(s, moves)
    ensures Accounted(Continue(s, moves).value)
  {
    hide Inv, LinkedMove, Due, Kept, Apply, Allowed, Basic;
    if moves != [] {
      var n := |moves| - 1;
      LinkedKeepsAccounts(s, moves[..n]);
      LinkedKeepsInv(s, moves[..n]);
      MoveKeepsAccounts(Continue(s, moves[..n]).value, moves[n]);
    }
  }

  lemma LinkedRunsAccount(buckets: nat, moves: seq<Move>)
    requires Exec(buckets, moves).Some? && LinkedRun(buckets, moves)
    ensures Accounted(Exec(buckets, moves).value)
  {
    InitInv(buckets);
    InitBasic(buckets);
    hide Inv, LinkedFrom, Basic;
    LinkedKeepsAccounts(Init(buckets), moves);
  }

  // ---- the trap -----------------------------------------------------------------------

  /** The record a thread is going to retire. */
  function Target(pc: PC): Option<nat>
  {
    match pc
    case HelpLoading(_, k) => ContTarget(k)
    case HelpBumping(_, k) => ContTarget(k)
    case HelpSwapping(_, _, k) => ContTarget(k)
    case Retiring(w, _) => w.head
    case _ => None
  }

  function ContTarget(k: Cont): Option<nat>
  {
    if k.ThenCommit? || k.ThenRetire? then k.w.head else None
  }

  /** Record p has been retired and z has it, or it is freed; record n, above it in its bucket, leads to
      it; no one retires it again. */
  ghost predicate Loose(s: State, n: nat, p: nat, z: nat)
  {
    && Basic(s) && AllResting(s) && n < |s.recs| && s.recs[n].next == Some(p) && p < |s.recs| && z < |s.threads|
    && 0 < RE(s.recs, p) <= s.epoch && (s.recs[p].freed || p in Limbo(s.threads[z]))
    && forall u :: 0 <= u < |s.threads| ==> Target(s.threads[u].pc) != Some(p)
  }

  /** And view v, whose epoch is e, stands on n and is about to go down to p. */
  ghost predicate Trap(s: State, n: nat, p: nat, z: nat, v: nat, e: nat)
  {
    && Loose(s, n, p, z) && v < |s.threads| == |s.reservations| && v != z
    && s.threads[v].pc.Descending? && s.threads[v].pc.epoch == e && s.threads[v].pc.cur == Some(n)
    && s.reservations[v] == Some(e) && RE(s.recs, p) < e < WE(s.recs, n)
  }

  /** Only a push onto p makes p a target, and p has been overwritten. */
  lemma NoNewTarget(s: State, t: nat, c: Choice, n: nat, p: nat)
    requires Basic(s) && Enabled(s, t, c) && n < |s.recs| && s.recs[n].next == Some(p)
    requires Target(s.threads[t].pc) != Some(p)
    ensures Target(NextPC(s, t, c)) != Some(p)
  {
    assert ThreadOK(s, t) && RecordOK(s, n);
    var pc := s.threads[t].pc;
    if pc.Installing? && InstallSucceeds(s, pc.w) { assert HeadOK(s, pc.w.op.bucket); }
    hide Basic;
  }

  lemma StepKeepsLoose(s: State, t: nat, c: Choice, n: nat, p: nat, z: nat)
    requires Loose(s, n, p, z) && Enabled(s, t, c)
    ensures Loose(Step(s, t, c), n, p, z) && RE(Step(s, t, c).recs, p) == RE(s.recs, p)
  {
    var s', pc := Step(s, t, c), s.threads[t].pc;
    StepKeepsBasic(s, t, c);
    StepKeepsResting(s, t, c);
    OnlyMover(s, t, c);
    StepEpochs(s, t, c);
    StepMemory(s, t, c);
    StepLimbo(s, t, c);
    NoNewTarget(s, t, c, n, p);
    assert pc.Retiring? ==> Target(pc) == pc.w.head;
    hide Step, NextPC, Basic, AllResting, Target, Limbo;
  }

  lemma StepKeepsTrap(s: State, t: nat, c: Choice, n: nat, p: nat, z: nat, v: nat, e: nat)
    requires Trap(s, n, p, z, v, e) && Enabled(s, t, c) && t != v
    ensures Trap(Step(s, t, c), n, p, z, v, e)
  {
    StepKeepsLoose(s, t, c, n, p, z);
    OnlyMover(s, t, c);
    StepMemory(s, t, c);
    StepEpochs(s, t, c);
    hide Step, NextPC, Loose;
    assert Basic(s) by { LooseIsBasic(s, n, p, z); }
    assert n < |s.recs| && p < |s.recs| by { LooseIsBasic(s, n, p, z); }
  }

  lemma LooseIsBasic(s: State, n: nat, p: nat, z: nat)
    requires Loose(s, n, p, z)
    ensures Basic(s) && n < |s.recs| && p < |s.recs| && |s.reservations| == |s.threads|
  {
    hide AllResting, Limbo, Target;
  }

  // ---- linked schedules ---------------------------------------------------------------

  lemma LinkedThen(s: State, m: Move, rest: seq<Move>)
    requires Basic(s) && Allowed(s, m) && LinkedMove(s, m) && Basic(Apply(s, m))
    requires Continue(Apply(s, m), rest).Some? && LinkedFrom(Apply(s, m), rest)
    ensures Continue(s, [m] + rest) == Continue(Apply(s, m), rest) && LinkedFrom(s, [m] + rest)
  {
    hide Basic, Apply, Allowed, LinkedMove;
    ContinueOne(s, m);
    LinkedOne(s, m);
    LinkedOn(s, [m], rest);
  }

  lemma LinkedOne(s: State, m: Move)
    requires Basic(s) && Allowed(s, m) && LinkedMove(s, m)
    ensures Continue(s, [m]).Some? && LinkedFrom(s, [m])
  {
    hide Basic, Apply, Allowed, LinkedMove;
    ContinueOne(s, m);
    assert [m][..0] == [];
    assert LinkedFrom(s, [m][..0]) && Continue(s, [m][..0]) == Some(s);
  }

  /** A lone view pushes nothing. */
  lemma {:induction false} LoneViewIsLinked(s: State, moves: seq<Move>)
    requires Basic(s) && LoneView(moves, |s.threads|) && Continue(s, moves).Some?
    ensures LinkedFrom(s, moves) && Viewer(Continue(s, moves).value, |s.threads|)
  {
    hide Basic, Apply, Allowed, CleanMove, LinkedMove;
    if moves != [] {
      var n := |moves| - 1;
      LoneViewIsLinked(s, moves[..n]);
      var before := Continue(s, moves[..n]).value;
      if n == 0 {
        JoinIsClean(s);
      } else {
        LoneMoveIsClean(before, moves[n], |s.threads|);
      }
      CleanIsLinked(before, moves[n]);
    }
  }

  // ---- all other threads finish -------------------------------------------------------

  /** Bucket b is empty or its last record is deleted: no replace can succeed there. */
  predicate Dead(s: State, b: nat)
  {
    b < |s.heads| && (s.heads[b].Some? ==> s.heads[b].value < |s.recs| && s.recs[s.heads[b].value].deleted)
  }

  /** A thread that will push nothing that is not linked if it runs alone. */
  predicate Tame(s: State, pc: PC)
  {
    OpOf(pc).Some? && OpOf(pc).value.Replace? ==> Dead(s, OpOf(pc).value.bucket)
  }

  /** A thread that carries out a remove in bucket b, or has done so. */
  predicate Clears(s: State, pc: PC, b: nat)
  {
    b < |s.heads| &&
    match pc
    case EpochLoaded(op, _) => op == Remove(b)
    case Reserved(op) => op == Remove(b)
    case HeadLoaded(w) => w.op == Remove(b) && w.head == s.heads[b]
    case Installing(w) => w.op == Remove(b) && w.head == s.heads[b]
    case _ => OpOf(pc) == None && Dead(s, b)
  }

  lemma TameStep(s: State, t: nat)
    requires Basic(s) && t < |s.threads| && s.threads[t].pc != Idle && Tame(s, s.threads[t].pc) && Enabled(s, t, Go)
    ensures LinkedMove(s, Turn(t, Go)) && Tame(Step(s, t, Go), NextPC(s, t, Go))
  {
    assert ThreadOK(s, t);
    var pc := s.threads[t].pc;
    OpStays(s, t, Go);
    HeadsAfter(s, t);
    StepDeleted(s, t);
    if pc.Installing? {
      LinkedPushExactly(s, t);
      InstallEnds(s, t);
    }
    hide Basic, Step, NextPC, OpOf;
  }

  lemma StepDeleted(s: State, t: nat)
    requires Basic(s) && Enabled(s, t, Go)
    ensures |s.recs| <= |Step(s, t, Go).recs|
    ensures forall i :: 0 <= i < |s.recs| ==> Step(s, t, Go).recs[i].deleted == s.recs[i].deleted
  {
    assert ThreadOK(s, t);
    hide NextPC;
  }

  /** A push ends the part of an operation that can push. */
  lemma InstallEnds(s: State, t: nat)
    requires Basic(s) && Enabled(s, t, Go) && s.threads[t].pc.Installing?
    ensures OpOf(s.threads[t].pc) == Some(s.threads[t].pc.w.op)
    ensures WriteOK(s, s.threads[t].pc.w) && ChoiceOK(s, s.threads[t].pc.w)
    ensures InstallSucceeds(s, s.threads[t].pc.w) ==> OpOf(NextPC(s, t, Go)) == None
  {
    assert ThreadOK(s, t);
    hide Basic;
  }

  lemma ClearsStep(s: State, t: nat, b: nat)
    requires Basic(s) && t < |s.threads| && s.threads[t].pc != Idle && Enabled(s, t, Go)
    requires Clears(s, s.threads[t].pc, b)
    ensures Clears(Step(s, t, Go), NextPC(s, t, Go), b)
  {
    assert ThreadOK(s, t);
    var pc, s' := s.threads[t].pc, Step(s, t, Go);
    HeadsAfter(s, t);
    StepDeleted(s, t);
    if pc.Installing? {
      assert s'.recs == s.recs + [Candidate(pc.w)] && s'.heads == s.heads[b := Some(|s.recs|)];
    }
    hide Basic, Step, Effect;
  }

  /** Thread t runs alone until it is idle; the trap stays. */
  lemma {:induction false} RunToIdle(s: State, t: nat, n: nat, p: nat, z: nat, v: nat, e: nat, b: nat)
    returns (moves: seq<Move>)
    requires Trap(s, n, p, z, v, e) && t < |s.threads| && t != v && Basic(s) && Tame(s, s.threads[t].pc)
    ensures Continue(s, moves).Some? && LinkedFrom(s, moves)
    ensures var s' := Continue(s, moves).value;
            && Trap(s', n, p, z, v, e) && |s'.threads| == |s.threads| && s'.threads[t].pc == Idle
            && (forall u :: 0 <= u < |s.threads| && u != t ==> s'.threads[u].pc == s.threads[u].pc)
            && (Clears(s, s.threads[t].pc, b) ==> Clears(s', Idle, b))
    decreases Stage(s, s.threads[t].pc), Left(s, s.threads[t].pc), Depth(s, s.threads[t].pc)
  {
    if s.threads[t].pc == Idle { return []; }
    ComesNearer(s, t);
    LeftIsNat(s, t);
    StepKeepsTrap(s, t, Go, n, p, z, v, e);
    StepKeepsBasic(s, t, Go);
    OnlyMover(s, t, Go);
    TameStep(s, t);
    if Clears(s, s.threads[t].pc, b) { ClearsStep(s, t, b); }
    hide Basic, Step, NextPC, Trap, Stage, Left, Depth, Enabled, LinkedMove, LinkedFrom, Tame, Clears;
    assert Allowed(s, Turn(t, Go));
    var rest := RunToIdle(Step(s, t, Go), t, n, p, z, v, e, b);
    LinkedThen(s, Turn(t, Go), rest);
    moves := [Turn(t, Go)] + rest;
  }

  /** Thread y removes what is in bucket b. */
  lemma Clear(s: State, y: nat, n: nat, p: nat, z: nat, v: nat, e: nat, b: nat) returns (moves: seq<Move>)
    requires Trap(s, n, p, z, v, e) && Basic(s) && b < |s.heads|
    requires y < |s.threads| && y != v && s.threads[y].pc == Idle
    ensures Continue(s, moves).Some? && LinkedFrom(s, moves)
    ensures var s' := Continue(s, moves).value;
            && Trap(s', n, p, z, v, e) && |s'.threads| == |s.threads| && Dead(s', b)
            && forall u :: 0 <= u < |s.threads| ==> s'.threads[u].pc == s.threads[u].pc
  {
    var c := Start(Remove(b));
    assert Enabled(s, y, c) && LinkedMove(s, Turn(y, c));
    StepKeepsTrap(s, y, c, n, p, z, v, e);
    StepKeepsBasic(s, y, c);
    OnlyMover(s, y, c);
    var s1 := Step(s, y, c);
    assert NextPC(s, y, c) == EpochLoaded(Remove(b), s.epoch) && |s1.heads| == |s.heads|;
    assert Tame(s1, s1.threads[y].pc) && Clears(s1, s1.threads[y].pc, b);
    assert forall s' :: Clears(s', Idle, b) ==> Dead(s', b);
    assert Allowed(s, Turn(y, c));
    hide Basic, Step, NextPC, Trap, Enabled, LinkedMove, LinkedFrom, Tame, Clears, Dead;
    var rest := RunToIdle(s1, y, n, p, z, v, e, b);
    LinkedThen(s, Turn(y, c), rest);
    moves := [Turn(y, c)] + rest;
  }

  /** A replace that has not pushed yet is made to find its bucket empty. */
  lemma Quell(s: State, t: nat, n: nat, p: nat, z: nat, v: nat, e: nat, y: nat) returns (moves: seq<Move>)
    requires Trap(s, n, p, z, v, e) && Basic(s) && t < |s.threads|
    requires y < |s.threads| && y != v && s.threads[y].pc == Idle
    ensures Continue(s, moves).Some? && LinkedFrom(s, moves)
    ensures var s' := Continue(s, moves).value;
            && Trap(s', n, p, z, v, e) && |s'.threads| == |s.threads| && Tame(s', s.threads[t].pc)
            && forall u :: 0 <= u < |s.threads| ==> s'.threads[u].pc == s.threads[u].pc
  {
    var op := OpOf(s.threads[t].pc);
    if op.Some? && op.value.Replace? {
      assert op.value.bucket < |s.heads| by { assert ThreadOK(s, t); }
      hide Basic, Trap, LinkedFrom, Dead, OpOf;
      moves := Clear(s, y, n, p, z, v, e, op.value.bucket);
    } else {
      moves := [];
    }
  }

  ghost predicate IdleBelow(s: State, k: nat, v: nat)
  {
    forall u :: 0 <= u < k && u < |s.threads| && u != v ==> s.threads[u].pc == Idle
  }

  /** All threads but the view run until they are idle, with the help of thread y. */
  lemma {:induction false} AllToIdle(s: State, k: nat, n: nat, p: nat, z: nat, v: nat, e: nat, y: nat)
    returns (moves: seq<Move>)
    requires Trap(s, n, p, z, v, e) && Basic(s) && k <= |s.threads|
    requires y < |s.threads| && y != v && s.threads[y].pc == Idle
    ensures Continue(s, moves).Some? && LinkedFrom(s, moves)
    ensures var s' := Continue(s, moves).value;
            && Trap(s', n, p, z, v, e) && |s'.threads| == |s.threads| && IdleBelow(s', k, v)
            && s'.threads[y].pc == Idle
    decreases k
  {
    if k == 0 { return []; }
    hide *;
    var t := k - 1;
    var first := AllToIdle(s, t, n, p, z, v, e, y);
    var s1 := Continue(s, first).value;
    moves := first;
    if t == v || t == y {
      OneMoreIdle(s1, s1, t, v);
    } else {
      var next := OneToIdle(s1, t, n, p, z, v, e, y);
      LinkedOn(s, first, next);
      moves := first + next;
      OneMoreIdle(s1, Continue(s1, next).value, t, v);
    }
  }

  lemma OneMoreIdle(s: State, s': State, t: nat, v: nat)
    requires IdleBelow(s, t, v) && t < |s.threads| == |s'.threads| && (t == v || s'.threads[t].pc == Idle)
    requires forall u :: 0 <= u < |s.threads| && u != t ==> s'.threads[u].pc == s.threads[u].pc
    ensures IdleBelow(s', t + 1, v)
  {
  }

  lemma OneToIdle(s: State, t: nat, n: nat, p: nat, z: nat, v: nat, e: nat, y: nat) returns (moves: seq<Move>)
    requires Trap(s, n, p, z, v, e) && Basic(s) && t < |s.threads| && t != v && t != y
    requires y < |s.threads| && y != v && s.threads[y].pc == Idle
    ensures Continue(s, moves).Some? && LinkedFrom(s, moves)
    ensures var s' := Continue(s, moves).value;
            && Trap(s', n, p, z, v, e) && |s'.threads| == |s.threads| && s'.threads[t].pc == Idle
            && forall u :: 0 <= u < |s.threads| && u != t ==> s'.threads[u].pc == s.threads[u].pc
  {
    hide Trap, Basic, Tame, Clears, LinkedFrom;
    var quell := Quell(s, t, n, p, z, v, e, y);
    var s1 := Continue(s, quell).value;
    var next := RunToIdle(s1, t, n, p, z, v, e, 0);
    LinkedOn(s, quell, next);
    moves := quell + next;
  }

  /** A new thread joins, to clear buckets. */
  lemma Helper(s: State, n: nat, p: nat, z: nat, v: nat, e: nat) returns (moves: seq<Move>)
    requires Trap(s, n, p, z, v, e) && Basic(s)
    ensures Continue(s, moves).Some? && LinkedFrom(s, moves)
    ensures var s', y := Continue(s, moves).value, |s.threads|;
            Trap(s', n, p, z, v, e) && |s'.threads| == y + 1 && y != v && s'.threads[y].pc == Idle
  {
    var y, s1 := |s.threads|, Register(s);
    RegisterKeepsBasic(s);
    JoinKeepsTrap(s, n, p, z, v, e);
    assert Enabled(s1, y, Go) && NextPC(s1, y, Go) == Idle;
    StepKeepsTrap(s1, y, Go, n, p, z, v, e);
    OnlyMover(s1, y, Go);
    assert LinkedMove(s, Join) && LinkedMove(s1, Turn(y, Go)) && Allowed(s1, Turn(y, Go));
    hide Basic, Trap, LinkedMove, Step, NextPC, Enabled;
    LinkedOne(s1, Turn(y, Go));
    ContinueOne(s1, Turn(y, Go));
    LinkedThen(s, Join, [Turn(y, Go)]);
    moves := [Join] + [Turn(y, Go)];
  }

  lemma JoinKeepsTrap(s: State, n: nat, p: nat, z: nat, v: nat, e: nat)
    requires Trap(s, n, p, z, v, e)
    ensures Trap(Register(s), n, p, z, v, e)
  {
    RegisterKeepsBasic(s);
    var s' := Register(s);
    hide Basic;
    forall u | 0 <= u < |s'.threads|
      ensures Resting(s'.threads[u].pc, s'.reservations[u]) && Target(s'.threads[u].pc) != Some(p)
    {
      if u < |s.threads| { assert Resting(s.threads[u].pc, s.reservations[u]); }
    }
    assert s'.threads[z] == s.threads[z];
  }

  // ---- the garbage is collected -------------------------------------------------------

  /** Thread z collects while all but the view are idle. */
  ghost predicate Collecting(s: State, n: nat, p: nat, z: nat, v: nat, e: nat)
  {
    && Trap(s, n, p, z, v, e)
    && (forall u :: 0 <= u < |s.threads| && u != v && u != z ==> s.threads[u].pc == Idle)
    && match s.threads[z].pc
       case Scanning(last, slot, lowest, back) =>
         back == None && (lowest == None || lowest == Some(e)) && (s.recs[p].freed || p in s.threads[z].retired)
       case Freeing(doomed, back) => back == None && (s.recs[p].freed || p in doomed)
       case Idle => s.recs[p].freed
       case _ => false
  }

  lemma CollectStep(s: State, n: nat, p: nat, z: nat, v: nat, e: nat)
    requires Collecting(s, n, p, z, v, e) && Basic(s) && s.threads[z].pc != Idle
    ensures Enabled(s, z, Go) && Collecting(Step(s, z, Go), n, p, z, v, e)
  {
    var s', pc := Step(s, z, Go), s.threads[z].pc;
    assert ThreadOK(s, z);
    StepKeepsTrap(s, z, Go, n, p, z, v, e);
    OnlyMover(s, z, Go);
    StepMemory(s, z, Go);
    if pc.Scanning? {
      OnlyReservation(s, n, p, z, v, e);
      ScanStep(s, n, p, z, e);
    } else {
      FreeStep(s, p, z);
    }
    hide Step, NextPC, Basic, Trap;
  }

  lemma OnlyReservation(s: State, n: nat, p: nat, z: nat, v: nat, e: nat)
    requires Collecting(s, n, p, z, v, e) && s.threads[z].pc.Scanning?
    ensures |s.reservations| == |s.threads|
    ensures forall u :: 0 <= u < |s.reservations| ==> s.reservations[u] == None || s.reservations[u] == Some(e)
  {
    assert AllResting(s) && |s.reservations| == |s.threads|;
    forall u | 0 <= u < |s.reservations| ensures s.reservations[u] == None || s.reservations[u] == Some(e) {
      assert Resting(s.threads[u].pc, s.reservations[u]);
    }
  }

  lemma ScanStep(s: State, n: nat, p: nat, z: nat, e: nat)
    requires Basic(s) && z < |s.threads| && s.threads[z].pc.Scanning? && s.threads[z].pc.back == None
    requires s.threads[z].pc.lowest == None || s.threads[z].pc.lowest == Some(e)
    requires |s.reservations| == |s.threads|
    requires forall u :: 0 <= u < |s.reservations| ==> s.reservations[u] == None || s.reservations[u] == Some(e)
    requires p < |s.recs| && (s.recs[p].freed || p in s.threads[z].retired) && RE(s.recs, p) < e
    ensures Enabled(s, z, Go)
    ensures var s' := Step(s, z, Go);
            && z < |s'.threads| && s'.recs == s.recs
            && match s'.threads[z].pc
               case Scanning(_, _, lowest, back) =>
                 && back == None && (lowest == None || lowest == Some(e))
                 && (s.recs[p].freed || p in s'.threads[z].retired)
               case Freeing(doomed, back) => back == None && (s.recs[p].freed || p in doomed)
               case _ => false
  {
    assert ThreadOK(s, z);
    var th := s.threads[z];
    hide Basic;
    if th.pc.slot >= th.pc.last && !s.recs[p].freed {
      var k := Cut(s, th.retired, th.pc.lowest);
      var i :| 0 <= i < |th.retired| && th.retired[i] == p;
      assert Below(s, p, th.pc.lowest);
      assert th.retired[k..][i - k] == p;
    }
  }

  lemma FreeStep(s: State, p: nat, z: nat)
    requires Basic(s) && z < |s.threads| && s.threads[z].pc.Freeing? && s.threads[z].pc.back == None
    requires p < |s.recs| && (s.recs[p].freed || p in s.threads[z].pc.doomed)
    ensures Enabled(s, z, Go)
    ensures var s' := Step(s, z, Go);
            && z < |s'.threads| && p < |s'.recs|
            && match s'.threads[z].pc
               case Freeing(doomed, back) => back == None && (s'.recs[p].freed || p in doomed)
               case Idle => s'.recs[p].freed
               case _ => false
  {
    assert ThreadOK(s, z);
    hide Basic;
    var doomed := s.threads[z].pc.doomed;
    if doomed != [] { assert doomed == [doomed[0]] + doomed[1..]; }
  }

  lemma {:induction false} Collect(s: State, n: nat, p: nat, z: nat, v: nat, e: nat) returns (moves: seq<Move>)
    requires Collecting(s, n, p, z, v, e) && Basic(s) && z < |s.threads|
    ensures Continue(s, moves).Some? && LinkedFrom(s, moves)
    ensures var s' := Continue(s, moves).value;
            p < |s'.recs| && s'.recs[p].freed && Trap(s', n, p, z, v, e)
    decreases Stage(s, s.threads[z].pc), Left(s, s.threads[z].pc), Depth(s, s.threads[z].pc)
  {
    if s.threads[z].pc == Idle { return []; }
    ComesNearer(s, z);
    LeftIsNat(s, z);
    CollectStep(s, n, p, z, v, e);
    StepKeepsBasic(s, z, Go);
    OnlyMover(s, z, Go);
    assert LinkedMove(s, Turn(z, Go));
    hide Basic, Step, NextPC, Collecting, Stage, Left, Depth, Enabled, LinkedMove, LinkedFrom;
    assert Allowed(s, Turn(z, Go));
    var rest := Collect(Step(s, z, Go), n, p, z, v, e);
    LinkedThen(s, Turn(z, Go), rest);
    moves := [Turn(z, Go)] + rest;
  }

  // ---- the overwritten record gets retired --------------------------------------------

  /** Thread z has put x on top of p and is going to retire p. */
  predicate Retires(pc: PC, p: nat, x: nat)
  {
    match pc
    case HelpLoading(rec, k) => ContRetires(k, p, x) && (rec == p || rec == x)
    case HelpBumping(rec, k) => ContRetires(k, p, x) && (rec == p || rec == x)
    case HelpSwapping(rec, _, k) => ContRetires(k, p, x) && (rec == p || rec == x)
    case Retiring(w, own) => own == x && w.head == Some(p)
    case _ => false
  }

  predicate ContRetires(k: Cont, p: nat, x: nat)
  {
    (k.ThenCommit? || k.ThenRetire?) && k.own == x && k.w.head == Some(p)
  }

  /** Record n is the uncommitted head of bucket b, pushed by thread q, and leads to p. */
  ghost predicate Pushed1(s: State, n: nat, p: nat, q: nat, b: nat)
  {
    && Basic(s) && AllResting(s) && s.epoch >= 1 && n < |s.recs| && s.recs[n].next == Some(p) && p < |s.recs|
    && WE(s.recs, n) == 0 && b < |s.heads| && s.heads[b] == Some(n)
    && q < |s.threads| && s.threads[q].pc.HelpBumping? && s.threads[q].pc.rec == n
  }

  ghost predicate Retirer(s: State, n: nat, p: nat, q: nat, b: nat, z: nat, x: nat)
  {
    && Pushed1(s, n, p, q, b) && z < |s.threads| && z != q && x != n && p != n && RE(s.recs, p) <= s.epoch
    && (forall u :: 0 <= u < |s.threads| && u != z ==> Target(s.threads[u].pc) != Some(p))
    && (RE(s.recs, p) == 0 ==> Retires(s.threads[z].pc, p, x))
    && (RE(s.recs, p) != 0 ==> Target(s.threads[z].pc) != Some(p) && (s.recs[p].freed || p in Limbo(s.threads[z])))
  }

  lemma RetirerStep(s: State, n: nat, p: nat, q: nat, b: nat, z: nat, x: nat)
    requires Retirer(s, n, p, q, b, z, x) && RE(s.recs, p) == 0
    ensures Enabled(s, z, Go) && Retirer(Step(s, z, Go), n, p, q, b, z, x)
  {
    var s', pc := Step(s, z, Go), s.threads[z].pc;
    assert ThreadOK(s, z);
    StepKeepsBasic(s, z, Go);
    StepKeepsResting(s, z, Go);
    OnlyMover(s, z, Go);
    StepEpochs(s, z, Go);
    StepMemory(s, z, Go);
    StepLimbo(s, z, Go);
    RetiresNext(s, z, p, x);
    HeadsStay(s, z);
    hide Step, NextPC, Basic, AllResting, Limbo, Target, Retires;
    assert pc.HelpSwapping? ==> pc.rec != n by {
      assert Retires(pc, p, x) ==> !pc.HelpSwapping? || pc.rec == p || pc.rec == x;
    }
  }

  lemma RetiresNext(s: State, z: nat, p: nat, x: nat)
    requires Basic(s) && z < |s.threads| && Retires(s.threads[z].pc, p, x) && Enabled(s, z, Go)
    ensures var pc, pc' := s.threads[z].pc, NextPC(s, z, Go);
            && (pc.HelpSwapping? ==> pc.rec == p || pc.rec == x)
            && !pc.Installing? && (pc.Retiring? ==> pc.w.head == Some(p) && Target(pc') == None)
            && (!pc.Retiring? ==> Retires(pc', p, x))
    ensures s.threads[z].pc.Retiring? ==> p < |Step(s, z, Go).recs| && RE(Step(s, z, Go).recs, p) == s.epoch
  {
    assert ThreadOK(s, z);
    if s.threads[z].pc.Retiring? { RetireStores(s, z, Go); }
    hide Effect, Basic;
  }

  lemma HeadsStay(s: State, z: nat)
    requires Basic(s) && z < |s.threads| && !s.threads[z].pc.Installing? && Enabled(s, z, Go)
    ensures Step(s, z, Go).heads == s.heads
  {
    hide NextPC, Basic;
  }

  lemma {:induction false} RunToRetire(s: State, n: nat, p: nat, q: nat, b: nat, z: nat, x: nat)
    returns (moves: seq<Move>)
    requires Retirer(s, n, p, q, b, z, x) && Basic(s) && z < |s.threads| && p < |s.recs|
    ensures Continue(s, moves).Some? && LinkedFrom(s, moves)
    ensures var s' := Continue(s, moves).value;
            p < |s'.recs| && Retirer(s', n, p, q, b, z, x) && RE(s'.recs, p) != 0
    decreases Stage(s, s.threads[z].pc), Left(s, s.threads[z].pc), Depth(s, s.threads[z].pc)
  {
    if RE(s.recs, p) != 0 { return []; }
    assert s.threads[z].pc != Idle;
    ComesNearer(s, z);
    LeftIsNat(s, z);
    RetirerStep(s, n, p, q, b, z, x);
    StepKeepsBasic(s, z, Go);
    OnlyMover(s, z, Go);
    StepMemory(s, z, Go);
    assert LinkedMove(s, Turn(z, Go));
    hide Basic, Step, NextPC, Retirer, Stage, Left, Depth, Enabled, LinkedMove, LinkedFrom;
    assert Allowed(s, Turn(z, Go));
    var rest := RunToRetire(Step(s, z, Go), n, p, q, b, z, x);
    LinkedThen(s, Turn(z, Go), rest);
    moves := [Turn(z, Go)] + rest;
  }

  // ---- from the retirement to the trap ------------------------------------------------

  /** The pusher draws an epoch and stops; a new view helps the pushed record to a later one. */
  lemma SetTrap(s: State, n: nat, p: nat, q: nat, b: nat, z: nat) returns (moves: seq<Move>, v: nat, e: nat)
    requires Pushed1(s, n, p, q, b) && Loose(s, n, p, z) && Basic(s)
    ensures Continue(s, moves).Some? && LinkedFrom(s, moves)
    ensures Trap(Continue(s, moves).value, n, p, z, v, e)
  {
    assert Enabled(s, q, Go);
    StepKeepsLoose(s, q, Go, n, p, z);
    StepEpochs(s, q, Go);
    StepMemory(s, q, Go);
    HeadsStay(s, q);
    var s1 := Step(s, q, Go);
    OnlyMover(s, q, Go);
    hide Step, NextPC, Enabled;
    assert s1.epoch == s.epoch + 1 && RE(s1.recs, p) < s1.epoch;
    assert Basic(s1);
    v, e := |s1.threads|, s1.epoch;
    assert Allowed(s, Turn(q, Go)) && LinkedMove(s, Turn(q, Go));
    hide Basic, LinkedMove, LinkedFrom;
    var reach := ReachHead(s1, b, n);
    LoneViewIsLinked(s1, reach);
    LinkedThen(s, Turn(q, Go), reach);
    moves := [Turn(q, Go)] + reach;
    TrapIsSet(s1, Continue(s1, reach).value, n, p, z, b);
  }

  lemma TrapIsSet(s: State, s': State, n: nat, p: nat, z: nat, b: nat)
    requires Loose(s, n, p, z) && Basic(s') && RE(s.recs, p) < s.epoch && OnHead(s, s', |s.threads|, b, n)
    ensures Trap(s', n, p, z, |s.threads|, s.epoch)
  {
    var v := |s.threads|;
    assert forall u :: 0 <= u < v ==> s'.threads[u] == s'.threads[..v][u] == s.threads[u];
    assert AllResting(s') by {
      hide Basic;
      forall u | 0 <= u < |s'.threads| ensures Resting(s'.threads[u].pc, s'.reservations[u]) {
        if u < v { assert Resting(s.threads[u].pc, s.reservations[u]); }
      }
    }
    assert s'.threads[z] == s.threads[z] && s'.recs[p] == s.recs[p].(writeEpoch := WE(s'.recs, p));
    assert s'.epoch >= s.epoch;
    hide Basic, AllResting, Limbo;
  }

  /** From the trap on: everyone else finishes, z collects its garbage, and the view goes down. */
  lemma SpringTrap(s: State, n: nat, p: nat, z: nat, v: nat, e: nat) returns (moves: seq<Move>)
    requires Trap(s, n, p, z, v, e) && Basic(s)
    ensures Continue(s, moves).Some? && LinkedFrom(s, moves)
    ensures var s' := Continue(s, moves).value;
            v < |s'.threads| && p in Touched(s', v) && p < |s'.recs| && s'.recs[p].freed
  {
    hide Trap, Basic, Touched, LinkedFrom;
    var join := Helper(s, n, p, z, v, e);
    var s0 := Continue(s, join).value;
    var quiet := AllToIdle(s0, |s0.threads|, n, p, z, v, e, |s.threads|);
    var s1 := Continue(s0, quiet).value;
    var collect := Collected(s1, n, p, z, v, e);
    var s2 := Continue(s1, collect).value;
    GoesToFreed(s2, n, p, z, v, e);
    LinkedOn(s, join, quiet);
    LinkedOn(s, join + quiet, collect);
    LinkedOn(s, join + quiet + collect, [Turn(v, Go)]);
    moves := join + quiet + collect + [Turn(v, Go)];
  }

  lemma Collected(s: State, n: nat, p: nat, z: nat, v: nat, e: nat) returns (moves: seq<Move>)
    requires Trap(s, n, p, z, v, e) && Basic(s) && IdleBelow(s, |s.threads|, v)
    ensures Continue(s, moves).Some? && LinkedFrom(s, moves)
    ensures var s' := Continue(s, moves).value;
            p < |s'.recs| && s'.recs[p].freed && Trap(s', n, p, z, v, e)
  {
    if s.recs[p].freed { return []; }
    assert s.threads[z].pc == Idle && Limbo(s.threads[z]) == s.threads[z].retired;
    StepKeepsTrap(s, z, Empty, n, p, z, v, e);
    var s1 := Step(s, z, Empty);
    OnlyMover(s, z, Empty);
    StepMemory(s, z, Empty);
    StepKeepsBasic(s, z, Empty);
    assert NextPC(s, z, Empty) == StartScan(s, None) && s1.threads[z].retired == s.threads[z].retired;
    assert Collecting(s1, n, p, z, v, e) by { hide Step, NextPC, Basic, Trap; }
    assert LinkedMove(s, Turn(z, Empty));
    hide Step, NextPC, Basic, Trap, Collecting, LinkedMove, LinkedFrom;
    var rest := Collect(s1, n, p, z, v, e);
    LinkedThen(s, Turn(z, Empty), rest);
    moves := [Turn(z, Empty)] + rest;
  }

  lemma GoesToFreed(s: State, n: nat, p: nat, z: nat, v: nat, e: nat)
    requires Trap(s, n, p, z, v, e) && s.recs[p].freed && Basic(s)
    ensures Continue(s, [Turn(v, Go)]).Some? && LinkedFrom(s, [Turn(v, Go)])
    ensures var s' := Continue(s, [Turn(v, Go)]).value;
            v < |s'.threads| && p in Touched(s', v) && p < |s'.recs| && s'.recs[p].freed
  {
    var pc := s.threads[v].pc;
    var s' := Goto(s, v, pc.(cur := Some(p)));
    TurnMakes(s, v, Go, s');
    assert LinkedMove(s, Turn(v, Go));
    hide Basic, LinkedMove, LinkedFrom;
    LinkedOne(s, Turn(v, Go));
  }

  // ---- the result ---------------------------------------------------------------------

  lemma {:induction false} SuccessorOf(recs: seq<Record>, p: nat, h: nat) returns (x: nat)
    requires Chained(recs) && p < h < |recs| && SameBucket(recs, p, h)
    ensures x < |recs| && Follows(recs, x, p) && x <= h
    decreases h
  {
    assert Linked(recs, h);
    var y := recs[h].next.value;
    if y == p { return h; }
    x := SuccessorOf(recs, p, y);
  }

  /** Who overwrote p is the only one to retire it. */
  lemma OwnerRetires(s: State, u: nat, p: nat, x: nat)
    requires Inv(s) && u < |s.threads| && p < |s.recs| && x < |s.recs| && Follows(s.recs, x, p)
    ensures Target(s.threads[u].pc) == Some(p) ==> RE(s.recs, p) == 0 && OwnRecord(s.threads[u].pc) == Some(x)
    ensures OwnRecord(s.threads[u].pc) == Some(x) ==> Retires(s.threads[u].pc, p, x)
  {
    ThreadOf(s, u);
    ChainOf(s);
    var pc := s.threads[u].pc;
    hide Inv, RecordsInv, LimboInv, Protected, Chained;
    if Target(pc) == Some(p) { OneSuccessor(s.recs, OwnRecord(pc).value, x, p); }
  }

  lemma UnlinkedPush(s: State, m: Move) returns (p: nat, x: nat)
    requires Inv(s) && AllResting(s) && Allowed(s, m) && !LinkedMove(s, m)
    ensures var w, s', n := s.threads[m.t].pc.w, Apply(s, m), |s.recs|;
            && !w.op.View? && Pushed1(s', n, p, m.t, w.op.bucket) && w.head != Some(p)
            && s'.recs == s.recs + [Candidate(w)]
            && s'.epoch == s.epoch && |s'.threads| == |s.threads| && OwnRecord(s.threads[m.t].pc) == None
            && w.next == Some(p) && p < |s.recs| && x < |s.recs| && Follows(s.recs, x, p)
            && (forall u :: 0 <= u < |s.threads| && u != m.t ==> s'.threads[u] == s.threads[u])
            && s'.threads[m.t].retired == s.threads[m.t].retired && Doomed(s.threads[m.t].pc) == []
            && Doomed(s'.threads[m.t].pc) == [] && Target(s'.threads[m.t].pc) == w.head
  {
    var t, w, s', n := m.t, s.threads[m.t].pc.w, Apply(s, m), |s.recs|;
    assert ThreadOK(s, t);
    assert HeadOK(s, w.op.bucket);
    LinkedPushExactly(s, t);
    ApplyKeepsBasic(s, m);
    StepKeepsResting(s, t, m.c);
    OnlyMover(s, t, m.c);
    EpochPositive(s);
    ChainOf(s);
    p := w.next.value;
    hide Inv, Basic, AllResting, Chained;
    x := SuccessorOf(s.recs, p, w.head.value);
  }

  /** After the push: p is retired, or the thread that overwrote it is run until it retires it. */
  lemma RetireFirst(s: State, m: Move) returns (moves: seq<Move>, n: nat, p: nat, b: nat, z: nat)
    requires Inv(s) && Accounted(s) && Allowed(s, m) && !LinkedMove(s, m)
    ensures m.Turn? && Basic(Apply(s, m)) && Continue(Apply(s, m), moves).Some?
    ensures LinkedFrom(Apply(s, m), moves)
    ensures var s'' := Continue(Apply(s, m), moves).value; Pushed1(s'', n, p, m.t, b) && Loose(s'', n, p, z)
  {
    var x;
    p, x := UnlinkedPush(s, m);
    n, b := |s.recs|, s.threads[m.t].pc.w.op.bucket;
    assert Due(s, x) && Kept(s, p);
    if RE(s.recs, p) == 0 {
      z :| 0 <= z < |s.threads| && OwnRecord(s.threads[z].pc) == Some(x);
      hide Inv, Accounted, Basic, LinkedMove, Loose, Pushed1;
      moves := RetireNow(s, m, p, x, z);
    } else {
      z := RetiredBefore(s, m, p, x);
      moves := [];
      hide Inv, Accounted, Basic, LinkedMove, Loose;
    }
  }

  lemma RetireNow(s: State, m: Move, p: nat, x: nat, z: nat) returns (moves: seq<Move>)
    requires Inv(s) && AllResting(s) && Allowed(s, m) && !LinkedMove(s, m)
    requires p < |s.recs| && x < |s.recs| && Follows(s.recs, x, p) && RE(s.recs, p) == 0
    requires z < |s.threads| && OwnRecord(s.threads[z].pc) == Some(x) && !s.threads[m.t].pc.w.op.View?
    requires Pushed1(Apply(s, m), |s.recs|, p, m.t, s.threads[m.t].pc.w.op.bucket)
    requires s.threads[m.t].pc.w.head != Some(p)
    ensures Basic(Apply(s, m)) && Continue(Apply(s, m), moves).Some? && LinkedFrom(Apply(s, m), moves)
    ensures var s'' := Continue(Apply(s, m), moves).value;
            Pushed1(s'', |s.recs|, p, m.t, s.threads[m.t].pc.w.op.bucket) && Loose(s'', |s.recs|, p, z)
  {
    var n, b := |s.recs|, s.threads[m.t].pc.w.op.bucket;
    OnlyRetirer(s, m, p, x, z);
    RetirerFacts(Apply(s, m), n, p, m.t, b, z, x);
    hide *;
    moves := RunToRetire(Apply(s, m), n, p, m.t, b, z, x);
    RetiredIsLoose(Continue(Apply(s, m), moves).value, n, p, m.t, b, z, x);
  }

  lemma RetirerFacts(s: State, n: nat, p: nat, q: nat, b: nat, z: nat, x: nat)
    requires Retirer(s, n, p, q, b, z, x)
    ensures Basic(s) && z < |s.threads| && p < |s.recs|
  {
    hide Basic, AllResting;
  }

  /** If p has been retired already, then it is freed or some thread has it. */
  lemma RetiredBefore(s: State, m: Move, p: nat, x: nat) returns (z: nat)
    requires Inv(s) && Accounted(s) && Allowed(s, m) && !LinkedMove(s, m)
    requires p < |s.recs| && x < |s.recs| && Follows(s.recs, x, p) && RE(s.recs, p) != 0
    requires s.threads[m.t].pc.w.next == Some(p)
    ensures Loose(Apply(s, m), |s.recs|, p, z)
  {
    z := KeeperOf(s, m.t, p);
    hide Inv, Basic, AllResting, Target, Continue, LinkedMove, Accounted, Apply, Allowed, Due;
    var p', x' := UnlinkedPush(s, m);
    PushedRetirer(s, m, p, x);
  }

  /** A thread that has a retired record in its garbage, unless the record is freed. */
  lemma KeeperOf(s: State, t: nat, p: nat) returns (z: nat)
    requires Inv(s) && Accounted(s) && p < |s.recs| && RE(s.recs, p) != 0
    ensures Basic(s)
    ensures !s.recs[p].freed ==> z < |s.threads| && p in Limbo(s.threads[z])
    ensures s.recs[p].freed ==> z == t
  {
    assert Kept(s, p) && Basic(s);
    z := t;
    hide Inv, Basic, Accounted, Due;
    if !s.recs[p].freed {
      z :| 0 <= z < |s.threads| && p in Limbo(s.threads[z]);
    }
  }

  lemma RetiredIsLoose(s: State, n: nat, p: nat, q: nat, b: nat, z: nat, x: nat)
    requires Retirer(s, n, p, q, b, z, x) && p < |s.recs| && RE(s.recs, p) != 0
    ensures Pushed1(s, n, p, q, b) && Loose(s, n, p, z)
  {
    hide Basic, AllResting, Limbo, Target, Retires;
  }

  lemma PushedRetirer(s: State, m: Move, p: nat, x: nat)
    requires Inv(s) && Allowed(s, m) && !LinkedMove(s, m) && p < |s.recs| && x < |s.recs| && Follows(s.recs, x, p)
    ensures forall u :: 0 <= u < |s.threads| && RE(s.recs, p) != 0 ==> Target(s.threads[u].pc) != Some(p)
    ensures RE(s.recs, p) <= s.epoch
  {
    forall u | 0 <= u < |s.threads| && RE(s.recs, p) != 0 ensures Target(s.threads[u].pc) != Some(p) {
      OwnerRetires(s, u, p, x);
    }
    ThreadOf(s, m.t);
    hide Basic, ThreadInv, SafeFrom, Apart, Target;
  }

  lemma OnlyRetirer(s: State, m: Move, p: nat, x: nat, z: nat)
    requires Inv(s) && AllResting(s) && Allowed(s, m) && !LinkedMove(s, m)
    requires p < |s.recs| && x < |s.recs| && Follows(s.recs, x, p) && RE(s.recs, p) == 0
    requires z < |s.threads| && OwnRecord(s.threads[z].pc) == Some(x) && !s.threads[m.t].pc.w.op.View?
    requires Pushed1(Apply(s, m), |s.recs|, p, m.t, s.threads[m.t].pc.w.op.bucket)
    requires s.threads[m.t].pc.w.head != Some(p)
    ensures Retirer(Apply(s, m), |s.recs|, p, m.t, s.threads[m.t].pc.w.op.bucket, z, x)
  {
    var p', x' := UnlinkedPush(s, m);
    var s' := Apply(s, m);
    OwnerRetires(s, z, p, x);
    assert z != m.t;
    forall u | 0 <= u < |s'.threads| && u != z ensures Target(s'.threads[u].pc) != Some(p) {
      if u != m.t {
        OwnerRetires(s, u, p, x);
        ApartOf(s, z, u);
      }
    }
    hide Inv, Basic, AllResting, Target, Retires;
  }

  /** After an unlinked push, linked moves alone lead to a step that touches a freed record. */
  lemma FreedTooEarly(s: State, m: Move) returns (more: seq<Move>, t: nat, r: nat)
    requires Inv(s) && Accounted(s) && Basic(s) && Allowed(s, m) && !LinkedMove(s, m)
    ensures Basic(Apply(s, m)) && Continue(Apply(s, m), more).Some? && LinkedFrom(Apply(s, m), more)
    ensures var s' := Continue(Apply(s, m), more).value;
            t < |s'.threads| && r in Touched(s', t) && r < |s'.recs| && s'.recs[r].freed
  {
    hide *;
    var retire, n, p, b, z := RetireFirst(s, m);
    var s1 := Continue(Apply(s, m), retire).value;
    var trap, v, e := SetTrap(s1, n, p, m.t, b, z);
    var s2 := Continue(s1, trap).value;
    var spring := SpringTrap(s2, n, p, z, v, e);
    more, t, r := retire + trap + spring, v, p;
    LinkedOn(Apply(s, m), retire, trap);
    LinkedOn(Apply(s, m), retire + trap, spring);
  }

  /** In a run whose pushes were linked so far, let a push be not linked.  Then the run can go on, with
      linked pushes only, to a step that touches a record that has been freed. */
  lemma UnlinkedPushFreesTooEarly(buckets: nat, moves: seq<Move>, m: Move) returns (more: seq<Move>, t: nat, r: nat)
    requires Exec(buckets, moves).Some? && LinkedRun(buckets, moves)
    requires Allowed(Exec(buckets, moves).value, m) && !LinkedMove(Exec(buckets, moves).value, m)
    ensures Exec(buckets, moves + [m]).Some? && Exec(buckets, moves + [m] + more).Some?
    ensures Continue(Exec(buckets, moves + [m]).value, more).Some?
            && LinkedFrom(Exec(buckets, moves + [m]).value, more)
    ensures var s := Exec(buckets, moves + [m] + more).value;
            t < |s.threads| && r in Touched(s, t) && r < |s.recs| && s.recs[r].freed
  {
    var s := Exec(buckets, moves).value;
    LinkedRunsKeepInv(buckets, moves);
    LinkedRunsAccount(buckets, moves);
    assert Basic(s);
    hide *;
    more, t, r := FreedTooEarly(s, m);
    ContinueOne(s, m);
    RunOn(buckets, moves, [m]);
    RunOn(buckets, moves + [m], more);
  }

  lemma RunOn(buckets: nat, moves: seq<Move>, more: seq<Move>)
    requires Exec(buckets, moves).Some? && Continue(Exec(buckets, moves).value, more).Some?
    ensures Exec(buckets, moves + more) == Continue(Exec(buckets, moves).value, more)
  {
    ContinueOn(Init(buckets), moves, more);
  }

  // ---- linked pushes are needed and enough --------------------------------------------

  /** However the threads go on, as long as all pushes are linked no step touches a freed record. */
  ghost predicate StaysSafe(s: State)
    requires Basic(s)
  {
    forall more: seq<Move>, t: nat, r: nat ::
      Continue(s, more).Some? && LinkedFrom(s, more) && t < |Continue(s, more).value.threads|
      && r in Touched(Continue(s, more).value, t) ==>
        r < |Continue(s, more).value.recs| && !Continue(s, more).value.recs[r].freed
  }

  lemma InvStaysSafe(s: State)
    requires Inv(s)
    ensures Basic(s) && StaysSafe(s)
  {
    assert Basic(s);
    hide Inv, Basic, Continue, LinkedFrom, Touched;
    forall more: seq<Move>, t: nat, r: nat |
      Continue(s, more).Some? && LinkedFrom(s, more) && t < |Continue(s, more).value.threads|
      && r in Touched(Continue(s, more).value, t)
      ensures r < |Continue(s, more).value.recs| && !Continue(s, more).value.recs[r].freed
    {
      LinkedKeepsInv(s, more);
      TouchedIsLive(Continue(s, more).value, t, r);
    }
  }

  /** After a linked run, a move is linked if and only if memory stays safe after it. */
  lemma LinkedMoveExactly(s: State, m: Move)
    requires Inv(s) && Accounted(s) && Basic(s) && Allowed(s, m)
    ensures Basic(Apply(s, m)) && (LinkedMove(s, m) <==> StaysSafe(Apply(s, m)))
  {
    ApplyKeepsBasic(s, m);
    hide Inv, Accounted, Basic, Allowed, LinkedMove, Apply, Continue, LinkedFrom, Touched;
    if LinkedMove(s, m) {
      MoveKeepsInv(s, m);
      InvStaysSafe(Apply(s, m));
    } else {
      var more, t, r := FreedTooEarly(s, m);
    }
  }

  /** Freed memory stays untouched exactly in linked runs: every push of a run is linked if and only if,
      from each of its states, no schedule of linked pushes leads to a step that touches a freed record. */
  lemma {:induction false} SafeExactlyInLinkedRuns(buckets: nat, moves: seq<Move>)
    requires Exec(buckets, moves).Some?
    ensures LinkedRun(buckets, moves)
        <==> forall k :: 0 <= k <= |moves| ==>
               Exec(buckets, moves[..k]).Some? && StaysSafe(Exec(buckets, moves[..k]).value)
  {
    hide LinkedMove, Inv, Accounted, Basic, StaysSafe, Apply, Allowed;
    assert moves[..|moves|] == moves;
    if moves == [] {
      InitInv(buckets);
      InvStaysSafe(Init(buckets));
    } else {
      var n := |moves| - 1;
      var before, m := moves[..n], moves[n];
      SafeExactlyInLinkedRuns(buckets, before);
      assert forall k :: 0 <= k <= n ==> moves[..k] == before[..k];
      if LinkedRun(buckets, before) {
        LinkedRunsKeepInv(buckets, before);
        LinkedRunsAccount(buckets, before);
        LinkedMoveExactly(Exec(buckets, before).value, m);
      }
    }
  }

  lemma {:induction false} FirstUnlinked(buckets: nat, moves: seq<Move>) returns (k: nat)
    requires Exec(buckets, moves).Some? && !LinkedRun(buckets, moves)
    ensures k < |moves| && Exec(buckets, moves[..k]).Some? && LinkedRun(buckets, moves[..k])
    ensures var s := Exec(buckets, moves[..k]).value; Allowed(s, moves[k]) && !LinkedMove(s, moves[k])
  {
    assert moves != [];
    k := |moves| - 1;
    hide LinkedMove, Basic, Apply, Allowed;
    if !LinkedRun(buckets, moves[..k]) {
      k := FirstUnlinked(buckets, moves[..k]);
      assert moves[..|moves| - 1][..k] == moves[..k];
    }
  }

  /** A run that is not linked has a first push that is not, and from there linked pushes alone lead to
      freed memory. */
  lemma RunsThatAreNotLinkedEndanger(buckets: nat, moves: seq<Move>)
    returns (k: nat, more: seq<Move>, t: nat, r: nat)
    requires Exec(buckets, moves).Some? && !LinkedRun(buckets, moves)
    ensures k < |moves| && Exec(buckets, moves[..k]).Some? && LinkedRun(buckets, moves[..k])
    ensures var s := Exec(buckets, moves[..k]).value; Allowed(s, moves[k]) && !LinkedMove(s, moves[k])
    ensures Exec(buckets, moves[..k + 1]).Some?
            && Continue(Exec(buckets, moves[..k + 1]).value, more).Some?
            && LinkedFrom(Exec(buckets, moves[..k + 1]).value, more)
    ensures var s := Continue(Exec(buckets, moves[..k + 1]).value, more).value;
            t < |s.threads| && r in Touched(s, t) && r < |s.recs| && s.recs[r].freed
  {
    k := FirstUnlinked(buckets, moves);
    hide *;
    more, t, r := UnlinkedPushFreesTooEarly(buckets, moves[..k], moves[k]);
    assert moves[..k + 1] == moves[..k] + [moves[k]];
    RunOn(buckets, moves[..k + 1], more);
  }
}
