/** A view that a new thread runs alone, and what it returns after a push that is not clean.  It shows
    that clean pushes are not only enough for snapshots but needed. */
module LohatLoneView {
  import opened Options
  import opened LohatModel
  import opened LohatBasic
  import opened LohatInvariant
  import opened LohatMover
  import opened LohatEpochs
  import opened LohatReplay
  import opened LohatSafety
  import opened LohatSnapshot
  import opened LohatTheorems
  import opened LohatAlone

  // ---- the steps of a lone view -------------------------------------------------------

  predicate ViewPC(pc: PC)
  {
    Viewing(pc) && (pc.HelpLoading? || pc.HelpBumping? || pc.HelpSwapping? ==> pc.k.rec == pc.rec)
  }

  /** Thread t has moved, and of memory only write epochs outside bucket b and the counter have
      changed. */
  ghost predicate Frame(s: State, s': State, t: nat, b: nat)
  {
    && |s'.threads| == |s.threads| && s'.reservations == s.reservations && s'.heads == s.heads
    && (forall u :: 0 <= u < |s.threads| && u != t ==> s'.threads[u] == s.threads[u])
    && s.epoch <= s'.epoch && |s'.recs| == |s.recs|
    && (forall r :: 0 <= r < |s.recs| ==> s'.recs[r] == s.recs[r].(writeEpoch := WE(s'.recs, r)))
    && (forall r :: 0 <= r < |s.recs| && s.recs[r].bucket == b ==> WE(s'.recs, r) == WE(s.recs, r))
    && (t < |s.threads| ==> s'.threads[t].retired == s.threads[t].retired)
  }

  lemma ViewStep(s: State, t: nat, b: nat)
    requires Basic(s) && t < |s.threads| && ViewPC(s.threads[t].pc) && !s.threads[t].pc.Viewed?
    requires b != |ViewGot(s.threads[t].pc)|
    ensures Enabled(s, t, Go) && Frame(s, Step(s, t, Go), t, b)
    ensures var pc, pc' := s.threads[t].pc, Step(s, t, Go).threads[t].pc;
            && ViewPC(pc') && ViewEpoch(pc') == ViewEpoch(pc)
            && (if pc'.ViewBucket?
                then |ViewGot(pc')| == |ViewGot(pc)| + 1 && ViewGot(pc')[..|ViewGot(pc)|] == ViewGot(pc)
                else ViewGot(pc') == ViewGot(pc) && (pc'.Viewed? ==> |ViewGot(pc)| == |s.heads|))
  {
    assert ThreadOK(s, t);
    OnlyMover(s, t, Go);
    ViewEffect(s, t, b);
    hide Step;
  }

  lemma ViewEffect(s: State, t: nat, b: nat)
    requires Basic(s) && t < |s.threads| && ViewPC(s.threads[t].pc) && !s.threads[t].pc.Viewed?
    requires b != |ViewGot(s.threads[t].pc)| && Enabled(s, t, Go)
    ensures Frame(s, Step(s, t, Go), t, b)
  {
    assert ThreadOK(s, t);
    hide NextPC;
  }

  lemma FrameOn(s: State, s1: State, s2: State, t: nat, b: nat)
    requires Frame(s, s1, t, b) && Frame(s1, s2, t, b)
    ensures Frame(s, s2, t, b)
  {
  }

  lemma FrameSame(s: State, t: nat, b: nat)
    ensures Frame(s, s, t, b)
  {
  }

  lemma TurnAllowed(s: State, t: nat)
    requires Enabled(s, t, Go)
    ensures Allowed(s, Turn(t, Go))
  {
  }

  /** The view goes on to bucket k, which is not beyond b unless it was already. */
  lemma {:induction false} WalkTo(s: State, t: nat, k: nat, b: nat) returns (moves: seq<Move>)
    requires Basic(s) && t < |s.threads| && ViewPC(s.threads[t].pc) && !s.threads[t].pc.Viewed?
    requires |ViewGot(s.threads[t].pc)| <= k <= |s.heads|
    requires |ViewGot(s.threads[t].pc)| == k ==> s.threads[t].pc.ViewBucket?
    requires b < |ViewGot(s.threads[t].pc)| || k <= b
    ensures Alone(moves, t) && Continue(s, moves).Some?
    ensures var pc, s' := s.threads[t].pc, Continue(s, moves).value;
            && Frame(s, s', t, b) && s'.threads[t].pc.ViewBucket? && s'.threads[t].pc.epoch == ViewEpoch(pc)
            && |s'.threads[t].pc.got| == k && s'.threads[t].pc.got[..|ViewGot(pc)|] == ViewGot(pc)
    decreases Left(s, s.threads[t].pc), Depth(s, s.threads[t].pc)
  {
    hide Basic, Step, Frame, Stage, Depth, Left, Allowed;
    var pc := s.threads[t].pc;
    if |ViewGot(pc)| == k {
      FrameSame(s, t, b);
      return [];
    }
    ViewStep(s, t, b);
    ComesNearer(s, t);
    var s1 := Step(s, t, Go);
    StepKeepsBasic(s, t, Go);
    LeftIsNat(s, t);
    StagesOfView(s, pc, s1, s1.threads[t].pc);
    WalkKeepsThreads(s, s1, t, b);
    assert Allowed(s, Turn(t, Go)) by { TurnAllowed(s, t); }
    var rest := WalkTo(s1, t, k, b);
    ContinueThen(s, Turn(t, Go), rest);
    moves := [Turn(t, Go)] + rest;
    FrameOn(s, s1, Continue(s1, rest).value, t, b);
  }

  lemma StagesOfView(s: State, pc: PC, s': State, pc': PC)
    requires Viewing(pc) && Viewing(pc') && !pc.Viewed? && !pc'.Viewed?
    ensures Stage(s, pc) == Stage(s', pc') == 3
  {
  }

  /** A new thread, where it has just begun a view. */
  function Begun(s: State): State
    requires |s.reservations| == |s.threads|
  {
    var r := Register(s);
    Goto(Reserve(r, |s.threads|, Some(s.epoch)), |s.threads|, ViewBucket(s.epoch, []))
  }

  predicate LoneView(moves: seq<Move>, t: nat)
  {
    forall k :: 0 <= k < |moves| ==>
      if k == 0 then moves[k] == Join else moves[k] == Turn(t, Go) || moves[k] == Turn(t, Start(View))
  }

  lemma TurnMakes(s: State, t: nat, c: Choice, s': State)
    requires Basic(s) && Enabled(s, t, c) && s' == Goto(Effect(s, t, c), t, NextPC(s, t, c))
    ensures Basic(s') && Continue(s, [Turn(t, c)]) == Some(s')
  {
    StepKeepsBasic(s, t, c);
    hide Basic, Effect, NextPC;
    ContinueOne(s, Turn(t, c));
  }

  lemma Begin(s: State) returns (moves: seq<Move>)
    requires Basic(s)
    ensures moves == [Join, Turn(|s.threads|, Go), Turn(|s.threads|, Start(View)), Turn(|s.threads|, Go),
                      Turn(|s.threads|, Go)]
    ensures Continue(s, moves) == Some(Begun(s))
  {
    var t := |s.threads|;
    var s0 := Register(s);
    RegisterKeepsBasic(s);
    ContinueOne(s, Join);
    var s1 := Goto(Reserve(s0, t, None), t, Idle);
    TurnMakes(s0, t, Go, s1);
    var s2 := Goto(s1, t, EpochLoaded(View, s.epoch));
    TurnMakes(s1, t, Start(View), s2);
    var s3 := Goto(Reserve(s2, t, Some(s.epoch)), t, Reserved(View));
    TurnMakes(s2, t, Go, s3);
    var s4 := Goto(s3, t, ViewBucket(s.epoch, []));
    TurnMakes(s3, t, Go, s4);
    hide Basic, Register;
    ContinueOn(s, [Join], [Turn(t, Go)]);
    ContinueOn(s, [Join] + [Turn(t, Go)], [Turn(t, Start(View))]);
    ContinueOn(s, [Join] + [Turn(t, Go)] + [Turn(t, Start(View))], [Turn(t, Go)]);
    ContinueOn(s, [Join] + [Turn(t, Go)] + [Turn(t, Start(View))] + [Turn(t, Go)], [Turn(t, Go)]);
    moves := [Join] + [Turn(t, Go)] + [Turn(t, Start(View))] + [Turn(t, Go)] + [Turn(t, Go)];
    assert s4 == Begun(s) by { SameBegun(s, s1, s2, s3, s4); }
  }

  lemma SameBegun(s: State, s1: State, s2: State, s3: State, s4: State)
    requires |s.reservations| == |s.threads|
    requires var t := |s.threads|;
             && s1 == Goto(Reserve(Register(s), t, None), t, Idle)
             && s2 == Goto(s1, t, EpochLoaded(View, s.epoch))
             && s3 == Goto(Reserve(s2, t, Some(s.epoch)), t, Reserved(View))
             && s4 == Goto(s3, t, ViewBucket(s.epoch, []))
    ensures s4 == Begun(s)
  {
    assert s4.threads == Begun(s).threads && s4.reservations == Begun(s).reservations;
  }

  /** At a bucket whose head has no epoch, the view gives it a later one than its own and stands on
      it. */
  function Helped(s: State, t: nat, n: nat): State
    requires t < |s.threads| && s.threads[t].pc.ViewBucket? && n < |s.recs|
  {
    var pc := s.threads[t].pc;
    Goto(Commit(s.(epoch := s.epoch + 1), n, s.epoch + 1), t, Descending(pc.epoch, pc.got, Some(n)))
  }

  lemma Help(s: State, t: nat, n: nat) returns (moves: seq<Move>)
    requires Basic(s) && t < |s.threads| && s.threads[t].pc.ViewBucket?
    requires var b := |s.threads[t].pc.got|; b < |s.heads| && s.heads[b] == Some(n)
    requires n < |s.recs| && WE(s.recs, n) == 0
    ensures Alone(moves, t) && Continue(s, moves) == Some(Helped(s, t, n))
  {
    var s2 := HelpLoads(s, t, n);
    HelpCommits(s, s2, t, n);
    hide Basic, Continue, Effect, NextPC, Enabled;
    ContinueOn(s, [Turn(t, Go)] + [Turn(t, Go)], [Turn(t, Go)] + [Turn(t, Go)]);
    moves := [Turn(t, Go)] + [Turn(t, Go)] + ([Turn(t, Go)] + [Turn(t, Go)]);
  }

  lemma HelpLoads(s: State, t: nat, n: nat) returns (s2: State)
    requires Basic(s) && t < |s.threads| && s.threads[t].pc.ViewBucket?
    requires var b := |s.threads[t].pc.got|; b < |s.heads| && s.heads[b] == Some(n)
    requires n < |s.recs| && WE(s.recs, n) == 0
    ensures var pc := s.threads[t].pc; s2 == Goto(s, t, HelpBumping(n, ThenDescend(pc.epoch, pc.got, n)))
    ensures Basic(s2) && Continue(s, [Turn(t, Go)] + [Turn(t, Go)]) == Some(s2)
  {
    var pc := s.threads[t].pc;
    var k := ThenDescend(pc.epoch, pc.got, n);
    var s1 := Goto(s, t, HelpLoading(n, k));
    TurnMakes(s, t, Go, s1);
    s2 := Goto(s1, t, HelpBumping(n, k));
    TurnMakes(s1, t, Go, s2);
    hide Basic, Continue, Effect, NextPC, Enabled;
    ContinueOn(s, [Turn(t, Go)], [Turn(t, Go)]);
    assert s2.threads == Goto(s, t, HelpBumping(n, k)).threads;
  }

  lemma HelpCommits(s: State, s2: State, t: nat, n: nat)
    requires Basic(s2) && t < |s.threads| && s.threads[t].pc.ViewBucket? && n < |s.recs| && WE(s.recs, n) == 0
    requires var pc := s.threads[t].pc; s2 == Goto(s, t, HelpBumping(n, ThenDescend(pc.epoch, pc.got, n)))
    ensures Continue(s2, [Turn(t, Go)] + [Turn(t, Go)]) == Some(Helped(s, t, n))
  {
    var pc := s.threads[t].pc;
    var k := ThenDescend(pc.epoch, pc.got, n);
    var s3 := Goto(s2.(epoch := s.epoch + 1), t, HelpSwapping(n, s.epoch + 1, k));
    TurnMakes(s2, t, Go, s3);
    var s4 := Goto(Commit(s3, n, s.epoch + 1), t, Descending(pc.epoch, pc.got, Some(n)));
    TurnMakes(s3, t, Go, s4);
    hide Basic, Continue, Effect, NextPC, Enabled;
    ContinueOn(s2, [Turn(t, Go)], [Turn(t, Go)]);
    assert s4.threads == Helped(s, t, n).threads;
  }

  /** A view that stands on cur goes down to the first record of its epoch; it cannot come up. */
  lemma {:induction false} GoDown(s: State, t: nat) returns (moves: seq<Move>, r: Option<nat>)
    requires Basic(s) && t < |s.threads| && s.threads[t].pc.Descending?
    ensures var pc := s.threads[t].pc;
            && (r.Some? ==> pc.cur.Some? && r.value <= pc.cur.value)
            && (pc.cur.Some? && pc.cur.value < |s.recs| && WE(s.recs, pc.cur.value) == 0 ==> r == pc.cur)
            && Alone(moves, t) && Continue(s, moves) == Some(Goto(s, t, ViewBucket(pc.epoch, pc.got + [r])))
    decreases Depth(s, s.threads[t].pc)
  {
    assert ThreadOK(s, t);
    var pc := s.threads[t].pc;
    if pc.cur.None? {
      r := None;
      TurnMakes(s, t, Go, Goto(s, t, ViewBucket(pc.epoch, pc.got + [r])));
      moves := [Turn(t, Go)];
    } else if WE(s.recs, pc.cur.value) <= pc.epoch {
      r := pc.cur;
      var s1 := Goto(s, t, Taking(pc.epoch, pc.got, r.value));
      TurnMakes(s, t, Go, s1);
      var s2 := Goto(s1, t, ViewBucket(pc.epoch, pc.got + [r]));
      TurnMakes(s1, t, Go, s2);
      hide Basic;
      ContinueOn(s, [Turn(t, Go)], [Turn(t, Go)]);
      moves := [Turn(t, Go)] + [Turn(t, Go)];
      assert s2.threads == Goto(s, t, ViewBucket(pc.epoch, pc.got + [r])).threads;
    } else {
      assert RecordOK(s, pc.cur.value);
      var s1 := Goto(s, t, pc.(cur := s.recs[pc.cur.value].next));
      TurnMakes(s, t, Go, s1);
      hide Basic;
      var rest;
      rest, r := GoDown(s1, t);
      ContinueOn(s, [Turn(t, Go)], rest);
      moves := [Turn(t, Go)] + rest;
      assert Goto(s1, t, ViewBucket(pc.epoch, pc.got + [r])).threads
          == Goto(s, t, ViewBucket(pc.epoch, pc.got + [r])).threads;
    }
  }

  // ---- a whole lone view --------------------------------------------------------------

  /** The state in which the lone view of thread t stands on the head n of bucket b, which it had to
      help. */
  ghost predicate OnHead(s: State, s': State, t: nat, b: nat, n: nat)
  {
    && t == |s.threads| && |s'.threads| == t + 1 && s'.heads == s.heads && |s'.recs| == |s.recs|
    && |s'.reservations| == t + 1 && |s.reservations| == t && s'.reservations == s.reservations + [Some(s.epoch)]
    && s'.threads[..t] == s.threads && s.epoch <= s'.epoch
    && (forall r :: 0 <= r < |s.recs| ==> s'.recs[r] == s.recs[r].(writeEpoch := WE(s'.recs, r)))
    && (forall r :: 0 <= r < |s.recs| && s.recs[r].bucket == b && r != n ==> WE(s'.recs, r) == WE(s.recs, r))
    && n < |s.recs| && s.epoch < WE(s'.recs, n)
    && s'.threads[t].pc.Descending? && s'.threads[t].pc.epoch == s.epoch && s'.threads[t].pc.cur == Some(n)
    && |s'.threads[t].pc.got| == b && s'.threads[t].retired == []
  }

  /** A new thread starts a view and comes to stand on the head of bucket b. */
  lemma ReachHead(s: State, b: nat, n: nat) returns (moves: seq<Move>)
    requires Basic(s) && b < |s.heads| && s.heads[b] == Some(n) && n < |s.recs| && WE(s.recs, n) == 0
    ensures LoneView(moves, |s.threads|) && moves != []
    ensures Continue(s, moves).Some? && OnHead(s, Continue(s, moves).value, |s.threads|, b, n)
  {
    var t := |s.threads|;
    assert s.recs[n].bucket == b by { assert HeadOK(s, b); }
    var begin := Begin(s);
    var s1 := Begun(s);
    assert LoneView(begin, t);
    hide Basic, HeadOK, Frame, OnHead, Continue, LoneView, Alone;
    var walk := WalkTo(s1, t, b, b);
    var s2 := Continue(s1, walk).value;
    WalkKeepsHead(s1, s2, t, b, n);
    var help := Help(s2, t, n);
    hide Apply, Allowed, Begun, Helped;
    ContinueOn(s, begin, walk);
    ContinueOn(s, begin + walk, help);
    moves := begin + walk + help;
    AloneIsLone(begin, walk, t);
    AloneIsLone(begin + walk, help, t);
    ReachedHead(s, s1, s2, Helped(s2, t, n), b, n);
  }

  lemma WalkKeepsHead(s1: State, s2: State, t: nat, b: nat, n: nat)
    requires Frame(s1, s2, t, b) && n < |s1.recs| && s1.recs[n].bucket == b
    ensures s2.heads == s1.heads && |s2.recs| == |s1.recs| && WE(s2.recs, n) == WE(s1.recs, n)
    ensures |s2.threads| == |s1.threads|
  {
  }

  lemma ReachedHead(s: State, s1: State, s2: State, s3: State, b: nat, n: nat)
    requires |s.reservations| == |s.threads| && s1 == Begun(s) && Frame(s1, s2, |s.threads|, b)
    requires n < |s.recs| && s.recs[n].bucket == b && WE(s.recs, n) == 0
    requires |s.threads| < |s2.threads| && s2.threads[|s.threads|].pc.ViewBucket? && n < |s2.recs|
    requires s2.threads[|s.threads|].pc.epoch == s.epoch && |s2.threads[|s.threads|].pc.got| == b
    requires s3 == Helped(s2, |s.threads|, n)
    ensures OnHead(s, s3, |s.threads|, b, n)
  {
    var t := |s.threads|;
    assert s1.recs == s.recs && s1.heads == s.heads && s1.epoch == s.epoch;
    assert s1.threads[..t] == s.threads && s1.reservations == s.reservations + [Some(s.epoch)];
    assert forall u :: 0 <= u < t ==> s2.threads[u] == s1.threads[u];
    assert s3.threads[..t] == s.threads;
  }

  lemma {:induction false} AloneIsLone(lone: seq<Move>, moves: seq<Move>, t: nat)
    requires LoneView(lone, t) && lone != [] && Alone(moves, t)
    ensures LoneView(lone + moves, t)
  {
  }

  lemma OneAlone(t: nat)
    ensures Alone([Turn(t, Go)], t)
  {
  }

  /** What the lone view of thread t returns for bucket b is found by descent from below its head. */
  ghost predicate Returned(s: State, s': State, t: nat, b: nat, n: nat)
  {
    && t < |s'.threads| && s'.threads[t].pc.Viewed? && s'.threads[t].pc.epoch == s.epoch
    && s'.heads == s.heads && |s'.recs| == |s.recs| && n < |s.recs| && s.epoch < WE(s'.recs, n)
    && (forall r :: 0 <= r < |s.recs| ==> s'.recs[r].bucket == s.recs[r].bucket)
    && (forall r :: 0 <= r < |s.recs| && s.recs[r].bucket == b && r != n ==> WE(s'.recs, r) == WE(s.recs, r))
    && b < |s'.threads[t].pc.got|
    && var r, below := s'.threads[t].pc.got[b], s.recs[n].next;
       && (r.Some? ==> below.Some? && r.value <= below.value)
       && (below.Some? && below.value < |s.recs| && WE(s.recs, below.value) == 0 ==> r == below)
  }

  lemma ViewAlone(s: State, b: nat, n: nat) returns (moves: seq<Move>)
    requires Basic(s) && b < |s.heads| && s.heads[b] == Some(n) && n < |s.recs| && WE(s.recs, n) == 0
    ensures LoneView(moves, |s.threads|)
    ensures Continue(s, moves).Some? && Returned(s, Continue(s, moves).value, |s.threads|, b, n)
  {
    var t := |s.threads|;
    assert s.recs[n].bucket == b by { assert HeadOK(s, b); }
    assert RecordOK(s, n);
    var reach := ReachHead(s, b, n);
    var s1 := Continue(s, reach).value;
    StepsBelow(s, s1, t, b, n);
    var s2 := BelowHead(s1, t, n);
    var down, r := GoDown(s2, t);
    var pc := s2.threads[t].pc;
    var s3 := Goto(s2, t, ViewBucket(pc.epoch, pc.got + [r]));
    assert Continue(s2, down) == Some(s3);
    hide Basic, HeadOK, RecordOK, Frame, OnHead, BelowHead, Apply, Allowed, Continue, LoneView, Returned;
    OneAlone(t);
    hide Alone;
    ContinueOn(s, reach, [Turn(t, Go)]);
    ContinueOn(s, reach + [Turn(t, Go)], down);
    assert |pc.got| == b < |s3.heads| && s3.heads == s.heads by { BelowIs(s, s1, t, b, n); }
    var walk := WalkTo(s3, t, |s3.heads|, b);
    var s4 := Continue(s3, walk).value;
    FinishView(s3, s4, t, b);
    ContinueOn(s, reach + [Turn(t, Go)] + down, walk);
    ContinueOn(s, reach + [Turn(t, Go)] + down + walk, [Turn(t, Go)]);
    moves := reach + [Turn(t, Go)] + down + walk + [Turn(t, Go)];
    AloneIsLone(reach, [Turn(t, Go)], t);
    AloneIsLone(reach + [Turn(t, Go)], down, t);
    AloneIsLone(reach + [Turn(t, Go)] + down, walk, t);
    AloneIsLone(reach + [Turn(t, Go)] + down + walk, [Turn(t, Go)], t);
    ReturnsBelow(s, s1, s4, t, b, n, r);
  }

  function BelowHead(s: State, t: nat, n: nat): State
    requires t < |s.threads| && s.threads[t].pc.Descending? && n < |s.recs|
  {
    Goto(s, t, s.threads[t].pc.(cur := s.recs[n].next))
  }

  lemma StepsBelow(s: State, s1: State, t: nat, b: nat, n: nat)
    requires OnHead(s, s1, t, b, n) && Basic(s1)
    ensures Basic(BelowHead(s1, t, n)) && Continue(s1, [Turn(t, Go)]) == Some(BelowHead(s1, t, n))
  {
    assert ThreadOK(s1, t);
    TurnMakes(s1, t, Go, BelowHead(s1, t, n));
  }

  lemma BelowIs(s: State, s1: State, t: nat, b: nat, n: nat)
    requires OnHead(s, s1, t, b, n)
    ensures var s2 := BelowHead(s1, t, n);
            && s2.recs == s1.recs && s2.heads == s.heads && t < |s2.threads| && s2.threads[t].pc.Descending?
            && |s2.threads[t].pc.got| == b && s2.threads[t].pc.epoch == s.epoch
            && s2.threads[t].pc.cur == s.recs[n].next
  {
  }

  lemma FinishView(s3: State, s4: State, t: nat, b: nat)
    requires Basic(s4) && Frame(s3, s4, t, b) && t < |s4.threads|
    requires s4.threads[t].pc.ViewBucket? && |s4.threads[t].pc.got| == |s3.heads|
    ensures var s5 := Goto(s4, t, Viewed(s4.threads[t].pc.epoch, s4.threads[t].pc.got));
            Basic(s5) && Continue(s4, [Turn(t, Go)]) == Some(s5)
  {
    WalkKeepsThreads(s3, s4, t, b);
    LastStep(s4, t);
    hide Basic, Frame, Continue, Effect, NextPC, Enabled;
    TurnMakes(s4, t, Go, Goto(s4, t, Viewed(s4.threads[t].pc.epoch, s4.threads[t].pc.got)));
  }

  lemma LastStep(s: State, t: nat)
    requires Basic(s) && t < |s.threads| && s.threads[t].pc.ViewBucket? && |s.threads[t].pc.got| == |s.heads|
    ensures Enabled(s, t, Go) && Effect(s, t, Go) == s
    ensures NextPC(s, t, Go) == Viewed(s.threads[t].pc.epoch, s.threads[t].pc.got)
  {
    hide Basic;
  }

  lemma ReturnsBelow(s: State, s1: State, s4: State, t: nat, b: nat, n: nat, r: Option<nat>)
    requires OnHead(s, s1, t, b, n) && s.recs[n].bucket == b && RecordOK(s, n) && b < |s.heads|
    requires var s2 := BelowHead(s1, t, n);
             var pc := s2.threads[t].pc;
             var s3 := Goto(s2, t, ViewBucket(pc.epoch, pc.got + [r]));
             && Frame(s3, s4, t, b) && s4.threads[t].pc.ViewBucket? && s4.threads[t].pc.epoch == s.epoch
             && |s4.threads[t].pc.got| >= b + 1 && s4.threads[t].pc.got[..b + 1] == pc.got + [r]
             && (r.Some? ==> pc.cur.Some? && r.value <= pc.cur.value)
             && (pc.cur.Some? && pc.cur.value < |s2.recs| && WE(s2.recs, pc.cur.value) == 0 ==> r == pc.cur)
    ensures Returned(s, Goto(s4, t, Viewed(s.epoch, s4.threads[t].pc.got)), t, b, n)
  {
    BelowIs(s, s1, t, b, n);
    var got := s4.threads[t].pc.got;
    assert got[b] == got[..b + 1][b] == r;
    assert forall i :: 0 <= i < |s.recs| ==> s1.recs[i].bucket == s.recs[i].bucket;
  }

  /** A finished view that did not return the table of its epoch. */
  predicate WrongView(s: State, t: nat)
  {
    t < |s.threads| && s.threads[t].pc.Viewed?
    && s.threads[t].pc.got != Replay(s.recs, |s.heads|, s.threads[t].pc.epoch)
  }

  /** After a push that is not clean, a view run alone by a new thread goes wrong. */
  lemma UncleanPushSpoilsView(s: State, m: Move) returns (moves: seq<Move>)
    requires Snap(s) && EpochsInv(s) && Allowed(s, m) && !CleanMove(s, m)
    ensures Basic(Apply(s, m)) && LoneView(moves, |s.threads|)
    ensures Continue(Apply(s, m), moves).Some? && WrongView(Continue(Apply(s, m), moves).value, |s.threads|)
  {
    var t, w, s1 := m.t, s.threads[m.t].pc.w, Apply(s, m);
    assert ThreadOK(s, t);
    var b, h, n := w.op.bucket, w.head.value, |s.recs|;
    assert HeadOK(s, b);
    ApplyKeepsBasic(s, m);
    MoveKeepsEpochs(s, m);
    moves := ViewAlone(s1, b, n);
    var s2 := Continue(s1, moves).value;
    ContinueKeepsEpochs(s1, moves);
    SpoiledBucket(s, m, s2);
  }

  lemma SpoiledBucket(s: State, m: Move, s2: State)
    requires Snap(s) && Allowed(s, m) && !CleanMove(s, m) && EpochsInv(s2)
    requires var w := s.threads[m.t].pc.w;
             !w.op.View? && Returned(Apply(s, m), s2, |s.threads|, w.op.bucket, |s.recs|)
    ensures WrongView(s2, |s.threads|)
  {
    var w, s1, n := s.threads[m.t].pc.w, Apply(s, m), |s.recs|;
    assert ThreadOK(s, m.t);
    var b, h, e := w.op.bucket, w.head.value, s.epoch;
    assert HeadOK(s, b);
    assert s1.recs == Push(s, w).recs && s1.epoch == e;
    var table := Replay(s2.recs, |s2.heads|, e);
    var r := s2.threads[|s.threads|].pc.got[b];
    if WE(s.recs, h) == 0 {
      assert w.next == w.head by { PendingHeadIsLinked(s, m.t); }
      assert r == Some(h) && WE(s2.recs, h) == 0;
      if table[b] == r { ReplayIsCommitted(s2.recs, |s2.heads|, e, b); }
    } else {
      assert OptInBucket(s, w.next, b);
      assert r.Some? ==> r.value < h;
      HeadIsNewest(s, b, h);
      hide Basic, Snap, PCEpochs, Apply;
      ReplayIsNewest(s2.recs, |s2.heads|, b, e, h);
    }
  }

  lemma PendingHeadIsLinked(s: State, t: nat)
    requires Inv(s) && t < |s.threads| && s.threads[t].pc.Installing?
    ensures var w := s.threads[t].pc.w; !Committed(s.recs, w.head) ==> w.next == w.head
  {
    ThreadOf(s, t);
    hide RecordsInv, LimboInv;
  }

  lemma HeadIsNewest(s: State, b: nat, h: nat)
    requires Snap(s) && b < |s.heads| && s.heads[b] == Some(h) && h < |s.recs| && WE(s.recs, h) != 0
    ensures WE(s.recs, h) <= s.epoch
    ensures forall i :: 0 <= i < |s.recs| && s.recs[i].bucket == b ==> WE(s.recs, i) <= WE(s.recs, h)
  {
    assert HeadOK(s, b);
    assert WE(s.recs, h) <= s.epoch by { assert RecordsInv(s.recs, s.heads, s.epoch); }
    hide Basic, Inv, PCSnap, PairSnap;
    forall i | 0 <= i < |s.recs| && s.recs[i].bucket == b ensures WE(s.recs, i) <= WE(s.recs, h) {
      if i < h { assert SameBucket(s.recs, i, h); }
    }
  }

  // ---- clean pushes are needed and enough ---------------------------------------------

  /** Whatever a new thread's lone view comes to, if it finishes it returns the table of its epoch. */
  ghost predicate LoneViewsRight(s: State)
    requires Basic(s)
  {
    forall moves :: LoneView(moves, |s.threads|) && Continue(s, moves).Some? ==>
      !WrongView(Continue(s, moves).value, |s.threads|)
  }

  /** And it can always finish. */
  lemma LoneViewFinishes(s: State) returns (moves: seq<Move>)
    requires Basic(s)
    ensures LoneView(moves, |s.threads|) && Continue(s, moves).Some?
    ensures var s' := Continue(s, moves).value;
            |s.threads| < |s'.threads| && s'.threads[|s.threads|].pc.Viewed?
            && s'.threads[|s.threads|].pc.epoch == s.epoch
  {
    var t := |s.threads|;
    var begin := Begin(s);
    var s1 := Begun(s);
    assert LoneView(begin, t);
    OneAlone(t);
    hide Basic, Frame, Continue, LoneView, Alone;
    var walk := WalkTo(s1, t, |s1.heads|, |s1.heads|);
    var s2 := Continue(s1, walk).value;
    assert |s2.threads| == |s1.threads| && s2.heads == s1.heads && Frame(s1, s2, t, |s1.heads|) by {
      WalkKeepsThreads(s1, s2, t, |s1.heads|);
    }
    FinishView(s1, s2, t, |s1.heads|);
    ContinueOn(s, begin, walk);
    ContinueOn(s, begin + walk, [Turn(t, Go)]);
    AloneIsLone(begin, walk, t);
    AloneIsLone(begin + walk, [Turn(t, Go)], t);
    moves := begin + walk + [Turn(t, Go)];
  }

  lemma WalkKeepsThreads(s1: State, s2: State, t: nat, b: nat)
    requires Frame(s1, s2, t, b)
    ensures |s2.threads| == |s1.threads| && s2.heads == s1.heads
  {
  }

  /** All that thread t does is viewing. */
  predicate Viewer(s: State, t: nat)
  {
    t < |s.threads| ==> OpOf(s.threads[t].pc) == None || OpOf(s.threads[t].pc) == Some(View)
  }

  lemma LoneMoveIsClean(s: State, m: Move, t: nat)
    requires Basic(s) && Allowed(s, m) && Viewer(s, t)
    requires m == Turn(t, Go) || m == Turn(t, Start(View))
    ensures CleanMove(s, m) && Viewer(Apply(s, m), t)
  {
    assert ThreadOK(s, t);
    OpStays(s, t, m.c);
    OnlyMover(s, t, m.c);
    hide Basic, Step, NextPC;
  }

  lemma {:induction false} LoneViewKeepsSnap(s: State, moves: seq<Move>)
    requires Snap(s) && Basic(s) && LoneView(moves, |s.threads|) && Continue(s, moves).Some?
    ensures Snap(Continue(s, moves).value) && Viewer(Continue(s, moves).value, |s.threads|)
  {
    hide Snap, Basic, Apply, Allowed, CleanMove;
    if moves != [] {
      var n := |moves| - 1;
      LoneViewKeepsSnap(s, moves[..n]);
      var before := Continue(s, moves[..n]).value;
      if n == 0 {
        JoinIsClean(s);
      } else {
        LoneMoveIsClean(before, moves[n], |s.threads|);
      }
      MoveKeepsSnap(before, moves[n]);
    }
  }

  lemma JoinIsClean(s: State)
    requires Basic(s)
    ensures Allowed(s, Join) && CleanMove(s, Join) && Viewer(Apply(s, Join), |s.threads|)
  {
  }

  lemma SnapViewsRight(s: State)
    requires Snap(s) && EpochsInv(s)
    ensures Basic(s) && LoneViewsRight(s)
  {
    assert Basic(s);
    forall moves | LoneView(moves, |s.threads|) && Continue(s, moves).Some?
      ensures !WrongView(Continue(s, moves).value, |s.threads|)
    {
      var s', t := Continue(s, moves).value, |s.threads|;
      LoneViewKeepsSnap(s, moves);
      ContinueKeepsEpochs(s, moves);
      hide Snap, EpochsInv, Basic, Continue, Replay;
      if t < |s'.threads| && s'.threads[t].pc.Viewed? { ViewIsSnapshot(s', t); }
    }
  }

  /** A move keeps views right exactly if it is clean. */
  lemma CleanMoveExactly(s: State, m: Move)
    requires Snap(s) && EpochsInv(s) && Basic(s) && Allowed(s, m)
    ensures Basic(Apply(s, m)) && (CleanMove(s, m) <==> LoneViewsRight(Apply(s, m)))
  {
    ApplyKeepsBasic(s, m);
    hide Basic, Snap, EpochsInv, CleanMove, Apply, WrongView, Continue;
    if CleanMove(s, m) {
      MoveKeepsSnap(s, m);
      MoveKeepsEpochs(s, m);
      SnapViewsRight(Apply(s, m));
    } else {
      var moves := UncleanPushSpoilsView(s, m);
      assert |Apply(s, m).threads| == |s.threads| by { SameThreads(s, m); }
    }
  }

  lemma SameThreads(s: State, m: Move)
    requires Basic(s) && Allowed(s, m) && !CleanMove(s, m)
    ensures |Apply(s, m).threads| == |s.threads|
  {
    OnlyMover(s, m.t, m.c);
    hide Basic, Step, NextPC;
  }

  /** Views are snapshots exactly in clean runs: every push of a run is clean if and only if, in every
      state of the run, a view that a new thread runs alone returns the table of its epoch. */
  lemma {:induction false} ViewsAreSnapshotsExactlyInCleanRuns(buckets: nat, moves: seq<Move>)
    requires Exec(buckets, moves).Some?
    ensures CleanRun(buckets, moves)
        <==> forall k :: 0 <= k <= |moves| ==>
               Exec(buckets, moves[..k]).Some? && LoneViewsRight(Exec(buckets, moves[..k]).value)
  {
    assert moves[..|moves|] == moves;
    hide CleanMove, Snap, EpochsInv, Basic, LoneViewsRight, Apply, Allowed;
    if moves == [] {
      InitSnap(buckets);
      RunsKeepEpochs(buckets, moves);
      SnapViewsRight(Init(buckets));
    } else {
      var n := |moves| - 1;
      ViewsAreSnapshotsExactlyInCleanRuns(buckets, moves[..n]);
      assert forall k :: 0 <= k <= n ==> moves[..k] == moves[..n][..k];
      if CleanRun(buckets, moves[..n]) { LastMoveExactly(buckets, moves); }
    }
  }

  lemma LastMoveExactly(buckets: nat, moves: seq<Move>)
    requires moves != [] && Exec(buckets, moves).Some? && CleanRun(buckets, moves[..|moves| - 1])
    ensures CleanRun(buckets, moves) <==> LoneViewsRight(Exec(buckets, moves).value)
  {
    hide CleanMove, Snap, EpochsInv, Basic, LoneViewsRight, Apply, Allowed;
    var n := |moves| - 1;
    CleanRunsKeepSnap(buckets, moves[..n]);
    RunsKeepEpochs(buckets, moves[..n]);
    CleanMoveExactly(Exec(buckets, moves[..n]).value, moves[n]);
  }
}
