/** Memory safety: in runs whose pushes are linked, nothing that has been freed is touched. */
module LohatSafety {
  import opened Options
  import opened LohatModel
  import opened LohatBasic
  import opened LohatInvariant
  import opened LohatFrames
  import opened LohatMover
  import opened LohatEffects
  import opened LohatProof
  import opened LohatEpochs

  // ---- linked runs --------------------------------------------------------------------

  /** Every push of a schedule from s leads to the head it replaces. */
  predicate LinkedFrom(s: State, moves: seq<Move>)
    requires Basic(s) && Continue(s, moves).Some?
  {
    moves == [] ||
    (var k := |moves| - 1;
     LinkedFrom(s, moves[..k]) && LinkedMove(Continue(s, moves[..k]).value, moves[k]))
  }

  predicate LinkedRun(buckets: nat, moves: seq<Move>)
    requires Exec(buckets, moves).Some?
  {
    InitBasic(buckets);
    LinkedFrom(Init(buckets), moves)
  }

  lemma InitBasic(buckets: nat)
    ensures Basic(Init(buckets))
  {
    assert Exec(buckets, []) == Some(Init(buckets));
  }

  /** A schedule is linked if both of its parts are. */
  lemma {:induction false} LinkedOn(s: State, moves: seq<Move>, more: seq<Move>)
    requires Basic(s) && Continue(s, moves).Some? && Continue(Continue(s, moves).value, more).Some?
    ensures Continue(s, moves + more) == Continue(Continue(s, moves).value, more)
    ensures LinkedFrom(s, moves + more) <==> LinkedFrom(s, moves) && LinkedFrom(Continue(s, moves).value, more)
  {
    ContinueOn(s, moves, more);
    hide Basic, Apply, Allowed, LinkedMove;
    if more == [] {
      assert moves + more == moves;
    } else {
      var n := |more| - 1;
      LinkedOn(s, moves, more[..n]);
      assert (moves + more)[..|moves + more| - 1] == moves + more[..n];
    }
  }

  lemma MoveKeepsInv(s: State, m: Move)
    requires Inv(s) && Allowed(s, m) && LinkedMove(s, m)
    ensures Inv(Apply(s, m))
  {
    hide Inv, LinkedMove, Step, Register;
    match m
    case Join => RegisterKeepsInv(s);
    case Turn(t, c) => StepKeepsInv(s, t, c);
  }

  lemma {:induction false} LinkedKeepsInv(s: State, moves: seq<Move>)
    requires Inv(s) && Basic(s) && Continue(s, moves).Some? && LinkedFrom(s, moves)
    ensures Inv(Continue(s, moves).value)
  {
    hide Inv, LinkedMove, Basic, Apply, Allowed;
    if moves != [] {
      var k := |moves| - 1;
      LinkedKeepsInv(s, moves[..k]);
      MoveKeepsInv(Continue(s, moves[..k]).value, moves[k]);
    }
  }

  lemma LinkedRunsKeepInv(buckets: nat, moves: seq<Move>)
    requires Exec(buckets, moves).Some? && LinkedRun(buckets, moves)
    ensures Inv(Exec(buckets, moves).value)
  {
    InitInv(buckets);
    InitBasic(buckets);
    hide Inv, LinkedFrom;
    LinkedKeepsInv(Init(buckets), moves);
  }

  /** A push that is not linked breaks the chain of its bucket. */
  lemma UnlinkedMoveBreaksChain(s: State, m: Move)
    requires Basic(s) && Allowed(s, m) && !LinkedMove(s, m)
    ensures !Chained(Apply(s, m).recs)
  {
    assert ThreadOK(s, m.t);
    var w := s.threads[m.t].pc.w;
    var recs', n := Push(s, w).recs, |s.recs|;
    assert Apply(s, m).recs == recs';
    assert HeadOK(s, w.op.bucket) && w.head.Some?;
    assert recs'[w.head.value] == s.recs[w.head.value];
    assert w.next.Some? ==> recs'[w.next.value] == s.recs[w.next.value];
    assert !Linked(recs', n);
  }

  /** Exactly the linked runs keep the chains: in all their states each record leads to the record
      pushed before it. */
  lemma {:induction false} ChainedExactlyInLinkedRuns(buckets: nat, moves: seq<Move>)
    requires Exec(buckets, moves).Some?
    ensures LinkedRun(buckets, moves)
        <==> forall k :: 0 <= k <= |moves| ==>
               Exec(buckets, moves[..k]).Some? && Chained(Exec(buckets, moves[..k]).value.recs)
  {
    hide LinkedMove, Chained, Inv;
    assert moves[..|moves|] == moves;
    if moves == [] {
      InitInv(buckets);
      ChainOf(Init(buckets));
    } else {
      var n := |moves| - 1;
      var before, m := moves[..n], moves[n];
      ChainedExactlyInLinkedRuns(buckets, before);
      assert forall k :: 0 <= k <= n ==> moves[..k] == before[..k];
      if LinkedMove(Exec(buckets, before).value, m) {
        if LinkedRun(buckets, before) {
          LinkedRunsKeepInv(buckets, moves);
          ChainOf(Exec(buckets, moves).value);
        }
      } else {
        UnlinkedMoveBreaksChain(Exec(buckets, before).value, m);
      }
    }
  }

  // ---- which operations push linked records -------------------------------------------

  /** What a caller can tell before the compare-and-swap: put, add and remove are always linked;
      replace is linked exactly if the head it expects is still the one of its first attempt. */
  lemma LinkedPushExactly(s: State, t: nat)
    requires Basic(s) && t < |s.threads| && s.threads[t].pc.Installing?
    ensures var w := s.threads[t].pc.w; LinkedPush(w) <==> (w.op.Replace? ==> w.next == w.head)
  {
    assert ThreadOK(s, t);
  }

  /** The operation a thread is carrying out, up to its push. */
  function OpOf(pc: PC): Option<Op>
  {
    match pc
    case EpochLoaded(op, _) => Some(op)
    case Reserved(op) => Some(op)
    case HeadLoaded(w) => Some(w.op)
    case CopyingEpoch(w) => Some(w.op)
    case Installing(w) => Some(w.op)
    case HelpLoading(_, k) => OpOfCont(k)
    case HelpBumping(_, k) => OpOfCont(k)
    case HelpSwapping(_, _, k) => OpOfCont(k)
    case _ => None
  }

  function OpOfCont(k: Cont): Option<Op> { if k.ThenCopyEpoch? then Some(k.w.op) else None }

  lemma OpStays(s: State, t: nat, c: Choice)
    requires Basic(s) && Enabled(s, t, c)
    ensures var op, op' := OpOf(s.threads[t].pc), OpOf(NextPC(s, t, c));
            op' == None || op' == op || (c.Start? && op' == Some(c.op))
  {
    assert ThreadOK(s, t);
    hide Effect;
  }

  ghost predicate OnlyOps(s: State, ok: Op -> bool)
  {
    forall t :: 0 <= t < |s.threads| && OpOf(s.threads[t].pc).Some? ==> ok(OpOf(s.threads[t].pc).value)
  }

  predicate Starts(m: Move, ok: Op -> bool) { m.Turn? && m.c.Start? ==> ok(m.c.op) }

  lemma OnlyOpsStep(s: State, m: Move, ok: Op -> bool)
    requires Basic(s) && Allowed(s, m) && Starts(m, ok) && OnlyOps(s, ok)
    ensures OnlyOps(Apply(s, m), ok)
  {
    if m.Turn? {
      OpStays(s, m.t, m.c);
      OnlyMover(s, m.t, m.c);
      hide Step, NextPC, OpOf;
    }
  }

  lemma {:induction false} OnlyOpsRun(buckets: nat, moves: seq<Move>, ok: Op -> bool)
    requires Exec(buckets, moves).Some? && forall k :: 0 <= k < |moves| ==> Starts(moves[k], ok)
    ensures OnlyOps(Exec(buckets, moves).value, ok)
  {
    hide Starts, Apply, Allowed, Basic, OnlyOps;
    if moves == [] {
      assert OnlyOps(Init(buckets), ok) by { NoOps(buckets, ok); }
    } else {
      var n := |moves| - 1;
      OnlyOpsRun(buckets, moves[..n], ok);
      OnlyOpsStep(Exec(buckets, moves[..n]).value, moves[n], ok);
    }
  }

  lemma NoOps(buckets: nat, ok: Op -> bool)
    ensures OnlyOps(Init(buckets), ok)
  {
  }

  function NotReplace(): Op -> bool { (op: Op) => !op.Replace? }

  /** As long as no replace is before its push and none is started, all pushes are linked. */
  lemma {:induction false} LinkedWithoutReplace(s: State, moves: seq<Move>)
    requires Basic(s) && OnlyOps(s, NotReplace()) && Continue(s, moves).Some?
    requires forall k :: 0 <= k < |moves| ==> Starts(moves[k], NotReplace())
    ensures LinkedFrom(s, moves) && OnlyOps(Continue(s, moves).value, NotReplace())
  {
    hide Step, OnlyOps, Starts, Basic, Apply, Allowed, LinkedMove;
    if moves != [] {
      var n := |moves| - 1;
      LinkedWithoutReplace(s, moves[..n]);
      NotReplaceIsLinked(Continue(s, moves[..n]).value, moves[n]);
      OnlyOpsStep(Continue(s, moves[..n]).value, moves[n], NotReplace());
    }
  }

  lemma NotReplaceIsLinked(s: State, m: Move)
    requires Basic(s) && Allowed(s, m) && OnlyOps(s, NotReplace())
    ensures LinkedMove(s, m)
  {
    if m.Turn? && s.threads[m.t].pc.Installing? {
      LinkedPushExactly(s, m.t);
      assert OpOf(s.threads[m.t].pc) == Some(s.threads[m.t].pc.w.op);
      hide Basic;
    }
  }

  /** Runs of any operations but replace are linked, however they interleave. */
  lemma RunsWithoutReplaceAreLinked(buckets: nat, moves: seq<Move>)
    requires Exec(buckets, moves).Some? && forall k :: 0 <= k < |moves| ==> Starts(moves[k], NotReplace())
    ensures LinkedRun(buckets, moves)
  {
    InitBasic(buckets);
    NoOps(buckets, NotReplace());
    hide LinkedFrom, OnlyOps, Starts;
    LinkedWithoutReplace(Init(buckets), moves);
  }

  // ---- memory safety ------------------------------------------------------------------

  /** The records whose memory the next step of thread t reads or writes, or frees. */
  function Touched(s: State, t: nat): set<nat>
    requires t < |s.threads|
  {
    match s.threads[t].pc
    case HeadLoaded(w) => Opt(w.head)
    case CopyingEpoch(w) => Opt(w.head)
    case HelpLoading(rec, _) => {rec}
    case HelpSwapping(rec, _, _) => {rec}
    case Retiring(w, _) => Opt(w.head)
    case Scanning(_, _, _, _) => set r | r in s.threads[t].retired
    case Freeing(doomed, _) => if doomed == [] then {} else {doomed[0]}
    case Finishing(head) => {head}
    case Descending(_, _, cur) => Opt(cur)
    case Taking(_, _, rec) => {rec}
    case _ => {}
  }

  /** No step of a linked run touches a freed record, and none frees a record twice. */
  lemma NothingFreedIsTouched(buckets: nat, moves: seq<Move>, t: nat, r: nat)
    requires Exec(buckets, moves).Some? && LinkedRun(buckets, moves)
    requires var s := Exec(buckets, moves).value; t < |s.threads| && r in Touched(s, t)
    ensures var s := Exec(buckets, moves).value; r < |s.recs| && !s.recs[r].freed
  {
    LinkedRunsKeepInv(buckets, moves);
    TouchedIsLive(Exec(buckets, moves).value, t, r);
  }

  lemma TouchedIsLive(s: State, t: nat, r: nat)
    requires Inv(s) && t < |s.threads| && r in Touched(s, t)
    ensures r < |s.recs| && !s.recs[r].freed
  {
    ThreadOf(s, t);
    var th := s.threads[t];
    if th.pc.Scanning? || th.pc.Freeing? {
      LimboOf(s, t);
      assert r in Limbo(th);
    } else {
      assert r in Held(th.pc);
      hide RecordsInv, LimboInv;
      assert Protected(s.recs, r, s.reservations[t].value);
    }
  }

  /** The head a compare-and-swap expects is in memory until the swap, so its address cannot have
      been given to another record in between. */
  lemma ExpectedHeadIsLive(buckets: nat, moves: seq<Move>, t: nat)
    requires Exec(buckets, moves).Some? && LinkedRun(buckets, moves)
    requires var s := Exec(buckets, moves).value;
             t < |s.threads| && s.threads[t].pc.Installing? && s.threads[t].pc.w.head.Some?
    ensures var s := Exec(buckets, moves).value;
            var h := s.threads[t].pc.w.head.value; h < |s.recs| && !s.recs[h].freed
  {
    LinkedRunsKeepInv(buckets, moves);
    var s := Exec(buckets, moves).value;
    ThreadOf(s, t);
    hide RecordsInv, LimboInv, Inv;
    var h := s.threads[t].pc.w.head.value;
    assert h in Held(s.threads[t].pc);
    assert Protected(s.recs, h, s.reservations[t].value);
  }

  /** After a linked run with no replace before its push, nothing that has been freed is touched as long
      as no replace is started. */
  lemma SafeWithoutReplace(buckets: nat, moves: seq<Move>, more: seq<Move>, t: nat, r: nat)
    requires Exec(buckets, moves).Some? && LinkedRun(buckets, moves)
    requires var s := Exec(buckets, moves).value; OnlyOps(s, NotReplace()) && Continue(s, more).Some?
    requires forall k :: 0 <= k < |more| ==> Starts(more[k], NotReplace())
    requires var s' := Continue(Exec(buckets, moves).value, more).value; t < |s'.threads| && r in Touched(s', t)
    ensures var s' := Continue(Exec(buckets, moves).value, more).value; r < |s'.recs| && !s'.recs[r].freed
  {
    var s := Exec(buckets, moves).value;
    LinkedRunsKeepInv(buckets, moves);
    assert Basic(s);
    hide *;
    LinkedWithoutReplace(s, more);
    LinkedKeepsInv(s, more);
    TouchedIsLive(Continue(s, more).value, t, r);
  }
}
