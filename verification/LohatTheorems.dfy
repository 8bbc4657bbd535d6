/** What the table guarantees over whole runs whose pushes are clean, and that clean pushes are what it
    takes. */
module LohatTheorems {
  import opened Options
  import opened LohatModel
  import opened LohatBasic
  import opened LohatInvariant
  import opened LohatFrames
  import opened LohatMover
  import opened LohatProof
  import opened LohatEpochs
  import opened LohatReplay
  import opened LohatSafety
  import opened LohatSnapshot

  // ---- clean runs ---------------------------------------------------------------------

  /** Every push of the run leads to the committed head it replaces. */
  predicate CleanRun(buckets: nat, moves: seq<Move>)
    requires Exec(buckets, moves).Some?
  {
    moves == [] ||
    (var k := |moves| - 1;
     CleanRun(buckets, moves[..k]) && CleanMove(Exec(buckets, moves[..k]).value, moves[k]))
  }

  lemma InitSnap(buckets: nat)
    ensures Snap(Init(buckets))
  {
    InitInv(buckets);
  }

  lemma {:induction false} CleanRunsKeepSnap(buckets: nat, moves: seq<Move>)
    requires Exec(buckets, moves).Some? && CleanRun(buckets, moves)
    ensures Snap(Exec(buckets, moves).value)
  {
    hide Snap, CleanMove;
    if moves == [] {
      InitSnap(buckets);
    } else {
      var k := |moves| - 1;
      CleanRunsKeepSnap(buckets, moves[..k]);
      MoveKeepsSnap(Exec(buckets, moves[..k]).value, moves[k]);
    }
  }

  predicate ChainOK(recs: seq<Record>) { Chained(recs) && OnlyHeadsPend(recs) }

  lemma SnapChain(s: State)
    requires Snap(s)
    ensures Inv(s) && Basic(s) && ChainOK(s.recs)
  {
    ChainOf(s);
    assert Basic(s);
    hide Inv, Chained, PCSnap, PairSnap, Basic;
  }

  /** A push that is not clean leaves a record that does not lead to its predecessor, or a
      predecessor without a write epoch, in the very next state. */
  lemma UncleanMoveBreaksChain(s: State, m: Move)
    requires Basic(s) && Allowed(s, m) && !CleanMove(s, m)
    ensures !ChainOK(Apply(s, m).recs)
  {
    assert ThreadOK(s, m.t);
    var w := s.threads[m.t].pc.w;
    if w.next != w.head {
      UnlinkedMoveBreaksChain(s, m);
    } else {
      var recs', h := Push(s, w).recs, w.head.value;
      assert Apply(s, m).recs == recs';
      assert HeadOK(s, w.op.bucket);
      assert recs'[h] == s.recs[h];
      assert SameBucket(recs', h, |s.recs|);
    }
  }

  /** Exactly the clean runs keep the chains: in all their states each record leads to the record
      pushed before it, and only the last record of a bucket lacks a write epoch. */
  lemma {:induction false} ChainsHoldExactlyInCleanRuns(buckets: nat, moves: seq<Move>)
    requires Exec(buckets, moves).Some?
    ensures CleanRun(buckets, moves)
        <==> forall k :: 0 <= k <= |moves| ==>
               Exec(buckets, moves[..k]).Some? && ChainOK(Exec(buckets, moves[..k]).value.recs)
  {
    hide CleanMove, ChainOK, Snap;
    assert moves[..|moves|] == moves;
    if moves == [] {
      InitSnap(buckets);
      SnapChain(Init(buckets));
    } else {
      var n := |moves| - 1;
      var before, m := moves[..n], moves[n];
      ChainsHoldExactlyInCleanRuns(buckets, before);
      assert forall k :: 0 <= k <= n ==> moves[..k] == before[..k];
      if CleanMove(Exec(buckets, before).value, m) {
        if CleanRun(buckets, before) {
          CleanRunsKeepSnap(buckets, moves);
          SnapChain(Exec(buckets, moves).value);
        }
      } else {
        UncleanMoveBreaksChain(Exec(buckets, before).value, m);
      }
    }
  }

  /** What a caller can tell before the compare-and-swap: put is always clean; add and remove are
      clean exactly if the head they replace already has its epoch; replace is clean exactly if the
      head it expects is still the one of its first attempt. */
  lemma CleanPushExactly(s: State, t: nat)
    requires Inv(s) && t < |s.threads| && s.threads[t].pc.Installing?
    ensures var w := s.threads[t].pc.w;
            && (w.op.Put? ==> CleanPush(s, w))
            && (w.op.Add? || w.op.Remove? ==> (CleanPush(s, w) <==> Committed(s.recs, w.head)))
            && (w.op.Replace? ==> (CleanPush(s, w) <==> w.next == w.head))
  {
    ThreadOf(s, t);
    hide RecordsInv, LimboInv, SafeFrom, Apart;
  }

  function Plain(): Op -> bool { (op: Op) => op.Put? || op.Get? || op.View? }

  /** Runs of any number of puts, gets and views, interleaved in any way, are clean. */
  lemma {:induction false} PlainRunsAreClean(buckets: nat, moves: seq<Move>)
    requires Exec(buckets, moves).Some? && forall k :: 0 <= k < |moves| ==> Starts(moves[k], Plain())
    ensures CleanRun(buckets, moves)
  {
    hide Snap, Step, OnlyOps, Starts, Basic, Allowed, CleanMove;
    if moves != [] {
      var n := |moves| - 1;
      PlainRunsAreClean(buckets, moves[..n]);
      CleanRunsKeepSnap(buckets, moves[..n]);
      OnlyOpsRun(buckets, moves[..n], Plain());
      SnapChain(Exec(buckets, moves[..n]).value);
      PlainMoveIsClean(Exec(buckets, moves[..n]).value, moves[n]);
    }
  }

  lemma PlainMoveIsClean(s: State, m: Move)
    requires Inv(s) && Allowed(s, m) && OnlyOps(s, Plain())
    ensures CleanMove(s, m)
  {
    if m.Turn? && s.threads[m.t].pc.Installing? {
      assert ThreadOK(s, m.t);
      CleanPushExactly(s, m.t);
      assert OpOf(s.threads[m.t].pc) == Some(s.threads[m.t].pc.w.op);
      hide Inv;
    }
  }

  /** In every state of a clean run, write epochs strictly decrease going down a chain, and only the
      top of a chain may be without one.  (That no two records share one holds of every run.) */
  lemma CommitOrder(buckets: nat, moves: seq<Move>, upper: nat, lower: nat)
    requires Exec(buckets, moves).Some? && CleanRun(buckets, moves)
    requires var recs := Exec(buckets, moves).value.recs;
             upper < |recs| && lower < |recs| && Follows(recs, upper, lower)
    ensures var recs := Exec(buckets, moves).value.recs;
            WE(recs, lower) != 0 && (WE(recs, upper) != 0 ==> WE(recs, lower) < WE(recs, upper))
  {
    CleanRunsKeepSnap(buckets, moves);
    var s := Exec(buckets, moves).value;
    SnapChain(s);
    hide Inv, PCSnap, PairSnap;
    assert Linked(s.recs, upper) && SameBucket(s.recs, lower, upper);
  }

  // ---- snapshots ----------------------------------------------------------------------

  /** A finished view has collected the table that the writes up to its epoch make, replayed one
      after the other in the order of their epochs. */
  lemma ViewIsSnapshot(s: State, t: nat)
    requires Snap(s) && EpochsInv(s) && t < |s.threads| && s.threads[t].pc.Viewed?
    ensures s.threads[t].pc.got == Replay(s.recs, |s.heads|, s.threads[t].pc.epoch)
  {
    PCOf(s, t);
    var pc := s.threads[t].pc;
    assert ThreadOK(s, t);
    hide Snap, Inv, Basic, ThreadOK, EpochsInv;
    forall b | 0 <= b < |pc.got| ensures pc.got[b] == Replay(s.recs, |s.heads|, pc.epoch)[b] {
      ViewOfBucket(s, pc, b);
    }
  }

  lemma ViewOfBucket(s: State, pc: PC, b: nat)
    requires Ordered(s.recs) && EpochsInv(s)
    requires pc.Viewed? && PCSnap(s.recs, pc) && GotOK(s, pc.got)
    requires b < |pc.got| == |s.heads|
    ensures pc.got[b] == Replay(s.recs, |s.heads|, pc.epoch)[b]
  {
    var got, e := pc.got, pc.epoch;
    assert ViewSnap(s.recs, pc);
    assert forall m :: 0 <= m < |s.recs| && s.recs[m].bucket == b && Above(got[b], m) && WE(s.recs, m) != 0 ==>
      Passed(pc, s.recs[m].bucket, m) && e < WE(s.recs, m);
    if got[b].None? {
      ReplayEmpty(s.recs, |s.heads|, b, e);
    } else {
      var r := got[b].value;
      assert OptInBucket(s, got[b], b);
      forall i | 0 <= i < |s.recs| && s.recs[i].bucket == b
        ensures WE(s.recs, i) <= WE(s.recs, r) || e < WE(s.recs, i)
      {
        if i < r { assert SameBucket(s.recs, i, r); } else if i > r { assert Above(got[b], i); }
      }
      hide Basic, PCEpochs, PCSnap;
      ReplayIsNewest(s.recs, |s.heads|, b, e, r);
    }
  }

  lemma ViewIsSettled(s: State, t: nat)
    requires Snap(s) && EpochsInv(s) && t < |s.threads| && s.threads[t].pc.Viewed?
    ensures Settled(s, s.threads[t].pc.epoch)
  {
    PCOf(s, t);
    var pc := s.threads[t].pc;
    assert PCEpochs(s.recs, s.epoch, pc) && ThreadOK(s, t);
    hide Inv, EpochsInv, Snap;
    forall r | 0 <= r < |s.recs| && WE(s.recs, r) == 0 ensures Late(s, r, pc.epoch) {
      var b := s.recs[r].bucket;
      assert RecordOK(s, r);
      if pc.got[b].Some? {
        var g := pc.got[b].value;
        assert OptInBucket(s, pc.got[b], b);
        assert r < g ==> SameBucket(s.recs, r, g);
      }
      hide Basic, PCSnap;
      assert Passed(pc, b, r);
      forall u | 0 <= u < |s.threads| && s.threads[u].pc.HelpSwapping? && s.threads[u].pc.rec == r
        ensures pc.epoch < s.threads[u].pc.mine
      {
        assert PairSnap(s.recs, pc, s.threads[u].pc);
      }
    }
  }

  /** The linearization of views: what a view has collected when it finishes is the table of its
      epoch in that state and in every later state, whatever is committed after. */
  lemma ViewsAreLinearizable(buckets: nat, moves: seq<Move>, t: nat, later: seq<Move>)
    requires Exec(buckets, moves).Some? && CleanRun(buckets, moves)
    requires var s := Exec(buckets, moves).value;
             t < |s.threads| && s.threads[t].pc.Viewed? && Continue(s, later).Some?
    ensures var s := Exec(buckets, moves).value;
            var pc, s' := s.threads[t].pc, Continue(s, later).value;
            pc.got == Replay(s'.recs, |s'.heads|, pc.epoch) && Settled(s', pc.epoch)
  {
    var s := Exec(buckets, moves).value;
    CleanRunsKeepSnap(buckets, moves);
    RunsKeepEpochs(buckets, moves);
    hide Snap, EpochsInv, Settled, Replay, Exec, Basic;
    ViewIsSnapshot(s, t);
    ViewIsSettled(s, t);
    SettledForGood(s, later, s.threads[t].pc.epoch);
  }

  /** A view sees no write that commits after it has finished: such a write's epoch is later. */
  lemma LaterCommitsAreNotSeen(buckets: nat, moves: seq<Move>, t: nat, later: seq<Move>, r: nat)
    requires Exec(buckets, moves).Some? && CleanRun(buckets, moves)
    requires var s := Exec(buckets, moves).value;
             && t < |s.threads| && s.threads[t].pc.Viewed? && Continue(s, later).Some?
             && (r < |s.recs| ==> WE(s.recs, r) == 0)
    ensures var s := Exec(buckets, moves).value;
            var s' := Continue(s, later).value;
            r < |s'.recs| && WE(s'.recs, r) != 0 ==> s.threads[t].pc.epoch < WE(s'.recs, r)
  {
    var s := Exec(buckets, moves).value;
    CleanRunsKeepSnap(buckets, moves);
    RunsKeepEpochs(buckets, moves);
    hide Snap, EpochsInv, Replay, Exec, Basic, Apply;
    ViewIsSettled(s, t);
    LateForGood(s, later, r, s.threads[t].pc.epoch);
  }
}
