/** Runs, of three threads and one bucket, that lead to a push that is not clean and to what follows
    from it: a view returns a table that the writes never made, or steps onto freed memory.  And a
    clean run in which a retire epoch is later than the commit it stands for. */
module LohatCounterexamples {
  import opened Options
  import opened LohatModel
  import opened LohatBasic
  import opened LohatInvariant
  import opened LohatProof
  import opened LohatReplay
  import opened LohatSafety
  import opened LohatSnapshot
  import opened LohatTheorems
  import opened LohatUnlinked

  /** Some run leads to s, and a clean one if that is asked for. */
  ghost predicate Reached(s: State, clean: bool)
  {
    Basic(s) && exists moves :: Exec(1, moves) == Some(s) && (clean ==> CleanRun(1, moves))
  }

  lemma Anyhow(s: State)
    requires Reached(s, true)
    ensures Reached(s, false)
  {
  }

  lemma Move1(clean: bool, s: State, m: Move, s': State)
    requires Reached(s, clean) && Allowed(s, m) && Apply(s, m) == s' && (clean ==> CleanMove(s, m))
    ensures Reached(s', clean)
  {
    var moves :| Exec(1, moves) == Some(s) && (clean ==> CleanRun(1, moves));
    var longer := moves + [m];
    assert longer[..|longer| - 1] == moves;
    hide Basic, Apply, CleanMove;
    ApplyKeepsBasic(s, m);
    assert Exec(1, longer) == Some(s');
  }

  /** Three threads: where they are and what they have reserved. */
  datatype Trio<T> = Trio(a: T, b: T, c: T)
  {
    function At(t: nat): T { if t == 0 then a else if t == 1 then b else c }

    function With(t: nat, x: T): Trio<T>
    {
      if t == 0 then this.(a := x) else if t == 1 then this.(b := x) else this.(c := x)
    }
  }

  /** A state of one bucket, whose head is the record pushed last. */
  datatype Config = Config(epoch: nat, recs: seq<Record>, slots: Trio<Option<nat>>, pcs: Trio<PC>)
  {
    function To(t: nat, pc: PC): Config { this.(pcs := pcs.With(t, pc)) }
    function Posts(t: nat, r: Option<nat>): Config { this.(slots := slots.With(t, r)) }
    function Pushes(r: Record): Config { this.(recs := recs + [r]) }
    function Bumps(): Config { this.(epoch := epoch + 1) }
    function Commits(r: nat, e: nat): Config
      requires r < |recs|
    {
      this.(recs := recs[r := recs[r].(writeEpoch := e)])
    }
  }

  function Sys(c: Config): State
  {
    State(c.epoch, c.recs, [if c.recs == [] then None else Some(|c.recs| - 1)], [c.slots.a, c.slots.b, c.slots.c],
          [Thread(c.pcs.a, []), Thread(c.pcs.b, []), Thread(c.pcs.c, [])])
  }

  lemma Booted()
    ensures Reached(Sys(Config(1, [], Trio(Some(0), Some(0), Some(0)), Trio(Booting, Booting, Booting))), true)
  {
    var s0 := Init(1);
    assert Exec(1, []) == Some(s0);
    hide Exec;
    var s1 := Register(s0); Move1(true, s0, Join, s1);
    var s2 := Register(s1); Move1(true, s1, Join, s2);
    var s3 := Register(s2); Move1(true, s2, Join, s3);
    assert s3 == Sys(Config(1, [], Trio(Some(0), Some(0), Some(0)), Trio(Booting, Booting, Booting)));
  }

  /** One step of thread t, from configuration to configuration. */
  lemma Turn1(clean: bool, c: Config, t: nat, ch: Choice, c': Config)
    requires t < 3 && Reached(Sys(c), clean) && Enabled(Sys(c), t, ch)
    requires NextPC(Sys(c), t, ch) == c'.pcs.At(t) && c'.pcs == c.pcs.With(t, c'.pcs.At(t))
    requires Effect(Sys(c), t, ch) == Sys(c'.(pcs := c.pcs))
    requires clean ==> CleanMove(Sys(c), Turn(t, ch))
    ensures Reached(Sys(c'), clean)
  {
    hide Basic, Reached, NextPC, Effect, CleanMove;
    Move1(clean, Sys(c), Turn(t, ch), Sys(c'));
  }

  // ---- the first put ---------------------------------------------------------------------

  const emptyTable := Config(1, [], Trio(None, None, None), Trio(Idle, Idle, Idle))

  lemma IdleAll()
    ensures Reached(Sys(emptyTable), true)
  {
    Booted();
    hide Basic, Exec, Reached, Cut, Lower, PCOK;
    var c := Config(1, [], Trio(Some(0), Some(0), Some(0)), Trio(Booting, Booting, Booting));
    var c1 := c.To(0, Idle).Posts(0, None); Turn1(true, c, 0, Go, c1);
    var c2 := c1.To(1, Idle).Posts(1, None); Turn1(true, c1, 1, Go, c2);
    var c3 := c2.To(2, Idle).Posts(2, None); Turn1(true, c2, 2, Go, c3);
    assert c3 == emptyTable;
  }

  /** Any thread starts an operation and posts its reservation. */
  lemma Begins(clean: bool, c: Config, t: nat, op: Op)
    requires t < 3 && Reached(Sys(c), clean) && c.pcs.At(t) == Idle && OpOK(Sys(c), op)
    ensures Reached(Sys(c.To(t, Reserved(op)).Posts(t, Some(c.epoch))), clean)
  {
    hide Basic, Exec, Reached, Cut, Lower, PCOK;
    var c1 := c.To(t, EpochLoaded(op, c.epoch)); Turn1(clean, c, t, Start(op), c1);
    Turn1(clean, c1, t, Go, c.To(t, Reserved(op)).Posts(t, Some(c.epoch)));
  }

  /** Any thread draws an epoch for a record. */
  lemma Draws1(clean: bool, c: Config, t: nat, r: nat, k: Cont)
    requires t < 3 && Reached(Sys(c), clean) && c.pcs.At(t) == HelpBumping(r, k)
    ensures Reached(Sys(c.To(t, HelpSwapping(r, c.epoch + 1, k)).Bumps()), clean)
  {
    hide Basic, Exec, Reached, Cut, Lower, PCOK;
    Turn1(clean, c, t, Go, c.To(t, HelpSwapping(r, c.epoch + 1, k)).Bumps());
  }

  /** Any thread swaps in the epoch it has drawn. */
  lemma Swaps1(clean: bool, c: Config, t: nat, r: nat, e: nat, k: Cont)
    requires t < 3 && Reached(Sys(c), clean) && c.pcs.At(t) == HelpSwapping(r, e, k)
    requires r < |c.recs| && WE(c.recs, r) == 0
    ensures Reached(Sys(c.Commits(r, e).To(t, Resume(k))), clean)
  {
    hide Basic, Exec, Reached, Cut, Lower, PCOK;
    Turn1(clean, c, t, Go, c.Commits(r, e).To(t, Resume(k)));
  }

  /** Any thread draws an epoch for a record and commits it. */
  lemma Commits1(clean: bool, c: Config, t: nat, r: nat, k: Cont)
    requires t < 3 && Reached(Sys(c), clean) && c.pcs.At(t) == HelpBumping(r, k) && r < |c.recs| && WE(c.recs, r) == 0
    ensures Reached(Sys(c.Bumps().Commits(r, c.epoch + 1).To(t, Resume(k))), clean)
  {
    var c1 := c.To(t, HelpSwapping(r, c.epoch + 1, k)).Bumps();
    hide Reached, Sys, Resume;
    Draws1(clean, c, t, r, k);
    Swaps1(clean, c1, t, r, c.epoch + 1, k);
    assert c1.Commits(r, c.epoch + 1).To(t, Resume(k)) == c.Bumps().Commits(r, c.epoch + 1).To(t, Resume(k));
  }

  /** The third thread starts a view. */
  lemma BeginsView(clean: bool, c: Config)
    requires Reached(Sys(c), clean) && c.pcs.c == Idle
    ensures Reached(Sys(c.To(2, ViewBucket(c.epoch, [])).Posts(2, Some(c.epoch))), clean)
  {
    Begins(clean, c, 2, View);
    hide Basic, Exec, Reached, Cut, Lower, PCOK;
    Turn1(clean, c.To(2, Reserved(View)).Posts(2, Some(c.epoch)), 2, Go,
          c.To(2, ViewBucket(c.epoch, [])).Posts(2, Some(c.epoch)));
  }

  /** A view takes the record it stands on, if it is not too new, and finishes. */
  lemma Takes1(clean: bool, c: Config, t: nat, e: nat, r: nat)
    requires t < 3 && Reached(Sys(c), clean) && c.pcs.At(t) == Descending(e, [], Some(r))
    requires r < |c.recs| && WE(c.recs, r) <= e
    ensures Reached(Sys(c.To(t, Viewed(e, [Some(r)]))), clean)
  {
    hide Basic, Exec, Reached, Cut, Lower, PCOK;
    var c1 := c.To(t, Taking(e, [], r)); Turn1(clean, c, t, Go, c1);
    assert [] + [Some(r)] == [Some(r)];
    var c2 := c1.To(t, ViewBucket(e, [Some(r)])); Turn1(clean, c1, t, Go, c2);
    Turn1(clean, c2, t, Go, c.To(t, Viewed(e, [Some(r)])));
  }

  /** A view that stands on a record that is too new takes the record below it and finishes. */
  lemma Descends(clean: bool, c: Config, t: nat, e: nat, top: nat, r: nat)
    requires t < 3 && Reached(Sys(c), clean) && c.pcs.At(t) == Descending(e, [], Some(top))
    requires top < |c.recs| && c.recs[top].next == Some(r) && r < |c.recs| && WE(c.recs, r) <= e < WE(c.recs, top)
    ensures Reached(Sys(c.To(t, Viewed(e, [Some(r)]))), clean)
  {
    hide Basic, Exec, Reached, Cut, Lower, PCOK;
    var c1 := c.To(t, Descending(e, [], Some(r))); Turn1(clean, c, t, Go, c1);
    Takes1(clean, c1, t, e, r);
  }

  const firstPut := Write(Put(0, 7), None, None, 0)
  const rec7 := Record(0, 7, false, None, 0, 0, 0, false)
  const pushed := Config(1, [rec7], Trio(Some(1), None, None),
                         Trio(HelpBumping(0, ThenRetire(firstPut, 0)), Idle, Idle))

  lemma FirstLoad()
    ensures Reached(Sys(emptyTable.To(0, Installing(firstPut)).Posts(0, Some(1))), true)
  {
    IdleAll();
    Begins(true, emptyTable, 0, firstPut.op);
    hide Basic, Exec, Reached, Cut, Lower, PCOK;
    var c := emptyTable.To(0, Reserved(firstPut.op)).Posts(0, Some(1));
    var c1 := c.To(0, HeadLoaded(firstPut)); Turn1(true, c, 0, Go, c1);
    var c2 := c1.To(0, Installing(firstPut)); Turn1(true, c1, 0, Go, c2);
    assert c2 == emptyTable.To(0, Installing(firstPut)).Posts(0, Some(1));
  }

  /** Thread 0 has pushed the item 7, and has not yet drawn an epoch for it. */
  lemma FirstPush()
    ensures Reached(Sys(pushed), true)
  {
    FirstLoad();
    hide Basic, Exec, Reached, Cut, Lower, PCOK;
    var c := emptyTable.To(0, Installing(firstPut)).Posts(0, Some(1));
    Turn1(true, c, 0, Go, c.To(0, HelpBumping(0, ThenRetire(firstPut, 0))).Pushes(rec7));
    assert c.To(0, HelpBumping(0, ThenRetire(firstPut, 0))).Pushes(rec7) == pushed;
  }

  // ---- a remove over an uncommitted put -----------------------------------------------

  const erase := Write(Remove(0), Some(0), Some(0), 0)
  const gone := Record(0, 0, true, Some(0), 0, 0, 0, false)
  const removed := pushed.To(1, HelpLoading(0, ThenCommit(erase, 1))).Posts(1, Some(1)).Pushes(gone)

  const removing := pushed.To(1, Installing(erase)).Posts(1, Some(1))

  lemma RemoveBegins()
    ensures Reached(Sys(pushed.To(1, HeadLoaded(erase)).Posts(1, Some(1))), true)
  {
    FirstPush();
    Begins(true, pushed, 1, erase.op);
    hide Basic, Exec, Reached, Cut, Lower, PCOK;
    var c := pushed.To(1, Reserved(erase.op)).Posts(1, Some(1));
    Turn1(true, c, 1, Go, c.To(1, HeadLoaded(erase)));
    assert c.To(1, HeadLoaded(erase)) == pushed.To(1, HeadLoaded(erase)).Posts(1, Some(1));
  }

  lemma RemoveIsReached()
    ensures Reached(Sys(removing), true)
  {
    RemoveBegins();
    hide Basic, Exec, Reached, Cut, Lower, PCOK;
    Turn1(true, pushed.To(1, HeadLoaded(erase)).Posts(1, Some(1)), 1, Go, removing);
  }

  /** Thread 1 pushes a removal onto the record that has no epoch. */
  lemma RemovePush()
    ensures Reached(Sys(removed), false)
  {
    RemoveIsReached();
    Anyhow(Sys(removing));
    hide Basic, Exec, Reached, Cut, Lower, PCOK;
    Turn1(false, removing, 1, Go, removed);
  }

  const seesPut := Config(2, [rec7, gone.(writeEpoch := 2)], removed.slots.With(2, Some(1)),
                          removed.pcs.With(2, Viewed(1, [Some(0)])))

  const helping := removed.To(2, HelpBumping(1, ThenDescend(1, [], 1))).Posts(2, Some(1))

  lemma ViewHelpsRemoval()
    ensures Reached(Sys(helping), false)
  {
    RemovePush();
    BeginsView(false, removed);
    hide Basic, Exec, Reached, Cut, Lower, PCOK;
    var k := ThenDescend(1, [], 1);
    var c1 := removed.To(2, ViewBucket(1, [])).Posts(2, Some(1));
    var c2 := c1.To(2, HelpLoading(1, k)); Turn1(false, c1, 2, Go, c2);
    Turn1(false, c2, 2, Go, helping);
  }

  lemma ViewOverUncommitted()
    ensures Reached(Sys(seesPut), false)
  {
    ViewHelpsRemoval();
    hide Reached;
    Commits1(false, helping, 2, 1, ThenDescend(1, [], 1));
    var c := helping.Bumps().Commits(1, 2).To(2, Descending(1, [], Some(1)));
    assert c.recs == seesPut.recs;
    Descends(false, c, 2, 1, 1, 0);
    assert c.To(2, Viewed(1, [Some(0)])) == seesPut;
  }

  /** A remove may push onto a put that has no epoch yet.  A view that helps only the removal then
      takes the put for an old write: at its epoch nothing had been put. */
  lemma RemoveOverPutBreaksView()
    ensures Reached(Sys(seesPut), false) && seesPut.pcs.c == Viewed(1, [Some(0)])
    ensures Replay(seesPut.recs, 1, 1) == [None]
  {
    ViewOverUncommitted();
    hide Reached;
    var recs := seesPut.recs;
    assert CommittedAt(recs, 1, 0) == None;
    assert CommittedAt(recs, 1, 2) == None;
    assert Replay(recs, 1, 0) == [None];
  }

  // ---- a replace that starts over -----------------------------------------------------

  const put7 := rec7.(writeEpoch := 2)
  const committed7 := Config(2, [put7], Trio(None, None, None), Trio(Idle, Idle, Idle))

  /** The item 7 is committed at epoch 2 and its thread is done. */
  lemma FirstCommit()
    ensures Reached(Sys(committed7), true)
  {
    FirstPush();
    Commits1(true, pushed, 0, 0, ThenRetire(firstPut, 0));
    hide Basic, Exec, Reached, Cut, Lower, PCOK;
    var c := pushed.Bumps().Commits(0, 2).To(0, Ending);
    assert c.recs == [put7];
    Turn1(true, c, 0, Go, c.To(0, Idle).Posts(0, None));
    assert c.To(0, Idle).Posts(0, None) == committed7;
  }

  /** A thread starts a put or a replace and loads the head of the bucket. */
  lemma Loads(clean: bool, c: Config, t: nat, op: Op)
    requires t < 3 && Reached(Sys(c), clean) && c.pcs.At(t) == Idle && (op.Put? || op.Replace?) && op.bucket == 0
    requires c.recs != []
    ensures var h: nat := |c.recs| - 1;
            Reached(Sys(c.To(t, HeadLoaded(Write(op, Some(h), Some(h), 0))).Posts(t, Some(c.epoch))), clean)
  {
    Begins(clean, c, t, op);
    hide Basic, Exec, Reached, Cut, Lower, PCOK;
    var h: nat := |c.recs| - 1;
    var c0 := c.To(t, Reserved(op)).Posts(t, Some(c.epoch));
    var c1 := c.To(t, HeadLoaded(Write(op, Some(h), Some(h), 0))).Posts(t, Some(c.epoch));
    Turn1(clean, c0, t, Go, c1);
  }

  /** A thread starts a put or a replace onto a committed head and is about to install. */
  lemma BeginsStore(clean: bool, c: Config, t: nat, op: Op)
    requires t < 3 && Reached(Sys(c), clean) && c.pcs.At(t) == Idle && (op.Put? || op.Replace?) && op.bucket == 0
    requires c.recs != [] && var r := c.recs[|c.recs| - 1]; !r.deleted && r.writeEpoch != 0 && r.bucket == 0
    ensures var h: nat := |c.recs| - 1;
            var w := Write(op, Some(h), Some(h), CreateEpochOf(c.recs[h]));
            Reached(Sys(c.To(t, Installing(w)).Posts(t, Some(c.epoch))), clean)
  {
    Loads(clean, c, t, op);
    hide Basic, Exec, Reached, Cut, Lower, PCOK, Sys;
    var h: nat := |c.recs| - 1;
    var w := Write(op, Some(h), Some(h), 0);
    Copies(clean, c.To(t, HeadLoaded(w)).Posts(t, Some(c.epoch)), t, w);
  }

  /** A put or replace that has loaded a committed head copies its create epoch. */
  lemma Copies(clean: bool, c: Config, t: nat, w: Write)
    requires t < 3 && Reached(Sys(c), clean) && c.pcs.At(t) == HeadLoaded(w) && (w.op.Put? || w.op.Replace?)
    requires w.head.Some? && w.head.value < |c.recs|
    requires !c.recs[w.head.value].deleted && WE(c.recs, w.head.value) != 0
    ensures Reached(Sys(c.To(t, Installing(w.(createEpoch := CreateEpochOf(c.recs[w.head.value]))))), clean)
  {
    Examines(clean, c, t, w);
    var c1 := c.To(t, CopyingEpoch(w));
    assert ThreadOK(Sys(c1), t);
    hide Basic, Exec, Reached, Cut, Lower, PCOK;
    Turn1(clean, c1, t, Go, c.To(t, Installing(w.(createEpoch := CreateEpochOf(c.recs[w.head.value])))));
  }

  lemma Examines(clean: bool, c: Config, t: nat, w: Write)
    requires t < 3 && Reached(Sys(c), clean) && c.pcs.At(t) == HeadLoaded(w) && (w.op.Put? || w.op.Replace?)
    requires w.head.Some? && w.head.value < |c.recs|
    requires !c.recs[w.head.value].deleted && WE(c.recs, w.head.value) != 0
    ensures Reached(Sys(c.To(t, CopyingEpoch(w))), clean)
  {
    var c1 := c.To(t, HelpLoading(w.head.value, ThenCopyEpoch(w)));
    StartsHelping(clean, c, t, w);
    hide Basic, Exec, Reached, Cut, Lower, PCOK;
    Turn1(clean, c1, t, Go, c.To(t, CopyingEpoch(w)));
  }

  lemma StartsHelping(clean: bool, c: Config, t: nat, w: Write)
    requires t < 3 && Reached(Sys(c), clean) && c.pcs.At(t) == HeadLoaded(w) && (w.op.Put? || w.op.Replace?)
    requires w.head.Some? && w.head.value < |c.recs| && !c.recs[w.head.value].deleted
    ensures Reached(Sys(c.To(t, HelpLoading(w.head.value, ThenCopyEpoch(w)))), clean)
  {
    assert ThreadOK(Sys(c), t);
    hide Basic, Exec, Reached, Cut, Lower, PCOK;
    Turn1(clean, c, t, Go, c.To(t, HelpLoading(w.head.value, ThenCopyEpoch(w))));
  }

  function AfterSwap(c: Config, t: nat, w: Write): Config
    requires !w.op.View?
  {
    c.Pushes(Candidate(w)).To(t, HelpBumping(|c.recs|, ThenRetire(w, |c.recs|)))
  }

  /** A thread's swap on the head succeeds. */
  lemma Swaps(clean: bool, c: Config, t: nat, w: Write)
    requires t < 3 && Reached(Sys(c), clean) && c.pcs.At(t) == Installing(w)
    requires (w.op.Put? || w.op.Replace?) && w.op.bucket == 0
    requires c.recs != [] && w.head == Some(|c.recs| - 1)
    requires clean ==> w.next == w.head && WE(c.recs, |c.recs| - 1) != 0
    ensures Reached(Sys(AfterSwap(c, t, w)), clean)
  {
    assert ThreadOK(Sys(c), t);
    hide Basic, Exec, Reached, Cut, Lower, PCOK;
    Turn1(clean, c, t, Go, AfterSwap(c, t, w));
  }

  const swap := Write(Replace(0, 8), Some(0), Some(0), 2)
  const secondPut := Write(Put(0, 9), Some(0), Some(0), 2)
  const put9 := Record(0, 9, false, Some(0), 2, 3, 0, false)

  /** Thread 1 expects to replace the 7; thread 0 replaces it by 9 first, at epoch 3. */
  const overtaken := Config(3, [put7, put9], Trio(Some(2), Some(2), None),
                            Trio(Retiring(secondPut, 1), Installing(swap), Idle))

  lemma SecondPut()
    ensures Reached(Sys(overtaken), true)
  {
    FirstCommit();
    BeginsStore(true, committed7, 1, swap.op);
    var c := committed7.To(1, Installing(swap)).Posts(1, Some(2));
    BeginsStore(true, c, 0, secondPut.op);
    hide Reached;
    var c1 := c.To(0, Installing(secondPut)).Posts(0, Some(2));
    Swaps(true, c1, 0, secondPut);
    Commits1(true, AfterSwap(c1, 0, secondPut), 0, 1, ThenRetire(secondPut, 1));
    assert AfterSwap(c1, 0, secondPut).Bumps().Commits(1, 3).To(0, Retiring(secondPut, 1)) == overtaken;
  }

  const retry := Write(Replace(0, 8), Some(0), Some(1), 2)
  const skipping := Record(0, 8, false, Some(0), 2, 4, 0, false)

  /** A view has taken epoch 3.  Thread 1 starts over and replaces the 9 by 8 at epoch 4, but its
      record links to the 7. */
  const skipped := Config(4, [put7, put9, skipping], Trio(Some(2), Some(2), Some(3)),
                          Trio(Retiring(secondPut, 1), Retiring(retry, 2), ViewBucket(3, [])))

  const retryingLate := overtaken.To(2, ViewBucket(3, [])).Posts(2, Some(3)).To(1, Installing(retry))

  lemma RetryUnderView()
    ensures Reached(Sys(retryingLate), true)
  {
    SecondPut();
    BeginsView(true, overtaken);
    hide Basic, Exec, Reached, Cut, Lower, PCOK;
    var c1 := overtaken.To(2, ViewBucket(3, [])).Posts(2, Some(3));
    var c2 := c1.To(1, HeadLoaded(retry)); Turn1(true, c1, 1, Go, c2);
    Copies(true, c2, 1, retry);
    assert c2.To(1, Installing(retry)) == retryingLate;
  }

  lemma ReplaceRetries()
    ensures Reached(Sys(skipped), false)
  {
    RetryUnderView();
    Anyhow(Sys(retryingLate));
    hide Reached;
    Swaps(false, retryingLate, 1, retry);
    Commits1(false, AfterSwap(retryingLate, 1, retry), 1, 2, ThenRetire(retry, 2));
    assert AfterSwap(retryingLate, 1, retry).Bumps().Commits(2, 4).To(1, Retiring(retry, 2)) == skipped;
  }

  const seesOld := skipped.To(2, Viewed(3, [Some(0)]))

  lemma ViewOverSkip()
    ensures Reached(Sys(seesOld), false)
  {
    ReplaceRetries();
    hide Basic, Exec, Reached, Cut, Lower, PCOK;
    var k := ThenDescend(3, [], 2);
    var c1 := skipped.To(2, HelpLoading(2, k)); Turn1(false, skipped, 2, Go, c1);
    var c2 := c1.To(2, Descending(3, [], Some(2))); Turn1(false, c1, 2, Go, c2);
    Descends(false, c2, 2, 3, 2, 0);
  }

  /** A replace that lost a race links past the winner's record, so that a view whose epoch lies
      between the two finds the record before both. */
  lemma ReplaceRetryBreaksView()
    ensures Reached(Sys(seesOld), false) && seesOld.pcs.c == Viewed(3, [Some(0)])
    ensures Replay(seesOld.recs, 1, 3) == [Some(1)]
  {
    ViewOverSkip();
    hide Reached;
    ReplayIsNewest(seesOld.recs, 1, 0, 3, 1);
  }

  // ---- the same replace, and freed memory ---------------------------------------------

  /** Thread 1 has lost the race and starts over; its next step is a push that is not linked. */
  const retrying := overtaken.To(1, Installing(retry))

  lemma RetryIsReached()
    ensures Reached(Sys(retrying), true)
  {
    SecondPut();
    hide Basic, Exec, Reached, Cut, Lower, PCOK;
    var c := overtaken.To(1, HeadLoaded(retry)); Turn1(true, overtaken, 1, Go, c);
    Copies(true, c, 1, retry);
  }

  lemma {:induction false} CleanRunIsLinked(buckets: nat, moves: seq<Move>)
    requires Exec(buckets, moves).Some? && CleanRun(buckets, moves)
    ensures LinkedRun(buckets, moves)
  {
    hide CleanMove, LinkedMove, Basic, Apply;
    if moves != [] {
      var n := |moves| - 1;
      CleanRunIsLinked(buckets, moves[..n]);
      CleanIsLinked(Exec(buckets, moves[..n]).value, moves[n]);
    }
  }

  /** From there the run can go on so that a view steps onto a record that has been freed. */
  lemma ReplaceRetryFreesTooEarly() returns (moves: seq<Move>, t: nat, r: nat)
    ensures Exec(1, moves).Some?
    ensures var s := Exec(1, moves).value;
            t < |s.threads| && r in Touched(s, t) && r < |s.recs| && s.recs[r].freed
  {
    RetryIsReached();
    var s, m := Sys(retrying), Turn(1, Go);
    assert Allowed(s, m) && !LinkedMove(s, m) by { hide Basic; }
    var before :| Exec(1, before) == Some(s) && CleanRun(1, before);
    hide Basic, LinkedMove, Exec, Touched, Allowed;
    CleanRunIsLinked(1, before);
    var more;
    more, t, r := UnlinkedPushFreesTooEarly(1, before, m);
    moves := before + [m] + more;
  }

  // ---- a late retirement --------------------------------------------------------------

  const third := Write(Put(0, 5), Some(1), Some(1), 2)
  const rec5 := Record(0, 5, false, Some(1), 2, 0, 0, false)

  /** Thread 0 has committed the 9 at epoch 3 and is about to retire the 7; thread 2 has drawn epoch 4 for
      a 5. */
  const late := Config(4, [put7, put9, rec5], Trio(Some(2), Some(2), Some(3)),
                       Trio(Retiring(secondPut, 1), Installing(swap), HelpSwapping(2, 4, ThenRetire(third, 2))))

  lemma ThirdPut()
    ensures Reached(Sys(late), true)
  {
    SecondPut();
    BeginsStore(true, overtaken, 2, third.op);
    hide Basic, Exec, Reached, Cut, Lower, PCOK;
    var c := overtaken.To(2, Installing(third)).Posts(2, Some(3));
    Swaps(true, c, 2, third);
    var c1 := AfterSwap(c, 2, third);
    Draws1(true, c1, 2, 2, ThenRetire(third, 2));
    assert c1.To(2, HelpSwapping(2, 4, ThenRetire(third, 2))).Bumps() == late;
  }

  /** In a clean run the 7 is retired at epoch 4, although the 9 on top of it committed at epoch 3. */
  lemma RetireEpochIsLate()
    ensures Reached(Sys(late), true) && Enabled(Sys(late), 0, Go)
    ensures var recs := Step(Sys(late), 0, Go).recs;
            |recs| == 3 && Follows(recs, 1, 0) && WE(recs, 1) == 3 && RE(recs, 0) == 4
  {
    ThirdPut();
    hide Exec, NextPC;
  }
}
