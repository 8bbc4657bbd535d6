/** Cleaning the style runs of a string. */
module Styles {
  import opened Options

  /** A style that applies to the codepoints from start up to, not including, end. */
  datatype Entry = Entry(start: int, end: int, info: int)

  predicate Covers(e: Entry, x: int) { e.start <= x < e.end }

  /** The style of a codepoint: that of the first entry that covers it. */
  function StyleAt(es: seq<Entry>, x: int): Option<int>
  {
    if es == [] then None
    else if Covers(es[0], x) then Some(es[0].info)
    else StyleAt(es[1..], x)
  }

  /** What the loop keeps of an entry, given where the entry kept last ends. */
  function Kept(end: int, e: Entry): Option<Entry>
  {
    if e.end <= end then None
    else
      var start := if end > e.start then end else e.start;
      if start >= e.end then None else Some(e.(start := start))
  }

  /** The runs kept from the first n entries. */
  function CleanUpTo(es: seq<Entry>, n: nat): (r: seq<Entry>)
    requires 1 <= n <= |es|
    ensures 1 <= |r| <= n
  {
    if n == 1 then [es[0]]
    else
      var before := CleanUpTo(es, n - 1);
      match Kept(before[|before| - 1].end, es[n - 1])
      case None => before
      case Some(e) => before + [e]
  }

  function Clean(es: seq<Entry>): seq<Entry>
  {
    if |es| < 2 then es else CleanUpTo(es, |es|)
  }

  class Styling {
    var entries: array<Entry>
    var count: nat

    predicate Valid() reads this { count <= entries.Length }

    constructor (es: seq<Entry>)
      ensures Valid() && fresh(entries) && entries[..count] == es
    {
      entries := new Entry[|es|](i requires 0 <= i < |es| => es[i]);
      count := |es|;
    }
  }

  /** c4m_clean_styles: compacts the entries in place.  A string may have no styling at all. */
  method CleanStyles(s: Styling?)
    requires s != null ==> s.Valid()
    modifies if s == null then {} else {s, s.entries}
    ensures s != null ==>
              && s.Valid() && s.entries == old(s.entries) && s.count <= old(s.count)
              && s.entries[..s.count] == Clean(old(s.entries[..s.count]))
              && s.entries[old(s.count)..] == old(s.entries[s.count..])
  {
    if s == null || s.count < 2 { return; }
    var a := s.entries;
    var move := Compact(a, s.count);
    s.count := s.count - move;
  }

  /** The loop of c4m_clean_styles over the n entries of a; `move` counts those dropped. */
  method Compact(a: array<Entry>, n: nat) returns (move: nat)
    requires 2 <= n <= a.Length
    modifies a
    ensures move < n && a[..n - move] == CleanUpTo(old(a[..n]), n)
    ensures a[n..] == old(a[n..])
  {
    ghost var was := a[..];
    move := 0;
    var prev := a[0];
    var i := 1;
    hide Done, Kept;
    FirstDone(was);
    while i < n
      invariant 1 <= i <= n && 0 <= move < i
      invariant prev == a[i - move - 1] && Done(was, a[..], i, move)
    {
      var cur := a[i];
      OneMore(was, a[..], i, move);
      if cur.end <= prev.end {
        move, i := move + 1, i + 1;
        continue;
      }
      if prev.end > cur.start { cur := cur.(start := prev.end); }
      if cur.start >= cur.end {
        move, i := move + 1, i + 1;
        continue;
      }
      a[i - move] := cur;
      prev := cur;
      i := i + 1;
    }
    AllDone(was, a[..], n, move);
  }

  /** The first i entries have been compacted, and the others are as they were. */
  ghost predicate Done(was: seq<Entry>, now: seq<Entry>, i: nat, move: nat)
  {
    && move < i <= |was| == |now|
    && now[..i - move] == CleanUpTo(was, i) && now[i..] == was[i..]
  }

  lemma FirstDone(was: seq<Entry>)
    requires was != []
    ensures Done(was, was, 1, 0)
  {
  }

  lemma OneMore(was: seq<Entry>, now: seq<Entry>, i: nat, move: nat)
    requires Done(was, now, i, move) && i < |was| == |now| && move < i
    ensures var cur, end := now[i], now[i - move - 1].end;
            var start := if end > cur.start then end else cur.start;
            if cur.end <= end || start >= cur.end then Done(was, now, i + 1, move + 1)
            else Done(was, now[i - move := cur.(start := start)], i + 1, move)
  {
    assert now[i] == was[i] by { assert now[i] == now[i..][0] && was[i] == was[i..][0]; }
    var before := CleanUpTo(was, i);
    assert before[|before| - 1] == now[i - move - 1];
    var cur, end := now[i], now[i - move - 1].end;
    var start := if end > cur.start then end else cur.start;
    if !(cur.end <= end || start >= cur.end) {
      var e := cur.(start := start);
      var after := now[i - move := e];
      assert after[..i - move + 1] == now[..i - move] + [e];
    }
  }

  lemma AllDone(was: seq<Entry>, now: seq<Entry>, n: nat, move: nat)
    requires Done(was, now, n, move) && 2 <= n <= |was| == |now|
    ensures now[..n - move] == CleanUpTo(was[..n], n) && now[n..] == was[n..]
  {
    PrefixOnly(was, n, n);
  }

  lemma {:induction false} PrefixOnly(es: seq<Entry>, n: nat, m: nat)
    requires 1 <= m <= n <= |es|
    ensures CleanUpTo(es, m) == CleanUpTo(es[..n], m)
  {
    if m > 1 { PrefixOnly(es, n, m - 1); }
  }

  // ---- what the runs look like --------------------------------------------------------

  /** The runs follow each other without overlap, and only the first may be empty. */
  ghost predicate Disjoint(r: seq<Entry>)
  {
    && (forall i, j :: 0 <= i < j < |r| ==> r[i].end <= r[j].start)
    && (forall i :: 1 <= i < |r| ==> r[i].start < r[i].end)
  }

  lemma {:induction false} CleanUpToIsDisjoint(es: seq<Entry>, n: nat)
    requires 1 <= n <= |es|
    ensures Disjoint(CleanUpTo(es, n))
  {
    if n > 1 {
      CleanUpToIsDisjoint(es, n - 1);
      var r := CleanUpTo(es, n - 1);
      assert forall i :: 0 <= i < |r| - 1 ==> r[i].end <= r[|r| - 1].start < r[|r| - 1].end;
    }
  }

  /** Whatever the entries are, cleaning leaves disjoint runs in increasing order. */
  lemma CleanIsDisjoint(es: seq<Entry>)
    ensures Disjoint(Clean(es))
  {
    if |es| >= 2 { CleanUpToIsDisjoint(es, |es|); }
  }

  lemma {:induction false} DisjointIsClean(r: seq<Entry>, n: nat)
    requires Disjoint(r) && 1 <= n <= |r|
    ensures CleanUpTo(r, n) == r[..n]
  {
    if n > 1 {
      DisjointIsClean(r, n - 1);
      assert r[n - 2].end <= r[n - 1].start;
      assert r[..n] == r[..n - 1] + [r[n - 1]];
    }
  }

  /** Cleaning twice is cleaning once, and exactly the disjoint lists are left as they are. */
  lemma CleanIsIdempotent(es: seq<Entry>)
    ensures Clean(Clean(es)) == Clean(es)
    ensures Clean(es) == es <==> Disjoint(es)
  {
    CleanIsDisjoint(es);
    if |Clean(es)| >= 2 { DisjointIsClean(Clean(es), |Clean(es)|); }
    if |es| >= 2 && Disjoint(es) { DisjointIsClean(es, |es|); }
  }

  // ---- what the runs mean -------------------------------------------------------------

  /** How far the first n entries reach; of the empty entries only the first counts. */
  function Reach(es: seq<Entry>, n: nat): int
    requires 1 <= n <= |es|
  {
    if n == 1 then es[0].end
    else
      var e, before := es[n - 1], Reach(es, n - 1);
      if e.start < e.end && before < e.end then e.end else before
  }

  /** Codepoint x of entry i, if entries before i reach beyond it, is covered by one of them. */
  ghost predicate NoGapAt(es: seq<Entry>, i: nat, x: int)
    requires i < |es|
  {
    0 < i && Covers(es[i], x) && x < Reach(es, i) ==> exists j :: 0 <= j < i && Covers(es[j], x)
  }

  /** No entry reaches back into a gap between earlier entries. */
  ghost predicate NoGaps(es: seq<Entry>)
  {
    forall i, x :: 0 <= i < |es| ==> NoGapAt(es, i, x)
  }

  lemma {:induction false} StyleOfConcat(a: seq<Entry>, b: seq<Entry>, x: int)
    ensures StyleAt(a + b, x) == if StyleAt(a, x).Some? then StyleAt(a, x) else StyleAt(b, x)
  {
    if a == [] {
      assert a + b == b;
    } else {
      StyleOfConcat(a[1..], b, x);
      assert (a + b)[1..] == a[1..] + b;
    }
  }

  lemma {:induction false} StyledIsCovered(es: seq<Entry>, x: int)
    ensures StyleAt(es, x).Some? <==> exists j :: 0 <= j < |es| && Covers(es[j], x)
  {
    if es != [] {
      StyledIsCovered(es[1..], x);
      if StyleAt(es[1..], x).Some? {
        var j :| 0 <= j < |es| - 1 && Covers(es[1..][j], x);
        assert Covers(es[j + 1], x);
      }
      if j :| 1 <= j < |es| && Covers(es[j], x) { assert Covers(es[1..][j - 1], x); }
    }
  }

  lemma {:induction false} LastEndIsReach(es: seq<Entry>, n: nat)
    requires 1 <= n <= |es|
    ensures var r := CleanUpTo(es, n); r[|r| - 1].end == Reach(es, n)
  {
    if n > 1 { LastEndIsReach(es, n - 1); }
  }

  lemma {:induction false} CoveredIsReached(es: seq<Entry>, n: nat, j: nat, x: int)
    requires 1 <= n <= |es| && j < n && Covers(es[j], x)
    ensures x < Reach(es, n)
  {
    if j < n - 1 { CoveredIsReached(es, n - 1, j, x); }
  }

  /** The runs kept from the first n entries give x its style exactly if x is in no gap that one of
      these entries reaches back into; in any case they cover nothing new. */
  lemma {:induction false} StyleUpTo(es: seq<Entry>, n: nat, x: int)
    requires 1 <= n <= |es|
    ensures StyleAt(CleanUpTo(es, n), x) == StyleAt(es[..n], x) <==> forall i :: 0 <= i < n ==> NoGapAt(es, i, x)
    ensures StyleAt(CleanUpTo(es, n), x).Some? ==> StyleAt(es[..n], x).Some?
  {
    if n == 1 {
      assert es[..1] == [es[0]];
    } else {
      var e, end := es[n - 1], Reach(es, n - 1);
      StyleUpTo(es, n - 1, x);
      assert es[..n] == es[..n - 1] + [e];
      StyleOfConcat(es[..n - 1], [e], x);
      LastGap(es, n, x);
      LastRun(es, n, x);
      hide NoGapAt, Reach, CleanUpTo;
      assert (forall i :: 0 <= i < n ==> NoGapAt(es, i, x))
        <==> (forall i :: 0 <= i < n - 1 ==> NoGapAt(es, i, x)) && NoGapAt(es, n - 1, x);
    }
  }

  /** What one more entry adds to the runs: its part from the reach of the others on. */
  lemma LastRun(es: seq<Entry>, n: nat, x: int)
    requires 1 < n <= |es|
    ensures var before := StyleAt(CleanUpTo(es, n - 1), x);
            StyleAt(CleanUpTo(es, n), x)
            == if before.Some? then before
               else if Covers(es[n - 1], x) && Reach(es, n - 1) <= x then Some(es[n - 1].info) else None
  {
    LastEndIsReach(es, n - 1);
    var kept := Kept(Reach(es, n - 1), es[n - 1]);
    if kept.Some? { StyleOfConcat(CleanUpTo(es, n - 1), [kept.value], x); }
  }

  lemma LastGap(es: seq<Entry>, n: nat, x: int)
    requires 1 < n <= |es|
    ensures NoGapAt(es, n - 1, x) <==> (Covers(es[n - 1], x) && x < Reach(es, n - 1) ==> StyleAt(es[..n - 1], x).Some?)
    ensures StyleAt(es[..n - 1], x).Some? ==> x < Reach(es, n - 1)
  {
    var first := es[..n - 1];
    StyledIsCovered(first, x);
    assert forall j :: 0 <= j < n - 1 ==> first[j] == es[j];
    if j :| 0 <= j < n - 1 && Covers(first[j], x) { CoveredIsReached(es, n - 1, j, x); }
  }

  ghost predicate SameStyle(es: seq<Entry>, x: int) { StyleAt(Clean(es), x) == StyleAt(es, x) }

  lemma StyleKept(es: seq<Entry>, x: int)
    ensures SameStyle(es, x) <==> forall i :: 0 <= i < |es| ==> NoGapAt(es, i, x)
  {
    if |es| >= 2 {
      assert es[..|es|] == es;
      StyleUpTo(es, |es|, x);
    }
  }

  /** Cleaning keeps the style of every codepoint exactly if no entry reaches back into a gap
      between earlier entries. */
  lemma CleanKeepsStylesExactly(es: seq<Entry>)
    ensures (forall x :: SameStyle(es, x)) <==> NoGaps(es)
  {
    forall x ensures SameStyle(es, x) <==> forall i :: 0 <= i < |es| ==> NoGapAt(es, i, x) { StyleKept(es, x); }
    if x :| !SameStyle(es, x) {
    } else {
      forall i, x | 0 <= i < |es| ensures NoGapAt(es, i, x) { assert SameStyle(es, x); }
    }
  }

  ghost predicate SortedByStart(es: seq<Entry>)
  {
    forall i, j :: 0 <= i < j < |es| ==> es[i].start <= es[j].start
  }

  lemma {:induction false} ReachIsSome(es: seq<Entry>, n: nat) returns (k: nat)
    requires 1 <= n <= |es|
    ensures k < n && es[k].end == Reach(es, n)
  {
    if n == 1 { return 0; }
    var e := es[n - 1];
    if e.start < e.end && Reach(es, n - 1) < e.end { return n - 1; }
    k := ReachIsSome(es, n - 1);
  }

  /** On entries sorted by start, cleaning keeps the style of every codepoint. */
  lemma SortedKeepsStyles(es: seq<Entry>, x: int)
    requires SortedByStart(es)
    ensures StyleAt(Clean(es), x) == StyleAt(es, x)
  {
    forall i, y | 0 <= i < |es| ensures NoGapAt(es, i, y) {
      if 0 < i && Covers(es[i], y) && y < Reach(es, i) {
        var k := ReachIsSome(es, i);
        assert Covers(es[k], y);
      }
    }
    CleanKeepsStylesExactly(es);
    assert SameStyle(es, x);
  }

  /** An entry out of order loses its style. */
  lemma UnsortedLosesStyle()
    ensures var es := [Entry(5, 9, 1), Entry(0, 3, 2)];
            Clean(es) == [Entry(5, 9, 1)] && StyleAt(es, 1) == Some(2) && StyleAt(Clean(es), 1) == None
  {
    var es := [Entry(5, 9, 1), Entry(0, 3, 2)];
    assert CleanUpTo(es, 1) == [es[0]];
  }
}
