/**
 * The progress tracker: a sorted set of acknowledged positions whose head is the commit position. When an
 * acknowledged position follows the head, contiguous positions are trimmed from the head.
 */
module Tracker {
  import opened Common
  import opened TextReader

  /** `TreeSet.add`: positions compare by line number, and an equal one is not added again. */
  function Insert(s: seq<Offset>, x: Offset): (t: seq<Offset>)
    ensures t != []
  {
    if s == [] || x.line < s[0].line then [x] + s
    else if x.line == s[0].line then s
    else [s[0]] + Insert(s[1..], x)
  }

  function Trim(s: seq<Offset>): (r: seq<Offset>)
    ensures s != [] ==> r != []
  {
    if |s| > 1 && s[0].IsNext(s[1]) then Trim(s[1..]) else s
  }

  function RecordAcked(s: seq<Offset>, x: Offset): seq<Offset> {
    var t := Insert(s, x);
    if t[0].IsNext(x) then Trim(t) else t
  }

  /** The tracker after the positions `xs`, acknowledged in this order. */
  function RecordAll(xs: seq<Offset>): seq<Offset> {
    if xs == [] then [] else RecordAcked(RecordAll(xs[..|xs| - 1]), xs[|xs| - 1])
  }

  ghost predicate Sorted(s: seq<Offset>) {
    forall i, j :: 0 <= i < j < |s| ==> s[i].line < s[j].line
  }

  /** The acknowledged positions of one file, by line. */
  type Acked = map<nat, Offset>

  ghost predicate Consistent(a: Acked) {
    && (forall l :: l in a ==> a[l].line == l)
    && (forall l, k :: l in a && k in a && l < k ==> a[l].chars < a[k].chars)
  }

  predicate Holds(a: Acked, o: Offset) {
    o.line in a && a[o.line] == o
  }

  /** `m` is the smallest line of `a` and `k` the end of the contiguous run from it. */
  ghost predicate Run(a: Acked, m: nat, k: nat) {
    && m <= k
    && (forall l :: l in a ==> m <= l)
    && (forall l: nat :: m <= l <= k ==> l in a)
    && k + 1 !in a
  }

  /** The tracker holds the end of the run and everything acknowledged above it. */
  ghost predicate Exact(s: seq<Offset>, a: Acked, m: nat) {
    && Sorted(s)
    && s != []
    && Run(a, m, s[0].line)
    && Above(s, a)
  }

  /** The tracker holds exactly the acknowledged positions from its head on. */
  ghost predicate Above(s: seq<Offset>, a: Acked)
    requires s != []
  {
    forall o :: o in s <==> Holds(a, o) && s[0].line <= o.line
  }

  // ---------- the sorted set ----------

  lemma ConsMembers(x: Offset, rest: seq<Offset>)
    ensures forall o :: o in [x] + rest <==> o == x || o in rest
  {
  }

  lemma ConsSorted(x: Offset, rest: seq<Offset>)
    requires Sorted(rest) && forall o :: o in rest ==> x.line < o.line
    ensures Sorted([x] + rest)
  {
  }

  ghost predicate NewLine(s: seq<Offset>, x: Offset) {
    forall o :: o in s ==> o.line != x.line
  }

  lemma {:induction false} InsertSorted(s: seq<Offset>, x: Offset)
    requires Sorted(s) && NewLine(s, x)
    ensures Sorted(Insert(s, x))
    ensures forall o :: o in Insert(s, x) <==> o in s || o == x
    ensures s != [] ==> Insert(s, x)[0] == if x.line < s[0].line then x else s[0]
  {
    if s == [] || x.line < s[0].line {
      ConsMembers(x, s);
      ConsSorted(x, s);
    } else {
      assert s[0] in s;
      var rest := s[1..];
      assert s == [s[0]] + rest;
      ConsMembers(s[0], rest);
      InsertSorted(rest, x);
      ConsMembers(s[0], Insert(rest, x));
      ConsSorted(s[0], Insert(rest, x));
    }
  }

  /** Adding any position at all, one with a line already there included, keeps the order. */
  lemma {:induction false} InsertKeepsSorted(s: seq<Offset>, x: Offset)
    requires Sorted(s)
    ensures Sorted(Insert(s, x)) && forall o :: o in Insert(s, x) ==> o in s || o == x
  {
    if s == [] || x.line < s[0].line {
      ConsMembers(x, s);
      ConsSorted(x, s);
    } else if x.line > s[0].line {
      var rest := s[1..];
      assert s == [s[0]] + rest;
      InsertKeepsSorted(rest, x);
      ConsMembers(s[0], Insert(rest, x));
      ConsSorted(s[0], Insert(rest, x));
    }
  }

  /** A position with a line that is already there is not added, and does not replace the one there. */
  lemma {:induction false} InsertExisting(s: seq<Offset>, x: Offset, i: nat)
    requires Sorted(s) && i < |s| && s[i].line == x.line
    ensures Insert(s, x) == s
  {
    if i > 0 { InsertExisting(s[1..], x, i - 1); }
  }

  lemma RecordKeepsSorted(s: seq<Offset>, x: Offset)
    requires Sorted(s)
    ensures Sorted(RecordAcked(s, x))
  {
    InsertKeepsSorted(s, x);
    TrimDropsRun(Insert(s, x));
  }

  lemma {:induction false} SortedUnique(s: seq<Offset>, t: seq<Offset>)
    requires Sorted(s) && Sorted(t) && forall o :: o in s <==> o in t
    ensures s == t
  {
    assert t != [] ==> t[0] in t;
    if s != [] {
      assert s[0] in t;
      assert t[0] in s;
      assert s[0] == t[0];
      forall o ensures o in s[1..] <==> o in t[1..] {
        SuffixMembers(s, 1, o);
        SuffixMembers(t, 1, o);
      }
      SortedUnique(s[1..], t[1..]);
    }
  }

  lemma SuffixMembers(t: seq<Offset>, n: nat, o: Offset)
    requires Sorted(t) && n <= |t|
    ensures o in t[n..] <==> o in t && (n < |t| && t[n].line <= o.line)
  {
    if o in t {
      var i :| 0 <= i < |t| && t[i] == o;
      if n <= i { assert t[n..][i - n] == o; }
    }
  }

  /** Trimming drops a front part of consecutive lines and stops where the next line is missing. */
  lemma {:induction false} TrimDropsRun(t: seq<Offset>)
    requires Sorted(t) && t != []
    ensures var r := Trim(t);
            && 0 < |r| <= |t| && r == t[|t| - |r|..]
            && (forall i :: 0 <= i <= |t| - |r| ==> t[i].line == t[0].line + i)
            && !(|r| > 1 && r[0].IsNext(r[1]))
  {
    if |t| > 1 && t[0].IsNext(t[1]) {
      var u := t[1..];
      TrimDropsRun(u);
      var r := Trim(t);
      forall i | 0 <= i <= |t| - |r| ensures t[i].line == t[0].line + i {
        if i > 0 { assert t[i] == u[i - 1]; }
      }
    }
  }

  // ---------- exactness ----------

  lemma NextLineMissing(r: seq<Offset>, a: Acked)
    requires r != [] && Sorted(r) && Above(r, a) && Consistent(a)
    requires !(|r| > 1 && r[0].IsNext(r[1]))
    ensures r[0].line + 1 !in a
  {
    var l := r[0].line + 1;
    if l in a {
      assert Holds(a, a[l]);
      assert a[l] in r && r[0] in r;
      var i :| 0 <= i < |r| && r[i] == a[l];
      assert false;
    }
  }

  /** The first position of a session. */
  lemma FirstRecordExact(x: Offset)
    ensures Exact(RecordAcked([], x), map[x.line := x], x.line)
  {
  }

  lemma SuffixAbove(t: seq<Offset>, a: Acked, n: nat)
    requires n < |t| && Sorted(t) && Above(t, a)
    ensures Above(t[n..], a)
  {
    forall o ensures o in t[n..] <==> Holds(a, o) && t[n].line <= o.line {
      SuffixMembers(t, n, o);
    }
  }

  /** Every line from the old head to the new one was held. */
  lemma TrimReaches(t: seq<Offset>, a: Acked, l: nat)
    requires t != [] && Sorted(t) && (forall o :: o in t ==> Holds(a, o))
    requires t[0].line <= l <= Trim(t)[0].line
    ensures l in a
  {
    TrimDropsRun(t);
    assert t[l - t[0].line].line == l;
    assert t[l - t[0].line] in t;
  }

  lemma SuffixSorted(t: seq<Offset>, n: nat)
    requires Sorted(t) && n <= |t|
    ensures Sorted(t[n..])
  {
  }

  lemma TrimIsSuffix(t: seq<Offset>)
    requires Sorted(t) && t != []
    ensures var n := |t| - |Trim(t)|;
            0 <= n < |t| && Trim(t) == t[n..] && t[n].line == t[0].line + n
  {
    TrimDropsRun(t);
  }

  lemma TrimStops(t: seq<Offset>, a: Acked)
    requires Sorted(t) && t != [] && Sorted(Trim(t)) && Above(Trim(t), a) && Consistent(a)
    ensures Trim(t)[0].line + 1 !in a
  {
    TrimDropsRun(t);
    NextLineMissing(Trim(t), a);
  }

  lemma SuffixGood(t: seq<Offset>, a: Acked, n: nat, r: seq<Offset>)
    requires n < |t| && Sorted(t) && Above(t, a) && r == t[n..]
    ensures Sorted(r) && Above(r, a)
  {
    SuffixSorted(t, n);
    SuffixAbove(t, a, n);
  }

  lemma TrimmedAbove(t: seq<Offset>, a: Acked)
    requires t != [] && Sorted(t) && Above(t, a) && Consistent(a)
    ensures var r := Trim(t);
            Sorted(r) && Above(r, a) && t[0].line <= r[0].line && r[0].line + 1 !in a
  {
    TrimIsSuffix(t);
    SuffixGood(t, a, |t| - |Trim(t)|, Trim(t));
    TrimStops(t, a);
  }

  lemma TrimmedRun(t: seq<Offset>, a: Acked, m: nat)
    requires t != [] && Sorted(t) && (forall o :: o in t ==> Holds(a, o))
    requires forall l: nat :: m <= l <= t[0].line ==> l in a
    ensures forall l: nat :: m <= l <= Trim(t)[0].line ==> l in a
  {
    forall l: nat | m <= l <= Trim(t)[0].line ensures l in a {
      if l > t[0].line { TrimReaches(t, a, l); }
    }
  }

  lemma TrimmedExact(t: seq<Offset>, a: Acked, m: nat)
    requires t != [] && Sorted(t) && Above(t, a) && Consistent(a)
    requires m <= t[0].line && (forall l :: l in a ==> m <= l)
    requires forall l: nat :: m <= l <= t[0].line ==> l in a
    ensures Exact(Trim(t), a, m) && t[0].line <= Trim(t)[0].line
  {
    TrimmedAbove(t, a);
    TrimmedRun(t, a, m);
  }

  lemma LargerStaysExact(s: seq<Offset>, a: Acked, m: nat, x: Offset)
    requires Exact(s, a, m) && Consistent(a[x.line := x]) && x.line !in a && m < x.line
    ensures Exact(RecordAcked(s, x), a[x.line := x], m)
    ensures s[0].line <= RecordAcked(s, x)[0].line
  {
    var b := a[x.line := x];
    var t := Insert(s, x);
    assert s[0] in s && s[0].line < x.line;
    InsertSorted(s, x);
    assert Above(t, b);
    if t[0].IsNext(x) {
      TrimmedExact(t, b, m);
    } else {
      assert Holds(b, t[0]) && Holds(b, x);
      assert x.line != t[0].line + 1;
    }
  }

  lemma SmallerHead(s: seq<Offset>, a: Acked, m: nat, x: Offset)
    requires Exact(s, a, m) && x.line < m
    ensures RecordAcked(s, x) == [x] + s
  {
    assert s[0].line >= m;
  }

  /**
   * One acknowledgement keeps the tracker exact exactly when its line lies above the smallest one so far,
   * or below it with a gap while nothing has been trimmed yet.
   */
  lemma RecordExactIff(s: seq<Offset>, a: Acked, m: nat, x: Offset)
    requires Exact(s, a, m) && Consistent(a[x.line := x]) && x.line !in a
    ensures Exact(RecordAcked(s, x), a[x.line := x], if x.line < m then x.line else m)
            <==> m < x.line || (x.line + 1 < m && s[0].line == m)
  {
    assert m in a;
    var b := a[x.line := x];
    ConsistentPart(a, x);
    if m < x.line {
      LargerStaysExact(s, a, m, x);
    } else {
      var t := [x] + s;
      SmallerHead(s, a, m, x);
      ConsMembers(x, s);
      assert Holds(a, a[m]) && Holds(b, a[m]);
      if x.line + 1 < m && s[0].line == m {
        ConsSorted(x, s);
        assert Above(t, b);
        assert Run(b, x.line, x.line);
      } else if x.line + 1 == m {
        assert x.line + 1 in b;
      } else {
        assert a[m] !in s && a[m] !in t;
      }
    }
  }

  /** Every position of `xs`, by line. */
  ghost function Positions(xs: seq<Offset>): Acked {
    if xs == [] then map[]
    else var x := xs[|xs| - 1]; Positions(xs[..|xs| - 1])[x.line := x]
  }

  ghost predicate DistinctLines(xs: seq<Offset>) {
    xs != [] ==> DistinctLines(xs[..|xs| - 1]) && xs[|xs| - 1].line !in Positions(xs[..|xs| - 1])
  }

  ghost predicate FirstSmallest(xs: seq<Offset>) {
    xs != [] && forall i :: 0 < i < |xs| ==> xs[0].line < xs[i].line
  }

  lemma ConsistentPart(a: Acked, x: Offset)
    requires Consistent(a[x.line := x]) && x.line !in a
    ensures Consistent(a)
  {
    forall l | l in a ensures a[l].line == l { assert a[x.line := x][l] == a[l]; }
    forall l, k | l in a && k in a && l < k ensures a[l].chars < a[k].chars {
      assert a[x.line := x][l] == a[l] && a[x.line := x][k] == a[k];
    }
  }

  /** With the smallest line first, the tracker is exact after any order of the others. */
  lemma {:induction false} TrackerExact(xs: seq<Offset>)
    requires FirstSmallest(xs) && DistinctLines(xs) && Consistent(Positions(xs))
    ensures Exact(RecordAll(xs), Positions(xs), xs[0].line)
  {
    var n := |xs| - 1;
    var x := xs[n];
    var before := xs[..n];
    if n == 0 {
      assert before == [];
      FirstRecordExact(x);
    } else {
      ConsistentPart(Positions(before), x);
      TrackerExact(before);
      LargerStaysExact(RecordAll(before), Positions(before), xs[0].line, x);
    }
  }

  lemma {:induction false} SmallestOf(xs: seq<Offset>)
    requires FirstSmallest(xs)
    ensures xs[0].line in Positions(xs) && forall l :: l in Positions(xs) ==> xs[0].line <= l
  {
    var before := xs[..|xs| - 1];
    if |xs| > 1 {
      SmallestOf(before);
    } else {
      assert before == [];
    }
  }

  lemma RunEndUnique(a: Acked, m: nat, k1: nat, k2: nat)
    requires Run(a, m, k1) && Run(a, m, k2)
    ensures k1 == k2
  {
  }

  /** Order independence: only the set of acknowledged positions matters. */
  lemma {:induction false} OrderIndependent(xs: seq<Offset>, ys: seq<Offset>)
    requires FirstSmallest(xs) && DistinctLines(xs) && Consistent(Positions(xs))
    requires FirstSmallest(ys) && DistinctLines(ys) && Positions(xs) == Positions(ys)
    ensures RecordAll(xs) == RecordAll(ys)
  {
    TrackerExact(xs);
    TrackerExact(ys);
    SmallestOf(xs);
    SmallestOf(ys);
    var (s, t, a) := (RecordAll(xs), RecordAll(ys), Positions(xs));
    RunEndUnique(a, xs[0].line, s[0].line, t[0].line);
    SortedUnique(s, t);
  }

  /** One more acknowledgement does not move the commit position back. */
  lemma HeadStep(xs: seq<Offset>)
    requires FirstSmallest(xs) && DistinctLines(xs) && Consistent(Positions(xs)) && |xs| > 1
    ensures var before := xs[..|xs| - 1];
            && FirstSmallest(before) && DistinctLines(before) && Consistent(Positions(before))
            && RecordAll(before) != [] && RecordAll(xs) != [] && RecordAll(before)[0].line <= RecordAll(xs)[0].line
  {
    var (x, before) := (xs[|xs| - 1], xs[..|xs| - 1]);
    ConsistentPart(Positions(before), x);
    TrackerExact(before);
    LargerStaysExact(RecordAll(before), Positions(before), xs[0].line, x);
  }

  /** The commit position never moves back. */
  lemma {:induction false} HeadNeverDecreases(xs: seq<Offset>, n: nat)
    requires FirstSmallest(xs) && DistinctLines(xs) && Consistent(Positions(xs)) && 0 < n <= |xs|
    ensures RecordAll(xs[..n]) != [] && RecordAll(xs) != []
    ensures RecordAll(xs[..n])[0].line <= RecordAll(xs)[0].line
    decreases |xs|
  {
    if n == |xs| {
      assert xs[..n] == xs;
      TrackerExact(xs);
    } else {
      HeadStep(xs);
      HeadNeverDecreases(xs[..|xs| - 1], n);
      assert xs[..|xs| - 1][..n] == xs[..n];
    }
  }

  // ---------- when the commit position may be trusted ----------

  /** Every line from `first` up to the head was acknowledged. */
  ghost predicate HeadSafe(s: seq<Offset>, a: Acked, first: nat) {
    s != [] && forall l: nat :: first <= l <= s[0].line ==> l in a
  }

  /** What holds of the tracker after any acknowledgements whatsoever. */
  ghost predicate Tracks(s: seq<Offset>, a: Acked) {
    Sorted(s) && (forall o :: o in s ==> Holds(a, o)) && (a != map[] ==> s != [])
  }

  ghost predicate AtOrAbove(a: Acked, first: nat) {
    forall l :: l in a ==> first <= l
  }

  lemma TrimTracks(t: seq<Offset>, a: Acked, first: nat)
    requires t != [] && Tracks(t, a)
    ensures Tracks(Trim(t), a)
    ensures HeadSafe(t, a, first) ==> HeadSafe(Trim(t), a, first)
  {
    TrimDropsRun(t);
    if HeadSafe(t, a, first) { TrimmedRun(t, a, first); }
  }

  /** Once line `first` is acknowledged the head is safe, and stays so, in any order. */
  lemma SafeStep(s: seq<Offset>, a: Acked, x: Offset, first: nat)
    requires Tracks(s, a) && AtOrAbove(a[x.line := x], first) && x.line !in a
    requires first in a ==> HeadSafe(s, a, first)
    ensures var b := a[x.line := x];
            Tracks(RecordAcked(s, x), b) && (first in b ==> HeadSafe(RecordAcked(s, x), b, first))
  {
    var b := a[x.line := x];
    var t := Insert(s, x);
    InsertSorted(s, x);
    assert Tracks(t, b);
    if first in b {
      if s != [] { assert s[0] in s; }
      if x.line == first {
        assert t[0] == x;
      } else {
        assert first in a && s != [] && s[0].line < x.line;
      }
      assert HeadSafe(t, b, first);
    }
    TrimTracks(t, b, first);
  }

  lemma {:induction false} SafeAfter(xs: seq<Offset>, first: nat)
    requires DistinctLines(xs) && AtOrAbove(Positions(xs), first)
    ensures Tracks(RecordAll(xs), Positions(xs))
    ensures first in Positions(xs) ==> HeadSafe(RecordAll(xs), Positions(xs), first)
  {
    if xs != [] {
      var before := xs[..|xs| - 1];
      assert forall l :: l in Positions(before) ==> l in Positions(xs);
      SafeAfter(before, first);
      SafeStep(RecordAll(before), Positions(before), xs[|xs| - 1], first);
    }
  }

  /**
   * For every order of acknowledgements: everything up to the commit position has been acknowledged if
   * and only if the first line of the session has.
   */
  lemma CommitPositionSafeIff(xs: seq<Offset>, first: nat)
    requires xs != [] && DistinctLines(xs) && AtOrAbove(Positions(xs), first)
    ensures HeadSafe(RecordAll(xs), Positions(xs), first) <==> first in Positions(xs)
  {
    SafeAfter(xs, first);
    var s := RecordAll(xs);
    assert xs[|xs| - 1].line in Positions(xs);
    assert s[0] in s;
  }

  /** Lines 1 and 2 acknowledged in the wrong order: the head stays at 1 for good. */
  lemma StuckHead(x: Offset, y: Offset)
    requires x.line == 1 && y.line == 2 && x.chars < y.chars
    ensures RecordAll([x, y]) == [y]
    ensures RecordAll([y, x]) == [x, y]
  {
    assert [x, y][..1] == [x] && [y, x][..1] == [y];
    RecordOne(x);
    RecordOne(y);
    assert Insert([], y) == [y];
    assert [x][1..] == [];
    assert Insert([x], y) == [x] + [y];
    assert RecordAll([x, y]) == RecordAcked([x], y);
    assert [x] + [y] == [x, y] && [x, y][1..] == [y];
    assert Trim([y]) == [y];
    assert Trim([x, y]) == Trim([y]);
  }

  lemma RecordOne(x: Offset)
    ensures RecordAll([x]) == [x]
  {
    assert [x][..0] == [];
    assert RecordAll([]) == [];
    assert Insert([], x) == [x];
  }

  class ProgressTracker {
    var offsets: seq<Offset>

    /** The set is kept in order of the lines. */
    ghost predicate Valid()
      reads this
    {
      Sorted(offsets)
    }

    constructor ()
      ensures Valid() && offsets == []
    {
      offsets := [];
    }

    method RecordAckedOffset(x: Offset)
      requires Valid()
      modifies this
      ensures Valid() && offsets == RecordAcked(old(offsets), x)
    {
      RecordKeepsSorted(offsets, x);
      offsets := Insert(offsets, x);
      if offsets[0].IsNext(x) { TrimHead(); }
    }

    method TrimHead()
      modifies this
      ensures offsets == Trim(old(offsets))
      decreases |offsets|
    {
      if |offsets| <= 1 { return; }
      if offsets[0].IsNext(offsets[1]) {
        offsets := offsets[1..];
        TrimHead();
      }
    }

    method GetCommitPosition() returns (position: Option<Offset>)
      requires Valid()
      ensures position == if offsets == [] then None else Some(offsets[0])
      ensures position.Some? ==> forall o :: o in offsets && o != position.value ==> position.value.line < o.line
    {
      position := if offsets == [] then None else Some(offsets[0]);
    }
  }
}
