/** Finite directed graphs as `tools/crate_coupling_report.py` passes them around: a dictionary from a
    vertex to its successors.  A vertex without an entry has no successors. */
module Digraph {

  // The order of `g[x]` stands for the order in which one run happens to enumerate a successor set.
  type Graph = map<string, seq<string>>

  predicate Edge(g: Graph, x: string, y: string) {
    x in g && y in g[x]
  }

  ghost predicate Walk(g: Graph, x: string, y: string, n: nat)
    decreases n
  {
    if n == 0 then x == y else exists z :: Edge(g, x, z) && Walk(g, z, y, n - 1)
  }

  ghost predicate Reach(g: Graph, x: string, y: string) {
    exists n: nat :: Walk(g, x, y, n)
  }

  ghost predicate Mutual(g: Graph, x: string, y: string) {
    Reach(g, x, y) && Reach(g, y, x)
  }

  // No edge leaves `s`.
  ghost predicate Closed(g: Graph, s: set<string>) {
    forall x, y :: x in s && Edge(g, x, y) ==> y in s
  }

  lemma ReachRefl(g: Graph, x: string)
    ensures Reach(g, x, x)
  {
    assert Walk(g, x, x, 0);
  }

  lemma {:induction false} WalkAppend(g: Graph, x: string, y: string, z: string, m: nat, n: nat)
    requires Walk(g, x, y, m) && Walk(g, y, z, n)
    ensures Walk(g, x, z, m + n)
    decreases m
  {
    if m > 0 {
      var u :| Edge(g, x, u) && Walk(g, u, y, m - 1);
      WalkAppend(g, u, y, z, m - 1, n);
    }
  }

  lemma ReachTrans(g: Graph, x: string, y: string, z: string)
    requires Reach(g, x, y) && Reach(g, y, z)
    ensures Reach(g, x, z)
  {
    var m: nat :| Walk(g, x, y, m);
    var n: nat :| Walk(g, y, z, n);
    WalkAppend(g, x, y, z, m, n);
  }

  lemma ReachEdge(g: Graph, x: string, y: string)
    requires Edge(g, x, y)
    ensures Reach(g, x, y)
  {
    assert Walk(g, y, y, 0);
    assert Walk(g, x, y, 1);
  }

  lemma {:induction false} WalkStaysInside(g: Graph, s: set<string>, x: string, y: string, n: nat)
    requires Closed(g, s) && x in s && Walk(g, x, y, n)
    ensures y in s
    decreases n
  {
    if n > 0 {
      var u :| Edge(g, x, u) && Walk(g, u, y, n - 1);
      WalkStaysInside(g, s, u, y, n - 1);
    }
  }

  lemma ReachStaysInside(g: Graph, s: set<string>, x: string, y: string)
    requires Closed(g, s) && x in s && Reach(g, x, y)
    ensures y in s
  {
    var n: nat :| Walk(g, x, y, n);
    WalkStaysInside(g, s, x, y, n);
  }
}

/** The order in which Python's `sorted` lists strings: lexicographic by code point. */
module StringOrder {

  predicate Below(a: string, b: string) {
    b != [] && (a == [] || a[0] < b[0] || (a[0] == b[0] && Below(a[1..], b[1..])))
  }

  predicate Ascending(s: seq<string>) {
    forall i, j :: 0 <= i < j < |s| ==> Below(s[i], s[j])
  }

  predicate Distinct(s: seq<string>) {
    forall i, j :: 0 <= i < j < |s| ==> s[i] != s[j]
  }

  lemma {:induction false} BelowTrichotomy(a: string, b: string)
    ensures Below(a, b) || Below(b, a) || a == b
    decreases |a|
  {
    if a != [] && b != [] && a[0] == b[0] {
      BelowTrichotomy(a[1..], b[1..]);
      assert a == [a[0]] + a[1..] && b == [b[0]] + b[1..];
    }
  }

  lemma {:induction false} BelowTransitive(a: string, b: string, c: string)
    requires Below(a, b) && Below(b, c)
    ensures Below(a, c)
    decreases |a|
  {
    if a != [] && a[0] == b[0] && b[0] == c[0] {
      BelowTransitive(a[1..], b[1..], c[1..]);
    }
  }

  lemma {:induction false} BelowIrreflexive(a: string)
    ensures !Below(a, a)
    decreases |a|
  {
    if a != [] {
      BelowIrreflexive(a[1..]);
    }
  }

  function Insert(x: string, s: seq<string>): seq<string> {
    if s == [] || Below(x, s[0]) then [x] + s else [s[0]] + Insert(x, s[1..])
  }

  function Sorted(s: seq<string>): seq<string> {
    if s == [] then [] else Insert(s[0], Sorted(s[1..]))
  }

  lemma {:induction false} InsertAscending(x: string, s: seq<string>)
    requires Ascending(s) && x !in s
    ensures |Insert(x, s)| == |s| + 1
    ensures forall y :: y in Insert(x, s) <==> y == x || y in s
    ensures Ascending(Insert(x, s))
  {
    if s == [] {
    } else if Below(x, s[0]) {
      forall j | 0 < j < |s| ensures Below(x, s[j]) { BelowTransitive(x, s[0], s[j]); }
    } else {
      BelowTrichotomy(x, s[0]);
      var r := Insert(x, s[1..]);
      InsertAscending(x, s[1..]);
      assert forall y :: y in r ==> y == x || y in s[1..];
      forall j | 0 <= j < |r| ensures Below(s[0], r[j]) {
        if r[j] != x {
          assert r[j] in s[1..];
        }
      }
      assert s == [s[0]] + s[1..];
    }
  }

  /** Sorting a sequence without repetitions gives its elements in strictly ascending order. */
  lemma {:induction false} SortedAscending(s: seq<string>)
    requires Distinct(s)
    ensures |Sorted(s)| == |s|
    ensures forall y :: y in Sorted(s) <==> y in s
    ensures Ascending(Sorted(s))
  {
    if s != [] {
      SortedAscending(s[1..]);
      assert s == [s[0]] + s[1..];
      assert s[0] !in s[1..];
      InsertAscending(s[0], Sorted(s[1..]));
    }
  }

  /** A sorted sequence is determined by its elements. */
  lemma {:induction false} AscendingUnique(s: seq<string>, t: seq<string>)
    requires Ascending(s) && Ascending(t)
    requires forall x :: x in s <==> x in t
    ensures s == t
    decreases |s|
  {
    assert t != [] ==> t[0] in t;
    if s != [] {
      assert s[0] in s;
      assert s[0] in t && t[0] in s;
      var i :| 0 <= i < |t| && t[i] == s[0];
      var j :| 0 <= j < |s| && s[j] == t[0];
      if i > 0 && j > 0 {
        BelowTransitive(s[0], t[0], s[0]);
      }
      BelowIrreflexive(s[0]);
      assert s[0] == t[0];
      assert s == [s[0]] + s[1..] && t == [t[0]] + t[1..];
      assert s[0] !in s[1..] && s[0] !in t[1..];
      assert forall x :: x in s <==> x == s[0] || x in s[1..];
      assert forall x :: x in t <==> x == s[0] || x in t[1..];
      AscendingUnique(s[1..], t[1..]);
    }
  }
}
