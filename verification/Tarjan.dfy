/** `scc` of `tools/crate_coupling_report.py`: Tarjan's recursive search for the dependency cycles among
    crates, in the imperative form it has there, proved to report exactly the strongly connected
    components with two or more members. */
module Tarjan {
  import opened Basics
  import opened Digraph
  import opened StringOrder

  // ---- What one moment of the search looks like -------------------------------------------------

  function Elements(s: seq<string>): set<string> {
    set x | x in s
  }

  // Every stacked vertex is numbered, and the stack is in numbering order.
  ghost predicate Numbered(index: map<string, nat>, st: seq<string>, counter: nat) {
    && (forall x :: x in index ==> index[x] < counter)
    && (forall i :: 0 <= i < |st| ==> st[i] in index)
    && (forall i, j :: 0 <= i < j < |st| ==> index[st[i]] < index[st[j]])
  }

  // Vertices whose call has returned have only numbered successors.
  ghost predicate Explored(g: Graph, index: map<string, nat>, open: set<string>) {
    forall x, y :: x in index && x !in open && Edge(g, x, y) ==> y in index
  }

  // Vertices that left the stack never lead back to it.
  ghost predicate Settled(g: Graph, index: map<string, nat>, st: seq<string>) {
    Closed(g, index.Keys - Elements(st))
  }

  // A stacked vertex reaches everything above it on the stack.
  ghost predicate Chained(g: Graph, st: seq<string>) {
    forall i, j :: 0 <= i <= j < |st| ==> Reach(g, st[i], st[j])
  }

  // A stacked vertex reaches an open one at or below it.
  ghost predicate Anchored(g: Graph, st: seq<string>, open: set<string>) {
    forall i :: 0 <= i < |st| ==> AnchoredAt(g, st, open, i)
  }

  ghost predicate AnchoredAt(g: Graph, st: seq<string>, open: set<string>, i: nat)
    requires i < |st|
  {
    exists k :: 0 <= k <= i && st[k] in open && Reach(g, st[i], st[k])
  }

  // `c` is one whole strongly connected component with at least two members, in ascending order.
  ghost predicate IsCycle(g: Graph, c: seq<string>) {
    && |c| > 1
    && Ascending(c)
    && forall x, y :: x in c ==> (y in c <==> Mutual(g, x, y))
  }

  // `out` lists every component of two or more members inside `done`, each once, dependencies first.
  ghost predicate Reports(g: Graph, out: seq<seq<string>>, done: set<string>) {
    && (forall i :: 0 <= i < |out| ==> IsCycle(g, out[i]) && Elements(out[i]) <= done)
    && (forall i, j, x, y :: 0 <= i < j < |out| && x in out[i] && y in out[j] ==> !Reach(g, x, y))
    && (forall x, y :: x in done && x != y && Mutual(g, x, y) ==> exists i :: 0 <= i < |out| && x in out[i])
  }

  // Everything that holds while the calls on the vertices `open` are under way.
  ghost predicate Consistent(g: Graph, index: map<string, nat>, st: seq<string>, counter: nat,
                             out: seq<seq<string>>, open: set<string>)
  {
    && Numbered(index, st, counter)
    && open <= Elements(st)
    && Explored(g, index, open)
    && Settled(g, index, st)
    && Chained(g, st)
    && Anchored(g, st, open)
    && Reports(g, out, index.Keys - Elements(st))
  }

  // ---- Entering a vertex ------------------------------------------------------------------------

  lemma Entered(g: Graph, index: map<string, nat>, st: seq<string>, counter: nat,
                out: seq<seq<string>>, open: set<string>, v: string)
    requires Consistent(g, index, st, counter, out, open)
    requires v !in index
    requires forall x :: x in open ==> Reach(g, x, v)
    ensures Consistent(g, index[v := counter], st + [v], counter + 1, out, open + {v})
  {
    var index', st', open' := index[v := counter], st + [v], open + {v};
    assert v !in st;
    assert index'.Keys - Elements(st') == index.Keys - Elements(st);
    assert Elements(st') == Elements(st) + {v};
    ReachRefl(g, v);
    forall i, j | 0 <= i <= j < |st'| ensures Reach(g, st'[i], st'[j]) {
      if i < |st| && j == |st| {
        assert AnchoredAt(g, st, open, i);
        var k :| 0 <= k <= i && st[k] in open && Reach(g, st[i], st[k]);
        ReachTrans(g, st[i], st[k], v);
      }
    }
    forall i | 0 <= i < |st'| ensures AnchoredAt(g, st', open', i) {
      if i < |st| {
        assert AnchoredAt(g, st, open, i);
        var k :| 0 <= k <= i && st[k] in open && Reach(g, st[i], st[k]);
        assert st'[k] in open' && Reach(g, st'[i], st'[k]);
      } else {
        assert st'[i] in open' && Reach(g, st'[i], st'[i]);
      }
    }
  }

  // ---- Leaving a vertex that is not the root of its component -----------------------------------

  lemma Kept(g: Graph, index: map<string, nat>, st: seq<string>, counter: nat,
             out: seq<seq<string>>, open: set<string>, v: string, y: string)
    requires Consistent(g, index, st, counter, out, open + {v})
    requires v in st && v !in open
    requires forall w :: Edge(g, v, w) ==> w in index
    requires y in st && index[y] < index[v] && Reach(g, v, y)
    ensures Consistent(g, index, st, counter, out, open)
  {
    hide Numbered, Explored, Settled, Chained, Reports;
    var b :| 0 <= b < |st| && st[b] == y;
    var a :| 0 <= a < |st| && st[a] == v;
    InOrder(index, st, counter, b, a);
    assert AnchoredAt(g, st, open + {v}, b);
    var m :| 0 <= m <= b && st[m] in open + {v} && Reach(g, y, st[m]);
    assert st[m] in open by { OnlyOnce(index, st, counter, m, a); }
    ReachTrans(g, v, y, st[m]);
    forall i | 0 <= i < |st| ensures AnchoredAt(g, st, open, i) {
      assert AnchoredAt(g, st, open + {v}, i);
      var k :| 0 <= k <= i && st[k] in open + {v} && Reach(g, st[i], st[k]);
      if st[k] == v {
        OnlyOnce(index, st, counter, k, a);
        ReachTrans(g, st[i], v, st[m]);
        assert st[m] in open && Reach(g, st[i], st[m]);
      }
    }
    StillExplored(g, index, open, v);
  }

  lemma InOrder(index: map<string, nat>, st: seq<string>, counter: nat, b: nat, a: nat)
    requires Numbered(index, st, counter) && b < |st| && a < |st| && index[st[b]] < index[st[a]]
    ensures b < a
  {
  }

  lemma OnlyOnce(index: map<string, nat>, st: seq<string>, counter: nat, m: nat, a: nat)
    requires Numbered(index, st, counter) && m < |st| && a < |st|
    ensures st[m] == st[a] ==> m == a
  {
  }

  lemma StillExplored(g: Graph, index: map<string, nat>, open: set<string>, v: string)
    requires Explored(g, index, open + {v}) && forall w :: Edge(g, v, w) ==> w in index
    ensures Explored(g, index, open)
  {
  }

  // ---- Leaving a vertex that is the root of its component ---------------------------------------

  // What the top of the stack from position `p` satisfies when `low[v] == index[v]`.
  ghost predicate RootAt(g: Graph, index: map<string, nat>, st: seq<string>, p: nat, open: set<string>, v: string) {
    && p < |st| && st[p] == v
    && v !in open
    && open <= Elements(st[..p])
    && (forall w :: Edge(g, v, w) ==> w in index)
    && (forall a, b :: p <= a < |st| && 0 <= b < p ==> !Edge(g, st[a], st[b]))
  }

  lemma TopIsClosed(g: Graph, index: map<string, nat>, st: seq<string>, counter: nat,
                    out: seq<seq<string>>, open: set<string>, v: string, p: nat)
    requires Consistent(g, index, st, counter, out, open + {v})
    requires RootAt(g, index, st, p, open, v)
    ensures Settled(g, index, st[..p])
    ensures Elements(st[p..]) !! Elements(st[..p])
    ensures index.Keys - Elements(st[..p]) == (index.Keys - Elements(st)) + Elements(st[p..])
  {
  }

  lemma TopIsMutual(g: Graph, index: map<string, nat>, st: seq<string>, counter: nat,
                    out: seq<seq<string>>, open: set<string>, v: string, p: nat, a: nat)
    requires Consistent(g, index, st, counter, out, open + {v})
    requires RootAt(g, index, st, p, open, v)
    requires p <= a < |st|
    ensures Mutual(g, v, st[a])
  {
    assert Reach(g, st[p], st[a]);
    assert AnchoredAt(g, st, open + {v}, a);
    var k :| 0 <= k <= a && st[k] in open + {v} && Reach(g, st[a], st[k]);
    assert k <= p;
    assert Reach(g, st[k], st[p]);
    ReachTrans(g, st[a], st[k], v);
  }

  // The vertices popped together are one whole component.
  lemma TopIsComponent(g: Graph, index: map<string, nat>, st: seq<string>, counter: nat,
                       out: seq<seq<string>>, open: set<string>, v: string, p: nat, x: string, y: string)
    requires Consistent(g, index, st, counter, out, open + {v})
    requires RootAt(g, index, st, p, open, v)
    requires x in st[p..]
    ensures y in st[p..] <==> Mutual(g, x, y)
  {
    var a :| p <= a < |st| && st[a] == x;
    TopIsMutual(g, index, st, counter, out, open, v, p, a);
    if y in st[p..] {
      var b :| p <= b < |st| && st[b] == y;
      TopIsMutual(g, index, st, counter, out, open, v, p, b);
      ReachTrans(g, x, v, y);
      ReachTrans(g, y, v, x);
    }
    if Mutual(g, x, y) {
      TopIsClosed(g, index, st, counter, out, open, v, p);
      ReachStaysInside(g, index.Keys - Elements(st[..p]), x, y);
      if y !in st[p..] {
        assert y in index.Keys - Elements(st);
        ReachStaysInside(g, index.Keys - Elements(st), y, x);
        assert false;
      }
    }
  }

  function Reverse(s: seq<string>): seq<string> {
    seq(|s|, i requires 0 <= i < |s| => s[|s| - 1 - i])
  }

  // The list the search appends to its output, if any, when it pops `popped`.
  function Announce(popped: seq<string>): seq<seq<string>> {
    if |popped| > 1 then [Sorted(Reverse(popped))] else []
  }

  lemma AnnouncedIsCycle(g: Graph, index: map<string, nat>, st: seq<string>, counter: nat,
                         out: seq<seq<string>>, open: set<string>, v: string, p: nat)
    requires Consistent(g, index, st, counter, out, open + {v})
    requires RootAt(g, index, st, p, open, v)
    ensures Elements(Sorted(Reverse(st[p..]))) == Elements(st[p..])
    ensures |st[p..]| > 1 ==> IsCycle(g, Sorted(Reverse(st[p..])))
  {
    hide Consistent, Mutual;
    var top := st[p..];
    TopIsDistinct(g, index, st, counter, out, open + {v}, p);
    ReverseKeeps(top);
    SortedAscending(Reverse(top));
    forall x, y | x in Sorted(Reverse(top)) ensures y in Sorted(Reverse(top)) <==> Mutual(g, x, y) {
      TopIsComponent(g, index, st, counter, out, open, v, p, x, y);
    }
  }

  lemma TopIsDistinct(g: Graph, index: map<string, nat>, st: seq<string>, counter: nat, out: seq<seq<string>>,
                      open: set<string>, p: nat)
    requires Consistent(g, index, st, counter, out, open) && p <= |st|
    ensures Distinct(st[p..])
  {
    hide Explored, Settled, Chained, Anchored, Reports;
  }

  lemma ReverseKeeps(s: seq<string>)
    ensures |Reverse(s)| == |s| && (Distinct(s) ==> Distinct(Reverse(s)))
    ensures forall x :: x in Reverse(s) <==> x in s
  {
    forall x | x in s ensures x in Reverse(s) {
      var a :| 0 <= a < |s| && s[a] == x;
      assert Reverse(s)[|s| - 1 - a] == x;
    }
  }

  lemma ReportsGrow(g: Graph, out: seq<seq<string>>, done: set<string>, top: seq<string>)
    requires Reports(g, out, done) && Closed(g, done)
    requires done !! Elements(top) && top != []
    requires forall x, y :: x in top ==> (y in top <==> Mutual(g, x, y))
    requires Elements(Sorted(Reverse(top))) == Elements(top)
    requires |top| > 1 ==> IsCycle(g, Sorted(Reverse(top)))
    requires Distinct(top)
    ensures Reports(g, out + Announce(top), done + Elements(top))
  {
    var out' := out + Announce(top);
    forall i, j, x, y | 0 <= i < j < |out'| && x in out'[i] && y in out'[j] ensures !Reach(g, x, y) {
      if j == |out| {
        assert x in Elements(out[i]);
        assert y in Elements(Sorted(Reverse(top)));
        if Reach(g, x, y) {
          ReachStaysInside(g, done, x, y);
          assert false;
        }
      }
    }
    forall x, y | x in done + Elements(top) && x != y && Mutual(g, x, y)
      ensures exists i :: 0 <= i < |out'| && x in out'[i]
    {
      if x in done {
        var i :| 0 <= i < |out| && x in out[i];
        assert x in out'[i];
      } else {
        assert x in top && y in top;
        assert |top| > 1;
        assert x in Elements(Sorted(Reverse(top)));
        assert x in out'[|out|];
      }
    }
    forall i | 0 <= i < |out'| ensures IsCycle(g, out'[i]) && Elements(out'[i]) <= done + Elements(top) {
    }
  }

  // What popping keeps of the rest of the stack.
  lemma BelowStays(g: Graph, index: map<string, nat>, st: seq<string>, counter: nat, open: set<string>, v: string,
                   p: nat)
    requires Numbered(index, st, counter) && Chained(g, st) && Anchored(g, st, open + {v})
    requires p < |st| && st[p] == v
    ensures Numbered(index, st[..p], counter) && Chained(g, st[..p]) && Anchored(g, st[..p], open)
  {
    forall i | 0 <= i < p ensures AnchoredAt(g, st[..p], open, i) {
      assert AnchoredAt(g, st, open + {v}, i);
      var k :| 0 <= k <= i && st[k] in open + {v} && Reach(g, st[i], st[k]);
      OnlyOnce(index, st, counter, k, p);
      assert st[..p][k] in open && Reach(g, st[..p][i], st[..p][k]);
    }
  }

  lemma Popped(g: Graph, index: map<string, nat>, st: seq<string>, counter: nat,
               out: seq<seq<string>>, open: set<string>, v: string, p: nat)
    requires Consistent(g, index, st, counter, out, open + {v})
    requires RootAt(g, index, st, p, open, v)
    ensures Consistent(g, index, st[..p], counter, out + Announce(st[p..]), open)
  {
    hide Numbered, Explored, Settled, Chained, Anchored, Reports, Mutual, Announce;
    TopIsClosed(g, index, st, counter, out, open, v, p);
    AnnouncedIsCycle(g, index, st, counter, out, open, v, p);
    TopIsDistinct(g, index, st, counter, out, open + {v}, p);
    forall x, y | x in st[p..] ensures y in st[p..] <==> Mutual(g, x, y) {
      TopIsComponent(g, index, st, counter, out, open, v, p, x, y);
    }
    DoneIsClosed(g, index, st);
    ReportsGrow(g, out, index.Keys - Elements(st), st[p..]);
    BelowStays(g, index, st, counter, open, v, p);
    StillExplored(g, index, open, v);
  }

  lemma DoneIsClosed(g: Graph, index: map<string, nat>, st: seq<string>)
    requires Settled(g, index, st)
    ensures Closed(g, index.Keys - Elements(st))
  {
  }

  // ---- The search itself ------------------------------------------------------------------------

  // What a finished call on `v`, started with the stack `below`, has recorded in `low[v]`.
  ghost predicate LowAfter(g: Graph, index: map<string, nat>, low: map<string, nat>, below: seq<string>,
                           st: seq<string>, v: string)
  {
    && v in index && v in low
    && below <= st
    && (v !in st ==> low[v] == index[v] && st == below)
    && (v in st ==> exists y :: y in st && y in index && index[y] == low[v] && low[v] < index[v] && Reach(g, v, y))
    && LowBounds(g, index, low[v], |below|, |below|, st)
  }

  // No edge from `st[p..]` into `st[..q]` ends below `bound`.
  ghost predicate LowBounds(g: Graph, index: map<string, nat>, bound: nat, p: nat, q: nat, st: seq<string>) {
    forall a, b :: p <= a < |st| && 0 <= b < q && b < |st| && st[b] in index && Edge(g, st[a], st[b]) ==>
      bound <= index[st[b]]
  }

  ghost predicate Extends(m: map<string, nat>, m': map<string, nat>) {
    forall x :: x in m ==> x in m' && m'[x] == m[x]
  }

  // What the scan of `v`'s successors keeps, `below` being the stack when the call on `v` began.
  ghost predicate Scanning(g: Graph, index: map<string, nat>, low: map<string, nat>, below: seq<string>,
                           st: seq<string>, v: string)
  {
    && v in index && v in low
    && below + [v] <= st
    && low[v] <= index[v]
    && LowSeen(g, index, low[v], st, v)
    && LowBounds(g, index, low[v], |below| + 1, |below|, st)
  }

  // `n` is the number of a stacked vertex that `v` reaches.
  ghost predicate LowSeen(g: Graph, index: map<string, nat>, n: nat, st: seq<string>, v: string) {
    exists y :: y in st && y in index && index[y] == n && Reach(g, v, y)
  }

  // `w` is numbered, and not below `bound` if it was on the stack `below`.
  ghost predicate Covered(index: map<string, nat>, bound: nat, below: seq<string>, w: string) {
    w in index && (w in below ==> bound <= index[w])
  }

  lemma LowBoundsKept(g: Graph, index: map<string, nat>, index': map<string, nat>, bound: nat, bound': nat,
                      below: seq<string>, st: seq<string>, st': seq<string>, v: string, child: nat)
    requires below + [v] <= st <= st' && Extends(index, index')
    requires forall x :: x in st ==> x in index
    requires LowBounds(g, index, bound, |below| + 1, |below|, st)
    requires LowBounds(g, index', child, |st|, |st|, st')
    requires bound' <= bound && (st' != st ==> bound' <= child)
    ensures LowBounds(g, index', bound', |below| + 1, |below|, st')
  {
  }

  lemma AfterChild(g: Graph, index: map<string, nat>, low: map<string, nat>, st: seq<string>,
                   index': map<string, nat>, low': map<string, nat>, st': seq<string>,
                   below: seq<string>, v: string, w: string)
    requires Scanning(g, index, low, below, st, v)
    requires Edge(g, v, w) && w !in index
    requires forall x :: x in st ==> x in index
    requires Extends(index, index') && Extends(low, low')
    requires LowAfter(g, index', low', st, st', w) && index[v] < index'[w]
    ensures Scanning(g, index', low'[v := Least(low'[v], low'[w])], below, st', v)
  {
    var n := Least(low'[v], low'[w]);
    ReachEdge(g, v, w);
    assert LowSeen(g, index', n, st', v) by {
      if n == low[v] {
        var y :| y in st && y in index && index[y] == low[v] && Reach(g, v, y);
        assert y in st' && index'[y] == n;
      } else {
        var y :| y in st' && y in index' && index'[y] == low'[w] && low'[w] < index'[w] && Reach(g, w, y);
        ReachTrans(g, v, w, y);
      }
    }
    LowBoundsKept(g, index, index', low[v], n, below, st, st', v, low'[w]);
  }

  lemma AfterStacked(g: Graph, index: map<string, nat>, low: map<string, nat>, st: seq<string>,
                     below: seq<string>, v: string, w: string)
    requires Scanning(g, index, low, below, st, v)
    requires Edge(g, v, w) && w in index && w in st
    ensures Scanning(g, index, low[v := Least(low[v], index[w])], below, st, v)
  {
    ReachEdge(g, v, w);
    var n := Least(low[v], index[w]);
    assert LowSeen(g, index, n, st, v) by {
      if n == low[v] {
        var y :| y in st && y in index && index[y] == low[v] && Reach(g, v, y);
      } else {
        assert w in st && index[w] == n;
      }
    }
  }

  // The scan is over and `v` is the lowest vertex it leads back to.
  lemma ScannedRoot(g: Graph, index: map<string, nat>, low: map<string, nat>, st: seq<string>, counter: nat,
                    out: seq<seq<string>>, open: set<string>, below: seq<string>, v: string)
    requires Consistent(g, index, st, counter, out, open + {v})
    requires Scanning(g, index, low, below, st, v) && low[v] == index[v]
    requires open <= Elements(below) && v !in open
    requires forall w :: Edge(g, v, w) ==> Covered(index, low[v], below, w)
    ensures RootAt(g, index, st, |below|, open, v)
    ensures st[..|below|] == below && v !in below
  {
    var p := |below|;
    assert st[p] == v;
    assert st[..p] == below;
    assert v !in below;
    forall a, b | p <= a < |st| && 0 <= b < p ensures !Edge(g, st[a], st[b]) {
      assert index[st[b]] < index[v];
      assert st[b] == below[b];
      if a == p {
        assert Edge(g, v, st[b]) ==> Covered(index, low[v], below, st[b]);
      }
    }
  }

  // The scan is over and leads back below `v`.
  lemma ScannedInner(g: Graph, index: map<string, nat>, low: map<string, nat>, st: seq<string>, counter: nat,
                     out: seq<seq<string>>, open: set<string>, below: seq<string>, v: string)
    requires Consistent(g, index, st, counter, out, open + {v})
    requires Scanning(g, index, low, below, st, v) && low[v] < index[v]
    requires v !in open
    requires forall w :: Edge(g, v, w) ==> Covered(index, low[v], below, w)
    ensures Consistent(g, index, st, counter, out, open)
    ensures LowAfter(g, index, low, below, st, v)
  {
    var p := |below|;
    assert st[p] == v;
    var y :| y in st && y in index && index[y] == low[v] && Reach(g, v, y);
    Kept(g, index, st, counter, out, open, v, y);
    forall a, b | p <= a < |st| && 0 <= b < p && st[b] in index && Edge(g, st[a], st[b])
      ensures low[v] <= index[st[b]]
    {
      if a == p {
        assert Covered(index, low[v], below, st[b]);
        assert st[b] == below[b];
      }
    }
  }

  lemma StackIsNumbered(g: Graph, index: map<string, nat>, st: seq<string>, counter: nat, out: seq<seq<string>>,
                        open: set<string>)
    requires Consistent(g, index, st, counter, out, open)
    ensures forall x :: x in index ==> index[x] < counter
    ensures forall x :: x in st ==> x in index
  {
    hide Explored, Settled, Chained, Anchored, Reports;
  }

  class Search {
    const edges: Graph
    var index: map<string, nat>
    var low: map<string, nat>
    var on: set<string>
    var st: seq<string>
    var out: seq<seq<string>>
    var counter: nat

    constructor (edges: Graph)
      ensures this.edges == edges
      ensures index == map[] && low == map[] && on == {} && st == [] && out == [] && counter == 0
    {
      this.edges := edges;
      index, low, on, st, out, counter := map[], map[], {}, [], [], 0;
    }

    // `open` are the vertices whose calls are under way.
    ghost predicate Valid(open: set<string>)
      reads this
    {
      && on == Elements(st)
      && low.Keys == index.Keys
      && Consistent(edges, index, st, counter, out, open)
    }

    /** The nested function `strong` of `scc`. */
    method Strong(v: string, ghost open: set<string>, ghost universe: set<string>)
      requires Valid(open)
      requires v !in index && v in universe
      requires Closed(edges, universe) && index.Keys <= universe
      requires forall x :: x in open ==> Reach(edges, x, v)
      modifies this
      ensures Valid(open)
      ensures Extends(old(index), index) && Extends(old(low), low)
      ensures v in index && index[v] == old(counter) && index.Keys <= universe
      ensures LowAfter(edges, index, low, old(st), st, v)
      ensures forall x :: x in index && x !in old(index) ==> Reach(edges, v, x)
      decreases universe - index.Keys, 0
    {
      hide Consistent, LowAfter, LowBounds, LowSeen, Closed, Reach;
      ghost var below := st;
      Enter(v, open);
      var successors := if v in edges then edges[v] else [];
      var i := 0;
      while i < |successors|
        invariant 0 <= i <= |successors|
        invariant Valid(open + {v})
        invariant Extends(old(index)[v := old(counter)], index) && Extends(old(low), low)
        invariant index.Keys <= universe
        invariant Scanning(edges, index, low, below, st, v)
        invariant forall j :: 0 <= j < i ==> Covered(index, low[v], below, successors[j])
        invariant forall x :: x in index && x !in old(index) ==> Reach(edges, v, x)
      {
        Successor(v, successors[i], open, universe, below);
        i := i + 1;
      }
      Leave(v, open, below);
    }

    /** The start of `strong`: number `v` and stack it. */
    method Enter(v: string, ghost open: set<string>)
      requires Valid(open)
      requires v !in index
      requires forall x :: x in open ==> Reach(edges, x, v)
      modifies this`index, this`low, this`counter, this`st, this`on
      ensures Valid(open + {v})
      ensures index == old(index)[v := old(counter)] && low == old(low)[v := old(counter)]
      ensures st == old(st) + [v]
      ensures Scanning(edges, index, low, old(st), st, v)
      ensures Reach(edges, v, v)
      ensures open <= Elements(old(st)) && v !in open
    {
      Entered(edges, index, st, counter, out, open, v);
      index, low := index[v := counter], low[v := counter];
      counter := counter + 1;
      st := st + [v];
      on := on + {v};
      ReachRefl(edges, v);
    }

    /** The body of the loop over `v`'s successors. */
    method Successor(v: string, w: string, ghost open: set<string>, ghost universe: set<string>,
                     ghost below: seq<string>)
      requires Valid(open + {v})
      requires Scanning(edges, index, low, below, st, v)
      requires Edge(edges, v, w)
      requires v in universe && Closed(edges, universe) && index.Keys <= universe
      requires forall x :: x in open ==> Reach(edges, x, v)
      modifies this
      ensures Valid(open + {v})
      ensures Extends(old(index), index) && index.Keys <= universe
      ensures Extends(old(low) - {v}, low) && v in low && low[v] <= old(low)[v]
      ensures Scanning(edges, index, low, below, st, v)
      ensures Covered(index, low[v], below, w)
      ensures forall x :: x in index && x !in old(index) ==> Reach(edges, v, x)
      decreases universe - index.Keys, 1
    {
      hide Consistent, LowAfter, LowBounds, LowSeen, Reach;
      ReachEdge(edges, v, w);
      StackIsNumbered(edges, index, st, counter, out, open + {v});
      assert forall x :: x in below ==> x in (below + [v]);
      assert forall x :: x in below + [v] ==> x in st;
      if w !in index {
        forall x | x in open + {v} ensures Reach(edges, x, w) {
          if x in open { ReachTrans(edges, x, v, w); }
        }
        Strong(w, open + {v}, universe);
        AfterChild(edges, old(index), old(low), old(st), index, low, st, below, v, w);
        forall x | x in index && x !in old(index) ensures Reach(edges, v, x) {
          ReachTrans(edges, v, w, x);
        }
        low := low[v := Least(low[v], low[w])];
      } else if w in on {
        AfterStacked(edges, index, low, st, below, v, w);
        low := low[v := Least(low[v], index[w])];
      }
    }

    /** The end of `strong`: pop and report a component if `v` is its root. */
    method Leave(v: string, ghost open: set<string>, ghost below: seq<string>)
      requires Valid(open + {v})
      requires Scanning(edges, index, low, below, st, v)
      requires open <= Elements(below) && v !in open
      requires forall w :: Edge(edges, v, w) ==> Covered(index, low[v], below, w)
      modifies this`st, this`on, this`out
      ensures Valid(open)
      ensures LowAfter(edges, index, low, below, st, v)
    {
      if low[v] == index[v] {
        ScannedRoot(edges, index, low, st, counter, out, open, below, v);
        Popped(edges, index, st, counter, out, open, v, |below|);
        PopComponent(v, below);
      } else {
        ScannedInner(edges, index, low, st, counter, out, open, below, v);
      }
    }

    /** The loop that empties the stack down to and including `v`. */
    method PopComponent(v: string, ghost below: seq<string>)
      requires on == Elements(st) && Distinct(st)
      requires below + [v] <= st
      modifies this`st, this`on, this`out
      ensures st == below && on == Elements(st)
      ensures out == old(out) + Announce(old(st)[|below|..])
    {
      assert st[|below|] == v && st[..|below|] == below;
      var comp := [];
      var done := false;
      while !done
        invariant |below| <= |st| <= |old(st)|
        invariant st == old(st)[..|st|]
        invariant on == Elements(st) && out == old(out)
        invariant comp == Reverse(old(st)[|st|..])
        invariant done <==> |st| == |below|
        decreases |st|
      {
        var w := st[|st| - 1];
        st := st[..|st| - 1];
        on := on - {w};
        comp := comp + [w];
        done := w == v;
      }
      if |comp| > 1 {
        out := out + [Sorted(comp)];
      }
    }
  }

  ghost predicate FromNodes(g: Graph, nodes: seq<string>, x: string) {
    exists v :: v in nodes && Reach(g, v, x)
  }

  // The lists in `out` are exactly the components of two or more members reachable from `nodes`: each is
  // sorted, whole and reported once, and no list reaches a later one.
  ghost predicate ExactlyTheCycles(g: Graph, nodes: seq<string>, out: seq<seq<string>>) {
    && (forall i :: 0 <= i < |out| ==> IsCycle(g, out[i]))
    && (forall i, x :: 0 <= i < |out| && x in out[i] ==> FromNodes(g, nodes, x))
    && (forall x, y :: FromNodes(g, nodes, x) && x != y && Mutual(g, x, y) ==>
        exists i :: 0 <= i < |out| && x in out[i])
    && (forall i, j, x, y :: 0 <= i < j < |out| && x in out[i] && y in out[j] ==> x != y && !Reach(g, x, y))
  }

  lemma NothingOpen(g: Graph, index: map<string, nat>, st: seq<string>, counter: nat, out: seq<seq<string>>)
    requires Consistent(g, index, st, counter, out, {})
    ensures st == [] && Closed(g, index.Keys) && Reports(g, out, index.Keys)
  {
    assert st != [] ==> AnchoredAt(g, st, {}, 0);
    assert index.Keys - Elements(st) == index.Keys;
  }

  lemma SearchedAll(g: Graph, nodes: seq<string>, index: map<string, nat>, out: seq<seq<string>>)
    requires Closed(g, index.Keys) && Reports(g, out, index.Keys)
    requires forall v :: v in nodes ==> v in index
    requires forall x :: x in index ==> FromNodes(g, nodes, x)
    ensures ExactlyTheCycles(g, nodes, out)
  {
    forall x | FromNodes(g, nodes, x) ensures x in index {
      var v :| v in nodes && Reach(g, v, x);
      ReachStaysInside(g, index.Keys, v, x);
    }
    forall i, x | 0 <= i < |out| && x in out[i] ensures FromNodes(g, nodes, x) {
      assert x in Elements(out[i]);
    }
    forall i, j, x, y | 0 <= i < j < |out| && x in out[i] && y in out[j] ensures x != y && !Reach(g, x, y) {
      ReachRefl(g, x);
    }
  }

  lemma NothingBegun(g: Graph)
    ensures Consistent(g, map[], [], 0, [], {})
  {
  }

  lemma NodesAreClosed(g: Graph, nodes: seq<string>)
    ensures Closed(g, Elements(nodes) + set x, y | x in g && y in g[x] :: y)
  {
  }

  // What a call on `v`, one of the nodes, has numbered is reachable from the nodes.
  lemma ReachedFromNodes(g: Graph, nodes: seq<string>, before: set<string>, after: set<string>, v: string)
    requires v in nodes && forall x :: x in before ==> FromNodes(g, nodes, x)
    requires forall x :: x in after && x !in before ==> Reach(g, v, x)
    ensures forall x :: x in after ==> FromNodes(g, nodes, x)
  {
    hide Reach;
  }

  /** `scc`: for every finite graph and every order in which successors are enumerated. */
  method Scc(nodes: seq<string>, edges: Graph) returns (out: seq<seq<string>>)
    ensures ExactlyTheCycles(edges, nodes, out)
  {
    hide Consistent, Reach, Closed, FromNodes, ExactlyTheCycles, LowAfter;
    ghost var universe := Elements(nodes) + set x, y | x in edges && y in edges[x] :: y;
    NodesAreClosed(edges, nodes);
    var s := new Search(edges);
    NothingBegun(edges);
    var i := 0;
    while i < |nodes|
      invariant 0 <= i <= |nodes|
      invariant s.edges == edges && s.Valid({})
      invariant s.index.Keys <= universe
      invariant forall j :: 0 <= j < i ==> nodes[j] in s.index
      invariant forall x :: x in s.index ==> FromNodes(edges, nodes, x)
    {
      if nodes[i] !in s.index {
        ghost var before := s.index;
        s.Strong(nodes[i], {}, universe);
        ReachedFromNodes(edges, nodes, before.Keys, s.index.Keys, nodes[i]);
      }
      i := i + 1;
    }
    NothingOpen(edges, s.index, s.st, s.counter, s.out);
    out := s.out;
    SearchedAll(edges, nodes, s.index, out);
  }

  /** Two answers that list exactly the cycles contain the same lists. */
  lemma CyclesUnique(g: Graph, nodes: seq<string>, out: seq<seq<string>>, out': seq<seq<string>>, i: nat)
    requires ExactlyTheCycles(g, nodes, out) && ExactlyTheCycles(g, nodes, out')
    requires i < |out|
    ensures out[i] in out'
  {
    var c := out[i];
    var x, y := c[0], c[1];
    assert x in c && y in c;
    if x == y { BelowIrreflexive(x); }
    assert FromNodes(g, nodes, x) && Mutual(g, x, y);
    var j :| 0 <= j < |out'| && x in out'[j];
    assert forall z :: z in c <==> z in out'[j];
    AscendingUnique(c, out'[j]);
  }
}
