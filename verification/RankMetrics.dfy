/** NDCG, MAP and Recall of `benchmarks/contextra-bench/src/beir_eval.rs`.  The logarithmic discount enters as
    an arbitrary positive, strictly falling sequence `d`: position `i` counts `d(i)`. */
module RankMetrics {
  import opened Basics

  type Discount = nat -> real

  ghost predicate Falling(d: Discount) {
    && (forall i: nat :: d(i) > 0.0)
    && (forall i: nat, j: nat :: i < j ==> d(i) > d(j))
  }

  predicate Distinct(s: seq<string>) {
    forall i, j :: 0 <= i < j < |s| ==> s[i] != s[j]
  }

  // ---- What the loops add up --------------------------------------------------------------------

  // How many of the first `n` results are relevant.
  function Hits(ranked: seq<string>, relevant: set<string>, n: nat): (h: nat)
    requires n <= |ranked|
    ensures h <= n
  {
    if n == 0 then 0 else Hits(ranked, relevant, n - 1) + (if ranked[n - 1] in relevant then 1 else 0)
  }

  function Dcg(ranked: seq<string>, relevant: set<string>, n: nat, d: Discount): real
    requires n <= |ranked|
  {
    if n == 0 then 0.0 else Dcg(ranked, relevant, n - 1, d) + (if ranked[n - 1] in relevant then d(n - 1) else 0.0)
  }

  function Ideal(n: nat, d: Discount): real {
    if n == 0 then 0.0 else Ideal(n - 1, d) + d(n - 1)
  }

  function Precisions(ranked: seq<string>, relevant: set<string>, n: nat): real
    requires n <= |ranked|
  {
    if n == 0 then 0.0
    else
      var before := Precisions(ranked, relevant, n - 1);
      if ranked[n - 1] in relevant then before + Hits(ranked, relevant, n) as real / (n as real) else before
  }

  function Ndcg(ranked: seq<string>, relevant: set<string>, k: nat, d: Discount): real {
    var ideal := Ideal(Least(k, |relevant|), d);
    if ideal > 0.0 then Dcg(ranked, relevant, Least(k, |ranked|), d) / ideal else 0.0
  }

  function Map(ranked: seq<string>, relevant: set<string>, k: nat): real {
    var m := Least(k, |relevant|);
    if m > 0 then Precisions(ranked, relevant, Least(k, |ranked|)) / (m as real) else 0.0
  }

  function Recall(ranked: seq<string>, relevant: set<string>, k: nat): real {
    var m := Least(k, |relevant|);
    if m > 0 then Hits(ranked, relevant, Least(k, |ranked|)) as real / (m as real) else 0.0
  }

  /** `ndcg_at_k` */
  method NdcgAtK(ranked: seq<string>, relevant: set<string>, k: nat, d: Discount) returns (r: real)
    ensures r == Ndcg(ranked, relevant, k, d)
    ensures relevant == {} || k == 0 ==> r == 0.0
  {
    if relevant == {} || k == 0 {
      assert Least(k, |relevant|) == 0;
      return 0.0;
    }
    var limit := Least(k, |ranked|);
    var dcg := 0.0;
    for i := 0 to limit
      invariant dcg == Dcg(ranked, relevant, i, d)
    {
      if ranked[i] in relevant {
        dcg := dcg + d(i);
      }
    }
    var idcgLimit := Least(k, |relevant|);
    var idcg := 0.0;
    for i := 0 to idcgLimit
      invariant idcg == Ideal(i, d)
    {
      idcg := idcg + d(i);
    }
    r := if idcg > 0.0 then dcg / idcg else 0.0;
  }

  /** `map_at_k` */
  method MapAtK(ranked: seq<string>, relevant: set<string>, k: nat) returns (r: real)
    ensures r == Map(ranked, relevant, k)
    ensures relevant == {} || k == 0 ==> r == 0.0
  {
    if relevant == {} || k == 0 {
      assert Least(k, |relevant|) == 0;
      return 0.0;
    }
    var limit := Least(k, |ranked|);
    var hits, sumPrecision := 0, 0.0;
    for i := 0 to limit
      invariant hits == Hits(ranked, relevant, i) && sumPrecision == Precisions(ranked, relevant, i)
    {
      if ranked[i] in relevant {
        hits := hits + 1;
        sumPrecision := sumPrecision + hits as real / ((i + 1) as real);
      }
    }
    var denom := Least(k, |relevant|);
    r := if denom > 0 then sumPrecision / (denom as real) else 0.0;
  }

  /** `recall_at_k` */
  method RecallAtK(ranked: seq<string>, relevant: set<string>, k: nat) returns (r: real)
    ensures r == Recall(ranked, relevant, k)
    ensures relevant == {} || k == 0 ==> r == 0.0
  {
    if relevant == {} || k == 0 {
      assert Least(k, |relevant|) == 0;
      return 0.0;
    }
    var limit := Least(k, |ranked|);
    var hits := 0;
    for i := 0 to limit
      invariant hits == Hits(ranked, relevant, i)
    {
      if ranked[i] in relevant {
        hits := hits + 1;
      }
    }
    var denom := Least(k, |relevant|);
    r := if denom > 0 then hits as real / (denom as real) else 0.0;
  }

  // ---- Hits -------------------------------------------------------------------------------------

  // The first `n` results are all relevant.
  predicate AllRelevant(ranked: seq<string>, relevant: set<string>, n: nat) {
    n <= |ranked| && forall i :: 0 <= i < n ==> ranked[i] in relevant
  }

  function Found(ranked: seq<string>, relevant: set<string>, n: nat): set<string>
    requires n <= |ranked|
  {
    set s | s in ranked[..n] && s in relevant
  }

  /** In a ranking without repetitions, hits are counted right: as the relevant documents among the first
      `n`, of which there are no more than there are relevant documents. */
  lemma {:induction false} HitsAreFound(ranked: seq<string>, relevant: set<string>, n: nat)
    requires Distinct(ranked) && n <= |ranked|
    ensures Hits(ranked, relevant, n) == |Found(ranked, relevant, n)| <= |relevant|
  {
    if n > 0 {
      HitsAreFound(ranked, relevant, n - 1);
      var s := ranked[n - 1];
      assert ranked[..n] == ranked[..n - 1] + [s];
      assert s !in ranked[..n - 1];
      if s in relevant {
        assert Found(ranked, relevant, n) == Found(ranked, relevant, n - 1) + {s};
      } else {
        assert Found(ranked, relevant, n) == Found(ranked, relevant, n - 1);
      }
    }
    Subset(Found(ranked, relevant, n), relevant);
  }

  lemma {:induction false} Subset(a: set<string>, b: set<string>)
    requires a <= b
    ensures |a| <= |b|
  {
    if s :| s in a {
      Subset(a - {s}, b - {s});
    }
  }

  lemma {:induction false} HitsWhenRelevant(ranked: seq<string>, relevant: set<string>, m: nat, n: nat)
    requires m <= n <= |ranked| && AllRelevant(ranked, relevant, m)
    ensures Hits(ranked, relevant, n) >= m
    decreases n
  {
    if n > m {
      HitsWhenRelevant(ranked, relevant, m, n - 1);
    } else if n > 0 {
      HitsWhenRelevant(ranked, relevant, m - 1, n - 1);
    }
  }

  // ---- NDCG -------------------------------------------------------------------------------------

  // Hits are worth no more than as many first places, and as much only if they are the first places.
  lemma {:induction false} DcgWithinIdeal(ranked: seq<string>, relevant: set<string>, n: nat, d: Discount)
    requires Falling(d) && n <= |ranked|
    ensures var h := Hits(ranked, relevant, n);
      && 0.0 <= Dcg(ranked, relevant, n, d) <= Ideal(h, d)
      && (Dcg(ranked, relevant, n, d) == Ideal(h, d) <==> AllRelevant(ranked, relevant, h))
  {
    if n > 0 {
      DcgWithinIdeal(ranked, relevant, n - 1, d);
      var h := Hits(ranked, relevant, n - 1);
      assert d(n - 1) > 0.0 && (h < n - 1 ==> d(h) > d(n - 1));
      hide Falling, AllRelevant;
      if ranked[n - 1] in relevant {
        OneHitMore(ranked, relevant, n - 1);
      }
    }
  }

  // With one hit more, the hits are the first places if they were before and it comes right after them.
  lemma OneHitMore(ranked: seq<string>, relevant: set<string>, n: nat)
    requires n < |ranked| && ranked[n] in relevant
    ensures var h := Hits(ranked, relevant, n);
      AllRelevant(ranked, relevant, h + 1) <==> h == n && AllRelevant(ranked, relevant, h)
  {
    var h := Hits(ranked, relevant, n);
    if h < n && AllRelevant(ranked, relevant, h + 1) {
      HitsWhenRelevant(ranked, relevant, h + 1, n);
    }
  }

  lemma {:induction false} IdealGrows(m: nat, n: nat, d: Discount)
    requires Falling(d) && m <= n
    ensures Ideal(m, d) <= Ideal(n, d) && (m < n ==> Ideal(m, d) < Ideal(n, d))
    decreases n
  {
    if m < n {
      IdealGrows(m, n - 1, d);
    }
  }

  lemma Quotient(x: real, y: real)
    requires 0.0 <= x <= y && y > 0.0
    ensures 0.0 <= x / y <= 1.0 && (x / y == 1.0 <==> x == y)
  {
  }

  // No more hits among the first `k` results than there are relevant documents.
  predicate WithinRelevant(ranked: seq<string>, relevant: set<string>, k: nat) {
    Hits(ranked, relevant, Least(k, |ranked|)) <= |relevant|
  }

  /** As long as the hits are no more than the relevant documents - in a ranking without repetitions they
      never are - NDCG lies between 0 and 1, and it is 1 exactly when the first
      min(k, number of relevant documents) results are all relevant. */
  lemma NdcgIsNormalised(ranked: seq<string>, relevant: set<string>, k: nat, d: Discount)
    requires Falling(d) && WithinRelevant(ranked, relevant, k)
    ensures 0.0 <= Ndcg(ranked, relevant, k, d) <= 1.0
    ensures relevant != {} && k > 0 ==>
      (Ndcg(ranked, relevant, k, d) == 1.0 <==> AllRelevant(ranked, relevant, Least(k, |relevant|)))
  {
    var n, m := Least(k, |ranked|), Least(k, |relevant|);
    var h := Hits(ranked, relevant, n);
    DcgWithinIdeal(ranked, relevant, n, d);
    IdealGrows(0, m, d);
    if m > 0 {
      IdealGrows(h, m, d);
      Quotient(Dcg(ranked, relevant, n, d), Ideal(m, d));
      if AllRelevant(ranked, relevant, m) {
        HitsWhenRelevant(ranked, relevant, m, n);
      }
    }
  }

  lemma DistinctIsWithin(ranked: seq<string>, relevant: set<string>, k: nat)
    requires Distinct(ranked)
    ensures WithinRelevant(ranked, relevant, k)
  {
    HitsAreFound(ranked, relevant, Least(k, |ranked|));
  }

  // A discount that falls so slowly that one hit too many outweighs it.
  function Flat(r: nat): Discount {
    (i: nat) => 1.0 + 1.0 / ((r + 1) as real * (i + 1) as real)
  }

  lemma FlatIsFalling(r: nat)
    ensures Falling(Flat(r))
    ensures forall i: nat :: 1.0 < Flat(r)(i) <= 1.0 + 1.0 / (r + 1) as real
  {
    forall i: nat ensures 1.0 < Flat(r)(i) <= 1.0 + 1.0 / (r + 1) as real {
      Grown((r + 1) as real, (i + 1) as real);
      Inverted((r + 1) as real, (r + 1) as real * (i + 1) as real);
    }
    forall i: nat, j: nat | i < j ensures Flat(r)(i) > Flat(r)(j) {
      Scaled((r + 1) as real, (i + 1) as real, (j + 1) as real);
      Inverted((r + 1) as real * (i + 1) as real, (r + 1) as real * (j + 1) as real);
    }
  }

  lemma Grown(x: real, y: real)
    requires x > 0.0 && y >= 1.0
    ensures x * y >= x
  {
    assert x * (y - 1.0) >= 0.0;
  }

  lemma Scaled(x: real, y: real, z: real)
    requires x > 0.0 && 0.0 < y < z
    ensures 0.0 < x * y < x * z
  {
    assert x * (z - y) > 0.0;
  }

  lemma Inverted(x: real, y: real)
    requires 0.0 < x <= y
    ensures 0.0 < 1.0 / y <= 1.0 / x && (x < y ==> 1.0 / y < 1.0 / x)
  {
  }

  lemma {:induction false} HitsAreWorth(ranked: seq<string>, relevant: set<string>, n: nat, d: Discount)
    requires n <= |ranked| && forall i: nat :: d(i) > 1.0
    ensures Dcg(ranked, relevant, n, d) >= Hits(ranked, relevant, n) as real
  {
    if n > 0 {
      HitsAreWorth(ranked, relevant, n - 1, d);
    }
  }

  lemma {:induction false} IdealIsBelow(n: nat, d: Discount, top: real)
    requires forall i: nat :: d(i) <= top
    ensures Ideal(n, d) <= n as real * top
  {
    if n > 0 {
      IdealIsBelow(n - 1, d, top);
    }
  }

  lemma JustBelow(r: nat, top: real)
    requires top == 1.0 + 1.0 / (r + 1) as real
    ensures r as real * top < (r + 1) as real
  {
    var x := (r + 1) as real;
    assert top * x == x + 1.0;
    assert r as real * top == x * top - top;
  }

  lemma FlatIdeal(r: nat)
    ensures Ideal(r, Flat(r)) < (r + 1) as real
  {
    hide Flat, Falling, Ideal;
    FlatIsFalling(r);
    var top := 1.0 + 1.0 / (r + 1) as real;
    IdealIsBelow(r, Flat(r), top);
    JustBelow(r, top);
  }

  lemma TooManyHits(ranked: seq<string>, relevant: set<string>, k: nat)
    requires relevant != {} && !WithinRelevant(ranked, relevant, k)
    ensures Falling(Flat(|relevant|)) && Ndcg(ranked, relevant, k, Flat(|relevant|)) > 1.0
  {
    hide Flat, Falling, Dcg, Ideal;
    var n, r := Least(k, |ranked|), |relevant|;
    FallsFlatly(r);
    HitsAreWorth(ranked, relevant, n, Flat(r));
    FlatIdeal(r);
    IdealGrows(0, r, Flat(r));
    NothingIdeal(Flat(r));
    Exceeds(Dcg(ranked, relevant, n, Flat(r)), Hits(ranked, relevant, n), r, Ideal(r, Flat(r)));
  }

  lemma FallsFlatly(r: nat)
    ensures Falling(Flat(r)) && forall i: nat :: Flat(r)(i) > 1.0
  {
    hide Flat, Falling;
    FlatIsFalling(r);
  }

  lemma Exceeds(dcg: real, hits: nat, r: nat, ideal: real)
    requires dcg >= hits as real && hits > r && 0.0 < ideal < (r + 1) as real
    ensures dcg / ideal > 1.0
  {
    AgainstOne(dcg, ideal);
  }

  lemma NothingIdeal(d: Discount)
    ensures Ideal(0, d) == 0.0
  {
  }

  /** NDCG stays within 1 under every discount if and only if the hits are no more than the relevant
      documents. */
  lemma NdcgIsBoundedExactly(ranked: seq<string>, relevant: set<string>, k: nat)
    requires relevant != {} && k > 0
    ensures (forall d: Discount :: Falling(d) ==> Ndcg(ranked, relevant, k, d) <= 1.0) <==>
            WithinRelevant(ranked, relevant, k)
  {
    hide Falling, Ndcg, WithinRelevant;
    if WithinRelevant(ranked, relevant, k) {
      forall d: Discount | Falling(d) ensures Ndcg(ranked, relevant, k, d) <= 1.0 {
        NdcgIsNormalised(ranked, relevant, k, d);
      }
    } else {
      TooManyHits(ranked, relevant, k);
    }
  }

  /** With a relevant document listed twice it exceeds 1 under every discount. */
  lemma NdcgOfRepeats(d: Discount)
    requires Falling(d)
    ensures Ndcg(["a", "a"], {"a"}, 2, d) > 1.0
  {
    var ranked, relevant := ["a", "a"], {"a"};
    assert Ideal(1, d) == d(0);
    assert Dcg(ranked, relevant, 1, d) == d(0);
    assert Dcg(ranked, relevant, 2, d) == d(0) + d(1);
    IdealGrows(0, 1, d);
    Divided(d(0), d(0) + d(1), d(0));
    Quotient(d(0), d(0));
  }

  // Result `j` moved up to place `i`, those between moving down by one.
  function MovedUp(s: seq<string>, i: nat, j: nat): (r: seq<string>)
    requires i <= j < |s|
    ensures |r| == |s| && multiset(r) == multiset(s)
  {
    assert s == s[..i] + s[i..j] + [s[j]] + s[j + 1..];
    s[..i] + [s[j]] + s[i..j] + s[j + 1..]
  }

  // What passing the irrelevant results at places `i` to `j` gains.
  function Passing(ranked: seq<string>, relevant: set<string>, i: nat, j: nat, k: nat, d: Discount): real
    requires i <= j <= |ranked|
    decreases j
  {
    if i == j then 0.0
    else Passing(ranked, relevant, i, j - 1, k,
      d) + (if ranked[j - 1] in relevant then 0.0 else Cut(d, k, j - 1) - Cut(d, k, j))
  }

  // The discount, nothing from place `k` on.
  function Cut(d: Discount, k: nat, i: nat): real {
    if i < k then d(i) else 0.0
  }

  // The first `n` results' worth under the cut.
  function Worth(ranked: seq<string>, relevant: set<string>, k: nat, n: nat, d: Discount): real
    requires n <= |ranked|
  {
    if n == 0 then 0.0
    else Worth(ranked, relevant, k, n - 1, d) + (if ranked[n - 1] in relevant then Cut(d, k, n - 1) else 0.0)
  }

  lemma {:induction false} WorthIsDcg(ranked: seq<string>, relevant: set<string>, k: nat, n: nat, d: Discount)
    requires n <= |ranked|
    ensures Worth(ranked, relevant, k, n, d) == Dcg(ranked, relevant, Least(k, n), d)
  {
    if n > 0 {
      WorthIsDcg(ranked, relevant, k, n - 1, d);
    }
  }

  lemma {:induction false} WorthOfPrefix(a: seq<string>, b: seq<string>, relevant: set<string>, k: nat, n: nat,
                                         d: Discount)
    requires n <= |a| && n <= |b| && a[..n] == b[..n]
    ensures Worth(a, relevant, k, n, d) == Worth(b, relevant, k, n, d)
  {
    if n > 0 {
      assert a[..n - 1] == a[..n][..n - 1] == b[..n][..n - 1] == b[..n - 1];
      assert a[n - 1] == a[..n][n - 1] == b[..n][n - 1] == b[n - 1];
      WorthOfPrefix(a, b, relevant, k, n - 1, d);
    }
  }

  // Just above the moved-up result: the results it passed each lose a place.
  lemma {:induction false} WorthMoved(ranked: seq<string>, relevant: set<string>, i: nat, j: nat, n: nat, k: nat,
                                      d: Discount)
    requires i <= n <= j < |ranked| && ranked[j] in relevant
    ensures Worth(MovedUp(ranked, i, j), relevant, k, n + 1, d) ==
      Worth(ranked, relevant, k, n, d) + Cut(d, k, n) + Passing(ranked, relevant, i, n, k, d)
    decreases n
  {
    var moved := MovedUp(ranked, i, j);
    if n == i {
      assert moved[..i] == ranked[..i] && moved[i] == ranked[j];
      WorthOfPrefix(moved, ranked, relevant, k, i, d);
    } else {
      WorthMoved(ranked, relevant, i, j, n - 1, k, d);
      assert moved[n] == ranked[n - 1];
    }
  }

  lemma {:induction false} WorthBeyond(a: seq<string>, b: seq<string>, relevant: set<string>, k: nat, m: nat, n: nat,
                                       d: Discount)
    requires m <= n <= |a| == |b| && forall i :: m <= i < |a| ==> a[i] == b[i]
    ensures Worth(a, relevant, k, n, d) - Worth(b, relevant, k, n, d) ==
      Worth(a, relevant, k, m, d) - Worth(b, relevant, k, m, d)
    decreases n
  {
    if n > m {
      WorthBeyond(a, b, relevant, k, m, n - 1, d);
    }
  }

  lemma {:induction false} PassingGains(ranked: seq<string>, relevant: set<string>, i: nat, j: nat, k: nat, d: Discount)
    requires Falling(d) && i <= j <= |ranked|
    ensures Passing(ranked, relevant, i, j, k, d) >= 0.0
    ensures Passing(ranked, relevant, i, j, k, d) > 0.0 <==> exists t :: i <= t < j && t < k && ranked[t] !in relevant
    decreases j
  {
    if i < j {
      PassingGains(ranked, relevant, i, j - 1, k, d);
      assert Cut(d, k, j - 1) >= Cut(d, k, j) && (j - 1 < k ==> Cut(d, k, j - 1) > Cut(d, k, j));
    }
  }

  lemma Divided(x: real, y: real, z: real)
    requires z > 0.0
    ensures x <= y ==> x / z <= y / z
    ensures x < y <==> x / z < y / z
  {
  }

  /** Moving a relevant result up never lowers NDCG, and raises it exactly when it passes an irrelevant
      result within the first `k`. */
  lemma MovingUpHelps(ranked: seq<string>, relevant: set<string>, i: nat, j: nat, k: nat, d: Discount)
    requires Falling(d) && i <= j < |ranked| && ranked[j] in relevant
    ensures Ndcg(MovedUp(ranked, i, j), relevant, k, d) >= Ndcg(ranked, relevant, k, d)
    ensures Ndcg(MovedUp(ranked, i, j), relevant, k, d) > Ndcg(ranked, relevant, k, d) <==>
      exists t :: i <= t < j && t < k && ranked[t] !in relevant
  {
    var moved, size := MovedUp(ranked, i, j), |ranked|;
    WorthMoved(ranked, relevant, i, j, j, k, d);
    assert Worth(ranked, relevant, k, j + 1, d) == Worth(ranked, relevant, k, j, d) + Cut(d, k, j);
    WorthBeyond(moved, ranked, relevant, k, j + 1, size, d);
    WorthIsDcg(moved, relevant, k, size, d);
    WorthIsDcg(ranked, relevant, k, size, d);
    PassingGains(ranked, relevant, i, j, k, d);
    IdealGrows(0, Least(k, |relevant|), d);
    if k > 0 {
      assert relevant != {};
      Divided(Dcg(ranked, relevant, Least(k, size), d), Dcg(moved, relevant, Least(k, size), d),
        Ideal(Least(k, |relevant|), d));
    }
  }

  // ---- MAP and Recall ---------------------------------------------------------------------------

  lemma {:induction false} PrecisionsWithinHits(ranked: seq<string>, relevant: set<string>, n: nat)
    requires n <= |ranked|
    ensures var h := Hits(ranked, relevant, n);
      && 0.0 <= Precisions(ranked, relevant, n) <= h as real
      && (Precisions(ranked, relevant, n) == h as real <==> AllRelevant(ranked, relevant, h))
  {
    if n > 0 {
      PrecisionsWithinHits(ranked, relevant, n - 1);
      var h := Hits(ranked, relevant, n - 1);
      if ranked[n - 1] in relevant {
        Quotient((h + 1) as real, n as real);
        if h < n - 1 && AllRelevant(ranked, relevant, h + 1) {
          HitsWhenRelevant(ranked, relevant, h + 1, n - 1);
        }
      }
    }
  }

  // The reciprocals of the ranks of the relevant results from place `from` to before place `n`.
  function Reciprocals(ranked: seq<string>, relevant: set<string>, from: nat, n: nat): real
    requires from <= n <= |ranked|
    decreases n
  {
    if from == n then 0.0
    else Reciprocals(ranked, relevant, from, n - 1) + (if ranked[n - 1] in relevant then 1.0 / (n as real) else 0.0)
  }

  // These for each relevant result among the first `m` places.
  function Shared(ranked: seq<string>, relevant: set<string>, m: nat, n: nat): real
    requires m <= n <= |ranked|
  {
    if m == 0 then 0.0
    else
      var before := Shared(ranked, relevant, m - 1, n);
      if ranked[m - 1] in relevant then before + Reciprocals(ranked, relevant, m - 1, n) else before
  }

  lemma {:induction false} SharedGrows(ranked: seq<string>, relevant: set<string>, m: nat, n: nat)
    requires m <= n < |ranked|
    ensures Shared(ranked, relevant, m, n + 1) == Shared(ranked, relevant, m, n)
      + (if ranked[n] in relevant then Hits(ranked, relevant, m) as real / (n + 1) as real else 0.0)
  {
    if m > 0 {
      SharedGrows(ranked, relevant, m - 1, n);
      OneMore(Hits(ranked, relevant, m - 1), (n + 1) as real);
    }
  }

  lemma OneMore(h: nat, x: real)
    requires x > 0.0
    ensures (h + 1) as real / x == h as real / x + 1.0 / x
  {
  }

  /** The precisions at the hits, counted the other way round: each relevant result contributes the reciprocal ranks
      of the relevant results from it on. */
  lemma {:induction false} PrecisionsAreShared(ranked: seq<string>, relevant: set<string>, n: nat)
    requires n <= |ranked|
    ensures Precisions(ranked, relevant, n) == Shared(ranked, relevant, n, n)
  {
    if n > 0 {
      PrecisionsAreShared(ranked, relevant, n - 1);
      SharedGrows(ranked, relevant, n - 1, n - 1);
      OneMore(Hits(ranked, relevant, n - 1), n as real);
      assert Reciprocals(ranked, relevant, n - 1, n - 1) == 0.0;
    }
  }

  lemma {:induction false} SamePrefix(a: seq<string>, b: seq<string>, relevant: set<string>, n: nat)
    requires n <= |a| && n <= |b| && a[..n] == b[..n]
    ensures Hits(a, relevant, n) == Hits(b, relevant, n) && Precisions(a, relevant, n) == Precisions(b, relevant, n)
  {
    if n > 0 {
      assert a[..n - 1] == a[..n][..n - 1] == b[..n][..n - 1] == b[..n - 1];
      assert a[n - 1] == a[..n][n - 1] == b[..n][n - 1] == b[n - 1];
      SamePrefix(a, b, relevant, n - 1);
    }
  }

  lemma {:induction false} SameBeyond(a: seq<string>, b: seq<string>, relevant: set<string>, m: nat, n: nat)
    requires m <= n <= |a| == |b| && Hits(a, relevant, m) == Hits(b, relevant, m)
    requires forall i :: m <= i < |a| ==> a[i] == b[i]
    ensures Hits(a, relevant, n) == Hits(b, relevant, n)
    ensures Precisions(a, relevant, n) - Precisions(b, relevant, n) ==
      Precisions(a, relevant, m) - Precisions(b, relevant, m)
    decreases n
  {
    if n > m {
      SameBeyond(a, b, relevant, m, n - 1);
    }
  }

  // The two results at places `i` and `i` + 1 exchanged.
  function Exchanged(s: seq<string>, i: nat): (r: seq<string>)
    requires i + 1 < |s|
    ensures |r| == |s|
  {
    s[i := s[i + 1]][i + 1 := s[i]]
  }

  // What moving the relevant result at place `i` + 1 up past an irrelevant one gains.
  function Gain(ranked: seq<string>, relevant: set<string>, i: nat, k: nat): real
    requires i <= |ranked|
  {
    var h := (Hits(ranked, relevant, i) + 1) as real;
    if i + 1 < k then h / (i + 1) as real - h / (i + 2) as real else if i < k then h / (i + 1) as real else 0.0
  }

  lemma PrecisionsExchanged(ranked: seq<string>, relevant: set<string>, i: nat, k: nat)
    requires i + 1 < |ranked| && ranked[i] !in relevant && ranked[i + 1] in relevant
    ensures var n := Least(k, |ranked|);
      Precisions(Exchanged(ranked, i), relevant, n) - Precisions(ranked, relevant, n) == Gain(ranked, relevant, i, k)
  {
    var moved, n := Exchanged(ranked, i), Least(k, |ranked|);
    if n <= i {
      SamePrefix(moved, ranked, relevant, n);
    } else {
      SamePrefix(moved, ranked, relevant, i);
      assert Hits(moved, relevant, i + 1) == Hits(ranked, relevant, i) + 1;
      assert Precisions(moved, relevant, i + 1) - Precisions(ranked, relevant, i + 1) ==
        (Hits(ranked, relevant, i) + 1) as real / (i + 1) as real;
      if n > i + 1 {
        assert Precisions(moved, relevant, i + 2) == Precisions(moved, relevant, i + 1);
        SameBeyond(moved, ranked, relevant, i + 2, n);
      }
    }
  }

  lemma Smaller(h: real, x: real, y: real)
    requires h > 0.0 && 0.0 < x < y
    ensures h / x > h / y > 0.0
  {
    var a, b := h / x, h / y;
    assert a * x == h == b * y;
    if a <= b { assert (b - a) * x >= 0.0 && b * (y - x) > 0.0; }
  }

  lemma DifferenceOver(x: real, y: real, m: real)
    requires m > 0.0
    ensures x / m - y / m == (x - y) / m
  {
  }

  lemma OverPositive(g: real, m: real)
    requires m > 0.0
    ensures (g > 0.0 ==> g / m > 0.0) && (g == 0.0 ==> g / m == 0.0)
  {
  }

  /** Moving a relevant result up past an irrelevant one never lowers MAP, and raises it exactly when it arrives
      within the first `k`; by how much, `Gain` says. */
  lemma MovingUpHelpsMap(ranked: seq<string>, relevant: set<string>, i: nat, k: nat)
    requires i + 1 < |ranked| && ranked[i] !in relevant && ranked[i + 1] in relevant
    ensures k > 0 ==>
      Map(Exchanged(ranked, i), relevant, k) - Map(ranked, relevant, k) ==
      Gain(ranked, relevant, i, k) / Least(k, |relevant|) as real
    ensures Map(Exchanged(ranked, i), relevant, k) >= Map(ranked, relevant, k)
    ensures Map(Exchanged(ranked, i), relevant, k) > Map(ranked, relevant, k) <==> i < k
  {
    hide Precisions;
    var moved, n, m := Exchanged(ranked, i), Least(k, |ranked|), Least(k, |relevant|);
    var h := (Hits(ranked, relevant, i) + 1) as real;
    PrecisionsExchanged(ranked, relevant, i, k);
    Smaller(h, (i + 1) as real, (i + 2) as real);
    if k > 0 {
      assert relevant != {} && m > 0;
      DifferenceOver(Precisions(moved, relevant, n), Precisions(ranked, relevant, n), m as real);
      OverPositive(Gain(ranked, relevant, i, k), m as real);
    }
  }

  /** While the hits are no more than the relevant documents, MAP lies between 0 and 1 and is 1 exactly when
      NDCG is. */
  lemma MapIsNormalised(ranked: seq<string>, relevant: set<string>, k: nat)
    requires WithinRelevant(ranked, relevant, k)
    ensures 0.0 <= Map(ranked, relevant, k) <= 1.0
    ensures relevant != {} && k > 0 ==>
      (Map(ranked, relevant, k) == 1.0 <==> AllRelevant(ranked, relevant, Least(k, |relevant|)))
  {
    var n, m := Least(k, |ranked|), Least(k, |relevant|);
    PrecisionsWithinHits(ranked, relevant, n);
    if m > 0 {
      Quotient(Precisions(ranked, relevant, n), m as real);
      if AllRelevant(ranked, relevant, m) {
        HitsWhenRelevant(ranked, relevant, m, n);
      }
    }
  }

  /** Recall is never negative, at most 1 exactly when the hits are no more than the relevant documents, and
      1 exactly when they are as many as can be. */
  lemma RecallIsNormalised(ranked: seq<string>, relevant: set<string>, k: nat)
    ensures Recall(ranked, relevant, k) >= 0.0
    ensures relevant != {} && k > 0 ==> (Recall(ranked, relevant, k) <= 1.0 <==> WithinRelevant(ranked, relevant, k))
    ensures relevant != {} && k > 0 ==>
      (Recall(ranked, relevant, k) == 1.0 <==> Hits(ranked, relevant, Least(k, |ranked|)) == Least(k, |relevant|))
  {
    var n, m := Least(k, |ranked|), Least(k, |relevant|);
    if m > 0 {
      AgainstOne(Hits(ranked, relevant, n) as real, m as real);
    }
  }

  lemma AgainstOne(x: real, y: real)
    requires x >= 0.0 && y > 0.0
    ensures x / y >= 0.0 && (x / y <= 1.0 <==> x <= y) && (x / y == 1.0 <==> x == y)
  {
  }
}
