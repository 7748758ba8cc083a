/**
 Ranked search over incidents: the in-process cosine ranking, over real numbers, and the lexical ranking behind its
 SQL prefilter. Both collect (score, incident) pairs in a loop and sort them in place, best first.
 */
module Search {
  import opened Options

  type IncidentId = nat

  /** `text` is the lower-cased "title service description" that both the SQL column and the Python words use. */
  datatype Row = Row(id: IncidentId, createdAt: int, text: string, embedding: seq<real>)
  datatype Hit = Hit(score: real, incident: Row)

  // ---------------------------------------------------------------- sorting, best first

  /** The order of the sort keys: (score, created_at) for words, the score alone for vectors. */
  predicate Before(a: Hit, b: Hit, byDate: bool) {
    a.score > b.score || (a.score == b.score && (byDate ==> a.incident.createdAt >= b.incident.createdAt))
  }

  ghost predicate Ranked(hits: seq<Hit>, byDate: bool) {
    forall i, j | 0 <= i < j < |hits| :: Before(hits[i], hits[j], byDate)
  }

  /** The hits that rank with h, in the order in which they stand. */
  function Tied(hits: seq<Hit>, h: Hit, byDate: bool): seq<Hit> {
    if hits == [] then []
    else
      var last := hits[|hits| - 1];
      Tied(hits[..|hits| - 1], h, byDate) + if Before(last, h, byDate) && Before(h, last, byDate) then [last] else []
  }

  /** Hits that rank alike stand in the same order in both. */
  ghost predicate Stable(hits: seq<Hit>, before: seq<Hit>, byDate: bool) {
    forall h: Hit :: Tied(hits, h, byDate) == Tied(before, h, byDate)
  }

  lemma {:induction false} TiedJoin(a: seq<Hit>, b: seq<Hit>, h: Hit, byDate: bool)
    ensures Tied(a + b, h, byDate) == Tied(a, h, byDate) + Tied(b, h, byDate)
  {
    if b == [] {
      assert a + b == a;
    } else {
      assert (a + b)[..|a + b| - 1] == a + b[..|b| - 1];
      TiedJoin(a, b[..|b| - 1], h, byDate);
    }
  }

  lemma TiedPair(x: Hit, y: Hit, h: Hit, byDate: bool)
    requires !Before(x, y, byDate)
    ensures Tied([x, y], h, byDate) == Tied([y, x], h, byDate)
  {
    assert [x, y][..1] == [x] && [y, x][..1] == [y] && [x][..0] == [] && [y][..0] == [];
  }

  /** Two neighbours in the wrong order do not rank alike, so exchanging them keeps the order of ties. */
  lemma SwapIsStable(hits: seq<Hit>, k: nat, byDate: bool)
    requires 0 < k < |hits| && !Before(hits[k - 1], hits[k], byDate)
    ensures Stable(hits[k - 1 := hits[k]][k := hits[k - 1]], hits, byDate)
  {
    var x, y, front, back := hits[k - 1], hits[k], hits[..k - 1], hits[k + 1..];
    assert hits == front + [x, y] + back;
    assert hits[k - 1 := y][k := x] == front + [y, x] + back;
    forall h: Hit ensures Tied(front + [y, x] + back, h, byDate) == Tied(front + [x, y] + back, h, byDate) {
      TiedPair(x, y, h, byDate);
      TiedJoin(front + [y, x], back, h, byDate);
      TiedJoin(front + [x, y], back, h, byDate);
      TiedJoin(front, [y, x], h, byDate);
      TiedJoin(front, [x, y], h, byDate);
    }
  }

  /** Sort in place, best first: what `list.sort(key=…, reverse=True)` leaves in the list. */
  method SortBestFirst(a: array<Hit>, byDate: bool)
    modifies a
    ensures Ranked(a[..], byDate)
    ensures multiset(a[..]) == multiset(old(a[..])) && Stable(a[..], old(a[..]), byDate)
  {
    var n := 0;
    while n < a.Length
      invariant n <= a.Length
      invariant Ranked(a[..n], byDate)
      invariant multiset(a[..]) == multiset(old(a[..])) && Stable(a[..], old(a[..]), byDate)
    {
      SinkLast(a, n, byDate);
      n := n + 1;
    }
    assert a[..a.Length] == a[..];
  }

  /** The first n + 1 hits are ranked, but for what stands before k against the one at k. */
  ghost predicate Sinking(hits: seq<Hit>, n: nat, k: nat, byDate: bool) {
    && k <= n < |hits|
    && (forall i, j | 0 <= i < j <= n && j != k :: Before(hits[i], hits[j], byDate))
  }

  lemma SinkStep(hits: seq<Hit>, n: nat, k: nat, byDate: bool)
    requires Sinking(hits, n, k, byDate) && k > 0 && !Before(hits[k - 1], hits[k], byDate)
    ensures Sinking(hits[k - 1 := hits[k]][k := hits[k - 1]], n, k - 1, byDate)
    ensures multiset(hits[k - 1 := hits[k]][k := hits[k - 1]]) == multiset(hits)
  {
    var hits' := hits[k - 1 := hits[k]][k := hits[k - 1]];
    forall i, j | 0 <= i < j <= n && j != k - 1 ensures Before(hits'[i], hits'[j], byDate) {
      if j == k {
        assert i < k - 1 ==> Before(hits[i], hits[k - 1], byDate);
      } else {
        assert Before(hits[if i == k then k - 1 else if i == k - 1 then k else i], hits[j], byDate);
      }
    }
  }

  lemma SunkIsRanked(hits: seq<Hit>, n: nat, k: nat, byDate: bool)
    requires Sinking(hits, n, k, byDate) && (k == 0 || Before(hits[k - 1], hits[k], byDate))
    ensures Ranked(hits[..n + 1], byDate)
  {
    forall i, j | 0 <= i < j <= n ensures Before(hits[i], hits[j], byDate) {
      if j == k && i < k - 1 {
        assert Before(hits[i], hits[k - 1], byDate);
      }
    }
  }

  /** Moves element n down to its place among the n ranked ones before it. */
  method SinkLast(a: array<Hit>, n: nat, byDate: bool)
    requires n < a.Length && Ranked(a[..n], byDate)
    modifies a
    ensures Ranked(a[..n + 1], byDate)
    ensures multiset(a[..]) == multiset(old(a[..])) && Stable(a[..], old(a[..]), byDate)
  {
    var k := n;
    assert forall i, j | 0 <= i < j <= n && j != n :: a[i] == a[..n][i] && a[j] == a[..n][j];
    while k > 0 && !Before(a[k - 1], a[k], byDate)
      invariant 0 <= k <= n
      invariant Sinking(a[..], n, k, byDate)
      invariant multiset(a[..]) == multiset(old(a[..])) && Stable(a[..], old(a[..]), byDate)
    {
      SwapIsStable(a[..], k, byDate);
      SinkStep(a[..], n, k, byDate);
      Swap(a, k);
      k := k - 1;
    }
    SunkIsRanked(a[..], n, k, byDate);
    assert a[..][..n + 1] == a[..n + 1];
  }

  method Swap(a: array<Hit>, k: nat)
    requires 0 < k < a.Length
    modifies a
    ensures a[..] == old(a[..][k - 1 := a[k]][k := a[k - 1]])
  {
    a[k - 1], a[k] := a[k], a[k - 1];
  }

  ghost predicate NoneBetter(items: seq<Hit>, rest: seq<Hit>, byDate: bool) {
    forall i, j | 0 <= i < |items| && 0 <= j < |rest| :: Before(items[i], rest[j], byDate)
  }

  /**
   The best `limit` candidates in order: no candidate that was left out beats one that was returned, and among those
   that rank alike the earlier ones come first.
   */
  ghost predicate TopOf(items: seq<Hit>, all: seq<Hit>, limit: nat, byDate: bool) {
    && Ranked(items, byDate)
    && |items| == (if |all| < limit then |all| else limit)
    && exists rest: seq<Hit> ::
          multiset(items + rest) == multiset(all)
          && NoneBetter(items, rest, byDate) && Stable(items + rest, all, byDate)
  }

  lemma PrefixIsTop(sorted: seq<Hit>, all: seq<Hit>, limit: nat, byDate: bool, n: nat)
    requires Ranked(sorted, byDate) && multiset(sorted) == multiset(all) && Stable(sorted, all, byDate)
    requires n == if |sorted| < limit then |sorted| else limit
    ensures TopOf(sorted[..n], all, limit, byDate)
  {
    var items, rest := sorted[..n], sorted[n..];
    assert items + rest == sorted;
    assert |multiset(sorted)| == |multiset(all)|;
    forall i, j | 0 <= i < |items| && 0 <= j < |rest| ensures Before(items[i], rest[j], byDate) {
      assert items[i] == sorted[i] && rest[j] == sorted[n + j];
    }
    assert NoneBetter(items, rest, byDate);
  }

  method TakeBest(hits: seq<Hit>, limit: nat, byDate: bool) returns (items: seq<Hit>)
    ensures TopOf(items, hits, limit, byDate)
  {
    var a := new Hit[|hits|](i requires 0 <= i < |hits| => hits[i]);
    assert a[..] == hits;
    SortBestFirst(a, byDate);
    var sorted := a[..];
    var n := if |sorted| < limit then |sorted| else limit;
    PrefixIsTop(sorted, hits, limit, byDate, n);
    items := sorted[..n];
  }

  /** Everything returned is a candidate. */
  lemma TopIsCandidate(items: seq<Hit>, all: seq<Hit>, limit: nat, byDate: bool, h: Hit)
    requires TopOf(items, all, limit, byDate) && h in items
    ensures h in all
  {
    var rest: seq<Hit> :| multiset(items + rest) == multiset(all) && NoneBetter(items, rest, byDate);
    assert h in items + rest;
    assert h in multiset(items + rest);
  }

  /** A candidate that is not returned does not beat any returned one. */
  lemma LeftOutIsNoBetter(items: seq<Hit>, all: seq<Hit>, limit: nat, byDate: bool, h: Hit, i: nat)
    requires TopOf(items, all, limit, byDate) && h in all && h !in items && i < |items|
    ensures Before(items[i], h, byDate)
  {
    var rest: seq<Hit> :| multiset(items + rest) == multiset(all) && NoneBetter(items, rest, byDate);
    assert h in multiset(all);
    assert h in items + rest;
    assert h in rest;
    var j :| 0 <= j < |rest| && rest[j] == h;
  }

  // ---------------------------------------------------------------- cosine

  function Dot(v: seq<real>, w: seq<real>): real
    requires |v| == |w|
  {
    if v == [] then 0.0 else v[0] * w[0] + Dot(v[1..], w[1..])
  }

  /** The vector with one at place i and zero elsewhere. */
  function Unit(n: nat, i: nat): (u: seq<real>)
    requires i < n
    ensures |u| == n
  {
    seq(n, k => if k == i then 1.0 else 0.0)
  }

  lemma {:induction false} DotZero(v: seq<real>, z: seq<real>)
    requires |v| == |z| && forall k | 0 <= k < |z| :: z[k] == 0.0
    ensures Dot(v, z) == 0.0
  {
    if v != [] {
      DotZero(v[1..], z[1..]);
    }
  }

  /** The product with a unit vector is the component: together with linearity this is all there is to know of Dot. */
  lemma {:induction false} DotUnit(v: seq<real>, i: nat)
    requires i < |v|
    ensures Dot(v, Unit(|v|, i)) == v[i]
    decreases i
  {
    var u := Unit(|v|, i);
    if i == 0 {
      DotZero(v[1..], u[1..]);
    } else {
      DotUnit(v[1..], i - 1);
      assert u[1..] == Unit(|v| - 1, i - 1);
    }
  }

  lemma Distribute(x: real, y: real, z: real, t: real)
    ensures x * (y - t * z) == x * y - t * (x * z)
  {
  }

  lemma {:induction false} DotLinear(v: seq<real>, w: seq<real>, u: seq<real>, t: real)
    requires |v| == |w| == |u|
    ensures Dot(v, Residue(w, u, t)) == Dot(v, w) - t * Dot(v, u)
  {
    if v != [] {
      DotLinear(v[1..], w[1..], u[1..], t);
      assert Residue(w, u, t)[1..] == Residue(w[1..], u[1..], t);
      Distribute(v[0], w[0], u[0], t);
      assert t * (v[0] * u[0] + Dot(v[1..], u[1..])) == t * (v[0] * u[0]) + t * Dot(v[1..], u[1..]);
    }
  }

  function SquareSum(v: seq<real>): real {
    Dot(v, v)
  }

  /** v - t * w */
  function Residue(v: seq<real>, w: seq<real>, t: real): (r: seq<real>)
    requires |v| == |w|
    ensures |r| == |v|
  {
    if v == [] then [] else [v[0] - t * w[0]] + Residue(v[1..], w[1..], t)
  }

  lemma Square(x: real)
    ensures x * x >= 0.0
  {
  }

  lemma {:induction false} SquareSumNonNegative(v: seq<real>)
    ensures SquareSum(v) >= 0.0
  {
    if v != [] {
      SquareSumNonNegative(v[1..]);
      Square(v[0]);
    }
  }

  lemma Expand(x: real, y: real, t: real)
    ensures (x - t * y) * (x - t * y) == x * x - 2.0 * t * (x * y) + t * t * (y * y)
  {
  }

  lemma {:induction false} ResidueSquareSum(v: seq<real>, w: seq<real>, t: real)
    requires |v| == |w|
    ensures SquareSum(Residue(v, w, t)) == SquareSum(v) - 2.0 * t * Dot(v, w) + t * t * SquareSum(w)
  {
    if v != [] {
      var x, y := v[0], w[0];
      var r := Residue(v, w, t);
      assert r[1..] == Residue(v[1..], w[1..], t);
      ResidueSquareSum(v[1..], w[1..], t);
      Expand(x, y, t);
      var d, b := Dot(v[1..], w[1..]), SquareSum(w[1..]);
      assert 2.0 * t * (x * y + d) == 2.0 * t * (x * y) + 2.0 * t * d;
      assert t * t * (y * y + b) == t * t * (y * y) + t * t * b;
    }
  }

  lemma Discriminant(a: real, d: real, b: real, t: real)
    requires b > 0.0 && t * b == d && a - 2.0 * t * d + t * t * b >= 0.0
    ensures d * d <= a * b
  {
    assert t * t * b == t * d by {
      assert t * t * b == t * (t * b);
    }
    assert a - t * d >= 0.0;
    assert (a - t * d) * b >= 0.0;
    assert t * d * b == d * d by {
      assert t * d * b == (t * b) * d;
    }
  }

  lemma Multiplier(d: real, b: real) returns (t: real)
    requires b > 0.0
    ensures t * b == d
  {
    t := d / b;
  }

  lemma ResidueNonNegative(v: seq<real>, w: seq<real>, t: real)
    requires |v| == |w|
    ensures SquareSum(v) - 2.0 * t * Dot(v, w) + t * t * SquareSum(w) >= 0.0
  {
    ResidueSquareSum(v, w, t);
    SquareSumNonNegative(Residue(v, w, t));
  }

  lemma NonZeroSquare(x: real)
    requires x != 0.0
    ensures x * x > 0.0
  {
    var m := if x > 0.0 then x / 2.0 else -x / 2.0;
    Square(m);
    if x > 0.0 {
      SquareGrows(x, m);
    } else {
      NegativeSquareGrows(x, m);
    }
  }

  /** A vector without length is zero everywhere. */
  lemma {:induction false} ZeroVector(v: seq<real>, w: seq<real>)
    requires |v| == |w| && SquareSum(w) == 0.0
    ensures Dot(v, w) == 0.0
  {
    if v != [] {
      SquareSumNonNegative(w[1..]);
      Square(w[0]);
      if w[0] != 0.0 {
        NonZeroSquare(w[0]);
      }
      ZeroVector(v[1..], w[1..]);
    }
  }

  /** The Cauchy-Schwarz inequality. */
  lemma CauchySchwarz(v: seq<real>, w: seq<real>, a: real, d: real, b: real)
    requires |v| == |w| && a == SquareSum(v) && d == Dot(v, w) && b == SquareSum(w)
    ensures d * d <= a * b
  {
    SquareSumNonNegative(w);
    if b == 0.0 {
      ZeroVector(v, w);
    } else {
      var t := Multiplier(d, b);
      ResidueNonNegative(v, w, t);
      Discriminant(a, d, b, t);
    }
  }

  predicate RootOf(r: real, x: real) {
    r >= 0.0 && r * r == x
  }

  /** `math.sqrt` over the reals. */
  ghost predicate IsSquareRoot(sqrt: real -> real) {
    forall x: real | x >= 0.0 :: RootOf(sqrt(x), x)
  }

  function Norm(sqrt: real -> real, v: seq<real>): real {
    sqrt(SquareSum(v))
  }

  function Product(m: real, n: real): real {
    m * n
  }

  /** The product of the two norms, by which the dot product is divided. */
  function Denominator(sqrt: real -> real, v: seq<real>, w: seq<real>): real {
    Product(Norm(sqrt, v), Norm(sqrt, w))
  }

  function Divide(dot: real, denominator: real): real
    requires denominator != 0.0
  {
    dot / denominator
  }

  function Cosine(sqrt: real -> real, v: seq<real>, w: seq<real>): real
    requires |v| == |w| && Denominator(sqrt, v, w) != 0.0
  {
    Divide(Dot(v, w), Denominator(sqrt, v, w))
  }

  lemma SquareGrows(x: real, m: real)
    requires x > m > 0.0
    ensures x * x > m * m
  {
    assert (x - m) * (x + m) > 0.0;
    assert (x - m) * (x + m) == x * x - m * m;
  }

  lemma NegativeSquareGrows(x: real, m: real)
    requires x < -m && m > 0.0
    ensures x * x > m * m
  {
    SquareGrows(-x, m);
  }

  lemma NoLarger(d: real, m: real)
    requires m > 0.0 && d * d <= m * m
    ensures -m <= d <= m
  {
    if d > m {
      SquareGrows(d, m);
    } else if d < -m {
      NegativeSquareGrows(d, m);
    }
  }

  lemma Factor(a: real, m: real)
    requires m > 0.0 && a * m >= 0.0
    ensures a >= 0.0
  {
  }

  lemma Quotient(d: real, m: real)
    requires m > 0.0 && -m <= d <= m
    ensures -1.0 <= d / m <= 1.0
  {
    var q := d / m;
    assert q * m == d;
    assert (1.0 - q) * m == m - d;
    Factor(1.0 - q, m);
    assert (1.0 + q) * m == m + d;
    Factor(1.0 + q, m);
  }

  lemma PositiveProduct(m: real, n: real)
    requires m >= 0.0 && n >= 0.0 && Product(m, n) != 0.0
    ensures Product(m, n) > 0.0 && n * n > 0.0
  {
  }

  lemma SquaredProduct(m: real, n: real)
    ensures Product(m, n) * Product(m, n) == (m * m) * (n * n)
  {
  }

  lemma DivideRange(d: real, a: real, b: real, m: real, n: real)
    requires RootOf(m, a) && RootOf(n, b) && Product(m, n) != 0.0 && d * d <= a * b
    ensures -1.0 <= Divide(d, Product(m, n)) <= 1.0
  {
    PositiveProduct(m, n);
    SquaredProduct(m, n);
    NoLarger(d, Product(m, n));
    Quotient(d, Product(m, n));
  }

  lemma PositiveRoot(m: real, n: real, b: real)
    requires m >= 0.0 && RootOf(n, b) && Product(m, n) != 0.0
    ensures b > 0.0
  {
    PositiveProduct(m, n);
  }

  lemma SelfRatio(m: real, a: real)
    requires RootOf(m, a) && Product(m, m) != 0.0
    ensures Divide(a, Product(m, m)) == 1.0
  {
  }

  lemma DivideBack(d: real, m: real)
    requires m != 0.0
    ensures Divide(d, m) * m == d
  {
  }

  lemma NormIsRoot(sqrt: real -> real, v: seq<real>)
    requires IsSquareRoot(sqrt)
    ensures RootOf(Norm(sqrt, v), SquareSum(v)) && Norm(sqrt, v) >= 0.0
  {
    SquareSumNonNegative(v);
  }

  /** The score lies between -1 and 1, and a vector scores 1 against itself. */
  lemma CosineRange(sqrt: real -> real, v: seq<real>, w: seq<real>)
    requires IsSquareRoot(sqrt) && |v| == |w| && Denominator(sqrt, v, w) != 0.0
    ensures -1.0 <= Cosine(sqrt, v, w) <= 1.0
    ensures v == w ==> Cosine(sqrt, v, w) == 1.0
  {
    var m, n := Norm(sqrt, v), Norm(sqrt, w);
    NormIsRoot(sqrt, v);
    NormIsRoot(sqrt, w);
    PositiveRoot(m, n, SquareSum(w));
    var a, d, b := SquareSum(v), Dot(v, w), SquareSum(w);
    CauchySchwarz(v, w, a, d, b);
    DivideRange(d, a, b, m, n);
    if v == w {
      SelfRatio(m, SquareSum(v));
    }
  }

  /** The score times the two lengths is the dot product, sign included. */
  lemma CosineTimesLengths(sqrt: real -> real, v: seq<real>, w: seq<real>)
    requires |v| == |w| && Denominator(sqrt, v, w) != 0.0
    ensures Cosine(sqrt, v, w) * (Norm(sqrt, v) * Norm(sqrt, w)) == Dot(v, w)
  {
    hide Dot, Divide, Norm;
    DivideBack(Dot(v, w), Denominator(sqrt, v, w));
  }

  lemma PositiveRootOf(r: real, x: real)
    requires RootOf(r, x) && r > 0.0
    ensures x > 0.0
  {
    calc {
      x;
      r * r;
    > { NonZeroSquare(r); }
      0.0;
    }
  }

  lemma RootIsPositive(r: real, x: real)
    requires RootOf(r, x)
    ensures r > 0.0 <==> x > 0.0
  {
    if r > 0.0 {
      PositiveRootOf(r, x);
    } else {
      assert r == 0.0 && r * r == 0.0 * r;
    }
  }

  lemma ProductIsZero(m: real, n: real)
    requires m >= 0.0 && n >= 0.0
    ensures Product(m, n) != 0.0 <==> m > 0.0 && n > 0.0
  {
  }

  /** Two vectors can be compared exactly when neither is zero. */
  lemma ComparableVectors(sqrt: real -> real, v: seq<real>, w: seq<real>)
    requires IsSquareRoot(sqrt)
    ensures Denominator(sqrt, v, w) != 0.0 <==> SquareSum(v) > 0.0 && SquareSum(w) > 0.0
  {
    hide SquareSum, Norm, Product;
    NormIsRoot(sqrt, v);
    NormIsRoot(sqrt, w);
    RootIsPositive(Norm(sqrt, v), SquareSum(v));
    RootIsPositive(Norm(sqrt, w), SquareSum(w));
    ProductIsZero(Norm(sqrt, v), Norm(sqrt, w));
  }

  /** The rows the statement and the loop leave as candidates. */
  predicate Comparable(sqrt: real -> real, query: seq<real>, row: Row, excluded: set<IncidentId>) {
    row.id !in excluded && |row.embedding| == |query| && Denominator(sqrt, query, row.embedding) != 0.0
  }

  function Scored(sqrt: real -> real, query: seq<real>, rows: seq<Row>, excluded: set<IncidentId>): seq<Hit> {
    if rows == [] then []
    else
      var last := rows[|rows| - 1];
      Scored(sqrt, query, rows[..|rows| - 1], excluded)
      + if Comparable(sqrt, query, last, excluded) then [Hit(Cosine(sqrt, query, last.embedding), last)] else []
  }

  /** The semantic branch. An empty result falls through to the lexical one. */
  method SearchByVector(sqrt: real -> real, query: seq<real>, rows: seq<Row>, excluded: set<IncidentId>, limit: nat)
    returns (items: seq<Hit>)
    ensures TopOf(items, Scored(sqrt, query, rows, excluded), limit, false)
  {
    var scored: seq<Hit> := [];
    var magnitude := Norm(sqrt, query);
    var i := 0;
    while i < |rows|
      invariant i <= |rows|
      invariant scored == Scored(sqrt, query, rows[..i], excluded)
    {
      var row := rows[i];
      assert rows[..i + 1][..i] == rows[..i] && rows[..i + 1][i] == row;
      assert scored + [] == scored;
      assert Scored(sqrt, query, rows[..i + 1], excluded)
          == scored + if Comparable(sqrt, query, row, excluded)
             then [Hit(Cosine(sqrt, query, row.embedding), row)] else [];
      if row.id !in excluded && |row.embedding| == |query| {
        var denominator := Product(magnitude, Norm(sqrt, row.embedding));
        if denominator != 0.0 {
          scored := scored + [Hit(Divide(Dot(query, row.embedding), denominator), row)];
        }
      }
      i := i + 1;
    }
    assert rows[..|rows|] == rows;
    items := TakeBest(scored, limit, false);
  }

  lemma {:induction false} ScoredIsExactly(
    sqrt: real -> real, query: seq<real>, rows: seq<Row>, excluded: set<IncidentId>, h: Hit)
    ensures h in Scored(sqrt, query, rows, excluded) <==>
            h.incident in rows && Comparable(sqrt, query, h.incident, excluded)
            && h.score == Cosine(sqrt, query, h.incident.embedding)
  {
    if rows != [] {
      var front, last := rows[..|rows| - 1], rows[|rows| - 1];
      ScoredIsExactly(sqrt, query, front, excluded, h);
      assert rows == front + [last];
    }
  }

  /**
   The semantic result is ranked, holds only comparable rows that are not excluded, each with its cosine in
   [-1, 1], and no comparable row that was left out beats one of them.
   */
  lemma SemanticRanking(
    sqrt: real -> real, query: seq<real>, rows: seq<Row>, excluded: set<IncidentId>, limit: nat, items: seq<Hit>)
    requires IsSquareRoot(sqrt) && TopOf(items, Scored(sqrt, query, rows, excluded), limit, false)
    ensures forall i, j | 0 <= i < j < |items| :: items[i].score >= items[j].score
    ensures forall h | h in items ::
              h.incident in rows && Comparable(sqrt, query, h.incident, excluded)
              && h.score == Cosine(sqrt, query, h.incident.embedding) && -1.0 <= h.score <= 1.0
    ensures forall row | row in rows ::
              Comparable(sqrt, query, row, excluded) <==>
              row.id !in excluded && |row.embedding| == |query|
              && SquareSum(query) > 0.0 && SquareSum(row.embedding) > 0.0
    ensures forall row, i | row in rows && Comparable(sqrt, query, row, excluded) && 0 <= i < |items| ::
              var h := Hit(Cosine(sqrt, query, row.embedding), row); h in items || items[i].score >= h.score
  {
    var all := Scored(sqrt, query, rows, excluded);
    forall row | row in rows
      ensures Comparable(sqrt, query, row, excluded) <==>
              row.id !in excluded && |row.embedding| == |query|
              && SquareSum(query) > 0.0 && SquareSum(row.embedding) > 0.0
    {
      ComparableVectors(sqrt, query, row.embedding);
    }
    forall h | h in items
      ensures h.incident in rows && Comparable(sqrt, query, h.incident, excluded)
              && h.score == Cosine(sqrt, query, h.incident.embedding) && -1.0 <= h.score <= 1.0
    {
      TopIsCandidate(items, all, limit, false, h);
      ScoredIsExactly(sqrt, query, rows, excluded, h);
      CosineRange(sqrt, query, h.incident.embedding);
    }
    forall row, i | row in rows && Comparable(sqrt, query, row, excluded) && 0 <= i < |items|
      ensures var h := Hit(Cosine(sqrt, query, row.embedding), row); h in items || items[i].score >= h.score
    {
      var h := Hit(Cosine(sqrt, query, row.embedding), row);
      ScoredIsExactly(sqrt, query, rows, excluded, h);
      if h !in items {
        LeftOutIsNoBetter(items, all, limit, false, h, i);
      }
    }
  }

  // ---------------------------------------------------------------- words

  predicate Contains(text: string, token: string) {
    exists i | 0 <= i <= |text| :: token <= text[i..]
  }

  predicate AnyToken(text: string, tokens: seq<string>) {
    exists t | t in tokens :: Contains(text, t)
  }

  function Matches(text: string, tokens: seq<string>): (n: nat)
    ensures n <= |tokens|
  {
    if tokens == [] then 0
    else Matches(text, tokens[..|tokens| - 1]) + if Contains(text, tokens[|tokens| - 1]) then 1 else 0
  }

  /** The places of the tokens that the text contains. */
  ghost function Contained(text: string, tokens: seq<string>): set<nat> {
    set j: nat | j < |tokens| && Contains(text, tokens[j])
  }

  lemma ContainedMore(text: string, tokens: seq<string>)
    requires tokens != []
    ensures var n := |tokens| - 1;
            Contained(text, tokens)
            == Contained(text, tokens[..n]) + if Contains(text, tokens[n]) then {n} else {}
    ensures |tokens| - 1 !in Contained(text, tokens[..|tokens| - 1])
  {
    hide Contains;
  }

  /** The score counts the tokens that the text contains. */
  lemma {:induction false} MatchesCounts(text: string, tokens: seq<string>)
    ensures Matches(text, tokens) == |Contained(text, tokens)|
  {
    hide Contains;
    if tokens != [] {
      MatchesCounts(text, tokens[..|tokens| - 1]);
      ContainedMore(text, tokens);
    }
  }

  lemma ContainsIsSubstring(text: string, token: string)
    ensures Contains(text, token) <==> exists a, b :: text == a + token + b
  {
    if Contains(text, token) {
      var i :| 0 <= i <= |text| && token <= text[i..];
      assert text == text[..i] + token + text[i + |token|..];
    }
    if a, b :| text == a + token + b {
      assert text[|a|..] == token + b;
      assert token <= text[|a|..];
    }
  }

  function WordScore(text: string, tokens: seq<string>): real
    requires tokens != []
  {
    Matches(text, tokens) as real / |tokens| as real
  }

  /** The score is the share of the tokens that the text contains. */
  lemma WordScoreIsShare(text: string, tokens: seq<string>)
    requires tokens != []
    ensures WordScore(text, tokens) * |tokens| as real == |Contained(text, tokens)| as real
  {
    MatchesCounts(text, tokens);
    DivideBack(Matches(text, tokens) as real, |tokens| as real);
  }

  /** `or_(*(text.contains(token) …))` and the exclusion, as the database filters. */
  predicate Selected(row: Row, tokens: seq<string>, excluded: set<IncidentId>) {
    row.id !in excluded && AnyToken(row.text, tokens)
  }

  function Filtered(rows: seq<Row>, tokens: seq<string>, excluded: set<IncidentId>): seq<Row> {
    if rows == [] then []
    else
      var last := rows[|rows| - 1];
      Filtered(rows[..|rows| - 1], tokens, excluded) + if Selected(last, tokens, excluded) then [last] else []
  }

  function Worded(rows: seq<Row>, tokens: seq<string>): seq<Hit>
    requires tokens != []
  {
    if rows == [] then []
    else
      var last := rows[|rows| - 1];
      Worded(rows[..|rows| - 1], tokens) + [Hit(WordScore(last.text, tokens), last)]
  }

  /** Every row that is not excluded, with its score, without any prefilter. */
  function Relevant(rows: seq<Row>, tokens: seq<string>, excluded: set<IncidentId>): seq<Hit>
    requires tokens != []
  {
    if rows == [] then []
    else
      var last := rows[|rows| - 1];
      Relevant(rows[..|rows| - 1], tokens, excluded)
      + if last.id !in excluded && WordScore(last.text, tokens) > 0.0
          then [Hit(WordScore(last.text, tokens), last)] else []
  }

  /** The lexical branch: the prefiltered rows scored in a loop, sorted by (score, created_at), cut. */
  method SearchByWords(rows: seq<Row>, tokens: seq<string>, excluded: set<IncidentId>, limit: nat)
    returns (items: seq<Hit>)
    ensures tokens == [] ==> items == []
    ensures tokens != [] ==> TopOf(items, Relevant(rows, tokens, excluded), limit, true)
  {
    if tokens == [] {
      return [];
    }
    var selected := Filtered(rows, tokens, excluded);
    var lexical: seq<Hit> := [];
    var i := 0;
    while i < |selected|
      invariant i <= |selected|
      invariant lexical == Worded(selected[..i], tokens)
    {
      assert selected[..i + 1][..i] == selected[..i];
      var matches := 0;
      var j := 0;
      while j < |tokens|
        invariant j <= |tokens|
        invariant matches == Matches(selected[i].text, tokens[..j])
      {
        assert tokens[..j + 1][..j] == tokens[..j];
        if Contains(selected[i].text, tokens[j]) {
          matches := matches + 1;
        }
        j := j + 1;
      }
      assert tokens[..|tokens|] == tokens;
      lexical := lexical + [Hit(matches as real / |tokens| as real, selected[i])];
      i := i + 1;
    }
    assert selected[..|selected|] == selected;
    PrefilterAgrees(rows, tokens, excluded);
    items := TakeBest(lexical, limit, true);
  }

  lemma {:induction false} MatchesPositive(text: string, tokens: seq<string>)
    ensures Matches(text, tokens) > 0 <==> AnyToken(text, tokens)
  {
    if tokens != [] {
      var front, last := tokens[..|tokens| - 1], tokens[|tokens| - 1];
      MatchesPositive(text, front);
      assert tokens == front + [last];
    }
  }

  lemma ScorePositive(text: string, tokens: seq<string>)
    requires tokens != []
    ensures WordScore(text, tokens) > 0.0 <==> AnyToken(text, tokens)
    ensures 0.0 <= WordScore(text, tokens) <= 1.0
  {
    MatchesPositive(text, tokens);
    Ratio(Matches(text, tokens) as real, |tokens| as real);
  }

  lemma Ratio(m: real, n: real)
    requires 0.0 <= m <= n && n > 0.0
    ensures 0.0 <= m / n <= 1.0 && (m / n > 0.0 <==> m > 0.0)
  {
    assert (m / n) * n == m;
  }

  /** The prefilter drops exactly the rows that score zero. */
  lemma {:induction false} PrefilterAgrees(rows: seq<Row>, tokens: seq<string>, excluded: set<IncidentId>)
    requires tokens != []
    ensures Worded(Filtered(rows, tokens, excluded), tokens) == Relevant(rows, tokens, excluded)
  {
    if rows != [] {
      var front, last := rows[..|rows| - 1], rows[|rows| - 1];
      PrefilterAgrees(front, tokens, excluded);
      ScorePositive(last.text, tokens);
      var kept := Filtered(front, tokens, excluded);
      assert (kept + [last])[..|kept|] == kept;
      assert kept + [] == kept;
    }
  }

  lemma {:induction false} RelevantIsExactly(rows: seq<Row>, tokens: seq<string>, excluded: set<IncidentId>, h: Hit)
    requires tokens != []
    ensures h in Relevant(rows, tokens, excluded) <==>
            h.incident in rows && h.incident.id !in excluded
            && h.score == WordScore(h.incident.text, tokens) && h.score > 0.0
  {
    if rows != [] {
      var front, last := rows[..|rows| - 1], rows[|rows| - 1];
      RelevantIsExactly(front, tokens, excluded, h);
      assert rows == front + [last];
    }
  }

  /** The lexical result is the best `limit` of all rows with a positive score, ranked by score, then by date. */
  lemma LexicalRanking(
    rows: seq<Row>, tokens: seq<string>, excluded: set<IncidentId>, limit: nat, items: seq<Hit>)
    requires tokens != [] && TopOf(items, Relevant(rows, tokens, excluded), limit, true)
    ensures forall h | h in items ::
              h.incident in rows && h.incident.id !in excluded && 0.0 < h.score <= 1.0
              && h.score == WordScore(h.incident.text, tokens)
    ensures forall i, j | 0 <= i < j < |items| ::
              items[i].score > items[j].score
              || (items[i].score == items[j].score && items[i].incident.createdAt >= items[j].incident.createdAt)
    ensures forall row, i | row in rows && row.id !in excluded
                            && WordScore(row.text, tokens) > 0.0 && 0 <= i < |items| ::
              var h := Hit(WordScore(row.text, tokens), row);
              h in items || items[i].score > h.score
              || (items[i].score == h.score && items[i].incident.createdAt >= row.createdAt)
  {
    var all := Relevant(rows, tokens, excluded);
    forall h | h in items
      ensures h.incident in rows && h.incident.id !in excluded && 0.0 < h.score <= 1.0
      ensures h.score == WordScore(h.incident.text, tokens)
    {
      TopIsCandidate(items, all, limit, true, h);
      RelevantIsExactly(rows, tokens, excluded, h);
      ScorePositive(h.incident.text, tokens);
    }
    forall row, i | row in rows && row.id !in excluded && WordScore(row.text, tokens) > 0.0 && 0 <= i < |items|
      ensures var h := Hit(WordScore(row.text, tokens), row); h in items || Before(items[i], h, true)
    {
      var h := Hit(WordScore(row.text, tokens), row);
      RelevantIsExactly(rows, tokens, excluded, h);
      if h !in items {
        LeftOutIsNoBetter(items, all, limit, true, h, i);
      }
    }
  }

  // ---------------------------------------------------------------- the request

  const MAX_TOKENS: nat := 20

  /** The words in the order of their first occurrence. */
  function Distinct(words: seq<string>): (r: seq<string>)
    ensures forall w: string :: w in r <==> w in words
    ensures forall i, j | 0 <= i < j < |r| :: r[i] != r[j]
  {
    if words == [] then []
    else
      var front := Distinct(words[..|words| - 1]);
      assert words == words[..|words| - 1] + [words[|words| - 1]];
      if words[|words| - 1] in front then front else front + [words[|words| - 1]]
  }

  /** A word comes before another exactly when it occurs first. */
  lemma {:induction false} DistinctOrder(words: seq<string>, i: nat, j: nat)
    requires i < j < |Distinct(words)|
    ensures exists n :: 0 <= n < |words| && words[n] == Distinct(words)[i] && Distinct(words)[j] !in words[..n + 1]
  {
    var front, last := words[..|words| - 1], words[|words| - 1];
    var r := Distinct(front);
    if j < |r| {
      DistinctOrder(front, i, j);
      var n :| 0 <= n < |front| && front[n] == r[i] && r[j] !in front[..n + 1];
      assert words[..n + 1] == front[..n + 1];
    } else {
      assert r[i] in front;
      var n :| 0 <= n < |front| && front[n] == r[i];
      assert words[..n + 1] == front[..n + 1] && forall w | w in front[..n + 1] :: w in front;
    }
  }

  function Tokens(words: seq<string>): (r: seq<string>)
    ensures r <= Distinct(words) && |r| == if |Distinct(words)| <= 20 then |Distinct(words)| else 20
  {
    var all := Distinct(words);
    if |all| <= MAX_TOKENS then all else all[..MAX_TOKENS]
  }

  datatype Results = Results(items: seq<Hit>, semantic: bool)

  /**
   search_incidents: `embedding` is None when no usable vector could be obtained; the rows with a stored vector of
   the configured model are `embedded`. The vector ranking is used exactly when it has a candidate.
   */
  method SearchIncidents(
    sqrt: real -> real, embedding: Option<seq<real>>, embedded: seq<Row>, rows: seq<Row>, words: seq<string>,
    excluded: set<IncidentId>, limit: nat)
    returns (r: Results)
    requires limit >= 1
    ensures r.semantic <==>
            embedding.Some? && embedding.value != [] && Scored(sqrt, embedding.value, embedded, excluded) != []
    ensures r.semantic ==> TopOf(r.items, Scored(sqrt, embedding.value, embedded, excluded), limit, false)
    ensures !r.semantic && words != [] ==> TopOf(r.items, Relevant(rows, Tokens(words), excluded), limit, true)
    ensures !r.semantic && words == [] ==> r.items == []
  {
    if embedding.Some? && embedding.value != [] {
      var items := SearchByVector(sqrt, embedding.value, embedded, excluded, limit);
      if items != [] {
        return Results(items, true);
      }
    }
    assert words != [] ==> words[0] in Distinct(words);
    var items := SearchByWords(rows, Tokens(words), excluded, limit);
    r := Results(items, false);
  }
}
