/**
 The pairwise pass (`ColisoesEntreBolas`, colisor.c:91-118): every index pair
 i < j below the sphere count is resolved once, row by row, each resolution
 seeing the effect of the earlier ones.

 `Row` and `Rows` give the order of the pass as a recursive reference
 definition; `PairwisePass` is the double loop over an array. `len` computes
 the Euclidean length of a vector, which the source obtains from
 `Vector3Length`.
 */
module Pass {
  import opened Vectors
  import opened Scene
  import opened Pair

  /** Sum of a sequence of vectors. */
  function Total(vs: seq<Vec3>): Vec3
    decreases |vs|
  {
    if |vs| == 0 then Zero else Add(Total(vs[..|vs| - 1]), vs[|vs| - 1])
  }

  /** Velocities of the first `n` spheres. */
  function Velocities(bs: seq<Ball>, n: nat): (vs: seq<Vec3>)
    requires n <= |bs|
  {
    seq(n, k requires 0 <= k < n => bs[k].vel)
  }

  /** Centres of the first `n` spheres. */
  function Positions(bs: seq<Ball>, n: nat): (ps: seq<Vec3>)
    requires n <= |bs|
  {
    seq(n, k requires 0 <= k < n => bs[k].pos)
  }

  /**
   What the pass keeps when it turns `bs` into `r`: the number of spheres,
   every radius and colour, every sphere from index `n` on, and the sums of
   the velocities and of the centres of the first `n` spheres.
   */
  predicate Conserved(bs: seq<Ball>, r: seq<Ball>, n: nat)
    requires n <= |bs|
  {
    && |r| == |bs|
    && (forall k :: 0 <= k < |bs| ==> r[k].radius == bs[k].radius && r[k].color == bs[k].color)
    && r[n..] == bs[n..]
    && Total(Velocities(r, n)) == Total(Velocities(bs, n))
    && Total(Positions(r, n)) == Total(Positions(bs, n))
  }

  /** No two of the first `n` spheres would be resolved. */
  ghost predicate NoContacts(bs: seq<Ball>, n: nat, len: Vec3 -> real)
    requires n <= |bs|
  {
    forall i, j :: 0 <= i < j < n ==>
      !InContact(len(Sub(bs[i].pos, bs[j].pos)), bs[i].radius + bs[j].radius)
  }

  /** One iteration of the inner loop: spheres `i` and `j` resolved, written back in place. */
  function PairStep(bs: seq<Ball>, i: nat, j: nat, cr: real, len: Vec3 -> real): (r: seq<Ball>)
    requires i < j < |bs| && IsLength(len)
    ensures |r| == |bs|
  {
    var res := ResolvePair(bs[i], bs[j], cr, len(Sub(bs[i].pos, bs[j].pos)));
    bs[i := res.0][j := res.1]
  }

  /** The inner loop from `j` on: pairs (i, j), (i, j+1), ..., (i, n-1). */
  function Row(bs: seq<Ball>, i: nat, j: nat, n: nat, cr: real, len: Vec3 -> real): (r: seq<Ball>)
    requires i < j <= n <= |bs| && IsLength(len)
    ensures |r| == |bs|
    decreases n - j
  {
    if j == n then bs else Row(PairStep(bs, i, j, cr, len), i, j + 1, n, cr, len)
  }

  /** The outer loop from `i` on: rows i, i+1, ..., n-1. */
  function Rows(bs: seq<Ball>, i: nat, n: nat, cr: real, len: Vec3 -> real): (r: seq<Ball>)
    requires i <= n <= |bs| && IsLength(len)
    ensures |r| == |bs|
    decreases n - i
  {
    if i == n then bs else Rows(Row(bs, i, i + 1, n, cr, len), i + 1, n, cr, len)
  }

  /** Replacing one vector changes the total by the difference. */
  lemma {:induction false} TotalUpdate(vs: seq<Vec3>, k: nat, v: Vec3)
    requires k < |vs|
    ensures Total(vs[k := v]) == Add(Sub(Total(vs), vs[k]), v)
    decreases |vs|
  {
    var m := |vs| - 1;
    var us := vs[k := v];
    if k == m {
      assert us[..m] == vs[..m];
    } else {
      assert us[..m] == vs[..m][k := v];
      TotalUpdate(vs[..m], k, v);
    }
  }

  /** Writing two spheres back whose vectors have the same sum keeps the total. */
  lemma TotalPairUpdate(vs: seq<Vec3>, i: nat, j: nat, x: Vec3, y: Vec3)
    requires i < j < |vs|
    requires Add(x, y) == Add(vs[i], vs[j])
    ensures Total(vs[i := x][j := y]) == Total(vs)
  {
    TotalUpdate(vs, i, x);
    TotalUpdate(vs[i := x], j, y);
  }

  lemma ConservedTransitive(a: seq<Ball>, b: seq<Ball>, c: seq<Ball>, n: nat)
    requires n <= |a|
    requires Conserved(a, b, n) && Conserved(b, c, n)
    ensures Conserved(a, c, n)
  {
    assert c[n..] == b[n..] == a[n..];
  }

  /** Resolving one pair among the first `n` spheres keeps everything `Conserved` names. */
  lemma PairStepConserves(bs: seq<Ball>, i: nat, j: nat, n: nat, cr: real, len: Vec3 -> real)
    requires i < j < n <= |bs| && IsLength(len)
    ensures Conserved(bs, PairStep(bs, i, j, cr, len), n)
  {
    var dist := len(Sub(bs[i].pos, bs[j].pos));
    var res := ResolvePair(bs[i], bs[j], cr, dist);
    var r := PairStep(bs, i, j, cr, len);
    assert r == bs[i := res.0][j := res.1];
    PairConservesVelocitySum(bs[i], bs[j], cr, dist);
    PairConservesPositionSum(bs[i], bs[j], cr, dist);
    assert Velocities(r, n) == Velocities(bs, n)[i := res.0.vel][j := res.1.vel];
    assert Positions(r, n) == Positions(bs, n)[i := res.0.pos][j := res.1.pos];
    TotalPairUpdate(Velocities(bs, n), i, j, res.0.vel, res.1.vel);
    TotalPairUpdate(Positions(bs, n), i, j, res.0.pos, res.1.pos);
    assert r[n..] == bs[n..];
  }

  /** A whole row keeps everything `Conserved` names. */
  lemma {:induction false} RowConserves(bs: seq<Ball>, i: nat, j: nat, n: nat, cr: real, len: Vec3 -> real)
    requires i < j <= n <= |bs| && IsLength(len)
    ensures Conserved(bs, Row(bs, i, j, n, cr, len), n)
    decreases n - j
  {
    if j < n {
      var next := PairStep(bs, i, j, cr, len);
      PairStepConserves(bs, i, j, n, cr, len);
      RowConserves(next, i, j + 1, n, cr, len);
      ConservedTransitive(bs, next, Row(next, i, j + 1, n, cr, len), n);
    }
  }

  /** The rows from `i` on keep everything `Conserved` names. */
  lemma {:induction false} RowsConserve(bs: seq<Ball>, i: nat, n: nat, cr: real, len: Vec3 -> real)
    requires i <= n <= |bs| && IsLength(len)
    ensures Conserved(bs, Rows(bs, i, n, cr, len), n)
    decreases n - i
  {
    if i < n {
      var row := Row(bs, i, i + 1, n, cr, len);
      RowConserves(bs, i, i + 1, n, cr, len);
      RowsConserve(row, i + 1, n, cr, len);
      ConservedTransitive(bs, row, Rows(row, i + 1, n, cr, len), n);
    }
  }

  /** When no two spheres are in contact the row leaves the scene as it is. */
  lemma {:induction false} RowWithoutContacts(bs: seq<Ball>, i: nat, j: nat, n: nat, cr: real, len: Vec3 -> real)
    requires i < j <= n <= |bs| && IsLength(len) && NoContacts(bs, n, len)
    ensures Row(bs, i, j, n, cr, len) == bs
    decreases n - j
  {
    if j < n {
      assert PairStep(bs, i, j, cr, len) == bs;
      RowWithoutContacts(bs, i, j + 1, n, cr, len);
    }
  }

  /** When no two of the first `n` spheres are in contact the whole pass changes nothing. */
  lemma {:induction false} PassWithoutContacts(bs: seq<Ball>, i: nat, n: nat, cr: real, len: Vec3 -> real)
    requires i <= n <= |bs| && IsLength(len) && NoContacts(bs, n, len)
    ensures Rows(bs, i, n, cr, len) == bs
    decreases n - i
  {
    if i < n {
      RowWithoutContacts(bs, i, i + 1, n, cr, len);
      PassWithoutContacts(bs, i + 1, n, cr, len);
    }
  }

  /**
   `ColisoesEntreBolas`: the double loop over the first `n` spheres of an
   array holding `bs`, every pair i < j resolved once in index order. The
   result is the reference pass `Rows`, and it keeps the sphere count, every
   radius and colour, the spheres from index `n` on, and the sums of the
   velocities and of the centres of the first `n` spheres.
   */
  method PairwisePass(bs: seq<Ball>, n: nat, cr: real, len: Vec3 -> real) returns (r: seq<Ball>)
    requires n <= |bs| && IsLength(len)
    ensures r == Rows(bs, 0, n, cr, len)
    ensures Conserved(bs, r, n)
  {
    var a := new Ball[|bs|](k requires 0 <= k < |bs| => bs[k]);
    assert a[..] == bs;
    var i := 0;
    while i < n
      invariant 0 <= i <= n && a.Length == |bs|
      invariant Rows(a[..], i, n, cr, len) == Rows(bs, 0, n, cr, len)
    {
      var j := i + 1;
      while j < n
        invariant i < j <= n
        invariant Rows(Row(a[..], i, j, n, cr, len), i + 1, n, cr, len) == Rows(bs, 0, n, cr, len)
      {
        ghost var before := a[..];
        var res := ResolvePair(a[i], a[j], cr, len(Sub(a[i].pos, a[j].pos)));
        a[i] := res.0;
        a[j] := res.1;
        assert a[..] == PairStep(before, i, j, cr, len);
        j := j + 1;
      }
      i := i + 1;
    }
    r := a[..];
    RowsConserve(bs, 0, n, cr, len);
  }
}
