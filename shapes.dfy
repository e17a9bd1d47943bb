/**
 * Shape arithmetic of an N-dimensional blob stored row-major: the element
 * count of a shape, the bounds of a multi-index, and the flat offset of a
 * multi-index together with its inverse.
 */
module Shapes {

  /** Number of elements of a blob of shape `shape` (1 for the empty shape). */
  function Count(shape: seq<nat>): (n: nat)
    ensures n == 0 <==> exists i :: 0 <= i < |shape| && shape[i] == 0
  {
    if |shape| == 0 then 1
    else
      var rest := Count(shape[1..]);
      assert forall i :: 1 <= i < |shape| ==> shape[i] == shape[1..][i - 1];
      assert rest == 0 ==> exists i :: 0 <= i < |shape[1..]| && shape[1..][i] == 0;
      ZeroProduct(shape[0], rest);
      shape[0] * rest
  }

  lemma ZeroProduct(a: nat, b: nat)
    ensures a * b == 0 <==> a == 0 || b == 0
  {
    if a > 0 && b > 0 {
      MulPositive(a, b);
    }
  }

  lemma MulPositive(a: nat, b: nat)
    requires a > 0 && b > 0
    ensures a * b >= b
  {
    var k := a - 1;
    assert a * b == k * b + b;
  }

  /** Counting the concatenation of two shapes multiplies their counts. */
  lemma {:induction false} CountAppend(a: seq<nat>, b: seq<nat>)
    ensures Count(a + b) == Count(a) * Count(b)
  {
    if |a| > 0 {
      assert (a + b)[1..] == a[1..] + b;
      CountAppend(a[1..], b);
      MulAssoc(a[0], Count(a[1..]), Count(b));
    } else {
      assert a + b == b;
    }
  }

  lemma MulAssoc(x: nat, y: nat, z: nat)
    ensures x * (y * z) == (x * y) * z
  {
  }

  /** Whether `idx` is a valid multi-index into a blob of shape `shape`. */
  predicate InBounds(idx: seq<int>, shape: seq<nat>)
  {
    |idx| == |shape| && forall i :: 0 <= i < |idx| ==> 0 <= idx[i] < shape[i]
  }

  /** Row-major (C order) flat offset of the multi-index `idx`. */
  function Offset(idx: seq<int>, shape: seq<nat>): (o: nat)
    requires InBounds(idx, shape)
    ensures o < Count(shape)
    decreases |shape|
  {
    if |shape| == 0 then 0
    else
      assert InBounds(idx[1..], shape[1..]) by {
        assert forall i :: 1 <= i < |idx| ==> idx[i] == idx[1..][i - 1];
      }
      var inner := Offset(idx[1..], shape[1..]);
      RowBound(idx[0], shape[0], inner, Count(shape[1..]));
      idx[0] * Count(shape[1..]) + inner
  }

  /** `q * c + r` stays below `n * c` when `q < n` and `r < c`. */
  lemma RowBound(q: nat, n: nat, r: nat, c: nat)
    requires q < n && r < c
    ensures q * c + r < n * c
  {
    var k := n - q - 1;
    assert n * c == q * c + c + k * c;
  }

  /** The multi-index whose row-major offset is `o`. */
  function Unravel(o: nat, shape: seq<nat>): (idx: seq<int>)
    requires o < Count(shape)
    ensures InBounds(idx, shape)
    decreases |shape|
  {
    if |shape| == 0 then []
    else
      RowSize(o, shape);
      var c := Count(shape[1..]);
      var q, r := o / c, o % c;
      DivBounds(o, shape[0], c);
      var rest := Unravel(r, shape[1..]);
      ConsInBounds(q, rest, shape);
      [q] + rest
  }

  /** Prefixing an index into the row shape with a valid row number gives an index into the whole shape. */
  lemma ConsInBounds(q: int, rest: seq<int>, shape: seq<nat>)
    requires |shape| > 0 && 0 <= q < shape[0] && InBounds(rest, shape[1..])
    ensures InBounds([q] + rest, shape)
  {
    assert forall i :: 1 <= i < |shape| ==> ([q] + rest)[i] == rest[i - 1] && shape[i] == shape[1..][i - 1];
  }

  /** A position below the count of a non-empty shape lies within one of its `shape[0]` rows. */
  lemma RowSize(o: nat, shape: seq<nat>)
    requires |shape| > 0 && o < Count(shape)
    ensures Count(shape[1..]) > 0 && o < shape[0] * Count(shape[1..])
  {
  }

  lemma DivBounds(o: nat, n: nat, c: nat)
    requires c > 0 && o < n * c
    ensures o / c < n && o % c < c
  {
    QuotientBound(o, n, c);
  }

  lemma QuotientBound(o: nat, n: nat, c: nat)
    requires c > 0 && o < n * c
    ensures o / c < n
  {
    var q := o / c;
    if q >= n {
      assert false;
    }
  }

  lemma MulGap(x: nat, y: nat, c: nat)
    requires x < y
    ensures x * c + c <= y * c
  {
    var k := y - x - 1;
    assert y * c == x * c + c + k * c;
  }

  /** Division by `c` undoes `q * c + r` for a remainder `r < c`. */
  lemma DivModUnique(q: nat, r: nat, c: nat)
    requires r < c
    ensures (q * c + r) / c == q
    ensures (q * c + r) % c == r
  {
    var a := q * c + r;
    var q', r' := a / c, a % c;
    assert a == q' * c + r';
    if q' < q {
      MulGap(q', q, c);
      assert false;
    } else if q' > q {
      MulGap(q, q', c);
      assert false;
    }
  }

  /** The first step of Unravel: the leading index is the quotient by the size of a row. */
  lemma UnravelHead(o: nat, shape: seq<nat>)
    requires |shape| > 0 && o < Count(shape)
    ensures Count(shape[1..]) > 0
    ensures Unravel(o, shape) == [o / Count(shape[1..])] + Unravel(o % Count(shape[1..]), shape[1..])
  {
  }

  /** The first step of Offset: the leading index counts whole rows. */
  lemma OffsetHead(idx: seq<int>, shape: seq<nat>)
    requires |shape| > 0 && InBounds(idx, shape)
    ensures InBounds(idx[1..], shape[1..])
    ensures Offset(idx, shape) == idx[0] * Count(shape[1..]) + Offset(idx[1..], shape[1..])
  {
  }

  lemma DivMod(o: nat, c: nat)
    requires c > 0
    ensures (o / c) * c + o % c == o
  {
  }

  /** `Unravel` inverts `Offset` ... */
  lemma {:induction false} UnravelOffset(idx: seq<int>, shape: seq<nat>)
    requires InBounds(idx, shape)
    ensures Unravel(Offset(idx, shape), shape) == idx
    decreases |shape|
  {
    if |shape| > 0 {
      var c := Count(shape[1..]);
      OffsetHead(idx, shape);
      var inner := Offset(idx[1..], shape[1..]);
      DivModUnique(idx[0], inner, c);
      UnravelHead(Offset(idx, shape), shape);
      UnravelOffset(idx[1..], shape[1..]);
      assert idx == [idx[0]] + idx[1..];
    }
  }

  /** ... and `Offset` inverts `Unravel`: the two are a bijection onto `[0, Count(shape))`. */
  lemma {:induction false} OffsetUnravel(o: nat, shape: seq<nat>)
    requires o < Count(shape)
    ensures Offset(Unravel(o, shape), shape) == o
    decreases |shape|
  {
    if |shape| > 0 {
      var c := Count(shape[1..]);
      UnravelHead(o, shape);
      var idx := Unravel(o, shape);
      var q, r := o / c, o % c;
      OffsetUnravel(r, shape[1..]);
      assert idx[0] == q && idx[1..] == Unravel(r, shape[1..]);
      OffsetHead(idx, shape);
      DivMod(o, c);
    }
  }
}
