/** Decoded pixel arrays and the three things the handler does with them:
    choose a 2-D slice for the thumbnail, scale its samples into 0..255,
    and serialise a stored frame as unsigned 16-bit little-endian samples.
    An array is its element type, its shape and its samples in row-major
    order. */
module Pixels {
  import opened Wrappers
  import opened Text

  /** The integer element types a decoded image may have. */
  datatype DType = U8 | U16 | U32 | I8 | I16 | I32 {

    predicate Signed() {
      I8? || I16? || I32?
    }

    /** The number of distinct values of the type. */
    function Modulus(): (m: nat)
      ensures m >= 256
    {
      match this
      case U8 | I8 => 0x100
      case U16 | I16 => 0x1_0000
      case U32 | I32 => 0x1_0000_0000
    }

    /** The smallest value of the type. */
    function Low(): int {
      if Signed() then -(Modulus() / 2) else 0
    }

    predicate Holds(x: int) {
      Low() <= x < Low() + Modulus()
    }

    /** Two's-complement wrap-around of `x` into the type. */
    function Wrap(x: int): (r: int)
      ensures Holds(r)
      ensures Holds(x) ==> r == x
    {
      Low() + (x - Low()) % Modulus()
    }
  }

  /** The number of samples of an array of the given shape. */
  function Size(shape: seq<nat>): nat {
    if shape == [] then 1 else Size(shape[..|shape| - 1]) * shape[|shape| - 1]
  }

  datatype NdArray = NdArray(dtype: DType, shape: seq<nat>, data: seq<int>)

  predicate WellFormed(a: NdArray) {
    && |a.data| == Size(a.shape)
    && forall k :: 0 <= k < |a.data| ==> a.dtype.Holds(a.data[k])
  }

  type Array = a: NdArray | WellFormed(a) witness NdArray(U8, [], [0])

  // ---------------------------------------------------------------
  // indexing: the reference meaning of a sample position
  // ---------------------------------------------------------------

  predicate InBounds(shape: seq<nat>, index: seq<nat>) {
    |index| == |shape| && forall d :: 0 <= d < |shape| ==> index[d] < shape[d]
  }

  /** Row-major position of `index` among the samples: the last axis
      varies fastest. */
  function Offset(shape: seq<nat>, index: seq<nat>): nat
    requires |index| == |shape|
  {
    if shape == [] then 0
    else Offset(shape[..|shape| - 1], index[..|index| - 1]) * shape[|shape| - 1] + index[|index| - 1]
  }

  lemma MulMonotone(a: nat, b: nat, c: nat)
    requires a <= b
    ensures a * c <= b * c
  {
  }

  /** `n * d + k` stays below `m * d` when `n < m` and `k < d`. */
  lemma RowBound(n: nat, m: nat, d: nat, k: nat)
    requires n < m && k < d
    ensures n * d + k < m * d
  {
    MulMonotone(n + 1, m, d);
  }

  lemma {:induction false} OffsetInBounds(shape: seq<nat>, index: seq<nat>)
    requires InBounds(shape, index)
    ensures Offset(shape, index) < Size(shape)
  {
    if shape != [] {
      var n := |shape| - 1;
      assert InBounds(shape[..n], index[..n]);
      OffsetInBounds(shape[..n], index[..n]);
      RowBound(Offset(shape[..n], index[..n]), Size(shape[..n]), shape[n], index[n]);
    }
  }

  /** The sample at row-major position `p`. */
  function Sample(a: Array, p: nat): (x: int)
    requires p < |a.data|
    ensures a.dtype.Holds(x)
  {
    a.data[p]
  }

  /** The sample at `index`. */
  function At(a: Array, index: seq<nat>): (x: int)
    requires InBounds(a.shape, index)
    ensures x in a.data && a.dtype.Holds(x)
  {
    OffsetInBounds(a.shape, index);
    a.data[Offset(a.shape, index)]
  }

  // ---------------------------------------------------------------
  // slices
  // ---------------------------------------------------------------

  /** `a[:, :, k]` of an array of rank 3. */
  function Slice3(a: Array, k: nat): (r: Array)
    requires |a.shape| == 3 && k < a.shape[2]
    ensures r.dtype == a.dtype && r.shape == a.shape[..2]
  {
    var plane, d := a.shape[..2], a.shape[2];
    var m := Size(plane);
    assert Size(a.shape) == m * d by { assert a.shape[..2] == plane; }
    var data := seq(m, n requires 0 <= n < m =>
      RowBound(n, m, d, k);
      Sample(a, n * d + k));
    NdArray(a.dtype, plane, data)
  }

  /** Where sample `n` of plane `a[s, :, :, 0]` sits in `a`. */
  function Slice4Position(a: Array, s: nat, n: nat): (p: nat)
    requires |a.shape| == 4 && s < a.shape[0] && a.shape[3] > 0 && n < Size(a.shape[1..3])
    ensures p < |a.data|
  {
    var m, t := Size(a.shape[1..3]), a.shape[3];
    SizeOf4(a.shape);
    Slice4Bound(s, a.shape[0], m, n, t);
    (s * m + n) * t
  }

  /** `a[s, :, :, 0]` of an array of rank 4. */
  function Slice4(a: Array, s: nat): (r: Array)
    requires |a.shape| == 4 && s < a.shape[0] && a.shape[3] > 0
    ensures r.dtype == a.dtype && r.shape == a.shape[1..3]
  {
    var plane := a.shape[1..3];
    NdArray(a.dtype, plane, seq(Size(plane), n requires 0 <= n < Size(plane) => Sample(a, Slice4Position(a, s, n))))
  }

  lemma Slice4Bound(s: nat, p: nat, m: nat, n: nat, t: nat)
    requires s < p && n < m && t > 0
    ensures (s * m + n) * t < p * m * t
  {
    RowBound(s, p, m, n);
    RowBound(s * m + n, p * m, t, 0);
  }

  lemma SizeOf2(shape: seq<nat>)
    requires |shape| == 2
    ensures Size(shape) == shape[0] * shape[1]
  {
    assert shape[..1][..0] == [];
    assert Size(shape[..1]) == shape[0];
  }

  lemma SizeOf4(shape: seq<nat>)
    requires |shape| == 4
    ensures Size(shape) == shape[0] * Size(shape[1..3]) * shape[3]
  {
    var q, w := shape[1], shape[2];
    SizeOf2(shape[..3][..2]);
    SizeOf2(shape[1..3]);
    assert Size(shape[..3]) == shape[0] * q * w;
    assert shape[0] * q * w == shape[0] * (q * w);
  }

  lemma Slice3At(a: Array, k: nat, i: nat, j: nat)
    requires |a.shape| == 3 && k < a.shape[2] && i < a.shape[0] && j < a.shape[1]
    ensures At(Slice3(a, k), [i, j]) == At(a, [i, j, k])
  {
    assert a.shape[..2] == Slice3(a, k).shape;
    assert [i, j, k][..2] == [i, j];
    OffsetInBounds(a.shape[..2], [i, j]);
  }

  lemma OffsetOf1(shape: seq<nat>, index: seq<nat>)
    requires |shape| == 1 && |index| == 1
    ensures Offset(shape, index) == index[0]
  {
    assert shape[..0] == [];
  }

  lemma OffsetOf2(shape: seq<nat>, index: seq<nat>)
    requires |shape| == 2 && |index| == 2
    ensures Offset(shape, index) == index[0] * shape[1] + index[1]
  {
    OffsetOf1(shape[..1], index[..1]);
  }

  lemma OffsetOf3(shape: seq<nat>, index: seq<nat>)
    requires |shape| == 3 && |index| == 3
    ensures Offset(shape, index) == (index[0] * shape[1] + index[1]) * shape[2] + index[2]
  {
    OffsetOf2(shape[..2], index[..2]);
  }

  lemma Slice4At(a: Array, s: nat, i: nat, j: nat)
    requires |a.shape| == 4 && s < a.shape[0] && a.shape[3] > 0
    requires i < a.shape[1] && j < a.shape[2]
    ensures At(Slice4(a, s), [i, j]) == At(a, [s, i, j, 0])
  {
    var q, w, t := a.shape[1], a.shape[2], a.shape[3];
    var plane := a.shape[1..3];
    OffsetOf2(plane, [i, j]);
    SizeOf2(plane);
    var n := i * w + j;
    RowBound(i, q, w, j);
    var inner := Offset(a.shape[..3], [s, i, j]);
    assert Offset(a.shape, [s, i, j, 0]) == inner * t by {
      assert [s, i, j, 0][..3] == [s, i, j];
    }
    assert inner == s * (q * w) + n by {
      OffsetOf3(a.shape[..3], [s, i, j]);
      Regroup(s, q, i, w, j);
    }
    assert At(Slice4(a, s), [i, j]) == Slice4(a, s).data[n];
    assert Slice4(a, s).data[n] == a.data[Slice4Position(a, s, n)];
  }

  lemma Regroup(s: int, q: int, i: int, w: int, j: int)
    ensures (s * q + i) * w + j == s * (q * w) + (i * w + j)
  {
  }

  /** `np.ones((64, 64), dtype=np.uint8) * 128`: the gray stand-in image. */
  function Gray64(): (r: Array)
    ensures r.dtype == U8 && r.shape == [64, 64]
    ensures forall k :: 0 <= k < |r.data| ==> r.data[k] == 128
  {
    assert Size([64, 64]) == 4096;
    NdArray(U8, [64, 64], seq(4096, _ => 128))
  }

  /** The 2-D image the thumbnail is drawn from. Ranks up to 2 and colour
      images (rank 3 with three channels) are used as they are; any other
      rank-3 array gives its middle plane along the last axis; a rank-4
      array gives channel 0 of its middle frame; higher ranks give the gray
      stand-in. None where indexing raises because an axis is empty. */
  function SelectSlice(a: Array): (r: Option<Array>)
    ensures |a.shape| <= 2 ==> r == Some(a)
    ensures |a.shape| == 3 && a.shape[2] == 3 ==> r == Some(a)
    ensures r.None? <==>
      || (|a.shape| == 3 && a.shape[2] == 0)
      || (|a.shape| == 4 && (a.shape[0] == 0 || a.shape[3] == 0))
    ensures |a.shape| > 4 ==> r == Some(Gray64())
  {
    if |a.shape| <= 2 then Some(a)
    else if |a.shape| == 3 then
      if a.shape[2] == 3 then Some(a)
      else if a.shape[2] == 0 then None
      else Some(Slice3(a, a.shape[2] / 2))
    else if |a.shape| == 4 then
      if a.shape[0] == 0 || a.shape[3] == 0 then None
      else Some(Slice4(a, a.shape[0] / 2))
    else Some(Gray64())
  }

  // ---------------------------------------------------------------
  // scaling samples into 0..255
  // ---------------------------------------------------------------

  function Min(s: seq<int>): (m: int)
    requires |s| > 0
    ensures m in s && forall k :: 0 <= k < |s| ==> m <= s[k]
  {
    if |s| == 1 then s[0]
    else
      var rest := Min(s[1..]);
      assert forall k :: 1 <= k < |s| ==> s[k] == s[1..][k - 1];
      if s[0] <= rest then s[0] else rest
  }

  function Max(s: seq<int>): (m: int)
    requires |s| > 0
    ensures m in s && forall k :: 0 <= k < |s| ==> s[k] <= m
  {
    if |s| == 1 then s[0]
    else
      var rest := Max(s[1..]);
      assert forall k :: 1 <= k < |s| ==> s[k] == s[1..][k - 1];
      if s[0] >= rest then s[0] else rest
  }

  /** One sample mapped linearly from `lo..hi` onto `0..255`, rounded down;
      0 when the range is a single value. */
  function Scale(x: int, lo: int, hi: int): (r: int)
    requires lo <= x <= hi
    ensures 0 <= r <= 255
  {
    if hi == lo then 0
    else
      MulMonotone(x - lo, hi - lo, 255);
      (x - lo) * 255 / (hi - lo)
  }

  /** The thumbnail's normalisation computed on exact integers: every
      sample scaled from the array's own range onto 0..255 as an unsigned
      8-bit array of the same shape. None when the array has no samples,
      because its minimum does not exist. */
  function Normalise(a: Array): (r: Option<Array>)
    ensures r.Some? <==> |a.data| > 0
    ensures r.Some? ==> r.value.dtype == U8 && r.value.shape == a.shape
  {
    if |a.data| == 0 then None
    else
      var lo, hi := Min(a.data), Max(a.data);
      Some(NdArray(U8, a.shape, seq(|a.data|, k requires 0 <= k < |a.data| => Scale(a.data[k], lo, hi))))
  }

  lemma ScaleEnds(lo: int, hi: int)
    requires lo < hi
    ensures Scale(lo, lo, hi) == 0 && Scale(hi, lo, hi) == 255
  {
    MulDivCancel(255, hi - lo);
  }

  lemma MulDivCancel(q: nat, d: nat)
    requires d > 0
    ensures q * d / d == q
  {
    var r := q * d / d;
    if r > q {
      assert false;
    }
    if r < q {
      MulAtLeast(d, r + 1, q);
      assert false;
    }
  }

  lemma ScaleMonotone(x: int, y: int, lo: int, hi: int)
    requires lo <= x <= y <= hi
    ensures Scale(x, lo, hi) <= Scale(y, lo, hi)
  {
    if lo < hi {
      MulMonotone(x - lo, y - lo, 255);
      DivMonotone((x - lo) * 255, (y - lo) * 255, hi - lo);
    }
  }

  lemma DivMonotone(a: nat, b: nat, d: nat)
    requires a <= b && d > 0
    ensures a / d <= b / d
  {
    var qa, qb := a / d, b / d;
    if qa > qb {
      MulAtLeast(d, qb + 1, qa);
      assert false;
    }
  }

  lemma MulAtLeast(d: nat, x: nat, y: nat)
    requires x <= y
    ensures d * x <= d * y
  {
    assert d * y == d * x + d * (y - x);
  }

  /** What the normalisation promises: the samples keep their order, and
      the smallest becomes 0 and the largest 255, unless all samples are
      equal, in which case every one becomes 0. */
  lemma {:induction false} NormaliseSpansFullRange(a: Array)
    requires |a.data| > 0
    ensures var r := Normalise(a).value;
      && (forall i, j :: 0 <= i < |a.data| && 0 <= j < |a.data| && a.data[i] <= a.data[j] ==> r.data[i] <= r.data[j])
      && (Min(a.data) < Max(a.data) ==> 0 in r.data && 255 in r.data)
      && (Min(a.data) == Max(a.data) ==> forall k :: 0 <= k < |r.data| ==> r.data[k] == 0)
  {
    var r := Normalise(a).value;
    var lo, hi := Min(a.data), Max(a.data);
    forall i, j | 0 <= i < |a.data| && 0 <= j < |a.data| && a.data[i] <= a.data[j]
      ensures r.data[i] <= r.data[j]
    {
      ScaleMonotone(a.data[i], a.data[j], lo, hi);
    }
    if lo < hi {
      ScaleEnds(lo, hi);
      var i :| 0 <= i < |a.data| && a.data[i] == lo;
      var j :| 0 <= j < |a.data| && a.data[j] == hi;
      assert r.data[i] == 0 && r.data[j] == 255;
    }
  }

  // ---------------------------------------------------------------
  // the normalisation as written, in the array's own element type
  // ---------------------------------------------------------------

  /** The element type of `array * 255`: 255 does not fit in a signed byte,
      so a signed-byte array is promoted to 16 bits; every other type keeps
      its own. */
  function ProductType(t: DType): DType {
    if t == I8 then I16 else t
  }

  /** Division rounded toward zero, as a float-to-integer cast does. */
  function TruncDiv(n: int, d: int): int
    requires d != 0
  {
    var q := (if n < 0 then -n else n) / (if d < 0 then -d else d);
    if (n < 0) != (d < 0) then -q else q
  }

  /** One sample as the source computes it: the difference from the
      minimum and its product with 255 wrap in the element type, the span
      `max - min` wraps in the element type, the quotient is truncated and
      the cast to an unsigned byte keeps the low eight bits. */
  function ScaleAsWritten(t: DType, x: int, lo: int, hi: int): (r: int)
    requires t.Holds(lo) && t.Holds(hi) && lo < hi
    ensures 0 <= r < 256
  {
    var span := t.Wrap(hi - lo);
    var product := ProductType(t).Wrap(t.Wrap(x - lo) * 255);
    if span == 0 then 0 else TruncDiv(product, span) % 256
  }

  function NormaliseAsWritten(a: Array): (r: Option<Array>)
    ensures r.Some? <==> |a.data| > 0
    ensures r.Some? ==> r.value.dtype == U8 && r.value.shape == a.shape
  {
    if |a.data| == 0 then None
    else
      var lo, hi := Min(a.data), Max(a.data);
      var data := seq(|a.data|, k requires 0 <= k < |a.data| =>
        if lo == hi then 0 else ScaleAsWritten(a.dtype, a.data[k], lo, hi));
      assert forall k :: 0 <= k < |data| ==> U8.Holds(data[k]);
      Some(NdArray(U8, a.shape, data))
  }

  /** The repository's own test image is an unsigned 16-bit array of zeros
      with one sample at 65535. As written, that bright sample comes out
      black (65535 * 255 wraps to 65281, and 65281 / 65535 truncates to 0);
      the exact normalisation makes it 255. */
  lemma WrapAroundLosesBrightSample()
    ensures Size([1, 2]) == 2
    ensures var a: Array := NdArray(U16, [1, 2], [0, 65535]);
      && NormaliseAsWritten(a) == Some(NdArray(U8, [1, 2], [0, 0]))
      && Normalise(a) == Some(NdArray(U8, [1, 2], [0, 255]))
  {
    SizeOf2([1, 2]);
    var a: Array := NdArray(U16, [1, 2], [0, 65535]);
    assert Min(a.data) == 0 && Max(a.data) == 65535;
    WrittenScaleOfTestImage();
    var written := NormaliseAsWritten(a).value.data;
    assert |written| == 2 && written[0] == 0 && written[1] == 0;
    PairOf(written, 0, 0);
    var exact := Normalise(a).value.data;
    assert |exact| == 2 && exact[0] == 0 && exact[1] == 255;
    PairOf(exact, 0, 255);
  }

  /** The same loss hits an unsigned 8-bit image, the usual type of colour
      images: 255 * 255 wraps to 1, and 1 / 255 truncates to 0. */
  lemma ByteImageLosesBrightSample()
    ensures Size([1, 2]) == 2
    ensures var a: Array := NdArray(U8, [1, 2], [0, 255]);
      && NormaliseAsWritten(a) == Some(NdArray(U8, [1, 2], [0, 0]))
      && Normalise(a) == Some(NdArray(U8, [1, 2], [0, 255]))
  {
    SizeOf2([1, 2]);
    var a: Array := NdArray(U8, [1, 2], [0, 255]);
    assert Min(a.data) == 0 && Max(a.data) == 255;
    WrittenScaleOfByteImage();
    var written := NormaliseAsWritten(a).value.data;
    assert |written| == 2 && written[0] == 0 && written[1] == 0;
    PairOf(written, 0, 0);
    var exact := Normalise(a).value.data;
    assert |exact| == 2 && exact[0] == 0 && exact[1] == 255;
    PairOf(exact, 0, 255);
  }

  /** Both samples of the 8-bit image scale to 0 as written. */
  lemma WrittenScaleOfByteImage()
    ensures ScaleAsWritten(U8, 255, 0, 255) == 0
    ensures ScaleAsWritten(U8, 0, 0, 255) == 0
  {
    assert ProductType(U8) == U8;
    assert U8.Wrap(255) == 255 && U8.Wrap(0) == 0;
    assert U8.Wrap(255 * 255) == 1 && U8.Wrap(0 * 255) == 0;
    assert TruncDiv(1, 255) == 0 && TruncDiv(0, 255) == 0;
  }

  lemma PairOf(d: seq<int>, x: int, y: int)
    requires |d| == 2 && d[0] == x && d[1] == y
    ensures d == [x, y]
  {
  }

  /** Both samples of the test image scale to 0 as written. */
  lemma WrittenScaleOfTestImage()
    ensures ScaleAsWritten(U16, 65535, 0, 65535) == 0
    ensures ScaleAsWritten(U16, 0, 0, 65535) == 0
  {
    assert ProductType(U16) == U16;
    assert U16.Wrap(65535) == 65535 && U16.Wrap(0) == 0;
    WrapOfBrightProduct();
    assert TruncDiv(65281, 65535) == 0 && TruncDiv(0, 65535) == 0;
  }

  lemma WrapOfBrightProduct()
    ensures U16.Wrap(65535 * 255) == 65281 && U16.Wrap(0 * 255) == 0
  {
    assert 65535 * 255 == 16711425 == 254 * 0x1_0000 + 65281;
  }

  lemma ScaleAgreesWithoutWrap(t: DType, x: int, lo: int, hi: int)
    requires !t.Signed() && t.Holds(lo) && t.Holds(hi) && lo <= x <= hi && lo < hi
    requires (hi - lo) * 255 < t.Modulus()
    ensures ScaleAsWritten(t, x, lo, hi) == Scale(x, lo, hi)
  {
    var v, d := x - lo, hi - lo;
    var p := v * 255;
    MulMonotone(v, d, 255);
    UnsignedWrapsNothing(t, v, d, p);
    assert ScaleAsWritten(t, x, lo, hi) == TruncDiv(p, d) % 256;
    assert TruncDiv(p, d) == p / d == Scale(x, lo, hi);
    ByteModIdentity(Scale(x, lo, hi));
  }

  lemma ByteModIdentity(q: int)
    requires 0 <= q <= 255
    ensures q % 256 == q
  {
  }

  /** In an unsigned type the difference, the span and the product all fit
      when the span times 255 does. */
  lemma UnsignedWrapsNothing(t: DType, v: int, d: int, p: int)
    requires !t.Signed() && 0 <= v <= d && 0 <= p <= d * 255 && d * 255 < t.Modulus()
    ensures t.Wrap(v) == v && t.Wrap(d) == d && ProductType(t).Wrap(p) == p
  {
    assert ProductType(t) == t;
  }

  /** For an unsigned array whose range times 255 still fits its element
      type nothing wraps, and the source's normalisation is the exact one. */
  lemma AsWrittenAgreesWithoutWrap(a: Array)
    requires |a.data| > 0 && !a.dtype.Signed()
    requires (Max(a.data) - Min(a.data)) * 255 < a.dtype.Modulus()
    ensures NormaliseAsWritten(a) == Normalise(a)
  {
    var lo, hi := Min(a.data), Max(a.data);
    var written, exact := NormaliseAsWritten(a).value.data, Normalise(a).value.data;
    forall k | 0 <= k < |a.data| ensures written[k] == exact[k] {
      if lo < hi {
        ScaleAgreesWithoutWrap(a.dtype, a.data[k], lo, hi);
      }
    }
    assert written == exact;
  }

  // ---------------------------------------------------------------
  // the thumbnail image
  // ---------------------------------------------------------------

  /** The normalised image the thumbnail is encoded from (before the image
      library shrinks it to fit 128 x 128). Every failure on the way (an
      empty axis, no samples, a rank-0 result the image library cannot
      take) gives the gray stand-in itself. */
  function ThumbnailImage(a: Array): (r: Array)
    ensures r.dtype == U8 && 1 <= |r.shape|
    ensures forall k :: 0 <= k < |r.data| ==> 0 <= r.data[k] <= 255
    ensures SelectSlice(a).None? ==> r == Gray64()
    ensures SelectSlice(a).Some? && |SelectSlice(a).value.data| == 0 ==> r == Gray64()
    ensures SelectSlice(a).Some? && |SelectSlice(a).value.shape| == 0 ==> r == Gray64()
  {
    match SelectSlice(a)
    case None => Gray64()
    case Some(m) =>
      match Normalise(m)
      case None => Gray64()
      case Some(n) => if |n.shape| == 0 then Gray64() else n
  }

  /** The thumbnail's source image with the normalisation as the source
      writes it; the store keeps `ThumbnailImage`, its corrected form. */
  function ThumbnailAsWritten(a: Array): (r: Array)
    ensures r.dtype == U8 && 1 <= |r.shape|
    ensures SelectSlice(a).None? ==> r == Gray64()
    ensures SelectSlice(a).Some? && |SelectSlice(a).value.data| > 0 && |SelectSlice(a).value.shape| > 0 ==>
      r.shape == SelectSlice(a).value.shape && |r.data| == |SelectSlice(a).value.data|
  {
    match SelectSlice(a)
    case None => Gray64()
    case Some(m) =>
      match NormaliseAsWritten(m)
      case None => Gray64()
      case Some(n) => if |n.shape| == 0 then Gray64() else n
  }

  /** When the chosen plane is unsigned and its range times 255 fits its
      element type, the thumbnail as written is the stored one. */
  lemma ThumbnailAgreesWithoutWrap(a: Array)
    requires SelectSlice(a).Some?
    requires var m := SelectSlice(a).value;
      |m.data| > 0 && !m.dtype.Signed() && (Max(m.data) - Min(m.data)) * 255 < m.dtype.Modulus()
    ensures ThumbnailAsWritten(a) == ThumbnailImage(a)
  {
    AsWrittenAgreesWithoutWrap(SelectSlice(a).value);
  }

  /** On the repository's test image the thumbnail as written is black
      where the stored one has its bright sample. */
  lemma TestImageThumbnailsDiffer()
    ensures Size([1, 2]) == 2
    ensures var a: Array := NdArray(U16, [1, 2], [0, 65535]);
      && ThumbnailAsWritten(a).data == [0, 0]
      && ThumbnailImage(a).data == [0, 255]
  {
    SizeOf2([1, 2]);
    var a: Array := NdArray(U16, [1, 2], [0, 65535]);
    WrapAroundLosesBrightSample();
    assert SelectSlice(a) == Some(a);
  }

  /** Sample `index` of the normalised image is sample `index` of the
      source scaled by the source's range. */
  lemma NormaliseAt(a: Array, index: seq<nat>)
    requires InBounds(a.shape, index)
    ensures |a.data| > 0 && Normalise(a).Some?
    ensures At(Normalise(a).value, index) == Scale(At(a, index), Min(a.data), Max(a.data))
  {
    OffsetInBounds(a.shape, index);
  }

  /** An image whose samples all equal `c` normalises to all zeros. */
  lemma ConstantNormalisesToZero(a: Array, c: int)
    requires |a.data| > 0 && forall k :: 0 <= k < |a.data| ==> a.data[k] == c
    ensures Normalise(a).Some?
    ensures forall k :: 0 <= k < |a.data| ==> Normalise(a).value.data[k] == 0
  {
    assert Min(a.data) == c && Max(a.data) == c;
  }

  /** A 64 x 64 all-black image. */
  predicate IsBlack64(r: Array) {
    r.shape == [64, 64] && forall k :: 0 <= k < |r.data| ==> r.data[k] == 0
  }

  /** The gray stand-in passes through the normalisation like any other
      image, and a constant image normalises to all zeros: arrays of rank
      above 4, and the stand-in used when decoding fails, give a black
      thumbnail, not a gray one. */
  lemma StandInThumbnailIsBlack(a: Array)
    requires |a.shape| > 4 || a == Gray64()
    ensures IsBlack64(ThumbnailImage(a))
  {
    var g := Gray64();
    assert SelectSlice(a) == Some(g);
    assert |g.data| > 0 by { SizeOf2(g.shape); }
    ConstantNormalisesToZero(g, 128);
    var n := Normalise(g).value;
    assert n.shape == [64, 64];
    assert ThumbnailImage(a) == n;
  }

  /** A non-empty 2-D image is the thumbnail's source as it is: sample
      (i, j) of the thumbnail is sample (i, j) scaled by the image's range. */
  lemma ThumbnailOfPlane(a: Array, i: nat, j: nat)
    requires |a.shape| == 2 && i < a.shape[0] && j < a.shape[1]
    ensures |a.data| > 0
    ensures ThumbnailImage(a).shape == a.shape
    ensures At(ThumbnailImage(a), [i, j]) == Scale(At(a, [i, j]), Min(a.data), Max(a.data))
  {
    NormaliseAt(a, [i, j]);
    assert ThumbnailImage(a) == Normalise(a).value;
  }

  /** A colour image (rank 3, three channels) is the thumbnail's source as
      it is, all channels scaled together by the range of the whole array:
      sample (i, j, c) of the thumbnail is sample (i, j, c) scaled by the
      minimum and maximum over every channel. */
  lemma ThumbnailOfColour(a: Array, i: nat, j: nat, c: nat)
    requires |a.shape| == 3 && a.shape[2] == 3
    requires i < a.shape[0] && j < a.shape[1] && c < 3
    ensures |a.data| > 0
    ensures ThumbnailImage(a).shape == a.shape
    ensures At(ThumbnailImage(a), [i, j, c]) == Scale(At(a, [i, j, c]), Min(a.data), Max(a.data))
  {
    NormaliseAt(a, [i, j, c]);
    assert ThumbnailImage(a) == Normalise(a).value;
  }

  /** A stack of planes (rank 3, not three channels, at least one plane)
      gives its middle plane: sample (i, j) of the thumbnail is sample
      (i, j, d / 2) scaled by that plane's range. */
  lemma ThumbnailOfVolume(a: Array, i: nat, j: nat)
    requires |a.shape| == 3 && a.shape[2] != 3 && a.shape[2] > 0
    requires i < a.shape[0] && j < a.shape[1]
    ensures var plane := Slice3(a, a.shape[2] / 2);
      && |plane.data| > 0
      && ThumbnailImage(a).shape == [a.shape[0], a.shape[1]]
      && At(plane, [i, j]) == At(a, [i, j, a.shape[2] / 2])
      && At(ThumbnailImage(a), [i, j]) == Scale(At(plane, [i, j]), Min(plane.data), Max(plane.data))
  {
    var plane := Slice3(a, a.shape[2] / 2);
    assert SelectSlice(a) == Some(plane);
    Slice3At(a, a.shape[2] / 2, i, j);
    NormaliseAt(plane, [i, j]);
    var n := Normalise(plane).value;
    assert |n.shape| == 2;
    assert ThumbnailImage(a) == n;
  }

  /** A rank-4 array gives channel 0 of its middle frame. */
  lemma ThumbnailOfFrames(a: Array, i: nat, j: nat)
    requires |a.shape| == 4 && a.shape[0] > 0 && a.shape[3] > 0
    requires i < a.shape[1] && j < a.shape[2]
    ensures var plane := Slice4(a, a.shape[0] / 2);
      && |plane.data| > 0
      && ThumbnailImage(a).shape == [a.shape[1], a.shape[2]]
      && At(plane, [i, j]) == At(a, [a.shape[0] / 2, i, j, 0])
      && At(ThumbnailImage(a), [i, j]) == Scale(At(plane, [i, j]), Min(plane.data), Max(plane.data))
  {
    var plane := Slice4(a, a.shape[0] / 2);
    assert SelectSlice(a) == Some(plane);
    Slice4At(a, a.shape[0] / 2, i, j);
    NormaliseAt(plane, [i, j]);
    var n := Normalise(plane).value;
    assert |n.shape| == 2;
    assert ThumbnailImage(a) == n;
  }

  // ---------------------------------------------------------------
  // frame bytes
  // ---------------------------------------------------------------

  /** `array.astype(np.uint16).tobytes()`: each sample reduced modulo 2^16,
      then its low byte and its high byte. */
  function Uint16Bytes(a: Array): (b: seq<byte>)
    ensures |b| == 2 * Size(a.shape)
  {
    seq(2 * |a.data|, k requires 0 <= k < 2 * |a.data| =>
      var v := a.data[k / 2] % 0x1_0000;
      if k % 2 == 0 then v % 0x100 else v / 0x100)
  }

  /** Reading little-endian unsigned 16-bit samples back from bytes. */
  function DecodeUint16(b: seq<byte>): (s: seq<int>)
    ensures |s| == |b| / 2
  {
    seq(|b| / 2, k requires 0 <= k < |b| / 2 => b[2 * k] as int + 0x100 * (b[2 * k + 1] as int))
  }

  lemma Halves(k: nat)
    ensures (2 * k) / 2 == k && (2 * k) % 2 == 0
    ensures (2 * k + 1) / 2 == k && (2 * k + 1) % 2 == 1
  {
  }

  /** The frame bytes hold exactly the samples, each as its unsigned
      16-bit value. */
  lemma Uint16BytesRoundTrip(a: Array)
    ensures DecodeUint16(Uint16Bytes(a)) == seq(|a.data|, k requires 0 <= k < |a.data| => a.data[k] % 0x1_0000)
  {
    var b := Uint16Bytes(a);
    var d := DecodeUint16(b);
    assert |d| == |a.data|;
    forall k | 0 <= k < |a.data|
      ensures d[k] == a.data[k] % 0x1_0000
    {
      var v := a.data[k] % 0x1_0000;
      Halves(k);
      assert b[2 * k] == v % 0x100;
      assert b[2 * k + 1] == v / 0x100;
    }
  }
}
