/** The mesh holder of src/classes/Shape.cpp, reduced to what is not OpenGL:
    copying a loaded mesh's buffers in, and measuring the axis-aligned
    bounding box of its flat `x, y, z, x, y, z, ...` position buffer. */
module Shapes {
  import opened Vectors

  /** `INT_MAX * 1.0f`: 2^31 - 1 has no single-precision form and rounds up
      to 2^31. */
  const IntMaxAsFloat: real := 2147483648.0
  /** `INT_MIN * 1.0f`: exactly -2^31. */
  const IntMinAsFloat: real := -2147483648.0

  /** An `unsigned int` element index. */
  type Index = i: int | 0 <= i < 0x1_0000_0000

  /** The buffers of one loaded mesh. */
  datatype Mesh = Mesh(positions: seq<real>, normals: seq<real>, texcoords: seq<real>, indices: seq<Index>)

  /** Coordinate `axis` (0 = x, 1 = y, 2 = z) of vertex `v`. */
  function Coord(buf: seq<real>, v: nat, axis: nat): real
    requires axis < 3 && v < |buf| / 3
  {
    buf[3 * v + axis]
  }

  /** What the scan holds in `minX` (`minY`, `minZ`) after `n` vertices. */
  function AxisMin(buf: seq<real>, axis: nat, n: nat): real
    requires axis < 3 && n <= |buf| / 3
  {
    if n == 0 then IntMaxAsFloat
    else
      var m := AxisMin(buf, axis, n - 1);
      if Coord(buf, n - 1, axis) < m then Coord(buf, n - 1, axis) else m
  }

  /** What the scan holds in `maxX` (`maxY`, `maxZ`) after `n` vertices. */
  function AxisMax(buf: seq<real>, axis: nat, n: nat): real
    requires axis < 3 && n <= |buf| / 3
  {
    if n == 0 then IntMinAsFloat
    else
      var m := AxisMax(buf, axis, n - 1);
      if Coord(buf, n - 1, axis) > m then Coord(buf, n - 1, axis) else m
  }

  /** The `min` corner `measure` computes: only whole vertices count. */
  function BoxMin(buf: seq<real>): Vec3 {
    var n := |buf| / 3;
    Vec3(AxisMin(buf, 0, n), AxisMin(buf, 1, n), AxisMin(buf, 2, n))
  }

  /** The `max` corner `measure` computes. */
  function BoxMax(buf: seq<real>): Vec3 {
    var n := |buf| / 3;
    Vec3(AxisMax(buf, 0, n), AxisMax(buf, 1, n), AxisMax(buf, 2, n))
  }

  /** The running minimum is the least of the sentinel and the coordinates
      seen: below every one of them, and equal to one of them. */
  lemma {:induction false} AxisMinIsLeast(buf: seq<real>, axis: nat, n: nat)
    requires axis < 3 && n <= |buf| / 3
    ensures AxisMin(buf, axis, n) <= IntMaxAsFloat
    ensures forall v :: 0 <= v < n ==> AxisMin(buf, axis, n) <= Coord(buf, v, axis)
    ensures AxisMin(buf, axis, n) == IntMaxAsFloat
         || exists v :: 0 <= v < n && AxisMin(buf, axis, n) == Coord(buf, v, axis)
    decreases n
  {
    if n > 0 {
      AxisMinIsLeast(buf, axis, n - 1);
    }
  }

  /** The running maximum is the greatest of the sentinel and the
      coordinates seen. */
  lemma {:induction false} AxisMaxIsGreatest(buf: seq<real>, axis: nat, n: nat)
    requires axis < 3 && n <= |buf| / 3
    ensures AxisMax(buf, axis, n) >= IntMinAsFloat
    ensures forall v :: 0 <= v < n ==> Coord(buf, v, axis) <= AxisMax(buf, axis, n)
    ensures AxisMax(buf, axis, n) == IntMinAsFloat
         || exists v :: 0 <= v < n && AxisMax(buf, axis, n) == Coord(buf, v, axis)
    decreases n
  {
    if n > 0 {
      AxisMaxIsGreatest(buf, axis, n - 1);
    }
  }

  /** Every whole vertex of the buffer lies inside the measured box. */
  lemma BoxContainsEveryVertex(buf: seq<real>, v: nat)
    requires v < |buf| / 3
    ensures BoxMin(buf).x <= buf[3 * v] <= BoxMax(buf).x
    ensures BoxMin(buf).y <= buf[3 * v + 1] <= BoxMax(buf).y
    ensures BoxMin(buf).z <= buf[3 * v + 2] <= BoxMax(buf).z
  {
    var n := |buf| / 3;
    AxisMinIsLeast(buf, 0, n);
    AxisMinIsLeast(buf, 1, n);
    AxisMinIsLeast(buf, 2, n);
    AxisMaxIsGreatest(buf, 0, n);
    AxisMaxIsGreatest(buf, 1, n);
    AxisMaxIsGreatest(buf, 2, n);
    assert Coord(buf, v, 0) == buf[3 * v];
    assert Coord(buf, v, 1) == buf[3 * v + 1];
    assert Coord(buf, v, 2) == buf[3 * v + 2];
  }

  lemma {:induction false} AxisBoundsAgreeOnPrefix(a: seq<real>, b: seq<real>, axis: nat, n: nat)
    requires axis < 3 && n <= |a| / 3 && n <= |b| / 3
    requires a[..3 * n] == b[..3 * n]
    ensures AxisMin(a, axis, n) == AxisMin(b, axis, n)
    ensures AxisMax(a, axis, n) == AxisMax(b, axis, n)
    decreases n
  {
    if n > 0 {
      assert a[..3 * (n - 1)] == a[..3 * n][..3 * (n - 1)];
      assert b[..3 * (n - 1)] == b[..3 * n][..3 * (n - 1)];
      AxisBoundsAgreeOnPrefix(a, b, axis, n - 1);
      assert a[3 * (n - 1) + axis] == a[..3 * n][3 * (n - 1) + axis];
      assert b[3 * (n - 1) + axis] == b[..3 * n][3 * (n - 1) + axis];
    }
  }

  /** One or two floats after the last whole vertex are ignored. */
  lemma MeasureIgnoresTrailingFloats(buf: seq<real>)
    ensures BoxMin(buf) == BoxMin(buf[..3 * (|buf| / 3)])
    ensures BoxMax(buf) == BoxMax(buf[..3 * (|buf| / 3)])
  {
    var n := |buf| / 3;
    var whole := buf[..3 * n];
    assert |whole| / 3 == n;
    assert whole[..3 * n] == buf[..3 * n];
    forall axis | 0 <= axis < 3
      ensures AxisMin(buf, axis, n) == AxisMin(whole, axis, n)
      ensures AxisMax(buf, axis, n) == AxisMax(whole, axis, n)
    {
      AxisBoundsAgreeOnPrefix(buf, whole, axis, n);
    }
  }

  /** Without a whole vertex the box keeps its sentinels and is inverted. */
  lemma MeasureWithoutVertices(buf: seq<real>)
    requires |buf| < 3
    ensures BoxMin(buf) == Vec3(IntMaxAsFloat, IntMaxAsFloat, IntMaxAsFloat)
    ensures BoxMax(buf) == Vec3(IntMinAsFloat, IntMinAsFloat, IntMinAsFloat)
    ensures BoxMin(buf).x > BoxMax(buf).x
  {
  }

  /** With one vertex whose coordinates lie within the sentinels, the box is
      that point: the minimum and maximum tests are separate `if`s, so the
      one vertex updates both. */
  lemma MeasureOneVertex(buf: seq<real>)
    requires 3 <= |buf| < 6
    requires forall i :: 0 <= i < 3 ==> IntMinAsFloat <= buf[i] <= IntMaxAsFloat
    ensures BoxMin(buf) == BoxMax(buf) == Vec3(buf[0], buf[1], buf[2])
  {
    assert |buf| / 3 == 1;
    assert Coord(buf, 0, 0) == buf[0] && Coord(buf, 0, 1) == buf[1] && Coord(buf, 0, 2) == buf[2];
    assert AxisMin(buf, 0, 1) == buf[0] && AxisMax(buf, 0, 1) == buf[0];
    assert AxisMin(buf, 1, 1) == buf[1] && AxisMax(buf, 1, 1) == buf[1];
    assert AxisMin(buf, 2, 1) == buf[2] && AxisMax(buf, 2, 1) == buf[2];
  }

  class Shape {
    var posBuf: seq<real>
    var norBuf: seq<real>
    var texBuf: seq<real>
    var eleBuf: seq<Index>
    var min: Vec3
    var max: Vec3

    /** The header's defaults: empty buffers, `min = max = vec3(0)`. */
    constructor ()
      ensures posBuf == [] && norBuf == [] && texBuf == [] && eleBuf == []
      ensures min == Zero && max == Zero
    {
      posBuf, norBuf, texBuf, eleBuf := [], [], [], [];
      min, max := Zero, Zero;
    }

    /** Copies the four buffers of a loaded mesh verbatim. */
    method CreateShape(shape: Mesh)
      modifies this
      ensures posBuf == shape.positions && norBuf == shape.normals
      ensures texBuf == shape.texcoords && eleBuf == shape.indices
      ensures min == old(min) && max == old(max)
    {
      posBuf := shape.positions;
      norBuf := shape.normals;
      texBuf := shape.texcoords;
      eleBuf := shape.indices;
    }

    /** Scans every whole vertex of `posBuf` once, from integer-limit
        sentinels, and stores the bounding box; the buffers are only read. */
    method Measure()
      modifies this`min, this`max
      ensures min == BoxMin(posBuf) && max == BoxMax(posBuf)
    {
      var minX, minY, minZ := IntMaxAsFloat, IntMaxAsFloat, IntMaxAsFloat;
      var maxX, maxY, maxZ := IntMinAsFloat, IntMinAsFloat, IntMinAsFloat;
      var v := 0;
      while v < |posBuf| / 3
        invariant 0 <= v <= |posBuf| / 3
        invariant minX == AxisMin(posBuf, 0, v) && maxX == AxisMax(posBuf, 0, v)
        invariant minY == AxisMin(posBuf, 1, v) && maxY == AxisMax(posBuf, 1, v)
        invariant minZ == AxisMin(posBuf, 2, v) && maxZ == AxisMax(posBuf, 2, v)
      {
        if posBuf[3 * v + 0] < minX { minX := posBuf[3 * v + 0]; }
        if posBuf[3 * v + 0] > maxX { maxX := posBuf[3 * v + 0]; }

        if posBuf[3 * v + 1] < minY { minY := posBuf[3 * v + 1]; }
        if posBuf[3 * v + 1] > maxY { maxY := posBuf[3 * v + 1]; }

        if posBuf[3 * v + 2] < minZ { minZ := posBuf[3 * v + 2]; }
        if posBuf[3 * v + 2] > maxZ { maxZ := posBuf[3 * v + 2]; }
        v := v + 1;
      }
      min := Vec3(minX, minY, minZ);
      max := Vec3(maxX, maxY, maxZ);
    }
  }
}
