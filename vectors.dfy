/** Three-component vectors of the host world and the axis convention of the
    positional-audio reader. Components are modelled as reals. */
module Vectors {

  datatype Vec3 = Vec3(x: real, y: real, z: real)

  /** `v * k`, component by component: a factor of 1 keeps the vector, and a
      non-zero factor loses nothing, since dividing by it gives `v` back. */
  function Scale(v: Vec3, k: real): (r: Vec3)
    ensures k == 1.0 ==> r == v
    ensures k != 0.0 ==> Vec3(r.x / k, r.y / k, r.z / k) == v
  {
    var r := Vec3(v.x * k, v.y * k, v.z * k);
    MulDivCancels(v.x, k);
    MulDivCancels(v.y, k);
    MulDivCancels(v.z, k);
    assert k != 0.0 ==> r.x / k == v.x && r.y / k == v.y && r.z / k == v.z;
    r
  }

  /** Multiplying by a non-zero factor and dividing by it again cancels. */
  lemma MulDivCancels(a: real, k: real)
    ensures k != 0.0 ==> a * k / k == a
  {
    if k != 0.0 {
      assert a * k * (1.0 / k) == a;
    }
  }

  /** The host's axes in the reader's order: right, up, front. The host's second
      and third axes trade places; the first is kept. */
  function Swizzle(v: Vec3): (r: Vec3)
    ensures r.x == v.x
    ensures Vec3(r.x, r.z, r.y) == v
  {
    Vec3(v.x, v.z, v.y)
  }

  /** The three components in memory order, as a `float[3]` holds them. */
  function Components(v: Vec3): (c: seq<real>)
    ensures |c| == 3
  {
    [v.x, v.y, v.z]
  }

  /** A `float[3]` read back as a vector. */
  function FromComponents(c: seq<real>): Vec3
    requires |c| == 3
  {
    Vec3(c[0], c[1], c[2])
  }

  /** The axis exchange is its own inverse. */
  lemma SwizzleInvolutive(v: Vec3)
    ensures Swizzle(Swizzle(v)) == v
  {
  }

  /** Scaling and the axis exchange commute, so scaling before the exchange (as
      the writer does) equals scaling what the reader sees. */
  lemma SwizzleCommutesWithScale(v: Vec3, k: real)
    ensures Swizzle(Scale(v, k)) == Scale(Swizzle(v), k)
  {
  }

  /** Writing components and reading them back is lossless, in both directions. */
  lemma ComponentsRoundTrip(v: Vec3, c: seq<real>)
    requires |c| == 3
    ensures FromComponents(Components(v)) == v
    ensures Components(FromComponents(c)) == c
  {
  }

  /** Scaling by a non-zero factor is undone by scaling with its reciprocal. */
  lemma ScaleInvertible(v: Vec3, k: real)
    requires k != 0.0
    ensures Scale(Scale(v, k), 1.0 / k) == v
  {
    assert v.x * k * (1.0 / k) == v.x;
    assert v.y * k * (1.0 / k) == v.y;
    assert v.z * k * (1.0 / k) == v.z;
  }
}
