/** The shared record the positional-audio reader creates and this writer
    fills in: field names and buffer sizes as the reader defines them. Only the
    fields and their sizes are modelled, not the binary layout. */
module LinkedMem {
  import opened CStrings

  const ContextSize: nat := 256
  const IdentitySize: nat := 256
  const NameSize: nat := 256
  const DescriptionSize: nat := 2048

  /** The value of every field of the record at one moment. */
  datatype Snapshot = Snapshot(
    uiVersion: U32,
    uiTick: U32,
    fAvatarPosition: seq<real>,
    fAvatarFront: seq<real>,
    fAvatarTop: seq<real>,
    name: seq<WChar>,
    fCameraPosition: seq<real>,
    fCameraFront: seq<real>,
    fCameraTop: seq<real>,
    identity: seq<WChar>,
    contextLen: U32,
    context: seq<Byte>,
    description: seq<WChar>)

  /** Every buffer has the size the record fixes. */
  predicate WellFormed(s: Snapshot) {
    && |s.fAvatarPosition| == 3 && |s.fAvatarFront| == 3 && |s.fAvatarTop| == 3
    && |s.fCameraPosition| == 3 && |s.fCameraFront| == 3 && |s.fCameraTop| == 3
    && |s.name| == NameSize
    && |s.identity| == IdentitySize
    && |s.context| == ContextSize
    && |s.description| == DescriptionSize
  }

  /** The record in place: scalar fields are variables, fixed-size buffers are
      arrays whose elements are written in place. */
  class Region {
    var uiVersion: U32
    var uiTick: U32
    const fAvatarPosition: array<real>
    const fAvatarFront: array<real>
    const fAvatarTop: array<real>
    const name: array<WChar>
    const fCameraPosition: array<real>
    const fCameraFront: array<real>
    const fCameraTop: array<real>
    const identity: array<WChar>
    var contextLen: U32
    const context: array<Byte>
    const description: array<WChar>

    /** The objects that make up the record. */
    ghost function Repr(): set<object> {
      {this, fAvatarPosition, fAvatarFront, fAvatarTop, name,
       fCameraPosition, fCameraFront, fCameraTop, identity, context, description}
    }

    /** Buffer sizes as the record fixes them; no two fields share storage. */
    ghost predicate Valid() {
      && fAvatarPosition.Length == 3 && fAvatarFront.Length == 3 && fAvatarTop.Length == 3
      && fCameraPosition.Length == 3 && fCameraFront.Length == 3 && fCameraTop.Length == 3
      && name.Length == NameSize
      && identity.Length == IdentitySize
      && context.Length == ContextSize
      && description.Length == DescriptionSize
      && Distinct3(fAvatarPosition, fAvatarFront, fAvatarTop)
      && Distinct3(fCameraPosition, fCameraFront, fCameraTop)
      && fAvatarPosition !in {fCameraPosition, fCameraFront, fCameraTop}
      && fAvatarFront !in {fCameraPosition, fCameraFront, fCameraTop}
      && fAvatarTop !in {fCameraPosition, fCameraFront, fCameraTop}
      && Distinct3(name, identity, description)
      && context as object !in {name as object, identity, description}
    }

    /** The current value of every field. */
    ghost function View(): (s: Snapshot)
      reads Repr()
      ensures Valid() ==> WellFormed(s)
    {
      Snapshot(uiVersion, uiTick,
               fAvatarPosition[..], fAvatarFront[..], fAvatarTop[..], name[..],
               fCameraPosition[..], fCameraFront[..], fCameraTop[..], identity[..],
               contextLen, context[..], description[..])
    }

    /** A record as the reader creates it: every field zero. */
    constructor Zeroed()
      ensures Valid() && fresh(Repr())
      ensures uiVersion == 0 && uiTick == 0 && contextLen == 0
      ensures name[..] == Zeros(NameSize) && description[..] == Zeros(DescriptionSize)
      ensures identity[..] == Zeros(IdentitySize)
      ensures context[..] == seq(ContextSize, i => 0)
      ensures Origin(fAvatarPosition[..]) && Origin(fAvatarFront[..]) && Origin(fAvatarTop[..])
      ensures Origin(fCameraPosition[..]) && Origin(fCameraFront[..]) && Origin(fCameraTop[..])
    {
      var ap := NewOrigin();
      var af := NewOrigin();
      var at := NewOrigin();
      var cp := NewOrigin();
      var cf := NewOrigin();
      var ct := NewOrigin();
      var nm := NewZeros(NameSize);
      var id := NewZeros(IdentitySize);
      var ds := NewZeros(DescriptionSize);
      var cx := NewZeroBytes(ContextSize);
      uiVersion, uiTick, contextLen := 0, 0, 0;
      fAvatarPosition, fAvatarFront, fAvatarTop := ap, af, at;
      fCameraPosition, fCameraFront, fCameraTop := cp, cf, ct;
      name, identity, description := nm, id, ds;
      context := cx;
    }
  }

  /** A fresh `float[3]` holding the zero vector. */
  method NewOrigin() returns (a: array<real>)
    ensures fresh(a) && a.Length == 3 && Origin(a[..])
  {
    a := new real[3](i => 0.0);
    assert a[..] == [a[0], a[1], a[2]];
  }

  /** A fresh buffer of `n` NUL units. */
  method NewZeros(n: nat) returns (a: array<WChar>)
    ensures fresh(a) && a[..] == Zeros(n)
  {
    a := new WChar[n](i => 0);
    assert forall i :: 0 <= i < n ==> a[..][i] == Zeros(n)[i];
  }

  /** A fresh buffer of `n` zero bytes. */
  method NewZeroBytes(n: nat) returns (a: array<Byte>)
    ensures fresh(a) && a[..] == seq(n, i => 0)
  {
    a := new Byte[n](i => 0);
    assert forall i :: 0 <= i < n ==> a[..][i] == 0;
  }

  /** A `float[3]` holding the zero vector. */
  predicate Origin(c: seq<real>) {
    c == [0.0, 0.0, 0.0]
  }

  ghost predicate Distinct3<T>(a: T, b: T, c: T) {
    a != b && a != c && b != c
  }
}
