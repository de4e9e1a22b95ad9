/** The writer side of the Mumble "Link" positional-audio interface: an adapter
    that attaches to the shared record once and then, while attached, writes
    the listener's context, identity, pose and a heartbeat into it. Every
    writer is a silent no-op while unattached. */
module Spades {
  import opened CStrings
  import opened Vectors
  import opened LinkedMem

  /** Host world units per metre, fixed by the adapter's constructor. */
  const MetrePerBlock: real := 0.63

  /** The `uiVersion` the writer stamps to announce itself. */
  const Version: U32 := 2

  const AppName: seq<WChar> := Wide("OpenSpades")
  const AppDescription: seq<WChar> := Wide("OpenSpades Link plugin.")

  /** The name and description buffers as the handshake leaves them: the
      fixed string, then NUL to the end of the buffer. */
  const NameImage: seq<WChar> := AppName + Zeros(NameSize - |AppName|)
  const DescriptionImage: seq<WChar> := AppDescription + Zeros(DescriptionSize - |AppDescription|)

  /** The listener (`spades::client::Player`); the adapter reads only its
      position and its front and up vectors. */
  class Player {
    const position: Vec3
    const front: Vec3
    const up: Vec3

    constructor (position: Vec3, front: Vec3, up: Vec3)
      ensures this.position == position && this.front == front && this.up == up
    {
      this.position, this.front, this.up := position, front, up;
    }
  }

  /** What the platform's open-then-map sequence produced. */
  datatype MapAttempt =
    | OpenFailed            // the named object does not exist (no handle, no descriptor)
    | MapFailed             // the object opened but mapping it failed
    | Mapped(region: Region)

  /** Number of context bytes copied: `min(256, size)`. */
  function ContextLength(n: nat): (len: nat)
    ensures len <= ContextSize && len <= n
    ensures len == n || len == ContextSize
  {
    if n < ContextSize then n else ContextSize
  }

  /** The fixed strings hold no NUL and fit their buffers with room for the
      terminator. */
  lemma AppStringsFit()
    ensures CStrLen(AppName) == |AppName| == 10
    ensures CStrLen(AppDescription) == |AppDescription| == 23
  {
    assert forall i :: 0 <= i < |AppName| ==> AppName[i] != 0;
    assert forall i :: 0 <= i < |AppDescription| ==> AppDescription[i] != 0;
    CStrLenWhole(AppName);
    CStrLenWhole(AppDescription);
  }

  /** The record after `setContext(ctx)`: the first `min(256, |ctx|)` bytes of
      `ctx` in front of the context buffer, that count in `context_len`, and
      nothing else changed. */
  function WithContext(s: Snapshot, ctx: seq<Byte>): (r: Snapshot)
    requires WellFormed(s)
    ensures WellFormed(r)
    ensures r.contextLen == ContextLength(|ctx|)
    ensures forall i :: 0 <= i < ContextSize ==>
      r.context[i] == if i < r.contextLen then ctx[i] else s.context[i]
    ensures r.(contextLen := s.contextLen, context := s.context) == s
  {
    var len := ContextLength(|ctx|);
    s.(contextLen := len, context := Memcpy(s.context, ctx, len))
  }

  /** The record after `setIdentity(id)`: the widened units of `id` up to its
      first NUL, at most 256 of them, then NUL up to the end of the identity
      buffer; nothing else changed. */
  function WithIdentity(s: Snapshot, id: seq<Byte>): (r: Snapshot)
    requires WellFormed(s)
    ensures WellFormed(r)
    ensures forall i :: 0 <= i < IdentitySize ==>
      r.identity[i] == if i < CStrLen(id) then Widen(id[i]) else 0
    ensures r.(identity := s.identity) == s
  {
    WidenKeepsCStrLen(id);
    s.(identity := Wcsncpy(s.identity, WidenString(id), IdentitySize))
  }

  /** A context of 300 bytes is cut to its first 256 with length 256; one of
      10 bytes is stored whole with length 10, the rest of the buffer kept. */
  lemma ContextExamples(s: Snapshot, long: seq<Byte>, short: seq<Byte>)
    requires WellFormed(s)
    requires |long| == 300 && |short| == 10
    ensures WithContext(s, long).contextLen == 256 && WithContext(s, long).context == long[..256]
    ensures WithContext(s, short).contextLen == 10
    ensures WithContext(s, short).context == short + s.context[10..]
  {
    var r, q := WithContext(s, long), WithContext(s, short);
    assert forall i :: 0 <= i < ContextSize ==> r.context[i] == long[..256][i];
    assert forall i :: 0 <= i < ContextSize ==> q.context[i] == (short + s.context[10..])[i];
  }

  /** An identity with 256 or more units before its NUL fills the buffer with
      its first 256 units, widened, and leaves no terminator. */
  lemma IdentityTruncated(s: Snapshot, id: seq<Byte>)
    requires WellFormed(s)
    requires CStrLen(id) >= IdentitySize
    ensures WithIdentity(s, id).identity == WidenString(id[..IdentitySize])
    ensures forall i :: 0 <= i < IdentitySize ==> WithIdentity(s, id).identity[i] != 0
  {
    WidenKeepsCStrLen(id);
    WcsncpyUnterminated(s.identity, WidenString(id), IdentitySize);
    assert WidenString(id)[..IdentitySize] == WidenString(id[..IdentitySize]);
  }

  /** The one-time version handshake. */
  function Handshake(s: Snapshot): (r: Snapshot)
    requires WellFormed(s)
    ensures WellFormed(r) && r.uiVersion == Version
    ensures s.uiVersion == Version ==> r == s
    ensures s.uiVersion != Version ==>
      && r.name == NameImage
      && r.description == DescriptionImage
    ensures r.(name := s.name, description := s.description, uiVersion := s.uiVersion) == s
  {
    AppStringsFit();
    WcsncpyWholeBuffer(s.name, AppName);
    WcsncpyWholeBuffer(s.description, AppDescription);
    if s.uiVersion != Version then
      s.(name := Wcsncpy(s.name, AppName, NameSize),
         description := Wcsncpy(s.description, AppDescription, DescriptionSize),
         uiVersion := Version)
    else s
  }

  /** The record after `update(player)` with `scale` world units per metre:
      handshake, heartbeat, then the pose in the reader's axes, positions
      converted to metres. */
  function Updated(s: Snapshot, p: Player, scale: real): (r: Snapshot)
    requires WellFormed(s)
    ensures WellFormed(r)
  {
    Handshake(s).(
      uiTick := U32Succ(s.uiTick),
      fAvatarFront := Components(Swizzle(p.front)),
      fAvatarTop := Components(Swizzle(p.up)),
      fAvatarPosition := Components(Swizzle(Scale(p.position, scale))),
      fCameraPosition := Components(Swizzle(Scale(p.position, scale))),
      fCameraFront := Components(Swizzle(p.front)),
      fCameraTop := Components(Swizzle(p.up)))
  }

  /** Each update is one heartbeat, wrapping at the `uint32_t` width, leaves
      the version stamped, and writes the fixed strings exactly when the
      version was not stamped before. */
  lemma UpdateStampsAndTicks(s: Snapshot, p: Player, scale: real)
    requires WellFormed(s)
    ensures Updated(s, p, scale).uiTick == (s.uiTick + 1) % U32Modulus
    ensures Updated(s, p, scale).uiVersion == Version
    ensures s.uiVersion == Version ==>
      Updated(s, p, scale).name == s.name && Updated(s, p, scale).description == s.description
    ensures s.uiVersion != Version ==>
      && Updated(s, p, scale).name == NameImage
      && Updated(s, p, scale).description == DescriptionImage
  {
  }

  /** Context, identity and their length are not touched by an update. */
  lemma UpdateKeepsMetadata(s: Snapshot, p: Player, scale: real)
    requires WellFormed(s)
    ensures var r := Updated(s, p, scale);
      r.identity == s.identity && r.context == s.context && r.contextLen == s.contextLen
  {
  }

  /** The reader, undoing the axis exchange, gets back the listener's front and
      up vectors unscaled and its position in metres, the same for avatar and
      camera; what it reads as the position is the exchanged host position,
      scaled; with a non-zero scale the host position itself is recoverable. */
  lemma UpdateWritesListener(s: Snapshot, p: Player, scale: real)
    requires WellFormed(s)
    ensures var r := Updated(s, p, scale);
      && r.fCameraPosition == r.fAvatarPosition
      && r.fCameraFront == r.fAvatarFront
      && r.fCameraTop == r.fAvatarTop
      && Swizzle(FromComponents(r.fAvatarFront)) == p.front
      && Swizzle(FromComponents(r.fAvatarTop)) == p.up
      && Swizzle(FromComponents(r.fAvatarPosition)) == Scale(p.position, scale)
      && FromComponents(r.fAvatarPosition) == Scale(Swizzle(p.position), scale)
      && (scale != 0.0 ==> Scale(Swizzle(FromComponents(r.fAvatarPosition)), 1.0 / scale) == p.position)
  {
    var r := Updated(s, p, scale);
    ComponentsRoundTrip(Swizzle(p.front), r.fAvatarFront);
    ComponentsRoundTrip(Swizzle(Scale(p.position, scale)), r.fAvatarPosition);
    SwizzleCommutesWithScale(p.position, scale);
    SwizzleInvolutive(p.front);
    SwizzleInvolutive(p.up);
    SwizzleInvolutive(Scale(p.position, scale));
    if scale != 0.0 {
      ScaleInvertible(p.position, scale);
    }
  }

  /** With the adapter's scale, a listener 10 units along the first axis is
      written 6.3 metres along it. */
  lemma UpdateScalesPosition(s: Snapshot, p: Player)
    requires WellFormed(s)
    requires p.position == Vec3(10.0, 0.0, 0.0)
    ensures Updated(s, p, MetrePerBlock).fAvatarPosition == [6.3, 0.0, 0.0]
    ensures Updated(s, p, MetrePerBlock).fCameraPosition == [6.3, 0.0, 0.0]
  {
  }

  /** Once the version is stamped the fixed strings are never written again,
      even when something else has overwritten them in the meantime. */
  lemma HandshakeNotRepeated(s: Snapshot, p: Player, q: Player, scale: real,
                             name: seq<WChar>, description: seq<WChar>)
    requires WellFormed(s)
    requires |name| == NameSize && |description| == DescriptionSize
    ensures var first := Updated(s, p, scale);
      var second := Updated(first.(name := name, description := description), q, scale);
      second.name == name && second.description == description && second.uiVersion == Version
  {
  }

  /** The record after a sequence of updates, one per listener in `ps`. */
  function UpdatedAll(s: Snapshot, ps: seq<Player>, scale: real): (r: Snapshot)
    requires WellFormed(s)
    ensures WellFormed(r)
    decreases |ps|
  {
    if ps == [] then s else UpdatedAll(Updated(s, ps[0], scale), ps[1..], scale)
  }

  /** After `n > 0` updates the heartbeat has advanced by `n`, modulo 2^32,
      and the version is stamped. */
  lemma {:induction false} RepeatedUpdatesTick(s: Snapshot, ps: seq<Player>, scale: real)
    requires WellFormed(s) && ps != []
    ensures UpdatedAll(s, ps, scale).uiTick == (s.uiTick + |ps|) % U32Modulus
    ensures UpdatedAll(s, ps, scale).uiVersion == Version
    decreases |ps|
  {
    var s' := Updated(s, ps[0], scale);
    UpdateStampsAndTicks(s, ps[0], scale);
    assert UpdatedAll(s, ps, scale) == UpdatedAll(s', ps[1..], scale);
    if |ps| > 1 {
      RepeatedUpdatesTick(s', ps[1..], scale);
      assert (s'.uiTick + (|ps| - 1)) % U32Modulus == (s.uiTick + |ps|) % U32Modulus;
    }
  }

  /** Over any number of updates the fixed strings are written at most once:
      exactly when the version was not yet stamped beforehand. */
  lemma {:induction false} RepeatedUpdatesHandshakeOnce(s: Snapshot, ps: seq<Player>, scale: real)
    requires WellFormed(s) && ps != []
    ensures UpdatedAll(s, ps, scale).name == if s.uiVersion == Version then s.name else NameImage
    ensures UpdatedAll(s, ps, scale).description ==
      if s.uiVersion == Version then s.description else DescriptionImage
    decreases |ps|
  {
    var s' := Updated(s, ps[0], scale);
    UpdateStampsAndTicks(s, ps[0], scale);
    assert UpdatedAll(s, ps, scale) == UpdatedAll(s', ps[1..], scale);
    if |ps| > 1 {
      RepeatedUpdatesHandshakeOnce(s', ps[1..], scale);
    }
  }

  /** `set_mumble_vector3`: writes `v` into a `float[3]` in the reader's axis
      order and touches nothing else. */
  method SetMumbleVector3(out: array<real>, v: Vec3)
    requires out.Length == 3
    modifies out
    ensures out[..] == Components(Swizzle(v))
  {
    out[0] := v.x;
    out[1] := v.z;
    out[2] := v.y;
  }

  /** The adapter: an optional attachment to the shared record and the scale
      from world units to metres. */
  class MumbleLink {
    const metrePerBlock: real
    var mem: Region?

    ghost predicate Valid()
      reads this
    {
      metrePerBlock == MetrePerBlock && (mem != null ==> mem.Valid())
    }

    /** Unattached, with the fixed scale. */
    constructor ()
      ensures Valid() && mem == null && metrePerBlock == 0.63
    {
      metrePerBlock := MetrePerBlock;
      mem := null;
    }

    /** `init`: may only run while unattached; attaches exactly when the
        platform produced a mapping, and reports whether it did. */
    method Init(attempt: MapAttempt) returns (ok: bool)
      requires Valid() && mem == null
      requires attempt.Mapped? ==> attempt.region.Valid()
      modifies this
      ensures Valid()
      ensures ok <==> mem != null
      ensures ok <==> attempt.Mapped?
      ensures ok ==> mem == attempt.region
    {
      match attempt
      case OpenFailed =>
        return false;
      case MapFailed =>
        mem := null;
        return false;
      case Mapped(region) =>
        mem := region;
        return true;
    }

    /** `setContext`: a no-op while unattached (the frame is empty); otherwise
        the record becomes `WithContext` of what it was. */
    method SetContext(context: seq<Byte>)
      requires Valid()
      requires |context| < 0x8000_0000
      modifies if mem == null then {} else {mem as object, mem.context}
      ensures Valid()
      ensures mem != null ==> mem.View() == WithContext(old(mem.View()), context)
    {
      if mem == null {
        return;
      }
      var len := ContextLength(|context|);
      MemcpyInto(mem.context, context, len);
      mem.contextLen := len;
    }

    /** `setIdentity`: a no-op while unattached; otherwise the record becomes
        `WithIdentity` of what it was. */
    method SetIdentity(identity: seq<Byte>)
      requires Valid()
      modifies if mem == null then {} else {mem.identity}
      ensures Valid()
      ensures mem != null ==> mem.View() == WithIdentity(old(mem.View()), identity)
    {
      if mem == null {
        return;
      }
      WcsncpyInto(mem.identity, WidenString(identity), IdentitySize);
    }

    /** `update`: a no-op while unattached or without a listener; otherwise
        the record becomes `Updated` of what it was, at the adapter's scale. */
    method Update(player: Player?)
      requires Valid()
      modifies if mem == null || player == null then {} else mem.Repr()
      ensures Valid()
      ensures mem != null && player != null ==>
        mem.View() == Updated(old(mem.View()), player, metrePerBlock)
    {
      if mem == null || player == null {
        return;
      }
      var m := mem;
      ghost var s0 := m.View();
      if m.uiVersion != Version {
        WcsncpyInto(m.name, AppName, NameSize);
        WcsncpyInto(m.description, AppDescription, DescriptionSize);
        m.uiVersion := Version;
      }
      assert m.View() == Handshake(s0);
      m.uiTick := U32Succ(m.uiTick);
      SetMumbleVector3(m.fAvatarFront, player.front);
      SetMumbleVector3(m.fAvatarTop, player.up);
      SetMumbleVector3(m.fAvatarPosition, Scale(player.position, metrePerBlock));
      SetMumbleVector3(m.fCameraPosition, Scale(player.position, metrePerBlock));
      SetMumbleVector3(m.fCameraFront, player.front);
      SetMumbleVector3(m.fCameraTop, player.up);
    }
  }

  /** Attachment that finds no segment leaves the adapter inert: every writer
      afterwards leaves an existing record alone. */
  method DetachedLinkIsInert(other: Region, p: Player)
    requires other.Valid()
  {
    var link := new MumbleLink();
    var ok := link.Init(OpenFailed);
    assert !ok && link.mem == null;
    ghost var before := other.View();
    link.SetContext([1, 2, 3]);
    link.SetIdentity([65, 66]);
    link.Update(p);
    assert other.View() == before;
  }

  /** The first update of a fresh record stamps the version, writes the name
      and beats once. */
  method FirstUpdateScenario(p: Player)
  {
    var region := new Region.Zeroed();
    var link := new MumbleLink();
    var ok := link.Init(Mapped(region));
    assert ok;
    link.Update(p);
    assert region.uiVersion == Version && region.uiTick == 1;
    assert region.name[..] == NameImage by {
      AppStringsFit();
    }
  }

  /** Once the version is stamped, a name overwritten by someone else is not
      written again, while the heartbeat still advances. */
  method StampedNameScenario(region: Region, p: Player)
    requires region.Valid() && region.uiVersion == Version
    modifies region.Repr()
  {
    var link := new MumbleLink();
    var ok := link.Init(Mapped(region));
    region.name[0] := 0;
    ghost var overwritten := region.name[..];
    ghost var tick := region.uiTick;
    link.Update(p);
    assert region.name[..] == overwritten;
    assert region.uiTick == U32Succ(tick);
  }
}
