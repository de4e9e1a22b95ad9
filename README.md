# MumbleLink writer, modelled in Dafny

OpenSpades feeds the Mumble voice client's positional audio through Mumble's
"Link" interface. Mumble creates a named shared-memory record. The game
attaches to it and, once per frame, writes the listener's position and
orientation, a heartbeat, and some identification strings. This project models
the writer side (`spades::MumbleLink`) together with its state machine:

- **Attach (`init`)** may run only while unattached. It ends attached exactly
  when the platform produced a mapping, and it returns whether it did.
- **`setContext`, `setIdentity`, `update`** do nothing while unattached, and
  `update` also does nothing without a listener. While attached, each one
  writes fixed-size buffers of the record in place:
  - `setContext` copies `min(256, n)` bytes with `memcpy` and records that count.
  - `setIdentity` widens the bytes and copies them with `wcsncpy(…, 256)`.
  - `update` does a one-time version handshake (name, description,
    `uiVersion = 2`) and a wrapping `uiTick++`. Then it writes six vectors
    through the axis exchange `(x, y, z) ↦ (x, z, y)`. Positions are first
    multiplied by the adapter's scale, 0.63; front and up vectors are not
    scaled.

Layout of the project:

- `cstrings.dfy` (module `CStrings`): byte, `wchar_t` and `uint32_t` units;
  C-string length; the effects of `memcpy` and `wcsncpy` as functions on buffer
  contents, and as in-place writes on arrays.
- `vectors.dfy` (module `Vectors`): 3-vectors over reals, scaling, and the axis
  exchange.
- `linked_mem.dfy` (module `LinkedMem`): the shared record. `Region` is a class
  whose buffers are arrays written in place. `Snapshot` is the value of all its
  fields at one moment, and `Region.View()` connects the two.
- `mumble_link.dfy` (module `Spades`): the adapter class `MumbleLink`, the
  listener `Player`, and the platform's open-and-map step as `MapAttempt`. It
  also holds the specification functions `WithContext`, `WithIdentity`,
  `Handshake` and `Updated` on snapshots, with the lemmas about them. Each
  writer method is proved to turn the record's old snapshot into the
  specification function's result. Its `modifies` clause is empty when the
  adapter is unattached, or when `update` gets no listener. The empty clause
  is what proves those calls are no-ops.

Where the code departs from the intended design on state the model has, the
model follows the code: an identity of 256 or more units is stored with no
terminator, since `wcsncpy` writes none, although at most 256 units including
a terminator was intended.

## Model

| member | source | states |
|---|---|---|
| CStrings.U32Succ | Sources/Client/MumbleLink.cpp:96 | `uiTick++` on a `uint32_t`: one more, except that the largest value wraps to 0 |
| CStrings.CStrLen | Sources/Client/MumbleLink.cpp:83-84 | the length of the C string that `c_str()` hands to `wcsncpy`: no NUL before it, and a NUL (or the end) at it |
| CStrings.Wcsncpy | Sources/Client/MumbleLink.cpp:83-84 | `wcsncpy(dst, src, n)`: each of the first `n` units is the source's unit while before its first NUL, and 0 after it; units past `n` are untouched |
| CStrings.WcsncpyUnterminated | Sources/Client/MumbleLink.cpp:83-84 | a source with at least `n` units before its NUL fills the `n` units with its own, and no terminator is written |
| CStrings.WcsncpyTerminated | Sources/Client/MumbleLink.cpp:92-93 | a shorter source is copied whole, then NUL-terminated and NUL-padded up to `n` |
| CStrings.WcsncpyWholeBuffer | Sources/Client/MumbleLink.cpp:92-93 | a NUL-free string shorter than the buffer leaves the buffer as the string followed by NULs to its end |
| CStrings.WcsncpyInto | Sources/Client/MumbleLink.cpp:83-84 | the in-place write of a buffer by `wcsncpy`: afterwards the array holds `Wcsncpy` of its old contents |
| CStrings.Memcpy | Sources/Client/MumbleLink.cpp:76 | `memcpy(dst, src, len)`: positions below `len` take the source's bytes; all others keep theirs |
| CStrings.MemcpyInto | Sources/Client/MumbleLink.cpp:76 | the in-place write of the context buffer: afterwards the array holds `Memcpy` of its old contents |
| CStrings.Widen | Sources/Client/MumbleLink.cpp:84 | widening one `char` to `wchar_t` yields NUL exactly for NUL |
| CStrings.WidenInjective | Sources/Client/MumbleLink.cpp:84 | distinct bytes widen to distinct units |
| CStrings.WidenString | Sources/Client/MumbleLink.cpp:84 | `std::wstring(begin, end)`: the same number of units, each the widened byte |
| CStrings.WidenKeepsCStrLen | Sources/Client/MumbleLink.cpp:83-84 | widening keeps the position of the first NUL, so the wide C string is exactly as long as the narrow one |
| Vectors.Scale | Sources/Client/MumbleLink.cpp:113-118 | `GetPosition() * metre_per_block`: a factor of 1 keeps the vector, and dividing by a non-zero factor gives the vector back |
| Vectors.Swizzle | Sources/Client/MumbleLink.cpp:29-34 | the reader's axes: the first component is kept, and exchanging the second and third again gives back the host vector |
| Vectors.ComponentsRoundTrip | Sources/Client/MumbleLink.cpp:29-34 | a vector written as a `float[3]` and read back is the same vector, and a `float[3]` read as a vector and written back is the same array |
| LinkedMem.Region.View | Sources/Client/MumbleLink.cpp:75-93 | the value of every field of the record; for a valid record every buffer has the size the writers assume: 3 per vector, 256 for context, identity and name, 2048 for description |
| Vectors.SwizzleInvolutive | Sources/Client/MumbleLink.cpp:29-34 | the axis exchange written by `set_mumble_vector3` is its own inverse |
| Vectors.SwizzleCommutesWithScale | Sources/Client/MumbleLink.cpp:113-118 | scaling the position before the exchange equals scaling what the reader sees |
| Vectors.ScaleInvertible | Sources/Client/MumbleLink.cpp:113-118 | scaling by a non-zero factor is undone by its reciprocal |
| Spades.SetMumbleVector3 | Sources/Client/MumbleLink.cpp:29-34 | writes component 0 unchanged and swaps components 1 and 2; only the three target cells change |
| Spades.AppStringsFit | Sources/Client/MumbleLink.cpp:92-93 | "OpenSpades" (10 units) and "OpenSpades Link plugin." (23 units) contain no NUL and fit their buffers with room for a terminator |
| Spades.ContextLength | Sources/Client/MumbleLink.cpp:75 | the copy length is `min(256, size)`: at most 256, at most the size, and equal to one of them |
| Spades.WithContext | Sources/Client/MumbleLink.cpp:75-77 | `context_len` becomes `min(256, size)`, the first that many context bytes become the input's, every later byte and every other field is unchanged |
| Spades.ContextExamples | Sources/Client/MumbleLink.cpp:75-77 | a 300-byte context stores its first 256 bytes with length 256; a 10-byte one stores all 10 with length 10 |
| Spades.WithIdentity | Sources/Client/MumbleLink.cpp:83-84 | identity unit `i` is the widened input byte before the input's first NUL, and 0 from there up to 256; no other field changes |
| Spades.IdentityTruncated | Sources/Client/MumbleLink.cpp:83-84 | an identity with 256 or more units before its NUL is cut to its first 256 units, widened, with no terminator and no write past the buffer |
| Spades.Handshake | Sources/Client/MumbleLink.cpp:91-95 | afterwards `uiVersion == 2`. If it already was 2, nothing changes. Otherwise name and description become the fixed strings, NUL-padded to 256 and 2048 units. Nothing else changes in either case |
| Spades.Updated | Sources/Client/MumbleLink.cpp:87-120 | an update keeps every buffer at the size the record fixes |
| Spades.UpdateStampsAndTicks | Sources/Client/MumbleLink.cpp:91-96 | each update adds 1 to `uiTick` modulo 2^32 and leaves `uiVersion == 2`. It writes name and description exactly when the version was not 2 before |
| Spades.UpdateKeepsMetadata | Sources/Client/MumbleLink.cpp:87-120 | an update leaves identity, context and `context_len` alone |
| Spades.UpdateWritesListener | Sources/Client/MumbleLink.cpp:106-120 | avatar and camera fields are equal. Undoing the exchange gives back the unscaled front and up vectors and the scaled position. What the reader sees as the position is the exchanged host position, scaled. With a non-zero scale, the host position itself can be recovered |
| Spades.UpdateScalesPosition | Sources/Client/MumbleLink.cpp:113-118 | at the adapter's scale a listener at (10, 0, 0) is written at (6.3, 0, 0), for avatar and camera alike |
| Spades.HandshakeNotRepeated | Sources/Client/MumbleLink.cpp:91-95 | after one update, name and description overwritten by someone else are not rewritten by the next update, and the version stays 2 |
| Spades.RepeatedUpdatesTick | Sources/Client/MumbleLink.cpp:91-96 | after `n > 0` updates `uiTick` has advanced by `n` modulo 2^32 and the version is 2 |
| Spades.RepeatedUpdatesHandshakeOnce | Sources/Client/MumbleLink.cpp:91-95 | over `n > 0` updates name and description are written at most once: they end as the fixed strings exactly when the version was not 2 at the start, and are untouched otherwise |
| Spades.MumbleLink.constructor | Sources/Client/MumbleLink.cpp:15 | the adapter starts unattached with `metre_per_block == 0.63` |
| Spades.MumbleLink.Init | Sources/Client/MumbleLink.cpp:36-70 | requires the adapter to be unattached. Returns true exactly when the platform produced a mapping, and is attached to that mapping exactly then; on either failure the pointer stays null |
| Spades.MumbleLink.SetContext | Sources/Client/MumbleLink.cpp:72-78 | unattached: may modify nothing. Attached: the record becomes `WithContext` of its old value |
| Spades.MumbleLink.SetIdentity | Sources/Client/MumbleLink.cpp:80-85 | unattached: may modify nothing. Attached: only the identity buffer changes, and the record becomes `WithIdentity` of its old value |
| Spades.MumbleLink.Update | Sources/Client/MumbleLink.cpp:87-121 | unattached or without a listener: may modify nothing. Otherwise the record becomes `Updated` of its old value at the adapter's scale |

## Left out

- Platform calls (`OpenFileMappingW`, `MapViewOfFile`, `shm_open`, `mmap`
  and the rest) are not modelled. Their combined outcome is the parameter
  `MapAttempt`: the named object is missing, it opened but mapping failed, or
  it mapped to a record. The OS handles and the descriptor are not modelled,
  so the model says nothing about when they are released. On POSIX, when
  `mmap` fails, the descriptor from `shm_open` stays open until the
  destructor. It is lost if `init` runs again (the assert at
  Sources/Client/MumbleLink.cpp:37 allows this, because line 65 reset the
  pointer to null), or if it equals 0.
- The segment name (`"/MumbleLink." + uid`) is not modelled, since it depends
  on the process's user identity.
- The destructor is not modelled. It does not release correctly, and these
  defects are recorded here rather than verified:
  - the constructor's initialiser list does not set `fd` and `obj`, so unless
    the class definition gives them default values, they are read
    uninitialised when `init` never ran;
  - a descriptor equal to 0 is never closed.
- Float arithmetic is not modelled: vectors and the scale are reals, so
  rounding of `GetPosition() * metre_per_block` and of 0.63 itself is absent.
- Spades.MumbleLink.SetContext: requires a context shorter than 2^31 bytes.
  Longer strings overflow the `static_cast<int>` and are not modelled.
- CStrings.Widen: zero-extends a byte. The platform's sign extension of a
  negative `char` to `wchar_t` is not modelled.
- The player's getters and the rest of `spades::client::Player` are not
  modelled. `Player` holds only the three vectors the adapter reads.
- Concurrency is not modelled: the external reader process and unsynchronised
  access to the segment are out of scope.
- The record's binary layout (field offsets, padding, `float` width) is not
  modelled. `MumbleLink.h` is not part of this model. The buffer sizes come
  from the bounds the code passes to `memcpy` and `wcsncpy`. The 32-bit width
  of `uiVersion`, `uiTick` and `context_len` is the reader's published layout.
