/** The C library pieces the link writer relies on: byte and wide-character
    units, NUL-terminated strings, and the buffer effects of `memcpy` and
    `wcsncpy` on fixed-size buffers. */
module CStrings {

  /** One `char` of a narrow string, read as an unsigned octet. */
  type Byte = b: int | 0 <= b < 0x100

  /** One `wchar_t` code unit. */
  type WChar = c: int | 0 <= c < 0x1_0000_0000

  /** A `uint32_t` field of the shared record. */
  type U32 = n: int | 0 <= n < 0x1_0000_0000

  const U32Modulus: int := 0x1_0000_0000

  /** `n + 1` in 32-bit unsigned arithmetic (the `++` of a `uint32_t`). */
  function U32Succ(n: U32): (r: U32)
    ensures n < U32Modulus - 1 ==> r == n + 1
    ensures n == U32Modulus - 1 ==> r == 0
  {
    (n + 1) % U32Modulus
  }

  /** Number of units before the first NUL. A string without NUL counts whole,
      since `c_str()` puts the terminator right after its last unit. */
  function CStrLen(s: seq<int>): (k: nat)
    ensures k <= |s|
    ensures forall i :: 0 <= i < k ==> s[i] != 0
    ensures k < |s| ==> s[k] == 0
  {
    if s == [] || s[0] == 0 then 0 else 1 + CStrLen(s[1..])
  }

  /** A sequence without NUL is a C string of its full length. */
  lemma CStrLenWhole(s: seq<int>)
    requires forall i :: 0 <= i < |s| ==> s[i] != 0
    ensures CStrLen(s) == |s|
  {
  }

  /** `k` NUL units. */
  function Zeros(k: nat): (z: seq<WChar>)
    ensures |z| == k
  {
    seq(k, i => 0)
  }

  /** The buffer `dst` after `wcsncpy(dst, src, n)`, written the way the C
      library defines it: copy unit by unit until the source's NUL, then fill
      with NUL until `n` units are written. The contract states the outcome:
      the first `n` units are those of `src` before its first NUL followed by
      NUL padding; the units past `n` are untouched. */
  function Wcsncpy(dst: seq<WChar>, src: seq<WChar>, n: nat): (r: seq<WChar>)
    requires n <= |dst|
    ensures |r| == |dst|
    ensures forall i :: 0 <= i < |dst| ==>
      r[i] == if n <= i then dst[i] else if i < CStrLen(src) then src[i] else 0
    decreases n
  {
    if n == 0 then dst
    else if src == [] || src[0] == 0 then [0] + Wcsncpy(dst[1..], [], n - 1)
    else [src[0]] + Wcsncpy(dst[1..], src[1..], n - 1)
  }

  /** A source with `n` or more units before its NUL fills the first `n` units
      with its own: no terminator is written. */
  lemma WcsncpyUnterminated(dst: seq<WChar>, src: seq<WChar>, n: nat)
    requires n <= |dst| && CStrLen(src) >= n
    ensures Wcsncpy(dst, src, n) == src[..n] + dst[n..]
    ensures forall i :: 0 <= i < n ==> Wcsncpy(dst, src, n)[i] != 0
  {
    var w := src[..n] + dst[n..];
    assert forall i :: 0 <= i < |dst| ==> Wcsncpy(dst, src, n)[i] == w[i];
  }

  /** A shorter source is copied whole and terminated, and the rest of the
      first `n` units is NUL: nothing of their previous contents survives. */
  lemma WcsncpyTerminated(dst: seq<WChar>, src: seq<WChar>, n: nat)
    requires n <= |dst| && CStrLen(src) < n
    ensures Wcsncpy(dst, src, n) == src[..CStrLen(src)] + Zeros(n - CStrLen(src)) + dst[n..]
    ensures Wcsncpy(dst, src, n)[CStrLen(src)] == 0
  {
    var k := CStrLen(src);
    var w := src[..k] + Zeros(n - k) + dst[n..];
    assert forall i :: 0 <= i < |dst| ==> Wcsncpy(dst, src, n)[i] == w[i];
  }

  /** A NUL-free source shorter than the whole buffer: the buffer becomes the
      source followed by NUL to its end. */
  lemma WcsncpyWholeBuffer(dst: seq<WChar>, src: seq<WChar>)
    requires CStrLen(src) == |src| < |dst|
    ensures Wcsncpy(dst, src, |dst|) == src + Zeros(|dst| - |src|)
  {
    WcsncpyTerminated(dst, src, |dst|);
    assert src[..|src|] == src;
    assert dst[|dst|..] == [];
  }

  /** The contents of a buffer `dst` after `memcpy(dst, src, len)`. */
  function Memcpy(dst: seq<Byte>, src: seq<Byte>, len: nat): (r: seq<Byte>)
    requires len <= |dst| && len <= |src|
    ensures |r| == |dst|
    ensures forall i :: 0 <= i < |r| ==> r[i] == if i < len then src[i] else dst[i]
  {
    src[..len] + dst[len..]
  }

  /** Widening of one `char` to one `wchar_t`, as `std::wstring(first, last)`
      does unit by unit (the byte read as unsigned). */
  function Widen(b: Byte): (c: WChar)
    ensures c == 0 <==> b == 0
  {
    b
  }

  lemma WidenInjective(a: Byte, b: Byte)
    requires Widen(a) == Widen(b)
    ensures a == b
  {
  }

  /** `std::wstring(s.begin(), s.end())`: the same units, each widened. */
  function WidenString(s: seq<Byte>): (w: seq<WChar>)
    ensures |w| == |s|
    ensures forall i :: 0 <= i < |s| ==> w[i] == Widen(s[i])
  {
    if s == [] then [] else [Widen(s[0])] + WidenString(s[1..])
  }

  /** Widening keeps the NUL-terminated prefix: the wide string ends where the
      narrow one did. */
  lemma {:induction false} WidenKeepsCStrLen(s: seq<Byte>)
    ensures CStrLen(WidenString(s)) == CStrLen(s)
  {
    if s != [] && s[0] != 0 {
      WidenKeepsCStrLen(s[1..]);
      assert WidenString(s)[1..] == WidenString(s[1..]);
    }
  }

  /** The wide literal `L"..."` for a literal of plain characters. */
  function Wide(s: string): seq<WChar> {
    seq(|s|, i requires 0 <= i < |s| => s[i] as int)
  }

  /** `wcsncpy(dst, src, n)` on a buffer. */
  method WcsncpyInto(dst: array<WChar>, src: seq<WChar>, n: nat)
    requires n <= dst.Length
    modifies dst
    ensures dst[..] == Wcsncpy(old(dst[..]), src, n)
  {
    ghost var image := Wcsncpy(dst[..], src, n);
    forall i | 0 <= i < n {
      dst[i] := if i < CStrLen(src) then src[i] else 0;
    }
    assert dst[..] == image by {
      assert forall i :: 0 <= i < dst.Length ==> dst[..][i] == image[i];
    }
  }

  /** `memcpy(dst, src, len)` on a buffer. */
  method MemcpyInto(dst: array<Byte>, src: seq<Byte>, len: nat)
    requires len <= dst.Length && len <= |src|
    modifies dst
    ensures dst[..] == Memcpy(old(dst[..]), src, len)
  {
    forall i | 0 <= i < len {
      dst[i] := src[i];
    }
    assert dst[..] == Memcpy(old(dst[..]), src, len) by {
      assert forall i :: 0 <= i < dst.Length ==> dst[..][i] == Memcpy(old(dst[..]), src, len)[i];
    }
  }
}
