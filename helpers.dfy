/**
  Byte-level helpers shared by every section codec of a WAD file: the byte
  types, the error kinds, 64-byte alignment and zero padding, bounds-checked
  slices, and the big-endian and host-order views of fixed-width integers.
 */
module Helpers {

  /** An unsigned 8-bit value (the Swift `byte` alias of `UInt8`). */
  type byte = b: int | 0 <= b < 256

  type Bytes = seq<byte>

  /**
    The in-memory bytes of a `u16`, `u32` or `u64` field. A field loaded from
    a file with an unaligned host-order load holds exactly the file's bytes, and
    storing it back with `withUnsafeBytes` writes the same bytes again, so the
    codecs keep such fields as raw byte groups.
   */
  type Raw16 = s: Bytes | |s| == 2 witness [0, 0]
  type Raw32 = s: Bytes | |s| == 4 witness [0, 0, 0, 0]
  type Raw64 = s: Bytes | |s| == 8 witness [0, 0, 0, 0, 0, 0, 0, 0]

  datatype Option<T> = None | Some(value: T)

  /** Why the Swift program would stop at run time instead of returning, or reads memory it does not own. */
  datatype TrapReason =
    | ReadPastEnd         // a slice past the end, or an unchecked load or `Data(bytes:count:)` past the end,
                          // which is undefined behaviour and is taken here as stopping the program
    | EmptyRange          // the closed range `1...0`
    | ShortCipherOutput   // indexing a cipher output shorter than 16 bytes
    | ArithmeticOverflow  // a checked `UInt32`/`UInt64` operation overflowed
    | IndexOutOfRange     // an array subscript past the end

  /** The library's `Errors` enum, plus the cipher's own failure and the traps. */
  datatype Error =
    | MismatchingSHA1
    | MismatchingHeaderSize
    | IncorrectFileSize
    | CipherFailure
    | Trap(reason: TrapReason)

  datatype Result<T> = Ok(value: T) | Err(error: Error) {
    predicate IsFailure() {
      Err?
    }

    function PropagateFailure<U>(): Result<U>
      requires Err?
    {
      Err(error)
    }

    function Extract(): T
      requires Ok?
    {
      value
    }
  }

  const ALIGNMENT := 64

  /** The number of zero bytes that bring `size` up to the next 64-byte boundary. */
  function GetPadding(size: nat): (r: nat)
    ensures r < ALIGNMENT
    ensures (size + r) % ALIGNMENT == 0
    ensures r == 0 <==> size % ALIGNMENT == 0
  {
    if size == 0 then
      0
    else
      var leftover := size % ALIGNMENT;
      if leftover == 0 then 0 else ALIGNMENT - leftover
  }

  /** No smaller amount of padding reaches a boundary: `GetPadding` is the least one. */
  lemma PaddingIsLeast(size: nat, k: nat)
    requires (size + k) % ALIGNMENT == 0
    ensures GetPadding(size) <= k
  {
  }

  /** Aligning an aligned position adds nothing. */
  lemma PaddingIdempotent(n: nat)
    ensures GetPadding(n + GetPadding(n)) == 0
  {
  }

  /** The position `pointer += getPadding(size: pointer)` moves to. */
  function Align(n: nat): (r: nat)
    ensures r % ALIGNMENT == 0
    ensures n <= r < n + ALIGNMENT
    ensures n % ALIGNMENT == 0 ==> r == n
  {
    n + GetPadding(n)
  }

  /** Moving a position by one whole block moves its aligned position by the same block. */
  lemma AlignShift(n: nat)
    ensures Align(n + ALIGNMENT) == Align(n) + ALIGNMENT
  {
    assert (n + ALIGNMENT) % ALIGNMENT == n % ALIGNMENT;
  }

  /** From an aligned position, aligning after `c` more bytes stays put exactly when `c` is zero. */
  lemma AlignStaysPut(a: nat, c: nat)
    requires a % ALIGNMENT == 0
    ensures Align(a + c) == a <==> c == 0
  {
  }

  function Zeros(n: nat): (r: Bytes)
    ensures |r| == n
    ensures forall i | 0 <= i < n :: r[i] == 0
  {
    if n == 0 then [] else Zeros(n - 1) + [0]
  }

  /** What `pad(data:)` returns: the data followed by zeros up to a 64-byte boundary. */
  function Padded(d: Bytes): (r: Bytes)
    ensures |r| == |d| + GetPadding(|d|)
    ensures |r| % ALIGNMENT == 0
    ensures r[..|d|] == d
    ensures forall i | |d| <= i < |r| :: r[i] == 0
  {
    d + Zeros(GetPadding(|d|))
  }

  /** `pad(data:)`: copies the data and appends one zero at a time. */
  method Pad(data: Bytes) returns (paddedData: Bytes)
    ensures paddedData == Padded(data)
  {
    paddedData := data;
    var paddedSize := GetPadding(|data|);
    var count := |paddedData|;
    for i := count to paddedSize + count
      invariant paddedData == data + Zeros(i - count)
    {
      paddedData := paddedData + [0];
    }
  }

  /**
    `readBytes(_:length:at:)` and `readData(_:length:at:)`: the `length` bytes
    at `position`. `Data.subdata(in:)` traps on a range past the end, so the
    caller must keep the read in bounds.
   */
  function ReadBytes(data: Bytes, length: nat, position: nat): (r: Bytes)
    requires position + length <= |data|
    ensures |r| == length
    ensures forall i | 0 <= i < length :: r[i] == data[position + i]
  {
    data[position..position + length]
  }

  /** Two adjacent slices of one buffer make up the slice that spans both. */
  lemma AdjacentSlices(s: Bytes, i: nat, j: nat, k: nat)
    requires i <= j <= k <= |s|
    ensures s[i..j] + s[j..k] == s[i..k]
  {
    assert |s[i..j] + s[j..k]| == |s[i..k]|;
    forall n | 0 <= n < k - i
      ensures (s[i..j] + s[j..k])[n] == s[i..k][n]
    {
      if n < j - i {
        assert (s[i..j] + s[j..k])[n] == s[i + n];
      } else {
        assert (s[i..j] + s[j..k])[n] == s[j..k][n - (j - i)] == s[i + n];
      }
    }
  }

  function Pow256(n: nat): (r: nat)
    ensures r >= 1
  {
    if n == 0 then 1 else 256 * Pow256(n - 1)
  }

  /** The unsigned number whose big-endian encoding is `bs`; what `.bigEndian` yields for a loaded field. */
  function BigEndian(bs: Bytes): (v: nat)
    ensures v < Pow256(|bs|)
  {
    if bs == [] then 0 else BigEndian(bs[..|bs| - 1]) * 256 + bs[|bs| - 1]
  }

  /** The `width`-byte big-endian encoding of `v`. */
  function BigEndianBytes(v: nat, width: nat): (bs: Bytes)
    requires v < Pow256(width)
    ensures |bs| == width
    ensures BigEndian(bs) == v
  {
    if width == 0 then
      []
    else
      var bs := BigEndianBytes(v / 256, width - 1) + [v % 256];
      assert bs[..|bs| - 1] == BigEndianBytes(v / 256, width - 1);
      bs
  }

  /** Big-endian decoding is injective on each width: encoding the decoded value gives the bytes back. */
  lemma {:induction false} BigEndianRoundTrip(bs: Bytes)
    ensures BigEndianBytes(BigEndian(bs), |bs|) == bs
  {
    if bs != [] {
      var init := bs[..|bs| - 1];
      BigEndianRoundTrip(init);
      var v := BigEndian(bs);
      assert v / 256 == BigEndian(init);
      assert v % 256 == bs[|bs| - 1];
      assert bs == init + [bs[|bs| - 1]];
    }
  }

  function Reverse(s: Bytes): (r: Bytes)
    ensures |r| == |s|
    ensures forall i | 0 <= i < |s| :: r[i] == s[|s| - 1 - i]
  {
    if s == [] then [] else [s[|s| - 1]] + Reverse(s[..|s| - 1])
  }

  lemma ReverseReverse(s: Bytes)
    ensures Reverse(Reverse(s)) == s
  {
  }

  /**
    The bytes `withUnsafeBytes(of:)` gives for a `width`-byte number on the
    little-endian hosts the package targets.
   */
  function HostBytes(v: nat, width: nat): (bs: Bytes)
    requires v < Pow256(width)
    ensures |bs| == width
  {
    Reverse(BigEndianBytes(v, width))
  }

  /** The number a little-endian host loads from the bytes `bs`. */
  function HostValue(bs: Bytes): (v: nat)
    ensures v < Pow256(|bs|)
  {
    BigEndian(Reverse(bs))
  }

  /** Storing `.bigEndian` of a loaded field in host order writes its bytes reversed. */
  lemma HostBytesOfBigEndian(raw: Bytes)
    ensures HostBytes(BigEndian(raw), |raw|) == Reverse(raw)
  {
    BigEndianRoundTrip(raw);
  }

  /** Storing `.bigEndian` of a number in host order writes its big-endian encoding. */
  lemma HostBytesReversed(v: nat, width: nat)
    requires v < Pow256(width)
    ensures Reverse(HostBytes(v, width)) == BigEndianBytes(v, width)
    ensures HostValue(HostBytes(v, width)) == v
  {
    ReverseReverse(BigEndianBytes(v, width));
  }

  /** The big-endian encoding of a number below 256 is zeros and then that byte. */
  lemma {:induction false} BigEndianBytesOfByte(b: byte, width: nat)
    requires width >= 1
    ensures BigEndianBytes(b, width) == Zeros(width - 1) + [b]
  {
    if width > 1 {
      assert b / 256 == 0 && b % 256 == b;
      BigEndianBytesOfByte(0, width - 1);
    }
  }

  /** A byte followed by `k` zero bytes is that byte scaled by 256 to the `k`. */
  lemma {:induction false} BigEndianOfLeadingByte(b: byte, k: nat)
    ensures BigEndian([b] + Zeros(k)) == b * Pow256(k)
  {
    if k > 0 {
      var s := [b] + Zeros(k);
      assert s[..|s| - 1] == [b] + Zeros(k - 1);
      BigEndianOfLeadingByte(b, k - 1);
    }
  }

  /** The `WADType` enum. */
  datatype WadType = WadTypeCommon | WadTypeBoot | WadTypeUnknown

  /** The raw values as the enum declares them; `0x426b000` has only seven hex digits. */
  function WadTypeRawValueAsWritten(t: WadType): (v: nat)
    ensures v < Pow256(4)
  {
    match t
    case WadTypeCommon => 0x4973_0000
    case WadTypeBoot => 0x6962_0000
    case WadTypeUnknown => 0x426_b000
  }

  /** The raw values with the 'Bk' tag spelt out: every type tag is two ASCII letters and two zero bytes. */
  function WadTypeRawValue(t: WadType): (v: nat)
    ensures v < Pow256(4)
  {
    match t
    case WadTypeCommon => 0x4973_0000
    case WadTypeBoot => 0x6962_0000
    case WadTypeUnknown => 0x426b_0000
  }

  predicate IsAsciiLetter(b: byte) {
    ('A' as int <= b <= 'Z' as int) || ('a' as int <= b <= 'z' as int)
  }

  /** The big-endian bytes of a four-byte value, one by one. */
  lemma BigEndianBytes4(v: nat)
    requires v < Pow256(4)
    ensures BigEndianBytes(v, 4) == [v / 0x100_0000, (v / 0x1_0000) % 256, (v / 256) % 256, v % 256]
  {
    var v1, v2, v3 := v / 256, v / 0x1_0000, v / 0x100_0000;
    assert v1 / 256 == v2 && v2 / 256 == v3 && v3 / 256 == 0 && v3 % 256 == v3;
    assert BigEndianBytes(v3, 1) == BigEndianBytes(0, 0) + [v3];
    assert BigEndianBytes(v2, 2) == BigEndianBytes(v3, 1) + [v2 % 256];
    assert BigEndianBytes(v1, 3) == BigEndianBytes(v2, 2) + [v1 % 256];
    assert BigEndianBytes(v, 4) == BigEndianBytes(v1, 3) + [v % 256];
  }

  /** Each corrected `WADType` tag is written as two ASCII letters followed by two zero bytes. */
  lemma WadTypeTagsAreTwoLetters(t: WadType)
    ensures var b := BigEndianBytes(WadTypeRawValue(t), 4);
      IsAsciiLetter(b[0]) && IsAsciiLetter(b[1]) && b[2] == 0 && b[3] == 0
  {
    BigEndianBytes4(WadTypeRawValue(t));
  }

  /** With the seven-digit constant, `WadTypeUnknown` is written as 04 26 B0 00, which is not a two-letter tag. */
  lemma WadTypeUnknownAsWrittenIsNotATag()
    ensures BigEndianBytes(WadTypeRawValueAsWritten(WadTypeUnknown), 4) == [0x04, 0x26, 0xB0, 0x00]
    ensures !IsAsciiLetter(BigEndianBytes(WadTypeRawValueAsWritten(WadTypeUnknown), 4)[0])
    ensures WadTypeRawValueAsWritten(WadTypeUnknown) != WadTypeRawValue(WadTypeUnknown)
  {
    BigEndianBytes4(WadTypeRawValueAsWritten(WadTypeUnknown));
  }
}
