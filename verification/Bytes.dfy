/**
 * Fixed-width little-endian fields and the bounded cursor reads that the log
 * and snapshot formats share.
 */
module Bytes {

  newtype byte = x: int | 0 <= x < 256

  const U32_LIMIT: nat := 0x1_0000_0000
  const U64_LIMIT: nat := 0x1_0000_0000_0000_0000

  /** The `width` low-order bytes of `n`, least significant first. */
  function LE(n: nat, width: nat): (s: seq<byte>)
    ensures |s| == width
  {
    if width == 0 then [] else [(n % 256) as byte] + LE(n / 256, width - 1)
  }

  /** The number whose little-endian bytes are `s`. */
  function FromLE(s: seq<byte>): nat {
    if s == [] then 0 else s[0] as int + 256 * FromLE(s[1..])
  }

  function Pow256(width: nat): nat {
    if width == 0 then 1 else 256 * Pow256(width - 1)
  }

  lemma {:induction false} DecodeEncode(n: nat, width: nat)
    requires n < Pow256(width)
    ensures FromLE(LE(n, width)) == n
  {
    if width > 0 {
      DecodeEncode(n / 256, width - 1);
    }
  }

  lemma {:induction false} EncodeDecode(s: seq<byte>)
    ensures FromLE(s) < Pow256(|s|)
    ensures LE(FromLE(s), |s|) == s
  {
    if s != [] {
      EncodeDecode(s[1..]);
      LowByte(s[0] as int, FromLE(s[1..]));
    }
  }

  lemma LowByte(b: int, n: nat)
    requires 0 <= b < 256
    ensures (b + 256 * n) % 256 == b && (b + 256 * n) / 256 == n
  {
  }

  lemma WidthLimits()
    ensures Pow256(4) == U32_LIMIT
    ensures Pow256(8) == U64_LIMIT
  {
    assert Pow256(8) == 256 * 256 * 256 * 256 * Pow256(4);
  }

  /** Every four-byte field is below 2^32 and is the encoding of its value. */
  lemma Field32(s: seq<byte>)
    requires |s| == 4
    ensures FromLE(s) < U32_LIMIT
    ensures LE(FromLE(s), 4) == s
  {
    EncodeDecode(s);
    WidthLimits();
  }

  /** Every eight-byte field is below 2^64 and is the encoding of its value. */
  lemma Field64(s: seq<byte>)
    requires |s| == 8
    ensures FromLE(s) < U64_LIMIT
    ensures LE(FromLE(s), 8) == s
  {
    EncodeDecode(s);
    WidthLimits();
  }

  lemma Encoded32(n: nat)
    requires n < U32_LIMIT
    ensures FromLE(LE(n, 4)) == n
  {
    WidthLimits();
    DecodeEncode(n, 4);
  }

  lemma Encoded64(n: nat)
    requires n < U64_LIMIT
    ensures FromLE(LE(n, 8)) == n
  {
    WidthLimits();
    DecodeEncode(n, 8);
  }

  lemma {:induction false} FromLEAppend(s: seq<byte>, b: byte)
    ensures FromLE(s + [b]) == FromLE(s) + Pow256(|s|) * b as int
  {
    if s == [] {
      assert FromLE([b]) == b as int + 256 * FromLE([]);
    } else {
      assert (s + [b])[1..] == s[1..] + [b];
      FromLEAppend(s[1..], b);
      var weight := Pow256(|s| - 1);
      assert 256 * (weight * b as int) == (256 * weight) * b as int;
    }
  }

  /** Appends a little-endian field to a growing buffer. */
  method AppendLE(bytes: seq<byte>, value: nat, width: nat) returns (out: seq<byte>)
    ensures out == bytes + LE(value, width)
  {
    out := bytes;
    var rest := value;
    for i := 0 to width
      invariant out + LE(rest, width - i) == bytes + LE(value, width)
    {
      out := out + [(rest % 256) as byte];
      rest := rest / 256;
    }
  }

  /** Overwrites `width` bytes of a frame in place with a little-endian field. */
  method PatchLE(frame: array<byte>, at: nat, value: nat, width: nat)
    requires at + width <= frame.Length
    modifies frame
    ensures frame[..] == old(frame[..at]) + LE(value, width) + old(frame[at + width..])
  {
    hide LE;
    var rest := value;
    ghost var field, was := LE(value, width), frame[..];
    assert was == was[..at] + field[..0] + was[at..];
    for i := 0 to width
      invariant |field| == width && LE(rest, width - i) == field[i..]
      invariant frame[..] == was[..at] + field[..i] + was[at + i..]
    {
      OneMoreByte(rest, width - i);
      OneMorePatched(was, at, field, i);
      frame[at + i] := (rest % 256) as byte;
      rest := rest / 256;
    }
    assert field[..width] == field;
  }

  lemma OneMorePatched(was: seq<byte>, at: nat, field: seq<byte>, i: nat)
    requires i < |field| && at + |field| <= |was|
    ensures (was[..at] + field[..i] + was[at + i..])[at + i := field[i]] == was[..at] + field[..i + 1] + was[at + i + 1..]
  {
  }

  lemma OneMoreByte(n: nat, width: nat)
    ensures LE(n, width) == if width == 0 then [] else [(n % 256) as byte] + LE(n / 256, width - 1)
  {
  }

  /** Reads one little-endian field; the cursor moves only when the whole field is there. */
  method ConsumeLE(bytes: seq<byte>, offset: nat, width: nat) returns (ok: bool, next: nat, value: nat)
    ensures ok == (offset + width <= |bytes|)
    ensures next == if ok then offset + width else offset
    ensures ok ==> value == FromLE(bytes[offset..next])
  {
    if offset > |bytes| || |bytes| - offset < width {
      return false, offset, 0;
    }
    value := 0;
    var weight := 1;
    for i := 0 to width
      invariant weight == Pow256(i)
      invariant value == FromLE(bytes[offset..offset + i])
    {
      FromLEAppend(bytes[offset..offset + i], bytes[offset + i]);
      assert bytes[offset..offset + i + 1] == bytes[offset..offset + i] + [bytes[offset + i]];
      value := value + weight * bytes[offset + i] as int;
      weight := 256 * weight;
    }
    return true, offset + width, value;
  }

  /** Reads a run of raw bytes under the same cursor discipline. */
  method ConsumeBytes(bytes: seq<byte>, offset: nat, size: nat) returns (ok: bool, next: nat, value: seq<byte>)
    ensures ok == (offset + size <= |bytes|)
    ensures next == if ok then offset + size else offset
    ensures ok ==> value == bytes[offset..next]
  {
    if offset > |bytes| || |bytes| - offset < size {
      return false, offset, [];
    }
    return true, offset + size, bytes[offset..offset + size];
  }

  /** Peels the leading part off a concatenation that starts at `at`. */
  lemma Peel(file: seq<byte>, at: nat, part: seq<byte>, rest: seq<byte>)
    requires at <= |file| && file[at..] == part + rest
    ensures at + |part| <= |file|
    ensures file[at..at + |part|] == part
    ensures file[at + |part|..] == rest
  {
    assert |file[at..]| == |file| - at;
    assert file[at..at + |part|] == file[at..][..|part|];
    assert file[at + |part|..] == file[at..][|part|..];
  }

  /** What is left of two parts written one after the other when the file ends somewhere in them. */
  lemma PeelCut(file: seq<byte>, at: nat, part: seq<byte>, rest: seq<byte>)
    requires at <= |file| <= at + |part| + |rest| && file[at..] == (part + rest)[..|file| - at]
    ensures |file| < at + |part| ==> file[at..] == part[..|file| - at]
    ensures |file| >= at + |part| ==>
              file[at..at + |part|] == part && file[at + |part|..] == rest[..|file| - at - |part|]
  {
    var cut := |file| - at;
    if cut >= |part| {
      assert (part + rest)[..cut] == part + rest[..cut - |part|];
      Peel(file, at, part, rest[..cut - |part|]);
    } else {
      assert (part + rest)[..cut] == part[..cut];
    }
  }

  lemma SliceOfSlice(s: seq<byte>, i: nat, j: nat, a: nat, b: nat)
    requires i <= j <= |s| && a <= b <= j - i
    ensures s[i..j][a..b] == s[i + a..i + b]
  {
    var x, y := s[i..j][a..b], s[i + a..i + b];
    assert |x| == |y| && forall k :: 0 <= k < |x| ==> x[k] == y[k];
  }
}
