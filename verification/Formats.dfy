/**
 * The formats byte by byte: what the files of the store look like, written out, and the
 * limits as numbers.
 */
module Formats {
  import opened Bytes
  import opened Crc
  import opened Record
  import opened Replay
  import opened Snapshot

  /** The four bytes of a 32-bit number, least significant first. */
  function Four(a: byte, b: byte, c: byte, d: byte): nat {
    a as int + 0x100 * (b as int) + 0x10000 * (c as int) + 0x1000000 * (d as int)
  }

  lemma FourBytes(n: nat, a: byte, b: byte, c: byte, d: byte)
    requires n == Four(a, b, c, d)
    ensures LE(n, 4) == [a, b, c, d]
  {
    Divided(n, a as int, Four(b, c, d, 0));
    Divided(Four(b, c, d, 0), b as int, Four(c, d, 0, 0));
    Divided(Four(c, d, 0, 0), c as int, Four(d, 0, 0, 0));
    Divided(Four(d, 0, 0, 0), d as int, 0);
    assert LE(Four(d, 0, 0, 0), 1) == [d] + LE(0, 0);
    assert LE(Four(c, d, 0, 0), 2) == [c] + LE(Four(d, 0, 0, 0), 1);
    assert LE(Four(b, c, d, 0), 3) == [b] + LE(Four(c, d, 0, 0), 2);
    assert LE(n, 4) == [a] + LE(Four(b, c, d, 0), 3);
  }

  lemma Divided(n: nat, low: int, high: nat)
    requires 0 <= low < 256 && n == low + 256 * high
    ensures n % 256 == low && n / 256 == high
  {
  }

  lemma {:induction false} ZeroTail(n: nat, width: nat, rest: nat)
    requires n < Pow256(width)
    ensures LE(n, width + rest) == LE(n, width) + LE(0, rest)
    decreases width
  {
    if width == 0 {
      assert LE(n, 0) + LE(0, rest) == LE(0, rest);
    } else {
      ZeroTail(n / 256, width - 1, rest);
      var low, m := [(n % 256) as byte], LE(n / 256, width - 1);
      assert (low + m) + LE(0, rest) == low + (m + LE(0, rest));
    }
  }

  lemma FourFit(a: byte, b: byte, c: byte, d: byte)
    ensures Four(a, b, c, d) < U32_LIMIT
  {
  }

  lemma EightBytes(n: nat, a: byte, b: byte, c: byte, d: byte)
    requires n == Four(a, b, c, d)
    ensures LE(n, 8) == [a, b, c, d, 0, 0, 0, 0]
  {
    hide LE, Pow256, Four;
    FourFit(a, b, c, d);
    WidthLimits();
    ZeroTail(n, 4, 4);
    FourBytes(n, a, b, c, d);
    NoBytes();
  }

  lemma NoBytes()
    ensures LE(0, 4) == [0, 0, 0, 0]
  {
    FourBytes(0, 0, 0, 0, 0);
  }

  // ------------------------------------------------------------ the log

  /** The header: magic, version 3, byte-order marker, generation; then its checksum. */
  lemma HeaderBytes(a: byte, b: byte, c: byte, d: byte)
    ensures HeaderBody(Four(a, b, c, d))
            == [0x4B, 0x56, 0x57, 0x33, 3, 0, 0, 0, 4, 3, 2, 1, a, b, c, d, 0, 0, 0, 0]
    ensures Header(Four(a, b, c, d)) == HeaderBody(Four(a, b, c, d)) + LE(Crc32(HeaderBody(Four(a, b, c, d))), 4)
  {
    hide LE, Crc32;
    FourBytes(3, 3, 0, 0, 0);
    FourBytes(0x01020304, 4, 3, 2, 1);
    EightBytes(Four(a, b, c, d), a, b, c, d);
  }

  /** The record of a Set: sequence, 1, key length, key, value length, value. */
  lemma SetBytes(s: byte, k: byte, v: byte, w: byte)
    ensures RecordBytes(s as int, Set([k], [v, w]))
            == [s, 0, 0, 0, 0, 0, 0, 0, 1, 1, 0, 0, 0, k, 2, 0, 0, 0, v, w]
  {
    hide LE;
    EightBytes(s as int, s, 0, 0, 0);
    FourBytes(1, 1, 0, 0, 0);
    FourBytes(2, 2, 0, 0, 0);
  }

  /** The record of a Delete: sequence, 2, key length, key. */
  lemma DeleteBytes(s: byte, k: byte)
    ensures RecordBytes(s as int, Delete([k])) == [s, 0, 0, 0, 0, 0, 0, 0, 2, 1, 0, 0, 0, k]
  {
    hide LE;
    EightBytes(s as int, s, 0, 0, 0);
    FourBytes(1, 1, 0, 0, 0);
  }

  /** A frame: the length of the record, its checksum, the record. */
  lemma FrameBytes(s: byte, k: byte)
    ensures var record := RecordBytes(s as int, Delete([k]));
            Frame(s as int, Delete([k])) == [14, 0, 0, 0] + LE(Crc32(record), 4) + record
  {
    hide LE, Crc32;
    DeleteBytes(s, k);
    FourBytes(14, 14, 0, 0, 0);
  }

  // ------------------------------------------------------------ the snapshot

  /** A snapshot of one entry: magic, version 1, offset, count, and the entry. */
  lemma OneEntryBytes(a: byte, b: byte, c: byte, d: byte, k: byte, v: byte)
    ensures SnapshotBytes([([k], [v])], Four(a, b, c, d))
            == [0x4B, 0x56, 0x53, 0x31, 1, 0, 0, 0, a, b, c, d, 0, 0, 0, 0, 1, 0, 0, 0, 1, 0, 0, 0, k, 1, 0, 0, 0, v]
  {
    hide LE;
    FourBytes(0x3153564B, 0x4B, 0x56, 0x53, 0x31);
    FourBytes(1, 1, 0, 0, 0);
    EightBytes(Four(a, b, c, d), a, b, c, d);
    assert [([k], [v])][1..] == [];
    assert EntriesBytes([([k], [v])]) == EntryBytes(([k], [v])) + EntriesBytes([]);
  }

  // ------------------------------------------------------------ limits

  /** The log accepts records of up to 64 MiB, the sequence included. */
  lemma RecordLimit(op: Op)
    ensures Bounded(op) <==> 13 + |op.key| + (if op.Set? then 4 + |op.value| else 0) <= 67108864
  {
    PayloadSize(op);
  }

  /** A snapshot is loaded with fields of up to 64 MiB, and saved with fields below 4 GiB. */
  lemma FieldLimits(k: Key, v: Value)
    ensures EntryFits((k, v)) <==> |k| <= 67108864 && |v| <= 67108864
    ensures Encodable((k, v)) <==> |k| < 4294967296 && |v| < 4294967296
  {
  }
}
