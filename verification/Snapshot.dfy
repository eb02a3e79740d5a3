/**
 * The snapshot file: its format, loading of arbitrary bytes, and publication
 * by writing a temporary file and renaming it. Fields are native-endian in the
 * source; the model takes a little-endian host.
 */
module Snapshot {
  import opened Bytes
  import opened Record

  const SNAPSHOT_MAGIC: nat := 0x3153564B
  const SNAPSHOT_VERSION: nat := 1
  const MAX_FIELD: nat := 64 * 1024 * 1024
  const METADATA_LENGTH: nat := 20

  type Entry = (Key, Value)

  // ------------------------------------------------------------ printing

  function EntryBytes(e: Entry): seq<byte> {
    LE(|e.0|, 4) + (e.0 + (LE(|e.1|, 4) + e.1))
  }

  function EntriesBytes(es: seq<Entry>): seq<byte> {
    if es == [] then [] else EntryBytes(es[0]) + EntriesBytes(es[1..])
  }

  function Metadata(offset: nat, count: nat): seq<byte> {
    LE(SNAPSHOT_MAGIC, 4) + (LE(SNAPSHOT_VERSION, 4) + (LE(offset, 8) + LE(count, 4)))
  }

  function SnapshotBytes(es: seq<Entry>, offset: nat): seq<byte> {
    Metadata(offset, |es|) + EntriesBytes(es)
  }

  /** The map an entry list builds, later entries winning. */
  function MapOf(store: Store, es: seq<Entry>): Store
    decreases es
  {
    if es == [] then store else MapOf(store[es[0].0 := es[0].1], es[1..])
  }

  /** `es` is one iteration order of `store`: as many entries as the map has, building the map. */
  predicate Enumerates(es: seq<Entry>, store: Store) {
    MapOf(map[], es) == store && |es| == |store|
  }

  predicate FieldFits(s: seq<byte>) { |s| <= MAX_FIELD }

  /** Both fields can be encoded in 32 bits, as saving demands. */
  predicate Encodable(e: Entry) { |e.0| < U32_LIMIT && |e.1| < U32_LIMIT }

  predicate AllEncodable(es: seq<Entry>) { forall i :: 0 <= i < |es| ==> Encodable(es[i]) }

  /** Both fields are within what loading accepts. */
  predicate EntryFits(e: Entry) { FieldFits(e.0) && FieldFits(e.1) }

  predicate AllFit(es: seq<Entry>) { forall i :: 0 <= i < |es| ==> EntryFits(es[i]) }

  // ------------------------------------------------------------ loading

  datatype FieldRead = NoField | Field(bytes: seq<byte>, next: nat)

  /** A length-prefixed field; short and oversized fields both end the load. */
  function ReadField(file: seq<byte>, pos: nat): (r: FieldRead)
    ensures r.Field? ==> pos + 4 <= r.next <= |file|
  {
    if |file| < pos + 4 then NoField
    else
      var size := FromLE(file[pos..pos + 4]);
      if size > MAX_FIELD || |file| < pos + 4 + size then NoField
      else Field(file[pos + 4..pos + 4 + size], pos + 4 + size)
  }

  function ReadEntries(file: seq<byte>, pos: nat, count: nat, store: Store): Outcome<Store>
    decreases count
  {
    if count == 0 then Ok(store)
    else
      var k := ReadField(file, pos);
      if k.NoField? then Threw
      else
        var v := ReadField(file, k.next);
        if v.NoField? then Threw
        else ReadEntries(file, v.next, count - 1, store[k.bytes := v.bytes])
  }

  datatype LoadResult = NotLoaded | LoadThrew | Loaded(store: Store, count: nat, offset: nat)

  /** Loading arbitrary bytes. A file that does not start with the magic is a legacy snapshot. */
  function LoadOf(file: seq<byte>): LoadResult {
    if |file| < 4 then NotLoaded
    else
      var first := FromLE(file[..4]);
      if first == SNAPSHOT_MAGIC then
        if |file| < METADATA_LENGTH || FromLE(file[4..8]) != SNAPSHOT_VERSION then LoadThrew
        else
          var count := FromLE(file[16..20]);
          match ReadEntries(file, METADATA_LENGTH, count, map[])
          case Threw => LoadThrew
          case Ok(store) => Loaded(store, count, FromLE(file[8..16]))
      else
        match ReadEntries(file, 4, first, map[])
        case Threw => LoadThrew
        case Ok(store) => Loaded(store, first, 0)
  }

  // ------------------------------------------------------------ reading back what was saved

  lemma FieldReadsBack(file: seq<byte>, pos: nat, field: seq<byte>, rest: seq<byte>)
    requires pos <= |file| && |field| < U32_LIMIT
    requires file[pos..] == LE(|field|, 4) + (field + rest)
    ensures ReadField(file, pos) == if FieldFits(field) then Field(field, pos + 4 + |field|) else NoField
    ensures pos + 4 + |field| <= |file| && file[pos + 4 + |field|..] == rest
  {
    hide LE, FromLE, ReadField, FieldFits;
    var all := LE(|field|, 4) + (field + rest);
    assert |all| == |file| - pos && all[..|all|] == all;
    FieldCut(file, pos, field, rest);
    assert rest[..|rest|] == rest;
  }

  /** A field in a file that may end inside it, or later: cut short it is not read. */
  lemma FieldCut(file: seq<byte>, pos: nat, field: seq<byte>, rest: seq<byte>)
    requires pos <= |file| <= pos + 4 + |field| + |rest| && |field| < U32_LIMIT
    requires file[pos..] == (LE(|field|, 4) + (field + rest))[..|file| - pos]
    ensures var end := pos + 4 + |field|;
            if |file| < end then ReadField(file, pos) == NoField
            else && ReadField(file, pos) == (if FieldFits(field) then Field(field, end) else NoField)
                 && file[end..] == rest[..|file| - end]
  {
    hide *;
    LengthCut(file, pos, field, rest);
    if |file| >= pos + 4 { BodyCut(file, pos + 4, field, rest); }
    FieldFound(file, pos, field);
  }

  lemma LengthCut(file: seq<byte>, pos: nat, field: seq<byte>, rest: seq<byte>)
    requires pos <= |file| <= pos + 4 + |field| + |rest| && |field| < U32_LIMIT
    requires file[pos..] == (LE(|field|, 4) + (field + rest))[..|file| - pos]
    ensures |file| >= pos + 4 ==>
              FromLE(file[pos..pos + 4]) == |field| && file[pos + 4..] == (field + rest)[..|file| - pos - 4]
  {
    hide *;
    Encoded32(|field|);
    PeelCut(file, pos, LE(|field|, 4), field + rest);
  }

  lemma BodyCut(file: seq<byte>, at: nat, field: seq<byte>, rest: seq<byte>)
    requires at <= |file| <= at + |field| + |rest| && file[at..] == (field + rest)[..|file| - at]
    ensures |file| >= at + |field| ==>
              file[at..at + |field|] == field && file[at + |field|..] == rest[..|file| - at - |field|]
  {
    hide *;
    PeelCut(file, at, field, rest);
  }

  lemma FieldFound(file: seq<byte>, pos: nat, field: seq<byte>)
    requires |file| >= pos + 4 ==> FromLE(file[pos..pos + 4]) == |field|
    requires |file| >= pos + 4 + |field| ==> file[pos + 4..pos + 4 + |field|] == field
    ensures ReadField(file, pos)
            == if |file| >= pos + 4 + |field| && FieldFits(field) then Field(field, pos + 4 + |field|) else NoField
  {
    hide FromLE;
  }

  lemma {:induction false} EntriesReadBack(file: seq<byte>, pos: nat, es: seq<Entry>, store: Store)
    requires pos <= |file| && file[pos..] == EntriesBytes(es) && AllEncodable(es)
    ensures ReadEntries(file, pos, |es|, store) == if AllFit(es) then Ok(MapOf(store, es)) else Threw
    decreases es
  {
    hide ReadField, LE;
    if es != [] {
      var (k, v) := es[0];
      var rest := EntriesBytes(es[1..]);
      assert Encodable(es[0]);
      RegroupEntry(k, v, rest);
      FieldReadsBack(file, pos, k, LE(|v|, 4) + (v + rest));
      FieldReadsBack(file, pos + 4 + |k|, v, rest);
      assert forall i :: 0 <= i < |es[1..]| ==> es[1..][i] == es[i + 1];
      EntriesReadBack(file, pos + 8 + |k| + |v|, es[1..], store[k := v]);
      FitSplits(es);
    }
  }

  lemma FitSplits(es: seq<Entry>)
    requires es != []
    ensures AllFit(es) <==> EntryFits(es[0]) && AllFit(es[1..])
  {
    assert forall i :: 0 <= i < |es[1..]| ==> es[1..][i] == es[i + 1];
    if EntryFits(es[0]) && AllFit(es[1..]) {
      assert forall i :: 0 < i < |es| ==> es[i] == es[1..][i - 1];
    }
  }

  lemma RegroupEntry(k: Key, v: Value, rest: seq<byte>)
    ensures EntryBytes((k, v)) + rest == LE(|k|, 4) + (k + (LE(|v|, 4) + (v + rest)))
  {
    hide LE;
    var a, b := LE(|k|, 4), LE(|v|, 4);
    assert (a + (k + (b + v))) + rest == a + ((k + (b + v)) + rest);
    assert (k + (b + v)) + rest == k + ((b + v) + rest);
    assert (b + v) + rest == b + (v + rest);
  }

  lemma {:induction false} EntriesTorn(file: seq<byte>, pos: nat, es: seq<Entry>, store: Store)
    requires pos <= |file| < pos + |EntriesBytes(es)| && AllEncodable(es)
    requires file[pos..] == EntriesBytes(es)[..|file| - pos]
    ensures ReadEntries(file, pos, |es|, store) == Threw
    decreases es
  {
    hide ReadField, LE, FieldFits;
    var (k, v) := es[0];
    var rest := EntriesBytes(es[1..]);
    assert Encodable(es[0]);
    RegroupEntry(k, v, rest);
    FieldCut(file, pos, k, LE(|v|, 4) + (v + rest));
    if |file| >= pos + 4 + |k| {
      FieldCut(file, pos + 4 + |k|, v, rest);
      if |file| >= pos + 8 + |k| + |v| {
        assert forall i :: 0 <= i < |es[1..]| ==> es[1..][i] == es[i + 1];
        EntriesTorn(file, pos + 8 + |k| + |v|, es[1..], store[k := v]);
      }
    }
  }

  lemma MetadataReadsBack(file: seq<byte>, offset: nat, count: nat, rest: seq<byte>)
    requires offset < U64_LIMIT && count < U32_LIMIT
    requires file == Metadata(offset, count) + rest
    ensures |file| >= METADATA_LENGTH && file[METADATA_LENGTH..] == rest
    ensures FromLE(file[..4]) == SNAPSHOT_MAGIC && FromLE(file[4..8]) == SNAPSHOT_VERSION
    ensures FromLE(file[8..16]) == offset && FromLE(file[16..20]) == count
  {
    hide LE, FromLE;
    var a, b, c, d := LE(SNAPSHOT_MAGIC, 4), LE(SNAPSHOT_VERSION, 4), LE(offset, 8), LE(count, 4);
    assert file[0..] == a + (b + (c + (d + rest)));
    Peel(file, 0, a, b + (c + (d + rest)));
    Peel(file, 4, b, c + (d + rest));
    Peel(file, 8, c, d + rest);
    Peel(file, 16, d, rest);
    Encoded32(SNAPSHOT_MAGIC);
    Encoded32(SNAPSHOT_VERSION);
    Encoded64(offset);
    Encoded32(count);
  }

  /**
   * Loading what was saved, in any iteration order, gives back the map and the
   * offset, exactly when no field is above 64 MiB. Saving itself accepts fields up
   * to 4 GiB, so a snapshot with a larger field is written but can never be loaded.
   */
  lemma LoadSaved(es: seq<Entry>, store: Store, offset: nat)
    requires Enumerates(es, store) && AllEncodable(es) && |es| < U32_LIMIT && offset < U64_LIMIT
    ensures LoadOf(SnapshotBytes(es, offset)) == if AllFit(es) then Loaded(store, |store|, offset) else LoadThrew
  {
    hide LE, FromLE, Metadata, EntriesBytes, ReadEntries;
    var file := SnapshotBytes(es, offset);
    MetadataReadsBack(file, offset, |es|, EntriesBytes(es));
    EntriesReadBack(file, METADATA_LENGTH, es, map[]);
  }

  /**
   * A saved snapshot cut short is never loaded: with fewer than four bytes it is taken to
   * be absent, and cut anywhere after that loading it throws.
   */
  lemma TornSnapshot(es: seq<Entry>, offset: nat, cut: nat)
    requires AllEncodable(es) && |es| < U32_LIMIT && offset < U64_LIMIT
    requires cut < |SnapshotBytes(es, offset)|
    ensures LoadOf(SnapshotBytes(es, offset)[..cut]) == if cut < 4 then NotLoaded else LoadThrew
  {
    hide LE, FromLE, Metadata, EntriesBytes, ReadEntries;
    var all := SnapshotBytes(es, offset);
    var file := all[..cut];
    MetadataReadsBack(all, offset, |es|, EntriesBytes(es));
    if cut >= 4 {
      assert file[..4] == all[..4];
    }
    if cut >= METADATA_LENGTH {
      assert file[4..8] == all[4..8] && file[16..20] == all[16..20];
      assert file[METADATA_LENGTH..] == all[METADATA_LENGTH..][..cut - METADATA_LENGTH];
      EntriesTorn(file, METADATA_LENGTH, es, map[]);
    }
  }

  /** A file that starts with the magic and carries another version throws, whatever follows. */
  lemma OtherVersion(version: nat, rest: seq<byte>)
    requires version < U32_LIMIT && version != 1
    ensures LoadOf(LE(SNAPSHOT_MAGIC, 4) + (LE(version, 4) + rest)) == LoadThrew
  {
    hide LE, FromLE, ReadEntries;
    var file := LE(SNAPSHOT_MAGIC, 4) + (LE(version, 4) + rest);
    assert file[0..] == file;
    Peel(file, 0, LE(SNAPSHOT_MAGIC, 4), LE(version, 4) + rest);
    Peel(file, 4, LE(version, 4), rest);
    assert file[0..4] == file[..4];
    Encoded32(SNAPSHOT_MAGIC);
    Encoded32(version);
  }

  /** Reading as many entries as are announced: the first ones, or a throw if there are fewer. */
  lemma {:induction false} EntriesCounted(file: seq<byte>, pos: nat, es: seq<Entry>, count: nat, store: Store)
    requires pos <= |file| && file[pos..] == EntriesBytes(es) && AllEncodable(es) && AllFit(es)
    ensures ReadEntries(file, pos, count, store)
            == if count <= |es| then Ok(MapOf(store, es[..count])) else Threw
    decreases es
  {
    hide ReadField, LE;
    if count > 0 {
      ReadOneMore(file, pos, count, store);
      if es == [] {
        NothingToRead(file, pos);
      } else {
        var (k, v) := es[0];
        var rest := EntriesBytes(es[1..]);
        assert Encodable(es[0]);
        RegroupEntry(k, v, rest);
        FieldReadsBack(file, pos, k, LE(|v|, 4) + (v + rest));
        FieldReadsBack(file, pos + 4 + |k|, v, rest);
        assert forall i :: 0 <= i < |es[1..]| ==> es[1..][i] == es[i + 1];
        FitSplits(es);
        EntriesCounted(file, pos + 8 + |k| + |v|, es[1..], count - 1, store[k := v]);
        if count <= |es| { assert es[..count][0] == es[0] && es[..count][1..] == es[1..][..count - 1]; }
      }
    }
  }

  lemma NothingToRead(file: seq<byte>, pos: nat)
    requires pos <= |file| && file[pos..] == []
    ensures ReadField(file, pos) == NoField
  {
    assert |file[pos..]| == |file| - pos;
  }

  /**
   * The announced count decides: bytes behind the last announced entry are ignored, and
   * a count larger than the entries that follow throws.
   */
  lemma AnnouncedCount(es: seq<Entry>, offset: nat, count: nat)
    requires AllEncodable(es) && AllFit(es) && count < U32_LIMIT && offset < U64_LIMIT
    ensures LoadOf(Metadata(offset, count) + EntriesBytes(es))
            == if count <= |es| then Loaded(MapOf(map[], es[..count]), count, offset) else LoadThrew
  {
    hide LE, FromLE, Metadata, EntriesBytes, ReadEntries, Encodable, EntryFits;
    var file := Metadata(offset, count) + EntriesBytes(es);
    MetadataReadsBack(file, offset, count, EntriesBytes(es));
    EntriesCounted(file, METADATA_LENGTH, es, count, map[]);
  }

  // ------------------------------------------------------------ snapshots without metadata

  /** The older format: the count and the entries, with no magic, version or offset. */
  function LegacySnapshot(es: seq<Entry>): seq<byte> {
    LE(|es|, 4) + EntriesBytes(es)
  }

  /** It loads as its entries, to be followed by all of the log, exactly if every field is within the load limit. */
  lemma LoadLegacy(es: seq<Entry>)
    requires AllEncodable(es) && |es| < U32_LIMIT && |es| != SNAPSHOT_MAGIC
    ensures LoadOf(LegacySnapshot(es)) == if AllFit(es) then Loaded(MapOf(map[], es), |es|, 0) else LoadThrew
  {
    hide LE, FromLE, EntriesBytes, ReadEntries, Encodable, EntryFits;
    var file := LegacySnapshot(es);
    LegacyCount(es, file);
    EntriesReadBack(file, 4, es, map[]);
  }

  lemma LegacyCount(es: seq<Entry>, file: seq<byte>)
    requires |es| < U32_LIMIT && file == LegacySnapshot(es)
    ensures |file| >= 4 && FromLE(file[..4]) == |es| && file[4..] == EntriesBytes(es)
  {
    hide LE, FromLE, EntriesBytes;
    assert file[0..] == file;
    Peel(file, 0, LE(|es|, 4), EntriesBytes(es));
    assert file[0..4] == file[..4];
    Encoded32(|es|);
  }

  /** Cut short it is absent or throws, like the present format. */
  lemma TornLegacy(es: seq<Entry>, cut: nat)
    requires AllEncodable(es) && |es| < U32_LIMIT && |es| != SNAPSHOT_MAGIC && cut < |LegacySnapshot(es)|
    ensures LoadOf(LegacySnapshot(es)[..cut]) == if cut < 4 then NotLoaded else LoadThrew
  {
    hide LE, FromLE, EntriesBytes, ReadEntries, Encodable;
    var all := LegacySnapshot(es);
    var file := all[..cut];
    LegacyCount(es, all);
    if cut >= 4 {
      assert file[..4] == all[..4];
      assert file[4..] == all[4..][..cut - 4];
      EntriesTorn(file, 4, es, map[]);
    }
  }

  // ------------------------------------------------------------ files that cannot be loaded

  /** The file is a saved snapshot with its end missing. */
  ghost predicate IsTorn(file: seq<byte>) {
    exists es, offset, cut :: CutsSaved(file, es, offset, cut)
  }

  predicate CutsSaved(file: seq<byte>, es: seq<Entry>, offset: nat, cut: nat) {
    && AllEncodable(es) && |es| < U32_LIMIT && offset < U64_LIMIT
    && 4 <= cut < |SnapshotBytes(es, offset)| && file == SnapshotBytes(es, offset)[..cut]
  }

  /** The file starts like a snapshot, with another version than 1. */
  ghost predicate HasOtherVersion(file: seq<byte>) {
    exists version, rest ::
      0 <= version < U32_LIMIT && version != 1 && file == LE(SNAPSHOT_MAGIC, 4) + (LE(version, 4) + rest)
  }

  /** The file is a saved snapshot with a field above 64 MiB. */
  ghost predicate HasLargeField(file: seq<byte>) {
    exists es, offset :: SavesLarge(file, es, offset)
  }

  predicate SavesLarge(file: seq<byte>, es: seq<Entry>, offset: nat) {
    && AllEncodable(es) && |es| < U32_LIMIT && offset < U64_LIMIT && |MapOf(map[], es)| == |es|
    && !AllFit(es) && file == SnapshotBytes(es, offset)
  }

  ghost predicate Damaged(file: seq<byte>) {
    IsTorn(file) || HasOtherVersion(file) || HasLargeField(file)
  }

  lemma DamagedThrows(file: seq<byte>)
    requires Damaged(file)
    ensures LoadOf(file) == LoadThrew
  {
    hide LoadOf, SnapshotBytes, Encodable, EntryFits, MapOf, LE;
    if IsTorn(file) {
      var es, offset, cut :| CutsSaved(file, es, offset, cut);
      TornSnapshot(es, offset, cut);
    } else if HasOtherVersion(file) {
      var version, rest :|
        0 <= version < U32_LIMIT && version != 1 && file == LE(SNAPSHOT_MAGIC, 4) + (LE(version, 4) + rest);
      OtherVersion(version, rest);
    } else {
      var es, offset :| SavesLarge(file, es, offset);
      LoadSaved(es, MapOf(map[], es), offset);
    }
  }

  // ------------------------------------------------------------ saving and loading, as loops

  lemma {:induction false} MapOfAppend(store: Store, es: seq<Entry>, e: Entry)
    ensures MapOf(store, es + [e]) == MapOf(store, es)[e.0 := e.1]
    decreases es
  {
    if es == [] {
      assert MapOf(store, [e]) == MapOf(store[e.0 := e.1], []);
    } else {
      assert (es + [e])[1..] == es[1..] + [e];
      MapOfAppend(store[es[0].0 := es[0].1], es[1..], e);
    }
  }

  lemma {:induction false} EntriesAppend(es: seq<Entry>, e: Entry)
    ensures EntriesBytes(es + [e]) == EntriesBytes(es) + EntryBytes(e)
  {
    hide EntryBytes;
    if es == [] {
      assert EntriesBytes([e]) == EntryBytes(e) + [];
    } else {
      assert (es + [e])[1..] == es[1..] + [e];
      EntriesAppend(es[1..], e);
      var x, y, z := EntryBytes(es[0]), EntriesBytes(es[1..]), EntryBytes(e);
      assert x + (y + z) == (x + y) + z;
    }
  }

  /**
   * Prints the map in whatever order it iterates, up to the first field beyond 32 bits,
   * where it throws; a count beyond 32 bits throws before anything is printed.
   */
  method Print(store: Store, offset: nat) returns (ok: bool, bytes: seq<byte>, ghost order: seq<Entry>)
    ensures ok <==> |store| < U32_LIMIT && forall k :: k in store ==> Encodable((k, store[k]))
    ensures ok ==> Enumerates(order, store) && AllEncodable(order) && bytes == SnapshotBytes(order, offset)
    ensures bytes == if |store| < U32_LIMIT then Metadata(offset, |store|) + EntriesBytes(order) else []
    ensures forall e :: e in order ==> e.0 in store && store[e.0] == e.1
  {
    hide LE, EntriesBytes, EntryBytes, MapOf, Done, Pending, Encodable;
    order := [];
    if |store| >= U32_LIMIT { return false, [], order; }
    var out := AppendLE([], SNAPSHOT_MAGIC, 4);
    out := AppendLE(out, SNAPSHOT_VERSION, 4);
    out := AppendLE(out, offset, 8);
    out := AppendLE(out, |store|, 4);
    assert out == Metadata(offset, |store|);
    var body: seq<byte> := [];
    var rest := store;
    NoEntries();
    AllLeft(store);
    while rest != map[]
      invariant Pending(store, rest) && MapOf(map[], order) == Done(store, rest)
      invariant forall k :: k in store && k !in rest ==> Encodable((k, store[k]))
      invariant |order| + |rest| == |store| && AllEncodable(order)
      invariant body == EntriesBytes(order)
      invariant forall e :: e in order ==> e.0 in store && store[e.0] == e.1
      decreases |rest|
    {
      assert rest.Keys != {};
      var k :| k in rest;
      PendingKey(store, rest, k);
      var entry := PrintEntry((k, store[k]));
      if entry.Threw? { return false, out + body, order; }
      EntriesAppend(order, (k, store[k]));
      MapOfAppend(map[], order, (k, store[k]));
      OneLess(store, rest, k);
      body := body + entry.value;
      order := order + [(k, store[k])];
      rest := rest - {k};
    }
    NoneLeft(store, rest);
    return true, out + body, order;
  }

  /** `rest` is the part of `store` that has not been printed yet. */
  predicate Pending(store: Store, rest: Store) {
    forall k :: k in rest ==> k in store && rest[k] == store[k]
  }

  function Done(store: Store, rest: Store): Store {
    map k | k in store && k !in rest :: store[k]
  }

  lemma PendingKey(store: Store, rest: Store, k: Key)
    requires Pending(store, rest) && k in rest
    ensures k in store && rest[k] == store[k]
  {
  }

  lemma AllLeft(store: Store)
    ensures Pending(store, store) && Done(store, store) == map[]
  {
  }

  lemma NoneLeft(store: Store, rest: Store)
    requires rest == map[]
    ensures Done(store, rest) == store
  {
  }

  lemma OneLess(store: Store, rest: Store, k: Key)
    requires Pending(store, rest) && k in rest
    ensures Pending(store, rest - {k}) && Done(store, rest - {k}) == Done(store, rest)[k := store[k]]
    ensures |rest - {k}| == |rest| - 1
  {
    assert (rest - {k}).Keys == rest.Keys - {k};
    assert |rest.Keys - {k}| == |rest.Keys| - 1;
  }

  method PrintEntry(e: Entry) returns (bytes: Outcome<seq<byte>>)
    ensures bytes.Ok? <==> Encodable(e)
    ensures bytes.Ok? ==> bytes.value == EntryBytes(e)
  {
    hide LE;
    if |e.0| >= U32_LIMIT || |e.1| >= U32_LIMIT { return Threw; }
    var out := AppendLE([], |e.0|, 4);
    out := out + e.0;
    out := AppendLE(out, |e.1|, 4);
    out := out + e.1;
    assert out == EntryBytes(e);
    return Ok(out);
  }

  lemma NoEntries()
    ensures EntriesBytes([]) == [] && MapOf(map[], []) == map[]
  {
  }

  method ReadFieldBytes(file: seq<byte>, pos: nat) returns (r: FieldRead)
    ensures r == ReadField(file, pos)
  {
    hide FromLE;
    var ok, next, size := ConsumeLE(file, pos, 4);
    if !ok || size > MAX_FIELD { return NoField; }
    var bytes;
    ok, next, bytes := ConsumeBytes(file, next, size);
    if !ok { return NoField; }
    return Field(bytes, next);
  }

  /** Fills a local map, which replaces the target only when every entry has been read. */
  method LoadBytes(file: seq<byte>, target: Store) returns (result: LoadResult, after: Store)
    ensures result == LoadOf(file)
    ensures after == if result.Loaded? then result.store else target
  {
    hide FromLE, ReadEntries;
    after := target;
    var ok, pos, first := ConsumeLE(file, 0, 4);
    if !ok { return NotLoaded, target; }
    assert file[0..4] == file[..4];
    var count, offset := first, 0;
    if first == SNAPSHOT_MAGIC {
      var version;
      ok, pos, version := ConsumeLE(file, pos, 4);
      if !ok || version != SNAPSHOT_VERSION { return LoadThrew, target; }
      ok, pos, offset := ConsumeLE(file, pos, 8);
      if !ok { return LoadThrew, target; }
      ok, pos, count := ConsumeLE(file, pos, 4);
      if !ok { return LoadThrew, target; }
    }
    var loaded: Store := map[];
    ghost var start := pos;
    for i := 0 to count
      invariant ReadEntries(file, start, count, map[]) == ReadEntries(file, pos, count - i, loaded)
    {
      ReadOneMore(file, pos, count - i, loaded);
      var k := ReadFieldBytes(file, pos);
      if k.NoField? { return LoadThrew, target; }
      var v := ReadFieldBytes(file, k.next);
      if v.NoField? { return LoadThrew, target; }
      loaded, pos := loaded[k.bytes := v.bytes], v.next;
    }
    ReadNoMore(file, pos, loaded);
    return Loaded(loaded, count, offset), loaded;
  }

  lemma ReadOneMore(file: seq<byte>, pos: nat, count: nat, store: Store)
    requires count > 0
    ensures var k := ReadField(file, pos);
            var v := if k.Field? then ReadField(file, k.next) else NoField;
            ReadEntries(file, pos, count, store) ==
            if v.NoField? then Threw else ReadEntries(file, v.next, count - 1, store[k.bytes := v.bytes])
  {
    hide ReadField;
  }

  lemma ReadNoMore(file: seq<byte>, pos: nat, store: Store)
    ensures ReadEntries(file, pos, 0, store) == Ok(store)
  {
  }

  // ------------------------------------------------------------ publication

  datatype Option<T> = None | Some(value: T)

  /** How far a save gets before something throws. */
  datatype Progress = TempPart(n: nat) | TempWritten | TempSynced | Renamed | DirectorySynced | Complete

  /** What loading finds at the snapshot path; an absent file is not loaded. */
  function LoadPath(file: Option<seq<byte>>): LoadResult {
    if file.None? then NotLoaded else LoadOf(file.value)
  }

  /** The file is a complete snapshot of this map and offset. */
  ghost predicate IsSaved(file: Option<seq<byte>>, store: Store, offset: nat) {
    exists order :: Enumerates(order, store) && file == Some(SnapshotBytes(order, offset))
  }

  class SnapshotFile {
    var published: Option<seq<byte>>
    var temp: Option<seq<byte>>

    constructor (published: Option<seq<byte>>)
      ensures this.published == published && temp == None
    {
      this.published, this.temp := published, None;
    }

    /**
     * Writes the temporary file and renames it. The published file is the old one until
     * the rename and a complete saved snapshot after it; it is never anything in between.
     * The temporary file is a part of one until then, and gone afterwards.
     */
    method Save(store: Store, offset: nat, progress: Progress) returns (ok: bool, ghost order: seq<Entry>)
      modifies this
      ensures var printable := |store| < U32_LIMIT && forall k :: k in store ==> Encodable((k, store[k]));
              var renamed := printable && (progress == Renamed || progress == DirectorySynced || progress == Complete);
              && ok == (printable && progress == Complete)
              && published == (if renamed then Some(SnapshotBytes(order, offset)) else old(published))
              && (renamed ==> Enumerates(order, store) && AllEncodable(order) && |order| < U32_LIMIT)
              && (renamed ==> temp == None)
              && (|store| >= U32_LIMIT ==> temp == old(temp))
              && (|store| < U32_LIMIT && !renamed ==>
                    temp.Some? && temp.value <= Metadata(offset, |store|) + EntriesBytes(order))
              && (printable && (progress == TempWritten || progress == TempSynced) ==>
                    Enumerates(order, store) && temp == Some(SnapshotBytes(order, offset)))
    {
      hide SnapshotBytes, Enumerates, Encodable, Metadata, EntriesBytes;
      var printed, bytes;
      printed, bytes, order := Print(store, offset);
      if |store| >= U32_LIMIT { return false, order; }
      if progress.TempPart? {
        temp := Some(bytes[..if progress.n < |bytes| then progress.n else |bytes|]);
        return false, order;
      }
      temp := Some(bytes);
      if !printed || progress.TempWritten? || progress.TempSynced? { return false, order; }
      EnumeratedCount(order, store);
      published, temp := temp, None;
      if progress.Renamed? || progress.DirectorySynced? { return false, order; }
      return true, order;
    }

    method Load(target: Store) returns (result: LoadResult, after: Store)
      ensures result == LoadPath(published)
      ensures after == if result.Loaded? then result.store else target
    {
      if published.None? { return NotLoaded, target; }
      result, after := LoadBytes(published.value, target);
    }

    /** Re-reads the published file and compares count, offset and contents. */
    method Verify(store: Store, offset: nat) returns (same: bool)
      ensures same == (LoadPath(published) == Loaded(store, |store|, offset))
    {
      hide LoadOf;
      var result, loaded := Load(map[]);
      same := result.Loaded? && result.count == |store| && result.offset == offset && loaded == store;
    }

    /**
     * Succeeds exactly when the save completes and every field is within the load limit;
     * then the published file loads as the saved map and offset.
     */
    method SaveVerified(store: Store, offset: nat, progress: Progress) returns (ok: bool)
      requires offset < U64_LIMIT
      modifies this
      ensures ok ==> LoadPath(published) == Loaded(store, |store|, offset) && temp == None
      ensures published == old(published) || IsSaved(published, store, offset)
      ensures progress.TempPart? || progress == TempWritten || progress == TempSynced ==> published == old(published)
      ensures ok <==> progress == Complete && |store| < U32_LIMIT
                      && forall k :: k in store ==> EntryFits((k, store[k]))
    {
      hide SnapshotBytes, Enumerates, Encodable, EntryFits, LoadOf;
      ghost var order;
      ok, order := Save(store, offset, progress);
      if ok {
        LoadSaved(order, store, offset);
        FitsInAnyOrder(order, store);
        ok := Verify(store, offset);
      } else {
        FitsAreEncodable(store);
      }
    }

    method Clear()
      modifies this
      ensures LoadPath(published) == NotLoaded && temp == None
    {
      published, temp := None, None;
    }
  }

  lemma EnumeratedCount(es: seq<Entry>, store: Store)
    requires Enumerates(es, store)
    ensures |es| == |store|
  {
  }

  lemma FitsAreEncodable(store: Store)
    ensures forall k :: k in store && EntryFits((k, store[k])) ==> Encodable((k, store[k]))
  {
  }

  lemma {:induction false} MapOfMembers(store: Store, es: seq<Entry>)
    ensures forall k :: k in MapOf(store, es) ==>
              (k in store && MapOf(store, es)[k] == store[k]) || (k, MapOf(store, es)[k]) in es
    decreases es
  {
    if es != [] {
      MapOfMembers(store[es[0].0 := es[0].1], es[1..]);
      assert forall e :: e in es[1..] ==> e in es;
      assert es[0] in es;
    }
  }

  /** An iteration order lists exactly the map's entries, each once. */
  lemma {:induction false} OrderMembers(store: Store, es: seq<Entry>)
    requires |MapOf(store, es)| == |store| + |es|
    ensures forall i :: 0 <= i < |es| ==> es[i].0 in MapOf(store, es) && MapOf(store, es)[es[i].0] == es[i].1
    ensures forall k :: k in store ==> k in MapOf(store, es) && MapOf(store, es)[k] == store[k]
    decreases es
  {
    if es != [] {
      var next := store[es[0].0 := es[0].1];
      MapOfGrows(next, es[1..]);
      InsertSize(store, es[0].0, es[0].1);
      OrderMembers(next, es[1..]);
      assert MapOf(store, es) == MapOf(next, es[1..]);
      assert forall i :: 0 < i < |es| ==> es[i] == es[1..][i - 1];
      assert es[0].0 !in store && es[0].0 in next && next[es[0].0] == es[0].1;
      assert forall k :: k in store ==> k in next && next[k] == store[k];
    }
  }

  lemma InsertSize(store: Store, k: Key, v: Value)
    ensures |store[k := v]| == |store| + if k in store then 0 else 1
  {
    assert store[k := v].Keys == store.Keys + {k};
    if k in store {
      assert store.Keys + {k} == store.Keys;
    }
  }

  lemma {:induction false} MapOfGrows(store: Store, es: seq<Entry>)
    ensures |MapOf(store, es)| <= |store| + |es|
    decreases es
  {
    if es != [] {
      var next := store[es[0].0 := es[0].1];
      InsertSize(store, es[0].0, es[0].1);
      MapOfGrows(next, es[1..]);
    }
  }

  lemma FitsInAnyOrder(es: seq<Entry>, store: Store)
    requires Enumerates(es, store)
    ensures AllFit(es) <==> forall k :: k in store ==> EntryFits((k, store[k]))
  {
    hide EntryFits, MapOf;
    NoEntries();
    MapOfMembers(map[], es);
    OrderMembers(map[], es);
    if AllFit(es) {
      forall k | k in store
        ensures EntryFits((k, store[k]))
      {
        assert (k, store[k]) in es;
      }
    } else {
      var i :| 0 <= i < |es| && !EntryFits(es[i]);
      assert es[i] == (es[i].0, store[es[i].0]);
    }
  }

  // ------------------------------------------------------------ log-accepted writes always fit

  predicate StoreFits(store: Store) {
    forall k :: k in store ==> EntryFits((k, store[k]))
  }

  /** Every state built from operations the log accepts can be saved and loaded back. */
  lemma {:induction false} LoggedStateFits(store: Store, ops: seq<Op>)
    requires StoreFits(store) && forall i :: 0 <= i < |ops| ==> Bounded(ops[i])
    ensures StoreFits(ApplyAll(store, ops))
    decreases ops
  {
    hide Bounded;
    if ops != [] {
      BoundedFields(ops[0]);
      assert forall i :: 0 <= i < |ops[1..]| ==> ops[1..][i] == ops[i + 1];
      LoggedStateFits(Apply(store, ops[0]), ops[1..]);
    }
  }
}
