/** The two kinds of log records as bytes: fixed-width little-endian numbers, 64-bit lengths, and a tag in
front of the second kind.
*/
module BrecciaEntry {
  import opened Options
  import opened Bitcoin
  import opened Bytes

  const U64: nat := 0x1_0000_0000_0000_0000

  const U32: nat := 0x1_0000_0000

  /** "LBV2" */
  const TAG: seq<Byte> := [0x4c, 0x42, 0x56, 0x32]

  datatype Entry = Entry(root: seq<Byte>, orderKey: seq<Byte>, timestampedAt: nat, path: seq<Byte>)

  datatype EntryV2 = EntryV2(entry: Entry, height: nat, txid: seq<Byte>, replication: nat)

  datatype Record = V1(entry: Entry) | V2(entry2: EntryV2)

  /** What of a text is acceptable; texts are kept as bytes. */
  type Text = seq<Byte> -> bool

  predicate IsEntry(text: Text, e: Entry) {
    |e.root| == 32 && |e.orderKey| < U64 && e.timestampedAt < U64 && |e.path| < U64 && text(e.path)
  }

  predicate IsEntryV2(text: Text, e: EntryV2) {
    IsEntry(text, e.entry) && e.height < U32 && |e.txid| < U64 && text(e.txid) && e.replication < U32
  }

  // ----- encoding -----

  function EncodeBytes(bytes: seq<Byte>): seq<Byte> {
    LittleEndian(|bytes|, 8) + bytes
  }

  function EncodeEntry(e: Entry): seq<Byte> {
    e.root + (EncodeBytes(e.orderKey) + (LittleEndian(e.timestampedAt, 8) + EncodeBytes(e.path)))
  }

  function EncodeTail(e: EntryV2): seq<Byte> {
    LittleEndian(e.height, 4) + (EncodeBytes(e.txid) + LittleEndian(e.replication, 4))
  }

  function EncodeEntryV2(e: EntryV2): seq<Byte> {
    TAG + (EncodeEntry(e.entry) + EncodeTail(e))
  }

  function EncodeRecord(record: Record): seq<Byte> {
    match record
    case V1(e) => EncodeEntry(e)
    case V2(e) => EncodeEntryV2(e)
  }

  // ----- decoding -----

  datatype Read<T> = Read(value: T, rest: seq<Byte>)

  function TakeBytes(bytes: seq<Byte>, n: nat): Option<Read<seq<Byte>>> {
    if n <= |bytes| then Some(Read(bytes[..n], bytes[n..])) else None
  }

  function TakeNumber(bytes: seq<Byte>, width: nat): Option<Read<nat>> {
    if width <= |bytes| then Some(Read(FromLittleEndian(bytes[..width]), bytes[width..])) else None
  }

  function TakeSized(bytes: seq<Byte>): Option<Read<seq<Byte>>> {
    var length := TakeNumber(bytes, 8);
    if length.None? then None else TakeBytes(length.value.rest, length.value.value)
  }

  function TakeText(text: Text, bytes: seq<Byte>): Option<Read<seq<Byte>>> {
    var read := TakeSized(bytes);
    if read.Some? && text(read.value.value) then read else None
  }

  function TakeEntry(text: Text, bytes: seq<Byte>): Option<Read<Entry>> {
    var root := TakeBytes(bytes, 32);
    if root.None? then None else
    var key := TakeSized(root.value.rest);
    if key.None? then None else
    var at := TakeNumber(key.value.rest, 8);
    if at.None? then None else
    var path := TakeText(text, at.value.rest);
    if path.None? then None else
    Some(Read(Entry(root.value.value, key.value.value, at.value.value, path.value.value), path.value.rest))
  }

  function TakeEntryV2(text: Text, bytes: seq<Byte>): Option<Read<EntryV2>> {
    var entry := TakeEntry(text, bytes);
    if entry.None? then None else
    var height := TakeNumber(entry.value.rest, 4);
    if height.None? then None else
    var txid := TakeText(text, height.value.rest);
    if txid.None? then None else
    var replication := TakeNumber(txid.value.rest, 4);
    if replication.None? then None else
    var e := EntryV2(entry.value.value, height.value.value, txid.value.value, replication.value.value);
    Some(Read(e, replication.value.rest))
  }

  /** Bytes after the record are ignored. */
  function DecodeBlob(text: Text, bytes: seq<Byte>): Option<Record> {
    if TAG <= bytes then
      var read := TakeEntryV2(text, bytes[|TAG|..]);
      if read.Some? then Some(V2(read.value.value)) else None
    else
      var read := TakeEntry(text, bytes);
      if read.Some? then Some(V1(read.value.value)) else None
  }

  // ----- round trips -----

  lemma TakeNumberReads(n: nat, width: nat, rest: seq<Byte>)
    requires n < Power(256, width)
    ensures TakeNumber(LittleEndian(n, width) + rest, width) == Some(Read(n, rest))
  {
    LittleEndianRoundTrip(n, width);
    SmallQuotient(n, Power(256, width));
    assert (LittleEndian(n, width) + rest)[..width] == LittleEndian(n, width);
    assert (LittleEndian(n, width) + rest)[width..] == rest;
  }

  lemma Widths()
    ensures Power(256, 4) == U32 && Power(256, 8) == U64
  {
    PowerSum(256, 4, 4);
  }

  lemma TakeSizedReads(bytes: seq<Byte>, rest: seq<Byte>)
    requires |bytes| < U64
    ensures TakeSized(EncodeBytes(bytes) + rest) == Some(Read(bytes, rest))
  {
    Widths();
    assert EncodeBytes(bytes) + rest == LittleEndian(|bytes|, 8) + (bytes + rest);
    TakeNumberReads(|bytes|, 8, bytes + rest);
    assert (bytes + rest)[..|bytes|] == bytes && (bytes + rest)[|bytes|..] == rest;
  }

  lemma TakeEntryReads(text: Text, e: Entry, rest: seq<Byte>)
    requires IsEntry(text, e)
    ensures TakeEntry(text, EncodeEntry(e) + rest) == Some(Read(e, rest))
  {
    var afterAt := EncodeBytes(e.path) + rest;
    var afterKey := LittleEndian(e.timestampedAt, 8) + afterAt;
    var afterRoot := EncodeBytes(e.orderKey) + afterKey;
    var bytes := e.root + afterRoot;
    assert EncodeEntry(e) + rest == bytes;
    assert bytes[..32] == e.root && bytes[32..] == afterRoot;
    TakeSizedReads(e.orderKey, afterKey);
    Widths();
    TakeNumberReads(e.timestampedAt, 8, afterAt);
    TakeSizedReads(e.path, rest);
  }

  lemma TakeEntryV2Reads(text: Text, e: EntryV2, rest: seq<Byte>)
    requires IsEntryV2(text, e)
    ensures TakeEntryV2(text, EncodeEntry(e.entry) + EncodeTail(e) + rest) == Some(Read(e, rest))
  {
    var afterTxid := LittleEndian(e.replication, 4) + rest;
    var afterHeight := EncodeBytes(e.txid) + afterTxid;
    var afterEntry := LittleEndian(e.height, 4) + afterHeight;
    assert EncodeEntry(e.entry) + EncodeTail(e) + rest == EncodeEntry(e.entry) + afterEntry;
    TakeEntryReads(text, e.entry, afterEntry);
    Widths();
    TakeNumberReads(e.height, 4, afterHeight);
    TakeSizedReads(e.txid, afterTxid);
    TakeNumberReads(e.replication, 4, rest);
  }

  /** Every record of the second kind decodes to itself. */
  lemma V2RoundTrip(text: Text, e: EntryV2)
    requires IsEntryV2(text, e)
    ensures DecodeBlob(text, EncodeEntryV2(e)) == Some(V2(e))
  {
    var bytes := EncodeEntryV2(e);
    assert bytes[|TAG|..] == EncodeEntry(e.entry) + EncodeTail(e) + [];
    TakeEntryV2Reads(text, e, []);
  }

  /** A record of the first kind decodes to itself exactly when its root does not begin with the tag. */
  lemma V1RoundTrip(text: Text, e: Entry)
    requires IsEntry(text, e)
    ensures DecodeBlob(text, EncodeEntry(e)) == Some(V1(e)) <==> !(TAG <= e.root)
  {
    var bytes := EncodeEntry(e);
    assert bytes[..4] == e.root[..4];
    assert TAG <= bytes <==> TAG <= e.root;
    TakeEntryReads(text, e, []);
    assert EncodeEntry(e) + [] == EncodeEntry(e);
  }

  // ----- all records of a log -----

  predicate IsReadable(text: Text, record: Record) {
    match record
    case V1(e) => IsEntry(text, e) && !(TAG <= e.root)
    case V2(e) => IsEntryV2(text, e)
  }

  lemma RecordRoundTrip(text: Text, record: Record)
    requires IsReadable(text, record)
    ensures DecodeBlob(text, EncodeRecord(record)) == Some(record)
  {
    match record
    case V1(e) => V1RoundTrip(text, e);
    case V2(e) => V2RoundTrip(text, e);
  }

  function EncodeAll(records: seq<Record>): seq<seq<Byte>> {
    if records == [] then [] else [EncodeRecord(records[0])] + EncodeAll(records[1..])
  }

  /** One blob that cannot be decoded makes the whole log unreadable. */
  function DecodeAll(decode: seq<Byte> -> Option<Record>, blobs: seq<seq<Byte>>): Option<seq<Record>> {
    if blobs == [] then Some([])
    else
      var first, rest := decode(blobs[0]), DecodeAll(decode, blobs[1..]);
      if first.Some? && rest.Some? then Some([first.value] + rest.value) else None
  }

  lemma {:induction false} AllDecoded(decode: seq<Byte> -> Option<Record>, records: seq<Record>, blobs: seq<seq<Byte>>)
    requires |blobs| == |records| && forall i :: 0 <= i < |records| ==> decode(blobs[i]) == Some(records[i])
    ensures DecodeAll(decode, blobs) == Some(records)
  {
    if records != [] {
      AllDecoded(decode, records[1..], blobs[1..]);
      assert records == [records[0]] + records[1..];
    }
  }

  lemma {:induction false} EncodeAllAt(records: seq<Record>, i: nat)
    requires i < |records|
    ensures |EncodeAll(records)| == |records| && EncodeAll(records)[i] == EncodeRecord(records[i])
  {
    if i > 0 {
      EncodeAllAt(records[1..], i - 1);
    } else if |records| > 1 {
      EncodeAllAt(records[1..], 0);
    }
  }

  /** A log of readable records reads back as these records, in order. */
  lemma AllRoundTrip(text: Text, decode: seq<Byte> -> Option<Record>, records: seq<Record>)
    requires forall blob :: decode(blob) == DecodeBlob(text, blob)
    requires forall i :: 0 <= i < |records| ==> IsReadable(text, records[i])
    ensures DecodeAll(decode, EncodeAll(records)) == Some(records)
  {
    if records != [] {
      EncodeAllAt(records, 0);
    }
    forall i | 0 <= i < |records|
      ensures decode(EncodeAll(records)[i]) == Some(records[i])
    {
      EncodeAllAt(records, i);
      RecordRoundTrip(text, records[i]);
    }
    AllDecoded(decode, records, EncodeAll(records));
  }

  /** The bytes of a record of the first kind, field by field. */
  lemma V1Layout(e: Entry)
    ensures EncodeRecord(V1(e))
         == e.root + ((LittleEndian(|e.orderKey|, 8) + e.orderKey)
          + (LittleEndian(e.timestampedAt, 8) + (LittleEndian(|e.path|, 8) + e.path)))
  {
  }

  /** And of one of the second kind: a tag in front, the height and the transaction behind. */
  lemma V2Layout(e: EntryV2)
    ensures EncodeRecord(V2(e))
         == [0x4c, 0x42, 0x56, 0x32] + (EncodeRecord(V1(e.entry))
          + (LittleEndian(e.height, 4) + ((LittleEndian(|e.txid|, 8) + e.txid) + LittleEndian(e.replication, 4))))
  {
  }
}
