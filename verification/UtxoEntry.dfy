/** The byte form of an entry of the index: its sat ranges or its value, and its script, as far as they are indexed. */
module UtxoEntry {
  import opened Options
  import opened Bitcoin
  import opened Bytes
  import opened SatRanges
  import opened RangeCodec
  import Varint

  const U64: nat := 0x1_0000_0000_0000_0000

  /** What the index keeps for each output. */
  datatype Flags = Flags(sats: bool, addresses: bool)

  datatype Sats = Ranges(bytes: seq<Byte>) | Value(value: nat)

  datatype Parsed = Parsed(sats: Sats, script: Option<Script>)

  // ----- parsing -----

  datatype Piece<T> = Piece(part: T, length: nat)

  /** The sats at the start of an entry and how many bytes they take; nothing where the program panics. */
  function ParseSats(bytes: seq<Byte>, sats: bool): Option<Piece<Sats>> {
    var count := Varint.Decode(bytes);
    if count.None? || count.value.0 >= U64 then None
    else
      var (n, length) := count.value;
      if !sats then Some(Piece(Value(n), length))
      else if length + 11 * n > |bytes| then None
      else Some(Piece(Ranges(bytes[length..length + 11 * n]), length + 11 * n))
  }

  function ParseScript(bytes: seq<Byte>): Option<Script> {
    var count := Varint.Decode(bytes);
    if count.None? || count.value.0 >= U64 then None
    else
      var (n, length) := count.value;
      if length + n > |bytes| then None else Some(bytes[length..length + n])
  }

  function Parse(bytes: seq<Byte>, flags: Flags): Option<Parsed> {
    var sats := ParseSats(bytes, flags.sats);
    if sats.None? || sats.value.length > |bytes| then None
    else if !flags.addresses then Some(Parsed(sats.value.part, None))
    else
      var script := ParseScript(bytes[sats.value.length..]);
      if script.None? then None else Some(Parsed(sats.value.part, script))
  }

  // ----- what is pushed -----

  predicate SatsFit(sats: Sats, flag: bool) {
    if flag then sats.Ranges? && |sats.bytes| % 11 == 0 && |sats.bytes| < U64
    else sats.Value? && sats.value < U64
  }

  /** A part for everything that is indexed and nothing else, of a size the machine can count. */
  predicate FitsFlags(p: Parsed, flags: Flags) {
    && SatsFit(p.sats, flags.sats)
    && (p.script.Some? <==> flags.addresses)
    && (p.script.Some? ==> |p.script.value| < U64)
  }

  function SatsBytes(sats: Sats): seq<Byte> {
    match sats
    case Ranges(bytes) => Varint.Encode(|bytes| / 11) + bytes
    case Value(value) => Varint.Encode(value)
  }

  function ScriptBytes(script: Script): seq<Byte> {
    Varint.Encode(|script|) + script
  }

  function EntryBytes(p: Parsed): seq<Byte> {
    SatsBytes(p.sats) + if p.script.Some? then ScriptBytes(p.script.value) else []
  }

  lemma RangesRoundTrip(ranges: seq<Byte>, rest: seq<Byte>)
    requires |ranges| % 11 == 0 && |ranges| < U64
    ensures var bytes := Varint.Encode(|ranges| / 11) + ranges;
      ParseSats(bytes + rest, true) == Some(Piece(Ranges(ranges), |bytes|))
  {
    var n := |ranges| / 11;
    var head := Varint.Encode(n);
    var bytes := head + ranges + rest;
    assert bytes == head + (ranges + rest);
    Varint.RoundTrip(n, ranges + rest);
    assert bytes[|head|..|head| + 11 * n] == ranges;
  }

  lemma SatsRoundTrip(sats: Sats, flag: bool, rest: seq<Byte>)
    requires SatsFit(sats, flag)
    ensures ParseSats(SatsBytes(sats) + rest, flag) == Some(Piece(sats, |SatsBytes(sats)|))
  {
    match sats
    case Ranges(bytes) => RangesRoundTrip(bytes, rest);
    case Value(value) => Varint.RoundTrip(value, rest);
  }

  lemma ScriptRoundTrip(script: Script)
    requires |script| < U64
    ensures ParseScript(ScriptBytes(script)) == Some(script)
  {
    var head := Varint.Encode(|script|);
    Varint.RoundTrip(|script|, script);
    assert ScriptBytes(script)[|head|..|head| + |script|] == script;
  }

  /** In all four configurations an entry parses back to its parts. */
  lemma EntryRoundTrip(p: Parsed, flags: Flags)
    requires FitsFlags(p, flags)
    ensures Parse(EntryBytes(p), flags) == Some(p)
  {
    var rest := if p.script.Some? then ScriptBytes(p.script.value) else [];
    SatsRoundTrip(p.sats, flags.sats, rest);
    assert EntryBytes(p)[|SatsBytes(p.sats)|..] == rest;
    if p.script.Some? {
      ScriptRoundTrip(p.script.value);
    }
  }

  function TotalValue(sats: Sats): nat {
    match sats
    case Value(value) => value
    case Ranges(bytes) => Total(Unpack(bytes))
  }

  method SumValue(sats: Sats) returns (value: nat)
    requires sats.Ranges? ==> |sats.bytes| % 11 == 0
    ensures value == TotalValue(sats)
  {
    if sats.Value? {
      return sats.value;
    }
    value := 0;
    var chunks := sats.bytes;
    while chunks != []
      invariant |chunks| % 11 == 0
      invariant value + Total(Unpack(chunks)) == TotalValue(sats)
      decreases |chunks|
    {
      var range := Load(chunks[..11]);
      value := value + (range.end - range.start);
      chunks := chunks[11..];
    }
  }

  // ----- the buffer -----

  datatype State = NeedSats | NeedScriptPubkey | Complete

  class UtxoEntryBuf {
    const flags: Flags
    var vec: seq<Byte>
    var state: State

    constructor (flags: Flags)
      ensures this.flags == flags && vec == [] && state == NeedSats
    {
      this.flags, this.vec, this.state := flags, [], NeedSats;
    }

    method AdvanceState(expected: State, next: State)
      requires state == expected
      modifies this`state
      ensures state == if next == NeedScriptPubkey && !flags.addresses then Complete else next
    {
      state := next;
      if state == NeedScriptPubkey && !flags.addresses {
        state := Complete;
      }
    }

    method PushValue(value: nat)
      requires !flags.sats && state == NeedSats
      modifies this
      ensures vec == old(vec) + SatsBytes(Value(value))
      ensures state == if flags.addresses then NeedScriptPubkey else Complete
    {
      vec := Varint.EncodeToVec(value, vec);
      AdvanceState(NeedSats, NeedScriptPubkey);
    }

    method PushSatRanges(ranges: seq<Byte>)
      requires flags.sats && |ranges| % 11 == 0 && state == NeedSats
      modifies this
      ensures vec == old(vec) + SatsBytes(Ranges(ranges))
      ensures state == if flags.addresses then NeedScriptPubkey else Complete
    {
      vec := Varint.EncodeToVec(|ranges| / 11, vec);
      ConcatAssociative(old(vec), Varint.Encode(|ranges| / 11), ranges);
      vec := vec + ranges;
      AdvanceState(NeedSats, NeedScriptPubkey);
    }

    method PushScriptPubkey(script: Script)
      requires flags.addresses && state == NeedScriptPubkey
      modifies this
      ensures vec == old(vec) + ScriptBytes(script)
      ensures state == Complete
    {
      vec := Varint.EncodeToVec(|script|, vec);
      vec := vec + script;
      AdvanceState(NeedScriptPubkey, Complete);
    }
  }

  lemma BytesOf(p: Parsed)
    ensures p.script.None? ==> EntryBytes(p) == SatsBytes(p.sats)
    ensures p.script.Some? ==> EntryBytes(p) == SatsBytes(p.sats) + ScriptBytes(p.script.value)
  {
  }

  /** An entry built by pushing its parts. */
  method Build(p: Parsed, flags: Flags) returns (entry: UtxoEntryBuf)
    requires FitsFlags(p, flags)
    ensures fresh(entry) && entry.flags == flags && entry.state == Complete
    ensures entry.vec == EntryBytes(p) && Parse(entry.vec, flags) == Some(p)
  {
    entry := new UtxoEntryBuf(flags);
    if flags.sats {
      entry.PushSatRanges(p.sats.bytes);
    } else {
      entry.PushValue(p.sats.value);
    }
    assert entry.vec == SatsBytes(p.sats);
    if flags.addresses {
      entry.PushScriptPubkey(p.script.value);
    }
    BytesOf(p);
    EntryRoundTrip(p, flags);
  }

  method Empty(flags: Flags) returns (entry: UtxoEntryBuf)
    ensures fresh(entry) && entry.state == Complete
    ensures Parse(entry.vec, flags)
      == Some(Parsed(if flags.sats then Ranges([]) else Value(0), if flags.addresses then Some([]) else None))
  {
    entry := Build(
      Parsed(if flags.sats then Ranges([]) else Value(0), if flags.addresses then Some([]) else None), flags);
  }

  /** Two entries of a special outpoint: they have no value of their own and no script. */
  predicate Mergeable(p: Parsed, q: Parsed, flags: Flags) {
    && FitsFlags(p, flags) && FitsFlags(q, flags)
    && (flags.sats ==> |p.sats.bytes| + |q.sats.bytes| < U64)
    && (!flags.sats ==> p.sats == Value(0) && q.sats == Value(0))
    && (flags.addresses ==> p.script == Some([]) && q.script == Some([]))
  }

  function MergedParts(p: Parsed, q: Parsed): Parsed {
    if p.sats.Ranges? && q.sats.Ranges? then p.(sats := Ranges(p.sats.bytes + q.sats.bytes)) else p
  }

  lemma WholeChunks(a: seq<Byte>, b: seq<Byte>)
    requires |a| % 11 == 0 && |b| % 11 == 0
    ensures |a + b| % 11 == 0
  {
  }

  /** The ranges of one entry follow those of the other. */
  lemma MergedRangesFollow(p: Parsed, q: Parsed, flags: Flags)
    requires Mergeable(p, q, flags)
    ensures FitsFlags(MergedParts(p, q), flags)
    ensures TotalValue(MergedParts(p, q).sats) == TotalValue(p.sats) + TotalValue(q.sats)
    ensures flags.sats ==>
      Unpack(MergedParts(p, q).sats.bytes) == Unpack(p.sats.bytes) + Unpack(q.sats.bytes)
  {
    if flags.sats {
      var a, b := p.sats.bytes, q.sats.bytes;
      UnpackConcat(a, b);
      TotalConcat(Unpack(a), Unpack(b));
      assert MergedParts(p, q).sats == Ranges(a + b);
      WholeChunks(a, b);
    }
  }

  method Merged(a: seq<Byte>, b: seq<Byte>, flags: Flags) returns (merged: UtxoEntryBuf)
    requires Parse(a, flags).Some? && Parse(b, flags).Some?
    requires Mergeable(Parse(a, flags).value, Parse(b, flags).value, flags)
    ensures fresh(merged) && merged.state == Complete
    ensures Parse(merged.vec, flags) == Some(MergedParts(Parse(a, flags).value, Parse(b, flags).value))
  {
    var p, q := Parse(a, flags).value, Parse(b, flags).value;
    MergedRangesFollow(p, q, flags);
    merged := Build(MergedParts(p, q), flags);
  }

  function StoredOutput(ranges: seq<SatRange>, script: Option<Script>): Parsed
    requires AllFit(ranges)
  {
    Parsed(Ranges(Pack(ranges)), script)
  }

  lemma StoredOutputFits(ranges: seq<SatRange>, script: Option<Script>, flags: Flags)
    requires flags.sats && AllFit(ranges) && 11 * |ranges| < U64
    requires (script.Some? <==> flags.addresses) && (script.Some? ==> |script.value| < U64)
    ensures FitsFlags(StoredOutput(ranges, script), flags)
  {
    var bytes := Pack(ranges);
    assert |bytes| == 11 * |ranges| && |bytes| % 11 == 0;
    assert SatsFit(Ranges(bytes), true);
  }

  /** An output's ranges, stored and read again, are its ranges. */
  lemma StoredRangesRoundTrip(ranges: seq<SatRange>, script: Option<Script>, flags: Flags)
    requires flags.sats && AllFit(ranges) && 11 * |ranges| < U64
    requires (script.Some? <==> flags.addresses) && (script.Some? ==> |script.value| < U64)
    ensures var stored := StoredOutput(ranges, script);
      Parse(EntryBytes(stored), flags) == Some(stored) && Unpack(stored.sats.bytes) == ranges
  {
    StoredOutputFits(ranges, script, flags);
    EntryRoundTrip(StoredOutput(ranges, script), flags);
    UnpackPack(ranges);
  }

  method LoadRanges(bytes: seq<Byte>) returns (ranges: seq<SatRange>)
    requires |bytes| % 11 == 0
    ensures ranges == Unpack(bytes)
  {
    var chunks := bytes;
    ranges := [];
    while chunks != []
      invariant |chunks| % 11 == 0 && ranges + Unpack(chunks) == Unpack(bytes)
      decreases |chunks|
    {
      var range := Load(chunks[..11]);
      ConcatAssociative(ranges, [range], Unpack(chunks[11..]));
      ranges := ranges + [range];
      chunks := chunks[11..];
    }
  }

  /** The ranges in a stored entry.  For an entry made of an output's ranges they are these ranges. */
  method ListRanges(entry: seq<Byte>, flags: Flags) returns (listed: seq<SatRange>)
    requires flags.sats && Parse(entry, flags).Some?
    ensures listed == Unpack(Parse(entry, flags).value.sats.bytes)
    ensures forall ranges, script :: IsEntryOf(entry, flags, ranges, script) ==> listed == ranges
  {
    ParsedInChunks(entry, flags);
    listed := LoadRanges(Parse(entry, flags).value.sats.bytes);
    forall ranges, script | IsEntryOf(entry, flags, ranges, script)
      ensures listed == ranges
    {
      StoredRangesRoundTrip(ranges, script, flags);
    }
  }

  lemma ParsedInChunks(entry: seq<Byte>, flags: Flags)
    requires flags.sats && Parse(entry, flags).Some?
    ensures Parse(entry, flags).value.sats.Ranges?
    ensures |Parse(entry, flags).value.sats.bytes| % 11 == 0
  {
  }

  /** The entry is that of an output with these ranges. */
  ghost predicate IsEntryOf(entry: seq<Byte>, flags: Flags, ranges: seq<SatRange>, script: Option<Script>) {
    && flags.sats && AllFit(ranges) && 11 * |ranges| < U64
    && (script.Some? <==> flags.addresses) && (script.Some? ==> |script.value| < U64)
    && entry == EntryBytes(StoredOutput(ranges, script))
  }

  /** The bytes of an entry with both parts: the count of its ranges, the ranges, the length of its script, the
      script; without ranges its value comes first. */
  lemma Layout(ranges: seq<Byte>, value: nat, script: Script)
    ensures EntryBytes(Parsed(Ranges(ranges), Some(script)))
         == Varint.Encode(|ranges| / 11) + ranges + Varint.Encode(|script|) + script
    ensures EntryBytes(Parsed(Value(value), Some(script)))
         == Varint.Encode(value) + Varint.Encode(|script|) + script
    ensures EntryBytes(Parsed(Ranges(ranges), None)) == Varint.Encode(|ranges| / 11) + ranges
    ensures EntryBytes(Parsed(Value(value), None)) == Varint.Encode(value)
  {
  }
}
