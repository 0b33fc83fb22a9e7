/** The append-only log file. */
module BrecciaLog {
  import opened Options
  import opened Bitcoin
  import opened Bytes
  import BrecciaEntry

  /** "LORBRECC" */
  const MAGIC: seq<Byte> := [0x4c, 0x4f, 0x52, 0x42, 0x52, 0x45, 0x43, 0x43]

  const HEADER_LEN: nat := 12

  const MAX_BLOB_LEN: nat := 0x10_0000

  datatype Problem = Truncated | BadMagic | BadVersion | BlobTooLong

  // ----- the format -----

  function Header(version: nat): (bytes: seq<Byte>)
    ensures |bytes| == HEADER_LEN
  {
    MAGIC + LittleEndian(version, 4)
  }

  function Frame(blob: seq<Byte>): seq<Byte> {
    LittleEndian(|blob|, 8) + blob
  }

  function Frames(blobs: seq<seq<Byte>>): seq<Byte> {
    if blobs == [] then [] else Frame(blobs[0]) + Frames(blobs[1..])
  }

  /** Fewer bytes than a length end the log; fewer bytes than a length promises are an error. */
  function ReadFrames(bytes: seq<Byte>): Result<seq<seq<Byte>>, Problem>
    decreases |bytes|
  {
    if |bytes| < 8 then Ok([])
    else
      var length := FromLittleEndian(bytes[..8]);
      if length > MAX_BLOB_LEN then Err(BlobTooLong)
      else if 8 + length > |bytes| then Err(Truncated)
      else
        After([bytes[8..8 + length]], ReadFrames(bytes[8 + length..]))
  }

  /** A result of reading the rest, after some blobs have been read. */
  function After(read: seq<seq<Byte>>, rest: Result<seq<seq<Byte>>, Problem>): Result<seq<seq<Byte>>, Problem> {
    if rest.Err? then rest else Ok(read + rest.value)
  }

  lemma AfterNothing(rest: Result<seq<seq<Byte>>, Problem>)
    ensures After([], rest) == rest
  {
    if rest.Ok? {
      assert [] + rest.value == rest.value;
    }
  }

  lemma AfterOneMore(read: seq<seq<Byte>>, blob: seq<Byte>, rest: Result<seq<seq<Byte>>, Problem>)
    ensures After(read, After([blob], rest)) == After(read + [blob], rest)
  {
    if rest.Ok? {
      assert read + ([blob] + rest.value) == read + [blob] + rest.value;
    }
  }

  predicate Storable(blobs: seq<seq<Byte>>) {
    forall i :: 0 <= i < |blobs| ==> |blobs[i]| <= MAX_BLOB_LEN
  }

  lemma FrameReads(blob: seq<Byte>, rest: seq<Byte>)
    requires |blob| <= MAX_BLOB_LEN
    ensures var bytes := Frame(blob) + rest;
      && |bytes| >= 8 && FromLittleEndian(bytes[..8]) == |blob|
      && 8 + |blob| <= |bytes| && bytes[8..8 + |blob|] == blob && bytes[8 + |blob|..] == rest
  {
    BrecciaEntry.Widths();
    LittleEndianRoundTrip(|blob|, 8);
    SmallQuotient(|blob|, Power(256, 8));
    assert (Frame(blob) + rest)[..8] == LittleEndian(|blob|, 8);
  }

  /** Reading the frames of some blobs gives these blobs. */
  lemma {:induction false} FramesRoundTrip(blobs: seq<seq<Byte>>)
    requires Storable(blobs)
    ensures ReadFrames(Frames(blobs)) == Ok(blobs)
  {
    if blobs != [] {
      FrameReads(blobs[0], Frames(blobs[1..]));
      FramesRoundTrip(blobs[1..]);
      assert blobs == [blobs[0]] + blobs[1..];
    }
  }

  lemma {:induction false} FramesSnoc(blobs: seq<seq<Byte>>, blob: seq<Byte>)
    ensures Frames(blobs + [blob]) == Frames(blobs) + Frame(blob)
  {
    if blobs == [] {
      assert blobs + [blob] == [blob];
    } else {
      assert (blobs + [blob])[1..] == blobs[1..] + [blob];
      FramesSnoc(blobs[1..], blob);
    }
  }

  method ReadFrom(bytes: seq<Byte>) returns (result: Result<seq<seq<Byte>>, Problem>)
    ensures result == ReadFrames(bytes)
  {
    var rest := bytes;
    var read: seq<seq<Byte>> := [];
    AfterNothing(ReadFrames(rest));
    while |rest| >= 8
      invariant After(read, ReadFrames(rest)) == ReadFrames(bytes)
      decreases |rest|
    {
      var length := FromLittleEndian(rest[..8]);
      if length > MAX_BLOB_LEN {
        return Err(BlobTooLong);
      }
      if 8 + length > |rest| {
        return Err(Truncated);
      }
      AfterOneMore(read, rest[8..8 + length], ReadFrames(rest[8 + length..]));
      read := read + [rest[8..8 + length]];
      rest := rest[8 + length..];
    }
    assert read + [] == read;
    return Ok(read);
  }

  // ----- the file -----

  class Log {
    var file: Option<seq<Byte>>
    ghost var blobs: seq<seq<Byte>>

    /** The file, once there is one, is a header of either version and the frames of the blobs. */
    ghost predicate Valid()
      reads this
    {
      && Storable(blobs)
      && (file.None? ==> blobs == [])
      && (file.Some? ==> file.value == Header(1) + Frames(blobs) || file.value == Header(2) + Frames(blobs))
    }

    constructor ()
      ensures Valid() && blobs == []
    {
      file, blobs := None, [];
    }

    method OpenOrCreate() returns (problem: Option<Problem>)
      requires Valid()
      modifies this`file
      ensures Valid() && problem == None && file.Some?
      ensures old(file).Some? ==> file == old(file)
    {
      if file.None? {
        file := Some(Header(1));
        assert Header(1) + Frames([]) == Header(1);
        return None;
      }
      problem := Open();
    }

    method Open() returns (problem: Option<Problem>)
      requires Valid() && file.Some?
      ensures problem == None
    {
      var bytes := file.value;
      BrecciaEntry.Widths();
      LittleEndianRoundTrip(1, 4);
      LittleEndianRoundTrip(2, 4);
      if |bytes| < 8 {
        return Some(Truncated);
      }
      if bytes[..8] != MAGIC {
        return Some(BadMagic);
      }
      if |bytes| < HEADER_LEN {
        return Some(Truncated);
      }
      assert bytes[8..12] == LittleEndian(1, 4) || bytes[8..12] == LittleEndian(2, 4);
      var version := FromLittleEndian(bytes[8..12]);
      if version != 1 && version != 2 {
        return Some(BadVersion);
      }
      return None;
    }

    /** Overwrites the version in place. */
    method EnsureV2Header()
      requires Valid() && file.Some?
      modifies this`file
      ensures Valid() && file.Some? && |file.value| == |old(file).value|
    {
      var bytes := file.value;
      file := Some(bytes[..8] + LittleEndian(2, 4) + bytes[12..]);
      assert bytes[..8] == MAGIC && bytes[12..] == Frames(blobs);
    }

    method AppendBlob(blob: seq<Byte>) returns (result: Result<nat, Problem>)
      requires Valid() && file.Some?
      modifies this
      ensures Valid() && file.Some?
      ensures |blob| > MAX_BLOB_LEN ==> result == Err(BlobTooLong) && blobs == old(blobs) && file == old(file)
      ensures |blob| <= MAX_BLOB_LEN ==> result == Ok(|old(file).value|) && blobs == old(blobs) + [blob]
    {
      if |blob| > MAX_BLOB_LEN {
        return Err(BlobTooLong);
      }
      var offset := |file.value|;
      FramesSnoc(blobs, blob);
      assert forall version ::
        Header(version) + Frames(blobs) + Frame(blob) == Header(version) + Frames(blobs + [blob]);
      file := Some(file.value + Frame(blob));
      blobs := blobs + [blob];
      return Ok(offset);
    }

    /** Gives back exactly the appended blobs, in order. */
    method ReadAllBlobs() returns (result: Result<seq<seq<Byte>>, Problem>)
      requires Valid() && file.Some?
      ensures result == Ok(blobs)
    {
      FramesRoundTrip(blobs);
      assert file.value[HEADER_LEN..] == Frames(blobs);
      result := ReadFrom(file.value[HEADER_LEN..]);
    }

    method ReadAll() returns (result: Result<seq<seq<Byte>>, Problem>)
      requires Valid()
      ensures result == Ok(blobs)
    {
      if file.None? {
        return Ok([]);
      }
      var problem := Open();
      result := ReadAllBlobs();
    }
  }

  /** The bytes of a log: magic and version, and each blob behind its length in eight bytes, in order. */
  lemma Layout(version: nat, blob: seq<Byte>, more: seq<seq<Byte>>)
    ensures Header(version) == [0x4c, 0x4f, 0x52, 0x42, 0x52, 0x45, 0x43, 0x43] + LittleEndian(version, 4)
    ensures Frames([]) == []
    ensures Frames([blob] + more) == (LittleEndian(|blob|, 8) + blob) + Frames(more)
  {
    assert ([blob] + more)[1..] == more;
  }
}
