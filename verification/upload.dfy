/**
 * The chunked firmware upload: a stream that cuts the payload into frames of
 * at most 2 MiB, each tagged with the firmware name, and the upload operation
 * that hands the whole stream to the transport.
 */
module Upload {
  import opened Ints
  import opened Messages

  /** The chunk size the upload uses: 2 MiB. */
  const ChunkSize: nat := 2 * 1024 * 1024

  function Min(a: int, b: int): int
  {
    if a <= b then a else b
  }

  /**
   * The frames a stream with the given chunk size emits for `data`, in
   * emission order: the first min(size, |data|) bytes, then the frames of the
   * rest, until nothing is left.
   */
  function Frames(name: string, data: seq<u8>, size: nat): seq<UploadFirmwareRequest>
    requires size > 0
    decreases |data|
  {
    if |data| == 0 then []
    else
      var n := Min(size, |data|);
      [UploadFirmwareRequest(name, data[..n])] + Frames(name, data[n..], size)
  }

  /** The payloads of the frames, joined in order: what the receiver reassembles. */
  function Concat(frames: seq<UploadFirmwareRequest>): seq<u8>
  {
    if frames == [] then [] else frames[0].data + Concat(frames[1..])
  }

  /** The frames reassemble to exactly the original payload. */
  lemma {:induction false} FramesConcat(name: string, data: seq<u8>, size: nat)
    requires size > 0
    ensures Concat(Frames(name, data, size)) == data
    decreases |data|
  {
    if |data| > 0 {
      var n := Min(size, |data|);
      var rest := Frames(name, data[n..], size);
      FramesConcat(name, data[n..], size);
      assert Frames(name, data, size)[1..] == rest;
      assert data[..n] + data[n..] == data;
    }
  }

  /** Every frame carries the firmware name and between 1 and `size` bytes. */
  lemma {:induction false} FramesBounded(name: string, data: seq<u8>, size: nat)
    requires size > 0
    ensures forall i :: 0 <= i < |Frames(name, data, size)| ==>
      Frames(name, data, size)[i].name == name && 1 <= |Frames(name, data, size)[i].data| <= size
    decreases |data|
  {
    if |data| > 0 {
      var n := Min(size, |data|);
      FramesBounded(name, data[n..], size);
      var fs := Frames(name, data, size);
      forall i | 0 < i < |fs|
        ensures fs[i] == Frames(name, data[n..], size)[i - 1]
      {
      }
    }
  }

  /** Every frame but the last is a full chunk. */
  lemma {:induction false} FramesFull(name: string, data: seq<u8>, size: nat)
    requires size > 0
    ensures forall i :: 0 <= i < |Frames(name, data, size)| - 1 ==> |Frames(name, data, size)[i].data| == size
    decreases |data|
  {
    if |data| > 0 {
      var n := Min(size, |data|);
      var rest := Frames(name, data[n..], size);
      FramesFull(name, data[n..], size);
      var fs := Frames(name, data, size);
      if |data| < size {
        assert rest == [];
      }
      forall i | 0 < i < |fs| - 1
        ensures fs[i] == rest[i - 1]
      {
      }
    }
  }

  /** The stream emits ceil(|data| / size) frames; none at all for an empty payload. */
  lemma {:induction false} FramesCount(name: string, data: seq<u8>, size: nat)
    requires size > 0
    ensures |Frames(name, data, size)| == (|data| + size - 1) / size
    decreases |data|
  {
    if |data| == 0 {
      DivModUnique(size - 1, size, 0, size - 1);
    } else if |data| <= size {
      assert data[|data|..] == [];
      DivModUnique(|data| + size - 1, size, 1, |data| - 1);
    } else {
      FramesCount(name, data[size..], size);
      var k := |data| - 1;
      DivModUnique(k, size, k / size, k % size);
      DivModUnique(k + size, size, k / size + 1, k % size);
    }
  }

  /**
   * The upload stream: the firmware name and payload, the chunk size, and
   * how far into the payload it has got. Only `offset` changes.
   */
  class DataStream {
    const name: string
    const data: seq<u8>
    const chunkSize: nat
    var offset: nat

    ghost predicate Valid()
      reads this
    {
      chunkSize > 0 && offset <= |data|
    }

    /** The frames the stream has still to emit. */
    ghost function Pending(): seq<UploadFirmwareRequest>
      reads this
      requires Valid()
    {
      Frames(name, data[offset..], chunkSize)
    }

    /** A fresh stream for the upload of `data` under `name`, with 2 MiB chunks. */
    constructor (name: string, data: seq<u8>)
      ensures Valid()
      ensures this.name == name && this.data == data && chunkSize == ChunkSize && offset == 0
      ensures Pending() == Frames(name, data, ChunkSize)
    {
      this.name := name;
      this.data := data;
      this.chunkSize := ChunkSize;
      this.offset := 0;
      new;
      assert data[0..] == data;
    }

    /**
     * The next frame, or `None` once the payload is used up. A frame is the
     * slice from `offset` up to `offset + chunkSize`, cut at the end of the
     * payload, and `offset` moves past it. A stream that is used up stays so.
     */
    method Next() returns (item: Option<UploadFirmwareRequest>)
      requires Valid()
      modifies this
      ensures Valid()
      ensures old(offset) <= offset
      ensures item.None? <==> old(offset) == |data|
      ensures item.None? ==> offset == old(offset)
      ensures item.Some? ==>
        && offset == Min(old(offset) + chunkSize, |data|)
        && item.value == UploadFirmwareRequest(name, data[old(offset)..offset])
      ensures old(Pending()) == if item.Some? then [item.value] + Pending() else []
    {
      if offset >= |data| {
        return None;
      }
      var end := Min(offset + chunkSize, |data|);
      var chunk := data[offset..end];
      ghost var rest := data[offset..];
      assert rest[..end - offset] == chunk;
      assert rest[end - offset..] == data[end..];
      offset := end;
      item := Some(UploadFirmwareRequest(name, chunk));
    }
  }

  /**
   * upload_firmware: streams `data` to the server under `name` and returns
   * its single aggregate reply. The server receives exactly the frames of
   * `Frames`, in order, with 2 MiB chunks.
   */
  method UploadFirmware(t: Transport, name: string, data: seq<u8>) returns (r: Result<bool>)
    ensures r == t.uploadFirmware(Frames(name, data, ChunkSize))
  {
    var stream := new DataStream(name, data);
    var frames: seq<UploadFirmwareRequest> := [];
    var done := false;
    while !done
      invariant stream.Valid() && stream.name == name && stream.data == data && stream.chunkSize == ChunkSize
      invariant frames + stream.Pending() == Frames(name, data, ChunkSize)
      invariant done ==> stream.Pending() == []
      decreases |data| - stream.offset, if done then 0 else 1
    {
      var item := stream.Next();
      match item
      case None =>
        done := true;
      case Some(frame) =>
        frames := frames + [frame];
    }
    assert frames == Frames(name, data, ChunkSize);
    r := t.uploadFirmware(frames);
  }

  /** The outcome of reading a whole local file: its bytes, or the error's text. */
  datatype FileRead = Read(bytes: seq<u8>) | ReadFailed(reason: string)

  /**
   * upload_firmware_file: `contents` is the outcome of reading the file at
   * `path`. A failed read gives an internal error naming the file, and the
   * transport is not used; otherwise the bytes are uploaded as by
   * `UploadFirmware`.
   */
  method UploadFirmwareFile(t: Transport, name: string, path: string, contents: FileRead)
    returns (r: Result<bool>)
    ensures contents.ReadFailed? ==>
      r == Err(Status(Internal, "Failed to read file " + path + ": " + contents.reason))
    ensures contents.Read? ==> r == t.uploadFirmware(Frames(name, contents.bytes, ChunkSize))
  {
    match contents
    case ReadFailed(reason) =>
      r := Err(Status(Internal, "Failed to read file " + path + ": " + reason));
    case Read(data) =>
      r := UploadFirmware(t, name, data);
  }
}
