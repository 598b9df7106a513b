/** The object store of one partition: segment and index objects keyed by base
    offset, with inclusive ranged reads (pkg/storage/s3_memory.go). */
module ObjectStore {
  import opened Bytes
  import opened Wrappers

  datatype Objects = Objects(data: map<int, bytes>, index: map<int, bytes>)

  datatype ByteRange = ByteRange(start: int, end: int)

  /** Bytes `start` to `end` of an object, both included, as section 14.1.2 of RFC 9110
      reads a range: the end is cut to the object, an empty selection is an error. */
  function Ranged(data: bytes, rng: ByteRange): (r: Result<bytes>)
    ensures r.Ok? <==> data != [] && 0 <= rng.end && rng.start <= rng.end && rng.start < |data|
    ensures r.Ok? ==> forall i :: 0 <= i < |r.value| ==>
              var at := i + (if rng.start < 0 then 0 else rng.start);
              at < |data| && r.value[i] == data[at]
  {
    var start := if rng.start < 0 then 0 else rng.start;
    var end := if rng.end >= |data| then |data| - 1 else rng.end;
    if start > end || start >= |data| then Err(InvalidRange) else Ok(data[start..end + 1])
  }

  function Downloaded(objs: Objects, base: int, rng: Option<ByteRange>): Result<bytes> {
    if base !in objs.data then Err(NotFound)
    else if rng.None? then Ok(objs.data[base])
    else Ranged(objs.data[base], rng.value)
  }

  class MemoryS3 {
    var data: map<int, bytes>
    var index: map<int, bytes>

    ghost function View(): Objects
      reads this
    {
      Objects(data, index)
    }

    constructor ()
      ensures View() == Objects(map[], map[])
    {
      data, index := map[], map[];
    }

    method UploadSegment(base: int, body: bytes)
      modifies this
      ensures View() == Objects(old(data)[base := body], old(index))
    {
      data := data[base := body];
    }

    method UploadIndex(base: int, body: bytes)
      modifies this
      ensures View() == Objects(old(data), old(index)[base := body])
    {
      index := index[base := body];
    }

    method DownloadSegment(base: int, rng: Option<ByteRange>) returns (r: Result<bytes>)
      ensures r == Downloaded(View(), base, rng)
    {
      if base in data {
        if rng.None? { return Ok(data[base]); }
        var start, end := rng.value.start, rng.value.end;
        if start < 0 { start := 0; }
        if end >= |data[base]| { end := |data[base]| - 1; }
        if start > end || start >= |data[base]| { return Err(InvalidRange); }
        return Ok(data[base][start..end + 1]);
      }
      return Err(NotFound);
    }

    method DownloadIndex(base: int) returns (r: Result<bytes>)
      ensures r == if base in index then Ok(index[base]) else Err(NotFound)
    {
      if base in index { return Ok(index[base]); }
      return Err(NotFound);
    }

    /** Lists every segment object once, in the unspecified order of a map. */
    method ListSegments() returns (bases: seq<int>)
      ensures forall b :: b in bases <==> b in data
      ensures forall i, j :: 0 <= i < j < |bases| ==> bases[i] != bases[j]
    {
      bases := [];
      var rest := data.Keys;
      while exists b :: b in rest
        invariant rest <= data.Keys
        invariant forall b :: b in bases <==> b in data && b !in rest
        invariant forall i, j :: 0 <= i < j < |bases| ==> bases[i] != bases[j]
        decreases rest
      {
        var b :| b in rest;
        bases := bases + [b];
        rest := rest - {b};
      }
    }
  }
}
