/**
  Multipart uploads: how a file or a stream of unknown length is cut into the
  numbered parts that the object store puts back together.
*/
module Multipart {
  import opened Wrappers
  import opened PktLine

  const MIB: nat := 1024 * 1024
  const MAX_OBJECT: nat := 5 * 1024 * 1024 * MIB
  const MAX_PARTS: nat := 10000
  const MIN_PART: nat := 5 * MIB
  const DEFAULT_PART: nat := 64 * MIB

  datatype Error = TooLarge | Unavailable

  datatype Part = Part(number: nat, body: Bytes)

  function CeilDiv(n: nat, d: nat): nat
    requires d > 0
  {
    (n + d - 1) / d
  }

  function Larger(a: nat, b: nat): nat {
    if a < b then b else a
  }

  function PartSize(len: nat): (r: Result<nat, Error>)
    ensures r.Ok? <==> len <= MAX_OBJECT
    ensures r.Ok? ==> r.value >= MIN_PART && len <= MAX_PARTS * r.value
    ensures r.Ok? ==> r.value == DEFAULT_PART || MAX_PARTS * (r.value - 1) < len
    ensures r.Ok? && len <= MAX_PARTS * DEFAULT_PART ==> r.value == DEFAULT_PART
  {
    if len > MAX_OBJECT then Err(TooLarge)
    else Ok(Larger(Larger(DEFAULT_PART, CeilDiv(len, MAX_PARTS)), MIN_PART))
  }

  // ------------------------------------------------------------------ what parts are

  /** Full parts as long as they last, then what is left. */
  function PartsOf(data: Bytes, size: nat, number: nat): seq<Part>
    requires size > 0
    decreases |data|
  {
    if data == [] then []
    else if |data| <= size then [Part(number, data)]
    else [Part(number, data[..size])] + PartsOf(data[size..], size, number + 1)
  }

  function Assembled(parts: seq<Part>): Bytes {
    if parts == [] then [] else parts[0].body + Assembled(parts[1..])
  }

  /** The parts tile the data: consecutive numbers, full size except the last, nothing lost or repeated. */
  lemma {:induction false} PartsTile(data: Bytes, size: nat, number: nat)
    requires size > 0
    ensures Assembled(PartsOf(data, size, number)) == data
    ensures forall i | 0 <= i < |PartsOf(data, size, number)| :: PartsOf(data, size, number)[i].number == number + i
    ensures forall i | 0 <= i < |PartsOf(data, size, number)| :: 0 < |PartsOf(data, size, number)[i].body| <= size
    ensures forall i | 0 <= i < |PartsOf(data, size, number)| - 1 :: |PartsOf(data, size, number)[i].body| == size
    decreases |data|
  {
    var parts := PartsOf(data, size, number);
    if data == [] {
    } else if |data| <= size {
      assert Assembled(parts) == data + Assembled(parts[1..]) && parts[1..] == [];
    } else {
      var rest := PartsOf(data[size..], size, number + 1);
      PartsTile(data[size..], size, number + 1);
      assert parts[1..] == rest;
      forall i | 0 < i < |parts|
        ensures parts[i] == rest[i - 1]
      {
      }
      assert rest != [];
    }
  }

  /** At most n parts are needed exactly when n full parts hold the data. */
  lemma {:induction false} PartCount(data: Bytes, size: nat, number: nat, n: nat)
    requires size > 0
    ensures |PartsOf(data, size, number)| <= n <==> |data| <= n * size
    decreases |data|
  {
    if n == 0 {
    } else if |data| > size {
      PartCount(data[size..], size, number + 1, n - 1);
      assert n * size == (n - 1) * size + size;
    } else {
      assert n * size >= size by {
        assert n * size == (n - 1) * size + size;
      }
    }
  }

  // ------------------------------------------------------------------------ uploading

  /** Cutting off one more part. */
  lemma NextPart(data: Bytes, size: nat, parts: seq<Part>, offset: nat, number: nat, length: nat)
    requires size > 0 && offset < |data|
    requires length == if size < |data| - offset then size else |data| - offset
    requires parts + PartsOf(data[offset..], size, number) == PartsOf(data, size, 1)
    ensures var part := Part(number, data[offset..offset + length]);
            && parts + [part] + PartsOf(data[offset + length..], size, number + 1) == PartsOf(data, size, 1)
            && part in PartsOf(data, size, 1)
  {
    var rest := data[offset..];
    var part := Part(number, data[offset..offset + length]);
    assert rest[..length] == part.body && rest[length..] == data[offset + length..];
    assert length == |data| - offset ==> part.body == rest;
    assert PartsOf(rest, size, number) == [part] + PartsOf(data[offset + length..], size, number + 1);
    assert parts + ([part] + PartsOf(data[offset + length..], size, number + 1))
        == parts + [part] + PartsOf(data[offset + length..], size, number + 1);
    assert PartsOf(data, size, 1)[|parts|] == part;
  }

  lemma NoMoreParts(size: nat, number: nat)
    requires size > 0
    ensures PartsOf([], size, number) == []
  {
  }

  /** Some part is among those whose upload fails. */
  ghost predicate SomeFails(parts: seq<Part>, failing: set<nat>) {
    exists p :: p in parts && p.number in failing
  }

  /** Uploading a file: parts of the chosen size at increasing offsets until the end, or until one fails. */
  method PutFileParts(file: Bytes, failing: set<nat>) returns (r: Result<seq<Part>, Error>)
    ensures r == Err(TooLarge) <==> |file| > MAX_OBJECT
    ensures r == Err(Unavailable) <==> |file| <= MAX_OBJECT && SomeFails(PartsOf(file, PartSize(|file|).value, 1), failing)
    ensures r.Ok? ==> PartSize(|file|).Ok? && r.value == PartsOf(file, PartSize(|file|).value, 1)
    ensures r.Ok? ==> |r.value| <= MAX_PARTS && Assembled(r.value) == file
  {
    hide PartsOf, Assembled;
    var size;
    match PartSize(|file|) {
      case Err(e) =>
        return Err(e);
      case Ok(s) =>
        size := s;
    }
    var parts: seq<Part> := [];
    var offset, number := 0, 1;
    assert file[0..] == file;
    while offset < |file|
      invariant 0 <= offset <= |file| && number == |parts| + 1
      invariant parts + PartsOf(file[offset..], size, number) == PartsOf(file, size, 1)
      invariant forall p | p in parts :: p.number !in failing
      decreases |file| - offset
    {
      var length := if size < |file| - offset then size else |file| - offset;
      var body := file[offset..offset + length];
      NextPart(file, size, parts, offset, number, length);
      if number in failing {
        return Err(Unavailable);
      }
      parts := parts + [Part(number, body)];
      offset := offset + length;
      number := number + 1;
    }
    assert file[offset..] == [];
    NoMoreParts(size, number);
    PartCount(file, size, 1, MAX_PARTS);
    PartsTile(file, size, 1);
    return Ok(parts);
  }

  /** Fills a buffer from a reader that may return fewer bytes than asked for. */
  method FillBuffer(data: Bytes, offset: nat, size: nat) returns (filled: nat)
    requires offset <= |data|
    ensures filled == if |data| - offset < size then |data| - offset else size
  {
    filled := 0;
    while filled < size
      invariant filled <= size && offset + filled <= |data|
      decreases size - filled
    {
      var most := if |data| - offset - filled < size - filled then |data| - offset - filled else size - filled;
      if most == 0 {
        break;
      }
      var n: nat :| 0 < n <= most;
      filled := filled + n;
    }
  }

  /**
    Uploading a stream: the parts depend on the bytes alone, not on how the
    reader hands them out, and are the same a file of that content would get
    for that part size.
  */
  method PutStreamParts(data: Bytes, size: nat, failing: set<nat>) returns (r: Result<seq<Part>, Error>)
    requires size > 0
    ensures r.Ok? ==> r.value == PartsOf(data, size, 1) && Assembled(r.value) == data
    ensures r.Err? <==> SomeFails(PartsOf(data, size, 1), failing)
    ensures r.Err? ==> r.error == Unavailable
  {
    hide PartsOf, Assembled;
    var parts: seq<Part> := [];
    var offset, number := 0, 1;
    assert data[0..] == data;
    while true
      invariant 0 <= offset <= |data| && number == |parts| + 1
      invariant parts + PartsOf(data[offset..], size, number) == PartsOf(data, size, 1)
      invariant forall p | p in parts :: p.number !in failing
      decreases |data| - offset
    {
      var filled := FillBuffer(data, offset, size);
      if filled == 0 {
        assert data[offset..] == [];
        break;
      }
      var body := data[offset..offset + filled];
      NextPart(data, size, parts, offset, number, filled);
      if number in failing {
        return Err(Unavailable);
      }
      parts := parts + [Part(number, body)];
      offset := offset + filled;
      number := number + 1;
      if filled < size {
        assert data[offset..] == [];
        break;
      }
    }
    NoMoreParts(size, number);
    PartsTile(data, size, 1);
    return Ok(parts);
  }

  /** The part size for a stream whose length the sender announced, or 0 when it did not. */
  function StreamPartSize(announced: nat): Result<nat, Error> {
    PartSize(if announced == 0 then 2 * DEFAULT_PART else announced)
  }

  /**
    A stream of honest announced length stays within the allowed number of
    parts; one of unknown length does so exactly up to 625 GiB, because its
    part size is fixed before anything is known about it.
  */
  lemma StreamParts(data: Bytes, announced: nat)
    requires StreamPartSize(announced).Ok?
    ensures announced == |data| > 0 ==> |PartsOf(data, StreamPartSize(announced).value, 1)| <= MAX_PARTS
    ensures announced == 0 ==>
              (|PartsOf(data, StreamPartSize(announced).value, 1)| <= MAX_PARTS <==> |data| <= 625 * 1024 * MIB)
  {
    var size := StreamPartSize(announced).value;
    PartCount(data, size, 1, MAX_PARTS);
  }
}
