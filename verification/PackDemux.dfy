/**
  The incremental demultiplexer of an upload-pack response, and the one-shot
  parse that it refines.  A response is a list of pre-pack lines closed by NAK,
  then either raw pack bytes or side-band packets closed by a flush packet.
*/
module PackDemux {
  import opened Wrappers
  import opened PktLine

  /** Upper bound on the bytes held back while a packet is incomplete. */
  const MAX_BUFFER: nat := 128 * 1024

  /** Chunks of at most this many bytes can never overflow the buffer. */
  const SAFE_CHUNK: nat := MAX_BUFFER - 65534

  datatype State = AwaitNak | Sideband | RawPack | Done | Failed

  // --------------------------------------------------------- one-shot parse

  /** The outcome of parsing: the final state, the pack bytes and the unread tail. */
  datatype Parsed = Parsed(state: State, pack: Bytes, rest: Bytes)

  predicate StartsWith(s: Bytes, prefix: Bytes)
    ensures StartsWith(s, prefix) <==> |prefix| <= |s| && forall i | 0 <= i < |prefix| :: s[i] == prefix[i]
  {
    prefix <= s
  }

  const NAK: Bytes := [78, 65, 75]
  const ACK: Bytes := [65, 67, 75]
  const SHALLOW: Bytes := [115, 104, 97, 108, 108, 111, 119]
  const UNSHALLOW: Bytes := [117, 110] + SHALLOW

  /** Lines that may stand before NAK. */
  predicate PrePack(payload: Bytes) {
    StartsWith(payload, ACK) || StartsWith(payload, SHALLOW) || StartsWith(payload, UNSHALLOW)
  }

  /** What the bytes at hand allow: wait for more, end the parse, or consume one packet. */
  datatype Step = Wait | End(final: State) | Advance(next: State, data: Bytes, size: nat)

  /** What one complete packet does: the next state and the pack bytes it carries. */
  function Frame(awaiting: bool, sideband: bool, payload: Bytes): (r: (State, Bytes))
    requires |payload| > 0
    ensures r.0 != Done
    ensures awaiting ==> r.1 == []
    ensures awaiting ==> (r.0 == AwaitNak <==> PrePack(payload) && !StartsWith(payload, NAK))
    ensures awaiting ==> (r.0 == Failed <==> !PrePack(payload) && !StartsWith(payload, NAK))
    ensures r.0 in {Sideband, RawPack} && awaiting ==> StartsWith(payload, NAK) && (r.0 == Sideband <==> sideband)
    ensures !awaiting ==> r.0 == if payload[0] in {1, 2} then Sideband else Failed
    ensures r.1 != [] ==> payload == [1] + r.1
    ensures !awaiting && payload[0] == 1 ==> [1] + r.1 == payload
  {
    if awaiting then
      if StartsWith(payload, NAK) then (if sideband then Sideband else RawPack, [])
      else if PrePack(payload) then (AwaitNak, [])
      else (Failed, [])
    else
      if payload[0] == 1 then (Sideband, payload[1..])
      else if payload[0] == 2 then (Sideband, [])
      else (Failed, [])
  }

  /** The next step of a parse that is still reading packets. */
  function NextStep(awaiting: bool, sideband: bool, input: Bytes): (r: Step)
    ensures r.Advance? ==> 4 <= r.size <= |input|
    ensures r.End? ==> r.final == Done || r.final == Failed
  {
    if |input| < 4 then Wait
    else
      var length := ParseLength(input[..4]);
      if length.None? then End(Failed)
      else
        var n := length.value;
        if n == 0 then (if awaiting then Advance(AwaitNak, [], 4) else End(Done))
        else if n < 5 then End(Failed)
        else if |input| < n then Wait
        else
          var (next, data) := Frame(awaiting, sideband, input[4..n]);
          if next == Failed then End(Failed) else Advance(next, data, n)
  }

  /** The step taken when a whole packet with a payload is at hand. */
  lemma StepOnPacket(awaiting: bool, sideband: bool, input: Bytes, n: nat)
    requires |input| >= 4 && ParseLength(input[..4]) == Some(n) && 5 <= n <= |input|
    ensures var (next, data) := Frame(awaiting, sideband, input[4..n]);
            NextStep(awaiting, sideband, input) == if next == Failed then End(Failed) else Advance(next, data, n)
  {
  }

  /** The step taken in every other case. */
  lemma StepOtherwise(awaiting: bool, sideband: bool, input: Bytes)
    ensures |input| < 4 ==> NextStep(awaiting, sideband, input) == Wait
    ensures |input| >= 4 ==>
      match ParseLength(input[..4])
      case None => NextStep(awaiting, sideband, input) == End(Failed)
      case Some(n) =>
        && (n == 0 ==> NextStep(awaiting, sideband, input) == if awaiting then Advance(AwaitNak, [], 4) else End(Done))
        && (0 < n < 5 ==> NextStep(awaiting, sideband, input) == End(Failed))
        && (5 <= n && |input| < n ==> NextStep(awaiting, sideband, input) == Wait)
  {
  }

  /** The protocol read in one go over everything that is left to read. */
  function Parse(state: State, sideband: bool, input: Bytes): Parsed
    decreases |input|
  {
    if state == RawPack then Parsed(RawPack, input, [])
    else if state == Done || state == Failed then Parsed(state, [], [])
    else
      var step := NextStep(state == AwaitNak, sideband, input);
      if step.Wait? then Parsed(state, [], input)
      else if step.End? then Parsed(step.final, [], [])
      else
        var tail := Parse(step.next, sideband, input[step.size..]);
        tail.(pack := step.data + tail.pack)
  }

  /** A parse that is not over unfolds by one step. */
  lemma ParseStep(state: State, sideband: bool, input: Bytes)
    requires state == AwaitNak || state == Sideband
    ensures var step := NextStep(state == AwaitNak, sideband, input);
            && (step.Wait? ==> Parse(state, sideband, input) == Parsed(state, [], input))
            && (step.End? ==> Parse(state, sideband, input) == Parsed(step.final, [], []))
            && (step.Advance? ==>
                  Parse(state, sideband, input)
                  == Parsed(Parse(step.next, sideband, input[step.size..]).state,
                            step.data + Parse(step.next, sideband, input[step.size..]).pack,
                            Parse(step.next, sideband, input[step.size..]).rest))
  {
    hide NextStep;
  }

  /** What may be held back between chunks: less than one packet, and nothing once the parse is over. */
  predicate Holdable(state: State, sideband: bool, buf: Bytes) {
    if state == AwaitNak || state == Sideband then NextStep(state == AwaitNak, sideband, buf).Wait?
    else buf == []
  }

  lemma WaitIsShort(awaiting: bool, sideband: bool, buf: Bytes)
    requires NextStep(awaiting, sideband, buf).Wait?
    ensures |buf| <= 65534
  {
  }

  lemma StepIsStable(awaiting: bool, sideband: bool, a: Bytes, b: Bytes)
    requires !NextStep(awaiting, sideband, a).Wait?
    ensures NextStep(awaiting, sideband, a + b) == NextStep(awaiting, sideband, a)
  {
    assert (a + b)[..4] == a[..4];
    var length := ParseLength(a[..4]);
    if length.Some? && 5 <= length.value {
      assert (a + b)[4..length.value] == a[4..length.value];
    }
  }

  lemma {:induction false} ParseHoldable(state: State, sideband: bool, input: Bytes)
    ensures var p := Parse(state, sideband, input); Holdable(p.state, sideband, p.rest)
    decreases |input|
  {
    if state == AwaitNak || state == Sideband {
      var step := NextStep(state == AwaitNak, sideband, input);
      if step.Advance? {
        ParseHoldable(step.next, sideband, input[step.size..]);
      }
    }
  }

  lemma StartIsHoldable(sideband: bool)
    ensures Holdable(AwaitNak, sideband, [])
  {
  }

  lemma ParseOfHeld(state: State, sideband: bool, buf: Bytes)
    requires Holdable(state, sideband, buf)
    ensures Parse(state, sideband, buf) == Parsed(state, [], buf)
  {
  }

  /** The parse of all the input, resumed at an offset after extracting what came before it. */
  ghost predicate Resumes(from: State, sideband: bool, all: Bytes, state: State, offset: nat, got: Bytes)
    requires offset <= |all|
  {
    var p := Parse(state, sideband, all[offset..]);
    Parse(from, sideband, all) == Parsed(p.state, got + p.pack, p.rest)
  }

  lemma ResumeAtStart(from: State, sideband: bool, all: Bytes)
    ensures Resumes(from, sideband, all, from, 0, [])
  {
    assert all[0..] == all;
    assert [] + Parse(from, sideband, all).pack == Parse(from, sideband, all).pack;
  }

  lemma ResumeRaw(from: State, sideband: bool, all: Bytes, offset: nat, got: Bytes)
    requires offset <= |all| && Resumes(from, sideband, all, RawPack, offset, got)
    ensures Parse(from, sideband, all) == Parsed(RawPack, got + all[offset..], [])
  {
  }

  lemma ParseWhenOver(state: State, sideband: bool, input: Bytes)
    ensures state == RawPack ==> Parse(state, sideband, input) == Parsed(RawPack, input, [])
    ensures state == Done || state == Failed ==> Parse(state, sideband, input) == Parsed(state, [], [])
  {
  }

  lemma ResumeAfterStep(from: State, sideband: bool, all: Bytes, state: State, offset: nat, got: Bytes)
    requires offset <= |all| && Resumes(from, sideband, all, state, offset, got)
    requires state == AwaitNak || state == Sideband
    ensures var step := NextStep(state == AwaitNak, sideband, all[offset..]);
            match step
            case Wait => Parse(from, sideband, all) == Parsed(state, got, all[offset..])
            case End(final) => Parse(from, sideband, all) == Parsed(final, got, [])
            case Advance(next, data, n) => Resumes(from, sideband, all, next, offset + n, got + data)
  {
    hide NextStep, Parse;
    ParseStep(state, sideband, all[offset..]);
    var step := NextStep(state == AwaitNak, sideband, all[offset..]);
    if step.Advance? {
      assert all[offset..][step.size..] == all[offset + step.size..];
      Associate(got, step.data, Parse(step.next, sideband, all[offset + step.size..]).pack);
    } else {
      assert got + [] == got;
    }
  }

  lemma Associate(a: Bytes, b: Bytes, c: Bytes)
    ensures a + (b + c) == (a + b) + c
  {
  }

  /** Parsing a prefix and then its unread tail with the rest is parsing everything. */
  lemma {:induction false} ParseSplit(state: State, sideband: bool, a: Bytes, b: Bytes)
    ensures var first := Parse(state, sideband, a);
            var second := Parse(first.state, sideband, first.rest + b);
            Parse(state, sideband, a + b) == Parsed(second.state, first.pack + second.pack, second.rest)
    decreases |a|
  {
    hide NextStep, Parse;
    if state == AwaitNak || state == Sideband {
      ParseStep(state, sideband, a);
      var step := NextStep(state == AwaitNak, sideband, a);
      if step.Wait? {
        assert [] + Parse(state, sideband, a + b).pack == Parse(state, sideband, a + b).pack;
      } else {
        StepIsStable(state == AwaitNak, sideband, a, b);
        ParseStep(state, sideband, a + b);
        if step.Advance? {
          assert (a + b)[step.size..] == a[step.size..] + b;
          ParseSplit(step.next, sideband, a[step.size..], b);
          var first := Parse(step.next, sideband, a[step.size..]);
          Associate(step.data, first.pack, Parse(first.state, sideband, first.rest + b).pack);
        } else {
          ParseWhenOver(step.final, sideband, [] + b);
        }
      }
    } else {
      ParseWhenOver(state, sideband, a);
      ParseWhenOver(state, sideband, [] + b);
      ParseWhenOver(state, sideband, a + b);
      assert state == RawPack ==> a + ([] + b) == a + b;
    }
  }

  /** A response cut short yields a prefix of the pack; what was extracted is never taken back. */
  lemma CutResponseYieldsPrefix(state: State, sideband: bool, a: Bytes, b: Bytes)
    ensures Parse(state, sideband, a).pack <= Parse(state, sideband, a + b).pack
  {
    ParseSplit(state, sideband, a, b);
  }

  // ------------------------------------------------------ one chunk at a time

  /** The demultiplexer between two chunks, together with everything it has extracted. */
  datatype Progress = Progress(state: State, buf: Bytes, pack: Bytes)

  function Start(): Progress {
    Progress(AwaitNak, [], [])
  }

  /** The effect of one chunk, buffer limit included. */
  function Fed(p: Progress, sideband: bool, chunk: Bytes): Progress {
    if (p.state == AwaitNak || p.state == Sideband) && |p.buf + chunk| > MAX_BUFFER then
      Progress(Failed, [], p.pack)
    else
      var r := Parse(p.state, sideband, p.buf + chunk);
      Progress(r.state, r.rest, p.pack + r.pack)
  }

  function FedAll(p: Progress, sideband: bool, chunks: seq<Bytes>): Progress
    decreases |chunks|
  {
    if |chunks| == 0 then p else FedAll(Fed(p, sideband, chunks[0]), sideband, chunks[1..])
  }

  function Concat(chunks: seq<Bytes>): Bytes {
    if |chunks| == 0 then [] else chunks[0] + Concat(chunks[1..])
  }

  lemma {:induction false} FedAllAppend(p: Progress, sideband: bool, chunks: seq<Bytes>, c: Bytes)
    ensures FedAll(p, sideband, chunks + [c]) == Fed(FedAll(p, sideband, chunks), sideband, c)
    decreases |chunks|
  {
    hide Fed;
    if |chunks| == 0 {
      assert chunks + [c] == [c] && [c][1..] == [];
      assert FedAll(Fed(p, sideband, c), sideband, []) == Fed(p, sideband, c);
    } else {
      assert (chunks + [c])[1..] == chunks[1..] + [c];
      FedAllAppend(Fed(p, sideband, chunks[0]), sideband, chunks[1..], c);
    }
  }

  lemma {:induction false} ConcatAppend(chunks: seq<Bytes>, c: Bytes)
    ensures Concat(chunks + [c]) == Concat(chunks) + c
  {
    if |chunks| == 0 {
      assert chunks + [c] == [c] && [c][1..] == [];
    } else {
      assert (chunks + [c])[1..] == chunks[1..] + [c];
      ConcatAppend(chunks[1..], c);
      assert chunks[0] + (Concat(chunks[1..]) + c) == Concat(chunks) + c;
    }
  }

  /**
    Chunking is invisible: for every byte string and every split of it into
    chunks of at most SAFE_CHUNK bytes, the state, the pack bytes and the tail
    held back are those of the one-shot parse.  The limit never fires.
  */
  lemma {:induction false} ChunkingIsInvisible(p: Progress, sideband: bool, chunks: seq<Bytes>)
    requires Holdable(p.state, sideband, p.buf)
    requires SafeChunks(chunks)
    ensures var whole := Parse(p.state, sideband, p.buf + Concat(chunks));
            FedAll(p, sideband, chunks) == Progress(whole.state, whole.rest, p.pack + whole.pack)
    decreases |chunks|
  {
    hide NextStep, Parse;
    if |chunks| == 0 {
      assert p.buf + Concat(chunks) == p.buf;
      ParseOfHeld(p.state, sideband, p.buf);
    } else {
      var r := Parse(p.state, sideband, p.buf + chunks[0]);
      ParseHoldable(p.state, sideband, p.buf + chunks[0]);
      if p.state == AwaitNak || p.state == Sideband {
        WaitIsShort(p.state == AwaitNak, sideband, p.buf);
      }
      var q := Fed(p, sideband, chunks[0]);
      assert q == Progress(r.state, r.rest, p.pack + r.pack);
      ChunkingIsInvisible(q, sideband, chunks[1..]);
      ParseSplit(p.state, sideband, p.buf + chunks[0], Concat(chunks[1..]));
      assert p.buf + Concat(chunks) == (p.buf + chunks[0]) + Concat(chunks[1..]);
      var last := Parse(q.state, sideband, q.buf + Concat(chunks[1..]));
      assert p.pack + (r.pack + last.pack) == q.pack + last.pack;
    }
  }

  // ----------------------------------------------- what a well-formed response yields

  /** A side-band packet: band 1 carries pack data, band 2 progress text. */
  datatype Band = Data(bytes: Bytes) | Text(bytes: Bytes)

  predicate Fits(b: Band) {
    |b.bytes| + 1 <= MAX_PAYLOAD
  }

  function Render(b: Band): Bytes {
    Packet([if b.Data? then 1 else 2] + b.bytes)
  }

  function RenderAll(bands: seq<Band>): Bytes {
    if |bands| == 0 then [] else Render(bands[0]) + RenderAll(bands[1..])
  }

  /** The band-1 payloads in order. */
  function PackData(bands: seq<Band>): Bytes {
    if |bands| == 0 then []
    else (if bands[0].Data? then bands[0].bytes else []) + PackData(bands[1..])
  }

  function RenderLines(lines: seq<Bytes>): Bytes {
    if |lines| == 0 then [] else Packet(lines[0]) + RenderLines(lines[1..])
  }

  /** A whole packet at the front of the input is one step. */
  lemma PacketStep(awaiting: bool, sideband: bool, payload: Bytes, rest: Bytes)
    requires 0 < |payload| <= MAX_PAYLOAD
    ensures var (next, data) := Frame(awaiting, sideband, payload);
            NextStep(awaiting, sideband, Packet(payload) + rest)
            == if next == Failed then End(Failed) else Advance(next, data, |payload| + 4)
    ensures (Packet(payload) + rest)[|payload| + 4..] == rest
  {
    PacketParts(payload, rest);
  }

  /** Side-band packets give up exactly the band-1 data, and the flush ends the parse whatever follows it. */
  lemma {:induction false} BandsParse(bands: seq<Band>, trailing: Bytes)
    requires forall b :: b in bands ==> Fits(b)
    ensures Parse(Sideband, true, RenderAll(bands) + FLUSH + trailing) == Parsed(Done, PackData(bands), [])
  {
    var input := RenderAll(bands) + FLUSH + trailing;
    if |bands| == 0 {
      FlushLength();
      assert input[..4] == FLUSH;
    } else {
      var payload: Bytes := [if bands[0].Data? then 1 else 2] + bands[0].bytes;
      var rest := RenderAll(bands[1..]) + FLUSH + trailing;
      assert input == Packet(payload) + rest;
      assert Fits(bands[0]);
      assert payload[1..] == bands[0].bytes;
      PacketStep(false, true, payload, rest);
      BandsParse(bands[1..], trailing);
    }
  }

  lemma PrePackIsNotNak(line: Bytes)
    requires PrePack(line)
    ensures !StartsWith(line, NAK) && |line| > 0
  {
    assert ACK[0] != NAK[0] && SHALLOW[0] != NAK[0] && UNSHALLOW[0] != NAK[0];
  }

  lemma {:induction false} LinesParse(lines: seq<Bytes>, sideband: bool, rest: Bytes)
    requires forall l :: l in lines ==> PrePack(l) && |l| <= MAX_PAYLOAD
    ensures Parse(AwaitNak, sideband, RenderLines(lines) + rest) == Parse(AwaitNak, sideband, rest)
  {
    hide NextStep, Packet;
    if |lines| == 0 {
      assert RenderLines(lines) + rest == rest;
    } else {
      var tail := RenderLines(lines[1..]) + rest;
      assert RenderLines(lines) + rest == Packet(lines[0]) + tail;
      PrePackIsNotNak(lines[0]);
      PacketStep(true, sideband, lines[0], tail);
      LinesParse(lines[1..], sideband, rest);
    }
  }

  lemma FlushLength()
    ensures ParseLength(FLUSH) == Some(0)
  {
    LeadingZeros(4, []);
    assert FLUSH == seq(4, _ => 48) + [];
  }

  /** A packet one byte short is held back whole. */
  lemma HeldPacket(line: Bytes)
    requires |line| == MAX_PAYLOAD
    ensures NextStep(true, true, Packet(line)[..65534]).Wait?
    ensures |Packet(line)| == 65535
  {
    PacketParts(line, []);
    assert Packet(line) + [] == Packet(line);
    assert Packet(line)[..65534][..4] == Packet(line)[..4];
  }

  lemma FedTwice(sideband: bool, first: Bytes, second: Bytes)
    requires NextStep(true, sideband, first).Wait? && |first + second| > MAX_BUFFER
    ensures FedAll(Start(), sideband, [first, second]).state == Failed
  {
    hide NextStep, Parse;
    ParseOfHeld(AwaitNak, sideband, first);
    WaitIsShort(true, sideband, first);
    assert Start().buf + first == first;
    var one := Fed(Start(), sideband, first);
    var two := Fed(one, sideband, second);
    assert two.state == Failed;
    assert [first, second][1..] == [second] && [second][1..] == [];
    assert FedAll(one, sideband, [second]) == FedAll(two, sideband, []);
  }

  lemma TwoLines(line: Bytes, rest: Bytes)
    requires PrePack(line) && |line| <= MAX_PAYLOAD && |rest| < 4
    ensures Parse(AwaitNak, true, Packet(line) + Packet(line) + rest).state == AwaitNak
  {
    hide Packet;
    LinesParse([line, line], true, rest);
    assert [line, line][1..] == [line] && [line][1..] == [];
    assert RenderLines([line]) == Packet(line) + RenderLines([]);
    assert RenderLines([line, line]) == Packet(line) + RenderLines([line]);
    assert RenderLines([line, line]) == Packet(line) + Packet(line);
    assert NextStep(true, true, rest).Wait?;
  }

  lemma OverfullChunk(line: Bytes, rest: Bytes)
    requires PrePack(line) && |line| == MAX_PAYLOAD && |rest| == 3
    ensures |Packet(line)| == 65535
    ensures var first, second := Packet(line)[..65534], Packet(line)[65534..] + Packet(line) + rest;
            && |first| <= SAFE_CHUNK && |second| == SAFE_CHUNK + 1
            && FedAll(Start(), true, [first, second]).state == Failed
            && Parse(AwaitNak, true, first + second).state != Failed
  {
    hide Packet, Parse, NextStep, FedAll;
    HeldPacket(line);
    var first, second := Packet(line)[..65534], Packet(line)[65534..] + Packet(line) + rest;
    FedTwice(true, first, second);
    TwoLines(line, rest);
    assert first + second == Packet(line) + Packet(line) + rest;
  }

  /**
    The bound is exact: with one more byte in a chunk, a response whose one-shot
    parse succeeds can be rejected for overflowing the buffer.
  */
  lemma SafeChunkIsTight()
    ensures exists first: Bytes, second: Bytes ::
              && |first| <= SAFE_CHUNK && |second| == SAFE_CHUNK + 1
              && FedAll(Start(), true, [first, second]).state == Failed
              && Parse(AwaitNak, true, first + second).state != Failed
  {
    hide Packet, Parse, FedAll;
    var line: Bytes :| line == ACK + seq(MAX_PAYLOAD - 3, _ => 32);
    OverfullChunk(line, ACK);
  }

  /** An upload-pack response as the server means it. */
  datatype Response = Response(lines: seq<Bytes>, nak: Bytes, body: Body)
  {
    predicate WellFormed() {
      && (forall l :: l in lines ==> PrePack(l) && |l| <= MAX_PAYLOAD)
      && StartsWith(nak, NAK) && |nak| <= MAX_PAYLOAD
      && (body.Banded? ==> forall b :: b in body.bands ==> Fits(b))
    }

    function Wire(): Bytes {
      RenderLines(lines) + (Packet(nak) + body.Wire())
    }
  }

  /** Side-band packets and a flush, with whatever follows it, or the bare pack. */
  datatype Body = Banded(bands: seq<Band>, trailing: Bytes) | Bare(pack: Bytes)
  {
    function Wire(): Bytes {
      if Banded? then RenderAll(bands) + FLUSH + trailing else pack
    }

    function Pack(): Bytes {
      if Banded? then PackData(bands) else pack
    }
  }

  predicate SafeChunks(chunks: seq<Bytes>) {
    forall c :: c in chunks ==> |c| <= SAFE_CHUNK
  }

  /**
    Pre-pack lines, NAK and a body, split into chunks anyhow: what has been
    extracted is the pack the server meant (the band-1 data in order, or every
    byte after NAK when there is no side-band) and nothing else.
  */
  lemma ResponseYieldsPack(r: Response, chunks: seq<Bytes>)
    requires SafeChunks(chunks)
    ensures r.WellFormed() && Concat(chunks) == r.Wire() ==>
              FedAll(Start(), r.body.Banded?, chunks)
              == Progress(if r.body.Banded? then Done else RawPack, [], r.body.Pack())
  {
    hide NextStep, Packet, RenderAll, RenderLines, PackData, Concat, FedAll, SafeChunks, ParseLength;
    if r.WellFormed() && Concat(chunks) == r.Wire() {
      var sideband := r.body.Banded?;
      StartIsHoldable(sideband);
      ChunkingIsInvisible(Start(), sideband, chunks);
      var answer := Packet(r.nak) + r.body.Wire();
      assert Start().buf + Concat(chunks) == RenderLines(r.lines) + answer;
      LinesParse(r.lines, sideband, answer);
      PacketStep(true, sideband, r.nak, r.body.Wire());
      if sideband {
        BandsParse(r.body.bands, r.body.trailing);
      }
    }
  }

  // -------------------------------------------------------- complete candidates

  /** Pack data was seen and nothing failed. */
  predicate Candidate(p: Progress) {
    p.pack != [] && (p.state == Sideband || p.state == RawPack || p.state == Done)
  }

  lemma {:induction false} NothingBeforeNak(state: State, sideband: bool, input: Bytes)
    ensures Parse(state, sideband, input).state == AwaitNak ==> state == AwaitNak && Parse(state, sideband, input).pack == []
    decreases |input|
  {
    hide NextStep, Frame;
    if state == AwaitNak || state == Sideband {
      ParseStep(state, sideband, input);
      NakStep(state == AwaitNak, sideband, input);
      var step := NextStep(state == AwaitNak, sideband, input);
      if step.Advance? {
        NothingBeforeNak(step.next, sideband, input[step.size..]);
      }
    }
  }

  /** Only while NAK is awaited does a packet leave the parse waiting for it, and then it carries no pack data. */
  lemma NakStep(awaiting: bool, sideband: bool, input: Bytes)
    ensures var step := NextStep(awaiting, sideband, input);
            && (step.Advance? && step.next == AwaitNak ==> awaiting && step.data == [])
            && (step.End? ==> step.final != AwaitNak)
  {
  }

  lemma {:induction false} NothingFedBeforeNak(p: Progress, sideband: bool, chunks: seq<Bytes>)
    requires p.state == AwaitNak ==> p.pack == []
    ensures FedAll(p, sideband, chunks).state == AwaitNak ==> FedAll(p, sideband, chunks).pack == []
    decreases |chunks|
  {
    hide Parse;
    if |chunks| > 0 {
      NothingBeforeNak(p.state, sideband, p.buf + chunks[0]);
      NothingFedBeforeNak(Fed(p, sideband, chunks[0]), sideband, chunks[1..]);
    }
  }

  /**
    For every body in every split the bytes spooled so far count as a complete
    pack exactly when there are some and nothing failed; so also when the body
    was cut off after its first pack byte.
  */
  lemma CandidateExactly(sideband: bool, chunks: seq<Bytes>)
    ensures var p := FedAll(Start(), sideband, chunks);
            Candidate(p) <==> p.pack != [] && p.state != Failed
  {
    hide Parse;
    NothingFedBeforeNak(Start(), sideband, chunks);
  }

  /** A well-formed response in whatever safe chunks is a complete pack at its end exactly when it carries a pack. */
  lemma ResponseCompletes(r: Response, chunks: seq<Bytes>)
    requires SafeChunks(chunks) && r.WellFormed() && Concat(chunks) == r.Wire()
    ensures Candidate(FedAll(Start(), r.body.Banded?, chunks)) <==> r.body.Pack() != []
  {
    hide FedAll, Concat, SafeChunks;
    ResponseYieldsPack(r, chunks);
  }

  /** A failure is for good. */
  lemma {:induction false} FailedStays(p: Progress, sideband: bool, chunks: seq<Bytes>)
    requires p.state == Failed
    ensures FedAll(p, sideband, chunks).state == Failed && FedAll(p, sideband, chunks).pack == p.pack
    decreases |chunks|
  {
    if |chunks| > 0 {
      FailedStays(Fed(p, sideband, chunks[0]), sideband, chunks[1..]);
    }
  }

  /** No failure at the end means no failure on the way. */
  lemma {:induction false} NeverFailed(p: Progress, sideband: bool, chunks: seq<Bytes>, n: nat)
    requires n <= |chunks| && FedAll(p, sideband, chunks).state != Failed
    ensures FedAll(p, sideband, chunks[..n]).state != Failed
    decreases |chunks|
  {
    hide Fed;
    if n == 0 {
      if p.state == Failed {
        FailedStays(p, sideband, chunks);
      }
    } else {
      NeverFailed(Fed(p, sideband, chunks[0]), sideband, chunks[1..], n - 1);
      assert chunks[..n][1..] == chunks[1..][..n - 1];
    }
  }

  // -------------------------------------------------------------- the object

  /** The growing byte vector that extracted pack bytes are appended to. */
  class ByteSink {
    var bytes: Bytes

    constructor ()
      ensures bytes == []
    {
      bytes := [];
    }

    method Extend(more: Bytes)
      modifies this
      ensures bytes == old(bytes) + more
    {
      bytes := bytes + more;
    }
  }

  class Demux {
    const sideband: bool
    var state: State
    var buf: Bytes
    var packBytes: nat
    /** Every pack byte extracted so far, over all chunks. */
    ghost var extracted: Bytes

    ghost predicate Valid()
      reads this
    {
      Holdable(state, sideband, buf) && packBytes == |extracted|
    }

    ghost function Now(): Progress
      reads this
    {
      Progress(state, buf, extracted)
    }

    constructor (sideband: bool)
      ensures Valid() && Now() == Start() && this.sideband == sideband
    {
      this.sideband := sideband;
      state, buf, packBytes, extracted := AwaitNak, [], 0, [];
    }

    /** A complete pack candidate: pack data was seen and nothing failed. */
    predicate PackComplete()
      requires Valid()
      reads this
      ensures PackComplete() <==> Candidate(Now())
    {
      packBytes > 0 && state in {Done, RawPack, Sideband}
    }

    /** Feeds one chunk; the pack bytes it completes are appended to the sink. */
    method Feed(chunk: Bytes, sink: ByteSink) returns (ok: bool, ghost got: Bytes)
      requires Valid()
      modifies this, sink
      ensures Valid()
      ensures Now() == Fed(old(Now()), sideband, chunk)
      ensures ok <==> state != Failed
      ensures extracted == old(extracted) + got && sink.bytes == old(sink.bytes) + got
    {
      hide Parse, NextStep;
      ParseWhenOver(state, sideband, buf + chunk);
      ParseHoldable(state, sideband, buf + chunk);
      got := [];
      if state == Failed {
        return false, got;
      }
      if state == RawPack {
        assert buf + chunk == chunk;
        packBytes := packBytes + |chunk|;
        sink.Extend(chunk);
        extracted, got := extracted + chunk, chunk;
        return true, got;
      }
      if state == Done {
        return true, got;
      }

      buf := buf + chunk;
      if |buf| > MAX_BUFFER {
        state, buf := Failed, [];
        return false, got;
      }
      var pack;
      ok, pack := Drain();
      sink.Extend(pack);
      extracted, got := extracted + pack, pack;
    }

    /**
      Consumes every whole packet in the buffer, keeps the incomplete rest and
      hands back the pack bytes consumed, those before a failure included.
    */
    method Drain() returns (ok: bool, pack: Bytes)
      requires state == AwaitNak || state == Sideband
      requires packBytes == |extracted|
      modifies this
      ensures Parse(old(state), sideband, old(buf)) == Parsed(state, pack, buf)
      ensures ok <==> state != Failed
      ensures packBytes == old(packBytes) + |pack| && extracted == old(extracted)
    {
      hide Parse, Resumes, NextStep, Frame;
      ghost var from := state;
      ResumeAtStart(from, sideband, buf);
      pack := [];
      var offset := 0;
      while true
        invariant 0 <= offset <= |buf|
        invariant state == AwaitNak || state == Sideband
        invariant buf == old(buf) && extracted == old(extracted)
        invariant packBytes == old(packBytes) + |pack|
        invariant Resumes(from, sideband, buf, state, offset, pack)
        decreases |buf| - offset
      {
        var remaining := buf[offset..];
        ResumeAfterStep(from, sideband, buf, state, offset, pack);
        StepOtherwise(state == AwaitNak, sideband, remaining);
        if |remaining| < 4 {
          break;
        }
        var length := ParseLength(remaining[..4]);
        if length.None? {
          state, buf := Failed, [];
          return false, pack;
        }
        var n := length.value;
        if n == 0 {
          if state == Sideband {
            state, buf := Done, [];
            return true, pack;
          }
          assert pack + [] == pack;
          offset := offset + 4;
          continue;
        }
        if n < 5 {
          state, buf := Failed, [];
          return false, pack;
        }
        if |remaining| < n {
          break;
        }
        StepOnPacket(state == AwaitNak, sideband, remaining, n);
        var (next, data) := Frame(state == AwaitNak, sideband, remaining[4..n]);
        if next == Failed {
          state, buf := Failed, [];
          return false, pack;
        }
        packBytes, pack, state, offset := packBytes + |data|, pack + data, next, offset + n;
        if state == RawPack {
          ResumeRaw(from, sideband, buf, offset, pack);
          var rest := buf[offset..];
          packBytes, pack, buf := packBytes + |rest|, pack + rest, [];
          return true, pack;
        }
      }
      buf := buf[offset..];
      return true, pack;
    }
  }
}
