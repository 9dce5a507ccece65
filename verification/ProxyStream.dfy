/**
  The proxied upload-pack stream: every chunk forwarded to the client is also
  fed to the demultiplexer and spooled, so that the pack can be imported when
  the stream ends.  A background warm task must run exactly once, either as the
  import of the spool or as a plain refetch.
*/
module ProxyStream {
  import opened PktLine
  import opened PackDemux

  const SPOOL_CHANNEL_CAPACITY: nat := 256

  /** Disk space is reserved for the spool in steps of this many bytes. */
  const SPOOL_RESERVE_CHUNK: nat := 256 * 1024 * 1024

  datatype Message = Chunk(bytes: Bytes) | Finish

  /** The writer task: at work, finished with a usable spool, or given up. */
  datatype WriterStatus = Writing | Complete | Abandoned

  function Payloads(queue: seq<Message>): Bytes {
    if |queue| == 0 then []
    else (if queue[0].Chunk? then queue[0].bytes else []) + Payloads(queue[1..])
  }

  lemma PayloadsFirst(queue: seq<Message>)
    requires |queue| > 0
    ensures Payloads(queue) == (if queue[0].Chunk? then queue[0].bytes else []) + Payloads(queue[1..])
    ensures |queue| == 1 ==> Payloads(queue[1..]) == []
  {
  }

  lemma {:induction false} PayloadsAppend(queue: seq<Message>, m: Message)
    ensures Payloads(queue + [m]) == Payloads(queue) + if m.Chunk? then m.bytes else []
  {
    var last := if m.Chunk? then m.bytes else [];
    if |queue| == 0 {
      assert queue + [m] == [m];
      assert Payloads([m]) == last + Payloads([m][1..]);
    } else {
      var q := queue + [m];
      assert q[0] == queue[0] && q[1..] == queue[1..] + [m];
      PayloadsAppend(queue[1..], m);
      Associate(if queue[0].Chunk? then queue[0].bytes else [], Payloads(queue[1..]), last);
    }
  }

  // -------------------------------------------------------------- the spool

  /** The bounded channel and the writer that drains it into a reserved file. */
  class Spool {
    var queue: seq<Message>
    var senderDropped: bool
    var status: WriterStatus
    var file: Bytes
    var reserved: nat
    /** Every payload the channel has accepted. */
    ghost var sent: Bytes

    /** Nothing accepted is lost or reordered, and the file never outgrows its reservation. */
    ghost predicate Valid()
      reads this
    {
      && |file| <= reserved
      && (forall i :: 0 <= i < |queue| - 1 ==> queue[i].Chunk?)
      && (status == Writing ==> file + Payloads(queue) == sent)
      && (status == Complete ==> file == sent && queue == [])
    }

    /** The sender has said that nothing follows. */
    ghost predicate Finishing()
      reads this
    {
      status == Complete || (status == Writing && |queue| > 0 && queue[|queue| - 1] == Finish)
    }

    constructor (reservationGranted: bool)
      ensures Valid() && sent == [] && queue == [] && !senderDropped
      ensures status == if reservationGranted then Writing else Abandoned
      ensures reserved == if reservationGranted then SPOOL_RESERVE_CHUNK else 0
    {
      queue, senderDropped, file, sent := [], false, [], [];
      status := if reservationGranted then Writing else Abandoned;
      reserved := if reservationGranted then SPOOL_RESERVE_CHUNK else 0;
    }

    /** Refuses when the writer is gone or the channel is full. */
    method TrySend(m: Message) returns (accepted: bool)
      requires Valid() && !Finishing() && !senderDropped
      modifies this
      ensures Valid() && senderDropped == old(senderDropped)
      ensures accepted <==> status == Writing && |old(queue)| < SPOOL_CHANNEL_CAPACITY
      ensures status == old(status) && file == old(file) && reserved == old(reserved)
      ensures queue == if accepted then old(queue) + [m] else old(queue)
      ensures sent == if accepted && m.Chunk? then old(sent) + m.bytes else old(sent)
    {
      hide FedAll, Concat, Parse, Holdable, Fed, Payloads;
      accepted := status == Writing && |queue| < SPOOL_CHANNEL_CAPACITY;
      if accepted {
        PayloadsAppend(queue, m);
        queue := queue + [m];
        if m.Chunk? {
          sent := sent + m.bytes;
        }
      }
    }

    method DropSender()
      requires Valid()
      modifies this`senderDropped
      ensures Valid() && senderDropped && Finishing() == old(Finishing())
    {
      senderDropped := true;
    }

    /**
      One turn of the writer: it takes the next message, growing the
      reservation first when the file would outgrow it, and no further.  Any
      reservation or write may fail, which abandons the spool.
    */
    method WriterTurn(works: bool)
      requires Valid()
      modifies this
      ensures Valid() && sent == old(sent) && senderDropped == old(senderDropped)
      ensures old(status) != Writing ==>
                status == old(status) && file == old(file) && queue == old(queue) && reserved == old(reserved)
      ensures old(status) == Writing && old(queue) == [] ==>
                && status == (if senderDropped then Abandoned else Writing)
                && queue == [] && file == old(file) && reserved == old(reserved)
      ensures old(status) == Writing && old(queue) != [] ==>
                && queue == old(queue)[1..]
                && status == if !works then Abandoned else if old(queue)[0] == Finish then Complete else Writing
      ensures old(status) == Writing && old(queue) != [] && works ==>
                file == old(file) + if old(queue)[0].Chunk? then old(queue)[0].bytes else []
      ensures old(reserved) <= reserved
      ensures reserved == old(reserved) || (old(queue) != [] && old(queue)[0].Chunk?
                && reserved < old(|file|) + |old(queue)[0].bytes| + SPOOL_RESERVE_CHUNK)
      ensures Finishing() ==> old(Finishing())
      ensures works && old(Finishing()) ==> Finishing()
    {
      hide FedAll, Concat, Parse, Holdable, Fed, Payloads;
      if status != Writing {
        return;
      }
      if |queue| == 0 {
        if senderDropped {
          status := Abandoned;
        }
        return;
      }
      PayloadsFirst(queue);
      var m := queue[0];
      match m
      case Chunk(bytes) =>
        var total := |file| + |bytes|;
        while total > reserved
          invariant old(reserved) <= reserved && |file| <= reserved
          invariant reserved == old(reserved) || reserved < total + SPOOL_RESERVE_CHUNK
          invariant status == Writing && queue == old(queue) && file == old(file)
          invariant sent == old(sent) && senderDropped == old(senderDropped)
          decreases total - reserved
        {
          var granted: bool := *;
          if !works && !granted {
            queue, status := queue[1..], Abandoned;
            return;
          }
          reserved := reserved + SPOOL_RESERVE_CHUNK;
        }
        Associate(file, bytes, Payloads(queue[1..]));
        queue := queue[1..];
        if !works {
          status := Abandoned;
          return;
        }
        file := file + bytes;
      case Finish =>
        assert queue == [Finish];
        assert file + [] == file;
        queue := queue[1..];
        if !works {
          status := Abandoned;
          return;
        }
        status := Complete;
    }

    /** Once the sender is gone the writer runs to its end, which is a complete spool if the sender had finished it. */
    method Settle(works: bool)
      requires Valid() && senderDropped
      modifies this
      ensures Valid() && status != Writing && sent == old(sent) && senderDropped
      ensures status == Complete ==> old(Finishing())
      ensures works && old(Finishing()) ==> status == Complete
      ensures old(status) != Writing ==> status == old(status)
    {
      while status == Writing
        invariant Valid() && senderDropped && sent == old(sent)
        invariant Finishing() ==> old(Finishing())
        invariant works && old(Finishing()) ==> Finishing()
        invariant old(status) != Writing ==> status == old(status)
        decreases if status == Writing then |queue| + 1 else 0
      {
        var lucky: bool := *;
        WriterTurn(works || lucky);
      }
    }
  }

  // -------------------------------------------------------------- the stream

  /** What the upstream body yields when it is polled. */
  datatype Upstream = Bytes(chunk: Bytes) | Failed | Ended | Pending

  /** What the client sees. */
  datatype Answer = Forward(chunk: Bytes) | Error | Finished | NotReady

  /** How the warm task was used. */
  datatype Warm = TeeImport | Refetch

  class UpstreamProxyStream {
    const sideband: bool
    const maxBytes: nat
    const demux: Demux
    const spool: Spool
    var warmHeld: bool
    var teeing: bool
    var bytesSent: nat
    ghost var received: seq<Bytes>
    ghost var forwarded: seq<Bytes>
    var warmed: seq<Warm>
    ghost var ended: bool

    /**
      The warm task is held or has been used once.  While the tee is alive, the
      spool has accepted exactly what the demultiplexer makes of the forwarded
      chunks, and once the import is chosen that stays so for good.
    */
    ghost predicate Valid()
      reads this, demux, spool
    {
      && demux.Valid() && spool.Valid()
      && demux.sideband == sideband
      && |warmed| == (if warmHeld then 0 else 1)
      && (warmHeld <==> !ended)
      && forwarded <= received
      && bytesSent == |Concat(received)|
      && (bytesSent <= maxBytes ==> forwarded == received)
      && |Concat(forwarded)| <= maxBytes
      && (|forwarded| < |received| ==> |Concat(received[..|forwarded| + 1])| > maxBytes)
      && (teeing ==> warmHeld && !spool.Finishing() && !spool.senderDropped && Spooled())
      && (warmed == [TeeImport] ==> Spooled() && demux.PackComplete() && spool.senderDropped)
    }

    ghost predicate Spooled()
      reads this, demux, spool
    {
      demux.Now() == FedAll(Start(), sideband, forwarded) && spool.sent == demux.extracted
    }

    /** The tee is engaged only when it is configured and the request allows it. */
    constructor (sideband: bool, maxBytes: nat, tee: bool, reservationGranted: bool)
      ensures Valid() && fresh(demux) && fresh(spool) && !ended && teeing == tee
      ensures spool.queue == [] && !spool.senderDropped && spool.status == if tee && reservationGranted then Writing else Abandoned
      ensures warmHeld && warmed == [] && received == [] && this.sideband == sideband && this.maxBytes == maxBytes
    {
      this.sideband, this.maxBytes := sideband, maxBytes;
      demux := new Demux(sideband);
      spool := new Spool(tee && reservationGranted);
      warmHeld, teeing, bytesSent := true, tee, 0;
      received, forwarded, warmed, ended := [], [], [], false;
    }

    /** The tee outlives a chunk that demultiplexes, if its pack bytes (when there are any) find room in the channel. */
    static ghost predicate Kept(demux: Demux, before: PktLine.Bytes, status: WriterStatus, queued: nat)
      reads demux
    {
      demux.state != State.Failed
      && (demux.extracted == before || (status == Writing && queued < SPOOL_CHANNEL_CAPACITY))
    }

    /** Feeds a forwarded chunk to the tee; a demultiplexer failure or a full channel abandons it. */
    method TeeChunk(chunk: Bytes)
      requires demux.Valid() && spool.Valid() && demux.sideband == sideband
      requires teeing ==> !spool.Finishing() && !spool.senderDropped && spool.sent == demux.extracted
      modifies this`teeing, demux, spool
      ensures demux.Valid() && spool.Valid()
      ensures old(teeing) && !teeing ==> spool.senderDropped
      ensures !old(teeing) ==> spool.senderDropped == old(spool.senderDropped)
      ensures teeing ==> old(teeing) && !spool.Finishing() && !spool.senderDropped && spool.sent == demux.extracted
      ensures old(teeing) ==> demux.Now() == Fed(old(demux.Now()), sideband, chunk)
      ensures old(teeing) ==> (teeing <==> Kept(demux, old(demux.extracted), old(spool.status), old(|spool.queue|)))
      ensures spool.status == old(spool.status) && |spool.queue| <= old(|spool.queue|) + 1
    {
      if !teeing {
        return;
      }
      var pack := new ByteSink();
      var ok, got := demux.Feed(chunk, pack);
      assert [] + got == got;
      if !ok {
        spool.DropSender();
        teeing := false;
        return;
      }
      if |pack.bytes| > 0 {
        var accepted := spool.TrySend(Message.Chunk(pack.bytes));
        if !accepted {
          spool.DropSender();
          teeing := false;
        }
      } else {
        assert demux.extracted + [] == demux.extracted;
      }
    }

    /** The end of the upstream body: the spool is closed and the warm task spent. */
    method EndOfBody()
      requires Valid() && !ended
      modifies this`teeing, this`warmHeld, this`warmed, this`ended, spool
      ensures Valid() && ended && !teeing
      ensures spool.senderDropped == old(teeing || spool.senderDropped)
      ensures warmed == [if old(teeing && demux.PackComplete() && spool.status == Writing
                               && |spool.queue| < SPOOL_CHANNEL_CAPACITY) then TeeImport else Refetch]
      ensures warmed == [TeeImport] ==> spool.Finishing()
    {
      hide FedAll, Concat, Parse, Holdable, Fed;
      var teeSpawned := false;
      if teeing {
        teeing := false;
        var accepted := false;
        if demux.PackComplete() {
          accepted := spool.TrySend(Message.Finish);
        }
        if accepted && warmHeld {
          warmHeld, warmed, teeSpawned := false, warmed + [TeeImport], true;
        }
        spool.DropSender();
      }
      if !teeSpawned && warmHeld {
        warmHeld, warmed := false, warmed + [Refetch];
        assert warmed[0] == Refetch;
      }
      ended := true;
    }

    /** A stream is not polled again once it has returned its end. */
    method PollNext(upstream: Upstream) returns (answer: Answer)
      requires Valid() && !ended
      modifies this, demux, spool
      ensures Valid()
      ensures answer == match upstream
                        case Bytes(c) => if |old(Concat(received))| + |c| > maxBytes then Error else Forward(c)
                        case Failed => Error
                        case Ended => Finished
                        case Pending => NotReady
      ensures received == if upstream.Bytes? then old(received) + [upstream.chunk] else old(received)
      ensures forwarded == if answer.Forward? then old(forwarded) + [answer.chunk] else old(forwarded)
      ensures upstream != Ended ==> warmed == old(warmed)
      ensures teeing ==> old(teeing)
      ensures spool.senderDropped == (old(spool.senderDropped) || (old(teeing) && !teeing))
      ensures !answer.Forward? && upstream != Ended ==> teeing == old(teeing) && spool.queue == old(spool.queue)
      ensures upstream != Ended ==> spool.status == old(spool.status) && |spool.queue| <= old(|spool.queue|) + 1
      ensures upstream == Ended ==>
                warmed == [if old(teeing && demux.PackComplete() && spool.status == Writing
                                  && |spool.queue| < SPOOL_CHANNEL_CAPACITY) then TeeImport else Refetch]
      ensures upstream == Ended && warmed == [TeeImport] ==> spool.Finishing()
      ensures answer.Forward? && old(teeing) ==> demux.Now() == FedAll(Start(), sideband, forwarded)
      ensures answer.Forward? && old(teeing) ==>
                (teeing <==> Kept(demux, old(demux.extracted), old(spool.status), old(|spool.queue|)))
      ensures ended <==> upstream == Ended
    {
      match upstream
      case Bytes(chunk) =>
        ConcatAppend(received, chunk);
        assert |forwarded| < |received| ==> (received + [chunk])[..|forwarded| + 1] == received[..|forwarded| + 1];
        assert (received + [chunk])[..|received| + 1] == received + [chunk];
        received := received + [chunk];
        bytesSent := bytesSent + |chunk|;
        if bytesSent > maxBytes {
          return Error;
        }
        FedAllAppend(Start(), sideband, forwarded, chunk);
        if teeing {
          forwarded := forwarded + [chunk];
          TeeChunk(chunk);
        } else {
          forwarded := forwarded + [chunk];
        }
        return Forward(chunk);
      case Failed =>
        return Error;
      case Ended =>
        EndOfBody();
        return Finished;
      case Pending =>
        return NotReady;
    }

    /** The stream is dropped; without a runtime to spawn on, a warm task still held is lost. */
    method DropStream(runtime: bool)
      requires Valid()
      modifies this, demux, spool
      ensures !warmHeld && !teeing
      ensures warmed == if old(warmHeld) && runtime then old(warmed) + [Refetch] else old(warmed)
      ensures |warmed| == 1 <==> runtime || !old(warmHeld)
      ensures forwarded == old(forwarded) && received == old(received) && ended == old(ended)
      ensures demux.Now() == old(demux.Now())
      ensures spool.Valid() && spool.sent == old(spool.sent)
      ensures spool.senderDropped == old(teeing || spool.senderDropped)
      ensures spool.Finishing() == old(spool.Finishing())
      ensures spool.status == old(spool.status) && spool.file == old(spool.file)
    {
      if warmHeld {
        warmHeld := false;
        if runtime {
          warmed := warmed + [Refetch];
        }
      }
      if teeing {
        teeing := false;
        spool.DropSender();
      }
    }
  }

  // ----------------------------------------------------------- in the background

  /** What the warm task comes to. */
  datatype Work = Imported(pack: Bytes) | Refetched

  /** The plain refetch waits for a permit; a closed semaphore ends it. */
  method RunRefetch(open: bool) returns (work: seq<Work>)
    ensures work == if open then [Refetched] else []
  {
    return if open then [Refetched] else [];
  }

  /**
    The import waits for the writer, then for a permit; without a complete spool,
    or when the import fails, the refetch takes its place.
  */
  method RunImport(spool: Spool, works: bool, open: bool, importable: bool) returns (work: seq<Work>)
    requires spool.Valid() && spool.senderDropped
    modifies spool
    ensures spool.Valid() && spool.sent == old(spool.sent) && spool.status != Writing && spool.senderDropped
    ensures spool.status == Complete ==> old(spool.Finishing())
    ensures works && old(spool.Finishing()) ==> spool.status == Complete
    ensures work == if !open then [] else if spool.status == Complete && importable then [Imported(spool.sent)] else [Refetched]
  {
    spool.Settle(works);
    if spool.status == Abandoned {
      work := RunRefetch(open);
      return;
    }
    if !open {
      return [];
    }
    if importable {
      return [Imported(spool.file)];
    }
    work := RunRefetch(open);
  }

  /** The warm task as it was used: not at all, for the import, or for the refetch. */
  method RunWarm(warmed: seq<Warm>, spool: Spool, works: bool, open: bool, importable: bool) returns (work: seq<Work>)
    requires |warmed| <= 1 && spool.Valid() && (warmed == [TeeImport] ==> spool.senderDropped)
    modifies spool
    ensures spool.Valid() && spool.sent == old(spool.sent) && spool.senderDropped == old(spool.senderDropped)
    ensures warmed == [TeeImport] && works && old(spool.Finishing()) ==> spool.status == Complete
    ensures work == if !open || warmed == [] then []
                    else if warmed == [TeeImport] && spool.status == Complete && importable then [Imported(spool.sent)]
                    else [Refetched]
  {
    if warmed == [] {
      return [];
    }
    if warmed[0] == TeeImport {
      assert warmed == [TeeImport];
      work := RunImport(spool, works, open, importable);
    } else {
      assert warmed == [Refetch] && [Refetch][0] != [TeeImport][0];
      work := RunRefetch(open);
    }
  }

  // ------------------------------------------------------------ whole histories

  /** One thing that happens: the client polls, or the writer task gets a turn, which may fail. */
  datatype Event = Poll(upstream: Upstream) | Writer(works: bool)

  /** The chunks that polls received before the body ended. */
  function Polled(events: seq<Event>): seq<Bytes> {
    if events == [] then []
    else
      var n := |events| - 1;
      Polled(events[..n])
      + if Poll(Ended) !in events[..n] && events[n].Poll? && events[n].upstream.Bytes? then [events[n].upstream.chunk] else []
  }

  lemma NothingPolled()
    ensures Polled([]) == []
  {
  }

  lemma PolledOneMore(events: seq<Event>, i: nat)
    requires i < |events|
    ensures Polled(events[..i + 1])
            == Polled(events[..i])
             + if Poll(Ended) !in events[..i] && events[i].Poll? && events[i].upstream.Bytes? then [events[i].upstream.chunk] else []
    ensures Poll(Ended) in events[..i + 1] <==> Poll(Ended) in events[..i] || events[i] == Poll(Ended)
  {
    assert events[..i + 1][..i] == events[..i];
    assert events[..i + 1] == events[..i] + [events[i]];
  }

  /** The longest initial part of the chunks that stays within the byte limit. */
  ghost predicate Fitting(chunks: seq<Bytes>, all: seq<Bytes>, limit: nat) {
    && chunks <= all && |Concat(chunks)| <= limit
    && (|chunks| < |all| ==> |Concat(all[..|chunks| + 1])| > limit)
  }

  /** At most this many polled chunks wait for the writer. */
  function Waiting(events: seq<Event>): nat {
    if events == [] then 0
    else
      var n := |events| - 1;
      var before := Waiting(events[..n]);
      if events[n].Writer? then (if before == 0 then 0 else before - 1)
      else before + if events[n].upstream.Bytes? then 1 else 0
  }

  /** Whenever a chunk or the end arrives, the writer is less than a full channel behind. */
  ghost predicate KeepsUp(events: seq<Event>) {
    forall i | 0 <= i < |events| && Poll(Ended) !in events[..i] && events[i].Poll?
               && (events[i].upstream.Bytes? || events[i].upstream.Ended?) ::
      Waiting(events[..i]) < SPOOL_CHANNEL_CAPACITY
  }

  lemma WaitingOneMore(events: seq<Event>, i: nat)
    requires i < |events|
    ensures Waiting(events[..i + 1])
            == if events[i].Writer? then (if Waiting(events[..i]) == 0 then 0 else Waiting(events[..i]) - 1)
               else Waiting(events[..i]) + if events[i].upstream.Bytes? then 1 else 0
  {
    assert events[..i + 1][..i] == events[..i];
  }

  lemma {:induction false} PolledGrows(events: seq<Event>, i: nat)
    requires i <= |events|
    ensures Polled(events[..i]) <= Polled(events)
    ensures Poll(Ended) in events[..i] ==> Polled(events[..i]) == Polled(events)
    decreases |events| - i
  {
    if i == |events| {
      assert events[..i] == events;
    } else {
      PolledOneMore(events, i);
      PolledGrows(events, i + 1);
    }
  }

  lemma {:induction false} ConcatPrefix(a: seq<Bytes>, b: seq<Bytes>)
    requires a <= b
    ensures |Concat(a)| <= |Concat(b)|
  {
    if |a| > 0 {
      ConcatPrefix(a[1..], b[1..]);
    }
  }

  /** The tee is engaged, its spool has room and nothing it depends on fails. */
  ghost predicate Smooth(events: seq<Event>, sideband: bool, maxBytes: nat, tee: bool, granted: bool) {
    && tee && granted && Writer(false) !in events && KeepsUp(events)
    && |Concat(Polled(events))| <= maxBytes
    && FedAll(Start(), sideband, Polled(events)).state != State.Failed
  }

  lemma SmoothSoFar(events: seq<Event>, i: nat, sideband: bool, maxBytes: nat, tee: bool, granted: bool)
    requires i <= |events| && Smooth(events, sideband, maxBytes, tee, granted)
    ensures |Concat(Polled(events[..i]))| <= maxBytes
    ensures FedAll(Start(), sideband, Polled(events[..i])).state != State.Failed
  {
    hide FedAll, Concat, Polled;
    PolledGrows(events, i);
    var some, all := Polled(events[..i]), Polled(events);
    ConcatPrefix(some, all);
    NeverFailed(Start(), sideband, all, |some|);
    assert all[..|some|] == some;
  }

  /** What holds of the stream after a smooth part of a history that has not ended. */
  ghost predicate OnTrack(stream: UpstreamProxyStream, waiting: nat)
    reads stream, stream.spool
  {
    && stream.teeing && stream.warmHeld
    && stream.spool.status == Writing && |stream.spool.queue| <= waiting
  }

  /** Polls and writer turns in any interleaving. */
  method Played(events: seq<Event>, sideband: bool, maxBytes: nat, tee: bool, granted: bool) returns (stream: UpstreamProxyStream)
    ensures fresh(stream) && fresh(stream.demux) && fresh(stream.spool)
    ensures stream.Valid() && stream.sideband == sideband && stream.maxBytes == maxBytes
    ensures stream.received == Polled(events) && (stream.ended <==> Poll(Ended) in events)
    ensures stream.warmed == [TeeImport] ==> tee && stream.spool.senderDropped
    ensures tee <==> stream.teeing || stream.spool.senderDropped
    ensures Smooth(events, sideband, maxBytes, tee, granted) && Poll(Ended) in events ==>
              && stream.warmed == [if Candidate(FedAll(Start(), sideband, Polled(events))) then TeeImport else Refetch]
              && (stream.warmed == [TeeImport] ==> stream.spool.Finishing())
  {
    hide FedAll, Concat, Parse, Holdable, Polled, Payloads, Fed, Waiting, Candidate;
    ghost var smooth := Smooth(events, sideband, maxBytes, tee, granted);
    stream := new UpstreamProxyStream(sideband, maxBytes, tee, granted);
    assert events[..0] == [] && Polled([]) == [] by {
      NothingPolled();
    }
    for i := 0 to |events|
      invariant stream.Valid() && stream.sideband == sideband && stream.maxBytes == maxBytes
      invariant fresh(stream) && fresh(stream.demux) && fresh(stream.spool)
      invariant stream.received == Polled(events[..i]) && (stream.ended <==> Poll(Ended) in events[..i])
      invariant stream.warmed == [TeeImport] ==> tee && stream.spool.senderDropped
      invariant (stream.teeing ==> tee) && (tee <==> stream.teeing || stream.spool.senderDropped)
      invariant smooth && !stream.ended ==> OnTrack(stream, Waiting(events[..i]))
      invariant smooth && stream.ended ==>
                  && Polled(events[..i]) == Polled(events)
                  && stream.warmed == [if Candidate(FedAll(Start(), sideband, Polled(events))) then TeeImport else Refetch]
                  && (stream.warmed == [TeeImport] ==> stream.spool.Finishing())
    {
      PolledOneMore(events, i);
      WaitingOneMore(events, i);
      PolledGrows(events, i);
      PolledGrows(events, i + 1);
      match events[i]
      case Poll(upstream) =>
        if stream.warmHeld {
          if smooth {
            SmoothSoFar(events, i + 1, sideband, maxBytes, tee, granted);
            ConcatAppend(stream.received, if upstream.Bytes? then upstream.chunk else []);
          }
          var _ := stream.PollNext(upstream);
        }
      case Writer(works) =>
        assert stream.spool.queue != [] && stream.spool.queue[0] == Finish ==> |stream.spool.queue| == 1;
        stream.spool.WriterTurn(works);
    }
    assert events[..|events|] == events;
  }

  /**
    Every history of polls and writer turns, in any interleaving, that ends in a
    drop, and what the background makes of it.  The client gets the polled chunks
    up to the byte limit.  The warm task is used exactly once unless the drop
    finds no runtime before the end was reached; what is used comes to exactly
    one import or refetch unless the semaphore is closed.  An imported pack is
    what the one-shot parse makes of the forwarded chunks, and the spool never
    outgrew what was reserved for it.
  */
  method History(
    events: seq<Event>, sideband: bool, maxBytes: nat, tee: bool, granted: bool, runtime: bool, works: bool, open: bool, importable: bool)
    returns (stream: UpstreamProxyStream, ghost chunks: seq<Bytes>, work: seq<Work>)
    ensures stream.received == Polled(events) && (stream.ended <==> Poll(Ended) in events)
    ensures Fitting(chunks, Polled(events), maxBytes) && stream.forwarded == chunks
    ensures |stream.warmed| == if runtime || stream.ended then 1 else 0
    ensures |work| == if open && (runtime || stream.ended) then 1 else 0
    ensures stream.spool.Valid() && |stream.spool.file| <= stream.spool.reserved
    ensures stream.warmed == [TeeImport] ==> tee && stream.ended
    ensures !stream.warmHeld && !stream.teeing && (tee <==> stream.spool.senderDropped)
    ensures Smooth(events, sideband, maxBytes, tee, granted) && stream.ended ==>
              && stream.warmed == [if Candidate(FedAll(Start(), sideband, chunks)) then TeeImport else Refetch]
              && (works && stream.warmed == [TeeImport] && open ==> stream.spool.status == Complete)
    ensures work == [Imported(FedAll(Start(), sideband, chunks).pack)] <==>
              open && importable && stream.warmed == [TeeImport] && stream.spool.status == Complete
    ensures work != [] && work != [Refetched] ==>
              && work == [Imported(FedAll(Start(), sideband, chunks).pack)]
              && (SafeChunks(chunks) ==> work == [Imported(Parse(AwaitNak, sideband, Concat(chunks)).pack)])
  {
    hide FedAll, Concat, Parse, Holdable, SafeChunks, Polled, Payloads;
    stream := Played(events, sideband, maxBytes, tee, granted);
    chunks := stream.forwarded;
    ghost var before := stream.warmed;
    stream.DropStream(runtime);
    assert stream.warmed == [TeeImport] ==> stream.warmed[0] == TeeImport && before == [TeeImport];
    work := RunWarm(stream.warmed, stream.spool, works, open, importable);
    if SafeChunks(chunks) {
      ChunksParse(sideband, chunks);
    }
  }

  /**
    A well-formed response that is polled to its end within the byte limit, while
    the writer works and keeps up, reaches the client whole, and its pack, if it
    carries one, is imported from the spool instead of being fetched again.
  */
  method ProxiedResponse(r: Response, events: seq<Event>, maxBytes: nat, runtime: bool, importable: bool)
    returns (stream: UpstreamProxyStream, ghost chunks: seq<Bytes>, work: seq<Work>)
    requires r.WellFormed() && |r.Wire()| <= maxBytes
    requires Poll(Ended) in events && Concat(Polled(events)) == r.Wire() && SafeChunks(Polled(events))
    requires KeepsUp(events) && Writer(false) !in events
    ensures Concat(chunks) == r.Wire() && stream.forwarded == chunks
    ensures stream.warmed == [if r.body.Pack() != [] then TeeImport else Refetch]
    ensures work == [if r.body.Pack() != [] && importable then Imported(r.body.Pack()) else Refetched]
  {
    hide FedAll, Concat, Parse, Holdable, SafeChunks, Polled, KeepsUp, Candidate, Fed;
    ResponseYieldsPack(r, Polled(events));
    ResponseCompletes(r, Polled(events));
    stream, chunks, work := History(events, r.body.Banded?, maxBytes, true, true, runtime, true, true, importable);
    EverythingFits(chunks, Polled(events), maxBytes);
  }

  lemma EverythingFits(chunks: seq<Bytes>, all: seq<Bytes>, limit: nat)
    requires |Concat(all)| <= limit
    ensures Fitting(chunks, all, limit) ==> chunks == all
  {
    hide Concat;
    if chunks <= all && |chunks| < |all| {
      ConcatPrefix(all[..|chunks| + 1], all);
    }
  }

  lemma ChunksParse(sideband: bool, chunks: seq<Bytes>)
    requires SafeChunks(chunks)
    ensures FedAll(Start(), sideband, chunks).pack == Parse(AwaitNak, sideband, Concat(chunks)).pack
  {
    StartIsHoldable(sideband);
    ChunkingIsInvisible(Start(), sideband, chunks);
    assert Start().buf + Concat(chunks) == Concat(chunks);
  }
}
