/** The event-stream readers of internal/client/sse_reader.go. */
module SseReading {
  import opened Common
  import opened SseFormat

  datatype ReadResult = Received(name: string, data: string) | EndOfStream | StreamBroken | ReaderClosed

  /**
   The plain reader. unread holds the bytes of the response that have not been consumed; clean says
   whether they end with EOF or with some other error.
   */
  class SseReader {
    const clean: bool
    var unread: string
    var lastEventId: string
    var closed: bool

    constructor (body: string, clean: bool)
      ensures unread == body && this.clean == clean && lastEventId == "" && !closed
    {
      this.clean := clean;
      unread, lastEventId, closed := body, "", false;
    }

    function Lines(): seq<string>
      reads this
    {
      CompleteLines(unread)
    }

    /** Everything that further reading would deliver. */
    function Ahead(): seq<Delivery>
      reads this
    {
      if closed then [] else ReadAll(Lines(), lastEventId, clean)
    }

    /** The last event id once everything ahead has been read. */
    function Finally(): string
      reads this
    {
      FinalId(Lines(), lastEventId, clean)
    }

    /** Takes one complete line off the stream, without its LF or CR LF; raw is the line before the CR was cut. */
    method ReadLine() returns (line: Option<string>, ghost raw: string)
      modifies this`unread
      ensures line.None? ==> old(Lines()) == [] && unread == ""
      ensures line.Some? ==> old(Lines()) == [raw] + Lines() && line.value == TrimSuffix(raw, '\r') && |unread| < |old(unread)|
    {
      var i := FirstLf(unread);
      raw := unread[..i];
      if i == |unread| {
        unread := "";
        return None, raw;
      }
      line := Some(TrimSuffix(unread[..i], '\r'));
      unread := unread[i + 1..];
    }

    /** Reads lines until they make an event. */
    method ScanEvent() returns (r: ReadResult)
      requires !closed
      modifies this`unread, this`lastEventId
      ensures match ReadNext(old(Lines()), old(lastEventId), clean)
              case Got(name, data, rest, id) => r == Received(name, data) && Lines() == rest && lastEventId == id
              case Nothing(id) => r == (if clean then EndOfStream else StreamBroken) && unread == "" && lastEventId == id
    {
      ghost var goal := ReadNext(Lines(), lastEventId, clean);
      var name, buffer := "", "";
      ghost var values: seq<string> := [];
      while true
        invariant goal == ReadFrom(Lines(), name, values, lastEventId, clean)
        invariant buffer == Unlines(values)
        decreases |unread|
      {
        var next;
        ghost var raw;
        next, raw := ReadLine();
        if next.None? {
          BufferIsJoin(values);
          r := if !clean then StreamBroken
               else if buffer != "" then Received(name, TrimSuffix(buffer, '\n')) else EndOfStream;
          break;
        }
        var line := next.value;
        ReadStep(raw, Lines(), name, values, lastEventId, clean);
        if line == "" {
          BufferIsJoin(values);
          if buffer != "" {
            r := Received(name, TrimSuffix(buffer, '\n'));
            break;
          }
        } else if line[0] != ':' {
          var (field, value) := ParseLine(line);
          if field == "event" {
            name := value;
          } else if field == "data" {
            UnlinesGrows(values, value);
            values := values + [value];
            buffer := buffer + value + "\n";
          } else if field == "id" {
            lastEventId := value;
          }
        }
      }
    }

    method ReadEvent() returns (r: ReadResult)
      modifies this`unread, this`lastEventId
      ensures closed ==> r == ReaderClosed && unread == old(unread) && lastEventId == old(lastEventId)
      ensures !closed && !r.Received? ==> r == (if clean then EndOfStream else StreamBroken) && unread == ""
      ensures r.Received? ==> old(Ahead()) == [Delivery(r.name, r.data, lastEventId)] + Ahead()
      ensures !r.Received? ==> old(Ahead()) == [] == Ahead()
      ensures !closed ==> old(Finally()) == Finally() && (!r.Received? ==> lastEventId == Finally())
    {
      if closed {
        return ReaderClosed;
      }
      r := ScanEvent();
    }

    /** The next message, skipping events of other types. */
    method ReadMessage() returns (r: ReadResult)
      modifies this`unread, this`lastEventId
      ensures r.Received? ==> FirstMessage(old(Ahead()), Delivery(r.name, r.data, lastEventId), Ahead())
      ensures !r.Received? ==> Ahead() == [] && NoMessage(old(Ahead()))
    {
      ghost var skipped: seq<Delivery> := [];
      while true
        invariant old(Ahead()) == skipped + Ahead()
        invariant NoMessage(skipped)
        decreases |Ahead()|
      {
        ghost var ahead := Ahead();
        r := ReadEvent();
        if !r.Received? {
          assert skipped + [] == skipped;
          return;
        }
        ghost var d := Delivery(r.name, r.data, lastEventId);
        OneMoreSkipped(skipped, d, ahead, Ahead());
        if r.name == "" || r.name == "message" {
          return;
        }
        skipped := skipped + [d];
      }
    }

    /** Reads until an error or the end, as the goroutine of ReadEvents does. */
    method ReadEvents() returns (ds: seq<Delivery>)
      modifies this`unread, this`lastEventId
      ensures ds == old(Ahead()) && Ahead() == []
      ensures !closed ==> lastEventId == old(Finally())
    {
      ds := [];
      while true
        invariant old(Ahead()) == ds + Ahead()
        invariant !closed ==> Finally() == old(Finally())
        decreases |Ahead()|
      {
        ghost var ahead := Ahead();
        var r := ReadEvent();
        if !r.Received? {
          assert ds + [] == ds;
          return;
        }
        var d := Delivery(r.name, r.data, lastEventId);
        Regroup(ds, d, Ahead());
        ds := ds + [d];
      }
    }

    method Close()
      modifies this`closed
      ensures closed
    {
      closed := true;
    }
  }

  lemma Regroup(ds: seq<Delivery>, d: Delivery, after: seq<Delivery>)
    ensures ds + ([d] + after) == (ds + [d]) + after
  {
  }

  predicate IsMessage(name: string) { name == "" || name == "message" }

  predicate NoMessage(ds: seq<Delivery>) { forall d :: d in ds ==> !IsMessage(d.name) }

  /** d is the first message of a stream, and after is what follows it. */
  ghost predicate FirstMessage(before: seq<Delivery>, d: Delivery, after: seq<Delivery>) {
    IsMessage(d.name) && exists skipped :: before == skipped + [d] + after && NoMessage(skipped)
  }

  lemma OneMoreSkipped(skipped: seq<Delivery>, d: Delivery, ahead: seq<Delivery>, after: seq<Delivery>)
    requires NoMessage(skipped) && ahead == [d] + after
    ensures skipped + ahead == (skipped + [d]) + after
    ensures if IsMessage(d.name) then FirstMessage(skipped + ahead, d, after) else NoMessage(skipped + [d])
  {
    assert skipped + ahead == skipped + [d] + after;
  }

  /** The data buffer without its last LF is the join of the data values. */
  lemma {:induction false} BufferIsJoin(values: seq<string>)
    ensures values == [] <==> Unlines(values) == ""
    ensures values != [] ==> Unlines(values) == Join(values) + "\n" && TrimSuffix(Unlines(values), '\n') == Join(values)
  {
    if |values| == 1 {
      assert values[0] + "\n" + "" == values[0] + "\n";
    } else if values != [] {
      BufferIsJoin(values[1..]);
    }
  }

  /** Reading goes on after a line with the given meaning. */
  function AfterLine(m: Meaning, later: seq<string>, name: string, values: seq<string>, lastId: string, clean: bool): Reading {
    match m
    case Blank =>
      if values != [] then Got(name, Join(values), later, lastId) else ReadFrom(later, name, values, lastId, clean)
    case Ignored => ReadFrom(later, name, values, lastId, clean)
    case SetName(v) => ReadFrom(later, v, values, lastId, clean)
    case AddData(v) => ReadFrom(later, name, values + [v], lastId, clean)
    case SetId(v) => ReadFrom(later, name, values, v, clean)
  }

  lemma ReadStep(raw: string, later: seq<string>, name: string, values: seq<string>, lastId: string, clean: bool)
    ensures ReadFrom([raw] + later, name, values, lastId, clean)
            == AfterLine(Interpret(raw), later, name, values, lastId, clean)
  {
    assert ([raw] + later)[1..] == later;
  }

  lemma TakeFirst(a: seq<Delivery>, b: seq<Delivery>)
    requires a != []
    ensures a + b != [] && (a + b)[0] == a[0] && (a + b)[1..] == a[1..] + b
    ensures |a| == 1 ==> (a + b)[1..] == b
  {
  }

  lemma EmptyBuffer(a: seq<Delivery>, b: seq<Delivery>)
    requires a == []
    ensures a + b == b
  {
  }

  lemma PutBack(d: Delivery, a: seq<Delivery>, b: seq<Delivery>)
    ensures ([d] + a) + b == [d] + (a + b)
  {
  }

  /** One more event has been taken off what remained. */
  lemma OneMoreTaken(start: seq<Delivery>, taken: seq<Delivery>, before: seq<Delivery>, after: seq<Delivery>)
    requires start == taken + before && before != [] && after == before[1..]
    ensures start == (taken + [before[0]]) + after
  {
  }

  datatype BufferedResult = Peeked(d: Delivery) | Failed

  /** The reader that can look ahead and take events back. */
  class BufferedSseReader {
    const reader: SseReader
    var buffer: seq<Delivery>

    constructor (reader: SseReader)
      ensures this.reader == reader && buffer == []
    {
      this.reader := reader;
      buffer := [];
    }

    /** What the caller has yet to see: the buffer, then what the plain reader would deliver. */
    function Remaining(): seq<Delivery>
      reads this, reader
    {
      buffer + reader.Ahead()
    }

    method PeekEvent() returns (r: BufferedResult)
      modifies this`buffer, reader`unread, reader`lastEventId
      ensures Remaining() == old(Remaining())
      ensures r == if Remaining() == [] then Failed else Peeked(Remaining()[0])
      ensures r.Peeked? ==> buffer != []
    {
      if |buffer| > 0 {
        return Peeked(buffer[0]);
      }
      EmptyBuffer(buffer, reader.Ahead());
      var e := reader.ReadEvent();
      EmptyBuffer(buffer, reader.Ahead());
      if !e.Received? {
        return Failed;
      }
      var d := Delivery(e.name, e.data, reader.lastEventId);
      EmptyBuffer(buffer, [d]);
      buffer := buffer + [d];
      r := Peeked(d);
    }

    method NextEvent() returns (r: BufferedResult)
      modifies this`buffer, reader`unread, reader`lastEventId
      ensures r == if old(Remaining()) == [] then Failed else Peeked(old(Remaining())[0])
      ensures Remaining() == if old(Remaining()) == [] then [] else old(Remaining())[1..]
      ensures buffer == if old(buffer) == [] then [] else old(buffer)[1..]
    {
      if |buffer| > 0 {
        var d := buffer[0];
        TakeFirst(buffer, reader.Ahead());
        buffer := buffer[1..];
        return Peeked(d);
      }
      EmptyBuffer(buffer, reader.Ahead());
      var e := reader.ReadEvent();
      EmptyBuffer(buffer, reader.Ahead());
      if !e.Received? {
        return Failed;
      }
      TakeFirst([Delivery(e.name, e.data, reader.lastEventId)], reader.Ahead());
      r := Peeked(Delivery(e.name, e.data, reader.lastEventId));
    }

    method UnreadEvent(d: Delivery)
      modifies this`buffer
      ensures buffer == [d] + old(buffer)
      ensures Remaining() == [d] + old(Remaining())
    {
      PutBack(d, buffer, reader.Ahead());
      buffer := [d] + buffer;
    }

    method DrainBuffer() returns (ds: seq<Delivery>)
      modifies this`buffer
      ensures ds == old(buffer) && buffer == []
      ensures old(Remaining()) == ds + Remaining()
    {
      ds := buffer;
      buffer := [];
      EmptyBuffer(buffer, reader.Ahead());
    }

    /** However many times the caller peeks in between, taking n events takes the next n of the stream. */
    method TakeWithPeeks(peeks: seq<nat>) returns (taken: seq<Delivery>)
      modifies this`buffer, reader`unread, reader`lastEventId
      ensures taken == old(Remaining())[..Min(|peeks|, |old(Remaining())|)]
      ensures Remaining() == old(Remaining())[Min(|peeks|, |old(Remaining())|)..]
    {
      ghost var start := Remaining();
      taken := [];
      for i := 0 to |peeks|
        invariant start == taken + Remaining()
        invariant |taken| == Min(i, |start|)
      {
        for k := 0 to peeks[i]
          invariant start == taken + Remaining()
        {
          var _ := PeekEvent();
        }
        ghost var before := Remaining();
        var r := NextEvent();
        if r.Peeked? {
          OneMoreTaken(start, taken, before, Remaining());
          taken := taken + [r.d];
        }
      }
    }

    /** Putting an event back and taking the next one changes nothing. */
    method UnreadThenNext(d: Delivery) returns (r: BufferedResult)
      modifies this`buffer, reader`unread, reader`lastEventId
      ensures r == Peeked(d) && Remaining() == old(Remaining()) && buffer == old(buffer)
    {
      UnreadEvent(d);
      r := NextEvent();
    }
  }
}
