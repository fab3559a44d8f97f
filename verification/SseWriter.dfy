/** The event-stream writer of internal/server/sse.go. */
module SseWriting {
  import opened Common
  import opened SseFormat

  datatype WriteResult = Written | WriterClosed | WriteFailed

  function Take(s: string, n: nat): string { s[..Min(|s|, n)] }

  /**
   One writer. sent is everything the response has accepted. Each write is told how many bytes the
   response will accept; when that is less than the whole chunk, the write fails part way. The ghost
   log holds the records written so far, and whole says that no write has failed.
   */
  class SseWriter {
    var sent: string
    var closed: bool
    ghost var log: seq<Record>
    ghost var whole: bool

    ghost predicate Valid()
      reads this
    {
      whole ==> sent == EncodeAll(log)
    }

    constructor ()
      ensures Valid() && sent == "" && !closed && log == [] && whole
    {
      sent, closed, log, whole := "", false, [], true;
    }

    /** What a write of this record does, given the state before it; a closed writer writes nothing. */
    ghost predicate Wrote(record: Record, accepted: nat, sent0: string, log0: seq<Record>, whole0: bool, r: WriteResult)
      reads this
    {
      var chunk := Encode(record);
      if closed then sent == sent0 && log == log0 && whole == whole0 && r == WriterClosed
      else
        && sent == sent0 + chunk[..Min(|chunk|, accepted)]
        && log == log0 + [record] && whole == (whole0 && accepted >= |chunk|)
        && r == if accepted < |chunk| then WriteFailed else Written
    }

    method Put(chunk: string, ghost record: Record, accepted: nat) returns (r: WriteResult)
      requires Valid() && !closed && chunk == Encode(record)
      modifies this`sent, this`log, this`whole
      ensures Valid() && Wrote(record, accepted, old(sent), old(log), old(whole), r)
    {
      sent := sent + Take(chunk, accepted);
      r := if accepted < |chunk| then WriteFailed else Written;
      EncodeOneMore(log, record);
      log, whole := log + [record], whole && accepted >= |chunk|;
      assert accepted >= |chunk| ==> Take(chunk, accepted) == chunk;
    }

    /** Prints one data field per line of the data. */
    static method AppendData(sb: string, data: string) returns (r: string)
      ensures r == sb + Unlines(DataLines(SplitLines(data)))
    {
      r := sb;
      if data == "" {
        r := r + "data: \n";
        EmptyDataPrinted();
      } else {
        var lines := SplitLines(data);
        for i := 0 to |lines|
          invariant r == sb + Unlines(DataLines(lines[..i]))
        {
          DataLinePrinted(sb, lines, i);
          r := r + "data: " + lines[i] + "\n";
        }
        assert lines[..|lines|] == lines;
      }
    }

    static method AppendField(sb: string, present: bool, field: string, value: string) returns (r: string)
      ensures r == sb + Unlines(OptionalField(present, field, value))
    {
      r := sb;
      if present {
        r := r + field + ": " + value + "\n";
        UnlinesGrows([], FieldLine(field, value));
      }
    }

    method WriteSseEvent(id: string, name: string, retry: int, data: string, accepted: nat) returns (r: WriteResult)
      requires Valid()
      modifies this`sent, this`log, this`whole
      ensures Valid() && Wrote(Event(id, name, retry, data), accepted, old(sent), old(log), old(whole), r)
    {
      if closed {
        return WriterClosed;
      }
      var sb := AppendField("", id != "", "id", id);
      sb := AppendField(sb, name != "", "event", name);
      sb := AppendField(sb, retry > 0, "retry", Decimal(retry));
      sb := AppendData(sb, data);
      sb := sb + "\n";
      EventPrinted(id, name, retry, data);
      r := Put(sb, Event(id, name, retry, data), accepted);
    }

    method WriteEvent(name: string, data: string, accepted: nat) returns (r: WriteResult)
      requires Valid()
      modifies this`sent, this`log, this`whole
      ensures Valid() && Wrote(Event("", name, 0, data), accepted, old(sent), old(log), old(whole), r)
    {
      if closed {
        return WriterClosed;
      }
      var sb := AppendField("", name != "", "event", name);
      sb := AppendData(sb, data);
      sb := sb + "\n";
      EventWithoutRetryPrinted("", name, data);
      assert Unlines(OptionalField(false, "id", "")) == "" && "" + "" == "";
      r := Put(sb, Event("", name, 0, data), accepted);
    }

    method WriteEventWithId(id: string, name: string, data: string, accepted: nat) returns (r: WriteResult)
      requires Valid()
      modifies this`sent, this`log, this`whole
      ensures Valid() && Wrote(Event(id, name, 0, data), accepted, old(sent), old(log), old(whole), r)
    {
      if closed {
        return WriterClosed;
      }
      var sb := AppendField("", id != "", "id", id);
      sb := AppendField(sb, name != "", "event", name);
      sb := AppendData(sb, data);
      sb := sb + "\n";
      EventWithoutRetryPrinted(id, name, data);
      r := Put(sb, Event(id, name, 0, data), accepted);
    }

    method WriteRetry(milliseconds: int, accepted: nat) returns (r: WriteResult)
      requires Valid()
      modifies this`sent, this`log, this`whole
      ensures Valid() && Wrote(Retry(milliseconds), accepted, old(sent), old(log), old(whole), r)
    {
      if closed {
        return WriterClosed;
      }
      RetryPrinted(milliseconds);
      r := Put("retry: " + Decimal(milliseconds) + "\n\n", Retry(milliseconds), accepted);
    }

    method WriteComment(text: string, accepted: nat) returns (r: WriteResult)
      requires Valid()
      modifies this`sent, this`log, this`whole
      ensures Valid() && Wrote(Comment(text), accepted, old(sent), old(log), old(whole), r)
    {
      if closed {
        return WriterClosed;
      }
      CommentPrinted(text);
      r := Put(": " + text + "\n\n", Comment(text), accepted);
    }

    method Close()
      requires Valid()
      modifies this`closed
      ensures Valid() && closed
    {
      closed := true;
    }
  }

  /** Writing one more record appends its encoding to the stream. */
  lemma {:induction false} EncodeOneMore(rs: seq<Record>, r: Record)
    ensures EncodeAll(rs + [r]) == EncodeAll(rs) + Encode(r)
    decreases rs
  {
    if rs == [] {
      assert EncodeAll([r]) == Encode(r) + "";
    } else {
      assert (rs + [r])[1..] == rs[1..] + [r];
      EncodeOneMore(rs[1..], r);
      Reassociate(Encode(rs[0]), EncodeAll(rs[1..]), Encode(r));
    }
  }

  lemma Reassociate(a: string, b: string, c: string)
    ensures a + (b + c) == (a + b) + c
  {
  }

  lemma EmptyDataPrinted()
    ensures Unlines(DataLines(SplitLines(""))) == "data: \n"
  {
    UnlinesGrows([], FieldLine("data", ""));
    assert SplitLines("") == [""] && DataLines([""]) == [FieldLine("data", "")];
    assert FieldLine("data", "") + "\n" == "data: \n";
  }

  lemma DataLinePrinted(sb: string, lines: seq<string>, i: nat)
    requires i < |lines|
    ensures sb + Unlines(DataLines(lines[..i])) + "data: " + lines[i] + "\n" == sb + Unlines(DataLines(lines[..i + 1]))
  {
    var line := FieldLine("data", lines[i]);
    assert DataLines(lines[..i + 1]) == DataLines(lines[..i]) + [line];
    UnlinesGrows(DataLines(lines[..i]), line);
    assert line == "data: " + lines[i];
  }

  lemma BlankLineAfter(line: string)
    ensures Unlines([line, ""]) == line + "\n\n"
  {
    UnlinesGrows([line], "");
    UnlinesGrows([], line);
    assert [line, ""] == [line] + [""];
  }

  lemma RetryPrinted(milliseconds: int)
    ensures Encode(Retry(milliseconds)) == "retry: " + Decimal(milliseconds) + "\n\n"
  {
    var line := FieldLine("retry", Decimal(milliseconds));
    BlankLineAfter(line);
    assert line == "retry: " + Decimal(milliseconds);
  }

  lemma CommentPrinted(text: string)
    ensures Encode(Comment(text)) == ": " + text + "\n\n"
  {
    BlankLineAfter(FieldLine("", text));
    assert FieldLine("", text) == ": " + text;
  }

  lemma PrintedInParts(a: seq<string>, b: seq<string>, c: seq<string>, d: seq<string>)
    ensures Unlines(a + b + c + d + [""]) == "" + Unlines(a) + Unlines(b) + Unlines(c) + Unlines(d) + "\n"
  {
    UnlinesSplits(a, b);
    UnlinesSplits(a + b, c);
    UnlinesSplits(a + b + c, d);
    UnlinesGrows(a + b + c + d, "");
    assert "" + Unlines(a) == Unlines(a);
  }

  lemma EventPrinted(id: string, name: string, retry: int, data: string)
    ensures Encode(Event(id, name, retry, data))
            == "" + Unlines(OptionalField(id != "", "id", id)) + Unlines(OptionalField(name != "", "event", name))
               + Unlines(OptionalField(retry > 0, "retry", Decimal(retry)))
               + Unlines(DataLines(SplitLines(data))) + "\n"
  {
    PrintedInParts(OptionalField(id != "", "id", id), OptionalField(name != "", "event", name),
                   OptionalField(retry > 0, "retry", Decimal(retry)), DataLines(SplitLines(data)));
  }

  lemma EventWithoutRetryPrinted(id: string, name: string, data: string)
    ensures Encode(Event(id, name, 0, data))
            == "" + Unlines(OptionalField(id != "", "id", id)) + Unlines(OptionalField(name != "", "event", name))
               + Unlines(DataLines(SplitLines(data))) + "\n"
  {
    EventPrinted(id, name, 0, data);
    var front := "" + Unlines(OptionalField(id != "", "id", id)) + Unlines(OptionalField(name != "", "event", name));
    assert Unlines(OptionalField(false, "retry", Decimal(0))) == "";
    assert front + "" == front;
  }
}
