/**
 The event-stream format, byte by byte: what a record looks like in print, what any line means to the
 reader, whoever wrote it, and which event any sequence of lines yields first.
 */
module SseLines {
  import opened SseFormat
  import opened SseStream

  // ----- Print -----

  /** One data field for each line of the data. */
  function DataBytes(lines: seq<string>): string {
    if lines == [] then "" else "data: " + lines[0] + "\n" + DataBytes(lines[1..])
  }

  lemma {:induction false} DataIsPrinted(lines: seq<string>)
    ensures Unlines(DataLines(lines)) == DataBytes(lines)
  {
    if lines != [] {
      DataIsPrinted(lines[1..]);
      assert DataLines(lines)[1..] == DataLines(lines[1..]);
      assert FieldLine("data", lines[0]) == "data: " + lines[0];
    }
  }

  lemma FieldIsPrinted(present: bool, field: string, value: string)
    ensures Unlines(OptionalField(present, field, value)) == if present then field + ": " + value + "\n" else ""
  {
    UnlinesGrows([], FieldLine(field, value));
  }

  lemma FieldBytes(id: string, name: string, retry: string)
    ensures "id" + ": " + id + "\n" == "id: " + id + "\n"
    ensures "event" + ": " + name + "\n" == "event: " + name + "\n"
    ensures "retry" + ": " + retry + "\n" == "retry: " + retry + "\n"
  {
    assert "id" + ": " == "id: " && "event" + ": " == "event: " && "retry" + ": " == "retry: ";
  }

  /** The bytes of an event: the fields that are present, the data line by line, and a blank line. */
  lemma EventBytes(id: string, name: string, retry: int, data: string)
    ensures Encode(Event(id, name, retry, data))
            == (if id != "" then "id: " + id + "\n" else "")
               + (if name != "" then "event: " + name + "\n" else "")
               + (if retry > 0 then "retry: " + Decimal(retry) + "\n" else "")
               + DataBytes(SplitLines(data)) + "\n"
  {
    FieldIsPrinted(id != "", "id", id);
    FieldIsPrinted(name != "", "event", name);
    FieldIsPrinted(retry > 0, "retry", Decimal(retry));
    FieldBytes(id, name, Decimal(retry));
    DataIsPrinted(SplitLines(data));
    PrintedInOrder(OptionalField(id != "", "id", id), OptionalField(name != "", "event", name),
                   OptionalField(retry > 0, "retry", Decimal(retry)), DataLines(SplitLines(data)));
  }

  lemma PrintedInOrder(a: seq<string>, b: seq<string>, c: seq<string>, d: seq<string>)
    ensures Unlines(a + b + c + d + [""]) == Unlines(a) + Unlines(b) + Unlines(c) + Unlines(d) + "\n"
  {
    UnlinesSplits(a, b);
    UnlinesSplits(a + b, c);
    UnlinesSplits(a + b + c, d);
    UnlinesGrows(a + b + c + d, "");
  }

  /** The number that a decimal notation stands for. */
  function Value(s: string): int {
    if s == "" then 0
    else Value(s[..|s| - 1]) * 10 + (s[|s| - 1] as int - '0' as int)
  }

  lemma ValueGrows(s: string, c: char)
    ensures Value(s + [c]) == Value(s) * 10 + (c as int - '0' as int)
  {
    assert (s + [c])[..|s|] == s;
  }

  lemma DigitOf(n: nat, c: char)
    requires c == (n % 10) as char + '0'
    ensures '0' <= c <= '9' && c as int - '0' as int == n % 10 && (0 < n < 10 ==> c != '0')
  {
  }

  /** The digits of a number are digits, stand for it, and have no leading zero. */
  lemma {:induction false} DigitsReadBack(n: nat)
    ensures Value(Digits(n)) == n && Digits(n) != ""
    ensures forall i :: 0 <= i < |Digits(n)| ==> '0' <= Digits(n)[i] <= '9'
    ensures n > 0 ==> Digits(n)[0] != '0'
  {
    var last := (n % 10) as char + '0';
    DigitOf(n, last);
    if n < 10 {
      ValueGrows("", last);
      assert "" + [last] == [last];
    } else {
      DigitsReadBack(n / 10);
      ValueGrows(Digits(n / 10), last);
    }
  }

  lemma DecimalReadsBack(n: int)
    ensures n >= 0 ==> Value(Decimal(n)) == n
    ensures n < 0 ==> Decimal(n) == "-" + Decimal(-n)
  {
    if n >= 0 {
      DigitsReadBack(n);
    }
  }

  // ----- Lines, whoever wrote them -----

  /** The value is what follows the colon, less one space if it begins with one. */
  lemma ParsedLine(field: string, rest: string)
    requires ':' !in field
    ensures ParseLine(field + ":" + rest) == (field, if rest != "" && rest[0] == ' ' then rest[1..] else rest)
    ensures ParseLine(field) == (field, "")
  {
    FirstColonAfter(field, rest);
    var line := field + ":" + rest;
    assert line[..|field|] == field && line[|field| + 1..] == rest;
    NoColon(field);
  }

  lemma {:induction false} NoColon(s: string)
    requires ':' !in s
    ensures FirstColon(s) == |s|
    decreases |s|
  {
    if s != "" {
      NoColon(s[1..]);
    }
  }

  /** What a field with this value means. */
  function FieldMeans(field: string, value: string): Meaning {
    if field == "event" then SetName(value)
    else if field == "data" then AddData(value)
    else if field == "id" then SetId(value)
    else Ignored
  }

  /** A line as it stands in the stream: one CR at its end does not count. */
  function Raw(line: string, cr: bool): string { if cr then line + "\r" else line }

  lemma CrDoesNotCount(line: string, cr: bool)
    requires cr || !EndsInCr(line)
    ensures TrimSuffix(Raw(line, cr), '\r') == line
  {
    if cr {
      assert Raw(line, cr)[..|line|] == line;
    }
  }

  lemma CommentMeansNothing(text: string, cr: bool)
    ensures Interpret(Raw(":" + text, cr)) == Ignored
  {
    var comment := Raw(":" + text, cr);
    assert comment[0] == ':';
    assert comment[|comment| - 1] == '\r' ==> |comment| > 1;
    assert TrimSuffix(comment, '\r')[0] == ':';
  }

  /** Interpretation depends on the line without its CR. */
  lemma TrimmedMeans(raw: string, line: string, field: string, value: string)
    requires TrimSuffix(raw, '\r') == line && line != "" && line[0] != ':' && ParseLine(line) == (field, value)
    ensures Interpret(raw) == FieldMeans(field, value)
  {
  }

  lemma FieldLineMeans(field: string, rest: string, cr: bool)
    requires field != "" && ':' !in field && (cr || !EndsInCr(field + ":" + rest))
    ensures Interpret(Raw(field + ":" + rest, cr)) == FieldMeans(field, if rest != "" && rest[0] == ' ' then rest[1..] else rest)
  {
    var line := field + ":" + rest;
    ParsedLine(field, rest);
    CrDoesNotCount(line, cr);
    assert line[0] == field[0];
    TrimmedMeans(Raw(line, cr), line, field, if rest != "" && rest[0] == ' ' then rest[1..] else rest);
  }

  lemma BareFieldMeans(field: string, cr: bool)
    requires field != "" && ':' !in field && (cr || !EndsInCr(field))
    ensures Interpret(Raw(field, cr)) == FieldMeans(field, "")
  {
    ParsedLine(field, "");
    CrDoesNotCount(field, cr);
    TrimmedMeans(Raw(field, cr), field, field, "");
  }

  /** Any line, with or without a CR at its end, means what section 9.2.6 of the HTML Living Standard says, except that retry is ignored. */
  lemma LineMeans(field: string, rest: string, cr: bool)
    requires field != "" && ':' !in field && (cr || (!EndsInCr(field + ":" + rest) && !EndsInCr(field)))
    ensures Interpret(Raw(field + ":" + rest, cr)) == FieldMeans(field, if rest != "" && rest[0] == ' ' then rest[1..] else rest)
    ensures Interpret(Raw(field, cr)) == FieldMeans(field, "")
    ensures Interpret(Raw("", cr)) == Blank
    ensures Interpret(Raw(":" + rest, cr)) == Ignored
  {
    FieldLineMeans(field, rest, cr);
    BareFieldMeans(field, cr);
    CrDoesNotCount("", cr);
    CommentMeansNothing(rest, cr);
  }

  // ----- The first event of any lines -----

  /** The values of the data fields among the lines. */
  function Values(lines: seq<string>): seq<string> {
    if lines == [] then []
    else
      var before, m := Values(lines[..|lines| - 1]), Interpret(lines[|lines| - 1]);
      if m.AddData? then before + [m.v] else before
  }

  /** The value of the last event field among the lines. */
  function LastName(lines: seq<string>): string {
    if lines == [] then ""
    else
      var m := Interpret(lines[|lines| - 1]);
      if m.SetName? then m.v else LastName(lines[..|lines| - 1])
  }

  /** The value of the last id field among the lines. */
  function LastId(lines: seq<string>, lastId: string): string {
    if lines == [] then lastId
    else
      var m := Interpret(lines[|lines| - 1]);
      if m.SetId? then m.v else LastId(lines[..|lines| - 1], lastId)
  }

  /** The n-th line is blank, and there is data to deliver. */
  predicate EndsEvent(lines: seq<string>, n: nat)
    requires n < |lines|
  {
    Interpret(lines[n]).Blank? && Values(lines[..n]) != []
  }

  /** Having read so many lines without coming to the end of an event. */
  lemma {:induction false} HavingRead(lines: seq<string>, n: nat, lastId: string, clean: bool)
    requires n <= |lines| && forall i :: 0 <= i < n ==> !EndsEvent(lines, i)
    ensures ReadNext(lines, lastId, clean)
            == ReadFrom(lines[n..], LastName(lines[..n]), Values(lines[..n]), LastId(lines[..n], lastId), clean)
    decreases n
  {
    if n == 0 {
      assert lines[..0] == [] && lines[0..] == lines;
    } else {
      HavingRead(lines, n - 1, lastId, clean);
      assert lines[..n][..n - 1] == lines[..n - 1] && lines[..n][n - 1] == lines[n - 1];
      assert lines[n - 1..][0] == lines[n - 1] && lines[n - 1..][1..] == lines[n..];
      assert !EndsEvent(lines, n - 1);
    }
  }

  /**
   Whatever lines there are, reading delivers one event at the first blank line that has data before it,
   or if there is none, at the end of a stream that ends cleanly. Its data are the data fields up to
   there, joined by LF; its name is the last event field, even if a blank line lies in between.
   */
  lemma FirstEvent(lines: seq<string>, n: nat, lastId: string, clean: bool)
    requires n <= |lines| && (forall i :: 0 <= i < n ==> !EndsEvent(lines, i)) && (n < |lines| ==> EndsEvent(lines, n))
    ensures var before := lines[..n];
            ReadNext(lines, lastId, clean)
            == if n < |lines| then Got(LastName(before), Join(Values(before)), lines[n + 1..], LastId(before, lastId))
               else if clean && Values(before) != [] then Got(LastName(before), Join(Values(before)), [], LastId(before, lastId))
               else Nothing(LastId(before, lastId))
  {
    HavingRead(lines, n, lastId, clean);
    if n < |lines| {
      assert lines[n..][0] == lines[n] && lines[n..][1..] == lines[n + 1..];
    }
  }

  lemma OneLineRead(line: string, tail: seq<string>, name: string, values: seq<string>, lastId: string, clean: bool)
    ensures ReadFrom([line] + tail, name, values, lastId, clean)
            == var m := Interpret(line);
               if m.Blank? then (if values != [] then Got(name, Join(values), tail, lastId) else ReadFrom(tail, name, values, lastId, clean))
               else if m.SetName? then ReadFrom(tail, m.v, values, lastId, clean)
               else if m.AddData? then ReadFrom(tail, name, values + [m.v], lastId, clean)
               else ReadFrom(tail, name, values, if m.SetId? then m.v else lastId, clean)
  {
    assert ([line] + tail)[1..] == tail;
  }

  /** A blank line without data before it does not forget the event's name, although the HTML Living Standard says so. */
  lemma NameOutlivesBlankLine(name: string, data: string, rest: seq<string>, lastId: string, clean: bool)
    requires !EndsInCr(name) && !EndsInCr(data)
    ensures ReadNext([FieldLine("event", name)] + ([""] + ([FieldLine("data", data)] + ([""] + rest))), lastId, clean) == Got(name, data, rest, lastId)
  {
    var last := [""] + rest;
    var second := [FieldLine("data", data)] + last;
    InterpretField("event", name);
    InterpretField("data", data);
    OneLineRead(FieldLine("event", name), [""] + second, "", [], lastId, clean);
    OneLineRead("", second, name, [], lastId, clean);
    OneLineRead(FieldLine("data", data), last, name, [], lastId, clean);
    assert [] + [data] == [data];
    OneLineRead("", rest, name, [data], lastId, clean);
  }
}
