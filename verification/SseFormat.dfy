/**
 The event-stream format of section 9.2.6 of the HTML Living Standard, as internal/server/sse.go
 prints it and internal/client/sse_reader.go parses it. Byte strings are strings whose characters
 stand for bytes.
 */
module SseFormat {
  // ----- Lines -----

  /** The index of the first LF, or the length if there is none. */
  function FirstLf(s: string): (i: nat)
    ensures i <= |s| && '\n' !in s[..i]
    ensures i < |s| ==> s[i] == '\n'
  {
    if s == "" || s[0] == '\n' then 0
    else
      var j := FirstLf(s[1..]);
      assert s[..j + 1] == [s[0]] + s[1..][..j];
      1 + j
  }

  /** No line contains LF. */
  predicate Unbroken(lines: seq<string>) {
    forall i :: 0 <= i < |lines| ==> '\n' !in lines[i]
  }

  /** strings.Split(s, "\n"). */
  function SplitLines(s: string): (lines: seq<string>)
    ensures lines != [] && Unbroken(lines)
    decreases |s|
  {
    var i := FirstLf(s);
    if i == |s| then [s] else [s[..i]] + SplitLines(s[i + 1..])
  }

  /** strings.Join(lines, "\n"). */
  function Join(lines: seq<string>): string {
    if lines == [] then ""
    else if |lines| == 1 then lines[0]
    else lines[0] + "\n" + Join(lines[1..])
  }

  /** Every line, each ended by LF. */
  function Unlines(lines: seq<string>): string {
    if lines == [] then "" else lines[0] + "\n" + Unlines(lines[1..])
  }

  /** The lines that are ended by LF; a last line without LF is left out. */
  function CompleteLines(s: string): (lines: seq<string>)
    ensures Unbroken(lines)
    decreases |s|
  {
    var i := FirstLf(s);
    if i == |s| then [] else [s[..i]] + CompleteLines(s[i + 1..])
  }

  lemma {:induction false} FirstLfAfter(l: string, t: string)
    requires '\n' !in l
    ensures FirstLf(l + "\n" + t) == |l|
    ensures (l + "\n" + t)[..|l|] == l && (l + "\n" + t)[|l| + 1..] == t
    decreases l
  {
    if l != "" {
      assert (l + "\n" + t)[1..] == l[1..] + "\n" + t;
      FirstLfAfter(l[1..], t);
    }
  }

  lemma CompleteLinesStep(l: string, t: string)
    requires '\n' !in l
    ensures CompleteLines(l + "\n" + t) == [l] + CompleteLines(t)
  {
    FirstLfAfter(l, t);
  }

  lemma Associate(first: string, later: string, t: string)
    ensures (first + "\n" + later) + t == first + "\n" + (later + t)
  {
  }

  lemma {:induction false} CompleteLinesOfUnlines(lines: seq<string>, t: string)
    requires Unbroken(lines)
    ensures CompleteLines(Unlines(lines) + t) == lines + CompleteLines(t)
  {
    if lines == [] {
      assert Unlines(lines) + t == t;
    } else {
      var first, later := lines[0], lines[1..];
      var rest := Unlines(later) + t;
      CompleteLinesOfUnlines(later, t);
      Associate(first, Unlines(later), t);
      CompleteLinesStep(first, rest);
      Prepend(lines, CompleteLines(t));
    }
  }

  lemma Prepend(lines: seq<string>, tail: seq<string>)
    requires lines != []
    ensures [lines[0]] + (lines[1..] + tail) == lines + tail
  {
  }

  lemma CutAtLf(s: string, i: nat)
    requires i < |s| && s[i] == '\n'
    ensures s == s[..i] + "\n" + s[i + 1..]
  {
  }

  lemma JoinStep(first: string, later: seq<string>)
    requires later != []
    ensures Join([first] + later) == first + "\n" + Join(later)
  {
    assert ([first] + later)[1..] == later;
  }

  lemma {:induction false} JoinOfSplit(s: string)
    ensures Join(SplitLines(s)) == s
    decreases |s|
  {
    var i := FirstLf(s);
    if i < |s| {
      var first, tail := s[..i], s[i + 1..];
      calc {
        Join(SplitLines(s));
        Join([first] + SplitLines(tail));
        { JoinStep(first, SplitLines(tail)); }
        first + "\n" + Join(SplitLines(tail));
        { JoinOfSplit(tail); }
        first + "\n" + tail;
        { CutAtLf(s, i); }
        s;
      }
    }
  }

  lemma {:induction false} SplitOfJoin(lines: seq<string>)
    requires lines != [] && Unbroken(lines)
    ensures SplitLines(Join(lines)) == lines
  {
    if |lines| == 1 {
    } else {
      FirstLfAfter(lines[0], Join(lines[1..]));
      SplitOfJoin(lines[1..]);
    }
  }

  lemma PrefixAfter(first: string, a: seq<string>, b: seq<string>, whole: seq<string>, part: seq<string>)
    requires a <= b && part == [first] + a && whole == [first] + b
    ensures part <= whole
  {
  }

  lemma NoLfInPrefix(s: string, n: nat)
    requires n <= FirstLf(s)
    ensures FirstLf(s[..n]) == n
  {
    var i := FirstLf(s);
    assert forall k :: 0 <= k < n ==> s[..n][k] == s[..i][k];
  }

  lemma CutAfterLf(s: string, i: nat, n: nat)
    requires i < n <= |s| && s[i] == '\n'
    ensures s[..n] == s[..i] + "\n" + s[i + 1..][..n - i - 1]
  {
  }

  /** Cutting the bytes anywhere cuts the list of complete lines somewhere. */
  lemma {:induction false} CompleteLinesOfPrefix(s: string, n: nat)
    requires n <= |s|
    ensures CompleteLines(s[..n]) <= CompleteLines(s)
    decreases |s|
  {
    var i := FirstLf(s);
    if n <= i {
      NoLfInPrefix(s, n);
    } else {
      var first, later := s[..i], s[i + 1..];
      var cut := later[..n - i - 1];
      CutAfterLf(s, i, n);
      CompleteLinesStep(first, cut);
      CompleteLinesOfPrefix(later, n - i - 1);
      PrefixAfter(first, CompleteLines(cut), CompleteLines(later), CompleteLines(s), CompleteLines(s[..n]));
    }
  }

  // ----- What is printed -----

  datatype Record =
    | Event(id: string, name: string, retry: int, data: string)
    | Retry(milliseconds: int)
    | Comment(text: string)

  function Digits(n: nat): string {
    (if n < 10 then "" else Digits(n / 10)) + [(n % 10) as char + '0']
  }

  /** The decimal notation of an int, as %d prints it. */
  function Decimal(n: int): string {
    if n < 0 then "-" + Digits(-n) else Digits(n)
  }

  function FieldLine(field: string, value: string): string { field + ": " + value }

  function DataLines(values: seq<string>): seq<string> {
    seq(|values|, i requires 0 <= i < |values| => FieldLine("data", values[i]))
  }

  function OptionalField(present: bool, field: string, value: string): seq<string> {
    if present then [FieldLine(field, value)] else []
  }

  /** The lines of a record, including the blank line that ends it. */
  function Layout(r: Record): seq<string> {
    match r
    case Event(id, name, retry, data) =>
      OptionalField(id != "", "id", id) + OptionalField(name != "", "event", name)
      + OptionalField(retry > 0, "retry", Decimal(retry)) + DataLines(SplitLines(data)) + [""]
    case Retry(ms) => [FieldLine("retry", Decimal(ms)), ""]
    case Comment(text) => [FieldLine("", text), ""]
  }

  function Encode(r: Record): string { Unlines(Layout(r)) }

  function EncodeAll(rs: seq<Record>): string {
    if rs == [] then "" else Encode(rs[0]) + EncodeAll(rs[1..])
  }

  lemma {:induction false} UnlinesSplits(a: seq<string>, b: seq<string>)
    ensures Unlines(a + b) == Unlines(a) + Unlines(b)
  {
    if a == [] {
      assert a + b == b;
    } else {
      assert (a + b)[1..] == a[1..] + b;
      UnlinesSplits(a[1..], b);
    }
  }

  lemma UnlinesGrows(lines: seq<string>, line: string)
    ensures Unlines([line]) == line + "\n"
    ensures Unlines(lines + [line]) == Unlines(lines) + line + "\n"
  {
    assert Unlines([line]) == line + "\n" + "";
    UnlinesSplits(lines, [line]);
    assert Unlines(lines) + (line + "\n") == Unlines(lines) + line + "\n";
  }

  // ----- What is parsed -----

  function TrimSuffix(s: string, c: char): string {
    if s != "" && s[|s| - 1] == c then s[..|s| - 1] else s
  }

  /** The index of the first colon, or the length. */
  function FirstColon(s: string): (i: nat)
    ensures i <= |s| && ':' !in s[..i]
    ensures i < |s| ==> s[i] == ':'
  {
    if s == "" || s[0] == ':' then 0
    else
      var j := FirstColon(s[1..]);
      assert s[..j + 1] == [s[0]] + s[1..][..j];
      1 + j
  }

  /** parseSSELine. */
  function ParseLine(line: string): (string, string) {
    var i := FirstColon(line);
    if i == |line| then (line, "")
    else
      var value := line[i + 1..];
      (line[..i], if value != "" && value[0] == ' ' then value[1..] else value)
  }

  /** What a line, without its LF, means to the reader. */
  datatype Meaning = Blank | Ignored | SetName(v: string) | AddData(v: string) | SetId(v: string)

  function Interpret(raw: string): Meaning {
    var line := TrimSuffix(raw, '\r');
    if line == "" then Blank
    else if line[0] == ':' then Ignored
    else
      var (field, value) := ParseLine(line);
      if field == "event" then SetName(value)
      else if field == "data" then AddData(value)
      else if field == "id" then SetId(value)
      else Ignored
  }

  /** Reading one event: the event, the lines after it and the last event id; or only the last event id. */
  datatype Reading = Got(name: string, data: string, rest: seq<string>, lastId: string) | Nothing(lastId: string)

  /** clean says that the stream ends with EOF and not with some other error. */
  function ReadFrom(lines: seq<string>, name: string, values: seq<string>, lastId: string, clean: bool): (r: Reading)
    ensures r.Got? ==> |r.rest| < |lines| || (lines == [] && values != [] && r.rest == [])
    decreases lines
  {
    if lines == [] then
      if values != [] && clean then Got(name, Join(values), [], lastId) else Nothing(lastId)
    else
      match Interpret(lines[0])
      case Blank =>
        if values != [] then Got(name, Join(values), lines[1..], lastId)
        else ReadFrom(lines[1..], name, values, lastId, clean)
      case Ignored => ReadFrom(lines[1..], name, values, lastId, clean)
      case SetName(v) => ReadFrom(lines[1..], v, values, lastId, clean)
      case AddData(v) => ReadFrom(lines[1..], name, values + [v], lastId, clean)
      case SetId(v) => ReadFrom(lines[1..], name, values, v, clean)
  }

  function ReadNext(lines: seq<string>, lastId: string, clean: bool): (r: Reading)
    ensures r.Got? ==> |r.rest| < |lines|
  {
    ReadFrom(lines, "", [], lastId, clean)
  }

  /** An event as the client sees it, with the last event id at that point. */
  datatype Delivery = Delivery(name: string, data: string, id: string)

  /** All events that repeated reading delivers. */
  function ReadAll(lines: seq<string>, lastId: string, clean: bool): seq<Delivery>
    decreases |lines|
  {
    match ReadNext(lines, lastId, clean)
    case Nothing(_) => []
    case Got(name, data, rest, id) => [Delivery(name, data, id)] + ReadAll(rest, id, clean)
  }

  /** The last event id once reading has come to the end. */
  function FinalId(lines: seq<string>, lastId: string, clean: bool): string
    decreases |lines|
  {
    match ReadNext(lines, lastId, clean)
    case Nothing(id) => id
    case Got(_, _, rest, id) => FinalId(rest, id, clean)
  }
}
