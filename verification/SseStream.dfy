/** Printing and parsing of event streams fit together: round trip, exactness, truncation. */
module SseStream {
  import opened SseFormat

  predicate EndsInCr(s: string) { s != "" && s[|s| - 1] == '\r' }

  predicate FitsOnLine(s: string) { '\n' !in s && !EndsInCr(s) }

  /** The records that survive printing and parsing. */
  predicate WellFormed(r: Record) {
    match r
    case Event(id, name, _, data) =>
      FitsOnLine(id) && FitsOnLine(name) && forall l :: l in SplitLines(data) ==> !EndsInCr(l)
    case Retry(_) => true
    case Comment(text) => '\n' !in text
  }

  function NewId(r: Record, lastId: string): string
    requires r.Event?
  {
    if r.id == "" then lastId else r.id
  }

  /** What a client should see of a sequence of records. */
  function Intended(rs: seq<Record>, lastId: string): seq<Delivery> {
    if rs == [] then []
    else if rs[0].Event? then
      var id := NewId(rs[0], lastId);
      [Delivery(rs[0].name, rs[0].data, id)] + Intended(rs[1..], id)
    else Intended(rs[1..], lastId)
  }

  function AfterId(r: Record, lastId: string): string { if r.Event? then NewId(r, lastId) else lastId }

  /** The last non-empty id written. */
  function IntendedId(rs: seq<Record>, lastId: string): string {
    if rs == [] then lastId
    else IntendedId(rs[1..], AfterId(rs[0], lastId))
  }

  // ----- One line -----

  lemma {:induction false} FirstColonAfter(l: string, t: string)
    requires ':' !in l
    ensures FirstColon(l + ":" + t) == |l|
    decreases l
  {
    if l != "" {
      assert (l + ":" + t)[1..] == l[1..] + ":" + t;
      FirstColonAfter(l[1..], t);
    }
  }

  lemma FieldIsParsed(field: string, value: string)
    requires ':' !in field
    ensures ParseLine(FieldLine(field, value)) == (field, value)
  {
    var line := FieldLine(field, value);
    var shown := " " + value;
    assert line == field + ":" + shown;
    FirstColonAfter(field, shown);
    assert line[..|field|] == field && line[|field| + 1..] == shown && shown[1..] == value;
  }

  /** A printed field is read back, except that one CR at the end of the value is lost. */
  lemma FieldIsTrimmed(field: string, value: string)
    ensures TrimSuffix(FieldLine(field, value), '\r') == FieldLine(field, TrimSuffix(value, '\r'))
  {
    var line := FieldLine(field, value);
    if value != "" {
      assert line[|line| - 1] == value[|value| - 1];
      assert line[..|line| - 1] == field + ": " + value[..|value| - 1];
    } else {
      assert line[|line| - 1] == ' ';
    }
  }

  lemma InterpretField(field: string, value: string)
    requires field != "" && ':' !in field
    ensures var v := TrimSuffix(value, '\r');
            Interpret(FieldLine(field, value))
            == if field == "event" then SetName(v) else if field == "data" then AddData(v)
               else if field == "id" then SetId(v) else Ignored
  {
    var v := TrimSuffix(value, '\r');
    FieldIsTrimmed(field, value);
    FieldIsParsed(field, v);
    assert FieldLine(field, v)[0] == field[0];
  }

  lemma InterpretComment(text: string)
    ensures Interpret(FieldLine("", text)) == Ignored
  {
    var line := FieldLine("", text);
    assert line[0] == ':' && line[1] == ' ';
    var trimmed := TrimSuffix(line, '\r');
    assert trimmed[0] == ':';
  }

  lemma {:induction false} DigitsHaveNoLf(n: nat)
    ensures '\n' !in Digits(n)
  {
    if n >= 10 {
      DigitsHaveNoLf(n / 10);
    }
  }

  // ----- One record -----

  function TrimAll(values: seq<string>): (r: seq<string>)
    ensures |r| == |values|
  {
    seq(|values|, i requires 0 <= i < |values| => TrimSuffix(values[i], '\r'))
  }

  lemma {:induction false} ReadDataLines(values: seq<string>, tail: seq<string>, name: string, before: seq<string>, lastId: string, clean: bool)
    ensures ReadFrom(DataLines(values) + tail, name, before, lastId, clean)
            == ReadFrom(tail, name, before + TrimAll(values), lastId, clean)
    decreases values
  {
    if values == [] {
      assert DataLines(values) + tail == tail;
      assert before + TrimAll(values) == before;
    } else {
      var first, later := FieldLine("data", values[0]), values[1..];
      var v := TrimSuffix(values[0], '\r');
      calc {
        ReadFrom(DataLines(values) + tail, name, before, lastId, clean);
        { assert DataLines(values) + tail == [first] + (DataLines(later) + tail); }
        ReadFrom([first] + (DataLines(later) + tail), name, before, lastId, clean);
        { InterpretField("data", values[0]); }
        ReadFrom(DataLines(later) + tail, name, before + [v], lastId, clean);
        { ReadDataLines(later, tail, name, before + [v], lastId, clean); }
        ReadFrom(tail, name, before + [v] + TrimAll(later), lastId, clean);
        { assert before + [v] + TrimAll(later) == before + TrimAll(values); }
        ReadFrom(tail, name, before + TrimAll(values), lastId, clean);
      }
    }
  }

  lemma ReadOptionalField(present: bool, field: string, value: string, tail: seq<string>, name: string, lastId: string, clean: bool)
    requires field == "id" || field == "event" || field == "retry"
    ensures ReadFrom(OptionalField(present, field, value) + tail, name, [], lastId, clean)
            == ReadFrom(tail, if present && field == "event" then TrimSuffix(value, '\r') else name, [],
                        if present && field == "id" then TrimSuffix(value, '\r') else lastId, clean)
  {
    var lines := OptionalField(present, field, value) + tail;
    if present {
      InterpretField(field, value);
      assert lines[0] == FieldLine(field, value) && lines[1..] == tail;
    } else {
      assert lines == tail;
    }
  }

  /** The lines of an event up to and including the first j data lines. */
  function Head(r: Record, j: nat): seq<string>
    requires r.Event? && j <= |SplitLines(r.data)|
  {
    OptionalField(r.id != "", "id", r.id) + OptionalField(r.name != "", "event", r.name)
    + OptionalField(r.retry > 0, "retry", Decimal(r.retry)) + DataLines(SplitLines(r.data)[..j])
  }

  lemma Regroup(a: seq<string>, b: seq<string>, c: seq<string>, d: seq<string>, e: seq<string>)
    ensures a + b + c + d + e == a + (b + (c + (d + e)))
  {
  }

  lemma ReadHead(r: Record, j: nat, tail: seq<string>, lastId: string, clean: bool)
    requires r.Event? && j <= |SplitLines(r.data)|
    ensures ReadFrom(Head(r, j) + tail, "", [], lastId, clean)
            == ReadFrom(tail, TrimSuffix(r.name, '\r'), TrimAll(SplitLines(r.data)[..j]),
                        if r.id == "" then lastId else TrimSuffix(r.id, '\r'), clean)
  {
    var values := SplitLines(r.data)[..j];
    var a := OptionalField(r.id != "", "id", r.id);
    var b := OptionalField(r.name != "", "event", r.name);
    var c := OptionalField(r.retry > 0, "retry", Decimal(r.retry));
    var d := DataLines(values) + tail;
    var id := if r.id == "" then lastId else TrimSuffix(r.id, '\r');
    var name := TrimSuffix(r.name, '\r');
    Regroup(a, b, c, DataLines(values), tail);
    ReadOptionalField(r.id != "", "id", r.id, b + (c + d), "", lastId, clean);
    ReadOptionalField(r.name != "", "event", r.name, c + d, "", id, clean);
    ReadOptionalField(r.retry > 0, "retry", Decimal(r.retry), d, name, id, clean);
    ReadDataLines(values, tail, name, [], id, clean);
    assert [] + TrimAll(values) == TrimAll(values);
  }

  lemma LayoutIsHeadAndBlank(r: Record)
    requires r.Event?
    ensures Layout(r) == Head(r, |SplitLines(r.data)|) + [""]
  {
    var values := SplitLines(r.data);
    assert values[..|values|] == values;
  }

  /** What reading makes of a printed event: one CR is lost at the end of the id, the name and each data line. */
  lemma ReadEventRecord(r: Record, tail: seq<string>, lastId: string, clean: bool)
    requires r.Event?
    ensures ReadNext(Layout(r) + tail, lastId, clean)
            == Got(TrimSuffix(r.name, '\r'), Join(TrimAll(SplitLines(r.data))), tail,
                   if r.id == "" then lastId else TrimSuffix(r.id, '\r'))
  {
    var values := SplitLines(r.data);
    LayoutIsHeadAndBlank(r);
    assert Layout(r) + tail == Head(r, |values|) + ([""] + tail);
    ReadHead(r, |values|, [""] + tail, lastId, clean);
    assert values[..|values|] == values;
    assert TrimAll(values) != [];
    assert ([""] + tail)[1..] == tail;
  }

  lemma TrimKeeps(values: seq<string>)
    ensures TrimAll(values) == values <==> forall l :: l in values ==> !EndsInCr(l)
  {
    if TrimAll(values) == values {
      forall l | l in values ensures !EndsInCr(l) {
        var i :| 0 <= i < |values| && values[i] == l;
        assert TrimAll(values)[i] == l;
      }
    }
    var untouched := forall l :: l in values ==> !EndsInCr(l);
    if untouched {
      forall i | 0 <= i < |values| ensures TrimAll(values)[i] == values[i] {
        assert values[i] in values;
      }
    }
  }

  lemma ReadWellFormedEvent(r: Record, tail: seq<string>, lastId: string, clean: bool)
    requires r.Event? && WellFormed(r)
    ensures ReadNext(Layout(r) + tail, lastId, clean) == Got(r.name, r.data, tail, NewId(r, lastId))
  {
    ReadEventRecord(r, tail, lastId, clean);
    TrimKeeps(SplitLines(r.data));
    JoinOfSplit(r.data);
  }

  lemma ReadIgnored(line: string, tail: seq<string>, lastId: string, clean: bool)
    requires Interpret(line) == Ignored
    ensures ReadNext([line, ""] + tail, lastId, clean) == ReadNext(tail, lastId, clean)
  {
    var rest := [""] + tail;
    assert ([line, ""] + tail)[1..] == rest && rest[1..] == tail;
    assert ReadFrom(rest, "", [], lastId, clean) == ReadFrom(tail, "", [], lastId, clean);
  }

  lemma ReadOtherRecord(r: Record, tail: seq<string>, lastId: string, clean: bool)
    requires !r.Event?
    ensures ReadNext(Layout(r) + tail, lastId, clean) == ReadNext(tail, lastId, clean)
  {
    match r
    case Retry(ms) =>
      InterpretField("retry", Decimal(ms));
      ReadIgnored(FieldLine("retry", Decimal(ms)), tail, lastId, clean);
    case Comment(text) =>
      InterpretComment(text);
      ReadIgnored(FieldLine("", text), tail, lastId, clean);
  }

  lemma DataLinesHaveNoLf(values: seq<string>)
    requires Unbroken(values)
    ensures Unbroken(DataLines(values))
  {
    forall i | 0 <= i < |values| ensures '\n' !in DataLines(values)[i] {
      assert DataLines(values)[i] == "data: " + values[i];
    }
  }

  lemma PartsHaveNoLf(a: seq<string>, b: seq<string>, c: seq<string>, d: seq<string>)
    requires Unbroken(a) && Unbroken(b) && Unbroken(c) && Unbroken(d)
    ensures Unbroken(a + b + c + d + [""])
  {
  }

  lemma FieldHasNoLf(present: bool, field: string, value: string)
    requires present ==> '\n' !in field && '\n' !in value
    ensures Unbroken(OptionalField(present, field, value))
  {
  }

  lemma DecimalHasNoLf(n: int)
    ensures '\n' !in Decimal(n)
  {
    DigitsHaveNoLf(if n < 0 then -n else n);
  }

  lemma LayoutHasNoLf(r: Record)
    requires r.Event? ==> '\n' !in r.id && '\n' !in r.name
    requires r.Comment? ==> '\n' !in r.text
    ensures Unbroken(Layout(r))
  {
    match r
    case Event(id, name, retry, data) =>
      DecimalHasNoLf(retry);
      FieldHasNoLf(id != "", "id", id);
      FieldHasNoLf(name != "", "event", name);
      FieldHasNoLf(retry > 0, "retry", Decimal(retry));
      DataLinesHaveNoLf(SplitLines(data));
      PartsHaveNoLf(OptionalField(id != "", "id", id), OptionalField(name != "", "event", name),
                    OptionalField(retry > 0, "retry", Decimal(retry)), DataLines(SplitLines(data)));
    case Retry(ms) => DecimalHasNoLf(ms);
    case Comment(_) =>
  }

  // ----- Whole streams -----

  function AllLines(rs: seq<Record>): seq<string> {
    if rs == [] then [] else Layout(rs[0]) + AllLines(rs[1..])
  }

  predicate AllWellFormed(rs: seq<Record>) {
    forall r :: r in rs ==> WellFormed(r)
  }

  lemma {:induction false} LinesOfStream(rs: seq<Record>)
    requires AllWellFormed(rs)
    ensures CompleteLines(EncodeAll(rs)) == AllLines(rs)
  {
    if rs != [] {
      assert rs[0] in rs && WellFormed(rs[0]);
      LayoutHasNoLf(rs[0]);
      CompleteLinesOfUnlines(Layout(rs[0]), EncodeAll(rs[1..]));
      LinesOfStream(rs[1..]);
    }
  }

  lemma {:induction false} ReadAllLines(rs: seq<Record>, lastId: string, clean: bool)
    requires AllWellFormed(rs)
    ensures ReadAll(AllLines(rs), lastId, clean) == Intended(rs, lastId)
    ensures FinalId(AllLines(rs), lastId, clean) == IntendedId(rs, lastId)
    decreases rs
  {
    if rs != [] {
      var tail := AllLines(rs[1..]);
      if rs[0].Event? {
        ReadWellFormedEvent(rs[0], tail, lastId, clean);
        ReadAllLines(rs[1..], NewId(rs[0], lastId), clean);
      } else {
        ReadOtherRecord(rs[0], tail, lastId, clean);
        ReadAllLines(rs[1..], lastId, clean);
      }
    }
  }

  /**
   Repeated reading of what was written delivers exactly the events written, in order, with the
   last non-empty id so far; retry records and comments leave no trace.
   */
  lemma RoundTrip(rs: seq<Record>, lastId: string, clean: bool)
    requires AllWellFormed(rs)
    ensures ReadAll(CompleteLines(EncodeAll(rs)), lastId, clean) == Intended(rs, lastId)
    ensures FinalId(CompleteLines(EncodeAll(rs)), lastId, clean) == IntendedId(rs, lastId)
  {
    LinesOfStream(rs);
    ReadAllLines(rs, lastId, clean);
  }

  // ----- Exactness -----

  lemma {:induction false} ReadStringsHaveNoLf(lines: seq<string>, name: string, values: seq<string>, lastId: string, clean: bool)
    requires Unbroken(lines)
    requires '\n' !in name && '\n' !in lastId
    ensures var r := ReadFrom(lines, name, values, lastId, clean);
            '\n' !in r.lastId && (r.Got? ==> '\n' !in r.name)
    decreases lines
  {
    if lines != [] {
      var line := TrimSuffix(lines[0], '\r');
      assert '\n' !in line;
      assert '\n' !in ParseLine(line).1;
      match Interpret(lines[0])
      case Blank => ReadStringsHaveNoLf(lines[1..], name, values, lastId, clean);
      case Ignored => ReadStringsHaveNoLf(lines[1..], name, values, lastId, clean);
      case SetName(v) => ReadStringsHaveNoLf(lines[1..], v, values, lastId, clean);
      case AddData(v) => ReadStringsHaveNoLf(lines[1..], name, values + [v], lastId, clean);
      case SetId(v) => ReadStringsHaveNoLf(lines[1..], name, values, v, clean);
    }
  }

  /** An event written on its own comes back if and only if it is well formed. */
  lemma EventSurvivesIffWellFormed(r: Record, lastId: string)
    requires r.Event? && '\n' !in lastId
    ensures ReadAll(CompleteLines(Encode(r)), lastId, true) == Intended([r], lastId) <==> WellFormed(r)
  {
    assert EncodeAll([r]) == Encode(r) by {
      assert Encode(r) + "" == Encode(r);
    }
    if WellFormed(r) {
      RoundTrip([r], lastId, true);
    } else if ReadAll(CompleteLines(Encode(r)), lastId, true) == Intended([r], lastId) {
      var lines := CompleteLines(Encode(r));
      ReadStringsHaveNoLf(lines, "", [], lastId, true);
      var got := ReadNext(lines, lastId, true);
      assert Intended([r], lastId) == [Delivery(r.name, r.data, NewId(r, lastId))];
      assert ReadAll(lines, lastId, true)[0] == Delivery(got.name, got.data, got.lastId);
      LayoutHasNoLf(r);
      CompleteLinesOfUnlines(Layout(r), "");
      assert Unlines(Layout(r)) + "" == Encode(r);
      assert lines == Layout(r) + [];
      ReadEventRecord(r, [], lastId, true);
      DataSurvivesOnlyUntrimmed(r.data);
      assert false;
    }
  }

  lemma DataSurvivesOnlyUntrimmed(data: string)
    requires Join(TrimAll(SplitLines(data))) == data
    ensures forall l :: l in SplitLines(data) ==> !EndsInCr(l)
  {
    var values := SplitLines(data);
    assert forall i :: 0 <= i < |values| ==> values[i] in values;
    SplitOfJoin(TrimAll(values));
    TrimKeeps(values);
  }

  // ----- Truncation -----

  /** The event of which only the first j data lines came through; none if there is no data line. */
  function Part(r: Record, j: nat, lastId: string): seq<Delivery>
    requires j > 0 ==> r.Event? && j <= |SplitLines(r.data)|
  {
    if j == 0 then [] else [Delivery(r.name, Join(SplitLines(r.data)[..j]), NewId(r, lastId))]
  }

  /** The events of the first k records and, for j > 0, the first j data lines of the next one. */
  function UpTo(rs: seq<Record>, k: nat, j: nat, lastId: string): seq<Delivery>
    requires k <= |rs|
    requires j > 0 ==> k < |rs| && rs[k].Event? && j <= |SplitLines(rs[k].data)|
  {
    Intended(rs[..k], lastId) + if j == 0 then [] else Part(rs[k], j, IntendedId(rs[..k], lastId))
  }

  predicate CutAt(ds: seq<Delivery>, rs: seq<Record>, k: nat, j: nat, lastId: string, clean: bool) {
    && k <= |rs| && (j > 0 ==> clean && k < |rs| && rs[k].Event? && j <= |SplitLines(rs[k].data)|)
    && ds == UpTo(rs, k, j, lastId)
  }

  ghost predicate IsCut(ds: seq<Delivery>, rs: seq<Record>, lastId: string, clean: bool) {
    exists k: nat, j: nat :: CutAt(ds, rs, k, j, lastId, clean)
  }

  lemma UpToStepsBack(rs: seq<Record>, k: nat, j: nat, lastId: string)
    requires rs != [] && k <= |rs| - 1
    requires j > 0 ==> k + 1 < |rs| && rs[k + 1].Event? && j <= |SplitLines(rs[k + 1].data)|
    ensures var r := rs[0];
            UpTo(rs, k + 1, j, lastId)
            == if r.Event? then [Delivery(r.name, r.data, NewId(r, lastId))] + UpTo(rs[1..], k, j, NewId(r, lastId))
               else UpTo(rs[1..], k, j, lastId)
  {
    assert rs[..k + 1][1..] == rs[1..][..k];
  }

  lemma UpToFirst(rs: seq<Record>, j: nat, lastId: string)
    requires j > 0 ==> rs != [] && rs[0].Event? && j <= |SplitLines(rs[0].data)|
    ensures UpTo(rs, 0, j, lastId) == if j == 0 then [] else Part(rs[0], j, lastId)
  {
    assert rs[..0] == [];
  }

  lemma CutInsideData(r: Record, lines: seq<string>, j: nat, lastId: string, clean: bool)
    requires r.Event? && WellFormed(r) && 1 <= j <= |SplitLines(r.data)| && lines == Head(r, j)
    ensures ReadAll(lines, lastId, clean) == if clean then Part(r, j, lastId) else []
  {
    var values := SplitLines(r.data);
    assert lines + [] == lines;
    ReadHead(r, j, [], lastId, clean);
    assert forall l :: l in values[..j] ==> l in values;
    TrimKeeps(values[..j]);
    if clean {
      assert ReadNext(lines, lastId, clean) == Got(r.name, Join(values[..j]), [], NewId(r, lastId));
      assert ReadAll([], NewId(r, lastId), clean) == [];
    }
  }

  lemma CutOfConcat(a: seq<string>, b: seq<string>, m: nat)
    requires m <= |a + b|
    ensures if |a| <= m then (a + b)[..m] == a + b[..m - |a|] else (a + b)[..m] == a[..m]
  {
  }

  lemma CutTwice(a: seq<string>, n: nat, m: nat)
    requires m <= n <= |a|
    ensures a[..n][..m] == a[..m]
  {
  }

  lemma LayoutCut(r: Record, m: nat)
    requires r.Event? && m < |Layout(r)|
    ensures var fields := |Head(r, 0)|;
            if m <= fields then Layout(r)[..m] == Head(r, 0)[..m]
            else m - fields <= |SplitLines(r.data)| && Layout(r)[..m] == Head(r, m - fields)
  {
    var fields, all := |Head(r, 0)|, |SplitLines(r.data)|;
    LayoutIsHeadAndBlank(r);
    HeadIsCut(r, if m <= fields then 0 else m - fields);
    CutOfConcat(Head(r, all), [""], m);
    if m <= fields {
      CutTwice(Head(r, all), fields, m);
    }
  }

  /** A cut inside an event delivers the data lines that came through whole. */
  lemma CutInsideEvent(r: Record, lines: seq<string>, fields: nat, m: nat, lastId: string, clean: bool) returns (j: nat)
    requires r.Event? && WellFormed(r) && fields == |Head(r, 0)|
    requires if m <= fields then lines == Head(r, 0)[..m] else m - fields <= |SplitLines(r.data)| && lines == Head(r, m - fields)
    ensures j <= |SplitLines(r.data)| && (j > 0 ==> clean) && ReadAll(lines, lastId, clean) == Part(r, j, lastId)
  {
    if m <= fields {
      j := 0;
      CutBeforeData(r, lines, m, lastId, clean);
    } else {
      j := if clean then m - fields else 0;
      CutInsideData(r, lines, m - fields, lastId, clean);
    }
  }

  lemma HeadIsCut(r: Record, j: nat)
    requires r.Event? && j <= |SplitLines(r.data)|
    ensures Head(r, j) == Head(r, |SplitLines(r.data)|)[..|Head(r, 0)| + j]
    ensures Head(r, 0) == Head(r, |SplitLines(r.data)|)[..|Head(r, 0)|]
    ensures |Head(r, |SplitLines(r.data)|)| == |Head(r, 0)| + |SplitLines(r.data)|
  {
    var values := SplitLines(r.data);
    assert values[..|values|] == values;
    assert DataLines(values[..j]) == DataLines(values)[..j];
    assert DataLines(values[..0]) == [];
  }

  lemma CutBeforeData(r: Record, lines: seq<string>, m: nat, lastId: string, clean: bool)
    requires r.Event? && m <= |Head(r, 0)| && lines == Head(r, 0)[..m]
    ensures ReadAll(lines, lastId, clean) == []
  {
    forall l | l in Head(r, 0) ensures !Interpret(l).AddData? && !Interpret(l).Blank? {
      InterpretField("id", r.id);
      InterpretField("event", r.name);
      InterpretField("retry", Decimal(r.retry));
    }
    NothingWithoutData(lines, "", lastId, clean);
  }

  lemma {:induction false} NothingWithoutData(lines: seq<string>, name: string, lastId: string, clean: bool)
    requires forall l :: l in lines ==> !Interpret(l).AddData?
    ensures ReadFrom(lines, name, [], lastId, clean).Nothing?
    decreases lines
  {
    if lines != [] {
      assert lines[0] in lines;
      var name' := if Interpret(lines[0]).SetName? then Interpret(lines[0]).v else name;
      var lastId' := if Interpret(lines[0]).SetId? then Interpret(lines[0]).v else lastId;
      NothingWithoutData(lines[1..], name', lastId', clean);
    }
  }

  lemma CutAfterRecord(rs: seq<Record>, lines: seq<string>, rest: seq<string>, k: nat, j: nat, lastId: string, clean: bool)
    requires rs != [] && WellFormed(rs[0]) && lines == Layout(rs[0]) + rest
    requires CutAt(ReadAll(rest, AfterId(rs[0], lastId), clean), rs[1..], k, j, AfterId(rs[0], lastId), clean)
    ensures CutAt(ReadAll(lines, lastId, clean), rs, k + 1, j, lastId, clean)
  {
    var r := rs[0];
    UpToStepsBack(rs, k, j, lastId);
    if r.Event? {
      ReadWellFormedEvent(r, rest, lastId, clean);
    } else {
      ReadOtherRecord(r, rest, lastId, clean);
    }
  }

  lemma CutInFirstRecord(rs: seq<Record>, lines: seq<string>, m: nat, lastId: string, clean: bool) returns (j: nat)
    requires rs != [] && WellFormed(rs[0]) && m < |Layout(rs[0])| && lines == Layout(rs[0])[..m]
    ensures CutAt(ReadAll(lines, lastId, clean), rs, 0, j, lastId, clean)
  {
    var r := rs[0];
    if r.Event? {
      LayoutCut(r, m);
      j := CutInsideEvent(r, lines, |Head(r, 0)|, m, lastId, clean);
    } else {
      CutOtherRecord(r, lines, m, lastId, clean);
      j := 0;
    }
    UpToFirst(rs, j, lastId);
  }

  lemma {:induction false} CutLines(rs: seq<Record>, lines: seq<string>, m: nat, lastId: string, clean: bool) returns (k: nat, j: nat)
    requires AllWellFormed(rs) && m <= |AllLines(rs)| && lines == AllLines(rs)[..m]
    ensures CutAt(ReadAll(lines, lastId, clean), rs, k, j, lastId, clean)
    decreases rs
  {
    if rs == [] {
      k, j := 0, 0;
    } else {
      CutOfConcat(Layout(rs[0]), AllLines(rs[1..]), m);
      if |Layout(rs[0])| <= m {
        var rest := AllLines(rs[1..])[..m - |Layout(rs[0])|];
        k, j := CutLines(rs[1..], rest, |rest|, AfterId(rs[0], lastId), clean);
        CutAfterRecord(rs, lines, rest, k, j, lastId, clean);
        k := k + 1;
      } else {
        j := CutInFirstRecord(rs, lines, m, lastId, clean);
        k := 0;
      }
    }
  }

  lemma CutOtherRecord(r: Record, lines: seq<string>, m: nat, lastId: string, clean: bool)
    requires !r.Event? && m < |Layout(r)| && lines == Layout(r)[..m]
    ensures ReadAll(lines, lastId, clean) == []
  {
    match r {
      case Retry(ms) => InterpretField("retry", Decimal(ms));
      case Comment(text) => InterpretComment(text);
    }
    NothingWithoutData(lines, "", lastId, clean);
  }

  /**
   Of a stream cut after any number of bytes, the client sees a prefix of the events and then at
   most one more: the next event with its own name and id and the join of a non-empty prefix of its
   data lines. That last one only appears if the cut looks like an orderly EOF.
   */
  lemma TruncatedStream(rs: seq<Record>, n: nat, lastId: string, clean: bool)
    requires AllWellFormed(rs) && n <= |EncodeAll(rs)|
    ensures IsCut(ReadAll(CompleteLines(EncodeAll(rs)[..n]), lastId, clean), rs, lastId, clean)
  {
    LinesOfStream(rs);
    CompleteLinesOfPrefix(EncodeAll(rs), n);
    var lines := CompleteLines(EncodeAll(rs)[..n]);
    assert lines == AllLines(rs)[..|lines|];
    var k, j := CutLines(rs, lines, |lines|, lastId, clean);
  }
}
