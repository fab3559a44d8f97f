/** The bytes that a run of the client leaves on stdout. */
module ClientStdout {
  import opened Common
  import opened Backoff
  import opened ClientModel
  import opened ClientProperties
  import SseFormat

  // ----- The answers that an exchange brings -----

  /** The bodies of the successful exchanges made for requests, without the empty ones: what stdout is to get. */
  ghost function AnswersOf(e: Env, sent: seq<Attempt>): seq<string> {
    if sent == [] then []
    else
      var last, o := sent[|sent| - 1], Net(e, |sent| - 1);
      var before := AnswersOf(e, sent[..|sent| - 1]);
      if Success(o) && !e.isNotification(last.body) && o.resp.body.value != "" then before + [o.resp.body.value] else before
  }

  lemma {:induction false} NoAnswers(e: Env, before: seq<Attempt>, sent: seq<Attempt>)
    requires before <= sent && forall i :: |before| <= i < |sent| ==> !Success(Net(e, i))
    ensures AnswersOf(e, sent) == AnswersOf(e, before)
    decreases |sent|
  {
    if |sent| > |before| {
      NoAnswers(e, before, sent[..|sent| - 1]);
    } else {
      assert sent == before;
    }
  }

  /** Whatever the retry loop of the transport does, at most its last exchange succeeds. */
  lemma OnlyTheLastSucceeds(e: Env, closed: bool, i: nat, n: nat, v: nat)
    ensures var s := SendingFrom(e, closed, i, n, v);
            forall x :: n <= x < n + s.k - (if s.result.Ok? then 1 else 0) ==> !Success(Net(e, x))
  {
    SendFacts(e, closed, i, n, v);
    var s := SendingFrom(e, closed, i, n, v);
    if s.k >= 1 {
      TryIff(e, n, v, Try(e, n, v));
    }
  }

  /** The exchanges that r' adds to r, but for the last one if the message was answered, did not succeed. */
  ghost predicate FailsUntil(e: Env, r: Record, r': Record, err: Option<Error>) {
    && r.sent <= r'.sent
    && forall i :: |r.sent| <= i < |r'.sent| - (if GivenUp(err) then 0 else 1) ==> !Success(Net(e, i))
  }

  lemma SendFails(e: Env, closed: bool, r: Record, msg: string, session: string)
    ensures var (r', result) := Send(e, closed, r, msg, session);
            FailsUntil(e, r, r', if result.Ok? then None else Some(result.error))
  {
    OnlyTheLastSucceeds(e, closed, |r.sends|, |r.sent|, |r.slept|);
    SendFacts(e, closed, |r.sends|, |r.sent|, |r.slept|);
  }

  lemma {:induction false} RetriesFail(e: Env, closed: bool, r: Record, msg: string, session: string, left: nat, delay: int)
    ensures var (r', err) := RetryFrom(e, closed, r, msg, session, left, delay); FailsUntil(e, r, r', err)
    decreases left
  {
    if left > 0 && RetryContext(e, |r.waited|).None? {
      var r' := Wait(r, delay);
      var (r'', result) := Send(e, closed, r', msg, session);
      SendFails(e, closed, r', msg, session);
      SendFacts(e, closed, |r'.sends|, |r'.sent|, |r'.slept|);
      if result.Ok? {
        AcceptKeepsLogs(e, r'', msg, result.value);
        AcceptIsNotGivenUp(e, r'', msg, result.value);
      } else {
        RetriesFail(e, closed, r'', msg, session, left - 1, NextDelay(e.retry, delay));
      }
    }
  }

  lemma MessageFails(e: Env, closed: bool, r: Record, msg: string)
    ensures var (r', err) := Handle(e, closed, r, msg); FailsUntil(e, r, r', err)
  {
    var (r1, first) := Send(e, closed, r, msg, r.session);
    SendFails(e, closed, r, msg, r.session);
    SendFacts(e, closed, |r.sends|, |r.sent|, |r.slept|);
    if first.Ok? {
      AcceptKeepsLogs(e, r1, msg, first.value);
      AcceptIsNotGivenUp(e, r1, msg, first.value);
    } else if e.retry.enabled {
      var r2 := AfterFailure(r1, first.error);
      RetriesFail(e, closed, r2, msg, r2.session, AllowedAgain(e.retry), e.retry.initialDelay);
    }
  }

  // ----- What stdout takes of them -----

  /** A message with its final LF, which is added if it lacks one. */
  function AsLine(body: string): string { body + (if EndsInLf(body) then "" else "\n") }

  /** What stdout takes of the answers, the i-th write being cut to the room there is for it. */
  ghost function Taken(e: Env, answers: seq<string>): string {
    if answers == [] then ""
    else
      var last, i := answers[|answers| - 1], |answers| - 1;
      Taken(e, answers[..i]) + AsLine(last)[..Min(e.room(i), |AsLine(last)|)]
  }

  /** The answers that stdout takes in full. */
  ghost function TakenWhole(e: Env, answers: seq<string>): seq<string> {
    if answers == [] then []
    else
      var last, i := answers[|answers| - 1], |answers| - 1;
      var before := TakenWhole(e, answers[..i]);
      if e.room(i) >= |AsLine(last)| then before + [last] else before
  }

  /** The i-th write stops in the middle of the line. */
  ghost predicate Tears(e: Env, answers: seq<string>, i: nat)
    requires i < |answers|
  {
    0 < e.room(i) < |AsLine(answers[i])|
  }

  ghost predicate NeverTears(e: Env, answers: seq<string>) { forall i :: 0 <= i < |answers| ==> !Tears(e, answers, i) }

  ghost predicate AlwaysRoom(e: Env, answers: seq<string>) { forall i :: 0 <= i < |answers| ==> e.room(i) >= |AsLine(answers[i])| }

  /** Stdout is told by the exchanges alone. */
  ghost predicate Told(e: Env, r: Record) { Tells(e, AnswersOf(e, r.sent), r) }

  ghost predicate Tells(e: Env, answers: seq<string>, r: Record) {
    && r.writes == |answers| && r.out == Taken(e, answers) && r.lines == TakenWhole(e, answers)
    && (r.torn <==> !NeverTears(e, answers))
  }

  lemma OneMoreAnswer(e: Env, answers: seq<string>, body: string, i: nat)
    requires i == |answers|
    ensures Taken(e, answers + [body]) == Taken(e, answers) + AsLine(body)[..Min(e.room(i), |AsLine(body)|)]
    ensures TakenWhole(e, answers + [body]) == if e.room(i) >= |AsLine(body)| then TakenWhole(e, answers) + [body] else TakenWhole(e, answers)
    ensures NeverTears(e, answers + [body]) <==> NeverTears(e, answers) && !(0 < e.room(i) < |AsLine(body)|)
  {
    var more := answers + [body];
    assert more[..|more| - 1] == answers;
    forall j | 0 <= j < |answers| ensures Tears(e, more, j) == Tears(e, answers, j) {
    }
    assert Tears(e, more, i) <==> 0 < e.room(i) < |AsLine(body)|;
  }

  lemma AnswerIsTaken(e: Env, answers: seq<string>, msg: string, r: Record, r': Record, err: Option<Error>)
    requires Tells(e, answers, r) && Answered(e, msg, r, r', err)
    ensures var body := Net(e, |r'.sent| - 1).resp.body.value;
            Tells(e, if e.isNotification(msg) || body == "" then answers else answers + [body], r')
  {
    var body := Net(e, |r'.sent| - 1).resp.body.value;
    OneMoreAnswer(e, answers, body, |answers|);
    assert AsLine(body)[..|AsLine(body)|] == AsLine(body);
  }

  lemma SettledIsTold(e: Env, msg: string, r: Record, r': Record, err: Option<Error>)
    requires Told(e, r) && Settled(e, msg, r, r', err) && FailsUntil(e, r, r', err)
    requires !GivenUp(err) ==> r'.sent[|r'.sent| - 1].body == msg
    ensures Told(e, r')
  {
    if GivenUp(err) {
      NoAnswers(e, r.sent, r'.sent);
    } else {
      NoAnswers(e, r.sent, r'.sent[..|r'.sent| - 1]);
      AnswerIsTaken(e, AnswersOf(e, r.sent), msg, r, r', err);
    }
  }

  lemma MessageIsTold(e: Env, closed: bool, r: Record, msg: string)
    requires Told(e, r)
    ensures Told(e, Handle(e, closed, r, msg).0)
  {
    var (r', err) := Handle(e, closed, r, msg);
    var s := SendingFrom(e, closed, |r.sends|, |r.sent|, |r.slept|);
    MessageFails(e, closed, r, msg);
    MessageSettles(e, closed, r, msg);
    MessageIsOne(e, closed, r, msg);
    SettledIsTold(e, msg, if s.result.Ok? then r else r.(session := Again(e, r, s.k)), r', err);
  }

  lemma {:induction false} MessagesAreTold(e: Env, closed: bool, r: Record, messages: seq<string>, i: nat, j: nat)
    requires i <= j <= |messages| && Told(e, r)
    ensures Told(e, RecordAt(e, closed, r, messages, i, j))
    decreases j - i
  {
    if i < j {
      MessageIsTold(e, closed, r, messages[i]);
      MessagesAreTold(e, closed, Handle(e, closed, r, messages[i]).0, messages, i + 1, j);
    }
  }

  // ----- Lines -----

  /** Messages one after the other, each followed by an LF if it lacks one. */
  function Lines(bodies: seq<string>): string {
    if bodies == [] then ""
    else
      var last := bodies[|bodies| - 1];
      Lines(bodies[..|bodies| - 1]) + last + if last != "" && last[|last| - 1] == '\n' then "" else "\n"
  }

  lemma OneMoreLine(bodies: seq<string>, body: string)
    ensures Lines(bodies + [body]) == Lines(bodies) + AsLine(body)
  {
    assert (bodies + [body])[..|bodies|] == bodies;
  }

  /** As long as no write is cut short after its first byte, the bytes taken are the answers taken in full; otherwise they are more. */
  ghost predicate TakesLines(e: Env, answers: seq<string>) {
    var lines := Lines(TakenWhole(e, answers));
    if NeverTears(e, answers) then Taken(e, answers) == lines else |Taken(e, answers)| > |lines|
  }

  lemma {:induction false} TakenIsLines(e: Env, answers: seq<string>)
    ensures TakesLines(e, answers)
    decreases |answers|
  {
    if answers != [] {
      var front, last := answers[..|answers| - 1], answers[|answers| - 1];
      assert answers == front + [last];
      TakenIsLines(e, front);
      OneMoreTaken(e, front, last);
    }
  }

  lemma OneMoreTaken(e: Env, front: seq<string>, last: string)
    requires TakesLines(e, front)
    ensures TakesLines(e, front + [last])
  {
    var line, room := AsLine(last), e.room(|front|);
    OneMoreAnswer(e, front, last, |front|);
    if room >= |line| {
      OneMoreLine(TakenWhole(e, front), last);
      assert line[..|line|] == line;
    } else if room == 0 {
      assert Taken(e, front) + line[..0] == Taken(e, front);
    }
  }

  lemma {:induction false} RoomTakesAll(e: Env, answers: seq<string>)
    requires AlwaysRoom(e, answers)
    ensures TakenWhole(e, answers) == answers
    decreases |answers|
  {
    if answers != [] {
      var i := |answers| - 1;
      var front, last := answers[..i], answers[i];
      RoomForFront(e, answers, i);
      RoomTakesAll(e, front);
      OneMoreAnswer(e, front, last, i);
      assert front + [last] == answers;
    }
  }

  lemma RoomForFront(e: Env, answers: seq<string>, i: nat)
    requires AlwaysRoom(e, answers) && i == |answers| - 1
    ensures AlwaysRoom(e, answers[..i]) && e.room(i) >= |AsLine(answers[i])|
  {
    forall k | 0 <= k < i ensures e.room(k) >= |AsLine(answers[..i][k])| {
      assert answers[..i][k] == answers[k];
    }
  }

  lemma {:induction false} AnswersAreNotEmpty(e: Env, sent: seq<Attempt>)
    ensures NoneEmpty(AnswersOf(e, sent))
    decreases |sent|
  {
    if sent != [] {
      AnswersAreNotEmpty(e, sent[..|sent| - 1]);
    }
  }

  lemma {:induction false} NorAreTheTaken(e: Env, answers: seq<string>)
    requires NoneEmpty(answers)
    ensures NoneEmpty(TakenWhole(e, answers))
    decreases |answers|
  {
    if answers != [] {
      NorAreTheTaken(e, answers[..|answers| - 1]);
    }
  }

  predicate NoneEmpty(lines: seq<string>) { forall i :: 0 <= i < |lines| ==> lines[i] != "" }

  predicate AllOneLine(lines: seq<string>) { forall i :: 0 <= i < |lines| ==> OneLine(lines[i]) }

  predicate OneLine(body: string) { forall i :: 0 <= i < |body| - 1 ==> body[i] != '\n' }

  /** A response with its final LF is exactly one line if and only if it has no LF before its last byte. */
  lemma AnswerIsOneLineIff(body: string)
    requires body != ""
    ensures |SseFormat.CompleteLines(AsLine(body))| >= 1
    ensures |SseFormat.CompleteLines(AsLine(body))| == 1 <==> OneLine(body)
  {
    var s := AsLine(body);
    assert s[|s| - 1] == '\n' && s[..|body| - 1] == body[..|body| - 1];
    var i := SseFormat.FirstLf(s);
    var rest := s[i + 1..];
    if rest == "" {
      assert SseFormat.CompleteLines(rest) == [];
    } else {
      assert rest[|rest| - 1] == '\n';
      assert SseFormat.FirstLf(rest) < |rest|;
      assert body[i] == '\n';
    }
  }

  lemma {:induction false} LinesOfTwoParts(a: string, b: string)
    requires a == "" || EndsInLf(a)
    ensures |SseFormat.CompleteLines(a + b)| == |SseFormat.CompleteLines(a)| + |SseFormat.CompleteLines(b)|
    decreases |a|
  {
    if a == "" {
      assert a + b == b;
    } else {
      var i := SseFormat.FirstLf(a);
      var first, rest := a[..i], a[i + 1..];
      SseFormat.CutAtLf(a, i);
      SseFormat.Associate(first, rest, b);
      SseFormat.CompleteLinesStep(first, rest + b);
      LinesOfTwoParts(rest, b);
    }
  }

  lemma LastOneLine(lines: seq<string>)
    requires lines != []
    ensures var front, last := lines[..|lines| - 1], lines[|lines| - 1];
            && (NoneEmpty(lines) <==> NoneEmpty(front) && last != "")
            && (AllOneLine(lines) <==> AllOneLine(front) && OneLine(last))
  {
    var front, last := lines[..|lines| - 1], lines[|lines| - 1];
    assert lines == front + [last];
  }

  lemma LineEndsInLf(a: string, body: string)
    ensures EndsInLf(a + AsLine(body))
  {
    var s := a + AsLine(body);
    assert s[|s| - 1] == AsLine(body)[|AsLine(body)| - 1];
  }

  lemma {:induction false} LineCount(lines: seq<string>)
    requires NoneEmpty(lines)
    ensures (Lines(lines) == "" || EndsInLf(Lines(lines))) && |SseFormat.CompleteLines(Lines(lines))| >= |lines|
    ensures |SseFormat.CompleteLines(Lines(lines))| == |lines| <==> AllOneLine(lines)
    decreases |lines|
  {
    if lines != [] {
      var front, last := lines[..|lines| - 1], lines[|lines| - 1];
      assert lines == front + [last];
      LastOneLine(lines);
      LineCount(front);
      OneMoreLine(front, last);
      LinesOfTwoParts(Lines(front), AsLine(last));
      AnswerIsOneLineIff(last);
      LineEndsInLf(Lines(front), last);
    }
  }

  lemma TornIff(e: Env, answers: seq<string>)
    ensures !NeverTears(e, answers) <==> exists i :: 0 <= i < |answers| && Tears(e, answers, i)
    ensures AlwaysRoom(e, answers) ==> NeverTears(e, answers)
  {
    if AlwaysRoom(e, answers) {
      forall i | 0 <= i < |answers| ensures !Tears(e, answers, i) {
        assert e.room(i) >= |AsLine(answers[i])|;
      }
    }
  }

  lemma ToldStdout(e: Env, r: Record, answers: seq<string>)
    requires Tells(e, answers, r) && answers == AnswersOf(e, r.sent)
    ensures r.out == Lines(r.lines) <==> !r.torn
    ensures AlwaysRoom(e, answers) ==> r.lines == answers && r.out == Lines(answers)
    ensures !r.torn ==> (|SseFormat.CompleteLines(r.out)| == |r.lines| <==> AllOneLine(r.lines))
  {
    TakenIsLines(e, answers);
    TornIff(e, answers);
    AnswersAreNotEmpty(e, r.sent);
    NorAreTheTaken(e, answers);
    LineCount(r.lines);
    if AlwaysRoom(e, answers) {
      RoomTakesAll(e, answers);
    }
  }

  /**
   After any run from the start, stdout is told by the exchanges: what it took of the bodies of the
   successful exchanges made for requests, in order. It holds the answers taken in full, each followed
   by an LF if it lacks one, and nothing else, if and only if no write was cut short after its first
   byte; these are all the answers if there was always room. Then each of them is one line if and only if
   none has an LF before its last byte.
   */
  lemma StdoutOfRun(e: Env, closed: bool, messages: seq<string>, stop: nat -> Option<Cause>)
    ensures var r := RunFrom(e, closed, FRESH, messages, stop, 0).r;
            var answers := AnswersOf(e, r.sent);
            && r.out == Taken(e, answers) && r.lines == TakenWhole(e, answers)
            && (r.torn <==> exists i :: 0 <= i < |answers| && Tears(e, answers, i))
            && (r.out == Lines(r.lines) <==> !r.torn)
            && (AlwaysRoom(e, answers) ==> r.lines == answers && r.out == Lines(answers))
            && (!r.torn ==> (|SseFormat.CompleteLines(r.out)| == |r.lines| <==> AllOneLine(r.lines)))
  {
    var run := RunFrom(e, closed, FRESH, messages, stop, 0);
    RunStops(e, closed, FRESH, messages, stop, 0);
    MessagesAreTold(e, closed, FRESH, messages, 0, run.handled);
    TornIff(e, AnswersOf(e, run.r.sent));
    ToldStdout(e, run.r, AnswersOf(e, run.r.sent));
  }
}
