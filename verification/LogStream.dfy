/** Live job logs (webpanel/app/jobs.py `JobRuntime`, `_run`; webpanel/app/routers/jobs.py `job_stream`):
    a replaying publish/subscribe log and the stream that reads it up to the done sentinel. */
module LogStream {
  import opened Options

  const DONE := "__PANEL_JOB_DONE__"

  /** One subscriber's queue; `taken` records what its stream already took out. */
  class LogQueue {
    var items: seq<string>
    ghost var taken: seq<string>

    constructor ()
      ensures items == [] && taken == []
    {
      items, taken := [], [];
    }

    method Put(line: string)
      modifies this`items
      ensures items == old(items) + [line]
    {
      items := items + [line];
    }

    method Get() returns (line: string)
      requires items != []
      modifies this
      ensures [line] + items == old(items) && taken == old(taken) + [line]
    {
      line, items := items[0], items[1..];
      taken := taken + [line];
    }
  }

  class JobRuntime {
    var lines: seq<string>
    var subscribers: set<LogQueue>

    /** No subscriber has missed, repeated or reordered a line, whenever it joined. */
    ghost predicate GapFree()
      reads this, subscribers
    {
      forall q :: q in subscribers ==> q.taken + q.items == lines
    }

    constructor ()
      ensures lines == [] && subscribers == {} && GapFree()
    {
      lines, subscribers := [], {};
    }

    method Publish(line: string)
      requires GapFree()
      modifies this`lines, subscribers
      ensures GapFree()
      ensures lines == old(lines) + [line]
      ensures forall q :: q in subscribers ==> q.items == old(q.items) + [line] && q.taken == old(q.taken)
    {
      lines := lines + [line];
      var rest := subscribers;
      while rest != {}
        invariant rest <= subscribers && subscribers == old(subscribers) && lines == old(lines) + [line]
        invariant forall q :: q in subscribers ==> q.taken == old(q.taken)
        invariant forall q :: q in subscribers ==> q.items == if q in rest then old(q.items) else old(q.items) + [line]
        modifies subscribers`items
        decreases rest
      {
        var q :| q in rest;
        q.Put(line);
        rest := rest - {q};
      }
      forall q | q in subscribers ensures q.taken + q.items == lines {
        assert old(q.taken + q.items) == old(lines);
        assert q.taken + (old(q.items) + [line]) == (old(q.taken) + old(q.items)) + [line];
      }
    }

    method Subscribe() returns (q: LogQueue)
      requires GapFree()
      modifies this`subscribers
      ensures GapFree() && fresh(q) && subscribers == old(subscribers) + {q}
      ensures q.items == lines && q.taken == []
    {
      q := new LogQueue();
      var i := 0;
      while i < |lines|
        invariant 0 <= i <= |lines|
        invariant q.items == lines[..i] && q.taken == []
        invariant GapFree() && q !in subscribers
        modifies q
      {
        q.Put(lines[i]);
        i := i + 1;
      }
      assert lines[..i] == lines;
      subscribers := subscribers + {q};
    }

    method Unsubscribe(q: LogQueue)
      requires GapFree()
      modifies this`subscribers
      ensures GapFree() && subscribers == old(subscribers) - {q}
    {
      subscribers := subscribers - {q};
    }

    /** What a job's coroutine publishes: the command, the output line by line, a runner error if any, the
        closing line and the sentinel. */
    method RunJob(cmd: string, output: string, error: Option<string>, verdict: string)
      requires GapFree() && lines == []
      modifies this`lines, subscribers
      ensures GapFree()
      ensures lines == Published(cmd, output, error, verdict)
    {
      Publish(Banner(cmd));
      PublishOutput(output);
      if error.Some? { Publish(ErrorLine(error.value)); }
      Publish(Footer(verdict));
      Publish(DONE);
    }

    /** The process output, one line at a time as it is read. */
    method PublishOutput(output: string)
      requires GapFree()
      modifies this`lines, subscribers
      ensures GapFree()
      ensures lines == old(lines) + SplitLines(output)
    {
      var pending := output;
      while pending != ""
        invariant GapFree() && subscribers == old(subscribers)
        invariant lines + SplitLines(pending) == old(lines) + SplitLines(output)
        decreases |pending|
      {
        var n := LineLength(pending);
        ghost var before := lines;
        assert SplitLines(pending) == [pending[..n]] + SplitLines(pending[n..]);
        Publish(pending[..n]);
        assert lines + SplitLines(pending[n..]) == before + ([pending[..n]] + SplitLines(pending[n..]));
        pending := pending[n..];
      }
      assert lines + [] == lines;
    }
  }

  function Banner(cmd: string): string { "$ " + cmd + "\n" }
  function ErrorLine(error: string): string { "\n[panel] runner error: " + error + "\n" }
  function Footer(verdict: string): string { "\n[panel] job finished " + verdict + "\n" }

  /** Length of the first line, its newline included; the last line may lack one. */
  function LineLength(text: string): (n: nat)
    requires text != ""
    ensures 0 < n <= |text|
    ensures n == |text| || text[n - 1] == '\n'
    ensures '\n' !in text[..n - 1]
  {
    if text[0] == '\n' || |text| == 1 then 1
    else
      var n := LineLength(text[1..]) + 1;
      assert text[..n - 1] == [text[0]] + text[1..][..n - 2];
      n
  }

  function SplitLines(text: string): seq<string> {
    if text == "" then []
    else
      var n := LineLength(text);
      [text[..n]] + SplitLines(text[n..])
  }

  /** What follows the last newline. */
  function Unterminated(text: string): string {
    if text == "" then ""
    else if text[|text| - 1] == '\n' then ""
    else Unterminated(text[..|text| - 1]) + [text[|text| - 1]]
  }

  function Published(cmd: string, output: string, error: Option<string>, verdict: string): seq<string> {
    [Banner(cmd)] + SplitLines(output) + (if error.Some? then [ErrorLine(error.value)] else []) + [Footer(verdict)] + [DONE]
  }

  /** What a stream shows of a message sequence, and whether it announced the end. */
  function Shown(msgs: seq<string>): (seq<string>, bool) {
    if msgs == [] then ([], false)
    else if msgs[0] == DONE then ([], true)
    else var (rest, done) := Shown(msgs[1..]); ([msgs[0]] + rest, done)
  }

  /** The stream of one subscriber over everything now in its queue; it stops for good at the sentinel. */
  method Stream(q: LogQueue) returns (shown: seq<string>, done: bool)
    modifies q
    ensures (shown, done) == Shown(old(q.items))
    ensures q.taken + q.items == old(q.taken) + old(q.items)
    ensures done || q.items == []
  {
    shown, done := [], false;
    assert [] + Shown(q.items).0 == Shown(q.items).0;
    while q.items != []
      invariant var (rest, end) := Shown(q.items); (shown + rest, end) == Shown(old(q.items))
      invariant q.taken + q.items == old(q.taken) + old(q.items)
      decreases |q.items|
    {
      ghost var before, taken := q.items, q.taken;
      var line := q.Get();
      assert before == [line] + q.items && before[1..] == q.items;
      assert taken + before == taken + [line] + q.items;
      if line == DONE {
        assert shown + [] == shown;
        return shown, true;
      }
      ghost var (rest, _) := Shown(q.items);
      assert shown + ([line] + rest) == (shown + [line]) + rest;
      shown := shown + [line];
    }
    assert Shown(q.items) == ([], false);
    assert shown + [] == shown;
  }

  // ---------------------------------------------------------------- every stream ends, and when it is complete

  lemma {:induction false} ShownConcat(a: seq<string>, b: seq<string>)
    ensures Shown(a + b) == if DONE in a then Shown(a) else (a + Shown(b).0, Shown(b).1)
    ensures DONE in a ==> Shown(a).1 && |Shown(a).0| < |a|
  {
    if a == [] {
      assert a + b == b && a + Shown(b).0 == Shown(b).0;
    } else {
      ShownConcat(a[1..], b);
      assert (a + b)[1..] == a[1..] + b && (a + b)[0] == a[0];
      assert [a[0]] + (a[1..] + Shown(b).0) == a + Shown(b).0;
      assert DONE in a <==> a[0] == DONE || DONE in a[1..];
    }
  }

  lemma NotTheSentinel(line: string)
    requires line != "" && line[|line| - 1] == '\n'
    ensures line != DONE
  {
    assert DONE[|DONE| - 1] == '_';
  }

  lemma {:induction false} SplitMember(text: string)
    ensures DONE in SplitLines(text) <==> Unterminated(text) == DONE
  {
    if text != "" {
      var n := LineLength(text);
      var head, rest := text[..n], text[n..];
      assert text == head + rest;
      SplitMember(rest);
      if n < |text| {
        NotTheSentinel(head);
        UnterminatedTail(head, rest);
      } else {
        assert rest == "" && head == text;
        if text[n - 1] == '\n' {
          NotTheSentinel(head);
        } else {
          WholeUnterminated(text);
        }
      }
    }
  }

  lemma {:induction false} UnterminatedTail(head: string, rest: string)
    requires head != "" && head[|head| - 1] == '\n'
    ensures Unterminated(head + rest) == Unterminated(rest)
  {
    var all := head + rest;
    if rest == "" {
      assert all == head;
    } else {
      var m := |rest| - 1;
      assert all[..|all| - 1] == head + rest[..m];
      if rest[m] != '\n' { UnterminatedTail(head, rest[..m]); }
    }
  }

  lemma {:induction false} WholeUnterminated(text: string)
    requires '\n' !in text
    ensures Unterminated(text) == text
  {
    if text != "" {
      assert text == text[..|text| - 1] + [text[|text| - 1]];
      WholeUnterminated(text[..|text| - 1]);
    }
  }

  /** Whatever the job printed, every subscriber's stream of the published log announces the end; it shows the
      whole log before doing so exactly when the output does not end in an unterminated line spelling the sentinel. */
  lemma StreamsEnd(cmd: string, output: string, error: Option<string>, verdict: string)
    ensures var log := Published(cmd, output, error, verdict);
      && Shown(log).1
      && Shown(log).0 <= log[..|log| - 1]
      && (Shown(log).0 == log[..|log| - 1] <==> Unterminated(output) != DONE)
  {
    var log := Published(cmd, output, error, verdict);
    var body := log[..|log| - 1];
    assert log == body + [DONE];
    ShownConcat(body, [DONE]);
    ShownIsPrefix(body);
    assert Shown([DONE]) == ([], true);
    SplitMember(output);
    var err := if error.Some? then [ErrorLine(error.value)] else [];
    assert body == [Banner(cmd)] + SplitLines(output) + err + [Footer(verdict)];
    assert Banner(cmd)[0] != DONE[0] && Footer(verdict)[0] != DONE[0];
    assert error.Some? ==> err[0][0] != DONE[0];
    assert DONE in body <==> DONE in SplitLines(output);
  }

  /** Such an output: the stream stops at the sentinel the job printed, and the verdict is not shown. */
  lemma StreamCanStopEarly(cmd: string, verdict: string)
    ensures Shown(Published(cmd, DONE, None, verdict)) == ([Banner(cmd)], true)
  {
    SentinelIsOneLine();
    hide SplitLines;
    var tail := [DONE, Footer(verdict), DONE];
    assert Published(cmd, DONE, None, verdict) == [Banner(cmd)] + tail;
    assert Banner(cmd)[0] != DONE[0];
    ShownOne(Banner(cmd), tail);
  }

  lemma ShownOne(msg: string, rest: seq<string>)
    requires msg != DONE && rest != [] && rest[0] == DONE
    ensures Shown([msg] + rest) == ([msg], true)
  {
    var msgs := [msg] + rest;
    assert msgs[0] == msg && msgs[1..] == rest;
    assert Shown(rest) == ([], true);
    assert Shown(msgs) == ([msg] + [], true);
    assert [msg] + [] == [msg];
  }

  lemma SentinelIsOneLine()
    ensures SplitLines(DONE) == [DONE]
  {
    hide LineLength;
    var n := LineLength(DONE);
    assert DONE[n - 1] != '\n';
    assert DONE[..n] == DONE && DONE[n..] == "";
  }

  lemma {:induction false} ShownIsPrefix(msgs: seq<string>)
    ensures Shown(msgs).0 <= msgs
  {
    if msgs != [] { ShownIsPrefix(msgs[1..]); }
  }

  // ---------------------------------------------------------------- what is published and shown

  function Joined(lines: seq<string>): string { if lines == [] then "" else lines[0] + Joined(lines[1..]) }

  /** All but the last end in their one newline, and the last one may. */
  ghost predicate Lines(lines: seq<string>) {
    && (forall i :: 0 <= i < |lines| ==> lines[i] != "" && '\n' !in lines[i][..|lines[i]| - 1])
    && (forall i :: 0 <= i < |lines| - 1 ==> lines[i][|lines[i]| - 1] == '\n')
  }

  lemma {:induction false} SplitLaw(text: string)
    ensures Lines(SplitLines(text)) && Joined(SplitLines(text)) == text
    decreases |text|
  {
    if text != "" {
      var n := LineLength(text);
      var (head, rest) := (text[..n], SplitLines(text[n..]));
      SplitLaw(text[n..]);
      assert SplitLines(text) == [head] + rest && (n == |text| ==> rest == []);
      hide SplitLines, LineLength;
      JoinedNext(head, rest);
      assert head[..n - 1] == text[..n - 1] && text == head + text[n..];
      LinesNext(head, rest);
    }
  }

  lemma JoinedNext(head: string, rest: seq<string>)
    ensures Joined([head] + rest) == head + Joined(rest)
  {
    assert ([head] + rest)[1..] == rest;
  }

  lemma LinesNext(head: string, rest: seq<string>)
    requires Lines(rest) && head != "" && '\n' !in head[..|head| - 1] && (head[|head| - 1] == '\n' || rest == [])
    ensures Lines([head] + rest)
  {
    var all := [head] + rest;
    assert forall i :: 1 <= i < |all| ==> all[i] == rest[i - 1];
  }

  /** The log of a job: the command, what it printed and nothing else, the error of the runner if there was one, the
      closing line, and the end marker. */
  lemma PublishedLaw(cmd: string, output: string, error: Option<string>, verdict: string)
    ensures var log := Published(cmd, output, error, verdict);
      var n := |log| - (if error.Some? then 3 else 2);
      && n >= 1 && log[0] == "$ " + cmd + "\n"
      && Lines(log[1..n]) && Joined(log[1..n]) == output
      && (error.Some? ==> log[n] == "\n[panel] runner error: " + error.value + "\n")
      && log[|log| - 2] == "\n[panel] job finished " + verdict + "\n" && log[|log| - 1] == "__PANEL_JOB_DONE__"
  {
    hide Joined, Lines, SplitLines;
    SplitLaw(output);
    var log := Published(cmd, output, error, verdict);
    assert log[1..1 + |SplitLines(output)|] == SplitLines(output);
  }

  /** A stream shows what comes before the first end marker, and announces the end exactly if there is one. */
  lemma {:induction false} ShownLaw(msgs: seq<string>, k: nat)
    requires k <= |msgs| && (forall i :: 0 <= i < k ==> msgs[i] != DONE) && (k < |msgs| ==> msgs[k] == DONE)
    ensures Shown(msgs) == (msgs[..k], k < |msgs|)
  {
    if k > 0 {
      ShownLaw(msgs[1..], k - 1);
      assert msgs[..k] == [msgs[0]] + msgs[1..][..k - 1];
    }
  }
}
