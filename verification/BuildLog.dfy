/** internal/web/buildlog.go: a bounded log that clients poll with the last sequence number they saw. */
module BuildLog {

  const BUILD_LOG_MAX := 500

  datatype Line = Line(number: nat, text: string, stage: string)

  datatype Log = Log(lines: seq<Line>, count: nat)

  datatype Event = Output(text: string) | StageChange(stage: string) | Wipe

  /** The record an event adds to the full history, if any: empty output is dropped. */
  function Record(at: nat, e: Event): seq<Line> {
    match e
    case Output(text) => if text == "" then [] else [Line(at + 1, text, "")]
    case StageChange(stage) => [Line(at + 1, "", stage)]
    case Wipe => []
  }

  /** Everything ever recorded by the events, numbered from `at`. */
  function History(at: nat, events: seq<Event>): seq<Line>
    decreases |events|
  {
    if events == [] then []
    else var r := Record(at, events[0]); r + History(at + |r|, events[1..])
  }

  function Last(lines: seq<Line>, n: nat): seq<Line> {
    if |lines| > n then lines[|lines| - n..] else lines
  }

  /** Output lines keep the buffer at its bound; stage lines are added without trimming. */
  function After(log: Log, e: Event): Log {
    match e
    case Output(text) =>
      if text == "" then log
      else Log(Last(log.lines + [Line(log.count + 1, text, "")], BUILD_LOG_MAX), log.count + 1)
    case StageChange(stage) => Log(log.lines + [Line(log.count + 1, "", stage)], log.count + 1)
    case Wipe => log.(lines := [])
  }

  function Run(log: Log, events: seq<Event>): Log
    decreases |events|
  {
    if events == [] then log else Run(After(log, events[0]), events[1..])
  }

  /** The lines a poll returns. */
  function Since(lines: seq<Line>, after: int): seq<Line> {
    if lines == [] then []
    else (if lines[0].number > after then [lines[0]] else []) + Since(lines[1..], after)
  }

  /** Retained lines carry consecutive numbers that end at the log's own. */
  predicate Numbered(lines: seq<Line>, end: nat) {
    |lines| <= end && forall i | 0 <= i < |lines| :: lines[i].number == end - |lines| + 1 + i
  }

  predicate Valid(log: Log) {
    Numbered(log.lines, log.count)
  }

  predicate SuffixOf(s: seq<Line>, whole: seq<Line>) {
    |s| <= |whole| && s == whole[|whole| - |s|..]
  }

  class Buffer {
    var lines: seq<Line>
    var count: nat

    ghost function Value(): Log
      reads this
    {
      Log(lines, count)
    }

    constructor ()
      ensures Value() == Log([], 0)
    {
      lines, count := [], 0;
    }

    method Reset()
      modifies this
      ensures Value() == After(old(Value()), Wipe)
    {
      lines := [];
    }

    method Append(text: string)
      modifies this
      ensures Value() == After(old(Value()), Output(text))
    {
      if text == "" {
        return;
      }
      count := count + 1;
      lines := lines + [Line(count, text, "")];
      if |lines| > BUILD_LOG_MAX {
        lines := lines[|lines| - BUILD_LOG_MAX..];
      }
    }

    method Stage(stage: string)
      modifies this
      ensures Value() == After(old(Value()), StageChange(stage))
    {
      count := count + 1;
      lines := lines + [Line(count, "", stage)];
    }

    method Poll(after: int) returns (out: seq<Line>, latest: nat)
      ensures out == Since(lines, after) && latest == count
    {
      out := [];
      for i := 0 to |lines|
        invariant out + Since(lines[i..], after) == Since(lines, after)
      {
        if lines[i].number > after {
          out := out + [lines[i]];
        }
        assert lines[i..][1..] == lines[i + 1..];
      }
      latest := count;
    }
  }

  /** A poll returns exactly the tail of the retained lines that is newer than what the client has. */
  lemma {:induction false} SinceIsTail(lines: seq<Line>, end: nat, after: int)
    requires Numbered(lines, end)
    ensures Since(lines, after) == Last(lines, if after < end then end - after else 0)
  {
    if lines != [] {
      assert Numbered(lines[1..], end);
      SinceIsTail(lines[1..], end, after);
    }
  }

  lemma {:induction false} HistoryIsNumbered(at: nat, events: seq<Event>)
    ensures Numbered(History(at, events), at + |History(at, events)|)
    decreases |events|
  {
    if events != [] {
      var r := Record(at, events[0]);
      HistoryIsNumbered(at + |r|, events[1..]);
    }
  }

  /** One event keeps a tail of what was there followed by its own record. */
  lemma StepRefines(log: Log, e: Event)
    requires Valid(log)
    ensures Valid(After(log, e))
    ensures After(log, e).count == log.count + |Record(log.count, e)|
    ensures SuffixOf(After(log, e).lines, log.lines + Record(log.count, e))
  {
    IsOwnSuffix(log.lines);
    assert Numbered([], log.count) && SuffixOf([], log.lines + []);
    hide Numbered, SuffixOf, Last;
    match e
    case Output(text) =>
      if text != "" {
        PushRefines(log, Line(log.count + 1, text, ""));
      }
    case StageChange(stage) =>
      PushRefines(log, Line(log.count + 1, "", stage));
    case Wipe =>
  }

  lemma PushRefines(log: Log, line: Line)
    requires Valid(log) && line.number == log.count + 1
    ensures var whole := log.lines + [line];
      && Numbered(whole, log.count + 1) && SuffixOf(whole, whole)
      && Numbered(Last(whole, BUILD_LOG_MAX), log.count + 1) && SuffixOf(Last(whole, BUILD_LOG_MAX), whole)
  {
  }

  lemma SuffixSteps(a: seq<Line>, b: seq<Line>, rest: seq<Line>, c: seq<Line>)
    requires SuffixOf(a, b) && SuffixOf(c, a + rest)
    ensures SuffixOf(c, b + rest)
  {
    assert b + rest == b[..|b| - |a|] + (a + rest);
  }

  /** The log always holds a tail of what it held followed by everything recorded since. */
  lemma {:induction false} LogRefinesHistory(log: Log, events: seq<Event>)
    requires Valid(log)
    ensures Valid(Run(log, events))
    ensures Run(log, events).count == log.count + |History(log.count, events)|
    ensures SuffixOf(Run(log, events).lines, log.lines + History(log.count, events))
    decreases |events|
  {
    hide After, Record, Valid, SuffixOf;
    if events == [] {
      assert SuffixOf(log.lines, log.lines + []) by { IsOwnSuffix(log.lines); }
    } else {
      var next, r := After(log, events[0]), Record(log.count, events[0]);
      StepRefines(log, events[0]);
      LogRefinesHistory(next, events[1..]);
      var rest := History(next.count, events[1..]);
      SuffixSteps(next.lines, log.lines + r, rest, Run(log, events).lines);
      assert log.lines + History(log.count, events) == (log.lines + r) + rest;
    }
  }

  lemma IsOwnSuffix(s: seq<Line>)
    ensures SuffixOf(s, s + [])
  {
    assert s + [] == s;
  }

  /** Between two polls: the client is sent a tail of what was recorded in between, so nothing twice and nothing out
      of order; and it is sent all of it exactly when the log still holds that many lines. */
  lemma PollSendsTail(log: Log, events: seq<Event>)
    requires Valid(log)
    ensures var end := Run(log, events); var recorded := History(log.count, events);
      && SuffixOf(Since(end.lines, log.count), recorded)
      && (Since(end.lines, log.count) == recorded <==> |end.lines| >= |recorded|)
  {
    LogRefinesHistory(log, events);
    var end := Run(log, events);
    SinceIsTail(end.lines, end.count, log.count);
  }

  /** Without a reset the log holds the last 500 of the new records, or all of them. */
  lemma {:induction false} HoldsRecent(log: Log, events: seq<Event>)
    requires Valid(log) && Wipe !in events
    ensures |Run(log, events).lines| >= |History(log.count, events)| || |Run(log, events).lines| >= BUILD_LOG_MAX
    decreases |events|
  {
    HoldsAtLeast(log, events, 0);
  }

  lemma {:induction false} HoldsAtLeast(log: Log, events: seq<Event>, n: nat)
    requires Valid(log) && Wipe !in events
    requires |log.lines| >= n || |log.lines| >= BUILD_LOG_MAX
    ensures var k := n + |History(log.count, events)|;
      |Run(log, events).lines| >= k || |Run(log, events).lines| >= BUILD_LOG_MAX
    decreases |events|
  {
    if events != [] {
      var next := After(log, events[0]);
      var r := Record(log.count, events[0]);
      assert events[0] in events;
      HoldsAtLeast(next, events[1..], n + |r|);
    }
  }

  /** At most 500 records and no reset between two polls: nothing is lost. */
  lemma NothingLost(log: Log, events: seq<Event>)
    requires Valid(log) && Wipe !in events && |History(log.count, events)| <= BUILD_LOG_MAX
    ensures Since(Run(log, events).lines, log.count) == History(log.count, events)
  {
    HoldsRecent(log, events);
    PollSendsTail(log, events);
  }

  // ---------------------------------------------------------------- a client's whole session

  /** What a client that polls after each batch of events has received. */
  function Received(log: Log, batches: seq<seq<Event>>): seq<Line>
    decreases |batches|
  {
    if batches == [] then []
    else var end := Run(log, batches[0]); Since(end.lines, log.count) + Received(end, batches[1..])
  }

  function Flatten(batches: seq<seq<Event>>): seq<Event> {
    if batches == [] then [] else batches[0] + Flatten(batches[1..])
  }

  predicate Increasing(lines: seq<Line>) {
    forall i, j | 0 <= i < j < |lines| :: lines[i].number < lines[j].number
  }

  lemma {:induction false} HistoryAppends(at: nat, a: seq<Event>, b: seq<Event>)
    ensures History(at, a + b) == History(at, a) + History(at + |History(at, a)|, b)
    decreases |a|
  {
    if a == [] {
      assert a + b == b;
    } else {
      assert (a + b)[1..] == a[1..] + b;
      HistoryAppends(at + |Record(at, a[0])|, a[1..], b);
    }
  }

  /** Over a whole session, resets included, a client sees lines in strictly increasing order, each of them as it was
      recorded. */
  lemma {:induction false} SessionInOrder(log: Log, batches: seq<seq<Event>>)
    requires Valid(log)
    ensures Increasing(Received(log, batches))
    ensures forall l | l in Received(log, batches) :: l in History(log.count, Flatten(batches)) && l.number > log.count
    decreases |batches|
  {
    hide Run, Since, History, Valid, Last;
    if batches != [] {
      var end := Run(log, batches[0]);
      var recorded := History(log.count, batches[0]);
      LogRefinesHistory(log, batches[0]);
      PollSendsTail(log, batches[0]);
      HistoryIsNumbered(log.count, batches[0]);
      HistoryAppends(log.count, batches[0], Flatten(batches[1..]));
      SessionInOrder(end, batches[1..]);
      var sent := Since(end.lines, log.count);
      assert forall l | l in sent :: l in recorded && log.count < l.number <= end.count;
    }
  }

  predicate Brief(batch: seq<Event>) {
    Wipe !in batch && |batch| <= BUILD_LOG_MAX
  }

  /** When no batch resets the log or records more than 500 lines, the client has seen the full history. */
  lemma {:induction false} SessionComplete(log: Log, batches: seq<seq<Event>>)
    requires Valid(log)
    requires forall b | b in batches :: Brief(b)
    ensures Received(log, batches) == History(log.count, Flatten(batches))
    decreases |batches|
  {
    hide Run, Since, Valid, Brief;
    if batches == [] {
      assert Received(log, batches) == [] && Flatten(batches) == [];
    } else {
      hide History;
      var first, others := batches[0], batches[1..];
      var end := Run(log, first);
      assert Received(log, batches) == Since(end.lines, log.count) + Received(end, others);
      assert Flatten(batches) == first + Flatten(others);
      hide Received, Flatten;
      assert first in batches;
      BatchComplete(log, first);
      HistoryAppends(log.count, first, Flatten(others));
      SessionComplete(end, others);
    }
  }

  lemma BatchComplete(log: Log, batch: seq<Event>)
    requires Valid(log) && Brief(batch)
    ensures var end := Run(log, batch);
      Valid(end) && end.count == log.count + |History(log.count, batch)| &&
      Since(end.lines, log.count) == History(log.count, batch)
  {
    hide Run, Since, History, Valid;
    HistoryIsShort(log.count, batch);
    NothingLost(log, batch);
    LogRefinesHistory(log, batch);
  }

  lemma {:induction false} HistoryIsShort(at: nat, events: seq<Event>)
    ensures |History(at, events)| <= |events|
    decreases |events|
  {
    if events != [] {
      HistoryIsShort(at + |Record(at, events[0])|, events[1..]);
    }
  }
}
