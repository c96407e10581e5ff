/**
 * The byte-offset log follower of `src/recertia/api/event_follow.py` and the simple reader of
 * `src/recertia/api/events.py`.
 *
 * A log is a byte sequence that only grows. `Frames` says what a reader of the whole log should
 * see; the follower, the resume cursor and the id lookup are all proved against it.
 * `decode` stands for `json.loads` and `limit` for `MAX_LINE_BYTES`.
 */
module EventFollow {
  import opened Prelude

  newtype Byte = b: int | 0 <= b < 256

  const NEWLINE: Byte := 10
  const RETURN: Byte := 13

  datatype Event = Event(kind: string, eventId: Option<string>, body: string)

  datatype JsonValue = Object(event: Event) | Other(text: string)

  /** What one line holds: nothing but white space, no JSON text, or a JSON value. */
  datatype Decoded = Blank | NotJson | Json(value: JsonValue)

  type Decoder = seq<Byte> -> Decoded

  /** A delivered event; `id` is the SSE `id:`, the offset just past the event's line. */
  datatype Frame = Frame(id: nat, event: Event)

  predicate IsTerminal(e: Event) {
    e.kind == "run.finished" || e.kind == "run.cancelled"
  }

  /** `_parse_line`. */
  function ParseLine(decode: Decoder, line: seq<Byte>): Option<Event> {
    match decode(line)
    case Json(Object(e)) => Some(e)
    case _ => None
  }

  // ----- what a log says

  /** The first newline at or after `from`, or the end of the log. */
  function NextNewline(log: seq<Byte>, from: nat): (at: nat)
    requires from <= |log|
    ensures from <= at <= |log|
    ensures at < |log| ==> log[at] == NEWLINE
    ensures forall i :: from <= i < at ==> log[i] != NEWLINE
    decreases |log| - from
  {
    if from == |log| || log[from] == NEWLINE then from else NextNewline(log, from + 1)
  }

  function LineFrame(decode: Decoder, limit: nat, line: seq<Byte>, id: nat): Option<Frame> {
    if |line| > limit then None
    else match ParseLine(decode, line)
         case Some(e) => Some(Frame(id, e))
         case None => None
  }

  function Cons(first: Option<Frame>, rest: seq<Frame>): seq<Frame> {
    if first.Some? then [first.value] + rest else rest
  }

  /** `a + b`, without an empty operand. */
  function Then(a: seq<Frame>, b: seq<Frame>): (c: seq<Frame>) {
    if a == [] then b else if b == [] then a else a + b
  }

  lemma ThenAssociates(a: seq<Frame>, b: seq<Frame>, c: seq<Frame>)
    ensures Then(Then(a, b), c) == Then(a, Then(b, c))
  {
    if a != [] && b != [] && c != [] {
      assert (a + b) + c == a + (b + c);
    }
  }

  lemma ConsThen(first: Option<Frame>, b: seq<Frame>, c: seq<Frame>)
    ensures Then(Cons(first, b), c) == Cons(first, Then(b, c))
  {
    if first.Some? && b != [] && c != [] {
      assert ([first.value] + b) + c == [first.value] + (b + c);
    }
  }

  function Snoc(frames: seq<Frame>, last: Option<Frame>): seq<Frame> {
    if last.Some? then frames + [last.value] else frames
  }

  /** The events of the complete, in-limit lines of a log from a line start on. */
  function Frames(decode: Decoder, limit: nat, log: seq<Byte>, from: nat): seq<Frame>
    requires from <= |log|
    decreases |log| - from
  {
    var end := NextNewline(log, from);
    if end == |log| then []
    else Cons(LineFrame(decode, limit, log[from..end], end + 1), Frames(decode, limit, log, end + 1))
  }

  /** The first complete line, and the rest. */
  lemma FramesStep(decode: Decoder, limit: nat, log: seq<Byte>, from: nat) returns (first: Option<Frame>, next: nat)
    requires from <= |log| && NextNewline(log, from) < |log|
    ensures from < next <= |log| && next == NextNewline(log, from) + 1
    ensures Frames(decode, limit, log, from) == Cons(first, Frames(decode, limit, log, next))
    ensures first.Some? ==> first.value.id == next
  {
    next := NextNewline(log, from) + 1;
    first := LineFrame(decode, limit, log[from..next - 1], next);
  }

  ghost predicate IsLine(log: seq<Byte>, from: nat, start: nat, end: nat) {
    && from <= start <= end < |log|
    && (start == from || log[start - 1] == NEWLINE)
    && log[end] == NEWLINE
    && forall i :: start <= i < end ==> log[i] != NEWLINE
  }

  ghost predicate FramesLine(decode: Decoder, limit: nat, log: seq<Byte>, from: nat, start: nat, f: Frame) {
    && f.id > 0 && IsLine(log, from, start, f.id - 1)
    && f.id - 1 - start <= limit
    && ParseLine(decode, log[start..f.id - 1]) == Some(f.event)
  }

  lemma LineWidens(log: seq<Byte>, from: nat, mid: nat, start: nat, end: nat)
    requires from <= mid < |log| && log[mid] == NEWLINE && IsLine(log, mid + 1, start, end)
    ensures IsLine(log, from, start, end)
  {
  }

  lemma {:induction false} FrameHasLine(decode: Decoder, limit: nat, log: seq<Byte>, from: nat, f: Frame)
    returns (start: nat)
    requires from <= |log| && f in Frames(decode, limit, log, from)
    ensures FramesLine(decode, limit, log, from, start, f)
    decreases |log| - from
  {
    var end := NextNewline(log, from);
    var first, rest := LineFrame(decode, limit, log[from..end], end + 1), Frames(decode, limit, log, end + 1);
    if first == Some(f) {
      assert IsLine(log, from, from, end);
      start := from;
    } else {
      start := FrameHasLine(decode, limit, log, end + 1, f);
      LineWidens(log, from, end, start, f.id - 1);
    }
  }

  lemma {:induction false} LineHasFrame(decode: Decoder, limit: nat, log: seq<Byte>, from: nat, start: nat, f: Frame)
    requires from <= |log| && FramesLine(decode, limit, log, from, start, f)
    ensures f in Frames(decode, limit, log, from)
    decreases |log| - from
  {
    var end := NextNewline(log, from);
    if start == from {
      assert end == f.id - 1;
      assert LineFrame(decode, limit, log[from..end], end + 1) == Some(f);
    } else {
      assert end <= start - 1;
      assert FramesLine(decode, limit, log, end + 1, start, f);
      LineHasFrame(decode, limit, log, end + 1, start, f);
    }
  }

  /** `Frames` in full: one frame per parsable complete in-limit line, and nothing else. */
  lemma FramesAreLines(decode: Decoder, limit: nat, log: seq<Byte>, from: nat, f: Frame)
    requires from <= |log|
    ensures f in Frames(decode, limit, log, from) <==> exists start :: FramesLine(decode, limit, log, from, start, f)
  {
    if f in Frames(decode, limit, log, from) {
      var start := FrameHasLine(decode, limit, log, from, f);
    }
    forall start | FramesLine(decode, limit, log, from, start, f) ensures f in Frames(decode, limit, log, from) {
      LineHasFrame(decode, limit, log, from, start, f);
    }
  }

  ghost predicate Rising(s: seq<Frame>, from: nat, to: nat) {
    && (forall i :: 0 <= i < |s| ==> from < s[i].id <= to)
    && (forall i, j :: 0 <= i < j < |s| ==> s[i].id < s[j].id)
  }

  /** In order and once each: the ids strictly rise. */
  lemma {:induction false} FrameIdsRise(decode: Decoder, limit: nat, log: seq<Byte>, from: nat)
    requires from <= |log|
    ensures Rising(Frames(decode, limit, log, from), from, |log|)
    decreases |log| - from
  {
    if NextNewline(log, from) < |log| {
      var first, next := FramesStep(decode, limit, log, from);
      FrameIdsRise(decode, limit, log, next);
      RisingCons(first, Frames(decode, limit, log, next), from, next, |log|);
    }
  }

  lemma RisingCons(a: Option<Frame>, b: seq<Frame>, from: nat, mid: nat, until: nat)
    requires from < mid <= until && Rising(b, mid, until)
    requires a.Some? ==> a.value.id == mid
    ensures Rising(Cons(a, b), from, until)
  {
  }

  /** Appending to a log never changes where the lines already complete end. */
  lemma {:induction false} NewlineGrows(log: seq<Byte>, grown: seq<Byte>, from: nat)
    requires log <= grown && from <= |log|
    ensures NextNewline(log, from) < |log| ==> NextNewline(grown, from) == NextNewline(log, from)
    ensures NextNewline(log, from) == |log| ==> NextNewline(grown, from) == NextNewline(grown, |log|)
    decreases |log| - from
  {
    if from < |log| && log[from] != NEWLINE {
      NewlineGrows(log, grown, from + 1);
    }
  }

  /** With no newline between two positions, the next newline is the same from both. */
  lemma {:induction false} NewlineSkips(log: seq<Byte>, from: nat, past: nat)
    requires from <= past <= |log|
    requires forall i :: from <= i < past ==> log[i] != NEWLINE
    ensures NextNewline(log, from) == NextNewline(log, past)
    decreases past - from
  {
    if from < past {
      NewlineSkips(log, from + 1, past);
    }
  }

  /** The next newline is where the first one is. */
  lemma NewlineIs(log: seq<Byte>, from: nat, at: nat)
    requires from <= at < |log| && log[at] == NEWLINE
    requires forall i :: from <= i < at ==> log[i] != NEWLINE
    ensures NextNewline(log, from) == at
  {
  }

  // ----- the follower's pass

  datatype State = State(offset: nat, skipping: bool, lastTerminal: bool)

  /** `data.rfind(b"\n")` for `data == log[lo..hi]`, as a position in the log; `lo - 1` when there is none. */
  function LastNewline(log: seq<Byte>, lo: nat, hi: nat): (at: int)
    requires lo <= hi <= |log|
    ensures lo - 1 <= at < hi
    ensures at >= lo ==> log[at] == NEWLINE
    ensures forall i :: at < i < hi ==> log[i] != NEWLINE
  {
    if lo == hi then lo - 1
    else if log[hi - 1] == NEWLINE then hi - 1
    else LastNewline(log, lo, hi - 1)
  }

  function ConsumeLine(decode: Decoder, line: seq<Byte>, st: State): (State, Option<Frame>) {
    var offset := st.offset + |line| + 1;
    match ParseLine(decode, line)
    case None => (st.(offset := offset), None)
    case Some(e) => (st.(offset := offset, lastTerminal := IsTerminal(e)), Some(Frame(offset, e)))
  }

  /** The line loop of `_consume`, over the lines from `st.offset` to the newline at `end`. */
  function ConsumeLines(decode: Decoder, log: seq<Byte>, end: nat, st: State): (State, seq<Frame>)
    requires end < |log| && log[end] == NEWLINE && st.offset <= end + 1
    decreases end + 1 - st.offset
  {
    if st.offset > end then (st, [])
    else
      var next := NextNewline(log, st.offset);
      var (after, frame) := ConsumeLine(decode, log[st.offset..next], st);
      var (last, more) := ConsumeLines(decode, log, end, after);
      (last, Cons(frame, more))
  }

  /** `EventFollower._consume` on the window `log[st.offset..hi]`. */
  function Consume(decode: Decoder, limit: nat, log: seq<Byte>, hi: nat, st: State): (State, seq<Frame>)
    requires st.offset <= hi <= |log|
  {
    if st.skipping then
      var newline := NextNewline(log, st.offset);
      if newline >= hi then (st.(offset := hi), []) else (st.(offset := newline + 1, skipping := false), [])
    else
      var end := LastNewline(log, st.offset, hi);
      if end >= st.offset then ConsumeLines(decode, log, end, st)
      else if hi - st.offset > limit then (st.(offset := hi, skipping := true), [])
      else (st, [])
  }

  /** Where the window of one pass ends: at most `limit + 1` bytes on. */
  function WindowEnd(log: seq<Byte>, limit: nat, offset: nat): nat {
    Min(offset + limit + 1, |log|)
  }

  /** What a follower still has to deliver from a log. */
  function Remaining(decode: Decoder, limit: nat, log: seq<Byte>, st: State): seq<Frame>
    requires st.offset <= |log|
  {
    if st.skipping then
      var end := NextNewline(log, st.offset);
      if end == |log| then [] else Frames(decode, limit, log, end + 1)
    else Frames(decode, limit, log, st.offset)
  }

  /** `_last_terminal` always tells whether the last frame emitted was terminal. */
  predicate TracksTerminal(before: State, frames: seq<Frame>, after: State) {
    after.lastTerminal == if frames == [] then before.lastTerminal else IsTerminal(frames[|frames| - 1].event)
  }

  lemma LineDelivers(decode: Decoder, limit: nat, log: seq<Byte>, st: State)
    requires st.offset <= |log|
    requires var next := NextNewline(log, st.offset); next < |log| && next - st.offset <= limit
    ensures var next := NextNewline(log, st.offset);
            var (after, frame) := ConsumeLine(decode, log[st.offset..next], st);
            && after.offset == next + 1 && after.skipping == st.skipping
            && Frames(decode, limit, log, st.offset) == Cons(frame, Frames(decode, limit, log, next + 1))
            && after.lastTerminal == if frame.None? then st.lastTerminal else IsTerminal(frame.value.event)
  {
  }

  lemma TerminalCons(a: State, f: Option<Frame>, b: State, g: seq<Frame>, c: State)
    requires b.lastTerminal == if f.None? then a.lastTerminal else IsTerminal(f.value.event)
    requires TracksTerminal(b, g, c)
    ensures TracksTerminal(a, Cons(f, g), c)
  {
  }

  lemma TerminalComposes(a: State, f: seq<Frame>, b: State, g: seq<Frame>, c: State)
    requires TracksTerminal(a, f, b) && TracksTerminal(b, g, c)
    ensures TracksTerminal(a, Then(f, g), c)
  {
  }

  /** Complete lines inside the window are the next lines of the log. */
  lemma {:induction false} LinesDeliver(decode: Decoder, limit: nat, log: seq<Byte>, end: nat, st: State)
    requires end < |log| && log[end] == NEWLINE && st.offset <= end + 1
    requires end - st.offset <= limit
    ensures var (after, frames) := ConsumeLines(decode, log, end, st);
            && after.offset == end + 1 && after.skipping == st.skipping
            && Frames(decode, limit, log, st.offset) == Then(frames, Frames(decode, limit, log, end + 1))
            && TracksTerminal(st, frames, after)
    decreases end + 1 - st.offset
  {
    if st.offset <= end {
      var after, frame := LineStep(decode, limit, log, end, st);
      LinesDeliver(decode, limit, log, end, after);
      var (last, more) := ConsumeLines(decode, log, end, after);
      ConsThen(frame, more, Frames(decode, limit, log, end + 1));
      TerminalCons(st, frame, after, more, last);
    } else {
      ConsumeNothing(decode, log, end, st);
    }
  }

  /** One line, as the loop consumes it and as the log frames it. */
  lemma LineStep(decode: Decoder, limit: nat, log: seq<Byte>, end: nat, st: State) returns (after: State, frame: Option<Frame>)
    requires end < |log| && log[end] == NEWLINE && st.offset <= end && end - st.offset <= limit
    ensures st.offset < after.offset <= end + 1 && after.skipping == st.skipping
    ensures Frames(decode, limit, log, st.offset) == Cons(frame, Frames(decode, limit, log, after.offset))
    ensures ConsumeLines(decode, log, end, st)
         == (ConsumeLines(decode, log, end, after).0, Cons(frame, ConsumeLines(decode, log, end, after).1))
    ensures after.lastTerminal == if frame.None? then st.lastTerminal else IsTerminal(frame.value.event)
  {
    LineDelivers(decode, limit, log, st);
    ConsumeStep(decode, log, end, st);
    var line := ConsumeLine(decode, log[st.offset..NextNewline(log, st.offset)], st);
    after, frame := line.0, line.1;
  }

  lemma ConsumeStep(decode: Decoder, log: seq<Byte>, end: nat, st: State)
    requires end < |log| && log[end] == NEWLINE && st.offset <= end
    ensures var next := NextNewline(log, st.offset);
            var (after, frame) := ConsumeLine(decode, log[st.offset..next], st);
            && after.offset == next + 1 <= end + 1
            && ConsumeLines(decode, log, end, st)
               == (ConsumeLines(decode, log, end, after).0, Cons(frame, ConsumeLines(decode, log, end, after).1))
  {
  }

  lemma ConsumeNothing(decode: Decoder, log: seq<Byte>, end: nat, st: State)
    requires end < |log| && log[end] == NEWLINE && st.offset == end + 1
    ensures ConsumeLines(decode, log, end, st) == (st, [])
  {
  }

  /** What was still to be delivered is what the pass delivered, then what is still to be delivered. */
  ghost predicate Delivers(decode: Decoder, limit: nat, log: seq<Byte>, hi: nat, st: State)
    requires st.offset <= hi <= |log|
  {
    var (after, frames) := Consume(decode, limit, log, hi, st);
    && st.offset <= after.offset <= hi
    && Remaining(decode, limit, log, st) == Then(frames, Remaining(decode, limit, log, after))
    && TracksTerminal(st, frames, after)
  }

  /** Skipping through a window delivers nothing and loses nothing. */
  lemma SkipDelivers(decode: Decoder, limit: nat, log: seq<Byte>, hi: nat, st: State)
    requires st.offset <= hi <= |log| && st.skipping
    ensures Delivers(decode, limit, log, hi, st)
  {
    if NextNewline(log, st.offset) >= hi {
      NewlineSkips(log, st.offset, hi);
    }
  }

  /** A line with more than `limit` bytes before its newline is not delivered. */
  lemma OverLongLine(decode: Decoder, limit: nat, log: seq<Byte>, from: nat)
    requires from <= |log| && NextNewline(log, from) - from > limit
    ensures var end := NextNewline(log, from);
            Frames(decode, limit, log, from) == if end == |log| then [] else Frames(decode, limit, log, end + 1)
  {
    var end := NextNewline(log, from);
    if end < |log| {
      assert LineFrame(decode, limit, log[from..end], end + 1) == None;
    }
  }

  /** Inside an over-long line there is as much to deliver as at its start. */
  lemma StartSkipping(decode: Decoder, limit: nat, log: seq<Byte>, from: nat, hi: nat, last: bool)
    requires from <= hi <= |log| && hi - from > limit
    requires forall i :: from <= i < hi ==> log[i] != NEWLINE
    ensures Remaining(decode, limit, log, State(hi, true, last)) == Frames(decode, limit, log, from)
  {
    NewlineSkips(log, from, hi);
    OverLongLine(decode, limit, log, from);
  }

  /** A window of one unfinished line either waits or starts to skip an over-long line. */
  lemma PartialDelivers(decode: Decoder, limit: nat, log: seq<Byte>, hi: nat, st: State)
    requires st.offset <= hi <= |log| && !st.skipping && LastNewline(log, st.offset, hi) < st.offset
    ensures Delivers(decode, limit, log, hi, st)
  {
    if hi - st.offset > limit {
      StartSkipping(decode, limit, log, st.offset, hi, st.lastTerminal);
    }
  }

  lemma WholeLinesDeliver(decode: Decoder, limit: nat, log: seq<Byte>, hi: nat, st: State)
    requires st.offset <= hi <= |log| && hi <= st.offset + limit + 1
    requires !st.skipping && LastNewline(log, st.offset, hi) >= st.offset
    ensures Delivers(decode, limit, log, hi, st)
  {
    LinesDeliver(decode, limit, log, LastNewline(log, st.offset, hi), st);
  }

  /**
   * One pass over a window, judged against the whole log: what was still to be delivered is what
   * the pass delivered, followed by what is still to be delivered. The window may stop anywhere.
   */
  lemma ConsumeDelivers(decode: Decoder, limit: nat, log: seq<Byte>, hi: nat, st: State)
    requires st.offset <= hi <= |log| && hi <= st.offset + limit + 1
    ensures Delivers(decode, limit, log, hi, st)
  {
    if st.skipping {
      SkipDelivers(decode, limit, log, hi, st);
    } else if LastNewline(log, st.offset, hi) < st.offset {
      PartialDelivers(decode, limit, log, hi, st);
    } else {
      WholeLinesDeliver(decode, limit, log, hi, st);
    }
  }

  /** A pass reads only its window: the rest of the log, and later growth, cannot change it. */
  lemma {:induction false} LinesGrow(decode: Decoder, log: seq<Byte>, grown: seq<Byte>, end: nat, st: State)
    requires log <= grown && end < |log| && log[end] == NEWLINE && st.offset <= end + 1
    ensures ConsumeLines(decode, log, end, st) == ConsumeLines(decode, grown, end, st)
    decreases end + 1 - st.offset
  {
    if st.offset <= end {
      var next := NextNewline(log, st.offset);
      NewlineGrows(log, grown, st.offset);
      assert log[st.offset..next] == grown[st.offset..next];
      LinesGrow(decode, log, grown, end, ConsumeLine(decode, log[st.offset..next], st).0);
    }
  }

  lemma {:induction false} LastNewlineGrows(log: seq<Byte>, grown: seq<Byte>, lo: nat, hi: nat)
    requires log <= grown && lo <= hi <= |log|
    ensures LastNewline(log, lo, hi) == LastNewline(grown, lo, hi)
    decreases hi
  {
    if lo < hi && log[hi - 1] != NEWLINE {
      LastNewlineGrows(log, grown, lo, hi - 1);
    }
  }

  lemma ConsumeGrows(decode: Decoder, limit: nat, log: seq<Byte>, grown: seq<Byte>, hi: nat, st: State)
    requires log <= grown && st.offset <= hi <= |log|
    ensures Consume(decode, limit, log, hi, st) == Consume(decode, limit, grown, hi, st)
  {
    NewlineGrows(log, grown, st.offset);
    LastNewlineGrows(log, grown, st.offset, hi);
    var end := LastNewline(log, st.offset, hi);
    if !st.skipping && end >= st.offset {
      LinesGrow(decode, log, grown, end, st);
    }
  }

  /** One pass of `EventFollower.poll` over the log as it was when it was read. */
  function PollStep(decode: Decoder, limit: nat, log: seq<Byte>, st: State): (State, seq<Frame>)
    requires st.offset <= |log|
  {
    Consume(decode, limit, log, WindowEnd(log, limit, st.offset), st)
  }

  lemma PollDelivers(decode: Decoder, limit: nat, log: seq<Byte>, grown: seq<Byte>, st: State)
    requires log <= grown && st.offset <= |log|
    ensures var (after, frames) := PollStep(decode, limit, log, st);
            && st.offset <= after.offset <= |log|
            && Remaining(decode, limit, grown, st) == Then(frames, Remaining(decode, limit, grown, after))
            && TracksTerminal(st, frames, after)
  {
    var hi := WindowEnd(log, limit, st.offset);
    ConsumeGrows(decode, limit, log, grown, hi, st);
    ConsumeDelivers(decode, limit, grown, hi, st);
  }

  // ----- whole runs

  /** The log as each pass of a run found it: it only grows. */
  ghost predicate Growing(logs: seq<seq<Byte>>) {
    forall i, j :: 0 <= i <= j < |logs| ==> logs[i] <= logs[j]
  }

  lemma GrowingTail(logs: seq<seq<Byte>>)
    requires Growing(logs) && logs != []
    ensures Growing(logs[1..])
    ensures forall log :: log in logs[1..] ==> logs[0] <= log
  {
    forall log | log in logs[1..] ensures logs[0] <= log {
      var i :| 0 <= i < |logs| - 1 && logs[1..][i] == log;
      assert logs[i + 1] == log;
    }
  }

  /** A run of passes from `st`: the state reached and every frame emitted. */
  ghost function RunPolls(decode: Decoder, limit: nat, logs: seq<seq<Byte>>, st: State): (out: (State, seq<Frame>))
    requires Growing(logs)
    requires forall log :: log in logs ==> st.offset <= |log|
    decreases |logs|
  {
    if logs == [] then (st, [])
    else
      PollDelivers(decode, limit, logs[0], logs[0], st);
      GrowingTail(logs);
      var (after, frames) := PollStep(decode, limit, logs[0], st);
      var (last, more) := RunPolls(decode, limit, logs[1..], after);
      (last, Then(frames, more))
  }

  /**
   * Every growth of the log and every schedule of passes: what the passes emitted, followed by
   * what the follower still has to deliver, is what there was to deliver at the start.
   */
  lemma {:induction false} RunDelivers(decode: Decoder, limit: nat, logs: seq<seq<Byte>>, st: State, grown: seq<Byte>)
    requires Growing(logs) && st.offset <= |grown|
    requires forall log :: log in logs ==> st.offset <= |log| && log <= grown
    ensures var (after, frames) := RunPolls(decode, limit, logs, st);
            && after.offset <= |grown|
            && Remaining(decode, limit, grown, st) == Then(frames, Remaining(decode, limit, grown, after))
            && TracksTerminal(st, frames, after)
    decreases |logs|
  {
    if logs != [] {
      assert logs[0] in logs;
      PollDelivers(decode, limit, logs[0], grown, st);
      GrowingTail(logs);
      var (after, frames) := PollStep(decode, limit, logs[0], st);
      RunDelivers(decode, limit, logs[1..], after, grown);
      var (last, more) := RunPolls(decode, limit, logs[1..], after);
      ThenAssociates(frames, more, Remaining(decode, limit, grown, last));
      TerminalComposes(st, frames, after, more, last);
    }
  }

  /**
   * A new follower emits a prefix of the frames of the log, whatever it grew into: no event is
   * lost, repeated, reordered or invented by partial writes, window edges or over-long lines.
   */
  lemma FollowsTheLog(decode: Decoder, limit: nat, logs: seq<seq<Byte>>, grown: seq<Byte>)
    requires Growing(logs) && forall log :: log in logs ==> log <= grown
    ensures Start(decode, limit, grown, 0) == State(0, false, false)
    ensures RunPolls(decode, limit, logs, Start(decode, limit, grown, 0)).1 <= Frames(decode, limit, grown, 0)
  {
    RunDelivers(decode, limit, logs, Start(decode, limit, grown, 0), grown);
  }

  /** `poll`'s third result when the log has `size` bytes at the end of the pass. */
  predicate More(size: nat, before: State, after: State) {
    after.offset != before.offset && after.offset < size
  }

  /** A pass asks for another one only after it moved on, and with bytes left to read. */
  lemma MoreMeansUnread(decode: Decoder, limit: nat, log: seq<Byte>, st: State)
    requires st.offset <= |log|
    ensures var after := PollStep(decode, limit, log, st).0;
            More(|log|, st, after) ==> st.offset < after.offset && log[after.offset..] != []
  {
    PollDelivers(decode, limit, log, log, st);
  }

  /** When `more` is false on a still log, no complete line is left unread. */
  lemma NoMoreMeansCaughtUp(decode: Decoder, limit: nat, log: seq<Byte>, st: State)
    requires st.offset <= |log|
    requires !More(|log|, st, PollStep(decode, limit, log, st).0)
    ensures var after := PollStep(decode, limit, log, st).0;
            && after.offset <= |log| && NextNewline(log, after.offset) == |log|
            && Remaining(decode, limit, log, after) == []
  {
    var hi := WindowEnd(log, limit, st.offset);
    var after := PollStep(decode, limit, log, st).0;
    ConsumeDelivers(decode, limit, log, hi, st);
    if after.offset < |log| {
      var end := LastNewline(log, st.offset, hi);
      if !st.skipping && end >= st.offset {
        LinesDeliver(decode, limit, log, end, st);
      }
      assert hi == |log| && end < st.offset;
      NewlineSkips(log, st.offset, |log|);
    }
  }

  // ----- resuming

  /** `_previous_event_is_terminal`. */
  function PreviousIsTerminal(decode: Decoder, limit: nat, log: seq<Byte>, offset: nat): bool
    requires offset <= |log|
  {
    var start := Max(0, offset - limit - 1);
    var line := if start < offset && log[offset - 1] == NEWLINE
                then log[LastNewline(log, start, offset - 1) + 1..offset - 1] else [];
    match ParseLine(decode, line)
    case Some(e) => IsTerminal(e)
    case None => false
  }

  /** The state of a new `EventFollower(path, offset)`. */
  function Start(decode: Decoder, limit: nat, log: seq<Byte>, offset: nat): State
    requires offset <= |log|
  {
    State(offset, false, offset > 0 && PreviousIsTerminal(decode, limit, log, offset))
  }

  lemma {:induction false} LastNewlineIs(log: seq<Byte>, lo: nat, hi: nat, at: int)
    requires lo <= hi <= |log| && lo - 1 <= at < hi
    requires at >= lo ==> log[at] == NEWLINE
    requires forall i :: at < i < hi ==> log[i] != NEWLINE
    ensures LastNewline(log, lo, hi) == at
    decreases hi
  {
    if at < hi - 1 { LastNewlineIs(log, lo, hi - 1, at); }
  }

  /** The line just before an offset is the one whose event decides `Start`. */
  lemma StartAfterLine(decode: Decoder, limit: nat, log: seq<Byte>, from: nat, end: nat)
    requires from <= end < |log| && log[end] == NEWLINE && end - from <= limit
    requires from == 0 || log[from - 1] == NEWLINE
    requires forall i :: from <= i < end ==> log[i] != NEWLINE
    requires ParseLine(decode, log[from..end]).Some?
    ensures Start(decode, limit, log, end + 1)
            == State(end + 1, false, IsTerminal(ParseLine(decode, log[from..end]).value))
  {
    LastNewlineIs(log, Max(0, end - limit), end, from - 1);
  }

  /** In the middle of a line no event came before, so the run is not known to be over. */
  lemma StartInsideLine(decode: Decoder, limit: nat, log: seq<Byte>, offset: nat)
    requires 0 < offset <= |log| && log[offset - 1] != NEWLINE && decode([]) == Blank
    ensures Start(decode, limit, log, offset) == State(offset, false, false)
  {
  }

  lemma ConsDrop(first: Option<Frame>, rest: seq<Frame>, k: nat)
    requires k < |Cons(first, rest)|
    ensures var skipped := if first.Some? then 1 else 0;
            if k < skipped then Cons(first, rest)[k] == first.value && Cons(first, rest)[k + 1..] == rest
            else Cons(first, rest)[k] == rest[k - skipped] && Cons(first, rest)[k + 1..] == rest[k - skipped + 1..]
  {
    if first.Some? {
      assert ([first.value] + rest)[k + 1..] == rest[k..];
      assert rest[0..] == rest;
    }
  }

  /** The frames after a frame are the frames from its id on. */
  lemma {:induction false} FramesAfter(decode: Decoder, limit: nat, log: seq<Byte>, from: nat, k: nat)
    requires from <= |log| && k < |Frames(decode, limit, log, from)|
    ensures var f := Frames(decode, limit, log, from)[k];
            f.id <= |log| && Frames(decode, limit, log, from)[k + 1..] == Frames(decode, limit, log, f.id)
    decreases |log| - from
  {
    var first, next := FramesStep(decode, limit, log, from);
    ConsDrop(first, Frames(decode, limit, log, next), k);
    var skipped := if first.Some? then 1 else 0;
    if k >= skipped {
      FramesAfter(decode, limit, log, next, k - skipped);
    }
  }

  /**
   * Resuming at the id of an emitted frame: the new follower starts in the state the frame left
   * behind, and has exactly the later frames to deliver.
   */
  lemma ResumeAtFrame(decode: Decoder, limit: nat, log: seq<Byte>, k: nat)
    requires k < |Frames(decode, limit, log, 0)|
    ensures var f := Frames(decode, limit, log, 0)[k];
            && f.id <= |log|
            && Start(decode, limit, log, f.id) == State(f.id, false, IsTerminal(f.event))
            && Remaining(decode, limit, log, Start(decode, limit, log, f.id)) == Frames(decode, limit, log, 0)[k + 1..]
  {
    var f := Frames(decode, limit, log, 0)[k];
    FramesAfter(decode, limit, log, 0, k);
    var start := FrameHasLine(decode, limit, log, 0, f);
    StartAfterLine(decode, limit, log, start, f.id - 1);
  }

  /** `check_offset`: the offset must lie inside the log, at its start or just past a newline. */
  function CheckOffset(log: seq<Byte>, offset: nat): Result<nat, InvalidOffset> {
    if offset > |log| then Err(BeyondEnd)
    else if offset == 0 then Ok(offset)
    else if log[offset - 1] != NEWLINE then Err(NotAnEventEnd)
    else Ok(offset)
  }

  datatype InvalidOffset = BeyondEnd | NotAnEventEnd

  /** The start of every log is accepted, and the end of each of its lines; no other offset is. */
  lemma OffsetAcceptedIff(log: seq<Byte>, offset: nat)
    ensures CheckOffset(log, 0) == Ok(0)
    ensures CheckOffset(log, offset) == Ok(offset) <==> offset == 0 || (offset <= |log| && log[offset - 1] == NEWLINE)
    ensures CheckOffset(log, offset) == Err(BeyondEnd) <==> offset > |log|
    ensures CheckOffset(log, offset).Ok? ==> CheckOffset(log, offset).value == offset
  {
  }

  /** Every id a follower hands out is accepted back, on the log as it is then or later. */
  lemma EmittedIdsAccepted(decode: Decoder, limit: nat, log: seq<Byte>, grown: seq<Byte>, f: Frame)
    requires log <= grown && f in Frames(decode, limit, log, 0)
    ensures CheckOffset(grown, f.id) == Ok(f.id)
    ensures f in Frames(decode, limit, grown, 0)
  {
    var start := FrameHasLine(decode, limit, log, 0, f);
    assert log[start..f.id - 1] == grown[start..f.id - 1];
    LineHasFrame(decode, limit, grown, 0, start, f);
  }

  /**
   * The converse fails, although the follower's documentation promises it: an accepted offset is
   * the end of a delivered event iff the line before it is in-limit and parses.
   */
  lemma AcceptedIsEventEnd(decode: Decoder, limit: nat, log: seq<Byte>, offset: nat)
    requires CheckOffset(log, offset).Ok? && offset > 0
    ensures var line := log[LastNewline(log, 0, offset - 1) + 1..offset - 1];
            (exists f :: f in Frames(decode, limit, log, 0) && f.id == offset)
            <==> |line| <= limit && ParseLine(decode, line).Some?
  {
    var start := LastNewline(log, 0, offset - 1) + 1;
    var line := log[start..offset - 1];
    if |line| <= limit && ParseLine(decode, line).Some? {
      var f := Frame(offset, ParseLine(decode, line).value);
      LineHasFrame(decode, limit, log, 0, start, f);
    }
    forall f | f in Frames(decode, limit, log, 0) && f.id == offset
      ensures |line| <= limit && ParseLine(decode, line).Some?
    {
      var s := FrameHasLine(decode, limit, log, 0, f);
      LastNewlineIs(log, 0, offset - 1, s as int - 1);
    }
  }

  /** A blank line is accepted as a resume point and ends no event. */
  lemma BlankLineAccepted(decode: Decoder, limit: nat)
    requires decode([]) == Blank
    ensures CheckOffset([NEWLINE], 1) == Ok(1)
    ensures forall f :: f in Frames(decode, limit, [NEWLINE], 0) ==> f.id != 1
  {
    var log := [NEWLINE];
    assert log[0..0] == [];
    assert Frames(decode, limit, log, 1) == [];
  }

  // ----- looking an event id up

  /** The id of the first frame that carries an event id. */
  function FirstWithId(frames: seq<Frame>, eventId: string): Option<nat> {
    if frames == [] then None
    else if frames[0].event.eventId == Some(eventId) then Some(frames[0].id)
    else FirstWithId(frames[1..], eventId)
  }

  /** Where `readline(limit + 1)` from `pos` stops. */
  function ReadLineEnd(log: seq<Byte>, limit: nat, pos: nat): (end: nat)
    requires pos <= |log|
    ensures pos <= end <= |log|
  {
    Min(Min(NextNewline(log, pos) + 1, |log|), pos + limit + 1)
  }

  lemma ReadLineIs(log: seq<Byte>, limit: nat, pos: nat)
    requires pos < |log|
    ensures var end := ReadLineEnd(log, limit, pos);
            && pos < end
            && (log[end - 1] == NEWLINE ==> NextNewline(log, pos) == end - 1 && end - 1 - pos <= limit)
            && (log[end - 1] != NEWLINE ==> forall i :: pos <= i < end ==> log[i] != NEWLINE)
            && (log[end - 1] != NEWLINE && end - pos <= limit ==> end == |log|)
  {
  }

  lemma FirstSkips(decode: Decoder, limit: nat, log: seq<Byte>, pos: nat, eventId: string)
    requires pos <= |log| && NextNewline(log, pos) < |log| && NextNewline(log, pos) - pos <= limit
    ensures var end := NextNewline(log, pos);
            var event := ParseLine(decode, log[pos..end]);
            FirstWithId(Frames(decode, limit, log, pos), eventId)
            == if event.Some? && event.value.eventId == Some(eventId) then Some(end + 1)
               else FirstWithId(Frames(decode, limit, log, end + 1), eventId)
  {
    var end := NextNewline(log, pos);
    var first, rest := LineFrame(decode, limit, log[pos..end], end + 1), Frames(decode, limit, log, end + 1);
    assert first.Some? ==> Cons(first, rest)[1..] == rest;
  }

  /** What the id lookup still has to search from a position. */
  function Searched(decode: Decoder, limit: nat, log: seq<Byte>, pos: nat, oversize: bool, eventId: string): Option<nat>
    requires pos <= |log|
  {
    FirstWithId(Remaining(decode, limit, log, State(pos, oversize, false)), eventId)
  }

  /** Reading on inside an over-long line, or into one, skips no event. */
  lemma SearchSkips(decode: Decoder, limit: nat, log: seq<Byte>, pos: nat, oversize: bool, eventId: string)
    requires pos < |log|
    requires var end := ReadLineEnd(log, limit, pos);
             oversize || (log[end - 1] != NEWLINE && end - pos > limit)
    ensures var end := ReadLineEnd(log, limit, pos);
            Searched(decode, limit, log, pos, oversize, eventId)
            == Searched(decode, limit, log, end, log[end - 1] != NEWLINE, eventId)
  {
    var end := ReadLineEnd(log, limit, pos);
    ReadLineIs(log, limit, pos);
    if !oversize {
      StartSkipping(decode, limit, log, pos, end, false);
    } else if log[end - 1] != NEWLINE {
      NewlineSkips(log, pos, end);
    }
  }

  /** A last line still being written holds no event. */
  lemma SearchEnds(decode: Decoder, limit: nat, log: seq<Byte>, pos: nat, oversize: bool, eventId: string)
    requires pos <= |log| && forall i :: pos <= i < |log| ==> log[i] != NEWLINE
    ensures Searched(decode, limit, log, pos, oversize, eventId) == None
  {
    NewlineSkips(log, pos, |log|);
  }

  /** A complete in-limit line either is the event, or is passed over. */
  lemma SearchLine(decode: Decoder, limit: nat, log: seq<Byte>, pos: nat, eventId: string)
    requires forall line {:trigger decode(line + [NEWLINE])} :: decode(line + [NEWLINE]) == decode(line)
    requires pos < |log| && log[ReadLineEnd(log, limit, pos) - 1] == NEWLINE
    ensures var end := ReadLineEnd(log, limit, pos);
            var event := ParseLine(decode, log[pos..end]);
            Searched(decode, limit, log, pos, false, eventId)
            == if event.Some? && event.value.eventId == Some(eventId) then Some(end)
               else Searched(decode, limit, log, end, false, eventId)
  {
    ReadLineIs(log, limit, pos);
    FirstSkips(decode, limit, log, pos, eventId);
    var end := ReadLineEnd(log, limit, pos);
    assert log[pos..end - 1] + [NEWLINE] == log[pos..end];
  }

  /** Whether the line that `readline` found from `pos` carries the event id. */
  method LineCarries(decode: Decoder, limit: nat, log: seq<Byte>, pos: nat, eventId: string) returns (hit: bool)
    requires forall line {:trigger decode(line + [NEWLINE])} :: decode(line + [NEWLINE]) == decode(line)
    requires pos < |log| && log[ReadLineEnd(log, limit, pos) - 1] == NEWLINE
    ensures var end := ReadLineEnd(log, limit, pos);
            Searched(decode, limit, log, pos, false, eventId)
            == if hit then Some(end) else Searched(decode, limit, log, end, false, eventId)
  {
    SearchLine(decode, limit, log, pos, eventId);
    var event := ParseLine(decode, log[pos..ReadLineEnd(log, limit, pos)]);
    hit := event.Some? && event.value.eventId == Some(eventId);
  }

  /**
   * `offset_after_event_id`: its own chunked loop, with its own oversize flag, finds the id of the
   * first frame a follower would emit for that event. A decoder does not see a trailing newline.
   */
  method OffsetAfterEventId(decode: Decoder, limit: nat, log: seq<Byte>, eventId: string) returns (found: Option<nat>)
    requires forall line {:trigger decode(line + [NEWLINE])} :: decode(line + [NEWLINE]) == decode(line)
    ensures found == FirstWithId(Frames(decode, limit, log, 0), eventId)
  {
    var pos := 0;
    var oversize := false;
    ghost var wanted := Searched(decode, limit, log, 0, false, eventId);
    while true
      invariant pos <= |log|
      invariant wanted == Searched(decode, limit, log, pos, oversize, eventId)
      decreases |log| - pos
    {
      var start := pos;
      pos := ReadLineEnd(log, limit, start);
      if pos == start {
        SearchEnds(decode, limit, log, pos, oversize, eventId);
        return None;
      }
      ReadLineIs(log, limit, start);
      var complete := log[pos - 1] == NEWLINE;
      if oversize {
        SearchSkips(decode, limit, log, start, oversize, eventId);
        oversize := !complete;
      } else if !complete {
        if pos - start <= limit {
          SearchEnds(decode, limit, log, start, oversize, eventId);
          return None;
        }
        SearchSkips(decode, limit, log, start, oversize, eventId);
        oversize := true;
      } else {
        var hit := LineCarries(decode, limit, log, start, eventId);
        if hit { return Some(pos); }
      }
    }
  }

  // ----- the follower object

  lemma AppendFrame(frames: seq<Frame>, f: Option<Frame>, more: seq<Frame>)
    ensures Then(frames, Cons(f, more)) == Then(Snoc(frames, f), more)
  {
    if f.Some? && frames != [] && more != [] {
      assert frames + ([f.value] + more) == (frames + [f.value]) + more;
    }
  }

  class EventFollower {
    const decode: Decoder
    const limit: nat
    var offset: nat
    var skipping: bool
    var lastTerminal: bool

    ghost function View(): State
      reads this
    {
      State(offset, skipping, lastTerminal)
    }

    constructor (decode: Decoder, limit: nat, log: seq<Byte>, offset: nat)
      requires offset <= |log|
      ensures View() == Start(decode, limit, log, offset)
      ensures this.decode == decode && this.limit == limit
    {
      this.decode, this.limit := decode, limit;
      this.offset, this.skipping := offset, false;
      this.lastTerminal := offset > 0 && PreviousIsTerminal(decode, limit, log, offset);
    }

    /** One line of the loop of `_consume`. */
    method ConsumeOne(log: seq<Byte>, end: nat) returns (frame: Option<Frame>)
      requires offset <= end < |log| && log[end] == NEWLINE
      modifies this
      ensures old(offset) < offset <= end + 1
      ensures ConsumeLines(decode, log, end, old(View()))
           == (ConsumeLines(decode, log, end, View()).0, Cons(frame, ConsumeLines(decode, log, end, View()).1))
    {
      ConsumeStep(decode, log, end, View());
      var next := NextNewline(log, offset);
      var event := ParseLine(decode, log[offset..next]);
      offset := next + 1;
      if event.None? { return None; }
      lastTerminal := IsTerminal(event.value);
      frame := Some(Frame(offset, event.value));
    }

    /** The line loop of `_consume`. */
    method ConsumeWholeLines(log: seq<Byte>, end: nat) returns (frames: seq<Frame>)
      requires offset <= end < |log| && log[end] == NEWLINE
      modifies this
      ensures (View(), frames) == ConsumeLines(decode, log, end, old(View()))
    {
      frames := [];
      ghost var all := ConsumeLines(decode, log, end, View());
      while offset <= end
        invariant offset <= end + 1
        invariant all == (ConsumeLines(decode, log, end, View()).0, Then(frames, ConsumeLines(decode, log, end, View()).1))
        decreases end + 1 - offset
      {
        var frame := ConsumeOne(log, end);
        AppendFrame(frames, frame, ConsumeLines(decode, log, end, View()).1);
        if frame.Some? {
          frames := frames + [frame.value];
        }
      }
      ConsumeNothing(decode, log, end, View());
    }

    /** `_consume` on the window `log[offset..hi]`. */
    method ConsumeWindow(log: seq<Byte>, hi: nat) returns (frames: seq<Frame>)
      requires offset <= hi <= |log|
      modifies this
      ensures (View(), frames) == Consume(decode, limit, log, hi, old(View()))
    {
      frames := [];
      if skipping {
        var newline := NextNewline(log, offset);
        if newline >= hi {
          offset := hi;
        } else {
          offset := newline + 1;
          skipping := false;
        }
        return;
      }
      var end := LastNewline(log, offset, hi);
      if end < offset {
        if hi - offset > limit {
          skipping := true;
          offset := hi;
        }
        return;
      }
      frames := ConsumeWholeLines(log, end);
    }

    /**
     * `poll`. The log has `sizeBefore` bytes when it is opened, `log` is what it holds when it is
     * read, and `sizeAfter` its size at the end of the pass: it may grow in between.
     */
    method Poll(present: bool, sizeBefore: nat, log: seq<Byte>, sizeAfter: nat)
      returns (frames: seq<Frame>, done: bool, more: bool)
      requires sizeBefore <= |log| <= sizeAfter
      modifies this
      ensures !present ==> frames == [] && !done && !more && View() == old(View())
      ensures present && sizeBefore < old(offset) ==> frames == [] && done && !more && View() == old(View())
      ensures present && sizeBefore >= old(offset) ==>
                && (View(), frames) == PollStep(decode, limit, log, old(View()))
                && done == (lastTerminal && offset == sizeAfter)
                && more == More(sizeAfter, old(View()), View())
    {
      if !present {
        return [], false, false;
      }
      if sizeBefore < offset {
        return [], true, false;
      }
      var before := offset;
      frames := ConsumeWindow(log, WindowEnd(log, limit, offset));
      var progressed := offset != before;
      done, more := lastTerminal && offset == sizeAfter, progressed && offset < sizeAfter;
    }

    /**
     * The `more` loop of `iter_follow` on a log that is held still: every pass moves the offset
     * on, and the loop stops only when every complete line has been delivered.
     */
    method Drain(log: seq<Byte>) returns (frames: seq<Frame>, done: bool)
      requires offset <= |log|
      modifies this
      ensures frames == Remaining(decode, limit, log, old(View()))
      ensures old(offset) <= offset <= |log| && NextNewline(log, offset) == |log|
      ensures TracksTerminal(old(View()), frames, View())
      ensures done == (lastTerminal && offset == |log|)
    {
      var more := true;
      done := false;
      ghost var start := View();
      frames := [];
      while more
        invariant start.offset <= offset <= |log|
        invariant Remaining(decode, limit, log, start) == Then(frames, Remaining(decode, limit, log, View()))
        invariant TracksTerminal(start, frames, View())
        invariant !more ==> NextNewline(log, offset) == |log| && Remaining(decode, limit, log, View()) == []
        invariant !more ==> done == (lastTerminal && offset == |log|)
        decreases more, |log| - offset
      {
        ghost var before, sent := View(), frames;
        PollDelivers(decode, limit, log, log, before);
        var chunk: seq<Frame>;
        chunk, done, more := Poll(true, |log|, log, |log|);
        if !more {
          NoMoreMeansCaughtUp(decode, limit, log, before);
        }
        frames := if frames == [] then chunk else if chunk == [] then frames else frames + chunk;
        ThenAssociates(sent, chunk, Remaining(decode, limit, log, View()));
        TerminalComposes(start, sent, before, chunk, View());
      }
    }
  }

  // ----- the simple reader

  /** Where a text reader ends the line: at a newline or a carriage return. */
  function NextBreak(log: seq<Byte>, from: nat): (at: nat)
    requires from <= |log|
    ensures from <= at <= |log|
    decreases |log| - from
  {
    if from == |log| || log[from] == NEWLINE || log[from] == RETURN then from else NextBreak(log, from + 1)
  }

  /** A return and a newline together are one line end. */
  function BreakEnd(log: seq<Byte>, at: nat): (next: nat)
    requires at < |log|
    ensures at < next <= |log|
  {
    if log[at] == RETURN && at + 1 < |log| && log[at + 1] == NEWLINE then at + 2 else at + 1
  }

  /** The lines a text reader of the log yields, with universal newlines; a last line without an end counts. */
  function TextLines(log: seq<Byte>, from: nat): seq<seq<Byte>>
    requires from <= |log|
    decreases |log| - from
  {
    if from == |log| then []
    else
      var at := NextBreak(log, from);
      if at == |log| then [log[from..]] else [log[from..at]] + TextLines(log, BreakEnd(log, at))
  }

  predicate IsBreak(b: Byte) {
    b == NEWLINE || b == RETURN
  }

  predicate IsLineEnd(end: seq<Byte>) {
    end == [NEWLINE] || end == [RETURN] || end == [RETURN, NEWLINE]
  }

  /** Lines, each with the same end. */
  function Ended(lines: seq<seq<Byte>>, end: seq<Byte>): seq<Byte> {
    if lines == [] then [] else lines[0] + (end + Ended(lines[1..], end))
  }

  ghost predicate Unbroken(line: seq<Byte>) {
    forall i :: 0 <= i < |line| ==> !IsBreak(line[i])
  }

  lemma {:induction false} BreakAt(log: seq<Byte>, from: nat, at: nat)
    requires from <= at <= |log| && (at < |log| ==> IsBreak(log[at]))
    requires forall i :: from <= i < at ==> !IsBreak(log[i])
    ensures NextBreak(log, from) == at
    decreases at - from
  {
    if from < at { BreakAt(log, from + 1, at); }
  }

  lemma EndedStartsClean(lines: seq<seq<Byte>>, end: seq<Byte>)
    requires IsLineEnd(end) && forall l :: l in lines ==> Unbroken(l)
    ensures Ended(lines, end) != [] ==> Ended(lines, end)[0] != NEWLINE || end == [NEWLINE]
  {
    if lines != [] && lines[0] != [] { assert Unbroken(lines[0]) && !IsBreak(lines[0][0]); }
  }

  /** A text reader finds the same lines whether they end in a newline, a return, or both. */
  lemma {:induction false} TextLinesAre(log: seq<Byte>, from: nat, lines: seq<seq<Byte>>, end: seq<Byte>)
    requires from <= |log| && log[from..] == Ended(lines, end)
    requires IsLineEnd(end) && forall l :: l in lines ==> Unbroken(l)
    ensures TextLines(log, from) == lines
    decreases |lines|
  {
    if lines != [] {
      var at, next := from + |lines[0]|, from + |lines[0]| + |end|;
      var tail := Ended(lines[1..], end);
      assert log[from..] == lines[0] + (end + tail);
      assert forall i :: from <= i < |log| ==> log[i] == log[from..][i - from];
      assert log[from..at] == lines[0] && log[at] == end[0] && log[next..] == tail;
      assert Unbroken(lines[0]);
      BreakAt(log, from, at);
      EndedStartsClean(lines[1..], end);
      assert BreakEnd(log, at) == next by {
        if end == [RETURN, NEWLINE] { assert log[at + 1] == end[1]; }
        if end == [RETURN] && at + 1 < |log| { assert log[at + 1] == log[next..][0]; }
      }
      TextLinesAre(log, next, lines[1..], end);
      assert lines == [lines[0]] + lines[1..];
    }
  }

  /** No carriage return: a JSON encoder escapes them. */
  ghost predicate NoReturns(log: seq<Byte>) {
    forall i :: 0 <= i < |log| ==> log[i] != RETURN
  }

  lemma {:induction false} BreakIsNewline(log: seq<Byte>, from: nat)
    requires from <= |log| && NoReturns(log)
    ensures NextBreak(log, from) == NextNewline(log, from)
    decreases |log| - from
  {
    if from < |log| && log[from] != NEWLINE { BreakIsNewline(log, from + 1); }
  }

  /** A log that holds only complete, in-limit lines, each blank or an event. */
  ghost predicate WellFormed(decode: Decoder, limit: nat, log: seq<Byte>, from: nat)
    requires from <= |log|
    decreases |log| - from
  {
    from == |log| ||
    var end := NextNewline(log, from);
    && end < |log| && end - from <= limit
    && (decode(log[from..end]) == Blank || ParseLine(decode, log[from..end]).Some?)
    && WellFormed(decode, limit, log, end + 1)
  }

  datatype ReadError = BadJson | NotAnObject

  /** The rest of `list_after` from one line on. */
  function ListFrom(decode: Decoder, lines: seq<seq<Byte>>, after: Option<string>, seen: bool)
    : Result<seq<JsonValue>, ReadError>
  {
    if lines == [] then Ok([])
    else match decode(lines[0])
      case Blank => ListFrom(decode, lines[1..], after, seen)
      case NotJson => Err(BadJson)
      case Json(v) =>
        if seen then
          var rest := ListFrom(decode, lines[1..], after, seen);
          if rest.Ok? then Ok([v] + rest.value) else rest
        else if v.Other? then Err(NotAnObject)
        else ListFrom(decode, lines[1..], after, v.event.eventId == after)
  }

  /** Events already listed, followed by what the remaining lines give. */
  function Accumulated(events: seq<JsonValue>, rest: Result<seq<JsonValue>, ReadError>): Result<seq<JsonValue>, ReadError> {
    if rest.Err? || events == [] then rest else Ok(events + rest.value)
  }

  lemma AccumulateOne(events: seq<JsonValue>, v: JsonValue, rest: Result<seq<JsonValue>, ReadError>)
    ensures Accumulated(events, if rest.Ok? then Ok([v] + rest.value) else rest) == Accumulated(events + [v], rest)
  {
    if rest.Ok? && events != [] {
      assert events + ([v] + rest.value) == (events + [v]) + rest.value;
    }
    if events == [] {
      assert events + [v] == [v];
    }
  }

  /** `RunEventLog.list_after`. */
  method ListAfter(decode: Decoder, log: seq<Byte>, after: Option<string>) returns (out: Result<seq<JsonValue>, ReadError>)
    ensures out == ListFrom(decode, TextLines(log, 0), after, after.None?)
  {
    var lines := TextLines(log, 0);
    var seen := after.None?;
    var events: seq<JsonValue> := [];
    for i := 0 to |lines|
      invariant ListFrom(decode, lines, after, after.None?)
                == Accumulated(events, ListFrom(decode, lines[i..], after, seen))
    {
      assert lines[i..][0] == lines[i] && lines[i..][1..] == lines[i + 1..];
      match decode(lines[i])
      case Blank =>
      case NotJson =>
        return Err(BadJson);
      case Json(v) =>
        if seen {
          AccumulateOne(events, v, ListFrom(decode, lines[i + 1..], after, seen));
          events := events + [v];
        } else if v.Other? {
          return Err(NotAnObject);
        } else {
          seen := v.event.eventId == after;
        }
    }
    assert lines[|lines|..] == [] && events + [] == events;
    out := Ok(events);
  }

  // ----- what the simple reader lists

  /** The line is an event with the marker's id. */
  predicate IsMarker(decode: Decoder, line: seq<Byte>, after: Option<string>) {
    decode(line).Json? && decode(line).value.Object? && decode(line).value.event.eventId == after
  }

  /** No marker is needed, or some line before the `i`th has it. */
  ghost predicate PastMarker(decode: Decoder, lines: seq<seq<Byte>>, after: Option<string>, seen: bool, i: nat) {
    seen || exists j :: 0 <= j < i && j < |lines| && IsMarker(decode, lines[j], after)
  }

  /** The `i`th line stops the reader: it is not JSON, or no object where the marker is still looked for. */
  ghost predicate Stops(decode: Decoder, lines: seq<seq<Byte>>, after: Option<string>, seen: bool, i: nat)
    requires i < |lines|
  {
    decode(lines[i]).NotJson? || (decode(lines[i]).Json? && decode(lines[i]).value.Other? && !PastMarker(decode, lines, after, seen, i))
  }

  lemma PastMarkerTail(decode: Decoder, lines: seq<seq<Byte>>, after: Option<string>, seen: bool, i: nat)
    requires 0 < i <= |lines|
    ensures PastMarker(decode, lines, after, seen, i)
       <==> PastMarker(decode, lines[1..], after, seen || IsMarker(decode, lines[0], after), i - 1)
  {
    var rest := lines[1..];
    if j :| 0 <= j < i && IsMarker(decode, lines[j], after) {
      if j > 0 { assert rest[j - 1] == lines[j]; }
    }
    if j :| 0 <= j < i - 1 && IsMarker(decode, rest[j], after) {
      assert lines[j + 1] == rest[j];
    }
  }

  lemma StopsTail(decode: Decoder, lines: seq<seq<Byte>>, after: Option<string>, seen: bool, i: nat)
    requires 0 < i < |lines|
    ensures Stops(decode, lines, after, seen, i) <==> Stops(decode, lines[1..], after, seen || IsMarker(decode, lines[0], after), i - 1)
  {
    PastMarkerTail(decode, lines, after, seen, i);
  }

  ghost predicate SomeStops(decode: Decoder, lines: seq<seq<Byte>>, after: Option<string>, seen: bool) {
    exists i :: 0 <= i < |lines| && Stops(decode, lines, after, seen, i)
  }

  lemma SomeStopsTail(decode: Decoder, lines: seq<seq<Byte>>, after: Option<string>, seen: bool)
    requires lines != []
    ensures SomeStops(decode, lines, after, seen)
       <==> Stops(decode, lines, after, seen, 0) || SomeStops(decode, lines[1..], after, seen || IsMarker(decode, lines[0], after))
  {
    var rest, now := lines[1..], seen || IsMarker(decode, lines[0], after);
    if i :| 0 < i < |lines| && Stops(decode, lines, after, seen, i) {
      StopsTail(decode, lines, after, seen, i);
      assert Stops(decode, rest, after, now, i - 1);
    }
    if i :| 0 <= i < |rest| && Stops(decode, rest, after, now, i) {
      StopsTail(decode, lines, after, seen, i + 1);
      assert Stops(decode, lines, after, seen, i + 1);
    }
  }

  /** The simple reader raises iff some line stops it. */
  lemma {:induction false} RaisesIff(decode: Decoder, lines: seq<seq<Byte>>, after: Option<string>, seen: bool)
    ensures ListFrom(decode, lines, after, seen).Err? <==> SomeStops(decode, lines, after, seen)
  {
    if lines != [] {
      SomeStopsTail(decode, lines, after, seen);
      RaisesIff(decode, lines[1..], after, seen || IsMarker(decode, lines[0], after));
    }
  }

  /** The values of the lines past the marker, in order; blank lines have none. */
  ghost function ValuesPast(decode: Decoder, lines: seq<seq<Byte>>, after: Option<string>, seen: bool, n: nat): seq<JsonValue>
    requires n <= |lines|
  {
    if n == 0 then []
    else if decode(lines[n - 1]).Json? && PastMarker(decode, lines, after, seen, n - 1)
      then ValuesPast(decode, lines, after, seen, n - 1) + [decode(lines[n - 1]).value]
    else ValuesPast(decode, lines, after, seen, n - 1)
  }

  lemma {:induction false} ValuesPastTail(decode: Decoder, lines: seq<seq<Byte>>, after: Option<string>, seen: bool, n: nat)
    requires 0 < n <= |lines|
    ensures ValuesPast(decode, lines, after, seen, n)
         == ValuesPast(decode, lines, after, seen, 1) + ValuesPast(decode, lines[1..], after, seen || IsMarker(decode, lines[0], after), n - 1)
  {
    var first, now := ValuesPast(decode, lines, after, seen, 1), seen || IsMarker(decode, lines[0], after);
    if n == 1 {
      assert first + [] == first;
    } else {
      ValuesPastTail(decode, lines, after, seen, n - 1);
      PastMarkerTail(decode, lines, after, seen, n - 1);
      var before := ValuesPast(decode, lines[1..], after, now, n - 2);
      assert lines[1..][n - 2] == lines[n - 1];
      if decode(lines[n - 1]).Json? {
        ConcatAssociates(first, before, [decode(lines[n - 1]).value]);
      }
    }
  }

  /** Otherwise it lists exactly the values past the marker, in order. */
  lemma {:induction false} ListsValuesPast(decode: Decoder, lines: seq<seq<Byte>>, after: Option<string>, seen: bool)
    requires ListFrom(decode, lines, after, seen).Ok?
    ensures ListFrom(decode, lines, after, seen).value == ValuesPast(decode, lines, after, seen, |lines|)
  {
    if lines != [] {
      ListsValuesPast(decode, lines[1..], after, seen || IsMarker(decode, lines[0], after));
      ValuesPastTail(decode, lines, after, seen, |lines|);
      OneValue(decode, lines, after, seen);
    }
  }

  lemma OneValue(decode: Decoder, lines: seq<seq<Byte>>, after: Option<string>, seen: bool)
    requires lines != []
    ensures ValuesPast(decode, lines, after, seen, 1) == if seen && decode(lines[0]).Json? then [decode(lines[0]).value] else []
  {
  }

  function Events(frames: seq<Frame>): seq<JsonValue> {
    if frames == [] then [] else [Object(frames[0].event)] + Events(frames[1..])
  }

  lemma EventsCons(first: Option<Frame>, rest: seq<Frame>)
    ensures Events(Cons(first, rest)) == if first.Some? then [Object(first.value.event)] + Events(rest) else Events(rest)
  {
    if first.Some? { assert ([first.value] + rest)[1..] == rest; }
  }

  /** What a blank line or an event adds to a listing. */
  predicate Holds(decode: Decoder, line: seq<Byte>, first: Option<Frame>) {
    && (decode(line) == Blank || ParseLine(decode, line).Some?)
    && (if first.Some? then ParseLine(decode, line) == Some(first.value.event) else ParseLine(decode, line).None?)
  }

  lemma LineHolds(decode: Decoder, limit: nat, line: seq<Byte>, id: nat)
    requires |line| <= limit && (decode(line) == Blank || ParseLine(decode, line).Some?)
    ensures Holds(decode, line, LineFrame(decode, limit, line, id))
  {
  }

  /** Past its marker the simple reader lists these events. */
  predicate Lists(decode: Decoder, lines: seq<seq<Byte>>, after: Option<string>, frames: seq<Frame>) {
    ListFrom(decode, lines, after, true) == Ok(Events(frames))
  }

  lemma ListNothing(decode: Decoder, lines: seq<seq<Byte>>, after: Option<string>, frames: seq<Frame>)
    requires lines == [] && frames == []
    ensures Lists(decode, lines, after, frames)
  {
  }

  /** One turn of `list_after` past its marker. */
  lemma ListOneMore(decode: Decoder, lines: seq<seq<Byte>>, after: Option<string>, first: Option<Frame>, rest: seq<Frame>, frames: seq<Frame>)
    requires lines != [] && Holds(decode, lines[0], first) && frames == Cons(first, rest)
    requires Lists(decode, lines[1..], after, rest)
    ensures Lists(decode, lines, after, frames)
  {
    EventsCons(first, rest);
  }

  /** After its marker, the simple reader lists exactly the events a follower frames. */
  lemma {:induction false} ListsTheRest(decode: Decoder, limit: nat, log: seq<Byte>, from: nat, after: Option<string>)
    requires from <= |log| && WellFormed(decode, limit, log, from) && NoReturns(log)
    ensures Lists(decode, TextLines(log, from), after, Frames(decode, limit, log, from))
    decreases |log| - from
  {
    if from == |log| {
      ListNothing(decode, TextLines(log, from), after, Frames(decode, limit, log, from));
    } else {
      var first, next := WellFormedStep(decode, limit, log, from);
      ListsTheRest(decode, limit, log, next, after);
      ListOneMore(decode, TextLines(log, from), after, first, Frames(decode, limit, log, next), Frames(decode, limit, log, from));
    }
  }

  /** The first line of a well-formed log, to both readers, and the rest. */
  lemma WellFormedStep(decode: Decoder, limit: nat, log: seq<Byte>, from: nat) returns (first: Option<Frame>, next: nat)
    requires from < |log| && WellFormed(decode, limit, log, from) && NoReturns(log)
    ensures from < next <= |log| && WellFormed(decode, limit, log, next)
    ensures Frames(decode, limit, log, from) == Cons(first, Frames(decode, limit, log, next))
    ensures first.Some? ==> first.value.id == next
    ensures TextLines(log, from) != [] && TextLines(log, from)[1..] == TextLines(log, next)
    ensures Holds(decode, TextLines(log, from)[0], first)
  {
    var line: seq<Byte>;
    line, next := WellFormedLine(decode, limit, log, from);
    first := LineFrame(decode, limit, line, next);
    TextLinesStep(log, from, line, next);
    LineHolds(decode, limit, line, next);
  }

  lemma WellFormedLine(decode: Decoder, limit: nat, log: seq<Byte>, from: nat) returns (line: seq<Byte>, next: nat)
    requires from < |log| && WellFormed(decode, limit, log, from)
    ensures from < next <= |log| && next == NextNewline(log, from) + 1 && line == log[from..next - 1]
    ensures |line| <= limit && (decode(line) == Blank || ParseLine(decode, line).Some?)
    ensures WellFormed(decode, limit, log, next)
    ensures Frames(decode, limit, log, from) == Cons(LineFrame(decode, limit, line, next), Frames(decode, limit, log, next))
  {
    next := NextNewline(log, from) + 1;
    line := log[from..next - 1];
  }

  lemma TextLinesStep(log: seq<Byte>, from: nat, line: seq<Byte>, next: nat)
    requires from < next <= |log| && next == NextNewline(log, from) + 1 && line == log[from..next - 1] && NoReturns(log)
    ensures TextLines(log, from) != [] && TextLines(log, from)[0] == line && TextLines(log, from)[1..] == TextLines(log, next)
  {
    BreakIsNewline(log, from);
    assert BreakEnd(log, next - 1) == next;
    assert TextLines(log, from) == [line] + TextLines(log, next);
  }

  /** What the simple reader lists after an id, given where the follower finds it. */
  ghost predicate ListsAfter(decode: Decoder, limit: nat, log: seq<Byte>, lines: seq<seq<Byte>>, eventId: string, offset: Option<nat>) {
    && (offset.Some? ==> offset.value <= |log|)
    && ListFrom(decode, lines, Some(eventId), false)
       == Ok(if offset.None? then [] else Events(Frames(decode, limit, log, offset.value)))
  }

  /** One turn of `list_after` before its marker. */
  lemma ListOneBefore(decode: Decoder, lines: seq<seq<Byte>>, first: Option<Frame>, eventId: string)
    requires lines != [] && Holds(decode, lines[0], first)
    ensures ListFrom(decode, lines, Some(eventId), false) == ListFrom(decode, lines[1..], Some(eventId), Carries(first, eventId))
  {
  }

  predicate Carries(first: Option<Frame>, eventId: string) {
    first.Some? && first.value.event.eventId == Some(eventId)
  }

  lemma FirstOfCons(first: Option<Frame>, rest: seq<Frame>, eventId: string)
    ensures FirstWithId(Cons(first, rest), eventId) == if Carries(first, eventId) then Some(first.value.id) else FirstWithId(rest, eventId)
  {
    if first.Some? { assert ([first.value] + rest)[1..] == rest; }
  }

  lemma FirstOfNone(frames: seq<Frame>, eventId: string)
    requires frames == []
    ensures FirstWithId(frames, eventId) == None
  {
  }

  /**
   * On a log of in-limit well-formed lines the two readers agree: resuming the follower at the
   * offset found for an event id, and listing after that id, give the same events.
   */
  lemma {:induction false} ReadersAgree(decode: Decoder, limit: nat, log: seq<Byte>, from: nat, eventId: string)
    requires from <= |log| && WellFormed(decode, limit, log, from) && NoReturns(log)
    ensures ListsAfter(decode, limit, log, TextLines(log, from), eventId, FirstWithId(Frames(decode, limit, log, from), eventId))
    decreases |log| - from
  {
    if from == |log| {
      FirstOfNone(Frames(decode, limit, log, from), eventId);
    } else {
      var first, next := WellFormedStep(decode, limit, log, from);
      ListOneBefore(decode, TextLines(log, from), first, eventId);
      FirstOfCons(first, Frames(decode, limit, log, next), eventId);
      if Carries(first, eventId) {
        ListsTheRest(decode, limit, log, next, Some(eventId));
      } else {
        ReadersAgree(decode, limit, log, next, eventId);
      }
    }
  }
}
