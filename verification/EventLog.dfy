/**
 * The writing side of `src/recertia/api/events.py`: `RunEventLog.append` writes a line at the end
 * of whatever the log holds, and what a follower then gets.
 */
module EventLog {
  import opened Prelude
  import opened EventFollow

  /** Where the bytes after the last newline begin: nothing, or a line that was never finished. */
  function TailStart(log: seq<Byte>, from: nat): (start: nat)
    requires from <= |log|
    ensures from <= start <= |log|
    ensures forall i :: start <= i < |log| ==> log[i] != NEWLINE
    ensures start == from || log[start - 1] == NEWLINE
    decreases |log| - from
  {
    var end := NextNewline(log, from);
    if end == |log| then from else TailStart(log, end + 1)
  }

  class RunEventLog {
    var bytes: seq<Byte>

    constructor (found: seq<Byte>)
      ensures bytes == found
    {
      bytes := found;
    }

    /** Compact JSON has no newline in it. Nothing is asked of the log or of the event's size. */
    method Append(encode: Event -> seq<Byte>, e: Event, ghost decode: Decoder, ghost limit: nat)
      requires NEWLINE !in encode(e)
      modifies this
      ensures bytes == old(bytes) + (encode(e) + [NEWLINE])
      ensures var line := old(bytes)[TailStart(old(bytes), 0)..] + encode(e);
              && Frames(decode, limit, bytes, 0) == Snoc(Frames(decode, limit, old(bytes), 0), LineFrame(decode, limit, line, |bytes|))
              && (Frame(|bytes|, e) in Frames(decode, limit, bytes, 0)
                  <==> |line| <= limit && decode(line) == Json(Object(e)))
    {
      AppendAddsOneLine(decode, limit, bytes, 0, encode(e));
      DeliveredIff(decode, limit, bytes, encode(e), e);
      bytes := bytes + (encode(e) + [NEWLINE]);
    }
  }

  lemma ConsSnoc(first: Option<Frame>, rest: seq<Frame>, last: Option<Frame>)
    ensures Cons(first, Snoc(rest, last)) == Snoc(Cons(first, rest), last)
  {
    if first.Some? && last.Some? {
      assert [first.value] + (rest + [last.value]) == ([first.value] + rest) + [last.value];
    }
  }

  lemma FirstStays(first: Option<Frame>, rest: seq<Frame>, frames: seq<Frame>, grownRest: seq<Frame>, grown: seq<Frame>, last: Option<Frame>)
    requires frames == Cons(first, rest) && grown == Cons(first, grownRest) && grownRest == Snoc(rest, last)
    ensures grown == Snoc(frames, last)
  {
    ConsSnoc(first, rest, last);
  }

  /** A line that is complete reads the same in the grown log. */
  lemma GrownStep(decode: Decoder, limit: nat, log: seq<Byte>, grown: seq<Byte>, from: nat) returns (first: Option<Frame>, next: nat)
    requires log <= grown && from <= |log| && NextNewline(log, from) < |log|
    ensures from < next <= |log| && TailStart(log, from) == TailStart(log, next)
    ensures Frames(decode, limit, log, from) == Cons(first, Frames(decode, limit, log, next))
    ensures Frames(decode, limit, grown, from) == Cons(first, Frames(decode, limit, grown, next))
  {
    next := NextNewline(log, from) + 1;
    first := LineFrame(decode, limit, log[from..next - 1], next);
    NewlineGrows(log, grown, from);
    assert grown[from..next - 1] == log[from..next - 1];
  }

  lemma AppendAtTail(decode: Decoder, limit: nat, log: seq<Byte>, from: nat, line: seq<Byte>)
    requires from <= |log| && NextNewline(log, from) == |log| && NEWLINE !in line
    ensures var grown := log + (line + [NEWLINE]);
            Frames(decode, limit, grown, from) == Snoc([], LineFrame(decode, limit, log[from..] + line, |grown|))
  {
    var grown, end := log + (line + [NEWLINE]), |log| + |line|;
    forall i | from <= i < end ensures grown[i] != NEWLINE {
      if i >= |log| { assert grown[i] == line[i - |log|]; }
    }
    NewlineIs(grown, from, end);
    assert grown[from..end] == log[from..] + line;
    assert NextNewline(grown, |grown|) == |grown|;
  }

  /** On every log a new line adds exactly the frame of the unfinished line with it, if that has one. */
  lemma {:induction false} AppendAddsOneLine(decode: Decoder, limit: nat, log: seq<Byte>, from: nat, line: seq<Byte>)
    requires from <= |log| && NEWLINE !in line
    ensures var grown := log + (line + [NEWLINE]);
            Frames(decode, limit, grown, from)
            == Snoc(Frames(decode, limit, log, from), LineFrame(decode, limit, log[TailStart(log, from)..] + line, |grown|))
    decreases |log| - from
  {
    if NextNewline(log, from) == |log| {
      AppendAtTail(decode, limit, log, from, line);
    } else {
      var grown := log + (line + [NEWLINE]);
      var first, next := GrownStep(decode, limit, log, grown, from);
      AppendAddsOneLine(decode, limit, log, next, line);
      FirstStays(first, Frames(decode, limit, log, next), Frames(decode, limit, log, from),
                 Frames(decode, limit, grown, next), Frames(decode, limit, grown, from),
                 LineFrame(decode, limit, log[TailStart(log, from)..] + line, |grown|));
    }
  }

  /**
   * The appended event is delivered iff the unfinished line before it leaves it readable and in
   * limit; after a finished line that is just the event's own encoding.
   */
  lemma DeliveredIff(decode: Decoder, limit: nat, log: seq<Byte>, line: seq<Byte>, e: Event)
    requires NEWLINE !in line
    ensures var grown, whole := log + (line + [NEWLINE]), log[TailStart(log, 0)..] + line;
            && (Frame(|grown|, e) in Frames(decode, limit, grown, 0) <==> |whole| <= limit && decode(whole) == Json(Object(e)))
            && (log == [] || log[|log| - 1] == NEWLINE ==> whole == line)
  {
    var grown, whole := log + (line + [NEWLINE]), log[TailStart(log, 0)..] + line;
    AppendAddsOneLine(decode, limit, log, 0, line);
    FrameIdsRise(decode, limit, log, 0);
    assert Frame(|grown|, e) !in Frames(decode, limit, log, 0);
    if log == [] || log[|log| - 1] == NEWLINE {
      assert TailStart(log, 0) == |log|;
    }
  }
}
