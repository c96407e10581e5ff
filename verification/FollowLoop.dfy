/**
 * The blocking stream of `iter_follow` in `src/recertia/api/event_follow.py`: it polls a follower,
 * sends what it found, and sends a keep-alive when it was silent for too long.
 */
module FollowLoop {
  import opened Prelude
  import opened EventFollow

  /** What one poll finds, and the clock right after it. */
  datatype Look = Look(present: bool, sizeBefore: nat, log: seq<Byte>, sizeAfter: nat, now: int)

  /** The frames of one poll, or a keep-alive. */
  datatype Chunk = Sent(frames: seq<Frame>, at: int) | KeepAlive(at: int)

  datatype Polled = Polled(state: State, frames: seq<Frame>, done: bool, more: bool)

  datatype Stream = Stream(out: seq<Chunk>, state: State, sent: int, ended: bool)

  datatype Limits = Limits(deadline: int, keepalive: int)

  predicate ValidLook(l: Look) {
    l.sizeBefore <= |l.log| <= l.sizeAfter
  }

  function PollOnce(decode: Decoder, limit: nat, l: Look, st: State): Polled
    requires ValidLook(l)
  {
    if !l.present then Polled(st, [], false, false)
    else if l.sizeBefore < st.offset then Polled(st, [], true, false)
    else
      var (after, frames) := PollStep(decode, limit, l.log, st);
      Polled(after, frames, after.lastTerminal && after.offset == l.sizeAfter, More(l.sizeAfter, st, after))
  }

  /** One turn of the loop. */
  function Turn(s: Stream, p: Polled, now: int, limits: Limits): Stream {
    var out := if p.frames == [] then s.out else s.out + [Sent(p.frames, now)];
    var sent := if p.frames == [] then s.sent else now;
    if p.done || now >= limits.deadline then Stream(out, p.state, sent, true)
    else if !p.more && now - sent >= limits.keepalive then Stream(out + [KeepAlive(now)], p.state, now, false)
    else Stream(out, p.state, sent, false)
  }

  /** The stream after these looks; once ended it looks no more. */
  function Follow(decode: Decoder, limit: nat, looks: seq<Look>, start: Stream, limits: Limits): Stream
    requires forall l :: l in looks ==> ValidLook(l)
  {
    if looks == [] then start
    else
      var s, l := Follow(decode, limit, looks[..|looks| - 1], start, limits), looks[|looks| - 1];
      if s.ended then s else Turn(s, PollOnce(decode, limit, l, s.state), l.now, limits)
  }

  lemma FollowOneMore(decode: Decoder, limit: nat, looks: seq<Look>, l: Look, start: Stream, limits: Limits)
    requires ValidLook(l) && forall k :: k in looks ==> ValidLook(k)
    ensures var s := Follow(decode, limit, looks, start, limits);
            Follow(decode, limit, looks + [l], start, limits)
            == if s.ended then s else Turn(s, PollOnce(decode, limit, l, s.state), l.now, limits)
  {
    assert (looks + [l])[..|looks + [l]| - 1] == looks;
  }

  lemma {:induction false} EndedStays(decode: Decoder, limit: nat, looks: seq<Look>, more: seq<Look>, start: Stream, limits: Limits)
    requires (forall l :: l in looks ==> ValidLook(l)) && forall l :: l in more ==> ValidLook(l)
    requires Follow(decode, limit, looks, start, limits).ended
    ensures Follow(decode, limit, looks + more, start, limits) == Follow(decode, limit, looks, start, limits)
  {
    if more == [] {
      assert looks + more == looks;
    } else {
      var front, last := more[..|more| - 1], more[|more| - 1];
      var sofar := looks + front;
      EndedStays(decode, limit, looks, front, start, limits);
      FollowOneMore(decode, limit, sofar, last, start, limits);
      assert looks + more == sofar + [last];
    }
  }

  /** The body of the loop. */
  method TakeTurn(f: EventFollower, l: Look, out: seq<Chunk>, sent: int, limits: Limits)
    returns (out': seq<Chunk>, sent': int, ended: bool)
    requires ValidLook(l)
    modifies f
    ensures Stream(out', f.View(), sent', ended)
         == Turn(Stream(out, old(f.View()), sent, false), PollOnce(f.decode, f.limit, l, old(f.View())), l.now, limits)
  {
    var frames, done, more := f.Poll(l.present, l.sizeBefore, l.log, l.sizeAfter);
    out', sent', ended := out, sent, false;
    if frames != [] {
      out', sent' := out' + [Sent(frames, l.now)], l.now;
    }
    if done || l.now >= limits.deadline {
      return out', sent', true;
    }
    if !more && l.now - sent' >= limits.keepalive {
      out', sent' := out' + [KeepAlive(l.now)], l.now;
    }
  }

  lemma FollowTurn(decode: Decoder, limit: nat, looks: seq<Look>, i: nat, start: Stream, limits: Limits, s: Stream, t: Stream)
    requires i < |looks| && forall l :: l in looks ==> ValidLook(l)
    requires Follow(decode, limit, looks[..i], start, limits) == s && !s.ended
    requires t == Turn(s, PollOnce(decode, limit, looks[i], s.state), looks[i].now, limits)
    ensures Follow(decode, limit, looks[..i + 1], start, limits) == t
  {
    FollowOneMore(decode, limit, looks[..i], looks[i], start, limits);
    assert looks[..i + 1] == looks[..i] + [looks[i]];
  }

  lemma LastTurn(decode: Decoder, limit: nat, looks: seq<Look>, i: nat, start: Stream, limits: Limits)
    requires i <= |looks| && forall l :: l in looks ==> ValidLook(l)
    requires Follow(decode, limit, looks[..i], start, limits).ended
    ensures Follow(decode, limit, looks, start, limits) == Follow(decode, limit, looks[..i], start, limits)
  {
    EndedStays(decode, limit, looks[..i], looks[i..], start, limits);
    assert looks == looks[..i] + looks[i..];
  }

  /** `iter_follow`, for as many turns as there are looks. */
  method IterFollow(f: EventFollower, looks: seq<Look>, began: int, maxSeconds: int, keepalive: int)
    returns (out: seq<Chunk>, ended: bool)
    requires forall l :: l in looks ==> ValidLook(l)
    modifies f
    ensures var s := Follow(f.decode, f.limit, looks, Stream([], old(f.View()), began, false), Limits(began + maxSeconds, keepalive));
            out == s.out && ended == s.ended && f.View() == s.state
  {
    var limits, sent := Limits(began + maxSeconds, keepalive), began;
    ghost var start := Stream([], f.View(), began, false);
    out, ended := [], false;
    for i := 0 to |looks|
      invariant !ended
      invariant Follow(f.decode, f.limit, looks[..i], start, limits) == Stream(out, f.View(), sent, ended)
    {
      ghost var s := Stream(out, f.View(), sent, false);
      out, sent, ended := TakeTurn(f, looks[i], out, sent, limits);
      FollowTurn(f.decode, f.limit, looks, i, start, limits, s, Stream(out, f.View(), sent, ended));
      if ended {
        LastTurn(f.decode, f.limit, looks, i + 1, start, limits);
        return;
      }
    }
    assert looks[..|looks|] == looks;
  }

  // ----- what is sent

  function FramesOf(out: seq<Chunk>): seq<Frame> {
    if out == [] then []
    else
      var c, front := out[|out| - 1], FramesOf(out[..|out| - 1]);
      if c.Sent? then Then(front, c.frames) else front
  }

  lemma FramesOfOneMore(out: seq<Chunk>, c: Chunk)
    ensures FramesOf(out + [c]) == if c.Sent? then Then(FramesOf(out), c.frames) else FramesOf(out)
  {
    assert (out + [c])[..|out + [c]| - 1] == out;
  }

  lemma TurnSends(s: Stream, p: Polled, now: int, limits: Limits)
    ensures FramesOf(Turn(s, p, now, limits).out) == Then(FramesOf(s.out), p.frames)
    ensures Turn(s, p, now, limits).state == p.state
  {
    var out := if p.frames == [] then s.out else s.out + [Sent(p.frames, now)];
    FramesOfOneMore(s.out, Sent(p.frames, now));
    FramesOfOneMore(out, KeepAlive(now));
  }

  lemma PollOnceDelivers(decode: Decoder, limit: nat, l: Look, st: State, grown: seq<Byte>)
    requires ValidLook(l) && l.log <= grown && st.offset <= |grown|
    ensures var p := PollOnce(decode, limit, l, st);
            && p.state.offset <= |grown|
            && Remaining(decode, limit, grown, st) == Then(p.frames, Remaining(decode, limit, grown, p.state))
  {
    if l.present && l.sizeBefore >= st.offset { PollDelivers(decode, limit, l.log, grown, st); }
  }

  /**
   * Whatever the polls find - no file yet, partial lines, a file that was cut off - the frames
   * sent, followed by what the follower still has to deliver, are what there was to deliver.
   */
  lemma {:induction false} StreamDelivers(decode: Decoder, limit: nat, looks: seq<Look>, st: State, began: int, limits: Limits, grown: seq<Byte>)
    requires st.offset <= |grown| && forall l :: l in looks ==> ValidLook(l) && l.log <= grown
    ensures var s := Follow(decode, limit, looks, Stream([], st, began, false), limits);
            && s.state.offset <= |grown|
            && Remaining(decode, limit, grown, st) == Then(FramesOf(s.out), Remaining(decode, limit, grown, s.state))
  {
    if looks != [] {
      var l := looks[|looks| - 1];
      StreamDelivers(decode, limit, looks[..|looks| - 1], st, began, limits, grown);
      var s := Follow(decode, limit, looks[..|looks| - 1], Stream([], st, began, false), limits);
      if !s.ended {
        var p := PollOnce(decode, limit, l, s.state);
        PollOnceDelivers(decode, limit, l, s.state, grown);
        TurnSends(s, p, l.now, limits);
        ThenAssociates(FramesOf(s.out), p.frames, Remaining(decode, limit, grown, p.state));
      }
    }
  }

  // ----- when the stream ends

  /** The look at which the loop returns: the run is over and read to its end, the file was cut off, or time is up. */
  ghost predicate Ends(decode: Decoder, limit: nat, looks: seq<Look>, start: Stream, limits: Limits, i: nat)
    requires forall l :: l in looks ==> ValidLook(l)
  {
    && i < |looks|
    && (looks[i].now >= limits.deadline
        || PollOnce(decode, limit, looks[i], Follow(decode, limit, looks[..i], start, limits).state).done)
  }

  lemma EndsThere(decode: Decoder, limit: nat, looks: seq<Look>, start: Stream, limits: Limits, i: nat)
    requires (forall l :: l in looks ==> ValidLook(l)) && Ends(decode, limit, looks, start, limits, i)
    ensures Follow(decode, limit, looks[..i + 1], start, limits).ended
  {
    FollowOneMore(decode, limit, looks[..i], looks[i], start, limits);
    assert looks[..i + 1] == looks[..i] + [looks[i]];
  }

  lemma {:induction false} SomeLookEnds(decode: Decoder, limit: nat, looks: seq<Look>, start: Stream, limits: Limits)
    requires !start.ended && forall l :: l in looks ==> ValidLook(l)
    ensures Follow(decode, limit, looks, start, limits).ended <==> exists i :: Ends(decode, limit, looks, start, limits, i)
  {
    if looks != [] {
      var n := |looks| - 1;
      var front := looks[..n];
      SomeLookEnds(decode, limit, front, start, limits);
      forall i: nat | i < n ensures Ends(decode, limit, front, start, limits, i) <==> Ends(decode, limit, looks, start, limits, i) {
        assert front[..i] == looks[..i];
      }
      if Follow(decode, limit, looks, start, limits).ended && !Follow(decode, limit, front, start, limits).ended {
        assert Ends(decode, limit, looks, start, limits, n);
      }
    }
  }

  /** The stream has ended iff some look ended it, and no look after that one changes anything. */
  lemma EndedIff(decode: Decoder, limit: nat, looks: seq<Look>, start: Stream, limits: Limits)
    requires !start.ended && forall l :: l in looks ==> ValidLook(l)
    ensures Follow(decode, limit, looks, start, limits).ended <==> exists i :: Ends(decode, limit, looks, start, limits, i)
    ensures forall i :: Ends(decode, limit, looks, start, limits, i) ==>
                          Follow(decode, limit, looks, start, limits) == Follow(decode, limit, looks[..i + 1], start, limits)
  {
    SomeLookEnds(decode, limit, looks, start, limits);
    forall i: nat | Ends(decode, limit, looks, start, limits, i)
      ensures Follow(decode, limit, looks, start, limits) == Follow(decode, limit, looks[..i + 1], start, limits)
    {
      EndsThere(decode, limit, looks, start, limits, i);
      LastTurn(decode, limit, looks, i + 1, start, limits);
    }
  }

  /** A poll that is done on a file that was not cut off has read all of it, and its last event ends the run. */
  lemma DoneIsComplete(decode: Decoder, limit: nat, l: Look, st: State)
    requires ValidLook(l) && l.present && l.sizeBefore >= st.offset && PollOnce(decode, limit, l, st).done
    ensures var p := PollOnce(decode, limit, l, st);
            && p.state.offset == |l.log| == l.sizeAfter && p.state.lastTerminal
            && Remaining(decode, limit, l.log, p.state) == []
            && Remaining(decode, limit, l.log, st) == p.frames
  {
    PollDelivers(decode, limit, l.log, l.log, st);
  }

  predicate EndsRun(e: Event) {
    e.kind == "run.finished" || e.kind == "run.cancelled"
  }

  /**
   * A poll is done exactly when the file was cut off, or when it read up to the end of the file
   * and the last event ever sent - by this poll, or before it - finished or cancelled the run.
   */
  lemma DoneIff(decode: Decoder, limit: nat, l: Look, st: State)
    requires ValidLook(l)
    ensures var p := PollOnce(decode, limit, l, st);
            p.done <==> l.present && (l.sizeBefore < st.offset
                                      || (p.state.offset == l.sizeAfter
                                          && (if p.frames == [] then st.lastTerminal else EndsRun(p.frames[|p.frames| - 1].event))))
    ensures !l.present || l.sizeBefore < st.offset ==> PollOnce(decode, limit, l, st).frames == [] && PollOnce(decode, limit, l, st).state == st
  {
    if l.present && l.sizeBefore >= st.offset { PollDelivers(decode, limit, l.log, l.log, st); }
  }

  // ----- keep-alives

  ghost predicate ClockRises(looks: seq<Look>, began: int) {
    && (looks != [] ==> began <= looks[0].now)
    && forall i, j :: 0 <= i <= j < |looks| ==> looks[i].now <= looks[j].now
  }

  /** When the chunk before this one was sent. */
  function SentBefore(out: seq<Chunk>, i: nat, began: int): int
    requires i <= |out|
  {
    if i == 0 then began else out[i - 1].at
  }

  /** Chunks are in order, and a keep-alive follows a silence of at least the interval. */
  ghost predicate Spaced(out: seq<Chunk>, began: int, keepalive: int) {
    forall i :: 0 <= i < |out| ==> ChunkSpaced(out, i, began, keepalive)
  }

  predicate ChunkSpaced(out: seq<Chunk>, i: nat, began: int, keepalive: int)
    requires i < |out|
  {
    && SentBefore(out, i, began) <= out[i].at
    && (out[i].KeepAlive? ==> out[i].at - SentBefore(out, i, began) >= keepalive)
  }

  ghost predicate InTime(s: Stream, began: int, keepalive: int, now: int) {
    && s.sent == SentBefore(s.out, |s.out|, began) && s.sent <= now
    && Spaced(s.out, began, keepalive)
  }

  lemma SpacedOneMore(out: seq<Chunk>, c: Chunk, began: int, keepalive: int)
    requires Spaced(out, began, keepalive) && SentBefore(out, |out|, began) <= c.at
    requires c.KeepAlive? ==> c.at - SentBefore(out, |out|, began) >= keepalive
    ensures Spaced(out + [c], began, keepalive) && SentBefore(out + [c], |out| + 1, began) == c.at
  {
    forall i | 0 <= i < |out + [c]| ensures ChunkSpaced(out + [c], i, began, keepalive) {
      if i < |out| { assert ChunkSpaced(out, i, began, keepalive); }
    }
  }

  lemma TurnInTime(s: Stream, p: Polled, now: int, limits: Limits, began: int, was: int)
    requires InTime(s, began, limits.keepalive, was) && was <= now
    ensures InTime(Turn(s, p, now, limits), began, limits.keepalive, now)
    ensures var t := Turn(s, p, now, limits); t.ended || p.more || now - t.sent < Max(1, limits.keepalive)
  {
    var out := if p.frames == [] then s.out else s.out + [Sent(p.frames, now)];
    if p.frames != [] { SpacedOneMore(s.out, Sent(p.frames, now), began, limits.keepalive); }
    if now - SentBefore(out, |out|, began) >= limits.keepalive { SpacedOneMore(out, KeepAlive(now), began, limits.keepalive); }
  }

  /**
   * On a clock that does not step back chunks leave in order, no keep-alive leaves before the
   * interval has passed in silence, and after a turn that waits the silence is shorter than that.
   */
  lemma {:induction false} KeepAlivesAreDue(decode: Decoder, limit: nat, looks: seq<Look>, st: State, began: int, limits: Limits)
    requires (forall l :: l in looks ==> ValidLook(l)) && ClockRises(looks, began)
    ensures var s := Follow(decode, limit, looks, Stream([], st, began, false), limits);
            && Spaced(s.out, began, limits.keepalive)
            && s.sent == SentBefore(s.out, |s.out|, began)
            && s.sent <= (if looks == [] then began else looks[|looks| - 1].now)
            && (s.ended || looks == [] || looks[|looks| - 1].now - s.sent < Max(1, limits.keepalive)
                || PollOnce(decode, limit, looks[|looks| - 1],
                            Follow(decode, limit, looks[..|looks| - 1], Stream([], st, began, false), limits).state).more)
  {
    if looks != [] {
      var front, l := looks[..|looks| - 1], looks[|looks| - 1];
      KeepAlivesAreDue(decode, limit, front, st, began, limits);
      var s := Follow(decode, limit, front, Stream([], st, began, false), limits);
      if !s.ended {
        TurnInTime(s, PollOnce(decode, limit, l, s.state), l.now, limits, began, if front == [] then began else front[|front| - 1].now);
      }
    }
  }
}
