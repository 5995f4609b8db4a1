/**
 * The sample ledger and the playback schedule of a streamed block (`schedule`, `scheduleBuffer`,
 * `seekTo`, `changeRate` in assets/shell/12-reader-ahead.js, `mediaOffset` in
 * assets/shell/10-reader-place.js). Times, offsets and rates are exact reals.
 */
module AudioLedger {
  const LEAD := 0.01       // delay before rescheduled audio starts
  const SLACK := 0.00001   // a frame this close to its end counts as played
  const PITCH_DELAY := 0.12

  /** `source` tells whether a Web Audio source is scheduled for the frame; it then sounds from `start`
      to `end`, where its marker is set. */
  datatype Frame = Frame(
    samples: nat, source: bool, start: real, end: real, rate: real, offset: real, played: bool)

  /** The audio is sampled at 24 kHz. */
  function Seconds(samples: int): real { samples as real / 24000.0 }

  function SamplesIn(seconds: real): int { Round(seconds * 24000.0) }

  function Duration(f: Frame): real { Seconds(f.samples) }

  datatype Stream = Stream(
    base: real, received: nat, total: int, played: int, buffered: int,
    cursor: real, rate: real, latency: real, started: bool, done: bool, finished: bool,
    frames: seq<Frame>)

  function Min(a: real, b: real): real { if a < b then a else b }
  function Max(a: real, b: real): real { if a < b then b else a }
  function MinInt(a: int, b: int): int { if a < b then a else b }
  function MaxInt(a: int, b: int): int { if a < b then b else a }

  /** JavaScript's `Math.round`. */
  function Round(x: real): int { (x + 0.5).Floor }

  function Latency(rate: real): real { if rate == 1.0 then 0.0 else PITCH_DELAY }

  // ---------------------------------------------------------------- sums over frames

  /** Samples of all frames, or only of those marked played. */
  function Samples(frames: seq<Frame>, playedOnly: bool): int
    decreases |frames|
  {
    if frames == [] then 0
    else
      var f := frames[|frames| - 1];
      Samples(frames[..|frames| - 1], playedOnly) + (if playedOnly && !f.played then 0 else f.samples)
  }

  /** How much of a frame has been heard at time `now`. */
  function Heard(f: Frame, now: real, latency: real): real {
    if f.played then Duration(f)
    else Min(Duration(f), f.offset + if f.source then Max(0.0, now - f.start - latency) * f.rate else 0.0)
  }

  function HeardAll(frames: seq<Frame>, now: real, latency: real): real
    decreases |frames|
  {
    if frames == [] then 0.0
    else HeardAll(frames[..|frames| - 1], now, latency) + Heard(frames[|frames| - 1], now, latency)
  }

  /** `mediaOffset`: the position in the block, in media seconds. */
  function Position(s: Stream, now: real): real { s.base + HeardAll(s.frames, now, s.latency) }

  /** Where the received audio ends, in media seconds. */
  function Horizon(s: Stream): real { s.base + Seconds(s.total) }

  // ---------------------------------------------------------------- laying frames out

  /** How long what is left of a frame sounds at `rate`. */
  function Lasting(f: Frame, rate: real): real
    requires rate > 0.0
  {
    (Duration(f) - f.offset) / rate
  }

  function LastingAll(frames: seq<Frame>, rate: real): (lengths: seq<real>)
    requires rate > 0.0
    ensures |lengths| == |frames|
    decreases |frames|
  {
    if frames == [] then []
    else LastingAll(frames[..|frames| - 1], rate) + [Lasting(frames[|frames| - 1], rate)]
  }

  /** `scheduleBuffer`: the frame sounds at `rate` from `start` on, for `length` seconds. */
  function Placed(f: Frame, start: real, length: real, rate: real): Frame {
    f.(source := true, start := start, end := start + length, rate := rate)
  }

  /** The time after the unplayed ones of `frames` have sounded one after the other from `start` on. */
  function Cursor(frames: seq<Frame>, lengths: seq<real>, start: real): real
    requires |frames| == |lengths|
    decreases |frames|
  {
    if frames == [] then start
    else
      var last := |frames| - 1;
      var at := Cursor(frames[..last], lengths[..last], start);
      if frames[last].played then at else at + lengths[last]
  }

  function Laid(frames: seq<Frame>, lengths: seq<real>, start: real, rate: real): seq<Frame>
    requires |frames| == |lengths|
    decreases |frames|
  {
    if frames == [] then []
    else
      var last := |frames| - 1;
      var f, at := frames[last], Cursor(frames[..last], lengths[..last], start);
      Laid(frames[..last], lengths[..last], start, rate) +
      [if f.played then f else Placed(f, at, lengths[last], rate)]
  }

  // ---------------------------------------------------------------- operations

  /** How many samples of a resumed block were already heard. */
  function ToSkip(s: Stream): int { MaxInt(0, SamplesIn(s.base)) }

  /** How many of `n` arriving samples are left when the resumed part is skipped. */
  function Kept(s: Stream, n: nat): nat {
    n - MinInt(n, MaxInt(0, SamplesIn(s.base) - s.received))
  }

  /** `schedule` for a frame of `n` samples that arrives at `now`. */
  function Arrive(s: Stream, n: nat, now: real, startup: real): Stream
    requires s.rate > 0.0
  {
    var kept := Kept(s, n);
    if kept == 0 then s.(received := s.received + n)
    else
      var f := NewFrame(s, kept, now, startup);
      s.(received := s.received + n, started := true, cursor := f.end, frames := s.frames + [f],
         total := s.total + kept, buffered := s.buffered + kept)
  }

  function NewFrame(s: Stream, kept: nat, now: real, startup: real): Frame
    requires s.rate > 0.0
  {
    var f := Frame(kept, false, 0.0, 0.0, s.rate, 0.0, false);
    Placed(f, Max(s.cursor, now + if s.started then 0.0 else startup), Lasting(f, s.rate), s.rate)
  }

  predicate NoSources(frames: seq<Frame>) {
    forall i :: 0 <= i < |frames| ==> !frames[i].source
  }

  function Settle(s: Stream): Stream {
    if s.done && NoSources(s.frames) then s.(finished := true) else s
  }

  function Marked(f: Frame): Frame { f.(source := false, played := true) }

  /** The `onended` handler of frame `i`. */
  function Ended(s: Stream, i: nat): Stream
    requires i < |s.frames|
  {
    var f := s.frames[i];
    if !f.source then s
    else
      var s1 := s.(frames := s.frames[i := Marked(f)]);
      Settle(if f.played then s1
             else s1.(played := s.played + f.samples, buffered := MaxInt(0, s.buffered - f.samples)))
  }

  /** The network terminator: generation is done, playback may not be. */
  function Terminated(s: Stream): Stream { Settle(s.(done := true)) }

  /** What a seek decides about a frame that starts at media time `offset`. */
  function Sought(f: Frame, target: real, offset: real): Frame {
    var at := Min(Duration(f), Max(0.0, target - offset));
    f.(source := false, offset := at, played := at >= Duration(f))
  }

  function SoughtAll(frames: seq<Frame>, target: real, base: real): seq<Frame>
    decreases |frames|
  {
    if frames == [] then []
    else
      var before := frames[..|frames| - 1];
      SoughtAll(before, target, base) +
      [Sought(frames[|frames| - 1], target, base + Seconds(Samples(before, false)))]
  }

  /** The stream with the frames as decided, laid out anew from `now` on. */
  function Relaid(s: Stream, decided: seq<Frame>, rate: real, now: real): Stream
    requires rate > 0.0
  {
    var lengths := LastingAll(decided, rate);
    s.(latency := Latency(rate), rate := rate, frames := Laid(decided, lengths, now + LEAD, rate),
       cursor := Cursor(decided, lengths, now + LEAD))
  }

  /** `seekTo`, which refuses a target before the base offset. */
  function Seek(s: Stream, target: real, now: real): Stream
    requires s.rate > 0.0
  {
    if target < s.base then s
    else
      var decided := SoughtAll(s.frames, target, s.base);
      Relaid(s, decided, s.rate, now)
      .(played := Samples(decided, true), buffered := Samples(decided, false) - Samples(decided, true))
  }

  /** The first loop of `changeRate`: store how far an unplayed frame has come, and stop it. */
  function Halt(f: Frame, now: real, latency: real): Frame {
    if f.played then f
    else f.(offset := f.offset + Min(Duration(f) - f.offset, Max(0.0, now - f.start - latency) * f.rate), source := false)
  }

  /** The second: a frame this close to its end counts as played. */
  function Rounded(f: Frame): Frame {
    if !f.played && f.offset >= Duration(f) - SLACK then f.(played := true) else f
  }

  function Halted(frames: seq<Frame>, now: real, latency: real): (halted: seq<Frame>)
    ensures |halted| == |frames|
    decreases |frames|
  {
    if frames == [] then []
    else Halted(frames[..|frames| - 1], now, latency) + [Rounded(Halt(frames[|frames| - 1], now, latency))]
  }

  /** How many samples `gs` has marked played that `fs` has not. */
  function NewlyPlayed(fs: seq<Frame>, gs: seq<Frame>): int { Samples(gs, true) - Samples(fs, true) }

  function ChangeRate(s: Stream, rate: real, now: real): Stream
    requires rate > 0.0
  {
    var decided := Halted(s.frames, now, s.latency);
    var more := NewlyPlayed(s.frames, decided);
    Settle(Relaid(s, decided, rate, now).(played := s.played + more, buffered := s.buffered - more))
  }

  // ---------------------------------------------------------------- invariant

  ghost predicate FrameOk(f: Frame) { f.samples > 0 && 0.0 <= f.offset <= Duration(f) }

  ghost predicate Scheduled(f: Frame, rate: real) {
    && f.source == !f.played
    && (!f.played ==> f.rate == rate && f.start <= f.end)
  }

  /** Unplayed frames follow one another without overlap and end by `cursor`. */
  ghost predicate InSequence(frames: seq<Frame>, rate: real, cursor: real) {
    && (forall i :: 0 <= i < |frames| ==> FrameOk(frames[i]) && Scheduled(frames[i], rate))
    && (forall i :: 0 <= i < |frames| && !frames[i].played ==> frames[i].end <= cursor)
    && (forall i, j :: 0 <= i < j < |frames| && !frames[i].played && !frames[j].played ==>
          frames[i].end <= frames[j].start)
  }

  /** The marker of an unplayed frame is where the frame stops sounding. */
  ghost predicate Timed(frames: seq<Frame>) {
    forall i :: 0 <= i < |frames| && !frames[i].played ==>
      frames[i].rate > 0.0 && frames[i].end == frames[i].start + Lasting(frames[i], frames[i].rate)
  }

  /** played + buffered = total; each counts its frames; the skip drops exactly the heard prefix. */
  ghost predicate Balanced(s: Stream) {
    && s.played + s.buffered == s.total
    && s.played == Samples(s.frames, true)
    && s.total == Samples(s.frames, false)
    && s.total == s.received - MinInt(s.received, ToSkip(s))
  }

  ghost predicate Inv(s: Stream) {
    && s.rate > 0.0 && s.latency >= 0.0
    && InSequence(s.frames, s.rate, s.cursor)
    && Balanced(s)
    && (s.finished ==> s.done)
  }

  // ---------------------------------------------------------------- lemmas about the sums

  lemma {:induction false} SamplesAppend(frames: seq<Frame>, f: Frame, playedOnly: bool)
    ensures Samples(frames + [f], playedOnly) ==
            Samples(frames, playedOnly) + (if playedOnly && !f.played then 0 else f.samples)
  {
    assert (frames + [f])[..|frames|] == frames;
  }

  lemma {:induction false} HeardAppend(frames: seq<Frame>, f: Frame, now: real, latency: real)
    ensures HeardAll(frames + [f], now, latency) == HeardAll(frames, now, latency) + Heard(f, now, latency)
  {
    assert (frames + [f])[..|frames|] == frames;
  }

  /** Marking an unplayed frame played moves exactly its samples. */
  lemma {:induction false} SamplesMark(frames: seq<Frame>, i: nat, f: Frame)
    requires i < |frames| && !frames[i].played && f.played && f.samples == frames[i].samples
    ensures Samples(frames[i := f], false) == Samples(frames, false)
    ensures Samples(frames[i := f], true) == Samples(frames, true) + f.samples
    ensures Samples(frames, true) + f.samples <= Samples(frames, false)
    decreases |frames|
  {
    var last := |frames| - 1;
    var marked := frames[i := f];
    if i == last {
      assert marked[..last] == frames[..last];
      PlayedAtMostAll(frames[..last]);
    } else {
      assert marked[..last] == frames[..last][i := f];
      SamplesMark(frames[..last], i, f);
    }
  }

  lemma {:induction false} PlayedAtMostAll(frames: seq<Frame>)
    ensures 0 <= Samples(frames, true) <= Samples(frames, false)
    decreases |frames|
  {
    if frames != [] { PlayedAtMostAll(frames[..|frames| - 1]); }
  }

  /** If nothing is scheduled any more, everything has been played. */
  lemma {:induction false} AllPlayed(frames: seq<Frame>)
    requires forall i :: 0 <= i < |frames| ==> frames[i].played
    ensures Samples(frames, true) == Samples(frames, false)
    decreases |frames|
  {
    if frames != [] { AllPlayed(frames[..|frames| - 1]); }
  }

  /** The same frames as far as the ledger goes. */
  ghost predicate SameSamples(fs: seq<Frame>, gs: seq<Frame>) {
    |fs| == |gs| && forall i :: 0 <= i < |fs| ==> fs[i].samples == gs[i].samples
  }

  ghost predicate SameMarks(fs: seq<Frame>, gs: seq<Frame>) {
    SameSamples(fs, gs) && forall i :: 0 <= i < |fs| ==> fs[i].played == gs[i].played
  }

  lemma {:induction false} SameSamplesSum(fs: seq<Frame>, gs: seq<Frame>)
    requires SameSamples(fs, gs)
    ensures Samples(fs, false) == Samples(gs, false)
    ensures SameMarks(fs, gs) ==> Samples(fs, true) == Samples(gs, true)
    decreases |fs|
  {
    if fs != [] { SameSamplesSum(fs[..|fs| - 1], gs[..|gs| - 1]); }
  }

  /** Frames that have been heard equally far, one by one. */
  lemma {:induction false} HeardSame(fs: seq<Frame>, gs: seq<Frame>, now: real, a: real, b: real)
    requires |fs| == |gs| && forall i :: 0 <= i < |fs| ==> Heard(fs[i], now, a) == Heard(gs[i], now, b)
    ensures HeardAll(fs, now, a) == HeardAll(gs, now, b)
    decreases |fs|
  {
    if fs != [] { HeardSame(fs[..|fs| - 1], gs[..|gs| - 1], now, a, b); }
  }

  // ---------------------------------------------------------------- lemmas about laying out

  lemma {:induction false} LastingIsPositive(f: Frame, rate: real)
    requires FrameOk(f) && rate > 0.0
    ensures Lasting(f, rate) >= 0.0
  {
  }

  lemma {:induction false} LastingAt(frames: seq<Frame>, rate: real, i: nat)
    requires rate > 0.0 && i < |frames|
    ensures LastingAll(frames, rate)[i] == Lasting(frames[i], rate)
    decreases |frames|
  {
    if i < |frames| - 1 { LastingAt(frames[..|frames| - 1], rate, i); }
  }

  lemma {:induction false} HaltedAt(frames: seq<Frame>, now: real, latency: real, i: nat)
    requires i < |frames|
    ensures Halted(frames, now, latency)[i] == Rounded(Halt(frames[i], now, latency))
    decreases |frames|
  {
    if i < |frames| - 1 { HaltedAt(frames[..|frames| - 1], now, latency, i); }
  }

  lemma {:induction false} SequenceAppend(frames: seq<Frame>, f: Frame, rate: real, cursor: real, next: real)
    requires InSequence(frames, rate, cursor) && FrameOk(f) && Scheduled(f, rate)
    requires if f.played then next == cursor else cursor <= f.start && f.end == next
    ensures InSequence(frames + [f], rate, next)
  {
  }

  /** The frame as laid out differs from the one decided only in its source and times, and begins at or
      after `start`. */
  ghost predicate LaidFrom(f: Frame, g: Frame, start: real) {
    && g.samples == f.samples && g.played == f.played && g.offset == f.offset
    && (f.played ==> g == f) && (!f.played ==> g.source && g.start >= start)
  }

  lemma {:induction false} LaidInSequence(frames: seq<Frame>, lengths: seq<real>, start: real, rate: real, gs: seq<Frame>, cursor: real)
    requires |frames| == |lengths| && gs == Laid(frames, lengths, start, rate) && cursor == Cursor(frames, lengths, start)
    requires forall i :: 0 <= i < |frames| ==> FrameOk(frames[i]) && !frames[i].source && lengths[i] >= 0.0
    ensures InSequence(gs, rate, cursor) && cursor >= start
    ensures |gs| == |frames| && forall i :: 0 <= i < |frames| ==> LaidFrom(frames[i], gs[i], start)
    decreases |frames|
  {
    if frames != [] {
      var last := |frames| - 1;
      var f, at := frames[last], Cursor(frames[..last], lengths[..last], start);
      var before := Laid(frames[..last], lengths[..last], start, rate);
      LaidInSequence(frames[..last], lengths[..last], start, rate, before, at);
      SequenceAppend(before, if f.played then f else Placed(f, at, lengths[last], rate), rate, at, cursor);
    }
  }

  /** Each unplayed frame, as laid out, sounds for its own length at the new rate. */
  lemma {:induction false} LaidLengths(frames: seq<Frame>, lengths: seq<real>, start: real, rate: real, gs: seq<Frame>)
    requires |frames| == |lengths| && gs == Laid(frames, lengths, start, rate)
    ensures |gs| == |frames|
    ensures forall i :: 0 <= i < |frames| && !gs[i].played ==>
              gs[i] == Placed(frames[i], gs[i].start, lengths[i], rate)
    decreases |frames|
  {
    if frames != [] {
      var last := |frames| - 1;
      LaidLengths(frames[..last], lengths[..last], start, rate, Laid(frames[..last], lengths[..last], start, rate));
    }
  }

  lemma {:induction false} RelaidTimed(s: Stream, decided: seq<Frame>, rate: real, now: real)
    requires rate > 0.0
    ensures Timed(Relaid(s, decided, rate, now).frames)
  {
    var lengths := LastingAll(decided, rate);
    var gs := Laid(decided, lengths, now + LEAD, rate);
    LaidLengths(decided, lengths, now + LEAD, rate, gs);
    forall i | 0 <= i < |gs| && !gs[i].played
      ensures gs[i].rate > 0.0 && gs[i].end == gs[i].start + Lasting(gs[i], gs[i].rate)
    {
      LastingAt(decided, rate, i);
    }
  }

  /** What a layout makes of decided frames. */
  lemma {:induction false} RelaidInSequence(decided: seq<Frame>, rate: real, start: real, gs: seq<Frame>, cursor: real)
    requires rate > 0.0 && gs == Laid(decided, LastingAll(decided, rate), start, rate)
    requires cursor == Cursor(decided, LastingAll(decided, rate), start)
    requires forall i :: 0 <= i < |decided| ==> FrameOk(decided[i]) && !decided[i].source
    ensures InSequence(gs, rate, cursor)
    ensures |gs| == |decided| && forall i :: 0 <= i < |gs| ==> LaidFrom(decided[i], gs[i], start)
  {
    var lengths := LastingAll(decided, rate);
    forall i | 0 <= i < |decided| ensures lengths[i] >= 0.0 {
      LastingAt(decided, rate, i);
      LastingIsPositive(decided[i], rate);
    }
    LaidInSequence(decided, lengths, start, rate, gs, cursor);
  }

  /** A frame laid out after `now` has been heard as far as was decided. */
  lemma {:induction false} LaidIsNotHeardYet(f: Frame, g: Frame, now: real, latency: real)
    requires LaidFrom(f, g, now) && !f.source && latency >= 0.0
    ensures Heard(g, now, latency) == Heard(f, now, latency)
  {
    if !f.played { assert Max(0.0, now - g.start - latency) == 0.0; }
  }

  lemma {:induction false} LaidHeard(fs: seq<Frame>, gs: seq<Frame>, start: real, now: real, latency: real)
    requires |fs| == |gs| && now <= start && latency >= 0.0
    requires forall i :: 0 <= i < |fs| ==> LaidFrom(fs[i], gs[i], start) && !fs[i].source
    ensures HeardAll(gs, now, latency) == HeardAll(fs, now, latency)
  {
    forall i | 0 <= i < |fs| ensures Heard(gs[i], now, latency) == Heard(fs[i], now, latency) {
      LaidIsNotHeardYet(fs[i], gs[i], now, latency);
    }
    HeardSame(gs, fs, now, latency, latency);
  }

  /** What both rescheduling operations need of the frames they decided on. */
  ghost predicate Decided(s: Stream, decided: seq<Frame>) {
    SameSamples(decided, s.frames) &&
    forall i :: 0 <= i < |decided| ==> FrameOk(decided[i]) && !decided[i].source
  }

  lemma {:induction false} RelaidKeepsInv(s: Stream, decided: seq<Frame>, rate: real, now: real, t: Stream)
    requires Inv(s) && rate > 0.0 && Decided(s, decided)
    requires t == Relaid(s, decided, rate, now).(played := t.played, buffered := t.buffered)
    requires t.played == Samples(decided, true) && t.played + t.buffered == s.total
    ensures Inv(t)
  {
    RelaidInSequence(decided, rate, now + LEAD, t.frames, t.cursor);
    SameLedger(decided, t.frames, now + LEAD);
    SameSamplesSum(decided, s.frames);
  }

  lemma {:induction false} SameLedger(fs: seq<Frame>, gs: seq<Frame>, start: real)
    requires |fs| == |gs| && forall i :: 0 <= i < |gs| ==> LaidFrom(fs[i], gs[i], start)
    ensures Samples(gs, true) == Samples(fs, true) && Samples(gs, false) == Samples(fs, false)
  {
    SameSamplesSum(gs, fs);
  }

  lemma {:induction false} RelaidPosition(s: Stream, decided: seq<Frame>, rate: real, now: real)
    requires rate > 0.0 && Decided(s, decided)
    ensures Position(Relaid(s, decided, rate, now), now) == s.base + HeardAll(decided, now, Latency(rate))
  {
    var t := Relaid(s, decided, rate, now);
    RelaidInSequence(decided, rate, now + LEAD, t.frames, t.cursor);
    LaidHeard(decided, t.frames, now + LEAD, now, Latency(rate));
  }

  // ---------------------------------------------------------------- every step keeps the ledger

  /** The skip drops exactly the first `skip` samples, however they are cut into frames. */
  lemma {:induction false} KeptIsTheRest(received: nat, n: nat, skip: int)
    ensures
      var kept := n - MinInt(n, MaxInt(0, skip - received));
      received + n - MinInt(received + n, MaxInt(0, skip)) == received - MinInt(received, MaxInt(0, skip)) + kept
  {
  }

  lemma {:induction false} AppendBalances(s: Stream, n: nat, f: Frame, t: Stream)
    requires Balanced(s) && !f.played && f.samples == Kept(s, n)
    requires t.base == s.base && t.received == s.received + n && t.frames == s.frames + [f]
    requires t.played == s.played && t.total == s.total + f.samples && t.buffered == s.buffered + f.samples
    ensures Balanced(t)
  {
    SamplesAppend(s.frames, f, true);
    SamplesAppend(s.frames, f, false);
    KeptIsTheRest(s.received, n, SamplesIn(s.base));
  }

  lemma {:induction false} NewFrameFollows(s: Stream, kept: nat, now: real, startup: real)
    requires s.rate > 0.0 && kept > 0
    ensures
      var f := NewFrame(s, kept, now, startup);
      FrameOk(f) && Scheduled(f, s.rate) && !f.played && f.start >= s.cursor && f.samples == kept
  {
    LastingIsPositive(Frame(kept, false, 0.0, 0.0, s.rate, 0.0, false), s.rate);
  }

  lemma {:induction false} AppendKeepsInv(s: Stream, n: nat, f: Frame, t: Stream)
    requires Inv(s) && FrameOk(f) && Scheduled(f, s.rate) && !f.played && f.start >= s.cursor && f.samples == Kept(s, n)
    requires t == s.(received := s.received + n, started := true, cursor := f.end, frames := s.frames + [f],
                     total := s.total + f.samples, buffered := s.buffered + f.samples)
    ensures Inv(t)
  {
    AppendBalances(s, n, f, t);
    SequenceAppend(s.frames, f, s.rate, s.cursor, f.end);
  }

  lemma {:induction false} ArriveKeepsInv(s: Stream, n: nat, now: real, startup: real)
    requires Inv(s)
    ensures Inv(Arrive(s, n, now, startup))
  {
    var kept := Kept(s, n);
    if kept > 0 {
      NewFrameFollows(s, kept, now, startup);
      AppendKeepsInv(s, n, NewFrame(s, kept, now, startup), Arrive(s, n, now, startup));
    } else {
      KeptIsTheRest(s.received, n, SamplesIn(s.base));
    }
  }

  lemma {:induction false} MarkKeepsSequence(frames: seq<Frame>, i: nat, rate: real, cursor: real)
    requires InSequence(frames, rate, cursor) && i < |frames|
    ensures InSequence(frames[i := Marked(frames[i])], rate, cursor)
  {
  }

  lemma {:induction false} SettleKeepsInv(s: Stream)
    requires Inv(s)
    ensures Inv(Settle(s))
  {
  }

  lemma {:induction false} EndedKeepsInv(s: Stream, i: nat)
    requires Inv(s) && i < |s.frames|
    ensures Inv(Ended(s, i))
  {
    var f := s.frames[i];
    assert Scheduled(f, s.rate);
    if f.source {
      SamplesMark(s.frames, i, Marked(f));
      PlayedAtMostAll(s.frames);
      MarkKeepsSequence(s.frames, i, s.rate, s.cursor);
      var t := s.(frames := s.frames[i := Marked(f)], played := s.played + f.samples, buffered := s.buffered - f.samples);
      SettleKeepsInv(t);
    }
  }

  lemma {:induction false} SoughtIsDecided(frames: seq<Frame>, target: real, base: real)
    requires forall i :: 0 <= i < |frames| ==> FrameOk(frames[i])
    ensures
      var ds := SoughtAll(frames, target, base);
      && SameSamples(ds, frames)
      && forall i :: 0 <= i < |ds| ==> FrameOk(ds[i]) && !ds[i].source
    decreases |frames|
  {
    if frames != [] {
      var last := |frames| - 1;
      SoughtIsDecided(frames[..last], target, base);
      assert FrameOk(frames[last]);
    }
  }

  lemma {:induction false} SeekKeepsInv(s: Stream, target: real, now: real)
    requires Inv(s)
    ensures Inv(Seek(s, target, now))
  {
    if target >= s.base {
      var decided := SoughtAll(s.frames, target, s.base);
      SoughtIsDecided(s.frames, target, s.base);
      SameSamplesSum(decided, s.frames);
      RelaidKeepsInv(s, decided, s.rate, now, Seek(s, target, now));
    }
  }

  /** The frame stopped by a rate change: heard as far as before, or in full when within the slack. */
  lemma {:induction false} HaltBounds(f: Frame, rate: real, now: real, latency: real)
    requires FrameOk(f) && Scheduled(f, rate) && rate > 0.0
    ensures
      var h := Rounded(Halt(f, now, latency));
      && h.samples == f.samples && FrameOk(h) && !h.source && (f.played ==> h == f)
      && Heard(h, now, latency) ==
         (if Heard(f, now, latency) >= Duration(f) - SLACK then Duration(f) else Heard(f, now, latency))
  {
    if !f.played { assert Max(0.0, now - f.start - latency) * f.rate >= 0.0; }
  }

  lemma {:induction false} HaltedIsDecided(s: Stream, now: real)
    requires Inv(s)
    ensures Decided(s, Halted(s.frames, now, s.latency))
  {
    var ds := Halted(s.frames, now, s.latency);
    forall i | 0 <= i < |ds| ensures FrameOk(ds[i]) && !ds[i].source && ds[i].samples == s.frames[i].samples {
      HaltedAt(s.frames, now, s.latency, i);
      HaltBounds(s.frames[i], s.rate, now, s.latency);
    }
  }

  lemma {:induction false} ChangeRateKeepsInv(s: Stream, rate: real, now: real)
    requires Inv(s) && rate > 0.0
    ensures Inv(ChangeRate(s, rate, now))
  {
    HaltedIsDecided(s, now);
    var decided := Halted(s.frames, now, s.latency);
    Counted(s, decided);
    SettledRateKeepsInv(s, decided, rate, now, s.played + NewlyPlayed(s.frames, decided),
                        s.buffered - NewlyPlayed(s.frames, decided));
  }

  lemma {:induction false} Counted(s: Stream, decided: seq<Frame>)
    requires Balanced(s)
    ensures
      var more := NewlyPlayed(s.frames, decided);
      s.played + more == Samples(decided, true) && s.played + s.buffered == s.total
  {
  }

  lemma {:induction false} SettledRateKeepsInv(s: Stream, decided: seq<Frame>, rate: real, now: real, played: int, buffered: int)
    requires Inv(s) && rate > 0.0 && Decided(s, decided)
    requires played == Samples(decided, true) && played + buffered == s.total
    ensures Inv(Settle(Relaid(s, decided, rate, now).(played := played, buffered := buffered)))
  {
    var t := Relaid(s, decided, rate, now).(played := played, buffered := buffered);
    RelaidKeepsInv(s, decided, rate, now, t);
    SettleKeepsInv(t);
  }

  // ---------------------------------------------------------------- the position

  function Clamp(x: real, length: real): real { Min(length, Max(0.0, x)) }

  lemma {:induction false} ClampSplits(x: real, a: real, b: real)
    requires a >= 0.0 && b >= 0.0
    ensures Clamp(x, a) + Clamp(x - a, b) == Clamp(x, a + b)
  {
  }

  lemma {:induction false} SoughtHeard(f: Frame, target: real, offset: real, now: real, latency: real)
    ensures Heard(Sought(f, target, offset), now, latency) == Clamp(target - offset, Duration(f))
  {
  }

  lemma {:induction false} SoughtAllHeard(frames: seq<Frame>, target: real, base: real, now: real, latency: real)
    ensures HeardAll(SoughtAll(frames, target, base), now, latency) == Clamp(target - base, Seconds(Samples(frames, false)))
    decreases |frames|
  {
    if frames != [] {
      var last := |frames| - 1;
      var before, f := frames[..last], frames[last];
      var offset := base + Seconds(Samples(before, false));
      SoughtAllHeard(before, target, base, now, latency);
      SoughtHeard(f, target, offset, now, latency);
      HeardAppend(SoughtAll(before, target, base), Sought(f, target, offset), now, latency);
      PlayedAtMostAll(before);
      ClampSplits(target - base, Seconds(Samples(before, false)), Duration(f));
    }
  }

  /** After `seekTo(t)` the position is t, clamped to the end of the received audio. */
  lemma {:induction false} SeekSetsPosition(s: Stream, target: real, now: real)
    requires Inv(s) && target >= s.base
    ensures Position(Seek(s, target, now), now) == Min(target, Horizon(s))
  {
    var decided := SoughtAll(s.frames, target, s.base);
    SoughtIsDecided(s.frames, target, s.base);
    RelaidPosition(s, decided, s.rate, now);
    SoughtAllHeard(s.frames, target, s.base, now, Latency(s.rate));
    PlayedAtMostAll(s.frames);
  }

  /** Frames not marked played. */
  function Unplayed(frames: seq<Frame>): nat
    decreases |frames|
  {
    if frames == [] then 0
    else Unplayed(frames[..|frames| - 1]) + if frames[|frames| - 1].played then 0 else 1
  }

  /** 0.00001 s for each frame not marked played. */
  function MostSlack(frames: seq<Frame>): real { Unplayed(frames) as real * 0.00001 }

  /** The frame waits or sounds exactly the slack before its end. */
  predicate AtTheEdge(f: Frame, now: real, latency: real) { Heard(f, now, latency) == Duration(f) - SLACK }

  ghost predicate AllAtTheEdge(frames: seq<Frame>, now: real, latency: real) {
    forall i :: 0 <= i < |frames| ==> frames[i].played || AtTheEdge(frames[i], now, latency)
  }

  /** How far a rate change may move a frame. */
  function Slack(f: Frame): real { if f.played then 0.0 else SLACK }

  function SlackAll(frames: seq<Frame>): real
    decreases |frames|
  {
    if frames == [] then 0.0 else SlackAll(frames[..|frames| - 1]) + Slack(frames[|frames| - 1])
  }

  lemma {:induction false} SlackIsCounted(frames: seq<Frame>)
    ensures SlackAll(frames) == MostSlack(frames)
    decreases |frames|
  {
    if frames != [] { SlackIsCounted(frames[..|frames| - 1]); }
  }

  /** Frame `h` is heard as far as `f` or farther by at most its slack: by all of it exactly at the edge. */
  ghost predicate Nudged(f: Frame, h: Frame, now: real, latency: real) {
    && Heard(f, now, latency) <= Heard(h, now, latency) <= Heard(f, now, latency) + Slack(f)
    && (Heard(h, now, latency) == Heard(f, now, latency) + Slack(f) <==> f.played || AtTheEdge(f, now, latency))
  }

  lemma {:induction false} NudgedAll(fs: seq<Frame>, hs: seq<Frame>, now: real, latency: real)
    requires |fs| == |hs| && forall i :: 0 <= i < |fs| ==> Nudged(fs[i], hs[i], now, latency)
    ensures
      var before, after := HeardAll(fs, now, latency), HeardAll(hs, now, latency);
      && before <= after <= before + SlackAll(fs)
      && (after == before + SlackAll(fs) <==> AllAtTheEdge(fs, now, latency))
    decreases |fs|
  {
    if fs != [] {
      var last := |fs| - 1;
      NudgedAll(fs[..last], hs[..last], now, latency);
      assert Nudged(fs[last], hs[last], now, latency);
      assert AllAtTheEdge(fs, now, latency) <==>
             AllAtTheEdge(fs[..last], now, latency) && (fs[last].played || AtTheEdge(fs[last], now, latency)) by {
        assert forall i :: 0 <= i < last ==> fs[..last][i] == fs[i];
      }
    }
  }

  lemma {:induction false} HaltNudges(f: Frame, rate: real, now: real, latency: real)
    requires FrameOk(f) && Scheduled(f, rate) && rate > 0.0
    ensures Nudged(f, Rounded(Halt(f, now, latency)), now, latency)
  {
    HaltBounds(f, rate, now, latency);
  }

  lemma {:induction false} HeardWithoutSource(frames: seq<Frame>, now: real, a: real, b: real)
    requires forall i :: 0 <= i < |frames| ==> !frames[i].source
    ensures HeardAll(frames, now, a) == HeardAll(frames, now, b)
  {
    HeardSame(frames, frames, now, a, b);
  }

  /** `changeRate` never moves the position back, and forward by at most 0.00001 s for each frame that
      was not played yet: by all of that exactly when each of those is at its edge. */
  lemma {:induction false} ChangeRateKeepsPosition(s: Stream, rate: real, now: real)
    requires Inv(s) && rate > 0.0
    ensures
      var before, after := Position(s, now), Position(ChangeRate(s, rate, now), now);
      var most := before + MostSlack(s.frames);
      before <= after <= most && (after == most <==> AllAtTheEdge(s.frames, now, s.latency))
  {
    HaltedIsDecided(s, now);
    var decided := Halted(s.frames, now, s.latency);
    forall i | 0 <= i < |decided| ensures Nudged(s.frames[i], decided[i], now, s.latency) {
      HaltedAt(s.frames, now, s.latency, i);
      HaltNudges(s.frames[i], s.rate, now, s.latency);
    }
    DecidedRatePosition(s, decided, rate, now);
    SlackIsCounted(s.frames);
  }

  lemma {:induction false} DecidedRatePosition(s: Stream, decided: seq<Frame>, rate: real, now: real)
    requires rate > 0.0 && Decided(s, decided)
    requires forall i :: 0 <= i < |decided| ==> Nudged(s.frames[i], decided[i], now, s.latency)
    ensures
      var before, after := Position(s, now), Position(Relaid(s, decided, rate, now), now);
      && before <= after <= before + SlackAll(s.frames)
      && (after == before + SlackAll(s.frames) <==> AllAtTheEdge(s.frames, now, s.latency))
  {
    RelaidPosition(s, decided, rate, now);
    HeardWithoutSource(decided, now, Latency(rate), s.latency);
    NudgedAll(s.frames, decided, now, s.latency);
  }

  /** So the bound is strict exactly when some unplayed frame has been heard to any other point than
      0.00001 s before its end. */
  lemma {:induction false} ChangeRateIsStrictExactlyWhen(s: Stream, rate: real, now: real)
    requires Inv(s) && rate > 0.0
    ensures Position(ChangeRate(s, rate, now), now) < Position(s, now) + MostSlack(s.frames)
            <==> exists i :: 0 <= i < |s.frames| && !s.frames[i].played &&
                             Heard(s.frames[i], now, s.latency) != Duration(s.frames[i]) - SLACK
  {
    ChangeRateKeepsPosition(s, rate, now);
    assert AllAtTheEdge(s.frames, now, s.latency) <==>
           !exists i :: 0 <= i < |s.frames| && !s.frames[i].played && !AtTheEdge(s.frames[i], now, s.latency);
  }

  // ---------------------------------------------------------------- continuity

  lemma {:induction false} MultiplyMonotone(a: real, b: real, c: real, x: real, y: real)
    requires a <= b && c > 0.0 && x == a * c && y == b * c
    ensures x <= y
  {
    assert (b - a) * c >= 0.0;
    assert (b - a) * c == b * c - a * c;
  }

  lemma {:induction false} HeardIs(f: Frame, now: real, latency: real, x: real)
    requires !f.played && f.source && x == Max(0.0, now - f.start - latency) * f.rate
    ensures Heard(f, now, latency) == Min(Duration(f), f.offset + x)
  {
  }

  lemma {:induction false} HeardGrows(f: Frame, rate: real, now: real, later: real, latency: real)
    requires FrameOk(f) && Scheduled(f, rate) && rate > 0.0 && now <= later
    ensures Heard(f, now, latency) <= Heard(f, later, latency) <= Duration(f)
  {
    if !f.played {
      var a, b := Max(0.0, now - f.start - latency), Max(0.0, later - f.start - latency);
      var x, y := a * f.rate, b * f.rate;
      MultiplyMonotone(a, b, f.rate, x, y);
      HeardIs(f, now, latency, x);
      HeardIs(f, later, latency, y);
      MinGrows(Duration(f), f.offset, x, y);
    }
  }

  lemma {:induction false} MinGrows(d: real, o: real, x: real, y: real)
    requires x <= y
    ensures Min(d, o + x) <= Min(d, o + y) <= d
  {
  }

  /** Left alone, the position only grows with time, up to the end of the received audio. */
  lemma {:induction false} PositionGrows(frames: seq<Frame>, rate: real, now: real, later: real, latency: real)
    requires rate > 0.0 && now <= later
    requires forall i :: 0 <= i < |frames| ==> FrameOk(frames[i]) && Scheduled(frames[i], rate)
    ensures HeardAll(frames, now, latency) <= HeardAll(frames, later, latency) <= Seconds(Samples(frames, false))
    decreases |frames|
  {
    if frames != [] {
      HeardGrows(frames[|frames| - 1], rate, now, later, latency);
      PositionGrows(frames[..|frames| - 1], rate, now, later, latency);
    }
  }

  /** New audio never shifts the position: it is scheduled in the future. */
  lemma {:induction false} ArriveKeepsPosition(s: Stream, n: nat, now: real, startup: real)
    requires Inv(s) && startup >= 0.0
    ensures Position(Arrive(s, n, now, startup), now) == Position(s, now)
  {
    var kept := Kept(s, n);
    if kept > 0 {
      var f := NewFrame(s, kept, now, startup);
      LaidIsNotHeardYet(f.(source := false), f, now, s.latency);
      HeardAppend(s.frames, f, now, s.latency);
    }
  }

  /** A frame that has sounded to its end, pitch delay included, was already heard in full. */
  lemma {:induction false} SoundedIsHeard(f: Frame, now: real, latency: real)
    requires FrameOk(f) && f.source && !f.played && f.rate > 0.0 && latency >= 0.0
    requires f.end == f.start + Lasting(f, f.rate) && now >= f.end + latency
    ensures Heard(f, now, latency) == Duration(f)
  {
    var left := Duration(f) - f.offset;
    var elapsed := now - f.start - latency;
    assert elapsed >= left / f.rate >= 0.0;
    assert left / f.rate * f.rate == left;
    MultiplyMonotone(left / f.rate, elapsed, f.rate, left, elapsed * f.rate);
  }

  lemma {:induction false} EndedKeepsPosition(s: Stream, i: nat, now: real)
    requires Inv(s) && Timed(s.frames) && i < |s.frames|
    requires s.frames[i].source ==> now >= s.frames[i].end + s.latency
    ensures Position(Ended(s, i), now) == Position(s, now)
  {
    var f := s.frames[i];
    assert FrameOk(f) && Scheduled(f, s.rate);
    if f.source {
      SoundedIsHeard(f, now, s.latency);
      HeardSame(s.frames[i := Marked(f)], s.frames, now, s.latency, s.latency);
    }
  }

  // ---------------------------------------------------------------- whole runs

  function Start(base: real, rate: real, cursor: real): Stream {
    Stream(base, 0, 0, 0, 0, cursor, rate, Latency(rate), false, false, false, [])
  }

  datatype Event =
    | Arrival(n: nat, startup: real)
    | FrameEnd(i: nat)
    | Terminator
    | SeekTo(target: real)
    | RateTo(rate: real)

  predicate Enabled(s: Stream, e: Event) {
    match e
    case Arrival(_, startup) => startup >= 0.0
    case FrameEnd(i) => i < |s.frames|
    case RateTo(rate) => rate > 0.0
    case _ => true
  }

  function Step(s: Stream, e: Event, now: real): Stream
    requires s.rate > 0.0 && Enabled(s, e)
  {
    match e
    case Arrival(n, startup) => Arrive(s, n, now, startup)
    case FrameEnd(i) => Ended(s, i)
    case Terminator => Terminated(s)
    case SeekTo(target) => Seek(s, target, now)
    case RateTo(rate) => ChangeRate(s, rate, now)
  }

  lemma {:induction false} StepKeepsInv(s: Stream, e: Event, now: real)
    requires Inv(s) && Enabled(s, e)
    ensures Inv(Step(s, e, now)) && Step(s, e, now).base == s.base
  {
    match e
    case Arrival(n, startup) => ArriveKeepsInv(s, n, now, startup);
    case FrameEnd(i) => EndedKeepsInv(s, i);
    case Terminator => SettleKeepsInv(s.(done := true));
    case SeekTo(target) => SeekKeepsInv(s, target, now);
    case RateTo(rate) => ChangeRateKeepsInv(s, rate, now);
  }

  lemma {:induction false} StepKeepsTimed(s: Stream, e: Event, now: real)
    requires s.rate > 0.0 && Enabled(s, e) && Timed(s.frames)
    ensures Timed(Step(s, e, now).frames)
  {
    match e
    case Arrival(n, startup) =>
    case FrameEnd(i) =>
    case Terminator =>
    case SeekTo(target) => RelaidTimed(s, SoughtAll(s.frames, target, s.base), s.rate, now);
    case RateTo(rate) => RelaidTimed(s, Halted(s.frames, now, s.latency), rate, now);
  }

  ghost predicate IsRun(s: Stream, events: seq<(Event, real)>)
    decreases |events|
  {
    events == [] ||
    (s.rate > 0.0 && Enabled(s, events[0].0) && IsRun(Step(s, events[0].0, events[0].1), events[1..]))
  }

  ghost function Run(s: Stream, events: seq<(Event, real)>): Stream
    requires IsRun(s, events)
    decreases |events|
  {
    if events == [] then s else Run(Step(s, events[0].0, events[0].1), events[1..])
  }

  lemma {:induction false} RunKeepsInv(s: Stream, events: seq<(Event, real)>)
    requires Inv(s) && Timed(s.frames) && IsRun(s, events)
    ensures Inv(Run(s, events)) && Timed(Run(s, events).frames) && Run(s, events).base == s.base
    decreases |events|
  {
    if events != [] {
      StepKeepsInv(s, events[0].0, events[0].1);
      StepKeepsTimed(s, events[0].0, events[0].1);
      RunKeepsInv(Step(s, events[0].0, events[0].1), events[1..]);
    }
  }

  /** The ledger balances against the marks of the frames, the resume skip has dropped exactly the part
      already heard, and scheduled frames never overlap and end by `cursor`. */
  ghost predicate Conserved(s: Stream) {
    && s.played + s.buffered == s.total
    && s.played == Samples(s.frames, true) && s.total == Samples(s.frames, false)
    && s.total == s.received - MinInt(s.received, MaxInt(0, SamplesIn(s.base)))
    && InSequence(s.frames, s.rate, s.cursor) && Timed(s.frames)
  }

  /** Over every sequence of arrivals, frame ends, seeks and rate changes, at any times. */
  lemma {:induction false} LedgerIsConserved(base: real, rate: real, cursor: real, events: seq<(Event, real)>)
    requires rate > 0.0 && IsRun(Start(base, rate, cursor), events)
    ensures Conserved(Run(Start(base, rate, cursor), events))
    ensures Run(Start(base, rate, cursor), events).base == base
  {
    RunKeepsInv(Start(base, rate, cursor), events);
  }

  /** Only an explicit seek moves the position back. */
  lemma {:induction false} OnlySeekMovesBack(s: Stream, e: Event, now: real)
    requires Inv(s) && Timed(s.frames) && Enabled(s, e) && !e.SeekTo?
    requires e.FrameEnd? && s.frames[e.i].source ==> now >= s.frames[e.i].end + s.latency
    ensures Position(Step(s, e, now), now) >= Position(s, now)
  {
    match e
    case Arrival(n, startup) => ArriveKeepsPosition(s, n, now, startup);
    case FrameEnd(i) => EndedKeepsPosition(s, i, now);
    case Terminator =>
    case RateTo(rate) => ChangeRateKeepsPosition(s, rate, now);
  }

  // ---------------------------------------------------------------- a run at the edge

  lemma {:induction false} RunThenStep(s: Stream, events: seq<(Event, real)>, e: Event, now: real)
    requires IsRun(s, events) && Run(s, events).rate > 0.0 && Enabled(Run(s, events), e)
    ensures IsRun(s, events + [(e, now)])
    ensures Run(s, events + [(e, now)]) == Step(Run(s, events), e, now)
    decreases |events|
  {
    var more := events + [(e, now)];
    if events == [] {
      assert more[1..] == [];
    } else {
      assert more[1..] == events[1..] + [(e, now)];
      RunThenStep(Step(s, events[0].0, events[0].1), events[1..], e, now);
    }
  }

  lemma {:induction false} OneFrame(f: Frame, now: real, latency: real)
    ensures Samples([f], false) == f.samples && Samples([], false) == 0
    ensures Unplayed([f]) == if f.played then 0 else 1
    ensures HeardAll([f], now, latency) == Heard(f, now, latency)
  {
    assert [f][..0] == [];
  }

  lemma {:induction false} StepReached(s: Stream, e: Event, now: real, t: Stream)
    requires s.rate > 0.0 && Enabled(s, e) && t == Step(s, e, now)
    ensures IsRun(s, [(e, now)]) && Run(s, [(e, now)]) == t
  {
    var events := [(e, now)];
    assert events[1..] == [];
    assert IsRun(t, events[1..]) && Run(t, events[1..]) == t;
  }

  /** A seek into the only frame. */
  lemma {:induction false} SeekInOneFrame(s: Stream, target: real, now: real)
    requires s.base == 0.0 && s.rate == 1.0 && |s.frames| == 1 && FrameOk(s.frames[0])
    requires 0.0 <= target < Duration(s.frames[0])
    ensures
      var t := Seek(s, target, now);
      && t.rate == 1.0 && t.latency == 0.0 && |t.frames| == 1 && t.frames[0].samples == s.frames[0].samples
      && !t.frames[0].played && Heard(t.frames[0], now, 0.0) == target
  {
    var f, t, decided := s.frames[0], Seek(s, target, now), SoughtAll(s.frames, target, s.base);
    assert s.frames[..0] == [] && Samples(s.frames[..0], false) == 0;
    SoughtAt(s.frames, target, s.base, 0);
    SoughtIsDecided(s.frames, target, s.base);
    RelaidInSequence(decided, s.rate, now + LEAD, t.frames, t.cursor);
    SoughtHeard(f, target, s.base, now, 0.0);
    LaidIsNotHeardYet(decided[0], t.frames[0], now, 0.0);
  }

  /** The stream after the seek. */
  lemma {:induction false} EdgeIsSought(s: Stream, target: real, now: real)
    requires Inv(s) && s.base == 0.0 && s.rate == 1.0 && |s.frames| == 1
    requires 0.0 <= target < Duration(s.frames[0])
    ensures
      var t := Seek(s, target, now);
      && Inv(t) && t.rate == 1.0 && t.latency == 0.0 && |t.frames| == 1
      && !t.frames[0].played && t.frames[0].samples == s.frames[0].samples && Heard(t.frames[0], now, 0.0) == target
  {
    assert FrameOk(s.frames[0]);
    SeekKeepsInv(s, target, now);
    SeekInOneFrame(s, target, now);
  }

  /** The only frame is unplayed and at the edge, and nothing has sounded yet. */
  ghost predicate OnTheEdge(s: Stream) {
    && Inv(s) && s.latency == 0.0
    && |s.frames| == 1 && !s.frames[0].played && AtTheEdge(s.frames[0], 0.0, 0.0)
  }

  lemma {:induction false} EdgeMoves(s: Stream, rate: real)
    requires OnTheEdge(s) && rate > 0.0
    ensures Unplayed(s.frames) == 1
    ensures Position(ChangeRate(s, rate, 0.0), 0.0) == Position(s, 0.0) + SLACK
  {
    assert s.frames == [s.frames[0]];
    OneFrame(s.frames[0], 0.0, 0.0);
    ChangeRateKeepsPosition(s, rate, 0.0);
  }

  /** A stream with one frame of `n` samples that starts the block. */
  ghost predicate OneFrameOf(s: Stream, n: nat) {
    && Inv(s) && s.base == 0.0 && s.rate == 1.0 && !s.done
    && |s.frames| == 1 && s.frames[0].samples == n && !s.frames[0].played
  }

  lemma {:induction false} KeepsAll(s: Stream, n: nat)
    requires s.base == 0.0 && s.received == 0
    ensures Kept(s, n) == n
  {
    assert Round(0.0) == 0;
  }

  lemma {:induction false} FirstFrame(s: Stream, n: nat, t: Stream)
    requires Fresh(s) && Kept(s, n) == n > 0
    requires t == Arrive(s, n, 0.0, 0.2)
    ensures OneFrameOf(t, n)
  {
    ArriveKeepsInv(s, n, 0.0, 0.2);
    NewFrameFollows(s, n, 0.0, 0.2);
  }

  /** Nothing has arrived yet of a block that is played from its beginning at normal speed. */
  ghost predicate Fresh(s: Stream) {
    Inv(s) && s.base == 0.0 && s.rate == 1.0 && s.frames == [] && s.received == 0 && !s.done
  }

  lemma {:induction false} StartIsFresh(base: real, rate: real, cursor: real)
    requires base == 0.0 && rate == 1.0
    ensures Fresh(Start(base, rate, cursor))
  {
  }

  lemma {:induction false} OneFrameArrives(s: Stream, n: nat) returns (events: seq<(Event, real)>)
    requires Fresh(s) && n > 0
    ensures IsRun(s, events) && OneFrameOf(Run(s, events), n)
  {
    KeepsAll(s, n);
    var t := Arrive(s, n, 0.0, 0.2);
    FirstFrame(s, n, t);
    StepReached(s, Arrival(n, 0.2), 0.0, t);
    events := [(Arrival(n, 0.2), 0.0)];
  }

  /** One frame of audio arrives and is sought to 0.00001 s before its end. */
  lemma {:induction false} EdgeIsReached(s: Stream, n: nat) returns (events: seq<(Event, real)>)
    requires Fresh(s) && n > 0 && Seconds(n) >= SLACK
    ensures IsRun(s, events) && OnTheEdge(Run(s, events))
  {
    events := OneFrameArrives(s, n);
    var target := Seconds(n) - SLACK;
    EdgeIsSought(Run(s, events), target, 0.0);
    RunThenStep(s, events, SeekTo(target), 0.0);
    events := events + [(SeekTo(target), 0.0)];
  }

  /** The bound of a rate change is reached in a run, whatever the frame and the new rate, so it cannot be
      made strict. */
  lemma {:induction false} SlackIsReached(s: Stream, cursor: real, n: nat, rate: real) returns (events: seq<(Event, real)>)
    requires s == Start(0.0, 1.0, cursor) && n > 0 && Seconds(n) >= SLACK && rate > 0.0
    ensures
      var changed := events + [(RateTo(rate), 0.0)];
      && IsRun(s, events) && IsRun(s, changed) && Unplayed(Run(s, events).frames) == 1
      && Position(Run(s, changed), 0.0) == Position(Run(s, events), 0.0) + SLACK
  {
    StartIsFresh(0.0, 1.0, cursor);
    events := EdgeIsReached(s, n);
    EdgeMoves(Run(s, events), rate);
    RunThenStep(s, events, RateTo(rate), 0.0);
  }

  // ---------------------------------------------------------------- the schedule

  /** What is left to hear of the unplayed frames, in media seconds. */
  function Left(frames: seq<Frame>): real
    decreases |frames|
  {
    if frames == [] then 0.0
    else
      var f := frames[|frames| - 1];
      Left(frames[..|frames| - 1]) + if f.played then 0.0 else Duration(f) - f.offset
  }

  /** The unplayed frames sound one right after the other, the first from `start` on, the last until `end`. */
  ghost predicate Contiguous(frames: seq<Frame>, start: real, end: real)
    decreases |frames|
  {
    if frames == [] then start == end
    else
      var f, before := frames[|frames| - 1], frames[..|frames| - 1];
      if f.played then Contiguous(before, start, end) else f.end == end && Contiguous(before, start, f.start)
  }

  lemma {:induction false} LaidIsContiguous(frames: seq<Frame>, lengths: seq<real>, start: real, rate: real, gs: seq<Frame>)
    requires |frames| == |lengths| && gs == Laid(frames, lengths, start, rate)
    ensures Contiguous(gs, start, Cursor(frames, lengths, start))
    decreases |frames|
  {
    if frames != [] {
      var last := |frames| - 1;
      var before := Laid(frames[..last], lengths[..last], start, rate);
      LaidIsContiguous(frames[..last], lengths[..last], start, rate, before);
      assert gs[..|gs| - 1] == before;
    }
  }

  lemma {:induction false} Distribute(x: real, l: real, rate: real, xr: real, lr: real)
    requires xr == x * rate && lr == l * rate
    ensures (x + l) * rate == xr + lr
  {
  }

  lemma {:induction false} LastingTimesRate(f: Frame, rate: real)
    requires rate > 0.0
    ensures Lasting(f, rate) * rate == Duration(f) - f.offset
  {
  }

  /** Unplayed frames that sound one right after the other, each for what is left of it at `rate`, take
      together as long as all that is left takes. */
  lemma {:induction false} ContiguousLasts(frames: seq<Frame>, start: real, end: real, rate: real)
    requires rate > 0.0 && Contiguous(frames, start, end) && AtRate(frames, rate)
    ensures (end - start) * rate == Left(frames)
    decreases |frames|
  {
    if frames != [] {
      var last := |frames| - 1;
      var f, before := frames[last], frames[..last];
      if f.played {
        ContiguousLasts(before, start, end, rate);
      } else {
        ContiguousLasts(before, start, f.start, rate);
        LastingTimesRate(f, rate);
        Distribute(f.start - start, Lasting(f, rate), rate, Left(before), Duration(f) - f.offset);
        assert end - start == (f.start - start) + Lasting(f, rate);
      }
    }
  }

  /** Every unplayed frame is scheduled at `rate`, for what is left of it. */
  ghost predicate AtRate(frames: seq<Frame>, rate: real)
    requires rate > 0.0
  {
    forall i :: 0 <= i < |frames| && !frames[i].played ==>
      frames[i].source && frames[i].rate == rate && frames[i].end == frames[i].start + Lasting(frames[i], rate)
  }

  /** A fresh schedule: from 0.01 s after `now`, without gaps, all at one rate; the pitch processor delays it
      by 0.12 s except at rate 1. */
  ghost predicate FreshSchedule(t: Stream, rate: real, now: real)
    requires rate > 0.0
  {
    && t.rate == rate && t.latency == (if rate == 1.0 then 0.0 else 0.12)
    && AtRate(t.frames, rate)
    && Contiguous(t.frames, now + 0.01, t.cursor)
  }

  lemma {:induction false} LaidAtRate(decided: seq<Frame>, rate: real, start: real, gs: seq<Frame>)
    requires rate > 0.0 && gs == Laid(decided, LastingAll(decided, rate), start, rate)
    ensures AtRate(gs, rate)
  {
    var lengths := LastingAll(decided, rate);
    LaidLengths(decided, lengths, start, rate, gs);
    forall i | 0 <= i < |gs| && !gs[i].played
      ensures gs[i].source && gs[i].rate == rate && gs[i].end == gs[i].start + Lasting(gs[i], rate)
    {
      LastingAt(decided, rate, i);
    }
  }

  lemma {:induction false} RelaidIsFresh(s: Stream, decided: seq<Frame>, rate: real, now: real, t: Stream)
    requires rate > 0.0 && t == Relaid(s, decided, rate, now)
    ensures FreshSchedule(t, rate, now)
  {
    LaidAtRate(decided, rate, now + LEAD, t.frames);
    LaidIsContiguous(decided, LastingAll(decided, rate), now + LEAD, rate, t.frames);
  }

  /** What is left then takes its media time divided by the rate. */
  lemma {:induction false} FreshScheduleLasts(t: Stream, rate: real, now: real)
    requires rate > 0.0 && FreshSchedule(t, rate, now)
    ensures (t.cursor - (now + 0.01)) * rate == Left(t.frames)
  {
    ContiguousLasts(t.frames, now + 0.01, t.cursor, rate);
  }

  /** After a rate change everything that is left plays at the new rate, without gaps, from then on. */
  lemma {:induction false} ChangeRateTakesEffect(s: Stream, rate: real, now: real)
    requires rate > 0.0
    ensures FreshSchedule(ChangeRate(s, rate, now), rate, now)
  {
    var decided := Halted(s.frames, now, s.latency);
    RelaidIsFresh(s, decided, rate, now, Relaid(s, decided, rate, now));
  }

  /** So does everything from the target on after a seek, at the rate there is; a target before the base
      changes nothing. */
  lemma {:induction false} SeekTakesEffect(s: Stream, target: real, now: real)
    requires s.rate > 0.0
    ensures if target < s.base then Seek(s, target, now) == s else FreshSchedule(Seek(s, target, now), s.rate, now)
  {
    if target >= s.base {
      var decided := SoughtAll(s.frames, target, s.base);
      RelaidIsFresh(s, decided, s.rate, now, Relaid(s, decided, s.rate, now));
    }
  }

  /** Audio that arrives is one more frame of the samples that are not skipped, right behind the others or,
      when they have run out, from now on; the first one waits for the startup delay. */
  lemma {:induction false} ArriveTakesEffect(s: Stream, n: nat, now: real, startup: real)
    requires Inv(s)
    ensures
      var t := Arrive(s, n, now, startup);
      t.received == s.received + n &&
      if t.total == s.total then t == s.(received := t.received)
      else
        var f := t.frames[|t.frames| - 1];
        && t.frames == s.frames + [f] && f.samples == t.total - s.total && t.started
        && f.source && !f.played && f.offset == 0.0 && f.rate == s.rate
        && f.start == (if s.started then Max(s.cursor, now) else Max(s.cursor, now + startup))
        && (f.end - f.start) * s.rate == Seconds(f.samples) && t.cursor == f.end
  {
    var kept := Kept(s, n);
    if kept > 0 { LastingTimesRate(Frame(kept, false, 0.0, 0.0, s.rate, 0.0, false), s.rate); }
  }

  /** A frame whose marker fires is played, and its samples move from buffered to played; a marker that is
      no longer that of the frame does nothing. */
  lemma {:induction false} EndedTakesEffect(s: Stream, i: nat)
    requires Inv(s) && i < |s.frames|
    ensures
      var t, f := Ended(s, i), s.frames[i];
      if !f.source then t == s
      else
        && t.frames == s.frames[i := f.(source := false, played := true)]
        && t.played == s.played + f.samples && t.buffered == s.buffered - f.samples && t.total == s.total
        && t.finished == (s.finished || (s.done && forall k :: 0 <= k < |s.frames| && k != i ==> !s.frames[k].source))
  {
    EndedKeepsInv(s, i);
    assert Scheduled(s.frames[i], s.rate);
    if s.frames[i].source {
      var t := Ended(s, i);
      SamplesMark(s.frames, i, Marked(s.frames[i]));
      assert forall k :: 0 <= k < |s.frames| && k != i ==> t.frames[k] == s.frames[k];
      assert !t.frames[i].source;
    }
  }

  /** The terminator finishes playback exactly when nothing is left to sound. */
  lemma {:induction false} TerminatorTakesEffect(s: Stream)
    requires Inv(s)
    ensures
      var t := Terminated(s);
      && t.done && t.frames == s.frames && t.cursor == s.cursor
      && t.finished == (s.finished || forall k :: 0 <= k < |s.frames| ==> s.frames[k].played)
  {
    assert forall k :: 0 <= k < |s.frames| ==> Scheduled(s.frames[k], s.rate);
  }

  /** While a frame sounds, the position moves on at its rate, from its offset when the sound comes out of
      the pitch processor to its end. */
  lemma {:induction false} HeardIsPlayback(f: Frame, elapsed: real, latency: real)
    requires FrameOk(f) && f.source && !f.played && f.rate > 0.0 && f.end == f.start + Lasting(f, f.rate)
    requires 0.0 <= elapsed <= f.end - f.start
    ensures Heard(f, f.start + latency + elapsed, latency) == f.offset + elapsed * f.rate
    ensures Heard(f, f.start + latency, latency) == f.offset && Heard(f, f.end + latency, latency) == Duration(f)
  {
    LastingTimesRate(f, f.rate);
    MultiplyMonotone(elapsed, Lasting(f, f.rate), f.rate, elapsed * f.rate, Duration(f) - f.offset);
    HeardIs(f, f.start + latency + elapsed, latency, elapsed * f.rate);
    HeardIs(f, f.end + latency, latency, Duration(f) - f.offset);
    HeardIs(f, f.start + latency, latency, 0.0);
  }

  lemma {:induction false} StepStarts(s: Stream, e: Event, now: real)
    requires Inv(s) && Enabled(s, e) && (s.started <==> s.frames != [])
    ensures Step(s, e, now).started <==> Step(s, e, now).frames != []
  {
    match e
    case Arrival(n, startup) => ArriveTakesEffect(s, n, now, startup);
    case FrameEnd(i) => EndedTakesEffect(s, i);
    case Terminator => TerminatorTakesEffect(s);
    case SeekTo(target) =>
    case RateTo(rate) =>
  }

  lemma {:induction false} RunStarts(s: Stream, events: seq<(Event, real)>)
    requires Inv(s) && IsRun(s, events) && (s.started <==> s.frames != [])
    ensures Run(s, events).started <==> Run(s, events).frames != []
    decreases |events|
  {
    if events != [] {
      StepStarts(s, events[0].0, events[0].1);
      StepKeepsInv(s, events[0].0, events[0].1);
      RunStarts(Step(s, events[0].0, events[0].1), events[1..]);
    }
  }

  /** Over every run: the startup delay is for the first audio that is kept, and for no other. */
  lemma {:induction false} StartedExactlyWhen(base: real, rate: real, cursor: real, events: seq<(Event, real)>)
    requires rate > 0.0 && IsRun(Start(base, rate, cursor), events)
    ensures
      var s := Run(Start(base, rate, cursor), events);
      s.started <==> s.frames != []
  {
    RunStarts(Start(base, rate, cursor), events);
  }

  /** Audio is counted at 24 000 samples a second, and a resume position to the nearest sample. */
  lemma {:induction false} SampleClock(n: int, seconds: real)
    ensures Seconds(n) * 24000.0 == n as real
    ensures SamplesIn(seconds) as real - 0.5 <= seconds * 24000.0 < SamplesIn(seconds) as real + 0.5
  {
  }

  // ---------------------------------------------------------------- the end of playback

  /** Playback is declared finished only when every received sample has been played. */
  lemma {:induction false} FinishMeansPlayed(s: Stream, e: Event, now: real)
    requires Inv(s) && Enabled(s, e) && !s.finished && Step(s, e, now).finished
    ensures Step(s, e, now).played == Step(s, e, now).total && Step(s, e, now).buffered == 0
  {
    StepKeepsInv(s, e, now);
    var t := Step(s, e, now);
    forall i | 0 <= i < |t.frames| ensures t.frames[i].played { assert Scheduled(t.frames[i], t.rate); }
    AllPlayed(t.frames);
  }

  /** The network is done and nothing will sound any more, but playback is not declared finished. */
  ghost predicate Stuck(s: Stream) { s.done && NoSources(s.frames) && !s.finished }

  lemma {:induction false} SoughtAllPlayed(frames: seq<Frame>, target: real, base: real)
    requires frames != [] && forall i :: 0 <= i < |frames| ==> FrameOk(frames[i])
    ensures
      var ds := SoughtAll(frames, target, base);
      && |ds| == |frames|
      && ((forall i :: 0 <= i < |ds| ==> ds[i].played) <==> target >= base + Seconds(Samples(frames, false)))
    decreases |frames|
  {
    var last := |frames| - 1;
    var before, f := frames[..last], frames[last];
    var ds, d := SoughtAll(before, target, base), Sought(f, target, base + Seconds(Samples(before, false)));
    assert FrameOk(f) && SoughtAll(frames, target, base) == ds + [d];
    assert d.played <==> target >= base + Seconds(Samples(frames, false));
    SoughtIsDecided(before, target, base);
    if before != [] { SoughtAllPlayed(before, target, base); }
    assert forall i :: 0 <= i < |ds| ==> (ds + [d])[i] == ds[i];
  }

  lemma {:induction false} SeekSticksExactlyWhen(s: Stream, target: real, now: real)
    requires Inv(s) && target >= s.base && s.frames != []
    ensures NoSources(Seek(s, target, now).frames) <==> target >= Horizon(s)
  {
    var decided := SoughtAll(s.frames, target, s.base);
    var t := Seek(s, target, now);
    SoughtIsDecided(s.frames, target, s.base);
    SoughtAllPlayed(s.frames, target, s.base);
    RelaidInSequence(decided, s.rate, now + LEAD, t.frames, t.cursor);
    forall i | 0 <= i < |decided| ensures t.frames[i].source == !decided[i].played {
      assert LaidFrom(decided[i], t.frames[i], now + LEAD) && Scheduled(t.frames[i], s.rate);
    }
  }

  /** `seekTo` is the one operation that never declares playback finished: a stream gets stuck exactly
      by a seek to or past the end of audio that is all there and not finished yet. */
  lemma {:induction false} StuckExactlyAfterSeekPastEnd(s: Stream, e: Event, now: real)
    requires Inv(s) && Enabled(s, e) && !Stuck(s)
    ensures Stuck(Step(s, e, now)) <==>
            e.SeekTo? && s.done && !s.finished && e.target >= s.base && e.target >= Horizon(s)
  {
    match e
    case Arrival(n, startup) =>
      var t := Arrive(s, n, now, startup);
      assert Kept(s, n) > 0 ==> t.frames[|s.frames|].source;
    case FrameEnd(i) =>
    case Terminator =>
    case SeekTo(target) =>
      if s.done && !s.finished && target >= s.base {
        assert s.frames != [];
        SeekSticksExactlyWhen(s, target, now);
      }
    case RateTo(rate) =>
  }

  /** Such a run: a frame arrives, the network is done, and a seek goes to the end. */
  lemma {:induction false} StuckExample(s: Stream, cursor: real, n: nat) returns (events: seq<(Event, real)>)
    requires s == Start(0.0, 1.0, cursor) && n > 0
    ensures IsRun(s, events) && Stuck(Run(s, events))
  {
    StartIsFresh(0.0, 1.0, cursor);
    events := OneFrameArrives(s, n);
    var arrived := Run(s, events);
    assert Scheduled(arrived.frames[0], arrived.rate);
    StepKeepsInv(arrived, Terminator, 0.0);
    RunThenStep(s, events, Terminator, 0.0);
    events := events + [(Terminator, 0.0)];
    var done := Run(s, events);
    PlayedAtMostAll(done.frames);
    StuckExactlyAfterSeekPastEnd(done, SeekTo(Horizon(done)), 0.0);
    RunThenStep(s, events, SeekTo(Horizon(done)), 0.0);
    events := events + [(SeekTo(Horizon(done)), 0.0)];
  }

  /** The guard of `forward` keeps clear of that: it seeks only to 0.05 s before the end or earlier. */
  lemma {:induction false} GuardedSeekDoesNotStick(s: Stream, target: real, now: real)
    requires Inv(s) && !Stuck(s) && s.base >= 0.0 && target < Seconds(s.received) - 0.05
    ensures !Stuck(Step(s, SeekTo(target), now))
  {
    StuckExactlyAfterSeekPastEnd(s, SeekTo(target), now);
    SamplesInIsNear(s.base);
  }

  lemma {:induction false} FramesMakeAudio(frames: seq<Frame>)
    requires frames != [] && forall i :: 0 <= i < |frames| ==> FrameOk(frames[i])
    ensures Samples(frames, false) > 0
  {
    PlayedAtMostAll(frames[..|frames| - 1]);
    assert FrameOk(frames[|frames| - 1]);
  }

  /** So does `rewind`: it seeks 15 s back, or to the beginning. */
  lemma {:induction false} RewindDoesNotStick(s: Stream, now: real)
    requires Inv(s) && !Stuck(s) && s.base >= 0.0
    ensures !Stuck(Step(s, SeekTo(Max(0.0, Position(s, now) - 15.0)), now))
  {
    var target := Max(0.0, Position(s, now) - 15.0);
    StuckExactlyAfterSeekPastEnd(s, SeekTo(target), now);
    if s.frames != [] {
      FramesMakeAudio(s.frames);
      PositionGrows(s.frames, s.rate, now, now, s.latency);
    }
  }

  lemma {:induction false} SamplesInIsNear(seconds: real)
    ensures seconds - 0.00003 <= Seconds(SamplesIn(seconds)) <= seconds + 0.00003
  {
  }

  // ---------------------------------------------------------------- the stream record

  /** Overwriting the first frame that is not laid out yet. */
  lemma {:induction false} ReplaceNext(laid: seq<Frame>, before: seq<Frame>, f: Frame)
    requires |laid| < |before|
    ensures
      var i := |laid|;
      && (laid + before[i..])[i] == before[i]
      && (laid + before[i..])[i := f] == (laid + [f]) + before[i + 1..]
  {
  }

  lemma {:induction false} OneMore(frames: seq<Frame>, i: nat)
    requires i < |frames|
    ensures Samples(frames[..i + 1], false) == Samples(frames[..i], false) + frames[i].samples
    ensures Samples(frames[..i + 1], true) == Samples(frames[..i], true) + if frames[i].played then frames[i].samples else 0
  {
    assert frames[..i + 1] == frames[..i] + [frames[i]];
    SamplesAppend(frames[..i], frames[i], false);
    SamplesAppend(frames[..i], frames[i], true);
  }

  lemma {:induction false} SoughtAt(frames: seq<Frame>, target: real, base: real, i: nat)
    requires i < |frames|
    ensures |SoughtAll(frames, target, base)| == |frames|
    ensures SoughtAll(frames, target, base)[i] == Sought(frames[i], target, base + Seconds(Samples(frames[..i], false)))
    decreases |frames|
  {
    var last := |frames| - 1;
    var before := frames[..last];
    if i < last {
      SoughtAt(before, target, base, i);
      assert before[..i] == frames[..i];
    } else if last > 0 {
      SoughtAt(before, target, base, last - 1);
    }
  }

  /** The first `i` decided frames have been laid out, and the next one goes to `next`. */
  ghost predicate Progress(decided: seq<Frame>, lengths: seq<real>, i: nat, start: real, rate: real, laid: seq<Frame>, next: real) {
    && i <= |decided| == |lengths|
    && laid == Laid(decided[..i], lengths[..i], start, rate) && next == Cursor(decided[..i], lengths[..i], start)
  }

  lemma {:induction false} ProgressStep(decided: seq<Frame>, lengths: seq<real>, i: nat, start: real, rate: real, laid: seq<Frame>, next: real)
    requires Progress(decided, lengths, i, start, rate, laid, next) && i < |decided|
    ensures
      var d := decided[i];
      if d.played then Progress(decided, lengths, i + 1, start, rate, laid + [d], next)
      else Progress(decided, lengths, i + 1, start, rate, laid + [Placed(d, next, lengths[i], rate)], next + lengths[i])
  {
    assert decided[..i + 1][..i] == decided[..i] && lengths[..i + 1][..i] == lengths[..i];
  }

  lemma {:induction false} ProgressEnds(decided: seq<Frame>, lengths: seq<real>, start: real, rate: real, laid: seq<Frame>, next: real)
    requires Progress(decided, lengths, |decided|, start, rate, laid, next)
    ensures laid == Laid(decided, lengths, start, rate) && next == Cursor(decided, lengths, start)
  {
    assert decided[..|decided|] == decided && lengths[..|lengths|] == lengths;
  }

  ghost predicate Lasts(f: Frame, length: real, rate: real)
    requires rate > 0.0
  {
    length == Lasting(f, rate)
  }

  /** The lengths are those of the frames. */
  ghost predicate AllLast(frames: seq<Frame>, lengths: seq<real>, rate: real)
    requires rate > 0.0
  {
    |frames| == |lengths| &&
    forall i {:trigger Lasts(frames[i], lengths[i], rate)} :: 0 <= i < |frames| ==> Lasts(frames[i], lengths[i], rate)
  }

  lemma {:induction false} LastingAllLast(frames: seq<Frame>, rate: real)
    requires rate > 0.0
    ensures AllLast(frames, LastingAll(frames, rate), rate)
  {
    forall i | 0 <= i < |frames| ensures Lasts(frames[i], LastingAll(frames, rate)[i], rate) { LastingAt(frames, rate, i); }
  }

  /** What is left of a frame, in seconds at `rate`. */
  method LengthOf(f: Frame, rate: real, ghost frames: seq<Frame>, ghost lengths: seq<real>, ghost i: nat) returns (l: real)
    requires rate > 0.0 && AllLast(frames, lengths, rate) && i < |frames| && f == frames[i]
    ensures l == lengths[i]
  {
    assert Lasts(frames[i], lengths[i], rate);
    l := (Duration(f) - f.offset) / rate;
  }

  lemma {:induction false} HaltedIsRounded(fs: seq<Frame>, hs: seq<Frame>, now: real, latency: real, decided: seq<Frame>)
    requires |fs| == |hs| && forall k :: 0 <= k < |fs| ==> hs[k] == Halt(fs[k], now, latency)
    requires decided == Halted(fs, now, latency)
    ensures Samples(hs, true) == Samples(fs, true)
    ensures AllRounded(decided, hs)
  {
    SameSamplesSum(hs, fs);
    forall k | 0 <= k < |hs| ensures Rounds(decided[k], hs[k]) { HaltedAt(fs, now, latency, k); }
  }

  /** The running sums of `seekTo`: the media time at which frame `i` starts, and the samples before it
      that are played and that are not. */
  datatype Sums = Sums(offset: real, played: int, buffered: int)

  ghost function SumsAt(decided: seq<Frame>, base: real, i: nat): Sums
    requires i <= |decided|
  {
    if i == 0 then Sums(base, 0, 0)
    else
      var before, d := SumsAt(decided, base, i - 1), decided[i - 1];
      if d.played then before.(offset := before.offset + Duration(d), played := before.played + d.samples)
      else before.(offset := before.offset + Duration(d), buffered := before.buffered + d.samples)
  }

  lemma {:induction false} SumsAtMeaning(decided: seq<Frame>, base: real, i: nat)
    requires i <= |decided|
    ensures
      var sums := SumsAt(decided, base, i);
      && sums.offset == base + Seconds(Samples(decided[..i], false))
      && sums.played == Samples(decided[..i], true)
      && sums.buffered == Samples(decided[..i], false) - Samples(decided[..i], true)
  {
    if i > 0 {
      SumsAtMeaning(decided, base, i - 1);
      OneMore(decided, i - 1);
    }
  }

  lemma {:induction false} SoughtSamples(before: seq<Frame>, target: real, base: real, i: nat)
    requires i <= |before|
    ensures |SoughtAll(before, target, base)| == |before|
    ensures Samples(SoughtAll(before, target, base)[..i], false) == Samples(before[..i], false)
  {
    if |before| > 0 { SoughtAt(before, target, base, 0); }
    var ds := SoughtAll(before, target, base);
    forall k | 0 <= k < |before| ensures ds[k].samples == before[k].samples { SoughtAt(before, target, base, k); }
    SameSamplesSum(ds[..i], before[..i]);
  }

  /** What `seekTo` decides about one frame. */
  method Decide(f: Frame, target: real, offset: real, base: real, ghost before: seq<Frame>, ghost decided: seq<Frame>, ghost i: nat)
    returns (d: Frame)
    requires decided == SoughtAll(before, target, base) && i < |before| == |decided| && f == before[i]
    requires offset == SumsAt(decided, base, i).offset
    ensures d == decided[i]
  {
    SoughtAt(before, target, base, i);
    SoughtSamples(before, target, base, i);
    SumsAtMeaning(decided, base, i);
    var at := Min(Duration(f), Max(0.0, target - offset));
    d := f.(source := false, offset := at, played := at >= Duration(f));
  }

  /** Counts a frame that a seek has decided about. */
  method Count(sums: Sums, d: Frame, base: real, ghost decided: seq<Frame>, ghost i: nat) returns (next: Sums)
    requires i < |decided| && d == decided[i] && sums == SumsAt(decided, base, i)
    ensures next == SumsAt(decided, base, i + 1)
  {
    next := sums.(offset := sums.offset + Duration(d));
    if d.played {
      next := next.(played := next.played + d.samples);
    } else {
      next := next.(buffered := next.buffered + d.samples);
    }
  }

  /** The loop of `seekTo`: one pass that decides about each frame, overwrites it in place and counts it. */
  method SeekFrames(before: seq<Frame>, ghost decided: seq<Frame>, ghost lengths: seq<real>, target: real, base: real, rate: real, now: real)
    returns (frames: seq<Frame>, cursor: real, played: int, buffered: int)
    requires rate > 0.0 && decided == SoughtAll(before, target, base) && AllLast(decided, lengths, rate)
    ensures frames == Laid(decided, lengths, now + LEAD, rate) && cursor == Cursor(decided, lengths, now + LEAD)
    ensures played == Samples(decided, true) && buffered == Samples(decided, false) - Samples(decided, true)
  {
    var sums := Sums(base, 0, 0);
    frames, cursor := before, now + LEAD;
    ghost var laid: seq<Frame> := [];
    SoughtSamples(before, target, base, 0);
    for i := 0 to |before|
      invariant |laid| == i && |decided| == |before| && frames == laid + before[i..]
      invariant Progress(decided, lengths, i, now + LEAD, rate, laid, cursor)
      invariant sums == SumsAt(decided, base, i)
    {
      ReplaceNext(laid, before, before[i]);
      ProgressStep(decided, lengths, i, now + LEAD, rate, laid, cursor);
      var f := Decide(frames[i], target, sums.offset, base, before, decided, i);
      sums := Count(sums, f, base, decided, i);
      if !f.played {
        var length := LengthOf(f, rate, decided, lengths, i);
        f := Placed(f, cursor, length, rate);
        cursor := cursor + length;
      }
      ReplaceNext(laid, before, f);
      frames, laid := frames[i := f], laid + [f];
    }
    ProgressEnds(decided, lengths, now + LEAD, rate, laid, cursor);
    SumsAtMeaning(decided, base, |decided|);
    played, buffered := sums.played, sums.buffered;
    assert decided[..|decided|] == decided && frames == laid;
  }

  method SeekAll(before: seq<Frame>, target: real, base: real, rate: real, now: real)
    returns (frames: seq<Frame>, cursor: real, played: int, buffered: int)
    requires rate > 0.0
    ensures
      var decided := SoughtAll(before, target, base);
      var lengths := LastingAll(decided, rate);
      && frames == Laid(decided, lengths, now + LEAD, rate) && cursor == Cursor(decided, lengths, now + LEAD)
      && played == Samples(decided, true) && buffered == Samples(decided, false) - Samples(decided, true)
  {
    ghost var decided := SoughtAll(before, target, base);
    LastingAllLast(decided, rate);
    frames, cursor, played, buffered := SeekFrames(before, decided, LastingAll(decided, rate), target, base, rate, now);
  }

  lemma {:induction false} SeekIs(s: Stream, target: real, now: real, frames: seq<Frame>, cursor: real, played: int, buffered: int)
    requires s.rate > 0.0 && target >= s.base
    requires
      var decided := SoughtAll(s.frames, target, s.base);
      var lengths := LastingAll(decided, s.rate);
      && frames == Laid(decided, lengths, now + LEAD, s.rate) && cursor == Cursor(decided, lengths, now + LEAD)
      && played == Samples(decided, true) && buffered == Samples(decided, false) - Samples(decided, true)
    ensures Seek(s, target, now) ==
            s.(latency := Latency(s.rate), frames := frames, cursor := cursor, played := played, buffered := buffered)
  {
  }

  /** The first loop of `changeRate`. */
  method HaltAll(before: seq<Frame>, now: real, latency: real) returns (frames: seq<Frame>)
    ensures |frames| == |before|
    ensures forall k :: 0 <= k < |frames| ==> frames[k] == Halt(before[k], now, latency)
  {
    frames := before;
    for i := 0 to |before|
      invariant |frames| == |before|
      invariant forall k :: 0 <= k < i ==> frames[k] == Halt(before[k], now, latency)
      invariant forall k :: i <= k < |frames| ==> frames[k] == before[k]
    {
      frames := frames[i := Halt(frames[i], now, latency)];
    }
  }

  lemma {:induction false} OneMoreNewlyPlayed(before: seq<Frame>, decided: seq<Frame>, i: nat)
    requires i < |before| == |decided| && decided[i].samples == before[i].samples
    requires before[i].played ==> decided[i].played
    ensures NewlyPlayed(before[..i + 1], decided[..i + 1]) ==
            NewlyPlayed(before[..i], decided[..i]) + if decided[i].played && !before[i].played then decided[i].samples else 0
  {
    OneMore(before, i);
    OneMore(decided, i);
  }

  ghost predicate Rounds(d: Frame, f: Frame) { d == Rounded(f) }

  ghost predicate AllRounded(decided: seq<Frame>, frames: seq<Frame>) {
    |decided| == |frames| &&
    forall i {:trigger Rounds(decided[i], frames[i])} :: 0 <= i < |frames| ==> Rounds(decided[i], frames[i])
  }

  /** What `changeRate` decides about one frame, and how many samples that marks. */
  method DecideRate(f: Frame, ghost frames: seq<Frame>, ghost decided: seq<Frame>, ghost i: nat) returns (d: Frame, newly: int)
    requires AllRounded(decided, frames) && i < |frames| && f == frames[i]
    ensures d == decided[i] && d.samples == f.samples && (f.played ==> d.played)
    ensures newly == if d.played && !f.played then d.samples else 0
  {
    assert Rounds(decided[i], frames[i]);
    d, newly := f, 0;
    if !f.played && f.offset >= Duration(f) - SLACK {
      d, newly := f.(played := true), f.samples;
    }
  }

  /** The second loop of `changeRate`: mark what is within the slack, place the rest; `more` counts the
      samples newly marked. */
  method Reschedule(before: seq<Frame>, ghost decided: seq<Frame>, ghost lengths: seq<real>, rate: real, now: real)
    returns (frames: seq<Frame>, cursor: real, more: int)
    requires rate > 0.0 && AllLast(decided, lengths, rate) && AllRounded(decided, before)
    ensures frames == Laid(decided, lengths, now + LEAD, rate) && cursor == Cursor(decided, lengths, now + LEAD)
    ensures more == NewlyPlayed(before, decided)
  {
    frames, cursor, more := before, now + LEAD, 0;
    ghost var laid: seq<Frame> := [];
    for i := 0 to |before|
      invariant |laid| == i && frames == laid + before[i..]
      invariant Progress(decided, lengths, i, now + LEAD, rate, laid, cursor)
      invariant more == NewlyPlayed(before[..i], decided[..i])
    {
      ReplaceNext(laid, before, before[i]);
      var f, newly := DecideRate(frames[i], before, decided, i);
      OneMoreNewlyPlayed(before, decided, i);
      ProgressStep(decided, lengths, i, now + LEAD, rate, laid, cursor);
      more := more + newly;
      if !f.played {
        var length := LengthOf(f, rate, decided, lengths, i);
        f := Placed(f, cursor, length, rate);
        cursor := cursor + length;
      }
      ReplaceNext(laid, before, f);
      frames, laid := frames[i := f], laid + [f];
    }
    ProgressEnds(decided, lengths, now + LEAD, rate, laid, cursor);
    assert before[..|before|] == before && decided[..|decided|] == decided && frames == laid;
  }

  class Player {
    const base: real
    var received: nat
    var total: int
    var played: int
    var buffered: int
    var cursor: real
    var rate: real
    var latency: real
    var started: bool
    var done: bool
    var finished: bool
    var frames: seq<Frame>

    constructor (base: real, rate: real, cursor: real)
      ensures State() == Start(base, rate, cursor)
    {
      this.base, this.rate, this.cursor, latency := base, rate, cursor, Latency(rate);
      received, total, played, buffered := 0, 0, 0, 0;
      started, done, finished, frames := false, false, false, [];
    }

    function State(): Stream
      reads this
    {
      Stream(base, received, total, played, buffered, cursor, rate, latency, started, done, finished, frames)
    }

    method Schedule(n: nat, now: real, startup: real)
      requires rate > 0.0
      modifies this
      ensures State() == Arrive(old(State()), n, now, startup)
    {
      var skip := MinInt(n, MaxInt(0, SamplesIn(base) - received));
      received := received + n;
      if n == skip { return; }
      var start := Max(cursor, now + if started then 0.0 else startup);
      var frame := Frame(n - skip, false, 0.0, 0.0, rate, 0.0, false);
      var length := LengthOf(frame, rate, [frame], [Lasting(frame, rate)], 0);
      frame := Placed(frame, start, length, rate);
      started, cursor := true, start + length;
      frames := frames + [frame];
      total, buffered := total + frame.samples, buffered + frame.samples;
    }

    method OnEnded(i: nat)
      requires i < |frames|
      modifies this
      ensures State() == Ended(old(State()), i)
    {
      var frame := frames[i];
      if !frame.source { return; }
      if !frame.played {
        played, buffered := played + frame.samples, MaxInt(0, buffered - frame.samples);
      }
      frames := frames[i := Marked(frame)];
      FinishIfSilent();
    }

    method FinishIfSilent()
      modifies this`finished
      ensures State() == Settle(old(State()))
    {
      if done && NoSources(frames) { finished := true; }
    }

    method SeekTo(target: real, now: real) returns (ok: bool)
      requires rate > 0.0
      modifies this
      ensures State() == Seek(old(State()), target, now)
      ensures ok == (target >= base)
    {
      if target < base { return false; }
      var fs, c, p, b := SeekAll(frames, target, base, rate, now);
      SeekIs(State(), target, now, fs, c, p, b);
      Install(fs, c, p, b);
      return true;
    }

    method Install(fs: seq<Frame>, c: real, p: int, b: int)
      modifies this`frames, this`cursor, this`played, this`buffered, this`latency
      ensures State() == old(State()).(latency := Latency(rate), frames := fs, cursor := c, played := p, buffered := b)
    {
      frames, cursor, played, buffered, latency := fs, c, p, b, Latency(rate);
    }

    /** The second half of `changeRate`, on the frames that its first loop stopped. */
    method PlaceAll(halted: seq<Frame>, ghost decided: seq<Frame>, newRate: real, now: real)
      requires newRate > 0.0 && AllRounded(decided, halted)
      modifies this`frames, this`cursor, this`played, this`buffered, this`rate, this`latency
      ensures
        var more := NewlyPlayed(halted, decided);
        State() == Relaid(old(State()), decided, newRate, now)
                   .(played := old(played) + more, buffered := old(buffered) - more)
    {
      var more;
      LastingAllLast(decided, newRate);
      frames, cursor, more := Reschedule(halted, decided, LastingAll(decided, newRate), newRate, now);
      played, buffered := played + more, buffered - more;
      rate, latency := newRate, Latency(newRate);
    }

    method ChangeRateTo(newRate: real, now: real)
      requires newRate > 0.0
      modifies this
      ensures State() == ChangeRate(old(State()), newRate, now)
    {
      ghost var decided := Halted(frames, now, latency);
      var halted := HaltAll(frames, now, latency);
      HaltedIsRounded(frames, halted, now, latency, decided);
      PlaceAll(halted, decided, newRate, now);
      FinishIfSilent();
    }

    method Dispatch(e: Event, now: real)
      requires rate > 0.0 && Enabled(State(), e)
      modifies this
      ensures State() == Step(old(State()), e, now)
    {
      match e
      case Arrival(n, startup) => Schedule(n, now, startup);
      case FrameEnd(i) => OnEnded(i);
      case Terminator =>
        done := true;
        FinishIfSilent();
      case SeekTo(target) => var _ := SeekTo(target, now);
      case RateTo(newRate) => ChangeRateTo(newRate, now);
    }

    /** Whatever happens to this stream, in whatever order and at whatever times, it follows the run of
        those events, and its ledger stays conserved. */
    method Serve(events: seq<(Event, real)>)
      requires Inv(State()) && Timed(frames) && IsRun(State(), events)
      modifies this
      ensures State() == Run(old(State()), events)
      ensures Inv(State()) && Conserved(State())
    {
      for i := 0 to |events|
        invariant Inv(State()) && Timed(frames) && IsRun(State(), events[i..])
        invariant Run(State(), events[i..]) == Run(old(State()), events)
      {
        var (e, now) := events[i];
        assert events[i..][0] == (e, now) && events[i..][1..] == events[i + 1..];
        StepKeepsInv(State(), e, now);
        StepKeepsTimed(State(), e, now);
        Dispatch(e, now);
      }
    }
  }
}
