/**
 * A streamed block from the network to the ledger (`streamCurrent` in assets/shell/12-reader-ahead.js):
 * every frame that the decoder delivers and that holds audio is scheduled once, in order.
 */
module Streaming {
  import opened Wrappers
  import opened Octets
  import FrameDecoder
  import AudioLedger

  /** The 16-bit samples of a frame; `None` for a word event. */
  function SamplesOf(timed: bool, frame: Bytes): Option<nat> {
    if !timed then Some(|frame| / 2) else if frame != [] && frame[0] == 1 then Some((|frame| - 1) / 2) else None
  }

  /** What the frames make `schedule` receive, in order. */
  function Scheduled(timed: bool, frames: seq<Bytes>): seq<nat>
    decreases |frames|
  {
    if frames == [] then []
    else
      var samples := SamplesOf(timed, frames[0]);
      (if samples.Some? then [samples.value] else []) + Scheduled(timed, frames[1..])
  }

  function Sum(ns: seq<nat>): nat
    decreases |ns|
  {
    if ns == [] then 0 else ns[0] + Sum(ns[1..])
  }

  /** The arrivals of a run, in order. */
  function Arrivals(events: seq<(AudioLedger.Event, real)>): seq<nat>
    decreases |events|
  {
    if events == [] then []
    else (if events[0].0.Arrival? then [events[0].0.n] else []) + Arrivals(events[1..])
  }

  /** What a decoder that finished has delivered. */
  function Delivered(timed: bool, pieces: seq<Bytes>): seq<Bytes> {
    var outcome := FrameDecoder.Decode(FrameDecoder.Begin(timed), pieces);
    if outcome.Finished? then outcome.decoder.frames else []
  }

  lemma {:induction false} SumAppend(a: seq<nat>, b: seq<nat>)
    ensures Sum(a + b) == Sum(a) + Sum(b)
    decreases |a|
  {
    if a == [] {
      assert a + b == b;
    } else {
      assert (a + b)[1..] == a[1..] + b;
      SumAppend(a[1..], b);
    }
  }

  lemma {:induction false} StepReceives(s: AudioLedger.Stream, e: AudioLedger.Event, now: real)
    requires s.rate > 0.0 && AudioLedger.Enabled(s, e)
    ensures AudioLedger.Step(s, e, now).received == s.received + if e.Arrival? then e.n else 0
  {
  }

  /** The ledger has received what arrived, whatever frame ends, seeks and rate changes came between. */
  lemma {:induction false} RunReceives(s: AudioLedger.Stream, events: seq<(AudioLedger.Event, real)>)
    requires AudioLedger.IsRun(s, events)
    ensures AudioLedger.Run(s, events).received == s.received + Sum(Arrivals(events))
    decreases |events|
  {
    if events != [] {
      var (e, now) := events[0];
      StepReceives(s, e, now);
      RunReceives(AudioLedger.Step(s, e, now), events[1..]);
      var first: seq<nat> := if e.Arrival? then [e.n] else [];
      SumAppend(first, Arrivals(events[1..]));
      assert Sum(first) == if e.Arrival? then e.n else 0 by { assert first != [] ==> first[1..] == []; }
    }
  }

  /** End to end: however the network splits a stream of sendable frames, and whatever the listener does
      meanwhile, the ledger ends up with the samples of the frames that were sent, and keeps all of them but
      the resumed part. */
  lemma {:induction false} LedgerHoldsWhatWasSent(timed: bool, frames: seq<Bytes>, pieces: seq<Bytes>, base: real, rate: real, cursor: real, events: seq<(AudioLedger.Event, real)>)
    requires FrameDecoder.AllSendable(timed, frames)
    requires Concat(pieces) == FrameDecoder.Stream(frames) && |FrameDecoder.Stream(frames)| <= FrameDecoder.MAX_STREAM
    requires rate > 0.0 && AudioLedger.IsRun(AudioLedger.Start(base, rate, cursor), events)
    requires Arrivals(events) == Scheduled(timed, Delivered(timed, pieces))
    ensures Delivered(timed, pieces) == frames
    ensures
      var s := AudioLedger.Run(AudioLedger.Start(base, rate, cursor), events);
      var sent := Sum(Scheduled(timed, frames));
      && s.received == sent
      && s.total == sent - AudioLedger.MinInt(sent, AudioLedger.MaxInt(0, AudioLedger.SamplesIn(base)))
      && s.played + s.buffered == s.total
  {
    FrameDecoder.DecodeInvertsEncode(timed, frames, pieces);
    RunReceives(AudioLedger.Start(base, rate, cursor), events);
    AudioLedger.LedgerIsConserved(base, rate, cursor, events);
  }

  /** So two splits of the same stream leave the same counts, whatever happened in between. */
  lemma {:induction false} SplitDoesNotMatter(timed: bool, frames: seq<Bytes>, one: seq<Bytes>, other: seq<Bytes>, base: real, rate: real, cursor: real, events: seq<(AudioLedger.Event, real)>, others: seq<(AudioLedger.Event, real)>)
    requires FrameDecoder.AllSendable(timed, frames) && |FrameDecoder.Stream(frames)| <= FrameDecoder.MAX_STREAM
    requires Concat(one) == FrameDecoder.Stream(frames) == Concat(other)
    requires rate > 0.0
    requires AudioLedger.IsRun(AudioLedger.Start(base, rate, cursor), events)
    requires AudioLedger.IsRun(AudioLedger.Start(base, rate, cursor), others)
    requires Arrivals(events) == Scheduled(timed, Delivered(timed, one))
    requires Arrivals(others) == Scheduled(timed, Delivered(timed, other))
    ensures
      var s := AudioLedger.Run(AudioLedger.Start(base, rate, cursor), events);
      var t := AudioLedger.Run(AudioLedger.Start(base, rate, cursor), others);
      s.received == t.received && s.total == t.total
  {
    LedgerHoldsWhatWasSent(timed, frames, one, base, rate, cursor, events);
    LedgerHoldsWhatWasSent(timed, frames, other, base, rate, cursor, others);
  }
}
