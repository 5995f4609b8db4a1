/**
 * The length-prefixed frame decoder inside `streamCurrent` (assets/shell/12-reader-ahead.js): the
 * network delivers arbitrary pieces, and each piece is appended to `pending` and drained.
 */
module FrameDecoder {
  import opened Octets

  const MAX_FRAME := 192 * 1024
  const MAX_STREAM := 4 * 1024 * 1024

  datatype Failure = TooLarge | FrameTooLarge | BadFrame | TrailingData

  /** `frames` are the payloads handed on so far, in order. */
  datatype Decoder = Decoder(timed: bool, pending: Bytes, bytes: nat, done: bool, frames: seq<Bytes>)

  datatype Outcome = Running(decoder: Decoder) | Finished(decoder: Decoder) | Failed(reason: Failure)

  // ---------------------------------------------------------------- wire format

  /** `getUint32` of the first four bytes. */
  function U32(b: Bytes): nat
    requires |b| >= 4
  {
    var (b0: int, b1: int, b2: int, b3: int) := (b[0], b[1], b[2], b[3]);
    b0 * 0x100_0000 + b1 * 0x1_0000 + b2 * 0x100 + b3
  }

  /** The k-th byte of `n`, counted from the least significant one. */
  function Digit(n: nat, k: nat): Byte
    decreases k
  {
    if k == 0 then n % 256 else Digit(n / 256, k - 1)
  }

  function Header(n: nat): Bytes { [Digit(n, 3), Digit(n, 2), Digit(n, 1), Digit(n, 0)] }

  const TERMINATOR: Bytes := [0, 0, 0, 0]

  function Encode(frame: Bytes): Bytes { Header(|frame|) + frame }

  function EncodeAll(frames: seq<Bytes>): Bytes
    decreases |frames|
  {
    if frames == [] then [] else Encode(frames[0]) + EncodeAll(frames[1..])
  }

  function Stream(frames: seq<Bytes>): Bytes { EncodeAll(frames) + TERMINATOR }

  /** The payloads that the dispatch takes: whole 16-bit samples in a plain stream; in a timed one
      tag 1 with samples, or tag 2 with a word event. */
  predicate Acceptable(timed: bool, frame: Bytes) {
    if !timed then |frame| % 2 == 0
    else frame != [] && (frame[0] == 2 || (frame[0] == 1 && |frame| % 2 == 1))
  }

  predicate Sendable(timed: bool, frame: Bytes) {
    0 < |frame| <= MAX_FRAME && Acceptable(timed, frame)
  }

  predicate AllSendable(timed: bool, frames: seq<Bytes>) {
    forall i :: 0 <= i < |frames| ==> Sendable(timed, frames[i])
  }

  // ---------------------------------------------------------------- the decoder

  /** `pending` starts with a whole frame that the source accepts. */
  predicate HasFrame(d: Decoder) {
    |d.pending| >= 4 &&
    var length := U32(d.pending);
    && 0 < length <= MAX_FRAME && d.bytes + length <= MAX_STREAM && length + 4 <= |d.pending|
    && Acceptable(d.timed, d.pending[4..length + 4])
  }

  function TakeFrame(d: Decoder): Decoder
    requires HasFrame(d)
  {
    var length := U32(d.pending);
    d.(pending := d.pending[length + 4..], bytes := d.bytes + length, frames := d.frames + [d.pending[4..length + 4]])
  }

  /** The inner loop: take every complete frame off `pending`. */
  function Drain(d: Decoder): Outcome
    decreases |d.pending|
  {
    if HasFrame(d) then Drain(TakeFrame(d))
    else if |d.pending| < 4 then Running(d)
    else
      var length := U32(d.pending);
      if length == 0 then Running(d.(done := true, pending := d.pending[4..]))
      else if length > MAX_FRAME then Failed(FrameTooLarge)
      else if d.bytes + length > MAX_STREAM then Failed(TooLarge)
      else if |d.pending| < length + 4 then Running(d)
      else Failed(BadFrame)
  }

  /** One turn of the outer loop, with the piece the network delivered. */
  function Receive(d: Decoder, piece: Bytes): Outcome {
    if |d.pending + piece| > MAX_STREAM then Failed(TooLarge)
    else
      var drained := Drain(d.(pending := d.pending + piece));
      if !drained.Running? || !drained.decoder.done then drained
      else if drained.decoder.pending != [] then Failed(TrailingData)
      else Finished(drained.decoder)
  }

  /** The outer loop; after the terminator the source cancels the reader. */
  function Decode(d: Decoder, pieces: seq<Bytes>): Outcome
    decreases |pieces|
  {
    if pieces == [] then Running(d)
    else
      var received := Receive(d, pieces[0]);
      if received.Running? then Decode(received.decoder, pieces[1..]) else received
  }

  function Begin(timed: bool): Decoder { Decoder(timed, [], 0, false, []) }

  // ---------------------------------------------------------------- headers

  lemma {:induction false} HeaderInverse(b: Bytes)
    requires |b| >= 4
    ensures Header(U32(b)) == b[..4]
  {
    var n := U32(b);
    assert n / 256 / 256 == n / 65536;
    assert Digit(n, 0) == b[3];
    assert Digit(n, 1) == Digit(n / 256, 0) == b[2];
    assert Digit(n, 2) == Digit(n / 256, 1) == Digit(n / 256 / 256, 0) == b[1];
    assert Digit(n, 3) == Digit(n / 256, 2) == Digit(n / 256 / 256, 1) == Digit(n / 256 / 256 / 256, 0) == b[0];
  }

  lemma {:induction false} HeaderValue(n: nat)
    requires n <= MAX_FRAME
    ensures U32(Header(n)) == n
  {
    assert Digit(n, 0) == n % 256;
    assert Digit(n, 1) == Digit(n / 256, 0) == n / 256 % 256;
    assert Digit(n, 2) == Digit(n / 256, 1) == Digit(n / 256 / 256, 0);
    assert Digit(n, 3) == Digit(n / 256, 2) == Digit(n / 256 / 256, 1) == Digit(n / 256 / 256 / 256, 0);
  }

  lemma {:induction false} U32Prefix(a: Bytes, b: Bytes)
    requires |a| >= 4 && |b| >= 4 && a[..4] == b[..4]
    ensures U32(a) == U32(b)
  {
    assert forall i :: 0 <= i < 4 ==> a[i] == a[..4][i] && b[i] == b[..4][i];
  }

  // ---------------------------------------------------------------- every byte is accounted for

  lemma {:induction false} EncodeAppend(frames: seq<Bytes>, frame: Bytes)
    ensures EncodeAll(frames + [frame]) == EncodeAll(frames) + Encode(frame)
    decreases |frames|
  {
    var more := frames + [frame];
    if frames == [] {
      assert more[1..] == [];
    } else {
      assert more[1..] == frames[1..] + [frame];
      EncodeAppend(frames[1..], frame);
    }
  }

  /** The encoding of what was delivered so far. */
  ghost function Wire(d: Decoder): Bytes {
    if d.done then Stream(d.frames) else EncodeAll(d.frames)
  }

  /** Bytes received = encoding of the delivered frames ++ pending. */
  ghost predicate Accounts(d: Decoder, received: Bytes) {
    AllSendable(d.timed, d.frames) && received == Wire(d) + d.pending
  }

  lemma {:induction false} TakeFrameAccounts(d: Decoder, received: Bytes)
    requires Accounts(d, received) && !d.done && HasFrame(d)
    ensures Accounts(TakeFrame(d), received)
  {
    var length := U32(d.pending);
    var frame, rest := d.pending[4..length + 4], d.pending[length + 4..];
    FrameInFront(d);
    EncodeAppend(d.frames, frame);
    Associate(EncodeAll(d.frames), Encode(frame), rest);
  }

  lemma {:induction false} FrameInFront(d: Decoder)
    requires HasFrame(d)
    ensures
      var length := U32(d.pending);
      d.pending == Encode(d.pending[4..length + 4]) + d.pending[length + 4..]
  {
    HeaderInverse(d.pending);
  }

  lemma {:induction false} Associate(a: Bytes, b: Bytes, c: Bytes)
    ensures a + (b + c) == (a + b) + c
  {
  }

  lemma {:induction false} TerminatorAccounts(d: Decoder, received: Bytes)
    requires Accounts(d, received) && !d.done && |d.pending| >= 4 && U32(d.pending) == 0
    ensures Accounts(d.(done := true, pending := d.pending[4..]), received)
  {
    assert d.pending == TERMINATOR + d.pending[4..];
    var wire := EncodeAll(d.frames);
    assert wire + (TERMINATOR + d.pending[4..]) == (wire + TERMINATOR) + d.pending[4..];
  }

  lemma {:induction false} DrainAccounts(d: Decoder, received: Bytes)
    requires Accounts(d, received) && !d.done
    ensures Drain(d).Running? ==> Accounts(Drain(d).decoder, received) && Drain(d).decoder.timed == d.timed
    ensures !Drain(d).Finished?
    decreases |d.pending|
  {
    if HasFrame(d) {
      TakeFrameAccounts(d, received);
      DrainAccounts(TakeFrame(d), received);
    } else if |d.pending| >= 4 && U32(d.pending) == 0 {
      TerminatorAccounts(d, received);
    }
  }

  /** Whatever the network delivers, and however, the decoder accounts for every byte of it. */
  lemma {:induction false} ReceiveAccounts(d: Decoder, received: Bytes, piece: Bytes)
    requires Accounts(d, received) && !d.done
    ensures
      var outcome := Receive(d, piece);
      !outcome.Failed? ==> Accounts(outcome.decoder, received + piece) && outcome.decoder.timed == d.timed &&
                           (outcome.Finished? <==> outcome.decoder.done) &&
                           (outcome.Finished? ==> outcome.decoder.pending == [])
  {
    var combined := d.(pending := d.pending + piece);
    assert Accounts(combined, received + piece) by {
      assert (Wire(d) + d.pending) + piece == Wire(d) + (d.pending + piece);
    }
    DrainAccounts(combined, received + piece);
  }

  lemma {:induction false} ConcatOne(pieces: seq<Bytes>)
    requires pieces != []
    ensures Concat(pieces[..1]) == pieces[0]
  {
    assert pieces[..1][1..] == [];
    assert Concat(pieces[..1][1..]) == [];
  }

  lemma {:induction false} DecodeAccounts(d: Decoder, received: Bytes, pieces: seq<Bytes>) returns (n: nat)
    requires Accounts(d, received) && !d.done && Decode(d, pieces).Finished?
    ensures n <= |pieces|
    ensures
      var e := Decode(d, pieces).decoder;
      AllSendable(d.timed, e.frames) && received + Concat(pieces[..n]) == Stream(e.frames)
    decreases |pieces|
  {
    ReceiveAccounts(d, received, pieces[0]);
    var outcome := Receive(d, pieces[0]);
    if outcome.Finished? {
      n := 1;
      ConcatOne(pieces);
    } else {
      var m := DecodeAccounts(outcome.decoder, received + pieces[0], pieces[1..]);
      n := m + 1;
      assert pieces[..n][1..] == pieces[1..][..m];
      assert received + pieces[0] + Concat(pieces[1..][..m]) == received + Concat(pieces[..n]);
    }
  }

  /** A stream is accepted only if the pieces read so far are the encoding of the frames it
      delivered: the decoder never invents, drops, merges or reorders a frame. */
  lemma {:induction false} DecodeIsSound(timed: bool, pieces: seq<Bytes>) returns (n: nat)
    requires Decode(Begin(timed), pieces).Finished?
    ensures n <= |pieces|
    ensures
      var frames := Decode(Begin(timed), pieces).decoder.frames;
      AllSendable(timed, frames) && Concat(pieces[..n]) == Stream(frames)
  {
    n := DecodeAccounts(Begin(timed), [], pieces);
    assert [] + Concat(pieces[..n]) == Concat(pieces[..n]);
  }

  // ---------------------------------------------------------------- decoding what was encoded

  /** The buffered bytes, with those still to come, are the stream of `rest`, within the limits. */
  ghost predicate Awaits(d: Decoder, rest: seq<Bytes>, future: Bytes) {
    && !d.done && AllSendable(d.timed, rest)
    && d.pending + future == Stream(rest)
    && d.bytes + |EncodeAll(rest)| <= MAX_STREAM
  }

  lemma {:induction false} AwaitedHeader(d: Decoder, rest: seq<Bytes>, future: Bytes)
    requires Awaits(d, rest, future) && |d.pending| >= 4
    ensures U32(d.pending) == if rest == [] then 0 else |rest[0]|
  {
    assert d.pending[..4] == (d.pending + future)[..4];
    if rest == [] {
      U32Prefix(d.pending, TERMINATOR);
    } else {
      assert Sendable(d.timed, rest[0]);
      var h := Header(|rest[0]|);
      assert Stream(rest)[..4] == h;
      HeaderValue(|rest[0]|);
      U32Prefix(d.pending, h);
    }
  }

  lemma {:induction false} AwaitedFrame(d: Decoder, rest: seq<Bytes>, future: Bytes)
    requires Awaits(d, rest, future) && rest != [] && |d.pending| >= |rest[0]| + 4
    ensures HasFrame(d) && TakeFrame(d).frames == d.frames + [rest[0]]
    ensures Awaits(TakeFrame(d), rest[1..], future)
  {
    AwaitedHeader(d, rest, future);
    var n := |rest[0]| + 4;
    var stream, after := Stream(rest), d.pending[n..];
    assert stream == Encode(rest[0]) + Stream(rest[1..]);
    assert d.pending[4..n] == stream[4..n] == rest[0];
    assert after + future == (d.pending + future)[n..] == stream[n..] == Stream(rest[1..]);
    assert Sendable(d.timed, rest[0]);
  }

  lemma {:induction false} DrainStops(d: Decoder, rest: seq<Bytes>, future: Bytes)
    requires Awaits(d, rest, future) && (rest == [] || |d.pending| < |rest[0]| + 4)
    ensures Drain(d).Running?
    ensures future != [] ==> Drain(d).decoder == d
    ensures future == [] ==> rest == [] && Drain(d).decoder == d.(done := true, pending := [])
  {
    if |d.pending| >= 4 { AwaitedHeader(d, rest, future); }
    assert |d.pending| + |future| == |Stream(rest)|;
    if rest != [] { assert Sendable(d.timed, rest[0]); }
  }

  /** From `d` to `e`, the first `k` frames of `rest` have been delivered; the terminator has been seen
      exactly when nothing is still to come. */
  ghost predicate Followed(d: Decoder, rest: seq<Bytes>, future: Bytes, e: Decoder, k: nat) {
    && k <= |rest| && e.timed == d.timed
    && e.frames == d.frames + rest[..k]
    && (future == [] ==> e.done && k == |rest| && e.pending == [])
    && (future != [] ==> Awaits(e, rest[k..], future))
  }

  lemma {:induction false} FollowedStep(d: Decoder, next: Decoder, rest: seq<Bytes>, future: Bytes, e: Decoder, j: nat)
    requires rest != [] && next.timed == d.timed && next.frames == d.frames + [rest[0]]
    requires Followed(next, rest[1..], future, e, j)
    ensures Followed(d, rest, future, e, j + 1)
  {
    assert d.frames + [rest[0]] + rest[1..][..j] == d.frames + rest[..j + 1];
    assert rest[j + 1..] == rest[1..][j..];
  }

  lemma {:induction false} FollowedNone(d: Decoder, rest: seq<Bytes>, future: Bytes)
    requires Awaits(d, rest, future) && (rest == [] || |d.pending| < |rest[0]| + 4)
    ensures Drain(d).Running? && Followed(d, rest, future, Drain(d).decoder, 0)
  {
    assert rest[0..] == rest && d.frames + rest[..0] == d.frames;
    DrainStops(d, rest, future);
  }

  /** Draining delivers some frames of `rest` in order. */
  lemma {:induction false} DrainFollows(d: Decoder, rest: seq<Bytes>, future: Bytes, drained: Outcome) returns (k: nat)
    requires Awaits(d, rest, future) && drained == Drain(d)
    ensures drained.Running? && Followed(d, rest, future, drained.decoder, k)
    decreases |rest|
  {
    if rest != [] && |d.pending| >= |rest[0]| + 4 {
      AwaitedFrame(d, rest, future);
      var j := DrainFollows(TakeFrame(d), rest[1..], future, drained);
      FollowedStep(d, TakeFrame(d), rest, future, drained.decoder, j);
      k := j + 1;
    } else {
      k := 0;
      FollowedNone(d, rest, future);
    }
  }

  lemma {:induction false} DrainShrinks(d: Decoder)
    ensures Drain(d).Running? ==> |Drain(d).decoder.pending| <= |d.pending|
    decreases |d.pending|
  {
    if HasFrame(d) { DrainShrinks(TakeFrame(d)); }
  }

  lemma {:induction false} DecodeFollows(d: Decoder, rest: seq<Bytes>, pieces: seq<Bytes>)
    requires Awaits(d, rest, Concat(pieces)) && Concat(pieces) != [] && |Stream(rest)| <= MAX_STREAM
    ensures Decode(d, pieces).Finished? && Decode(d, pieces).decoder.frames == d.frames + rest
    decreases |pieces|
  {
    var future := Concat(pieces[1..]);
    var combined := d.(pending := d.pending + pieces[0]);
    assert combined.pending + future == d.pending + Concat(pieces);
    assert |combined.pending| <= |combined.pending + future|;
    var k := DrainFollows(combined, rest, future, Drain(combined));
    assert d.frames + rest[..k] + rest[k..] == d.frames + rest;
    if future != [] {
      var e := Drain(combined).decoder;
      DrainShrinks(combined);
      assert |e.pending + future| <= |combined.pending + future|;
      DecodeFollows(e, rest[k..], pieces[1..]);
    }
  }

  /** Any stream of sendable frames with its terminator, of at most 4 MiB on the wire, is decoded to
      exactly those frames however the network splits it. */
  lemma {:induction false} DecodeInvertsEncode(timed: bool, frames: seq<Bytes>, pieces: seq<Bytes>)
    requires AllSendable(timed, frames)
    requires Concat(pieces) == Stream(frames) && |Stream(frames)| <= MAX_STREAM
    ensures Decode(Begin(timed), pieces).Finished?
    ensures Decode(Begin(timed), pieces).decoder.frames == frames
  {
    assert Begin(timed).pending + Concat(pieces) == Concat(pieces);
    DecodeFollows(Begin(timed), frames, pieces);
    assert [] + frames == frames;
  }

  // ---------------------------------------------------------------- data after the terminator

  /** More bytes behind a terminator that has been seen stay where they are. */
  lemma {:induction false} DrainLeavesTail(d: Decoder, tail: Bytes)
    requires Drain(d).Running? && Drain(d).decoder.done && !d.done
    ensures
      var e := Drain(d).decoder;
      Drain(d.(pending := d.pending + tail)) == Running(e.(pending := e.pending + tail))
    decreases |d.pending|
  {
    if HasFrame(d) {
      TakeFrameWithTail(d, tail);
      DrainLeavesTail(TakeFrame(d), tail);
    } else {
      TerminatorWithTail(d, tail);
    }
  }

  lemma {:induction false} TakeFrameWithTail(d: Decoder, tail: Bytes)
    requires HasFrame(d)
    ensures
      var longer := d.(pending := d.pending + tail);
      HasFrame(longer) && TakeFrame(longer) == TakeFrame(d).(pending := TakeFrame(d).pending + tail)
  {
    var longer := d.(pending := d.pending + tail);
    U32Prefix(longer.pending, d.pending);
    var length := U32(d.pending);
    assert longer.pending[4..length + 4] == d.pending[4..length + 4];
    assert longer.pending[length + 4..] == d.pending[length + 4..] + tail;
  }

  lemma {:induction false} TerminatorWithTail(d: Decoder, tail: Bytes)
    requires !HasFrame(d) && Drain(d).Running? && Drain(d).decoder.done && !d.done
    ensures
      var e := Drain(d).decoder;
      Drain(d.(pending := d.pending + tail)) == Running(e.(pending := e.pending + tail))
  {
    var longer := d.(pending := d.pending + tail);
    U32Prefix(longer.pending, d.pending);
    assert longer.pending[4..] == d.pending[4..] + tail;
  }

  /** The whole rest of a stream, with more behind it, is drained to its end. */
  lemma {:induction false} DrainAll(d: Decoder, rest: seq<Bytes>, tail: Bytes)
    requires !d.done && AllSendable(d.timed, rest) && d.pending == Stream(rest) + tail
    requires d.bytes + |EncodeAll(rest)| <= MAX_STREAM
    ensures Drain(d).Running? && Drain(d).decoder.done && Drain(d).decoder.pending == tail
    ensures Drain(d).decoder.frames == d.frames + rest
  {
    var exact := d.(pending := Stream(rest));
    assert exact.pending + [] == Stream(rest);
    var k := DrainFollows(exact, rest, [], Drain(exact));
    assert rest[..k] == rest;
    DrainLeavesTail(exact, tail);
    assert [] + tail == tail;
  }

  /** Some pieces from the front add up to exactly `need` bytes. */
  ghost predicate CutsAt(pieces: seq<Bytes>, need: int)
    decreases |pieces|
  {
    need == 0 || (need > 0 && pieces != [] && CutsAt(pieces[1..], need - |pieces[0]|))
  }

  ghost predicate EndsAPiece(pieces: seq<Bytes>, stream: Bytes) {
    exists n :: 0 <= n <= |pieces| && Concat(pieces[..n]) == stream
  }

  /** What the decoder expects at a piece boundary inside the stream: part of it is still to come. */
  ghost predicate Expects(d: Decoder, rest: seq<Bytes>, extra: Bytes, pieces: seq<Bytes>) {
    && !d.done && AllSendable(d.timed, rest)
    && d.pending + Concat(pieces) == Stream(rest) + extra
    && |d.pending| < |Stream(rest)|
    && d.bytes + |EncodeAll(rest)| <= MAX_STREAM
    && |Stream(rest) + extra| <= MAX_STREAM
  }

  /** A piece that does not reach the terminator leaves the decoder expecting the rest. */
  lemma {:induction false} PieceInside(d: Decoder, rest: seq<Bytes>, extra: Bytes, pieces: seq<Bytes>) returns (k: nat)
    requires Expects(d, rest, extra, pieces) && pieces != [] && |d.pending + pieces[0]| < |Stream(rest)|
    ensures k <= |rest| && Receive(d, pieces[0]).Running?
    ensures
      var e := Receive(d, pieces[0]).decoder;
      && Expects(e, rest[k..], extra, pieces[1..])
      && |Stream(rest[k..])| - |e.pending| == |Stream(rest)| - |d.pending| - |pieces[0]|
  {
    var combined := d.(pending := d.pending + pieces[0]);
    var n := |combined.pending|;
    var future := Stream(rest)[n..];
    assert combined.pending + Concat(pieces[1..]) == Stream(rest) + extra;
    CutInside(combined.pending, Concat(pieces[1..]), Stream(rest), extra);
    k := DrainFollows(combined, rest, future, Drain(combined));
    DrainShrinks(combined);
    StillExpects(Drain(combined).decoder, rest[k..], future, extra, pieces[1..]);
  }

  /** A front part that is shorter than the stream is the front of the stream. */
  lemma {:induction false} CutInside(front: Bytes, back: Bytes, stream: Bytes, extra: Bytes)
    requires front + back == stream + extra && |front| < |stream|
    ensures front + stream[|front|..] == stream && back == stream[|front|..] + extra
  {
    var total, n := stream + extra, |front|;
    assert front == total[..n] == stream[..n];
    assert back == total[n..] == stream[n..] + extra;
  }

  lemma {:induction false} StillExpects(e: Decoder, rest: seq<Bytes>, future: Bytes, extra: Bytes, pieces: seq<Bytes>)
    requires Awaits(e, rest, future) && future != [] && Concat(pieces) == future + extra
    requires |e.pending| + |future| + |extra| <= MAX_STREAM
    ensures Expects(e, rest, extra, pieces) && |Stream(rest)| - |e.pending| == |future|
  {
    assert e.pending + Concat(pieces) == (e.pending + future) + extra;
    assert |e.pending + future| == |Stream(rest)|;
  }

  /** A piece that reaches the terminator ends the stream, well if it ends there itself. */
  lemma {:induction false} PieceAcross(d: Decoder, rest: seq<Bytes>, extra: Bytes, pieces: seq<Bytes>)
    requires Expects(d, rest, extra, pieces) && pieces != [] && |d.pending + pieces[0]| >= |Stream(rest)|
    ensures
      var received := Receive(d, pieces[0]);
      if |d.pending + pieces[0]| == |Stream(rest)|
      then received.Finished? && received.decoder.frames == d.frames + rest
      else received == Failed(TrailingData)
  {
    var combined := d.(pending := d.pending + pieces[0]);
    var total, n := Stream(rest) + extra, |Stream(rest)|;
    assert combined.pending + Concat(pieces[1..]) == total;
    assert combined.pending == total[..|combined.pending|];
    var tail := combined.pending[n..];
    assert combined.pending == Stream(rest) + tail;
    DrainAll(combined, rest, tail);
  }

  lemma {:induction false} MoreToCome(d: Decoder, rest: seq<Bytes>, extra: Bytes, pieces: seq<Bytes>)
    requires Expects(d, rest, extra, pieces)
    ensures pieces != []
  {
    assert |d.pending + Concat(pieces)| == |Stream(rest)| + |extra|;
  }

  lemma {:induction false} DecodeExpected(d: Decoder, rest: seq<Bytes>, extra: Bytes, pieces: seq<Bytes>)
    requires Expects(d, rest, extra, pieces)
    ensures Decode(d, pieces).Finished? <==> CutsAt(pieces, |Stream(rest)| - |d.pending|)
    ensures !Decode(d, pieces).Finished? ==> Decode(d, pieces) == Failed(TrailingData)
    decreases |pieces|
  {
    MoreToCome(d, rest, extra, pieces);
    if |d.pending + pieces[0]| < |Stream(rest)| {
      var k := PieceInside(d, rest, extra, pieces);
      DecodeExpected(Receive(d, pieces[0]).decoder, rest[k..], extra, pieces[1..]);
    } else {
      PieceAcross(d, rest, extra, pieces);
    }
  }

  lemma {:induction false} ConcatSplit(pieces: seq<Bytes>, n: nat)
    requires n <= |pieces|
    ensures Concat(pieces) == Concat(pieces[..n]) + Concat(pieces[n..])
    decreases n
  {
    if n == 0 {
      assert pieces[0..] == pieces;
    } else {
      ConcatSplit(pieces[1..], n - 1);
      assert pieces[..n][1..] == pieces[1..][..n - 1];
      assert pieces[n..] == pieces[1..][n - 1..];
    }
  }

  lemma {:induction false} CutsAtMeaning(pieces: seq<Bytes>, need: nat)
    ensures CutsAt(pieces, need) <==> exists n :: 0 <= n <= |pieces| && |Concat(pieces[..n])| == need
    decreases |pieces|
  {
    if need == 0 {
      assert Concat(pieces[..0]) == [];
    } else if pieces != [] {
      var first := |pieces[0]|;
      forall n | 1 <= n <= |pieces| ensures |Concat(pieces[..n])| == first + |Concat(pieces[1..][..n - 1])| {
        assert pieces[..n][1..] == pieces[1..][..n - 1];
      }
      if first <= need {
        CutsAtMeaning(pieces[1..], need - first);
        if CutsAt(pieces, need) {
          var n :| 0 <= n <= |pieces| - 1 && |Concat(pieces[1..][..n])| == need - first;
          assert |Concat(pieces[..n + 1])| == need;
        }
        if n :| 0 <= n <= |pieces| && |Concat(pieces[..n])| == need {
          assert |Concat(pieces[1..][..n - 1])| == need - first;
        }
      }
    }
  }

  lemma {:induction false} CutsAtStream(pieces: seq<Bytes>, stream: Bytes, extra: Bytes)
    requires Concat(pieces) == stream + extra
    ensures CutsAt(pieces, |stream|) <==> EndsAPiece(pieces, stream)
  {
    CutsAtMeaning(pieces, |stream|);
    forall n | 0 <= n <= |pieces| && |Concat(pieces[..n])| == |stream| ensures Concat(pieces[..n]) == stream {
      ConcatSplit(pieces, n);
      assert Concat(pieces[..n]) == (stream + extra)[..|stream|];
    }
  }

  /** Data after the terminator goes unnoticed exactly when the stream ends at the end of a piece: the
      reader is then cancelled and later pieces are never read. In every other split it is an error. */
  lemma {:induction false} TrailingDataDependsOnSplit(timed: bool, frames: seq<Bytes>, extra: Bytes, pieces: seq<Bytes>)
    requires AllSendable(timed, frames) && Concat(pieces) == Stream(frames) + extra && |Concat(pieces)| <= MAX_STREAM
    ensures Decode(Begin(timed), pieces).Finished? <==> EndsAPiece(pieces, Stream(frames))
    ensures !Decode(Begin(timed), pieces).Finished? ==> Decode(Begin(timed), pieces) == Failed(TrailingData)
  {
    var d := Begin(timed);
    assert d.pending + Concat(pieces) == Concat(pieces);
    DecodeExpected(d, frames, extra, pieces);
    CutsAtStream(pieces, Stream(frames), extra);
  }

  lemma {:induction false} ConcatSingle(piece: Bytes)
    ensures Concat([piece]) == piece
  {
    assert Concat([piece][1..]) == [];
  }

  /** Both ways occur for every stream: in one piece the extra data is an error, in its own it is not. */
  lemma {:induction false} TrailingDataExample(timed: bool, frames: seq<Bytes>, extra: Bytes)
    requires AllSendable(timed, frames) && extra != [] && |Stream(frames) + extra| <= MAX_STREAM
    ensures Decode(Begin(timed), [Stream(frames) + extra]) == Failed(TrailingData)
    ensures Decode(Begin(timed), [Stream(frames), extra]).Finished?
  {
    var whole := Stream(frames) + extra;
    var one := [whole];
    ConcatSingle(whole);
    TrailingDataDependsOnSplit(timed, frames, extra, one);
    forall n | 0 <= n <= 1 ensures Concat(one[..n]) != Stream(frames) {
      assert one[..n] == if n == 0 then [] else one;
    }
    var two := [Stream(frames), extra];
    ConcatSingle(extra);
    ConcatSingle(Stream(frames));
    assert two[1..] == [extra] && two[..1] == [Stream(frames)];
    assert Concat(two) == whole;
    TrailingDataDependsOnSplit(timed, frames, extra, two);
  }

  // ---------------------------------------------------------------- formats and limits

  /** Lengths are 32-bit numbers with the most significant byte first. */
  lemma {:induction false} LengthsAreBigEndian(b: Bytes, n: nat)
    requires |b| >= 4 && n < 0x1_0000_0000
    ensures var b0: int, b1: int, b2: int, b3: int := b[0], b[1], b[2], b[3];
            U32(b) == ((b0 * 256 + b1) * 256 + b2) * 256 + b3
    ensures Header(n) == [n / 16777216, n / 65536 % 256, n / 256 % 256, n % 256]
  {
    assert n / 256 / 256 == n / 65536 && n / 256 / 256 / 256 == n / 16777216;
    assert Digit(n, 2) == Digit(n / 256, 1) == Digit(n / 256 / 256, 0);
    assert Digit(n, 3) == Digit(n / 256, 2) == Digit(n / 256 / 256, 1) == Digit(n / 256 / 256 / 256, 0);
    assert Digit(n, 1) == Digit(n / 256, 0);
  }

  /** What may be sent: 1 byte to 192 KiB, in a plain stream whole 16-bit samples, in a timed one such samples
      behind a 1, or anything behind a 2. */
  lemma {:induction false} SendableMeaning(timed: bool, frame: Bytes)
    ensures Sendable(timed, frame) <==>
            && 1 <= |frame| <= 196608
            && (if timed then frame[0] == 2 || (frame[0] == 1 && |frame| % 2 == 1) else |frame| % 2 == 0)
  {
  }

  /** What the next header in the buffer leads to: the terminator, one of the three errors, more bytes to wait
      for, or a frame. */
  lemma {:induction false} HeaderMeaning(d: Decoder)
    requires |d.pending| >= 4 && !d.done
    ensures
      var length := U32(d.pending);
      && (length == 0 ==> Drain(d) == Running(d.(done := true, pending := d.pending[4..])))
      && (length > 196608 ==> Drain(d) == Failed(FrameTooLarge))
      && (0 < length <= 196608 && d.bytes + length > 4194304 ==> Drain(d) == Failed(TooLarge))
      && (0 < length <= 196608 && d.bytes + length <= 4194304 ==>
            if |d.pending| < length + 4 then Drain(d) == Running(d)
            else
              var frame := d.pending[4..length + 4];
              Drain(d) ==
              if Sendable(d.timed, frame)
              then Drain(d.(pending := d.pending[length + 4..], bytes := d.bytes + length, frames := d.frames + [frame]))
              else Failed(BadFrame))
  {
  }

  /** The bytes of the frames, without their headers. */
  ghost function Total(frames: seq<Bytes>): nat
    decreases |frames|
  {
    if frames == [] then 0 else Total(frames[..|frames| - 1]) + |frames[|frames| - 1]|
  }

  lemma {:induction false} DrainCounts(d: Decoder)
    requires d.bytes == Total(d.frames) <= 4194304
    ensures !Drain(d).Failed? ==> Drain(d).decoder.bytes == Total(Drain(d).decoder.frames) <= 4194304
    decreases |d.pending|
  {
    if HasFrame(d) {
      assert TakeFrame(d).frames[..|d.frames|] == d.frames;
      DrainCounts(TakeFrame(d));
    }
  }

  lemma {:induction false} DecodeCounts(d: Decoder, pieces: seq<Bytes>)
    requires d.bytes == Total(d.frames) <= 4194304
    ensures !Decode(d, pieces).Failed? ==>
      Decode(d, pieces).decoder.bytes == Total(Decode(d, pieces).decoder.frames) <= 4194304
    decreases |pieces|
  {
    if pieces != [] {
      DrainCounts(d.(pending := d.pending + pieces[0]));
      var received := Receive(d, pieces[0]);
      if received.Running? { DecodeCounts(received.decoder, pieces[1..]); }
    }
  }

  /** What the limit of 4 MiB counts is the bytes of the frames delivered so far, however they came. */
  lemma {:induction false} BytesAreCounted(timed: bool, pieces: seq<Bytes>)
    ensures
      var outcome := Decode(Begin(timed), pieces);
      !outcome.Failed? ==> outcome.decoder.bytes == Total(outcome.decoder.frames) <= 4194304
  {
    DecodeCounts(Begin(timed), pieces);
  }

  /** A buffer of more than 4 MiB is refused before anything is taken from it. */
  lemma {:induction false} BufferLimit(d: Decoder, piece: Bytes)
    ensures |d.pending| + |piece| > 4194304 ==> Receive(d, piece) == Failed(TooLarge)
  {
  }

  // ---------------------------------------------------------------- the loops of the source

  class Reader {
    const timed: bool
    var pending: Bytes
    var bytes: nat
    var done: bool
    var frames: seq<Bytes>

    constructor (timed: bool)
      ensures State() == Begin(timed)
    {
      this.timed, pending, bytes, done, frames := timed, [], 0, false, [];
    }

    function State(): Decoder
      reads this
    {
      Decoder(timed, pending, bytes, done, frames)
    }

    /** The inner loop; `failed` where the source throws. */
    method DrainPending() returns (failed: bool)
      requires !done
      modifies this
      ensures failed == Drain(old(State())).Failed?
      ensures !failed ==> Drain(old(State())) == Running(State())
    {
      while |pending| >= 4
        invariant !done && Drain(State()) == Drain(old(State()))
        decreases |pending|
      {
        var length := U32(pending);
        if length == 0 {
          done, pending := true, pending[4..];
          return false;
        }
        if length > MAX_FRAME || bytes + length > MAX_STREAM { return true; }
        if |pending| < length + 4 { break; }
        if !Acceptable(timed, pending[4..length + 4]) { return true; }
        Deliver(length);
      }
      return false;
    }

    /** Takes the frame of `length` bytes off `pending`. */
    method Deliver(length: nat)
      requires HasFrame(State()) && length == U32(pending)
      modifies this`pending, this`bytes, this`frames
      ensures State() == TakeFrame(old(State()))
    {
      var frame := pending[4..length + 4];
      pending, bytes, frames := pending[length + 4..], bytes + length, frames + [frame];
    }

    /** One network read; the stream has ended well when `done` is set. */
    method OnPiece(piece: Bytes) returns (failed: bool)
      requires !done
      modifies this
      ensures failed == Receive(old(State()), piece).Failed?
      ensures !failed ==> State() == Receive(old(State()), piece).decoder
      ensures !failed ==> done == Receive(old(State()), piece).Finished?
    {
      pending := pending + piece;
      if |pending| > MAX_STREAM { return true; }
      failed := DrainPending();
      if !failed && done && pending != [] { failed := true; }
    }

    /** The outer loop over everything the network delivers. */
    method ReadAll(pieces: seq<Bytes>) returns (failed: bool)
      requires !done
      modifies this
      ensures failed == Decode(old(State()), pieces).Failed?
      ensures !failed ==> State() == Decode(old(State()), pieces).decoder
      ensures !failed ==> done == Decode(old(State()), pieces).Finished?
    {
      for i := 0 to |pieces|
        invariant !done && Decode(State(), pieces[i..]) == Decode(old(State()), pieces)
      {
        assert pieces[i..][1..] == pieces[i + 1..];
        failed := OnPiece(pieces[i]);
        if failed || done { return; }
      }
      return false;
    }
  }
}
