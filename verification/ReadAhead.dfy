/**
 * The read-ahead scheduler (assets/shell/12-reader-ahead.js): speech requests for blocks ahead of
 * the one being played, bounded so that one viewer never runs more than two at once.
 *
 * A request is live until it settles or its controller is aborted. An aborted one still settles
 * later, as a rejection, and then runs its handlers: the identity checks of the source decide what
 * those may still change.
 */
module ReadAhead {
  import opened Sets

  const SPEECH_PARALLEL := 2
  const AHEAD_MAX_BLOCKS := 8

  /** A speech request for block `index`, read-ahead or foreground, for a WAV or a stream. The
      number gives it its identity, as the promise and the abort controller do in the source. */
  datatype Request = Request(id: nat, index: nat, ahead: bool, wav: bool)

  /** `from` is `aheadFrom`; `jobs`, `cache` and `streams` are the maps of the source by block;
      `live` and `aborted` are the requests that have not settled. */
  datatype Reader = Reader(
    position: nat, length: nat, from: int, capture: bool,
    jobs: map<nat, Request>, cache: map<nat, Request>, streams: map<nat, Request>,
    live: set<Request>, aborted: set<Request>, next: nat)

  /** What the environment decides when `fillAhead` runs: whether a back-off delay is pending, the
      first block it must not reach (sleep boundary, preview end, enough seconds), whether the byte
      budget is used up, and which blocks have a streaming voice. */
  datatype Window = Window(waiting: bool, stop: nat, full: bool, streaming: set<nat>)

  predicate Tabled(r: Reader, index: nat) { index in r.cache || index in r.streams }

  // ---------------------------------------------------------------- operations

  function LaunchAhead(r: Reader, index: nat, wav: bool): Reader {
    var q := Request(r.next, index, true, wav);
    r.(next := r.next + 1, live := r.live + {q}, jobs := r.jobs[index := q],
       cache := if wav then r.cache[index := q] else r.cache,
       streams := if wav then r.streams else r.streams[index := q])
  }

  function LaunchForeground(r: Reader, wav: bool): Reader {
    var q := Request(r.next, r.position, false, wav);
    r.(next := r.next + 1, live := r.live + {q},
       cache := if wav then r.cache[r.position := q] else r.cache,
       streams := if wav then r.streams else r.streams[r.position := q])
  }

  /** `forgetAhead`. */
  function Forget(r: Reader, index: nat): Reader {
    var gone := if index in r.jobs then {r.jobs[index]} else {};
    r.(live := r.live - gone, aborted := r.aborted + gone,
       jobs := r.jobs - {index}, cache := r.cache - {index}, streams := r.streams - {index})
  }

  ghost predicate IsFarthest(keys: set<nat>, m: nat) { m in keys && forall x :: x in keys ==> x <= m }

  lemma {:induction false} HasFarthest(keys: set<nat>)
    requires keys != {}
    ensures exists m :: IsFarthest(keys, m)
    decreases |keys|
  {
    var x :| x in keys;
    var rest := keys - {x};
    assert keys == rest + {x};
    if rest == {} {
      assert IsFarthest(keys, x);
    } else {
      HasFarthest(rest);
      var m :| IsFarthest(rest, m);
      assert IsFarthest(keys, if m < x then x else m);
    }
  }

  ghost function Farthest(keys: set<nat>): nat
    requires keys != {}
    ensures IsFarthest(keys, Farthest(keys))
  {
    HasFarthest(keys);
    var m :| IsFarthest(keys, m);
    m
  }

  lemma {:induction false} FewerJobs(jobs: map<nat, Request>, index: nat)
    requires index in jobs
    ensures |jobs - {index}| == |jobs| - 1
  {
    assert (jobs - {index}).Keys == jobs.Keys - {index};
  }

  /** The loop of `makeRoomFor`: drop the farthest jobs until at most one is left. */
  ghost function Evict(r: Reader): Reader
    decreases |r.jobs|
  {
    if |r.jobs| <= SPEECH_PARALLEL - 1 then r
    else
      var far := Farthest(r.jobs.Keys);
      FewerJobs(r.jobs, far);
      Evict(Forget(r, far))
  }

  ghost function MakeRoom(r: Reader): Reader {
    if Tabled(r, r.position) then r else Evict(r)
  }

  function Min(a: nat, b: nat): nat { if a < b then a else b }

  /** The blocks that one call of `fillAhead` may look at end here. */
  function Horizon(r: Reader, w: Window): nat {
    Min(Min(r.length, w.stop), r.position + 1 + AHEAD_MAX_BLOCKS)
  }

  predicate Saturated(r: Reader, w: Window) { |r.jobs| >= SPEECH_PARALLEL || w.full }

  /** One turn of the loop; once saturated, later turns change nothing, so the source leaves it. */
  function FillOne(r: Reader, w: Window, index: nat): Reader {
    if Tabled(r, index) || Saturated(r, w) then r else LaunchAhead(r, index, index !in w.streaming)
  }

  /** The loop over the blocks from `index` up to `end`. */
  function FillFrom(r: Reader, w: Window, index: nat, end: nat): Reader
    decreases end - index
  {
    if index >= end then r else FillFrom(FillOne(r, w, index), w, index + 1, end)
  }

  predicate MayFill(r: Reader, w: Window) {
    !r.capture && 0 <= r.from == r.position && r.length != 0 && !w.waiting
  }

  function Fill(r: Reader, w: Window): Reader {
    if MayFill(r, w) then FillFrom(r, w, r.position + 1, Horizon(r, w)) else r
  }

  /** A foreground `synth` or `fetchStream` of the block about to play; an entry already in its own
      table is joined instead. */
  predicate Joins(r: Reader, wav: bool) {
    if wav then r.position in r.cache else r.position in r.streams
  }

  ghost function Demand(r: Reader, wav: bool): Reader {
    if r.capture || Joins(r, wav) then r else LaunchForeground(MakeRoom(r), wav)
  }

  function DropIf(table: map<nat, Request>, q: Request, failed: bool): map<nat, Request> {
    if failed && q.index in table && table[q.index] == q then table - {q.index} else table
  }

  /** A request settles and its own handlers run, each guarded by an identity check. */
  function Settled(r: Reader, q: Request, ok: bool): Reader {
    var failed := !ok || q !in r.live;
    r.(live := r.live - {q}, aborted := r.aborted - {q},
       cache := DropIf(r.cache, q, failed && q.wav),
       streams := DropIf(r.streams, q, failed && !q.wav && q.ahead),
       jobs := DropIf(r.jobs, q, q.ahead))
  }

  function Settle(r: Reader, q: Request, ok: bool, w: Window): Reader {
    if q.ahead && q.index in r.jobs && r.jobs[q.index] == q then Fill(Settled(r, q, ok), w) else Settled(r, q, ok)
  }

  /** `streamCurrent` has its response and takes the entry out of the table. */
  function TakeStream(r: Reader): Reader { r.(streams := r.streams - {r.position}) }

  /** The current block is loaded: its window opens. */
  function OpenWindow(r: Reader, w: Window): Reader { Fill(r.(from := r.position), w) }

  /** The current block has been played. */
  function Advance(r: Reader): Reader {
    r.(cache := r.cache - {r.position}, position := r.position + 1)
  }

  /** `stop`, and the new place, queue and capture state that its callers set next. */
  function Stop(r: Reader, position: nat, length: nat, capture: bool): Reader {
    Reader(position, length, -1, capture, map[], map[], map[], {}, r.aborted + r.live, r.next)
  }

  /** `discardFutureVoiceAudio` up to its `fillAhead`: nothing prefetched for later blocks stays. */
  function Discarded(r: Reader): Reader {
    var gone := set i | i in r.jobs && i > r.position :: r.jobs[i];
    r.(cache := map i | i in r.cache && i <= r.position :: r.cache[i],
       streams := map i | i in r.streams && i <= r.position :: r.streams[i],
       jobs := map i | i in r.jobs && i <= r.position :: r.jobs[i],
       live := r.live - gone, aborted := r.aborted + gone)
  }

  // ---------------------------------------------------------------- invariant

  ghost predicate ForegroundRuns(r: Reader) { exists q :: q in r.live && !q.ahead }

  /** The job table is exactly the live read-ahead requests, and at most one foreground one runs. */
  ghost predicate JobsAreLive(r: Reader) {
    && (forall i :: i in r.jobs ==> r.jobs[i] in r.live && r.jobs[i].ahead && r.jobs[i].index == i)
    && (forall q :: q in r.live && q.ahead ==> q.index in r.jobs && r.jobs[q.index] == q)
    && (forall q :: q in r.live || q in r.aborted ==> q.id < r.next)
    && (forall a, b :: a in r.live && b in r.live && !a.ahead && !b.ahead ==> a == b)
  }

  /** Every job for a later block owns its entry in one of the tables. */
  ghost predicate LaterJobsAreTabled(r: Reader) {
    forall i :: i in r.jobs && i > r.position ==>
      (i in r.cache && r.cache[i] == r.jobs[i]) || (i in r.streams && r.streams[i] == r.jobs[i])
  }

  ghost predicate Inv(r: Reader) {
    JobsAreLive(r) && LaterJobsAreTabled(r) && |r.jobs| <= 2
  }

  /** While a foreground request runs and the window is not open, at most one job runs beside it. */
  ghost predicate RoomLeft(r: Reader) {
    ForegroundRuns(r) && r.from != r.position ==> |r.jobs| <= 1
  }

  // ---------------------------------------------------------------- every operation keeps it

  /** A read-ahead launch never replaces a job that still runs. */
  lemma {:induction false} LaunchAheadKeepsInv(r: Reader, index: nat, wav: bool)
    requires Inv(r) && index > r.position && !Tabled(r, index) && |r.jobs| < 2
    ensures Inv(LaunchAhead(r, index, wav))
    ensures ForegroundRuns(LaunchAhead(r, index, wav)) ==> ForegroundRuns(r)
  {
    assert index !in r.jobs;
    LaunchAheadIsLive(r, index, wav);
    assert |LaunchAhead(r, index, wav).jobs| == |r.jobs| + 1;
  }

  lemma {:induction false} LaunchAheadIsLive(r: Reader, index: nat, wav: bool)
    requires JobsAreLive(r) && index !in r.jobs
    ensures JobsAreLive(LaunchAhead(r, index, wav))
  {
  }

  lemma {:induction false} ForgetKeepsInv(r: Reader, index: nat)
    requires Inv(r) && index in r.jobs
    ensures Inv(Forget(r, index)) && |Forget(r, index).jobs| == |r.jobs| - 1
    ensures ForegroundRuns(Forget(r, index)) ==> ForegroundRuns(r)
  {
    FewerJobs(r.jobs, index);
  }

  /** Making room leaves at most one job, and never gives up a nearer one for a farther one. */
  lemma {:induction false} EvictKeepsInv(r: Reader, t: Reader)
    requires Inv(r) && t == Evict(r)
    ensures Inv(t) && |t.jobs| <= 1
    ensures ForegroundRuns(t) ==> ForegroundRuns(r)
    ensures t.position == r.position && t.from == r.from
    ensures forall i, j :: i in t.jobs && j in r.jobs && j !in t.jobs ==> i < j
    decreases |r.jobs|
  {
    if |r.jobs| > 1 {
      var far := Farthest(r.jobs.Keys);
      ForgetKeepsInv(r, far);
      EvictKeepsInv(Forget(r, far), t);
    }
  }

  lemma {:induction false} FillOneKeepsInv(r: Reader, w: Window, index: nat, t: Reader)
    requires Inv(r) && index > r.position && t == FillOne(r, w, index)
    ensures Inv(t)
  {
    if t != r { LaunchAheadKeepsInv(r, index, index !in w.streaming); }
  }

  /** Filling starts read-ahead requests only. */
  ghost predicate FillsOnly(r: Reader, t: Reader) {
    t.position == r.position && t.from == r.from && (ForegroundRuns(t) <==> ForegroundRuns(r))
  }

  lemma {:induction false} FillOneFrame(r: Reader, w: Window, index: nat)
    ensures FillsOnly(r, FillOne(r, w, index))
  {
    var t := FillOne(r, w, index);
    if ForegroundRuns(r) {
      var q :| q in r.live && !q.ahead;
      assert q in t.live;
    }
  }

  lemma {:induction false} FillFromFrame(r: Reader, w: Window, index: nat, end: nat, t: Reader)
    requires t == FillFrom(r, w, index, end)
    ensures FillsOnly(r, t)
    decreases end - index
  {
    if index < end {
      var u := FillOne(r, w, index);
      FillOneFrame(r, w, index);
      FillFromFrame(u, w, index + 1, end, t);
    }
  }

  lemma {:induction false} FillFromKeepsInv(r: Reader, w: Window, index: nat, end: nat, t: Reader)
    requires Inv(r) && index > r.position && t == FillFrom(r, w, index, end)
    ensures Inv(t)
    decreases end - index
  {
    if index < end {
      var u := FillOne(r, w, index);
      FillOneKeepsInv(r, w, index, u);
      FillOneFrame(r, w, index);
      FillFromKeepsInv(u, w, index + 1, end, t);
    }
  }

  lemma {:induction false} FillKeepsRoom(r: Reader, w: Window, t: Reader)
    requires t == Fill(r, w)
    ensures t.position == r.position && t.from == r.from && (RoomLeft(r) ==> RoomLeft(t))
  {
    if MayFill(r, w) { FillFromFrame(r, w, r.position + 1, Horizon(r, w), t); }
  }

  lemma {:induction false} FillKeepsInv(r: Reader, w: Window, t: Reader)
    requires Inv(r) && t == Fill(r, w)
    ensures Inv(t)
    ensures t.position == r.position && t.from == r.from && (RoomLeft(r) ==> RoomLeft(t))
  {
    FillKeepsRoom(r, w, t);
    if MayFill(r, w) { FillFromKeepsInv(r, w, r.position + 1, Horizon(r, w), t); }
  }

  /** The block about to play is not in the table of the other kind. */
  predicate NotInOtherTable(r: Reader, wav: bool) { !Joins(r, !wav) }

  lemma {:induction false} LaunchForegroundKeepsInv(r: Reader, wav: bool)
    requires Inv(r) && !ForegroundRuns(r)
    ensures Inv(LaunchForeground(r, wav))
  {
  }

  lemma {:induction false} DemandKeepsInv(r: Reader, wav: bool)
    requires Inv(r) && !ForegroundRuns(r)
    ensures Inv(Demand(r, wav))
    ensures NotInOtherTable(r, wav) || |r.jobs| <= 1 ==> RoomLeft(Demand(r, wav))
  {
    if !r.capture && !Joins(r, wav) {
      EvictKeepsInv(r, Evict(r));
      LaunchForegroundKeepsInv(MakeRoom(r), wav);
    }
  }

  lemma {:induction false} SettledKeepsInv(r: Reader, q: Request, ok: bool)
    requires Inv(r) && (q in r.live || q in r.aborted)
    ensures Inv(Settled(r, q, ok)) && (RoomLeft(r) ==> RoomLeft(Settled(r, q, ok)))
  {
    if q.index in r.jobs { FewerJobs(r.jobs, q.index); }
  }

  lemma {:induction false} SettleKeepsInv(r: Reader, q: Request, ok: bool, w: Window)
    requires Inv(r) && (q in r.live || q in r.aborted)
    ensures Inv(Settle(r, q, ok, w)) && (RoomLeft(r) ==> RoomLeft(Settle(r, q, ok, w)))
  {
    SettledKeepsInv(r, q, ok);
    FillKeepsInv(Settled(r, q, ok), w, Fill(Settled(r, q, ok), w));
  }

  lemma {:induction false} DiscardedKeepsInv(r: Reader)
    requires Inv(r)
    ensures Inv(Discarded(r)) && (RoomLeft(r) ==> RoomLeft(Discarded(r)))
  {
    var t := Discarded(r);
    assert t.jobs.Keys <= r.jobs.Keys;
    SubsetSize(t.jobs.Keys, r.jobs.Keys);
  }

  // ---------------------------------------------------------------- whole runs

  function Start(length: nat): Reader {
    Reader(0, length, -1, false, map[], map[], map[], {}, {}, 0)
  }

  datatype Event =
    | Demanded(wav: bool)
    | Settling(q: Request, ok: bool, w: Window)
    | StreamTaken
    | WindowOpened(w: Window)
    | RetryTimer(w: Window)
    | Played
    | Stopped(position: nat, length: nat, capture: bool)
    | VoicesChanged(w: Window)

  /** The loader handles one block at a time: it asks for the next one, opens the window or moves on
      only when its own request is over. */
  ghost predicate Enabled(r: Reader, e: Event) {
    match e
    case Demanded(_) => !ForegroundRuns(r)
    case Settling(q, _, _) => q in r.live || q in r.aborted
    case WindowOpened(_) => !ForegroundRuns(r)
    case Played => !ForegroundRuns(r)
    case _ => true
  }

  ghost function Step(r: Reader, e: Event): Reader {
    match e
    case Demanded(wav) => Demand(r, wav)
    case Settling(q, ok, w) => Settle(r, q, ok, w)
    case StreamTaken => TakeStream(r)
    case WindowOpened(w) => OpenWindow(r, w)
    case RetryTimer(w) => Fill(r, w)
    case Played => Advance(r)
    case Stopped(position, length, capture) => Stop(r, position, length, capture)
    case VoicesChanged(w) => Fill(Discarded(r), w)
  }

  /** A demand makes room unless its block is in the table of the other kind and two jobs run. */
  ghost predicate Fits(r: Reader, e: Event) {
    e.Demanded? ==> NotInOtherTable(r, e.wav) || |r.jobs| <= 1
  }

  lemma {:induction false} StepKeepsInv(r: Reader, e: Event)
    requires Inv(r) && Enabled(r, e)
    ensures Inv(Step(r, e)) && (RoomLeft(r) && Fits(r, e) ==> RoomLeft(Step(r, e)))
  {
    match e
    case Demanded(wav) => DemandKeepsInv(r, wav);
    case Settling(q, ok, w) => SettleKeepsInv(r, q, ok, w);
    case StreamTaken =>
    case WindowOpened(w) => FillKeepsInv(r.(from := r.position), w, OpenWindow(r, w));
    case RetryTimer(w) => FillKeepsInv(r, w, Fill(r, w));
    case Played =>
    case Stopped(_, _, _) =>
    case VoicesChanged(w) =>
      DiscardedKeepsInv(r);
      FillKeepsInv(Discarded(r), w, Fill(Discarded(r), w));
  }

  ghost predicate IsRun(r: Reader, events: seq<Event>)
    decreases |events|
  {
    events == [] || (Enabled(r, events[0]) && IsRun(Step(r, events[0]), events[1..]))
  }

  ghost function Run(r: Reader, events: seq<Event>): Reader
    decreases |events|
  {
    if events == [] then r else Run(Step(r, events[0]), events[1..])
  }

  ghost predicate AllFit(r: Reader, events: seq<Event>)
    decreases |events|
  {
    events == [] || (Fits(r, events[0]) && AllFit(Step(r, events[0]), events[1..]))
  }

  lemma {:induction false} RunKeepsInv(r: Reader, events: seq<Event>, t: Reader)
    requires Inv(r) && IsRun(r, events) && t == Run(r, events)
    ensures Inv(t)
    ensures RoomLeft(r) && AllFit(r, events) ==> RoomLeft(t)
    decreases |events|
  {
    if events != [] {
      StepKeepsInv(r, events[0]);
      RunKeepsInv(Step(r, events[0]), events[1..], t);
    }
  }

  // ---------------------------------------------------------------- how many requests run

  ghost function LiveAhead(r: Reader): set<Request> { set q | q in r.live && q.ahead }

  lemma {:induction false} ValuesSize(m: map<nat, Request>)
    requires forall i :: i in m ==> m[i].index == i
    ensures |m.Values| == |m|
    decreases |m|
  {
    if m.Keys == {} {
      assert m.Values == {};
    } else {
      var i :| i in m.Keys;
      var rest := m - {i};
      FewerJobs(m, i);
      ValuesSize(rest);
      forall v | v in m.Values ensures v in rest.Values + {m[i]} {
        var j :| j in m && m[j] == v;
        if j != i { assert rest[j] == v; }
      }
      assert forall v :: v in rest.Values ==> v in m.Values && v.index != i;
      assert m.Values == rest.Values + {m[i]};
    }
  }

  lemma {:induction false} LiveAheadCount(r: Reader)
    requires JobsAreLive(r)
    ensures |LiveAhead(r)| == |r.jobs|
  {
    forall q | q in LiveAhead(r) ensures q in r.jobs.Values { assert q.index in r.jobs && r.jobs[q.index] == q; }
    assert LiveAhead(r) == r.jobs.Values;
    ValuesSize(r.jobs);
  }

  /** The requests that run are the jobs and the foreground one. */
  lemma {:induction false} LiveCount(r: Reader)
    requires Inv(r)
    ensures |LiveAhead(r)| == |r.jobs| && |r.live| == |r.jobs| + (if ForegroundRuns(r) then 1 else 0)
  {
    LiveAheadCount(r);
    if ForegroundRuns(r) {
      var f :| f in r.live && !f.ahead;
      OneMoreLive(r, f);
    } else {
      assert r.live == LiveAhead(r);
    }
  }

  lemma {:induction false} OneMoreLive(r: Reader, f: Request)
    requires JobsAreLive(r) && f in r.live && !f.ahead
    ensures |r.live| == |LiveAhead(r)| + 1
  {
    assert r.live == LiveAhead(r) + {f};
  }

  /** Never more than two read-ahead requests at once, never more than three requests in all, and every
      job for a later block has its entry in a table. */
  ghost predicate Bounded(r: Reader) {
    && |LiveAhead(r)| <= 2 && |r.live| <= 3
    && forall i :: i in r.jobs && i > r.position ==> Tabled(r, i)
  }

  lemma {:induction false} InvIsBounded(r: Reader)
    requires Inv(r)
    ensures Bounded(r)
  {
    LiveCount(r);
  }

  /** Over every run of fill, completion, failure, eviction, voice change and stop. */
  lemma {:induction false} ReadAheadIsBounded(length: nat, events: seq<Event>)
    requires IsRun(Start(length), events)
    ensures Bounded(Run(Start(length), events))
  {
    RunKeepsInv(Start(length), events, Run(Start(length), events));
    InvIsBounded(Run(Start(length), events));
  }

  /** And while the window of the block about to play is not open, two requests in all, as long as
      every demand fits. */
  lemma {:induction false} TwoRequestsInAll(length: nat, events: seq<Event>)
    requires IsRun(Start(length), events) && AllFit(Start(length), events)
    ensures
      var r := Run(Start(length), events);
      r.from != r.position ==> |r.live| <= 2
  {
    RunKeepsInv(Start(length), events, Run(Start(length), events));
    LiveCount(Run(Start(length), events));
  }

  /** Exactly the demands that do not fit break the bound: `makeRoomFor` takes an entry in either
      table for the request it is about to make, `synth` and `fetchStream` look in one each. */
  lemma {:induction false} DemandOverflowsExactly(r: Reader, wav: bool)
    requires Inv(r) && !ForegroundRuns(r) && !r.capture && !Joins(r, wav)
    ensures |Demand(r, wav).live| <= 2 <==> Fits(r, Demanded(wav))
  {
    DemandKeepsInv(r, wav);
    EvictKeepsInv(r, Evict(r));
    var q := Request(MakeRoom(r).next, r.position, false, wav);
    assert q in Demand(r, wav).live && !q.ahead;
    assert ForegroundRuns(Demand(r, wav));
    LiveCount(Demand(r, wav));
  }

  /** How many blocks of [index, end) are in neither table. */
  function Untabled(r: Reader, index: nat, end: nat): nat
    decreases end - index
  {
    if index >= end then 0 else (if Tabled(r, index) then 0 else 1) + Untabled(r, index + 1, end)
  }

  lemma {:induction false} LaunchKeepsUntabled(r: Reader, at: nat, wav: bool, index: nat, end: nat)
    requires at < index
    ensures Untabled(LaunchAhead(r, at, wav), index, end) == Untabled(r, index, end)
    decreases end - index
  {
    if index < end { LaunchKeepsUntabled(r, at, wav, index + 1, end); }
  }

  /** How many jobs a fill leaves: as many new ones as there are blocks for, up to two in all. */
  lemma {:induction false} FillCounts(r: Reader, w: Window, index: nat, end: nat, t: Reader, n: nat)
    requires Inv(r) && index > r.position && !w.full && t == FillFrom(r, w, index, end)
    requires n == Min(2, |r.jobs| + Untabled(r, index, end))
    ensures |t.jobs| == n
    decreases end - index
  {
    if index < end {
      var u := FillOne(r, w, index);
      FillOneKeepsInv(r, w, index, u);
      FillOneFrame(r, w, index);
      if !Tabled(r, index) { NotYetAJob(r, index); }
      FillOneCounts(r, w, index, end, u);
      FillCounts(u, w, index + 1, end, t, n);
    }
  }

  lemma {:induction false} NotYetAJob(r: Reader, index: nat)
    requires LaterJobsAreTabled(r) && index > r.position && !Tabled(r, index)
    ensures index !in r.jobs
  {
  }

  lemma {:induction false} LaunchAddsAJob(r: Reader, index: nat, wav: bool)
    requires index !in r.jobs
    ensures |LaunchAhead(r, index, wav).jobs| == |r.jobs| + 1
  {
  }

  lemma {:induction false} FillOneCounts(r: Reader, w: Window, index: nat, end: nat, u: Reader)
    requires |r.jobs| <= 2 && (!Tabled(r, index) ==> index !in r.jobs)
    requires index < end && !w.full && u == FillOne(r, w, index)
    ensures Min(2, |u.jobs| + Untabled(u, index + 1, end)) ==
            Min(2, |r.jobs| + Untabled(r, index, end))
  {
    if !Tabled(r, index) && |r.jobs| < 2 {
      LaunchKeepsUntabled(r, index, index !in w.streaming, index + 1, end);
      LaunchAddsAJob(r, index, index !in w.streaming);
    } else {
      assert u == r;
    }
  }

  /** How many requests a fill has blocks for. */
  function Wanted(r: Reader, w: Window): nat {
    if MayFill(r, w) && !w.full then Untabled(r, r.position + 1, Horizon(r, w)) else 0
  }

  lemma {:induction false} FullFillsNothing(r: Reader, w: Window, index: nat, end: nat)
    requires w.full
    ensures FillFrom(r, w, index, end) == r
    decreases end - index
  {
    if index < end { FullFillsNothing(r, w, index + 1, end); }
  }

  /** With the window open there is a second way to three requests: filling beside a foreground request
      makes them exactly when the jobs there are and the blocks it has requests for come to two. */
  lemma {:induction false} FillOverflowsExactly(r: Reader, w: Window, t: Reader)
    requires Inv(r) && t == Fill(r, w)
    ensures |t.live| <= 2 <==> !ForegroundRuns(r) || |r.jobs| + Wanted(r, w) <= 1
  {
    FillJobs(r, w, t);
    FillForeground(r, w, t);
    FillKeepsInv(r, w, t);
    LiveAfter(r, t, Wanted(r, w));
  }

  lemma {:induction false} LiveAfter(r: Reader, t: Reader, n: nat)
    requires Inv(t) && |t.jobs| == Min(2, |r.jobs| + n) && (ForegroundRuns(t) <==> ForegroundRuns(r))
    ensures |t.live| <= 2 <==> !ForegroundRuns(r) || |r.jobs| + n <= 1
  {
    LiveCount(t);
  }

  lemma {:induction false} FillJobs(r: Reader, w: Window, t: Reader)
    requires Inv(r) && t == Fill(r, w)
    ensures |t.jobs| == Min(2, |r.jobs| + Wanted(r, w))
  {
    if MayFill(r, w) && !w.full {
      OpenFillJobs(r, w, t, r.position + 1, Horizon(r, w));
    } else {
      ShutFillJobs(r, w, t);
    }
  }

  lemma {:induction false} FillForeground(r: Reader, w: Window, t: Reader)
    requires t == Fill(r, w)
    ensures ForegroundRuns(t) <==> ForegroundRuns(r)
  {
    if MayFill(r, w) { FillFromFrame(r, w, r.position + 1, Horizon(r, w), t); }
  }

  lemma {:induction false} OpenFillJobs(r: Reader, w: Window, t: Reader, index: nat, end: nat)
    requires Inv(r) && !w.full && index > r.position && t == FillFrom(r, w, index, end)
    ensures |t.jobs| == Min(2, |r.jobs| + Untabled(r, index, end))
  {
    FillCounts(r, w, index, end, t, Min(2, |r.jobs| + Untabled(r, index, end)));
  }

  lemma {:induction false} ShutFillJobs(r: Reader, w: Window, t: Reader)
    requires t == Fill(r, w) && !(MayFill(r, w) && !w.full)
    ensures t == r
  {
    if MayFill(r, w) { FullFillsNothing(r, w, r.position + 1, Horizon(r, w)); }
  }

  /** Such a run: the window of block 0 is open, the block is asked for again, which fits, and the retry
      timer fills beside it. */
  lemma {:induction false} OpenWindowExample(shut: Window, w: Window)
    requires shut == Window(false, 0, false, {}) && w == Window(false, 4, false, {})
    ensures
      var r1 := Step(Start(4), WindowOpened(shut));
      var r2 := Step(r1, Demanded(false));
      && Enabled(Start(4), WindowOpened(shut)) && Enabled(r1, Demanded(false)) && Fits(r1, Demanded(false))
      && Enabled(r2, RetryTimer(w)) && |Step(r2, RetryTimer(w)).live| == 3
  {
    OpensShut(shut);
    var s := OpenWindow(Start(4), shut);
    DemandsAlone(s);
    FillsBeside(Demand(s, false), w);
  }

  lemma {:induction false} OpensShut(shut: Window)
    requires shut == Window(false, 0, false, {})
    ensures OpenWindow(Start(4), shut) == Start(4).(from := 0)
  {
    assert Horizon(Start(4).(from := 0), shut) == 0;
  }

  lemma {:induction false} DemandsAlone(s: Reader)
    requires s == Start(4).(from := 0)
    ensures !ForegroundRuns(s) && Fits(s, Demanded(false))
    ensures
      var r := Demand(s, false);
      && Inv(r) && ForegroundRuns(r) && r.jobs == map[] && !r.capture && r.from == r.position == 0 && r.length == 4
      && !Tabled(r, 1) && !Tabled(r, 2) && !Tabled(r, 3)
  {
    DemandKeepsInv(s, false);
    assert |s.jobs| == 0;
    assert Demand(s, false) == LaunchForeground(s, false);
    assert Request(0, 0, false, false) in Demand(s, false).live;
  }

  lemma {:induction false} FillsBeside(r: Reader, w: Window)
    requires Inv(r) && ForegroundRuns(r) && r.jobs == map[] && !r.capture && r.from == r.position == 0 && r.length == 4
    requires !Tabled(r, 1) && !Tabled(r, 2) && !Tabled(r, 3) && w == Window(false, 4, false, {})
    ensures |Fill(r, w).live| == 3
  {
    assert Untabled(r, 3, 4) == 1 && Untabled(r, 2, 4) == 2 && Untabled(r, 1, 4) == 3;
    assert Wanted(r, w) == 3;
    FillOverflowsExactly(r, w, Fill(r, w));
    FillKeepsInv(r, w, Fill(r, w));
    InvIsBounded(Fill(r, w));
  }

  /** Such a demand is reachable: no audio context could be made when block 1 was prefetched, so it was
      prefetched as a WAV; two more prefetches start; when block 1 plays, a context can be made and it
      is asked for as a stream. */
  lemma {:induction false} OverflowExample(w: Window, q0: Request)
    requires w == Window(false, 4, false, {}) && q0 == Request(0, 1, true, true)
    ensures
      var r1 := Step(Start(4), WindowOpened(w));
      var r2 := Step(r1, Settling(q0, true, w));
      var r3 := Step(r2, Played);
      && Enabled(Start(4), WindowOpened(w)) && Enabled(r1, Settling(q0, true, w))
      && Enabled(r2, Played) && Enabled(r3, Demanded(false))
      && |Step(r3, Demanded(false)).live| == 3
  {
    ExampleOpens(w);
    ExampleSettles(w);
    ExampleDemands();
  }

  lemma {:induction false} ExampleDemands()
    ensures !ForegroundRuns(ExampleSettled()) && !ForegroundRuns(Advance(ExampleSettled()))
    ensures |Demand(Advance(ExampleSettled()), false).live| == 3
  {
    var r3 := Advance(ExampleSettled());
    assert Demand(r3, false).live == r3.live + {Request(3, 1, false, false)};
  }

  function ExampleOpen(): Reader {
    var (q0, q1) := (Request(0, 1, true, true), Request(1, 2, true, true));
    Reader(0, 4, 0, false, map[1 := q0, 2 := q1], map[1 := q0, 2 := q1], map[], {q0, q1}, {}, 2)
  }

  function ExampleSettled(): Reader {
    var (q0, q1, q2) := (Request(0, 1, true, true), Request(1, 2, true, true), Request(2, 3, true, true));
    Reader(0, 4, 0, false, map[2 := q1, 3 := q2], map[1 := q0, 2 := q1, 3 := q2], map[], {q1, q2}, {}, 3)
  }

  lemma {:induction false} ThreeFills(r: Reader, w: Window, a: Reader, b: Reader, c: Reader)
    requires a == FillOne(r, w, 1) && b == FillOne(a, w, 2) && c == FillOne(b, w, 3)
    ensures FillFrom(r, w, 1, 4) == c
  {
    assert FillFrom(b, w, 3, 4) == FillFrom(c, w, 4, 4) == c;
    assert FillFrom(a, w, 2, 4) == FillFrom(b, w, 3, 4);
  }

  lemma {:induction false} ExampleOpens(w: Window)
    requires w == Window(false, 4, false, {})
    ensures OpenWindow(Start(4), w) == ExampleOpen()
  {
    var s := Start(4).(from := 0);
    var a, b := FillOne(s, w, 1), ExampleOpen();
    assert FillOne(a, w, 2) == b;
    assert |b.jobs.Keys| == 2 by { assert b.jobs.Keys == {1, 2}; }
    assert FillOne(b, w, 3) == b;
    ThreeFills(s, w, a, b, b);
  }

  lemma {:induction false} ExampleSettles(w: Window)
    requires w == Window(false, 4, false, {})
    ensures Settle(ExampleOpen(), Request(0, 1, true, true), true, w) == ExampleSettled()
  {
    var s := Settled(ExampleOpen(), Request(0, 1, true, true), true);
    assert |s.jobs.Keys| == 1 by { assert s.jobs.Keys == {2}; }
    assert FillOne(s, w, 1) == s && FillOne(s, w, 2) == s && FillOne(s, w, 3) == ExampleSettled();
    ThreeFills(s, w, s, s, ExampleSettled());
  }

  // ---------------------------------------------------------------- the scheduler's functions

  /** Once the loop would stop, going on changes nothing. */
  lemma {:induction false} SaturatedStays(r: Reader, w: Window, index: nat, end: nat)
    requires Saturated(r, w)
    ensures FillFrom(r, w, index, end) == r
    decreases end - index
  {
    if index < end { SaturatedStays(r, w, index + 1, end); }
  }

  class Scheduler {
    var position: nat
    var length: nat
    var from: int
    var capture: bool
    var jobs: map<nat, Request>
    var cache: map<nat, Request>
    var streams: map<nat, Request>
    var live: set<Request>
    var aborted: set<Request>
    var next: nat

    constructor (length: nat)
      ensures State() == Start(length)
    {
      position, this.length, from, capture := 0, length, -1, false;
      jobs, cache, streams, live, aborted, next := map[], map[], map[], {}, {}, 0;
    }

    function State(): Reader
      reads this
    {
      Reader(position, length, from, capture, jobs, cache, streams, live, aborted, next)
    }

    method ForgetAhead(index: nat)
      modifies this
      ensures State() == Forget(old(State()), index)
    {
      if index in jobs {
        live, aborted := live - {jobs[index]}, aborted + {jobs[index]};
        jobs := jobs - {index};
      }
      cache, streams := cache - {index}, streams - {index};
      assert index !in old(jobs) ==> old(jobs) - {index} == old(jobs);
    }

    method FarthestJob() returns (far: nat)
      requires jobs.Keys != {}
      ensures far == Farthest(jobs.Keys)
    {
      var rest := jobs.Keys;
      far :| far in rest;
      rest := rest - {far};
      while rest != {}
        invariant rest <= jobs.Keys && far in jobs.Keys && forall x :: x in jobs.Keys ==> x in rest || x <= far
        decreases |rest|
      {
        var x :| x in rest;
        if x > far { far := x; }
        rest := rest - {x};
      }
      assert IsFarthest(jobs.Keys, far);
    }

    method MakeRoomFor()
      modifies this
      ensures State() == MakeRoom(old(State()))
    {
      if position in cache || position in streams { return; }
      while |jobs| > SPEECH_PARALLEL - 1
        invariant Evict(State()) == Evict(old(State()))
        decreases |jobs|
      {
        var far := FarthestJob();
        FewerJobs(jobs, far);
        ForgetAhead(far);
      }
    }

    method Prefetch(index: nat, wav: bool)
      modifies this
      ensures State() == LaunchAhead(old(State()), index, wav)
    {
      var q := Request(next, index, true, wav);
      next, live, jobs := next + 1, live + {q}, jobs[index := q];
      if wav { cache := cache[index := q]; } else { streams := streams[index := q]; }
    }

    method FillAhead(w: Window)
      modifies this
      ensures State() == Fill(old(State()), w)
    {
      if capture || from < 0 || from != position || length == 0 || w.waiting { return; }
      ghost var start := State();
      var index, end := position + 1, Horizon(State(), w);
      while index < end
        invariant FillFrom(State(), w, index, end) == Fill(start, w)
      {
        if index !in cache && index !in streams {
          if |jobs| >= SPEECH_PARALLEL || w.full {
            SaturatedStays(State(), w, index, end);
            return;
          }
          Prefetch(index, index !in w.streaming);
        }
        index := index + 1;
      }
    }

    /** `synth(index)` or `fetchStream(index)` for the block about to play. */
    method LoadCurrent(wav: bool)
      modifies this
      ensures State() == Demand(old(State()), wav)
    {
      if capture || (if wav then position in cache else position in streams) { return; }
      MakeRoomFor();
      var q := Request(next, position, false, wav);
      next, live := next + 1, live + {q};
      if wav { cache := cache[position := q]; } else { streams := streams[position := q]; }
    }

    /** The promise of `q` settles: its own `catch`, then `aheadDone`. */
    method OnSettled(q: Request, ok: bool, w: Window)
      requires q in live || q in aborted
      modifies this
      ensures State() == Settle(old(State()), q, ok, w)
    {
      var failed := !ok || q !in live;
      live, aborted := live - {q}, aborted - {q};
      if failed && q.wav && q.index in cache && cache[q.index] == q { cache := cache - {q.index}; }
      if failed && !q.wav && q.ahead && q.index in streams && streams[q.index] == q { streams := streams - {q.index}; }
      if !q.ahead || q.index !in jobs || jobs[q.index] != q { return; }
      jobs := jobs - {q.index};
      FillAhead(w);
    }

    method StopAll(newPosition: nat, newLength: nat, newCapture: bool)
      modifies this
      ensures State() == Stop(old(State()), newPosition, newLength, newCapture)
    {
      from, jobs := -1, map[];
      live, aborted := {}, aborted + live;
      cache, streams := map[], map[];
      position, length, capture := newPosition, newLength, newCapture;
    }

    /** `discardFutureVoiceAudio`. */
    method DiscardFuture(w: Window)
      modifies this
      ensures State() == Fill(Discarded(old(State())), w)
    {
      var gone := set i | i in jobs && i > position :: jobs[i];
      cache := map i | i in cache && i <= position :: cache[i];
      streams := map i | i in streams && i <= position :: streams[i];
      jobs := map i | i in jobs && i <= position :: jobs[i];
      live, aborted := live - gone, aborted + gone;
      FillAhead(w);
    }

    method Dispatch(e: Event)
      requires Enabled(State(), e)
      modifies this
      ensures State() == Step(old(State()), e)
    {
      match e
      case Demanded(wav) => LoadCurrent(wav);
      case Settling(q, ok, w) => OnSettled(q, ok, w);
      case StreamTaken => streams := streams - {position};
      case WindowOpened(w) =>
        from := position;
        FillAhead(w);
      case RetryTimer(w) => FillAhead(w);
      case Played => cache, position := cache - {position}, position + 1;
      case Stopped(newPosition, newLength, newCapture) => StopAll(newPosition, newLength, newCapture);
      case VoicesChanged(w) => DiscardFuture(w);
    }

    /** Whatever happens to this object, in whatever order, it follows the run of those events, and its
        requests stay bounded. */
    method Serve(events: seq<Event>)
      requires Inv(State()) && IsRun(State(), events)
      modifies this
      ensures State() == Run(old(State()), events)
      ensures Inv(State()) && Bounded(State())
    {
      for i := 0 to |events|
        invariant Inv(State()) && IsRun(State(), events[i..])
        invariant Run(State(), events[i..]) == Run(old(State()), events)
      {
        assert events[i..][0] == events[i] && events[i..][1..] == events[i + 1..];
        StepKeepsInv(State(), events[i]);
        Dispatch(events[i]);
      }
      InvIsBounded(State());
    }
  }
}
