/** The epoch guard of `get`: which reads may touch the cache, over every run of a lane. */
module BrokerReads {
  import opened Wrappers
  import opened BrokerLane

  /** A step that schedules, starts or finishes a write. */
  predicate IsWriteActivity(l: Lane, e: Event)
    requires Enabled(l, e)
  {
    e.Set? || e.Delete? || e.WriteReply? || !IsQuiet(Step(l, e).out)
  }

  lemma {:induction false} WriteActivityBumpsEpoch(l: Lane, e: Event)
    requires Enabled(l, e)
    ensures Step(l, e).lane.epoch >= l.epoch
    ensures IsWriteActivity(l, e) ==> Step(l, e).lane.epoch > l.epoch
    ensures !IsWriteActivity(l, e) ==> Step(l, e).lane.epoch == l.epoch
    ensures !IsWriteActivity(l, e) ==> Step(l, e).lane.busy == l.busy
  {
    if e.WriteReply? { ConcludeFrame(l, l.inflight[e.index], e.reply); }
    if e.Timer? && Step(l, e).out != [] { assert Step(l, e).out[0].Sent?; }
    if e.GetStart? && Step(l, e).lane.epoch != l.epoch { assert Step(l, e).out[1].Scheduled?; }
  }

  /** From `m` on, no write runs and none is scheduled, started or finished. */
  ghost predicate Undisturbed(m: Machine, events: seq<Event>)
    requires IsRun(m, events)
    decreases |events|
  {
    !m.lane.busy &&
    (events != [] ==> !IsWriteActivity(m.lane, events[0]) && Undisturbed(Next(m, events[0]), events[1..]))
  }

  lemma {:induction false} SameEpochUndisturbed(m: Machine, events: seq<Event>)
    requires IsRun(m, events)
    ensures Run(m, events).lane.epoch >= m.lane.epoch
    ensures Run(m, events).lane.epoch == m.lane.epoch && !Run(m, events).lane.busy ==> Undisturbed(m, events)
    decreases |events|
  {
    if events != [] {
      WriteActivityBumpsEpoch(m.lane, events[0]);
      SameEpochUndisturbed(Next(m, events[0]), events[1..]);
    }
  }

  predicate Answers(e: Event, id: nat) { e.GetReply? && e.id == id }

  lemma {:induction false} PendingReadKept(m: Machine, events: seq<Event>, id: nat)
    requires IsRun(m, events) && id in m.lane.gets
    requires forall i :: 0 <= i < |events| ==> !Answers(events[i], id)
    ensures id in Run(m, events).lane.gets && Run(m, events).lane.gets[id] == m.lane.gets[id]
    decreases |events|
  {
    if events != [] {
      var e := events[0];
      if e.WriteReply? { ConcludeFrame(m.lane, m.lane.inflight[e.index], e.reply); }
      assert id in Next(m, e).lane.gets && Next(m, e).lane.gets[id] == m.lane.gets[id] by {
        assert !Answers(events[0], id);
      }
      PendingReadKept(Next(m, e), events[1..], id);
    }
  }

  lemma {:induction false} OnlyAcceptedAnswersWrite(l: Lane, id: nat, answer: Answer)
    requires id in l.gets
    ensures Step(l, GetReply(id, answer)).lane.cache != l.cache ==> l.gets[id].epoch == l.epoch && !l.busy
  {
  }

  lemma {:induction false} StartedRead(l: Lane, id: nat)
    requires id !in l.gets
    ensures id in Step(l, GetStart(id)).lane.gets
    ensures Step(l, GetStart(id)).lane.gets[id].epoch == Step(l, GetStart(id)).lane.epoch
  {
  }

  /** No event of `events` answers read `id`. */
  ghost predicate StillPending(events: seq<Event>, id: nat) {
    forall i :: 0 <= i < |events| ==> !Answers(events[i], id)
  }

  /** A read that just started at `started` changes the cache only if no write was scheduled,
      started, running or finished until its answer came back. */
  lemma {:induction false} ReadChangesCacheOnlyWhenUndisturbed(started: Machine, id: nat, events: seq<Event>, answer: Answer)
    requires id in started.lane.gets && started.lane.gets[id].epoch == started.lane.epoch
    requires IsRun(started, events) && StillPending(events, id)
    ensures
      var before := Run(started, events).lane;
      && id in before.gets
      && (Step(before, GetReply(id, answer)).lane.cache != before.cache ==> Undisturbed(started, events))
  {
    PendingReadKept(started, events, id);
    SameEpochUndisturbed(started, events);
    OnlyAcceptedAnswersWrite(Run(started, events).lane, id, answer);
  }

  /** A read issued before a write finished can never overwrite what that write left in the cache. */
  lemma {:induction false} LateAnswerIsDropped(m: Machine, id: nat, events: seq<Event>, k: nat, answer: Answer)
    requires id !in m.lane.gets
    requires IsRun(Next(m, GetStart(id)), events) && StillPending(events, id)
    requires k < |events| && events[k].WriteReply?
    ensures
      var before := Run(Next(m, GetStart(id)), events).lane;
      id in before.gets && Step(before, GetReply(id, answer)).lane.cache == before.cache
  {
    StartedRead(m.lane, id);
    var started := Next(m, GetStart(id));
    ReadChangesCacheOnlyWhenUndisturbed(started, id, events, answer);
    if Undisturbed(started, events) { NoWriteActivityInside(started, events, k); }
  }

  lemma {:induction false} NoWriteActivityInside(m: Machine, events: seq<Event>, k: nat)
    requires IsRun(m, events) && Undisturbed(m, events) && k < |events|
    ensures !events[k].WriteReply?
    decreases k
  {
    if k > 0 { NoWriteActivityInside(Next(m, events[0]), events[1..], k - 1); }
  }

  /** Any stored draft survives both halves of every read. */
  lemma {:induction false} DraftSurvivesRead(l: Lane, e: Event)
    requires Enabled(l, e) && (e.GetStart? || e.GetReply?)
    ensures DraftOf(Step(l, e).lane.cache) == DraftOf(l.cache)
  {
  }

  lemma {:induction false} UndisturbedKeepsEpoch(m: Machine, events: seq<Event>)
    requires IsRun(m, events) && Undisturbed(m, events)
    ensures Run(m, events).lane.epoch == m.lane.epoch && Run(m, events).lane.busy == m.lane.busy
    decreases |events|
  {
    if events != [] {
      WriteActivityBumpsEpoch(m.lane, events[0]);
      UndisturbedKeepsEpoch(Next(m, events[0]), events[1..]);
    }
  }

  /** What an answer leaves in the cache when it counts: its value and revision with the draft that is
      there, or nothing for an absent key without a draft. */
  function Refreshed(answer: Answer, draft: Option<Draft>): Option<Entry>
    requires answer.Found? || answer.NotFound?
  {
    if answer.Found? && answer.revision > 0 then Some(Entry(answer.value, answer.revision, draft))
    else if draft.None? then None
    else Some(Entry(if answer.Found? then answer.value else JSON_NULL, 0, draft))
  }

  /** The answer to a read counts exactly when it has a proper body, no write was scheduled, started or
      finished during the whole read, and none was running: then it is what the cache holds, whatever the
      cache held before; otherwise the cache stays as it is. */
  lemma {:induction false} ReadRefreshesExactlyWhenUndisturbed(m: Machine, id: nat, events: seq<Event>, answer: Answer)
    requires id !in m.lane.gets
    requires IsRun(Next(m, GetStart(id)), events) && StillPending(events, id)
    ensures
      var started := Next(m, GetStart(id));
      var before := Run(started, events).lane;
      id in before.gets &&
      Step(before, GetReply(id, answer)).lane.cache ==
      if (answer.Found? || answer.NotFound?) && Undisturbed(started, events)
      then Refreshed(answer, DraftOf(before.cache)) else before.cache
  {
    StartedRead(m.lane, id);
    var started := Next(m, GetStart(id));
    PendingReadKept(started, events, id);
    if Undisturbed(started, events) {
      UndisturbedKeepsEpoch(started, events);
    } else {
      ReadChangesCacheOnlyWhenUndisturbed(started, id, events, answer);
    }
  }

  /** What a read shows: at once the draft's value, if there is one, or else the cached value; nothing
      without a cached entry. And it schedules the draft again unless the lane is at work. */
  lemma {:induction false} ReadShowsCached(l: Lane, id: nat)
    requires id !in l.gets
    ensures
      var out := Step(l, GetStart(id)).out;
      if l.cache.None? then out == []
      else
        var entry := l.cache.value;
        var shown := Shown(if entry.draft.Some? then entry.draft.value.value else entry.value, entry.revision, false);
        out == [shown] + (if entry.draft.Some? && !l.busy && l.queued.None? then [Scheduled(Put(entry.draft.value))] else [])
  {
  }

  /** What an answer shows: its value when it counts and its revision is not the one shown at the start; an
      error when it has no proper body; otherwise nothing. */
  lemma {:induction false} AnswerShowsNews(l: Lane, id: nat, answer: Answer)
    requires id in l.gets
    ensures
      var read, out := l.gets[id], Step(l, GetReply(id, answer)).out;
      match answer
      case Failed => out == [Reported]
      case Malformed => out == [Reported]
      case Found(value, revision) =>
        out == if read.epoch == l.epoch && !l.busy && !(read.cached.Some? && read.cached.value.revision == revision)
               then [Shown(value, revision, false)] else []
      case NotFound =>
        out == if read.epoch == l.epoch && !l.busy && !(read.cached.Some? && read.cached.value.revision == 0)
               then [Shown(JSON_NULL, 0, false)] else []
    ensures Step(l, GetReply(id, answer)).lane.gets == map i | i in l.gets && i != id :: l.gets[i]
  {
  }

  /** And the entry it compares with is the one that was cached when it started. */
  lemma {:induction false} ReadRemembersCached(m: Machine, id: nat, events: seq<Event>)
    requires id !in m.lane.gets
    requires IsRun(Next(m, GetStart(id)), events) && StillPending(events, id)
    ensures
      var before := Run(Next(m, GetStart(id)), events).lane;
      id in before.gets && before.gets[id].cached == m.lane.cache
  {
    StartedRead(m.lane, id);
    PendingReadKept(Next(m, GetStart(id)), events, id);
  }
}
