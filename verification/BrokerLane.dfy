/**
 * One lane of the viewer state broker (assets/shell/01-state-broker.js): the write queue of one
 * (scope, key) pair together with its entry in local storage and its suspended requests.
 *
 * Every `await` of the source splits a function into two atomic steps. What is suspended at an
 * `await` is part of the state: `inflight` holds the jobs of the suspended `drain` calls and
 * `gets` the suspended `get` calls. Nothing limits `inflight` to one element by construction;
 * that is proved.
 */
module BrokerLane {
  import opened Wrappers

  /** A JSON value, in its serialized form. */
  type Value = string

  const JSON_NULL: Value := "null"

  datatype Draft = Draft(value: Value, ifRevision: Option<nat>)

  datatype Job = Put(draft: Draft) | Remove

  /** What `read` returns from local storage. */
  datatype Entry = Entry(value: Value, revision: nat, draft: Option<Draft>)

  /** A `get` suspended on its request: the epoch and the cache entry it saw when it started. */
  datatype Read = Read(epoch: nat, cached: Option<Entry>)

  datatype Lane = Lane(
    epoch: nat, timer: bool, busy: bool, queued: Option<Job>,
    cache: Option<Entry>, inflight: seq<Job>, gets: map<nat, Read>)

  /** How a write request ends. `revision` and `conflict` are `None` when the body does not have
      the shape that the broker checks for; a transport failure has no status. */
  datatype Reply =
    | Success(revision: Option<nat>)
    | Failure(status: Option<nat>, conflict: Option<(Value, nat)>)

  /** How a read request ends; `Malformed` is a body that `validValue` rejects. */
  datatype Answer = Found(value: Value, revision: nat) | NotFound | Malformed | Failed

  /** Everything the broker does that can be seen from outside the lane. */
  datatype Output =
    | Scheduled(job: Job)
    | Sent(job: Job)
    | Saved(revision: nat)
    | Shown(value: Value, revision: nat, conflict: bool)
    | Reported

  datatype Event =
    | Set(draft: Draft)
    | Delete
    | Timer
    | WriteReply(index: nat, reply: Reply)
    | GetStart(id: nat)
    | GetReply(id: nat, answer: Answer)

  datatype Result = Result(lane: Lane, out: seq<Output>) {
    function Then(next: Result): Result { Result(next.lane, out + next.out) }
  }

  // ---------------------------------------------------------------- operations

  function DraftOf(cache: Option<Entry>): Option<Draft> {
    if cache.Some? then cache.value.draft else None
  }

  /** The draft that a queued job keeps alive across a cache rewrite. */
  function PendingDraft(queued: Option<Job>): Option<Draft> {
    if queued.Some? && queued.value.Put? then Some(queued.value.draft) else None
  }

  function Remember(l: Lane, value: Value, revision: nat): Lane {
    l.(cache := Some(Entry(value, revision, PendingDraft(l.queued))))
  }

  function Drain(l: Lane): Result {
    if l.busy || l.timer || l.queued.None? then Result(l, [])
    else
      var job := l.queued.value;
      Result(l.(queued := None, busy := true, epoch := l.epoch + 1, inflight := l.inflight + [job]), [Sent(job)])
  }

  function Schedule(l: Lane, job: Job): Result {
    var l1 := l.(epoch := l.epoch + 1, timer := false, queued := Some(job));
    match job
    case Remove => Result(l1, [Scheduled(job)]).Then(Drain(l1))
    case Put(draft) =>
      var entry := if l.cache.Some? then l.cache.value else Entry(JSON_NULL, 0, None);
      Result(l1.(cache := Some(entry.(draft := Some(draft))), timer := true), [Scheduled(job)])
  }

  predicate IsConflict(reply: Reply) {
    reply.Failure? && reply.status == Some(409) && reply.conflict.Some?
  }

  /** A refusal that a retry cannot change: any status except 429 and the server errors. */
  predicate IsRejection(reply: Reply) {
    reply.Failure? && reply.status.Some? && reply.status.value != 0 &&
    reply.status.value != 429 && reply.status.value < 500
  }

  predicate IsAck(job: Job, reply: Reply) {
    reply.Success? && (job.Put? ==> reply.revision.Some? && reply.revision.value >= 1)
  }

  /** The part of `drain` after the `await`, up to the `finally`. */
  function Conclude(l: Lane, job: Job, reply: Reply): Result {
    if IsAck(job, reply) then
      if job.Remove? then
        var kept := PendingDraft(l.queued);
        Result(l.(cache := if kept.Some? then Some(Entry(JSON_NULL, 0, kept)) else None), [Saved(0)])
      else
        Result(Remember(l, job.draft.value, reply.revision.value), [Saved(reply.revision.value)])
    else if IsConflict(reply) then
      var (value, revision) := reply.conflict.value;
      Result(Remember(l, value, revision), [Shown(value, revision, true), Reported])
    else if job.Put? && IsRejection(reply) && l.queued.None? && l.cache.Some? then
      Result(l.(cache := Some(l.cache.value.(draft := None))), [Reported])
    else
      Result(l, [Reported])
  }

  function OnReply(l: Lane, index: nat, reply: Reply): Result
    requires index < |l.inflight|
  {
    var concluded := Conclude(l, l.inflight[index], reply);
    var l1 := concluded.lane;
    var l2 := l1.(busy := false, epoch := l1.epoch + 1,
                  inflight := l.inflight[..index] + l.inflight[index + 1..]);
    concluded.Then(Drain(l2))
  }

  /** `retryDraft`: schedule a stored draft again unless the lane is at work. */
  function Retried(l: Lane): Result {
    if DraftOf(l.cache).Some? && !l.busy && l.queued.None?
    then Schedule(l, Put(DraftOf(l.cache).value)) else Result(l, [])
  }

  /** What a cached entry shows: its draft, if it has one. */
  function ShownFrom(entry: Entry): Output {
    Shown(if entry.draft.Some? then entry.draft.value.value else entry.value, entry.revision, false)
  }

  function OnGet(l: Lane, id: nat): Result {
    if l.cache.None? then Result(l.(gets := l.gets[id := Read(l.epoch, None)]), [])
    else
      var retried := Retried(l);
      var l1 := retried.lane;
      Result(l1.(gets := l1.gets[id := Read(l1.epoch, l.cache)]), [ShownFrom(l.cache.value)] + retried.out)
  }

  /** Whether the answer to a read is still current when it arrives. */
  predicate Accepts(l: Lane, id: nat, answer: Answer) {
    id in l.gets && (answer.Found? || answer.NotFound?) && l.gets[id].epoch == l.epoch && !l.busy
  }

  function OnAnswer(l: Lane, id: nat, answer: Answer): Result
    requires id in l.gets
  {
    var read := l.gets[id];
    var l1 := l.(gets := l.gets - {id});
    if answer.Failed? || answer.Malformed? then Result(l1, [Reported])
    else if !Accepts(l, id, answer) then Result(l1, [])
    else
      var (value, revision) := if answer.Found? then (answer.value, answer.revision) else (JSON_NULL, 0);
      var draft := DraftOf(l.cache);
      var cache := if revision == 0 && draft.None? then None else Some(Entry(value, revision, draft));
      Result(l1.(cache := cache),
             if read.cached.None? || read.cached.value.revision != revision
             then [Shown(value, revision, false)] else [])
  }

  predicate Enabled(l: Lane, e: Event) {
    match e
    case Timer => l.timer
    case WriteReply(index, _) => index < |l.inflight|
    case GetStart(id) => id !in l.gets
    case GetReply(id, _) => id in l.gets
    case _ => true
  }

  function Step(l: Lane, e: Event): Result
    requires Enabled(l, e)
  {
    match e
    case Set(draft) => Schedule(l, Put(draft))
    case Delete => Schedule(l, Remove)
    case Timer => Drain(l.(timer := false))
    case WriteReply(index, reply) => OnReply(l, index, reply)
    case GetStart(id) => OnGet(l, id)
    case GetReply(id, answer) => OnAnswer(l, id, answer)
  }

  /** A fresh lane over whatever an earlier page left in local storage. */
  function Fresh(cache: Option<Entry>): Lane {
    Lane(0, false, false, None, cache, [], map[])
  }

  // ---------------------------------------------------------------- history

  /** What an observer remembers of a run: all jobs scheduled, and the last set among them; each
      job sent, with the number of jobs scheduled by then; and whether the newest job has had a
      final reply. */
  datatype History = History(scheduled: seq<Job>, lastSet: Option<Draft>, sent: seq<(nat, Job)>, settled: bool) {
    function Note(output: Output): History {
      match output
      case Scheduled(job) =>
        History(scheduled + [job], if job.Put? then Some(job.draft) else lastSet, sent, false)
      case Sent(job) => this.(sent := sent + [(|scheduled|, job)])
      case _ => this
    }

    function Observe(out: seq<Output>): History
      decreases |out|
    {
      if out == [] then this else Note(out[0]).Observe(out[1..])
    }
  }

  /** The reply ends the life of its job: a success that acknowledges it, or a failure with a status that
      a retry cannot change, which is any but 429 and the server errors. */
  predicate IsFinal(job: Job, reply: Reply) {
    match reply
    case Success(revision) => job.Put? ==> revision.Some? && revision.value >= 1
    case Failure(status, _) => status.Some? && status.value != 0 && status.value != 429 && status.value < 500
  }

  datatype Machine = Machine(lane: Lane, history: History)

  /** The history settles the newest job when a final reply to it arrives, before later outputs. */
  function Noted(m: Machine, e: Event): History
    requires Enabled(m.lane, e)
  {
    if e.WriteReply? && IsFinal(m.lane.inflight[e.index], e.reply) && m.history.sent != [] &&
       m.history.sent[|m.history.sent| - 1].0 == |m.history.scheduled|
    then m.history.(settled := true) else m.history
  }

  function Next(m: Machine, e: Event): Machine
    requires Enabled(m.lane, e)
  {
    var result := Step(m.lane, e);
    Machine(result.lane, Noted(m, e).Observe(result.out))
  }

  function Start(cache: Option<Entry>): Machine {
    Machine(Fresh(cache), History([], None, [], false))
  }

  ghost predicate IsRun(m: Machine, events: seq<Event>)
    decreases |events|
  {
    events == [] || (Enabled(m.lane, events[0]) && IsRun(Next(m, events[0]), events[1..]))
  }

  ghost function Run(m: Machine, events: seq<Event>): Machine
    requires IsRun(m, events)
    decreases |events|
  {
    if events == [] then m else Run(Next(m, events[0]), events[1..])
  }

  // ---------------------------------------------------------------- invariant

  ghost predicate Idle(l: Lane) { !l.busy && !l.timer }

  /** At most one request in flight; a timer only for a queued set; nothing queued when idle. */
  ghost predicate Disciplined(l: Lane) {
    && |l.inflight| <= 1
    && (l.busy <==> |l.inflight| == 1)
    && (l.timer ==> l.queued.Some? && l.queued.value.Put?)
    && (l.queued.Some? ==> l.busy || l.timer)
    && forall id :: id in l.gets ==> l.gets[id].epoch <= l.epoch
  }

  /** Each send took the newest job scheduled at that moment, and no job was sent twice. */
  ghost predicate SentInOrder(scheduled: seq<Job>, sent: seq<(nat, Job)>)
    decreases |sent|
  {
    sent == [] ||
    var (count, job) := sent[|sent| - 1];
    && LastCount(sent[..|sent| - 1]) < count <= |scheduled|
    && job == scheduled[count - 1]
    && SentInOrder(scheduled, sent[..|sent| - 1])
  }

  ghost function LastCount(sent: seq<(nat, Job)>): nat {
    if sent == [] then 0 else sent[|sent| - 1].0
  }

  /** How the queue and the request in flight sit in the history. */
  ghost predicate Aligned(m: Machine) {
    var l, h := m.lane, m.history;
    && SentInOrder(h.scheduled, h.sent)
    && (h.scheduled != [] && h.scheduled[|h.scheduled| - 1].Put? ==>
          h.lastSet == Some(h.scheduled[|h.scheduled| - 1].draft))
    && (l.queued.None? ==> LastCount(h.sent) == |h.scheduled|)
    && (l.queued.Some? ==> LastCount(h.sent) < |h.scheduled| && l.queued.value == h.scheduled[|h.scheduled| - 1])
    && (l.inflight != [] ==> h.sent != [] && l.inflight[0] == h.sent[|h.sent| - 1].1)
    && (h.settled ==> h.scheduled != [] && l.queued.None? && !l.busy)
  }

  /** The newest edit, while no final reply to it has arrived, is the draft in local storage. */
  ghost predicate NewestIsDrafted(m: Machine) {
    var h := m.history;
    h.scheduled != [] && h.scheduled[|h.scheduled| - 1].Put? && !h.settled
    ==> DraftOf(m.lane.cache) == Some(h.scheduled[|h.scheduled| - 1].draft)
  }

  /** While a set is in flight, the stored draft is the last set scheduled. */
  ghost predicate InflightTracksLastSet(m: Machine) {
    m.lane.inflight != [] && m.lane.inflight[0].Put?
    ==> DraftOf(m.lane.cache).Some? && DraftOf(m.lane.cache) == m.history.lastSet
  }

  ghost predicate Inv(m: Machine) {
    Disciplined(m.lane) && Aligned(m) && NewestIsDrafted(m) && InflightTracksLastSet(m)
  }

  lemma {:induction false} ObserveAppend(h: History, a: seq<Output>, b: seq<Output>)
    ensures h.Observe(a + b) == h.Observe(a).Observe(b)
    decreases |a|
  {
    if a == [] {
      assert a + b == b;
    } else {
      assert (a + b)[1..] == a[1..] + b;
      ObserveAppend(h.Note(a[0]), a[1..], b);
    }
  }

  lemma {:induction false} ObserveOne(h: History, a: Output)
    ensures h.Observe([a]) == h.Note(a)
  {
    assert [a][1..] == [];
    assert h.Note(a).Observe([]) == h.Note(a);
  }

  lemma {:induction false} ObserveTwo(h: History, a: Output, b: Output)
    ensures h.Observe([a, b]) == h.Note(a).Note(b)
  {
    assert [a, b][1..] == [b];
    ObserveOne(h.Note(a), b);
  }

  predicate IsQuiet(out: seq<Output>) {
    forall i :: 0 <= i < |out| ==> !out[i].Scheduled? && !out[i].Sent?
  }

  lemma {:induction false} ObserveQuiet(h: History, out: seq<Output>)
    requires IsQuiet(out)
    ensures h.Observe(out) == h
    decreases |out|
  {
    if out != [] { ObserveQuiet(h.Note(out[0]), out[1..]); }
  }

  /** A reply touches only the cache; it keeps the draft of a queued set, and everything unless it
      is final. */
  lemma {:induction false} ConcludeFrame(l: Lane, job: Job, reply: Reply)
    ensures
      var concluded := Conclude(l, job, reply);
      && IsQuiet(concluded.out)
      && concluded.lane == l.(cache := concluded.lane.cache)
      && (!IsFinal(job, reply) ==> concluded.lane.cache == l.cache)
      && (PendingDraft(l.queued).Some? && DraftOf(l.cache) == PendingDraft(l.queued) ==>
            DraftOf(concluded.lane.cache) == PendingDraft(l.queued))
  {
  }

  /** The lane just before the drain that ends every reply. */
  function Released(l: Lane, index: nat, reply: Reply): Lane
    requires index < |l.inflight|
  {
    var l1 := Conclude(l, l.inflight[index], reply).lane;
    l1.(busy := false, epoch := l1.epoch + 1, inflight := l.inflight[..index] + l.inflight[index + 1..])
  }

  /** What a reply posts is not a job, so only the drain after it shows in the history. */
  lemma {:induction false} ReplyHistory(m: Machine, index: nat, reply: Reply)
    requires index < |m.lane.inflight|
    ensures
      var drained := Drain(Released(m.lane, index, reply));
      Next(m, WriteReply(index, reply)) ==
      Machine(drained.lane, Noted(m, WriteReply(index, reply)).Observe(drained.out))
  {
    var concluded := Conclude(m.lane, m.lane.inflight[index], reply);
    var h := Noted(m, WriteReply(index, reply));
    ConcludeFrame(m.lane, m.lane.inflight[index], reply);
    ObserveQuiet(h, concluded.out);
    ObserveAppend(h, concluded.out, Drain(Released(m.lane, index, reply)).out);
  }

  lemma {:induction false} SentStaysInOrder(scheduled: seq<Job>, sent: seq<(nat, Job)>, job: Job)
    requires SentInOrder(scheduled, sent)
    ensures SentInOrder(scheduled + [job], sent)
    decreases |sent|
  {
    if sent != [] { SentStaysInOrder(scheduled, sent[..|sent| - 1], job); }
  }

  lemma {:induction false} SendStaysInOrder(scheduled: seq<Job>, sent: seq<(nat, Job)>, job: Job)
    requires SentInOrder(scheduled, sent) && LastCount(sent) < |scheduled| && job == scheduled[|scheduled| - 1]
    ensures SentInOrder(scheduled, sent + [(|scheduled|, job)])
  {
    var more := sent + [(|scheduled|, job)];
    assert more[..|more| - 1] == sent;
  }

  /** The invariant, except that an idle lane may still have a job queued: the state `drain` mends. */
  ghost predicate Drainable(m: Machine) {
    && |m.lane.inflight| <= 1
    && (m.lane.busy <==> |m.lane.inflight| == 1)
    && (m.lane.timer ==> m.lane.queued.Some? && m.lane.queued.value.Put?)
    && (forall id :: id in m.lane.gets ==> m.lane.gets[id].epoch <= m.lane.epoch)
    && Aligned(m) && NewestIsDrafted(m) && InflightTracksLastSet(m)
  }

  lemma {:induction false} DrainKeepsInv(m: Machine)
    requires Drainable(m)
    ensures Inv(Machine(Drain(m.lane).lane, m.history.Observe(Drain(m.lane).out)))
  {
    var drained := Drain(m.lane);
    if drained.out != [] {
      var h := m.history.Note(drained.out[0]);
      ObserveOne(m.history, drained.out[0]);
      SendStaysInOrder(m.history.scheduled, m.history.sent, m.lane.queued.value);
    }
  }

  lemma {:induction false} SetKeepsInv(m: Machine, draft: Draft)
    requires Inv(m)
    ensures Inv(Machine(Schedule(m.lane, Put(draft)).lane, m.history.Note(Scheduled(Put(draft)))))
  {
    SentStaysInOrder(m.history.scheduled, m.history.sent, Put(draft));
  }

  /** A lane with a delete just queued, before it drains. */
  function Deleting(l: Lane): Lane { l.(epoch := l.epoch + 1, timer := false, queued := Some(Remove)) }

  lemma {:induction false} DeletingDrainable(m: Machine)
    requires Inv(m)
    ensures Drainable(Machine(Deleting(m.lane), m.history.Note(Scheduled(Remove))))
  {
    SentStaysInOrder(m.history.scheduled, m.history.sent, Remove);
  }

  lemma {:induction false} DeleteHistory(m: Machine)
    ensures
      var l, h := Deleting(m.lane), m.history.Note(Scheduled(Remove));
      Next(m, Delete) == Machine(Drain(l).lane, h.Observe(Drain(l).out))
  {
    ObserveAppend(m.history, [Scheduled(Remove)], Drain(Deleting(m.lane)).out);
    ObserveOne(m.history, Scheduled(Remove));
  }

  lemma {:induction false} DeleteKeepsInv(m: Machine)
    requires Inv(m)
    ensures Inv(Next(m, Delete))
  {
    DeletingDrainable(m);
    DrainKeepsInv(Machine(Deleting(m.lane), m.history.Note(Scheduled(Remove))));
    DeleteHistory(m);
  }

  lemma {:induction false} ReleasedDrainable(m: Machine, index: nat, reply: Reply)
    requires Inv(m) && index < |m.lane.inflight|
    ensures Drainable(Machine(Released(m.lane, index, reply), Noted(m, WriteReply(index, reply))))
  {
    var l, h := m.lane, m.history;
    var job := l.inflight[index];
    var r := Released(l, index, reply);
    assert r.inflight == [] && r.queued == l.queued;
    ConcludeFrame(l, job, reply);
    if l.queued.None? {
      assert job == h.scheduled[|h.scheduled| - 1];
    }
  }

  lemma {:induction false} ReplyKeepsInv(m: Machine, index: nat, reply: Reply)
    requires Inv(m) && index < |m.lane.inflight|
    ensures Inv(Next(m, WriteReply(index, reply)))
  {
    ReplyHistory(m, index, reply);
    ReleasedDrainable(m, index, reply);
    DrainKeepsInv(Machine(Released(m.lane, index, reply), Noted(m, WriteReply(index, reply))));
  }

  /** With nothing queued a reply leaves the lane idle; with a job queued it sends that job at once,
      or leaves it to its timer. */
  lemma {:induction false} AfterReply(m: Machine, reply: Reply)
    requires Inv(m) && m.lane.busy
    ensures
      var n := Next(m, WriteReply(0, reply));
      && n.lane.gets == m.lane.gets && n.lane.epoch > m.lane.epoch
      && (m.lane.queued.None? ==>
            n == Machine(Released(m.lane, 0, reply), Noted(m, WriteReply(0, reply))))
      && (m.lane.queued.Some? ==> n.lane.queued.Some? || n.lane.busy)
  {
    ReplyHistory(m, 0, reply);
    ConcludeFrame(m.lane, m.lane.inflight[0], reply);
  }

  /** A set, a delete, a timer or a new read: the request in flight stays, and unless it is a
      write the lane changes only in its list of reads. */
  lemma {:induction false} ClientStep(m: Machine, e: Event)
    requires Inv(m) && Enabled(m.lane, e) && !e.WriteReply? && !e.GetReply?
    ensures
      var n := Next(m, e);
      && (m.lane.busy ==> n.lane.busy && n.lane.inflight == m.lane.inflight)
      && n.lane.epoch >= m.lane.epoch
      && m.lane.gets.Keys <= n.lane.gets.Keys
      && (forall id :: id in m.lane.gets ==> n.lane.gets[id] == m.lane.gets[id])
      && (!Idle(n.lane) || (n.history == m.history && n.lane == m.lane.(gets := n.lane.gets)))
      && (n.lane.epoch == m.lane.epoch ==> n.lane.busy == m.lane.busy)
  {
    if e.GetStart? && IsQuiet(OnGet(m.lane, e.id).out) {
      ObserveQuiet(m.history, OnGet(m.lane, e.id).out);
    }
  }

  lemma {:induction false} GetIsRetryAndSuspend(m: Machine, id: nat)
    requires id !in m.lane.gets
    ensures
      var retried := Retried(m.lane);
      var l := retried.lane;
      Next(m, GetStart(id)) == Machine(l.(gets := l.gets[id := Read(l.epoch, m.lane.cache)]),
                                       m.history.Observe(retried.out))
  {
    var retried := Retried(m.lane);
    if m.lane.cache.Some? {
      var shown := ShownFrom(m.lane.cache.value);
      ObserveAppend(m.history, [shown], retried.out);
      ObserveOne(m.history, shown);
    }
  }

  lemma {:induction false} SuspendKeepsInv(m: Machine, id: nat, cached: Option<Entry>)
    requires Inv(m)
    ensures Inv(m.(lane := m.lane.(gets := m.lane.gets[id := Read(m.lane.epoch, cached)])))
  {
  }

  lemma {:induction false} GetKeepsInv(m: Machine, id: nat)
    requires Inv(m) && id !in m.lane.gets
    ensures Inv(Next(m, GetStart(id)))
  {
    GetIsRetryAndSuspend(m, id);
    var retried := Retried(m.lane);
    if retried.out != [] {
      SetKeepsInv(m, DraftOf(m.lane.cache).value);
      ObserveOne(m.history, retried.out[0]);
    }
    SuspendKeepsInv(Machine(retried.lane, m.history.Observe(retried.out)), id, m.lane.cache);
  }

  lemma {:induction false} AnswerKeepsInv(m: Machine, id: nat, answer: Answer)
    requires Inv(m) && id in m.lane.gets
    ensures Inv(Next(m, GetReply(id, answer)))
  {
    ObserveQuiet(m.history, OnAnswer(m.lane, id, answer).out);
  }

  /** Every event keeps the invariant. */
  lemma {:induction false} StepKeepsInv(m: Machine, e: Event)
    requires Inv(m) && Enabled(m.lane, e)
    ensures Inv(Next(m, e))
  {
    match e
    case Set(draft) => SetKeepsInv(m, draft); ObserveOne(m.history, Scheduled(Put(draft)));
    case Delete => DeleteKeepsInv(m);
    case Timer => DrainKeepsInv(m.(lane := m.lane.(timer := false)));
    case WriteReply(index, reply) => ReplyKeepsInv(m, index, reply);
    case GetStart(id) => GetKeepsInv(m, id);
    case GetReply(id, answer) => AnswerKeepsInv(m, id, answer);
  }

  lemma {:induction false} RunKeepsInv(m: Machine, events: seq<Event>)
    requires Inv(m) && IsRun(m, events)
    ensures Inv(Run(m, events))
    decreases |events|
  {
    if events != [] {
      StepKeepsInv(m, events[0]);
      RunKeepsInv(Next(m, events[0]), events[1..]);
    }
  }

  // ---------------------------------------------------------------- what every run guarantees

  ghost predicate Reachable(m: Machine) {
    exists cache: Option<Entry>, events: seq<Event> ::
      IsRun(Start(cache), events) && Run(Start(cache), events) == m
  }

  lemma {:induction false} ReachableInv(m: Machine)
    requires Reachable(m)
    ensures Inv(m)
  {
    var cache: Option<Entry>, events: seq<Event> :|
      IsRun(Start(cache), events) && Run(Start(cache), events) == m;
    RunKeepsInv(Start(cache), events);
  }

  lemma {:induction false} RunThenStep(m: Machine, events: seq<Event>, e: Event)
    requires IsRun(m, events) && Enabled(Run(m, events).lane, e)
    ensures IsRun(m, events + [e]) && Run(m, events + [e]) == Next(Run(m, events), e)
    decreases |events|
  {
    var more := events + [e];
    if events == [] {
      assert more[1..] == [];
      assert IsRun(Next(m, e), []) && Run(Next(m, e), []) == Next(m, e);
    } else {
      assert more[1..] == events[1..] + [e];
      RunThenStep(Next(m, events[0]), events[1..], e);
    }
  }

  lemma {:induction false} RunPrefix(m: Machine, a: seq<Event>, b: seq<Event>)
    requires IsRun(m, a + b)
    ensures IsRun(m, a) && IsRun(Run(m, a), b)
    decreases |a|
  {
    if a == [] {
      assert a + b == b;
    } else {
      assert (a + b)[1..] == a[1..] + b;
      RunPrefix(Next(m, a[0]), a[1..], b);
    }
  }

  // ---------------------------------------------------------------- what an observer sees

  /** Everything posted in a run. */
  ghost function Outputs(m: Machine, events: seq<Event>): seq<Output>
    requires IsRun(m, events)
    decreases |events|
  {
    if events == [] then []
    else
      var before, e := events[..|events| - 1], events[|events| - 1];
      assert events == before + [e];
      RunPrefix(m, before, [e]);
      Outputs(m, before) + Step(Run(m, before).lane, e).out
  }

  lemma {:induction false} OutputsThenStep(m: Machine, events: seq<Event>, e: Event)
    requires IsRun(m, events + [e])
    ensures IsRun(m, events) && Enabled(Run(m, events).lane, e)
    ensures Outputs(m, events + [e]) == Outputs(m, events) + Step(Run(m, events).lane, e).out
  {
    RunPrefix(m, events, [e]);
    assert (events + [e])[..|events + [e]| - 1] == events;
  }

  function JobsScheduled(out: seq<Output>): seq<Job>
    decreases |out|
  {
    if out == [] then []
    else (if out[0].Scheduled? then [out[0].job] else []) + JobsScheduled(out[1..])
  }

  lemma {:induction false} ObserveSchedules(h: History, out: seq<Output>)
    ensures h.Observe(out).scheduled == h.scheduled + JobsScheduled(out)
    decreases |out|
  {
    if out != [] { ObserveSchedules(h.Note(out[0]), out[1..]); }
  }

  lemma {:induction false} JobsScheduledAppend(a: seq<Output>, b: seq<Output>)
    ensures JobsScheduled(a + b) == JobsScheduled(a) + JobsScheduled(b)
    decreases |a|
  {
    if a == [] {
      assert a + b == b;
    } else {
      assert (a + b)[1..] == a[1..] + b;
      JobsScheduledAppend(a[1..], b);
      var first: seq<Job> := if a[0].Scheduled? then [a[0].job] else [];
      assert JobsScheduled(a + b) == first + JobsScheduled(a[1..] + b);
      assert JobsScheduled(a) == first + JobsScheduled(a[1..]);
    }
  }

  /** The jobs that the history has as scheduled are those the outputs of the run announce. */
  lemma {:induction false} OutputsShowSchedule(m: Machine, events: seq<Event>)
    requires IsRun(m, events)
    ensures Run(m, events).history.scheduled == m.history.scheduled + JobsScheduled(Outputs(m, events))
    decreases |events|
  {
    if events != [] {
      var before, e := events[..|events| - 1], events[|events| - 1];
      assert events == before + [e];
      OutputsThenStep(m, before, e);
      RunThenStep(m, before, e);
      OutputsShowSchedule(m, before);
      StepShowsSchedule(Run(m, before), e);
      JobsScheduledAppend(Outputs(m, before), Step(Run(m, before).lane, e).out);
    }
  }

  lemma {:induction false} StepShowsSchedule(m: Machine, e: Event)
    requires Enabled(m.lane, e)
    ensures Next(m, e).history.scheduled == m.history.scheduled + JobsScheduled(Step(m.lane, e).out)
  {
    ObserveSchedules(Noted(m, e), Step(m.lane, e).out);
  }

  // ---------------------------------------------------------------- the theorems

  /** One request at a time, no lost wake-up, sends in scheduling order, and the last job sent is
      the last job scheduled once the lane is idle. */
  lemma {:induction false} QueueDiscipline(m: Machine)
    requires Reachable(m)
    ensures |m.lane.inflight| <= 1
    ensures m.lane.timer ==> m.lane.queued.Some? && m.lane.queued.value.Put?
    ensures Idle(m.lane) ==> m.lane.queued.None? && m.lane.inflight == []
    ensures SentInOrder(m.history.scheduled, m.history.sent)
    ensures Idle(m.lane) && m.history.scheduled != [] ==>
              m.history.sent != [] &&
              m.history.sent[|m.history.sent| - 1].1 == m.history.scheduled[|m.history.scheduled| - 1]
  {
    ReachableInv(m);
  }

  /** No interleaving of replies, reads, conflicts and failures drops the newest unsettled edit
      from local storage, whether it is waiting, in flight, or failed and not retried yet. */
  lemma {:induction false} NewestEditSurvives(m: Machine, draft: Draft)
    requires Reachable(m)
    requires m.history.scheduled != [] && m.history.scheduled[|m.history.scheduled| - 1] == Put(draft)
    requires !m.history.settled
    ensures DraftOf(m.lane.cache) == Some(draft)
  {
    ReachableInv(m);
  }

  /** A queued set, and a set in flight with nothing queued behind it, equal the stored draft. */
  lemma {:induction false} QueuedAndInflightAreDrafted(m: Machine)
    requires Reachable(m)
    ensures m.lane.queued.Some? && m.lane.queued.value.Put? ==>
              DraftOf(m.lane.cache) == Some(m.lane.queued.value.draft)
    ensures m.lane.inflight != [] && m.lane.inflight[0].Put? && m.lane.queued.None? ==>
              DraftOf(m.lane.cache) == Some(m.lane.inflight[0].draft)
  {
    ReachableInv(m);
  }

  /** With a delete queued behind it, a set in flight equals the stored draft exactly when it is
      still the last set scheduled: a set that the delete displaced leaves its own draft behind. */
  lemma {:induction false} InflightBehindDelete(m: Machine, draft: Draft)
    requires Reachable(m) && m.lane.inflight == [Put(draft)]
    ensures DraftOf(m.lane.cache) == Some(draft) <==> m.history.lastSet == Some(draft)
  {
    ReachableInv(m);
  }

  /** The displaced case is reachable: set a, timer, set b, delete leaves a in flight and b stored. */
  lemma {:induction false} DisplacedDraftExample(a: Draft, b: Draft)
    requires a != b
    ensures
      var events := [Set(a), Timer, Set(b), Delete];
      IsRun(Start(None), events) &&
      var m := Run(Start(None), events);
      m.lane.inflight == [Put(a)] && m.lane.queued == Some(Remove) && DraftOf(m.lane.cache) == Some(b)
  {
    var m0 := Start(None);
    var m1 := Next(m0, Set(a));
    var m2 := Next(m1, Timer);
    var m3 := Next(m2, Set(b));
    var m4 := Next(m3, Delete);
    assert m2.lane.inflight == [Put(a)];
    assert IsRun(m4, []) && Run(m4, []) == m4;
    assert IsRun(m3, [Delete]) && Run(m3, [Delete]) == m4;
    assert [Set(b), Delete][1..] == [Delete];
    assert IsRun(m2, [Set(b), Delete]) && Run(m2, [Set(b), Delete]) == m4;
    assert [Timer, Set(b), Delete][1..] == [Set(b), Delete];
    assert IsRun(m1, [Timer, Set(b), Delete]) && Run(m1, [Timer, Set(b), Delete]) == m4;
    assert [Set(a), Timer, Set(b), Delete][1..] == [Timer, Set(b), Delete];
  }

  // ---------------------------------------------------------------- what replies do

  /** The lane after the reply to its request, before anything else happens. */
  ghost function Replied(m: Machine, reply: Reply): Machine
    requires m.lane.inflight != []
  {
    Next(m, WriteReply(0, reply))
  }

  /** With nothing queued behind it, a set that gets no status, 429, a server error or a success that
      acknowledges nothing stays a draft; an acknowledgement, a conflict and any other status end it. */
  lemma {:induction false} DraftEndsExactlyWhen(m: Machine, d: Draft, reply: Reply)
    requires Reachable(m) && m.lane.inflight == [Put(d)] && m.lane.queued.None?
    ensures
      DraftOf(Replied(m, reply).lane.cache) ==
      match reply
      case Success(revision) => if revision.Some? && revision.value >= 1 then None else Some(d)
      case Failure(status, _) =>
        if status.None? || status.value == 0 || status.value == 429 || status.value >= 500 then Some(d) else None
  {
    ReachableInv(m);
    AfterReply(m, reply);
  }

  /** The entry that a reply leaves with nothing lost of a set queued behind it. */
  function EntryBehind(value: Value, revision: nat, queued: Option<Job>): Entry {
    Entry(value, revision, if queued.Some? && queued.value.Put? then Some(queued.value.draft) else None)
  }

  /** An acknowledged set is what the cache holds, at the revision of the reply; a conflict leaves what the
      service has; a deleted key leaves no entry. A set queued behind stays the draft each time. */
  lemma {:induction false} ReplyIsStored(m: Machine, reply: Reply)
    requires Reachable(m) && m.lane.inflight != []
    ensures
      var job, l := m.lane.inflight[0], m.lane;
      var cache := Replied(m, reply).lane.cache;
      && (job.Put? && reply.Success? && reply.revision.Some? && reply.revision.value >= 1 ==>
            cache == Some(EntryBehind(job.draft.value, reply.revision.value, l.queued)))
      && (reply.Failure? && reply.status == Some(409) && reply.conflict.Some? ==>
            cache == Some(EntryBehind(reply.conflict.value.0, reply.conflict.value.1, l.queued)))
      && (job.Remove? && reply.Success? ==>
            cache == if l.queued.Some? && l.queued.value.Put? then Some(EntryBehind(JSON_NULL, 0, l.queued)) else None)
  {
    ReachableInv(m);
    ReplyHistory(m, 0, reply);
  }

  /** A failure that is no conflict changes nothing in the cache but the draft. */
  lemma {:induction false} FailureKeepsEntry(m: Machine, reply: Reply)
    requires Reachable(m) && m.lane.inflight != []
    requires reply.Failure? && !(reply.status == Some(409) && reply.conflict.Some?)
    ensures
      var before, after := m.lane.cache, Replied(m, reply).lane.cache;
      && (after.Some? <==> before.Some?)
      && (after.Some? ==> after.value.value == before.value.value && after.value.revision == before.value.revision)
      && (m.lane.inflight[0].Remove? || m.lane.queued.Some? ==> after == before)
  {
    ReachableInv(m);
    ReplyHistory(m, 0, reply);
  }

  /** What is posted for a reply, and that a job left queued without a timer is sent at once. */
  lemma {:induction false} ReplyPosts(m: Machine, reply: Reply)
    requires Reachable(m) && m.lane.inflight != []
    ensures
      var job, queued := m.lane.inflight[0], m.lane.queued;
      Step(m.lane, WriteReply(0, reply)).out ==
      (if reply.Success? && (job.Put? ==> reply.revision.Some? && reply.revision.value >= 1)
       then [Saved(if job.Put? then reply.revision.value else 0)]
       else if reply.Failure? && reply.status == Some(409) && reply.conflict.Some?
       then [Shown(reply.conflict.value.0, reply.conflict.value.1, true), Reported]
       else [Reported]) +
      (if queued.Some? && !m.lane.timer then [Sent(queued.value)] else [])
  {
    ReachableInv(m);
  }

  // ---------------------------------------------------------------- what scheduling does

  /** A set waits for its timer and is stored at once; a delete goes out at once unless a request is in
      flight; a timer that fires sends what is queued unless a request is in flight. */
  lemma {:induction false} SendsExactlyWhen(m: Machine, draft: Draft)
    requires Reachable(m)
    ensures
      var set1 := Next(m, Set(draft));
      && set1.history.sent == m.history.sent && set1.lane.timer && set1.lane.inflight == m.lane.inflight
      && set1.lane.queued == Some(Put(draft)) && DraftOf(set1.lane.cache) == Some(draft)
    ensures
      var deleted := Next(m, Delete);
      if m.lane.busy
      then deleted.history.sent == m.history.sent && deleted.lane.queued == Some(Remove) && !deleted.lane.timer
      else deleted.lane.inflight == [Remove] && deleted.lane.queued.None? && !deleted.lane.timer &&
           deleted.history.sent == m.history.sent + [(|m.history.scheduled| + 1, Remove)]
    ensures m.lane.timer ==>
      var fired := Next(m, Timer);
      if m.lane.busy then fired.history == m.history && fired.lane == m.lane.(timer := false)
      else m.lane.queued.Some? && fired.lane.inflight == [m.lane.queued.value] && fired.lane.queued.None? && !fired.lane.timer &&
           fired.history.sent == m.history.sent + [(|m.history.scheduled|, m.lane.queued.value)]
  {
    ReachableInv(m);
    ObserveOne(m.history, Scheduled(Put(draft)));
    DeleteHistory(m);
    if !m.lane.busy { ObserveOne(m.history.Note(Scheduled(Remove)), Sent(Remove)); }
    if m.lane.timer && !m.lane.busy { ObserveOne(m.history, Sent(m.lane.queued.value)); }
  }

  /** A set keeps the value and the revision that the cache knows, and says nothing to the page. */
  lemma {:induction false} SetKeepsEntry(l: Lane, draft: Draft)
    ensures
      var result := Step(l, Set(draft));
      && result.out == [Scheduled(Put(draft))]
      && result.lane.cache == Some(Entry(if l.cache.Some? then l.cache.value.value else JSON_NULL,
                                         if l.cache.Some? then l.cache.value.revision else 0, Some(draft)))
  {
  }
}
