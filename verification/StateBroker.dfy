/**
 * The broker object of assets/shell/01-state-broker.js: all lanes, local storage, and the
 * suspended asynchronous calls. Each method is one atomic step of the source, is proved to be
 * exactly the step of BrokerLane on its own lane, and leaves every other lane as it was.
 */
module StateBroker {
  import opened Wrappers
  import opened BrokerLane

  datatype Scope = Org | Viewer

  predicate IsKeyChar(c: char) {
    'A' <= c <= 'Z' || 'a' <= c <= 'z' || '0' <= c <= '9' || c == '.' || c == '_' || c == '-'
  }

  predicate IsKey(k: string) {
    1 <= |k| <= 64 && forall i :: 0 <= i < |k| ==> IsKeyChar(k[i])
  }

  type Key = k: string | IsKey(k) witness "a"

  function ScopeName(scope: Scope): string {
    match scope case Org => "org" case Viewer => "viewer"
  }

  function LaneId(scope: Scope, key: Key): string { ScopeName(scope) + ":" + key }

  lemma LaneIdInjective(s1: Scope, k1: Key, s2: Scope, k2: Key)
    ensures LaneId(s1, k1) == LaneId(s2, k2) ==> s1 == s2 && k1 == k2
  {
    var id1, id2 := LaneId(s1, k1), LaneId(s2, k2);
    assert s1 != s2 ==> id1[0] != id2[0];
    if s1 == s2 {
      var n := |ScopeName(s1)| + 1;
      assert id1[n..] == k1 && id2[n..] == k2;
    }
  }

  /** Where an entry lives in local storage; `viewer` is the encoded viewer id. */
  function StorageKey(artifact: string, viewer: string, scope: Scope, key: Key): string {
    var prefix := "artifact-state:" + artifact + ":";
    if scope.Viewer? then prefix + "viewer:" + viewer + ":" + key else prefix + key
  }

  /** An organization entry never collides with a viewer entry: a key has no colon. */
  lemma OrgIsNotViewer(artifact: string, viewer: string, k1: Key, k2: Key)
    ensures StorageKey(artifact, viewer, Org, k1) != StorageKey(artifact, viewer, Viewer, k2)
  {
    var colon := |"artifact-state:" + artifact + ":"| + 6;
    var a, b := StorageKey(artifact, viewer, Org, k1), StorageKey(artifact, viewer, Viewer, k2);
    assert b[colon] == "viewer:"[6];
    assert |a| > colon ==> a[colon] == k1[6] && IsKeyChar(k1[6]);
  }

  /** No two lanes share a storage entry. */
  lemma StorageKeyInjective(artifact: string, viewer: string, s1: Scope, k1: Key, s2: Scope, k2: Key)
    ensures StorageKey(artifact, viewer, s1, k1) == StorageKey(artifact, viewer, s2, k2) ==> s1 == s2 && k1 == k2
  {
    if s1 == s2 {
      var a, b := StorageKey(artifact, viewer, s1, k1), StorageKey(artifact, viewer, s2, k2);
      assert a[|a| - |k1|..] == k1 && b[|b| - |k2|..] == k2;
    } else {
      OrgIsNotViewer(artifact, viewer, if s1.Org? then k1 else k2, if s1.Org? then k2 else k1);
    }
  }

  /** The record that `lane` keeps per lane id. */
  datatype Record = Record(epoch: nat, timer: bool, busy: bool, queued: Option<Job>)

  /** The suspended calls of a lane: what the JavaScript engine holds for it. */
  datatype Suspended = Suspended(inflight: seq<Job>, gets: map<nat, Read>)

  /** The events of a script that are for one lane. */
  ghost function Mine(script: seq<(Scope, Key, Event)>, scope: Scope, key: Key): seq<Event>
    decreases |script|
  {
    if script == [] then []
    else
      var last := |script| - 1;
      var (s, k, e) := script[last];
      Mine(script[..last], scope, key) + if s == scope && k == key then [e] else []
  }

  lemma {:induction false} MineSplit(a: seq<(Scope, Key, Event)>, b: seq<(Scope, Key, Event)>, scope: Scope, key: Key)
    ensures Mine(a + b, scope, key) == Mine(a, scope, key) + Mine(b, scope, key)
    decreases |b|
  {
    if b == [] {
      assert a + b == a;
    } else {
      assert (a + b)[..|a + b| - 1] == a + b[..|b| - 1];
      MineSplit(a, b[..|b| - 1], scope, key);
    }
  }

  lemma {:induction false} MinePrefix(script: seq<(Scope, Key, Event)>, i: nat, scope: Scope, key: Key)
    requires i < |script|
    ensures
      var (s, k, e) := script[i];
      Mine(script[..i + 1], scope, key) ==
      if s == scope && k == key then Mine(script[..i], scope, key) + [e] else Mine(script[..i], scope, key)
    ensures Mine(script, scope, key) == Mine(script[..i + 1], scope, key) + Mine(script[i + 1..], scope, key)
  {
    assert script[..i + 1][..i] == script[..i];
    MineSplit(script[..i + 1], script[i + 1..], scope, key);
    assert script[..i + 1] + script[i + 1..] == script;
  }

  function Tagged(id: string, out: seq<Output>): seq<(string, Output)> {
    seq(|out|, i requires 0 <= i < |out| => (id, out[i]))
  }

  lemma {:induction false} TaggedAppend(id: string, a: seq<Output>, b: seq<Output>)
    ensures Tagged(id, a + b) == Tagged(id, a) + Tagged(id, b)
  {
  }

  /** The messages of an outbox that were posted for one lane. */
  ghost function PostedFor(outbox: seq<(string, Output)>, id: string): seq<Output>
    decreases |outbox|
  {
    if outbox == [] then []
    else
      var last := |outbox| - 1;
      PostedFor(outbox[..last], id) + if outbox[last].0 == id then [outbox[last].1] else []
  }

  lemma {:induction false} PostedMore(outbox: seq<(string, Output)>, id: string, out: seq<Output>, other: string)
    ensures PostedFor(outbox + Tagged(id, out), other) == PostedFor(outbox, other) + if id == other then out else []
    decreases |out|
  {
    if out == [] {
      assert outbox + Tagged(id, out) == outbox;
    } else {
      var last := |out| - 1;
      var all := outbox + Tagged(id, out);
      assert all[..|all| - 1] == outbox + Tagged(id, out[..last]);
      assert all[|all| - 1] == (id, out[last]);
      PostedMore(outbox, id, out[..last], other);
      assert out[..last] + [out[last]] == out;
    }
  }

  class Broker {
    const artifact: string
    const viewer: string
    var lanes: map<string, Record>
    var storage: map<string, Entry>
    var suspended: map<string, Suspended>
    var outbox: seq<(string, Output)>

    constructor (artifact: string, viewer: string, storage: map<string, Entry>)
      ensures this.artifact == artifact && this.viewer == viewer && outbox == []
      ensures forall s: Scope, k: Key :: View(s, k) == Fresh(Stored(s, k))
      ensures this.storage == storage
    {
      this.artifact, this.viewer := artifact, viewer;
      lanes, this.storage, suspended, outbox := map[], storage, map[], [];
    }

    function Slot(scope: Scope, key: Key): string { StorageKey(artifact, viewer, scope, key) }

    function Lookup(scope: Scope, key: Key): Record
      reads this
    {
      var id := LaneId(scope, key);
      if id in lanes then lanes[id] else Record(0, false, false, None)
    }

    function Awaiting(scope: Scope, key: Key): Suspended
      reads this
    {
      var id := LaneId(scope, key);
      if id in suspended then suspended[id] else Suspended([], map[])
    }

    function Stored(scope: Scope, key: Key): Option<Entry>
      reads this
    {
      var slot := Slot(scope, key);
      if slot in storage then Some(storage[slot]) else None
    }

    /** The lane of BrokerLane that this object holds for (scope, key). */
    function View(scope: Scope, key: Key): Lane
      reads this
    {
      var r, a := Lookup(scope, key), Awaiting(scope, key);
      Lane(r.epoch, r.timer, r.busy, r.queued, Stored(scope, key), a.inflight, a.gets)
    }

    twostate predicate OthersKept(scope: Scope, key: Key)
      reads this
    {
      forall s: Scope, k: Key :: s != scope || k != key ==> View(s, k) == old(View(s, k))
    }

    /** What a step of one lane does to the whole broker. */
    twostate predicate Steps(scope: Scope, key: Key, result: Result)
      reads this
    {
      && View(scope, key) == result.lane
      && OthersKept(scope, key)
      && outbox == old(outbox) + Tagged(LaneId(scope, key), result.out)
    }

    // -------------------------------------------------------------- primitive updates

    method Update(scope: Scope, key: Key, r: Record, a: Suspended)
      modifies this
      ensures Steps(scope, key, Result(Lane(r.epoch, r.timer, r.busy, r.queued, old(Stored(scope, key)), a.inflight, a.gets), []))
    {
      lanes, suspended := lanes[LaneId(scope, key) := r], suspended[LaneId(scope, key) := a];
      forall s: Scope, k: Key | s != scope || k != key ensures View(s, k) == old(View(s, k)) {
        LaneIdInjective(s, k, scope, key);
      }
    }

    method Write(scope: Scope, key: Key, entry: Option<Entry>)
      modifies this
      ensures Steps(scope, key, Result(old(View(scope, key)).(cache := entry), []))
    {
      if entry.Some? {
        storage := storage[Slot(scope, key) := entry.value];
      } else {
        storage := storage - {Slot(scope, key)};
      }
      forall s: Scope, k: Key | s != scope || k != key ensures View(s, k) == old(View(s, k)) {
        StorageKeyInjective(artifact, viewer, s, k, scope, key);
      }
    }

    method Send(scope: Scope, key: Key, output: Output)
      modifies this
      ensures Steps(scope, key, Result(old(View(scope, key)), [output]))
    {
      outbox := outbox + [(LaneId(scope, key), output)];
    }

    // -------------------------------------------------------------- the broker's functions

    method Drain(scope: Scope, key: Key)
      modifies this
      ensures Steps(scope, key, BrokerLane.Drain(old(View(scope, key))))
    {
      var current := Lookup(scope, key);
      if current.busy || current.timer || current.queued.None? { return; }
      var job := current.queued.value;
      var awaiting := Awaiting(scope, key);
      Update(scope, key, Record(current.epoch + 1, current.timer, true, None),
             awaiting.(inflight := awaiting.inflight + [job]));
      Send(scope, key, Sent(job));
    }

    method Remember(scope: Scope, key: Key, value: Value, revision: nat)
      modifies this
      ensures Steps(scope, key, Result(BrokerLane.Remember(old(View(scope, key)), value, revision), []))
    {
      var pending := Lookup(scope, key).queued;
      var entry := Entry(value, revision, None);
      if pending.Some? && !pending.value.Remove? { entry := entry.(draft := Some(pending.value.draft)); }
      Write(scope, key, Some(entry));
    }

    method Schedule(scope: Scope, key: Key, job: Job)
      modifies this
      ensures Steps(scope, key, BrokerLane.Schedule(old(View(scope, key)), job))
    {
      var current, awaiting := Lookup(scope, key), Awaiting(scope, key);
      current := Record(current.epoch + 1, job.Put?, current.busy, Some(job));
      Send(scope, key, Scheduled(job));
      Update(scope, key, current, awaiting);
      if job.Remove? {
        TaggedAppend(LaneId(scope, key), [Scheduled(job)], BrokerLane.Drain(View(scope, key)).out);
        Drain(scope, key);
      } else {
        StoreDraft(scope, key, job.draft);
      }
    }

    method StoreDraft(scope: Scope, key: Key, draft: Draft)
      modifies this
      ensures
        var l := old(View(scope, key));
        var entry := if l.cache.Some? then l.cache.value else Entry(JSON_NULL, 0, None);
        Steps(scope, key, Result(l.(cache := Some(entry.(draft := Some(draft)))), []))
    {
      var entry := Stored(scope, key);
      var base := if entry.Some? then entry.value else Entry(JSON_NULL, 0, None);
      Write(scope, key, Some(base.(draft := Some(draft))));
    }

    /** The callback of the 500 ms timer. */
    method TimerFired(scope: Scope, key: Key)
      requires View(scope, key).timer
      modifies this
      ensures Steps(scope, key, Step(old(View(scope, key)), Timer))
    {
      Update(scope, key, Lookup(scope, key).(timer := false), Awaiting(scope, key));
      Drain(scope, key);
    }

    /** `drain` resumed by the reply to its request, up to its `finally`. */
    method Conclude(scope: Scope, key: Key, job: Job, reply: Reply)
      modifies this
      ensures Steps(scope, key, BrokerLane.Conclude(old(View(scope, key)), job, reply))
    {
      if IsAck(job, reply) {
        ConcludeSaved(scope, key, job, reply);
      } else if IsConflict(reply) {
        var (value, revision) := reply.conflict.value;
        Remember(scope, key, value, revision);
        Send(scope, key, Shown(value, revision, true));
        Send(scope, key, Reported);
      } else {
        if !job.Remove? && IsRejection(reply) && Lookup(scope, key).queued.None? {
          var cached := Stored(scope, key);
          if cached.Some? { Write(scope, key, Some(cached.value.(draft := None))); }
        }
        Send(scope, key, Reported);
      }
    }

    method ConcludeSaved(scope: Scope, key: Key, job: Job, reply: Reply)
      requires IsAck(job, reply)
      modifies this
      ensures Steps(scope, key, BrokerLane.Conclude(old(View(scope, key)), job, reply))
    {
      if job.Remove? {
        var pending := Lookup(scope, key).queued;
        Write(scope, key, if pending.Some? && pending.value.Put?
                          then Some(Entry(JSON_NULL, 0, Some(pending.value.draft))) else None);
        Send(scope, key, Saved(0));
      } else {
        Remember(scope, key, job.draft.value, reply.revision.value);
        Send(scope, key, Saved(reply.revision.value));
      }
    }

    /** The reply handled and the lane released, just before the final drain. */
    method Release(scope: Scope, key: Key, index: nat, reply: Reply)
      requires index < |View(scope, key).inflight|
      modifies this
      ensures
        var l := old(View(scope, key));
        Steps(scope, key, Result(Released(l, index, reply), BrokerLane.Conclude(l, l.inflight[index], reply).out))
    {
      var awaiting := Awaiting(scope, key);
      ConcludeFrame(View(scope, key), awaiting.inflight[index], reply);
      Conclude(scope, key, awaiting.inflight[index], reply);
      var current := Lookup(scope, key);
      Update(scope, key, current.(busy := false, epoch := current.epoch + 1),
             awaiting.(inflight := awaiting.inflight[..index] + awaiting.inflight[index + 1..]));
    }

    method ReplyArrived(scope: Scope, key: Key, index: nat, reply: Reply)
      requires index < |View(scope, key).inflight|
      modifies this
      ensures Steps(scope, key, Step(old(View(scope, key)), WriteReply(index, reply)))
    {
      Release(scope, key, index, reply);
      Drain(scope, key);
    }

    method RetryDraft(scope: Scope, key: Key, entry: Entry)
      requires Stored(scope, key) == Some(entry)
      modifies this
      ensures Steps(scope, key, Retried(old(View(scope, key))))
    {
      var current := Lookup(scope, key);
      if entry.draft.Some? && !current.busy && current.queued.None? {
        Schedule(scope, key, Put(entry.draft.value));
      }
    }

    method ShowCached(scope: Scope, key: Key, entry: Entry)
      requires Stored(scope, key) == Some(entry)
      modifies this
      ensures
        var retried := Retried(old(View(scope, key)));
        Steps(scope, key, Result(retried.lane, [ShownFrom(entry)] + retried.out))
    {
      Send(scope, key, ShownFrom(entry));
      TaggedAppend(LaneId(scope, key), [ShownFrom(entry)], Retried(View(scope, key)).out);
      RetryDraft(scope, key, entry);
    }

    method Get(scope: Scope, key: Key, id: nat)
      requires id !in View(scope, key).gets
      modifies this
      ensures Steps(scope, key, Step(old(View(scope, key)), GetStart(id)))
    {
      var cached := Stored(scope, key);
      if cached.Some? { ShowCached(scope, key, cached.value); }
      var awaiting, now := Awaiting(scope, key), Lookup(scope, key);
      Update(scope, key, now, awaiting.(gets := awaiting.gets[id := Read(now.epoch, cached)]));
    }

    /** An accepted answer replaces the cached value, keeps the draft, and is shown if it is news. */
    method Refresh(scope: Scope, key: Key, body: Entry, cached: Option<Entry>)
      modifies this
      ensures
        var l := old(View(scope, key));
        var entry := body.(draft := DraftOf(l.cache));
        var news := cached.None? || cached.value.revision != body.revision;
        Steps(scope, key, Result(l.(cache := if body.revision == 0 && entry.draft.None? then None else Some(entry)),
                                 if news then [Shown(body.value, body.revision, false)] else []))
    {
      var latest := Stored(scope, key);
      var entry := body.(draft := DraftOf(latest));
      Write(scope, key, if body.revision == 0 && entry.draft.None? then None else Some(entry));
      if cached.None? || cached.value.revision != body.revision {
        Send(scope, key, Shown(body.value, body.revision, false));
      }
    }

    /** `get` resumed by the answer to its request. */
    method AnswerArrived(scope: Scope, key: Key, id: nat, answer: Answer)
      requires id in View(scope, key).gets
      modifies this
      ensures Steps(scope, key, Step(old(View(scope, key)), GetReply(id, answer)))
    {
      var awaiting, current := Awaiting(scope, key), Lookup(scope, key);
      var read := awaiting.gets[id];
      Update(scope, key, current, awaiting.(gets := awaiting.gets - {id}));
      if answer.Failed? || answer.Malformed? { Send(scope, key, Reported); return; }
      var body := if answer.Found? then Entry(answer.value, answer.revision, None) else Entry(JSON_NULL, 0, None);
      if current.epoch != read.epoch || current.busy { return; }
      Refresh(scope, key, body, read.cached);
    }

    // -------------------------------------------------------------- whole runs

    method Dispatch(scope: Scope, key: Key, e: Event)
      requires Enabled(View(scope, key), e)
      modifies this
      ensures Steps(scope, key, Step(old(View(scope, key)), e))
    {
      match e
      case Set(draft) => Schedule(scope, key, Put(draft));
      case Delete => Schedule(scope, key, Remove);
      case Timer => TimerFired(scope, key);
      case WriteReply(index, reply) => ReplyArrived(scope, key, index, reply);
      case GetStart(id) => Get(scope, key, id);
      case GetReply(id, answer) => AnswerArrived(scope, key, id, answer);
    }

    /** This lane is where the run of `events` from `cache` leads, and the messages posted for it are
        those of that run. */
    ghost predicate Follows(scope: Scope, key: Key, cache: Option<Entry>, events: seq<Event>)
      reads this
    {
      && IsRun(Start(cache), events)
      && View(scope, key) == Run(Start(cache), events).lane
      && PostedFor(outbox, LaneId(scope, key)) == Outputs(Start(cache), events)
    }

    /** A step of one lane makes that lane follow its run one event further. */
    method DispatchNext(scope: Scope, key: Key, e: Event, ghost cache: Option<Entry>, ghost events: seq<Event>)
      requires Follows(scope, key, cache, events) && IsRun(Start(cache), events + [e])
      modifies this
      ensures Follows(scope, key, cache, events + [e]) && OthersKept(scope, key)
      ensures forall s: Scope, k: Key :: s != scope || k != key ==>
                PostedFor(outbox, LaneId(s, k)) == old(PostedFor(outbox, LaneId(s, k)))
    {
      OutputsThenStep(Start(cache), events, e);
      RunThenStep(Start(cache), events, e);
      ghost var out := Step(View(scope, key), e).out;
      ghost var posted := outbox;
      Dispatch(scope, key, e);
      forall s: Scope, k: Key
        ensures PostedFor(outbox, LaneId(s, k)) ==
                PostedFor(posted, LaneId(s, k)) + if s == scope && k == key then out else []
      {
        LaneIdInjective(s, k, scope, key);
        PostedMore(posted, LaneId(scope, key), out, LaneId(s, k));
      }
    }

    /** However the events of all lanes interleave, every lane of a new broker goes through exactly the
        run of its own events, so all that is proved of reachable machines holds of this object, with
        the history that its own messages show. */
    method Serve(script: seq<(Scope, Key, Event)>)
      requires outbox == [] && forall s: Scope, k: Key :: View(s, k) == Fresh(Stored(s, k))
      requires forall s: Scope, k: Key :: IsRun(Start(Stored(s, k)), Mine(script, s, k))
      modifies this
      ensures forall s: Scope, k: Key :: Follows(s, k, old(Stored(s, k)), Mine(script, s, k))
    {
      for i := 0 to |script|
        invariant forall s: Scope, k: Key :: Follows(s, k, old(Stored(s, k)), Mine(script[..i], s, k))
      {
        var (scope, key, e) := script[i];
        MinePrefix(script, i, scope, key);
        RunPrefix(Start(old(Stored(scope, key))), Mine(script[..i + 1], scope, key), Mine(script[i + 1..], scope, key));
        DispatchNext(scope, key, e, old(Stored(scope, key)), Mine(script[..i], scope, key));
        forall s: Scope, k: Key ensures Follows(s, k, old(Stored(s, k)), Mine(script[..i + 1], s, k)) {
          MinePrefix(script, i, s, k);
        }
      }
      assert script[..|script|] == script;
    }
  }
}
