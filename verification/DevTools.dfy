/**
 * The table of pending DevTools commands (browser-tests/src/connection.rs). Callers, the reader
 * task and page shutdown interleave at every lock and `await`.
 */
module DevTools {
  import opened Wrappers

  type Id = nat
  type SessionId = string

  datatype Pending = Pending(session: Option<SessionId>)

  /** What can be sent down a command's one-shot channel. */
  datatype Message = Reply(value: string) | SessionFailed | ConnectionClosed

  /** How a call ends. */
  datatype Outcome = Delivered(message: Message) | Refused | WriteError | TimedOut

  /** Where a caller is: still writing its command, or waiting for the reply. */
  datatype Phase = Writing | Waiting

  /** `pending`, `sessions` and `closed` are the `Shared` of the source. `channels` holds messages sent
      but not received yet; `callers` the calls that have not returned; `outcomes` those that have. */
  datatype Connection = Connection(
    next: Id, pending: map<Id, Pending>, sessions: set<SessionId>, closed: bool,
    callers: map<Id, Phase>, channels: map<Id, Message>, outcomes: map<Id, Outcome>)

  /** One event per critical section. `Forget` is `sessions.remove`; closing, detaching and crashing a
      page end in `Fail`. A message that has been taken from the table counts as in its channel. */
  datatype Event =
    | Call(on: Option<SessionId>)
    | Wrote(id: Id, ok: bool)
    | Received(id: Id)
    | Timeout(id: Id)
    | OnReply(id: Id, value: string)
    | Register(session: SessionId)
    | Forget(session: SessionId)
    | Fail(session: SessionId)
    | Close

  // ---------------------------------------------------------------- operations

  function Return(c: Connection, id: Id, outcome: Outcome): Connection {
    c.(callers := c.callers - {id}, outcomes := c.outcomes[id := outcome])
  }

  /** The start of `call`: take an id, then register or refuse under the lock. */
  function Begin(c: Connection, session: Option<SessionId>): Connection {
    var id := c.next + 1;
    if c.closed then c.(next := id, outcomes := c.outcomes[id := Refused])
    else c.(next := id, pending := c.pending[id := Pending(session)], callers := c.callers[id := Writing])
  }

  function AfterWrite(c: Connection, id: Id, ok: bool): Connection {
    if ok then c.(callers := c.callers[id := Waiting])
    else Return(c.(pending := c.pending - {id}, channels := c.channels - {id}), id, WriteError)
  }

  function Receive(c: Connection, id: Id): Connection
    requires id in c.channels
  {
    Return(c.(channels := c.channels - {id}), id, Delivered(c.channels[id]))
  }

  /** The timeout drops the receiver, and with it a message that came too late. */
  function GiveUp(c: Connection, id: Id): Connection {
    Return(c.(pending := c.pending - {id}, channels := c.channels - {id}), id, TimedOut)
  }

  function Answer(c: Connection, id: Id, value: string): Connection {
    if id !in c.pending then c
    else c.(pending := c.pending - {id}, channels := c.channels[id := Reply(value)])
  }

  predicate WaitsOn(p: Pending, session: SessionId) { p.session == Some(session) }

  function AllFailed(ids: set<Id>): map<Id, Message> {
    map id | id in ids :: SessionFailed
  }

  /** `fail_session`: the commands pending on `session`. */
  function SessionFailure(c: Connection, session: SessionId): Connection {
    var failed := set id | id in c.pending && WaitsOn(c.pending[id], session);
    c.(pending := c.pending - failed, channels := c.channels + AllFailed(failed))
  }

  function Shut(c: Connection): Connection {
    c.(closed := true, sessions := {}, pending := map[],
       channels := c.channels + map id | id in c.pending :: ConnectionClosed)
  }

  predicate Enabled(c: Connection, e: Event) {
    match e
    case Wrote(id, _) => id in c.callers && c.callers[id] == Writing
    case Received(id) => id in c.callers && c.callers[id] == Waiting && id in c.channels
    case Timeout(id) => id in c.callers && c.callers[id] == Waiting
    case _ => true
  }

  function Step(c: Connection, e: Event): Connection
    requires Enabled(c, e)
  {
    match e
    case Call(on) => Begin(c, on)
    case Wrote(id, ok) => AfterWrite(c, id, ok)
    case Received(id) => Receive(c, id)
    case Timeout(id) => GiveUp(c, id)
    case OnReply(id, value) => Answer(c, id, value)
    case Register(session) => c.(sessions := c.sessions + {session})
    case Forget(session) => c.(sessions := c.sessions - {session})
    case Fail(session) => SessionFailure(c, session)
    case Close => Shut(c)
  }

  const START := Connection(0, map[], {}, false, map[], map[], map[])

  // ---------------------------------------------------------------- invariant

  /** A call that has not returned has its entry in the table or its message in the channel, never
      both; a call that has returned has neither; and a closed connection has an empty table. */
  ghost predicate Inv(c: Connection) {
    && c.pending.Keys + c.channels.Keys == c.callers.Keys
    && c.pending.Keys !! c.channels.Keys
    && c.callers.Keys !! c.outcomes.Keys
    && (forall id :: id in c.callers || id in c.outcomes <==> 1 <= id <= c.next)
    && (c.closed ==> c.pending == map[])
  }

  lemma {:induction false} FailKeepsInv(c: Connection, session: SessionId)
    requires Inv(c)
    ensures Inv(SessionFailure(c, session))
  {
    var d := SessionFailure(c, session);
    assert d.pending.Keys + d.channels.Keys == c.pending.Keys + c.channels.Keys;
  }

  lemma {:induction false} ShutKeepsInv(c: Connection)
    requires Inv(c)
    ensures Inv(Shut(c))
  {
    var d := Shut(c);
    assert d.channels.Keys == c.channels.Keys + c.pending.Keys;
  }

  lemma {:induction false} StepKeepsInv(c: Connection, e: Event)
    requires Inv(c) && Enabled(c, e)
    ensures Inv(Step(c, e))
  {
    match e
    case Call(on) =>
    case Wrote(id, ok) =>
    case Received(id) =>
    case Timeout(id) =>
    case OnReply(id, value) =>
    case Register(session) =>
    case Forget(session) =>
    case Fail(session) => FailKeepsInv(c, session);
    case Close => ShutKeepsInv(c);
  }

  // ---------------------------------------------------------------- who answers

  /** An outcome, once there, never changes, and a step adds at most one: the outcome of its own call,
      for one of the reasons listed. */
  lemma {:induction false} OutcomesAreFinal(c: Connection, e: Event, id: Id)
    requires Inv(c) && Enabled(c, e)
    ensures id in c.outcomes ==> id in Step(c, e).outcomes && Step(c, e).outcomes[id] == c.outcomes[id]
    ensures id !in c.outcomes && id in Step(c, e).outcomes ==>
      match Step(c, e).outcomes[id]
      case Delivered(m) => e == Received(id) && id in c.channels && m == c.channels[id]
      case Refused => e.Call? && c.closed && id == c.next + 1
      case WriteError => e == Wrote(id, false)
      case TimedOut => e == Timeout(id)
  {
  }

  /** A message enters a channel only from the command's own reply, the failure of its session, or the
      close of the connection, and only while the command is pending. */
  lemma {:induction false} MessagesHaveACause(c: Connection, e: Event, id: Id)
    requires Inv(c) && Enabled(c, e) && id in Step(c, e).channels
    ensures
      (id in c.channels && Step(c, e).channels[id] == c.channels[id]) ||
      (id in c.pending &&
       match Step(c, e).channels[id]
       case Reply(value) => e == OnReply(id, value)
       case SessionFailed => e.Fail? && c.pending[id].session == Some(e.session)
       case ConnectionClosed => e.Close?)
  {
  }

  /** Failing a session fails exactly the commands pending on it. */
  lemma {:induction false} FailSessionIsExact(c: Connection, session: SessionId, id: Id)
    requires Inv(c) && id in c.pending
    ensures
      var d := SessionFailure(c, session);
      if c.pending[id].session == Some(session)
      then id !in d.pending && id in d.channels && d.channels[id] == SessionFailed
      else id in d.pending && d.pending[id] == c.pending[id] && id !in d.channels
  {
  }

  // ---------------------------------------------------------------- whole runs

  ghost predicate IsRun(c: Connection, events: seq<Event>)
    decreases |events|
  {
    events == [] || (Enabled(c, events[0]) && IsRun(Step(c, events[0]), events[1..]))
  }

  ghost function Run(c: Connection, events: seq<Event>): Connection
    requires IsRun(c, events)
    decreases |events|
  {
    if events == [] then c else Run(Step(c, events[0]), events[1..])
  }

  lemma {:induction false} RunKeepsInv(c: Connection, events: seq<Event>)
    requires Inv(c) && IsRun(c, events)
    ensures Inv(Run(c, events)) && (c.closed ==> Run(c, events).closed)
    ensures forall id :: id in c.outcomes ==>
              id in Run(c, events).outcomes && Run(c, events).outcomes[id] == c.outcomes[id]
    decreases |events|
  {
    if events != [] {
      StepKeepsInv(c, events[0]);
      var d := Step(c, events[0]);
      forall id | id in c.outcomes ensures id in d.outcomes && d.outcomes[id] == c.outcomes[id] {
        OutcomesAreFinal(c, events[0], id);
      }
      RunKeepsInv(d, events[1..]);
    }
  }

  /** Each id handed out is either still called for, with a table entry or a message on its way, or has
      an outcome; and a closed connection has an empty table. */
  ghost predicate Accounted(c: Connection) {
    && (forall id :: 1 <= id <= c.next ==> (id in c.callers) != (id in c.outcomes))
    && (forall id :: id in c.callers ==> (id in c.pending) != (id in c.channels))
    && (c.closed ==> c.pending == map[])
  }

  lemma {:induction false} InvAccounts(c: Connection)
    requires Inv(c)
    ensures Accounted(c)
  {
    assert forall id :: 1 <= id <= c.next ==> id in c.callers.Keys || id in c.outcomes.Keys;
  }

  /** Over every run, every id is accounted for, its outcome is one that no later event can change, and
      once closed the table stays empty, whatever still happens. */
  lemma {:induction false} AnsweredAtMostOnce(before: seq<Event>, after: seq<Event>)
    requires IsRun(START, before) && IsRun(Run(START, before), after)
    ensures
      var c := Run(START, before);
      var d := Run(c, after);
      && Accounted(c) && Accounted(d)
      && (forall id :: id in c.outcomes ==> id in d.outcomes && d.outcomes[id] == c.outcomes[id])
      && (c.closed ==> d.closed && d.pending == map[])
  {
    RunKeepsInv(START, before);
    var c := Run(START, before);
    RunKeepsInv(c, after);
    InvAccounts(c);
    InvAccounts(Run(c, after));
  }

  // ---------------------------------------------------------------- effects

  /** Nothing changes for any command but `id`. */
  ghost predicate OthersKept(c: Connection, d: Connection, id: Id) {
    forall k :: k != id ==>
      && (k in d.pending <==> k in c.pending) && (k in c.pending && k in d.pending ==> d.pending[k] == c.pending[k])
      && (k in d.channels <==> k in c.channels) && (k in c.channels && k in d.channels ==> d.channels[k] == c.channels[k])
      && (k in d.callers <==> k in c.callers) && (k in c.callers && k in d.callers ==> d.callers[k] == c.callers[k])
      && (k in d.outcomes <==> k in c.outcomes) && (k in c.outcomes && k in d.outcomes ==> d.outcomes[k] == c.outcomes[k])
  }

  /** A reply takes exactly its own command off the table and sends it the value; a reply that nobody waits
      for does nothing. */
  lemma {:induction false} ReplyMeaning(c: Connection, id: Id, value: string)
    requires Inv(c)
    ensures
      var d := Step(c, OnReply(id, value));
      && (id !in c.pending ==> d == c)
      && (id in c.pending ==>
            id !in d.pending && id in d.channels && d.channels[id] == Reply(value) && OthersKept(c, d, id) &&
            d.callers == c.callers && d.closed == c.closed && d.sessions == c.sessions && d.next == c.next)
  {
  }

  /** A call takes the next id. On an open connection it waits for its session's replies; on a closed one
      it is refused. */
  lemma {:induction false} CallMeaning(c: Connection, on: Option<SessionId>)
    requires Inv(c)
    ensures
      var d, id := Step(c, Call(on)), c.next + 1;
      && d.next == id && OthersKept(c, d, id) && d.closed == c.closed
      && (if c.closed then id in d.outcomes && d.outcomes[id] == Refused && id !in d.pending && id !in d.callers
          else id in d.pending && d.pending[id].session == on && id in d.callers && d.callers[id] == Writing &&
               id !in d.channels && id !in d.outcomes)
  {
  }

  /** The ends of a call: what it received, its own write error, or its own timeout; each takes the command
      back from the table. */
  lemma {:induction false} EndMeaning(c: Connection, id: Id)
    requires Inv(c) && id in c.callers
    ensures c.callers[id] == Waiting ==>
      var d := Step(c, Timeout(id));
      d.outcomes == c.outcomes[id := TimedOut] && id !in d.pending && id !in d.channels && id !in d.callers &&
      OthersKept(c, d, id)
    ensures c.callers[id] == Waiting && id in c.channels ==>
      var d := Step(c, Received(id));
      d.outcomes == c.outcomes[id := Delivered(c.channels[id])] && id !in d.pending && id !in d.channels &&
      id !in d.callers && OthersKept(c, d, id)
    ensures c.callers[id] == Writing ==>
      var d := Step(c, Wrote(id, false));
      d.outcomes == c.outcomes[id := WriteError] && id !in d.pending && id !in d.channels && id !in d.callers &&
      OthersKept(c, d, id)
    ensures c.callers[id] == Writing ==> Step(c, Wrote(id, true)) == c.(callers := c.callers[id := Waiting])
  {
  }

  /** From the i-th event on the session is not forgotten and the connection not closed. */
  ghost predicate KeptFrom(events: seq<Event>, i: nat, session: SessionId) {
    forall j :: i <= j < |events| ==> events[j] != Forget(session) && events[j] != Close
  }

  ghost predicate RegisteredAt(events: seq<Event>, i: nat, session: SessionId) {
    i < |events| && events[i] == Register(session) && KeptFrom(events, i + 1, session)
  }

  /** A session gets events exactly from when it is registered to when it is forgotten or the connection closes. */
  lemma {:induction false} SessionsMeaning(c: Connection, events: seq<Event>, session: SessionId)
    requires IsRun(c, events)
    ensures session in Run(c, events).sessions <==>
            || (session in c.sessions && KeptFrom(events, 0, session))
            || exists i: nat :: RegisteredAt(events, i, session)
    decreases |events|
  {
    if events != [] {
      var e, rest := events[0], events[1..];
      var d := Step(c, e);
      StepSessions(c, e, session);
      SessionsMeaning(d, rest, session);
      assert forall j :: 0 < j < |events| ==> events[j] == rest[j - 1];
      assert forall j :: 0 <= j < |rest| ==> rest[j] == events[j + 1];
      assert KeptFrom(events, 1, session) <==> KeptFrom(rest, 0, session);
      assert RegisteredAt(events, 0, session) <==> e == Register(session) && KeptFrom(rest, 0, session);
      if i: nat :| RegisteredAt(rest, i, session) { assert RegisteredAt(events, i + 1, session); }
      if i: nat :| RegisteredAt(events, i, session) { assert i > 0 ==> RegisteredAt(rest, i - 1, session); }
    }
  }

  lemma {:induction false} StepSessions(c: Connection, e: Event, session: SessionId)
    requires Enabled(c, e)
    ensures session in Step(c, e).sessions <==>
            e == Register(session) || (session in c.sessions && e != Forget(session) && e != Close)
  {
  }

  /** Closing sends the close to exactly the commands that are pending, ends the sessions, and leaves
      messages already on their way. */
  lemma {:induction false} CloseMeaning(c: Connection)
    requires Inv(c)
    ensures
      var d := Step(c, Close);
      && d.closed && d.pending == map[] && d.sessions == {} && d.callers == c.callers && d.outcomes == c.outcomes
      && (forall id :: id in c.pending ==> id in d.channels && d.channels[id] == ConnectionClosed)
      && (forall id :: id !in c.pending ==> (id in d.channels <==> id in c.channels))
      && (forall id :: id in c.channels ==> d.channels[id] == c.channels[id])
  {
  }

  /** The event is the end of the call `id`. */
  predicate Ends(e: Event, id: Id) {
    e == Received(id) || e == Timeout(id) || e == Wrote(id, false)
  }

  /** A message that is on its way stays until its call ends. */
  lemma {:induction false} MessageWaits(c: Connection, events: seq<Event>, id: Id)
    requires Inv(c) && IsRun(c, events) && id in c.channels
    requires forall i :: 0 <= i < |events| ==> !Ends(events[i], id)
    ensures
      var d := Run(c, events);
      && id in d.channels && d.channels[id] == c.channels[id] && id in d.callers
      && (c.callers[id] == Waiting ==> d.callers[id] == Waiting)
    decreases |events|
  {
    assert id in c.pending.Keys + c.channels.Keys;
    if events != [] {
      var e, n := events[0], Step(c, events[0]);
      StepKeepsInv(c, e);
      assert !Ends(events[0], id);
      StepKeepsMessage(c, e, id);
      forall i | 0 <= i < |events[1..]| ensures !Ends(events[1..][i], id) { assert events[1..][i] == events[i + 1]; }
      MessageWaits(n, events[1..], id);
    }
  }

  lemma {:induction false} StepKeepsMessage(c: Connection, e: Event, id: Id)
    requires Inv(c) && Enabled(c, e) && id in c.channels && id in c.callers && !Ends(e, id)
    ensures
      var n := Step(c, e);
      && id in n.channels && n.channels[id] == c.channels[id]
      && id in n.callers && (c.callers[id] == Waiting ==> n.callers[id] == Waiting)
  {
    assert id !in c.pending;
    IdIsOld(c, id);
  }

  lemma {:induction false} IdIsOld(c: Connection, id: Id)
    requires Inv(c) && id in c.callers
    ensures id <= c.next
  {
  }

  /** A reply reaches its caller: if the command is pending and written, then whatever happens until its call
      ends, the call can end with exactly that value. */
  lemma {:induction false} ReplyReachesCaller(c: Connection, id: Id, value: string, events: seq<Event>)
    requires Inv(c) && id in c.pending && id in c.callers && c.callers[id] == Waiting
    requires IsRun(Step(c, OnReply(id, value)), events) && forall i :: 0 <= i < |events| ==> !Ends(events[i], id)
    ensures
      var d := Run(Step(c, OnReply(id, value)), events);
      Enabled(d, Received(id)) &&
      var e := Step(d, Received(id));
      id in e.outcomes && e.outcomes[id] == Delivered(Reply(value))
  {
    StepKeepsInv(c, OnReply(id, value));
    MessageWaits(Step(c, OnReply(id, value)), events, id);
  }

  // ---------------------------------------------------------------- causes

  /** The sessions the calls of a run were made on: command `id` is the call at `id - 1`. */
  ghost function CallsIn(past: seq<Event>): seq<Option<SessionId>>
    decreases |past|
  {
    if past == [] then []
    else CallsIn(past[..|past| - 1]) + (match past[|past| - 1] case Call(on) => [on] case _ => [])
  }

  /** What happened before the call that made command `id`, and what happened after it. */
  ghost function Before(past: seq<Event>, id: Id): seq<Event>
    decreases |past|
  {
    if past == [] then []
    else
      var earlier := past[..|past| - 1];
      if |CallsIn(earlier)| >= id then Before(earlier, id) else earlier
  }

  ghost function Since(past: seq<Event>, id: Id): seq<Event>
    decreases |past|
  {
    if past == [] then []
    else
      var earlier := past[..|past| - 1];
      if |CallsIn(earlier)| >= id then Since(earlier, id) + [past[|past| - 1]] else []
  }

  /** The only three things that can be sent to command `id`, each for an event after its call: its reply,
      the failure of the session it was called on, the close of the connection. */
  ghost predicate SentBecause(past: seq<Event>, id: Id, m: Message) {
    match m
    case Reply(value) => OnReply(id, value) in Since(past, id)
    case SessionFailed =>
      1 <= id <= |CallsIn(past)| && CallsIn(past)[id - 1].Some? &&
      Fail(CallsIn(past)[id - 1].value) in Since(past, id)
    case ConnectionClosed => Close in Since(past, id)
  }

  /** A call is refused for a close before it, and otherwise ends for an event after it. */
  ghost predicate EndedBecause(past: seq<Event>, id: Id, outcome: Outcome) {
    match outcome
    case Delivered(m) => SentBecause(past, id, m)
    case Refused => Close in Before(past, id)
    case WriteError => Wrote(id, false) in Since(past, id)
    case TimedOut => Timeout(id) in Since(past, id)
  }

  ghost predicate Explained(past: seq<Event>, c: Connection) {
    && Inv(c)
    && |CallsIn(past)| == c.next
    && (c.closed ==> Close in past)
    && (forall id :: id in c.pending ==> 1 <= id <= c.next && c.pending[id].session == CallsIn(past)[id - 1])
    && (forall id :: id in c.channels ==> SentBecause(past, id, c.channels[id]))
    && (forall id :: id in c.outcomes ==> EndedBecause(past, id, c.outcomes[id]))
  }

  lemma {:induction false} PastGrows(past: seq<Event>, e: Event, id: Id)
    ensures |CallsIn(past)| >= id ==> Since(past + [e], id) == Since(past, id) + [e] && Before(past + [e], id) == Before(past, id)
    ensures |CallsIn(past)| < id ==> Before(past + [e], id) == past
  {
    assert (past + [e])[..|past + [e]| - 1] == past;
  }

  lemma {:induction false} CallsGrow(past: seq<Event>, e: Event)
    ensures CallsIn(past + [e]) == CallsIn(past) + (match e case Call(on) => [on] case _ => [])
  {
    assert (past + [e])[..|past + [e]| - 1] == past;
  }

  lemma {:induction false} CausesLast(past: seq<Event>, e: Event, id: Id, m: Message)
    requires SentBecause(past, id, m) && id <= |CallsIn(past)|
    ensures SentBecause(past + [e], id, m)
  {
    CallsGrow(past, e);
    PastGrows(past, e, id);
  }

  lemma {:induction false} IdsAreCalled(c: Connection, id: Id)
    requires Inv(c)
    ensures id in c.pending || id in c.channels || id in c.callers || id in c.outcomes ==> 1 <= id <= c.next
  {
    if id in c.pending || id in c.channels { assert id in c.pending.Keys + c.channels.Keys; }
  }

  lemma {:induction false} MessageExplained(past: seq<Event>, c: Connection, e: Event, id: Id)
    requires Explained(past, c) && Enabled(c, e) && id in Step(c, e).channels
    ensures SentBecause(past + [e], id, Step(c, e).channels[id])
  {
    MessagesHaveACause(c, e, id);
    CallsGrow(past, e);
    IdsAreCalled(c, id);
    PastGrows(past, e, id);
    if id in c.channels { CausesLast(past, e, id, c.channels[id]); }
  }

  lemma {:induction false} OutcomeExplained(past: seq<Event>, c: Connection, e: Event, id: Id)
    requires Explained(past, c) && Enabled(c, e) && id in Step(c, e).outcomes
    ensures EndedBecause(past + [e], id, Step(c, e).outcomes[id])
  {
    OutcomesAreFinal(c, e, id);
    CallsGrow(past, e);
    IdsAreCalled(c, id);
    PastGrows(past, e, id);
    if id in c.outcomes && c.outcomes[id].Delivered? { CausesLast(past, e, id, c.outcomes[id].message); }
    if id in c.channels { CausesLast(past, e, id, c.channels[id]); }
  }

  lemma {:induction false} StepExplained(past: seq<Event>, c: Connection, e: Event)
    requires Explained(past, c) && Enabled(c, e)
    ensures Explained(past + [e], Step(c, e))
  {
    StepKeepsInv(c, e);
    CallsGrow(past, e);
    var d := Step(c, e);
    forall id | id in d.channels ensures SentBecause(past + [e], id, d.channels[id]) {
      MessageExplained(past, c, e, id);
    }
    forall id | id in d.outcomes ensures EndedBecause(past + [e], id, d.outcomes[id]) {
      OutcomeExplained(past, c, e, id);
    }
  }

  lemma {:induction false} RunExplained(past: seq<Event>, c: Connection, events: seq<Event>)
    requires Explained(past, c) && IsRun(c, events)
    ensures Explained(past + events, Run(c, events))
    decreases |events|
  {
    if events == [] {
      assert past + events == past;
    } else {
      StepExplained(past, c, events[0]);
      RunExplained(past + [events[0]], Step(c, events[0]), events[1..]);
      assert past + [events[0]] + events[1..] == past + events;
    }
  }

  /** Over every run, a call that returned did so because of an event about it: its own reply, its own
      timeout or write error, a failure of the session it was made on, or the close. */
  lemma {:induction false} AnsweredOnlyForACause(events: seq<Event>, id: Id)
    requires IsRun(START, events) && id in Run(START, events).outcomes
    ensures EndedBecause(events, id, Run(START, events).outcomes[id])
  {
    RunExplained([], START, events);
    assert [] + events == events;
  }

  // ---------------------------------------------------------------- the shared table

  /** All of `ids` but `todo` have been taken and sent. */
  ghost predicate Taken(was: map<Id, Pending>, sent: map<Id, Message>, ids: set<Id>, todo: set<Id>,
                        pending: map<Id, Pending>, channels: map<Id, Message>) {
    pending == was - (ids - todo) && channels == sent + AllFailed(ids - todo)
  }

  lemma {:induction false} NoneTaken(was: map<Id, Pending>, sent: map<Id, Message>, ids: set<Id>)
    ensures Taken(was, sent, ids, ids, was, sent)
  {
    assert AllFailed(ids - ids) == map[];
  }

  lemma {:induction false} AllTaken(was: map<Id, Pending>, sent: map<Id, Message>, ids: set<Id>,
                                    pending: map<Id, Pending>, channels: map<Id, Message>)
    requires Taken(was, sent, ids, {}, pending, channels)
    ensures pending == was - ids && channels == sent + AllFailed(ids)
  {
    assert ids - {} == ids;
  }

  lemma {:induction false} TakeOneMore(was: map<Id, Pending>, sent: map<Id, Message>, ids: set<Id>,
                                       todo: set<Id>, pending: map<Id, Pending>,
                                       channels: map<Id, Message>, id: Id)
    requires Taken(was, sent, ids, todo, pending, channels) && id in todo && todo <= ids
    ensures Taken(was, sent, ids, todo - {id}, pending - {id}, channels[id := SessionFailed])
  {
    assert ids - (todo - {id}) == (ids - todo) + {id};
  }

  /** Remove each id from the table and send its failure. */
  method TakeAndSend(was: map<Id, Pending>, sent: map<Id, Message>, ids: set<Id>)
    returns (pending: map<Id, Pending>, channels: map<Id, Message>)
    ensures pending == was - ids && channels == sent + AllFailed(ids)
  {
    pending, channels := was, sent;
    var todo := ids;
    NoneTaken(was, sent, ids);
    while todo != {}
      invariant todo <= ids && Taken(was, sent, ids, todo, pending, channels)
      decreases |todo|
    {
      var id :| id in todo;
      TakeOneMore(was, sent, ids, todo, pending, channels, id);
      pending := pending - {id};
      channels := channels[id := SessionFailed];
      todo := todo - {id};
    }
    AllTaken(was, sent, ids, pending, channels);
  }

  class Shared {
    var next: Id
    var pending: map<Id, Pending>
    var sessions: set<SessionId>
    var closed: bool
    var callers: map<Id, Phase>
    var channels: map<Id, Message>
    var outcomes: map<Id, Outcome>

    constructor ()
      ensures State() == START
    {
      next, pending, sessions, closed := 0, map[], {}, false;
      callers, channels, outcomes := map[], map[], map[];
    }

    function State(): Connection
      reads this
    {
      Connection(next, pending, sessions, closed, callers, channels, outcomes)
    }

    method Call(session: Option<SessionId>) returns (id: Id)
      modifies this
      ensures State() == Begin(old(State()), session) && id == next
    {
      next := next + 1;
      id := next;
      if closed {
        outcomes := outcomes[id := Refused];
        return;
      }
      pending := pending[id := Pending(session)];
      callers := callers[id := Writing];
    }

    /** The write failed: take the command back. */
    method WriteFailed(id: Id)
      modifies this`pending, this`callers, this`channels, this`outcomes
      ensures State() == AfterWrite(old(State()), id, false)
    {
      pending, channels := pending - {id}, channels - {id};
      callers, outcomes := callers - {id}, outcomes[id := WriteError];
    }

    /** What `call` does when its wait ends: with the message, or at the timeout without one. The source
        has a third arm, for a sender dropped unsent; `Inv` leaves it no state to happen in. */
    method WaitEnds(id: Id, expired: bool)
      requires expired || id in channels
      modifies this`pending, this`callers, this`channels, this`outcomes
      ensures State() == if expired then GiveUp(old(State()), id) else Receive(old(State()), id)
    {
      if expired {
        pending := pending - {id};
        outcomes := outcomes[id := TimedOut];
      } else {
        outcomes := outcomes[id := Delivered(channels[id])];
      }
      channels, callers := channels - {id}, callers - {id};
    }

    method OnReply(id: Id, value: string)
      modifies this`pending, this`channels
      ensures State() == Answer(old(State()), id, value)
    {
      if id in pending {
        pending := pending - {id};
        channels := channels[id := Reply(value)];
      }
    }

    /** Collect the ids under the lock, remove them, then send. */
    method FailSession(session: SessionId)
      modifies this`pending, this`channels
      ensures State() == SessionFailure(old(State()), session)
    {
      var ids := set id | id in pending && WaitsOn(pending[id], session);
      pending, channels := TakeAndSend(pending, channels, ids);
    }

    method Close()
      modifies this`pending, this`channels, this`sessions, this`closed
      ensures State() == Shut(old(State()))
    {
      closed, sessions := true, {};
      channels := channels + map id | id in pending :: ConnectionClosed;
      pending := map[];
    }

    method Dispatch(e: Event)
      requires Inv(State()) && Enabled(State(), e)
      modifies this
      ensures State() == Step(old(State()), e) && Inv(State())
    {
      StepKeepsInv(State(), e);
      match e
      case Call(on) => var _ := Call(on);
      case Wrote(id, ok) => if ok { callers := callers[id := Waiting]; } else { WriteFailed(id); }
      case Received(id) => WaitEnds(id, false);
      case Timeout(id) => WaitEnds(id, true);
      case OnReply(id, value) => OnReply(id, value);
      case Register(session) => sessions := sessions + {session};
      case Forget(session) => sessions := sessions - {session};
      case Fail(session) => FailSession(session);
      case Close => Close();
    }

    /** However callers, the reader task and page shutdown interleave, this object follows the run of
        those events, every id stays accounted for and every outcome stays as it is. */
    method Serve(events: seq<Event>)
      requires Inv(State()) && IsRun(State(), events)
      modifies this
      ensures State() == Run(old(State()), events)
      ensures Inv(State()) && Accounted(State())
      ensures forall id :: id in old(outcomes) ==> id in outcomes && outcomes[id] == old(outcomes)[id]
    {
      RunKeepsInv(State(), events);
      for i := 0 to |events|
        invariant Inv(State()) && IsRun(State(), events[i..])
        invariant Run(State(), events[i..]) == Run(old(State()), events)
      {
        assert events[i..][0] == events[i] && events[i..][1..] == events[i + 1..];
        Dispatch(events[i]);
      }
      InvAccounts(State());
    }
  }
}
