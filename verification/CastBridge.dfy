/**
 * Session ownership in the cast bridge (assets/cast.js): operation tokens against stale
 * completions of `pair`, and a stop request for every session that is not kept. Each `await` is a
 * step boundary; `pairs`, `closings` and `polls` are the calls suspended there, the first two known
 * by their operation tokens (each taken from a counter, so no two are the same), the last by the
 * session it asked about (kept after the reply: a late one may come at any time).
 */
module CastBridge {
  import opened Wrappers

  datatype Session = Session(sessionId: string, publishToken: string)

  predicate IsTokenChar(c: char) {
    'A' <= c <= 'Z' || 'a' <= c <= 'z' || '0' <= c <= '9' || c == '_' || c == '-'
  }

  predicate AreTokenChars(s: string)
    decreases |s|
  {
    s == "" || (IsTokenChar(s[0]) && AreTokenChars(s[1..]))
  }

  predicate IsToken(s: string, least: nat) { least <= |s| <= 180 && AreTokenChars(s) }

  predicate WellFormed(s: Session) { IsToken(s.sessionId, 16) && IsToken(s.publishToken, 24) }

  /** What a stop request needs. */
  predicate Stoppable(s: Session) { |s.sessionId| > 0 && |s.publishToken| > 0 }

  lemma {:induction false} WellFormedIsStoppable(s: Session)
    ensures WellFormed(s) ==> Stoppable(s)
  {
  }

  /** `capable` gathers the constant conditions of `pair`. `received` and `stopped` are history: the
      well-formed sessions that pair replies returned, and those a stop was requested for. */
  datatype Bridge = Bridge(
    capable: bool, ready: bool, revoked: bool, destroyed: bool, loadSeen: bool, everReady: bool,
    session: Option<Session>, pairing: bool, operation: nat, stopping: bool,
    pairs: set<nat>, closings: set<nat>, polls: set<Session>,
    received: set<Session>, stopped: set<Session>)

  datatype PairReply = Paired(session: Session) | PairFailed

  datatype PollReply = Going | Over | PollFailed

  datatype Event =
    | Hello
    | Ready
    | Pair(codeOk: bool)
    | PairReplied(token: nat, reply: PairReply, inFrame: bool)
    | PairClosed(token: nat)
    | Poll
    | PollReplied(current: Session, status: PollReply)
    | StopRequested
    | StopCompleted
    | FrameLoad
    | Destroy

  // ---------------------------------------------------------------- operations

  /** `session = null` with a stop request for what it held. */
  function Release(b: Bridge): Bridge {
    b.(session := None,
       stopped := if b.session.Some? && Stoppable(b.session.value)
                  then b.stopped + {b.session.value} else b.stopped)
  }

  /** `stopSession` up to its `await`, or to its end if there is nothing to stop. */
  function StopSession(b: Bridge): Bridge {
    Release(b.(operation := b.operation + 1, pairing := false, stopping := b.session.Some?))
  }

  function StartPair(b: Bridge, codeOk: bool): Bridge {
    if !b.ready || !b.capable || b.pairing || b.session.Some? || b.stopping || !codeOk then b
    else b.(pairing := true, operation := b.operation + 1, pairs := b.pairs + {b.operation + 1})
  }

  /** The `finally` of `pair`. */
  function EndPair(b: Bridge, token: nat): Bridge {
    if token == b.operation then b.(pairing := false) else b
  }

  /** `pair` resumed by its reply. A session that comes too late is stopped at once. */
  function OnPairReply(b: Bridge, token: nat, reply: PairReply, inFrame: bool): Bridge {
    var b1 := b.(pairs := b.pairs - {token});
    if reply.PairFailed? || !WellFormed(reply.session) then EndPair(b1, token)
    else if token != b.operation || !b.ready || !inFrame then TurnAway(b1, token, reply.session)
    else EndPair(Keep(b1, reply.session), token)
  }

  /** The session comes too late: request its stop at once, and end the pairing when that is done. */
  function TurnAway(b: Bridge, token: nat, s: Session): Bridge {
    b.(received := b.received + {s}, stopped := b.stopped + {s}, closings := b.closings + {token})
  }

  function Keep(b: Bridge, s: Session): Bridge {
    b.(received := b.received + {s}, session := Some(s), polls := b.polls + {s})
  }

  function OnPollReply(b: Bridge, current: Session, status: PollReply): Bridge {
    var b1 := b;
    match status
    case Going => b1
    case Over => if b.session != Some(current) || !b.ready then b1 else StopSession(b1)
    case PollFailed => StopSession(b1)
  }

  function OnFrameLoad(b: Bridge): Bridge {
    if b.loadSeen || b.everReady then
      StopSession(b.(revoked := true, ready := false, pairing := false, operation := b.operation + 1))
    else
      Release(b.(loadSeen := true, operation := b.operation + 1, ready := false, pairing := false, stopping := false))
  }

  function OnDestroy(b: Bridge): Bridge {
    if b.destroyed then b
    else Release(b.(destroyed := true, operation := b.operation + 1, ready := false))
  }

  /** Messages from the frame are handled only while it is current and not revoked; a destroyed
      bridge has no current frame. */
  predicate Enabled(b: Bridge, e: Event) {
    match e
    case Hello => !b.revoked && !b.destroyed
    case Ready => !b.revoked && !b.destroyed
    case Pair(_) => !b.revoked && !b.destroyed && b.ready
    case PairReplied(token, _, inFrame) => token in b.pairs && (b.destroyed ==> !inFrame)
    case PairClosed(token) => token in b.closings
    case Poll => b.session.Some? && !b.stopping && b.ready
    case PollReplied(current, _) => current in b.polls
    case _ => true
  }

  function Step(b: Bridge, e: Event): Bridge
    requires Enabled(b, e)
  {
    match e
    case Hello => b.(loadSeen := true)
    case Ready => b.(ready := true, everReady := true)
    case Pair(codeOk) => StartPair(b, codeOk)
    case PairReplied(token, reply, inFrame) => OnPairReply(b, token, reply, inFrame)
    case PairClosed(token) => EndPair(b.(closings := b.closings - {token}), token)
    case Poll => b.(polls := b.polls + {b.session.value})
    case PollReplied(current, status) => OnPollReply(b, current, status)
    case StopRequested => StopSession(b)
    case StopCompleted => b.(stopping := false)
    case FrameLoad => OnFrameLoad(b)
    case Destroy => OnDestroy(b)
  }

  function Start(capable: bool): Bridge {
    Bridge(capable, false, false, false, false, false, None, false, 0, false, {}, {}, {}, {}, {})
  }

  // ---------------------------------------------------------------- invariant

  ghost predicate Inv(b: Bridge) {
    && (forall s :: s in b.received ==> s in b.stopped || b.session == Some(s))
    && (b.session.Some? ==> Stoppable(b.session.value) && b.session.value in b.received)
    && (forall t :: t in b.pairs || t in b.closings ==> t <= b.operation)
    && b.pairs !! b.closings
    && (b.operation in b.pairs ==> b.pairing && b.session.None?)
    && (b.revoked || b.destroyed ==> !b.ready && b.session.None?)
  }

  lemma {:induction false} StopKeepsInv(b: Bridge)
    requires Inv(b) && (b.revoked || b.destroyed ==> !b.ready)
    ensures Inv(StopSession(b))
  {
  }

  lemma {:induction false} PairReplyKeepsInv(b: Bridge, token: nat, reply: PairReply, inFrame: bool)
    requires Inv(b) && token in b.pairs && (b.destroyed ==> !inFrame)
    ensures Inv(OnPairReply(b, token, reply, inFrame))
  {
    var b1 := b.(pairs := b.pairs - {token});
    assert Inv(b1);
    if reply.Paired? && WellFormed(reply.session) {
      if token != b.operation || !b.ready || !inFrame {
        TurnAwayKeepsInv(b1, token, reply.session);
      } else {
        WellFormedIsStoppable(reply.session);
        KeepKeepsInv(b1, reply.session);
      }
    }
  }

  lemma {:induction false} TurnAwayKeepsInv(b: Bridge, token: nat, s: Session)
    requires Inv(b) && token <= b.operation && token !in b.pairs
    ensures Inv(TurnAway(b, token, s))
  {
  }

  lemma {:induction false} KeepKeepsInv(b: Bridge, s: Session)
    requires Inv(b) && b.session.None? && b.operation !in b.pairs && b.ready && Stoppable(s)
    ensures Inv(Keep(b, s))
  {
  }

  lemma {:induction false} StepKeepsInv(b: Bridge, e: Event)
    requires Inv(b) && Enabled(b, e)
    ensures Inv(Step(b, e))
  {
    match e
    case Hello =>
    case Ready =>
    case Pair(codeOk) =>
    case PairReplied(token, reply, inFrame) => PairReplyKeepsInv(b, token, reply, inFrame);
    case PairClosed(token) =>
    case Poll =>
    case PollReplied(current, status) => StopKeepsInv(b);
    case StopRequested => StopKeepsInv(b);
    case StopCompleted =>
    case FrameLoad =>
    case Destroy =>
  }

  // ---------------------------------------------------------------- whole runs

  ghost predicate IsRun(b: Bridge, events: seq<Event>)
    decreases |events|
  {
    events == [] || (Enabled(b, events[0]) && IsRun(Step(b, events[0]), events[1..]))
  }

  ghost function Run(b: Bridge, events: seq<Event>): Bridge
    requires IsRun(b, events)
    decreases |events|
  {
    if events == [] then b else Run(Step(b, events[0]), events[1..])
  }

  lemma {:induction false} RunKeepsInv(b: Bridge, events: seq<Event>)
    requires Inv(b) && IsRun(b, events)
    ensures Inv(Run(b, events))
    decreases |events|
  {
    if events != [] {
      StepKeepsInv(b, events[0]);
      RunKeepsInv(Step(b, events[0]), events[1..]);
    }
  }

  /** In all interleavings every well-formed session that a pair request returned is the one held in
      `session` or has had a stop requested; once the frame changed or the bridge is destroyed, all
      of them have. */
  ghost predicate NothingLeaked(b: Bridge) {
    && (forall s :: s in b.received ==> s in b.stopped || b.session == Some(s))
    && (b.revoked || b.destroyed ==> b.received <= b.stopped)
  }

  lemma {:induction false} NoSessionLeaks(capable: bool, events: seq<Event>)
    requires IsRun(Start(capable), events)
    ensures NothingLeaked(Run(Start(capable), events))
  {
    RunKeepsInv(Start(capable), events);
  }

  /** Two pair requests may be in flight, but only the newest token can still store its session, and
      a session is never overwritten, nor dropped without a stop request. */
  lemma {:induction false} StoredSessionIsNotOverwritten(b: Bridge, e: Event)
    requires Inv(b) && Enabled(b, e)
    ensures
      var n := Step(b, e);
      && (b.session.Some? && n.session.Some? ==> n.session == b.session)
      && (b.session.None? && n.session.Some? ==> e.PairReplied? && e.token == b.operation && b.pairing)
      && (b.session.Some? && n.session.None? ==> b.session.value in n.stopped)
  {
    match e
    case PairReplied(token, reply, inFrame) =>
      if token == b.operation && reply.Paired? { assert b.session.None?; }
    case _ =>
  }

  // ---------------------------------------------------------------- what each event does

  /** A token of letters, digits, `_` and `-`. */
  ghost predicate Spelled(s: string, least: nat) {
    && least <= |s| <= 180
    && forall i :: 0 <= i < |s| ==>
         'A' <= s[i] <= 'Z' || 'a' <= s[i] <= 'z' || '0' <= s[i] <= '9' || s[i] == '_' || s[i] == '-'
  }

  /** The sessions that `pair` accepts from the service. */
  ghost predicate IsSession(s: Session) { Spelled(s.sessionId, 16) && Spelled(s.publishToken, 24) }

  lemma {:induction false} TokenCharsExactlyWhen(s: string)
    ensures AreTokenChars(s) <==> forall i :: 0 <= i < |s| ==>
      'A' <= s[i] <= 'Z' || 'a' <= s[i] <= 'z' || '0' <= s[i] <= '9' || s[i] == '_' || s[i] == '-'
    decreases |s|
  {
    if s != "" {
      TokenCharsExactlyWhen(s[1..]);
      assert forall i :: 0 < i < |s| ==> s[i] == s[1..][i - 1];
      assert forall i :: 0 <= i < |s[1..]| ==> s[1..][i] == s[i + 1];
    }
  }

  lemma {:induction false} WellFormedExactlyWhen(s: Session)
    ensures WellFormed(s) <==> IsSession(s)
  {
    TokenCharsExactlyWhen(s.sessionId);
    TokenCharsExactlyWhen(s.publishToken);
  }

  /** A pair request starts, under a token of its own, exactly when the bridge is ready and able, the code is
      well-formed, and no session is held, being paired or being stopped; otherwise nothing changes. */
  lemma {:induction false} PairStartsExactlyWhen(b: Bridge, codeOk: bool)
    requires Inv(b) && Enabled(b, Pair(codeOk))
    ensures
      var n := Step(b, Pair(codeOk));
      if b.ready && b.capable && codeOk && !b.pairing && !b.stopping && b.session.None?
      then n.pairing && n.operation !in b.pairs && n.pairs == b.pairs + {n.operation} && n.operation > b.operation
      else n == b
  {
  }

  /** A session that comes on time is kept, and polled, and no stop is requested. */
  lemma {:induction false} SessionOnTimeIsKept(b: Bridge, s: Session)
    requires b.operation in b.pairs && b.ready && !b.destroyed && IsSession(s)
    ensures
      var n := Step(b, PairReplied(b.operation, Paired(s), true));
      n == b.(pairs := b.pairs - {b.operation}, session := Some(s), pairing := false,
              polls := b.polls + {s}, received := b.received + {s})
  {
    WellFormedExactlyWhen(s);
  }

  /** A session that comes too late, or to a frame that is gone, is stopped, and the one held is left alone. */
  lemma {:induction false} LateSessionIsStopped(b: Bridge, token: nat, s: Session, inFrame: bool)
    requires Enabled(b, PairReplied(token, Paired(s), inFrame)) && IsSession(s)
    requires token != b.operation || !b.ready || !inFrame
    ensures
      var n := Step(b, PairReplied(token, Paired(s), inFrame));
      n == b.(pairs := b.pairs - {token}, stopped := b.stopped + {s}, closings := b.closings + {token},
              received := b.received + {s})
  {
    WellFormedExactlyWhen(s);
  }

  /** A malformed session is neither kept nor stopped, and ends the pairing if that is still the current one. */
  lemma {:induction false} MalformedSessionIsIgnored(b: Bridge, token: nat, s: Session, inFrame: bool)
    requires Enabled(b, PairReplied(token, Paired(s), inFrame)) && !IsSession(s)
    ensures
      var n := Step(b, PairReplied(token, Paired(s), inFrame));
      n == b.(pairs := b.pairs - {token}, pairing := b.pairing && token != b.operation)
  {
    WellFormedExactlyWhen(s);
  }

  /** A failed pair request, and the end of the stop of a session turned away, end the pairing if it is still
      the current one. */
  lemma {:induction false} PairEndMeaning(b: Bridge, token: nat, inFrame: bool)
    ensures Enabled(b, PairReplied(token, PairFailed, inFrame)) ==>
      Step(b, PairReplied(token, PairFailed, inFrame)) == b.(pairs := b.pairs - {token}, pairing := b.pairing && token != b.operation)
    ensures Enabled(b, PairClosed(token)) ==>
      Step(b, PairClosed(token)) == b.(closings := b.closings - {token}, pairing := b.pairing && token != b.operation)
  {
  }

  /** The held session is given up, with a stop request for it and for no other, and whatever is being paired
      comes too late. */
  ghost predicate GivenUp(b: Bridge, n: Bridge) {
    && n.session.None? && n.operation > b.operation
    && n.stopped == (if b.session.Some? then b.stopped + {b.session.value} else b.stopped)
    && n.pairs == b.pairs && n.closings == b.closings
  }

  /** A stop asked for by the frame gives up the session. A new pair request must wait for the stop to complete. */
  lemma {:induction false} StopMeaning(b: Bridge)
    requires Inv(b)
    ensures
      var n := Step(b, StopRequested);
      && GivenUp(b, n) && !n.pairing && n.stopping == b.session.Some? && n.ready == b.ready
      && !Step(n, StopCompleted).stopping
  {
  }

  /** A reply to a poll gives up the session exactly when the poll failed, whatever session it asked about, or
      when the session it asked about is still held and is over. */
  lemma {:induction false} PollMeaning(b: Bridge, current: Session, status: PollReply)
    requires Inv(b) && Enabled(b, PollReplied(current, status))
    ensures
      var n := Step(b, PollReplied(current, status));
      if status.PollFailed? || (status.Over? && b.session == Some(current) && b.ready)
      then GivenUp(b, n) && !n.pairing && n.ready == b.ready
      else n == b
  {
  }

  /** A load of the frame gives up the session; from the second one on, or once the frame was ready, the frame is
      not listened to again. */
  lemma {:induction false} FrameLoadMeaning(b: Bridge)
    requires Inv(b)
    ensures
      var n := Step(b, FrameLoad);
      && GivenUp(b, n) && !n.ready && !n.pairing
      && n.revoked == (b.revoked || b.loadSeen || b.everReady)
      && n.stopping == (b.session.Some? && (b.loadSeen || b.everReady))
      && (b.loadSeen || b.everReady ==> !Enabled(n, Ready) && !Enabled(n, Hello) && !Enabled(n, Pair(true)))
      && Step(n, FrameLoad).revoked
  {
  }

  lemma {:induction false} DestroyMeaning(b: Bridge)
    requires Inv(b)
    ensures
      var n := Step(b, Destroy);
      && n.destroyed && !n.ready && n.session.None?
      && (if b.destroyed then n == b else GivenUp(b, n))
      && !Enabled(n, Ready) && !Enabled(n, Pair(true))
  {
  }

  /** The frame has shown itself: by a message or by loading. */
  predicate Shows(e: Event) { e.Hello? || e.Ready? || e.FrameLoad? }

  ghost predicate LoadsAgain(events: seq<Event>, i: nat, j: nat) {
    j < i < |events| && events[i].FrameLoad? && Shows(events[j])
  }

  ghost predicate Loads(events: seq<Event>, i: nat) { i < |events| && events[i].FrameLoad? }

  /** What the bridge knows of its frame. */
  datatype Frame = Frame(ready: bool, revoked: bool, shown: bool)

  function FrameOf(b: Bridge): Frame { Frame(b.ready, b.revoked, b.loadSeen || b.everReady) }

  lemma {:induction false} PairingKeepsFrame(b: Bridge, e: Event)
    requires Enabled(b, e) && (e.Pair? || e.PairReplied? || e.PairClosed? || e.Poll?)
    ensures FrameOf(Step(b, e)) == FrameOf(b)
  {
    if e.PairReplied? { PairReplyKeepsFrame(b, e.token, e.reply, e.inFrame); }
  }

  lemma {:induction false} EndPairKeepsFrame(b: Bridge, token: nat)
    ensures FrameOf(EndPair(b, token)) == FrameOf(b)
  {
  }

  lemma {:induction false} TurnAwayKeepsFrame(b: Bridge, token: nat, s: Session)
    ensures FrameOf(TurnAway(b, token, s)) == FrameOf(b)
  {
  }

  lemma {:induction false} KeepKeepsFrame(b: Bridge, s: Session)
    ensures FrameOf(Keep(b, s)) == FrameOf(b)
  {
  }

  lemma {:induction false} PairReplyKeepsFrame(b: Bridge, token: nat, reply: PairReply, inFrame: bool)
    ensures FrameOf(OnPairReply(b, token, reply, inFrame)) == FrameOf(b)
  {
    var b1 := b.(pairs := b.pairs - {token});
    assert FrameOf(b1) == FrameOf(b);
    EndPairKeepsFrame(b1, token);
    if reply.Paired? {
      TurnAwayKeepsFrame(b1, token, reply.session);
      KeepKeepsFrame(b1, reply.session);
      EndPairKeepsFrame(Keep(b1, reply.session), token);
    }
  }

  lemma {:induction false} StoppingKeepsFrame(b: Bridge, e: Event)
    requires Enabled(b, e) && (e.PollReplied? || e.StopRequested? || e.StopCompleted?)
    ensures FrameOf(Step(b, e)) == FrameOf(b)
  {
  }

  lemma {:induction false} StepFrame(b: Bridge, e: Event)
    requires Inv(b) && Enabled(b, e)
    ensures FrameOf(Step(b, e)) ==
            Frame(e.Ready? || (b.ready && !e.FrameLoad? && !e.Destroy?),
                  b.revoked || (e.FrameLoad? && (b.loadSeen || b.everReady)),
                  b.loadSeen || b.everReady || Shows(e))
  {
    if e.Pair? || e.PairReplied? || e.PairClosed? || e.Poll? {
      PairingKeepsFrame(b, e);
    } else if e.PollReplied? || e.StopRequested? || e.StopCompleted? {
      StoppingKeepsFrame(b, e);
    }
  }

  lemma {:induction false} RunRevokes(b: Bridge, events: seq<Event>)
    requires Inv(b) && IsRun(b, events)
    ensures Run(b, events).revoked <==>
            || b.revoked || ((b.loadSeen || b.everReady) && exists i: nat :: Loads(events, i))
            || exists i: nat, j: nat :: LoadsAgain(events, i, j)
    decreases |events|
  {
    if events != [] {
      var e, rest := events[0], events[1..];
      StepFrame(b, e);
      StepKeepsInv(b, e);
      RunRevokes(Step(b, e), rest);
      LaterLoads(events);
    }
  }

  lemma {:induction false} LaterLoads(events: seq<Event>)
    requires events != []
    ensures var e, rest := events[0], events[1..];
      && ((exists i: nat :: Loads(events, i)) <==> e.FrameLoad? || exists i: nat :: Loads(rest, i))
      && ((exists i: nat, j: nat :: LoadsAgain(events, i, j)) <==>
            (Shows(e) && exists i: nat :: Loads(rest, i)) || exists i: nat, j: nat :: LoadsAgain(rest, i, j))
  {
    var e, rest := events[0], events[1..];
    assert forall i :: 0 <= i < |rest| ==> rest[i] == events[i + 1];
    if i: nat :| Loads(events, i) { assert i > 0 ==> Loads(rest, i - 1); }
    if e.FrameLoad? { assert Loads(events, 0); }
    if i: nat :| Loads(rest, i) {
      assert Loads(events, i + 1);
      assert Shows(e) ==> LoadsAgain(events, i + 1, 0);
    }
    if i: nat, j: nat :| LoadsAgain(events, i, j) {
      assert Loads(rest, i - 1);
      assert j > 0 ==> LoadsAgain(rest, i - 1, j - 1);
    }
    if i: nat, j: nat :| LoadsAgain(rest, i, j) { assert LoadsAgain(events, i + 1, j + 1); }
  }

  /** Over whole runs: the frame is revoked, for good, exactly when it loads after it had shown itself before. */
  lemma {:induction false} RevokedExactlyWhen(capable: bool, events: seq<Event>)
    requires IsRun(Start(capable), events)
    ensures Run(Start(capable), events).revoked <==> exists i: nat, j: nat :: LoadsAgain(events, i, j)
  {
    RunRevokes(Start(capable), events);
  }

  ghost predicate ReadyAt(events: seq<Event>, i: nat) {
    i < |events| && events[i].Ready? && forall j :: i < j < |events| ==> !events[j].FrameLoad? && !events[j].Destroy?
  }

  lemma {:induction false} RunReady(b: Bridge, events: seq<Event>)
    requires Inv(b) && IsRun(b, events) && !b.ready
    ensures Run(b, events).ready <==> exists i: nat :: ReadyAt(events, i)
    decreases |events|
  {
    if events != [] {
      var last := |events| - 1;
      var fewer := events[..last];
      assert fewer + [events[last]] == events;
      RunSplits(b, fewer, events[last]);
      RunReady(b, fewer);
      RunKeepsInv(b, fewer);
      StepFrame(Run(b, fewer), events[last]);
      if i: nat :| ReadyAt(events, i) { assert i < last ==> ReadyAt(fewer, i); }
      if i: nat :| ReadyAt(fewer, i) { assert !events[last].FrameLoad? && !events[last].Destroy? ==> ReadyAt(events, i); }
      if events[last].Ready? { assert ReadyAt(events, last); }
    }
  }

  /** And it is ready exactly when it has said so and has neither loaded since nor been destroyed. */
  lemma {:induction false} ReadyExactlyWhen(capable: bool, events: seq<Event>)
    requires IsRun(Start(capable), events)
    ensures Run(Start(capable), events).ready <==> exists i: nat :: ReadyAt(events, i)
  {
    RunReady(Start(capable), events);
  }

  lemma {:induction false} RunSplits(b: Bridge, events: seq<Event>, e: Event)
    requires IsRun(b, events + [e])
    ensures IsRun(b, events) && Enabled(Run(b, events), e) && Run(b, events + [e]) == Step(Run(b, events), e)
    decreases |events|
  {
    var all := events + [e];
    if events == [] {
      assert all[1..] == [];
    } else {
      assert all[1..] == events[1..] + [e];
      RunSplits(Step(b, events[0]), events[1..], e);
    }
  }

  /** Events that make a pair request in flight come too late. */
  predicate Disturbs(e: Event) { e.StopRequested? || e.FrameLoad? || e.Destroy? || (e.PollReplied? && e.status.PollFailed?) }

  /** The request with this token is in flight and still the current one. */
  ghost predicate Current(b: Bridge, token: nat) { b.operation == token && token in b.pairs && b.pairing && b.ready && !b.destroyed }

  /** It is in flight and comes too late. */
  ghost predicate Outrun(b: Bridge, token: nat) { b.operation > token && token in b.pairs }

  predicate Answers(e: Event, token: nat) { e.PairReplied? && e.token == token }

  ghost predicate Undisturbed(events: seq<Event>) { forall i :: 0 <= i < |events| ==> !Disturbs(events[i]) }

  lemma {:induction false} StepOutruns(b: Bridge, token: nat, e: Event)
    requires Inv(b) && Enabled(b, e) && !Answers(e, token) && (Current(b, token) || Outrun(b, token))
    ensures if Current(b, token) && !Disturbs(e) then Current(Step(b, e), token) else Outrun(Step(b, e), token)
  {
    if e.PairReplied? { ReplyOutruns(b, token, e); } else { OtherOutruns(b, token, e); }
  }

  lemma {:induction false} ReplyOutruns(b: Bridge, token: nat, e: Event)
    requires Inv(b) && Enabled(b, e) && e.PairReplied? && e.token != token && (Current(b, token) || Outrun(b, token))
    ensures if Current(b, token) then Current(Step(b, e), token) else Outrun(Step(b, e), token)
  {
    if e.reply.PairFailed? {
      PairEndMeaning(b, e.token, e.inFrame);
    } else if !IsSession(e.reply.session) {
      MalformedSessionIsIgnored(b, e.token, e.reply.session, e.inFrame);
    } else if e.token != b.operation || !b.ready || !e.inFrame {
      LateSessionIsStopped(b, e.token, e.reply.session, e.inFrame);
    } else {
      SessionOnTimeIsKept(b, e.reply.session);
    }
  }

  lemma {:induction false} OtherOutruns(b: Bridge, token: nat, e: Event)
    requires Inv(b) && Enabled(b, e) && !e.PairReplied? && (Current(b, token) || Outrun(b, token))
    ensures if Current(b, token) && !Disturbs(e) then Current(Step(b, e), token) else Outrun(Step(b, e), token)
  {
  }

  lemma {:induction false} RunOutruns(b: Bridge, token: nat, events: seq<Event>)
    requires Inv(b) && IsRun(b, events) && (Current(b, token) || Outrun(b, token))
    requires forall i :: 0 <= i < |events| ==> !Answers(events[i], token)
    ensures
      if Current(b, token) && Undisturbed(events) then Current(Run(b, events), token)
      else Outrun(Run(b, events), token)
    decreases |events|
  {
    if events != [] {
      StepOutruns(b, token, events[0]);
      StepKeepsInv(b, events[0]);
      RunOutruns(Step(b, events[0]), token, events[1..]);
      assert forall i :: 0 < i < |events| ==> events[i] == events[1..][i - 1];
    }
  }

  lemma {:induction false} ReplyKeepsExactlyWhen(b: Bridge, token: nat, s: Session, inFrame: bool)
    requires Inv(b) && Enabled(b, PairReplied(token, Paired(s), inFrame)) && (Current(b, token) || Outrun(b, token))
    ensures
      var n := Step(b, PairReplied(token, Paired(s), inFrame));
      && (n.session != b.session <==> IsSession(s) && inFrame && Current(b, token))
      && (n.session != b.session ==> n.session == Some(s) && n.stopped == b.stopped)
      && (IsSession(s) && n.session == b.session ==> s in n.stopped)
  {
    if !IsSession(s) {
      MalformedSessionIsIgnored(b, token, s, inFrame);
    } else if Current(b, token) && inFrame {
      SessionOnTimeIsKept(b, s);
    } else {
      LateSessionIsStopped(b, token, s, inFrame);
    }
  }

  /** Over whole runs: the session that answers a pair request is kept exactly when, whatever else happened
      meanwhile, there was no stop, no load of the frame, no end of the bridge and no failed poll, the frame
      is still the current one and the session is well-formed. If it is well-formed and not kept, its stop is
      requested at once. */
  lemma {:induction false} SessionIsKeptExactlyWhen(b: Bridge, between: seq<Event>, s: Session, inFrame: bool)
    requires Inv(b) && Enabled(b, Pair(true)) && b.capable && !b.pairing && !b.stopping && b.session.None?
    requires
      var b1 := Step(b, Pair(true));
      && IsRun(b1, between) && (forall i :: 0 <= i < |between| ==> !Answers(between[i], b1.operation))
      && (Run(b1, between).destroyed ==> !inFrame)
    ensures
      var b1 := Step(b, Pair(true));
      var b2 := Run(b1, between);
      && Enabled(b2, PairReplied(b1.operation, Paired(s), inFrame))
      && var n := Step(b2, PairReplied(b1.operation, Paired(s), inFrame));
         && (n.session != b2.session <==> IsSession(s) && inFrame && Undisturbed(between))
         && (n.session != b2.session ==> n.session == Some(s) && n.stopped == b2.stopped)
         && (IsSession(s) && n.session == b2.session ==> s in n.stopped)
  {
    var b1 := Step(b, Pair(true));
    StepKeepsInv(b, Pair(true));
    RunOutruns(b1, b1.operation, between);
    RunKeepsInv(b1, between);
    ReplyKeepsExactlyWhen(Run(b1, between), b1.operation, s, inFrame);
  }

  /** A poll that fails late ends a session that it did not ask about: the first session was stopped and a
      second one paired before the reply came. */
  lemma {:induction false} StalePollExample(first: Session, second: Session) returns (events: seq<Event>)
    requires IsSession(first) && IsSession(second) && first != second
    ensures IsRun(Start(true), events)
    ensures
      var b := Run(Start(true), events);
      && b.session == Some(second) && second !in b.stopped && Enabled(b, PollReplied(first, PollFailed))
      && var n := Step(b, PollReplied(first, PollFailed)); n.session.None? && second in n.stopped
  {
    WellFormedExactlyWhen(first);
    WellFormedExactlyWhen(second);
    events := [];
    events := Append(Start(true), events, Ready);
    events := Append(Start(true), events, Pair(true));
    SessionOnTimeIsKept(Run(Start(true), events), first);
    events := Append(Start(true), events, PairReplied(1, Paired(first), true));
    events := Append(Start(true), events, StopRequested);
    events := Append(Start(true), events, StopCompleted);
    events := Append(Start(true), events, Pair(true));
    SessionOnTimeIsKept(Run(Start(true), events), second);
    events := Append(Start(true), events, PairReplied(3, Paired(second), true));
  }

  lemma {:induction false} Append(b: Bridge, events: seq<Event>, e: Event) returns (all: seq<Event>)
    requires IsRun(b, events) && Enabled(Run(b, events), e)
    ensures all == events + [e] && IsRun(b, all) && Run(b, all) == Step(Run(b, events), e)
    decreases |events|
  {
    all := events + [e];
    if events == [] {
      assert all[1..] == [];
    } else {
      var rest := Append(Step(b, events[0]), events[1..], e);
      assert all[1..] == rest;
    }
  }

  // ---------------------------------------------------------------- the closure's state

  class Host {
    const capable: bool
    var ready: bool
    var revoked: bool
    var destroyed: bool
    var loadSeen: bool
    var everReady: bool
    var session: Option<Session>
    var pairing: bool
    var operation: nat
    var stopping: bool
    var pairs: set<nat>
    var closings: set<nat>
    var polls: set<Session>
    ghost var received: set<Session>
    var stopped: set<Session>

    constructor (capable: bool)
      ensures State() == Start(capable)
    {
      this.capable, ready, revoked, destroyed, loadSeen, everReady := capable, false, false, false, false, false;
      session, pairing, operation, stopping := None, false, 0, false;
      pairs, closings, polls, received, stopped := {}, {}, {}, {}, {};
    }

    ghost function State(): Bridge
      reads this
    {
      Bridge(capable, ready, revoked, destroyed, loadSeen, everReady, session, pairing, operation, stopping,
             pairs, closings, polls, received, stopped)
    }

    /** `session = null`, and a stop request for the session it held. */
    method DropSession()
      modifies this`session, this`stopped
      ensures State() == Release(old(State()))
    {
      var current := session;
      session := None;
      if current.Some? && |current.value.sessionId| > 0 && |current.value.publishToken| > 0 {
        stopped := stopped + {current.value};
      }
    }

    method Stop()
      modifies this`operation, this`stopping, this`pairing, this`session, this`stopped
      ensures State() == StopSession(old(State()))
    {
      operation := operation + 1;
      stopping, pairing := session.Some?, false;
      DropSession();
    }

    method PairWith(codeOk: bool)
      modifies this`pairing, this`operation, this`pairs
      ensures State() == StartPair(old(State()), codeOk)
    {
      if ready && stopping { return; }
      if !ready || !capable || pairing || session.Some? || stopping { return; }
      if !codeOk { return; }
      pairing := true;
      operation := operation + 1;
      pairs := pairs + {operation};
    }

    /** `pair` after its `await`. */
    method PairReturned(token: nat, reply: PairReply, inFrame: bool)
      requires token in pairs
      modifies this`pairs, this`received, this`stopped, this`closings, this`session, this`polls, this`pairing
      ensures State() == OnPairReply(old(State()), token, reply, inFrame)
    {
      pairs := pairs - {token};
      if reply.Paired? && WellFormed(reply.session) {
        if token != operation || !ready || !inFrame {
          TurnAwaySession(token, reply.session);
          return;
        }
        KeepSession(reply.session);
      }
      if token == operation { pairing := false; }
    }

    method TurnAwaySession(token: nat, s: Session)
      modifies this`received, this`stopped, this`closings
      ensures State() == TurnAway(old(State()), token, s)
    {
      received, stopped, closings := received + {s}, stopped + {s}, closings + {token};
    }

    method KeepSession(s: Session)
      modifies this`received, this`session, this`polls
      ensures State() == Keep(old(State()), s)
    {
      received, session, polls := received + {s}, Some(s), polls + {s};
    }

    method PollReturned(current: Session, status: PollReply)
      modifies this`operation, this`stopping, this`pairing, this`session, this`stopped
      ensures State() == OnPollReply(old(State()), current, status)
    {
      match status {
        case Going =>
        case Over => if session == Some(current) && ready { Stop(); }
        case PollFailed => Stop();
      }
    }

    method FrameLoaded()
      modifies this`revoked, this`ready, this`pairing, this`operation, this`loadSeen, this`stopping, this`session, this`stopped
      ensures State() == OnFrameLoad(old(State()))
    {
      if loadSeen || everReady { Revoke(); } else { FirstLoad(); }
    }

    method Revoke()
      requires loadSeen || everReady
      modifies this`revoked, this`ready, this`pairing, this`operation, this`stopping, this`session, this`stopped
      ensures State() == OnFrameLoad(old(State()))
    {
      revoked, ready, pairing, operation := true, false, false, operation + 1;
      Stop();
    }

    method FirstLoad()
      requires !loadSeen && !everReady
      modifies this`ready, this`pairing, this`operation, this`loadSeen, this`stopping, this`session, this`stopped
      ensures State() == OnFrameLoad(old(State()))
    {
      loadSeen, operation, ready, pairing, stopping := true, operation + 1, false, false, false;
      DropSession();
    }

    method DestroyHost()
      modifies this`destroyed, this`operation, this`ready, this`session, this`stopped
      ensures State() == OnDestroy(old(State()))
    {
      if destroyed { return; }
      destroyed := true;
      operation := operation + 1;
      ready := false;
      DropSession();
    }

    /** The suspended calls and flags that the remaining events touch. */
    method Note(e: Event)
      requires Enabled(State(), e) && (e.Hello? || e.Ready? || e.PairClosed? || e.Poll? || e.StopCompleted?)
      modifies this`loadSeen, this`ready, this`everReady, this`closings, this`pairing, this`polls, this`stopping
      ensures State() == Step(old(State()), e)
    {
      if e.Hello? {
        loadSeen := true;
      } else if e.Ready? {
        ready, everReady := true, true;
      } else if e.PairClosed? {
        closings := closings - {e.token};
        if e.token == operation { pairing := false; }
      } else if e.Poll? {
        polls := polls + {session.value};
      } else {
        stopping := false;
      }
    }

    method Dispatch(e: Event)
      requires Enabled(State(), e)
      modifies this
      ensures State() == Step(old(State()), e)
    {
      match e
      case Pair(codeOk) => PairWith(codeOk);
      case PairReplied(token, reply, inFrame) => PairReturned(token, reply, inFrame);
      case PollReplied(current, status) => PollReturned(current, status);
      case StopRequested => Stop();
      case FrameLoad => FrameLoaded();
      case Destroy => DestroyHost();
      case _ => Note(e);
    }

    /** Whatever happens to this object, in whatever order, it follows the run of those events, and no
        session leaks. */
    method Serve(events: seq<Event>)
      requires Inv(State()) && IsRun(State(), events)
      modifies this
      ensures State() == Run(old(State()), events)
      ensures Inv(State()) && NothingLeaked(State())
    {
      for i := 0 to |events|
        invariant Inv(State()) && IsRun(State(), events[i..])
        invariant Run(State(), events[i..]) == Run(old(State()), events)
      {
        assert events[i..][0] == events[i] && events[i..][1..] == events[i + 1..];
        StepKeepsInv(State(), events[i]);
        Dispatch(events[i]);
      }
    }
  }
}
