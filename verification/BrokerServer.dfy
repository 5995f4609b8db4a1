/**
 * A broker lane in front of the state service: one register per key, as `set_for_viewer` and
 * `delete` implement it (src/persistence/state.rs), and this lane as its only writer.
 *
 * The service handles a write at some moment between the request and the reply. A write or its
 * reply may be lost; a request that was lost before the service handled it may still be handled at
 * any later moment, or never.
 */
module BrokerServer {
  import opened Wrappers
  import opened BrokerLane

  /** The stored row, if any, and its revision; an absent key has revision 0. */
  datatype Register = Register(content: Option<Value>, revision: nat)

  ghost predicate ValidRegister(reg: Register) { reg.content.None? <==> reg.revision == 0 }

  function Shows(reg: Register): Value {
    if reg.content.Some? then reg.content.value else JSON_NULL
  }

  /** `set_for_viewer` and `delete`, with the HTTP reply each leads to. */
  function Handle(reg: Register, job: Job): (Register, Reply) {
    match job
    case Remove => (Register(None, 0), Success(None))
    case Put(draft) =>
      if draft.ifRevision.Some? && draft.ifRevision.value != reg.revision then
        (reg, Failure(Some(409), Some((Shows(reg), reg.revision))))
      else
        (Register(Some(draft.value), reg.revision + 1), Success(Some(reg.revision + 1)))
  }

  function Lookup(reg: Register): Answer {
    if reg.content.Some? then Found(reg.content.value, reg.revision) else NotFound
  }

  /** `reply` is the service's answer to the write in flight, once handled; `answers` are the
      answers to reads that the service has given but the client has not seen; `late` are the writes that
      the client has given up on and the service has not handled. */
  datatype System = System(
    machine: Machine, reg: Register, reply: Option<Reply>, answers: map<nat, Answer>, late: seq<Job>)

  datatype Action =
    | Client(event: Event)
    | HandleWrite
    | DeliverReply
    | LoseWrite
    | HandleLate(index: nat)
    | HandleRead(id: nat)
    | DeliverAnswer(id: nat)
    | LoseRead(id: nat)

  predicate Possible(s: System, a: Action) {
    var l := s.machine.lane;
    match a
    case Client(event) => !event.WriteReply? && !event.GetReply? && Enabled(l, event)
    case HandleWrite => |l.inflight| > 0 && s.reply.None?
    case DeliverReply => |l.inflight| > 0 && s.reply.Some?
    case LoseWrite => |l.inflight| > 0
    case HandleLate(index) => index < |s.late|
    case HandleRead(id) => id in l.gets && id !in s.answers
    case DeliverAnswer(id) => id in l.gets && id in s.answers
    case LoseRead(id) => id in l.gets
  }

  function Act(s: System, a: Action): System
    requires Possible(s, a)
  {
    match a
    case Client(event) => s.(machine := Next(s.machine, event))
    case HandleWrite =>
      var (reg, reply) := Handle(s.reg, s.machine.lane.inflight[0]);
      s.(reg := reg, reply := Some(reply))
    case DeliverReply => s.(machine := Next(s.machine, WriteReply(0, s.reply.value)), reply := None)
    case LoseWrite =>
      s.(machine := Next(s.machine, WriteReply(0, Failure(None, None))), reply := None,
         late := if s.reply.None? then s.late + [s.machine.lane.inflight[0]] else s.late)
    case HandleLate(index) =>
      s.(reg := Handle(s.reg, s.late[index]).0, late := s.late[..index] + s.late[index + 1..])
    case HandleRead(id) => s.(answers := s.answers[id := Lookup(s.reg)])
    case DeliverAnswer(id) =>
      s.(machine := Next(s.machine, GetReply(id, s.answers[id])), answers := s.answers - {id})
    case LoseRead(id) => s.(machine := Next(s.machine, GetReply(id, Failed)), answers := s.answers - {id})
  }

  function Boot(cache: Option<Entry>, reg: Register): System {
    System(Start(cache), reg, None, map[], [])
  }

  ghost predicate IsRun(s: System, actions: seq<Action>)
    decreases |actions|
  {
    actions == [] || (Possible(s, actions[0]) && IsRun(Act(s, actions[0]), actions[1..]))
  }

  ghost function Run(s: System, actions: seq<Action>): System
    requires IsRun(s, actions)
    decreases |actions|
  {
    if actions == [] then s else Run(Act(s, actions[0]), actions[1..])
  }

  // ---------------------------------------------------------------- invariant

  /** The service's reply still describes the register: nothing else has written since. */
  ghost predicate Reflects(reg: Register, job: Job, reply: Reply) {
    match reply
    case Success(revision) =>
      (job.Remove? ==> reg == Register(None, 0)) &&
      (job.Put? ==> revision == Some(reg.revision) && reg.content == Some(job.draft.value))
    case Failure(status, conflict) =>
      job.Put? && job.draft.ifRevision.Some? && status == Some(409) && conflict == Some((Shows(reg), reg.revision))
  }

  /** The cache, without a draft, shows exactly what the register holds. */
  ghost predicate Coherent(cache: Option<Entry>, reg: Register) {
    match cache
    case None => reg == Register(None, 0)
    case Some(entry) => entry == Entry(Shows(reg), reg.revision, None)
  }

  ghost predicate HoldsJob(reg: Register, job: Job) {
    match job
    case Remove => reg.content.None?
    case Put(draft) => reg.content == Some(draft.value)
  }

  ghost predicate Unconditional(job: Job) { job.Put? ==> job.draft.ifRevision.None? }

  ghost predicate Inv(s: System) {
    var l, h := s.machine.lane, s.machine.history;
    && BrokerLane.Inv(s.machine)
    && ValidRegister(s.reg)
    && (s.reply.Some? ==> l.busy && Reflects(s.reg, l.inflight[0], s.reply.value))
    && (h.settled ==> Coherent(l.cache, s.reg))
    && (h.settled && Unconditional(h.scheduled[|h.scheduled| - 1]) ==>
          HoldsJob(s.reg, h.scheduled[|h.scheduled| - 1]))
    && s.answers.Keys <= l.gets.Keys
    && (forall id :: id in s.answers && l.gets[id].epoch == l.epoch && !l.busy ==>
          s.answers[id] == Lookup(s.reg))
  }

  /** A reply that reflects the register settles the newest job with a coherent cache. */
  lemma {:induction false} DeliveryKeepsInv(s: System)
    requires Inv(s) && Possible(s, DeliverReply)
    ensures Inv(Act(s, DeliverReply))
  {
    StepKeepsInv(s.machine, WriteReply(0, s.reply.value));
    AfterReply(s.machine, s.reply.value);
  }

  lemma {:induction false} LossKeepsInv(s: System)
    requires Inv(s) && Possible(s, LoseWrite)
    ensures Inv(Act(s, LoseWrite))
  {
    StepKeepsInv(s.machine, WriteReply(0, Failure(None, None)));
    AfterReply(s.machine, Failure(None, None));
  }

  lemma {:induction false} ClientKeepsInv(s: System, event: Event)
    requires Inv(s) && Possible(s, Client(event))
    ensures Inv(Act(s, Client(event)))
  {
    StepKeepsInv(s.machine, event);
    ClientStep(s.machine, event);
  }

  /** An answer that is accepted shows the register as it is now; any other leaves the cache alone. */
  lemma {:induction false} AnswerKeepsInv(s: System, id: nat, answer: Answer)
    requires Inv(s) && id in s.machine.lane.gets
    requires answer == Failed || (id in s.answers && answer == s.answers[id])
    ensures Inv(s.(machine := Next(s.machine, GetReply(id, answer)), answers := s.answers - {id}))
  {
    StepKeepsInv(s.machine, GetReply(id, answer));
    ObserveQuiet(s.machine.history, OnAnswer(s.machine.lane, id, answer).out);
  }

  /** Every action keeps it but a late write, which changes the register behind the client's back. */
  lemma {:induction false} ActionKeepsInv(s: System, a: Action)
    requires Inv(s) && Possible(s, a) && !a.HandleLate?
    ensures Inv(Act(s, a))
  {
    match a
    case Client(event) => ClientKeepsInv(s, event);
    case HandleWrite =>
    case DeliverReply => DeliveryKeepsInv(s);
    case LoseWrite => LossKeepsInv(s);
    case HandleRead(id) =>
    case DeliverAnswer(id) => AnswerKeepsInv(s, id, s.answers[id]);
    case LoseRead(id) => AnswerKeepsInv(s, id, Failed);
  }

  /** No write is handled after the client has given up on it. */
  ghost predicate Timely(actions: seq<Action>) {
    forall i :: 0 <= i < |actions| ==> !actions[i].HandleLate?
  }

  lemma {:induction false} RunKeepsInv(s: System, actions: seq<Action>)
    requires Inv(s) && IsRun(s, actions) && Timely(actions)
    ensures Inv(Run(s, actions))
    decreases |actions|
  {
    if actions != [] {
      ActionKeepsInv(s, actions[0]);
      RunKeepsInv(Act(s, actions[0]), actions[1..]);
    }
  }

  // ---------------------------------------------------------------- without losses

  ghost predicate Lossless(actions: seq<Action>) {
    forall i :: 0 <= i < |actions| ==> !actions[i].LoseWrite?
  }

  /** A lane with nothing to do has had a final reply to its newest job. */
  ghost predicate IdleIsSettled(s: System) {
    Idle(s.machine.lane) && s.machine.history.scheduled != [] ==> s.machine.history.settled
  }

  lemma {:induction false} ActionSettles(s: System, a: Action)
    requires Inv(s) && Possible(s, a) && !a.LoseWrite? && !a.HandleLate? && IdleIsSettled(s)
    ensures IdleIsSettled(Act(s, a))
  {
    var m := s.machine;
    match a
    case Client(event) => ClientStep(m, event);
    case HandleWrite =>
    case DeliverReply =>
      StepKeepsInv(m, WriteReply(0, s.reply.value));
      AfterReply(m, s.reply.value);
    case HandleRead(id) =>
    case DeliverAnswer(id) => ObserveQuiet(m.history, OnAnswer(m.lane, id, s.answers[id]).out);
    case LoseRead(id) => ObserveQuiet(m.history, OnAnswer(m.lane, id, Failed).out);
  }

  lemma {:induction false} LosslessRunSettles(s: System, actions: seq<Action>)
    requires Inv(s) && IsRun(s, actions) && Lossless(actions) && Timely(actions) && IdleIsSettled(s)
    ensures IdleIsSettled(Run(s, actions))
    decreases |actions|
  {
    if actions != [] {
      ActionSettles(s, actions[0]);
      ActionKeepsInv(s, actions[0]);
      LosslessRunSettles(Act(s, actions[0]), actions[1..]);
    }
  }

  /** Without losses there is nothing to handle late. */
  lemma {:induction false} LosslessIsTimely(s: System, actions: seq<Action>)
    requires s.late == [] && IsRun(s, actions) && Lossless(actions)
    ensures Timely(actions)
    decreases |actions|
  {
    if actions != [] {
      var rest := actions[1..];
      assert forall i :: 0 <= i < |rest| ==> rest[i] == actions[i + 1];
      LosslessIsTimely(Act(s, actions[0]), rest);
      assert forall i :: 1 <= i < |actions| ==> actions[i] == rest[i - 1];
    }
  }

  /** When no reply is lost and the lane goes idle, the cache shows exactly what the service holds,
      with no draft left, whatever mix of conditional writes, deletes, conflicts and reads ran;
      and an unconditional last edit is what both hold. */
  lemma {:induction false} QuiescentAgreement(cache: Option<Entry>, reg: Register, actions: seq<Action>)
    requires ValidRegister(reg)
    requires IsRun(Boot(cache, reg), actions) && Lossless(actions)
    ensures
      var s := Run(Boot(cache, reg), actions);
      var scheduled := s.machine.history.scheduled;
      Idle(s.machine.lane) && scheduled != [] ==>
        && Coherent(s.machine.lane.cache, s.reg)
        && (Unconditional(scheduled[|scheduled| - 1]) ==> HoldsJob(s.reg, scheduled[|scheduled| - 1]))
  {
    LosslessIsTimely(Boot(cache, reg), actions);
    RunKeepsInv(Boot(cache, reg), actions);
    LosslessRunSettles(Boot(cache, reg), actions);
  }

  // ---------------------------------------------------------------- with losses

  /** The newest unconditional job has been answered for good, or has been handled and is about to be. */
  ghost predicate AtStake(s: System) {
    var l, h := s.machine.lane, s.machine.history;
    && h.scheduled != [] && Unconditional(h.scheduled[|h.scheduled| - 1])
    && (h.settled || (s.reply.Some? && l.queued.None?))
  }

  /** What survives losses: a newest unconditional job that is at stake is what the register holds; its
      reply is a success; and no draft is left once it is settled. */
  ghost predicate Held(s: System) {
    var l, h := s.machine.lane, s.machine.history;
    && BrokerLane.Inv(s.machine)
    && ValidRegister(s.reg)
    && (s.reply.Some? ==> l.busy)
    && (AtStake(s) ==> HoldsJob(s.reg, h.scheduled[|h.scheduled| - 1]))
    && (AtStake(s) && !h.settled ==> IsAck(h.scheduled[|h.scheduled| - 1], s.reply.value))
    && (AtStake(s) && h.settled ==> DraftOf(l.cache).None?)
  }

  /** With nothing queued, the write in flight is the newest job. */
  lemma {:induction false} InflightIsNewest(m: Machine)
    requires BrokerLane.Inv(m) && m.lane.busy && m.lane.queued.None?
    ensures
      var h := m.history;
      h.scheduled != [] && m.lane.inflight == [h.scheduled[|h.scheduled| - 1]] && !h.settled
  {
  }

  lemma {:induction false} ClientHeld(s: System, event: Event)
    requires Held(s) && Possible(s, Client(event))
    ensures Held(Act(s, Client(event)))
  {
    StepKeepsInv(s.machine, event);
    ClientStep(s.machine, event);
    ClientKeepsDraft(s.machine, event);
  }

  /** A client step that leaves a lane idle leaves its cache; one on a busy lane queues or changes nothing
      that is queued. */
  lemma {:induction false} ClientKeepsDraft(m: Machine, e: Event)
    requires BrokerLane.Inv(m) && Enabled(m.lane, e) && !e.WriteReply? && !e.GetReply?
    ensures
      var n := Next(m, e);
      && (m.lane.busy && n.lane.queued.None? ==> m.lane.queued.None? && n.history == m.history)
      && (Idle(n.lane) ==> n.lane.cache == m.lane.cache)
  {
    if e.GetStart? { GetIsRetryAndSuspend(m, e.id); }
    ClientStep(m, e);
  }

  lemma {:induction false} HandledHeld(s: System)
    requires Held(s) && Possible(s, HandleWrite)
    ensures Held(Act(s, HandleWrite))
  {
    if s.machine.lane.queued.None? { InflightIsNewest(s.machine); }
  }

  lemma {:induction false} DeliveredHeld(s: System)
    requires Held(s) && Possible(s, DeliverReply)
    ensures Held(Act(s, DeliverReply))
  {
    StepKeepsInv(s.machine, WriteReply(0, s.reply.value));
    AfterReply(s.machine, s.reply.value);
    if s.machine.lane.queued.None? { InflightIsNewest(s.machine); }
  }

  lemma {:induction false} LostHeld(s: System)
    requires Held(s) && Possible(s, LoseWrite)
    ensures Held(Act(s, LoseWrite))
  {
    StepKeepsInv(s.machine, WriteReply(0, Failure(None, None)));
    AfterReply(s.machine, Failure(None, None));
  }

  lemma {:induction false} AnsweredHeld(s: System, id: nat, answer: Answer)
    requires Held(s) && id in s.machine.lane.gets
    ensures Held(s.(machine := Next(s.machine, GetReply(id, answer)), answers := s.answers - {id}))
  {
    StepKeepsInv(s.machine, GetReply(id, answer));
    ObserveQuiet(s.machine.history, OnAnswer(s.machine.lane, id, answer).out);
  }

  /** Handling `job` now takes away what the newest job left: it changes the content while that is at
      stake. */
  ghost predicate Undoes(s: System, job: Job) {
    AtStake(s) && Handle(s.reg, job).0.content != s.reg.content
  }

  /** A late write does no harm exactly when it does not undo the newest job. */
  lemma {:induction false} LateWriteUndoesExactlyWhen(s: System, index: nat)
    requires Held(s) && Possible(s, HandleLate(index))
    ensures Held(Act(s, HandleLate(index))) <==> !Undoes(s, s.late[index])
  {
  }

  /** And then the newest edit is lost, at once or when its reply arrives: it is neither what the register
      holds nor a draft. */
  lemma {:induction false} UndoneIsLost(s: System, index: nat)
    requires Held(s) && Possible(s, HandleLate(index)) && Undoes(s, s.late[index])
    ensures
      var late := Act(s, HandleLate(index));
      var job := s.machine.history.scheduled[|s.machine.history.scheduled| - 1];
      (!s.machine.history.settled ==> Possible(late, DeliverReply)) &&
      var end := if s.machine.history.settled then late else Act(late, DeliverReply);
      !HoldsJob(end.reg, job) && DraftOf(end.machine.lane.cache).None?
  {
    if !s.machine.history.settled {
      AfterReply(s.machine, s.reply.value);
      InflightIsNewest(s.machine);
    }
  }

  /** No late write of the run undoes the job that is newest then. */
  ghost predicate NothingUndone(s: System, actions: seq<Action>)
    requires IsRun(s, actions)
    decreases |actions|
  {
    actions == [] ||
    ((actions[0].HandleLate? ==> !Undoes(s, s.late[actions[0].index])) && NothingUndone(Act(s, actions[0]), actions[1..]))
  }

  lemma {:induction false} ActionHeld(s: System, a: Action)
    requires Held(s) && Possible(s, a) && (a.HandleLate? ==> !Undoes(s, s.late[a.index]))
    ensures Held(Act(s, a))
  {
    match a
    case Client(event) => ClientHeld(s, event);
    case HandleWrite => HandledHeld(s);
    case DeliverReply => DeliveredHeld(s);
    case LoseWrite => LostHeld(s);
    case HandleLate(index) => LateWriteUndoesExactlyWhen(s, index);
    case HandleRead(id) =>
    case DeliverAnswer(id) => AnsweredHeld(s, id, s.answers[id]);
    case LoseRead(id) => AnsweredHeld(s, id, Failed);
  }

  lemma {:induction false} RunHeld(s: System, actions: seq<Action>)
    requires Held(s) && IsRun(s, actions) && NothingUndone(s, actions)
    ensures Held(Run(s, actions))
    decreases |actions|
  {
    if actions != [] {
      ActionHeld(s, actions[0]);
      RunHeld(Act(s, actions[0]), actions[1..]);
    }
  }

  /** Even when writes and replies are lost, and lost writes are handled late, the newest unconditional
      edit is held by the service or stored as a draft, from which the next read retries it, as long as no
      late write undoes it. */
  lemma {:induction false} NewestEditIsNeverLost(cache: Option<Entry>, reg: Register, actions: seq<Action>, draft: Draft)
    requires ValidRegister(reg) && draft.ifRevision.None?
    requires IsRun(Boot(cache, reg), actions) && NothingUndone(Boot(cache, reg), actions)
    ensures
      var s := Run(Boot(cache, reg), actions);
      var scheduled := s.machine.history.scheduled;
      scheduled != [] && scheduled[|scheduled| - 1] == Put(draft) ==>
        s.reg.content == Some(draft.value) || DraftOf(s.machine.lane.cache) == Some(draft)
  {
    RunHeld(Boot(cache, reg), actions);
  }

  lemma {:induction false} RunThenAct(s: System, actions: seq<Action>, a: Action)
    requires IsRun(s, actions) && Possible(Run(s, actions), a)
    ensures IsRun(s, actions + [a]) && Run(s, actions + [a]) == Act(Run(s, actions), a)
    decreases |actions|
  {
    var more := actions + [a];
    if actions == [] {
      assert more[1..] == [];
      assert IsRun(Act(s, a), []) && Run(Act(s, a), []) == Act(s, a);
    } else {
      assert more[1..] == actions[1..] + [a];
      RunThenAct(Act(s, actions[0]), actions[1..], a);
    }
  }

  /** An idle lane, what it has scheduled, what the register holds, and a write given up on. */
  ghost predicate Resting(s: System, scheduled: seq<Job>, late: seq<Job>) {
    && Held(s) && s.machine.lane.inflight == [] && !s.machine.lane.busy && !s.machine.lane.timer
    && s.machine.history.scheduled == scheduled && s.reply.None? && s.late == late
  }

  /** A set on a resting system, and its timer: the set is in flight and stored as the draft. */
  lemma {:induction false} SetIsSent(s: System, scheduled: seq<Job>, late: seq<Job>, d: Draft)
    requires Resting(s, scheduled, late) && d.ifRevision.None?
    ensures
      var s1 := Act(s, Client(Set(d)));
      Possible(s1, Client(Timer)) &&
      var s2 := Act(s1, Client(Timer));
      && Held(s2) && s2.machine.lane.inflight == [Put(d)] && s2.machine.lane.queued.None? && s2.machine.lane.busy
      && !s2.machine.lane.timer && s2.reply.None? && s2.reg == s.reg && s2.late == late
      && s2.machine.history.scheduled == scheduled + [Put(d)]
  {
    var s1 := Act(s, Client(Set(d)));
    ObserveOne(s.machine.history, Scheduled(Put(d)));
    ClientHeld(s, Set(d));
    ObserveOne(s1.machine.history, Sent(Put(d)));
    ClientHeld(s1, Timer);
  }

  /** A write that is lost before it is handled may come late. */
  lemma {:induction false} SetIsLost(s: System, scheduled: seq<Job>, late: seq<Job>, d: Draft)
    requires Held(s) && s.machine.lane.inflight == [Put(d)] && s.machine.lane.queued.None? && s.machine.lane.busy
    requires !s.machine.lane.timer && s.reply.None? && s.late == late && s.machine.history.scheduled == scheduled
    ensures Resting(Act(s, LoseWrite), scheduled, late + [Put(d)])
  {
    LostHeld(s);
    AfterReply(s.machine, Failure(None, None));
  }

  lemma {:induction false} SetIsHandled(s: System, scheduled: seq<Job>, late: seq<Job>, d: Draft)
    requires Held(s) && s.machine.lane.inflight == [Put(d)] && s.machine.lane.queued.None? && s.machine.lane.busy
    requires !s.machine.lane.timer && s.reply.None? && s.late == late && s.machine.history.scheduled == scheduled
    requires d.ifRevision.None?
    ensures
      var t := Act(Act(s, HandleWrite), DeliverReply);
      Resting(t, scheduled, late) && t.reg.content == Some(d.value) && t.machine.history.settled
  {
    var s1 := Act(s, HandleWrite);
    HandledHeld(s);
    InflightIsNewest(s.machine);
    DeliveredHeld(s1);
    AfterReply(s1.machine, s1.reply.value);
  }

  /** Such a run: a set is lost, the next one is acknowledged, and then the first one is handled. */
  lemma {:induction false} LateWriteExample(a: Draft, b: Draft, reg: Register) returns (actions: seq<Action>)
    requires a.ifRevision.None? && b.ifRevision.None? && a.value != b.value && ValidRegister(reg)
    ensures IsRun(Boot(None, reg), actions)
    ensures
      var s := Run(Boot(None, reg), actions);
      && s.machine.history.scheduled == [Put(a), Put(b)]
      && s.reg.content == Some(a.value) && DraftOf(s.machine.lane.cache).None?
  {
    var s := Boot(None, reg);
    actions := FirstIsLost(s, a);
    actions := SecondIsSaved(s, actions, [Put(a)], [Put(a)], b);
    UndoneIsLost(Run(s, actions), 0);
    actions := Extend(s, actions, HandleLate(0));
  }

  lemma {:induction false} FirstIsLost(s: System, a: Draft) returns (actions: seq<Action>)
    requires Resting(s, [], []) && a.ifRevision.None?
    ensures IsRun(s, actions) && Resting(Run(s, actions), [Put(a)], [Put(a)])
  {
    SetIsSent(s, [], [], a);
    assert IsRun(s, []) && Run(s, []) == s;
    actions := Extend(s, [], Client(Set(a)));
    actions := Extend(s, actions, Client(Timer));
    SetIsLost(Run(s, actions), [Put(a)], [], a);
    actions := Extend(s, actions, LoseWrite);
  }

  lemma {:induction false} SecondIsSaved(s: System, before: seq<Action>, scheduled: seq<Job>, late: seq<Job>, b: Draft)
    returns (actions: seq<Action>)
    requires IsRun(s, before) && Resting(Run(s, before), scheduled, late) && b.ifRevision.None?
    ensures IsRun(s, actions) && Resting(Run(s, actions), scheduled + [Put(b)], late)
    ensures Run(s, actions).reg.content == Some(b.value) && Run(s, actions).machine.history.settled
  {
    SetIsSent(Run(s, before), scheduled, late, b);
    actions := Extend(s, before, Client(Set(b)));
    actions := Extend(s, actions, Client(Timer));
    SetIsHandled(Run(s, actions), scheduled + [Put(b)], late, b);
    actions := Extend(s, actions, HandleWrite);
    actions := Extend(s, actions, DeliverReply);
  }

  lemma {:induction false} Extend(s: System, actions: seq<Action>, a: Action) returns (more: seq<Action>)
    requires IsRun(s, actions) && Possible(Run(s, actions), a)
    ensures IsRun(s, more) && Run(s, more) == Act(Run(s, actions), a)
  {
    more := actions + [a];
    RunThenAct(s, actions, a);
  }

  lemma {:induction false} RunTail(s: System, actions: seq<Action>)
    requires actions != [] && Possible(s, actions[0]) && IsRun(Act(s, actions[0]), actions[1..])
    ensures IsRun(s, actions) && Run(s, actions) == Run(Act(s, actions[0]), actions[1..])
  {
  }

  /** The read, its timer, and a write that arrives: enough to bring a leftover draft to the service. */
  function Retry(id: nat): seq<Action> { [Client(GetStart(id)), Client(Timer), HandleWrite, DeliverReply] }

  /** A draft that a failure left behind on an idle lane is queued again by the next read, and from
      there reaches the service: afterwards both hold it and no draft is left. */
  lemma {:induction false} RetryReachesService(s: System, id: nat, draft: Draft)
    requires Inv(s) && Idle(s.machine.lane) && id !in s.machine.lane.gets
    requires DraftOf(s.machine.lane.cache) == Some(draft) && draft.ifRevision.None?
    ensures IsRun(s, Retry(id))
    ensures
      var t := Run(s, Retry(id));
      t.reg.content == Some(draft.value) && Coherent(t.machine.lane.cache, t.reg)
  {
    var s1 := Act(s, Client(GetStart(id)));
    RetryIsSent(s, id, draft);
    var s2 := Act(s1, Client(Timer));
    var s3 := Act(s2, HandleWrite);
    RetryIsHandled(s2, draft);
    RetryRuns(id, s, s1, s2, s3, Act(s3, DeliverReply));
  }

  /** A single unconditional set is in flight and the service has not handled it. */
  ghost predicate InFlight(s: System, draft: Draft) {
    var l := s.machine.lane;
    && l.inflight == [Put(draft)] && l.queued.None? && !l.timer && s.reply.None? && draft.ifRevision.None?
  }

  lemma {:induction false} RetryIsSent(s: System, id: nat, draft: Draft)
    requires Inv(s) && Idle(s.machine.lane) && id !in s.machine.lane.gets
    requires DraftOf(s.machine.lane.cache) == Some(draft) && draft.ifRevision.None?
    ensures
      var s1 := Act(s, Client(GetStart(id)));
      Possible(s1, Client(Timer)) && InFlight(Act(s1, Client(Timer)), draft)
  {
    GetIsRetryAndSuspend(s.machine, id);
  }

  lemma {:induction false} RetryIsHandled(s: System, draft: Draft)
    requires InFlight(s, draft)
    ensures
      var t := Act(Act(s, HandleWrite), DeliverReply);
      t.reg.content == Some(draft.value) && Coherent(t.machine.lane.cache, t.reg)
  {
    var handled := Act(s, HandleWrite);
    ReplyHistory(handled.machine, 0, handled.reply.value);
  }

  lemma {:induction false} RetryRuns(id: nat, s: System, s1: System, s2: System, s3: System, s4: System)
    requires Possible(s, Client(GetStart(id))) && s1 == Act(s, Client(GetStart(id)))
    requires Possible(s1, Client(Timer)) && s2 == Act(s1, Client(Timer))
    requires Possible(s2, HandleWrite) && s3 == Act(s2, HandleWrite)
    requires Possible(s3, DeliverReply) && s4 == Act(s3, DeliverReply)
    ensures IsRun(s, Retry(id)) && Run(s, Retry(id)) == s4
  {
    var all := Retry(id);
    assert all[1..] == [Client(Timer), HandleWrite, DeliverReply];
    assert all[1..][1..] == [HandleWrite, DeliverReply];
    assert all[1..][1..][1..] == [DeliverReply] && all[1..][1..][1..][1..] == [];
    assert IsRun(s4, []) && Run(s4, []) == s4;
    RunTail(s3, all[1..][1..][1..]);
    RunTail(s2, all[1..][1..]);
    RunTail(s1, all[1..]);
    RunTail(s, all);
  }

  // ---------------------------------------------------------------- deletes

  /** A delete that is the newest edit and has been answered for good is done, unless a late write undoes
      it: the register is empty and no draft is left. */
  lemma {:induction false} SettledDeleteIsDone(cache: Option<Entry>, reg: Register, actions: seq<Action>)
    requires ValidRegister(reg) && IsRun(Boot(cache, reg), actions) && NothingUndone(Boot(cache, reg), actions)
    ensures
      var s := Run(Boot(cache, reg), actions);
      var h := s.machine.history;
      h.settled && h.scheduled != [] && h.scheduled[|h.scheduled| - 1] == Remove ==>
        s.reg == Register(None, 0) && DraftOf(s.machine.lane.cache).None?
  {
    RunHeld(Boot(cache, reg), actions);
  }

  /** A delete that fails is not retried, and the next read queues the set it displaced instead,
      exactly when a draft is stored and the reply is neither an acknowledgement nor a conflict. */
  lemma {:induction false} FailedDeleteIsUndoneExactlyWhen(m: Machine, reply: Reply, id: nat)
    requires Reachable(m) && m.lane.inflight == [Remove] && m.lane.queued.None? && id !in m.lane.gets
    ensures
      var replied := Step(m.lane, WriteReply(0, reply)).lane;
      id !in replied.gets &&
      var queued := Step(replied, GetStart(id)).lane.queued;
      && (queued.Some? <==> DraftOf(m.lane.cache).Some? && !reply.Success? && !IsConflict(reply))
      && (queued.Some? ==> queued == Some(Put(DraftOf(m.lane.cache).value)))
  {
    ReachableInv(m);
    ConcludeFrame(m.lane, Remove, reply);
  }

  /** Such a run: set, delete, the delete is lost, and the read that follows queues the set again. */
  lemma {:induction false} UndoneDeleteExample(b: Draft)
    ensures
      var actions := [Client(Set(b)), Client(Delete), LoseWrite, Client(GetStart(0))];
      IsRun(Boot(None, Register(None, 0)), actions) &&
      var m := Run(Boot(None, Register(None, 0)), actions).machine;
      m.history.scheduled == [Put(b), Remove, Put(b)] && m.lane.queued == Some(Put(b))
  {
    var s := Boot(None, Register(None, 0));
    var s1 := Act(s, Client(Set(b)));
    var s2 := Act(s1, Client(Delete));
    SetThenDelete(b);
    var s3 := Act(s2, LoseWrite);
    LostDelete(s2.machine, b);
    var s4 := Act(s3, Client(GetStart(0)));
    RunUndone(b, s, s1, s2, s3, s4);
  }

  /** A delete sent while the draft of the set before it is stored. */
  ghost predicate DeleteInFlight(m: Machine, b: Draft) {
    && m.lane.inflight == [Remove] && m.lane.queued.None? && !m.lane.timer && m.lane.gets == map[]
    && DraftOf(m.lane.cache) == Some(b) && m.history.scheduled == [Put(b), Remove]
  }

  lemma {:induction false} SetThenDelete(b: Draft)
    ensures DeleteInFlight(Next(Next(Start(None), Set(b)), Delete), b)
  {
    var m := Start(None);
    ObserveOne(m.history, Scheduled(Put(b)));
    var m1 := Next(m, Set(b));
    assert Step(m1.lane, Delete).out == [Scheduled(Remove), Sent(Remove)];
    ObserveTwo(m1.history, Scheduled(Remove), Sent(Remove));
  }

  lemma {:induction false} LostDelete(m: Machine, b: Draft)
    requires DeleteInFlight(m, b)
    ensures
      var lost := Next(m, WriteReply(0, Failure(None, None)));
      && lost.lane.gets == map[]
      && Next(lost, GetStart(0)).lane.queued == Some(Put(b))
      && Next(lost, GetStart(0)).history.scheduled == [Put(b), Remove, Put(b)]
  {
    var lost := Next(m, WriteReply(0, Failure(None, None)));
    assert Step(m.lane, WriteReply(0, Failure(None, None))).out == [Reported];
    ObserveOne(m.history, Reported);
    GetIsRetryAndSuspend(lost, 0);
    ObserveOne(lost.history, Scheduled(Put(b)));
  }

  lemma {:induction false} RunUndone(b: Draft, s: System, s1: System, s2: System, s3: System, s4: System)
    requires Possible(s, Client(Set(b))) && s1 == Act(s, Client(Set(b)))
    requires Possible(s1, Client(Delete)) && s2 == Act(s1, Client(Delete))
    requires Possible(s2, LoseWrite) && s3 == Act(s2, LoseWrite)
    requires Possible(s3, Client(GetStart(0))) && s4 == Act(s3, Client(GetStart(0)))
    ensures
      var actions := [Client(Set(b)), Client(Delete), LoseWrite, Client(GetStart(0))];
      IsRun(s, actions) && Run(s, actions) == s4
  {
    var all := [Client(Set(b)), Client(Delete), LoseWrite, Client(GetStart(0))];
    assert all[1..] == [Client(Delete), LoseWrite, Client(GetStart(0))];
    assert all[1..][1..] == [LoseWrite, Client(GetStart(0))];
    assert all[1..][1..][1..] == [Client(GetStart(0))] && all[1..][1..][1..][1..] == [];
    assert IsRun(s4, []) && Run(s4, []) == s4;
    RunTail(s3, all[1..][1..][1..]);
    RunTail(s2, all[1..][1..]);
    RunTail(s1, all[1..]);
    RunTail(s, all);
  }

  // ---------------------------------------------------------------- reads

  /** A read that the service has answered and no write has disturbed leaves the cache showing exactly what
      the register holds, whatever it held before, if no draft is stored. */
  lemma {:induction false} UndisturbedReadAgrees(s: System, id: nat)
    requires Inv(s) && Possible(s, DeliverAnswer(id))
    requires !s.machine.lane.busy && s.machine.lane.gets[id].epoch == s.machine.lane.epoch
    requires DraftOf(s.machine.lane.cache).None?
    ensures Coherent(Act(s, DeliverAnswer(id)).machine.lane.cache, s.reg)
  {
  }

  // ---------------------------------------------------------------- the register

  /** A write is taken exactly when it names no revision or the one the register has; then the content is
      its value at the next revision. Otherwise nothing changes and the reply is a conflict that tells what
      is there. A delete is always taken. */
  lemma {:induction false} WriteIsTakenExactlyWhen(reg: Register, job: Job)
    ensures
      var (after, reply) := Handle(reg, job);
      match job
      case Remove => after.content.None? && after.revision == 0 && reply.Success?
      case Put(draft) =>
        if draft.ifRevision.None? || draft.ifRevision.value == reg.revision
        then after.content == Some(draft.value) && after.revision == reg.revision + 1 &&
             reply == Success(Some(reg.revision + 1))
        else after == reg && reply.Failure? && reply.status == Some(409) &&
             reply.conflict == Some((if reg.content.Some? then reg.content.value else JSON_NULL, reg.revision))
  {
  }
}
