/** What the protocol does no more often than it was asked to, along every run. */
module ProtocolCounts {
  import opened Options
  import opened Data
  import opened Protocol
  import opened ProtocolInvariant
  import T = ProtocolTheorems

  function One(b: bool): nat { if b then 1 else 0 }

  /** How many events of the run are the agent's and satisfy `p`. */
  function Count(p: AgentEvent -> bool, es: seq<Event>): nat {
    if es == [] then 0
    else Count(p, es[..|es| - 1]) + One(es[|es| - 1].OnAgent? && p(es[|es| - 1].ae))
  }

  predicate TakesToken(e: AgentEvent) { e.LoopTake? }

  predicate Wakes(e: AgentEvent) { e.LoopTick? || e.LoopTake? }

  predicate LoopSyncs(e: AgentEvent) { e == Begin(Loop) }

  predicate Ends(e: AgentEvent) { e.Crash? || e.Start? }

  predicate Starts(e: AgentEvent) { e.Start? }

  predicate Beats(e: AgentEvent) { e.Beat? }

  predicate Answers(e: AgentEvent) { e.BeatReply? || e.BeatFails? }

  // Triggers and tokens.

  /** The answer to the heartbeat in flight tells the agent to sync. */
  predicate Asks(cfg: Config, s: State, e: Event) {
    && e == OnAgent(BeatReply)
    && s.agent.wake.beat.Some? && s.agent.wake.beat.value != Version(s.server, cfg.gateway)
  }

  /** How many answers of the run asked for a sync. */
  function Triggers(cfg: Config, s: State, es: seq<Event>): nat {
    if es == [] then 0
    else
      var front := es[..|es| - 1];
      Triggers(cfg, s, front) +
      match Run(cfg, s, front)
      case Some(u) => One(Asks(cfg, u, es[|es| - 1]))
      case None => 0
  }

  lemma TokenStep(cfg: Config, v: Server, a: Agent, e: AgentEvent)
    requires NextAgent(cfg, v, a, e).Some?
    ensures var asks := e.BeatReply? && a.wake.beat.Some? && a.wake.beat.value != Version(v, cfg.gateway);
      One(TakesToken(e)) + One(NextAgent(cfg, v, a, e).value.wake.token) <= One(asks) + One(a.wake.token)
  {
  }

  /** A token is used once: along every run from any state, `Run` takes at most one for every answer
      that asked for a sync, and one more if the slot was full at the start. */
  lemma {:induction false} TokensUsedOnce(cfg: Config, s: State, es: seq<Event>)
    requires Run(cfg, s, es).Some?
    ensures Count(TakesToken, es) + One(Run(cfg, s, es).value.agent.wake.token) <=
            Triggers(cfg, s, es) + One(s.agent.wake.token)
  {
    if es != [] {
      var front, last := es[..|es| - 1], es[|es| - 1];
      TokensUsedOnce(cfg, s, front);
      var u := Run(cfg, s, front).value;
      if last.OnAgent? { TokenStep(cfg, u.server, u.agent, last.ae); }
    }
  }

  /** So without such an answer at most one token is taken, and once it is the slot stays empty. */
  lemma NoTriggerNoToken(cfg: Config, s: State, es: seq<Event>)
    requires Run(cfg, s, es).Some? && Triggers(cfg, s, es) == 0
    ensures var takes := Count(TakesToken, es);
      takes <= 1 && (takes == 1 || !s.agent.wake.token ==> !Run(cfg, s, es).value.agent.wake.token)
  {
    TokensUsedOnce(cfg, s, es);
  }

  /** A wake-up is waiting: in the slot, or in `Run`'s hands. */
  predicate Woken(a: Agent) { a.wake.token || a.wake.loop == TookToken }

  lemma TriggerFills(cfg: Config, v: Server, a: Agent)
    requires NextAgent(cfg, v, a, BeatReply).Some? && a.wake.beat.value != Version(v, cfg.gateway)
    ensures var w := NextAgent(cfg, v, a, BeatReply).value.wake; w.token && w.lastTrigger == w.clock
  {
  }

  lemma WokenStep(cfg: Config, v: Server, a: Agent, e: AgentEvent)
    requires WakeupOk(a.core, a.wake) && Woken(a) && NextAgent(cfg, v, a, e).Some?
    requires !Ends(e) && !LoopSyncs(e) && a.core.up
    ensures Woken(NextAgent(cfg, v, a, e).value) && NextAgent(cfg, v, a, e).value.core.up
  {
  }

  lemma {:induction false} WokenRun(cfg: Config, s: State, es: seq<Event>)
    requires Inv(cfg.gateway, s) && s.agent.core.up && Woken(s.agent) && Run(cfg, s, es).Some?
    requires Count(LoopSyncs, es) == 0 && Count(Ends, es) == 0
    ensures Woken(Run(cfg, s, es).value.agent) && Run(cfg, s, es).value.agent.core.up
  {
    if es != [] {
      var front, last := es[..|es| - 1], es[|es| - 1];
      WokenRun(cfg, s, front);
      RunKeeps(cfg, s, front);
      var u := Run(cfg, s, front).value;
      if last.OnAgent? { WokenStep(cfg, u.server, u.agent, last.ae); }
    }
  }

  /** A trigger is answered by the loop, and by nothing else: after an answer that asks for a sync the
      wake-up waits, whatever happens and whichever other syncs run, until `Run` itself begins one. */
  lemma TriggerWaits(cfg: Config, s: State, t: State, es: seq<Event>)
    requires Reachable(cfg, s) && Asks(cfg, s, OnAgent(BeatReply)) && Next(cfg, s, OnAgent(BeatReply)) == Some(t)
    requires Run(cfg, t, es).Some? && Count(LoopSyncs, es) == 0 && Count(Ends, es) == 0
    ensures Woken(Run(cfg, t, es).value.agent)
  {
    ReachableInv(cfg, s);
    Step(cfg, s, OnAgent(BeatReply));
    TriggerFills(cfg, s.server, s.agent);
    WokenRun(cfg, t, es);
  }

  /** And `Run` can begin it: two steps at most once the lock is free. */
  lemma WokenServed(cfg: Config, s: State) returns (es: seq<Event>)
    requires Reachable(cfg, s) && s.agent.core.up && s.agent.core.phase.Idle? && Woken(s.agent)
    ensures |es| <= 2 && Run(cfg, s, es).Some?
    ensures Run(cfg, s, es).value.server == s.server && Run(cfg, s, es).value.agent.core.phase == Begun(Loop)
  {
    ReachableInv(cfg, s);
    StartupAlone(cfg, s);
    if s.agent.wake.loop == Waiting {
      var t := T.TokenTaken(cfg, s);
      es := [OnAgent(LoopTake), OnAgent(Begin(Loop))];
    } else {
      es := [OnAgent(Begin(Loop))];
      T.Run1(cfg, s, OnAgent(Begin(Loop)));
    }
  }

  // Ticks, tokens and syncs.

  /** `Run` has a tick or a token for which it has not begun a sync. */
  predicate Owes(a: Agent) { a.core.up && (a.wake.loop == TookTick || a.wake.loop == TookToken) }

  lemma OwesStep(cfg: Config, v: Server, a: Agent, e: AgentEvent)
    requires ConfigOk(a.core) && WakeupOk(a.core, a.wake) && NextAgent(cfg, v, a, e).Some?
    ensures One(LoopSyncs(e)) + One(Owes(NextAgent(cfg, v, a, e).value)) <= One(Wakes(e)) + One(Owes(a))
    ensures !Ends(e) ==>
      One(LoopSyncs(e)) + One(Owes(NextAgent(cfg, v, a, e).value)) == One(Wakes(e)) + One(Owes(a))
  {
  }

  /** The loop syncs as often as it is asked to: every sync it begins answers one tick or one token, and
      each of these is answered by one sync or still to be, unless the agent ended in between. */
  lemma {:induction false} SyncsAsked(cfg: Config, s: State, es: seq<Event>)
    requires Inv(cfg.gateway, s) && Run(cfg, s, es).Some?
    ensures var syncs := Count(LoopSyncs, es);
      var asked := Count(Wakes, es);
      var ends := Count(Ends, es);
      && syncs + One(Owes(Run(cfg, s, es).value.agent)) <= asked + One(Owes(s.agent))
      && (ends == 0 ==> syncs + One(Owes(Run(cfg, s, es).value.agent)) == asked + One(Owes(s.agent)))
  {
    if es != [] {
      var front, last := es[..|es| - 1], es[|es| - 1];
      SyncsAsked(cfg, s, front);
      RunKeeps(cfg, s, front);
      var u := Run(cfg, s, front).value;
      if last.OnAgent? { OwesStep(cfg, u.server, u.agent, last.ae); }
    }
  }

  // Heartbeats.

  lemma BeatStep(cfg: Config, v: Server, a: Agent, e: AgentEvent)
    requires NextAgent(cfg, v, a, e).Some?
    ensures !Starts(e) ==>
      One(Answers(e)) + One(NextAgent(cfg, v, a, e).value.wake.beat.Some?) ==
      One(Beats(e)) + One(a.wake.beat.Some?)
  {
  }

  /** Every heartbeat is answered or fails once, or is the one in flight, until the agent is started
      anew. */
  lemma {:induction false} BeatsAnswered(cfg: Config, s: State, es: seq<Event>)
    requires Run(cfg, s, es).Some? && Count(Starts, es) == 0
    ensures Count(Answers, es) +
            One(Run(cfg, s, es).value.agent.wake.beat.Some?) ==
            Count(Beats, es) + One(s.agent.wake.beat.Some?)
  {
    if es != [] {
      var front, last := es[..|es| - 1], es[|es| - 1];
      BeatsAnswered(cfg, s, front);
      var u := Run(cfg, s, front).value;
      if last.OnAgent? { BeatStep(cfg, u.server, u.agent, last.ae); }
    }
  }

  // Publish calls.

  function SyncsFor(c: CallId): AgentEvent -> bool { (e: AgentEvent) => e == Begin(Call(c)) }

  function ReturnsTo(c: CallId): AgentEvent -> bool { (e: AgentEvent) => e.CreationReturned? && e.c == c }

  /** The call's tunnel is created, and its sync has not begun. */
  predicate Waits(a: Agent, c: CallId) { c in a.calls && a.calls[c].Created? }

  /** A sync that a call began finds the call syncing. */
  predicate OwnSync(a: Agent, c: CallId) {
    !a.core.phase.Idle? && a.core.phase.owner == Call(c) ==> c in a.calls && a.calls[c].Syncing?
  }

  lemma OwnSyncStep(cfg: Config, v: Server, a: Agent, e: AgentEvent, c: CallId)
    requires NextAgent(cfg, v, a, e).Some? && ConfigOk(a.core) && OwnSync(a, c)
    ensures OwnSync(NextAgent(cfg, v, a, e).value, c)
  {
  }

  lemma {:induction false} OwnSyncRun(cfg: Config, s: State, es: seq<Event>, c: CallId)
    requires Inv(cfg.gateway, s) && OwnSync(s.agent, c) && Run(cfg, s, es).Some?
    ensures OwnSync(Run(cfg, s, es).value.agent, c)
  {
    if es != [] {
      var front := es[..|es| - 1];
      OwnSyncRun(cfg, s, front, c);
      RunKeeps(cfg, s, front);
      var u := Run(cfg, s, front).value;
      match es[|es| - 1]
      case OnServer(_) =>
      case OnAgent(ae) => OwnSyncStep(cfg, u.server, u.agent, ae, c);
    }
  }

  lemma WaitsBegin(cfg: Config, v: Server, a: Agent, owner: Owner, c: CallId)
    requires NextAgent(cfg, v, a, Begin(owner)).Some?
    ensures One(owner == Call(c)) + One(Waits(NextAgent(cfg, v, a, Begin(owner)).value, c)) == One(Waits(a, c))
  {
  }

  lemma WaitsReturned(cfg: Config, v: Server, a: Agent, d: CallId, id: Id, c: CallId)
    requires NextAgent(cfg, v, a, CreationReturned(d, id)).Some?
    ensures One(Waits(NextAgent(cfg, v, a, CreationReturned(d, id)).value, c)) == One(d == c) + One(Waits(a, c))
  {
  }

  lemma WaitsElse(cfg: Config, v: Server, a: Agent, e: AgentEvent, c: CallId)
    requires NextAgent(cfg, v, a, e).Some? && OwnSync(a, c) && !Starts(e) && !e.Begin? && !e.CreationReturned?
    ensures Waits(NextAgent(cfg, v, a, e).value, c) <==> Waits(a, c)
  {
  }

  lemma CallStep(cfg: Config, v: Server, a: Agent, e: AgentEvent, c: CallId)
    requires NextAgent(cfg, v, a, e).Some? && !Starts(e) && OwnSync(a, c)
    ensures One(SyncsFor(c)(e)) + One(Waits(NextAgent(cfg, v, a, e).value, c)) ==
            One(ReturnsTo(c)(e)) + One(Waits(a, c))
  {
    match e
    case Begin(owner) => WaitsBegin(cfg, v, a, owner, c);
    case CreationReturned(d, id) => WaitsReturned(cfg, v, a, d, id, c);
    case _ => WaitsElse(cfg, v, a, e, c);
  }

  lemma CallSnoc(cfg: Config, s: State, es: seq<Event>, c: CallId, u: State)
    requires es != [] && Run(cfg, s, es[..|es| - 1]) == Some(u) && Run(cfg, s, es).Some?
    requires Count(Starts, es) == 0 && OwnSync(u.agent, c)
    ensures var front := es[..|es| - 1];
      Count(SyncsFor(c), es) - Count(SyncsFor(c), front) + One(Waits(Run(cfg, s, es).value.agent, c)) ==
      Count(ReturnsTo(c), es) - Count(ReturnsTo(c), front) + One(Waits(u.agent, c))
  {
    var last := es[|es| - 1];
    if last.OnAgent? { CallStep(cfg, u.server, u.agent, last.ae, c); }
  }

  lemma {:induction false} CallCounts(cfg: Config, s: State, es: seq<Event>, c: CallId)
    requires Inv(cfg.gateway, s) && OwnSync(s.agent, c) && Run(cfg, s, es).Some? && Count(Starts, es) == 0
    ensures Count(SyncsFor(c), es) + One(Waits(Run(cfg, s, es).value.agent, c)) ==
            Count(ReturnsTo(c), es) + One(Waits(s.agent, c))
  {
    if es != [] {
      var front := es[..|es| - 1];
      CallCounts(cfg, s, front, c);
      OwnSyncRun(cfg, s, front, c);
      CallSnoc(cfg, s, es, c, Run(cfg, s, front).value);
    }
  }

  /** A publish call syncs once: along every run from a reachable state, as often as its creation has
      returned, or it is about to, unless the agent is started anew. */
  lemma CallSyncsOnce(cfg: Config, s: State, es: seq<Event>, c: CallId)
    requires Reachable(cfg, s) && Run(cfg, s, es).Some? && Count(Starts, es) == 0
    ensures Count(SyncsFor(c), es) + One(Waits(Run(cfg, s, es).value.agent, c)) ==
            Count(ReturnsTo(c), es) + One(Waits(s.agent, c))
  {
    ReachableInv(cfg, s);
    var s0, es0 :| Init(s0) && Run(cfg, s0, es0) == Some(s);
    OwnSyncRun(cfg, s0, es0, c);
    CallCounts(cfg, s, es, c);
  }

  // Before the loops start.

  /** Between the agent's start and the end of the sync `main` runs first, nothing else is going on. */
  predicate Alone(a: Agent) {
    a.core.up && a.wake.loop == Starting ==>
      !a.wake.token && a.wake.beat.None? && a.calls == map[] && (a.core.phase.Idle? || a.core.phase.owner == Startup)
  }

  lemma AloneStep(cfg: Config, v: Server, a: Agent, e: AgentEvent)
    requires ConfigOk(a.core) && Alone(a) && NextAgent(cfg, v, a, e).Some?
    ensures Alone(NextAgent(cfg, v, a, e).value)
  {
  }

  lemma {:induction false} AloneRun(cfg: Config, s: State, es: seq<Event>)
    requires Inv(cfg.gateway, s) && Alone(s.agent) && Run(cfg, s, es).Some?
    ensures Alone(Run(cfg, s, es).value.agent)
  {
    if es != [] {
      var front := es[..|es| - 1];
      AloneRun(cfg, s, front);
      RunKeeps(cfg, s, front);
      var u := Run(cfg, s, front).value;
      match es[|es| - 1]
      case OnServer(_) =>
      case OnAgent(ae) => AloneStep(cfg, u.server, u.agent, ae);
    }
  }

  /** `main` starts nothing before its own sync is over: no heartbeat, no trigger, no publish call, in
      every reachable state, after crashes and restarts too. */
  lemma StartupAlone(cfg: Config, s: State)
    requires Reachable(cfg, s)
    ensures Alone(s.agent)
  {
    var s0, es :| Init(s0) && Run(cfg, s0, es) == Some(s);
    AloneRun(cfg, s0, es);
  }

  // What history records.

  /** A mutation of tunnel `id` reads its row. */
  predicate Addresses(e: Event, id: Id) {
    e.OnServer? && match e.se
                   case ReadForUpdate(_, i, _) => i == id
                   case ReadForDelete(_, i) => i == id
                   case ListExpired(_, i) => i == id
                   case _ => false
  }

  predicate Untouched(es: seq<Event>, id: Id) { forall k :: 0 <= k < |es| ==> !Addresses(es[k], id) }

  predicate OpSpares(op: Op, id: Id) {
    match op
    case Updating(i, _) => i != id
    case Deleting(i, _) => i != id
    case Disabling(i, _) => i != id
    case _ => true
  }

  predicate ServerSpares(v: Server, id: Id) { id !in v.changed && forall o :: o in v.ops ==> OpSpares(v.ops[o], id) }

  ghost predicate AgentSpares(a: Agent, id: Id) {
    && (forall r :: r in Held(a.core) ==> id !in r.changed)
    && forall c :: c in a.calls && a.calls[c].Ok? ==> id !in a.calls[c].process.changed
  }

  lemma ServerSparesStep(v: Server, e: ServerEvent, id: Id)
    requires NextServer(v, e).Some? && ServerSpares(v, id) && !Addresses(OnServer(e), id)
    ensures ServerSpares(NextServer(v, e).value, id)
  {
    match e
    case Update(op) => assert OpSpares(v.ops[op], id);
    case Delete(op) => assert OpSpares(v.ops[op], id);
    case Disable(op) => assert OpSpares(v.ops[op], id);
    case _ =>
  }

  lemma HeldSpares(cfg: Config, v: Server, k: Core, e: AgentEvent, id: Id)
    requires NextCore(cfg, v, k, e).Some? && id !in v.changed && forall r :: r in Held(k) ==> id !in r.changed
    ensures forall r :: r in Held(NextCore(cfg, v, k, e).value) ==> id !in r.changed
    ensures Outcome(k, e).Some? ==> id !in Outcome(k, e).value.changed
  {
    HeldStep(cfg, v, k, e);
    assert Outcome(k, e).Some? ==> Outcome(k, e).value in Held(k);
  }

  lemma CallsSpared(k: Core, next: Core, calls: map<CallId, PublishCall>, e: AgentEvent, id: Id)
    requires forall c :: c in calls && calls[c].Ok? ==> id !in calls[c].process.changed
    requires Outcome(k, e).Some? ==> id !in Outcome(k, e).value.changed
    ensures var after := NextCalls(k, next, calls, e);
      forall c :: c in after && after[c].Ok? ==> id !in after[c].process.changed
  {
  }

  lemma AgentSparesStep(cfg: Config, v: Server, a: Agent, e: AgentEvent, id: Id)
    requires NextAgent(cfg, v, a, e).Some? && AgentSpares(a, id) && id !in v.changed
    ensures AgentSpares(NextAgent(cfg, v, a, e).value, id)
  {
    HeldSpares(cfg, v, a.core, e, id);
    CallsSpared(a.core, NextCore(cfg, v, a.core, e).value, a.calls, e, id);
  }

  lemma {:induction false} UntouchedRun(cfg: Config, s: State, es: seq<Event>, id: Id)
    requires Run(cfg, s, es).Some? && Untouched(es, id) && ServerSpares(s.server, id) && AgentSpares(s.agent, id)
    ensures var t := Run(cfg, s, es).value; ServerSpares(t.server, id) && AgentSpares(t.agent, id)
  {
    if es != [] {
      var front, last := es[..|es| - 1], es[|es| - 1];
      assert forall k :: 0 <= k < |front| ==> front[k] == es[k];
      UntouchedRun(cfg, s, front, id);
      var u := Run(cfg, s, front).value;
      assert !Addresses(last, id);
      match last
      case OnServer(se) => ServerSparesStep(u.server, se, id);
      case OnAgent(ae) => AgentSparesStep(cfg, u.server, u.agent, ae, id);
    }
  }

  /** A published tunnel that no update, deletion or sweep has picked is served: along every run from a
      fresh install, whatever else happens, a call that has returned "ok" did so on a configuration that
      holds the row as it was created. */
  lemma UntouchedIsServed(cfg: Config, s0: State, es: seq<Event>, c: CallId)
    requires Init(s0) && Run(cfg, s0, es).Some?
    requires var a := Run(cfg, s0, es).value.agent; c in a.calls && a.calls[c].Ok? && Untouched(es, a.calls[c].id)
    ensures var s := Run(cfg, s0, es).value;
      var call := s.agent.calls[c];
      && call.id in s.server.born && call.id in call.process.rows
      && call.process.rows[call.id] == s.server.born[call.id].row
  {
    RunKeeps(cfg, s0, es);
    var s := Run(cfg, s0, es).value;
    UntouchedRun(cfg, s0, es, s.agent.calls[c].id);
    assert CallOk(cfg.gateway, s.server, s.agent.calls[c]);
  }

  /** What a restart forgets and keeps: the version is the state file's, frpc is not managed, the slot is
      empty, and calls are gone; so a heartbeat then asks exactly when the saved version is behind. */
  lemma RestartForgets(cfg: Config, s: State)
    requires Reachable(cfg, s) && NextAgent(cfg, s.server, s.agent, Start).Some?
    ensures var a := NextAgent(cfg, s.server, s.agent, Start).value;
      && a.core.up && a.core.phase.Idle? && a.core.proc.None? && a.core.file == s.agent.core.file
      && s.agent.core.disk == Whole(a.core.version) && a.core.disk == s.agent.core.disk
      && !a.wake.token && a.calls == map[]
      && (NeedSync(s.server, cfg.gateway, a.core.version) <==> Version(s.server, cfg.gateway) > a.core.version)
  {
    ReachableInv(cfg, s);
  }
}
