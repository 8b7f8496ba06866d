/** What every step of the protocol keeps. */
module ProtocolInvariant {
  import opened Options
  import opened Data
  import opened Protocol

  /** No mutation of `g` stands between its row change and its bump. */
  predicate Quiet(v: Server, g: Gateway) {
    forall o :: o in v.ops && v.ops[o].Unbumped? ==> v.ops[o].gateway != g
  }

  /** A created row is still as inserted, unless a later statement addressed it. */
  predicate Intact(v: Server, id: Id, row: Tunnel) {
    id in v.changed || (id in v.rows && v.rows[id] == row)
  }

  predicate OpOk(v: Server, op: Op) {
    match op
    case Inserting(id, row) => id !in v.inserted
    case Updating(id, row) => id in v.inserted && (id in v.rows ==> v.rows[id].gateway == row.gateway)
    case Deleting(id, g) => id in v.inserted && (id in v.rows ==> v.rows[id].gateway == g)
    case Disabling(id, g) => id in v.inserted && (id in v.rows ==> v.rows[id].gateway == g)
    case Unbumped(g, created) =>
      created.Some? ==>
        && created.value.0 in v.inserted && created.value.0 !in v.born
        && created.value.1.gateway == g
        && Intact(v, created.value.0, created.value.1)
  }

  predicate Creates(op: Op) { op.Unbumped? && op.created.Some? }

  predicate OpsOk(v: Server) { forall o :: o in v.ops ==> OpOk(v, v.ops[o]) }

  /** No two operations carry one fresh id. */
  predicate FreshIds(v: Server) {
    && (forall o, p :: o in v.ops && p in v.ops && o != p && v.ops[o].Inserting? && v.ops[p].Inserting? ==>
          v.ops[o].id != v.ops[p].id)
    && (forall o, p :: o in v.ops && p in v.ops && o != p && Creates(v.ops[o]) && Creates(v.ops[p]) ==>
          v.ops[o].created.value.0 != v.ops[p].created.value.0)
  }

  predicate ServerOk(v: Server) {
    && v.rows.Keys <= v.inserted && v.changed <= v.inserted
    && OpsOk(v) && FreshIds(v)
    && (forall id :: id in v.born ==> BirthOk(v, id))
  }

  predicate BirthOk(v: Server, id: Id)
    requires id in v.born
  {
    && id in v.inserted
    && v.born[id].version <= Version(v, v.born[id].row.gateway)
    && Intact(v, id, v.born[id].row)
  }

  lemma OpsStep(v: Server, e: ServerEvent)
    requires ServerOk(v) && NextServer(v, e).Some?
    ensures OpsOk(NextServer(v, e).value)
  {
    var w := NextServer(v, e).value;
    forall o | o in w.ops ensures OpOk(w, w.ops[o]) {
      if o in v.ops {
        assert OpOk(v, v.ops[o]);
        if e.Insert? { assert OpOk(v, v.ops[e.op]); }
        if e.Bump? && o != e.op && Creates(v.ops[o]) && Creates(v.ops[e.op]) {
          assert v.ops[o].created.value.0 != v.ops[e.op].created.value.0;
        }
      }
    }
  }

  lemma FreshInsert(v: Server, e: ServerEvent)
    requires ServerOk(v) && NextServer(v, e).Some? && e.Insert?
    ensures FreshIds(NextServer(v, e).value)
  {
    var w := NextServer(v, e).value;
    assert OpOk(v, v.ops[e.op]);
    forall o | o in w.ops && o != e.op && Creates(w.ops[o])
      ensures w.ops[o].created.value.0 != v.ops[e.op].id
    {
      assert OpOk(v, v.ops[o]);
    }
  }

  lemma FreshStep(v: Server, e: ServerEvent)
    requires ServerOk(v) && NextServer(v, e).Some?
    ensures FreshIds(NextServer(v, e).value)
  {
    if e.Insert? { FreshInsert(v, e); }
  }

  lemma BirthsStep(v: Server, e: ServerEvent)
    requires ServerOk(v) && NextServer(v, e).Some?
    ensures forall id :: id in NextServer(v, e).value.born ==> BirthOk(NextServer(v, e).value, id)
  {
    var w := NextServer(v, e).value;
    forall id | id in w.born ensures BirthOk(w, id) {
      if id in v.born { assert BirthOk(v, id); }
      if e.Bump? || e.Insert? { assert OpOk(v, v.ops[e.op]); }
    }
  }

  lemma ServerStep(v: Server, e: ServerEvent)
    requires ServerOk(v) && NextServer(v, e).Some?
    ensures ServerOk(NextServer(v, e).value)
  {
    OpsStep(v, e);
    FreshStep(v, e);
    BirthsStep(v, e);
  }

  /** What a config response promises for ever after, whatever the server does:
      its version was reached; it lists enabled rows of the gateway, each once; if that is still the
      version and nothing is pending, its rows are the rows; and it holds every enabled creation whose
      bump its version covers, unless a statement had addressed that row before the rows were read. */
  predicate ResponseOk(g: Gateway, v: Server, r: Response) {
    && r.version <= Version(v, g)
    && Lists(r.order, r.rows)
    && (forall id :: id in r.rows ==> r.rows[id].enabled && r.rows[id].gateway == g)
    && (Version(v, g) == r.version && Quiet(v, g) ==> r.rows == EnabledRows(v.rows, g))
    && (forall id :: id in v.born && Covers(g, v.born[id], r.version) ==> Holds(r, id, v.born[id].row))
  }

  predicate Covers(g: Gateway, b: Birth, version: nat) {
    b.row.gateway == g && b.row.enabled && b.version <= version
  }

  predicate Holds(r: Response, id: Id, row: Tunnel) {
    id in r.changed || (id in r.rows && r.rows[id] == row)
  }

  lemma VersionGrows(v: Server, e: ServerEvent, g: Gateway)
    requires NextServer(v, e).Some?
    ensures Version(v, g) <= Version(NextServer(v, e).value, g)
  {
  }

  /** Nothing becomes quiet for `g` but by raising its version. */
  lemma QuietBefore(v: Server, e: ServerEvent, g: Gateway)
    requires NextServer(v, e).Some?
    requires Quiet(NextServer(v, e).value, g) && Version(NextServer(v, e).value, g) == Version(v, g)
    ensures Quiet(v, g)
  {
    var w := NextServer(v, e).value;
    forall o | o in v.ops && v.ops[o].Unbumped? ensures v.ops[o].gateway != g {
      if o in w.ops { assert w.ops[o] == v.ops[o]; }
    }
  }

  predicate ChangesRows(e: ServerEvent) { e.Insert? || e.Update? || e.Delete? || e.Disable? }

  /** A row statement that leaves `g` quiet belongs to another gateway. */
  lemma RowsSame(v: Server, e: ServerEvent, g: Gateway)
    requires OpsOk(v) && v.rows.Keys <= v.inserted && NextServer(v, e).Some? && ChangesRows(e)
    requires Quiet(NextServer(v, e).value, g)
    ensures EnabledRows(NextServer(v, e).value.rows, g) == EnabledRows(v.rows, g)
  {
    var w := NextServer(v, e).value;
    assert w.ops[e.op].Unbumped? && w.ops[e.op].gateway != g;
    assert OpOk(v, v.ops[e.op]);
  }

  /** A statement of one gateway's mutation leaves the others' rows alone. */
  lemma OtherGateway(v: Server, e: ServerEvent, g: Gateway)
    requires ServerOk(v) && NextServer(v, e).Some?
    ensures var w := NextServer(v, e).value;
      Quiet(w, g) && Version(w, g) == Version(v, g) ==> Quiet(v, g) && EnabledRows(w.rows, g) == EnabledRows(v.rows, g)
    ensures Version(v, g) <= Version(NextServer(v, e).value, g)
  {
    VersionGrows(v, e, g);
    if Quiet(NextServer(v, e).value, g) && Version(NextServer(v, e).value, g) == Version(v, g) {
      QuietBefore(v, e, g);
      if ChangesRows(e) { RowsSame(v, e, g); }
    }
  }

  lemma HoldsStep(g: Gateway, v: Server, e: ServerEvent, r: Response, id: Id)
    requires ServerOk(v) && NextServer(v, e).Some? && ResponseOk(g, v, r)
    requires id in NextServer(v, e).value.born && Covers(g, NextServer(v, e).value.born[id], r.version)
    ensures Holds(r, id, NextServer(v, e).value.born[id].row)
  {
    if id in v.born && v.born[id] == NextServer(v, e).value.born[id] { assert Covers(g, v.born[id], r.version); }
  }

  lemma ResponseStep(g: Gateway, v: Server, e: ServerEvent, r: Response)
    requires ServerOk(v) && NextServer(v, e).Some? && ResponseOk(g, v, r)
    ensures ResponseOk(g, NextServer(v, e).value, r)
  {
    var w := NextServer(v, e).value;
    OtherGateway(v, e, g);
    forall id | id in w.born && Covers(g, w.born[id], r.version) ensures Holds(r, id, w.born[id].row) {
      HoldsStep(g, v, e, r, id);
    }
  }

  /** A response assembled now from a version read earlier is sound: this is where reading the
      version first matters. */
  lemma ResponseFresh(g: Gateway, v: Server, version: nat, order: seq<Id>)
    requires ServerOk(v) && version <= Version(v, g) && Lists(order, EnabledRows(v.rows, g))
    ensures ResponseOk(g, v, Response(version, EnabledRows(v.rows, g), order, v.changed))
  {
    var r := Response(version, EnabledRows(v.rows, g), order, v.changed);
    forall id | id in v.born && Covers(g, v.born[id], version) ensures Holds(r, id, v.born[id].row) {
      assert BirthOk(v, id);
    }
  }

  // The agent.

  predicate HasResponse(p: Phase) {
    p.Pulled? || p.Rendered? || p.Installed? || p.Stopped? || p.Started? || p.Recorded?
  }

  /** Before `frpc.toml` is replaced nothing of the previous configuration has been touched. */
  predicate BeforeInstall(p: Phase) {
    p.Idle? || p.Begun? || p.HaveVersion? || p.Pulled? || p.Rendered?
  }

  /** Which configuration the file, the process and the recorded version stand for, by phase. */
  predicate ConfigOk(k: Core) {
    && (BeforeInstall(k.phase) && k.proc.Some? ==> k.proc.value.version == k.version && k.file == k.proc)
    && (k.phase.Installed? ==> k.file == Some(k.phase.resp))
    && (k.phase.Stopped? ==> k.file == Some(k.phase.resp) && k.proc.None?)
    && (k.phase.Started? ==> k.file == Some(k.phase.resp) && (k.proc.Some? ==> k.proc == k.file))
    && (k.phase.Recorded? ==>
          k.file == Some(k.phase.resp) && (k.proc.Some? ==> k.proc == k.file) && k.version == k.phase.resp.version)
    && (!k.up ==> k.phase.Idle? && k.proc.None?)
  }

  predicate VersionsOk(g: Gateway, v: Server, k: Core) {
    && k.version <= Version(v, g)
    && (k.phase.HaveVersion? ==> k.version <= k.phase.version <= Version(v, g))
    && (HasResponse(k.phase) ==> k.version <= k.phase.resp.version <= Version(v, g))
    && k.disk.Whole? && k.disk.version <= k.version
  }

  /** Recorded versions, in memory and on disk, are zero or ones whose `Apply` succeeded. */
  predicate AppliedOk(k: Core) {
    && (k.version == 0 || k.version in k.applied)
    && (k.phase.Started? || k.phase.Recorded? ==> k.phase.resp.version in k.applied)
    && k.disk.Whole? && (k.disk.version == 0 || k.disk.version in k.applied)
  }

  /** The responses some part of the agent stands for. */
  function Held(k: Core): set<Response> {
    (if HasResponse(k.phase) then {k.phase.resp} else {}) +
    (if k.file.Some? then {k.file.value} else {}) +
    (if k.proc.Some? then {k.proc.value} else {}) +
    (if k.snapshot.Some? then {k.snapshot.value} else {})
  }

  ghost predicate ResponsesOk(g: Gateway, v: Server, k: Core) {
    forall r :: r in Held(k) ==> ResponseOk(g, v, r)
  }

  /** No wake-up is lost: after a trigger that no sync has followed, the slot is full or the loop
      holds the token. */
  predicate WakeupOk(k: Core, w: Wake) {
    && w.lastTrigger <= w.clock && w.lastBegin <= w.clock
    && (k.up && w.lastTrigger > w.lastBegin ==> w.token || w.loop == TookToken)
    && (k.up && w.loop == Starting ==> w.lastTrigger == 0 && w.beat.None?)
    && (k.up ==> (w.loop == InSync <==> !k.phase.Idle? && k.phase.owner == Loop))
    && (k.up && !k.phase.Idle? && k.phase.owner == Startup ==> w.loop == Starting)
  }

  predicate CallOk(g: Gateway, v: Server, call: PublishCall) {
    && call.id in v.born && v.born[call.id].row.gateway == g && v.born[call.id].row.enabled
    && (call.Ok? ==> Holds(call.process, call.id, v.born[call.id].row))
  }

  /** A sync that a publish call began reads a version that covers the call's tunnel. */
  predicate OwnerOk(v: Server, k: Core, calls: map<CallId, PublishCall>) {
    !k.phase.Idle? && k.phase.owner.Call? ==>
      && k.phase.owner.c in calls
      && var id := calls[k.phase.owner.c].id;
      && id in v.born
      && (k.phase.HaveVersion? ==> v.born[id].version <= k.phase.version)
      && (HasResponse(k.phase) ==> v.born[id].version <= k.phase.resp.version)
  }

  predicate CallsOk(g: Gateway, v: Server, calls: map<CallId, PublishCall>) {
    forall c :: c in calls ==> CallOk(g, v, calls[c])
  }

  ghost predicate CoreOk(g: Gateway, v: Server, k: Core) {
    ConfigOk(k) && VersionsOk(g, v, k) && AppliedOk(k) && ResponsesOk(g, v, k)
  }

  ghost predicate AgentOk(g: Gateway, v: Server, a: Agent) {
    && CoreOk(g, v, a.core)
    && WakeupOk(a.core, a.wake)
    && CallsOk(g, v, a.calls) && OwnerOk(v, a.core, a.calls)
  }

  ghost predicate Inv(g: Gateway, s: State) {
    ServerOk(s.server) && AgentOk(g, s.server, s.agent)
  }

  lemma AgentUnderServerStep(g: Gateway, v: Server, e: ServerEvent, a: Agent)
    requires ServerOk(v) && NextServer(v, e).Some? && AgentOk(g, v, a)
    ensures AgentOk(g, NextServer(v, e).value, a)
  {
    var w := NextServer(v, e).value;
    OtherGateway(v, e, g);
    forall r | r in Held(a.core) ensures ResponseOk(g, w, r) { ResponseStep(g, v, e, r); }
    BirthsStay(v, e);
    assert OwnerOk(w, a.core, a.calls);
    forall c | c in a.calls ensures CallOk(g, w, a.calls[c]) { assert CallOk(g, v, a.calls[c]); }
  }

  lemma BirthsStay(v: Server, e: ServerEvent)
    requires ServerOk(v) && NextServer(v, e).Some?
    ensures var w := NextServer(v, e).value;
      forall id :: id in v.born ==> id in w.born && w.born[id] == v.born[id]
  {
    if e.Bump? { assert OpOk(v, v.ops[e.op]); }
  }

  lemma HeldStep(cfg: Config, v: Server, k: Core, e: AgentEvent)
    requires NextCore(cfg, v, k, e).Some?
    ensures Held(NextCore(cfg, v, k, e).value) <= Held(k) +
            if e.ListRows? && k.phase.HaveVersion?
            then {Response(k.phase.version, EnabledRows(v.rows, cfg.gateway), e.order, v.changed)} else {}
  {
  }

  lemma Responses(cfg: Config, v: Server, k: Core, e: AgentEvent)
    requires ServerOk(v) && NextCore(cfg, v, k, e).Some?
    requires VersionsOk(cfg.gateway, v, k) && ResponsesOk(cfg.gateway, v, k)
    ensures ResponsesOk(cfg.gateway, v, NextCore(cfg, v, k, e).value)
  {
    HeldStep(cfg, v, k, e);
    if e.ListRows? { ResponseFresh(cfg.gateway, v, k.phase.version, e.order); }
  }

  lemma Configs(cfg: Config, v: Server, k: Core, e: AgentEvent)
    requires ConfigOk(k) && NextCore(cfg, v, k, e).Some?
    ensures ConfigOk(NextCore(cfg, v, k, e).value)
  {
  }

  lemma Versions(cfg: Config, v: Server, k: Core, e: AgentEvent)
    requires VersionsOk(cfg.gateway, v, k) && NextCore(cfg, v, k, e).Some?
    ensures VersionsOk(cfg.gateway, v, NextCore(cfg, v, k, e).value)
  {
  }

  lemma Applied(cfg: Config, v: Server, k: Core, e: AgentEvent)
    requires AppliedOk(k) && NextCore(cfg, v, k, e).Some?
    ensures AppliedOk(NextCore(cfg, v, k, e).value)
  {
  }

  lemma WakeupReturn(cfg: Config, v: Server, k: Core, w: Wake, e: AgentEvent)
    requires ConfigOk(k) && WakeupOk(k, w) && NextCore(cfg, v, k, e).Some?
    requires Returns(k, NextCore(cfg, v, k, e).value, e)
    ensures var next := NextCore(cfg, v, k, e).value; WakeupOk(next, NextWake(cfg.gateway, v, k, next, w, e))
  {
  }

  lemma WakeupBegin(cfg: Config, v: Server, k: Core, w: Wake, owner: Owner)
    requires ConfigOk(k) && WakeupOk(k, w) && NextCore(cfg, v, k, Begin(owner)).Some?
    requires owner == Startup ==> w.loop == Starting
    ensures var next := NextCore(cfg, v, k, Begin(owner)).value;
      WakeupOk(next, NextWake(cfg.gateway, v, k, next, w, Begin(owner)))
  {
  }

  /** The events that move the slot, the loop or the heartbeat while `SyncOnce` stands still. */
  predicate MovesWake(e: AgentEvent) { e.Beat? || e.BeatReply? || e.BeatFails? || e.LoopTick? || e.LoopTake? }

  lemma WakeupMoves(cfg: Config, v: Server, a: Agent, e: AgentEvent)
    requires WakeupOk(a.core, a.wake) && NextAgent(cfg, v, a, e).Some? && MovesWake(e)
    ensures WakeupOk(a.core, NextWake(cfg.gateway, v, a.core, a.core, a.wake, e))
    ensures NextAgent(cfg, v, a, e).value.core == a.core
  {
  }

  /** Steps of `SyncOnce` that do not end it, and the agent's own life. */
  lemma WakeupElse(cfg: Config, v: Server, k: Core, w: Wake, e: AgentEvent)
    requires ConfigOk(k) && WakeupOk(k, w) && NextCore(cfg, v, k, e).Some?
    requires !e.Begin? && !MovesWake(e) && !Returns(k, NextCore(cfg, v, k, e).value, e)
    ensures var next := NextCore(cfg, v, k, e).value; WakeupOk(next, NextWake(cfg.gateway, v, k, next, w, e))
  {
  }

  lemma Wakeups(cfg: Config, v: Server, a: Agent, e: AgentEvent)
    requires ConfigOk(a.core) && WakeupOk(a.core, a.wake) && NextAgent(cfg, v, a, e).Some?
    ensures var b := NextAgent(cfg, v, a, e).value; WakeupOk(b.core, b.wake)
  {
    if Returns(a.core, NextCore(cfg, v, a.core, e).value, e) {
      WakeupReturn(cfg, v, a.core, a.wake, e);
    } else if e.Begin? {
      WakeupBegin(cfg, v, a.core, a.wake, e.owner);
    } else if MovesWake(e) {
      WakeupMoves(cfg, v, a, e);
    } else {
      WakeupElse(cfg, v, a.core, a.wake, e);
    }
  }

  /** What a successful `SyncOnce` hands to a publish call holds the call's tunnel: on the fast
      path because the found frpc was started from a version that covers it too. */
  lemma OutcomeHolds(cfg: Config, v: Server, k: Core, calls: map<CallId, PublishCall>, e: AgentEvent)
    requires CoreOk(cfg.gateway, v, k) && CallsOk(cfg.gateway, v, calls) && OwnerOk(v, k, calls)
    requires NextCore(cfg, v, k, e).Some? && Returns(k, NextCore(cfg, v, k, e).value, e)
    requires Outcome(k, e).Some? && k.phase.owner.Call?
    ensures k.phase.owner.c in calls
    ensures var id := calls[k.phase.owner.c].id;
      id in v.born && Holds(Outcome(k, e).value, id, v.born[id].row)
  {
    var id := calls[k.phase.owner.c].id;
    assert CallOk(cfg.gateway, v, calls[k.phase.owner.c]);
    var p := Outcome(k, e).value;
    assert p in Held(k) && v.born[id].version <= p.version;
    assert Covers(cfg.gateway, v.born[id], p.version);
  }

  lemma Calls(cfg: Config, v: Server, k: Core, calls: map<CallId, PublishCall>, e: AgentEvent)
    requires CoreOk(cfg.gateway, v, k) && CallsOk(cfg.gateway, v, calls) && OwnerOk(v, k, calls)
    requires NextCore(cfg, v, k, e).Some?
    requires e.CreationReturned? ==>
               e.id in v.born && v.born[e.id].row.gateway == cfg.gateway && v.born[e.id].row.enabled
    ensures CallsOk(cfg.gateway, v, NextCalls(k, NextCore(cfg, v, k, e).value, calls, e))
  {
    var next := NextCore(cfg, v, k, e).value;
    var after := NextCalls(k, next, calls, e);
    if Returns(k, next, e) && Outcome(k, e).Some? && k.phase.owner.Call? { OutcomeHolds(cfg, v, k, calls, e); }
    forall c | c in after ensures CallOk(cfg.gateway, v, after[c]) {
      if c in calls { assert CallOk(cfg.gateway, v, calls[c]); }
    }
  }

  lemma Owners(cfg: Config, v: Server, k: Core, calls: map<CallId, PublishCall>, e: AgentEvent)
    requires NextCore(cfg, v, k, e).Some? && ConfigOk(k) && OwnerOk(v, k, calls)
    requires e.Begin? && e.owner.Call? ==> e.owner.c in calls
    requires e.CreationReturned? ==> e.c !in calls
    requires forall c :: c in calls ==>
               calls[c].id in v.born && v.born[calls[c].id].version <= Version(v, cfg.gateway)
    ensures var next := NextCore(cfg, v, k, e).value; OwnerOk(v, next, NextCalls(k, next, calls, e))
  {
    var next := NextCore(cfg, v, k, e).value;
    if !next.phase.Idle? && next.phase.owner.Call? {
      var c := next.phase.owner.c;
      if e.Begin? {
        assert NextCalls(k, next, calls, e)[c].id == calls[c].id;
      } else {
        assert !k.phase.Idle? && k.phase.owner == next.phase.owner;
        assert NextCalls(k, next, calls, e)[c] == calls[c];
      }
    }
  }

  lemma CoreStep(cfg: Config, v: Server, k: Core, e: AgentEvent)
    requires ServerOk(v) && CoreOk(cfg.gateway, v, k) && NextCore(cfg, v, k, e).Some?
    ensures CoreOk(cfg.gateway, v, NextCore(cfg, v, k, e).value)
  {
    Configs(cfg, v, k, e);
    Versions(cfg, v, k, e);
    Applied(cfg, v, k, e);
    Responses(cfg, v, k, e);
  }

  lemma CallVersions(g: Gateway, v: Server, calls: map<CallId, PublishCall>)
    requires ServerOk(v) && CallsOk(g, v, calls)
    ensures forall c :: c in calls ==> calls[c].id in v.born && v.born[calls[c].id].version <= Version(v, g)
  {
    forall c | c in calls ensures calls[c].id in v.born && v.born[calls[c].id].version <= Version(v, g) {
      assert CallOk(g, v, calls[c]);
      assert BirthOk(v, calls[c].id);
    }
  }

  lemma AgentStep(cfg: Config, v: Server, a: Agent, e: AgentEvent)
    requires ServerOk(v) && AgentOk(cfg.gateway, v, a) && NextAgent(cfg, v, a, e).Some?
    ensures AgentOk(cfg.gateway, v, NextAgent(cfg, v, a, e).value)
  {
    CoreStep(cfg, v, a.core, e);
    Wakeups(cfg, v, a, e);
    Calls(cfg, v, a.core, a.calls, e);
    CallVersions(cfg.gateway, v, a.calls);
    Owners(cfg, v, a.core, a.calls, e);
  }

  lemma Step(cfg: Config, s: State, e: Event)
    requires Inv(cfg.gateway, s) && Next(cfg, s, e).Some?
    ensures Inv(cfg.gateway, Next(cfg, s, e).value)
  {
    match e
    case OnServer(se) =>
      ServerStep(s.server, se);
      AgentUnderServerStep(cfg.gateway, s.server, se, s.agent);
    case OnAgent(ae) => AgentStep(cfg, s.server, s.agent, ae);
  }

  lemma {:induction false} RunKeeps(cfg: Config, s: State, es: seq<Event>)
    requires Inv(cfg.gateway, s) && Run(cfg, s, es).Some?
    ensures Inv(cfg.gateway, Run(cfg, s, es).value)
  {
    if es != [] {
      var front := es[..|es| - 1];
      RunKeeps(cfg, s, front);
      Step(cfg, Run(cfg, s, front).value, es[|es| - 1]);
    }
  }

  /** The invariant holds in every reachable state, after any interleaving and any faults. */
  lemma ReachableInv(cfg: Config, s: State)
    requires Reachable(cfg, s)
    ensures Inv(cfg.gateway, s)
  {
    var s0, es :| Init(s0) && Run(cfg, s0, es) == Some(s);
    RunKeeps(cfg, s0, es);
  }

}
