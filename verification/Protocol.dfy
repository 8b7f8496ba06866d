/** The config-version protocol between the server's database and one gateway's agent, as a
    machine whose steps are single SQL statements, single effects of the agent, and faults.

    The server runs any number of mutations at once.  Each changes its row in one statement
    and raises the version in a later one; nothing holds the two together.  A config pull reads
    the version in one statement and the rows in a later one.  A failed bump is a mutation that
    takes no further step. */
module Protocol {
  import opened Options
  import Seqs
  import opened Data

  type OpId = nat
  type CallId = nat

  /** A mutation in flight. */
  datatype Op =
    | Inserting(id: Id, row: Tunnel)            // checks passed, about to INSERT
    | Updating(id: Id, row: Tunnel)             // row read and patched, about to UPDATE
    | Deleting(id: Id, gateway: Gateway)        // row read, about to DELETE
    | Disabling(id: Id, gateway: Gateway)       // listed as expired, about to be disabled
    | Unbumped(gateway: Gateway, created: Option<(Id, Tunnel)>)  // row changed, version not yet raised

  /** A created tunnel as inserted, and the version its own bump produced. */
  datatype Birth = Birth(row: Tunnel, version: nat)

  /** `inserted`, `changed` and `born` are history: ids ever inserted, ids whose row an UPDATE,
      DELETE or disabling statement addressed, and completed creations. */
  datatype Server = Server(
    rows: Rows, versions: map<Gateway, nat>, ops: map<OpId, Op>,
    inserted: set<Id>, changed: set<Id>, born: map<Id, Birth>)

  /** A config response; `changed` is the server's history when the rows were read. */
  datatype Response = Response(version: nat, rows: Rows, order: seq<Id>, changed: set<Id>) {
    function Tunnels(): seq<ConfigTunnel> { Fetch(rows, order) }
  }

  /** On whose behalf a `SyncOnce` runs: `main` before its loops, `Run`, or a publish call. */
  datatype Owner = Startup | Loop | Call(c: CallId)

  /** Where `SyncOnce` stands; `Idle` means the lock is free. */
  datatype Phase =
    | Idle
    | Begun(owner: Owner)
    | HaveVersion(owner: Owner, version: nat)
    | Pulled(owner: Owner, resp: Response)
    | Rendered(owner: Owner, resp: Response)
    | Installed(owner: Owner, resp: Response)
    | Stopped(owner: Owner, resp: Response)
    | Started(owner: Owner, resp: Response)
    | Recorded(owner: Owner, resp: Response)

  /** `Starting` lasts from the agent's start to the end of the sync `main` runs before its loops. */
  datatype LoopState = Starting | Waiting | TookTick | TookToken | InSync

  /** Content of the state file or of its temporary sibling. */
  datatype StateFile = Missing | Torn | Whole(version: nat)

  /** A local publish call: created on the server, syncing, and its result. */
  datatype PublishCall =
    | Created(id: Id)
    | Syncing(id: Id)
    | Ok(id: Id, process: Response)     // the response whose config the found or started frpc read
    | PendingSync(id: Id)

  /** What `SyncOnce` works on: `version` is the in-memory config version, `disk` the state file,
      `file` the response `frpc.toml` was rendered from, `proc` the one the running managed frpc
      started with, `snapshot` the one the health checks use.  `applied` is history. */
  datatype Core = Core(
    up: bool, phase: Phase, version: nat, temp: StateFile, disk: StateFile,
    file: Option<Response>, proc: Option<Response>, snapshot: Option<Response>, applied: set<nat>)

  /** The trigger slot, `Run`, and the heartbeat in flight; the last three fields are history. */
  datatype Wake = Wake(
    token: bool, loop: LoopState, beat: Option<nat>, clock: nat, lastTrigger: nat, lastBegin: nat)

  datatype Agent = Agent(core: Core, wake: Wake, calls: map<CallId, PublishCall>)

  datatype State = State(server: Server, agent: Agent)

  /** The server's frp settings, fixed: changing them raises no version. */
  datatype Config = Config(gateway: Gateway, serverAddr: string, serverPort: int, authToken: string)

  predicate Renderable(cfg: Config) { cfg.serverAddr != "" && 1 <= cfg.serverPort <= 65535 }

  /** `GetConfigVersion`: a missing row reads as 0. */
  function Version(v: Server, g: Gateway): nat {
    if g in v.versions then v.versions[g] else 0
  }

  // Server steps.

  datatype ServerEvent =
    | BeginCreate(op: OpId, id: Id, row: Tunnel)
    | Insert(op: OpId)
    | ReadForUpdate(op: OpId, id: Id, patched: Tunnel)
    | Update(op: OpId)
    | ReadForDelete(op: OpId, id: Id)
    | Delete(op: OpId)
    | ListExpired(op: OpId, id: Id)
    | Disable(op: OpId)
    | Abort(op: OpId)
    | Bump(op: OpId)
    | EnsureVersion(gateway: Gateway)

  /** The UPDATE statement sets five columns and leaves the others of the current row. */
  function Overwrite(row: Tunnel, from: Tunnel): Tunnel {
    row.(targetHost := from.targetHost, targetPort := from.targetPort, domain := from.domain,
         remotePort := from.remotePort, enabled := from.enabled)
  }

  function NextServer(v: Server, e: ServerEvent): Option<Server> {
    match e
    case BeginCreate(op, id, row) =>
      if op in v.ops || id in v.inserted
         || (exists o :: o in v.ops && v.ops[o].Inserting? && v.ops[o].id == id) then None
      else Some(v.(ops := v.ops[op := Inserting(id, row)]))
    case Insert(op) =>
      if op !in v.ops || !v.ops[op].Inserting? then None
      else
        var o := v.ops[op];
        Some(v.(rows := v.rows[o.id := o.row], inserted := v.inserted + {o.id},
                ops := v.ops[op := Unbumped(o.row.gateway, Some((o.id, o.row)))]))
    case ReadForUpdate(op, id, patched) =>
      if op in v.ops || id !in v.rows then None
      else Some(v.(ops := v.ops[op := Updating(id, Overwrite(v.rows[id], patched))]))
    case Update(op) =>
      if op !in v.ops || !v.ops[op].Updating? then None
      else
        var o := v.ops[op];
        Some(v.(rows := if o.id in v.rows then v.rows[o.id := Overwrite(v.rows[o.id], o.row)] else v.rows,
                changed := v.changed + {o.id}, ops := v.ops[op := Unbumped(o.row.gateway, None)]))
    case ReadForDelete(op, id) =>
      if op in v.ops || id !in v.rows then None
      else Some(v.(ops := v.ops[op := Deleting(id, v.rows[id].gateway)]))
    case Delete(op) =>
      if op !in v.ops || !v.ops[op].Deleting? then None
      else
        var o := v.ops[op];
        Some(v.(rows := v.rows - {o.id}, changed := v.changed + {o.id},
                ops := v.ops[op := Unbumped(o.gateway, None)]))
    case ListExpired(op, id) =>
      if op in v.ops || id !in v.rows then None
      else Some(v.(ops := v.ops[op := Disabling(id, v.rows[id].gateway)]))
    case Disable(op) =>
      if op !in v.ops || !v.ops[op].Disabling? then None
      else
        var o := v.ops[op];
        Some(v.(rows := if o.id in v.rows then v.rows[o.id := v.rows[o.id].(enabled := false)] else v.rows,
                changed := v.changed + {o.id}, ops := v.ops[op := Unbumped(o.gateway, None)]))
    case Abort(op) =>
      if op !in v.ops || v.ops[op].Unbumped? then None else Some(v.(ops := v.ops - {op}))
    case Bump(op) =>
      if op !in v.ops || !v.ops[op].Unbumped? then None
      else
        var o := v.ops[op];
        var n := Version(v, o.gateway) + 1;
        Some(v.(versions := v.versions[o.gateway := n], ops := v.ops - {op},
                born := if o.created.Some? then v.born[o.created.value.0 := Birth(o.created.value.1, n)] else v.born))
    case EnsureVersion(g) =>
      Some(if g in v.versions then v else v.(versions := v.versions[g := 1]))
  }

  /** Several server steps in a row. */
  function ServerRun(v: Server, es: seq<ServerEvent>): Option<Server>
    decreases |es|
  {
    if es == [] then Some(v)
    else match NextServer(v, es[0])
      case None => None
      case Some(w) => ServerRun(w, es[1..])
  }

  // Agent steps.

  datatype AgentEvent =
    | Start | Crash | FrpcExit
    | Begin(owner: Owner)
    | ReadVersion
    | ListRows(order: seq<Id>)
    | PullFails
    | Receive
    | WriteFails
    | Install
    | StopProcess
    | StartFails
    | StartProcess
    | SetVersion
    | WriteTemp(whole: bool)
    | RenameState
    | SaveFails
    | Beat | BeatReply | BeatFails
    | LoopTick | LoopTake
    | CreationReturned(c: CallId, id: Id)

  /** `SyncOnce` step by step, the frpc process, and the agent's own life. */
  function NextCore(cfg: Config, v: Server, k: Core, e: AgentEvent): Option<Core> {
    match e
    case Start =>
      if k.up || k.disk.Torn? then None
      else Some(k.(up := true, phase := Idle, version := if k.disk.Whole? then k.disk.version else 0,
                   proc := None, snapshot := None))
    case Crash => if !k.up then None else Some(k.(up := false, phase := Idle, proc := None))
    case FrpcExit => Some(k.(proc := None))
    case Begin(owner) => if !k.up || !k.phase.Idle? then None else Some(k.(phase := Begun(owner)))
    case ReadVersion =>
      if !k.phase.Begun? then None
      else Some(k.(phase := HaveVersion(k.phase.owner, Version(v, cfg.gateway))))
    case ListRows(order) =>
      var rows := EnabledRows(v.rows, cfg.gateway);
      if !k.phase.HaveVersion? || !Lists(order, rows) then None
      else Some(k.(phase := Pulled(k.phase.owner, Response(k.phase.version, rows, order, v.changed))))
    case PullFails =>
      if !(k.phase.Begun? || k.phase.HaveVersion? || k.phase.Pulled?) then None
      else Some(k.(phase := Idle))
    case Receive =>
      if !k.phase.Pulled? then None
      else Some(k.(snapshot := Some(k.phase.resp),
                   phase := if FastPath(k) || !Renderable(cfg) then Idle else Rendered(k.phase.owner, k.phase.resp)))
    case WriteFails => if !k.phase.Rendered? then None else Some(k.(phase := Idle))
    case Install =>
      if !k.phase.Rendered? then None
      else Some(k.(file := Some(k.phase.resp), phase := Installed(k.phase.owner, k.phase.resp)))
    case StopProcess =>
      if !k.phase.Installed? then None
      else Some(k.(proc := None, phase := Stopped(k.phase.owner, k.phase.resp)))
    case StartFails => if !k.phase.Stopped? then None else Some(k.(phase := Idle))
    case StartProcess =>
      if !k.phase.Stopped? then None
      else Some(k.(proc := k.file, phase := Started(k.phase.owner, k.phase.resp),
                   applied := k.applied + {k.phase.resp.version}))
    case SetVersion =>
      if !k.phase.Started? then None
      else Some(k.(version := k.phase.resp.version, phase := Recorded(k.phase.owner, k.phase.resp)))
    case WriteTemp(whole) =>
      if !k.phase.Recorded? then None else Some(k.(temp := if whole then Whole(k.version) else Torn))
    case RenameState =>
      if !k.phase.Recorded? || k.temp != Whole(k.version) then None
      else Some(k.(disk := k.temp, temp := Missing, phase := Idle))
    case SaveFails => if !k.phase.Recorded? then None else Some(k.(phase := Idle))
    case _ => if k.up then Some(k) else None
  }

  /** Same version as recorded, and frpc runs: nothing to do. */
  predicate FastPath(k: Core)
    requires k.phase.Pulled?
  {
    k.phase.resp.version == k.version && k.proc.Some?
  }

  /** `SyncOnce` returned. */
  predicate Returns(k: Core, next: Core, e: AgentEvent) {
    !k.phase.Idle? && next.phase.Idle? && !e.Crash?
  }

  /** On success, the response whose config the frpc found running or just started has read. */
  function Outcome(k: Core, e: AgentEvent): Option<Response> {
    if e.Receive? && k.phase.Pulled? && FastPath(k) then k.proc
    else if (e.RenameState? || e.SaveFails?) && k.phase.Recorded? then Some(k.phase.resp)
    else None
  }

  /** `Trigger`: fills the one-place slot, or finds it full. */
  function Trigger(w: Wake): Wake { w.(token := true, lastTrigger := w.clock) }

  function NextWake(g: Gateway, v: Server, k: Core, next: Core, w0: Wake, e: AgentEvent): Wake {
    var w := w0.(clock := w0.clock + 1);
    if Returns(k, next, e) then (if k.phase.owner.Call? then w else w.(loop := Waiting))
    else
      match e
      case Start => w.(token := false, loop := Starting, beat := None, lastTrigger := 0)
      case Begin(owner) =>
        w.(lastBegin := w.clock, loop := if owner == Loop then InSync else w.loop)
      case Beat => w.(beat := Some(k.version))
      case BeatReply =>
        if w.beat.Some? && NeedSync(v, g, w.beat.value) then Trigger(w.(beat := None)) else w.(beat := None)
      case BeatFails => w.(beat := None)
      case LoopTick => w.(loop := TookTick)
      case LoopTake => w.(token := false, loop := TookToken)
      case _ => w
  }

  function NextCalls(k: Core, next: Core, calls: map<CallId, PublishCall>, e: AgentEvent): map<CallId, PublishCall> {
    if Returns(k, next, e) then
      if k.phase.owner.Call? && k.phase.owner.c in calls then
        var id := calls[k.phase.owner.c].id;
        calls[k.phase.owner.c := if Outcome(k, e).Some? then Ok(id, Outcome(k, e).value) else PendingSync(id)]
      else calls
    else
      match e
      case Start => map[]
      case Begin(owner) =>
        if owner.Call? && owner.c in calls then calls[owner.c := Syncing(calls[owner.c].id)] else calls
      case CreationReturned(c, id) => calls[c := Created(id)]
      case _ => calls
  }

  /** The conditions that do not concern `SyncOnce` itself. */
  predicate Allowed(cfg: Config, v: Server, a: Agent, e: AgentEvent) {
    match e
    case Begin(owner) =>
      (match owner
       case Startup => a.wake.loop.Starting?
       case Loop => a.wake.loop in {TookTick, TookToken}
       case Call(c) => c in a.calls && a.calls[c].Created?)
    case Beat => a.wake.beat.None? && !a.wake.loop.Starting?
    case BeatReply => a.wake.beat.Some?
    case BeatFails => a.wake.beat.Some?
    case LoopTick => a.wake.loop.Waiting?
    case LoopTake => a.wake.loop.Waiting? && a.wake.token
    case CreationReturned(c, id) =>
      && !a.wake.loop.Starting? && c !in a.calls && id in v.born
      && v.born[id].row.gateway == cfg.gateway && v.born[id].row.enabled
    case _ => true
  }

  function NextAgent(cfg: Config, v: Server, a: Agent, e: AgentEvent): Option<Agent> {
    match NextCore(cfg, v, a.core, e)
    case None => None
    case Some(k) =>
      if !Allowed(cfg, v, a, e) then None
      else Some(Agent(k, NextWake(cfg.gateway, v, a.core, k, a.wake, e), NextCalls(a.core, k, a.calls, e)))
  }

  /** `need_sync` of a heartbeat that reported `reported`. */
  predicate NeedSync(v: Server, g: Gateway, reported: nat) { Version(v, g) != reported }

  // Runs.

  datatype Event = OnServer(se: ServerEvent) | OnAgent(ae: AgentEvent)

  function Next(cfg: Config, s: State, e: Event): Option<State> {
    match e
    case OnServer(se) =>
      (match NextServer(s.server, se)
       case None => None
       case Some(v) => Some(s.(server := v)))
    case OnAgent(ae) =>
      (match NextAgent(cfg, s.server, s.agent, ae)
       case None => None
       case Some(a) => Some(s.(agent := a)))
  }

  /** A registered agent on a fresh install, not yet started, and an empty database. */
  predicate Init(s: State) {
    && s.server == Server(map[], map[], map[], {}, {}, map[])
    && s.agent == Agent(Core(false, Idle, 0, Missing, Whole(0), None, None, None, {}),
                        Wake(false, Starting, None, 0, 0, 0), map[])
  }

  /** The state after a run, if every step of it is possible. */
  function Run(cfg: Config, s: State, es: seq<Event>): Option<State> {
    if es == [] then Some(s)
    else match Run(cfg, s, es[..|es| - 1])
      case None => None
      case Some(t) => Next(cfg, t, es[|es| - 1])
  }

  ghost predicate Reachable(cfg: Config, s: State) {
    exists s0, es :: Init(s0) && Run(cfg, s0, es) == Some(s)
  }
}
