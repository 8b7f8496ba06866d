/** Reachable states that mark where the protocol's promises end, and what brings the system back. */
module ProtocolLimits {
  import opened Options
  import opened Data
  import opened Protocol
  import opened ProtocolInvariant
  import opened ProtocolTheorems

  lemma Go(cfg: Config, s: State, e: Event) returns (t: State)
    requires Reachable(cfg, s) && Next(cfg, s, e).Some?
    ensures Next(cfg, s, e) == Some(t) && Reachable(cfg, t)
  {
    t := Next(cfg, s, e).value;
    Run1(cfg, s, e);
    ReachableRun(cfg, s, [e]);
  }

  // A pending tunnel that no heartbeat will ask for.

  /** The publish call is answered "pending_sync", its tunnel is enabled and fully created, nothing is
      pending on the server, and yet frpc is down and no heartbeat, sent or in flight, asks for a sync. */
  predicate PendingUnserved(cfg: Config, s: State, c: CallId, id: Id) {
    && c in s.agent.calls && s.agent.calls[c] == PendingSync(id)
    && id in s.server.born && id in EnabledRows(s.server.rows, cfg.gateway) && Quiet(s.server, cfg.gateway)
    && s.agent.core.up && s.agent.core.phase.Idle? && s.agent.core.proc.None?
    && !NeedSync(s.server, cfg.gateway, s.agent.core.version) && BeatCurrent(s)
  }

  lemma CallBegins(cfg: Config, s: State, c: CallId) returns (t: State)
    requires Reachable(cfg, s) && s.agent.core.up && s.agent.core.phase.Idle?
    requires c in s.agent.calls && s.agent.calls[c].Created?
    ensures Next(cfg, s, OnAgent(Begin(Call(c)))) == Some(t) && Reachable(cfg, t) && t.server == s.server
    ensures t.agent.core == s.agent.core.(phase := Begun(Call(c)))
    ensures c in t.agent.calls && t.agent.calls[c] == Syncing(s.agent.calls[c].id)
    ensures t.agent.wake.beat == s.agent.wake.beat
  {
    t := Go(cfg, s, OnAgent(Begin(Call(c))));
  }

  lemma CallAfterExit(cfg: Config, s: State, c: CallId) returns (t: State)
    requires Reachable(cfg, s) && Settled(cfg, s) && s.agent.core.phase.Idle? && BeatCurrent(s)
    requires c in s.agent.calls && s.agent.calls[c].Created?
    ensures Run(cfg, s, [OnAgent(FrpcExit), OnAgent(Begin(Call(c)))]) == Some(t)
    ensures Reachable(cfg, t) && t.server == s.server
    ensures t.agent.core == s.agent.core.(proc := None, phase := Begun(Call(c)))
    ensures c in t.agent.calls && t.agent.calls[c] == Syncing(s.agent.calls[c].id)
    ensures s.agent.calls[c].id in t.server.born && t.agent.wake.beat == s.agent.wake.beat
  {
    ReachableInv(cfg, s);
    assert CallOk(cfg.gateway, s.server, s.agent.calls[c]);
    var s1 := Go(cfg, s, OnAgent(FrpcExit));
    t := CallBegins(cfg, s1, c);
    Run2(cfg, s, OnAgent(FrpcExit), OnAgent(Begin(Call(c))));
  }

  lemma CallPullFails(cfg: Config, s: State, c: CallId) returns (t: State)
    requires Reachable(cfg, s) && s.agent.core.up && s.agent.core.phase == Begun(Call(c))
    requires c in s.agent.calls && s.agent.calls[c].Syncing?
    ensures Run(cfg, s, [OnAgent(PullFails)]) == Some(t)
    ensures Reachable(cfg, t) && t.server == s.server && t.agent.core == s.agent.core.(phase := Idle)
    ensures c in t.agent.calls && t.agent.calls[c] == PendingSync(s.agent.calls[c].id)
    ensures t.agent.wake.beat == s.agent.wake.beat
  {
    t := Go(cfg, s, OnAgent(PullFails));
    Run1(cfg, s, OnAgent(PullFails));
  }

  /** How it comes about: the loop's sync has already applied the version that covers the tunnel when
      frpc exits and the pull of the call's own sync fails. */
  lemma PendingLost(cfg: Config, s: State, c: CallId) returns (t: State)
    requires Reachable(cfg, s) && Settled(cfg, s) && s.agent.core.phase.Idle? && BeatCurrent(s)
    requires c in s.agent.calls && s.agent.calls[c].Created?
    requires s.agent.calls[c].id in EnabledRows(s.server.rows, cfg.gateway)
    ensures Run(cfg, s, [OnAgent(FrpcExit), OnAgent(Begin(Call(c)))] + [OnAgent(PullFails)]) == Some(t)
    ensures Reachable(cfg, t) && t.server == s.server && PendingUnserved(cfg, t, c, s.agent.calls[c].id)
  {
    var s2 := CallAfterExit(cfg, s, c);
    t := CallPullFails(cfg, s2, c);
    RunAppend(cfg, s, [OnAgent(FrpcExit), OnAgent(Begin(Call(c)))], [OnAgent(PullFails)]);
  }

  lemma FreshInstall() returns (s: State)
    ensures Init(s) && forall cfg :: Reachable(cfg, s)
  {
    s := State(Server(map[], map[], map[], {}, {}, map[]),
               Agent(Core(false, Idle, 0, Missing, Whole(0), None, None, None, {}),
                     Wake(false, Starting, None, 0, 0, 0), map[]));
    forall cfg ensures Reachable(cfg, s) { assert Run(cfg, s, []) == Some(s); }
  }

  /** A tunnel is created and its version raised. */
  lemma TunnelCreated(cfg: Config, s: State, op: OpId, id: Id, row: Tunnel) returns (t: State)
    requires Reachable(cfg, s) && Init(s)
    ensures Reachable(cfg, t) && t.agent == s.agent && t.server.ops == map[]
    ensures t.server.rows == map[id := row] && id in t.server.born && t.server.born[id].row == row
  {
    var s1 := Go(cfg, s, OnServer(BeginCreate(op, id, row)));
    var s2 := Go(cfg, s1, OnServer(Insert(op)));
    t := Go(cfg, s2, OnServer(Bump(op)));
  }

  /** The agent starts, and its first pull fails. */
  lemma StartedIdle(cfg: Config, s: State) returns (t: State)
    requires Reachable(cfg, s) && !s.agent.core.up && s.agent.core.disk.Whole?
    ensures Reachable(cfg, t) && t.server == s.server
    ensures t.agent.core.up && t.agent.core.phase.Idle? && t.agent.wake.loop == Waiting && t.agent.wake.beat == None
    ensures t.agent.calls == map[]
  {
    ReachableInv(cfg, s);
    var s1 := Go(cfg, s, OnAgent(Start));
    var s2 := Go(cfg, s1, OnAgent(Begin(Startup)));
    t := Go(cfg, s2, OnAgent(PullFails));
  }

  /** The state is reachable from a fresh install, for every enabled tunnel of the gateway. */
  lemma PendingUnservedReachable(cfg: Config, op: OpId, id: Id, row: Tunnel, c: CallId) returns (s: State)
    requires Renderable(cfg) && row.gateway == cfg.gateway && row.enabled
    ensures Reachable(cfg, s) && s.server.ops == map[] && PendingUnserved(cfg, s, c, id)
    ensures s.server.born[id].row == row && !Serves(s.agent.core, id, row)
  {
    var s0 := FreshInstall();
    var s1 := TunnelCreated(cfg, s0, op, id, row);
    var s2 := StartedIdle(cfg, s1);
    var s3 := Go(cfg, s2, OnAgent(CreationReturned(c, id)));
    var rest := OneSyncSettles(cfg, s3);
    ReachableRun(cfg, s3, Enter(s3) + rest);
    var s4 := Run(cfg, s3, Enter(s3) + rest).value;
    s := PendingLost(cfg, s4, c);
  }

  /** Nothing touches the gateway, no sync begins, and the agent goes on: what heartbeats alone do. */
  predicate NoSync(cfg: Config, s: State, es: seq<Event>) {
    es != [] ==>
      var front := es[..|es| - 1];
      && NoSync(cfg, s, front) && Run(cfg, s, front).Some?
      && match es[|es| - 1]
         case OnServer(se) => !Touches(Run(cfg, s, front).value.server, se, cfg.gateway)
         case OnAgent(ae) => !ae.Begin? && !ae.Crash? && !ae.Start?
  }

  lemma DownStep(cfg: Config, v: Server, a: Agent, e: AgentEvent)
    requires NextAgent(cfg, v, a, e).Some? && !e.Begin? && !e.Crash? && !e.Start?
    requires a.core.up && a.core.phase.Idle? && a.core.proc.None? && a.core.version == Version(v, cfg.gateway)
    requires a.wake.beat.Some? ==> a.wake.beat.value == a.core.version
    ensures var b := NextAgent(cfg, v, a, e).value;
      && b.core.up && b.core.phase.Idle? && b.core.proc.None? && b.core.version == a.core.version
      && (b.wake.beat.Some? ==> b.wake.beat.value == b.core.version)
      && b.wake.lastTrigger == a.wake.lastTrigger
  {
    QuietBeat(cfg, v, a.core, NextCore(cfg, v, a.core, e).value, a.wake, e);
  }

  /** However many heartbeats pass, frpc stays down and none of them triggers a sync. */
  lemma {:induction false} HeartbeatsDoNotHelp(cfg: Config, s: State, es: seq<Event>)
    requires Inv(cfg.gateway, s) && s.agent.core.up && s.agent.core.phase.Idle? && s.agent.core.proc.None?
    requires !NeedSync(s.server, cfg.gateway, s.agent.core.version) && BeatCurrent(s)
    requires NoSync(cfg, s, es) && Run(cfg, s, es).Some?
    ensures var t := Run(cfg, s, es).value;
      && t.agent.core.up && t.agent.core.phase.Idle? && t.agent.core.proc.None? && BeatCurrent(t)
      && !NeedSync(t.server, cfg.gateway, t.agent.core.version)
      && t.agent.wake.lastTrigger == s.agent.wake.lastTrigger
  {
    if es != [] {
      var front := es[..|es| - 1];
      HeartbeatsDoNotHelp(cfg, s, front);
      RunKeeps(cfg, s, front);
      var u := Run(cfg, s, front).value;
      match es[|es| - 1]
      case OnServer(se) => CalmVersion(u.server, se, cfg.gateway);
      case OnAgent(ae) => DownStep(cfg, u.server, u.agent, ae);
    }
  }

  /** The loop's own next sync does: after it the pending tunnel is served. */
  lemma TickServesPending(cfg: Config, s: State, c: CallId) returns (rest: seq<Event>)
    requires Reachable(cfg, s) && Renderable(cfg)
    requires Quiet(s.server, cfg.gateway) && s.agent.core.up && s.agent.core.phase.Idle?
    requires c in s.agent.calls && s.agent.calls[c].PendingSync?
    ensures |Enter(s) + rest| <= 11 && Run(cfg, s, Enter(s) + rest).Some?
    ensures var t, id := Run(cfg, s, Enter(s) + rest).value, s.agent.calls[c].id;
      id in t.server.born && Serves(t.agent.core, id, t.server.born[id].row)
  {
    rest := OneSyncSettles(cfg, s);
    ReachableRun(cfg, s, Enter(s) + rest);
    PendingIsReconciled(cfg, Run(cfg, s, Enter(s) + rest).value, c);
  }

  // One version, two lists.

  lemma TickBegins(cfg: Config, s: State) returns (t: State)
    requires Reachable(cfg, s) && s.agent.core.up && s.agent.core.phase.Idle? && s.agent.wake.loop == Waiting
    ensures Reachable(cfg, t) && t.server == s.server && t.agent.core == s.agent.core.(phase := Begun(Loop))
  {
    var s1 := Go(cfg, s, OnAgent(LoopTick));
    t := Go(cfg, s1, OnAgent(Begin(Loop)));
  }

  /** The loop's tick begins a pull, which reads both the version and the rows. */
  lemma PullOnTick(cfg: Config, s: State, order: seq<Id>) returns (t: State)
    requires Reachable(cfg, s) && s.agent.core.up && s.agent.core.phase.Idle? && s.agent.wake.loop == Waiting
    requires Lists(order, EnabledRows(s.server.rows, cfg.gateway))
    ensures Reachable(cfg, t) && t.server == s.server && t.agent.core.up
    ensures var rows := EnabledRows(s.server.rows, cfg.gateway);
      t.agent.core.phase == Pulled(Loop, Response(Version(s.server, cfg.gateway), rows, order, s.server.changed))
  {
    var s1 := TickBegins(cfg, s);
    var s2 := Go(cfg, s1, OnAgent(ReadVersion));
    t := Go(cfg, s2, OnAgent(ListRows(order)));
  }

  /** The same version is served with two different lists: a pull before and a pull after a deletion
      whose bump has not come.  So a version does not determine its rows; what saves agreement is that
      the version is read first and the bump comes last. */
  lemma OneVersionTwoLists(cfg: Config, s: State, op: OpId, id: Id, order: seq<Id>) returns (a: State, b: State)
    requires Reachable(cfg, s) && s.agent.core.up && s.agent.core.phase.Idle? && s.agent.wake.loop == Waiting
    requires Lists(order, EnabledRows(s.server.rows, cfg.gateway))
    requires op !in s.server.ops && id in EnabledRows(s.server.rows, cfg.gateway)
    ensures Reachable(cfg, a) && Reachable(cfg, b) && a.agent.core.phase.Pulled? && b.agent.core.phase.Pulled?
    ensures a.agent.core.phase.resp.version == b.agent.core.phase.resp.version
    ensures id in a.agent.core.phase.resp.rows && id !in b.agent.core.phase.resp.rows
  {
    a := PullOnTick(cfg, s, order);
    var s1 := Go(cfg, a, OnAgent(PullFails));
    var s2 := Go(cfg, s1, OnServer(ReadForDelete(op, id)));
    var s3 := Go(cfg, s2, OnServer(Delete(op)));
    var order2 := ListRowsOf(EnabledRows(s3.server.rows, cfg.gateway));
    b := PullOnTick(cfg, s3, order2);
  }
}
