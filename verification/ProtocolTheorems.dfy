/** What the protocol guarantees, in every reachable state and along every run. */
module ProtocolTheorems {
  import opened Options
  import opened Data
  import opened Protocol
  import opened ProtocolInvariant
  import Seqs

  // Agreement.

  /** The lock is free, frpc runs, and the agent's version is the server's. */
  predicate LooksCurrent(cfg: Config, s: State) {
    && s.agent.core.phase.Idle? && s.agent.core.proc.Some?
    && s.agent.core.version == Version(s.server, cfg.gateway)
  }

  /** The configuration frpc runs is made of exactly the gateway's enabled rows. */
  predicate Agrees(cfg: Config, s: State)
    requires s.agent.core.proc.Some?
  {
    s.agent.core.proc.value.rows == EnabledRows(s.server.rows, cfg.gateway)
  }

  /** Unless a mutation of the gateway stands between its row change and its bump, matching
      versions mean matching configuration, after any interleaving and any faults. */
  lemma Agreement(cfg: Config, s: State)
    requires Reachable(cfg, s) && LooksCurrent(cfg, s) && Quiet(s.server, cfg.gateway)
    ensures Agrees(cfg, s)
    ensures Lists(s.agent.core.proc.value.order, EnabledRows(s.server.rows, cfg.gateway))
    ensures s.agent.core.file == s.agent.core.proc
  {
    ReachableInv(cfg, s);
    var p := s.agent.core.proc.value;
    assert p in Held(s.agent.core) && ResponseOk(cfg.gateway, s.server, p);
  }

  /** The condition cannot be dropped: a deletion whose bump has not come yet leaves everything
      looking current while frpc serves the deleted tunnel.
      `LostBumpStaysServed` says how long. */
  lemma PendingBreaksAgreement(cfg: Config, s: State, op: OpId, id: Id)
    requires Reachable(cfg, s) && LooksCurrent(cfg, s) && Agrees(cfg, s)
    requires op !in s.server.ops && id in EnabledRows(s.server.rows, cfg.gateway)
    ensures var es := [OnServer(ReadForDelete(op, id)), OnServer(Delete(op))];
      && Run(cfg, s, es).Some?
      && LooksCurrent(cfg, Run(cfg, s, es).value) && !Agrees(cfg, Run(cfg, s, es).value)
      && !Quiet(Run(cfg, s, es).value.server, cfg.gateway)
  {
    var e1, e2 := OnServer(ReadForDelete(op, id)), OnServer(Delete(op));
    Run2(cfg, s, e1, e2);
    var s1 := Next(cfg, s, e1).value;
    var s2 := Next(cfg, s1, e2).value;
    assert s2.server.ops[op].Unbumped?;
    assert id !in EnabledRows(s2.server.rows, cfg.gateway);
  }

  lemma Run2(cfg: Config, s: State, e1: Event, e2: Event)
    ensures Run(cfg, s, [e1, e2]) ==
            if Next(cfg, s, e1).None? then None else Next(cfg, Next(cfg, s, e1).value, e2)
  {
    assert Run(cfg, s, [e1]) == Next(cfg, s, e1) by { assert [e1][..0] == []; }
    assert [e1, e2][..1] == [e1];
  }

  // What publishing promises.

  /** Whenever a publish call has returned "ok", the configuration its frpc had read holds the
      created tunnel as created, unless a statement had addressed the row before it was listed. */
  lemma PublishOk(cfg: Config, s: State, c: CallId)
    requires Reachable(cfg, s) && c in s.agent.calls && s.agent.calls[c].Ok?
    ensures s.agent.calls[c].id in s.server.born
    ensures Holds(s.agent.calls[c].process, s.agent.calls[c].id, s.server.born[s.agent.calls[c].id].row)
  {
    ReachableInv(cfg, s);
    assert CallOk(cfg.gateway, s.server, s.agent.calls[c]);
  }

  /** At the step that returns success, frpc runs that configuration, or, on the reload path, has
      exited since it was started with it. */
  lemma SuccessMeansRunning(cfg: Config, s: State, e: AgentEvent)
    requires Reachable(cfg, s) && NextAgent(cfg, s.server, s.agent, e).Some?
    requires Outcome(s.agent.core, e).Some?
    ensures var k, p := s.agent.core, Outcome(s.agent.core, e);
      && k.file == p
      && (e.Receive? ==> k.proc == p)
      && (k.proc.Some? ==> k.proc == p)
      && p.value.version == k.version
  {
    ReachableInv(cfg, s);
  }

  /** At the step that answers a publish call, what frpc has read is a proper listing of enabled
      rows and holds the call's tunnel. */
  lemma ReachableOutcome(cfg: Config, s: State, e: AgentEvent)
    requires Reachable(cfg, s) && NextAgent(cfg, s.server, s.agent, e).Some?
    requires Returns(s.agent.core, NextAgent(cfg, s.server, s.agent, e).value.core, e)
    requires Outcome(s.agent.core, e).Some?
    requires s.agent.core.phase.owner.Call? && s.agent.core.phase.owner.c in s.agent.calls
    ensures var p, c := Outcome(s.agent.core, e).value, s.agent.core.phase.owner.c;
      var id := s.agent.calls[c].id;
      && Lists(p.order, p.rows)
      && (forall i :: i in p.rows ==> p.rows[i].enabled && p.rows[i].gateway == cfg.gateway)
      && id in s.server.born && Holds(p, id, s.server.born[id].row)
      && NextAgent(cfg, s.server, s.agent, e).value.calls[c] == Ok(id, p)
  {
    ReachableInv(cfg, s);
    OutcomeHolds(cfg, s.server, s.agent.core, s.agent.calls, e);
    assert Outcome(s.agent.core, e).value in Held(s.agent.core);
  }

  /** frpc runs a configuration that holds the row, unless a later statement addressed it. */
  predicate Serves(k: Core, id: Id, row: Tunnel) { k.proc.Some? && Holds(k.proc.value, id, row) }

  /** What becomes of "pending_sync".  Between syncs, once heartbeats ask for none, the created tunnel
      is served exactly when frpc runs: the versions that heartbeats compare say nothing about that. */
  lemma PendingIsReconciled(cfg: Config, s: State, c: CallId)
    requires Reachable(cfg, s) && c in s.agent.calls && s.agent.calls[c].PendingSync?
    requires !NeedSync(s.server, cfg.gateway, s.agent.core.version)
    requires BeforeInstall(s.agent.core.phase)
    ensures var id := s.agent.calls[c].id;
      && id in s.server.born
      && (Serves(s.agent.core, id, s.server.born[id].row) <==> s.agent.core.proc.Some?)
  {
    ReachableInv(cfg, s);
    var id := s.agent.calls[c].id;
    assert CallOk(cfg.gateway, s.server, s.agent.calls[c]) && BirthOk(s.server, id);
    if s.agent.core.proc.Some? {
      var p := s.agent.core.proc.value;
      assert p in Held(s.agent.core) && Covers(cfg.gateway, s.server.born[id], p.version);
    }
  }

  // Faults.

  /** Between syncs, whatever failed before: a running frpc was started from the response whose
      version is recorded in memory, and `frpc.toml` is still that response's. */
  lemma RunningIsRecorded(cfg: Config, s: State)
    requires Reachable(cfg, s) && BeforeInstall(s.agent.core.phase) && s.agent.core.proc.Some?
    ensures s.agent.core.proc.value.version == s.agent.core.version
    ensures s.agent.core.file == s.agent.core.proc
    ensures s.agent.core.version in s.agent.core.applied || s.agent.core.version == 0
  {
    ReachableInv(cfg, s);
  }

  // Wake-ups.

  /** After any trigger: the slot is full, or `Run` holds the token, or a sync has begun since. */
  lemma NoLostWakeup(cfg: Config, s: State)
    requires Reachable(cfg, s) && s.agent.core.up
    ensures var w := s.agent.wake; w.token || w.loop == TookToken || w.lastBegin >= w.lastTrigger
  {
    ReachableInv(cfg, s);
  }

  /** An unanswered trigger can be answered as soon as the lock is free. */
  lemma WakeupServed(cfg: Config, s: State) returns (es: seq<Event>)
    requires Reachable(cfg, s) && s.agent.core.up && s.agent.core.phase.Idle?
    requires s.agent.wake.lastTrigger > s.agent.wake.lastBegin
    ensures |es| <= 2 && Run(cfg, s, es).Some?
    ensures var t := Run(cfg, s, es).value;
      t.server == s.server && t.agent.core.phase == Begun(Loop) && t.agent.wake.lastBegin > s.agent.wake.lastTrigger
  {
    ReachableInv(cfg, s);
    var begin := OnAgent(Begin(Loop));
    if s.agent.wake.loop == Waiting {
      var take := OnAgent(LoopTake);
      es := [take, begin];
      Run2(cfg, s, take, begin);
    } else {
      es := [begin];
      assert [begin][..0] == [];
    }
  }

  // Persistence.

  /** At every point of every run the state file is one complete snapshot whose version is zero or
      one whose `Apply` succeeded, and not ahead of memory or of the server. */
  lemma StateFileSound(cfg: Config, s: State)
    requires Reachable(cfg, s)
    ensures var k := s.agent.core;
      && k.disk.Whole?
      && (k.disk.version == 0 || k.disk.version in k.applied)
      && k.disk.version <= k.version <= Version(s.server, cfg.gateway)
  {
    ReachableInv(cfg, s);
  }

  lemma DiskCore(cfg: Config, v: Server, k: Core, e: AgentEvent)
    requires VersionsOk(cfg.gateway, v, k) && NextCore(cfg, v, k, e).Some?
    ensures var next := NextCore(cfg, v, k, e).value;
      next.disk.Whole? && k.disk.version <= next.disk.version && k.applied <= next.applied
  {
  }

  lemma DiskStep(cfg: Config, s: State, e: Event)
    requires Inv(cfg.gateway, s) && Next(cfg, s, e).Some?
    ensures var t := Next(cfg, s, e).value;
      && Version(s.server, cfg.gateway) <= Version(t.server, cfg.gateway)
      && t.agent.core.disk.Whole? && s.agent.core.disk.version <= t.agent.core.disk.version
      && s.agent.core.applied <= t.agent.core.applied
  {
    match e
    case OnServer(se) => VersionGrows(s.server, se, cfg.gateway);
    case OnAgent(ae) => DiskCore(cfg, s.server, s.agent.core, ae);
  }

  /** Persisted and desired versions never decrease, across crashes and restarts too. */
  lemma {:induction false} VersionsMonotone(cfg: Config, s: State, es: seq<Event>, i: nat)
    requires Inv(cfg.gateway, s) && i <= |es| && Run(cfg, s, es).Some?
    ensures Run(cfg, s, es[..i]).Some?
    ensures var a, b := Run(cfg, s, es[..i]).value, Run(cfg, s, es).value;
      && Version(a.server, cfg.gateway) <= Version(b.server, cfg.gateway)
      && a.agent.core.disk.Whole? && b.agent.core.disk.Whole?
      && a.agent.core.disk.version <= b.agent.core.disk.version
  {
    RunKeeps(cfg, s, es);
    if i == |es| {
      assert es[..i] == es;
    } else {
      var front := es[..|es| - 1];
      VersionsMonotone(cfg, s, front, i);
      assert front[..i] == es[..i];
      RunKeeps(cfg, s, front);
      DiskStep(cfg, Run(cfg, s, front).value, es[|es| - 1]);
    }
  }

  // Convergence.

  /** A server step that writes a row or the version of gateway `g`. */
  predicate Touches(v: Server, e: ServerEvent, g: Gateway) {
    match e
    case Insert(op) => op in v.ops && v.ops[op].Inserting? && v.ops[op].row.gateway == g
    case Update(op) => op in v.ops && v.ops[op].Updating? && v.ops[op].row.gateway == g
    case Delete(op) => op in v.ops && v.ops[op].Deleting? && v.ops[op].gateway == g
    case Disable(op) => op in v.ops && v.ops[op].Disabling? && v.ops[op].gateway == g
    case Bump(op) => op in v.ops && v.ops[op].Unbumped? && v.ops[op].gateway == g
    case EnsureVersion(h) => h == g
    case _ => false
  }

  /** Anything but a mutation of the gateway, an exit of frpc, or an end of the agent. */
  predicate Calm(cfg: Config, s: State, e: Event) {
    match e
    case OnServer(se) => !Touches(s.server, se, cfg.gateway)
    case OnAgent(ae) => !ae.FrpcExit? && !ae.Crash? && !ae.Start?
  }

  /** Calm, and the pull, the write and the start succeed.  Saving the state may still fail. */
  predicate Clean(cfg: Config, s: State, e: Event) {
    Calm(cfg, s, e) && (e.OnAgent? ==> !e.ae.PullFails? && !e.ae.WriteFails? && !e.ae.StartFails?)
  }

  /** frpc runs and every version in sight is `n`. */
  predicate SteadyAt(k: Core, n: nat) {
    && k.up && k.proc.Some? && k.version == n && k.proc.value.version == n
    && (k.phase.Idle? || k.phase.Begun?
        || (k.phase.HaveVersion? && k.phase.version == n)
        || (k.phase.Pulled? && k.phase.resp.version == n))
  }

  /** frpc runs and every version in sight is the server's. */
  predicate Steady(cfg: Config, s: State) { SteadyAt(s.agent.core, Version(s.server, cfg.gateway)) }

  /** Steady, with the current configuration and nothing pending. */
  predicate Settled(cfg: Config, s: State) { Steady(cfg, s) && Quiet(s.server, cfg.gateway) && Agrees(cfg, s) }

  lemma CalmRows(v: Server, e: ServerEvent, g: Gateway)
    requires OpsOk(v) && v.rows.Keys <= v.inserted && NextServer(v, e).Some? && !Touches(v, e, g)
    ensures EnabledRows(NextServer(v, e).value.rows, g) == EnabledRows(v.rows, g)
  {
    if ChangesRows(e) { assert OpOk(v, v.ops[e.op]); }
  }

  lemma CalmVersion(v: Server, e: ServerEvent, g: Gateway)
    requires NextServer(v, e).Some? && !Touches(v, e, g)
    ensures Version(NextServer(v, e).value, g) == Version(v, g)
  {
  }

  lemma CalmQuiet(v: Server, e: ServerEvent, g: Gateway)
    requires NextServer(v, e).Some? && !Touches(v, e, g) && Quiet(v, g)
    ensures Quiet(NextServer(v, e).value, g)
  {
    var w := NextServer(v, e).value;
    forall o | o in w.ops && w.ops[o].Unbumped? ensures w.ops[o].gateway != g {
      if o in v.ops && w.ops[o] == v.ops[o] {}
    }
  }

  lemma CalmServer(v: Server, e: ServerEvent, g: Gateway)
    requires OpsOk(v) && v.rows.Keys <= v.inserted && NextServer(v, e).Some? && !Touches(v, e, g)
    ensures var w := NextServer(v, e).value;
      && EnabledRows(w.rows, g) == EnabledRows(v.rows, g)
      && Version(w, g) == Version(v, g)
      && (Quiet(v, g) ==> Quiet(w, g))
  {
    CalmRows(v, e, g);
    CalmVersion(v, e, g);
    if Quiet(v, g) { CalmQuiet(v, e, g); }
  }

  lemma SteadyCore(cfg: Config, v: Server, k: Core, e: AgentEvent)
    requires SteadyAt(k, Version(v, cfg.gateway)) && NextCore(cfg, v, k, e).Some?
    requires !e.FrpcExit? && !e.Crash? && !e.Start?
    ensures var next := NextCore(cfg, v, k, e).value;
      && SteadyAt(next, Version(v, cfg.gateway))
      && next.proc == k.proc && next.file == k.file && next.disk == k.disk
  {
  }

  /** While the recorded version is the server's, a heartbeat that reports it triggers nothing. */
  lemma QuietBeat(cfg: Config, v: Server, k: Core, next: Core, w: Wake, e: AgentEvent)
    requires k.version == Version(v, cfg.gateway) && !e.Start?
    requires w.beat.Some? ==> w.beat.value == k.version
    ensures var after := NextWake(cfg.gateway, v, k, next, w, e);
      (after.beat.Some? ==> after.beat.value == k.version) && after.lastTrigger == w.lastTrigger
  {
  }

  /** A steady system stays steady under any calm step: no restart, no file change, and a heartbeat
      sent since then asks for nothing. */
  lemma SteadyStep(cfg: Config, s: State, e: Event)
    requires Inv(cfg.gateway, s) && Steady(cfg, s) && Calm(cfg, s, e) && Next(cfg, s, e).Some?
    ensures var t := Next(cfg, s, e).value;
      && Steady(cfg, t)
      && t.agent.core.proc == s.agent.core.proc && t.agent.core.file == s.agent.core.file
      && t.agent.core.disk == s.agent.core.disk
      && EnabledRows(t.server.rows, cfg.gateway) == EnabledRows(s.server.rows, cfg.gateway)
      && (BeatCurrent(s) ==> BeatCurrent(t) && t.agent.wake.lastTrigger == s.agent.wake.lastTrigger)
  {
    match e
    case OnServer(se) => CalmServer(s.server, se, cfg.gateway);
    case OnAgent(ae) =>
      SteadyCore(cfg, s.server, s.agent.core, ae);
      if BeatCurrent(s) {
        QuietBeat(cfg, s.server, s.agent.core, NextCore(cfg, s.server, s.agent.core, ae).value, s.agent.wake, ae);
      }
  }

  /** So does a settled one. */
  lemma SettledStep(cfg: Config, s: State, e: Event)
    requires Inv(cfg.gateway, s) && Settled(cfg, s) && Calm(cfg, s, e) && Next(cfg, s, e).Some?
    ensures var t := Next(cfg, s, e).value;
      && Settled(cfg, t)
      && t.agent.core.proc == s.agent.core.proc && t.agent.core.file == s.agent.core.file
      && (BeatCurrent(s) ==> BeatCurrent(t) && t.agent.wake.lastTrigger == s.agent.wake.lastTrigger)
  {
    SteadyStep(cfg, s, e);
    if e.OnServer? { CalmQuiet(s.server, e.se, cfg.gateway); }
  }

  /** The heartbeat in flight, if any, reports the recorded version. */
  predicate BeatCurrent(s: State) {
    s.agent.wake.beat.Some? ==> s.agent.wake.beat.value == s.agent.core.version
  }

  predicate CalmRun(cfg: Config, s: State, es: seq<Event>) {
    es != [] ==>
      var front := es[..|es| - 1];
      && CalmRun(cfg, s, front)
      && Run(cfg, s, front).Some? && Calm(cfg, Run(cfg, s, front).value, es[|es| - 1])
  }

  /** Along any calm run a steady system keeps its process and its file, its gateway's enabled rows
      stay as they are, and no heartbeat asks for a sync: a configuration that is right stays, and
      one that is wrong stays too. */
  lemma {:induction false} SteadyForever(cfg: Config, s: State, es: seq<Event>)
    requires Inv(cfg.gateway, s) && Steady(cfg, s) && BeatCurrent(s)
    requires CalmRun(cfg, s, es) && Run(cfg, s, es).Some?
    ensures var t := Run(cfg, s, es).value;
      && Steady(cfg, t) && BeatCurrent(t)
      && t.agent.core.proc == s.agent.core.proc && t.agent.core.file == s.agent.core.file
      && t.agent.core.disk == s.agent.core.disk
      && EnabledRows(t.server.rows, cfg.gateway) == EnabledRows(s.server.rows, cfg.gateway)
      && t.agent.wake.lastTrigger == s.agent.wake.lastTrigger
      && !NeedSync(t.server, cfg.gateway, t.agent.core.version)
      && (t.agent.wake.beat.Some? ==> !NeedSync(t.server, cfg.gateway, t.agent.wake.beat.value))
  {
    if es != [] {
      var front := es[..|es| - 1];
      SteadyForever(cfg, s, front);
      RunKeeps(cfg, s, front);
      SteadyStep(cfg, Run(cfg, s, front).value, es[|es| - 1]);
    }
  }

  /** However long nothing happens to the gateway: frpc is not restarted, `frpc.toml` is not
      written, and no heartbeat triggers a sync. */
  lemma {:induction false} SettledForever(cfg: Config, s: State, es: seq<Event>)
    requires Inv(cfg.gateway, s) && Settled(cfg, s) && BeatCurrent(s)
    requires CalmRun(cfg, s, es) && Run(cfg, s, es).Some?
    ensures var t := Run(cfg, s, es).value;
      && Settled(cfg, t) && BeatCurrent(t)
      && t.agent.core.proc == s.agent.core.proc && t.agent.core.file == s.agent.core.file
      && t.agent.wake.lastTrigger == s.agent.wake.lastTrigger
      && (t.agent.wake.beat.Some? ==> !NeedSync(t.server, cfg.gateway, t.agent.wake.beat.value))
  {
    SteadyForever(cfg, s, es);
    if es != [] {
      var front := es[..|es| - 1];
      SettledForever(cfg, s, front);
      RunKeeps(cfg, s, front);
      SettledStep(cfg, Run(cfg, s, front).value, es[|es| - 1]);
    }
  }

  /** A wrong configuration under matching versions lasts: until a statement touches the gateway,
      frpc exits or the agent ends, frpc keeps serving it and no heartbeat asks for a sync. */
  lemma StaleStays(cfg: Config, s: State, es: seq<Event>)
    requires Inv(cfg.gateway, s) && LooksCurrent(cfg, s) && !Agrees(cfg, s) && s.agent.core.up && BeatCurrent(s)
    requires CalmRun(cfg, s, es) && Run(cfg, s, es).Some?
    ensures var t := Run(cfg, s, es).value;
      && Steady(cfg, t) && !Agrees(cfg, t) && t.agent.core.proc == s.agent.core.proc
      && !NeedSync(t.server, cfg.gateway, t.agent.core.version)
  {
    SteadyForever(cfg, s, es);
  }

  /** The recorded version is `n`, the state file is `disk`, and no save is under way. */
  predicate Unsaved(s: State, n: nat, disk: StateFile) {
    s.agent.core.version == n && s.agent.core.disk == disk && !s.agent.core.phase.Recorded?
  }

  /** No step records a version, and the agent is not started anew. */
  predicate NothingRecorded(es: seq<Event>) {
    forall i :: 0 <= i < |es| ==> es[i].OnAgent? ==> !es[i].ae.SetVersion? && !es[i].ae.Start?
  }

  lemma UnsavedStep(cfg: Config, s: State, e: Event, n: nat, disk: StateFile)
    requires Unsaved(s, n, disk) && Next(cfg, s, e).Some?
    requires e.OnAgent? ==> !e.ae.SetVersion? && !e.ae.Start?
    ensures Unsaved(Next(cfg, s, e).value, n, disk)
  {
  }

  lemma {:induction false} UnsavedRun(cfg: Config, s: State, es: seq<Event>, n: nat, disk: StateFile)
    requires Unsaved(s, n, disk) && NothingRecorded(es) && Run(cfg, s, es).Some?
    ensures Unsaved(Run(cfg, s, es).value, n, disk)
  {
    if es != [] {
      var front := es[..|es| - 1];
      assert forall i :: 0 <= i < |front| ==> front[i] == es[i];
      UnsavedRun(cfg, s, front, n, disk);
      UnsavedStep(cfg, Run(cfg, s, front).value, es[|es| - 1], n, disk);
    }
  }

  /** A save that fails is not made up for by heartbeats: along every run from that step on, until a
      sync records a version again or the agent is started anew, the state file stays as it was, and a
      heartbeat asks for a sync exactly when the server's version has moved past the response's. */
  lemma FailedSaveUnnoticed(cfg: Config, s: State, es: seq<Event>)
    requires Reachable(cfg, s) && NextAgent(cfg, s.server, s.agent, SaveFails).Some?
    requires NothingRecorded(es)
    requires Run(cfg, s.(agent := NextAgent(cfg, s.server, s.agent, SaveFails).value), es).Some?
    ensures s.agent.core.phase.Recorded?
    ensures var r := s.agent.core.phase.resp;
      var t := Run(cfg, s.(agent := NextAgent(cfg, s.server, s.agent, SaveFails).value), es).value;
      && t.agent.core.disk == s.agent.core.disk && t.agent.core.version == r.version
      && (NeedSync(t.server, cfg.gateway, t.agent.core.version) <==> Version(t.server, cfg.gateway) > r.version)
  {
    ReachableInv(cfg, s);
    Step(cfg, s, OnAgent(SaveFails));
    var s1 := s.(agent := NextAgent(cfg, s.server, s.agent, SaveFails).value);
    RunKeeps(cfg, s1, es);
    UnsavedRun(cfg, s1, es, s.agent.core.phase.resp.version, s.agent.core.disk);
  }

  /** A deletion whose bump is lost: however long the run that follows, the deleted tunnel stays
      served and no heartbeat asks for a sync, as long as no other statement touches the gateway and
      neither frpc nor the agent ends. */
  lemma LostBumpStaysServed(cfg: Config, s: State, op: OpId, id: Id, t: State, es: seq<Event>)
    requires Reachable(cfg, s) && LooksCurrent(cfg, s) && Agrees(cfg, s) && BeatCurrent(s)
    requires op !in s.server.ops && id in EnabledRows(s.server.rows, cfg.gateway)
    requires Run(cfg, s, [OnServer(ReadForDelete(op, id)), OnServer(Delete(op))]) == Some(t)
    requires CalmRun(cfg, t, es) && Run(cfg, t, es).Some?
    ensures var u := Run(cfg, t, es).value;
      && u.agent.core.proc.Some? && id in u.agent.core.proc.value.rows && id !in EnabledRows(u.server.rows, cfg.gateway)
      && !NeedSync(u.server, cfg.gateway, u.agent.core.version)
  {
    DeletedUnbumped(cfg, s, op, id, t);
    SteadyForever(cfg, t, es);
  }

  lemma DeletedUnbumped(cfg: Config, s: State, op: OpId, id: Id, t: State)
    requires Reachable(cfg, s) && LooksCurrent(cfg, s) && Agrees(cfg, s) && BeatCurrent(s)
    requires op !in s.server.ops && id in EnabledRows(s.server.rows, cfg.gateway)
    requires Run(cfg, s, [OnServer(ReadForDelete(op, id)), OnServer(Delete(op))]) == Some(t)
    ensures Inv(cfg.gateway, t) && Steady(cfg, t) && BeatCurrent(t)
    ensures id in t.agent.core.proc.value.rows && id !in EnabledRows(t.server.rows, cfg.gateway)
  {
    Run2(cfg, s, OnServer(ReadForDelete(op, id)), OnServer(Delete(op)));
    ReachableInv(cfg, s);
    RunKeeps(cfg, s, [OnServer(ReadForDelete(op, id)), OnServer(Delete(op))]);
  }

  /** A sync under way over a quiet server, with what it has learnt so far still current. */
  predicate Converging(cfg: Config, s: State) {
    var k := s.agent.core;
    var n := Version(s.server, cfg.gateway);
    && Quiet(s.server, cfg.gateway) && k.up && !k.phase.Idle?
    && (k.phase.HaveVersion? ==> k.phase.version == n)
    && (HasResponse(k.phase) ==>
          k.phase.resp.version == n && k.phase.resp.rows == EnabledRows(s.server.rows, cfg.gateway))
    && (k.phase.Started? || k.phase.Recorded? ==> k.proc == Some(k.phase.resp))
  }

  lemma ConvergingAgent(cfg: Config, s: State, e: AgentEvent)
    requires Inv(cfg.gateway, s) && Converging(cfg, s) && Renderable(cfg)
    requires Clean(cfg, s, OnAgent(e)) && Next(cfg, s, OnAgent(e)).Some?
    ensures var t := Next(cfg, s, OnAgent(e)).value;
      if t.agent.core.phase.Idle? then Settled(cfg, t) else Converging(cfg, t)
  {
    if e.Receive? && FastPath(s.agent.core) {
      assert s.agent.core.proc.value in Held(s.agent.core);
    }
  }

  lemma ConvergingStep(cfg: Config, s: State, e: Event)
    requires Inv(cfg.gateway, s) && Converging(cfg, s) && Renderable(cfg)
    requires Clean(cfg, s, e) && Next(cfg, s, e).Some?
    ensures Converging(cfg, Next(cfg, s, e).value) || Settled(cfg, Next(cfg, s, e).value)
  {
    match e
    case OnServer(se) => CalmServer(s.server, se, cfg.gateway);
    case OnAgent(ae) => ConvergingAgent(cfg, s, ae);
  }

  predicate CleanRun(cfg: Config, s: State, es: seq<Event>) {
    es != [] ==>
      var front := es[..|es| - 1];
      && CleanRun(cfg, s, front)
      && Run(cfg, s, front).Some? && Clean(cfg, Run(cfg, s, front).value, es[|es| - 1])
  }

  /** From any state with the gateway quiet and the lock free, once a `SyncOnce` begins, a run
      without faults ends settled or is still inside that `SyncOnce`; other gateways, heartbeats,
      triggers and publish calls may interleave at will. */
  lemma {:induction false} SyncConverges(cfg: Config, s: State, es: seq<Event>)
    requires Inv(cfg.gateway, s) && Renderable(cfg)
    requires Quiet(s.server, cfg.gateway) && s.agent.core.up && s.agent.core.phase.Idle?
    requires es != [] && es[0].OnAgent? && es[0].ae.Begin?
    requires CleanRun(cfg, s, es) && Run(cfg, s, es).Some?
    ensures Converging(cfg, Run(cfg, s, es).value) || Settled(cfg, Run(cfg, s, es).value)
    ensures Run(cfg, s, es).value.agent.core.phase.Idle? ==> Settled(cfg, Run(cfg, s, es).value)
  {
    var front := es[..|es| - 1];
    RunKeeps(cfg, s, front);
    if |es| == 1 {
      assert front == [];
    } else {
      SyncConverges(cfg, s, front);
      var t := Run(cfg, s, front).value;
      if Converging(cfg, t) { ConvergingStep(cfg, t, es[|es| - 1]); }
      else { SettledStep(cfg, t, es[|es| - 1]); }
    }
  }

  /** The next step of a `SyncOnce` that nothing hinders. */
  function NextClean(cfg: Config, s: State, order: seq<Id>): AgentEvent {
    match s.agent.core.phase
    case Idle => Begin(Loop)
    case Begun(_) => ReadVersion
    case HaveVersion(_, _) => ListRows(order)
    case Pulled(_, _) => Receive
    case Rendered(_, _) => Install
    case Installed(_, _) => StopProcess
    case Stopped(_, _) => StartProcess
    case Started(_, _) => SetVersion
    case Recorded(_, _) => if s.agent.core.temp == Whole(s.agent.core.version) then RenameState else WriteTemp(true)
  }

  function Remaining(k: Core): nat {
    match k.phase
    case Idle => 0
    case Begun(_) => 9
    case HaveVersion(_, _) => 8
    case Pulled(_, _) => 7
    case Rendered(_, _) => 6
    case Installed(_, _) => 5
    case Stopped(_, _) => 4
    case Started(_, _) => 3
    case Recorded(_, _) => if k.temp == Whole(k.version) then 1 else 2
  }

  /** It never gets stuck: a clean step is possible and brings the end nearer. */
  lemma SyncProgress(cfg: Config, s: State, order: seq<Id>)
    requires s.agent.core.up && !s.agent.core.phase.Idle?
    requires Lists(order, EnabledRows(s.server.rows, cfg.gateway))
    ensures var e := OnAgent(NextClean(cfg, s, order));
      && Clean(cfg, s, e) && Next(cfg, s, e).Some?
      && Remaining(Next(cfg, s, e).value.agent.core) < Remaining(s.agent.core)
  {
  }

  lemma {:induction false} RunPrepend(cfg: Config, s: State, e: Event, es: seq<Event>)
    requires Next(cfg, s, e).Some?
    ensures Run(cfg, s, [e] + es) == Run(cfg, Next(cfg, s, e).value, es)
  {
    var all := [e] + es;
    if es == [] {
      assert all[..0] == [] && all == [e];
    } else {
      assert all[..|all| - 1] == [e] + es[..|es| - 1];
      RunPrepend(cfg, s, e, es[..|es| - 1]);
    }
  }

  lemma {:induction false} ListRowsOf(rows: Rows) returns (order: seq<Id>)
    ensures Lists(order, rows)
    decreases |rows|
  {
    if rows == map[] {
      order := [];
    } else {
      var id :| id in rows;
      var rest := ListRowsOf(rows - {id});
      order := [id] + rest;
      Seqs.NoDuplicatesCons(id, rest);
    }
  }

  lemma CleanFrame(cfg: Config, s: State, order: seq<Id>)
    requires s.agent.core.up && !s.agent.core.phase.Idle?
    requires Next(cfg, s, OnAgent(NextClean(cfg, s, order))).Some?
    ensures var t := Next(cfg, s, OnAgent(NextClean(cfg, s, order))).value;
      && t.server == s.server && t.agent.wake.beat == s.agent.wake.beat
      && (!t.agent.core.phase.Idle? ==> t.agent.core.phase.owner == s.agent.core.phase.owner)
      && (!s.agent.core.phase.owner.Call? ==> t.agent.calls == s.agent.calls)
  {
  }

  /** One clean step of a `SyncOnce` over a quiet server. */
  lemma CleanStep(cfg: Config, s: State, order: seq<Id>) returns (t: State)
    requires Inv(cfg.gateway, s) && Renderable(cfg) && Converging(cfg, s)
    requires Lists(order, EnabledRows(s.server.rows, cfg.gateway))
    ensures Next(cfg, s, OnAgent(NextClean(cfg, s, order))) == Some(t) && Inv(cfg.gateway, t) && t.server == s.server
    ensures if t.agent.core.phase.Idle? then Settled(cfg, t) else Converging(cfg, t)
    ensures Remaining(t.agent.core) < Remaining(s.agent.core)
    ensures !t.agent.core.phase.Idle? ==> t.agent.core.phase.owner == s.agent.core.phase.owner
    ensures !s.agent.core.phase.owner.Call? ==> t.agent.calls == s.agent.calls
    ensures t.agent.wake.beat == s.agent.wake.beat
  {
    var e := NextClean(cfg, s, order);
    SyncProgress(cfg, s, order);
    CleanFrame(cfg, s, order);
    ConvergingAgent(cfg, s, e);
    t := StepTo(cfg, s, OnAgent(e));
  }

  lemma FinishSync(cfg: Config, s: State, order: seq<Id>) returns (es: seq<Event>)
    requires Inv(cfg.gateway, s) && Renderable(cfg) && Converging(cfg, s)
    requires Lists(order, EnabledRows(s.server.rows, cfg.gateway))
    ensures Run(cfg, s, es).Some? && Settled(cfg, Run(cfg, s, es).value)
    ensures Run(cfg, s, es).value.server == s.server && Run(cfg, s, es).value.agent.core.phase.Idle?
    ensures !s.agent.core.phase.owner.Call? ==> Run(cfg, s, es).value.agent.calls == s.agent.calls
    ensures Run(cfg, s, es).value.agent.wake.beat == s.agent.wake.beat
    ensures |es| <= Remaining(s.agent.core)
    decreases Remaining(s.agent.core)
  {
    var e := OnAgent(NextClean(cfg, s, order));
    var t := CleanStep(cfg, s, order);
    if t.agent.core.phase.Idle? {
      es := [e];
      RunPrepend(cfg, s, e, []);
      assert [e] + [] == [e];
    } else {
      var rest := FinishSync(cfg, t, order);
      es := [e] + rest;
      RunPrepend(cfg, s, e, rest);
    }
  }

  lemma {:induction false} RunAppend(cfg: Config, s: State, a: seq<Event>, b: seq<Event>)
    requires Run(cfg, s, a).Some?
    ensures Run(cfg, s, a + b) == Run(cfg, Run(cfg, s, a).value, b)
  {
    if b == [] {
      assert a + b == a;
    } else {
      assert (a + b)[..|a + b| - 1] == a + b[..|b| - 1];
      RunAppend(cfg, s, a, b[..|b| - 1]);
    }
  }

  lemma ReachableRun(cfg: Config, s: State, es: seq<Event>)
    requires Reachable(cfg, s) && Run(cfg, s, es).Some?
    ensures Reachable(cfg, Run(cfg, s, es).value)
  {
    var s0, es0 :| Init(s0) && Run(cfg, s0, es0) == Some(s);
    RunAppend(cfg, s0, es0, es);
  }

  const WAKE_UP := [OnAgent(Beat), OnAgent(BeatReply)] + [OnAgent(LoopTake), OnAgent(Begin(Loop))]

  /** A heartbeat that finds the versions different fills the slot. */
  lemma HeartbeatTriggers(cfg: Config, s: State) returns (t: State)
    requires Inv(cfg.gateway, s) && s.agent.core.up
    requires s.agent.wake.beat.None? && s.agent.wake.loop != Starting
    requires NeedSync(s.server, cfg.gateway, s.agent.core.version)
    ensures Run(cfg, s, [OnAgent(Beat), OnAgent(BeatReply)]) == Some(t) && Inv(cfg.gateway, t)
    ensures t.server == s.server && t.agent.core == s.agent.core
    ensures t.agent.wake.token && t.agent.wake.loop == s.agent.wake.loop
  {
    var s1 := StepTo(cfg, s, OnAgent(Beat));
    t := StepTo(cfg, s1, OnAgent(BeatReply));
    Run2(cfg, s, OnAgent(Beat), OnAgent(BeatReply));
  }

  lemma TokenTaken(cfg: Config, s: State) returns (t: State)
    requires Inv(cfg.gateway, s) && s.agent.core.up && s.agent.core.phase.Idle?
    requires s.agent.wake.token && s.agent.wake.loop == Waiting
    ensures Run(cfg, s, [OnAgent(LoopTake), OnAgent(Begin(Loop))]) == Some(t) && Inv(cfg.gateway, t)
    ensures t.server == s.server && t.agent.core == s.agent.core.(phase := Begun(Loop))
  {
    var s1 := StepTo(cfg, s, OnAgent(LoopTake));
    t := StepTo(cfg, s1, OnAgent(Begin(Loop)));
    Run2(cfg, s, OnAgent(LoopTake), OnAgent(Begin(Loop)));
  }

  lemma StepTo(cfg: Config, s: State, e: Event) returns (t: State)
    requires Inv(cfg.gateway, s) && Next(cfg, s, e).Some?
    ensures Next(cfg, s, e) == Some(t) && Inv(cfg.gateway, t)
  {
    t := Next(cfg, s, e).value;
    Step(cfg, s, e);
  }

  /** The way into the next `SyncOnce` that the program has in state `s`. */
  function Enter(s: State): seq<Event> {
    match s.agent.wake.loop
    case Starting => [OnAgent(Begin(Startup))]
    case Waiting => [OnAgent(LoopTick), OnAgent(Begin(Loop))]
    case _ => [OnAgent(Begin(Loop))]
  }

  lemma Run1(cfg: Config, s: State, e: Event)
    ensures Run(cfg, s, [e]) == Next(cfg, s, e)
  {
    assert [e][..0] == [];
  }

  lemma Entered(cfg: Config, s: State) returns (t: State)
    requires Inv(cfg.gateway, s) && s.agent.core.up && s.agent.core.phase.Idle?
    ensures Run(cfg, s, Enter(s)) == Some(t) && Inv(cfg.gateway, t)
    ensures t.server == s.server && t.agent.calls == s.agent.calls
    ensures t.agent.core.phase.Begun? && t.agent.core == s.agent.core.(phase := t.agent.core.phase)
    ensures !t.agent.core.phase.owner.Call? && t.agent.wake.beat == s.agent.wake.beat
  {
    if s.agent.wake.loop == Waiting {
      var s1 := StepTo(cfg, s, OnAgent(LoopTick));
      t := StepTo(cfg, s1, OnAgent(Begin(Loop)));
      Run2(cfg, s, OnAgent(LoopTick), OnAgent(Begin(Loop)));
    } else {
      var owner := if s.agent.wake.loop == Starting then Startup else Loop;
      t := StepTo(cfg, s, OnAgent(Begin(owner)));
      Run1(cfg, s, OnAgent(Begin(owner)));
    }
  }

  /** From every reachable state with the gateway quiet, the agent up and the lock free, the next
      `SyncOnce` of `main` or of the loop reaches agreement in at most eleven steps. */
  lemma OneSyncSettles(cfg: Config, s: State) returns (rest: seq<Event>)
    requires Reachable(cfg, s) && Renderable(cfg)
    requires Quiet(s.server, cfg.gateway) && s.agent.core.up && s.agent.core.phase.Idle?
    ensures |Enter(s) + rest| <= 11 && Run(cfg, s, Enter(s) + rest).Some?
    ensures var t := Run(cfg, s, Enter(s) + rest).value;
      && Settled(cfg, t) && LooksCurrent(cfg, t)
      && t.server == s.server && t.agent.calls == s.agent.calls && t.agent.wake.beat == s.agent.wake.beat
  {
    ReachableInv(cfg, s);
    var t := Entered(cfg, s);
    var order := ListRowsOf(EnabledRows(s.server.rows, cfg.gateway));
    rest := FinishSync(cfg, t, order);
    RunAppend(cfg, s, Enter(s), rest);
  }

  /** The heartbeat's way to agreement: while agent and server differ and the gateway is quiet, one
      heartbeat, its answer, and the loop taking the token lead to a `SyncOnce` that settles. */
  lemma HeartbeatSettles(cfg: Config, s: State) returns (rest: seq<Event>)
    requires Reachable(cfg, s) && Renderable(cfg)
    requires Quiet(s.server, cfg.gateway) && s.agent.core.up && s.agent.core.phase.Idle?
    requires s.agent.wake.beat.None? && s.agent.wake.loop == Waiting
    requires NeedSync(s.server, cfg.gateway, s.agent.core.version)
    ensures |rest| <= 9 && Run(cfg, s, WAKE_UP + rest).Some?
    ensures Settled(cfg, Run(cfg, s, WAKE_UP + rest).value)
  {
    ReachableInv(cfg, s);
    var s1 := HeartbeatTriggers(cfg, s);
    var t := TokenTaken(cfg, s1);
    RunAppend(cfg, s, [OnAgent(Beat), OnAgent(BeatReply)], [OnAgent(LoopTake), OnAgent(Begin(Loop))]);
    var order := ListRowsOf(EnabledRows(s.server.rows, cfg.gateway));
    rest := FinishSync(cfg, t, order);
    RunAppend(cfg, s, WAKE_UP, rest);
  }

  /** Why the pull reads the version first.  Were the rows read before a creation and the version
      after it, the response would pair the new version with the old rows for good. */
  lemma RowsFirstIsUnsound(v: Server, op: OpId, g: Gateway, order: seq<Id>)
    requires ServerOk(v) && Quiet(v, g) && Lists(order, EnabledRows(v.rows, g))
    requires op in v.ops && v.ops[op].Inserting? && v.ops[op].row.gateway == g && v.ops[op].row.enabled
    ensures NextServer(v, Insert(op)).Some?
    ensures var w := NextServer(v, Insert(op)).value;
      && NextServer(w, Bump(op)).Some?
      && var x := NextServer(w, Bump(op)).value;
      && Quiet(x, g)
      && !ResponseOk(g, x, Response(Version(x, g), EnabledRows(v.rows, g), order, v.changed))
      && ResponseOk(g, x, Response(Version(v, g), EnabledRows(v.rows, g), order, v.changed))
  {
    var w := NextServer(v, Insert(op)).value;
    var x := NextServer(w, Bump(op)).value;
    var id := v.ops[op].id;
    assert OpOk(v, v.ops[op]);
    assert id in EnabledRows(x.rows, g) && id !in EnabledRows(v.rows, g);
    ResponseFresh(g, v, Version(v, g), order);
    var r := Response(Version(v, g), EnabledRows(v.rows, g), order, v.changed);
    ResponseStep(g, v, Insert(op), r);
    ServerStep(v, Insert(op));
    ResponseStep(g, w, Bump(op), r);
    forall o | o in x.ops && x.ops[o].Unbumped? ensures x.ops[o].gateway != g { assert x.ops[o] == v.ops[o]; }
  }

  /** Without a usable server address and port no frpc ever runs, so `Renderable` is exactly what
      convergence needs. */
  lemma {:induction false} NeverRunsUnrenderable(cfg: Config, s: State, es: seq<Event>)
    requires !Renderable(cfg) && Init(s) && Run(cfg, s, es).Some?
    ensures var k := Run(cfg, s, es).value.agent.core;
      && k.proc.None? && k.file.None?
      && (k.phase.Idle? || k.phase.Begun? || k.phase.HaveVersion? || k.phase.Pulled?)
  {
    if es != [] { NeverRunsUnrenderable(cfg, s, es[..|es| - 1]); }
  }
}
