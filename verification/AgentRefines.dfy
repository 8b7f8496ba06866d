/** A `SyncOnce` call is a run of the protocol machine, whatever fails in it and whatever the server
    does between its two reads. */
module AgentRefines {
  import opened Options
  import opened Data
  import opened Protocol
  import A = Agent
  import Frpc
  import T = ProtocolTheorems

  function ReplyOf(cfg: Config, r: Response): A.Reply {
    A.Reply(r.version, cfg.serverAddr, cfg.serverPort, cfg.authToken, r.Tunnels())
  }

  function Rendering(ip: string -> bool, cfg: Config, r: Response): Frpc.RenderResult {
    Frpc.RenderSpec(ip, A.InputOf(ReplyOf(cfg, r)))
  }

  /** The text of `frpc.toml` for a response. */
  function TextOf(ip: string -> bool, cfg: Config): Response -> string {
    (r: Response) => var x := Rendering(ip, cfg, r); if x.Rendered? then x.text else ""
  }

  function FileOf(me: A.Snapshot, f: StateFile): A.StateFile {
    match f
    case Missing => A.Missing
    case Torn => A.Torn
    case Whole(v) => A.Whole(me.(version := v))
  }

  function MapText(text: Response -> string, r: Option<Response>): Option<string> {
    if r.Some? then Some(text(r.value)) else None
  }

  /** What a call sees of the machine's state. */
  function ViewOf(text: Response -> string, path: string, me: A.Snapshot, k: Core): A.View {
    A.View(path, k.version, FileOf(me, k.disk), MapText(text, k.file), MapText(text, k.proc),
           if k.snapshot.Some? then k.snapshot.value.Tunnels() else [])
  }

  /** Steps of `SyncOnce` while the server stays at `v`. */
  function CoreRun(cfg: Config, v: Server, k: Core, es: seq<AgentEvent>): Option<Core>
    decreases |es|
  {
    if es == [] then Some(k)
    else match NextCore(cfg, v, k, es[0])
      case None => None
      case Some(next) => CoreRun(cfg, v, next, es[1..])
  }

  /** What the last of these steps returns on success. */
  function Answer(cfg: Config, v: Server, k: Core, es: seq<AgentEvent>): Option<Response>
    requires es != [] && CoreRun(cfg, v, k, es).Some?
    decreases |es|
  {
    if |es| == 1 then Outcome(k, es[0]) else Answer(cfg, v, NextCore(cfg, v, k, es[0]).value, es[1..])
  }

  lemma CoreCons(cfg: Config, v: Server, k: Core, e: AgentEvent, es: seq<AgentEvent>)
    requires NextCore(cfg, v, k, e).Some?
    ensures CoreRun(cfg, v, k, [e] + es) == CoreRun(cfg, v, NextCore(cfg, v, k, e).value, es)
    ensures CoreRun(cfg, v, k, [e] + es).Some? ==>
              Answer(cfg, v, k, [e] + es) ==
              if es == [] then Outcome(k, e) else Answer(cfg, v, NextCore(cfg, v, k, e).value, es)
  {
    assert ([e] + es)[1..] == es;
  }

  lemma {:induction false} CoreAppend(cfg: Config, v: Server, k: Core, a: seq<AgentEvent>, b: seq<AgentEvent>)
    requires CoreRun(cfg, v, k, a).Some?
    ensures CoreRun(cfg, v, k, a + b) == CoreRun(cfg, v, CoreRun(cfg, v, k, a).value, b)
    ensures b != [] && CoreRun(cfg, v, k, a + b).Some? ==>
              Answer(cfg, v, k, a + b) == Answer(cfg, v, CoreRun(cfg, v, k, a).value, b)
    decreases |a|
  {
    if a == [] {
      assert a + b == b;
    } else {
      assert (a + b)[0] == a[0] && (a + b)[1..] == a[1..] + b;
      CoreAppend(cfg, v, NextCore(cfg, v, k, a[0]).value, a[1..], b);
    }
  }

  function PullPath(order: seq<Id>): seq<AgentEvent> { [ListRows(order)] + ([Receive] + []) }

  function SavePath(path: string, f: A.SaveFault): seq<AgentEvent> {
    if path == "" || f.NoDirectory? then [SaveFails] + []
    else match f
      case ShortWrite => [WriteTemp(false)] + ([SaveFails] + [])
      case NoRename => [WriteTemp(true)] + ([SaveFails] + [])
      case _ => [WriteTemp(true)] + ([RenameState] + [])
  }

  function ApplyPath(f: A.ApplyFault): seq<AgentEvent> {
    if A.BeforeRename(f) then [WriteFails] + []
    else if !f.ApplyOk? then [Install] + ([StopProcess] + ([StartFails] + []))
    else [Install] + ([StopProcess] + ([StartProcess] + ([SetVersion] + [])))
  }

  /** The response assembled from a version read before and the rows of `v`. */
  function Reading(cfg: Config, v: Server, version: nat, order: seq<Id>): Response {
    Response(version, EnabledRows(v.rows, cfg.gateway), order, v.changed)
  }

  lemma PullRuns(cfg: Config, v: Server, k: Core, order: seq<Id>)
    requires k.phase.HaveVersion? && Lists(order, EnabledRows(v.rows, cfg.gateway))
    ensures var resp := Reading(cfg, v, k.phase.version, order);
      var fast := resp.version == k.version && k.proc.Some?;
      && CoreRun(cfg, v, k, PullPath(order)) ==
         Some(k.(snapshot := Some(resp),
                 phase := if fast || !Renderable(cfg) then Idle else Rendered(k.phase.owner, resp)))
      && Answer(cfg, v, k, PullPath(order)) == (if fast then k.proc else None)
  {
    var k1 := NextCore(cfg, v, k, ListRows(order)).value;
    CoreCons(cfg, v, k, ListRows(order), [Receive] + []);
    CoreCons(cfg, v, k1, Receive, []);
  }

  lemma ApplyRuns(cfg: Config, v: Server, k: Core, f: A.ApplyFault)
    requires k.phase.Rendered?
    ensures var r := k.phase.resp;
      CoreRun(cfg, v, k, ApplyPath(f)) ==
      Some(if A.BeforeRename(f) then k.(phase := Idle)
           else if !f.ApplyOk? then k.(phase := Idle, file := Some(r), proc := None)
           else k.(phase := Recorded(k.phase.owner, r), file := Some(r), proc := Some(r),
                   version := r.version, applied := k.applied + {r.version}))
    ensures !f.ApplyOk? ==> Answer(cfg, v, k, ApplyPath(f)) == None
  {
    if A.BeforeRename(f) {
      CoreCons(cfg, v, k, WriteFails, []);
    } else {
      var k1 := NextCore(cfg, v, k, Install).value;
      var k2 := NextCore(cfg, v, k1, StopProcess).value;
      if !f.ApplyOk? {
        CoreCons(cfg, v, k, Install, [StopProcess] + ([StartFails] + []));
        CoreCons(cfg, v, k1, StopProcess, [StartFails] + []);
        CoreCons(cfg, v, k2, StartFails, []);
      } else {
        var k3 := NextCore(cfg, v, k2, StartProcess).value;
        CoreCons(cfg, v, k, Install, [StopProcess] + ([StartProcess] + ([SetVersion] + [])));
        CoreCons(cfg, v, k1, StopProcess, [StartProcess] + ([SetVersion] + []));
        CoreCons(cfg, v, k2, StartProcess, [SetVersion] + []);
        CoreCons(cfg, v, k3, SetVersion, []);
      }
    }
  }

  lemma SaveRuns(cfg: Config, v: Server, k: Core, path: string, f: A.SaveFault)
    requires k.phase.Recorded?
    ensures CoreRun(cfg, v, k, SavePath(path, f)).Some?
    ensures Answer(cfg, v, k, SavePath(path, f)) == Some(k.phase.resp)
    ensures var w := CoreRun(cfg, v, k, SavePath(path, f)).value;
      w == k.(phase := Idle, temp := w.temp, disk := if path != "" && f.SaveOk? then Whole(k.version) else k.disk)
  {
    if path == "" || f.NoDirectory? {
      CoreCons(cfg, v, k, SaveFails, []);
    } else {
      var e := WriteTemp(!f.ShortWrite?);
      var last := if f.SaveOk? then RenameState else SaveFails;
      CoreCons(cfg, v, k, e, [last] + []);
      CoreCons(cfg, v, NextCore(cfg, v, k, e).value, last, []);
    }
  }

  /** The path a call takes once it has read the version. */
  function RestPath(cfg: Config, k: Core, order: seq<Id>, path: string, f: A.Faults): seq<AgentEvent>
    requires k.phase.HaveVersion?
  {
    PullPath(order) +
    if (k.phase.version == k.version && k.proc.Some?) || !Renderable(cfg) then []
    else if !f.apply.ApplyOk? then ApplyPath(f.apply)
    else ApplyPath(f.apply) + SavePath(path, f.save)
  }

  /** The call ended, leaving this view, and answered as the specification says. */
  ghost predicate Does(cfg: Config, v: Server, k: Core, es: seq<AgentEvent>, text: Response -> string, path: string,
                       me: A.Snapshot, result: (A.View, bool)) {
    && es != [] && CoreRun(cfg, v, k, es).Some? && CoreRun(cfg, v, k, es).value.phase.Idle?
    && ViewOf(text, path, me, CoreRun(cfg, v, k, es).value) == result.0
    && (Answer(cfg, v, k, es).Some? <==> result.1)
  }

  /** Any way `text` and `rendered` of rendering that fails only on unusable settings. */
  lemma ReconcileRefines(cfg: Config, v: Server, k: Core, order: seq<Id>, path: string, me: A.Snapshot,
                         f: A.Faults, text: Response -> string, rendered: Frpc.RenderResult)
    requires k.phase.HaveVersion? && Lists(order, EnabledRows(v.rows, cfg.gateway))
    requires var resp := Reading(cfg, v, k.phase.version, order);
      && (rendered.Rendered? <==> Renderable(cfg))
      && (rendered.Rendered? ==> rendered.text == text(resp))
    ensures var resp := Reading(cfg, v, k.phase.version, order);
      Does(cfg, v, k, RestPath(cfg, k, order, path, f), text, path, me,
           A.Reconcile(ViewOf(text, path, me, k), ReplyOf(cfg, resp), rendered, f,
                       A.Whole(me.(version := resp.version))))
  {
    var a := PullPath(order);
    PullRuns(cfg, v, k, order);
    var k1 := CoreRun(cfg, v, k, a).value;
    if k1.phase.Idle? {
      assert a + [] == a;
    } else {
      ApplyRuns(cfg, v, k1, f.apply);
      if !f.apply.ApplyOk? {
        CoreAppend(cfg, v, k, a, ApplyPath(f.apply));
      } else {
        var k2 := CoreRun(cfg, v, k1, ApplyPath(f.apply)).value;
        SaveRuns(cfg, v, k2, path, f.save);
        CoreAppend(cfg, v, k, a, ApplyPath(f.apply) + SavePath(path, f.save));
        CoreAppend(cfg, v, k1, ApplyPath(f.apply), SavePath(path, f.save));
      }
    }
  }

  lemma RenderableMeans(ip: string -> bool, cfg: Config, r: Response)
    ensures Rendering(ip, cfg, r).Rendered? <==> Renderable(cfg)
    ensures Rendering(ip, cfg, r).Rendered? ==> Rendering(ip, cfg, r).text == TextOf(ip, cfg)(r)
  {
  }

  /** From the version on, the specification of `Agent.Synchronizer.SyncOnce` says what the machine
      does along `RestPath`: the view it leaves, and whether it answers with success. */
  lemma RestRefines(ip: string -> bool, cfg: Config, v: Server, k: Core, order: seq<Id>,
                    path: string, me: A.Snapshot, f: A.Faults)
    requires k.phase.HaveVersion? && Lists(order, EnabledRows(v.rows, cfg.gateway))
    ensures Does(cfg, v, k, RestPath(cfg, k, order, path, f), TextOf(ip, cfg), path, me,
                 A.SyncSpec(ip, ViewOf(TextOf(ip, cfg), path, me, k),
                            Some(ReplyOf(cfg, Reading(cfg, v, k.phase.version, order))), f, me))
  {
    var resp := Reading(cfg, v, k.phase.version, order);
    RenderableMeans(ip, cfg, resp);
    ReconcileRefines(cfg, v, k, order, path, me, f, TextOf(ip, cfg), Rendering(ip, cfg, resp));
  }

  // In the whole machine.

  function OnAgents(es: seq<AgentEvent>): seq<Event> {
    if es == [] then [] else [OnAgent(es[0])] + OnAgents(es[1..])
  }

  function OnServers(es: seq<ServerEvent>): seq<Event> {
    if es == [] then [] else [OnServer(es[0])] + OnServers(es[1..])
  }

  lemma {:induction false} ServersRun(cfg: Config, s: State, es: seq<ServerEvent>)
    requires ServerRun(s.server, es).Some?
    ensures Run(cfg, s, OnServers(es)) == Some(s.(server := ServerRun(s.server, es).value))
    decreases |es|
  {
    if es != [] {
      var v := NextServer(s.server, es[0]).value;
      ServersRun(cfg, s.(server := v), es[1..]);
      T.RunPrepend(cfg, s, OnServer(es[0]), OnServers(es[1..]));
    }
  }

  /** Steps inside `SyncOnce`: possible only while it runs, and whoever called it. */
  predicate Inside(e: AgentEvent) {
    match e
    case ReadVersion => true
    case ListRows(_) => true
    case PullFails => true
    case Receive => true
    case WriteFails => true
    case Install => true
    case StopProcess => true
    case StartFails => true
    case StartProcess => true
    case SetVersion => true
    case WriteTemp(_) => true
    case RenameState => true
    case SaveFails => true
    case _ => false
  }

  predicate AllInside(es: seq<AgentEvent>) { forall i :: 0 <= i < |es| ==> Inside(es[i]) }

  lemma InsideStep(cfg: Config, s: State, e: AgentEvent) returns (t: State)
    requires Inside(e) && NextCore(cfg, s.server, s.agent.core, e).Some?
    ensures Next(cfg, s, OnAgent(e)) == Some(t)
    ensures t.server == s.server && t.agent.core == NextCore(cfg, s.server, s.agent.core, e).value
    ensures !s.agent.core.phase.Idle?
    ensures !t.agent.core.phase.Idle? ==>
              t.agent.core.phase.owner == s.agent.core.phase.owner && t.agent.calls == s.agent.calls
  {
    t := Next(cfg, s, OnAgent(e)).value;
  }

  /** The publish call, if one is waiting, gets the answer. */
  predicate Answered(before: Agent, after: Agent, answer: Option<Response>) {
    !before.core.phase.Idle? && before.core.phase.owner.Call? && before.core.phase.owner.c in before.calls ==>
      var c := before.core.phase.owner.c;
      && c in after.calls
      && after.calls[c] ==
         if answer.Some? then Ok(before.calls[c].id, answer.value) else PendingSync(before.calls[c].id)
  }

  lemma LastStep(cfg: Config, s: State, e: AgentEvent) returns (t: State)
    requires Inside(e) && NextCore(cfg, s.server, s.agent.core, e).Some?
    requires NextCore(cfg, s.server, s.agent.core, e).value.phase.Idle?
    ensures Next(cfg, s, OnAgent(e)) == Some(t)
    ensures t.server == s.server && t.agent.core == NextCore(cfg, s.server, s.agent.core, e).value
    ensures Answered(s.agent, t.agent, Outcome(s.agent.core, e))
  {
    t := Next(cfg, s, OnAgent(e)).value;
  }

  /** The rest of a call, as a run of the whole machine. */
  lemma {:induction false} AgentsRun(cfg: Config, s: State, es: seq<AgentEvent>) returns (t: State)
    requires es != [] && AllInside(es) && CoreRun(cfg, s.server, s.agent.core, es).Some?
    requires CoreRun(cfg, s.server, s.agent.core, es).value.phase.Idle?
    ensures Run(cfg, s, OnAgents(es)) == Some(t)
    ensures t.server == s.server && t.agent.core == CoreRun(cfg, s.server, s.agent.core, es).value
    ensures Answered(s.agent, t.agent, Answer(cfg, s.server, s.agent.core, es))
    decreases |es|
  {
    var e, rest := es[0], es[1..];
    assert AllInside(rest);
    if rest == [] {
      t := LastStep(cfg, s, e);
      T.Run1(cfg, s, OnAgent(e));
      assert OnAgents(es) == [OnAgent(e)];
    } else {
      var u := InsideStep(cfg, s, e);
      assert Inside(rest[0]);
      var w := InsideStep(cfg, u, rest[0]);
      t := AgentsRun(cfg, u, rest);
      T.RunPrepend(cfg, s, OnAgent(e), OnAgents(rest));
    }
  }

  lemma InsideConcat(a: seq<AgentEvent>, b: seq<AgentEvent>)
    requires AllInside(a) && AllInside(b)
    ensures AllInside(a + b)
  {
  }

  lemma RestInside(cfg: Config, k: Core, order: seq<Id>, path: string, f: A.Faults)
    requires k.phase.HaveVersion?
    ensures AllInside(RestPath(cfg, k, order, path, f))
  {
    assert AllInside(PullPath(order)) && AllInside(ApplyPath(f.apply)) && AllInside(SavePath(path, f.save));
    assert AllInside([]);
    InsideConcat(ApplyPath(f.apply), SavePath(path, f.save));
    InsideConcat(PullPath(order), []);
    InsideConcat(PullPath(order), ApplyPath(f.apply));
    InsideConcat(PullPath(order), ApplyPath(f.apply) + SavePath(path, f.save));
  }

  /** The run of the machine that a call is: begin, read the version, whatever the server does then,
      and the rest. */
  function SyncRun(cfg: Config, owner: Owner, meanwhile: seq<ServerEvent>, rest: seq<AgentEvent>): seq<Event> {
    [OnAgent(Begin(owner)), OnAgent(ReadVersion)] + (OnServers(meanwhile) + OnAgents(rest))
  }

  lemma VersionRead(cfg: Config, s: State, owner: Owner) returns (t: State)
    requires s.agent.core.up && s.agent.core.phase.Idle? && Allowed(cfg, s.server, s.agent, Begin(owner))
    ensures Run(cfg, s, [OnAgent(Begin(owner)), OnAgent(ReadVersion)]) == Some(t) && t.server == s.server
    ensures t.agent.core == s.agent.core.(phase := HaveVersion(owner, Version(s.server, cfg.gateway)))
    ensures owner.Call? ==> owner.c in s.agent.calls && owner.c in t.agent.calls
                            && t.agent.calls[owner.c].id == s.agent.calls[owner.c].id
  {
    t := Next(cfg, Next(cfg, s, OnAgent(Begin(owner))).value, OnAgent(ReadVersion)).value;
    T.Run2(cfg, s, OnAgent(Begin(owner)), OnAgent(ReadVersion));
  }

  /** A call of `Agent.Synchronizer.SyncOnce` is a run of the machine, with any mutations between its
      reads of the version and of the rows, and any fault of apply and save.  It ends in a reachable
      state that looks as the specification says, so every theorem about reachable states holds
      after it; and a publish call on whose behalf it ran is "ok" exactly when it succeeds. */
  lemma SyncRefines(ip: string -> bool, cfg: Config, s: State, owner: Owner, meanwhile: seq<ServerEvent>,
                    order: seq<Id>, path: string, me: A.Snapshot, f: A.Faults)
    returns (rest: seq<AgentEvent>, t: State)
    requires Reachable(cfg, s) && s.agent.core.up && s.agent.core.phase.Idle?
    requires Allowed(cfg, s.server, s.agent, Begin(owner)) && ServerRun(s.server, meanwhile).Some?
    requires Lists(order, EnabledRows(ServerRun(s.server, meanwhile).value.rows, cfg.gateway))
    ensures Run(cfg, s, SyncRun(cfg, owner, meanwhile, rest)) == Some(t) && Reachable(cfg, t)
    ensures t.server == ServerRun(s.server, meanwhile).value && t.agent.core.phase.Idle?
    ensures var reply := ReplyOf(cfg, Reading(cfg, t.server, Version(s.server, cfg.gateway), order));
      var (view, ok) := A.SyncSpec(ip, ViewOf(TextOf(ip, cfg), path, me, s.agent.core), Some(reply), f, me);
      && ViewOf(TextOf(ip, cfg), path, me, t.agent.core) == view
      && (owner.Call? ==> owner.c in t.agent.calls && (t.agent.calls[owner.c].Ok? <==> ok)
                          && (t.agent.calls[owner.c].PendingSync? <==> !ok))
  {
    var s1 := VersionRead(cfg, s, owner);
    ServersRun(cfg, s1, meanwhile);
    var s2 := s1.(server := ServerRun(s.server, meanwhile).value);
    var k := s2.agent.core;
    rest := RestPath(cfg, k, order, path, f);
    RestRefines(ip, cfg, s2.server, k, order, path, me, f);
    RestInside(cfg, k, order, path, f);
    t := AgentsRun(cfg, s2, rest);
    T.RunAppend(cfg, s1, OnServers(meanwhile), OnAgents(rest));
    T.RunAppend(cfg, s, [OnAgent(Begin(owner)), OnAgent(ReadVersion)], OnServers(meanwhile) + OnAgents(rest));
    T.ReachableRun(cfg, s, SyncRun(cfg, owner, meanwhile, rest));
  }

  /** A call whose pull fails, at whichever point, is a run of the machine that changes nothing the
      call sees, and leaves a publish call pending: the specification without a reply. */
  lemma FailedPullRefines(ip: string -> bool, cfg: Config, s: State, owner: Owner, meanwhile: seq<ServerEvent>,
                          order: seq<Id>, listed: bool, path: string, me: A.Snapshot, f: A.Faults)
    returns (rest: seq<AgentEvent>, t: State)
    requires Reachable(cfg, s) && s.agent.core.up && s.agent.core.phase.Idle?
    requires Allowed(cfg, s.server, s.agent, Begin(owner)) && ServerRun(s.server, meanwhile).Some?
    requires Lists(order, EnabledRows(ServerRun(s.server, meanwhile).value.rows, cfg.gateway))
    ensures rest == if listed then [ListRows(order), PullFails] else [PullFails]
    ensures Run(cfg, s, SyncRun(cfg, owner, meanwhile, rest)) == Some(t) && Reachable(cfg, t)
    ensures t.agent.core.phase.Idle?
    ensures (ViewOf(TextOf(ip, cfg), path, me, t.agent.core), false) ==
            A.SyncSpec(ip, ViewOf(TextOf(ip, cfg), path, me, s.agent.core), None, f, me)
    ensures owner.Call? ==> owner.c in t.agent.calls && t.agent.calls[owner.c].PendingSync?
  {
    var s1 := VersionRead(cfg, s, owner);
    ServersRun(cfg, s1, meanwhile);
    var s2 := s1.(server := ServerRun(s.server, meanwhile).value);
    rest := if listed then [ListRows(order), PullFails] else [PullFails];
    FailRuns(cfg, s2.server, s2.agent.core, order, listed);
    t := AgentsRun(cfg, s2, rest);
    T.RunAppend(cfg, s1, OnServers(meanwhile), OnAgents(rest));
    T.RunAppend(cfg, s, [OnAgent(Begin(owner)), OnAgent(ReadVersion)], OnServers(meanwhile) + OnAgents(rest));
    T.ReachableRun(cfg, s, SyncRun(cfg, owner, meanwhile, rest));
  }

  lemma FailRuns(cfg: Config, v: Server, k: Core, order: seq<Id>, listed: bool)
    requires k.phase.HaveVersion? && Lists(order, EnabledRows(v.rows, cfg.gateway))
    ensures var es := if listed then [ListRows(order), PullFails] else [PullFails];
      CoreRun(cfg, v, k, es) == Some(k.(phase := Idle)) && Answer(cfg, v, k, es) == None && AllInside(es)
  {
    if listed {
      assert [ListRows(order), PullFails] == [ListRows(order)] + ([PullFails] + []);
      CoreCons(cfg, v, k, ListRows(order), [PullFails] + []);
      CoreCons(cfg, v, NextCore(cfg, v, k, ListRows(order)).value, PullFails, []);
    } else {
      assert [PullFails] == [PullFails] + [];
      CoreCons(cfg, v, k, PullFails, []);
    }
  }
}
