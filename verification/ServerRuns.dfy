/** Sequential runs of everything that writes the server's database. */
module ServerRuns {
  import opened Options
  import opened Data
  import opened Database
  import Health
  import Janitor
  import TunnelRules
  import opened Text
  import opened TunnelService
  import Rules
  import ServerPublish

  /** The configuration, and library functions: IP syntax, and the choice among namesakes. */
  datatype Env = Env(ip: string -> bool, ports: Ports, find: Health.Finder)

  ghost predicate ValidEnv(env: Env) { ValidPorts(env.ports) && Health.Finds(env.find) }

  datatype Op =
    | Create(input: CreateInput, id: Id, fault: Fault)
    | Publish(settings: ServerPublish.Settings, req: ServerPublish.Request, shorts: seq<string>, time: int,
              id: Id, fault: Fault)
    | Update(id: Id, patch: Patch, fault: Fault)
    | Delete(id: Id, fault: Fault)
    | Sweep(now: string, faults: Janitor.SweepFaults)
    | Register(gateway: Gateway, ensured: bool)   // `ensured`: the version row was written too
    | Report(gateway: Gateway, checks: seq<Health.Check>)

  function RegisterSpec(db: Db, g: Gateway, ensured: bool): Db {
    if g in db.gateways then db
    else db.(gateways := db.gateways + {g},
             versions := if ensured && g !in db.versions then db.versions[g := 1] else db.versions)
  }

  function Apply(env: Env, db: Db, op: Op): Db {
    match op
    case Create(input, id, fault) => CreateSpec(env.ip, env.ports, db, input, id, fault).1
    case Publish(s, req, shorts, time, id, fault) =>
      if |shorts| != 10 then db
      else ServerPublish.PublishSpec(env.ip, env.ports, s, db, req, shorts, time, id, fault).1
    case Update(id, patch, fault) => UpdateSpec(env.ip, db, id, patch, fault).1
    case Delete(id, fault) => DeleteSpec(db, id, fault).1
    case Sweep(now, faults) => Janitor.SweepSpec(db, now, faults)
    case Register(g, ensured) => RegisterSpec(db, g, ensured)
    case Report(g, checks) => Health.ReportSpec(env.find, db, g, checks)
  }

  function Run(env: Env, db: Db, ops: seq<Op>): Db {
    if ops == [] then db else Apply(env, Run(env, db, ops[..|ops| - 1]), ops[|ops| - 1])
  }

  const EMPTY := Db({}, map[], map[], map[], [])

  /** Every tunnel obeys `rule` and has a registered gateway; names are unique per gateway,
      domains and ports globally; health rows are of existing tunnels. */
  predicate Sound(rule: Tunnel -> bool, db: Db) {
    && TunnelRules.EveryRow(db.tunnels, rule)
    && TunnelRules.UniqueRows(db.tunnels)
    && (forall i :: i in db.tunnels ==> db.tunnels[i].gateway in db.gateways)
    && db.health.Keys <= db.tunnels.Keys
  }

  predicate Good(env: Env, db: Db) { Sound(TunnelRules.RowRule(env.ip, env.ports), db) }

  /** A publish is a create, or changes nothing. */
  lemma PublishIsCreate(env: Env, db: Db, op: Op) returns (create: Option<Op>)
    requires op.Publish?
    ensures create.None? ==> Apply(env, db, op) == db
    ensures create.Some? ==> create.value.Create? && create.value.fault == op.fault && create.value.id == op.id
                             && Apply(env, db, op) == Apply(env, db, create.value)
  {
    create := None;
    if |op.shorts| == 10 {
      var prepared := ServerPublish.Prepare(op.settings, db.tunnels, op.req, op.shorts, op.time);
      if prepared.Ok? { create := Some(Create(prepared.value, op.id, op.fault)); }
    }
  }

  lemma CreateStep(env: Env, db: Db, op: Op)
    requires ValidEnv(env) && Good(env, db) && op.Create?
    ensures Good(env, Apply(env, db, op))
  {
    TunnelRules.CreateKeeps(env.ip, env.ports, db, op.input, op.id, op.fault);
    CreateTables(env.ip, env.ports, db, op.input, op.id, op.fault);
  }

  lemma InsertTables(db: Db, row: Result<Tunnel>, id: Id, fault: Fault)
    ensures var after := Insert(db, row, id, fault).1;
      after.gateways == db.gateways && after.health == db.health && after.alerts == db.alerts
  {
  }

  lemma CreateTables(ip: string -> bool, ports: Ports, db: Db, input: CreateInput, id: Id, fault: Fault)
    ensures var after := CreateSpec(ip, ports, db, input, id, fault).1;
      after.gateways == db.gateways && after.health == db.health && after.alerts == db.alerts
  {
    InsertTables(db, Admit(ip, ports, db, input), id, fault);
  }

  lemma UpdateTables(ip: string -> bool, db: Db, id: Id, u: Patch, fault: Fault)
    ensures var after := UpdateSpec(ip, db, id, u, fault).1;
      after.gateways == db.gateways && after.health == db.health && after.alerts == db.alerts
  {
  }

  lemma UpdateStep(env: Env, db: Db, op: Op)
    requires ValidEnv(env) && Good(env, db) && op.Update?
    ensures Good(env, Apply(env, db, op))
  {
    TunnelRules.UpdateKeeps(env.ip, env.ports, db, op.id, op.patch, op.fault);
    UpdateTables(env.ip, db, op.id, op.patch, op.fault);
  }

  lemma DeleteStep(rule: Tunnel -> bool, db: Db, id: Id, fault: Fault)
    requires Sound(rule, db)
    ensures Sound(rule, DeleteSpec(db, id, fault).1)
  {
  }

  lemma SweepStep(rule: Tunnel -> bool, db: Db, now: string, faults: Janitor.SweepFaults)
    requires Sound(rule, db) && forall t :: rule(t) ==> rule(t.(enabled := false))
    ensures Sound(rule, Janitor.SweepSpec(db, now, faults))
  {
    var ids := Janitor.ExpiredRows(db.tunnels, now).Keys - faults.disable;
    TunnelRules.DisableRule(rule, db.tunnels, ids);
    TunnelRules.DisableUnique(db.tunnels, ids);
  }

  lemma ReportStep(rule: Tunnel -> bool, find: Health.Finder, db: Db, g: Gateway, checks: seq<Health.Check>)
    requires Sound(rule, db) && Health.Finds(find)
    ensures Sound(rule, Health.ReportSpec(find, db, g, checks))
  {
    Health.ReportKeeps(find, db, g, checks);
  }

  lemma RegisterStep(rule: Tunnel -> bool, db: Db, g: Gateway, ensured: bool)
    requires Sound(rule, db)
    ensures Sound(rule, RegisterSpec(db, g, ensured))
  {
  }

  lemma RuleIgnoresEnabled(ip: string -> bool, ports: Ports)
    ensures forall t :: TunnelRules.RowRule(ip, ports)(t) ==> TunnelRules.RowRule(ip, ports)(t.(enabled := false))
  {
  }

  lemma Step(env: Env, db: Db, op: Op)
    requires ValidEnv(env) && Good(env, db)
    ensures Good(env, Apply(env, db, op))
  {
    var rule := TunnelRules.RowRule(env.ip, env.ports);
    match op
    case Create(_, _, _) => CreateStep(env, db, op);
    case Publish(_, _, _, _, _, _) =>
      var create := PublishIsCreate(env, db, op);
      if create.Some? { CreateStep(env, db, create.value); }
    case Update(_, _, _) => UpdateStep(env, db, op);
    case Delete(id, fault) => DeleteStep(rule, db, id, fault);
    case Sweep(now, faults) =>
      RuleIgnoresEnabled(env.ip, env.ports);
      SweepStep(rule, db, now, faults);
    case Register(g, ensured) => RegisterStep(rule, db, g, ensured);
    case Report(g, checks) => ReportStep(rule, env.find, db, g, checks);
  }

  /** The rules hold after every sequential run, whatever is asked and whichever writes fail. */
  lemma {:induction false} RunKeeps(env: Env, db: Db, ops: seq<Op>)
    requires ValidEnv(env) && Good(env, db)
    ensures Good(env, Run(env, db, ops))
  {
    if ops != [] {
      RunKeeps(env, db, ops[..|ops| - 1]);
      Step(env, Run(env, db, ops[..|ops| - 1]), ops[|ops| - 1]);
    }
  }

  /** Starting from the empty database. */
  lemma SequentialRules(env: Env, ops: seq<Op>)
    requires ValidEnv(env)
    ensures Good(env, Run(env, EMPTY, ops))
  {
    RunKeeps(env, EMPTY, ops);
  }

  // Runs that leave nothing to skip.

  /** No hyphen at either end. */
  predicate CleanEdges(name: string) { name != "" ==> name[0] != '-' && name[|name| - 1] != '-' }

  /** The tunnel has what its type needs. */
  predicate Complete(t: Tunnel) {
    (t.kind == "http" ==> t.domain != "") && (t.kind == "tcp" ==> Rules.ValidPort(t.remotePort))
  }

  /** The update takes away what the tunnel's type needs. */
  predicate Blanks(db: Db, op: Op) {
    op.Update? && op.id in db.tunnels &&
    (|| (db.tunnels[op.id].kind == "http" && op.patch.domain == Some(""))
     || (db.tunnels[op.id].kind == "tcp" && op.patch.remotePort == Some(0)))
  }

  /** Blanks nothing, and creates no tunnel of `g` whose name has an edge hyphen. */
  predicate Tidy(db: Db, op: Op, g: Gateway) {
    && !Blanks(db, op)
    && (op.Create? && op.input.gateway == g ==> CleanEdges(TrimSpace(op.input.name)))
    && (op.Publish? ==> ServerPublish.AreShorts(op.shorts))
  }

  predicate TidyRun(env: Env, db: Db, ops: seq<Op>, g: Gateway) {
    ops != [] ==>
      var front := ops[..|ops| - 1];
      TidyRun(env, db, front, g) && Tidy(Run(env, db, front), ops[|ops| - 1], g)
  }

  predicate RowTidy(ip: string -> bool, ports: Ports, g: Gateway, t: Tunnel) {
    TunnelRules.RowOk(ip, ports, t) && Complete(t) && (t.gateway == g ==> CleanEdges(t.name))
  }

  function TidyRule(env: Env, g: Gateway): Tunnel -> bool { t => RowTidy(env.ip, env.ports, g, t) }

  lemma AdmittedTidy(env: Env, db: Db, input: CreateInput, g: Gateway)
    requires ValidEnv(env) && env.ports.max <= 65535
    requires input.gateway == g ==> CleanEdges(TrimSpace(input.name))
    requires Admit(env.ip, env.ports, db, input).Ok?
    ensures RowTidy(env.ip, env.ports, g, Admit(env.ip, env.ports, db, input).value)
  {
    TunnelRules.AdmitMeaning(env.ip, env.ports, db, input);
    TunnelRules.AdmittedRow(env.ip, env.ports, db, input);
    AskedComplete(env.ip, env.ports, db, input, Admit(env.ip, env.ports, db, input).value);
  }

  lemma AskedComplete(ip: string -> bool, ports: Ports, db: Db, input: CreateInput, t: Tunnel)
    requires ValidPorts(ports) && ports.max <= 65535
    requires TunnelRules.Admissible(ip, ports, db, input) && TunnelRules.AsAsked(ports, db.tunnels, input, t)
    ensures Complete(t)
  {
  }

  lemma TidyCreate(env: Env, db: Db, op: Op, g: Gateway)
    requires ValidEnv(env) && env.ports.max <= 65535 && Sound(TidyRule(env, g), db)
    requires op.Create? && (op.input.gateway == g ==> CleanEdges(TrimSpace(op.input.name)))
    ensures Sound(TidyRule(env, g), Apply(env, db, op))
  {
    var row := Admit(env.ip, env.ports, db, op.input);
    if row.Ok? {
      AdmittedTidy(env, db, op.input, g);
      TunnelRules.AdmittedRow(env.ip, env.ports, db, op.input);
      TunnelRules.InsertKeeps(TidyRule(env, g), db, row.value, op.id, op.fault);
    }
    InsertTables(db, row, op.id, op.fault);
    InsertSound(TidyRule(env, g), db, row, op.id, op.fault);
  }

  lemma InsertSound(rule: Tunnel -> bool, db: Db, row: Result<Tunnel>, id: Id, fault: Fault)
    requires Sound(rule, db)
    requires var after := Insert(db, row, id, fault).1;
      row.Ok? ==> TunnelRules.EveryRow(after.tunnels, rule) && TunnelRules.UniqueRows(after.tunnels)
                  && forall i :: i in after.tunnels ==> i in db.tunnels || after.tunnels[i].gateway in db.gateways
    ensures Sound(rule, Insert(db, row, id, fault).1)
  {
  }

  lemma SlugIsClean(sub: string)
    requires Rules.IsSlug(sub)
    ensures CleanEdges(TrimSpace(sub))
  {
    ServerPublish.SlugNames(sub);
  }

  lemma PreparedClean(s: ServerPublish.Settings, rows: Rows, req: ServerPublish.Request, shorts: seq<string>, time: int)
    requires ServerPublish.AreShorts(shorts) && ServerPublish.Prepare(s, rows, req, shorts, time).Ok?
    ensures CleanEdges(TrimSpace(ServerPublish.Prepare(s, rows, req, shorts, time).value.name))
  {
    ServerPublish.PreparedMeaning(s, rows, req, shorts, time);
    SlugIsClean(ServerPublish.Prepare(s, rows, req, shorts, time).value.name);
  }

  lemma TidyPublish(env: Env, db: Db, op: Op, g: Gateway)
    requires ValidEnv(env) && env.ports.max <= 65535 && Sound(TidyRule(env, g), db)
    requires op.Publish? && ServerPublish.AreShorts(op.shorts)
    ensures Sound(TidyRule(env, g), Apply(env, db, op))
  {
    var prepared := ServerPublish.Prepare(op.settings, db.tunnels, op.req, op.shorts, op.time);
    if prepared.Ok? {
      PreparedClean(op.settings, db.tunnels, op.req, op.shorts, op.time);
      TidyCreate(env, db, Create(prepared.value, op.id, op.fault), g);
    }
  }

  lemma PatchedTidy(env: Env, rows: Rows, t: Tunnel, u: Patch, g: Gateway)
    requires RowTidy(env.ip, env.ports, g, t) && CheckPatch(env.ip, rows, t, u).None?
    requires t.kind == "http" ==> u.domain != Some("")
    requires t.kind == "tcp" ==> u.remotePort != Some(0)
    ensures RowTidy(env.ip, env.ports, g, Patched(t, u))
  {
    TunnelRules.PatchedRow(env.ip, env.ports, rows, t, u);
    TunnelRules.UpdateErrors(env.ip, rows, t, u);
    PatchedComplete(t, u);
  }

  lemma PatchedComplete(t: Tunnel, u: Patch)
    requires Complete(t) && (t.kind == "http" ==> u.domain != Some("")) && (t.kind == "tcp" ==> u.remotePort != Some(0))
    requires u.remotePort.Or(0) == 0 || Rules.ValidPort(u.remotePort.Or(0))
    ensures Complete(Patched(t, u))
  {
  }

  lemma TidyUpdate(env: Env, db: Db, op: Op, g: Gateway)
    requires Sound(TidyRule(env, g), db) && op.Update? && !Blanks(db, op)
    ensures Sound(TidyRule(env, g), Apply(env, db, op))
  {
    if op.id in db.tunnels {
      var t := db.tunnels[op.id];
      var refused := CheckPatch(env.ip, db.tunnels, t, op.patch);
      if refused.None? {
        assert TidyRule(env, g)(t);
        PatchedTidy(env, db.tunnels, t, op.patch, g);
        TunnelRules.PatchedRow(env.ip, env.ports, db.tunnels, t, op.patch);
        TunnelRules.RewriteKeeps(TidyRule(env, g), db, op.id, op.patch, op.fault);
      }
      UpdateTables(env.ip, db, op.id, op.patch, op.fault);
      RewriteSound(TidyRule(env, g), db, refused, op.id, op.patch, op.fault);
    }
  }

  lemma RewriteSound(rule: Tunnel -> bool, db: Db, refused: Option<Error>, id: Id, u: Patch, fault: Fault)
    requires Sound(rule, db) && id in db.tunnels
    requires var after := Rewrite(db, refused, id, u, fault).1;
      refused.None? ==> TunnelRules.EveryRow(after.tunnels, rule) && TunnelRules.UniqueRows(after.tunnels)
    ensures Sound(rule, Rewrite(db, refused, id, u, fault).1)
  {
  }

  lemma TidyIgnoresEnabled(env: Env, g: Gateway)
    ensures forall t :: TidyRule(env, g)(t) ==> TidyRule(env, g)(t.(enabled := false))
  {
  }

  lemma TidyStep(env: Env, db: Db, op: Op, g: Gateway)
    requires ValidEnv(env) && env.ports.max <= 65535 && Sound(TidyRule(env, g), db) && Tidy(db, op, g)
    ensures Sound(TidyRule(env, g), Apply(env, db, op))
  {
    var rule := TidyRule(env, g);
    match op
    case Create(_, _, _) => TidyCreate(env, db, op, g);
    case Publish(_, _, _, _, _, _) => TidyPublish(env, db, op, g);
    case Update(_, _, _) => TidyUpdate(env, db, op, g);
    case Delete(id, fault) => DeleteStep(rule, db, id, fault);
    case Sweep(now, faults) =>
      TidyIgnoresEnabled(env, g);
      SweepStep(rule, db, now, faults);
    case Register(h, ensured) => RegisterStep(rule, db, h, ensured);
    case Report(h, checks) => ReportStep(rule, env.find, db, h, checks);
  }

  /** Along a tidy run every tunnel keeps what its type needs, and the gateway's names stay clean. */
  lemma {:induction false} TidyRunKeeps(env: Env, ops: seq<Op>, g: Gateway)
    requires ValidEnv(env) && env.ports.max <= 65535 && TidyRun(env, EMPTY, ops, g)
    ensures Sound(TidyRule(env, g), Run(env, EMPTY, ops))
  {
    if ops != [] {
      var front := ops[..|ops| - 1];
      TidyRunKeeps(env, front, g);
      TidyStep(env, Run(env, EMPTY, front), ops[|ops| - 1], g);
    }
  }

  // What never changes.

  predicate SameTunnel(a: Tunnel, b: Tunnel) {
    a.gateway == b.gateway && a.name == b.name && a.kind == b.kind && a.expires == b.expires
  }

  /** No operation moves a tunnel to another gateway, renames it, or changes type or expiry. */
  lemma IdentityStep(env: Env, db: Db, op: Op, i: Id)
    requires ValidEnv(env) && i in db.tunnels && i in Apply(env, db, op).tunnels
    ensures SameTunnel(db.tunnels[i], Apply(env, db, op).tunnels[i])
  {
    match op
    case Create(input, id, fault) => InsertRows(db, Admit(env.ip, env.ports, db, input), id, fault, i);
    case Publish(_, _, _, _, _, _) =>
      var create := PublishIsCreate(env, db, op);
      if create.Some? {
        InsertRows(db, Admit(env.ip, env.ports, db, create.value.input), create.value.id, create.value.fault, i);
      }
    case Update(id, u, fault) =>
      if id in db.tunnels { RewriteRows(db, CheckPatch(env.ip, db.tunnels, db.tunnels[id], u), id, u, fault, i); }
    case Delete(_, _) =>
    case Sweep(_, _) =>
    case Register(_, _) =>
    case Report(g, checks) => ReportTunnels(env.find, db, g, checks);
  }

  lemma InsertRows(db: Db, row: Result<Tunnel>, id: Id, fault: Fault, i: Id)
    requires i in db.tunnels
    ensures i in Insert(db, row, id, fault).1.tunnels
    ensures Insert(db, row, id, fault).1.tunnels[i] == db.tunnels[i]
  {
  }

  lemma RewriteRows(db: Db, refused: Option<Error>, id: Id, u: Patch, fault: Fault, i: Id)
    requires id in db.tunnels && i in db.tunnels
    ensures i in Rewrite(db, refused, id, u, fault).1.tunnels
    ensures SameTunnel(db.tunnels[i], Rewrite(db, refused, id, u, fault).1.tunnels[i])
  {
  }

  lemma {:induction false} ReportTunnels(find: Health.Finder, db: Db, g: Gateway, checks: seq<Health.Check>)
    ensures var after := Health.ReportSpec(find, db, g, checks);
      after.tunnels == db.tunnels && after.versions == db.versions && after.gateways == db.gateways
  {
    if checks != [] { ReportTunnels(find, db, g, checks[..|checks| - 1]); }
  }

  /** A tunnel that is never deleted keeps its gateway, name, type and expiry along a whole run. */
  lemma {:induction false} IdentityForLife(env: Env, db: Db, ops: seq<Op>, i: Id)
    requires ValidEnv(env)
    requires forall k :: 0 <= k <= |ops| ==> i in Run(env, db, ops[..k]).tunnels
    ensures i in db.tunnels && i in Run(env, db, ops).tunnels
    ensures SameTunnel(db.tunnels[i], Run(env, db, ops).tunnels[i])
  {
    assert ops[..0] == [] && ops[..|ops|] == ops;
    assert Run(env, db, ops[..0]) == db;
    if ops != [] {
      var front := ops[..|ops| - 1];
      forall k | 0 <= k <= |front| ensures i in Run(env, db, front[..k]).tunnels { assert front[..k] == ops[..k]; }
      IdentityForLife(env, db, front, i);
      IdentityStep(env, Run(env, db, front), ops[|ops| - 1], i);
    }
  }

  // Versions.

  /** No statement that raises a version is lost. */
  predicate Lossless(op: Op) {
    match op
    case Create(_, _, fault) => !fault.bump.BumpLost?
    case Publish(_, _, _, _, _, fault) => !fault.bump.BumpLost?
    case Update(_, _, fault) => !fault.bump.BumpLost?
    case Delete(_, fault) => !fault.bump.BumpLost?
    case Sweep(_, faults) => faults.bump == {}
    case Register(_, _) => true
    case Report(_, _) => true
  }

  /** Versions never decrease; and if no bump is lost, a gateway's set of tunnels changes only
      together with its version. */
  ghost predicate Versioned(before: Db, after: Db, lossless: bool, g: Gateway) {
    && VersionIn(before.versions, g) <= VersionIn(after.versions, g)
    && (lossless && VersionIn(before.versions, g) == VersionIn(after.versions, g) ==>
          RowsOf(after.tunnels, g) == RowsOf(before.tunnels, g))
  }

  function RowsOf(rows: Rows, g: Gateway): Rows {
    map i | i in rows && rows[i].gateway == g :: rows[i]
  }

  lemma InsertVersion(db: Db, row: Result<Tunnel>, id: Id, fault: Fault, g: Gateway)
    ensures Versioned(db, Insert(db, row, id, fault).1, !fault.bump.BumpLost?, g)
  {
  }

  lemma RewriteVersion(db: Db, refused: Option<Error>, id: Id, u: Patch, fault: Fault, g: Gateway)
    requires id in db.tunnels
    ensures Versioned(db, Rewrite(db, refused, id, u, fault).1, !fault.bump.BumpLost?, g)
  {
  }

  lemma DeleteVersion(db: Db, id: Id, fault: Fault, g: Gateway)
    ensures Versioned(db, DeleteSpec(db, id, fault).1, !fault.bump.BumpLost?, g)
  {
  }

  lemma SweepVersion(db: Db, now: string, faults: Janitor.SweepFaults, g: Gateway)
    ensures Versioned(db, Janitor.SweepSpec(db, now, faults), faults.bump == {}, g)
  {
    var ids := Janitor.ExpiredRows(db.tunnels, now).Keys - faults.disable;
    Janitor.RaisedVersion(db.versions, db.tunnels, ids - faults.bump, g);
    if faults.bump == {} && Janitor.OwnedBy(db.tunnels, ids, g) == {} {
      forall i | i in db.tunnels && db.tunnels[i].gateway == g ensures i !in ids {
        assert i !in Janitor.OwnedBy(db.tunnels, ids, g);
      }
    }
    assert faults.bump == {} ==> ids - faults.bump == ids;
  }

  lemma VersionStep(env: Env, db: Db, op: Op, g: Gateway)
    ensures Versioned(db, Apply(env, db, op), Lossless(op), g)
  {
    match op
    case Create(input, id, fault) => InsertVersion(db, Admit(env.ip, env.ports, db, input), id, fault, g);
    case Publish(_, _, _, _, _, _) =>
      var create := PublishIsCreate(env, db, op);
      if create.Some? {
        InsertVersion(db, Admit(env.ip, env.ports, db, create.value.input), create.value.id, create.value.fault, g);
      }
    case Update(id, u, fault) =>
      if id in db.tunnels { RewriteVersion(db, CheckPatch(env.ip, db.tunnels, db.tunnels[id], u), id, u, fault, g); }
    case Delete(id, fault) => DeleteVersion(db, id, fault, g);
    case Sweep(now, faults) => SweepVersion(db, now, faults, g);
    case Register(_, _) =>
    case Report(h, checks) => ReportTunnels(env.find, db, h, checks);
  }

  predicate LosslessRun(ops: seq<Op>) { forall k :: 0 <= k < |ops| ==> Lossless(ops[k]) }

  /** Over a run: versions never decrease, and while no bump is lost, seeing a version again means
      that no tunnel of the gateway has changed in between. */
  lemma {:induction false} VersionRun(env: Env, db: Db, ops: seq<Op>, g: Gateway)
    ensures Versioned(db, Run(env, db, ops), LosslessRun(ops), g)
  {
    if ops != [] {
      var front := ops[..|ops| - 1];
      VersionRun(env, db, front, g);
      VersionStep(env, Run(env, db, front), ops[|ops| - 1], g);
      if LosslessRun(ops) {
        assert forall k :: 0 <= k < |front| ==> front[k] == ops[k];
        assert LosslessRun(front);
      }
    }
  }

  predicate IsMutation(op: Op) { op.Create? || op.Publish? || op.Update? || op.Delete? }

  /** The gateway whose tunnel `id` is, before or after. */
  function Owner(before: Db, after: Db, id: Id): Option<Gateway> {
    if id in after.tunnels then Some(after.tunnels[id].gateway)
    else if id in before.tunnels then Some(before.tunnels[id].gateway)
    else None
  }

  /** Nothing at all changed, or the owner's version rose by one and no other version moved. */
  predicate RefusedOrRaised(before: Db, after: Db, id: Id, g: Gateway) {
    || after == before
    || VersionIn(after.versions, g) ==
       VersionIn(before.versions, g) + if Owner(before, after, id) == Some(g) then 1 else 0
  }

  lemma InsertRaises(db: Db, row: Result<Tunnel>, id: Id, g: Gateway)
    ensures RefusedOrRaised(db, Insert(db, row, id, NO_FAULT).1, id, g)
  {
  }

  lemma RewriteRaises(db: Db, refused: Option<Error>, id: Id, u: Patch, g: Gateway)
    requires id in db.tunnels
    ensures RefusedOrRaised(db, Rewrite(db, refused, id, u, NO_FAULT).1, id, g)
  {
  }

  lemma DeleteRaises(db: Db, id: Id, g: Gateway)
    ensures RefusedOrRaised(db, DeleteSpec(db, id, NO_FAULT).1, id, g)
  {
  }

  /** A mutation without faults is refused without effect, or raises its owner's version by exactly
      one and no other. */
  lemma MutationRaises(env: Env, db: Db, op: Op, g: Gateway)
    requires IsMutation(op) && op.fault == NO_FAULT
    ensures RefusedOrRaised(db, Apply(env, db, op), op.id, g)
  {
    match op
    case Create(input, id, _) => InsertRaises(db, Admit(env.ip, env.ports, db, input), id, g);
    case Publish(_, _, _, _, id, _) =>
      var create := PublishIsCreate(env, db, op);
      if create.Some? { InsertRaises(db, Admit(env.ip, env.ports, db, create.value.input), id, g); }
    case Update(id, u, _) =>
      if id in db.tunnels { RewriteRaises(db, CheckPatch(env.ip, db.tunnels, db.tunnels[id], u), id, u, g); }
    case Delete(id, _) => DeleteRaises(db, id, g);
  }

  // Health.

  /** What an operation adds to the history of tunnel `i`. */
  function MarksOf(env: Env, db: Db, op: Op, i: Id): seq<Health.Mark> {
    match op
    case Report(g, checks) => Health.Marks(env.find, db.tunnels, g, checks, i)
    case Delete(id, fault) => if id == i && id in db.tunnels && !fault.write then [Health.Removed] else []
    case _ => []
  }

  function History(env: Env, db: Db, ops: seq<Op>, i: Id): seq<Health.Mark> {
    if ops == [] then []
    else
      var front := ops[..|ops| - 1];
      History(env, db, front, i) + MarksOf(env, Run(env, db, front), ops[|ops| - 1], i)
  }

  lemma DeleteReflects(db: Db, id: Id, fault: Fault, i: Id, history: seq<Health.Mark>)
    requires Health.Reflects(db, i, history)
    ensures Health.Reflects(DeleteSpec(db, id, fault).1, i,
                     history + if id == i && id in db.tunnels && !fault.write then [Health.Removed] else [])
  {
    if id == i && id in db.tunnels && !fault.write { Health.RisesSnoc(history, Health.Removed); }
    else { assert history + [] == history; }
  }

  /** Operations other than reports and deletions leave health rows and events alone. */
  lemma OtherHealth(env: Env, db: Db, op: Op)
    requires !op.Report? && !op.Delete?
    ensures Apply(env, db, op).health == db.health && Apply(env, db, op).alerts == db.alerts
  {
    match op
    case Create(input, id, fault) => CreateTables(env.ip, env.ports, db, input, id, fault);
    case Publish(_, _, _, _, _, _) =>
      var create := PublishIsCreate(env, db, op);
      if create.Some? {
        CreateTables(env.ip, env.ports, db, create.value.input, create.value.id, create.value.fault);
      }
    case Update(id, u, fault) => UpdateTables(env.ip, db, id, u, fault);
    case Sweep(_, _) =>
    case Register(_, _) =>
  }

  lemma HealthStep(env: Env, db: Db, op: Op, i: Id, history: seq<Health.Mark>)
    requires Health.Reflects(db, i, history)
    ensures Health.Reflects(Apply(env, db, op), i, history + MarksOf(env, db, op, i))
  {
    match op
    case Report(g, checks) => Health.ReportReflects(env.find, db, g, checks, i, history);
    case Delete(id, fault) => DeleteReflects(db, id, fault, i, history);
    case _ =>
      OtherHealth(env, db, op);
      assert history + [] == history;
  }

  /** Over every run, a tunnel's `health.unhealthy` events are exactly the changes into that status
      in its history of reports and deletions, and its health row is the latest report since the
      last deletion. */
  lemma {:induction false} AlertsAreRises(env: Env, ops: seq<Op>, i: Id)
    ensures Health.Reflects(Run(env, EMPTY, ops), i, History(env, EMPTY, ops, i))
  {
    if ops == [] {
      assert Health.Rises([]) == {};
    } else {
      var front := ops[..|ops| - 1];
      AlertsAreRises(env, front, i);
      HealthStep(env, Run(env, EMPTY, front), ops[|ops| - 1], i, History(env, EMPTY, front, i));
    }
  }
}
