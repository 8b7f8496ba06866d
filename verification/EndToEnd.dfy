/** From the rows of the database to the configuration frpc reads. */
module EndToEnd {
  import opened Options
  import opened Data
  import opened Frpc
  import opened Rules
  import Seqs
  import opened Text
  import TunnelRules
  import S = TunnelService
  import A = Agent
  import Database
  import R = AgentRefines
  import RoundTrip
  import Toml
  import P = Protocol
  import ProtocolInvariant
  import ServerPublish
  import ServerRefines
  import ServerRuns
  import T = ProtocolTheorems

  // A gateway's enabled rows as proxies.

  function ProxyOf(t: Tunnel): Proxy { AsProxy(View(t)) }

  /** What a row needs to be configured, leaving aside other rows. */
  predicate RowValid(ip: string -> bool, t: Tunnel) {
    && SanitizeName(t.name) != ""
    && ValidHost(ip, t.targetHost) && ValidPort(t.targetPort)
    && ((t.kind == "http" && ValidDomain(t.domain)) || (t.kind == "tcp" && ValidPort(t.remotePort)))
  }

  /** What frpc is to be told of a row, column by column. */
  function RowBlock(t: Tunnel): Block
    requires t.targetPort >= 0 && (t.kind != "http" ==> t.remotePort >= 0)
  {
    if t.kind == "http" then Http(SanitizeName(t.name), t.targetHost, t.targetPort, t.domain)
    else Tcp(SanitizeName(t.name), t.targetHost, t.targetPort, t.remotePort)
  }

  /** A row's proxy carries its columns. */
  lemma RowAsProxy(ip: string -> bool, t: Tunnel)
    ensures RowValid(ip, t) <==> Valid(ip, ProxyOf(t))
    ensures t.targetPort >= 0 && (t.kind != "http" ==> t.remotePort >= 0) ==> RowBlock(t) == BlockOf(ProxyOf(t))
    ensures ProxyOf(t).name == t.name && ProxyOf(t).localIP == t.targetHost
  {
  }

  function Served(rows: Rows, order: seq<Id>): seq<Proxy> { Proxies(Fetch(rows, order)) }

  predicate Enabled(rows: Rows) { forall i :: i in rows ==> rows[i].enabled }

  predicate OneGateway(rows: Rows, g: Gateway) { forall i :: i in rows ==> rows[i].gateway == g }

  /** One proxy per row, in order. */
  lemma ServedAt(rows: Rows, order: seq<Id>)
    requires Lists(order, rows) && Enabled(rows)
    ensures |Served(rows, order)| == |order|
    ensures forall k :: 0 <= k < |order| ==> order[k] in rows && Served(rows, order)[k] == ProxyOf(rows[order[k]])
  {
    FetchEnabled(rows, order);
    forall k | 0 <= k < |order| ensures order[k] in rows && Served(rows, order)[k] == ProxyOf(rows[order[k]]) {
      assert order[k] in order;
    }
  }

  predicate DistinctRowNames(rows: Rows) {
    forall i, j :: i in rows && j in rows && i != j ==> rows[i].name != rows[j].name
  }

  lemma ServedDistinct(rows: Rows, order: seq<Id>)
    requires Lists(order, rows) && Enabled(rows) && DistinctRowNames(rows)
    ensures DistinctNames(Served(rows, order))
  {
    ServedAt(rows, order);
  }

  lemma UniqueNames(rows: Rows, g: Gateway)
    requires TunnelRules.UniqueRows(rows) && OneGateway(rows, g)
    ensures DistinctRowNames(rows)
  {
    forall i, j | i in rows && j in rows && i != j ensures rows[i].name != rows[j].name {
      assert TunnelRules.Apart(rows[i], rows[j]);
    }
  }

  lemma EnabledRowsShape(rows: Rows, g: Gateway)
    ensures Enabled(EnabledRows(rows, g)) && OneGateway(EnabledRows(rows, g), g)
    ensures TunnelRules.UniqueRows(rows) ==> TunnelRules.UniqueRows(EnabledRows(rows, g))
    ensures forall rule: Tunnel -> bool ::
              TunnelRules.EveryRow(rows, rule) ==> TunnelRules.EveryRow(EnabledRows(rows, g), rule)
  {
    var e := EnabledRows(rows, g);
    if TunnelRules.UniqueRows(rows) {
      forall i, j | i in e && j in e && i != j ensures TunnelRules.Apart(e[i], e[j]) {
        assert TunnelRules.Apart(rows[i], rows[j]);
      }
    }
  }

  // The text is a function of the rows.

  function InputFor(cfg: P.Config, ps: seq<Proxy>): RenderInput {
    RenderInput(cfg.serverAddr, cfg.serverPort, cfg.authToken, ps)
  }

  /** With names distinct, whichever order the rows are listed in, the text is the same. */
  lemma TextOfRows(ip: string -> bool, cfg: P.Config, rows: Rows, o1: seq<Id>, o2: seq<Id>)
    requires Lists(o1, rows) && Lists(o2, rows) && Enabled(rows) && DistinctRowNames(rows)
    ensures RenderSpec(ip, InputFor(cfg, Served(rows, o1))) == RenderSpec(ip, InputFor(cfg, Served(rows, o2)))
  {
    ServedDistinct(rows, o1);
    ServedDistinct(rows, o2);
    ListingPermutation(rows, o1, o2);
    RenderPermutation(ip, InputFor(cfg, Served(rows, o1)), InputFor(cfg, Served(rows, o2)));
  }

  /** Agreement at the level of text: after any interleaving and any faults, matching versions with
      nothing pending mean that `frpc.toml`, and what the running frpc read, is byte for byte the
      rendering of the gateway's current enabled rows, in whichever order they are listed. */
  lemma TextAgreement(ip: string -> bool, cfg: P.Config, s: P.State, order: seq<Id>)
    requires P.Reachable(cfg, s) && T.LooksCurrent(cfg, s) && ProtocolInvariant.Quiet(s.server, cfg.gateway)
    requires P.Renderable(cfg)
    requires var rows := EnabledRows(s.server.rows, cfg.gateway); Lists(order, rows) && DistinctRowNames(rows)
    ensures var text := RenderSpec(ip, InputFor(cfg, Served(EnabledRows(s.server.rows, cfg.gateway), order))).text;
      && R.MapText(R.TextOf(ip, cfg), s.agent.core.proc) == Some(text)
      && R.MapText(R.TextOf(ip, cfg), s.agent.core.file) == Some(text)
  {
    T.Agreement(cfg, s);
    var rows := EnabledRows(s.server.rows, cfg.gateway);
    var resp := s.agent.core.proc.value;
    TextOfRows(ip, cfg, rows, resp.order, order);
    TextOfResponse(ip, cfg, resp);
  }

  lemma TextOfResponse(ip: string -> bool, cfg: P.Config, resp: P.Response)
    requires P.Renderable(cfg)
    ensures R.TextOf(ip, cfg)(resp) == RenderSpec(ip, InputFor(cfg, Served(resp.rows, resp.order))).text
  {
    R.RenderableMeans(ip, cfg, resp);
  }

  // Which tunnels come through.

  /** What a stored row still needs for a block: an update may have blanked its domain or port, its
      name may be hyphens only, its port may come from a range beyond 65535. */
  predicate Servable(t: Tunnel) {
    && Trim(t.name, IsHyphen) != ""
    && (t.kind == "http" ==> t.domain != "")
    && (t.kind == "tcp" ==> ValidPort(t.remotePort))
  }

  lemma NoEmptyDomain()
    ensures !ValidDomain("")
  {
    assert TrimSpace("") == "";
  }

  lemma ServableMeans(ip: string -> bool, ports: S.Ports, t: Tunnel)
    requires TunnelRules.RowOk(ip, ports, t)
    ensures RowValid(ip, t) <==> Servable(t)
    ensures Valid(ip, ProxyOf(t)) <==> Servable(t)
    ensures SanitizeName(t.name) == Trim(t.name, IsHyphen)
  {
    SanitizeAccepted(t.name);
    RowHost(ip, ports, t);
    ValidWith(ip, ProxyOf(t), ValidDomain(t.domain));
    RowAsProxy(ip, t);
  }

  lemma RowHost(ip: string -> bool, ports: S.Ports, t: Tunnel)
    requires TunnelRules.RowOk(ip, ports, t)
    ensures ValidHost(ip, t.targetHost) && ValidPort(t.targetPort) && t.kind in {"http", "tcp"}
    ensures ValidDomain(t.domain) <==> t.domain != ""
  {
    NoEmptyDomain();
  }

  lemma ValidWith(ip: string -> bool, p: Proxy, domainOk: bool)
    requires ValidHost(ip, p.localIP) && ValidPort(p.localPort) && p.kind in {"http", "tcp"}
    requires domainOk == ValidDomain(p.domain)
    ensures Valid(ip, p) <==>
            && SanitizeName(p.name) != ""
            && (p.kind == "http" ==> domainOk) && (p.kind == "tcp" ==> ValidPort(p.remotePort))
  {
  }

  predicate DistinctTrimmed(rows: Rows) {
    forall i, j :: i in rows && j in rows && i != j ==> Trim(rows[i].name, IsHyphen) != Trim(rows[j].name, IsHyphen)
  }

  /** The rows one gateway's agent is served, under the rules of the tunnel service. */
  predicate ServedRows(ip: string -> bool, ports: S.Ports, rows: Rows, g: Gateway, order: seq<Id>) {
    && Lists(order, rows) && Enabled(rows) && OneGateway(rows, g)
    && TunnelRules.RowsOk(ip, ports, rows) && TunnelRules.UniqueRows(rows)
  }

  lemma AllServed(rows: Rows, order: seq<Id>, valid: Proxy -> bool, servable: Tunnel -> bool)
    requires Lists(order, rows) && Enabled(rows)
    requires forall i :: i in rows ==> valid(ProxyOf(rows[i])) == servable(rows[i])
    ensures (forall p :: p in Served(rows, order) ==> valid(p)) <==> (forall i :: i in rows ==> servable(rows[i]))
  {
    var ps := Served(rows, order);
    ServedAt(rows, order);
    if forall p :: p in ps ==> valid(p) {
      forall i | i in rows ensures servable(rows[i]) {
        var k :| 0 <= k < |order| && order[k] == i;
        assert ps[k] in ps;
      }
    }
  }

  lemma NamesIndexed(rows: Rows, order: seq<Id>, names: seq<string>, tag: Tunnel -> string)
    requires Lists(order, rows) && |names| == |order|
    requires forall k :: 0 <= k < |order| ==> order[k] in rows && names[k] == tag(rows[order[k]])
    ensures Seqs.NoDuplicates(names) <==>
            forall i, j :: i in rows && j in rows && i != j ==> tag(rows[i]) != tag(rows[j])
  {
    if Seqs.NoDuplicates(names) {
      forall i, j | i in rows && j in rows && i != j ensures tag(rows[i]) != tag(rows[j]) {
        var k :| 0 <= k < |order| && order[k] == i;
        var m :| 0 <= m < |order| && order[m] == j;
        assert names[if k < m then k else m] != names[if k < m then m else k];
      }
    } else {
      var k, m :| 0 <= k < m < |names| && names[k] == names[m];
      assert order[k] != order[m];
    }
  }

  lemma NamesServed(rows: Rows, order: seq<Id>, name: Proxy -> string, tag: Tunnel -> string)
    requires Lists(order, rows) && Enabled(rows)
    requires forall i :: i in rows ==> name(ProxyOf(rows[i])) == tag(rows[i])
    ensures Seqs.NoDuplicates(Seqs.Map(name, Served(rows, order))) <==>
            forall i, j :: i in rows && j in rows && i != j ==> tag(rows[i]) != tag(rows[j])
  {
    ServedAt(rows, order);
    NamesIndexed(rows, order, Seqs.Map(name, Served(rows, order)), tag);
  }

  lemma ListingLength(rows: Rows, order: seq<Id>)
    requires Lists(order, rows)
    ensures |order| == |rows|
  {
    Seqs.NoDuplicatesCard(order);
    assert (set i | i in order) == rows.Keys;
  }

  /** After the service's checks, `Render` raises no warning exactly when every tunnel is servable
      and no two names agree up to edge hyphens; then every tunnel gets its block. */
  lemma NoWarningsServed(ip: string -> bool, ports: S.Ports, rows: Rows, g: Gateway, order: seq<Id>)
    requires ServedRows(ip, ports, rows, g, order)
    ensures var done := Scan(Judged(ip, StableSort(Served(rows, order))));
      && (done.warnings == [] <==> (forall i :: i in rows ==> Servable(rows[i])) && DistinctTrimmed(rows))
      && (done.warnings == [] ==> |done.blocks| == |rows|)
  {
    forall i | i in rows
      ensures Valid(ip, ProxyOf(rows[i])) == Servable(rows[i])
      ensures SanitisedName(ProxyOf(rows[i])) == Trim(rows[i].name, IsHyphen)
    {
      assert TunnelRules.RowRule(ip, ports)(rows[i]);
      ServableMeans(ip, ports, rows[i]);
    }
    AllServed(rows, order, p => Valid(ip, p), t => Servable(t));
    NamesServed(rows, order, SanitisedName, (t: Tunnel) => Trim(t.name, IsHyphen));
    NoWarnings(ip, Served(rows, order));
    ServedAt(rows, order);
    ListingLength(rows, order);
  }

  /** The same after any sequential run of operations on the server, whichever writes failed. */
  lemma SequentialNoWarnings(env: ServerRuns.Env, ops: seq<ServerRuns.Op>, g: Gateway, order: seq<Id>)
    requires ServerRuns.ValidEnv(env)
    requires Lists(order, EnabledRows(ServerRuns.Run(env, ServerRuns.EMPTY, ops).tunnels, g))
    ensures var rows := EnabledRows(ServerRuns.Run(env, ServerRuns.EMPTY, ops).tunnels, g);
      var done := Scan(Judged(env.ip, StableSort(Served(rows, order))));
      && (done.warnings == [] <==> (forall i :: i in rows ==> Servable(rows[i])) && DistinctTrimmed(rows))
      && (done.warnings == [] ==> |done.blocks| == |rows|)
  {
    ServerRuns.SequentialRules(env, ops);
    var db := ServerRuns.Run(env, ServerRuns.EMPTY, ops);
    EnabledRowsShape(db.tunnels, g);
    NoWarningsServed(env.ip, env.ports, EnabledRows(db.tunnels, g), g, order);
  }

  /** A row that is complete and named without edge hyphens is servable, under its own name. */
  lemma TidyServable(ip: string -> bool, ports: S.Ports, g: Gateway, t: Tunnel)
    requires ServerRuns.RowTidy(ip, ports, g, t) && t.gateway == g
    ensures Servable(t) && Trim(t.name, IsHyphen) == t.name
  {
    TrimFixed(t.name, IsHyphen);
  }

  lemma TidyRows(env: ServerRuns.Env, db: Database.Db, g: Gateway)
    requires ServerRuns.Sound(ServerRuns.TidyRule(env, g), db)
    ensures var rows := EnabledRows(db.tunnels, g);
      (forall i :: i in rows ==> Servable(rows[i])) && DistinctTrimmed(rows)
  {
    var rows := EnabledRows(db.tunnels, g);
    EnabledRowsShape(db.tunnels, g);
    UniqueNames(rows, g);
    forall i | i in rows ensures Servable(rows[i]) && Trim(rows[i].name, IsHyphen) == rows[i].name {
      assert ServerRuns.TidyRule(env, g)(db.tunnels[i]);
      TidyServable(env.ip, env.ports, g, rows[i]);
    }
  }

  // One tunnel's block.

  lemma BlocksApart(t: Tunnel, u: Tunnel)
    requires TunnelRules.Apart(t, u) && t.kind in {"http", "tcp"} && u.kind in {"http", "tcp"}
    requires Servable(t) && Servable(u) && t.targetPort >= 0 && u.targetPort >= 0
    ensures RowBlock(t) != RowBlock(u)
  {
  }

  /** `rows[j]` would be emitted under the same name as `rows[i]`. */
  predicate Namesakes(rows: Rows, i: Id, j: Id)
    requires i in rows && j in rows
  {
    j != i && Servable(rows[j]) && Trim(rows[j].name, IsHyphen) == Trim(rows[i].name, IsHyphen)
  }

  lemma JudgeRow(ip: string -> bool, ports: S.Ports, t: Tunnel)
    requires TunnelRules.RowOk(ip, ports, t)
    ensures Judge(ip, ProxyOf(t)).Good? <==> Servable(t)
    ensures t.targetPort >= 0 && t.kind in {"http", "tcp"}
    ensures Servable(t) ==> Judge(ip, ProxyOf(t)).block == RowBlock(t)
    ensures Servable(t) ==> Judge(ip, ProxyOf(t)).block.name == Trim(t.name, IsHyphen)
  {
    JudgeMeaning(ip, ProxyOf(t));
    ServableMeans(ip, ports, t);
    RowHost(ip, ports, t);
  }

  /** What the lemmas below need of a way of judging: it agrees with `Servable`. */
  predicate JudgesRow(judge: Proxy -> Verdict, t: Tunnel) {
    var v := judge(ProxyOf(t));
    && (v.Good? <==> Servable(t))
    && t.targetPort >= 0 && t.kind in {"http", "tcp"}
    && (v.Good? ==> v.block == RowBlock(t) && v.block.name == Trim(t.name, IsHyphen))
  }

  predicate JudgesRows(judge: Proxy -> Verdict, rows: Rows) { forall i :: i in rows ==> JudgesRow(judge, rows[i]) }

  lemma RowsJudged(ip: string -> bool, ports: S.Ports, judge: Proxy -> Verdict, rows: Rows)
    requires TunnelRules.RowsOk(ip, ports, rows) && forall p :: judge(p) == Judge(ip, p)
    ensures JudgesRows(judge, rows)
  {
    forall i | i in rows ensures JudgesRow(judge, rows[i]) {
      assert TunnelRules.RowRule(ip, ports)(rows[i]);
      JudgeRow(ip, ports, rows[i]);
    }
  }

  /** `ps` are the proxies of `rows` in the order of a listing. */
  ghost predicate Indexed(ps: seq<Proxy>, rows: Rows, order: seq<Id>) {
    && |ps| == |order|
    && (forall k :: 0 <= k < |order| ==> order[k] in rows && ps[k] == ProxyOf(rows[order[k]]))
    && (forall i :: i in rows ==> exists k :: 0 <= k < |order| && order[k] == i)
  }

  lemma IndexedMember(ps: seq<Proxy>, rows: Rows, order: seq<Id>, i: Id)
    requires Indexed(ps, rows, order) && i in rows
    ensures ProxyOf(rows[i]) in ps
  {
    var k :| 0 <= k < |order| && order[k] == i;
    assert ps[k] in ps;
  }

  lemma IndexedRow(ps: seq<Proxy>, rows: Rows, order: seq<Id>, q: Proxy) returns (j: Id)
    requires Indexed(ps, rows, order) && q in ps
    ensures j in rows && q == ProxyOf(rows[j])
  {
    var m :| 0 <= m < |ps| && ps[m] == q;
    j := order[m];
  }

  lemma EmittedRow(judge: Proxy -> Verdict, ps: seq<Proxy>, rows: Rows, order: seq<Id>, i: Id)
    requires Indexed(ps, rows, order) && DistinctNames(ps) && TunnelRules.UniqueRows(rows)
    requires JudgesRows(judge, rows) && i in rows && Servable(rows[i])
    ensures RowBlock(rows[i]) in Scan(Seqs.Map(judge, StableSort(ps))).blocks <==>
            forall q :: q in ps && Rivals(judge, ProxyOf(rows[i]), q) ==> Less(rows[i].name, q.name)
  {
    var p := ProxyOf(rows[i]);
    IndexedMember(ps, rows, order, i);
    forall q | q in ps && judge(q).Good? && judge(q).block == judge(p).block ensures q == p {
      var j := IndexedRow(ps, rows, order, q);
      assert JudgesRow(judge, rows[i]) && JudgesRow(judge, rows[j]);
      if j != i { BlocksApart(rows[i], rows[j]); }
    }
    EmittedExactly(judge, ps, p);
  }

  lemma RivalRows(judge: Proxy -> Verdict, ps: seq<Proxy>, rows: Rows, order: seq<Id>, i: Id)
    requires Indexed(ps, rows, order) && i in rows
    ensures (forall q :: q in ps && Rivals(judge, ProxyOf(rows[i]), q) ==> Less(rows[i].name, q.name))
       <==> (forall j :: j in rows && Rivals(judge, ProxyOf(rows[i]), ProxyOf(rows[j])) ==>
               Less(rows[i].name, rows[j].name))
  {
    var p := ProxyOf(rows[i]);
    if forall q :: q in ps && Rivals(judge, p, q) ==> Less(p.name, q.name) {
      forall j | j in rows && Rivals(judge, p, ProxyOf(rows[j])) ensures Less(p.name, rows[j].name) {
        IndexedMember(ps, rows, order, j);
      }
    }
    if forall j :: j in rows && Rivals(judge, p, ProxyOf(rows[j])) ==> Less(p.name, rows[j].name) {
      forall q | q in ps && Rivals(judge, p, q) ensures Less(p.name, q.name) {
        var j := IndexedRow(ps, rows, order, q);
      }
    }
  }

  lemma RivalIsNamesake(judge: Proxy -> Verdict, rows: Rows, i: Id, j: Id)
    requires JudgesRows(judge, rows) && DistinctRowNames(rows)
    requires i in rows && j in rows && Servable(rows[i])
    ensures Rivals(judge, ProxyOf(rows[i]), ProxyOf(rows[j])) <==> Namesakes(rows, i, j)
  {
    assert ProxyOf(rows[i]).name == rows[i].name && ProxyOf(rows[j]).name == rows[j].name;
    assert JudgesRow(judge, rows[i]) && JudgesRow(judge, rows[j]);
  }

  lemma EmittedIndexed(judge: Proxy -> Verdict, ps: seq<Proxy>, rows: Rows, order: seq<Id>, i: Id)
    requires Indexed(ps, rows, order) && DistinctNames(ps) && TunnelRules.UniqueRows(rows) && DistinctRowNames(rows)
    requires JudgesRows(judge, rows) && i in rows && Servable(rows[i])
    ensures RowBlock(rows[i]) in Scan(Seqs.Map(judge, StableSort(ps))).blocks <==>
            forall j :: j in rows && Namesakes(rows, i, j) ==> Less(rows[i].name, rows[j].name)
  {
    EmittedRow(judge, ps, rows, order, i);
    RivalRows(judge, ps, rows, order, i);
    forall j | j in rows ensures Rivals(judge, ProxyOf(rows[i]), ProxyOf(rows[j])) <==> Namesakes(rows, i, j) {
      RivalIsNamesake(judge, rows, i, j);
    }
  }

  /** Exactly when a servable tunnel is configured: no servable namesake, up to edge hyphens, sorts
      before it. */
  lemma ServedExactly(ip: string -> bool, ports: S.Ports, rows: Rows, g: Gateway, order: seq<Id>, i: Id)
    requires ServedRows(ip, ports, rows, g, order) && i in rows && Servable(rows[i])
    ensures rows[i].targetPort >= 0 && (rows[i].kind != "http" ==> rows[i].remotePort >= 0)
    ensures RowBlock(rows[i]) in Scan(Judged(ip, StableSort(Served(rows, order)))).blocks <==>
            forall j :: j in rows && Namesakes(rows, i, j) ==> Less(rows[i].name, rows[j].name)
  {
    var judge := (p: Proxy) => Judge(ip, p);
    RowsJudged(ip, ports, judge, rows);
    EmittedServed(judge, rows, g, order, i);
  }

  lemma EmittedServed(judge: Proxy -> Verdict, rows: Rows, g: Gateway, order: seq<Id>, i: Id)
    requires Lists(order, rows) && Enabled(rows) && OneGateway(rows, g) && TunnelRules.UniqueRows(rows)
    requires JudgesRows(judge, rows) && i in rows && Servable(rows[i])
    ensures RowBlock(rows[i]) in Scan(Seqs.Map(judge, StableSort(Served(rows, order)))).blocks <==>
            forall j :: j in rows && Namesakes(rows, i, j) ==> Less(rows[i].name, rows[j].name)
  {
    UniqueNames(rows, g);
    ServedAt(rows, order);
    ServedDistinct(rows, order);
    EmittedIndexed(judge, Served(rows, order), rows, order, i);
  }

  // Runs that leave nothing to skip.

  /** The row's block, in its own columns, is among `blocks`. */
  predicate Configured(blocks: seq<Block>, t: Tunnel) {
    t.targetPort >= 0 && (t.kind != "http" ==> t.remotePort >= 0) && RowBlock(t) in blocks
  }

  lemma AllConfigured(ip: string -> bool, ports: S.Ports, rows: Rows, g: Gateway, order: seq<Id>)
    requires ServedRows(ip, ports, rows, g, order)
    requires (forall i :: i in rows ==> Servable(rows[i])) && DistinctTrimmed(rows)
    ensures forall i :: i in rows ==> Configured(Scan(Judged(ip, StableSort(Served(rows, order)))).blocks, rows[i])
  {
    forall i | i in rows ensures Configured(Scan(Judged(ip, StableSort(Served(rows, order)))).blocks, rows[i]) {
      ServedExactly(ip, ports, rows, g, order, i);
    }
  }

  /** After every sequential run in which no update blanks what its tunnel needs and no name of the
      gateway has an edge hyphen, with the port range within 65535: no warning, and every enabled
      tunnel has its block, with its own host, ports and domain, and there are no others. */
  lemma TidyRunServed(env: ServerRuns.Env, ops: seq<ServerRuns.Op>, g: Gateway, order: seq<Id>)
    requires ServerRuns.ValidEnv(env) && env.ports.max <= 65535
    requires ServerRuns.TidyRun(env, ServerRuns.EMPTY, ops, g)
    requires Lists(order, EnabledRows(ServerRuns.Run(env, ServerRuns.EMPTY, ops).tunnels, g))
    ensures var rows := EnabledRows(ServerRuns.Run(env, ServerRuns.EMPTY, ops).tunnels, g);
      var done := Scan(Judged(env.ip, StableSort(Served(rows, order))));
      && done.warnings == [] && |done.blocks| == |rows|
      && forall i :: i in rows ==> Configured(done.blocks, rows[i])
  {
    ServerRuns.TidyRunKeeps(env, ops, g);
    SequentialNoWarnings(env, ops, g, order);
    var db := ServerRuns.Run(env, ServerRuns.EMPTY, ops);
    TidyRows(env, db, g);
    ServerRuns.SequentialRules(env, ops);
    EnabledRowsShape(db.tunnels, g);
    AllConfigured(env.ip, env.ports, EnabledRows(db.tunnels, g), g, order);
  }

  /** And that is what frpc reads: the file, when it is TOML at all, holds exactly one block for every
      enabled tunnel of the gateway, the one with that tunnel's columns. */
  lemma TidyRunRead(env: ServerRuns.Env, ops: seq<ServerRuns.Op>, g: Gateway, order: seq<Id>, cfg: P.Config)
    requires ServerRuns.ValidEnv(env) && env.ports.max <= 65535 && P.Renderable(cfg)
    requires ServerRuns.TidyRun(env, ServerRuns.EMPTY, ops, g)
    requires Lists(order, EnabledRows(ServerRuns.Run(env, ServerRuns.EMPTY, ops).tunnels, g))
    ensures var rows := EnabledRows(ServerRuns.Run(env, ServerRuns.EMPTY, ops).tunnels, g);
      var file := RenderSpec(env.ip, InputFor(cfg, Served(rows, order)));
      && file.Rendered? && file.warnings == []
      && var read := RoundTrip.ReadConfig(file.text);
      && (read.Some? ==>
            && read.value.serverAddr == cfg.serverAddr && read.value.serverPort == cfg.serverPort
            && read.value.authToken == cfg.authToken && |read.value.blocks| == |rows|
            && forall i :: i in rows ==> Configured(read.value.blocks, rows[i]))
  {
    TidyRunServed(env, ops, g, order);
    var rows := EnabledRows(ServerRuns.Run(env, ServerRuns.EMPTY, ops).tunnels, g);
    ReadServed(env.ip, cfg, Served(rows, order));
  }

  lemma ReadServed(ip: string -> bool, cfg: P.Config, ps: seq<Proxy>)
    requires P.Renderable(cfg)
    ensures var done := Scan(Judged(ip, StableSort(ps)));
      var file := RenderSpec(ip, InputFor(cfg, ps));
      && file.Rendered? && file.warnings == done.warnings
      && var read := RoundTrip.ReadConfig(file.text);
      read.Some? ==> read.value == RoundTrip.FrpcConfig(cfg.serverAddr, cfg.serverPort, cfg.authToken, done.blocks)
  {
    RoundTrip.RenderRoundTrip(ip, InputFor(cfg, ps));
  }

  // Published tunnels.

  lemma {:induction false} PrefixLess(a: string, b: string)
    requires |a| < |b| && b[..|a|] == a
    ensures Less(a, b)
  {
    if a != "" {
      assert b[0] == a[0] && b[1..][..|a[1..]|] == a[1..];
      PrefixLess(a[1..], b[1..]);
    }
  }

  lemma HyphenFirst(n: string, m: string)
    requires NameRe(n) && n[0] != '-' && m != "" && m[0] == '-'
    ensures !Less(n, m)
  {
    assert IsNameChar(n[0]);
    assert Less(m, n);
    LessAsymmetric(m, n);
  }

  lemma HyphenLast(m: string)
    requires m != "" && m[0] != '-' && Trim(m, IsHyphen) != m
    ensures Less(Trim(m, IsHyphen), m)
  {
    assert TrimLeft(m, IsHyphen) == m;
    ProperPrefix(Trim(m, IsHyphen), m);
  }

  lemma ProperPrefix(n: string, m: string)
    requires |n| <= |m| && n == m[..|n|] && n != m
    ensures Less(n, m)
  {
    assert |n| != |m| by { assert m[..|m|] == m; }
    PrefixLess(n, m);
  }

  /** Of two names that differ in edge hyphens, where `n` has none, the other one sorts first
      exactly when it starts with a hyphen. */
  lemma HyphenOrder(n: string, m: string)
    requires NameRe(n) && m != "" && n != m
    requires n[0] != '-' && Trim(m, IsHyphen) == n
    ensures Less(n, m) <==> m[0] != '-'
  {
    if m[0] == '-' { HyphenFirst(n, m); } else { HyphenLast(m); }
  }

  /** Another servable tunnel of the gateway has this name but for hyphens, one of them in front. */
  predicate Shadowed(rows: Rows, i: Id)
    requires i in rows
  {
    exists j :: j in rows && Namesakes(rows, i, j) && rows[j].name != "" && rows[j].name[0] == '-'
  }

  /** A tunnel named by a slug, as publishing names them, is configured unless it is shadowed. */
  lemma SlugServed(ip: string -> bool, ports: S.Ports, rows: Rows, g: Gateway, order: seq<Id>, i: Id)
    requires ServedRows(ip, ports, rows, g, order) && i in rows && Servable(rows[i]) && IsSlug(rows[i].name)
    ensures rows[i].targetPort >= 0 && (rows[i].kind != "http" ==> rows[i].remotePort >= 0)
    ensures RowBlock(rows[i]) in Scan(Judged(ip, StableSort(Served(rows, order)))).blocks <==>
            !Shadowed(rows, i)
  {
    ServedExactly(ip, ports, rows, g, order, i);
    UniqueNames(rows, g);
    forall j | j in rows && Namesakes(rows, i, j)
      ensures rows[j].name != "" && (Less(rows[i].name, rows[j].name) <==> rows[j].name[0] != '-')
    {
      assert TunnelRules.RowRule(ip, ports)(rows[j]);
      SlugNamesake(ip, ports, rows[i].name, rows[j]);
    }
  }

  lemma SlugNamesake(ip: string -> bool, ports: S.Ports, n: string, t: Tunnel)
    requires IsSlug(n) && TunnelRules.RowOk(ip, ports, t) && t.name != n && Trim(t.name, IsHyphen) == Trim(n, IsHyphen)
    ensures t.name != "" && (Less(n, t.name) <==> t.name[0] != '-')
  {
    SlugEdges(n);
    HyphenOrder(n, t.name);
  }

  lemma SlugEdges(n: string)
    requires IsSlug(n)
    ensures NameRe(n) && n[0] != '-' && Trim(n, IsHyphen) == n
  {
    SlugIsStableName(n);
    TrimFixed(n, IsHyphen);
  }

  lemma HyphenLegal(n: string)
    requires NameRe(n) && IsSlugChar(n[|n| - 1])
    ensures TrimSpace("-" + n) == "-" + n && NameRe("-" + n)
  {
    TrimFixed("-" + n, IsSpace);
  }

  lemma HyphenStripped(n: string)
    requires n != "" && !IsHyphen(n[0]) && !IsHyphen(n[|n| - 1])
    ensures Trim("-" + n, IsHyphen) == n
  {
    TrimCut('-', n, IsHyphen);
    TrimFixed(n, IsHyphen);
    assert "-" + n == ['-'] + n;
  }

  lemma HyphenName(n: string)
    requires IsSlug(n)
    ensures TrimSpace(n) == n && NameRe(n)
    ensures var m := "-" + n; TrimSpace(m) == m && NameRe(m) && m != n && Trim(m, IsHyphen) == n
  {
    ServerPublish.SlugNames(n);
    HyphenLegal(n);
    HyphenStripped(n);
    assert |"-" + n| != |n|;
  }

  /** The same request under another name and domain. */
  function Renamed(input: S.CreateInput, name: string, domain: string): S.CreateInput {
    input.(name := name, domain := domain)
  }

  lemma RenamedKind(input: S.CreateInput, name: string, domain: string)
    ensures S.Kind(Renamed(input, name, domain)) == S.Kind(input)
    ensures S.KnownKind(Renamed(input, name, domain)) <==> S.KnownKind(input)
  {
    assert Renamed(input, name, domain).kind == input.kind;
  }

  lemma StillFree(rows: Rows, id: Id, t: Tunnel, name: string, domain: string)
    requires id !in rows && name != t.name && domain != t.domain
    requires !Database.NameTaken(rows, t.gateway, name) && !Database.DomainTaken(rows, domain)
    ensures !Database.NameTaken(rows[id := t], t.gateway, name) && !Database.DomainTaken(rows[id := t], domain)
  {
  }

  lemma RenamedAdmissible(ip: string -> bool, ports: S.Ports, db: Database.Db, after: Database.Db, input: S.CreateInput,
                          name: string, domain: string)
    requires TunnelRules.Admissible(ip, ports, db, input) && S.Kind(input) == "http"
    requires TrimSpace(name) == name && NameRe(name) && input.gateway in after.gateways
    requires !Database.NameTaken(after.tunnels, input.gateway, name)
    requires domain != "" && ValidDomain(domain) && !Database.DomainTaken(after.tunnels, domain)
    ensures TunnelRules.Admissible(ip, ports, after, Renamed(input, name, domain))
  {
    var other := Renamed(input, name, domain);
    TunnelRules.WellFormedParts(ip, input);
    TunnelRules.WellFormedParts(ip, other);
    RenamedKind(input, name, domain);
    TunnelRules.HttpAdmissible(ip, ports, after, other, name);
  }

  /** A creation without faults, its row described. */
  lemma Created(ip: string -> bool, ports: S.Ports, db: Database.Db, input: S.CreateInput, id: Id)
    returns (t: Tunnel, after: Database.Db)
    requires S.ValidPorts(ports) && TunnelRules.Admissible(ip, ports, db, input) && id !in db.tunnels
    ensures TunnelRules.AsAsked(ports, db.tunnels, input, t) && TunnelRules.RowOk(ip, ports, t)
    ensures S.CreateSpec(ip, ports, db, input, id, S.NO_FAULT) == (S.Ok(t), after)
    ensures after == db.(tunnels := db.tunnels[id := t], versions := Database.Bumped(db.versions, t.gateway))
  {
    TunnelRules.AdmitMeaning(ip, ports, db, input);
    TunnelRules.AdmittedRow(ip, ports, db, input);
    t := S.Admit(ip, ports, db, input).value;
    after := S.CreateSpec(ip, ports, db, input, id, S.NO_FAULT).1;
    ServerPublish.InsertOk(db, S.Admit(ip, ports, db, input), id);
  }

  /** An http creation under a name that is its own trimming. */
  lemma CreatedHttp(ip: string -> bool, ports: S.Ports, db: Database.Db, input: S.CreateInput, id: Id)
    returns (t: Tunnel, after: Database.Db)
    requires S.ValidPorts(ports) && TunnelRules.Admissible(ip, ports, db, input) && id !in db.tunnels
    requires S.Kind(input) == "http" && TrimSpace(input.name) == input.name
    ensures S.CreateSpec(ip, ports, db, input, id, S.NO_FAULT) == (S.Ok(t), after)
    ensures after.gateways == db.gateways && after.tunnels == db.tunnels[id := t]
    ensures t.gateway == input.gateway && t.name == input.name && t.kind == "http"
    ensures t.domain == input.domain && t.domain != "" && t.enabled == input.enabled.Or(true)
    ensures TunnelRules.RowOk(ip, ports, t)
  {
    t, after := Created(ip, ports, db, input, id);
    TunnelRules.HttpAdmissible(ip, ports, db, input, input.name);
  }

  lemma HyphenServable(t: Tunnel, t2: Tunnel, n: string)
    requires IsSlug(n) && t.name == n && t2.name == "-" + n
    requires t2.kind == "http" && t2.domain != ""
    ensures Servable(t2) && Trim(t2.name, IsHyphen) == Trim(t.name, IsHyphen) && t2.name[0] == '-'
  {
    SlugEdges(n);
    HyphenName(n);
  }

  lemma BothShadow(rows: Rows, g: Gateway, id: Id, id2: Id, t: Tunnel, t2: Tunnel, n: string)
    requires IsSlug(n) && t.name == n && t2.name == "-" + n && id != id2
    requires t.gateway == g && t2.gateway == g && t.enabled && t2.enabled && t2.kind == "http" && t2.domain != ""
    ensures var served := EnabledRows(rows[id := t][id2 := t2], g); id in served && Shadowed(served, id)
  {
    var served := EnabledRows(rows[id := t][id2 := t2], g);
    HyphenServable(t, t2, n);
    BothServed(rows, g, id, id2, t, t2);
    ShadowedBy(served, id, id2);
  }

  lemma BothServed(rows: Rows, g: Gateway, id: Id, id2: Id, t: Tunnel, t2: Tunnel)
    requires id != id2 && t.gateway == g && t2.gateway == g && t.enabled && t2.enabled
    ensures var served := EnabledRows(rows[id := t][id2 := t2], g);
      id in served && id2 in served && served[id] == t && served[id2] == t2
  {
  }

  lemma ShadowedBy(rows: Rows, i: Id, j: Id)
    requires i in rows && j in rows && j != i && Servable(rows[j])
    requires Trim(rows[j].name, IsHyphen) == Trim(rows[i].name, IsHyphen)
    requires rows[j].name != "" && rows[j].name[0] == '-'
    ensures Shadowed(rows, i)
  {
    assert Namesakes(rows, i, j);
  }

  /** The request again, under another free name and domain, is admitted too. */
  lemma CreatedRenamed(ip: string -> bool, ports: S.Ports, db: Database.Db, after: Database.Db, input: S.CreateInput,
                       id: Id, t: Tunnel, name: string, domain: string, id2: Id)
    returns (t2: Tunnel, after2: Database.Db)
    requires S.ValidPorts(ports) && TunnelRules.Admissible(ip, ports, db, input) && S.Kind(input) == "http"
    requires TrimSpace(name) == name && NameRe(name) && name != t.name && t.gateway == input.gateway
    requires id !in db.tunnels && id2 !in db.tunnels && id2 != id
    requires after.gateways == db.gateways && after.tunnels == db.tunnels[id := t]
    requires !Database.NameTaken(db.tunnels, input.gateway, name)
    requires domain != "" && ValidDomain(domain) && !Database.DomainTaken(db.tunnels, domain) && domain != t.domain
    ensures S.CreateSpec(ip, ports, after, Renamed(input, name, domain), id2, S.NO_FAULT) == (S.Ok(t2), after2)
    ensures after2.tunnels == db.tunnels[id := t][id2 := t2]
    ensures t2.gateway == input.gateway && t2.name == name && t2.kind == "http" && t2.domain != ""
    ensures t2.enabled == input.enabled.Or(true)
  {
    StillFree(db.tunnels, id, t, name, domain);
    RenamedAdmissible(ip, ports, db, after, input, name, domain);
    RenamedKind(input, name, domain);
    t2, after2 := CreatedHttp(ip, ports, after, Renamed(input, name, domain), id2);
  }

  /** Shadowing does happen: where a tunnel named by a slug can be created, one with a hyphen before
      that name can be created after it on the same gateway, and takes its place in `frpc.toml`. */
  lemma ShadowReachable(ip: string -> bool, ports: S.Ports, db: Database.Db, input: S.CreateInput, id: Id,
                        domain: string, id2: Id)
    returns (t: Tunnel, after: Database.Db, t2: Tunnel, after2: Database.Db)
    requires S.ValidPorts(ports) && TunnelRules.Admissible(ip, ports, db, input)
    requires S.Kind(input) == "http" && IsSlug(input.name)
    requires input.enabled.Or(true) && id !in db.tunnels && id2 !in db.tunnels && id != id2
    requires !Database.NameTaken(db.tunnels, input.gateway, "-" + input.name)
    requires domain != "" && ValidDomain(domain) && !Database.DomainTaken(db.tunnels, domain) && domain != input.domain
    ensures S.CreateSpec(ip, ports, db, input, id, S.NO_FAULT) == (S.Ok(t), after)
    ensures S.CreateSpec(ip, ports, after, Renamed(input, "-" + input.name, domain), id2, S.NO_FAULT) ==
            (S.Ok(t2), after2)
    ensures id in EnabledRows(after2.tunnels, input.gateway)
    ensures Shadowed(EnabledRows(after2.tunnels, input.gateway), id)
  {
    var m := "-" + input.name;
    HyphenName(input.name);
    t, after := CreatedHttp(ip, ports, db, input, id);
    t2, after2 := CreatedRenamed(ip, ports, db, after, input, id, t, m, domain, id2);
    BothShadow(db.tunnels, input.gateway, id, id2, t, t2, input.name);
  }

  // Any rows at all: concurrent service calls may leave namesakes.

  /** Row `j` comes before row `i` in the stable order of names. */
  predicate Ahead(rows: Rows, order: seq<Id>, j: Id, i: Id)
    requires i in rows && j in rows
  {
    || Less(rows[j].name, rows[i].name)
    || (rows[j].name == rows[i].name && exists a, b :: 0 <= a < b < |order| && order[a] == j && order[b] == i)
  }

  /** A good row, ahead of every other good one that would be emitted under its name. */
  predicate ChosenBy(judge: Proxy -> Verdict, rows: Rows, order: seq<Id>, f: Id)
    requires f in rows
  {
    && judge(ProxyOf(rows[f])).Good?
    && forall j :: j in rows && judge(ProxyOf(rows[j])).Good?
                   && judge(ProxyOf(rows[j])).block.name == judge(ProxyOf(rows[f])).block.name ==>
         !Ahead(rows, order, j, f)
  }

  lemma AheadIsBefore(ps: seq<Proxy>, rows: Rows, order: seq<Id>, c: nat, a: nat)
    requires Indexed(ps, rows, order) && Seqs.NoDuplicates(order) && c < |ps| && a < |ps|
    ensures Ahead(rows, order, order[c], order[a]) <==> Before(ps, c, a)
  {
    if Before(ps, c, a) && c < a { assert order[c] == order[c] && order[a] == order[a]; }
  }

  lemma ChosenLeads(judge: Proxy -> Verdict, ps: seq<Proxy>, rows: Rows, order: seq<Id>, a: nat)
    requires Indexed(ps, rows, order) && Seqs.NoDuplicates(order) && a < |ps|
    ensures ChosenBy(judge, rows, order, order[a]) <==> Leads(judge, ps, a)
  {
    forall c | 0 <= c < |ps| ensures Ahead(rows, order, order[c], order[a]) <==> Before(ps, c, a) {
      AheadIsBefore(ps, rows, order, c, a);
    }
    if Leads(judge, ps, a) {
      forall j | j in rows && judge(ProxyOf(rows[j])).Good?
                 && judge(ProxyOf(rows[j])).block.name == judge(ProxyOf(rows[order[a]])).block.name
        ensures !Ahead(rows, order, j, order[a])
      {
        var c :| 0 <= c < |order| && order[c] == j;
        assert ps[c] == ProxyOf(rows[j]);
      }
    }
  }

  lemma ChosenBlocks(judge: Proxy -> Verdict, ps: seq<Proxy>, rows: Rows, order: seq<Id>, b: Block)
    requires Indexed(ps, rows, order) && Seqs.NoDuplicates(order) && ByName(judge, ps)
    ensures b in Scan(Seqs.Map(judge, StableSort(ps))).blocks <==>
            exists f :: f in rows && ChosenBy(judge, rows, order, f) && judge(ProxyOf(rows[f])).block == b
  {
    EmittedIffLeads(judge, ps, b);
    if a: nat :| a < |ps| && Leads(judge, ps, a) && judge(ps[a]).block == b {
      ChosenLeads(judge, ps, rows, order, a);
      assert order[a] in rows;
    }
    if f :| f in rows && ChosenBy(judge, rows, order, f) && judge(ProxyOf(rows[f])).block == b {
      var a :| 0 <= a < |order| && order[a] == f;
      ChosenLeads(judge, ps, rows, order, a);
    }
  }

  /** A valid row that no valid row of the same sanitised name is ahead of. */
  predicate Chosen(ip: string -> bool, rows: Rows, order: seq<Id>, f: Id)
    requires f in rows
  {
    && RowValid(ip, rows[f])
    && forall j :: j in rows && RowValid(ip, rows[j])
                   && SanitizeName(rows[j].name) == SanitizeName(rows[f].name) ==>
         !Ahead(rows, order, j, f)
  }

  /** `f` is chosen, and its block is `b`. */
  predicate ChosenFor(ip: string -> bool, rows: Rows, order: seq<Id>, f: Id, b: Block) {
    f in rows && Chosen(ip, rows, order, f) && RowBlock(rows[f]) == b
  }

  /** A way of judging that accepts valid proxies, each for its own block under its sanitised name. */
  ghost predicate JudgesByValid(ip: string -> bool, judge: Proxy -> Verdict) {
    forall p :: && (judge(p).Good? <==> Valid(ip, p))
                && (Valid(ip, p) ==> judge(p).block == BlockOf(p) && judge(p).block.name == SanitizeName(p.name))
  }

  /** The same of rows, in their columns. */
  ghost predicate JudgesByColumns(ip: string -> bool, judge: Proxy -> Verdict) {
    forall t: Tunnel :: JudgesColumns(ip, judge, t)
  }

  predicate JudgesColumns(ip: string -> bool, judge: Proxy -> Verdict, t: Tunnel) {
    var v := judge(ProxyOf(t));
    && (v.Good? <==> RowValid(ip, t))
    && (RowValid(ip, t) ==> v.block == RowBlock(t) && v.block.name == SanitizeName(t.name))
  }

  lemma ColumnsJudged(ip: string -> bool, judge: Proxy -> Verdict)
    requires JudgesByValid(ip, judge)
    ensures JudgesByColumns(ip, judge)
  {
    forall t: Tunnel ensures JudgesColumns(ip, judge, t) { RowAsProxy(ip, t); }
  }

  lemma ChosenMeans(ip: string -> bool, judge: Proxy -> Verdict, rows: Rows, order: seq<Id>, f: Id)
    requires JudgesByColumns(ip, judge) && f in rows
    ensures ChosenBy(judge, rows, order, f) <==> Chosen(ip, rows, order, f)
    ensures Chosen(ip, rows, order, f) ==> judge(ProxyOf(rows[f])).block == RowBlock(rows[f])
  {
    assert JudgesColumns(ip, judge, rows[f]);
    forall j | j in rows ensures JudgesColumns(ip, judge, rows[j]) {}
  }

  lemma ServedIndexed(rows: Rows, order: seq<Id>)
    requires Lists(order, rows) && Enabled(rows)
    ensures Indexed(Served(rows, order), rows, order)
  {
    ServedAt(rows, order);
  }

  /** Exactly which blocks are emitted for any rows, unique or not: those of the chosen rows.  A row
      that is not chosen is configured only if the chosen one of its name has the very same block. */
  lemma ConfiguredExactly(ip: string -> bool, rows: Rows, order: seq<Id>, b: Block)
    requires Lists(order, rows) && Enabled(rows)
    ensures b in Scan(Judged(ip, StableSort(Served(rows, order)))).blocks <==>
            exists f :: ChosenFor(ip, rows, order, f, b)
  {
    var judge := JudgeIsValid(ip);
    ServedIndexed(rows, order);
    ConfiguredBy(ip, judge, Served(rows, order), rows, order, b);
  }

  lemma ConfiguredBy(ip: string -> bool, judge: Proxy -> Verdict, ps: seq<Proxy>, rows: Rows, order: seq<Id>, b: Block)
    requires JudgesByValid(ip, judge) && Indexed(ps, rows, order) && Seqs.NoDuplicates(order)
    ensures b in Scan(Seqs.Map(judge, StableSort(ps))).blocks <==> exists f :: ChosenFor(ip, rows, order, f, b)
  {
    ValidNames(ip, judge, ps);
    ChosenBlocks(judge, ps, rows, order, b);
    ColumnsJudged(ip, judge);
    if f :| f in rows && ChosenBy(judge, rows, order, f) && judge(ProxyOf(rows[f])).block == b {
      ChosenMeans(ip, judge, rows, order, f);
      assert ChosenFor(ip, rows, order, f, b);
    }
    if f :| ChosenFor(ip, rows, order, f, b) {
      ChosenMeans(ip, judge, rows, order, f);
      assert f in rows && ChosenBy(judge, rows, order, f) && judge(ProxyOf(rows[f])).block == b;
    }
  }

  lemma TwinsAhead(rows: Rows, j: Id, i: Id)
    requires rows.Keys == {j, i} && j != i && rows[j].name == rows[i].name
    ensures Lists([j, i], rows) && Ahead(rows, [j, i], j, i)
    ensures !Ahead(rows, [j, i], i, j) && !Ahead(rows, [j, i], j, j)
  {
    LessIrreflexive(rows[i].name);
    assert [j, i][0] == j && [j, i][1] == i;
  }

  lemma TwinsChosen(judge: Proxy -> Verdict, rows: Rows, j: Id, i: Id)
    requires rows.Keys == {j, i} && j != i && rows[j].name == rows[i].name
    requires judge(ProxyOf(rows[j])).Good? && judge(ProxyOf(rows[i])).Good?
    requires judge(ProxyOf(rows[j])).block.name == judge(ProxyOf(rows[i])).block.name
    ensures ChosenBy(judge, rows, [j, i], j) && !ChosenBy(judge, rows, [j, i], i)
  {
    TwinsAhead(rows, j, i);
  }

  lemma OnlyChosen(judge: Proxy -> Verdict, rows: Rows, order: seq<Id>, j: Id, i: Id, b: Block)
    requires rows.Keys == {j, i} && ChosenBy(judge, rows, order, j) && !ChosenBy(judge, rows, order, i)
    ensures (exists f :: f in rows && ChosenBy(judge, rows, order, f) && judge(ProxyOf(rows[f])).block == b) <==>
            b == judge(ProxyOf(rows[j])).block
  {
    assert forall f :: f in rows ==> f == j || f == i;
  }

  lemma TwinBlocks(judge: Proxy -> Verdict, ps: seq<Proxy>, rows: Rows, j: Id, i: Id, b: Block)
    requires rows.Keys == {j, i} && j != i && rows[j].name == rows[i].name
    requires judge(ProxyOf(rows[j])).Good? && judge(ProxyOf(rows[i])).Good?
    requires judge(ProxyOf(rows[j])).block.name == judge(ProxyOf(rows[i])).block.name
    requires Indexed(ps, rows, [j, i]) && ByName(judge, ps)
    ensures b in Scan(Seqs.Map(judge, StableSort(ps))).blocks <==> b == judge(ProxyOf(rows[j])).block
  {
    TwinsAhead(rows, j, i);
    TwinsChosen(judge, rows, j, i);
    OnlyChosen(judge, rows, [j, i], j, i, b);
    ChosenBlocks(judge, ps, rows, [j, i], b);
  }

  lemma ValidNames(ip: string -> bool, judge: Proxy -> Verdict, ps: seq<Proxy>)
    requires JudgesByValid(ip, judge)
    ensures ByName(judge, ps)
  {
    forall p, q | p in ps && q in ps ensures SameEmitted(judge, p, q) {}
  }

  lemma JudgeIsValid(ip: string -> bool) returns (judge: Proxy -> Verdict)
    ensures JudgesByValid(ip, judge) && judge == ((p: Proxy) => Judge(ip, p))
  {
    judge := (p: Proxy) => Judge(ip, p);
    forall p ensures && (judge(p).Good? <==> Valid(ip, p))
                     && (Valid(ip, p) ==> judge(p).block == BlockOf(p) && judge(p).block.name == SanitizeName(p.name)) {
      JudgeMeaning(ip, p);
    }
  }

  /** Why names alone do not decide it.  Two valid rows of one name, as two concurrent creations can
      leave them: the one listed later is skipped, and its block is missing unless it is the same. */
  lemma LaterTwinSkipped(ip: string -> bool, rows: Rows, j: Id, i: Id)
    requires rows.Keys == {j, i} && j != i && Enabled(rows) && rows[j].name == rows[i].name
    requires RowValid(ip, rows[j]) && RowValid(ip, rows[i])
    ensures Lists([j, i], rows)
    ensures RowBlock(rows[i]) in Scan(Judged(ip, StableSort(Served(rows, [j, i])))).blocks <==>
            RowBlock(rows[i]) == RowBlock(rows[j])
  {
    TwinsAhead(rows, j, i);
    var judge := JudgeIsValid(ip);
    ServedIndexed(rows, [j, i]);
    ValidNames(ip, judge, Served(rows, [j, i]));
    ColumnsJudged(ip, judge);
    assert JudgesColumns(ip, judge, rows[j]) && JudgesColumns(ip, judge, rows[i]);
    TwinBlocks(judge, Served(rows, [j, i]), rows, j, i, RowBlock(rows[i]));
  }

  lemma SlugRowValid(ip: string -> bool, ports: S.Ports, t: Tunnel)
    requires TunnelRules.RowOk(ip, ports, t) && IsSlug(t.name) && t.kind == "http" && t.domain != ""
    ensures RowValid(ip, t)
  {
    SlugEdges(t.name);
    ServableMeans(ip, ports, t);
  }

  lemma BothListed(rows: Rows, g: Gateway, i: Id, j: Id, t: Tunnel, u: Tunnel)
    requires t.gateway == g && u.gateway == g && t.enabled && u.enabled
    ensures EnabledRows(rows[i := t][j := u], g) == EnabledRows(rows, g)[i := t][j := u]
  {
  }

  /** A creation under a slug, and the row it leaves. */
  lemma CreatedSlug(ip: string -> bool, ports: S.Ports, db: Database.Db, input: S.CreateInput, id: Id)
    returns (t: Tunnel)
    requires S.ValidPorts(ports) && TunnelRules.Admissible(ip, ports, db, input) && id !in db.tunnels
    requires S.Kind(input) == "http" && IsSlug(input.name) && input.enabled.Or(true)
    ensures S.CreateSpec(ip, ports, db, input, id, S.NO_FAULT).0 == S.Ok(t)
    ensures t.gateway == input.gateway && t.name == input.name && t.enabled && RowValid(ip, t)
  {
    ServerPublish.SlugNames(input.name);
    var after;
    t, after := CreatedHttp(ip, ports, db, input, id);
    SlugRowValid(ip, ports, t);
  }

  /** How twins come about: two requests under one name, each admitted by the checks against the same
      database, and their statements overlapping.  Both rows stay, both valid, both listed. */
  lemma TwinsReachable(ip: string -> bool, ports: S.Ports, db: Database.Db, v: P.Server, a: S.CreateInput,
                       b: S.CreateInput, i: Id, j: Id, o: P.OpId, p: P.OpId)
    returns (t: Tunnel, u: Tunnel)
    requires S.ValidPorts(ports) && ServerRefines.Matches(db, v)
    requires TunnelRules.Admissible(ip, ports, db, a) && TunnelRules.Admissible(ip, ports, db, b)
    requires S.Kind(a) == "http" && S.Kind(b) == "http" && a.enabled.Or(true) && b.enabled.Or(true)
    requires IsSlug(a.name) && b.name == a.name && b.gateway == a.gateway
    requires i != j && ServerRefines.FreshId(v, i) && ServerRefines.FreshId(v, j) && v.rows.Keys <= v.inserted
    requires o != p && o !in v.ops && p !in v.ops
    ensures S.CreateSpec(ip, ports, db, a, i, S.NO_FAULT).0 == S.Ok(t)
    ensures S.CreateSpec(ip, ports, db, b, j, S.NO_FAULT).0 == S.Ok(u)
    ensures P.ServerRun(v, ServerRefines.Overlapping(o, p, i, j, t, u)).Some?
    ensures var rows := P.ServerRun(v, ServerRefines.Overlapping(o, p, i, j, t, u)).value.rows;
      EnabledRows(rows, a.gateway) == EnabledRows(v.rows, a.gateway)[i := t][j := u]
    ensures t.name == u.name && RowValid(ip, t) && RowValid(ip, u)
  {
    t := CreatedSlug(ip, ports, db, a, i);
    u := CreatedSlug(ip, ports, db, b, j);
    ServerRefines.OverlapRuns(v, o, p, i, j, t, u);
    BothListed(v.rows, a.gateway, i, j, t, u);
  }

  /** The whole way of a published tunnel, in the concurrent machine: at the step that answers "ok" to
      publish call `c`, if no later statement addressed the row before it was listed, what the found
      or started frpc read holds the row as created; and if that row is a valid proxy, the file,
      when it is TOML at all, has its block exactly when that is the block of the row chosen for its
      name: always when it is chosen itself. */
  lemma PublishedIsConfigured(ip: string -> bool, cfg: P.Config, s: P.State, e: P.AgentEvent, c: P.CallId)
    requires P.Reachable(cfg, s) && P.Renderable(cfg) && P.NextAgent(cfg, s.server, s.agent, e).Some?
    requires P.Returns(s.agent.core, P.NextAgent(cfg, s.server, s.agent, e).value.core, e)
    requires P.Outcome(s.agent.core, e).Some? && s.agent.core.phase.owner == P.Call(c) && c in s.agent.calls
    requires s.agent.calls[c].id !in P.Outcome(s.agent.core, e).value.changed
    ensures var p := P.Outcome(s.agent.core, e).value;
      var id := s.agent.calls[c].id;
      && P.NextAgent(cfg, s.server, s.agent, e).value.calls[c] == P.Ok(id, p)
      && id in s.server.born && id in p.rows && p.rows[id] == s.server.born[id].row
      && (RowValid(ip, p.rows[id]) ==>
            var b := RowBlock(p.rows[id]);
            var read := RoundTrip.ReadConfig(R.TextOf(ip, cfg)(p));
            read.Some? ==>
              && (b in read.value.blocks <==> exists f :: ChosenFor(ip, p.rows, p.order, f, b))
              && (Chosen(ip, p.rows, p.order, id) ==> b in read.value.blocks))
  {
    T.ReachableOutcome(cfg, s, e);
    var p := P.Outcome(s.agent.core, e).value;
    var id := s.agent.calls[c].id;
    if RowValid(ip, p.rows[id]) { ReadRow(ip, cfg, p, id); }
  }

  lemma ReadRow(ip: string -> bool, cfg: P.Config, p: P.Response, id: Id)
    requires P.Renderable(cfg) && Lists(p.order, p.rows) && Enabled(p.rows) && id in p.rows
    requires RowValid(ip, p.rows[id])
    ensures var b := RowBlock(p.rows[id]);
      var read := RoundTrip.ReadConfig(R.TextOf(ip, cfg)(p));
      read.Some? ==>
        && (b in read.value.blocks <==> exists f :: ChosenFor(ip, p.rows, p.order, f, b))
        && (Chosen(ip, p.rows, p.order, id) ==> b in read.value.blocks)
  {
    var b := RowBlock(p.rows[id]);
    ReadResponse(ip, cfg, p);
    ConfiguredExactly(ip, p.rows, p.order, b);
    assert Chosen(ip, p.rows, p.order, id) ==> ChosenFor(ip, p.rows, p.order, id, b);
  }

  /** What frpc reads from the file of a response: the accepted blocks, or no TOML. */
  lemma ReadResponse(ip: string -> bool, cfg: P.Config, p: P.Response)
    requires P.Renderable(cfg)
    ensures var accepted := Scan(Judged(ip, StableSort(Served(p.rows, p.order)))).blocks;
      RoundTrip.ReadConfig(R.TextOf(ip, cfg)(p)) ==
      if && RoundTrip.Printable(cfg.serverAddr) && RoundTrip.Printable(cfg.authToken)
         && RoundTrip.PrintableBlocks(accepted)
      then Some(RoundTrip.FrpcConfig(cfg.serverAddr, cfg.serverPort, cfg.authToken, accepted))
      else None
  {
    TextOfResponse(ip, cfg, p);
    RoundTrip.RenderRoundTrip(ip, InputFor(cfg, Served(p.rows, p.order)));
  }

  // Hosts that break the file.

  lemma {:induction false} TrimLeftAppend(h: string, c: char)
    requires IsSpace(c)
    ensures TrimLeft(h + [c], IsSpace) == if TrimLeft(h, IsSpace) == "" then "" else TrimLeft(h, IsSpace) + [c]
  {
    if h == "" {
      assert h + [c] == [c];
    } else {
      assert (h + [c])[1..] == h[1..] + [c];
      if IsSpace(h[0]) { TrimLeftAppend(h[1..], c); }
    }
  }

  lemma TrimSpaceAppend(h: string, c: char)
    requires IsSpace(c)
    ensures TrimSpace(h + [c]) == TrimSpace(h)
  {
    TrimLeftAppend(h, c);
    var t := TrimLeft(h, IsSpace);
    if t != "" { assert (t + [c])[..|t|] == t; }
  }

  lemma SameHost(ip: string -> bool, a: string, b: string)
    requires TrimSpace(a) == TrimSpace(b)
    ensures ValidHost(ip, a) <==> ValidHost(ip, b)
  {
  }

  lemma ReturnIsUnprintable(h: string)
    ensures !RoundTrip.Printable(h + ['\r'])
  {
    var s := h + ['\r'];
    assert s[|h|] == '\r' && Toml.IsControl('\r');
    assert '\r' in s;
  }

  /** Both sides trim a host before checking it but keep and print it untrimmed: a trailing
      carriage return passes every check and makes the rendered file unreadable. */
  lemma CarriageReturnPasses(ip: string -> bool, h: string)
    ensures ValidHost(ip, h + ['\r']) <==> ValidHost(ip, h)
    ensures !RoundTrip.Printable(h + ['\r'])
  {
    TrimSpaceAppend(h, '\r');
    SameHost(ip, h + ['\r'], h);
    ReturnIsUnprintable(h);
  }

  lemma UnprintableBlock(bs: seq<Block>, b: Block)
    requires b in bs && !RoundTrip.Printable(b.localIP)
    ensures !RoundTrip.PrintableBlocks(bs)
  {
    var k :| 0 <= k < |bs| && bs[k] == b;
    assert !RoundTrip.PrintableBlock(bs[k]);
  }

  lemma FileBroken(ip: string -> bool, input: RenderInput, b: Block)
    requires RenderSpec(ip, input).Rendered? && !RoundTrip.Printable(b.localIP)
    requires b in Scan(Judged(ip, StableSort(input.proxies))).blocks
    ensures RoundTrip.ReadConfig(RenderSpec(ip, input).text) == None
  {
    UnprintableBlock(Scan(Judged(ip, StableSort(input.proxies))).blocks, b);
    RoundTrip.RenderRoundTrip(ip, input);
  }

  /** One configured tunnel with such a host takes every tunnel of its gateway down with it: the
      whole file is no TOML. */
  lemma UnprintableHostBreaksFile(ip: string -> bool, input: RenderInput, t: Tunnel)
    requires RenderSpec(ip, input).Rendered? && !RoundTrip.Printable(t.targetHost)
    requires t.targetPort >= 0 && (t.kind != "http" ==> t.remotePort >= 0)
    requires RowBlock(t) in Scan(Judged(ip, StableSort(input.proxies))).blocks
    ensures RoundTrip.ReadConfig(RenderSpec(ip, input).text) == None
  {
    FileBroken(ip, input, RowBlock(t));
  }
}
