/** What the tunnel service answers and stores: request field by request field, column by column. */
module TunnelLaws {
  import opened Options
  import opened Data
  import Database
  import Rules
  import opened Text
  import TunnelRules
  import opened TunnelService

  predicate NameFree(rows: Rows, g: Gateway, name: string) {
    forall i :: i in rows && rows[i].gateway == g ==> rows[i].name != name
  }

  predicate DomainFree(rows: Rows, domain: string) { forall i :: i in rows ==> rows[i].domain != domain }

  predicate PortFree(rows: Rows, port: int) { forall i :: i in rows ==> rows[i].remotePort != port }

  /** The port a tcp tunnel gets: the one asked for, or without one the least free one of the range. */
  predicate PortFor(rows: Rows, ports: Ports, asked: int, p: int) {
    if asked != 0 then p == asked
    else ports.min <= p <= ports.max && PortFree(rows, p) && forall q :: ports.min <= q < p ==> !PortFree(rows, q)
  }

  /** `after` is `before` with row `t` stored under `id` and the version of its gateway one higher. */
  predicate Stored(before: Database.Db, after: Database.Db, id: Id, t: Tunnel) {
    && after.tunnels == before.tunnels[id := t]
    && after.versions == before.versions[t.gateway := if t.gateway in before.versions
                                                      then before.versions[t.gateway] + 1 else 1]
    && after.gateways == before.gateways && after.health == before.health && after.alerts == before.alerts
  }

  lemma Frees(rows: Rows, g: Gateway, name: string, domain: string, port: int)
    ensures NameFree(rows, g, name) <==> !Database.NameTaken(rows, g, name)
    ensures domain != "" ==> (DomainFree(rows, domain) <==> !Database.DomainTaken(rows, domain))
    ensures port != 0 ==> (PortFree(rows, port) <==> !Database.PortTaken(rows, port))
  {
  }

  lemma PortsFree(rows: Rows, ports: Ports)
    requires ValidPorts(ports)
    ensures forall p :: ports.min <= p <= ports.max ==> (PortFree(rows, p) <==> !Database.PortTaken(rows, p))
  {
    forall p | ports.min <= p <= ports.max ensures PortFree(rows, p) <==> !Database.PortTaken(rows, p) {
      Frees(rows, "", "", "", p);
    }
  }

  // Create.

  lemma InsertStores(db: Database.Db, row: Result<Tunnel>, id: Id)
    requires id !in db.tunnels
    ensures var (r, after) := Insert(db, row, id, NO_FAULT);
      r == row && if row.Ok? then Stored(db, after, id, row.value) else after == db
  {
  }

  lemma RefusedAs(ip: string -> bool, db: Database.Db, input: CreateInput, kind: string, name: string)
    requires Rules.ToLower(TrimSpace(input.kind)) == kind && TrimSpace(input.name) == name
    ensures Refusal(ip, db, input) ==
      if input.gateway !in db.gateways then Some(NotFound)
      else if !(kind in {"http", "tcp"} && Rules.NameRe(name)
                && Rules.ValidHost(ip, input.targetHost) && 1 <= input.targetPort <= 65535) then Some(BadRequest)
      else if !NameFree(db.tunnels, input.gateway, name) then Some(Conflict)
      else None
  {
    Frees(db.tunnels, input.gateway, name, "", 0);
  }

  /** The row of an admitted request, from the parts of its form. */
  lemma AdmittedAs(ip: string -> bool, ports: Ports, db: Database.Db, input: CreateInput, kind: string, name: string)
    requires Rules.ToLower(TrimSpace(input.kind)) == kind && TrimSpace(input.name) == name
    ensures var claim := Claim(db.tunnels, ports, kind, input.domain, input.remotePort);
      Admit(ip, ports, db, input) ==
      if input.gateway !in db.gateways then Err(NotFound)
      else if !(kind in {"http", "tcp"} && Rules.NameRe(name)
                && Rules.ValidHost(ip, input.targetHost) && 1 <= input.targetPort <= 65535) then Err(BadRequest)
      else if !NameFree(db.tunnels, input.gateway, name) then Err(Conflict)
      else if claim.Err? then Err(claim.error)
      else Ok(Tunnel(input.gateway, name, kind, input.targetHost, input.targetPort, claim.value.0, claim.value.1,
                     input.enabled != Some(false), input.expires))
  {
    RefusedAs(ip, db, input, kind, name);
  }

  lemma TcpClaim(rows: Rows, ports: Ports, domain: string, port: int)
    requires ValidPorts(ports)
    ensures var c := Claim(rows, ports, "tcp", domain, port);
      && (c.Ok? <==> if port == 0 then exists p :: ports.min <= p <= ports.max && PortFree(rows, p)
                     else 1 <= port <= 65535 && PortFree(rows, port))
      && (c.Ok? ==> c.value.0 == "" && PortFor(rows, ports, port, c.value.1))
      && (c.Err? ==> c.error == if port == 0 || 1 <= port <= 65535 then Conflict else BadRequest)
  {
    TunnelRules.ClaimMeaning(rows, ports, "tcp", domain, port);
    PortsFree(rows, ports);
    Frees(rows, "", "", "", port);
  }

  lemma HttpClaim(rows: Rows, ports: Ports, domain: string, port: int)
    ensures var c := Claim(rows, ports, "http", domain, port);
      && (c.Ok? <==> domain != "" && Rules.ValidDomain(domain) && DomainFree(rows, domain))
      && (c.Ok? ==> c.value == (domain, 0))
      && (c.Err? ==> c.error == if domain != "" && Rules.ValidDomain(domain) then Conflict else BadRequest)
  {
    TunnelRules.ClaimMeaning(rows, ports, "http", domain, port);
    Frees(rows, "", "", domain, 0);
  }

  /** Exactly which tcp tunnels are created, and with which row: the port asked for, or the least free
      one of the range; no domain; enabled unless the request says otherwise. */
  lemma TcpCreated(ip: string -> bool, ports: Ports, db: Database.Db, input: CreateInput, id: Id)
    requires ValidPorts(ports) && input.gateway in db.gateways && id !in db.tunnels
    requires Rules.ToLower(TrimSpace(input.kind)) == "tcp"
    ensures var (r, after) := CreateSpec(ip, ports, db, input, id, NO_FAULT);
      var name := TrimSpace(input.name);
      && (r.Ok? <==>
            && Rules.NameRe(name) && NameFree(db.tunnels, input.gateway, name)
            && Rules.ValidHost(ip, input.targetHost) && 1 <= input.targetPort <= 65535
            && (if input.remotePort == 0 then exists p :: ports.min <= p <= ports.max && PortFree(db.tunnels, p)
                else 1 <= input.remotePort <= 65535 && PortFree(db.tunnels, input.remotePort)))
      && (r.Ok? ==>
            && r.value == Tunnel(input.gateway, name, "tcp", input.targetHost, input.targetPort, "",
                                 r.value.remotePort, input.enabled != Some(false), input.expires)
            && PortFor(db.tunnels, ports, input.remotePort, r.value.remotePort)
            && Stored(db, after, id, r.value))
      && (r.Err? ==> after == db)
  {
    AdmittedAs(ip, ports, db, input, "tcp", TrimSpace(input.name));
    TcpClaim(db.tunnels, ports, input.domain, input.remotePort);
    InsertStores(db, Admit(ip, ports, db, input), id);
  }

  /** Exactly which http tunnels are created, and with which row: the domain asked for and no port. */
  lemma HttpCreated(ip: string -> bool, ports: Ports, db: Database.Db, input: CreateInput, id: Id)
    requires input.gateway in db.gateways && id !in db.tunnels
    requires Rules.ToLower(TrimSpace(input.kind)) == "http"
    ensures var (r, after) := CreateSpec(ip, ports, db, input, id, NO_FAULT);
      var name := TrimSpace(input.name);
      && (r.Ok? <==>
            && Rules.NameRe(name) && NameFree(db.tunnels, input.gateway, name)
            && Rules.ValidHost(ip, input.targetHost) && 1 <= input.targetPort <= 65535
            && input.domain != "" && Rules.ValidDomain(input.domain) && DomainFree(db.tunnels, input.domain))
      && (r.Ok? ==>
            && r.value == Tunnel(input.gateway, name, "http", input.targetHost, input.targetPort, input.domain, 0,
                                 input.enabled != Some(false), input.expires)
            && Stored(db, after, id, r.value))
      && (r.Err? ==> after == db)
  {
    AdmittedAs(ip, ports, db, input, "http", TrimSpace(input.name));
    HttpClaim(db.tunnels, ports, input.domain, input.remotePort);
    InsertStores(db, Admit(ip, ports, db, input), id);
  }

  /** Which error a refused creation gets.  An unknown gateway comes before everything; then the form
      of the request; then the name; and last what the type needs, its form before its freedom. */
  lemma CreateRefused(ip: string -> bool, ports: Ports, db: Database.Db, input: CreateInput, id: Id, fault: Fault)
    requires ValidPorts(ports)
    ensures var kind, name := Rules.ToLower(TrimSpace(input.kind)), TrimSpace(input.name);
      var formed := kind in {"http", "tcp"} && Rules.NameRe(name)
                    && Rules.ValidHost(ip, input.targetHost) && 1 <= input.targetPort <= 65535;
      var needFormed := if kind == "http" then input.domain != "" && Rules.ValidDomain(input.domain)
                        else input.remotePort == 0 || 1 <= input.remotePort <= 65535;
      var needFree := if kind == "http" then DomainFree(db.tunnels, input.domain)
                      else if input.remotePort != 0 then PortFree(db.tunnels, input.remotePort)
                      else exists p :: ports.min <= p <= ports.max && PortFree(db.tunnels, p);
      var (r, after) := CreateSpec(ip, ports, db, input, id, fault);
      && (r == Err(NotFound) <==> input.gateway !in db.gateways)
      && (input.gateway in db.gateways && !formed ==> r == Err(BadRequest))
      && (input.gateway in db.gateways && formed ==>
            var nameFree := NameFree(db.tunnels, input.gateway, name);
            && (r == Err(BadRequest) <==> nameFree && !needFormed)
            && (r == Err(Conflict) <==> !nameFree || (needFormed && !needFree)))
      && (r.Err? && r.error != Internal ==> after == db)
  {
    var kind := Rules.ToLower(TrimSpace(input.kind));
    AdmittedAs(ip, ports, db, input, kind, TrimSpace(input.name));
    TcpClaim(db.tunnels, ports, input.domain, input.remotePort);
    HttpClaim(db.tunnels, ports, input.domain, input.remotePort);
    InsertAnswers(db, Admit(ip, ports, db, input), id, fault);
  }

  lemma InsertAnswers(db: Database.Db, row: Result<Tunnel>, id: Id, fault: Fault)
    ensures var (r, after) := Insert(db, row, id, fault);
      if row.Err? then r == row && after == db else r.Ok? || r == Err(Internal)
  {
  }

  /** What a failing statement leaves of an admitted creation.  A failed INSERT leaves nothing; after a
      failed bump the answer is an error all the same, though the tunnel is there. */
  lemma CreateFaults(ip: string -> bool, ports: Ports, db: Database.Db, input: CreateInput, id: Id,
                     bump: Database.BumpFault)
    requires id !in db.tunnels && CreateSpec(ip, ports, db, input, id, NO_FAULT).0.Ok?
    ensures var (r0, after0) := CreateSpec(ip, ports, db, input, id, NO_FAULT);
      var (r, after) := CreateSpec(ip, ports, db, input, id, Fault(false, bump));
      && CreateSpec(ip, ports, db, input, id, Fault(true, bump)) == (Err(Internal), db)
      && r == (if bump.BumpOk? then r0 else Err(Internal))
      && id in after.tunnels && after.tunnels[id] == r0.value
      && after == if bump.BumpLost? then after0.(versions := db.versions) else after0
  {
    InsertFaults(db, Admit(ip, ports, db, input), id, bump);
  }

  lemma InsertFaults(db: Database.Db, row: Result<Tunnel>, id: Id, bump: Database.BumpFault)
    requires id !in db.tunnels && row.Ok?
    ensures var (r0, after0) := Insert(db, row, id, NO_FAULT);
      var (r, after) := Insert(db, row, id, Fault(false, bump));
      && r0 == row
      && Insert(db, row, id, Fault(true, bump)) == (Err(Internal), db)
      && r == (if bump.BumpOk? then r0 else Err(Internal))
      && id in after.tunnels && after.tunnels[id] == row.value
      && after == if bump.BumpLost? then after0.(versions := db.versions) else after0
  {
  }

  // Update.

  /** The patch's domain and port are good for tunnel `t`: blank, or well-formed and its own or free. */
  predicate DomainFits(rows: Rows, t: Tunnel, d: Option<string>) {
    d.Some? && d.value != "" ==> Rules.ValidDomain(d.value) && (d.value == t.domain || DomainFree(rows, d.value))
  }

  predicate PortFits(rows: Rows, t: Tunnel, p: Option<int>) {
    p.Some? && p.value != 0 ==> 1 <= p.value <= 65535 && (p.value == t.remotePort || PortFree(rows, p.value))
  }

  lemma PatchFits(ip: string -> bool, rows: Rows, t: Tunnel, u: Database.Patch)
    ensures CheckPatch(ip, rows, t, u).None? <==>
            && (u.targetHost.Some? ==> Rules.ValidHost(ip, u.targetHost.value))
            && (u.targetPort.Some? ==> 1 <= u.targetPort.value <= 65535)
            && DomainFits(rows, t, u.domain) && PortFits(rows, t, u.remotePort)
  {
    TunnelRules.UpdateErrors(ip, rows, t, u);
    Frees(rows, "", "", u.domain.Or(""), u.remotePort.Or(0));
  }

  /** `now` has the five columns a patch may set from the patch where it sets them and from `was`
      where it does not, and every other column from `was`. */
  predicate ColumnsPatched(was: Tunnel, u: Database.Patch, now: Tunnel) {
    && now.enabled == (if u.enabled.Some? then u.enabled.value else was.enabled)
    && now.targetHost == (if u.targetHost.Some? then u.targetHost.value else was.targetHost)
    && now.targetPort == (if u.targetPort.Some? then u.targetPort.value else was.targetPort)
    && now.domain == (if u.domain.Some? then u.domain.value else was.domain)
    && now.remotePort == (if u.remotePort.Some? then u.remotePort.value else was.remotePort)
    && now.gateway == was.gateway && now.name == was.name && now.kind == was.kind && now.expires == was.expires
  }

  /** Exactly which updates are accepted, and what they leave: the patched row under the same id, every
      other row as it was, and the version one higher. */
  lemma UpdateExactly(ip: string -> bool, db: Database.Db, id: Id, u: Database.Patch)
    requires id in db.tunnels
    ensures var (r, after) := UpdateSpec(ip, db, id, u, NO_FAULT);
      && (r.Ok? <==>
            && (u.targetHost.Some? ==> Rules.ValidHost(ip, u.targetHost.value))
            && (u.targetPort.Some? ==> 1 <= u.targetPort.value <= 65535)
            && DomainFits(db.tunnels, db.tunnels[id], u.domain) && PortFits(db.tunnels, db.tunnels[id], u.remotePort))
      && (r.Ok? ==> ColumnsPatched(db.tunnels[id], u, r.value) && Stored(db, after, id, r.value))
      && (r.Err? ==> after == db)
  {
    PatchFits(ip, db.tunnels, db.tunnels[id], u);
    RewriteStores(db, CheckPatch(ip, db.tunnels, db.tunnels[id], u), id, u);
  }

  lemma RewriteStores(db: Database.Db, refused: Option<Error>, id: Id, u: Database.Patch)
    requires id in db.tunnels
    ensures var (r, after) := Rewrite(db, refused, id, u, NO_FAULT);
      && (r.Ok? <==> refused.None?)
      && (r.Ok? ==> ColumnsPatched(db.tunnels[id], u, r.value) && Stored(db, after, id, r.value))
      && (r.Err? ==> after == db)
  {
  }

  /** Turning a tunnel off takes it out of what the gateway is served, turning it on puts it in, and
      an update that does not mention the switch does neither; no other tunnel comes or goes. */
  lemma UpdateServes(ip: string -> bool, db: Database.Db, id: Id, u: Database.Patch)
    requires id in db.tunnels && UpdateSpec(ip, db, id, u, NO_FAULT).0.Ok?
    ensures var t, after := db.tunnels[id], UpdateSpec(ip, db, id, u, NO_FAULT).1;
      && (id in EnabledRows(after.tunnels, t.gateway) <==>
            if u.enabled.Some? then u.enabled.value else id in EnabledRows(db.tunnels, t.gateway))
      && forall g, i :: i != id || g != t.gateway ==>
           (i in EnabledRows(after.tunnels, g) <==> i in EnabledRows(db.tunnels, g))
           && (i in EnabledRows(db.tunnels, g) ==> EnabledRows(after.tunnels, g)[i] == EnabledRows(db.tunnels, g)[i])
  {
    UpdateExactly(ip, db, id, u);
  }

  /** An update of an unknown tunnel, and one whose statements fail. */
  lemma UpdateFaults(ip: string -> bool, db: Database.Db, id: Id, u: Database.Patch, bump: Database.BumpFault)
    ensures id !in db.tunnels ==> UpdateSpec(ip, db, id, u, Fault(false, bump)) == (Err(NotFound), db)
    ensures id in db.tunnels && UpdateSpec(ip, db, id, u, NO_FAULT).0.Ok? ==>
      var (r0, after0) := UpdateSpec(ip, db, id, u, NO_FAULT);
      var (r, after) := UpdateSpec(ip, db, id, u, Fault(false, bump));
      && UpdateSpec(ip, db, id, u, Fault(true, bump)) == (Err(Internal), db)
      && r == (if bump.BumpOk? then r0 else Err(Internal))
      && after == if bump.BumpLost? then after0.(versions := db.versions) else after0
  {
    if id in db.tunnels { RewriteFaults(db, CheckPatch(ip, db.tunnels, db.tunnels[id], u), id, u, bump); }
  }

  lemma RewriteFaults(db: Database.Db, refused: Option<Error>, id: Id, u: Database.Patch, bump: Database.BumpFault)
    requires id in db.tunnels
    ensures Rewrite(db, refused, id, u, NO_FAULT).0.Ok? ==>
      var (r0, after0) := Rewrite(db, refused, id, u, NO_FAULT);
      var (r, after) := Rewrite(db, refused, id, u, Fault(false, bump));
      && Rewrite(db, refused, id, u, Fault(true, bump)) == (Err(Internal), db)
      && r == (if bump.BumpOk? then r0 else Err(Internal))
      && after == if bump.BumpLost? then after0.(versions := db.versions) else after0
  {
  }

  // Delete.

  /** A deletion takes away the tunnel and its health row, touches no other row, raises the version of
      the tunnel's gateway by one, and leaves the events; an unknown tunnel is an error. */
  lemma DeleteExactly(db: Database.Db, id: Id, bump: Database.BumpFault)
    ensures id !in db.tunnels ==> DeleteSpec(db, id, Fault(false, bump)) == (Some(NotFound), db)
    ensures id in db.tunnels ==>
      var g := db.tunnels[id].gateway;
      var (r, after) := DeleteSpec(db, id, Fault(false, bump));
      && DeleteSpec(db, id, Fault(true, bump)) == (Some(Internal), db)
      && r == (if bump.BumpOk? then None else Some(Internal))
      && (forall i :: i in after.tunnels <==> i in db.tunnels && i != id)
      && (forall i :: i in after.tunnels ==> after.tunnels[i] == db.tunnels[i])
      && (forall i :: i in after.health <==> i in db.health && i != id)
      && (forall i :: i in after.health ==> after.health[i] == db.health[i])
      && after.versions == (if bump.BumpLost? then db.versions
                            else db.versions[g := if g in db.versions then db.versions[g] + 1 else 1])
      && after.gateways == db.gateways && after.alerts == db.alerts
  {
  }
}
