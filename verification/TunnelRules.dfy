/** What the tunnel service's operations guarantee, one operation at a time. */
module TunnelRules {
  import opened Options
  import opened Data
  import Database
  import Janitor
  import Rules
  import opened Text
  import opened TunnelService

  /** The rules every stored row meets.  A port taken from the configured range may exceed 65535,
      and an update may have blanked the domain or the port. */
  predicate RowOk(ip: string -> bool, ports: Ports, t: Tunnel) {
    && t.kind in {"http", "tcp"}
    && Rules.NameRe(t.name)
    && Rules.ValidHost(ip, t.targetHost) && Rules.ValidPort(t.targetPort)
    && (t.domain == "" || Rules.ValidDomain(t.domain))
    && (t.remotePort == 0 || Rules.ValidPort(t.remotePort) || ports.min <= t.remotePort <= ports.max)
  }

  predicate EveryRow(rows: Rows, rule: Tunnel -> bool) { forall i :: i in rows ==> rule(rows[i]) }

  function RowRule(ip: string -> bool, ports: Ports): Tunnel -> bool { t => RowOk(ip, ports, t) }

  predicate RowsOk(ip: string -> bool, ports: Ports, rows: Rows) { EveryRow(rows, RowRule(ip, ports)) }

  /** Two tunnels share no name on one gateway, no domain and no remote port. */
  predicate Apart(a: Tunnel, b: Tunnel) {
    && !(a.gateway == b.gateway && a.name == b.name)
    && !(a.domain != "" && a.domain == b.domain)
    && !(a.remotePort != 0 && a.remotePort == b.remotePort)
  }

  predicate UniqueRows(rows: Rows) {
    forall i, j :: i in rows && j in rows && i != j ==> Apart(rows[i], rows[j])
  }

  // Create.

  /** The exact conditions under which `Create` accepts a request. */
  predicate Admissible(ip: string -> bool, ports: Ports, db: Database.Db, input: CreateInput) {
    && input.gateway in db.gateways
    && !Malformed(ip, input)
    && !Database.NameTaken(db.tunnels, input.gateway, TrimSpace(input.name))
    && (Kind(input) == "http" ==>
          input.domain != "" && Rules.ValidDomain(input.domain) && !Database.DomainTaken(db.tunnels, input.domain))
    && (Kind(input) != "http" && input.remotePort != 0 ==>
          Rules.ValidPort(input.remotePort) && !Database.PortTaken(db.tunnels, input.remotePort))
    && (Kind(input) != "http" && input.remotePort == 0 ==>
          !Exhausted(db.tunnels, ports.min, ports.max))
  }

  lemma ClaimMeaning(rows: Rows, ports: Ports, kind: string, domain: string, port: int)
    ensures var c := Claim(rows, ports, kind, domain, port);
      && (kind == "http" ==>
            (c.Ok? <==> domain != "" && Rules.ValidDomain(domain) && !Database.DomainTaken(rows, domain))
            && (c.Ok? ==> c.value == (domain, 0)))
      && (kind != "http" && port != 0 ==>
            (c.Ok? <==> Rules.ValidPort(port) && !Database.PortTaken(rows, port)) && (c.Ok? ==> c.value == ("", port)))
      && (kind != "http" && port == 0 ==>
            (c.Ok? <==> !Exhausted(rows, ports.min, ports.max))
            && (c.Ok? ==> c.value.0 == "" && LeastFree(rows, ports, c.value.1)))
  {
    var a := Allocate(rows, ports.min, ports.max);
    assert a.Ok? ==> !Database.PortTaken(rows, a.value);
  }

  lemma AdmitMeaning(ip: string -> bool, ports: Ports, db: Database.Db, input: CreateInput)
    ensures Admit(ip, ports, db, input).Ok? <==> Admissible(ip, ports, db, input)
  {
    ClaimMeaning(db.tunnels, ports, Kind(input), input.domain, input.remotePort);
  }

  lemma WellFormedParts(ip: string -> bool, input: CreateInput)
    ensures !Malformed(ip, input) <==>
            && KnownKind(input) && Rules.NameRe(TrimSpace(input.name))
            && Rules.ValidHost(ip, input.targetHost) && Rules.ValidPort(input.targetPort)
  {
  }

  /** What admits an http tunnel, part by part. */
  lemma HttpAdmissible(ip: string -> bool, ports: Ports, db: Database.Db, input: CreateInput, name: string)
    requires TrimSpace(input.name) == name && Kind(input) == "http"
    ensures Admissible(ip, ports, db, input) <==>
            && input.gateway in db.gateways && !Malformed(ip, input)
            && !Database.NameTaken(db.tunnels, input.gateway, name)
            && input.domain != "" && Rules.ValidDomain(input.domain)
            && !Database.DomainTaken(db.tunnels, input.domain)
  {
  }

  /** The row of an admitted http tunnel. */
  lemma HttpAdmitted(ip: string -> bool, ports: Ports, db: Database.Db, input: CreateInput, name: string)
    requires TrimSpace(input.name) == name && Kind(input) == "http" && Admit(ip, ports, db, input).Ok?
    ensures Admit(ip, ports, db, input).value ==
            Tunnel(input.gateway, name, "http", input.targetHost, input.targetPort, input.domain, 0,
                   input.enabled.Or(true), input.expires)
  {
    ClaimMeaning(db.tunnels, ports, "http", input.domain, input.remotePort);
  }

  /** Whether what a well-formed request claims is held by another tunnel already. */
  predicate Contested(ports: Ports, db: Database.Db, input: CreateInput) {
    || Database.NameTaken(db.tunnels, input.gateway, TrimSpace(input.name))
    || (Kind(input) == "http" && Rules.ValidDomain(input.domain) && Database.DomainTaken(db.tunnels, input.domain))
    || (Kind(input) != "http" && Rules.ValidPort(input.remotePort) && Database.PortTaken(db.tunnels, input.remotePort))
    || (Kind(input) != "http" && input.remotePort == 0 && Exhausted(db.tunnels, ports.min, ports.max))
  }

  lemma ClaimErrors(rows: Rows, ports: Ports, kind: string, domain: string, port: int)
    ensures var c := Claim(rows, ports, kind, domain, port);
      && (c == Err(Conflict) <==>
            || (kind == "http" && Rules.ValidDomain(domain) && Database.DomainTaken(rows, domain))
            || (kind != "http" && Rules.ValidPort(port) && Database.PortTaken(rows, port))
            || (kind != "http" && port == 0 && Exhausted(rows, ports.min, ports.max)))
      && (c.Err? ==> c.error in {BadRequest, Conflict})
  {
    ClaimMeaning(rows, ports, kind, domain, port);
  }

  /** Which error a refused creation gets: the gateway is missed before the request is looked at,
      and its form is judged before anything is compared with other tunnels. */
  lemma CreateErrors(ip: string -> bool, ports: Ports, db: Database.Db, input: CreateInput)
    ensures var r := Admit(ip, ports, db, input);
      && (r == Err(NotFound) <==> input.gateway !in db.gateways)
      && (r == Err(Conflict) <==>
            input.gateway in db.gateways && !Malformed(ip, input) && Contested(ports, db, input))
      && r != Err(Internal)
  {
    ClaimErrors(db.tunnels, ports, Kind(input), input.domain, input.remotePort);
  }

  /** The row a request asks for: what it names is taken over, an http tunnel gets its domain, and a
      tcp tunnel its port or the least free one. */
  predicate AsAsked(ports: Ports, rows: Rows, input: CreateInput, t: Tunnel) {
    && t.gateway == input.gateway && t.name == TrimSpace(input.name) && t.kind == Kind(input)
    && t.targetHost == input.targetHost && t.targetPort == input.targetPort
    && t.enabled == input.enabled.Or(true) && t.expires == input.expires
    && (t.kind == "http" ==> t.domain == input.domain && t.remotePort == 0)
    && (t.kind != "http" ==> t.domain == "")
    && (t.kind != "http" && input.remotePort != 0 ==> t.remotePort == input.remotePort)
    && (t.kind != "http" && input.remotePort == 0 ==> LeastFree(rows, ports, t.remotePort))
  }

  /** An admitted row is what was asked for, meets the rules, and collides with no row in any
      unique column. */
  lemma AdmittedRow(ip: string -> bool, ports: Ports, db: Database.Db, input: CreateInput)
    requires ValidPorts(ports) && Admit(ip, ports, db, input).Ok?
    ensures var t := Admit(ip, ports, db, input).value;
      && AsAsked(ports, db.tunnels, input, t)
      && RowOk(ip, ports, t) && t.gateway in db.gateways
      && !Database.NameTaken(db.tunnels, t.gateway, t.name)
      && !Database.DomainTaken(db.tunnels, t.domain) && !Database.PortTaken(db.tunnels, t.remotePort)
  {
    ClaimMeaning(db.tunnels, ports, Kind(input), input.domain, input.remotePort);
  }

  lemma InsertUnique(rows: Rows, id: Id, t: Tunnel)
    requires UniqueRows(rows) && id !in rows
    requires !Database.NameTaken(rows, t.gateway, t.name)
    requires !Database.DomainTaken(rows, t.domain) && !Database.PortTaken(rows, t.remotePort)
    ensures UniqueRows(rows[id := t])
  {
    forall j | j in rows ensures Apart(t, rows[j]) && Apart(rows[j], t) {
    }
  }

  lemma CreateKeeps(ip: string -> bool, ports: Ports, db: Database.Db, input: CreateInput, id: Id, fault: Fault)
    requires ValidPorts(ports) && RowsOk(ip, ports, db.tunnels) && UniqueRows(db.tunnels)
    ensures var after := CreateSpec(ip, ports, db, input, id, fault).1;
      && RowsOk(ip, ports, after.tunnels) && UniqueRows(after.tunnels)
      && (forall i :: i in after.tunnels ==> i in db.tunnels || after.tunnels[i].gateway in db.gateways)
      && (forall i :: i in db.tunnels ==> i in after.tunnels && after.tunnels[i] == db.tunnels[i])
  {
    var row := Admit(ip, ports, db, input);
    if row.Ok? {
      AdmittedRow(ip, ports, db, input);
      InsertKeeps(RowRule(ip, ports), db, row.value, id, fault);
    }
  }

  lemma InsertKeeps(rule: Tunnel -> bool, db: Database.Db, t: Tunnel, id: Id, fault: Fault)
    requires EveryRow(db.tunnels, rule) && UniqueRows(db.tunnels) && rule(t)
    requires t.gateway in db.gateways
    requires !Database.NameTaken(db.tunnels, t.gateway, t.name)
    requires !Database.DomainTaken(db.tunnels, t.domain) && !Database.PortTaken(db.tunnels, t.remotePort)
    ensures var after := Insert(db, Ok(t), id, fault).1;
      && EveryRow(after.tunnels, rule) && UniqueRows(after.tunnels)
      && (forall i :: i in after.tunnels ==> i in db.tunnels || after.tunnels[i].gateway in db.gateways)
      && (forall i :: i in db.tunnels ==> i in after.tunnels && after.tunnels[i] == db.tunnels[i])
  {
    if id !in db.tunnels { InsertUnique(db.tunnels, id, t); }
  }

  // Update.

  lemma PatchedRow(ip: string -> bool, ports: Ports, rows: Rows, t: Tunnel, u: Database.Patch)
    requires RowOk(ip, ports, t) && CheckPatch(ip, rows, t, u).None?
    ensures RowOk(ip, ports, Database.Patched(t, u))
    ensures Database.Patched(t, u).gateway == t.gateway && Database.Patched(t, u).name == t.name
    ensures Database.Patched(t, u).domain == t.domain || !Database.DomainTaken(rows, Database.Patched(t, u).domain)
    ensures var p := Database.Patched(t, u).remotePort; p == t.remotePort || !Database.PortTaken(rows, p)
  {
  }

  /** Which error a refused update gets.  The domain is judged before the port, so a malformed
      port behind a contested domain is reported as a conflict. */
  lemma UpdateErrors(ip: string -> bool, rows: Rows, t: Tunnel, u: Database.Patch)
    ensures var d, p := u.domain.Or(""), u.remotePort.Or(0);
      var targetOk := (u.targetHost.Some? ==> Rules.ValidHost(ip, u.targetHost.value))
                      && (u.targetPort.Some? ==> Rules.ValidPort(u.targetPort.value));
      var domainTaken := d != t.domain && Database.DomainTaken(rows, d);
      var portTaken := p != t.remotePort && Database.PortTaken(rows, p);
      var r := CheckPatch(ip, rows, t, u);
      && (r == None <==>
            && targetOk
            && (d == "" || (Rules.ValidDomain(d) && !domainTaken))
            && (p == 0 || (Rules.ValidPort(p) && !portTaken)))
      && (r == Some(Conflict) <==>
            && targetOk && (d == "" || Rules.ValidDomain(d))
            && (domainTaken || (Rules.ValidPort(p) && portTaken)))
      && r != Some(NotFound) && r != Some(Internal)
  {
    DomainErrors(rows, t.domain, u.domain.Or(""));
    PortErrors(rows, t.remotePort, u.remotePort.Or(0));
    TargetErrors(ip, u);
  }

  lemma DomainErrors(rows: Rows, current: string, d: string)
    ensures var r := DomainRefusal(rows, current, d);
      && (r == None <==> d == "" || (Rules.ValidDomain(d) && !(d != current && Database.DomainTaken(rows, d))))
      && (r == Some(Conflict) <==> (d == "" || Rules.ValidDomain(d)) && d != current && Database.DomainTaken(rows, d))
      && (r.Some? ==> r.value in {BadRequest, Conflict})
  {
  }

  lemma PortErrors(rows: Rows, current: int, p: int)
    ensures var r := PortRefusal(rows, current, p);
      && (r == None <==> p == 0 || (Rules.ValidPort(p) && !(p != current && Database.PortTaken(rows, p))))
      && (r == Some(Conflict) <==> Rules.ValidPort(p) && p != current && Database.PortTaken(rows, p))
      && (r.Some? ==> r.value in {BadRequest, Conflict})
  {
  }

  lemma TargetErrors(ip: string -> bool, u: Database.Patch)
    ensures TargetRefusal(ip, u) ==
            if (u.targetHost.Some? ==> Rules.ValidHost(ip, u.targetHost.value))
               && (u.targetPort.Some? ==> Rules.ValidPort(u.targetPort.value)) then None else Some(BadRequest)
  {
  }

  lemma PatchUnique(rows: Rows, id: Id, t: Tunnel)
    requires UniqueRows(rows) && id in rows
    requires t.gateway == rows[id].gateway && t.name == rows[id].name
    requires t.domain == rows[id].domain || !Database.DomainTaken(rows, t.domain)
    requires t.remotePort == rows[id].remotePort || !Database.PortTaken(rows, t.remotePort)
    ensures UniqueRows(rows[id := t])
  {
    forall j | j in rows && j != id ensures Apart(t, rows[j]) && Apart(rows[j], t) {
      assert Apart(rows[id], rows[j]) && Apart(rows[j], rows[id]);
    }
  }

  lemma UpdateKeeps(ip: string -> bool, ports: Ports, db: Database.Db, id: Id, u: Database.Patch, fault: Fault)
    requires RowsOk(ip, ports, db.tunnels) && UniqueRows(db.tunnels)
    ensures var after := UpdateSpec(ip, db, id, u, fault).1;
      && RowsOk(ip, ports, after.tunnels) && UniqueRows(after.tunnels)
      && after.tunnels.Keys == db.tunnels.Keys
      && (forall i :: i in db.tunnels ==> after.tunnels[i].gateway == db.tunnels[i].gateway)
  {
    if id in db.tunnels {
      var refused := CheckPatch(ip, db.tunnels, db.tunnels[id], u);
      if refused.None? {
        PatchedRow(ip, ports, db.tunnels, db.tunnels[id], u);
        RewriteKeeps(RowRule(ip, ports), db, id, u, fault);
      }
    }
  }

  lemma RewriteKeeps(rule: Tunnel -> bool, db: Database.Db, id: Id, u: Database.Patch, fault: Fault)
    requires EveryRow(db.tunnels, rule) && UniqueRows(db.tunnels) && id in db.tunnels
    requires var t := Database.Patched(db.tunnels[id], u);
      && rule(t)
      && (t.domain == db.tunnels[id].domain || !Database.DomainTaken(db.tunnels, t.domain))
      && (t.remotePort == db.tunnels[id].remotePort || !Database.PortTaken(db.tunnels, t.remotePort))
    ensures var after := Rewrite(db, None, id, u, fault).1;
      && EveryRow(after.tunnels, rule) && UniqueRows(after.tunnels)
      && after.tunnels.Keys == db.tunnels.Keys
      && (forall i :: i in db.tunnels ==> after.tunnels[i].gateway == db.tunnels[i].gateway)
  {
    PatchUnique(db.tunnels, id, Database.Patched(db.tunnels[id], u));
  }

  // Sweep.

  lemma DisableRule(rule: Tunnel -> bool, rows: Rows, ids: set<Id>)
    requires EveryRow(rows, rule)
    requires forall t :: rule(t) ==> rule(t.(enabled := false))
    ensures EveryRow(Janitor.Disable(rows, ids), rule)
  {
  }

  lemma DisableUnique(rows: Rows, ids: set<Id>)
    requires UniqueRows(rows)
    ensures UniqueRows(Janitor.Disable(rows, ids))
  {
    var after := Janitor.Disable(rows, ids);
    forall i, j | i in after && j in after && i != j ensures Apart(after[i], after[j]) {
      assert Apart(rows[i], rows[j]);
    }
  }

  // One call undoes another.

  /** Deleting a tunnel just created restores the rows; the version has moved on by two, so no
      agent takes the old configuration for the new one. */
  lemma CreateDelete(ip: string -> bool, ports: Ports, db: Database.Db, input: CreateInput, id: Id)
    requires id !in db.tunnels && id !in db.health
    requires Admissible(ip, ports, db, input)
    ensures var (r, after) := CreateSpec(ip, ports, db, input, id, NO_FAULT);
      && r.Ok?
      && DeleteSpec(after, id, NO_FAULT).0 == None
      && DeleteSpec(after, id, NO_FAULT).1 ==
         db.(versions := Database.Bumped(Database.Bumped(db.versions, input.gateway), input.gateway))
  {
    AdmitMeaning(ip, ports, db, input);
    UndoInsert(db, Admit(ip, ports, db, input).value, id);
  }

  lemma UndoInsert(db: Database.Db, t: Tunnel, id: Id)
    requires id !in db.tunnels && id !in db.health
    ensures var (r, after) := Insert(db, Ok(t), id, NO_FAULT);
      && r == Ok(t)
      && DeleteSpec(after, id, NO_FAULT).0 == None
      && DeleteSpec(after, id, NO_FAULT).1 ==
         db.(versions := Database.Bumped(Database.Bumped(db.versions, t.gateway), t.gateway))
  {
    var after := Insert(db, Ok(t), id, NO_FAULT).1;
    assert after.tunnels - {id} == db.tunnels;
    assert after.health - {id} == db.health;
  }

  /** The patch that sets every field back. */
  function Restore(t: Tunnel): Database.Patch {
    Database.Patch(Some(t.enabled), Some(t.targetHost), Some(t.targetPort), Some(t.domain), Some(t.remotePort))
  }

  /** Updating back restores the row: the opposite patch of an accepted one is accepted too, unless
      the port came from a configured range beyond 65535, which an update may not name. */
  lemma UpdateUndo(ip: string -> bool, ports: Ports, db: Database.Db, id: Id, u: Database.Patch)
    requires RowsOk(ip, ports, db.tunnels) && UniqueRows(db.tunnels) && id in db.tunnels
    requires UpdateSpec(ip, db, id, u, NO_FAULT).0.Ok?
    ensures var t := db.tunnels[id];
      var (r, after) := UpdateSpec(ip, UpdateSpec(ip, db, id, u, NO_FAULT).1, id, Restore(t), NO_FAULT);
      if t.remotePort == 0 || Rules.ValidPort(t.remotePort)
      then r == Ok(t) && after == db.(versions := Database.Bumped(Database.Bumped(db.versions, t.gateway), t.gateway))
      else r == Err(BadRequest)
  {
    var t := db.tunnels[id];
    var p := Database.Patched(t, u);
    var refused := CheckPatch(ip, db.tunnels, t, u);
    var refusedBack := CheckPatch(ip, db.tunnels[id := p], p, Restore(t));
    BackAccepted(ip, ports, db.tunnels, id, p);
    RewriteBack(db, id, u, refused, refusedBack);
  }

  lemma RewriteBack(db: Database.Db, id: Id, u: Database.Patch, refused: Option<Error>, refusedBack: Option<Error>)
    requires id in db.tunnels && Rewrite(db, refused, id, u, NO_FAULT).0.Ok?
    ensures var t := db.tunnels[id];
      var mid := Rewrite(db, refused, id, u, NO_FAULT).1;
      && mid.tunnels == db.tunnels[id := Database.Patched(t, u)]
      && var (r, after) := Rewrite(mid, refusedBack, id, Restore(t), NO_FAULT);
      && (refusedBack.Some? ==> r == Err(refusedBack.value))
      && (refusedBack.None? ==>
            r == Ok(t) && after == db.(versions := Database.Bumped(Database.Bumped(db.versions, t.gateway), t.gateway)))
  {
    var t := db.tunnels[id];
    var mid := Rewrite(db, refused, id, u, NO_FAULT).1;
    assert mid.tunnels[id := t] == db.tunnels;
  }

  lemma BackAccepted(ip: string -> bool, ports: Ports, rows: Rows, id: Id, p: Tunnel)
    requires RowsOk(ip, ports, rows) && UniqueRows(rows) && id in rows
    ensures CheckPatch(ip, rows[id := p], p, Restore(rows[id])) ==
            if rows[id].remotePort == 0 || Rules.ValidPort(rows[id].remotePort) then None else Some(BadRequest)
  {
    var t := rows[id];
    assert RowRule(ip, ports)(t);
    TargetBack(ip, t);
    DomainBack(rows, id, p);
    PortBack(rows, id, p);
  }

  lemma TargetBack(ip: string -> bool, t: Tunnel)
    requires Rules.ValidHost(ip, t.targetHost) && Rules.ValidPort(t.targetPort)
    ensures TargetRefusal(ip, Restore(t)).None?
  {
  }

  lemma DomainBack(rows: Rows, id: Id, p: Tunnel)
    requires UniqueRows(rows) && id in rows && (rows[id].domain == "" || Rules.ValidDomain(rows[id].domain))
    ensures DomainRefusal(rows[id := p], p.domain, rows[id].domain).None?
  {
    var d := rows[id].domain;
    forall j | j in rows && j != id ensures d == "" || rows[j].domain != d { assert Apart(rows[id], rows[j]); }
  }

  lemma PortBack(rows: Rows, id: Id, p: Tunnel)
    requires UniqueRows(rows) && id in rows
    ensures PortRefusal(rows[id := p], p.remotePort, rows[id].remotePort) ==
            if rows[id].remotePort == 0 || Rules.ValidPort(rows[id].remotePort) then None else Some(BadRequest)
  {
    var n := rows[id].remotePort;
    forall j | j in rows && j != id ensures n == 0 || rows[j].remotePort != n { assert Apart(rows[id], rows[j]); }
  }
}
