/** The tunnel service: server/internal/tunnel/service.go.  Each operation is taken as atomic. */
module TunnelService {
  import opened Options
  import opened Data
  import Rules
  import Seqs
  import Database
  import opened Text

  datatype Error = BadRequest | Conflict | NotFound | Internal

  datatype Result<+T> = Ok(value: T) | Err(error: Error)

  /** The configured range `tcp_port_min` to `tcp_port_max`. */
  datatype Ports = Ports(min: int, max: int)

  /** What the server's configuration check demands of the range: no bound at 65535. */
  predicate ValidPorts(r: Ports) { 0 < r.min <= r.max }

  datatype CreateInput = CreateInput(
    gateway: Gateway, name: string, kind: string, targetHost: string, targetPort: int,
    domain: string, remotePort: int, enabled: Option<bool>, expires: Option<string>)

  /** Which statements of an operation fail. */
  datatype Fault = Fault(write: bool, bump: Database.BumpFault)

  const NO_FAULT := Fault(false, Database.BumpOk)

  // Port allocation.

  /** No port from `p` up to the end of the range is free. */
  predicate Exhausted(rows: Rows, p: int, max: int) { forall q :: p <= q <= max ==> Database.PortTaken(rows, q) }

  /** The least port of the range that no tunnel holds. */
  predicate LeastFree(rows: Rows, r: Ports, p: int) {
    && r.min <= p <= r.max && !Database.PortTaken(rows, p)
    && forall q :: r.min <= q < p ==> Database.PortTaken(rows, q)
  }

  function Allocate(rows: Rows, p: int, max: int): (r: Result<int>)
    ensures r.Ok? ==> LeastFree(rows, Ports(p, max), r.value)
    ensures r.Err? ==> r.error == Conflict && Exhausted(rows, p, max)
    decreases max - p
  {
    if p > max then Err(Conflict)
    else if Database.PortTaken(rows, p) then Allocate(rows, p + 1, max)
    else Ok(p)
  }

  /** The tunnels that hold ports of a range. */
  function Holders(rows: Rows, r: Ports): set<Id> {
    set i | i in rows && r.min <= rows[i].remotePort <= r.max
  }

  lemma {:induction false} ImageCard(ids: set<Id>, rows: Rows, ports: set<int>)
    requires ids <= rows.Keys
    requires forall p :: p in ports ==> exists i :: i in ids && rows[i].remotePort == p
    ensures |ports| <= |ids|
    decreases |ids|
  {
    if ids == {} {
      assert forall p :: p !in ports;
      assert ports == {};
    } else {
      var i :| i in ids;
      var p := rows[i].remotePort;
      forall q | q in ports - {p} ensures exists j :: j in ids - {i} && rows[j].remotePort == q {
        var j :| j in ids && rows[j].remotePort == q;
        assert j in ids - {i};
      }
      ImageCard(ids - {i}, rows, ports - {p});
    }
  }

  function Interval(lo: int, hi: int): (s: set<int>)
    ensures |s| == if lo <= hi then hi - lo + 1 else 0
    ensures forall q :: q in s <==> lo <= q <= hi
    decreases hi - lo
  {
    if lo > hi then {} else {lo} + Interval(lo + 1, hi)
  }

  /** Pigeonhole: while fewer tunnels hold ports of the range than it has, allocation succeeds. */
  lemma AllocateSucceeds(rows: Rows, r: Ports)
    requires |Holders(rows, r)| < r.max - r.min + 1
    ensures Allocate(rows, r.min, r.max).Ok?
  {
    if Exhausted(rows, r.min, r.max) {
      forall q | q in Interval(r.min, r.max)
        ensures exists i :: i in Holders(rows, r) && rows[i].remotePort == q
      {
        assert Database.PortTaken(rows, q);
        var i :| i in rows && rows[i].remotePort == q;
        assert i in Holders(rows, r);
      }
      ImageCard(Holders(rows, r), rows, Interval(r.min, r.max));
    }
  }

  // Create.

  /** The type as the service compares it. */
  function Kind(input: CreateInput): string { Rules.ToLower(TrimSpace(input.kind)) }

  predicate KnownKind(input: CreateInput) { Kind(input) == "http" || Kind(input) == "tcp" }

  /** What `Create` checks of the request itself. */
  predicate Malformed(ip: string -> bool, input: CreateInput) {
    || !KnownKind(input)
    || !Rules.NameRe(TrimSpace(input.name))
    || !Rules.ValidHost(ip, input.targetHost)
    || !Rules.ValidPort(input.targetPort)
  }

  /** The checks before a domain or port is claimed. */
  function Refusal(ip: string -> bool, db: Database.Db, input: CreateInput): Option<Error> {
    if input.gateway !in db.gateways then Some(NotFound)
    else if Malformed(ip, input) then Some(BadRequest)
    else if Database.NameTaken(db.tunnels, input.gateway, TrimSpace(input.name)) then Some(Conflict)
    else None
  }

  /** The domain an http tunnel gets. */
  function ClaimDomain(rows: Rows, domain: string): Result<string> {
    if domain == "" || !Rules.ValidDomain(domain) then Err(BadRequest)
    else if Database.DomainTaken(rows, domain) then Err(Conflict)
    else Ok(domain)
  }

  /** The port a tcp tunnel gets: the one asked for, or the least free one. */
  function ClaimPort(rows: Rows, ports: Ports, port: int): Result<int> {
    if port == 0 then Allocate(rows, ports.min, ports.max)
    else if !Rules.ValidPort(port) then Err(BadRequest)
    else if Database.PortTaken(rows, port) then Err(Conflict)
    else Ok(port)
  }

  /** The public end of a tunnel: a domain or a port, and the other one NULL. */
  function Claim(rows: Rows, ports: Ports, kind: string, domain: string, port: int): Result<(string, int)> {
    if kind == "http" then
      match ClaimDomain(rows, domain)
      case Err(e) => Err(e)
      case Ok(d) => Ok((d, 0))
    else
      match ClaimPort(rows, ports, port)
      case Err(e) => Err(e)
      case Ok(p) => Ok(("", p))
  }

  function NewRow(input: CreateInput, public: (string, int)): Tunnel {
    Tunnel(input.gateway, TrimSpace(input.name), Kind(input), input.targetHost, input.targetPort,
           public.0, public.1, input.enabled.Or(true), input.expires)
  }

  function RowFor(input: CreateInput, claim: Result<(string, int)>): Result<Tunnel> {
    match claim
    case Err(e) => Err(e)
    case Ok(public) => Ok(NewRow(input, public))
  }

  /** The checks of `Create`, and the row they lead to. */
  function Admit(ip: string -> bool, ports: Ports, db: Database.Db, input: CreateInput): Result<Tunnel> {
    var refusal := Refusal(ip, db, input);
    if refusal.Some? then Err(refusal.value)
    else RowFor(input, Claim(db.tunnels, ports, Kind(input), input.domain, input.remotePort))
  }

  /** Inserting an admitted row and raising the version. */
  function Insert(db: Database.Db, row: Result<Tunnel>, id: Id, fault: Fault): (Result<Tunnel>, Database.Db) {
    match row
    case Err(e) => (row, db)
    case Ok(t) =>
      if fault.write || id in db.tunnels then (Err(Internal), db)
      else (if fault.bump.BumpOk? then row else Err(Internal),
            AfterBump(db.(tunnels := db.tunnels[id := t]), t.gateway, fault))
  }

  function AfterBump(db: Database.Db, g: Gateway, fault: Fault): Database.Db {
    if fault.bump.BumpLost? then db else db.(versions := Database.Bumped(db.versions, g))
  }

  function CreateSpec(ip: string -> bool, ports: Ports, db: Database.Db, input: CreateInput, id: Id, fault: Fault)
    : (Result<Tunnel>, Database.Db)
  {
    Insert(db, Admit(ip, ports, db, input), id, fault)
  }

  // Update.

  function TargetRefusal(ip: string -> bool, u: Database.Patch): Option<Error> {
    if u.targetHost.Some? && !Rules.ValidHost(ip, u.targetHost.value) then Some(BadRequest)
    else if u.targetPort.Some? && !Rules.ValidPort(u.targetPort.value) then Some(BadRequest)
    else None
  }

  /** An empty domain passes unchecked, whatever the tunnel's type. */
  function DomainRefusal(rows: Rows, current: string, d: string): Option<Error> {
    if d == "" then None
    else if !Rules.ValidDomain(d) then Some(BadRequest)
    else if d != current && Database.DomainTaken(rows, d) then Some(Conflict)
    else None
  }

  /** A zero port passes unchecked, whatever the tunnel's type. */
  function PortRefusal(rows: Rows, current: int, p: int): Option<Error> {
    if p == 0 then None
    else if !Rules.ValidPort(p) then Some(BadRequest)
    else if p != current && Database.PortTaken(rows, p) then Some(Conflict)
    else None
  }

  function First<T>(a: Option<T>, b: Option<T>): Option<T> { if a.Some? then a else b }

  /** The checks of `Update` against the row read first. */
  function CheckPatch(ip: string -> bool, rows: Rows, existing: Tunnel, u: Database.Patch): Option<Error> {
    First(TargetRefusal(ip, u),
          First(DomainRefusal(rows, existing.domain, u.domain.Or("")),
                PortRefusal(rows, existing.remotePort, u.remotePort.Or(0))))
  }

  /** Writing the patched row and raising the version. */
  function Rewrite(db: Database.Db, refused: Option<Error>, id: Id, u: Database.Patch, fault: Fault)
    : (Result<Tunnel>, Database.Db)
    requires id in db.tunnels
  {
    if refused.Some? then (Err(refused.value), db)
    else if fault.write then (Err(Internal), db)
    else
      var t := Database.Patched(db.tunnels[id], u);
      (if fault.bump.BumpOk? then Ok(t) else Err(Internal),
       AfterBump(db.(tunnels := db.tunnels[id := t]), t.gateway, fault))
  }

  function UpdateSpec(ip: string -> bool, db: Database.Db, id: Id, u: Database.Patch, fault: Fault)
    : (Result<Tunnel>, Database.Db)
  {
    if id !in db.tunnels then (Err(NotFound), db)
    else Rewrite(db, CheckPatch(ip, db.tunnels, db.tunnels[id], u), id, u, fault)
  }

  // Delete.

  function DeleteSpec(db: Database.Db, id: Id, fault: Fault): (Option<Error>, Database.Db) {
    if id !in db.tunnels then (Some(NotFound), db)
    else if fault.write then (Some(Internal), db)
    else
      (if fault.bump.BumpOk? then None else Some(Internal),
       AfterBump(db.(tunnels := db.tunnels - {id}, health := db.health - {id}), db.tunnels[id].gateway, fault))
  }

  class Service {
    const store: Database.Store
    const ports: Ports
    const ip: string -> bool

    constructor (store: Database.Store, ports: Ports, ip: string -> bool)
      ensures this.store == store && this.ports == ports && this.ip == ip
    {
      this.store, this.ports, this.ip := store, ports, ip;
    }

    /** The first free port of the range. */
    method AllocateRemotePort() returns (r: Result<int>)
      ensures r.Ok? ==> LeastFree(store.tunnels, ports, r.value)
      ensures r.Err? ==> r.error == Conflict && Exhausted(store.tunnels, ports.min, ports.max)
      ensures r == Allocate(store.tunnels, ports.min, ports.max)
    {
      var p := ports.min;
      while p <= ports.max
        invariant ports.min <= p
        invariant forall q :: ports.min <= q < p ==> Database.PortTaken(store.tunnels, q)
        invariant p <= ports.max + 1 || p == ports.min
        invariant Allocate(store.tunnels, ports.min, ports.max) == Allocate(store.tunnels, p, ports.max)
      {
        if !Database.PortTaken(store.tunnels, p) { return Ok(p); }
        p := p + 1;
      }
      return Err(Conflict);
    }

    /** The checks before a domain or port is claimed. */
    method CheckRequest(input: CreateInput) returns (r: Option<Error>)
      ensures r == Refusal(ip, store.Contents(), input)
    {
      if input.gateway !in store.gateways { return Some(NotFound); }
      var malformed := CheckShape(input);
      if malformed { return Some(BadRequest); }
      if Database.NameTaken(store.tunnels, input.gateway, TrimSpace(input.name)) { return Some(Conflict); }
      return None;
    }

    method CheckShape(input: CreateInput) returns (malformed: bool)
      ensures malformed == Malformed(ip, input)
    {
      if !KnownKind(input) { return true; }
      if !Rules.NameRe(TrimSpace(input.name)) { return true; }
      if !Rules.ValidHost(ip, input.targetHost) { return true; }
      return input.targetPort < 1 || input.targetPort > 65535;
    }

    method TakeDomain(domain: string) returns (r: Result<string>)
      ensures r == ClaimDomain(store.tunnels, domain)
    {
      if domain == "" { return Err(BadRequest); }
      if !Rules.ValidDomain(domain) { return Err(BadRequest); }
      if Database.DomainTaken(store.tunnels, domain) { return Err(Conflict); }
      return Ok(domain);
    }

    method TakePort(port: int) returns (r: Result<int>)
      ensures r == ClaimPort(store.tunnels, ports, port)
    {
      if port != 0 {
        if port < 1 || port > 65535 { return Err(BadRequest); }
        if Database.PortTaken(store.tunnels, port) { return Err(Conflict); }
        return Ok(port);
      }
      r := AllocateRemotePort();
    }

    method TakePublic(kind: string, domain: string, port: int) returns (r: Result<(string, int)>)
      ensures r == Claim(store.tunnels, ports, kind, domain, port)
    {
      if kind == "http" {
        var d := TakeDomain(domain);
        return if d.Ok? then Ok((d.value, 0)) else Err(d.error);
      }
      var p := TakePort(port);
      return if p.Ok? then Ok(("", p.value)) else Err(p.error);
    }

    method Create(input: CreateInput, id: Id, fault: Fault) returns (r: Result<Tunnel>)
      modifies store
      ensures (r, store.Contents()) == CreateSpec(ip, ports, old(store.Contents()), input, id, fault)
    {
      var refusal := CheckRequest(input);
      if refusal.Some? { return Err(refusal.value); }
      var public := TakePublic(Kind(input), input.domain, input.remotePort);
      if public.Err? { return Err(public.error); }
      var t := NewRow(input, public.value);
      var ok := store.CreateTunnel(id, t, fault.write);
      if !ok { return Err(Internal); }
      ok := store.BumpConfigVersion(input.gateway, fault.bump);
      if !ok { return Err(Internal); }
      return Ok(t);
    }

    method Update(id: Id, u: Database.Patch, fault: Fault) returns (r: Result<Tunnel>)
      modifies store
      ensures (r, store.Contents()) == UpdateSpec(ip, old(store.Contents()), id, u, fault)
    {
      if id !in store.tunnels { return Err(NotFound); }
      var refused := CheckUpdate(store.tunnels[id], u);
      if refused.Some? { return Err(refused.value); }
      var updated := store.UpdateTunnel(id, u, fault.write);
      if updated.None? { return Err(Internal); }
      var ok := store.BumpConfigVersion(updated.value.gateway, fault.bump);
      if !ok { return Err(Internal); }
      return Ok(updated.value);
    }

    method CheckUpdate(existing: Tunnel, u: Database.Patch) returns (refused: Option<Error>)
      ensures refused == CheckPatch(ip, store.tunnels, existing, u)
    {
      refused := CheckTarget(u);
      if refused.Some? { return; }
      if u.domain.Some? && u.domain.value != "" {
        refused := CheckDomain(existing.domain, u.domain.value);
        if refused.Some? { return; }
      }
      if u.remotePort.Some? && u.remotePort.value != 0 {
        refused := CheckPort(existing.remotePort, u.remotePort.value);
      }
    }

    method CheckTarget(u: Database.Patch) returns (refused: Option<Error>)
      ensures refused == TargetRefusal(ip, u)
    {
      if u.targetHost.Some? && !Rules.ValidHost(ip, u.targetHost.value) { return Some(BadRequest); }
      if u.targetPort.Some? && (u.targetPort.value < 1 || u.targetPort.value > 65535) { return Some(BadRequest); }
      return None;
    }

    method CheckDomain(current: string, d: string) returns (refused: Option<Error>)
      requires d != ""
      ensures refused == DomainRefusal(store.tunnels, current, d)
    {
      if !Rules.ValidDomain(d) { return Some(BadRequest); }
      if d != current && Database.DomainTaken(store.tunnels, d) { return Some(Conflict); }
      return None;
    }

    method CheckPort(current: int, p: int) returns (refused: Option<Error>)
      requires p != 0
      ensures refused == PortRefusal(store.tunnels, current, p)
    {
      if p < 1 || p > 65535 { return Some(BadRequest); }
      if p != current && Database.PortTaken(store.tunnels, p) { return Some(Conflict); }
      return None;
    }

    method Delete(id: Id, fault: Fault) returns (r: Option<Error>)
      modifies store
      ensures (r, store.Contents()) == DeleteSpec(old(store.Contents()), id, fault)
    {
      if id !in store.tunnels { return Some(NotFound); }
      var t := store.tunnels[id];
      var ok := store.DeleteTunnel(id, fault.write);
      if !ok { return Some(Internal); }
      ok := store.BumpConfigVersion(t.gateway, fault.bump);
      if !ok { return Some(Internal); }
      return None;
    }
  }
}
