/** The server's database: server/internal/database.  Every method of `Store` is one statement,
    or one transaction, over its tables. */
module Database {
  import opened Options
  import opened Data

  /** A snapshot of the tables.  `health` holds the status column; `alerts` is the part of the
      event log that `health.unhealthy` events make, oldest first. */
  datatype Db = Db(
    gateways: set<Gateway>, tunnels: Rows, versions: map<Gateway, nat>,
    health: map<Id, string>, alerts: seq<Id>)

  /** `TunnelNameExists`. */
  predicate NameTaken(rows: Rows, g: Gateway, name: string) {
    exists i :: i in rows && rows[i].gateway == g && rows[i].name == name
  }

  /** `DomainExists`. */
  predicate DomainTaken(rows: Rows, domain: string) {
    domain != "" && exists i :: i in rows && rows[i].domain == domain
  }

  /** `RemotePortExists`. */
  predicate PortTaken(rows: Rows, port: int) {
    port != 0 && exists i :: i in rows && rows[i].remotePort == port
  }

  /** `GetConfigVersion`: a missing row reads as 0. */
  function VersionIn(versions: map<Gateway, nat>, g: Gateway): nat {
    if g in versions then versions[g] else 0
  }

  function Bumped(versions: map<Gateway, nat>, g: Gateway): map<Gateway, nat> {
    versions[g := VersionIn(versions, g) + 1]
  }

  /** The fields an update may set; `None` leaves a field alone. */
  datatype Patch = Patch(
    enabled: Option<bool>, targetHost: Option<string>, targetPort: Option<int>,
    domain: Option<string>, remotePort: Option<int>)

  function Patched(t: Tunnel, u: Patch): Tunnel {
    t.(enabled := u.enabled.Or(t.enabled), targetHost := u.targetHost.Or(t.targetHost),
       targetPort := u.targetPort.Or(t.targetPort), domain := u.domain.Or(t.domain),
       remotePort := u.remotePort.Or(t.remotePort))
  }

  /** What becomes of a bump: raised; lost; or raised and then reported as failed, because the
      read of the new version fails. */
  datatype BumpFault = BumpOk | BumpLost | BumpUnread

  class Store {
    var gateways: set<Gateway>
    var tunnels: Rows
    var versions: map<Gateway, nat>
    var health: map<Id, string>
    var alerts: seq<Id>

    ghost function Contents(): Db
      reads this
    {
      Db(gateways, tunnels, versions, health, alerts)
    }

    constructor ()
      ensures Contents() == Db({}, map[], map[], map[], [])
    {
      gateways, tunnels, versions, health, alerts := {}, map[], map[], map[], [];
    }

    /** `INSERT`; the primary key must be new. */
    method CreateTunnel(id: Id, t: Tunnel, fails: bool) returns (ok: bool)
      modifies this
      ensures ok <==> !fails && id !in old(tunnels)
      ensures Contents() == if ok then old(Contents()).(tunnels := old(tunnels)[id := t]) else old(Contents())
    {
      ok := !fails && id !in tunnels;
      if ok { tunnels := tunnels[id := t]; }
    }

    /** Reads the row, sets the given fields and writes five columns back. */
    method UpdateTunnel(id: Id, u: Patch, fails: bool) returns (updated: Option<Tunnel>)
      modifies this
      ensures updated == if fails || id !in old(tunnels) then None else Some(Patched(old(tunnels)[id], u))
      ensures Contents() == if updated.Some? then old(Contents()).(tunnels := old(tunnels)[id := updated.value])
                            else old(Contents())
    {
      if id !in tunnels { return None; }
      var t := tunnels[id];
      if u.enabled.Some? { t := t.(enabled := u.enabled.value); }
      if u.targetHost.Some? { t := t.(targetHost := u.targetHost.value); }
      if u.targetPort.Some? { t := t.(targetPort := u.targetPort.value); }
      if u.domain.Some? { t := t.(domain := u.domain.value); }
      if u.remotePort.Some? { t := t.(remotePort := u.remotePort.value); }
      if fails { return None; }
      tunnels := tunnels[id := t];
      return Some(t);
    }

    /** Flips the flag of the row if it is there. */
    method SetTunnelEnabled(id: Id, enabled: bool, fails: bool) returns (ok: bool)
      modifies this
      ensures ok == !fails
      ensures Contents() == if !fails && id in old(tunnels)
                            then old(Contents()).(tunnels := old(tunnels)[id := old(tunnels)[id].(enabled := enabled)])
                            else old(Contents())
    {
      if fails { return false; }
      if id in tunnels { tunnels := tunnels[id := tunnels[id].(enabled := enabled)]; }
      return true;
    }

    /** One transaction: the health row and the tunnel row go together or not at all. */
    method DeleteTunnel(id: Id, fails: bool) returns (ok: bool)
      modifies this
      ensures ok == !fails
      ensures Contents() == if fails then old(Contents())
                            else old(Contents()).(tunnels := old(tunnels) - {id}, health := old(health) - {id})
    {
      if fails { return false; }
      health := health - {id};
      tunnels := tunnels - {id};
      return true;
    }

    /** Inserts version 1 unless the gateway has a version. */
    method EnsureConfigVersion(g: Gateway, fails: bool) returns (ok: bool)
      modifies this
      ensures ok == !fails
      ensures Contents() == if fails || g in old(versions) then old(Contents())
                            else old(Contents()).(versions := old(versions)[g := 1])
    {
      if fails { return false; }
      if g !in versions { versions := versions[g := 1]; }
      return true;
    }

    /** Inserts version 1 or raises the version by one. */
    method BumpConfigVersion(g: Gateway, fault: BumpFault) returns (ok: bool)
      modifies this
      ensures ok <==> fault.BumpOk?
      ensures Contents() == if fault.BumpLost? then old(Contents())
                            else old(Contents()).(versions := Bumped(old(versions), g))
    {
      if fault.BumpLost? { return false; }
      if g in versions { versions := versions[g := versions[g] + 1]; }
      else { versions := versions[g := 1]; }
      return fault.BumpOk?;
    }

    /** Inserts or replaces the latest status of a tunnel. */
    method UpsertHealthCheck(id: Id, status: string, fails: bool) returns (ok: bool)
      modifies this
      ensures ok == !fails
      ensures Contents() == if fails then old(Contents()) else old(Contents()).(health := old(health)[id := status])
    {
      if fails { return false; }
      health := health[id := status];
      return true;
    }

    /** Appends a `health.unhealthy` event. */
    method RecordAlert(id: Id)
      modifies this
      ensures Contents() == old(Contents()).(alerts := old(alerts) + [id])
    {
      alerts := alerts + [id];
    }

    /** `INSERT`; the primary key must be new. */
    method CreateGateway(g: Gateway, fails: bool) returns (ok: bool)
      modifies this
      ensures ok <==> !fails && g !in old(gateways)
      ensures Contents() == if ok then old(Contents()).(gateways := old(gateways) + {g}) else old(Contents())
    {
      ok := !fails && g !in gateways;
      if ok { gateways := gateways + {g}; }
    }
  }
}
