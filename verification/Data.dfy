/** The rows and messages that server and agent share. */
module Data {
  import opened Options
  import Seqs
  import Frpc

  type Id = string
  type Gateway = string

  /** A row of the `tunnels` table, without the columns no decision depends on.
      `domain == ""` and `remotePort == 0` stand for NULL; `expires` is the stored text. */
  datatype Tunnel = Tunnel(
    gateway: Gateway, name: string, kind: string, targetHost: string, targetPort: int,
    domain: string, remotePort: int, enabled: bool, expires: Option<string>)

  type Rows = map<Id, Tunnel>

  /** One tunnel of a config response. */
  datatype ConfigTunnel = ConfigTunnel(
    name: string, kind: string, targetHost: string, targetPort: int,
    domain: string, remotePort: int, enabled: bool)

  function View(t: Tunnel): ConfigTunnel {
    ConfigTunnel(t.name, t.kind, t.targetHost, t.targetPort, t.domain, t.remotePort, t.enabled)
  }

  function AsProxy(t: ConfigTunnel): Frpc.Proxy {
    Frpc.Proxy(t.name, t.kind, t.targetHost, t.targetPort, t.domain, t.remotePort)
  }

  /** `SELECT ... WHERE gateway_id = g AND enabled = 1`, as a set of rows. */
  function EnabledRows(rows: Rows, g: Gateway): Rows {
    map i | i in rows && rows[i].gateway == g && rows[i].enabled :: rows[i]
  }

  /** `order` lists the keys of `rows`, each once: the order of rows with one creation time is open. */
  predicate Lists(order: seq<Id>, rows: Rows) {
    && Seqs.NoDuplicates(order)
    && (forall i :: i in order ==> i in rows)
    && (forall i :: i in rows ==> i in order)
  }

  const NO_TUNNEL := ConfigTunnel("", "", "", 0, "", 0, false)

  function RowView(rows: Rows, i: Id): ConfigTunnel {
    if i in rows then View(rows[i]) else NO_TUNNEL
  }

  /** The rows in the order of a listing. */
  function Fetch(rows: Rows, order: seq<Id>): seq<ConfigTunnel> {
    Seqs.Map(i => RowView(rows, i), order)
  }

  /** `toProxies` as a function: the enabled tunnels, in order. */
  function Proxies(ts: seq<ConfigTunnel>): seq<Frpc.Proxy> {
    if ts == [] then []
    else Proxies(ts[..|ts| - 1]) + if ts[|ts| - 1].enabled then [AsProxy(ts[|ts| - 1])] else []
  }

  /** `toProxies`. */
  method ToProxies(tunnels: seq<ConfigTunnel>) returns (out: seq<Frpc.Proxy>)
    ensures out == Proxies(tunnels)
  {
    out := [];
    for i := 0 to |tunnels|
      invariant out == Proxies(tunnels[..i])
    {
      assert tunnels[..i + 1][..i] == tunnels[..i];
      var t := tunnels[i];
      if !t.enabled { continue; }
      out := out + [AsProxy(t)];
    }
    assert tunnels[..|tunnels|] == tunnels;
  }

  /** The proxy has the tunnel's name, type, target and public end. */
  predicate Carries(p: Frpc.Proxy, t: ConfigTunnel) {
    && p.name == t.name && p.kind == t.kind && p.localIP == t.targetHost && p.localPort == t.targetPort
    && p.domain == t.domain && p.remotePort == t.remotePort
  }

  lemma {:induction false} ProxiesSelect(ts: seq<ConfigTunnel>, on: ConfigTunnel -> bool)
    requires forall t :: on(t) == t.enabled
    ensures Proxies(ts) == Seqs.Select(on, AsProxy, ts)
  {
    if ts != [] { ProxiesSelect(ts[..|ts| - 1], on); }
  }

  /** Which tunnels become proxies, and which proxies: the enabled ones, in order, column by column. */
  lemma ProxyColumns(ts: seq<ConfigTunnel>)
    ensures var ks := Seqs.Positions((t: ConfigTunnel) => t.enabled, ts);
      |Proxies(ts)| == |ks| && forall m :: 0 <= m < |ks| ==> Carries(Proxies(ts)[m], ts[ks[m]])
  {
    var on := (t: ConfigTunnel) => t.enabled;
    ProxiesSelect(ts, on);
    Seqs.SelectAt(on, AsProxy, ts);
  }

  /** A list of enabled tunnels passes through `toProxies` one for one. */
  lemma {:induction false} ProxiesEnabled(ts: seq<ConfigTunnel>)
    requires forall k :: 0 <= k < |ts| ==> ts[k].enabled
    ensures Proxies(ts) == Seqs.Map(AsProxy, ts)
  {
    if ts != [] {
      var front, last := ts[..|ts| - 1], ts[|ts| - 1];
      assert forall k :: 0 <= k < |front| ==> front[k] == ts[k];
      ProxiesEnabled(front);
      assert ts == front + [last];
      Seqs.MapAppend(AsProxy, front, [last]);
    }
  }

  /** Two listings of the same enabled rows give the same proxies up to order. */
  lemma ListingPermutation(rows: Rows, o1: seq<Id>, o2: seq<Id>)
    requires Lists(o1, rows) && Lists(o2, rows)
    requires forall i :: i in rows ==> rows[i].enabled
    ensures multiset(Proxies(Fetch(rows, o1))) == multiset(Proxies(Fetch(rows, o2)))
  {
    Seqs.SameElements(o1, o2);
    Seqs.MapPermutation(i => RowView(rows, i), o1, o2);
    FetchEnabled(rows, o1);
    FetchEnabled(rows, o2);
    Seqs.MapPermutation(AsProxy, Fetch(rows, o1), Fetch(rows, o2));
  }

  lemma FetchEnabled(rows: Rows, order: seq<Id>)
    requires Lists(order, rows)
    requires forall i :: i in rows ==> rows[i].enabled
    ensures Proxies(Fetch(rows, order)) == Seqs.Map(AsProxy, Fetch(rows, order))
  {
    var ts := Fetch(rows, order);
    forall k | 0 <= k < |ts| ensures ts[k].enabled { assert order[k] in order; }
    ProxiesEnabled(ts);
  }
}
