/** The gateway endpoints: server/internal/gateway/gateway.go. */
module GatewayApi {
  import opened Options
  import opened Data
  import Database
  import Rules
  import Seqs
  import opened Text
  import ServerPublish
  import ServerRuns

  // Register.

  function OrGateway(slug: string): string { if slug == "" then "gateway" else slug }

  /** `slugify` of the gateway package: never empty. */
  function IdSlug(name: string): string { OrGateway(Rules.Slugify(name)) }

  /** The id tried in round `k`: the slug, then eight times the slug with a random suffix. */
  function Candidate(base: string, shorts: seq<string>, k: nat): Gateway
    requires k <= |shorts|
  {
    if k == 0 then base else base + "-" + shorts[k - 1]
  }

  function Rounds(taken: set<Gateway>, base: string, shorts: seq<string>): nat -> bool {
    (k: nat) => k <= |shorts| && Candidate(base, shorts, k) in taken
  }

  /** The first of the nine candidates that no gateway has. */
  function Allocate(taken: set<Gateway>, base: string, shorts: seq<string>): Option<Gateway>
    requires |shorts| == 8
  {
    match Seqs.FirstFree(Rounds(taken, base, shorts), 0, 9)
    case None => None
    case Some(k) => Some(Candidate(base, shorts, k))
  }

  /** `allocateGatewayID`, with `base` the slug of the name. */
  method AllocateGatewayID(store: Database.Store, base: string, shorts: seq<string>) returns (r: Option<Gateway>)
    requires |shorts| == 8
    ensures r == Allocate(store.gateways, base, shorts)
  {
    ghost var taken := Rounds(store.gateways, base, shorts);
    assert taken(0) <==> base in store.gateways;
    if base !in store.gateways { return Some(base); }
    for i := 0 to 8
      invariant Seqs.FirstFree(taken, 0, 9) == Seqs.FirstFree(taken, i + 1, 9)
    {
      var candidate := base + "-" + shorts[i];
      assert taken(i + 1) <==> candidate in store.gateways;
      if candidate !in store.gateways { return Some(candidate); }
    }
    return None;
  }

  /** The database after registering the first free id, and the id handed to the agent. */
  function RegisterResult(db: Database.Db, g: Option<Gateway>, insertFails: bool, ensureFails: bool)
    : (Option<Gateway>, Database.Db)
  {
    if g.None? || insertFails then (None, db)
    else (if ensureFails then None else g, ServerRuns.RegisterSpec(db, g.value, !ensureFails))
  }

  /** `Register` after the checks: the gateway row first, then the version row.  `insertFails` and
      `ensureFails` are the two statements' faults. */
  method RegisterSlug(store: Database.Store, base: string, shorts: seq<string>, insertFails: bool, ensureFails: bool)
    returns (r: Option<Gateway>)
    requires |shorts| == 8
    modifies store
    ensures (r, store.Contents()) ==
            RegisterResult(old(store.Contents()), Allocate(old(store.gateways), base, shorts), insertFails, ensureFails)
  {
    var g := AllocateGatewayID(store, base, shorts);
    if g.None? { return None; }
    var ok := store.CreateGateway(g.value, insertFails);
    if !ok { return None; }
    ok := store.EnsureConfigVersion(g.value, ensureFails);
    if !ok { return None; }
    return g;
  }

  method Register(store: Database.Store, name: string, shorts: seq<string>, insertFails: bool, ensureFails: bool)
    returns (r: Option<Gateway>)
    requires |shorts| == 8
    modifies store
    ensures TrimSpace(name) == "" ==> r == None && store.Contents() == old(store.Contents())
    ensures TrimSpace(name) != "" ==>
      (r, store.Contents()) ==
      RegisterResult(old(store.Contents()), Allocate(old(store.gateways), IdSlug(name), shorts),
                     insertFails, ensureFails)
  {
    if TrimSpace(name) == "" { return None; }
    r := RegisterSlug(store, IdSlug(name), shorts, insertFails, ensureFails);
  }

  lemma AllocatedIsSlug(taken: set<Gateway>, base: string, shorts: seq<string>)
    requires Rules.IsSlug(base) && |shorts| == 8 && forall i :: 0 <= i < 8 ==> ServerPublish.IsShort(shorts[i])
    requires Allocate(taken, base, shorts).Some?
    ensures Rules.IsSlug(Allocate(taken, base, shorts).value)
  {
    var j := Seqs.FirstFree(Rounds(taken, base, shorts), 0, 9).value;
    if j > 0 { ServerPublish.SuffixedSlug(base, shorts[j - 1]); }
  }

  lemma OrGatewayIsSlug(slug: string)
    requires slug == "" || Rules.IsSlug(slug)
    ensures Rules.IsSlug(OrGateway(slug))
  {
  }

  lemma IdSlugIsSlug(name: string)
    ensures Rules.IsSlug(IdSlug(name))
  {
    Rules.SlugifyGivesSlug(name);
    OrGatewayIsSlug(Rules.Slugify(name));
  }

  /** The id a gateway gets: the slug of its name, or "gateway" when that is empty, if no gateway has
      it; else the same with the first of eight suffixes that makes a free one. */
  lemma RegisteredId(db: Database.Db, name: string, shorts: seq<string>)
    requires |shorts| == 8
    ensures var base := if Rules.Slugify(name) != "" then Rules.Slugify(name) else "gateway";
      var r := RegisterResult(db, Allocate(db.gateways, IdSlug(name), shorts), false, false).0;
      if base !in db.gateways then r == Some(base)
      else if r.None? then forall k :: 0 <= k < 8 ==> base + "-" + shorts[k] in db.gateways
      else exists k :: && 0 <= k < 8 && r.value == base + "-" + shorts[k] && r.value !in db.gateways
                       && forall j :: 0 <= j < k ==> base + "-" + shorts[j] in db.gateways
  {
    AllocatedFirst(db.gateways, IdSlug(name), shorts);
  }

  lemma AllocatedFirst(taken: set<Gateway>, base: string, shorts: seq<string>)
    requires |shorts| == 8
    ensures var r := Allocate(taken, base, shorts);
      if base !in taken then r == Some(base)
      else if r.None? then forall k :: 0 <= k < 8 ==> base + "-" + shorts[k] in taken
      else exists k :: && 0 <= k < 8 && r.value == base + "-" + shorts[k] && r.value !in taken
                       && forall j :: 0 <= j < k ==> base + "-" + shorts[j] in taken
  {
    var rounds := Rounds(taken, base, shorts);
    assert base in taken <==> rounds(0);
    forall k | 0 <= k < 8 ensures base + "-" + shorts[k] in taken <==> rounds(k + 1) {
      assert Candidate(base, shorts, k + 1) == base + "-" + shorts[k];
    }
    var found := Seqs.FirstFree(rounds, 0, 9);
    if found.Some? && rounds(0) {
      var k := found.value - 1;
      assert 0 <= k < 8 && Candidate(base, shorts, found.value) == base + "-" + shorts[k];
      forall j | 0 <= j < k ensures base + "-" + shorts[j] in taken { assert rounds(j + 1); }
    }
  }

  /** Registering succeeds without faults unless nine ids are taken; the agent gets a new id, which
      is a slug whatever name it gave, and version 1 to start from, unless the version row of an
      earlier gateway of that id was left behind. */
  lemma RegisterSucceeds(db: Database.Db, base: string, shorts: seq<string>)
    requires Rules.IsSlug(base) && |shorts| == 8 && forall i :: 0 <= i < 8 ==> ServerPublish.IsShort(shorts[i])
    ensures var (r, after) := RegisterResult(db, Allocate(db.gateways, base, shorts), false, false);
      && (r.None? <==> forall j :: 0 <= j < 9 ==> Candidate(base, shorts, j) in db.gateways)
      && (r.Some? ==>
            && Rules.IsSlug(r.value) && r.value !in db.gateways && after.gateways == db.gateways + {r.value}
            && Database.VersionIn(after.versions, r.value) ==
               (if r.value in db.versions then db.versions[r.value] else 1)
            && after.tunnels == db.tunnels)
  {
    var taken := Rounds(db.gateways, base, shorts);
    assert forall j: nat :: j < 9 ==> (taken(j) <==> Candidate(base, shorts, j) in db.gateways);
    if Allocate(db.gateways, base, shorts).Some? { AllocatedIsSlug(db.gateways, base, shorts); }
  }

  // Config.

  /** `Config` without interference: the version, and the enabled tunnels in the order of the
      listing.  In the protocol machine its two reads are separate steps, in this order. */
  method Config(store: Database.Store, g: Gateway, order: seq<Id>) returns (version: nat, tunnels: seq<ConfigTunnel>)
    requires Lists(order, EnabledRows(store.tunnels, g))
    ensures version == Database.VersionIn(store.versions, g)
    ensures tunnels == Fetch(EnabledRows(store.tunnels, g), order)
  {
    version := Database.VersionIn(store.versions, g);
    var rows := EnabledRows(store.tunnels, g);
    tunnels := [];
    for k := 0 to |order|
      invariant tunnels == Fetch(rows, order[..k])
    {
      assert order[k] in order;
      FetchSnoc(rows, order, k);
      tunnels := tunnels + [View(rows[order[k]])];
    }
    assert order[..|order|] == order;
  }

  lemma FetchSnoc(rows: Rows, order: seq<Id>, k: nat)
    requires k < |order|
    ensures Fetch(rows, order[..k + 1]) == Fetch(rows, order[..k]) + [RowView(rows, order[k])]
  {
    assert order[..k + 1] == order[..k] + [order[k]];
    Seqs.MapAppend(i => RowView(rows, i), order[..k], [order[k]]);
  }
}
