/** Health reports: server/internal/health/health.go and server/internal/database/health.go. */
module Health {
  import opened Options
  import opened Data
  import Database
  import Seqs

  datatype Check = Check(name: string, status: string)

  /** `GetTunnelByName`: which row it finds when several have the name is left open. */
  type Finder = (Rows, Gateway, string) -> Option<Id>

  ghost predicate Finds(find: Finder) {
    forall rows: Rows, g, n ::
      match find(rows, g, n)
      case None => !Database.NameTaken(rows, g, n)
      case Some(i) => i in rows && rows[i].gateway == g && rows[i].name == n
  }

  /** A status turns a tunnel unhealthy; the first report counts. */
  predicate Rise(before: Option<string>, status: string) {
    status == "unhealthy" && before != Some("unhealthy")
  }

  function Latest(health: map<Id, string>, i: Id): Option<string> {
    if i in health then Some(health[i]) else None
  }

  /** One check of a tunnel that was found. */
  function Observe(db: Database.Db, i: Id, status: string): Database.Db {
    db.(health := db.health[i := status],
        alerts := if Rise(Latest(db.health, i), status) then db.alerts + [i] else db.alerts)
  }

  function ReportSpec(find: Finder, db: Database.Db, g: Gateway, checks: seq<Check>): Database.Db {
    if checks == [] then db
    else
      var before := ReportSpec(find, db, g, checks[..|checks| - 1]);
      var last := checks[|checks| - 1];
      match find(db.tunnels, g, last.name)
      case None => before
      case Some(i) => Observe(before, i, last.status)
  }

  /** The names of the checks no tunnel was found for, in order. */
  function Unknown(find: Finder, rows: Rows, g: Gateway, checks: seq<Check>): seq<string> {
    if checks == [] then []
    else
      var last := checks[|checks| - 1];
      Unknown(find, rows, g, checks[..|checks| - 1]) +
      if find(rows, g, last.name).None? then [last.name] else []
  }

  /** The gateway has a tunnel of that name. */
  predicate Known(rows: Rows, g: Gateway, name: string) {
    exists i :: i in rows && rows[i].gateway == g && rows[i].name == name
  }

  lemma {:induction false} UnknownSelect(find: Finder, rows: Rows, g: Gateway, checks: seq<Check>, lost: Check -> bool,
                                         name: Check -> string)
    requires Finds(find) && (forall ck :: lost(ck) == !Known(rows, g, ck.name)) && forall ck :: name(ck) == ck.name
    ensures Unknown(find, rows, g, checks) == Seqs.Select(lost, name, checks)
  {
    if checks != [] {
      UnknownSelect(find, rows, g, checks[..|checks| - 1], lost, name);
      FoundIsKnown(find, rows, g, checks[|checks| - 1].name);
    }
  }

  /** The skipped list holds the names of exactly the checks whose name no tunnel of the gateway has, in
      the order of the checks. */
  lemma UnknownNames(find: Finder, rows: Rows, g: Gateway, checks: seq<Check>)
    requires Finds(find)
    ensures var ks := Seqs.Positions((ck: Check) => !Known(rows, g, ck.name), checks);
      && |Unknown(find, rows, g, checks)| == |ks|
      && forall m :: 0 <= m < |ks| ==> Unknown(find, rows, g, checks)[m] == checks[ks[m]].name
  {
    var lost, name := (ck: Check) => !Known(rows, g, ck.name), (ck: Check) => ck.name;
    UnknownSelect(find, rows, g, checks, lost, name);
    Seqs.SelectAt(lost, name, checks);
  }

  lemma FoundIsKnown(find: Finder, rows: Rows, g: Gateway, name: string)
    requires Finds(find)
    ensures find(rows, g, name).Some? <==> Known(rows, g, name)
  {
    match find(rows, g, name)
    case None => assert !Database.NameTaken(rows, g, name);
    case Some(i) => assert i in rows && rows[i].gateway == g && rows[i].name == name;
  }

  /** What fails in the handling of one check: finding the tunnel, or writing its row. */
  datatype CheckFault = CheckOk | LookupFails | UpsertFails

  /** The check ends the report with an error; a write can only fail for a tunnel that was found. */
  predicate Stops(find: Finder, rows: Rows, g: Gateway, ck: Check, fault: CheckFault) {
    fault.LookupFails? || (fault.UpsertFails? && find(rows, g, ck.name).Some?)
  }

  /** How many checks come before the first that ends the report. */
  function Handled(find: Finder, rows: Rows, g: Gateway, checks: seq<Check>, faults: seq<CheckFault>): (n: nat)
    requires |faults| == |checks|
    ensures n <= |checks|
    ensures forall k :: 0 <= k < n ==> !Stops(find, rows, g, checks[k], faults[k])
    ensures n < |checks| ==> Stops(find, rows, g, checks[n], faults[n])
  {
    if checks == [] || Stops(find, rows, g, checks[0], faults[0]) then 0
    else 1 + Handled(find, rows, g, checks[1..], faults[1..])
  }

  lemma HandledUnique(find: Finder, rows: Rows, g: Gateway, checks: seq<Check>, faults: seq<CheckFault>, n: nat)
    requires |faults| == |checks| && n <= |checks|
    requires forall k :: 0 <= k < n ==> !Stops(find, rows, g, checks[k], faults[k])
    requires n < |checks| ==> Stops(find, rows, g, checks[n], faults[n])
    ensures Handled(find, rows, g, checks, faults) == n
  {
  }

  /** `Report`: the checks before the first failure have their full effect, the failing one and those
      after it none; without a failure the answer counts what was recorded and names what was skipped. */
  method Report(store: Database.Store, find: Finder, g: Gateway, checks: seq<Check>, faults: seq<CheckFault>)
    returns (r: Option<(nat, seq<string>)>)
    requires |faults| == |checks|
    modifies store
    ensures var n := Handled(find, old(store.tunnels), g, checks, faults);
      && store.Contents() == ReportSpec(find, old(store.Contents()), g, checks[..n])
      && (r.Some? <==> n == |checks|)
    ensures r.Some? ==>
      r.value.1 == Unknown(find, old(store.tunnels), g, checks) && r.value.0 + |r.value.1| == |checks|
  {
    ghost var db := store.Contents();
    var recorded, skipped := 0, [];
    for k := 0 to |checks|
      invariant store.Contents() == ReportSpec(find, db, g, checks[..k])
      invariant store.tunnels == db.tunnels
      invariant skipped == Unknown(find, db.tunnels, g, checks[..k])
      invariant recorded + |skipped| == k
      invariant forall j :: 0 <= j < k ==> !Stops(find, db.tunnels, g, checks[j], faults[j])
    {
      var ck := checks[k];
      assert checks[..k + 1][..k] == checks[..k];
      if faults[k].LookupFails? {
        HandledUnique(find, db.tunnels, g, checks, faults, k);
        return None;
      }
      var found := find(store.tunnels, g, ck.name);
      if found.None? {
        skipped := skipped + [ck.name];
        continue;
      }
      var before := Latest(store.health, found.value);
      var ok := store.UpsertHealthCheck(found.value, ck.status, faults[k].UpsertFails?);
      if !ok {
        HandledUnique(find, db.tunnels, g, checks, faults, k);
        return None;
      }
      recorded := recorded + 1;
      if ck.status == "unhealthy" && (before.None? || before.value != "unhealthy") {
        store.RecordAlert(found.value);
      }
    }
    assert checks[..|checks|] == checks;
    HandledUnique(find, db.tunnels, g, checks, faults, |checks|);
    return Some((recorded, skipped));
  }

  // What the events mean.

  /** What happens to one tunnel: a status is reported, or the tunnel is deleted. */
  datatype Mark = Seen(status: string) | Removed

  /** The statuses a report brings for tunnel `i`, in order. */
  function Marks(find: Finder, rows: Rows, g: Gateway, checks: seq<Check>, i: Id): seq<Mark> {
    if checks == [] then []
    else
      var last := checks[|checks| - 1];
      Marks(find, rows, g, checks[..|checks| - 1], i) +
      if find(rows, g, last.name) == Some(i) then [Seen(last.status)] else []
  }

  /** Position `k` of a tunnel's history is a change into the unhealthy status. */
  predicate RiseAt(history: seq<Mark>, k: int)
    requires 0 <= k < |history|
  {
    history[k] == Seen("unhealthy") && (k == 0 || history[k - 1] != Seen("unhealthy"))
  }

  function Rises(history: seq<Mark>): set<int> {
    set k | 0 <= k < |history| && RiseAt(history, k)
  }

  /** The status a history leaves behind. */
  function After(history: seq<Mark>): Option<string> {
    if history != [] && history[|history| - 1].Seen? then Some(history[|history| - 1].status) else None
  }

  function Count(alerts: seq<Id>, i: Id): nat { multiset(alerts)[i] }

  /** The stored status and events of `i` are those its history calls for. */
  predicate Reflects(db: Database.Db, i: Id, history: seq<Mark>) {
    Latest(db.health, i) == After(history) && Count(db.alerts, i) == |Rises(history)|
  }

  lemma RisesSnoc(history: seq<Mark>, m: Mark)
    ensures |Rises(history + [m])| ==
            |Rises(history)| + if m.Seen? && Rise(After(history), m.status) then 1 else 0
  {
    var h := history + [m];
    var k := |history|;
    assert forall j :: 0 <= j < k ==> (RiseAt(h, j) <==> RiseAt(history, j));
    assert h[k] == m && (k > 0 ==> h[k - 1] == history[k - 1]);
    assert RiseAt(h, k) <==> m.Seen? && Rise(After(history), m.status);
    if RiseAt(h, k) {
      assert Rises(h) == Rises(history) + {k};
    } else {
      assert Rises(h) == Rises(history);
    }
  }

  lemma ObserveReflects(db: Database.Db, j: Id, status: string, i: Id, history: seq<Mark>)
    requires Reflects(db, i, history)
    ensures Reflects(Observe(db, j, status), i, history + if j == i then [Seen(status)] else [])
  {
    if j == i { RisesSnoc(history, Seen(status)); } else { assert history + [] == history; }
  }

  /** A report keeps events and changes into the unhealthy status in step, for every tunnel. */
  lemma {:induction false} ReportReflects(find: Finder, db: Database.Db, g: Gateway, checks: seq<Check>,
                                          i: Id, history: seq<Mark>)
    requires Reflects(db, i, history)
    ensures Reflects(ReportSpec(find, db, g, checks), i, history + Marks(find, db.tunnels, g, checks, i))
  {
    if checks == [] {
      assert history + [] == history;
    } else {
      var front := checks[..|checks| - 1];
      ReportReflects(find, db, g, front, i, history);
      var last := checks[|checks| - 1];
      var before := ReportSpec(find, db, g, front);
      var seen := history + Marks(find, db.tunnels, g, front, i);
      var found := find(db.tunnels, g, last.name);
      if found.Some? { ObserveReflects(before, found.value, last.status, i, seen); }
      var mark := if found == Some(i) then [Seen(last.status)] else [];
      assert history + Marks(find, db.tunnels, g, checks, i) == seen + mark;
      assert found.None? ==> seen + mark == seen;
    }
  }

  /** Reports touch health rows only of tunnels that exist. */
  lemma {:induction false} ReportKeeps(find: Finder, db: Database.Db, g: Gateway, checks: seq<Check>)
    requires Finds(find) && db.health.Keys <= db.tunnels.Keys
    ensures var after := ReportSpec(find, db, g, checks);
      && after.health.Keys <= after.tunnels.Keys
      && after == db.(health := after.health, alerts := after.alerts)
  {
    if checks != [] {
      var last := checks[|checks| - 1];
      ReportKeeps(find, db, g, checks[..|checks| - 1]);
      var found := find(db.tunnels, g, last.name);
      assert found.Some? ==> found.value in db.tunnels;
    }
  }
}
