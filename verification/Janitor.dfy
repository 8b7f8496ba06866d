/** The TTL janitor: `runJanitor` of server/cmd/control-api/main.go. */
module Janitor {
  import opened Options
  import opened Data
  import Database
  import opened Text
  import Seqs
  import Times

  /** The WHERE clause of `ListExpiredEnabledTunnels`, on stored texts. */
  predicate Expired(t: Tunnel, now: string) {
    t.enabled && t.expires.Some? && t.expires.value != "" && !Less(now, t.expires.value)
  }

  function ExpiredRows(rows: Rows, now: string): Rows {
    map i | i in rows && Expired(rows[i], now) :: rows[i]
  }

  /** Tunnels whose disabling statement fails, and tunnels whose bump is lost. */
  datatype SweepFaults = SweepFaults(disable: set<Id>, bump: set<Id>)

  const NO_SWEEP_FAULTS := SweepFaults({}, {})

  /** `rows` with the tunnels `ids` disabled. */
  function Disable(rows: Rows, ids: set<Id>): Rows {
    map i | i in rows :: if i in ids then rows[i].(enabled := false) else rows[i]
  }

  function OwnedBy(rows: Rows, ids: set<Id>, g: Gateway): set<Id> {
    set i | i in ids && i in rows && rows[i].gateway == g
  }

  /** Every gateway's version raised by the number of its tunnels among `ids`. */
  function Raised(versions: map<Gateway, nat>, rows: Rows, ids: set<Id>): map<Gateway, nat> {
    map g | g in versions.Keys + (set i | i in ids && i in rows :: rows[i].gateway) ::
      Database.VersionIn(versions, g) + |OwnedBy(rows, ids, g)|
  }

  /** Fault-free, a sweep disables exactly the expired tunnels, changes nothing else of any tunnel,
      and raises each gateway's version by exactly the number of its tunnels disabled. */
  function SweepSpec(db: Database.Db, now: string, faults: SweepFaults): Database.Db {
    var ids := ExpiredRows(db.tunnels, now).Keys - faults.disable;
    db.(tunnels := Disable(db.tunnels, ids), versions := Raised(db.versions, db.tunnels, ids - faults.bump))
  }

  lemma DisableOne(rows: Rows, ids: set<Id>, i: Id)
    requires i in rows && i !in ids
    ensures Disable(rows, ids)[i := Disable(rows, ids)[i].(enabled := false)] == Disable(rows, ids + {i})
  {
  }

  lemma RaisedKeys(versions: map<Gateway, nat>, rows: Rows, ids: set<Id>, i: Id)
    requires i in rows && i !in ids
    ensures Database.Bumped(Raised(versions, rows, ids), rows[i].gateway).Keys == Raised(versions, rows, ids + {i}).Keys
  {
  }

  lemma RaisedOne(versions: map<Gateway, nat>, rows: Rows, ids: set<Id>, i: Id)
    requires i in rows && i !in ids
    ensures Database.Bumped(Raised(versions, rows, ids), rows[i].gateway) == Raised(versions, rows, ids + {i})
  {
    var a, b := Database.Bumped(Raised(versions, rows, ids), rows[i].gateway), Raised(versions, rows, ids + {i});
    RaisedKeys(versions, rows, ids, i);
    forall g | g in a ensures a[g] == b[g] { RaisedAt(versions, rows, ids, i, g); }
  }

  lemma RaisedAt(versions: map<Gateway, nat>, rows: Rows, ids: set<Id>, i: Id, g: Gateway)
    requires i in rows && i !in ids
    ensures Database.VersionIn(Database.Bumped(Raised(versions, rows, ids), rows[i].gateway), g) ==
            Database.VersionIn(Raised(versions, rows, ids + {i}), g)
  {
    RaisedVersion(versions, rows, ids, g);
    RaisedVersion(versions, rows, ids + {i}, g);
    OwnedOne(rows, ids, i, g);
  }

  lemma OwnedOne(rows: Rows, ids: set<Id>, i: Id, g: Gateway)
    requires i in rows && i !in ids
    ensures |OwnedBy(rows, ids + {i}, g)| == |OwnedBy(rows, ids, g)| + if rows[i].gateway == g then 1 else 0
  {
    if rows[i].gateway == g {
      assert OwnedBy(rows, ids + {i}, g) == OwnedBy(rows, ids, g) + {i};
    } else {
      assert OwnedBy(rows, ids + {i}, g) == OwnedBy(rows, ids, g);
    }
  }

  lemma NoneRaised(versions: map<Gateway, nat>, rows: Rows)
    ensures Raised(versions, rows, {}) == versions && Disable(rows, {}) == rows
  {
    assert forall g :: OwnedBy(rows, {}, g) == {};
  }

  function Prefix(order: seq<Id>, k: nat): set<Id>
    requires k <= |order|
  {
    set i | i in order[..k]
  }

  lemma PrefixSnoc(order: seq<Id>, k: nat)
    requires k < |order| && Seqs.NoDuplicates(order)
    ensures Prefix(order, k + 1) == Prefix(order, k) + {order[k]} && order[k] !in Prefix(order, k)
  {
    assert order[..k + 1] == order[..k] + [order[k]];
  }

  /** One tick: `order` is the listing of the expired tunnels, read before the loop. */
  method Sweep(store: Database.Store, now: string, order: seq<Id>, faults: SweepFaults)
    requires Lists(order, ExpiredRows(store.tunnels, now))
    modifies store
    ensures store.Contents() == SweepSpec(old(store.Contents()), now, faults)
  {
    ghost var db := store.Contents();
    var listed := ExpiredRows(store.tunnels, now);
    NoneRaised(db.versions, db.tunnels);
    assert Prefix(order, 0) - faults.disable == {} && Prefix(order, 0) - faults.disable - faults.bump == {};
    for k := 0 to |order|
      invariant store.Contents() == db.(
                  tunnels := Disable(db.tunnels, Prefix(order, k) - faults.disable),
                  versions := Raised(db.versions, db.tunnels, Prefix(order, k) - faults.disable - faults.bump))
    {
      var i := order[k];
      PrefixSnoc(order, k);
      assert i in order;
      ghost var done := Prefix(order, k) - faults.disable;
      var ok := store.SetTunnelEnabled(i, false, i in faults.disable);
      if !ok {
        assert Prefix(order, k + 1) - faults.disable == done;
        continue;
      }
      DisableOne(db.tunnels, done, i);
      assert Prefix(order, k + 1) - faults.disable == done + {i};
      ok := store.BumpConfigVersion(listed[i].gateway, if i in faults.bump then Database.BumpLost else Database.BumpOk);
      if ok {
        RaisedOne(db.versions, db.tunnels, done - faults.bump, i);
        assert done + {i} - faults.bump == done - faults.bump + {i};
      } else {
        assert done + {i} - faults.bump == done - faults.bump;
      }
    }
    assert Prefix(order, |order|) == listed.Keys by { assert order[..|order|] == order; }
  }

  /** What a fault-free sweep does, tunnel by tunnel and gateway by gateway. */
  lemma SweepEffect(db: Database.Db, now: string, i: Id, g: Gateway)
    requires i in db.tunnels
    ensures var after := SweepSpec(db, now, NO_SWEEP_FAULTS);
      && after.tunnels.Keys == db.tunnels.Keys
      && after.tunnels[i] == (if Expired(db.tunnels[i], now) then db.tunnels[i].(enabled := false) else db.tunnels[i])
      && Database.VersionIn(after.versions, g) == Database.VersionIn(db.versions, g) +
           |set j | j in db.tunnels && db.tunnels[j].gateway == g && Expired(db.tunnels[j], now)|
  {
    RaisedVersion(db.versions, db.tunnels, ExpiredRows(db.tunnels, now).Keys, g);
    var none: set<Id> := {};
    assert ExpiredRows(db.tunnels, now).Keys - none == ExpiredRows(db.tunnels, now).Keys;
    assert OwnedBy(db.tunnels, ExpiredRows(db.tunnels, now).Keys, g)
        == set j | j in db.tunnels && db.tunnels[j].gateway == g && Expired(db.tunnels[j], now);
  }

  lemma RaisedVersion(versions: map<Gateway, nat>, rows: Rows, ids: set<Id>, g: Gateway)
    ensures Database.VersionIn(Raised(versions, rows, ids), g) ==
            Database.VersionIn(versions, g) + |OwnedBy(rows, ids, g)|
  {
    if g !in Raised(versions, rows, ids) { assert OwnedBy(rows, ids, g) == {}; }
  }

  /** A second sweep at the same time finds nothing to do. */
  lemma SweepIdempotent(db: Database.Db, now: string)
    ensures var after := SweepSpec(db, now, NO_SWEEP_FAULTS); SweepSpec(after, now, NO_SWEEP_FAULTS) == after
  {
    var after := SweepSpec(db, now, NO_SWEEP_FAULTS);
    assert ExpiredRows(after.tunnels, now).Keys == {};
    var none: set<Id> := {};
    assert ExpiredRows(after.tunnels, now).Keys - none == {};
    NoneRaised(after.versions, after.tunnels);
  }

  /** In times instead of texts: a sweep at `now` disables an enabled tunnel that expires at
      `expiry` exactly when that is not after `now` in whole seconds. */
  lemma SweepOnTime(db: Database.Db, i: Id, expiry: nat, now: nat)
    requires Times.InRange(expiry) && Times.InRange(now)
    requires i in db.tunnels && db.tunnels[i].enabled && db.tunnels[i].expires == Some(Times.FormatTime(expiry))
    ensures var after := SweepSpec(db, Times.FormatTime(now), NO_SWEEP_FAULTS);
      && i in after.tunnels
      && (after.tunnels[i].enabled <==> expiry / Times.SECOND > now / Times.SECOND)
  {
    SweepEffect(db, Times.FormatTime(now), i, db.tunnels[i].gateway);
    Times.FilterSound(expiry, now);
    Times.FormatNonEmpty(expiry);
  }

  lemma NeverExpires(db: Database.Db, i: Id, now: string)
    requires i in db.tunnels && db.tunnels[i].enabled && db.tunnels[i].expires.Or("") == ""
    ensures var after := SweepSpec(db, now, NO_SWEEP_FAULTS); i in after.tunnels && after.tunnels[i].enabled
  {
    SweepEffect(db, now, i, db.tunnels[i].gateway);
  }

  /** So for any enabled tunnel, with an expiry or without: a sweep at `later` leaves it enabled exactly
      when there is none or it is after `later` in whole seconds. */
  lemma SweptExactly(db: Database.Db, i: Id, expiry: Option<nat>, later: nat)
    requires Times.InRange(later) && i in db.tunnels && db.tunnels[i].enabled
    requires ExpiresAt(db.tunnels[i].expires, expiry)
    ensures var after := SweepSpec(db, Times.FormatTime(later), NO_SWEEP_FAULTS);
      && i in after.tunnels
      && (after.tunnels[i].enabled <==> expiry.None? || expiry.value / Times.SECOND > later / Times.SECOND)
  {
    match expiry
    case Some(t) => SweepOnTime(db, i, t, later);
    case None => NeverExpires(db, i, Times.FormatTime(later));
  }

  /** The stored text is that of the time, if there is one. */
  ghost predicate ExpiresAt(expires: Option<string>, expiry: Option<nat>) {
    match expiry
    case Some(t) => Times.InRange(t) && expires == Some(Times.FormatTime(t))
    case None => expires == None
  }

  // Expiry and config responses.

  /** A config response filters on `enabled` alone: an expired tunnel is served until a sweep has come
      by.  Any enabled tunnel with an expiry is an instance, at that very time. */
  lemma ExpiredServed(rows: Rows, g: Gateway, i: Id, now: string)
    requires i in rows && rows[i].gateway == g && Expired(rows[i], now)
    ensures i in EnabledRows(rows, g)
  {
  }

  lemma ExpiredAtItsTime(i: Id, t: Tunnel)
    requires t.enabled && t.expires.Some? && t.expires.value != ""
    ensures Expired(t, t.expires.value) && i in EnabledRows(map[i := t], t.gateway)
  {
    LessIrreflexive(t.expires.value);
  }

  /** A response holds no expired tunnel exactly when the gateway has none to serve. */
  lemma ListsNoneExpiredExactly(rows: Rows, g: Gateway, order: seq<Id>, now: string)
    requires Lists(order, EnabledRows(rows, g))
    ensures (forall k :: 0 <= k < |order| ==> order[k] in rows && !Expired(rows[order[k]], now)) <==>
            (forall i :: i in rows && rows[i].gateway == g ==> !Expired(rows[i], now))
  {
    forall k | 0 <= k < |order| ensures order[k] in EnabledRows(rows, g) { assert order[k] in order; }
    if forall k :: 0 <= k < |order| ==> order[k] in rows && !Expired(rows[order[k]], now) {
      forall i | i in rows && rows[i].gateway == g ensures !Expired(rows[i], now) {
        if rows[i].enabled {
          assert i in EnabledRows(rows, g) && i in order;
          var k :| 0 <= k < |order| && order[k] == i;
        }
      }
    }
  }

  /** `g`'s enabled tunnels that have not expired at `now`. */
  function Unexpired(rows: Rows, g: Gateway, now: string): Rows {
    map i | i in rows && rows[i].gateway == g && rows[i].enabled && !Expired(rows[i], now) :: rows[i]
  }

  /** Right after a fault-free sweep a response is what its documentation says: the gateway's enabled,
      unexpired tunnels, as they were before the sweep. */
  lemma ServedAfterSweep(db: Database.Db, now: string, g: Gateway)
    ensures EnabledRows(SweepSpec(db, now, NO_SWEEP_FAULTS).tunnels, g) == Unexpired(db.tunnels, g, now)
  {
    var none: set<Id> := {};
    assert ExpiredRows(db.tunnels, now).Keys - none == ExpiredRows(db.tunnels, now).Keys;
  }
}
