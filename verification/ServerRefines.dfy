/** The service's operations, taken as atomic, are runs of the protocol machine's server: so what
    holds of all interleavings holds of them, and a lost bump is an operation pending for good. */
module ServerRefines {
  import opened Options
  import opened Data
  import opened Protocol
  import D = Database
  import J = Janitor
  import H = Health
  import R = ServerRuns
  import S = TunnelService

  lemma {:induction false} ServerAppend(v: Server, a: seq<ServerEvent>, b: seq<ServerEvent>)
    requires ServerRun(v, a).Some?
    ensures ServerRun(v, a + b) == ServerRun(ServerRun(v, a).value, b)
    decreases |a|
  {
    if a == [] {
      assert a + b == b;
    } else {
      assert (a + b)[0] == a[0] && (a + b)[1..] == a[1..] + b;
      ServerAppend(NextServer(v, a[0]).value, a[1..], b);
    }
  }

  lemma One(v: Server, e: ServerEvent)
    ensures ServerRun(v, [e]) == NextServer(v, e)
  {
    assert [e][1..] == [];
  }

  lemma ServerCons(v: Server, e: ServerEvent, es: seq<ServerEvent>)
    requires NextServer(v, e).Some?
    ensures ServerRun(v, [e] + es) == ServerRun(NextServer(v, e).value, es)
  {
    assert ([e] + es)[1..] == es;
  }

  /** The machine's tables are the database's. */
  predicate Matches(db: D.Db, v: Server) { v.rows == db.tunnels && v.versions == db.versions }

  lemma FreshOp(ops: map<OpId, Op>) returns (o: OpId)
    ensures o !in ops
  {
    o := Above(ops.Keys);
  }

  lemma {:induction false} Above(ids: set<OpId>) returns (o: OpId)
    ensures forall i :: i in ids ==> i < o
    decreases |ids|
  {
    if ids == {} {
      o := 0;
    } else {
      var i :| i in ids;
      var rest := Above(ids - {i});
      o := if i < rest then rest else i + 1;
      forall j | j in ids ensures j < o { assert j == i || j in ids - {i}; }
    }
  }

  /** The last statement of an operation, if it is not lost. */
  function BumpEvents(o: OpId, bump: D.BumpFault): seq<ServerEvent> {
    if bump.BumpLost? then [] else [Bump(o)]
  }

  lemma BumpRefines(v: Server, o: OpId, bump: D.BumpFault)
    requires o in v.ops && v.ops[o].Unbumped?
    ensures ServerRun(v, BumpEvents(o, bump)).Some?
    ensures var w := ServerRun(v, BumpEvents(o, bump)).value;
      && w.rows == v.rows
      && w.versions == (if bump.BumpLost? then v.versions else D.Bumped(v.versions, v.ops[o].gateway))
  {
    One(v, Bump(o));
  }

  /** A read or check, a row statement, and the bump. */
  lemma ThreeSteps(v: Server, begin: ServerEvent, change: ServerEvent, o: OpId, bump: D.BumpFault)
    requires NextServer(v, begin).Some? && NextServer(NextServer(v, begin).value, change).Some?
    requires var w := NextServer(NextServer(v, begin).value, change).value; o in w.ops && w.ops[o].Unbumped?
    ensures var w := NextServer(NextServer(v, begin).value, change).value;
      var end := ServerRun(v, [begin] + ([change] + BumpEvents(o, bump)));
      && end.Some? && end.value.rows == w.rows
      && end.value.versions == (if bump.BumpLost? then w.versions else D.Bumped(w.versions, w.ops[o].gateway))
  {
    var v1 := NextServer(v, begin).value;
    var v2 := NextServer(v1, change).value;
    One(v, begin);
    One(v1, change);
    BumpRefines(v2, o, bump);
    ServerAppend(v, [begin], [change] + BumpEvents(o, bump));
    ServerAppend(v1, [change], BumpEvents(o, bump));
  }

  /** The id a creation draws has never been used. */
  predicate FreshId(v: Server, id: Id) {
    id !in v.inserted && forall o :: o in v.ops && v.ops[o].Inserting? ==> v.ops[o].id != id
  }

  /** The steps of two creations that overlap: both have passed their checks before either inserts. */
  function Overlapping(o: OpId, p: OpId, i: Id, j: Id, t: Tunnel, u: Tunnel): seq<ServerEvent> {
    [BeginCreate(o, i, t)] + ([BeginCreate(p, j, u)] + InsertBoth(o, p))
  }

  function InsertBoth(o: OpId, p: OpId): seq<ServerEvent> {
    [Insert(o)] + ([Insert(p)] + BumpBoth(o, p))
  }

  function BumpBoth(o: OpId, p: OpId): seq<ServerEvent> {
    [Bump(o)] + ([Bump(p)] + [])
  }

  lemma OverlapBegins(v: Server, o: OpId, p: OpId, i: Id, j: Id, t: Tunnel, u: Tunnel) returns (w: Server)
    requires o !in v.ops && p !in v.ops && o != p && i != j && FreshId(v, i) && FreshId(v, j)
    ensures NextServer(v, BeginCreate(o, i, t)).Some?
    ensures NextServer(NextServer(v, BeginCreate(o, i, t)).value, BeginCreate(p, j, u)) == Some(w)
    ensures w == v.(ops := v.ops[o := Inserting(i, t)][p := Inserting(j, u)])
  {
    var v1 := NextServer(v, BeginCreate(o, i, t)).value;
    w := NextServer(v1, BeginCreate(p, j, u)).value;
  }

  lemma BumpsRun(v: Server, o: OpId, p: OpId)
    requires o != p && o in v.ops && v.ops[o].Unbumped? && p in v.ops && v.ops[p].Unbumped?
    ensures ServerRun(v, BumpBoth(o, p)).Some? && ServerRun(v, BumpBoth(o, p)).value.rows == v.rows
  {
    var w := NextServer(v, Bump(o)).value;
    ServerCons(v, Bump(o), [Bump(p)] + []);
    ServerCons(w, Bump(p), []);
  }

  lemma InsertsRun(v: Server, o: OpId, p: OpId, i: Id, j: Id, t: Tunnel, u: Tunnel)
    requires o != p && o in v.ops && v.ops[o] == Inserting(i, t) && p in v.ops && v.ops[p] == Inserting(j, u)
    ensures ServerRun(v, InsertBoth(o, p)).Some?
    ensures ServerRun(v, InsertBoth(o, p)).value.rows == v.rows[i := t][j := u]
  {
    var v1 := NextServer(v, Insert(o)).value;
    var v2 := NextServer(v1, Insert(p)).value;
    ServerCons(v, Insert(o), [Insert(p)] + BumpBoth(o, p));
    ServerCons(v1, Insert(p), BumpBoth(o, p));
    BumpsRun(v2, o, p);
  }

  lemma OverlapRuns(v: Server, o: OpId, p: OpId, i: Id, j: Id, t: Tunnel, u: Tunnel)
    requires o !in v.ops && p !in v.ops && o != p && i != j && FreshId(v, i) && FreshId(v, j)
    ensures ServerRun(v, Overlapping(o, p, i, j, t, u)).Some?
    ensures ServerRun(v, Overlapping(o, p, i, j, t, u)).value.rows == v.rows[i := t][j := u]
  {
    var v1 := NextServer(v, BeginCreate(o, i, t)).value;
    var v2 := OverlapBegins(v, o, p, i, j, t, u);
    ServerCons(v, BeginCreate(o, i, t), [BeginCreate(p, j, u)] + InsertBoth(o, p));
    ServerCons(v1, BeginCreate(p, j, u), InsertBoth(o, p));
    InsertsRun(v2, o, p, i, j, t, u);
  }

  lemma InsertRefines(db: D.Db, row: S.Result<Tunnel>, id: Id, fault: S.Fault, v: Server) returns (es: seq<ServerEvent>)
    requires Matches(db, v) && FreshId(v, id)
    ensures ServerRun(v, es).Some? && Matches(S.Insert(db, row, id, fault).1, ServerRun(v, es).value)
  {
    if row.Err? || fault.write || id in db.tunnels {
      es := [];
    } else {
      var o := FreshOp(v.ops);
      ThreeSteps(v, BeginCreate(o, id, row.value), Insert(o), o, fault.bump);
      es := [BeginCreate(o, id, row.value)] + ([Insert(o)] + BumpEvents(o, fault.bump));
    }
  }

  lemma RewriteRefines(db: D.Db, refused: Option<S.Error>, id: Id, u: D.Patch, fault: S.Fault, v: Server)
    returns (es: seq<ServerEvent>)
    requires Matches(db, v) && id in db.tunnels
    ensures ServerRun(v, es).Some? && Matches(S.Rewrite(db, refused, id, u, fault).1, ServerRun(v, es).value)
  {
    if refused.Some? || fault.write {
      es := [];
    } else {
      var o := FreshOp(v.ops);
      var t := D.Patched(db.tunnels[id], u);
      assert Overwrite(v.rows[id], t) == t && Overwrite(v.rows[id], Overwrite(v.rows[id], t)) == t;
      ThreeSteps(v, ReadForUpdate(o, id, t), Update(o), o, fault.bump);
      es := [ReadForUpdate(o, id, t)] + ([Update(o)] + BumpEvents(o, fault.bump));
    }
  }

  lemma DeleteRefines(db: D.Db, id: Id, fault: S.Fault, v: Server) returns (es: seq<ServerEvent>)
    requires Matches(db, v)
    ensures ServerRun(v, es).Some? && Matches(S.DeleteSpec(db, id, fault).1, ServerRun(v, es).value)
  {
    if id !in db.tunnels || fault.write {
      es := [];
    } else {
      var o := FreshOp(v.ops);
      ThreeSteps(v, ReadForDelete(o, id), Delete(o), o, fault.bump);
      es := [ReadForDelete(o, id)] + ([Delete(o)] + BumpEvents(o, fault.bump));
    }
  }

  /** One turn of the sweep's loop. */
  lemma TurnRefines(db: D.Db, done: set<Id>, i: Id, lost: set<Id>, v: Server) returns (es: seq<ServerEvent>)
    requires i in db.tunnels && i !in done
    requires v.rows == J.Disable(db.tunnels, done) && v.versions == J.Raised(db.versions, db.tunnels, done - lost)
    ensures ServerRun(v, es).Some?
    ensures var w := ServerRun(v, es).value;
      && w.rows == J.Disable(db.tunnels, done + {i})
      && w.versions == J.Raised(db.versions, db.tunnels, done + {i} - lost)
  {
    var o := FreshOp(v.ops);
    var bump := if i in lost then D.BumpLost else D.BumpOk;
    es := [ListExpired(o, i)] + ([Disable(o)] + BumpEvents(o, bump));
    ThreeSteps(v, ListExpired(o, i), Disable(o), o, bump);
    J.DisableOne(db.tunnels, done, i);
    if i in lost {
      assert done + {i} - lost == done - lost;
    } else {
      J.RaisedOne(db.versions, db.tunnels, done - lost, i);
      assert done + {i} - lost == done - lost + {i};
    }
  }

  /** The sweep's loop, from `done` on: one operation for each tunnel left. */
  lemma {:induction false} LoopRefines(db: D.Db, done: set<Id>, todo: set<Id>, lost: set<Id>, v: Server)
    returns (es: seq<ServerEvent>)
    requires todo <= db.tunnels.Keys && done !! todo
    requires v.rows == J.Disable(db.tunnels, done) && v.versions == J.Raised(db.versions, db.tunnels, done - lost)
    ensures ServerRun(v, es).Some?
    ensures var w := ServerRun(v, es).value;
      && w.rows == J.Disable(db.tunnels, done + todo)
      && w.versions == J.Raised(db.versions, db.tunnels, done + todo - lost)
    decreases |todo|
  {
    if todo == {} {
      es := [];
      assert done + todo == done;
    } else {
      var i :| i in todo;
      var first := TurnRefines(db, done, i, lost, v);
      var rest := LoopRefines(db, done + {i}, todo - {i}, lost, ServerRun(v, first).value);
      es := first + rest;
      ServerAppend(v, first, rest);
      assert done + {i} + (todo - {i}) == done + todo;
    }
  }

  lemma SweepRefines(db: D.Db, now: string, faults: J.SweepFaults, v: Server) returns (es: seq<ServerEvent>)
    requires Matches(db, v)
    ensures ServerRun(v, es).Some? && Matches(J.SweepSpec(db, now, faults), ServerRun(v, es).value)
  {
    var ids := J.ExpiredRows(db.tunnels, now).Keys - faults.disable;
    J.NoneRaised(db.versions, db.tunnels);
    var none: set<Id> := {};
    assert none - faults.bump == {} && none + ids == ids;
    es := LoopRefines(db, {}, ids, faults.bump, v);
  }

  lemma RegisterRefines(db: D.Db, g: Gateway, ensured: bool, v: Server) returns (es: seq<ServerEvent>)
    requires Matches(db, v)
    ensures ServerRun(v, es).Some? && Matches(R.RegisterSpec(db, g, ensured), ServerRun(v, es).value)
  {
    es := if g !in db.gateways && ensured then [EnsureVersion(g)] else [];
    if es != [] { One(v, EnsureVersion(g)); }
  }

  /** Every sequential operation, with any of its faults, is a run of the machine's server. */
  lemma OpRefines(env: R.Env, db: D.Db, op: R.Op, v: Server) returns (es: seq<ServerEvent>)
    requires Matches(db, v)
    requires op.Create? || op.Publish? ==> FreshId(v, op.id)
    ensures ServerRun(v, es).Some? && Matches(R.Apply(env, db, op), ServerRun(v, es).value)
  {
    match op
    case Create(input, id, fault) =>
      es := InsertRefines(db, S.Admit(env.ip, env.ports, db, input), id, fault, v);
    case Publish(_, _, _, _, id, fault) =>
      var create := R.PublishIsCreate(env, db, op);
      if create.Some? {
        es := InsertRefines(db, S.Admit(env.ip, env.ports, db, create.value.input), id, fault, v);
      } else {
        es := [];
      }
    case Update(id, u, fault) =>
      if id in db.tunnels {
        es := RewriteRefines(db, S.CheckPatch(env.ip, db.tunnels, db.tunnels[id], u), id, u, fault, v);
      } else {
        es := [];
      }
    case Delete(id, fault) => es := DeleteRefines(db, id, fault, v);
    case Sweep(now, faults) => es := SweepRefines(db, now, faults, v);
    case Register(g, ensured) => es := RegisterRefines(db, g, ensured, v);
    case Report(g, checks) =>
      R.ReportTunnels(env.find, db, g, checks);
      es := [];
  }
}
