/** `POST /api/publish` on the server: server/internal/publish/publish.go. */
module ServerPublish {
  import opened Options
  import opened Data
  import Database
  import Janitor
  import Rules
  import Seqs
  import opened Text
  import Times
  import TunnelRules
  import opened TunnelService

  /** What `shortSuffix` returns: four characters of `[a-z0-9]`. */
  predicate IsShort(s: string) { |s| == 4 && All(s, Rules.IsSlugChar) }

  predicate AreShorts(shorts: seq<string>) { |shorts| == 10 && forall i :: 0 <= i < 10 ==> IsShort(shorts[i]) }

  function Domain(sub: string, suffix: string): string { sub + "." + suffix }

  /** The subdomain tried in round `k`; the suffix drawn in the last round is never used. */
  function Candidate(slug: string, shorts: seq<string>, k: nat): string
    requires k <= |shorts|
  {
    if k == 0 then slug else slug + "-" + shorts[k - 1]
  }

  predicate TakenAt(rows: Rows, suffix: string, slug: string, shorts: seq<string>, k: nat)
    requires k <= |shorts|
  {
    Database.DomainTaken(rows, Domain(Candidate(slug, shorts, k), suffix))
  }

  /** In which rounds the candidate's domain is taken. */
  function Rounds(rows: Rows, suffix: string, slug: string, shorts: seq<string>): nat -> bool {
    (k: nat) => k <= |shorts| && TakenAt(rows, suffix, slug, shorts, k)
  }

  function CandidateOf(slug: string, shorts: seq<string>, k: Option<nat>): Option<string>
    requires k.Some? ==> k.value <= |shorts|
  {
    if k.Some? then Some(Candidate(slug, shorts, k.value)) else None
  }

  /** The first of the ten candidates whose domain is free. */
  function Resolve(rows: Rows, suffix: string, slug: string, shorts: seq<string>): Option<string>
    requires |shorts| == 10
  {
    CandidateOf(slug, shorts, Seqs.FirstFree(Rounds(rows, suffix, slug, shorts), 0, 10))
  }

  /** `resolveDomain`: the first free candidate, and an error exactly when all ten are taken. */
  method ResolveDomain(store: Database.Store, suffix: string, slug: string, shorts: seq<string>)
    returns (r: Option<(string, string)>)
    requires |shorts| == 10
    ensures r.None? <==> forall k :: 0 <= k < 10 ==> TakenAt(store.tunnels, suffix, slug, shorts, k)
    ensures r.Some? ==> r.value.0 == Domain(r.value.1, suffix) && !Database.DomainTaken(store.tunnels, r.value.0)
    ensures match Resolve(store.tunnels, suffix, slug, shorts)
            case None => r == None
            case Some(sub) => r.Some? && r.value.1 == sub
  {
    var candidate := slug;
    ghost var taken := Rounds(store.tunnels, suffix, slug, shorts);
    for i := 0 to 10
      invariant candidate == Candidate(slug, shorts, i)
      invariant Seqs.FirstFree(taken, 0, 10) == Seqs.FirstFree(taken, i, 10)
    {
      var domain := candidate + "." + suffix;
      if !Database.DomainTaken(store.tunnels, domain) {
        assert !taken(i) && !TakenAt(store.tunnels, suffix, slug, shorts, i);
        return Some((domain, candidate));
      }
      assert taken(i);
      candidate := slug + "-" + shorts[i];
    }
    return None;
  }

  lemma SuffixedSlug(slug: string, short: string)
    requires Rules.IsSlug(slug) && IsShort(short)
    ensures Rules.IsSlug(slug + "-" + short)
  {
    var c := slug + "-" + short;
    assert forall i :: 0 <= i < |c| ==>
      c[i] == if i < |slug| then slug[i] else if i == |slug| then '-' else short[i - |slug| - 1];
  }

  lemma CandidateIsSlug(slug: string, shorts: seq<string>, k: nat)
    requires Rules.IsSlug(slug) && AreShorts(shorts) && k <= 10
    ensures Rules.IsSlug(Candidate(slug, shorts, k))
  {
    if k > 0 { SuffixedSlug(slug, shorts[k - 1]); }
  }

  lemma ResolvedIsSlug(rows: Rows, suffix: string, slug: string, shorts: seq<string>)
    requires Rules.IsSlug(slug) && AreShorts(shorts) && Resolve(rows, suffix, slug, shorts).Some?
    ensures var sub := Resolve(rows, suffix, slug, shorts).value;
      Rules.IsSlug(sub) && !Database.DomainTaken(rows, Domain(sub, suffix))
  {
    var k := Seqs.FirstFree(Rounds(rows, suffix, slug, shorts), 0, 10).value;
    assert !TakenAt(rows, suffix, slug, shorts, k);
    CandidateIsSlug(slug, shorts, k);
  }

  /** A resolved domain is free and made of the subdomain and the suffix; the subdomain is a name
      the service accepts and the agent keeps as it is; and the domain passes both domain checks
      exactly when the subdomain fits one label and the suffix is a host name. */
  lemma ResolvedDomain(rows: Rows, suffix: string, slug: string, shorts: seq<string>)
    requires Rules.IsSlug(slug) && AreShorts(shorts)
    requires Resolve(rows, suffix, slug, shorts).Some?
    ensures var sub := Resolve(rows, suffix, slug, shorts).value;
      && !Database.DomainTaken(rows, Domain(sub, suffix))
      && Rules.NameRe(sub) && Rules.SanitizeName(sub) == sub
      && (Rules.ValidDomain(Domain(sub, suffix)) <==> |sub| <= 63 && Rules.HostnameRe(TrimRight(suffix, IsSpace)))
  {
    var sub := Resolve(rows, suffix, slug, shorts).value;
    ResolvedIsSlug(rows, suffix, slug, shorts);
    Rules.SlugIsStableName(sub);
    Rules.SlugDomain(sub, suffix);
  }

  datatype Request = Request(
    gateway: Gateway, name: string, kind: string, targetHost: string, targetPort: int,
    subdomain: string, ttl: string)

  /** Settings and library functions: `parse` is `time.ParseDuration` and `stamp` is `formatTime`,
      both on nanoseconds. */
  datatype Settings = Settings(suffix: string, defaultTTL: int, parse: string -> Option<int>, stamp: int -> string)

  /** `resolveTTL`. */
  function ResolveTTL(s: Settings, ttl: string): Option<int> {
    if TrimSpace(ttl) == "" then Some(s.defaultTTL) else s.parse(ttl)
  }

  /** No expiry for a zero or negative duration. */
  function Expiry(s: Settings, now: int, ttl: int): Option<string> {
    if ttl > 0 then Some(s.stamp(now + ttl)) else None
  }

  predicate Publishable(kind: string) { Rules.ToLower(TrimSpace(kind)) in {"", "http"} }

  function Slug(req: Request): string { Rules.Slugify(if req.subdomain == "" then req.name else req.subdomain) }

  function CreateRequest(s: Settings, req: Request, sub: string, expires: Option<string>): CreateInput {
    CreateInput(req.gateway, sub, "http", req.targetHost, req.targetPort, Domain(sub, s.suffix), 0, None, expires)
  }

  /** The request to the tunnel service that a publish request leads to. */
  function Prepare(s: Settings, rows: Rows, req: Request, shorts: seq<string>, now: int): Result<CreateInput>
    requires |shorts| == 10
  {
    if !Publishable(req.kind) || Slug(req) == "" then Err(BadRequest)
    else match Resolve(rows, s.suffix, Slug(req), shorts)
      case None => Err(Internal)
      case Some(sub) =>
        match ResolveTTL(s, req.ttl)
        case None => Err(BadRequest)
        case Some(ttl) => Ok(CreateRequest(s, req, sub, Expiry(s, now, ttl)))
  }

  function CreatePrepared(ip: string -> bool, ports: Ports, db: Database.Db, prepared: Result<CreateInput>, id: Id,
                          fault: Fault): (Result<Tunnel>, Database.Db)
  {
    match prepared
    case Err(e) => (Err(e), db)
    case Ok(input) => CreateSpec(ip, ports, db, input, id, fault)
  }

  function PublishSpec(ip: string -> bool, ports: Ports, s: Settings, db: Database.Db, req: Request,
                       shorts: seq<string>, now: int, id: Id, fault: Fault): (Result<Tunnel>, Database.Db)
    requires |shorts| == 10
  {
    CreatePrepared(ip, ports, db, Prepare(s, db.tunnels, req, shorts, now), id, fault)
  }

  /** `publish`. */
  method Publish(service: Service, s: Settings, req: Request, shorts: seq<string>, now: int, id: Id, fault: Fault)
    returns (r: Result<Tunnel>)
    requires |shorts| == 10
    modifies service.store
    ensures (r, service.store.Contents()) ==
            PublishSpec(service.ip, service.ports, s, old(service.store.Contents()), req, shorts, now, id, fault)
  {
    if !Publishable(req.kind) { return Err(BadRequest); }
    var slug := Slug(req);
    if slug == "" { return Err(BadRequest); }
    var resolved := ResolveDomain(service.store, s.suffix, slug, shorts);
    if resolved.None? { return Err(Internal); }
    var ttl := ResolveTTL(s, req.ttl);
    if ttl.None? { return Err(BadRequest); }
    r := service.Create(
      CreateInput(req.gateway, resolved.value.1, "http", req.targetHost, req.targetPort, resolved.value.0, 0,
                  None, Expiry(s, now, ttl.value)),
      id, fault);
  }

  // When publishing succeeds.

  /** What a resolved request still needs: only the first three can fail for a caller who names a
      free tunnel name, the last two are about lengths and configuration. */
  predicate Creatable(ip: string -> bool, suffix: string, db: Database.Db, req: Request, sub: string) {
    && req.gateway in db.gateways
    && Rules.ValidHost(ip, req.targetHost) && Rules.ValidPort(req.targetPort)
    && !Database.NameTaken(db.tunnels, req.gateway, sub)
    && |sub| <= 63 && Rules.HostnameRe(TrimRight(suffix, IsSpace))
  }

  lemma HttpKind()
    ensures Rules.ToLower(TrimSpace("http")) == "http"
  {
    TrimFixed("http", IsSpace);
    assert Rules.ToLower("http") == "http";
  }

  lemma SlugNames(sub: string)
    requires Rules.IsSlug(sub)
    ensures TrimSpace(sub) == sub && Rules.NameRe(sub)
  {
    TrimFixed(sub, IsSpace);
    Rules.SlugIsStableName(sub);
  }

  lemma RequestFacts(s: Settings, req: Request, sub: string, expires: Option<string>)
    requires Rules.IsSlug(sub)
    ensures var input := CreateRequest(s, req, sub, expires);
      && Kind(input) == "http" && KnownKind(input)
      && TrimSpace(input.name) == sub && Rules.NameRe(sub)
      && input.domain != ""
      && (Rules.ValidDomain(input.domain) <==> |sub| <= 63 && Rules.HostnameRe(TrimRight(s.suffix, IsSpace)))
  {
    RequestKind(CreateRequest(s, req, sub, expires));
    SlugNames(sub);
    Rules.SlugDomain(sub, s.suffix);
    assert Domain(sub, s.suffix) != "" by { assert |Domain(sub, s.suffix)| >= |sub|; }
  }

  lemma RequestKind(input: CreateInput)
    requires input.kind == "http"
    ensures Kind(input) == "http" && KnownKind(input)
  {
    HttpKind();
  }

  lemma ResolvedAdmissible(ip: string -> bool, ports: Ports, s: Settings, db: Database.Db, req: Request, sub: string,
                           expires: Option<string>)
    requires Rules.IsSlug(sub) && !Database.DomainTaken(db.tunnels, Domain(sub, s.suffix))
    ensures TunnelRules.Admissible(ip, ports, db, CreateRequest(s, req, sub, expires)) <==>
            Creatable(ip, s.suffix, db, req, sub)
    ensures Creatable(ip, s.suffix, db, req, sub) ==>
            Admit(ip, ports, db, CreateRequest(s, req, sub, expires)) ==
            Ok(Tunnel(req.gateway, sub, "http", req.targetHost, req.targetPort, Domain(sub, s.suffix), 0,
                      true, expires))
  {
    var input := CreateRequest(s, req, sub, expires);
    RequestFacts(s, req, sub, expires);
    TunnelRules.WellFormedParts(ip, input);
    TunnelRules.HttpAdmissible(ip, ports, db, input, sub);
    TunnelRules.AdmitMeaning(ip, ports, db, input);
    if Creatable(ip, s.suffix, db, req, sub) { TunnelRules.HttpAdmitted(ip, ports, db, input, sub); }
  }

  lemma PublishWith(ip: string -> bool, ports: Ports, s: Settings, db: Database.Db, req: Request, shorts: seq<string>,
                    now: int, id: Id, sub: Option<string>, ttl: Option<int>, expires: Option<string>)
    requires AreShorts(shorts) && id !in db.tunnels
    requires sub == Resolve(db.tunnels, s.suffix, Slug(req), shorts) && ttl == ResolveTTL(s, req.ttl)
    requires ttl.Some? ==> expires == Expiry(s, now, ttl.value)
    ensures var (r, after) := PublishSpec(ip, ports, s, db, req, shorts, now, id, NO_FAULT);
      && (r.Ok? <==>
            && Publishable(req.kind) && Slug(req) != "" && sub.Some? && ttl.Some?
            && Creatable(ip, s.suffix, db, req, sub.value))
      && (r.Ok? ==>
            && r.value == Tunnel(req.gateway, sub.value, "http", req.targetHost, req.targetPort,
                                 sub.value + "." + s.suffix, 0, true, expires)
            && after == db.(tunnels := db.tunnels[id := r.value],
                            versions := Database.Bumped(db.versions, req.gateway)))
      && (r.Err? ==> after == db)
  {
    PreparedMeaning(s, db.tunnels, req, shorts, now);
    if Prepare(s, db.tunnels, req, shorts, now).Ok? {
      PreparedCreates(ip, ports, s, db, req, sub.value, expires, id);
    }
  }

  /** `ttl` is the duration a publish request asks for, the default if it asks for none, and `expires`
      the text of the time that is this much after `now`, or nothing for a duration not positive. */
  predicate Lasts(s: Settings, req: Request, now: int, ttl: Option<int>, expires: Option<string>) {
    && ttl == (if TrimSpace(req.ttl) == "" then Some(s.defaultTTL) else s.parse(req.ttl))
    && expires == (if ttl.Some? && ttl.value > 0 then Some(s.stamp(now + ttl.value)) else None)
  }

  lemma KindParts(kind: string)
    ensures Publishable(kind) <==> Rules.ToLower(TrimSpace(kind)) == "" || Rules.ToLower(TrimSpace(kind)) == "http"
  {
  }

  lemma LastsMeans(s: Settings, req: Request, now: int, ttl: Option<int>, expires: Option<string>)
    requires Lasts(s, req, now, ttl, expires)
    ensures ttl == ResolveTTL(s, req.ttl) && (ttl.Some? ==> expires == Expiry(s, now, ttl.value))
  {
  }

  lemma RequestParts(s: Settings, req: Request, now: int, ttl: Option<int>, expires: Option<string>)
    requires Lasts(s, req, now, ttl, expires)
    ensures ttl == ResolveTTL(s, req.ttl) && (ttl.Some? ==> expires == Expiry(s, now, ttl.value))
    ensures Slug(req) == Rules.Slugify(if req.subdomain != "" then req.subdomain else req.name)
    ensures Publishable(req.kind) <==>
            Rules.ToLower(TrimSpace(req.kind)) == "" || Rules.ToLower(TrimSpace(req.kind)) == "http"
  {
    LastsMeans(s, req, now, ttl, expires);
    KindParts(req.kind);
  }

  /** Publishing, without faults, succeeds exactly when the type is blank or http, the given subdomain,
      or without one the name, makes a slug, one of ten subdomains is free, the duration is blank or
      readable, and the request is creatable.  The new tunnel is then enabled, named after its
      subdomain, and expires the duration after now, or never when that is not positive. */
  lemma PublishSucceeds(ip: string -> bool, ports: Ports, s: Settings, db: Database.Db, req: Request,
                        shorts: seq<string>, now: int, id: Id, ttl: Option<int>, expires: Option<string>)
    requires AreShorts(shorts) && id !in db.tunnels && Lasts(s, req, now, ttl, expires)
    ensures var slug := Rules.Slugify(if req.subdomain != "" then req.subdomain else req.name);
      var sub := Resolve(db.tunnels, s.suffix, slug, shorts);
      var kind := Rules.ToLower(TrimSpace(req.kind));
      var (r, after) := PublishSpec(ip, ports, s, db, req, shorts, now, id, NO_FAULT);
      && (r.Ok? <==>
            && (kind == "" || kind == "http") && slug != "" && sub.Some? && ttl.Some?
            && Creatable(ip, s.suffix, db, req, sub.value))
      && (r.Ok? ==>
            && r.value == Tunnel(req.gateway, sub.value, "http", req.targetHost, req.targetPort,
                                 sub.value + "." + s.suffix, 0, true, expires)
            && after == db.(tunnels := db.tunnels[id := r.value],
                            versions := Database.Bumped(db.versions, req.gateway)))
      && (r.Err? ==> after == db)
  {
    RequestParts(s, req, now, ttl, expires);
    PublishWith(ip, ports, s, db, req, shorts, now, id, Resolve(db.tunnels, s.suffix, Slug(req), shorts), ttl, expires);
  }

  /** Which of the ten subdomains is taken: the slug itself when its domain is free, else the slug with
      the first suffix that makes a free one; none exactly when all ten domains are held. */
  lemma ResolvedFirst(rows: Rows, suffix: string, slug: string, shorts: seq<string>)
    requires |shorts| == 10
    ensures var sub := Resolve(rows, suffix, slug, shorts);
      if !Held(rows, slug + "." + suffix) then sub == Some(slug)
      else if sub.None? then forall k :: 0 <= k < 9 ==> Held(rows, slug + "-" + shorts[k] + "." + suffix)
      else exists k :: && 0 <= k < 9 && sub.value == slug + "-" + shorts[k]
                       && !Held(rows, slug + "-" + shorts[k] + "." + suffix)
                       && forall j :: 0 <= j < k ==> Held(rows, slug + "-" + shorts[j] + "." + suffix)
  {
    var taken := Rounds(rows, suffix, slug, shorts);
    assert Held(rows, slug + "." + suffix) <==> taken(0);
    forall k | 0 <= k < 9 ensures Held(rows, slug + "-" + shorts[k] + "." + suffix) <==> taken(k + 1) {
      assert Candidate(slug, shorts, k + 1) == slug + "-" + shorts[k];
    }
    var found := Seqs.FirstFree(taken, 0, 10);
    if found.Some? && taken(0) {
      var k := found.value - 1;
      assert 0 <= k < 9 && Candidate(slug, shorts, found.value) == slug + "-" + shorts[k];
      forall j | 0 <= j < k ensures Held(rows, slug + "-" + shorts[j] + "." + suffix) { assert taken(j + 1); }
    }
  }

  /** A tunnel has the domain. */
  predicate Held(rows: Rows, domain: string) { exists i :: i in rows && rows[i].domain == domain }

  /** What `formatTime` does, on the times it is asked for. */
  ghost predicate Stamps(s: Settings) {
    forall t: nat :: Times.InRange(t) ==> s.stamp(t) == Times.FormatTime(t)
  }

  /** The time that is `ttl` after `now`, if `ttl` is positive. */
  function ExpiryTime(now: nat, ttl: int): Option<nat> { if ttl > 0 then Some(now + ttl) else None }

  lemma LastsUntil(s: Settings, req: Request, now: int, ttl: int, expires: Option<string>)
    requires Lasts(s, req, now, Some(ttl), expires)
    ensures expires == if ttl > 0 then Some(s.stamp(now + ttl)) else None
  {
  }

  lemma StampOf(s: Settings, t: nat)
    requires Stamps(s) && Times.InRange(t)
    ensures s.stamp(t) == Times.FormatTime(t)
  {
  }

  lemma StampedIn(s: Settings, req: Request, now: nat, ttl: int, expires: Option<string>)
    requires Stamps(s) && Lasts(s, req, now, Some(ttl), expires)
    requires now / Times.SECOND < Times.YearStart(9700) * 86400 && ttl <= Times.MAX_DURATION
    ensures Janitor.ExpiresAt(expires, ExpiryTime(now, ttl))
  {
    LastsUntil(s, req, now, ttl, expires);
    if ttl > 0 {
      Times.ExpiryInRange(now, ttl);
      StampOf(s, now + ttl);
    }
  }

  lemma SweepPublished(db: Database.Db, id: Id, s: Settings, req: Request, now: nat, ttl: int, expires: Option<string>,
                       later: nat)
    requires Stamps(s) && Lasts(s, req, now, Some(ttl), expires)
    requires now / Times.SECOND < Times.YearStart(9700) * 86400 && ttl <= Times.MAX_DURATION
    requires Times.InRange(later) && id in db.tunnels && db.tunnels[id].enabled && db.tunnels[id].expires == expires
    ensures var after := Janitor.SweepSpec(db, Times.FormatTime(later), Janitor.NO_SWEEP_FAULTS);
      && id in after.tunnels
      && (after.tunnels[id].enabled <==> ttl <= 0 || (now + ttl) / Times.SECOND > later / Times.SECOND)
  {
    StampedIn(s, req, now, ttl, expires);
    Janitor.SweptExactly(db, id, ExpiryTime(now, ttl), later);
  }

  lemma RowPublished(ip: string -> bool, ports: Ports, s: Settings, db: Database.Db, req: Request,
                     shorts: seq<string>, now: nat, id: Id, ttl: int, expires: Option<string>)
    returns (published: Database.Db)
    requires AreShorts(shorts) && id !in db.tunnels && Lasts(s, req, now, Some(ttl), expires)
    requires PublishSpec(ip, ports, s, db, req, shorts, now, id, NO_FAULT).0.Ok?
    ensures published == PublishSpec(ip, ports, s, db, req, shorts, now, id, NO_FAULT).1
    ensures id in published.tunnels && published.tunnels[id].enabled && published.tunnels[id].expires == expires
  {
    PublishSucceeds(ip, ports, s, db, req, shorts, now, id, Some(ttl), expires);
    published := PublishSpec(ip, ports, s, db, req, shorts, now, id, NO_FAULT).1;
  }

  /** From the request to the sweep, up to the year 9700: a published tunnel stays enabled in a sweep at
      `later` exactly when the duration asked for, or the default, is not over by then in whole
      seconds; one published without a positive duration stays for good. */
  lemma PublishedUntil(ip: string -> bool, ports: Ports, s: Settings, db: Database.Db, req: Request,
                       shorts: seq<string>, now: nat, id: Id, ttl: int, expires: Option<string>, later: nat)
    returns (published: Database.Db)
    requires AreShorts(shorts) && id !in db.tunnels && Stamps(s) && Times.InRange(later)
    requires PublishSpec(ip, ports, s, db, req, shorts, now, id, NO_FAULT).0.Ok?
    requires Lasts(s, req, now, Some(ttl), expires)
    requires now / Times.SECOND < Times.YearStart(9700) * 86400 && ttl <= Times.MAX_DURATION
    ensures published == PublishSpec(ip, ports, s, db, req, shorts, now, id, NO_FAULT).1
    ensures var after := Janitor.SweepSpec(published, Times.FormatTime(later), Janitor.NO_SWEEP_FAULTS);
      && id in after.tunnels
      && (after.tunnels[id].enabled <==> ttl <= 0 || (now + ttl) / Times.SECOND > later / Times.SECOND)
  {
    published := RowPublished(ip, ports, s, db, req, shorts, now, id, ttl, expires);
    SweepPublished(published, id, s, req, now, ttl, expires, later);
  }

  lemma SlugIsSlug(req: Request)
    ensures Slug(req) == "" || Rules.IsSlug(Slug(req))
  {
    Rules.SlugifyGivesSlug(if req.subdomain == "" then req.name else req.subdomain);
  }

  lemma PreparedMeaning(s: Settings, rows: Rows, req: Request, shorts: seq<string>, now: int)
    requires AreShorts(shorts)
    ensures var sub := Resolve(rows, s.suffix, Slug(req), shorts);
      var ttl := ResolveTTL(s, req.ttl);
      var prepared := Prepare(s, rows, req, shorts, now);
      && (prepared.Ok? <==> Publishable(req.kind) && Slug(req) != "" && sub.Some? && ttl.Some?)
      && (prepared.Ok? ==>
            && prepared.value == CreateRequest(s, req, sub.value, Expiry(s, now, ttl.value))
            && Rules.IsSlug(sub.value) && !Database.DomainTaken(rows, Domain(sub.value, s.suffix)))
  {
    SlugIsSlug(req);
    if Slug(req) != "" && Resolve(rows, s.suffix, Slug(req), shorts).Some? {
      ResolvedIsSlug(rows, s.suffix, Slug(req), shorts);
    }
  }

  lemma PreparedCreates(ip: string -> bool, ports: Ports, s: Settings, db: Database.Db, req: Request, sub: string,
                        expires: Option<string>, id: Id)
    requires Rules.IsSlug(sub) && !Database.DomainTaken(db.tunnels, Domain(sub, s.suffix)) && id !in db.tunnels
    ensures var (r, after) := CreatePrepared(ip, ports, db, Ok(CreateRequest(s, req, sub, expires)), id, NO_FAULT);
      && (r.Ok? <==> Creatable(ip, s.suffix, db, req, sub))
      && (r.Ok? ==>
            && r.value == Tunnel(req.gateway, sub, "http", req.targetHost, req.targetPort, Domain(sub, s.suffix), 0,
                                 true, expires)
            && after == db.(tunnels := db.tunnels[id := r.value],
                            versions := Database.Bumped(db.versions, req.gateway)))
      && (r.Err? ==> after == db)
  {
    var input := CreateRequest(s, req, sub, expires);
    ResolvedAdmissible(ip, ports, s, db, req, sub, expires);
    TunnelRules.AdmitMeaning(ip, ports, db, input);
    InsertOk(db, Admit(ip, ports, db, input), id);
  }

  lemma InsertOk(db: Database.Db, row: Result<Tunnel>, id: Id)
    requires id !in db.tunnels
    ensures var (r, after) := Insert(db, row, id, NO_FAULT);
      && r == row
      && (row.Ok? ==> after == db.(tunnels := db.tunnels[id := row.value],
                                   versions := Database.Bumped(db.versions, row.value.gateway)))
      && (row.Err? ==> after == db)
  {
  }
}
