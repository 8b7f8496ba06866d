/** `frpc.toml` rendering: agent/internal/frpc/render.go. */
module Frpc {
  import opened Options
  import Seqs
  import opened Text
  import opened Rules
  import Decimal

  datatype Proxy = Proxy(
    name: string, kind: string, localIP: string, localPort: int, domain: string, remotePort: int)

  datatype RenderInput = RenderInput(
    serverAddr: string, serverPort: int, authToken: string, proxies: seq<Proxy>)

  datatype RenderError = EmptyServerAddr | BadServerPort(port: int)

  /** Why a proxy was skipped; the names are sanitised except in `EmptyName`. */
  datatype Warning =
    | EmptyName(raw: string)
    | DuplicateName(name: string)
    | BadHost(name: string, host: string)
    | BadLocalPort(name: string, port: int)
    | BadDomain(name: string, domain: string)
    | BadRemotePort(name: string, port: int)
    | BadKind(name: string, kind: string)

  datatype RenderResult =
    | Rendered(text: string, warnings: seq<Warning>)
    | Failed(error: RenderError)

  /** One `[[proxies]]` block of the output. */
  datatype Block =
    | Http(name: string, localIP: string, localPort: nat, domain: string)
    | Tcp(name: string, localIP: string, localPort: nat, remotePort: nat)

  // Sorting by name.  `sort.SliceStable` is specified by its contract: ordered by name, and
  // proxies of one name in their original order; `StableSortUnique` shows nothing else meets it.

  function Insert(p: Proxy, s: seq<Proxy>): seq<Proxy> {
    if s == [] || !Less(s[0].name, p.name) then [p] + s else [s[0]] + Insert(p, s[1..])
  }

  function StableSort(s: seq<Proxy>): seq<Proxy> {
    if s == [] then [] else Insert(s[0], StableSort(s[1..]))
  }

  predicate SortedByName(s: seq<Proxy>) {
    forall i, j :: 0 <= i < j < |s| ==> !Less(s[j].name, s[i].name)
  }

  function Named(s: seq<Proxy>, n: string): (r: seq<Proxy>)
    ensures forall p :: p in r <==> p in s && p.name == n
  {
    if s == [] then []
    else if s[0].name == n then [s[0]] + Named(s[1..], n)
    else Named(s[1..], n)
  }

  ghost predicate SameByName(s: seq<Proxy>, t: seq<Proxy>) {
    forall n: string :: Named(s, n) == Named(t, n)
  }

  lemma {:induction false} NamedCons(p: Proxy, s: seq<Proxy>, n: string)
    ensures Named([p] + s, n) == if p.name == n then [p] + Named(s, n) else Named(s, n)
  {
    assert ([p] + s)[1..] == s;
  }

  lemma SortedCons(p: Proxy, s: seq<Proxy>)
    requires SortedByName(s)
    requires forall q :: q in s ==> !Less(q.name, p.name)
    ensures SortedByName([p] + s)
  {
    var t := [p] + s;
    forall i, j | 0 <= i < j < |t| ensures !Less(t[j].name, t[i].name) {
      assert t[j] == s[j - 1] && s[j - 1] in s;
      if i > 0 { assert t[i] == s[i - 1]; }
    }
  }

  lemma InsertFirst(p: Proxy, s: seq<Proxy>)
    requires SortedByName(s) && s != [] && !Less(s[0].name, p.name)
    ensures SortedByName([p] + s)
  {
    forall q | q in s ensures !Less(q.name, p.name) {
      var j :| 0 <= j < |s| && s[j] == q;
      if j > 0 && Less(q.name, p.name) {
        LessTotal(s[0].name, q.name);
        if Less(s[0].name, q.name) { LessTransitive(s[0].name, q.name, p.name); }
      }
    }
    SortedCons(p, s);
  }

  lemma {:induction false} InsertSorted(p: Proxy, s: seq<Proxy>)
    requires SortedByName(s)
    ensures SortedByName(Insert(p, s))
    ensures multiset(Insert(p, s)) == multiset([p] + s)
  {
    if s == [] {
    } else if !Less(s[0].name, p.name) {
      InsertFirst(p, s);
    } else {
      var rest := s[1..];
      assert s == [s[0]] + rest;
      InsertSorted(p, rest);
      var t := Insert(p, rest);
      assert multiset([s[0]] + t) == multiset([p] + s);
      forall q | q in t ensures !Less(q.name, s[0].name) {
        assert q in multiset(t);
        assert q == p || q in rest;
        LessAsymmetric(s[0].name, p.name);
      }
      SortedCons(s[0], t);
    }
  }

  lemma {:induction false} InsertNamed(p: Proxy, s: seq<Proxy>, n: string)
    ensures Named(Insert(p, s), n) == Named([p] + s, n)
  {
    if s != [] && Less(s[0].name, p.name) {
      InsertNamed(p, s[1..], n);
      LessIrreflexive(p.name);
      assert s == [s[0]] + s[1..];
      NamedCons(s[0], Insert(p, s[1..]), n);
      NamedCons(p, s[1..], n);
      NamedCons(p, s, n);
    }
  }

  /** The sort orders by name, loses and invents nothing, and keeps equal names in order. */
  lemma {:induction false} StableSortSorts(s: seq<Proxy>)
    ensures SortedByName(StableSort(s))
    ensures multiset(StableSort(s)) == multiset(s)
    ensures SameByName(StableSort(s), s)
  {
    if s != [] {
      StableSortSorts(s[1..]);
      InsertSorted(s[0], StableSort(s[1..]));
      assert s == [s[0]] + s[1..];
      forall n: string ensures Named(StableSort(s), n) == Named(s, n) {
        InsertNamed(s[0], StableSort(s[1..]), n);
        NamedCons(s[0], StableSort(s[1..]), n);
        NamedCons(s[0], s[1..], n);
      }
    }
  }

  lemma SameByNameMember(s: seq<Proxy>, t: seq<Proxy>, p: Proxy)
    requires SameByName(s, t) && p in s
    ensures p in t
  {
    assert p in Named(s, p.name) && Named(s, p.name) == Named(t, p.name);
  }

  /** Lists ordered by name with the same sublists of equal names start alike. */
  lemma SortedHeads(s: seq<Proxy>, t: seq<Proxy>)
    requires SortedByName(s) && SortedByName(t) && SameByName(s, t)
    requires s != [] && t != []
    ensures s[0] == t[0]
  {
    var n, m := s[0].name, t[0].name;
    SameByNameMember(s, t, s[0]);
    SameByNameMember(t, s, t[0]);
    HeadIsLeast(s, t[0]);
    HeadIsLeast(t, s[0]);
    LessTotal(m, n);
    assert s == [s[0]] + s[1..] && t == [t[0]] + t[1..];
    NamedCons(s[0], s[1..], n);
    NamedCons(t[0], t[1..], n);
    assert Named(t, n) == Named(s, n);
    assert s[0] == Named(s, n)[0] && t[0] == Named(t, n)[0];
  }

  lemma HeadIsLeast(s: seq<Proxy>, p: Proxy)
    requires SortedByName(s) && p in s
    ensures !Less(p.name, s[0].name)
  {
    LessIrreflexive(p.name);
  }

  lemma SameByNameTails(s: seq<Proxy>, t: seq<Proxy>)
    requires s != [] && t != [] && s[0] == t[0] && SameByName(s, t)
    ensures SameByName(s[1..], t[1..])
  {
    assert s == [s[0]] + s[1..] && t == [t[0]] + t[1..];
    forall k: string ensures Named(s[1..], k) == Named(t[1..], k) {
      NamedCons(s[0], s[1..], k);
      NamedCons(t[0], t[1..], k);
      assert Named(s, k) == Named(t, k);
      if k == s[0].name {
        assert Named(s, k)[1..] == Named(s[1..], k);
        assert Named(t, k)[1..] == Named(t[1..], k);
      }
    }
  }

  /** A list ordered by name is determined by its sublists of equal names. */
  lemma {:induction false} SortedUnique(s: seq<Proxy>, t: seq<Proxy>)
    requires SortedByName(s) && SortedByName(t) && SameByName(s, t)
    ensures s == t
  {
    if s != [] { SameByNameMember(s, t, s[0]); }
    if t != [] { SameByNameMember(t, s, t[0]); }
    if s != [] {
      SortedHeads(s, t);
      SameByNameTails(s, t);
      SortedUnique(s[1..], t[1..]);
      assert s == [s[0]] + s[1..] && t == [t[0]] + t[1..];
    }
  }

  /** Any result a stable sort may return is `StableSort(s)`. */
  lemma StableSortUnique(s: seq<Proxy>, t: seq<Proxy>)
    requires SortedByName(t) && SameByName(t, s)
    ensures t == StableSort(s)
  {
    StableSortSorts(s);
    forall n: string ensures Named(t, n) == Named(StableSort(s), n) {
      assert Named(t, n) == Named(s, n) == Named(StableSort(s), n);
    }
    SortedUnique(t, StableSort(s));
  }

  predicate DistinctNames(s: seq<Proxy>) {
    forall i, j :: 0 <= i < j < |s| ==> s[i].name != s[j].name
  }

  lemma {:induction false} NamedNone(s: seq<Proxy>, n: string)
    requires forall j :: 0 <= j < |s| ==> s[j].name != n
    ensures Named(s, n) == []
  {
    if s != [] { NamedNone(s[1..], n); }
  }

  lemma {:induction false} NamedDistinct(s: seq<Proxy>, n: string)
    requires DistinctNames(s)
    ensures |Named(s, n)| <= 1
  {
    if s != [] {
      NamedDistinct(s[1..], n);
      if s[0].name == n {
        assert forall j :: 0 <= j < |s[1..]| ==> s[1..][j].name == s[j + 1].name;
        NamedNone(s[1..], n);
      }
    }
  }

  /** With distinct names the order of the input does not matter. */
  lemma StableSortPermutation(s: seq<Proxy>, t: seq<Proxy>)
    requires DistinctNames(s) && DistinctNames(t)
    requires multiset(s) == multiset(t)
    ensures StableSort(s) == StableSort(t)
  {
    StableSortSorts(s);
    forall n: string ensures Named(StableSort(s), n) == Named(t, n) {
      NamedPermutation(s, t, n);
      assert Named(StableSort(s), n) == Named(s, n);
    }
    StableSortUnique(t, StableSort(s));
  }

  lemma NamedPermutation(s: seq<Proxy>, t: seq<Proxy>, n: string)
    requires DistinctNames(s) && DistinctNames(t)
    requires multiset(s) == multiset(t)
    ensures Named(s, n) == Named(t, n)
  {
    NamedDistinct(s, n);
    NamedDistinct(t, n);
    Seqs.SamePermutationMembers(s, t);
    AtMostOne(Named(s, n), Named(t, n));
  }

  lemma AtMostOne(a: seq<Proxy>, b: seq<Proxy>)
    requires |a| <= 1 && |b| <= 1 && forall p :: p in a <==> p in b
    ensures a == b
  {
    if a != [] { assert a[0] in b; }
    if b != [] { assert b[0] in a; }
  }

  // The selection loop.

  /** What a proxy needs to be rendered, leaving aside other proxies. */
  predicate Valid(ip: string -> bool, p: Proxy) {
    && SanitizeName(p.name) != ""
    && ValidHost(ip, p.localIP)
    && ValidPort(p.localPort)
    && ((p.kind == "http" && ValidDomain(p.domain)) || (p.kind == "tcp" && ValidPort(p.remotePort)))
  }

  function BlockOf(p: Proxy): Block
    requires p.localPort >= 0 && (p.kind != "http" ==> p.remotePort >= 0)
  {
    if p.kind == "http" then Http(SanitizeName(p.name), p.localIP, p.localPort, p.domain)
    else Tcp(SanitizeName(p.name), p.localIP, p.localPort, p.remotePort)
  }

  /** What the checks say of one proxy before its name is compared with `seen`. */
  datatype Verdict =
    | Nameless(reason: Warning)
    | Bad(name: string, reason: Warning)
    | Good(block: Block)

  function Judge(ip: string -> bool, p: Proxy): Verdict {
    var name := SanitizeName(p.name);
    if name == "" then Nameless(EmptyName(p.name))
    else if !ValidHost(ip, p.localIP) then Bad(name, BadHost(name, p.localIP))
    else if !ValidPort(p.localPort) then Bad(name, BadLocalPort(name, p.localPort))
    else if p.kind == "http" then
      if !ValidDomain(p.domain) then Bad(name, BadDomain(name, p.domain))
      else Good(Http(name, p.localIP, p.localPort, p.domain))
    else if p.kind == "tcp" then
      if !ValidPort(p.remotePort) then Bad(name, BadRemotePort(name, p.remotePort))
      else Good(Tcp(name, p.localIP, p.localPort, p.remotePort))
    else Bad(name, BadKind(name, p.kind))
  }

  /** A proxy is a candidate for emission exactly when it is valid, and then for its own block. */
  lemma JudgeMeaning(ip: string -> bool, p: Proxy)
    ensures Judge(ip, p).Good? <==> Valid(ip, p)
    ensures Valid(ip, p) ==> Judge(ip, p).block == BlockOf(p)
  {
    if SanitizeName(p.name) == "" {
    } else if !ValidHost(ip, p.localIP) {
    } else if !ValidPort(p.localPort) {
    } else if p.kind == "http" {
      if ValidDomain(p.domain) {}
    } else if p.kind == "tcp" {
      if ValidPort(p.remotePort) {}
    }
  }

  /** Why a proxy that is not valid is skipped, if its name has not been emitted: the first of its
      faults, in the order name, host, port, type, public end. */
  lemma JudgeReasons(ip: string -> bool, p: Proxy)
    requires !Valid(ip, p)
    ensures var n := SanitizeName(p.name);
      Judge(ip, p) ==
      if n == "" then Nameless(EmptyName(p.name))
      else Bad(n, if !ValidHost(ip, p.localIP) then BadHost(n, p.localIP)
                  else if !ValidPort(p.localPort) then BadLocalPort(n, p.localPort)
                  else if p.kind !in {"http", "tcp"} then BadKind(n, p.kind)
                  else if p.kind == "http" then BadDomain(n, p.domain) else BadRemotePort(n, p.remotePort))
  {
  }

  function Judged(ip: string -> bool, ps: seq<Proxy>): seq<Verdict> {
    Seqs.Map(p => Judge(ip, p), ps)
  }

  /** The loop's variables: what was written, the warnings, and the names in `seen`. */
  datatype Progress = Progress(blocks: seq<Block>, warnings: seq<Warning>, seen: set<string>)

  function Warned(acc: Progress, w: Warning): Progress { acc.(warnings := acc.warnings + [w]) }

  /** One iteration: a name already emitted is a duplicate whatever else is wrong with the proxy. */
  function Advance(acc: Progress, v: Verdict): Progress {
    match v
    case Nameless(w) => Warned(acc, w)
    case Bad(name, w) => Warned(acc, if name in acc.seen then DuplicateName(name) else w)
    case Good(b) =>
      if b.name in acc.seen then Warned(acc, DuplicateName(b.name))
      else Progress(acc.blocks + [b], acc.warnings, acc.seen + {b.name})
  }

  function Scan(vs: seq<Verdict>): Progress {
    if vs == [] then Progress([], [], {}) else Advance(Scan(vs[..|vs| - 1]), vs[|vs| - 1])
  }

  /** No mention of `seen`: `vs[k]` is good and no earlier good one has its name. */
  predicate FirstGood(vs: seq<Verdict>, k: nat)
    requires k < |vs|
  {
    && vs[k].Good?
    && forall j :: 0 <= j < k && vs[j].Good? ==> vs[j].block.name != vs[k].block.name
  }

  /** The positions of the first good proxies, in order. */
  function Picks(vs: seq<Verdict>): (ks: seq<nat>)
    ensures forall m :: 0 <= m < |ks| ==> ks[m] < |vs|
    ensures forall m, n :: 0 <= m < n < |ks| ==> ks[m] < ks[n]
    ensures forall k: nat :: k in ks <==> k < |vs| && FirstGood(vs, k)
    ensures |ks| <= |vs|
  {
    if vs == [] then []
    else
      var last := |vs| - 1;
      var front := vs[..last];
      var ks := Picks(front);
      assert forall k :: 0 <= k < last ==> (FirstGood(front, k) <==> FirstGood(vs, k));
      if FirstGood(vs, last) then ks + [last] else ks
  }

  predicate EmittedBefore(vs: seq<Verdict>, n: string) {
    exists j :: 0 <= j < |vs| && vs[j].Good? && vs[j].block.name == n
  }

  lemma {:induction false} ScanSeen(vs: seq<Verdict>, n: string)
    ensures n in Scan(vs).seen <==> EmittedBefore(vs, n)
  {
    if vs != [] {
      var front := vs[..|vs| - 1];
      var v := vs[|vs| - 1];
      ScanSeen(front, n);
      if v.Good? { ScanSeen(front, v.block.name); }
      if EmittedBefore(front, n) {
        var j :| 0 <= j < |front| && front[j].Good? && front[j].block.name == n;
        assert vs[j] == front[j];
      }
      if EmittedBefore(vs, n) {
        var j :| 0 <= j < |vs| && vs[j].Good? && vs[j].block.name == n;
        if j < |front| { assert vs[j] == front[j]; }
      }
    }
  }

  /** The loop emits exactly the first good proxies, in order, and gives one warning for every
      other one: an invalid proxy never keeps a valid one of the same name out. */
  lemma {:induction false} ScanPicks(vs: seq<Verdict>)
    ensures |Scan(vs).blocks| == |Picks(vs)|
    ensures forall m :: 0 <= m < |Picks(vs)| ==>
              vs[Picks(vs)[m]].Good? && Scan(vs).blocks[m] == vs[Picks(vs)[m]].block
    ensures |Scan(vs).blocks| + |Scan(vs).warnings| == |vs|
  {
    if vs != [] {
      var last := |vs| - 1;
      var front := vs[..last];
      ScanPicks(front);
      if vs[last].Good? {
        ScanSeen(front, vs[last].block.name);
        assert FirstGood(vs, last) <==> !EmittedBefore(front, vs[last].block.name);
      }
    }
  }

  /** Emitted names are pairwise distinct. */
  lemma ScanDistinct(vs: seq<Verdict>)
    ensures forall m, n :: 0 <= m < n < |Scan(vs).blocks| ==> Scan(vs).blocks[m].name != Scan(vs).blocks[n].name
  {
    ScanPicks(vs);
    var ks := Picks(vs);
    var bs := Scan(vs).blocks;
    forall m, n | 0 <= m < n < |bs| ensures bs[m].name != bs[n].name {
      assert ks[n] in ks && FirstGood(vs, ks[n]);
      assert vs[ks[m]].Good?;
    }
  }

  // The text.

  function EscapeChar(c: char): string {
    match c
    case '\\' => "\\\\"
    case '"' => "\\\""
    case '\n' => "\\n"
    case '\t' => "\\t"
    case _ => [c]
  }

  function Escape(s: string): string { if s == "" then "" else EscapeChar(s[0]) + Escape(s[1..]) }

  function Quote(s: string): string { "\"" + Escape(s) + "\"" }

  /** A key and the text of its value. */
  function Pair(key: string, value: string): string { key + " = " + value }

  function HeaderLines(serverAddr: string, serverPort: nat, authToken: string): seq<string> {
    [Pair("serverAddr", Quote(serverAddr)),
     Pair("serverPort", Decimal.Print(serverPort)),
     "",
     Pair("auth.method", "\"token\""),
     Pair("auth.token", Quote(authToken))]
  }

  function BlockLines(b: Block): seq<string> {
    match b
    case Http(name, localIP, localPort, domain) =>
      ["",
       "[[proxies]]",
       Pair("name", Quote(name)),
       Pair("type", "\"http\""),
       Pair("localIP", Quote(localIP)),
       Pair("localPort", Decimal.Print(localPort)),
       Pair("customDomains", "[" + Quote(domain) + "]")]
    case Tcp(name, localIP, localPort, remotePort) =>
      ["",
       "[[proxies]]",
       Pair("name", Quote(name)),
       Pair("type", "\"tcp\""),
       Pair("localIP", Quote(localIP)),
       Pair("localPort", Decimal.Print(localPort)),
       Pair("remotePort", Decimal.Print(remotePort))]
  }

  function HeaderText(serverAddr: string, serverPort: nat, authToken: string): string {
    JoinLines(HeaderLines(serverAddr, serverPort, authToken))
  }

  function BlockText(b: Block): string { JoinLines(BlockLines(b)) }

  /** The texts of blocks one after the other, for any way of writing one. */
  function Concat(write: Block -> string, bs: seq<Block>): string {
    if bs == [] then "" else Concat(write, bs[..|bs| - 1]) + write(bs[|bs| - 1])
  }

  function BlocksText(bs: seq<Block>): string { Concat(BlockText, bs) }

  lemma ConcatSnoc(write: Block -> string, header: string, bs: seq<Block>, b: Block)
    ensures header + Concat(write, bs + [b]) == header + Concat(write, bs) + write(b)
  {
    assert (bs + [b])[..|bs|] == bs;
  }

  lemma ScanSnoc(vs: seq<Verdict>, i: nat)
    requires i < |vs|
    ensures Scan(vs[..i + 1]) == Advance(Scan(vs[..i]), vs[i])
  {
    assert vs[..i + 1][..i] == vs[..i];
  }

  /** The result of `Render` as a function of its input. */
  function RenderSpec(ip: string -> bool, input: RenderInput): RenderResult {
    if input.serverAddr == "" then Failed(EmptyServerAddr)
    else if !ValidPort(input.serverPort) then Failed(BadServerPort(input.serverPort))
    else
      var done := Scan(Judged(ip, StableSort(input.proxies)));
      Rendered(HeaderText(input.serverAddr, input.serverPort, input.authToken) + BlocksText(done.blocks),
               done.warnings)
  }

  /** The loop of `Render`: appends to the builder, collects warnings and remembers names.
      `judge` makes the checks that concern one proxy alone, `write` writes one block. */
  method WriteProxies(judge: Proxy -> Verdict, write: Block -> string, proxies: seq<Proxy>, header: string)
    returns (text: string, warnings: seq<Warning>)
    ensures text == header + Concat(write, Scan(Seqs.Map(judge, proxies)).blocks)
    ensures warnings == Scan(Seqs.Map(judge, proxies)).warnings
  {
    text, warnings := header, [];
    var seen: set<string> := {};
    ghost var blocks: seq<Block> := [];
    ghost var verdicts := Seqs.Map(judge, proxies);
    for i := 0 to |proxies|
      invariant Progress(blocks, warnings, seen) == Scan(verdicts[..i])
      invariant text == header + Concat(write, blocks)
    {
      ScanSnoc(verdicts, i);
      assert verdicts[i] == judge(proxies[i]);
      match judge(proxies[i]) {
        case Nameless(w) => warnings := warnings + [w];
        case Bad(name, w) => warnings := warnings + [if name in seen then DuplicateName(name) else w];
        case Good(block) =>
          if block.name in seen {
            warnings := warnings + [DuplicateName(block.name)];
          } else {
            ConcatSnoc(write, header, blocks, block);
            text := text + write(block);
            blocks := blocks + [block];
            seen := seen + {block.name};
          }
      }
    }
    assert verdicts[..|proxies|] == verdicts;
  }

  /** `Render`. */
  method Render(ip: string -> bool, input: RenderInput) returns (r: RenderResult)
    ensures r == RenderSpec(ip, input)
  {
    if input.serverAddr == "" { return Failed(EmptyServerAddr); }
    if !ValidPort(input.serverPort) { return Failed(BadServerPort(input.serverPort)); }
    var header := HeaderText(input.serverAddr, input.serverPort, input.authToken);
    var text, warnings := WriteProxies(p => Judge(ip, p), BlockText, StableSort(input.proxies), header);
    return Rendered(text, warnings);
  }

  /** Text and warnings do not depend on the order of proxies with distinct names, so neither
      the database's row order nor a re-read of the same rows can cause a spurious change. */
  lemma RenderPermutation(ip: string -> bool, a: RenderInput, b: RenderInput)
    requires DistinctNames(a.proxies) && DistinctNames(b.proxies)
    requires multiset(a.proxies) == multiset(b.proxies)
    requires a.(proxies := []) == b.(proxies := [])
    ensures RenderSpec(ip, a) == RenderSpec(ip, b)
  {
    StableSortPermutation(a.proxies, b.proxies);
  }

  lemma MapSort<T>(f: Proxy -> T, s: seq<Proxy>)
    ensures multiset(Seqs.Map(f, StableSort(s))) == multiset(Seqs.Map(f, s))
  {
    StableSortSorts(s);
    Seqs.MapPermutation(f, StableSort(s), s);
  }

  /** No warning is raised exactly when every proxy is good and no two have one name. */
  lemma {:induction false} NoWarningsScan(vs: seq<Verdict>)
    ensures Scan(vs).warnings == [] <==>
            (forall i :: 0 <= i < |vs| ==> vs[i].Good?) &&
            (forall i, j :: 0 <= i < j < |vs| && vs[i].Good? && vs[j].Good? ==>
               vs[i].block.name != vs[j].block.name)
  {
    if vs != [] {
      var last := |vs| - 1;
      var front := vs[..last];
      NoWarningsScan(front);
      assert forall i :: 0 <= i < last ==> front[i] == vs[i];
      if vs[last].Good? {
        ScanSeen(front, vs[last].block.name);
      }
    }
  }

  function SanitisedName(p: Proxy): string { SanitizeName(p.name) }

  predicate AllGood(vs: seq<Verdict>) { forall i :: 0 <= i < |vs| ==> vs[i].Good? }

  lemma NoWarningsNames(vs: seq<Verdict>, names: seq<string>)
    requires |names| == |vs|
    requires forall i :: 0 <= i < |vs| && vs[i].Good? ==> vs[i].block.name == names[i]
    ensures Scan(vs).warnings == [] <==> AllGood(vs) && Seqs.NoDuplicates(names)
    ensures Scan(vs).warnings == [] ==> |Scan(vs).blocks| == |vs|
  {
    NoWarningsScan(vs);
    ScanPicks(vs);
  }

  lemma AllGoodSort(judge: Proxy -> Verdict, ps: seq<Proxy>)
    ensures AllGood(Seqs.Map(judge, StableSort(ps))) <==> forall p :: p in ps ==> judge(p).Good?
  {
    var s := StableSort(ps);
    var vs := Seqs.Map(judge, s);
    StableSortSorts(ps);
    Seqs.SamePermutationMembers(s, ps);
    if AllGood(vs) {
      forall p | p in ps ensures judge(p).Good? {
        var i :| 0 <= i < |s| && s[i] == p;
        assert vs[i].Good?;
      }
    }
    if forall p :: p in ps ==> judge(p).Good? {
      forall i | 0 <= i < |vs| ensures vs[i].Good? { assert s[i] in ps; }
    }
  }

  /** The count of warnings over any checks that name good proxies by `name`. */
  lemma NoWarningsFor(judge: Proxy -> Verdict, name: Proxy -> string, ps: seq<Proxy>)
    requires forall p :: judge(p).Good? ==> judge(p).block.name == name(p)
    ensures var done := Scan(Seqs.Map(judge, StableSort(ps)));
      && (done.warnings == [] <==>
            (forall p :: p in ps ==> judge(p).Good?) && Seqs.NoDuplicates(Seqs.Map(name, ps)))
      && (done.warnings == [] ==> |done.blocks| == |ps|)
  {
    var s := StableSort(ps);
    AllGoodSort(judge, ps);
    NoWarningsNames(Seqs.Map(judge, s), Seqs.Map(name, s));
    StableSortSorts(ps);
    assert |s| == |multiset(s)| == |multiset(ps)| == |ps|;
    MapSort(name, ps);
    Seqs.NoDuplicatesPermutation(Seqs.Map(name, s), Seqs.Map(name, ps));
  }

  /** `Render` raises no warning exactly when every proxy is valid and their sanitised names are
      pairwise distinct; it then emits one block per proxy. */
  lemma NoWarnings(ip: string -> bool, ps: seq<Proxy>)
    ensures var done := Scan(Judged(ip, StableSort(ps)));
      && (done.warnings == [] <==>
            (forall p :: p in ps ==> Valid(ip, p)) && Seqs.NoDuplicates(Seqs.Map(SanitisedName, ps)))
      && (done.warnings == [] ==> |done.blocks| == |ps|)
  {
    var judge := (p: Proxy) => Judge(ip, p);
    forall p ensures judge(p).Good? <==> Valid(ip, p)
             ensures judge(p).Good? ==> judge(p).block.name == SanitisedName(p) {
      JudgeMeaning(ip, p);
    }
    NoWarningsFor(judge, SanitisedName, ps);
  }

  /** A block is emitted exactly when it is that of a first good verdict. */
  lemma EmittedIff(vs: seq<Verdict>, b: Block)
    ensures b in Scan(vs).blocks <==> exists k :: 0 <= k < |vs| && FirstGood(vs, k) && vs[k].block == b
  {
    ScanPicks(vs);
    var ks, bs := Picks(vs), Scan(vs).blocks;
    if b in bs {
      var m :| 0 <= m < |bs| && bs[m] == b;
      assert ks[m] in ks && FirstGood(vs, ks[m]);
    }
    if k: nat :| k < |vs| && FirstGood(vs, k) && vs[k].block == b {
      assert k in ks;
      var m :| 0 <= m < |ks| && ks[m] == k;
      assert bs[m] == b;
    }
  }

  // Which proxy is emitted, by its position in the input.

  /** `ps[a]` comes before `ps[b]` in stable order. */
  predicate Before(ps: seq<Proxy>, a: nat, b: nat)
    requires a < |ps| && b < |ps|
  {
    Less(ps[a].name, ps[b].name) || (ps[a].name == ps[b].name && a < b)
  }

  /** `ps[a]` is good, and no good proxy of its emitted name comes before it. */
  predicate Leads(judge: Proxy -> Verdict, ps: seq<Proxy>, a: nat)
    requires a < |ps|
  {
    && judge(ps[a]).Good?
    && forall c :: 0 <= c < |ps| && judge(ps[c]).Good? && judge(ps[c]).block.name == judge(ps[a]).block.name ==>
         !Before(ps, c, a)
  }

  predicate SameEmitted(judge: Proxy -> Verdict, p: Proxy, q: Proxy) {
    p.name == q.name && judge(p).Good? && judge(q).Good? ==> judge(p).block.name == judge(q).block.name
  }

  /** Proxies of one name are emitted under one name. */
  predicate ByName(judge: Proxy -> Verdict, ps: seq<Proxy>) {
    forall p, q {:trigger SameEmitted(judge, p, q)} :: p in ps && q in ps ==> SameEmitted(judge, p, q)
  }

  lemma LeaderUnique(judge: Proxy -> Verdict, ps: seq<Proxy>, a: nat, b: nat)
    requires a < |ps| && b < |ps| && Leads(judge, ps, a) && Leads(judge, ps, b)
    requires judge(ps[a]).block.name == judge(ps[b]).block.name
    ensures a == b
  {
    assert !Before(ps, a, b) && !Before(ps, b, a);
    LessTotal(ps[a].name, ps[b].name);
  }

  /** The first good proxy of a list. */
  function FirstOk(judge: Proxy -> Verdict, s: seq<Proxy>): (r: Option<Proxy>)
    ensures r.Some? ==> r.value in s && judge(r.value).Good?
    ensures r.None? ==> forall p :: p in s ==> !judge(p).Good?
  {
    if s == [] then None else if judge(s[0]).Good? then Some(s[0]) else FirstOk(judge, s[1..])
  }

  /** The first good proxy of one name is at the first position where a good one of that name is. */
  lemma {:induction false} FirstOkNamed(judge: Proxy -> Verdict, s: seq<Proxy>, a: nat)
    requires a < |s| && judge(s[a]).Good?
    requires forall c :: 0 <= c < a && s[c].name == s[a].name ==> !judge(s[c]).Good?
    ensures FirstOk(judge, Named(s, s[a].name)) == Some(s[a])
  {
    var n := s[a].name;
    var rest := s[1..];
    if a == 0 {
      assert Named(s, n)[0] == s[0];
    } else {
      assert rest[a - 1] == s[a];
      FirstOkNamed(judge, rest, a - 1);
      if s[0].name == n { assert Named(s, n) == [s[0]] + Named(rest, n); }
    }
  }

  lemma {:induction false} FirstAt(judge: Proxy -> Verdict, s: seq<Proxy>, n: string) returns (a: nat)
    requires exists p :: p in s && p.name == n && judge(p).Good?
    ensures a < |s| && s[a].name == n && judge(s[a]).Good?
    ensures forall c :: 0 <= c < a && s[c].name == n ==> !judge(s[c]).Good?
  {
    if s[0].name == n && judge(s[0]).Good? {
      a := 0;
    } else {
      var rest := s[1..];
      var p :| p in s && p.name == n && judge(p).Good?;
      assert p in rest;
      var b := FirstAt(judge, rest, n);
      a := b + 1;
    }
  }

  /** No good proxy of the name of `s[k]` is before position `k`. */
  predicate FirstOfName(judge: Proxy -> Verdict, s: seq<Proxy>, k: nat)
    requires k < |s|
  {
    judge(s[k]).Good? && forall c :: 0 <= c < k && s[c].name == s[k].name ==> !judge(s[c]).Good?
  }

  /** Lists with the same sublists of equal names have the same first good proxy of each name. */
  lemma SameFirst(judge: Proxy -> Verdict, s: seq<Proxy>, ps: seq<Proxy>, k: nat) returns (a: nat)
    requires SameByName(s, ps) && k < |s| && FirstOfName(judge, s, k)
    ensures a < |ps| && ps[a] == s[k] && FirstOfName(judge, ps, a)
  {
    SameByNameMember(s, ps, s[k]);
    a := FirstAt(judge, ps, s[k].name);
    FirstOkNamed(judge, s, k);
    FirstOkNamed(judge, ps, a);
    assert Named(s, s[k].name) == Named(ps, s[k].name);
  }

  lemma SortedFirstLeads(judge: Proxy -> Verdict, s: seq<Proxy>, ps: seq<Proxy>, k: nat, a: nat)
    requires SortedByName(s) && k < |s| && FirstGood(Seqs.Map(judge, s), k)
    requires a < |ps| && ps[a] == s[k] && FirstOfName(judge, ps, a) && forall p :: p in ps ==> p in s
    ensures Leads(judge, ps, a)
  {
    forall c | 0 <= c < |ps| && judge(ps[c]).Good? && judge(ps[c]).block.name == judge(ps[a]).block.name
      ensures !Before(ps, c, a)
    {
      assert ps[c] in s;
      var j :| 0 <= j < |s| && s[j] == ps[c];
      assert Seqs.Map(judge, s)[j] == judge(s[j]) && k <= j;
      if j == k { LessIrreflexive(s[k].name); }
    }
  }

  /** The proxy emitted from sorted position `k` is the leader of its emitted name in the input. */
  lemma EmittedLeads(judge: Proxy -> Verdict, ps: seq<Proxy>, k: nat) returns (a: nat)
    requires ByName(judge, ps) && k < |StableSort(ps)| && FirstGood(Seqs.Map(judge, StableSort(ps)), k)
    ensures a < |ps| && ps[a] == StableSort(ps)[k] && Leads(judge, ps, a)
  {
    var s := StableSort(ps);
    StableSortSorts(ps);
    Seqs.SamePermutationMembers(s, ps);
    ByNameSorted(judge, ps);
    FirstGoodIsFirst(judge, s, k);
    a := SameFirst(judge, s, ps, k);
    SortedFirstLeads(judge, s, ps, k, a);
  }

  lemma ByNameSorted(judge: Proxy -> Verdict, ps: seq<Proxy>)
    requires ByName(judge, ps)
    ensures ByName(judge, StableSort(ps))
  {
    StableSortSorts(ps);
    Seqs.SamePermutationMembers(StableSort(ps), ps);
  }

  lemma FirstGoodIsFirst(judge: Proxy -> Verdict, s: seq<Proxy>, k: nat)
    requires ByName(judge, s) && k < |s| && FirstGood(Seqs.Map(judge, s), k)
    ensures FirstOfName(judge, s, k)
  {
    forall c | 0 <= c < k && s[c].name == s[k].name ensures !judge(s[c]).Good? {
      assert SameEmitted(judge, s[c], s[k]);
      NotGoodBefore(Seqs.Map(judge, s), k, c);
    }
  }

  lemma NotGoodBefore(vs: seq<Verdict>, k: nat, c: nat)
    requires k < |vs| && FirstGood(vs, k) && c < k
    ensures vs[c].Good? ==> vs[c].block.name != vs[k].block.name
  {
  }

  /** For every name a good proxy asks for, one position is emitted. */
  lemma {:induction false} FirstGoodFor(vs: seq<Verdict>, j: nat) returns (k: nat)
    requires j < |vs| && vs[j].Good?
    ensures k <= j && FirstGood(vs, k) && vs[k].block.name == vs[j].block.name
  {
    if FirstGood(vs, j) {
      k := j;
    } else {
      var i :| 0 <= i < j && vs[i].Good? && vs[i].block.name == vs[j].block.name;
      k := FirstGoodFor(vs, i);
    }
  }

  /** Exactly the blocks of leaders are emitted, whether or not names are distinct. */
  lemma EmittedIffLeads(judge: Proxy -> Verdict, ps: seq<Proxy>, b: Block)
    requires ByName(judge, ps)
    ensures b in Scan(Seqs.Map(judge, StableSort(ps))).blocks <==>
            exists a :: 0 <= a < |ps| && Leads(judge, ps, a) && judge(ps[a]).block == b
  {
    var s := StableSort(ps);
    var vs := Seqs.Map(judge, s);
    EmittedIff(vs, b);
    if k: nat :| k < |vs| && FirstGood(vs, k) && vs[k].block == b {
      var a := EmittedLeads(judge, ps, k);
      assert vs[k] == judge(s[k]);
    }
    if a: nat :| a < |ps| && Leads(judge, ps, a) && judge(ps[a]).block == b {
      LeaderEmitted(judge, ps, a);
    }
  }

  lemma LeaderEmitted(judge: Proxy -> Verdict, ps: seq<Proxy>, a: nat)
    requires ByName(judge, ps) && a < |ps| && Leads(judge, ps, a)
    ensures judge(ps[a]).block in Scan(Seqs.Map(judge, StableSort(ps))).blocks
  {
    var s := StableSort(ps);
    var vs := Seqs.Map(judge, s);
    StableSortSorts(ps);
    Seqs.SamePermutationMembers(s, ps);
    assert ps[a] in s;
    var j :| 0 <= j < |s| && s[j] == ps[a];
    var k := FirstGoodFor(vs, j);
    var b := EmittedLeads(judge, ps, k);
    LeaderUnique(judge, ps, a, b);
    EmittedIff(vs, judge(ps[a]).block);
  }

  /** Another good proxy would be emitted under the same name. */
  predicate Rivals(judge: Proxy -> Verdict, p: Proxy, q: Proxy) {
    q != p && judge(p).Good? && judge(q).Good? && judge(q).block.name == judge(p).block.name
  }

  /** Among proxies with distinct names, a good one is emitted exactly when its name is least among
      those that sanitise to the same. */
  lemma EmittedExactly(judge: Proxy -> Verdict, ps: seq<Proxy>, p: Proxy)
    requires DistinctNames(ps) && p in ps && judge(p).Good?
    requires forall q :: q in ps && judge(q).Good? && judge(q).block == judge(p).block ==> q == p
    ensures judge(p).block in Scan(Seqs.Map(judge, StableSort(ps))).blocks <==>
            forall q :: q in ps && Rivals(judge, p, q) ==> Less(p.name, q.name)
  {
    EmittedIffLeads(judge, ps, judge(p).block);
    var a :| 0 <= a < |ps| && ps[a] == p;
    assert forall c :: 0 <= c < |ps| && Leads(judge, ps, c) && judge(ps[c]).block == judge(p).block ==> ps[c] == p;
    LeastLeads(judge, ps, a);
  }

  lemma LeastLeads(judge: Proxy -> Verdict, ps: seq<Proxy>, a: nat)
    requires DistinctNames(ps) && a < |ps| && judge(ps[a]).Good?
    ensures Leads(judge, ps, a) <==> forall q :: q in ps && Rivals(judge, ps[a], q) ==> Less(ps[a].name, q.name)
  {
    if Leads(judge, ps, a) {
      forall q | q in ps && Rivals(judge, ps[a], q) ensures Less(ps[a].name, q.name) {
        var c :| 0 <= c < |ps| && ps[c] == q;
        assert !Before(ps, c, a);
        LessTotal(ps[a].name, q.name);
      }
    }
    if forall q :: q in ps && Rivals(judge, ps[a], q) ==> Less(ps[a].name, q.name) {
      forall c | 0 <= c < |ps| && judge(ps[c]).Good? && judge(ps[c]).block.name == judge(ps[a]).block.name
        ensures !Before(ps, c, a)
      {
        if c == a { LessIrreflexive(ps[a].name); } else {
          assert ps[c] in ps && Less(ps[a].name, ps[c].name);
          LessAsymmetric(ps[a].name, ps[c].name);
        }
      }
    }
  }
}
