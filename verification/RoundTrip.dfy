/** Reading a rendered `frpc.toml` back. */
module RoundTrip {
  import opened Options
  import opened Text
  import Rules
  import opened Frpc
  import Decimal
  import Toml

  /** What frpc takes from its configuration file. */
  datatype FrpcConfig = FrpcConfig(
    serverAddr: string, serverPort: nat, authToken: string, blocks: seq<Block>)

  const HTTP_KEYS := {"name", "type", "localIP", "localPort", "customDomains"}
  const TCP_KEYS := {"name", "type", "localIP", "localPort", "remotePort"}
  const TOP_KEYS := {"serverAddr", "serverPort", "auth.method", "auth.token"}

  function TableBlock(t: Toml.Table): Option<Block> {
    if && t.Keys == HTTP_KEYS && t["type"] == Toml.Str("http")
       && t["name"].Str? && t["localIP"].Str? && t["localPort"].Int?
       && t["customDomains"].Arr? && |t["customDomains"].items| == 1
    then Some(Http(t["name"].text, t["localIP"].text, t["localPort"].n, t["customDomains"].items[0]))
    else if && t.Keys == TCP_KEYS && t["type"] == Toml.Str("tcp")
            && t["name"].Str? && t["localIP"].Str? && t["localPort"].Int? && t["remotePort"].Int?
    then Some(Tcp(t["name"].text, t["localIP"].text, t["localPort"].n, t["remotePort"].n))
    else None
  }

  function TableBlocks(ts: seq<Toml.Table>): Option<seq<Block>> {
    if ts == [] then Some([])
    else match TableBlocks(ts[..|ts| - 1])
      case None => None
      case Some(bs) =>
        match TableBlock(ts[|ts| - 1])
        case None => None
        case Some(b) => Some(bs + [b])
  }

  function DocConfig(doc: Toml.Doc): Option<FrpcConfig> {
    if && doc.top.Keys == TOP_KEYS && doc.top["auth.method"] == Toml.Str("token")
       && doc.top["serverAddr"].Str? && doc.top["serverPort"].Int? && doc.top["auth.token"].Str?
    then
      match TableBlocks(doc.proxies)
      case None => None
      case Some(bs) =>
        Some(FrpcConfig(doc.top["serverAddr"].text, doc.top["serverPort"].n, doc.top["auth.token"].text, bs))
    else None
  }

  /** Parses a file as TOML and takes frpc's settings from it. */
  function ReadConfig(text: string): Option<FrpcConfig> {
    match Toml.Read(text)
    case None => None
    case Some(doc) => DocConfig(doc)
  }

  /** Text that `quote` escapes completely: no control character but newline and tab. */
  predicate Printable(s: string) { forall c :: c in s && Toml.IsControl(c) ==> c == '\n' }

  predicate PrintableBlock(b: Block) {
    && Printable(b.name) && Printable(b.localIP)
    && (b.Http? ==> Printable(b.domain))
  }

  predicate PrintableBlocks(bs: seq<Block>) { forall i :: 0 <= i < |bs| ==> PrintableBlock(bs[i]) }

  // Values.

  /** A printed character is read as itself, unless it is a control character TOML forbids. */
  lemma ReadChar(c: char, tail: string)
    ensures Toml.ReadString(EscapeChar(c) + tail) ==
            if Toml.IsControl(c) && c != '\n' then None else Toml.Prepend(c, Toml.ReadString(tail))
  {
    var s := EscapeChar(c) + tail;
    if |EscapeChar(c)| == 2 { assert s[2..] == tail; } else { assert s[1..] == tail; }
  }

  lemma PrintableCons(s: string)
    requires s != ""
    ensures Printable(s) <==> (Toml.IsControl(s[0]) ==> s[0] == '\n') && Printable(s[1..])
  {
    assert s == [s[0]] + s[1..];
  }

  lemma {:induction false} ReadEscape(s: string, rest: string)
    ensures Toml.ReadString(Escape(s) + "\"" + rest) == if Printable(s) then Some((s, rest)) else None
  {
    if s == "" {
      assert Escape(s) + "\"" + rest == "\"" + rest;
    } else {
      ReadEscape(s[1..], rest);
      PrintableCons(s);
      var tail := Escape(s[1..]) + "\"" + rest;
      assert Escape(s) + "\"" + rest == EscapeChar(s[0]) + tail;
      ReadChar(s[0], tail);
      assert s == [s[0]] + s[1..];
    }
  }

  lemma ReadQuote(s: string)
    ensures Toml.ReadValue(Quote(s)) == if Printable(s) then Some(Toml.Str(s)) else None
  {
    ReadEscape(s, "");
    assert Quote(s)[1..] == Escape(s) + "\"" + "";
  }

  lemma ReadQuoteList(s: string)
    ensures Toml.ReadValue("[" + Quote(s) + "]") == if Printable(s) then Some(Toml.Arr([s])) else None
  {
    var v := "[" + Quote(s) + "]";
    var w := "\"" + (Escape(s) + "\"" + "]");
    assert v[1..] == w;
    ReadItemsOf(w, s);
    ReadArray(v, w, Toml.ReadItems(w));
  }

  lemma ReadArray(v: string, w: string, items: Option<(seq<string>, string)>)
    requires v != "" && v[0] == '[' && v[1..] == w && w != "" && !Toml.IsBlank(w[0]) && Toml.ReadItems(w) == items
    ensures Toml.ReadValue(v) ==
            if items.Some? && items.value.1 == "" then Some(Toml.Arr(items.value.0)) else None
  {
    assert Toml.SkipBlank(w) == w;
  }

  lemma ReadItemsOf(w: string, s: string)
    requires w == "\"" + (Escape(s) + "\"" + "]")
    ensures Toml.ReadItems(w) == if Printable(s) then Some(([s], "")) else None
  {
    assert w[1..] == Escape(s) + "\"" + "]";
    ReadEscape(s, "]");
    OneItem(w, Toml.ReadString(w[1..]), s);
  }

  /** An array's text that starts with a string and ends after it. */
  lemma OneItem(w: string, first: Option<(string, string)>, s: string)
    requires w != "" && w[0] == '"' && Toml.ReadString(w[1..]) == first
    requires first.Some? ==> first.value == (s, "]")
    ensures Toml.ReadItems(w) == if first.Some? then Some(([s], "")) else None
  {
    if first.Some? {
      var after := first.value.1;
      assert after[0] == ']' && after[1..] == "";
      assert Toml.SkipBlank(after) == after by { assert !Toml.IsBlank(after[0]); }
      assert first == Some((s, after));
    }
  }

  lemma ReadNumber(n: nat)
    ensures Toml.ReadValue(Decimal.Print(n)) == Some(Toml.Int(n))
  {
    Decimal.ParsePrint(n);
    assert IsDigit(Decimal.Print(n)[0]);
  }

  // Lines.

  lemma {:induction false} EscapeOneLine(s: string)
    ensures OneLine(Escape(s))
  {
    if s != "" { EscapeOneLine(s[1..]); }
  }

  /** A value text as it may follow `key = `: one line without blanks at its ends. */
  predicate ValueText(v: string) {
    OneLine(v) && v != "" && !Toml.IsBlank(v[0]) && !Toml.IsBlank(v[|v| - 1])
  }

  lemma QuoteShape(s: string)
    ensures ValueText(Quote(s)) && ValueText("[" + Quote(s) + "]")
  {
    EscapeOneLine(s);
  }

  lemma NumberShape(n: nat)
    ensures ValueText(Decimal.Print(n))
  {
    var q := Decimal.Print(n);
    assert forall i :: 0 <= i < |q| ==> IsDigit(q[i]);
  }

  predicate OneLines(lines: seq<string>) { forall i :: 0 <= i < |lines| ==> OneLine(lines[i]) }

  // The reader, line by line, for any way `read` of reading one line.

  lemma StepDefine(read: Toml.LineReader, line: string, rest: seq<string>, doc: Toml.Doc,
                   key: string, value: Option<Toml.Value>)
    requires Toml.Defines(read, line, key, value) && key !in Toml.Current(doc)
    ensures Toml.ReadLines(read, [line] + rest, doc) ==
            if value.None? then None
            else Toml.ReadLines(read, rest, Toml.WithCurrent(doc, Toml.Current(doc)[key := value.value]))
  {
    assert ([line] + rest)[1..] == rest;
  }

  lemma StepLine(read: Toml.LineReader, line: string, rest: seq<string>, doc: Toml.Doc)
    ensures Toml.ReadLines(read, [line] + rest, doc) ==
            if read(line, doc).None? then None else Toml.ReadLines(read, rest, read(line, doc).value)
  {
    assert ([line] + rest)[1..] == rest;
  }

  /** A line, and the definition it makes. */
  datatype Field = Field(line: string, key: string, value: Option<Toml.Value>)

  ghost predicate Makes(read: Toml.LineReader, f: Field) { Toml.Defines(read, f.line, f.key, f.value) }

  /** The first two of some lines are definitions. */
  lemma ReadTwo(read: Toml.LineReader, a: Field, b: Field, rest: seq<string>, doc: Toml.Doc, t: Toml.Table)
    requires Makes(read, a) && Makes(read, b)
    requires t == Toml.Current(doc) && a.key !in t && b.key !in t && a.key != b.key
    ensures Toml.ReadLines(read, [a.line, b.line] + rest, doc) ==
            if a.value.None? || b.value.None? then None
            else Toml.ReadLines(read, rest, Toml.WithCurrent(doc, t[a.key := a.value.value][b.key := b.value.value]))
  {
    assert [a.line, b.line] + rest == [a.line] + ([b.line] + rest);
    StepDefine(read, a.line, [b.line] + rest, doc, a.key, a.value);
    if a.value.Some? {
      StepDefine(read, b.line, rest, Toml.WithCurrent(doc, t[a.key := a.value.value]), b.key, b.value);
    }
  }

  /** The header: two definitions, a line without effect, two definitions. */
  lemma ReadHeaderLines(read: Toml.LineReader, a: Field, b: Field, blank: string, c: Field, d: Field)
    requires Makes(read, a) && Makes(read, b) && Makes(read, c) && Makes(read, d)
    requires a.key != b.key && c.key !in {a.key, b.key} && d.key !in {a.key, b.key, c.key}
    requires forall doc :: read(blank, doc) == Some(doc)
    ensures Toml.ReadLines(read, [a.line, b.line, blank, c.line, d.line], Toml.Doc(map[], [])) ==
            if a.value.None? || b.value.None? || c.value.None? || d.value.None? then None
            else Some(Toml.Doc(map[a.key := a.value.value, b.key := b.value.value,
                                   c.key := c.value.value, d.key := d.value.value], []))
  {
    var doc := Toml.Doc(map[], []);
    var tail := [c.line, d.line] + [];
    assert [a.line, b.line, blank, c.line, d.line] == [a.line, b.line] + ([blank] + tail);
    ReadTwo(read, a, b, [blank] + tail, doc, map[]);
    if a.value.Some? && b.value.Some? {
      var t: Toml.Table := map[a.key := a.value.value, b.key := b.value.value];
      StepLine(read, blank, tail, Toml.Doc(t, []));
      ReadTwo(read, c, d, [], Toml.Doc(t, []), t);
    }
  }

  /** The last three lines of a block. */
  lemma ReadThree(read: Toml.LineReader, c: Field, d: Field, e: Field, doc: Toml.Doc, t: Toml.Table)
    requires Makes(read, c) && Makes(read, d) && Makes(read, e)
    requires t == Toml.Current(doc) && c.key !in t && d.key !in t && e.key !in t
    requires c.key != d.key && e.key !in {c.key, d.key}
    ensures Toml.ReadLines(read, [c.line, d.line] + ([e.line] + []), doc) ==
            if c.value.None? || d.value.None? || e.value.None? then None
            else Some(Toml.WithCurrent(doc,
                        t[c.key := c.value.value][d.key := d.value.value][e.key := e.value.value]))
  {
    ReadTwo(read, c, d, [e.line] + [], doc, t);
    if c.value.Some? && d.value.Some? {
      StepDefine(read, e.line, [], Toml.WithCurrent(doc, t[c.key := c.value.value][d.key := d.value.value]),
                 e.key, e.value);
    }
  }

  lemma Nest<T>(a: T, b: T, c: T, d: T, e: T, f: T, g: T)
    ensures [a, b, c, d, e, f, g] == [a] + ([b] + ([c, d] + ([e, f] + ([g] + []))))
  {
  }

  /** A block: a line without effect, a table header, five definitions. */
  lemma ReadTableLines(read: Toml.LineReader, blank: string, header: string,
                       a: Field, b: Field, c: Field, d: Field, e: Field, doc: Toml.Doc)
    requires read(blank, doc) == Some(doc)
    requires read(header, doc) == Some(doc.(proxies := doc.proxies + [map[]]))
    requires Makes(read, a) && Makes(read, b) && Makes(read, c) && Makes(read, d) && Makes(read, e)
    requires a.key != b.key && c.key !in {a.key, b.key} && d.key !in {a.key, b.key, c.key}
    requires e.key !in {a.key, b.key, c.key, d.key}
    ensures Toml.ReadLines(read, [blank, header, a.line, b.line, c.line, d.line, e.line], doc) ==
            if a.value.None? || b.value.None? || c.value.None? || d.value.None? || e.value.None? then None
            else Some(doc.(proxies := doc.proxies +
                   [map[a.key := a.value.value, b.key := b.value.value, c.key := c.value.value,
                        d.key := d.value.value, e.key := e.value.value]]))
  {
    var tail := [c.line, d.line] + ([e.line] + []);
    Nest(blank, header, a.line, b.line, c.line, d.line, e.line);
    StepLine(read, blank, [header] + ([a.line, b.line] + tail), doc);
    StepLine(read, header, [a.line, b.line] + tail, doc);
    var open := doc.(proxies := doc.proxies + [map[]]);
    ReadTwo(read, a, b, tail, open, map[]);
    if a.value.Some? && b.value.Some? {
      var t: Toml.Table := map[a.key := a.value.value, b.key := b.value.value];
      ReadThree(read, c, d, e, Toml.WithCurrent(open, t), t);
    }
  }

  // The lines the printer writes.

  function QuoteField(k: string, s: string): Field {
    Field(Pair(k, Quote(s)), k, if Printable(s) then Some(Toml.Str(s)) else None)
  }

  function ListField(k: string, s: string): Field {
    Field(Pair(k, "[" + Quote(s) + "]"), k, if Printable(s) then Some(Toml.Arr([s])) else None)
  }

  function NumberField(k: string, n: nat): Field {
    Field(Pair(k, Decimal.Print(n)), k, Some(Toml.Int(n)))
  }

  /** What the reader must make of each kind of line the printer writes. */
  ghost predicate ReadsPrinted(read: Toml.LineReader) {
    && (forall doc :: read("", doc) == Some(doc))
    && (forall doc: Toml.Doc :: read("[[proxies]]", doc) == Some(doc.(proxies := doc.proxies + [map[]])))
    && (forall k, s :: Toml.IsKey(k) ==> var f := QuoteField(k, s); Toml.Defines(read, f.line, k, f.value))
    && (forall k, s :: Toml.IsKey(k) ==> var f := ListField(k, s); Toml.Defines(read, f.line, k, f.value))
    && (forall k, n :: Toml.IsKey(k) ==> var f := NumberField(k, n); Toml.Defines(read, f.line, k, f.value))
  }

  lemma ReadLineReadsPrinted()
    ensures ReadsPrinted(Toml.ReadLine)
  {
    forall doc ensures Toml.ReadLine("", doc) == Some(doc) {}
    forall doc: Toml.Doc
      ensures Toml.ReadLine("[[proxies]]", doc) == Some(doc.(proxies := doc.proxies + [map[]]))
    {
      TrimFixed("[[proxies]]", Toml.IsBlank);
    }
    forall k, s | Toml.IsKey(k)
      ensures var f := QuoteField(k, s); Toml.Defines(Toml.ReadLine, f.line, k, f.value)
    {
      QuoteShape(s);
      ReadQuote(s);
      Toml.ReadLineOf(k, Quote(s));
    }
    forall k, s | Toml.IsKey(k)
      ensures var f := ListField(k, s); Toml.Defines(Toml.ReadLine, f.line, k, f.value)
    {
      QuoteShape(s);
      ReadQuoteList(s);
      Toml.ReadLineOf(k, "[" + Quote(s) + "]");
    }
    forall k, n | Toml.IsKey(k)
      ensures var f := NumberField(k, n); Toml.Defines(Toml.ReadLine, f.line, k, f.value)
    {
      NumberShape(n);
      ReadNumber(n);
      Toml.ReadLineOf(k, Decimal.Print(n));
    }
  }

  lemma KeysOk()
    ensures Toml.IsKey("serverAddr") && Toml.IsKey("serverPort")
    ensures Toml.IsKey("auth.method") && Toml.IsKey("auth.token")
    ensures Toml.IsKey("name") && Toml.IsKey("type") && Toml.IsKey("localIP") && Toml.IsKey("localPort")
    ensures Toml.IsKey("customDomains") && Toml.IsKey("remotePort")
    ensures "serverAddr" != "serverPort" && "auth.method" !in {"serverAddr", "serverPort"}
    ensures "auth.token" !in {"serverAddr", "serverPort", "auth.method"}
    ensures "name" != "type" && "localIP" !in {"name", "type"} && "localPort" !in {"name", "type", "localIP"}
    ensures "customDomains" !in {"name", "type", "localIP", "localPort"}
    ensures "remotePort" !in {"name", "type", "localIP", "localPort"}
  {
  }

  function HeaderTable(serverAddr: string, serverPort: nat, authToken: string): Toml.Table {
    map["serverAddr" := Toml.Str(serverAddr), "serverPort" := Toml.Int(serverPort),
        "auth.method" := Toml.Str("token"), "auth.token" := Toml.Str(authToken)]
  }

  function BlockTable(b: Block): Toml.Table {
    match b
    case Http(name, localIP, localPort, domain) =>
      map["name" := Toml.Str(name), "type" := Toml.Str("http"), "localIP" := Toml.Str(localIP),
          "localPort" := Toml.Int(localPort), "customDomains" := Toml.Arr([domain])]
    case Tcp(name, localIP, localPort, remotePort) =>
      map["name" := Toml.Str(name), "type" := Toml.Str("tcp"), "localIP" := Toml.Str(localIP),
          "localPort" := Toml.Int(localPort), "remotePort" := Toml.Int(remotePort)]
  }

  lemma ReadHeader(read: Toml.LineReader, serverAddr: string, serverPort: nat, authToken: string)
    requires ReadsPrinted(read)
    ensures Toml.ReadLines(read, HeaderLines(serverAddr, serverPort, authToken), Toml.Doc(map[], [])) ==
            if Printable(serverAddr) && Printable(authToken)
            then Some(Toml.Doc(HeaderTable(serverAddr, serverPort, authToken), []))
            else None
  {
    KeysOk();
    var tokenMethod := QuoteField("auth.method", "token");
    assert tokenMethod.line == Pair("auth.method", "\"token\"") && tokenMethod.value == Some(Toml.Str("token"));
    ReadHeaderLines(read, QuoteField("serverAddr", serverAddr), NumberField("serverPort", serverPort), "",
                    tokenMethod, QuoteField("auth.token", authToken));
  }

  lemma MakesQuote(read: Toml.LineReader, k: string, s: string)
    requires ReadsPrinted(read) && Toml.IsKey(k)
    ensures Makes(read, QuoteField(k, s))
  {
  }

  lemma MakesList(read: Toml.LineReader, k: string, s: string)
    requires ReadsPrinted(read) && Toml.IsKey(k)
    ensures Makes(read, ListField(k, s))
  {
  }

  lemma MakesNumber(read: Toml.LineReader, k: string, n: nat)
    requires ReadsPrinted(read) && Toml.IsKey(k)
    ensures Makes(read, NumberField(k, n))
  {
  }

  /** The lines every block starts with; the fifth field is left to the kind of block. */
  lemma ReadBlockWith(read: Toml.LineReader, name: string, kind: string, localIP: string, localPort: nat, last: Field,
                      doc: Toml.Doc)
    requires ReadsPrinted(read) && Makes(read, last) && last.key in {"customDomains", "remotePort"}
    ensures Toml.ReadLines(read, ["", "[[proxies]]", Pair("name", Quote(name)), Pair("type", Quote(kind)),
                                  Pair("localIP", Quote(localIP)), Pair("localPort", Decimal.Print(localPort)),
                                  last.line], doc) ==
            if Printable(name) && Printable(kind) && Printable(localIP) && last.value.Some?
            then Some(doc.(proxies := doc.proxies +
                   [map["name" := Toml.Str(name), "type" := Toml.Str(kind), "localIP" := Toml.Str(localIP),
                        "localPort" := Toml.Int(localPort), last.key := last.value.value]]))
            else None
  {
    KeysOk();
    MakesQuote(read, "name", name);
    MakesQuote(read, "type", kind);
    MakesQuote(read, "localIP", localIP);
    MakesNumber(read, "localPort", localPort);
    ReadTableLines(read, "", "[[proxies]]", QuoteField("name", name), QuoteField("type", kind),
                   QuoteField("localIP", localIP), NumberField("localPort", localPort), last, doc);
  }

  lemma QuotedKinds()
    ensures Quote("http") == "\"http\"" && Printable("http")
    ensures Quote("tcp") == "\"tcp\"" && Printable("tcp")
  {
  }

  lemma ReadHttp(read: Toml.LineReader, b: Block, doc: Toml.Doc)
    requires ReadsPrinted(read) && b.Http?
    ensures Toml.ReadLines(read, BlockLines(b), doc) ==
            if PrintableBlock(b) then Some(doc.(proxies := doc.proxies + [BlockTable(b)])) else None
  {
    KeysOk();
    QuotedKinds();
    MakesList(read, "customDomains", b.domain);
    ReadBlockWith(read, b.name, "http", b.localIP, b.localPort, ListField("customDomains", b.domain), doc);
  }

  lemma ReadTcp(read: Toml.LineReader, b: Block, doc: Toml.Doc)
    requires ReadsPrinted(read) && b.Tcp?
    ensures Toml.ReadLines(read, BlockLines(b), doc) ==
            if PrintableBlock(b) then Some(doc.(proxies := doc.proxies + [BlockTable(b)])) else None
  {
    KeysOk();
    QuotedKinds();
    MakesNumber(read, "remotePort", b.remotePort);
    ReadBlockWith(read, b.name, "tcp", b.localIP, b.localPort, NumberField("remotePort", b.remotePort), doc);
  }

  lemma ReadBlock(read: Toml.LineReader, b: Block, doc: Toml.Doc)
    requires ReadsPrinted(read)
    ensures Toml.ReadLines(read, BlockLines(b), doc) ==
            if PrintableBlock(b) then Some(doc.(proxies := doc.proxies + [BlockTable(b)])) else None
  {
    if b.Http? { ReadHttp(read, b, doc); } else { ReadTcp(read, b, doc); }
  }

  function BlocksLines(bs: seq<Block>): seq<string> {
    if bs == [] then [] else BlocksLines(bs[..|bs| - 1]) + BlockLines(bs[|bs| - 1])
  }

  function BlockTables(bs: seq<Block>): seq<Toml.Table> {
    if bs == [] then [] else BlockTables(bs[..|bs| - 1]) + [BlockTable(bs[|bs| - 1])]
  }

  lemma PrintableBlocksSnoc(bs: seq<Block>)
    requires bs != []
    ensures PrintableBlocks(bs) <==> PrintableBlocks(bs[..|bs| - 1]) && PrintableBlock(bs[|bs| - 1])
  {
    var front := bs[..|bs| - 1];
    assert forall i :: 0 <= i < |front| ==> front[i] == bs[i];
  }

  lemma {:induction false} ReadBlocks(read: Toml.LineReader, bs: seq<Block>, top: Toml.Table)
    requires ReadsPrinted(read)
    ensures Toml.ReadLines(read, BlocksLines(bs), Toml.Doc(top, [])) ==
            if PrintableBlocks(bs) then Some(Toml.Doc(top, BlockTables(bs))) else None
  {
    if bs != [] {
      var front, b := bs[..|bs| - 1], bs[|bs| - 1];
      ReadBlocks(read, front, top);
      PrintableBlocksSnoc(bs);
      Toml.ReadLinesAppend(read, BlocksLines(front), BlockLines(b), Toml.Doc(top, []));
      if PrintableBlocks(front) { ReadBlock(read, b, Toml.Doc(top, BlockTables(front))); }
    }
  }

  lemma TableBlockOf(b: Block)
    ensures TableBlock(BlockTable(b)) == Some(b)
  {
    var t := BlockTable(b);
    if b.Http? { assert t.Keys == HTTP_KEYS; } else { assert t.Keys == TCP_KEYS; assert "remotePort" !in HTTP_KEYS; }
  }

  lemma {:induction false} TableBlocksOf(bs: seq<Block>)
    ensures TableBlocks(BlockTables(bs)) == Some(bs)
  {
    if bs != [] {
      var front, b := bs[..|bs| - 1], bs[|bs| - 1];
      TableBlocksOf(front);
      TableBlockOf(b);
      var ts := BlockTables(bs);
      assert ts[..|ts| - 1] == BlockTables(front) && ts[|ts| - 1] == BlockTable(b);
      assert bs == front + [b];
    }
  }

  // From lines to the text.

  lemma LineOk(k: string, v: string)
    requires OneLine(k) && ValueText(v)
    ensures OneLine(Pair(k, v))
  {
  }

  lemma HeaderOneLines(serverAddr: string, serverPort: nat, authToken: string)
    ensures OneLines(HeaderLines(serverAddr, serverPort, authToken))
  {
    QuoteShape(serverAddr);
    NumberShape(serverPort);
    QuoteShape(authToken);
    LineOk("serverAddr", Quote(serverAddr));
    LineOk("serverPort", Decimal.Print(serverPort));
    LineOk("auth.token", Quote(authToken));
  }

  lemma SevenLines(a: string, b: string, c: string, d: string, e: string, f: string, g: string)
    requires OneLine(a) && OneLine(b) && OneLine(c) && OneLine(d) && OneLine(e) && OneLine(f) && OneLine(g)
    ensures OneLines([a, b, c, d, e, f, g])
  {
  }

  lemma QuoteLine(k: string, s: string)
    requires OneLine(k)
    ensures OneLine(Pair(k, Quote(s))) && OneLine(Pair(k, "[" + Quote(s) + "]"))
  {
    QuoteShape(s);
    LineOk(k, Quote(s));
    LineOk(k, "[" + Quote(s) + "]");
  }

  lemma NumberLine(k: string, n: nat)
    requires OneLine(k)
    ensures OneLine(Pair(k, Decimal.Print(n)))
  {
    NumberShape(n);
    LineOk(k, Decimal.Print(n));
  }

  lemma BlockOneLines(b: Block)
    ensures OneLines(BlockLines(b))
  {
    QuoteLine("name", b.name);
    QuoteLine("localIP", b.localIP);
    NumberLine("localPort", b.localPort);
    if b.Http? {
      QuoteLine("customDomains", b.domain);
      SevenLines("", "[[proxies]]", Pair("name", Quote(b.name)), Pair("type", "\"http\""),
                 Pair("localIP", Quote(b.localIP)), Pair("localPort", Decimal.Print(b.localPort)),
                 Pair("customDomains", "[" + Quote(b.domain) + "]"));
    } else {
      NumberLine("remotePort", b.remotePort);
      SevenLines("", "[[proxies]]", Pair("name", Quote(b.name)), Pair("type", "\"tcp\""),
                 Pair("localIP", Quote(b.localIP)), Pair("localPort", Decimal.Print(b.localPort)),
                 Pair("remotePort", Decimal.Print(b.remotePort)));
    }
  }

  lemma {:induction false} BlocksTextLines(bs: seq<Block>)
    ensures BlocksText(bs) == JoinLines(BlocksLines(bs))
    ensures OneLines(BlocksLines(bs))
  {
    if bs != [] {
      var front, b := bs[..|bs| - 1], bs[|bs| - 1];
      BlocksTextLines(front);
      BlockOneLines(b);
      JoinLinesAppend(BlocksLines(front), BlockLines(b));
    }
  }

  lemma TextLines(serverAddr: string, serverPort: nat, authToken: string, bs: seq<Block>)
    ensures Split(HeaderText(serverAddr, serverPort, authToken) + BlocksText(bs), '\n') ==
            HeaderLines(serverAddr, serverPort, authToken) + BlocksLines(bs) + [""]
  {
    var header := HeaderLines(serverAddr, serverPort, authToken);
    HeaderOneLines(serverAddr, serverPort, authToken);
    BlocksTextLines(bs);
    JoinLinesAppend(header, BlocksLines(bs));
    SplitJoin(header + BlocksLines(bs));
  }

  lemma ReadText(read: Toml.LineReader, serverAddr: string, serverPort: nat, authToken: string, bs: seq<Block>)
    requires ReadsPrinted(read)
    ensures Toml.ReadLines(read, HeaderLines(serverAddr, serverPort, authToken) + BlocksLines(bs) + [""],
                           Toml.Doc(map[], [])) ==
            if Printable(serverAddr) && Printable(authToken) && PrintableBlocks(bs)
            then Some(Toml.Doc(HeaderTable(serverAddr, serverPort, authToken), BlockTables(bs)))
            else None
  {
    var header := HeaderLines(serverAddr, serverPort, authToken);
    var table := HeaderTable(serverAddr, serverPort, authToken);
    var start := Toml.Doc(map[], []);
    Toml.ReadLinesAppend(read, header + BlocksLines(bs), [""], start);
    Toml.ReadLinesAppend(read, header, BlocksLines(bs), start);
    ReadHeader(read, serverAddr, serverPort, authToken);
    if Printable(serverAddr) && Printable(authToken) {
      ReadBlocks(read, bs, table);
      if PrintableBlocks(bs) { StepLine(read, "", [], Toml.Doc(table, BlockTables(bs))); assert [""] + [] == [""]; }
    }
  }

  lemma ReadTextToml(serverAddr: string, serverPort: nat, authToken: string, bs: seq<Block>)
    ensures Toml.Read(HeaderText(serverAddr, serverPort, authToken) + BlocksText(bs)) ==
            if Printable(serverAddr) && Printable(authToken) && PrintableBlocks(bs)
            then Some(Toml.Doc(HeaderTable(serverAddr, serverPort, authToken), BlockTables(bs)))
            else None
  {
    TextLines(serverAddr, serverPort, authToken, bs);
    ReadLineReadsPrinted();
    ReadText(Toml.ReadLine, serverAddr, serverPort, authToken, bs);
  }

  lemma ConfigOf(serverAddr: string, serverPort: nat, authToken: string, bs: seq<Block>)
    ensures DocConfig(Toml.Doc(HeaderTable(serverAddr, serverPort, authToken), BlockTables(bs))) ==
            Some(FrpcConfig(serverAddr, serverPort, authToken, bs))
  {
    TableBlocksOf(bs);
    assert HeaderTable(serverAddr, serverPort, authToken).Keys == TOP_KEYS;
  }

  /** Reading a printed file gives back the server address, port, token and blocks, or, exactly
      when some printed string holds a control character `quote` does not escape, no TOML at all. */
  lemma ReadPrinted(serverAddr: string, serverPort: nat, authToken: string, bs: seq<Block>)
    ensures ReadConfig(HeaderText(serverAddr, serverPort, authToken) + BlocksText(bs)) ==
            if Printable(serverAddr) && Printable(authToken) && PrintableBlocks(bs)
            then Some(FrpcConfig(serverAddr, serverPort, authToken, bs))
            else None
  {
    ReadTextToml(serverAddr, serverPort, authToken, bs);
    ConfigOf(serverAddr, serverPort, authToken, bs);
  }

  /** The same for `Render`: what frpc reads is what the loop accepted. */
  lemma RenderRoundTrip(ip: string -> bool, input: RenderInput)
    requires RenderSpec(ip, input).Rendered?
    ensures var accepted := Scan(Judged(ip, StableSort(input.proxies))).blocks;
      ReadConfig(RenderSpec(ip, input).text) ==
      if Printable(input.serverAddr) && Printable(input.authToken) && PrintableBlocks(accepted)
      then Some(FrpcConfig(input.serverAddr, input.serverPort, input.authToken, accepted))
      else None
  {
    ReadPrinted(input.serverAddr, input.serverPort, input.authToken,
                Scan(Judged(ip, StableSort(input.proxies))).blocks);
  }
}
