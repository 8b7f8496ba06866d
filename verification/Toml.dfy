/** A reader for the part of TOML v1.0.0 that a generated `frpc.toml` uses: bare and dotted
    keys, basic strings, decimal integers, arrays of strings, and one array of tables.
    It is written from the TOML document, not from the printer. */
module Toml {
  import opened Options
  import opened Text
  import Decimal

  datatype Value = Str(text: string) | Int(n: nat) | Arr(items: seq<string>)

  type Table = map<string, Value>

  /** The top-level table, and the elements of the array of tables `proxies`. */
  datatype Doc = Doc(top: Table, proxies: seq<Table>)

  predicate IsBlank(c: char) { c == ' ' || c == '\t' }

  /** Section "String": control characters other than tab must not stand in a basic string. */
  predicate IsControl(c: char) { (c < ' ' && c != '\t') || c == '\U{7F}' }

  predicate IsKeyChar(c: char) { IsAlnum(c) || c == '_' || c == '-' || c == '.' }

  predicate IsKey(k: string) { k != "" && All(k, IsKeyChar) }

  /** The character a one-letter escape stands for. */
  function EscapeValue(c: char): Option<char> {
    match c
    case 'b' => Some('\U{8}')
    case 't' => Some('\t')
    case 'n' => Some('\n')
    case 'f' => Some('\U{C}')
    case 'r' => Some('\r')
    case '"' => Some('"')
    case '\\' => Some('\\')
    case _ => None
  }

  /** Reads a basic string after its opening quote: its text, and what follows the closing quote. */
  function ReadString(s: string): (r: Option<(string, string)>)
    ensures r.Some? ==> |r.value.1| < |s|
  {
    if s == "" then None
    else if s[0] == '"' then Some(("", s[1..]))
    else if s[0] == '\\' then
      if |s| < 2 then None
      else match EscapeValue(s[1])
        case None => None
        case Some(c) => Prepend(c, ReadString(s[2..]))
    else if IsControl(s[0]) then None
    else Prepend(s[0], ReadString(s[1..]))
  }

  function Prepend(c: char, r: Option<(string, string)>): Option<(string, string)> {
    if r.None? then None else Some(([c] + r.value.0, r.value.1))
  }

  function SkipBlank(s: string): string { TrimLeft(s, IsBlank) }

  /** Reads the elements of an array of strings after its opening bracket. */
  function ReadItems(s: string): Option<(seq<string>, string)>
    decreases |s|
  {
    if s == "" then None
    else if s[0] == ']' then Some(([], s[1..]))
    else if s[0] != '"' then None
    else
      var first := ReadString(s[1..]);
      if first.None? then None
      else
        var rest := SkipBlank(first.value.1);
        if rest == "" then None
        else if rest[0] == ']' then Some(([first.value.0], rest[1..]))
        else if rest[0] != ',' then None
        else
          var others := ReadItems(SkipBlank(rest[1..]));
          if others.None? then None
          else Some(([first.value.0] + others.value.0, others.value.1))
  }

  function ReadValue(v: string): Option<Value> {
    if v == "" then None
    else if v[0] == '"' then
      match ReadString(v[1..])
      case None => None
      case Some((text, rest)) => if rest == "" then Some(Str(text)) else None
    else if v[0] == '[' then
      match ReadItems(SkipBlank(v[1..]))
      case None => None
      case Some((items, rest)) => if rest == "" then Some(Arr(items)) else None
    else
      match Decimal.Parse(v)
      case None => None
      case Some(n) => Some(Int(n))
  }

  /** The part of a line before its first equals sign. */
  function BeforeEquals(line: string): (k: string)
    ensures |k| <= |line|
  {
    if line == "" || line[0] == '=' then "" else [line[0]] + BeforeEquals(line[1..])
  }

  function ReadPair(line: string): Option<(string, Value)> {
    var k := BeforeEquals(line);
    if |k| == |line| then None
    else
      var key := Trim(k, IsBlank);
      if !IsKey(key) then None
      else match ReadValue(Trim(line[|k| + 1..], IsBlank))
        case None => None
        case Some(v) => Some((key, v))
  }

  /** Adds a key; TOML forbids defining one twice. */
  function Define(t: Table, k: string, v: Value): Option<Table> {
    if k in t then None else Some(t[k := v])
  }

  const HEADER := "[[proxies]]"

  /** A definition goes to the last element of `proxies`, or before the first one to the top level. */
  function AddPair(doc: Doc, pair: Option<(string, Value)>): Option<Doc> {
    match pair
    case None => None
    case Some((k, v)) =>
      if doc.proxies == [] then
        match Define(doc.top, k, v)
        case None => None
        case Some(t) => Some(doc.(top := t))
      else
        var last := |doc.proxies| - 1;
        match Define(doc.proxies[last], k, v)
        case None => None
        case Some(t) => Some(doc.(proxies := doc.proxies[..last] + [t]))
  }

  type PairReader = string -> Option<(string, Value)>

  /** One line without blanks at its ends. */
  function ReadTrimmed(pair: PairReader, line: string, doc: Doc): Option<Doc> {
    if line == "" then Some(doc)
    else if line == HEADER then Some(doc.(proxies := doc.proxies + [map[]]))
    else AddPair(doc, pair(line))
  }

  function ReadLine(text: string, doc: Doc): Option<Doc> { ReadTrimmed(ReadPair, Trim(text, IsBlank), doc) }

  type LineReader = (string, Doc) -> Option<Doc>

  /** Reads line after line and stops at the first bad one. */
  function ReadLines(read: LineReader, lines: seq<string>, doc: Doc): Option<Doc> {
    if lines == [] then Some(doc)
    else match read(lines[0], doc)
      case None => None
      case Some(d) => ReadLines(read, lines[1..], d)
  }

  function Read(text: string): Option<Doc> { ReadLines(ReadLine, Split(text, '\n'), Doc(map[], [])) }

  // What the reader does on the forms a printer writes.

  lemma {:induction false} ReadLinesAppend(read: LineReader, a: seq<string>, b: seq<string>, doc: Doc)
    ensures ReadLines(read, a + b, doc) ==
            match ReadLines(read, a, doc)
            case None => None
            case Some(d) => ReadLines(read, b, d)
  {
    if a == [] {
      assert a + b == b;
    } else {
      assert (a + b)[0] == a[0] && (a + b)[1..] == a[1..] + b;
      if read(a[0], doc).Some? { ReadLinesAppend(read, a[1..], b, read(a[0], doc).value); }
    }
  }

  /** The table that keys now go to: the last `[[proxies]]` element, or the top level. */
  function Current(doc: Doc): Table {
    if doc.proxies == [] then doc.top else doc.proxies[|doc.proxies| - 1]
  }

  function WithCurrent(doc: Doc, t: Table): (r: Doc)
    ensures Current(r) == t
  {
    if doc.proxies == [] then doc.(top := t) else doc.(proxies := doc.proxies[..|doc.proxies| - 1] + [t])
  }

  /** The line defines `key` as `value`, or is always refused when there is no value. */
  ghost predicate Defines(read: LineReader, line: string, key: string, value: Option<Value>) {
    forall doc: Doc :: key !in Current(doc) ==>
      read(line, doc) == if value.None? then None else Some(WithCurrent(doc, Current(doc)[key := value.value]))
  }

  lemma {:induction false} BeforeEqualsOf(k: string, rest: string)
    requires '=' !in k
    ensures BeforeEquals(k + "=" + rest) == k
  {
    if k == "" {
      assert k + "=" + rest == "=" + rest;
    } else {
      assert (k + "=" + rest)[1..] == k[1..] + "=" + rest;
      BeforeEqualsOf(k[1..], rest);
    }
  }

  /** A line `key = value` is read as that key and whatever its value text reads as. */
  lemma ReadPairOf(k: string, v: string)
    requires IsKey(k)
    requires v != "" && !IsBlank(v[0]) && !IsBlank(v[|v| - 1])
    ensures ReadPair(k + " = " + v) ==
            if ReadValue(v).None? then None else Some((k, ReadValue(v).value))
  {
    var line := k + " = " + v;
    assert line == (k + " ") + "=" + (" " + v);
    BeforeEqualsOf(k + " ", " " + v);
    assert BeforeEquals(line) == k + " ";
    assert line[|k + " "| + 1..] == " " + v;
    TrimKey(k);
    TrimValue(v);
  }

  lemma TrimKey(k: string)
    requires IsKey(k)
    ensures Trim(k + " ", IsBlank) == k
  {
    var s := k + " ";
    assert !IsBlank(s[0]) && !IsBlank(k[|k| - 1]);
    assert s[..|s| - 1] == k;
  }

  lemma TrimValue(v: string)
    requires v != "" && !IsBlank(v[0]) && !IsBlank(v[|v| - 1])
    ensures Trim(" " + v, IsBlank) == v
  {
    assert (" " + v)[1..] == v;
  }

  /** How a `key = value` line that is not blank and not a header acts on a document. */
  lemma ReadLineOf(k: string, v: string)
    requires IsKey(k)
    requires v != "" && !IsBlank(v[0]) && !IsBlank(v[|v| - 1])
    ensures Defines(ReadLine, k + " = " + v, k, ReadValue(v))
  {
    var line := k + " = " + v;
    PairLineTrimmed(k, v);
    ReadPairOf(k, v);
    DefinesPair(ReadPair, line, k, ReadValue(v));
    DefinesLine(line, k, ReadValue(v));
  }

  /** A key defined twice in one table is refused. */
  lemma DefinedTwice(pair: PairReader, line: string, k: string, doc: Doc)
    requires line != "" && line != HEADER && k in Current(doc)
    requires pair(line).Some? ==> pair(line).value.0 == k
    ensures ReadTrimmed(pair, line, doc) == None
  {
  }

  ghost predicate DefinesWith(pair: PairReader, line: string, key: string, value: Option<Value>) {
    forall doc: Doc :: key !in Current(doc) ==>
      ReadTrimmed(pair, line, doc) ==
      if value.None? then None else Some(WithCurrent(doc, Current(doc)[key := value.value]))
  }

  lemma DefinesPair(pair: PairReader, line: string, k: string, x: Option<Value>)
    requires line != "" && line != HEADER
    requires pair(line) == if x.None? then None else Some((k, x.value))
    ensures DefinesWith(pair, line, k, x)
  {
  }

  lemma DefinesLine(line: string, k: string, x: Option<Value>)
    requires Trim(line, IsBlank) == line && DefinesWith(ReadPair, line, k, x)
    ensures Defines(ReadLine, line, k, x)
  {
  }

  lemma PairLineTrimmed(k: string, v: string)
    requires IsKey(k)
    requires v != "" && !IsBlank(v[|v| - 1])
    ensures Trim(k + " = " + v, IsBlank) == k + " = " + v
    ensures k + " = " + v != "" && k + " = " + v != HEADER
  {
    var line := k + " = " + v;
    assert line[0] == k[0] && IsKeyChar(k[0]);
    assert line[|line| - 1] == v[|v| - 1];
    TrimFixed(line, IsBlank);
    assert HEADER[0] == '[';
  }
}
