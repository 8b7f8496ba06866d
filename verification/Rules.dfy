/** The validation and normalisation rules for names, hosts and domains.  The server
    (tunnel service, publish) and the agent (frpc renderer) each carry a copy. */
module Rules {
  import opened Text

  predicate IsNameChar(c: char) { IsAlnum(c) || c == '-' || c == '_' }

  /** `nameRe`: `^[a-zA-Z0-9_-]+$`. */
  predicate NameRe(s: string) { s != "" && All(s, IsNameChar) }

  predicate IsLabelChar(c: char) { IsAlnum(c) || c == '-' }

  /** One label of `hostnameRe`: 1 to 63 letters, digits and hyphens, no hyphen at an end. */
  predicate IsLabel(l: string) {
    && 1 <= |l| <= 63
    && IsAlnum(l[0]) && IsAlnum(l[|l| - 1])
    && All(l, IsLabelChar)
  }

  /** `hostnameRe`: labels joined by dots. */
  predicate HostnameRe(h: string) {
    var labels := Split(h, '.');
    forall i :: 0 <= i < |labels| ==> IsLabel(labels[i])
  }

  predicate AreLabels(labels: seq<string>) { forall i :: 0 <= i < |labels| ==> IsLabel(labels[i]) }

  /** The regular expression read as a grammar: a host name is a non-empty list of labels joined by
      dots, and no other list of labels makes the same text. */
  lemma HostnameGrammar(h: string)
    ensures HostnameRe(h) <==> exists labels: seq<string> :: labels != [] && AreLabels(labels) && Join(labels, '.') == h
    ensures forall labels: seq<string> :: labels != [] && AreLabels(labels) && Join(labels, '.') == h ==>
              labels == Split(h, '.')
  {
    JoinSplit(h, '.');
    if HostnameRe(h) { assert AreLabels(Split(h, '.')); }
    forall labels: seq<string> | labels != [] && AreLabels(labels) && Join(labels, '.') == h
      ensures labels == Split(h, '.')
    {
      forall i | 0 <= i < |labels| ensures '.' !in labels[i] { LabelHasNoDot(labels[i]); }
      SplitOfJoin(labels, '.');
    }
  }

  lemma LabelHasNoDot(l: string)
    requires IsLabel(l)
    ensures '.' !in l
  {
    forall i | 0 <= i < |l| ensures l[i] != '.' { assert IsLabelChar(l[i]); }
  }

  /** `validHost`; `ip` stands for `net.ParseIP(h) != nil`. */
  predicate ValidHost(ip: string -> bool, host: string) {
    var h := TrimSpace(host);
    h != "" && (ip(h) || HostnameRe(h))
  }

  predicate ValidDomain(domain: string) {
    var d := TrimSpace(domain);
    '.' in d && HostnameRe(d)
  }

  predicate ValidPort(p: int) { 1 <= p <= 65535 }

  /** `sanitizeName` of the agent. */
  function SanitizeName(name: string): (r: string)
    ensures All(r, IsNameChar)
    ensures r != "" ==> r[0] != '-' && r[|r| - 1] != '-'
  {
    var t := Collapse(TrimSpace(name), IsNameChar);
    assert All(t, IsNameChar);
    TrimAll(t, IsHyphen, IsNameChar);
    Trim(t, IsHyphen)
  }

  /** On names the server accepts, sanitising is exactly the removal of edge hyphens. */
  lemma SanitizeAccepted(name: string)
    requires NameRe(name)
    ensures SanitizeName(name) == Trim(name, IsHyphen)
  {
    TrimFixed(name, IsSpace);
    CollapseFixed(name, IsNameChar);
  }

  /** An accepted name survives sanitising unchanged exactly when no hyphen is at an edge. */
  lemma SanitizeFixedPoint(name: string)
    requires NameRe(name)
    ensures SanitizeName(name) == name <==> name[0] != '-' && name[|name| - 1] != '-'
  {
    SanitizeAccepted(name);
    if name[0] != '-' && name[|name| - 1] != '-' { TrimFixed(name, IsHyphen); }
  }

  /** Sanitising twice is sanitising once, for every input. */
  lemma SanitizeIdempotent(name: string)
    ensures SanitizeName(SanitizeName(name)) == SanitizeName(name)
  {
    var r := SanitizeName(name);
    if r != "" { SanitizeFixedPoint(r); }
  }

  predicate IsWordChar(c: char) { IsAlnum(c) || c == '_' }

  /** Sanitising keeps every letter, digit and underscore, in order: it only replaces what is not
      allowed and removes hyphens at the edges. */
  lemma SanitizeKeeps(name: string)
    ensures Filter(SanitizeName(name), IsWordChar) == Filter(name, IsWordChar)
  {
    var t := TrimSpace(name);
    TrimFilter(name, IsSpace, IsWordChar);
    CollapseFilter(t, IsNameChar, IsWordChar);
    TrimFilter(Collapse(t, IsNameChar), IsHyphen, IsWordChar);
  }

  /** `unicode.ToLower` as far as ASCII output goes: besides the capital letters only the
      Kelvin sign and the dotted capital I lower to an ASCII letter.  Other non-ASCII
      characters lower to non-ASCII ones, which every caller treats alike. */
  function LowerChar(c: char): char {
    if 'A' <= c <= 'Z' then c + ' '
    else if c == '\U{212A}' then 'k'
    else if c == '\U{0130}' then 'i'
    else c
  }

  function ToLower(s: string): (r: string)
    ensures |r| == |s| && forall i :: 0 <= i < |s| ==> r[i] == LowerChar(s[i])
  {
    seq(|s|, i requires 0 <= i < |s| => LowerChar(s[i]))
  }

  predicate IsSlugChar(c: char) { IsLower(c) || IsDigit(c) }

  predicate IsSlugOrHyphen(c: char) { IsSlugChar(c) || IsHyphen(c) }

  /** A non-empty slug: words over `[a-z0-9]` joined by single hyphens. */
  predicate IsSlug(s: string) {
    && s != "" && IsSlugChar(s[0]) && IsSlugChar(s[|s| - 1])
    && All(s, IsSlugOrHyphen)
    && SingleHyphens(s)
  }

  predicate SingleHyphens(s: string) {
    forall i :: 0 <= i < |s| - 1 && s[i] == '-' ==> s[i + 1] != '-'
  }

  /** `slugify` of the server's publish package. */
  function Slugify(name: string): string {
    Trim(Collapse(ToLower(TrimSpace(name)), IsSlugChar), IsHyphen)
  }

  lemma {:induction false} CollapseSingle(s: string)
    ensures SingleHyphens(Collapse(s, IsSlugChar))
    ensures s != "" && IsSlugChar(s[0]) ==> Collapse(s, IsSlugChar)[0] == s[0]
    decreases |s|
  {
    if s == "" {
    } else if IsSlugChar(s[0]) {
      CollapseSingle(s[1..]);
    } else {
      var t := SkipRun(s[1..], IsSlugChar);
      CollapseSingle(t);
      assert Collapse(s, IsSlugChar) == "-" + Collapse(t, IsSlugChar);
    }
  }

  lemma TrimSingle(s: string)
    requires SingleHyphens(s)
    ensures SingleHyphens(Trim(s, IsHyphen))
  {
    var k := |s| - |TrimLeft(s, IsHyphen)|;
    var r := Trim(s, IsHyphen);
    assert forall i :: 0 <= i < |r| ==> r[i] == s[k + i];
  }

  /** Whatever it is given, `slugify` returns the empty string or a slug. */
  lemma SlugifyGivesSlug(name: string)
    ensures Slugify(name) == "" || IsSlug(Slugify(name))
  {
    var t := Collapse(ToLower(TrimSpace(name)), IsSlugChar);
    CollapseSingle(ToLower(TrimSpace(name)));
    assert All(t, IsSlugOrHyphen);
    TrimAll(t, IsHyphen, IsSlugOrHyphen);
    TrimSingle(t);
  }

  lemma ToLowerConcat(a: string, b: string)
    ensures ToLower(a + b) == ToLower(a) + ToLower(b)
  {
  }

  lemma SpacesHaveNoSlugChars(a: string)
    requires All(a, IsSpace)
    ensures Filter(ToLower(a), IsSlugChar) == ""
  {
    forall i | 0 <= i < |a| ensures !IsSlugChar(ToLower(a)[i]) { assert IsSpace(a[i]); }
    FilterNone(ToLower(a), IsSlugChar);
  }

  lemma LowerTrimFilter(name: string)
    ensures Filter(ToLower(TrimSpace(name)), IsSlugChar) == Filter(ToLower(name), IsSlugChar)
  {
    var a, b := TrimParts(name, IsSpace);
    var t := TrimSpace(name);
    ToLowerConcat(a, t + b);
    ToLowerConcat(t, b);
    FilterConcat(ToLower(a), ToLower(t) + ToLower(b), IsSlugChar);
    FilterConcat(ToLower(t), ToLower(b), IsSlugChar);
    SpacesHaveNoSlugChars(a);
    SpacesHaveNoSlugChars(b);
  }

  /** `slugify` keeps every letter and digit of the lower-cased name, in order. */
  lemma SlugifyKeeps(name: string)
    ensures Filter(Slugify(name), IsSlugChar) == Filter(ToLower(name), IsSlugChar)
  {
    var t := ToLower(TrimSpace(name));
    LowerTrimFilter(name);
    CollapseFilter(t, IsSlugChar, IsSlugChar);
    TrimFilter(Collapse(t, IsSlugChar), IsHyphen, IsSlugChar);
  }

  lemma {:induction false} CollapseSlug(s: string)
    requires All(s, IsSlugOrHyphen) && SingleHyphens(s)
    ensures Collapse(s, IsSlugChar) == s
    decreases |s|
  {
    if s == "" {
    } else {
      var rest := s[1..];
      assert forall i :: 0 <= i < |rest| ==> rest[i] == s[i + 1];
      CollapseSlug(rest);
      if s[0] == '-' { assert SkipRun(rest, IsSlugChar) == rest; }
    }
  }

  /** Slugs are fixed points of `slugify`; with the lemma above, it is idempotent. */
  lemma SlugifyFixedPoint(s: string)
    requires IsSlug(s)
    ensures Slugify(s) == s
  {
    TrimFixed(s, IsSpace);
    assert ToLower(s) == s;
    CollapseSlug(s);
    TrimFixed(s, IsHyphen);
  }

  /** A subdomain built from slugs is a legal tunnel name and keeps its spelling on the agent. */
  lemma SlugIsStableName(s: string)
    requires IsSlug(s)
    ensures NameRe(s) && SanitizeName(s) == s
  {
    SanitizeFixedPoint(s);
  }

  lemma {:induction false} TrimRightConcat(a: string, b: string, cut: char -> bool)
    requires a != "" && !cut(a[|a| - 1])
    ensures TrimRight(a + b, cut) == a + TrimRight(b, cut)
    decreases |b|
  {
    if b == "" {
      assert a + b == a;
    } else if cut(b[|b| - 1]) {
      assert (a + b)[..|a + b| - 1] == a + b[..|b| - 1];
      TrimRightConcat(a, b[..|b| - 1], cut);
    }
  }

  /** A domain made of a slug and a configured suffix passes `validDomain` exactly when the
      slug fits one DNS label and the suffix, without trailing blanks, is a host name. */
  lemma SlugDomain(sub: string, suffix: string)
    requires IsSlug(sub)
    ensures ValidDomain(sub + "." + suffix) <==> |sub| <= 63 && HostnameRe(TrimRight(suffix, IsSpace))
  {
    var t := TrimRight(suffix, IsSpace);
    SlugDomainTrim(sub, suffix);
    SlugHostname(sub, t);
  }

  lemma SlugDomainTrim(sub: string, suffix: string)
    requires IsSlug(sub)
    ensures TrimSpace(sub + "." + suffix) == sub + "." + TrimRight(suffix, IsSpace)
  {
    var a := sub + ".";
    assert a[|a| - 1] == '.' && !IsSpace('.');
    TrimRightConcat(a, suffix, IsSpace);
    assert !IsSpace((a + suffix)[0]) by { assert (a + suffix)[0] == sub[0]; }
  }

  lemma SlugHostname(sub: string, t: string)
    requires IsSlug(sub)
    ensures '.' in sub + "." + t
    ensures HostnameRe(sub + "." + t) <==> |sub| <= 63 && HostnameRe(t)
  {
    assert (sub + "." + t)[|sub|] == '.';
    SplitAt(sub, '.', t);
    var rest := Split(t, '.');
    var labels := Split(sub + "." + t, '.');
    assert labels == [sub] + rest;
    assert labels[0] == sub && forall i :: 0 <= i < |rest| ==> labels[i + 1] == rest[i];
    assert IsLabel(sub) <==> |sub| <= 63;
  }
}
