/** Reference readings of the rules for names: what `slugify` and `sanitizeName` make of a text, and
    which hosts and domains are accepted. */
module NameLaws {
  import opened Rules
  import opened Text

  // Words.

  /** The maximal runs of kept characters. */
  function Words(s: string, keep: char -> bool): (r: seq<string>)
    ensures s != "" && keep(s[0]) ==> r != []
    ensures forall i :: 0 <= i < |r| ==> r[i] != "" && All(r[i], keep)
  {
    if s == "" then []
    else
      var rest := Words(s[1..], keep);
      if !keep(s[0]) then rest
      else if |s| > 1 && keep(s[1]) then [[s[0]] + rest[0]] + rest[1..]
      else [[s[0]]] + rest
  }

  /** The words with one hyphen between neighbours. */
  function Hyphenated(words: seq<string>): string { if words == [] then "" else Join(words, '-') }

  lemma {:induction false} WordsSkip(s: string, keep: char -> bool)
    ensures Words(SkipRun(s, keep), keep) == Words(s, keep)
    ensures SkipRun(s, keep) != "" ==> s != "" && SkipRun(s, keep)[|SkipRun(s, keep)| - 1] == s[|s| - 1]
    ensures SkipRun(s, keep) == "" && s != "" ==> !keep(s[|s| - 1])
  {
    if s != "" && !keep(s[0]) { WordsSkip(s[1..], keep); }
  }

  /** The hyphen that a run at the end leaves. */
  function Tail(s: string, keep: char -> bool): string { if s != "" && !keep(s[|s| - 1]) then "-" else "" }

  lemma JoinCons(w: string, words: seq<string>)
    ensures Hyphenated([w] + words) == if words == [] then w else w + "-" + Hyphenated(words)
  {
    assert ([w] + words)[1..] == words;
  }

  lemma JoinGrow(c: char, words: seq<string>)
    requires words != []
    ensures Hyphenated([[c] + words[0]] + words[1..]) == [c] + Hyphenated(words)
  {
    var grown := [[c] + words[0]] + words[1..];
    assert grown[1..] == words[1..];
    if |words| > 1 {
      var rest := ['-'] + Join(words[1..], '-');
      assert [c] + words[0] + ['-'] + Join(words[1..], '-') == [c] + (words[0] + rest);
      assert words[0] + ['-'] + Join(words[1..], '-') == words[0] + rest;
    }
  }

  lemma GrowText(c: char, words: seq<string>, tail: string)
    requires words != []
    ensures [c] + (Hyphenated(words) + tail) == Hyphenated([[c] + words[0]] + words[1..]) + tail
  {
    JoinGrow(c, words);
    ConcatAssociative([c], Hyphenated(words), tail);
  }

  /** A kept character before another one belongs to its word. */
  lemma GrowParts(s: string, keep: char -> bool)
    requires |s| > 1 && keep(s[0]) && keep(s[1])
    ensures var rest := s[1..];
      && Words(rest, keep) != []
      && Collapse(s, keep) == [s[0]] + Collapse(rest, keep)
      && Words(s, keep) == [[s[0]] + Words(rest, keep)[0]] + Words(rest, keep)[1..]
      && Tail(s, keep) == Tail(rest, keep)
  {
  }

  /** Collapsing a text that starts with a kept character. */
  lemma {:induction false} CollapseWords(s: string, keep: char -> bool)
    requires s == "" || keep(s[0])
    ensures Collapse(s, keep) == Hyphenated(Words(s, keep)) + Tail(s, keep)
    decreases |s|
  {
    if |s| > 0 {
      var rest := s[1..];
      if rest == "" {
        assert Words(rest, keep) == [];
      } else if keep(rest[0]) {
        CollapseWords(rest, keep);
        GrowParts(s, keep);
        GrowText(s[0], Words(rest, keep), Tail(rest, keep));
      } else {
        CollapseBreak(s, keep);
      }
    }
  }

  /** Where the first word is one character and a run follows: what comes after the run. */
  lemma BreakParts(s: string, keep: char -> bool) returns (t: string)
    requires |s| > 1 && keep(s[0]) && !keep(s[1])
    ensures |t| < |s| - 1 && (t == "" || keep(t[0]))
    ensures Collapse(s, keep) == [s[0]] + ("-" + Collapse(t, keep))
    ensures Words(s, keep) == [[s[0]]] + Words(t, keep)
    ensures Tail(s, keep) == if t == "" then "-" else Tail(t, keep)
  {
    var after := s[1..][1..];
    t := SkipRun(after, keep);
    WordsSkip(after, keep);
    assert Words(s[1..], keep) == Words(t, keep);
    if after != "" { assert after[|after| - 1] == s[|s| - 1]; }
  }

  lemma {:induction false} CollapseBreak(s: string, keep: char -> bool)
    requires |s| > 1 && keep(s[0]) && !keep(s[1])
    ensures Collapse(s, keep) == Hyphenated(Words(s, keep)) + Tail(s, keep)
    decreases |s|, 0
  {
    var t := BreakParts(s, keep);
    CollapseWords(t, keep);
    BreakText([s[0]], Words(t, keep), Tail(t, keep));
  }

  /** A word, a hyphen, and the other words. */
  lemma BreakText(w: string, words: seq<string>, tail: string)
    ensures words != [] ==> w + ("-" + (Hyphenated(words) + tail)) == Hyphenated([w] + words) + tail
    ensures words == [] ==> w + ("-" + (Hyphenated(words) + "")) == Hyphenated([w] + words) + "-"
  {
    JoinCons(w, words);
    if words != [] {
      ConcatAssociative("-", Hyphenated(words), tail);
      ConcatAssociative(w, "-" + Hyphenated(words), tail);
      ConcatAssociative(w, "-", Hyphenated(words));
    } else {
      assert "" + "" == "" && "-" + "" == "-";
    }
  }

  lemma {:induction false} HyphenatedEdges(words: seq<string>, keep: char -> bool)
    requires words != [] && forall i :: 0 <= i < |words| ==> words[i] != "" && All(words[i], keep)
    ensures var h := Hyphenated(words); h != "" && keep(h[0]) && keep(h[|h| - 1])
  {
    if |words| > 1 { HyphenatedEdges(words[1..], keep); }
  }

  /** A hyphen at either end, and nothing else, is cut off. */
  lemma TrimEnds(lead: string, h: string, tail: string)
    requires lead in {"", "-"} && tail in {"", "-"}
    requires h != "" ==> h[0] != '-' && h[|h| - 1] != '-'
    ensures Trim(lead + (h + tail), IsHyphen) == h
  {
    TrimTail(h, tail);
    TrimLead(lead, h + tail);
  }

  lemma TrimLead(lead: string, s: string)
    requires lead in {"", "-"}
    ensures Trim(lead + s, IsHyphen) == Trim(s, IsHyphen)
  {
    if lead == "-" { TrimCut('-', s, IsHyphen); } else { assert lead + s == s; }
  }

  lemma TrimTail(h: string, tail: string)
    requires tail in {"", "-"} && (h != "" ==> h[0] != '-' && h[|h| - 1] != '-')
    ensures Trim(h + tail, IsHyphen) == h
  {
    if h == "" {
      assert h + tail == tail;
      if tail == "-" { assert tail[1..] == ""; }
    } else {
      assert TrimLeft(h + tail, IsHyphen) == h + tail;
      if tail == "-" { assert (h + tail)[..|h|] == h; } else { assert h + tail == h; }
    }
  }

  /** A text that starts with a kept character, after at most one hyphen. */
  lemma TrimmedFrom(lead: string, s: string, keep: char -> bool)
    requires !keep('-') && lead in {"", "-"} && (s == "" || keep(s[0]))
    ensures Trim(lead + Collapse(s, keep), IsHyphen) == Hyphenated(Words(s, keep))
  {
    var h := Hyphenated(Words(s, keep));
    WordEdges(s, keep);
    CollapseWords(s, keep);
    TrimEnds(lead, h, Tail(s, keep));
  }

  lemma WordEdges(s: string, keep: char -> bool)
    requires !keep('-')
    ensures var h := Hyphenated(Words(s, keep)); h != "" ==> h[0] != '-' && h[|h| - 1] != '-'
  {
    if Words(s, keep) != [] { HyphenatedEdges(Words(s, keep), keep); }
  }

  lemma TrimmedWords(s: string, keep: char -> bool)
    requires !keep('-')
    ensures Trim(Collapse(s, keep), IsHyphen) == Hyphenated(Words(s, keep))
  {
    if s == "" || keep(s[0]) {
      TrimmedFrom("", s, keep);
      assert "" + Collapse(s, keep) == Collapse(s, keep);
    } else {
      WordsSkip(s[1..], keep);
      TrimmedFrom("-", SkipRun(s[1..], keep), keep);
    }
  }

  lemma {:induction false} WordsDropFront(a: string, s: string, keep: char -> bool)
    requires forall i :: 0 <= i < |a| ==> !keep(a[i])
    ensures Words(a + s, keep) == Words(s, keep)
  {
    if a == "" {
      assert a + s == s;
    } else {
      assert (a + s)[1..] == a[1..] + s;
      WordsDropFront(a[1..], s, keep);
    }
  }

  lemma {:induction false} WordsDropBack(s: string, b: string, keep: char -> bool)
    requires forall i :: 0 <= i < |b| ==> !keep(b[i])
    ensures Words(s + b, keep) == Words(s, keep)
  {
    if s == "" {
      WordsDropFront(b, "", keep);
      assert s + b == b + "";
    } else {
      assert (s + b)[1..] == s[1..] + b;
      WordsDropBack(s[1..], b, keep);
      if |s| > 1 { assert (s + b)[1] == s[1]; }
    }
  }

  lemma SpacesLowered(a: string)
    requires All(a, IsSpace)
    ensures forall i :: 0 <= i < |ToLower(a)| ==> !IsSlugChar(ToLower(a)[i])
  {
    forall i | 0 <= i < |a| ensures !IsSlugChar(ToLower(a)[i]) { assert IsSpace(a[i]); }
  }

  /** What `slugify` is: the words of letters and digits of the lower-cased text, with one hyphen
      between neighbours, whatever stood between, before or after them. */
  lemma SlugifyWords(name: string)
    ensures Slugify(name) == Hyphenated(Words(ToLower(name), IsSlugChar))
  {
    var a, b := TrimParts(name, IsSpace);
    var t := TrimSpace(name);
    TrimmedWords(ToLower(t), IsSlugChar);
    SpacesLowered(a);
    SpacesLowered(b);
    ToLowerConcat(a, t + b);
    ToLowerConcat(t, b);
    WordsDropFront(ToLower(a), ToLower(t) + ToLower(b), IsSlugChar);
    WordsDropBack(ToLower(t), ToLower(b), IsSlugChar);
  }

  /** Lower-casing moves the 26 capitals down by 32 places and leaves digits and small letters; what
      becomes a letter or digit of a slug was one before, or one of two foreign signs. */
  lemma LowerLetters(c: char)
    ensures 'A' <= c <= 'Z' ==> LowerChar(c) as int == c as int + 32
    ensures IsSlugChar(c) ==> LowerChar(c) == c
    ensures IsSlugChar(LowerChar(c)) <==> IsAlnum(c) || c == '\U{212A}' || c == '\U{0130}'
  {
  }

  // Sanitised names.

  lemma {:induction false} CollapseKept(a: string, x: string, keep: char -> bool)
    requires All(a, keep)
    ensures Collapse(a + x, keep) == a + Collapse(x, keep)
  {
    if a == "" {
      assert a + x == x;
    } else {
      assert (a + x)[1..] == a[1..] + x && All(a[1..], keep);
      CollapseKept(a[1..], x, keep);
    }
  }

  lemma {:induction false} SkipRunOf(sep: string, b: string, keep: char -> bool)
    requires (forall i :: 0 <= i < |sep| ==> !keep(sep[i])) && (b == "" || keep(b[0]))
    ensures SkipRun(sep + b, keep) == b
  {
    if sep == "" {
      assert sep + b == b;
    } else {
      assert (sep + b)[1..] == sep[1..] + b;
      SkipRunOf(sep[1..], b, keep);
    }
  }

  lemma CollapseJoins(a: string, sep: string, b: string, keep: char -> bool)
    requires All(a, keep) && All(b, keep) && sep != "" && forall i :: 0 <= i < |sep| ==> !keep(sep[i])
    ensures Collapse(a + (sep + b), keep) == a + ("-" + b)
  {
    CollapseKept(a, sep + b, keep);
    assert (sep + b)[1..] == sep[1..] + b;
    SkipRunOf(sep[1..], b, keep);
    CollapseFixed(b, keep);
  }

  lemma EdgesKept(a: string, m: string, b: string, cut: char -> bool)
    requires a != "" && b != "" && !cut(a[0]) && !cut(b[|b| - 1])
    ensures Trim(a + (m + b), cut) == a + (m + b)
  {
    var s := a + (m + b);
    assert s[0] == a[0] && s[|s| - 1] == b[|b| - 1];
    TrimFixed(s, cut);
  }

  /** What `sanitizeName` does inside a name: a run of characters that are not allowed, however long,
      becomes one hyphen, and what stands around it stays. */
  lemma SanitizeJoins(a: string, sep: string, b: string)
    requires NameRe(a) && a[0] != '-' && NameRe(b) && b[|b| - 1] != '-'
    requires sep != "" && forall i :: 0 <= i < |sep| ==> !IsNameChar(sep[i])
    ensures SanitizeName(a + (sep + b)) == a + ("-" + b)
  {
    var s, t := a + (sep + b), a + ("-" + b);
    NameSpaces(a, sep, b);
    CollapseJoins(a, sep, b, IsNameChar);
    EdgesKept(a, "-", b, IsHyphen);
    SanitizeSteps(s, t);
  }

  lemma NameSpaces(a: string, sep: string, b: string)
    requires NameRe(a) && NameRe(b)
    ensures TrimSpace(a + (sep + b)) == a + (sep + b)
  {
    assert IsNameChar(a[0]) && IsNameChar(b[|b| - 1]);
    EdgesKept(a, sep, b, IsSpace);
  }

  lemma SanitizeSteps(s: string, t: string)
    requires TrimSpace(s) == s && Collapse(s, IsNameChar) == t && Trim(t, IsHyphen) == t
    ensures SanitizeName(s) == t
  {
  }

  // Hosts and domains.

  /** A label is a tunnel name without underscores and without a hyphen at an end, of at most 63
      characters. */
  lemma LabelIsName(l: string)
    ensures IsLabel(l) <==> NameRe(l) && '_' !in l && |l| <= 63 && l[0] != '-' && l[|l| - 1] != '-'
  {
    if NameRe(l) && '_' !in l {
      forall i | 0 <= i < |l| ensures IsLabelChar(l[i]) { assert IsNameChar(l[i]) && l[i] in l; }
      assert IsLabelChar(l[0]) && IsLabelChar(l[|l| - 1]);
    }
    if IsLabel(l) {
      forall i | 0 <= i < |l| ensures IsNameChar(l[i]) && l[i] != '_' { assert IsLabelChar(l[i]); }
    }
  }

  predicate Dotted(labels: seq<string>, h: string) { labels != [] && AreLabels(labels) && Join(labels, '.') == h }

  /** Exactly which hosts are accepted: without blanks around them an IP address, or labels joined by dots. */
  lemma HostAccepted(ip: string -> bool, host: string)
    ensures ValidHost(ip, host) <==>
            TrimSpace(host) != "" && (ip(TrimSpace(host)) || exists labels :: Dotted(labels, TrimSpace(host)))
  {
    var h := TrimSpace(host);
    HostnameGrammar(h);
    if labels: seq<string> :| labels != [] && AreLabels(labels) && Join(labels, '.') == h { assert Dotted(labels, h); }
  }

  /** Exactly which domains are: at least two labels joined by dots. */
  lemma DomainAccepted(domain: string)
    ensures ValidDomain(domain) <==> exists labels :: Dotted(labels, TrimSpace(domain)) && |labels| >= 2
  {
    var d := TrimSpace(domain);
    HostnameGrammar(d);
    JoinSplit(d, '.');
    if HostnameRe(d) {
      assert AreLabels(Split(d, '.')) && Dotted(Split(d, '.'), d);
      if '.' in d { DotSplits(d); } else { SplitNone(d, '.'); }
    }
    if labels :| Dotted(labels, d) && |labels| >= 2 { JoinHasDot(labels); }
  }

  lemma {:induction false} DotSplits(d: string)
    requires '.' in d
    ensures |Split(d, '.')| >= 2
  {
    if d[0] != '.' { DotSplits(d[1..]); }
  }

  lemma JoinHasDot(labels: seq<string>)
    requires |labels| >= 2
    ensures '.' in Join(labels, '.')
  {
    assert Join(labels, '.')[|labels[0]|] == '.';
  }
}
