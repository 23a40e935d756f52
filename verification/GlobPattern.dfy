/** The path detector's wildcard patterns, which are compiled to regular expressions by
    rewriting their text.

    `MatchesPattern` follows the source: quote the metacharacters, replace the quoted star,
    anchor, hand the text to the regular-expression engine. `Glob` says directly what a
    pattern is for. `GlobCompilation` proves that they agree. */
module GlobPattern {
  import opened Options
  import opened GoStrings
  import opened Utf8

  // ---------------------------------------------------------------- compilation

  /** The bytes that regexp.QuoteMeta escapes. */
  predicate IsMeta(c: char) { c in "\\.+*?()|[]{}^$" }

  /** regexp.QuoteMeta. */
  function QuoteMeta(s: GoString): GoString {
    if s == "" then ""
    else (if IsMeta(s[0]) then ['\\', s[0]] else [s[0]]) + QuoteMeta(s[1..])
  }

  /** The text handed to the regular-expression engine for `pattern`. */
  function Compiled(pattern: GoString): GoString {
    "^" + ReplaceAll(QuoteMeta(pattern), "\\*", ".*") + "$"
  }

  // ---------------------------------------------------------------- regular expressions

  datatype Atom = Lit(c: char) | AnyExceptNewline
  {
    predicate Admits(r: char) { if Lit? then r == c else r != '\n' }
  }

  datatype Item = Once(atom: Atom) | Star(atom: Atom) | BeginText | EndText

  /** Characters that may stand for something other than themselves; a closing bracket or brace does
      not, unless something opened it. */
  predicate IsOperator(c: char) { c in "*+?()|[{" }

  predicate IsAlnum(c: char) {
    '0' <= c <= '9' || 'a' <= c <= 'z' || 'A' <= c <= 'Z'
  }

  /** The atom at the front of `r` and the number of characters that spell it. */
  function ParseAtom(r: string): (a: Option<(Atom, nat)>)
    ensures a.Some? ==> 1 <= a.value.1 <= |r|
  {
    if r == "" then None
    else if r[0] == '\\' then
      if |r| >= 2 && Ascii(r[1]) && !IsAlnum(r[1]) then Some((Lit(r[1]), 2)) else None
    else if r[0] == '.' then Some((AnyExceptNewline, 1))
    else if IsOperator(r[0]) then None
    else Some((Lit(r[0]), 1))
  }

  /** Parser for literals, escaped punctuation, `.`, postfix `*` and the two text anchors.
      None stands for a syntax error or for an operator outside this fragment. */
  function Parse(r: string): Option<seq<Item>> {
    if r == "" then Some([])
    else if r[0] == '^' || r[0] == '$' then
      var rest := Parse(r[1..]);
      if rest.None? then None else Some([if r[0] == '^' then BeginText else EndText] + rest.value)
    else
      var a := ParseAtom(r);
      if a.None? then None else
        var (atom, n) := a.value;
        var starred := n < |r| && r[n] == '*';
        var rest := Parse(r[if starred then n + 1 else n..]);
        if rest.None? then None else Some([if starred then Star(atom) else Once(atom)] + rest.value)
  }

  /** `a` admits every rune from position `i` up to position `k`. */
  predicate Repeats(a: Atom, text: string, i: nat, k: nat)
    requires k <= |text|
  {
    forall m :: i <= m < k ==> a.Admits(text[m])
  }

  /** `items` match the stretch of `text` from position `i` to position `j`. */
  predicate MatchAt(items: seq<Item>, text: string, i: nat, j: nat)
    requires i <= |text|
    decreases |items|
  {
    if items == [] then i == j else
      match items[0]
      case BeginText => i == 0 && MatchAt(items[1..], text, i, j)
      case EndText => i == |text| && MatchAt(items[1..], text, i, j)
      case Once(a) => i < |text| && a.Admits(text[i]) && MatchAt(items[1..], text, i + 1, j)
      case Star(a) =>
        exists k :: i <= k <= |text| && Repeats(a, text, i, k) && MatchAt(items[1..], text, k, j)
  }

  /** regexp.MatchString with its error ignored: a search for a match anywhere in `text`. */
  predicate MatchString(regex: GoString, text: GoString) {
    && Valid(regex)
    && Parse(Runes(regex)).Some?
    && exists i, j :: 0 <= i <= |Runes(text)| && 0 <= j <= |Runes(text)|
                      && MatchAt(Parse(Runes(regex)).value, Runes(text), i, j)
  }

  /** PathDetector.matchesPattern. */
  predicate MatchesPattern(path: GoString, pattern: GoString) {
    MatchString(Compiled(pattern), path)
  }

  // ---------------------------------------------------------------- meaning of a glob

  /** Each `*` stands for a run of characters without newline, every other character for itself. */
  predicate Glob(pattern: string, text: string)
    decreases |pattern|
  {
    if pattern == "" then text == ""
    else if pattern[0] == '*' then
      exists k :: 0 <= k <= |text| && '\n' !in text[..k] && Glob(pattern[1..], text[k..])
    else text != "" && text[0] == pattern[0] && Glob(pattern[1..], text[1..])
  }

  // ---------------------------------------------------------------- compilation, in one pass

  /** What quoting and replacing amount to: one independent step per character. */
  function Translate(s: string): string {
    if s == "" then ""
    else (if s[0] == '*' then ".*" else if IsMeta(s[0]) then ['\\', s[0]] else [s[0]]) + Translate(s[1..])
  }

  lemma StartsWithStarPair(r: GoString)
    ensures "\\*" <= r <==> |r| >= 2 && r[0] == '\\' && r[1] == '*'
  {
    if |r| >= 2 && r[0] == '\\' && r[1] == '*' {
      assert r[..2] == "\\*";
    }
  }

  /** A character with no star behind it stays. */
  lemma ReplaceKeeps(c: char, q: GoString)
    requires q == "" || c != '\\' || q[0] != '*'
    ensures ReplaceAll([c] + q, "\\*", ".*") == [c] + ReplaceAll(q, "\\*", ".*")
  {
    hide *;
    var r := [c] + q;
    assert r[0] == c && r[1..] == q && (q != "" ==> r[1] == q[0]);
    StartsWithStarPair(r);
    ReplaceAllStep(r, "\\*", ".*");
  }

  lemma ReplacePair(q: GoString)
    ensures ReplaceAll("\\*" + q, "\\*", ".*") == ".*" + ReplaceAll(q, "\\*", ".*")
  {
    hide *;
    var r := "\\*" + q;
    assert r[0] == '\\' && r[1] == '*' && r[2..] == q;
    StartsWithStarPair(r);
    ReplaceAllStep(r, "\\*", ".*");
  }

  /** One quoted character in front of a text that does not start with a star. */
  lemma ReplaceQuoted(c: char, q: GoString)
    requires q == "" || q[0] != '*'
    ensures ReplaceAll((if IsMeta(c) then ['\\', c] else [c]) + q, "\\*", ".*")
            == (if c == '*' then ".*" else if IsMeta(c) then ['\\', c] else [c]) + ReplaceAll(q, "\\*", ".*")
  {
    hide *;
    MetaStar();
    if c == '*' {
      assert ['\\', c] + q == "\\*" + q;
      ReplacePair(q);
    } else {
      ReplaceKeeps(c, q);
      ReplaceKeeps('\\', [c] + q);
      assert ['\\', c] + q == ['\\'] + ([c] + q);
      var u := ReplaceAll(q, "\\*", ".*");
      assert ['\\', c] + u == ['\\'] + ([c] + u);
    }
  }

  lemma MetaStar()
    ensures IsMeta('*') && IsMeta('\\')
  {
  }

  lemma QuoteNoStar(s: GoString)
    ensures QuoteMeta(s) == "" || QuoteMeta(s)[0] != '*'
  {
  }

  /** `\*` in quoted text is always a whole escape pair: literal backslashes never misalign it. */
  lemma {:induction false} ReplaceAligned(s: GoString)
    ensures ReplaceAll(QuoteMeta(s), "\\*", ".*") == Translate(s)
  {
    if s != "" {
      ReplaceAligned(s[1..]);
      QuoteNoStar(s[1..]);
      hide ReplaceAll, IsMeta;
      ReplaceQuoted(s[0], QuoteMeta(s[1..]));
    } else {
      assert ReplaceAll("", "\\*", ".*") == "";
    }
  }

  lemma TranslateCons(c: char, s: string)
    ensures Translate([c] + s) == Translate([c]) + Translate(s)
    ensures Translate([c]) == if c == '*' then ".*" else if IsMeta(c) then ['\\', c] else [c]
  {
    assert ([c] + s)[1..] == s;
  }

  // ---------------------------------------------------------------- bytes and runes

  lemma TranslateHighByte(c: char)
    requires !Ascii(c)
    ensures Translate([c]) == [c]
  {
    TranslateCons(c, "");
  }

  lemma {:induction false} TranslateHigh(s: GoString, i: nat)
    requires i <= |s|
    requires forall k :: 0 <= k < i ==> !Ascii(s[k])
    ensures Translate(s) == s[..i] + Translate(s[i..])
  {
    hide *;
    if i > 0 {
      TranslateHigh(s[1..], i - 1);
      TranslateHighByte(s[0]);
      TranslateCons(s[0], s[1..]);
      assert s == [s[0]] + s[1..];
      assert s[..i] == [s[0]] + s[1..][..i - 1];
      assert s[1..][i - 1..] == s[i..];
    } else {
      assert s[i..] == s;
    }
  }

  /** Where `s` has a byte from 0x80 up so has `t`; where it has not, `t` has an ASCII byte. */
  predicate AgreeAt(s: GoString, t: GoString, i: nat) {
    i < |t| && if i < |s| && !Ascii(s[i]) then t[i] == s[i] else Ascii(t[i])
  }

  /** Byte `i` of the translation, as long as no ASCII byte came before. */
  lemma HighByte(s: GoString, i: nat)
    requires i <= |s|
    requires forall k :: 0 <= k < i ==> !Ascii(s[k])
    ensures AgreeAt(s, Translate(s) + "$", i)
  {
    hide *;
    TranslateHigh(s, i);
    FirstByte(s[i..]);
    var t, u := Translate(s) + "$", Translate(s[i..]) + "$";
    assert t == s[..i] + u;
    AgreeShift(s, t, u, i);
  }

  lemma AgreeShift(s: GoString, t: GoString, u: GoString, i: nat)
    requires i <= |s| && t == s[..i] + u && AgreeAt(s[i..], u, 0)
    ensures AgreeAt(s, t, i)
  {
    assert t[i] == u[0];
    assert i < |s| ==> s[i..][0] == s[i];
  }

  lemma FirstByte(s: GoString)
    ensures AgreeAt(s, Translate(s) + "$", 0)
  {
  }

  lemma TailAgrees(s: GoString, t: GoString, i: nat)
    requires AgreeAt(s, t, i)
    ensures Tail(s, i) <==> Tail(t, i)
    ensures Tail(s, i) ==> i < |s| && i < |t| && s[i] == t[i] && !Ascii(s[i])
  {
  }

  lemma TranslateKeepsMultibyte(s: GoString)
    requires s != "" && !Ascii(s[0])
    ensures Multibyte(Translate(s) + "$") <==> Multibyte(s)
  {
    hide *;
    var t := Translate(s) + "$";
    HighByte(s, 0);
    FirstAgrees(s, t);
    HighByte(s, 1);
    TailAgrees(s, t, 1);
    if Tail(s, 1) {
      HighByte(s, 2);
      TailAgrees(s, t, 2);
      if Tail(s, 2) {
        HighByte(s, 3);
        TailAgrees(s, t, 3);
      }
    }
    MultibyteAgree(s, t);
  }

  lemma FirstAgrees(s: GoString, t: GoString)
    requires s != "" && !Ascii(s[0]) && AgreeAt(s, t, 0)
    ensures t != "" && t[0] == s[0]
  {
  }

  lemma RunesAscii(c: char, u: GoString)
    requires Ascii(c)
    ensures Runes([c] + u) == [c] + Runes(u)
    ensures Valid([c] + u) <==> Valid(u)
  {
    assert ([c] + u)[1..] == u;
  }

  lemma StepAscii(c: char)
    requires Ascii(c)
    ensures Translate([c]) == [c]
            || (|Translate([c])| == 2 && Ascii(Translate([c])[0]) && Ascii(Translate([c])[1]))
  {
    TranslateCons(c, "");
  }

  lemma RunesOfStep(c: char, u: GoString)
    requires Ascii(c)
    ensures Runes(Translate([c]) + u) == Translate([c]) + Runes(u)
    ensures Valid(Translate([c]) + u) <==> Valid(u)
  {
    hide *;
    var step := Translate([c]);
    assert step == [c] || (|step| == 2 && Ascii(step[0]) && Ascii(step[1])) by { StepAscii(c); }
    if |step| == 2 {
      RunesAscii(step[1], u);
      RunesAscii(step[0], [step[1]] + u);
      assert step + u == [step[0]] + ([step[1]] + u);
      assert step + Runes(u) == [step[0]] + ([step[1]] + Runes(u));
    } else {
      RunesAscii(c, u);
    }
  }

  /** One more ASCII byte in front, given the result for the rest. */
  lemma TranslateRunesAscii(c: char, s: GoString)
    requires Ascii(c)
    requires Valid(Translate(s) + "$") <==> Valid(s)
    requires Valid(s) ==> Runes(Translate(s) + "$") == Translate(Runes(s)) + "$"
    ensures Valid(Translate([c] + s) + "$") <==> Valid([c] + s)
    ensures Valid([c] + s) ==> Runes(Translate([c] + s) + "$") == Translate(Runes([c] + s)) + "$"
  {
    hide *;
    var u, step := Translate(s) + "$", Translate([c]);
    assert Translate([c] + s) + "$" == step + u by { TranslateCons(c, s); }
    RunesOfStep(c, u);
    RunesAscii(c, s);
    if Valid(s) {
      var v := Translate(Runes(s));
      assert Translate(Runes([c] + s)) == step + v by { TranslateCons(c, Runes(s)); }
      assert (step + v) + "$" == step + (v + "$");
    }
  }

  /** One more multibyte rune in front, given the result for the rest. */
  lemma TranslateRunesMultibyte(s: GoString)
    requires s != "" && Multibyte(s)
    requires var r := s[DecodeRune(s).width..];
             && (Valid(Translate(r) + "$") <==> Valid(r))
             && (Valid(r) ==> Runes(Translate(r) + "$") == Translate(Runes(r)) + "$")
    ensures Valid(Translate(s) + "$") <==> Valid(s)
    ensures Valid(s) ==> Runes(Translate(s) + "$") == Translate(Runes(s)) + "$"
  {
    hide *;
    var d := DecodeRune(s);
    var r := s[d.width..];
    var t, u := Translate(s) + "$", Translate(r) + "$";
    assert forall k :: 0 <= k < d.width ==> !Ascii(s[k]) by { HighBytes(s); }
    TranslateHigh(s, d.width);
    assert t == s[..d.width] + u;
    DecodePrefix(s, u);
    assert t[d.width..] == u;
    RunesUnfold(s);
    RunesUnfold(t);
    if Valid(s) {
      HighBytes(s);
      TranslateHighByte(d.rune);
      TranslateCons(d.rune, Runes(r));
      assert [d.rune] + (Translate(Runes(r)) + "$") == ([d.rune] + Translate(Runes(r))) + "$";
    }
  }

  lemma HighBytes(s: GoString)
    requires s != "" && Multibyte(s)
    ensures !Ascii(DecodeRune(s).rune) && DecodeRune(s).width > 1
    ensures forall k :: 0 <= k < DecodeRune(s).width ==> !Ascii(s[k])
  {
  }

  /** Rewriting bytes and rewriting runes commute, and neither repairs invalid UTF-8. */
  lemma {:induction false} TranslateRunes(s: GoString)
    ensures Valid(Translate(s) + "$") <==> Valid(s)
    ensures Valid(s) ==> Runes(Translate(s) + "$") == Translate(Runes(s)) + "$"
  {
    if s == "" {
      assert (Translate(s) + "$")[1..] == "";
    } else if Ascii(s[0]) {
      TranslateRunes(s[1..]);
      TranslateRunesAscii(s[0], s[1..]);
      assert s == [s[0]] + s[1..];
    } else if Multibyte(s) {
      TranslateRunes(s[DecodeRune(s).width..]);
      TranslateRunesMultibyte(s);
    } else {
      TranslateKeepsMultibyte(s);
      FirstByte(s);
    }
  }

  // ---------------------------------------------------------------- parsing the compiled text

  function Items(p: string): seq<Item> {
    if p == "" then [EndText]
    else [if p[0] == '*' then Star(AnyExceptNewline) else Once(Lit(p[0]))] + Items(p[1..])
  }

  lemma {:induction false} ParseTranslated(p: string)
    ensures Parse(Translate(p) + "$") == Some(Items(p))
  {
    if p == "" {
      assert Translate(p) + "$" == "$" && "$"[1..] == "";
      assert Parse("") == Some([]);
      assert Parse("$").value == [EndText];
    } else {
      ParseTranslated(p[1..]);
      var u := Translate(p[1..]) + "$";
      var step := Translate([p[0]]);
      TranslateCons(p[0], p[1..]);
      assert p == [p[0]] + p[1..];
      assert Translate(p) + "$" == step + u;
      ParseStep(p[0], u);
    }
  }

  lemma ParseEscaped(c: char, u: string)
    requires IsMeta(c) && u != "" && u[0] != '*' && Parse(u).Some?
    ensures Parse(['\\', c] + u) == Some([Once(Lit(c))] + Parse(u).value)
  {
    var r := ['\\', c] + u;
    assert r[0] == '\\' && r[1] == c && r[2] == u[0] && r[2..] == u;
    assert ParseAtom(r) == Some((Lit(c), 2));
  }

  lemma ParsePlain(c: char, u: string)
    requires !IsMeta(c) && u != "" && u[0] != '*' && Parse(u).Some?
    ensures Parse([c] + u) == Some([Once(Lit(c))] + Parse(u).value)
  {
    var r := [c] + u;
    assert r[0] == c && r[1] == u[0] && r[1..] == u;
    assert ParseAtom(r) == Some((Lit(c), 1));
  }

  lemma ParseStep(c: char, u: string)
    requires u != "" && u[0] != '*' && Parse(u).Some?
    ensures Parse(Translate([c]) + u)
            == Some([if c == '*' then Star(AnyExceptNewline) else Once(Lit(c))] + Parse(u).value)
  {
    TranslateCons(c, "");
    if c == '*' {
      var r := ".*" + u;
      assert r[0] == '.' && r[1] == '*' && r[2..] == u;
    } else {
      hide Parse;
      if IsMeta(c) { ParseEscaped(c, u); } else { ParsePlain(c, u); }
    }
  }

  lemma StarToGlob(p: string, text: string, i: nat, k: nat)
    requires i <= k <= |text| && p != "" && p[0] == '*'
    requires Repeats(AnyExceptNewline, text, i, k) && Glob(p[1..], text[k..])
    ensures Glob(p, text[i..])
  {
    var t := text[i..];
    assert t[k - i..] == text[k..];
    assert '\n' !in t[..k - i];
  }

  lemma GlobToStar(p: string, text: string, i: nat) returns (k: nat)
    requires i <= |text| && p != "" && p[0] == '*' && Glob(p, text[i..])
    ensures i <= k <= |text| && Repeats(AnyExceptNewline, text, i, k) && Glob(p[1..], text[k..])
  {
    var t := text[i..];
    var n: nat :| 0 <= n <= |t| && '\n' !in t[..n] && Glob(p[1..], t[n..]);
    k := i + n;
    assert t[n..] == text[k..];
    forall m | i <= m < k ensures AnyExceptNewline.Admits(text[m]) {
      assert text[m] == t[..n][m - i];
    }
  }

  lemma StarMatchesGlob(p: string, text: string, i: nat)
    requires i <= |text| && p != "" && p[0] == '*'
    requires forall k: nat :: i <= k <= |text| ==>
               (MatchAt(Items(p[1..]), text, k, |text|) <==> Glob(p[1..], text[k..]))
    ensures MatchAt(Items(p), text, i, |text|) <==> Glob(p, text[i..])
  {
    hide Glob, Repeats;
    var items := Items(p);
    assert items[0] == Star(AnyExceptNewline) && items[1..] == Items(p[1..]);
    if MatchAt(items, text, i, |text|) {
      var k: nat :| i <= k <= |text| && Repeats(AnyExceptNewline, text, i, k)
               && MatchAt(items[1..], text, k, |text|);
      StarToGlob(p, text, i, k);
    }
    if Glob(p, text[i..]) {
      var k := GlobToStar(p, text, i);
      assert MatchAt(items[1..], text, k, |text|);
    }
  }

  lemma OnceMatchesGlob(p: string, text: string, i: nat)
    requires i <= |text| && p != "" && p[0] != '*'
    requires i < |text| ==>
               (MatchAt(Items(p[1..]), text, i + 1, |text|) <==> Glob(p[1..], text[i + 1..]))
    ensures MatchAt(Items(p), text, i, |text|) <==> Glob(p, text[i..])
  {
    assert Items(p)[1..] == Items(p[1..]);
    if i < |text| {
      assert text[i..][1..] == text[i + 1..];
    }
  }

  /** Anchored at its end, the parsed pattern matches from position `i` exactly as the glob does. */
  lemma {:induction false} ItemsMatchGlob(p: string, text: string, i: nat)
    requires i <= |text|
    ensures MatchAt(Items(p), text, i, |text|) <==> Glob(p, text[i..])
    decreases |p|
  {
    if p == "" {
      assert Items(p)[1..] == [];
    } else {
      hide *;
      forall k: nat | i <= k <= |text|
        ensures MatchAt(Items(p[1..]), text, k, |text|) <==> Glob(p[1..], text[k..])
      {
        ItemsMatchGlob(p[1..], text, k);
      }
      if p[0] == '*' {
        StarMatchesGlob(p, text, i);
      } else {
        OnceMatchesGlob(p, text, i);
      }
    }
  }

  lemma {:induction false} ItemsEndAtEnd(p: string, text: string, i: nat, j: nat)
    requires i <= |text| && MatchAt(Items(p), text, i, j)
    ensures j == |text|
    decreases |p|
  {
    var items := Items(p);
    if p == "" {
      assert items[1..] == [];
    } else {
      assert items[1..] == Items(p[1..]);
      if p[0] == '*' {
        var k :| i <= k <= |text| && MatchAt(items[1..], text, k, j);
        ItemsEndAtEnd(p[1..], text, k, j);
      } else {
        ItemsEndAtEnd(p[1..], text, i + 1, j);
      }
    }
  }

  // ---------------------------------------------------------------- main results

  lemma CompiledText(pattern: GoString)
    ensures Valid(Compiled(pattern)) <==> Valid(pattern)
    ensures Valid(pattern) ==> Parse(Runes(Compiled(pattern))) == Some([BeginText] + Items(Runes(pattern)))
  {
    ReplaceAligned(pattern);
    var t := Translate(pattern) + "$";
    assert Compiled(pattern) == "^" + t;
    assert Compiled(pattern)[1..] == t;
    TranslateRunes(pattern);
    if Valid(pattern) {
      ParseTranslated(Runes(pattern));
      assert Runes(Compiled(pattern)) == "^" + Runes(t);
      assert Runes(Compiled(pattern))[1..] == Runes(t);
    }
  }

  /** Compiling a pattern to a regular expression preserves its meaning, for every pattern
      and every path. A pattern that is not UTF-8 does not compile and matches nothing. */
  lemma GlobCompilation(path: GoString, pattern: GoString)
    ensures MatchesPattern(path, pattern) <==> Valid(pattern) && Glob(Runes(pattern), Runes(path))
  {
    CompiledText(pattern);
    if Valid(pattern) {
      var text, p := Runes(path), Runes(pattern);
      var items := [BeginText] + Items(p);
      assert items[1..] == Items(p);
      ItemsMatchGlob(p, text, 0);
      assert text[0..] == text;
      if MatchesPattern(path, pattern) {
        var i, j :| 0 <= i <= |text| && 0 <= j <= |text| && MatchAt(items, text, i, j);
        ItemsEndAtEnd(p, text, i, j);
      }
      if Glob(p, text) {
        assert MatchAt(items, text, 0, |text|);
      }
    }
  }

  /** In terms of texts: on UTF-8 encodings, matching is the glob relation. */
  lemma GlobOnTexts(path: string, pattern: string)
    ensures MatchesPattern(EncodeText(path), EncodeText(pattern)) <==> Glob(pattern, path)
  {
    hide *;
    RunesOfText(path);
    RunesOfText(pattern);
    GlobCompilation(EncodeText(path), EncodeText(pattern));
  }

  lemma {:induction false} GlobReflexive(p: string)
    ensures Glob(p, p)
  {
    if p != "" {
      GlobReflexive(p[1..]);
      if p[0] == '*' {
        assert '\n' !in p[..1];
      }
    }
  }

  /** A pattern matches the path that is spelled like it exactly when it is valid UTF-8. */
  lemma PatternMatchesItself(pattern: GoString)
    ensures MatchesPattern(pattern, pattern) <==> Valid(pattern)
  {
    GlobCompilation(pattern, pattern);
    GlobReflexive(Runes(pattern));
  }

  /** Such a pattern: one byte that no UTF-8 text contains. It is also the only spelling of a
      path it should match. */
  lemma BrokenPatternFails()
    ensures !MatchesPattern("\U{FF}", "\U{FF}")
  {
    PatternMatchesItself("\U{FF}");
    assert !Multibyte("\U{FF}");
  }

  /** Without a star a pattern denotes a single text. */
  lemma {:induction false} GlobWithoutStar(p: string, text: string)
    requires '*' !in p
    ensures Glob(p, text) <==> p == text
  {
    if p != "" && text != "" && text[0] == p[0] {
      GlobWithoutStar(p[1..], text[1..]);
      assert p == [p[0]] + p[1..] && text == [text[0]] + text[1..];
    }
  }

  /** Decoding does not bring about a star. */
  lemma {:induction false} NoStarInRunes(s: GoString)
    requires '*' !in s
    ensures '*' !in Runes(s)
  {
    if s != "" {
      NoStarInRunes(s[DecodeRune(s).width..]);
    }
  }

  /** A pattern without a star matches the path spelled like it and no other valid path; on paths
      in broken UTF-8 it cannot tell apart what decodes to the same runes. */
  lemma PlainPattern(path: GoString, pattern: GoString)
    requires '*' !in pattern
    ensures MatchesPattern(path, pattern) <==> Valid(pattern) && Runes(path) == Runes(pattern)
    ensures Valid(path) ==> (MatchesPattern(path, pattern) <==> Valid(pattern) && path == pattern)
  {
    hide *;
    GlobCompilation(path, pattern);
    NoStarInRunes(pattern);
    GlobWithoutStar(Runes(pattern), Runes(path));
    if Valid(path) && Valid(pattern) {
      TextOfRunes(path);
      TextOfRunes(pattern);
    }
  }

  /** `p` matches the first `k` characters and `q` the rest. */
  predicate GlobSplit(p: string, q: string, text: string, k: nat) {
    k <= |text| && Glob(p, text[..k]) && Glob(q, text[k..])
  }

  lemma GlobStarAlone(text: string)
    ensures Glob("*", text) <==> '\n' !in text
  {
    assert "*"[1..] == "";
    assert text[..|text|] == text && text[|text|..] == "";
    assert forall k :: 0 <= k <= |text| && text[k..] == "" ==> k == |text|;
  }

  /** A star by itself matches every path on one line. */
  lemma StarMatchesLines(path: GoString)
    ensures MatchesPattern(path, "*") <==> '\n' !in path
  {
    hide *;
    GlobCompilation(path, "*");
    RunesAscii('*', "");
    RunesEmpty();
    assert ['*'] + "" == "*";
    GlobStarAlone(Runes(path));
    NewlineInRunes(path);
  }

  lemma RunesEmpty()
    ensures Runes("") == "" && Valid("")
  {
  }

  lemma {:induction false} NewlineInRunes(s: GoString)
    ensures '\n' in Runes(s) <==> '\n' in s
  {
    if s != "" {
      var d := DecodeRune(s);
      NewlineInRunes(s[d.width..]);
      assert s == s[..d.width] + s[d.width..];
      assert s[..d.width][0] == s[0];
    }
  }

  lemma GlobSplitStar(p: string, q: string, text: string, j: nat, k: nat)
    requires p != "" && p[0] == '*' && j <= |text| && '\n' !in text[..j]
    requires GlobSplit(p[1..], q, text[j..], k)
    ensures GlobSplit(p, q, text, j + k)
  {
    var t := text[..j + k];
    assert t[..j] == text[..j] && t[j..] == text[j..][..k];
    assert text[j..][k..] == text[j + k..];
  }

  lemma GlobSplitUnstar(p: string, q: string, text: string, k: nat) returns (j: nat)
    requires p != "" && p[0] == '*' && GlobSplit(p, q, text, k)
    ensures j <= k && '\n' !in text[..j] && GlobSplit(p[1..], q, text[j..], k - j)
  {
    var t := text[..k];
    j :| 0 <= j <= |t| && '\n' !in t[..j] && Glob(p[1..], t[j..]);
    assert t[..j] == text[..j] && t[j..] == text[j..][..k - j];
    assert text[j..][k - j..] == text[k..];
  }

  lemma GlobSplitOne(p: string, q: string, text: string, k: nat)
    requires p != "" && p[0] != '*' && 0 < k <= |text|
    ensures GlobSplit(p, q, text, k) <==> text[0] == p[0] && GlobSplit(p[1..], q, text[1..], k - 1)
  {
    var t := text[..k];
    assert t[0] == text[0] && t[1..] == text[1..][..k - 1];
    assert text[1..][k - 1..] == text[k..];
  }

  /** A pattern in two parts matches what its parts match one after the other. */
  lemma {:induction false} GlobConcat(p: string, q: string, text: string)
    ensures Glob(p + q, text) <==> exists k :: GlobSplit(p, q, text, k)
    decreases |p|
  {
    if p == "" {
      assert p + q == q && text[..0] == "" && text[0..] == text;
      assert GlobSplit(p, q, text, 0) <==> Glob(q, text);
    } else {
      assert (p + q)[0] == p[0] && (p + q)[1..] == p[1..] + q;
      if p[0] == '*' {
        if Glob(p + q, text) {
          var j :| 0 <= j <= |text| && '\n' !in text[..j] && Glob(p[1..] + q, text[j..]);
          GlobConcat(p[1..], q, text[j..]);
          var k: nat :| GlobSplit(p[1..], q, text[j..], k);
          GlobSplitStar(p, q, text, j, k);
        }
        if k: nat :| GlobSplit(p, q, text, k) {
          var j := GlobSplitUnstar(p, q, text, k);
          GlobConcat(p[1..], q, text[j..]);
          assert Glob((p + q)[1..], text[j..]);
        }
      } else if text != "" {
        GlobConcat(p[1..], q, text[1..]);
        forall k | 0 < k <= |text|
          ensures GlobSplit(p, q, text, k) <==> text[0] == p[0] && GlobSplit(p[1..], q, text[1..], k - 1)
        {
          GlobSplitOne(p, q, text, k);
        }
        assert !GlobSplit(p, q, text, 0);
        if k: nat :| GlobSplit(p[1..], q, text[1..], k) {
          GlobSplitOne(p, q, text, k + 1);
        }
      }
    }
  }

  /** A backslash, then characters without newline, then what `q` matches from position `j`. */
  predicate BackslashRun(q: string, text: string, j: nat) {
    1 <= j <= |text| && text[0] == '\\' && '\n' !in text[1..j] && Glob(q, text[j..])
  }

  lemma BackslashFirst(q: string, text: string)
    ensures Glob("\\*" + q, text) <==> exists j :: BackslashRun(q, text, j)
  {
    var p := "\\*" + q;
    assert p[0] == '\\' && p[1..][0] == '*' && p[1..][1..] == q;
    if Glob(p, text) {
      var rest := text[1..];
      assert Glob(p[1..], rest);
      var n: nat :| 0 <= n <= |rest| && '\n' !in rest[..n] && Glob(q, rest[n..]);
      assert rest[..n] == text[1..n + 1] && rest[n..] == text[n + 1..];
      assert BackslashRun(q, text, n + 1);
    }
    if j: nat :| BackslashRun(q, text, j) {
      var rest := text[1..];
      assert rest[..j - 1] == text[1..j] && rest[j - 1..] == text[j..];
      assert Glob(p[1..], rest);
    }
  }

  /** Anywhere in a pattern, a backslash before a star is a literal backslash and leaves the star
      its meaning. */
  lemma BackslashBeforeStar(p: string, q: string, path: string)
    ensures MatchesPattern(EncodeText(path), EncodeText(p + "\\*" + q)) <==>
            exists i, j :: 0 <= i <= |path| && Glob(p, path[..i]) && BackslashRun(q, path[i..], j)
  {
    hide *;
    var rest := "\\*" + q;
    assert p + "\\*" + q == p + rest;
    GlobOnTexts(path, p + rest);
    GlobConcat(p, rest, path);
    forall k: nat | k <= |path|
      ensures GlobSplit(p, rest, path, k) <==> Glob(p, path[..k]) && exists j :: BackslashRun(q, path[k..], j)
    {
      BackslashFirst(q, path[k..]);
      GlobSplitMeans(p, rest, path, k);
    }
    if k: nat :| GlobSplit(p, rest, path, k) {
      GlobSplitMeans(p, rest, path, k);
    }
  }

  lemma GlobSplitMeans(p: string, q: string, text: string, k: nat)
    ensures GlobSplit(p, q, text, k) <==> k <= |text| && Glob(p, text[..k]) && Glob(q, text[k..])
  {
  }
}
