/** UTF-8 decoding as Go's `unicode/utf8` does it, and `strings.TrimSpace` on top of it.

    Invalid bytes decode to U+FFFD with width one, so every byte string has runes. */
module Utf8 {
  import opened GoStrings

  const RUNE_ERROR: char := '\U{FFFD}'

  datatype Decoded = Decoded(rune: char, width: nat)

  predicate Ascii(c: char) { c as int < 0x80 }

  predicate InRange(s: GoString, i: nat, lo: int, hi: int) {
    i < |s| && lo <= s[i] as int <= hi
  }

  predicate Tail(s: GoString, i: nat) { InRange(s, i, 0x80, 0xBF) }

  predicate TwoBytes(s: GoString) {
    InRange(s, 0, 0xC2, 0xDF) && Tail(s, 1)
  }

  predicate ThreeBytes(s: GoString) {
    && InRange(s, 0, 0xE0, 0xEF) && Tail(s, 1) && Tail(s, 2)
    && (s[0] as int == 0xE0 ==> s[1] as int >= 0xA0)   // no overlong form
    && (s[0] as int == 0xED ==> s[1] as int <= 0x9F)   // no surrogate
  }

  predicate FourBytes(s: GoString) {
    && InRange(s, 0, 0xF0, 0xF4) && Tail(s, 1) && Tail(s, 2) && Tail(s, 3)
    && (s[0] as int == 0xF0 ==> s[1] as int >= 0x90)
    && (s[0] as int == 0xF4 ==> s[1] as int <= 0x8F)
  }

  predicate Multibyte(s: GoString) {
    TwoBytes(s) || ThreeBytes(s) || FourBytes(s)
  }

  /** utf8.DecodeRuneInString: the first rune and how many bytes it takes. */
  function DecodeRune(s: GoString): (d: Decoded)
    requires s != ""
    ensures 1 <= d.width <= |s| && d.width <= 4
    ensures Ascii(d.rune) <==> Ascii(s[0])
    ensures Ascii(s[0]) ==> d == Decoded(s[0], 1)
    ensures d.width > 1 <==> Multibyte(s)
    ensures forall i :: 0 < i < d.width ==> 0x80 <= s[i] as int <= 0xBF
  {
    if Ascii(s[0]) then Decoded(s[0], 1)
    else if TwoBytes(s) then
      Decoded(((s[0] as int - 0xC0) * 0x40 + (s[1] as int - 0x80)) as char, 2)
    else if ThreeBytes(s) then
      Decoded(((s[0] as int - 0xE0) * 0x1000 + (s[1] as int - 0x80) * 0x40
               + (s[2] as int - 0x80)) as char, 3)
    else if FourBytes(s) then
      Decoded(((s[0] as int - 0xF0) * 0x40000 + (s[1] as int - 0x80) * 0x1000
               + (s[2] as int - 0x80) * 0x40 + (s[3] as int - 0x80)) as char, 4)
    else Decoded(RUNE_ERROR, 1)
  }

  /** The runes a `range` loop or the regular-expression engine sees. */
  function Runes(s: GoString): string {
    if s == "" then "" else
      var d := DecodeRune(s);
      [d.rune] + Runes(s[d.width..])
  }

  /** utf8.ValidString. */
  predicate Valid(s: GoString) {
    s == "" ||
    var d := DecodeRune(s);
    (Ascii(s[0]) || d.width > 1) && Valid(s[d.width..])
  }

  /** Whether a rune is multibyte depends on its first byte and the tail bytes after it. */
  lemma MultibyteAgree(s: GoString, t: GoString)
    requires s != "" && t != "" && s[0] == t[0]
    requires Tail(s, 1) <==> Tail(t, 1)
    requires Tail(s, 1) ==> |s| > 1 && |t| > 1 && s[1] == t[1] && (Tail(s, 2) <==> Tail(t, 2))
    requires Tail(s, 1) && Tail(s, 2) ==> (Tail(s, 3) <==> Tail(t, 3))
    ensures Multibyte(s) <==> Multibyte(t)
  {
    hide Tail;
  }

  /** Decoding looks no further than the bytes it consumes. */
  lemma DecodePrefix(s: GoString, t: GoString)
    requires s != ""
    requires Ascii(s[0]) || DecodeRune(s).width > 1
    ensures DecodeRune(s + t) == DecodeRune(s)
    ensures DecodeRune(s[..DecodeRune(s).width] + t) == DecodeRune(s)
  {
  }

  lemma RunesUnfold(s: GoString)
    requires s != ""
    ensures Runes(s) == [DecodeRune(s).rune] + Runes(s[DecodeRune(s).width..])
    ensures Valid(s) <==> (Ascii(s[0]) || DecodeRune(s).width > 1) && Valid(s[DecodeRune(s).width..])
  {
  }

  // ---------------------------------------------------------------- encoding

  function Byte(v: int): char
    requires 0 <= v < 0x100
  {
    v as char
  }

  /** utf8.AppendRune: the encoding that decoding has to undo. */
  function Encode(r: char): GoString {
    var v := r as int;
    if v < 0x80 then [r]
    else if v < 0x800 then [Byte(0xC0 + v / 0x40), Byte(0x80 + v % 0x40)]
    else if v < 0x1_0000 then
      [Byte(0xE0 + v / 0x1000), Byte(0x80 + v / 0x40 % 0x40), Byte(0x80 + v % 0x40)]
    else
      [Byte(0xF0 + v / 0x4_0000), Byte(0x80 + v / 0x1000 % 0x40), Byte(0x80 + v / 0x40 % 0x40), Byte(0x80 + v % 0x40)]
  }

  function EncodeText(text: string): GoString {
    if text == "" then "" else Encode(text[0]) + EncodeText(text[1..])
  }

  lemma DecodeTwo(r: char)
    requires 0x80 <= r as int < 0x800
    ensures DecodeRune(Encode(r)) == Decoded(r, 2)
  {
    var s := Encode(r);
    assert TwoBytes(s);
    assert (s[0] as int - 0xC0) * 0x40 + (s[1] as int - 0x80) == r as int;
  }

  lemma DecodeThree(r: char)
    requires 0x800 <= r as int < 0x1_0000
    ensures DecodeRune(Encode(r)) == Decoded(r, 3)
  {
    var s, v := Encode(r), r as int;
    assert v / 0x40 / 0x40 == v / 0x1000;
    assert s[0] as int == 0xE0 + v / 0x1000 && s[1] as int == 0x80 + v / 0x40 % 0x40 && s[2] as int == 0x80 + v % 0x40;
    assert !TwoBytes(s) && ThreeBytes(s);
    assert (s[0] as int - 0xE0) * 0x1000 + (s[1] as int - 0x80) * 0x40 + (s[2] as int - 0x80) == v;
  }

  lemma DecodeFour(r: char)
    requires 0x1_0000 <= r as int
    ensures DecodeRune(Encode(r)) == Decoded(r, 4)
  {
    var s, v := Encode(r), r as int;
    assert v / 0x40 / 0x40 == v / 0x1000 && v / 0x1000 / 0x40 == v / 0x4_0000;
    assert s[0] as int == 0xF0 + v / 0x4_0000 && s[1] as int == 0x80 + v / 0x1000 % 0x40;
    assert s[2] as int == 0x80 + v / 0x40 % 0x40 && s[3] as int == 0x80 + v % 0x40;
    assert !TwoBytes(s) && !ThreeBytes(s) && FourBytes(s);
    assert (s[0] as int - 0xF0) * 0x4_0000 + (s[1] as int - 0x80) * 0x1000
           + (s[2] as int - 0x80) * 0x40 + (s[3] as int - 0x80) == v;
  }

  lemma DecodeEncode(r: char)
    ensures Encode(r) != "" && DecodeRune(Encode(r)) == Decoded(r, |Encode(r)|)
    ensures Ascii(r) || |Encode(r)| > 1
  {
    if Ascii(r) {
    } else if r as int < 0x800 { DecodeTwo(r); }
    else if r as int < 0x1_0000 { DecodeThree(r); }
    else { DecodeFour(r); }
  }

  lemma EncodeDecode(s: GoString)
    requires s != "" && (Ascii(s[0]) || DecodeRune(s).width > 1)
    ensures Encode(DecodeRune(s).rune) == s[..DecodeRune(s).width]
  {
    var d := DecodeRune(s);
    if Ascii(s[0]) {
    } else if TwoBytes(s) { EncodeTwo(s); }
    else if ThreeBytes(s) { EncodeThree(s); }
    else { EncodeFour(s); }
  }

  lemma EncodeTwo(s: GoString)
    requires TwoBytes(s)
    ensures Encode(DecodeRune(s).rune) == s[..2]
  {
    var a, b := s[0] as int - 0xC0, s[1] as int - 0x80;
    var v := DecodeRune(s).rune as int;
    assert v == a * 0x40 + b;
    assert v / 0x40 == a && v % 0x40 == b;
  }

  lemma EncodeThree(s: GoString)
    requires ThreeBytes(s)
    ensures Encode(DecodeRune(s).rune) == s[..3]
  {
    var a, b, c := s[0] as int - 0xE0, s[1] as int - 0x80, s[2] as int - 0x80;
    var v := DecodeRune(s).rune as int;
    assert v == a * 0x1000 + b * 0x40 + c && 0x800 <= v < 0x1_0000;
    assert v / 0x1000 == a && v / 0x40 == a * 0x40 + b && v % 0x40 == c;
    assert v / 0x40 % 0x40 == b;
  }

  lemma EncodeFour(s: GoString)
    requires FourBytes(s)
    ensures Encode(DecodeRune(s).rune) == s[..4]
  {
    var a, b, c, d := s[0] as int - 0xF0, s[1] as int - 0x80, s[2] as int - 0x80, s[3] as int - 0x80;
    var v := DecodeRune(s).rune as int;
    assert v == a * 0x4_0000 + b * 0x1000 + c * 0x40 + d && 0x1_0000 <= v;
    assert v / 0x4_0000 == a && v / 0x1000 == a * 0x40 + b && v / 0x40 == (a * 0x40 + b) * 0x40 + c && v % 0x40 == d;
    assert v / 0x1000 % 0x40 == b && v / 0x40 % 0x40 == c;
  }

  /** Every text survives encoding and decoding. */
  lemma {:induction false} RunesOfText(text: string)
    ensures Valid(EncodeText(text)) && Runes(EncodeText(text)) == text
  {
    if text != "" {
      hide *;
      RunesOfText(text[1..]);
      var e, rest := Encode(text[0]), EncodeText(text[1..]);
      DecodeEncode(text[0]);
      EncodeTextStep(text);
      assert Ascii(e[0]) || DecodeRune(e).width > 1 by { AsciiEncoding(text[0]); }
      DecodePrefix(e, rest);
      RunesUnfold(e + rest);
      assert (e + rest)[|e|..] == rest;
      assert text == [text[0]] + text[1..];
    }
  }

  lemma EncodeTextStep(text: string)
    requires text != ""
    ensures EncodeText(text) == Encode(text[0]) + EncodeText(text[1..])
  {
  }

  lemma AsciiEncoding(r: char)
    ensures Encode(r) != "" && (Ascii(Encode(r)[0]) || DecodeRune(Encode(r)).width > 1)
  {
    DecodeEncode(r);
  }

  lemma EncodeTextCons(r: char, text: string)
    ensures EncodeText([r] + text) == Encode(r) + EncodeText(text)
  {
    assert ([r] + text)[1..] == text;
  }

  lemma TextOfRunesStep(s: GoString)
    requires Valid(s) && s != ""
    requires EncodeText(Runes(s[DecodeRune(s).width..])) == s[DecodeRune(s).width..]
    ensures EncodeText(Runes(s)) == s
  {
    hide *;
    var d := DecodeRune(s);
    var rest := s[d.width..];
    RunesUnfold(s);
    EncodeTextCons(d.rune, Runes(rest));
    EncodeDecode(s);
    assert s == s[..d.width] + rest;
  }

  /** Every valid byte string is the encoding of its runes. */
  lemma {:induction false} TextOfRunes(s: GoString)
    requires Valid(s)
    ensures EncodeText(Runes(s)) == s
  {
    if s != "" {
      hide *;
      RunesUnfold(s);
      TextOfRunes(s[DecodeRune(s).width..]);
      TextOfRunesStep(s);
    }
  }

  // ---------------------------------------------------------------- white space

  /** unicode.IsSpace. */
  predicate IsSpace(r: char) {
    var v := r as int;
    || 0x09 <= v <= 0x0D || v == 0x20 || v == 0x85 || v == 0xA0 || v == 0x1680
    || 0x2000 <= v <= 0x200A || v == 0x2028 || v == 0x2029 || v == 0x202F
    || v == 0x205F || v == 0x3000
  }

  /** The 25 white-space characters of the Unicode standard. */
  lemma WhiteSpace(r: char)
    ensures IsSpace(r) <==>
              r in "\t\n\U{0B}\U{0C}\r \U{85}\U{A0}\U{1680}\U{2000}\U{2001}\U{2002}\U{2003}\U{2004}\U{2005}\U{2006}"
                   + "\U{2007}\U{2008}\U{2009}\U{200A}\U{2028}\U{2029}\U{202F}\U{205F}\U{3000}"
  {
  }

  /** utf8.RuneStart. */
  predicate RuneStart(c: char) {
    !(0x80 <= c as int <= 0xBF)
  }

  /** Where utf8.DecodeLastRuneInString stops stepping back from index `i`, `steps` at most. */
  function StepBack(s: GoString, i: nat, steps: nat): (j: nat)
    requires i < |s|
    ensures j <= i
    decreases steps
  {
    if i == 0 || steps == 0 || RuneStart(s[i]) then i else StepBack(s, i - 1, steps - 1)
  }

  /** utf8.DecodeLastRuneInString. */
  function DecodeLastRune(s: GoString): (d: Decoded)
    requires s != ""
    ensures 1 <= d.width <= |s|
    ensures d.width == 1 || d == DecodeRune(s[|s| - d.width..])
    ensures Ascii(s[|s| - 1]) ==> d == Decoded(s[|s| - 1], 1)
    ensures !Ascii(s[|s| - 1]) && d.width == 1 ==> d.rune == RUNE_ERROR
  {
    var end := |s|;
    if Ascii(s[end - 1]) then Decoded(s[end - 1], 1)
    else if end == 1 then Decoded(RUNE_ERROR, 1)
    else
      var start := StepBack(s, end - 2, 3);
      var d := DecodeRune(s[start..]);
      if start + d.width == end then d else Decoded(RUNE_ERROR, 1)
  }

  /** strings.TrimLeftFunc(s, unicode.IsSpace). */
  function TrimLeft(s: GoString): GoString {
    if s != "" && IsSpace(DecodeRune(s).rune) then TrimLeft(s[DecodeRune(s).width..]) else s
  }

  /** strings.TrimRightFunc(s, unicode.IsSpace). */
  function TrimRight(s: GoString): GoString {
    if s != "" && IsSpace(DecodeLastRune(s).rune) then TrimRight(s[..|s| - DecodeLastRune(s).width]) else s
  }

  /** strings.TrimSpace. */
  function TrimSpace(s: GoString): GoString {
    TrimRight(TrimLeft(s))
  }

  /** `w` is the encoding of a run of white-space runes. */
  predicate Blank(w: GoString) {
    w == "" || (IsSpace(DecodeRune(w).rune) && Blank(w[DecodeRune(w).width..]))
  }

  /** Encodings of white space consist of ASCII white space and bytes from 0x80 up. */
  predicate BlankByte(c: char) {
    !Ascii(c) || IsSpace(c)
  }

  lemma {:induction false} BlankBytes(w: GoString)
    requires Blank(w)
    ensures forall c :: c in w ==> BlankByte(c)
  {
    if w != "" {
      var d := DecodeRune(w);
      BlankBytes(w[d.width..]);
      assert w == w[..d.width] + w[d.width..];
      forall c | c in w[..d.width] ensures BlankByte(c) {
        var i :| 0 <= i < d.width && w[i] == c;
      }
    }
  }

  lemma SpaceIsNotError(s: GoString)
    requires s != "" && IsSpace(DecodeRune(s).rune)
    ensures Ascii(s[0]) || DecodeRune(s).width > 1
  {
  }

  lemma {:induction false} BlankConcat(v: GoString, w: GoString)
    requires Blank(v) && Blank(w)
    ensures Blank(v + w)
  {
    if v == "" {
      assert v + w == w;
    } else {
      var d := DecodeRune(v);
      DecodePrefix(v, w);
      assert (v + w)[d.width..] == v[d.width..] + w;
      BlankConcat(v[d.width..], w);
    }
  }

  lemma BlankCons(s: GoString, v: GoString)
    requires s != "" && IsSpace(DecodeRune(s).rune) && Blank(v)
    ensures Blank(s[..DecodeRune(s).width] + v)
  {
    var n := DecodeRune(s).width;
    DecodePrefix(s, v);
    assert (s[..n] + v)[n..] == v;
  }

  lemma SplitAt(s: GoString, n: nat, a: GoString, b: GoString)
    requires n <= |s|
    ensures s[n..] == a + b ==> s == (s[..n] + a) + b
    ensures s[..n] == a + b ==> s == a + (b + s[n..])
  {
    assert s == s[..n] + s[n..];
    assert s[n..] == a + b ==> s[..n] + s[n..] == (s[..n] + a) + b;
    assert s[..n] == a + b ==> s[..n] + s[n..] == a + (b + s[n..]);
  }

  lemma {:induction false} TrimLeftSplits(s: GoString) returns (w: GoString)
    ensures s == w + TrimLeft(s) && Blank(w)
  {
    if s != "" && IsSpace(DecodeRune(s).rune) {
      var n := DecodeRune(s).width;
      var v := TrimLeftSplits(s[n..]);
      BlankCons(s, v);
      SplitAt(s, n, v, TrimLeft(s[n..]));
      w := s[..n] + v;
    } else {
      w := "";
      assert s == w + s;
    }
  }

  lemma LastRuneIsBlank(s: GoString)
    requires s != "" && IsSpace(DecodeLastRune(s).rune)
    ensures Blank(s[|s| - DecodeLastRune(s).width..])
  {
    var d := DecodeLastRune(s);
    var e := s[|s| - d.width..];
    assert e[0] == s[|s| - d.width];
    assert DecodeRune(e) == d;
    assert e[d.width..] == "";
  }

  lemma {:induction false} TrimRightSplits(s: GoString) returns (w: GoString)
    ensures s == TrimRight(s) + w && Blank(w)
    decreases |s|
  {
    if s != "" && IsSpace(DecodeLastRune(s).rune) {
      var n := |s| - DecodeLastRune(s).width;
      var v := TrimRightSplits(s[..n]);
      LastRuneIsBlank(s);
      BlankConcat(v, s[n..]);
      SplitAt(s, n, TrimRight(s[..n]), v);
      w := v + s[n..];
    } else {
      w := "";
      assert s == s + w;
    }
  }

  lemma {:induction false} TrimLeftBlank(w: GoString, s: GoString)
    requires Blank(w)
    ensures TrimLeft(w + s) == TrimLeft(s)
  {
    if w == "" {
      assert w + s == s;
    } else {
      var d := DecodeRune(w);
      SpaceIsNotError(w);
      DecodePrefix(w, s);
      assert (w + s)[d.width..] == w[d.width..] + s;
      TrimLeftBlank(w[d.width..], s);
    }
  }

  /** Stepping back from the end of a multibyte rune arrives at its first byte. */
  lemma StepBackTo(t: GoString, start: nat)
    requires start < |t| - 1 && |t| - start <= 3
    requires RuneStart(t[start]) && (|t| - start == 3 ==> !RuneStart(t[start + 1]))
    ensures StepBack(t, |t| - 2, 3) == start
  {
    if |t| - start == 3 {
      assert StepBack(t, |t| - 2, 3) == StepBack(t, start, 2);
    }
  }

  lemma SpaceWidth(e: GoString)
    requires e != "" && IsSpace(DecodeRune(e).rune) && !Ascii(e[0])
    ensures 2 <= DecodeRune(e).width <= 3
    ensures RuneStart(e[0])
  {
  }

  /** A single white-space rune at the end is found by decoding backwards. */
  lemma LastRuneOf(s: GoString, e: GoString)
    requires e != "" && IsSpace(DecodeRune(e).rune) && DecodeRune(e).width == |e|
    ensures DecodeLastRune(s + e) == DecodeRune(e)
  {
    hide DecodeRune, StepBack, Multibyte, IsSpace;
    var t := s + e;
    assert t[|t| - 1] == e[|e| - 1];
    if !Ascii(e[0]) {
      SpaceWidth(e);
      assert t[|s|] == e[0] && t[|s| + 1] == e[1];
      StepBackTo(t, |s|);
      assert t[|s|..] == e;
    }
  }

  lemma BlankHead(w: GoString)
    requires Blank(w) && w != ""
    ensures var e := w[..DecodeRune(w).width];
            IsSpace(DecodeRune(e).rune) && DecodeRune(e).width == |e|
    ensures Blank(w[DecodeRune(w).width..])
  {
    SpaceIsNotError(w);
    DecodePrefix(w, "");
    assert w[..DecodeRune(w).width] + "" == w[..DecodeRune(w).width];
  }

  lemma TrimRightOne(s: GoString, e: GoString)
    requires e != "" && IsSpace(DecodeRune(e).rune) && DecodeRune(e).width == |e|
    ensures TrimRight(s + e) == TrimRight(s)
  {
    LastRuneOf(s, e);
    assert (s + e)[..|s|] == s;
  }

  lemma {:induction false} TrimRightBlank(s: GoString, w: GoString)
    requires Blank(w)
    ensures TrimRight(s + w) == TrimRight(s)
    decreases |w|
  {
    hide *;
    if w == "" {
      assert s + w == s;
    } else {
      var e, v := w[..DecodeRune(w).width], w[DecodeRune(w).width..];
      BlankHead(w);
      assert s + w == (s + e) + v;
      TrimRightBlank(s + e, v);
      TrimRightOne(s, e);
    }
  }

  /** White space starts with no tail byte. */
  lemma TailBefore(s: GoString, w: GoString, i: nat)
    requires Blank(w) && i <= |s|
    ensures Tail(s + w, i) <==> Tail(s, i)
  {
    if i == |s| && w != "" && !Ascii(w[0]) {
      SpaceWidth(w);
    }
  }

  lemma MultibyteBefore(s: GoString, w: GoString)
    requires s != "" && Blank(w)
    ensures Multibyte(s + w) <==> Multibyte(s)
  {
    hide Multibyte, Blank;
    TailBefore(s, w, 1);
    if Tail(s, 1) {
      TailBefore(s, w, 2);
      if Tail(s, 2) {
        TailBefore(s, w, 3);
      }
    }
    MultibyteAgree(s, s + w);
  }

  /** So white space behind a string does not change how its first rune is read. */
  lemma FirstRuneBefore(s: GoString, w: GoString)
    requires s != "" && Blank(w)
    ensures DecodeRune(s + w) == DecodeRune(s)
  {
    hide *;
    MultibyteBefore(s, w);
    if Ascii(s[0]) || DecodeRune(s).width > 1 {
      DecodePrefix(s, w);
    } else {
      DecodeError(s);
      DecodeError(s + w);
    }
  }

  lemma DecodeError(s: GoString)
    requires s != "" && !Ascii(s[0]) && DecodeRune(s).width == 1
    ensures DecodeRune(s) == Decoded(RUNE_ERROR, 1)
  {
  }

  /** No white space at either end. */
  predicate Trimmed(s: GoString) {
    s != "" ==> !IsSpace(DecodeRune(s).rune) && !IsSpace(DecodeLastRune(s).rune)
  }

  lemma {:induction false} TrimLeftTrims(s: GoString)
    ensures TrimLeft(s) != "" ==> !IsSpace(DecodeRune(TrimLeft(s)).rune)
  {
    if s != "" && IsSpace(DecodeRune(s).rune) {
      TrimLeftTrims(s[DecodeRune(s).width..]);
    }
  }

  lemma {:induction false} TrimRightTrims(s: GoString)
    ensures TrimRight(s) != "" ==> !IsSpace(DecodeLastRune(TrimRight(s)).rune)
    decreases |s|
  {
    if s != "" && IsSpace(DecodeLastRune(s).rune) {
      TrimRightTrims(s[..|s| - DecodeLastRune(s).width]);
    }
  }

  lemma TrimSpaceTrims(s: GoString)
    ensures Trimmed(TrimSpace(s))
  {
    hide *;
    var t := TrimLeft(s);
    TrimSpaceUnfold(s);
    TrimLeftTrims(s);
    TrimRightTrims(t);
    var w := TrimRightSplits(t);
    TrimmedMeans(TrimSpace(s));
    if TrimSpace(s) != "" {
      FirstRuneBefore(TrimRight(t), w);
    }
  }

  lemma TrimmedMeans(s: GoString)
    ensures Trimmed(s) <==> s == "" || (!IsSpace(DecodeRune(s).rune) && !IsSpace(DecodeLastRune(s).rune))
  {
  }

  /** Trimming takes off exactly the white space around a text: of all ways to see a string as a
      text between white space, it chooses the one where the text has none at its ends. */
  lemma TrimSpaceAround(v: GoString, s: GoString, w: GoString)
    requires Blank(v) && Blank(w)
    ensures TrimSpace(v + s + w) == s <==> Trimmed(s)
  {
    hide *;
    TrimSpaceTrims(v + s + w);
    if Trimmed(s) {
      TrimmedMeans(s);
      assert v + s + w == v + (s + w);
      TrimSpaceUnfold(v + s + w);
      TrimLeftBlank(v, s + w);
      if s == "" {
        assert s + w == w + "";
        TrimLeftBlank(w, "");
        TrimEmpty();
      } else {
        FirstRuneBefore(s, w);
        TrimLeftStops(s + w);
        TrimRightBlank(s, w);
        TrimRightStops(s);
      }
    }
  }

  lemma TrimEmpty()
    ensures TrimLeft("") == "" && TrimRight("") == ""
  {
  }

  lemma TrimRightStops(s: GoString)
    requires s != "" && !IsSpace(DecodeLastRune(s).rune)
    ensures TrimRight(s) == s
  {
  }

  lemma TrimLeftStops(s: GoString)
    requires s != "" && !IsSpace(DecodeRune(s).rune)
    ensures TrimLeft(s) == s
  {
  }

  lemma AsciiEnds(s: GoString)
    requires s != "" && !BlankByte(s[0]) && !BlankByte(s[|s| - 1])
    ensures Trimmed(s)
  {
  }

  lemma TrimSpaceSplits(s: GoString) returns (v: GoString, w: GoString)
    ensures s == v + TrimSpace(s) + w && Blank(v) && Blank(w)
  {
    v := TrimLeftSplits(s);
    w := TrimRightSplits(TrimLeft(s));
  }

  lemma TrimSpaceUnfold(s: GoString)
    ensures TrimSpace(s) == TrimRight(TrimLeft(s))
  {
  }

  lemma TrimSpaceEmpty()
    ensures TrimSpace("") == ""
  {
  }
}
