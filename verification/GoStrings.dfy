/** The byte-string operations of Go's `strings` package that the service uses.

    A Go string is a sequence of bytes; here it is a Dafny string that holds one byte per
    character. No definition needs the characters to stay below 256, so every result holds
    of byte strings in particular. */
module GoStrings {

  type GoString = string

  /** strings.ReplaceAll for a nonempty `old`: leftmost matches, without overlap. */
  function ReplaceAll(s: GoString, old_: GoString, new_: GoString): GoString
    requires old_ != ""
  {
    if s == "" then ""
    else if old_ <= s then new_ + ReplaceAll(s[|old_|..], old_, new_)
    else [s[0]] + ReplaceAll(s[1..], old_, new_)
  }

  /** strings.Split with a one-byte separator. */
  function Split(s: GoString, sep: char): (parts: seq<GoString>)
    ensures |parts| >= 1
  {
    if s == "" then [""]
    else if s[0] == sep then [""] + Split(s[1..], sep)
    else
      var rest := Split(s[1..], sep);
      [[s[0]] + rest[0]] + rest[1..]
  }

  /** strings.Join with a one-byte separator. */
  function Join(parts: seq<GoString>, sep: char): GoString
    requires |parts| >= 1
  {
    if |parts| == 1 then parts[0] else parts[0] + [sep] + Join(parts[1..], sep)
  }

  /** strings.Contains. */
  predicate Contains(s: GoString, sub: GoString) {
    exists i :: 0 <= i <= |s| - |sub| && s[i..][..|sub|] == sub
  }

  /** strings.HasPrefix. */
  predicate HasPrefix(s: GoString, prefix: GoString) {
    prefix <= s
  }

  /** strings.HasSuffix. */
  predicate HasSuffix(s: GoString, suffix: GoString) {
    |suffix| <= |s| && s[|s| - |suffix|..] == suffix
  }

  /** The part of `s` before the first `c`, or all of `s`: what slicing at strings.Index leaves. */
  function Before(s: GoString, c: char): (r: GoString)
    ensures r <= s && c !in r
    ensures r == s || s[|r|] == c
  {
    if s == "" || s[0] == c then "" else
      var rest := Before(s[1..], c);
      assert s == [s[0]] + s[1..];
      [s[0]] + rest
  }

  /** `s` with every character of `drop` deleted. */
  function Without(s: GoString, drop: set<char>): (r: GoString)
    ensures forall c :: c in r <==> c in s && c !in drop
  {
    if s == "" then ""
    else if s[0] in drop then Without(s[1..], drop)
    else [s[0]] + Without(s[1..], drop)
  }

  // ---------------------------------------------------------------- Split and Join

  lemma {:induction false} SplitOfFree(s: GoString, sep: char)
    requires sep !in s
    ensures Split(s, sep) == [s]
  {
    if s != "" {
      SplitOfFree(s[1..], sep);
      assert [s[0]] + s[1..] == s;
    }
  }

  /** Splitting at a separator splits each side on its own. */
  lemma {:induction false} SplitConcat(a: GoString, sep: char, b: GoString)
    ensures Split(a + [sep] + b, sep) == Split(a, sep) + Split(b, sep)
  {
    var s := a + [sep] + b;
    if a == "" {
      assert s[1..] == b;
    } else {
      assert s[1..] == a[1..] + [sep] + b;
      SplitConcat(a[1..], sep, b);
    }
  }

  lemma {:induction false} JoinSplit(s: GoString, sep: char)
    ensures Join(Split(s, sep), sep) == s
    ensures forall p :: p in Split(s, sep) ==> sep !in p
  {
    if s != "" {
      JoinSplit(s[1..], sep);
      var rest := Split(s[1..], sep);
      if s[0] == sep {
        assert Split(s, sep)[1..] == rest;
      } else {
        var parts := Split(s, sep);
        assert parts[0] == [s[0]] + rest[0] && parts[1..] == rest[1..];
        assert rest[0] in rest;
        if |rest| == 1 {
          assert s == [s[0]] + s[1..];
        } else {
          assert s == [s[0]] + s[1..] == parts[0] + [sep] + Join(rest[1..], sep);
        }
      }
    }
  }

  /** The first field is what stands before the first separator. */
  lemma {:induction false} SplitHead(s: GoString, sep: char)
    ensures Split(s, sep)[0] == Before(s, sep)
    ensures |Split(s, sep)| >= 2 <==> sep in s
  {
    if s != "" && s[0] != sep {
      SplitHead(s[1..], sep);
    }
  }

  lemma {:induction false} BeforeOfPrefix(a: GoString, c: char, b: GoString)
    requires c !in a
    ensures Before(a + [c] + b, c) == a
  {
    if a == "" {
    } else {
      assert (a + [c] + b)[1..] == a[1..] + [c] + b;
      BeforeOfPrefix(a[1..], c, b);
    }
  }

  lemma BeforeOfFree(s: GoString, c: char)
    requires c !in s
    ensures Before(s, c) == s
  {
  }

  lemma ContainsSplits(s: GoString, sub: GoString) returns (a: GoString, b: GoString)
    requires Contains(s, sub)
    ensures s == a + sub + b
  {
    var i :| 0 <= i <= |s| - |sub| && s[i..][..|sub|] == sub;
    a, b := s[..i], s[i..][|sub|..];
  }

  lemma ContainsIntro(a: GoString, sub: GoString, b: GoString)
    ensures Contains(a + sub + b, sub)
  {
    var s := a + sub + b;
    assert s[|a|..] == sub + b;
    assert s[|a|..][..|sub|] == sub;
  }

  lemma ReplaceAllStep(s: GoString, old_: GoString, new_: GoString)
    requires old_ != "" && s != ""
    ensures ReplaceAll(s, old_, new_) ==
            if old_ <= s then new_ + ReplaceAll(s[|old_|..], old_, new_)
            else [s[0]] + ReplaceAll(s[1..], old_, new_)
    ensures old_ <= s ==> s[0] == old_[0] && s == old_ + s[|old_|..]
    ensures s == [s[0]] + s[1..]
  {
  }

  // ---------------------------------------------------------------- Without

  lemma {:induction false} WithoutConcat(a: GoString, b: GoString, drop: set<char>)
    ensures Without(a + b, drop) == Without(a, drop) + Without(b, drop)
  {
    if a == "" {
      assert a + b == b;
    } else {
      assert (a + b)[1..] == a[1..] + b;
      WithoutConcat(a[1..], b, drop);
    }
  }

  lemma {:induction false} WithoutTwice(s: GoString, d: set<char>, e: set<char>)
    ensures Without(Without(s, d), e) == Without(s, d + e)
  {
    if s != "" {
      WithoutTwice(s[1..], d, e);
    }
  }

  lemma {:induction false} WithoutNothing(s: GoString, drop: set<char>)
    requires forall c :: c in s ==> c !in drop
    ensures Without(s, drop) == s
  {
    if s != "" {
      WithoutNothing(s[1..], drop);
    }
  }

  /** Replacing one byte by nothing deletes it everywhere. */
  lemma {:induction false} ReplaceOneIsWithout(s: GoString, c: char)
    ensures ReplaceAll(s, [c], "") == Without(s, {c})
  {
    if s != "" {
      assert ([c] <= s) == (s[0] == c);
      ReplaceOneIsWithout(s[1..], c);
    }
  }

  /** A pattern holding a byte that `s` lacks is never found. */
  lemma {:induction false} ReplaceAbsent(s: GoString, old_: GoString, new_: GoString, c: char)
    requires c in old_ && c !in s
    ensures ReplaceAll(s, old_, new_) == s
  {
    if s != "" {
      assert !(old_ <= s);
      ReplaceAbsent(s[1..], old_, new_, c);
    }
  }
}
