/** How a tenant is read off the Host header: the LoRaWAN webhook handler's two functions
    and the API handler's single one, which were written independently. */
module TenantHosts {
  import opened GoStrings
  import opened Utf8

  const MAX_TENANT: nat := 64

  /** Letters, digits, hyphen and underscore. */
  predicate Allowed(c: char) {
    'a' <= c <= 'z' || 'A' <= c <= 'Z' || '0' <= c <= '9' || c == '-' || c == '_'
  }

  predicate AllAllowed(s: string) { forall c :: c in s ==> Allowed(c) }

  /** A tenant identifier both handlers are willing to use. */
  predicate IsTenant(t: GoString) { 1 <= |t| <= MAX_TENANT && AllAllowed(t) }

  // ---------------------------------------------------------------- LoRaWAN handler

  /** What extractTenantFromSubdomain returns: the first label, if the host has two. */
  function HostLabel(host: GoString): GoString {
    var name := Before(host, ':');
    if '.' in name then Before(name, '.') else ""
  }

  method ExtractTenantFromSubdomain(host: GoString) returns (tenant: GoString)
    ensures tenant == HostLabel(host)
    ensures '.' !in tenant && ':' !in tenant
  {
    if host == "" {
      return "";
    }
    var name := host;
    if ':' in name {
      name := Before(name, ':');
    } else {
      BeforeOfFree(name, ':');
    }
    var parts := Split(name, '.');
    SplitHead(name, '.');
    if |parts| < 2 {
      return "";
    }
    return parts[0];
  }

  /** The string after sanitizeTenantID's replacements, before trimming. */
  function Scrubbed(s: GoString): GoString {
    var a := ReplaceAll(ReplaceAll(s, "+", ""), "#", "");
    var b := ReplaceAll(ReplaceAll(a, "../", ""), "..", "");
    var c := ReplaceAll(ReplaceAll(b, "/", ""), "\\", "");
    ReplaceAll(ReplaceAll(ReplaceAll(ReplaceAll(c, " ", ""), "\t", ""), "\n", ""), "\r", "")
  }

  function AcceptTenant(t: GoString): GoString {
    if IsTenant(t) then t else ""
  }

  /** sanitizeTenantID as a function: ten replacements, a trim and a whitelist. */
  function Sanitized(s: GoString): GoString {
    AcceptTenant(TrimSpace(Scrubbed(s)))
  }

  method SanitizeTenantID(input: GoString) returns (result: GoString)
    ensures result == Sanitized(input)
  {
    if input == "" {
      return "";
    }
    var tenantID := input;
    tenantID := ReplaceAll(tenantID, "+", "");
    tenantID := ReplaceAll(tenantID, "#", "");
    tenantID := ReplaceAll(tenantID, "../", "");
    tenantID := ReplaceAll(tenantID, "..", "");
    tenantID := ReplaceAll(tenantID, "/", "");
    tenantID := ReplaceAll(tenantID, "\\", "");
    tenantID := ReplaceAll(tenantID, " ", "");
    tenantID := ReplaceAll(tenantID, "\t", "");
    tenantID := ReplaceAll(tenantID, "\n", "");
    tenantID := ReplaceAll(tenantID, "\r", "");
    assert tenantID == Scrubbed(input);
    tenantID := TrimSpace(tenantID);
    if |tenantID| > 0 && |tenantID| <= MAX_TENANT {   // counted in bytes
      var valid := WhitelistLoop(tenantID);
      if valid {
        return tenantID;
      }
    }
    return "";
  }

  /** The whitelist loop ranges over runes; its verdict is about bytes all the same. */
  method WhitelistLoop(s: GoString) returns (valid: bool)
    ensures valid == AllAllowed(s)
  {
    valid := true;
    var i := 0;
    while i < |s|
      invariant 0 <= i <= |s|
      invariant valid && AllAllowed(s[..i])
    {
      var d := DecodeRune(s[i..]);
      if !Allowed(d.rune) {
        valid := false;
        assert s[i] in s;
        break;
      }
      assert d == Decoded(s[i], 1);
      assert s[..i + 1] == s[..i] + [s[i]];
      i := i + d.width;
    }
    if valid {
      assert s[..i] == s;
    }
  }

  // ---------------------------------------------------------------- API handler

  /** extractTenantID of the API handler. Its pattern ^[A-Za-z0-9_-]{1,64}$ is IsTenant. */
  function ApiTenant(host: GoString): GoString {
    AcceptTenant(TrimSpace(HostLabel(TrimSpace(host))))
  }

  method ExtractTenantID(host: GoString) returns (tenant: GoString)
    ensures tenant == ApiTenant(host)
  {
    var name := TrimSpace(host);
    if name == "" {
      return "";
    }
    if ':' in name {
      name := Before(name, ':');
    } else {
      BeforeOfFree(name, ':');
    }
    var parts := Split(name, '.');
    SplitHead(name, '.');
    if |parts| < 2 {
      return "";
    }
    var tenantID := TrimSpace(parts[0]);
    if IsTenant(tenantID) {
      return tenantID;
    }
    return "";
  }

  /** The tenant the LoRaWAN handler arrives at; "" when it answers with an error. */
  function LoRaWanTenant(host: GoString): GoString {
    Sanitized(HostLabel(host))
  }

  // ---------------------------------------------------------------- one pass is enough

  /** The bytes that the single-byte replacements delete. */
  const DROPPED: set<char> := {'+', '#', '/', '\\', ' ', '\t', '\n', '\r'}

  /** One deletion pass, one trim, one test. */
  function OnePass(s: GoString): GoString {
    AcceptTenant(TrimSpace(Without(s, DROPPED)))
  }

  lemma PassesAfterDots(b: GoString)
    ensures ReplaceAll(ReplaceAll(ReplaceAll(ReplaceAll(ReplaceAll(ReplaceAll(
              b, "/", ""), "\\", ""), " ", ""), "\t", ""), "\n", ""), "\r", "")
            == Without(b, {'/', '\\', ' ', '\t', '\n', '\r'})
  {
    var b1 := Without(b, {'/'});
    ReplaceOneIsWithout(b, '/');
    ReplaceOneIsWithout(b1, '\\');
    WithoutTwice(b, {'/'}, {'\\'});
    var b2 := Without(b, {'/'} + {'\\'});
    ReplaceOneIsWithout(b2, ' ');
    WithoutTwice(b, {'/'} + {'\\'}, {' '});
    var b3 := Without(b, {'/'} + {'\\'} + {' '});
    ReplaceOneIsWithout(b3, '\t');
    WithoutTwice(b, {'/'} + {'\\'} + {' '}, {'\t'});
    var b4 := Without(b, {'/'} + {'\\'} + {' '} + {'\t'});
    ReplaceOneIsWithout(b4, '\n');
    WithoutTwice(b, {'/'} + {'\\'} + {' '} + {'\t'}, {'\n'});
    var b5 := Without(b, {'/'} + {'\\'} + {' '} + {'\t'} + {'\n'});
    ReplaceOneIsWithout(b5, '\r');
    WithoutTwice(b, {'/'} + {'\\'} + {' '} + {'\t'} + {'\n'}, {'\r'});
    assert {'/'} + {'\\'} + {' '} + {'\t'} + {'\n'} + {'\r'} == {'/', '\\', ' ', '\t', '\n', '\r'};
  }

  lemma PassesBeforeDots(s: GoString)
    ensures ReplaceAll(ReplaceAll(s, "+", ""), "#", "") == Without(s, {'+', '#'})
  {
    ReplaceOneIsWithout(s, '+');
    ReplaceOneIsWithout(Without(s, {'+'}), '#');
    WithoutTwice(s, {'+'}, {'#'});
    assert {'+'} + {'#'} == {'+', '#'};
  }

  /** The two passes that remove dots, in the source's order. */
  function DotPasses(s: GoString): GoString {
    ReplaceAll(ReplaceAll(s, "../", ""), "..", "")
  }

  lemma ScrubbedInThreeParts(s: GoString)
    ensures Scrubbed(s) == Without(DotPasses(Without(s, {'+', '#'})), {'/', '\\', ' ', '\t', '\n', '\r'})
  {
    PassesBeforeDots(s);
    PassesAfterDots(DotPasses(Without(s, {'+', '#'})));
  }

  lemma ScrubbedDotFree(s: GoString)
    requires '.' !in s
    ensures Scrubbed(s) == Without(s, DROPPED)
  {
    ScrubbedInThreeParts(s);
    var a := Without(s, {'+', '#'});
    ReplaceAbsent(a, "../", "", '.');
    ReplaceAbsent(a, "..", "", '.');
    WithoutTwice(s, {'+', '#'}, {'/', '\\', ' ', '\t', '\n', '\r'});
    assert {'+', '#'} + {'/', '\\', ' ', '\t', '\n', '\r'} == DROPPED;
  }

  /** Everything host extraction can return is sanitised as if in one pass. */
  lemma SanitizerRefinesOnePass(host: GoString)
    ensures Sanitized(HostLabel(host)) == OnePass(HostLabel(host))
  {
    ScrubbedDotFree(HostLabel(host));
  }

  /** More generally, on every string without dots. */
  lemma SanitizerOnDotFree(s: GoString)
    requires '.' !in s
    ensures Sanitized(s) == OnePass(s)
  {
    ScrubbedDotFree(s);
  }

  // ---------------------------------------------------------------- arbitrary input

  /** The allowed bytes of `s`, in order. */
  function AllowedPart(s: GoString): GoString {
    if s == "" then ""
    else if Allowed(s[0]) then [s[0]] + AllowedPart(s[1..])
    else AllowedPart(s[1..])
  }

  function Dots(s: GoString): nat {
    if s == "" then 0 else (if s[0] == '.' then 1 else 0) + Dots(s[1..])
  }

  lemma {:induction false} AllowedPartConcat(a: GoString, b: GoString)
    ensures AllowedPart(a + b) == AllowedPart(a) + AllowedPart(b)
  {
    if a == "" {
      assert a + b == b;
    } else {
      assert (a + b)[1..] == a[1..] + b;
      AllowedPartConcat(a[1..], b);
    }
  }

  lemma {:induction false} DotsConcat(a: GoString, b: GoString)
    ensures Dots(a + b) == Dots(a) + Dots(b)
  {
    if a == "" {
      assert a + b == b;
    } else {
      assert (a + b)[1..] == a[1..] + b;
      DotsConcat(a[1..], b);
    }
  }

  lemma {:induction false} NothingAllowed(s: GoString)
    requires forall c :: c in s ==> !Allowed(c)
    ensures AllowedPart(s) == ""
  {
    if s != "" {
      NothingAllowed(s[1..]);
    }
  }

  lemma {:induction false} EverythingAllowed(s: GoString)
    requires AllAllowed(s)
    ensures AllowedPart(s) == s && Dots(s) == 0
  {
    if s != "" {
      EverythingAllowed(s[1..]);
      assert s == [s[0]] + s[1..];
    }
  }

  lemma {:induction false} WithoutKeepsAllowed(s: GoString, drop: set<char>)
    requires forall c :: c in drop ==> !Allowed(c) && c != '.'
    ensures AllowedPart(Without(s, drop)) == AllowedPart(s)
    ensures Dots(Without(s, drop)) == Dots(s)
  {
    if s != "" {
      WithoutKeepsAllowed(s[1..], drop);
    }
  }

  /** Deleting every occurrence of a dotted pattern keeps the allowed bytes and the parity of dots. */
  lemma {:induction false} DotPassKeepsAllowed(s: GoString, old_: GoString)
    requires old_ == ".." || old_ == "../"
    ensures AllowedPart(ReplaceAll(s, old_, "")) == AllowedPart(s)
    ensures Dots(ReplaceAll(s, old_, "")) % 2 == Dots(s) % 2
    decreases |s|
  {
    hide *;
    if s == "" {
      ReplaceAllEmpty(old_);
    } else {
      ReplaceAllStep(s, old_, "");
      if old_ <= s {
        DotPassKeepsAllowed(s[|old_|..], old_);
        DottedFront(old_, s[|old_|..]);
        assert "" + ReplaceAll(s[|old_|..], old_, "") == ReplaceAll(s[|old_|..], old_, "");
      } else {
        DotPassKeepsAllowed(s[1..], old_);
        AllowedBehind([s[0]], s[1..], ReplaceAll(s[1..], old_, ""));
      }
    }
  }

  lemma AllowedBehind(a: GoString, b: GoString, c: GoString)
    requires AllowedPart(b) == AllowedPart(c) && Dots(b) % 2 == Dots(c) % 2
    ensures AllowedPart(a + b) == AllowedPart(a + c) && Dots(a + b) % 2 == Dots(a + c) % 2
  {
    hide *;
    AllowedPartConcat(a, b);
    AllowedPartConcat(a, c);
    DotsConcat(a, b);
    DotsConcat(a, c);
  }

  lemma DottedFront(old_: GoString, b: GoString)
    requires old_ == ".." || old_ == "../"
    ensures AllowedPart(old_ + b) == AllowedPart(b) && Dots(old_ + b) == 2 + Dots(b)
  {
    hide *;
    DottedPatterns();
    AllowedPartConcat(old_, b);
    DotsConcat(old_, b);
    assert "" + AllowedPart(b) == AllowedPart(b);
  }

  lemma DottedPatterns()
    ensures AllowedPart("..") == "" && Dots("..") == 2
    ensures AllowedPart("../") == "" && Dots("../") == 2
  {
    NothingAllowed("..");
    NothingAllowed("../");
    assert Dots("/") == 0 && Dots(".") == 1 && Dots("./") == 1;
    assert ".."[1..] == "." && "../"[1..] == "./";
  }

  lemma BlankHasNothing(w: GoString)
    requires Blank(w)
    ensures AllowedPart(w) == "" && Dots(w) == 0
    ensures '.' !in w && ':' !in w
  {
    BlankBytes(w);
    NothingAllowed(w);
    NoDots(w);
  }

  lemma {:induction false} NoDots(s: GoString)
    requires '.' !in s
    ensures Dots(s) == 0
  {
    if s != "" {
      NoDots(s[1..]);
    }
  }

  lemma ScrubbedKeepsAllowed(s: GoString)
    ensures AllowedPart(Scrubbed(s)) == AllowedPart(s)
    ensures Dots(Scrubbed(s)) % 2 == Dots(s) % 2
  {
    hide *;
    var a := Without(s, {'+', '#'});
    var b := ReplaceAll(a, "../", "");
    assert Scrubbed(s) == Without(DotPasses(a), {'/', '\\', ' ', '\t', '\n', '\r'}) by { ScrubbedInThreeParts(s); }
    assert DotPasses(a) == ReplaceAll(b, "..", "") by { DotPassesUnfold(a); }
    assert forall c :: c in {'+', '#'} ==> !Allowed(c) && c != '.' by { DroppedNotAllowed(); }
    WithoutKeepsAllowed(s, {'+', '#'});
    DotPassKeepsAllowed(a, "../");
    DotPassKeepsAllowed(b, "..");
    assert forall c :: c in {'/', '\\', ' ', '\t', '\n', '\r'} ==> !Allowed(c) && c != '.' by { DroppedNotAllowed(); }
    WithoutKeepsAllowed(DotPasses(a), {'/', '\\', ' ', '\t', '\n', '\r'});
  }

  lemma DotPassesUnfold(a: GoString)
    ensures DotPasses(a) == ReplaceAll(ReplaceAll(a, "../", ""), "..", "")
  {
  }

  lemma DroppedNotAllowed()
    ensures forall c :: c in DROPPED ==> !Allowed(c) && c != '.'
    ensures DROPPED == {'+', '#'} + {'/', '\\', ' ', '\t', '\n', '\r'}
  {
  }

  /** An accepted tenant is the input's allowed bytes in order, and the input had an even
      number of dots. */
  lemma SanitizedIsAllowedPart(s: GoString)
    requires Sanitized(s) != ""
    ensures Sanitized(s) == AllowedPart(s) && IsTenant(AllowedPart(s))
    ensures Dots(s) % 2 == 0
  {
    hide Scrubbed, TrimSpace, AllowedPart, Dots, Blank;
    var c := Scrubbed(s);
    var t := TrimSpace(c);
    var v, w := TrimSpaceSplits(c);
    ScrubbedKeepsAllowed(s);
    PartsAround(v, t, w);
  }

  lemma PartsAround(v: GoString, t: GoString, w: GoString)
    requires Blank(v) && Blank(w) && AllAllowed(t)
    ensures AllowedPart(v + t + w) == t && Dots(v + t + w) == 0
  {
    hide *;
    BlankHasNothing(v);
    BlankHasNothing(w);
    EverythingAllowed(t);
    AllowedPartConcat(v + t, w);
    AllowedPartConcat(v, t);
    DotsConcat(v + t, w);
    DotsConcat(v, t);
    assert "" + t + "" == t;
  }

  /** A tenant passes the sanitiser unchanged. */
  lemma TenantIsFixed(t: GoString)
    requires IsTenant(t)
    ensures Sanitized(t) == t
  {
    hide *;
    assert Blank("") by { EmptyIsBlank(); }
    SanitizedAroundTenant("", t, "");
    assert "" + t + "" == t;
  }

  lemma EmptyIsBlank()
    ensures Blank("")
  {
  }

  lemma SanitizerIdempotent(s: GoString)
    ensures Sanitized(Sanitized(s)) == Sanitized(s)
  {
    if Sanitized(s) != "" {
      TenantIsFixed(Sanitized(s));
    } else {
      SanitizerOnDotFree("");
      assert Without("", DROPPED) == "" && TrimSpace("") == "";
    }
  }

  // ---------------------------------------------------------------- when dots disappear

  /** Every run of dots has even length; `odd` is the parity of the run in progress. */
  predicate EvenRuns(s: GoString, odd: bool) {
    if s == "" then !odd
    else if s[0] == '.' then EvenRuns(s[1..], !odd)
    else !odd && EvenRuns(s[1..], false)
  }

  /** One scan that decides whether the two dot passes leave no dot: a slash after two dots of
      its own (`run`) vanishes and lets the run go on, anything else ends it. */
  predicate DotsCancel(s: GoString, run: nat, odd: bool) {
    if s == "" then !odd
    else if s[0] == '.' then DotsCancel(s[1..], run + 1, !odd)
    else if s[0] == '/' && run >= 2 then DotsCancel(s[1..], 0, odd)
    else !odd && DotsCancel(s[1..], 0, false)
  }

  lemma {:induction false} PairsVanish(s: GoString)
    ensures '.' !in ReplaceAll(s, "..", "") <==> EvenRuns(s, false)
    decreases |s|
  {
    if s != "" {
      hide ReplaceAll;
      ReplaceAllStep(s, "..", "");
      if ".." <= s {
        PairsVanish(s[2..]);
        assert s[1..][1..] == s[2..] && s[1] == '.';
        assert "" + ReplaceAll(s[2..], "..", "") == ReplaceAll(s[2..], "..", "");
      } else {
        PairsVanish(s[1..]);
        assert |s| > 1 && s[0] == '.' ==> s[..2] == [s[0], s[1]] && s[1] != '.';
      }
    } else {
      assert ReplaceAll(s, "..", "") == "";
    }
  }

  /** The length of the run of dots at the front. */
  function LeadingDots(s: GoString): (n: nat)
    ensures n <= |s| && (n < |s| ==> s[n] != '.')
    ensures forall i :: 0 <= i < n ==> s[i] == '.'
  {
    if s != "" && s[0] == '.' then 1 + LeadingDots(s[1..]) else 0
  }

  lemma {:induction false} EvenRunsOverDots(s: GoString, n: nat, odd: bool)
    requires n <= |s| && forall i :: 0 <= i < n ==> s[i] == '.'
    ensures EvenRuns(s, odd) == EvenRuns(s[n..], odd != (n % 2 == 1))
  {
    if n == 0 {
      assert s[0..] == s;
    } else {
      EvenRunsOverDots(s[1..], n - 1, !odd);
      assert s[1..][n - 1..] == s[n..];
    }
  }

  lemma {:induction false} DotsCancelOverDots(s: GoString, n: nat, run: nat, odd: bool)
    requires n <= |s| && forall i :: 0 <= i < n ==> s[i] == '.'
    ensures DotsCancel(s, run, odd) == DotsCancel(s[n..], run + n, odd != (n % 2 == 1))
  {
    if n == 0 {
      assert s[0..] == s;
    } else {
      DotsCancelOverDots(s[1..], n - 1, run + 1, !odd);
      assert s[1..][n - 1..] == s[n..];
    }
  }

  /** What removing `../` does to a run of `n` dots: it takes the last two, with the slash. */
  lemma {:induction false} ParentPassOverDots(s: GoString, n: nat)
    requires n <= |s| && forall i :: 0 <= i < n ==> s[i] == '.'
    requires n < |s| ==> s[n] != '.'
    ensures ReplaceAll(s, "../", "") ==
            if n >= 2 && n < |s| && s[n] == '/' then s[..n - 2] + ReplaceAll(s[n + 1..], "../", "")
            else s[..n] + ReplaceAll(s[n..], "../", "")
  {
    hide *;
    var gone := n >= 2 && n < |s| && s[n] == '/';
    if n == 0 {
      assert s[0..] == s;
      assert "" + ReplaceAll(s, "../", "") == ReplaceAll(s, "../", "");
    } else {
      ReplaceAllStep(s, "../", "");
      if n == 2 && gone {
        assert s[..3] == "../";
        assert s[..0] == "";
      } else {
        assert "../" <= s ==> s[1] == "../"[1] && s[2] == "../"[2];
        ParentPassOverDots(s[1..], n - 1);
        assert s[1..][n - 1..] == s[n..];
        if gone {
          assert s[1..][n..] == s[n + 1..];
          assert s[..n - 2] == [s[0]] + s[1..][..n - 3];
        } else {
          assert s[..n] == [s[0]] + s[1..][..n - 1];
        }
      }
    }
  }

  lemma {:induction false} ParentPassEvenRuns(s: GoString, odd: bool)
    ensures EvenRuns(ReplaceAll(s, "../", ""), odd) == DotsCancel(s, 0, odd)
    decreases |s|
  {
    hide ReplaceAll, LeadingDots;
    var n := LeadingDots(s);
    var b, p := s[n..], odd != (n % 2 == 1);
    ParentPassOverDots(s, n);
    DotsCancelOverDots(s, n, 0, odd);
    var out := ReplaceAll(s, "../", "");
    if n >= 2 && n < |s| && s[n] == '/' {
      var rest := ReplaceAll(s[n + 1..], "../", "");
      EvenRunsOverDots(out, n - 2, odd);
      assert out[n - 2..] == rest;
      ParentPassEvenRuns(s[n + 1..], p);
      assert b[1..] == s[n + 1..];
    } else {
      var rest := ReplaceAll(b, "../", "");
      EvenRunsOverDots(out, n, odd);
      assert out[n..] == rest;
      if b == "" {
        ReplaceAllEmpty("../");
      } else {
        ReplaceAllStep(b, "../", "");
        assert "../"[0] == '.';
        ParentPassEvenRuns(b[1..], false);
        assert rest[1..] == ReplaceAll(b[1..], "../", "");
      }
    }
  }

  lemma ReplaceAllEmpty(old_: GoString)
    requires old_ != ""
    ensures ReplaceAll("", old_, "") == ""
  {
  }

  lemma {:induction false} DotPassIsDeletion(s: GoString, old_: GoString, drop: set<char>)
    requires old_ == ".." || old_ == "../"
    requires '.' in drop && '/' in drop
    ensures Without(ReplaceAll(s, old_, ""), drop) == Without(s, drop)
    decreases |s|
  {
    hide *;
    if s == "" {
      ReplaceAllEmpty(old_);
    } else {
      ReplaceAllStep(s, old_, "");
      if old_ <= s {
        var rest := s[|old_|..];
        DotPassIsDeletion(rest, old_, drop);
        WithoutConcat(old_, rest, drop);
        WithoutAll(old_, drop);
        assert "" + Without(rest, drop) == Without(rest, drop);
        assert "" + ReplaceAll(rest, old_, "") == ReplaceAll(rest, old_, "");
      } else {
        DotPassIsDeletion(s[1..], old_, drop);
        WithoutConcat([s[0]], s[1..], drop);
        WithoutConcat([s[0]], ReplaceAll(s[1..], old_, ""), drop);
      }
    }
  }

  lemma {:induction false} WithoutAll(s: GoString, drop: set<char>)
    requires forall c :: c in s ==> c in drop
    ensures Without(s, drop) == ""
  {
    if s != "" {
      WithoutAll(s[1..], drop);
    }
  }

  lemma ScrubbedWithDots(s: GoString)
    requires '.' !in Scrubbed(s)
    ensures Scrubbed(s) == Without(s, DROPPED + {'.'})
  {
    hide *;
    var d: set<char> := {'/', '\\', ' ', '\t', '\n', '\r'};
    var a := Without(s, {'+', '#'});
    var b := ReplaceAll(a, "../", "");
    assert Scrubbed(s) == Without(DotPasses(a), d) by { ScrubbedInThreeParts(s); }
    assert DotPasses(a) == ReplaceAll(b, "..", "") by { DotPassesUnfold(a); }
    WithoutNothing(Scrubbed(s), {'.'});
    WithoutTwice(DotPasses(a), d, {'.'});
    DotPassIsDeletion(b, "..", d + {'.'});
    DotPassIsDeletion(a, "../", d + {'.'});
    WithoutTwice(s, {'+', '#'}, d + {'.'});
    assert {'+', '#'} + (d + {'.'}) == DROPPED + {'.'} by { DroppedNotAllowed(); }
  }

  lemma DotsAllCancel(s: GoString)
    ensures '.' !in Scrubbed(s) <==> DotsCancel(Without(s, {'+', '#'}), 0, false)
  {
    var a, c := Without(s, {'+', '#'}), Scrubbed(s);
    ScrubbedInThreeParts(s);
    ParentPassEvenRuns(a, false);
    PairsVanish(ReplaceAll(a, "../", ""));
  }

  lemma TrimKeepsDot(c: GoString)
    requires '.' in c
    ensures AcceptTenant(TrimSpace(c)) == ""
  {
    hide TrimSpace, Blank;
    var v, w := TrimSpaceSplits(c);
    BlankHasNothing(v);
    BlankHasNothing(w);
    assert '.' in TrimSpace(c);
  }

  /** The sanitiser on every input, as one scan and one deletion pass. */
  lemma SanitizerExactly(s: GoString)
    ensures Sanitized(s) == if DotsCancel(Without(s, {'+', '#'}), 0, false)
                            then AcceptTenant(TrimSpace(Without(s, {'+', '#', '.', '/', '\\', ' ', '\t', '\n', '\r'})))
                            else ""
  {
    hide Scrubbed, TrimSpace, AcceptTenant, DotsCancel, Without;
    assert {'+', '#', '.', '/', '\\', ' ', '\t', '\n', '\r'} == DROPPED + {'.'};
    DotsAllCancel(s);
    if '.' !in Scrubbed(s) {
      ScrubbedWithDots(s);
    } else {
      TrimKeepsDot(Scrubbed(s));
    }
  }

  // ---------------------------------------------------------------- the two parsers agree

  /** A host is its label, a dot and a tail, unless there is no label. */
  lemma HostLabelOf(x: GoString, tail: GoString)
    requires ':' !in x && '.' !in x
    ensures HostLabel(x + "." + tail) == x
  {
    var host := x + "." + tail;
    var rest := Before(tail, ':');
    assert Before(host, ':') == x + "." + rest by {
      BeforeConcat(x + ".", ':', tail);
    }
    BeforeOfPrefix(x, '.', rest);
  }

  lemma {:induction false} BeforeConcat(a: GoString, c: char, b: GoString)
    requires c !in a
    ensures Before(a + b, c) == a + Before(b, c)
  {
    if a == "" {
      assert a + b == b;
    } else {
      assert (a + b)[1..] == a[1..] + b;
      BeforeConcat(a[1..], c, b);
    }
  }

  /** What either handler takes for the tenant's part: all before the first dot, if no colon comes
      first; a port, white space or further labels behind it do not matter. */
  lemma HostLabelExactly(host: GoString, x: GoString)
    requires x != ""
    ensures HostLabel(host) == x <==> '.' !in x && ':' !in x && exists tail :: host == x + "." + tail
  {
    hide HostLabel;
    if HostLabel(host) == x {
      var tail := HostLabelTail(host);
    }
    if tail :| '.' !in x && ':' !in x && host == x + "." + tail {
      HostLabelOf(x, tail);
    }
  }

  /** Up to 64 letters, digits, hyphens and underscores. */
  lemma TenantsSpelled(t: GoString)
    ensures IsTenant(t) <==>
              && 0 < |t| < 65
              && forall i :: 0 <= i < |t| ==> ('a' <= t[i] <= 'z' || 'A' <= t[i] <= 'Z' || '0' <= t[i] <= '9'
                                               || t[i] in "-_")
  {
    assert forall i :: 0 <= i < |t| ==> t[i] in t;
    assert forall c :: c in "-_" <==> c == '-' || c == '_';
  }

  lemma HostLabelTail(host: GoString) returns (tail: GoString)
    requires HostLabel(host) != ""
    ensures host == HostLabel(host) + "." + tail
    ensures ':' !in HostLabel(host) && '.' !in HostLabel(host)
  {
    var name, x := Before(host, ':'), HostLabel(host);
    assert name[|x|] == '.' && host[|x|] == '.';
    tail := host[|x| + 1..];
  }

  /** Deleting single bytes turns white space into white space. */
  lemma {:induction false} WithoutBlank(w: GoString, drop: set<char>)
    requires Blank(w) && forall c :: c in drop ==> Ascii(c)
    ensures Blank(Without(w, drop))
  {
    if w != "" {
      var n := DecodeRune(w).width;
      var rest := Without(w[n..], drop);
      WithoutBlank(w[n..], drop);
      WithoutConcat(w[..n], w[n..], drop);
      assert w == w[..n] + w[n..];
      if w[0] in drop {
        assert Without(w[..n], drop) == "";
        assert Without(w, drop) == rest;
      } else {
        assert forall c :: c in w[..n] ==> c !in drop;
        WithoutNothing(w[..n], drop);
        BlankCons(w, rest);
      }
    }
  }

  lemma TenantEnds(t: GoString)
    requires IsTenant(t)
    ensures t != "" && Trimmed(t) && !IsSpace(t[0]) && Ascii(t[0])
    ensures '.' !in t && ':' !in t
  {
    assert Allowed(t[0]) && Allowed(t[|t| - 1]);
    AsciiEnds(t);
  }

  lemma SanitizedAroundTenant(v: GoString, t: GoString, w: GoString)
    requires Blank(v) && Blank(w) && IsTenant(t)
    ensures Sanitized(v + t + w) == t && TrimSpace(v + t + w) == t
  {
    hide *;
    TenantEnds(t);
    BlankHasNothing(v);
    BlankHasNothing(w);
    DroppedAscii(t);
    TrimSpaceAround(v, t, w);
    WithoutConcat(v + t, w, DROPPED);
    WithoutConcat(v, t, DROPPED);
    WithoutNothing(t, DROPPED);
    WithoutBlank(v, DROPPED);
    WithoutBlank(w, DROPPED);
    TrimSpaceAround(Without(v, DROPPED), t, Without(w, DROPPED));
    OnePassAccepts(v + t + w, t);
  }

  lemma DroppedAscii(t: GoString)
    requires IsTenant(t)
    ensures forall c :: c in DROPPED ==> Ascii(c) && c !in t
  {
  }

  lemma OnePassAccepts(s: GoString, t: GoString)
    requires '.' !in s && IsTenant(t) && TrimSpace(Without(s, DROPPED)) == t
    ensures Sanitized(s) == t
  {
    hide Sanitized, TrimSpace, Without;
    SanitizerOnDotFree(s);
  }

  lemma ApiImpliesLoRaWan(host: GoString)
    requires ApiTenant(host) != ""
    ensures LoRaWanTenant(host) == ApiTenant(host) == TrimSpace(HostLabel(host))
  {
    hide TrimSpace, HostLabel, Sanitized, Blank;
    var t := ApiTenant(host);
    var h := TrimSpace(host);
    var x := HostLabel(h);
    var v, w := TrimSpaceSplits(host);
    var v1, w1 := TrimSpaceSplits(x);
    var tail := HostLabelTail(h);
    BlankHasNothing(v);
    assert host == (v + x) + "." + (tail + w);
    HostLabelOf(v + x, tail + w);
    BlankConcat(v, v1);
    assert v + x == (v + v1) + t + w1;
    SanitizedAroundTenant(v + v1, t, w1);
  }

  /** Trimming white space off the end of a host never gets past its last dot. */
  lemma TrimRightKeepsDot(x: GoString, tail: GoString) returns (rest: GoString)
    ensures TrimRight(x + "." + tail) == x + "." + rest
  {
    hide *;
    var s := x + "." + tail;
    var u := TrimRightSplits(s);
    var h := TrimRight(s);
    assert s == h + u && s[|x|] == '.';
    assert |h| <= |x| ==> s[|x|] == u[|x| - |h|];
    BlankHasNothing(u);
    rest := h[|x| + 1..];
    assert h == s[..|h|];
  }

  lemma TrimmedHost(v: GoString, t: GoString, w: GoString, tail: GoString)
    requires Blank(v) && Blank(w) && IsTenant(t)
    ensures HostLabel(TrimSpace(v + t + w + "." + tail)) == t + w
  {
    hide *;
    TenantEnds(t);
    BlankHasNothing(w);
    var h := (t + w) + "." + tail;
    assert v + t + w + "." + tail == v + h;
    TrimLeftBlank(v, h);
    assert h[0] == t[0];
    TrimLeftStops(h);
    var rest := TrimRightKeepsDot(t + w, tail);
    TrimSpaceUnfold(v + h);
    HostLabelOf(t + w, rest);
  }

  lemma LoRaWanImpliesApi(host: GoString, t: GoString)
    requires t != "" && LoRaWanTenant(host) == t && TrimSpace(HostLabel(host)) == t
    ensures ApiTenant(host) == t
  {
    hide Sanitized, TrimSpace, HostLabel, Blank;
    assert IsTenant(t) by { SanitizedIsTenant(HostLabel(host)); }
    var x := HostLabel(host);
    TrimSpaceEmpty();
    var tail := HostLabelTail(host);
    var v, w := TrimSpaceSplits(x);
    assert host == v + t + w + "." + tail;
    TrimmedHost(v, t, w, tail);
    EmptyIsBlank();
    SanitizedAroundTenant("", t, w);
    assert "" + t + w == t + w;
  }

  /** Both read a label that is a tenant between white space. */
  lemma TrimmedLabelIsTenant(host: GoString)
    requires IsTenant(TrimSpace(HostLabel(host)))
    ensures LoRaWanTenant(host) == ApiTenant(host) == TrimSpace(HostLabel(host))
  {
    hide *;
    var x, t := HostLabel(host), TrimSpace(HostLabel(host));
    var v, w := TrimSpaceSplits(x);
    SanitizedAroundTenant(v, t, w);
    LoRaWanUnfold(host);
    TenantEnds(t);
    LoRaWanImpliesApi(host, t);
  }

  lemma LoRaWanUnfold(host: GoString)
    ensures LoRaWanTenant(host) == Sanitized(HostLabel(host))
  {
  }

  /** The API handler accepts a host exactly if its first label is a tenant between white space,
      wherever ports and further labels stand; the tenant is the one the LoRaWAN handler reads. */
  lemma ParsersAgree(host: GoString)
    ensures ApiTenant(host) == if IsTenant(TrimSpace(HostLabel(host))) then TrimSpace(HostLabel(host)) else ""
    ensures ApiTenant(host) != "" ==> LoRaWanTenant(host) == ApiTenant(host)
    ensures LoRaWanTenant(host) != "" ==>
              (ApiTenant(host) == LoRaWanTenant(host) <==> IsTenant(TrimSpace(HostLabel(host))))
  {
    hide *;
    if ApiTenant(host) != "" {
      ApiImpliesLoRaWan(host);
      LoRaWanUnfold(host);
      SanitizedIsTenant(HostLabel(host));
    }
    if IsTenant(TrimSpace(HostLabel(host))) {
      TrimmedLabelIsTenant(host);
      TenantEnds(TrimSpace(HostLabel(host)));
    }
  }

  lemma SanitizedIsTenant(s: GoString)
    ensures Sanitized(s) != "" ==> IsTenant(Sanitized(s))
  {
    hide Scrubbed, TrimSpace;
  }

  lemma TrimSpaceIdle(s: GoString)
    requires Trimmed(s)
    ensures TrimSpace(s) == s
  {
    hide *;
    EmptyIsBlank();
    TrimSpaceAround("", s, "");
    assert "" + s + "" == s;
  }

  /** The LoRaWAN handler repairs hosts that the API handler turns away. */
  lemma LoRaWanAcceptsMore()
    ensures LoRaWanTenant("a+b.x") == "ab" && ApiTenant("a+b.x") == ""
  {
    hide TrimSpace, HostLabel, Sanitized, Without;
    assert HostLabel("a+b.x") == "a+b" by {
      HostLabelOf("a+b", "x");
      assert "a+b.x" == "a+b" + "." + "x";
    }
    RepairedLabel();
    AsciiEnds("ab");
    AsciiEnds("a+b");
    TrimSpaceIdle("ab");
    TrimSpaceIdle("a+b");
    OnePassAccepts("a+b", "ab");
    assert ApiTenant("a+b.x") != "" ==> ApiTenant("a+b.x") == "a+b" by {
      if ApiTenant("a+b.x") != "" { ApiImpliesLoRaWan("a+b.x"); }
    }
    assert '+' in "a+b" && !Allowed('+');
  }

  lemma RepairedLabel()
    ensures Without("a+b", DROPPED) == "ab"
  {
    assert "a+b"[1..] == "+b" && "+b"[1..] == "b" && "b"[1..] == "";
  }
}
