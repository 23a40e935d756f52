/** The identifiers of tracked connections: a prefix, the time in nanoseconds, `_` and the
    remote address. */
module ConnectionIds {
  import opened GoStrings

  function Digit(d: nat): char
    requires d < 10
  {
    '0' + d as char
  }

  /** fmt's %d for a number that is not negative. */
  function Digits(n: nat): (s: string)
    ensures s != "" && forall c :: c in s ==> '0' <= c <= '9'
  {
    if n < 10 then [Digit(n)] else Digits(n / 10) + [Digit(n % 10)]
  }

  /** fmt's %d. */
  function Decimal(i: int): (s: string)
    ensures '_' !in s && s != ""
  {
    if i < 0 then "-" + Digits(-i) else Digits(i)
  }

  /** fmt.Sprintf("<prefix>%d_%s", nanos, address). */
  function ConnectionId(prefix: string, nanos: int, address: string): string {
    prefix + Decimal(nanos) + "_" + address
  }

  // ---------------------------------------------------------------- reading it back

  function ParseDigits(s: string): int {
    if s == "" then 0 else 10 * ParseDigits(s[..|s| - 1]) + (s[|s| - 1] as int - '0' as int)
  }

  function ParseDecimal(s: string): int {
    if s != "" && s[0] == '-' then -ParseDigits(s[1..]) else ParseDigits(s)
  }

  function ParseId(prefix: string, id: string): (int, string)
    requires prefix <= id
  {
    var body := id[|prefix|..];
    var number := Before(body, '_');
    (ParseDecimal(number), if |number| < |body| then body[|number| + 1..] else "")
  }

  lemma {:induction false} DigitsParse(n: nat)
    ensures ParseDigits(Digits(n)) == n
  {
    if n >= 10 {
      DigitsParse(n / 10);
      assert Digits(n)[..|Digits(n)| - 1] == Digits(n / 10);
    } else {
      assert Digits(n)[..0] == "";
    }
  }

  lemma DecimalParses(i: int)
    ensures ParseDecimal(Decimal(i)) == i
  {
    if i < 0 {
      DigitsParse(-i);
      assert ("-" + Digits(-i))[1..] == Digits(-i);
    } else {
      DigitsParse(i);
      assert Digits(i)[0] in Digits(i);
    }
  }

  /** An identifier is parsed uniquely, whatever the address contains. */
  lemma IdParses(prefix: string, nanos: int, address: string)
    ensures prefix <= ConnectionId(prefix, nanos, address)
    ensures ParseId(prefix, ConnectionId(prefix, nanos, address)) == (nanos, address)
  {
    var body := Decimal(nanos) + "_" + address;
    assert ConnectionId(prefix, nanos, address) == prefix + body;
    BeforeOfPrefix(Decimal(nanos), '_', address);
    DecimalParses(nanos);
  }

  /** Connections that differ in time or address differ in identifier. */
  lemma IdInjective(prefix: string, t: int, a: string, u: int, b: string)
    requires ConnectionId(prefix, t, a) == ConnectionId(prefix, u, b)
    ensures t == u && a == b
  {
    hide *;
    IdParses(prefix, t, a);
    IdParses(prefix, u, b);
  }
}
