/** The string operations used on addresses: splitting, joining, decimal numbers. */
module Text {
  import opened Wrappers

  // ----- splitting and joining -----

  function Split(s: string, sep: char): (parts: seq<string>)
    ensures |parts| >= 1
  {
    if s == "" then [""]
    else if s[0] == sep then [""] + Split(s[1..], sep)
    else
      var rest := Split(s[1..], sep);
      [[s[0]] + rest[0]] + rest[1..]
  }

  function Join(parts: seq<string>, sep: char): string {
    if parts == [] then ""
    else if |parts| == 1 then parts[0]
    else parts[0] + [sep] + Join(parts[1..], sep)
  }

  ghost predicate FreeOf(parts: seq<string>, sep: char) {
    forall i :: 0 <= i < |parts| ==> sep !in parts[i]
  }

  lemma {:induction false} SplitCons(p: string, rest: string, sep: char)
    requires sep !in p
    ensures Split(p + [sep] + rest, sep) == [p] + Split(rest, sep)
  {
    var s := p + [sep] + rest;
    if p == "" {
      assert s[1..] == rest;
    } else {
      SplitCons(p[1..], rest, sep);
      assert s[1..] == p[1..] + [sep] + rest;
      assert [s[0]] + p[1..] == p;
    }
  }

  lemma {:induction false} SplitWhole(p: string, sep: char)
    requires sep !in p
    ensures Split(p, sep) == [p]
  {
    if p != "" {
      SplitWhole(p[1..], sep);
      assert [p[0]] + p[1..] == p;
    }
  }

  /** Splitting undoes joining. */
  lemma {:induction false} SplitJoin(parts: seq<string>, sep: char)
    requires parts != [] && FreeOf(parts, sep)
    ensures Split(Join(parts, sep), sep) == parts
  {
    if |parts| == 1 {
      SplitWhole(parts[0], sep);
    } else {
      assert FreeOf(parts[1..], sep);
      SplitJoin(parts[1..], sep);
      SplitCons(parts[0], Join(parts[1..], sep), sep);
      assert [parts[0]] + parts[1..] == parts;
    }
  }

  /** Joining undoes splitting. */
  lemma {:induction false} JoinSplit(s: string, sep: char)
    ensures Join(Split(s, sep), sep) == s
  {
    if s != "" {
      JoinSplit(s[1..], sep);
      var rest := Split(s[1..], sep);
      var parts := Split(s, sep);
      assert parts[1..] == if s[0] == sep then rest else rest[1..];
      if s[0] != sep && |rest| > 1 {
        assert Join(parts, sep) == [s[0]] + (rest[0] + [sep] + Join(rest[1..], sep));
      }
      assert [s[0]] + s[1..] == s;
    }
  }

  // ----- decimal numbers -----

  function Digit(n: nat): char
    requires n < 10
  {
    '0' + n as char
  }

  predicate IsDigit(c: char) { '0' <= c <= '9' }

  predicate AllDigits(s: string) { forall i :: 0 <= i < |s| ==> IsDigit(s[i]) }

  function Print(n: nat): (s: string)
    ensures s != "" && AllDigits(s)
  {
    if n < 10 then [Digit(n)] else Print(n / 10) + [Digit(n % 10)]
  }

  /** The value of a string of digits. */
  function Value(s: string): nat
    requires AllDigits(s)
  {
    if s == "" then 0 else Value(s[..|s| - 1]) * 10 + (s[|s| - 1] - '0') as nat
  }

  lemma {:induction false} ValuePrint(n: nat)
    ensures Value(Print(n)) == n
    ensures n > 0 ==> Print(n)[0] != '0'
    ensures n < 10 ==> |Print(n)| == 1
    ensures n >= 10 ==> |Print(n)| == 1 + |Print(n / 10)|
  {
    if n >= 10 {
      ValuePrint(n / 10);
      var s := Print(n);
      assert s[..|s| - 1] == Print(n / 10);
    }
  }

  /** A digit string without a leading zero is the decimal form of its value. */
  lemma {:induction false} PrintValue(s: string)
    requires s != "" && AllDigits(s)
    requires |s| == 1 || s[0] != '0'
    ensures Print(Value(s)) == s
    ensures |s| > 1 ==> Value(s) >= 10
  {
    var init, last := s[..|s| - 1], (s[|s| - 1] - '0') as nat;
    assert s == init + [Digit(last)];
    if |s| == 1 {
      assert init == "" && Value(init) == 0;
    } else {
      PrintValue(init);
      if |init| == 1 {
        assert init[..0] == "";
        assert Value(init) == (init[0] - '0') as nat;
      }
      assert Value(s) / 10 == Value(init) && Value(s) % 10 == last;
    }
  }

  lemma PrintInjective(m: nat, n: nat)
    requires Print(m) == Print(n)
    ensures m == n
  {
    ValuePrint(m);
    ValuePrint(n);
  }

  /** `str::parse::<u32>`: an optional plus sign, then digits, within 32 bits. */
  function ParseU32(s: string): (r: Option<nat>) {
    var digits := if s != "" && s[0] == '+' then s[1..] else s;
    if digits == "" || !AllDigits(digits) || Value(digits) >= 0x1_0000_0000 then None
    else Some(Value(digits))
  }

  lemma ParsePrintU32(n: nat)
    requires n < 0x1_0000_0000
    ensures ParseU32(Print(n)) == Some(n)
  {
    ValuePrint(n);
    assert IsDigit(Print(n)[0]);
  }

  // ----- dotted quads -----

  type Octet = n: int | 0 <= n < 256

  datatype Quad = Quad(a: Octet, b: Octet, c: Octet, d: Octet) {
    function Parts(): seq<string> { [Print(a), Print(b), Print(c), Print(d)] }

    /** `Ipv4Addr::to_string`. */
    function Show(): string { Join(Parts(), '.') }
  }

  /** One octet as `Ipv4Addr::from_str` reads it: 1 to 3 digits, no leading zero. */
  function ParseOctet(s: string): (r: Option<Octet>) {
    if 1 <= |s| <= 3 && AllDigits(s) && (|s| == 1 || s[0] != '0') && Value(s) < 256
    then Some(Value(s)) else None
  }

  /** `Ipv4Addr::from_str`. */
  function ParseQuad(s: string): (r: Option<Quad>) {
    var parts := Split(s, '.');
    if |parts| != 4 then None
    else match (ParseOctet(parts[0]), ParseOctet(parts[1]), ParseOctet(parts[2]), ParseOctet(parts[3]))
      case (Some(a), Some(b), Some(c), Some(d)) => Some(Quad(a, b, c, d))
      case _ => None
  }

  lemma ParsePrintOctet(n: Octet)
    ensures ParseOctet(Print(n)) == Some(n)
  {
    ValuePrint(n);
    if n >= 10 {
      ValuePrint(n / 10);
      if n >= 100 { ValuePrint(n / 100); }
    }
  }

  lemma PartsFreeOfDots(q: Quad)
    ensures FreeOf(q.Parts(), '.')
  {
    forall n: nat, i | 0 <= i < |Print(n)| ensures Print(n)[i] != '.' { assert IsDigit(Print(n)[i]); }
  }

  /** Printing and parsing dotted quads are inverse in both directions. */
  lemma ParseShowQuad(q: Quad)
    ensures ParseQuad(q.Show()) == Some(q)
  {
    PartsFreeOfDots(q);
    SplitJoin(q.Parts(), '.');
    ParsePrintOctet(q.a);
    ParsePrintOctet(q.b);
    ParsePrintOctet(q.c);
    ParsePrintOctet(q.d);
  }

  lemma ShowParseQuad(s: string)
    requires ParseQuad(s).Some?
    ensures ParseQuad(s).value.Show() == s
  {
    var parts := Split(s, '.');
    JoinSplit(s, '.');
    forall i | 0 <= i < 4 ensures Print(Value(parts[i])) == parts[i] { PrintValue(parts[i]); }
    assert ParseQuad(s).value.Parts() == parts;
  }
}
