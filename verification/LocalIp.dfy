/** The local-request test of `net/ip.rs`: a string-prefix test standing in for CIDR membership. */
module LocalIp {
  import opened Wrappers
  import opened Text

  predicate IsSpace(c: char) { c == ' ' || '\t' <= c <= '\r' }

  function TrimStart(s: string): string {
    if s != "" && IsSpace(s[0]) then TrimStart(s[1..]) else s
  }

  function TrimEnd(s: string): string {
    if s != "" && IsSpace(s[|s| - 1]) then TrimEnd(s[..|s| - 1]) else s
  }

  const MAPPED_PREFIX := "::ffff:"

  function SanitizeIpv4(ip: string): string {
    var trimmed := TrimEnd(TrimStart(ip));
    var stripped := if MAPPED_PREFIX <= trimmed then trimmed[|MAPPED_PREFIX|..] else trimmed;
    if stripped == "::1" then "127.0.0.1" else stripped
  }

  function SubnetPrefix(cidr: string): string {
    var parts := Split(cidr, '/');
    NetworkPrefix(parts[0], if |parts| > 1 then ParseU32(parts[1]).GetOr(16) else 16)
  }

  function NetworkPrefix(ip: string, maskBits: nat): string {
    var octets := Split(ip, '.');
    var significant := maskBits / 8;
    var prefix := if significant < |octets| then octets[..significant] else octets;
    if prefix == [] then "" else Join(prefix, '.') + "."
  }

  predicate IsLocalIp(ip: string, internalSubnet: string, externalSubnet: string) {
    var sanitized := SanitizeIpv4(ip);
    || sanitized == "127.0.0.1" || sanitized == "localhost" || sanitized == "::1"
    || SubnetPrefix(internalSubnet) <= sanitized
    || SubnetPrefix(externalSubnet) <= sanitized
  }

  // ----- sanitizing any text -----

  predicate AllSpaces(s: string) { forall i :: 0 <= i < |s| ==> IsSpace(s[i]) }

  predicate Bare(s: string) { s != "" ==> !IsSpace(s[0]) && !IsSpace(s[|s| - 1]) }

  lemma {:induction false} TrimStartSkips(spaces: string, core: string)
    requires AllSpaces(spaces) && (core != "" ==> !IsSpace(core[0]))
    ensures TrimStart(spaces + core) == core
  {
    if spaces == "" {
      assert spaces + core == core;
    } else {
      assert (spaces + core)[1..] == spaces[1..] + core;
      TrimStartSkips(spaces[1..], core);
    }
  }

  lemma {:induction false} TrimEndSkips(core: string, spaces: string)
    requires AllSpaces(spaces) && (core != "" ==> !IsSpace(core[|core| - 1]))
    ensures TrimEnd(core + spaces) == core
    decreases |spaces|
  {
    if spaces == "" {
      assert core + spaces == core;
    } else {
      var n := |spaces| - 1;
      assert (core + spaces)[..|core + spaces| - 1] == core + spaces[..n];
      TrimEndSkips(core, spaces[..n]);
    }
  }

  /** White space around an address does not count; the IPv4-mapped prefix goes; IPv6 loopback becomes the
      IPv4 one; everything else stays. */
  lemma SanitizeMeaning(before: string, core: string, after: string)
    requires AllSpaces(before) && AllSpaces(after) && Bare(core) && core != ""
    ensures var s := SanitizeIpv4(before + core + after);
            if core == "::1" || core == "::ffff:::1" then s == "127.0.0.1"
            else if "::ffff:" <= core then "::ffff:" + s == core
            else s == core
  {
    assert before + core + after == before + (core + after);
    assert (core + after)[0] == core[0];
    TrimStartSkips(before, core + after);
    TrimEndSkips(core, after);
    assert "::ffff:::1"[7..] == "::1";
    assert "::ffff:" <= core ==> core == "::ffff:" + core[7..];
  }

  lemma MaskIsSplitOff(net: string, mask: string)
    requires (forall i :: 0 <= i < |net| ==> net[i] != '/') && (forall i :: 0 <= i < |mask| ==> mask[i] != '/')
    ensures Split(net, '/') == [net] && Split(net + "/" + mask, '/') == [net, mask]
  {
    SplitJoin([net], '/');
    SplitJoin([net, mask], '/');
    assert Join([net], '/') == net && Join([net, mask], '/') == net + "/" + mask;
  }

  /** A subnet without a readable mask counts as a /16. */
  lemma UnreadableMaskIs16(net: string, mask: string)
    requires (forall i :: 0 <= i < |net| ==> net[i] != '/') && (forall i :: 0 <= i < |mask| ==> mask[i] != '/')
    requires ParseU32(mask).None?
    ensures SubnetPrefix(net) == SubnetPrefix(net + "/16")
            && SubnetPrefix(net + "/" + mask) == SubnetPrefix(net + "/16")
  {
    SixteenIsReadable();
    MaskIsSplitOff(net, mask);
    MaskIsSplitOff(net, "16");
    assert net + "/" + "16" == net + "/16";
    hide Split, NetworkPrefix, ParseU32;
  }

  lemma SixteenIsReadable()
    ensures ParseU32("16") == Some(16)
  {
    assert Print(16) == "16" by { assert Print(1) == "1"; }
    ParsePrintU32(16);
  }

  // ----- the numeric reference -----

  function Pow2(n: nat): (p: nat)
    ensures p > 0
  {
    if n == 0 then 1 else 2 * Pow2(n - 1)
  }

  /** The address as a 32-bit number. */
  function Address(q: Quad): nat { ((q.a * 256 + q.b) * 256 + q.c) * 256 + q.d }

  /** CIDR membership: the first `mask` bits of the two addresses are equal. */
  ghost predicate InCidr(q: Quad, net: Quad, mask: nat)
    requires mask <= 32
  {
    Address(q) / Pow2(32 - mask) == Address(net) / Pow2(32 - mask)
  }

  function Cidr(net: Quad, mask: nat): string { net.Show() + "/" + Print(mask) }

  // ----- prefixes end at octet boundaries -----

  lemma {:induction false} DelimitedPrefix(p: string, x: string, r: string, y: string, sep: char)
    requires sep !in p && sep !in r
    ensures p + [sep] + x <= r + [sep] + y <==> p == r && x <= y
  {
    var s, t := p + [sep] + x, r + [sep] + y;
    if |p| < |r| { assert s[|p|] == sep && t[|p|] == r[|p|]; }
    if |r| < |p| { assert s[|r|] == p[|r|] && t[|r|] == sep; }
    if s <= t {
      forall i | 0 <= i < |p| ensures p[i] == r[i] { assert s[i] == t[i]; }
      assert x == s[|p| + 1..] && y == t[|p| + 1..];
    }
    if p == r && x <= y {
      assert t == s + y[|x|..];
    }
  }

  /** The dotted form of `r` starts with the first `k` parts of `p`, dot included, exactly when
      those parts agree; all of `p` followed by a dot never is such a prefix. */
  lemma {:induction false} DottedPrefix(p: seq<string>, r: seq<string>, k: nat)
    requires |p| == |r| && 1 <= k <= |p| && FreeOf(p, '.') && FreeOf(r, '.')
    ensures Join(p[..k], '.') + "." <= Join(r, '.') <==> k < |p| && p[..k] == r[..k]
  {
    if k == 1 {
      assert p[..1] == [p[0]] && r[..1] == [r[0]];
      if |p| == 1 {
        assert Join(p[..1], '.') + "." == p[0] + "." && Join(r, '.') == r[0];
        assert (p[0] + ".")[|p[0]|] == '.';
      } else {
        DelimitedPrefix(p[0], "", r[0], Join(r[1..], '.'), '.');
        assert p[0] + ['.'] + "" == p[0] + ".";
      }
    } else {
      assert p[..k][1..] == p[1..][..k - 1] && r[..k][1..] == r[1..][..k - 1];
      DottedPrefix(p[1..], r[1..], k - 1);
      DelimitedPrefix(p[0], Join(p[..k][1..], '.') + ".", r[0], Join(r[1..], '.'), '.');
      assert p[0] + ['.'] + (Join(p[..k][1..], '.') + ".") == Join(p[..k], '.') + ".";
      assert p[..k] == [p[0]] + p[..k][1..] && r[..k] == [r[0]] + r[..k][1..];
    }
  }

  ghost predicate SameOctets(q: Quad, net: Quad, k: nat) {
    && (k >= 1 ==> q.a == net.a) && (k >= 2 ==> q.b == net.b)
    && (k >= 3 ==> q.c == net.c) && (k >= 4 ==> q.d == net.d)
  }

  lemma SamePartsSameOctets(q: Quad, net: Quad, k: nat)
    requires k <= 4
    ensures net.Parts()[..k] == q.Parts()[..k] <==> SameOctets(q, net, k)
  {
    var p, r := net.Parts(), q.Parts();
    if p[..k] == r[..k] {
      assert forall i :: 0 <= i < k ==> p[i] == p[..k][i] && r[i] == r[..k][i];
      if k >= 1 { assert p[0] == r[0]; PrintInjective(net.a, q.a); }
      if k >= 2 { assert p[1] == r[1]; PrintInjective(net.b, q.b); }
      if k >= 3 { assert p[2] == r[2]; PrintInjective(net.c, q.c); }
      if k >= 4 { assert p[3] == r[3]; PrintInjective(net.d, q.d); }
    }
  }

  lemma CidrSplits(net: Quad, mask: nat)
    ensures Split(Cidr(net, mask), '/') == [net.Show(), Print(mask)]
  {
    var show := net.Show();
    forall i | 0 <= i < |show| ensures show[i] != '/' { ShowHasNoSlash(net.Parts(), i); }
    assert FreeOf([show, Print(mask)], '/') by {
      forall i | 0 <= i < |Print(mask)| ensures Print(mask)[i] != '/' { assert IsDigit(Print(mask)[i]); }
    }
    assert Join([show, Print(mask)], '/') == Cidr(net, mask);
    SplitJoin([show, Print(mask)], '/');
  }

  lemma CidrParts(net: Quad, mask: nat)
    requires mask <= 32
    ensures SubnetPrefix(Cidr(net, mask)) ==
            if mask < 8 then "" else Join(net.Parts()[..mask / 8], '.') + "."
  {
    CidrSplits(net, mask);
    ParsePrintU32(mask);
    hide Split, Print, ParseU32, Cidr;
    PartsFreeOfDots(net);
    SplitJoin(net.Parts(), '.');
    assert mask / 8 == 4 ==> net.Parts()[..4] == net.Parts();
  }

  lemma {:induction false} ShowHasNoSlash(parts: seq<string>, i: nat)
    requires forall k :: 0 <= k < |parts| ==> AllDigits(parts[k])
    requires i < |Join(parts, '.')|
    ensures Join(parts, '.')[i] == '.' || IsDigit(Join(parts, '.')[i])
  {
    if |parts| == 1 {
    } else if i > |parts[0]| {
      ShowHasNoSlash(parts[1..], i - |parts[0]| - 1);
    }
  }

  /** What the string test decides, for every mask: equality of the whole octets the mask
      covers, and nothing at all for a host route. */
  lemma PrefixTestMeaning(q: Quad, net: Quad, mask: nat)
    requires mask <= 32
    ensures SubnetPrefix(Cidr(net, mask)) <= q.Show() <==> mask < 32 && SameOctets(q, net, mask / 8)
  {
    CidrParts(net, mask);
    if mask >= 8 {
      PartsFreeOfDots(net);
      PartsFreeOfDots(q);
      DottedPrefix(net.Parts(), q.Parts(), mask / 8);
      SamePartsSameOctets(q, net, mask / 8);
    }
  }

  lemma PowersOfTwo()
    ensures Pow2(8) == 0x100 && Pow2(16) == 0x1_0000 && Pow2(24) == 0x100_0000 && Pow2(32) == 0x1_0000_0000
  {
    assert Pow2(4) == 16 && Pow2(12) == 16 * Pow2(8);
    assert Pow2(16) == 16 * Pow2(12) && Pow2(20) == 16 * Pow2(16);
    assert Pow2(24) == 16 * Pow2(20) && Pow2(28) == 16 * Pow2(24);
    assert Pow2(32) == 16 * Pow2(28);
  }

  lemma WholeOctetCidr(q: Quad, net: Quad, mask: nat)
    requires mask in {0, 8, 16, 24}
    ensures InCidr(q, net, mask) <==> SameOctets(q, net, mask / 8)
  {
    PowersOfTwo();
    LeadingOctets(q);
    LeadingOctets(net);
  }

  lemma LeadingOctets(q: Quad)
    ensures Address(q) / 0x1_0000_0000 == 0
    ensures Address(q) / 0x100_0000 == q.a
    ensures Address(q) / 0x1_0000 == q.a * 256 + q.b
    ensures Address(q) / 0x100 == (q.a * 256 + q.b) * 256 + q.c
  {
    QuotientUnique(Address(q), 0, Address(q), 0x1_0000_0000);
    QuotientUnique(Address(q), q.a, (q.b * 256 + q.c) * 256 + q.d, 0x100_0000);
    QuotientUnique(Address(q), q.a * 256 + q.b, q.c * 256 + q.d, 0x1_0000);
    QuotientUnique(Address(q), (q.a * 256 + q.b) * 256 + q.c, q.d, 0x100);
  }

  lemma {:induction false} Pow2Sum(m: nat, n: nat)
    ensures Pow2(m + n) == Pow2(m) * Pow2(n)
  {
    if m > 0 { Pow2Sum(m - 1, n); }
  }

  lemma ShiftedQuotient(v: nat, j: nat, b: nat)
    requires b > 0
    ensures (v + j * b) / b == v / b + j
  {
    var s := v + j * b;
    assert s == (v / b + j) * b + v % b;
    QuotientUnique(s, v / b + j, v % b, b);
  }

  lemma QuotientUnique(s: int, q: int, r: int, b: int)
    requires b > 0 && s == q * b + r && 0 <= r < b
    ensures s / b == q
  {
    var d := s / b - q;
    assert s == (s / b) * b + s % b;
    assert d * b == r - s % b;
    assert d >= 1 ==> d * b >= b;
    assert d <= -1 ==> d * b <= -b;
  }

  function Flip(o: Octet): Octet { if o < 128 then o + 128 else o - 128 }

  /** `net` with the highest bit of its octet number `k` flipped. */
  function FlipOctet(net: Quad, k: nat): Quad
    requires k < 4
  {
    match k
    case 0 => net.(a := Flip(net.a))
    case 1 => net.(b := Flip(net.b))
    case 2 => net.(c := Flip(net.c))
    case _ => net.(d := Flip(net.d))
  }

  lemma FlipDistance(net: Quad, k: nat)
    requires k < 4
    ensures var v, w := Address(net), Address(FlipOctet(net, k));
            v == w + Pow2(31 - 8 * k) || w == v + Pow2(31 - 8 * k)
  {
    PowersOfTwo();
    Pow2Sum(7, 24 - 8 * k);
    assert Pow2(7) == 128 by { assert Pow2(3) == 8; }
    match k case 0 => case 1 => case 2 => case 3 =>
  }

  lemma ShiftChangesQuotient(v: nat, w: nat, j: nat, b: nat)
    requires b > 0 && j > 0 && (w == v + j * b || v == w + j * b)
    ensures v / b != w / b
  {
    ShiftedQuotient(if v < w then v else w, j, b);
    assert j * b > 0;
  }

  /** A mask that ends inside octet `k` tells `net` from its flipped copy; the string test does not. */
  lemma FlippedOutsideCidr(net: Quad, mask: nat)
    requires mask < 32 && mask % 8 != 0
    ensures !InCidr(FlipOctet(net, mask / 8), net, mask)
    ensures SameOctets(FlipOctet(net, mask / 8), net, mask / 8)
  {
    var k := mask / 8;
    FlipDistance(net, k);
    Pow2Sum(mask - 8 * k - 1, 32 - mask);
    hide Pow2, Address;
    ShiftChangesQuotient(Address(net), Address(FlipOctet(net, k)), Pow2(mask - 8 * k - 1), Pow2(32 - mask));
  }

  /** The string test is CIDR membership for every address exactly when the mask ends at an
      octet boundary below 32. */
  lemma StringTestIsCidrExactlyForWholeOctets(net: Quad, mask: nat)
    requires mask <= 32
    ensures (forall q: Quad :: SubnetPrefix(Cidr(net, mask)) <= q.Show() <==> InCidr(q, net, mask))
            <==> mask in {0, 8, 16, 24}
  {
    if mask in {0, 8, 16, 24} {
      forall q: Quad ensures SubnetPrefix(Cidr(net, mask)) <= q.Show() <==> InCidr(q, net, mask) {
        PrefixTestMeaning(q, net, mask);
        WholeOctetCidr(q, net, mask);
      }
    } else {
      var q := if mask == 32 then net else FlipOctet(net, mask / 8);
      PrefixTestMeaning(q, net, mask);
      if mask < 32 { FlippedOutsideCidr(net, mask); }
      assert !(SubnetPrefix(Cidr(net, mask)) <= q.Show() <==> InCidr(q, net, mask));
    }
  }

  // ----- the whole test -----

  /** The names of this host are local whatever the subnets, plain or IPv4-mapped. */
  lemma LoopbackNames(internalSubnet: string, externalSubnet: string)
    ensures forall name :: name in {"127.0.0.1", "localhost", "::1", "::ffff:127.0.0.1", "::ffff:::1"} ==>
              IsLocalIp(name, internalSubnet, externalSubnet)
  {
    forall name | name in {"127.0.0.1", "localhost", "::1", "::ffff:127.0.0.1", "::ffff:::1"}
      ensures IsLocalIp(name, internalSubnet, externalSubnet)
    {
      assert "" + name + "" == name;
      SanitizeMeaning("", name, "");
      assert "::ffff:127.0.0.1"[7..] == "127.0.0.1";
      assert !("::ffff:" <= "127.0.0.1") && !("::ffff:" <= "localhost") by {
        assert "127.0.0.1"[0] != ':' && "localhost"[0] != ':' && "::ffff:"[0] == ':';
      }
    }
  }

  const LOOPBACK := Quad(127, 0, 0, 1)

  lemma ShowStartsAndEndsWithDigits(q: Quad)
    ensures var s := q.Show(); s != "" && IsDigit(s[0]) && IsDigit(s[|s| - 1])
  {
    var d := Print(q.d);
    var p := q.Parts();
    assert p[1..] == [Print(q.b), Print(q.c), d] && p[1..][1..] == [Print(q.c), d] && p[1..][1..][1..] == [d];
    assert Join(p[1..][1..], '.') == Print(q.c) + ['.'] + d;
    assert Join(p[1..], '.') == Print(q.b) + ['.'] + (Print(q.c) + ['.'] + d);
    assert IsDigit(d[|d| - 1]) && IsDigit(Print(q.a)[0]);
  }

  /** Canonical quads, plain or IPv4-mapped, come out of sanitizing as themselves. */
  lemma SanitizeCanonical(q: Quad)
    ensures SanitizeIpv4(q.Show()) == q.Show()
    ensures SanitizeIpv4(MAPPED_PREFIX + q.Show()) == q.Show()
  {
    ShowStartsAndEndsWithDigits(q);
    var s, m := q.Show(), MAPPED_PREFIX + q.Show();
    assert m[|m| - 1] == s[|s| - 1] && m[0] == ':';
    assert m[|MAPPED_PREFIX|..] == s;
    assert "::1"[0] == ':' && !IsSpace(m[0]) && !IsSpace(s[0]) && !IsSpace(s[|s| - 1]);
  }

  lemma ShowLoopback(q: Quad)
    ensures q.Show() == "127.0.0.1" <==> q == LOOPBACK
    ensures q.Show() != "localhost" && q.Show() != "::1"
  {
    assert Print(127) == "127" by { assert Print(12) == "12"; }
    var p := LOOPBACK.Parts();
    assert p[1..][1..][1..] == ["1"] && p[1..][1..] == ["0", "1"] && p[1..] == ["0", "0", "1"];
    assert LOOPBACK.Show() == "127.0.0.1";
    ParseShowQuad(q);
    ParseShowQuad(LOOPBACK);
    ShowStartsAndEndsWithDigits(q);
    assert "localhost"[0] == 'l' && "::1"[0] == ':';
  }

  /** `is_local_ip` on canonical input: loopback, or a member of one of the two subnets. */
  lemma {:induction false} IsLocalIpMeaning(q: Quad, inNet: Quad, inMask: nat, exNet: Quad, exMask: nat, mapped: bool)
    requires inMask in {0, 8, 16, 24} && exMask in {0, 8, 16, 24}
    ensures IsLocalIp((if mapped then MAPPED_PREFIX else "") + q.Show(), Cidr(inNet, inMask), Cidr(exNet, exMask))
            <==> q == LOOPBACK || InCidr(q, inNet, inMask) || InCidr(q, exNet, exMask)
  {
    SanitizeCanonical(q);
    ShowLoopback(q);
    assert "" + q.Show() == q.Show();
    StringTestIsCidrExactlyForWholeOctets(inNet, inMask);
    StringTestIsCidrExactlyForWholeOctets(exNet, exMask);
  }
}
