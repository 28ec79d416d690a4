/**
 The egress guard. Addresses are judged by octets and segments, as the code does; the CIDR
 blocks those tests stand for are stated separately. URL parsing and DNS are inputs.
 */
module Egress {
  import opened Common

  type Octet = x: int | 0 <= x < 0x100
  type Segment = x: int | 0 <= x < 0x1_0000

  datatype V4 = V4(a: Octet, b: Octet, c: Octet, d: Octet)
  datatype V6 = V6(
    s0: Segment, s1: Segment, s2: Segment, s3: Segment,
    s4: Segment, s5: Segment, s6: Segment, s7: Segment)
  datatype Ip = IpV4(v4: V4) | IpV6(v6: V6)

  predicate PermittedV4(ip: V4) {
    !( ip.a == 0
       || ip.a == 10
       || ip.a == 127
       || (ip.a == 169 && ip.b == 254)
       || (ip.a == 172 && 16 <= ip.b <= 31)
       || (ip.a == 192 && ip.b == 168)
       || (ip.a == 100 && 64 <= ip.b <= 127)
       || (ip.a == 192 && ip.b == 0 && ip.c == 2)
       || (ip.a == 198 && ip.b == 51 && ip.c == 100)
       || (ip.a == 203 && ip.b == 0 && ip.c == 113)
       || ip.a >= 224)
  }

  predicate Mapped(ip: V6) {
    ip.s0 == 0 && ip.s1 == 0 && ip.s2 == 0 && ip.s3 == 0 && ip.s4 == 0 && ip.s5 == 0xffff
  }

  /** The IPv4 address in the low 32 bits: shifts and truncations by eight bits. */
  function Embedded(ip: V6): V4 {
    V4(ip.s6 / 0x100, ip.s6 % 0x100, ip.s7 / 0x100, ip.s7 % 0x100)
  }

  predicate ZeroUpTo7(ip: V6) {
    ip.s0 == 0 && ip.s1 == 0 && ip.s2 == 0 && ip.s3 == 0 && ip.s4 == 0 && ip.s5 == 0 && ip.s6 == 0
  }

  /** Bitwise and. */
  function And(x: nat, y: nat): nat {
    if x == 0 || y == 0 then 0 else 2 * And(x / 2, y / 2) + if x % 2 == 1 && y % 2 == 1 then 1 else 0
  }

  predicate PermittedV6(ip: V6) {
    if Mapped(ip) then PermittedV4(Embedded(ip))
    else
      !( (ZeroUpTo7(ip) && ip.s7 == 1)
         || (ZeroUpTo7(ip) && ip.s7 == 0)
         || And(ip.s0, 0xfe00) == 0xfc00
         || And(ip.s0, 0xffc0) == 0xfe80
         || And(ip.s0, 0xff00) == 0xff00
         || (ip.s0 == 0x2001 && ip.s1 == 0x0db8))
  }

  function ShiftLeft(x: nat, k: nat): nat {
    if k == 0 then x else 2 * ShiftLeft(x, k - 1)
  }

  function ShiftRight(x: nat, k: nat): nat {
    if k == 0 then x else ShiftRight(x / 2, k - 1)
  }

  /** A mask with k low zeros clears the k low bits and masks the rest. */
  lemma {:induction false} AndShifted(x: nat, m: nat, k: nat)
    ensures And(x, ShiftLeft(m, k)) == ShiftLeft(And(ShiftRight(x, k), m), k)
  {
    if k > 0 {
      AndShifted(x / 2, m, k - 1);
      AndDouble(x, ShiftLeft(m, k - 1));
    }
  }

  lemma AndDouble(x: nat, y: nat)
    ensures And(x, 2 * y) == 2 * And(x / 2, y)
  {
    if x / 2 == 0 || y == 0 {
      assert And(x / 2, y) == 0;
    }
    assert (2 * y) / 2 == y && (2 * y) % 2 == 0;
  }

  function Ones(n: nat): nat {
    if n == 0 then 0 else 2 * Ones(n - 1) + 1
  }

  /** Masking with n ones keeps what fits in n bits. */
  lemma {:induction false} AndOnes(x: nat, n: nat)
    requires x <= Ones(n)
    ensures And(x, Ones(n)) == x
  {
    if x > 0 { AndOnes(x / 2, n - 1); }
  }

  lemma TwoMore(x: nat, k: nat)
    ensures ShiftRight(x, k + 2) == ShiftRight(x / 4, k) && ShiftLeft(x, k + 2) == 4 * ShiftLeft(x, k)
  {
    assert ShiftRight(x, k + 2) == ShiftRight(x / 2, k + 1);
    assert x / 2 / 2 == x / 4;
  }

  lemma Shift6(x: nat)
    ensures ShiftRight(x, 6) == x / 0x40 && ShiftLeft(x, 6) == 0x40 * x
  {
    TwoMore(x, 4);
    TwoMore(x / 4, 2);
    TwoMore(x / 4 / 4, 0);
    TwoMore(x, 2);
    TwoMore(x, 0);
  }

  lemma Shift8(x: nat)
    ensures ShiftRight(x, 8) == x / 0x100 && ShiftLeft(x, 8) == 0x100 * x
  {
    TwoMore(x, 6);
    Shift6(x / 4);
    Shift6(x);
  }

  lemma Shift9(x: nat)
    ensures ShiftRight(x, 9) == x / 0x200 && ShiftLeft(x, 9) == 0x200 * x
  {
    Shift8(x / 2);
    Shift8(x);
  }

  lemma SomeOnes()
    ensures Ones(7) == 0x7f && Ones(8) == 0xff && Ones(10) == 0x3ff
  {
    assert Ones(4) == 0xf;
  }

  /** The three masks of the guard keep the leading 7, 10 and 8 bits of a segment. */
  lemma MasksKeepLeadingBits(s: Segment)
    ensures And(s, 0xfe00) == s / 0x200 * 0x200
    ensures And(s, 0xffc0) == s / 0x40 * 0x40
    ensures And(s, 0xff00) == s / 0x100 * 0x100
  {
    SomeOnes();
    AndShifted(s, 0x7f, 9);
    Shift9(s);
    Shift9(0x7f);
    AndOnes(s / 0x200, 7);
    Shift9(s / 0x200);
    AndShifted(s, 0x3ff, 6);
    Shift6(s);
    Shift6(0x3ff);
    AndOnes(s / 0x40, 10);
    Shift6(s / 0x40);
    AndShifted(s, 0xff, 8);
    Shift8(s);
    Shift8(0xff);
    AndOnes(s / 0x100, 8);
    Shift8(s / 0x100);
  }

  predicate Permitted(ip: Ip) {
    match ip
    case IpV4(v4) => PermittedV4(v4)
    case IpV6(v6) => PermittedV6(v6)
  }

  // ---------- the blocks the tests stand for ----------

  /** The address as a 32-bit number. */
  function Number(ip: V4): nat {
    ip.a * 0x100_0000 + ip.b * 0x1_0000 + ip.c * 0x100 + ip.d
  }

  /** A CIDR block of prefix length n is the range of 2^(32 - n) numbers from its first address. */
  datatype Block = Block(first: V4, size: nat)

  predicate InBlock(ip: V4, block: Block) {
    Number(block.first) <= Number(ip) < Number(block.first) + block.size
  }

  /** RFC 1122 3.2.1.3, RFC 1918 3, RFC 3927 2.1, RFC 6598 7, RFC 5737 3, RFC 5771 3 and RFC 1112 4. */
  const BLOCKED_V4: seq<Block> := [
    Block(V4(0, 0, 0, 0), 0x100_0000),          // 0.0.0.0/8
    Block(V4(10, 0, 0, 0), 0x100_0000),         // 10.0.0.0/8
    Block(V4(127, 0, 0, 0), 0x100_0000),        // 127.0.0.0/8
    Block(V4(169, 254, 0, 0), 0x1_0000),        // 169.254.0.0/16
    Block(V4(172, 16, 0, 0), 0x10_0000),        // 172.16.0.0/12
    Block(V4(192, 168, 0, 0), 0x1_0000),        // 192.168.0.0/16
    Block(V4(100, 64, 0, 0), 0x40_0000),        // 100.64.0.0/10
    Block(V4(192, 0, 2, 0), 0x100),             // 192.0.2.0/24
    Block(V4(198, 51, 100, 0), 0x100),          // 198.51.100.0/24
    Block(V4(203, 0, 113, 0), 0x100),           // 203.0.113.0/24
    Block(V4(224, 0, 0, 0), 0x1000_0000),       // 224.0.0.0/4
    Block(V4(240, 0, 0, 0), 0x1000_0000)]       // 240.0.0.0/4

  predicate BlockedV4(ip: V4) {
    exists k :: 0 <= k < |BLOCKED_V4| && InBlock(ip, BLOCKED_V4[k])
  }

  lemma OneOctet(ip: V4, a: Octet)
    ensures InBlock(ip, Block(V4(a, 0, 0, 0), 0x100_0000)) <==> ip.a == a
    ensures InBlock(ip, Block(V4(224, 0, 0, 0), 0x1000_0000)) <==> 224 <= ip.a < 240
    ensures InBlock(ip, Block(V4(240, 0, 0, 0), 0x1000_0000)) <==> 240 <= ip.a
  {
  }

  lemma TwoOctets(ip: V4, a: Octet, b: Octet)
    ensures InBlock(ip, Block(V4(a, b, 0, 0), 0x1_0000)) <==> ip.a == a && ip.b == b
  {
  }

  lemma PartOctet(ip: V4)
    ensures InBlock(ip, Block(V4(172, 16, 0, 0), 0x10_0000)) <==> ip.a == 172 && 16 <= ip.b <= 31
    ensures InBlock(ip, Block(V4(100, 64, 0, 0), 0x40_0000)) <==> ip.a == 100 && 64 <= ip.b <= 127
  {
  }

  lemma ThreeOctets(ip: V4, a: Octet, b: Octet, c: Octet)
    ensures InBlock(ip, Block(V4(a, b, c, 0), 0x100)) <==> ip.a == a && ip.b == b && ip.c == c
  {
    if ip.a < a {
    } else if ip.a > a {
    } else if ip.b < b {
    } else if ip.b > b {
    }
  }

  /** The octet tests permit exactly the addresses outside every listed block. */
  lemma PermittedV4IffOutsideBlocks(ip: V4)
    ensures PermittedV4(ip) <==> !BlockedV4(ip)
  {
    OneOctet(ip, 0);
    OneOctet(ip, 10);
    OneOctet(ip, 127);
    TwoOctets(ip, 169, 254);
    PartOctet(ip);
    TwoOctets(ip, 192, 168);
    ThreeOctets(ip, 192, 0, 2);
    ThreeOctets(ip, 198, 51, 100);
    ThreeOctets(ip, 203, 0, 113);
    var b := BLOCKED_V4;
    assert BlockedV4(ip) <==>
      || InBlock(ip, b[0]) || InBlock(ip, b[1]) || InBlock(ip, b[2]) || InBlock(ip, b[3])
      || InBlock(ip, b[4]) || InBlock(ip, b[5]) || InBlock(ip, b[6]) || InBlock(ip, b[7])
      || InBlock(ip, b[8]) || InBlock(ip, b[9]) || InBlock(ip, b[10]) || InBlock(ip, b[11]);
  }

  function MappedOf(ip: V4): V6 {
    V6(0, 0, 0, 0, 0, 0xffff, ip.a * 0x100 + ip.b, ip.c * 0x100 + ip.d)
  }

  /** An IPv4-mapped address (section 2.5.5.2 of RFC 4291) is permitted exactly when its IPv4 address is. */
  lemma MappedAgrees(ip: V4)
    ensures Embedded(MappedOf(ip)) == ip
    ensures Permitted(IpV6(MappedOf(ip))) <==> Permitted(IpV4(ip))
  {
  }

  /** Addresses in numeric order, segment by segment. */
  predicate UpTo(a: V6, b: V6) {
    a.s0 < b.s0 || (a.s0 == b.s0 && (a.s1 < b.s1 || (a.s1 == b.s1 && (a.s2 < b.s2 || (a.s2 == b.s2 && (
    a.s3 < b.s3 || (a.s3 == b.s3 && (a.s4 < b.s4 || (a.s4 == b.s4 && (a.s5 < b.s5 || (a.s5 == b.s5 && (
    a.s6 < b.s6 || (a.s6 == b.s6 && a.s7 <= b.s7)))))))))))))
  }

  /** Two leading segments, and the same one all the way after them. */
  function FromFirst(s0: Segment, s1: Segment, rest: Segment): V6 {
    V6(s0, s1, rest, rest, rest, rest, rest, rest)
  }

  predicate Between(ip: V6, first: V6, last: V6) {
    UpTo(first, ip) && UpTo(ip, last)
  }

  /** RFC 4291 2.4, RFC 4193 3.1 and RFC 3849: each block from its first address to its last. */
  predicate InSomeBlock6(ip: V6) {
    || Between(ip, FromFirst(0, 0, 0), V6(0, 0, 0, 0, 0, 0, 0, 1))               // ::/127
    || Between(ip, FromFirst(0xfc00, 0, 0), FromFirst(0xfdff, 0xffff, 0xffff))   // fc00::/7
    || Between(ip, FromFirst(0xfe80, 0, 0), FromFirst(0xfebf, 0xffff, 0xffff))   // fe80::/10
    || Between(ip, FromFirst(0xff00, 0, 0), FromFirst(0xffff, 0xffff, 0xffff))   // ff00::/8
    || Between(ip, FromFirst(0x2001, 0xdb8, 0), FromFirst(0x2001, 0xdb8, 0xffff)) // 2001:db8::/32
  }

  /** In one of the blocks, or the mapped form of a blocked IPv4 address. */
  predicate BlockedV6(ip: V6) {
    if Mapped(ip) then BlockedV4(Embedded(ip)) else InSomeBlock6(ip)
  }

  predicate Blocked(ip: Ip) {
    match ip
    case IpV4(v4) => BlockedV4(v4)
    case IpV6(v6) => BlockedV6(v6)
  }

  lemma MaskedFirstSegment(s: Segment)
    ensures And(s, 0xfe00) == 0xfc00 <==> 0xfc00 <= s <= 0xfdff
    ensures And(s, 0xffc0) == 0xfe80 <==> 0xfe80 <= s <= 0xfebf
    ensures And(s, 0xff00) == 0xff00 <==> 0xff00 <= s
  {
    MasksKeepLeadingBits(s);
    LeadingBits(s, And(s, 0xfe00), And(s, 0xffc0), And(s, 0xff00));
  }

  lemma LeadingBits(s: Segment, a: nat, b: nat, c: nat)
    requires a == s / 0x200 * 0x200 && b == s / 0x40 * 0x40 && c == s / 0x100 * 0x100
    ensures a == 0xfc00 <==> 0xfc00 <= s <= 0xfdff
    ensures b == 0xfe80 <==> 0xfe80 <= s <= 0xfebf
    ensures c == 0xff00 <==> 0xff00 <= s
  {
  }

  /** The blocks, read off the segments. */
  predicate InRanges(ip: V6) {
    || (ZeroUpTo7(ip) && ip.s7 <= 1)
    || 0xfc00 <= ip.s0 <= 0xfdff || 0xfe80 <= ip.s0 <= 0xfebf || 0xff00 <= ip.s0
    || (ip.s0 == 0x2001 && ip.s1 == 0xdb8)
  }

  lemma BlocksAreRanges(ip: V6)
    ensures InSomeBlock6(ip) <==> InRanges(ip)
  {
  }

  lemma TestsAreRanges(ip: V6)
    requires !Mapped(ip)
    ensures PermittedV6(ip) <==> !InRanges(ip)
  {
    MaskedFirstSegment(ip.s0);
  }

  /** The masked tests permit exactly the addresses outside the blocks. */
  lemma PermittedV6IffOutsideBlocks(ip: V6)
    ensures PermittedV6(ip) <==> !BlockedV6(ip)
  {
    if Mapped(ip) {
      PermittedV4IffOutsideBlocks(Embedded(ip));
    } else {
      TestsAreRanges(ip);
      BlocksAreRanges(ip);
    }
  }

  lemma PermittedIffNotBlocked(ip: Ip)
    ensures Permitted(ip) <==> !Blocked(ip)
  {
    match ip
    case IpV4(v4) => PermittedV4IffOutsideBlocks(v4);
    case IpV6(v6) => PermittedV6IffOutsideBlocks(v6);
  }

  // ---------- URLs ----------

  datatype Host = Name(name: string) | Literal(ip: Ip)

  /** The parts of a parsed URL the guard looks at. */
  datatype Url = Url(text: string, scheme: string, username: string, password: Option<string>, host: Option<Host>)

  function Validate(u: Url): Result<Url, string> {
    if u.scheme !in {"http", "https"} then Err("scheme not allowed")
    else if u.username != "" || u.password.Some? then Err("userinfo in target url not allowed")
    else
      match u.host
      case None => Err("target url has no host")
      case Some(Literal(ip)) => if Permitted(ip) then Ok(u) else Err("target ip is in a blocked range")
      case Some(Name(n)) => if AsciiLower(n) == "localhost" then Err("localhost is not a permitted target") else Ok(u)
  }

  /** `library` is the URL parser; None when the text does not parse. */
  function ParseTarget(library: string -> Option<Url>, raw: string): Result<Url, string> {
    match library(raw)
    case None => Err("unparseable target url")
    case Some(u) => Validate(u)
  }

  predicate Acceptable(u: Url) {
    && (u.scheme == "http" || u.scheme == "https") && u.username == "" && u.password == None
    && u.host.Some?
    && (u.host.value.Literal? ==> Permitted(u.host.value.ip))
    && (u.host.value.Name? ==> !SameButCase(u.host.value.name, "localhost"))
  }

  lemma ValidateIff(u: Url)
    ensures Validate(u).Ok? <==> Acceptable(u)
    ensures Validate(u).Ok? ==> Validate(u).value == u
  {
    if u.host.Some? && u.host.value.Name? {
      AsciiLowerMeans(u.host.value.name, "localhost");
      LocalhostIsLower();
    }
  }

  lemma LocalhostIsLower()
    ensures AsciiLower("localhost") == "localhost"
  {
  }

  /** A target text passes iff it parses to an acceptable URL, and that URL is the target. */
  lemma ParseTargetIff(library: string -> Option<Url>, raw: string, u: Url)
    ensures ParseTarget(library, raw) == Ok(u) <==> library(raw) == Some(u) && Acceptable(u)
  {
    if library(raw).Some? { ValidateIff(library(raw).value); }
  }

  predicate Safe(addrs: seq<Ip>) {
    addrs != [] && forall k :: 0 <= k < |addrs| ==> Permitted(addrs[k])
  }

  /** What the check before a connection objects to in the resolver's answer; None when the lookup failed. */
  function Objection(answer: Option<seq<Ip>>): Option<string> {
    if answer.None? then Some("dns resolution failed")
    else if Safe(answer.value) then None
    else if answer.value == [] then Some("host did not resolve to any address")
    else Some("resolved address is in a blocked range")
  }

  method AssertResolvable(answer: Option<seq<Ip>>) returns (error: Option<string>)
    ensures error == Objection(answer)
    ensures error.None? <==> answer.Some? && answer.value != [] && forall ip :: ip in answer.value ==> Permitted(ip)
  {
    if answer.None? {
      return Some("dns resolution failed");
    }
    var addrs := answer.value;
    var sawAny := false;
    for k := 0 to |addrs|
      invariant sawAny <==> k > 0
      invariant forall j :: 0 <= j < k ==> Permitted(addrs[j])
    {
      sawAny := true;
      if !Permitted(addrs[k]) {
        return Some("resolved address is in a blocked range");
      }
    }
    error := if sawAny then None else Some("host did not resolve to any address");
  }
}
