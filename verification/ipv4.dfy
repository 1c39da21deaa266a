/** IPv4 addresses and CIDR blocks: the parts of Go's `net` package and of the CNI `ip`
    helpers the bootstrap relies on (ParseIP, ParseCIDR, IP.Mask, IP.String, IPNet.String,
    ip.NextIP, ip.PrevIP), with the bitwise operations written out on naturals. IPv6 text is
    checked against the syntax Go's parser accepts, but is given no value. */
module Ipv4 {
  import opened Basics
  import opened Decimal

  /** An address as the unbounded integer that ip.NextIP and ip.PrevIP compute on (they go
      through math/big). Values in 0 .. 2^32-1 are IPv4 addresses; any other value stands for
      the malformed byte string those helpers return past either end of the address space. */
  type Addr = int

  const AddrSpace: nat := 0x1_0000_0000

  predicate IsV4(a: Addr) {
    0 <= a < AddrSpace
  }

  /** net.IPNet restricted to IPv4: an address and the prefix length of its CIDR mask
      (ParseCIDR always produces the canonical mask CIDRMask(prefix, 32)). */
  datatype IPNet = IPNet(ip: Addr, prefix: nat)

  predicate IsV4Net(n: IPNet) {
    IsV4(n.ip) && n.prefix <= 32
  }

  /** Number of addresses in a block with the given prefix length. */
  function BlockSize(prefix: nat): (r: nat)
    requires prefix <= 32
    ensures r >= 1
  {
    Pow2(32 - prefix)
  }

  /** A network address: the host bits are all zero. */
  predicate IsNetwork(n: IPNet) {
    IsV4Net(n) && n.ip % BlockSize(n.prefix) == 0
  }

  /** The block `n` belongs to contains `a`. */
  predicate InBlock(n: IPNet, a: Addr)
    requires IsV4Net(n)
  {
    var base := n.ip - n.ip % BlockSize(n.prefix);
    base <= a < base + BlockSize(n.prefix)
  }

  function NextIp(a: Addr): Addr {
    a + 1
  }

  function PrevIp(a: Addr): Addr {
    a - 1
  }

  // ---------------------------------------------------------------------------------------
  // Bitwise operations on naturals, bit by bit, least significant bit first.

  function BitOr(a: nat, b: nat): nat
    decreases a + b
  {
    if a == 0 && b == 0 then 0
    else 2 * BitOr(a / 2, b / 2) + (if a % 2 == 1 || b % 2 == 1 then 1 else 0)
  }

  function BitAnd(a: nat, b: nat): nat
    decreases a + b
  {
    if a == 0 || b == 0 then 0
    else 2 * BitAnd(a / 2, b / 2) + (if a % 2 == 1 && b % 2 == 1 then 1 else 0)
  }

  /** net.CIDRMask(prefix, 32) read as a 32-bit number: `prefix` one bits, then zeros. */
  function MaskOf(prefix: nat): nat
    requires prefix <= 32
  {
    HighOnes(prefix, 32 - prefix)
  }

  /** `j` one bits followed by `k` zero bits. */
  function HighOnes(j: nat, k: nat): nat {
    MulNonNegative(Pow2(j) - 1, Pow2(k));
    (Pow2(j) - 1) * Pow2(k)
  }

  lemma MulNonNegative(x: nat, y: nat)
    ensures x * y >= 0
  {
  }

  /** Bitwise complement within 32 bits (Go's `^` applied to each of the four mask bytes). */
  function Complement32(m: nat): nat
    requires m < Pow2(32)
  {
    Pow2(32) - 1 - m
  }

  /** The broadcast address: the address with every host bit set (`ip | ^mask`). */
  function Broadcast(n: IPNet): nat
    requires IsV4Net(n)
  {
    MaskComplement(n.prefix);
    BitOr(n.ip, Complement32(MaskOf(n.prefix)))
  }

  /** IP.Mask: the address with every host bit cleared (`ip & mask`). */
  function Masked(a: nat, prefix: nat): nat
    requires prefix <= 32
  {
    BitAnd(a, MaskOf(prefix))
  }

  lemma {:induction false} Pow2Add(j: nat, k: nat)
    ensures Pow2(j + k) == Pow2(j) * Pow2(k)
  {
    if j > 0 {
      Pow2Add(j - 1, k);
    }
  }

  lemma Pow2Values()
    ensures Pow2(8) == 0x100 && Pow2(16) == 0x1_0000 && Pow2(24) == 0x100_0000
    ensures Pow2(32) == AddrSpace
  {
    assert Pow2(8) == 0x100;
    Pow2Add(8, 8);
    Pow2Add(16, 8);
    Pow2Add(16, 16);
  }

  /** The mask is below 2^32 and its complement is the host part of the block. */
  lemma MaskComplement(prefix: nat)
    requires prefix <= 32
    ensures MaskOf(prefix) < Pow2(32)
    ensures Complement32(MaskOf(prefix)) == BlockSize(prefix) - 1
  {
    var p, b := Pow2(prefix), BlockSize(prefix);
    var m := MaskOf(prefix);
    assert m == (p - 1) * b;
    MulSubOne(p, b);
    Pow2Add(prefix, 32 - prefix);
    assert prefix + (32 - prefix) == 32;
    assert Pow2(32) == p * b;
  }

  lemma MulSubOne(p: int, b: int)
    ensures (p - 1) * b == p * b - b
  {
  }

  lemma MulAtLeast(d: int, k: int)
    requires d > 0 && k >= 1
    ensures d * k >= d
  {
    assert d * k == d + d * (k - 1);
  }

  /** Division with remainder has exactly one answer. */
  lemma DivModUnique(a: int, d: int, t: int, s: int)
    requires d > 0 && 0 <= s < d && a == d * t + s
    ensures a / d == t && a % d == s
  {
    var q, r := a / d, a % d;
    assert a == d * q + r && 0 <= r < d;
    assert d * (t - q) == r - s;
    if t > q {
      MulAtLeast(d, t - q);
    } else if t < q {
      MulAtLeast(d, q - t);
    }
  }

  /** The remainder modulo 2p, computed from the remainder of the halved value modulo p. */
  lemma ModDouble(a: nat, p: nat)
    requires p > 0
    ensures a % (2 * p) == 2 * ((a / 2) % p) + a % 2
  {
    var q, r := a / 2, a % 2;
    var t, u := q / p, q % p;
    assert q == p * t + u;
    assert a == 2 * p * t + (2 * u + r);
    DivModUnique(a, 2 * p, t, 2 * u + r);
  }

  lemma {:induction false} BitOrZero(a: nat)
    ensures BitOr(a, 0) == a
  {
    if a != 0 {
      BitOrZero(a / 2);
    }
  }

  /** Setting the low k bits of `a` lands on the last address of the 2^k-block holding `a`. */
  lemma {:induction false} BitOrLowOnes(a: nat, k: nat)
    ensures BitOr(a, Pow2(k) - 1) == a - a % Pow2(k) + Pow2(k) - 1
  {
    if k == 0 {
      BitOrZero(a);
    } else {
      var p := Pow2(k - 1);
      var b := Pow2(k) - 1;
      assert Pow2(k) == 2 * p;
      assert b / 2 == p - 1 && b % 2 == 1;
      var h := a / 2;
      BitOrLowOnes(h, k - 1);
      var inner := BitOr(h, p - 1);
      assert inner == h - h % p + p - 1;
      assert BitOr(a, b) == 2 * inner + 1;
      ModDouble(a, p);
      assert a % Pow2(k) == 2 * (h % p) + a % 2;
      assert a == 2 * h + a % 2;
    }
  }

  lemma {:induction false} BitAndLowOnes(a: nat, w: nat)
    requires a < Pow2(w)
    ensures BitAnd(a, Pow2(w) - 1) == a
  {
    if w > 0 && a != 0 {
      var p := Pow2(w - 1);
      var b := Pow2(w) - 1;
      assert b / 2 == p - 1 && b % 2 == 1;
      BitAndLowOnes(a / 2, w - 1);
      assert BitAnd(a, b) == 2 * BitAnd(a / 2, p - 1) + a % 2;
    }
  }

  /** Clearing the low k bits of a (j+k)-bit number rounds it down to a multiple of 2^k. */
  lemma {:induction false} BitAndHighOnes(a: nat, j: nat, k: nat)
    requires a < Pow2(j + k)
    ensures BitAnd(a, HighOnes(j, k)) == a - a % Pow2(k)
  {
    if k == 0 || j == 0 || a == 0 {
      BitAndHighOnesBase(a, j, k);
    } else {
      HalfBelow(a, j, k);
      BitAndHighOnes(a / 2, j, k - 1);
      BitAndHighOnesStep(a, j, k);
    }
  }

  lemma BitAndHighOnesBase(a: nat, j: nat, k: nat)
    requires a < Pow2(j + k)
    requires k == 0 || j == 0 || a == 0
    ensures BitAnd(a, HighOnes(j, k)) == a - a % Pow2(k)
  {
    if k == 0 {
      BitAndHighOnesNoShift(a, j);
    } else if j == 0 {
      BitAndHighOnesNoMask(a, k);
    } else {
      assert BitAnd(a, HighOnes(j, k)) == 0;
    }
  }

  lemma HalfBelow(a: nat, j: nat, k: nat)
    requires k >= 1 && a < Pow2(j + k)
    ensures a / 2 < Pow2(j + (k - 1))
  {
    assert Pow2(j + k) == 2 * Pow2(j + (k - 1));
  }

  /** The inductive step of BitAndHighOnes. */
  lemma BitAndHighOnesStep(a: nat, j: nat, k: nat)
    requires a != 0 && j >= 1 && k >= 1
    requires BitAnd(a / 2, HighOnes(j, k - 1)) == a / 2 - (a / 2) % Pow2(k - 1)
    ensures BitAnd(a, HighOnes(j, k)) == a - a % Pow2(k)
  {
    var ones := Pow2(j) - 1;
    var p := Pow2(k - 1);
    assert Pow2(k) == 2 * p;
    assert ones >= 1 by {
      assert Pow2(j) == 2 * Pow2(j - 1);
    }
    var q := ones * p;
    assert q >= 1 by {
      MulAtLeast(ones, p);
    }
    assert ones * Pow2(k) == 2 * q by {
      MulTwice(ones, p);
    }
    BitAndHighStep(a, q, p);
  }

  lemma BitAndHighOnesNoShift(a: nat, j: nat)
    requires a < Pow2(j)
    ensures BitAnd(a, HighOnes(j, 0)) == a - a % Pow2(0)
  {
    assert HighOnes(j, 0) == Pow2(j) - 1;
    BitAndLowOnes(a, j);
  }

  lemma BitAndHighOnesNoMask(a: nat, k: nat)
    requires a < Pow2(k)
    ensures BitAnd(a, HighOnes(0, k)) == a - a % Pow2(k)
  {
    DivModUnique(a, Pow2(k), 0, a);
  }

  lemma MulTwice(x: int, y: int)
    ensures x * (2 * y) == 2 * (x * y)
  {
  }

  /** One bit of BitAndHighOnes: a mask with a zero low bit clears the low bit of `a`. */
  lemma BitAndHighStep(a: nat, q: nat, p: nat)
    requires a != 0 && q >= 1 && p >= 1
    requires BitAnd(a / 2, q) == a / 2 - (a / 2) % p
    ensures BitAnd(a, 2 * q) == a - a % (2 * p)
  {
    var h := a / 2;
    assert BitAnd(a, 2 * q) == 2 * BitAnd(h, q);
    ModDouble(a, p);
    assert a == 2 * h + a % 2;
  }

  /** The broadcast address is the last address of the block. */
  lemma BroadcastIsBlockEnd(n: IPNet)
    requires IsV4Net(n)
    ensures Broadcast(n) == n.ip - n.ip % BlockSize(n.prefix) + BlockSize(n.prefix) - 1
  {
    MaskComplement(n.prefix);
    BitOrLowOnes(n.ip, 32 - n.prefix);
  }

  /** Masking an address keeps its network part: the first address of its block. */
  lemma MaskedIsBlockStart(a: nat, prefix: nat)
    requires a < AddrSpace && prefix <= 32
    ensures Masked(a, prefix) == a - a % BlockSize(prefix)
    ensures IsNetwork(IPNet(Masked(a, prefix), prefix))
  {
    Pow2Values();
    assert prefix + (32 - prefix) == 32;
    BitAndHighOnes(a, prefix, 32 - prefix);
    var b := BlockSize(prefix);
    var q := a / b;
    DivModSplit(a, b);
    assert a - a % b == b * q;
    DivModUnique(b * q, b, q, 0);
  }

  lemma DivModSplit(a: int, b: int)
    requires b > 0
    ensures a == b * (a / b) + a % b && 0 <= a % b < b
  {
  }

  // ---------------------------------------------------------------------------------------
  // Text.

  /** The character netip.ParseAddr dispatches on: the first '.', ':' or '%' of the text. */
  function FirstSpecial(s: string): Option<char> {
    if |s| == 0 then None
    else if s[0] == '.' || s[0] == ':' || s[0] == '%' then Some(s[0])
    else FirstSpecial(s[1..])
  }

  /** Fields of `s` between the occurrences of `sep` (strings.Split with a one-character
      separator): one more field than there are separators. */
  function Split(s: string, sep: char): (fs: seq<string>)
    ensures |fs| >= 1
  {
    if |s| == 0 then [""]
    else
      var rest := Split(s[1..], sep);
      if s[0] == sep then [""] + rest else [[s[0]] + rest[0]] + rest[1..]
  }

  /** A dotted-quad field as netip accepts it: one to three digits, no leading zero, at most 255. */
  predicate ValidOctet(f: string) {
    && |f| >= 1
    && AllDigits(f)
    && (|f| == 1 || f[0] != '0')
    && Value(f) <= 255
  }

  /** netip's parseIPv4: exactly four valid fields separated by dots. */
  function ParseDottedQuad(s: string): (r: Option<Addr>)
    ensures r.Some? ==> IsV4(r.value)
  {
    var fs := Split(s, '.');
    if |fs| == 4 && ValidOctet(fs[0]) && ValidOctet(fs[1]) && ValidOctet(fs[2]) && ValidOctet(fs[3])
    then Some(Value(fs[0]) * 0x100_0000 + Value(fs[1]) * 0x1_0000 + Value(fs[2]) * 0x100 + Value(fs[3]))
    else None
  }

  predicate IsHexDigit(c: char) {
    ('0' <= c <= '9') || ('a' <= c <= 'f') || ('A' <= c <= 'F')
  }

  /** The number of hex digits `s` starts with. */
  function HexRun(s: string): (n: nat)
    ensures n <= |s|
    ensures forall k | 0 <= k < n :: IsHexDigit(s[k])
    ensures n < |s| ==> !IsHexDigit(s[n])
  {
    if |s| == 0 || !IsHexDigit(s[0]) then 0 else 1 + HexRun(s[1..])
  }

  /** Whether the bytes parsed so far make a whole IPv6 address: sixteen bytes and no "::", or
      fewer and a "::" that stands for at least one zero field. */
  predicate V6Complete(filled: nat, ellipsis: bool) {
    if filled < 16 then ellipsis else filled == 16 && !ellipsis
  }

  /** netip's parseIPv6 from the top of its field loop: `s` is the text left, `filled` the
      number of bytes parsed so far, and `ellipsis` whether a "::" was seen. A field is one to
      four hex digits, followed by the end of the text, by ':' and another field, or by "::".
      A field followed by '.' starts an embedded dotted quad: it must end the text and take
      the last four bytes, or follow a "::". */
  predicate V6Fields(s: string, filled: nat, ellipsis: bool)
    decreases |s|
  {
    if filled >= 16 then |s| == 0 && !ellipsis
    else
      var n := HexRun(s);
      if n == 0 || n > 4 then false
      else if n < |s| && s[n] == '.' then
        && (ellipsis || filled == 12)
        && filled + 4 <= 16
        && ParseDottedQuad(s).Some?
        && V6Complete(filled + 4, ellipsis)
      else if n == |s| then V6Complete(filled + 2, ellipsis)
      else if s[n] != ':' || n + 1 == |s| then false
      else if s[n + 1] != ':' then V6Fields(s[n + 1..], filled + 2, ellipsis)
      else if ellipsis then false
      else if n + 2 == |s| then V6Complete(filled + 2, true)
      else V6Fields(s[n + 2..], filled + 2, true)
  }

  /** Text ParseIP accepts as an IPv6 address: netip.ParseAddr's IPv6 syntax (a leading "::"
      included), with no zone, since ParseIP and ParseCIDR reject a zoned address. */
  predicate IsV6Text(s: string) {
    && '%' !in s
    && if |s| >= 2 && s[0] == ':' && s[1] == ':' then |s| == 2 || V6Fields(s[2..], 0, true)
       else V6Fields(s, 0, false)
  }

  /** How address text reads: an IPv4 address, a well-formed IPv6 address (kept as its text:
      the model gives IPv6 addresses no value), or text ParseIP rejects (the nil IP). */
  datatype AddrText = V4(addr: Addr) | V6Form(text: string) | Invalid

  /** net.ParseIP. */
  function ParseIp(s: string): (r: AddrText)
    ensures r.V4? ==> IsV4(r.addr)
    ensures r.V6Form? <==> FirstSpecial(s) == Some(':') && IsV6Text(s)
    ensures r.V6Form? ==> r.text == s
  {
    match FirstSpecial(s)
    case None => Invalid
    case Some(c) =>
      if c == '.' then
        match ParseDottedQuad(s)
        case Some(a) => V4(a)
        case None => Invalid
      else if c == ':' && IsV6Text(s) then V6Form(s)
      else Invalid
  }

  /** How CIDR text reads: an IPv4 network, a well-formed IPv6 CIDR (kept as its text), or
      text ParseCIDR rejects. */
  datatype CidrText = Cidr4(net: IPNet) | Cidr6Form(text: string) | CidrInvalid

  /** The prefix-length part of a CIDR: decimal digits only (leading zeros allowed, no sign),
      at most the address width in bits. */
  function ParsePrefixLen(m: string, bits: nat): (r: Option<nat>)
    ensures r.Some? <==> |m| >= 1 && AllDigits(m) && Value(m) <= bits
    ensures r.Some? ==> r.value == Value(m)
  {
    if |m| >= 1 && AllDigits(m) && Value(m) <= bits then Some(Value(m)) else None
  }

  /** net.ParseCIDR, keeping the returned *IPNet: the address with its host bits cleared, and
      the prefix length. */
  function ParseCidr(s: string): (r: CidrText)
    ensures r.Cidr4? ==> IsNetwork(r.net)
  {
    match IndexOf(s, '/')
    case None => CidrInvalid
    case Some(i) =>
      match ParseIp(s[..i])
      case Invalid => CidrInvalid
      case V6Form(_) => if ParsePrefixLen(s[i + 1..], 128).Some? then Cidr6Form(s) else CidrInvalid
      case V4(a) =>
        match ParsePrefixLen(s[i + 1..], 32)
        case None => CidrInvalid
        case Some(p) =>
          MaskedIsBlockStart(a, p);
          Cidr4(IPNet(Masked(a, p), p))
  }

  /** The four octets of an address, most significant first. */
  function Octets(a: Addr): (o: seq<nat>)
    requires IsV4(a)
    ensures |o| == 4 && o[0] < 256 && o[1] < 256 && o[2] < 256 && o[3] < 256
    ensures o[0] * 0x100_0000 + o[1] * 0x1_0000 + o[2] * 0x100 + o[3] == a
  {
    var b := a / 256;
    var c := b / 256;
    assert a == 256 * b + a % 256;
    assert b == 256 * c + b % 256;
    assert c == 256 * (c / 256) + c % 256;
    [c / 256, c % 256, b % 256, a % 256]
  }

  /** Four fields joined by dots. */
  function Dotted(w: string, x: string, y: string, z: string): string {
    w + "." + x + "." + y + "." + z
  }

  predicate DottedChars(s: string) {
    forall i | 0 <= i < |s| :: IsDigit(s[i]) || s[i] == '.'
  }

  /** IP.String for an IPv4 address: dotted decimal. */
  function FormatIp(a: Addr): (s: string)
    requires IsV4(a)
    ensures DottedChars(s)
  {
    var o := Octets(a);
    DottedOfDigits(Itoa(o[0]), Itoa(o[1]), Itoa(o[2]), Itoa(o[3]));
    Dotted(Itoa(o[0]), Itoa(o[1]), Itoa(o[2]), Itoa(o[3]))
  }

  /** IPNet.String for an IPv4 network: address, '/', prefix length. */
  function FormatCidr(n: IPNet): string
    requires IsV4Net(n)
  {
    FormatIp(n.ip) + "/" + Itoa(n.prefix)
  }

  lemma DottedOfDigits(w: string, x: string, y: string, z: string)
    requires AllDigits(w) && AllDigits(x) && AllDigits(y) && AllDigits(z)
    ensures DottedChars(Dotted(w, x, y, z))
  {
    var s := Dotted(w, x, y, z);
    forall i | 0 <= i < |s| ensures IsDigit(s[i]) || s[i] == '.' {
      var a := |w|;
      var b := a + 1 + |x|;
      var c := b + 1 + |y|;
      if i < a {
        assert s[i] == w[i];
      } else if i == a || i == b || i == c {
      } else if i < b {
        assert s[i] == x[i - a - 1];
      } else if i < c {
        assert s[i] == y[i - b - 1];
      } else {
        assert s[i] == z[i - c - 1];
      }
    }
  }

  lemma DigitsLack(x: string, c: char)
    requires AllDigits(x) && !IsDigit(c)
    ensures c !in x
  {
  }

  lemma {:induction false} FirstSpecialAfterDigits(x: string, y: string)
    requires AllDigits(x)
    ensures FirstSpecial(x + y) == FirstSpecial(y)
  {
    if |x| == 0 {
      assert x + y == y;
    } else {
      var s := x + y;
      assert s[0] == x[0] && IsDigit(x[0]);
      assert s[1..] == x[1..] + y;
      assert FirstSpecial(s) == FirstSpecial(s[1..]);
      FirstSpecialAfterDigits(x[1..], y);
    }
  }

  lemma {:induction false} SplitNoSep(x: string, sep: char)
    requires sep !in x
    ensures Split(x, sep) == [x]
  {
    if |x| > 0 {
      assert x[0] != sep;
      SplitNoSep(x[1..], sep);
      assert [x[0]] + x[1..] == x;
    }
  }

  /** A separator after a field that lacks it ends that field. */
  lemma {:induction false} SplitCons(x: string, sep: char, y: string)
    requires sep !in x
    ensures Split(x + [sep] + y, sep) == [x] + Split(y, sep)
  {
    var s := x + [sep] + y;
    if |x| == 0 {
      assert s[0] == sep && s[1..] == y;
    } else {
      assert s[0] == x[0] != sep;
      assert s[1..] == x[1..] + [sep] + y;
      SplitCons(x[1..], sep, y);
      assert [x[0]] + x[1..] == x;
    }
  }

  /** Dotted text splits back into its four fields when none of them holds a dot. */
  lemma SplitDotted(w: string, x: string, y: string, z: string)
    requires '.' !in w && '.' !in x && '.' !in y && '.' !in z
    ensures Split(Dotted(w, x, y, z), '.') == [w, x, y, z]
  {
    SplitThree(x, y, z);
    SplitCons(w, '.', x + ['.'] + (y + ['.'] + z));
    DottedRegroup(w, x, y, z);
  }

  lemma SplitThree(x: string, y: string, z: string)
    requires '.' !in x && '.' !in y && '.' !in z
    ensures Split(x + ['.'] + (y + ['.'] + z), '.') == [x, y, z]
  {
    SplitNoSep(z, '.');
    SplitCons(y, '.', z);
    SplitCons(x, '.', y + ['.'] + z);
  }

  lemma DottedRegroup(w: string, x: string, y: string, z: string)
    ensures Dotted(w, x, y, z) == w + ['.'] + (x + ['.'] + (y + ['.'] + z))
  {
    var d := Dotted(w, x, y, z);
    var e := w + ['.'] + (x + ['.'] + (y + ['.'] + z));
    assert |d| == |e|;
    forall i | 0 <= i < |d| ensures d[i] == e[i] {
      var a := |w|;
      var b := a + 1 + |x|;
      var c := b + 1 + |y|;
      if i < a {
      } else if i == a || i == b || i == c {
      } else if i < b {
        assert d[i] == x[i - a - 1] == e[i];
      } else if i < c {
        assert d[i] == y[i - b - 1] == e[i];
      } else {
        assert d[i] == z[i - c - 1] == e[i];
      }
    }
  }

  lemma OctetRendering(n: nat)
    requires n < 256
    ensures ValidOctet(Itoa(n)) && Value(Itoa(n)) == n
    ensures '.' !in Itoa(n)
  {
    DigitsLack(Itoa(n), '.');
  }

  /** ParseIP reads back what IP.String writes, for every IPv4 address. */
  lemma ParseFormatIp(a: Addr)
    requires IsV4(a)
    ensures ParseIp(FormatIp(a)) == V4(a)
  {
    ParseDottedQuadFormat(a);
    var o := Octets(a);
    var w, x, y, z := Itoa(o[0]), Itoa(o[1]), Itoa(o[2]), Itoa(o[3]);
    var rest := "." + x + "." + y + "." + z;
    assert FormatIp(a) == w + rest;
    FirstSpecialAfterDigits(w, rest);
    assert rest[0] == '.';
  }

  lemma ParseDottedQuadFormat(a: Addr)
    requires IsV4(a)
    ensures ParseDottedQuad(FormatIp(a)) == Some(a)
  {
    var o := Octets(a);
    var w, x, y, z := Itoa(o[0]), Itoa(o[1]), Itoa(o[2]), Itoa(o[3]);
    OctetRendering(o[0]);
    OctetRendering(o[1]);
    OctetRendering(o[2]);
    OctetRendering(o[3]);
    SplitDotted(w, x, y, z);
  }

  /** Fields joined back with their separator: the inverse of Split. */
  function Join(fs: seq<string>, sep: char): string
    requires |fs| >= 1
  {
    if |fs| == 1 then fs[0] else fs[0] + [sep] + Join(fs[1..], sep)
  }

  /** Joining the fields of `s` gives `s` back. */
  lemma {:induction false} SplitJoin(s: string, sep: char)
    ensures Join(Split(s, sep), sep) == s
    decreases |s|
  {
    if |s| > 0 {
      var rest := Split(s[1..], sep);
      SplitJoin(s[1..], sep);
      if s[0] == sep {
        assert ([""] + rest)[1..] == rest;
        assert s == [sep] + s[1..];
      } else if |rest| == 1 {
        assert s == [s[0]] + s[1..];
      } else {
        var fs := [[s[0]] + rest[0]] + rest[1..];
        assert fs[1..] == rest[1..];
        assert Join(rest, sep) == rest[0] + [sep] + Join(rest[1..], sep);
        assert s == [s[0]] + s[1..];
      }
    }
  }

  /** Four joined fields are dotted text. */
  lemma JoinFour(fs: seq<string>)
    requires |fs| == 4
    ensures Join(fs, '.') == Dotted(fs[0], fs[1], fs[2], fs[3])
  {
    var w, x, y, z := fs[0], fs[1], fs[2], fs[3];
    assert fs[1..][1..][1..] == [z];
    assert fs[1..][1..] == [y, z];
    assert Join([y, z], '.') == y + ['.'] + z;
    assert fs[1..] == [x, y, z];
    assert Join(fs[1..], '.') == x + ['.'] + (y + ['.'] + z);
    assert Join(fs, '.') == w + ['.'] + (x + ['.'] + (y + ['.'] + z));
    DottedRegroup(w, x, y, z);
  }

  /** An address assembled from four octets has those octets. */
  lemma OctetsUnique(a: Addr, p: nat, q: nat, r: nat, t: nat)
    requires p < 256 && q < 256 && r < 256 && t < 256
    requires a == p * 0x100_0000 + q * 0x1_0000 + r * 0x100 + t
    ensures IsV4(a) && Octets(a) == [p, q, r, t]
  {
    DivModUnique(a, 256, p * 0x1_0000 + q * 0x100 + r, t);
    DivModUnique(p * 0x1_0000 + q * 0x100 + r, 256, p * 0x100 + q, r);
    DivModUnique(p * 0x100 + q, 256, p, q);
  }

  /** Dotted text ParseIP accepts is the rendering of the address it reads: it has exactly
      four decimal fields, none with a leading zero, so no other spelling of an address
      ("01.2.3.4", "1.2.3") is accepted. */
  lemma FormatParseIp(s: string)
    requires ParseIp(s).V4?
    ensures FormatIp(ParseIp(s).addr) == s
  {
    var fs := Split(s, '.');
    assert ParseDottedQuad(s).Some?;
    assert |fs| == 4 && ValidOctet(fs[0]) && ValidOctet(fs[1]) && ValidOctet(fs[2]) && ValidOctet(fs[3]);
    var a := ParseIp(s).addr;
    OctetsUnique(a, Value(fs[0]), Value(fs[1]), Value(fs[2]), Value(fs[3]));
    ItoaValue(fs[0]);
    ItoaValue(fs[1]);
    ItoaValue(fs[2]);
    ItoaValue(fs[3]);
    SplitJoin(s, '.');
    JoinFour(fs);
  }

  /** ParseCIDR reads back what IPNet.String writes, with the host bits cleared: a formatted
      block reads back as its first address, and a network reads back unchanged. */
  lemma ParseFormatCidr(n: IPNet)
    requires IsV4Net(n)
    ensures ParseCidr(FormatCidr(n)) == Cidr4(IPNet(n.ip - n.ip % BlockSize(n.prefix), n.prefix))
    ensures IsNetwork(n) ==> ParseCidr(FormatCidr(n)) == Cidr4(n)
  {
    var ip := FormatIp(n.ip);
    var s := FormatCidr(n);
    assert '/' !in ip;
    assert s == ip + ['/'] + Itoa(n.prefix);
    IndexOfAfter(ip, '/', Itoa(n.prefix));
    assert s[..|ip|] == ip;
    assert s[|ip| + 1..] == Itoa(n.prefix);
    ParseFormatIp(n.ip);
    assert ParseIp(s[..|ip|]) == V4(n.ip);
    assert ParsePrefixLen(s[|ip| + 1..], 32) == Some(n.prefix);
    MaskedIsBlockStart(n.ip, n.prefix);
    assert ParseCidr(s) == Cidr4(IPNet(Masked(n.ip, n.prefix), n.prefix));
  }

  // ---------------------------------------------------------------------------------------
  // IPv6 text.

  /** An IPv6 CIDR is accepted exactly when its address part is well-formed IPv6 text and its
      prefix length is at most 128; the text is then kept as it is. */
  lemma ParseCidrV6(a: string, m: string)
    requires '/' !in a && FirstSpecial(a) == Some(':')
    ensures ParseCidr(a + "/" + m) ==
      if IsV6Text(a) && ParsePrefixLen(m, 128).Some? then Cidr6Form(a + "/" + m) else CidrInvalid
  {
    var s := a + "/" + m;
    assert s == a + ['/'] + m;
    IndexOfAfter(a, '/', m);
    assert s[..|a|] == a && s[|a| + 1..] == m;
  }

  /** The unspecified address and a link-local address are IPv6 text. */
  lemma V6TextExamples()
    ensures IsV6Text("::") && IsV6Text("fe80::1")
  {
  }

  /** A second "::", a field of five digits and a zone are not. */
  lemma V6TextCounterexamples()
    ensures !IsV6Text("1::2::3") && !IsV6Text("12345::") && !IsV6Text("fe80::1%eth0")
  {
  }

  /** ParseCIDR rejects an address part that only looks like IPv6. */
  lemma MalformedV6CidrRejected()
    ensures ParseCidr("::zz/999") == CidrInvalid
  {
    assert !IsV6Text("::zz");
    ParseCidrV6("::zz", "999");
    assert "::zz" + "/" + "999" == "::zz/999";
  }
}
