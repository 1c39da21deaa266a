/** Hardware (MAC) addresses: net.ParseMAC, which reads the router port's MAC back, and
    HardwareAddr.String, which renders the MACs placed in REST bodies and in the CNI
    configuration. */
module Mac {
  import opened Basics

  /** net.HardwareAddr: a sequence of octets. The empty address is the nil HardwareAddr. */
  type MacAddr = seq<Byte>

  predicate IsHex(c: char) {
    ('0' <= c <= '9') || ('a' <= c <= 'f') || ('A' <= c <= 'F')
  }

  function HexValue(c: char): (v: nat)
    requires IsHex(c)
    ensures v < 16
  {
    if '0' <= c <= '9' then c as int - '0' as int
    else if 'a' <= c <= 'f' then c as int - 'a' as int + 10
    else c as int - 'A' as int + 10
  }

  /** The lower-case hex digit HardwareAddr.String writes. */
  function HexDigit(d: nat): (c: char)
    requires d < 16
    ensures IsHex(c) && HexValue(c) == d
    ensures !('A' <= c <= 'F')
  {
    if d < 10 then ('0' as int + d) as char else ('a' as int + d - 10) as char
  }

  /** The octet written by two hex digits. */
  function HexByte(hi: char, lo: char): Byte
    requires IsHex(hi) && IsHex(lo)
  {
    HexValue(hi) * 16 + HexValue(lo)
  }

  // ---------------------------------------------------------------------------------------
  // Colon/hyphen form: "00:00:5e:00:53:01", "00-00-5e-00-53-01" (6, 8 or 20 groups).

  /** Group i of the colon form is two hex digits, followed by the separator unless it is the
      last group. (The last group is the one that reaches the end of the text.) */
  predicate ColonGroupOk(s: string, i: nat, sep: char) {
    && 3 * i + 1 < |s|
    && IsHex(s[3 * i]) && IsHex(s[3 * i + 1])
    && (3 * i + 2 < |s| ==> s[3 * i + 2] == sep)
  }

  function ColonGroupByte(s: string, i: nat, sep: char): Byte
    requires ColonGroupOk(s, i, sep)
  {
    HexByte(s[3 * i], s[3 * i + 1])
  }

  function ParseColonForm(s: string): (r: Option<MacAddr>)
    requires |s| >= 14
    ensures r.Some? ==> |r.value| in {6, 8, 20} && 3 * |r.value| == |s| + 1
  {
    var sep := s[2];
    if (|s| + 1) % 3 != 0 then None
    else
      var n := (|s| + 1) / 3;
      if n != 6 && n != 8 && n != 20 then None
      else if forall i | 0 <= i < n :: ColonGroupOk(s, i, sep) then
        Some(seq(n, i requires 0 <= i < n && ColonGroupOk(s, i, sep) => ColonGroupByte(s, i, sep)))
      else None
  }

  // ---------------------------------------------------------------------------------------
  // Dot form: "0000.5e00.5301" (3, 4 or 10 groups of four hex digits, two octets each).

  /** Group j of the dot form is four hex digits, followed by a '.' unless it is the last. */
  predicate DotGroupOk(s: string, j: nat) {
    && 5 * j + 3 < |s|
    && IsHex(s[5 * j]) && IsHex(s[5 * j + 1]) && IsHex(s[5 * j + 2]) && IsHex(s[5 * j + 3])
    && (5 * j + 4 < |s| ==> s[5 * j + 4] == '.')
  }

  /** Octet i of a dot-form address: the first or second half of group i / 2. */
  function DotByte(s: string, i: nat): Byte
    requires DotGroupOk(s, i / 2)
  {
    var x := 5 * (i / 2) + 2 * (i % 2);
    HexByte(s[x], s[x + 1])
  }

  function ParseDotForm(s: string): (r: Option<MacAddr>)
    requires |s| >= 14
    ensures r.Some? ==> |r.value| in {6, 8, 20} && 5 * |r.value| == 2 * (|s| + 1)
  {
    if (|s| + 1) % 5 != 0 then None
    else
      var n := 2 * (|s| + 1) / 5;
      if n != 6 && n != 8 && n != 20 then None
      else if forall j | 0 <= j < n / 2 :: DotGroupOk(s, j) then
        Some(seq(n, i requires 0 <= i < n && DotGroupOk(s, i / 2) => DotByte(s, i)))
      else None
  }

  /** net.ParseMAC: at least 14 characters; the colon/hyphen form when the third character
      is ':' or '-' (every separator must then be that character), the dot form when the
      fifth character is '.', and an error otherwise. */
  function ParseMac(s: string): (r: Option<MacAddr>)
    ensures r.Some? ==> |r.value| in {6, 8, 20}
    ensures |s| < 14 ==> r.None?
  {
    if |s| < 14 then None
    else if s[2] == ':' || s[2] == '-' then ParseColonForm(s)
    else if s[4] == '.' then ParseDotForm(s)
    else None
  }

  // ---------------------------------------------------------------------------------------
  // Rendering.

  function HexPair(b: Byte): string {
    [HexDigit(b / 16), HexDigit(b % 16)]
  }

  /** HardwareAddr.String: lower-case hex pairs joined by ':'; the empty address is "". */
  function FormatMac(m: MacAddr): (s: string)
    ensures |m| == 0 ==> s == ""
    ensures |m| >= 1 ==> |s| == 3 * |m| - 1
  {
    if |m| == 0 then ""
    else if |m| == 1 then HexPair(m[0])
    else HexPair(m[0]) + [':'] + FormatMac(m[1..])
  }

  /** Group i of `s` is the rendering of `b`, with a ':' after it unless it ends the text. */
  predicate RendersAt(s: string, i: nat, b: Byte) {
    && 3 * i + 1 < |s|
    && s[3 * i] == HexDigit(b / 16) && s[3 * i + 1] == HexDigit(b % 16)
    && (3 * i + 2 < |s| ==> s[3 * i + 2] == ':')
  }

  lemma HexPairValue(b: Byte)
    ensures HexByte(HexDigit(b / 16), HexDigit(b % 16)) == b
  {
  }

  /** Group i + 1 of `p + [':'] + t`, for a two-character `p`, is group i of `t`. */
  lemma RendersAtShift(p: string, t: string, i: nat, b: Byte)
    requires |p| == 2 && RendersAt(t, i, b)
    ensures RendersAt(p + [':'] + t, i + 1, b)
  {
    var s := p + [':'] + t;
    assert s[3 * (i + 1)] == t[3 * i];
    assert s[3 * (i + 1) + 1] == t[3 * i + 1];
    if 3 * (i + 1) + 2 < |s| {
      assert s[3 * (i + 1) + 2] == t[3 * i + 2];
    }
  }

  /** Every octet of `m` is rendered at its group position. */
  lemma {:induction false} FormatMacGroups(m: MacAddr)
    requires |m| >= 1
    ensures forall i | 0 <= i < |m| :: RendersAt(FormatMac(m), i, m[i])
  {
    var s := FormatMac(m);
    if |m| == 1 {
      assert RendersAt(s, 0, m[0]);
    } else {
      var t := FormatMac(m[1..]);
      assert s == HexPair(m[0]) + [':'] + t;
      FormatMacGroups(m[1..]);
      forall i | 0 <= i < |m| ensures RendersAt(s, i, m[i]) {
        if i == 0 {
          assert s[0] == HexDigit(m[0] / 16) && s[1] == HexDigit(m[0] % 16) && s[2] == ':';
        } else {
          assert RendersAt(t, i - 1, m[1..][i - 1]);
          RendersAtShift(HexPair(m[0]), t, i - 1, m[i]);
        }
      }
    }
  }

  /** ParseMAC reads back what HardwareAddr.String writes, for every length ParseMAC accepts. */
  lemma ParseFormatMac(m: MacAddr)
    requires |m| in {6, 8, 20}
    ensures ParseMac(FormatMac(m)) == Some(m)
  {
    var s := FormatMac(m);
    FormatMacGroups(m);
    assert RendersAt(s, 0, m[0]);
    assert s[2] == ':';
    var n := |m|;
    assert (|s| + 1) / 3 == n;
    forall i | 0 <= i < n
      ensures ColonGroupOk(s, i, ':') && ColonGroupByte(s, i, ':') == m[i]
    {
      assert RendersAt(s, i, m[i]);
      HexPairValue(m[i]);
    }
    var r := ParseColonForm(s);
    assert r.Some?;
    assert r.value == m;
  }

  predicate NoUpperHex(s: string) {
    forall k | 0 <= k < |s| :: !('A' <= s[k] <= 'F')
  }

  lemma HexDigitOfValue(c: char)
    requires IsHex(c) && !('A' <= c <= 'F')
    ensures HexDigit(HexValue(c)) == c
  {
  }

  lemma HexByteDigits(hi: char, lo: char)
    requires IsHex(hi) && IsHex(lo)
    ensures HexByte(hi, lo) / 16 == HexValue(hi) && HexByte(hi, lo) % 16 == HexValue(lo)
  {
  }

  /** Lower-case colon-form text is exactly the rendering of the address it parses to. */
  lemma FormatParseMac(s: string)
    requires ParseMac(s).Some? && s[2] == ':' && NoUpperHex(s)
    ensures FormatMac(ParseMac(s).value) == s
  {
    var m := ParseMac(s).value;
    var t := FormatMac(m);
    assert ParseColonForm(s) == Some(m);
    var n := |m|;
    assert forall i | 0 <= i < n :: ColonGroupOk(s, i, ':');
    FormatMacGroups(m);
    forall k | 0 <= k < |s| ensures t[k] == s[k] {
      var i := k / 3;
      assert ColonGroupOk(s, i, ':') && RendersAt(t, i, m[i]);
      assert m[i] == ColonGroupByte(s, i, ':');
      HexByteDigits(s[3 * i], s[3 * i + 1]);
      HexDigitOfValue(s[3 * i]);
      HexDigitOfValue(s[3 * i + 1]);
    }
  }
}
