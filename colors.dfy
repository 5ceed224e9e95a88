/**
 * The colour helpers of the threat display: parsing and formatting of
 * `#rrggbb` strings (hex_to_rgb, rgb_to_hex) and the three-band colour
 * classifier of the threat level (get_threat_color).
 */
module Colors {
  import opened Wrappers

  type Rgb = (int, int, int)

  const NeonBlue: string := "#00e5ff"
  const NeonOrange: string := "#ff9900"
  const NeonPurple: string := "#ff00e5"

  /** Thresholds of the LOW / MEDIUM / HIGH bands of the colour map. */
  const MediumThreshold: int := 30
  const HighThreshold: int := 70

  // ---------------------------------------------------------------- digits

  predicate IsHexDigit(c: char) {
    ('0' <= c <= '9') || ('a' <= c <= 'f') || ('A' <= c <= 'F')
  }

  predicate IsLowerHexDigit(c: char) {
    ('0' <= c <= '9') || ('a' <= c <= 'f')
  }

  function HexValue(c: char): (v: nat)
    requires IsHexDigit(c)
    ensures v < 16
  {
    if '0' <= c <= '9' then c as int - '0' as int
    else if 'a' <= c <= 'f' then c as int - 'a' as int + 10
    else c as int - 'A' as int + 10
  }

  /** The lower-case digit Python's `x` format writes for d. */
  function LowerHexDigit(d: nat): (c: char)
    requires d < 16
    ensures IsLowerHexDigit(c) && HexValue(c) == d
  {
    if d < 10 then ('0' as int + d) as char else ('a' as int + d - 10) as char
  }

  lemma LowerHexDigitOfValue(c: char)
    requires IsLowerHexDigit(c)
    ensures LowerHexDigit(HexValue(c)) == c
  {
  }

  // ---------------------------------------------------------------- rgb_to_hex

  /** `int(max(0, min(255, x)))` for an integer channel. */
  function ClampChannel(x: int): (c: int)
    ensures 0 <= c <= 255
    ensures 0 <= x <= 255 ==> c == x
    ensures x < 0 ==> c == 0
    ensures x > 255 ==> c == 255
  {
    if x < 0 then 0 else if x > 255 then 255 else x
  }

  /** `f'{c:02x}'` for 0 <= c <= 255: two lower-case digits, zero-padded. */
  function Hex2(c: int): (s: string)
    requires 0 <= c <= 255
    ensures |s| == 2 && IsLowerHexDigit(s[0]) && IsLowerHexDigit(s[1])
    ensures HexValue(s[0]) * 16 + HexValue(s[1]) == c
  {
    [LowerHexDigit(c / 16), LowerHexDigit(c % 16)]
  }

  predicate IsCanonicalHexColor(s: string) {
    |s| == 7 && s[0] == '#' && forall i :: 1 <= i < 7 ==> IsLowerHexDigit(s[i])
  }

  /** rgb_to_hex: clamps each channel into 0..255 and formats `#rrggbb`. */
  function RgbToHex(r: int, g: int, b: int): (s: string)
    ensures IsCanonicalHexColor(s)
  {
    "#" + Hex2(ClampChannel(r)) + Hex2(ClampChannel(g)) + Hex2(ClampChannel(b))
  }

  // ---------------------------------------------------------------- hex_to_rgb

  /** `s.lstrip('#')`: drops every leading '#'. */
  function LStripHash(s: string): (t: string)
    ensures |t| <= |s| && t == s[|s| - |t|..]
    ensures t == [] || t[0] != '#'
    ensures forall i :: 0 <= i < |s| - |t| ==> s[i] == '#'
  {
    if s != [] && s[0] == '#' then LStripHash(s[1..]) else s
  }

  /** Python's slice `t[i:j]` for 0 <= i <= j: clipped to the string. */
  function Slice(t: string, i: nat, j: nat): (u: string)
    requires i <= j
    ensures |u| <= j - i
    ensures j <= |t| ==> u == t[i..j]
    ensures u == t[(if i <= |t| then i else |t|)..(if j <= |t| then j else |t|)]
  {
    if j <= |t| then t[i..j] else if i <= |t| then t[i..] else []
  }

  /**
   * The ASCII characters that Python's int() skips around a number: space,
   * tab, line feed, carriage return, vertical tab and form feed (not the
   * separators \x1c-\x1f, which str.isspace() accepts but int() rejects).
   * A helper of StripSpace and the lemmas about it.
   */
  predicate IsSpace(c: char) {
    c == ' ' || c == '\t' || c == '\n' || c == '\r' || c == '\U{B}' || c == '\U{C}'
  }

  /** `str.strip()` of the white space int() skips: drops it at both ends, keeps the middle. */
  function StripSpace(s: string): (t: string)
    ensures |t| <= |s|
    ensures t == [] || (!IsSpace(t[0]) && !IsSpace(t[|t| - 1]))
    decreases |s|
  {
    if s == [] then []
    else if IsSpace(s[0]) then StripSpace(s[1..])
    else if IsSpace(s[|s| - 1]) then StripSpace(s[..|s| - 1])
    else s
  }

  /**
   * StripSpace leaves a string without white space unchanged and empties
   * exactly the all-white-space strings.
   */
  lemma {:induction false} StripSpaceKeeps(s: string)
    ensures (forall i :: 0 <= i < |s| ==> !IsSpace(s[i])) ==> StripSpace(s) == s
    ensures StripSpace(s) == [] <==> forall i :: 0 <= i < |s| ==> IsSpace(s[i])
    decreases |s|
  {
    if s == [] {
    } else if IsSpace(s[0]) {
      var rest := s[1..];
      StripSpaceKeeps(rest);
      assert forall i :: 1 <= i < |s| ==> s[i] == rest[i - 1];
    } else if IsSpace(s[|s| - 1]) {
      var rest := s[..|s| - 1];
      StripSpaceKeeps(rest);
      assert forall i :: 0 <= i < |s| - 1 ==> s[i] == rest[i];
    }
  }

  /** StripSpace removes white space and nothing else: every other character of the input survives. */
  lemma {:induction false} StripSpaceMembers(s: string)
    ensures forall c :: c in StripSpace(s) ==> c in s
    ensures forall i :: 0 <= i < |s| ==> s[i] in StripSpace(s) || IsSpace(s[i])
    decreases |s|
  {
    if s == [] {
    } else if IsSpace(s[0]) {
      var rest := s[1..];
      StripSpaceMembers(rest);
      assert forall i :: 1 <= i < |s| ==> s[i] == rest[i - 1];
    } else if IsSpace(s[|s| - 1]) {
      var rest := s[..|s| - 1];
      StripSpaceMembers(rest);
      assert forall i :: 0 <= i < |s| - 1 ==> s[i] == rest[i];
    }
  }

  /** t is s[a..b], and everything before a and from b on is white space. */
  predicate TrimmedAt(s: string, t: string, a: nat, b: nat) {
    a <= b <= |s| && t == s[a..b]
    && (forall i :: 0 <= i < a ==> IsSpace(s[i]))
    && (forall i :: b <= i < |s| ==> IsSpace(s[i]))
  }

  /** A white-space character put in front moves the trimmed window one place right. */
  lemma TrimmedAtFront(s: string, t: string, a: nat, b: nat)
    requires s != [] && IsSpace(s[0]) && TrimmedAt(s[1..], t, a, b)
    ensures TrimmedAt(s, t, a + 1, b + 1)
  {
    var rest := s[1..];
    assert rest[a..b] == s[a + 1..b + 1];
    assert forall i :: 1 <= i < |s| ==> s[i] == rest[i - 1];
  }

  /** A white-space character put at the end leaves the trimmed window where it is. */
  lemma TrimmedAtBack(s: string, t: string, a: nat, b: nat)
    requires s != [] && IsSpace(s[|s| - 1]) && TrimmedAt(s[..|s| - 1], t, a, b)
    ensures TrimmedAt(s, t, a, b)
  {
    var rest := s[..|s| - 1];
    assert rest[a..b] == s[a..b];
    assert forall i :: 0 <= i < |s| - 1 ==> s[i] == rest[i];
  }

  /**
   * StripSpace is a contiguous infix of its input, and everything before it
   * and after it is white space.
   */
  lemma {:induction false} StripSpaceInfix(s: string)
    ensures exists a: nat, b: nat :: TrimmedAt(s, StripSpace(s), a, b)
    decreases |s|
  {
    if s == [] {
      assert TrimmedAt(s, StripSpace(s), 0, 0);
    } else if IsSpace(s[0]) {
      StripSpaceInfix(s[1..]);
      var a: nat, b: nat :| TrimmedAt(s[1..], StripSpace(s[1..]), a, b);
      TrimmedAtFront(s, StripSpace(s[1..]), a, b);
      assert TrimmedAt(s, StripSpace(s), a + 1, b + 1);
    } else if IsSpace(s[|s| - 1]) {
      StripSpaceInfix(s[..|s| - 1]);
      var a: nat, b: nat :| TrimmedAt(s[..|s| - 1], StripSpace(s[..|s| - 1]), a, b);
      TrimmedAtBack(s, StripSpace(s[..|s| - 1]), a, b);
      assert TrimmedAt(s, StripSpace(s), a, b);
    } else {
      assert TrimmedAt(s, StripSpace(s), 0, |s|);
    }
  }

  /**
   * `int(u, 16)` for a string of at most two characters (every slice
   * hex_to_rgb takes is that short), by the rule Python applies: surrounding
   * white space is skipped, a sign is allowed, and what remains must be a
   * non-empty run of hex digits; any other string raises ValueError,
   * modelled as None.
   */
  function StrippedHexInt(u: string): (r: Option<int>)
    requires |u| <= 2
    ensures u == [] ==> r == None
    ensures r.Some? <==> Magnitude(StripSpace(u)) != [] && AllHexDigits(Magnitude(StripSpace(u)))
  {
    var v := StripSpace(u);
    var digits := Magnitude(v);
    if digits != [] && AllHexDigits(digits) then
      var n: int := if |digits| == 1 then HexValue(digits[0]) else HexValue(digits[0]) * 16 + HexValue(digits[1]);
      Some(if v[0] == '-' then -n else n)
    else
      None
  }

  predicate AllHexDigits(d: string) {
    forall i :: 0 <= i < |d| ==> IsHexDigit(d[i])
  }

  /** The number without its sign: what must be hex digits once the white space is stripped. */
  function Magnitude(v: string): (d: string)
    ensures |d| <= |v|
  {
    if v != [] && (v[0] == '-' || v[0] == '+') then v[1..] else v
  }

  /** Magnitude drops at most a leading sign. */
  lemma MagnitudeKeeps(v: string)
    ensures forall i :: 0 <= i < |v| ==> v[i] in Magnitude(v) || (i == 0 && (v[0] == '-' || v[0] == '+'))
    ensures forall c :: c in Magnitude(v) ==> c in v
  {
    if v != [] && (v[0] == '-' || v[0] == '+') {
      assert forall i :: 1 <= i < |v| ==> v[i] == v[1..][i - 1];
    }
  }

  /**
   * `int(u, 16)` on the strings of at most two characters, form by form:
   * two digits; one digit; a digit after white space or '+'; a negated digit
   * after '-'; a digit before white space. Everything else raises.
   */
  function ParseHexInt(u: string): (r: Option<int>)
    requires |u| <= 2
    ensures |u| == 2 && IsHexDigit(u[0]) && IsHexDigit(u[1]) ==>
              r == Some(HexValue(u[0]) * 16 + HexValue(u[1]))
    ensures u == [] ==> r == None
  {
    if |u| == 1 then
      if IsHexDigit(u[0]) then Some(HexValue(u[0])) else None
    else if |u| == 2 then
      if IsHexDigit(u[0]) && IsHexDigit(u[1]) then Some(HexValue(u[0]) * 16 + HexValue(u[1]))
      else if IsHexDigit(u[1]) && (IsSpace(u[0]) || u[0] == '+') then Some(HexValue(u[1]))
      else if IsHexDigit(u[1]) && u[0] == '-' then Some(-(HexValue(u[1]) as int))
      else if IsHexDigit(u[0]) && IsSpace(u[1]) then Some(HexValue(u[0]))
      else None
    else
      None
  }

  /** The table of forms is exactly Python's rule on every string of at most two characters. */
  lemma ParseHexIntIsStripped(u: string)
    requires |u| <= 2
    ensures ParseHexInt(u) == StrippedHexInt(u)
  {
    if |u| == 1 {
      if IsSpace(u[0]) {
        assert StripSpace(u) == StripSpace(u[1..]);
      } else {
        assert StripSpace(u) == u;
      }
    } else if |u| == 2 {
      if IsSpace(u[0]) {
        assert StripSpace(u) == StripSpace(u[1..]);
        assert u[1..][1..] == [];
        if IsSpace(u[1]) {
          assert StripSpace(u[1..]) == StripSpace(u[1..][1..]);
        } else {
          assert StripSpace(u[1..]) == u[1..];
        }
      } else if IsSpace(u[1]) {
        assert StripSpace(u) == StripSpace(u[..1]);
        assert StripSpace(u[..1]) == u[..1];
      } else {
        assert StripSpace(u) == u;
        assert Magnitude(u) == if u[0] == '-' || u[0] == '+' then u[1..] else u;
      }
    }
  }

  /** What int() accepts contains a hex digit of the input. */
  lemma StrippedHexIntNeedsDigit(u: string)
    requires |u| <= 2
    ensures StrippedHexInt(u).Some? ==> exists i :: 0 <= i < |u| && IsHexDigit(u[i])
  {
    var d := Magnitude(StripSpace(u));
    StripSpaceMembers(u);
    MagnitudeKeeps(StripSpace(u));
    if StrippedHexInt(u).Some? {
      assert d[0] in d && d[0] in StripSpace(u) && d[0] in u;
      var i :| 0 <= i < |u| && u[i] == d[0];
      assert IsHexDigit(u[i]);
    }
  }

  /** int() raises on a character that is neither a hex digit, white space nor a sign. */
  lemma StrippedHexIntRejects(u: string, i: nat)
    requires |u| <= 2 && i < |u|
    requires !IsHexDigit(u[i]) && !IsSpace(u[i]) && u[i] != '-' && u[i] != '+'
    ensures StrippedHexInt(u) == None
  {
    var v := StripSpace(u);
    var d := Magnitude(v);
    StripSpaceMembers(u);
    MagnitudeKeeps(v);
    assert u[i] in v;
    var k :| 0 <= k < |v| && v[k] == u[i];
    assert u[i] in d;
    var m :| 0 <= m < |d| && d[m] == u[i];
    assert !AllHexDigits(d);
  }

  /**
   * hex_to_rgb: strips the leading '#' characters and parses the slices
   * [0:2], [2:4] and [4:6] with int(_, 16); None where Python raises.
   */
  function HexToRgb(s: string): (r: Option<Rgb>)
    ensures |LStripHash(s)| < 5 ==> r == None
  {
    var t := LStripHash(s);
    match (ParseHexInt(Slice(t, 0, 2)), ParseHexInt(Slice(t, 2, 4)), ParseHexInt(Slice(t, 4, 6)))
    case (Some(x), Some(y), Some(z)) => Some((x, y, z))
    case _ => None
  }

  /**
   * Regression example of StrippedHexIntRejects: an information separator
   * is not white space to int(), so hex_to_rgb rejects a colour whose red
   * pair starts with one.
   */
  lemma HexToRgbRejectsSeparator()
    ensures HexToRgb("#\U{1C}1ffff") == None
  {
    var s := "#\U{1C}1ffff";
    var t := s[1..];
    assert LStripHash(s) == LStripHash(t);
    assert t[0] != '#';
    assert Slice(t, 0, 2) == t[0..2];
  }

  /** Formatting then parsing gives back the clamped channels. */
  lemma RgbToHexRoundTrip(r: int, g: int, b: int)
    ensures HexToRgb(RgbToHex(r, g, b)) == Some((ClampChannel(r), ClampChannel(g), ClampChannel(b)))
  {
    var s := RgbToHex(r, g, b);
    var hr, hg, hb := Hex2(ClampChannel(r)), Hex2(ClampChannel(g)), Hex2(ClampChannel(b));
    assert s == "#" + hr + hg + hb;
    assert s[1] == hr[0] && s[2] == hr[1];
    assert s[3] == hg[0] && s[4] == hg[1];
    assert s[5] == hb[0] && s[6] == hb[1];
    HexToRgbOfCanonical(s);
  }

  /** For channels already in 0..255 the round trip is exact. */
  lemma RgbToHexRoundTripInRange(r: int, g: int, b: int)
    requires 0 <= r <= 255 && 0 <= g <= 255 && 0 <= b <= 255
    ensures HexToRgb(RgbToHex(r, g, b)) == Some((r, g, b))
  {
    RgbToHexRoundTrip(r, g, b);
  }

  lemma Hex2OfDigits(hi: char, lo: char)
    requires IsLowerHexDigit(hi) && IsLowerHexDigit(lo)
    ensures 0 <= HexValue(hi) * 16 + HexValue(lo) <= 255
    ensures Hex2(HexValue(hi) * 16 + HexValue(lo)) == [hi, lo]
  {
    var c := HexValue(hi) * 16 + HexValue(lo);
    assert c / 16 == HexValue(hi) && c % 16 == HexValue(lo);
    LowerHexDigitOfValue(hi);
    LowerHexDigitOfValue(lo);
  }

  lemma HexToRgbOfCanonical(s: string)
    requires IsCanonicalHexColor(s)
    ensures HexToRgb(s) == Some((HexValue(s[1]) * 16 + HexValue(s[2]),
                                 HexValue(s[3]) * 16 + HexValue(s[4]),
                                 HexValue(s[5]) * 16 + HexValue(s[6])))
  {
    var t := StripCanonical(s);
    var p0, p1, p2 := Slice(t, 0, 2), Slice(t, 2, 4), Slice(t, 4, 6);
    assert p0 == [s[1], s[2]] && p1 == [s[3], s[4]] && p2 == [s[5], s[6]];
    ParseHexPair(s[1], s[2]);
    ParseHexPair(s[3], s[4]);
    ParseHexPair(s[5], s[6]);
  }

  /** lstrip('#') on a canonical colour drops exactly the one '#'. */
  lemma StripCanonical(s: string) returns (t: string)
    requires IsCanonicalHexColor(s)
    ensures t == s[1..] && LStripHash(s) == t && |t| == 6
  {
    t := s[1..];
    assert LStripHash(s) == LStripHash(t);
    assert IsLowerHexDigit(t[0]);
  }

  lemma ParseHexPair(hi: char, lo: char)
    requires IsLowerHexDigit(hi) && IsLowerHexDigit(lo)
    ensures ParseHexInt([hi, lo]) == Some(HexValue(hi) * 16 + HexValue(lo))
  {
    var u := [hi, lo];
    assert IsHexDigit(u[0]) && IsHexDigit(u[1]);
  }

  /** Parsing a canonical `#rrggbb` string and formatting it again gives it back. */
  lemma HexToRgbRoundTrip(s: string)
    requires IsCanonicalHexColor(s)
    ensures HexToRgb(s).Some?
    ensures var c := HexToRgb(s).value; RgbToHex(c.0, c.1, c.2) == s
  {
    var r := HexValue(s[1]) * 16 + HexValue(s[2]);
    var g := HexValue(s[3]) * 16 + HexValue(s[4]);
    var b := HexValue(s[5]) * 16 + HexValue(s[6]);
    assert HexToRgb(s) == Some((r, g, b)) by {
      HexToRgbOfCanonical(s);
    }
    assert RgbToHex(r, g, b) == s by {
      RgbToHexOfPairs(s);
    }
  }

  /** Formatting the values of the three digit pairs of a canonical colour gives it back. */
  lemma RgbToHexOfPairs(s: string)
    requires IsCanonicalHexColor(s)
    ensures RgbToHex(HexValue(s[1]) * 16 + HexValue(s[2]),
                     HexValue(s[3]) * 16 + HexValue(s[4]),
                     HexValue(s[5]) * 16 + HexValue(s[6])) == s
  {
    var r := HexValue(s[1]) * 16 + HexValue(s[2]);
    var g := HexValue(s[3]) * 16 + HexValue(s[4]);
    var b := HexValue(s[5]) * 16 + HexValue(s[6]);
    Hex2OfDigits(s[1], s[2]);
    Hex2OfDigits(s[3], s[4]);
    Hex2OfDigits(s[5], s[6]);
    assert RgbToHex(r, g, b) == "#" + [s[1], s[2]] + [s[3], s[4]] + [s[5], s[6]];
    CanonicalPieces(s);
  }

  lemma CanonicalPieces(s: string)
    requires IsCanonicalHexColor(s)
    ensures s == "#" + [s[1], s[2]] + [s[3], s[4]] + [s[5], s[6]]
  {
    var t := "#" + [s[1], s[2]] + [s[3], s[4]] + [s[5], s[6]];
    assert |t| == 7;
    assert forall i :: 0 <= i < 7 ==> t[i] == s[i];
  }

  // ---------------------------------------------------------------- get_threat_color

  /** get_threat_color: LOW below 30, MEDIUM below 70, HIGH from 70 up. */
  function ThreatColor(level: int): (c: string)
    ensures c == NeonBlue <==> level < MediumThreshold
    ensures c == NeonOrange <==> MediumThreshold <= level < HighThreshold
    ensures c == NeonPurple <==> HighThreshold <= level
  {
    if level < MediumThreshold then NeonBlue
    else if level < HighThreshold then NeonOrange
    else NeonPurple
  }

  /** The colour of a higher level is never in a lower band. */
  lemma ThreatColorMonotone(l1: int, l2: int)
    requires l1 <= l2
    ensures ThreatColor(l1) == NeonPurple ==> ThreatColor(l2) == NeonPurple
    ensures ThreatColor(l2) == NeonBlue ==> ThreatColor(l1) == NeonBlue
  {
  }

  /** Every colour the classifier returns is canonical, so hex_to_rgb accepts it. */
  lemma ThreatColorParses(level: int)
    ensures IsCanonicalHexColor(ThreatColor(level))
    ensures HexToRgb(ThreatColor(level)).Some?
  {
    var c := ThreatColor(level);
    assert IsCanonicalHexColor(c);
    HexToRgbRoundTrip(c);
  }
}
