/**
 The terminal escaping of the command line client: control characters,
 bidirectional overrides and the backslash are rendered as escapes, and a
 single device-supplied field is capped at MAX_FIELD_CHARS characters.
 */
module Escape {
  import opened Prelude

  const MAX_FIELD_CHARS: nat := 256
  const TRUNCATION_MARKER: string := "..."

  predicate IsControl(c: char) {
    c as int <= 0x1f || 0x7f <= c as int <= 0x9f
  }

  predicate IsBidi(c: char) {
    0x202a <= c as int <= 0x202e || 0x2066 <= c as int <= 0x2069
  }

  predicate MustEscape(c: char) {
    IsControl(c) || IsBidi(c) || c == '\\'
  }

  function HexDigit(d: nat): char
    requires d < 16
  {
    if d < 10 then ('0' as int + d) as char else ('a' as int + d - 10) as char
  }

  /** Lower-case hexadecimal without leading zeros. */
  function Hex(n: nat): string {
    if n < 16 then [HexDigit(n)] else Hex(n / 16) + [HexDigit(n % 16)]
  }

  /** The standard library's debug escape, on the characters that need one. */
  function EscapeDebug(c: char): string
    requires MustEscape(c)
  {
    if c == '\0' then "\\0"
    else if c == '\t' then "\\t"
    else if c == '\n' then "\\n"
    else if c == '\r' then "\\r"
    else if c == '\\' then "\\\\"
    else "\\u{" + Hex(c as int) + "}"
  }

  function EscapeChar(c: char): string {
    if MustEscape(c) then EscapeDebug(c) else [c]
  }

  function Escape(s: string): string {
    if s == [] then [] else EscapeChar(s[0]) + Escape(s[1..])
  }

  // ----- the decoder, which exists only to show that nothing is lost -----

  function HexValue(c: char): Option<nat> {
    if '0' <= c <= '9' then Some(c as int - '0' as int)
    else if 'a' <= c <= 'f' then Some(c as int - 'a' as int + 10)
    else None
  }

  function ReadHex(s: string, acc: nat): (r: Option<(nat, string)>)
    ensures r.Some? ==> |r.value.1| < |s|
  {
    if s == [] then None
    else if s[0] == '}' then Some((acc, s[1..]))
    else match HexValue(s[0])
      case None => None
      case Some(d) => ReadHex(s[1..], acc * 16 + d)
  }

  predicate IsScalar(n: nat) {
    n < 0xd800 || 0xe000 <= n < 0x11_0000
  }

  /** Reads one possibly escaped character and returns what follows it. */
  function NextChar(s: string): (r: Option<(char, string)>)
    requires s != []
    ensures r.Some? ==> |r.value.1| < |s|
  {
    if s[0] != '\\' then Some((s[0], s[1..]))
    else if |s| < 2 then None
    else if s[1] == '0' then Some(('\0', s[2..]))
    else if s[1] == 't' then Some(('\t', s[2..]))
    else if s[1] == 'n' then Some(('\n', s[2..]))
    else if s[1] == 'r' then Some(('\r', s[2..]))
    else if s[1] == '\\' then Some(('\\', s[2..]))
    else if s[1] == 'u' && |s| >= 3 && s[2] == '{' then
      match ReadHex(s[3..], 0)
      case None => None
      case Some((n, rest)) => if IsScalar(n) then Some((n as char, rest)) else None
    else None
  }

  function Decode(s: string): Option<string>
    decreases |s|
  {
    if s == [] then Some([])
    else match NextChar(s)
      case None => None
      case Some((c, rest)) =>
        match Decode(rest)
        case None => None
        case Some(tail) => Some([c] + tail)
  }

  lemma {:induction false} ReadHexAfterHex(n: nat, t: string)
    ensures ReadHex(Hex(n) + t, 0) == ReadHex(t, n)
  {
    if n < 16 {
      assert Hex(n) + t == [HexDigit(n)] + t;
    } else {
      var digit := [HexDigit(n % 16)];
      ReadHexAfterHex(n / 16, digit + t);
      assert Hex(n) + t == Hex(n / 16) + (digit + t);
    }
  }

  lemma NextCharOfEscape(c: char, rest: string)
    ensures NextChar(EscapeChar(c) + rest) == Some((c, rest))
  {
    var s := EscapeChar(c) + rest;
    if !MustEscape(c) || c in {'\0', '\t', '\n', '\r', '\\'} {
      assert s[|EscapeChar(c)|..] == rest;
    } else {
      ReadHexAfterHex(c as int, "}" + rest);
      assert s[3..] == Hex(c as int) + ("}" + rest);
      assert ("}" + rest)[1..] == rest;
    }
  }

  /** Escaping loses nothing: the decoder recovers every string. */
  lemma {:induction false} DecodeEscape(s: string)
    ensures Decode(Escape(s)) == Some(s)
  {
    if s != [] {
      NextCharOfEscape(s[0], Escape(s[1..]));
      DecodeEscape(s[1..]);
      assert s == [s[0]] + s[1..];
    }
  }

  /** Two different values never render identically. */
  lemma EscapeInjective(s: string, t: string)
    requires Escape(s) == Escape(t)
    ensures s == t
  {
    DecodeEscape(s);
    DecodeEscape(t);
  }

  lemma {:induction false} HexIsPlain(n: nat)
    ensures forall c :: c in Hex(n) ==> HexValue(c).Some?
  {
    if n >= 16 {
      HexIsPlain(n / 16);
    }
  }

  /** No rendering carries a character that could drive the terminal. */
  lemma {:induction false} EscapeIsHarmless(s: string)
    ensures forall c :: c in Escape(s) ==> !IsControl(c) && !IsBidi(c)
  {
    if s != [] {
      EscapeIsHarmless(s[1..]);
      HexIsPlain(s[0] as int);
    }
  }

  /** Text is passed through unchanged exactly when nothing in it needs an escape. */
  lemma {:induction false} EscapeIsIdentity(s: string)
    ensures Escape(s) == s <==> forall c :: c in s ==> !MustEscape(c)
    ensures |Escape(s)| >= |s|
  {
    if s != [] {
      EscapeIsIdentity(s[1..]);
      assert s == [s[0]] + s[1..];
      if MustEscape(s[0]) {
        assert |EscapeChar(s[0])| > 1;
      } else if Escape(s) == s {
        assert Escape(s)[1..] == Escape(s[1..]);
      }
    }
  }

  lemma {:induction false} EscapeAppend(s: string, t: string)
    ensures Escape(s + t) == Escape(s) + Escape(t)
  {
    if s == [] {
      assert s + t == t;
    } else {
      EscapeAppend(s[1..], t);
      assert (s + t)[1..] == s[1..] + t;
    }
  }

  method EscapeControl(value: string) returns (escaped: string)
    ensures escaped == Escape(value)
  {
    escaped := [];
    for i := 0 to |value|
      invariant escaped == Escape(value[..i])
    {
      escaped := PushEscaped(value[i], escaped);
      EscapeAppend(value[..i], [value[i]]);
      assert value[..i + 1] == value[..i] + [value[i]];
    }
    assert value[..|value|] == value;
  }

  method PushEscaped(character: char, output: string) returns (extended: string)
    ensures extended == output + EscapeChar(character)
    ensures extended == output + Escape([character])
  {
    if MustEscape(character) {
      extended := output + EscapeDebug(character);
    } else {
      extended := output + [character];
    }
    assert Escape([character]) == EscapeChar(character) + Escape([]);
  }

  // ----- the capped form -----

  /** How many characters of s can be rendered in at most `room` characters. */
  function LongestFit(s: string, room: nat): (k: nat)
    ensures k <= |s| && |Escape(s[..k])| <= room
    ensures k < |s| ==> |Escape(s[..k + 1])| > room
  {
    if s == [] then 0
    else
      var cost := |EscapeChar(s[0])|;
      if cost > room then
        assert s[..1] == [s[0]];
        assert Escape(s[..1]) == EscapeChar(s[0]) + Escape([]);
        0
      else
        var k := LongestFit(s[1..], room - cost);
        assert s[..k + 1][1..] == s[1..][..k];
        assert k + 1 < |s| ==> s[..k + 2][1..] == s[1..][..k + 1];
        k + 1
  }

  lemma {:induction false} PrefixRendersShorter(s: string, i: nat, j: nat)
    requires i <= j <= |s|
    ensures |Escape(s[..i])| <= |Escape(s[..j])|
  {
    assert s[..j] == s[..i] + s[i..j];
    EscapeAppend(s[..i], s[i..j]);
  }

  /** The fit is unique: any maximal fitting prefix is the longest one. */
  lemma FitIsUnique(s: string, room: nat, k: nat)
    requires k <= |s| && |Escape(s[..k])| <= room
    requires k < |s| ==> |Escape(s[..k + 1])| > room
    ensures k == LongestFit(s, room)
  {
    var best := LongestFit(s, room);
    if k < best {
      PrefixRendersShorter(s, k + 1, best);
    } else if best < k {
      PrefixRendersShorter(s, best + 1, k);
    }
  }

  /** What a field must look like: the whole rendering when it fits, and
      otherwise the longest fitting prefix followed by the marker. */
  function Field(s: string): string {
    if |Escape(s)| <= MAX_FIELD_CHARS then Escape(s)
    else Escape(s[..LongestFit(s, MAX_FIELD_CHARS)]) + TRUNCATION_MARKER
  }

  method EscapeField(value: string) returns (escaped: string)
    ensures escaped == Field(value)
  {
    escaped := [];
    var rendered := 0;
    for i := 0 to |value|
      invariant escaped == Escape(value[..i])
      invariant rendered == |escaped| <= MAX_FIELD_CHARS
    {
      var start := |escaped|;
      escaped := PushEscaped(value[i], escaped);
      EscapeAppend(value[..i], [value[i]]);
      assert value[..i + 1] == value[..i] + [value[i]];
      rendered := rendered + |escaped[start..]|;
      if rendered > MAX_FIELD_CHARS {
        escaped := escaped[..start];
        escaped := escaped + TRUNCATION_MARKER;
        FitIsUnique(value, MAX_FIELD_CHARS, i);
        PrefixRendersShorter(value, i + 1, |value|);
        assert value[..|value|] == value;
        return;
      }
    }
    assert value[..|value|] == value;
  }

  /** Every escape is one to eight characters long. */
  lemma EscapeWidth(c: char)
    ensures 1 <= |EscapeChar(c)| <= 8
  {
    if MustEscape(c) && c !in {'\0', '\t', '\n', '\r', '\\'} {
      var n := c as int;
      assert |Hex(n)| <= 4 by {
        assert n < 0x10000;
        assert n / 16 / 16 / 16 < 16;
        HexWidth(n, 4);
      }
    }
  }

  lemma {:induction false} HexWidth(n: nat, digits: nat)
    requires digits > 0 && n < Pow16(digits)
    ensures |Hex(n)| <= digits
  {
    if n >= 16 {
      HexWidth(n / 16, digits - 1);
    }
  }

  function Pow16(e: nat): nat {
    if e == 0 then 1 else 16 * Pow16(e - 1)
  }

  /** The next character did not fit, and no escape is wider than eight. */
  lemma KeptIsLong(s: string, k: nat, room: nat)
    requires k < |s| && |Escape(s[..k])| <= room < |Escape(s[..k + 1])|
    ensures room - 8 < |Escape(s[..k])|
  {
    assert s[..k + 1] == s[..k] + [s[k]];
    EscapeAppend(s[..k], [s[k]]);
    assert Escape([s[k]]) == EscapeChar(s[k]) + Escape([]);
    EscapeWidth(s[k]);
  }

  /** A field never exceeds the cap plus the marker, is cut between characters
      rather than inside an escape, and wastes fewer than eight characters. */
  lemma FieldIsCapped(s: string)
    ensures |Field(s)| <= MAX_FIELD_CHARS + |TRUNCATION_MARKER|
    ensures |Escape(s)| > MAX_FIELD_CHARS ==>
              exists kept ::
                && Field(s) == kept + TRUNCATION_MARKER
                && Decode(kept) == Some(s[..LongestFit(s, MAX_FIELD_CHARS)])
                && MAX_FIELD_CHARS - 8 < |kept| <= MAX_FIELD_CHARS
  {
    if |Escape(s)| > MAX_FIELD_CHARS {
      var k := LongestFit(s, MAX_FIELD_CHARS);
      assert k < |s| by {
        assert s[..|s|] == s;
      }
      DecodeEscape(s[..k]);
      KeptIsLong(s, k, MAX_FIELD_CHARS);
      assert Field(s) == Escape(s[..k]) + TRUNCATION_MARKER;
    }
  }

  lemma FieldIsHarmless(s: string)
    ensures forall c :: c in Field(s) ==> !IsControl(c) && !IsBidi(c)
  {
    EscapeIsHarmless(s);
    EscapeIsHarmless(s[..LongestFit(s, MAX_FIELD_CHARS)]);
  }

  /** Exactly when a cut rendering can be mistaken for an uncut one: the part
      kept leaves room for the marker inside the cap. */
  lemma CutIsAmbiguousIff(s: string)
    requires |Escape(s)| > MAX_FIELD_CHARS
    ensures (exists t :: |Escape(t)| <= MAX_FIELD_CHARS && Field(t) == Field(s))
       <==> |Escape(s[..LongestFit(s, MAX_FIELD_CHARS)])| + |TRUNCATION_MARKER| <= MAX_FIELD_CHARS
  {
    var kept := s[..LongestFit(s, MAX_FIELD_CHARS)];
    var t := kept + TRUNCATION_MARKER;
    EscapeAppend(kept, TRUNCATION_MARKER);
    EscapeIsIdentity(TRUNCATION_MARKER);
    if |Escape(kept)| + |TRUNCATION_MARKER| <= MAX_FIELD_CHARS {
      assert |Escape(t)| <= MAX_FIELD_CHARS && Field(t) == Field(s);
    }
  }

  // ----- two fields that read alike -----

  const PLAIN: string := seq(253, _ => 'a')
  const CUT_FIELD: string := PLAIN + [0x1b as char]
  const UNCUT_FIELD: string := PLAIN + "..."

  /** A name of 253 letters and an escape character is cut, a name of the same
      letters and three dots is not, and both are shown alike. */
  lemma CutCanBeAmbiguous()
    ensures |Escape(CUT_FIELD)| == 259 && |Escape(UNCUT_FIELD)| == 256
    ensures CUT_FIELD != UNCUT_FIELD && Field(CUT_FIELD) == Field(UNCUT_FIELD)
  {
    EscapeIsIdentity(PLAIN);
    EscapeIsIdentity(UNCUT_FIELD);
    EscapeAppend(PLAIN, [0x1b as char]);
    assert Hex(0x1b) == "1b" by {
      assert Hex(1) == "1" && HexDigit(11) == 'b';
    }
    assert Escape([0x1b as char]) == EscapeChar(0x1b as char) == "\\u{1b}";
    assert CUT_FIELD[..253] == PLAIN && CUT_FIELD[..254] == CUT_FIELD;
    FitIsUnique(CUT_FIELD, MAX_FIELD_CHARS, 253);
    assert CUT_FIELD[253] != UNCUT_FIELD[253];
  }
}
