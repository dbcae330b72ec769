/** `System.Guid` as its 32 hexadecimal digits, with the textual form that
    `Guid.ToString()` writes and that `Guid.TryParse` reads back. */
module Guids {
  import opened Basics
  import opened Text

  type HexDigit = d: int | 0 <= d < 16

  /** A GUID: 128 bits, held as 32 hexadecimal digits, most significant first. */
  type Guid = s: seq<HexDigit> | |s| == 32 witness seq(32, _ => 0)

  function HexChar(d: HexDigit): (c: char)
    ensures HexValue(c) == Some(d)
    ensures LowerChar(c) == c
  {
    if d < 10 then ('0' as int + d) as char else ('a' as int + d - 10) as char
  }

  /** The value of a hexadecimal digit in either letter case. */
  function HexValue(c: char): Option<HexDigit> {
    if '0' <= c <= '9' then Some(c as int - '0' as int)
    else if 'a' <= c <= 'f' then Some(c as int - 'a' as int + 10)
    else if 'A' <= c <= 'F' then Some(c as int - 'A' as int + 10)
    else None
  }

  function FormatHex(ds: seq<HexDigit>): (s: string)
    ensures |s| == |ds|
    ensures forall i :: 0 <= i < |ds| ==> s[i] == HexChar(ds[i])
  {
    seq(|ds|, i requires 0 <= i < |ds| => HexChar(ds[i]))
  }

  function ParseHex(s: string): (r: Option<seq<HexDigit>>)
    ensures r.Some? <==> forall i :: 0 <= i < |s| ==> HexValue(s[i]).Some?
    ensures r.Some? ==> |r.value| == |s| && forall i :: 0 <= i < |s| ==> Some(r.value[i]) == HexValue(s[i])
  {
    if forall i :: 0 <= i < |s| ==> HexValue(s[i]).Some? then
      Some(seq(|s|, i requires 0 <= i < |s| => var v := HexValue(s[i]); if v.Some? then v.value else 0))
    else
      None
  }

  /** `Guid.ToString()`: the "D" form, `xxxxxxxx-xxxx-xxxx-xxxx-xxxxxxxxxxxx`,
      in lower case. */
  function Format(g: Guid): (s: string)
    ensures |s| == 36
    ensures IsDForm(s) && ToLowerInvariant(s) == s
  {
    DFormOfPieces(FormatHex(g[..8]), FormatHex(g[8..12]), FormatHex(g[12..16]),
                  FormatHex(g[16..20]), FormatHex(g[20..]));
    FormatHex(g[..8]) + "-" + FormatHex(g[8..12]) + "-" + FormatHex(g[12..16]) + "-"
      + FormatHex(g[16..20]) + "-" + FormatHex(g[20..])
  }

  /** Hexadecimal digits in lower case only. */
  predicate LowerHex(s: string) {
    forall i :: 0 <= i < |s| ==> HexValue(s[i]).Some? && LowerChar(s[i]) == s[i]
  }

  /** Five groups of 8, 4, 4, 4 and 12 lower-case digits joined by dashes
      make a "D" form that lower-casing leaves alone. */
  lemma DFormOfPieces(a: string, b: string, c: string, d: string, e: string)
    requires |a| == 8 && |b| == 4 && |c| == 4 && |d| == 4 && |e| == 12
    requires LowerHex(a) && LowerHex(b) && LowerHex(c) && LowerHex(d) && LowerHex(e)
    ensures var s := a + "-" + b + "-" + c + "-" + d + "-" + e;
            IsDForm(s) && ToLowerInvariant(s) == s
  {
    var s := a + "-" + b + "-" + c + "-" + d + "-" + e;
    forall i | 0 <= i < 36
      ensures (if IsDash(i) then s[i] == '-' else HexValue(s[i]).Some?) && LowerChar(s[i]) == s[i]
    {
      if i < 8 { assert s[i] == a[i]; }
      else if i == 8 { }
      else if i < 13 { assert s[i] == b[i - 9]; }
      else if i == 13 { }
      else if i < 18 { assert s[i] == c[i - 14]; }
      else if i == 18 { }
      else if i < 23 { assert s[i] == d[i - 19]; }
      else if i == 23 { }
      else { assert s[i] == e[i - 24]; }
    }
  }

  /** The positions of the four dashes of the "D" form. */
  predicate IsDash(i: int) {
    i == 8 || i == 13 || i == 18 || i == 23
  }

  /** The 32 digit characters of a 36-character "D" form, dashes removed. */
  function Digits(s: string): (t: string)
    requires |s| == 36
    ensures |t| == 32
  {
    s[..8] + s[9..13] + s[14..18] + s[19..23] + s[24..]
  }

  /** The "D" form: 36 characters, dashes at positions 8, 13, 18 and 23, and
      a hexadecimal digit of either case at every other position. */
  predicate IsDForm(s: string) {
    |s| == 36 && forall i :: 0 <= i < 36 ==> if IsDash(i) then s[i] == '-' else HexValue(s[i]).Some?
  }

  /** The index among the 32 digits of the character at position `i` of the
      "D" form. */
  function DigitIndex(i: int): (j: int)
    requires 0 <= i < 36 && !IsDash(i)
    ensures 0 <= j < 32
  {
    if i < 8 then i else if i < 13 then i - 1 else if i < 18 then i - 2 else if i < 23 then i - 3 else i - 4
  }

  /** The position in the "D" form of digit `j`. */
  function DigitPosition(j: int): (i: int)
    requires 0 <= j < 32
    ensures 0 <= i < 36 && !IsDash(i) && DigitIndex(i) == j
  {
    if j < 8 then j else if j < 12 then j + 1 else if j < 16 then j + 2 else if j < 20 then j + 3 else j + 4
  }

  /** Removing the dashes moves each digit to its digit index. */
  lemma DigitsAt(s: string, i: int)
    requires |s| == 36 && 0 <= i < 36 && !IsDash(i)
    ensures Digits(s)[DigitIndex(i)] == s[i]
  {
    var a, b, c, d, e := s[..8], s[9..13], s[14..18], s[19..23], s[24..];
    assert Digits(s) == a + b + c + d + e;
  }

  /** Every character of the "D" form other than a dash is a digit exactly
      when every character of its digit string is. */
  lemma DigitsAllHex(s: string)
    requires |s| == 36
    ensures (forall j :: 0 <= j < 32 ==> HexValue(Digits(s)[j]).Some?)
        <==> (forall i :: 0 <= i < 36 && !IsDash(i) ==> HexValue(s[i]).Some?)
  {
    forall i | 0 <= i < 36 && !IsDash(i) ensures Digits(s)[DigitIndex(i)] == s[i] {
      DigitsAt(s, i);
    }
    forall j | 0 <= j < 32 ensures Digits(s)[j] == s[DigitPosition(j)] {
      DigitsAt(s, DigitPosition(j));
    }
  }

  /** `Guid.TryParse` for the "D" form: 36 characters, dashes at positions
      8, 13, 18 and 23, hexadecimal digits of either case elsewhere. It
      succeeds on exactly the "D" form, and the GUID it reads is the one
      whose text is the input in lower case. */
  function TryParse(s: string): (r: Option<Guid>)
    ensures r.Some? <==> IsDForm(s)
    ensures r.Some? ==> Format(r.value) == ToLowerInvariant(s)
  {
    if |s| == 36 && s[8] == '-' && s[13] == '-' && s[18] == '-' && s[23] == '-' then
      DigitsAllHex(s);
      match ParseHex(Digits(s))
      case Some(ds) => FormatOfParsed(s, ds); Some(ds)
      case None => None
    else
      None
  }

  /** A hexadecimal digit written back is the digit in lower case. */
  lemma HexCharOfValue(c: char)
    requires HexValue(c).Some?
    ensures HexChar(HexValue(c).value) == LowerChar(c)
  {
  }

  /** Formatting the digits read from a "D" form writes that form in lower
      case. */
  lemma FormatOfParsed(s: string, g: Guid)
    requires |s| == 36 && s[8] == '-' && s[13] == '-' && s[18] == '-' && s[23] == '-'
    requires ParseHex(Digits(s)) == Some(g)
    ensures Format(g) == ToLowerInvariant(s)
  {
    var f, t := Format(g), ToLowerInvariant(s);
    forall i | 0 <= i < 36 ensures f[i] == t[i] {
      FormatAt(g, i);
      if !IsDash(i) {
        DigitsAt(s, i);
        HexCharOfValue(s[i]);
      }
    }
  }

  /** Position `i` of the "D" form holds a dash or the digit at its index. */
  lemma FormatAt(g: Guid, i: int)
    requires 0 <= i < 36
    ensures Format(g)[i] == if IsDash(i) then '-' else HexChar(g[DigitIndex(i)])
  {
    var a, b, c, d, e := FormatHex(g[..8]), FormatHex(g[8..12]), FormatHex(g[12..16]),
                         FormatHex(g[16..20]), FormatHex(g[20..]);
    assert Format(g) == a + "-" + b + "-" + c + "-" + d + "-" + e;
  }

  /** The digits of a formatted GUID are the GUID's own digits. */
  lemma DigitsOfFormat(g: Guid)
    ensures Digits(Format(g)) == FormatHex(g)
  {
    var s := Format(g);
    var a, b, c, d, e := FormatHex(g[..8]), FormatHex(g[8..12]), FormatHex(g[12..16]),
                         FormatHex(g[16..20]), FormatHex(g[20..]);
    assert s == a + "-" + b + "-" + c + "-" + d + "-" + e;
    assert s[..8] == a;
    assert s[9..13] == b;
    assert s[14..18] == c;
    assert s[19..23] == d;
    assert s[24..] == e;
    var t := Digits(s);
    forall i | 0 <= i < 32 ensures t[i] == HexChar(g[i]) {
      if i < 8 { assert t[i] == a[i]; }
      else if i < 12 { assert t[i] == b[i - 8]; }
      else if i < 16 { assert t[i] == c[i - 12]; }
      else if i < 20 { assert t[i] == d[i - 16]; }
      else { assert t[i] == e[i - 20]; }
    }
  }

  /** Parsing what `Guid.ToString()` wrote gives the same GUID back. */
  lemma ParseFormat(g: Guid)
    ensures TryParse(Format(g)) == Some(g)
  {
    var s := Format(g);
    var a, b, c, d, e := FormatHex(g[..8]), FormatHex(g[8..12]), FormatHex(g[12..16]),
                         FormatHex(g[16..20]), FormatHex(g[20..]);
    assert s == a + "-" + b + "-" + c + "-" + d + "-" + e;
    assert s[8] == '-' && s[13] == '-' && s[18] == '-' && s[23] == '-';
    DigitsOfFormat(g);
    var t := FormatHex(g);
    var p := ParseHex(t);
    assert p.Some?;
    assert p.value == g;
  }

  /** Distinct GUIDs have distinct textual forms. */
  lemma FormatInjective(g1: Guid, g2: Guid)
    requires Format(g1) == Format(g2)
    ensures g1 == g2
  {
    ParseFormat(g1);
    ParseFormat(g2);
  }
}
