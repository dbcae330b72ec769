/** The .NET string helpers the core relies on: `char.IsWhiteSpace`,
    `string.IsNullOrWhiteSpace`, `ToLowerInvariant` and ordinal
    case-insensitive comparison. */
module Text {
  import opened Basics

  /** `char.IsWhiteSpace`: the Unicode space, line and paragraph separators,
      U+0009 to U+000D and U+0085. */
  predicate IsWhiteSpace(c: char) {
    || c == ' '
    || '\t' <= c <= '\r'
    || c == '\U{85}'
    || c == '\U{A0}'
    || c == '\U{1680}'
    || '\U{2000}' <= c <= '\U{200A}'
    || c == '\U{2028}'
    || c == '\U{2029}'
    || c == '\U{202F}'
    || c == '\U{205F}'
    || c == '\U{3000}'
  }

  /** Every character is white space (the empty string included). */
  predicate IsBlank(s: string) {
    forall i :: 0 <= i < |s| ==> IsWhiteSpace(s[i])
  }

  /** `string.IsNullOrWhiteSpace`. */
  predicate IsNullOrWhiteSpace(s: Option<string>)
    ensures s.Some? ==> (IsNullOrWhiteSpace(s) <==> !exists i :: 0 <= i < |s.value| && !IsWhiteSpace(s.value[i]))
  {
    s.None? || IsBlank(s.value)
  }

  /** Lower-casing of one character under the invariant culture, for the
      ASCII letters. */
  function LowerChar(c: char): (r: char)
    ensures 'a' <= r <= 'z' <==> ('a' <= c <= 'z' || 'A' <= c <= 'Z')
    ensures !('A' <= c <= 'Z') ==> r == c
  {
    if 'A' <= c <= 'Z' then (c as int - 'A' as int + 'a' as int) as char else c
  }

  /** `string.ToLowerInvariant`, character by character. */
  function ToLowerInvariant(s: string): (r: string)
    ensures |r| == |s|
    ensures forall i :: 0 <= i < |s| ==> !('A' <= r[i] <= 'Z')
  {
    seq(|s|, i requires 0 <= i < |s| => LowerChar(s[i]))
  }

  /** `string.Equals(a, b, StringComparison.OrdinalIgnoreCase)`. */
  predicate EqualsIgnoreCase(a: string, b: string) {
    ToLowerInvariant(a) == ToLowerInvariant(b)
  }

  /** Lower-casing twice is lower-casing once. */
  lemma ToLowerIdempotent(s: string)
    ensures ToLowerInvariant(ToLowerInvariant(s)) == ToLowerInvariant(s)
  {
  }

  /** Lower-casing neither creates nor removes white space. */
  lemma ToLowerKeepsBlank(s: string)
    ensures IsBlank(ToLowerInvariant(s)) <==> IsBlank(s)
  {
    var t := ToLowerInvariant(s);
    forall i | 0 <= i < |s| ensures IsWhiteSpace(t[i]) <==> IsWhiteSpace(s[i]) {
      assert t[i] == LowerChar(s[i]);
    }
  }
}
