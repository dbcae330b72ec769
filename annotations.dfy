/** The data-annotation attributes of System.ComponentModel.DataAnnotations
    that the request and entity classes carry, as predicates on strings.
    Lengths count the characters of the string. */
module Annotations {
  import opened Text

  /** `[Required]` on a string: not null, not empty and not only white space
      (`AllowEmptyStrings` is false by default). */
  predicate Required(s: string) {
    !IsBlank(s)
  }

  /** `[MaxLength(n)]`. */
  predicate MaxLength(s: string, n: nat) {
    |s| <= n
  }

  /** `[StringLength(max, MinimumLength = min)]` on a non-null string. */
  predicate StringLength(s: string, min: nat, max: nat) {
    min <= |s| <= max
  }

  /** `[EmailAddress]`: exactly one '@', neither the first nor the last
      character. */
  predicate EmailAddress(s: string) {
    exists i :: 0 < i < |s| - 1 && s[i] == '@' && forall j :: 0 <= j < |s| && s[j] == '@' ==> j == i
  }
}
