/** Claims, the claim types the core reads and writes, and the content of a
    JSON Web Token as this system issues it. */
module Claims {
  import opened Basics
  import opened Text

  datatype Claim = Claim(kind: string, value: string)

  /** `ClaimTypes.NameIdentifier`. */
  const NameIdentifierType: string := "http://schemas.xmlsoap.org/ws/2005/05/identity/claims/nameidentifier"
  /** `ClaimTypes.Email`. */
  const EmailType: string := "http://schemas.xmlsoap.org/ws/2005/05/identity/claims/emailaddress"
  /** `JwtRegisteredClaimNames.Sub`. */
  const SubType: string := "sub"
  /** `JwtRegisteredClaimNames.Email`. */
  const JwtEmailType: string := "email"
  const FullNameType: string := "fullName"

  /** The claim type lookup of `ClaimsIdentity`: ordinal, ignoring case. */
  predicate SameType(a: string, b: string) {
    EqualsIgnoreCase(a, b)
  }

  /** `FindFirstValue(kind)`: the value of the first claim of that type, or
      null when there is none. */
  function FindFirstValue(claims: seq<Claim>, kind: string): (r: Option<string>)
    ensures r.None? <==> forall i :: 0 <= i < |claims| ==> !SameType(claims[i].kind, kind)
    ensures r.Some? ==> exists i :: 0 <= i < |claims| && IsFirstOfType(claims, kind, i) && claims[i].value == r.value
    decreases |claims|
  {
    if |claims| == 0 then None
    else if SameType(claims[0].kind, kind) then
      assert IsFirstOfType(claims, kind, 0);
      Some(claims[0].value)
    else
      var r := FindFirstValue(claims[1..], kind);
      if r.Some? then
        var i :| 0 <= i < |claims[1..]| && IsFirstOfType(claims[1..], kind, i) && claims[1..][i].value == r.value;
        assert IsFirstOfType(claims, kind, i + 1);
        r
      else
        assert forall i :: 1 <= i < |claims| ==> claims[i] == claims[1..][i - 1];
        r
  }

  /** Claim `i` is of type `kind` and no earlier claim is. */
  predicate IsFirstOfType(claims: seq<Claim>, kind: string, i: int) {
    && 0 <= i < |claims|
    && SameType(claims[i].kind, kind)
    && forall j :: 0 <= j < i ==> !SameType(claims[j].kind, kind)
  }

  /** When claim `i` is the first of its type, `FindFirstValue` returns its
      value. */
  lemma FindFirstValueAt(claims: seq<Claim>, kind: string, i: int)
    requires IsFirstOfType(claims, kind, i)
    ensures FindFirstValue(claims, kind) == Some(claims[i].value)
  {
    var r := FindFirstValue(claims, kind);
    var k :| 0 <= k < |claims| && IsFirstOfType(claims, kind, k) && claims[k].value == r.value;
    assert k == i;
  }

  /** The inbound claim-type map applied by the token handler when it turns a
      validated token into claims: `sub` becomes `ClaimTypes.NameIdentifier`
      and `email` becomes `ClaimTypes.Email`; other types are kept. */
  function InboundType(kind: string): string {
    if kind == SubType then NameIdentifierType
    else if kind == JwtEmailType then EmailType
    else kind
  }

  function MapInbound(claims: seq<Claim>): (r: seq<Claim>)
    ensures |r| == |claims|
    ensures forall i :: 0 <= i < |claims| ==> r[i] == Claim(InboundType(claims[i].kind), claims[i].value)
  {
    seq(|claims|, i requires 0 <= i < |claims| => Claim(InboundType(claims[i].kind), claims[i].value))
  }

  /** The content of an issued token: issuer and audience from the
      configuration, the claims, and the expiry instant. Its signature and
      serialisation are not part of this model. */
  datatype JwtToken = JwtToken(issuer: string, audience: string, claims: seq<Claim>, expires: int)
}
