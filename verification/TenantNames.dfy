/**
  The tenant name check of middleware/validation.go, as the regular expression it uses, and its
  agreement with the check of the exporter.
 */
module TenantNames {
  import opened MetricsRecord

  /** The class `[a-zA-Z0-9_-]`. */
  predicate InClass(c: char) {
    'a' <= c <= 'z' || 'A' <= c <= 'Z' || '0' <= c <= '9' || c == '_' || c == '-'
  }

  /** `^[a-zA-Z0-9_-]+$`: one character of the class, then more of them up to the end. */
  predicate Matches(s: string) {
    s != "" && InClass(s[0]) && (s[1..] == "" || Matches(s[1..]))
  }

  /** `isValidTenantName` */
  predicate IsValidTenantName(name: string) {
    if |name| == 0 || |name| > 50 then false else Matches(name)
  }

  lemma {:induction false} MatchesAll(s: string)
    requires s != ""
    ensures Matches(s) <==> forall c <- s :: IsTenantChar(c)
  {
    assert forall c <- s :: c == s[0] || c in s[1..];
    assert s[0] in s && forall c <- s[1..] :: c in s;
    if s[1..] != "" {
      MatchesAll(s[1..]);
    }
  }

  /** The two services accept exactly the same tenant names. */
  lemma ChecksAgree(name: string)
    ensures IsValidTenantName(name) <==> ValidTenant(name)
  {
    if name != "" {
      MatchesAll(name);
    }
  }
}
