/** The policy of one principal, as enforcement reads it. */
module AccessPolicies {
  import opened Wrappers
  import opened JqEvaluation

  type User = string

  const WILDCARD := "*"

  /** `policy_data`: what decisions read of it (the switch, the stored owner, the role pointer and the fingerprint
    * of the minted key), and the whole of it as conditions see it. */
  datatype PolicyData = PolicyData(
    disabled: bool, owner: Option<User>, role: Option<string>, fingerprint: Option<string>,
    fields: map<string, Value>)

  datatype Policy = Policy(
    scopes: seq<string>, condition: Option<string>, conditionId: Option<string>, data: PolicyData)

  const EMPTY := Policy([], None, None, PolicyData(false, None, None, None, map[]))

  predicate Conditioned(p: Policy) {
    p.condition.Some? || p.conditionId.Some?
  }

  /** No scope and no condition: nothing is granted, and nobody is known by this policy. */
  predicate PolicyIsEmpty(p: Policy) {
    p.scopes == [] && !Conditioned(p)
  }

  /** The admin discriminator: a condition-free wildcard policy that is not itself an owned key. */
  predicate IsAdminPolicy(p: Policy, owner: Option<User>) {
    WILDCARD in p.scopes && !Conditioned(p) && owner.None?
  }

  /** What a policy row is served as: no row is no policy. */
  function Served(row: Option<Policy>): (p: Policy)
    ensures row.None? ==> PolicyIsEmpty(p)
  {
    if row.None? then EMPTY else row.value
  }

  function Kept(scopes: seq<string>, allowed: seq<string>): seq<string> {
    if scopes == [] then []
    else (if scopes[0] in allowed then [scopes[0]] else []) + Kept(scopes[1..], allowed)
  }

  /** The scopes an owned key carries: its own, capped by its owner's, with the wildcard as everything. */
  function EffectiveScopes(key: seq<string>, owner: seq<string>): seq<string> {
    if WILDCARD in owner then key
    else if WILDCARD in key then owner
    else Kept(key, owner)
  }

  /** Whether a scope list authorizes a protected resource. */
  predicate Covers(scopes: seq<string>, id: string) {
    WILDCARD in scopes || id in scopes
  }

  lemma {:induction false} KeptMembers(scopes: seq<string>, allowed: seq<string>, id: string)
    ensures id in Kept(scopes, allowed) <==> id in scopes && id in allowed
  {
    if scopes != [] {
      KeptMembers(scopes[1..], allowed, id);
      assert scopes == [scopes[0]] + scopes[1..];
    }
  }

  /** Attenuation is intersection: the capped list authorizes exactly what key and owner both authorize. */
  lemma EffectiveScopesIntersect(key: seq<string>, owner: seq<string>, id: string)
    ensures Covers(EffectiveScopes(key, owner), id) <==> Covers(key, id) && Covers(owner, id)
  {
    KeptMembers(key, owner, id);
    KeptMembers(key, owner, WILDCARD);
  }
}
