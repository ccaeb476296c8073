/** The ABAC authorizer: deciding requests and listing a user's rules. */
module Abac {
  import opened Prelude

  const ALL_AUTHENTICATED := "system:authenticated"

  datatype Policy = Policy(
    user: string, group: string, readonly: bool,
    apiGroup: string, resource: string, namespace: string, nonResourcePath: string)

  datatype V0Policy = V0Policy(user: string, group: string, readonly: bool, resource: string, namespace: string)

  datatype User = User(username: string, groups: seq<string>)

  datatype Request = Request(
    user: User, verb: string, namespace: Option<string>, apiGroup: string, resource: string,
    path: Option<string>, nonResource: bool)

  function NamespaceOf(a: Request): string {
    if a.namespace.Some? then a.namespace.value else ""
  }

  function PathOf(a: Request): string {
    if a.path.Some? then a.path.value else ""
  }

  // -------------------------------------------------------------- matching

  /** A policy names its subjects by user, by group or by both; naming neither
      matches nobody. */
  predicate SubjectHolds(p: Policy, user: User) {
    && (p.user != "" || p.group != "")
    && (p.user == "" || p.user == "*" || p.user == user.username)
    && (p.group == "" || p.group == "*" || p.group in user.groups)
  }

  method SubjectMatches(p: Policy, user: User) returns (matched: bool)
    ensures matched == SubjectHolds(p, user)
  {
    matched := false;
    if p.user != "" {
      if p.user == "*" {
        matched := true;
      } else {
        matched := p.user == user.username;
        if !matched {
          return false;
        }
      }
    }
    if p.group != "" {
      if p.group == "*" {
        matched := true;
      } else {
        matched := p.group in user.groups;
        if !matched {
          return false;
        }
      }
    }
  }

  predicate IsReadOnly(verb: string) {
    verb == "get" || verb == "list" || verb == "watch"
  }

  predicate VerbHolds(p: Policy, a: Request) {
    IsReadOnly(a.verb) || !p.readonly
  }

  function TrimStars(s: string): string {
    if s != [] && s[|s| - 1] == '*' then TrimStars(s[..|s| - 1]) else s
  }

  /** Wildcard, exact, or a trailing-star prefix. */
  predicate PathMatches(pattern: string, path: string) {
    pattern == "*" || pattern == path || (pattern != [] && pattern[|pattern| - 1] == '*' && TrimStars(pattern) <= path)
  }

  function Stars(n: nat): string {
    seq(n, i => '*')
  }

  lemma {:induction false} TrimStarsMeans(s: string) returns (n: nat)
    ensures s == TrimStars(s) + Stars(n) && (TrimStars(s) == "" || TrimStars(s)[|TrimStars(s)| - 1] != '*')
    ensures n > 0 <==> s != "" && s[|s| - 1] == '*'
  {
    n := 0;
    if s != [] && s[|s| - 1] == '*' {
      var m := TrimStarsMeans(s[..|s| - 1]);
      n := m + 1;
      assert s == s[..|s| - 1] + ['*'] && Stars(n) == Stars(m) + ['*'];
    }
  }

  lemma {:induction false} TrimStarsUnique(prefix: string, n: nat)
    requires prefix == "" || prefix[|prefix| - 1] != '*'
    ensures TrimStars(prefix + Stars(n)) == prefix
  {
    var s := prefix + Stars(n);
    if n == 0 {
      assert s == prefix;
    } else {
      assert s[..|s| - 1] == prefix + Stars(n - 1) && s[|s| - 1] == '*';
      TrimStarsUnique(prefix, n - 1);
    }
  }

  /** A pattern matches its own path and, ending in stars, every path that starts
      with what is before them. */
  lemma PathMeans(pattern: string, path: string)
    ensures PathMatches(pattern, path) <==>
            || pattern == path
            || exists prefix, n: nat ::
                 n > 0 && pattern == prefix + Stars(n) && (prefix == "" || prefix[|prefix| - 1] != '*') && prefix <= path
  {
    var n := TrimStarsMeans(pattern);
    if pattern == "*" {
      assert TrimStars(pattern) == "" by {
        assert pattern == "" + Stars(1);
        TrimStarsUnique("", 1);
      }
    }
    if prefix, m: nat :| m > 0 && pattern == prefix + Stars(m) && (prefix == "" || prefix[|prefix| - 1] != '*') && prefix <= path {
      TrimStarsUnique(prefix, m);
      assert pattern[|pattern| - 1] == '*';
    }
  }

  predicate ResourceHolds(p: Policy, a: Request) {
    && !a.nonResource
    && (p.namespace == "*" || p.namespace == NamespaceOf(a))
    && (p.resource == "*" || p.resource == a.resource)
    && (p.apiGroup == "*" || p.apiGroup == a.apiGroup)
  }

  predicate NonResourceHolds(p: Policy, a: Request) {
    a.nonResource && PathMatches(p.nonResourcePath, PathOf(a))
  }

  predicate Matches(p: Policy, a: Request) {
    SubjectHolds(p, a.user) && VerbHolds(p, a) && (ResourceHolds(p, a) || NonResourceHolds(p, a))
  }

  ghost predicate Authorized(policies: seq<Policy>, a: Request) {
    exists k :: 0 <= k < |policies| && Matches(policies[k], a)
  }

  /** What a policy allows, read off its fields. */
  lemma PolicyMeans(p: Policy, a: Request)
    ensures Matches(p, a) <==>
            && !(p.user == "" && p.group == "")
            && p.user in {"", "*", a.user.username}
            && (p.group in {"", "*"} || p.group in a.user.groups)
            && (p.readonly ==> a.verb in {"get", "list", "watch"})
            && (if a.nonResource then PathMatches(p.nonResourcePath, PathOf(a))
                else p.namespace in {"*", NamespaceOf(a)} && p.resource in {"*", a.resource} && p.apiGroup in {"*", a.apiGroup})
  {
  }

  /** `authorize` */
  method Authorize(policies: seq<Policy>, a: Request) returns (allow: bool)
    ensures allow <==> Authorized(policies, a)
  {
    var i := 0;
    while i < |policies|
      invariant 0 <= i <= |policies|
      invariant forall k | 0 <= k < i :: !Matches(policies[k], a)
    {
      if Matches(policies[i], a) {
        return true;
      }
      i := i + 1;
    }
    return false;
  }

  // ------------------------------------------------------------ conversion

  /** `v0_to_policy` */
  method V0ToPolicy(input: V0Policy) returns (out: Policy)
    ensures out == FromV0(input)
  {
    out := Policy(input.user, input.group, input.readonly, "", input.resource, input.namespace, "");
    if input.user == "" && input.group == "" {
      out := out.(group := ALL_AUTHENTICATED);
    }
    if input.user == "*" || input.group == "*" {
      out := out.(group := ALL_AUTHENTICATED, user := "");
    }
    if input.namespace == "" {
      out := out.(namespace := "*");
    }
    if input.resource == "" {
      out := out.(resource := "*");
    }
    out := out.(apiGroup := "*");
    if input.namespace == "" && input.resource == "" {
      out := out.(nonResourcePath := "*");
    }
  }

  function FromV0(input: V0Policy): Policy {
    var anyone := (input.user == "" && input.group == "") || input.user == "*" || input.group == "*";
    Policy(
      if input.user == "*" || input.group == "*" then "" else input.user,
      if anyone then ALL_AUTHENTICATED else input.group,
      input.readonly, "*",
      if input.resource == "" then "*" else input.resource,
      if input.namespace == "" then "*" else input.namespace,
      if input.namespace == "" && input.resource == "" then "*" else "")
  }

  function FromV1Beta1(input: Policy): Policy {
    if input.user == "*" || input.group == "*" then input.(group := ALL_AUTHENTICATED, user := "") else input
  }

  /** Who a v0 line speaks of: unspecified or starred subjects are everyone
      authenticated. */
  predicate V0Subject(input: V0Policy, user: User) {
    if (input.user == "" && input.group == "") || input.user == "*" || input.group == "*" then ALL_AUTHENTICATED in user.groups
    else (input.user == "" || input.user == user.username) && (input.group == "" || input.group in user.groups)
  }

  /** What a v0 line allows, read off the line itself: blank fields match
      everything, and only an all-blank line reaches non-resource paths (the
      empty path excepted, which every converted line matches). */
  lemma V0Means(input: V0Policy, a: Request)
    ensures Matches(FromV0(input), a) <==>
            && V0Subject(input, a.user)
            && (IsReadOnly(a.verb) || !input.readonly)
            && (if a.nonResource then (input.namespace == "" && input.resource == "") || PathOf(a) == ""
                else (input.namespace in ["", "*"] || input.namespace == NamespaceOf(a)) &&
                     (input.resource in ["", "*"] || input.resource == a.resource))
  {
  }

  /** A converted v1beta1 policy names no starred subject: `*` now asks for an
      authenticated user. */
  lemma V1Beta1Means(input: Policy, user: User)
    ensures SubjectHolds(FromV1Beta1(input), user) <==>
            if input.user == "*" || input.group == "*" then ALL_AUTHENTICATED in user.groups else SubjectHolds(input, user)
  {
  }

  /** `v1beta1_to_policy`, whose input has the same fields: only the subjects
      change, and they change as stated. */
  method V1Beta1ToPolicy(input: Policy) returns (out: Policy)
    ensures out == FromV1Beta1(input)
    ensures out == input.(user := out.user, group := out.group)
    ensures forall user :: SubjectHolds(out, user) <==>
              if input.user == "*" || input.group == "*" then ALL_AUTHENTICATED in user.groups else SubjectHolds(input, user)
  {
    out := input;
    if input.user == "*" || input.group == "*" {
      out := out.(group := ALL_AUTHENTICATED, user := "");
    }
  }

  // --------------------------------------------------------------- listing

  datatype ResourceRule = ResourceRule(verbs: seq<string>, apiGroups: seq<string>, resources: seq<string>)

  datatype NonResourceRule = NonResourceRule(verbs: seq<string>, urls: seq<string>)

  function Verbs(readonly: bool): seq<string> {
    if readonly then ["get", "list", "watch"] else ["*"]
  }

  predicate Has(list: seq<string>, x: string) {
    x in list || "*" in list
  }

  predicate Covers(r: ResourceRule, a: Request) {
    Has(r.verbs, a.verb) && Has(r.apiGroups, a.apiGroup) && Has(r.resources, a.resource)
  }

  predicate CoversPath(r: NonResourceRule, verb: string, path: string) {
    Has(r.verbs, verb) && exists u :: u in r.urls && PathMatches(u, path)
  }

  predicate Listable(p: Policy, user: User, namespace: string) {
    SubjectHolds(p, user) && (p.namespace == "*" || p.namespace == namespace)
  }

  function ResourceRuleOf(user: User, namespace: string, p: Policy): Option<ResourceRule> {
    if Listable(p, user, namespace) && p.resource != "" then Some(ResourceRule(Verbs(p.readonly), [p.apiGroup], [p.resource])) else None
  }

  function NonResourceRuleOf(user: User, namespace: string, p: Policy): Option<NonResourceRule> {
    if Listable(p, user, namespace) && p.nonResourcePath != "" then Some(NonResourceRule(Verbs(p.readonly), [p.nonResourcePath])) else None
  }

  function ResourceRules(policies: seq<Policy>, user: User, namespace: string): seq<ResourceRule> {
    Collect((p: Policy) => ResourceRuleOf(user, namespace, p), policies)
  }

  function NonResourceRules(policies: seq<Policy>, user: User, namespace: string): seq<NonResourceRule> {
    Collect((p: Policy) => NonResourceRuleOf(user, namespace, p), policies)
  }

  /** `get_user_rules` */
  method GetUserRules(policies: seq<Policy>, user: User, namespace: string)
    returns (resourceRules: seq<ResourceRule>, nonResourceRules: seq<NonResourceRule>)
    ensures resourceRules == ResourceRules(policies, user, namespace)
    ensures nonResourceRules == NonResourceRules(policies, user, namespace)
  {
    resourceRules, nonResourceRules := [], [];
    var i := 0;
    while i < |policies|
      invariant 0 <= i <= |policies|
      invariant resourceRules == ResourceRules(policies[..i], user, namespace)
      invariant nonResourceRules == NonResourceRules(policies[..i], user, namespace)
    {
      assert policies[..i + 1][..i] == policies[..i];
      var p := policies[i];
      var subject := SubjectMatches(p, user);
      if subject && (p.namespace == "*" || p.namespace == namespace) {
        if p.resource != "" {
          resourceRules := resourceRules + [ResourceRule(Verbs(p.readonly), [p.apiGroup], [p.resource])];
        }
        if p.nonResourcePath != "" {
          nonResourceRules := nonResourceRules + [NonResourceRule(Verbs(p.readonly), [p.nonResourcePath])];
        }
      }
      i := i + 1;
    }
    assert policies[..i] == policies;
  }

  lemma VerbsCover(p: Policy, a: Request)
    ensures Has(Verbs(p.readonly), a.verb) <==> VerbHolds(p, a)
  {
  }

  /** A policy decides a resource request exactly as its rule covers it. */
  lemma RuleDecides(p: Policy, a: Request)
    requires !a.nonResource && p.resource != ""
    ensures Matches(p, a) <==>
            ResourceRuleOf(a.user, NamespaceOf(a), p).Some? && Covers(ResourceRuleOf(a.user, NamespaceOf(a), p).value, a)
  {
    VerbsCover(p, a);
  }

  ghost predicate Covered(policies: seq<Policy>, a: Request) {
    exists r :: r in ResourceRules(policies, a.user, NamespaceOf(a)) && Covers(r, a)
  }

  /** A resource request is allowed exactly when a listed rule covers it, or it
      names no resource and a policy without a resource matches it; so for a
      request that names a resource the listing is exact. */
  lemma ListingDecides(policies: seq<Policy>, a: Request)
    requires !a.nonResource
    ensures Authorized(policies, a) <==>
            Covered(policies, a) || exists k :: 0 <= k < |policies| && policies[k].resource == "" && Matches(policies[k], a)
    ensures a.resource != "" ==> (Authorized(policies, a) <==> Covered(policies, a))
  {
    var f := (p: Policy) => ResourceRuleOf(a.user, NamespaceOf(a), p);
    if k :| 0 <= k < |policies| && Matches(policies[k], a) && policies[k].resource != "" {
      RuleDecides(policies[k], a);
      CollectMember(f, policies, f(policies[k]).value);
    }
    if r :| r in ResourceRules(policies, a.user, NamespaceOf(a)) && Covers(r, a) {
      CollectMember(f, policies, r);
      var k :| 0 <= k < |policies| && f(policies[k]) == Some(r);
      RuleDecides(policies[k], a);
      assert Matches(policies[k], a);
    }
  }

  /** Naming no resource can be allowed without any listed rule. */
  lemma UnlistedAllowance()
    ensures var p := Policy("u", "", false, "*", "", "*", "");
            var a := Request(User("u", []), "get", None, "", "", None, false);
            Authorized([p], a) && !Covered([p], a)
  {
    var p := Policy("u", "", false, "*", "", "*", "");
    var a := Request(User("u", []), "get", None, "", "", None, false);
    assert Matches([p][0], a);
    forall r ensures r !in ResourceRules([p], a.user, NamespaceOf(a)) {
      CollectMember((q: Policy) => ResourceRuleOf(a.user, NamespaceOf(a), q), [p], r);
    }
  }

  ghost predicate PathCovered(policies: seq<Policy>, a: Request, namespace: string) {
    exists r :: r in NonResourceRules(policies, a.user, namespace) && CoversPath(r, a.verb, PathOf(a))
  }

  /** A non-resource rule covers a path exactly as its policy decides it. */
  lemma PathRuleDecides(p: Policy, a: Request, namespace: string)
    requires a.nonResource && NonResourceRuleOf(a.user, namespace, p).Some?
    ensures CoversPath(NonResourceRuleOf(a.user, namespace, p).value, a.verb, PathOf(a)) <==> Matches(p, a)
  {
    VerbsCover(p, a);
    assert p.nonResourcePath in NonResourceRuleOf(a.user, namespace, p).value.urls;
  }

  lemma PathListing(policies: seq<Policy>, a: Request, namespace: string)
    requires a.nonResource
    ensures PathCovered(policies, a, namespace) <==>
            exists k :: 0 <= k < |policies| && Matches(policies[k], a) && policies[k].nonResourcePath != "" &&
                        (policies[k].namespace == "*" || policies[k].namespace == namespace)
  {
    var f := (p: Policy) => NonResourceRuleOf(a.user, namespace, p);
    if r :| r in NonResourceRules(policies, a.user, namespace) && CoversPath(r, a.verb, PathOf(a)) {
      CollectMember(f, policies, r);
      var k :| 0 <= k < |policies| && f(policies[k]) == Some(r);
      PathRuleDecides(policies[k], a, namespace);
    }
    if k :| 0 <= k < |policies| && Matches(policies[k], a) && policies[k].nonResourcePath != "" &&
            (policies[k].namespace == "*" || policies[k].namespace == namespace) {
      PathRuleDecides(policies[k], a, namespace);
      CollectMember(f, policies, f(policies[k]).value);
      assert f(policies[k]).value in NonResourceRules(policies, a.user, namespace);
    }
  }

  /** Every listed non-resource rule is honoured; and a non-empty path is
      allowed exactly when the listing for some namespace covers it. */
  lemma PathListingDecides(policies: seq<Policy>, a: Request)
    requires a.nonResource
    ensures (exists namespace :: PathCovered(policies, a, namespace)) ==> Authorized(policies, a)
    ensures PathOf(a) != "" ==> (Authorized(policies, a) <==> exists namespace :: PathCovered(policies, a, namespace))
  {
    if namespace :| PathCovered(policies, a, namespace) {
      PathListing(policies, a, namespace);
    }
    if PathOf(a) != "" && Authorized(policies, a) {
      var k :| 0 <= k < |policies| && Matches(policies[k], a);
      PathListing(policies, a, policies[k].namespace);
      assert PathCovered(policies, a, policies[k].namespace);
    }
  }

  /** For converted v0 lines every namespace's listing is exact for non-empty
      paths. */
  lemma V0PathListing(inputs: seq<V0Policy>, a: Request, namespace: string)
    requires a.nonResource && PathOf(a) != ""
    ensures var policies := seq(|inputs|, i requires 0 <= i < |inputs| => FromV0(inputs[i]));
            Authorized(policies, a) <==> PathCovered(policies, a, namespace)
  {
    var policies := seq(|inputs|, i requires 0 <= i < |inputs| => FromV0(inputs[i]));
    PathListing(policies, a, namespace);
    if Authorized(policies, a) {
      var k :| 0 <= k < |policies| && Matches(policies[k], a);
      assert policies[k] == FromV0(inputs[k]);
      V0Means(inputs[k], a);
    }
  }

  /** A namespaced v1beta1 policy is honoured for its path but not listed in
      other namespaces. */
  lemma NamespacedPathUnlisted()
    ensures var p := FromV1Beta1(Policy("u", "", false, "", "", "n", "/x"));
            var a := Request(User("u", []), "get", None, "", "", Some("/x"), true);
            Authorized([p], a) && !PathCovered([p], a, "m")
  {
    var p := FromV1Beta1(Policy("u", "", false, "", "", "n", "/x"));
    var a := Request(User("u", []), "get", None, "", "", Some("/x"), true);
    assert Matches([p][0], a);
    PathListing([p], a, "m");
  }
}
