/** Matching authenticated GitHub subjects against the configured identities. */
module Identity {
  import opened Prelude
  import opened Text
  import opened Config

  /** A JSON value as far as the `ref_protected` claim is concerned. */
  datatype Json = JsonBool(flag: bool) | JsonString(text: string) | JsonOther

  datatype Claims = Claims(
    jti: Option<string>,
    exp: nat,
    repository: string,
    repositoryId: string,
    gitRef: string,
    refType: string,
    refProtected: Option<Json>,
    workflowRef: string,
    workflowSha: Option<string>,
    eventName: string,
    environment: Option<string>,
    runnerEnvironment: Option<string>)

  predicate ClaimIsTrue(value: Option<Json>) {
    match value
    case Some(JsonBool(flag)) => flag
    case Some(JsonString(text)) => text == "true"
    case _ => false
  }

  /** A claim counts as true as the boolean or as the text "true", and in no other way. */
  lemma ClaimIsTrueMeans(value: Option<Json>)
    ensures ClaimIsTrue(value) <==> value in {Some(JsonBool(true)), Some(JsonString("true"))}
  {
  }

  // ---- Accounts ----

  predicate MatchesAccount(identity: IdentityConfig, userId: string, login: string) {
    && identity.kind == GithubAccount
    && identity.githubUserId == Some(userId)
    && (identity.githubLogin.Some? ==> EqIgnoreAsciiCase(identity.githubLogin.value, login))
  }

  /** The first matching identity in configuration order. */
  function FindAccount(identities: seq<IdentityConfig>, userId: string, login: string): (r: Option<IdentityConfig>)
    ensures r.Some? ==> r.value in identities && MatchesAccount(r.value, userId, login)
    ensures r.None? <==> forall i :: 0 <= i < |identities| ==> !MatchesAccount(identities[i], userId, login)
  {
    if identities == [] then None
    else if MatchesAccount(identities[0], userId, login) then Some(identities[0])
    else FindAccount(identities[1..], userId, login)
  }

  /** In a validated configuration an account matches at most one identity. */
  lemma AccountMatchIsUnique(identities: seq<IdentityConfig>, x: IdentityConfig, y: IdentityConfig, userId: string,
                             login: string)
    requires IdentitiesOk(identities) && x in identities && y in identities
    requires MatchesAccount(x, userId, login) && MatchesAccount(y, userId, login)
    ensures x == y
  {
  }

  /** Which identity an account gets does not depend on the order of a validated configuration. */
  lemma AccountOrderIsIrrelevant(identities: seq<IdentityConfig>, reordered: seq<IdentityConfig>, userId: string,
                                 login: string)
    requires IdentitiesOk(identities) && multiset(identities) == multiset(reordered)
    ensures FindAccount(identities, userId, login) == FindAccount(reordered, userId, login)
  {
    var x, y := FindAccount(identities, userId, login), FindAccount(reordered, userId, login);
    SameElements(identities, reordered);
    if x.Some? {
      var i :| 0 <= i < |reordered| && reordered[i] == x.value;
    }
    if y.Some? {
      var i :| 0 <= i < |identities| && identities[i] == y.value;
    }
    if x.Some? && y.Some? {
      AccountMatchIsUnique(identities, x.value, y.value, userId, login);
    }
  }

  lemma SameElements<T>(a: seq<T>, b: seq<T>)
    requires multiset(a) == multiset(b)
    ensures forall x :: x in a <==> x in b
  {
    forall x ensures x in a <==> x in b {
      assert x in a <==> x in multiset(a);
      assert x in b <==> x in multiset(b);
    }
  }

  // ---- GitHub Actions ----

  /** `{repository}/{workflow_path}@{ref}`. */
  function WorkflowRef(repository: string, path: string, gitRef: string): string {
    repository + "/" + path + "@" + gitRef
  }

  predicate MatchesActions(identity: IdentityConfig, claims: Claims) {
    if identity.kind != GithubActions
       || identity.repositoryId != Some(claims.repositoryId)
       || !(identity.repository.Some? ==> EqIgnoreAsciiCase(identity.repository.value, claims.repository))
    then false
    else if identity.workflowPath.None? then true
    else if identity.allowedEventNames.None? then false
    else if claims.eventName !in identity.allowedEventNames.value then false
    else if identity.allowedRefTypes.Some? && claims.refType !in identity.allowedRefTypes.value then false
    else if identity.allowedRefTypes.None? && claims.refType != "tag" then false
    else if claims.workflowRef != WorkflowRef(claims.repository, identity.workflowPath.value, claims.gitRef) then false
    else if identity.requiredEnvironment.Some? && claims.environment != identity.requiredEnvironment then false
    else if identity.requiredRunnerEnvironment.Some? && claims.runnerEnvironment != identity.requiredRunnerEnvironment
    then false
    else if identity.allowedWorkflowShas.Some? && identity.allowedWorkflowShas.value != [] then
      && claims.workflowSha.Some?
      && exists i :: 0 <= i < |identity.allowedWorkflowShas.value|
                     && EqIgnoreAsciiCase(identity.allowedWorkflowShas.value[i], claims.workflowSha.value)
    else true
  }

  /**
   * The claims meet the identity, field by field: each one that is configured binds its claim, and a
   * workflow path brings the event, ref type, workflow, environment, runner and commit with it.
   */
  ghost predicate Meets(identity: IdentityConfig, claims: Claims) {
    && identity.kind == GithubActions
    && identity.repositoryId == Some(claims.repositoryId)
    && (identity.repository.Some? ==> EqIgnoreAsciiCase(identity.repository.value, claims.repository))
    && (identity.workflowPath.Some? ==>
          && claims.workflowRef == claims.repository + "/" + identity.workflowPath.value + "@" + claims.gitRef
          && identity.allowedEventNames.Some? && claims.eventName in identity.allowedEventNames.value
          && (identity.allowedRefTypes.None? ==> claims.refType == "tag")
          && (identity.allowedRefTypes.Some? ==> claims.refType in identity.allowedRefTypes.value)
          && (identity.requiredEnvironment.Some? ==> claims.environment == identity.requiredEnvironment)
          && (identity.requiredRunnerEnvironment.Some? ==>
                claims.runnerEnvironment == identity.requiredRunnerEnvironment)
          && (identity.allowedWorkflowShas.Some? && identity.allowedWorkflowShas.value != [] ==>
                && claims.workflowSha.Some?
                && exists sha :: sha in identity.allowedWorkflowShas.value
                                 && EqIgnoreAsciiCase(sha, claims.workflowSha.value)))
  }

  lemma MatchesActionsMeans(identity: IdentityConfig, claims: Claims)
    ensures MatchesActions(identity, claims) <==> Meets(identity, claims)
  {
    if identity.allowedWorkflowShas.Some? && claims.workflowSha.Some? {
      var shas, sha := identity.allowedWorkflowShas.value, claims.workflowSha.value;
      assert (exists i :: 0 <= i < |shas| && EqIgnoreAsciiCase(shas[i], sha))
        <==> exists allowed :: allowed in shas && EqIgnoreAsciiCase(allowed, sha) by {
        if allowed :| allowed in shas && EqIgnoreAsciiCase(allowed, sha) {
          var i :| 0 <= i < |shas| && shas[i] == allowed;
        }
      }
    }
  }

  /**
   * A token whose claims meet all the fields of exactly one identity resolves to it; one that misses
   * some field of every identity, or meets two, is denied.
   */
  lemma ResolutionInFields(identities: seq<IdentityConfig>, claims: Claims)
    ensures forall x :: ResolveActions(identities, claims) == Some(x)
              <==> exists i :: OnlyMet(identities, claims, i) && identities[i] == x
    ensures ResolveActions(identities, claims) == None <==> !exists i :: OnlyMet(identities, claims, i)
  {
    forall i | 0 <= i < |identities| ensures MatchesActions(identities[i], claims) <==> Meets(identities[i], claims) {
      MatchesActionsMeans(identities[i], claims);
    }
    var resolved := ResolveActions(identities, claims);
    if resolved.Some? {
      assert OnlyMet(identities, claims, NextMatch(identities, claims, 0).value);
    }
  }

  /** The claims meet this identity and no other. */
  ghost predicate OnlyMet(identities: seq<IdentityConfig>, claims: Claims, i: int) {
    && 0 <= i < |identities| && Meets(identities[i], claims)
    && forall j :: 0 <= j < |identities| && j != i ==> !Meets(identities[j], claims)
  }

  /** An account matches by user id, and by login ignoring case where one is configured. */
  lemma MatchesAccountMeans(identity: IdentityConfig, userId: string, login: string)
    ensures MatchesAccount(identity, userId, login) <==>
            && identity.kind == GithubAccount && identity.githubUserId == Some(userId)
            && (identity.githubLogin == None || EqIgnoreAsciiCase(identity.githubLogin.value, login))
  {
  }

  /** Index of the next matching identity from `start` on, as the filtered iterator yields it. */
  function NextMatch(identities: seq<IdentityConfig>, claims: Claims, start: nat): (r: Option<nat>)
    requires start <= |identities|
    ensures r.Some? ==> start <= r.value < |identities| && MatchesActions(identities[r.value], claims)
                        && forall i :: start <= i < r.value ==> !MatchesActions(identities[i], claims)
    ensures r.None? ==> forall i :: start <= i < |identities| ==> !MatchesActions(identities[i], claims)
    decreases |identities| - start
  {
    if start == |identities| then None
    else if MatchesActions(identities[start], claims) then Some(start)
    else NextMatch(identities, claims, start + 1)
  }

  /** `resolve_github_actions_identity`: the only match, or nothing (`ClaimsDenied`). */
  function ResolveActions(identities: seq<IdentityConfig>, claims: Claims): Option<IdentityConfig> {
    match NextMatch(identities, claims, 0)
    case None => None
    case Some(i) => if NextMatch(identities, claims, i + 1).Some? then None else Some(identities[i])
  }

  ghost function Matching(identities: seq<IdentityConfig>, claims: Claims): seq<IdentityConfig> {
    if identities == [] then []
    else (if MatchesActions(identities[0], claims) then [identities[0]] else []) + Matching(identities[1..], claims)
  }

  lemma {:induction false} NoMatching(identities: seq<IdentityConfig>, claims: Claims)
    requires forall i :: 0 <= i < |identities| ==> !MatchesActions(identities[i], claims)
    ensures Matching(identities, claims) == []
  {
    if identities != [] {
      NoMatching(identities[1..], claims);
    }
  }

  lemma MatchingCons(x: IdentityConfig, rest: seq<IdentityConfig>, claims: Claims)
    ensures Matching([x] + rest, claims) == (if MatchesActions(x, claims) then [x] else []) + Matching(rest, claims)
  {
    assert ([x] + rest)[1..] == rest;
  }

  lemma {:induction false} MatchingSplits(a: seq<IdentityConfig>, b: seq<IdentityConfig>, claims: Claims)
    ensures Matching(a + b, claims) == Matching(a, claims) + Matching(b, claims)
  {
    if a == [] {
      assert a + b == b;
    } else {
      var x, rest := a[0], a[1..];
      assert a == [x] + rest && a + b == [x] + (rest + b);
      MatchingSplits(rest, b, claims);
      MatchingCons(x, rest, claims);
      MatchingCons(x, rest + b, claims);
      ConcatAssociates(if MatchesActions(x, claims) then [x] else [], Matching(rest, claims), Matching(b, claims));
    }
  }

  /** Resolution succeeds exactly when one configured identity matches, and yields that one. */
  lemma ResolvesTheOnlyMatch(identities: seq<IdentityConfig>, claims: Claims)
    ensures var m := Matching(identities, claims);
            ResolveActions(identities, claims) == if |m| == 1 then Some(m[0]) else None
  {
    match NextMatch(identities, claims, 0)
    case None => NoMatching(identities, claims);
    case Some(i) =>
      NoMatching(identities[..i], claims);
      SplitAt(identities, claims, i);
      if NextMatch(identities, claims, i + 1).None? {
        NoMatching(identities[i + 1..], claims);
      } else {
        MatchedAt(identities[i + 1..], claims, NextMatch(identities, claims, i + 1).value - i - 1);
      }
  }

  lemma MatchedAt(identities: seq<IdentityConfig>, claims: Claims, i: nat)
    requires i < |identities| && MatchesActions(identities[i], claims)
    ensures |Matching(identities, claims)| >= 1
  {
    SplitAt(identities, claims, i);
  }

  lemma SplitAt(identities: seq<IdentityConfig>, claims: Claims, i: nat)
    requires i < |identities| && MatchesActions(identities[i], claims)
    ensures Matching(identities, claims)
         == Matching(identities[..i], claims) + [identities[i]] + Matching(identities[i + 1..], claims)
  {
    assert identities == identities[..i] + identities[i..];
    MatchingSplits(identities[..i], identities[i..], claims);
    assert identities[i..][1..] == identities[i + 1..];
  }

  lemma {:induction false} MatchingCounts(identities: seq<IdentityConfig>, claims: Claims, x: IdentityConfig)
    ensures multiset(Matching(identities, claims))[x] == if MatchesActions(x, claims) then multiset(identities)[x]
            else 0
  {
    if identities != [] {
      MatchingCounts(identities[1..], claims, x);
      assert identities == [identities[0]] + identities[1..];
    }
  }

  /** Which identity a token gets does not depend on configuration order: ambiguity is denied, never ranked. */
  lemma ActionsOrderIsIrrelevant(identities: seq<IdentityConfig>, reordered: seq<IdentityConfig>, claims: Claims)
    requires multiset(identities) == multiset(reordered)
    ensures ResolveActions(identities, claims) == ResolveActions(reordered, claims)
  {
    var a, b := Matching(identities, claims), Matching(reordered, claims);
    assert multiset(a) == multiset(b) by {
      forall x ensures multiset(a)[x] == multiset(b)[x] {
        MatchingCounts(identities, claims, x);
        MatchingCounts(reordered, claims, x);
      }
    }
    assert |multiset(a)| == |a| && |multiset(b)| == |b|;
    if |a| == 1 {
      assert a == [a[0]] && b == [b[0]];
      assert b[0] in multiset(a);
    }
    ResolvesTheOnlyMatch(identities, claims);
    ResolvesTheOnlyMatch(reordered, claims);
  }

  /**
   * Adding an identity anywhere never redirects a token that already resolves: it keeps its identity,
   * or is denied if the new one matches too. A token nobody matched can only gain the new identity.
   */
  lemma AddingNeverRedirects(identities: seq<IdentityConfig>, at: nat, added: IdentityConfig, claims: Claims)
    requires at <= |identities|
    ensures var before, after := ResolveActions(identities, claims),
                                 ResolveActions(identities[..at] + [added] + identities[at..], claims);
            && (!MatchesActions(added, claims) ==> after == before)
            && (MatchesActions(added, claims) ==>
                  after == if forall i :: 0 <= i < |identities| ==> !MatchesActions(identities[i], claims)
                           then Some(added) else None)
  {
    var extended := identities[..at] + [added] + identities[at..];
    var plain := [added] + identities;
    assert multiset(extended) == multiset(plain) by {
      assert identities == identities[..at] + identities[at..];
    }
    ActionsOrderIsIrrelevant(extended, plain, claims);
    MatchingSplits([added], identities, claims);
    ResolvesTheOnlyMatch(plain, claims);
    ResolvesTheOnlyMatch(identities, claims);
    if forall i :: 0 <= i < |identities| ==> !MatchesActions(identities[i], claims) {
      NoMatching(identities, claims);
    } else {
      var i :| 0 <= i < |identities| && MatchesActions(identities[i], claims);
      SplitAt(identities, claims, i);
    }
  }

  lemma Cancel(pre: string, p: string, q: string, post: string)
    requires pre + p + post == pre + q + post
    ensures p == q
  {
    var s := pre + p + post;
    assert |p| == |q|;
    assert p == s[|pre|..|pre| + |p|];
    assert q == (pre + q + post)[|pre|..|pre| + |q|];
  }

  /** No token matches two identities that name different workflow paths. */
  lemma MatchFixesWorkflowPath(x: IdentityConfig, y: IdentityConfig, claims: Claims)
    requires MatchesActions(x, claims) && MatchesActions(y, claims)
    requires x.workflowPath.Some? && y.workflowPath.Some?
    ensures x.workflowPath == y.workflowPath
  {
    var p, q := x.workflowPath.value, y.workflowPath.value;
    var pre, post := claims.repository + "/", "@" + claims.gitRef;
    assert WorkflowRef(claims.repository, p, claims.gitRef) == pre + p + post;
    assert WorkflowRef(claims.repository, q, claims.gitRef) == pre + q + post;
    Cancel(pre, p, q, post);
  }
}
