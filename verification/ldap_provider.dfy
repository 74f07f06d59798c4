/** The pure parts of the LDAP auth provider
    (pkg/auth/providers/ldap/ldap_provider.go): principal-ID parsing, the
    "is this me" and "am I a member" tests, the provider's scope names, and
    the marking pass of SearchPrincipals. The directory connection and the
    stored configuration are not modelled; a search is given as its result. */
module LdapProvider {
  import opened Wrappers
  import opened Text

  const OpenLdapName := "openldap"
  const FreeIpaName := "freeipa"
  const ShibbolethName := "shibboleth"

  /** A v3.Principal, restricted to the fields these rules read or write. */
  datatype Principal = Principal(name: string, loginName: string, principalType: string, me: bool, memberOf: bool)

  /** The provider as `Configure` builds it. */
  datatype Provider = Provider(providerName: string, userScope: string, groupScope: string)

  function Configure(providerName: string): (p: Provider)
    ensures p.providerName == providerName
    ensures HasPrefix(p.userScope, providerName) && HasPrefix(p.groupScope, providerName)
    ensures p.userScope != p.groupScope
    ensures TrimPrefix(p.userScope, providerName) == "_user"
    ensures TrimPrefix(p.groupScope, providerName) == "_group"
  {
    Provider(providerName, providerName + "_user", providerName + "_group")
  }

  /** Only the shibboleth provider is a search backend for a SAML provider. */
  predicate SamlSearchProvider(p: Provider): (r: bool)
    ensures r ==> p.providerName == "shibboleth"
    ensures p.providerName in {OpenLdapName, FreeIpaName} ==> !r
  {
    p.providerName == ShibbolethName
  }

  lemma SamlSearchProviderOnlyShibboleth(name: string)
    ensures SamlSearchProvider(Configure(name)) <==> name == "shibboleth"
    ensures !SamlSearchProvider(Configure(OpenLdapName)) && !SamlSearchProvider(Configure(FreeIpaName))
  {
    assert OpenLdapName[0] != ShibbolethName[0];
    assert FreeIpaName[0] != ShibbolethName[0];
  }

  /** `getDNAndScopeFromPrincipalID`: `<scope>:<external id>`, where one
      leading "//" of the external id is dropped. Returns (externalId, scope). */
  function ParsePrincipalId(principalId: string): (r: Result<(string, string)>)
    ensures r.Err? <==> ':' !in principalId
    ensures r.Err? ==> r.error == "invalid id " + principalId
    ensures r.Ok? ==>
              var (externalId, scope) := r.value;
              ':' !in scope &&
              exists rest: string {:trigger TrimPrefix(rest, "//")} ::
                principalId == scope + ":" + rest && externalId == TrimPrefix(rest, "//")
  {
    var parts := SplitFirst(principalId, ':');
    if |parts| != 2 then Err("invalid id " + principalId)
    else
      var scope := parts[0];
      var externalId := TrimPrefix(parts[1], "//");
      Ok((externalId, scope))
  }

  /** Parsing inverts `scope + "://" + externalId`, whatever the external id
      contains, colons and slashes included. */
  lemma ParsePrincipalIdRoundTrip(scope: string, externalId: string)
    requires ':' !in scope
    ensures ParsePrincipalId(scope + "://" + externalId) == Ok((externalId, scope))
  {
    assert scope + "://" + externalId == scope + [':'] + ("//" + externalId);
    SplitFirstJoined(scope, ':', "//" + externalId);
    assert HasPrefix("//" + externalId, "//");
  }

  /** Without the "//" the remainder is taken as is. */
  lemma ParsePrincipalIdNoSlashes(scope: string, externalId: string)
    requires ':' !in scope
    requires !HasPrefix(externalId, "//")
    ensures ParsePrincipalId(scope + ":" + externalId) == Ok((externalId, scope))
  {
    assert scope + ":" + externalId == scope + [':'] + externalId;
    SplitFirstJoined(scope, ':', externalId);
  }

  /** An id built from a configured provider's user scope parses back to
      that scope, so GetPrincipal takes its user-search branch. */
  lemma UserScopeParsesBack(providerName: string, externalId: string)
    requires ':' !in providerName
    ensures var p := Configure(providerName);
            ParsePrincipalId(p.userScope + "://" + externalId) == Ok((externalId, p.userScope))
  {
    var p := Configure(providerName);
    assert ':' !in "_user";
    assert ':' !in p.userScope;
    ParsePrincipalIdRoundTrip(p.userScope, externalId);
  }

  /** The fields that identify a principal for the "me" test. */
  function Identity(p: Principal): (string, string, string) {
    (p.name, p.loginName, p.principalType)
  }

  /** `isThisUserMe`: the same identity; every principal is itself. */
  predicate IsThisUserMe(me: Principal, other: Principal): (r: bool)
    ensures r <==> Identity(me) == Identity(other)
    ensures me == other ==> r
  {
    me.name == other.name && me.loginName == other.loginName && me.principalType == other.principalType
  }

  /** `isMemberOf`: the first group matching on name and type answers. */
  function IsMemberOf(myGroups: seq<Principal>, other: Principal): (r: bool)
    ensures r <==> exists k :: 0 <= k < |myGroups| && myGroups[k].name == other.name
                                && myGroups[k].principalType == other.principalType
  {
    if |myGroups| == 0 then false
    else if myGroups[0].name == other.name && myGroups[0].principalType == other.principalType then true
    else
      assert forall k :: 1 <= k < |myGroups| ==> myGroups[k] == myGroups[1..][k - 1];
      IsMemberOf(myGroups[1..], other)
  }

  /** "Me" and "member" flags ignore each other and every field but name,
      login name (for me) and type. */
  lemma IsThisUserMeIgnoresFlags(me: Principal, other: Principal, m: bool, g: bool)
    ensures IsThisUserMe(me, other) <==> IsThisUserMe(me, other.(me := m, memberOf := g))
    ensures IsThisUserMe(me, other) ==> IsThisUserMe(other, me)
  {
  }

  /** The one-principal body of the marking loop. */
  function Marked(me: Principal, myGroups: seq<Principal>, p: Principal): (q: Principal)
    ensures q.name == p.name && q.loginName == p.loginName && q.principalType == p.principalType
    ensures q.me == (p.me || (p.principalType == "user" && IsThisUserMe(me, p)))
    ensures q.memberOf == (p.memberOf || (p.principalType == "group" && IsMemberOf(myGroups, p)))
  {
    if p.principalType == "user" then
      if IsThisUserMe(me, p) then p.(me := true) else p
    else if p.principalType == "group" then
      if IsMemberOf(myGroups, p) then p.(memberOf := true) else p
    else p
  }

  /** The marking loop as intended: every principal marked in place. */
  function MarkAll(me: Principal, myGroups: seq<Principal>, ps: seq<Principal>): (r: seq<Principal>)
    ensures |r| == |ps|
    ensures forall k :: 0 <= k < |ps| ==> r[k] == Marked(me, myGroups, ps[k])
  {
    if |ps| == 0 then []
    else [Marked(me, myGroups, ps[0])] + MarkAll(me, myGroups, ps[1..])
  }

  /** What the directory search step yields: the principals found (possibly
      partial) and an error. */
  datatype SearchOutcome = SearchOutcome(principals: seq<Principal>, err: Option<string>)

  /** `SearchPrincipals` as written: `for _, principal := range principals`
      binds a copy, so setting Me or MemberOf on it changes nothing that is
      returned. A failed config read or connection yields no principals.
      The error is never returned. */
  function SearchPrincipalsAsWritten(connected: bool, search: SearchOutcome, me: Principal, myGroups: seq<Principal>): (r: seq<Principal>)
    ensures !connected ==> r == []
    ensures connected ==> r == search.principals
  {
    if !connected then []
    else
      var principals := search.principals;
      // the loop body assigns only to its own copy of each element
      principals
  }

  /** `SearchPrincipals` as intended: found principals come back marked. */
  function SearchPrincipals(connected: bool, search: SearchOutcome, me: Principal, myGroups: seq<Principal>): (r: seq<Principal>)
    ensures !connected ==> r == []
    ensures connected ==> |r| == |search.principals|
    ensures connected && search.err.Some? ==> r == search.principals
    ensures connected && search.err.None? ==>
              forall k :: 0 <= k < |r| ==> r[k] == Marked(me, myGroups, search.principals[k])
  {
    if !connected then []
    else if search.err.Some? then search.principals
    else MarkAll(me, myGroups, search.principals)
  }

  /** The searching user, found by a search, is not flagged Me as written,
      but is in the intended version. */
  lemma SearchPrincipalsLosesMe(login: string)
    ensures var me := Principal("openldap_user://" + login, login, "user", false, false);
            var search := SearchOutcome([me], None);
            && !SearchPrincipalsAsWritten(true, search, me, [])[0].me
            && SearchPrincipals(true, search, me, [])[0].me
  {
  }

  /** A group the user belongs to is not flagged MemberOf as written, but is
      in the intended version. */
  lemma SearchPrincipalsLosesMemberOf(me: Principal, group: Principal)
    requires group.principalType == "group" && !group.memberOf
    ensures var search := SearchOutcome([group], None);
            && !SearchPrincipalsAsWritten(true, search, me, [group])[0].memberOf
            && SearchPrincipals(true, search, me, [group])[0].memberOf
  {
    assert IsMemberOf([group], group) by {
      assert [group][0] == group;
    }
  }

  /** The intended marking only ever sets flags, and only on principals the
      token identifies; the two agree when nothing matches. */
  lemma {:induction false} MarkAllAgreesWhenNothingMatches(me: Principal, myGroups: seq<Principal>, ps: seq<Principal>)
    requires forall k :: 0 <= k < |ps| ==> !ps[k].me && !ps[k].memberOf
    requires forall k :: 0 <= k < |ps| ==> !IsThisUserMe(me, ps[k]) && !IsMemberOf(myGroups, ps[k])
    ensures SearchPrincipals(true, SearchOutcome(ps, None), me, myGroups) == SearchPrincipalsAsWritten(true, SearchOutcome(ps, None), me, myGroups)
  {
    var r := MarkAll(me, myGroups, ps);
    forall k | 0 <= k < |ps|
      ensures r[k] == ps[k]
    {
      var p := ps[k];
      var q := Marked(me, myGroups, p);
      assert q == p;
    }
  }
}
