/**
 * The access decision of the security filter chain: behind the
 * `app.security.enabled` flag, an ordered table of path rules of which the
 * first whose pattern matches decides, and a default that asks only for
 * authentication; plus the in-memory accounts the chain authenticates
 * against.
 */
module SecurityConfig {
  import opened Wrappers
  import opened Strings

  datatype Role = UserRole | AdminRole

  /** Who is calling: nobody, or an authenticated account and its roles. */
  datatype Caller = Anonymous | Authenticated(name: string, roles: set<Role>)

  /** What a rule asks of the caller. */
  datatype Access = PermitAll | RequireRole(role: Role) | RequireAuthentication

  /** One segment of a path pattern: literal text, or a `{name}` variable
      that captures one non-empty path segment. */
  datatype PatternSegment = Literal(text: string) | Variable(name: string)

  /** `pathMatchers(pattern)` followed by the access it is given. The pattern
      is held as its '/'-separated segments; a leading '/' gives a first,
      empty, literal segment. */
  datatype Rule = Rule(pattern: seq<PatternSegment>, access: Access)

  datatype Decision = Permit | Unauthorized | Forbidden

  /** The HTTP status a rejection is answered with. */
  function RejectionStatus(d: Decision): (s: Option<int>)
    ensures s.None? <==> d == Permit
    ensures s == Some(401) <==> d == Unauthorized
    ensures s == Some(403) <==> d == Forbidden
  {
    match d
    case Permit => None
    case Unauthorized => Some(401)
    case Forbidden => Some(403)
  }

  /** `@Value("${app.security.enabled:true}")`: on unless set to false. */
  function SecurityEnabled(setting: Option<bool>): (enabled: bool)
    ensures enabled <==> setting != Some(false)
  {
    setting.GetOr(true)
  }

  /** The rules in declaration order: "/api/auth/public", "/api/users",
      "/api/users/{id}", "/api/users/test-error", "/api/users/test-bad-request",
      "/api/auth/protected", "/api/auth/admin", "/api/auth/me". */
  const Rules: seq<Rule> := [
    Rule([Literal(""), Literal("api"), Literal("auth"), Literal("public")], PermitAll),
    Rule([Literal(""), Literal("api"), Literal("users")], RequireRole(UserRole)),
    Rule([Literal(""), Literal("api"), Literal("users"), Variable("id")], RequireRole(UserRole)),
    Rule([Literal(""), Literal("api"), Literal("users"), Literal("test-error")], RequireRole(AdminRole)),
    Rule([Literal(""), Literal("api"), Literal("users"), Literal("test-bad-request")], RequireRole(AdminRole)),
    Rule([Literal(""), Literal("api"), Literal("auth"), Literal("protected")], RequireRole(UserRole)),
    Rule([Literal(""), Literal("api"), Literal("auth"), Literal("admin")], RequireRole(AdminRole)),
    Rule([Literal(""), Literal("api"), Literal("auth"), Literal("me")], RequireRole(UserRole))]

  /** `anyExchange().authenticated()`. */
  const Fallback: Access := RequireAuthentication

  // Path patterns

  /** The part of a path segment the matcher compares: the text before its
      `;` path parameters, if it has any. */
  function MatchValue(seg: string): (v: string)
    ensures v <= seg && ';' !in v
    ensures |v| < |seg| ==> seg[|v|] == ';'
  {
    if ';' in seg then seg[..FirstIndex(seg, ';')] else seg
  }

  /** The segments of a request path, as the matcher sees them. */
  function Segments(path: string): seq<string> {
    var raw := Split(path, '/');
    seq(|raw|, i requires 0 <= i < |raw| => MatchValue(raw[i]))
  }

  predicate SegmentMatches(pat: PatternSegment, seg: string) {
    match pat
    case Literal(t) => t == seg
    case Variable(_) => |seg| > 0
  }

  /** Segment by segment: the same number of segments, literal segments equal,
      variable segments non-empty. */
  predicate Matches(pattern: seq<PatternSegment>, segs: seq<string>) {
    |pattern| == |segs| && forall i :: 0 <= i < |pattern| ==> SegmentMatches(pattern[i], segs[i])
  }

  /** Index of the first rule whose pattern matches the path's segments. */
  function FirstMatch(rules: seq<Rule>, segs: seq<string>): (r: Option<nat>)
    ensures r.Some? ==> r.value < |rules| && Matches(rules[r.value].pattern, segs)
    ensures r.Some? ==> forall j :: 0 <= j < r.value ==> !Matches(rules[j].pattern, segs)
    ensures r.None? <==> forall j :: 0 <= j < |rules| ==> !Matches(rules[j].pattern, segs)
    decreases |rules|
  {
    if |rules| == 0 then None
    else if Matches(rules[0].pattern, segs) then Some(0)
    else match FirstMatch(rules[1..], segs)
      case None => None
      case Some(i) => Some(i + 1)
  }

  /** What the chain asks of a caller on a path with these segments. */
  function Required(segs: seq<string>): Access {
    match FirstMatch(Rules, segs)
    case Some(i) => Rules[i].access
    case None => Fallback
  }

  function Check(access: Access, caller: Caller): (d: Decision)
    ensures d == Unauthorized <==> caller.Anonymous? && access != PermitAll
    ensures d == Forbidden <==> caller.Authenticated? && access.RequireRole? && access.role !in caller.roles
  {
    match access
    case PermitAll => Permit
    case RequireRole(r) =>
      if caller.Anonymous? then Unauthorized
      else if r in caller.roles then Permit
      else Forbidden
    case RequireAuthentication => if caller.Anonymous? then Unauthorized else Permit
  }

  /** `springSecurityFilterChain`: everything is permitted when the flag is
      off; otherwise an anonymous caller is refused wherever the deciding rule
      is not open, and an authenticated one wherever it lacks the rule's role. */
  function Decide(enabled: bool, path: string, caller: Caller): (d: Decision)
    ensures d == Unauthorized <==> enabled && caller.Anonymous? && Required(Segments(path)) != PermitAll
    ensures d == Forbidden <==>
      enabled && caller.Authenticated? && Required(Segments(path)).RequireRole? && Required(Segments(path)).role !in caller.roles
  {
    if !enabled then Permit else Check(Required(Segments(path)), caller)
  }

  // Accounts

  /** An account of the user store (the BCrypt-encoded password left out). */
  datatype Account = Account(username: string, roles: set<Role>)

  /** `userDetailsService`. */
  function Accounts(enabled: bool): (accounts: seq<Account>)
    ensures !enabled ==> accounts == [Account("dummy", {UserRole})]
    ensures enabled ==> |accounts| == 2
    ensures enabled ==> accounts[0] == Account("user", {UserRole}) && accounts[1] == Account("admin", {UserRole, AdminRole})
  {
    if !enabled then [Account("dummy", {UserRole})]
    else [Account("user", {UserRole}), Account("admin", {UserRole, AdminRole})]
  }

  function AsCaller(a: Account): Caller {
    Authenticated(a.username, a.roles)
  }

  // Properties of the decision

  /** With the flag off, every exchange is permitted, whoever calls. */
  lemma DisabledPermitsAll(setting: Option<bool>, path: string, caller: Caller)
    requires setting == Some(false)
    ensures !SecurityEnabled(setting)
    ensures Decide(SecurityEnabled(setting), path, caller) == Permit
  {
  }


  /** A path written as '/'-joined segments is matched segment by segment,
      each segment without its path parameters. */
  lemma SegmentsOfJoin(segs: seq<string>)
    requires |segs| > 0
    requires forall i :: 0 <= i < |segs| ==> '/' !in segs[i]
    ensures |Segments(Join(segs, "/"))| == |segs|
    ensures forall i :: 0 <= i < |segs| ==> Segments(Join(segs, "/"))[i] == MatchValue(segs[i])
  {
    JoinThenSplit(segs, '/');
  }

  /** Path parameters do not change what a segment matches: "users;v=1" is
      compared as "users". */
  lemma ParametersIgnored(seg: string, params: string)
    requires ';' !in seg
    ensures MatchValue(seg + ";" + params) == seg
    ensures MatchValue(seg) == seg
  {
    var s := seg + ";" + params;
    assert s[|seg|] == ';';
    assert s[..|seg|] == seg;
  }

  /** "/api/auth/public" is open to everyone, the anonymous caller included. */
  lemma PublicPathPermitted(path: string, caller: Caller)
    requires Segments(path) == ["", "api", "auth", "public"]
    ensures Required(Segments(path)) == PermitAll
    ensures Decide(true, path, caller) == Permit
  {
    assert Matches(Rules[0].pattern, Segments(path));
  }

  /** Only the first rule permits without authentication. */
  lemma OnlyFirstRuleOpen()
    ensures Rules[0].access == PermitAll
    ensures forall i :: 1 <= i < |Rules| ==> Rules[i].access.RequireRole?
  {
  }

  /** An anonymous caller is rejected with 401 on every path the public
      pattern does not match, and admitted on every path it does. */
  lemma AnonymousDecision(path: string)
    ensures Matches(Rules[0].pattern, Segments(path)) ==> Decide(true, path, Anonymous) == Permit
    ensures !Matches(Rules[0].pattern, Segments(path)) ==> Decide(true, path, Anonymous) == Unauthorized
    ensures !Matches(Rules[0].pattern, Segments(path)) ==> RejectionStatus(Decide(true, path, Anonymous)) == Some(401)
  {
    OnlyFirstRuleOpen();
  }

  /** An authenticated caller is never answered 401: it is refused with 403
      exactly when the deciding rule asks for a role the caller lacks, and is
      admitted otherwise. */
  lemma AuthenticatedDecision(path: string, name: string, roles: set<Role>)
    ensures Decide(true, path, Authenticated(name, roles)) != Unauthorized
    ensures Decide(true, path, Authenticated(name, roles)) == Forbidden <==>
      Required(Segments(path)).RequireRole? && Required(Segments(path)).role !in roles
  {
  }

  /** A path no pattern matches requires only authentication. */
  lemma UnlistedPathAuthenticated(path: string, caller: Caller)
    requires FirstMatch(Rules, Segments(path)).None?
    ensures Required(Segments(path)) == RequireAuthentication
    ensures Decide(true, path, caller) == (if caller.Anonymous? then Unauthorized else Permit)
  {
  }

  /** Every "/api/users/<segment>" path with a non-empty last segment is
      decided by the "/api/users/{id}" rule, which asks for USER. */
  lemma UserSubpathDecidedByIdRule(seg: string)
    requires |seg| > 0
    ensures FirstMatch(Rules, ["", "api", "users", seg]) == Some(2)
    ensures Required(["", "api", "users", seg]) == RequireRole(UserRole)
  {
    var segs := ["", "api", "users", seg];
    assert !Matches(Rules[0].pattern, segs) by {
      assert Rules[0].pattern[2] == Literal("auth") && segs[2] == "users";
    }
    assert !Matches(Rules[1].pattern, segs);
    assert Matches(Rules[2].pattern, segs);
  }

  /** First match in declaration order: "/api/users/test-error" and
      "/api/users/test-bad-request" are decided by the "/api/users/{id}" USER
      rule, so a caller holding only USER is admitted to both although the
      ADMIN rules below name them. */
  lemma TestPathsDecidedByIdRule(name: string)
    ensures FirstMatch(Rules, ["", "api", "users", "test-error"]) == Some(2)
    ensures FirstMatch(Rules, ["", "api", "users", "test-bad-request"]) == Some(2)
    ensures Check(Required(["", "api", "users", "test-error"]), Authenticated(name, {UserRole})) == Permit
    ensures Check(Required(["", "api", "users", "test-bad-request"]), Authenticated(name, {UserRole})) == Permit
  {
    UserSubpathDecidedByIdRule("test-error");
    UserSubpathDecidedByIdRule("test-bad-request");
  }

  /** The two ADMIN rules for the test paths never decide anything: whatever
      they match, the "{id}" rule above them matches first. */
  lemma AdminTestRulesShadowed(segs: seq<string>)
    ensures FirstMatch(Rules, segs) != Some(3)
    ensures FirstMatch(Rules, segs) != Some(4)
  {
    if Matches(Rules[3].pattern, segs) || Matches(Rules[4].pattern, segs) {
      assert segs[3] == "test-error" || segs[3] == "test-bad-request";
      assert Matches(Rules[2].pattern, segs);
    }
  }

  /** "/api/users;<parameters>" is decided by the "/api/users" rule: a caller
      holding ADMIN but not USER is refused there with 403. */
  lemma UsersPathWithParameters(params: string, name: string)
    requires '/' !in params
    ensures Required(Segments(Join(["", "api", "users;" + params], "/"))) == RequireRole(UserRole)
    ensures Decide(true, Join(["", "api", "users;" + params], "/"), Authenticated(name, {AdminRole})) == Forbidden
  {
    UsersPathSegments(params);
    var ms: seq<string> := ["", "api", "users"];
    assert !Matches(Rules[0].pattern, ms);
    assert Matches(Rules[1].pattern, ms);
  }

  lemma UsersPathSegments(params: string)
    requires '/' !in params
    ensures Segments(Join(["", "api", "users;" + params], "/")) == ["", "api", "users"]
  {
    var segs := ["", "api", "users;" + params];
    assert segs[2] == "users" + ";" + params;
    SegmentsOfJoin(segs);
    ParametersIgnored("users", params);
    ParametersIgnored("api", "");
    ParametersIgnored("", "");
  }

  /** "/api/users/export/{requestId}" has one segment more than any pattern,
      so it falls through to the authentication-only default. */
  lemma ExportPathAuthenticated(requestId: string, caller: Caller)
    requires '/' !in requestId
    ensures Required(Segments(Join(["", "api", "users", "export", requestId], "/"))) == RequireAuthentication
    ensures Decide(true, Join(["", "api", "users", "export", requestId], "/"), caller)
         == (if caller.Anonymous? then Unauthorized else Permit)
  {
    var segs := ["", "api", "users", "export", requestId];
    SegmentsOfJoin(segs);
    assert |Segments(Join(segs, "/"))| == 5;
    assert forall i :: 0 <= i < |Rules| ==> |Rules[i].pattern| < 5;
  }

  /** More roles never hurt: whatever a caller is admitted to, a caller
      holding a superset of its roles is admitted to as well. */
  lemma RolesMonotone(enabled: bool, path: string, name1: string, roles1: set<Role>, name2: string, roles2: set<Role>)
    requires roles1 <= roles2
    requires Decide(enabled, path, Authenticated(name1, roles1)) == Permit
    ensures Decide(enabled, path, Authenticated(name2, roles2)) == Permit
  {
  }

  /** With security on, "admin" is admitted wherever "user" is; with it off,
      the only account is "dummy", holding USER. */
  lemma AccountsOrdered(path: string)
    ensures var accounts := Accounts(true);
      Decide(true, path, AsCaller(accounts[0])) == Permit ==> Decide(true, path, AsCaller(accounts[1])) == Permit
    ensures |Accounts(false)| == 1 && Accounts(false)[0].username == "dummy" && Accounts(false)[0].roles == {UserRole}
  {
    var accounts := Accounts(true);
    if Decide(true, path, AsCaller(accounts[0])) == Permit {
      RolesMonotone(true, path, "user", {UserRole}, "admin", {UserRole, AdminRole});
    }
  }
}
