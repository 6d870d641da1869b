/**
 * The request gate of src/middleware.ts: the hand-written `middleware`
 * decision, the `authorized` callback and the `config.matcher` path set,
 * composed the way `withAuth` composes them.
 */
module Middleware {
  import opened Wrappers
  import opened Roles

  /** What the middleware answers: go on to the page, or redirect. */
  datatype Decision = Next | Redirect(target: string)

  /** What a request meets at the edge: not intercepted at all, sent to sign in, or a middleware decision. */
  datatype Outcome = NotIntercepted | SignIn | Decided(decision: Decision)

  /** The session token; its `role` claim may be absent. */
  datatype Token = Token(role: Option<string>)

  const UnauthorizedPath: string := "/unauthorized"

  /** `s.startsWith(prefix)`. */
  predicate StartsWith(s: string, prefix: string) {
    prefix <= s
  }

  /** The `middleware(req)` function: a deny-list of path prefixes per role string. */
  function Decide(role: Option<string>, pathname: string): (d: Decision)
    ensures d.Redirect? ==> d.target == UnauthorizedPath
    ensures role == Some("ADMIN") ==> d == Next
    ensures d.Redirect? ==> StartsWith(pathname, "/payroll") || StartsWith(pathname, "/positions") || StartsWith(pathname, "/applicants")
  {
    if role == Some("ADMIN") then Next
    else if role == Some("HR") && StartsWith(pathname, "/payroll") then Redirect(UnauthorizedPath)
    else if role == Some("PAYROLL") && (StartsWith(pathname, "/positions") || StartsWith(pathname, "/applicants")) then Redirect(UnauthorizedPath)
    else if role == Some("MANAGER") && (StartsWith(pathname, "/payroll") || StartsWith(pathname, "/applicants")) then Redirect(UnauthorizedPath)
    else Next
  }

  /** The `authorized` callback: any token at all is enough. */
  function Authorized(token: Option<Token>): (ok: bool)
    ensures ok <==> token != None
  {
    token.Some?
  }

  /** `<base>/:path*`: the base itself or the base followed by further segments. */
  predicate Under(path: string, base: string) {
    path == base || StartsWith(path, base + "/")
  }

  /** `config.matcher`: `/` exactly, or a path under one of the six listed bases. */
  predicate Matches(path: string) {
    || path == "/"
    || Under(path, "/dashboard")
    || Under(path, "/employees")
    || Under(path, "/positions")
    || Under(path, "/payroll")
    || Under(path, "/reports")
    || Under(path, "/applicants")
  }

  /** The page key a matched path belongs to (`/` is the dashboard). */
  function PageOfMatched(path: string): (p: Option<PageKey>)
    ensures p.Some? <==> Matches(path)
  {
    if path == "/" || Under(path, "/dashboard") then Some(Dashboard)
    else if Under(path, "/employees") then Some(Employees)
    else if Under(path, "/positions") then Some(Positions)
    else if Under(path, "/payroll") then Some(PayrollPage)
    else if Under(path, "/reports") then Some(Reports)
    else if Under(path, "/applicants") then Some(Applicants)
    else None
  }

  /** `withAuth(middleware, { callbacks: { authorized } })` behind `config.matcher`. */
  function Handle(token: Option<Token>, path: string): (o: Outcome)
    ensures !Matches(path) ==> o == NotIntercepted
    ensures Matches(path) && token.None? ==> o == SignIn
    ensures o.Decided? ==> Matches(path) && token.Some? && o.decision == Decide(token.value.role, path)
  {
    if !Matches(path) then NotIntercepted
    else if !Authorized(token) then SignIn
    else Decided(Decide(token.value.role, path))
  }

  /** Fail-open: a role string outside the four literals (or no role claim) passes everywhere. */
  lemma UnknownRolePasses(role: Option<string>, pathname: string)
    requires role.None? || ParseRole(role.value).None?
    ensures Decide(role, pathname) == Next
  {
  }

  /** HR is redirected exactly on paths starting with `/payroll`. */
  lemma HRRedirects(pathname: string)
    ensures Decide(Some("HR"), pathname).Redirect? <==> StartsWith(pathname, "/payroll")
  {
  }

  /** PAYROLL is redirected exactly on paths starting with `/positions` or `/applicants`. */
  lemma PayrollRedirects(pathname: string)
    ensures Decide(Some("PAYROLL"), pathname).Redirect? <==> StartsWith(pathname, "/positions") || StartsWith(pathname, "/applicants")
  {
  }

  /** MANAGER is redirected exactly on paths starting with `/payroll` or `/applicants`. */
  lemma ManagerRedirects(pathname: string)
    ensures Decide(Some("MANAGER"), pathname).Redirect? <==> StartsWith(pathname, "/payroll") || StartsWith(pathname, "/applicants")
  {
  }

  /** Prefix matching is by `startsWith`, so `/payroll-x` counts as `/payroll`; the matcher does not send it to the middleware. */
  lemma PrefixQuirk()
    ensures Decide(Some("HR"), "/payroll-x") == Redirect(UnauthorizedPath)
    ensures !Matches("/payroll-x")
  {
    var path := "/payroll-x";
    assert StartsWith(path, "/payroll");
    NotPrefixAt(path, "/payroll/", 8);
    NotPrefixAt(path, "/positions/", 2);
    NotPrefixAt(path, "/dashboard/", 1);
    NotPrefixAt(path, "/employees/", 1);
    NotPrefixAt(path, "/reports/", 1);
    NotPrefixAt(path, "/applicants/", 1);
  }

  /** No redirect target is matched, so a redirect never comes back to the role check. */
  lemma RedirectLeavesMatcher(token: Option<Token>, path: string)
    requires Handle(token, path).Decided? && Handle(token, path).decision.Redirect?
    ensures !Matches(Handle(token, path).decision.target)
    ensures Handle(token, Handle(token, path).decision.target) == NotIntercepted
  {
    var t := UnauthorizedPath;
    NotPrefixAt(t, "/payroll/", 1);
    NotPrefixAt(t, "/positions/", 1);
    NotPrefixAt(t, "/dashboard/", 1);
    NotPrefixAt(t, "/employees/", 1);
    NotPrefixAt(t, "/reports/", 1);
    NotPrefixAt(t, "/applicants/", 1);
  }

  /**
   * The middleware agrees with ROLE_PAGES: for each of the four roles and every
   * path the matcher sends to it, the request is redirected exactly when the
   * path's page is missing from the role's row.
   */
  lemma AgreesWithRolePages(r: Role, path: string)
    requires Matches(path)
    ensures Decide(Some(RoleName(r)), path).Redirect? <==> !MayView(r, PageOfMatched(path).value)
  {
    StartsWithClassifies(path);
  }

  /** On a matched path, each restricted prefix is seen exactly when the path is under that base. */
  lemma StartsWithClassifies(path: string)
    requires Matches(path)
    ensures StartsWith(path, "/payroll") <==> PageOfMatched(path) == Some(PayrollPage)
    ensures StartsWith(path, "/positions") <==> PageOfMatched(path) == Some(Positions)
    ensures StartsWith(path, "/applicants") <==> PageOfMatched(path) == Some(Applicants)
  {
    if path == "/" {
      NotPrefixAt(path, "/payroll", 1);
      NotPrefixAt(path, "/positions", 1);
      NotPrefixAt(path, "/applicants", 1);
    } else if Under(path, "/dashboard") {
      SecondChar(path, "/dashboard");
      NotPrefixAt(path, "/payroll", 1);
      NotPrefixAt(path, "/positions", 1);
      NotPrefixAt(path, "/applicants", 1);
    } else if Under(path, "/employees") {
      SecondChar(path, "/employees");
      NotPrefixAt(path, "/payroll", 1);
      NotPrefixAt(path, "/positions", 1);
      NotPrefixAt(path, "/applicants", 1);
    } else if Under(path, "/positions") {
      SecondChar(path, "/positions");
      NotPrefixAt(path, "/payroll", 2);
      NotPrefixAt(path, "/applicants", 1);
    } else if Under(path, "/payroll") {
      SecondChar(path, "/payroll");
      NotPrefixAt(path, "/positions", 2);
      NotPrefixAt(path, "/applicants", 1);
    } else if Under(path, "/reports") {
      SecondChar(path, "/reports");
      NotPrefixAt(path, "/payroll", 1);
      NotPrefixAt(path, "/positions", 1);
      NotPrefixAt(path, "/applicants", 1);
    } else {
      SecondChar(path, "/applicants");
      NotPrefixAt(path, "/payroll", 1);
      NotPrefixAt(path, "/positions", 1);
    }
  }

  /** A path under `base` starts with `base`, so it agrees with it on the first three characters. */
  lemma SecondChar(path: string, base: string)
    requires Under(path, base) && |base| >= 3
    ensures StartsWith(path, base)
    ensures path[1] == base[1] && path[2] == base[2]
  {
    if path != base {
      assert (base + "/")[..|base|] == base;
    }
    assert path[..|base|] == base;
  }

  /** A path that differs from `prefix` at index `k` (or is shorter) does not start with it. */
  lemma NotPrefixAt(path: string, prefix: string, k: nat)
    requires k < |prefix|
    requires k >= |path| || path[k] != prefix[k]
    ensures !StartsWith(path, prefix)
  {
  }
}
