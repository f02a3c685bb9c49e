/**
 The resources document and the edits on it. The checks on single strings (ids, host names, URLs,
 secrets) are parameters; the rules that tie fields together are the contract's own.
 */
module ConfigResources {
  import opened Wrappers

  datatype Environment = Dev | Test | Staging | Prod
  datatype TlsMode = Disabled | VerifyCa | VerifyIdentity
  datatype AuthMode = NoAuth | Basic | Bearer
  datatype Budget = Budget(rows: nat, bytes: nat, seconds: nat)

  datatype Resource =
    | StarRocks(id: string, environment: Environment, name: string, tls: TlsMode, enabled: bool,
                host: string, port: int, database: string, user: string, password: Option<string>,
                f1Enabled: bool, blocked: seq<string>, budget: Budget)
    | Prometheus(id: string, environment: Environment, name: string, tls: TlsMode, enabled: bool,
                 baseUrl: string, auth: AuthMode, username: Option<string>, secret: Option<string>)

  const DEFAULT_BUDGET := Budget(1000, 20971520, 180)
  const MAX_RESOURCES := 100

  /** What the contracts ask of single strings. */
  datatype Syntax = Syntax(id: string -> bool, text: string -> bool, host: string -> bool, url: string -> bool,
                           secret: string -> bool, https: string -> bool)

  predicate OptionalOk(check: string -> bool, s: Option<string>) { s.Some? ==> check(s.value) }

  predicate CombinationOk(x: Syntax, baseUrl: string, tls: TlsMode, auth: AuthMode, username: Option<string>,
                          secret: Option<string>) {
    && x.https(baseUrl) == (tls != Disabled)
    && (auth == Basic) == username.Some?
    && (auth == NoAuth ==> secret.None?)
  }

  /** The contract of one resource. */
  predicate Valid(x: Syntax, r: Resource) {
    && x.id(r.id) && x.text(r.name)
    && match r
       case StarRocks(_, _, _, _, _, host, port, database, user, password, _, _, _) =>
         x.host(host) && 1 <= port <= 65535 && x.text(database) && x.text(user) && OptionalOk(x.secret, password)
       case Prometheus(_, _, _, tls, _, baseUrl, auth, username, secret) =>
         && x.url(baseUrl) && OptionalOk(x.text, username) && OptionalOk(x.secret, secret)
         && CombinationOk(x, baseUrl, tls, auth, username, secret)
  }

  function Secret(r: Resource): Option<string> { if r.StarRocks? then r.password else r.secret }

  predicate Configured(r: Resource) { Secret(r).Some? }

  predicate F1(r: Resource) { r.StarRocks? && r.f1Enabled }

  predicate SameTarget(a: Resource, b: Resource) { a.environment == b.environment && a.name == b.name }

  predicate UniqueIds(rs: seq<Resource>) { forall i, j :: 0 <= i < j < |rs| ==> rs[i].id != rs[j].id }

  predicate F1NamesUnique(rs: seq<Resource>) {
    forall i, j :: 0 <= i < j < |rs| && F1(rs[i]) && F1(rs[j]) ==> !SameTarget(rs[i], rs[j])
  }

  /** The contract of the whole document. */
  predicate ValidDocument(x: Syntax, rs: seq<Resource>) {
    |rs| <= MAX_RESOURCES && UniqueIds(rs) && F1NamesUnique(rs) && forall i :: 0 <= i < |rs| ==> Valid(x, rs[i])
  }

  /** Why an edit is refused. */
  datatype Refusal = NotFound | Conflict | Rejected

  datatype Draft =
    | StarRocksDraft(environment: Environment, name: string, tls: TlsMode, enabled: bool,
                     host: string, port: int, database: string, user: string, password: Option<string>)
    | PrometheusDraft(environment: Environment, name: string, tls: TlsMode, enabled: bool,
                      baseUrl: string, auth: AuthMode, username: Option<string>, secret: Option<string>)

  /** `None` only means that the field is not carried. */
  datatype Update = Update(environment: Option<Environment>, name: Option<string>, enabled: Option<bool>,
                           tls: Option<TlsMode>, host: Option<string>, port: Option<int>, database: Option<string>,
                           username: Option<string>, password: Option<string>, baseUrl: Option<string>,
                           auth: Option<AuthMode>, secret: Option<string>)

  const NO_UPDATE := Update(None, None, None, None, None, None, None, None, None, None, None, None)

  function Or<T>(carried: Option<T>, stored: T): T { if carried.Some? then carried.value else stored }

  function OrElse<T>(carried: Option<T>, stored: Option<T>): Option<T> { if carried.Some? then carried else stored }

  function FromDraft(id: string, d: Draft): Resource {
    match d
    case StarRocksDraft(env, name, tls, enabled, host, port, database, user, password) =>
      StarRocks(id, env, name, tls, enabled, host, port, database, user, password, false, [], DEFAULT_BUDGET)
    case PrometheusDraft(env, name, tls, enabled, baseUrl, auth, username, secret) =>
      Prometheus(id, env, name, tls, enabled, baseUrl, auth, username, secret)
  }

  predicate SecretRequired(r: Resource) { r.StarRocks? || r.auth != NoAuth }

  /** The update carries a field that the kind of the resource does not have. */
  predicate Foreign(r: Resource, u: Update) {
    if r.StarRocks? then u.baseUrl.Some? || u.auth.Some? || u.secret.Some?
    else u.host.Some? || u.port.Some? || u.database.Some? || u.password.Some?
  }

  function Checked(x: Syntax, r: Resource): Result<Resource, Refusal> {
    if Valid(x, r) then Ok(r) else Err(Rejected)
  }

  /** `_merged_resource`: carried fields replace stored ones, and the contract decides again. */
  function Merged(x: Syntax, r: Resource, u: Update): Result<Resource, Refusal> {
    if Foreign(r, u) then Err(Rejected)
    else
      match r
      case StarRocks(id, env, name, tls, enabled, host, port, database, user, password, f1, blocked, budget) =>
        Checked(x, StarRocks(id, Or(u.environment, env), Or(u.name, name), Or(u.tls, tls), Or(u.enabled, enabled),
                             Or(u.host, host), Or(u.port, port), Or(u.database, database), Or(u.username, user),
                             OrElse(u.password, password), f1, blocked, budget))
      case Prometheus(id, env, name, tls, enabled, baseUrl, auth, username, secret) =>
        var newAuth := Or(u.auth, auth);
        var newSecret := OrElse(u.secret, secret);
        if newAuth == NoAuth && newSecret.Some? then Err(Rejected)
        else
          Checked(x, Prometheus(id, Or(u.environment, env), Or(u.name, name), Or(u.tls, tls), Or(u.enabled, enabled),
                                Or(u.baseUrl, baseUrl), newAuth,
                                if newAuth == Basic then OrElse(u.username, username) else None, newSecret))
  }

  function Bare(r: Resource): Resource { if r.StarRocks? then r.(password := None) else r.(secret := None) }

  /** `_without_secret`. */
  function WithoutSecret(x: Syntax, r: Resource): Result<Resource, Refusal> { Checked(x, Bare(r)) }

  /** The edit of one resource. */
  datatype Edit = Merge(update: Update) | ClearSecret

  function Edited(x: Syntax, r: Resource, e: Edit): Result<Resource, Refusal> {
    match e
    case Merge(u) => Merged(x, r, u)
    case ClearSecret => WithoutSecret(x, r)
  }

  predicate Has(rs: seq<Resource>, id: string) { exists i :: 0 <= i < |rs| && rs[i].id == id }

  /** The first place of `id`; with unique ids the only one. */
  function IndexOf(rs: seq<Resource>, id: string): (i: nat)
    requires Has(rs, id)
    ensures i < |rs| && rs[i].id == id
  {
    if rs[0].id == id then 0
    else
      assert forall k :: 1 <= k < |rs| ==> rs[k] == rs[1..][k - 1];
      1 + IndexOf(rs[1..], id)
  }

  /** `_replace_one`: only the named resource is edited. */
  function ReplaceOne(x: Syntax, rs: seq<Resource>, id: string, e: Edit): Result<seq<Resource>, Refusal> {
    if !Has(rs, id) then Err(NotFound)
    else
      var i := IndexOf(rs, id);
      match Edited(x, rs[i], e)
      case Ok(r) => Ok(rs[..i] + [r] + rs[i + 1..])
      case Err(why) => Err(why)
  }

  function Without(rs: seq<Resource>, id: string): seq<Resource> {
    if rs == [] then [] else (if rs[0].id == id then [] else [rs[0]]) + Without(rs[1..], id)
  }

  /** What an administrator asks for. The id of a new resource comes from the server. */
  datatype Change = Create(id: string, draft: Draft) | Alter(id: string, edit: Edit) | Delete(id: string)

  function Changed(x: Syntax, rs: seq<Resource>, c: Change): Result<seq<Resource>, Refusal> {
    match c
    case Create(id, draft) =>
      var created := FromDraft(id, draft);
      if Has(rs, id) then Err(Conflict)
      else if !Valid(x, created) || (SecretRequired(created) && !Configured(created)) then Err(Rejected)
      else Ok(rs + [created])
    case Alter(id, e) => ReplaceOne(x, rs, id, e)
    case Delete(id) =>
      var kept := Without(rs, id);
      if |kept| == |rs| then Err(NotFound) else Ok(kept)
  }

  /** The new document, if the contract accepts it. */
  function NewDocument(x: Syntax, rs: seq<Resource>, c: Change): (d: Result<seq<Resource>, Refusal>)
    ensures d.Ok? ==> ValidDocument(x, d.value)
  {
    match Changed(x, rs, c)
    case Ok(n) => if ValidDocument(x, n) then Ok(n) else Err(Rejected)
    case Err(why) => Err(why)
  }
}
