/**
 What creations, updates and clearings make of a resource, field by field, and what the contract asks
 of a resource and of the whole document.
 */
module ConfigFields {
  import opened Wrappers
  import opened ConfigResources
  import opened ConfigEdits

  /** A carried value is written; where none is carried the stored one stays. */
  predicate Takes<T(==)>(carried: Option<T>, stored: T, written: T) {
    match carried
    case Some(v) => written == v
    case None => written == stored
  }

  /** The same for a field that may be empty, and that cannot be emptied by not carrying it. */
  predicate TakesOptional<T(==)>(carried: Option<T>, stored: Option<T>, written: Option<T>) {
    match carried
    case Some(v) => written == Some(v)
    case None => written == stored
  }

  // ---- the contract ----

  predicate SecretOk(x: Syntax, secret: Option<string>) { secret == None || x.secret(secret.value) }

  /** A port, a name of each part, and for an endpoint of metrics: https exactly with verification, a user
      exactly for basic authentication, and no secret without authentication. */
  predicate MeetsContract(x: Syntax, r: Resource) {
    && x.id(r.id) && x.text(r.name)
    && (r.StarRocks? ==>
          && 1 <= r.port <= 65535 && x.host(r.host) && x.text(r.database) && x.text(r.user) && SecretOk(x, r.password))
    && (r.Prometheus? ==>
          && x.url(r.baseUrl) && (r.tls == Disabled <==> !x.https(r.baseUrl))
          && (r.username == None <==> r.auth != Basic) && (r.username == None || x.text(r.username.value))
          && (r.auth == NoAuth ==> r.secret == None) && SecretOk(x, r.secret))
  }

  lemma ContractIs(x: Syntax, r: Resource)
    ensures Valid(x, r) <==> MeetsContract(x, r)
  {
  }

  /** At most a hundred resources, no id twice, and no name twice in an environment among those that are open
      for questions. */
  predicate DocumentMeets(x: Syntax, rs: seq<Resource>) {
    && |rs| <= 100 && (forall i :: 0 <= i < |rs| ==> MeetsContract(x, rs[i]))
    && (forall i, j :: 0 <= i < j < |rs| ==> rs[i].id != rs[j].id)
    && forall i, j :: 0 <= i < j < |rs| && Questionable(rs[i]) && Questionable(rs[j]) ==>
                        rs[i].environment != rs[j].environment || rs[i].name != rs[j].name
  }

  predicate Questionable(r: Resource) { r.StarRocks? && r.f1Enabled }

  lemma DocumentIs(x: Syntax, rs: seq<Resource>)
    ensures ValidDocument(x, rs) <==> DocumentMeets(x, rs)
  {
    forall i | 0 <= i < |rs|
      ensures Valid(x, rs[i]) <==> MeetsContract(x, rs[i])
    {
      ContractIs(x, rs[i]);
    }
    assert forall r: Resource :: F1(r) <==> Questionable(r);
  }

  // ---- an update ----

  /** Fields that the kind of the resource does not have are not carried. */
  predicate OwnFields(r: Resource, u: Update) {
    && (r.StarRocks? ==> u.baseUrl == None && u.auth == None && u.secret == None)
    && (r.Prometheus? ==> u.host == None && u.port == None && u.database == None && u.password == None)
  }

  /** `n` is `r` with every carried field taken. Away from basic authentication the user name goes. */
  predicate Updated(r: Resource, u: Update, n: Resource) {
    && n.id == r.id && (n.StarRocks? <==> r.StarRocks?)
    && Takes(u.environment, r.environment, n.environment) && Takes(u.name, r.name, n.name)
    && Takes(u.tls, r.tls, n.tls) && Takes(u.enabled, r.enabled, n.enabled)
    && (r.StarRocks? ==>
          && Takes(u.host, r.host, n.host) && Takes(u.port, r.port, n.port) && Takes(u.database, r.database, n.database)
          && Takes(u.username, r.user, n.user) && TakesOptional(u.password, r.password, n.password)
          && n.f1Enabled == r.f1Enabled && n.blocked == r.blocked && n.budget == r.budget)
    && (r.Prometheus? ==>
          && Takes(u.baseUrl, r.baseUrl, n.baseUrl) && Takes(u.auth, r.auth, n.auth)
          && TakesOptional(u.secret, r.secret, n.secret)
          && (if n.auth == Basic then TakesOptional(u.username, r.username, n.username) else n.username == None))
  }

  /** An update is accepted exactly if it carries no foreign field and what comes out meets the contract. */
  lemma UpdateIff(x: Syntax, r: Resource, u: Update, n: Resource)
    ensures Merged(x, r, u) == Ok(n) <==> OwnFields(r, u) && Updated(r, u, n) && MeetsContract(x, n)
    ensures Merged(x, r, u).Err? ==> Merged(x, r, u) == Err(Rejected)
  {
    ContractIs(x, n);
  }

  // ---- a creation ----

  /** The resource that a draft asks for: its own fields, the id from the server, and nothing of what only
      questions need. */
  predicate Drafted(id: string, d: Draft, n: Resource) {
    && n.id == id && n.environment == d.environment && n.name == d.name && n.tls == d.tls && n.enabled == d.enabled
    && (d.StarRocksDraft? ==>
          && n.StarRocks? && n.host == d.host && n.port == d.port && n.database == d.database && n.user == d.user
          && n.password == d.password && !n.f1Enabled && n.blocked == [] && n.budget == Budget(1000, 20971520, 180))
    && (d.PrometheusDraft? ==>
          && n.Prometheus? && n.baseUrl == d.baseUrl && n.auth == d.auth && n.username == d.username
          && n.secret == d.secret)
  }

  /** A secret has to come with every database, and with every endpoint that authenticates. */
  predicate ComesWithSecret(d: Draft) {
    match d
    case StarRocksDraft(_, _, _, _, _, _, _, _, password) => password != None
    case PrometheusDraft(_, _, _, _, _, auth, _, secret) => auth == NoAuth || secret != None
  }

  /** A creation succeeds exactly with a new id, room in the document, a secret where one is due and a resource
      that meets the contract, which it appends. */
  lemma CreationIff(x: Syntax, rs: seq<Resource>, id: string, d: Draft, n: seq<Resource>)
    requires ValidDocument(x, rs)
    ensures NewDocument(x, rs, Create(id, d)) == Ok(n)
            <==> && |rs| < 100 && (forall i :: 0 <= i < |rs| ==> rs[i].id != id) && ComesWithSecret(d)
                 && exists r: Resource :: Drafted(id, d, r) && MeetsContract(x, r) && n == rs + [r]
  {
    CreateIff(x, rs, id, d);
    var r := FromDraft(id, d);
    assert Drafted(id, d, r);
    forall other: Resource | Drafted(id, d, other)
      ensures other == r
    {
    }
    ContractIs(x, r);
    assert ComesWithSecret(d) <==> (SecretRequired(r) ==> Configured(r));
    assert Has(rs, id) <==> exists i :: 0 <= i < |rs| && rs[i].id == id;
  }

  // ---- a clearing ----

  /** The secret goes, every other field stays. */
  predicate Cleared(r: Resource, n: Resource) {
    if r.StarRocks? then
      n.StarRocks? && n.password == None && n.id == r.id && n.environment == r.environment && n.name == r.name
      && n.tls == r.tls && n.enabled == r.enabled && n.host == r.host && n.port == r.port && n.database == r.database
      && n.user == r.user && n.f1Enabled == r.f1Enabled && n.blocked == r.blocked && n.budget == r.budget
    else
      n.Prometheus? && n.secret == None && n.id == r.id && n.environment == r.environment && n.name == r.name
      && n.tls == r.tls && n.enabled == r.enabled && n.baseUrl == r.baseUrl && n.auth == r.auth
      && n.username == r.username
  }

  /** In a document, an alteration changes the one resource of its id as its edit says, and nothing else. */
  lemma AlterationFields(x: Syntax, rs: seq<Resource>, id: string, e: Edit)
    requires ValidDocument(x, rs) && NewDocument(x, rs, Alter(id, e)).Ok?
    ensures var n := NewDocument(x, rs, Alter(id, e)).value;
            exists i :: 0 <= i < |rs| && rs[i].id == id && |n| == |rs| && AlteredAt(rs, n, i, e)
  {
    AlterFrame(x, rs, id, e);
    var n, i := NewDocument(x, rs, Alter(id, e)).value, IndexOf(rs, id);
    if e.Merge? {
      UpdateIff(x, rs[i], e.update, n[i]);
    }
    assert AlteredAt(rs, n, i, e);
  }

  predicate AlteredAt(rs: seq<Resource>, n: seq<Resource>, i: nat, e: Edit)
    requires i < |rs| && |n| == |rs|
  {
    && (forall k :: 0 <= k < |rs| && k != i ==> n[k] == rs[k])
    && match e
       case Merge(u) => OwnFields(rs[i], u) && Updated(rs[i], u, n[i])
       case ClearSecret => Cleared(rs[i], n[i])
  }

  // ---- a change of the document ----

  /** What a change makes of a document: a creation appends, an alteration changes the one resource of the id, a
      deletion takes it out; and the contract holds of what comes out. */
  ghost predicate ChangesTo(x: Syntax, rs: seq<Resource>, c: Change, n: seq<Resource>) {
    && DocumentMeets(x, n)
    && match c
       case Create(id, d) =>
         && (forall i :: 0 <= i < |rs| ==> rs[i].id != id) && ComesWithSecret(d)
         && exists r: Resource :: Drafted(id, d, r) && n == rs + [r]
       case Alter(id, e) => |n| == |rs| && exists i :: 0 <= i < |rs| && rs[i].id == id && AlteredAt(rs, n, i, e)
       case Delete(id) => exists i :: 0 <= i < |rs| && rs[i].id == id && n == rs[..i] + rs[i + 1..]
  }

  lemma ChangeMeans(x: Syntax, rs: seq<Resource>, c: Change)
    requires ValidDocument(x, rs) && NewDocument(x, rs, c).Ok?
    ensures ChangesTo(x, rs, c, NewDocument(x, rs, c).value)
  {
    var n := NewDocument(x, rs, c).value;
    DocumentIs(x, n);
    match c
    case Create(id, d) => CreationIff(x, rs, id, d, n);
    case Alter(id, e) => AlterationFields(x, rs, id, e);
    case Delete(id) =>
      DeleteIff(x, rs, id);
      assert rs[IndexOf(rs, id)].id == id;
  }

  /** An unknown id is not found, a known one conflicts with a creation, and everything else that the contract
      does not accept is rejected. */
  lemma RefusalMeans(x: Syntax, rs: seq<Resource>, c: Change)
    requires ValidDocument(x, rs) && NewDocument(x, rs, c).Err?
    ensures var known := exists i :: 0 <= i < |rs| && rs[i].id == c.id;
            NewDocument(x, rs, c).error
            == if c.Create? then if known then Conflict else Rejected else if known then Rejected else NotFound
  {
    assert Has(rs, c.id) <==> exists i :: 0 <= i < |rs| && rs[i].id == c.id;
    match c
    case Create(id, d) => CreateIff(x, rs, id, d);
    case Delete(id) => DeleteIff(x, rs, id);
    case Alter(id, e) =>
      if Has(rs, id) && e.Merge? {
        UpdateIff(x, rs[IndexOf(rs, id)], e.update, rs[IndexOf(rs, id)]);
      }
  }
}
