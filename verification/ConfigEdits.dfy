/**
 What edits of the resources document keep, over one edit and over any sequence of them.
 */
module ConfigEdits {
  import opened Wrappers
  import opened ConfigResources

  // ---- one resource ----

  function CarriedSecret(r: Resource, u: Update): Option<string> { if r.StarRocks? then u.password else u.secret }

  /** An update keeps identity and kind, and a secret changes only when a new one is carried. */
  lemma UpdateKeepsSecret(x: Syntax, r: Resource, u: Update)
    requires Merged(x, r, u).Ok?
    ensures var n := Merged(x, r, u).value;
            && n.id == r.id && n.StarRocks? == r.StarRocks? && Valid(x, n)
            && Secret(n) == OrElse(CarriedSecret(r, u), Secret(r))
            && (F1(n) <==> F1(r))
  {
  }

  /** Sending an accepted update again changes nothing. */
  lemma UpdateTwice(x: Syntax, r: Resource, u: Update)
    requires Merged(x, r, u).Ok?
    ensures Merged(x, Merged(x, r, u).value, u) == Merged(x, r, u)
  {
  }

  /** An update that carries nothing is accepted and changes nothing. */
  lemma EmptyUpdate(x: Syntax, r: Resource)
    requires Valid(x, r)
    ensures Merged(x, r, NO_UPDATE) == Ok(r)
  {
  }

  function SecretUpdate(r: Resource): Update {
    if r.StarRocks? then NO_UPDATE.(password := r.password) else NO_UPDATE.(secret := r.secret)
  }

  /** Clearing a secret of a valid resource is always possible, and sending the old secret again
      brings the resource back. */
  lemma ClearAndRestore(x: Syntax, r: Resource)
    requires Valid(x, r)
    ensures WithoutSecret(x, r) == Ok(Bare(r)) && !Configured(Bare(r))
    ensures Merged(x, Bare(r), SecretUpdate(r)) == Ok(r)
  {
  }

  /** A stored secret never yields to `none`: the change is refused until the secret is cleared. */
  lemma SecretBlocksNoAuth(x: Syntax, r: Resource, u: Update)
    requires r.Prometheus? && Configured(r) && u.auth == Some(NoAuth)
    ensures Merged(x, r, u) == Err(Rejected)
    ensures Valid(x, r) && u == NO_UPDATE.(auth := Some(NoAuth)) ==> Merged(x, Bare(r), u).Ok?
  {
  }

  // ---- the list ----

  lemma {:induction false} OnlyIndex(rs: seq<Resource>, i: nat)
    requires UniqueIds(rs) && i < |rs|
    ensures Has(rs, rs[i].id) && IndexOf(rs, rs[i].id) == i
  {
  }

  lemma {:induction false} WithoutAbsent(rs: seq<Resource>, id: string)
    requires !Has(rs, id)
    ensures Without(rs, id) == rs
  {
    if rs != [] {
      assert rs[0].id != id;
      forall k | 0 <= k < |rs[1..]|
        ensures rs[1..][k].id != id
      {
        assert rs[1..][k] == rs[k + 1];
      }
      WithoutAbsent(rs[1..], id);
    }
  }

  lemma TailUnique(rs: seq<Resource>)
    requires UniqueIds(rs) && rs != []
    ensures UniqueIds(rs[1..]) && !Has(rs[1..], rs[0].id)
  {
  }

  lemma CutHead(rs: seq<Resource>, i: nat)
    requires 0 < i < |rs|
    ensures rs[..i] + rs[i + 1..] == [rs[0]] + (rs[1..][..i - 1] + rs[1..][i..])
  {
  }

  /** Deleting takes out one element and leaves the others in their order. */
  lemma {:induction false} DeleteCuts(rs: seq<Resource>, i: nat)
    requires UniqueIds(rs) && i < |rs|
    ensures Without(rs, rs[i].id) == rs[..i] + rs[i + 1..]
  {
    TailUnique(rs);
    if i == 0 {
      WithoutAbsent(rs[1..], rs[0].id);
    } else {
      DeleteCuts(rs[1..], i - 1);
      CutHead(rs, i);
    }
  }

  lemma CutKeepsDocument(x: Syntax, rs: seq<Resource>, i: nat)
    requires ValidDocument(x, rs) && i < |rs|
    ensures ValidDocument(x, rs[..i] + rs[i + 1..])
  {
  }

  /** Deleting succeeds exactly on the ids of the document. */
  lemma DeleteIff(x: Syntax, rs: seq<Resource>, id: string)
    requires ValidDocument(x, rs)
    ensures NewDocument(x, rs, Delete(id))
         == if Has(rs, id) then Ok(rs[..IndexOf(rs, id)] + rs[IndexOf(rs, id) + 1..]) else Err(NotFound)
  {
    if Has(rs, id) {
      var i := IndexOf(rs, id);
      DeleteCuts(rs, i);
      CutKeepsDocument(x, rs, i);
    } else {
      WithoutAbsent(rs, id);
    }
  }

  lemma SwapKeepsDocument(x: Syntax, rs: seq<Resource>, i: nat, r: Resource)
    requires ValidDocument(x, rs) && i < |rs| && Valid(x, r) && r.id == rs[i].id
    requires forall k :: 0 <= k < |rs| && k != i && F1(r) && F1(rs[k]) ==> !SameTarget(r, rs[k])
    ensures ValidDocument(x, rs[..i] + [r] + rs[i + 1..])
  {
  }

  /** Clearing a secret succeeds exactly on the ids of the document. */
  lemma ClearIff(x: Syntax, rs: seq<Resource>, id: string)
    requires ValidDocument(x, rs)
    ensures NewDocument(x, rs, Alter(id, ClearSecret))
         == if Has(rs, id) then Ok(rs[IndexOf(rs, id) := Bare(rs[IndexOf(rs, id)])]) else Err(NotFound)
  {
    if Has(rs, id) {
      var i := IndexOf(rs, id);
      var r := Bare(rs[i]);
      ClearAndRestore(x, rs[i]);
      forall k | 0 <= k < |rs| && k != i && F1(r) && F1(rs[k])
        ensures !SameTarget(r, rs[k])
      {
        assert F1(rs[i]);
        assert SameTarget(r, rs[k]) == SameTarget(rs[i], rs[k]) == SameTarget(rs[k], rs[i]);
      }
      SwapKeepsDocument(x, rs, i, r);
      assert rs[..i] + [r] + rs[i + 1..] == rs[i := r];
    }
  }

  /** When creating succeeds, and what else it answers. */
  lemma CreateIff(x: Syntax, rs: seq<Resource>, id: string, d: Draft)
    requires ValidDocument(x, rs)
    ensures var r := FromDraft(id, d);
            NewDocument(x, rs, Create(id, d))
            == if Has(rs, id) then Err(Conflict)
               else if Valid(x, r) && (SecretRequired(r) ==> Configured(r)) && |rs| < MAX_RESOURCES then Ok(rs + [r])
               else Err(Rejected)
  {
  }

  /** Deleting what was just created restores the document. */
  lemma CreateDelete(x: Syntax, rs: seq<Resource>, id: string, d: Draft)
    requires ValidDocument(x, rs) && NewDocument(x, rs, Create(id, d)).Ok?
    ensures NewDocument(x, NewDocument(x, rs, Create(id, d)).value, Delete(id)) == Ok(rs)
  {
    CreateIff(x, rs, id, d);
    var n := rs + [FromDraft(id, d)];
    DeleteIff(x, n, id);
    OnlyIndex(n, |rs|);
    assert n[..|rs|] + n[|rs| + 1..] == rs;
  }

  /** An alteration touches the named place only. */
  lemma AlterFrame(x: Syntax, rs: seq<Resource>, id: string, e: Edit)
    requires NewDocument(x, rs, Alter(id, e)).Ok?
    ensures Has(rs, id)
    ensures var n, i := NewDocument(x, rs, Alter(id, e)).value, IndexOf(rs, id);
            n == rs[i := n[i]] && Ok(n[i]) == Edited(x, rs[i], e) && n[i].id == id
  {
    var i := IndexOf(rs, id);
    var r := Edited(x, rs[i], e).value;
    assert rs[..i] + [r] + rs[i + 1..] == rs[i := r];
  }

  // ---- any sequence of changes ----

  /** A refused change leaves the document alone. */
  function Step(x: Syntax, rs: seq<Resource>, c: Change): (n: seq<Resource>)
    ensures ValidDocument(x, rs) ==> ValidDocument(x, n)
  {
    match NewDocument(x, rs, c)
    case Ok(n) => n
    case Err(_) => rs
  }

  function Steps(x: Syntax, rs: seq<Resource>, cs: seq<Change>): (n: seq<Resource>)
    ensures ValidDocument(x, rs) ==> ValidDocument(x, n)
    decreases |cs|
  {
    if cs == [] then rs else Steps(x, Step(x, rs, cs[0]), cs[1..])
  }

  function Lookup(rs: seq<Resource>, id: string): Option<Resource> {
    if Has(rs, id) then Some(rs[IndexOf(rs, id)]) else None
  }

  lemma LookupAt(rs: seq<Resource>, i: nat)
    requires UniqueIds(rs) && i < |rs|
    ensures Lookup(rs, rs[i].id) == Some(rs[i])
  {
  }

  /** Two lists with unique ids agree on `id` when they share its element or both lack it. */
  lemma SameLookup(a: seq<Resource>, b: seq<Resource>, id: string)
    requires UniqueIds(a) && UniqueIds(b)
    requires forall i :: 0 <= i < |a| && a[i].id == id ==> a[i] in b
    requires forall i :: 0 <= i < |b| && b[i].id == id ==> b[i] in a
    ensures Lookup(a, id) == Lookup(b, id)
  {
  }

  lemma CreateElsewhere(rs: seq<Resource>, r: Resource, id: string)
    requires UniqueIds(rs) && UniqueIds(rs + [r]) && r.id != id
    ensures Lookup(rs + [r], id) == Lookup(rs, id)
  {
    var n := rs + [r];
    assert forall i :: 0 <= i < |rs| ==> n[i] == rs[i];
    SameLookup(n, rs, id);
  }

  lemma AlterElsewhere(rs: seq<Resource>, i: nat, r: Resource, id: string)
    requires UniqueIds(rs) && i < |rs| && UniqueIds(rs[i := r]) && rs[i].id != id && r.id != id
    ensures Lookup(rs[i := r], id) == Lookup(rs, id)
  {
    var n := rs[i := r];
    assert forall k :: 0 <= k < |rs| && k != i ==> n[k] == rs[k];
    SameLookup(n, rs, id);
  }

  lemma DeleteElsewhere(rs: seq<Resource>, k: nat, id: string)
    requires UniqueIds(rs) && k < |rs| && UniqueIds(rs[..k] + rs[k + 1..]) && rs[k].id != id
    ensures Lookup(rs[..k] + rs[k + 1..], id) == Lookup(rs, id)
  {
    var n := rs[..k] + rs[k + 1..];
    forall i | 0 <= i < |rs| && rs[i].id == id
      ensures rs[i] in n
    {
      assert rs[i] == n[if i < k then i else i - 1];
    }
    SameLookup(n, rs, id);
  }

  /** A change says nothing about other ids. */
  lemma StepElsewhere(x: Syntax, rs: seq<Resource>, c: Change, id: string)
    requires ValidDocument(x, rs) && c.id != id
    ensures Lookup(Step(x, rs, c), id) == Lookup(rs, id)
  {
    if NewDocument(x, rs, c).Ok? {
      match c
      case Create(_, d) =>
        CreateIff(x, rs, c.id, d);
        CreateElsewhere(rs, FromDraft(c.id, d), id);
      case Alter(_, e) =>
        AlterFrame(x, rs, c.id, e);
        var i := IndexOf(rs, c.id);
        AlterElsewhere(rs, i, Step(x, rs, c)[i], id);
      case Delete(_) =>
        DeleteIff(x, rs, c.id);
        DeleteElsewhere(rs, IndexOf(rs, c.id), id);
    }
  }

  /** Whatever happens to other resources, this one keeps every field. */
  lemma {:induction false} Untouched(x: Syntax, rs: seq<Resource>, cs: seq<Change>, id: string)
    requires ValidDocument(x, rs) && forall i :: 0 <= i < |cs| ==> cs[i].id != id
    ensures Lookup(Steps(x, rs, cs), id) == Lookup(rs, id)
    decreases |cs|
  {
    if cs != [] {
      StepElsewhere(x, rs, cs[0], id);
      Untouched(x, Step(x, rs, cs[0]), cs[1..], id);
    }
  }

  /** The changes that may take a secret away. */
  predicate Drops(c: Change, id: string) { c == Delete(id) || c == Alter(id, ClearSecret) }

  lemma StepKeepsConfigured(x: Syntax, rs: seq<Resource>, c: Change, id: string)
    requires ValidDocument(x, rs) && !Drops(c, id)
    requires Lookup(rs, id).Some? && Configured(Lookup(rs, id).value)
    ensures var n := Lookup(Step(x, rs, c), id); n.Some? && Configured(n.value)
  {
    if c.id != id {
      StepElsewhere(x, rs, c, id);
    } else if c.Create? {
      CreateIff(x, rs, id, c.draft);
    } else if NewDocument(x, rs, c).Ok? {
      AlterFrame(x, rs, id, c.edit);
      var i := IndexOf(rs, id);
      UpdateKeepsSecret(x, rs[i], c.edit.update);
      LookupAt(Step(x, rs, c), i);
    }
  }

  /** A configured secret stays configured over any sequence of changes but a clearing or a
      deletion of that very resource. */
  lemma {:induction false} SecretSurvives(x: Syntax, rs: seq<Resource>, cs: seq<Change>, id: string)
    requires ValidDocument(x, rs) && forall i :: 0 <= i < |cs| ==> !Drops(cs[i], id)
    requires Lookup(rs, id).Some? && Configured(Lookup(rs, id).value)
    ensures var n := Lookup(Steps(x, rs, cs), id); n.Some? && Configured(n.value)
    decreases |cs|
  {
    if cs != [] {
      StepKeepsConfigured(x, rs, cs[0], id);
      SecretSurvives(x, Step(x, rs, cs[0]), cs[1..], id);
    }
  }
}
