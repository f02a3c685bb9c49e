/**
 Paging through tasks: the store hands out pages newest first, the service drops group tasks and
 moves the cursor, and a client follows the cursors while new tasks keep arriving.
 */
module TaskListing {
  import opened Wrappers

  datatype Task = Task(id: nat, actor: string, seqNo: nat, group: bool)

  /** Whose tasks a principal lists. */
  datatype Reader = NoPermission | Everyone | Own(actor: string)

  datatype Page = Page(items: seq<Task>, next: Option<nat>)

  const ACTOR_PAGE := 100

  /** The store of one scope, newest first. */
  predicate Newest(s: seq<Task>) { forall i, j :: 0 <= i < j < |s| ==> s[i].seqNo > s[j].seqNo }

  predicate InRange(t: Task, r: Reader, before: Option<nat>) {
    (r.Own? ==> t.actor == r.actor) && (before.Some? ==> t.seqNo < before.value)
  }

  /** What the store has for a reader below a cursor. */
  function Stored(s: seq<Task>, r: Reader, before: Option<nat>): seq<Task> {
    if s == [] then []
    else (if InRange(s[0], r, before) then [s[0]] else []) + Stored(s[1..], r, before)
  }

  /** The store's page: the newest `limit` below the cursor, and a cursor when there are more. */
  function StorePage(s: seq<Task>, r: Reader, before: Option<nat>, limit: nat): Page
    requires limit > 0
  {
    var all := Stored(s, r, before);
    if |all| > limit then Page(all[..limit], Some(all[limit - 1].seqNo)) else Page(all, None)
  }

  function NonGroup(ts: seq<Task>): seq<Task> {
    if ts == [] then [] else (if ts[0].group then [] else [ts[0]]) + NonGroup(ts[1..])
  }

  /** What a reader may see below a cursor, in order. */
  function Visible(s: seq<Task>, r: Reader, before: Option<nat>): seq<Task> {
    if r.Everyone? then Stored(s, r, before) else NonGroup(Stored(s, r, before))
  }

  /** How many tasks of a store page are looked at until `limit` of them are shown. */
  function Looked(ts: seq<Task>, limit: nat): (k: nat)
    ensures k <= |ts|
    ensures ts != [] && limit > 0 ==> k > 0
  {
    if ts == [] || limit == 0 then 0
    else 1 + Looked(ts[1..], if ts[0].group then limit else limit - 1)
  }

  /** The page of an ordinary reader. */
  function OwnPage(p: Page, limit: nat): Page {
    var k := Looked(p.items, limit);
    Page(NonGroup(p.items[..k]),
         if k > 0 && (p.next.Some? || k < |p.items|) then Some(p.items[k - 1].seqNo) else None)
  }

  /** `list_tasks` on one state of the store. */
  function Listing(s: seq<Task>, r: Reader, before: Option<nat>, limit: nat): Option<Page>
    requires limit > 0
  {
    match r
    case NoPermission => None
    case Everyone => Some(StorePage(s, r, before, limit))
    case Own(_) => Some(OwnPage(StorePage(s, r, before, ACTOR_PAGE), limit))
  }

  lemma {:induction false} NonGroupAppend(a: seq<Task>, b: seq<Task>)
    ensures NonGroup(a + b) == NonGroup(a) + NonGroup(b)
  {
    if a == [] {
      assert a + b == b;
    } else {
      assert (a + b)[1..] == a[1..] + b;
      NonGroupAppend(a[1..], b);
    }
  }

  lemma ShownNext(ts: seq<Task>, i: nat)
    requires i < |ts|
    ensures NonGroup(ts[..i + 1]) == NonGroup(ts[..i]) + (if ts[i].group then [] else [ts[i]])
  {
    assert ts[..i + 1] == ts[..i] + [ts[i]];
    NonGroupAppend(ts[..i], [ts[i]]);
    assert NonGroup([ts[i]]) == if ts[i].group then [] else [ts[i]];
  }

  /** The loop of `list_tasks` before its step `index`. */
  predicate Collecting(ts: seq<Task>, limit: nat, index: nat, shown: seq<Task>) {
    && index <= |ts| && shown == NonGroup(ts[..index]) && |shown| <= limit
    && Looked(ts, limit) == index + Looked(ts[index..], limit - |shown|)
  }

  lemma CollectStart(ts: seq<Task>, limit: nat)
    ensures Collecting(ts, limit, 0, [])
  {
  }

  lemma CollectNext(ts: seq<Task>, limit: nat, index: nat, shown: seq<Task>)
    requires Collecting(ts, limit, index, shown) && index < |ts| && |shown| < limit
    ensures Collecting(ts, limit, index + 1, if ts[index].group then shown else shown + [ts[index]])
  {
    ShownNext(ts, index);
    assert ts[index..][1..] == ts[index + 1..];
  }

  lemma CollectEnd(ts: seq<Task>, limit: nat, index: nat, shown: seq<Task>)
    requires Collecting(ts, limit, index, shown) && (index == |ts| || |shown| == limit)
    ensures Looked(ts, limit) == index && shown == NonGroup(ts[..index])
  {
  }

  /** The loop of `list_tasks` over one store page. */
  method CollectPage(p: Page, limit: nat) returns (page: Page)
    requires limit > 0
    ensures page == OwnPage(p, limit)
  {
    var summaries: seq<Task> := [];
    var processed: Option<nat> := None;
    var hasMore := p.next.Some?;
    var index := 0;
    CollectStart(p.items, limit);
    while index < |p.items|
      invariant Collecting(p.items, limit, index, summaries)
      invariant |summaries| < limit
      invariant processed == if index == 0 then None else Some(p.items[index - 1].seqNo)
    {
      var item := p.items[index];
      processed := Some(item.seqNo);
      CollectNext(p.items, limit, index, summaries);
      if !item.group {
        summaries := summaries + [item];
      }
      index := index + 1;
      if |summaries| == limit {
        hasMore := hasMore || index < |p.items|;
        break;
      }
    }
    CollectEnd(p.items, limit, index, summaries);
    page := Page(summaries, if hasMore then processed else None);
  }
}
