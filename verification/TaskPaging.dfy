/**
 Following the cursors of the task list until there is none shows every visible task of the first
 request once, newest first, whatever arrives in between.
 */
module TaskPaging {
  import opened Wrappers
  import opened TaskListing

  lemma {:induction false} StoredIff(s: seq<Task>, r: Reader, before: Option<nat>, t: Task)
    ensures t in Stored(s, r, before) <==> t in s && InRange(t, r, before)
  {
    if s != [] {
      StoredIff(s[1..], r, before, t);
    }
  }

  lemma {:induction false} NonGroupIff(ts: seq<Task>, t: Task)
    ensures t in NonGroup(ts) <==> t in ts && !t.group
  {
    if ts != [] {
      NonGroupIff(ts[1..], t);
    }
  }

  /** A reader sees exactly the tasks below the cursor that are the reader's own and no group
      tasks; an administrator sees all of them. */
  lemma VisibleIff(s: seq<Task>, r: Reader, before: Option<nat>, t: Task)
    ensures t in Visible(s, r, before) <==>
            t in s && (before.Some? ==> t.seqNo < before.value) && (r.Own? ==> t.actor == r.actor)
                && (r.Everyone? || !t.group)
  {
    StoredIff(s, r, before, t);
    NonGroupIff(Stored(s, r, before), t);
  }

  lemma TailNewest(s: seq<Task>)
    requires Newest(s) && s != []
    ensures Newest(s[1..]) && forall t :: t in s[1..] ==> t.seqNo < s[0].seqNo
  {
  }

  lemma HeadNewest(t: Task, s: seq<Task>)
    requires Newest(s) && forall u :: u in s ==> u.seqNo < t.seqNo
    ensures Newest([t] + s)
  {
  }

  lemma {:induction false} StoredNewest(s: seq<Task>, r: Reader, before: Option<nat>)
    requires Newest(s)
    ensures Newest(Stored(s, r, before))
  {
    if s != [] {
      TailNewest(s);
      StoredNewest(s[1..], r, before);
      forall u | u in Stored(s[1..], r, before)
        ensures u.seqNo < s[0].seqNo
      {
        StoredIff(s[1..], r, before, u);
      }
      if InRange(s[0], r, before) {
        HeadNewest(s[0], Stored(s[1..], r, before));
      }
    }
  }

  lemma {:induction false} NonGroupNewest(s: seq<Task>)
    requires Newest(s)
    ensures Newest(NonGroup(s))
  {
    if s != [] {
      TailNewest(s);
      NonGroupNewest(s[1..]);
      forall u | u in NonGroup(s[1..])
        ensures u.seqNo < s[0].seqNo
      {
        NonGroupIff(s[1..], u);
      }
      if !s[0].group {
        HeadNewest(s[0], NonGroup(s[1..]));
      }
    }
  }

  /** What a reader sees is in strictly descending order, so nothing appears twice. */
  lemma VisibleNewest(s: seq<Task>, r: Reader, before: Option<nat>)
    requires Newest(s)
    ensures Newest(Visible(s, r, before))
  {
    StoredNewest(s, r, before);
    NonGroupNewest(Stored(s, r, before));
  }

  // ---- the cursor ----

  /** A cursor taken from the list leaves out the head. */
  lemma CursorCutsHead(s: seq<Task>, r: Reader, before: Option<nat>, t: Task)
    requires Newest(s) && s != [] && t in Stored(s, r, before)
    ensures Stored(s, r, Some(t.seqNo)) == Stored(s[1..], r, Some(t.seqNo))
    ensures t != s[0] ==> t in s[1..]
    ensures before.Some? ==> t.seqNo < before.value
  {
    TailNewest(s);
    StoredIff(s, r, before, t);
    assert !InRange(s[0], r, Some(t.seqNo));
  }

  /** A cursor taken from the end of a front part of the list leaves the part behind it. */
  lemma {:induction false} StoredBehind(s: seq<Task>, r: Reader, before: Option<nat>, a: seq<Task>, b: seq<Task>)
    requires Newest(s) && a != [] && Stored(s, r, before) == a + b
    ensures Stored(s, r, Some(a[|a| - 1].seqNo)) == b
  {
    var rest := Stored(s[1..], r, before);
    TailNewest(s);
    CursorCutsHead(s, r, before, a[|a| - 1]);
    if !InRange(s[0], r, before) {
      StoredBehind(s[1..], r, before, a, b);
    } else {
      HeadOfBoth(s[0], rest, a, b);
      if |a| == 1 {
        StoredAllBelow(s[1..], r, before, s[0].seqNo);
      } else {
        StoredBehind(s[1..], r, before, a[1..], b);
      }
    }
  }

  lemma HeadOfBoth(t: Task, rest: seq<Task>, a: seq<Task>, b: seq<Task>)
    requires [t] + rest == a + b && a != []
    ensures a[0] == t && rest == a[1..] + b && (|a| == 1 ==> rest == b)
    ensures |a| > 1 ==> a[1..][|a| - 2] == a[|a| - 1]
  {
    assert (a + b)[0] == a[0];
    assert ([t] + rest)[1..] == rest && (a + b)[1..] == a[1..] + b;
    assert |a| == 1 ==> a[1..] + b == b;
  }

  lemma StoredBelow(s: seq<Task>, r: Reader, before: Option<nat>, k: nat)
    requires Newest(s) && 0 < k <= |Stored(s, r, before)|
    ensures Stored(s, r, Some(Stored(s, r, before)[k - 1].seqNo)) == Stored(s, r, before)[k..]
  {
    var all := Stored(s, r, before);
    assert all == all[..k] + all[k..];
    StoredBehind(s, r, before, all[..k], all[k..]);
  }

  lemma {:induction false} StoredAllBelow(s: seq<Task>, r: Reader, before: Option<nat>, c: nat)
    requires forall t :: t in s ==> t.seqNo < c
    requires before.Some? ==> c < before.value
    ensures Stored(s, r, Some(c)) == Stored(s, r, before)
  {
    if s != [] {
      StoredAllBelow(s[1..], r, before, c);
    }
  }

  /** A cursor that a page may hand out: it cuts the list behind a positive number of tasks. */
  ghost predicate CutsAt(s: seq<Task>, r: Reader, before: Option<nat>, c: nat, k: nat) {
    && 0 < k <= |Stored(s, r, before)| && c == Stored(s, r, before)[k - 1].seqNo
    && Stored(s, r, Some(c)) == Stored(s, r, before)[k..]
  }

  lemma OwnPageSplits(s: seq<Task>, r: Reader, before: Option<nat>, limit: nat) returns (k: nat)
    requires Newest(s) && r.Own? && limit > 0
    ensures var p := OwnPage(StorePage(s, r, before, ACTOR_PAGE), limit);
            && (p.next.None? ==> p.items == Visible(s, r, before))
            && (p.next.Some? ==> CutsAt(s, r, before, p.next.value, k)
                                 && Visible(s, r, before) == p.items + Visible(s, r, p.next))
  {
    var all := Stored(s, r, before);
    var page := StorePage(s, r, before, ACTOR_PAGE);
    k := Looked(page.items, limit);
    assert page.items[..k] == all[..k];
    NonGroupCut(all, k);
    if k > 0 {
      StoredBelow(s, r, before, k);
    }
  }

  lemma NonGroupCut(all: seq<Task>, k: nat)
    requires k <= |all|
    ensures NonGroup(all) == NonGroup(all[..k]) + NonGroup(all[k..])
    ensures k == |all| ==> NonGroup(all) == NonGroup(all[..k])
  {
    assert all == all[..k] + all[k..];
    NonGroupAppend(all[..k], all[k..]);
  }

  /** A page and what is left below its cursor make up all that the reader sees; without a cursor
      nothing is left. The cursor cuts off at least one task. */
  lemma PageSplits(s: seq<Task>, r: Reader, before: Option<nat>, limit: nat) returns (k: nat)
    requires Newest(s) && !r.NoPermission? && limit > 0
    ensures var p := Listing(s, r, before, limit).value;
            && (p.next.None? ==> p.items == Visible(s, r, before))
            && (p.next.Some? ==> CutsAt(s, r, before, p.next.value, k)
                                 && Visible(s, r, before) == p.items + Visible(s, r, p.next))
  {
    if r.Own? {
      k := OwnPageSplits(s, r, before, limit);
    } else {
      var all := Stored(s, r, before);
      k := if |all| > limit then limit else 0;
      if k > 0 {
        StoredBelow(s, r, before, k);
        assert all == all[..k] + all[k..];
      }
    }
  }

  /** Looking goes on until `limit` tasks are shown, the last of them where it stops, or to the end. */
  lemma {:induction false} LookedFar(ts: seq<Task>, limit: nat)
    requires limit > 0
    ensures var k := Looked(ts, limit);
            && |NonGroup(ts[..k])| <= limit
            && (k < |ts| ==> |NonGroup(ts[..k])| == limit)
            && (|NonGroup(ts[..k])| == limit ==> k > 0 && NonGroup(ts[..k])[limit - 1] == ts[k - 1])
  {
    if ts != [] {
      var rest, less := ts[1..], if ts[0].group then limit else limit - 1;
      var k := Looked(ts, limit);
      assert ts[..k] == [ts[0]] + rest[..k - 1];
      assert ([ts[0]] + rest[..k - 1])[1..] == rest[..k - 1];
      if less > 0 {
        LookedFar(rest, less);
      } else {
        assert k == 1 && rest[..0] == [] && NonGroup(rest[..0]) == [];
      }
    }
  }

  /** Without permission there is no page. An administrator's page is the first `limit` tasks below the cursor.
      An ordinary reader's page comes from the first tasks below the cursor, a hundred at most, up to the one with
      which `limit` of them are shown. A cursor is handed out exactly if tasks are left behind those looked at. */
  lemma PageSize(s: seq<Task>, r: Reader, before: Option<nat>, limit: nat) returns (k: nat)
    requires Newest(s) && limit > 0
    ensures Listing(s, r, before, limit).None? <==> r.NoPermission?
    ensures !r.NoPermission? ==>
              var p, all := Listing(s, r, before, limit).value, Stored(s, r, before);
              && k <= |all| && |p.items| <= limit
              && p.items == (if r.Everyone? then all[..k] else NonGroup(all[..k]))
              && (|p.items| < limit ==> k == |all| || (r.Own? && k == 100))
              && (|p.items| == limit ==> k > 0 && p.items[limit - 1] == all[k - 1])
              && (r.Own? ==> k <= 100)
              && p.next == (if k < |all| then if k > 0 then Some(all[k - 1].seqNo) else None else None)
              && (all != [] ==> k > 0)
  {
    var all := Stored(s, r, before);
    if r.Everyone? {
      k := if |all| > limit then limit else |all|;
      assert all[..|all|] == all;
    } else {
      var page := StorePage(s, r, before, ACTOR_PAGE);
      k := Looked(page.items, limit);
      LookedFar(page.items, limit);
      assert page.items[..k] == all[..k];
    }
  }

  /** The cursor of a page is strictly below the cursor it was asked with. */
  lemma CursorDecreases(s: seq<Task>, r: Reader, before: Option<nat>, limit: nat)
    requires Newest(s) && !r.NoPermission? && limit > 0
    ensures var p := Listing(s, r, before, limit).value;
            p.next.Some? && before.Some? ==> p.next.value < before.value
  {
    var k := PageSplits(s, r, before, limit);
    var p := Listing(s, r, before, limit).value;
    if p.next.Some? {
      StoredIff(s, r, before, Stored(s, r, before)[k - 1]);
    }
  }

  // ---- new tasks ----

  /** The later store still has every task of the earlier one. New tasks may stand anywhere: numbers are
      drawn before the tasks are committed. */
  predicate Grown(s: seq<Task>, n: seq<Task>) { forall t :: t in s ==> t in n }

  /** All new tasks stand on top. */
  predicate GrownOnTop(s: seq<Task>, n: seq<Task>) {
    |s| <= |n| && n[|n| - |s|..] == s
  }

  lemma {:induction false} StoredAppend(a: seq<Task>, b: seq<Task>, r: Reader, before: Option<nat>)
    ensures Stored(a + b, r, before) == Stored(a, r, before) + Stored(b, r, before)
  {
    if a == [] {
      assert a + b == b;
    } else {
      var head := if InRange(a[0], r, before) then [a[0]] else [];
      assert (a + b)[1..] == a[1..] + b;
      StoredAppend(a[1..], b, r, before);
      assert head + (Stored(a[1..], r, before) + Stored(b, r, before))
          == (head + Stored(a[1..], r, before)) + Stored(b, r, before);
    }
  }

  lemma {:induction false} NothingBelow(a: seq<Task>, r: Reader, c: nat)
    requires forall t :: t in a ==> t.seqNo >= c
    ensures Stored(a, r, Some(c)) == []
  {
    if a != [] {
      NothingBelow(a[1..], r, c);
    }
  }

  /** New tasks on top do not show below a cursor that an earlier page handed out. */
  lemma GrownBelow(s: seq<Task>, n: seq<Task>, r: Reader, t: Task)
    requires Newest(n) && GrownOnTop(s, n) && t in s
    ensures Stored(n, r, Some(t.seqNo)) == Stored(s, r, Some(t.seqNo))
  {
    var added := n[..|n| - |s|];
    assert n == added + s;
    var j :| 0 <= j < |s| && s[j] == t;
    assert n[|added| + j] == t;
    StoredAppend(added, s, r, Some(t.seqNo));
    NothingBelow(added, r, t.seqNo);
  }

  // ---- following the cursors ----

  datatype Trail = Trail(items: seq<Task>, finished: bool)

  /** One store for each call, and the limit of each call. */
  predicate Calls(stores: seq<seq<Task>>, limits: seq<nat>) {
    && |stores| == |limits| && (forall i :: 0 <= i < |limits| ==> limits[i] > 0)
    && (forall i :: 0 <= i < |stores| ==> Newest(stores[i]))
    && (forall i :: 0 < i < |stores| ==> Grown(stores[i - 1], stores[i]))
  }

  function Follow(stores: seq<seq<Task>>, limits: seq<nat>, r: Reader, before: Option<nat>): Trail
    requires Calls(stores, limits) && !r.NoPermission?
    decreases |stores|
  {
    if stores == [] then Trail([], false)
    else
      var p := Listing(stores[0], r, before, limits[0]).value;
      if p.next.None? then Trail(p.items, true)
      else
        CallsTail(stores, limits);
        var rest := Follow(stores[1..], limits[1..], r, p.next);
        Trail(p.items + rest.items, rest.finished)
  }

  lemma CallsTail(stores: seq<seq<Task>>, limits: seq<nat>)
    requires Calls(stores, limits) && stores != []
    ensures Calls(stores[1..], limits[1..])
  {
  }

  lemma {:induction false} GrownToLast(stores: seq<seq<Task>>, limits: seq<nat>, t: Task)
    requires Calls(stores, limits) && stores != [] && t in stores[0]
    ensures t in stores[|stores| - 1]
    decreases |stores|
  {
    if |stores| > 1 {
      CallsTail(stores, limits);
      assert Grown(stores[1 - 1], stores[1]);
      GrownToLast(stores[1..], limits[1..], t);
    }
  }

  /** A lower cursor leaves no more, and less if it cuts a task off. */
  lemma {:induction false} StoredShrinks(s: seq<Task>, r: Reader, before: Option<nat>, c: nat)
    requires before.Some? ==> c <= before.value
    ensures |Stored(s, r, Some(c))| <= |Stored(s, r, before)|
    ensures (exists t :: t in s && InRange(t, r, before) && t.seqNo >= c) ==>
              |Stored(s, r, Some(c))| < |Stored(s, r, before)|
  {
    if s != [] {
      StoredShrinks(s[1..], r, before, c);
      if t :| t in s && InRange(t, r, before) && t.seqNo >= c {
        assert t == s[0] || t in s[1..];
      }
    }
  }

  /** What a page shows stands at or above its cursor. */
  lemma ShownAboveCursor(s: seq<Task>, r: Reader, before: Option<nat>, items: seq<Task>, c: nat, t: Task)
    requires Newest(s) && Visible(s, r, before) == items + Visible(s, r, Some(c)) && t in items
    ensures t.seqNo >= c && t in Visible(s, r, before)
  {
    VisibleNewest(s, r, before);
    VisibleIff(s, r, before, t);
    VisibleIff(s, r, Some(c), t);
    InFrontOnly(items, Visible(s, r, Some(c)), t);
  }

  lemma InFrontOnly(a: seq<Task>, b: seq<Task>, t: Task)
    requires Newest(a + b) && t in a
    ensures t in a + b && t !in b
  {
    var all := a + b;
    var i :| 0 <= i < |a| && a[i] == t;
    assert all[i] == t;
    forall j | 0 <= j < |b|
      ensures b[j] != t
    {
      assert all[i].seqNo > all[|a| + j].seqNo;
    }
  }

  /** What a trail has shown of what was there at the first call and at the last one. */
  predicate Shows(first: seq<Task>, last: seq<Task>, r: Reader, before: Option<nat>, trail: Trail) {
    && Newest(trail.items)
    && (forall t :: t in trail.items ==> t in Visible(last, r, before))
    && (forall t, u :: t in Visible(first, r, before) && u in trail.items && u.seqNo <= t.seqNo ==> t in trail.items)
    && (trail.finished ==> forall t :: t in Visible(first, r, before) ==> t in trail.items)
  }

  lemma NewestBehind(a: seq<Task>, b: seq<Task>, c: nat)
    requires Newest(a) && Newest(b) && (forall t :: t in a ==> t.seqNo >= c) && forall t :: t in b ==> t.seqNo < c
    ensures Newest(a + b)
  {
    var all := a + b;
    forall i, j | 0 <= i < j < |all|
      ensures all[i].seqNo > all[j].seqNo
    {
      assert i < |a| ==> all[i] in a;
      assert j >= |a| ==> all[j] in b;
    }
  }

  /** A page in front of what the following calls show. */
  lemma ShowsOneMore(s: seq<Task>, n: seq<Task>, last: seq<Task>, r: Reader, before: Option<nat>, p: Page, rest: Trail)
    requires Newest(s) && Newest(n) && Newest(last) && Grown(s, n) && Grown(s, last) && p.next.Some?
    requires before.Some? ==> p.next.value <= before.value
    requires Visible(s, r, before) == p.items + Visible(s, r, p.next) && Shows(n, last, r, p.next, rest)
    ensures Shows(s, last, r, before, Trail(p.items + rest.items, rest.finished))
  {
    var c, items := p.next.value, p.items + rest.items;
    VisibleNewest(s, r, before);
    assert p.items == Visible(s, r, before)[..|p.items|];
    forall t | t in p.items
      ensures t.seqNo >= c && t in Visible(last, r, before)
    {
      ShownAboveCursor(s, r, before, p.items, c, t);
      VisibleIff(s, r, before, t);
      VisibleIff(last, r, before, t);
    }
    forall t | t in rest.items
      ensures t.seqNo < c && t in Visible(last, r, before)
    {
      VisibleIff(last, r, p.next, t);
      VisibleIff(last, r, before, t);
    }
    NewestBehind(p.items, rest.items, c);
    forall t | t in Visible(s, r, before) && t !in p.items
      ensures t in Visible(n, r, p.next) && t.seqNo < c
    {
      VisibleIff(s, r, p.next, t);
      VisibleIff(n, r, p.next, t);
    }
  }

  /** Whoever follows the cursors sees, whatever arrives meanwhile and wherever: tasks in strictly descending
      order, so none twice; no task that is not there; none of the first call's tasks skipped; and all
      of them when the cursors end. They end within one call more than there are tasks at last. */
  lemma {:induction false} FollowingCursors(stores: seq<seq<Task>>, limits: seq<nat>, r: Reader, before: Option<nat>)
    requires Calls(stores, limits) && stores != [] && !r.NoPermission?
    ensures var trail, last := Follow(stores, limits, r, before), stores[|stores| - 1];
            && Shows(stores[0], last, r, before, trail)
            && (|stores| > |Stored(last, r, before)| ==> trail.finished)
    decreases |stores|
  {
    var s, last := stores[0], stores[|stores| - 1];
    var p := Listing(s, r, before, limits[0]).value;
    var k := PageSplits(s, r, before, limits[0]);
    forall t | t in s
      ensures t in last
    {
      GrownToLast(stores, limits, t);
    }
    if p.next.None? {
      LastPage(s, last, r, before, p.items);
    } else {
      CallsTail(stores, limits);
      CutsOffAtLast(s, last, r, before, p.next.value, k);
      if |stores| > 1 {
        assert Grown(stores[1 - 1], stores[1]) && stores[1..][|stores| - 2] == last;
        FollowingCursors(stores[1..], limits[1..], r, p.next);
        ShowsOneMore(s, stores[1], last, r, before, p, Follow(stores[1..], limits[1..], r, p.next));
      } else {
        assert Follow(stores[1..], limits[1..], r, p.next) == Trail([], false);
        ShowsOneMore(s, s, s, r, before, p, Trail([], false));
      }
    }
  }

  lemma LastPage(s: seq<Task>, last: seq<Task>, r: Reader, before: Option<nat>, items: seq<Task>)
    requires Newest(s) && Newest(last) && Grown(s, last) && items == Visible(s, r, before)
    ensures Shows(s, last, r, before, Trail(items, true))
  {
    VisibleNewest(s, r, before);
    forall t | t in items
      ensures t in Visible(last, r, before)
    {
      VisibleIff(s, r, before, t);
      VisibleIff(last, r, before, t);
    }
  }

  /** The cursor of a page cuts a task off at last as well. */
  lemma CutsOffAtLast(s: seq<Task>, last: seq<Task>, r: Reader, before: Option<nat>, c: nat, k: nat)
    requires Newest(s) && Grown(s, last) && CutsAt(s, r, before, c, k)
    ensures before.Some? ==> c <= before.value
    ensures |Stored(last, r, Some(c))| < |Stored(last, r, before)|
  {
    var t := Stored(s, r, before)[k - 1];
    StoredIff(s, r, before, t);
    StoredShrinks(last, r, before, c);
  }

  // ---- new tasks on top ----

  predicate OnTop(stores: seq<seq<Task>>) { forall i :: 0 < i < |stores| ==> GrownOnTop(stores[i - 1], stores[i]) }

  /** Where new tasks stand on top, they do not show at all: whoever follows the cursors has seen a prefix of
      what was visible at the first call, and the cursors end within one call more than there were tasks. */
  lemma {:induction false} NewOnTopDoNotShow(stores: seq<seq<Task>>, limits: seq<nat>, r: Reader, before: Option<nat>)
    requires Calls(stores, limits) && stores != [] && !r.NoPermission? && OnTop(stores)
    ensures var trail, all := Follow(stores, limits, r, before), Visible(stores[0], r, before);
            && trail.items <= all
            && (trail.finished ==> trail.items == all)
            && (|stores| > |Stored(stores[0], r, before)| ==> trail.finished)
    decreases |stores|
  {
    var s := stores[0];
    var p := Listing(s, r, before, limits[0]).value;
    var k := PageSplits(s, r, before, limits[0]);
    if p.next.Some? {
      CallsTail(stores, limits);
      assert OnTop(stores[1..]);
      if |stores| > 1 {
        NextCall(s, stores[1], r, before, p.next.value, k);
        NewOnTopDoNotShow(stores[1..], limits[1..], r, p.next);
        var rest := Follow(stores[1..], limits[1..], r, p.next);
        PrefixBehind(p.items, rest.items, Visible(s, r, p.next));
      } else {
        assert Follow(stores[1..], limits[1..], r, p.next) == Trail([], false);
        assert p.items + [] == p.items;
      }
    }
  }

  /** The next call sees what the first one left below the cursor, which is less. */
  lemma NextCall(s: seq<Task>, n: seq<Task>, r: Reader, before: Option<nat>, c: nat, k: nat)
    requires Newest(s) && Newest(n) && GrownOnTop(s, n) && CutsAt(s, r, before, c, k)
    ensures Stored(n, r, Some(c)) == Stored(s, r, Some(c)) && Visible(n, r, Some(c)) == Visible(s, r, Some(c))
    ensures |Stored(n, r, Some(c))| < |Stored(s, r, before)|
  {
    var t := Stored(s, r, before)[k - 1];
    StoredIff(s, r, before, t);
    GrownBelow(s, n, r, t);
  }

  lemma PrefixBehind(a: seq<Task>, b: seq<Task>, c: seq<Task>)
    requires b <= c
    ensures a + b <= a + c && (b == c ==> a + b == a + c)
  {
  }
}
