/**
 Sorting distinct strings by their characters.
 */
module KeyOrder {
  /** Lexicographic order. */
  predicate Below(a: string, b: string) {
    if a == [] then b != []
    else b != [] && (a[0] < b[0] || (a[0] == b[0] && Below(a[1..], b[1..])))
  }

  /** The first character that differs decides; without one the shorter string comes first. */
  lemma {:induction false} BelowIff(a: string, b: string)
    ensures Below(a, b) <==> exists k :: DiffersAt(a, b, k)
    decreases |a|
  {
    if a != [] && b != [] && a[0] == b[0] {
      BelowIff(a[1..], b[1..]);
      if k :| DiffersAt(a[1..], b[1..], k) {
        assert DiffersAt(a, b, k + 1) by {
          assert forall i :: 1 <= i <= k && i < |a| && i < |b| ==> a[i] == a[1..][i - 1] && b[i] == b[1..][i - 1];
        }
      }
      if k :| DiffersAt(a, b, k) {
        assert DiffersAt(a[1..], b[1..], k - 1);
      }
    } else if a == [] {
      assert b != [] ==> DiffersAt(a, b, 0);
    } else if b != [] && a[0] < b[0] {
      assert DiffersAt(a, b, 0);
    }
  }

  /** The strings agree up to place `k`, where `a` is over or has the smaller character. */
  predicate DiffersAt(a: string, b: string, k: int) {
    && 0 <= k <= |a| && k < |b| && (forall i :: 0 <= i < k ==> a[i] == b[i])
    && (k == |a| || (a[k] as int) < (b[k] as int))
  }

  lemma {:induction false} BelowTotal(a: string, b: string)
    ensures a == b || Below(a, b) || Below(b, a)
    ensures !(Below(a, b) && Below(b, a))
    ensures Below(a, b) ==> a != b
    decreases |a|
  {
    if a != [] && b != [] && a[0] == b[0] {
      BelowTotal(a[1..], b[1..]);
      assert a == [a[0]] + a[1..] && b == [b[0]] + b[1..];
    }
  }

  lemma {:induction false} BelowTransitive(a: string, b: string, c: string)
    requires Below(a, b) && Below(b, c)
    ensures Below(a, c)
    decreases |a|
  {
    if a != [] && a[0] == b[0] && b[0] == c[0] {
      BelowTransitive(a[1..], b[1..], c[1..]);
    }
  }

  predicate Ascending(ks: seq<string>) { forall i, j :: 0 <= i < j < |ks| ==> Below(ks[i], ks[j]) }

  function Insert(k: string, ks: seq<string>): seq<string> {
    if ks == [] || Below(k, ks[0]) then [k] + ks else [ks[0]] + Insert(k, ks[1..])
  }

  function Sort(ks: seq<string>): seq<string> { if ks == [] then [] else Insert(ks[0], Sort(ks[1..])) }

  lemma {:induction false} InsertMembers(k: string, ks: seq<string>, x: string)
    ensures x in Insert(k, ks) <==> x == k || x in ks
  {
    if ks != [] && !Below(k, ks[0]) {
      InsertMembers(k, ks[1..], x);
    }
  }

  lemma {:induction false} SortMembers(ks: seq<string>, x: string)
    ensures x in Sort(ks) <==> x in ks
  {
    if ks != [] {
      SortMembers(ks[1..], x);
      InsertMembers(ks[0], Sort(ks[1..]), x);
    }
  }

  lemma AscendingTail(ks: seq<string>)
    requires Ascending(ks) && ks != []
    ensures Ascending(ks[1..]) && forall x :: x in ks[1..] ==> Below(ks[0], x)
  {
  }

  lemma AscendingCons(k: string, ks: seq<string>)
    requires Ascending(ks) && forall x :: x in ks ==> Below(k, x)
    ensures Ascending([k] + ks)
  {
  }

  lemma {:induction false} InsertAscending(k: string, ks: seq<string>)
    requires Ascending(ks) && k !in ks
    ensures Ascending(Insert(k, ks))
  {
    if ks == [] {
    } else if Below(k, ks[0]) {
      AscendingTail(ks);
      forall x | x in ks
        ensures Below(k, x)
      {
        if x != ks[0] {
          assert x in ks[1..];
          BelowTransitive(k, ks[0], x);
        }
      }
      AscendingCons(k, ks);
    } else {
      AscendingTail(ks);
      BelowTotal(k, ks[0]);
      InsertAscending(k, ks[1..]);
      forall x | x in Insert(k, ks[1..])
        ensures Below(ks[0], x)
      {
        InsertMembers(k, ks[1..], x);
      }
      AscendingCons(ks[0], Insert(k, ks[1..]));
    }
  }

  predicate DistinctKeys(ks: seq<string>) { forall i, j :: 0 <= i < j < |ks| ==> ks[i] != ks[j] }

  lemma {:induction false} SortAscending(ks: seq<string>)
    requires DistinctKeys(ks)
    ensures Ascending(Sort(ks))
  {
    if ks != [] {
      SortAscending(ks[1..]);
      SortMembers(ks[1..], ks[0]);
      InsertAscending(ks[0], Sort(ks[1..]));
    }
  }

  /** The order of the keys is decided by which keys there are. */
  lemma {:induction false} AscendingUnique(a: seq<string>, b: seq<string>)
    requires Ascending(a) && Ascending(b) && forall x :: x in a <==> x in b
    ensures a == b
    decreases |a|
  {
    assert b != [] ==> b[0] in b;
    if a != [] {
      assert a[0] in b;
      AscendingTail(a);
      AscendingTail(b);
      HeadsAgree(a, b);
      forall x
        ensures x in a[1..] <==> x in b[1..]
      {
        TailMembers(a, x);
        TailMembers(b, x);
      }
      AscendingUnique(a[1..], b[1..]);
      assert a == [a[0]] + a[1..] && b == [b[0]] + b[1..];
    }
  }

  lemma TailMembers(a: seq<string>, x: string)
    requires Ascending(a) && a != []
    ensures x in a[1..] <==> x in a && x != a[0]
  {
    AscendingTail(a);
    BelowTotal(a[0], a[0]);
  }

  lemma HeadsAgree(a: seq<string>, b: seq<string>)
    requires Ascending(a) && Ascending(b) && a != [] && b != [] && a[0] in b && b[0] in a
    ensures a[0] == b[0]
  {
    AscendingTail(a);
    AscendingTail(b);
    BelowTotal(a[0], b[0]);
  }
}
