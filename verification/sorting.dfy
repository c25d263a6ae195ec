/** `list.sort(Comparator.comparing(String::toLowerCase))` on a list of
    topic names. `List.sort` is a stable merge sort, so its result is fixed
    by three facts: it is a permutation of the input, it ascends by the
    lower-cased name, and names whose lower-cased forms are equal keep
    their input order. The model sorts by stable insertion, which has the
    same result. */
module Sorting {
  import opened Common
  import opened JavaStrings

  /** The comparator's key. */
  function Key(name: string): string {
    ToLowerCase(name)
  }

  /** Ascending by key, as `compareTo` orders the keys. */
  ghost predicate SortedByKey(s: seq<string>) {
    forall i, j :: 0 <= i < j < |s| ==> CompareLe(Key(s[i]), Key(s[j]))
  }

  /** The test "has key `k`", built once so that every use is the same function. */
  function HasKey(k: string): string -> bool {
    name => Key(name) == k
  }

  /** The names whose key is `k`, in order: one class of names the
      comparator calls equal. */
  function WithKey(s: seq<string>, k: string): seq<string> {
    Filter(s, HasKey(k))
  }

  /** Puts `x` after every name whose key is not greater than its own. */
  function Insert(s: seq<string>, x: string): (r: seq<string>)
    ensures multiset(r) == multiset(s) + multiset{x}
  {
    if s == [] then [x]
    else if !CompareLe(Key(s[0]), Key(x)) then [x] + s
    else
      assert s == [s[0]] + s[1..];
      [s[0]] + Insert(s[1..], x)
  }

  /** Insertion keeps a sorted list sorted. */
  lemma {:induction false} InsertSorted(s: seq<string>, x: string)
    requires SortedByKey(s)
    ensures SortedByKey(Insert(s, x))
  {
    if s == [] {
    } else if !CompareLe(Key(s[0]), Key(x)) {
      CompareLeTotal(Key(s[0]), Key(x));
      forall j | 0 <= j < |s|
        ensures CompareLe(Key(x), Key(s[j]))
      {
        if j > 0 {
          CompareLeTransitive(Key(x), Key(s[0]), Key(s[j]));
        }
      }
    } else {
      InsertSorted(s[1..], x);
      var r := Insert(s, x);
      forall i, j | 0 <= i < j < |r|
        ensures CompareLe(Key(r[i]), Key(r[j]))
      {
        if i == 0 {
          var y := r[j];
          assert y in multiset(Insert(s[1..], x));
          if y != x {
            assert y in s[1..];
          }
        }
      }
    }
  }

  /** No element passes: nothing is kept. */
  lemma FilterNone(s: seq<string>, keep: string -> bool)
    requires forall i :: 0 <= i < |s| ==> !keep(s[i])
    ensures Filter(s, keep) == []
  {
  }

  /** A name whose key is below every key of a sorted list has no equal
      in it. */
  lemma BelowAllHasNoEqual(s: seq<string>, x: string)
    requires SortedByKey(s) && s != [] && !CompareLe(Key(s[0]), Key(x))
    ensures WithKey(s, Key(x)) == []
  {
    forall j | 0 <= j < |s|
      ensures !HasKey(Key(x))(s[j])
    {
      if j == 0 {
        CompareLeReflexive(Key(x));
      }
    }
    FilterNone(s, HasKey(Key(x)));
  }

  /** Insertion at the front is stable: `x` has no equal behind it. */
  lemma InsertFrontStable(s: seq<string>, x: string, k: string)
    requires SortedByKey(s) && s != [] && !CompareLe(Key(s[0]), Key(x))
    ensures WithKey([x] + s, k) == WithKey(s, k) + WithKey([x], k)
  {
    FilterConcat([x], s, HasKey(k));
    FilterSingleton(x, HasKey(k));
    if Key(x) == k {
      BelowAllHasNoEqual(s, x);
    }
  }

  /** Insertion is stable: among names with key `k`, `x` comes after all
      names already present. */
  lemma {:induction false} InsertStable(s: seq<string>, x: string, k: string)
    requires SortedByKey(s)
    ensures WithKey(Insert(s, x), k) == WithKey(s, k) + WithKey([x], k)
  {
    if s == [] {
      assert Insert(s, x) == [x];
      assert [x] == [] + [x];
    } else if !CompareLe(Key(s[0]), Key(x)) {
      assert Insert(s, x) == [x] + s;
      InsertFrontStable(s, x, k);
    } else {
      assert SortedByKey(s[1..]);
      InsertStable(s[1..], x, k);
      InsertBehindStable(s, x, k);
    }
  }

  /** Insertion behind the first name is stable when it is stable on the
      rest. */
  lemma InsertBehindStable(s: seq<string>, x: string, k: string)
    requires s != [] && CompareLe(Key(s[0]), Key(x))
    requires WithKey(Insert(s[1..], x), k) == WithKey(s[1..], k) + WithKey([x], k)
    ensures WithKey(Insert(s, x), k) == WithKey(s, k) + WithKey([x], k)
  {
    var r := Insert(s[1..], x);
    assert Insert(s, x) == [s[0]] + r;
    var t := s[1..] + [x];
    FilterConcat([s[0]], r, HasKey(k));
    FilterConcat(s[1..], [x], HasKey(k));
    assert WithKey(r, k) == WithKey(t, k);
    FilterConcat([s[0]], t, HasKey(k));
    assert [s[0]] + t == s + [x];
    FilterConcat(s, [x], HasKey(k));
  }

  /** The stable sort by lower-cased name. */
  function StableSort(s: seq<string>): (r: seq<string>)
    ensures multiset(r) == multiset(s)
    ensures SortedByKey(r)
    ensures forall k :: WithKey(r, k) == WithKey(s, k)
  {
    if s == [] then []
    else
      var init, last := s[..|s| - 1], s[|s| - 1];
      assert s == init + [last];
      var sorted := StableSort(init);
      InsertSorted(sorted, last);
      forall k
        ensures WithKey(Insert(sorted, last), k) == WithKey(s, k)
      {
        InsertStable(sorted, last, k);
        FilterConcat(init, [last], HasKey(k));
      }
      Insert(sorted, last)
  }

  /** `list.sort(Comparator.comparing(String::toLowerCase))`: inserts the
      names one by one into a sorted prefix. */
  method SortByLowerCase(list: seq<string>) returns (sorted: seq<string>)
    ensures sorted == StableSort(list)
    ensures multiset(sorted) == multiset(list)
    ensures SortedByKey(sorted)
    ensures forall k :: WithKey(sorted, k) == WithKey(list, k)
  {
    sorted := [];
    for j := 0 to |list|
      invariant sorted == StableSort(list[..j])
    {
      assert list[..j + 1][..j] == list[..j];
      sorted := Insert(sorted, list[j]);
    }
    assert list[..|list|] == list;
  }
}
