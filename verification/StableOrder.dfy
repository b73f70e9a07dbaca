/** A stable ascending sort by an integer key, as Python's `list.sort` and an SQL `ORDER BY`
    over rows in insertion order perform it. */
module StableOrder {
  /** The position after the last element whose key is not larger. */
  function Place<T>(x: T, s: seq<T>, key: T -> int): (k: nat)
    ensures k <= |s|
    ensures forall i :: k <= i < |s| ==> key(x) < key(s[i])
    ensures k > 0 ==> key(s[k - 1]) <= key(x)
  {
    if s == [] then 0
    else if key(s[|s| - 1]) <= key(x) then |s|
    else Place(x, s[..|s| - 1], key)
  }

  function Insert<T>(x: T, s: seq<T>, key: T -> int): seq<T> {
    var k := Place(x, s, key);
    s[..k] + [x] + s[k..]
  }

  function Sort<T>(s: seq<T>, key: T -> int): seq<T> {
    if s == [] then []
    else Insert(s[|s| - 1], Sort(s[..|s| - 1], key), key)
  }

  lemma {:induction false} InsertContents<T>(x: T, s: seq<T>, key: T -> int)
    ensures multiset(Insert(x, s, key)) == multiset(s) + multiset{x}
    ensures |Insert(x, s, key)| == |s| + 1
  {
    var k := Place(x, s, key);
    assert s == s[..k] + s[k..];
  }

  /** The sort is a permutation. */
  lemma {:induction false} SortContents<T>(s: seq<T>, key: T -> int)
    ensures multiset(Sort(s, key)) == multiset(s)
    ensures |Sort(s, key)| == |s|
  {
    if s != [] {
      var init := s[..|s| - 1];
      SortContents(init, key);
      InsertContents(s[|s| - 1], Sort(init, key), key);
      assert s == init + [s[|s| - 1]];
    }
  }

  lemma {:induction false} SortMember<T>(s: seq<T>, key: T -> int, x: T)
    ensures x in Sort(s, key) <==> x in s
  {
    SortContents(s, key);
    assert x in Sort(s, key) <==> x in multiset(Sort(s, key));
    assert x in s <==> x in multiset(s);
  }

  /** Lexicographic order by the key and then by a tag that records the input position. */
  predicate Before<T>(x: T, y: T, key: T -> int, tag: T -> int) {
    key(x) < key(y) || (key(x) == key(y) && tag(x) < tag(y))
  }

  ghost predicate InOrder<T>(s: seq<T>, key: T -> int, tag: T -> int) {
    forall i, j :: 0 <= i < j < |s| ==> Before(s[i], s[j], key, tag)
  }

  lemma {:induction false} InsertInOrder<T>(x: T, s: seq<T>, key: T -> int, tag: T -> int)
    requires InOrder(s, key, tag)
    requires forall i :: 0 <= i < |s| ==> tag(s[i]) < tag(x)
    ensures InOrder(Insert(x, s, key), key, tag)
  {
  }

  /** The sort is stable: sorted by key, and equal keys keep their input order. */
  lemma {:induction false} SortInOrder<T>(s: seq<T>, key: T -> int, tag: T -> int)
    requires forall i, j :: 0 <= i < j < |s| ==> tag(s[i]) < tag(s[j])
    ensures InOrder(Sort(s, key), key, tag)
  {
    if s != [] {
      var init, last := s[..|s| - 1], s[|s| - 1];
      SortInOrder(init, key, tag);
      var sorted := Sort(init, key);
      forall i | 0 <= i < |sorted|
        ensures tag(sorted[i]) < tag(last)
      {
        SortMember(init, key, sorted[i]);
        var j :| 0 <= j < |init| && init[j] == sorted[i];
        assert s[j] == init[j];
      }
      InsertInOrder(last, sorted, key, tag);
    }
  }

  lemma {:induction false} SortAppendOne<T>(s: seq<T>, x: T, key: T -> int)
    requires forall i :: 0 <= i < |s| ==> key(s[i]) < key(x)
    ensures Sort(s + [x], key) == Sort(s, key) + [x]
  {
    assert (s + [x])[..|s|] == s;
    var sorted := Sort(s, key);
    if sorted != [] {
      SortMember(s, key, sorted[|sorted| - 1]);
    }
  }

  /** Elements whose keys outrank all earlier ones are sorted to the end, in their order. */
  lemma {:induction false} SortAppendLargest<T>(s: seq<T>, tail: seq<T>, key: T -> int)
    requires forall i, j :: 0 <= i < j < |s + tail| && |s| <= j ==> key((s + tail)[i]) < key((s + tail)[j])
    ensures Sort(s + tail, key) == Sort(s, key) + tail
    decreases |tail|
  {
    var whole := s + tail;
    if tail == [] {
      assert whole == s && Sort(s, key) + tail == Sort(s, key);
    } else {
      hide Sort;
      var init, last := tail[..|tail| - 1], tail[|tail| - 1];
      var front := s + init;
      assert whole == front + [last] && tail == init + [last];
      SortAppendLargest(s, init, key) by {
        forall i, j | 0 <= i < j < |front| && |s| <= j
          ensures key(front[i]) < key(front[j])
        {
          assert front[i] == whole[i] && front[j] == whole[j];
        }
      }
      SortAppendOne(front, last, key) by {
        forall i | 0 <= i < |front|
          ensures key(front[i]) < key(last)
        {
          assert front[i] == whole[i] && whole[|whole| - 1] == last;
        }
      }
    }
  }

  /** The sort ascends in the key. */
  lemma {:induction false} SortAscends<T>(s: seq<T>, key: T -> int)
    ensures forall i, j :: 0 <= i < j < |Sort(s, key)| ==> key(Sort(s, key)[i]) <= key(Sort(s, key)[j])
  {
    if s != [] {
      SortAscends(s[..|s| - 1], key);
      InsertAscends(s[|s| - 1], Sort(s[..|s| - 1], key), key);
    }
  }

  lemma {:induction false} InsertAscends<T>(x: T, s: seq<T>, key: T -> int)
    requires forall i, j :: 0 <= i < j < |s| ==> key(s[i]) <= key(s[j])
    ensures var r := Insert(x, s, key); forall i, j :: 0 <= i < j < |r| ==> key(r[i]) <= key(r[j])
  {
  }

  lemma {:induction false} TwiceMeansTwice<T>(s: seq<T>, i: nat, j: nat)
    requires i < j < |s| && s[i] == s[j]
    ensures multiset(s)[s[i]] >= 2
  {
    assert s == s[..j] + [s[j]] + s[j + 1..];
    assert s[i] in s[..j];
  }

  lemma {:induction false} OnceMeansOnce<T>(s: seq<T>, i: nat)
    requires i < |s| && forall j :: 0 <= j < |s| && j != i ==> s[j] != s[i]
    ensures multiset(s)[s[i]] == 1
  {
    assert s == s[..i] + [s[i]] + s[i + 1..];
    assert s[i] !in s[..i] && s[i] !in s[i + 1..];
  }
}
