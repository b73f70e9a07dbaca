/** Sequences of identities as the sets they stand for. */
module OrderedSets {
  function Set(s: seq<string>): set<string> {
    set x | x in s
  }

  predicate Distinct(s: seq<string>) {
    forall i, j :: 0 <= i < j < |s| ==> s[i] != s[j]
  }

  /** `dict.fromkeys`: first occurrences, in order. */
  function Dedup(s: seq<string>): (r: seq<string>)
    ensures Set(r) == Set(s)
    ensures Distinct(r)
    ensures r == [] <==> s == []
  {
    if s == [] then []
    else
      var init, last := Dedup(s[..|s| - 1]), s[|s| - 1];
      assert s == s[..|s| - 1] + [last];
      assert Set(s) == Set(s[..|s| - 1]) + {last};
      assert Set(init + [last]) == Set(init) + {last};
      if last in init then init else init + [last]
  }

  /** Position of the first occurrence, or the length. */
  function First(s: seq<string>, x: string): (i: nat)
    ensures i <= |s|
    ensures i < |s| ==> s[i] == x
    ensures forall j :: 0 <= j < i ==> s[j] != x
  {
    if s == [] || s[0] == x then 0 else 1 + First(s[1..], x)
  }

  lemma {:induction false} FirstGrows(s: seq<string>, y: string, x: string)
    ensures x in s ==> First(s + [y], x) == First(s, x) < |s|
    ensures x !in s ==> First(s + [x], x) == |s|
  {
    if x in s {
      var i, j := First(s, x), First(s + [y], x);
      assert i < |s| ==> (s + [y])[i] == s[i];
      assert j < |s| ==> (s + [y])[j] == s[j];
    } else {
      assert (s + [x])[|s|] == x;
    }
  }

  /** Identities keep the order of their first occurrences. */
  lemma {:induction false} DedupKeepsOrder(s: seq<string>, i: nat, j: nat)
    requires i < j < |Dedup(s)|
    ensures First(s, Dedup(s)[i]) < First(s, Dedup(s)[j]) < |s|
  {
    var init, last := s[..|s| - 1], s[|s| - 1];
    assert s == init + [last];
    var r, x, y := Dedup(init), Dedup(s)[i], Dedup(s)[j];
    assert x == r[i] && x in Set(r);
    FirstGrows(init, last, x);
    if j < |r| {
      assert y == r[j] && y in Set(r);
      DedupKeepsOrder(init, i, j);
      FirstGrows(init, last, y);
    } else {
      assert y == last && y !in Set(r);
      FirstGrows(init, last, y);
    }
  }
}
