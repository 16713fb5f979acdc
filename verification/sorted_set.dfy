/**
 `std::set<std::string>`, the container the tool collects its answer in,
 modelled as the sequence of its elements in iteration order: strictly
 ascending under `StringOrder.Less`, hence free of duplicates.
 */
module SortedSet {
  import opened StringOrder

  /** Strictly ascending: the shape of every `std::set` iteration. */
  predicate Sorted(s: seq<string>)
  {
    forall i, j :: 0 <= i < j < |s| ==> Less(s[i], s[j])
  }

  /** The elements of `s`, as a mathematical set. */
  function Elements(s: seq<string>): set<string>
  {
    set x | x in s
  }

  /** Only the empty sequence has no elements. */
  lemma NoElements(s: seq<string>)
    ensures Elements(s) == {} <==> |s| == 0
  {
    if |s| > 0 {
      assert s[0] in Elements(s);
    }
  }

  /** The elements of a non-empty sequence: those before its last one, and
      the last one. */
  lemma ElementsSnoc(s: seq<string>)
    requires |s| > 0
    ensures Elements(s) == Elements(s[..|s| - 1]) + {s[|s| - 1]}
  {
    assert s == s[..|s| - 1] + [s[|s| - 1]];
  }

  /** An empty set: the state of `paths` when it is declared. */
  const Empty: seq<string> := []

  lemma PrependSorted(x: string, s: seq<string>)
    requires Sorted(s)
    requires |s| > 0 ==> Less(x, s[0])
    ensures Sorted([x] + s)
    ensures x !in s
  {
    forall j | 0 < j < |s|
      ensures Less(x, s[j])
    {
      Transitive(x, s[0], s[j]);
    }
    forall j | 0 <= j < |s|
      ensures x != s[j]
    {
      Irreflexive(x);
    }
  }

  /** Putting the head back in front of a tail that `x` was inserted into. */
  lemma InsertAfterHead(s: seq<string>, x: string, rest: seq<string>)
    requires Sorted(s) && |s| > 0 && Less(s[0], x)
    requires Sorted(rest) && Elements(rest) == Elements(s[1..]) + {x}
    ensures Sorted([s[0]] + rest)
    ensures Elements([s[0]] + rest) == Elements(s) + {x}
  {
    assert rest[0] in Elements(rest);
    PrependSorted(s[0], rest);
    assert Elements(s) == {s[0]} + Elements(s[1..]);
    assert Elements([s[0]] + rest) == {s[0]} + Elements(rest);
  }

  /** `std::set::insert`: adds `x` at its place in the order, or does
      nothing when `x` is already an element. */
  function Insert(s: seq<string>, x: string): (r: seq<string>)
    requires Sorted(s)
    ensures Sorted(r)
    ensures Elements(r) == Elements(s) + {x}
    ensures x in s ==> r == s
    ensures |r| == if x in s then |s| else |s| + 1
  {
    if |s| == 0 then [x]
    else if x == s[0] then s
    else if Less(x, s[0]) then
      PrependSorted(x, s);
      [x] + s
    else
      Total(x, s[0]);
      var rest := Insert(s[1..], x);
      InsertAfterHead(s, x, rest);
      assert x in s <==> x in s[1..];
      assert x in s ==> [s[0]] + rest == s;
      [s[0]] + rest
  }

  /** Two ascending sequences with the same elements are the same sequence:
      the iteration order of a set depends on nothing but its contents. */
  lemma {:induction false} SortedUnique(a: seq<string>, b: seq<string>)
    requires Sorted(a) && Sorted(b)
    requires Elements(a) == Elements(b)
    ensures a == b
  {
    if |a| == 0 {
      NoElements(b);
    } else {
      assert a[0] in Elements(b) && b[0] in Elements(a);
      if a[0] != b[0] {
        var i :| 0 <= i < |a| && a[i] == b[0];
        var j :| 0 <= j < |b| && b[j] == a[0];
        Asymmetric(a[0], a[i]);
      }
      forall y | y in a[1..]
        ensures y != a[0]
      {
        var k :| 1 <= k < |a| && a[k] == y;
        Irreflexive(a[0]);
      }
      forall y | y in b[1..]
        ensures y != b[0]
      {
        var k :| 1 <= k < |b| && b[k] == y;
        Irreflexive(b[0]);
      }
      assert Elements(a) == {a[0]} + Elements(a[1..]);
      assert Elements(b) == {b[0]} + Elements(b[1..]);
      assert Elements(a[1..]) == Elements(b[1..]);
      SortedUnique(a[1..], b[1..]);
      assert a == [a[0]] + a[1..] && b == [b[0]] + b[1..];
    }
  }
}
