/**
 * Python's ordering of `str` values, which `sorted` uses on the period keys:
 * lexicographic on code points, a proper prefix coming first. With it,
 * insertion into a sorted list, and the fact that a strictly sorted list is
 * determined by its elements, so the result of `sorted` does not depend on
 * how it is computed.
 */
module StringOrder {

  /** `a < b` on Python strings. */
  predicate Less(a: string, b: string) {
    if |a| == 0 then |b| > 0
    else if |b| == 0 then false
    else if a[0] != b[0] then a[0] < b[0]
    else Less(a[1..], b[1..])
  }

  lemma {:induction false} LessIrreflexive(a: string)
    ensures !Less(a, a)
  {
    if |a| > 0 {
      LessIrreflexive(a[1..]);
    }
  }

  lemma {:induction false} LessTransitive(a: string, b: string, c: string)
    requires Less(a, b) && Less(b, c)
    ensures Less(a, c)
  {
    if |a| > 0 && |b| > 0 && |c| > 0 && a[0] == b[0] && b[0] == c[0] {
      LessTransitive(a[1..], b[1..], c[1..]);
    }
  }

  /** Any two different strings are ordered one way or the other, and never both. */
  lemma {:induction false} LessTotal(a: string, b: string)
    ensures a != b <==> (Less(a, b) || Less(b, a))
    ensures !(Less(a, b) && Less(b, a))
  {
    if |a| > 0 && |b| > 0 && a[0] == b[0] {
      LessTotal(a[1..], b[1..]);
      assert a == [a[0]] + a[1..] && b == [b[0]] + b[1..];
    } else if a == b {
      LessIrreflexive(a);
    }
  }

  /** True when every element is smaller than every later one. */
  predicate StrictlySorted(s: seq<string>) {
    forall i, j :: 0 <= i < j < |s| ==> Less(s[i], s[j])
  }

  /** The elements of a sequence, as a set. */
  function Elements(s: seq<string>): set<string> {
    set i | 0 <= i < |s| :: s[i]
  }

  /** `x` put into its place in the strictly sorted `s`; nothing changes if `x` is already there. */
  function Insert(s: seq<string>, x: string): (r: seq<string>)
    requires StrictlySorted(s)
    ensures StrictlySorted(r)
    ensures Elements(r) == Elements(s) + {x}
  {
    if s == [] then
      ElementsCons(x, s);
      assert [x] + s == [x];
      [x]
    else if s[0] == x then s
    else if Less(x, s[0]) then
      InsertFirst(s, x);
      [x] + s
    else
      var tail := Insert(s[1..], x);
      InsertLater(s, x, tail);
      [s[0]] + tail
  }

  /** An element smaller than the first one goes in front. */
  lemma InsertFirst(s: seq<string>, x: string)
    requires s != [] && StrictlySorted(s) && Less(x, s[0])
    ensures StrictlySorted([x] + s)
    ensures Elements([x] + s) == Elements(s) + {x}
  {
    forall j | 0 < j < |s|
      ensures Less(x, s[j])
    {
      LessTransitive(x, s[0], s[j]);
    }
    ElementsCons(x, s);
  }

  /** An element larger than the first one goes into the rest, behind the first. */
  lemma InsertLater(s: seq<string>, x: string, tail: seq<string>)
    requires s != [] && StrictlySorted(s) && x != s[0] && !Less(x, s[0])
    requires StrictlySorted(tail) && Elements(tail) == Elements(s[1..]) + {x}
    ensures StrictlySorted([s[0]] + tail)
    ensures Elements([s[0]] + tail) == Elements(s) + {x}
  {
    LessTotal(x, s[0]);
    ElementsCons(s[0], s[1..]);
    assert [s[0]] + s[1..] == s;
    forall j | 0 <= j < |tail|
      ensures Less(s[0], tail[j])
    {
      assert tail[j] in Elements(tail);
      if tail[j] != x {
        var i :| 0 <= i < |s[1..]| && s[1..][i] == tail[j];
        assert s[1..][i] == s[i + 1];
      }
    }
    ElementsCons(s[0], tail);
  }

  lemma ElementsCons(x: string, s: seq<string>)
    ensures Elements([x] + s) == {x} + Elements(s)
  {
    var r := [x] + s;
    forall y | y in Elements(s)
      ensures y in Elements(r)
    {
      var i :| 0 <= i < |s| && s[i] == y;
      assert r[i + 1] == y;
    }
    assert r[0] == x;
  }

  lemma FirstIsElement(s: seq<string>)
    requires s != []
    ensures s[0] in Elements(s)
  {
  }

  /** A strictly sorted sequence holds no element twice. */
  lemma SortedDistinct(s: seq<string>)
    requires StrictlySorted(s)
    ensures forall i, j :: 0 <= i < j < |s| ==> s[i] != s[j]
  {
    forall i, j | 0 <= i < j < |s|
      ensures s[i] != s[j]
    {
      LessIrreflexive(s[i]);
    }
  }

  /**
   * Two strictly sorted sequences with the same elements are equal: the
   * sorted list of a set of keys is unique, whatever algorithm builds it.
   */
  lemma {:induction false} SortedUnique(s: seq<string>, t: seq<string>)
    requires StrictlySorted(s) && StrictlySorted(t)
    requires Elements(s) == Elements(t)
    ensures s == t
  {
    if s != [] && t != [] {
      assert s[0] in Elements(t) && t[0] in Elements(s);
      var i :| 0 <= i < |t| && t[i] == s[0];
      var j :| 0 <= j < |s| && s[j] == t[0];
      if s[0] != t[0] {
        LessTotal(s[0], t[0]);
        assert false;
      }
      assert Elements(s[1..]) == Elements(t[1..]) by {
        ElementsTail(s);
        ElementsTail(t);
      }
      SortedUnique(s[1..], t[1..]);
      assert s == [s[0]] + s[1..] && t == [t[0]] + t[1..];
    } else if s != [] {
      FirstIsElement(s);
      assert false;
    } else if t != [] {
      FirstIsElement(t);
      assert false;
    }
  }

  /** Dropping the smallest element of a strictly sorted sequence drops it from the set and nothing else. */
  lemma ElementsTail(s: seq<string>)
    requires s != [] && StrictlySorted(s)
    ensures Elements(s[1..]) == Elements(s) - {s[0]}
  {
    SortedDistinct(s);
    forall x | x in Elements(s) && x != s[0]
      ensures x in Elements(s[1..])
    {
      var i :| 0 <= i < |s| && s[i] == x;
      assert s[1..][i - 1] == x;
    }
    forall x | x in Elements(s[1..])
      ensures x in Elements(s) && x != s[0]
    {
      var i :| 0 <= i < |s[1..]| && s[1..][i] == x;
      assert s[i + 1] == x;
    }
  }

  /**
   * `sorted(keys)`: the keys in ascending order. Each key is taken out of the
   * set and inserted into its place, so the result is the unique strictly
   * sorted listing of `keys` (see `SortedUnique`).
   */
  method SortKeys(keys: set<string>) returns (sorted: seq<string>)
    ensures StrictlySorted(sorted)
    ensures Elements(sorted) == keys
    ensures |sorted| == |keys|
  {
    sorted := [];
    var rest := keys;
    while rest != {}
      invariant rest <= keys
      invariant StrictlySorted(sorted)
      invariant Elements(sorted) == keys - rest
      decreases |rest|
    {
      var k :| k in rest;
      sorted := Insert(sorted, k);
      rest := rest - {k};
    }
    SortedLength(sorted);
  }

  /** A strictly sorted sequence is as long as its set of elements is large. */
  lemma {:induction false} SortedLength(s: seq<string>)
    requires StrictlySorted(s)
    ensures |Elements(s)| == |s|
  {
    if s != [] {
      ElementsTail(s);
      SortedLength(s[1..]);
    }
  }
}
