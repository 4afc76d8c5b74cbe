/**
 * A JavaScript Set<string> filled by `add` and read back with `Array.from`:
 * its members are distinct and come out in order of first insertion.
 * `Dedup` is the specification; `AddressSet` is the mutable set itself.
 */
module OrderedSet {

  predicate NoDuplicates(s: seq<string>) {
    forall i, j :: 0 <= i < j < |s| ==> s[i] != s[j]
  }

  /** The members of s, each once, in order of first occurrence. */
  function Dedup(s: seq<string>): (r: seq<string>)
    ensures |r| <= |s|
  {
    if s == [] then []
    else
      var d := Dedup(s[..|s| - 1]);
      var x := s[|s| - 1];
      if x in d then d else d + [x]
  }

  /** Dedup keeps exactly the members of s. */
  lemma {:induction false} DedupMembers(s: seq<string>)
    ensures forall x :: x in Dedup(s) <==> x in s
  {
    if s != [] {
      var p := s[..|s| - 1];
      assert s == p + [s[|s| - 1]];
      DedupMembers(p);
    }
  }

  /** Dedup lists no member twice. */
  lemma {:induction false} DedupNoDuplicates(s: seq<string>)
    ensures NoDuplicates(Dedup(s))
  {
    if s != [] {
      var p := s[..|s| - 1];
      DedupNoDuplicates(p);
      DedupMembers(p);
    }
  }

  /** The members after `Set.add(x)`: a member already present keeps its place. */
  function Added(items: seq<string>, x: string): seq<string> {
    if x in items then items else items + [x]
  }

  /** Adding one more element to the stream is one `Set.add`. */
  lemma DedupSnoc(s: seq<string>, x: string)
    ensures Dedup(s + [x]) == Added(Dedup(s), x)
  {
    assert (s + [x])[..|s|] == s;
  }

  /** Adding members that are already present changes nothing. */
  lemma {:induction false} DedupAbsorbs(s: seq<string>, t: seq<string>)
    requires forall x :: x in t ==> x in s
    ensures Dedup(s + t) == Dedup(s)
  {
    if t != [] {
      var p := t[..|t| - 1];
      var y := t[|t| - 1];
      assert t == p + [y];
      assert s + t == (s + p) + [y];
      DedupAbsorbs(s, p);
      DedupSnoc(s + p, y);
      DedupMembers(s + p);
      assert y in s + p;
    } else {
      assert s + t == s;
    }
  }

  /** A repeated pair keeps its first occurrences only. */
  lemma DedupRepeatedPair(a: string, b: string)
    requires a != b
    ensures Dedup([a, b, a, b]) == [a, b]
  {
    DedupPair(a, b);
    DedupAbsorbs([a, b], [a, b]);
    assert [a, b] + [a, b] == [a, b, a, b];
  }

  lemma DedupPair(a: string, b: string)
    requires a != b
    ensures Dedup([a, b]) == [a, b]
  {
    DedupSnoc([a], b);
    assert [a] + [b] == [a, b];
  }

  /** The position of the first occurrence of x in s. */
  function FirstIndex(s: seq<string>, x: string): (i: nat)
    requires x in s
    ensures i < |s| && s[i] == x && x !in s[..i]
  {
    if s[0] == x then 0
    else
      var j := FirstIndex(s[1..], x);
      assert s[..j + 1] == [s[0]] + s[1..][..j];
      j + 1
  }

  /** The first occurrence is the only position holding x with no x before it. */
  lemma FirstIndexUnique(s: seq<string>, x: string, i: nat)
    requires i < |s| && s[i] == x && x !in s[..i]
    ensures FirstIndex(s, x) == i
  {
  }

  /** Extending s at the end does not move the first occurrence of anything already in s. */
  lemma FirstIndexExtend(s: seq<string>, t: seq<string>, x: string)
    requires x in s
    ensures FirstIndex(s + t, x) == FirstIndex(s, x)
  {
    var k := FirstIndex(s, x);
    assert (s + t)[..k] == s[..k];
    FirstIndexUnique(s + t, x, k);
  }

  /** Dedup lists the members of s in the order in which they first occur in s. */
  lemma {:induction false} DedupFirstOccurrenceOrder(s: seq<string>)
    ensures forall i, j :: 0 <= i < j < |Dedup(s)| ==>
      Dedup(s)[i] in s && Dedup(s)[j] in s && FirstIndex(s, Dedup(s)[i]) < FirstIndex(s, Dedup(s)[j])
  {
    if s != [] {
      var p := s[..|s| - 1];
      var x := s[|s| - 1];
      var d := Dedup(p);
      assert s == p + [x];
      DedupFirstOccurrenceOrder(p);
      DedupMembers(p);
      forall y | y in d
        ensures y in s && FirstIndex(s, y) == FirstIndex(p, y) < |p|
      {
        FirstIndexExtend(p, [x], y);
      }
      if x in d {
        assert Dedup(s) == d;
        forall i, j | 0 <= i < j < |d|
          ensures d[i] in s && d[j] in s && FirstIndex(s, d[i]) < FirstIndex(s, d[j])
        {
          assert d[i] in d && d[j] in d;
        }
      } else {
        assert Dedup(s) == d + [x];
        assert x !in s[..|p|];
        FirstIndexUnique(s, x, |p|);
        forall i, j | 0 <= i < j < |Dedup(s)|
          ensures Dedup(s)[i] in s && Dedup(s)[j] in s && FirstIndex(s, Dedup(s)[i]) < FirstIndex(s, Dedup(s)[j])
        {
          assert Dedup(s)[i] == d[i] && d[i] in d;
          if j < |d| {
            assert Dedup(s)[j] == d[j] && d[j] in d;
          }
        }
      }
    } else {
      assert Dedup(s) == [];
    }
  }

  /** A JavaScript Set<string>; `items` is what `Array.from` returns. */
  class AddressSet {
    var items: seq<string>

    constructor ()
      ensures items == []
    {
      items := [];
    }

    /** `Set.prototype.add`. */
    method Add(x: string)
      modifies this
      ensures items == Added(old(items), x)
    {
      if x !in items {
        items := items + [x];
      }
    }
  }
}
