/**
 The ordered handle lists of the game (the world registry `objects` and the
 fruit list `fruits`) and the two list operations the game performs on them:
 finding the first occurrence of a handle (`indexOf`) and cutting it out
 (`splice(index, 1)`).
 */
module Registry {

  /** No handle occurs twice in `s`. */
  ghost predicate Distinct<T>(s: seq<T>) {
    forall i, j :: 0 <= i < j < |s| ==> s[i] != s[j]
  }

  /** The position of the first occurrence of `x` in `s`, or -1 when `x` does not occur. */
  function IndexOf<T(==)>(s: seq<T>, x: T): (i: int)
    ensures -1 <= i < |s|
    ensures i == -1 <==> x !in s
    ensures 0 <= i ==> s[i] == x && x !in s[..i]
  {
    if |s| == 0 then -1
    else if s[0] == x then 0
    else
      var j := IndexOf(s[1..], x);
      if j == -1 then -1
      else
        assert s[..j + 1] == [s[0]] + s[1..][..j];
        j + 1
  }

  /** `s` with the first occurrence of `x` cut out; `s` itself when `x` does not occur. */
  function RemoveFirst<T(==)>(s: seq<T>, x: T): seq<T> {
    var i := IndexOf(s, x);
    if i > -1 then s[..i] + s[i + 1..] else s
  }

  /**
   Removal takes out exactly one copy of `x` when there is one and nothing
   otherwise: every other handle keeps its number of occurrences.
   */
  lemma RemoveFirstCounts<T>(s: seq<T>, x: T)
    ensures x !in s ==> RemoveFirst(s, x) == s
    ensures x in s ==> |RemoveFirst(s, x)| == |s| - 1
    ensures multiset(RemoveFirst(s, x)) == multiset(s) - multiset{x}
  {
    var i := IndexOf(s, x);
    if i > -1 {
      assert s == s[..i] + [x] + s[i + 1..];
    }
  }

  /** Any index holding the first occurrence of `x` is the one `IndexOf` finds. */
  lemma FirstOccurrenceUnique<T>(s: seq<T>, x: T, i: nat)
    requires i < |s| && s[i] == x && x !in s[..i]
    ensures IndexOf(s, x) == i
  {
    var k := IndexOf(s, x);
    assert k != -1;
  }

  /**
   Removal keeps the order of the remaining handles: given the first
   occurrence `i` of `x`, the handles before it stay where they are and the
   handles after it move one place to the front.
   */
  lemma RemoveFirstShifts<T>(s: seq<T>, x: T, i: nat)
    requires i < |s| && s[i] == x && x !in s[..i]
    ensures |RemoveFirst(s, x)| == |s| - 1
    ensures forall j :: 0 <= j < i ==> RemoveFirst(s, x)[j] == s[j]
    ensures forall j :: i <= j < |s| - 1 ==> RemoveFirst(s, x)[j] == s[j + 1]
  {
    FirstOccurrenceUnique(s, x, i);
  }

  /** Removing a handle that was just appended, and was not listed before, restores the list. */
  lemma RemoveFirstUndoesAppend<T>(s: seq<T>, x: T)
    requires x !in s
    ensures RemoveFirst(s + [x], x) == s
  {
    assert (s + [x])[..|s|] == s;
    FirstOccurrenceUnique(s + [x], x, |s|);
  }

  /** Removal never introduces a handle: everything left was there before. */
  lemma RemoveFirstSubset<T>(s: seq<T>, x: T, y: T)
    ensures y in RemoveFirst(s, x) ==> y in s
    ensures y != x ==> (y in RemoveFirst(s, x) <==> y in s)
  {
    var r := RemoveFirst(s, x);
    RemoveFirstCounts(s, x);
    assert y in r <==> multiset(r)[y] > 0;
    assert y in s <==> multiset(s)[y] > 0;
  }

  /**
   In a list without duplicates the first occurrence is the only one, so after
   the removal the handle is gone for good (removing it again changes nothing),
   and the list still has no duplicates.
   */
  lemma RemoveFirstDistinct<T>(s: seq<T>, x: T)
    requires Distinct(s)
    ensures Distinct(RemoveFirst(s, x))
    ensures x !in RemoveFirst(s, x)
    ensures RemoveFirst(RemoveFirst(s, x), x) == RemoveFirst(s, x)
  {
    var r := RemoveFirst(s, x);
    if x in s {
      var i := IndexOf(s, x);
      RemoveFirstShifts(s, x, i);
      forall a, b | 0 <= a < b < |r| ensures r[a] != r[b] {
        var a' := if a < i then a else a + 1;
        var b' := if b < i then b else b + 1;
        assert r[a] == s[a'] && r[b] == s[b'];
      }
      forall j | 0 <= j < |r| ensures r[j] != x {
        var j' := if j < i then j else j + 1;
        assert r[j] == s[j'];
        assert j' != i;
      }
    }
  }

  /** Appending a handle that is not yet listed keeps the list free of duplicates. */
  lemma AppendFreshDistinct<T>(s: seq<T>, x: T)
    requires Distinct(s) && x !in s
    ensures Distinct(s + [x])
  {
    var t := s + [x];
    forall a, b | 0 <= a < b < |t| ensures t[a] != t[b] {
      if b == |s| {
        assert t[a] == s[a];
      } else {
        assert t[a] == s[a] && t[b] == s[b];
      }
    }
  }
}
