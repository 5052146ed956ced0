/**
  The JavaScript built-ins the post store is written with, as functions over
  sequences: `Array.prototype.filter`, `Array.prototype.find` and
  `String.prototype.includes`. Each comes with a specification that does not
  depend on how it is computed.
 */
module JsBuiltins {

  datatype Option<T> = None | Some(value: T)

  /** `r` is `s` with some elements deleted; the rest keep their order. */
  predicate IsSubsequence<T(==)>(r: seq<T>, s: seq<T>)
    decreases |s|
  {
    if r == [] then true
    else if s == [] then false
    else (r[0] == s[0] && IsSubsequence(r[1..], s[1..])) || IsSubsequence(r, s[1..])
  }

  /**
    `r` is what filtering `s` with `keep` must give: a subsequence of `s`
    holding only elements that pass `keep`, and every element that passes
    as many times as it occurs in `s`. FilterUnique shows that exactly one
    sequence has this property.
   */
  ghost predicate IsFiltering<T(!new)>(r: seq<T>, s: seq<T>, keep: T -> bool)
  {
    IsSubsequence(r, s) &&
    (forall x :: x in r ==> keep(x)) &&
    (forall x :: keep(x) ==> multiset(r)[x] == multiset(s)[x])
  }

  /** `Array.prototype.filter`: the elements of `s` that pass `keep`, in order. */
  function Filter<T(==,!new)>(s: seq<T>, keep: T -> bool): (r: seq<T>)
    ensures IsFiltering(r, s, keep)
    ensures forall x :: x in r <==> x in s && keep(x)
    ensures |r| <= |s|
    decreases |s|
  {
    if s == [] then []
    else
      assert s == [s[0]] + s[1..];
      if keep(s[0]) then [s[0]] + Filter(s[1..], keep)
      else Filter(s[1..], keep)
  }

  /** `Array.prototype.find`, as the position of the first element that passes `test`. */
  function FindIndex<T>(s: seq<T>, test: T -> bool): (r: Option<nat>)
    ensures r.Some? ==> r.value < |s| && test(s[r.value])
    ensures r.Some? ==> forall j :: 0 <= j < r.value ==> !test(s[j])
    ensures r.None? <==> forall j :: 0 <= j < |s| ==> !test(s[j])
    decreases |s|
  {
    if s == [] then None
    else if test(s[0]) then Some(0)
    else match FindIndex(s[1..], test)
      case None => None
      case Some(i) => Some(i + 1)
  }

  /** `t` occurs in `s` starting at position `i`. */
  predicate OccursAt<T(==)>(s: seq<T>, t: seq<T>, i: int)
  {
    0 <= i && i + |t| <= |s| && s[i..i + |t|] == t
  }

  /** `String.prototype.includes`: `t` is a substring of `s`. */
  function Includes<T(==)>(s: seq<T>, t: seq<T>): (b: bool)
    ensures b <==> exists i :: OccursAt(s, t, i)
    decreases |s|
  {
    if |s| < |t| then
      NoRoomNoOccurrence(s, t);
      false
    else if s[..|t|] == t then
      assert OccursAt(s, t, 0);
      true
    else
      OccursShift(s, t);
      Includes(s[1..], t)
  }

  lemma NoRoomNoOccurrence<T>(s: seq<T>, t: seq<T>)
    requires |s| < |t|
    ensures forall i :: !OccursAt(s, t, i)
  {
  }

  /** Occurrences in `s` past position 0 are the occurrences in `s[1..]`, shifted by one. */
  lemma OccursShift<T>(s: seq<T>, t: seq<T>)
    requires s != []
    ensures forall i :: 1 <= i ==> (OccursAt(s, t, i) <==> OccursAt(s[1..], t, i - 1))
    ensures forall i :: OccursAt(s[1..], t, i) ==> OccursAt(s, t, i + 1)
  {
  }

  /** A subsequence never holds an element more often than the sequence does. */
  lemma {:induction false} SubsequenceMultiset<T(!new)>(r: seq<T>, s: seq<T>)
    requires IsSubsequence(r, s)
    ensures multiset(r) <= multiset(s)
    decreases |s|
  {
    if r != [] {
      assert s == [s[0]] + s[1..];
      if r[0] == s[0] && IsSubsequence(r[1..], s[1..]) {
        SubsequenceMultiset(r[1..], s[1..]);
        assert r == [r[0]] + r[1..];
      } else {
        SubsequenceMultiset(r, s[1..]);
      }
    }
  }

  /** A subsequence that does not start with `s[0]` misses at least one copy of it. */
  lemma SubsequenceSkipsHead<T(!new)>(r: seq<T>, s: seq<T>)
    requires s != [] && IsSubsequence(r, s)
    requires !(r != [] && r[0] == s[0] && IsSubsequence(r[1..], s[1..]))
    ensures multiset(r)[s[0]] < multiset(s)[s[0]]
  {
    assert IsSubsequence(r, s[1..]);
    SubsequenceMultiset(r, s[1..]);
    assert s == [s[0]] + s[1..];
  }

  /** Filtering has exactly one possible result: IsFiltering pins down Filter. */
  lemma {:induction false} FilterUnique<T(!new)>(r: seq<T>, s: seq<T>, keep: T -> bool)
    requires IsFiltering(r, s, keep)
    ensures r == Filter(s, keep)
    decreases |s|
  {
    if s != [] {
      var h, t := s[0], s[1..];
      assert s == [h] + t;
      if keep(h) {
        if !(r != [] && r[0] == h && IsSubsequence(r[1..], t)) {
          SubsequenceSkipsHead(r, s);
          assert false;
        }
        assert r == [h] + r[1..];
        forall x | x in r[1..] ensures keep(x) {
          assert x in r;
        }
        forall x | keep(x) ensures multiset(r[1..])[x] == multiset(t)[x] {
          assert multiset(r) == multiset{h} + multiset(r[1..]);
        }
        FilterUnique(r[1..], t, keep);
      } else {
        assert r != [] ==> r[0] != h by {
          if r != [] { assert r[0] in r; }
        }
        assert IsSubsequence(r, t);
        forall x | keep(x) ensures multiset(r)[x] == multiset(t)[x] {
          assert x != h;
        }
        FilterUnique(r, t, keep);
      }
    }
  }

  /** Filtering distributes over concatenation. */
  lemma {:induction false} FilterConcat<T(!new)>(a: seq<T>, b: seq<T>, keep: T -> bool)
    ensures Filter(a + b, keep) == Filter(a, keep) + Filter(b, keep)
    decreases |a|
  {
    if a != [] {
      assert (a + b)[1..] == a[1..] + b;
      FilterConcat(a[1..], b, keep);
    } else {
      assert a + b == b;
    }
  }

  /** Filtering with a test every element passes changes nothing. */
  lemma {:induction false} FilterAll<T(!new)>(s: seq<T>, keep: T -> bool)
    requires forall j :: 0 <= j < |s| ==> keep(s[j])
    ensures Filter(s, keep) == s
    decreases |s|
  {
    if s != [] {
      FilterAll(s[1..], keep);
    }
  }

  /**
    Filtering a sequence in which only `x` fails the test removes exactly `x`.
   */
  lemma FilterDropsOne<T(!new)>(before: seq<T>, x: T, after: seq<T>, keep: T -> bool)
    requires forall j :: 0 <= j < |before| ==> keep(before[j])
    requires forall j :: 0 <= j < |after| ==> keep(after[j])
    requires !keep(x)
    ensures Filter(before + [x] + after, keep) == before + after
  {
    FilterAll(before, keep);
    FilterAll(after, keep);
    assert before + [x] + after == before + ([x] + after);
    FilterConcat(before, [x] + after, keep);
    assert ([x] + after)[1..] == after;
  }

  /**
    Two complementary filters split `s`: together they hold every element of
    `s` exactly as often as `s` does.
   */
  lemma FilterSplit<T(!new)>(s: seq<T>, keep: T -> bool, drop: T -> bool)
    requires forall x :: drop(x) == !keep(x)
    ensures multiset(Filter(s, keep)) + multiset(Filter(s, drop)) == multiset(s)
    ensures |Filter(s, keep)| + |Filter(s, drop)| == |s|
  {
    var kept, dropped := Filter(s, keep), Filter(s, drop);
    forall x ensures multiset(kept)[x] + multiset(dropped)[x] == multiset(s)[x] {
      if keep(x) { assert x !in dropped; } else { assert x !in kept; }
    }
    assert multiset(kept) + multiset(dropped) == multiset(s);
    assert |multiset(kept) + multiset(dropped)| == |kept| + |dropped|;
  }

}
