/**
 * Terms are the byte strings a field's analysis produces. They are ordered the way Go
 * orders `string` values: byte by byte, a proper prefix before its extensions.
 * `SortStrings` stands for the library sort the adapter applies to a field's terms.
 */
module Terms {
  import opened Collections

  newtype byte = x: int | 0 <= x < 256

  type Term = seq<byte>

  /** Strict lexicographic order on byte strings. */
  predicate Less(a: Term, b: Term)
    decreases |a|
  {
    if a == [] then b != []
    else if b == [] then false
    else if a[0] != b[0] then a[0] < b[0]
    else Less(a[1..], b[1..])
  }

  predicate LessEq(a: Term, b: Term)
  {
    Less(a, b) || a == b
  }

  lemma {:induction false} LessIrreflexive(a: Term)
    ensures !Less(a, a)
    decreases |a|
  {
    if a != [] {
      LessIrreflexive(a[1..]);
    }
  }

  lemma {:induction false} LessTransitive(a: Term, b: Term, c: Term)
    requires Less(a, b) && Less(b, c)
    ensures Less(a, c)
    decreases |a|
  {
    if a != [] && a[0] == b[0] && b[0] == c[0] {
      LessTransitive(a[1..], b[1..], c[1..]);
    }
  }

  lemma {:induction false} LessTotal(a: Term, b: Term)
    ensures a == b || Less(a, b) || Less(b, a)
    decreases |a|
  {
    if a != [] && b != [] && a[0] == b[0] {
      LessTotal(a[1..], b[1..]);
      assert a == [a[0]] + a[1..];
      assert b == [b[0]] + b[1..];
    }
  }

  lemma LessAsymmetric(a: Term, b: Term)
    requires Less(a, b)
    ensures !Less(b, a)
  {
    LessIrreflexive(a);
    if Less(b, a) {
      LessTransitive(a, b, a);
    }
  }

  lemma LessEqTransitive(a: Term, b: Term, c: Term)
    requires LessEq(a, b) && LessEq(b, c)
    ensures LessEq(a, c)
  {
    if Less(a, b) && Less(b, c) {
      LessTransitive(a, b, c);
    }
  }

  /** Non-decreasing order (what a sort of arbitrary strings delivers). */
  predicate Sorted(s: seq<Term>)
  {
    forall i, j :: 0 <= i < j < |s| ==> LessEq(s[i], s[j])
  }

  /** Strictly ascending order: sorted and without repetitions. */
  predicate StrictlySorted(s: seq<Term>)
  {
    forall i, j :: 0 <= i < j < |s| ==> Less(s[i], s[j])
  }

  /** `s` lists exactly the terms of `keys`, ascending, each once. */
  predicate IsSortedSet(s: seq<Term>, keys: set<Term>)
  {
    StrictlySorted(s) && Elems(s) == keys
  }

  /** Insert `x` before the first element that is not smaller than it. */
  function Insert(s: seq<Term>, x: Term): (r: seq<Term>)
    ensures multiset(r) == multiset(s) + multiset{x}
  {
    if s == [] || LessEq(x, s[0]) then [x] + s
    else
      assert s == [s[0]] + s[1..];
      [s[0]] + Insert(s[1..], x)
  }

  lemma {:induction false} InsertSorted(s: seq<Term>, x: Term)
    requires Sorted(s)
    ensures Sorted(Insert(s, x))
  {
    if s == [] || LessEq(x, s[0]) {
      forall j | 0 <= j < |s| ensures LessEq(x, s[j]) {
        LessEqTransitive(x, s[0], s[j]);
      }
    } else {
      LessTotal(x, s[0]);
      InsertSorted(s[1..], x);
      var t := Insert(s[1..], x);
      forall j | 0 <= j < |t| ensures LessEq(s[0], t[j]) {
        assert t[j] in multiset(t);
        if t[j] != x {
          assert t[j] in multiset(s[1..]);
          var k :| 0 <= k < |s[1..]| && s[1..][k] == t[j];
          assert s[k + 1] == t[j];
        }
      }
    }
  }

  /** Sorts a sequence of terms in place of Go's `sort.Strings`: the result is ordered and a permutation. */
  method SortStrings(s: seq<Term>) returns (r: seq<Term>)
    ensures Sorted(r)
    ensures multiset(r) == multiset(s)
  {
    r := [];
    for i := 0 to |s|
      invariant Sorted(r)
      invariant multiset(r) == multiset(s[..i])
    {
      InsertSorted(r, s[i]);
      r := Insert(r, s[i]);
      assert s[..i + 1] == s[..i] + [s[i]];
    }
    assert s[..|s|] == s;
  }

  /** Sorting distinct terms yields them strictly ascending, with the same elements. */
  lemma SortedPermutationOfDistinct(r: seq<Term>, s: seq<Term>)
    requires Sorted(r) && multiset(r) == multiset(s) && NoDup(s)
    ensures StrictlySorted(r)
    ensures Elems(r) == Elems(s)
  {
    PermutationKeepsNoDup(s, r);
    forall x ensures x in r <==> x in s {
      assert x in r <==> x in multiset(r);
      assert x in s <==> x in multiset(s);
    }
  }

  /** Two strictly ascending listings of the same terms are the same listing. */
  lemma {:induction false} StrictlySortedUnique(a: seq<Term>, b: seq<Term>)
    requires StrictlySorted(a) && StrictlySorted(b)
    requires Elems(a) == Elems(b)
    ensures a == b
    decreases |a|
  {
    if a == [] {
      HeadInElems(b);
    } else {
      assert a[0] in Elems(b) && b != [];
      assert b[0] in Elems(a);
      var i :| 0 <= i < |b| && b[i] == a[0];
      var j :| 0 <= j < |a| && a[j] == b[0];
      if i != 0 {
        // b[0] < b[i] == a[0] <= a[j] == b[0]
        if j != 0 { LessTransitive(b[0], a[0], a[j]); }
        LessIrreflexive(b[0]);
      }
      assert a[0] == b[0];
      forall x ensures x in a[1..] <==> x in b[1..] {
        if x in a[1..] {
          var k :| 0 <= k < |a[1..]| && a[1..][k] == x;
          assert Less(a[0], a[k + 1]);
          LessIrreflexive(a[0]);
          assert x in Elems(b);
          var m :| 0 <= m < |b| && b[m] == x;
          assert m != 0;
          assert b[1..][m - 1] == x;
        }
        if x in b[1..] {
          var k :| 0 <= k < |b[1..]| && b[1..][k] == x;
          assert Less(b[0], b[k + 1]);
          LessIrreflexive(b[0]);
          assert x in Elems(a);
          var m :| 0 <= m < |a| && a[m] == x;
          assert m != 0;
          assert a[1..][m - 1] == x;
        }
      }
      StrictlySortedUnique(a[1..], b[1..]);
      assert a == [a[0]] + a[1..] && b == [b[0]] + b[1..];
    }
  }
}
