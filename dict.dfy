/**
 * Term dictionaries of one field: existence lookups, and a forward-only cursor over a
 * field's terms that skips the terms an include-predicate rejects.
 */
module Dictionaries {
  import opened Wrappers
  import opened Collections
  import opened Terms
  import opened Analysis

  /** A field's dictionary. `atf == None` is the empty sentinel (a nil map in the source). */
  datatype Dictionary = Dictionary(field: string, atf: Option<TokenFrequencies>) {

    /** Whether the term occurs in the field; the sentinel contains nothing. */
    function Contains(key: Term): (found: bool)
      ensures atf.None? ==> !found
      ensures atf.Some? ==> (found <==> key in atf.value)
    {
      if atf.None? then false else key in atf.value
    }
  }

  /** The shared dictionary handed out for an absent document or field. */
  function FieldDictContainsEmpty(): (d: Dictionary)
    ensures d.atf.None?
    ensures forall key :: !d.Contains(key)
  {
    Dictionary("", None)
  }

  /** One entry of a dictionary enumeration; the count is always 1, as there is one document. */
  datatype DictEntry = DictEntry(term: Term, count: nat)

  /** An absent include-predicate (a nil function) accepts every term. */
  function Accepts(includeFn: Option<Term -> bool>, t: Term): bool
  {
    includeFn.None? || includeFn.value(t)
  }

  /** The terms of `terms` the predicate accepts, in their original order. */
  function Filter(terms: seq<Term>, includeFn: Option<Term -> bool>): seq<Term>
    decreases |terms|
  {
    if terms == [] then []
    else if Accepts(includeFn, terms[0]) then [terms[0]] + Filter(terms[1..], includeFn)
    else Filter(terms[1..], includeFn)
  }

  /** A term is enumerated exactly when it is among the terms and accepted. */
  lemma {:induction false} FilterMembers(terms: seq<Term>, includeFn: Option<Term -> bool>)
    ensures forall t :: t in Filter(terms, includeFn) <==> t in terms && Accepts(includeFn, t)
    decreases |terms|
  {
    if terms != [] {
      FilterMembers(terms[1..], includeFn);
      assert terms == [terms[0]] + terms[1..];
    }
  }

  /** Without a predicate every term is enumerated. */
  lemma {:induction false} FilterAcceptAll(terms: seq<Term>)
    ensures Filter(terms, None) == terms
    decreases |terms|
  {
    if terms != [] {
      FilterAcceptAll(terms[1..]);
      assert terms == [terms[0]] + terms[1..];
    }
  }

  /** Filtering an ascending listing leaves it ascending. */
  lemma {:induction false} FilterStrictlySorted(terms: seq<Term>, includeFn: Option<Term -> bool>)
    requires StrictlySorted(terms)
    ensures StrictlySorted(Filter(terms, includeFn))
    decreases |terms|
  {
    if terms != [] {
      var rest := Filter(terms[1..], includeFn);
      FilterStrictlySorted(terms[1..], includeFn);
      if Accepts(includeFn, terms[0]) {
        FilterMembers(terms[1..], includeFn);
        forall j | 0 <= j < |rest| ensures Less(terms[0], rest[j]) {
          assert rest[j] in terms[1..];
          var k :| 0 <= k < |terms[1..]| && terms[1..][k] == rest[j];
          assert terms[k + 1] == rest[j];
        }
      }
    }
  }

  /**
   * Enumerating the sorted term set of a field through a predicate yields exactly the accepted
   * terms, ascending, each once.
   */
  lemma FilterSortedSet(terms: seq<Term>, keys: set<Term>, includeFn: Option<Term -> bool>)
    requires IsSortedSet(terms, keys)
    ensures IsSortedSet(Filter(terms, includeFn), set t | t in keys && Accepts(includeFn, t))
  {
    FilterMembers(terms, includeFn);
    FilterStrictlySorted(terms, includeFn);
  }

  class DictionaryIterator {
    const terms: seq<Term>
    const includeFunc: Option<Term -> bool>
    var index: nat

    ghost predicate Valid()
      reads this
    {
      index <= |terms|
    }

    /** The entries still to come, in order. */
    function Remaining(): seq<Term>
      reads this
      requires Valid()
    {
      Filter(terms[index..], includeFunc)
    }

    /** The iterator over no terms (`NewFieldDictEmpty`). */
    constructor NewEmpty()
      ensures Valid() && terms == [] && includeFunc == None && index == 0
      ensures Remaining() == []
    {
      terms := [];
      includeFunc := None;
      index := 0;
    }

    constructor NewWithTerms(terms: seq<Term>, includeFn: Option<Term -> bool>)
      ensures Valid() && this.terms == terms && includeFunc == includeFn && index == 0
      ensures Remaining() == Filter(terms, includeFn)
    {
      this.terms := terms;
      includeFunc := includeFn;
      index := 0;
    }

    /** Skips rejected terms and yields the next accepted one; once exhausted, yields nothing. */
    method Next() returns (e: Option<DictEntry>)
      requires Valid()
      modifies this`index
      ensures Valid() && old(index) <= index
      ensures old(Remaining()) == [] ==> e == None && Remaining() == []
      ensures old(Remaining()) != [] ==>
        e == Some(DictEntry(old(Remaining())[0], 1)) && Remaining() == old(Remaining())[1..]
    {
      while index < |terms|
        invariant old(index) <= index <= |terms|
        invariant Filter(terms[index..], includeFunc) == old(Remaining())
        decreases |terms| - index
      {
        assert terms[index..][1..] == terms[index + 1..];
        if includeFunc.Some? && !includeFunc.value(terms[index]) {
          index := index + 1;
          continue;
        }
        e := Some(DictEntry(terms[index], 1));
        index := index + 1;
        return;
      }
      return None;
    }
  }
}
