/**
 * A worked scenario of the dictionary iterator: a field "name" with the terms "alice", "bob"
 * and "carol", enumerated through an automaton that accepts the terms starting with "b".
 */
module Scenarios {
  import opened Wrappers
  import opened Terms
  import opened Automata
  import opened Dictionaries
  import opened Collections
  import opened Analysis
  import opened Adapter

  /** Accepts exactly the terms whose first byte is `b`; 0 is the start, 1 matched, 2 dead. */
  function PrefixAutomaton(b: byte): Automaton<int>
  {
    Automaton(
      0,
      (s: int, x: byte) => if s == 0 then (if x == b then 1 else 2) else s,
      (s: int) => s != 2,
      (s: int) => s == 1)
  }

  lemma {:induction false} MatchedStaysMatched(b: byte, s: Term)
    ensures MatchFrom(PrefixAutomaton(b), 1, s)
    decreases |s|
  {
    if s != [] {
      MatchedStaysMatched(b, s[1..]);
    }
  }

  lemma PrefixAutomatonMatches(b: byte, t: Term)
    ensures Matches(PrefixAutomaton(b), t) <==> t != [] && t[0] == b
  {
    if t != [] && t[0] == b {
      MatchedStaysMatched(b, t[1..]);
    }
  }

  const Alice: Term := [97, 108, 105, 99, 101]
  const Bob: Term := [98, 111, 98]
  const Carol: Term := [99, 97, 114, 111, 108]

  /** The first `Next` yields ("bob", 1); the second finds the iterator exhausted. */
  method PrefixWalk() returns (first: Option<DictEntry>, second: Option<DictEntry>)
    ensures first == Some(DictEntry(Bob, 1))
    ensures second == None
  {
    var matcher := Matcher(PrefixAutomaton(98));
    PrefixAutomatonMatches(98, Alice);
    PrefixAutomatonMatches(98, Bob);
    PrefixAutomatonMatches(98, Carol);
    var terms := [Alice, Bob, Carol];
    assert !matcher(Alice) && matcher(Bob) && !matcher(Carol);
    assert Filter([Carol], Some(matcher)) == [] by {
      assert [Carol][1..] == [];
    }
    assert Filter([Bob, Carol], Some(matcher)) == [Bob] by {
      assert [Bob, Carol][1..] == [Carol];
    }
    assert Filter(terms, Some(matcher)) == [Bob] by {
      assert terms[1..] == [Bob, Carol];
    }
    var it := new DictionaryIterator.NewWithTerms(terms, Some(matcher));
    first := it.Next();
    second := it.Next();
  }

  /** One occurrence, no recorded locations. */
  function Once(t: Term): TokenFreq
  {
    TokenFreq(t, 1, [])
  }

  /** The document: a single field "name" holding the three terms. */
  const NameDoc: Document := [Field("name", map[Alice := Once(Alice), Bob := Once(Bob), Carol := Once(Carol)], 3)]

  /** Analyzing the document records the one field name and its three terms. */
  lemma NameDocAnalysis(merge: MergeFn)
    ensures AnalyzedTables(NameDoc, merge).names == ["name"]
    ensures TermKeys(NameDoc, "name") == {Alice, Bob, Carol}
  {
    AnalyzedNames(NameDoc, merge);
    assert NameDoc[..0] == [];
    assert DocNames(NameDoc) == ["name"];
  }

  /** Of the three terms only "bob" starts with "b". */
  lemma OnlyBobMatches(keys: set<Term>)
    requires keys == {Alice, Bob, Carol}
    ensures (set t | t in keys && Matches(PrefixAutomaton(98), t)) == {Bob}
  {
    PrefixAutomatonMatches(98, Alice);
    PrefixAutomatonMatches(98, Bob);
    PrefixAutomatonMatches(98, Carol);
  }

  /** The only ascending listing of {b} is [b]. */
  lemma SingletonSortedSet(r: seq<Term>, keys: set<Term>, b: Term)
    requires IsSortedSet(r, keys) && keys == {b}
    ensures r == [b]
  {
    assert Elems([b]) == {b};
    StrictlySortedUnique(r, [b]);
  }

  /** The adapter's iterator over "name" with the "starts with b" automaton has only "bob" to give. */
  method AdapterPrefixIterator() returns (it: DictionaryIterator)
    ensures fresh(it) && it.Valid() && it.Remaining() == [Bob]
  {
    var merge: MergeFn := (a: TokenFrequencies, name: string, b: TokenFrequencies) => a + b;
    var s := new Sour.NewWithDocument(merge, NameDoc);
    NameDocAnalysis(merge);
    assert s.fieldNames == ["name"];
    OnlyBobMatches(TermKeys(NameDoc, "name"));
    it := s.DictionaryIterator("name", PrefixAutomaton(98), [], []);
    SingletonSortedSet(it.Remaining(), (set t | t in TermKeys(NameDoc, "name") && Matches(PrefixAutomaton(98), t)), Bob);
  }

  /** Through the adapter: the iterator over "name" yields ("bob", 1) and then nothing. */
  method AdapterPrefixWalk() returns (first: Option<DictEntry>, second: Option<DictEntry>)
    ensures first == Some(DictEntry(Bob, 1))
    ensures second == None
  {
    var it := AdapterPrefixIterator();
    first := it.Next();
    second := it.Next();
  }

  /** Through the adapter: the iterator over a field the document lacks yields nothing. */
  method AdapterMissingField() returns (missing: Option<DictEntry>)
    ensures missing == None
  {
    var merge: MergeFn := (a: TokenFrequencies, name: string, b: TokenFrequencies) => a + b;
    var s := new Sour.NewWithDocument(merge, NameDoc);
    NameDocAnalysis(merge);
    assert "age" !in s.fieldNames;
    var it := s.DictionaryIterator("age", PrefixAutomaton(98), [], []);
    missing := it.Next();
  }
}
