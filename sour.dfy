/**
 * The single-document virtual segment (`Sour`). It analyzes one document into parallel
 * per-field tables, caches each field's sorted terms, and serves dictionaries, dictionary
 * iterators, posting iterators and collection statistics from them. A missing document or
 * field turns into an empty answer, never an error.
 */
module Adapter {
  import opened Wrappers
  import opened Collections
  import opened Terms
  import opened Analysis
  import opened Automata
  import Postings
  import Dictionaries
  import CollStats

  /** The keys of a field's map, each once, in whatever order the map yields them. */
  method CollectKeys(atf: TokenFrequencies) returns (terms: seq<Term>)
    ensures NoDup(terms)
    ensures forall t :: t in terms <==> t in atf
  {
    terms := [];
    var pending := atf.Keys;
    while pending != {}
      invariant pending <= atf.Keys
      invariant NoDup(terms)
      invariant forall t :: t in terms <==> t in atf && t !in pending
      decreases pending
    {
      var k :| k in pending;
      terms := terms + [k];
      pending := pending - {k};
    }
  }

  /** Filtering a sorted key set by an automaton leaves exactly the matching keys, ascending. */
  lemma MatcherFilterSortedSet<S>(terms: seq<Term>, keys: set<Term>, automaton: Automaton<S>)
    requires IsSortedSet(terms, keys)
    ensures IsSortedSet(Dictionaries.Filter(terms, Some(Matcher(automaton))), set t | t in keys && Matches(automaton, t))
  {
    Dictionaries.FilterSortedSet(terms, keys, Some(Matcher(automaton)));
    assert (set t | t in keys && Dictionaries.Accepts(Some(Matcher(automaton)), t))
        == (set t | t in keys && Matches(automaton, t));
  }

  /** Errors of the direct field lookups and of the doc-value reader. */
  datatype Error = NoFieldNamed(name: string) | UnknownDocNumber(number: nat)

  class Sour {
    /** The analysis library's token-frequency merge, used when a field name recurs. */
    const merge: MergeFn

    var doc: Option<Document>

    // the four per-field tables, filled by Analyze from the current document
    var fieldIndexes: map<string, nat>
    var fieldNames: seq<string>
    var fieldTokenFreqs: seq<TokenFrequencies>
    var fieldLens: seq<int>

    // per-field ascending term lists, computed on first request and kept until Reset empties them
    var sortedTerms: map<string, seq<Term>>

    /** The four analysis tables, as one value. */
    function Analyzed(): Tables
      reads this
    {
      Tables(fieldIndexes, fieldNames, fieldTokenFreqs, fieldLens)
    }

    /** Every cached list that is not empty lists the current terms of a current field, ascending. */
    ghost predicate CacheConsistent()
      reads this
      requires WellFormed(Analyzed())
    {
      forall name :: name in sortedTerms && sortedTerms[name] != [] ==>
        name in fieldIndexes && IsSortedSet(sortedTerms[name], fieldTokenFreqs[fieldIndexes[name]].Keys)
    }

    /** Every cached list is empty. */
    ghost predicate CacheCleared()
      reads this
    {
      forall name :: name in sortedTerms ==> sortedTerms[name] == []
    }

    /** The tables describe exactly the current document, and the cache holds nothing stale. */
    ghost predicate Valid()
      reads this
    {
      && WellFormed(Analyzed())
      && Analyzed() == (if doc.Some? then AnalyzedTables(doc.value, merge) else NoTables)
      && CacheConsistent()
    }

    constructor New(merge: MergeFn)
      ensures Valid() && this.merge == merge
      ensures doc == None && Analyzed() == NoTables && sortedTerms == map[]
    {
      this.merge := merge;
      doc := None;
      fieldIndexes, fieldNames, fieldTokenFreqs, fieldLens := map[], [], [], [];
      sortedTerms := map[];
    }

    constructor NewWithDocument(merge: MergeFn, d: Document)
      ensures Valid() && this.merge == merge
      ensures doc == Some(d) && Analyzed() == AnalyzedTables(d, merge)
      ensures sortedTerms == map[]
    {
      this.merge := merge;
      doc := None;
      fieldIndexes, fieldNames, fieldTokenFreqs, fieldLens := map[], [], [], [];
      sortedTerms := map[];
      new;
      Reset(d);
    }

    /** Folds one analyzed field into the tables (`newField`). */
    method NewField(f: Field)
      requires WellFormed(Analyzed())
      modifies this`fieldIndexes, this`fieldNames, this`fieldTokenFreqs, this`fieldLens
      ensures Analyzed() == AddField(old(Analyzed()), f, merge)
    {
      var af := BackfillLocationFields(f.freqs, f.name);
      if f.name !in fieldIndexes {
        fieldIndexes := fieldIndexes[f.name := |fieldTokenFreqs|];
        fieldNames := fieldNames + [f.name];
        fieldTokenFreqs := fieldTokenFreqs + [af];
        fieldLens := fieldLens + [f.length];
      } else {
        var fieldIdx := fieldIndexes[f.name];
        fieldTokenFreqs := fieldTokenFreqs[fieldIdx := merge(fieldTokenFreqs[fieldIdx], f.name, af)];
        fieldLens := fieldLens[fieldIdx := fieldLens[fieldIdx] + f.length];
      }
    }

    /** Folds every field of the current document into empty tables, in document order. */
    method Analyze()
      requires doc.Some? && Analyzed() == NoTables
      modifies this`fieldIndexes, this`fieldNames, this`fieldTokenFreqs, this`fieldLens
      ensures Analyzed() == AnalyzedTables(doc.value, merge)
    {
      var d := doc.value;
      for i := 0 to |d|
        invariant Analyzed() == AnalyzedTables(d[..i], merge)
      {
        AnalyzedTablesSnoc(d, i, merge);
        NewField(d[i]);
      }
      assert d[..|d|] == d;
    }

    /** Drops all analysis and every cached term list, then analyzes `d`. */
    method Reset(d: Document)
      modifies this
      ensures Valid()
      ensures doc == Some(d) && Analyzed() == AnalyzedTables(d, merge)
      ensures sortedTerms.Keys == old(sortedTerms.Keys) && CacheCleared()
    {
      fieldIndexes := map[];
      fieldNames := [];
      fieldTokenFreqs := [];
      fieldLens := [];

      var pending := sortedTerms.Keys;
      while pending != {}
        invariant Analyzed() == NoTables
        invariant pending <= sortedTerms.Keys
        invariant sortedTerms.Keys == old(sortedTerms.Keys)
        invariant forall k :: k in sortedTerms && k !in pending ==> sortedTerms[k] == []
        decreases pending
      {
        var k :| k in pending;
        sortedTerms := sortedTerms[k := []];
        pending := pending - {k};
      }

      doc := Some(d);
      Analyze();
    }

    /** The slot of a field, or an error naming it. */
    function FieldIndex(name: string): (r: Result<nat, Error>)
      reads this
      requires Valid()
      ensures r.Success? <==> name in fieldNames
      ensures r.Success? ==> r.value < |fieldNames| && fieldNames[r.value] == name
      ensures r.Failure? ==> r.error == NoFieldNamed(name)
    {
      WellFormedNoDup(Analyzed());
      if name in fieldIndexes then Success(fieldIndexes[name]) else Failure(NoFieldNamed(name))
    }

    /** The field names in first-seen order, each once. */
    function Fields(): (r: seq<string>)
      reads this
      requires Valid()
      ensures NoDup(r)
      ensures doc.None? ==> r == []
      ensures doc.Some? ==> (forall x :: x in r <==> x in DocNames(doc.value))
      ensures doc.Some? ==> FirstSeenOrder(r, DocNames(doc.value))
    {
      WellFormedNoDup(Analyzed());
      if doc.Some? then AnalyzedNames(doc.value, merge); fieldNames else fieldNames
    }

    /**
     * The token frequencies and length of a field, or an error for a field the document does
     * not have. They are the union of the terms and the sum of the lengths of all fields of
     * the document with that name.
     */
    function TokenFreqsAndLen(name: string): (r: Result<(TokenFrequencies, int), Error>)
      reads this
      requires Valid()
      ensures r.Failure? <==> name !in fieldNames
      ensures r.Failure? ==> r.error == NoFieldNamed(name)
      ensures r.Success? ==> r.value.0 == FreqsOrEmpty(Analyzed(), name)
      ensures r.Success? ==> doc.Some? && r.value.0.Keys == TermKeys(doc.value, name) && r.value.1 == TotalLength(doc.value, name)
      ensures r.Success? ==> doc.Some? && forall p :: OccursOnceAt(doc.value, p) && doc.value[p].name == name ==>
        r.value.0 == Backfilled(doc.value[p].freqs, name)
    {
      match FieldIndex(name)
      case Failure(e) => Failure(e)
      case Success(i) =>
        WellFormedNoDup(Analyzed());
        AnalyzedSlot(doc.value, merge, name);
        SingleSlots(doc.value, merge);
        Success((fieldTokenFreqs[i], fieldLens[i]))
    }

    /**
     * The field's terms ascending, each once, computed on first use and then served from the
     * cache; an error for a field the document does not have.
     */
    method SortedTermsForField(fieldName: string) returns (r: Result<seq<Term>, Error>)
      requires Valid()
      modifies this`sortedTerms
      ensures Valid()
      ensures r.Failure? <==> fieldName !in fieldNames
      ensures r.Failure? ==> r.error == NoFieldNamed(fieldName) && sortedTerms == old(sortedTerms)
      ensures r.Success? ==> IsSortedSet(r.value, FreqsOrEmpty(Analyzed(), fieldName).Keys)
      ensures r.Success? ==> doc.Some? && Elems(r.value) == TermKeys(doc.value, fieldName)
      ensures r.Success? ==> sortedTerms == old(sortedTerms)[fieldName := r.value]
      ensures r.Success? && fieldName in old(sortedTerms) && old(sortedTerms)[fieldName] != [] ==>
        r.value == old(sortedTerms)[fieldName]
    {
      var idx := FieldIndex(fieldName);
      if idx.Failure? {
        return Failure(idx.error);
      }
      var fieldIdx := idx.value;
      WellFormedNoDup(Analyzed());
      AnalyzedSlot(doc.value, merge, fieldName);

      var terms: seq<Term> := if fieldName in sortedTerms then sortedTerms[fieldName] else [];
      if fieldName in sortedTerms && |terms| > 0 {
        return Success(terms);
      }

      // collect the keys, in whatever order the map yields them, then sort
      terms := CollectKeys(fieldTokenFreqs[fieldIdx]);
      var sorted := SortStrings(terms);
      SortedPermutationOfDistinct(sorted, terms);
      sortedTerms := sortedTerms[fieldName := sorted];
      return Success(sorted);
    }

    /** The same statistics for every field: one document, counted once. */
    function CollectionStats(field: string): (r: CollStats.CollectionStats)
      ensures r == CollStats.CollStats()
      ensures r.TotalDocumentCount() == 1 && r.DocumentCount() == 1 && r.SumTotalTermFrequency() == 1
      ensures forall other :: r.Merge(other) == r
    {
      CollStats.CollStats()
    }

    /**
     * The field's dictionary: empty (no term is contained) without a document or for an
     * absent field, and otherwise containing exactly the terms the document has in the field.
     */
    function DictionaryLookup(field: string): (d: Dictionaries.Dictionary)
      reads this
      requires Valid()
      ensures doc.None? || field !in fieldNames ==> d == Dictionaries.FieldDictContainsEmpty()
      ensures forall key :: d.Contains(key) <==> doc.Some? && key in TermKeys(doc.value, field)
    {
      if doc.None? then Dictionaries.FieldDictContainsEmpty()
      else match TokenFreqsAndLen(field)
        case Failure(_) =>
          AnalyzedNames(doc.value, merge);
          AbsentFieldContributesNothing(doc.value, field);
          Dictionaries.FieldDictContainsEmpty()
        case Success(res) => Dictionaries.Dictionary(field, Some(res.0))
    }

    /**
     * An iterator over the field's sorted terms that enumerates those the automaton accepts.
     * The `start` and `end` bounds play no part. Without a document or for an absent field it
     * is the empty iterator.
     */
    method DictionaryIterator<S>(field: string, automaton: Automaton<S>, start: Term, end: Term)
      returns (it: Dictionaries.DictionaryIterator)
      requires Valid()
      modifies this`sortedTerms
      ensures Valid() && Analyzed() == old(Analyzed()) && doc == old(doc)
      ensures fresh(it) && it.Valid() && it.index == 0
      ensures doc.None? || field !in fieldNames ==> sortedTerms == old(sortedTerms)
      ensures doc.Some? && field in fieldNames ==> sortedTerms == old(sortedTerms)[field := it.terms]
      ensures doc.None? || field !in fieldNames ==> it.terms == [] && it.includeFunc == None && it.Remaining() == []
      ensures doc.Some? && field in fieldNames ==>
        && IsSortedSet(it.terms, TermKeys(doc.value, field))
        && it.includeFunc == Some(Matcher(automaton))
        && IsSortedSet(it.Remaining(), set t | t in TermKeys(doc.value, field) && Matches(automaton, t))
    {
      if doc.None? {
        it := new Dictionaries.DictionaryIterator.NewEmpty();
        return;
      }
      var fieldSortedTerms := SortedTermsForField(field);
      if fieldSortedTerms.Failure? {
        it := new Dictionaries.DictionaryIterator.NewEmpty();
        return;
      }
      it := new Dictionaries.DictionaryIterator.NewWithTerms(fieldSortedTerms.value, Some(Matcher(automaton)));
      MatcherFilterSortedSet(it.terms, TermKeys(doc.value, field), automaton);
    }

    /**
     * A reader for the term in the field: exhausted from the start without a document, for an
     * absent field or for a term the field does not have; otherwise ready to yield its posting.
     */
    method PostingsIterator(term: Term, field: string, includeFreq: bool, includeNorm: bool, includeTermVectors: bool)
      returns (r: Postings.TermFieldReader)
      requires Valid()
      ensures fresh(r) && r.Valid()
      ensures doc.None? || field !in fieldNames || term !in TermKeys(doc.value, field) ==> r.done && r.tf == None
      ensures doc.Some? && field in fieldNames && term in TermKeys(doc.value, field) ==>
        && !r.done
        && term in FreqsOrEmpty(Analyzed(), field)
        && r.tf == Some(FreqsOrEmpty(Analyzed(), field)[term])
        && r.len == TotalLength(doc.value, field)
        && r.includeFreq == includeFreq && r.includeNorm == includeNorm && r.includeTermVectors == includeTermVectors
      ensures doc.Some? && field in fieldNames && term in TermKeys(doc.value, field) ==>
        forall p :: OccursOnceAt(doc.value, p) && doc.value[p].name == field ==>
          term in doc.value[p].freqs && r.tf == Some(BackfillFreq(doc.value[p].freqs[term], field))
    {
      if doc.None? {
        r := new Postings.TermFieldReader.NewEmpty();
        return;
      }
      var res := TokenFreqsAndLen(field);
      if res.Failure? {
        r := new Postings.TermFieldReader.NewEmpty();
        return;
      }
      var (atf, l) := res.value;
      if term !in atf {
        r := new Postings.TermFieldReader.NewEmpty();
        return;
      }
      r := new Postings.TermFieldReader.NewFromTokenFreqAndLen(atf[term], l, includeFreq, includeNorm, includeTermVectors);
    }
  }
}
