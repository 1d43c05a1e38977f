/**
 * The doc-value reader: replays the terms of the requested fields of the one document to a
 * visitor. The visitor's calls are collected, in order, as the returned sequence of visits.
 */
module DocValues {
  import opened Wrappers
  import opened Collections
  import opened Terms
  import opened Analysis
  import opened Adapter
  import Postings

  /** One visitor call: a field name and one of its terms. */
  datatype Visit = Visit(field: string, term: Term)

  /** `order` is one enumeration of `keys`: each key once, in some order (Go map order is unspecified). */
  ghost predicate Enumerates(order: seq<Term>, keys: set<Term>)
  {
    NoDup(order) && forall k :: k in order <==> k in keys
  }

  /** The visits for one field whose map is enumerated in `order`. */
  function FieldVisits(field: string, atf: TokenFrequencies, order: seq<Term>): (r: seq<Visit>)
    requires forall k :: k in order ==> k in atf
  {
    seq(|order|, i requires 0 <= i < |order| => Visit(field, atf[order[i]].term))
  }

  /** The visits for the requested fields, field by field, each enumerated in its order. */
  function AllVisits(t: Tables, fields: seq<string>, orders: seq<seq<Term>>): seq<Visit>
    requires WellFormed(t) && |orders| == |fields|
    requires forall m :: 0 <= m < |fields| ==> Enumerates(orders[m], FreqsOrEmpty(t, fields[m]).Keys)
    decreases |fields|
  {
    if fields == [] then []
    else
      var n := |fields| - 1;
      assert Enumerates(orders[n], FreqsOrEmpty(t, fields[n]).Keys);
      AllVisits(t, fields[..n], orders[..n]) + FieldVisits(fields[n], FreqsOrEmpty(t, fields[n]), orders[n])
  }

  /** Enumerating one more key appends its visit. */
  lemma FieldVisitsSnoc(field: string, atf: TokenFrequencies, order: seq<Term>, k: Term)
    requires (forall x :: x in order ==> x in atf) && k in atf
    ensures FieldVisits(field, atf, order + [k]) == FieldVisits(field, atf, order) + [Visit(field, atf[k].term)]
  {
  }

  /** Visiting one more requested field appends that field's visits. */
  lemma AllVisitsSnoc(t: Tables, fields: seq<string>, orders: seq<seq<Term>>, order: seq<Term>)
    requires WellFormed(t) && |orders| < |fields|
    requires forall m :: 0 <= m < |orders| ==> Enumerates(orders[m], FreqsOrEmpty(t, fields[m]).Keys)
    requires Enumerates(order, FreqsOrEmpty(t, fields[|orders|]).Keys)
    ensures var i := |orders|;
      AllVisits(t, fields[..i + 1], orders + [order])
        == AllVisits(t, fields[..i], orders) + FieldVisits(fields[i], FreqsOrEmpty(t, fields[i]), order)
  {
    var i := |orders|;
    assert fields[..i + 1][..i] == fields[..i];
    assert (orders + [order])[..i] == orders;
  }

  /** The terms a map's entries carry. */
  function ValueTerms(atf: TokenFrequencies): set<Term>
  {
    set k | k in atf :: atf[k].term
  }

  /**
   * Whatever the enumeration order, a (field, term) pair is visited exactly when the field is
   * requested and the term is carried by an entry of that field's map; absent fields give nothing.
   */
  lemma {:induction false} AllVisitsCover(t: Tables, fields: seq<string>, orders: seq<seq<Term>>)
    requires WellFormed(t) && |orders| == |fields|
    requires forall m :: 0 <= m < |fields| ==> Enumerates(orders[m], FreqsOrEmpty(t, fields[m]).Keys)
    ensures forall v :: v in AllVisits(t, fields, orders) <==>
      v.field in fields && v.term in ValueTerms(FreqsOrEmpty(t, v.field))
    decreases |fields|
  {
    if fields != [] {
      var n := |fields| - 1;
      var f, atf, order := fields[n], FreqsOrEmpty(t, fields[n]), orders[n];
      AllVisitsCover(t, fields[..n], orders[..n]);
      assert fields == fields[..n] + [f];
      forall v ensures v in FieldVisits(f, atf, order) <==> v.field == f && v.term in ValueTerms(atf) {
        if v.field == f && v.term in ValueTerms(atf) {
          var k :| k in atf && atf[k].term == v.term;
          var i :| 0 <= i < |order| && order[i] == k;
          assert FieldVisits(f, atf, order)[i] == v;
        }
      }
    }
  }

  class DocValueReader {
    const s: Sour
    const fields: seq<string>

    constructor (s: Sour, fields: seq<string>)
      ensures this.s == s && this.fields == fields
    {
      this.s := s;
      this.fields := fields;
    }

    /**
     * Visits every key of one field's map once, in the map's order, or nothing for a field the
     * document lacks.
     */
    method VisitField(dvrField: string) returns (visits: seq<Visit>, ghost order: seq<Term>)
      requires s.Valid()
      ensures Enumerates(order, FreqsOrEmpty(s.Analyzed(), dvrField).Keys)
      ensures visits == FieldVisits(dvrField, FreqsOrEmpty(s.Analyzed(), dvrField), order)
    {
      visits, order := [], [];
      var res := s.TokenFreqsAndLen(dvrField);
      if res.Success? {
        var atf := res.value.0;
        var pending := atf.Keys;
        while pending != {}
          invariant pending <= atf.Keys
          invariant NoDup(order)
          invariant forall k :: k in order <==> k in atf && k !in pending
          invariant visits == FieldVisits(dvrField, atf, order)
          decreases pending
        {
          var k :| k in pending;
          FieldVisitsSnoc(dvrField, atf, order, k);
          visits := visits + [Visit(dvrField, atf[k].term)];
          order := order + [k];
          pending := pending - {k};
        }
      }
    }

    /**
     * Visits every term of every requested field of document `InternalDocNumber`, field by
     * field, each key of a field's map once. Nothing is visited without a document, an error
     * is returned for any other number, and absent fields are skipped.
     */
    method VisitDocumentValues(number: nat) returns (visits: seq<Visit>, err: Option<Error>, ghost orders: seq<seq<Term>>)
      requires s.Valid()
      ensures s.doc.None? ==> visits == [] && err == None
      ensures s.doc.Some? && number != Postings.InternalDocNumber ==>
        visits == [] && err == Some(UnknownDocNumber(number))
      ensures s.doc.Some? && number == Postings.InternalDocNumber ==>
        && err == None
        && |orders| == |fields|
        && (forall m :: 0 <= m < |fields| ==> Enumerates(orders[m], FreqsOrEmpty(s.Analyzed(), fields[m]).Keys))
        && visits == AllVisits(s.Analyzed(), fields, orders)
    {
      visits, orders := [], [];
      if s.doc.None? {
        return visits, None, orders;
      }
      if number != Postings.InternalDocNumber {
        return visits, Some(UnknownDocNumber(number)), orders;
      }
      ghost var t := s.Analyzed();
      for i := 0 to |fields|
        invariant |orders| == i
        invariant forall m :: 0 <= m < i ==> Enumerates(orders[m], FreqsOrEmpty(t, fields[m]).Keys)
        invariant visits == AllVisits(t, fields[..i], orders)
      {
        var fieldVisits;
        ghost var order;
        fieldVisits, order := VisitField(fields[i]);
        visits := visits + fieldVisits;
        AllVisitsSnoc(t, fields, orders, order);
        orders := orders + [order];
      }
      assert fields[..|fields|] == fields;
      err := None;
    }
  }
}
