/**
 * What the adapter builds from one analyzed document: the analyzer's output types, the
 * back-fill of location field names, and the parallel per-field tables (name index,
 * names in first-seen order, token frequencies, lengths) that `newField` maintains.
 */
module Analysis {
  import opened Collections
  import opened Terms

  /** One occurrence of a term: the field it was found in, byte offsets and token position. */
  datatype TokenLocation = TokenLocation(field: string, start: int, end: int, position: int)

  /** A term of a field with its occurrence count and locations. */
  datatype TokenFreq = TokenFreq(term: Term, frequency: nat, locations: seq<TokenLocation>)

  /** A field's analysis: its distinct terms, each with its occurrence data. */
  type TokenFrequencies = map<Term, TokenFreq>

  /** One analyzed field of a document: its name, token frequencies and token count. */
  datatype Field = Field(name: string, freqs: TokenFrequencies, length: nat)

  /** An analyzed document: its fields in order; a name may occur more than once. */
  type Document = seq<Field>

  /** What the analysis library's merge of token frequencies promises: the union of the key sets. */
  ghost predicate KeepsKeys(merge: (TokenFrequencies, string, TokenFrequencies) -> TokenFrequencies)
  {
    forall a, name, b :: merge(a, name, b).Keys == a.Keys + b.Keys
  }

  /**
   * The merge applied when a field name recurs (`TokenFrequencies.MergeAll`): its arguments are
   * the existing frequencies, the field name and the incoming frequencies.
   */
  type MergeFn = f: (TokenFrequencies, string, TokenFrequencies) -> TokenFrequencies | KeepsKeys(f)
    witness (a: TokenFrequencies, name: string, b: TokenFrequencies) => a + b

  // ----- back-fill of location field names -----

  function BackfillLocation(loc: TokenLocation, name: string): TokenLocation
  {
    if loc.field == "" then loc.(field := name) else loc
  }

  function BackfillFreq(tf: TokenFreq, name: string): TokenFreq
  {
    tf.(locations := seq(|tf.locations|, i requires 0 <= i < |tf.locations| => BackfillLocation(tf.locations[i], name)))
  }

  /** The analyzer's frequencies with every location that names no field attributed to `name`. */
  function Backfilled(af: TokenFrequencies, name: string): TokenFrequencies
  {
    map k | k in af :: BackfillFreq(af[k], name)
  }

  /** Back-filling keeps every term and its frequency and attributes every location to a field. */
  lemma BackfillAttributes(af: TokenFrequencies, name: string)
    ensures Backfilled(af, name).Keys == af.Keys
    ensures forall k :: k in af ==>
      var tf, tf' := af[k], Backfilled(af, name)[k];
      && tf'.term == tf.term && tf'.frequency == tf.frequency
      && |tf'.locations| == |tf.locations|
      && forall i :: 0 <= i < |tf.locations| ==>
           && tf'.locations[i].(field := tf.locations[i].field) == tf.locations[i]
           && (tf.locations[i].field != "" ==> tf'.locations[i].field == tf.locations[i].field)
           && (tf.locations[i].field == "" ==> tf'.locations[i].field == name)
           && (name != "" ==> tf'.locations[i].field != "")
  {
  }

  /** The nested loop over terms and their locations that fills in missing location fields. */
  method BackfillLocationFields(af: TokenFrequencies, name: string) returns (r: TokenFrequencies)
    ensures r == Backfilled(af, name)
  {
    r := map[];
    var pending := af.Keys;
    while pending != {}
      invariant pending <= af.Keys
      invariant r.Keys == af.Keys - pending
      invariant forall k :: k in r ==> r[k] == BackfillFreq(af[k], name)
      decreases pending
    {
      var k :| k in pending;
      var tf := af[k];
      var locs: seq<TokenLocation> := [];
      for i := 0 to |tf.locations|
        invariant |locs| == i
        invariant forall j :: 0 <= j < i ==> locs[j] == BackfillLocation(tf.locations[j], name)
      {
        var loc := tf.locations[i];
        if loc.field == "" {
          loc := loc.(field := name);
        }
        locs := locs + [loc];
      }
      r := r[k := tf.(locations := locs)];
      pending := pending - {k};
    }
  }

  // ----- the parallel per-field tables -----

  /** The adapter's analysis state: `fieldIndexes`, `fieldNames`, `fieldTokenFreqs`, `fieldLens`. */
  datatype Tables = Tables(indexes: map<string, nat>, names: seq<string>, freqs: seq<TokenFrequencies>, lens: seq<int>)

  const NoTables := Tables(map[], [], [], [])

  /** The tables are parallel and the index map is the inverse of the name list. */
  ghost predicate WellFormed(t: Tables)
  {
    && |t.names| == |t.freqs| == |t.lens|
    && (forall name :: name in t.indexes ==> t.indexes[name] < |t.names| && t.names[t.indexes[name]] == name)
    && (forall i :: 0 <= i < |t.names| ==> t.names[i] in t.indexes && t.indexes[t.names[i]] == i)
  }

  lemma WellFormedNoDup(t: Tables)
    requires WellFormed(t)
    ensures NoDup(t.names)
    ensures forall name :: name in t.indexes <==> name in t.names
  {
  }

  /** The frequencies recorded for `name`, or none for a field the tables do not hold. */
  function FreqsOrEmpty(t: Tables, name: string): (r: TokenFrequencies)
    requires WellFormed(t)
    ensures name !in t.names ==> r == map[]
    ensures name in t.names ==> exists i :: 0 <= i < |t.names| && t.names[i] == name && r == t.freqs[i]
  {
    if name in t.indexes then t.freqs[t.indexes[name]] else map[]
  }

  /** Folds one field into the tables: a new name gets the next slot, a repeated name is merged into its slot. */
  function AddField(t: Tables, f: Field, merge: MergeFn): (r: Tables)
    requires WellFormed(t)
    ensures WellFormed(r)
  {
    var af := Backfilled(f.freqs, f.name);
    if f.name !in t.indexes then
      Tables(t.indexes[f.name := |t.freqs|], t.names + [f.name], t.freqs + [af], t.lens + [f.length])
    else
      var i := t.indexes[f.name];
      Tables(t.indexes, t.names, t.freqs[i := merge(t.freqs[i], f.name, af)], t.lens[i := t.lens[i] + f.length])
  }

  /** A first occurrence is appended to all three lists, at the index the map records for it. */
  lemma AddFieldNew(t: Tables, f: Field, merge: MergeFn)
    requires WellFormed(t) && f.name !in t.names
    ensures var r := AddField(t, f, merge);
      && r.names == t.names + [f.name]
      && r.indexes == t.indexes[f.name := |t.names|]
      && r.freqs == t.freqs + [Backfilled(f.freqs, f.name)]
      && r.lens == t.lens + [f.length]
  {
    WellFormedNoDup(t);
  }

  /** A repeated name adds no entry: its length is added and its terms merged into its own slot only. */
  lemma AddFieldRepeat(t: Tables, f: Field, merge: MergeFn)
    requires WellFormed(t) && f.name in t.names
    ensures var r := AddField(t, f, merge); var i := t.indexes[f.name];
      && r.names == t.names && r.indexes == t.indexes
      && r.lens == t.lens[i := t.lens[i] + f.length]
      && r.freqs[i].Keys == t.freqs[i].Keys + f.freqs.Keys
      && (forall j :: 0 <= j < |t.freqs| && j != i ==> r.freqs[j] == t.freqs[j])
  {
    WellFormedNoDup(t);
    BackfillAttributes(f.freqs, f.name);
  }

  /** The tables built from a whole document, field by field in document order. */
  function AnalyzedTables(doc: Document, merge: MergeFn): (t: Tables)
    ensures WellFormed(t)
    decreases |doc|
  {
    if doc == [] then NoTables
    else AddField(AnalyzedTables(doc[..|doc| - 1], merge), doc[|doc| - 1], merge)
  }

  /** Analyzing one more field of the document is one more fold step. */
  lemma AnalyzedTablesSnoc(doc: Document, i: nat, merge: MergeFn)
    requires i < |doc|
    ensures AnalyzedTables(doc[..i + 1], merge) == AddField(AnalyzedTables(doc[..i], merge), doc[i], merge)
  {
    assert doc[..i + 1][..i] == doc[..i];
  }

  // ----- reference descriptions of the tables, read off the document -----

  /** The field names of a document, in document order, repetitions included. */
  function DocNames(doc: Document): (r: seq<string>)
    ensures |r| == |doc| && forall i :: 0 <= i < |doc| ==> r[i] == doc[i].name
  {
    seq(|doc|, i requires 0 <= i < |doc| => doc[i].name)
  }

  /** Position of the first occurrence of `x` in `s`. */
  function FirstIndex(s: seq<string>, x: string): (r: nat)
    requires x in s
    ensures r < |s| && s[r] == x
    ensures forall k :: 0 <= k < r ==> s[k] != x
  {
    if s[0] == x then 0 else 1 + FirstIndex(s[1..], x)
  }

  lemma FirstIndexAppend(s: seq<string>, y: string, x: string)
    requires x in s
    ensures FirstIndex(s + [y], x) == FirstIndex(s, x)
  {
    assert (s + [y])[FirstIndex(s, x)] == x;
  }

  /** `a` and `b` both occur in `docNames`, and `a` occurs first. */
  ghost predicate FirstBefore(docNames: seq<string>, a: string, b: string)
  {
    a in docNames && b in docNames && FirstIndex(docNames, a) < FirstIndex(docNames, b)
  }

  /** `names` lists names in the order of their first occurrence in `docNames`. */
  ghost predicate FirstSeenOrder(names: seq<string>, docNames: seq<string>)
  {
    forall i, j :: 0 <= i < j < |names| ==> FirstBefore(docNames, names[i], names[j])
  }

  /** Sum of the lengths of every field of the document named `name`. */
  function TotalLength(doc: Document, name: string): int
    decreases |doc|
  {
    if doc == [] then 0
    else TotalLength(doc[..|doc| - 1], name) + (if doc[|doc| - 1].name == name then doc[|doc| - 1].length else 0)
  }

  /** Union of the term sets of every field of the document named `name`. */
  function TermKeys(doc: Document, name: string): set<Term>
    decreases |doc|
  {
    if doc == [] then {}
    else TermKeys(doc[..|doc| - 1], name) + (if doc[|doc| - 1].name == name then doc[|doc| - 1].freqs.Keys else {})
  }

  lemma {:induction false} AbsentFieldContributesNothing(doc: Document, name: string)
    requires name !in DocNames(doc)
    ensures TotalLength(doc, name) == 0 && TermKeys(doc, name) == {}
    decreases |doc|
  {
    if doc != [] {
      var p := doc[..|doc| - 1];
      assert DocNames(p) == DocNames(doc)[..|doc| - 1];
      AbsentFieldContributesNothing(p, name);
    }
  }

  /** The analyzed tables name exactly the fields of the document. */
  lemma {:induction false} AnalyzedNameSet(doc: Document, merge: MergeFn)
    ensures forall x :: x in AnalyzedTables(doc, merge).names <==> x in DocNames(doc)
    decreases |doc|
  {
    if doc != [] {
      var n := |doc| - 1;
      var p, f := doc[..n], doc[n];
      var tp := AnalyzedTables(p, merge);
      assert AnalyzedTables(doc, merge) == AddField(tp, f, merge);
      AnalyzedNameSet(p, merge);
      assert DocNames(doc) == DocNames(p) + [f.name];
      if f.name in tp.names {
        AddFieldRepeat(tp, f, merge);
      } else {
        AddFieldNew(tp, f, merge);
      }
    }
  }

  /** Appending a name moves no first occurrence. */
  lemma FirstBeforeAppend(dn: seq<string>, y: string, a: string, b: string)
    requires FirstBefore(dn, a, b)
    ensures FirstBefore(dn + [y], a, b)
  {
    FirstIndexAppend(dn, y, a);
    FirstIndexAppend(dn, y, b);
  }

  /** A repeated name changes no first occurrence, so the order of the names already seen stands. */
  lemma FirstSeenAppendOld(names: seq<string>, dn: seq<string>, y: string)
    requires FirstSeenOrder(names, dn)
    ensures FirstSeenOrder(names, dn + [y])
  {
    forall i, j | 0 <= i < j < |names| ensures FirstBefore(dn + [y], names[i], names[j]) {
      FirstBeforeAppend(dn, y, names[i], names[j]);
    }
  }

  /** A new name is seen last, after every name already listed. */
  lemma FirstSeenAppendNew(names: seq<string>, dn: seq<string>, y: string)
    requires FirstSeenOrder(names, dn)
    requires forall x :: x in names ==> x in dn
    requires y !in dn
    ensures FirstSeenOrder(names + [y], dn + [y])
  {
    var names' := names + [y];
    assert FirstIndex(dn + [y], y) == |dn|;
    forall i, j | 0 <= i < j < |names'| ensures FirstBefore(dn + [y], names'[i], names'[j]) {
      assert names'[i] == names[i] && names[i] in dn;
      FirstIndexAppend(dn, y, names[i]);
      if j < |names| {
        assert names'[j] == names[j];
        FirstBeforeAppend(dn, y, names[i], names[j]);
      }
    }
  }

  /** The analyzed tables list the names in the order of their first occurrence in the document. */
  lemma {:induction false} AnalyzedFirstSeen(doc: Document, merge: MergeFn)
    ensures FirstSeenOrder(AnalyzedTables(doc, merge).names, DocNames(doc))
    decreases |doc|
  {
    if doc != [] {
      var n := |doc| - 1;
      var p, f := doc[..n], doc[n];
      var tp := AnalyzedTables(p, merge);
      assert AnalyzedTables(doc, merge) == AddField(tp, f, merge);
      AnalyzedFirstSeen(p, merge);
      assert DocNames(doc) == DocNames(p) + [f.name];
      if f.name in tp.names {
        AddFieldRepeat(tp, f, merge);
        FirstSeenAppendOld(tp.names, DocNames(p), f.name);
      } else {
        AnalyzedNameSet(p, merge);
        AddFieldNew(tp, f, merge);
        FirstSeenAppendNew(tp.names, DocNames(p), f.name);
      }
    }
  }

  /** The analyzed tables name each field once, and the index map holds exactly those names. */
  lemma AnalyzedNames(doc: Document, merge: MergeFn)
    ensures var t := AnalyzedTables(doc, merge);
      && (forall x :: x in t.indexes <==> x in DocNames(doc))
      && (forall x :: x in t.names <==> x in DocNames(doc))
      && NoDup(t.names)
      && FirstSeenOrder(t.names, DocNames(doc))
  {
    WellFormedNoDup(AnalyzedTables(doc, merge));
    AnalyzedNameSet(doc, merge);
    AnalyzedFirstSeen(doc, merge);
  }

  /** One fold step on a name's slot: a field of that name adds its length and its keys; any other field leaves both alone. */
  lemma SlotStep(tp: Tables, f: Field, merge: MergeFn, name: string, len: int, keys: set<Term>)
    requires WellFormed(tp) && name in AddField(tp, f, merge).indexes
    requires name in tp.indexes ==> tp.lens[tp.indexes[name]] == len && tp.freqs[tp.indexes[name]].Keys == keys
    requires name !in tp.indexes ==> len == 0 && keys == {}
    ensures var t := AddField(tp, f, merge); var i := t.indexes[name];
      && t.lens[i] == len + (if f.name == name then f.length else 0)
      && t.freqs[i].Keys == keys + (if f.name == name then f.freqs.Keys else {})
  {
    WellFormedNoDup(tp);
    if f.name in tp.names {
      AddFieldRepeat(tp, f, merge);
      if name != f.name {
        assert tp.indexes[name] != tp.indexes[f.name];
      }
    } else {
      AddFieldNew(tp, f, merge);
      BackfillAttributes(f.freqs, f.name);
    }
  }

  /**
   * A field's slot holds the summed length and the union of the terms of every field of the
   * document that carries its name.
   */
  lemma {:induction false} AnalyzedSlot(doc: Document, merge: MergeFn, name: string)
    requires name in AnalyzedTables(doc, merge).indexes
    ensures var t := AnalyzedTables(doc, merge); var i := t.indexes[name];
      && t.lens[i] == TotalLength(doc, name)
      && t.freqs[i].Keys == TermKeys(doc, name)
    decreases |doc|
  {
    var n := |doc| - 1;
    var p, f := doc[..n], doc[n];
    var tp := AnalyzedTables(p, merge);
    assert AnalyzedTables(doc, merge) == AddField(tp, f, merge);
    if name in tp.indexes {
      AnalyzedSlot(p, merge, name);
    } else {
      WellFormedNoDup(tp);
      AnalyzedNameSet(p, merge);
      AbsentFieldContributesNothing(p, name);
    }
    SlotStep(tp, f, merge, name, TotalLength(p, name), TermKeys(p, name));
  }

  /** Field `p` is the only field of the document with its name. */
  ghost predicate OccursOnceAt(doc: Document, p: int)
  {
    0 <= p < |doc| && forall q :: 0 <= q < |doc| && q != p ==> doc[q].name != doc[p].name
  }

  /** A fold step for a different name leaves a recorded slot where it was, with the same frequencies. */
  lemma OtherSlotStep(tp: Tables, f: Field, merge: MergeFn, name: string)
    requires WellFormed(tp) && name in tp.indexes && f.name != name
    ensures var t := AddField(tp, f, merge);
      name in t.indexes && t.indexes[name] == tp.indexes[name] && t.freqs[t.indexes[name]] == tp.freqs[tp.indexes[name]]
  {
    WellFormedNoDup(tp);
    if f.name in tp.names {
      AddFieldRepeat(tp, f, merge);
      assert tp.indexes[name] != tp.indexes[f.name];
    } else {
      AddFieldNew(tp, f, merge);
    }
  }

  /**
   * The slot of a name that occurs once holds that field's back-filled frequencies unmerged, so
   * every location in it is attributed to a field.
   */
  lemma {:induction false} SingleSlot(doc: Document, merge: MergeFn, p: int)
    requires OccursOnceAt(doc, p)
    ensures var t := AnalyzedTables(doc, merge);
      doc[p].name in t.indexes && t.freqs[t.indexes[doc[p].name]] == Backfilled(doc[p].freqs, doc[p].name)
    decreases |doc|
  {
    var n := |doc| - 1;
    var pre, f := doc[..n], doc[n];
    var tp := AnalyzedTables(pre, merge);
    assert AnalyzedTables(doc, merge) == AddField(tp, f, merge);
    if p == n {
      AnalyzedNameSet(pre, merge);
      assert f.name !in DocNames(pre) by {
        forall q | 0 <= q < n ensures DocNames(pre)[q] != f.name {
          assert pre[q] == doc[q];
        }
      }
      AddFieldNew(tp, f, merge);
    } else {
      assert pre[p] == doc[p];
      assert OccursOnceAt(pre, p) by {
        forall q | 0 <= q < n && q != p ensures pre[q].name != pre[p].name {
          assert pre[q] == doc[q];
        }
      }
      SingleSlot(pre, merge, p);
      OtherSlotStep(tp, f, merge, doc[p].name);
    }
  }

  lemma SingleSlots(doc: Document, merge: MergeFn)
    ensures forall p :: OccursOnceAt(doc, p) ==>
      var t := AnalyzedTables(doc, merge);
      doc[p].name in t.indexes && t.freqs[t.indexes[doc[p].name]] == Backfilled(doc[p].freqs, doc[p].name)
  {
    forall p | OccursOnceAt(doc, p)
      ensures var t := AnalyzedTables(doc, merge);
        doc[p].name in t.indexes && t.freqs[t.indexes[doc[p].name]] == Backfilled(doc[p].freqs, doc[p].name)
    {
      SingleSlot(doc, merge, p);
    }
  }
}
