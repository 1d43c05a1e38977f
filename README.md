# sour, modelled in Dafny

`sour` is a single-document search index. It takes one analyzed document, builds per-field
tables of token frequencies and lengths, and serves these back through the segment-reader
interface of a search library:
- term dictionaries for existence lookups;
- dictionary iterators filtered by an automaton;
- a postings reader that yields at most one posting, for the fixed internal document number 0;
- a doc-value reader that replays the terms of chosen fields;
- constant collection statistics.

This project models that core and proves, over all inputs, what each operation promises.

Modules (one file each):
- `Terms` (`terms.dfy`): terms as byte strings, Go's byte-wise string order and the `sort.Strings` step.
- `Analysis` (`analysis.dfy`): the analyzed document and the field tables that analysis builds.
- `Automata` (`automaton.dfy`): the automaton and `automatonMatch`.
- `Postings` (`term.dfy`): the term field reader (`term.go`).
- `Dictionaries` (`dict.dfy`): the dictionary and the dictionary iterator (`dict.go`).
- `CollStats` (`collstats.dfy`): collection statistics (`collstats.go`).
- `Adapter` (`sour.dfy`): the `Sour` object (`sour.go`).
- `DocValues` (`docvalue.dfy`): the doc-value reader (`docvalue.go`).
- `Scenarios` (`scenarios.dfy`): a worked dictionary-iterator example.
- Small shared helpers: `Wrappers` (`wrappers.dfy`) and `Collections` (`collections.dfy`).

How the model is built:
- `Sour`, `TermFieldReader` and `DictionaryIterator` are classes whose methods update fields in place, as in the source. `DocValueReader` is a class with two constant fields; its one method changes nothing.
- The analysis tables are also given as a value, `Tables`. The class invariant `Sour.Valid` ties the fields to `AnalyzedTables(doc)`, a fold over the document's fields.
- Lemmas relate that fold to reference definitions over the document itself (`DocNames`, `TermKeys`, `TotalLength`). The field names, term sets and lengths the queries return are stated against those definitions. The records a query hands over, such as the token frequency a postings reader yields or the entries the doc-value reader visits, are stated against the tables, through `FreqsOrEmpty`.
- Document analysis and the library's token-frequency merge are outside the model. The analyzed document is a sequence of fields: a name, a term-to-frequency map and a length. The merge is a parameter constrained only to return a map whose keys are the union of both inputs' keys.
- A Go map yields its keys in no fixed order. Loops over a map choose their next key arbitrarily (`:|`), so every proof holds for any order.

## Model

| member | source | states |
|---|---|---|
| Terms.LessIrreflexive | sour.go:230 | no term sorts strictly before itself under byte-wise order |
| Terms.LessTransitive | sour.go:230 | byte-wise string order is transitive |
| Terms.LessTotal | sour.go:230 | any two distinct terms are ordered one way or the other |
| Terms.LessAsymmetric | sour.go:230 | the order never runs both ways |
| Terms.LessEqTransitive | sour.go:230 | the non-strict order is transitive |
| Terms.Insert | sour.go:230 | one insertion step of the sort adds exactly the inserted term to the multiset |
| Terms.InsertSorted | sour.go:230 | inserting into a sorted list keeps it sorted |
| Terms.SortStrings | sour.go:230 | `sort.Strings`: the result is sorted and is a permutation of the input |
| Terms.SortedPermutationOfDistinct | sour.go:226-230 | sorting distinct keys gives a strictly ascending list with the same key set |
| Terms.StrictlySortedUnique | sour.go:221-232 | two strictly ascending lists with the same key set are equal, so recomputing a field's list cannot give a different one |
| Analysis.BackfillAttributes | sour.go:157-164 | back-filling keeps the keys, terms, frequencies and every location attribute except the field; a set location field is kept, and an empty one becomes the field's name |
| Analysis.BackfillLocationFields | sour.go:158-164 | the loop over all locations produces exactly the back-filled map |
| Analysis.WellFormedNoDup | sour.go:166-171 | in well-formed tables the names are distinct and the index map has exactly the listed names as keys |
| Analysis.FreqsOrEmpty | sour.go:235-241 | the map in the named field's slot, or the empty map for an absent name |
| Analysis.AddField | sour.go:166-175 | folding a field in keeps the tables well-formed: equal lengths, `indexes[names[i]] == i` |
| Analysis.AddFieldNew | sour.go:166-171 | a new name is appended at index `len(fieldTokenFreqs)` with its map and length; existing slots are unchanged |
| Analysis.AddFieldRepeat | sour.go:172-175 | a repeated name adds no slot; its slot's keys become the union with the field's keys and its length is added; other slots are unchanged |
| Analysis.AnalyzedTables | sour.go:178-185 | analyzing a document field by field gives well-formed tables |
| Analysis.AnalyzedTablesSnoc | sour.go:182-184 | analyzing one more field folds that field into the tables built from the fields before it |
| Analysis.SlotStep | sour.go:166-175 | one fold step on a name's slot: a field of that name adds its length and its keys, any other field leaves both alone |
| Analysis.OtherSlotStep | sour.go:166-175 | folding in a field of another name keeps a recorded name's index and its frequencies |
| Analysis.SingleSlot | sour.go:154-171 | the slot of a name that occurs once in the document holds exactly that field's back-filled frequencies, unmerged |
| Analysis.AbsentFieldContributesNothing | sour.go:87-91 | a name the document does not have has no terms and total length 0 |
| Analysis.AnalyzedNameSet | sour.go:166-171 | the recorded names are exactly the document's field names |
| Analysis.AnalyzedFirstSeen | sour.go:166-171 | the recorded names are in order of first appearance in the document |
| Analysis.FirstSeenAppendOld | sour.go:172-175 | a repeated name leaves every first occurrence where it was, so the recorded names keep their order |
| Analysis.FirstSeenAppendNew | sour.go:166-171 | a name not seen before is appended last and is first seen after every name already recorded |
| Analysis.AnalyzedNames | sour.go:166-171 | the recorded names are distinct, are exactly the document's names, and are in first-seen order |
| Analysis.AnalyzedSlot | sour.go:166-175 | a name's slot holds the union of the term keys and the sum of the lengths of all same-named fields |
| Automata.Matcher | sour.go:123-125 | the include closure accepts a term iff every state after each byte can match and the final state is a match |
| Automata.RunCons | sour.go:100-102 | feeding a term byte by byte equals feeding its first byte, then the rest |
| Automata.MatchFromIff | sour.go:101-107 | matching from a state succeeds iff every state reached after a byte can still match and the final state is a match |
| Automata.MatchesIff | sour.go:99-108 | a term matches iff every state from `Start` on after each byte satisfies `CanMatch` and the final state satisfies `IsMatch` |
| Automata.AutomatonMatch | sour.go:99-108 | the loop with early exit returns exactly the match relation above |
| Postings.InternalDocNumber | sour.go:28 | the one document's number is 0 |
| Postings.Posting.SetNumber | term.go:56-58 | the renumbered posting has the new number and the same term, frequency, norm and locations |
| Postings.CopyLocations | term.go:117-135 | as many locations as the token frequency has, each copying start, end, position and field |
| Postings.TermFieldReader.constructor | term.go:81-98 | the empty reader starts exhausted with no token frequency; a reader built from a token frequency starts ready, keeping the length and the three flags |
| Postings.TermFieldReader.Next | term.go:104-138 | an exhausted reader yields nothing; otherwise one posting for document 0 with the record's term, frequency only with `includeFreq`, norm only with `includeNorm`, copied locations only with `includeTermVectors`; afterwards the reader is exhausted |
| Postings.TermFieldReader.Advance | term.go:140-152 | nothing once exhausted; a target past document 0 exhausts the reader and yields nothing; target 0 behaves as `Next` |
| Postings.TermFieldReader.Count | term.go:154-159 | 1 exactly when a token frequency is present, else 0 |
| Postings.TermFieldReader.Empty | term.go:165-167 | equals `done`; a reader that is not empty has a posting to give |
| Dictionaries.Dictionary.Contains | dict.go:30-38 | the sentinel contains nothing; otherwise a key is contained exactly when it is a key of the field's map |
| Dictionaries.FieldDictContainsEmpty | dict.go:22 | the shared sentinel has a nil map and contains no key |
| Dictionaries.FilterMembers | dict.go:78-92 | a term is enumerated iff it is in the list and accepted by the include function |
| Dictionaries.FilterAcceptAll | dict.go:81 | a nil include function enumerates every term, in order |
| Dictionaries.FilterStrictlySorted | dict.go:78-92 | filtering an ascending list keeps it ascending |
| Dictionaries.FilterSortedSet | dict.go:78-92 | filtering a field's sorted term set yields exactly the accepted terms, ascending, each once |
| Dictionaries.DictionaryIterator.constructor | dict.go:65-76 | `NewFieldDictEmpty` has no terms and nothing to yield; `NewDictionaryIteratorWithTerms` yields the filtered terms from index 0 |
| Dictionaries.DictionaryIterator.Next | dict.go:78-92 | returns the first remaining accepted term with count 1 and drops it from the remaining list; once nothing is left it returns nil; the index only grows and stays within the list |
| CollStats.CollectionStats.TotalDocumentCount | collstats.go:23-25 | always 1 |
| CollStats.CollectionStats.DocumentCount | collstats.go:27-30 | always 1 |
| CollStats.CollectionStats.SumTotalTermFrequency | collstats.go:32-35 | always 1 |
| CollStats.CollectionStats.Merge | collstats.go:37-39 | merging changes nothing |
| CollStats.CollStats | collstats.go:19-21 | the one shared statistics value: counts of 1 and a merge that returns it unchanged |
| Adapter.Sour.constructor | sour.go:44-55 | `New` has no document, empty tables and an empty cache; `NewWithDocument` holds the analysis of the given document and an empty cache |
| Adapter.Sour.NewField | sour.go:154-176 | the tables become `AddField` of the old tables with the back-filled field |
| Adapter.Sour.Analyze | sour.go:178-185 | folding every field of the document into empty tables gives `AnalyzedTables(doc)` |
| Adapter.Sour.Reset | sour.go:187-202 | the tables describe only the new document; every cached term list is emptied and the cached names are kept; the invariant holds again |
| Adapter.Sour.FieldIndex | sour.go:204-209 | success exactly for a recorded name, giving its position in the names; otherwise the "no field named" error |
| Adapter.Sour.Fields | sour.go:211-213 | names without duplicates, exactly the document's field names, in first-seen order; empty without a document |
| Adapter.Sour.TokenFreqsAndLen | sour.go:235-241 | fails exactly for a name the document lacks; otherwise gives the slot's map, whose keys are the union of the same-named fields' terms, and the sum of their lengths; for a name that occurs once the map is that field's back-filled map |
| Adapter.Sour.SortedTermsForField | sour.go:215-233 | fails exactly for an unknown name and leaves the cache alone; otherwise returns the field's term keys ascending, each once, caches that list, and returns a non-empty cached list unchanged |
| Adapter.CollectKeys | sour.go:226-229 | the collected list holds every key of the field's table and nothing else, each exactly once, in whatever order the map yields |
| Adapter.Sour.CollectionStats | sour.go:79-81 | every field gets the shared statistics value: counts of 1 and a merge that changes nothing |
| Adapter.Sour.DictionaryLookup | sour.go:83-97 | the empty sentinel without a document or for an absent field; the result contains a key iff the document has that term in the field |
| Adapter.Sour.DictionaryIterator | sour.go:110-126 | empty iterator without a document or for an absent field; otherwise over the field's sorted terms with the automaton as filter, enumerating exactly the matching terms, ascending, each once, whatever `start` and `end` are; the cache is unchanged in the fallback cases and otherwise holds the iterator's list for the field |
| Adapter.MatcherFilterSortedSet | sour.go:123-125 | filtering an ascending duplicate-free term list with the automaton's closure leaves exactly the terms the automaton accepts, still ascending and duplicate-free |
| Adapter.Sour.PostingsIterator | sour.go:128-146 | the exhausted reader without a document, for an absent field or for an absent term; otherwise a ready reader over the term's record, with the field's total length and the given flags; for a field name that occurs once the record is the field's own record with its locations back-filled: a location with no field gets this field's name |
| DocValues.AllVisitsCover | docvalue.go:36-43 | in any enumeration order, a (field, term) pair is visited iff the field is requested and one of its map entries carries the term; absent fields contribute nothing |
| DocValues.FieldVisitsSnoc | docvalue.go:39-40 | visiting one more map entry appends exactly one visit, of that entry's term |
| DocValues.AllVisitsSnoc | docvalue.go:37-42 | visiting one more requested field appends exactly that field's visits |
| DocValues.DocValueReader.constructor | sour.go:67-72 | the reader keeps the adapter and the requested fields |
| DocValues.DocValueReader.VisitField | docvalue.go:37-42 | one requested field: every key of its map visited once as (field, term) in some enumeration order, nothing for an absent field |
| DocValues.DocValueReader.VisitDocumentValues | docvalue.go:28-45 | no visit and no error without a document; no visit and an "unknown doc number" error for any number but 0; otherwise requested fields in order, every key of each known field's map once, absent fields skipped, no error |
| Scenarios.PrefixAutomatonMatches | sour.go:99-108 | an automaton for "starts with byte b" accepts exactly those terms |
| Scenarios.PrefixWalk | dict.go:78-92 | over "alice", "bob", "carol" with the "starts with b" automaton, the first `Next` yields ("bob", 1) and the second yields nothing |
| Scenarios.NameDocAnalysis | sour.go:178-185 | analyzing a document with one field "name" holding alice, bob and carol records that one name and those three terms |
| Scenarios.AdapterPrefixIterator | sour.go:113-126 | for that document, the adapter's iterator over "name" with the "starts with b" automaton has exactly ["bob"] left to enumerate |
| Scenarios.AdapterPrefixWalk | sour.go:113-126 | for that document, the adapter's iterator over "name" with the "starts with b" automaton yields ("bob", 1) on the first `Next` and nothing on the second |
| Scenarios.AdapterMissingField | sour.go:118-122 | for that document, the adapter's iterator over a field it lacks yields nothing |

## Left out

- `Sour.Search` (sour.go:57-65): it hands the request to the search library's searcher and collector pipeline, which is outside the model.
- Document analysis (`doc.Analyze()`, sour.go:180) is the analysis library's tokenizer. The model starts from the analyzed fields.
- `TokenFrequencies.MergeAll` (sour.go:173) belongs to the analysis library. It is a parameter of `Sour`, and the only promise assumed is that the result's keys are the union of both inputs' keys. Merged frequencies and locations are not modelled.
- Postings.TermFieldReader.Next: the norm `float64(float32(1/sqrt(len)))` (term.go:100-102) is floating point. It is recorded symbolically as `InverseSqrtOfLength(len)`, so rounding and the infinite norm of length 0 are not modelled.
- The automaton's internals belong to the search library. It is an abstract state type with its four operations. A nil automaton makes the filter closure panic (sour.go:123-125); the model has no nil automaton.
- Reuse of memory is not modelled: the pre-allocated `Posting` and `DictEntry` returned by pointer (term.go:108, dict.go:85-89), the location array grown by capacity (term.go:119-126), and slice truncation that keeps capacity (sour.go:190-197). Results are fresh values. As a consequence, a term list handed out before `Reset` can be overwritten in place after it in the source; the model does not capture that aliasing.
- The shared sentinels `termFieldReaderEmpty` and `fieldDictEmpty` (term.go:81, dict.go:65) are modelled as freshly built empty objects with the same contents; their identity and sharing are not modelled.
- Go map iteration order is unspecified. The model proves each property for every order rather than picking one.
- Error results that are always nil (`Contains`, `Next`, `Advance`, `DictionaryLookup`, `DictionaryIterator`, `PostingsIterator`, `CollectionStats`, `DocumentValueReader`) are not modelled as outputs.
- `VisitStoredFields`, `Close` and `Size` do nothing and return constants (sour.go:74-77, 148-150; term.go:161-163, 169-171; dict.go:40-42, 94-96). None of these has a member.
- The getters of `Location` (term.go:31-42), of `Posting` (`Number`, `Frequency`, `Norm`, `Locations`, term.go:53-55, 59-67) and of `DictEntry` (`Term`, `Count`, dict.go:57-63) only read a field. They are the datatype fields of the model and have no member of their own. `Posting.SetNumber` writes one and is modelled on values as `Postings.Posting.SetNumber`; that it updates the reader's one shared posting in place is not modelled.
- The `s` back-pointer of `Dictionary` (dict.go:25) is never read and is not modelled.
- The configuration `cfg` (sour.go:31) is only passed to `Search` and is not modelled.
- `Reset(nil)` panics in the source when it analyzes the missing document (sour.go:180). `Adapter.Sour.Reset` takes a document value, so that panic is not modelled.
- The source changes the caller's analyzed document in place. The back-fill writes through each location (sour.go:158-162). The map of a name's first field becomes the slot itself (sour.go:170), and `MergeAll` then grows it with later same-named fields (sour.go:173). The model builds new maps and leaves the document value untouched, so this aliasing is not captured.
- For a field name that occurs more than once, the slot's locations are whatever the abstract merge produces, so that an empty location field ends up as the field's name is proved only for names that occur once (`Analysis.SingleSlot`).
- Widths: `uint64` document numbers and frequencies and `int` lengths are unbounded integers in the model, so overflow of `fieldLens[idx] += length` (sour.go:174) is not modelled.
- Go's `%d` error text (docvalue.go:33) and the "no field named" text (sour.go:208) are error constructors carrying the number or the name.
- The visitor callback of `VisitDocumentValues` is modelled as the returned sequence of its calls in order.
