/**
 * Postings of the single virtual document and the one-shot posting iterator over one term
 * of one field (`TermFieldReader`).
 */
module Postings {
  import opened Wrappers
  import opened Terms
  import opened Analysis

  /** The number of the one document the adapter holds; no other number is ever valid. */
  const InternalDocNumber: nat := 0

  /** A term location as the search pipeline sees it. */
  datatype Location = Location(field: string, start: int, end: int, pos: int)

  /**
   * The posting's normalisation factor. The source computes `1/sqrt(length)` rounded through
   * single precision; the model records only that it was computed, and from which length.
   */
  datatype Norm = Unset | InverseSqrtOfLength(length: int)

  /** One occurrence record: term, document number, frequency, norm and locations. */
  datatype Posting = Posting(term: Term, num: nat, freq: nat, norm: Norm, locs: seq<Location>) {
    /** The posting renumbered to document `n`; nothing else about it changes. */
    function SetNumber(n: nat): (p: Posting)
      ensures p.num == n
      ensures p.term == term && p.freq == freq && p.norm == norm && p.locs == locs
    {
      this.(num := n)
    }
  }

  function ToLocation(loc: TokenLocation): Location
  {
    Location(loc.field, loc.start, loc.end, loc.position)
  }

  /** The location-copy loop: one entry per analyzed location, with start, end, position and field copied. */
  method CopyLocations(locs: seq<TokenLocation>) returns (r: seq<Location>)
    ensures |r| == |locs|
    ensures forall i :: 0 <= i < |locs| ==>
      r[i].start == locs[i].start && r[i].end == locs[i].end && r[i].pos == locs[i].position && r[i].field == locs[i].field
  {
    r := [];
    for i := 0 to |locs|
      invariant |r| == i
      invariant forall j :: 0 <= j < i ==> r[j] == ToLocation(locs[j])
    {
      r := r + [ToLocation(locs[i])];
    }
  }

  /**
   * The posting a reader yields: always document `InternalDocNumber` and the term of its
   * frequency record; frequency, norm and locations only when asked for.
   */
  function PostingFor(tf: TokenFreq, len: int, includeFreq: bool, includeNorm: bool, includeTermVectors: bool): Posting
  {
    Posting(
      tf.term,
      InternalDocNumber,
      if includeFreq then tf.frequency else 0,
      if includeNorm then InverseSqrtOfLength(len) else Unset,
      if includeTermVectors then seq(|tf.locations|, i requires 0 <= i < |tf.locations| => ToLocation(tf.locations[i])) else [])
  }

  class TermFieldReader {
    const tf: Option<TokenFreq>
    const len: int
    const includeFreq: bool
    const includeNorm: bool
    const includeTermVectors: bool
    var done: bool

    /** A reader that can still yield has a frequency record to yield from. */
    ghost predicate Valid()
      reads this
    {
      !done ==> tf.Some?
    }

    /** The reader for an absent field or term: exhausted from the start. */
    constructor NewEmpty()
      ensures Valid() && done
      ensures tf == None && len == 0 && !includeFreq && !includeNorm && !includeTermVectors
    {
      tf := None;
      len := 0;
      includeFreq, includeNorm, includeTermVectors := false, false, false;
      done := true;
    }

    constructor NewFromTokenFreqAndLen(tf: TokenFreq, l: int, includeFreq: bool, includeNorm: bool, includeTermVectors: bool)
      ensures Valid() && !done
      ensures this.tf == Some(tf) && len == l
      ensures this.includeFreq == includeFreq && this.includeNorm == includeNorm
      ensures this.includeTermVectors == includeTermVectors
    {
      this.tf := Some(tf);
      len := l;
      this.includeFreq, this.includeNorm, this.includeTermVectors := includeFreq, includeNorm, includeTermVectors;
      done := false;
    }

    /** Yields the one posting, then nothing, for ever. */
    method Next() returns (p: Option<Posting>)
      requires Valid()
      modifies this`done
      ensures Valid() && done
      ensures old(done) ==> p == None
      ensures !old(done) ==> p == Some(PostingFor(tf.value, len, includeFreq, includeNorm, includeTermVectors))
    {
      if done {
        return None;
      }
      var t := tf.value;
      var freq := 0;
      if includeFreq {
        freq := t.frequency;
      }
      var norm := Unset;
      if includeNorm {
        norm := InverseSqrtOfLength(len);
      }
      var locs: seq<Location> := [];
      if includeTermVectors {
        locs := CopyLocations(t.locations);
        assert forall i :: 0 <= i < |locs| ==> locs[i] == ToLocation(t.locations[i]);
        assert locs == seq(|t.locations|, i requires 0 <= i < |t.locations| => ToLocation(t.locations[i]));
      }
      done := true;
      return Some(Posting(t.term, InternalDocNumber, freq, norm, locs));
    }

    /** Seeks to `docNum` or its successor: past the one document this exhausts the reader. */
    method Advance(docNum: nat) returns (p: Option<Posting>)
      requires Valid()
      modifies this`done
      ensures Valid() && done
      ensures old(done) || docNum > InternalDocNumber ==> p == None
      ensures !old(done) && docNum <= InternalDocNumber ==>
        p == Some(PostingFor(tf.value, len, includeFreq, includeNorm, includeTermVectors))
    {
      if done {
        return None;
      }
      if docNum > InternalDocNumber {
        done := true;
        return None;
      }
      p := Next();
    }

    /** The number of postings the reader covers: one exactly when it has a frequency record. */
    function Count(): (c: nat)
      ensures c <= 1
      ensures c == 1 <==> tf.Some?
    {
      if tf.Some? then 1 else 0
    }

    /** Whether the reader is exhausted; a reader that is not has its posting to yield. */
    function Empty(): (e: bool)
      reads this
      requires Valid()
      ensures e == done
      ensures !e ==> Count() == 1
    {
      done
    }
  }
}
