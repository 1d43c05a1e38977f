/**
 * The byte automaton the dictionary iterator filters terms with. Its internals belong to the
 * search library; the adapter only drives it through start, accept, can-match and is-match.
 */
module Automata {
  import opened Terms

  /** An automaton over states `S`, given by its four operations. */
  datatype Automaton<!S> = Automaton(start: S, accept: (S, byte) -> S, canMatch: S -> bool, isMatch: S -> bool)

  /** The state reached from `state` after feeding every byte of `s`, in order. */
  function Run<S>(a: Automaton<S>, state: S, s: Term): S
    decreases |s|
  {
    if s == [] then state else a.accept(Run(a, state, s[..|s| - 1]), s[|s| - 1])
  }

  /** Feeding from `state`, stopping with no match as soon as a state cannot lead to a match. */
  function MatchFrom<S>(a: Automaton<S>, state: S, s: Term): bool
    decreases |s|
  {
    if s == [] then a.isMatch(state)
    else
      var next := a.accept(state, s[0]);
      if !a.canMatch(next) then false else MatchFrom(a, next, s[1..])
  }

  /** Whether the automaton accepts the term. */
  function Matches<S>(a: Automaton<S>, term: Term): bool
  {
    MatchFrom(a, a.start, term)
  }

  /** The include-predicate the adapter hands to the dictionary iterator. */
  function Matcher<S>(a: Automaton<S>): (f: Term -> bool)
    ensures forall t :: f(t) <==>
      (forall k :: 1 <= k <= |t| ==> a.canMatch(Run(a, a.start, t[..k]))) && a.isMatch(Run(a, a.start, t))
  {
    MatchesIffAll(a);
    t => Matches(a, t)
  }

  lemma {:induction false} RunCons<S>(a: Automaton<S>, state: S, b: byte, t: Term)
    ensures Run(a, state, [b] + t) == Run(a, a.accept(state, b), t)
    decreases |t|
  {
    if t != [] {
      var n := |t| - 1;
      assert ([b] + t)[..|t|] == [b] + t[..n];
      RunCons(a, state, b, t[..n]);
    }
  }

  /**
   * The early stop is invisible in the result: a term matches exactly when every state reached
   * on the way can still match and the final state is a match.
   */
  lemma {:induction false} MatchFromIff<S>(a: Automaton<S>, state: S, s: Term)
    ensures MatchFrom(a, state, s) <==>
      (forall k :: 1 <= k <= |s| ==> a.canMatch(Run(a, state, s[..k]))) && a.isMatch(Run(a, state, s))
    decreases |s|
  {
    if s != [] {
      var b, t := s[0], s[1..];
      var next := a.accept(state, b);
      assert s == [b] + t;
      MatchFromIff(a, next, t);
      RunCons(a, state, b, t);
      forall k | 1 <= k <= |s| ensures Run(a, state, s[..k]) == Run(a, next, t[..k - 1]) {
        assert s[..k] == [b] + t[..k - 1];
        RunCons(a, state, b, t[..k - 1]);
      }
      assert Run(a, state, s[..1]) == next by {
        assert t[..0] == [];
      }
      if (forall k :: 1 <= k <= |s| ==> a.canMatch(Run(a, state, s[..k]))) {
        forall k | 1 <= k <= |t| ensures a.canMatch(Run(a, next, t[..k])) {
          assert Run(a, state, s[..k + 1]) == Run(a, next, t[..k]);
        }
      }
      if a.canMatch(next) && (forall k :: 1 <= k <= |t| ==> a.canMatch(Run(a, next, t[..k]))) {
        forall k | 1 <= k <= |s| ensures a.canMatch(Run(a, state, s[..k])) {
          if k > 1 {
            assert Run(a, state, s[..k]) == Run(a, next, t[..k - 1]);
          }
        }
      }
    }
  }

  lemma MatchesIff<S>(a: Automaton<S>, term: Term)
    ensures Matches(a, term) <==>
      (forall k :: 1 <= k <= |term| ==> a.canMatch(Run(a, a.start, term[..k]))) && a.isMatch(Run(a, a.start, term))
  {
    MatchFromIff(a, a.start, term);
  }

  lemma MatchesIffAll<S>(a: Automaton<S>)
    ensures forall t :: Matches(a, t) <==>
      (forall k :: 1 <= k <= |t| ==> a.canMatch(Run(a, a.start, t[..k]))) && a.isMatch(Run(a, a.start, t))
  {
    forall t ensures Matches(a, t) <==>
      (forall k :: 1 <= k <= |t| ==> a.canMatch(Run(a, a.start, t[..k]))) && a.isMatch(Run(a, a.start, t))
    {
      MatchesIff(a, t);
    }
  }

  /** Starts at `Start()`, feeds each byte, gives up at the first state that cannot match. */
  method AutomatonMatch<S>(a: Automaton<S>, term: Term) returns (matched: bool)
    ensures matched == Matches(a, term)
  {
    var state := a.start;
    for i := 0 to |term|
      invariant MatchFrom(a, state, term[i..]) == Matches(a, term)
    {
      assert term[i..][1..] == term[i + 1..];
      state := a.accept(state, term[i]);
      if !a.canMatch(state) {
        return false;
      }
    }
    return a.isMatch(state);
  }
}
