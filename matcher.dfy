/** The term matcher of `run_single_check`: every search term that occurs in
    the page text is kept, in the order of the term list. */
module Matcher {
  import opened Text

  /** The matched terms: the entries of `terms` that are substrings of
      `text`, in their original order and with their original repetitions.
      Defined on prefixes of `terms`, as the append loop builds it. */
  function FindMatches(text: string, terms: seq<string>): (found: seq<string>)
    ensures |found| <= |terms|
    decreases |terms|
  {
    if terms == [] then []
    else
      var rest := FindMatches(text, terms[..|terms| - 1]);
      var last := terms[|terms| - 1];
      if Contains(text, last) then rest + [last] else rest
  }

  /** Positions in `terms` of the matched terms, in increasing order. */
  ghost function MatchPositions(text: string, terms: seq<string>): seq<nat>
    decreases |terms|
  {
    if terms == [] then []
    else
      var rest := MatchPositions(text, terms[..|terms| - 1]);
      if Contains(text, terms[|terms| - 1]) then rest + [|terms| - 1] else rest
  }

  /** The matched terms are the subsequence of `terms` taken at exactly the
      positions whose term occurs in `text`: the positions increase, each
      matched entry is the term at its position, and a position is taken if
      and only if its term occurs. */
  lemma {:induction false} FindMatchesSelects(text: string, terms: seq<string>)
    ensures var found, pos := FindMatches(text, terms), MatchPositions(text, terms);
      && |pos| == |found|
      && (forall k :: 0 <= k < |pos| ==> pos[k] < |terms| && found[k] == terms[pos[k]])
      && (forall k, l :: 0 <= k < l < |pos| ==> pos[k] < pos[l])
      && (forall i :: 0 <= i < |terms| ==> (i in pos <==> Contains(text, terms[i])))
    decreases |terms|
  {
    if terms != [] {
      var n := |terms| - 1;
      var init := terms[..n];
      FindMatchesSelects(text, init);
      assert forall i :: 0 <= i < n ==> init[i] == terms[i];
      var pos := MatchPositions(text, init);
      assert forall k :: 0 <= k < |pos| ==> pos[k] < n;
    }
  }

  /** A term is among the matches if and only if it is a search term that
      occurs in the text. */
  lemma {:induction false} InFindMatches(text: string, terms: seq<string>, t: string)
    ensures t in FindMatches(text, terms) <==> t in terms && Contains(text, t)
    decreases |terms|
  {
    if terms != [] {
      var n := |terms| - 1;
      InFindMatches(text, terms[..n], t);
      assert terms == terms[..n] + [terms[n]];
    }
  }

  /** Each matching term is kept as many times as it is listed, and a term
      that does not occur is never kept. */
  lemma {:induction false} FindMatchesCount(text: string, terms: seq<string>, t: string)
    ensures multiset(FindMatches(text, terms))[t]
         == if Contains(text, t) then multiset(terms)[t] else 0
    decreases |terms|
  {
    if terms != [] {
      var n := |terms| - 1;
      FindMatchesCount(text, terms[..n], t);
      assert terms == terms[..n] + [terms[n]];
    }
  }

  /** Nothing matches exactly when no search term occurs in the text. */
  lemma NoMatchesIff(text: string, terms: seq<string>)
    ensures FindMatches(text, terms) == [] <==> forall t :: t in terms ==> !Contains(text, t)
  {
    if FindMatches(text, terms) != [] {
      InFindMatches(text, terms, FindMatches(text, terms)[0]);
    }
    forall t | t in terms && Contains(text, t)
      ensures FindMatches(text, terms) != []
    {
      InFindMatches(text, terms, t);
    }
  }

  /** An empty search term matches every page. */
  lemma EmptyTermMatches(text: string, terms: seq<string>)
    requires "" in terms
    ensures "" in FindMatches(text, terms)
  {
    EmptyAlwaysContained(text);
    InFindMatches(text, terms, "");
  }

  /** The loop of `run_single_check`: walk the terms in order and append each
      one that occurs in the page text. */
  method CollectMatches(pageText: string, terms: seq<string>) returns (found: seq<string>)
    ensures found == FindMatches(pageText, terms)
  {
    found := [];
    var i := 0;
    while i < |terms|
      invariant 0 <= i <= |terms|
      invariant found == FindMatches(pageText, terms[..i])
    {
      var term := terms[i];
      assert terms[..i + 1][..i] == terms[..i];
      if Contains(pageText, term) {
        found := found + [term];
      }
      i := i + 1;
    }
    assert terms[..i] == terms;
  }
}
