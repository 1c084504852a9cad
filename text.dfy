/** String operations of Python that the monitor relies on: the substring test
    `term in text` (str.find underneath), `sep.join(parts)`, and a split on the
    separator that undoes the join of a non-empty list none of whose items
    contains the separator. Strings are sequences of characters, and
    comparison is character by character, so every test here is case-sensitive. */
module Text {
  import opened Wrappers

  /** `needle` occurs in `text` starting at position `i`. */
  ghost predicate OccursAt(text: string, needle: string, i: int)
  {
    0 <= i && i + |needle| <= |text| && text[i..i + |needle|] == needle
  }

  /** An occurrence begins with the first character of what occurs. */
  lemma OccurrenceStartsWith(text: string, needle: string, i: int)
    requires OccursAt(text, needle, i) && |needle| > 0
    ensures text[i] == needle[0]
  {
  }

  /** Index of the leftmost occurrence of `needle` in `text`, as Python's
      `text.find(needle)` (with None for -1). */
  function IndexOf(text: string, needle: string): (r: Option<nat>)
    ensures r.Some? ==> OccursAt(text, needle, r.value)
    ensures r.Some? ==> forall j :: 0 <= j < r.value ==> !OccursAt(text, needle, j)
    ensures r.None? ==> forall j :: !OccursAt(text, needle, j)
    decreases |text|
  {
    if |needle| > |text| then None
    else if text[..|needle|] == needle then Some(0)
    else
      var tail := IndexOf(text[1..], needle);
      assert forall j :: 1 <= j ==> (OccursAt(text, needle, j) <==> OccursAt(text[1..], needle, j - 1)) by {
        forall j | 1 <= j
          ensures OccursAt(text, needle, j) <==> OccursAt(text[1..], needle, j - 1)
        {
          if j + |needle| <= |text| {
            assert text[1..][j - 1..j - 1 + |needle|] == text[j..j + |needle|];
          }
        }
      }
      match tail
      case None => None
      case Some(k) => Some(k + 1)
  }

  /** Python's `needle in text` for strings: a literal, case-sensitive
      substring test. */
  function Contains(text: string, needle: string): (r: bool)
    ensures r <==> exists i :: OccursAt(text, needle, i)
  {
    IndexOf(text, needle).Some?
  }

  /** The empty string is a substring of every string. */
  lemma EmptyAlwaysContained(text: string)
    ensures Contains(text, "")
  {
  }

  /** A string is contained in any string that has it as a middle piece. */
  lemma ContainedInConcat(a: string, b: string, c: string)
    ensures Contains(a + b + c, b)
  {
    assert (a + b + c)[|a|..|a| + |b|] == b;
    assert OccursAt(a + b + c, b, |a|);
  }

  /** What occurs in a string occurs in any string that ends with it. */
  lemma ContainedInSuffix(a: string, b: string, x: string)
    requires Contains(b, x)
    ensures Contains(a + b, x)
  {
    var i :| OccursAt(b, x, i);
    assert (a + b)[|a| + i..|a| + i + |x|] == b[i..i + |x|];
    assert OccursAt(a + b, x, |a| + i);
  }

  /** Python's `sep.join(parts)`. */
  function Join(sep: string, parts: seq<string>): string
    decreases |parts|
  {
    if |parts| == 0 then ""
    else if |parts| == 1 then parts[0]
    else parts[0] + sep + Join(sep, parts[1..])
  }

  /** Every item of a joined list occurs in the joined string. */
  lemma {:induction false} JoinContainsParts(sep: string, parts: seq<string>, k: nat)
    requires k < |parts|
    ensures Contains(Join(sep, parts), parts[k])
    decreases |parts|
  {
    if |parts| == 1 {
      ContainedInConcat("", parts[0], "");
      assert "" + parts[0] + "" == parts[0];
    } else if k == 0 {
      ContainedInConcat("", parts[0], sep + Join(sep, parts[1..]));
      assert "" + parts[0] + (sep + Join(sep, parts[1..])) == Join(sep, parts);
    } else {
      JoinContainsParts(sep, parts[1..], k - 1);
      ContainedInSuffix(parts[0] + sep, Join(sep, parts[1..]), parts[k]);
    }
  }

  /** Split `s` at every leftmost non-overlapping occurrence of `sep`, as
      Python's `s.split(sep)`. */
  function Split(s: string, sep: string): (r: seq<string>)
    requires |sep| > 0
    ensures |r| >= 1
    decreases |s|
  {
    match IndexOf(s, sep)
    case None => [s]
    case Some(i) => [s[..i]] + Split(s[i + |sep|..], sep)
  }

  /** The separator the monitor puts between matched terms. */
  const ListSeparator: string := ", "

  /** The leftmost ", " in `p + ", " + rest` is the one after `p` when `p`
      has none of its own: an occurrence starting at p's last character would
      need a space where the separator puts its comma. */
  lemma SeparatorAfterPiece(p: string, rest: string)
    requires !Contains(p, ListSeparator)
    ensures IndexOf(p + ListSeparator + rest, ListSeparator) == Some(|p|)
  {
    var s := p + ListSeparator + rest;
    assert s[|p|..|p| + 2] == ListSeparator;
    assert OccursAt(s, ListSeparator, |p|);
    forall j | 0 <= j < |p|
      ensures !OccursAt(s, ListSeparator, j)
    {
      if j + 2 <= |p| {
        assert s[j..j + 2] == p[j..j + 2];
        assert !OccursAt(p, ListSeparator, j);
      } else {
        assert s[j + 1] == ',';
        assert ListSeparator[1] == ' ';
      }
    }
  }

  /** Splitting `p + ", " + rest` on ", " cuts off `p` first. */
  lemma SplitAfterPiece(p: string, rest: string)
    requires !Contains(p, ListSeparator)
    ensures Split(p + ListSeparator + rest, ListSeparator) == [p] + Split(rest, ListSeparator)
  {
    var s := p + ListSeparator + rest;
    SeparatorAfterPiece(p, rest);
    assert s[..|p|] == p;
    assert s[|p| + |ListSeparator|..] == rest;
  }

  /** Splitting on ", " undoes joining with ", ", for a non-empty list whose
      items do not themselves contain ", ". */
  lemma {:induction false} SplitJoin(parts: seq<string>)
    requires |parts| >= 1
    requires forall k :: 0 <= k < |parts| ==> !Contains(parts[k], ListSeparator)
    ensures Split(Join(ListSeparator, parts), ListSeparator) == parts
    decreases |parts|
  {
    if |parts| == 1 {
      assert Join(ListSeparator, parts) == parts[0];
    } else {
      var rest := Join(ListSeparator, parts[1..]);
      assert Join(ListSeparator, parts) == parts[0] + ListSeparator + rest;
      SplitAfterPiece(parts[0], rest);
      SplitJoin(parts[1..]);
      assert parts == [parts[0]] + parts[1..];
    }
  }
}
