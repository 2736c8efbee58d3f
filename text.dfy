/**
 * The JavaScript string operations the cookie helpers rely on:
 * `s.split(sep)` for a non-empty separator, the search for the separator it
 * makes, and the `join` that undoes a split.
 */
module Text {
  import opened Common

  /** `sep` occurs in `s` starting at position `p`. */
  predicate OccursAt(s: string, sep: string, p: int) {
    0 <= p && p + |sep| <= |s| && s[p..p + |sep|] == sep
  }

  /** `s` does not contain `sep` anywhere. */
  ghost predicate Free(s: string, sep: string) {
    forall p :: !OccursAt(s, sep, p)
  }

  /** Occurrences in `s[1..]` are the occurrences in `s`, one position earlier. */
  lemma OccursInTail(s: string, sep: string)
    requires |s| > 0
    ensures forall p :: 1 <= p ==> (OccursAt(s, sep, p) <==> OccursAt(s[1..], sep, p - 1))
  {
    forall p | 1 <= p ensures OccursAt(s, sep, p) <==> OccursAt(s[1..], sep, p - 1) {
      if p + |sep| <= |s| {
        assert s[1..][p - 1..p - 1 + |sep|] == s[p..p + |sep|];
      }
    }
  }

  /**
   * The search `s.split(sep)` makes for its next cut: the first position
   * where `sep` occurs, if any.
   */
  function IndexOf(s: string, sep: string): (r: Option<nat>)
    requires |sep| > 0
    ensures r.Some? ==> OccursAt(s, sep, r.value) && forall p :: 0 <= p < r.value ==> !OccursAt(s, sep, p)
    ensures r.None? ==> Free(s, sep)
    decreases |s|
  {
    if |s| < |sep| then None
    else if OccursAt(s, sep, 0) then Some(0)
    else
      OccursInTail(s, sep);
      match IndexOf(s[1..], sep)
      case Some(i) => Some(i + 1)
      case None => None
  }

  /** The first occurrence determines `indexOf`. */
  lemma IndexOfAt(s: string, sep: string, i: nat)
    requires |sep| > 0 && OccursAt(s, sep, i)
    requires forall p :: 0 <= p < i ==> !OccursAt(s, sep, p)
    ensures IndexOf(s, sep) == Some(i)
  {
  }

  /** An occurrence in `a + b` at `p`, inside `b`, is an occurrence in `b` at `p - |a|`. */
  lemma OccursShifted(a: string, b: string, sep: string, p: int)
    requires |a| <= p
    ensures OccursAt(a + b, sep, p) <==> OccursAt(b, sep, p - |a|)
  {
    if p + |sep| <= |a + b| {
      assert (a + b)[p..p + |sep|] == b[p - |a|..p - |a| + |sep|];
    }
  }

  /** Occurrences in `a + b` that start inside `b` are the occurrences in `b`. */
  lemma OccursInSuffix(a: string, b: string, sep: string)
    ensures forall p :: |a| <= p ==> (OccursAt(a + b, sep, p) <==> OccursAt(b, sep, p - |a|))
  {
    forall p | |a| <= p ensures OccursAt(a + b, sep, p) <==> OccursAt(b, sep, p - |a|) {
      OccursShifted(a, b, sep, p);
    }
  }

  /** Occurrences in `a + b` that end inside `a` are the occurrences in `a`. */
  lemma OccursInPrefix(a: string, b: string, sep: string)
    ensures forall p :: p + |sep| <= |a| ==> (OccursAt(a, sep, p) <==> OccursAt(a + b, sep, p))
  {
    forall p | p + |sep| <= |a| ensures OccursAt(a, sep, p) <==> OccursAt(a + b, sep, p) {
      if 0 <= p {
        assert (a + b)[p..p + |sep|] == a[p..p + |sep|];
      }
    }
  }

  /**
   * When no occurrence of `sep` in `a + b` starts inside `a` and `b` holds
   * none, `a + b` holds none.
   */
  lemma FreeSkip(a: string, b: string, sep: string)
    requires |sep| > 0 && Free(b, sep)
    requires forall p :: 0 <= p < |a| ==> !OccursAt(a + b, sep, p)
    ensures Free(a + b, sep)
  {
    forall p ensures !OccursAt(a + b, sep, p) {
      if |a| <= p {
        OccursShifted(a, b, sep, p);
      }
    }
  }

  /** A separator whose first character never appears in `a` cannot start inside `a`. */
  lemma NoOccurrenceInside(a: string, b: string, sep: string)
    requires |sep| > 0 && sep[0] !in a
    ensures forall p :: 0 <= p < |a| ==> !OccursAt(a + b, sep, p)
  {
    forall p | 0 <= p < |a| ensures !OccursAt(a + b, sep, p) {
    }
  }

  /** `parts.join(sep)`. */
  function Join(parts: seq<string>, sep: string): string
    decreases |parts|
  {
    if |parts| == 0 then ""
    else if |parts| == 1 then parts[0]
    else parts[0] + sep + Join(parts[1..], sep)
  }

  /**
   * `s.split(sep)` for a non-empty separator: cut at each occurrence, left to
   * right, without overlap.  Joining the parts gives `s` back, and no part
   * contains the separator.
   */
  function Split(s: string, sep: string): (parts: seq<string>)
    requires |sep| > 0
    ensures |parts| >= 1
    ensures Join(parts, sep) == s
    ensures forall k :: 0 <= k < |parts| ==> Free(parts[k], sep)
    decreases |s|
  {
    match IndexOf(s, sep)
    case None => [s]
    case Some(i) =>
      var rest := Split(s[i + |sep|..], sep);
      assert s[..i] + s[i..] == s;
      OccursInPrefix(s[..i], s[i..], sep);
      assert s == s[..i] + sep + s[i + |sep|..];
      [s[..i]] + rest
  }

  /** Splitting a string that does not contain the separator gives the string alone. */
  lemma SplitFree(s: string, sep: string)
    requires |sep| > 0 && Free(s, sep)
    ensures Split(s, sep) == [s]
  {
  }

  /** A first part free of the separator's first character is cut off whole. */
  lemma SplitFirst(a: string, b: string, sep: string)
    requires |sep| > 0 && sep[0] !in a
    ensures Split(a + sep + b, sep) == [a] + Split(b, sep)
  {
    NoOccurrenceInside(a, sep + b, sep);
    assert a + sep + b == a + (sep + b);
    IndexOfAt(a + sep + b, sep, |a|);
    assert (a + sep + b)[|a| + |sep|..] == b;
  }
}
