/** Option, for results the source expresses with None. */
module Wrappers {

  datatype Option<+T> = None | Some(value: T)
}

/** Character classes and string operations with the meaning Python gives them. */
module Text {

  /** The characters for which Python's str.isspace() holds. str.strip() removes
      exactly these, and `\s` in a str pattern of the re module matches exactly these. */
  predicate IsSpace(c: char) {
    || ('\t' <= c <= '\r')                  // tab, line feed, vertical tab, form feed, carriage return
    || ('\U{1C}' <= c <= '\U{1F}')          // the four ASCII information separators
    || c == ' ' || c == '\U{85}' || c == '\U{A0}' || c == '\U{1680}'
    || ('\U{2000}' <= c <= '\U{200A}')
    || c == '\U{2028}' || c == '\U{2029}' || c == '\U{202F}' || c == '\U{205F}' || c == '\U{3000}'
  }

  /** An ASCII decimal digit, which is what `\d` matches in the texts this model covers. */
  predicate IsDigit(c: char) {
    '0' <= c <= '9'
  }

  /** Every character of s[i..j] is whitespace. */
  predicate AllSpace(s: string, i: nat, j: nat)
    requires i <= j <= |s|
  {
    forall k :: i <= k < j ==> IsSpace(s[k])
  }

  /** The end of the run of whitespace that starts at position i. */
  function SpaceRunEnd(s: string, i: nat): (j: nat)
    requires i <= |s|
    ensures i <= j <= |s|
    ensures AllSpace(s, i, j)
    ensures j < |s| ==> !IsSpace(s[j])
    decreases |s| - i
  {
    if i < |s| && IsSpace(s[i]) then SpaceRunEnd(s, i + 1) else i
  }

  /** The start of the run of whitespace that ends at position j, not going below lo. */
  function SpaceRunStart(s: string, lo: nat, j: nat): (i: nat)
    requires lo <= j <= |s|
    ensures lo <= i <= j
    ensures AllSpace(s, i, j)
    ensures lo < i ==> !IsSpace(s[i - 1])
    decreases j
  {
    if lo < j && IsSpace(s[j - 1]) then SpaceRunStart(s, lo, j - 1) else j
  }

  /** str.strip() with no argument: s without its leading and trailing whitespace. */
  function Strip(s: string): (r: string)
    ensures exists i, j :: 0 <= i <= j <= |s| && r == s[i..j] && AllSpace(s, 0, i) && AllSpace(s, j, |s|)
    ensures r != [] ==> !IsSpace(r[0]) && !IsSpace(r[|r| - 1])
  {
    var i := SpaceRunEnd(s, 0);
    var j := SpaceRunStart(s, i, |s|);
    assert i < j ==> s[i..j][0] == s[i] && s[i..j][j - i - 1] == s[j - 1];
    s[i..j]
  }

  /** Stripping a string that neither starts nor ends with whitespace changes nothing. */
  lemma StripUnspaced(s: string)
    requires s == [] || (!IsSpace(s[0]) && !IsSpace(s[|s| - 1]))
    ensures Strip(s) == s
  {
    if s != [] {
      assert SpaceRunEnd(s, 0) == 0;
      assert SpaceRunStart(s, 0, |s|) == |s|;
    }
  }

  /** str.replace('"', ''): s with every double quote removed, the rest kept in order. */
  function RemoveQuotes(s: string): (r: string)
    ensures '"' !in r
    ensures forall c :: c in r <==> c in s && c != '"'
    ensures '"' !in s ==> r == s
    ensures multiset(r) == multiset(s)['"' := 0]
  {
    if s == [] then []
    else
      assert s == [s[0]] + s[1..];
      (if s[0] == '"' then [] else [s[0]]) + RemoveQuotes(s[1..])
  }

  /** A single character is dropped when it is a double quote and kept otherwise. */
  lemma RemoveQuotesOfChar(c: char)
    ensures RemoveQuotes([c]) == if c == '"' then [] else [c]
  {
    assert [c][1..] == [];
  }

  /** Removing quotes works character by character: from a concatenation it gives the
      concatenation of the two results, so the kept characters stay in their order. */
  lemma {:induction false} RemoveQuotesConcat(a: string, b: string)
    ensures RemoveQuotes(a + b) == RemoveQuotes(a) + RemoveQuotes(b)
    decreases |a|
  {
    if a != [] {
      assert (a + b)[0] == a[0];
      assert (a + b)[1..] == a[1..] + b;
      RemoveQuotesConcat(a[1..], b);
    } else {
      assert a + b == b;
    }
  }

  /** Python's sep.join(xs): it opens with the first element, and one element is
      taken as it is. */
  function Join(sep: string, xs: seq<string>): (r: string)
    ensures xs != [] ==> xs[0] <= r
    ensures |xs| == 1 ==> r == xs[0]
  {
    if xs == [] then ""
    else if |xs| == 1 then xs[0]
    else
      assert xs[0] <= xs[0] + (sep + Join(sep, xs[1..]));
      xs[0] + sep + Join(sep, xs[1..])
  }

  /** Joining one more element puts the separator and that element after the join of
      the others. */
  lemma {:induction false} JoinAppend(sep: string, xs: seq<string>, x: string)
    requires xs != []
    ensures Join(sep, xs + [x]) == Join(sep, xs) + sep + x
    decreases |xs|
  {
    if |xs| == 1 {
      assert (xs + [x])[1..] == [x];
    } else {
      assert (xs + [x])[1..] == xs[1..] + [x];
      JoinAppend(sep, xs[1..], x);
    }
  }

  /** Python's xs[-n:] for n >= 1: the last n elements, or all of them when there are
      fewer. (Python's xs[-0:] is the whole list; the model is used with n = 3.) */
  function LastN<T>(xs: seq<T>, n: nat): (r: seq<T>)
    ensures |r| == if |xs| <= n then |xs| else n
    ensures r == xs[|xs| - |r|..]
  {
    if |xs| <= n then xs else xs[|xs| - n..]
  }

  /** Python's xs[:n]: the first n elements, or all of them when there are fewer. */
  function Take<T>(xs: seq<T>, n: nat): (r: seq<T>)
    ensures |r| == if |xs| <= n then |xs| else n
    ensures r == xs[..|r|]
  {
    if |xs| <= n then xs else xs[..n]
  }
}
