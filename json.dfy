/** The part of Python's json.loads that the question parser relies on: recognising
    a text that is exactly one JSON array whose elements are all strings, and
    decoding it. Every other text, valid JSON or not, gives None. */
module Json {
  import opened Wrappers

  /** The whitespace the json module skips between tokens. */
  predicate IsJsonSpace(c: char) {
    c == ' ' || c == '\t' || c == '\n' || c == '\r'
  }

  /** t without its leading JSON whitespace. */
  function SkipJsonSpace(t: string): (r: string)
    ensures |r| <= |t|
    ensures r != [] ==> !IsJsonSpace(r[0])
  {
    if t != [] && IsJsonSpace(t[0]) then SkipJsonSpace(t[1..]) else t
  }

  /** A decoded value and the text that follows it. */
  datatype Decoded<T> = Decoded(value: T, rest: string)

  /** The value of a hexadecimal digit (either case), or None. */
  function HexValue(c: char): (r: Option<nat>)
    ensures r.Some? ==> r.value < 16
  {
    if '0' <= c <= '9' then Some(c as int - '0' as int)
    else if 'a' <= c <= 'f' then Some(c as int - 'a' as int + 10)
    else if 'A' <= c <= 'F' then Some(c as int - 'A' as int + 10)
    else None
  }

  /** The number written by four hexadecimal digits. */
  function Hex4(t: string): (r: Option<nat>)
    requires |t| == 4
    ensures r.Some? ==> r.value < 0x1_0000
  {
    match (HexValue(t[0]), HexValue(t[1]), HexValue(t[2]), HexValue(t[3]))
    case (Some(a), Some(b), Some(c), Some(d)) => Some(a * 0x1000 + b * 0x100 + c * 0x10 + d)
    case _ => None
  }

  /** The character of a `\uXXXX` escape; t starts after the `u`. A high surrogate
      followed by a `\u` escape of a low surrogate is one character, as the
      decoder joins the pair; a surrogate left on its own is outside this model.
      Four digits give a character of the basic plane, a pair of escapes (ten
      characters) one above it. */
  function UnicodeEscape(t: string): (r: Option<Decoded<char>>)
    ensures r.Some? ==> |r.value.rest| < |t|
    ensures r.Some? ==> || (|r.value.rest| == |t| - 4 && r.value.value as int < 0x1_0000)
                        || (|r.value.rest| == |t| - 10 && r.value.value as int >= 0x1_0000)
  {
    if |t| < 4 then None
    else
      match Hex4(t[..4])
      case None => None
      case Some(u) =>
        if 0xD800 <= u <= 0xDBFF then
          if |t| >= 10 && t[4] == '\\' && t[5] == 'u' then
            match Hex4(t[6..10])
            case Some(l) =>
              if 0xDC00 <= l <= 0xDFFF
              then Some(Decoded((0x1_0000 + (u - 0xD800) * 0x400 + (l - 0xDC00)) as char, t[10..]))
              else None
            case None => None
          else None
        else if 0xDC00 <= u <= 0xDFFF then None
        else Some(Decoded(u as char, t[4..]))
  }

  /** The character a backslash escape stands for; t starts after the backslash. Every
      escape but `\u` is one character long. */
  function Escape(t: string): (r: Option<Decoded<char>>)
    ensures r.Some? ==> |r.value.rest| < |t|
    ensures r.Some? ==> t != [] && (t[0] != 'u' ==> |r.value.rest| == |t| - 1)
  {
    if t == [] then None
    else if t[0] == '"' || t[0] == '\\' || t[0] == '/' then Some(Decoded(t[0], t[1..]))
    else if t[0] == 'b' then Some(Decoded('\U{8}', t[1..]))
    else if t[0] == 'f' then Some(Decoded('\U{C}', t[1..]))
    else if t[0] == 'n' then Some(Decoded('\n', t[1..]))
    else if t[0] == 'r' then Some(Decoded('\r', t[1..]))
    else if t[0] == 't' then Some(Decoded('\t', t[1..]))
    else if t[0] == 'u' then UnicodeEscape(t[1..])
    else None
  }

  /** A surrogate pair, as json.dumps writes a character above the basic plane with
      ensure_ascii, is read back as that one character. */
  lemma SurrogatePairIsOneCharacter()
    ensures UnicodeEscape("d83d\\ude00") == Some(Decoded('\U{1F600}', ""))
  {
    var t := "d83d\\ude00";
    assert t[..4] == "d83d" && t[6..10] == "de00" && t[10..] == "";
    assert Hex4("d83d") == Some(0xD83D);
    assert Hex4("de00") == Some(0xDE00);
  }

  /** The characters of a JSON string up to its closing quote; t starts after the
      opening quote. Control characters must be escaped, as in strict mode. */
  function StringBody(t: string): (r: Option<Decoded<string>>)
    ensures r.Some? ==> |r.value.rest| < |t|
    ensures r.Some? ==> |r.value.value| < |t| - |r.value.rest|
    decreases |t|
  {
    if t == [] then None
    else if t[0] == '"' then Some(Decoded([], t[1..]))
    else if t[0] == '\\' then
      match Escape(t[1..])
      case None => None
      case Some(Decoded(c, u)) =>
        match StringBody(u)
        case None => None
        case Some(Decoded(cs, rest)) => Some(Decoded([c] + cs, rest))
    else if t[0] <= '\U{1F}' then None
    else
      match StringBody(t[1..])
      case None => None
      case Some(Decoded(cs, rest)) => Some(Decoded([t[0]] + cs, rest))
  }

  /** One or more array elements, each a JSON string, up to and including the
      closing bracket; t starts at the first element. A trailing comma, a missing
      delimiter or an element that is not a string gives None. */
  function Elements(t: string): (r: Option<Decoded<seq<string>>>)
    ensures r.Some? ==> r.value.value != []
    ensures r.Some? ==> 3 * |r.value.value| <= |t| - |r.value.rest|
    decreases |t|
  {
    if t == [] || t[0] != '"' then None
    else
      match StringBody(t[1..])
      case None => None
      case Some(Decoded(x, u)) =>
        var v := SkipJsonSpace(u);
        if v != [] && v[0] == ']' then Some(Decoded([x], v[1..]))
        else if v != [] && v[0] == ',' then
          match Elements(SkipJsonSpace(v[1..]))
          case None => None
          case Some(Decoded(xs, rest)) => Some(Decoded([x] + xs, rest))
        else None
  }

  /** json.loads(s) when the whole of s, apart from surrounding whitespace, is one
      JSON array of strings: the list of those strings. None otherwise. */
  function DecodeStringArray(s: string): (r: Option<seq<string>>)
    ensures r.Some? ==> var t := SkipJsonSpace(s); t != [] && t[0] == '['
  {
    var t := SkipJsonSpace(s);
    if t == [] || t[0] != '[' then None
    else
      var u := SkipJsonSpace(t[1..]);
      if u != [] && u[0] == ']' then
        if SkipJsonSpace(u[1..]) == [] then Some([]) else None
      else
        match Elements(u)
        case None => None
        case Some(Decoded(items, rest)) => if SkipJsonSpace(rest) == [] then Some(items) else None
  }

  // ---------------------------------------------------------------------------
  // An encoder, the reference against which the decoder is checked.

  /** The lower-case hexadecimal digit of n. */
  function HexDigit(n: nat): (c: char)
    requires n < 16
    ensures HexValue(c) == Some(n)
  {
    if n < 10 then ('0' as int + n) as char else ('a' as int + n - 10) as char
  }

  /** One character as it is written inside a JSON string. */
  function EncodeChar(c: char): string {
    if c == '"' then "\\\""
    else if c == '\\' then "\\\\"
    else if c <= '\U{1F}' then "\\u00" + [HexDigit(c as int / 16), HexDigit(c as int % 16)]
    else [c]
  }

  /** The characters of x as they are written between the quotes of a JSON string. */
  function EncodeBody(x: string): string {
    if x == [] then "" else EncodeChar(x[0]) + EncodeBody(x[1..])
  }

  /** x as a JSON string literal. */
  function EncodeString(x: string): string {
    "\"" + EncodeBody(x) + "\""
  }

  /** Every character of w is JSON whitespace: what may stand between two tokens. */
  predicate IsGap(w: string) {
    forall k :: 0 <= k < |w| ==> IsJsonSpace(w[k])
  }

  predicate AllGaps(ws: seq<string>) {
    forall i :: 0 <= i < |ws| ==> IsGap(ws[i])
  }

  /** Where whitespace goes in an array of strings: before the array, inside an empty
      array, before and after each element, and after the array. */
  datatype Layout = Layout(lead: string, inner: string, pre: seq<string>, post: seq<string>, trail: string)

  /** l places only whitespace, and around exactly n elements. */
  predicate Fits(l: Layout, n: nat) {
    && IsGap(l.lead) && IsGap(l.inner) && IsGap(l.trail)
    && |l.pre| == n && |l.post| == n && AllGaps(l.pre) && AllGaps(l.post)
  }

  /** The elements of a non-empty array, each followed by its trailing whitespace, and
      separated by a comma and the next element's leading whitespace. The leading
      whitespace of the first element is written by the caller. */
  function EncodeElements(xs: seq<string>, pre: seq<string>, post: seq<string>): string
    requires xs != [] && |pre| == |xs| && |post| == |xs|
  {
    EncodeString(xs[0]) + post[0]
      + (if |xs| == 1 then "" else "," + pre[1] + EncodeElements(xs[1..], pre[1..], post[1..]))
  }

  /** xs as a JSON array of strings, with whitespace where l puts it. */
  function EncodeStringArray(xs: seq<string>, l: Layout): string
    requires Fits(l, |xs|)
  {
    if xs == [] then l.lead + "[" + l.inner + "]" + l.trail
    else l.lead + "[" + l.pre[0] + EncodeElements(xs, l.pre, l.post) + "]" + l.trail
  }

  /** The layout with no whitespace at all, as in `["a","b"]`. */
  function Compact(n: nat): (l: Layout)
    ensures Fits(l, n)
  {
    Layout("", "", seq(n, i => ""), seq(n, i => ""), "")
  }

  /** The layout of json.dumps: a space after every comma and nowhere else. */
  function Dumps(n: nat): (l: Layout)
    ensures Fits(l, n)
  {
    Layout("", "", seq(n, i => if i == 0 then "" else " "), seq(n, i => ""), "")
  }

  lemma EscapeRoundTrip(c: char, rest: string)
    requires c == '"' || c == '\\' || c <= '\U{1F}'
    ensures EncodeChar(c)[0] == '\\'
    ensures Escape(EncodeChar(c)[1..] + rest) == Some(Decoded(c, rest))
  {
    if c != '"' && c != '\\' {
      var n := c as int;
      var h1, h0 := HexDigit(n / 16), HexDigit(n % 16);
      assert EncodeChar(c) == ['\\', 'u', '0', '0', h1, h0];
      var e := EncodeChar(c)[1..] + rest;
      assert e == ['u', '0', '0', h1, h0] + rest;
      var t := e[1..];
      assert t[..4] == ['0', '0', h1, h0];
      assert Hex4(t[..4]) == Some(n);
      assert t[4..] == rest;
    }
  }

  /** An escaped character in front of a decodable body adds that character. */
  lemma EscapedCharStep(c: char, tail: string, cs: string, rest: string)
    requires c == '"' || c == '\\' || c <= '\U{1F}'
    requires StringBody(tail) == Some(Decoded(cs, rest))
    ensures StringBody(EncodeChar(c) + tail) == Some(Decoded([c] + cs, rest))
  {
    EscapeRoundTrip(c, tail);
    HeadAndTail(EncodeChar(c), tail);
    EscapeThenBody(EncodeChar(c) + tail, c, tail, cs, rest);
  }

  lemma HeadAndTail(a: string, b: string)
    requires a != []
    ensures (a + b)[0] == a[0] && (a + b)[1..] == a[1..] + b
  {
  }

  /** A backslash escape of c in front of a decodable body adds c to that body. */
  lemma EscapeThenBody(t: string, c: char, tail: string, cs: string, rest: string)
    requires t != [] && t[0] == '\\' && Escape(t[1..]) == Some(Decoded(c, tail))
    requires StringBody(tail) == Some(Decoded(cs, rest))
    ensures StringBody(t) == Some(Decoded([c] + cs, rest))
  {
  }

  /** A character written as itself in front of a decodable body adds that character. */
  lemma PlainCharStep(c: char, tail: string, cs: string, rest: string)
    requires !(c == '"' || c == '\\' || c <= '\U{1F}')
    requires StringBody(tail) == Some(Decoded(cs, rest))
    ensures StringBody(EncodeChar(c) + tail) == Some(Decoded([c] + cs, rest))
  {
    var t := EncodeChar(c) + tail;
    assert t == [c] + tail;
    assert t[1..] == tail;
  }

  /** Decoding the encoding of x, followed by the closing quote, gives back x. */
  lemma {:induction false} StringBodyRoundTrip(x: string, rest: string)
    ensures StringBody(EncodeBody(x) + "\"" + rest) == Some(Decoded(x, rest))
  {
    if x == [] {
      assert EncodeBody(x) + "\"" + rest == ['"'] + rest;
    } else {
      var c := x[0];
      var tail := EncodeBody(x[1..]) + "\"" + rest;
      StringBodyRoundTrip(x[1..], rest);
      assert EncodeBody(x) + "\"" + rest == EncodeChar(c) + tail;
      if c == '"' || c == '\\' || c <= '\U{1F}' {
        EscapedCharStep(c, tail, x[1..], rest);
      } else {
        PlainCharStep(c, tail, x[1..], rest);
      }
      assert [c] + x[1..] == x;
    }
  }

  /** A string literal followed by more text decodes to its string and that text. */
  lemma StringLiteralRoundTrip(x: string, after: string)
    ensures (EncodeString(x) + after)[0] == '"'
    ensures StringBody((EncodeString(x) + after)[1..]) == Some(Decoded(x, after))
  {
    StringBodyRoundTrip(x, after);
    var body := EncodeBody(x) + "\"" + after;
    assert EncodeString(x) + after == ['"'] + body;
  }

  /** Whitespace in front of a token, or in front of the end of the text, is skipped
      entirely. */
  lemma {:induction false} GapSkipped(w: string, t: string)
    requires IsGap(w)
    requires t == [] || !IsJsonSpace(t[0])
    ensures SkipJsonSpace(w + t) == t
    decreases |w|
  {
    if w == [] {
      assert w + t == t;
    } else {
      assert (w + t)[0] == w[0];
      assert (w + t)[1..] == w[1..] + t;
      GapSkipped(w[1..], t);
    }
  }

  lemma AllGapsTail(ws: seq<string>)
    requires AllGaps(ws) && ws != []
    ensures IsGap(ws[0]) && AllGaps(ws[1..])
  {
    forall i | 0 <= i < |ws| - 1 ensures IsGap(ws[1..][i]) {
      assert ws[1..][i] == ws[i + 1];
    }
  }

  /** Elements ends at a string element x whose string is followed by whitespace and
      the closing bracket. */
  lemma ElementsLast(t: string, x: string, after: string)
    requires t != [] && t[0] == '"' && StringBody(t[1..]) == Some(Decoded(x, after))
    requires SkipJsonSpace(after) != [] && SkipJsonSpace(after)[0] == ']'
    ensures Elements(t) == Some(Decoded([x], SkipJsonSpace(after)[1..]))
  {
  }

  /** Elements goes on after a string element x whose string is followed by whitespace
      and a comma. */
  lemma ElementsNext(t: string, x: string, after: string, xs: seq<string>, rest: string)
    requires t != [] && t[0] == '"' && StringBody(t[1..]) == Some(Decoded(x, after))
    requires SkipJsonSpace(after) != [] && SkipJsonSpace(after)[0] == ','
    requires Elements(SkipJsonSpace(SkipJsonSpace(after)[1..])) == Some(Decoded(xs, rest))
    ensures Elements(t) == Some(Decoded([x] + xs, rest))
  {
  }

  /** The last element, its trailing whitespace and the closing bracket. */
  lemma LastElementRoundTrip(x: string, w: string, rest: string)
    requires IsGap(w)
    ensures Elements(EncodeString(x) + w + "]" + rest) == Some(Decoded([x], rest))
  {
    var after := w + ("]" + rest);
    var t := EncodeString(x) + after;
    assert t == EncodeString(x) + w + "]" + rest;
    StringLiteralRoundTrip(x, after);
    GapSkipped(w, "]" + rest);
    assert ("]" + rest)[1..] == rest;
    ElementsLast(t, x, after);
  }

  /** The separator: whitespace, a comma and whitespace, in front of a string. */
  lemma SeparatorSkipped(w: string, v: string, more: string)
    requires IsGap(w) && IsGap(v)
    requires more != [] && more[0] == '"'
    ensures var u := SkipJsonSpace(w + ([','] + (v + more)));
            u != [] && u[0] == ',' && SkipJsonSpace(u[1..]) == more
  {
    var sep := [','] + (v + more);
    GapSkipped(w, sep);
    assert sep[1..] == v + more;
    GapSkipped(v, more);
  }

  lemma Regroup(a: string, w: string, v: string, m: string)
    ensures a + w + "," + v + m == a + (w + ([','] + (v + m)))
  {
  }

  /** An element, its trailing whitespace, a comma and whitespace in front of decodable
      elements add that element. */
  lemma NextElementRoundTrip(x: string, w: string, v: string, more: string, ys: seq<string>, rest: string)
    requires IsGap(w) && IsGap(v)
    requires more != [] && more[0] == '"'
    requires Elements(more) == Some(Decoded(ys, rest))
    ensures Elements(EncodeString(x) + w + "," + v + more) == Some(Decoded([x] + ys, rest))
  {
    var after := w + ([','] + (v + more));
    var t := EncodeString(x) + after;
    Regroup(EncodeString(x), w, v, more);
    StringLiteralRoundTrip(x, after);
    SeparatorSkipped(w, v, more);
    ElementsNext(t, x, after, ys, rest);
  }

  lemma ElementsStartWithQuote(xs: seq<string>, pre: seq<string>, post: seq<string>)
    requires xs != [] && |pre| == |xs| && |post| == |xs|
    ensures EncodeElements(xs, pre, post) != [] && EncodeElements(xs, pre, post)[0] == '"'
  {
  }

  lemma Append(a: string, v: string, tail: string, rest: string)
    ensures a + ("," + v + tail) + "]" + rest == a + "," + v + (tail + "]" + rest)
  {
  }

  /** Decoding encoded elements, followed by the closing bracket, gives back xs,
      whatever whitespace surrounds each element. */
  lemma {:induction false} ElementsRoundTrip(xs: seq<string>, pre: seq<string>, post: seq<string>, rest: string)
    requires xs != [] && |pre| == |xs| && |post| == |xs| && AllGaps(pre) && AllGaps(post)
    ensures Elements(EncodeElements(xs, pre, post) + "]" + rest) == Some(Decoded(xs, rest))
    decreases |xs|
  {
    var x := xs[0];
    AllGapsTail(pre);
    AllGapsTail(post);
    if |xs| == 1 {
      assert EncodeElements(xs, pre, post) + "]" + rest == EncodeString(x) + post[0] + "]" + rest;
      LastElementRoundTrip(x, post[0], rest);
      assert [x] == xs;
    } else {
      var tail := EncodeElements(xs[1..], pre[1..], post[1..]);
      var more := tail + "]" + rest;
      ElementsRoundTrip(xs[1..], pre[1..], post[1..], rest);
      ElementsStartWithQuote(xs[1..], pre[1..], post[1..]);
      assert IsGap(pre[1..][0]);
      assert EncodeElements(xs, pre, post) == EncodeString(x) + post[0] + ("," + pre[1] + tail);
      Append(EncodeString(x) + post[0], pre[1], tail, rest);
      NextElementRoundTrip(x, post[0], pre[1], more, xs[1..], rest);
      assert [x] + xs[1..] == xs;
    }
  }

  /** An empty array with any whitespace decodes to the empty list. */
  lemma EmptyArrayRoundTrip(l: Layout)
    requires Fits(l, 0)
    ensures DecodeStringArray(EncodeStringArray([], l)) == Some([])
  {
    var t := "[" + l.inner + ("]" + l.trail);
    assert EncodeStringArray([], l) == l.lead + t;
    GapSkipped(l.lead, t);
    assert t[1..] == l.inner + ("]" + l.trail);
    GapSkipped(l.inner, "]" + l.trail);
    assert ("]" + l.trail)[1..] == l.trail;
    GapSkipped(l.trail, []);
    assert l.trail + [] == l.trail;
  }

  /** A non-empty array with any whitespace decodes to its strings. */
  lemma FilledArrayRoundTrip(xs: seq<string>, l: Layout)
    requires xs != [] && Fits(l, |xs|)
    ensures DecodeStringArray(EncodeStringArray(xs, l)) == Some(xs)
  {
    var u := EncodeElements(xs, l.pre, l.post) + "]" + l.trail;
    var t := "[" + l.pre[0] + u;
    assert EncodeStringArray(xs, l) == l.lead + t;
    GapSkipped(l.lead, t);
    ElementsStartWithQuote(xs, l.pre, l.post);
    assert t[1..] == l.pre[0] + u;
    AllGapsTail(l.pre);
    GapSkipped(l.pre[0], u);
    ElementsRoundTrip(xs, l.pre, l.post, l.trail);
    GapSkipped(l.trail, []);
    assert l.trail + [] == l.trail;
  }

  /** json.loads of an array of strings gives back the same list, whatever whitespace
      stands between its tokens. */
  lemma DecodeEncodedArray(xs: seq<string>, l: Layout)
    requires Fits(l, |xs|)
    ensures DecodeStringArray(EncodeStringArray(xs, l)) == Some(xs)
  {
    if xs == [] {
      EmptyArrayRoundTrip(l);
    } else {
      FilledArrayRoundTrip(xs, l);
    }
  }

  /** A text whose first character after whitespace is not `[` is not a JSON array:
      objects, strings, numbers and the literals all decode to something else. */
  lemma NotAnArray(s: string)
    requires SkipJsonSpace(s) == [] || SkipJsonSpace(s)[0] != '['
    ensures DecodeStringArray(s) == None
  {
  }

  /** Nor is a text whose bracket is followed by anything but a string or the closing
      bracket, such as a heading "[Questions]" or an array of numbers. */
  lemma NoStringAfterBracket(s: string)
    requires var t := SkipJsonSpace(s);
             t != [] && t[0] == '[' &&
             var u := SkipJsonSpace(t[1..]); u == [] || (u[0] != '"' && u[0] != ']')
    ensures DecodeStringArray(s) == None
  {
  }
}
