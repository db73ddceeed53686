/** The pattern tier of the question parser: the scan that
      re.findall(r'(?:\d+[\.\)]?|[-*])\s*"?(.+?)(?="?\s*(?:\n\s*\d+[\.\)]|$))', content, flags=re.DOTALL)
    performs, written out as a scanner over the text. */
module QuestionPattern {
  import opened Wrappers
  import opened Text

  /** The end of the run of digits that starts at position i. */
  function DigitRunEnd(s: string, i: nat): (j: nat)
    requires i <= |s|
    ensures i <= j <= |s|
    ensures forall k :: i <= k < j ==> IsDigit(s[k])
    ensures j < |s| ==> !IsDigit(s[j])
    decreases |s| - i
  {
    if i < |s| && IsDigit(s[i]) then DigitRunEnd(s, i + 1) else i
  }

  /** The characters `[\.\)]` allows after the digits of a number. */
  predicate IsNumberPunct(c: char) {
    c == '.' || c == ')'
  }

  /** A character at which an item can open: a digit, `-` or `*`. */
  predicate IsOpener(c: char) {
    IsDigit(c) || c == '-' || c == '*'
  }

  /** `\d+[\.\)]` matches at position i. Giving back digits cannot help, since
      a digit is neither `.` nor `)`. */
  predicate NumberedMarkerAt(s: string, i: nat)
    requires i <= |s|
  {
    i < |s| && IsDigit(s[i]) && var d := DigitRunEnd(s, i); d < |s| && IsNumberPunct(s[d])
  }

  /** Some character of s[j..w] is a line feed. */
  predicate HasLineFeed(s: string, j: nat, w: nat)
    requires j <= w <= |s|
  {
    exists k :: j <= k < w && s[k] == '\n'
  }

  /** The lookahead `(?="?\s*(?:\n\s*\d+[\.\)]|$))` holds at position i: after an
      optional quote and whitespace comes either the end of the text, or, once the
      whitespace has included a line feed, a numbered marker. At the end of the text
      it always holds. */
  predicate EndsItemAt(s: string, i: nat)
    requires i <= |s|
    ensures i == |s| ==> EndsItemAt(s, i)
  {
    var j := if i < |s| && s[i] == '"' then i + 1 else i;
    var w := SpaceRunEnd(s, j);
    w == |s| || (HasLineFeed(s, j, w) && NumberedMarkerAt(s, w))
  }

  // ---------------------------------------------------------------------------
  // The lookahead read literally, every choice the regular expression may make
  // left open; EndsItemAt is proved equal to it below.

  /** `$` without MULTILINE: the end of the text, or just before a final line feed. */
  predicate DollarAt(s: string, k: nat) {
    k == |s| || (k + 1 == |s| && s[k] == '\n')
  }

  /** Every character of s[i..j] is a digit. */
  predicate AllDigits(s: string, i: nat, j: nat)
    requires i <= j <= |s|
  {
    forall k :: i <= k < j ==> IsDigit(s[k])
  }

  /** `\d+[\.\)]` matches at n, for some number of digits. */
  ghost predicate DigitsThenPunct(s: string, n: nat)
    requires n <= |s|
  {
    exists d :: n < d < |s| && AllDigits(s, n, d) && IsNumberPunct(s[d])
  }

  /** `\s*\d+[\.\)]` matches at m, for some length of the whitespace. */
  ghost predicate SpacesThenNumber(s: string, m: nat)
    requires m <= |s|
  {
    exists n :: m <= n <= |s| && AllSpace(s, m, n) && DigitsThenPunct(s, n)
  }

  /** `\s*(?:\n\s*\d+[\.\)]|$)` matches at j, for some length of the whitespace. */
  ghost predicate SpacesThenEnd(s: string, j: nat)
    requires j <= |s|
  {
    exists k :: j <= k <= |s| && AllSpace(s, j, k)
      && ((k < |s| && s[k] == '\n' && SpacesThenNumber(s, k + 1)) || DollarAt(s, k))
  }

  /** The whole lookahead, with `"?` either taken (when there is a quote) or not. */
  ghost predicate LookaheadAt(s: string, i: nat)
    requires i <= |s|
  {
    SpacesThenEnd(s, i) || (i < |s| && s[i] == '"' && SpacesThenEnd(s, i + 1))
  }

  lemma SpaceRunEndIsLongest(s: string, j: nat, k: nat)
    requires j <= k <= |s| && AllSpace(s, j, k)
    ensures k <= SpaceRunEnd(s, j)
  {
  }

  lemma DigitRunEndIsLongest(s: string, n: nat, d: nat)
    requires n <= d <= |s| && AllDigits(s, n, d)
    ensures d <= DigitRunEnd(s, n)
  {
  }

  /** Once whitespace from j reaches a non-space at n, n is where SpaceRunEnd stops. */
  lemma SpaceRunEndAt(s: string, j: nat, n: nat)
    requires j <= n < |s| && AllSpace(s, j, n) && !IsSpace(s[n])
    ensures SpaceRunEnd(s, j) == n
  {
    SpaceRunEndIsLongest(s, j, n);
  }

  lemma NumberedMarkerIsLiteral(s: string, w: nat)
    requires w <= |s|
    ensures NumberedMarkerAt(s, w) <==> DigitsThenPunct(s, w)
  {
    if NumberedMarkerAt(s, w) {
      var d := DigitRunEnd(s, w);
      assert AllDigits(s, w, d);
    }
    if DigitsThenPunct(s, w) {
      var d :| w < d < |s| && AllDigits(s, w, d) && IsNumberPunct(s[d]);
      DigitRunEndIsLongest(s, w, d);
      assert !IsDigit(s[d]);
    }
  }

  /** The computed form implies the literal reading. */
  lemma ComputedImpliesSpacesThenEnd(s: string, j: nat)
    requires j <= |s|
    requires var w := SpaceRunEnd(s, j); w == |s| || (HasLineFeed(s, j, w) && NumberedMarkerAt(s, w))
    ensures SpacesThenEnd(s, j)
  {
    var w := SpaceRunEnd(s, j);
    if w == |s| {
      assert AllSpace(s, j, w) && DollarAt(s, w);
    } else {
      NumberedMarkerIsLiteral(s, w);
      var k :| j <= k < w && s[k] == '\n';
      assert AllSpace(s, j, k);
      assert AllSpace(s, k + 1, w) && DigitsThenPunct(s, w);
      assert SpacesThenNumber(s, k + 1);
    }
  }

  /** A line feed and a numbered marker found by the literal reading are where the
      computed form looks. */
  lemma NewlineThenNumberIsComputed(s: string, j: nat, k: nat, n: nat, d: nat)
    requires j <= k < |s| && AllSpace(s, j, k) && s[k] == '\n'
    requires k + 1 <= n < d < |s| && AllSpace(s, k + 1, n) && AllDigits(s, n, d) && IsNumberPunct(s[d])
    ensures var w := SpaceRunEnd(s, j); HasLineFeed(s, j, w) && NumberedMarkerAt(s, w)
  {
    assert !IsSpace(s[n]);
    assert AllSpace(s, j, n);
    SpaceRunEndAt(s, j, n);
    assert j <= k < n && s[k] == '\n';
    DigitRunEndIsLongest(s, n, d);
    assert !IsDigit(s[d]);
  }

  /** The literal reading implies the computed form. */
  lemma SpacesThenEndImpliesComputed(s: string, j: nat)
    requires j <= |s|
    requires SpacesThenEnd(s, j)
    ensures var w := SpaceRunEnd(s, j); w == |s| || (HasLineFeed(s, j, w) && NumberedMarkerAt(s, w))
  {
    var k :| j <= k <= |s| && AllSpace(s, j, k)
      && ((k < |s| && s[k] == '\n' && SpacesThenNumber(s, k + 1)) || DollarAt(s, k));
    SpaceRunEndIsLongest(s, j, k);
    if k < |s| && s[k] == '\n' && SpacesThenNumber(s, k + 1) {
      var n :| k + 1 <= n <= |s| && AllSpace(s, k + 1, n) && DigitsThenPunct(s, n);
      var d :| n < d < |s| && AllDigits(s, n, d) && IsNumberPunct(s[d]);
      NewlineThenNumberIsComputed(s, j, k, n, d);
    } else if k < |s| {
      assert IsSpace(s[k]);
    }
  }

  /** EndsItemAt is the lookahead of the pattern. */
  lemma EndsItemAtIsLookahead(s: string, i: nat)
    requires i <= |s|
    ensures EndsItemAt(s, i) <==> LookaheadAt(s, i)
  {
    if EndsItemAt(s, i) {
      ComputedImpliesSpacesThenEnd(s, if i < |s| && s[i] == '"' then i + 1 else i);
    }
    if SpacesThenEnd(s, i) {
      SpacesThenEndImpliesComputed(s, i);
    }
    if i < |s| && s[i] == '"' {
      if SpacesThenEnd(s, i + 1) {
        SpacesThenEndImpliesComputed(s, i + 1);
      }
      // Not taking the quote cannot succeed: no whitespace run, line feed or `$` starts at a quote.
      assert SpaceRunEnd(s, i) == i;
      assert s[i..i] == [];
      assert !DollarAt(s, i);
    }
  }

  // ---------------------------------------------------------------------------
  // The scan.

  /** Where `\s*"?` leaves the scanner after an opener that ends at q, so that
      `(.+?)` starts there. Both take as much as they can; when that leaves nothing
      for `(.+?)`, the quote is given back first and then one whitespace character.
      None when even that leaves nothing. */
  function BodyStart(s: string, q: nat): (r: Option<nat>)
    requires q <= |s|
    ensures r.Some? ==> q <= r.value < |s|
  {
    var w := SpaceRunEnd(s, q);
    if w < |s| && s[w] == '"' then Some(if w + 1 < |s| then w + 1 else w)
    else if w < |s| then Some(w)
    else if q < w then Some(w - 1)
    else None
  }

  /** Where the capture group starts when the match is tried at position p, or None
      when no match starts at p. The opener `\d+[\.\)]?` takes the whole run of
      digits and a following `.` or `)`; when nothing is then left for the capture,
      the `.` or `)` is given back, and then one digit. */
  function CaptureStart(s: string, p: nat): (r: Option<nat>)
    requires p < |s|
    ensures r.Some? ==> p < r.value < |s|
    ensures r.Some? ==> IsOpener(s[p])
  {
    if IsDigit(s[p]) then
      var d := DigitRunEnd(s, p);
      if d < |s| && IsNumberPunct(s[d]) then
        match BodyStart(s, d + 1)
        case Some(c) => Some(c)
        case None => Some(d)              // the capture is the `.` or `)` itself
      else
        match BodyStart(s, d)
        case Some(c) => Some(c)
        case None => if p + 1 < d then Some(d - 1) else None   // the capture is the last digit
    else if s[p] == '-' || s[p] == '*' then BodyStart(s, p + 1)
    else None
  }

  /** The end of the lazy capture `(.+?)` that has covered s[c..e - 1] and may stop
      at e or later: the first position from e on at which the lookahead holds. */
  function LazyEnd(s: string, e: nat): (r: nat)
    requires 0 < e <= |s|
    ensures e <= r <= |s|
    ensures EndsItemAt(s, r)
    ensures forall k :: e <= k < r ==> !EndsItemAt(s, k)
    decreases |s| - e
  {
    if EndsItemAt(s, e) then e
    else
      assert e < |s| by { assert SpaceRunEnd(s, |s|) == |s|; }
      LazyEnd(s, e + 1)
  }

  // ---------------------------------------------------------------------------
  // Where the capture starts, read literally: every way `(?:\d+[\.\)]?|[-*])\s*"?`
  // can match is left open. The engine tries the greedy choice first and then gives
  // back one character at a time: the quote, then whitespace one by one, then the
  // `.` or `)`, then digits one by one. Each retry ends the prefix one position
  // earlier, and once a character is left, `(.+?)` and the lookahead always succeed,
  // because the lookahead holds at the end of the text. So the prefix the engine
  // settles on is the longest one that leaves a character for the capture.
  // CaptureStart and BodyStart are proved to compute exactly that.

  /** `(?:\d+[\.\)]?|[-*])` matches s[p..q]. */
  predicate OpenerSpans(s: string, p: nat, q: nat) {
    && p < q <= |s|
    && (|| AllDigits(s, p, q)
        || (p + 1 < q && AllDigits(s, p, q - 1) && IsNumberPunct(s[q - 1]))
        || (q == p + 1 && (s[p] == '-' || s[p] == '*')))
  }

  /** `\s*"?` matches s[q..c]. */
  predicate GapSpans(s: string, q: nat, c: nat) {
    && q <= c <= |s|
    && (AllSpace(s, q, c) || (q < c && s[c - 1] == '"' && AllSpace(s, q, c - 1)))
  }

  /** `(?:\d+[\.\)]?|[-*])\s*"?` matches s[p..c]. */
  ghost predicate LeadInSpans(s: string, p: nat, c: nat) {
    exists q: nat :: OpenerSpans(s, p, q) && GapSpans(s, q, c)
  }

  /** `\s*"?` from q may end at c, and no longer match of it leaves a character. */
  ghost predicate LongestGap(s: string, q: nat, c: nat) {
    c < |s| && GapSpans(s, q, c) && forall c': nat :: c < c' < |s| ==> !GapSpans(s, q, c')
  }

  /** The lead-in from p may end at c, and no longer lead-in leaves a character. */
  ghost predicate LongestLeadIn(s: string, p: nat, c: nat) {
    c < |s| && LeadInSpans(s, p, c) && forall c': nat :: c < c' < |s| ==> !LeadInSpans(s, p, c')
  }

  /** The ends of `\s*"?` from q: anywhere in the run of whitespace, or just after a
      quote that follows the whole run. */
  lemma GapEnds(s: string, q: nat, c: nat)
    requires q <= |s|
    ensures var w := SpaceRunEnd(s, q);
            GapSpans(s, q, c) <==> (q <= c <= w || (w < |s| && s[w] == '"' && c == w + 1))
  {
    var w := SpaceRunEnd(s, q);
    if GapSpans(s, q, c) {
      if AllSpace(s, q, c) {
        SpaceRunEndIsLongest(s, q, c);
      } else {
        SpaceRunEndIsLongest(s, q, c - 1);
      }
    }
  }

  /** BodyStart finds the longest `\s*"?` from q that leaves a character, when there is
      one at all. */
  lemma BodyStartFindsLongestGap(s: string, q: nat)
    requires q <= |s|
    ensures BodyStart(s, q).Some? ==> LongestGap(s, q, BodyStart(s, q).value)
    ensures BodyStart(s, q).None? ==> forall c: nat :: c < |s| ==> !GapSpans(s, q, c)
  {
    forall c: nat ensures var w := SpaceRunEnd(s, q);
                     GapSpans(s, q, c) <==> (q <= c <= w || (w < |s| && s[w] == '"' && c == w + 1)) {
      GapEnds(s, q, c);
    }
  }

  /** The capture after an opener that ends at q starts at c exactly when c ends the
      longest `\s*"?` from q that leaves a character. */
  lemma BodyStartIsLongestGap(s: string, q: nat, c: nat)
    requires q <= |s|
    ensures BodyStart(s, q) == Some(c) <==> LongestGap(s, q, c)
  {
    BodyStartFindsLongestGap(s, q);
  }

  /** BodyStart gives None exactly when every `\s*"?` from q uses up the text. */
  lemma NoBodyStartNoGap(s: string, q: nat)
    requires q <= |s|
    ensures BodyStart(s, q).None? <==> forall c: nat :: c < |s| ==> !GapSpans(s, q, c)
  {
    BodyStartFindsLongestGap(s, q);
  }

  /** The ends of `\d+[\.\)]?` from a digit at p: inside or at the end of the run of
      digits, or just after a `.` or `)` that follows the run. */
  lemma DigitOpenerEnds(s: string, p: nat, q: nat)
    requires p < |s| && IsDigit(s[p])
    ensures var d := DigitRunEnd(s, p);
            OpenerSpans(s, p, q) <==> (p < q <= d || (d < |s| && IsNumberPunct(s[d]) && q == d + 1))
  {
    var d := DigitRunEnd(s, p);
    if OpenerSpans(s, p, q) {
      if AllDigits(s, p, q) {
        DigitRunEndIsLongest(s, p, q);
      } else {
        DigitRunEndIsLongest(s, p, q - 1);
      }
    }
  }

  /** Inside a run of digits, `\s*"?` can only match the empty text. */
  lemma GapInsideDigits(s: string, q: nat, c: nat)
    requires q < |s| && IsDigit(s[q])
    ensures GapSpans(s, q, c) <==> c == q
  {
    GapEnds(s, q, c);
  }

  /** After a `.` or `)`, likewise. */
  lemma GapAtPunct(s: string, q: nat, c: nat)
    requires q < |s| && IsNumberPunct(s[q])
    ensures GapSpans(s, q, c) <==> c == q
  {
    GapEnds(s, q, c);
  }

  /** The lead-in from a digit at p ends inside the run of digits, or where `\s*"?`
      from the end of the run ends, or where it ends from after a `.` or `)`. */
  lemma DigitLeadIn(s: string, p: nat, c: nat)
    requires p < |s| && IsDigit(s[p])
    ensures var d := DigitRunEnd(s, p);
            LeadInSpans(s, p, c) <==>
              (p < c < d || GapSpans(s, d, c) || (d < |s| && IsNumberPunct(s[d]) && GapSpans(s, d + 1, c)))
  {
    var d := DigitRunEnd(s, p);
    if LeadInSpans(s, p, c) {
      var q: nat :| OpenerSpans(s, p, q) && GapSpans(s, q, c);
      DigitOpenerEnds(s, p, q);
      if q < d {
        GapInsideDigits(s, q, c);
      }
    }
    if p < c < d {
      DigitOpenerEnds(s, p, c);
      assert OpenerSpans(s, p, c) && GapSpans(s, c, c);
    } else if GapSpans(s, d, c) {
      DigitOpenerEnds(s, p, d);
      assert OpenerSpans(s, p, d);
    } else if d < |s| && IsNumberPunct(s[d]) && GapSpans(s, d + 1, c) {
      DigitOpenerEnds(s, p, d + 1);
      assert OpenerSpans(s, p, d + 1);
    }
  }

  /** The lead-in from a `-` or `*` at p is that character and `\s*"?`. */
  lemma BulletLeadIn(s: string, p: nat, c: nat)
    requires p < |s| && (s[p] == '-' || s[p] == '*')
    ensures LeadInSpans(s, p, c) <==> GapSpans(s, p + 1, c)
  {
    assert !IsDigit(s[p]);
    if GapSpans(s, p + 1, c) {
      assert OpenerSpans(s, p, p + 1);
    }
  }

  /** No lead-in starts at a character that is not a digit, `-` or `*`. */
  lemma NoOpenerNoLeadIn(s: string, p: nat, c: nat)
    requires p < |s| && !IsOpener(s[p])
    ensures !LeadInSpans(s, p, c)
  {
    assert !IsDigit(s[p]);
  }

  /** After digits and a `.` or `)`, the capture starts where the longest lead-in
      ends. */
  lemma PunctCaptureStart(s: string, p: nat)
    requires p < |s| && IsDigit(s[p])
    requires var d := DigitRunEnd(s, p); d < |s| && IsNumberPunct(s[d])
    ensures CaptureStart(s, p).Some? && LongestLeadIn(s, p, CaptureStart(s, p).value)
  {
    var d := DigitRunEnd(s, p);
    BodyStartFindsLongestGap(s, d + 1);
    forall c: nat ensures LeadInSpans(s, p, c) <==> (p < c < d || c == d || GapSpans(s, d + 1, c)) {
      DigitLeadIn(s, p, c);
      GapAtPunct(s, d, c);
    }
  }

  /** After digits and no `.` or `)`, likewise. */
  lemma DigitsCaptureStart(s: string, p: nat)
    requires p < |s| && IsDigit(s[p])
    requires var d := DigitRunEnd(s, p); !(d < |s| && IsNumberPunct(s[d]))
    ensures CaptureStart(s, p).Some? ==> LongestLeadIn(s, p, CaptureStart(s, p).value)
    ensures CaptureStart(s, p).None? ==> forall c: nat :: c < |s| ==> !LeadInSpans(s, p, c)
  {
    var d := DigitRunEnd(s, p);
    BodyStartFindsLongestGap(s, d);
    assert GapSpans(s, d, d);
    forall c: nat ensures LeadInSpans(s, p, c) <==> (p < c < d || GapSpans(s, d, c)) {
      DigitLeadIn(s, p, c);
    }
  }

  /** After a `-` or `*`, likewise. */
  lemma BulletCaptureStart(s: string, p: nat)
    requires p < |s| && (s[p] == '-' || s[p] == '*')
    ensures CaptureStart(s, p).Some? ==> LongestLeadIn(s, p, CaptureStart(s, p).value)
    ensures CaptureStart(s, p).None? ==> forall c: nat :: c < |s| ==> !LeadInSpans(s, p, c)
  {
    BodyStartFindsLongestGap(s, p + 1);
    forall c: nat ensures LeadInSpans(s, p, c) <==> GapSpans(s, p + 1, c) {
      BulletLeadIn(s, p, c);
    }
  }

  lemma CaptureStartFindsLongestLeadIn(s: string, p: nat)
    requires p < |s|
    ensures CaptureStart(s, p).Some? ==> LongestLeadIn(s, p, CaptureStart(s, p).value)
    ensures CaptureStart(s, p).None? ==> forall c: nat :: c < |s| ==> !LeadInSpans(s, p, c)
  {
    if IsDigit(s[p]) {
      var d := DigitRunEnd(s, p);
      if d < |s| && IsNumberPunct(s[d]) {
        PunctCaptureStart(s, p);
      } else {
        DigitsCaptureStart(s, p);
      }
    } else if s[p] == '-' || s[p] == '*' {
      BulletCaptureStart(s, p);
    } else {
      forall c: nat ensures !LeadInSpans(s, p, c) {
        NoOpenerNoLeadIn(s, p, c);
      }
    }
  }

  /** The match tried at p has its capture start at c exactly when
      `(?:\d+[\.\)]?|[-*])\s*"?` can match s[p..c] and no longer match of it leaves
      a character for the capture. */
  lemma CaptureStartIsLongestLeadIn(s: string, p: nat, c: nat)
    requires p < |s|
    ensures CaptureStart(s, p) == Some(c) <==> LongestLeadIn(s, p, c)
  {
    CaptureStartFindsLongestLeadIn(s, p);
  }

  /** No match is tried at p exactly when every match of the lead-in from p uses up the
      text. */
  lemma NoCaptureStartNoLeadIn(s: string, p: nat)
    requires p < |s|
    ensures CaptureStart(s, p).None? <==> forall c: nat :: c < |s| ==> !LeadInSpans(s, p, c)
  {
    CaptureStartFindsLongestLeadIn(s, p);
  }

  /** One match: it opens at position opener, its capture group spans
      s[start..end], and text is what the group captured. */
  datatype Match = Match(opener: nat, start: nat, end: nat, text: string)

  /** A match sits in the text: it opens at a digit, `-` or `*` before its capture,
      and its text is the non-empty piece s[start..end]. */
  predicate InText(s: string, m: Match) {
    m.opener < m.start < m.end <= |s| && IsOpener(s[m.opener]) && m.text == s[m.start..m.end]
  }

  /** Every match sits in the text at or after pos, and each opens at or after the end
      of the capture before it, so the matches come in text order and do not overlap. */
  predicate Ordered(s: string, pos: nat, ms: seq<Match>) {
    && (forall i :: 0 <= i < |ms| ==> pos <= ms[i].opener && InText(s, ms[i]))
    && (forall i :: 0 < i < |ms| ==> ms[i - 1].end <= ms[i].opener)
  }

  /** The matches re.findall finds from position pos on: a match is tried at every
      position in turn, and after a match the scan resumes where its capture ended
      (the lookahead consumes nothing). Each match takes at least two characters,
      its opener and a non-empty capture, so there are at most half as many matches
      as characters left. */
  function MatchesFrom(s: string, pos: nat): (r: seq<Match>)
    requires pos <= |s|
    ensures 2 * |r| <= |s| - pos
    decreases |s| - pos
  {
    if pos == |s| then []
    else
      match CaptureStart(s, pos)
      case None => MatchesFrom(s, pos + 1)
      case Some(c) =>
        var e := LazyEnd(s, c + 1);
        [Match(pos, c, e, s[c..e])] + MatchesFrom(s, e)
  }

  /** The matches of the whole text. */
  function Matches(s: string): seq<Match> {
    MatchesFrom(s, 0)
  }

  /** The strings re.findall returns: the captured texts, in order. */
  function Captures(s: string): (r: seq<string>)
    ensures |r| == |Matches(s)|
  {
    var m := Matches(s);
    seq(|m|, i requires 0 <= i < |m| => m[i].text)
  }

  // ---------------------------------------------------------------------------
  // What the scan guarantees.

  /** Where a match opens, the scan takes it and resumes at the end of its capture. */
  lemma MatchAt(s: string, p: nat, c: nat, e: nat)
    requires p < |s|
    requires CaptureStart(s, p) == Some(c)
    requires e == LazyEnd(s, c + 1)
    ensures MatchesFrom(s, p) == [Match(p, c, e, s[c..e])] + MatchesFrom(s, e)
  {
  }

  /** A match in the text, followed by matches in order from the end of its capture,
      gives matches in order. */
  lemma OrderedCons(s: string, pos: nat, m: Match, ms: seq<Match>)
    requires pos <= m.opener && InText(s, m) && Ordered(s, m.end, ms)
    ensures Ordered(s, pos, [m] + ms)
  {
    var r := [m] + ms;
    forall i | 0 < i < |r|
      ensures pos <= r[i].opener && InText(s, r[i]) && r[i - 1].end <= r[i].opener
    {
      assert r[i] == ms[i - 1];
      if 1 < i {
        assert r[i - 1] == ms[i - 2];
      }
    }
  }

  /** Where no match opens, the matches from the next position are in order from here. */
  lemma OrderedPastNoMatch(s: string, pos: nat)
    requires pos < |s| && CaptureStart(s, pos).None?
    requires Ordered(s, pos + 1, MatchesFrom(s, pos + 1))
    ensures Ordered(s, pos, MatchesFrom(s, pos))
  {
    NoMatchAtPosition(s, pos);
  }

  lemma {:induction false} MatchesFromOrdered(s: string, pos: nat)
    requires pos <= |s|
    ensures Ordered(s, pos, MatchesFrom(s, pos))
    decreases |s| - pos
  {
    if pos < |s| {
      var cs := CaptureStart(s, pos);
      if cs.None? {
        MatchesFromOrdered(s, pos + 1);
        OrderedPastNoMatch(s, pos);
      } else {
        var c := cs.value;
        var e := LazyEnd(s, c + 1);
        MatchAt(s, pos, c, e);
        MatchesFromOrdered(s, e);
        OrderedCons(s, pos, Match(pos, c, e, s[c..e]), MatchesFrom(s, e));
      }
    }
  }

  /** The capture of a match is lazy: it ends at the first position after its start
      where the lookahead holds. */
  predicate IsLazy(s: string, m: Match) {
    m.end <= |s| && EndsItemAt(s, m.end) && forall k :: m.start < k < m.end ==> !EndsItemAt(s, k)
  }

  predicate AllLazy(s: string, ms: seq<Match>) {
    forall i :: 0 <= i < |ms| ==> IsLazy(s, ms[i])
  }

  lemma LazyCons(s: string, m: Match, rest: seq<Match>)
    requires IsLazy(s, m) && AllLazy(s, rest)
    ensures AllLazy(s, [m] + rest)
  {
    var r := [m] + rest;
    forall i | 0 <= i < |r| ensures IsLazy(s, r[i]) {
      if i > 0 {
        assert r[i] == rest[i - 1];
      }
    }
  }

  lemma {:induction false} CapturesLazyFrom(s: string, pos: nat)
    requires pos <= |s|
    ensures AllLazy(s, MatchesFrom(s, pos))
    decreases |s| - pos
  {
    if pos < |s| {
      var cs := CaptureStart(s, pos);
      if cs.None? {
        CapturesLazyFrom(s, pos + 1);
        NoMatchAtPosition(s, pos);
      } else {
        var c := cs.value;
        var e := LazyEnd(s, c + 1);
        MatchAt(s, pos, c, e);
        CapturesLazyFrom(s, e);
        LazyCons(s, Match(pos, c, e, s[c..e]), MatchesFrom(s, e));
      }
    }
  }

  /** Where no match opens, the scan goes straight on to the next position. */
  lemma NoMatchAtPosition(s: string, pos: nat)
    requires pos < |s| && CaptureStart(s, pos).None?
    ensures MatchesFrom(s, pos) == MatchesFrom(s, pos + 1)
  {
  }

  /** Every capture is a non-empty piece of the text; the pieces come in text order
      and do not overlap; each ends at the first position after its start where the
      lookahead holds, so none reaches past a line that starts a new numbered item. */
  lemma CapturesAreLazyAndOrdered(s: string)
    ensures Ordered(s, 0, Matches(s))
    ensures forall i :: 0 <= i < |Matches(s)| ==>
      var m := Matches(s)[i];
      && Captures(s)[i] == s[m.start..m.end] && Captures(s)[i] != []
      && IsLazy(s, m)
  {
    MatchesFromOrdered(s, 0);
    CapturesLazyFrom(s, 0);
  }

  /** Inside a capture, after its first character, no line feed is followed by a
      numbered marker: such a line always starts the next item. */
  lemma NoNumberedLineInsideCapture(s: string, i: nat, k: nat)
    requires i < |Matches(s)|
    requires Matches(s)[i].start < k < Matches(s)[i].end
    ensures k < |s| && !(s[k] == '\n' && NumberedMarkerAt(s, SpaceRunEnd(s, k + 1)))
  {
    CapturesAreLazyAndOrdered(s);
    if s[k] == '\n' && NumberedMarkerAt(s, SpaceRunEnd(s, k + 1)) {
      NumberedLineEndsItem(s, k);
      assert false;
    }
  }

  /** Some match of the list runs from at or before p to beyond p. */
  predicate Covers(r: seq<Match>, p: nat) {
    exists i :: 0 <= i < |r| && r[i].opener <= p < r[i].end
  }

  lemma CoversAfterFirst(m: Match, r: seq<Match>, p: nat)
    requires Covers(r, p)
    ensures Covers([m] + r, p)
  {
    var i :| 0 <= i < |r| && r[i].opener <= p < r[i].end;
    assert ([m] + r)[i + 1] == r[i];
  }

  /** No match is skipped: every position at which a match could start lies within
      a match that was found, from its opener to the end of its capture. */
  lemma {:induction false} NoMatchSkipped(s: string, pos: nat, p: nat)
    requires pos <= p < |s|
    requires CaptureStart(s, p).Some?
    ensures Covers(MatchesFrom(s, pos), p)
    decreases |s| - pos
  {
    match CaptureStart(s, pos)
    case None =>
      NoMatchSkipped(s, pos + 1, p);
    case Some(c) =>
      var e := LazyEnd(s, c + 1);
      var r := MatchesFrom(s, pos);
      MatchAt(s, pos, c, e);
      if p < e {
        assert r[0].opener <= p < r[0].end;
      } else {
        NoMatchSkipped(s, e, p);
        CoversAfterFirst(Match(pos, c, e, s[c..e]), MatchesFrom(s, e), p);
      }
  }

  /** A text with no digit, `-` or `*` has no matches. */
  lemma {:induction false} NoOpenerNoMatches(s: string, pos: nat)
    requires pos <= |s|
    requires forall k :: pos <= k < |s| ==> !IsOpener(s[k])
    ensures MatchesFrom(s, pos) == []
    decreases |s| - pos
  {
    if pos < |s| {
      assert CaptureStart(s, pos) == None;
      NoOpenerNoMatches(s, pos + 1);
    }
  }

  /** A position that cannot open a match is passed over. */
  lemma NoMatchAt(s: string, p: nat)
    requires p < |s| && !IsOpener(s[p])
    ensures MatchesFrom(s, p) == MatchesFrom(s, p + 1)
  {
    assert CaptureStart(s, p) == None;
  }

  /** A capture over text with no line feed and no quote, whose last character is
      not whitespace, runs to the first place after it where the lookahead holds. */
  lemma PlainTextCapture(s: string, c: nat, e: nat)
    requires c < e <= |s|
    requires forall k :: c <= k < e ==> s[k] != '\n' && s[k] != '"'
    requires !IsSpace(s[e - 1])
    requires EndsItemAt(s, e)
    ensures LazyEnd(s, c + 1) == e
  {
    forall r | c + 1 <= r < e
      ensures !EndsItemAt(s, r)
    {
      var w := SpaceRunEnd(s, r);
      assert !HasLineFeed(s, r, w);
    }
  }

  // ---------------------------------------------------------------------------
  // Numbered listings: one question per line, each line opened by a number.

  /** A non-empty run of decimal digits. */
  predicate Numeral(num: string) {
    num != [] && forall k :: 0 <= k < |num| ==> IsDigit(num[k])
  }

  /** A line of question text: non-empty, with no line feed and no double quote, and
      neither starting nor ending with whitespace. */
  predicate PlainLine(q: string) {
    && q != [] && !IsSpace(q[0]) && !IsSpace(q[|q| - 1])
    && forall k :: 0 <= k < |q| ==> q[k] != '\n' && q[k] != '"'
  }

  /** The text "n1. q1\nn2. q2\n...": line i is numbered nums[i] and holds qs[i]. */
  function Listing(nums: seq<string>, qs: seq<string>): string
    requires |nums| == |qs|
  {
    if qs == [] then ""
    else nums[0] + ". " + qs[0] + "\n" + Listing(nums[1..], qs[1..])
  }

  /** A line feed opens no match. */
  lemma SkipLineFeed(s: string, e: nat)
    requires e < |s| && s[e] == '\n'
    ensures MatchesFrom(s, e) == MatchesFrom(s, e + 1)
  {
    assert CaptureStart(s, e) == None;
  }

  /** A match whose capture stops at a line feed; the scan resumes after it. */
  lemma MatchThenLineFeed(s: string, p: nat, c: nat, e: nat)
    requires p < |s|
    requires CaptureStart(s, p) == Some(c)
    requires LazyEnd(s, c + 1) == e
    requires e < |s| && s[e] == '\n'
    ensures MatchesFrom(s, p) == [Match(p, c, e, s[c..e])] + MatchesFrom(s, e + 1)
  {
    MatchAt(s, p, c, e);
    SkipLineFeed(s, e);
  }

  /** Digits followed by `.` or `)` are a numbered marker. */
  lemma DigitsThenPunctAt(s: string, p: nat, d: nat)
    requires p < d < |s|
    requires forall k :: p <= k < d ==> IsDigit(s[k])
    requires IsNumberPunct(s[d])
    ensures DigitRunEnd(s, p) == d
    ensures NumberedMarkerAt(s, p)
  {
    assert AllDigits(s, p, d);
    DigitRunEndIsLongest(s, p, d);
  }

  /** On a listing line the capture starts at the line's text. */
  lemma LineCaptureStart(s: string, p: nat, d: nat)
    requires p < d && d + 2 < |s|
    requires forall k :: p <= k < d ==> IsDigit(s[k])
    requires s[d] == '.' && s[d + 1] == ' '
    requires !IsSpace(s[d + 2]) && s[d + 2] != '"'
    ensures CaptureStart(s, p) == Some(d + 2)
  {
    DigitsThenPunctAt(s, p, d);
    assert SpaceRunEnd(s, d + 2) == d + 2;
    assert SpaceRunEnd(s, d + 1) == d + 2;
  }

  /** On a listing line the capture ends at the line feed, when the next line is
      numbered or the text ends there. */
  lemma LineCaptureEnd(s: string, c: nat, e: nat)
    requires c < e < |s|
    requires forall k :: c <= k < e ==> s[k] != '\n' && s[k] != '"'
    requires !IsSpace(s[e - 1]) && s[e] == '\n'
    requires e + 1 == |s| || NumberedMarkerAt(s, e + 1)
    ensures LazyEnd(s, c + 1) == e
  {
    assert SpaceRunEnd(s, e + 1) == e + 1;
    assert SpaceRunEnd(s, e) == e + 1;
    assert HasLineFeed(s, e, e + 1);
    assert EndsItemAt(s, e);
    PlainTextCapture(s, c, e);
  }

  /** One line of a listing gives one match, whose capture is the line's text, and
      the scan resumes at the start of the next line. */
  lemma LineMatch(s: string, p: nat, d: nat, e: nat)
    requires p < d && d + 2 < e < |s|
    requires forall k :: p <= k < d ==> IsDigit(s[k])
    requires s[d] == '.' && s[d + 1] == ' '
    requires forall k :: d + 2 <= k < e ==> s[k] != '\n' && s[k] != '"'
    requires !IsSpace(s[d + 2]) && !IsSpace(s[e - 1]) && s[e] == '\n'
    requires e + 1 == |s| || NumberedMarkerAt(s, e + 1)
    ensures MatchesFrom(s, p) == [Match(p, d + 2, e, s[d + 2..e])] + MatchesFrom(s, e + 1)
  {
    LineCaptureStart(s, p, d);
    LineCaptureEnd(s, d + 2, e);
    MatchThenLineFeed(s, p, d + 2, e);
  }

  /** The line "num. q\n" is written in s from position p on. */
  predicate LineAt(s: string, p: nat, num: string, q: string) {
    && p + |num| + |q| + 3 <= |s|
    && (forall k :: 0 <= k < |num| ==> s[p + k] == num[k])
    && s[p + |num|] == '.' && s[p + |num| + 1] == ' '
    && (forall k :: 0 <= k < |q| ==> s[p + |num| + 2 + k] == q[k])
    && s[p + |num| + 2 + |q|] == '\n'
  }

  /** The listing of nums and qs is written in s from position p to its end. */
  predicate ListingAt(s: string, p: nat, nums: seq<string>, qs: seq<string>)
    requires |nums| == |qs|
    decreases |qs|
  {
    if qs == [] then p == |s|
    else LineAt(s, p, nums[0], qs[0]) && ListingAt(s, p + |nums[0]| + |qs[0]| + 3, nums[1..], qs[1..])
  }

  /** The listing's first line, then the rest of it. */
  lemma ListingSplit(s: string, p: nat, nums: seq<string>, qs: seq<string>)
    requires |nums| == |qs| && qs != []
    requires p <= |s| && s[p..] == Listing(nums, qs)
    ensures var n := p + |nums[0]| + |qs[0]| + 3;
            && n <= |s|
            && s[p..n] == nums[0] + ". " + qs[0] + "\n"
            && s[n..] == Listing(nums[1..], qs[1..])
  {
    var line := nums[0] + ". " + qs[0] + "\n";
    var n := p + |line|;
    assert s[p..] == line + Listing(nums[1..], qs[1..]);
    assert s[p..n] == s[p..][..|line|];
    assert s[n..] == s[p..][|line|..];
  }

  /** A line found in s at position p is written there. */
  lemma LineWritten(s: string, p: nat, num: string, q: string)
    requires p + |num| + |q| + 3 <= |s|
    requires s[p..p + |num| + |q| + 3] == num + ". " + q + "\n"
    ensures LineAt(s, p, num, q)
  {
    var line := num + ". " + q + "\n";
    forall k | 0 <= k < |line|
      ensures s[p + k] == line[k]
    {
      assert s[p..p + |line|][k] == s[p + k];
    }
    forall k | 0 <= k < |num|
      ensures s[p + k] == num[k]
    {
      assert line[k] == num[k];
    }
    forall k | 0 <= k < |q|
      ensures s[p + |num| + 2 + k] == q[k]
    {
      assert line[|num| + 2 + k] == q[k];
    }
    assert s[p + |num|] == line[|num|];
    assert s[p + |num| + 1] == line[|num| + 1];
    assert s[p + |num| + 2 + |q|] == line[|num| + 2 + |q|];
  }

  /** The text Listing builds is laid out line by line. */
  lemma {:induction false} ListingLaidOut(s: string, p: nat, nums: seq<string>, qs: seq<string>)
    requires |nums| == |qs|
    requires p <= |s| && s[p..] == Listing(nums, qs)
    ensures ListingAt(s, p, nums, qs)
    decreases |qs|
  {
    if qs != [] {
      ListingSplit(s, p, nums, qs);
      LineWritten(s, p, nums[0], qs[0]);
      ListingLaidOut(s, p + |nums[0]| + |qs[0]| + 3, nums[1..], qs[1..]);
    }
  }

  /** The parts of a listing line that its match depends on. */
  lemma LineFacts(s: string, p: nat, num: string, q: string)
    requires Numeral(num) && PlainLine(q) && LineAt(s, p, num, q)
    ensures var d := p + |num|;
            var e := d + 2 + |q|;
            && (forall k :: p <= k < d ==> IsDigit(s[k]))
            && (forall k :: d + 2 <= k < e ==> s[k] != '\n' && s[k] != '"')
            && !IsSpace(s[d + 2]) && !IsSpace(s[e - 1])
            && s[d + 2..e] == q
  {
    var d := p + |num|;
    var c := d + 2;
    var e := c + |q|;
    forall k | p <= k < d
      ensures IsDigit(s[k])
    {
      assert s[p + (k - p)] == num[k - p];
    }
    forall k | c <= k < e
      ensures s[k] != '\n' && s[k] != '"'
    {
      assert s[c + (k - c)] == q[k - c];
    }
    assert s[c + 0] == q[0];
    assert s[c + (|q| - 1)] == q[|q| - 1];
    forall k | 0 <= k < |q|
      ensures s[c..e][k] == q[k]
    {
      assert s[c + k] == q[k];
    }
  }

  /** Where a listing starts, a numbered marker starts, unless the listing is empty. */
  lemma ListingStartsNumbered(s: string, p: nat, nums: seq<string>, qs: seq<string>)
    requires |nums| == |qs|
    requires forall i :: 0 <= i < |qs| ==> Numeral(nums[i]) && PlainLine(qs[i])
    requires ListingAt(s, p, nums, qs)
    ensures p == |s| || NumberedMarkerAt(s, p)
  {
    if qs != [] {
      LineFacts(s, p, nums[0], qs[0]);
      DigitsThenPunctAt(s, p, p + |nums[0]|);
    }
  }

  /** The parts of a list that starts with m. */
  lemma ConsParts(m: Match, r: seq<Match>, t: seq<Match>)
    requires t == [m] + r
    ensures |t| == |r| + 1 && t[0] == m
    ensures forall i :: 0 <= i < |r| ==> t[i + 1] == r[i]
  {
  }

  /** The first line of a listing gives the first match, and the scan resumes at
      the start of the rest of the listing. */
  lemma ListingFirstMatch(s: string, p: nat, nums: seq<string>, qs: seq<string>) returns (n: nat)
    requires |nums| == |qs| && qs != []
    requires forall i :: 0 <= i < |qs| ==> Numeral(nums[i]) && PlainLine(qs[i])
    requires p <= |s| && ListingAt(s, p, nums, qs)
    ensures p < n <= |s| && ListingAt(s, n, nums[1..], qs[1..])
    ensures |MatchesFrom(s, p)| == |MatchesFrom(s, n)| + 1
    ensures MatchesFrom(s, p)[0].text == qs[0]
    ensures forall i :: 0 <= i < |MatchesFrom(s, n)| ==> MatchesFrom(s, p)[i + 1] == MatchesFrom(s, n)[i]
  {
    var d := p + |nums[0]|;
    var e := d + 2 + |qs[0]|;
    n := e + 1;
    LineFacts(s, p, nums[0], qs[0]);
    ListingStartsNumbered(s, n, nums[1..], qs[1..]);
    LineMatch(s, p, d, e);
    ConsParts(Match(p, d + 2, e, s[d + 2..e]), MatchesFrom(s, n), MatchesFrom(s, p));
  }

  /** A listing gives one match per line, and match i captures exactly line i's
      text: the number, its `.` and the space after it are not part of it. */
  lemma {:induction false} ListingMatches(s: string, p: nat, nums: seq<string>, qs: seq<string>)
    requires |nums| == |qs|
    requires forall i :: 0 <= i < |qs| ==> Numeral(nums[i]) && PlainLine(qs[i])
    requires p <= |s| && ListingAt(s, p, nums, qs)
    ensures var m := MatchesFrom(s, p);
            |m| == |qs| && forall i :: 0 <= i < |qs| ==> m[i].text == qs[i]
    decreases |qs|
  {
    if qs != [] {
      var n := ListingFirstMatch(s, p, nums, qs);
      ListingMatches(s, n, nums[1..], qs[1..]);
      forall i | 1 <= i < |qs|
        ensures MatchesFrom(s, p)[i].text == qs[i]
      {
        assert MatchesFrom(s, p)[i] == MatchesFrom(s, n)[i - 1];
        assert qs[1..][i - 1] == qs[i];
      }
    }
  }

  /** A bullet never ends an item: where whitespace (possibly none) is followed by
      `-` or `*`, the lookahead fails. */
  lemma BulletNeverEndsItem(s: string, i: nat, k: nat)
    requires i <= k < |s|
    requires AllSpace(s, i, k)
    requires s[k] == '-' || s[k] == '*'
    ensures !EndsItemAt(s, i)
  {
    assert s[i] != '"' by {
      if i < k { assert IsSpace(s[i]); }
    }
    SpaceRunEndAt(s, i, k);
  }

  /** No capture stops in front of a bullet: whatever whitespace follows the end of
      a capture, it is not followed by `-` or `*`. */
  lemma NoCaptureEndsBeforeBullet(s: string, i: nat, k: nat)
    requires i < |Matches(s)|
    requires Matches(s)[i].end <= k < |s|
    requires AllSpace(s, Matches(s)[i].end, k)
    ensures s[k] != '-' && s[k] != '*'
  {
    CapturesAreLazyAndOrdered(s);
    if s[k] == '-' || s[k] == '*' {
      BulletNeverEndsItem(s, Matches(s)[i].end, k);
    }
  }

  /** A line feed followed by a numbered marker does end an item. */
  lemma NumberedLineEndsItem(s: string, i: nat)
    requires i < |s| && s[i] == '\n'
    requires NumberedMarkerAt(s, SpaceRunEnd(s, i + 1))
    ensures EndsItemAt(s, i)
  {
    var w := SpaceRunEnd(s, i + 1);
    assert AllSpace(s, i, w);
    assert !IsSpace(s[w]);
    SpaceRunEndAt(s, i, w);
    assert i < w;
  }
}
