/** Turning the text a language model returns into at most eight interview questions. */
module Questions {
  import opened Wrappers
  import opened Text
  import Json
  import QuestionPattern

  /** The number of questions an interview keeps. */
  const MaxQuestions: nat := 8

  /** The items the list pattern finds, each stripped of surrounding whitespace and
      then of every double quote. */
  function PatternQuestions(content: string): (r: seq<string>)
    ensures |r| == |QuestionPattern.Captures(content)|
  {
    var caps := QuestionPattern.Captures(content);
    seq(|caps|, i requires 0 <= i < |caps| => RemoveQuotes(Strip(caps[i])))
  }

  /** The questions in a reply: the first eight entries when the whole reply is a
      JSON array, otherwise the first eight items of a numbered or bulleted list. */
  function ParseQuestions(content: string): (r: seq<string>)
    ensures |r| <= MaxQuestions
  {
    match Json.DecodeStringArray(content)
    case Some(items) => Take(items, MaxQuestions)
    case None => Take(PatternQuestions(content), MaxQuestions)
  }

  /** A reply that is a JSON array of strings, laid out with any whitespace between
      its tokens, gives back its first eight strings unchanged: quotes and whitespace
      inside them are kept. */
  lemma JsonArrayIsTakenAsIs(qs: seq<string>, l: Json.Layout)
    requires Json.Fits(l, |qs|)
    ensures ParseQuestions(Json.EncodeStringArray(qs, l)) == Take(qs, MaxQuestions)
    ensures |qs| <= MaxQuestions ==> ParseQuestions(Json.EncodeStringArray(qs, l)) == qs
  {
    Json.DecodeEncodedArray(qs, l);
  }

  /** A reply that is not a JSON array of strings is read as a list: question k
      is the k-th captured item, stripped and without double quotes, and there are
      as many questions as items, up to eight. */
  lemma ListReplyQuestions(content: string)
    requires Json.DecodeStringArray(content) == None
    ensures var r := ParseQuestions(content);
            var m := QuestionPattern.Matches(content);
            && |r| == (if |m| <= MaxQuestions then |m| else MaxQuestions)
            && forall k :: 0 <= k < |r| ==>
                 && m[k].start < m[k].end <= |content|
                 && r[k] == RemoveQuotes(Strip(content[m[k].start..m[k].end]))
                 && '"' !in r[k]
  {
    QuestionPattern.CapturesAreLazyAndOrdered(content);
  }

  /** Every question of a list reply comes from text that does not cross a line
      starting with a new number: the next numbered line always starts a new item. */
  lemma ListQuestionsStopAtNumberedLines(content: string, k: nat, j: nat)
    requires Json.DecodeStringArray(content) == None
    requires k < |QuestionPattern.Matches(content)| && k < MaxQuestions
    requires QuestionPattern.Matches(content)[k].start < j < QuestionPattern.Matches(content)[k].end
    ensures k < |ParseQuestions(content)|
    ensures j < |content| && !(content[j] == '\n' && QuestionPattern.NumberedMarkerAt(content, SpaceRunEnd(content, j + 1)))
  {
    ListReplyQuestions(content);
    QuestionPattern.NoNumberedLineInsideCapture(content, k, j);
  }

  /** A reply that is not a JSON array of strings and has no digit, dash or asterisk
      anywhere. */
  predicate HasNoList(content: string) {
    && Json.DecodeStringArray(content) == None
    && forall k :: 0 <= k < |content| ==> !QuestionPattern.IsOpener(content[k])
  }

  /** A reply with neither a JSON array nor any digit, dash or asterisk yields no
      questions at all (the caller then reports that generation failed). */
  lemma NoListNoQuestions(content: string)
    requires HasNoList(content)
    ensures ParseQuestions(content) == []
  {
    QuestionPattern.NoOpenerNoMatches(content, 0);
  }

  /** A reply laid out as numbered lines "n. question", one question per line, gives
      back its first eight questions exactly. */
  lemma NumberedListingQuestions(nums: seq<string>, qs: seq<string>)
    requires |nums| == |qs|
    requires forall i :: 0 <= i < |qs| ==> QuestionPattern.Numeral(nums[i]) && QuestionPattern.PlainLine(qs[i])
    ensures ParseQuestions(QuestionPattern.Listing(nums, qs)) == Take(qs, MaxQuestions)
  {
    var s := QuestionPattern.Listing(nums, qs);
    ListingIsNotAnArray(nums, qs);
    QuestionPattern.ListingLaidOut(s, 0, nums, qs);
    QuestionPattern.ListingMatches(s, 0, nums, qs);
    var r := PatternQuestions(s);
    forall i | 0 <= i < |qs|
      ensures r[i] == qs[i]
    {
      PlainLineIsKept(qs[i]);
    }
    assert r == qs;
  }

  /** A numbered listing opens with a digit, so it is not a JSON array. */
  lemma ListingIsNotAnArray(nums: seq<string>, qs: seq<string>)
    requires |nums| == |qs|
    requires forall i :: 0 <= i < |qs| ==> QuestionPattern.Numeral(nums[i]) && QuestionPattern.PlainLine(qs[i])
    ensures Json.DecodeStringArray(QuestionPattern.Listing(nums, qs)) == None
  {
    var s := QuestionPattern.Listing(nums, qs);
    if qs != [] {
      assert s[0] == nums[0][0];
      assert Json.SkipJsonSpace(s) == s;
    }
    Json.NotAnArray(s);
  }

  /** The text of a plain line survives stripping and quote removal unchanged. */
  lemma PlainLineIsKept(q: string)
    requires QuestionPattern.PlainLine(q)
    ensures RemoveQuotes(Strip(q)) == q
  {
    StripUnspaced(q);
    assert '"' !in q by {
      forall k | 0 <= k < |q| ensures q[k] != '"' { }
    }
  }

  lemma NumberedReplySecondLine()
    ensures QuestionPattern.Listing(["2"], ["Explain CAP theorem"]) == "2. Explain CAP theorem\n"
  {
    assert QuestionPattern.Listing([], []) == "";
    assert "2" + ". " + "Explain CAP theorem" + "\n" == "2. Explain CAP theorem\n";
  }

  lemma NumberedReplyFirstLine()
    ensures QuestionPattern.Listing(["1", "2"], ["What is a closure?", "Explain CAP theorem"])
            == "1. What is a closure?\n" + QuestionPattern.Listing(["2"], ["Explain CAP theorem"])
  {
    var nums := ["1", "2"];
    var qs := ["What is a closure?", "Explain CAP theorem"];
    assert nums[1..] == ["2"] && qs[1..] == ["Explain CAP theorem"];
    assert "1" + ". " + "What is a closure?" + "\n" == "1. What is a closure?\n";
  }

  /** The listing numbered "1" and "2" is the reply text written out. */
  lemma NumberedReplyLayout()
    ensures QuestionPattern.Listing(["1", "2"], ["What is a closure?", "Explain CAP theorem"])
            == "1. What is a closure?\n" + "2. Explain CAP theorem\n"
  {
    NumberedReplyFirstLine();
    NumberedReplySecondLine();
  }

  /** The reply "1. What is a closure?\n2. Explain CAP theorem\n" gives the two
      questions without their numbers. */
  lemma NumberedReplyExample()
    ensures ParseQuestions("1. What is a closure?\n" + "2. Explain CAP theorem\n")
            == ["What is a closure?", "Explain CAP theorem"]
  {
    var qs := ["What is a closure?", "Explain CAP theorem"];
    assert QuestionPattern.PlainLine(qs[0]);
    assert QuestionPattern.PlainLine(qs[1]);
    NumberedReplyLayout();
    NumberedListingQuestions(["1", "2"], qs);
  }
}
