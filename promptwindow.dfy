/** The interview window that reads a fixed list of generated questions to the candidate,
    one per answer (the InterviewWindow class of interview_prompt.py). */
module PromptWindow {
  import opened Speech

  /** Everything the window keeps: the index of the question being asked, the text
      inserted into its text area, one insertion per element, and whether the listen
      button is enabled. */
  datatype Screen = Screen(current: nat, display: seq<string>, listening: bool)

  /** The message of a fault as the window writes it; the "could not understand"
      error carries no message. */
  function Detail(f: Fault): string {
    match f
    case NoSpeech => ""
    case RecognitionError(d) => d
    case Raised(d) => d
  }

  function FaultLine(f: Fault): string {
    Displayed("\nSystem Error: " + Detail(f))
  }

  /** show_question: the current question while there is one, otherwise the completion
      notice with the listen button disabled. It writes exactly one line and keeps the
      earlier ones and the position in the list. */
  function QuestionShown(qs: seq<string>, s: Screen): (r: Screen)
    ensures r.current == s.current
    ensures |r.display| == |s.display| + 1 && r.display[..|s.display|] == s.display
    ensures s.current < |qs| ==> r.display[|s.display|] == InterviewerLine(qs[s.current]) && r.listening == s.listening
    ensures s.current >= |qs| ==> r.display[|s.display|] == CompletionLine && !r.listening
  {
    assert (s.display + [CompletionLine])[..|s.display|] == s.display;
    if s.current < |qs| then s.(display := s.display + [InterviewerLine(qs[s.current])])
    else s.(display := s.display + [CompletionLine], listening := false)
  }

  /** A new window: the first question, or the completion notice when there is none. */
  function Opened(qs: seq<string>): Screen {
    QuestionShown(qs, Screen(0, [], true))
  }

  /** The "Listening..." line, written once the microphone has opened. */
  function Listened(s: Screen, a: Attempt): Screen {
    if ListeningWasShown(a) then s.(display := s.display + [ListeningLine]) else s
  }

  /** The rest of an attempt once recognition is over: the fault, or the answer and the
      next question; then the listen button is enabled again. */
  function Settled(qs: seq<string>, s: Screen, heard: Recognition): Screen {
    var s2 :=
      match heard
      case Failed(f) => s.(display := s.display + [FaultLine(f)])
      case Heard(t) => QuestionShown(qs, s.(display := s.display + [Displayed("Candidate: " + t)], current := s.current + 1));
    s2.(listening := true)
  }

  /** listen_and_convert: one listening attempt, from button press to the button being
      enabled again. The button ends up enabled, the position moves by at most one
      question, and one to three lines are written after the earlier ones. */
  function Answered(qs: seq<string>, provider: string, s: Screen, a: Attempt): (r: Screen)
    ensures r.listening
    ensures r.current == s.current || r.current == s.current + 1
    ensures s.display <= r.display && |s.display| + 1 <= |r.display| <= |s.display| + 3
  {
    Settled(qs, Listened(s, a), Recognize(provider, a))
  }

  /** The window after a sequence of listening attempts: the button is enabled once any
      attempt was made, the position moves by at most one question an attempt, and
      every attempt writes at least one line after the earlier ones. */
  function Run(qs: seq<string>, provider: string, s: Screen, attempts: seq<Attempt>): (r: Screen)
    ensures attempts != [] ==> r.listening
    ensures s.current <= r.current <= s.current + |attempts|
    ensures s.display <= r.display && |s.display| + |attempts| <= |r.display|
    decreases |attempts|
  {
    if attempts == [] then s
    else Run(qs, provider, Answered(qs, provider, s, attempts[0]), attempts[1..])
  }

  /** How many of the attempts were understood. */
  function HeardCount(provider: string, attempts: seq<Attempt>): nat
    decreases |attempts|
  {
    if attempts == [] then 0
    else (if Recognize(provider, attempts[0]).Heard? then 1 else 0) + HeardCount(provider, attempts[1..])
  }

  predicate IsPrompt(line: string) {
    "\nInterviewer: " <= line
  }

  /** The lines of the text area in which the interviewer asks something, in order. */
  function Prompts(display: seq<string>): seq<string>
    decreases |display|
  {
    if display == [] then []
    else
      var last := display[|display| - 1];
      Prompts(display[..|display| - 1]) + (if IsPrompt(last) then [last] else [])
  }

  /** The interviewer lines of the first n questions. */
  function QuestionLines(qs: seq<string>, n: nat): (r: seq<string>)
    requires n <= |qs|
    ensures |r| == n
    ensures forall i :: 0 <= i < n ==> r[i] == InterviewerLine(qs[i])
  {
    seq(n, i requires 0 <= i < n => InterviewerLine(qs[i]))
  }

  /** How many questions have been put once `current` answers were understood. */
  function Asked(qs: seq<string>, current: nat): (n: nat)
    ensures n <= |qs|
  {
    if current + 1 <= |qs| then current + 1 else |qs|
  }

  /** The window has put exactly the questions it has reached, in their order. */
  predicate PromptsFollowQuestions(qs: seq<string>, s: Screen) {
    Prompts(s.display) == QuestionLines(qs, Asked(qs, s.current))
  }

  /** A new window starts at the first question; it shows that question and listens,
      or, with no questions at all, shows the completion notice and does not listen. */
  lemma OpenedShowsFirstQuestion(qs: seq<string>)
    ensures Opened(qs).current == 0
    ensures qs != [] ==> Opened(qs).display == [InterviewerLine(qs[0])] && Opened(qs).listening
    ensures qs == [] ==> Opened(qs).display == [CompletionLine] && !Opened(qs).listening
    ensures PromptsFollowQuestions(qs, Opened(qs))
  {
    var s := Opened(qs);
    assert s.display[..0] == [];
    if qs == [] {
      FixedLinesAskNothing();
    } else {
      assert IsPrompt(InterviewerLine(qs[0]));
    }
  }

  /** An understood answer moves on by exactly one question and listens again. */
  lemma HeardAnswerAdvances(qs: seq<string>, provider: string, s: Screen, a: Attempt)
    requires Recognize(provider, a).Heard?
    ensures var r := Answered(qs, provider, s, a);
            r.current == s.current + 1 && r.listening
  {
  }

  /** A failed attempt keeps the current question and listens again. */
  lemma FaultKeepsQuestion(qs: seq<string>, provider: string, s: Screen, a: Attempt)
    requires Recognize(provider, a).Failed?
    ensures var r := Answered(qs, provider, s, a);
            && r.current == s.current && r.listening
            && r.display == s.display + (if ListeningWasShown(a) then [ListeningLine] else []) + [FaultLine(Recognize(provider, a).fault)]
  {
  }

  /** Past the last question the button is still enabled again, and every further
      understood answer writes the completion notice once more. */
  lemma CompletionRepeats(qs: seq<string>, provider: string, s: Screen, a: Attempt)
    requires Recognize(provider, a).Heard? && s.current + 1 >= |qs|
    ensures var r := Answered(qs, provider, s, a);
            && r.current == s.current + 1 && r.current >= |qs| && r.listening
            && r.display[|r.display| - 1] == CompletionLine
  {
  }

  /** Taking one more line into account adds it to the prompts when it is one. */
  lemma PromptsAppend(d: seq<string>, line: string)
    ensures Prompts(d + [line]) == Prompts(d) + (if IsPrompt(line) then [line] else [])
  {
    assert (d + [line])[..|d|] == d;
  }

  /** A line whose second character is not the interviewer's I asks nothing. */
  lemma NotPrompt(line: string)
    requires |line| >= 2 && line[1] != 'I'
    ensures !IsPrompt(line)
  {
  }

  lemma FaultLineAsksNothing(f: Fault)
    ensures !IsPrompt(FaultLine(f))
  {
    var line := FaultLine(f);
    assert line[1] == '\n';
    NotPrompt(line);
  }

  lemma CandidateLineAsksNothing(t: string)
    ensures !IsPrompt(Displayed("Candidate: " + t))
  {
    var line := Displayed("Candidate: " + t);
    assert line[1] == 'C';
    NotPrompt(line);
  }

  lemma FixedLinesAskNothing()
    ensures !IsPrompt(ListeningLine) && !IsPrompt(CompletionLine)
  {
    assert ListeningLine[1] == '\n' && CompletionLine[1] == '\n';
    NotPrompt(ListeningLine);
    NotPrompt(CompletionLine);
  }

  /** After every attempt the questions put so far are still exactly the ones the window
      has reached. */
  lemma AnswerKeepsPromptsInOrder(qs: seq<string>, provider: string, s: Screen, a: Attempt)
    requires PromptsFollowQuestions(qs, s)
    ensures PromptsFollowQuestions(qs, Answered(qs, provider, s, a))
  {
    ListeningKeepsPrompts(qs, s, a);
    SettledKeepsPromptsInOrder(qs, Listened(s, a), Recognize(provider, a));
  }

  lemma ListeningKeepsPrompts(qs: seq<string>, s: Screen, a: Attempt)
    requires PromptsFollowQuestions(qs, s)
    ensures PromptsFollowQuestions(qs, Listened(s, a))
  {
    if ListeningWasShown(a) {
      FixedLinesAskNothing();
      PromptsAppend(s.display, ListeningLine);
    }
  }

  lemma SettledKeepsPromptsInOrder(qs: seq<string>, s: Screen, heard: Recognition)
    requires PromptsFollowQuestions(qs, s)
    ensures PromptsFollowQuestions(qs, Settled(qs, s, heard))
  {
    match heard
    case Failed(f) =>
      FaultLineAsksNothing(f);
      PromptsAppend(s.display, FaultLine(f));
    case Heard(t) =>
      var line := Displayed("Candidate: " + t);
      CandidateLineAsksNothing(t);
      PromptsAppend(s.display, line);
      QuestionShownPrompts(qs, s.(display := s.display + [line], current := s.current + 1));
      if s.current + 1 < |qs| {
        QuestionLinesStep(qs, s.current + 1);
      }
  }

  lemma QuestionLinesStep(qs: seq<string>, n: nat)
    requires n < |qs|
    ensures QuestionLines(qs, n + 1) == QuestionLines(qs, n) + [InterviewerLine(qs[n])]
  {
  }

  /** show_question adds the current question to the prompts, and nothing past the end. */
  lemma QuestionShownPrompts(qs: seq<string>, s: Screen)
    ensures Prompts(QuestionShown(qs, s).display)
            == Prompts(s.display) + (if s.current < |qs| then [InterviewerLine(qs[s.current])] else [])
  {
    if s.current < |qs| {
      assert IsPrompt(InterviewerLine(qs[s.current]));
      PromptsAppend(s.display, InterviewerLine(qs[s.current]));
    } else {
      FixedLinesAskNothing();
      PromptsAppend(s.display, CompletionLine);
    }
  }

  /** Over any sequence of attempts the window moves on once per understood answer,
      and the questions it has put are the first ones of the list, in order. */
  lemma {:induction false} RunPutsQuestionsInOrder(qs: seq<string>, provider: string, s: Screen, attempts: seq<Attempt>)
    requires PromptsFollowQuestions(qs, s)
    ensures var r := Run(qs, provider, s, attempts);
            r.current == s.current + HeardCount(provider, attempts) && PromptsFollowQuestions(qs, r)
    decreases |attempts|
  {
    if attempts != [] {
      AnswerKeepsPromptsInOrder(qs, provider, s, attempts[0]);
      RunPutsQuestionsInOrder(qs, provider, Answered(qs, provider, s, attempts[0]), attempts[1..]);
    }
  }

  /** A whole interview: after n understood answers the window has asked exactly the
      first n + 1 questions, or all of them once the list is exhausted. */
  lemma InterviewAsksQuestionsInOrder(qs: seq<string>, provider: string, attempts: seq<Attempt>)
    ensures var r := Run(qs, provider, Opened(qs), attempts);
            var n := HeardCount(provider, attempts);
            && r.current == n
            && Prompts(r.display) == QuestionLines(qs, if n + 1 <= |qs| then n + 1 else |qs|)
  {
    OpenedShowsFirstQuestion(qs);
    RunPutsQuestionsInOrder(qs, provider, Opened(qs), attempts);
  }

  /** The interview window of interview_prompt.py. */
  class InterviewWindow {
    const questions: seq<string>
    const apiName: string
    const apiKey: string
    var currentQuestion: nat
    var display: seq<string>
    var listening: bool

    function State(): Screen
      reads this
    {
      Screen(currentQuestion, display, listening)
    }

    /** A new window starts at the first question and shows it at once. */
    constructor (questions: seq<string>, apiName: string, apiKey: string)
      ensures this.questions == questions && this.apiName == apiName && this.apiKey == apiKey
      ensures State() == Opened(questions)
    {
      this.questions := questions;
      this.apiName := apiName;
      this.apiKey := apiKey;
      currentQuestion := 0;
      display := [];
      listening := true;
      new;
      ShowQuestion();
    }

    method ShowQuestion()
      modifies this
      ensures State() == QuestionShown(questions, old(State()))
    {
      if currentQuestion < |questions| {
        var q := questions[currentQuestion];
        display := display + [InterviewerLine(q)];
      } else {
        display := display + [CompletionLine];
        listening := false;
      }
    }

    method UpdateDisplay(message: string)
      modifies this
      ensures display == old(display) + [Displayed(message)]
      ensures currentQuestion == old(currentQuestion) && listening == old(listening)
    {
      display := display + [Displayed(message)];
    }

    /** One listening attempt with the given outcome of the microphone and the
        recognition service. */
    method ListenAndConvert(a: Attempt)
      modifies this
      ensures State() == Answered(questions, apiName, old(State()), a)
    {
      listening := false;
      if ListeningWasShown(a) {
        UpdateDisplay("\nCandidate: Listening... (speak now)");
      }
      match Recognize(apiName, a) {
        case Failed(f) =>
          UpdateDisplay("\nSystem Error: " + Detail(f));
        case Heard(text) =>
          UpdateDisplay("Candidate: " + text);
          currentQuestion := currentQuestion + 1;
          ShowQuestion();
      }
      listening := true;
    }
  }
}
