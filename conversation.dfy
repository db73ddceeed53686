/** The interview window that talks with the candidate in stages: a greeting, the
    candidate's introduction, follow-up questions until the history holds ten entries,
    and completion (interview_window.py). The follow-up question generator is a
    parameter: it receives the recent history and the job description. */
module Conversation {
  import opened Wrappers
  import opened Text
  import opened Speech

  datatype Stage = Greeting | Intro | Questions | Complete

  /** Everything the window keeps: its stage, the conversation history, the text
      inserted into its text area, one insertion per element, and whether the listen
      button is enabled. */
  datatype Session = Session(stage: Stage, history: seq<string>, display: seq<string>, listening: bool)

  /** What the follow-up generator gave: a question, or the message of what it raised. */
  datatype FollowUp = Asked(question: string) | AskFailed(detail: string)

  /** The follow-up generator, called with the recent history and the job description. */
  type Asker = (string, string) -> FollowUp

  /** After an answer makes the history this long, the interview is complete. */
  const TurnBudget: nat := 10

  /** How many of the latest history entries the follow-up generator is shown. */
  const ContextEntries: nat := 3

  const IntroductionPrompt: string := "We'll start with your introduction."

  function CandidateEntry(text: string): string {
    "Candidate: " + text
  }

  function InterviewerEntry(question: string): string {
    "Interviewer: " + question
  }

  /** The history the follow-up generator sees: the last three entries, one per line;
      a history that short is shown whole. */
  function Context(history: seq<string>): (r: string)
    ensures |history| <= ContextEntries ==> r == Join("\n", history)
  {
    Join("\n", LastN(history, ContextEntries))
  }

  /** Entries older than the latest three never reach the generator. */
  lemma ContextIgnoresOlderEntries(h: seq<string>)
    requires |h| > ContextEntries
    ensures Context(h) == Context(h[1..])
  {
    assert LastN(h, ContextEntries) == LastN(h[1..], ContextEntries);
  }

  /** The generator sees the latest entries, oldest first, one per line: the last
      three once there are that many, otherwise all of them. */
  lemma ContextIsLatestEntries(h: seq<string>)
    ensures |h| == 0 ==> Context(h) == ""
    ensures |h| == 1 ==> Context(h) == h[0]
    ensures |h| == 2 ==> Context(h) == h[0] + "\n" + h[1]
    ensures |h| >= 3 ==> Context(h) == h[|h| - 3] + "\n" + h[|h| - 2] + "\n" + h[|h| - 1]
  {
    var l := LastN(h, ContextEntries);
    if |h| >= 3 {
      assert l == [h[|h| - 3], h[|h| - 2], h[|h| - 1]];
      assert l[1..] == [h[|h| - 2], h[|h| - 1]] && l[1..][1..] == [h[|h| - 1]];
      assert Join("\n", l[1..][1..]) == h[|h| - 1];
      assert Join("\n", l[1..]) == h[|h| - 2] + "\n" + h[|h| - 1];
    } else if |h| == 2 {
      assert l == h && l[1..] == [h[1]];
      assert Join("\n", l[1..]) == h[1];
    }
  }

  /** How a failed attempt is reported in the text area. */
  function FaultLine(f: Fault): string {
    match f
    case NoSpeech => Displayed("\nSystem: Could not understand audio")
    case RecognitionError(d) => Displayed("\nSystem: Recognition error: " + d)
    case Raised(d) => Displayed("\nSystem Error: " + d)
  }

  /** A new window before its greeting: nothing said yet, the listen button enabled. */
  function Opened(): Session {
    Session(Greeting, [], [], true)
  }

  /** show_greeting: the greeting and the introduction prompt are written after what is
      already there, the stage waits for the introduction and the button is enabled;
      the history is untouched. */
  function GreetingShown(s: Session, greeting: string): (r: Session)
    ensures r.stage == Intro && r.history == s.history && r.listening
    ensures |r.display| == |s.display| + 2 && r.display[..|s.display|] == s.display
    ensures r.display[|s.display|] == InterviewerLine(greeting)
    ensures r.display[|s.display| + 1] == InterviewerLine(IntroductionPrompt)
  {
    s.(stage := Intro,
       display := s.display + [InterviewerLine(greeting), InterviewerLine(IntroductionPrompt)],
       listening := true)
  }

  /** The outcome of asking for a follow-up question: the state it left, and whether the
      generator raised (the window then stops the answer there). */
  datatype Asking = Done(session: Session) | Interrupted(session: Session, detail: string)

  /** show_next_question: nothing in a complete interview, otherwise one question from
      the generator, written out and added to the history. When the generator raises,
      nothing is written and the history is unchanged; the stage and the button are
      never changed. */
  function NextQuestionShown(s: Session, ask: Asker, job: string): (r: Asking)
    ensures s.stage == Complete ==> r == Done(s)
    ensures var reply := ask(Context(s.history), job);
            && r.session.stage == s.stage && r.session.listening == s.listening
            && (r.Interrupted? <==> s.stage != Complete && reply.AskFailed?)
            && r.session.history == (if s.stage != Complete && reply.Asked? then s.history + [InterviewerEntry(reply.question)] else s.history)
            && |r.session.display| <= |s.display| + 1
  {
    if s.stage == Complete then Done(s)
    else
      match ask(Context(s.history), job)
      case Asked(q) =>
        Done(s.(display := s.display + [InterviewerLine(q)], history := s.history + [InterviewerEntry(q)]))
      case AskFailed(d) => Interrupted(s, d)
  }

  /** The stage an understood answer leads to, given the history length after it. */
  function StageAfterAnswer(st: Stage, entries: nat): Stage {
    match st
    case Intro => Questions
    case Questions => if entries >= TurnBudget then Complete else Questions
    case other => other
  }

  /** Whether an understood answer asks for a follow-up question. */
  predicate AsksAfterAnswer(st: Stage, entries: nat) {
    st == Intro || (st == Questions && entries < TurnBudget)
  }

  /** The progression once the candidate's entry has been added: the stage moves on,
      and where the stage asks for it the generator is called on the latest entries;
      its question is added to the history, and if it raises, the progression stops
      there with nothing added. Nothing else changes but the text area. */
  function Progressed(s: Session, ask: Asker, job: string): (r: Asking)
    ensures var asks := AsksAfterAnswer(s.stage, |s.history|);
            var reply := ask(Context(s.history), job);
            && r.session.stage == StageAfterAnswer(s.stage, |s.history|)
            && r.session.history == (if asks && reply.Asked? then s.history + [InterviewerEntry(reply.question)] else s.history)
            && (r.Interrupted? <==> asks && reply.AskFailed?)
            && (r.Interrupted? ==> r.detail == reply.detail)
            && r.session.listening == s.listening
  {
    match s.stage
    case Intro => NextQuestionShown(s.(stage := Questions), ask, job)
    case Questions =>
      if |s.history| >= TurnBudget then Done(s.(display := s.display + [CompletionLine], stage := Complete))
      else NextQuestionShown(s, ask, job)
    case _ => Done(s)
  }

  /** An understood answer: the candidate's line and history entry, then the
      progression; a generator that raises is reported as a system error. The history
      gains the candidate's entry and, where the stage asks for it and the generator
      gives a question, exactly one interviewer entry. */
  function AnswerTaken(s: Session, text: string, ask: Asker, job: string): (r: Session)
    ensures var h := s.history + [CandidateEntry(text)];
            var reply := ask(Context(h), job);
            && r.stage == StageAfterAnswer(s.stage, |h|)
            && r.history == (if AsksAfterAnswer(s.stage, |h|) && reply.Asked? then h + [InterviewerEntry(reply.question)] else h)
            && r.listening == s.listening
  {
    var withAnswer := s.(display := s.display + [Displayed("\nCandidate: " + text)],
                         history := s.history + [CandidateEntry(text)]);
    match Progressed(withAnswer, ask, job)
    case Done(s3) => s3
    case Interrupted(s3, d) => s3.(display := s3.display + [FaultLine(Raised(d))])
  }

  /** The "Listening..." line, written once the microphone has opened. */
  function Listened(s: Session, a: Attempt): Session {
    if ListeningWasShown(a) then s.(display := s.display + [ListeningLine]) else s
  }

  /** The rest of an attempt once recognition is over: the fault, or the answer and the
      progression; then the listen button is enabled again. */
  function Settled(s: Session, heard: Recognition, ask: Asker, job: string): Session {
    var s2 :=
      match heard
      case Failed(f) => s.(display := s.display + [FaultLine(f)])
      case Heard(t) => AnswerTaken(s, t, ask, job);
    s2.(listening := true)
  }

  /** listen_and_convert: one listening attempt, from button press to the button being
      enabled again. Whatever happened, the button ends up enabled, and the history
      gains at most two entries. */
  function Answered(s: Session, provider: string, job: string, ask: Asker, a: Attempt): (r: Session)
    ensures r.listening
    ensures |r.history| <= |s.history| + 2
  {
    Settled(Listened(s, a), Recognize(provider, a), ask, job)
  }

  /** The window after a sequence of listening attempts: the button is enabled once
      any attempt was made, the stage never goes back, the history only grows, and by
      at most two entries an attempt. */
  function Run(s: Session, provider: string, job: string, ask: Asker, attempts: seq<Attempt>): (r: Session)
    ensures attempts != [] ==> r.listening
    ensures Rank(s.stage) <= Rank(r.stage)
    ensures s.history <= r.history
    ensures |r.history| <= |s.history| + 2 * |attempts|
    decreases |attempts|
  {
    if attempts == [] then s
    else
      AnswerOnlyMovesForward(s, provider, job, ask, attempts[0]);
      Run(Answered(s, provider, job, ask, attempts[0]), provider, job, ask, attempts[1..])
  }

  function Rank(st: Stage): nat {
    match st
    case Greeting => 0
    case Intro => 1
    case Questions => 2
    case Complete => 3
  }

  predicate IsCandidateEntry(e: string) {
    "Candidate: " <= e
  }

  predicate IsInterviewerEntry(e: string) {
    "Interviewer: " <= e
  }

  /** Every entry is the candidate's or the interviewer's, and every interviewer entry
      answers a candidate entry just before it. */
  predicate Alternates(h: seq<string>) {
    forall i :: 0 <= i < |h| ==>
      IsCandidateEntry(h[i]) || (IsInterviewerEntry(h[i]) && 0 < i && IsCandidateEntry(h[i - 1]))
  }

  /** What holds of a greeted window between attempts: an introduction stage has no
      history yet, the questions stage stays within the budget, a complete interview
      has used it up, and the history alternates. */
  predicate Valid(s: Session) {
    && s.stage != Greeting
    && s.listening
    && (s.stage == Intro ==> s.history == [])
    && (s.stage == Questions ==> 1 <= |s.history| <= TurnBudget)
    && (s.stage == Complete ==> |s.history| >= TurnBudget)
    && Alternates(s.history)
  }

  lemma CandidateKeepsAlternation(h: seq<string>, t: string)
    requires Alternates(h)
    ensures Alternates(h + [CandidateEntry(t)])
  {
    var h1 := h + [CandidateEntry(t)];
    forall i | 0 <= i < |h1|
      ensures IsCandidateEntry(h1[i]) || (IsInterviewerEntry(h1[i]) && 0 < i && IsCandidateEntry(h1[i - 1]))
    {
      if i < |h| {
        assert h1[i] == h[i];
        assert IsCandidateEntry(h[i]) || (IsInterviewerEntry(h[i]) && 0 < i && IsCandidateEntry(h[i - 1]));
        if 0 < i {
          assert h1[i - 1] == h[i - 1];
        }
      }
    }
  }

  lemma InterviewerKeepsAlternation(h: seq<string>, q: string)
    requires Alternates(h) && h != [] && IsCandidateEntry(h[|h| - 1])
    ensures Alternates(h + [InterviewerEntry(q)])
  {
    var h1 := h + [InterviewerEntry(q)];
    forall i | 0 <= i < |h1|
      ensures IsCandidateEntry(h1[i]) || (IsInterviewerEntry(h1[i]) && 0 < i && IsCandidateEntry(h1[i - 1]))
    {
      if i < |h| {
        assert h1[i] == h[i];
        assert IsCandidateEntry(h[i]) || (IsInterviewerEntry(h[i]) && 0 < i && IsCandidateEntry(h[i - 1]));
        if 0 < i {
          assert h1[i - 1] == h[i - 1];
        }
      } else {
        assert h1[i] == "Interviewer: " + q && h1[i - 1] == h[|h| - 1];
        assert ("Interviewer: " + q)[..|"Interviewer: "|] == "Interviewer: ";
      }
    }
  }

  /** A new window has an empty history, is waiting for the introduction, and listens. */
  lemma NewWindowAwaitsIntroduction(greeting: string)
    ensures var s := GreetingShown(Opened(), greeting);
            && s.stage == Intro && s.history == [] && s.listening
            && s.display == [InterviewerLine(greeting), InterviewerLine(IntroductionPrompt)]
            && Valid(s)
  {
  }

  /** A failed attempt changes neither the stage nor the history; it only reports the
      fault and enables the button again. */
  lemma FaultLeavesConversation(s: Session, provider: string, job: string, ask: Asker, a: Attempt)
    requires Recognize(provider, a).Failed?
    ensures var r := Answered(s, provider, job, ask, a);
            var f := Recognize(provider, a).fault;
            && r.stage == s.stage && r.history == s.history && r.listening
            && r.display == s.display + (if ListeningWasShown(a) then [ListeningLine] else []) + [FaultLine(f)]
  {
  }

  /** An understood answer adds the candidate's entry in every stage; then, in the
      introduction and while the history is under ten entries, exactly one follow-up
      entry when the generator comes up with a question for the last three entries;
      the listen button is enabled again. */
  lemma HeardAnswerEffect(s: Session, provider: string, job: string, ask: Asker, a: Attempt)
    requires Recognize(provider, a).Heard?
    ensures var r := Answered(s, provider, job, ask, a);
            var h := s.history + [CandidateEntry(Recognize(provider, a).text)];
            var reply := ask(Context(h), job);
            && r.stage == StageAfterAnswer(s.stage, |h|)
            && r.history == (if AsksAfterAnswer(s.stage, |h|) && reply.Asked? then h + [InterviewerEntry(reply.question)] else h)
            && r.listening
  {
  }

  /** Every heard answer adds exactly one candidate entry holding the text, in every
      stage, and at most one interviewer entry after it; the earlier history is kept. */
  lemma AnswerAddsCandidateEntry(s: Session, provider: string, job: string, ask: Asker, a: Attempt)
    requires Recognize(provider, a).Heard?
    ensures var r := Answered(s, provider, job, ask, a);
            var h := s.history + [CandidateEntry(Recognize(provider, a).text)];
            && |h| <= |r.history| <= |h| + 1
            && r.history[..|h|] == h
            && (|r.history| == |h| + 1 ==> IsInterviewerEntry(r.history[|h|]))
  {
    HeardAnswerEffect(s, provider, job, ask, a);
    var r := Answered(s, provider, job, ask, a);
    var h := s.history + [CandidateEntry(Recognize(provider, a).text)];
    if |r.history| == |h| + 1 {
      var q := ask(Context(h), job).question;
      assert r.history[|h|] == "Interviewer: " + q;
    }
    assert r.history[..|h|] == h;
  }

  /** Answering the introduction moves to the questions stage and asks exactly one
      follow-up question, chosen from the last three entries and the job description. */
  lemma IntroductionAsksOneQuestion(s: Session, provider: string, job: string, ask: Asker, a: Attempt)
    requires s.stage == Intro && Recognize(provider, a).Heard?
    ensures var r := Answered(s, provider, job, ask, a);
            var h := s.history + [CandidateEntry(Recognize(provider, a).text)];
            && r.stage == Questions
            && r.history == (match ask(Context(h), job)
                             case Asked(q) => h + [InterviewerEntry(q)]
                             case AskFailed(_) => h)
  {
    HeardAnswerEffect(s, provider, job, ask, a);
  }

  /** In the questions stage an answer that brings the history to ten entries or more
      completes the interview without asking anything more. */
  lemma BudgetCompletesInterview(s: Session, provider: string, job: string, ask: Asker, a: Attempt)
    requires s.stage == Questions && Recognize(provider, a).Heard? && |s.history| + 1 >= TurnBudget
    ensures var r := Answered(s, provider, job, ask, a);
            && r.stage == Complete
            && r.history == s.history + [CandidateEntry(Recognize(provider, a).text)]
            && r.display[|r.display| - 1] == CompletionLine
  {
    HeardAnswerEffect(s, provider, job, ask, a);
  }

  /** In the questions stage an answer that leaves the history under ten entries asks
      exactly one more question and stays in that stage. */
  lemma UnderBudgetAsksOneQuestion(s: Session, provider: string, job: string, ask: Asker, a: Attempt)
    requires s.stage == Questions && Recognize(provider, a).Heard? && |s.history| + 1 < TurnBudget
    ensures var r := Answered(s, provider, job, ask, a);
            var h := s.history + [CandidateEntry(Recognize(provider, a).text)];
            && r.stage == Questions
            && r.history == (match ask(Context(h), job)
                             case Asked(q) => h + [InterviewerEntry(q)]
                             case AskFailed(_) => h)
            && (ask(Context(h), job).Asked? ==> r.display[|r.display| - 1] == InterviewerLine(ask(Context(h), job).question))
  {
    HeardAnswerEffect(s, provider, job, ask, a);
  }

  /** A complete interview stays complete: no question is asked any more, and later
      answers only add the candidate's entry. */
  lemma CompleteIsTerminal(s: Session, provider: string, job: string, ask: Asker, a: Attempt)
    requires s.stage == Complete
    ensures NextQuestionShown(s, ask, job) == Done(s)
    ensures var r := Answered(s, provider, job, ask, a);
            && r.stage == Complete
            && r.history == s.history + (match Recognize(provider, a)
                                         case Heard(t) => [CandidateEntry(t)]
                                         case Failed(_) => [])
  {
    if Recognize(provider, a).Heard? {
      HeardAnswerEffect(s, provider, job, ask, a);
    }
  }

  /** The stage never goes back and the history only grows at its end. */
  lemma AnswerOnlyMovesForward(s: Session, provider: string, job: string, ask: Asker, a: Attempt)
    ensures var r := Answered(s, provider, job, ask, a);
            && Rank(s.stage) <= Rank(r.stage)
            && s.history <= r.history
  {
    if Recognize(provider, a).Heard? {
      HeardAnswerEffect(s, provider, job, ask, a);
    }
  }

  /** Every attempt keeps the window valid. */
  lemma AnswerKeepsValid(s: Session, provider: string, job: string, ask: Asker, a: Attempt)
    requires Valid(s)
    ensures Valid(Answered(s, provider, job, ask, a))
  {
    var s1 := Listened(s, a);
    assert s1.stage == s.stage && s1.history == s.history && s1.listening == s.listening;
    SettledKeepsValid(s1, Recognize(provider, a), ask, job);
  }

  lemma SettledKeepsValid(s: Session, heard: Recognition, ask: Asker, job: string)
    requires Valid(s)
    ensures Valid(Settled(s, heard, ask, job))
  {
    match heard
    case Failed(_) =>
    case Heard(t) =>
      var h := s.history + [CandidateEntry(t)];
      CandidateKeepsAlternation(s.history, t);
      assert h[|h| - 1] == CandidateEntry(t);
      if ask(Context(h), job).Asked? {
        InterviewerKeepsAlternation(h, ask(Context(h), job).question);
      }
  }

  lemma {:induction false} RunKeepsValid(s: Session, provider: string, job: string, ask: Asker, attempts: seq<Attempt>)
    requires Valid(s)
    ensures Valid(Run(s, provider, job, ask, attempts))
    decreases |attempts|
  {
    if attempts != [] {
      AnswerKeepsValid(s, provider, job, ask, attempts[0]);
      RunKeepsValid(Answered(s, provider, job, ask, attempts[0]), provider, job, ask, attempts[1..]);
    }
  }

  /** Every attempt is understood. */
  predicate AllHeard(provider: string, attempts: seq<Attempt>) {
    forall i :: 0 <= i < |attempts| ==> Recognize(provider, attempts[i]).Heard?
  }

  /** The generator always comes up with a question. */
  ghost predicate AlwaysAsks(ask: Asker) {
    forall context, job :: ask(context, job).Asked?
  }

  lemma AllHeardSlice(provider: string, attempts: seq<Attempt>, i: nat, j: nat)
    requires AllHeard(provider, attempts) && i <= j <= |attempts|
    ensures AllHeard(provider, attempts[i..j])
  {
    forall k | 0 <= k < j - i ensures Recognize(provider, attempts[i..j][k]).Heard? {
      assert attempts[i..j][k] == attempts[i + k];
    }
  }

  /** Answering the introduction, with a question generated, leaves two entries. */
  lemma IntroductionRound(greeting: string, provider: string, job: string, ask: Asker, a: Attempt)
    requires Recognize(provider, a).Heard? && AlwaysAsks(ask)
    ensures var r := Answered(GreetingShown(Opened(), greeting), provider, job, ask, a);
            r.stage == Questions && |r.history| == 2
  {
    var s := GreetingShown(Opened(), greeting);
    HeardAnswerEffect(s, provider, job, ask, a);
    var h := s.history + [CandidateEntry(Recognize(provider, a).text)];
    assert ask(Context(h), job).Asked?;
  }

  /** A follow-up round under the budget, with a question generated, adds two entries. */
  lemma FollowUpRound(s: Session, m: nat, provider: string, job: string, ask: Asker, a: Attempt)
    requires s.stage == Questions && 1 <= m <= 4 && |s.history| == 2 * m
    requires Recognize(provider, a).Heard? && AlwaysAsks(ask)
    ensures var r := Answered(s, provider, job, ask, a);
            r.stage == Questions && |r.history| == 2 * (m + 1)
  {
    HeardAnswerEffect(s, provider, job, ask, a);
    var h := s.history + [CandidateEntry(Recognize(provider, a).text)];
    assert ask(Context(h), job).Asked?;
  }

  /** From the questions stage with 2m entries, when every answer is understood and
      every question generated, 6 - m answers finish the interview with eleven entries,
      and fewer leave it in the questions stage. */
  lemma {:induction false} QuestionRounds(s: Session, m: nat, provider: string, job: string, ask: Asker, attempts: seq<Attempt>)
    requires s.stage == Questions && 1 <= m <= 5 && |s.history| == 2 * m
    requires |attempts| <= 6 - m && AllHeard(provider, attempts) && AlwaysAsks(ask)
    ensures var r := Run(s, provider, job, ask, attempts);
            if |attempts| == 6 - m then r.stage == Complete && |r.history| == 11
            else r.stage == Questions && |r.history| == 2 * (m + |attempts|)
    decreases |attempts|
  {
    if attempts != [] {
      var next := Answered(s, provider, job, ask, attempts[0]);
      assert Run(s, provider, job, ask, attempts) == Run(next, provider, job, ask, attempts[1..]);
      if m == 5 {
        BudgetCompletesInterview(s, provider, job, ask, attempts[0]);
        assert attempts[1..] == [];
      } else {
        FollowUpRound(s, m, provider, job, ask, attempts[0]);
        AllHeardSlice(provider, attempts, 1, |attempts|);
        QuestionRounds(next, m + 1, provider, job, ask, attempts[1..]);
      }
    }
  }

  /** An interview where every answer is understood and every question generated ends
      with the sixth answer: the introduction, five questions and six answers. */
  lemma FullInterview(greeting: string, provider: string, job: string, ask: Asker, attempts: seq<Attempt>)
    requires |attempts| == 6 && AllHeard(provider, attempts) && AlwaysAsks(ask)
    ensures var r := Run(GreetingShown(Opened(), greeting), provider, job, ask, attempts);
            r.stage == Complete && |r.history| == 11
  {
    var s := GreetingShown(Opened(), greeting);
    IntroductionRound(greeting, provider, job, ask, attempts[0]);
    var next := Answered(s, provider, job, ask, attempts[0]);
    assert Run(s, provider, job, ask, attempts) == Run(next, provider, job, ask, attempts[1..]);
    AllHeardSlice(provider, attempts, 1, 6);
    QuestionRounds(next, 1, provider, job, ask, attempts[1..]);
  }

  /** Five such answers are not yet enough: the interview is still asking questions,
      with ten entries. */
  lemma FiveAnswersDoNotComplete(greeting: string, provider: string, job: string, ask: Asker, attempts: seq<Attempt>)
    requires |attempts| == 5 && AllHeard(provider, attempts) && AlwaysAsks(ask)
    ensures var r := Run(GreetingShown(Opened(), greeting), provider, job, ask, attempts);
            r.stage == Questions && |r.history| == 10
  {
    var s := GreetingShown(Opened(), greeting);
    IntroductionRound(greeting, provider, job, ask, attempts[0]);
    var next := Answered(s, provider, job, ask, attempts[0]);
    assert Run(s, provider, job, ask, attempts) == Run(next, provider, job, ask, attempts[1..]);
    AllHeardSlice(provider, attempts, 1, 5);
    QuestionRounds(next, 1, provider, job, ask, attempts[1..]);
  }

  /** The interview window of interview_window.py. */
  class InterviewWindow {
    const greeting: string
    const jobDescription: string
    const apiName: string
    const apiKey: string
    var stage: Stage
    var history: seq<string>
    var display: seq<string>
    var listening: bool

    function State(): Session
      reads this
    {
      Session(stage, history, display, listening)
    }

    /** A new window greets the candidate at once. */
    constructor (greeting: string, jobDescription: string, apiName: string, apiKey: string)
      ensures this.greeting == greeting && this.jobDescription == jobDescription
      ensures this.apiName == apiName && this.apiKey == apiKey
      ensures State() == GreetingShown(Opened(), greeting)
    {
      this.greeting := greeting;
      this.jobDescription := jobDescription;
      this.apiName := apiName;
      this.apiKey := apiKey;
      stage := Greeting;
      history := [];
      display := [];
      listening := true;
      new;
      ShowGreeting();
    }

    method ShowGreeting()
      modifies this
      ensures State() == GreetingShown(old(State()), greeting)
    {
      display := display + [InterviewerLine(greeting)];
      display := display + [InterviewerLine(IntroductionPrompt)];
      stage := Intro;
      listening := true;
    }

    /** Asks the generator for the next question; returns what it raised, if it did. */
    method ShowNextQuestion(ask: Asker) returns (raised: Option<string>)
      modifies this
      ensures match NextQuestionShown(old(State()), ask, jobDescription)
              case Done(s) => State() == s && raised == None
              case Interrupted(s, d) => State() == s && raised == Some(d)
    {
      if stage == Complete {
        return None;
      }
      var reply := ask(Context(history), jobDescription);
      match reply {
        case Asked(q) =>
          display := display + [InterviewerLine(q)];
          history := history + [InterviewerEntry(q)];
          raised := None;
        case AskFailed(d) =>
          raised := Some(d);
      }
    }

    method UpdateDisplay(message: string)
      modifies this
      ensures display == old(display) + [Displayed(message)]
      ensures stage == old(stage) && history == old(history) && listening == old(listening)
    {
      display := display + [Displayed(message)];
    }

    /** Takes an understood answer and moves the conversation on. */
    method TakeAnswer(text: string, ask: Asker)
      modifies this
      ensures State() == AnswerTaken(old(State()), text, ask, jobDescription)
    {
      UpdateDisplay("\nCandidate: " + text);
      history := history + [CandidateEntry(text)];
      ghost var progressed := Progressed(State(), ask, jobDescription);
      var raised: Option<string> := None;
      if stage == Intro {
        stage := Questions;
        raised := ShowNextQuestion(ask);
      } else if stage == Questions {
        if |history| >= TurnBudget {
          display := display + [CompletionLine];
          stage := Complete;
        } else {
          raised := ShowNextQuestion(ask);
        }
      }
      assert State() == progressed.session;
      assert raised.Some? <==> progressed.Interrupted?;
      if raised.Some? {
        UpdateDisplay("\nSystem Error: " + raised.value);
      }
    }

    /** One listening attempt with the given outcome of the microphone and the
        recognition service. */
    method ListenAndConvert(ask: Asker, a: Attempt)
      modifies this
      ensures State() == Answered(old(State()), apiName, jobDescription, ask, a)
    {
      listening := false;
      if ListeningWasShown(a) {
        UpdateDisplay("\nCandidate: Listening... (speak now)");
      }
      var heard := Recognize(apiName, a);
      match heard {
        case Failed(f) =>
          display := display + [FaultLine(f)];
        case Heard(text) =>
          TakeAnswer(text, ask);
      }
      listening := true;
    }
  }
}
