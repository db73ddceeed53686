# Interview simulator: a Dafny model of its decision logic

The interview simulator is a desktop assistant for interview practice. A candidate
pastes a job description and picks a provider, "OpenAI" or "Google". A language model
writes up to eight questions, and an interview window reads them out. The candidate
answers by voice, and the window transcribes each answer. There is a second window
variant. It greets the candidate, asks for an introduction, and then asks follow-up
questions generated from the last three history entries. It completes on the first
answer whose candidate entry brings the history to ten entries or more. When every
answer is understood and every question generated, that is the sixth answer, and the
history then holds eleven entries.

This project models the parts of that program that make decisions. Widgets, threads,
HTTP requests, the microphone and the keyring daemon are represented only by what they
hand back.

- `text.dfy` holds `Wrappers` (an `Option` type) and `Text`. `Text` has Python's
  `str.isspace`, `str.strip()`, `str.replace('"', '')`, `sep.join`, `xs[-n:]` for n ≥ 1 and
  `xs[:n]`.
- `json.dfy` (module `Json`) is the part of `json.loads` the question parser relies
  on. It recognises a text that is exactly one JSON array of strings and decodes it.
  Escapes are handled, including `\uXXXX` and surrogate pairs. Strict mode applies, so
  raw control characters are refused. Every other text gives `None`. A small encoder
  serves as the reference, and the decoder is proved to invert it.
- `pattern.dfy` (module `QuestionPattern`) is the regular expression
  `(?:\d+[\.\)]?|[-*])\s*"?(.+?)(?="?\s*(?:\n\s*\d+[\.\)]|$))`, as `re.findall` runs it
  with `DOTALL`. It is written as a scanner:
  - At each position the scanner tries the opener, with the backtracking order of
    Python's engine.
  - It extends the lazy capture to the first position where the lookahead holds.
  - It resumes after the capture.

  The computed lookahead is proved equal to a literal, existential reading of the
  pattern text. The computed start of each capture is proved to be the end of the
  longest literal match of the lead-in that leaves a character for the capture.
- `questions.dfy` (module `Questions`) is `parse_questions`. It tries the JSON tier
  first and then the pattern tier, whose items are stripped, then lose every double
  quote, and are then cut to eight. The function appears twice in the source, with
  the same text (`interview_simulator.py:107-129` and `interview_prompt.py:205-227`),
  and is modelled once.
- `speech.dfy` (module `Speech`) is one listening attempt, common to both windows:
  - what the microphone and the selected recognition service answered;
  - how the window classifies that answer as text, "could not understand", a
    recognition error, or another exception;
  - the lines both windows write.
- `conversation.dfy` (module `Conversation`) is the staged window of
  `interview_window.py`. It is a class with the stage, the history, the displayed
  insertions and the listen button. Each method is proved equal to a step function
  on a `Session` value, and the lemmas are about those functions. The follow-up
  generator is an `Asker` parameter.
- `promptwindow.dfy` (module `PromptWindow`) is the list-driven window of
  `interview_prompt.py`. It is a class with `current_question`, the displayed
  insertions and the listen button.
- `simulator.dfy` (module `Simulator`) models three parts of the main window:
  - `generate_questions`, dispatching on the provider;
  - the checks of `start_interview`;
  - `update_key`, on a keyring modelled as a map from (service, user name) to a
    secret.

  The provider table of `config.py:1-15` is the constant `Usernames`.

Behaviour worth knowing:

- The parser returns an empty list, not a parse error, when a reply holds no list at
  all. `start_interview` then reports that generation failed (`NoListNoQuestions`,
  `ReplyWithoutListDoesNotStart`).
- An item opens at any digit, `-` or `*`, not only at the start of a line.
- A bullet never ends an item, so a bulleted reply comes back as one item
  (`BulletNeverEndsItem`, `NoCaptureEndsBeforeBullet`).
- Cleaning removes every double quote, not only the surrounding ones.
- When the follow-up generator fails, the candidate's entry has already been added.
  An introduction has already moved the stage to the questions stage; in the
  questions stage the stage stays. The failure is reported as a system error.
- The interview completes on the answer whose candidate entry brings the history to
  ten entries or more. No question is asked after that answer.
- The list-driven window enables listening again after the completion notice, so
  every later understood answer moves `current_question` past the end and writes the
  notice again (`CompletionRepeats`).
- `start_interview` opens an interview window with four arguments: parent,
  questions, provider and key. That matches the list-driven window of
  `interview_prompt.py`, not the five-parameter staged window that
  `interview_simulator.py` imports. The model opens the list-driven window
  (`StartedInterviewAsksFirstQuestion`).
- The staged window calls a generator through an attribute it never sets. The model
  passes the generator in as a parameter.

## Model

| member | source | states |
|---|---|---|
| Text.Strip | interview_simulator.py:124 | the result is a slice of the input with only whitespace cut from both ends, and it neither starts nor ends with whitespace |
| Text.StripUnspaced | interview_simulator.py:124 | stripping a text that neither starts nor ends with whitespace returns it unchanged |
| Text.RemoveQuotes | interview_simulator.py:124 | the result holds no double quote, and every other character of the input as often as the input does; a text without quotes comes back unchanged |
| Text.RemoveQuotesOfChar | interview_simulator.py:124 | a single double quote is dropped and any other single character is kept |
| Text.RemoveQuotesConcat | interview_simulator.py:124 | removing quotes from a concatenation gives the concatenation of the two results, so the kept characters stay in their order |
| Text.Join | interview_window.py:61 | a join opens with its first element, and a single element comes back as it is |
| Text.JoinAppend | interview_window.py:61 | joining one more element writes the separator and that element after the join of the others, so the entries keep their order |
| Text.Take | interview_simulator.py:125 | the result is the prefix of length min(n, length), as `[:8]` gives |
| Text.LastN | interview_window.py:61 | the result is the suffix of length min(n, length), as `[-3:]` gives |
| Json.SkipJsonSpace | interview_simulator.py:110 | skipping JSON whitespace never lengthens the text and leaves it at a character that is not JSON whitespace, or empty |
| Json.UnicodeEscape | interview_simulator.py:110 | a `\uXXXX` escape consumes four characters and gives a character of the basic plane, or, as a surrogate pair, ten characters and gives one character above it |
| Json.SurrogatePairIsOneCharacter | interview_simulator.py:110 | the pair `\ud83d\ude00` decodes to the single character U+1F600 and consumes all of the pair |
| Json.Escape | interview_simulator.py:110 | an escape consumes input; every escape but `\u` is one character after the backslash |
| Json.StringBody | interview_simulator.py:110 | a decoded string body consumes input, and the string is shorter than the text it was read from, which includes the closing quote |
| Json.Elements | interview_simulator.py:110 | decoded elements are at least one string, and each element takes at least three characters: two quotes and a comma or the closing bracket |
| Json.DecodeStringArray | interview_simulator.py:110-111 | a decoded array starts, after JSON whitespace, with `[` |
| Json.EscapeRoundTrip | interview_simulator.py:110 | every character JSON must escape is written with a backslash, and the escape decodes back to that character |
| Json.StringBodyRoundTrip | interview_simulator.py:110 | the body of an encoded string, with its closing quote, decodes to the original string, and decoding stops right after that quote |
| Json.StringLiteralRoundTrip | interview_simulator.py:110 | an encoded string literal decodes to its string, followed by whatever came after it |
| Json.Compact | interview_simulator.py:110 | the layout with no whitespace fits any number of elements |
| Json.Dumps | interview_simulator.py:110 | the layout with one space after each comma fits any number of elements |
| Json.GapSkipped | interview_simulator.py:110 | JSON whitespace in front of a token or at the end of the text is skipped entirely |
| Json.LastElementRoundTrip | interview_simulator.py:110 | a last element, any whitespace and the closing bracket decode to that one string |
| Json.NextElementRoundTrip | interview_simulator.py:110 | an element, whitespace, a comma and whitespace in front of decodable elements add that element at the front |
| Json.ElementsRoundTrip | interview_simulator.py:110-111 | encoded array elements with any whitespace around each one, followed by `]`, decode to the same list of strings |
| Json.EmptyArrayRoundTrip | interview_simulator.py:110-112 | an empty array with any whitespace inside and around it decodes to the empty list |
| Json.FilledArrayRoundTrip | interview_simulator.py:110-112 | a non-empty array with any whitespace between its tokens decodes to its strings |
| Json.DecodeEncodedArray | interview_simulator.py:110-112 | `json.loads` of an array of strings gives back exactly that list, the empty list included, for every placement of JSON whitespace between the tokens |
| Json.NotAnArray | interview_simulator.py:110-116 | a text whose first non-whitespace character is not `[` (an object, a string, a number, a literal, or no JSON at all) is not taken as a list, so, apart from the two `json.loads` failures named under Left out, it falls through to the pattern tier |
| Json.NoStringAfterBracket | interview_simulator.py:110-116 | a bracket followed by anything but a string or the closing bracket, such as a heading "[Questions]" or an array of numbers, is not taken as a list either |
| QuestionPattern.DigitRunEnd | interview_simulator.py:119 | `\d+` stops at the first character that is not a digit |
| QuestionPattern.NumberedMarkerIsLiteral | interview_simulator.py:119 | the computed test for `\d+[\.\)]` holds exactly when some number of digits followed by `.` or `)` is present |
| QuestionPattern.ComputedImpliesSpacesThenEnd | interview_simulator.py:119 | the computed test for `\s*` followed by a numbered line or `$` implies the literal reading |
| QuestionPattern.SpacesThenEndImpliesComputed | interview_simulator.py:119 | the literal reading of `\s*` followed by a numbered line or `$` implies the computed test |
| QuestionPattern.NewlineThenNumberIsComputed | interview_simulator.py:119 | a line feed and a numbered marker found by the literal reading are found by the computed test |
| QuestionPattern.EndsItemAt | interview_simulator.py:119 | the computed end test always holds at the end of the text |
| QuestionPattern.EndsItemAtIsLookahead | interview_simulator.py:119 | the computed end test holds exactly where the lookahead of the pattern holds, whether `"?` is taken or not |
| QuestionPattern.BodyStart | interview_simulator.py:119 | after the opener, the capture starts inside the text and not before the opener's end; `BodyStartIsLongestGap` says where |
| QuestionPattern.CaptureStart | interview_simulator.py:119 | a match can only open at a digit, `-` or `*`, and its capture starts after that character; `CaptureStartIsLongestLeadIn` says where |
| QuestionPattern.GapEnds | interview_simulator.py:119 | `\s*"?` read literally may end anywhere in the run of whitespace, or just after a quote that follows it |
| QuestionPattern.BodyStartIsLongestGap | interview_simulator.py:119 | the capture starts at c exactly when c is the end of the longest match of `\s*"?` that still leaves a character for the capture |
| QuestionPattern.NoBodyStartNoGap | interview_simulator.py:119 | no capture starts exactly when every match of `\s*"?` reaches the end of the text |
| QuestionPattern.DigitLeadIn | interview_simulator.py:119 | from a digit, the lead-in `\d+[\.\)]?\s*"?` may end inside the digits, after the whole number and a gap, or after the number, `.` or `)`, and a gap |
| QuestionPattern.BulletLeadIn | interview_simulator.py:119 | from `-` or `*`, the lead-in may end exactly where a gap after that character ends |
| QuestionPattern.NoOpenerNoLeadIn | interview_simulator.py:119 | no lead-in starts at a character that is not a digit, `-` or `*` |
| QuestionPattern.CaptureStartIsLongestLeadIn | interview_simulator.py:119 | the scanner starts the capture at c exactly when c is the end of the longest literal match of the lead-in, a number with an optional `.` or `)` or a single `-` or `*`, then `\s*"?`, from the position that still leaves a character, which is the first one Python's backtracking engine tries with success |
| QuestionPattern.NoCaptureStartNoLeadIn | interview_simulator.py:119 | no match opens at a position exactly when every literal match of the lead-in from it reaches the end of the text |
| QuestionPattern.LazyEnd | interview_simulator.py:119 | the lazy capture ends at the first position after its first character at which the lookahead holds |
| QuestionPattern.MatchesFrom | interview_simulator.py:118-122 | each match takes at least two characters, its opener and a non-empty capture, so a scan from a position finds at most half as many matches as characters remain |
| QuestionPattern.Captures | interview_simulator.py:118-122 | `re.findall` returns one capture per match |
| QuestionPattern.MatchAt | interview_simulator.py:118-122 | where a match opens, the scan records it and resumes at the end of its capture |
| QuestionPattern.NoMatchAt | interview_simulator.py:118-122 | a position that holds no digit, `-` or `*` is passed over |
| QuestionPattern.MatchesFromOrdered | interview_simulator.py:118-122 | the matches lie in the text and come in text order, each opening at or after the end of the previous capture |
| QuestionPattern.CapturesLazyFrom | interview_simulator.py:119 | every capture found is lazy: it ends at the first position where the lookahead holds |
| QuestionPattern.CapturesAreLazyAndOrdered | interview_simulator.py:118-122 | every capture is a non-empty slice of the text, the captures are lazy and in text order, and each returned string is its slice |
| QuestionPattern.NoNumberedLineInsideCapture | interview_simulator.py:119 | after its first character, a capture never takes a line feed that is followed by optional whitespace and a numbered marker |
| QuestionPattern.NoMatchSkipped | interview_simulator.py:118-122 | every position where a match could open lies inside some match found, so the scan skips no item |
| QuestionPattern.NoOpenerNoMatches | interview_simulator.py:118-122 | a text with no digit, `-` or `*` has no matches |
| QuestionPattern.PlainTextCapture | interview_simulator.py:119 | over text with no line feed and no quote, the capture ends exactly at the first position where the lookahead holds after a non-space character |
| QuestionPattern.SkipLineFeed | interview_simulator.py:118-122 | a line feed opens no match |
| QuestionPattern.MatchThenLineFeed | interview_simulator.py:118-122 | a capture that stops at a line feed is followed by the scan after that line feed |
| QuestionPattern.DigitsThenPunctAt | interview_simulator.py:119 | digits followed by `.` or `)` form a numbered marker |
| QuestionPattern.LineCaptureStart | interview_simulator.py:119 | on a line "n. text" the capture starts at the text, after the number, the dot and the space |
| QuestionPattern.LineCaptureEnd | interview_simulator.py:119 | on such a line the capture ends at the line feed when the next line is numbered or the text ends there |
| QuestionPattern.LineMatch | interview_simulator.py:118-122 | one numbered line gives one match whose capture is the line's text |
| QuestionPattern.ListingStartsNumbered | interview_simulator.py:119 | a listing of numbered lines starts with a numbered marker, unless it is empty |
| QuestionPattern.ListingFirstMatch | interview_simulator.py:118-122 | the first line of a numbered listing gives the first match, whose text is that line's question, and the scan goes on with the rest of the listing |
| QuestionPattern.ListingMatches | interview_simulator.py:118-122 | a numbered listing gives exactly one match per line, and match i captures line i's question without its number |
| QuestionPattern.BulletNeverEndsItem | interview_simulator.py:119 | whitespace followed by `-` or `*` never satisfies the lookahead |
| QuestionPattern.NoCaptureEndsBeforeBullet | interview_simulator.py:118-122 | no capture ends in front of whitespace followed by a bullet |
| QuestionPattern.NumberedLineEndsItem | interview_simulator.py:119 | a line feed followed by optional whitespace and a numbered marker does end an item |
| Questions.PatternQuestions | interview_simulator.py:118-124 | the pattern tier cleans the captures one for one |
| Questions.ParseQuestions | interview_simulator.py:107-129 | parse_questions never returns more than eight questions, whichever tier answers |
| Questions.JsonArrayIsTakenAsIs | interview_simulator.py:110-112 | a reply that is a JSON array of strings, with any whitespace between its tokens, gives its first min(n, 8) strings in order, with quotes and whitespace inside them kept |
| Questions.ListReplyQuestions | interview_simulator.py:116-125 | a reply that does not decode as a JSON array of strings gives one question per match, up to eight, in text order; question k is capture k stripped and then stripped of every double quote, and contains no quote |
| Questions.ListQuestionsStopAtNumberedLines | interview_simulator.py:118-125 | after its first character, no question's capture takes a line feed that starts a line with a new number |
| Questions.NoListNoQuestions | interview_simulator.py:116-129 | a reply that does not decode as a JSON array of strings and has no digit, dash or asterisk gives the empty list, not a failure |
| Questions.NumberedListingQuestions | interview_simulator.py:116-125 | a reply of numbered lines "n. question" gives back its first eight questions exactly |
| Questions.ListingIsNotAnArray | interview_simulator.py:110-116 | a numbered listing is not a JSON array, so it reaches the pattern tier |
| Questions.PlainLineIsKept | interview_simulator.py:124 | the text of a line with no quote and no whitespace at its ends survives cleaning unchanged |
| Questions.NumberedReplyExample | interview_simulator.py:116-125 | the reply "1. What is a closure?\n2. Explain CAP theorem\n" gives ["What is a closure?", "Explain CAP theorem"] |
| Speech.Recognize | interview_window.py:74-112 | text is obtained exactly when a recording was made and the provider's own service answered; a Google transcript is taken as it is; Whisper counts only with status 200, and any other status gives the empty text; "could not understand" comes only from Google; any other provider fails on the unassigned variable; microphone failures pass their own message through |
| Conversation.Context | interview_window.py:61 | a history of at most three entries is shown whole, one entry per line |
| Conversation.ContextIgnoresOlderEntries | interview_window.py:61 | entries older than the latest three never reach the generator |
| Conversation.GreetingShown | interview_window.py:48-53 | show_greeting writes the greeting and then the request for an introduction after the earlier lines, moves to the introduction stage, enables listening and leaves the history alone |
| Conversation.NextQuestionShown | interview_window.py:55-67 | a complete interview is left as it is; otherwise the generator is called on the latest entries, and its question is written once and added to the history, or nothing is added when it raises; the stage and the button never change |
| Conversation.Answered | interview_window.py:72-114 | after any attempt the button is enabled again, and the history has gained at most two entries |
| Conversation.Run | interview_window.py:69-114 | over any sequence of attempts the button ends enabled, the stage never goes back, and the history only grows at its end, by at most two entries an attempt |
| Conversation.ContextIsLatestEntries | interview_window.py:61 | the generator is shown the last three history entries, oldest first, joined by line feeds, or all of them when there are fewer |
| Conversation.NewWindowAwaitsIntroduction | interview_window.py:19-53 | after the greeting, the window is in the introduction stage with an empty history and listening, and it has shown the greeting and the request for an introduction |
| Conversation.FaultLeavesConversation | interview_window.py:107-114 | a failed attempt leaves the stage and the history unchanged; it only writes the fault line and enables listening again |
| Conversation.Progressed | interview_window.py:96-105 | the stage moves on as the progression block says; where the stage asks for it, the generator is called on the latest entries and its question alone is added to the history; the progression is interrupted exactly when the generator raises, with its message; listening is unchanged |
| Conversation.AnswerTaken | interview_window.py:93-105 | an understood answer adds the candidate's entry and then, where the stage asks for it and the generator gives a question, exactly one interviewer entry; the stage moves as the progression block says |
| Conversation.HeardAnswerEffect | interview_window.py:72-105 | the same effect for a whole listening attempt that was understood, and the button is enabled again |
| Conversation.AnswerAddsCandidateEntry | interview_window.py:93-94 | every understood answer, in every stage, appends exactly one "Candidate: " entry with its text, keeps the earlier history, and adds at most one interviewer entry after it |
| Conversation.IntroductionAsksOneQuestion | interview_window.py:97-99 | answering the introduction moves to the questions stage and adds exactly the one question the generator gave |
| Conversation.BudgetCompletesInterview | interview_window.py:100-103 | in the questions stage, an answer that brings the history to ten entries completes the interview, asks nothing more, and writes the completion notice |
| Conversation.UnderBudgetAsksOneQuestion | interview_window.py:104-105 | in the questions stage under the budget, an answer adds exactly one question, shows it, and stays in that stage |
| Conversation.CompleteIsTerminal | interview_window.py:55-57 | a complete interview stays complete: show_next_question changes nothing, and later answers only add the candidate's entry |
| Conversation.AnswerOnlyMovesForward | interview_window.py:93-105 | the stage never goes back and the history only grows at its end |
| Conversation.CandidateKeepsAlternation | interview_window.py:94 | appending a candidate entry keeps every interviewer entry right after a candidate entry |
| Conversation.InterviewerKeepsAlternation | interview_window.py:67 | a question appended right after a candidate entry keeps the alternation |
| Conversation.AnswerKeepsValid | interview_window.py:72-114 | every attempt keeps the window valid: not in the greeting stage, listening, no history while awaiting the introduction, 1 to 10 entries while asking, at least 10 once complete, and alternating entries |
| Conversation.SettledKeepsValid | interview_window.py:93-114 | the part of an attempt after recognition keeps the window valid |
| Conversation.RunKeepsValid | interview_window.py:69-114 | any sequence of attempts keeps the window valid |
| Conversation.IntroductionRound | interview_window.py:97-99 | with a generator that always answers, the understood introduction leaves two entries in the questions stage |
| Conversation.FollowUpRound | interview_window.py:104-105 | under the budget, with a generator that always answers, an understood answer adds two entries |
| Conversation.QuestionRounds | interview_window.py:100-105 | from 2m entries, 6 - m understood answers complete the interview with eleven entries, and fewer leave it asking |
| Conversation.FullInterview | interview_window.py:48-105 | when every answer is understood and every question generated, the sixth answer completes the interview with eleven entries |
| Conversation.FiveAnswersDoNotComplete | interview_window.py:100-105 | after five such answers the interview is still asking questions, with ten entries |
| Conversation.InterviewWindow.constructor | interview_window.py:10-23 | a new window keeps its parameters and has shown its greeting |
| Conversation.InterviewWindow.ShowGreeting | interview_window.py:48-53 | writes the greeting and the request for an introduction, moves to the introduction stage and enables listening |
| Conversation.InterviewWindow.ShowNextQuestion | interview_window.py:55-67 | does nothing once complete; otherwise writes and records the generated question, or returns what the generator raised |
| Conversation.InterviewWindow.UpdateDisplay | interview_window.py:116-118 | appends the message on a new line and changes nothing else |
| Conversation.InterviewWindow.TakeAnswer | interview_window.py:93-105 | the new state is the understood-answer step of the old one |
| Conversation.InterviewWindow.ListenAndConvert | interview_window.py:72-114 | the new state is the listening-attempt step of the old one |
| PromptWindow.OpenedShowsFirstQuestion | interview_prompt.py:28-39 | a new window is at question 0 and shows the first question and listens, or, with no questions, shows the completion notice and does not listen |
| PromptWindow.QuestionShown | interview_prompt.py:64-71 | show_question writes exactly one line, keeping the earlier ones and the index: the current question while there is one, and otherwise the completion notice with listening disabled |
| PromptWindow.Answered | interview_prompt.py:77-104 | after any attempt the button is enabled again, the index has moved by at most one question, and one to three lines are written after the earlier ones |
| PromptWindow.Run | interview_prompt.py:73-104 | over any sequence of attempts the button ends enabled, the index moves by at most one question an attempt, and every attempt writes at least one line after the earlier ones |
| PromptWindow.HeardAnswerAdvances | interview_prompt.py:97-99 | an understood answer moves on by exactly one question and listens again |
| PromptWindow.FaultKeepsQuestion | interview_prompt.py:101-104 | a failed attempt keeps the current question, writes the fault line and listens again |
| PromptWindow.CompletionRepeats | interview_prompt.py:97-104 | past the last question, listening is enabled again and every further understood answer writes the completion notice once more |
| PromptWindow.QuestionShownPrompts | interview_prompt.py:64-71 | show_question adds the current question to the interviewer's lines, and nothing past the end |
| PromptWindow.AnswerKeepsPromptsInOrder | interview_prompt.py:77-104 | after every attempt, the interviewer's lines are exactly the questions reached so far, in order |
| PromptWindow.ListeningKeepsPrompts | interview_prompt.py:81 | the "Listening..." line asks nothing |
| PromptWindow.SettledKeepsPromptsInOrder | interview_prompt.py:97-104 | the part of an attempt after recognition keeps the interviewer's lines in step with the questions reached |
| PromptWindow.RunPutsQuestionsInOrder | interview_prompt.py:73-104 | over any sequence of attempts the index moves on once per understood answer, and the questions asked are the first ones of the list, in order |
| PromptWindow.InterviewAsksQuestionsInOrder | interview_prompt.py:28-104 | after n understood answers, current_question is n and the window has asked exactly the first min(n + 1, length) questions, in order |
| PromptWindow.InterviewWindow.constructor | interview_prompt.py:28-39 | a new window keeps its parameters, is at question 0 and has shown that question |
| PromptWindow.InterviewWindow.ShowQuestion | interview_prompt.py:64-71 | the new state is the show_question step of the old one |
| PromptWindow.InterviewWindow.UpdateDisplay | interview_prompt.py:106-108 | appends the message on a new line and changes nothing else |
| PromptWindow.InterviewWindow.ListenAndConvert | interview_prompt.py:77-104 | the new state is the listening-attempt step of the old one |
| Simulator.GenerateQuestions | interview_prompt.py:158-203 | questions come back exactly for OpenAI with status 200 and a content, or for Google with a non-empty text, leaving aside the two `json.loads` failures named under Left out; they are that text parsed, at most eight, and only for a provider of the table |
| Simulator.OtherProviderGeneratesNothing | interview_prompt.py:167-199 | a provider other than OpenAI and Google, the empty selection included, falls off the end and gives None |
| Simulator.ArrayReplyGivesItsQuestions | interview_simulator.py:84-87 | a chat reply that is a JSON array of at most eight strings, with any whitespace between its tokens, gives exactly those questions |
| Simulator.StartInterview | interview_simulator.py:131-170 | a description that strips to nothing is refused before generating; no questions or an empty list stops before the keyring; the window opens only with at least one question and the non-empty key stored for the provider |
| Simulator.ReplyWithoutListDoesNotStart | interview_simulator.py:131-145 | a reply that is not a JSON array of strings and has no list marker stops the start with "Failed to generate questions" |
| Simulator.StartedInterviewAsksFirstQuestion | interview_simulator.py:156-162 | the window a successful start opens is at question 0 and shows the first generated question |
| Simulator.KeyUpdateOf | interview_simulator.py:172-194 | the key is stored exactly when a provider of the table is selected and the key is non-empty; no selection and an empty key are refused in that order and change nothing; an accepted key writes exactly the provider's entry, and for Google also configures the library |
| Simulator.UpdateKeyKeepsOtherEntries | interview_simulator.py:184-188 | an accepted key leaves every other keyring entry as it was |
| Simulator.StoredKeyOpensInterview | interview_simulator.py:147-162 | after a key is stored for a provider, generated questions open the interview with exactly that key |
| Simulator.SpeechApp.constructor | interview_simulator.py:12-19 | the application starts with the keys already in the keyring and no library key configured |
| Simulator.SpeechApp.UpdateKey | interview_simulator.py:172-194 | the new store and the notice are those of the key-update function |

## Left out

- Tk widgets, message boxes, cursor changes and `root.after` scheduling are not modelled. A message box becomes a result value, and the text area becomes a sequence of insertions.
- Threads are not modelled: each listening attempt and each start of an interview is one atomic step. Disabling the listen button while an attempt runs only shows as `listening` being false inside the method.
- Remote calls are not modelled: the OpenAI chat and Whisper requests, Gemini, `recognize_google` and the microphone. Their outcomes are inputs (`ChatReply`, `GeminiReply`, `Attempt`). The five-second listening timeout shows up only as a `ListenFailed` capture.
- `verify_key` is not modelled. It reports what a remote service answered. For Google it also calls `genai.configure` with the key being checked, and that reconfiguration is not tracked.
- The keyring is a map with no storage semantics of its own. `genai.configure` is recorded as the key last configured (`sdkKey`).
- Simulator.GenerateQuestions: the `genai.configure` it makes with the entered key is not recorded, because it affects only the remote call.
- Prompt texts, model names, the temperature and the debug prints are not modelled: none of them changes a decision.
- Questions.ParseQuestions: `json.loads` failures other than `JSONDecodeError` are not modelled. These are the `ValueError` for an integer literal longer than the interpreter's digit limit (4300 digits by default) and the `RecursionError` for arrays or objects nested past the recursion limit. Both depend on interpreter settings. In the source they escape parse_questions, `generate_questions` returns None, and `start_interview` reports that generation failed. The model sends such a text to the pattern tier instead, so `Simulator.GenerateQuestions` and `Json.NotAnArray` promise more for these texts than the source gives.
- Simulator.GenerateQuestions: it promises questions for an OpenAI content on which `json.loads` raises `ValueError` or `RecursionError`, where the source returns None, for the reason given under Questions.ParseQuestions.
- Json.NotAnArray: such a text, such as a number of more than 4300 digits, does not reach the pattern tier in the source, for the same reason.
- Json.DecodeStringArray: only arrays of strings decode. A JSON list with a non-string element is treated as not a list, whereas `json.loads` returns it and parse_questions keeps it.
- Json.StringBody: a lone surrogate escape is refused, because Dafny's `char` cannot hold one, while Python accepts it.
- Json.DecodeEncodedArray: the encoder writes each character in one canonical spelling: `\"`, `\\`, lowercase `\u00XX` for control characters, and every other character as itself. The decoder also reads the other spellings, such as `\n`, `\/`, uppercase hex digits and `\u` escapes of ordinary characters, but the round trip does not cover them.
- QuestionPattern: `\d` is taken to be the ASCII digits. Python's `str` patterns also match other Unicode decimal digits.
- Speech.Recognize: the message of the unassigned-variable error is modelled with the wording of recent Python versions.
- Python's exception hierarchy is reduced to the three failures the windows tell apart.
- Simulator.StartInterview: the "Unexpected error" branch is not modelled as a result. The keyring lookup it guards cannot fail after generation has succeeded, and keyring faults are not modelled.
- Conversation: what the follow-up generator does is unknown, because the window calls it through an attribute it never sets. It is a parameter.
- `config.py` is constant data and appears as `Simulator.ServiceName` and `Simulator.Usernames`.
