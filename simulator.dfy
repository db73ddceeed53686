/** The main window of the assistant (interview_simulator.py): generating the questions
    with the chosen provider, the checks before an interview starts, and storing a
    provider's key in the system keyring. The keyring is a map from a service name and
    a user name to a secret; the language-model services are represented by their
    replies. */
module Simulator {
  import opened Wrappers
  import opened Text
  import Json
  import QuestionPattern
  import Speech
  import Questions
  import PromptWindow

  /** The keyring service under which every key is kept. */
  const ServiceName: string := "speech_recognition"

  /** The providers that can be selected, with the keyring user name of each. */
  const Usernames: map<string, string> := map["OpenAI" := "openai_api_key", "Google" := "google_api_key"]

  /** The system keyring, keyed by service name and user name. */
  type Keyring = map<(string, string), string>

  /** What the OpenAI chat request gave: it raised, or a status and, when the body has
      one, the text content of the first choice. */
  datatype ChatReply = ChatRaised(detail: string) | ChatResponse(status: int, content: Option<string>)

  /** What the Gemini request gave: it raised, or the text of the response. */
  datatype GeminiReply = GeminiRaised(detail: string) | GeminiText(text: string)

  /** generate_questions: the questions parsed from the reply of the selected provider,
      or None when the request failed, the reply was empty, or no known provider is
      selected. */
  function GenerateQuestions(provider: string, chat: ChatReply, gemini: GeminiReply): (r: Option<seq<string>>)
    ensures r.Some? <==> || (provider == "OpenAI" && chat.ChatResponse? && chat.status == 200 && chat.content.Some?)
                         || (provider == "Google" && gemini.GeminiText? && gemini.text != "")
    ensures r.Some? ==> provider in Usernames && |r.value| <= Questions.MaxQuestions
    ensures r.Some? && provider == "OpenAI" ==> r.value == Questions.ParseQuestions(chat.content.value)
    ensures r.Some? && provider == "Google" ==> r.value == Questions.ParseQuestions(gemini.text)
  {
    if provider == "OpenAI" then
      match chat
      case ChatResponse(200, Some(content)) => Some(Questions.ParseQuestions(content))
      case _ => None
    else if provider == "Google" then
      match gemini
      case GeminiText(text) => if text != "" then Some(Questions.ParseQuestions(text)) else None
      case GeminiRaised(_) => None
    else
      None
  }

  /** A provider that is neither "OpenAI" nor "Google", the empty selection included,
      generates nothing. */
  lemma OtherProviderGeneratesNothing(provider: string, chat: ChatReply, gemini: GeminiReply)
    requires provider != "OpenAI" && provider != "Google"
    ensures GenerateQuestions(provider, chat, gemini) == None
  {
  }

  /** A model that answers with a JSON array of at most eight strings, whatever
      whitespace it puts between the tokens, gives exactly those questions. */
  lemma ArrayReplyGivesItsQuestions(qs: seq<string>, l: Json.Layout)
    requires |qs| <= Questions.MaxQuestions && Json.Fits(l, |qs|)
    ensures GenerateQuestions("OpenAI", ChatResponse(200, Some(Json.EncodeStringArray(qs, l))), GeminiRaised("")) == Some(qs)
  {
    Questions.JsonArrayIsTakenAsIs(qs, l);
  }

  /** How a press of "Generate Questions & Start Interview" ends. */
  datatype Launch =
    | MissingJobDescription
    | GenerationFailed
    | KeyNotFound
    | OpenWindow(questions: seq<string>, provider: string, apiKey: string)

  /** start_interview, with the job description as the widget holds it. */
  function StartInterview(jobText: string, provider: string, keyring: Keyring, chat: ChatReply, gemini: GeminiReply): (r: Launch)
    // an empty description is refused before anything is generated
    ensures r == MissingJobDescription <==> Strip(jobText) == ""
    // no questions, or an empty list of them, stops before the keyring is read
    ensures Strip(jobText) != "" ==>
              (r == GenerationFailed <==> GenerateQuestions(provider, chat, gemini) in {None, Some([])})
    // the window opens on the generated questions with the key stored for the provider
    ensures r.OpenWindow? ==>
              && GenerateQuestions(provider, chat, gemini) == Some(r.questions)
              && 1 <= |r.questions| <= Questions.MaxQuestions
              && r.provider == provider && provider in Usernames
              && (ServiceName, Usernames[provider]) in keyring
              && r.apiKey == keyring[(ServiceName, Usernames[provider])] && r.apiKey != ""
    ensures r == KeyNotFound ==>
              provider in Usernames
              && ((ServiceName, Usernames[provider]) !in keyring || keyring[(ServiceName, Usernames[provider])] == "")
  {
    if Strip(jobText) == "" then MissingJobDescription
    else
      match GenerateQuestions(provider, chat, gemini)
      case None => GenerationFailed
      case Some(qs) =>
        if qs == [] then GenerationFailed
        else
          // generation only succeeds for a provider of the table, so this lookup cannot fail
          var entry := (ServiceName, Usernames[provider]);
          if entry !in keyring || keyring[entry] == "" then KeyNotFound
          else OpenWindow(qs, provider, keyring[entry])
  }

  /** A chat reply with no list at all gives no questions, so the interview does not
      start. */
  lemma ReplyWithoutListDoesNotStart(jobText: string, keyring: Keyring, content: string, gemini: GeminiReply)
    requires Strip(jobText) != ""
    requires Questions.HasNoList(content)
    ensures StartInterview(jobText, "OpenAI", keyring, ChatResponse(200, Some(content)), gemini) == GenerationFailed
  {
    Questions.NoListNoQuestions(content);
  }

  /** The interview window a successful start opens asks the first generated question. */
  lemma StartedInterviewAsksFirstQuestion(jobText: string, provider: string, keyring: Keyring, chat: ChatReply, gemini: GeminiReply)
    requires StartInterview(jobText, provider, keyring, chat, gemini).OpenWindow?
    ensures var qs := StartInterview(jobText, provider, keyring, chat, gemini).questions;
            var w := PromptWindow.Opened(qs);
            w.current == 0 && w.listening && w.display == [Speech.InterviewerLine(qs[0])]
  {
    PromptWindow.OpenedShowsFirstQuestion(StartInterview(jobText, provider, keyring, chat, gemini).questions);
  }

  /** The state update_key works on: the keyring, and the key the Gemini library was
      last configured with. */
  datatype Store = Store(keyring: Keyring, sdkKey: Option<string>)

  /** The notice update_key ends with. */
  datatype KeyNotice =
    | SelectProviderFirst
    | EmptyKey
    | UnknownProvider   // a selection outside the table: its lookup raises before anything is written
    | KeyUpdated

  datatype KeyUpdate = KeyUpdate(store: Store, notice: KeyNotice)

  /** What update_key does, with the selected provider and the text of the key entry. */
  function KeyUpdateOf(st: Store, selected: string, newKey: string): (r: KeyUpdate)
    ensures r.notice == KeyUpdated <==> selected != "" && newKey != "" && selected in Usernames
    ensures selected == "" ==> r.notice == SelectProviderFirst
    ensures selected != "" && newKey == "" ==> r.notice == EmptyKey
    // a refused update changes nothing
    ensures r.notice != KeyUpdated ==> r.store == st
    // an accepted one writes exactly the provider's entry, and for Google configures the library
    ensures r.notice == KeyUpdated ==>
              && r.store.keyring == st.keyring[(ServiceName, Usernames[selected]) := newKey]
              && r.store.sdkKey == (if selected == "Google" then Some(newKey) else st.sdkKey)
  {
    if selected == "" then KeyUpdate(st, SelectProviderFirst)
    else if newKey == "" then KeyUpdate(st, EmptyKey)
    else if selected !in Usernames then KeyUpdate(st, UnknownProvider)
    else
      var keyring := st.keyring[(ServiceName, Usernames[selected]) := newKey];
      KeyUpdate(Store(keyring, if selected == "Google" then Some(newKey) else st.sdkKey), KeyUpdated)
  }

  /** An accepted key leaves the other provider's key as it was. */
  lemma UpdateKeyKeepsOtherEntries(st: Store, selected: string, newKey: string, entry: (string, string))
    requires KeyUpdateOf(st, selected, newKey).notice == KeyUpdated
    requires entry != (ServiceName, Usernames[selected])
    ensures entry in KeyUpdateOf(st, selected, newKey).store.keyring <==> entry in st.keyring
    ensures entry in st.keyring ==> KeyUpdateOf(st, selected, newKey).store.keyring[entry] == st.keyring[entry]
  {
  }

  /** The key update_key stores is the key start_interview then hands to the window:
      once a key is stored for a provider, generated questions always open the interview. */
  lemma StoredKeyOpensInterview(st: Store, provider: string, newKey: string, jobText: string, chat: ChatReply, gemini: GeminiReply)
    requires KeyUpdateOf(st, provider, newKey).notice == KeyUpdated
    requires Strip(jobText) != ""
    requires GenerateQuestions(provider, chat, gemini).Some? && GenerateQuestions(provider, chat, gemini).value != []
    ensures StartInterview(jobText, provider, KeyUpdateOf(st, provider, newKey).store.keyring, chat, gemini)
            == OpenWindow(GenerateQuestions(provider, chat, gemini).value, provider, newKey)
  {
  }

  /** The application window's key store. */
  class SpeechApp {
    var keyring: Keyring
    var sdkKey: Option<string>

    function State(): Store
      reads this
    {
      Store(keyring, sdkKey)
    }

    /** The application starts with the keys already in the system keyring. */
    constructor (keyring: Keyring)
      ensures State() == Store(keyring, None)
    {
      this.keyring := keyring;
      sdkKey := None;
    }

    /** Stores the entered key for the selected provider. */
    method UpdateKey(selected: string, newKey: string) returns (notice: KeyNotice)
      modifies this
      ensures State() == KeyUpdateOf(old(State()), selected, newKey).store
      ensures notice == KeyUpdateOf(old(State()), selected, newKey).notice
    {
      if selected == "" {
        return SelectProviderFirst;
      }
      if newKey == "" {
        return EmptyKey;
      }
      if selected !in Usernames {
        return UnknownProvider;
      }
      keyring := keyring[(ServiceName, Usernames[selected]) := newKey];
      if selected == "Google" {
        sdkKey := Some(newKey);
      }
      notice := KeyUpdated;
    }
  }
}
