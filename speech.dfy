/** One press of "Start Listening" in either interview window: what the microphone
    and the chosen recognition service gave back, what the window makes of it, and the
    lines both windows write into their text area. The audio itself, the microphone and
    the remote services are not modelled: their outcomes are inputs. */
module Speech {
  import opened Wrappers

  /** What opening the microphone and listening for up to five seconds gave. */
  datatype Capture =
    | MicrophoneFailed(detail: string)  // opening the microphone raised; nothing was written yet
    | ListenFailed(detail: string)      // listening raised, for instance when the five seconds ran out
    | Recorded                          // a recording, whose audio is not modelled

  /** What the Google recognizer answered for the recording. */
  datatype GoogleReply =
    | Unintelligible                    // the recognizer found no speech it could understand
    | RequestFailed(detail: string)     // the recognition request itself failed
    | Transcript(text: string)

  /** What the transcription request to Whisper gave. */
  datatype WhisperReply =
    | WhisperRaised(detail: string)     // the request, or reading its JSON body, raised
    | WhisperResponse(status: int, text: Option<string>)  // the status and the body's "text" field

  /** Everything the outside world answered during one listening attempt; only the
      reply of the window's own provider is ever looked at. */
  datatype Attempt = Attempt(capture: Capture, google: GoogleReply, whisper: WhisperReply)

  /** Why an attempt produced no text. */
  datatype Fault =
    | NoSpeech                          // the recognizer's "could not understand" error
    | RecognitionError(detail: string)  // the recognizer's request error
    | Raised(detail: string)            // any other exception, with its message

  datatype Recognition = Heard(text: string) | Failed(fault: Fault)

  /** The message of the exception raised when the provider is neither "Google" nor
      "OpenAI": the transcript variable was never assigned. */
  const UnboundText: string := "cannot access local variable 'text' where it is not associated with a value"

  /** The recognition step of both windows (interview_window.py lines 75-91 and
      interview_prompt.py lines 84-95). */
  function Recognize(provider: string, a: Attempt): (r: Recognition)
    // text is obtained exactly when something was recorded and the provider's service answered
    ensures r.Heard? <==> a.capture.Recorded? && ((provider == "Google" && a.google.Transcript?)
                                                || (provider == "OpenAI" && a.whisper.WhisperResponse?))
    // a Google transcript is taken as it is
    ensures a.capture.Recorded? && provider == "Google" && a.google.Transcript? ==> r == Heard(a.google.text)
    // Whisper's text counts only with status 200; any other status gives the empty text, not a failure
    ensures a.capture.Recorded? && provider == "OpenAI" && a.whisper.WhisperResponse? ==>
              r == Heard(if a.whisper.status == 200 && a.whisper.text.Some? then a.whisper.text.value else "")
    // the recognizer's own two errors stay distinguishable
    ensures a.capture.Recorded? && provider == "Google" && a.google.Unintelligible? ==> r == Failed(NoSpeech)
    ensures r == Failed(NoSpeech) ==> provider == "Google"
    // a provider that is neither of the two fails on the unassigned transcript
    ensures a.capture.Recorded? && provider != "Google" && provider != "OpenAI" ==> r == Failed(Raised(UnboundText))
    // a failing microphone is reported with its own message, whatever the provider
    ensures !a.capture.Recorded? ==> r == Failed(Raised(a.capture.detail))
  {
    match a.capture
    case MicrophoneFailed(d) => Failed(Raised(d))
    case ListenFailed(d) => Failed(Raised(d))
    case Recorded =>
      if provider == "Google" then
        match a.google
        case Unintelligible => Failed(NoSpeech)
        case RequestFailed(d) => Failed(RecognitionError(d))
        case Transcript(t) => Heard(t)
      else if provider == "OpenAI" then
        match a.whisper
        case WhisperRaised(d) => Failed(Raised(d))
        case WhisperResponse(status, body) =>
          Heard(if status == 200 && body.Some? then body.value else "")
      else
        Failed(Raised(UnboundText))
  }

  /** Whether the "Listening..." line was written: only once the microphone opened. */
  predicate ListeningWasShown(a: Attempt) {
    !a.capture.MicrophoneFailed?
  }

  /** What update_display inserts for a message: the message on a new line. */
  function Displayed(message: string): string {
    "\n" + message
  }

  /** The text inserted when the interviewer says something. */
  function InterviewerLine(said: string): string {
    "\nInterviewer: " + said + "\n"
  }

  /** The line written while the microphone listens. */
  const ListeningLine: string := Displayed("\nCandidate: Listening... (speak now)")

  /** The line written when the interview is over. */
  const CompletionLine: string := "\n\nInterview completed! Thank you!\n"
}
