/** The default log formatter: free text verbatim, and leveled messages as
    `{date} [{thread id}{: thread name}] - {SEVERITY}: {message}`. */
module LogFormat {
  import opened Wrappers
  import opened Text
  import opened Logging

  /** `NotImplementedException` for a content type the formatter does not know. */
  datatype FormatError = NotImplemented(message: string)

  /** The thread id, with a single leading zero when it is below 10. */
  function ThreadIdText(id: int): string {
    if id < 10 then "0" + IntToString(id) else IntToString(id)
  }

  /** `": " + name` for a named thread, nothing otherwise. */
  function ThreadNameText(thread: ThreadInfo): (r: string)
    ensures r == "" <==> !HasName(thread)
    ensures HasName(thread) ==> r == ": " + thread.name.value
  {
    if HasName(thread) then ": " + thread.name.value else ""
  }

  /** `Severity.ToString().ToUpper()`. */
  function SeverityText(level: LogLevel): string {
    Upper(LevelName(level))
  }

  function FormatLogMessage(dateTime: string, severity: LogLevel, message: string, thread: ThreadInfo): string {
    dateTime + " [" + ThreadIdText(thread.id) + ThreadNameText(thread) + "] - " + SeverityText(severity) + ": " + message
  }

  function UnknownContentMessage(typeName: string): string {
    "The default formatter is not yet implemented for log content of type " + typeName + "!"
  }

  /** `Format(content)`. */
  function Format(content: LogContent): (r: Result<string, FormatError>)
    ensures content.LogText? ==> r == Success(content.text)
    ensures r.Failure? <==> content.OtherContent?
    ensures content.OtherContent? ==> r.error == NotImplemented(UnknownContentMessage(content.typeName))
    ensures content.LogMessage? ==>
              r.Success?
              && content.dateTime <= r.value
              && |content.message| <= |r.value|
              && r.value[|r.value| - |content.message|..] == content.message
  {
    match content
    case LogText(text) => Success(text)
    case LogMessage(dateTime, severity, message, thread) => Success(FormatLogMessage(dateTime, severity, message, thread))
    case OtherContent(typeName) => Failure(NotImplemented(UnknownContentMessage(typeName)))
  }

  /** For a non-negative id the rendering is all digits, at least two of them,
      and reads back as the id; ids from 10 on carry no leading zero. */
  lemma ThreadIdRoundTrip(id: int)
    requires 0 <= id
    ensures AllDigits(ThreadIdText(id))
    ensures ParseDecimal(ThreadIdText(id)) == id
    ensures |ThreadIdText(id)| >= 2
    ensures ThreadIdText(id)[0] == '0' <==> id < 10
  {
    NatToStringRoundTrip(id);
    if id < 10 {
      LeadingZero(NatToString(id));
      assert IntToString(id) == [DigitChar(id)];
    } else {
      assert NatToString(id) == NatToString(id / 10) + [DigitChar(id % 10)];
    }
  }

  /** A negative id is below 10 too, so it gets the zero in front of its sign. */
  lemma NegativeThreadId(id: int)
    requires id < 0
    ensures ThreadIdText(id)[..2] == "0-"
  {
  }

  /** Severities print as their upper-cased names. */
  lemma SeverityTexts()
    ensures SeverityText(Debug) == "DEBUG"
    ensures SeverityText(Info) == "INFO"
    ensures SeverityText(Warning) == "WARNING"
    ensures SeverityText(Error) == "ERROR"
  {
    UpperOfLiteral("Debug", "DEBUG");
    UpperOfLiteral("Info", "INFO");
    UpperOfLiteral("Warning", "WARNING");
    UpperOfLiteral("Error", "ERROR");
  }

  /** No two severities print alike, so the text identifies the level. */
  lemma SeverityTextsDistinct(a: LogLevel, b: LogLevel)
    ensures SeverityText(a) == SeverityText(b) <==> a == b
  {
    SeverityTexts();
  }

  /** Upper-casing a name gives `upper` when each character folds to the
      character at the same place in `upper`. */
  lemma UpperOfLiteral(name: string, upper: string)
    requires |name| == |upper| && forall k :: 0 <= k < |name| ==> Fold(name[k]) == upper[k]
    ensures Upper(name) == upper
  {
  }
}
