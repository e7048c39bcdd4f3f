/** The logger: a level threshold, an append-only log of contents, and a list
    of observers (without duplicates) that are notified of every entry in
    subscription order. The clock and the current thread are read once per
    call; here they arrive as a `Capture`. */
module Logging {
  import opened Wrappers
  import opened Text

  /** The severities, in increasing order. */
  datatype LogLevel = Debug | Info | Warning | Error

  function Rank(level: LogLevel): nat {
    match level
    case Debug => 0
    case Info => 1
    case Warning => 2
    case Error => 3
  }

  /** `LogLevel <= severity`: the configured threshold lets `severity` through. */
  predicate Permits(threshold: LogLevel, severity: LogLevel) {
    Rank(threshold) <= Rank(severity)
  }

  /** The enum member name, as `ToString()` renders it. */
  function LevelName(level: LogLevel): string {
    match level
    case Debug => "Debug"
    case Info => "Info"
    case Warning => "Warning"
    case Error => "Error"
  }

  // ----------------------------------------------------------- thread info

  datatype ThreadInfo = ThreadInfo(id: int, name: Option<string>)

  /** `!string.IsNullOrWhiteSpace(Name)`. */
  function HasName(thread: ThreadInfo): (r: bool)
    ensures thread.name.None? ==> !r
    ensures r <==> thread.name.Some?
                   && exists i :: 0 <= i < |thread.name.value| && !IsWhiteSpace(thread.name.value[i])
  {
    thread.name.Some? && !AllWhiteSpace(thread.name.value)
  }

  /** `ThreadInfo.Clone`. */
  function CloneThread(thread: ThreadInfo): (r: ThreadInfo)
    ensures r.id == thread.id && r.name == thread.name
  {
    ThreadInfo(thread.id, thread.name)
  }

  // ----------------------------------------------------------- log content

  /** A log entry: free text, a leveled message (with its time stamp, already
      rendered, and the thread that wrote it), or a content type that only some
      other producer would create. */
  datatype LogContent =
    | LogText(text: string)
    | LogMessage(dateTime: string, severity: LogLevel, message: string, threadInfo: ThreadInfo)
    | OtherContent(typeName: string)

  /** `LogContent.Clone`: a copy equal to the original. */
  function CloneContent(content: LogContent): (r: LogContent)
    ensures r == content
  {
    match content
    case LogText(text) => LogText(text)
    case LogMessage(dateTime, severity, message, thread) => LogMessage(dateTime, severity, message, CloneThread(thread))
    case OtherContent(typeName) => OtherContent(typeName)
  }

  // ----------------------------------------------------------- logger state

  /** An observer, identified by reference. */
  type Observer = nat

  /** One `observer.Notify(content)` call. */
  datatype Notification = Notification(observer: Observer, content: LogContent)

  datatype Logger = Logger(
    logLevel: LogLevel,
    log: seq<LogContent>,
    observers: seq<Observer>,
    notifications: seq<Notification>)

  /** The exception a call throws: `ArgumentNullException` for the named parameter. */
  datatype LoggerFault = ArgumentNull(paramName: string)

  /** What a leveled call reads from its environment: the time stamp and the current thread. */
  datatype Capture = Capture(dateTime: string, thread: ThreadInfo)

  /** The text `Error(message, exception)` assembles from the exception. */
  datatype ExceptionInfo = ExceptionInfo(details: string)

  predicate NoDuplicates(observers: seq<Observer>) {
    forall i, j :: 0 <= i < j < |observers| ==> observers[i] != observers[j]
  }

  /** A fresh logger with the given threshold. */
  function NewLogger(logLevel: LogLevel): (r: Logger)
    ensures r.log == [] && r.observers == [] && r.notifications == []
    ensures NoDuplicates(r.observers)
  {
    Logger(logLevel, [], [], [])
  }

  /** The calls of `foreach (var observer in observers) observer.Notify(content)`. */
  function Notify(observers: seq<Observer>, content: LogContent): (r: seq<Notification>)
    ensures |r| == |observers|
    ensures forall k :: 0 <= k < |r| ==> r[k] == Notification(observers[k], content)
  {
    if observers == [] then [] else [Notification(observers[0], content)] + Notify(observers[1..], content)
  }

  /** The private `Add(LogContent)`: append to the log, then notify every observer. */
  function Append(logger: Logger, content: LogContent): (r: Logger)
    ensures r.log == logger.log + [content]
    ensures r.notifications == logger.notifications + Notify(logger.observers, content)
    ensures r.logLevel == logger.logLevel && r.observers == logger.observers
  {
    logger.(log := logger.log + [content],
            notifications := logger.notifications + Notify(logger.observers, content))
  }

  function MessageOf(severity: LogLevel, message: string, capture: Capture): LogContent {
    LogMessage(capture.dateTime, severity, message, capture.thread)
  }

  /** The shape shared by `Debug`, `Info`, `Warn` and `Error(message)`: a null
      message is rejected first; otherwise the message is appended iff the
      threshold lets its severity through. */
  function LogAt(logger: Logger, severity: LogLevel, message: Option<string>, capture: Capture)
    : (r: Result<Logger, LoggerFault>)
    ensures r.Failure? <==> message.None?
    ensures r.Failure? ==> r.error == ArgumentNull("message")
    ensures r.Success? && Permits(logger.logLevel, severity) ==>
              r.value.log == logger.log + [MessageOf(severity, message.value, capture)]
              && r.value.notifications
                 == logger.notifications + Notify(logger.observers, MessageOf(severity, message.value, capture))
              && r.value.observers == logger.observers && r.value.logLevel == logger.logLevel
    ensures r.Success? && !Permits(logger.logLevel, severity) ==> r.value == logger
  {
    match message
    case None => Failure(ArgumentNull("message"))
    case Some(text) =>
      if Permits(logger.logLevel, severity) then Success(Append(logger, MessageOf(severity, text, capture)))
      else Success(logger)
  }

  function LogDebug(logger: Logger, message: Option<string>, capture: Capture): Result<Logger, LoggerFault> {
    LogAt(logger, Debug, message, capture)
  }

  function LogInfo(logger: Logger, message: Option<string>, capture: Capture): Result<Logger, LoggerFault> {
    LogAt(logger, Info, message, capture)
  }

  function LogWarn(logger: Logger, message: Option<string>, capture: Capture): Result<Logger, LoggerFault> {
    LogAt(logger, Warning, message, capture)
  }

  function LogError(logger: Logger, message: Option<string>, capture: Capture): Result<Logger, LoggerFault> {
    LogAt(logger, Error, message, capture)
  }

  /** `Error(message, exception)`: both arguments are checked for null (the
      message first); if errors are let through, the message and then a text
      entry with the exception details are appended. */
  function LogErrorWithException(logger: Logger, message: Option<string>, exception: Option<ExceptionInfo>, capture: Capture)
    : (r: Result<Logger, LoggerFault>)
    ensures message.None? ==> r == Failure(ArgumentNull("message"))
    ensures message.Some? && exception.None? ==> r == Failure(ArgumentNull("exception"))
    ensures r.Success? <==> message.Some? && exception.Some?
    ensures r.Success? && Permits(logger.logLevel, Error) ==>
              r.value.log == logger.log + [MessageOf(Error, message.value, capture), LogText(exception.value.details)]
              && r.value.notifications
                 == logger.notifications + Notify(logger.observers, MessageOf(Error, message.value, capture))
                    + Notify(logger.observers, LogText(exception.value.details))
              && r.value.observers == logger.observers
    ensures r.Success? && !Permits(logger.logLevel, Error) ==> r.value == logger
  {
    if message.None? then Failure(ArgumentNull("message"))
    else if exception.None? then Failure(ArgumentNull("exception"))
    else if Permits(logger.logLevel, Error) then
      Success(Append(Append(logger, MessageOf(Error, message.value, capture)), LogText(exception.value.details)))
    else Success(logger)
  }

  /** `Log(text)`: free text is appended whatever the threshold. */
  function LogTextLine(logger: Logger, text: Option<string>): (r: Result<Logger, LoggerFault>)
    ensures r.Failure? <==> text.None?
    ensures r.Failure? ==> r.error == ArgumentNull("text")
    ensures r.Success? ==> r.value.log == logger.log + [LogText(text.value)] && r.value.observers == logger.observers
    ensures r.Success? ==> r.value.notifications == logger.notifications + Notify(logger.observers, LogText(text.value))
  {
    match text
    case None => Failure(ArgumentNull("text"))
    case Some(t) => Success(Append(logger, LogText(t)))
  }

  /** `GetLog`: copies of the entries, in the order they were added. */
  function GetLog(logger: Logger): (r: seq<LogContent>)
    ensures r == logger.log
  {
    seq(|logger.log|, k requires 0 <= k < |logger.log| => CloneContent(logger.log[k]))
  }

  /** `Subscribe`: a null observer is rejected; a known one is not added twice. */
  function Subscribe(logger: Logger, observer: Option<Observer>): (r: Result<Logger, LoggerFault>)
    ensures r.Failure? <==> observer.None?
    ensures r.Failure? ==> r.error == ArgumentNull("observer")
    ensures r.Success? ==> observer.value in r.value.observers
    ensures r.Success? ==> r.value.log == logger.log && r.value.notifications == logger.notifications
    ensures r.Success? && observer.value !in logger.observers ==> r.value.observers == logger.observers + [observer.value]
    ensures r.Success? && observer.value in logger.observers ==> r.value == logger
    ensures r.Success? && NoDuplicates(logger.observers) ==> NoDuplicates(r.value.observers)
  {
    match observer
    case None => Failure(ArgumentNull("observer"))
    case Some(o) =>
      if o in logger.observers then Success(logger) else Success(logger.(observers := logger.observers + [o]))
  }

  /** Where `x` first occurs in `s`. */
  function FirstIndex(s: seq<Observer>, x: Observer): (i: nat)
    requires x in s
    ensures i < |s| && s[i] == x
    ensures forall j :: 0 <= j < i ==> s[j] != x
  {
    if s[0] == x then 0 else FirstIndex(s[1..], x) + 1
  }

  /** `List.Remove`: drops the first occurrence, if any; the others keep their order. */
  function RemoveFirst(s: seq<Observer>, x: Observer): (r: seq<Observer>)
    ensures x !in s ==> r == s
    ensures x in s ==> r == s[..FirstIndex(s, x)] + s[FirstIndex(s, x) + 1..]
    ensures x in s ==> |r| == |s| - 1
    ensures multiset(r) == multiset(s) - multiset{x}
  {
    if s == [] then []
    else if s[0] == x then
      RemovedAtHead(s);
      s[1..]
    else
      var rest := RemoveFirst(s[1..], x);
      RemovedBehindHead(s, x, rest);
      [s[0]] + rest
  }

  lemma RemovedAtHead(s: seq<Observer>)
    requires s != []
    ensures s[1..] == s[..FirstIndex(s, s[0])] + s[FirstIndex(s, s[0]) + 1..]
    ensures multiset(s[1..]) == multiset(s) - multiset{s[0]}
  {
    assert s == [s[0]] + s[1..];
    assert s[..0] + s[1..] == s[1..];
  }

  lemma RemovedBehindHead(s: seq<Observer>, x: Observer, rest: seq<Observer>)
    requires s != [] && s[0] != x
    requires x !in s[1..] ==> rest == s[1..]
    requires x in s[1..] ==> rest == s[1..][..FirstIndex(s[1..], x)] + s[1..][FirstIndex(s[1..], x) + 1..]
    requires multiset(rest) == multiset(s[1..]) - multiset{x}
    ensures x !in s ==> [s[0]] + rest == s
    ensures x in s ==> [s[0]] + rest == s[..FirstIndex(s, x)] + s[FirstIndex(s, x) + 1..]
    ensures multiset([s[0]] + rest) == multiset(s) - multiset{x}
  {
    assert s == [s[0]] + s[1..];
    MultisetBehindHead(s[0], s[1..], x, rest);
    if x in s[1..] {
      SplitBehindHead(s, FirstIndex(s[1..], x));
    }
  }

  lemma MultisetBehindHead(head: Observer, tail: seq<Observer>, x: Observer, rest: seq<Observer>)
    requires head != x && multiset(rest) == multiset(tail) - multiset{x}
    ensures multiset([head] + rest) == multiset([head] + tail) - multiset{x}
  {
    assert multiset([head] + rest) == multiset{head} + multiset(rest);
    assert multiset([head] + tail) == multiset{head} + multiset(tail);
  }

  /** Cutting the tail of `s` around position `i` is cutting `s` around `i + 1`. */
  lemma SplitBehindHead(s: seq<Observer>, i: nat)
    requires i + 1 < |s|
    requires s[0] != s[i + 1]
    requires forall j :: 0 <= j < i ==> s[1..][j] != s[i + 1]
    ensures FirstIndex(s, s[i + 1]) == i + 1
    ensures [s[0]] + (s[1..][..i] + s[1..][i + 1..]) == s[..i + 1] + s[i + 2..]
  {
    var x := s[i + 1];
    assert s[1..][i] == x;
    assert FirstIndex(s[1..], x) == i;
  }

  /** Without duplicates, removing the first occurrence removes the element
      altogether and keeps the list free of duplicates. */
  lemma RemoveFirstWithoutDuplicates(s: seq<Observer>, x: Observer)
    requires NoDuplicates(s)
    ensures NoDuplicates(RemoveFirst(s, x))
    ensures forall o :: o in RemoveFirst(s, x) <==> o in s && o != x
  {
    if x in s {
      CutKeepsDistinct(s, FirstIndex(s, x), RemoveFirst(s, x));
    }
  }

  /** Cutting one position out of a list without duplicates leaves a list
      without duplicates holding every other element. */
  lemma CutKeepsDistinct(s: seq<Observer>, i: nat, r: seq<Observer>)
    requires NoDuplicates(s)
    requires i < |s| && r == s[..i] + s[i + 1..]
    ensures NoDuplicates(r)
    ensures forall o :: o in r <==> o in s && o != s[i]
  {
    CutPointwise(s, i, r);
    forall a, b | 0 <= a < b < |r| ensures r[a] != r[b] {
      var a', b' := if a < i then a else a + 1, if b < i then b else b + 1;
      assert r[a] == s[a'] && r[b] == s[b'];
    }
    forall o | o in r ensures o in s && o != s[i] {
      var m :| 0 <= m < |r| && r[m] == o;
      var m' := if m < i then m else m + 1;
      assert s[m'] == o && m' != i;
    }
    forall o | o in s && o != s[i] ensures o in r {
      var m :| 0 <= m < |s| && s[m] == o;
      if m < i {
        assert r[m] == o;
      } else {
        assert r[m - 1] == o;
      }
    }
  }

  /** The positions of a list with position `i` cut out. */
  lemma CutPointwise(s: seq<Observer>, i: nat, r: seq<Observer>)
    requires i < |s| && r == s[..i] + s[i + 1..]
    ensures |r| == |s| - 1
    ensures forall a :: 0 <= a < i ==> r[a] == s[a]
    ensures forall a :: i <= a < |r| ==> r[a] == s[a + 1]
  {
  }

  /** `Unsubscribe`: the observer is removed; an unknown (or null) one is ignored. */
  function Unsubscribe(logger: Logger, observer: Option<Observer>): (r: Logger)
    ensures r.log == logger.log && r.notifications == logger.notifications && r.logLevel == logger.logLevel
    ensures observer.None? || observer.value !in logger.observers ==> r == logger
    ensures observer.Some? ==> r.observers == RemoveFirst(logger.observers, observer.value)
    ensures NoDuplicates(logger.observers) ==> NoDuplicates(r.observers)
    ensures NoDuplicates(logger.observers) ==>
              forall o :: o in r.observers <==> o in logger.observers && Some(o) != observer
  {
    match observer
    case None => logger
    case Some(o) =>
      if NoDuplicates(logger.observers) then
        RemoveFirstWithoutDuplicates(logger.observers, o);
        logger.(observers := RemoveFirst(logger.observers, o))
      else logger.(observers := RemoveFirst(logger.observers, o))
  }
}
