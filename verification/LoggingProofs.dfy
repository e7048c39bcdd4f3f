/** Properties of the logger as a state machine: every call keeps the observer
    list free of duplicates and only ever appends to the log and to the
    notifications; every subscribed observer receives each new entry once. */
module LoggingProofs {
  import opened Wrappers
  import opened Logging

  /** The contents one observer has been notified of, in order. */
  function Received(notifications: seq<Notification>, observer: Observer): seq<LogContent> {
    if notifications == [] then []
    else (if notifications[0].observer == observer then [notifications[0].content] else [])
         + Received(notifications[1..], observer)
  }

  lemma {:induction false} ReceivedAppend(a: seq<Notification>, b: seq<Notification>, observer: Observer)
    ensures Received(a + b, observer) == Received(a, observer) + Received(b, observer)
    decreases |a|
  {
    if a == [] {
      assert a + b == b;
    } else {
      var head := if a[0].observer == observer then [a[0].content] else [];
      assert (a + b)[0] == a[0] && (a + b)[1..] == a[1..] + b;
      assert Received(a + b, observer) == head + Received(a[1..] + b, observer);
      ReceivedAppend(a[1..], b, observer);
      assert Received(a, observer) == head + Received(a[1..], observer);
    }
  }

  lemma {:induction false} ReceivedFromNotify(observers: seq<Observer>, content: LogContent, observer: Observer)
    requires NoDuplicates(observers)
    ensures Received(Notify(observers, content), observer) == if observer in observers then [content] else []
    decreases |observers|
  {
    if observers != [] {
      var tail := observers[1..];
      assert NoDuplicates(tail) by {
        forall i, j | 0 <= i < j < |tail| ensures tail[i] != tail[j] {
          assert tail[i] == observers[i + 1] && tail[j] == observers[j + 1];
        }
      }
      assert observers[0] !in tail by {
        forall j | 0 <= j < |tail| ensures tail[j] != observers[0] {
          assert tail[j] == observers[j + 1];
        }
      }
      assert observers == [observers[0]] + tail;
      ReceivedFromNotify(tail, content, observer);
      assert Notify(observers, content)[1..] == Notify(tail, content);
    }
  }

  /** Appending an entry notifies each subscribed observer of it exactly once
      and nobody else. */
  lemma DeliveredToEachSubscriber(logger: Logger, content: LogContent, observer: Observer)
    requires NoDuplicates(logger.observers)
    ensures Received(Append(logger, content).notifications, observer)
            == Received(logger.notifications, observer) + (if observer in logger.observers then [content] else [])
  {
    ReceivedAppend(logger.notifications, Notify(logger.observers, content), observer);
    ReceivedFromNotify(logger.observers, content, observer);
  }

  // ------------------------------------------------- the logger as a machine

  /** The public operations of the logger that log or change the subscribers.
      The `LogLevel` setter is not among them, so along a sequence of calls the
      threshold stays what the logger was created with. */
  datatype Call =
    | DebugCall(message: Option<string>)
    | InfoCall(message: Option<string>)
    | WarnCall(message: Option<string>)
    | ErrorCall(message: Option<string>)
    | ErrorWithExceptionCall(message: Option<string>, exception: Option<ExceptionInfo>)
    | LogCall(text: Option<string>)
    | SubscribeCall(observer: Option<Observer>)
    | UnsubscribeCall(observer: Option<Observer>)

  function Apply(logger: Logger, call: Call, capture: Capture): Result<Logger, LoggerFault> {
    match call
    case DebugCall(m) => LogDebug(logger, m, capture)
    case InfoCall(m) => LogInfo(logger, m, capture)
    case WarnCall(m) => LogWarn(logger, m, capture)
    case ErrorCall(m) => LogError(logger, m, capture)
    case ErrorWithExceptionCall(m, e) => LogErrorWithException(logger, m, e, capture)
    case LogCall(t) => LogTextLine(logger, t)
    case SubscribeCall(o) => Subscribe(logger, o)
    case UnsubscribeCall(o) => Success(Unsubscribe(logger, o))
  }

  /** Every call keeps the observers free of duplicates and only appends to the
      log and to the notifications. */
  lemma CallsPreserveInvariant(logger: Logger, call: Call, capture: Capture)
    requires NoDuplicates(logger.observers)
    ensures var r := Apply(logger, call, capture);
            r.Success? ==>
              && NoDuplicates(r.value.observers)
              && logger.log <= r.value.log
              && logger.notifications <= r.value.notifications
              && r.value.logLevel == logger.logLevel
  {
  }

  /** A leveled call appends one entry exactly when the threshold lets its
      severity through, for every threshold and severity. */
  lemma LeveledCallAppendsIffPermitted(logger: Logger, severity: LogLevel, message: string, capture: Capture)
    ensures var r := LogAt(logger, severity, Some(message), capture);
            r.Success? && (|r.value.log| == |logger.log| + 1 <==> Rank(logger.logLevel) <= Rank(severity))
  {
  }

  /** Subscribing twice is the same as subscribing once. */
  lemma SubscribeIsIdempotent(logger: Logger, observer: Observer)
    ensures Subscribe(logger, Some(observer)).Success?
    ensures Subscribe(Subscribe(logger, Some(observer)).value, Some(observer)) == Subscribe(logger, Some(observer))
  {
  }

  /** `GetLog` after a series of `Log(text)` calls holds the earlier entries
      followed by the texts, in the order they were logged. */
  method LogAll(logger: Logger, texts: seq<string>) returns (r: Logger)
    ensures GetLog(r) == GetLog(logger) + seq(|texts|, k requires 0 <= k < |texts| => LogText(texts[k]))
    ensures r.observers == logger.observers
  {
    r := logger;
    var i := 0;
    while i < |texts|
      invariant 0 <= i <= |texts|
      invariant r.log == logger.log + seq(i, k requires 0 <= k < i => LogText(texts[k]))
      invariant r.observers == logger.observers
    {
      var step := LogTextLine(r, Some(texts[i]));
      r := step.value;
      i := i + 1;
    }
  }
}
