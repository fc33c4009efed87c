/** The `LoggerService` class of src/services/logger.ts: a Kafka producer that the logger
    connects with bounded retries, and log calls that go to Kafka when it is connected and to
    the console otherwise. Calls into Kafka and the console are not executed: whether each
    awaited Kafka call resolves is an input (`outcome`, `sendSucceeds`, `disconnectSucceeds`),
    and what the logger reports or does is appended to `log`. */
module LoggerService {
  import opened LoggerTypes
  import opened ConnectLoop
  import opened LogDispatch

  /** connect's default retry count and delay (src/services/logger.ts:16). */
  const DefaultRetries: int := 5
  const DefaultDelayMs: int := 2000

  /** The log topic used when the environment names none (src/config/index.ts:37). */
  const DefaultLogTopic: string := "server-logs"

  class Logger {
    /** The configured Kafka log topic. */
    const logTopic: string
    /** Is the `kafka` field set? */
    var kafkaPresent: bool
    /** Is the `producer` field set? */
    var producerPresent: bool
    var isConnected: bool
    /** Everything the logger has reported or done, oldest first. */
    var log: seq<Event>

    /** The fields are only ever set in the order kafka, producer, isConnected, and only
        isConnected is ever cleared. */
    ghost predicate Valid()
      reads this
    {
      (isConnected ==> producerPresent) && (producerPresent ==> kafkaPresent)
    }

    constructor (logTopic: string)
      ensures Valid() && this.logTopic == logTopic
      ensures !kafkaPresent && !producerPresent && !isConnected && log == []
    {
      this.logTopic := logTopic;
      kafkaPresent, producerPresent, isConnected := false, false, false;
      log := [];
    }

    /** Attempts 1..retries, in order, until one connects; after each failed attempt but the
        last, waits delayMs; when all fail, reports it and returns normally. Each attempt stores
        a new client and a new producer as far as it gets, so a failed attempt can leave a
        producer that is not connected. */
    method Connect(retries: int, delayMs: int, outcome: nat -> AttemptResult)
      requires Valid()
      modifies this
      ensures Valid()
      ensures log == old(log) + ConnectTrace(retries, delayMs, outcome)
      ensures isConnected == (old(isConnected) || Succeeds(retries, outcome))
      ensures kafkaPresent == (old(kafkaPresent) || SomeAttempt(AttemptCount(retries, outcome), outcome, StoresClient))
      ensures producerPresent == (old(producerPresent) || SomeAttempt(AttemptCount(retries, outcome), outcome, StoresProducer))
    {
      ghost var target := old(log) + ConnectTrace(retries, delayMs, outcome);
      var attempt: nat := 1;
      while attempt <= retries
        invariant 1 <= attempt && (attempt == 1 || attempt <= retries)
        invariant FirstSuccess(retries, outcome) == FirstSuccessFrom(attempt, retries, outcome)
        invariant log + TraceFrom(attempt, retries, delayMs, outcome) == target
        invariant isConnected == old(isConnected)
        invariant kafkaPresent == (old(kafkaPresent) || SomeAttempt(attempt - 1, outcome, StoresClient))
        invariant producerPresent == (old(producerPresent) || SomeAttempt(attempt - 1, outcome, StoresProducer))
        invariant Valid()
        decreases retries - attempt
      {
        var result := outcome(attempt);
        // the client, then the producer, are stored as far as the attempt gets
        if StoresClient(result) {
          kafkaPresent := true;
        }
        if StoresProducer(result) {
          producerPresent := true;
        }
        if result == Connected {
          isConnected := true;
          log := log + [Attempt(attempt, Connected)];
          return;
        }
        if attempt == retries {
          log := log + [Attempt(attempt, result), GaveUp];
          return;
        }
        ghost var before := log;
        log := log + [Attempt(attempt, result), Delay(delayMs)];
        AppendAssoc(before, [Attempt(attempt, result), Delay(delayMs)], TraceFrom(attempt + 1, retries, delayMs, outcome));
        attempt := attempt + 1;
      }
    }

    /** connect called without arguments, as the server's startup does. */
    method ConnectWithDefaults(outcome: nat -> AttemptResult)
      requires Valid()
      modifies this
      ensures Valid()
      ensures log == old(log) + ConnectTrace(DefaultRetries, DefaultDelayMs, outcome)
      ensures isConnected == (old(isConnected) || Succeeds(DefaultRetries, outcome))
      ensures kafkaPresent == (old(kafkaPresent) || SomeAttempt(AttemptCount(DefaultRetries, outcome), outcome, StoresClient))
      ensures producerPresent == (old(producerPresent) || SomeAttempt(AttemptCount(DefaultRetries, outcome), outcome, StoresProducer))
    {
      Connect(DefaultRetries, DefaultDelayMs, outcome);
    }

    /** With a producer, disconnects it and clears isConnected, or passes on its rejection and
        changes nothing; without a producer, changes nothing. The producer field is kept. */
    method Disconnect(disconnectSucceeds: bool) returns (c: Completion)
      requires Valid()
      modifies this`isConnected, this`log
      ensures Valid()
      ensures c == (if producerPresent && !disconnectSucceeds then Rejected else Resolved)
      ensures isConnected == (old(isConnected) && !(producerPresent && disconnectSucceeds))
      ensures log == old(log) + (if producerPresent && disconnectSucceeds then [Disconnected] else [])
    {
      if producerPresent {
        if !disconnectSucceeds {
          return Rejected;
        }
        isConnected := false;
        log := log + [Disconnected];
      }
      c := Resolved;
    }

    /** Sends one message to the log topic when a producer exists and the logger is connected,
        falling back to the console when it is not or when the send fails. Under the class
        invariant the sink is Kafka exactly when the connection status is true and the send
        resolves. */
    method SendLog(msg: LogMessage, sendSucceeds: bool) returns (sink: Sink)
      modifies this`log
      ensures log == old(log) + SendEvents(logTopic, msg, producerPresent, isConnected, sendSucceeds)
      ensures sink == (if producerPresent && isConnected && sendSucceeds then Kafka else Console)
      ensures Valid() ==> (sink == Kafka <==> isConnected && sendSucceeds)
    {
      if !producerPresent || !isConnected {
        log := log + [Fallback(FallbackLine(msg))];
        return Console;
      }
      var record := RecordFor(logTopic, msg);
      if sendSucceeds {
        log := log + [SendCall(record, true)];
        sink := Kafka;
      } else {
        log := log + [SendCall(record, false), Fallback(FallbackLine(msg))];
        sink := Console;
      }
    }

    method Info(message: string, metadata: Option<Metadata>, timestamp: string, sendSucceeds: bool) returns (sink: Sink)
      modifies this`log
      ensures log == old(log) +
        SendEvents(logTopic, LogMessage(Level.Info, message, timestamp, metadata), producerPresent, isConnected, sendSucceeds)
      ensures sink == (if producerPresent && isConnected && sendSucceeds then Kafka else Console)
    {
      sink := SendLog(LogMessage(Level.Info, message, timestamp, metadata), sendSucceeds);
    }

    method Warn(message: string, metadata: Option<Metadata>, timestamp: string, sendSucceeds: bool) returns (sink: Sink)
      modifies this`log
      ensures log == old(log) +
        SendEvents(logTopic, LogMessage(Level.Warn, message, timestamp, metadata), producerPresent, isConnected, sendSucceeds)
      ensures sink == (if producerPresent && isConnected && sendSucceeds then Kafka else Console)
    {
      sink := SendLog(LogMessage(Level.Warn, message, timestamp, metadata), sendSucceeds);
    }

    method Error(message: string, metadata: Option<Metadata>, timestamp: string, sendSucceeds: bool) returns (sink: Sink)
      modifies this`log
      ensures log == old(log) +
        SendEvents(logTopic, LogMessage(Level.Error, message, timestamp, metadata), producerPresent, isConnected, sendSucceeds)
      ensures sink == (if producerPresent && isConnected && sendSucceeds then Kafka else Console)
    {
      sink := SendLog(LogMessage(Level.Error, message, timestamp, metadata), sendSucceeds);
    }

    method Debug(message: string, metadata: Option<Metadata>, timestamp: string, sendSucceeds: bool) returns (sink: Sink)
      modifies this`log
      ensures log == old(log) +
        SendEvents(logTopic, LogMessage(Level.Debug, message, timestamp, metadata), producerPresent, isConnected, sendSucceeds)
      ensures sink == (if producerPresent && isConnected && sendSucceeds then Kafka else Console)
    {
      sink := SendLog(LogMessage(Level.Debug, message, timestamp, metadata), sendSucceeds);
    }

    method GetConnectionStatus() returns (connected: bool)
      ensures connected == isConnected
    {
      connected := isConnected;
    }
  }
}
