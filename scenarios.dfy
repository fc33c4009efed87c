/** Uses of the logger as the server makes them, and retry scenarios of the connect loop,
    checked against the logger's contracts alone. */
module Scenarios {
  import opened LoggerTypes
  import opened ConnectLoop
  import opened LogDispatch
  import opened LoggerService

  const Now: string := "2025-01-27T00:00:00.000Z"

  /** Three attempts 100 ms apart; the broker refuses twice, then accepts: three attempts, two
      delays, connected, and the next info call reaches Kafka. */
  method RetryThenConnect() returns (attempts: nat, delays: nat, connected: bool, sink: Sink)
    ensures attempts == 3 && delays == 2 && connected && sink == Kafka
  {
    var logger := new Logger(DefaultLogTopic);
    var outcome := (k: nat) => if k < 3 then ConnectFailed else Connected;
    logger.Connect(3, 100, outcome);
    assert logger.log == ConnectTrace(3, 100, outcome);
    SuccessAt(3, 3, 100, outcome);
    attempts := |AttemptNumbers(logger.log)|;
    delays := CountDelays(logger.log);
    connected := logger.GetConnectionStatus();
    sink := logger.Info("Server started successfully", None, Now, true);
  }

  /** connect() with its defaults while the broker refuses every time: five attempts, four
      delays of 2000 ms, no connection, and no error. The last attempt leaves its producer
      behind unconnected, so a warn call goes to the console and producer.send is not called. */
  method ExhaustDefaults() returns (attempts: nat, delays: nat, connected: bool, producerLeft: bool,
                                    sink: Sink, sendCalled: bool)
    ensures attempts == 5 && delays == 4 && !connected && producerLeft
    ensures sink == Console && !sendCalled
  {
    var logger := new Logger(DefaultLogTopic);
    var outcome := (k: nat) => ConnectFailed;
    logger.ConnectWithDefaults(outcome);
    assert logger.log == ConnectTrace(DefaultRetries, DefaultDelayMs, outcome);
    AllFail(DefaultRetries, DefaultDelayMs, outcome);
    attempts := |AttemptNumbers(logger.log)|;
    delays := CountDelays(logger.log);
    connected := logger.GetConnectionStatus();
    producerLeft := logger.producerPresent;
    var before := |logger.log|;
    sink := logger.Warn("Cache miss", None, Now, true);
    sendCalled := exists e <- logger.log[before..] :: e.SendCall?;
  }

  /** With zero retries nothing is attempted, not even against a broker that would accept. */
  method NoRetries() returns (events: seq<Event>, connected: bool)
    ensures events == [] && !connected
  {
    var logger := new Logger(DefaultLogTopic);
    logger.Connect(0, 100, (k: nat) => Connected);
    events := logger.log;
    connected := logger.GetConnectionStatus();
  }

  /** A second connect after an exhausted one starts afresh from attempt 1. */
  method ConnectAgain() returns (secondAttempts: seq<nat>, connected: bool)
    ensures secondAttempts == [1] && connected
  {
    var logger := new Logger(DefaultLogTopic);
    var refuse := (k: nat) => ConnectFailed;
    logger.Connect(2, 100, refuse);
    var before := |logger.log|;
    var accept := (k: nat) => Connected;
    logger.Connect(2, 100, accept);
    AttemptNumbersFrom(1, 2, 100, accept);
    assert logger.log[before..] == ConnectTrace(2, 100, accept);
    secondAttempts := AttemptNumbers(logger.log[before..]);
    connected := logger.GetConnectionStatus();
  }

  /** Shutdown: the producer disconnects, the status turns false, and a later error call goes
      to the console under the tag [ERROR]. */
  method ShutdownThenLog() returns (c: Completion, connected: bool, sink: Sink, events: seq<Event>)
    ensures c == Resolved && !connected && sink == Console
    ensures events == [Fallback(ConsoleLine("[ERROR]", "Server startup failed", None))]
  {
    var logger := new Logger(DefaultLogTopic);
    logger.Connect(1, 100, (k: nat) => Connected);
    c := logger.Disconnect(true);
    connected := logger.GetConnectionStatus();
    var before := |logger.log|;
    sink := logger.Error("Server startup failed", None, Now, true);
    events := logger.log[before..];
    FallbackTags(LogMessage(Level.Error, "Server startup failed", Now, None));
  }

  /** When no attempt got as far as creating a producer, disconnect does nothing: it resolves,
      even if a producer's disconnect would have failed, and reports nothing. */
  method DisconnectWithoutProducer() returns (c: Completion, events: seq<Event>)
    ensures c == Resolved && events == []
  {
    var logger := new Logger(DefaultLogTopic);
    logger.Connect(2, 100, (k: nat) => ClientFailed);
    var before := |logger.log|;
    c := logger.Disconnect(false);
    events := logger.log[before..];
  }
}
