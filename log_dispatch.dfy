/** Specification of `LoggerService.sendLog` (src/services/logger.ts:59-81): each log call goes
    to Kafka when a producer exists and the logger is connected, and to the console otherwise;
    a failed send also falls back to the console, so no error leaves sendLog. */
module LogDispatch {
  import opened LoggerTypes

  /** ASCII upper case of one character. This agrees with JavaScript's toUpperCase on the
      level names, which are all the text it is applied to here. */
  function UpperChar(c: char): char
  {
    if 'a' <= c <= 'z' then (c as int - 32) as char else c
  }

  /** ASCII upper case of a string, character by character; on the four level names it agrees
      with toUpperCase, which could otherwise change a string's length. */
  function ToUpper(s: string): (u: string)
    ensures |u| == |s| && forall i :: 0 <= i < |s| ==> u[i] == UpperChar(s[i])
  {
    if s == [] then [] else [UpperChar(s[0])] + ToUpper(s[1..])
  }

  /** The console line printed for a message that does not reach Kafka. */
  function FallbackLine(msg: LogMessage): (line: ConsoleLine)
    ensures line.message == msg.message && line.metadata == msg.metadata
    ensures |line.tag| == |LevelName(msg.level)| + 2
    ensures line.tag[0] == '[' && line.tag[|line.tag| - 1] == ']'
  {
    ConsoleLine("[" + ToUpper(LevelName(msg.level)) + "]", msg.message, msg.metadata)
  }

  /** The single record that sendLog hands to the producer: on the log topic, keyed by level. */
  function RecordFor(topic: string, msg: LogMessage): (r: KafkaRecord)
    ensures r.topic == topic && r.value == msg
    ensures r.key == LevelName(r.value.level)
  {
    KafkaRecord(topic, LevelName(msg.level), msg)
  }

  /** Is this event a message reaching a sink: a send that resolved, or a console line? */
  predicate Delivers(e: Event)
  {
    (e.SendCall? && e.delivered) || e.Fallback?
  }

  /** How many events of a sequence deliver a message. */
  function CountDelivered(es: seq<Event>): nat
  {
    if es == [] then 0 else (if Delivers(es[0]) then 1 else 0) + CountDelivered(es[1..])
  }

  /** The events of one sendLog call, given the logger's state and whether producer.send
      resolves: producer.send is called exactly when a producer exists and the logger is
      connected, once, with the message's own record and before anything else; the console line
      appears exactly when the message does not reach Kafka; and the message is delivered
      exactly once. */
  function SendEvents(topic: string, msg: LogMessage, producerPresent: bool, isConnected: bool, sendSucceeds: bool): (es: seq<Event>)
    ensures (exists e <- es :: e.SendCall?) <==> producerPresent && isConnected
    ensures forall e <- es :: e.SendCall? ==> e.record == RecordFor(topic, msg) && e.delivered == sendSucceeds
    ensures Fallback(FallbackLine(msg)) in es <==> !(producerPresent && isConnected && sendSucceeds)
    ensures forall e <- es :: e.SendCall? || e == Fallback(FallbackLine(msg))
    ensures CountDelivered(es) == 1
    ensures |es| == (if producerPresent && isConnected && !sendSucceeds then 2 else 1)
    ensures producerPresent && isConnected ==> es[0] == SendCall(RecordFor(topic, msg), sendSucceeds)
  {
    if !producerPresent || !isConnected then [Fallback(FallbackLine(msg))]
    else
      var call := SendCall(RecordFor(topic, msg), sendSucceeds);
      var es := if sendSucceeds then [call] else [call, Fallback(FallbackLine(msg))];
      assert es[0] == call && es[1..] == (if sendSucceeds then [] else [Fallback(FallbackLine(msg))]);
      assert !sendSucceeds ==> es[1..][1..] == [] && CountDelivered(es[1..]) == 1;
      es
  }

  /** The console tag of each level is its name in upper case between brackets. */
  lemma FallbackTags(msg: LogMessage)
    ensures FallbackLine(msg).tag ==
      match msg.level
      case Info => "[INFO]"
      case Warn => "[WARN]"
      case Error => "[ERROR]"
      case Debug => "[DEBUG]"
  {
    var name := LevelName(msg.level);
    var upper := ToUpper(name);
    match msg.level
    case Info => assert upper == "INFO";
    case Warn => assert upper == "WARN";
    case Error => assert upper == "ERROR";
    case Debug => assert upper == "DEBUG";
  }
}
