/** Values shared by the Kafka logger model: log levels and messages, the records handed
    to the Kafka producer, console fallback lines, and the events the logger emits. */
module LoggerTypes {

  datatype Option<+T> = None | Some(value: T)

  /** The four levels a log message may carry. */
  datatype Level = Info | Warn | Error | Debug

  /** The level's tag as it appears in a message and as the Kafka record key. */
  function LevelName(level: Level): string
  {
    match level
    case Info => "info"
    case Warn => "warn"
    case Error => "error"
    case Debug => "debug"
  }

  /** Free-form metadata attached to a message; its values are kept opaque. */
  type Metadata = map<string, string>

  /** A log message; `timestamp` is the ISO-8601 text produced by the caller's clock. */
  datatype LogMessage = LogMessage(level: Level, message: string, timestamp: string, metadata: Option<Metadata>)

  /** One message handed to `producer.send`: topic, key and value. The value is the message
      itself; its JSON serialisation is not part of this model. */
  datatype KafkaRecord = KafkaRecord(topic: string, key: string, value: LogMessage)

  /** A console fallback line: the bracketed upper-case level, the text and the metadata
      (an absent metadata object is printed as the empty string). */
  datatype ConsoleLine = ConsoleLine(tag: string, message: string, metadata: Option<Metadata>)

  /** How far one connection attempt's try block gets before it throws, if it throws. */
  datatype AttemptResult =
    | ClientFailed    // constructing the Kafka client threw
    | ProducerFailed  // the client was stored, then creating its producer threw
    | ConnectFailed   // the producer was stored, then its connect() rejected
    | Connected       // the producer connected

  /** Does an attempt with this result store a new Kafka client? Every attempt but one whose
      client constructor threw does, a connected one included. */
  predicate StoresClient(result: AttemptResult): (r: bool)
    ensures result == Connected ==> r
  {
    result != ClientFailed
  }

  /** Does an attempt with this result store a new producer? Only one that stored a client
      first, and always a connected one. */
  predicate StoresProducer(result: AttemptResult): (r: bool)
    ensures r ==> StoresClient(result)
    ensures result == Connected ==> r
  {
    result == ConnectFailed || result == Connected
  }

  /** What the logger reports or does, in the order it does it. */
  datatype Event =
    | Attempt(number: nat, result: AttemptResult)      // attempt `number` ended with `result`
    | Delay(ms: int)                                   // a wait of `ms` between two attempts
    | GaveUp                                           // every attempt failed; carry on without Kafka
    | Disconnected                                     // the producer disconnected
    | SendCall(record: KafkaRecord, delivered: bool)   // one call of producer.send and whether it resolved
    | Fallback(line: ConsoleLine)                      // a message written to the console instead

  /** Concatenation of sequences is associative. */
  lemma AppendAssoc<T>(a: seq<T>, b: seq<T>, c: seq<T>)
    ensures (a + b) + c == a + (b + c)
  {
  }

  /** The sink a log call ended up in. */
  datatype Sink = Kafka | Console

  /** The settlement of an awaited call that the logger does not catch. */
  datatype Completion = Resolved | Rejected
}
