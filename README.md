# Kafka logger connection model

This project models the Kafka logger of a small Express service (`LoggerService` in
`src/services/logger.ts`) and proves properties of it in Dafny. The rest of the service
(routes, the MongoDB and Redis wrappers, configuration, scripts) hands its work to libraries
and is not modelled.

The logger holds three fields: the Kafka client (`kafka`), its producer (`producer`) and a flag
`isConnected`.

- `connect(retries = 5, delayMs = 2000)` makes attempts numbered 1..retries, one after another.
  Each attempt stores a new client and a new producer, then awaits `producer.connect()`.
  - The first attempt that connects sets `isConnected` and ends the call.
  - After every failed attempt except the last, the call waits `delayMs`.
  - When the last attempt fails, the call reports it and returns normally, and the service
    carries on without Kafka.
- `sendLog` sends a message to the log topic, keyed by its level, when a producer exists and the
  logger is connected. Otherwise, or when the send fails, it prints the message to the console.
- `disconnect` disconnects an existing producer and clears `isConnected`.
- `getConnectionStatus` reads `isConnected`.
- `info`, `warn`, `error` and `debug` build a message with their own level and pass it to `sendLog`.

How the model represents this:

- Whether each awaited Kafka call resolves is an input to the model.
  - For `connect` it is an oracle `outcome(k)` per attempt. It says how far attempt k's try
    block gets: the client constructor throws, the producer factory throws, `producer.connect()`
    rejects, or the producer connects.
  - For `sendLog` and `disconnect` it is a boolean.
- Everything the logger reports or does is appended to a `log` of events:
  - attempt reports,
  - delays,
  - the give-up report,
  - disconnections,
  - calls of `producer.send`,
  - console fallback lines.
- `ConnectLoop.ConnectTrace` specifies the events of one `connect` call.
  - `LoggerService.Logger.Connect` is the imperative loop, with the source's early returns. It is
    proved to append exactly that trace.
  - The lemmas of `ConnectLoop` prove what the trace means: how many attempts and delays there
    are, their order, and where delays may and may not occur.
- `LogDispatch.SendEvents` specifies one `sendLog` call, and `LoggerService.Logger.SendLog`
  implements it.
- The class invariant `Valid()` says that `isConnected` implies a producer, and a producer
  implies a client.
  - Every method preserves it.
  - Under it, the guard `!producer || !isConnected` at `src/services/logger.ts:60` comes down to
    `!isConnected`.
  - A producer left behind by a failed attempt (stored at line 30 before the `connect()` at
    line 31 rejects) still sends nothing, because `isConnected` stays false.

Two behaviours follow the code exactly:

- With `retries <= 0`, `connect` makes no attempt, reports nothing and changes nothing. The code
  has no configuration check; the loop simply does not run.
- A `connect` call in which every attempt fails never clears `isConnected`. If the logger was
  already connected, it stays flagged as connected, now with a new producer that is not
  connected. The server calls `connect` once, at startup (`src/index.ts:98`).

## Model

| member | source | states |
|---|---|---|
| `ConnectLoop.FirstSuccessFrom` | src/services/logger.ts:17-35 | the attempt the loop stops at lies within k..retries and is one whose producer connected |
| `ConnectLoop.FirstSuccessLeast` | src/services/logger.ts:17-35 | the loop stops at the least connecting attempt; it finds none exactly when every attempt of k..retries fails |
| `ConnectLoop.AttemptCountFrom` | src/services/logger.ts:17 | from attempt k on, at most retries-k+1 attempts are made, and none exactly when k > retries |
| `ConnectLoop.EarlierAttemptsFail` | src/services/logger.ts:17-43 | every attempt before the last one made fails; at most max(retries, 0) attempts are made; the call connects exactly when its last attempt does |
| `ConnectLoop.SomeAttemptMeans` | src/services/logger.ts:19-30 | "some attempt up to n got past a stage" is the existential over attempts 1..n |
| `ConnectLoop.TraceFrom` | src/services/logger.ts:17-47 | the events of the loop from attempt k on: attempt reports, delays and the give-up report, nothing else |
| `ConnectLoop.ConnectTrace` | src/services/logger.ts:17-47 | a call reports nothing exactly when retries < 1, and otherwise starts with the report of attempt 1 |
| `ConnectLoop.TraceLayout` | src/services/logger.ts:17-47 | closed form of a call's events: attempt k+i at position 2i, a delay of delayMs at every other odd position, the give-up report last after exhaustion; the length is 2n-1 after a success and 2n after exhaustion |
| `ConnectLoop.LastAttempt` | src/services/logger.ts:31-43 | an attempt that connects, or attempt number retries, is the last: it is reported, then at most the give-up report follows |
| `ConnectLoop.AttemptNumbersFrom` | src/services/logger.ts:17 | the attempts are reported in order, numbered k, k+1, ..., one per attempt made |
| `ConnectLoop.DelaysFrom` | src/services/logger.ts:39-46 | a call makes one delay fewer than it makes attempts, and every delay is delayMs |
| `ConnectLoop.FirstSuccessIs` | src/services/logger.ts:31-35 | when attempt k connects and no earlier attempt does, the call stops there after exactly k attempts |
| `ConnectLoop.NoSuccess` | src/services/logger.ts:36-43 | when no attempt connects, exactly max(retries, 0) attempts are made |
| `ConnectLoop.AttemptsInOrder` | src/services/logger.ts:17 | the attempts of one call are numbered 1..n in order, with n at most max(retries, 0); with retries <= 0 nothing happens |
| `ConnectLoop.SuccessAt` | src/services/logger.ts:31-35 | first success at attempt k: k attempts, k-1 delays, the successful attempt is the last event, and there is no give-up report |
| `ConnectLoop.AllFail` | src/services/logger.ts:36-43 | every attempt fails: max(retries, 0) attempts, retries-1 delays, the give-up report last, and no successful attempt |
| `ConnectLoop.DelayBetweenAttempts` | src/services/logger.ts:39-46 | each delay comes right after a failed attempt numbered below retries, and right before the next attempt |
| `ConnectLoop.DelayAfterEachFailure` | src/services/logger.ts:37-46 | each failed attempt numbered below retries is followed by one delay of delayMs |
| `ConnectLoop.NothingAfterSuccessOrLast` | src/services/logger.ts:33-42 | after a successful attempt, or after attempt number retries, there is no delay and no further attempt; at most the give-up report follows |
| `LoggerTypes.StoresClient` | src/services/logger.ts:19 | an attempt stores a new client unless the client constructor throws; a connected attempt always has |
| `LoggerTypes.StoresProducer` | src/services/logger.ts:30 | an attempt stores a new producer only after storing a client, and a connected attempt always has |
| `LogDispatch.ToUpper` | src/services/logger.ts:62 | ASCII upper case, which agrees with toUpperCase on the four level names it is applied to: keeps the length and upper-cases each character |
| `LogDispatch.SendEvents` | src/services/logger.ts:59-81 | producer.send is called exactly when a producer exists and the logger is connected, exactly once and first, with one record on the log topic keyed by the level and holding the message; the console line appears exactly when the message does not reach Kafka, after the failed send when there is one; one event, or two after a failed send; the message is delivered exactly once, with no error escaping |
| `LogDispatch.FallbackLine` | src/services/logger.ts:62 | the console line, printed here and again after a failed send, carries the message's text and metadata unchanged, behind a tag of the level name's length plus two, opened by '[' and closed by ']' |
| `LogDispatch.RecordFor` | src/services/logger.ts:67-74 | the record goes to the given topic, holds the message as its value, and is keyed by the level of that message |
| `LogDispatch.FallbackTags` | src/services/logger.ts:62 | the console tag is the level in upper case between brackets: [INFO], [WARN], [ERROR], [DEBUG] |
| `LoggerService.Logger.constructor` | src/services/logger.ts:11-14 | a new logger has no client, no producer, is not connected and has reported nothing |
| `LoggerService.Logger.Connect` | src/services/logger.ts:16-49 | appends exactly the events of ConnectTrace; sets isConnected exactly when some attempt connects and never clears it; a client or producer is present afterwards exactly when it was before or some attempt made got that far; preserves the invariant |
| `LoggerService.Logger.ConnectWithDefaults` | src/services/logger.ts:16 | connect with its default 5 retries and 2000 ms delay |
| `LoggerService.Logger.Disconnect` | src/services/logger.ts:51-57 | with a producer: clears isConnected and reports it, or passes on a rejection and changes nothing; without a producer: resolves and changes nothing; the producer field is kept |
| `LoggerService.Logger.SendLog` | src/services/logger.ts:59-81 | appends exactly the events of SendEvents; the sink is Kafka exactly when a producer exists, the logger is connected and the send resolves, which under the invariant is exactly when the connection status is true and the send resolves |
| `LoggerService.Logger.Info` | src/services/logger.ts:83-90 | sends a message with level info, the given text, timestamp and metadata unchanged |
| `LoggerService.Logger.Warn` | src/services/logger.ts:92-99 | sends a message with level warn, the given text, timestamp and metadata unchanged |
| `LoggerService.Logger.Error` | src/services/logger.ts:101-108 | sends a message with level error, the given text, timestamp and metadata unchanged |
| `LoggerService.Logger.Debug` | src/services/logger.ts:110-117 | sends a message with level debug, the given text, timestamp and metadata unchanged |
| `LoggerService.Logger.GetConnectionStatus` | src/services/logger.ts:119-121 | returns the current isConnected exactly |
| `Scenarios.RetryThenConnect` | src/services/logger.ts:16-49 | 3 retries 100 ms apart, refused twice and then accepted: 3 attempts, 2 delays, connected, and the next info call reaches Kafka |
| `Scenarios.ExhaustDefaults` | src/services/logger.ts:16-49 | default connect against a broker that always refuses: 5 attempts, 4 delays, no connection and no error; the producer left behind does not make a warn call reach producer.send |
| `Scenarios.NoRetries` | src/services/logger.ts:17 | with 0 retries nothing is attempted, even against a broker that would accept |
| `Scenarios.ConnectAgain` | src/services/logger.ts:16-49 | a second connect after an exhausted one starts afresh at attempt 1 |
| `Scenarios.ShutdownThenLog` | src/services/logger.ts:51-81 | after disconnect the status is false, and the events an error call appends are exactly one console line tagged [ERROR] with its text and no metadata |
| `Scenarios.DisconnectWithoutProducer` | src/services/logger.ts:51-57 | when no attempt created a producer, disconnect resolves and reports nothing, whatever a producer's disconnect would have done |

## Left out

- Kafka client construction details (`src/services/logger.ts:19-28`) are not modelled. These are
  the client id, the brokers, the log level and the client's own retry settings (8 retries,
  300 ms initial, 30000 ms maximum). They are the library's own policy, not this loop's.
- The identity of clients and producers is not modelled, only whether each field is set. Clients
  and producers replaced by later attempts are never disconnected by the code; the model does not
  track them.
- Time is not modelled. A delay is an event carrying `delayMs`, not a duration; `setTimeout`'s
  treatment of negative delays is not modelled.
- Console output and the text of the errors printed with it are not modelled. Reports are events.
- `JSON.stringify` is not modelled: a Kafka record's value is the log message itself.
- The clock (`new Date().toISOString()`) is not modelled: timestamps are a parameter of the level methods.
- Metadata values are opaque strings.
- Interleaving of concurrent async calls on one logger is not modelled. Each method runs as one
  step; the server awaits `connect` before serving requests.
- LoggerService.Logger.Connect: `retries` and `delayMs` are integers. A fractional `retries`,
  which JavaScript allows, is not modelled.
- The rest of the repository is not part of this model: `src/index.ts`, `src/services/cache.ts`,
  `src/services/database.ts`, `src/config/index.ts`, `scripts/view-logs.ts`, the migrations and
  the tests. Of the configuration, only the default log topic `server-logs` is used
  (`src/config/index.ts:37`).
