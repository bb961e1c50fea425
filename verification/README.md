# go-workers2 producer: enqueue decision, envelope and options resolution

This project models the producer side of go-workers2, a Redis-backed job
queue, in Dafny. It covers two pieces.

- **The enqueue path** (`producer.go`). A call builds an `EnqueueData`
  envelope with its embedded `EnqueueOptions`. It stamps the envelope with
  the clock and a generated job id (jid), then serialises it. It then routes
  it either to the scheduled set (when `now < at`) or to queue creation
  followed by an immediate push. The four convenience entry points differ
  only in how they compute `at`.
- **Options resolution** (`processOptions`). This covers validation of the
  direct or sentinel topology and the ProcessID requirement. It defaults the
  pool size and poll interval, adds the `:` namespace separator and carries
  the TLS settings through to the client. The behaviour modelled is what
  `options_test.go` asserts.

Modules:

- `wrappers.dfy`: `Option` and `Result`.
- `hex.dfy`: the `%x` rendering of bytes (`Hex.Encode`), its inverse
  `Hex.Decode`, and round trips in both directions.
- `strings.dfy`: Go's `strings.Split` and its inverse `Join`, used for the
  comma-separated sentinel list.
- `config.dfy`: `Options`, the abstract `Client` (topology tag, pool size,
  optional TLS) and `ProcessOptions` with its parts.
- `envelope.dfy`: `EnqueueData` and `EnqueueOptions`. The wire form is a
  JSON object (a map from key to value) with the omit-when-empty rules, and
  `Unmarshal` reads it back as a consumer would.
- `store.dfy`: the store as calls (`CreateQueue`, `EnqueueMessageNow`,
  `EnqueueScheduledMessage`) with an injectable error per kind of call. It
  also has a small state semantics (`Run`) that says where a message ends
  up.
- `producer.dfy`: `GenerateJid`,
  `EnqueueWithOptions` and the entry points, and lemmas for routing, error
  ordering and delivery.

The model's inputs:

- Times are integer nanoseconds since the epoch.
- Each entry point takes the clock reads it makes as parameters. `clock` is
  the read that sets `at`. `now` is the later read inside
  `EnqueueWithOptions`.
- The random source is the byte stream it yields (`None` if it fails at
  once).
- Whether `json.Marshal` accepts the job arguments is the predicate
  `encodable`. The arguments themselves are an opaque type parameter.

Choices the model makes:

- The code's `generateJid` returns `""` when the random read fails, and the
  enqueue then goes ahead and reports success with an empty id. An id that
  cannot be generated would arguably be better reported as an error, but the
  model follows the code, and `Producer.UnreadableEntropyGivesEmptyJid`
  states the behaviour.
- `Enqueue` sets `At` to its own clock read, so `at` is on the wire unless
  the clock reads zero; the model follows the code in this.
- `options.go`, which holds the body of `processOptions`, is not part of
  this model. Its contract comes from `options_test.go`. Where the tests
  leave something open, the model makes these choices of its own:
  - topology errors are reported before a missing ProcessID;
  - options that set both a server address and sentinels are accepted, and
    the server address is used, although setting both is arguably a
    configuration mistake that could be rejected;
  - a pool size or poll interval of zero or less gets the default;
  - `:` is appended to a non-empty namespace unless it already ends in one.

## Model

| member | source | states |
|---|---|---|
| Envelope.Fields | producer.go:21-34 | `class`, `args`, `jid` and `enqueued_at` are always on the wire. `queue` is present iff non-empty, `retry_count` iff non-zero, `retry` iff true and `at` iff non-zero. The options sit flat beside the job fields. |
| Envelope.Marshal | producer.go:90-93 | With times as finite integers, serialisation fails exactly when the arguments cannot be encoded. Otherwise the object reads back as the same envelope, omitted fields included. |
| Producer.GenerateJid | producer.go:125-133 | With 12 readable bytes the jid is 24 lower-case hex digits that decode to exactly those bytes. It is `""` iff the read fails or yields fewer than 12 bytes. |
| Producer.EnqueueWithOptions | producer.go:79-111 | Every message the store sees reads back as the envelope with the caller's queue, class and args, `enqueued_at = now` and the options unchanged. A reported success carries the generated jid. No store call happens iff serialisation fails. |
| Producer.Enqueue | producer.go:62-64 | With a clock that does not run backwards the job is never scheduled. Its envelope's options are `at = clock`, zero retry count and no retry. |
| Producer.EnqueueIn | producer.go:66-68 | `at` is clock + delay. The job is a single scheduled insert scored by it iff that is still ahead of `now`; otherwise queue creation comes first. |
| Producer.EnqueueInWithOptions | producer.go:70-73 | Only `at` is replaced, by clock + delay. The caller's retry count and retry flag reach the wire unchanged. The routing is the same as for `EnqueueIn`. |
| Producer.EnqueueAt | producer.go:75-77 | `at` is the given instant. The job is scheduled iff `now < at`; otherwise queue creation comes first. |
| Producer.PlainOptionsOmitRetry | producer.go:62-77 | Options built by `Enqueue`, `EnqueueIn` and `EnqueueAt` never put `retry_count` or `retry` on the wire. `at` is there iff non-zero. |
| Producer.MarshalFailure | producer.go:90-93 | A serialisation failure returns `""` and the error, with an empty store trace. |
| Producer.ScheduledPath | producer.go:95-98 | When `now < at` the trace is exactly one scheduled insert, scored by `at` and carrying the envelope. There is no queue call. The jid is returned even when the insert fails, along with its error. |
| Producer.ImmediatePath | producer.go:100-110 | When `at <= now` there is never a scheduled insert. A failed `CreateQueue` gives `""` and its error, with no push. A failed push after creation gives `""` and its error. Otherwise the result is the jid with no error after create-then-push. |
| Producer.DueNowIsImmediate | producer.go:95-100 | At the boundary `now == at` the job goes to queue creation and push, not to the scheduled set. |
| Producer.Delivered | producer.go:95-110 | A successful call adds exactly one copy of the envelope: at the tail of its queue when due, or to the scheduled set scored by `at` when not. Nothing else changes. |
| Producer.SuccessfulJid | producer.go:125-133 | With a working random source, every successful enqueue returns a 24-character lower-case hex id. |
| Producer.UnreadableEntropyGivesEmptyJid | producer.go:128-131 | When the random read fails, the job is still stored and the call reports success with an empty id. |
| Producer.DistinctBytesDistinctJids | producer.go:125-133 | Equal non-empty jids come from the same twelve random bytes, so ids are exactly as unique as the random source. |
| Hex.DigitChar | producer.go:132 | Each nibble is written as one lower-case hex digit, and reading that digit gives the nibble back. |
| Hex.Encode | producer.go:132 | `%x` writes two lower-case digits per byte, most significant nibble first, so the length is twice the byte count. |
| Hex.Decode | producer.go:132 | A string is accepted as a jid rendering iff it is an even number of lower-case hex digits. |
| Hex.DecodeEncode | producer.go:132 | Decoding the rendering of bytes gives the bytes back, so distinct bytes give distinct jids. |
| Hex.EncodeDecode | producer.go:132 | Every decodable string is the rendering of what it decodes to, so the rendering is canonical. |
| Strings.Split | options_test.go:123 | The comma-separated sentinel list gives at least one piece, and no piece contains a comma. |
| Strings.JoinSplit | options_test.go:123 | Splitting the sentinel list loses nothing: joining the pieces with commas restores it. |
| Strings.SplitJoin | options_test.go:123 | Comma-free addresses joined and split again come back unchanged and in order. |
| Config.ResolveTopology | options_test.go:121-157 | Resolution succeeds iff a server address is set, or sentinels are set together with a master name. Sentinels without a master name fail, and neither set fails. A failover topology keeps the master name and the sentinel list. |
| Config.PoolSize | options_test.go:11-29 | The pool size is 1 when unset and an explicit size (such as 20) is kept. It is always at least 1. |
| Config.PollInterval | options_test.go:102-119 | The poll interval is 15 s when unset and an explicit interval (such as 1 s) is kept. |
| Config.Namespace | options_test.go:83-100 | `""` stays `""`. `"prod"` becomes `"prod:"`. A non-empty result always ends in `:` and extends the input by at most that separator. |
| Config.NamespaceIdempotent | options_test.go:83-100 | Normalising an already-normalised namespace leaves it alone. |
| Config.ProcessOptions | options_test.go:53-81 | Resolution fails iff the topology is incomplete or the ProcessID is empty, whatever the topology. On success the ProcessID is kept exactly. The result also carries the resolved topology, the defaulted pool size and interval, the normalised namespace and the caller's TLS settings. |
| Config.ResolveIdempotent | options_test.go:83-100 | Resolving the options a resolution stands for gives the same resolution. The namespace separator is not added twice and the sentinel list survives. |
| Config.TlsPassThrough | options_test.go:31-147 | The same TLS settings, or their absence, reach the client whether the topology is direct or sentinel. Switching to sentinels yields a failover client with the same pool size. |
| Config.SentinelPairResolves | options_test.go:121-132 | Two comma-separated sentinel addresses with a master name resolve to a failover client over both addresses in order. The client reports `FailoverClient` as its address and has no TLS when none was given. |

## Left out

- `NewProducer`, `NewProducerWithRedisClient`, `GetRedisClient` and `processOptionsWithRedisClient` are left out. They construct or hand out a go-redis client, a foreign library; the client is modelled only as the abstract `Config.Client` record.
- Client settings that the tests do not observe (password, database, idle timeout) are left out.
- `crypto/rand` and `io.ReadFull` are modelled by the byte stream the reader yields.
- `time.Now` is left out: clock reads are parameters.
- `timeToSecondsWithNanoPrecision`, `durationToSecondsWithNanoPrecision` and `nowToSecondsWithNanoPrecision` convert to float64 seconds. Times and delays here are exact integer nanoseconds, so float rounding near the `now < at` boundary is not modelled.
- The generic `json.Marshal` of the arguments is left out. The arguments are opaque, and the wire form is a key-to-value map. The JSON text, its key order and float formatting are not modelled.
- Envelope.Marshal: does not model the second cause of marshal failure in the source. `in` is a float64 (producer.go:66-71), so `at` can be `+Inf`, `-Inf` or `NaN`, which `json.Marshal` rejects; `EnqueueIn` then returns `""` and an error without calling the store. The model's integer times are always finite. Names are also Unicode text in the model, while a Go `string` is a byte string: for a `queue` or `class` holding invalid UTF-8, `json.Marshal` writes U+FFFD in place of each bad byte, so the source's envelope does not read back with the same names.
- Producer.EnqueueWithOptions: names are Unicode text in the model. For a `queue` or `class` holding invalid UTF-8 bytes, the source calls the store with the raw queue name, but the stored message carries U+FFFD in place of the bad bytes, so it does not read back with the caller's queue and class.
- Producer.EnqueueAt: does not model the int64 range of Go's `UnixNano` (producer.go:114). It is defined only for instants between about 1678 and 2262 and wraps outside them, so an instant in year 3000 can give a negative `at` that the source pushes at once. The model's unbounded integer schedules it.
- The store's Redis commands are left out. The scheduled set is a sequence of scored messages rather than a sorted set, and a failing call is taken to change nothing.
- Concurrency, connection-pool blocking, and the consumer, poller and retry machinery are out of scope.
