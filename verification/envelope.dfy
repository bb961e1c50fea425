/** The job envelope (Go's `EnqueueData` with its embedded `EnqueueOptions`)
    and its JSON object form, with the omit-when-empty field rules. Times are
    integer nanoseconds since the epoch; the job arguments are an opaque `A`. */
module Envelope {
  import opened Wrappers

  /** Scheduling options, flattened into the envelope on the wire. */
  datatype EnqueueOptions = EnqueueOptions(retryCount: int, retry: bool, at: int)

  /** The record one enqueue call builds. */
  datatype EnqueueData<A> = EnqueueData(
    queue: string,
    className: string,
    args: A,
    jid: string,
    enqueuedAt: int,
    options: EnqueueOptions)

  /** A JSON value of the kinds the envelope uses. */
  datatype Value<A> = Str(s: string) | Num(n: int) | Flag(b: bool) | Stamp(ns: int) | Opaque(a: A)

  /** A serialised envelope: one JSON object. */
  type Payload<A> = map<string, Value<A>>

  datatype MarshalError = UnsupportedValue

  const QueueKey: string := "queue"
  const ClassKey: string := "class"
  const ArgsKey: string := "args"
  const JidKey: string := "jid"
  const EnqueuedAtKey: string := "enqueued_at"
  const RetryCountKey: string := "retry_count"
  const RetryKey: string := "retry"
  const AtKey: string := "at"

  /** Every key an envelope may carry, flat: the options sit beside the job fields. */
  const WireKeys: set<string> :=
    {QueueKey, ClassKey, ArgsKey, JidKey, EnqueuedAtKey, RetryCountKey, RetryKey, AtKey}

  /** The JSON object for an envelope. `class`, `args`, `jid` and
      `enqueued_at` are always written; `queue`, `retry_count`, `retry` and
      `at` only when they are not the zero value. */
  function Fields<A>(d: EnqueueData<A>): (p: Payload<A>)
    ensures p.Keys <= WireKeys
    ensures ClassKey in p && ArgsKey in p && JidKey in p && EnqueuedAtKey in p
    ensures QueueKey in p <==> d.queue != ""
    ensures RetryCountKey in p <==> d.options.retryCount != 0
    ensures RetryKey in p <==> d.options.retry
    ensures AtKey in p <==> d.options.at != 0
  {
    var always := map[ClassKey := Str(d.className), ArgsKey := Opaque(d.args),
                      JidKey := Str(d.jid), EnqueuedAtKey := Stamp(d.enqueuedAt)];
    var withQueue := if d.queue == "" then always else always[QueueKey := Str(d.queue)];
    var withCount :=
      if d.options.retryCount == 0 then withQueue
      else withQueue[RetryCountKey := Num(d.options.retryCount)];
    var withRetry := if d.options.retry then withCount[RetryKey := Flag(true)] else withCount;
    if d.options.at == 0 then withRetry else withRetry[AtKey := Stamp(d.options.at)]
  }

  /** A string field; a missing optional one reads as "". */
  function StrField<A>(p: Payload<A>, key: string, required: bool): Option<string> {
    if key !in p then (if required then None else Some(""))
    else match p[key]
      case Str(s) => Some(s)
      case _ => None
  }

  /** A timestamp field; a missing optional one reads as 0. */
  function StampField<A>(p: Payload<A>, key: string, required: bool): Option<int> {
    if key !in p then (if required then None else Some(0))
    else match p[key]
      case Stamp(ns) => Some(ns)
      case _ => None
  }

  function NumField<A>(p: Payload<A>, key: string): Option<int> {
    if key !in p then Some(0)
    else match p[key]
      case Num(n) => Some(n)
      case _ => None
  }

  function FlagField<A>(p: Payload<A>, key: string): Option<bool> {
    if key !in p then Some(false)
    else match p[key]
      case Flag(b) => Some(b)
      case _ => None
  }

  function ArgsField<A>(p: Payload<A>): Option<A> {
    if ArgsKey !in p then None
    else match p[ArgsKey]
      case Opaque(a) => Some(a)
      case _ => None
  }

  /** How a consumer reads an envelope back: omitted fields take their zero
      value; the always-written fields must be there, and every field must
      have the kind of value its key calls for. */
  function Unmarshal<A>(p: Payload<A>): Option<EnqueueData<A>> {
    match (StrField(p, QueueKey, false), StrField(p, ClassKey, true), ArgsField(p),
           StrField(p, JidKey, true), StampField(p, EnqueuedAtKey, true),
           NumField(p, RetryCountKey), FlagField(p, RetryKey), StampField(p, AtKey, false))
    case (Some(queue), Some(className), Some(args), Some(jid), Some(enqueuedAt),
          Some(retryCount), Some(retry), Some(at)) =>
      Some(EnqueueData(queue, className, args, jid, enqueuedAt, EnqueueOptions(retryCount, retry, at)))
    case _ => None
  }

  /** Serialisation: fails exactly when the arguments cannot be encoded, and
      otherwise produces an object that reads back as the same envelope. */
  function Marshal<A>(d: EnqueueData<A>, encodable: A -> bool): (r: Result<Payload<A>, MarshalError>)
    ensures r.Success? <==> encodable(d.args)
    ensures r.Success? ==> r.value == Fields(d)
    ensures r.Success? ==> Unmarshal(r.value) == Some(d)
  {
    if encodable(d.args) then Success(Fields(d)) else Failure(UnsupportedValue)
  }
}
