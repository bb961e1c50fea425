/** The store the producer talks to, as the calls it receives. Each kind of
    call can be made to fail; a call that fails changes nothing. */
module Store {
  import opened Wrappers
  import opened Envelope

  datatype StoreError = StoreError(reason: string)

  /** One call on the store, carrying the serialised envelope where there is one. */
  datatype Call<A> =
    | CreateQueue(queue: string)
    | EnqueueMessageNow(queue: string, message: Payload<A>)
    | EnqueueScheduledMessage(at: int, message: Payload<A>)

  /** The error, if any, each kind of call answers with. */
  datatype Faults = Faults(
    createQueue: Option<StoreError>,
    enqueueMessageNow: Option<StoreError>,
    enqueueScheduledMessage: Option<StoreError>)

  function Reply<A>(f: Faults, c: Call<A>): Option<StoreError> {
    match c
    case CreateQueue(_) => f.createQueue
    case EnqueueMessageNow(_, _) => f.enqueueMessageNow
    case EnqueueScheduledMessage(_, _) => f.enqueueScheduledMessage
  }

  /** What the store holds: the known queues with their ready messages, and
      the scheduled messages with their scores. */
  datatype State<A> = State(queues: map<string, seq<Payload<A>>>, scheduled: seq<(int, Payload<A>)>)

  function Ready<A>(s: State<A>, queue: string): seq<Payload<A>> {
    if queue in s.queues then s.queues[queue] else []
  }

  /** The effect of one call. Creating a queue that exists changes nothing. */
  function Step<A>(s: State<A>, f: Faults, c: Call<A>): State<A> {
    if Reply(f, c).Some? then s
    else match c
      case CreateQueue(q) => if q in s.queues then s else s.(queues := s.queues[q := []])
      case EnqueueMessageNow(q, m) => s.(queues := s.queues[q := Ready(s, q) + [m]])
      case EnqueueScheduledMessage(at, m) => s.(scheduled := s.scheduled + [(at, m)])
  }

  /** The effect of a sequence of calls, in order. */
  function Run<A>(s: State<A>, f: Faults, calls: seq<Call<A>>): State<A>
    decreases |calls|
  {
    if |calls| == 0 then s else Run(Step(s, f, calls[0]), f, calls[1..])
  }
}
