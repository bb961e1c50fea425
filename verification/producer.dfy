/** The producer's enqueue path: job ids, the envelope, and the choice between
    the scheduled set and the immediate queue. The clock, the random source,
    argument encodability and the store's answers are inputs. */
module Producer {
  import opened Wrappers
  import Hex
  import opened Envelope
  import opened Store

  /** Random bytes in a job id. */
  const JidBytes: nat := 12

  /** What one enqueue call yields: the id and error Go returns, and the calls
      the store saw, in order. */
  datatype Outcome<A> = Outcome(jid: string, err: Option<Error>, calls: seq<Call<A>>)

  datatype Error = MarshalFailed(marshalError: MarshalError) | StoreFailed(storeError: StoreError)

  /** The world one call runs in: what the random source yields before it
      fails or ends (`None` when it fails at once), which arguments can be
      encoded, and how the store answers. */
  datatype Env<!A> = Env(entropy: Option<seq<Hex.byte>>, encodable: A -> bool, faults: Faults)

  /** A job id: twelve random bytes as 24 lower-case hex digits, or "" when
      twelve bytes cannot be read. */
  function GenerateJid(entropy: Option<seq<Hex.byte>>): (jid: string)
    ensures jid == "" <==> entropy.None? || |entropy.value| < JidBytes
    ensures entropy.Some? && |entropy.value| >= JidBytes ==>
      && |jid| == 2 * JidBytes
      && Hex.IsLowerHex(jid)
      && Hex.Decode(jid) == Some(entropy.value[..JidBytes])
  {
    match entropy
    case None => ""
    case Some(stream) =>
      if |stream| < JidBytes then ""
      else
        var b := stream[..JidBytes];
        Hex.DecodeEncode(b);
        Hex.Encode(b)
  }

  /** Job ids are as unique as the random bytes behind them: equal non-empty
      ids come from the same twelve bytes. */
  lemma DistinctBytesDistinctJids(e1: Option<seq<Hex.byte>>, e2: Option<seq<Hex.byte>>)
    requires GenerateJid(e1) != "" && GenerateJid(e1) == GenerateJid(e2)
    ensures e1.Some? && e2.Some? && |e1.value| >= JidBytes && |e2.value| >= JidBytes
    ensures e1.value[..JidBytes] == e2.value[..JidBytes]
  {
  }

  /** The envelope one call builds. */
  function BuildEnvelope<A>(queue: string, className: string, args: A, opts: EnqueueOptions,
                       now: int, env: Env<A>): EnqueueData<A> {
    EnqueueData(queue, className, args, GenerateJid(env.entropy), now, opts)
  }

  /** The message a call carries, if any. */
  function Message<A>(c: Call<A>): Option<Payload<A>> {
    match c
    case CreateQueue(_) => None
    case EnqueueMessageNow(_, m) => Some(m)
    case EnqueueScheduledMessage(_, m) => Some(m)
  }

  function StoreResult(e: Option<StoreError>): Option<Error> {
    match e
    case None => None
    case Some(cause) => Some(StoreFailed(cause))
  }

  /** Go's `EnqueueWithOptions`: `now` is the clock read at its start. Future
      work (`now < opts.at`) goes to the scheduled set scored by `at`; anything
      else creates the queue and pushes onto it. Every message the store sees
      reads back as the envelope for this call. */
  function EnqueueWithOptions<A>(queue: string, className: string, args: A, opts: EnqueueOptions,
                                 now: int, env: Env<A>): (r: Outcome<A>)
    ensures forall c :: c in r.calls && Message(c).Some? ==>
      Unmarshal(Message(c).value) == Some(EnqueueData(queue, className, args, GenerateJid(env.entropy), now, opts))
    ensures r.err.None? ==> r.jid == GenerateJid(env.entropy)
    ensures r.jid != "" ==> r.jid == GenerateJid(env.entropy)
    ensures r.calls == [] <==> !env.encodable(args)
  {
    var data := BuildEnvelope(queue, className, args, opts, now, env);
    match Marshal(data, env.encodable)
    case Failure(e) => Outcome("", Some(MarshalFailed(e)), [])
    case Success(payload) =>
      if now < opts.at then
        var insert := EnqueueScheduledMessage(data.options.at, payload);
        Outcome(data.jid, StoreResult(Reply(env.faults, insert)), [insert])
      else
        var create := CreateQueue(queue);
        match Reply(env.faults, create)
        case Some(e) => Outcome("", Some(StoreFailed(e)), [create])
        case None =>
          var push := EnqueueMessageNow(queue, payload);
          match Reply(env.faults, push)
          case Some(e) => Outcome("", Some(StoreFailed(e)), [create, push])
          case None => Outcome(data.jid, None, [create, push])
  }

  /** Go's `Enqueue`: `clock` is the time it reads to set `at`, `now` the
      later read inside `EnqueueWithOptions`. With a clock that does not run
      backwards the job is never scheduled. */
  function Enqueue<A>(queue: string, className: string, args: A, clock: int, now: int,
                      env: Env<A>): (r: Outcome<A>)
    ensures clock <= now ==> forall c :: c in r.calls ==> !c.EnqueueScheduledMessage?
    ensures forall c :: c in r.calls && Message(c).Some? ==>
      Unmarshal(Message(c).value) == Some(EnqueueData(queue, className, args, GenerateJid(env.entropy), now,
                                                      EnqueueOptions(0, false, clock)))
  {
    EnqueueWithOptions(queue, className, args, EnqueueOptions(0, false, clock), now, env)
  }

  /** Go's `EnqueueIn`: due `delay` nanoseconds after the clock read; scheduled
      exactly when that moment is still ahead at the second read. */
  function EnqueueIn<A>(queue: string, className: string, delay: int, args: A, clock: int, now: int,
                        env: Env<A>): (r: Outcome<A>)
    ensures env.encodable(args) && now < clock + delay ==>
      |r.calls| == 1 && r.calls[0].EnqueueScheduledMessage? && r.calls[0].at == clock + delay
    ensures env.encodable(args) && clock + delay <= now ==> |r.calls| >= 1 && r.calls[0] == CreateQueue(queue)
    ensures forall c :: c in r.calls && Message(c).Some? ==>
      Unmarshal(Message(c).value) == Some(EnqueueData(queue, className, args, GenerateJid(env.entropy), now,
                                                      EnqueueOptions(0, false, clock + delay)))
  {
    EnqueueWithOptions(queue, className, args, EnqueueOptions(0, false, clock + delay), now, env)
  }

  /** Go's `EnqueueInWithOptions`: only `at` is replaced, by the clock read
      plus `delay`; the caller's retry settings travel unchanged. */
  function EnqueueInWithOptions<A>(queue: string, className: string, delay: int, args: A,
                                   opts: EnqueueOptions, clock: int, now: int,
                                   env: Env<A>): (r: Outcome<A>)
    ensures env.encodable(args) && now < clock + delay ==>
      |r.calls| == 1 && r.calls[0].EnqueueScheduledMessage? && r.calls[0].at == clock + delay
    ensures env.encodable(args) && clock + delay <= now ==> |r.calls| >= 1 && r.calls[0] == CreateQueue(queue)
    ensures forall c :: c in r.calls && Message(c).Some? ==>
      Unmarshal(Message(c).value) == Some(EnqueueData(queue, className, args, GenerateJid(env.entropy), now,
                                                      EnqueueOptions(opts.retryCount, opts.retry, clock + delay)))
  {
    EnqueueWithOptions(queue, className, args, opts.(at := clock + delay), now, env)
  }

  /** Go's `EnqueueAt`: due at the given instant. */
  function EnqueueAt<A>(queue: string, className: string, at: int, args: A, now: int,
                        env: Env<A>): (r: Outcome<A>)
    ensures env.encodable(args) && now < at ==>
      |r.calls| == 1 && r.calls[0].EnqueueScheduledMessage? && r.calls[0].at == at
    ensures env.encodable(args) && at <= now ==> |r.calls| >= 1 && r.calls[0] == CreateQueue(queue)
    ensures forall c :: c in r.calls && Message(c).Some? ==>
      Unmarshal(Message(c).value) == Some(EnqueueData(queue, className, args, GenerateJid(env.entropy), now,
                                                      EnqueueOptions(0, false, at)))
  {
    EnqueueWithOptions(queue, className, args, EnqueueOptions(0, false, at), now, env)
  }

  /** Options built by `Enqueue`, `EnqueueIn` and `EnqueueAt` put neither
      `retry_count` nor `retry` on the wire. */
  lemma PlainOptionsOmitRetry<A>(queue: string, className: string, args: A, at: int, now: int, env: Env<A>)
    ensures var r := EnqueueWithOptions(queue, className, args, EnqueueOptions(0, false, at), now, env);
      forall c :: c in r.calls && Message(c).Some? ==>
        RetryCountKey !in Message(c).value && RetryKey !in Message(c).value
        && (AtKey in Message(c).value <==> at != 0)
  {
  }

  /** A failed serialisation returns "" and the error, and touches the store not at all. */
  lemma MarshalFailure<A>(queue: string, className: string, args: A, opts: EnqueueOptions,
                          now: int, env: Env<A>)
    requires !env.encodable(args)
    ensures EnqueueWithOptions(queue, className, args, opts, now, env)
         == Outcome("", Some(MarshalFailed(UnsupportedValue)), [])
  {
  }

  /** Future work: exactly one scheduled insert, scored by `at`, and no queue
      call; the id is returned even when the insert fails. */
  lemma ScheduledPath<A>(queue: string, className: string, args: A, opts: EnqueueOptions,
                         now: int, env: Env<A>)
    requires env.encodable(args) && now < opts.at
    ensures var r := EnqueueWithOptions(queue, className, args, opts, now, env);
      && r.calls == [EnqueueScheduledMessage(opts.at, Fields(BuildEnvelope(queue, className, args, opts, now, env)))]
      && r.jid == GenerateJid(env.entropy)
      && r.err == StoreResult(env.faults.enqueueScheduledMessage)
  {
  }

  /** Due work, including `now == at`: the queue is created and then the
      message pushed onto it, never a scheduled insert. The first store error
      is returned with ""; a failed creation means no push. */
  lemma ImmediatePath<A>(queue: string, className: string, args: A, opts: EnqueueOptions,
                         now: int, env: Env<A>)
    requires env.encodable(args) && opts.at <= now
    ensures var r := EnqueueWithOptions(queue, className, args, opts, now, env);
      var push := EnqueueMessageNow(queue, Fields(BuildEnvelope(queue, className, args, opts, now, env)));
      && (forall c :: c in r.calls ==> !c.EnqueueScheduledMessage?)
      && (env.faults.createQueue.Some? ==>
            r == Outcome("", Some(StoreFailed(env.faults.createQueue.value)), [CreateQueue(queue)]))
      && (env.faults.createQueue.None? && env.faults.enqueueMessageNow.Some? ==>
            r == Outcome("", Some(StoreFailed(env.faults.enqueueMessageNow.value)), [CreateQueue(queue), push]))
      && (env.faults.createQueue.None? && env.faults.enqueueMessageNow.None? ==>
            r == Outcome(GenerateJid(env.entropy), None, [CreateQueue(queue), push]))
  {
  }

  /** The boundary: a job due at exactly the current time is pushed, not scheduled. */
  lemma DueNowIsImmediate<A>(queue: string, className: string, args: A, opts: EnqueueOptions,
                             now: int, env: Env<A>)
    requires env.encodable(args) && opts.at == now
    ensures var r := EnqueueWithOptions(queue, className, args, opts, now, env);
      |r.calls| >= 1 && r.calls[0] == CreateQueue(queue)
      && forall c :: c in r.calls ==> !c.EnqueueScheduledMessage?
  {
  }

  /** A successful call, run against a store, adds exactly one copy of the
      envelope: at the tail of its queue when due, or to the scheduled set
      scored by `at` when not; nothing else changes. */
  lemma Delivered<A>(queue: string, className: string, args: A, opts: EnqueueOptions,
                     now: int, env: Env<A>, s: State<A>)
    requires EnqueueWithOptions(queue, className, args, opts, now, env).err.None?
    ensures var r := EnqueueWithOptions(queue, className, args, opts, now, env);
      var m := Fields(BuildEnvelope(queue, className, args, opts, now, env));
      var s' := Run(s, env.faults, r.calls);
      && (now < opts.at ==> s' == s.(scheduled := s.scheduled + [(opts.at, m)]))
      && (opts.at <= now ==>
            && s'.scheduled == s.scheduled
            && s'.queues.Keys == s.queues.Keys + {queue}
            && s'.queues[queue] == Ready(s, queue) + [m]
            && forall q :: q in s.queues && q != queue ==> s'.queues[q] == s.queues[q])
  {
    var r := EnqueueWithOptions(queue, className, args, opts, now, env);
    var m := Fields(BuildEnvelope(queue, className, args, opts, now, env));
    if now < opts.at {
      assert r.calls == [EnqueueScheduledMessage(opts.at, m)];
      assert Run(s, env.faults, r.calls) == Run(Step(s, env.faults, r.calls[0]), env.faults, []);
    } else {
      var push := EnqueueMessageNow(queue, m);
      assert r.calls == [CreateQueue(queue), push];
      var s1 := Step(s, env.faults, CreateQueue(queue));
      assert r.calls[1..] == [push];
      assert Run(s, env.faults, r.calls) == Run(s1, env.faults, [push]);
      assert Run(s1, env.faults, [push]) == Step(s1, env.faults, push);
      assert Ready(s1, queue) == Ready(s, queue);
      assert s1.queues.Keys == s.queues.Keys + {queue};
    }
  }

  /** Every call that reports success with a working random source returns a
      24-digit lower-case hex id. */
  lemma SuccessfulJid<A>(queue: string, className: string, args: A, opts: EnqueueOptions,
                         now: int, env: Env<A>)
    requires env.entropy.Some? && |env.entropy.value| >= JidBytes
    requires EnqueueWithOptions(queue, className, args, opts, now, env).err.None?
    ensures var jid := EnqueueWithOptions(queue, className, args, opts, now, env).jid;
      |jid| == 24 && Hex.IsLowerHex(jid)
  {
  }

  /** As written, a failing random source is not an error: the job is stored
      with an empty id and the call reports success with "". */
  lemma UnreadableEntropyGivesEmptyJid<A>(queue: string, className: string, args: A, opts: EnqueueOptions,
                                          now: int, env: Env<A>)
    requires env.entropy.None?
    requires env.encodable(args)
    requires env.faults == Faults(None, None, None)
    ensures var r := EnqueueWithOptions(queue, className, args, opts, now, env);
      r.jid == "" && r.err.None? && |r.calls| >= 1
  {
  }
}
