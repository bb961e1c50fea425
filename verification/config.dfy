/** Resolution of the producer's options (Go's `processOptions`): topology
    validation, ProcessID check, pool-size, poll-interval and namespace
    defaulting, and construction of an abstract Redis client record. */
module Config {
  import opened Wrappers
  import Strings

  /** Nanoseconds in one second; durations are Go `time.Duration` values. */
  const Second: int := 1_000_000_000
  const DefaultPoolSize: int := 1
  const DefaultPollInterval: int := 15 * Second
  const NamespaceSeparator: char := ':'
  const SentinelSeparator: char := ','
  /** The address a failover (sentinel) client reports for itself. */
  const FailoverClientAddr: string := "FailoverClient"

  /** The part of Go's `tls.Config` the model follows. */
  datatype TlsConfig = TlsConfig(serverName: string)

  /** The caller's options. An empty string or a zero number means unset. */
  datatype Options = Options(
    serverAddr: string,
    sentinelAddrs: string,
    redisMasterName: string,
    processId: string,
    poolSize: int,
    redisTlsConfig: Option<TlsConfig>,
    namespace: string,
    pollInterval: int)

  /** How the client reaches Redis: one server, or a master found through sentinels. */
  datatype Topology =
    | Direct(addr: string)
    | Failover(masterName: string, sentinelAddrs: seq<string>)

  /** The abstract Redis client: its topology, pool size and transport security. */
  datatype Client = Client(topology: Topology, poolSize: int, tlsConfig: Option<TlsConfig>)
  {
    /** What the client's `Options().Addr` reports. */
    function Addr(): string {
      match topology
      case Direct(addr) => addr
      case Failover(_, _) => FailoverClientAddr
    }
  }

  /** The options after resolution. */
  datatype Resolved = Resolved(client: Client, namespace: string, processId: string, pollInterval: int)

  datatype ConfigError = MissingTopology | MissingMasterName | MissingProcessId

  predicate EndsWithSeparator(ns: string) {
    |ns| > 0 && ns[|ns| - 1] == NamespaceSeparator
  }

  /** What every successful resolution guarantees. */
  predicate ValidResolved(r: Resolved) {
    && r.processId != ""
    && r.client.poolSize >= 1
    && r.pollInterval > 0
    && (r.namespace == "" || EndsWithSeparator(r.namespace))
    && match r.client.topology
       case Direct(addr) => addr != ""
       case Failover(master, addrs) => master != "" && |addrs| >= 1
  }

  /** The connection topology, or why none can be chosen. A server address
      wins; otherwise sentinels need a master name. */
  function ResolveTopology(o: Options): (r: Result<Topology, ConfigError>)
    ensures r.Success? <==> o.serverAddr != "" || (o.sentinelAddrs != "" && o.redisMasterName != "")
    ensures o.serverAddr == "" && o.sentinelAddrs == "" ==> r == Failure(MissingTopology)
    ensures o.serverAddr == "" && o.sentinelAddrs != "" && o.redisMasterName == "" ==> r == Failure(MissingMasterName)
    ensures o.serverAddr != "" ==> r == Success(Direct(o.serverAddr))
    ensures r.Success? && r.value.Failover? ==>
      && r.value.masterName == o.redisMasterName
      && |r.value.sentinelAddrs| >= 1
      && Strings.Join(r.value.sentinelAddrs, SentinelSeparator) == o.sentinelAddrs
      && forall i :: 0 <= i < |r.value.sentinelAddrs| ==> SentinelSeparator !in r.value.sentinelAddrs[i]
  {
    if o.serverAddr != "" then Success(Direct(o.serverAddr))
    else if o.sentinelAddrs == "" then Failure(MissingTopology)
    else if o.redisMasterName == "" then Failure(MissingMasterName)
    else
      Strings.JoinSplit(o.sentinelAddrs, SentinelSeparator);
      Success(Failover(o.redisMasterName, Strings.Split(o.sentinelAddrs, SentinelSeparator)))
  }

  /** The pool size: the caller's when positive, otherwise one connection. */
  function PoolSize(n: int): (r: int)
    ensures r >= 1
    ensures n > 0 ==> r == n
    ensures n <= 0 ==> r == DefaultPoolSize
  {
    if n <= 0 then DefaultPoolSize else n
  }

  /** The poll interval: the caller's when positive, otherwise fifteen seconds. */
  function PollInterval(d: int): (r: int)
    ensures r > 0
    ensures d > 0 ==> r == d
    ensures d <= 0 ==> r == DefaultPollInterval
  {
    if d <= 0 then DefaultPollInterval else d
  }

  /** The key prefix: empty stays empty; otherwise it ends in exactly one added ':'
      unless it already ended in one. */
  function Namespace(ns: string): (r: string)
    ensures r == "" <==> ns == ""
    ensures ns != "" ==> EndsWithSeparator(r)
    ensures ns <= r && |r| <= |ns| + 1
    ensures EndsWithSeparator(ns) ==> r == ns
    ensures ns != "" && !EndsWithSeparator(ns) ==> r == ns + [NamespaceSeparator]
  {
    if ns == "" || EndsWithSeparator(ns) then ns else ns + [NamespaceSeparator]
  }

  /** Normalising a namespace twice is normalising it once. */
  lemma NamespaceIdempotent(ns: string)
    ensures Namespace(Namespace(ns)) == Namespace(ns)
  {
  }

  /** Resolution: the topology is checked first, then the ProcessID; on success
      the client carries the topology, the defaulted pool size and the caller's
      TLS settings unchanged. */
  function ProcessOptions(o: Options): (r: Result<Resolved, ConfigError>)
    ensures r.Success? <==>
      && o.processId != ""
      && (o.serverAddr != "" || (o.sentinelAddrs != "" && o.redisMasterName != ""))
    ensures ResolveTopology(o).Failure? ==> r == Failure(ResolveTopology(o).error)
    ensures ResolveTopology(o).Success? && o.processId == "" ==> r == Failure(MissingProcessId)
    ensures r.Success? ==>
      && ValidResolved(r.value)
      && r.value.processId == o.processId
      && r.value.client.topology == ResolveTopology(o).value
      && r.value.client.poolSize == PoolSize(o.poolSize)
      && r.value.client.tlsConfig == o.redisTlsConfig
      && r.value.namespace == Namespace(o.namespace)
      && r.value.pollInterval == PollInterval(o.pollInterval)
  {
    match ResolveTopology(o)
    case Failure(e) => Failure(e)
    case Success(topology) =>
      if o.processId == "" then Failure(MissingProcessId)
      else
        var client := Client(topology, PoolSize(o.poolSize), o.redisTlsConfig);
        Success(Resolved(client, Namespace(o.namespace), o.processId, PollInterval(o.pollInterval)))
  }

  /** The options a resolved configuration stands for. */
  function Unresolve(r: Resolved): Options {
    var c := r.client;
    match c.topology
    case Direct(addr) =>
      Options(addr, "", "", r.processId, c.poolSize, c.tlsConfig, r.namespace, r.pollInterval)
    case Failover(master, addrs) =>
      Options("", if |addrs| >= 1 then Strings.Join(addrs, SentinelSeparator) else "", master,
              r.processId, c.poolSize, c.tlsConfig, r.namespace, r.pollInterval)
  }

  /** Resolution is a normal form: resolving the options a resolution stands
      for gives that resolution back. */
  lemma ResolveIdempotent(o: Options)
    requires ProcessOptions(o).Success?
    ensures ProcessOptions(Unresolve(ProcessOptions(o).value)) == ProcessOptions(o)
  {
    var r := ProcessOptions(o).value;
    var o' := Unresolve(r);
    NamespaceIdempotent(o.namespace);
    match r.client.topology
    case Direct(_) =>
    case Failover(master, addrs) =>
      Strings.JoinSplit(o.sentinelAddrs, SentinelSeparator);
      assert o'.sentinelAddrs == o.sentinelAddrs;
  }

  /** Transport security does not depend on the topology: the same settings
      reach a direct client and a sentinel client alike, and absence stays
      absence. */
  lemma TlsPassThrough(o: Options, sentinelAddrs: string, masterName: string)
    requires ProcessOptions(o).Success?
    requires sentinelAddrs != "" && masterName != ""
    ensures var o' := o.(serverAddr := "", sentinelAddrs := sentinelAddrs, redisMasterName := masterName);
      && ProcessOptions(o').Success?
      && ProcessOptions(o').value.client.topology.Failover?
      && ProcessOptions(o').value.client.Addr() == FailoverClientAddr
      && ProcessOptions(o').value.client.tlsConfig == o.redisTlsConfig
      && ProcessOptions(o).value.client.tlsConfig == o.redisTlsConfig
      && ProcessOptions(o').value.client.poolSize == ProcessOptions(o).value.client.poolSize
  {
  }

  /** Two comma-separated sentinel addresses with a master name resolve to a
      failover client over both addresses, in order, reporting the failover
      address; unset TLS stays unset. */
  lemma SentinelPairResolves(a: string, b: string, master: string, o: Options)
    requires SentinelSeparator !in a && SentinelSeparator !in b
    requires o.serverAddr == "" && o.sentinelAddrs == a + [SentinelSeparator] + b
    requires o.redisMasterName == master && master != "" && o.processId != ""
    requires o.redisTlsConfig.None?
    ensures var r := ProcessOptions(o);
      && r.Success?
      && r.value.client.topology == Failover(master, [a, b])
      && r.value.client.Addr() == FailoverClientAddr
      && r.value.client.tlsConfig.None?
  {
    Strings.SplitAfter(a, b, SentinelSeparator);
  }
}
