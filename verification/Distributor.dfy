/** distributor.go: samples are sent to, and queries answered by, the ingester that owns a metric name. */
module Distributor {
  import opened Options
  import opened ByteStrings
  import opened ChunkLists
  import opened ChunkIndex
  import opened Answers
  import opened RingDesc
  import opened Ring
  import opened Batches
  import RingProtocol

  datatype Sample = Sample(metric: Metric, timestamp: int, value: real)

  /** tokenFor: a hash of user and metric name. */
  type Hash = (Bytes, Bytes) -> uint32

  /** The metric name, empty if the label is missing. */
  function NameOf(m: Metric): Bytes {
    if NAME in m then m[NAME] else []
  }

  /** The host that owns a user's metric name, None on an empty ring. */
  function HostFor(d: Desc, hash: Hash, user: Bytes, name: Bytes): (host: Option<string>)
    ensures host.None? <==> d.tokens == []
  {
    var entry := Route(d, hash(user, name));
    if entry.None? then None else Some(entry.value.hostname)
  }

  /** Where each sample of a user goes, looked up in the ring as it is by then. */
  function Destinations(views: seq<Desc>, hash: Hash, user: Bytes, samples: seq<Sample>): (hosts: seq<string>)
    requires |views| == |samples|
    ensures |hosts| == |samples|
    ensures forall i :: 0 <= i < |hosts| ==> hosts[i] == Destination(views[i], hash, user, samples[i])
  {
    seq(|samples|, i requires 0 <= i < |samples| => Destination(views[i], hash, user, samples[i]))
  }

  function Destination(d: Desc, hash: Hash, user: Bytes, s: Sample): string {
    var host := HostFor(d, hash, user, NameOf(s.metric));
    if host.None? then "" else host.value
  }

  /** One lookup: ErrEmptyRing, or the host. */
  method OwnerOf(d: Desc, hash: Hash, user: Bytes, s: Sample) returns (ok: bool, host: string)
    requires Sorted(d.tokens)
    ensures ok <==> d.tokens != []
    ensures host == Destination(d, hash, user, s)
  {
    var ring := new RingView();
    ring.ringDesc := d;
    var entry := ring.Get(hash(user, NameOf(s.metric)));
    ok, host := entry.Some?, if entry.Some? then entry.value.hostname else "";
  }

  predicate NoneEmpty(views: seq<Desc>) {
    forall i :: 0 <= i < |views| ==> views[i].tokens != []
  }

  lemma {:induction false} NoneEmptyStep(views: seq<Desc>, n: nat)
    requires n < |views| && NoneEmpty(views[..n]) && views[n].tokens != []
    ensures NoneEmpty(views[..n + 1])
  {
  }

  // ----- Append -----------------------------------------------------------------------------------

  /**
    Append, up to sending.  Sample i is looked up in the ring as it is by then, views[i].  No sample is lost
    or doubled, order is kept within a host, and nothing is sent if the ring was empty at one of the lookups.
   */
  method Append(views: seq<Desc>, hash: Hash, user: Bytes, samples: seq<Sample>)
    returns (res: Option<map<string, seq<Sample>>>)
    requires |views| == |samples| && forall i :: 0 <= i < |views| ==> Sorted(views[i].tokens)
    ensures res.Some? <==> NoneEmpty(views)
    ensures res.Some? ==> Partitioned(res.value, Destinations(views, hash, user, samples), samples)
    ensures res.Some? ==> Union(res.value) == multiset(samples)
    ensures res.Some? ==> forall i :: 0 <= i < |samples| ==>
      var entry := Route(views[i], hash(user, if NAME in samples[i].metric then samples[i].metric[NAME] else []));
      entry.Some? && entry.value.hostname in res.value && samples[i] in res.value[entry.value.hostname]
  {
    ghost var hosts := Destinations(views, hash, user, samples);
    var batches := map[];
    for i := 0 to |samples|
      invariant NoneEmpty(views[..i]) && batches == GroupOf(hosts, samples, i)
    {
      var ok, host := OwnerOf(views[i], hash, user, samples[i]);
      if !ok {
        return None;
      }
      batches := AddTo(batches, host, samples[i]);
      NoneEmptyStep(views, i);
    }
    assert views[..|samples|] == views;
    GroupPartitioned(hosts, samples);
    AllSent(batches, views, hash, user, samples);
    res := Some(batches);
  }

  // ----- Query ------------------------------------------------------------------------------------

  /** metricNameFromLabelMatchers: the value of the first name matcher, which must be an equality. */
  method MetricNameFromLabelMatchers(ms: seq<Matcher>) returns (name: Option<Bytes>)
    ensures name == if NameMatcher(ms).Some? then Some(NameMatcher(ms).value.0) else None
    ensures forall i :: 0 <= i < |ms| && ms[i].name == NAME && (forall k :: 0 <= k < i ==> ms[k].name != NAME) ==>
      name == if ms[i].kind.Equal? then Some(ms[i].value) else None
    ensures (forall i :: 0 <= i < |ms| ==> ms[i].name != NAME) ==> name.None?
  {
    for i := 0 to |ms|
      invariant forall k :: 0 <= k < i ==> ms[k].name != NAME
    {
      if ms[i].name == NAME {
        assert i == FirstName(ms);
        return if ms[i].kind.Equal? then Some(ms[i].value) else None;
      }
    }
    name := None;
  }

  /** The host Query contacts; None if it reports an error instead. */
  method QueryHost(ring: RingView, hash: Hash, user: Bytes, ms: seq<Matcher>) returns (host: Option<string>)
    requires Sorted(ring.ringDesc.tokens)
    ensures NameMatcher(ms).None? ==> host.None?
    ensures NameMatcher(ms).Some? ==>
      var entry := Route(ring.ringDesc, hash(user, NameMatcher(ms).value.0));
      host == if entry.None? then None else Some(entry.value.hostname)
  {
    var name := MetricNameFromLabelMatchers(ms);
    if name.None? {
      return None;
    }
    var collector := ring.Get(hash(user, name.value));
    host := if collector.None? then None else Some(collector.value.hostname);
  }

  /** Each sample is in the batch of the host that its ring gave for the user and the metric name. */
  lemma {:induction false} AllSent(
    batches: map<string, seq<Sample>>, views: seq<Desc>, hash: Hash, user: Bytes, samples: seq<Sample>)
    requires |views| == |samples| && NoneEmpty(views)
    requires Partitioned(batches, Destinations(views, hash, user, samples), samples)
    ensures forall i :: 0 <= i < |samples| ==>
      var entry := Route(views[i], hash(user, if NAME in samples[i].metric then samples[i].metric[NAME] else []));
      entry.Some? && entry.value.hostname in batches && samples[i] in batches[entry.value.hostname]
  {
    var hosts := Destinations(views, hash, user, samples);
    forall i | 0 <= i < |samples| ensures hosts[i] in batches && samples[i] in batches[hosts[i]] {
      UnderMembers(hosts, samples, hosts[i], |samples|, samples[i]);
      assert Batch(batches, hosts[i]) == Under(hosts, samples, hosts[i], |samples|);
    }
    forall i | 0 <= i < |samples| ensures
      var entry := Route(views[i], hash(user, if NAME in samples[i].metric then samples[i].metric[NAME] else []));
      entry.Some? && entry.value.hostname == hosts[i]
    {
      assert views[i].tokens != [];
    }
  }

  /** The ring d sends the metric name where every ring in which a sample of it was looked up sends it. */
  ghost predicate SameRoute(views: seq<Desc>, d: Desc, hash: Hash, user: Bytes, samples: seq<Sample>, name: Bytes)
    requires |views| == |samples|
  {
    forall i :: 0 <= i < |samples| && NAME in samples[i].metric && samples[i].metric[NAME] == name ==>
      Route(views[i], hash(user, name)) == Route(d, hash(user, name))
  }

  /**
    A query for a metric name contacts the very host to which all samples of that name are sent, unless the
    name was rerouted meanwhile.
   */
  lemma {:induction false} QueriesMeetSamples(
    batches: map<string, seq<Sample>>, views: seq<Desc>, d: Desc, hash: Hash, user: Bytes,
    samples: seq<Sample>, s: Sample, ms: seq<Matcher>)
    requires |views| == |samples| && Partitioned(batches, Destinations(views, hash, user, samples), samples)
    requires s in samples && NAME in s.metric
    requires NameMatcher(ms).Some? && NameMatcher(ms).value.0 == s.metric[NAME]
    requires d.tokens != [] && SameRoute(views, d, hash, user, samples, s.metric[NAME])
    ensures var host := HostFor(d, hash, user, NameMatcher(ms).value.0);
            host.Some? && host.value in batches && s in batches[host.value]
    ensures forall h :: h in batches && s in batches[h] ==> HostFor(d, hash, user, NameMatcher(ms).value.0) == Some(h)
  {
    var host := HostFor(d, hash, user, s.metric[NAME]).value;
    InOwnBatch(batches, Destinations(views, hash, user, samples), samples, s, host);
  }

  /** A heartbeat of a registered ingester reroutes nothing. */
  lemma {:induction false} HeartbeatReroutesNothing(
    id: Id, toks: seq<uint32>, v: Option<Desc>, hostname: string, now: int, news: seq<uint32>, d: Desc, hash: Hash,
    user: Bytes, name: Bytes)
    requires RingProtocol.Callback(id, RingProtocol.Live(toks), v, hostname, now, news, d, RingProtocol.Live(toks))
    requires v.Some? && id in v.value.ingesters
    ensures HostFor(d, hash, user, name) == HostFor(v.value, hash, user, name)
  {
  }

  /** When an ingester joins, a metric name stays where it is or moves to the newcomer. */
  lemma {:induction false} JoinReroutesToNewcomer(
    d: Desc, id: Id, hostname: string, now: int, toks: seq<uint32>, d': Desc, hash: Hash, user: Bytes, name: Bytes)
    requires d.tokens != [] && Sorted(d.tokens) && Clean(d.tokens) && Registered(d) && id !in d.ingesters
    requires Added(d, id, hostname, now, toks, d')
    requires forall x, t :: x in d.tokens && t in toks ==> x.token != t
    ensures HostFor(d', hash, user, name) in {HostFor(d, hash, user, name), Some(hostname)}
  {
    AddMovesToNewcomer(d, id, hostname, now, toks, d', hash(user, name));
    RouteRegistered(d, hash(user, name));
  }

  /** When an ingester leaves, only the metric names it owned move. */
  lemma {:induction false} LeaveReroutesOwnNames(
    d: Desc, id: Id, toks: seq<uint32>, hash: Hash, user: Bytes, name: Bytes)
    requires Sorted(d.tokens) && Clean(d.tokens) && Registered(d) && TokensOf(d.tokens, id) == TokensFor(id, toks)
    requires Removed(d, id, toks).tokens != []
    ensures d.tokens != []
    ensures Owner(d.tokens, hash(user, name)) != id ==>
      HostFor(Removed(d, id, toks), hash, user, name) == HostFor(d, hash, user, name)
  {
    RemoveMovesOwnKeys(d, id, toks, hash(user, name));
    RouteRegistered(d, hash(user, name));
  }

  // ----- clients --------------------------------------------------------------------------------------

  /** The pool of ingester clients, filled on demand under a read-write lock. */
  class ClientPool<Client> {
    var clients: map<string, Client>

    constructor ()
      ensures clients == map[]
    {
      clients := map[];
    }

    /** Between the two critical sections other calls may add clients. */
    method Interfere()
      modifies this
      ensures forall h :: h in old(clients) ==> h in clients && clients[h] == old(clients)[h]
    {
    }

    /** getClientFor: a host is looked up again under the write lock, so it never gets a second client. */
    method GetClientFor(hostname: string, connect: string -> Option<Client>) returns (client: Option<Client>)
      modifies this
      ensures forall h :: h in old(clients) ==> h in clients && clients[h] == old(clients)[h]
      ensures client.Some? ==> hostname in clients && clients[hostname] == client.value
      ensures client.None? ==> connect(hostname).None?
    {
      if hostname in clients {
        return Some(clients[hostname]);
      }
      Interfere();
      if hostname in clients {
        return Some(clients[hostname]);
      }
      client := connect(hostname);
      if client.Some? {
        clients := clients[hostname := client.value];
      }
    }
  }
}
