/**
  ring/ingester_lifecycle.go and ring/consul_client.go: any number of ingesters pick tokens,
  heartbeat and unregister, each by a read / compute / compare-and-swap loop on one Consul key, while
  distributors watch that key.  Steps of different processes interleave freely; reads and swaps may
  fail, and a process may die at any point.  Each id registers at most once in a run.
 */
module RingProtocol {
  import opened Options
  import opened RingDesc
  import opened Seqs
  import Ring

  /** Where an ingester is in its loop; Gone covers unregistered and dead. */
  datatype Phase = Idle | Picking | Live(toks: seq<uint32>) | Leaving(toks: seq<uint32>) | Gone

  /** A CAS call under way: its index variable and, once it has read, what it read. */
  datatype Call = NoCall | Calling(index: nat, read: Option<Option<Desc>>)

  datatype Node = Node(phase: Phase, call: Call)

  /** How many commits the view reflects, and how many a read still to be delivered reflects. */
  datatype Watcher = Watcher(seen: nat, fetched: Option<nat>)

  datatype Pair = Pair(desc: Desc, index: nat)

  /** hosts gives each ingester's hostname, which never changes. */
  datatype State = State(
    store: Option<Pair>,
    clock: nat,
    history: seq<Desc>,
    nodes: map<Id, Node>,
    watchers: map<string, Watcher>,
    hosts: map<Id, string>)

  datatype Step =
    | BeginPick(id: Id)
    | BeginHeartbeat(id: Id)
    | BeginLeave(id: Id)
    | Read(id: Id)
    | Retry(id: Id)
    | Swap(id: Id, hostname: string, now: int, toks: seq<uint32>, desc: Desc)
    | GiveUp(id: Id)
    | Die(id: Id)
    | Fetch(watcher: string)
    | Deliver(watcher: string)
    | Wipe

  ghost predicate Init(s: State) {
    && s.store == None && s.clock == 0 && s.history == []
    && (forall id :: id in s.nodes ==> s.nodes[id] == Node(Idle, NoCall))
    && (forall w :: w in s.watchers ==> s.watchers[w] == Watcher(0, None))
  }

  function Stored(s: State): Option<Desc> {
    if s.store.None? then None else Some(s.store.value.desc)
  }

  /** What a callback starts from. */
  function Base(v: Option<Desc>): Desc {
    if v.None? then NewDesc() else v.value
  }

  /** Consul accepts a swap: the index is the key's, or zero for a key that does not exist. */
  predicate Accepts(s: State, index: nat) {
    if s.store.None? then index == 0 else index == s.store.value.index
  }

  /** The three callbacks: what they may write for a value read, and the phase after the write. */
  ghost predicate Callback(
    id: Id, phase: Phase, v: Option<Desc>, hostname: string, now: int, toks: seq<uint32>, d: Desc, phase': Phase)
  {
    match phase
    case Picking =>
      && Ascending(toks) && (forall x, t :: x in Base(v).tokens && t in toks ==> x.token != t)
      && Added(Base(v), id, hostname, now, toks, d) && phase' == Live(toks)
    case Live(mine) =>
      && phase' == phase
      && (if id in Base(v).ingesters
          then d == Base(v).(ingesters := Base(v).ingesters[id := Base(v).ingesters[id].(timestamp := now)])
          else Added(Base(v), id, hostname, now, mine, d))
    case Leaving(mine) => v.Some? && d == Removed(v.value, id, mine) && phase' == Gone
    case _ => false
  }

  /** The tokens of d are those of base and toks under id, sorted. */
  ghost predicate Joined(base: Desc, id: Id, toks: seq<uint32>, d: Desc) {
    && (forall i, j :: 0 <= i < j < |d.tokens| ==> d.tokens[i].token <= d.tokens[j].token)
    && (forall x :: multiset(d.tokens)[x] ==
                    multiset(base.tokens)[x] + if x.ingester == id then multiset(toks)[x.token] else 0)
  }

  lemma {:induction false} AddedJoins(base: Desc, id: Id, hostname: string, now: int, toks: seq<uint32>, d: Desc)
    requires Added(base, id, hostname, now, toks, d)
    ensures Joined(base, id, toks, d)
  {
    forall x ensures multiset(d.tokens)[x] ==
                     multiset(base.tokens)[x] + if x.ingester == id then multiset(toks)[x.token] else 0 {
      TokensForCount(id, toks, x);
      assert multiset(base.tokens + TokensFor(id, toks))[x] ==
             multiset(base.tokens)[x] + multiset(TokensFor(id, toks))[x];
    }
    forall i, j | 0 <= i < j < |d.tokens| ensures d.tokens[i].token <= d.tokens[j].token {
      assert !TokenLess(d.tokens[j], d.tokens[i]);
    }
  }

  /**
    What a callback writes, in plain terms.  It leaves the entries of others alone.  A leaver's entry goes;
    any other ingester has an entry with the present time afterwards, whose hostname is the one it had or
    its own.  A heartbeat of a registered ingester leaves the tokens alone; one that is not known to the
    ring joins it with its tokens, as a newcomer does.
   */
  lemma {:induction false} CallbackMeans(
    id: Id, phase: Phase, v: Option<Desc>, hostname: string, now: int, toks: seq<uint32>, d: Desc, phase': Phase)
    requires Callback(id, phase, v, hostname, now, toks, d, phase')
    ensures var base := if v.None? then Desc(map[], []) else v.value;
            && (forall x :: x != id ==> (x in d.ingesters <==> x in base.ingesters))
            && (forall x :: x != id && x in d.ingesters ==> d.ingesters[x] == base.ingesters[x])
            && (phase.Leaving? ==> id !in d.ingesters)
            && (!phase.Leaving? ==> id in d.ingesters && d.ingesters[id].timestamp == now)
            && (phase.Live? && id in base.ingesters ==>
                  d.tokens == base.tokens && d.ingesters[id].hostname == base.ingesters[id].hostname)
            && ((phase.Live? && id !in base.ingesters) || phase.Picking? ==>
                  var mine := if phase.Picking? then toks else phase.toks;
                  && d.ingesters[id].hostname == hostname
                  && (forall i, j :: 0 <= i < j < |d.tokens| ==> d.tokens[i].token <= d.tokens[j].token)
                  && (forall x :: multiset(d.tokens)[x] ==
                        multiset(base.tokens)[x] + if x.ingester == id then multiset(mine)[x.token] else 0))
  {
    if phase.Picking? {
      AddedJoins(Base(v), id, hostname, now, toks, d);
    } else if phase.Live? && id !in Base(v).ingesters {
      AddedJoins(Base(v), id, hostname, now, phase.toks, d);
    }
  }

  function WithNode(s: State, id: Id, n: Node): State {
    s.(nodes := s.nodes[id := n])
  }

  /** s' after ingester id commits d and moves to phase. */
  function Committed(s: State, id: Id, d: Desc, phase: Phase): State {
    s.(store := Some(Pair(d, s.clock + 1)), clock := s.clock + 1, history := s.history + [d],
       nodes := s.nodes[id := Node(phase, NoCall)])
  }

  ghost predicate SwapStep(s: State, step: Step, s': State)
    requires step.Swap?
  {
    step.id in s.nodes && step.id in s.hosts && step.hostname == s.hosts[step.id] && var n := s.nodes[step.id];
    && n.call.Calling? && n.call.read.Some? && Accepts(s, n.call.index)
    && exists phase ::
         && Callback(step.id, n.phase, n.call.read.value, step.hostname, step.now, step.toks, step.desc, phase)
         && s' == Committed(s, step.id, step.desc, phase)
  }

  ghost predicate Next(s: State, step: Step, s': State) {
    match step
    case BeginPick(id) =>
      id in s.nodes && s.nodes[id] == Node(Idle, NoCall) && s' == WithNode(s, id, Node(Picking, Calling(0, None)))
    case BeginHeartbeat(id) =>
      && id in s.nodes && s.nodes[id].phase.Live? && s.nodes[id].call.NoCall?
      && s' == WithNode(s, id, s.nodes[id].(call := Calling(0, None)))
    case BeginLeave(id) =>
      && id in s.nodes && s.nodes[id].phase.Live? && s.nodes[id].call.NoCall?
      && s' == WithNode(s, id, Node(Leaving(s.nodes[id].phase.toks), Calling(0, None)))
    case Read(id) =>
      && id in s.nodes && s.nodes[id].call.Calling?
      && s' == WithNode(s, id, s.nodes[id].(call :=
           Calling(if s.store.None? then s.nodes[id].call.index else s.store.value.index, Some(Stored(s)))))
    case Retry(id) =>
      && id in s.nodes && s.nodes[id].call.Calling?
      && s' == WithNode(s, id, s.nodes[id].(call := Calling(s.nodes[id].call.index, None)))
    case Swap(_, _, _, _, _) => SwapStep(s, step, s')
    case GiveUp(id) =>
      && id in s.nodes && s.nodes[id].phase.Live?
      && s' == WithNode(s, id, s.nodes[id].(call := NoCall))
    case Die(id) =>
      id in s.nodes && s' == WithNode(s, id, Node(Gone, NoCall))
    case Fetch(w) =>
      && w in s.watchers
      && var fetched := if s.store.None? then None else Some(|s.history|);
         s' == s.(watchers := s.watchers[w := s.watchers[w].(fetched := fetched)])
    case Deliver(w) =>
      && w in s.watchers && s.watchers[w].fetched.Some?
      && s' == s.(watchers := s.watchers[w := Watcher(s.watchers[w].fetched.value, None)])
    case Wipe => s' == s.(store := None)
  }

  /** A run: states joined by steps, from a start with nobody registered. */
  ghost predicate Run(states: seq<State>, steps: seq<Step>) {
    && |states| == |steps| + 1 && Init(states[0])
    && forall i :: 0 <= i < |steps| ==> Next(states[i], steps[i], states[i + 1])
  }

  /** The store never loses the key. */
  predicate Lossless(steps: seq<Step>) {
    forall i :: 0 <= i < |steps| ==> !steps[i].Wipe?
  }

  // ----- swaps are atomic ---------------------------------------------------------------------

  /** What the index of a call says about what it read. */
  ghost predicate CallTrue(s: State, c: Call) {
    c.Calling? ==>
      && c.index <= s.clock
      && (c.read.Some? && c.read.value.Some? ==>
            c.index > 0 && (s.store.Some? && s.store.value.index == c.index ==>
              c.read.value.value == s.store.value.desc))
      && (c.read.Some? && c.read.value.None? ==> (s.store.Some? ==> s.store.value.index > c.index))
  }

  ghost predicate Indexed(s: State) {
    && (s.store.Some? ==>
          0 < s.store.value.index <= s.clock && s.history != [] && s.store.value.desc == s.history[|s.history| - 1])
    && (forall id :: id in s.nodes ==> CallTrue(s, s.nodes[id].call))
  }

  /** A call stays true while the store keeps its value, gets a new one or loses the key. */
  lemma {:induction false} CallStaysTrue(s: State, s': State, c: Call)
    requires CallTrue(s, c) && s.clock <= s'.clock
    requires s'.store == s.store || s'.store.None? || s'.store.value.index > s.clock
    ensures CallTrue(s', c)
  {
  }

  lemma {:induction false} IndexedStep(s: State, step: Step, s': State)
    requires Indexed(s) && Next(s, step, s')
    ensures Indexed(s')
  {
    forall id | id in s'.nodes ensures CallTrue(s', s'.nodes[id].call) {
      if id in s.nodes {
        assert CallTrue(s, s.nodes[id].call);
        CallStaysTrue(s, s', s.nodes[id].call);
      }
    }
  }

  /** A swap that Consul accepts replaces exactly the value its callback was given, stale indices or not. */
  lemma {:induction false} SwapReplacesWhatItRead(s: State, id: Id)
    requires Indexed(s) && id in s.nodes && s.nodes[id].call.Calling? && s.nodes[id].call.read.Some?
    requires Accepts(s, s.nodes[id].call.index)
    ensures s.nodes[id].call.read.value == Stored(s)
  {
    assert CallTrue(s, s.nodes[id].call);
  }

  // ----- the ring stays well formed -------------------------------------------------------------

  /** Sorted, no token in two hands, every token registered. */
  ghost predicate WellFormed(d: Desc) {
    Sorted(d.tokens) && Clean(d.tokens) && Registered(d)
  }

  /** What the stored ring holds for an ingester in a given phase. */
  ghost predicate Agrees(d: Desc, id: Id, phase: Phase) {
    match phase
    case Idle => id !in d.ingesters
    case Picking => id !in d.ingesters
    case Live(toks) => id in d.ingesters && Ascending(toks) && TokensOf(d.tokens, id) == TokensFor(id, toks)
    case Leaving(toks) => id in d.ingesters && Ascending(toks) && TokensOf(d.tokens, id) == TokensFor(id, toks)
    case Gone => true
  }

  ghost predicate AllAgree(s: State, d: Desc) {
    forall id :: id in s.nodes ==> Agrees(d, id, s.nodes[id].phase)
  }

  ghost predicate Good(s: State) {
    && Indexed(s) && WellFormed(Base(Stored(s))) && AllAgree(s, Base(Stored(s)))
    && (forall k :: 0 <= k < |s.history| ==> WellFormed(s.history[k]))
  }

  /** One more ingester with tokens of its own. */
  lemma {:induction false} PickKeeps(d: Desc, id: Id, hostname: string, now: int, toks: seq<uint32>, d': Desc)
    requires WellFormed(d) && id !in d.ingesters && Ascending(toks)
    requires forall x, t :: x in d.tokens && t in toks ==> x.token != t
    requires Added(d, id, hostname, now, toks, d')
    ensures WellFormed(d') && Agrees(d', id, Live(toks))
    ensures forall x, phase :: x != id && Agrees(d, x, phase) ==> Agrees(d', x, phase)
  {
    AddedMembers(d, id, hostname, now, toks, d');
    AddedClean(d, id, hostname, now, toks, d');
    AddedOwn(d, id, hostname, now, toks, d');
    AddedOthers(d, id, hostname, now, toks, d');
    forall x | x != id ensures TokensOf(d'.tokens, x) == TokensOf(d.tokens, x) {
      FilterTwice(d'.tokens, NotMine(id), Mine(x));
    }
  }

  /** One ingester fewer. */
  lemma {:induction false} LeaveKeeps(d: Desc, id: Id, toks: seq<uint32>)
    requires WellFormed(d) && Agrees(d, id, Leaving(toks))
    ensures WellFormed(Removed(d, id, toks))
    ensures forall x, phase :: x != id && Agrees(d, x, phase) ==> Agrees(Removed(d, id, toks), x, phase)
  {
    StripOwn(d.tokens, id, toks);
    FilterMembers(d.tokens, NotMine(id));
    FilterSorted(d.tokens, NotMine(id));
    forall x | x != id ensures TokensOf(Removed(d, id, toks).tokens, x) == TokensOf(d.tokens, x) {
      FilterTwice(d.tokens, NotMine(id), Mine(x));
    }
  }

  /** Every committing callback keeps the ring well formed and every ingester's view of it true. */
  lemma {:induction false} CallbackKeeps(
    s: State, id: Id, hostname: string, now: int, toks: seq<uint32>, d': Desc, phase': Phase)
    requires WellFormed(Base(Stored(s))) && AllAgree(s, Base(Stored(s))) && id in s.nodes
    requires Callback(id, s.nodes[id].phase, Stored(s), hostname, now, toks, d', phase')
    ensures WellFormed(d') && AllAgree(Committed(s, id, d', phase'), d')
  {
    var d, phase := Base(Stored(s)), s.nodes[id].phase;
    assert Agrees(d, id, phase);
    if phase.Picking? {
      PickKeeps(d, id, hostname, now, toks, d');
    } else if phase.Leaving? {
      LeaveKeeps(d, id, phase.toks);
    } else {
      assert d'.tokens == d.tokens && d'.ingesters.Keys == d.ingesters.Keys;
    }
  }

  lemma {:induction false} SwapKeepsGood(s: State, step: Step, s': State)
    requires Good(s) && step.Swap? && Next(s, step, s')
    ensures Good(s')
  {
    IndexedStep(s, step, s');
    SwapReplacesWhatItRead(s, step.id);
    var n := s.nodes[step.id];
    var phase :| Callback(step.id, n.phase, Stored(s), step.hostname, step.now, step.toks, step.desc, phase)
                 && s' == Committed(s, step.id, step.desc, phase);
    CallbackKeeps(s, step.id, step.hostname, step.now, step.toks, step.desc, phase);
  }

  lemma {:induction false} StepKeepsGood(s: State, step: Step, s': State)
    requires Good(s) && Next(s, step, s') && !step.Wipe?
    ensures Good(s')
  {
    if step.Swap? {
      SwapKeepsGood(s, step, s');
    } else {
      IndexedStep(s, step, s');
      assert s'.store == s.store && s'.history == s.history;
      forall id | id in s'.nodes ensures Agrees(Base(Stored(s')), id, s'.nodes[id].phase) {
        assert Agrees(Base(Stored(s)), id, s.nodes[id].phase);
      }
    }
  }

  /** In every reachable state of every run without store loss the ring is good. */
  lemma {:induction false} GoodAlways(states: seq<State>, steps: seq<Step>, i: nat)
    requires Run(states, steps) && Lossless(steps) && i < |states|
    ensures Good(states[i])
  {
    if i > 0 {
      GoodAlways(states, steps, i - 1);
      StepKeepsGood(states[i - 1], steps[i - 1], states[i]);
    }
  }

  lemma {:induction false} OwnCount(ts: seq<TokenDesc>, id: Id, toks: seq<uint32>, t: uint32)
    requires TokensOf(ts, id) == TokensFor(id, toks)
    ensures multiset(ts)[TokenDesc(t, id)] == multiset(toks)[t]
  {
    FilterCount(ts, Mine(id), TokenDesc(t, id));
    TokensForCount(id, toks, TokenDesc(t, id));
  }

  // ----- hostnames ------------------------------------------------------------------------------

  /** Every entry has the hostname of its ingester. */
  ghost predicate Hosted(d: Desc, hosts: map<Id, string>) {
    forall id :: id in d.ingesters ==> id in hosts && d.ingesters[id].hostname == hosts[id]
  }

  ghost predicate AllHosted(s: State) {
    Indexed(s) && forall k :: 0 <= k < |s.history| ==> Hosted(s.history[k], s.hosts)
  }

  lemma {:induction false} SwapKeepsHosted(s: State, step: Step, s': State)
    requires AllHosted(s) && step.Swap? && Next(s, step, s')
    ensures AllHosted(s')
  {
    IndexedStep(s, step, s');
    SwapReplacesWhatItRead(s, step.id);
    var n := s.nodes[step.id];
    var phase :| Callback(step.id, n.phase, Stored(s), step.hostname, step.now, step.toks, step.desc, phase);
    CallbackMeans(step.id, n.phase, Stored(s), step.hostname, step.now, step.toks, step.desc, phase);
    assert Hosted(Base(Stored(s)), s.hosts);
    assert Hosted(step.desc, s.hosts);
  }

  /** In every run, store loss included, every entry ever committed has the hostname of its ingester. */
  lemma {:induction false} HostedAlways(states: seq<State>, steps: seq<Step>, i: nat)
    requires Run(states, steps) && i < |states|
    ensures AllHosted(states[i])
  {
    if i > 0 {
      HostedAlways(states, steps, i - 1);
      if steps[i - 1].Swap? {
        SwapKeepsHosted(states[i - 1], steps[i - 1], states[i]);
      } else {
        IndexedStep(states[i - 1], steps[i - 1], states[i]);
      }
    }
  }

  // ----- runs that may lose the store -------------------------------------------------------------

  ghost predicate AllSorted(s: State) {
    Indexed(s) && forall k :: 0 <= k < |s.history| ==> Sorted(s.history[k].tokens)
  }

  lemma {:induction false} SwapKeepsSorted(s: State, step: Step, s': State)
    requires AllSorted(s) && step.Swap? && Next(s, step, s')
    ensures AllSorted(s')
  {
    IndexedStep(s, step, s');
    SwapReplacesWhatItRead(s, step.id);
    var d, phase := Base(Stored(s)), s.nodes[step.id].phase;
    assert Sorted(d.tokens);
    if phase.Leaving? {
      StripSorted(d.tokens, phase.toks);
    }
    assert Sorted(step.desc.tokens);
  }

  lemma {:induction false} SortedInvariant(states: seq<State>, steps: seq<Step>, i: nat)
    requires Run(states, steps) && i < |states|
    ensures AllSorted(states[i])
  {
    if i > 0 {
      SortedInvariant(states, steps, i - 1);
      if steps[i - 1].Swap? {
        SwapKeepsSorted(states[i - 1], steps[i - 1], states[i]);
      } else {
        IndexedStep(states[i - 1], steps[i - 1], states[i]);
      }
    }
  }

  /** Whatever is lost, every ring ever committed is sorted, so routing always searches a sorted list. */
  lemma {:induction false} SortedAlways(states: seq<State>, steps: seq<Step>, i: nat, k: nat, a: nat, b: nat)
    requires Run(states, steps) && i < |states| && k < |states[i].history| && a < b < |states[i].history[k].tokens|
    ensures states[i].history[k].tokens[a].token <= states[i].history[k].tokens[b].token
  {
    SortedInvariant(states, steps, i);
    var ts := states[i].history[k].tokens;
    assert Sorted(ts) && !TokenLess(ts[b], ts[a]);
  }

  /** Any ingester may die or go on failing, any call may be retried, and the store may lose the key. */
  lemma {:induction false} FailuresArePossible(s: State, id: Id)
    requires id in s.nodes
    ensures exists s' :: Next(s, Die(id), s') && s'.store == s.store && s'.nodes[id].phase.Gone?
    ensures s.nodes[id].call.Calling? ==>
      exists s' :: Next(s, Retry(id), s') && s'.store == s.store && s'.nodes[id].call.index == s.nodes[id].call.index
    ensures s.nodes[id].phase.Live? ==> exists s' :: Next(s, GiveUp(id), s') && s'.nodes[id].phase == s.nodes[id].phase
    ensures exists s' :: Next(s, Wipe, s') && s'.store.None? && s'.nodes == s.nodes
  {
    var n := s.nodes[id];
    assert Next(s, Die(id), WithNode(s, id, Node(Gone, NoCall)));
    assert Next(s, Wipe, s.(store := None));
    if n.call.Calling? {
      assert Next(s, Retry(id), WithNode(s, id, n.(call := Calling(n.call.index, None))));
    }
    if n.phase.Live? {
      assert Next(s, GiveUp(id), WithNode(s, id, n.(call := NoCall)));
    }
  }

  /**
    In every reachable state of every run without store loss: the stored tokens are sorted, no token value
    belongs to two ingesters, every token's ingester is in the map, and each live ingester is there under
    its hostname with exactly its tokens.
   */
  lemma {:induction false} RingSafety(states: seq<State>, steps: seq<Step>, i: nat)
    requires Run(states, steps) && i < |states| && forall k :: 0 <= k < |steps| ==> !steps[k].Wipe?
    ensures forall id :: id in states[i].nodes && states[i].nodes[id].phase.Live? ==> states[i].store.Some?
    ensures states[i].store.Some? ==>
      var s, d := states[i], states[i].store.value.desc;
      && (forall a, b :: 0 <= a < b < |d.tokens| ==> d.tokens[a].token <= d.tokens[b].token)
      && (forall x, y :: x in d.tokens && y in d.tokens && x.token == y.token ==> x.ingester == y.ingester)
      && (forall x :: x in d.tokens ==> x.ingester in d.ingesters)
      && (forall id :: id in s.nodes && s.nodes[id].phase.Live? ==>
            id in d.ingesters && id in s.hosts && d.ingesters[id].hostname == s.hosts[id])
      && (forall id, t :: id in s.nodes && s.nodes[id].phase.Live? ==>
            multiset(d.tokens)[TokenDesc(t, id)] == multiset(s.nodes[id].phase.toks)[t])
  {
    GoodAlways(states, steps, i);
    HostedAlways(states, steps, i);
    var s := states[i];
    forall id | id in s.nodes && s.nodes[id].phase.Live? ensures s.store.Some? && id in s.store.value.desc.ingesters {
      assert Agrees(Base(Stored(s)), id, s.nodes[id].phase);
    }
    if s.store.Some? {
      GoodPlainly(s);
    }
  }

  lemma {:induction false} GoodPlainly(s: State)
    requires Good(s) && AllHosted(s) && s.store.Some?
    ensures var d := s.store.value.desc;
      && (forall a, b :: 0 <= a < b < |d.tokens| ==> d.tokens[a].token <= d.tokens[b].token)
      && (forall id :: id in s.nodes && s.nodes[id].phase.Live? ==>
            id in d.ingesters && id in s.hosts && d.ingesters[id].hostname == s.hosts[id])
      && (forall id, t :: id in s.nodes && s.nodes[id].phase.Live? ==>
            multiset(d.tokens)[TokenDesc(t, id)] == multiset(s.nodes[id].phase.toks)[t])
  {
    var d := s.store.value.desc;
    forall a, b | 0 <= a < b < |d.tokens| ensures d.tokens[a].token <= d.tokens[b].token {
      assert !TokenLess(d.tokens[b], d.tokens[a]);
    }
    forall id, t | id in s.nodes && s.nodes[id].phase.Live?
      ensures multiset(d.tokens)[TokenDesc(t, id)] == multiset(s.nodes[id].phase.toks)[t]
    {
      assert Agrees(d, id, s.nodes[id].phase);
      OwnCount(d.tokens, id, s.nodes[id].phase.toks, t);
    }
    assert Hosted(d, s.hosts);
    forall id | id in s.nodes && s.nodes[id].phase.Live? ensures id in d.ingesters {
      assert Agrees(d, id, s.nodes[id].phase);
    }
  }

  // ----- the distributors' views --------------------------------------------------------------------

  /** A distributor's view: the empty ring, or the last commit delivered to it. */
  function View(s: State, w: Watcher): Desc
    requires w.seen <= |s.history|
  {
    if w.seen == 0 then NewDesc() else s.history[w.seen - 1]
  }

  /** A view is empty or a commit, and what is fetched for it is not older. */
  ghost predicate WatcherTrue(s: State, w: Watcher) {
    w.seen <= |s.history| && (w.fetched.Some? ==> w.seen <= w.fetched.value <= |s.history|)
  }

  /** In every run, store loss included, every view is empty or a commit. */
  lemma {:induction false} WatchersTrue(states: seq<State>, steps: seq<Step>, i: nat)
    requires Run(states, steps) && i < |states|
    ensures forall w :: w in states[i].watchers ==> WatcherTrue(states[i], states[i].watchers[w])
  {
    if i > 0 {
      WatchersTrue(states, steps, i - 1);
      var s, step, s' := states[i - 1], steps[i - 1], states[i];
      assert Next(s, step, s') && s.history <= s'.history;
      forall w | w in s'.watchers ensures WatcherTrue(s', s'.watchers[w]) {
        assert w in s.watchers && WatcherTrue(s, s.watchers[w]);
      }
    }
  }

  lemma {:induction false} HistoryGrows(states: seq<State>, steps: seq<Step>, i: nat, j: nat)
    requires Run(states, steps) && i <= j < |states|
    ensures states[i].history <= states[j].history
  {
    if i < j {
      HistoryGrows(states, steps, i, j - 1);
      assert Next(states[j - 1], steps[j - 1], states[j]);
    }
  }

  /** In every run, store loss included, the history only grows and no view moves backwards in it. */
  lemma {:induction false} ViewsAdvance(states: seq<State>, steps: seq<Step>, i: nat, j: nat, w: string)
    requires Run(states, steps) && i <= j < |states| && w in states[i].watchers
    ensures w in states[j].watchers && states[i].watchers[w].seen <= states[j].watchers[w].seen <= |states[j].history|
    ensures states[i].history <= states[j].history
  {
    HistoryGrows(states, steps, i, j);
    WatchersTrue(states, steps, j);
    if i < j {
      ViewsAdvance(states, steps, i, j - 1, w);
      WatchersTrue(states, steps, j - 1);
      assert Next(states[j - 1], steps[j - 1], states[j]);
      assert WatcherTrue(states[j - 1], states[j - 1].watchers[w]);
    }
  }

  /** A fetch reads the stored ring, if there is one, and its delivery makes that the view; otherwise the view stays. */
  lemma {:induction false} FetchDelivers(s: State, w: string, s1: State, s2: State)
    requires Indexed(s) && w in s.watchers && WatcherTrue(s, s.watchers[w]) && Next(s, Fetch(w), s1)
    ensures s1.watchers[w].fetched.Some? <==> s.store.Some?
    ensures View(s1, s1.watchers[w]) == View(s, s.watchers[w])
    ensures Next(s1, Deliver(w), s2) ==>
      && s.store.Some? && s2.watchers[w].seen <= |s2.history|
      && View(s2, s2.watchers[w]) == s.store.value.desc
  {
  }

  /** The poll failed, or it read the store of s. */
  ghost predicate PollOf<R(!new)>(s: State, poll: Ring.Poll<R>, decode: R -> Option<Desc>) {
    poll.Answered? ==> if poll.raw.None? then s.store.None? else decode(poll.raw.value) == Stored(s) && s.store.Some?
  }

  /** The number of commits before the last poll that found a ring. */
  function SeenAt<R>(states: seq<State>, times: seq<nat>, polls: seq<Ring.Poll<R>>): nat
    requires |times| == |polls| && forall i :: 0 <= i < |times| ==> times[i] < |states|
  {
    if polls == [] then 0
    else
      var n := |polls| - 1;
      if polls[n].Answered? && polls[n].raw.Some? then |states[times[n]].history|
      else SeenAt(states, times[..n], polls[..n])
  }

  /** The ring that WatchKey holds is the view of a watcher whose last fetch that found a ring was delivered. */
  lemma {:induction false} WatchShowsView<R(!new)>(
    states: seq<State>, steps: seq<Step>, times: seq<nat>, polls: seq<Ring.Poll<R>>, decode: R -> Option<Desc>, k: nat)
    requires Run(states, steps) && k < |states| && |times| == |polls|
    requires forall i :: 0 <= i < |times| ==> times[i] <= k && PollOf(states[times[i]], polls[i], decode)
    ensures SeenAt(states, times, polls) <= |states[k].history|
    ensures Ring.Latest(NewDesc(), polls, decode) == View(states[k], Watcher(SeenAt(states, times, polls), None))
  {
    if polls != [] {
      var n := |polls| - 1;
      WatchShowsView(states, steps, times[..n], polls[..n], decode, k);
      SortedInvariant(states, steps, times[n]);
      HistoryGrows(states, steps, times[n], k);
      assert PollOf(states[times[n]], polls[n], decode);
    }
  }

  /**
    Every lookup in every view that is not empty is routed to an ingester registered in that view, and to
    the hostname which that ingester has, never to the zero value.
   */
  lemma {:induction false} ViewsRoute(states: seq<State>, steps: seq<Step>, i: nat, w: string, key: uint32)
    requires Run(states, steps) && Lossless(steps) && i < |states| && w in states[i].watchers
    ensures states[i].watchers[w].seen <= |states[i].history|
    ensures var s, view := states[i], View(states[i], states[i].watchers[w]);
            view.tokens != [] ==>
              exists id :: id in view.ingesters && id in s.hosts && view.ingesters[id].hostname == s.hosts[id] &&
                Ring.Route(view, key) == Some(view.ingesters[id])
  {
    GoodAlways(states, steps, i);
    HostedAlways(states, steps, i);
    WatchersTrue(states, steps, i);
    var s := states[i];
    assert WatcherTrue(s, s.watchers[w]);
    var view := View(s, s.watchers[w]);
    if view.tokens != [] {
      assert WellFormed(view) && Hosted(view, s.hosts);
      Ring.RouteRegistered(view, key);
    }
  }

  // ----- losing the store breaks the ring -----------------------------------------------------------

  /** The ring with the one token 5 of one ingester. */
  function Alone(id: Id): Desc {
    Desc(map[id := IngesterDesc("", 0)], [TokenDesc(5, id)])
  }

  /** A call that has just read for the first time. */
  function FreshRead(s: State): Call {
    Calling(if s.store.None? then 0 else s.store.value.index, Some(Stored(s)))
  }

  /** Begin, read and swap in a row are three steps of the protocol. */
  lemma {:induction false} CallSteps(
    s: State, begin: Step, id: Id, phase: Phase, d: Desc, toks: seq<uint32>, phase': Phase)
    requires id in s.nodes && begin in {BeginPick(id), BeginHeartbeat(id), BeginLeave(id)}
    requires Next(s, begin, WithNode(s, id, Node(phase, Calling(0, None))))
    requires Callback(id, phase, Stored(s), "", 0, toks, d, phase') && id in s.hosts && s.hosts[id] == ""
    ensures var s1, s2 := WithNode(s, id, Node(phase, Calling(0, None))), WithNode(s, id, Node(phase, FreshRead(s)));
            && Next(s, begin, s1) && Next(s1, Read(id), s2)
            && Next(s2, Swap(id, "", 0, toks, d), Committed(s, id, d, phase'))
  {
    var s1, s2 := WithNode(s, id, Node(phase, Calling(0, None))), WithNode(s, id, Node(phase, FreshRead(s)));
    assert s2 == WithNode(s1, id, s1.nodes[id].(call := FreshRead(s1)));
    assert Committed(s, id, d, phase') == Committed(s2, id, d, phase');
  }

  ghost predicate Reachable(s: State) {
    exists states, steps :: Run(states, steps) && states[|states| - 1] == s
  }

  lemma {:induction false} ReachableStep(s: State, step: Step, s': State)
    requires Reachable(s) && Next(s, step, s')
    ensures Reachable(s')
  {
    var states, steps :| Run(states, steps) && states[|states| - 1] == s;
    var states', steps' := states + [s'], steps + [step];
    forall i | 0 <= i < |steps'| ensures Next(states'[i], steps'[i], states'[i + 1]) {
      if i < |steps| {
        assert states'[i] == states[i] && states'[i + 1] == states[i + 1];
      }
    }
    assert Run(states', steps');
  }

  lemma {:induction false} ReachableCall(
    s: State, begin: Step, id: Id, phase: Phase, d: Desc, toks: seq<uint32>, phase': Phase)
    requires Reachable(s) && id in s.nodes && begin in {BeginPick(id), BeginHeartbeat(id), BeginLeave(id)}
    requires Next(s, begin, WithNode(s, id, Node(phase, Calling(0, None))))
    requires Callback(id, phase, Stored(s), "", 0, toks, d, phase') && id in s.hosts && s.hosts[id] == ""
    ensures Reachable(Committed(s, id, d, phase'))
  {
    CallSteps(s, begin, id, phase, d, toks, phase');
    var s1 := WithNode(s, id, Node(phase, Calling(0, None)));
    var s2 := WithNode(s, id, Node(phase, FreshRead(s)));
    ReachableStep(s, begin, s1);
    ReachableStep(s1, Read(id), s2);
    ReachableStep(s2, Swap(id, "", 0, toks, d), Committed(s, id, d, phase'));
  }

  /** The ring in which "b" and "a" both hold token 5. */
  function Both(): Desc {
    Desc(map["b" := IngesterDesc("", 0), "a" := IngesterDesc("", 0)], [TokenDesc(5, "b"), TokenDesc(5, "a")])
  }

  lemma {:induction false} AloneIsAdded(id: Id)
    ensures Added(NewDesc(), id, "", 0, [5], Alone(id))
  {
    assert [] + TokensFor(id, [5]) == [TokenDesc(5, id)];
  }

  lemma {:induction false} BothIsAdded()
    ensures "a" != "b" && Added(Alone("b"), "a", "", 0, [5], Both())
  {
    assert "a"[0] != "b"[0];
    assert Alone("b").tokens + TokensFor("a", [5]) == [TokenDesc(5, "b"), TokenDesc(5, "a")];
  }

  lemma {:induction false} BothWithoutA()
    ensures Removed(Both(), "a", [5]).tokens == [TokenDesc(5, "a")]
  {
    var ts := Both().tokens;
    assert ts[1..] == [TokenDesc(5, "a")] && [5][1..] == [];
    assert Strip(ts, [5]) == Strip(ts[1..], []);
  }

  /** "a" picks token 5, the store loses the key, "b" picks 5 too. */
  lemma {:induction false} TokenTakenTwice() returns (s: State)
    ensures Reachable(s) && s.store.Some? && s.store.value.desc == Alone("b")
    ensures "a" in s.nodes && s.nodes["a"] == Node(Live([5]), NoCall) && "a" in s.hosts && s.hosts["a"] == ""
  {
    AloneIsAdded("a");
    AloneIsAdded("b");
    assert "a"[0] != "b"[0];
    var s0 := State(None, 0, [], map["a" := Node(Idle, NoCall), "b" := Node(Idle, NoCall)], map[],
                    map["a" := "", "b" := ""]);
    assert Run([s0], []) && [s0][|[s0]| - 1] == s0;
    ReachableCall(s0, BeginPick("a"), "a", Picking, Alone("a"), [5], Live([5]));
    var s1 := Committed(s0, "a", Alone("a"), Live([5]));
    ReachableStep(s1, Wipe, s1.(store := None));
    s := s1.(store := None);
    ReachableCall(s, BeginPick("b"), "b", Picking, Alone("b"), [5], Live([5]));
    s := Committed(s, "b", Alone("b"), Live([5]));
  }

  /**
    The condition Lossless cannot be dropped: after both hold token 5, "a" puts its token back with its
    next heartbeat, and when "a" leaves, the ring keeps a token that names nobody, so every key is
    routed to the zero value.
   */
  lemma {:induction false} LossBreaksRouting() returns (s: State)
    ensures Reachable(s) && s.store.Some? && !Registered(s.store.value.desc)
    ensures forall key :: Ring.Route(s.store.value.desc, key) == Some(Ring.ZERO)
  {
    BothIsAdded();
    BothWithoutA();
    s := TokenTakenTwice();
    ReachableCall(s, BeginHeartbeat("a"), "a", Live([5]), Both(), [], Live([5]));
    s := Committed(s, "a", Both(), Live([5]));
    var d := Removed(Both(), "a", [5]);
    ReachableCall(s, BeginLeave("a"), "a", Leaving([5]), d, [], Gone);
    s := Committed(s, "a", d, Gone);
    assert TokenDesc(5, "a") in d.tokens && "a" !in d.ingesters;
    forall key ensures Ring.Route(d, key) == Some(Ring.ZERO) {
      assert Ring.Successor(d.tokens, key) == TokenDesc(5, "a");
    }
  }
}
