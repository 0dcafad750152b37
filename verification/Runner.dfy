/**
  tools/runner/runner.go: tests run in parallel on hosts taken from a pool.  Tests finish in any
  order; the run is recorded as a trace of states.  A test that times out is reported and its hosts go
  back to the pool, but its command is not killed: it lingers and goes on using them.
 */
module Runner {
  import opened ByteStrings
  import opened Seqs
  import Sorting

  type Host = string

  /** A test and the number of hosts it needs (the number in its file name). */
  datatype Test = Test(name: Bytes, hosts: nat)

  datatype Job = Job(test: Test, hosts: seq<Host>)

  /** running are the tests whose result is awaited, lingering the commands that outlived their timeout. */
  datatype State = State(
    pending: seq<Test>, free: seq<Host>, running: seq<Job>, finished: seq<Test>, lingering: seq<Job>)

  function TestsOf(jobs: seq<Job>): multiset<Test> {
    if jobs == [] then multiset{} else TestsOf(jobs[..|jobs| - 1]) + multiset{jobs[|jobs| - 1].test}
  }

  function HostsOf(jobs: seq<Job>): multiset<Host> {
    if jobs == [] then multiset{} else HostsOf(jobs[..|jobs| - 1]) + multiset(jobs[|jobs| - 1].hosts)
  }

  lemma {:induction false} Regroup<T>(a: multiset<T>, b: multiset<T>, c: multiset<T>, x: multiset<T>)
    ensures a + (b + x) + c == a + b + (c + x)
    ensures (a + x) + b + c == a + (b + x) + c
  {
  }

  lemma {:induction false} WithoutInit(jobs: seq<Job>, k: nat)
    requires k < |jobs| - 1
    ensures Without(jobs, k) == Without(jobs[..|jobs| - 1], k) + [jobs[|jobs| - 1]]
    ensures Without(jobs, k)[..|jobs| - 2] == Without(jobs[..|jobs| - 1], k)
  {
  }

  lemma {:induction false} WithoutTest(jobs: seq<Job>, k: nat)
    requires k < |jobs|
    ensures TestsOf(jobs) == TestsOf(Without(jobs, k)) + multiset{jobs[k].test}
  {
    var n := |jobs| - 1;
    if k == n {
      assert Without(jobs, k) == jobs[..n];
    } else {
      WithoutTest(jobs[..n], k);
      WithoutInit(jobs, k);
      Exchange(TestsOf(Without(jobs[..n], k)), multiset{jobs[k].test}, multiset{jobs[n].test});
    }
  }

  lemma {:induction false} WithoutHosts(jobs: seq<Job>, k: nat)
    requires k < |jobs|
    ensures HostsOf(jobs) == HostsOf(Without(jobs, k)) + multiset(jobs[k].hosts)
  {
    var n := |jobs| - 1;
    if k == n {
      assert Without(jobs, k) == jobs[..n];
    } else {
      WithoutHosts(jobs[..n], k);
      WithoutInit(jobs, k);
      Exchange(HostsOf(Without(jobs[..n], k)), multiset(jobs[k].hosts), multiset(jobs[n].hosts));
    }
  }

  // ----- steps ------------------------------------------------------------------------

  /** The first pending test that fits, the length if none does. */
  function FirstFit(pending: seq<Test>, available: nat): (i: nat)
    ensures i <= |pending| && (i < |pending| ==> pending[i].hosts <= available)
    ensures forall k :: 0 <= k < i ==> pending[k].hosts > available
  {
    if pending == [] || pending[0].hosts <= available then 0 else 1 + FirstFit(pending[1..], available)
  }

  predicate CanStart(s: State) {
    s.free != [] && FirstFit(s.pending, |s.free|) < |s.pending|
  }

  function Start(s: State): State
    requires CanStart(s)
  {
    var i := FirstFit(s.pending, |s.free|);
    var t := s.pending[i];
    s.(pending := Without(s.pending, i), free := s.free[t.hosts..], running := s.running + [Job(t, Taken(s))])
  }

  /** The hosts that the next test to start is given. */
  function Taken(s: State): seq<Host>
    requires CanStart(s)
  {
    s.free[..s.pending[FirstFit(s.pending, |s.free|)].hosts]
  }

  /** The result of a command that has ended is received. */
  function Finish(s: State, k: nat): State
    requires k < |s.running|
  {
    var job := s.running[k];
    s.(free := s.free + job.hosts, running := Without(s.running, k), finished := s.finished + [job.test])
  }

  /** A test is given the first of the free hosts, as many as it needs. */
  lemma {:induction false} TakenFirst(s: State)
    requires CanStart(s)
    ensures var job := Start(s).running[|s.running|];
            s.free == job.hosts + Start(s).free && |job.hosts| == job.test.hosts
  {
  }

  /** Hosts that come back are handed out after those that were free. */
  lemma {:induction false} ReturnedLast(s: State, k: nat)
    requires k < |s.running|
    ensures var free := Finish(s, k).free;
            s.free <= free && free[|s.free|..] == s.running[k].hosts && TimeOut(s, k).free == free
  {
  }

  /** The result "timed out" is received. */
  function TimeOut(s: State, k: nat): State
    requires k < |s.running|
  {
    Finish(s, k).(lingering := s.lingering + [s.running[k]])
  }

  /** A command that outlived its timeout ends. */
  function End(s: State, k: nat): State
    requires k < |s.lingering|
  {
    s.(lingering := Without(s.lingering, k))
  }

  /** The runner receives a result. */
  ghost predicate Receives(s: State, s': State) {
    exists k :: 0 <= k < |s.running| && (s' == Finish(s, k) || s' == TimeOut(s, k))
  }

  ghost predicate Ends(s: State, s': State) {
    exists k :: 0 <= k < |s.lingering| && s' == End(s, k)
  }

  /** A test starts whenever one can; only otherwise does the runner wait.  Commands end when they like. */
  ghost predicate Next(s: State, s': State) {
    Ends(s, s') || if CanStart(s) then s' == Start(s) else Receives(s, s')
  }

  // ----- what every state keeps -------------------------------------------------------

  ghost predicate TestsConserved(s: State, tests: seq<Test>) {
    multiset(s.pending) + TestsOf(s.running) + multiset(s.finished) == multiset(tests)
  }

  ghost predicate HostsConserved(s: State, hosts: seq<Host>) {
    multiset(s.free) + HostsOf(s.running) == multiset(hosts)
  }

  predicate Fits(t: Test, hosts: seq<Host>) {
    hosts != [] && t.hosts <= |hosts|
  }

  /** Running tests hold as many hosts as they asked for, and what runs or ran fits the pool. */
  ghost predicate Fitting(s: State, hosts: seq<Host>) {
    && (forall k :: 0 <= k < |s.running| ==>
          |s.running[k].hosts| == s.running[k].test.hosts && Fits(s.running[k].test, hosts))
    && (forall t :: t in s.finished ==> Fits(t, hosts))
  }

  ghost predicate Conserves(s: State, tests: seq<Test>, hosts: seq<Host>) {
    TestsConserved(s, tests) && HostsConserved(s, hosts) && Fitting(s, hosts)
  }

  lemma {:induction false} Started(s: State, t: Test, hosts: seq<Host>)
    requires t.hosts <= |hosts|
    ensures TestsOf(s.running + [Job(t, hosts[..t.hosts])]) == TestsOf(s.running) + multiset{t}
    ensures HostsOf(s.running + [Job(t, hosts[..t.hosts])]) == HostsOf(s.running) + multiset(hosts[..t.hosts])
  {
    var r := s.running + [Job(t, hosts[..t.hosts])];
    assert r[..|r| - 1] == s.running;
  }

  lemma {:induction false} StartKeepsTests(s: State, tests: seq<Test>)
    requires TestsConserved(s, tests) && CanStart(s)
    ensures TestsConserved(Start(s), tests)
  {
    var i := FirstFit(s.pending, |s.free|);
    var t := s.pending[i];
    Started(s, t, s.free);
    WithoutMultiset(s.pending, i);
    Regroup(multiset(Without(s.pending, i)), TestsOf(s.running), multiset(s.finished), multiset{t});
  }

  lemma {:induction false} StartKeepsHosts(s: State, hosts: seq<Host>)
    requires HostsConserved(s, hosts) && CanStart(s)
    ensures HostsConserved(Start(s), hosts) && |s.free| <= |hosts|
  {
    var t := s.pending[FirstFit(s.pending, |s.free|)];
    Started(s, t, s.free);
    Sorting.SplitMultiset(s.free, t.hosts);
    Exchange(multiset(s.free[t.hosts..]), multiset(s.free[..t.hosts]), HostsOf(s.running));
    assert |multiset(hosts)| == |multiset(s.free)| + |HostsOf(s.running)|;
  }

  lemma {:induction false} StartConserves(s: State, tests: seq<Test>, hosts: seq<Host>)
    requires Conserves(s, tests, hosts) && CanStart(s)
    ensures Conserves(Start(s), tests, hosts)
  {
    StartKeepsTests(s, tests);
    StartKeepsHosts(s, hosts);
  }

  lemma {:induction false} FinishKeepsTests(s: State, k: nat, tests: seq<Test>)
    requires TestsConserved(s, tests) && k < |s.running|
    ensures TestsConserved(Finish(s, k), tests)
  {
    WithoutTest(s.running, k);
    Regroup(multiset(s.pending), TestsOf(Without(s.running, k)), multiset(s.finished), multiset{s.running[k].test});
  }

  lemma {:induction false} FinishKeepsHosts(s: State, k: nat, hosts: seq<Host>)
    requires HostsConserved(s, hosts) && k < |s.running|
    ensures HostsConserved(Finish(s, k), hosts)
  {
    WithoutHosts(s.running, k);
    Exchange(multiset(s.free), HostsOf(Without(s.running, k)), multiset(s.running[k].hosts));
  }

  lemma {:induction false} FinishConserves(s: State, k: nat, tests: seq<Test>, hosts: seq<Host>)
    requires Conserves(s, tests, hosts) && k < |s.running|
    ensures Conserves(Finish(s, k), tests, hosts)
  {
    FinishKeepsTests(s, k, tests);
    FinishKeepsHosts(s, k, hosts);
    var r := Without(s.running, k);
    forall j | 0 <= j < |r| ensures |r[j].hosts| == r[j].test.hosts && Fits(r[j].test, hosts) {
      assert r[j] == s.running[if j < k then j else j + 1];
    }
  }

  ghost predicate Run(trace: seq<State>, tests: seq<Test>, hosts: seq<Host>) {
    && trace != [] && multiset(trace[0].pending) == multiset(tests)
    && trace[0] == State(trace[0].pending, hosts, [], [], [])
    && forall i :: 0 <= i < |trace| - 1 ==> Next(trace[i], trace[i + 1])
  }

  lemma {:induction false} NextConserves(s: State, s': State, tests: seq<Test>, hosts: seq<Host>)
    requires Conserves(s, tests, hosts) && Next(s, s')
    ensures Conserves(s', tests, hosts)
  {
    if Ends(s, s') {
    } else if CanStart(s) {
      StartConserves(s, tests, hosts);
    } else {
      var k :| 0 <= k < |s.running| && (s' == Finish(s, k) || s' == TimeOut(s, k));
      FinishConserves(s, k, tests, hosts);
    }
  }

  /** In every state of every run, tests and hosts are conserved. */
  lemma {:induction false} RunConserves(trace: seq<State>, i: nat, tests: seq<Test>, hosts: seq<Host>)
    requires Run(trace, tests, hosts) && i < |trace|
    ensures Conserves(trace[i], tests, hosts)
  {
    if i > 0 {
      RunConserves(trace, i - 1, tests, hosts);
      assert Next(trace[i - 1], trace[i]);
      NextConserves(trace[i - 1], trace[i], tests, hosts);
    }
  }

  // ----- who uses a host --------------------------------------------------------------

  ghost predicate NoDuplicates(hosts: seq<Host>) {
    forall h :: multiset(hosts)[h] <= 1
  }

  lemma {:induction false} HostCounted(jobs: seq<Job>, k: nat, h: Host)
    requires k < |jobs| && h in jobs[k].hosts
    ensures HostsOf(jobs)[h] >= 1 + HostsOf(Without(jobs, k))[h]
  {
    WithoutHosts(jobs, k);
    assert h in multiset(jobs[k].hosts);
  }

  /** A host counted once among jobs is held by one of them. */
  lemma {:induction false} HeldOnce(jobs: seq<Job>, j: nat, k: nat, h: Host)
    requires HostsOf(jobs)[h] <= 1 && j < |jobs| && k < |jobs| && j != k && h in jobs[j].hosts
    ensures h !in jobs[k].hosts
  {
    var rest, k' := Without(jobs, j), if k < j then k else k - 1;
    assert rest[k'] == jobs[k];
    HostCounted(jobs, j, h);
    if h in jobs[k].hosts {
      HostCounted(rest, k', h);
    }
  }

  /** With distinct hosts, no host is held by two tests whose results are awaited, nor held and free. */
  lemma {:induction false} NoHostHandedOutTwice(
    trace: seq<State>, i: nat, tests: seq<Test>, hosts: seq<Host>, j: nat, k: nat, h: Host)
    requires Run(trace, tests, hosts) && i < |trace| && NoDuplicates(hosts)
    requires j < |trace[i].running| && k < |trace[i].running| && j != k && h in trace[i].running[j].hosts
    ensures h !in trace[i].running[k].hosts && h !in trace[i].free
  {
    RunConserves(trace, i, tests, hosts);
    var s := trace[i];
    assert multiset(hosts)[h] == multiset(s.free)[h] + HostsOf(s.running)[h];
    HeldOnce(s.running, j, k, h);
    WithoutHosts(s.running, j);
    assert h in multiset(s.running[j].hosts);
  }

  /** The commands that are alive: awaited or lingering. */
  function Live(s: State): seq<Job> {
    s.running + s.lingering
  }

  /** No host is used twice by the commands that are alive. */
  ghost predicate Exclusive(s: State) {
    forall h :: HostsOf(s.running)[h] + HostsOf(s.lingering)[h] <= 1
  }

  lemma {:induction false} HostsOfSnoc(jobs: seq<Job>, job: Job)
    ensures HostsOf(jobs + [job]) == HostsOf(jobs) + multiset(job.hosts)
  {
    var all := jobs + [job];
    assert all[..|all| - 1] == jobs;
  }

  lemma {:induction false} HostsOfConcat(a: seq<Job>, b: seq<Job>)
    ensures HostsOf(a + b) == HostsOf(a) + HostsOf(b)
  {
    if b == [] {
      assert a + b == a;
    } else {
      var front, last := b[..|b| - 1], b[|b| - 1];
      assert b == front + [last] && a + b == a + front + [last];
      HostsOfConcat(a, front);
      HostsOfSnoc(a + front, last);
    }
  }

  lemma {:induction false} ExclusiveHolders(s: State, j: nat, k: nat, h: Host)
    requires Exclusive(s) && j < |Live(s)| && k < |Live(s)| && j != k && h in Live(s)[j].hosts
    ensures h !in Live(s)[k].hosts
  {
    HostsOfConcat(s.running, s.lingering);
    assert HostsOf(s.running)[h] + HostsOf(s.lingering)[h] <= 1;
    HeldOnce(Live(s), j, k, h);
  }

  /** The test that is about to start is given no host that a lingering command still uses. */
  ghost predicate StartsClear(s: State)
    requires CanStart(s)
  {
    forall h :: h in Taken(s) ==> HostsOf(s.lingering)[h] == 0
  }

  /** Starting a test keeps hosts exclusive exactly if none of its hosts is used by a lingering command. */
  lemma {:induction false} StartExclusiveExactly(s: State, hosts: seq<Host>)
    requires HostsConserved(s, hosts) && NoDuplicates(hosts) && CanStart(s) && Exclusive(s)
    ensures Exclusive(Start(s)) <==> StartsClear(s)
  {
    var t := s.pending[FirstFit(s.pending, |s.free|)];
    Started(s, t, s.free);
    Sorting.SplitMultiset(s.free, t.hosts);
    forall h ensures HostsOf(Start(s).running)[h] + HostsOf(s.lingering)[h] <= 1 <==>
                     (h in Taken(s) ==> HostsOf(s.lingering)[h] == 0)
    {
      assert multiset(hosts)[h] == multiset(s.free)[h] + HostsOf(s.running)[h];
      assert h in Taken(s) <==> multiset(Taken(s))[h] > 0;
      assert HostsOf(s.running)[h] + HostsOf(s.lingering)[h] <= 1;
    }
    assert Start(s).lingering == s.lingering;
  }

  /** No other step makes two commands share a host. */
  lemma {:induction false} OthersKeepExclusive(s: State, s': State)
    requires Exclusive(s) && (Ends(s, s') || Receives(s, s'))
    ensures Exclusive(s')
  {
    if Ends(s, s') {
      var k :| 0 <= k < |s.lingering| && s' == End(s, k);
      WithoutHosts(s.lingering, k);
    } else {
      var k :| 0 <= k < |s.running| && (s' == Finish(s, k) || s' == TimeOut(s, k));
      WithoutHosts(s.running, k);
      HostsOfConcat(s.lingering, [s.running[k]]);
      assert [s.running[k]][..0] == [];
    }
    forall h ensures HostsOf(s'.running)[h] + HostsOf(s'.lingering)[h] <= 1 {
      assert HostsOf(s.running)[h] + HostsOf(s.lingering)[h] <= 1;
    }
  }

  /** Up to state n, every test started with hosts that no lingering command used. */
  ghost predicate AllClear(trace: seq<State>, n: nat) {
    forall i :: 0 <= i < n && i + 1 < |trace| && CanStart(trace[i]) && trace[i + 1] == Start(trace[i]) ==>
      StartsClear(trace[i])
  }

  ghost predicate AllExclusive(trace: seq<State>, n: nat) {
    forall i :: 0 <= i <= n && i < |trace| ==> Exclusive(trace[i])
  }

  lemma {:induction false} StepExclusiveExactly(trace: seq<State>, n: nat, tests: seq<Test>, hosts: seq<Host>)
    requires Run(trace, tests, hosts) && n + 1 < |trace| && NoDuplicates(hosts) && Exclusive(trace[n])
    ensures Exclusive(trace[n + 1]) <==>
            (CanStart(trace[n]) && trace[n + 1] == Start(trace[n]) ==> StartsClear(trace[n]))
  {
    var s, s' := trace[n], trace[n + 1];
    assert Next(s, s');
    RunConserves(trace, n, tests, hosts);
    if CanStart(s) && s' == Start(s) {
      StartExclusiveExactly(s, hosts);
    } else {
      OthersKeepExclusive(s, s');
    }
  }

  /**
    Exactly when no two live commands ever share a host in a run: when no test starts on a host that a
    command which outlived its timeout still uses.
   */
  lemma {:induction false} ExclusiveExactly(
    trace: seq<State>, n: nat, tests: seq<Test>, hosts: seq<Host>)
    requires Run(trace, tests, hosts) && n < |trace| && NoDuplicates(hosts)
    ensures AllExclusive(trace, n) <==> AllClear(trace, n)
  {
    if n == 0 {
      RunConserves(trace, 0, tests, hosts);
      assert forall h :: multiset(hosts)[h] <= 1;
    } else {
      ExclusiveExactly(trace, n - 1, tests, hosts);
      if AllExclusive(trace, n - 1) {
        assert Exclusive(trace[n - 1]);
        StepExclusiveExactly(trace, n - 1, tests, hosts);
      }
    }
  }

  /** In a run in which nothing times out, no host is ever used by two commands that are alive. */
  lemma {:induction false} NoHostShared(
    trace: seq<State>, i: nat, tests: seq<Test>, hosts: seq<Host>, j: nat, k: nat, h: Host)
    requires Run(trace, tests, hosts) && i < |trace| && NoDuplicates(hosts)
    requires forall n :: 0 <= n < |trace| ==> trace[n].lingering == []
    requires j < |Live(trace[i])| && k < |Live(trace[i])| && j != k && h in Live(trace[i])[j].hosts
    ensures h !in Live(trace[i])[k].hosts && h !in trace[i].free
  {
    ExclusiveExactly(trace, i, tests, hosts);
    assert AllClear(trace, i);
    ExclusiveHolders(trace[i], j, k, h);
    assert Live(trace[i]) == trace[i].running;
    RunConserves(trace, i, tests, hosts);
    assert multiset(hosts)[h] == multiset(trace[i].free)[h] + HostsOf(trace[i].running)[h];
    WithoutHosts(trace[i].running, j);
    assert h in multiset(trace[i].running[j].hosts);
  }

  /** With a timeout they may: a times out on the only host, and b starts there beside it. */
  lemma {:induction false} TimeoutShares(a: Test, b: Test, h: Host) returns (trace: seq<State>)
    requires a.hosts == 1 && b.hosts == 1
    ensures Run(trace, [a, b], [h])
    ensures var last := trace[|trace| - 1]; last.running == [Job(b, [h])] && last.lingering == [Job(a, [h])]
    ensures !Exclusive(trace[|trace| - 1])
  {
    var s0 := State([a, b], [h], [], [], []);
    var s1 := State([b], [], [Job(a, [h])], [], []);
    var s2 := State([b], [h], [], [a], [Job(a, [h])]);
    var s3 := State([], [], [Job(b, [h])], [a], [Job(a, [h])]);
    OnlyHostTaken(s0, h);
    assert [a, b][1..] == [b];
    TimesOutAlone(s1, h);
    assert [] + [a] == [a];
    OnlyHostTaken(s2, h);
    assert [b][1..] == [];
    trace := [s0, s1, s2, s3];
    FourStates(s0, s1, s2, s3, [a, b], [h]);
    SharedByTwo(s3, a, b, h);
  }

  lemma {:induction false} FourStates(s0: State, s1: State, s2: State, s3: State, tests: seq<Test>, hosts: seq<Host>)
    requires s0 == State(tests, hosts, [], [], []) && Next(s0, s1) && Next(s1, s2) && Next(s2, s3)
    ensures Run([s0, s1, s2, s3], tests, hosts)
  {
  }

  lemma {:induction false} SharedByTwo(s: State, a: Test, b: Test, h: Host)
    requires s.running == [Job(b, [h])] && s.lingering == [Job(a, [h])]
    ensures !Exclusive(s)
  {
    HostsOfOne(b, h);
    HostsOfOne(a, h);
    assert HostsOf(s.running)[h] + HostsOf(s.lingering)[h] == 2;
  }

  lemma {:induction false} OnlyHostTaken(s: State, h: Host)
    requires s.pending != [] && s.pending[0].hosts == 1 && s.free == [h] && s.running == []
    ensures CanStart(s)
    ensures Start(s) == s.(pending := s.pending[1..], free := [], running := [Job(s.pending[0], [h])])
  {
    assert FirstFit(s.pending, |s.free|) == 0;
    assert Without(s.pending, 0) == s.pending[1..];
    assert s.free[..1] == [h] && s.free[1..] == [];
  }

  lemma {:induction false} TimesOutAlone(s: State, h: Host)
    requires s.free == [] && |s.running| == 1 && s.running[0].hosts == [h] && s.lingering == []
    ensures var finished := s.finished + [s.running[0].test];
            !CanStart(s) && Receives(s, s.(free := [h], running := [], finished := finished, lingering := s.running))
  {
    assert Without(s.running, 0) == [];
    assert [] + s.running[0].hosts == [h];
    assert [] + [s.running[0]] == s.running;
    var finished := s.finished + [s.running[0].test];
    assert s.(free := [h], running := [], finished := finished, lingering := s.running) == TimeOut(s, 0);
  }

  lemma {:induction false} HostsOfOne(t: Test, h: Host)
    ensures HostsOf([Job(t, [h])])[h] == 1
  {
    var jobs := [Job(t, [h])];
    assert jobs[..0] == [];
    assert HostsOf(jobs) == HostsOf(jobs[..0]) + multiset(jobs[0].hosts);
  }

  // ----- the runner -------------------------------------------------------------------

  /** More hosts first, ties by name backwards: sort.Reverse of the tests' order. */
  predicate RunsBefore(a: Test, b: Test) {
    if a.hosts != b.hosts then a.hosts > b.hosts else Less(b.name, a.name)
  }

  lemma {:induction false} RunsBeforeIsOrder()
    ensures Sorting.StrictWeak(RunsBefore)
  {
    LessTotalOrder();
  }

  /** pick: removes and returns the first test that fits. */
  method Pick(ts: seq<Test>, available: nat) returns (found: bool, test: Test, rest: seq<Test>)
    ensures found <==> FirstFit(ts, available) < |ts|
    ensures found ==> test == ts[FirstFit(ts, available)] && rest == Without(ts, FirstFit(ts, available))
    ensures !found ==> rest == ts
  {
    var i := 0;
    while i < |ts|
      invariant i <= |ts|
      invariant forall k :: 0 <= k < i ==> ts[k].hosts > available
    {
      if ts[i].hosts <= available {
        assert i == FirstFit(ts, available);
        return true, ts[i], ts[..i] + ts[i + 1..];
      }
      i := i + 1;
    }
    return false, Test([], 0), ts;
  }

  datatype Verdict = Passed | Failed | Deadlock

  /** Every test can run at some time. */
  predicate Runnable(tests: seq<Test>, hosts: seq<Host>) {
    forall t :: t in tests ==> Fits(t, hosts)
  }

  lemma {:induction false} Stuck(s: State, tests: seq<Test>, hosts: seq<Host>)
    requires Conserves(s, tests, hosts) && !CanStart(s) && s.running == [] && s.pending != []
    ensures !Runnable(tests, hosts)
  {
    Sorting.SameMembers(s.free, hosts);
    var t := s.pending[0];
    assert t in multiset(s.pending) && t in multiset(tests);
    assert !Fits(t, hosts);
  }

  lemma {:induction false} AllRan(s: State, tests: seq<Test>, hosts: seq<Host>)
    requires Conserves(s, tests, hosts) && s.running == [] && s.pending == []
    ensures multiset(s.finished) == multiset(tests) && multiset(s.free) == multiset(hosts)
    ensures Runnable(tests, hosts)
  {
    Sorting.SameMembers(s.finished, tests);
  }

  /** sort.Sort(sort.Reverse(ts)): more hosts first, later names first among equals. */
  method SortTests(tests: seq<Test>) returns (ts: seq<Test>)
    ensures multiset(ts) == multiset(tests)
    ensures forall i, j :: 0 <= i < j < |ts| ==>
      ts[i].hosts >= ts[j].hosts && (ts[i].hosts == ts[j].hosts ==> !Less(ts[i].name, ts[j].name))
  {
    RunsBeforeIsOrder();
    ts := Sorting.Sort(tests, RunsBefore);
    forall i, j | 0 <= i < j < |ts|
      ensures ts[i].hosts >= ts[j].hosts && (ts[i].hosts == ts[j].hosts ==> !Less(ts[i].name, ts[j].name))
    {
      assert !RunsBefore(ts[j], ts[i]);
    }
  }

  /** The tests that come back with an error: those that fail and those that time out. */
  function Errs(fails: Test -> bool, slow: Test -> bool): Test -> bool {
    (t: Test) => fails(t) || slow(t)
  }

  /**
    parallel, where fails and slow say which tests fail and which time out.  The states it goes through
    are a run of the protocol; it returns with every test run exactly once and all hosts back in the pool
    if every test fits the pool, and otherwise comes to a receive from which nobody wakes it.
   */
  method Parallel(tests: seq<Test>, hosts: seq<Host>, fails: Test -> bool, slow: Test -> bool)
    returns (verdict: Verdict, failed: seq<Test>, ghost trace: seq<State>)
    ensures Run(trace, tests, hosts)
    ensures forall i, j :: 0 <= i < j < |trace[0].pending| ==> trace[0].pending[i].hosts >= trace[0].pending[j].hosts
    ensures verdict.Deadlock? <==> !Runnable(tests, hosts)
    ensures !verdict.Deadlock? ==>
      var last := trace[|trace| - 1];
      multiset(last.finished) == multiset(tests) && multiset(last.free) == multiset(hosts) && last.running == []
    ensures !verdict.Deadlock? ==> failed == Filter(trace[|trace| - 1].finished, Errs(fails, slow))
    ensures !verdict.Deadlock? ==> (verdict.Failed? <==> exists t :: t in tests && (fails(t) || slow(t)))
  {
    var ts := SortTests(tests);
    var s;
    s, failed, trace := RunAll(ts, hosts, fails, slow, tests);
    RunConserves(trace, |trace| - 1, tests, hosts);
    if |s.pending| > 0 {
      Stuck(s, tests, hosts);
      return Deadlock, failed, trace;
    }
    AllRan(s, tests, hosts);
    SomeFailed(s.finished, tests, fails, slow);
    verdict := if |failed| > 0 then Failed else Passed;
  }

  /** The outer loop: start what can start, then receive; it comes to an end or to a receive that nobody answers. */
  method RunAll(
    ts: seq<Test>, hosts: seq<Host>, fails: Test -> bool, slow: Test -> bool, ghost tests: seq<Test>)
    returns (s: State, failed: seq<Test>, ghost trace: seq<State>)
    requires multiset(ts) == multiset(tests)
    ensures Run(trace, tests, hosts) && trace[0].pending == ts && trace[|trace| - 1] == s
    ensures s.running == [] && (s.pending != [] ==> !CanStart(s))
    ensures failed == Filter(s.finished, Errs(fails, slow))
  {
    s := State(ts, hosts, [], [], []);
    failed := [];
    trace := [s];
    while |s.pending| > 0 || |s.running| > 0
      invariant Run(trace, tests, hosts) && trace[|trace| - 1] == s && trace[0].pending == ts
      invariant failed == Filter(s.finished, Errs(fails, slow))
      decreases 2 * |s.pending| + |s.running|
    {
      s, trace := StartTests(s, tests, hosts, trace);
      if |s.running| == 0 {
        return;
      }
      s, failed, trace := Receive(s, failed, fails, slow, tests, hosts, trace);
    }
  }

  lemma {:induction false} SomeFailed(finished: seq<Test>, tests: seq<Test>, fails: Test -> bool, slow: Test -> bool)
    requires multiset(finished) == multiset(tests)
    ensures Filter(finished, Errs(fails, slow)) != [] <==> exists t :: t in tests && (fails(t) || slow(t))
  {
    var failed := Filter(finished, Errs(fails, slow));
    Sorting.SameMembers(finished, tests);
    FilterMembers(finished, Errs(fails, slow));
    assert failed != [] ==> failed[0] in failed;
  }

  lemma {:induction false} FilterStep(finished: seq<Test>, t: Test, keep: Test -> bool)
    ensures Filter(finished + [t], keep) == if keep(t) then Filter(finished, keep) + [t] else Filter(finished, keep)
  {
    FilterConcat(finished, [t], keep);
    if keep(t) {
      FilterAll([t], keep);
    } else {
      FilterNone([t], keep);
    }
  }

  /** The receive: whichever result comes next. */
  method Receive(
    s0: State, failed0: seq<Test>, fails: Test -> bool, slow: Test -> bool,
    ghost tests: seq<Test>, ghost hosts: seq<Host>, ghost trace0: seq<State>)
    returns (s: State, failed: seq<Test>, ghost trace: seq<State>)
    requires Run(trace0, tests, hosts) && trace0[|trace0| - 1] == s0 && !CanStart(s0) && s0.running != []
    requires failed0 == Filter(s0.finished, Errs(fails, slow))
    ensures trace0 <= trace
    ensures Run(trace, tests, hosts) && trace[|trace| - 1] == s
    ensures failed == Filter(s.finished, Errs(fails, slow))
    ensures s.pending == s0.pending && |s.running| == |s0.running| - 1
  {
    var k :| 0 <= k < |s0.running|;
    var test := s0.running[k].test;
    failed := if fails(test) || slow(test) then failed0 + [test] else failed0;
    FilterStep(s0.finished, test, Errs(fails, slow));
    s := if slow(test) then TimeOut(s0, k) else Finish(s0, k);
    assert Receives(s0, s);
    RunExtends(trace0, s, tests, hosts);
    trace := trace0 + [s];
  }

  /** Some of the commands that outlived their timeout end. */
  method Reap(s0: State, ghost tests: seq<Test>, ghost hosts: seq<Host>, ghost trace0: seq<State>)
    returns (s: State, ghost trace: seq<State>)
    requires Run(trace0, tests, hosts) && trace0[|trace0| - 1] == s0
    ensures trace0 <= trace
    ensures Run(trace, tests, hosts) && trace[|trace| - 1] == s && s == s0.(lingering := s.lingering)
  {
    s, trace := s0, trace0;
    var more: bool := *;
    while more && s.lingering != []
      invariant trace0 <= trace
      invariant Run(trace, tests, hosts) && trace[|trace| - 1] == s && s == s0.(lingering := s.lingering)
      decreases |s.lingering|
    {
      var k :| 0 <= k < |s.lingering|;
      assert Ends(s, End(s, k));
      RunExtends(trace, End(s, k), tests, hosts);
      s := End(s, k);
      trace := trace + [s];
      more := *;
    }
  }

  lemma {:induction false} RunExtends(trace: seq<State>, s: State, tests: seq<Test>, hosts: seq<Host>)
    requires Run(trace, tests, hosts) && Next(trace[|trace| - 1], s)
    ensures Run(trace + [s], tests, hosts)
  {
    var t := trace + [s];
    forall i | 0 <= i < |t| - 1 ensures Next(t[i], t[i + 1]) {
      assert i < |trace| - 1 ==> t[i + 1] == trace[i + 1];
    }
  }

  /** The inner loop: while there are free hosts, start the first test that fits. */
  method StartTests(s0: State, ghost tests: seq<Test>, ghost hosts: seq<Host>, ghost trace0: seq<State>)
    returns (s: State, ghost trace: seq<State>)
    requires Run(trace0, tests, hosts) && trace0[|trace0| - 1] == s0
    ensures trace0 <= trace
    ensures Run(trace, tests, hosts) && trace[|trace| - 1] == s && !CanStart(s)
    ensures s.finished == s0.finished && |s.pending| + |s.running| == |s0.pending| + |s0.running|
    ensures |s.pending| <= |s0.pending|
  {
    s, trace := s0, trace0;
    while |s.free| > 0
      invariant trace0 <= trace
      invariant Run(trace, tests, hosts) && trace[|trace| - 1] == s
      invariant s.finished == s0.finished && |s.pending| + |s.running| == |s0.pending| + |s0.running|
      invariant |s.pending| <= |s0.pending|
      decreases |s.pending|
    {
      var found, test, rest := Pick(s.pending, |s.free|);
      if !found {
        break;
      }
      RunExtends(trace, Start(s), tests, hosts);
      s := s.(pending := rest, free := s.free[test.hosts..], running := s.running + [Job(test, s.free[..test.hosts])]);
      trace := trace + [s];
      s, trace := Reap(s, tests, hosts, trace);
    }
  }
}
