/**
  The put limiter of chunk/chunk_store.go and chunk/semaphore.go.  A Put goes through phases
  (one task per chunk, then one per batch).  In each phase the parent acquires a permit and spawns a
  task, for every task in turn, and only then receives the results; a task sends its result on an
  unbuffered channel first and releases its permit afterwards.  A phase with an error is the last.
 */
module Limiter {

  // ----- sums over sequences ------------------------------------------------------------------

  ghost function Sum<T>(s: seq<T>, f: T -> int): int {
    if s == [] then 0 else Sum(s[..|s| - 1], f) + f(s[|s| - 1])
  }

  lemma {:induction false} SumUpdate<T>(s: seq<T>, i: nat, x: T, f: T -> int)
    requires i < |s|
    ensures Sum(s[i := x], f) == Sum(s, f) - f(s[i]) + f(x)
  {
    var n, s' := |s| - 1, s[i := x];
    if i == n {
      assert s'[..n] == s[..n];
    } else {
      assert s'[..n] == s[..n][i := x];
      SumUpdate(s[..n], i, x, f);
    }
  }

  lemma {:induction false} SumAtMost<T>(s: seq<T>, f: T -> int, g: T -> int)
    requires forall i :: 0 <= i < |s| ==> f(s[i]) <= g(s[i])
    ensures Sum(s, f) <= Sum(s, g)
  {
    if s != [] {
      SumAtMost(s[..|s| - 1], f, g);
    }
  }

  /** If f sums up to more than g, it is larger somewhere. */
  lemma {:induction false} SumAbove<T>(s: seq<T>, f: T -> int, g: T -> int) returns (i: nat)
    requires Sum(s, f) > Sum(s, g)
    ensures i < |s| && f(s[i]) > g(s[i])
  {
    if f(s[|s| - 1]) > g(s[|s| - 1]) {
      i := |s| - 1;
    } else {
      i := SumAbove(s[..|s| - 1], f, g);
    }
  }

  // ----- Puts -----------------------------------------------------------------------------------

  /**
    A Put in its current phase of n tasks: how many it has spawned and received, how many tasks have
    sent but not yet released, whether one of them sent an error, and the sizes of the phases to come.
   */
  datatype Put = Put(n: nat, spawned: nat, received: nat, unreleased: nat, failed: bool, todo: seq<nat>)

  datatype State = State(free: nat, puts: seq<Put>)

  datatype Step = Spawn(i: nat) | Receive(i: nat, err: bool) | Release(i: nat) | NextPhase(i: nat) | Abandon(i: nat)

  predicate Enabled(s: State, step: Step) {
    step.i < |s.puts| && var p := s.puts[step.i];
    match step
    case Spawn(_) => p.spawned < p.n && s.free > 0
    case Receive(_, _) => p.spawned == p.n && p.received < p.n
    case Release(_) => p.unreleased > 0
    case NextPhase(_) => p.received == p.n && p.todo != [] && !p.failed
    case Abandon(_) => p.received == p.n && p.todo != [] && p.failed
  }

  function Apply(s: State, step: Step): State
    requires Enabled(s, step)
  {
    var i := step.i;
    var p := s.puts[i];
    match step
    case Spawn(_) => State(s.free - 1, s.puts[i := p.(spawned := p.spawned + 1)])
    case Receive(_, err) =>
      var q := p.(received := p.received + 1, unreleased := p.unreleased + 1, failed := p.failed || err);
      State(s.free, s.puts[i := q])
    case Release(_) => State(s.free + 1, s.puts[i := p.(unreleased := p.unreleased - 1)])
    case NextPhase(_) => State(s.free, s.puts[i := Put(p.todo[0], 0, 0, p.unreleased, false, p.todo[1..])])
    case Abandon(_) => State(s.free, s.puts[i := p.(todo := [])])
  }

  /** The Put has returned and its last task has released. */
  predicate Finished(p: Put) {
    p.received == p.n && p.todo == [] && p.unreleased == 0
  }

  predicate AllFinished(s: State) {
    forall i :: 0 <= i < |s.puts| ==> Finished(s.puts[i])
  }

  /** Somebody still waits and nobody can move. */
  ghost predicate Stuck(s: State) {
    !AllFinished(s) && forall step :: !Enabled(s, step)
  }

  /** Permits held: by tasks that have not sent and by tasks that have not released. */
  function Held(p: Put): int {
    p.spawned - p.received + p.unreleased
  }

  predicate Sane(p: Put) {
    p.received <= p.spawned <= p.n && (p.received > 0 ==> p.spawned == p.n)
  }

  /** Permits are conserved. */
  ghost predicate Conserved(s: State, size: nat) {
    s.free + Sum(s.puts, Held) == size && forall i :: 0 <= i < |s.puts| ==> Sane(s.puts[i])
  }

  ghost predicate Start(s: State, size: nat) {
    s.free == size && forall i :: 0 <= i < |s.puts| ==> Fresh(s.puts[i])
  }

  /** A Put at the beginning of a phase. */
  predicate Fresh(p: Put) {
    p.spawned == 0 && p.received == 0 && p.unreleased == 0 && !p.failed
  }

  ghost predicate Run(states: seq<State>, steps: seq<Step>, size: nat) {
    && |states| == |steps| + 1 && Start(states[0], size)
    && forall k :: 0 <= k < |steps| ==> Enabled(states[k], steps[k]) && states[k + 1] == Apply(states[k], steps[k])
  }

  lemma {:induction false} StepConserves(s: State, step: Step, size: nat)
    requires Conserved(s, size) && Enabled(s, step)
    ensures Conserved(Apply(s, step), size)
  {
    SumUpdate(s.puts, step.i, Apply(s, step).puts[step.i], Held);
  }

  lemma {:induction false} HeldAtStart(puts: seq<Put>)
    requires forall i :: 0 <= i < |puts| ==> Fresh(puts[i])
    ensures Sum(puts, Held) == 0
  {
    if puts != [] {
      HeldAtStart(puts[..|puts| - 1]);
    }
  }

  /** Free plus held permits equal the size of the limiter in every reachable state. */
  lemma {:induction false} RunConserves(states: seq<State>, steps: seq<Step>, size: nat, k: nat)
    requires Run(states, steps, size) && k < |states|
    ensures Conserved(states[k], size)
  {
    if k == 0 {
      HeldAtStart(states[0].puts);
    } else {
      RunConserves(states, steps, size, k - 1);
      StepConserves(states[k - 1], steps[k - 1], size);
    }
  }

  // ----- progress ---------------------------------------------------------------------------------

  /** What is left to do at most, counting one for every step to come. */
  function Work(p: Put): int {
    3 * (p.n - p.spawned) + 2 * (p.spawned - p.received) + p.unreleased + WorkLater(p.todo)
  }

  function WorkLater(todo: seq<nat>): nat {
    if todo == [] then 0 else 3 * todo[0] + 1 + WorkLater(todo[1..])
  }

  /** Every step takes at least one unit of the remaining work, so every run is finite. */
  lemma {:induction false} StepWorks(s: State, step: Step)
    requires Enabled(s, step) && Sane(s.puts[step.i])
    ensures Sum(Apply(s, step).puts, Work) <= Sum(s.puts, Work) - 1
  {
    SumUpdate(s.puts, step.i, Apply(s, step).puts[step.i], Work);
  }

  /** The most permits a Put can hold in one phase while it still waits for another. */
  function Slack(p: Put): int {
    SlackOf(p.n, p.todo)
  }

  function SlackOf(n: nat, todo: seq<nat>): (x: nat)
    ensures n > 0 ==> x >= n - 1
    decreases todo
  {
    var here := if n == 0 then 0 else n - 1;
    if todo == [] then here
    else
      var later := SlackOf(todo[0], todo[1..]);
      if here < later then later else here
  }

  lemma {:induction false} SlackFalls(s: State, step: Step)
    requires Enabled(s, step)
    ensures Sum(Apply(s, step).puts, Slack) <= Sum(s.puts, Slack)
  {
    SumUpdate(s.puts, step.i, Apply(s, step).puts[step.i], Slack);
  }

  /** The most permits a Put can hold now while it still waits for another. */
  function SlackNow(p: Put): int {
    if p.spawned < p.n then p.n - 1 else 0
  }

  lemma {:induction false} SomeStep(s: State, size: nat) returns (step: Step)
    requires Conserved(s, size) && Sum(s.puts, SlackNow) < size && !AllFinished(s)
    ensures Enabled(s, step)
  {
    var i :| 0 <= i < |s.puts| && !Finished(s.puts[i]);
    if j :| 0 <= j < |s.puts| && s.puts[j].unreleased > 0 {
      step := Release(j);
    } else if j :| 0 <= j < |s.puts| && s.puts[j].spawned == s.puts[j].n && !Finished(s.puts[j]) {
      var p := s.puts[j];
      step := if p.received < p.n then Receive(j, false) else if p.failed then Abandon(j) else NextPhase(j);
    } else {
      forall j | 0 <= j < |s.puts| ensures Held(s.puts[j]) <= SlackNow(s.puts[j]) {
        assert Sane(s.puts[j]);
      }
      SumAtMost(s.puts, Held, SlackNow);
      step := Spawn(i);
    }
  }

  /**
    In any state in which the phases that are still being spawned, less one task each, add up to less
    than the limiter's size, somebody can move, whatever phases are to come.
   */
  lemma {:induction false} NotStuckNow(s: State, size: nat)
    requires Conserved(s, size) && Sum(s.puts, SlackNow) < size
    ensures !Stuck(s)
  {
    if !AllFinished(s) {
      var step := SomeStep(s, size);
    }
  }

  lemma {:induction false} SlackInRun(states: seq<State>, steps: seq<Step>, size: nat, k: nat)
    requires Run(states, steps, size) && k < |states|
    ensures Sum(states[k].puts, Slack) <= Sum(states[0].puts, Slack)
  {
    if k > 0 {
      SlackInRun(states, steps, size, k - 1);
      SlackFalls(states[k - 1], steps[k - 1]);
    }
  }

  /** No run of Puts whose slacks add up to less than the size is ever stuck. */
  lemma {:induction false} NeverStuck(states: seq<State>, steps: seq<Step>, size: nat, k: nat)
    requires Run(states, steps, size) && k < |states| && Sum(states[0].puts, Slack) < size
    ensures !Stuck(states[k])
  {
    RunConserves(states, steps, size, k);
    SlackInRun(states, steps, size, k);
    SumAtMost(states[k].puts, SlackNow, Slack);
    NotStuckNow(states[k], size);
  }

  lemma {:induction false} WorkInRun(states: seq<State>, steps: seq<Step>, size: nat, k: nat)
    requires Run(states, steps, size) && k < |states|
    ensures Sum(states[k].puts, Work) <= Sum(states[0].puts, Work) - k
  {
    if k > 0 {
      WorkInRun(states, steps, size, k - 1);
      RunConserves(states, steps, size, k - 1);
      StepWorks(states[k - 1], steps[k - 1]);
    }
  }

  lemma {:induction false} WorkBounds(puts: seq<Put>)
    requires forall i :: 0 <= i < |puts| ==> Sane(puts[i])
    ensures Sum(puts, Work) >= 0
  {
    if puts != [] {
      WorkBounds(puts[..|puts| - 1]);
    }
  }

  /** No run takes more steps than there was work at the start. */
  lemma {:induction false} RunsEnd(states: seq<State>, steps: seq<Step>, size: nat)
    requires Run(states, steps, size)
    ensures |steps| <= Sum(states[0].puts, Work)
  {
    WorkInRun(states, steps, size, |steps|);
    RunConserves(states, steps, size, |steps|);
    WorkBounds(states[|steps|].puts);
  }

  // ----- the bound is needed ------------------------------------------------------------------------

  /** A Put in a phase of more tasks than there are permits never receives a result, so it never returns. */
  lemma {:induction false} TooManyTasksNeverReturn(states: seq<State>, steps: seq<Step>, size: nat, k: nat, i: nat)
    requires Run(states, steps, size) && k < |states| && i < |states[k].puts| && states[k].puts[i].n > size
    ensures states[k].puts[i].received == 0 && !Finished(states[k].puts[i])
  {
    if k > 0 {
      var s, step := states[k - 1], steps[k - 1];
      var p := s.puts[i];
      if step != NextPhase(i) {
        TooManyTasksNeverReturn(states, steps, size, k - 1, i);
        RunConserves(states, steps, size, k - 1);
        HeldBounds(s.puts, i);
        assert p.spawned < p.n;
      }
    }
  }

  lemma {:induction false} HeldBounds(puts: seq<Put>, i: nat)
    requires i < |puts| && forall j :: 0 <= j < |puts| ==> Sane(puts[j])
    ensures 0 <= Held(puts[i]) <= Sum(puts, Held)
    ensures Sum(puts, Held) >= 0
  {
    var n := |puts| - 1;
    if n > 0 {
      HeldBounds(puts[..n], if i < n then i else 0);
    }
    assert Sane(puts[n]) && Sane(puts[i]);
  }

  ghost predicate Reachable(s: State, start: State, size: nat) {
    exists states, steps :: Run(states, steps, size) && states[0] == start && states[|states| - 1] == s
  }

  lemma {:induction false} ReachableStep(s: State, step: Step, start: State, size: nat)
    requires Reachable(s, start, size) && Enabled(s, step)
    ensures Reachable(Apply(s, step), start, size)
  {
    var states, steps :| Run(states, steps, size) && states[0] == start && states[|states| - 1] == s;
    var states', steps' := states + [Apply(s, step)], steps + [step];
    forall k | 0 <= k < |steps'|
      ensures Enabled(states'[k], steps'[k]) && states'[k + 1] == Apply(states'[k], steps'[k])
    {
      if k < |steps| {
        assert states'[k] == states[k] && states'[k + 1] == states[k + 1];
      }
    }
    assert Run(states', steps', size) && states'[0] == start;
  }

  /** Every Put is still spawning and short of its last task, or has finished. */
  ghost predicate Spawning(s: State) {
    forall i :: 0 <= i < |s.puts| ==>
      Finished(s.puts[i]) || (s.puts[i].spawned < s.puts[i].n && s.puts[i].received == 0 && s.puts[i].unreleased == 0)
  }

  /** How many more tasks a Put can spawn and still be short of its last. */
  function Room(p: Put): int {
    if p.spawned < p.n then p.n - 1 - p.spawned else 0
  }

  function Zero(p: Put): int {
    0
  }

  lemma {:induction false} SumZero(puts: seq<Put>)
    ensures Sum(puts, Zero) == 0
  {
    if puts != [] {
      SumZero(puts[..|puts| - 1]);
    }
  }

  /** As long as permits remain there is a Put that can take one without completing its phase. */
  lemma {:induction false} FillUp(s: State, u: nat, start: State, size: nat) returns (end: State)
    requires Reachable(s, start, size) && Spawning(s) && Sum(s.puts, Room) >= s.free
    requires u < |s.puts| && s.puts[u].spawned < s.puts[u].n && s.puts[u].received == 0
    ensures Reachable(end, start, size) && Stuck(end)
    decreases s.free
  {
    if s.free == 0 {
      end := s;
      assert !Finished(s.puts[u]);
    } else {
      SumZero(s.puts);
      var i := SumAbove(s.puts, Room, Zero);
      ReachableStep(s, Spawn(i), start, size);
      SumUpdate(s.puts, i, Apply(s, Spawn(i)).puts[i], Room);
      end := FillUp(Apply(s, Spawn(i)), u, start, size);
    }
  }

  // ----- driving a Put on its own through a phase ---------------------------------------------------

  lemma {:induction false} SpawnAll(s: State, i: nat, start: State, size: nat)
    requires Reachable(s, start, size) && i < |s.puts|
    requires s.puts[i].spawned <= s.puts[i].n && s.puts[i].n - s.puts[i].spawned <= s.free
    ensures var p := s.puts[i];
            Reachable(State(s.free - (p.n - p.spawned), s.puts[i := p.(spawned := p.n)]), start, size)
    decreases s.puts[i].n - s.puts[i].spawned
  {
    var p := s.puts[i];
    if p.spawned == p.n {
      assert s.puts[i := p] == s.puts;
    } else {
      ReachableStep(s, Spawn(i), start, size);
      SpawnAll(Apply(s, Spawn(i)), i, start, size);
      assert Apply(s, Spawn(i)).puts[i := p.(spawned := p.n)] == s.puts[i := p.(spawned := p.n)];
    }
  }

  lemma {:induction false} ReceiveAll(s: State, i: nat, start: State, size: nat)
    requires Reachable(s, start, size) && i < |s.puts|
    requires s.puts[i].received <= s.puts[i].spawned == s.puts[i].n
    ensures var p := s.puts[i];
            var q := p.(received := p.n, unreleased := p.unreleased + p.n - p.received);
            Reachable(State(s.free, s.puts[i := q]), start, size)
    decreases s.puts[i].n - s.puts[i].received
  {
    var p := s.puts[i];
    var q := p.(received := p.n, unreleased := p.unreleased + p.n - p.received);
    if p.received == p.n {
      assert s.puts[i := p] == s.puts;
    } else {
      ReachableStep(s, Receive(i, false), start, size);
      ReceiveAll(Apply(s, Receive(i, false)), i, start, size);
      assert Apply(s, Receive(i, false)).puts[i := q] == s.puts[i := q];
    }
  }

  lemma {:induction false} ReleaseAll(s: State, i: nat, start: State, size: nat)
    requires Reachable(s, start, size) && i < |s.puts|
    ensures var p := s.puts[i];
            Reachable(State(s.free + p.unreleased, s.puts[i := p.(unreleased := 0)]), start, size)
    decreases s.puts[i].unreleased
  {
    var p := s.puts[i];
    if p.unreleased == 0 {
      assert s.puts[i := p] == s.puts;
    } else {
      ReachableStep(s, Release(i), start, size);
      ReleaseAll(Apply(s, Release(i)), i, start, size);
      assert Apply(s, Release(i)).puts[i := p.(unreleased := 0)] == s.puts[i := p.(unreleased := 0)];
    }
  }

  function Advanced(p: Put): Put
    requires p.todo != []
  {
    Put(p.todo[0], 0, 0, 0, false, p.todo[1..])
  }

  lemma {:induction false} CompletePhase(s: State, i: nat, start: State, size: nat)
    requires Reachable(s, start, size) && i < |s.puts|
    requires Fresh(s.puts[i]) && s.puts[i].n <= s.free && s.puts[i].todo != []
    ensures Reachable(State(s.free, s.puts[i := Advanced(s.puts[i])]), start, size)
  {
    var p := s.puts[i];
    SpawnAll(s, i, start, size);
    var s1 := State(s.free - p.n, s.puts[i := p.(spawned := p.n)]);
    ReceiveAll(s1, i, start, size);
    var q := p.(spawned := p.n, received := p.n, unreleased := p.n);
    var s2 := State(s1.free, s1.puts[i := q]);
    ReleaseAll(s2, i, start, size);
    var s3 := State(s.free, s2.puts[i := q.(unreleased := 0)]);
    ReachableStep(s3, NextPhase(i), start, size);
    assert Apply(s3, NextPhase(i)).puts == s.puts[i := Advanced(p)];
  }

  // ----- exactly when Puts can deadlock -----------------------------------------------------------------

  function Later(p: Put): int {
    |p.todo|
  }

  lemma {:induction false} LaterBounds(puts: seq<Put>)
    ensures Sum(puts, Later) >= 0
  {
    if puts != [] {
      LaterBounds(puts[..|puts| - 1]);
    }
  }

  lemma {:induction false} RoomOfOne(puts: seq<Put>, i: nat)
    requires i < |puts| && puts[i].spawned < puts[i].n
    ensures Sum(puts, Room) >= Room(puts[i])
  {
    var z := puts[i].(n := 1 + puts[i].spawned);
    SumUpdate(puts, i, z, Room);
    SumZero(puts[i := z]);
    SumAtMost(puts[i := z], Zero, Room);
  }

  /** One Put on its own goes through a phase that fits, and all slack that counts is still to come. */
  lemma {:induction false} Advance(s: State, i: nat, start: State, size: nat) returns (s': State)
    requires Reachable(s, start, size) && Start(s, size) && i < |s.puts|
    requires s.puts[i].todo != [] && s.puts[i].n <= size && (s.puts[i].n == 0 || Slack(s.puts[i]) > Room(s.puts[i]))
    ensures Reachable(s', start, size) && Start(s', size)
    ensures Sum(s'.puts, Slack) == Sum(s.puts, Slack) && 0 <= Sum(s'.puts, Later) < Sum(s.puts, Later)
  {
    var p := s.puts[i];
    CompletePhase(s, i, start, size);
    s' := State(s.free, s.puts[i := Advanced(p)]);
    SumUpdate(s.puts, i, Advanced(p), Slack);
    SumUpdate(s.puts, i, Advanced(p), Later);
    LaterBounds(s'.puts);
  }

  /**
    Empty phases are passed first; then each Put is driven on its own to its largest phase; then all
    take permits until none is left.
   */
  lemma {:induction false} Provoke(s: State, start: State, size: nat) returns (end: State)
    requires Reachable(s, start, size) && Start(s, size) && 0 < size <= Sum(s.puts, Slack)
    ensures Reachable(end, start, size) && Stuck(end)
    decreases Sum(s.puts, Later)
  {
    if i :| 0 <= i < |s.puts| && s.puts[i].n == 0 && s.puts[i].todo != [] {
      var s' := Advance(s, i, start, size);
      end := Provoke(s', start, size);
    } else if i :| 0 <= i < |s.puts| && Slack(s.puts[i]) > Room(s.puts[i]) {
      if s.puts[i].n > size {
        RoomOfOne(s.puts, i);
        end := FillUp(s, i, start, size);
      } else {
        var s' := Advance(s, i, start, size);
        end := Provoke(s', start, size);
      }
    } else {
      SumAtMost(s.puts, Slack, Room);
      SumZero(s.puts);
      var i := SumAbove(s.puts, Room, Zero);
      end := FillUp(s, i, start, size);
    }
  }

  /**
    Exactly when Puts can deadlock: when the sizes of their largest phases, less one each, add up to the
    size of the limiter or more.  Phases may be empty.
   */
  lemma {:induction false} DeadlockExactly(start: State, size: nat)
    requires size > 0 && Start(start, size)
    ensures (exists s :: Reachable(s, start, size) && Stuck(s)) <==> Sum(start.puts, Slack) >= size
  {
    if s :| Reachable(s, start, size) && Stuck(s) {
      var states, steps :| Run(states, steps, size) && states[0] == start && states[|states| - 1] == s;
      if Sum(start.puts, Slack) < size {
        NeverStuck(states, steps, size, |states| - 1);
      }
    }
    if Sum(start.puts, Slack) >= size {
      assert Run([start], [], size) && [start][0] == start && [start][|[start]| - 1] == start;
      var end := Provoke(start, start, size);
    }
  }

  const MAX_CONCURRENT_PUTS := 100

  /** A Put of some chunks that make some batches, about to start. */
  function NewPut(chunks: nat, batches: nat): Put {
    Put(chunks, 0, 0, 0, false, [batches])
  }

  /** On its own, a Put can deadlock if and only if it has more than a hundred chunks or batches. */
  lemma {:induction false} LonePut(chunks: nat, batches: nat)
    ensures var start := State(MAX_CONCURRENT_PUTS, [NewPut(chunks, batches)]);
            (exists s :: Reachable(s, start, MAX_CONCURRENT_PUTS) && Stuck(s)) <==>
            chunks > MAX_CONCURRENT_PUTS || batches > MAX_CONCURRENT_PUTS
  {
    var p := NewPut(chunks, batches);
    var start := State(MAX_CONCURRENT_PUTS, [p]);
    DeadlockExactly(start, MAX_CONCURRENT_PUTS);
    assert p.todo[1..] == [];
    assert SlackOf(batches, []) == if batches == 0 then 0 else batches - 1;
    var most := if chunks < batches then batches else chunks;
    assert Slack(p) == if most == 0 then 0 else most - 1;
    assert start.puts[..0] == [];
    assert Sum(start.puts, Slack) == Sum(start.puts[..0], Slack) + Slack(p);
  }

  /** On its own, a Put takes at most three steps for every chunk and every batch, and one more. */
  lemma {:induction false} LonePutSteps(states: seq<State>, steps: seq<Step>, chunks: nat, batches: nat)
    requires Run(states, steps, MAX_CONCURRENT_PUTS)
    requires states[0] == State(MAX_CONCURRENT_PUTS, [NewPut(chunks, batches)])
    ensures |steps| <= 3 * chunks + 3 * batches + 1
  {
    RunsEnd(states, steps, MAX_CONCURRENT_PUTS);
    var p := NewPut(chunks, batches);
    assert p.todo[1..] == [];
    assert WorkLater([batches]) == 3 * batches + 1 + WorkLater([]);
    assert states[0].puts[..0] == [];
    assert Sum(states[0].puts, Work) == Sum(states[0].puts[..0], Work) + Work(p);
  }

  /** A Put with an error does not go on to another phase: all it can do about later phases is drop them. */
  lemma {:induction false} ErrorsAreLast(s: State, step: Step, i: nat)
    requires Enabled(s, step) && i < |s.puts| && s.puts[i].failed
    ensures var p, q := s.puts[i], Apply(s, step).puts[i];
            q.failed && q.n == p.n && (q.todo == p.todo || q.todo == [])
  {
  }
}
