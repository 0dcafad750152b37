/**
  Any number of Puts and Gets and an evicting cache at work on the three stores.  Each Put and Get is a
  process with a program counter of its own; it looks only at what it has done itself, and may stop
  anywhere.  What every interleaving keeps is proved from the order of each process's steps.
 */
module StoreProtocol {
  import opened Options
  import opened ByteStrings
  import opened Buckets
  import opened Keys
  import opened ChunkLists
  import opened ChunkIndex
  import opened Answers
  import opened IndexWrites
  import Seqs

  // ----- actions on the stores ------------------------------------------------------------------

  /** What one atomic step does to the stores. */
  datatype Action =
    | Issue(entries: set<Entry>)
    | PutBlob(entry: Entry)
    | Cache(entry: Entry)
    | Evict(keys: set<Bytes>)
    | PutRow(key: RowKey, meta: Meta)
    | Complete(entries: set<Entry>)

  function Apply(w: World, a: Action): World {
    match a
    case Issue(es) => w.(issued := w.issued + es)
    case PutBlob(e) => WithBlob(w, e)
    case Cache(e) => WithCached(w, e)
    case Evict(keys) => w.(cache := w.cache - keys)
    case PutRow(k, meta) => WithRow(w, k, meta)
    case Complete(es) => w.(done := w.done + es)
  }

  /** When an action respects the invariant; that processes take no other actions is to be proved. */
  ghost predicate Lawful(w: World, a: Action) {
    match a
    case Issue(es) => WriteOnce(w.issued + es)
    case PutBlob(e) => e in w.issued
    case Cache(e) => e in w.issued && BlobName(e) in w.s3
    case Evict(_) => true
    case PutRow(k, meta) => RowBacked(w, k, meta)
    case Complete(es) => es <= w.issued && forall e :: e in es ==> FullyIndexed(w, e) && BlobName(e) in w.s3
  }

  lemma {:induction false} ActionKeepsValid(w: World, a: Action)
    requires Valid(w) && Lawful(w, a)
    ensures Valid(Apply(w, a)) && Grows(w, Apply(w, a))
  {
    match a
    case Issue(es) => IssueKeepsValid(w, es);
    case PutBlob(e) => BlobKeepsValid(w, e);
    case Cache(e) => CacheKeepsValid(w, e);
    case Evict(keys) => EvictionKeepsValid(w, keys);
    case PutRow(k, meta) => RowKeepsValid(w, k, meta);
    case Complete(es) => CompletionKeepsValid(w, es);
  }

  /** The writes that a request sends to an outside service. */
  predicate Sendable(a: Action) {
    a.PutBlob? || a.Cache? || a.PutRow?
  }

  /** What a request may send it may still send later. */
  lemma {:induction false} LawfulLater(w: World, w': World, a: Action)
    requires Grows(w, w') && Sendable(a) && Lawful(w, a)
    ensures Lawful(w', a)
  {
    CarryOver(w, w');
  }

  /** The write is in the stores; the cache may have lost it again. */
  predicate Written(w: World, a: Action) {
    match a
    case PutBlob(e) => BlobName(e) in w.s3
    case PutRow(k, _) => k in w.table
    case _ => true
  }

  lemma {:induction false} SendKeeps(w0: World, w: World, a: Action)
    requires Valid(w) && Grows(w0, w) && Sendable(a) && Lawful(w0, a)
    ensures Lawful(w, a) && Grows(w0, Apply(w, a)) && Written(Apply(w, a), a)
  {
    LawfulLater(w0, w, a);
    ActionKeepsValid(w, a);
    GrowsTransitive(w0, w, Apply(w, a));
  }

  // ----- processes ----------------------------------------------------------------------------------

  /**
    Where a Put is.  Its tasks, one per chunk and then one per row, run in any order: waiting holds those
    that have not finished, caching those whose blob is written and whose cache store is to come, wrote the
    rows that were written and acked those reported as written; a row may be left unprocessed in a batch that
    reports success.
   */
  datatype Stage =
    | Blobs(waiting: set<nat>, caching: set<nat>, failed: bool)
    | Rows(writes: seq<Write>, waiting: set<nat>, wrote: set<nat>, acked: set<nat>)
    | Returned(ok: bool, writes: seq<Write>, wrote: set<nat>, acked: set<nat>)

  datatype Put = Put(user: Bytes, chunks: seq<Chunk>, stage: Stage)

  /** All rows are in the set. */
  predicate Whole(writes: seq<Write>, rows: set<nat>) {
    forall i :: 0 <= i < |writes| ==> i in rows
  }

  /** A Get: the chunks found in the index, those filled with data, and whether a row or a blob was bad. */
  datatype Get = Get(user: Bytes, found: set<Chunk>, filled: set<Chunk>, broken: bool)

  datatype State = State(w: World, puts: map<nat, Put>, gets: map<nat, Get>)

  /**
    A write that reports a failure (ok is false) may still have been carried out (wrote), and a row whose
    batch reports success may not.
   */
  datatype Step =
    | BeginPut(p: nat, user: Bytes, chunks: seq<Chunk>)
    | SendBlob(p: nat, i: nat, wrote: bool, ok: bool)
    | CacheSent(p: nat, i: nat, wrote: bool)
    | BeginRows(p: nat, writes: seq<Write>)
    | SendRow(p: nat, i: nat, wrote: bool, ok: bool)
    | Succeed(p: nat)
    | Fail(p: nat)
    | BeginGet(g: nat, user: Bytes)
    | Find(g: nat, hour: int, name: Bytes, range: Bytes)
    | FetchCached(g: nat, c: Chunk)
    | FetchBlob(g: nat, c: Chunk)
    | CacheFetched(g: nat, c: Chunk)
    | Lose(keys: set<Bytes>)

  /** The process is at the step: nothing but its own program counter, and what a read finds. */
  ghost predicate Enabled(s: State, step: Step) {
    match step
    case BeginPut(p, user, chunks) => p !in s.puts && WriteOnce(s.w.issued + EntriesOf(user, chunks))
    case SendBlob(p, i, wrote, ok) =>
      && p in s.puts && s.puts[p].stage.Blobs? && i in s.puts[p].stage.waiting && i < |s.puts[p].chunks|
      && (ok ==> wrote)
    case CacheSent(p, i, _) =>
      p in s.puts && s.puts[p].stage.Blobs? && i in s.puts[p].stage.caching && i < |s.puts[p].chunks|
    case BeginRows(p, writes) =>
      && p in s.puts && s.puts[p].stage == Blobs({}, {}, false)
      && (forall c :: c in s.puts[p].chunks ==> Indexable(c))
      && (forall u :: u in writes <==> WriteForSome(s.puts[p].user, s.puts[p].chunks, u))
      && (|Ids(s.puts[p].chunks)| == |s.puts[p].chunks| ==> NoRepeat(writes))
    case SendRow(p, i, _, _) =>
      p in s.puts && s.puts[p].stage.Rows? && i in s.puts[p].stage.waiting && i < |s.puts[p].stage.writes|
    case Succeed(p) =>
      && p in s.puts && s.puts[p].stage.Rows? && s.puts[p].stage.waiting == {}
      && Whole(s.puts[p].stage.writes, s.puts[p].stage.acked)
    case Fail(p) => p in s.puts && !s.puts[p].stage.Returned?
    case BeginGet(g, user) => g !in s.gets && PlainUser(user)
    case Find(g, hour, name, range) => g in s.gets && (HashValue(s.gets[g].user, hour, name), range) in s.w.table
    case FetchCached(g, c) => g in s.gets && c in s.gets[g].found && ChunkName(s.gets[g].user, c.id) in s.w.cache
    case FetchBlob(g, c) => g in s.gets && c in s.gets[g].found
    case CacheFetched(g, c) => g in s.gets && c in s.gets[g].filled
    case Lose(_) => true
  }

  /** The row that a scan of the partition finds under a range key. */
  function ItemAt(s: State, g: nat, hour: int, name: Bytes, range: Bytes): Item
    requires g in s.gets && (HashValue(s.gets[g].user, hour, name), range) in s.w.table
  {
    Item(range, s.w.table[(HashValue(s.gets[g].user, hour, name), range)])
  }

  /** What the step writes to the stores. */
  function Effect(s: State, step: Step): Option<Action>
    requires Enabled(s, step)
  {
    match step
    case BeginPut(_, user, chunks) => Some(Issue(EntriesOf(user, chunks)))
    case SendBlob(p, i, wrote, _) =>
      if wrote then Some(PutBlob(Entry(s.puts[p].user, s.puts[p].chunks[i]))) else None
    case CacheSent(p, i, wrote) =>
      if wrote then Some(Cache(Entry(s.puts[p].user, s.puts[p].chunks[i]))) else None
    case SendRow(p, i, wrote, _) =>
      var u := s.puts[p].stage.writes[i];
      if wrote then Some(PutRow(u.key, u.meta)) else None
    case Succeed(p) =>
      if !Whole(s.puts[p].stage.writes, s.puts[p].stage.wrote) then None
      else Some(Complete(EntriesOf(s.puts[p].user, s.puts[p].chunks)))
    case CacheFetched(g, c) => Some(Cache(Entry(s.gets[g].user, c)))
    case Lose(keys) => Some(Evict(keys))
    case _ => None
  }

  /** The Put after its step. */
  function PutAfter(s: State, step: Step): Put
    requires Enabled(s, step) && Moves(step)
  {
    match step
    case BeginPut(_, user, chunks) => Put(user, chunks, Blobs(Indices(|chunks|), {}, false))
    case SendBlob(p, i, _, ok) =>
      var st := s.puts[p].stage;
      s.puts[p].(stage := Blobs(st.waiting - {i}, if ok then st.caching + {i} else st.caching, st.failed || !ok))
    case CacheSent(p, i, _) => s.puts[p].(stage := s.puts[p].stage.(caching := s.puts[p].stage.caching - {i}))
    case BeginRows(p, writes) => s.puts[p].(stage := Rows(writes, Indices(|writes|), {}, {}))
    case SendRow(p, i, wrote, ok) =>
      var st := s.puts[p].stage;
      var more, acks := if wrote then {i} else {}, if ok then {i} else {};
      s.puts[p].(stage := Rows(st.writes, st.waiting - {i}, st.wrote + more, st.acked + acks))
    case Succeed(p) =>
      var st := s.puts[p].stage;
      s.puts[p].(stage := Returned(true, st.writes, st.wrote, st.acked))
    case Fail(p) =>
      var st := s.puts[p].stage;
      if st.Rows? then s.puts[p].(stage := Returned(false, st.writes, st.wrote, st.acked))
      else s.puts[p].(stage := Returned(false, [], {}, {}))
  }

  /** A step of a Put. */
  predicate Moves(step: Step) {
    || step.BeginPut? || step.SendBlob? || step.CacheSent?
    || step.BeginRows? || step.SendRow? || step.Succeed? || step.Fail?
  }

  /** A step of a Get. */
  predicate Reads(step: Step) {
    step.BeginGet? || step.Find? || step.FetchCached? || step.FetchBlob? || step.CacheFetched?
  }

  /** The Get after its step. */
  function GetAfter(s: State, step: Step): Get
    requires Enabled(s, step) && Reads(step)
  {
    match step
    case BeginGet(_, user) => Get(user, {}, {}, false)
    case Find(g, hour, name, range) =>
      var d := Decoded(ItemAt(s, g, hour, name, range));
      if d.Some? then s.gets[g].(found := s.gets[g].found + {d.value.2}) else s.gets[g].(broken := true)
    case FetchCached(g, c) =>
      s.gets[g].(filled := s.gets[g].filled + {c.(data := s.w.cache[ChunkName(s.gets[g].user, c.id)])})
    case FetchBlob(g, c) =>
      var k := ChunkName(s.gets[g].user, c.id);
      if k in s.w.s3 then s.gets[g].(filled := s.gets[g].filled + {c.(data := s.w.s3[k])})
      else s.gets[g].(broken := true)
    case CacheFetched(g, _) => s.gets[g]
  }

  function After(s: State, step: Step): State
    requires Enabled(s, step)
  {
    var a := Effect(s, step);
    State(
      if a.None? then s.w else Apply(s.w, a.value),
      if Moves(step) then s.puts[step.p := PutAfter(s, step)] else s.puts,
      if Reads(step) then s.gets[step.g := GetAfter(s, step)] else s.gets)
  }

  // ----- what each process has established ---------------------------------------------------------

  /** writes are the rows of the Put's chunks. */
  ghost predicate RowsOf(p: Put, writes: seq<Write>) {
    && (forall u :: u in writes <==> WriteForSome(p.user, p.chunks, u))
    && (|Ids(p.chunks)| == |p.chunks| ==> NoRepeat(writes))
  }

  ghost predicate InTable(w: World, writes: seq<Write>, wrote: set<nat>) {
    forall i :: i in wrote && i < |writes| ==> writes[i].key in w.table
  }

  ghost predicate PutTrue(w: World, p: Put) {
    EntriesOf(p.user, p.chunks) <= w.issued &&
    match p.stage
    case Blobs(waiting, caching, failed) =>
      && (forall i :: i in caching && i < |p.chunks| ==> Stored(w, p.chunks[i], p.user))
      && (!failed ==> forall i :: 0 <= i < |p.chunks| && i !in waiting ==> Stored(w, p.chunks[i], p.user))
    case Rows(writes, _, wrote, _) =>
      && AllStored(w, p.chunks, p.user) && (forall c :: c in p.chunks ==> Indexable(c))
      && RowsOf(p, writes) && InTable(w, writes, wrote)
    case Returned(ok, writes, wrote, acked) =>
      && InTable(w, writes, wrote) && (writes != [] || ok ==> RowsOf(p, writes))
      && (ok ==> Whole(writes, acked) && AllStored(w, p.chunks, p.user))
      && (ok && Whole(writes, wrote) ==> EntriesOf(p.user, p.chunks) <= w.done)
  }

  /** What a Get holds are chunks that were put, every row decoded and no blob was missing. */
  ghost predicate GetTrue(w: World, g: Get) {
    && PlainUser(g.user) && !g.broken
    && (forall c :: c in g.found ==> Known(w, c, g.user))
    && (forall c :: c in g.filled ==> Stored(w, c, g.user))
  }

  ghost predicate Sound(s: State) {
    && Valid(s.w)
    && (forall p :: p in s.puts ==> PutTrue(s.w, s.puts[p]))
    && (forall g :: g in s.gets ==> GetTrue(s.w, s.gets[g]))
  }

  lemma {:induction false} PutLater(w: World, w': World, p: Put)
    requires Grows(w, w') && PutTrue(w, p)
    ensures PutTrue(w', p)
  {
  }

  lemma {:induction false} GetLater(w: World, w': World, g: Get)
    requires Grows(w, w') && GetTrue(w, g)
    ensures GetTrue(w', g)
  {
    forall c | c in g.found ensures Known(w', c, g.user) {
      KnownGrows(w, w', c, g.user);
    }
  }

  lemma {:induction false} AddFound(w: World, g: Get, c: Chunk)
    requires GetTrue(w, g) && Known(w, c, g.user)
    ensures GetTrue(w, g.(found := g.found + {c}))
  {
  }

  lemma {:induction false} AddFilled(w: World, g: Get, c: Chunk)
    requires GetTrue(w, g) && Stored(w, c, g.user)
    ensures GetTrue(w, g.(filled := g.filled + {c}))
  {
  }

  lemma {:induction false} RowLawful(w: World, p: Put, i: nat)
    requires PutTrue(w, p) && p.stage.Rows? && i < |p.stage.writes|
    ensures RowBacked(w, p.stage.writes[i].key, p.stage.writes[i].meta)
  {
    WritesBacked(w, p.user, p.chunks, p.stage.writes);
    assert p.stage.writes[i] in p.stage.writes;
  }

  lemma {:induction false} CompletionLawful(w: World, p: Put)
    requires PutTrue(w, p) && p.stage.Rows? && Whole(p.stage.writes, p.stage.wrote)
    ensures Lawful(w, Complete(EntriesOf(p.user, p.chunks)))
  {
    var ws := p.stage.writes;
    assert Seqs.Flatten([ws]) == ws by {
      assert [ws][1..] == [] && ws + [] == ws;
    }
    IndexComplete(w, p.user, p.chunks, ws, [ws], [ws]);
  }

  /** Each process has established what its next action needs. */
  lemma {:induction false} EffectLawful(s: State, step: Step)
    requires Sound(s) && Enabled(s, step) && Effect(s, step).Some?
    ensures Lawful(s.w, Effect(s, step).value)
  {
    if Moves(step) && !step.BeginPut? {
      assert PutTrue(s.w, s.puts[step.p]);
    }
    match step
    case SendBlob(p, i, _, _) => assert s.puts[p].chunks[i] in s.puts[p].chunks;
    case SendRow(p, i, _, _) => RowLawful(s.w, s.puts[p], i);
    case Succeed(p) => CompletionLawful(s.w, s.puts[p]);
    case _ =>
  }

  lemma {:induction false} WorldStep(s: State, step: Step)
    requires Sound(s) && Enabled(s, step)
    ensures Valid(After(s, step).w) && Grows(s.w, After(s, step).w)
  {
    if Effect(s, step).Some? {
      EffectLawful(s, step);
    }
    TakenOrNot(s.w, Effect(s, step));
  }

  lemma {:induction false} TakenOrNot(w: World, a: Option<Action>)
    requires Valid(w) && (a.Some? ==> Lawful(w, a.value))
    ensures var w' := if a.None? then w else Apply(w, a.value);
            Valid(w') && Grows(w, w')
  {
    if a.Some? {
      ActionKeepsValid(w, a.value);
    }
  }

  lemma {:induction false} BlobStep(s: State, step: Step)
    requires Enabled(s, step) && step.SendBlob? && PutTrue(s.w, s.puts[step.p]) && Grows(s.w, After(s, step).w)
    ensures PutTrue(After(s, step).w, PutAfter(s, step))
  {
    var w', p := After(s, step).w, s.puts[step.p];
    PutLater(s.w, w', p);
    assert p.chunks[step.i] in p.chunks;
    assert step.ok ==> Stored(w', p.chunks[step.i], p.user);
  }

  lemma {:induction false} RowStep(s: State, step: Step)
    requires Enabled(s, step) && step.SendRow? && PutTrue(s.w, s.puts[step.p]) && Grows(s.w, After(s, step).w)
    ensures PutTrue(After(s, step).w, PutAfter(s, step))
  {
    var w', p := After(s, step).w, s.puts[step.p];
    PutLater(s.w, w', p);
    assert step.wrote ==> p.stage.writes[step.i].key in w'.table;
  }

  lemma {:induction false} QuietStep(s: State, step: Step)
    requires Enabled(s, step) && (step.CacheSent? || step.BeginRows? || step.Succeed? || step.Fail?)
    requires PutTrue(After(s, step).w, s.puts[step.p])
    ensures PutTrue(After(s, step).w, PutAfter(s, step))
  {
  }

  lemma {:induction false} PutStep(s: State, step: Step)
    requires Enabled(s, step) && Moves(step) && Grows(s.w, After(s, step).w)
    requires !step.BeginPut? ==> PutTrue(s.w, s.puts[step.p])
    ensures PutTrue(After(s, step).w, PutAfter(s, step))
  {
    if step.SendBlob? {
      BlobStep(s, step);
    } else if step.SendRow? {
      RowStep(s, step);
    } else if !step.BeginPut? {
      PutLater(s.w, After(s, step).w, s.puts[step.p]);
      QuietStep(s, step);
    }
  }

  lemma {:induction false} FoundKnown(w: World, user: Bytes, hour: int, name: Bytes, range: Bytes)
    requires Valid(w) && PlainUser(user) && (HashValue(user, hour, name), range) in w.table
    ensures var d := Decoded(Item(range, w.table[(HashValue(user, hour, name), range)]));
            d.Some? && Known(w, d.value.2, user)
  {
    var item := Item(range, w.table[(HashValue(user, hour, name), range)]);
    PartitionHoldsOwnRows(w, user, hour, name, range);
    var e, l :| ItemOf(w, item, user, hour, name, e, l);
    KnownItemDecodes(w, item, user, hour, name, e, l);
    assert Known(w, WithoutData(e.chunk), user);
  }

  lemma {:induction false} FindStep(s: State, step: Step)
    requires Sound(s) && Enabled(s, step) && step.Find?
    ensures GetTrue(s.w, GetAfter(s, step))
  {
    var g, item := s.gets[step.g], ItemAt(s, step.g, step.hour, step.name, step.range);
    FoundKnown(s.w, g.user, step.hour, step.name, step.range);
    AddFound(s.w, g, Decoded(item).value.2);
  }

  lemma {:induction false} FetchStep(s: State, step: Step)
    requires Sound(s) && Enabled(s, step) && (step.FetchCached? || step.FetchBlob?)
    ensures GetTrue(s.w, GetAfter(s, step))
  {
    var g, c := s.gets[step.g], step.c;
    assert GetTrue(s.w, g) && Known(s.w, c, g.user);
    FillKnown(s.w, c, g.user);
    AddFilled(s.w, g, c.(data := s.w.s3[ChunkName(g.user, c.id)]));
  }

  lemma {:induction false} GetStep(s: State, step: Step)
    requires Sound(s) && Enabled(s, step) && Reads(step)
    ensures GetTrue(s.w, GetAfter(s, step))
  {
    match step
    case Find(_, _, _, _) => FindStep(s, step);
    case FetchCached(_, _) => FetchStep(s, step);
    case FetchBlob(_, _) => FetchStep(s, step);
    case _ =>
  }

  lemma {:induction false} PutsStep(s: State, step: Step, p: nat)
    requires Sound(s) && Enabled(s, step) && Grows(s.w, After(s, step).w) && p in After(s, step).puts
    ensures PutTrue(After(s, step).w, After(s, step).puts[p])
  {
    if Moves(step) && step.p == p {
      PutStep(s, step);
    } else {
      PutLater(s.w, After(s, step).w, s.puts[p]);
    }
  }

  lemma {:induction false} GetsStep(s: State, step: Step, g: nat)
    requires Sound(s) && Enabled(s, step) && Grows(s.w, After(s, step).w) && g in After(s, step).gets
    ensures GetTrue(After(s, step).w, After(s, step).gets[g])
  {
    if Reads(step) && step.g == g {
      GetStep(s, step);
      GetLater(s.w, After(s, step).w, GetAfter(s, step));
    } else {
      GetLater(s.w, After(s, step).w, s.gets[g]);
    }
  }

  lemma {:induction false} StepKeepsSound(s: State, step: Step)
    requires Sound(s) && Enabled(s, step)
    ensures Sound(After(s, step)) && Grows(s.w, After(s, step).w)
  {
    WorldStep(s, step);
    forall p | p in After(s, step).puts ensures PutTrue(After(s, step).w, After(s, step).puts[p]) {
      PutsStep(s, step, p);
    }
    forall g | g in After(s, step).gets ensures GetTrue(After(s, step).w, After(s, step).gets[g]) {
      GetsStep(s, step, g);
    }
  }

  // ----- whole runs -------------------------------------------------------------------------------

  ghost predicate Run(states: seq<State>, steps: seq<Step>) {
    && |states| == |steps| + 1 && states[0] == State(World(map[], map[], map[], {}, {}), map[], map[])
    && forall i :: 0 <= i < |steps| ==> Enabled(states[i], steps[i]) && states[i + 1] == After(states[i], steps[i])
  }

  /**
    At every moment of every interleaving: each index row belongs to a chunk whose blob is in S3, each
    blob is the data of its chunk, each cached value is the blob of its key, a Put that returned success
    with no row left unprocessed has all its rows, and every Get holds only what was put; and later moments
    only add to earlier ones.
   */
  lemma {:induction false} EveryInterleaving(states: seq<State>, steps: seq<Step>, i: nat, j: nat)
    requires Run(states, steps) && i <= j < |states|
    ensures Sound(states[j]) && Grows(states[i].w, states[j].w)
  {
    if j > 0 {
      EveryInterleaving(states, steps, if i < j then i else j - 1, j - 1);
      StepKeepsSound(states[j - 1], steps[j - 1]);
      if i < j {
        GrowsTransitive(states[i].w, states[j - 1].w, states[j].w);
      }
    }
  }

  /** At every moment the cache agrees with S3, and S3 with the chunks that were put. */
  lemma {:induction false} BlobsAlwaysTrue(states: seq<State>, steps: seq<Step>, n: nat, k: Bytes, e: Entry)
    requires Run(states, steps) && n < |states|
    ensures k in states[n].w.cache ==> k in states[n].w.s3 && states[n].w.cache[k] == states[n].w.s3[k]
    ensures e in states[n].w.issued && ChunkName(e.user, e.chunk.id) in states[n].w.s3 ==>
      states[n].w.s3[ChunkName(e.user, e.chunk.id)] == e.chunk.data
  {
    EveryInterleaving(states, steps, n, n);
    assert BlobName(e) == ChunkName(e.user, e.chunk.id);
  }

  /** At every moment a row is that of a label of a chunk that was put, and the chunk's blob is in S3. */
  lemma {:induction false} RowsAlwaysBacked(states: seq<State>, steps: seq<Step>, n: nat, k: RowKey)
    returns (e: Entry, hour: int, l: Bytes)
    requires Run(states, steps) && n < |states| && k in states[n].w.table
    ensures e in states[n].w.issued && ChunkName(e.user, e.chunk.id) in states[n].w.s3
    ensures NAME in e.chunk.metric && l in e.chunk.metric && l != NAME
    ensures Hour(e.chunk.from) <= hour <= Hour(e.chunk.through)
    ensures k.0 == HashValue(e.user, hour, e.chunk.metric[NAME])
    ensures k.1 == RangeValue(l, e.chunk.metric[l], e.chunk.id)
    ensures states[n].w.table[k] == Meta(e.chunk.from, e.chunk.through, e.chunk.metric)
  {
    EveryInterleaving(states, steps, n, n);
    var w := states[n].w;
    assert Backed(w, k);
    e, hour, l :|
      && e in w.issued && Indexed(e.chunk, hour, l) && k == RowKeyOf(e, hour, l)
      && w.table[k] == MetaOf(e.chunk) && BlobName(e) in w.s3;
  }

  /** A Put returns success only after all its blobs were stored and all its rows were reported as written. */
  lemma {:induction false} SuccessMeans(states: seq<State>, steps: seq<Step>, n: nat, p: nat, c: Chunk, i: nat)
    requires Run(states, steps) && n < |states| && p in states[n].puts
    requires states[n].puts[p].stage.Returned? && states[n].puts[p].stage.ok
    ensures c in states[n].puts[p].chunks ==> ChunkName(states[n].puts[p].user, c.id) in states[n].w.s3
    ensures i < |states[n].puts[p].stage.writes| ==> i in states[n].puts[p].stage.acked
  {
    EveryInterleaving(states, steps, n, n);
    assert PutTrue(states[n].w, states[n].puts[p]);
  }

  /** Anything may fail at any time, and what fails may have been carried out. */
  lemma {:induction false} FailuresArePossible(s: State, p: nat, i: nat, wrote: bool, keys: set<Bytes>)
    ensures Enabled(s, Lose(keys)) && After(s, Lose(keys)).w.cache == s.w.cache - keys
    ensures p in s.puts && !s.puts[p].stage.Returned? ==>
      Enabled(s, Fail(p)) && After(s, Fail(p)).w == s.w && !After(s, Fail(p)).puts[p].stage.ok
    ensures p in s.puts && s.puts[p].stage.Blobs? && i in s.puts[p].stage.waiting && i < |s.puts[p].chunks| ==>
      Enabled(s, SendBlob(p, i, wrote, false))
    ensures p in s.puts && s.puts[p].stage.Rows? && i in s.puts[p].stage.waiting && i < |s.puts[p].stage.writes| ==>
      Enabled(s, SendRow(p, i, wrote, false)) && Enabled(s, SendRow(p, i, wrote, true))
  {
  }

  /** Once a Put returned success with no row left unprocessed, every label but the name has its row in every hour. */
  lemma {:induction false} DoneAlwaysIndexed(
    states: seq<State>, steps: seq<Step>, n: nat, p: nat, c: Chunk, hour: int, l: Bytes)
    requires Run(states, steps) && n < |states| && p in states[n].puts
    requires states[n].puts[p].stage.Returned? && states[n].puts[p].stage.ok
    requires forall i :: 0 <= i < |states[n].puts[p].stage.writes| ==> i in states[n].puts[p].stage.wrote
    requires c in states[n].puts[p].chunks && l in c.metric && l != NAME && Hour(c.from) <= hour <= Hour(c.through)
    ensures var user := states[n].puts[p].user;
            && ChunkName(user, c.id) in states[n].w.s3 && NAME in c.metric
            && (HashValue(user, hour, c.metric[NAME]), RangeValue(l, c.metric[l], c.id)) in states[n].w.table
  {
    EveryInterleaving(states, steps, n, n);
    var w, put := states[n].w, states[n].puts[p];
    assert PutTrue(w, put) && Whole(put.stage.writes, put.stage.wrote);
    var e := Entry(put.user, c);
    assert e in EntriesOf(put.user, put.chunks) && e in w.done;
    assert FullyIndexed(w, e) && BlobName(e) in w.s3;
    assert Indexed(c, hour, l) && RowKeyOf(e, hour, l) in w.table;
  }

  /** No Get ever meets a bad row or asks S3 for a missing blob, however long ago it found the row. */
  lemma {:induction false} NoMissingBlob(states: seq<State>, steps: seq<Step>, i: nat, g: nat, c: Chunk)
    requires Run(states, steps) && i < |states| && g in states[i].gets
    ensures !states[i].gets[g].broken
    ensures c in states[i].gets[g].found ==> ChunkName(states[i].gets[g].user, c.id) in states[i].w.s3
  {
    EveryInterleaving(states, steps, i, i);
    assert GetTrue(states[i].w, states[i].gets[g]);
  }
}
