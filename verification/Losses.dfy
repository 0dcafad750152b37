/**
  Two ways in which a chunk whose Put returned success is not found: DynamoDB leaves its row unprocessed,
  or answers a query in more than one page.  Both are shown by runs of the store protocol.
 */
module Losses {
  import opened Options
  import opened ByteStrings
  import opened Buckets
  import opened Keys
  import opened ChunkLists
  import opened ChunkIndex
  import opened Answers
  import opened IndexWrites
  import opened StoreProtocol
  import Seqs
  import Paging

  // ----- chunks with a single row ---------------------------------------------------------------

  const A: Bytes := [97]
  const X: Bytes := [120]

  /** A chunk of hour 0 with the label a besides its name. */
  function Plain(id: Bytes, name: Bytes): Chunk {
    Chunk(id, 0, 0, map[NAME := name, A := X], [])
  }

  /** The matcher a="x". */
  function MatchA(): (m: Matcher)
    ensures m.Scannable() && m.name == A && m.Match(X)
  {
    Matcher(Equal, A, X, (_: Bytes) => false)
  }

  /** u is the only row to write for the entry. */
  ghost predicate OnlyRow(e: Entry, u: Write) {
    && Indexable(e.chunk) && Indexed(e.chunk, 0, A) && u == WriteOf(e.user, e.chunk, 0, A)
    && forall hour, l :: Indexed(e.chunk, hour, l) ==> hour == 0 && l == A
  }

  lemma {:induction false} PlainRow(e: Entry, name: Bytes)
    requires NullFree(e.chunk.id) && e.chunk == Plain(e.chunk.id, name)
    ensures Indexed(e.chunk, 0, A) && OnlyRow(e, WriteOf(e.user, e.chunk, 0, A))
  {
    assert A[0] != NAME[0];
  }

  lemma {:induction false} PlainScanned(e: Entry, name: Bytes)
    requires NullFree(e.chunk.id) && e.chunk == Plain(e.chunk.id, name)
    ensures A in e.chunk.metric && NAME in e.chunk.metric
    ensures RowKeyOf(e, 0, A).0 == HashValue(e.user, 0, name)
    ensures Paging.InBounds(RangeOf(e.chunk, A), Paging.BoundsOf(Some(MatchA())))
    ensures Hits(e.chunk, 0, name, Some(MatchA()))
  {
    assert A[0] != NAME[0];
    ScanCovers(MatchA(), X, e.chunk.id);
  }

  lemma {:induction false} OnlyWrite(e: Entry, u: Write)
    requires OnlyRow(e, u)
    ensures forall v :: v in [u] <==> WriteForSome(e.user, [e.chunk], v)
    ensures forall c :: c in [e.chunk] ==> Indexable(c)
  {
    assert WriteFor(e.user, e.chunk, u);
    assert e.chunk in [e.chunk];
  }

  const ONE: set<nat> := {0}

  /** The rows written of the only one. */
  function Sent(wrote: bool): set<nat> {
    if wrote then ONE else {}
  }

  // ----- a Put of one such chunk, step by step --------------------------------------------------------

  ghost predicate Reachable(s: State) {
    exists states, steps :: Run(states, steps) && states[|states| - 1] == s
  }

  lemma {:induction false} ReachableNext(s: State, step: Step)
    requires Reachable(s) && Enabled(s, step)
    ensures Reachable(After(s, step))
  {
    var states, steps :| Run(states, steps) && states[|states| - 1] == s;
    var states', steps' := states + [After(s, step)], steps + [step];
    forall i | 0 <= i < |steps'|
      ensures Enabled(states'[i], steps'[i]) && states'[i + 1] == After(states'[i], steps'[i])
    {
      assert i < |steps| ==> states'[i] == states[i] && states'[i + 1] == states[i + 1];
    }
    assert Run(states', steps');
  }

  lemma {:induction false} ReachableSound(s: State)
    requires Reachable(s)
    ensures Sound(s)
  {
    var states, steps :| Run(states, steps) && states[|states| - 1] == s;
    EveryInterleaving(states, steps, |states| - 1, |states| - 1);
  }

  /** The state in which the Put of e is at a stage. */
  function At(s: State, w: World, p: nat, e: Entry, stage: Stage): State {
    State(w, s.puts[p := Put(e.user, [e.chunk], stage)], s.gets)
  }

  lemma {:induction false} Begun(s: State, p: nat, e: Entry)
    requires Reachable(s) && p !in s.puts && WriteOnce(s.w.issued + {e})
    ensures Reachable(At(s, s.w.(issued := s.w.issued + {e}), p, e, Blobs(ONE, {}, false)))
  {
    assert EntriesOf(e.user, [e.chunk]) == {e} by {
      assert e.chunk in [e.chunk];
    }
    assert Indices(1) == ONE;
    ReachableNext(s, BeginPut(p, e.user, [e.chunk]));
  }

  lemma {:induction false} BlobSent(s: State, w: World, p: nat, e: Entry)
    requires Reachable(At(s, w, p, e, Blobs(ONE, {}, false)))
    ensures Reachable(At(s, WithBlob(w, e), p, e, Blobs({}, ONE, false)))
  {
    ReachableNext(At(s, w, p, e, Blobs(ONE, {}, false)), SendBlob(p, 0, true, true));
    assert ONE - {0} == {} && {} + ONE == ONE;
  }

  lemma {:induction false} NotCached(s: State, w: World, p: nat, e: Entry)
    requires Reachable(At(s, w, p, e, Blobs({}, ONE, false)))
    ensures Reachable(At(s, w, p, e, Blobs({}, {}, false)))
  {
    ReachableNext(At(s, w, p, e, Blobs({}, ONE, false)), CacheSent(p, 0, false));
    assert ONE - {0} == {};
  }

  lemma {:induction false} RowsEnabled(s: State, w: World, p: nat, e: Entry, u: Write)
    requires OnlyRow(e, u)
    ensures Enabled(At(s, w, p, e, Blobs({}, {}, false)), BeginRows(p, [u]))
  {
    OnlyWrite(e, u);
  }

  lemma {:induction false} RowsBegun(s: State, w: World, p: nat, e: Entry, u: Write)
    requires Reachable(At(s, w, p, e, Blobs({}, {}, false))) && OnlyRow(e, u)
    ensures Reachable(At(s, w, p, e, Rows([u], ONE, {}, {})))
  {
    RowsEnabled(s, w, p, e, u);
    ReachableNext(At(s, w, p, e, Blobs({}, {}, false)), BeginRows(p, [u]));
    assert Indices(1) == ONE;
  }

  lemma {:induction false} RowSent(s: State, w: World, p: nat, e: Entry, u: Write, wrote: bool)
    requires Reachable(At(s, w, p, e, Rows([u], ONE, {}, {})))
    ensures Reachable(At(s, if wrote then WithRow(w, u.key, u.meta) else w, p, e, Rows([u], {}, Sent(wrote), ONE)))
  {
    ReachableNext(At(s, w, p, e, Rows([u], ONE, {}, {})), SendRow(p, 0, wrote, true));
    assert ONE - {0} == {} && {} + ONE == ONE && {} + {} == Sent(false);
  }

  lemma {:induction false} Succeeded(s: State, w: World, p: nat, e: Entry, u: Write, wrote: bool)
    requires Reachable(At(s, w, p, e, Rows([u], {}, Sent(wrote), ONE)))
    ensures Reachable(At(s, if wrote then w.(done := w.done + {e}) else w, p, e, Returned(true, [u], Sent(wrote), ONE)))
  {
    var s1 := At(s, w, p, e, Rows([u], {}, Sent(wrote), ONE));
    assert Whole([u], Sent(wrote)) <==> 0 in Sent(wrote);
    ReachableNext(s1, Succeed(p));
    assert EntriesOf(e.user, [e.chunk]) == {e} by {
      assert e.chunk in [e.chunk];
    }
  }

  /** A whole Put that returns success, its row written or left unprocessed. */
  lemma {:induction false} PutOne(s: State, p: nat, e: Entry, u: Write, wrote: bool) returns (s': State)
    requires Reachable(s) && p !in s.puts && WriteOnce(s.w.issued + {e}) && OnlyRow(e, u)
    ensures Reachable(s') && s'.puts == s.puts[p := Put(e.user, [e.chunk], Returned(true, [u], Sent(wrote), ONE))]
    ensures s'.w.table == if wrote then s.w.table[u.key := u.meta] else s.w.table
    ensures s'.w.issued == s.w.issued + {e} && s'.w.done == if wrote then s.w.done + {e} else s.w.done
  {
    Begun(s, p, e);
    var w := s.w.(issued := s.w.issued + {e});
    BlobSent(s, w, p, e);
    w := WithBlob(w, e);
    NotCached(s, w, p, e);
    RowsBegun(s, w, p, e, u);
    RowSent(s, w, p, e, u, wrote);
    w := if wrote then WithRow(w, u.key, u.meta) else w;
    Succeeded(s, w, p, e, u, wrote);
    s' := At(s, if wrote then w.(done := w.done + {e}) else w, p, e, Returned(true, [u], Sent(wrote), ONE));
  }

  const START := State(World(map[], map[], map[], {}, {}), map[], map[])

  lemma {:induction false} StartReachable()
    ensures Reachable(START)
  {
    assert Run([START], []) && [START][|[START]| - 1] == START;
  }

  // ----- a row left unprocessed -------------------------------------------------------------------

  /** A Put returns success, its row was left unprocessed, and no query finds the chunk, on any pages. */
  lemma {:induction false} UnprocessedIsLost(user: Bytes, name: Bytes, id: Bytes) returns (s: State, lost: Entry)
    requires PlainUser(user) && NullFree(id)
    ensures lost.chunk == Plain(id, name) && Indexed(lost.chunk, 0, A)
    ensures Reachable(s)
    ensures s.puts == map[0 := Put(user, [lost.chunk], Returned(true, [WriteOf(user, lost.chunk, 0, A)], {}, {0}))]
    ensures lost.user == user && lost.chunk.id == id && lost in s.w.issued
    ensures Hits(lost.chunk, 0, name, Some(MatchA()))
    ensures forall pages ::
      Paging.IsAnswer(pages, s.w.table, HashValue(user, 0, name), Paging.BoundsOf(Some(MatchA()))) ==> pages[0] == []
  {
    lost := Entry(user, Plain(id, name));
    PlainRow(lost, name);
    PlainScanned(lost, name);
    StartReachable();
    s := PutOne(START, 0, lost, WriteOf(user, lost.chunk, 0, A), false);
    forall pages |
      Paging.IsAnswer(pages, s.w.table, HashValue(user, 0, name), Paging.BoundsOf(Some(MatchA())))
      ensures pages[0] == []
    {
      Paging.FirstPage(pages, s.w.table, HashValue(user, 0, name), Paging.BoundsOf(Some(MatchA())));
    }
  }

  /** The Put has written row k, as its i-th. */
  ghost predicate Wrote(p: Put, i: nat, k: RowKey) {
    !p.stage.Blobs? && i < |p.stage.writes| && i in p.stage.wrote && p.stage.writes[i].key == k
  }

  /** Every row in the table was written by a Put. */
  ghost predicate Origin(s: State, k: RowKey) {
    exists p: nat, i: nat :: p in s.puts && Wrote(s.puts[p], i, k)
  }

  lemma {:induction false} WroteLater(s: State, step: Step, p: nat, i: nat, k: RowKey)
    requires Enabled(s, step) && p in s.puts && Wrote(s.puts[p], i, k)
    ensures p in After(s, step).puts && Wrote(After(s, step).puts[p], i, k)
  {
  }

  lemma {:induction false} OriginStep(s: State, step: Step, k: RowKey)
    requires Enabled(s, step) && k in After(s, step).w.table && (k in s.w.table ==> Origin(s, k))
    ensures Origin(After(s, step), k)
  {
    if k in s.w.table {
      var p: nat, i: nat :| p in s.puts && Wrote(s.puts[p], i, k);
      WroteLater(s, step, p, i, k);
    } else {
      assert Wrote(After(s, step).puts[step.p], step.i, k);
    }
  }

  lemma {:induction false} RowsHaveOrigin(states: seq<State>, steps: seq<Step>, n: nat, k: RowKey)
    requires Run(states, steps) && n < |states| && k in states[n].w.table
    ensures Origin(states[n], k)
  {
    if n > 0 {
      if k in states[n - 1].w.table {
        RowsHaveOrigin(states, steps, n - 1, k);
      }
      OriginStep(states[n - 1], steps[n - 1], k);
    }
  }

  /** No other Put has a chunk of this one. */
  ghost predicate PutOnce(s: State, p: nat)
    requires p in s.puts
  {
    forall q, c :: q in s.puts && q != p && s.puts[q].user == s.puts[p].user && c in s.puts[q].chunks ==>
      c !in s.puts[p].chunks
  }

  /** Two Puts in which the same row occurs have a chunk in common. */
  lemma {:induction false} SameRowSameChunk(s: State, u: Write, v: Write, p: Put, q: Put) returns (c: Chunk)
    requires Sound(s) && u.key == v.key && PutTrue(s.w, p) && PutTrue(s.w, q)
    requires WriteForSome(p.user, p.chunks, u) && WriteForSome(q.user, q.chunks, v)
    ensures c in p.chunks && c in q.chunks && p.user == q.user
  {
    c :| c in p.chunks && WriteFor(p.user, c, u);
    var hour, l :| Indexed(c, hour, l) && u == WriteOf(p.user, c, hour, l);
    var c' :| c' in q.chunks && WriteFor(q.user, c', v);
    var hour', l' :| Indexed(c', hour', l') && v == WriteOf(q.user, c', hour', l');
    var e, e' := Entry(p.user, c), Entry(q.user, c');
    assert e in EntriesOf(p.user, p.chunks) && e' in EntriesOf(q.user, q.chunks);
    RowKeyInjective(e, hour, l, e', hour', l');
  }

  /** Whoever wrote a row of a Put whose chunks no other Put has was this Put. */
  lemma {:induction false} OwnRow(s: State, p: nat, q: nat, i: nat, j: nat)
    requires Sound(s) && p in s.puts && q in s.puts && PutOnce(s, p)
    requires s.puts[p].stage.Returned? && s.puts[p].stage.ok && |Ids(s.puts[p].chunks)| == |s.puts[p].chunks|
    requires i < |s.puts[p].stage.writes| && Wrote(s.puts[q], j, s.puts[p].stage.writes[i].key)
    ensures q == p && i == j
  {
    var put, other := s.puts[p], s.puts[q];
    assert PutTrue(s.w, put) && PutTrue(s.w, other);
    var u, v := put.stage.writes[i], other.stage.writes[j];
    assert u in put.stage.writes && v in other.stage.writes;
    var c := SameRowSameChunk(s, u, v, put, other);
  }

  ghost predicate Indexes(w: World, put: Put) {
    forall c :: c in put.chunks ==> FullyIndexed(w, Entry(put.user, c))
  }

  lemma {:induction false} RowWritten(states: seq<State>, steps: seq<Step>, n: nat, p: nat, i: nat)
    requires Run(states, steps) && n < |states| && p in states[n].puts && PutOnce(states[n], p) && Sound(states[n])
    requires var put := states[n].puts[p];
             put.stage.Returned? && put.stage.ok && |Ids(put.chunks)| == |put.chunks|
    requires i < |states[n].puts[p].stage.writes| && states[n].puts[p].stage.writes[i].key in states[n].w.table
    ensures i in states[n].puts[p].stage.wrote
  {
    var s, k := states[n], states[n].puts[p].stage.writes[i].key;
    RowsHaveOrigin(states, steps, n, k);
    var q: nat, j: nat :| q in s.puts && Wrote(s.puts[q], j, k);
    OwnRow(s, p, q, i, j);
  }

  lemma {:induction false} WholeIndexes(s: State, p: nat)
    requires Sound(s) && p in s.puts && s.puts[p].stage.Returned? && s.puts[p].stage.ok
    requires Whole(s.puts[p].stage.writes, s.puts[p].stage.wrote)
    ensures Indexes(s.w, s.puts[p])
  {
    var put := s.puts[p];
    assert PutTrue(s.w, put);
    forall c | c in put.chunks ensures FullyIndexed(s.w, Entry(put.user, c)) {
      assert Entry(put.user, c) in EntriesOf(put.user, put.chunks);
    }
  }

  /**
    Exactly when a Put that returned success is complete, if its chunks have different IDs and no other Put
    has them: when DynamoDB left none of its rows unprocessed.
   */
  lemma {:induction false} CompleteExactly(states: seq<State>, steps: seq<Step>, n: nat, p: nat)
    requires Run(states, steps) && n < |states| && p in states[n].puts
    requires forall q, c ::
      && q in states[n].puts && q != p && states[n].puts[q].user == states[n].puts[p].user
      && c in states[n].puts[q].chunks
      ==> c !in states[n].puts[p].chunks
    requires var put := states[n].puts[p];
             put.stage.Returned? && put.stage.ok && |Ids(put.chunks)| == |put.chunks|
    ensures var put := states[n].puts[p];
            (forall c :: c in put.chunks ==> FullyIndexed(states[n].w, Entry(put.user, c))) <==>
            (forall i :: 0 <= i < |put.stage.writes| ==> i in put.stage.wrote)
  {
    var put := states[n].puts[p];
    EveryInterleaving(states, steps, n, n);
    if Indexes(states[n].w, put) {
      assert PutTrue(states[n].w, put);
      forall i | 0 <= i < |put.stage.writes| ensures i in put.stage.wrote {
        RowThere(states[n].w, put, i);
        RowWritten(states, steps, n, p, i);
      }
    } else if Whole(put.stage.writes, put.stage.wrote) {
      WholeIndexes(states[n], p);
    }
  }

  lemma {:induction false} RowThere(w: World, put: Put, i: nat)
    requires !put.stage.Blobs? && i < |put.stage.writes| && RowsOf(put, put.stage.writes)
    requires Indexes(w, put)
    ensures put.stage.writes[i].key in w.table
  {
    var u := put.stage.writes[i];
    assert u in put.stage.writes;
    var c :| c in put.chunks && WriteFor(put.user, c, u);
    var hour, l :| Indexed(c, hour, l) && u == WriteOf(put.user, c, hour, l);
    assert FullyIndexed(w, Entry(put.user, c));
  }

  // ----- a second page ----------------------------------------------------------------------------

  lemma {:induction false} AnswerInTwo(
    table: map<RowKey, Meta>, hash: Bytes, bounds: Option<(Bytes, Bytes)>, a: Item, b: Item)
    requires table == map[(hash, a.range) := a.meta, (hash, b.range) := b.meta] && a.range != b.range
    requires Paging.InBounds(a.range, bounds) && Paging.InBounds(b.range, bounds)
    ensures Paging.IsAnswer([[a], [b]], table, hash, bounds)
  {
    var pages := [[a], [b]];
    assert Seqs.Flatten(pages) == [a, b] by {
      assert pages[1..] == [[b]] && [[b]][1..] == [];
      assert Seqs.Flatten([[b]]) == [b] + Seqs.Flatten<Item>([]);
    }
    assert a in [a, b] && b in [a, b];
  }

  lemma {:induction false} NotShown(w: World, item: Item, name: Bytes, e: Entry)
    requires Valid(w) && e in w.issued && KnownPage(w, [item], e.user, 0, name)
    requires Accept([item], Some(MatchA())).Some? && A in e.chunk.metric && item.range != RangeOf(e.chunk, A)
    ensures WithoutData(e.chunk) !in Accept([item], Some(MatchA())).value
  {
    if WithoutData(e.chunk) in Accept([item], Some(MatchA())).value {
      Paging.FoundIsShown(w, [item], 0, name, Some(MatchA()), e);
    }
  }

  /** Two Puts, of one chunk each, in which nothing is left unprocessed. */
  lemma {:induction false} PutTwo(e: Entry, e': Entry, name: Bytes) returns (s: State)
    requires PlainUser(e.user) && e.user == e'.user && e.chunk.id != e'.chunk.id
    requires NullFree(e.chunk.id) && e.chunk == Plain(e.chunk.id, name)
    requires NullFree(e'.chunk.id) && e'.chunk == Plain(e'.chunk.id, name)
    ensures Reachable(s) && s.w.issued == s.w.done == {e, e'}
    ensures NAME in e.chunk.metric && A in e.chunk.metric && NAME in e'.chunk.metric && A in e'.chunk.metric
    ensures s.w.table == map[RowKeyOf(e, 0, A) := MetaOf(e.chunk), RowKeyOf(e', 0, A) := MetaOf(e'.chunk)]
  {
    PlainRow(e, name);
    PlainRow(e', name);
    StartReachable();
    s := PutOne(START, 0, e, WriteOf(e.user, e.chunk, 0, A), true);
    s := PutOne(s, 1, e', WriteOf(e'.user, e'.chunk, 0, A), true);
  }

  /** Two chunks are put, DynamoDB answers in two pages, and the second chunk is lost. */
  lemma {:induction false} SecondPageIsLost(user: Bytes, name: Bytes, id: Bytes, id': Bytes)
    returns (s: State, pages: seq<seq<Item>>, lost: Entry)
    requires PlainUser(user) && NullFree(id) && NullFree(id') && id != id'
    ensures Reachable(s) && |pages| == 2 && lost in s.w.done && lost.user == user && lost.chunk.id == id'
    ensures Paging.IsAnswer(pages, s.w.table, HashValue(user, 0, name), Paging.BoundsOf(Some(MatchA())))
    ensures Hits(lost.chunk, 0, name, Some(MatchA())) && Accept(pages[0], Some(MatchA())).Some?
    ensures WithoutData(lost.chunk) !in Accept(pages[0], Some(MatchA())).value
  {
    var kept := Entry(user, Plain(id, name));
    lost := Entry(user, Plain(id', name));
    PlainScanned(kept, name);
    PlainScanned(lost, name);
    PlainRow(kept, name);
    PlainRow(lost, name);
    RangeInjective(kept.chunk, A, lost.chunk, A);
    s := PutTwo(kept, lost, name);
    var item := Item(RangeOf(kept.chunk, A), MetaOf(kept.chunk));
    var item' := Item(RangeOf(lost.chunk, A), MetaOf(lost.chunk));
    pages := [[item], [item']];
    AnswerInTwo(s.w.table, HashValue(user, 0, name), Paging.BoundsOf(Some(MatchA())), item, item');
    ReachableSound(s);
    Paging.FirstPageSuffices(s.w, pages, user, 0, name, Some(MatchA()));
    NotShown(s.w, item, name, lost);
  }
}
