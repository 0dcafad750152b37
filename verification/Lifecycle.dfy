/**
  The three CAS callbacks of ring/ingester_lifecycle.go as code: each deserialises the ring it is
  given, changes it in place and returns it.  They are shown to do what the protocol's steps say.
 */
module Lifecycle {
  import opened Options
  import opened RingDesc
  import opened RingProtocol
  import opened Seqs
  import Consul
  import Ring

  /** The token values of a ring, in order. */
  function Values(ts: seq<TokenDesc>): (vs: seq<uint32>)
    ensures |vs| == |ts| && forall i :: 0 <= i < |ts| ==> vs[i] == ts[i].token
  {
    seq(|ts|, i requires 0 <= i < |ts| => ts[i].token)
  }

  method TakenTokens(ts: seq<TokenDesc>) returns (taken: seq<uint32>)
    requires Sorted(ts)
    ensures taken == Values(ts) && Ascending(taken)
    ensures forall t :: t in taken <==> exists x :: x in ts && x.token == t
  {
    taken := [];
    for i := 0 to |ts|
      invariant |taken| == i && forall k :: 0 <= k < i ==> taken[k] == ts[k].token
    {
      taken := taken + [ts[i].token];
    }
    forall i, j | 0 <= i < j < |ts| ensures taken[i] <= taken[j] {
      assert !TokenLess(ts[j], ts[i]);
    }
    forall t ensures t in taken <==> exists x :: x in ts && x.token == t {
      if x :| x in ts && x.token == t {
        var k :| 0 <= k < |ts| && ts[k] == x;
        assert taken[k] == t;
      }
    }
  }

  /** pickTokens: it comes to an end if and only if n of the random draws are not taken in the ring. */
  method PickTokens(v: Option<Desc>, id: Id, hostname: string, now: int, n: nat, draws: seq<uint32>)
    returns (out: Option<(Desc, seq<uint32>)>)
    requires Sorted(Base(v).tokens)
    ensures out.Some? <==> |Filter(draws, Ring.Untaken(Values(Base(v).tokens)))| >= n
    ensures out.Some? ==>
      Callback(id, Picking, v, hostname, now, out.value.1, out.value.0, Live(out.value.1)) && |out.value.1| == n
  {
    var ringDesc := new DescObject(Base(v));
    var taken := TakenTokens(ringDesc.tokens);
    var tokens := Ring.GenerateTokens(n, taken, draws);
    if tokens.None? {
      return None;
    }
    ringDesc.AddIngester(id, hostname, now, tokens.value);
    out := Some((ringDesc.Value(), tokens.value));
  }

  /** heartbeat: refresh the timestamp, or put the tokens back if the ring does not know the ingester. */
  method Heartbeat(v: Option<Desc>, id: Id, hostname: string, now: int, toks: seq<uint32>) returns (out: Desc)
    ensures Callback(id, Live(toks), v, hostname, now, [], out, Live(toks))
    ensures v.Some? && id in v.value.ingesters ==>
      out == v.value.(ingesters := v.value.ingesters[id := IngesterDesc(v.value.ingesters[id].hostname, now)])
  {
    var ringDesc := new DescObject(Base(v));
    if id !in ringDesc.ingesters {
      ringDesc.AddIngester(id, hostname, now, toks);
    } else {
      ringDesc.ingesters := ringDesc.ingesters[id := ringDesc.ingesters[id].(timestamp := now)];
    }
    out := ringDesc.Value();
  }

  /** unregister: an error on a missing ring, otherwise the ingester and its tokens are taken out. */
  method Unregister(v: Option<Desc>, id: Id, toks: seq<uint32>) returns (out: Option<Desc>)
    ensures out.None? <==> v.None?
    ensures out.Some? ==> Callback(id, Leaving(toks), v, "", 0, [], out.value, Gone)
  {
    if v.None? {
      return None;
    }
    var ringDesc := new DescObject(v.value);
    ringDesc.RemoveIngester(id, toks);
    out := Some(ringDesc.Value());
  }

  // ----- the history that Cas leaves --------------------------------------------------------------

  /** A commit: by whom, from which phase, with which arguments, and the phase after it. */
  datatype Deed = Deed(id: Id, phase: Phase, hostname: string, now: int, toks: seq<uint32>, next: Phase)

  /** An ingester may go from phase p to q without a commit. */
  predicate Drifts(p: Phase, q: Phase) {
    q == p || q.Gone? || (p.Idle? && q.Picking?) || (p.Live? && q == Leaving(p.toks))
  }

  /** An event of the history is the commit of a callback, and the other ingesters may have moved on meanwhile. */
  ghost predicate Done(e: Consul.Event<Desc>, deed: Deed, ph: map<Id, Phase>, ph': map<Id, Phase>) {
    && e.Commit? && deed.id in ph && Drifts(ph[deed.id], deed.phase)
    && Callback(deed.id, deed.phase, e.before, deed.hostname, deed.now, deed.toks, e.after, deed.next)
    && ph'.Keys == ph.Keys && ph'[deed.id] == deed.next
    && forall x :: x in ph && x != deed.id ==> Drifts(ph[x], ph'[x])
  }

  /** Every event is a commit of one of the three callbacks by one of the ingesters. */
  ghost predicate Chronicle(history: seq<Consul.Event<Desc>>, deeds: seq<Deed>, phases: seq<map<Id, Phase>>) {
    && |deeds| == |history| && |phases| == |history| + 1
    && (forall id :: id in phases[0] ==> phases[0][id].Idle?)
    && forall i :: 0 <= i < |history| ==> Done(history[i], deeds[i], phases[i], phases[i + 1])
  }

  ghost predicate AgreesWithAll(d: Desc, ph: map<Id, Phase>) {
    forall id :: id in ph ==> Agrees(d, id, ph[id])
  }

  lemma {:induction false} DriftAgrees(d: Desc, id: Id, p: Phase, q: Phase)
    requires Agrees(d, id, p) && Drifts(p, q)
    ensures Agrees(d, id, q)
  {
  }

  lemma {:induction false} DeedKeeps(e: Consul.Event<Desc>, deed: Deed, ph: map<Id, Phase>, ph': map<Id, Phase>)
    requires Done(e, deed, ph, ph') && WellFormed(Base(e.before)) && AgreesWithAll(Base(e.before), ph)
    ensures WellFormed(e.after) && AgreesWithAll(e.after, ph')
  {
    var nodes := map x | x in ph :: Node(if x == deed.id then deed.phase else ph[x], NoCall);
    var s := State(if e.before.None? then None else Some(Pair(e.before.value, 0)), 0, [], nodes, map[], map[]);
    forall x | x in nodes ensures Agrees(Base(e.before), x, nodes[x].phase) {
      DriftAgrees(Base(e.before), x, ph[x], nodes[x].phase);
    }
    CallbackKeeps(s, deed.id, deed.hostname, deed.now, deed.toks, e.after, deed.next);
    forall x | x in ph' ensures Agrees(e.after, x, ph'[x]) {
      var phase := Committed(s, deed.id, e.after, deed.next).nodes[x].phase;
      assert Agrees(e.after, x, phase);
      assert phase == if x == deed.id then deed.next else ph[x];
      DriftAgrees(e.after, x, phase, ph'[x]);
    }
  }

  /**
    The histories that Cas leaves are serial.  If every commit of such a history is one of the three
    callbacks, then after each commit the ring is well formed and holds what each ingester thinks it does.
   */
  lemma {:induction false} CasHistoryWellFormed(
    history: seq<Consul.Event<Desc>>, deeds: seq<Deed>, phases: seq<map<Id, Phase>>, n: nat)
    requires Consul.Serial(history) && Chronicle(history, deeds, phases) && n <= |history|
    ensures WellFormed(Base(Consul.Current(history[..n])))
    ensures AgreesWithAll(Base(Consul.Current(history[..n])), phases[n])
  {
    if n > 0 {
      CasHistoryWellFormed(history, deeds, phases, n - 1);
      assert Done(history[n - 1], deeds[n - 1], phases[n - 1], phases[n]);
      assert history[n - 1].before == Consul.Current(history[..n - 1]);
      DeedKeeps(history[n - 1], deeds[n - 1], phases[n - 1], phases[n]);
      assert history[..n][n - 1] == history[n - 1];
    }
  }
}
