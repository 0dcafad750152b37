/**
  ring/consul_client.go: the compare-and-swap loop on one Consul key.  Other clients commit and may
  delete the key between any two of its calls; a write gets a ModifyIndex never used before.
 */
module Consul {
  import opened Options

  /** A key's value with its ModifyIndex. */
  datatype Pair<+V> = Pair(value: V, index: nat)

  /** What happened to the key: who replaced which value by which, or that it was deleted. */
  datatype Event<+V> = Commit(who: nat, before: Option<V>, after: V) | Deletion

  /** What a CAS callback returns: a value to write, or an error that is final or not. */
  datatype Reply<+V> = Value(v: V) | Error(retry: bool)

  const RETRIES := 10

  /** The value of the key after a history. */
  function Current<V>(history: seq<Event<V>>): Option<V> {
    if history == [] then None
    else match history[|history| - 1]
      case Commit(_, _, after) => Some(after)
      case Deletion => None
  }

  /** Every commit replaced exactly the value that its predecessors had left. */
  ghost predicate Serial<V>(history: seq<Event<V>>) {
    forall i :: 0 <= i < |history| && history[i].Commit? ==> history[i].before == Current(history[..i])
  }

  lemma {:induction false} SerialAppend<V>(history: seq<Event<V>>, e: Event<V>)
    requires Serial(history) && (e.Commit? ==> e.before == Current(history))
    ensures Serial(history + [e])
  {
    var h := history + [e];
    forall i | 0 <= i < |h| && h[i].Commit? ensures h[i].before == Current(h[..i]) {
      assert h[..i] == history[..i];
      assert i == |history| ==> history[..i] == history;
    }
  }

  /** No event of h from position n on is by me. */
  ghost predicate NotBy<V>(me: nat, h: seq<Event<V>>, n: nat) {
    forall i :: n <= i < |h| && h[i].Commit? ==> h[i].who != me
  }

  /** The callback returns an error in round i, for some value. */
  ghost predicate ErrsIn<V(!new)>(f: (nat, Option<V>) -> Reply<V>, i: nat) {
    exists v :: f(i, v).Error?
  }

  /** The callback returns an error that is final. */
  ghost predicate ErrsFinally<V(!new)>(f: (nat, Option<V>) -> Reply<V>) {
    exists i: nat, v :: f(i, v) == Error(false)
  }

  ghost predicate Errs<V(!new)>(f: (nat, Option<V>) -> Reply<V>) {
    exists i: nat :: ErrsIn(f, i)
  }

  class Key<V(!new)> {
    var pair: Option<Pair<V>>
    /** The largest ModifyIndex given out. */
    var clock: nat
    ghost var history: seq<Event<V>>
    /** How many of our calls have failed. */
    ghost var failures: nat
    /** How many rounds of ours there have been. */
    ghost var rounds: nat

    ghost predicate Valid()
      reads this
    {
      && Serial(history)
      && Current(history) == (if pair.Some? then Some(pair.value.value) else None)
      && (pair.Some? ==> 0 < pair.value.index <= clock)
    }

    constructor ()
      ensures Valid() && history == [] && pair.None?
    {
      pair, clock, history, failures, rounds := None, 0, [], 0, 0;
    }

    /** Other clients act.  A key that still has an old index was not touched. */
    method Interfere(ghost me: nat)
      requires Valid()
      modifies this`pair, this`clock, this`history
      ensures Valid() && old(history) <= history && old(clock) <= clock
      ensures NotBy(me, history, |old(history)|)
      ensures pair.Some? && pair.value.index <= old(clock) ==> pair == old(pair) && history == old(history)
      ensures history == old(history) ==> pair == old(pair)
    {
      var deleted: bool := *;
      if deleted {
        pair := None;
        SerialAppend(history, Deletion);
        history := history + [Deletion];
      }
    }

    /** A call to Consul, or an encoding, succeeds or fails. */
    method ServiceUp() returns (up: bool)
      modifies this`failures
      ensures failures == old(failures) + if up then 0 else 1
    {
      up := *;
      if !up {
        failures := failures + 1;
      }
    }

    /** Consul's own check-and-set: index 0 means "only if the key does not exist". */
    method CheckAndSet(ghost me: nat, value: V, index: nat) returns (ok: bool)
      requires Valid()
      modifies this`pair, this`clock, this`history
      ensures Valid() && old(clock) <= clock
      ensures ok <==> if index == 0 then old(pair).None? else old(pair).Some? && old(pair).value.index == index
      ensures ok ==> history == old(history) + [Commit(me, Current(old(history)), value)]
      ensures !ok ==> pair == old(pair) && clock == old(clock) && history == old(history)
    {
      ok := if index == 0 then pair.None? else pair.Some? && pair.value.index == index;
      if ok {
        clock := clock + 1;
        pair := Some(Pair(value, clock));
        SerialAppend(history, Commit(me, Current(history), value));
        history := history + [Commit(me, Current(history), value)];
      }
    }

    /** The key holds what was read, and index is its index; if it does not exist index may be stale. */
    ghost predicate Fetched(read: Option<V>, index: nat)
      reads this
    {
      && index <= clock && read == Current(history)
      && (if read.Some? then pair.Some? && pair.value.index == index else pair.None?)
    }

    /** The first half of a round: read and call back.  The index survives from earlier rounds. */
    method Prepare(ghost me: nat, f: (nat, Option<V>) -> Reply<V>, i: nat, stale: nat)
      returns (draft: Draft<V>, index: nat, ghost read: Option<V>)
      requires Valid() && stale <= clock
      modifies this
      ensures Valid() && old(history) <= history && index <= clock && old(failures) <= failures
      ensures NotBy(me, history, |old(history)|)
      ensures draft.Ready? ==> f(i, read) == Value(draft.value) && Fetched(read, index)
      ensures draft.Ready? && read.None? ==> index == stale
      ensures draft.Quit? && failures == old(failures) ==> ErrsIn(f, i)
      ensures draft == Quit(false) ==> ErrsFinally(f)
      ensures rounds == old(rounds)
    {
      index := stale;
      Interfere(me);
      var up := ServiceUp();
      var decodes := ServiceUp();
      var encodes := ServiceUp();
      var found := if pair.Some? then Some(pair.value.value) else None;
      read := found;
      if !up || (found.Some? && !decodes) {
        return Quit(true), index, read;
      }
      if pair.Some? {
        index := pair.value.index;
      }
      var reply := f(i, found);
      draft := if reply.Error? then Quit(reply.retry) else if encodes then Ready(reply.v) else Quit(true);
    }

    /** The second half: swap.  What it replaces is what was read; a stale index cannot match. */
    method Swap(ghost me: nat, value: V, index: nat, ghost read: Option<V>) returns (swapped: bool)
      requires Valid() && Fetched(read, index)
      modifies this
      ensures Valid() && old(history) <= history && old(clock) <= clock && old(failures) <= failures
      ensures !swapped ==> NotBy(me, history, |old(history)|)
      ensures swapped ==>
        && |history| > |old(history)| && NotBy(me, history[..|history| - 1], |old(history)|)
        && history[|history| - 1] == Commit(me, read, value)
      ensures !swapped && failures == old(failures) && history == old(history) ==> read.None? && index > 0
      ensures rounds == old(rounds)
    {
      Interfere(me);
      ghost var before := history;
      var up := ServiceUp();
      swapped := false;
      if up {
        swapped := CheckAndSet(me, value, index);
        assert swapped ==> history[..|history| - 1] == before;
      }
    }

    /** One round: read, call back, swap. */
    method Attempt(ghost me: nat, f: (nat, Option<V>) -> Reply<V>, i: nat, stale: nat)
      returns (round: Round, index: nat)
      requires Valid() && stale <= clock
      modifies this
      ensures Valid() && old(history) <= history && index <= clock && old(failures) <= failures
      ensures !round.Swapped? ==> NotBy(me, history, |old(history)|)
      ensures round.Swapped? ==>
        && |history| > |old(history)| && NotBy(me, history[..|history| - 1], |old(history)|)
        && var e := history[|history| - 1]; e.Commit? && e.who == me && f(i, e.before) == Value(e.after)
      ensures !round.Swapped? && failures == old(failures) && history == old(history) ==>
        stale > 0 || ErrsIn(f, i)
      ensures rounds == old(rounds) + 1 && (round.Final? ==> ErrsFinally(f))
    {
      rounds := rounds + 1;
      var draft;
      ghost var read;
      draft, index, read := Prepare(me, f, i, stale);
      if draft.Quit? {
        return if draft.retry then Again else Final, index;
      }
      ghost var mid := history;
      var swapped := Swap(me, draft.value, index, read);
      round := if swapped then Swapped else Again;
      NotByExtends(me, mid, if swapped then history[..|history| - 1] else history, |old(history)|);
    }

    /**
      CAS.  f is the callback, given the round it is called in.  Success means exactly one commit of
      this call, whose value is the callback applied to the very value it replaced; failure means
      none.
     */
    method Cas(ghost me: nat, f: (nat, Option<V>) -> Reply<V>) returns (ok: bool, ghost round: nat, ghost at: nat)
      requires Valid()
      modifies this
      ensures Valid() && old(history) <= history
      ensures ok ==>
        && |old(history)| <= at < |history| && history[at].Commit? && history[at].who == me
        && f(round, history[at].before) == Value(history[at].after)
        && forall i :: |old(history)| <= i < |history| && i != at && history[i].Commit? ==> history[i].who != me
      ensures !ok ==> forall i :: |old(history)| <= i < |history| && history[i].Commit? ==> history[i].who != me
      ensures !ok ==>
        failures > old(failures) || |history| > |old(history)| || exists i: nat, v :: f(i, v).Error?
      ensures rounds <= old(rounds) + 10
      ensures !ok ==> rounds == old(rounds) + 10 || exists i: nat, v :: f(i, v) == Error(false)
    {
      var index: nat := 0;
      round, at := 0, 0;
      for i := 0 to RETRIES
        invariant Valid() && old(history) <= history && index <= clock
        invariant NotBy(me, history, |old(history)|) && old(failures) <= failures
        invariant i == 0 ==> index == 0 && failures == old(failures)
        invariant rounds == old(rounds) + i
        invariant i > 0 ==> failures > old(failures) || |history| > |old(history)| || Errs(f)
      {
        ghost var before := history;
        var r;
        r, index := Attempt(me, f, i, index);
        if r.Swapped? {
          CommittedOnce(me, before, history, |old(history)|);
          return true, i, |history| - 1;
        }
        NotByExtends(me, before, history, |old(history)|);
        if r.Final? {
          return false, round, at;
        }
      }
      ok := false;
    }
  }

  /** What a callback has prepared: a value to write, or nothing, and whether to try again. */
  datatype Draft<+V> = Ready(value: V) | Quit(retry: bool)

  datatype Round = Swapped | Again | Final

  lemma {:induction false} CommittedOnce<V>(me: nat, h: seq<Event<V>>, h': seq<Event<V>>, n: nat)
    requires n <= |h| < |h'| && h <= h' && NotBy(me, h, n) && NotBy(me, h'[..|h'| - 1], |h|)
    requires h'[|h'| - 1].Commit? && h'[|h'| - 1].who == me
    ensures forall i :: n <= i < |h'| - 1 && h'[i].Commit? ==> h'[i].who != me
  {
    var front := h'[..|h'| - 1];
    NotByExtends(me, h, front, n);
    assert forall i :: 0 <= i < |front| ==> h'[i] == front[i];
  }

  lemma {:induction false} NotByExtends<V>(me: nat, h: seq<Event<V>>, h': seq<Event<V>>, n: nat)
    requires h <= h' && NotBy(me, h, n) && NotBy(me, h', |h|)
    ensures NotBy(me, h', n)
  {
    assert forall i :: 0 <= i < |h| ==> h'[i] == h[i];
  }
}
