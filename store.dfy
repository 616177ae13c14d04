/**
 * The application store: a current state object and a set of listeners.
 * `setState` replaces the state, `patch` merges a partial state into it
 * one key deep, and both then call every subscribed listener with the new
 * state, in subscription order. `subscribe` adds a listener and hands back
 * the function that removes it.
 *
 * A state object is a map from key to value. A listener is known by an
 * identifier, and what it does when called is recorded as one entry of the
 * notification log: the listener and the state it was handed.
 */
module State {

  /** One listener call: who was called, and with which state. */
  datatype Notification<S> = Notification(listener: nat, state: map<string, S>)

  /** No identifier appears twice, as in a `Set`. */
  ghost predicate Distinct(ids: seq<nat>)
  {
    forall i, j :: 0 <= i < j < |ids| ==> ids[i] != ids[j]
  }

  /** `listeners.forEach((listener) => listener(state))`: one call per listener, in order. */
  function Broadcast<S>(ids: seq<nat>, state: map<string, S>): (r: seq<Notification<S>>)
    ensures |r| == |ids|
    ensures forall i :: 0 <= i < |r| ==> r[i].listener == ids[i] && r[i].state == state
  {
    seq(|ids|, i requires 0 <= i < |ids| => Notification(ids[i], state))
  }

  /** A subscribed listener of a distinct list is called exactly once: at its own place and nowhere else. */
  lemma BroadcastOncePerListener<S>(ids: seq<nat>, state: map<string, S>, id: nat) returns (i: nat)
    requires Distinct(ids) && id in ids
    ensures i < |ids| && Broadcast(ids, state)[i].listener == id
    ensures forall j :: 0 <= j < |ids| && j != i ==> Broadcast(ids, state)[j].listener != id
  {
    i :| 0 <= i < |ids| && ids[i] == id;
  }

  /** `set.add(id)`: a new identifier goes last, a present one stays where it is. */
  function Add(ids: seq<nat>, id: nat): (r: seq<nat>)
    ensures Distinct(ids) ==> Distinct(r)
    ensures forall x :: x in r <==> x in ids || x == id
  {
    if id in ids then ids else ids + [id]
  }

  /** `set.delete(id)`: every other identifier keeps its order. */
  function Remove(ids: seq<nat>, id: nat): (r: seq<nat>)
    ensures Distinct(ids) ==> Distinct(r)
    ensures forall x :: x in r <==> x in ids && x != id
    ensures |r| <= |ids|
  {
    if |ids| == 0 then []
    else
      var rest := Remove(ids[1..], id);
      assert forall x :: x in ids <==> x == ids[0] || x in ids[1..];
      if ids[0] == id then rest
      else
        assert Distinct(ids) ==> Distinct(ids[1..]) && ids[0] !in rest by {
          if Distinct(ids) {
            forall k | 0 <= k < |ids| - 1 ensures ids[1..][k] != ids[0] {
              assert ids[1..][k] == ids[k + 1];
            }
          }
        }
        [ids[0]] + rest
  }

  /** Subscribing twice keeps one entry, so the listener is still called once per update. */
  lemma AddTwice(ids: seq<nat>, id: nat)
    ensures Add(Add(ids, id), id) == Add(ids, id)
  {
  }

  /** Once removed, a listener is not called by any later broadcast. */
  lemma RemovedNotCalled<S>(ids: seq<nat>, id: nat, state: map<string, S>)
    ensures forall j :: 0 <= j < |Remove(ids, id)| ==> Broadcast(Remove(ids, id), state)[j].listener != id
  {
    var r := Remove(ids, id);
    forall j | 0 <= j < |r| ensures Broadcast(r, state)[j].listener != id {
      assert r[j] in r;
    }
  }

  /** `{ ...state, ...partial }`: the partial's keys take its values, every other key keeps its value. */
  function Merge<S>(state: map<string, S>, partial: map<string, S>): (r: map<string, S>)
    ensures r.Keys == state.Keys + partial.Keys
    ensures forall k :: k in partial ==> r[k] == partial[k]
    ensures forall k :: k in state && k !in partial ==> r[k] == state[k]
  {
    map k | k in state.Keys + partial.Keys :: if k in partial then partial[k] else state[k]
  }

  /** Merging the same partial twice is merging it once. */
  lemma MergeIdempotent<S>(state: map<string, S>, partial: map<string, S>)
    ensures Merge(Merge(state, partial), partial) == Merge(state, partial)
  {
  }

  /** `createStore(initialState)` and the closure it returns. */
  class Store<S> {
    var state: map<string, S>
    var listeners: seq<nat>
    var notified: seq<Notification<S>>

    ghost predicate Valid()
      reads this
    {
      Distinct(listeners)
    }

    constructor (initialState: map<string, S>)
      ensures Valid()
      ensures state == initialState && listeners == [] && notified == []
    {
      state := initialState;
      listeners := [];
      notified := [];
    }

    /** `getState`: the state last installed. */
    function GetState(): (r: map<string, S>)
      reads this
      ensures r == state
    {
      state
    }

    /** Calls every listener with the current state, in subscription order. */
    method Notify()
      modifies this
      ensures state == old(state) && listeners == old(listeners)
      ensures notified == old(notified) + Broadcast(listeners, state)
    {
      var k := 0;
      while k < |listeners|
        invariant 0 <= k <= |listeners|
        invariant state == old(state) && listeners == old(listeners)
        invariant notified == old(notified) + Broadcast(listeners[..k], state)
      {
        assert Broadcast(listeners[..k + 1], state) == Broadcast(listeners[..k], state) + [Notification(listeners[k], state)];
        notified := notified + [Notification(listeners[k], state)];
        k := k + 1;
      }
      assert listeners[..k] == listeners;
    }

    /** `setState`: the state is replaced wholesale, then every listener hears of it. */
    method SetState(nextState: map<string, S>)
      requires Valid()
      modifies this
      ensures Valid()
      ensures state == nextState && GetState() == nextState && listeners == old(listeners)
      ensures notified == old(notified) + Broadcast(listeners, nextState)
    {
      state := nextState;
      Notify();
    }

    /** `patch`: the partial state merged one level deep, then every listener hears of it. */
    method Patch(partial: map<string, S>)
      requires Valid()
      modifies this
      ensures Valid()
      ensures state == Merge(old(state), partial) && listeners == old(listeners)
      ensures notified == old(notified) + Broadcast(listeners, state)
    {
      state := Merge(state, partial);
      Notify();
    }

    /** `subscribe`: the listener joins the set; a listener already there is not added twice. */
    method Subscribe(listener: nat)
      requires Valid()
      modifies this
      ensures Valid()
      ensures listeners == Add(old(listeners), listener)
      ensures state == old(state) && notified == old(notified)
    {
      listeners := Add(listeners, listener);
    }

    /** The function `subscribe` returns: the listener leaves the set and hears of no later update. */
    method Unsubscribe(listener: nat)
      requires Valid()
      modifies this
      ensures Valid()
      ensures listeners == Remove(old(listeners), listener) && listener !in listeners
      ensures state == old(state) && notified == old(notified)
    {
      listeners := Remove(listeners, listener);
    }
  }
}
