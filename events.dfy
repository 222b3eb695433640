/**
 * The in-process event emitter: a dictionary from event name to the ordered
 * list of listeners registered for it.  `on` appends, `off` removes the first
 * occurrence, and `emit` calls the listeners of an event in order with the
 * same arguments, stopping at the first one that raises.
 *
 * Listeners are values of a type `L` compared with `==`, as Python compares
 * callables in `list.remove`.  What a listener does when called is outside
 * the emitter; `emit` is modelled by the calls it makes, and a predicate
 * `raises` says which listeners raise for the arguments at hand.
 */
module Events {

  /** One call `listener(*args)` made by `emit`. */
  datatype Call<L, A> = Call(listener: L, args: A)

  /** The listeners of `event`, as `events.get(event, [])` gives them. */
  function Listeners<L>(events: map<string, seq<L>>, event: string): seq<L> {
    if event in events then events[event] else []
  }

  // ------------------------------------------------------------------- on

  /** The map after `on(event, listener)`. */
  function Registered<L>(events: map<string, seq<L>>, event: string, listener: L): (r: map<string, seq<L>>)
    ensures Listeners(r, event) == Listeners(events, event) + [listener]
    ensures forall e :: e != event ==> Listeners(r, e) == Listeners(events, e)
    ensures r.Keys == events.Keys + {event}
  {
    events[event := Listeners(events, event) + [listener]]
  }

  // ------------------------------------------------------------------ off

  /** `list.remove(x)`: drops the first occurrence of `x`; a list without `x` is left as it is. */
  function RemoveFirst<L(==)>(s: seq<L>, x: L): (r: seq<L>)
    ensures x in s ==> |r| == |s| - 1
    ensures x !in s ==> r == s
  {
    if s == [] then []
    else if s[0] == x then s[1..]
    else [s[0]] + RemoveFirst(s[1..], x)
  }

  /** The map after `off(event, listener)`: an event without a list is left alone, and an emptied list stays. */
  function Unregistered<L(==)>(events: map<string, seq<L>>, event: string, listener: L): (r: map<string, seq<L>>)
    ensures r.Keys == events.Keys
    ensures Listeners(r, event) == RemoveFirst(Listeners(events, event), listener)
    ensures forall e :: e != event ==> Listeners(r, e) == Listeners(events, e)
  {
    if event in events then events[event := RemoveFirst(events[event], listener)] else events
  }

  /** Removing splits the list at the first occurrence and joins the two sides. */
  lemma {:induction false} RemoveFirstAt<L>(s: seq<L>, x: L, i: nat)
    requires i < |s| && s[i] == x && x !in s[..i]
    ensures RemoveFirst(s, x) == s[..i] + s[i + 1..]
  {
    if i > 0 {
      assert s[0] in s[..i];
      assert s[1..][..i - 1] == s[..i][1..];
      RemoveFirstAt(s[1..], x, i - 1);
      assert s[1..][i..] == s[i + 1..];
    }
  }

  /** Exactly one copy of the listener leaves the list, when there is one. */
  lemma {:induction false} RemoveFirstMultiset<L>(s: seq<L>, x: L)
    ensures multiset(RemoveFirst(s, x)) == multiset(s) - multiset{x}
  {
    if s != [] {
      assert s == [s[0]] + s[1..];
      if s[0] != x {
        RemoveFirstMultiset(s[1..], x);
      }
    }
  }

  /** Registering a listener and then removing it restores the list it was added to. */
  lemma {:induction false} RemoveFirstAfterAppend<L>(s: seq<L>, x: L)
    requires x !in s
    ensures RemoveFirst(s + [x], x) == s
  {
    if s != [] {
      assert (s + [x])[1..] == s[1..] + [x];
      RemoveFirstAfterAppend(s[1..], x);
      assert [s[0]] + s[1..] == s;
    }
  }

  /**
   * `off` undoes `on` for a listener the event did not have, except that an
   * event registered for the first time keeps an empty list.
   */
  lemma OffUndoesOn<L>(events: map<string, seq<L>>, event: string, listener: L)
    requires listener !in Listeners(events, event)
    ensures Unregistered(Registered(events, event, listener), event, listener)
         == events[event := Listeners(events, event)]
  {
    RemoveFirstAfterAppend(Listeners(events, event), listener);
  }

  // ----------------------------------------------------------------- emit

  /** The calls `listener(*args)` for each listener, in order. */
  function Calls<L, A>(ls: seq<L>, args: A): (r: seq<Call<L, A>>)
    ensures |r| == |ls|
    ensures forall i :: 0 <= i < |ls| ==> r[i] == Call(ls[i], args)
  {
    if ls == [] then [] else [Call(ls[0], args)] + Calls(ls[1..], args)
  }

  /**
   * What `for listener in listeners: listener(*args)` does: the calls made,
   * and whether one of them raised, which ends the loop.
   */
  function Emitted<L, A>(ls: seq<L>, args: A, raises: L -> bool): (seq<Call<L, A>>, bool) {
    if ls == [] then ([], false)
    else if raises(ls[0]) then ([Call(ls[0], args)], true)
    else
      var rest := Emitted(ls[1..], args, raises);
      ([Call(ls[0], args)] + rest.0, rest.1)
  }

  /** When no listener raises, every listener is called once, in order, with the same arguments. */
  lemma {:induction false} EmitCallsAll<L, A>(ls: seq<L>, args: A, raises: L -> bool)
    requires forall i :: 0 <= i < |ls| ==> !raises(ls[i])
    ensures Emitted(ls, args, raises) == (Calls(ls, args), false)
  {
    if ls != [] {
      EmitCallsAll(ls[1..], args, raises);
    }
  }

  /** A listener that raises is the last one called; the error reaches the caller of `emit`. */
  lemma {:induction false} EmitStopsAtRaise<L, A>(ls: seq<L>, args: A, raises: L -> bool, i: nat)
    requires i < |ls| && raises(ls[i]) && forall j :: 0 <= j < i ==> !raises(ls[j])
    ensures Emitted(ls, args, raises) == (Calls(ls[..i + 1], args), true)
  {
    if i > 0 {
      EmitStopsAtRaise(ls[1..], args, raises, i - 1);
      assert ls[1..][..i] == ls[..i + 1][1..];
      assert Calls(ls[..i + 1], args) == [Call(ls[0], args)] + Calls(ls[1..][..i], args);
    } else {
      assert Calls(ls[..1], args) == [Call(ls[0], args)];
    }
  }

  /** `emit` fails exactly when some listener raises. */
  lemma {:induction false} EmitFailsIffRaise<L, A>(ls: seq<L>, args: A, raises: L -> bool)
    ensures Emitted(ls, args, raises).1 <==> exists i :: 0 <= i < |ls| && raises(ls[i])
  {
    if ls != [] && !raises(ls[0]) {
      EmitFailsIffRaise(ls[1..], args, raises);
      if exists i :: 0 <= i < |ls| && raises(ls[i]) {
        var i :| 0 <= i < |ls| && raises(ls[i]);
        assert raises(ls[1..][i - 1]);
      }
    }
  }

  // -------------------------------------------------------------- emitter

  class EventEmitter<L(==)> {
    var events: map<string, seq<L>>

    /** `__init__`: no event has listeners. */
    constructor()
      ensures events == map[]
    {
      events := map[];
    }

    /** `on`: appends the listener to the event's list, creating the list if absent. */
    method On(event: string, listener: L)
      modifies this
      ensures events == Registered(old(events), event, listener)
    {
      if event !in events {
        events := events[event := []];
      }
      events := events[event := events[event] + [listener]];
    }

    /** `off`: removes the first occurrence of the listener, if the event and the listener are there. */
    method Off(event: string, listener: L)
      modifies this
      ensures events == Unregistered(old(events), event, listener)
    {
      if event in events {
        events := events[event := RemoveFirst(events[event], listener)];
      }
    }

    /**
     * `emit`: calls the listeners of the event in order with the same
     * arguments; `raised` says that a listener raised, which stops the loop
     * and propagates to the caller.
     */
    method Emit<A>(event: string, args: A, raises: L -> bool) returns (calls: seq<Call<L, A>>, raised: bool)
      ensures (calls, raised) == Emitted(Listeners(events, event), args, raises)
    {
      var ls := Listeners(events, event);
      calls := [];
      raised := false;
      var i := 0;
      assert ls[i..] == ls;
      assert Then(calls, Emitted(ls, args, raises)).0 == Emitted(ls, args, raises).0;
      while i < |ls|
        invariant 0 <= i <= |ls|
        invariant Emitted(ls, args, raises) == Then(calls, Emitted(ls[i..], args, raises))
      {
        assert ls[i..][1..] == ls[i + 1..];
        var rest := Emitted(ls[i + 1..], args, raises);
        assert calls + ([Call(ls[i], args)] + rest.0) == (calls + [Call(ls[i], args)]) + rest.0;
        calls := calls + [Call(ls[i], args)];
        if raises(ls[i]) {
          raised := true;
          return;
        }
        i := i + 1;
      }
      assert calls + [] == calls;
    }
  }

  /** The calls already made, followed by what the rest of the loop does. */
  function Then<L, A>(done: seq<Call<L, A>>, rest: (seq<Call<L, A>>, bool)): (seq<Call<L, A>>, bool) {
    (done + rest.0, rest.1)
  }

  /** A fresh emitter emits nothing for any event. */
  lemma EmitOnFreshEmitter<L, A>(event: string, args: A, raises: L -> bool)
    ensures Emitted(Listeners(map[], event), args, raises) == ([], false)
  {
  }
}
