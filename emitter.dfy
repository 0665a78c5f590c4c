/** The process-wide error channel: a registry of listeners per event name.
    Listeners are compared by identity, as JavaScript compares functions, so
    they are values of any type with equality. Emitting an event yields the
    calls made, in the order they are made, instead of running the listeners. */
module Emitter {
  import opened Seqs

  /** One listener invoked with the emitted arguments. */
  datatype Call<L, A> = Call(listener: L, args: A)

  /** The calls that emitting `args` to the listeners `ls` makes, in order. */
  function CallsOf<L, A>(ls: seq<L>, args: A): (calls: seq<Call<L, A>>)
    ensures |calls| == |ls|
    ensures forall i :: 0 <= i < |ls| ==> calls[i].listener == ls[i] && calls[i].args == args
  {
    seq(|ls|, i requires 0 <= i < |ls| => Call(ls[i], args))
  }

  /** The listeners registered for an event, with every occurrence of `l` removed. */
  function Without<L(==)>(ls: seq<L>, l: L): (r: seq<L>)
    ensures forall i :: 0 <= i < |r| ==> r[i] != l && r[i] in ls
    ensures forall i :: 0 <= i < |ls| && ls[i] != l ==> ls[i] in r
  {
    Filter(x => x != l, ls)
  }

  /** `Without` keeps the others in their order and as often as they were registered. */
  lemma WithoutKeepsOthers<L>(ls: seq<L>, l: L, m: L)
    ensures IsSubsequence(Without(ls, l), ls)
    ensures multiset(Without(ls, l))[m] == if m == l then 0 else multiset(ls)[m]
  {
    FilterIsSubsequence(x => x != l, ls);
    FilterMultiplicity(x => x != l, ls, m);
  }

  class SimpleEmitter<L(==), A> {
    var listeners: map<string, seq<L>>

    constructor ()
      ensures listeners == map[]
    {
      listeners := map[];
    }

    /** The listeners `emit` would call for `event`: none when it has no list. */
    function Registered(event: string): (ls: seq<L>)
      reads this
      ensures event !in listeners ==> ls == []
      ensures event in listeners ==> ls == listeners[event]
    {
      if event in listeners then listeners[event] else []
    }

    /** Appends `listener` to the event's list, creating the list when absent.
        A listener already present is added again. */
    method On(event: string, listener: L)
      modifies this
      ensures listeners == old(listeners)[event := old(Registered(event)) + [listener]]
      ensures forall e :: e != event ==> Registered(e) == old(Registered(e))
    {
      if event !in listeners {
        listeners := listeners[event := []];
      }
      listeners := listeners[event := listeners[event] + [listener]];
    }

    /** Removes every occurrence of `listener` from the event's list; an
        unknown event is left alone (and gets no list). */
    method Off(event: string, listener: L)
      modifies this
      ensures event !in old(listeners) ==> listeners == old(listeners)
      ensures event in old(listeners) ==>
        listeners == old(listeners)[event := Without(old(listeners)[event], listener)]
      ensures forall e :: e != event ==> Registered(e) == old(Registered(e))
    {
      if event !in listeners {
        return;
      }
      listeners := listeners[event := Without(listeners[event], listener)];
    }

    /** Calls the event's listeners one after another with the same arguments,
        in registration order; the registry is not changed. */
    method Emit(event: string, args: A) returns (calls: seq<Call<L, A>>)
      ensures |calls| == |Registered(event)|
      ensures forall i :: 0 <= i < |calls| ==> calls[i] == Call(Registered(event)[i], args)
    {
      calls := [];
      if event !in listeners {
        return;
      }
      var ls := listeners[event];
      var i := 0;
      while i < |ls|
        invariant 0 <= i <= |ls|
        invariant |calls| == i
        invariant forall j :: 0 <= j < i ==> calls[j] == Call(ls[j], args)
      {
        calls := calls + [Call(ls[i], args)];
        i := i + 1;
      }
    }
  }

  /** Registering the same listener twice makes one emit call it twice. */
  method DuplicateListenerCalledTwice<L(==), A>(event: string, l: L, args: A)
    returns (calls: seq<Call<L, A>>)
    ensures calls == [Call(l, args), Call(l, args)]
  {
    var e := new SimpleEmitter<L, A>();
    e.On(event, l);
    e.On(event, l);
    calls := e.Emit(event, args);
  }

  /** Removing `l` from `[l, m, l]` leaves `[m]`. */
  lemma WithoutFirstAndLast<L>(l: L, m: L)
    requires l != m
    ensures Without([l, m, l], l) == [m]
  {
    assert [l, m, l][1..] == [m, l] && [m, l][1..] == [l] && [l][1..] == [];
    assert Without([l], l) == [];
    assert Without([m, l], l) == [m];
  }

  /** After `off`, emitting the event no longer calls that listener, and still
      calls the others in the order they were added. */
  method OffThenEmit<L(==), A>(event: string, l: L, m: L, args: A)
    returns (calls: seq<Call<L, A>>)
    requires l != m
    ensures calls == [Call(m, args)]
  {
    var e := new SimpleEmitter<L, A>();
    e.On(event, l);
    e.On(event, m);
    e.On(event, l);
    assert e.listeners[event] == [l, m, l];
    WithoutFirstAndLast(l, m);
    e.Off(event, l);
    calls := e.Emit(event, args);
  }
}
