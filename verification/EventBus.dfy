/** The event bus: subscribers are called in order, and a bounded history keeps
    the newest events.  Payloads, ids and timestamps are not modelled. */
module EventBus {
  import opened Prelude

  datatype Envelope = Envelope(topic: string, source: string)

  /** A subscriber is an opaque callable; only its identity matters here. */
  type Handler = nat

  function LastOf<T>(log: seq<T>, n: nat): seq<T> {
    if |log| <= n then log else log[|log| - n..]
  }

  function Listeners(handlers: map<string, seq<Handler>>, topic: string): seq<Handler> {
    if topic in handlers then handlers[topic] else []
  }

  /** Who is called for an event: the topic's own subscribers, then the wildcard's. */
  function Recipients(handlers: map<string, seq<Handler>>, topic: string): seq<Handler> {
    Listeners(handlers, topic) + Listeners(handlers, "*")
  }

  /** The calls that happen when those in `raising` raise: the first ends the rest. */
  function Called(recipients: seq<Handler>, raising: set<Handler>): seq<Handler> {
    if recipients == [] then []
    else if recipients[0] in raising then [recipients[0]]
    else [recipients[0]] + Called(recipients[1..], raising)
  }

  class AsyncEventBus {
    const capacity: nat
    var handlers: map<string, seq<Handler>>
    var recent: seq<Envelope>
    ghost var log: seq<Envelope>

    /** The history is the end of everything ever published. */
    ghost predicate Valid()
      reads this
    {
      capacity >= 1 && recent == LastOf(log, capacity)
    }

    constructor (maxEvents: int)
      ensures Valid() && log == [] && capacity == Max(1, maxEvents) && handlers == map[]
    {
      capacity := Max(1, maxEvents);
      handlers, recent, log := map[], [], [];
    }

    method Subscribe(topic: string, handler: Handler)
      modifies this`handlers
      ensures handlers == old(handlers)[topic := old(Listeners(handlers, topic)) + [handler]]
    {
      handlers := handlers[topic := Listeners(handlers, topic) + [handler]];
    }

    /** Removes one subscription, the oldest. */
    method Unsubscribe(topic: string, handler: Handler)
      modifies this`handlers
      ensures handler !in old(Listeners(handlers, topic)) ==> handlers == old(handlers)
      ensures handler in old(Listeners(handlers, topic)) ==>
        exists before, after ::
          && old(Listeners(handlers, topic)) == before + [handler] + after && handler !in before
          && handlers == old(handlers)[topic := before + after]
    {
      var list := Listeners(handlers, topic);
      if handler in list {
        var i := 0;
        while list[i] != handler
          invariant 0 <= i < |list| && handler !in list[..i]
          decreases |list| - i
        {
          assert list[..i+1] == list[..i] + [list[i]];
          assert list == list[..i+1] + list[i+1..];
          i := i + 1;
        }
        assert list == list[..i] + [handler] + list[i+1..];
        handlers := handlers[topic := list[..i] + list[i+1..]];
      }
    }

    /** Append to the bounded history. */
    method Record(e: Envelope)
      requires Valid()
      modifies this`recent, this`log
      ensures Valid() && log == old(log) + [e]
    {
      recent := recent + [e];
      if |recent| > capacity { recent := recent[1..]; }
      log := log + [e];
    }

    method Deliver(list: seq<Handler>, raising: set<Handler>) returns (called: seq<Handler>, raised: bool)
      ensures called == Called(list, raising)
      ensures raised <==> exists h :: h in list && h in raising
    {
      called, raised := [], false;
      for i := 0 to |list|
        invariant called + Called(list[i..], raising) == Called(list, raising)
        invariant forall j :: 0 <= j < i ==> list[j] !in raising
      {
        called := called + [list[i]];
        if list[i] in raising {
          assert Called(list[i..], raising) == [list[i]];
          return called, true;
        }
        assert list[i..][1..] == list[i+1..];
      }
    }

    /** The event is recorded before anyone is called, so it stays in the history
        even when a subscriber raises. */
    method Publish(topic: string, source: string, raising: set<Handler>) returns (called: seq<Handler>, raised: bool)
      requires Valid()
      modifies this`recent, this`log
      ensures Valid() && log == old(log) + [Envelope(topic, source)]
      ensures called == Called(Recipients(handlers, topic), raising)
      ensures raised <==> exists h :: h in Recipients(handlers, topic) && h in raising
    {
      Record(Envelope(topic, source));
      called, raised := Deliver(Recipients(handlers, topic), raising);
    }

    /** The newest events of the whole log, at most `limit` of them (at least one). */
    method RecentEvents(limit: int) returns (events: seq<Envelope>)
      requires Valid()
      ensures events == LastOf(log, if Max(1, limit) < capacity then Max(1, limit) else capacity)
      ensures |events| <= |log| && events == log[|log| - |events|..]
      ensures |events| == |log| || |events| == Max(1, limit) || |events| == capacity
      ensures |events| <= Max(1, limit) && |events| <= capacity
    {
      var size := Max(1, if limit < |recent| then limit else |recent|);
      events := if size <= |recent| then recent[|recent| - size..] else recent;
    }
  }

  /** The calls are the recipients in order, up to and including the first that
      raises. */
  lemma {:induction false} CalledUpToFirst(list: seq<Handler>, raising: set<Handler>)
    ensures var called := Called(list, raising);
            && called <= list
            && (forall i :: 0 <= i < |called| - 1 ==> called[i] !in raising)
            && (called != list ==> called != [] && called[|called|-1] in raising)
  {
    if list != [] && list[0] !in raising {
      CalledUpToFirst(list[1..], raising);
      assert list == [list[0]] + list[1..];
    }
  }

  predicate AnyRaises(list: seq<Handler>, raising: set<Handler>) {
    exists h :: h in list && h in raising
  }

  lemma AnyRaisesCons(list: seq<Handler>, raising: set<Handler>)
    requires list != []
    ensures AnyRaises(list, raising) <==> list[0] in raising || AnyRaises(list[1..], raising)
  {
    assert forall h :: h in list <==> h == list[0] || h in list[1..];
  }

  lemma {:induction false} CalledInTurn(first: seq<Handler>, second: seq<Handler>, raising: set<Handler>)
    ensures Called(first + second, raising)
            == if AnyRaises(first, raising) then Called(first, raising) else first + Called(second, raising)
  {
    if first == [] {
      assert first + second == second;
    } else {
      assert (first + second)[1..] == first[1..] + second;
      CalledInTurn(first[1..], second, raising);
      AnyRaisesCons(first, raising);
    }
  }

  /** The topic's own subscribers come first: a wildcard subscriber is called only
      after all of them, and not at all if one of them raises. */
  lemma OwnBeforeWildcard(handlers: map<string, seq<Handler>>, topic: string, raising: set<Handler>)
    requires topic in handlers
    ensures var own := handlers[topic];
            var wild := if "*" in handlers then handlers["*"] else [];
            Called(Recipients(handlers, topic), raising)
            == if AnyRaises(own, raising) then Called(own, raising) else own + Called(wild, raising)
  {
    CalledInTurn(Listeners(handlers, topic), Listeners(handlers, "*"), raising);
  }

  /** While nobody raises, a wildcard subscriber is called once per subscription
      for each event -- but twice when the topic is the wildcard itself. */
  lemma WildcardCalls(handlers: map<string, seq<Handler>>, topic: string, h: Handler, raising: set<Handler>)
    requires topic != "*" ==> h !in Listeners(handlers, topic)
    requires forall r :: r in Recipients(handlers, topic) ==> r !in raising
    ensures multiset(Called(Recipients(handlers, topic), raising))[h]
            == multiset(Listeners(handlers, "*"))[h] * (if topic == "*" then 2 else 1)
  {
    CalledUpToFirst(Recipients(handlers, topic), raising);
  }
}
