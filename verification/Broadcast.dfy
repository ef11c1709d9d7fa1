/** Sending one value to a list of subscribers, keeping those who still take it. */
module Broadcast {

  /** One entry of a list of subscribers: a subscription on a connection. */
  type Sub = nat

  /** The entries whose connection took the value, in their order. */
  function Survivors(clients: seq<Sub>, alive: set<Sub>): seq<Sub> {
    if clients == [] then []
    else
      var k := |clients| - 1;
      Survivors(clients[..k], alive) + if clients[k] in alive then [clients[k]] else []
  }

  lemma {:induction false} SurvivorsConcat(a: seq<Sub>, b: seq<Sub>, alive: set<Sub>)
    ensures Survivors(a + b, alive) == Survivors(a, alive) + Survivors(b, alive)
    decreases |b|
  {
    if b == [] {
      assert a + b == a;
    } else {
      var k := |b| - 1;
      SurvivorsConcat(a, b[..k], alive);
      assert (a + b)[..|a + b| - 1] == a + b[..k];
    }
  }

  /** Exactly the living survive. */
  lemma {:induction false} SurvivorsMembers(clients: seq<Sub>, alive: set<Sub>)
    ensures forall x :: x in Survivors(clients, alive) <==> x in clients && x in alive
  {
    if clients != [] {
      var k := |clients| - 1;
      SurvivorsMembers(clients[..k], alive);
      assert clients == clients[..k] + [clients[k]];
    }
  }

  /** What each subscriber heard, after one more value for the living among `clients`. */
  function Deliver<V>(heard: map<Sub, seq<V>>, clients: seq<Sub>, alive: set<Sub>, v: V): map<Sub, seq<V>> {
    map x | x in heard :: if x in clients && x in alive then heard[x] + [v] else heard[x]
  }

  /** The loop of a broadcast: every entry is answered once, the failures are left out. */
  method Send(clients: seq<Sub>, alive: set<Sub>) returns (kept: seq<Sub>)
    ensures kept == Survivors(clients, alive)
  {
    kept := [];
    for i := 0 to |clients|
      invariant kept == Survivors(clients[..i], alive)
    {
      assert clients[..i + 1][..i] == clients[..i];
      if clients[i] in alive {
        kept := kept + [clients[i]];
      }
    }
    assert clients[..|clients|] == clients;
  }
}
