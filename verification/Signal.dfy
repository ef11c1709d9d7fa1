/**
 * Signals. Subscribing and emitting each hold the lock of the subscriber list, so a run is a sequence
 * of subscriptions and emissions, whichever clone of the signal they come through.
 */
module SignalEndpoint {
  import opened Broadcast
  import opened Wrappers

  datatype State<V> = State(clients: seq<Sub>, heard: map<Sub, seq<V>>)

  datatype Step<V> =
    | AddClient(x: Sub)
    | Emit(value: V, alive: set<Sub>)  // `alive`: the entries whose connection takes the value

  ghost predicate Enabled<V>(s: State<V>, step: Step<V>) {
    step.AddClient? ==> step.x !in s.heard
  }

  function Next<V>(s: State<V>, step: Step<V>): State<V> {
    match step
    case AddClient(x) => State(s.clients + [x], s.heard[x := []])
    case Emit(v, alive) => State(Survivors(s.clients, alive), Deliver(s.heard, s.clients, alive, v))
  }

  function After<V>(steps: seq<Step<V>>): State<V> {
    if steps == [] then State([], map[])
    else Next(After(steps[..|steps| - 1]), steps[|steps| - 1])
  }

  ghost predicate Possible<V>(steps: seq<Step<V>>) {
    steps == []
    || (Possible(steps[..|steps| - 1]) && Enabled(After(steps[..|steps| - 1]), steps[|steps| - 1]))
  }

  // ---------------------------------------------------------------------------------------
  // What a run says by itself
  // ---------------------------------------------------------------------------------------

  /** The values emitted, in order. */
  function Emitted<V>(steps: seq<Step<V>>): seq<V> {
    if steps == [] then []
    else
      var last := steps[|steps| - 1];
      Emitted(steps[..|steps| - 1]) + if last.Emit? then [last.value] else []
  }

  /** The subscribers, in the order they came. */
  function Order<V>(steps: seq<Step<V>>): seq<Sub> {
    if steps == [] then []
    else
      var last := steps[|steps| - 1];
      Order(steps[..|steps| - 1]) + if last.AddClient? then [last.x] else []
  }

  /** Some emission after its subscription did not get through to `x`. */
  predicate Failed<V>(steps: seq<Step<V>>, x: Sub) {
    steps != []
    && var front, last := steps[..|steps| - 1], steps[|steps| - 1];
       Failed(front, x) || (x in Order(front) && last.Emit? && x !in last.alive)
  }

  function Standing<V>(steps: seq<Step<V>>, order: seq<Sub>): seq<Sub> {
    if order == [] then []
    else
      var k := |order| - 1;
      Standing(steps, order[..k]) + if Failed(steps, order[k]) then [] else [order[k]]
  }

  /** Every emission gets through to `x`. */
  ghost predicate AllReach<V>(steps: seq<Step<V>>, x: Sub) {
    forall i :: 0 <= i < |steps| && steps[i].Emit? ==> x in steps[i].alive
  }

  // ---------------------------------------------------------------------------------------
  // Results
  // ---------------------------------------------------------------------------------------

  lemma {:induction false} KnownIsOrdered<V>(steps: seq<Step<V>>)
    requires Possible(steps)
    ensures forall x :: x in After(steps).heard <==> x in Order(steps)
    ensures forall x :: x in After(steps).clients ==> x in Order(steps)
  {
    if steps != [] {
      var front, last := steps[..|steps| - 1], steps[|steps| - 1];
      KnownIsOrdered(front);
      if last.Emit? {
        SurvivorsMembers(After(front).clients, last.alive);
      }
    }
  }

  /** Filtering the standing ones once more, by those a new emission reached. */
  lemma {:induction false} StandingAfterEmit<V>(front: seq<Step<V>>, last: Step<V>, order: seq<Sub>)
    requires last.Emit? && forall x :: x in order ==> x in Order(front)
    ensures Standing(front + [last], order) == Survivors(Standing(front, order), last.alive)
    decreases |order|
  {
    if order != [] {
      var k := |order| - 1;
      var tail := if Failed(front, order[k]) then [] else [order[k]];
      StandingAfterEmit(front, last, order[..k]);
      assert (front + [last])[..|front|] == front;
      assert order[k] in Order(front);
      SurvivorsConcat(Standing(front, order[..k]), tail, last.alive);
      if tail != [] {
        assert tail[..0] == [];
      }
    }
  }

  lemma {:induction false} StandingAfterAdd<V>(front: seq<Step<V>>, last: Step<V>, order: seq<Sub>)
    requires last.AddClient?
    ensures Standing(front + [last], order) == Standing(front, order)
    decreases |order|
  {
    if order != [] {
      StandingAfterAdd(front, last, order[..|order| - 1]);
      assert (front + [last])[..|front|] == front;
    }
  }

  lemma {:induction false} OnlyOrderedFail<V>(steps: seq<Step<V>>, x: Sub)
    requires x !in Order(steps)
    ensures !Failed(steps, x)
  {
    if steps != [] {
      OnlyOrderedFail(steps[..|steps| - 1], x);
    }
  }

  /**
   * The list holds the subscribers without a failure, in the order they came: survivors keep their
   * places, and nobody else is dropped or doubled.
   */
  lemma {:induction false} SurvivorsKeepTheirOrder<V>(steps: seq<Step<V>>)
    requires Possible(steps)
    ensures After(steps).clients == Standing(steps, Order(steps))
  {
    if steps != [] {
      var front, last := steps[..|steps| - 1], steps[|steps| - 1];
      SurvivorsKeepTheirOrder(front);
      assert steps == front + [last];
      if last.Emit? {
        assert Order(steps) == Order(front);
        StandingAfterEmit(front, last, Order(front));
      } else {
        KnownIsOrdered(front);
        StandingAfterAdd(front, last, Order(front));
        OnlyOrderedFail(front, last.x);
        var order := Order(front) + [last.x];
        assert order[..|order| - 1] == Order(front);
        assert Standing(steps, order) == Standing(steps, Order(front)) + [last.x];
      }
    }
  }

  /** One step, for a subscriber on the list. */
  lemma HearsStep<V>(s: State<V>, step: Step<V>, x: Sub)
    requires Enabled(s, step) && x in s.clients && x in s.heard && (step.Emit? ==> x in step.alive)
    ensures x in Next(s, step).clients && x in Next(s, step).heard
    ensures Next(s, step).heard[x] == s.heard[x] + if step.Emit? then [step.value] else []
  {
    if step.Emit? {
      SurvivorsMembers(s.clients, step.alive);
    }
  }

  /** From its subscription on, and as long as nothing fails, a subscriber hears exactly what is emitted. */
  lemma {:induction false} HearsEverything<V>(before: seq<Step<V>>, x: Sub, since: seq<Step<V>>)
    requires Possible(before + [AddClient(x)] + since) && AllReach(since, x)
    ensures var s := After(before + [AddClient(x)] + since);
      x in s.clients && x in s.heard && s.heard[x] == Emitted(since)
    decreases |since|
  {
    var steps := before + [AddClient(x)] + since;
    var front := steps[..|steps| - 1];
    if since == [] {
      assert front == before && steps == before + [AddClient(x)];
    } else {
      assert front == before + [AddClient(x)] + since[..|since| - 1];
      HearsEverything(before, x, since[..|since| - 1]);
      HearsStep(After(front), since[|since| - 1], x);
    }
  }

  /** After its first failure a subscriber is out of the list and hears nothing more. */
  lemma {:induction false} HearsNothingAfterFailure<V>(before: seq<Step<V>>, x: Sub, since: seq<Step<V>>,
                                                     failure: Step<V>, later: seq<Step<V>>)
    requires Possible(before + [AddClient(x)] + since + [failure] + later) && AllReach(since, x)
    requires failure.Emit? && x !in failure.alive
    ensures var s := After(before + [AddClient(x)] + since + [failure] + later);
      x !in s.clients && x in s.heard && s.heard[x] == Emitted(since)
    decreases |later|
  {
    var steps := before + [AddClient(x)] + since + [failure] + later;
    var upto := before + [AddClient(x)] + since;
    if later == [] {
      assert steps[..|steps| - 1] == upto;
      HearsEverything(before, x, since);
      SurvivorsMembers(After(upto).clients, failure.alive);
    } else {
      var front, last := later[..|later| - 1], later[|later| - 1];
      assert steps[..|steps| - 1] == upto + [failure] + front;
      HearsNothingAfterFailure(before, x, since, failure, front);
      if last.Emit? {
        SurvivorsMembers(After(steps[..|steps| - 1]).clients, last.alive);
      }
    }
  }

  lemma {:induction false} EmittedConcat<V>(a: seq<Step<V>>, b: seq<Step<V>>)
    ensures Emitted(a + b) == Emitted(a) + Emitted(b)
    decreases |b|
  {
    if b == [] {
      assert a + b == a;
    } else {
      EmittedConcat(a, b[..|b| - 1]);
      assert (a + b)[..|a + b| - 1] == a + b[..|b| - 1];
    }
  }

  lemma Stretch<V>(a: seq<V>, b: seq<V>, x: V, c: seq<V>)
    ensures (a + b + [x] + c)[|a|..|a| + |b|] == b && (a + b + [x] + c)[|a| + |b|] == x
  {
  }

  lemma EmittedParts<V>(before: seq<Step<V>>, add: Step<V>, since: seq<Step<V>>, emit: Step<V>, later: seq<Step<V>>)
    requires add.AddClient? && emit.Emit?
    ensures Emitted(before + [add] + since + [emit] + later)
         == Emitted(before) + Emitted(since) + [emit.value] + Emitted(later)
  {
    EmittedConcat(before + [add] + since + [emit], later);
    EmittedConcat(before + [add] + since, [emit]);
    EmittedConcat(before + [add], since);
    EmittedConcat(before, [add]);
    assert [add][..0] == [] && [emit][..0] == [];
    assert Emitted([add]) == [] && Emitted([emit]) == [emit.value];
  }

  /**
   * One order for everybody: what a subscriber hears is one stretch, without gaps, of the single
   * sequence of all emissions. It starts with the first emission after the subscription and ends before
   * the first one that fails.
   */
  lemma HearsOneStretch<V>(before: seq<Step<V>>, x: Sub, since: seq<Step<V>>, failure: Step<V>, later: seq<Step<V>>)
    requires Possible(before + [AddClient(x)] + since + [failure] + later) && AllReach(since, x)
    requires failure.Emit? && x !in failure.alive
    ensures var steps := before + [AddClient(x)] + since + [failure] + later;
      var from, to := |Emitted(before)|, |Emitted(before)| + |Emitted(since)|;
      && to < |Emitted(steps)|
      && x in After(steps).heard
      && After(steps).heard[x] == Emitted(steps)[from..to]
      && Emitted(steps)[to] == failure.value
  {
    HearsNothingAfterFailure(before, x, since, failure, later);
    EmittedParts(before, AddClient(x), since, failure, later);
    Stretch(Emitted(before), Emitted(since), failure.value, Emitted(later));
  }

  // ---------------------------------------------------------------------------------------
  // The endpoint
  // ---------------------------------------------------------------------------------------

  /** The list of subscribers that the handle and all clones of the signal share. */
  class Signal<V> {
    var clients: seq<Sub>
    /** What went out on each subscription, and the sections that were taken so far. */
    ghost var heard: map<Sub, seq<V>>
    ghost var steps: seq<Step<V>>

    ghost function View(): State<V>
      reads this
    {
      State(clients, heard)
    }

    /** The shared list is where a run of subscriptions and emissions has led. */
    ghost predicate Valid()
      reads this
    {
      Possible(steps) && View() == After(steps)
    }

    constructor ()
      ensures Valid() && steps == []
    {
      clients, heard, steps := [], map[], [];
    }

    /** A new subscriber comes last, behind those without a failure, and has heard nothing. */
    method Subscribe(x: Sub)
      requires Valid() && x !in heard
      modifies this
      ensures Valid() && steps == old(steps) + [AddClient(x)]
      ensures clients == Standing(old(steps), Order(old(steps))) + [x] && heard == old(heard)[x := []]
    {
      SurvivorsKeepTheirOrder(steps);
      clients := clients + [x];
      heard := heard[x := []];
      OneMore(steps, AddClient(x));
      steps := steps + [AddClient(x)];
    }

    /**
     * `encoded` is None when the value cannot be encoded: nobody is told, and the lock is not taken.
     * Otherwise the value is the next one of the single sequence, every subscriber on the list that can be
     * reached hears it once, and those without a failure stay, in their order.
     */
    method EmitValue(encoded: Option<V>, reachable: set<Sub>) returns (ok: bool)
      requires Valid()
      modifies this
      ensures Valid() && (ok <==> encoded.Some?)
      ensures !ok ==> View() == old(View()) && steps == old(steps)
      ensures ok ==> steps == old(steps) + [Emit(encoded.value, reachable)]
      ensures ok ==> Emitted(steps) == Emitted(old(steps)) + [encoded.value]
      ensures ok ==> clients == Standing(steps, Order(steps))
      ensures ok ==> heard.Keys == old(heard).Keys && forall x :: x in heard ==>
        heard[x] == old(heard)[x] + if x in old(clients) && x in reachable then [encoded.value] else []
    {
      if encoded.None? {
        return false;
      }
      heard := Deliver(heard, clients, reachable, encoded.value);
      clients := Send(clients, reachable);
      OneMore(steps, Emit(encoded.value, reachable));
      steps := steps + [Emit(encoded.value, reachable)];
      SurvivorsKeepTheirOrder(steps);
      return true;
    }
  }

  /** One more section of a run. */
  lemma OneMore<V>(front: seq<Step<V>>, step: Step<V>)
    requires Possible(front) && Enabled(After(front), step)
    ensures Possible(front + [step]) && After(front + [step]) == Next(After(front), step)
    ensures Emitted(front + [step]) == Emitted(front) + if step.Emit? then [step.value] else []
  {
    assert (front + [step])[..|front|] == front;
  }
}
