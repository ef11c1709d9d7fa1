/**
 * States. A subscription takes three sections: clone the current value under the value lock, answer
 * with it under no lock, push the subscriber under the list lock. Setting a value takes two: write it
 * under the value lock, then, with that lock still held, take the list lock and broadcast. Any number
 * of subscriptions and settings interleave at these points.
 */
module StateEndpoint {
  import opened Wrappers
  import opened Broadcast

  /** How far one subscription has come. */
  datatype Progress<V> = Cloned(value: V) | Answered | Listening | Refused

  datatype State<V> = State(
    current: V,
    locked: bool,           // the value lock is held between a write and the end of its broadcast
    clients: seq<Sub>,
    progress: map<Sub, Progress<V>>,
    heard: map<Sub, seq<V>>)

  datatype Step<V> =
    | Clone(x: Sub)
    | Respond(x: Sub, ok: bool)
    | Push(x: Sub)
    | Write(value: V)
    | Send(alive: set<Sub>)

  function Init<V>(v: V): State<V> {
    State(v, false, [], map[], map[])
  }

  ghost predicate Enabled<V>(s: State<V>, step: Step<V>) {
    match step
    case Clone(x) => !s.locked && x !in s.progress
    case Respond(x, _) => x in s.progress && s.progress[x].Cloned?
    case Push(x) => x in s.progress && s.progress[x].Answered?
    case Write(_) => !s.locked
    case Send(_) => s.locked
  }

  function Next<V>(s: State<V>, step: Step<V>): State<V> {
    match step
    case Clone(x) => s.(progress := s.progress[x := Cloned(s.current)])
    case Respond(x, ok) =>
      if x in s.progress && s.progress[x].Cloned? then
        if ok then s.(progress := s.progress[x := Answered], heard := s.heard[x := [s.progress[x].value]])
        else s.(progress := s.progress[x := Refused])
      else s
    case Push(x) => s.(progress := s.progress[x := Listening], clients := s.clients + [x])
    case Write(v) => s.(current := v, locked := true)
    case Send(alive) =>
      s.(locked := false,
         clients := Survivors(s.clients, alive),
         heard := Deliver(s.heard, s.clients, alive, s.current))
  }

  function After<V>(v: V, steps: seq<Step<V>>): State<V> {
    if steps == [] then Init(v)
    else Next(After(v, steps[..|steps| - 1]), steps[|steps| - 1])
  }

  ghost predicate Possible<V>(v: V, steps: seq<Step<V>>) {
    steps == []
    || (Possible(v, steps[..|steps| - 1]) && Enabled(After(v, steps[..|steps| - 1]), steps[|steps| - 1]))
  }

  // ---------------------------------------------------------------------------------------
  // What a run says by itself
  // ---------------------------------------------------------------------------------------

  /** The first value and the values set, numbered in the order in which they took the value lock. */
  function Published<V>(v: V, steps: seq<Step<V>>): (r: seq<V>)
    ensures |r| >= 1
  {
    if steps == [] then [v]
    else
      var last := steps[|steps| - 1];
      Published(v, steps[..|steps| - 1]) + if last.Write? then [last.value] else []
  }

  /** How many broadcasts were completed. */
  function Sends<V>(steps: seq<Step<V>>): nat {
    if steps == [] then 0
    else Sends(steps[..|steps| - 1]) + if steps[|steps| - 1].Send? then 1 else 0
  }

  ghost predicate AllReach<V>(steps: seq<Step<V>>, x: Sub) {
    forall i :: 0 <= i < |steps| && steps[i].Send? ==> x in steps[i].alive
  }

  lemma {:induction false} SendsConcat<V>(a: seq<Step<V>>, b: seq<Step<V>>)
    ensures Sends(a + b) == Sends(a) + Sends(b)
    decreases |b|
  {
    if b == [] {
      assert a + b == a;
    } else {
      SendsConcat(a, b[..|b| - 1]);
      assert (a + b)[..|a + b| - 1] == a + b[..|b| - 1];
    }
  }

  /** Values keep their numbers. */
  lemma {:induction false} PublishedGrows<V>(v: V, a: seq<Step<V>>, b: seq<Step<V>>)
    ensures Published(v, a) <= Published(v, a + b)
    decreases |b|
  {
    if b == [] {
      assert a + b == a;
    } else {
      PublishedGrows(v, a, b[..|b| - 1]);
      assert (a + b)[..|a + b| - 1] == a + b[..|b| - 1];
    }
  }

  /** Writes and broadcasts alternate, and the cell holds the last value written. */
  lemma {:induction false} WritesAndSends<V>(v: V, steps: seq<Step<V>>)
    requires Possible(v, steps)
    ensures var s := After(v, steps);
      && |Published(v, steps)| == 1 + Sends(steps) + (if s.locked then 1 else 0)
      && s.current == Published(v, steps)[|Published(v, steps)| - 1]
  {
    if steps != [] {
      WritesAndSends(v, steps[..|steps| - 1]);
    }
  }

  /** Who has not answered hears nothing; who has not pushed is not on the list. */
  ghost predicate Listed<V>(s: State<V>) {
    && (forall x :: x in s.clients ==> x in s.progress && s.progress[x].Listening?)
    && (forall x :: x in s.heard ==> x in s.progress && (s.progress[x].Answered? || s.progress[x].Listening?))
    && (forall x :: x in s.progress && s.progress[x].Answered? ==> x in s.heard && |s.heard[x]| == 1)
    && (forall x :: x in s.progress && s.progress[x].Listening? ==> x in s.heard)
  }

  lemma StepKeepsListed<V>(s: State<V>, step: Step<V>)
    requires Listed(s) && Enabled(s, step)
    ensures Listed(Next(s, step))
  {
    if step.Send? {
      SurvivorsMembers(s.clients, step.alive);
    }
  }

  lemma {:induction false} NotYetListed<V>(v: V, steps: seq<Step<V>>)
    requires Possible(v, steps)
    ensures Listed(After(v, steps))
  {
    if steps != [] {
      NotYetListed(v, steps[..|steps| - 1]);
      StepKeepsListed(After(v, steps[..|steps| - 1]), steps[|steps| - 1]);
    }
  }

  // ---------------------------------------------------------------------------------------
  // Results
  // ---------------------------------------------------------------------------------------

  /** What `x` clones is the last value that was written, and its broadcast is over. */
  function ClonedValue<V>(v: V, before: seq<Step<V>>): V {
    Published(v, before)[|Published(v, before)| - 1]
  }

  /** The value is all that `x` has, or will get with the answer to its subscription. */
  ghost predicate Holds<V>(s: State<V>, x: Sub, value: V) {
    && x in s.progress
    && (s.progress[x].Cloned? ==> s.progress[x].value == value)
    && (s.progress[x].Answered? ==> x in s.heard && s.heard[x] == [value])
  }

  lemma StepHolds<V>(s: State<V>, step: Step<V>, x: Sub, value: V)
    requires Holds(s, x, value) && Listed(s) && Enabled(s, step)
    ensures Holds(Next(s, step), x, value)
  {
  }

  /** Between cloning and pushing, the cloned value is all a subscriber has, or will get. */
  lemma {:induction false} UntilPush<V>(v: V, before: seq<Step<V>>, x: Sub, between: seq<Step<V>>)
    requires Possible(v, before + [Clone(x)] + between)
    ensures Holds(After(v, before + [Clone(x)] + between), x, ClonedValue(v, before))
    decreases |between|
  {
    var steps := before + [Clone(x)] + between;
    var front := steps[..|steps| - 1];
    if between == [] {
      assert front == before;
      WritesAndSends(v, before);
    } else {
      assert front == before + [Clone(x)] + between[..|between| - 1];
      UntilPush(v, before, x, between[..|between| - 1]);
      NotYetListed(v, front);
      StepHolds(After(v, front), steps[|steps| - 1], x, ClonedValue(v, before));
    }
  }

  /** `x` is on the list and heard `value`, and then the values from number `from` up to the last broadcast. */
  ghost predicate Follows<V>(v: V, steps: seq<Step<V>>, x: Sub, value: V, from: nat) {
    var s, h := After(v, steps), Published(v, steps);
    && x in s.clients && x in s.heard && x in s.progress && s.progress[x].Listening?
    && from <= 1 + Sends(steps) <= |h|
    && s.heard[x] == [value] + h[from..1 + Sends(steps)]
  }

  lemma StartsToFollow<V>(v: V, upto: seq<Step<V>>, x: Sub, value: V)
    requires Possible(v, upto) && x in After(v, upto).heard && After(v, upto).heard[x] == [value]
    ensures Follows(v, upto + [Push(x)], x, value, 1 + Sends(upto))
  {
    var steps := upto + [Push(x)];
    assert steps[..|upto|] == upto;
    WritesAndSends(v, upto);
    var h, n := Published(v, steps), 1 + Sends(upto);
    assert h == Published(v, upto) + [] && [value] + h[n..n] == [value];
  }

  /** One step of the state, for a subscriber on the list. */
  lemma HearsStep<V>(s: State<V>, step: Step<V>, x: Sub, value: V, block: seq<V>)
    requires Enabled(s, step) && (step.Send? ==> x in step.alive)
    requires x in s.clients && x in s.heard && x in s.progress && s.progress[x].Listening?
    requires s.heard[x] == [value] + block
    ensures var s' := Next(s, step);
      && x in s'.clients && x in s'.heard && x in s'.progress && s'.progress[x].Listening?
      && s'.heard[x] == [value] + (if step.Send? then block + [s.current] else block)
  {
    if step.Send? {
      SurvivorsMembers(s.clients, step.alive);
    }
  }

  /** The numbers of the values broadcast, one step later. */
  lemma BlockStep<V>(v: V, front: seq<Step<V>>, last: Step<V>, from: nat)
    requires Possible(v, front) && Enabled(After(v, front), last)
    requires from <= 1 + Sends(front) <= |Published(v, front)|
    ensures var h, steps := Published(v, front), front + [last];
      && from <= 1 + Sends(steps) <= |Published(v, steps)|
      && Published(v, steps)[from..1 + Sends(steps)]
           == h[from..1 + Sends(front)] + (if last.Send? then [After(v, front).current] else [])
      && After(v, steps) == Next(After(v, front), last)
  {
    NotYetListed(v, front);
    OneMore(v, front, last);
    WritesAndSends(v, front);
    if last.Send? {
      OneLonger(Published(v, front), from, 1 + Sends(front));
    } else if last.Write? {
      PrefixBlock(Published(v, front), last.value, from, 1 + Sends(front));
    } else {
      assert Published(v, front) + [] == Published(v, front);
    }
  }

  lemma PrefixBlock<V>(h: seq<V>, w: V, from: nat, to: nat)
    requires from <= to <= |h|
    ensures (h + [w])[from..to] == h[from..to]
  {
  }

  lemma OneLonger<V>(h: seq<V>, from: nat, to: nat)
    requires from <= to < |h|
    ensures h[from..to + 1] == h[from..to] + [h[to]]
  {
  }

  lemma KeepsFollowing<V>(v: V, front: seq<Step<V>>, last: Step<V>, x: Sub, value: V, from: nat)
    requires Possible(v, front) && Enabled(After(v, front), last)
    requires Follows(v, front, x, value, from)
    requires last.Send? ==> x in last.alive
    ensures Follows(v, front + [last], x, value, from)
  {
    BlockStep(v, front, last, from);
    HearsStep(After(v, front), last, x, value, Published(v, front)[from..1 + Sends(front)]);
  }

  /** From its push on, and as long as nothing fails, a subscriber hears every broadcast. */
  lemma {:induction false} HearsEveryBroadcast<V>(v: V, before: seq<Step<V>>, x: Sub, between: seq<Step<V>>,
                                                 since: seq<Step<V>>)
    requires Possible(v, before + [Clone(x)] + between + ([Push(x)] + since)) && AllReach(since, x)
    ensures Follows(v, before + [Clone(x)] + between + ([Push(x)] + since), x, ClonedValue(v, before),
                    1 + Sends(before + [Clone(x)] + between))
    decreases |since|
  {
    var upto := before + [Clone(x)] + between;
    var steps := upto + ([Push(x)] + since);
    var front, last := steps[..|steps| - 1], steps[|steps| - 1];
    if since == [] {
      assert front == upto && steps == upto + [Push(x)];
      UntilPush(v, before, x, between);
      StartsToFollow(v, upto, x, ClonedValue(v, before));
    } else {
      assert front == upto + ([Push(x)] + since[..|since| - 1]);
      HearsEveryBroadcast(v, before, x, between, since[..|since| - 1]);
      KeepsFollowing(v, front, last, x, ClonedValue(v, before), 1 + Sends(upto));
      assert steps == front + [last];
    }
  }

  /** After its first failure a subscriber is off the list and hears nothing more. */
  lemma {:induction false} SilentAfterFailure<V>(v: V, before: seq<Step<V>>, x: Sub, failure: Step<V>,
                                             later: seq<Step<V>>)
    requires Possible(v, before + [failure] + later) && failure.Send? && x !in failure.alive
    requires x in After(v, before).heard && x in After(v, before).progress && After(v, before).progress[x].Listening?
    ensures var s := After(v, before + [failure] + later);
      && x !in s.clients && x in s.progress && s.progress[x].Listening?
      && x in s.heard && s.heard[x] == After(v, before).heard[x]
    decreases |later|
  {
    var steps := before + [failure] + later;
    var front, last := steps[..|steps| - 1], steps[|steps| - 1];
    if later == [] {
      assert front == before;
      SurvivorsMembers(After(v, before).clients, failure.alive);
    } else {
      assert front == before + [failure] + later[..|later| - 1];
      SilentAfterFailure(v, before, x, failure, later[..|later| - 1]);
      if last.Send? {
        SurvivorsMembers(After(v, front).clients, last.alive);
      }
    }
  }

  /**
   * Delivery order. With the values numbered as published, a subscriber gets the value `i` it cloned and
   * then the values `j` to `k` without a gap, where `i < j`. It misses nothing after its push. It misses
   * something before exactly when a broadcast was completed between its cloning and its push.
   */
  lemma StateDelivery<V>(v: V, before: seq<Step<V>>, x: Sub, between: seq<Step<V>>, since: seq<Step<V>>)
    requires Possible(v, before + [Clone(x)] + between + ([Push(x)] + since)) && AllReach(since, x)
    ensures var steps := before + [Clone(x)] + between + ([Push(x)] + since);
      var s, h := After(v, steps), Published(v, steps);
      var i, j, k := |Published(v, before)| - 1, 1 + Sends(before + [Clone(x)] + between), 1 + Sends(steps);
      && i < j <= k <= |h|
      && x in s.heard && s.heard[x] == [h[i]] + h[j..k]
      && (j == i + 1 <==> Sends(between) == 0)
      && (!s.locked ==> k == |h|)
  {
    HearsEveryBroadcast(v, before, x, between, since);
    WritesAndSends(v, before + [Clone(x)] + between + ([Push(x)] + since));
    CloneMoment(v, before, x, between, [Push(x)] + since);
    ClonedKeepsNumber(v, before, x, between, [Push(x)] + since);
  }

  lemma ClonedKeepsNumber<V>(v: V, before: seq<Step<V>>, x: Sub, between: seq<Step<V>>, rest: seq<Step<V>>)
    ensures var h, i := Published(v, before + [Clone(x)] + between + rest), |Published(v, before)| - 1;
      i < |h| && h[i] == ClonedValue(v, before)
  {
    PublishedGrows(v, before, [Clone(x)] + between + rest);
    assert before + ([Clone(x)] + between + rest) == before + [Clone(x)] + between + rest;
  }

  /** When a value is cloned, no broadcast is under way. */
  lemma CloneMoment<V>(v: V, before: seq<Step<V>>, x: Sub, between: seq<Step<V>>, rest: seq<Step<V>>)
    requires Possible(v, before + [Clone(x)] + between + rest)
    ensures |Published(v, before)| == 1 + Sends(before)
    ensures Sends(before + [Clone(x)] + between) == Sends(before) + Sends(between)
  {
    PossiblePrefix(v, before + [Clone(x)], between + rest);
    assert before + [Clone(x)] + (between + rest) == before + [Clone(x)] + between + rest;
    assert (before + [Clone(x)])[..|before|] == before;
    WritesAndSends(v, before);
    SendsConcat(before + [Clone(x)], between);
  }

  lemma {:induction false} PossiblePrefix<V>(v: V, a: seq<Step<V>>, b: seq<Step<V>>)
    requires Possible(v, a + b)
    ensures Possible(v, a)
    decreases |b|
  {
    if b == [] {
      assert a + b == a;
    } else {
      assert (a + b)[..|a + b| - 1] == a + b[..|b| - 1];
      PossiblePrefix(v, a, b[..|b| - 1]);
    }
  }

  /** The same with a failure: the stretch ends before the value whose broadcast fails first. */
  lemma StateDeliveryUntilFailure<V>(v: V, before: seq<Step<V>>, x: Sub, between: seq<Step<V>>, since: seq<Step<V>>,
                                     failure: Step<V>, later: seq<Step<V>>)
    requires Possible(v, before + [Clone(x)] + between + ([Push(x)] + since) + [failure] + later)
    requires AllReach(since, x) && failure.Send? && x !in failure.alive
    ensures var known := before + [Clone(x)] + between + ([Push(x)] + since);
      var s, h := After(v, known + [failure] + later), Published(v, known);
      var i, j, k := |Published(v, before)| - 1, 1 + Sends(before + [Clone(x)] + between), 1 + Sends(known);
      && i < j <= k <= |h|
      && x !in s.clients && x in s.heard && s.heard[x] == [h[i]] + h[j..k]
  {
    var known := before + [Clone(x)] + between + ([Push(x)] + since);
    assert known + ([failure] + later) == known + [failure] + later;
    PossiblePrefix(v, known, [failure] + later);
    StateDelivery(v, before, x, between, since);
    HearsEveryBroadcast(v, before, x, between, since);
    NotYetListed(v, known);
    SilentAfterFailure(v, known, x, failure, later);
  }

  // ---------------------------------------------------------------------------------------
  // The endpoint
  // ---------------------------------------------------------------------------------------

  /** The value cell and the list of subscribers that the state and its handles share. */
  class StateCell<V> {
    var currentValue: V
    var clients: seq<Sub>
    /** The value lock is held by a `set` that has written but not broadcast. */
    ghost var locked: bool
    ghost var progress: map<Sub, Progress<V>>
    ghost var heard: map<Sub, seq<V>>
    /** The value at the start, and the sections that were taken so far. */
    ghost var first: V
    ghost var steps: seq<Step<V>>

    ghost function View(): State<V>
      reads this
    {
      State(currentValue, locked, clients, progress, heard)
    }

    /** The cell and the list are where a run of sections has led. */
    ghost predicate Valid()
      reads this
    {
      Possible(first, steps) && View() == After(first, steps) && Listed(View())
    }

    constructor (v: V)
      ensures Valid() && first == v && steps == []
    {
      currentValue, clients, locked, progress, heard := v, [], false, map[], map[];
      first, steps := v, [];
    }

    /** The first section of `add_client`: it gets the last value published, whose broadcast is over. */
    method CloneValue(x: Sub) returns (v: V)
      requires Valid() && !locked && x !in progress
      modifies this`progress, this`steps
      ensures Valid() && steps == old(steps) + [Clone(x)]
      ensures v == ClonedValue(first, old(steps)) && |Published(first, steps)| == 1 + Sends(steps)
      ensures progress == old(progress)[x := Cloned(v)]
    {
      WritesAndSends(first, steps);
      OneMore(first, steps, Clone(x));
      progress := progress[x := Cloned(currentValue)];
      steps := steps + [Clone(x)];
      return currentValue;
    }

    /** The answer to the subscription, with the value cloned before: all the subscriber has heard so far. */
    method RespondWith(x: Sub, v: V, ok: bool) returns (push: bool)
      requires Valid() && x in progress && progress[x] == Cloned(v)
      modifies this`progress, this`heard, this`steps
      ensures Valid() && steps == old(steps) + [Respond(x, ok)]
      ensures push == ok
      ensures heard == if ok then old(heard)[x := [v]] else old(heard)
      ensures x in heard <==> ok
      ensures progress == old(progress)[x := if ok then Answered else Refused]
    {
      OneMore(first, steps, Respond(x, ok));
      if ok {
        progress := progress[x := Answered];
        heard := heard[x := [v]];
      } else {
        progress := progress[x := Refused];
      }
      steps := steps + [Respond(x, ok)];
      return ok;
    }

    /** The last section of `add_client`: from now on the subscriber follows the broadcasts. */
    method PushClient(x: Sub)
      requires Valid() && x in progress && progress[x].Answered?
      modifies this`progress, this`clients, this`steps
      ensures Valid() && steps == old(steps) + [Push(x)]
      ensures clients == old(clients) + [x] && x !in old(clients)
      ensures x in heard && |heard[x]| == 1 && Follows(first, steps, x, heard[x][0], 1 + Sends(old(steps)))
    {
      OneMore(first, steps, Push(x));
      assert heard[x] == [heard[x][0]];
      StartsToFollow(first, steps, x, heard[x][0]);
      clients := clients + [x];
      progress := progress[x := Listening];
      steps := steps + [Push(x)];
    }

    /** The first section of `set`: the value gets the next number. One that cannot be encoded changes nothing. */
    method WriteValue(encoded: Option<V>) returns (ok: bool)
      requires Valid() && !locked
      modifies this`currentValue, this`locked, this`steps
      ensures Valid() && (ok <==> encoded.Some?)
      ensures !ok ==> View() == old(View()) && steps == old(steps)
      ensures ok ==> steps == old(steps) + [Write(encoded.value)] && locked
      ensures ok ==> Published(first, steps) == Published(first, old(steps)) + [encoded.value]
    {
      if encoded.None? {
        return false;
      }
      OneMore(first, steps, Write(encoded.value));
      currentValue := encoded.value;
      locked := true;
      steps := steps + [Write(encoded.value)];
      return true;
    }

    /**
     * The second section of `set`: broadcast under both locks, then release them. Whoever can be reached
     * hears the value and stays on the list; nobody else does either.
     */
    method SendValue(reachable: set<Sub>)
      requires Valid() && locked
      modifies this`clients, this`locked, this`heard, this`steps
      ensures Valid() && steps == old(steps) + [Send(reachable)] && !locked
      ensures forall x :: x in clients <==> x in old(clients) && x in reachable
      ensures heard.Keys == old(heard).Keys
      ensures forall x :: x in clients ==> x in heard && heard[x] == old(heard)[x] + [currentValue]
      ensures forall x :: x in heard && x !in clients ==> heard[x] == old(heard)[x]
    {
      OneMore(first, steps, Send(reachable));
      SendTells(View(), reachable);
      heard := Deliver(heard, clients, reachable, currentValue);
      clients := Broadcast.Send(clients, reachable);
      locked := false;
      steps := steps + [Send(reachable)];
    }
  }

  /** One more section of a run. */
  lemma OneMore<V>(v: V, front: seq<Step<V>>, step: Step<V>)
    requires Possible(v, front) && Enabled(After(v, front), step) && Listed(After(v, front))
    ensures Possible(v, front + [step]) && After(v, front + [step]) == Next(After(v, front), step)
    ensures Listed(After(v, front + [step]))
    ensures Published(v, front + [step]) == Published(v, front) + if step.Write? then [step.value] else []
    ensures Sends(front + [step]) == Sends(front) + if step.Send? then 1 else 0
  {
    assert (front + [step])[..|front|] == front;
    StepKeepsListed(After(v, front), step);
  }

  /** Whom a broadcast reaches hears the value and stays on the list; nobody else does. */
  lemma SendTells<V>(s: State<V>, reachable: set<Sub>)
    requires Listed(s)
    ensures var s' := Next(s, Send(reachable));
      && (forall x :: x in s'.clients <==> x in s.clients && x in reachable)
      && s'.heard.Keys == s.heard.Keys
      && (forall x :: x in s'.clients ==> x in s'.heard && s'.heard[x] == s.heard[x] + [s.current])
      && (forall x :: x in s'.heard && x !in s'.clients ==> s'.heard[x] == s.heard[x])
  {
    SurvivorsMembers(s.clients, reachable);
  }
}
