/**
 * Registering a name takes three sections: the insertion into the registry, the reply, and the
 * draining of the waiters. Other tasks run in between. This file shows that they might as well not:
 * every such run ends where the run ends that replies and drains at once, with the same entries in the
 * log. Each request sees the same entries in the same order, and so does each connection, but for two
 * kinds: the registering service can be offered connections in another order, and a client whose waiting
 * request is drained can get that answer before or after the answers to its other requests.
 */
module HubRegistration {
  import opened ServicePermissions
  import opened HubProtocol
  import opened HubHistory
  import opened HubSafety

  predicate Completes(d: Step) {
    d.Reply? || d.Drain?
  }

  ghost function CoreAfter(perms: Permissions, c: Core, steps: seq<Step>): Core
    decreases |steps|
  {
    if steps == [] then c else CoreAfter(perms, NextCore(perms, c, steps[0]), steps[1..])
  }

  /** What a run adds to the log. */
  ghost function Written(perms: Permissions, c: Core, steps: seq<Step>): seq<Event>
    decreases |steps|
  {
    if steps == [] then []
    else Delta(perms, c, steps[0]) + Written(perms, NextCore(perms, c, steps[0]), steps[1..])
  }

  lemma {:induction false} AfterIsWritten(perms: Permissions, s: State, steps: seq<Step>)
    ensures After(perms, s, steps) == State(CoreAfter(perms, s.core, steps), s.log + Written(perms, s.core, steps))
    decreases |steps|
  {
    if steps == [] {
      assert s.log + [] == s.log;
    } else {
      var s', rest := Next(perms, s, steps[0]), steps[1..];
      AfterIsWritten(perms, s', rest);
      Associates(s.log, Delta(perms, s.core, steps[0]), Written(perms, s'.core, rest));
    }
  }

  lemma Associates(a: seq<Event>, b: seq<Event>, c: seq<Event>)
    ensures a + b + c == a + (b + c)
  {
  }

  // ---------------------------------------------------------------------------------------
  // One step of another task
  // ---------------------------------------------------------------------------------------

  /** Nobody else touches the queue of a registered name, nor the phase of its owner. */
  lemma OthersLeaveAlone(perms: Permissions, c: Core, x: Step, task: TaskId)
    requires CoreInv(c) && InPhase(c, x) && StepTask(x) != task && HasName(PhaseOf(c, task))
    ensures PhaseOf(NextCore(perms, c, x), task) == PhaseOf(c, task)
    ensures Waiters(NextCore(perms, c, x), PhaseOf(c, task).name) == Waiters(c, PhaseOf(c, task).name)
  {
  }

  /** Replying or draining leaves alone what a step of another task depends on. */
  lemma CompletionLeavesAlone(perms: Permissions, c: Core, x: Step, d: Step)
    requires CoreInv(c) && Completes(d) && InPhase(c, d) && StepTask(x) != StepTask(d)
    ensures InPhase(NextCore(perms, c, d), x) <==> InPhase(c, x)
    ensures Delta(perms, NextCore(perms, c, d), x) == Delta(perms, c, x)
  {
    var c' := NextCore(perms, c, d);
    assert c'.registry == c.registry;
    assert PhaseOf(c', StepTask(x)) == PhaseOf(c, StepTask(x));
    assert c'.phases.Keys == c.phases.Keys;
    if x.Drain? && PhaseOf(c, x.task).Replied? {
      assert PhaseOf(c, x.task).name != PhaseOf(c, StepTask(d)).name;
      assert Waiters(c', PhaseOf(c, x.task).name) == Waiters(c, PhaseOf(c, x.task).name);
    }
  }

  /** The two orders lead to the same tables. */
  lemma CoresCommute(perms: Permissions, c: Core, x: Step, d: Step)
    requires CoreInv(c) && InPhase(c, x) && Completes(d) && InPhase(c, d) && StepTask(x) != StepTask(d)
    ensures NextCore(perms, NextCore(perms, c, x), d) == NextCore(perms, NextCore(perms, c, d), x)
  {
    var cx, cd := NextCore(perms, c, x), NextCore(perms, c, d);
    var xd, dx := NextCore(perms, cx, d), NextCore(perms, cd, x);
    OthersLeaveAlone(perms, c, x, StepTask(d));
    RegistryCommutes(perms, c, x, d);
    PhasesCommute(perms, c, x, d);
    PendingCommutes(perms, c, x, d);
  }

  lemma RegistryCommutes(perms: Permissions, c: Core, x: Step, d: Step)
    requires Completes(d) && StepTask(x) != StepTask(d)
    ensures NextCore(perms, NextCore(perms, c, x), d).registry == NextCore(perms, NextCore(perms, c, d), x).registry
  {
    var cd := NextCore(perms, c, d);
    assert cd.registry == c.registry;
    assert PhaseOf(cd, StepTask(x)) == PhaseOf(c, StepTask(x));
    assert NextCore(perms, cd, x).registry == NextCore(perms, c, x).registry;
  }

  /** The phase a step leaves its own task in depends on the registry and on that task only. */
  lemma PhasesCommute(perms: Permissions, c: Core, x: Step, d: Step)
    requires Completes(d) && StepTask(x) != StepTask(d) && InPhase(c, d)
    ensures NextCore(perms, NextCore(perms, c, x), d).phases == NextCore(perms, NextCore(perms, c, d), x).phases
  {
    var cx, cd := NextCore(perms, c, x), NextCore(perms, c, d);
    SameOwnPhase(perms, c, cd, x) by {
      OwnPhase(perms, c, d);
    }
    SameOwnPhase(perms, c, cx, d) by {
      OwnPhase(perms, c, x);
    }
    OwnPhase(perms, c, x);
    OwnPhase(perms, cd, x);
    OwnPhase(perms, c, d);
    OwnPhase(perms, cx, d);
    SamePhases(NextCore(perms, cx, d), NextCore(perms, cd, x));
  }

  lemma SamePhases(c: Core, c': Core)
    requires forall t :: t in c.phases <==> t in c'.phases
    requires forall t :: PhaseOf(c, t) == PhaseOf(c', t)
    ensures c.phases == c'.phases
  {
    assert forall t :: t in c.phases ==> c.phases[t] == PhaseOf(c, t) && c'.phases[t] == PhaseOf(c', t);
  }

  lemma SameOwnPhase(perms: Permissions, c: Core, c': Core, x: Step)
    requires c.registry == c'.registry || Completes(x)
    requires StepTask(x) in c.phases <==> StepTask(x) in c'.phases
    requires PhaseOf(c, StepTask(x)) == PhaseOf(c', StepTask(x))
    ensures StepTask(x) in NextCore(perms, c, x).phases <==> StepTask(x) in NextCore(perms, c', x).phases
    ensures PhaseOf(NextCore(perms, c, x), StepTask(x)) == PhaseOf(NextCore(perms, c', x), StepTask(x))
  {
  }

  /** A step changes the phase of its own task and of no other. */
  lemma OwnPhase(perms: Permissions, c: Core, x: Step)
    ensures forall t :: t != StepTask(x) ==>
      && (t in NextCore(perms, c, x).phases <==> t in c.phases)
      && PhaseOf(NextCore(perms, c, x), t) == PhaseOf(c, t)
  {
  }

  lemma PendingCommutes(perms: Permissions, c: Core, x: Step, d: Step)
    requires CoreInv(c) && InPhase(c, x) && Completes(d) && InPhase(c, d) && StepTask(x) != StepTask(d)
    requires PhaseOf(NextCore(perms, c, x), StepTask(d)) == PhaseOf(c, StepTask(d))
    ensures NextCore(perms, NextCore(perms, c, x), d).pending == NextCore(perms, NextCore(perms, c, d), x).pending
  {
    if x.Serve? && x.q.body.Connect? {
      QueueCommutes(perms, c, x, d);
    } else if x.Drain? {
      assert PhaseOf(NextCore(perms, c, d), x.task) == PhaseOf(c, x.task);
    }
  }

  lemma QueueCommutes(perms: Permissions, c: Core, x: Step, d: Step)
    requires CoreInv(c) && InPhase(c, x) && Completes(d) && InPhase(c, d) && StepTask(x) != StepTask(d)
    requires x.Serve? && x.q.body.Connect?
    ensures NextCore(perms, NextCore(perms, c, x), d).pending == NextCore(perms, NextCore(perms, c, d), x).pending
  {
    var cd, initiator, t := NextCore(perms, c, d), PhaseOf(c, x.q.task).name, x.q.body.target;
    assert cd.registry == c.registry && PhaseOf(cd, x.q.task) == PhaseOf(c, x.q.task);
    assert Queues(perms, cd, x.q, initiator, x.disk) <==> Queues(perms, c, x.q, initiator, x.disk);
    if Queues(perms, c, x.q, initiator, x.disk) && d.Drain? {
      assert PhaseOf(c, d.task).name in c.registry;
      assert Waiters(cd, t) == Waiters(c, t);
    }
  }

  lemma Fresh(log: seq<Event>, a: seq<Event>, b: seq<Event>)
    requires NewPairs(log, a) && NewPairs(log + a, b)
    ensures NewPairs(log, b) && NewPairs(log + b, a)
  {
    forall i | 0 <= i < |b| && b[i].Offered? ensures !PairUsed(log, b[i].pair) {
      PairUsedConcat(log, a, b[i].pair);
    }
    forall i | 0 <= i < |a| && a[i].Offered? ensures !PairUsed(log + b, a[i].pair) {
      PairUsedConcat(log, b, a[i].pair);
      assert a[i] in a;
      PairUsedConcat(log, a, a[i].pair);
    }
  }

  lemma PairUsedConcat(log: seq<Event>, es: seq<Event>, p: PairId)
    ensures PairUsed(log + es, p) <==> PairUsed(log, p) || PairUsed(es, p)
  {
    assert forall e :: e in log + es <==> e in log || e in es;
  }

  /** A completion can be done before the step of another task that came before it. */
  lemma Swap(perms: Permissions, s: State, x: Step, d: Step)
    requires CoreInv(s.core) && Completes(d) && StepTask(x) != StepTask(d) && HasName(PhaseOf(s.core, StepTask(d)))
    requires Enabled(perms, s, x) && Enabled(perms, Next(perms, s, x), d)
    ensures Enabled(perms, s, d) && Enabled(perms, Next(perms, s, d), x)
    ensures NextCore(perms, NextCore(perms, s.core, x), d) == NextCore(perms, NextCore(perms, s.core, d), x)
    ensures Delta(perms, NextCore(perms, s.core, x), d) == Delta(perms, s.core, d)
    ensures Delta(perms, NextCore(perms, s.core, d), x) == Delta(perms, s.core, x)
  {
    var dx, dd := Delta(perms, s.core, x), Delta(perms, s.core, d);
    OthersLeaveAlone(perms, s.core, x, StepTask(d));
    CompletionLeavesAlone(perms, s.core, x, d);
    CoresCommute(perms, s.core, x, d);
    assert Delta(perms, NextCore(perms, s.core, x), d) == dd;
    Fresh(s.log, dx, dd);
    StillNew(perms, s, x, d);
  }

  lemma StillNew(perms: Permissions, s: State, x: Step, d: Step)
    requires Completes(d) && NewRequest(s.log, x)
    ensures NewRequest(s.log + Delta(perms, s.core, d), x)
  {
    if d.Drain? && PhaseOf(s.core, d.task).Replied? && |Waiters(s.core, s.core.phases[d.task].name)| == |d.sends| {
      DrainedShape(Waiters(s.core, s.core.phases[d.task].name), d.task, d.sends);
    }
    assert forall e :: e in Delta(perms, s.core, d) ==> !e.Polled?;
  }

  /** Draining writes resolutions, offers to the drained service, and answers to its waiters. */
  lemma {:induction false} DrainedShape(ws: seq<Waiter>, writer: TaskId, sends: seq<Send>)
    requires |ws| == |sends|
    ensures forall e :: e in Drained(ws, writer, sends) ==>
      (e.Resolving? || e.Answered? || (e.Offered? && e.writer == writer)) && exists w :: w in ws && w.q == e.q
    decreases |ws|
  {
    if ws != [] {
      var k := |ws| - 1;
      var before, one := Drained(ws[..k], writer, sends[..k]), ServedOne(ws[k], writer, sends[k]);
      DrainedShape(ws[..k], writer, sends[..k]);
      DrainedLast(ws, writer, sends);
      forall e: Event | e in before + one
        ensures (e.Resolving? || e.Answered? || (e.Offered? && e.writer == writer)) && exists w :: w in ws && w.q == e.q
      {
        if e in before {
          var w :| w in ws[..k] && w.q == e.q;
          assert w in ws;
        } else {
          assert e in one && e.q == ws[k].q && ws[k] in ws;
        }
      }
    }
  }

  // ---------------------------------------------------------------------------------------
  // Any number of steps of other tasks
  // ---------------------------------------------------------------------------------------

  lemma {:induction false} MoveToFront(perms: Permissions, s: State, xs: seq<Step>, d: Step)
    requires Inv(perms, s) && Completes(d) && HasName(PhaseOf(s.core, StepTask(d)))
    requires forall i :: 0 <= i < |xs| ==> StepTask(xs[i]) != StepTask(d)
    requires Possible(perms, s, xs) && Enabled(perms, After(perms, s, xs), d)
    ensures Enabled(perms, s, d) && Possible(perms, Next(perms, s, d), xs)
    ensures NextCore(perms, After(perms, s, xs).core, d) == CoreAfter(perms, NextCore(perms, s.core, d), xs)
    ensures Delta(perms, After(perms, s, xs).core, d) == Delta(perms, s.core, d)
    ensures Written(perms, NextCore(perms, s.core, d), xs) == Written(perms, s.core, xs)
    decreases |xs|
  {
    if xs != [] {
      var x, rest := xs[0], xs[1..];
      var s1 := Next(perms, s, x);
      StepKeepsInv(perms, s, x);
      OthersLeaveAlone(perms, s.core, x, StepTask(d));
      MoveToFront(perms, s1, rest, d);
      Swap(perms, s, x, d);
      var a, b := Next(perms, s1, d), Next(perms, Next(perms, s, d), x);
      assert a.core == b.core;
      SameEntries(perms, a, b, rest);
    }
  }

  /** Whether a run is possible depends on which entries the log has, not on their order. */
  lemma {:induction false} SameEntries(perms: Permissions, a: State, b: State, steps: seq<Step>)
    requires a.core == b.core && Possible(perms, a, steps)
    requires forall e :: e in a.log <==> e in b.log
    ensures Possible(perms, b, steps)
    decreases |steps|
  {
    if steps != [] {
      var a', b' := Next(perms, a, steps[0]), Next(perms, b, steps[0]);
      assert forall e :: e in a'.log <==> e in b'.log;
      assert forall p :: PairUsed(a.log, p) <==> PairUsed(b.log, p);
      assert forall id :: IdUsed(a.log, id) <==> IdUsed(b.log, id);
      SameEntries(perms, a', b', steps[1..]);
    }
  }

  // ---------------------------------------------------------------------------------------
  // The theorem
  // ---------------------------------------------------------------------------------------

  /** The entries of one kind, in order. */
  function Only(log: seq<Event>, f: Event -> bool): seq<Event> {
    if log == [] then []
    else Only(log[..|log| - 1], f) + if f(Last(log)) then [Last(log)] else []
  }

  /** The connections offered to one service. */
  function OffersTo(w: TaskId): Event -> bool {
    (e: Event) => e.Offered? && e.writer == w
  }

  /** Everything written to the connection of one task: offers to it and answers to its requests. */
  function WrittenTo(w: TaskId): Event -> bool {
    (e: Event) => (e.Offered? && e.writer == w) || (e.Answered? && e.q.task == w)
  }

  /** Everything that happens to one request. */
  function About(q: Request): Event -> bool {
    (e: Event) => !e.Reaped? && e.q == q
  }

  lemma {:induction false} OnlyConcat(a: seq<Event>, b: seq<Event>, f: Event -> bool)
    ensures Only(a + b, f) == Only(a, f) + Only(b, f)
    decreases |b|
  {
    if b == [] {
      assert a + b == a;
    } else {
      var front, last := b[..|b| - 1], b[|b| - 1];
      OnlyConcat(a, front, f);
      OnlySnoc(a + front, last, f);
      OnlySnoc(front, last, f);
      assert a + b == a + front + [last] && b == front + [last];
    }
  }

  lemma OnlySnoc(log: seq<Event>, e: Event, f: Event -> bool)
    ensures Only(log + [e], f) == Only(log, f) + if f(e) then [e] else []
  {
    assert (log + [e])[..|log|] == log;
  }

  /** Nothing of that kind is left out, and nothing else is in. */
  lemma {:induction false} OnlyCounts(log: seq<Event>, f: Event -> bool, e: Event)
    ensures multiset(Only(log, f))[e] == if f(e) then multiset(log)[e] else 0
  {
    if log != [] {
      var front := log[..|log| - 1];
      OnlyCounts(front, f, e);
      assert log == front + [Last(log)];
    }
  }

  lemma {:induction false} OnlyNone(es: seq<Event>, f: Event -> bool)
    requires forall e :: e in es ==> !f(e)
    ensures Only(es, f) == []
  {
    if es != [] {
      assert Last(es) in es;
      OnlyNone(es[..|es| - 1], f);
    }
  }

  lemma OnlyFive(a: seq<Event>, b: seq<Event>, c: seq<Event>, d: seq<Event>, e: seq<Event>, f: Event -> bool)
    ensures Only(a + b + c + d + e, f) == Only(a, f) + Only(b, f) + Only(c, f) + Only(d, f) + Only(e, f)
  {
    OnlyConcat(a + b + c + d, e, f);
    OnlyConcat(a + b + c, d, f);
    OnlyConcat(a + b, c, f);
    OnlyConcat(a, b, f);
  }

  /** Two pairs of blocks change places without being noticed by whoever looks at one pair only. */
  lemma SwappedBlocks(l: seq<Event>, x: seq<Event>, r: seq<Event>, y: seq<Event>, d: seq<Event>, f: Event -> bool)
    requires (forall e :: e in r || e in d ==> !f(e)) || (forall e :: e in x || e in y ==> !f(e))
    ensures Only(l + x + r + y + d, f) == Only(l + r + d + x + y, f)
  {
    OnlyFive(l, x, r, y, d, f);
    OnlyFive(l, r, d, x, y, f);
    if forall e :: e in r || e in d ==> !f(e) {
      OnlyNone(r, f);
      OnlyNone(d, f);
    } else {
      OnlyNone(x, f);
      OnlyNone(y, f);
    }
    BlocksSwap(Only(l, f), Only(x, f), Only(r, f), Only(y, f), Only(d, f));
  }

  lemma BlocksSwap(l: seq<Event>, x: seq<Event>, r: seq<Event>, y: seq<Event>, d: seq<Event>)
    requires (r == [] && d == []) || (x == [] && y == [])
    ensures l + x + r + y + d == l + r + d + x + y
  {
  }

  // ---------------------------------------------------------------------------------------
  // Who notices
  // ---------------------------------------------------------------------------------------

  /** `q` is the registration of `task`, or waits for the name that `task` registered. */
  ghost predicate Involved(s: State, task: TaskId, q: Request) {
    && HasName(PhaseOf(s.core, task)) && IdUsed(s.log, q.id)
    && ((q.body.Register? && q.task == task)
        || exists w :: w in Waiters(s.core, PhaseOf(s.core, task).name) && w.q == q)
  }

  /** No step of another task has to do with such a request. */
  lemma OthersNotAbout(perms: Permissions, s: State, x: Step, task: TaskId, q: Request)
    requires Inv(perms, s) && Enabled(perms, s, x) && StepTask(x) != task && Involved(s, task, q)
    ensures forall e :: e in Delta(perms, s.core, x) ==> !About(q)(e)
    ensures Involved(Next(perms, s, x), task, q)
  {
    OthersLeaveAlone(perms, s.core, x, task);
    InvolvedIsFor(perms, s, task, q);
    if x.Drain? {
      var ws := Waiters(s.core, PhaseOf(s.core, x.task).name);
      DrainedShape(ws, x.task, x.sends);
      forall w | w in ws ensures w.q != q {
        QueuedForName(perms, s, PhaseOf(s.core, x.task).name, w);
      }
    } else if x.Serve? || x.Authorize? {
      OwnEntries(perms, s.core, x);
    }
    IdStaysUsed(s.log, Delta(perms, s.core, x), q.id);
  }

  lemma IdStaysUsed(log: seq<Event>, es: seq<Event>, id: RequestId)
    requires IdUsed(log, id)
    ensures IdUsed(log + es, id)
  {
    var e :| e in log && e.Polled? && e.q.id == id;
    assert e in log + es;
  }

  lemma OwnEntries(perms: Permissions, c: Core, x: Step)
    requires x.Serve? || x.Authorize?
    ensures forall e :: e in Delta(perms, c, x) ==> !e.Reaped? && e.q == x.q
  {
  }

  lemma QueuedForName(perms: Permissions, s: State, name: Name, w: Waiter)
    requires Inv(perms, s) && w in Waiters(s.core, name)
    ensures IsFor(w.q, name) && IdUsed(s.log, w.q.id)
  {
    assert Waiting(s.log, name) == Waiters(s.core, name);
    var k :| 0 <= k < |Waiting(s.log, name)| && Waiting(s.log, name)[k] == w;
    var i := WaiterWasQueued(s.log, name, k);
    EventsWereRead(perms, s.log);
    assert s.log[i] in s.log;
  }

  lemma InvolvedIsFor(perms: Permissions, s: State, task: TaskId, q: Request)
    requires Inv(perms, s) && Involved(s, task, q)
    ensures (q.body.Register? && q.task == task) || IsFor(q, PhaseOf(s.core, task).name)
  {
    if !(q.body.Register? && q.task == task) {
      var w :| w in Waiters(s.core, PhaseOf(s.core, task).name) && w.q == q;
      QueuedForName(perms, s, PhaseOf(s.core, task).name, w);
    }
  }

  lemma {:induction false} RunNotAbout(perms: Permissions, s: State, xs: seq<Step>, task: TaskId, q: Request)
    requires Inv(perms, s) && Possible(perms, s, xs) && Involved(s, task, q)
    requires forall i :: 0 <= i < |xs| ==> StepTask(xs[i]) != task
    ensures forall e :: e in Written(perms, s.core, xs) ==> !About(q)(e)
    ensures Involved(After(perms, s, xs), task, q)
    decreases |xs|
  {
    if xs != [] {
      StepKeepsInv(perms, s, xs[0]);
      OthersNotAbout(perms, s, xs[0], task, q);
      RunNotAbout(perms, Next(perms, s, xs[0]), xs[1..], task, q);
    }
  }

  /** What replying and draining write, and for whom. */
  lemma CompletionEntries(perms: Permissions, c: Core, task: TaskId, sends: seq<Send>)
    requires CoreInv(c) && PhaseOf(c, task).Inserted?
    requires InPhase(NextCore(perms, c, Reply(task)), Drain(task, sends))
    ensures var reg, ws := PhaseOf(c, task).q, Waiters(c, PhaseOf(c, task).name);
      && Delta(perms, c, Reply(task)) == [Answered(reg, RegisteredOk)] && reg.task == task && reg.body.Register?
      && forall e :: e in Delta(perms, NextCore(perms, c, Reply(task)), Drain(task, sends)) ==>
           && !e.Reaped? && (e.Offered? ==> e.writer == task)
           && exists w :: w in ws && w.q == e.q
  {
    DrainedShape(Waiters(c, PhaseOf(c, task).name), task, sends);
  }

  /** Replying leaves everybody involved who was. */
  lemma ReplyInvolves(perms: Permissions, s: State, task: TaskId, q: Request)
    requires Involved(s, task, q) && PhaseOf(s.core, task).Inserted?
    ensures Involved(Next(perms, s, Reply(task)), task, q)
  {
    IdStaysUsed(s.log, Delta(perms, s.core, Reply(task)), q.id);
  }

  /** Both runs, block by block. */
  lemma GapCloses(perms: Permissions, s: State, r: Step, d: Step, early: seq<Step>, late: seq<Step>)
    requires Inv(perms, s) && Completes(r) && Completes(d) && StepTask(r) == StepTask(d)
    requires HasName(PhaseOf(s.core, StepTask(r)))
    requires forall i :: 0 <= i < |early| ==> StepTask(early[i]) != StepTask(r)
    requires forall i :: 0 <= i < |late| ==> StepTask(late[i]) != StepTask(r)
    requires Possible(perms, s, early + [r] + late + [d])
    ensures Possible(perms, s, early) && Enabled(perms, After(perms, s, early), r)
    ensures Enabled(perms, s, r) && Enabled(perms, Next(perms, s, r), d)
    ensures Possible(perms, s, [r, d] + (early + late))
    ensures var x, rd := Written(perms, s.core, early), Delta(perms, s.core, r);
      var y := Written(perms, Next(perms, After(perms, s, early), r).core, late);
      var dd := Delta(perms, NextCore(perms, s.core, r), d);
      var gap := After(perms, s, early + [r] + late + [d]);
      var atomic := After(perms, s, [r, d] + (early + late));
      && gap.core == atomic.core
      && gap.log == s.log + x + rd + y + dd
      && atomic.log == s.log + rd + dd + x + y
  {
    var s1 := After(perms, s, early);
    var s2 := Next(perms, s1, r);
    var t2 := Next(perms, Next(perms, s, r), d);
    var t3 := After(perms, t2, early);
    SplitGap(perms, s, early, r, late, d);
    RunKeepsInv(perms, s, early);
    StillInserted(perms, s, early, StepTask(r));
    StepKeepsInv(perms, s1, r);
    CompletionKeepsName(perms, s1.core, r);
    MoveToFront(perms, s2, late, d);
    BothToFront(perms, s, early, r, d);
    AfterIsWritten(perms, s, early);
    AfterIsWritten(perms, t2, early);
    SameEntries(perms, Next(perms, s2, d), t3, late);
    AfterIsWritten(perms, s2, late);
    AfterIsWritten(perms, t3, late);
    JoinAtomic(perms, s, r, d, early, late);
  }

  lemma {:induction false} StillInserted(perms: Permissions, s: State, xs: seq<Step>, task: TaskId)
    requires Inv(perms, s) && HasName(PhaseOf(s.core, task)) && Possible(perms, s, xs)
    requires forall i :: 0 <= i < |xs| ==> StepTask(xs[i]) != task
    ensures PhaseOf(After(perms, s, xs).core, task) == PhaseOf(s.core, task)
    decreases |xs|
  {
    if xs != [] {
      StepKeepsInv(perms, s, xs[0]);
      OthersLeaveAlone(perms, s.core, xs[0], task);
      StillInserted(perms, Next(perms, s, xs[0]), xs[1..], task);
    }
  }

  /** Two completions of one task, both moved before the steps of others. */
  lemma BothToFront(perms: Permissions, s: State, xs: seq<Step>, r: Step, d: Step)
    requires Inv(perms, s) && Completes(r) && Completes(d) && StepTask(r) == StepTask(d)
    requires HasName(PhaseOf(s.core, StepTask(r)))
    requires forall i :: 0 <= i < |xs| ==> StepTask(xs[i]) != StepTask(r)
    requires Possible(perms, s, xs) && Enabled(perms, After(perms, s, xs), r)
    requires Enabled(perms, Next(perms, After(perms, s, xs), r), d)
    ensures Enabled(perms, s, r) && Enabled(perms, Next(perms, s, r), d)
    ensures Possible(perms, Next(perms, Next(perms, s, r), d), xs)
    ensures Delta(perms, After(perms, s, xs).core, r) == Delta(perms, s.core, r)
    ensures Delta(perms, Next(perms, After(perms, s, xs), r).core, d) == Delta(perms, NextCore(perms, s.core, r), d)
    ensures Written(perms, NextCore(perms, NextCore(perms, s.core, r), d), xs) == Written(perms, s.core, xs)
    ensures CoreAfter(perms, NextCore(perms, NextCore(perms, s.core, r), d), xs)
         == NextCore(perms, Next(perms, After(perms, s, xs), r).core, d)
  {
    var t1 := Next(perms, s, r);
    MoveToFront(perms, s, xs, r);
    StepKeepsInv(perms, s, r);
    CompletionKeepsName(perms, s.core, r);
    AfterIsWritten(perms, s, xs);
    AfterIsWritten(perms, t1, xs);
    SameEnabled(perms, Next(perms, After(perms, s, xs), r), After(perms, t1, xs), d);
    MoveToFront(perms, t1, xs, d);
  }

  lemma CompletionKeepsName(perms: Permissions, c: Core, r: Step)
    requires Completes(r) && HasName(PhaseOf(c, StepTask(r)))
    ensures HasName(PhaseOf(NextCore(perms, c, r), StepTask(r)))
  {
  }

  lemma SameEnabled(perms: Permissions, a: State, b: State, d: Step)
    requires a.core == b.core && Enabled(perms, a, d)
    requires forall e :: e in a.log <==> e in b.log
    ensures Enabled(perms, b, d)
  {
    assert Possible(perms, Next(perms, a, d), []);
    SameEntries(perms, a, b, [d]);
  }

  /** The run with gaps, piece by piece. */
  lemma SplitGap(perms: Permissions, s: State, early: seq<Step>, r: Step, late: seq<Step>, d: Step)
    requires Possible(perms, s, early + [r] + late + [d])
    ensures Possible(perms, s, early) && Enabled(perms, After(perms, s, early), r)
    ensures var s2 := Next(perms, After(perms, s, early), r);
      && Possible(perms, s2, late) && Enabled(perms, After(perms, s2, late), d)
      && After(perms, s, early + [r] + late + [d]) == Next(perms, After(perms, s2, late), d)
  {
    var s1 := After(perms, s, early);
    RunConcat(perms, s, early + [r] + late, [d]);
    RunConcat(perms, s, early + [r], late);
    RunConcat(perms, s, early, [r]);
    OneStep(perms, s1, r);
    OneStep(perms, After(perms, s, early + [r] + late), d);
  }

  lemma OneStep(perms: Permissions, s: State, x: Step)
    ensures Possible(perms, s, [x]) <==> Enabled(perms, s, x)
    ensures After(perms, s, [x]) == Next(perms, s, x)
  {
    assert [x][1..] == [];
  }

  lemma JoinAtomic(perms: Permissions, s: State, r: Step, d: Step, early: seq<Step>, late: seq<Step>)
    requires Enabled(perms, s, r) && Enabled(perms, Next(perms, s, r), d)
    requires var t2 := Next(perms, Next(perms, s, r), d);
      Possible(perms, t2, early) && Possible(perms, After(perms, t2, early), late)
    ensures Possible(perms, s, [r, d] + (early + late))
    ensures After(perms, s, [r, d] + (early + late))
         == After(perms, After(perms, Next(perms, Next(perms, s, r), d), early), late)
  {
    RunConcat(perms, s, [r, d], early + late);
    assert [r, d] == [r] + [d];
    RunConcat(perms, s, [r], [d]);
    OneStep(perms, s, r);
    OneStep(perms, Next(perms, s, r), d);
    RunConcat(perms, Next(perms, Next(perms, s, r), d), early, late);
  }

  // ---------------------------------------------------------------------------------------
  // One registration
  // ---------------------------------------------------------------------------------------

  /** The same entries, in an order that no request can tell from the other. */
  ghost predicate SameHistories(a: seq<Event>, b: seq<Event>) {
    multiset(a) == multiset(b) && forall q :: Only(a, About(q)) == Only(b, About(q))
  }

  /** The run with gaps: the steps of others, the reply, more of them, and the draining. */
  function WithGap(early: seq<Step>, task: TaskId, late: seq<Step>, sends: seq<Send>): seq<Step> {
    early + [Reply(task)] + late + [Drain(task, sends)]
  }

  /** The run that replies and drains at once. */
  function AtOnce(early: seq<Step>, task: TaskId, late: seq<Step>, sends: seq<Send>): seq<Step> {
    [Reply(task), Drain(task, sends)] + (early + late)
  }

  ghost predicate Gap(perms: Permissions, s: State, early: seq<Step>, task: TaskId, late: seq<Step>, sends: seq<Send>) {
    && Inv(perms, s) && PhaseOf(s.core, task).Inserted?
    && (forall i :: 0 <= i < |early| ==> StepTask(early[i]) != task)
    && (forall i :: 0 <= i < |late| ==> StepTask(late[i]) != task)
    && Possible(perms, s, WithGap(early, task, late, sends))
  }

  /** Everybody who looks only at one of the two kinds of blocks sees the same. */
  lemma GapUnseen(perms: Permissions, s: State, early: seq<Step>, task: TaskId, late: seq<Step>, sends: seq<Send>,
                  f: Event -> bool)
    requires Gap(perms, s, early, task, late, sends)
    requires var r, d := Reply(task), Drain(task, sends);
      || (forall e :: e in Delta(perms, s.core, r) || e in Delta(perms, NextCore(perms, s.core, r), d) ==> !f(e))
      || (forall e :: (e in Written(perms, s.core, early)
                       || e in Written(perms, Next(perms, After(perms, s, early), r).core, late)) ==> !f(e))
    ensures Only(After(perms, s, WithGap(early, task, late, sends)).log, f)
         == Only(After(perms, s, AtOnce(early, task, late, sends)).log, f)
  {
    var r, d := Reply(task), Drain(task, sends);
    GapCloses(perms, s, r, d, early, late);
    SwappedBlocks(s.log, Written(perms, s.core, early), Delta(perms, s.core, r),
                  Written(perms, Next(perms, After(perms, s, early), r).core, late),
                  Delta(perms, NextCore(perms, s.core, r), d), f);
  }

  lemma GapEntries(perms: Permissions, s: State, early: seq<Step>, task: TaskId, late: seq<Step>, sends: seq<Send>)
    requires Gap(perms, s, early, task, late, sends)
    ensures Possible(perms, s, AtOnce(early, task, late, sends))
    ensures InPhase(NextCore(perms, s.core, Reply(task)), Drain(task, sends))
    ensures var gap, atomic := After(perms, s, WithGap(early, task, late, sends)),
                               After(perms, s, AtOnce(early, task, late, sends));
      gap.core == atomic.core && multiset(gap.log) == multiset(atomic.log)
  {
    GapCloses(perms, s, Reply(task), Drain(task, sends), early, late);
  }

  /** Each request sees the same entries in the same order. */
  lemma GapHistory(perms: Permissions, s: State, early: seq<Step>, task: TaskId, late: seq<Step>,
                   sends: seq<Send>, q: Request)
    requires Gap(perms, s, early, task, late, sends)
    ensures Only(After(perms, s, WithGap(early, task, late, sends)).log, About(q))
         == Only(After(perms, s, AtOnce(early, task, late, sends)).log, About(q))
  {
    GapEntries(perms, s, early, task, late, sends);
    CompletionEntries(perms, s.core, task, sends);
    var name := PhaseOf(s.core, task).name;
    if q == PhaseOf(s.core, task).q || exists w :: w in Waiters(s.core, name) && w.q == q {
      GapInvolves(perms, s, task, q);
      SplitGap(perms, s, early, Reply(task), late, Drain(task, sends));
      RunNotAbout(perms, s, early, task, q);
      RunKeepsInv(perms, s, early);
      StillInserted(perms, s, early, task);
      var s1 := After(perms, s, early);
      StepKeepsInv(perms, s1, Reply(task));
      ReplyInvolves(perms, s1, task, q);
      RunNotAbout(perms, Next(perms, s1, Reply(task)), late, task, q);
    }
    GapUnseen(perms, s, early, task, late, sends, About(q));
  }

  lemma GapInvolves(perms: Permissions, s: State, task: TaskId, q: Request)
    requires Inv(perms, s) && PhaseOf(s.core, task).Inserted?
    requires q == PhaseOf(s.core, task).q || exists w :: w in Waiters(s.core, PhaseOf(s.core, task).name) && w.q == q
    ensures Involved(s, task, q)
  {
    if q == PhaseOf(s.core, task).q {
      EventsWereRead(perms, s.log);
      assert Registered(q, PhaseOf(s.core, task).name) in s.log;
    } else {
      var w :| w in Waiters(s.core, PhaseOf(s.core, task).name) && w.q == q;
      QueuedForName(perms, s, PhaseOf(s.core, task).name, w);
    }
  }

  /** No other service can tell from what it is offered, nor a client from anything unless it waits for the name. */
  lemma GapConnections(perms: Permissions, s: State, early: seq<Step>, task: TaskId, late: seq<Step>,
                       sends: seq<Send>, w: TaskId)
    requires Gap(perms, s, early, task, late, sends) && w != task
    ensures var gap, atomic := After(perms, s, WithGap(early, task, late, sends)),
                               After(perms, s, AtOnce(early, task, late, sends));
      && Only(gap.log, OffersTo(w)) == Only(atomic.log, OffersTo(w))
      && ((forall x :: x in Waiters(s.core, PhaseOf(s.core, task).name) ==> x.q.task != w) ==>
            Only(gap.log, WrittenTo(w)) == Only(atomic.log, WrittenTo(w)))
  {
    GapEntries(perms, s, early, task, late, sends);
    CompletionEntries(perms, s.core, task, sends);
    GapUnseen(perms, s, early, task, late, sends, OffersTo(w));
    if forall x :: x in Waiters(s.core, PhaseOf(s.core, task).name) ==> x.q.task != w {
      GapUnseen(perms, s, early, task, late, sends, WrittenTo(w));
    }
  }

  /**
   * Two-step registration is as good as atomic registration. Between the insertion of the name and
   * the reply (`early`), and between the reply and the draining (`late`), any steps of other tasks may
   * happen. Replying and draining at once is then possible too, leads to the same tables, and writes the
   * same entries. Each request sees them in the same order, each other service its offers, and each other
   * client without a request in the queue everything that is written to it.
   */
  lemma RegistrationIsAtomic(perms: Permissions, start: seq<Step>, task: TaskId, sends: seq<Send>,
                             early: seq<Step>, late: seq<Step>)
    requires Possible(perms, INIT, start) && PhaseOf(After(perms, INIT, start).core, task).Inserted?
    requires forall i :: 0 <= i < |early| ==> StepTask(early[i]) != task
    requires forall i :: 0 <= i < |late| ==> StepTask(late[i]) != task
    requires Possible(perms, After(perms, INIT, start), WithGap(early, task, late, sends))
    ensures var s := After(perms, INIT, start);
      var gap, atomic := After(perms, s, WithGap(early, task, late, sends)),
                         After(perms, s, AtOnce(early, task, late, sends));
      && Possible(perms, s, AtOnce(early, task, late, sends))
      && gap.core == atomic.core
      && SameHistories(gap.log, atomic.log)
      && (forall w :: w != task ==> Only(gap.log, OffersTo(w)) == Only(atomic.log, OffersTo(w)))
      && (forall w :: w != task && (forall x :: x in Waiters(s.core, PhaseOf(s.core, task).name) ==> x.q.task != w) ==>
            Only(gap.log, WrittenTo(w)) == Only(atomic.log, WrittenTo(w)))
  {
    var s := After(perms, INIT, start);
    InitInv(perms);
    RunKeepsInv(perms, INIT, start);
    assert Gap(perms, s, early, task, late, sends);
    GapEntries(perms, s, early, task, late, sends);
    forall q ensures Only(After(perms, s, WithGap(early, task, late, sends)).log, About(q))
                  == Only(After(perms, s, AtOnce(early, task, late, sends)).log, About(q)) {
      GapHistory(perms, s, early, task, late, sends, q);
    }
    forall w | w != task
      ensures Only(After(perms, s, WithGap(early, task, late, sends)).log, OffersTo(w))
           == Only(After(perms, s, AtOnce(early, task, late, sends)).log, OffersTo(w))
      ensures (forall x :: x in Waiters(s.core, PhaseOf(s.core, task).name) ==> x.q.task != w) ==>
        Only(After(perms, s, WithGap(early, task, late, sends)).log, WrittenTo(w))
        == Only(After(perms, s, AtOnce(early, task, late, sends)).log, WrittenTo(w))
    {
      GapConnections(perms, s, early, task, late, sends, w);
    }
  }
}
