/**
 * What every reachable state of the hub satisfies: its log is legal, its tables say what the log says,
 * names have one owner, and nobody waits for a service that has drained its queue.
 */
module HubSafety {
  import opened Wrappers
  import opened ServicePermissions
  import opened HubProtocol
  import opened HubHistory

  predicate HasName(p: Phase) {
    p.Inserted? || p.Replied? || p.Serving? || p.Finished?
  }

  /** The registry and the phases agree; a name that is served has no queue. */
  ghost predicate CoreInv(c: Core) {
    && (forall n :: n in c.registry ==> HasName(PhaseOf(c, c.registry[n])) && PhaseOf(c, c.registry[n]).name == n)
    && (forall task :: HasName(PhaseOf(c, task)) ==>
          PhaseOf(c, task).name in c.registry && c.registry[PhaseOf(c, task).name] == task)
    && (forall task :: PhaseOf(c, task).Inserted? ==>
          var p := PhaseOf(c, task); p.q.task == task && p.q.body == Register(p.name))
    && (forall n :: n in c.registry && !PhaseOf(c, c.registry[n]).Inserted? && !PhaseOf(c, c.registry[n]).Replied? ==>
          n !in c.pending)
  }

  ghost predicate OwnersAgree(log: seq<Event>, c: Core) {
    forall n :: Owner(log, n) == if n in c.registry then Some(c.registry[n]) else None
  }

  ghost predicate QueuesAgree(log: seq<Event>, c: Core) {
    forall t :: Waiting(log, t) == Waiters(c, t)
  }

  ghost predicate PhasesAgree(log: seq<Event>, c: Core) {
    && (forall task :: HasRegistered(log, task) ==> task in c.phases && !c.phases[task].Authorizing?)
    && (forall task :: HasName(PhaseOf(c, task)) ==> HasRegistered(log, task))
    && (forall task :: PhaseOf(c, task).Inserted? ==>
          && Registered(PhaseOf(c, task).q, PhaseOf(c, task).name) in log
          && Answered(PhaseOf(c, task).q, RegisteredOk) !in log)
  }

  /** The tables are what the log says, and the log is legal. */
  ghost predicate Inv(perms: Permissions, s: State) {
    && CoreInv(s.core)
    && OwnersAgree(s.log, s.core)
    && QueuesAgree(s.log, s.core)
    && PhasesAgree(s.log, s.core)
    && Legal(perms, s.log)
  }

  // ---------------------------------------------------------------------------------------
  // Pieces of a log
  // ---------------------------------------------------------------------------------------

  /** Whatever the log says about a request, the request was read before. */
  lemma {:induction false} EventsWereRead(perms: Permissions, log: seq<Event>)
    requires Legal(perms, log)
    ensures forall e :: e in log && !e.Reaped? ==> Polled(e.q) in log
    decreases |log|
  {
    if log != [] {
      var front, last := log[..|log| - 1], Last(log);
      LegalPrefix(perms, log, |log| - 1);
      EventsWereRead(perms, front);
      assert log == front + [last];
      assert Justified(perms, front, last);
      if last.Resolving? {
        var i := WaiterWasQueued(front, last.q.body.target, 0);
        assert front[i] in front;
      } else if front != [] {
        assert Last(front) in front;
      }
    }
  }

  lemma UnreadHasNoEvents(perms: Permissions, log: seq<Event>, id: RequestId)
    requires Legal(perms, log) && !IdUsed(log, id)
    ensures forall e :: e in log && !e.Reaped? ==> e.q.id != id
  {
    EventsWereRead(perms, log);
  }

  lemma PreambleLegal(perms: Permissions, log: seq<Event>, q: Request)
    requires Legal(perms, log) && !IdUsed(log, q.id)
    ensures Legal(perms, log + Preamble(q)) && JustRead(log + Preamble(q), q)
    ensures forall n :: Owner(log + Preamble(q), n) == Owner(log, n)
    ensures forall t :: Waiting(log + Preamble(q), t) == Waiting(log, t)
    ensures forall task :: HasRegistered(log + Preamble(q), task) <==> HasRegistered(log, task)
  {
    MessageLegal(perms, log, q);
    QuietKeeps(log, Preamble(q));
  }

  lemma MessageLegal(perms: Permissions, log: seq<Event>, q: Request)
    requires Legal(perms, log) && !IdUsed(log, q.id)
    ensures Legal(perms, log + Preamble(q)) && JustRead(log + Preamble(q), q)
  {
    var read := log + [Polled(q)];
    LegalSnoc(perms, log, Polled(q));
    if q.endpointOk {
      assert log + Preamble(q) == read;
    } else {
      ComplaintLegal(perms, read, q);
      assert log + Preamble(q) == read + [Answered(q, WrongEndpoint)];
    }
  }

  lemma ComplaintLegal(perms: Permissions, read: seq<Event>, q: Request)
    requires Legal(perms, read) && read != [] && Last(read) == Polled(q) && !q.endpointOk
    ensures Legal(perms, read + [Answered(q, WrongEndpoint)])
  {
    LegalSnoc(perms, read, Answered(q, WrongEndpoint));
  }

  /** The answers a message can get at once, said of the log before it was read. */
  ghost predicate FirstAnswer(log: seq<Event>, q: Request, a: Answer) {
    match a
    case BadBody => if HasRegistered(log, q.task) then q.body.Register? || q.body.Undecodable? else !q.body.Register?
    case AlreadyRegistered => q.body.Register? && !HasRegistered(log, q.task) && Owner(log, q.body.name).Some?
    case _ => false
  }

  lemma FirstAnswerLegal(perms: Permissions, log: seq<Event>, q: Request, a: Answer)
    requires Legal(perms, log) && !IdUsed(log, q.id) && FirstAnswer(log, q, a)
    ensures Legal(perms, log + (Preamble(q) + [Answered(q, a)]))
  {
    var read := log + Preamble(q);
    PreambleLegal(perms, log, q);
    assert AnswerJustified(perms, read, q, a);
    LegalSnoc(perms, read, Answered(q, a));
    assert read + [Answered(q, a)] == log + (Preamble(q) + [Answered(q, a)]);
  }

  ghost predicate IsNameCheck(perms: Permissions, e: Event, q: Request) {
    && e.NameChecked? && e.q == q && q.body.Register?
    && (e.allowed <==> perms.NameAllowed(e.files, e.exec, q.body.name))
  }

  /** The check of a name, on a log where nobody owns it. */
  lemma NameCheckLegal(perms: Permissions, log: seq<Event>, q: Request, check: Event)
    requires Legal(perms, log) && !IdUsed(log, q.id) && IsNameCheck(perms, check, q)
    requires q.body.Register? && !HasRegistered(log, q.task) && Owner(log, q.body.name).None?
    ensures var log' := log + (Preamble(q) + [check]);
      && Legal(perms, log') && Last(log') == check
      && (forall n :: Owner(log', n) == Owner(log, n))
      && (forall t :: Waiting(log', t) == Waiting(log, t))
      && (forall task :: HasRegistered(log', task) <==> HasRegistered(log, task))
  {
    PreambleLegal(perms, log, q);
    NameCheckJustified(perms, log + Preamble(q), q, check);
    assert log + Preamble(q) + [check] == log + (Preamble(q) + [check]);
  }

  lemma NameCheckJustified(perms: Permissions, read: seq<Event>, q: Request, check: Event)
    requires Legal(perms, read) && JustRead(read, q) && IsNameCheck(perms, check, q)
    requires !HasRegistered(read, q.task) && Owner(read, q.body.name).None?
    ensures Legal(perms, read + [check]) && Last(read + [check]) == check
    ensures forall n :: Owner(read + [check], n) == Owner(read, n)
    ensures forall t :: Waiting(read + [check], t) == Waiting(read, t)
    ensures forall task :: HasRegistered(read + [check], task) <==> HasRegistered(read, task)
  {
    LegalSnoc(perms, read, check);
    Snoc(read, check);
  }

  lemma RegistrationLegal(perms: Permissions, log: seq<Event>, q: Request, check: Event)
    requires Legal(perms, log) && !IdUsed(log, q.id) && IsNameCheck(perms, check, q) && check.allowed
    requires q.body.Register? && !HasRegistered(log, q.task) && Owner(log, q.body.name).None?
    ensures var log' := log + (Preamble(q) + [check, Registered(q, q.body.name)]);
      && Legal(perms, log')
      && (forall n :: Owner(log', n) == if n == q.body.name then Some(q.task) else Owner(log, n))
      && (forall t :: Waiting(log', t) == Waiting(log, t))
      && (forall task :: HasRegistered(log', task) <==> HasRegistered(log, task) || task == q.task)
  {
    var checked, e := log + (Preamble(q) + [check]), Registered(q, q.body.name);
    NameCheckLegal(perms, log, q, check);
    LegalSnoc(perms, checked, e);
    Snoc(checked, e);
    assert checked + [e] == log + (Preamble(q) + [check, e]);
  }

  lemma NameRefusalLegal(perms: Permissions, log: seq<Event>, q: Request, check: Event)
    requires Legal(perms, log) && !IdUsed(log, q.id) && IsNameCheck(perms, check, q) && !check.allowed
    requires q.body.Register? && !HasRegistered(log, q.task) && Owner(log, q.body.name).None?
    ensures Legal(perms, log + (Preamble(q) + [check, Answered(q, Answer.NotAllowed)]))
  {
    var checked, e := log + (Preamble(q) + [check]), Answered(q, Answer.NotAllowed);
    NameCheckLegal(perms, log, q, check);
    LegalSnoc(perms, checked, e);
    assert checked + [e] == log + (Preamble(q) + [check, e]);
  }

  lemma SentLegal(perms: Permissions, log: seq<Event>, q: Request, initiator: Name, writer: TaskId, send: Send)
    requires Legal(perms, log) && q.body.Connect? && Owner(log, q.body.target) == Some(writer)
    requires JustAllowed(log, q, initiator) || JustResolved(log, q, initiator)
    requires send.Pair? ==> !PairUsed(log, send.id)
    ensures Legal(perms, log + Sent(q, initiator, writer, send))
    ensures forall n :: Owner(log + Sent(q, initiator, writer, send), n) == Owner(log, n)
    ensures forall t :: Waiting(log + Sent(q, initiator, writer, send), t) == Waiting(log, t)
    ensures forall task :: HasRegistered(log + Sent(q, initiator, writer, send), task) <==> HasRegistered(log, task)
  {
    var es := Sent(q, initiator, writer, send);
    QuietKeeps(log, es);
    LegalSnoc(perms, log, es[0]);
    if send.Pair? {
      LegalSnoc(perms, log + [es[0]], es[1]);
      assert log + es == log + [es[0]] + [es[1]];
    }
  }

  /** One waiter: taken out of the queue and served. */
  function ServedOne(w: Waiter, writer: TaskId, send: Send): seq<Event> {
    [Resolving(w.q, w.initiator, writer)] + Sent(w.q, w.initiator, writer, send)
  }

  lemma ServeOneLegal(perms: Permissions, log: seq<Event>, target: Name, w: Waiter, writer: TaskId, send: Send)
    requires Legal(perms, log) && IsFor(w.q, target) && Owner(log, target) == Some(writer)
    requires Waiting(log, target) != [] && Waiting(log, target)[0] == w
    requires send.Pair? ==> !PairUsed(log, send.id)
    ensures Legal(perms, log + ServedOne(w, writer, send))
    ensures forall n :: Owner(log + ServedOne(w, writer, send), n) == Owner(log, n)
    ensures Waiting(log + ServedOne(w, writer, send), target) == Waiting(log, target)[1..]
    ensures forall t :: t != target ==> Waiting(log + ServedOne(w, writer, send), t) == Waiting(log, t)
    ensures forall task :: HasRegistered(log + ServedOne(w, writer, send), task) <==> HasRegistered(log, task)
  {
    var e := Resolving(w.q, w.initiator, writer);
    LegalSnoc(perms, log, e);
    Snoc(log, e);
    SentLegal(perms, log + [e], w.q, w.initiator, writer, send);
    assert log + ServedOne(w, writer, send) == log + [e] + Sent(w.q, w.initiator, writer, send);
  }

  /** Fresh pairs stay fresh along the prefixes of what is written. */
  lemma NewPairsPrefix(log: seq<Event>, a: seq<Event>, b: seq<Event>)
    requires NewPairs(log, a + b)
    ensures NewPairs(log, a)
    ensures NewPairs(log + a, b)
  {
    forall i | 0 <= i < |a| ensures a[i] == (a + b)[i] {}
    forall j | 0 <= j < |b| ensures b[j] == (a + b)[|a| + j] {}
    forall j | 0 <= j < |b| && b[j].Offered? ensures !PairUsed(log + a, b[j].pair) {
      assert !PairUsed(log, (a + b)[|a| + j].pair);
      forall e | e in log + a && e.Offered? ensures e.pair != b[j].pair {
        if e in a {
          var i :| 0 <= i < |a| && a[i] == e;
          assert (a + b)[i].pair != (a + b)[|a| + j].pair;
        }
      }
    }
  }

  /** What a drain of `target` leaves as it was; of the queue of `target`, `left` is left. */
  ghost predicate OnlyDrains(log: seq<Event>, log': seq<Event>, target: Name, left: seq<Waiter>) {
    && (forall n :: Owner(log', n) == Owner(log, n))
    && Waiting(log', target) == left
    && (forall t :: t != target ==> Waiting(log', t) == Waiting(log, t))
    && (forall task :: HasRegistered(log', task) <==> HasRegistered(log, task))
  }

  /** Draining a queue from its head: `ws` are the first waiters. */
  lemma {:induction false} DrainedLegal(perms: Permissions, log: seq<Event>, target: Name, writer: TaskId,
                                       ws: seq<Waiter>, sends: seq<Send>)
    requires Legal(perms, log) && Owner(log, target) == Some(writer)
    requires |ws| == |sends| && ws <= Waiting(log, target)
    requires NewPairs(log, Drained(ws, writer, sends))
    ensures Legal(perms, log + Drained(ws, writer, sends))
    ensures OnlyDrains(log, log + Drained(ws, writer, sends), target, Waiting(log, target)[|ws|..])
    decreases |ws|
  {
    if ws == [] {
      assert log + Drained(ws, writer, sends) == log;
    } else {
      var k := |ws| - 1;
      var before, one := Drained(ws[..k], writer, sends[..k]), ServedOne(ws[k], writer, sends[k]);
      DrainedLast(ws, writer, sends);
      NewPairsPrefix(log, before, one);
      DrainedLegal(perms, log, target, writer, ws[..k], sends[..k]);
      DrainNext(perms, log, log + before, target, writer, k, sends[k]);
      assert log + (before + one) == log + before + one;
    }
  }

  lemma DrainedLast(ws: seq<Waiter>, writer: TaskId, sends: seq<Send>)
    requires |ws| == |sends| && ws != []
    ensures var k := |ws| - 1;
      Drained(ws, writer, sends) == Drained(ws[..k], writer, sends[..k]) + ServedOne(ws[k], writer, sends[k])
  {
  }

  lemma DrainNext(perms: Permissions, log: seq<Event>, log': seq<Event>, target: Name, writer: TaskId, k: nat,
                  send: Send)
    requires Legal(perms, log) && Owner(log, target) == Some(writer) && k < |Waiting(log, target)|
    requires Legal(perms, log') && OnlyDrains(log, log', target, Waiting(log, target)[k..])
    requires NewPairs(log', ServedOne(Waiting(log, target)[k], writer, send))
    ensures var after := log' + ServedOne(Waiting(log, target)[k], writer, send);
      && Legal(perms, after)
      && OnlyDrains(log, after, target, Waiting(log, target)[k + 1..])
  {
    var w := Waiting(log, target)[k];
    var i := WaiterWasQueued(log, target, k);
    var one := ServedOne(w, writer, send);
    assert send.Pair? ==> one[1].Offered? && one[1].pair == send.id;
    ServeOneLegal(perms, log', target, w, writer, send);
  }

  // ---------------------------------------------------------------------------------------
  // Every step keeps the invariant
  // ---------------------------------------------------------------------------------------

  /** Only a phase changes; a name is kept, and is served only when it has no queue. */
  lemma CorePhase(c: Core, task: TaskId, p: Phase)
    requires CoreInv(c)
    requires HasName(p) <==> HasName(PhaseOf(c, task))
    requires HasName(p) ==> p.name == PhaseOf(c, task).name
    requires p.Inserted? ==> p == PhaseOf(c, task)
    requires p.Serving? || p.Finished? ==>
      PhaseOf(c, task).Serving? || PhaseOf(c, task).Finished? || p.name !in c.pending
    ensures CoreInv(c.(phases := c.phases[task := p]))
  {
    var c' := c.(phases := c.phases[task := p]);
    assert forall t :: t != task ==> PhaseOf(c', t) == PhaseOf(c, t);
    assert PhaseOf(c', task) == p;
  }

  lemma CoreRegister(c: Core, q: Request)
    requires CoreInv(c) && PhaseOf(c, q.task).Authorizing? && q.body.Register? && q.body.name !in c.registry
    ensures CoreInv(c.(registry := c.registry[q.body.name := q.task],
                       phases := c.phases[q.task := Inserted(q, q.body.name)]))
  {
    var c' := c.(registry := c.registry[q.body.name := q.task], phases := c.phases[q.task := Inserted(q, q.body.name)]);
    assert forall t :: t != q.task ==> PhaseOf(c', t) == PhaseOf(c, t);
    assert PhaseOf(c', q.task) == Inserted(q, q.body.name);
  }

  lemma CoreReap(c: Core, task: TaskId)
    requires CoreInv(c) && PhaseOf(c, task).Finished?
    ensures CoreInv(c.(registry := c.registry - {PhaseOf(c, task).name}, phases := c.phases[task := Gone]))
  {
    var c' := c.(registry := c.registry - {PhaseOf(c, task).name}, phases := c.phases[task := Gone]);
    assert forall t :: t != task ==> PhaseOf(c', t) == PhaseOf(c, t);
    assert PhaseOf(c', task) == Gone;
  }

  lemma CoreQueue(c: Core, target: Name, ws: seq<Waiter>)
    requires CoreInv(c) && target !in c.registry
    ensures CoreInv(c.(pending := c.pending[target := ws]))
  {
    var c' := c.(pending := c.pending[target := ws]);
    assert forall t :: PhaseOf(c', t) == PhaseOf(c, t);
  }

  lemma CoreUnqueue(c: Core, target: Name)
    requires CoreInv(c)
    ensures CoreInv(c.(pending := c.pending - {target}))
  {
    var c' := c.(pending := c.pending - {target});
    assert forall t :: PhaseOf(c', t) == PhaseOf(c, t);
  }

  lemma CoreStep(perms: Permissions, c: Core, step: Step)
    requires CoreInv(c) && InPhase(c, step)
    ensures CoreInv(NextCore(perms, c, step))
  {
    match step
    case Accept(task) =>
      CorePhase(c, task, Authorizing);
    case Hangup(task) =>
      CorePhase(c, task, if c.phases[task].Serving? then Finished(c.phases[task].name) else Gone);
    case Authorize(q, _, _) =>
      if q.body.Register? && q.body.name !in c.registry {
        CoreRegister(c, q);
      }
      CorePhase(c, q.task, Gone);
    case Reply(task) =>
      CorePhase(c, task, Replied(c.phases[task].name));
    case Drain(task, _) =>
      CoreUnqueue(c, c.phases[task].name);
      CorePhase(c.(pending := c.pending - {c.phases[task].name}), task, Serving(c.phases[task].name));
    case Serve(q, _, _) =>
      if q.body.Connect? {
        if q.body.target !in c.registry {
          CoreQueue(c, q.body.target, Waiters(c, q.body.target) + [Waiter(c.phases[q.task].name, q)]);
        }
      } else {
        CorePhase(c, q.task, Finished(c.phases[q.task].name));
      }
    case Reap(task) =>
      CoreReap(c, task);
  }

  /** New entries without a registration, and without an answer to a registration that is still owed. */
  lemma PhasesKept(log: seq<Event>, es: seq<Event>, c: Core, c': Core)
    requires PhasesAgree(log, c)
    requires forall task :: HasRegistered(log + es, task) <==> HasRegistered(log, task)
    requires c.phases.Keys <= c'.phases.Keys
    requires forall task :: PhaseOf(c', task).Authorizing? ==> PhaseOf(c, task).Authorizing? || task !in c.phases
    requires forall task :: HasName(PhaseOf(c', task)) ==> HasName(PhaseOf(c, task))
    requires forall task :: PhaseOf(c', task).Inserted? ==>
      PhaseOf(c', task) == PhaseOf(c, task) && Answered(PhaseOf(c', task).q, RegisteredOk) !in es
    ensures PhasesAgree(log + es, c')
  {
    forall task | HasRegistered(log + es, task) ensures task in c'.phases && !c'.phases[task].Authorizing? {
      assert task in c.phases && !PhaseOf(c, task).Authorizing?;
      assert !PhaseOf(c', task).Authorizing?;
    }
  }

  lemma QuietStep(perms: Permissions, s: State, step: Step)
    requires Inv(perms, s) && Enabled(perms, s, step) && (step.Accept? || step.Hangup?)
    ensures Inv(perms, Next(perms, s, step))
  {
    var s' := Next(perms, s, step);
    CoreStep(perms, s.core, step);
    assert s.log + [] == s.log;
    assert forall t :: Waiters(s'.core, t) == Waiters(s.core, t);
    PhasesKept(s.log, [], s.core, s'.core);
  }

  lemma ReplyStep(perms: Permissions, s: State, step: Step)
    requires Inv(perms, s) && Enabled(perms, s, step) && step.Reply?
    ensures Inv(perms, Next(perms, s, step))
  {
    var c, c' := s.core, NextCore(perms, s.core, step);
    var e := Answered(PhaseOf(c, step.task).q, RegisteredOk);
    CoreStep(perms, c, step);
    LegalSnoc(perms, s.log, e);
    Snoc(s.log, e);
    assert forall t :: Waiters(c', t) == Waiters(c, t);
    assert forall task :: task != step.task ==> PhaseOf(c', task) == PhaseOf(c, task);
    PhasesKept(s.log, [e], c, c');
  }

  lemma ReapStep(perms: Permissions, s: State, step: Step)
    requires Inv(perms, s) && Enabled(perms, s, step) && step.Reap?
    ensures Inv(perms, Next(perms, s, step))
  {
    CoreStep(perms, s.core, step);
    ReapTables(perms, s.log, s.core, NextCore(perms, s.core, step), step.task, PhaseOf(s.core, step.task).name);
  }

  lemma ReapTables(perms: Permissions, log: seq<Event>, c: Core, c': Core, task: TaskId, name: Name)
    requires Legal(perms, log) && OwnersAgree(log, c) && QueuesAgree(log, c) && PhasesAgree(log, c)
    requires PhaseOf(c, task) == Finished(name) && name in c.registry && c.registry[name] == task
    requires c' == c.(registry := c.registry - {name}, phases := c.phases[task := Gone])
    ensures Legal(perms, log + [Reaped(task, name)])
    ensures OwnersAgree(log + [Reaped(task, name)], c') && QueuesAgree(log + [Reaped(task, name)], c')
    ensures PhasesAgree(log + [Reaped(task, name)], c')
  {
    LegalSnoc(perms, log, Reaped(task, name));
    Snoc(log, Reaped(task, name));
    assert forall t :: Waiters(c', t) == Waiters(c, t);
    assert forall t :: t != task ==> PhaseOf(c', t) == PhaseOf(c, t);
    PhasesKept(log, [Reaped(task, name)], c, c');
  }

  /** Entries that only end the step's own task, for a log and tables that agree. */
  lemma EndingStep(log: seq<Event>, es: seq<Event>, c: Core, c': Core, task: TaskId)
    requires OwnersAgree(log, c) && QueuesAgree(log, c) && PhasesAgree(log, c)
    requires forall i :: 0 <= i < |es| ==> Quiet(es[i])
    requires forall e :: e in es && e.Answered? ==> !e.answer.RegisteredOk?
    requires c'.registry == c.registry && c'.pending == c.pending && task in c.phases
    requires PhaseOf(c', task).Gone? || (PhaseOf(c', task).Finished? && PhaseOf(c, task).Serving?)
    requires c'.phases == c.phases[task := PhaseOf(c', task)]
    ensures OwnersAgree(log + es, c') && QueuesAgree(log + es, c') && PhasesAgree(log + es, c')
  {
    QuietKeeps(log, es);
    assert forall t :: Waiters(c', t) == Waiters(c, t);
    assert forall t :: t != task ==> PhaseOf(c', t) == PhaseOf(c, t);
    PhasesKept(log, es, c, c');
  }

  lemma RejectStep(perms: Permissions, s: State, step: Step)
    requires Inv(perms, s) && Enabled(perms, s, step) && step.Authorize?
    requires !Admits(perms, s.core, step.q, step.files, step.exec)
    ensures Inv(perms, Next(perms, s, step))
  {
    var q, es := step.q, Delta(perms, s.core, step);
    CoreStep(perms, s.core, step);
    if !q.body.Register? {
      FirstAnswerLegal(perms, s.log, q, BadBody);
    } else if q.body.name in s.core.registry {
      FirstAnswerLegal(perms, s.log, q, AlreadyRegistered);
    } else {
      NameRefusalLegal(perms, s.log, q, NameChecked(q, step.files, step.exec, false));
    }
    EndingStep(s.log, es, s.core, NextCore(perms, s.core, step), q.task);
  }

  lemma RegisterStep(perms: Permissions, s: State, step: Step)
    requires Inv(perms, s) && Enabled(perms, s, step) && step.Authorize?
    requires Admits(perms, s.core, step.q, step.files, step.exec)
    ensures Inv(perms, Next(perms, s, step))
  {
    var q, c := step.q, s.core;
    var check := NameChecked(q, step.files, step.exec, true);
    var es := Preamble(q) + [check, Registered(q, q.body.name)];
    CoreStep(perms, c, step);
    assert Delta(perms, c, step) == es;
    RegisterTables(perms, s.log, es, c, NextCore(perms, c, step), q, check);
  }

  lemma RegisterTables(perms: Permissions, log: seq<Event>, es: seq<Event>, c: Core, c': Core, q: Request,
                       check: Event)
    requires Legal(perms, log) && OwnersAgree(log, c) && QueuesAgree(log, c) && PhasesAgree(log, c)
    requires !IdUsed(log, q.id) && PhaseOf(c, q.task).Authorizing? && q.body.Register? && q.body.name !in c.registry
    requires IsNameCheck(perms, check, q) && check.allowed
    requires es == Preamble(q) + [check, Registered(q, q.body.name)]
    requires c' == c.(registry := c.registry[q.body.name := q.task],
                      phases := c.phases[q.task := Inserted(q, q.body.name)])
    ensures Legal(perms, log + es) && OwnersAgree(log + es, c') && QueuesAgree(log + es, c')
    ensures PhasesAgree(log + es, c')
  {
    RegistrationLegal(perms, log, q, check);
    assert forall t :: Waiters(c', t) == Waiters(c, t);
    RegistrationEntries(perms, log, es, q, check);
    assert forall task :: task != q.task ==> PhaseOf(c', task) == PhaseOf(c, task);
    RegisteredPhases(log, log + es, c, c', q);
  }

  /** A registration is written, and not answered yet. */
  lemma RegistrationEntries(perms: Permissions, log: seq<Event>, es: seq<Event>, q: Request, check: Event)
    requires Legal(perms, log) && !IdUsed(log, q.id) && q.body.Register? && check.NameChecked?
    requires es == Preamble(q) + [check, Registered(q, q.body.name)]
    ensures Registered(q, q.body.name) in log + es && Answered(q, RegisteredOk) !in log
    ensures forall e :: e in log ==> e in log + es
    ensures forall e :: e in log + es && e.Answered? && e.answer.RegisteredOk? ==> e in log
  {
    UnreadHasNoEvents(perms, log, q.id);
    assert es[|es| - 1] == Registered(q, q.body.name);
    assert es[|es| - 1] in es;
  }

  lemma RegisteredPhases(log: seq<Event>, log': seq<Event>, c: Core, c': Core, q: Request)
    requires PhasesAgree(log, c) && q.body.Register?
    requires forall task :: HasRegistered(log', task) <==> HasRegistered(log, task) || task == q.task
    requires forall task :: task != q.task ==> PhaseOf(c', task) == PhaseOf(c, task)
    requires c'.phases == c.phases[q.task := Inserted(q, q.body.name)]
    requires forall e :: e in log ==> e in log'
    requires forall e :: e in log' && e.Answered? && e.answer.RegisteredOk? ==> e in log
    requires Registered(q, q.body.name) in log' && Answered(q, RegisteredOk) !in log
    ensures PhasesAgree(log', c')
  {
    assert PhaseOf(c', q.task) == Inserted(q, q.body.name);
  }

  lemma DrainLog(perms: Permissions, s: State, step: Step)
    requires Inv(perms, s) && Enabled(perms, s, step) && step.Drain?
    ensures var s' := Next(perms, s, step);
      && Legal(perms, s'.log) && OwnersAgree(s'.log, s'.core) && QueuesAgree(s'.log, s'.core)
      && (forall task :: HasRegistered(s'.log, task) <==> HasRegistered(s.log, task))
  {
    var name := PhaseOf(s.core, step.task).name;
    var ws := Waiters(s.core, name);
    assert Waiting(s.log, name) == ws && Owner(s.log, name) == Some(step.task);
    DrainedLegal(perms, s.log, name, step.task, ws, step.sends);
    DrainedTables(s.log, s.log + Drained(ws, step.task, step.sends), s.core, NextCore(perms, s.core, step), name);
  }

  lemma DrainedTables(log: seq<Event>, log': seq<Event>, c: Core, c': Core, name: Name)
    requires OwnersAgree(log, c) && QueuesAgree(log, c)
    requires forall n :: Owner(log', n) == Owner(log, n)
    requires forall t :: Waiting(log', t) == if t == name then [] else Waiting(log, t)
    requires c'.registry == c.registry && c'.pending == c.pending - {name}
    ensures OwnersAgree(log', c') && QueuesAgree(log', c')
  {
  }

  lemma DrainStep(perms: Permissions, s: State, step: Step)
    requires Inv(perms, s) && Enabled(perms, s, step) && step.Drain?
    ensures Inv(perms, Next(perms, s, step))
  {
    var c, c' := s.core, NextCore(perms, s.core, step);
    var ws := Waiters(c, PhaseOf(c, step.task).name);
    CoreStep(perms, c, step);
    DrainLog(perms, s, step);
    DrainedAnswers(ws, step.task, step.sends);
    assert forall task :: task != step.task ==> PhaseOf(c', task) == PhaseOf(c, task);
    PhasesKept(s.log, Drained(ws, step.task, step.sends), c, c');
  }

  /** Draining answers no registration. */
  lemma {:induction false} DrainedAnswers(ws: seq<Waiter>, writer: TaskId, sends: seq<Send>)
    requires |ws| == |sends|
    ensures forall e :: e in Drained(ws, writer, sends) && e.Answered? ==> !e.answer.RegisteredOk?
    decreases |ws|
  {
    if ws != [] {
      DrainedAnswers(ws[..|ws| - 1], writer, sends[..|ws| - 1]);
    }
  }

  /** A message that is no connection request ends the loop of its task. */
  lemma EndStep(perms: Permissions, s: State, step: Step)
    requires Inv(perms, s) && Enabled(perms, s, step) && step.Serve? && !step.q.body.Connect?
    ensures Inv(perms, Next(perms, s, step))
  {
    var q, es := step.q, Delta(perms, s.core, step);
    CoreStep(perms, s.core, step);
    EndDelta(perms, s.core, step);
    if q.body.NotACall? {
      PreambleLegal(perms, s.log, q);
    } else {
      FirstAnswerLegal(perms, s.log, q, BadBody);
    }
    EndingStep(s.log, es, s.core, NextCore(perms, s.core, step), q.task);
  }

  lemma EndDelta(perms: Permissions, c: Core, step: Step)
    requires step.Serve? && !step.q.body.Connect? && PhaseOf(c, step.q.task).Serving?
    ensures var es, c' := Delta(perms, c, step), NextCore(perms, c, step);
      && es == Preamble(step.q) + (if step.q.body.NotACall? then [] else [Answered(step.q, BadBody)])
      && (forall i :: 0 <= i < |es| ==> Quiet(es[i]))
      && (forall e :: e in es && e.Answered? ==> !e.answer.RegisteredOk?)
      && c' == c.(phases := c.phases[step.q.task := Finished(PhaseOf(c, step.q.task).name)])
  {
  }

  /** Reading a connection request and checking it, which every decision builds on. */
  lemma CheckLegal(perms: Permissions, s: State, step: Step)
    requires Inv(perms, s) && Enabled(perms, s, step) && step.Serve? && step.q.body.Connect?
    ensures var log' := s.log + Preamble(step.q) + [Check(perms, s.core, step)];
      && Legal(perms, log')
      && JustAllowedIf(log', step.q, PhaseOf(s.core, step.q.task).name, Check(perms, s.core, step).allowed)
      && Last(log') == Check(perms, s.core, step)
      && OwnersAgree(log', s.core) && QueuesAgree(log', s.core)
      && (forall task :: HasRegistered(log', task) <==> HasRegistered(s.log, task))
  {
    var read, check := s.log + Preamble(step.q), Check(perms, s.core, step);
    PreambleLegal(perms, s.log, step.q);
    LegalSnoc(perms, read, check);
    Snoc(read, check);
  }

  ghost function Check(perms: Permissions, c: Core, step: Step): Event
    requires step.Serve? && step.q.body.Connect? && PhaseOf(c, step.q.task).Serving?
  {
    var initiator := PhaseOf(c, step.q.task).name;
    Checked(step.q, initiator, step.disk, perms.Permitted(step.disk.atCheck, initiator, step.q.body.target))
  }

  ghost predicate JustAllowedIf(log: seq<Event>, q: Request, initiator: Name, allowed: bool) {
    allowed ==> JustAllowed(log, q, initiator)
  }

  /** The decision after a check, said of the log that ends with the check. */
  lemma DecisionLegal(perms: Permissions, log: seq<Event>, c: Core, step: Step)
    requires step.Serve? && step.q.body.Connect? && PhaseOf(c, step.q.task).Serving?
    requires Legal(perms, log) && OwnersAgree(log, c) && QueuesAgree(log, c)
    requires log != [] && Last(log) == Check(perms, c, step)
    requires NewPairs(log, Decision(perms, c, step))
    ensures var log', c' := log + Decision(perms, c, step), NextCore(perms, c, step);
      && Legal(perms, log') && OwnersAgree(log', c') && QueuesAgree(log', c')
      && (forall task :: HasRegistered(log', task) <==> HasRegistered(log, task))
  {
    var q, check, decided := step.q, Check(perms, c, step), Decision(perms, c, step);
    DecisionCore(perms, c, step);
    if check.allowed && q.body.target in c.registry {
      assert step.send.Pair? ==> decided[0].Offered? && decided[0].pair == step.send.id;
      SentLegal(perms, log, q, check.initiator, c.registry[q.body.target], step.send);
    } else if Queues(perms, c, q, check.initiator, step.disk) {
      QueueLegal(perms, log, c, q, check);
    } else {
      RefusalLegal(perms, log, q, check, decided[0].answer);
      Snoc(log, decided[0]);
    }
  }

  /** What a decision writes and what it does to the tables, case by case. */
  lemma DecisionCore(perms: Permissions, c: Core, step: Step)
    requires step.Serve? && step.q.body.Connect? && PhaseOf(c, step.q.task).Serving?
    ensures var q, check, decided, c' := step.q, Check(perms, c, step),
        Decision(perms, c, step), NextCore(perms, c, step);
      if check.allowed && q.body.target in c.registry then
        decided == Sent(q, check.initiator, c.registry[q.body.target], step.send) && c' == c
      else if Queues(perms, c, q, check.initiator, step.disk) then
        && decided == [Queued(q, check.initiator)]
        && c' == c.(pending := c.pending[q.body.target := Waiters(c, q.body.target) + [Waiter(check.initiator, q)]])
      else
        && decided == [Answered(q, if check.allowed then Answer.ServiceNotFound else Answer.NotAllowed)]
        && c' == c && (check.allowed ==> !(q.body.wait && perms.HasFile(step.disk.atLook, q.body.target)))
  {
  }

  lemma RefusalLegal(perms: Permissions, log: seq<Event>, q: Request, check: Event, a: Answer)
    requires Legal(perms, log) && log != [] && Last(log) == check && check.Checked? && check.q == q && q.body.Connect?
    requires a == Answer.NotAllowed ==> !check.allowed
    requires a == Answer.ServiceNotFound ==>
      && check.allowed && Owner(log, q.body.target).None?
      && !(q.body.wait && perms.HasFile(check.disk.atLook, q.body.target))
    requires a == Answer.NotAllowed || a == Answer.ServiceNotFound
    ensures Legal(perms, log + [Answered(q, a)])
  {
    LegalSnoc(perms, log, Answered(q, a));
  }

  lemma QueueLegal(perms: Permissions, log: seq<Event>, c: Core, q: Request, check: Event)
    requires Legal(perms, log) && OwnersAgree(log, c) && QueuesAgree(log, c)
    requires log != [] && Last(log) == check && check.Checked? && check.q == q && check.allowed
    requires Queues(perms, c, q, check.initiator, check.disk)
    ensures Legal(perms, log + [Queued(q, check.initiator)])
    ensures var c' :=
        c.(pending := c.pending[q.body.target := Waiters(c, q.body.target) + [Waiter(check.initiator, q)]]);
      && OwnersAgree(log + [Queued(q, check.initiator)], c')
      && QueuesAgree(log + [Queued(q, check.initiator)], c')
    ensures forall task :: HasRegistered(log + [Queued(q, check.initiator)], task) <==> HasRegistered(log, task)
  {
    LegalSnoc(perms, log, Queued(q, check.initiator));
    Snoc(log, Queued(q, check.initiator));
  }

  ghost function Decision(perms: Permissions, c: Core, step: Step): seq<Event>
    requires step.Serve? && step.q.body.Connect? && PhaseOf(c, step.q.task).Serving?
  {
    Decided(perms, c, step.q, PhaseOf(c, step.q.task).name, step.disk, step.send)
  }

  lemma DeltaParts(perms: Permissions, c: Core, step: Step)
    requires step.Serve? && step.q.body.Connect? && PhaseOf(c, step.q.task).Serving?
    ensures Delta(perms, c, step) == (Preamble(step.q) + [Check(perms, c, step)]) + Decision(perms, c, step)
  {
  }

  lemma ConnectLog(perms: Permissions, s: State, step: Step)
    requires Inv(perms, s) && Enabled(perms, s, step) && step.Serve? && step.q.body.Connect?
    ensures var s' := Next(perms, s, step);
      && Legal(perms, s'.log) && OwnersAgree(s'.log, s'.core) && QueuesAgree(s'.log, s'.core)
      && (forall task :: HasRegistered(s'.log, task) <==> HasRegistered(s.log, task))
  {
    var head, decided := Preamble(step.q) + [Check(perms, s.core, step)], Decision(perms, s.core, step);
    DeltaParts(perms, s.core, step);
    CheckLegal(perms, s, step);
    NewPairsPrefix(s.log, head, decided);
    HeadThenDecision(perms, s.log, head, s.core, step);
  }

  lemma HeadThenDecision(perms: Permissions, log: seq<Event>, head: seq<Event>, c: Core, step: Step)
    requires step.Serve? && step.q.body.Connect? && PhaseOf(c, step.q.task).Serving?
    requires head == Preamble(step.q) + [Check(perms, c, step)]
    requires var log' := log + Preamble(step.q) + [Check(perms, c, step)];
      && Legal(perms, log') && OwnersAgree(log', c) && QueuesAgree(log', c)
      && (forall task :: HasRegistered(log', task) <==> HasRegistered(log, task))
    requires NewPairs(log + head, Decision(perms, c, step))
    ensures var log', c' := log + (head + Decision(perms, c, step)), NextCore(perms, c, step);
      && Legal(perms, log') && OwnersAgree(log', c') && QueuesAgree(log', c')
      && (forall task :: HasRegistered(log', task) <==> HasRegistered(log, task))
  {
    assert log + head == log + Preamble(step.q) + [Check(perms, c, step)];
    assert log + (head + Decision(perms, c, step)) == (log + head) + Decision(perms, c, step);
    DecisionLegal(perms, log + head, c, step);
  }

  lemma ConnectStep(perms: Permissions, s: State, step: Step)
    requires Inv(perms, s) && Enabled(perms, s, step) && step.Serve? && step.q.body.Connect?
    ensures Inv(perms, Next(perms, s, step))
  {
    var c, c' := s.core, NextCore(perms, s.core, step);
    CoreStep(perms, c, step);
    ConnectLog(perms, s, step);
    assert c'.phases == c.phases;
    assert forall task :: PhaseOf(c', task) == PhaseOf(c, task);
    ConnectAnswers(perms, c, step);
    PhasesKept(s.log, Delta(perms, c, step), c, c');
  }

  lemma ConnectAnswers(perms: Permissions, c: Core, step: Step)
    requires step.Serve? && step.q.body.Connect?
    ensures forall e :: e in Delta(perms, c, step) && e.Answered? ==> !e.answer.RegisteredOk?
  {
  }

  lemma StepKeepsInv(perms: Permissions, s: State, step: Step)
    requires Inv(perms, s) && Enabled(perms, s, step)
    ensures Inv(perms, Next(perms, s, step))
  {
    match step
    case Accept(_) => QuietStep(perms, s, step);
    case Hangup(_) => QuietStep(perms, s, step);
    case Authorize(q, files, exec) =>
      if Admits(perms, s.core, q, files, exec) {
        RegisterStep(perms, s, step);
      } else {
        RejectStep(perms, s, step);
      }
    case Reply(_) => ReplyStep(perms, s, step);
    case Drain(_, _) => DrainStep(perms, s, step);
    case Serve(q, _, _) =>
      if q.body.Connect? {
        ConnectStep(perms, s, step);
      } else {
        EndStep(perms, s, step);
      }
    case Reap(_) => ReapStep(perms, s, step);
  }

  lemma InitInv(perms: Permissions)
    ensures Inv(perms, INIT)
  {
    assert forall task :: !HasRegistered([], task);
    assert forall task :: PhaseOf(INIT.core, task) == Gone;
  }

  lemma {:induction false} RunKeepsInv(perms: Permissions, s: State, steps: seq<Step>)
    requires Inv(perms, s) && Possible(perms, s, steps)
    ensures Inv(perms, After(perms, s, steps))
    decreases |steps|
  {
    if steps != [] {
      StepKeepsInv(perms, s, steps[0]);
      RunKeepsInv(perms, Next(perms, s, steps[0]), steps[1..]);
    }
  }
}
