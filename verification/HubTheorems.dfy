/** The main results about the hub, for every run from the empty hub. */
module HubTheorems {
  import opened Wrappers
  import opened ServicePermissions
  import opened HubProtocol
  import opened HubHistory
  import opened HubSafety
  import opened HubAccounting
  import opened HubTasks
  import opened HubReplies

  /** Everything that is shown to hold at every moment. */
  ghost predicate HubInv(perms: Permissions, s: State) {
    Inv(perms, s) && Accounted(s) && TasksAgree(s) && RepliedAgrees(s)
  }

  lemma InitHubInv(perms: Permissions)
    ensures HubInv(perms, INIT)
  {
    InitInv(perms);
    assert forall task :: PhaseOf(INIT.core, task) == Gone;
  }

  /** Every step that is possible keeps the whole invariant. */
  lemma StepKeepsHubInv(perms: Permissions, s: State, step: Step)
    requires HubInv(perms, s) && Enabled(perms, s, step)
    ensures HubInv(perms, Next(perms, s, step))
  {
    StepKeepsInv(perms, s, step);
    StepKeepsAccount(perms, s, step);
    StepKeepsTasks(perms, s, step);
    StepKeepsReplied(perms, s, step);
  }

  lemma {:induction false} RunKeepsHubInv(perms: Permissions, s: State, steps: seq<Step>)
    requires HubInv(perms, s) && Possible(perms, s, steps)
    ensures HubInv(perms, After(perms, s, steps))
    decreases |steps|
  {
    if steps != [] {
      StepKeepsHubInv(perms, s, steps[0]);
      RunKeepsHubInv(perms, Next(perms, s, steps[0]), steps[1..]);
    }
  }

  lemma Reachable(perms: Permissions, steps: seq<Step>)
    requires Possible(perms, INIT, steps)
    ensures HubInv(perms, After(perms, INIT, steps))
  {
    InitHubInv(perms);
    RunKeepsHubInv(perms, INIT, steps);
  }

  /** Whatever the interleaving, every entry the hub ever logs is justified by the entries before it. */
  lemma EveryLogIsLegal(perms: Permissions, steps: seq<Step>)
    requires Possible(perms, INIT, steps)
    ensures Legal(perms, After(perms, INIT, steps).log)
  {
    Reachable(perms, steps);
  }

  /**
   * A name has one owner: the names in the registry are exactly the names of the registered tasks,
   * no two of them share one, and the writer stored under a name is its owner's.
   */
  lemma NamesHaveOneOwner(perms: Permissions, steps: seq<Step>)
    requires Possible(perms, INIT, steps)
    ensures var c := After(perms, INIT, steps).core;
      && (forall n :: n in c.registry <==> exists t :: HasName(PhaseOf(c, t)) && PhaseOf(c, t).name == n)
      && (forall t :: HasName(PhaseOf(c, t)) ==>
            PhaseOf(c, t).name in c.registry && c.registry[PhaseOf(c, t).name] == t)
      && (forall t, u :: HasName(PhaseOf(c, t)) && HasName(PhaseOf(c, u)) && PhaseOf(c, t).name == PhaseOf(c, u).name
            ==> t == u)
  {
    Reachable(perms, steps);
  }

  /** Reaping a finished task removes its own entry and no other. */
  lemma ReapingRemovesOwnEntry(perms: Permissions, steps: seq<Step>, task: TaskId)
    requires Possible(perms, INIT, steps) && Enabled(perms, After(perms, INIT, steps), Reap(task))
    ensures var c := After(perms, INIT, steps).core;
      var c' := NextCore(perms, c, Reap(task));
      && (forall n :: n in c.registry && c.registry[n] != task ==> n in c'.registry && c'.registry[n] == c.registry[n])
      && (forall n :: n in c'.registry ==> n in c.registry && c.registry[n] != task)
  {
    Reachable(perms, steps);
    ReapedCore(perms, After(perms, INIT, steps).core, task);
  }

  lemma ReapedCore(perms: Permissions, c: Core, task: TaskId)
    requires CoreInv(c) && PhaseOf(c, task).Finished?
    ensures var c' := NextCore(perms, c, Reap(task));
      && (forall n :: n in c.registry && c.registry[n] != task ==> n in c'.registry && c'.registry[n] == c.registry[n])
      && (forall n :: n in c'.registry ==> n in c.registry && c.registry[n] != task)
  {
    var name := PhaseOf(c, task).name;
    assert c.registry[name] == task;
    assert NextCore(perms, c, Reap(task)).registry == c.registry - {name};
  }

  /** Somebody waits for a registered service only while that service has not drained its queue yet. */
  lemma NobodyIsStranded(perms: Permissions, steps: seq<Step>, target: Name)
    requires Possible(perms, INIT, steps)
    ensures var c := After(perms, INIT, steps).core;
      Waiters(c, target) != [] && target in c.registry ==>
        PhaseOf(c, c.registry[target]).Inserted? || PhaseOf(c, c.registry[target]).Replied?
  {
    Reachable(perms, steps);
  }

  /**
   * A message that ends a task is the last one it reads: one that is no call, one whose body is refused, a
   * registration that is refused; and so is everything it read before it was reaped.
   */
  lemma NothingIsReadAfterTheEnd(perms: Permissions, steps: seq<Step>, i: nat, j: nat)
    requires Possible(perms, INIT, steps)
    requires var log := After(perms, INIT, steps).log; i < j < |log| && log[j].Polled?
    ensures var e, task := After(perms, INIT, steps).log[i], After(perms, INIT, steps).log[j].q.task;
      && !(e.Polled? && e.q.task == task && e.q.body.NotACall?)
      && !(e.Answered? && e.q.task == task && (e.answer.BadBody? || e.answer.AlreadyRegistered?))
      && !(e.Answered? && e.q.task == task && e.answer == Answer.NotAllowed && e.q.body.Register?)
      && !(e.Reaped? && e.task == task)
  {
    Reachable(perms, steps);
    assert !Ends(After(perms, INIT, steps).log[i], After(perms, INIT, steps).log[j].q.task);
  }

  /** A connection request read from a service that registered. */
  ghost predicate AskedFor(log: seq<Event>, q: Request) {
    q.body.Connect? && Polled(q) in log && HasRegistered(log, q.task)
  }

  /** Which requests the conservation is about: every connection request of a registered service is taken up. */
  lemma EveryRequestIsTakenUp(perms: Permissions, steps: seq<Step>, q: Request)
    requires Possible(perms, INIT, steps) && AskedFor(After(perms, INIT, steps).log, q)
    ensures TakenUp(After(perms, INIT, steps).log, q)
  {
    Reachable(perms, steps);
  }

  /**
   * Every connection request of a registered service is in exactly one place: answered for good and in no
   * queue, or still owed its last answer and standing once in the queue of its own target.
   */
  lemma RequestsAreConserved(perms: Permissions, steps: seq<Step>, q: Request)
    requires Possible(perms, INIT, steps) && AskedFor(After(perms, INIT, steps).log, q)
    ensures var s := After(perms, INIT, steps);
      && (forall t :: t != q.body.target ==> Copies(Waiters(s.core, t), q) == 0)
      && ((AnswerCount(s.log, q) == Owed(q) && Copies(Waiters(s.core, q.body.target), q) == 0)
          || (AnswerCount(s.log, q) == Owed(q) - 1 && Copies(Waiters(s.core, q.body.target), q) == 1))
  {
    Reachable(perms, steps);
    ConservedIn(perms, After(perms, INIT, steps), q);
  }

  lemma ConservedIn(perms: Permissions, s: State, q: Request)
    requires HubInv(perms, s) && AskedFor(s.log, q)
    ensures forall t :: t != q.body.target ==> Copies(Waiters(s.core, t), q) == 0
    ensures (AnswerCount(s.log, q) == Owed(q) && Copies(Waiters(s.core, q.body.target), q) == 0)
          || (AnswerCount(s.log, q) == Owed(q) - 1 && Copies(Waiters(s.core, q.body.target), q) == 1)
  {
    forall t | t != q.body.target ensures Copies(Waiters(s.core, t), q) == 0 {
      QueueHoldsItsOwn(perms, s, t, q);
    }
    assert Balanced(s, q);
    if !q.endpointOk {
      ComplaintWasMade(perms, s.log, q);
    }
  }

  /** A request with a wrong endpoint was answered once before it was taken up. */
  lemma ComplaintWasMade(perms: Permissions, log: seq<Event>, q: Request)
    requires Legal(perms, log) && TakenUp(log, q) && !q.endpointOk
    ensures AnswerCount(log, q) >= 1
  {
    var e :| e in log && e.Checked? && e.q == q;
    var i :| 0 <= i < |log| && log[i] == e;
    LegalAt(perms, log, i);
    assert log[i - 1] == Answered(q, WrongEndpoint);
    var a, b := log[..i - 1], log[i..];
    assert log == a + [log[i - 1]] + b;
    CountConcat(a + [log[i - 1]], b, q);
    CountConcat(a, [log[i - 1]], q);
    OneAnswer(log[i - 1], q);
  }

  /**
   * Every message that was ever read has, at every moment, the answers that are due for it, but for those
   * that are outstanding: one if it waits in its queue, one if it is a registration not answered yet.
   */
  lemma EveryMessageIsAnswered(perms: Permissions, steps: seq<Step>, q: Request)
    requires Possible(perms, INIT, steps) && Polled(q) in After(perms, INIT, steps).log
    ensures var s := After(perms, INIT, steps);
      AnswerCount(s.log, q) + Outstanding(s.core, q) == Due(s.log, q)
  {
    Reachable(perms, steps);
  }

  /**
   * "One answer for each message": with nothing outstanding, a message was answered once if and only if
   * either it named the right endpoint and has a body that is answered, or it named the wrong one and has a
   * body that is not, which is a message of a service that is no call.
   */
  lemma AnsweredOnceIff(perms: Permissions, steps: seq<Step>, q: Request)
    requires Possible(perms, INIT, steps) && Polled(q) in After(perms, INIT, steps).log
    requires Outstanding(After(perms, INIT, steps).core, q) == 0
    ensures var log := After(perms, INIT, steps).log;
      AnswerCount(log, q) == 1 <==> (q.endpointOk <==> !(q.body.NotACall? && HasRegistered(log, q.task)))
  {
    EveryMessageIsAnswered(perms, steps, q);
  }

  /**
   * When a registration of a service finishes draining, every request ever read for it has all its
   * answers, and it stays so.
   */
  lemma DrainingAnswersEveryWaiter(perms: Permissions, before: seq<Step>, task: TaskId, sends: seq<Send>,
                                   later: seq<Step>, q: Request)
    requires Possible(perms, INIT, before + [Drain(task, sends)] + later)
    requires AskedFor(After(perms, INIT, before).log, q)
    requires PhaseOf(After(perms, INIT, before).core, task).Replied?
    requires IsFor(q, PhaseOf(After(perms, INIT, before).core, task).name)
    ensures AnswerCount(After(perms, INIT, before + [Drain(task, sends)]).log, q) == Owed(q)
    ensures AnswerCount(After(perms, INIT, before + [Drain(task, sends)] + later).log, q) == Owed(q)
  {
    var d := Drain(task, sends);
    RunConcat(perms, INIT, before + [d], later);
    RunConcat(perms, INIT, before, [d]);
    var s, s' := After(perms, INIT, before), After(perms, INIT, before + [d]);
    assert [d][1..] == [];
    assert s' == Next(perms, s, d);
    AskedForStays(s.log, Delta(perms, s.core, d), q);
    RequestsAreConserved(perms, before + [d], q);
    assert Waiters(s'.core, q.body.target) == [];
    CopiesNone([], q);
    LogGrows(perms, s', later);
    var es :| After(perms, s', later).log == s'.log + es;
    AskedForStays(s'.log, es, q);
    CountConcat(s'.log, es, q);
    RequestsAreConserved(perms, before + [d] + later, q);
  }

  lemma AskedForStays(log: seq<Event>, es: seq<Event>, q: Request)
    requires AskedFor(log, q)
    ensures AskedFor(log + es, q)
  {
    var e :| e in log && e.Registered? && e.q.task == q.task;
    assert e in log + es;
  }

  lemma {:induction false} LogGrows(perms: Permissions, s: State, steps: seq<Step>)
    ensures exists es :: After(perms, s, steps).log == s.log + es
    decreases |steps|
  {
    if steps == [] {
      assert s.log == s.log + [];
    } else {
      LogGrows(perms, Next(perms, s, steps[0]), steps[1..]);
      var es :| After(perms, s, steps).log == Next(perms, s, steps[0]).log + es;
      assert s.log + Delta(perms, s.core, steps[0]) + es == s.log + (Delta(perms, s.core, steps[0]) + es);
    }
  }

  /**
   * A permitted request that offers to wait for an offline target is queued, last and unanswered, if and
   * only if the target has a service file when it is looked for. If the files did not change since the check,
   * every one from a service that is not privileged is.
   */
  lemma PermittedWaitIsQueued(perms: Permissions, s: State, step: Step)
    requires InPhase(s.core, step) && step.Serve? && step.q.body.Connect? && step.q.body.wait
    requires step.q.body.target !in s.core.registry
    requires perms.Permitted(step.disk.atCheck, PhaseOf(s.core, step.q.task).name, step.q.body.target)
    ensures var initiator, target := PhaseOf(s.core, step.q.task).name, step.q.body.target;
      var queue, queue' := Waiters(s.core, target), Waiters(Next(perms, s, step).core, target);
      var last := Last(Next(perms, s, step).log);
      && (if perms.HasFile(step.disk.atLook, target)
          then queue' == queue + [Waiter(initiator, step.q)] && last == Queued(step.q, initiator)
          else queue' == queue && last == Answered(step.q, Answer.ServiceNotFound))
      && (step.disk.atCheck == step.disk.atLook && !perms.IsPrivileged(initiator) ==>
            perms.HasFile(step.disk.atLook, target))
  {
    var initiator := PhaseOf(s.core, step.q.task).name;
    if !perms.IsPrivileged(initiator) {
      perms.PermittedHasFile(step.disk.atCheck, initiator, step.q.body.target);
    }
    var es := Delta(perms, s.core, step);
    assert (s.log + es)[|s.log + es| - 1] == es[|es| - 1];
  }

  // ---------------------------------------------------------------------------------------
  // Every task can end
  // ---------------------------------------------------------------------------------------

  /** Steps of `task` alone lead from here to its end. */
  ghost predicate CanEnd(perms: Permissions, s: State, task: TaskId) {
    exists steps :: Possible(perms, s, steps) && PhaseOf(After(perms, s, steps).core, task).Gone?
      && forall i :: 0 <= i < |steps| ==> StepTask(steps[i]) == task
  }

  lemma EndsNow(perms: Permissions, s: State, task: TaskId)
    requires PhaseOf(s.core, task).Gone?
    ensures CanEnd(perms, s, task)
  {
    assert Possible(perms, s, []) && After(perms, s, []) == s;
  }

  lemma EndsAfter(perms: Permissions, s: State, x: Step)
    requires Enabled(perms, s, x) && CanEnd(perms, Next(perms, s, x), StepTask(x))
    ensures CanEnd(perms, s, StepTask(x))
  {
    var rest :| Possible(perms, Next(perms, s, x), rest)
      && PhaseOf(After(perms, Next(perms, s, x), rest).core, StepTask(x)).Gone?
      && forall i :: 0 <= i < |rest| ==> StepTask(rest[i]) == StepTask(x);
    var steps := [x] + rest;
    assert steps[1..] == rest;
    assert forall i :: 0 <= i < |steps| ==> StepTask(steps[i]) == StepTask(x);
  }

  lemma FinishedCanEnd(perms: Permissions, s: State, task: TaskId)
    requires PhaseOf(s.core, task).Finished?
    ensures CanEnd(perms, s, task)
  {
    EndsNow(perms, Next(perms, s, Reap(task)), task);
    EndsAfter(perms, s, Reap(task));
  }

  lemma ReaderCanEnd(perms: Permissions, s: State, task: TaskId)
    requires PhaseOf(s.core, task).Serving? || PhaseOf(s.core, task).Authorizing?
    ensures CanEnd(perms, s, task)
  {
    var s' := Next(perms, s, Hangup(task));
    if PhaseOf(s.core, task).Serving? {
      FinishedCanEnd(perms, s', task);
    } else {
      EndsNow(perms, s', task);
    }
    EndsAfter(perms, s, Hangup(task));
  }

  /** Whatever its queue is, a drain is possible: at worst no socket pair can be made. */
  lemma RepliedCanEnd(perms: Permissions, s: State, task: TaskId)
    requires PhaseOf(s.core, task).Replied?
    ensures CanEnd(perms, s, task)
  {
    var ws := Waiters(s.core, PhaseOf(s.core, task).name);
    var sends := seq(|ws|, _ => NoPair);
    var x := Drain(task, sends);
    NoPairsOffered(ws, task, sends);
    var es := Delta(perms, s.core, x);
    assert forall i :: 0 <= i < |es| ==> es[i] in es;
    ReaderCanEnd(perms, Next(perms, s, x), task);
    EndsAfter(perms, s, x);
  }

  lemma {:induction false} NoPairsOffered(ws: seq<Waiter>, writer: TaskId, sends: seq<Send>)
    requires |ws| == |sends| && forall i :: 0 <= i < |sends| ==> sends[i].NoPair?
    ensures forall e :: e in Drained(ws, writer, sends) ==> !e.Offered?
    decreases |ws|
  {
    if ws != [] {
      NoPairsOffered(ws[..|ws| - 1], writer, sends[..|ws| - 1]);
    }
  }

  /**
   * Whatever a task reads next, whatever the files hold, the hub has a step for it: a first message or, from
   * a service, any other one, whether a socket pair can be made or not.
   */
  lemma EveryMessageCanBeRead(perms: Permissions, s: State, q: Request, files: Files, exec: Option<string>,
                              disk: Disk, pair: PairId, accepted: bool)
    requires !IdUsed(s.log, q.id) && !PairUsed(s.log, pair)
    ensures PhaseOf(s.core, q.task).Authorizing? ==> Enabled(perms, s, Authorize(q, files, exec))
    ensures PhaseOf(s.core, q.task).Serving? ==>
      Enabled(perms, s, Serve(q, disk, NoPair)) && Enabled(perms, s, Serve(q, disk, Pair(pair, accepted)))
  {
    var es := Delta(perms, s.core, Authorize(q, files, exec));
    assert forall i :: 0 <= i < |es| ==> !es[i].Offered?;
    ServedPairs(perms, s, Serve(q, disk, NoPair));
    ServedPairs(perms, s, Serve(q, disk, Pair(pair, accepted)));
  }

  /** Serving a message offers one pair at most, the one that was made for it. */
  lemma ServedPairs(perms: Permissions, s: State, x: Step)
    requires x.Serve? && (x.send.Pair? ==> !PairUsed(s.log, x.send.id))
    ensures NewPairs(s.log, Delta(perms, s.core, x))
  {
    var es := Delta(perms, s.core, x);
    assert forall i :: 0 <= i < |es| - 2 ==> !es[i].Offered?;
    assert forall i :: 0 <= i < |es| && es[i].Offered? ==> i == |es| - 2 && x.send.Pair? && es[i].pair == x.send.id;
  }

  /**
   * No task is ever stuck, and no name is held for ever: from every moment of every run, steps of the task
   * alone lead to its end, after which it owns no name.
   */
  lemma EveryTaskCanEnd(perms: Permissions, steps: seq<Step>, task: TaskId)
    requires Possible(perms, INIT, steps)
    ensures exists more ::
      && Possible(perms, INIT, steps + more)
      && (forall i :: 0 <= i < |more| ==> StepTask(more[i]) == task)
      && var c := After(perms, INIT, steps + more).core;
         PhaseOf(c, task).Gone? && forall n :: n in c.registry ==> c.registry[n] != task
  {
    var s := After(perms, INIT, steps);
    AnyPhaseCanEnd(perms, s, task);
    var more :| Possible(perms, s, more) && PhaseOf(After(perms, s, more).core, task).Gone?
      && forall i :: 0 <= i < |more| ==> StepTask(more[i]) == task;
    RunConcat(perms, INIT, steps, more);
    Reachable(perms, steps + more);
  }

  lemma AnyPhaseCanEnd(perms: Permissions, s: State, task: TaskId)
    ensures CanEnd(perms, s, task)
  {
    match PhaseOf(s.core, task)
    case Gone => EndsNow(perms, s, task);
    case Finished(_) => FinishedCanEnd(perms, s, task);
    case Replied(_) => RepliedCanEnd(perms, s, task);
    case Inserted(_, _) =>
      RepliedCanEnd(perms, Next(perms, s, Reply(task)), task);
      EndsAfter(perms, s, Reply(task));
    case _ => ReaderCanEnd(perms, s, task);
  }
}
