/**
 * When a registration is answered, and when its waiters are drained, against the connections that are
 * offered to the new service meanwhile.
 */
module HubReplies {
  import opened ServicePermissions
  import opened HubProtocol
  import opened HubHistory
  import opened HubSafety

  ghost predicate HasReplied(log: seq<Event>, task: TaskId) {
    exists e :: e in log && e.Answered? && e.answer.RegisteredOk? && e.q.task == task
  }

  /** Every waiter is taken out of its queue after the registration of the writer was answered. */
  ghost predicate ResolvesAfterReply(log: seq<Event>) {
    forall i :: 0 <= i < |log| && log[i].Resolving? ==> HasReplied(log[..i], log[i].writer)
  }

  ghost predicate RepliedAgrees(s: State) {
    && (forall task :: HasName(PhaseOf(s.core, task)) ==>
          (HasReplied(s.log, task) <==> !PhaseOf(s.core, task).Inserted?))
    && ResolvesAfterReply(s.log)
  }

  lemma RepliedConcat(log: seq<Event>, es: seq<Event>, task: TaskId)
    ensures HasReplied(log + es, task) <==> HasReplied(log, task) || HasReplied(es, task)
  {
    assert forall e :: e in log + es <==> e in log || e in es;
  }

  /** Only the step that replies writes a reply. */
  lemma StepReplies(perms: Permissions, c: Core, step: Step, task: TaskId)
    requires InPhase(c, step)
    requires step.Reply? ==> PhaseOf(c, step.task).q.task == step.task
    ensures HasReplied(Delta(perms, c, step), task) <==> step == Reply(task)
  {
    match step
    case Drain(t, sends) => DrainedAnswers(Waiters(c, PhaseOf(c, t).name), t, sends);
    case Serve(q, _, _) => if q.body.Connect? { ConnectAnswers(perms, c, step); }
    case Reply(t) => assert Answered(PhaseOf(c, t).q, RegisteredOk) in Delta(perms, c, step);
    case _ =>
  }

  lemma InsertedHasNotReplied(perms: Permissions, s: State, task: TaskId)
    requires Inv(perms, s) && PhaseOf(s.core, task).Inserted?
    ensures !HasReplied(s.log, task)
  {
    if HasReplied(s.log, task) {
      ReplyIsToRegistration(perms, s.log, task, PhaseOf(s.core, task).q);
    }
  }

  /** A registration is answered to the request that registered, and a task registers once. */
  lemma ReplyIsToRegistration(perms: Permissions, log: seq<Event>, task: TaskId, q: Request)
    requires Legal(perms, log) && q.body.Register? && Registered(q, q.body.name) in log && q.task == task
    requires HasReplied(log, task)
    ensures Answered(q, RegisteredOk) in log
  {
    var e :| e in log && e.Answered? && e.answer.RegisteredOk? && e.q.task == task;
    var i :| 0 <= i < |log| && log[i] == e;
    LegalAt(perms, log, i);
    var j :| 0 <= j < |log[..i]| && log[..i][j] == Registered(e.q, e.q.body.name);
    var k :| 0 <= k < |log| && log[k] == Registered(q, q.body.name);
    assert log[j].q.task == log[k].q.task;
    RegisteredOnce(perms, log);
  }

  lemma RegisteredOnce(perms: Permissions, log: seq<Event>)
    requires Legal(perms, log)
    ensures forall i, j :: 0 <= i < j < |log| && log[i].Registered? && log[j].Registered? ==>
      log[i].q.task != log[j].q.task
  {
    forall i, j | 0 <= i < j < |log| && log[i].Registered? && log[j].Registered?
      ensures log[i].q.task != log[j].q.task
    {
      LegalAt(perms, log, j);
      assert log[..j][i] == log[i];
      assert log[i] in log[..j];
    }
  }

  // ---------------------------------------------------------------------------------------
  // Every step keeps the agreement
  // ---------------------------------------------------------------------------------------

  lemma ReplyPhases(perms: Permissions, c: Core, step: Step, task: TaskId)
    requires InPhase(c, step)
    requires HasName(PhaseOf(NextCore(perms, c, step), task)) && !PhaseOf(NextCore(perms, c, step), task).Inserted?
    ensures HasName(PhaseOf(c, task)) && (PhaseOf(c, task).Inserted? <==> step == Reply(task))
  {
  }

  lemma StepKeepsReplied(perms: Permissions, s: State, step: Step)
    requires Inv(perms, s) && RepliedAgrees(s) && Enabled(perms, s, step)
    ensures RepliedAgrees(Next(perms, s, step))
  {
    var s' := Next(perms, s, step);
    StepKeepsInv(perms, s, step);
    forall task | HasName(PhaseOf(s'.core, task))
      ensures HasReplied(s'.log, task) <==> !PhaseOf(s'.core, task).Inserted?
    {
      if PhaseOf(s'.core, task).Inserted? {
        InsertedHasNotReplied(perms, s', task);
      } else {
        ReplyPhases(perms, s.core, step, task);
        RepliedConcat(s.log, Delta(perms, s.core, step), task);
        StepReplies(perms, s.core, step, task);
      }
    }
    StepResolves(perms, s.core, step);
    ResolvesConcat(s.log, Delta(perms, s.core, step));
  }

  /** Only draining takes waiters out, and it does so for the task that drains. */
  lemma StepResolves(perms: Permissions, c: Core, step: Step)
    requires InPhase(c, step)
    ensures forall e :: e in Delta(perms, c, step) && e.Resolving? ==> step.Drain? && e.writer == step.task
  {
    if step.Drain? {
      DrainedResolves(Waiters(c, PhaseOf(c, step.task).name), step.task, step.sends);
    }
  }

  lemma {:induction false} DrainedResolves(ws: seq<Waiter>, writer: TaskId, sends: seq<Send>)
    requires |ws| == |sends|
    ensures forall e :: e in Drained(ws, writer, sends) && e.Resolving? ==> e.writer == writer
    decreases |ws|
  {
    if ws != [] {
      DrainedResolves(ws[..|ws| - 1], writer, sends[..|ws| - 1]);
    }
  }

  lemma ResolvesConcat(log: seq<Event>, es: seq<Event>)
    requires ResolvesAfterReply(log)
    requires forall e :: e in es && e.Resolving? ==> HasReplied(log, e.writer)
    ensures ResolvesAfterReply(log + es)
  {
    var all := log + es;
    forall i | 0 <= i < |all| && all[i].Resolving? ensures HasReplied(all[..i], all[i].writer) {
      if i < |log| {
        assert all[..i] == log[..i];
      } else {
        assert all[i] == es[i - |log|];
        assert all[..i] == log + es[..i - |log|];
        RepliedConcat(log, es[..i - |log|], all[i].writer);
      }
    }
  }

  lemma {:induction false} RunKeepsReplied(perms: Permissions, s: State, steps: seq<Step>)
    requires Inv(perms, s) && RepliedAgrees(s) && Possible(perms, s, steps)
    ensures RepliedAgrees(After(perms, s, steps))
    decreases |steps|
  {
    if steps != [] {
      StepKeepsInv(perms, s, steps[0]);
      StepKeepsReplied(perms, s, steps[0]);
      RunKeepsReplied(perms, Next(perms, s, steps[0]), steps[1..]);
    }
  }

  lemma ReachedReplies(perms: Permissions, steps: seq<Step>)
    requires Possible(perms, INIT, steps)
    ensures Inv(perms, After(perms, INIT, steps)) && RepliedAgrees(After(perms, INIT, steps))
  {
    InitInv(perms);
    assert RepliedAgrees(INIT) by {
      assert forall task :: PhaseOf(INIT.core, task) == Gone;
    }
    RunKeepsInv(perms, INIT, steps);
    RunKeepsReplied(perms, INIT, steps);
  }

  // ---------------------------------------------------------------------------------------
  // What the schedule says
  // ---------------------------------------------------------------------------------------

  /** The run drains the waiters of the name that `task` registered. */
  ghost predicate Drains(steps: seq<Step>, task: TaskId) {
    exists d :: d in steps && d.Drain? && d.task == task
  }

  lemma InConcat(x: Step, rest: seq<Step>, y: Step)
    ensures y in [x] + rest <==> x == y || y in rest
  {
  }

  lemma NextReplies(perms: Permissions, s: State, step: Step, task: TaskId)
    requires CoreInv(s.core) && InPhase(s.core, step)
    ensures HasReplied(Next(perms, s, step).log, task) <==> HasReplied(s.log, task) || step == Reply(task)
  {
    StepReplies(perms, s.core, step, task);
    RepliedConcat(s.log, Delta(perms, s.core, step), task);
  }

  lemma {:induction false} RunReplies(perms: Permissions, s: State, steps: seq<Step>, task: TaskId)
    requires CoreInv(s.core) && Possible(perms, s, steps)
    ensures HasReplied(After(perms, s, steps).log, task) <==> HasReplied(s.log, task) || Reply(task) in steps
    decreases |steps|
  {
    if steps != [] {
      var x, rest := steps[0], steps[1..];
      CoreStep(perms, s.core, x);
      RunReplies(perms, Next(perms, s, x), rest, task);
      NextReplies(perms, s, x, task);
      InConcat(x, rest, Reply(task));
      assert steps == [x] + rest;
    }
  }

  /** In every run, the registration of a task is answered iff the run takes the replying step. */
  lemma RepliedIffScheduled(perms: Permissions, steps: seq<Step>, task: TaskId)
    requires Possible(perms, INIT, steps)
    ensures HasReplied(After(perms, INIT, steps).log, task) <==> Reply(task) in steps
  {
    InitInv(perms);
    RunReplies(perms, INIT, steps, task);
  }

  predicate HasDrained(p: Phase) {
    p.Serving? || p.Finished?
  }

  /** Once drained, a task serves until it ends. */
  lemma {:induction false} RunDrains(perms: Permissions, s: State, steps: seq<Step>, task: TaskId)
    requires Possible(perms, s, steps)
    ensures var p, p' := PhaseOf(s.core, task), PhaseOf(After(perms, s, steps).core, task);
      && (task in s.core.phases ==> task in After(perms, s, steps).core.phases)
      && (task in s.core.phases && (HasDrained(p) || p.Gone?) ==> HasDrained(p') || p'.Gone?)
      && (Drains(steps, task) ==> HasDrained(p') || p'.Gone?)
      && (HasDrained(p') ==> HasDrained(p) || Drains(steps, task))
    decreases |steps|
  {
    if steps != [] {
      RunDrains(perms, Next(perms, s, steps[0]), steps[1..], task);
      DrainsFirst(steps, task);
      DrainPhases(perms, s.core, steps[0], task);
    }
  }

  lemma DrainsFirst(steps: seq<Step>, task: TaskId)
    requires steps != []
    ensures Drains(steps, task) <==> (steps[0].Drain? && steps[0].task == task) || Drains(steps[1..], task)
  {
    assert steps == [steps[0]] + steps[1..];
  }

  lemma DrainPhases(perms: Permissions, c: Core, step: Step, task: TaskId)
    requires InPhase(c, step)
    ensures var p, p' := PhaseOf(c, task), PhaseOf(NextCore(perms, c, step), task);
      && (task in c.phases ==> task in NextCore(perms, c, step).phases)
      && (task in c.phases && (HasDrained(p) || p.Gone?) ==> HasDrained(p') || p'.Gone?)
      && (step.Drain? && step.task == task ==> HasDrained(p') && task in NextCore(perms, c, step).phases)
      && (HasDrained(p') ==> HasDrained(p) || (step.Drain? && step.task == task))
  {
  }

  /** Where the owner of a name is follows from the steps the run took for it. */
  lemma PhaseIsScheduled(perms: Permissions, steps: seq<Step>, task: TaskId)
    requires Possible(perms, INIT, steps) && HasName(PhaseOf(After(perms, INIT, steps).core, task))
    ensures var p := PhaseOf(After(perms, INIT, steps).core, task);
      && (p.Inserted? <==> Reply(task) !in steps)
      && (p.Replied? <==> Reply(task) in steps && !Drains(steps, task))
      && (HasDrained(p) <==> Drains(steps, task))
  {
    ReachedReplies(perms, steps);
    RepliedIffScheduled(perms, steps, task);
    RunDrains(perms, INIT, steps, task);
  }

  // ---------------------------------------------------------------------------------------
  // Offers to a service that has just registered
  // ---------------------------------------------------------------------------------------

  /** `x`, taken after `steps`, offers a connection, and that is entry `i` of the log. */
  ghost predicate OffersAt(perms: Permissions, steps: seq<Step>, x: Step, i: nat) {
    && Possible(perms, INIT, steps) && Enabled(perms, After(perms, INIT, steps), x)
    && |After(perms, INIT, steps).log| <= i < |Next(perms, After(perms, INIT, steps), x).log|
    && Next(perms, After(perms, INIT, steps), x).log[i].Offered?
  }

  /** The offer goes to the owner of the name asked for. */
  lemma OfferToOwner(perms: Permissions, c: Core, x: Step, e: Event)
    requires x.Serve? && InPhase(c, x) && e in Delta(perms, c, x) && e.Offered?
    ensures x.q.body.Connect? && x.q.body.target in c.registry && e.writer == c.registry[x.q.body.target]
  {
  }

  /**
   * A request that is served at once is offered to its target before the registration of the target is
   * answered if and only if the run has not taken the replying step of the target yet.
   */
  lemma OfferBeforeReplyIff(perms: Permissions, steps: seq<Step>, x: Step, i: nat)
    requires OffersAt(perms, steps, x, i) && x.Serve?
    ensures var log := Next(perms, After(perms, INIT, steps), x).log;
      !HasReplied(log[..i], log[i].writer) <==> Reply(log[i].writer) !in steps
  {
    var s := After(perms, INIT, steps);
    var es, k := Delta(perms, s.core, x), i - |s.log|;
    var writer := es[k].writer;
    assert (s.log + es)[..i] == s.log + es[..k];
    RepliedIffScheduled(perms, steps, writer);
    RepliedConcat(s.log, es[..k], writer);
    StepReplies(perms, s.core, x, writer);
    assert forall e :: e in es[..k] ==> e in es;
  }

  /**
   * It is offered in the pause between the reply and the draining, or before, if and only if the run has
   * not drained the waiters of the target. Once they are drained, nobody waits there whom it could overtake.
   */
  lemma OfferBeforeDrainIff(perms: Permissions, steps: seq<Step>, x: Step, i: nat)
    requires OffersAt(perms, steps, x, i) && x.Serve?
    ensures var s := After(perms, INIT, steps);
      var writer := Next(perms, s, x).log[i].writer;
      && (PhaseOf(s.core, writer).Inserted? || PhaseOf(s.core, writer).Replied? <==> !Drains(steps, writer))
      && (PhaseOf(s.core, writer).Replied? <==> Reply(writer) in steps && !Drains(steps, writer))
      && (Drains(steps, writer) ==> Waiters(s.core, x.q.body.target) == [])
  {
    OfferedTo(perms, steps, x, i);
    PhaseIsScheduled(perms, steps, Next(perms, After(perms, INIT, steps), x).log[i].writer);
  }

  /** The offer goes to a service that is there, and that has no queue once it is drained. */
  lemma OfferedTo(perms: Permissions, steps: seq<Step>, x: Step, i: nat)
    requires OffersAt(perms, steps, x, i) && x.Serve?
    ensures var s := After(perms, INIT, steps);
      var writer := Next(perms, s, x).log[i].writer;
      && HasName(PhaseOf(s.core, writer))
      && (HasDrained(PhaseOf(s.core, writer)) ==> Waiters(s.core, x.q.body.target) == [])
  {
    var s := After(perms, INIT, steps);
    ReachedReplies(perms, steps);
    OfferToOwner(perms, s.core, x, Delta(perms, s.core, x)[i - |s.log|]);
    OwnerPhase(s.core, x.q.body.target);
  }

  /** The owner of a name is not gone, and once it has drained its queue it has none. */
  lemma OwnerPhase(c: Core, name: Name)
    requires CoreInv(c) && name in c.registry
    ensures HasName(PhaseOf(c, c.registry[name]))
    ensures HasDrained(PhaseOf(c, c.registry[name])) ==> Waiters(c, name) == []
  {
  }

  lemma {:induction false} DrainsOnce(perms: Permissions, s: State, later: seq<Step>, task: TaskId)
    requires Possible(perms, s, later) && task in s.core.phases
    requires HasDrained(PhaseOf(s.core, task)) || PhaseOf(s.core, task).Gone?
    ensures !Drains(later, task)
    decreases |later|
  {
    if later != [] {
      DrainPhases(perms, s.core, later[0], task);
      DrainsFirst(later, task);
      DrainsOnce(perms, Next(perms, s, later[0]), later[1..], task);
    }
  }

  lemma DrainsConcat(a: seq<Step>, b: seq<Step>, task: TaskId)
    ensures Drains(a + b, task) <==> Drains(a, task) || Drains(b, task)
  {
    assert forall d :: d in a + b <==> d in a || d in b;
  }

  /**
   * In every run that goes on until the target serves, the draining of its waiters comes after the offer if
   * and only if the run had not drained them before.
   */
  lemma DrainingFollowsOfferIff(perms: Permissions, steps: seq<Step>, x: Step, i: nat, later: seq<Step>)
    requires OffersAt(perms, steps, x, i) && x.Serve? && Possible(perms, INIT, steps + ([x] + later))
    requires HasDrained(PhaseOf(After(perms, INIT, steps + ([x] + later)).core,
                              Next(perms, After(perms, INIT, steps), x).log[i].writer))
    ensures var writer := Next(perms, After(perms, INIT, steps), x).log[i].writer;
      Drains(later, writer) <==> !Drains(steps, writer)
  {
    var s := After(perms, INIT, steps);
    var writer := Next(perms, s, x).log[i].writer;
    OfferedTo(perms, steps, x, i);
    PhaseIsScheduled(perms, steps, writer);
    PhaseIsScheduled(perms, steps + ([x] + later), writer);
    RunConcat(perms, INIT, steps, [x] + later);
    DrainsConcat(steps, [x] + later, writer);
    DrainsFirst([x] + later, writer);
    assert ([x] + later)[1..] == later;
    if Drains(steps, writer) {
      DrainsOnce(perms, s, [x] + later, writer);
    }
  }

  /** A waiter is offered to the service it was taken out for. */
  lemma ResolvedForWriter(perms: Permissions, log: seq<Event>, i: nat)
    requires Legal(perms, log) && 0 < i < |log| && log[i].Offered? && log[i - 1].Resolving?
    ensures log[i].writer == log[i - 1].writer
  {
    LegalAt(perms, log, i);
    LegalAt(perms, log, i - 1);
    assert log[..i] == log[..i - 1] + [log[i - 1]] && Last(log[..i]) == log[i - 1];
    Snoc(log[..i - 1], log[i - 1]);
  }

  lemma RepliedBefore(log: seq<Event>, a: nat, b: nat, task: TaskId)
    requires a <= b <= |log| && HasReplied(log[..a], task)
    ensures HasReplied(log[..b], task)
  {
    assert log[..b] == log[..a] + log[a..b];
    RepliedConcat(log[..a], log[a..b], task);
  }

  lemma ReachedLog(perms: Permissions, steps: seq<Step>)
    requires Possible(perms, INIT, steps)
    ensures Legal(perms, After(perms, INIT, steps).log) && ResolvesAfterReply(After(perms, INIT, steps).log)
  {
    ReachedReplies(perms, steps);
  }

  /** A waiter that is drained is offered to its target after the registration of the target is answered. */
  lemma WaiterOfferedAfterReply(perms: Permissions, steps: seq<Step>, i: nat)
    requires Possible(perms, INIT, steps)
    requires var log := After(perms, INIT, steps).log; 0 < i < |log| && log[i].Offered? && log[i - 1].Resolving?
    ensures var log := After(perms, INIT, steps).log; HasReplied(log[..i], log[i].writer)
  {
    var log := After(perms, INIT, steps).log;
    ReachedLog(perms, steps);
    ResolvedForWriter(perms, log, i);
    RepliedBefore(log, i - 1, i, log[i].writer);
  }
}
