/**
 * The life of a task: which messages it reads, that each connection request it reads is taken up, and
 * that it reads nothing after a message that ends it.
 */
module HubTasks {
  import opened ServicePermissions
  import opened HubProtocol
  import opened HubHistory
  import opened HubSafety

  /** The hub took the connection request up: its permission check is in the log. */
  ghost predicate TakenUp(log: seq<Event>, q: Request) {
    exists e :: e in log && e.Checked? && e.q == q
  }

  lemma TakenUpConcat(log: seq<Event>, es: seq<Event>, q: Request)
    ensures TakenUp(log + es, q) <==> TakenUp(log, q) || TakenUp(es, q)
  {
    assert forall e :: e in log + es <==> e in log || e in es;
  }

  /** An entry after which its task reads no more. */
  predicate Ends(e: Event, task: TaskId) {
    match e
    case Polled(q) => q.task == task && q.body.NotACall?
    case Answered(q, a) =>
      q.task == task && (a.BadBody? || a.AlreadyRegistered? || (a == Answer.NotAllowed && q.body.Register?))
    case Reaped(t, _) => t == task
    case _ => false
  }

  ghost predicate Ended(log: seq<Event>, task: TaskId) {
    exists e :: e in log && Ends(e, task)
  }

  /** No task reads a message after its end. */
  ghost predicate Orderly(log: seq<Event>) {
    forall i, j :: 0 <= i < j < |log| && log[j].Polled? ==> !Ends(log[i], log[j].q.task)
  }

  ghost predicate TasksAgree(s: State) {
    && (forall e :: e in s.log && e.Polled? ==> e.q.task in s.core.phases && !PhaseOf(s.core, e.q.task).Authorizing?)
    && (forall task :: Ended(s.log, task) ==>
          task in s.core.phases && (PhaseOf(s.core, task).Gone? || PhaseOf(s.core, task).Finished?))
    && (forall q :: Polled(q) in s.log && q.body.Connect? ==>
          TakenUp(s.log, q) || (PhaseOf(s.core, q.task).Gone? && !HasRegistered(s.log, q.task)))
    && Orderly(s.log)
  }

  /** What a step writes about reading and ending. */
  ghost predicate TaskDelta(c: Core, c': Core, es: seq<Event>, own: TaskId) {
    && (forall t :: t != own ==> PhaseOf(c', t) == PhaseOf(c, t))
    && c'.phases.Keys == c.phases.Keys + {own}
    && (forall i :: 0 <= i < |es| && es[i].Polled? ==> i == 0 && es[i].q.task == own)
    && (forall e :: e in es && e.Polled? ==> !PhaseOf(c', own).Authorizing?)
    && (forall e, t :: e in es && Ends(e, t) ==> t == own && (PhaseOf(c', own).Gone? || PhaseOf(c', own).Finished?))
    && (forall e :: e in es && e.Registered? ==> e.q.task == own)
  }

  lemma OwnDelta(perms: Permissions, c: Core, step: Step)
    requires CoreInv(c) && InPhase(c, step) && !step.Drain?
    ensures TaskDelta(c, NextCore(perms, c, step), Delta(perms, c, step), StepTask(step))
  {
    if step.Authorize? {
      AuthorizeDelta(perms, c, step);
    } else if step.Serve? && step.q.body.Connect? {
      ConnectEndsNothing(perms, c, step);
      ConnectDelta(perms, c, step);
    } else if step.Serve? {
      EndDelta(perms, c, step);
    } else {
      PlainDelta(perms, c, step);
    }
  }

  lemma AuthorizeDelta(perms: Permissions, c: Core, step: Step)
    requires InPhase(c, step) && step.Authorize?
    ensures TaskDelta(c, NextCore(perms, c, step), Delta(perms, c, step), StepTask(step))
  {
  }

  lemma ConnectDelta(perms: Permissions, c: Core, step: Step)
    requires InPhase(c, step) && step.Serve? && step.q.body.Connect?
    requires forall e, t :: e in Delta(perms, c, step) ==> !Ends(e, t) && !e.Registered?
    requires forall i :: 0 < i < |Delta(perms, c, step)| ==> !Delta(perms, c, step)[i].Polled?
    requires |Delta(perms, c, step)| > 0 && Delta(perms, c, step)[0] == Polled(step.q)
    ensures TaskDelta(c, NextCore(perms, c, step), Delta(perms, c, step), StepTask(step))
  {
    assert NextCore(perms, c, step).phases == c.phases;
  }

  lemma EndDelta(perms: Permissions, c: Core, step: Step)
    requires InPhase(c, step) && step.Serve? && !step.q.body.Connect?
    ensures TaskDelta(c, NextCore(perms, c, step), Delta(perms, c, step), StepTask(step))
  {
  }

  lemma PlainDelta(perms: Permissions, c: Core, step: Step)
    requires CoreInv(c) && InPhase(c, step) && (step.Accept? || step.Hangup? || step.Reply? || step.Reap?)
    ensures TaskDelta(c, NextCore(perms, c, step), Delta(perms, c, step), StepTask(step))
  {
  }

  lemma ConnectEndsNothing(perms: Permissions, c: Core, step: Step)
    requires step.Serve? && step.q.body.Connect? && PhaseOf(c, step.q.task).Serving?
    ensures forall e, t :: e in Delta(perms, c, step) ==> !Ends(e, t) && !e.Registered?
    ensures forall i :: 0 < i < |Delta(perms, c, step)| ==> !Delta(perms, c, step)[i].Polled?
    ensures |Delta(perms, c, step)| > 0 && Delta(perms, c, step)[0] == Polled(step.q)
  {
    var q, es := step.q, Delta(perms, c, step);
    var rest := Preamble(q)[1..] + [Check(perms, c, step)] + Decision(perms, c, step);
    assert es == [Polled(q)] + rest;
    DecisionEndsNothing(perms, c, step);
    assert forall e :: e in rest ==> !e.Polled? && !e.Registered?;
    assert forall i :: 0 < i < |es| ==> es[i] == rest[i - 1] && rest[i - 1] in rest;
  }

  lemma DecisionEndsNothing(perms: Permissions, c: Core, step: Step)
    requires step.Serve? && step.q.body.Connect? && PhaseOf(c, step.q.task).Serving?
    ensures forall e :: e in Decision(perms, c, step) ==> !e.Polled? && !e.Registered?
    ensures forall e, t :: e in Decision(perms, c, step) ==> !Ends(e, t)
  {
  }

  lemma {:induction false} DrainEndsNothing(ws: seq<Waiter>, writer: TaskId, sends: seq<Send>)
    requires |ws| == |sends|
    ensures forall e :: e in Drained(ws, writer, sends) ==> !e.Registered? && !e.Polled?
    ensures forall e, t :: e in Drained(ws, writer, sends) ==> !Ends(e, t)
    decreases |ws|
  {
    if ws != [] {
      DrainEndsNothing(ws[..|ws| - 1], writer, sends[..|ws| - 1]);
    }
  }

  lemma DrainDelta(perms: Permissions, c: Core, step: Step)
    requires CoreInv(c) && InPhase(c, step) && step.Drain?
    ensures TaskDelta(c, NextCore(perms, c, step), Delta(perms, c, step), step.task)
  {
    var es := Drained(Waiters(c, PhaseOf(c, step.task).name), step.task, step.sends);
    DrainEndsNothing(Waiters(c, PhaseOf(c, step.task).name), step.task, step.sends);
    assert Delta(perms, c, step) == es;
    assert forall i :: 0 <= i < |es| ==> es[i] in es;
    assert forall t :: t != step.task ==> PhaseOf(NextCore(perms, c, step), t) == PhaseOf(c, t);
  }

  /** A task that ended, or that is not there yet, takes no step but being reaped or accepted. */
  lemma StepperIsAlive(s: State, step: Step)
    requires InPhase(s.core, step) && TasksAgree(s)
    ensures Ended(s.log, StepTask(step)) ==> PhaseOf(s.core, StepTask(step)).Finished? && step.Reap?
  {
  }

  lemma OrderlyConcat(log: seq<Event>, es: seq<Event>)
    requires Orderly(log)
    requires forall i :: 0 <= i < |es| && es[i].Polled? ==> i == 0 && !Ended(log, es[i].q.task)
    ensures Orderly(log + es)
  {
    var all := log + es;
    forall i, j | 0 <= i < j < |all| && all[j].Polled? ensures !Ends(all[i], all[j].q.task) {
      if j >= |log| {
        assert all[j] == es[j - |log|];
        assert all[i] in log;
      }
    }
  }

  lemma EndedConcat(log: seq<Event>, es: seq<Event>, task: TaskId)
    ensures Ended(log + es, task) <==> Ended(log, task) || Ended(es, task)
  {
    assert forall e :: e in log + es <==> e in log || e in es;
  }

  lemma StepKeepsTasks(perms: Permissions, s: State, step: Step)
    requires Inv(perms, s) && TasksAgree(s) && Enabled(perms, s, step)
    ensures TasksAgree(Next(perms, s, step))
  {
    var s', es, own := Next(perms, s, step), Delta(perms, s.core, step), StepTask(step);
    if step.Drain? { DrainDelta(perms, s.core, step); } else { OwnDelta(perms, s.core, step); }
    assert TaskDelta(s.core, s'.core, es, own);
    StepperIsAlive(s, step);
    ReadersKept(s, s', es, own);
    forall task | Ended(s'.log, task)
      ensures task in s'.core.phases && (PhaseOf(s'.core, task).Gone? || PhaseOf(s'.core, task).Finished?)
    {
      EndedConcat(s.log, es, task);
      if task == own && Ended(s.log, task) {
        assert PhaseOf(s'.core, own).Gone?;
      }
    }
    if step.Reap? {
      assert forall i :: 0 <= i < |es| ==> !es[i].Polled?;
    }
    OrderlyConcat(s.log, es);
    forall q | Polled(q) in s'.log && q.body.Connect?
      ensures TakenUp(s'.log, q) || (PhaseOf(s'.core, q.task).Gone? && !HasRegistered(s'.log, q.task))
    {
      TakenUpConcat(s.log, es, q);
      if Polled(q) in s.log {
        OldRequest(perms, s, step, q);
      } else {
        NewRequestTaken(perms, s, step, q);
      }
    }
  }

  lemma ReadersKept(s: State, s': State, es: seq<Event>, own: TaskId)
    requires TasksAgree(s) && TaskDelta(s.core, s'.core, es, own) && s'.log == s.log + es
    requires forall e :: e in s.log && e.Polled? && e.q.task == own ==> !PhaseOf(s'.core, own).Authorizing?
    ensures forall e :: e in s'.log && e.Polled? ==>
      e.q.task in s'.core.phases && !PhaseOf(s'.core, e.q.task).Authorizing?
  {
  }

  lemma OldRequest(perms: Permissions, s: State, step: Step, q: Request)
    requires Inv(perms, s) && TasksAgree(s) && Enabled(perms, s, step) && Polled(q) in s.log && q.body.Connect?
    requires TaskDelta(s.core, NextCore(perms, s.core, step), Delta(perms, s.core, step), StepTask(step))
    ensures var s' := Next(perms, s, step);
      TakenUp(s'.log, q) || (PhaseOf(s'.core, q.task).Gone? && !HasRegistered(s'.log, q.task))
  {
    TakenUpConcat(s.log, Delta(perms, s.core, step), q);
    if !TakenUp(s.log, q) {
      assert q.task in s.core.phases && PhaseOf(s.core, q.task).Gone?;
      assert StepTask(step) != q.task;
      assert forall e :: e in Next(perms, s, step).log ==> e in s.log || e in Delta(perms, s.core, step);
    }
  }

  lemma NewRequestTaken(perms: Permissions, s: State, step: Step, q: Request)
    requires PhasesAgree(s.log, s.core) && InPhase(s.core, step) && q.body.Connect?
    requires Polled(q) in Delta(perms, s.core, step)
    ensures var s' := Next(perms, s, step);
      TakenUp(s'.log, q) || (PhaseOf(s'.core, q.task).Gone? && !HasRegistered(s'.log, q.task))
  {
    var es := Delta(perms, s.core, step);
    if step.Drain? {
      DrainEndsNothing(Waiters(s.core, PhaseOf(s.core, step.task).name), step.task, step.sends);
    }
    assert step.Authorize? || step.Serve?;
    assert q == step.q;
    if step.Serve? {
      assert Check(perms, s.core, step) in es;
      assert TakenUp(es, q);
      TakenUpConcat(s.log, es, q);
    } else {
      assert !HasRegistered(s.log, q.task);
      assert forall e :: e in Next(perms, s, step).log ==> e in s.log || e in es;
    }
  }
}
