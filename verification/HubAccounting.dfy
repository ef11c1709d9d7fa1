/**
 * Nothing that is read is lost: at every moment each message has all the answers that are due, but for the
 * last one if it waits in the queue of its target or is a registration that is not answered yet. A wrong
 * endpoint makes one more answer due, and a message of a service that is no call gets none for its body.
 */
module HubAccounting {
  import opened ServicePermissions
  import opened HubProtocol
  import opened HubHistory
  import opened HubSafety
  import opened HubTasks

  /** How often `q` was answered. */
  function AnswerCount(log: seq<Event>, q: Request): nat {
    if log == [] then 0
    else AnswerCount(log[..|log| - 1], q) + if Last(log).Answered? && Last(log).q == q then 1 else 0
  }

  function Requests(ws: seq<Waiter>): (r: seq<Request>)
    ensures |r| == |ws| && forall i :: 0 <= i < |ws| ==> r[i] == ws[i].q
  {
    seq(|ws|, i requires 0 <= i < |ws| => ws[i].q)
  }

  /** How often `q` stands in a queue. */
  function Copies(ws: seq<Waiter>, q: Request): nat {
    multiset(Requests(ws))[q]
  }

  /** One answer for the body, and one more before it for a wrong endpoint. */
  function Owed(q: Request): nat {
    if q.endpointOk then 1 else 2
  }

  /** The answers a message gets in the end: a service that sends no call gets none for the body. */
  ghost function Due(log: seq<Event>, q: Request): nat {
    Owed(q) - if q.body.NotACall? && HasRegistered(log, q.task) then 1 else 0
  }

  /** The answers that `q` still waits for: one for each place in the queue, and one for a registration. */
  function Outstanding(c: Core, q: Request): nat {
    (if q.body.Connect? then Copies(Waiters(c, q.body.target), q) else 0)
    + if PhaseOf(c, q.task).Inserted? && PhaseOf(c, q.task).q == q then 1 else 0
  }

  ghost predicate Balanced(s: State, q: Request) {
    AnswerCount(s.log, q) + Outstanding(s.core, q) == Due(s.log, q)
  }

  /** Every message that was read has been answered as often as is due, or waits for the rest. */
  ghost predicate Accounted(s: State) {
    forall q :: Polled(q) in s.log ==> Balanced(s, q)
  }

  // ---------------------------------------------------------------------------------------
  // Counting
  // ---------------------------------------------------------------------------------------

  lemma {:induction false} CountConcat(a: seq<Event>, b: seq<Event>, q: Request)
    ensures AnswerCount(a + b, q) == AnswerCount(a, q) + AnswerCount(b, q)
    decreases |b|
  {
    if b == [] {
      assert a + b == a;
    } else {
      var k := |b| - 1;
      CountConcat(a, b[..k], q);
      assert (a + b)[..|a + b| - 1] == a + b[..k];
    }
  }

  lemma {:induction false} CountNone(es: seq<Event>, q: Request)
    requires forall e :: e in es && e.Answered? ==> e.q != q
    ensures AnswerCount(es, q) == 0
  {
    if es != [] {
      assert Last(es) in es;
      CountNone(es[..|es| - 1], q);
    }
  }

  lemma CopiesSnoc(ws: seq<Waiter>, w: Waiter, q: Request)
    ensures Copies(ws + [w], q) == Copies(ws, q) + if w.q == q then 1 else 0
  {
    assert Requests(ws + [w]) == Requests(ws) + [w.q];
  }

  lemma CopiesNone(ws: seq<Waiter>, q: Request)
    requires forall i :: 0 <= i < |ws| ==> ws[i].q != q
    ensures Copies(ws, q) == 0
  {
    assert q !in Requests(ws);
  }

  /** Serving a request answers it once and nobody else. */
  lemma SentCount(r: Request, initiator: Name, writer: TaskId, send: Send, q: Request)
    ensures AnswerCount(Sent(r, initiator, writer, send), q) == if r == q then 1 else 0
  {
    var es := Sent(r, initiator, writer, send);
    assert es[..|es| - 1] == [] || es[..|es| - 1] == [es[0]];
    assert AnswerCount([es[0]], q) == if es[0].Answered? && es[0].q == q then 1 else 0;
  }

  /** Draining answers every waiter once for each time it stands in the queue. */
  lemma {:induction false} DrainedCount(ws: seq<Waiter>, writer: TaskId, sends: seq<Send>, q: Request)
    requires |ws| == |sends|
    ensures AnswerCount(Drained(ws, writer, sends), q) == Copies(ws, q)
    decreases |ws|
  {
    if ws == [] {
      CopiesNone(ws, q);
    } else {
      var k := |ws| - 1;
      assert ws == ws[..k] + [ws[k]];
      DrainedLast(ws, writer, sends);
      DrainedCount(ws[..k], writer, sends[..k], q);
      CountConcat(Drained(ws[..k], writer, sends[..k]), ServedOne(ws[k], writer, sends[k]), q);
      ServedOneCount(ws[k], writer, sends[k], q);
      CopiesSnoc(ws[..k], ws[k], q);
    }
  }

  lemma ServedOneCount(w: Waiter, writer: TaskId, send: Send, q: Request)
    ensures AnswerCount(ServedOne(w, writer, send), q) == if w.q == q then 1 else 0
  {
    var e := [Resolving(w.q, w.initiator, writer)];
    CountNone(e, q);
    CountConcat(e, Sent(w.q, w.initiator, writer, send), q);
    SentCount(w.q, w.initiator, writer, send, q);
  }

  // ---------------------------------------------------------------------------------------
  // Every step keeps the account
  // ---------------------------------------------------------------------------------------

  /** A request the hub never read stands in no queue and has no answer. */
  lemma UnreadIsNowhere(perms: Permissions, s: State, q: Request)
    requires Legal(perms, s.log) && QueuesAgree(s.log, s.core) && !IdUsed(s.log, q.id)
    ensures AnswerCount(s.log, q) == 0
    ensures forall t :: Copies(Waiters(s.core, t), q) == 0
  {
    UnreadHasNoEvents(perms, s.log, q.id);
    CountNone(s.log, q);
    forall t ensures Copies(Waiters(s.core, t), q) == 0 {
      forall i | 0 <= i < |Waiters(s.core, t)| ensures Waiters(s.core, t)[i].q != q {
        assert Waiting(s.log, t) == Waiters(s.core, t);
        var j := WaiterWasQueued(s.log, t, i);
        assert s.log[j] in s.log;
      }
      CopiesNone(Waiters(s.core, t), q);
    }
  }

  /** A queue holds only requests for its own target. */
  lemma QueueHoldsItsOwn(perms: Permissions, s: State, target: Name, q: Request)
    requires Legal(perms, s.log) && QueuesAgree(s.log, s.core) && !IsFor(q, target)
    ensures Copies(Waiters(s.core, target), q) == 0
  {
    var ws := Waiters(s.core, target);
    assert Waiting(s.log, target) == ws;
    forall i | 0 <= i < |ws| ensures ws[i].q != q {
      var j := WaiterWasQueued(s.log, target, i);
    }
    CopiesNone(ws, q);
  }

  // ---------------------------------------------------------------------------------------
  // Messages read before the step
  // ---------------------------------------------------------------------------------------

  /** Whether an old message has a body to answer does not change: its task registers no more, or has. */
  lemma DueStays(perms: Permissions, s: State, step: Step, q: Request)
    requires TasksAgree(s) && CoreInv(s.core) && InPhase(s.core, step) && Polled(q) in s.log
    ensures Due(Next(perms, s, step).log, q) == Due(s.log, q)
  {
    var es := Delta(perms, s.core, step);
    RegisteredConcat(s.log, es, q.task);
    if HasRegistered(es, q.task) {
      RegistersOwn(perms, s.core, step, q.task);
    }
  }

  lemma RegisteredConcat(log: seq<Event>, es: seq<Event>, task: TaskId)
    ensures HasRegistered(log + es, task) <==> HasRegistered(log, task) || HasRegistered(es, task)
  {
    assert forall e :: e in log + es <==> e in log || e in es;
  }

  /** Only a task that is authorizing registers. */
  lemma RegistersOwn(perms: Permissions, c: Core, step: Step, task: TaskId)
    requires CoreInv(c) && InPhase(c, step) && HasRegistered(Delta(perms, c, step), task)
    ensures task in c.phases && c.phases[task].Authorizing?
  {
    if step.Drain? {
      DrainEndsNothing(Waiters(c, PhaseOf(c, step.task).name), step.task, step.sends);
    } else if step.Serve? && step.q.body.Connect? {
      ConnectEndsNothing(perms, c, step);
    }
  }

  /** What the step answers of an old message is what it takes off the outstanding answers. */
  ghost predicate Settles(perms: Permissions, c: Core, step: Step, q: Request) {
    AnswerCount(Delta(perms, c, step), q) + Outstanding(NextCore(perms, c, step), q) == Outstanding(c, q)
  }

  lemma PlainSettles(perms: Permissions, c: Core, step: Step, q: Request)
    requires InPhase(c, step) && (step.Accept? || step.Hangup? || step.Reap?)
    ensures Settles(perms, c, step, q)
  {
    CountNone(Delta(perms, c, step), q);
  }

  lemma ReplySettles(perms: Permissions, c: Core, step: Step, q: Request)
    requires CoreInv(c) && InPhase(c, step) && step.Reply?
    ensures Settles(perms, c, step, q)
  {
    var e := Answered(PhaseOf(c, step.task).q, RegisteredOk);
    assert Delta(perms, c, step) == [e];
    if q == e.q {
      OneAnswer(e, q);
    } else {
      CountNone([e], q);
    }
  }

  lemma DrainSettles(perms: Permissions, s: State, step: Step, q: Request)
    requires Legal(perms, s.log) && QueuesAgree(s.log, s.core) && InPhase(s.core, step) && step.Drain?
    ensures Settles(perms, s.core, step, q)
  {
    var name := PhaseOf(s.core, step.task).name;
    var ws := Waiters(s.core, name);
    DrainedCount(ws, step.task, step.sends, q);
    if IsFor(q, name) {
      assert Waiters(NextCore(perms, s.core, step), name) == [];
      CopiesNone([], q);
    } else {
      QueueHoldsItsOwn(perms, s, name, q);
    }
  }

  /** A step that reads another message. */
  lemma ReadSettles(perms: Permissions, c: Core, step: Step, q: Request)
    requires InPhase(c, step) && (step.Authorize? || step.Serve?) && step.q != q
    ensures Settles(perms, c, step, q)
  {
    DeltaIsAbout(perms, c, step);
    CountNone(Delta(perms, c, step), q);
    if step.Serve? {
      ServeOutstanding(perms, c, step, q);
    }
  }

  lemma ServeOutstanding(perms: Permissions, c: Core, step: Step, q: Request)
    requires InPhase(c, step) && step.Serve? && step.q != q
    ensures Outstanding(NextCore(perms, c, step), q) == Outstanding(c, q)
  {
    var c' := NextCore(perms, c, step);
    if step.q.body.Connect? {
      CopiesSnoc(Waiters(c, step.q.body.target), Waiter(PhaseOf(c, step.q.task).name, step.q), q);
      assert c'.phases == c.phases;
    } else {
      assert c'.pending == c.pending;
    }
  }

  lemma DeltaIsAbout(perms: Permissions, c: Core, step: Step)
    requires step.Authorize? || step.Serve?
    ensures forall e :: e in Delta(perms, c, step) && e.Answered? ==> e.q == step.q
  {
  }

  lemma OldMessage(perms: Permissions, s: State, step: Step, q: Request)
    requires Inv(perms, s) && TasksAgree(s) && Enabled(perms, s, step) && Polled(q) in s.log && Balanced(s, q)
    ensures Balanced(Next(perms, s, step), q)
  {
    CountConcat(s.log, Delta(perms, s.core, step), q);
    DueStays(perms, s, step, q);
    if step.Drain? {
      DrainSettles(perms, s, step, q);
    } else if step.Reply? {
      ReplySettles(perms, s.core, step, q);
    } else if step.Authorize? || step.Serve? {
      ReadSettles(perms, s.core, step, q);
    } else {
      PlainSettles(perms, s.core, step, q);
    }
  }

  // ---------------------------------------------------------------------------------------
  // The message the step reads
  // ---------------------------------------------------------------------------------------

  /** What one connection request gets: its answers, or all but the last of them and a place in the queue. */
  lemma ConnectCount(perms: Permissions, c: Core, step: Step)
    requires step.Serve? && step.q.body.Connect? && PhaseOf(c, step.q.task).Serving?
    requires Copies(Waiters(c, step.q.body.target), step.q) == 0
    ensures AnswerCount(Delta(perms, c, step), step.q)
          + Copies(Waiters(NextCore(perms, c, step), step.q.body.target), step.q) == Owed(step.q)
  {
    var q, target := step.q, step.q.body.target;
    var head, decided := Preamble(q) + [Check(perms, c, step)], Decision(perms, c, step);
    assert Delta(perms, c, step) == head + decided;
    CountConcat(head, decided, q);
    CountConcat(Preamble(q), [Check(perms, c, step)], q);
    CountNone([Check(perms, c, step)], q);
    PreambleCount(q);
    if Check(perms, c, step).allowed && target in c.registry {
      SentCount(q, Check(perms, c, step).initiator, c.registry[target], step.send, q);
    } else if Queues(perms, c, q, Check(perms, c, step).initiator, step.disk) {
      CountNone(decided, q);
      CopiesSnoc(Waiters(c, target), Waiter(Check(perms, c, step).initiator, q), q);
    } else {
      OneAnswer(decided[0], q);
    }
  }

  lemma OneAnswer(e: Event, q: Request)
    requires e.Answered? && e.q == q
    ensures AnswerCount([e], q) == 1
  {
    assert [e][..0] == [];
  }

  lemma PreambleCount(q: Request)
    ensures AnswerCount(Preamble(q), q) == Owed(q) - 1
  {
    CountNone([Polled(q)], q);
    if !q.endpointOk {
      OneAnswer(Answered(q, WrongEndpoint), q);
      CountConcat([Polled(q)], [Answered(q, WrongEndpoint)], q);
    }
  }

  /** What a first message gets after the complaint about its endpoint. */
  ghost function Verdict(perms: Permissions, c: Core, step: Step): seq<Event>
    requires step.Authorize?
  {
    var q := step.q;
    if !q.body.Register? then [Answered(q, BadBody)]
    else if q.body.name in c.registry then [Answered(q, AlreadyRegistered)]
    else if Admits(perms, c, q, step.files, step.exec) then
      [NameChecked(q, step.files, step.exec, true), Registered(q, q.body.name)]
    else [NameChecked(q, step.files, step.exec, false), Answered(q, Answer.NotAllowed)]
  }

  lemma VerdictCount(perms: Permissions, c: Core, step: Step)
    requires step.Authorize?
    ensures AnswerCount(Verdict(perms, c, step), step.q) ==
      if Admits(perms, c, step.q, step.files, step.exec) then 0 else 1
  {
    var es := Verdict(perms, c, step);
    if Admits(perms, c, step.q, step.files, step.exec) {
      CountNone(es, step.q);
    } else {
      OneAnswer(es[|es| - 1], step.q);
      if |es| == 2 {
        CountNone([es[0]], step.q);
        CountConcat([es[0]], [es[1]], step.q);
        assert es == [es[0]] + [es[1]];
      }
    }
  }

  /** A first message is answered at once, or is a registration that is still to be answered. */
  lemma AuthorizeCount(perms: Permissions, c: Core, step: Step)
    requires step.Authorize?
    ensures AnswerCount(Delta(perms, c, step), step.q)
         == Owed(step.q) - if Admits(perms, c, step.q, step.files, step.exec) then 1 else 0
  {
    assert Delta(perms, c, step) == Preamble(step.q) + Verdict(perms, c, step);
    CountConcat(Preamble(step.q), Verdict(perms, c, step), step.q);
    PreambleCount(step.q);
    VerdictCount(perms, c, step);
  }

  lemma AuthorizeOutstanding(perms: Permissions, c: Core, step: Step)
    requires step.Authorize? && forall t :: Copies(Waiters(c, t), step.q) == 0
    ensures Outstanding(NextCore(perms, c, step), step.q) ==
      if Admits(perms, c, step.q, step.files, step.exec) then 1 else 0
  {
    assert forall t :: Waiters(NextCore(perms, c, step), t) == Waiters(c, t);
  }

  /** A service's message that is no connection request. */
  lemma EndCount(perms: Permissions, c: Core, step: Step)
    requires step.Serve? && !step.q.body.Connect? && PhaseOf(c, step.q.task).Serving?
    ensures AnswerCount(Delta(perms, c, step), step.q) == Owed(step.q) - if step.q.body.NotACall? then 1 else 0
  {
    var q := step.q;
    PreambleCount(q);
    if !q.body.NotACall? {
      OneAnswer(Answered(q, BadBody), q);
      CountConcat(Preamble(q), [Answered(q, BadBody)], q);
    }
  }

  lemma FirstMessage(perms: Permissions, s: State, step: Step)
    requires Inv(perms, s) && Enabled(perms, s, step) && step.Authorize?
    ensures Balanced(Next(perms, s, step), step.q)
  {
    var q, s' := step.q, Next(perms, s, step);
    UnreadIsNowhere(perms, s, q);
    CountConcat(s.log, Delta(perms, s.core, step), q);
    AuthorizeCount(perms, s.core, step);
    AuthorizeOutstanding(perms, s.core, step);
    if !q.body.Register? {
      RegisteredConcat(s.log, Delta(perms, s.core, step), q.task);
      assert !HasRegistered(s'.log, q.task);
    }
  }

  lemma LaterMessage(perms: Permissions, s: State, step: Step)
    requires Inv(perms, s) && Enabled(perms, s, step) && step.Serve?
    ensures Balanced(Next(perms, s, step), step.q)
  {
    var q, s' := step.q, Next(perms, s, step);
    UnreadIsNowhere(perms, s, q);
    CountConcat(s.log, Delta(perms, s.core, step), q);
    RegisteredConcat(s.log, Delta(perms, s.core, step), q.task);
    assert HasRegistered(s.log, q.task);
    if q.body.Connect? {
      ConnectCount(perms, s.core, step);
    } else {
      EndCount(perms, s.core, step);
    }
  }

  /** A step reads its own message and no other. */
  lemma ReadsOwn(perms: Permissions, c: Core, step: Step, q: Request)
    requires CoreInv(c) && InPhase(c, step) && Polled(q) in Delta(perms, c, step)
    ensures (step.Authorize? || step.Serve?) && step.q == q
  {
    if step.Drain? {
      DrainEndsNothing(Waiters(c, PhaseOf(c, step.task).name), step.task, step.sends);
    }
  }

  /** Every step keeps the account of every message. */
  lemma StepKeepsAccount(perms: Permissions, s: State, step: Step)
    requires Inv(perms, s) && TasksAgree(s) && Accounted(s) && Enabled(perms, s, step)
    ensures Accounted(Next(perms, s, step))
  {
    forall q | Polled(q) in Next(perms, s, step).log ensures Balanced(Next(perms, s, step), q) {
      if Polled(q) in s.log {
        OldMessage(perms, s, step, q);
      } else {
        ReadsOwn(perms, s.core, step, q);
        if step.Authorize? {
          FirstMessage(perms, s, step);
        } else {
          LaterMessage(perms, s, step);
        }
      }
    }
  }
}
