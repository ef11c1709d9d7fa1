/**
 * The hub itself: the shared tables as fields, and one method for each section that holds their lock.
 * Each of them is one step of the protocol and keeps everything that is shown of reachable states, and
 * each says what its caller gets from that.
 */
module HubServer {
  import opened Wrappers
  import opened ServicePermissions
  import opened HubProtocol
  import opened HubHistory
  import opened HubSafety
  import opened HubAccounting
  import opened HubTasks
  import opened HubReplies
  import opened HubTheorems

  class Hub {
    const perms: Permissions
    var clientRegistry: map<Name, TaskId>
    var pendingConnections: map<Name, seq<Waiter>>
    /** Where each client task is; in the program this is the state of its future. */
    var tasks: map<TaskId, Phase>
    /** What was read, decided and written so far. */
    ghost var log: seq<Event>

    ghost function Tables(): Core
      reads this
    {
      Core(clientRegistry, pendingConnections, tasks)
    }

    ghost function View(): State
      reads this
    {
      State(Tables(), log)
    }

    /** What holds at every moment between two sections. */
    ghost predicate Valid()
      reads this
    {
      HubInv(perms, View())
    }

    constructor (perms: Permissions)
      ensures Valid() && View() == INIT && this.perms == perms
    {
      this.perms := perms;
      clientRegistry, pendingConnections, tasks, log := map[], map[], map[], [];
      new;
      InitHubInv(perms);
    }

    ghost predicate May(step: Step)
      reads this
    {
      Enabled(perms, View(), step)
    }

    ghost method Respond(q: Request, a: Answer)
      modifies this`log
      ensures log == old(log) + [Answered(q, a)]
    {
      log := log + [Answered(q, a)];
    }

    /** Read one message; complain about a wrong endpoint, but go on with the body. */
    method Poll(q: Request)
      modifies this`log
      ensures log == old(log) + Preamble(q)
    {
      log := log + [Polled(q)];
      if !q.endpointOk {
        Respond(q, WrongEndpoint);
      }
    }

    /** A new connection gets a task of which nothing was ever heard, and which owns nothing. */
    method AcceptClient(task: TaskId)
      requires Valid() && May(Accept(task))
      modifies this`tasks
      ensures Valid() && View() == Next(perms, old(View()), Accept(task))
      ensures forall q :: Polled(q) in log ==> q.task != task
      ensures forall n :: n in clientRegistry ==> clientRegistry[n] != task
    {
      StepKeepsHubInv(perms, View(), Accept(task));
      tasks := tasks[task := Authorizing];
      assert log + [] == log;
    }

    /**
     * The client closed its connection. If it registered, its name stays its own until it is reaped;
     * otherwise its task is gone.
     */
    method ClientGone(task: TaskId)
      requires Valid() && May(Hangup(task))
      modifies this`tasks
      ensures Valid() && View() == Next(perms, old(View()), Hangup(task))
      ensures if HasRegistered(log, task) then tasks[task].Finished? else tasks[task].Gone?
      ensures forall n :: n in clientRegistry && clientRegistry[n] == task <==> tasks[task] == Finished(n)
    {
      StepKeepsHubInv(perms, View(), Hangup(task));
      assert log + [] == log;
      tasks := tasks[task := if tasks[task].Serving? then Finished(tasks[task].name) else Gone];
      assert tasks[task] == PhaseOf(Tables(), task);
    }

    /** The lock-held part of a registration. */
    method HandleAuthRequest(q: Request, name: Name, files: Files, process: Process) returns (r: Result<(), Answer>)
      modifies this`clientRegistry, this`log
      ensures r.Ok? <==> name !in old(clientRegistry) && perms.NameAllowed(files, process.Executable(), name)
      ensures r.Err? ==> clientRegistry == old(clientRegistry)
      ensures r.Err? && name in clientRegistry ==> r.error == AlreadyRegistered && log == old(log)
      ensures r.Err? && name !in clientRegistry ==>
        r.error == Answer.NotAllowed && log == old(log) + [NameChecked(q, files, process.Executable(), false)]
      ensures r.Ok? ==>
        && clientRegistry == old(clientRegistry)[name := q.task]
        && log == old(log) + [NameChecked(q, files, process.Executable(), true), Registered(q, name)]
    {
      if name in clientRegistry {
        return Err(AlreadyRegistered);
      }
      var allowed := perms.CheckServiceNameAllowed(files, process, name);
      log := log + [NameChecked(q, files, process.Executable(), allowed)];
      if !allowed {
        return Err(Answer.NotAllowed);
      }
      clientRegistry := clientRegistry[name := q.task];
      log := log + [Registered(q, name)];
      return Ok(());
    }

    /** The first message of a connection. It makes the task an owner, or is the last one the task reads. */
    method AuthorizeClient(q: Request, files: Files, process: Process)
      requires Valid() && May(Authorize(q, files, process.Executable()))
      modifies this`clientRegistry, this`tasks, this`log
      ensures Valid() && View() == Next(perms, old(View()), Authorize(q, files, process.Executable()))
      ensures HasRegistered(log, q.task) <==> Admits(perms, old(Tables()), q, files, process.Executable())
      ensures HasRegistered(log, q.task) ==> clientRegistry == old(clientRegistry)[q.body.name := q.task]
      ensures !HasRegistered(log, q.task) ==> clientRegistry == old(clientRegistry) && Ended(log, q.task)
    {
      StepKeepsHubInv(perms, View(), Authorize(q, files, process.Executable()));
      AuthorizeEnds(perms, View(), Authorize(q, files, process.Executable()));
      HandleFirstMessage(q, files, process);
    }

    method HandleFirstMessage(q: Request, files: Files, process: Process)
      requires May(Authorize(q, files, process.Executable()))
      modifies this`clientRegistry, this`tasks, this`log
      ensures View() == Next(perms, old(View()), Authorize(q, files, process.Executable()))
    {
      Poll(q);
      match q.body {
        case Register(name) =>
          var r := HandleAuthRequest(q, name, files, process);
          if r.Ok? {
            tasks := tasks[q.task := Inserted(q, name)];
          } else {
            Respond(q, r.error);
            tasks := tasks[q.task := Gone];
          }
        case Connect(_, _) =>
          Respond(q, BadBody);
          tasks := tasks[q.task := Gone];
        case Undecodable =>
          Respond(q, BadBody);
          tasks := tasks[q.task := Gone];
        case NotACall =>
          Respond(q, BadBody);
          tasks := tasks[q.task := Gone];
      }
    }

    method ReplyToRegistration(task: TaskId)
      requires Valid() && May(Reply(task))
      modifies this`tasks, this`log
      ensures Valid() && View() == Next(perms, old(View()), Reply(task))
      ensures HasReplied(log, task) && !old(HasReplied(log, task))
    {
      StepKeepsHubInv(perms, View(), Reply(task));
      Respond(tasks[task].q, RegisteredOk);
      tasks := tasks[task := Replied(tasks[task].name)];
      assert PhaseOf(Tables(), task).Replied?;
    }

    /** One end of a new socket pair to the target, then the other end, or the bad news, to the initiator. */
    method SendConnectionDescriptors(initiator: Name, q: Request, writer: TaskId, send: Send)
      modifies this`log
      ensures log == old(log) + Sent(q, initiator, writer, send)
    {
      match send {
        case Pair(socket, accepted) =>
          log := log + [Offered(q, initiator, writer, socket, accepted)];
          if !accepted {
            Respond(q, PeerDisconnected);
          } else {
            Respond(q, Descriptor(socket));
          }
        case NoPair =>
          Respond(q, PairFailed);
      }
    }

    /** Take the whole queue of a name out and serve it in order. */
    method ResolvePendingConnections(task: TaskId, name: Name, sends: seq<Send>)
      requires |sends| == |Waiters(Tables(), name)|
      modifies this`pendingConnections, this`log
      ensures pendingConnections == old(pendingConnections) - {name}
      ensures log == old(log) + Drained(old(Waiters(Tables(), name)), task, sends)
    {
      if name in pendingConnections {
        var waiters := pendingConnections[name];
        pendingConnections := pendingConnections - {name};
        ghost var before := log;
        for i := 0 to |waiters|
          invariant pendingConnections == old(pendingConnections) - {name}
          invariant log == before + Drained(waiters[..i], task, sends[..i])
        {
          log := log + [Resolving(waiters[i].q, waiters[i].initiator, task)];
          SendConnectionDescriptors(waiters[i].initiator, waiters[i].q, task, sends[i]);
          assert waiters[..i + 1][..i] == waiters[..i] && sends[..i + 1][..i] == sends[..i];
        }
        assert waiters[..|waiters|] == waiters && sends[..|waiters|] == sends;
      } else {
        assert log + [] == log;
      }
    }

    /** After draining, every request ever read for the name from a registered service has all its answers. */
    method DrainWaiters(task: TaskId, sends: seq<Send>)
      requires Valid() && May(Drain(task, sends))
      modifies this`pendingConnections, this`tasks, this`log
      ensures Valid() && View() == Next(perms, old(View()), Drain(task, sends))
      ensures tasks[task].Serving? && tasks[task].name == old(tasks[task].name)
      ensures forall q :: AskedFor(log, q) && IsFor(q, tasks[task].name) ==> AnswerCount(log, q) == Owed(q)
    {
      StepKeepsHubInv(perms, View(), Drain(task, sends));
      var name := tasks[task].name;
      ResolvePendingConnections(task, name, sends);
      tasks := tasks[task := Serving(name)];
      NoQueueNoDebt(perms, View(), name);
    }

    /** The lock-held part of a connection request. */
    method HandleConnectionRequest(initiator: Name, q: Request, disk: Disk, send: Send)
      requires q.body.Connect?
      modifies this`pendingConnections, this`log
      ensures log == old(log)
        + [Checked(q, initiator, disk, perms.Permitted(disk.atCheck, initiator, q.body.target))]
        + Decided(perms, old(Tables()), q, initiator, disk, send)
      ensures pendingConnections ==
        if Queues(perms, old(Tables()), q, initiator, disk) then
          old(pendingConnections)[q.body.target := old(Waiters(Tables(), q.body.target)) + [Waiter(initiator, q)]]
        else old(pendingConnections)
    {
      var target := q.body.target;
      var allowed := perms.CheckConnectionAllowed(disk.atCheck, initiator, target);
      log := log + [Checked(q, initiator, disk, allowed)];
      if !allowed {
        Respond(q, Answer.NotAllowed);
        return;
      }
      if target in clientRegistry {
        SendConnectionDescriptors(initiator, q, clientRegistry[target], send);
      } else if !q.body.wait {
        Respond(q, Answer.ServiceNotFound);
      } else {
        var exist := perms.CheckServiceExists(disk.atLook, target);
        if !exist {
          Respond(q, Answer.ServiceNotFound);
        } else {
          var waiters := if target in pendingConnections then pendingConnections[target] else [];
          pendingConnections := pendingConnections[target := waiters + [Waiter(initiator, q)]];
          log := log + [Queued(q, initiator)];
        }
      }
    }

    /**
     * One turn of a client's loop. A connection request has its answers now, or lacks the last one and
     * stands once in the queue of its target; any other message is the last one the task reads.
     */
    method ServeClient(q: Request, disk: Disk, send: Send)
      requires Valid() && May(Serve(q, disk, send))
      modifies this`pendingConnections, this`tasks, this`log
      ensures Valid() && View() == Next(perms, old(View()), Serve(q, disk, send))
      ensures q.body.Connect? ==>
        AskedFor(log, q) && AnswerCount(log, q) + Copies(Waiters(Tables(), q.body.target), q) == Owed(q)
      ensures !q.body.Connect? ==> tasks[q.task].Finished? && Ended(log, q.task)
    {
      StepKeepsHubInv(perms, View(), Serve(q, disk, send));
      ServeReads(perms, View(), Serve(q, disk, send));
      HandleMessage(q, disk, send);
    }

    method HandleMessage(q: Request, disk: Disk, send: Send)
      requires May(Serve(q, disk, send))
      modifies this`pendingConnections, this`tasks, this`log
      ensures View() == Next(perms, old(View()), Serve(q, disk, send))
    {
      var name := tasks[q.task].name;
      Poll(q);
      match q.body {
        case Connect(_, _) =>
          HandleConnectionRequest(name, q, disk, send);
        case Register(_) =>
          Respond(q, BadBody);
          tasks := tasks[q.task := Finished(name)];
        case Undecodable =>
          Respond(q, BadBody);
          tasks := tasks[q.task := Finished(name)];
        case NotACall =>
          tasks := tasks[q.task := Finished(name)];
      }
    }

    /**
     * The main loop takes a finished task away. Exactly the name it owned is free afterwards, with nobody
     * waiting for it; every other name keeps its owner.
     */
    method ReapTask(task: TaskId) returns (name: Name)
      requires Valid() && May(Reap(task))
      modifies this`clientRegistry, this`tasks, this`log
      ensures Valid() && View() == Next(perms, old(View()), Reap(task))
      ensures name in old(clientRegistry) && old(clientRegistry)[name] == task
      ensures name !in clientRegistry && Waiters(Tables(), name) == []
      ensures forall n :: n in clientRegistry <==> n in old(clientRegistry) && old(clientRegistry)[n] != task
      ensures forall n :: n in clientRegistry ==> clientRegistry[n] == old(clientRegistry)[n]
      ensures forall n :: Owner(log, n) == if n == name then None else old(Owner(log, n))
    {
      StepKeepsHubInv(perms, View(), Reap(task));
      ReapFrees(perms, View(), task);
      name := tasks[task].name;
      RemoveTask(task, name);
    }

    method RemoveTask(task: TaskId, name: Name)
      requires task in tasks && tasks[task] == Finished(name)
      modifies this`clientRegistry, this`tasks, this`log
      ensures View() == Next(perms, old(View()), Reap(task))
    {
      clientRegistry := clientRegistry - {name};
      tasks := tasks[task := Gone];
      log := log + [Reaped(task, name)];
    }
  }

  // ---------------------------------------------------------------------------------------
  // What the methods need to know
  // ---------------------------------------------------------------------------------------

  /** The connection may be offered: it was allowed just now, or it was waiting for this target. */
  ghost predicate MayOffer(perms: Permissions, log: seq<Event>, q: Request, initiator: Name,
                                   writer: TaskId, send: Send) {
    && Legal(perms, log) && q.body.Connect? && Owner(log, q.body.target) == Some(writer)
    && (JustAllowed(log, q, initiator) || JustResolved(log, q, initiator))
    && (send.Pair? ==> !PairUsed(log, send.id))
  }

  /**
   * Sending descriptors gives exactly one answer, and to nobody but `q`. It hands out a descriptor if and
   * only if the target took the other end of the same pair just before. What is written is justified
   * whenever the connection may be offered.
   */
  lemma SendingAnswersOnce(perms: Permissions, log: seq<Event>, q: Request, initiator: Name, writer: TaskId, send: Send)
    ensures var log' := log + Sent(q, initiator, writer, send);
      && (forall r :: AnswerCount(log', r) == AnswerCount(log, r) + if r == q then 1 else 0)
      && Last(log').Answered? && Last(log').q == q
      && (Last(log').answer.Descriptor? <==> send.Pair? && send.accepted)
      && (Last(log').answer.Descriptor? ==>
            |log'| > 1 && log'[|log'| - 2] == Offered(q, initiator, writer, Last(log').answer.pair, true))
      && (MayOffer(perms, log, q, initiator, writer, send) ==> Legal(perms, log'))
  {
    var es := Sent(q, initiator, writer, send);
    forall r ensures AnswerCount(log + es, r) == AnswerCount(log, r) + if r == q then 1 else 0 {
      CountConcat(log, es, r);
      SentCount(q, initiator, writer, send, r);
    }
    if MayOffer(perms, log, q, initiator, writer, send) {
      SentLegal(perms, log, q, initiator, writer, send);
    }
  }

  lemma NoQueueNoDebt(perms: Permissions, s: State, name: Name)
    requires HubInv(perms, s) && Waiters(s.core, name) == []
    ensures forall q :: AskedFor(s.log, q) && IsFor(q, name) ==> AnswerCount(s.log, q) == Owed(q)
  {
    forall q | AskedFor(s.log, q) && IsFor(q, name) ensures AnswerCount(s.log, q) == Owed(q) {
      ConservedIn(perms, s, q);
      CopiesNone([], q);
    }
  }

  /** A finished task owns one name, for which nobody waits; reaping it frees that name. */
  lemma ReapFrees(perms: Permissions, s: State, task: TaskId)
    requires CoreInv(s.core) && PhaseOf(s.core, task).Finished?
    ensures var name, s' := s.core.phases[task].name, Next(perms, s, Reap(task));
      && s' == State(Core(s.core.registry - {name}, s.core.pending, s.core.phases[task := Gone]),
                  s.log + [Reaped(task, name)])
      && name in s.core.registry && s.core.registry[name] == task && Waiters(s'.core, name) == []
      && (forall n :: n in s'.core.registry <==> n in s.core.registry && s.core.registry[n] != task)
      && (forall n :: Owner(s'.log, n) == if n == name then None else Owner(s.log, n))
  {
    var name := s.core.phases[task].name;
    assert PhaseOf(s.core, task) == Finished(name);
    Snoc(s.log, Reaped(task, name));
  }

  /** A first message registers, or is one that ends its task. */
  lemma VerdictEnds(perms: Permissions, c: Core, step: Step)
    requires step.Authorize?
    ensures var es := Delta(perms, c, step);
      if Admits(perms, c, step.q, step.files, step.exec)
      then HasRegistered(es, step.q.task)
      else !HasRegistered(es, step.q.task) && Ended(es, step.q.task)
  {
    var es, verdict := Delta(perms, c, step), Verdict(perms, c, step);
    assert es == Preamble(step.q) + verdict;
    var e := verdict[|verdict| - 1];
    assert e in es;
    assert e.Registered? || Ends(e, step.q.task);
  }

  lemma AuthorizeEnds(perms: Permissions, s: State, step: Step)
    requires PhasesAgree(s.log, s.core) && InPhase(s.core, step) && step.Authorize?
    ensures var s' := Next(perms, s, step);
      && (HasRegistered(s'.log, step.q.task) <==> Admits(perms, s.core, step.q, step.files, step.exec))
      && (HasRegistered(s'.log, step.q.task) || Ended(s'.log, step.q.task))
  {
    EndedConcat(s.log, Delta(perms, s.core, step), step.q.task);
    RegisteredConcat(s.log, Delta(perms, s.core, step), step.q.task);
    VerdictEnds(perms, s.core, step);
    assert !HasRegistered(s.log, step.q.task);
  }

  lemma ServeReads(perms: Permissions, s: State, step: Step)
    requires Inv(perms, s) && Enabled(perms, s, step) && step.Serve?
    ensures var s' := Next(perms, s, step);
      && (step.q.body.Connect? ==> AskedFor(s'.log, step.q) && TakenUp(s'.log, step.q))
      && (!step.q.body.Connect? ==> Ended(s'.log, step.q.task))
  {
    if step.q.body.Connect? {
      DeltaParts(perms, s.core, step);
      TakesUp(s.log, Delta(perms, s.core, step), step.q, Check(perms, s.core, step));
    } else {
      ServeEnds(perms, s.core, step);
      EndedConcat(s.log, Delta(perms, s.core, step), step.q.task);
    }
  }

  lemma TakesUp(log: seq<Event>, es: seq<Event>, q: Request, check: Event)
    requires Polled(q) in es && check in es && check.Checked? && check.q == q && q.body.Connect?
    requires HasRegistered(log, q.task)
    ensures AskedFor(log + es, q) && TakenUp(log + es, q)
  {
    assert forall e :: e in log + es <==> e in log || e in es;
  }

  lemma ServeEnds(perms: Permissions, c: Core, step: Step)
    requires InPhase(c, step) && step.Serve? && !step.q.body.Connect?
    ensures Ended(Delta(perms, c, step), step.q.task)
  {
    var es := Delta(perms, c, step);
    var e := if step.q.body.NotACall? then es[0] else es[|es| - 1];
    assert e in es && Ends(e, step.q.task);
  }
}
