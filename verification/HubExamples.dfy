/**
 * Runs in which the hub does what one would not expect of it. The privileged monitor registers first. It
 * asks for a connection at the wrong endpoint, or it waits for a service "b" and asks for it once more just
 * after "b" has registered.
 */
module HubExamples {
  import opened Wrappers
  import opened ServicePermissions
  import opened HubProtocol
  import opened HubHistory
  import opened HubAccounting
  import opened HubReplies
  import opened HubTheorems

  const DIR := DEFAULT_SERVICE_FILES_DIR
  const FILE := Parsed(Object(map[ALLOWED_EXECS_KEY := Text("*")]))
  const FILES: Files := map[(DIR, "b") := FILE, (DIR, MONITOR_SERVICE_NAME) := FILE]
  const DISK := Disk(FILES, FILES)
  ghost const PERMS := Permissions([DIR], true, imap["*" := iset{"/bin/x"}])
  const EXEC := Some("/bin/x")

  const MONITOR := Request(0, 1, true, Register(MONITOR_SERVICE_NAME))
  const ASTRAY := Request(1, 1, false, Connect("b", false))
  const WAITING := Request(1, 1, true, Connect("b", true))
  const TARGET := Request(2, 0, true, Register("b"))
  const AGAIN := Request(3, 1, true, Connect("b", false))

  const MONITOR_SERVES := Core(map[MONITOR_SERVICE_NAME := 1], map[], map[1 := Serving(MONITOR_SERVICE_NAME)])
  const QUEUE := [Waiter(MONITOR_SERVICE_NAME, WAITING)]

  /** "b" is in the registry, the monitor waits for it, and the registration of "b" has come so far. */
  function Began(p: Phase): Core {
    Core(map[MONITOR_SERVICE_NAME := 1, "b" := 0], map["b" := QUEUE], map[1 := Serving(MONITOR_SERVICE_NAME), 0 := p])
  }

  lemma Allowed(name: Name)
    requires name == "b" || name == MONITOR_SERVICE_NAME
    ensures PERMS.NameAllowed(FILES, EXEC, name) && PERMS.HasFile(FILES, name)
  {
    assert Lookup(FILES, PERMS.dirs[0], name) == FILE;
    assert PERMS.FirstOpenable(FILES, name, 0);
    assert ServiceFileRuns(FILE, "/bin/x", PERMS.globs);
  }

  // ---------------------------------------------------------------------------------------
  // Step by step
  // ---------------------------------------------------------------------------------------

  /** The run leads to these tables, has read the requests below `n`, and has offered nothing yet. */
  ghost predicate Leads(steps: seq<Step>, c: Core, n: nat) {
    && Possible(PERMS, INIT, steps)
    && After(PERMS, INIT, steps).core == c
    && forall e :: e in After(PERMS, INIT, steps).log ==> !e.Offered? && (e.Polled? ==> e.q.id < n)
  }

  lemma Go(steps: seq<Step>, c: Core, n: nat, x: Step, c': Core, n': nat)
    requires Leads(steps, c, n) && n <= n'
    requires InPhase(c, x) && NextCore(PERMS, c, x) == c'
    requires forall e :: e in Delta(PERMS, c, x) ==> !e.Offered? && (e.Polled? ==> n <= e.q.id < n')
    requires x.Authorize? || x.Serve? ==> n <= x.q.id
    ensures Leads(steps + [x], c', n')
  {
    var s := After(PERMS, INIT, steps);
    RunConcat(PERMS, INIT, steps, [x]);
    assert [x][1..] == [];
    assert NewPairs(s.log, Delta(PERMS, c, x)) by {
      assert forall i :: 0 <= i < |Delta(PERMS, c, x)| ==> Delta(PERMS, c, x)[i] in Delta(PERMS, c, x);
    }
    assert Possible(PERMS, Next(PERMS, s, x), []);
  }

  lemma MonitorRegisters() returns (steps: seq<Step>)
    ensures Leads(steps, MONITOR_SERVES, 1)
  {
    var name := MONITOR_SERVICE_NAME;
    var x1, x2, x3, x4 := Accept(1), Authorize(MONITOR, FILES, EXEC), Reply(1), Drain(1, []);
    var c1 := Core(map[], map[], map[1 := Authorizing]);
    var c2 := Core(map[name := 1], map[], map[1 := Inserted(MONITOR, name)]);
    var c3 := Core(map[name := 1], map[], map[1 := Replied(name)]);
    Allowed(name);
    Go([], INIT.core, 0, x1, c1, 0);
    Go([] + [x1], c1, 0, x2, c2, 1);
    Go([] + [x1] + [x2], c2, 1, x3, c3, 1);
    assert Drained([], 1, []) == [];
    Go([] + [x1] + [x2] + [x3], c3, 1, x4, MONITOR_SERVES, 1);
    steps := [] + [x1] + [x2] + [x3] + [x4];
  }

  lemma QueuesForTarget()
    ensures NextCore(PERMS, MONITOR_SERVES, Serve(WAITING, DISK, NoPair)) ==
      MONITOR_SERVES.(pending := map["b" := QUEUE])
    ensures Delta(PERMS, MONITOR_SERVES, Serve(WAITING, DISK, NoPair))
         == [Polled(WAITING), Checked(WAITING, MONITOR_SERVICE_NAME, DISK, true), Queued(WAITING, MONITOR_SERVICE_NAME)]
  {
    Allowed("b");
    assert [] + [Waiter(MONITOR_SERVICE_NAME, WAITING)] == QUEUE;
    assert Queues(PERMS, MONITOR_SERVES, WAITING, MONITOR_SERVICE_NAME, DISK);
  }

  /** "b" begins to register. */
  lemma TargetRegisters()
    ensures var c := MONITOR_SERVES.(pending := map["b" := QUEUE], phases := MONITOR_SERVES.phases[0 := Authorizing]);
      && NextCore(PERMS, c, Authorize(TARGET, FILES, EXEC)) == Began(Inserted(TARGET, "b"))
      && Delta(PERMS, c, Authorize(TARGET, FILES, EXEC))
           == [Polled(TARGET), NameChecked(TARGET, FILES, EXEC, true), Registered(TARGET, "b")]
  {
    Allowed("b");
  }

  /** A run that ends in the gap between the insertion of "b" and the reply. */
  lemma TargetBegins() returns (steps: seq<Step>)
    ensures Leads(steps, Began(Inserted(TARGET, "b")), 3)
    ensures Reply(0) !in steps && !Drains(steps, 0)
  {
    var before := MonitorRegisters();
    var x1, x2, x3 := Serve(WAITING, DISK, NoPair), Accept(0), Authorize(TARGET, FILES, EXEC);
    var c1 := MONITOR_SERVES.(pending := map["b" := QUEUE]);
    var c2 := c1.(phases := c1.phases[0 := Authorizing]);
    QueuesForTarget();
    Go(before, MONITOR_SERVES, 1, x1, c1, 2);
    Go(before + [x1], c1, 2, x2, c2, 2);
    TargetRegisters();
    Go(before + [x1] + [x2], c2, 2, x3, Began(Inserted(TARGET, "b")), 3);
    steps := before + [x1] + [x2] + [x3];
    PhaseIsScheduled(PERMS, steps, 0);
  }

  // ---------------------------------------------------------------------------------------
  // What happens
  // ---------------------------------------------------------------------------------------

  /** A registered service asks at the wrong endpoint, and is answered twice. */
  lemma AnsweredTwiceHappens()
    ensures exists steps, q ::
      && Possible(PERMS, INIT, steps)
      && AskedFor(After(PERMS, INIT, steps).log, q) && AnswerCount(After(PERMS, INIT, steps).log, q) == 2
  {
    var before := MonitorRegisters();
    var s, x := After(PERMS, INIT, before), Serve(ASTRAY, DISK, NoPair);
    Go(before, MONITOR_SERVES, 1, x, MONITOR_SERVES, 2);
    RunConcat(PERMS, INIT, before, [x]);
    assert [x][1..] == [];
    MonitorHasRegistered(before);
    AskedNext(s, x);
    NobodyWaits(before + [x]);
  }

  /** With its queue empty, a request at the wrong endpoint was answered twice. */
  lemma NobodyWaits(steps: seq<Step>)
    requires Leads(steps, MONITOR_SERVES, 2) && AskedFor(After(PERMS, INIT, steps).log, ASTRAY)
    ensures AnswerCount(After(PERMS, INIT, steps).log, ASTRAY) == 2
  {
    RequestsAreConserved(PERMS, steps, ASTRAY);
    CopiesNone([], ASTRAY);
  }

  lemma NoCallStep(q: Request)
    requires q.id == 1 && q.task == 1 && q.body.NotACall?
    ensures Delta(PERMS, MONITOR_SERVES, Serve(q, DISK, NoPair)) == Preamble(q) && Polled(q) in Preamble(q)
    ensures NextCore(PERMS, MONITOR_SERVES, Serve(q, DISK, NoPair))
         == MONITOR_SERVES.(phases := map[1 := Finished(MONITOR_SERVICE_NAME)])
  {
  }

  lemma MonitorHasRegistered(steps: seq<Step>)
    requires Leads(steps, MONITOR_SERVES, 1)
    ensures HasRegistered(After(PERMS, INIT, steps).log, 1)
  {
    Reachable(PERMS, steps);
    assert PhaseOf(After(PERMS, INIT, steps).core, 1).Serving?;
  }

  /**
   * A registered service sends a message that is no call. At the right endpoint it is never answered; at the
   * wrong one it is answered once, about the endpoint.
   */
  lemma NoCallHappens(endpointOk: bool)
    ensures exists steps, q: Request ::
      && Possible(PERMS, INIT, steps)
      && q.endpointOk == endpointOk && Polled(q) in After(PERMS, INIT, steps).log
      && Outstanding(After(PERMS, INIT, steps).core, q) == 0
      && AnswerCount(After(PERMS, INIT, steps).log, q) == if endpointOk then 0 else 1
  {
    var before := MonitorRegisters();
    var q := Request(1, 1, endpointOk, NotACall);
    var s, x := After(PERMS, INIT, before), Serve(q, DISK, NoPair);
    var c := MONITOR_SERVES.(phases := map[1 := Finished(MONITOR_SERVICE_NAME)]);
    NoCallStep(q);
    Go(before, MONITOR_SERVES, 1, x, c, 2);
    RunConcat(PERMS, INIT, before, [x]);
    assert [x][1..] == [];
    MonitorHasRegistered(before);
    RegisteredConcat(s.log, Delta(PERMS, s.core, x), 1);
    EveryMessageIsAnswered(PERMS, before + [x], q);
  }

  lemma AskedNext(s: State, x: Step)
    requires x.Serve? && x.q.body.Connect? && InPhase(s.core, x) && HasRegistered(s.log, x.q.task)
    ensures AskedFor(Next(PERMS, s, x).log, x.q)
  {
    var e :| e in s.log && e.Registered? && e.q.task == x.q.task;
    assert Delta(PERMS, s.core, x)[0] == Polled(x.q);
    assert Polled(x.q) in Delta(PERMS, s.core, x);
    assert e in Next(PERMS, s, x).log;
  }

  lemma AgainDelta(p: Phase)
    ensures Delta(PERMS, Began(p), Serve(AGAIN, DISK, Pair(0, true))) ==
      [Polled(AGAIN), Checked(AGAIN, MONITOR_SERVICE_NAME, DISK, true),
       Offered(AGAIN, MONITOR_SERVICE_NAME, 0, 0, true), Answered(AGAIN, Descriptor(0))]
  {
  }

  /** What asking for "b" once more does, before "b" has drained its queue. */
  lemma AskAgain(steps: seq<Step>, p: Phase) returns (i: nat)
    requires Leads(steps, Began(p), 3)
    ensures OffersAt(PERMS, steps, Serve(AGAIN, DISK, Pair(0, true)), i)
    ensures Next(PERMS, After(PERMS, INIT, steps), Serve(AGAIN, DISK, Pair(0, true))).log[i]
         == Offered(AGAIN, MONITOR_SERVICE_NAME, 0, 0, true)
  {
    var s, x := After(PERMS, INIT, steps), Serve(AGAIN, DISK, Pair(0, true));
    var e := Offered(AGAIN, MONITOR_SERVICE_NAME, 0, 0, true);
    var es := [Polled(AGAIN), Checked(AGAIN, MONITOR_SERVICE_NAME, DISK, true), e, Answered(AGAIN, Descriptor(0))];
    AgainDelta(p);
    assert (s.log + es)[|s.log| + 2] == es[2];
    i := |s.log| + 2;
    assert NewPairs(s.log, es);
  }

  /**
   * A service is offered a connection in the pause between its registration reply and the draining of its
   * queue, past a request that has been waiting for it.
   */
  lemma OfferInThePauseHappens()
    ensures exists steps, x, i: nat ::
      && OffersAt(PERMS, steps, x, i) && x.Serve?
      && var s, e := After(PERMS, INIT, steps), Next(PERMS, After(PERMS, INIT, steps), x).log[i];
         HasReplied(s.log, e.writer) && !Drains(steps, e.writer) && Waiters(s.core, x.q.body.target) != []
  {
    var before := TargetBegins();
    var steps := before + [Reply(0)];
    Go(before, Began(Inserted(TARGET, "b")), 3, Reply(0), Began(Replied("b")), 3);
    var i := AskAgain(steps, Replied("b"));
    RepliedIffScheduled(PERMS, steps, 0);
    assert Reply(0) in steps;
    assert !Drains(steps, 0);
    assert OffersAt(PERMS, steps, Serve(AGAIN, DISK, Pair(0, true)), i);
  }

  /**
   * A service is offered a connection before its registration is answered. In the program this takes a
   * `respond` that suspends before it hands over the reply.
   */
  lemma OfferBeforeReplyHappens()
    ensures exists steps, x, i: nat ::
      && OffersAt(PERMS, steps, x, i) && x.Serve?
      && var log := Next(PERMS, After(PERMS, INIT, steps), x).log;
         log[i].accepted && !HasReplied(log[..i], log[i].writer)
  {
    var steps := TargetBegins();
    var i := AskAgain(steps, Inserted(TARGET, "b"));
    OfferBeforeReplyIff(PERMS, steps, Serve(AGAIN, DISK, Pair(0, true)), i);
  }
}
