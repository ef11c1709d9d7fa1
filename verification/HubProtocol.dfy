/**
 * The hub as a transition system. One task serves one client connection; all tasks share a registry
 * of names and a table of waiting connection requests behind one lock. A step is one section that
 * holds the lock, or one action of a task outside it; steps of different tasks interleave freely.
 *
 * The state keeps a log of everything the hub read, decided and wrote. The log is history: no step
 * reads it to decide what to do.
 */
module HubProtocol {
  import opened Wrappers
  import opened ServicePermissions

  type Name = string
  type TaskId = nat
  type RequestId = nat
  type PairId = nat

  datatype Body =
    | Register(name: Name)
    | Connect(target: Name, wait: bool)
    | Undecodable   // a call whose parameters are no hub message
    | NotACall

  /** A message read from the connection of `task`; `endpointOk` says it named the endpoint expected there. */
  datatype Request = Request(id: RequestId, task: TaskId, endpointOk: bool, body: Body)

  /** `WrongEndpoint`, `BadBody` and `PairFailed` are all `InternalError`, with different texts. */
  datatype Answer =
    | RegisteredOk
    | Descriptor(pair: PairId)
    | WrongEndpoint
    | BadBody
    | AlreadyRegistered
    | NotAllowed
    | ServiceNotFound
    | PeerDisconnected
    | PairFailed

  /** The service files when a connection is checked, and after that when the file of the target is looked for. */
  datatype Disk = Disk(atCheck: Files, atLook: Files)

  datatype Event =
    | Polled(q: Request)
    | NameChecked(q: Request, files: Files, exec: Option<string>, allowed: bool)
    | Registered(q: Request, name: Name)
    | Checked(q: Request, initiator: Name, disk: Disk, allowed: bool)
    | Queued(q: Request, initiator: Name)
    | Resolving(q: Request, initiator: Name, writer: TaskId)
    | Offered(q: Request, initiator: Name, writer: TaskId, pair: PairId, accepted: bool)
    | Answered(q: Request, answer: Answer)
    | Reaped(task: TaskId, name: Name)

  datatype Phase =
    | Authorizing
    | Inserted(q: Request, name: Name)  // in the registry, registration not answered yet
    | Replied(name: Name)               // answered, waiters not drained yet
    | Serving(name: Name)
    | Finished(name: Name)              // loop returned, not reaped yet
    | Gone

  datatype Waiter = Waiter(initiator: Name, q: Request)

  datatype Core = Core(
    registry: map<Name, TaskId>,
    pending: map<Name, seq<Waiter>>,
    phases: map<TaskId, Phase>)

  datatype State = State(core: Core, log: seq<Event>)

  const INIT := State(Core(map[], map[], map[]), [])

  /** How making a socket pair and offering its end to the target turn out. */
  datatype Send = NoPair | Pair(id: PairId, accepted: bool)

  datatype Step =
    | Accept(task: TaskId)
    | Hangup(task: TaskId)
    | Authorize(q: Request, files: Files, exec: Option<string>)
    | Reply(task: TaskId)
    | Drain(task: TaskId, sends: seq<Send>)
    | Serve(q: Request, disk: Disk, send: Send)
    | Reap(task: TaskId)

  function StepTask(step: Step): TaskId {
    match step
    case Authorize(q, _, _) => q.task
    case Serve(q, _, _) => q.task
    case _ => step.task
  }

  function PhaseOf(c: Core, task: TaskId): Phase {
    if task in c.phases then c.phases[task] else Gone
  }

  function Waiters(c: Core, name: Name): seq<Waiter> {
    if name in c.pending then c.pending[name] else []
  }

  // ---------------------------------------------------------------------------------------
  // What a step writes
  // ---------------------------------------------------------------------------------------

  function Preamble(q: Request): seq<Event> {
    [Polled(q)] + if q.endpointOk then [] else [Answered(q, WrongEndpoint)]
  }

  function Sent(q: Request, initiator: Name, writer: TaskId, send: Send): seq<Event> {
    match send
    case NoPair => [Answered(q, PairFailed)]
    case Pair(p, accepted) =>
      [Offered(q, initiator, writer, p, accepted),
       Answered(q, if accepted then Descriptor(p) else PeerDisconnected)]
  }

  function Drained(waiters: seq<Waiter>, writer: TaskId, sends: seq<Send>): seq<Event>
    requires |waiters| == |sends|
  {
    if waiters == [] then []
    else
      var k := |waiters| - 1;
      Drained(waiters[..k], writer, sends[..k])
      + [Resolving(waiters[k].q, waiters[k].initiator, writer)]
      + Sent(waiters[k].q, waiters[k].initiator, writer, sends[k])
  }

  /** What the hub decides about a connection request: the events after the permission check, and whether it queues. */
  ghost function Decided(perms: Permissions, c: Core, q: Request, initiator: Name, disk: Disk, send: Send): seq<Event>
    requires q.body.Connect?
  {
    var target := q.body.target;
    if !perms.Permitted(disk.atCheck, initiator, target) then [Answered(q, Answer.NotAllowed)]
    else if target in c.registry then Sent(q, initiator, c.registry[target], send)
    else if q.body.wait && perms.HasFile(disk.atLook, target) then [Queued(q, initiator)]
    else [Answered(q, Answer.ServiceNotFound)]
  }

  ghost function Delta(perms: Permissions, c: Core, step: Step): seq<Event> {
    match step
    case Accept(_) => []
    case Hangup(_) => []
    case Authorize(q, files, exec) =>
      Preamble(q) + (
        if !q.body.Register? then [Answered(q, BadBody)]
        else if q.body.name in c.registry then [Answered(q, AlreadyRegistered)]
        else if !perms.NameAllowed(files, exec, q.body.name) then
          [NameChecked(q, files, exec, false), Answered(q, Answer.NotAllowed)]
        else [NameChecked(q, files, exec, true), Registered(q, q.body.name)])
    case Reply(task) =>
      if PhaseOf(c, task).Inserted? then [Answered(c.phases[task].q, RegisteredOk)] else []
    case Drain(task, sends) =>
      if PhaseOf(c, task).Replied? && |Waiters(c, c.phases[task].name)| == |sends|
      then Drained(Waiters(c, c.phases[task].name), task, sends) else []
    case Serve(q, disk, send) =>
      if !PhaseOf(c, q.task).Serving? then []
      else if q.body.Connect? then
        var initiator := c.phases[q.task].name;
        Preamble(q)
        + [Checked(q, initiator, disk, perms.Permitted(disk.atCheck, initiator, q.body.target))]
        + Decided(perms, c, q, initiator, disk, send)
      else if q.body.NotACall? then Preamble(q)
      else Preamble(q) + [Answered(q, BadBody)]
    case Reap(task) =>
      if PhaseOf(c, task).Finished? then [Reaped(task, c.phases[task].name)] else []
  }

  // ---------------------------------------------------------------------------------------
  // What a step changes
  // ---------------------------------------------------------------------------------------

  ghost predicate Queues(perms: Permissions, c: Core, q: Request, initiator: Name, disk: Disk) {
    && q.body.Connect? && q.body.wait
    && perms.Permitted(disk.atCheck, initiator, q.body.target)
    && q.body.target !in c.registry
    && perms.HasFile(disk.atLook, q.body.target)
  }

  /** The message is a registration of a free name that the process may use. */
  ghost predicate Admits(perms: Permissions, c: Core, q: Request, files: Files, exec: Option<string>) {
    q.body.Register? && q.body.name !in c.registry && perms.NameAllowed(files, exec, q.body.name)
  }

  ghost function NextCore(perms: Permissions, c: Core, step: Step): Core {
    match step
    case Accept(task) => c.(phases := c.phases[task := Authorizing])
    case Hangup(task) =>
      var p := PhaseOf(c, task);
      c.(phases := c.phases[task := if p.Serving? then Finished(p.name) else Gone])
    case Authorize(q, files, exec) =>
      if Admits(perms, c, q, files, exec) then
        c.(registry := c.registry[q.body.name := q.task],
           phases := c.phases[q.task := Inserted(q, q.body.name)])
      else
        c.(phases := c.phases[q.task := Gone])
    case Reply(task) =>
      var p := PhaseOf(c, task);
      c.(phases := c.phases[task := if p.Inserted? then Replied(p.name) else p])
    case Drain(task, _) =>
      var p := PhaseOf(c, task);
      if p.Replied? then
        c.(pending := c.pending - {p.name}, phases := c.phases[task := Serving(p.name)])
      else c
    case Serve(q, disk, _) =>
      var p := PhaseOf(c, q.task);
      if !p.Serving? then c
      else if q.body.Connect? then
        if Queues(perms, c, q, p.name, disk) then
          var t := q.body.target;
          c.(pending := c.pending[t := Waiters(c, t) + [Waiter(p.name, q)]])
        else c
      else c.(phases := c.phases[q.task := Finished(p.name)])
    case Reap(task) =>
      var p := PhaseOf(c, task);
      if p.Finished? then
        c.(registry := c.registry - {p.name}, phases := c.phases[task := Gone])
      else c
  }

  // ---------------------------------------------------------------------------------------
  // Runs
  // ---------------------------------------------------------------------------------------

  ghost predicate IdUsed(log: seq<Event>, id: RequestId) {
    exists e :: e in log && e.Polled? && e.q.id == id
  }

  ghost predicate PairUsed(log: seq<Event>, pair: PairId) {
    exists e :: e in log && e.Offered? && e.pair == pair
  }

  /** The pairs offered in `es` are new, and no two of them are the same. */
  ghost predicate NewPairs(log: seq<Event>, es: seq<Event>) {
    && (forall i :: 0 <= i < |es| && es[i].Offered? ==> !PairUsed(log, es[i].pair))
    && (forall i, j :: 0 <= i < j < |es| && es[i].Offered? && es[j].Offered? ==> es[i].pair != es[j].pair)
  }

  /** The phase of the step's own task allows it, whatever the other tasks do. */
  ghost predicate InPhase(c: Core, step: Step) {
    match step
    case Accept(task) => task !in c.phases
    case Hangup(task) => PhaseOf(c, task).Authorizing? || PhaseOf(c, task).Serving?
    case Authorize(q, _, _) => PhaseOf(c, q.task).Authorizing?
    case Reply(task) => PhaseOf(c, task).Inserted?
    case Drain(task, sends) => PhaseOf(c, task).Replied? && |sends| == |Waiters(c, c.phases[task].name)|
    case Serve(q, _, _) => PhaseOf(c, q.task).Serving?
    case Reap(task) => PhaseOf(c, task).Finished?
  }

  /** Every message is a new request. */
  ghost predicate NewRequest(log: seq<Event>, step: Step) {
    match step
    case Authorize(q, _, _) => !IdUsed(log, q.id)
    case Serve(q, _, _) => !IdUsed(log, q.id)
    case _ => true
  }

  /** When a step can happen. Requests and socket pairs are new objects each time. */
  ghost predicate Enabled(perms: Permissions, s: State, step: Step) {
    && InPhase(s.core, step)
    && NewRequest(s.log, step)
    && NewPairs(s.log, Delta(perms, s.core, step))
  }

  ghost function Next(perms: Permissions, s: State, step: Step): State {
    State(NextCore(perms, s.core, step), s.log + Delta(perms, s.core, step))
  }

  ghost predicate Possible(perms: Permissions, s: State, steps: seq<Step>)
    decreases |steps|
  {
    steps == [] || (Enabled(perms, s, steps[0]) && Possible(perms, Next(perms, s, steps[0]), steps[1..]))
  }

  ghost function After(perms: Permissions, s: State, steps: seq<Step>): State
    decreases |steps|
  {
    if steps == [] then s else After(perms, Next(perms, s, steps[0]), steps[1..])
  }

  lemma {:induction false} RunConcat(perms: Permissions, s: State, a: seq<Step>, b: seq<Step>)
    ensures After(perms, s, a + b) == After(perms, After(perms, s, a), b)
    ensures Possible(perms, s, a + b) <==> Possible(perms, s, a) && Possible(perms, After(perms, s, a), b)
    decreases |a|
  {
    if a == [] {
      assert a + b == b;
    } else {
      assert (a + b)[0] == a[0] && (a + b)[1..] == a[1..] + b;
      RunConcat(perms, Next(perms, s, a[0]), a[1..], b);
    }
  }
}
