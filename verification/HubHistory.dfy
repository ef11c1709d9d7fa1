/**
 * What the log alone says: who owns a name, who waits for it, and when an entry is justified by
 * what came before it. Nothing here looks at the hub's own tables.
 */
module HubHistory {
  import opened Wrappers
  import opened ServicePermissions
  import opened HubProtocol

  function Last(log: seq<Event>): Event
    requires log != []
  {
    log[|log| - 1]
  }

  function OwnerAfter(owner: Option<TaskId>, e: Event, name: Name): Option<TaskId> {
    match e
    case Registered(q, n) => if n == name then Some(q.task) else owner
    case Reaped(_, n) => if n == name then None else owner
    case _ => owner
  }

  /** Whoever registered `name` last and was not reaped since. */
  function Owner(log: seq<Event>, name: Name): Option<TaskId> {
    if log == [] then None
    else OwnerAfter(Owner(log[..|log| - 1], name), Last(log), name)
  }

  predicate IsFor(q: Request, target: Name) {
    q.body.Connect? && q.body.target == target
  }

  function WaitingAfter(ws: seq<Waiter>, e: Event, target: Name): seq<Waiter> {
    match e
    case Queued(q, initiator) => if IsFor(q, target) then ws + [Waiter(initiator, q)] else ws
    case Resolving(q, _, _) => if IsFor(q, target) && ws != [] then ws[1..] else ws
    case _ => ws
  }

  /** The requests queued for `target` and not taken out again, oldest first. */
  function Waiting(log: seq<Event>, target: Name): seq<Waiter> {
    if log == [] then []
    else WaitingAfter(Waiting(log[..|log| - 1], target), Last(log), target)
  }

  ghost predicate HasRegistered(log: seq<Event>, task: TaskId) {
    exists e :: e in log && e.Registered? && e.q.task == task
  }

  /** `q` was just read; a wrong endpoint has been complained about already. */
  predicate JustRead(log: seq<Event>, q: Request) {
    log != [] && Last(log) == if q.endpointOk then Polled(q) else Answered(q, WrongEndpoint)
  }

  /** The last entry is a positive permission check for `q`, asked for by the service `initiator`. */
  predicate JustAllowed(log: seq<Event>, q: Request, initiator: Name) {
    log != [] && Last(log).Checked? && Last(log).q == q && Last(log).initiator == initiator && Last(log).allowed
  }

  predicate JustResolved(log: seq<Event>, q: Request, initiator: Name) {
    log != [] && Last(log).Resolving? && Last(log).q == q && Last(log).initiator == initiator
  }

  predicate JustOffered(log: seq<Event>, q: Request) {
    log != [] && Last(log).Offered? && Last(log).q == q
  }

  /** When an answer may be given. */
  ghost predicate AnswerJustified(perms: Permissions, log: seq<Event>, q: Request, a: Answer) {
    match a
    case WrongEndpoint => !q.endpointOk && log != [] && Last(log) == Polled(q)
    case RegisteredOk =>
      && q.body.Register? && Owner(log, q.body.name) == Some(q.task)
      && Registered(q, q.body.name) in log
      && Answered(q, RegisteredOk) !in log
    case BadBody =>
      && JustRead(log, q)
      && if HasRegistered(log, q.task) then q.body.Register? || q.body.Undecodable? else !q.body.Register?
    case AlreadyRegistered =>
      && JustRead(log, q) && q.body.Register? && !HasRegistered(log, q.task)
      && Owner(log, q.body.name).Some?
    case NotAllowed =>
      || (log != [] && Last(log).NameChecked? && Last(log).q == q && !Last(log).allowed)
      || (log != [] && Last(log).Checked? && Last(log).q == q && !Last(log).allowed)
    case ServiceNotFound =>
      && log != [] && Last(log).Checked? && JustAllowed(log, q, Last(log).initiator)
      && q.body.Connect? && Owner(log, q.body.target).None?
      && !(q.body.wait && perms.HasFile(Last(log).disk.atLook, q.body.target))
    case PeerDisconnected => JustOffered(log, q) && !Last(log).accepted
    case Descriptor(p) => JustOffered(log, q) && Last(log).accepted && Last(log).pair == p
    case PairFailed =>
      && q.body.Connect? && Owner(log, q.body.target).Some?
      && log != []
      && ((Last(log).Checked? && JustAllowed(log, q, Last(log).initiator))
          || (Last(log).Resolving? && Last(log).q == q))
  }

  /** When an entry may follow the log. */
  ghost predicate Justified(perms: Permissions, log: seq<Event>, e: Event) {
    match e
    case Polled(q) => !IdUsed(log, q.id)
    case NameChecked(q, files, exec, allowed) =>
      && JustRead(log, q) && q.body.Register?
      && Owner(log, q.body.name).None? && !HasRegistered(log, q.task)
      && (allowed <==> perms.NameAllowed(files, exec, q.body.name))
    case Registered(q, name) =>
      && log != [] && Last(log).NameChecked? && Last(log).q == q && Last(log).allowed && q.body == Register(name)
      && Owner(log, name).None? && !HasRegistered(log, q.task)
    case Checked(q, initiator, disk, allowed) =>
      && JustRead(log, q) && q.body.Connect?
      && Owner(log, initiator) == Some(q.task)
      && (allowed <==> perms.Permitted(disk.atCheck, initiator, q.body.target))
    case Queued(q, initiator) =>
      && JustAllowed(log, q, initiator)
      && q.body.Connect? && q.body.wait
      && Owner(log, q.body.target).None?
      && perms.HasFile(Last(log).disk.atLook, q.body.target)
    case Resolving(q, initiator, writer) =>
      && q.body.Connect?
      && Owner(log, q.body.target) == Some(writer)
      && Waiting(log, q.body.target) != []
      && Waiting(log, q.body.target)[0] == Waiter(initiator, q)
    case Offered(q, initiator, writer, pair, accepted) =>
      && q.body.Connect?
      && Owner(log, q.body.target) == Some(writer)
      && !PairUsed(log, pair)
      && (JustAllowed(log, q, initiator) || JustResolved(log, q, initiator))
    case Answered(q, a) => AnswerJustified(perms, log, q, a)
    case Reaped(task, name) => Owner(log, name) == Some(task)
  }

  /** Every entry is justified by the entries before it. */
  ghost predicate Legal(perms: Permissions, log: seq<Event>) {
    log == [] || (Legal(perms, log[..|log| - 1]) && Justified(perms, log[..|log| - 1], Last(log)))
  }

  // ---------------------------------------------------------------------------------------
  // One more entry
  // ---------------------------------------------------------------------------------------

  lemma Snoc(log: seq<Event>, e: Event)
    ensures forall n :: Owner(log + [e], n) == OwnerAfter(Owner(log, n), e, n)
    ensures forall t :: Waiting(log + [e], t) == WaitingAfter(Waiting(log, t), e, t)
    ensures Last(log + [e]) == e
    ensures forall task :: HasRegistered(log + [e], task) <==>
      HasRegistered(log, task) || (e.Registered? && e.q.task == task)
    ensures forall id :: IdUsed(log + [e], id) <==> IdUsed(log, id) || (e.Polled? && e.q.id == id)
    ensures forall p :: PairUsed(log + [e], p) <==> PairUsed(log, p) || (e.Offered? && e.pair == p)
  {
    assert (log + [e])[..|log|] == log;
    assert forall x :: x in log + [e] <==> x in log || x == e;
    assert e in log + [e];
  }

  lemma LegalSnoc(perms: Permissions, log: seq<Event>, e: Event)
    requires Legal(perms, log) && Justified(perms, log, e)
    ensures Legal(perms, log + [e])
  {
    assert (log + [e])[..|log|] == log;
  }

  lemma {:induction false} LegalPrefix(perms: Permissions, log: seq<Event>, k: nat)
    requires Legal(perms, log) && k <= |log|
    ensures Legal(perms, log[..k])
    decreases |log|
  {
    if k < |log| {
      var front := log[..|log| - 1];
      LegalPrefix(perms, front, k);
      assert front[..k] == log[..k];
    } else {
      assert log[..k] == log;
    }
  }

  lemma LegalAt(perms: Permissions, log: seq<Event>, i: nat)
    requires Legal(perms, log) && i < |log|
    ensures Legal(perms, log[..i]) && Justified(perms, log[..i], log[i])
  {
    LegalPrefix(perms, log, i);
    LegalPrefix(perms, log, i + 1);
    assert log[..i + 1][..i] == log[..i];
    assert Last(log[..i + 1]) == log[i];
  }

  /** Entries that touch neither the owners nor the queues nor the registrations. */
  predicate Quiet(e: Event) {
    !e.Registered? && !e.Reaped? && !e.Queued? && !e.Resolving?
  }

  lemma {:induction false} QuietKeeps(log: seq<Event>, es: seq<Event>)
    requires forall i :: 0 <= i < |es| ==> Quiet(es[i])
    ensures forall n :: Owner(log + es, n) == Owner(log, n)
    ensures forall t :: Waiting(log + es, t) == Waiting(log, t)
    ensures forall task :: HasRegistered(log + es, task) <==> HasRegistered(log, task)
    decreases |es|
  {
    if es == [] {
      assert log + es == log;
    } else {
      var k := |es| - 1;
      QuietKeeps(log, es[..k]);
      Snoc(log + es[..k], es[k]);
      assert log + es == log + es[..k] + [es[k]];
    }
  }

  // ---------------------------------------------------------------------------------------
  // Consequences of being legal
  // ---------------------------------------------------------------------------------------

  /** Whoever waits was queued, for that target, by an entry of the log. */
  lemma {:induction false} WaiterWasQueued(log: seq<Event>, target: Name, k: nat) returns (i: nat)
    requires k < |Waiting(log, target)|
    ensures i < |log| && log[i] == Queued(Waiting(log, target)[k].q, Waiting(log, target)[k].initiator)
    ensures IsFor(Waiting(log, target)[k].q, target)
    decreases |log|
  {
    var front, last := log[..|log| - 1], Last(log);
    var ws := Waiting(front, target);
    assert Waiting(log, target) == WaitingAfter(ws, last, target);
    if last.Queued? && IsFor(last.q, target) && k == |ws| {
      i := |log| - 1;
    } else {
      var k' := if last.Resolving? && IsFor(last.q, target) then k + 1 else k;
      assert Waiting(log, target)[k] == ws[k'];
      i := WaiterWasQueued(front, target, k');
    }
  }

  /**
   * Every connection offered to a target was allowed for that very request, however long it waited,
   * and was asked for by a task that owned the initiator's name when it asked. The target's writer
   * belongs to whoever owns the target's name when the offer is made.
   */
  lemma OfferWasAuthorised(perms: Permissions, log: seq<Event>, i: nat) returns (k: nat)
    requires Legal(perms, log) && i < |log| && log[i].Offered?
    ensures k < i && log[k].Checked? && log[k].q == log[i].q && log[k].initiator == log[i].initiator
    ensures log[i].q.body.Connect?
    ensures perms.Permitted(log[k].disk.atCheck, log[i].initiator, log[i].q.body.target)
    ensures Owner(log[..k], log[i].initiator) == Some(log[i].q.task)
    ensures Owner(log[..i], log[i].q.body.target) == Some(log[i].writer)
  {
    var q, initiator := log[i].q, log[i].initiator;
    LegalAt(perms, log, i);
    if JustAllowed(log[..i], q, initiator) {
      k := i - 1;
      LegalAt(perms, log, k);
    } else {
      assert log[i - 1] == Last(log[..i]);
      LegalAt(perms, log, i - 1);
      LegalPrefix(perms, log, i - 1);
      var j := WaiterWasQueued(log[..i - 1], q.body.target, 0);
      assert log[j] == Queued(q, initiator);
      LegalAt(perms, log, j);
      assert Last(log[..j]) == log[j - 1];
      k := j - 1;
      LegalAt(perms, log, k);
    }
  }

  /**
   * A descriptor is only handed to an initiator right after the other end of the same pair was
   * accepted by the writer of the target it asked for.
   */
  lemma DescriptorFollowsOffer(perms: Permissions, log: seq<Event>, i: nat, pair: PairId)
    requires Legal(perms, log) && i < |log| && log[i].Answered? && log[i].answer == Descriptor(pair)
    ensures i > 0 && log[i - 1].Offered? && log[i - 1].q == log[i].q
    ensures log[i - 1].pair == pair && log[i - 1].accepted
    ensures log[i].q.body.Connect? && Owner(log[..i], log[i].q.body.target) == Some(log[i - 1].writer)
  {
    LegalAt(perms, log, i);
    assert Last(log[..i]) == log[i - 1];
    LegalAt(perms, log, i - 1);
    assert log[..i] == log[..i - 1] + [log[i - 1]];
    Snoc(log[..i - 1], log[i - 1]);
  }

  /** One pair joins one initiator to one target: it is offered once, so handed out at most once. */
  lemma PairServesOneRequest(perms: Permissions, log: seq<Event>, i: nat, j: nat, pair: PairId)
    requires Legal(perms, log) && i < |log| && j < |log|
    requires log[i].Answered? && log[i].answer == Descriptor(pair)
    requires log[j].Answered? && log[j].answer == Descriptor(pair)
    ensures i == j
  {
    DescriptorFollowsOffer(perms, log, i, pair);
    DescriptorFollowsOffer(perms, log, j, pair);
    OfferedOnce(perms, log);
  }

  lemma OfferedOnce(perms: Permissions, log: seq<Event>)
    requires Legal(perms, log)
    ensures forall i, j :: 0 <= i < j < |log| && log[i].Offered? && log[j].Offered? ==> log[i].pair != log[j].pair
  {
    forall i, j | 0 <= i < j < |log| && log[i].Offered? && log[j].Offered?
      ensures log[i].pair != log[j].pair
    {
      LegalAt(perms, log, j);
      assert log[..j][i] == log[i];
      assert log[i] in log[..j];
    }
  }

  // ---------------------------------------------------------------------------------------
  // First come, first served
  // ---------------------------------------------------------------------------------------

  function QueuedBy(e: Event, target: Name): seq<Waiter> {
    if e.Queued? && IsFor(e.q, target) then [Waiter(e.initiator, e.q)] else []
  }

  function ServedBy(e: Event, target: Name): seq<Waiter> {
    if e.Resolving? && IsFor(e.q, target) then [Waiter(e.initiator, e.q)] else []
  }

  /** Everyone queued for `target`, in order. */
  function QueueOrder(log: seq<Event>, target: Name): seq<Waiter> {
    if log == [] then [] else QueueOrder(log[..|log| - 1], target) + QueuedBy(Last(log), target)
  }

  /** Everyone taken out of the queue for `target`, in order. */
  function ServeOrder(log: seq<Event>, target: Name): seq<Waiter> {
    if log == [] then [] else ServeOrder(log[..|log| - 1], target) + ServedBy(Last(log), target)
  }

  /** Waiters of one target are taken out in the order they came, and none is lost in between. */
  lemma {:induction false} FirstComeFirstServed(perms: Permissions, log: seq<Event>, target: Name)
    requires Legal(perms, log)
    ensures QueueOrder(log, target) == ServeOrder(log, target) + Waiting(log, target)
    decreases |log|
  {
    if log != [] {
      var front, e := log[..|log| - 1], Last(log);
      LegalPrefix(perms, log, |log| - 1);
      FirstComeFirstServed(perms, front, target);
      QueueMoves(perms, log, target);
      Regroup(ServeOrder(front, target), Waiting(front, target), QueuedBy(e, target),
              ServedBy(e, target), Waiting(log, target));
    }
  }

  lemma Regroup<T>(a: seq<T>, b: seq<T>, d: seq<T>, c: seq<T>, w: seq<T>)
    requires b + d == c + w
    ensures (a + b) + d == (a + c) + w
  {
    assert (a + b) + d == a + (b + d);
    assert (a + c) + w == a + (c + w);
  }

  /** One entry moves a waiter into the queue at its end, or out of it at its front, or leaves it alone. */
  lemma QueueMoves(perms: Permissions, log: seq<Event>, target: Name)
    requires Legal(perms, log) && log != []
    ensures Waiting(log[..|log| - 1], target) + QueuedBy(Last(log), target)
         == ServedBy(Last(log), target) + Waiting(log, target)
  {
    var front, e := log[..|log| - 1], Last(log);
    assert Justified(perms, front, e);
    assert Waiting(log, target) == WaitingAfter(Waiting(front, target), e, target);
  }

  // ---------------------------------------------------------------------------------------
  // Waiting for a service
  // ---------------------------------------------------------------------------------------

  /** A request is queued only for a permitted initiator, an offline target and a service file that exists. */
  lemma QueuedForAReason(perms: Permissions, log: seq<Event>, i: nat)
    requires Legal(perms, log) && i < |log| && log[i].Queued?
    ensures log[i].q.body.Connect? && log[i].q.body.wait && Owner(log[..i], log[i].q.body.target).None?
    ensures i > 0 && log[i - 1].Checked? && log[i - 1].q == log[i].q && log[i - 1].initiator == log[i].initiator
    ensures perms.Permitted(log[i - 1].disk.atCheck, log[i].initiator, log[i].q.body.target)
    ensures perms.HasFile(log[i - 1].disk.atLook, log[i].q.body.target)
  {
    LegalAt(perms, log, i);
    assert Last(log[..i]) == log[i - 1];
    LegalAt(perms, log, i - 1);
  }

  /**
   * Who registered asked for that very name, had registered none before, and runs an executable that the
   * service file of the name lists; nobody owned the name then.
   */
  lemma RegisteredForAReason(perms: Permissions, log: seq<Event>, i: nat)
    requires Legal(perms, log) && i < |log| && log[i].Registered?
    ensures i > 0 && log[i - 1].NameChecked? && log[i - 1].q == log[i].q
    ensures perms.NameAllowed(log[i - 1].files, log[i - 1].exec, log[i].name)
    ensures log[i].q.body == Register(log[i].name)
    ensures Owner(log[..i], log[i].name).None? && !HasRegistered(log[..i], log[i].q.task)
  {
    LegalAt(perms, log, i);
    assert Last(log[..i]) == log[i - 1];
    LegalAt(perms, log, i - 1);
  }

  /** An owner keeps its name until it is reaped. */
  lemma {:induction false} OwnerUntilReaped(perms: Permissions, log: seq<Event>, a: nat, b: nat, name: Name)
    requires Legal(perms, log) && a <= b <= |log|
    requires Owner(log[..a], name).Some? && Owner(log[..b], name) != Owner(log[..a], name)
    ensures exists k :: a <= k < b && log[k] == Reaped(Owner(log[..a], name).value, name)
    decreases b - a
  {
    LegalAt(perms, log, b - 1);
    assert log[..b][..b - 1] == log[..b - 1] && Last(log[..b]) == log[b - 1];
    if Owner(log[..b - 1], name) != Owner(log[..a], name) {
      OwnerUntilReaped(perms, log, a, b - 1, name);
    } else {
      assert log[b - 1] == Reaped(Owner(log[..a], name).value, name);
    }
  }

  /** Between two registrations of one name, the first owner was reaped. */
  lemma NameIsFreedBetween(perms: Permissions, log: seq<Event>, i: nat, j: nat)
    requires Legal(perms, log) && i < j < |log|
    requires log[i].Registered? && log[j].Registered? && log[i].name == log[j].name
    ensures exists k :: i < k < j && log[k] == Reaped(log[i].q.task, log[i].name)
  {
    assert log[..i + 1][..i] == log[..i] && Last(log[..i + 1]) == log[i];
    assert Owner(log[..i + 1], log[i].name) == Some(log[i].q.task);
    LegalAt(perms, log, j);
    OwnerUntilReaped(perms, log, i + 1, j, log[i].name);
  }

  /**
   * A request that offers to wait is refused as "not found" only if the target has no file when it is
   * looked for. If the files did not change since the check, the initiator is privileged: anyone else was
   * permitted by a service file, and that file is what waiting needs.
   */
  lemma WaitIsOnlyRefusedToPrivileged(perms: Permissions, log: seq<Event>, i: nat)
    requires Legal(perms, log) && i < |log|
    requires log[i].Answered? && log[i].answer == Answer.ServiceNotFound && log[i].q.body.Connect? && log[i].q.body.wait
    ensures i > 0 && log[i - 1].Checked? && !perms.HasFile(log[i - 1].disk.atLook, log[i].q.body.target)
    ensures log[i - 1].disk.atCheck == log[i - 1].disk.atLook ==> perms.IsPrivileged(log[i - 1].initiator)
  {
    LegalAt(perms, log, i);
    assert Last(log[..i]) == log[i - 1];
    LegalAt(perms, log, i - 1);
    if !perms.IsPrivileged(log[i - 1].initiator) {
      perms.PermittedHasFile(log[i - 1].disk.atCheck, log[i - 1].initiator, log[i].q.body.target);
    }
  }
}
