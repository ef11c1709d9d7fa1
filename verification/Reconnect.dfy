/**
 * Losing and regaining one connection. The polling side emits one notice for each loss it handles; any
 * number of calls, messages and subscriptions on clones of the client wait for notices and try again.
 */
module Reconnect {
  import opened EventQueue

  datatype Notice = Back | Lost  // Ok(()) and Err(PeerDisconnected)

  /** How far one call, message or subscription has come. */
  datatype Attempt = Trying | Waiting | Sent | Failed

  type CallId = nat

  datatype Link = Link(
    polled: bool,               // the handle is still polled
    outgoing: bool,
    emitted: seq<Notice>,
    taken: nat,                 // how many of them some waiter took
    calls: map<CallId, Attempt>,
    retries: nat)

  /** What comes of asking the hub for the peer, or of waiting for a hub that is down. */
  datatype HubReply = Connected | Refused | HubRegained | HubLost

  datatype Step =
    | MakeOutgoing
    | Lose(replies: seq<HubReply>)  // the peer is gone; the hub is asked until it says something final
    | Begin(call: CallId)
    | Write(call: CallId, ok: bool)
    | Wake(call: CallId)

  function Init(outgoing: bool): Link {
    Link(true, outgoing, [], 0, map[], 0)
  }

  ghost predicate Enabled(s: Link, step: Step) {
    match step
    case MakeOutgoing => true
    case Lose(replies) => s.polled && (s.outgoing ==> Conclusive(replies))
    case Begin(c) => c !in s.calls
    case Write(c, _) => c in s.calls && s.calls[c].Trying?
    case Wake(c) => c in s.calls && s.calls[c].Waiting? && s.taken < |s.emitted|
  }

  /** The hub comes back any number of times, and then there is one reply that is final. */
  ghost predicate Conclusive(replies: seq<HubReply>) {
    && replies != []
    && !replies[|replies| - 1].HubRegained?
    && forall i :: 0 <= i < |replies| - 1 ==> replies[i].HubRegained?
  }

  /** An outgoing connection comes back iff the hub hands out a descriptor in the end. */
  function NoticeOf(outgoing: bool, replies: seq<HubReply>): Notice {
    if outgoing && Connected in replies then Back else Lost
  }

  function Next(s: Link, step: Step): Link {
    match step
    case MakeOutgoing => s.(outgoing := true)
    case Lose(replies) =>
      var notice := NoticeOf(s.outgoing, replies);
      s.(emitted := s.emitted + [notice], polled := notice.Back?)
    case Begin(c) => s.(calls := s.calls[c := Trying])
    case Write(c, ok) => s.(calls := s.calls[c := if ok then Sent else Waiting])
    case Wake(c) =>
      if s.taken < |s.emitted| then
        if s.emitted[s.taken].Back? then
          s.(taken := s.taken + 1, calls := s.calls[c := Trying], retries := s.retries + 1)
        else
          s.(taken := s.taken + 1, calls := s.calls[c := Failed])
      else s
  }

  function After(outgoing: bool, steps: seq<Step>): Link {
    if steps == [] then Init(outgoing)
    else Next(After(outgoing, steps[..|steps| - 1]), steps[|steps| - 1])
  }

  ghost predicate Possible(outgoing: bool, steps: seq<Step>) {
    steps == []
    || (Possible(outgoing, steps[..|steps| - 1])
        && Enabled(After(outgoing, steps[..|steps| - 1]), steps[|steps| - 1]))
  }

  /** `Back` as often as it takes, and `Lost` only as the last notice, when polling stops. */
  ghost predicate GoodHistory(emitted: seq<Notice>, polled: bool) {
    && (forall i :: 0 <= i < |emitted| - 1 ==> emitted[i].Back?)
    && (emitted != [] ==> (emitted[|emitted| - 1].Back? <==> polled))
    && (emitted == [] ==> polled)
  }

  function Backs(emitted: seq<Notice>): nat {
    if emitted == [] then 0
    else Backs(emitted[..|emitted| - 1]) + if emitted[|emitted| - 1].Back? then 1 else 0
  }

  /** The successful reconnections and the handled losses of a run, counted from its steps. */
  function Losses(steps: seq<Step>): nat {
    if steps == [] then 0
    else Losses(steps[..|steps| - 1]) + if steps[|steps| - 1].Lose? then 1 else 0
  }

  ghost predicate LinkInv(s: Link) {
    && GoodHistory(s.emitted, s.polled)
    && s.taken <= |s.emitted|
    && s.retries == Backs(s.emitted[..s.taken])
    && (forall c :: c in s.calls && s.calls[c].Failed? ==> !s.polled && s.taken == |s.emitted|)
    && (forall c, d :: c in s.calls && d in s.calls && s.calls[c].Failed? && s.calls[d].Failed? ==> c == d)
    && (!s.polled && s.taken == |s.emitted| ==> exists c :: c in s.calls && s.calls[c].Failed?)
  }

  lemma BacksSnoc(emitted: seq<Notice>, n: Notice)
    ensures Backs(emitted + [n]) == Backs(emitted) + if n.Back? then 1 else 0
  {
    assert (emitted + [n])[..|emitted|] == emitted;
  }

  lemma {:induction false} BacksMonotone(a: seq<Notice>, k: nat)
    requires k <= |a|
    ensures Backs(a[..k]) <= Backs(a)
    decreases |a|
  {
    if k < |a| {
      BacksMonotone(a[..|a| - 1], k);
      assert a[..|a| - 1][..k] == a[..k];
    } else {
      assert a[..k] == a;
    }
  }

  lemma StepKeepsLink(s: Link, step: Step)
    requires LinkInv(s) && Enabled(s, step)
    ensures LinkInv(Next(s, step))
  {
    if step.Lose? {
      assert (s.emitted + [NoticeOf(s.outgoing, step.replies)])[..s.taken] == s.emitted[..s.taken];
    } else if step.Wake? {
      WakeKeepsLink(s, step.call);
    } else if !s.polled && s.taken == |s.emitted| {
      var c :| c in s.calls && s.calls[c].Failed?;
      assert Next(s, step).calls[c].Failed?;
    }
  }

  lemma WakeKeepsLink(s: Link, c: CallId)
    requires LinkInv(s) && Enabled(s, Wake(c))
    ensures LinkInv(Next(s, Wake(c)))
  {
    var s' := Next(s, Wake(c));
    BacksSnoc(s.emitted[..s.taken], s.emitted[s.taken]);
    assert s.emitted[..s.taken + 1] == s.emitted[..s.taken] + [s.emitted[s.taken]];
    assert s.emitted[s.taken].Lost? ==> s.taken == |s.emitted| - 1;
    assert c in s'.calls && (s.emitted[s.taken].Lost? ==> s'.calls[c].Failed?);
  }

  lemma {:induction false} RunKeepsLink(outgoing: bool, steps: seq<Step>)
    requires Possible(outgoing, steps)
    ensures LinkInv(After(outgoing, steps)) && |After(outgoing, steps).emitted| == Losses(steps)
  {
    if steps != [] {
      RunKeepsLink(outgoing, steps[..|steps| - 1]);
      StepKeepsLink(After(outgoing, steps[..|steps| - 1]), steps[|steps| - 1]);
    }
  }

  /**
   * One notice for each loss, whatever the calls do: first the reconnections, then at most one `Lost`,
   * with which polling ends.
   */
  lemma {:induction false} OneNoticePerLoss(outgoing: bool, steps: seq<Step>)
    requires Possible(outgoing, steps)
    ensures var s := After(outgoing, steps);
      && |s.emitted| == Losses(steps)
      && GoodHistory(s.emitted, s.polled)
  {
    RunKeepsLink(outgoing, steps);
  }

  // ---------------------------------------------------------------------------------------
  // What the steps of a run say about its calls
  // ---------------------------------------------------------------------------------------

  function Writes(steps: seq<Step>): nat {
    if steps == [] then 0
    else Writes(steps[..|steps| - 1]) + if steps[|steps| - 1].Write? then 1 else 0
  }

  function Wakes(steps: seq<Step>): nat {
    if steps == [] then 0
    else Wakes(steps[..|steps| - 1]) + if steps[|steps| - 1].Wake? then 1 else 0
  }

  /** How many calls begin. */
  function Begins(steps: seq<Step>): nat {
    if steps == [] then 0
    else Begins(steps[..|steps| - 1]) + if steps[|steps| - 1].Begin? then 1 else 0
  }

  lemma InSnoc(steps: seq<Step>, x: Step)
    requires steps != []
    ensures x in steps <==> x in steps[..|steps| - 1] || x == steps[|steps| - 1]
  {
    assert steps == steps[..|steps| - 1] + [steps[|steps| - 1]];
  }

  /** A call is through if and only if one of its writes reached the peer. */
  lemma {:induction false} SentIffWritten(outgoing: bool, steps: seq<Step>, c: CallId)
    requires Possible(outgoing, steps)
    ensures c in After(outgoing, steps).calls <==> Begin(c) in steps
    ensures c in After(outgoing, steps).calls && After(outgoing, steps).calls[c].Sent? <==> Write(c, true) in steps
  {
    if steps != [] {
      SentIffWritten(outgoing, steps[..|steps| - 1], c);
      InSnoc(steps, Begin(c));
      InSnoc(steps, Write(c, true));
    }
  }

  /** A connection is outgoing if and only if it was from the beginning or was made so. */
  lemma {:induction false} OutgoingIffAsked(outgoing: bool, steps: seq<Step>)
    ensures After(outgoing, steps).outgoing <==> outgoing || MakeOutgoing in steps
  {
    if steps != [] {
      OutgoingIffAsked(outgoing, steps[..|steps| - 1]);
      InSnoc(steps, MakeOutgoing);
    }
  }

  /**
   * A call that is woken takes the oldest notice that nobody took. If the connection came back it may write
   * again, whatever comes of it; if it was lost for good it never will.
   */
  lemma WokenCall(outgoing: bool, steps: seq<Step>, c: CallId, ok: bool)
    requires Possible(outgoing, steps) && Enabled(After(outgoing, steps), Wake(c))
    ensures var s, s' := After(outgoing, steps), After(outgoing, steps + [Wake(c)]);
      && Possible(outgoing, steps + [Wake(c)])
      && s'.taken == s.taken + 1 && s'.emitted == s.emitted
      && (Enabled(s', Write(c, ok)) <==> s.emitted[s.taken] == Back)
      && (s'.calls[c].Failed? <==> s.emitted[s.taken] == Lost)
      && s'.retries == s.retries + if s.emitted[s.taken] == Back then 1 else 0
  {
    assert (steps + [Wake(c)])[..|steps|] == steps;
  }

  /** The calls that are about to write. */
  function AboutToWrite(s: Link): set<CallId> {
    set c | c in s.calls && s.calls[c].Trying?
  }

  lemma AboutToWriteStep(s: Link, step: Step)
    requires Enabled(s, step)
    ensures var old', new' := AboutToWrite(s), AboutToWrite(Next(s, step));
      match step
      case Begin(c) => c !in old' && new' == old' + {c}
      case Write(c, _) => c in old' && new' == old' - {c}
      case Wake(c) => c !in old' && new' == if s.emitted[s.taken].Back? then old' + {c} else old'
      case _ => new' == old'
  {
  }

  /**
   * Every write is the first of its call or a retry after a reconnection, and every waking takes one
   * notice.
   */
  lemma {:induction false} WritesAreAccounted(outgoing: bool, steps: seq<Step>)
    requires Possible(outgoing, steps)
    ensures var s := After(outgoing, steps);
      && Writes(steps) + |AboutToWrite(s)| == Begins(steps) + s.retries
      && s.taken == Wakes(steps)
  {
    if steps != [] {
      var front, last := steps[..|steps| - 1], steps[|steps| - 1];
      WritesAreAccounted(outgoing, front);
      AboutToWriteStep(After(outgoing, front), last);
    }
  }

  /** All clones together write no more often than calls begin and the connection comes back. */
  lemma WritesAreBounded(outgoing: bool, steps: seq<Step>)
    requires Possible(outgoing, steps)
    ensures Writes(steps) <= Begins(steps) + Backs(After(outgoing, steps).emitted)
  {
    WritesAreAccounted(outgoing, steps);
    RetriesAreBounded(outgoing, steps);
  }

  /** A connection taken in, and never asked for, is not regained: its first loss is its end. */
  lemma {:induction false} IncomingIsNotRegained(steps: seq<Step>)
    requires Possible(false, steps) && forall i :: 0 <= i < |steps| ==> !steps[i].MakeOutgoing?
    ensures var s := After(false, steps);
      && !s.outgoing && s.retries == 0
      && s.emitted == if s.polled then [] else [Lost]
  {
    if steps != [] {
      IncomingIsNotRegained(steps[..|steps| - 1]);
      RunKeepsLink(false, steps);
      RunKeepsLink(false, steps[..|steps| - 1]);
    }
  }

  /** The hub refuses the connection, or is itself lost for good, at some loss from step `k` on. */
  ghost predicate HubFails(steps: seq<Step>, k: nat) {
    exists i :: k <= i < |steps| && steps[i].Lose? && (Refused in steps[i].replies || HubLost in steps[i].replies)
  }

  /** Once outgoing, a connection is given up if and only if the hub refuses it or is lost itself. */
  lemma {:induction false} OutgoingIsGivenUpIff(outgoing: bool, steps: seq<Step>, k: nat)
    requires Possible(outgoing, steps) && k <= |steps|
    requires After(outgoing, steps[..k]).outgoing && After(outgoing, steps[..k]).polled
    ensures After(outgoing, steps).outgoing
    ensures !After(outgoing, steps).polled <==> HubFails(steps, k)
    decreases |steps|
  {
    if k == |steps| {
      assert steps[..k] == steps;
    } else {
      var front, last := steps[..|steps| - 1], steps[|steps| - 1];
      assert front[..k] == steps[..k];
      OutgoingIsGivenUpIff(outgoing, front, k);
      assert HubFails(steps, k) <==>
        (HubFails(front, k) || (last.Lose? && (Refused in last.replies || HubLost in last.replies))) by {
        assert forall i :: k <= i < |front| ==> steps[i] == front[i];
      }
      if last.Lose? {
        FinalReply(last.replies);
      }
    }
  }

  lemma FinalReply(replies: seq<HubReply>)
    requires Conclusive(replies)
    ensures Connected in replies <==> !(Refused in replies || HubLost in replies)
  {
    assert replies[|replies| - 1] in replies;
  }

  /** All clones together never try again more often than the connection came back. */
  lemma RetriesAreBounded(outgoing: bool, steps: seq<Step>)
    requires Possible(outgoing, steps)
    ensures var s := After(outgoing, steps);
      s.retries <= Backs(s.emitted)
  {
    RunKeepsLink(outgoing, steps);
    BacksMonotone(After(outgoing, steps).emitted, After(outgoing, steps).taken);
  }

  /**
   * The final loss is told to one waiter at most. Once it is told, every reconnection has been used up
   * for a retry, and whoever still waits waits for good.
   */
  lemma OnlyOneIsToldOfTheEnd(outgoing: bool, steps: seq<Step>, c: CallId, d: CallId)
    requires Possible(outgoing, steps)
    requires c in After(outgoing, steps).calls && After(outgoing, steps).calls[c].Failed?
    ensures var s := After(outgoing, steps);
      && (d != c && d in s.calls ==> !s.calls[d].Failed? && !Enabled(s, Wake(d)))
      && s.retries == Backs(s.emitted)
  {
    RunKeepsLink(outgoing, steps);
    var s := After(outgoing, steps);
    assert s.emitted[..s.taken] == s.emitted;
  }

  /** The calls that are not through. */
  function Open(s: Link): set<CallId> {
    set c | c in s.calls && !s.calls[c].Sent?
  }

  /** Every call is through, or was told that the peer is gone. */
  ghost predicate AllKnow(s: Link) {
    forall c :: c in s.calls ==> s.calls[c].Sent? || s.calls[c].Failed?
  }

  /** Once the last notice of a lost connection is taken, every call knows iff one call alone is not through. */
  lemma AllKnowIffOneIsOpen(outgoing: bool, steps: seq<Step>)
    requires Possible(outgoing, steps)
    requires !After(outgoing, steps).polled && After(outgoing, steps).taken == |After(outgoing, steps).emitted|
    ensures AllKnow(After(outgoing, steps)) <==> |Open(After(outgoing, steps))| == 1
  {
    var s := After(outgoing, steps);
    RunKeepsLink(outgoing, steps);
    var c :| c in s.calls && s.calls[c].Failed?;
    if AllKnow(s) {
      assert Open(s) == {c};
    } else {
      var d :| d in s.calls && !s.calls[d].Sent? && !s.calls[d].Failed?;
      assert {c, d} <= Open(s);
      SubsetSize({c, d}, Open(s));
    }
  }

  lemma SubsetSize(a: set<CallId>, b: set<CallId>)
    requires a <= b
    ensures |a| <= |b|
  {
    assert |b| == |a| + |b - a|;
  }

  /** Nothing that is written reaches the peer any more. */
  ghost predicate NothingGoesThrough(later: seq<Step>) {
    forall i :: 0 <= i < |later| ==> !(later[i].Write? && later[i].ok)
  }

  /** No call is about to write, and none has a notice to wake up for. */
  ghost predicate AtRest(s: Link) {
    forall c :: c in s.calls ==> !s.calls[c].Trying? && !Enabled(s, Wake(c))
  }

  /** Without a successful write a call that is not through stays so, and a new one joins it. */
  lemma OpenStep(s: Link, step: Step)
    requires Enabled(s, step) && !(step.Write? && step.ok)
    ensures Open(Next(s, step)) == Open(s) + NewCalls(step) && Open(s) !! NewCalls(step)
  {
    forall c ensures c in Open(Next(s, step)) <==> c in Open(s) || c in NewCalls(step) {
      OneCall(s, step, c);
    }
  }

  lemma OneCall(s: Link, step: Step, c: CallId)
    requires Enabled(s, step) && !(step.Write? && step.ok)
    ensures var calls := Next(s, step).calls;
      c in calls && !calls[c].Sent? <==> (c in s.calls && !s.calls[c].Sent?) || c in NewCalls(step)
  {
  }

  function NewCalls(step: Step): set<CallId> {
    if step.Begin? then {step.call} else {}
  }

  lemma {:induction false} OpenGrows(outgoing: bool, steps: seq<Step>, later: seq<Step>)
    requires Possible(outgoing, steps + later) && !After(outgoing, steps).polled && NothingGoesThrough(later)
    ensures !After(outgoing, steps + later).polled
    ensures |Open(After(outgoing, steps + later))| == |Open(After(outgoing, steps))| + Begins(later)
    decreases |later|
  {
    if later == [] {
      assert steps + later == steps;
    } else {
      var front, last := steps + later[..|later| - 1], later[|later| - 1];
      assert (steps + later)[..|steps + later| - 1] == front;
      OpenGrows(outgoing, steps, later[..|later| - 1]);
      OpenStep(After(outgoing, front), last);
    }
  }

  /** When nothing more can happen to the calls of a lost connection, all know iff one at most is not through. */
  lemma AllKnowAtRest(outgoing: bool, steps: seq<Step>)
    requires Possible(outgoing, steps) && !After(outgoing, steps).polled && AtRest(After(outgoing, steps))
    ensures AllKnow(After(outgoing, steps)) <==> |Open(After(outgoing, steps))| <= 1
  {
    var s := After(outgoing, steps);
    RunKeepsLink(outgoing, steps);
    if c :| c in Open(s) {
      assert s.calls[c].Failed? || s.calls[c].Waiting?;
      assert !Enabled(s, Wake(c));
      AllKnowIffOneIsOpen(outgoing, steps);
    } else {
      assert Open(s) == {};
      assert forall d :: d in s.calls && !s.calls[d].Sent? ==> d in Open(s);
    }
  }

  /**
   * Every call learns of the end if and only if the calls that were not through when the connection was
   * given up, and those that begin afterwards, are one at most: with more, all but one wait for good.
   */
  lemma EndIsKnownToAllIff(outgoing: bool, steps: seq<Step>, later: seq<Step>)
    requires Possible(outgoing, steps + later) && !After(outgoing, steps).polled
    requires NothingGoesThrough(later) && AtRest(After(outgoing, steps + later))
    ensures AllKnow(After(outgoing, steps + later)) <==> |Open(After(outgoing, steps))| + Begins(later) <= 1
  {
    OpenGrows(outgoing, steps, later);
    AllKnowAtRest(outgoing, steps + later);
  }

  lemma Extend(outgoing: bool, steps: seq<Step>, s: Link, x: Step, t: Link)
    requires Possible(outgoing, steps) && After(outgoing, steps) == s && Enabled(s, x) && Next(s, x) == t
    ensures Possible(outgoing, steps + [x]) && After(outgoing, steps + [x]) == t
  {
    assert (steps + [x])[..|steps|] == steps;
  }

  /** A run with two calls that wait when the connection is lost: one is told, the other never will be. */
  lemma TwoWaitOneIsTold() returns (steps: seq<Step>)
    ensures Possible(false, steps)
    ensures After(false, steps) == Link(false, false, [Lost], 1, map[0 := Failed, 1 := Waiting], 0)
    ensures !AllKnow(After(false, steps))
  {
    var s: seq<Link> := [
      Init(false),
      Link(true, false, [], 0, map[0 := Trying], 0),
      Link(true, false, [], 0, map[0 := Trying, 1 := Trying], 0),
      Link(true, false, [], 0, map[0 := Waiting, 1 := Trying], 0),
      Link(true, false, [], 0, map[0 := Waiting, 1 := Waiting], 0),
      Link(false, false, [Lost], 0, map[0 := Waiting, 1 := Waiting], 0),
      Link(false, false, [Lost], 1, map[0 := Failed, 1 := Waiting], 0)];
    var x := [Begin(0), Begin(1), Write(0, false), Write(1, false), Lose([]), Wake(0)];
    steps := [];
    for i := 0 to 6
      invariant Possible(false, steps) && After(false, steps) == s[i]
    {
      assert Enabled(s[i], x[i]) && Next(s[i], x[i]) == s[i + 1];
      Extend(false, steps, s[i], x[i], s[i + 1]);
      steps := steps + [x[i]];
    }
    assert s[6].calls[1].Waiting?;
  }

  lemma {:induction false} StaysTold(outgoing: bool, steps: seq<Step>, c: CallId, later: seq<Step>)
    requires Possible(outgoing, steps + later)
    requires c in After(outgoing, steps).calls && After(outgoing, steps).calls[c].Failed?
    ensures Possible(outgoing, steps)
    ensures c in After(outgoing, steps + later).calls && After(outgoing, steps + later).calls[c].Failed?
    ensures After(outgoing, steps + later).emitted == After(outgoing, steps).emitted
    decreases |later|
  {
    if later == [] {
      assert steps + later == steps;
    } else {
      var front := steps + later[..|later| - 1];
      assert (steps + later)[..|steps + later| - 1] == front;
      StaysTold(outgoing, steps, c, later[..|later| - 1]);
      RunKeepsLink(outgoing, front);
    }
  }

  /** A call that waits when somebody else was told of the end is never woken again. */
  lemma WaitersAreForgotten(outgoing: bool, steps: seq<Step>, c: CallId, d: CallId, later: seq<Step>)
    requires Possible(outgoing, steps + later) && d != c
    requires c in After(outgoing, steps).calls && After(outgoing, steps).calls[c].Failed?
    requires d in After(outgoing, steps).calls && After(outgoing, steps).calls[d].Waiting?
    ensures d in After(outgoing, steps + later).calls && After(outgoing, steps + later).calls[d].Waiting?
    decreases |later|
  {
    if later == [] {
      assert steps + later == steps;
    } else {
      var front := steps + later[..|later| - 1];
      assert (steps + later)[..|steps + later| - 1] == front;
      WaitersAreForgotten(outgoing, steps, c, d, later[..|later| - 1]);
      StaysTold(outgoing, steps, c, later[..|later| - 1]);
      OnlyOneIsToldOfTheEnd(outgoing, front, c, d);
    }
  }

  // ---------------------------------------------------------------------------------------
  // The calling side
  // ---------------------------------------------------------------------------------------

  /** What an event shows of a link. */
  ghost predicate Shows(event: Event<Notice>, s: Link)
    reads event
  {
    event.Valid() && event.emitted == s.emitted && |event.taken| == s.taken
  }

  /**
   * One turn of `call`, `message` or `subscribe`: write, or look whether a notice came. It is the step of
   * the call, whatever the rest of the link is; a call that finds no notice goes on waiting.
   */
  method Turn(ghost s: Link, c: CallId, a: Attempt, event: Event<Notice>, writeOk: bool) returns (r: Attempt)
    requires Shows(event, s) && c in s.calls && s.calls[c] == a && (a.Trying? || a.Waiting?)
    modifies event
    ensures var step := if a.Trying? then Write(c, writeOk) else Wake(c);
      if Enabled(s, step) then Shows(event, Next(s, step)) && Next(s, step).calls[c] == r
      else Shows(event, s) && r == a && s.taken == |s.emitted|
    ensures event.emitted == old(event.emitted)
    ensures a.Trying? ==> r == (if writeOk then Sent else Waiting) && event.taken == old(event.taken)
    ensures a.Waiting? && |old(event.taken)| == |event.emitted| ==> r == Waiting && event.taken == old(event.taken)
    ensures a.Waiting? && |old(event.taken)| < |event.emitted| ==>
      && event.taken == old(event.taken) + [event.emitted[|old(event.taken)|]]
      && r == if event.emitted[|old(event.taken)|] == Back then Trying else Failed
  {
    if a.Trying? {
      return if writeOk then Sent else Waiting;
    }
    var notice := event.Wait();
    match notice {
      case None =>
        return Waiting;
      case Some(Back) =>
        return Trying;
      case Some(Lost) =>
        return Failed;
    }
  }

  // ---------------------------------------------------------------------------------------
  // The polling side
  // ---------------------------------------------------------------------------------------

  /** The loop of `hub_connect`: it asks again whenever a hub that was down is back. */
  method HubConnect(replies: seq<HubReply>) returns (ok: bool)
    requires Conclusive(replies)
    ensures ok <==> Connected in replies
  {
    var i := 0;
    while replies[i].HubRegained?
      invariant i < |replies|
      invariant forall j :: 0 <= j < i ==> replies[j].HubRegained?
      decreases |replies| - i
    {
      i := i + 1;
    }
    assert i == |replies| - 1;
    FinalReply(replies);
    return replies[i].Connected?;
  }
}
