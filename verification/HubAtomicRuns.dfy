/**
 * All registrations of a run at once: every run that leaves no registration half done has a counterpart
 * in which nothing happens between the insertion of a name, the reply and the draining.
 */
module HubAtomicRuns {
  import opened ServicePermissions
  import opened HubProtocol
  import opened HubSafety
  import opened HubRegistration

  /** No registration is half done. */
  ghost predicate Settled(c: Core) {
    forall t :: !PhaseOf(c, t).Inserted? && !PhaseOf(c, t).Replied?
  }

  /** A reply and a draining come directly after a step of the same task. */
  ghost predicate Atomic(steps: seq<Step>) {
    forall i :: 0 <= i < |steps| && Completes(steps[i]) ==> i > 0 && StepTask(steps[i - 1]) == StepTask(steps[i])
  }

  /** The first step of `task`, which the run has to take if the phase of `task` is another one at its end. */
  lemma {:induction false} OwnStep(perms: Permissions, s: State, steps: seq<Step>, task: TaskId) returns (i: nat)
    requires CoreInv(s.core) && Possible(perms, s, steps) && HasName(PhaseOf(s.core, task))
    requires PhaseOf(After(perms, s, steps).core, task) != PhaseOf(s.core, task)
    ensures i < |steps| && StepTask(steps[i]) == task
    ensures forall j :: 0 <= j < i ==> StepTask(steps[j]) != task
    decreases |steps|
  {
    if StepTask(steps[0]) == task {
      i := 0;
    } else {
      var x, rest := steps[0], steps[1..];
      CoreStep(perms, s.core, x);
      OthersLeaveAlone(perms, s.core, x, task);
      var k := OwnStep(perms, Next(perms, s, x), rest, task);
      i := k + 1;
      assert forall j :: 0 < j < |steps| ==> steps[j] == rest[j - 1];
    }
  }

  lemma SplitAt(perms: Permissions, s: State, steps: seq<Step>, i: nat)
    requires Possible(perms, s, steps) && i < |steps|
    ensures Possible(perms, s, steps[..i]) && Enabled(perms, After(perms, s, steps[..i]), steps[i])
    ensures var s' := Next(perms, After(perms, s, steps[..i]), steps[i]);
      Possible(perms, s', steps[i + 1..]) && After(perms, s', steps[i + 1..]) == After(perms, s, steps)
  {
    assert steps == steps[..i] + ([steps[i]] + steps[i + 1..]);
    RunConcat(perms, s, steps[..i], [steps[i]] + steps[i + 1..]);
    RunConcat(perms, After(perms, s, steps[..i]), [steps[i]], steps[i + 1..]);
    OneStep(perms, After(perms, s, steps[..i]), steps[i]);
  }

  /** A half-done registration goes on with the reply, and then with the draining. */
  lemma NextCompletion(c: Core, x: Step)
    requires InPhase(c, x)
    ensures PhaseOf(c, StepTask(x)).Inserted? ==> x == Reply(StepTask(x))
    ensures PhaseOf(c, StepTask(x)).Replied? ==> x.Drain?
  {
  }

  /** The next step of a half-done registration in a run to a settled state. */
  lemma NextOwn(perms: Permissions, s: State, steps: seq<Step>, task: TaskId) returns (i: nat)
    requires Inv(perms, s) && (PhaseOf(s.core, task).Inserted? || PhaseOf(s.core, task).Replied?)
    requires Possible(perms, s, steps) && Settled(After(perms, s, steps).core)
    ensures i < |steps| && forall j :: 0 <= j < i ==> StepTask(steps[j]) != task
    ensures if PhaseOf(s.core, task).Inserted? then steps[i] == Reply(task)
            else steps[i].Drain? && steps[i].task == task
    ensures var s' := Next(perms, After(perms, s, steps[..i]), steps[i]);
      && Inv(perms, s') && Possible(perms, s', steps[i + 1..])
      && After(perms, s', steps[i + 1..]) == After(perms, s, steps)
      && (PhaseOf(s.core, task).Inserted? ==> PhaseOf(s'.core, task).Replied?)
  {
    i := OwnStep(perms, s, steps, task);
    SplitAt(perms, s, steps, i);
    RunKeepsInv(perms, s, steps[..i]);
    StillInserted(perms, s, steps[..i], task);
    NextCompletion(After(perms, s, steps[..i]).core, steps[i]);
    StepKeepsInv(perms, After(perms, s, steps[..i]), steps[i]);
  }

  /** A run from a half-done registration to a settled state completes that registration. */
  lemma FindGap(perms: Permissions, s: State, steps: seq<Step>, task: TaskId)
    returns (early: seq<Step>, late: seq<Step>, sends: seq<Send>, tail: seq<Step>)
    requires Inv(perms, s) && PhaseOf(s.core, task).Inserted?
    requires Possible(perms, s, steps) && Settled(After(perms, s, steps).core)
    ensures steps == WithGap(early, task, late, sends) + tail
    ensures Gap(perms, s, early, task, late, sends)
  {
    var i := NextOwn(perms, s, steps, task);
    var rest := steps[i + 1..];
    var j := NextOwn(perms, Next(perms, After(perms, s, steps[..i]), steps[i]), rest, task);
    early, late, sends, tail := steps[..i], rest[..j], rest[j].sends, rest[j + 1..];
    Cut(steps, i, j);
    assert rest[j] == Drain(task, sends);
    RunConcat(perms, s, WithGap(early, task, late, sends), tail);
  }

  lemma Cut(steps: seq<Step>, i: nat, j: nat)
    requires i < |steps| && j < |steps| - i - 1
    ensures var rest := steps[i + 1..]; steps == steps[..i] + [steps[i]] + rest[..j] + [rest[j]] + rest[j + 1..]
  {
  }

  /** After a step from a settled state, the only registration that can be half done is the one just begun. */
  lemma GapBegins(perms: Permissions, c: Core, x: Step)
    requires Settled(c) && InPhase(c, x) && !Settled(NextCore(perms, c, x))
    ensures PhaseOf(NextCore(perms, c, x), StepTask(x)).Inserted?
    ensures forall t :: t != StepTask(x) ==> PhaseOf(NextCore(perms, c, x), t) == PhaseOf(c, t)
  {
    OwnPhase(perms, c, x);
  }

  lemma SettledAgain(perms: Permissions, c: Core, task: TaskId, sends: seq<Send>)
    requires PhaseOf(c, task).Inserted? && forall t :: t != task ==> !PhaseOf(c, t).Inserted? && !PhaseOf(c, t).Replied?
    ensures Settled(NextCore(perms, NextCore(perms, c, Reply(task)), Drain(task, sends)))
  {
    var c' := NextCore(perms, c, Reply(task));
    OwnPhase(perms, c, Reply(task));
    OwnPhase(perms, c', Drain(task, sends));
    assert PhaseOf(NextCore(perms, c', Drain(task, sends)), task).Serving?;
  }

  lemma HistoriesConcat(a: seq<Event>, b: seq<Event>, es: seq<Event>)
    requires SameHistories(a, b)
    ensures SameHistories(a + es, b + es)
  {
    forall q ensures Only(a + es, About(q)) == Only(b + es, About(q)) {
      OnlyConcat(a, es, About(q));
      OnlyConcat(b, es, About(q));
    }
  }

  /** From tables that are equal and logs with the same entries, a run goes on in the same way. */
  lemma SameContinuation(perms: Permissions, a: State, b: State, tail: seq<Step>)
    requires a.core == b.core && SameHistories(a.log, b.log) && Possible(perms, a, tail)
    ensures Possible(perms, b, tail) && After(perms, a, tail).core == After(perms, b, tail).core
    ensures SameHistories(After(perms, a, tail).log, After(perms, b, tail).log)
  {
    forall e ensures e in a.log <==> e in b.log {
      assert e in a.log <==> multiset(a.log)[e] > 0;
      assert e in b.log <==> multiset(b.log)[e] > 0;
    }
    SameEntries(perms, a, b, tail);
    AfterIsWritten(perms, a, tail);
    AfterIsWritten(perms, b, tail);
    HistoriesConcat(a.log, b.log, Written(perms, a.core, tail));
  }

  /** Closing the first gap of a run. */
  lemma CloseGap(perms: Permissions, s: State, early: seq<Step>, task: TaskId, late: seq<Step>,
                 sends: seq<Send>, tail: seq<Step>)
    requires Gap(perms, s, early, task, late, sends) && Possible(perms, s, WithGap(early, task, late, sends) + tail)
    ensures Enabled(perms, s, Reply(task)) && Enabled(perms, Next(perms, s, Reply(task)), Drain(task, sends))
    ensures var t2 := Next(perms, Next(perms, s, Reply(task)), Drain(task, sends));
      var a, b := After(perms, s, WithGap(early, task, late, sends) + tail), After(perms, t2, early + late + tail);
      && Possible(perms, t2, early + late + tail)
      && a.core == b.core && SameHistories(a.log, b.log)
  {
    var r, d := Reply(task), Drain(task, sends);
    var t2 := Next(perms, Next(perms, s, r), d);
    var gap, atomic := After(perms, s, WithGap(early, task, late, sends)),
        After(perms, s, AtOnce(early, task, late, sends));
    GapEntries(perms, s, early, task, late, sends);
    forall q ensures Only(gap.log, About(q)) == Only(atomic.log, About(q)) {
      GapHistory(perms, s, early, task, late, sends, q);
    }
    RunConcat(perms, s, WithGap(early, task, late, sends), tail);
    SameContinuation(perms, gap, atomic, tail);
    RunConcat(perms, s, [r, d], early + late);
    TwoSteps(perms, s, r, d);
    RunConcat(perms, t2, early + late, tail);
  }

  lemma TwoSteps(perms: Permissions, s: State, r: Step, d: Step)
    ensures Possible(perms, s, [r, d]) <==> Enabled(perms, s, r) && Enabled(perms, Next(perms, s, r), d)
    ensures After(perms, s, [r, d]) == Next(perms, Next(perms, s, r), d)
  {
    assert [r, d][1..] == [d];
    OneStep(perms, Next(perms, s, r), d);
  }

  lemma AtomicCons(perms: Permissions, c: Core, x: Step, rest: seq<Step>)
    requires Settled(c) && InPhase(c, x) && Atomic(rest)
    ensures Atomic([x] + rest)
  {
    var all := [x] + rest;
    forall i | 0 <= i < |all| && Completes(all[i]) ensures i > 0 && StepTask(all[i - 1]) == StepTask(all[i]) {
      assert i > 0 && all[i] == rest[i - 1];
      assert all[i - 1] == rest[i - 2];
    }
  }

  lemma AtomicTriple(x: Step, task: TaskId, sends: seq<Send>, rest: seq<Step>)
    requires !Completes(x) && StepTask(x) == task && Atomic(rest)
    ensures Atomic([x, Reply(task), Drain(task, sends)] + rest)
  {
    var all := [x, Reply(task), Drain(task, sends)] + rest;
    forall i | 0 <= i < |all| && Completes(all[i]) ensures i > 0 && StepTask(all[i - 1]) == StepTask(all[i]) {
      if i > 2 {
        assert all[i] == rest[i - 3] && all[i - 1] == rest[i - 4];
      }
    }
  }

  lemma Prepend(perms: Permissions, s: State, x: Step, rest: seq<Step>)
    ensures Possible(perms, s, [x] + rest) <==> Enabled(perms, s, x) && Possible(perms, Next(perms, s, x), rest)
    ensures After(perms, s, [x] + rest) == After(perms, Next(perms, s, x), rest)
  {
    assert ([x] + rest)[1..] == rest;
  }

  lemma {:induction false} MakeAtomic(perms: Permissions, s: State, steps: seq<Step>) returns (atomic: seq<Step>)
    requires Inv(perms, s) && Settled(s.core)
    requires Possible(perms, s, steps) && Settled(After(perms, s, steps).core)
    ensures AtomicTwin(perms, s, steps, atomic)
    decreases |steps|
  {
    if steps == [] {
      return [];
    }
    var x, task := steps[0], StepTask(steps[0]);
    if Settled(NextCore(perms, s.core, x)) {
      StepKeepsInv(perms, s, x);
      var rest := MakeAtomic(perms, Next(perms, s, x), steps[1..]);
      TwinWithStep(perms, s, x, steps[1..], rest);
      return [x] + rest;
    }
    var early, late, sends, tail := FirstGap(perms, s, steps);
    var rest := MakeAtomic(perms, Completed(perms, Next(perms, s, x), task, sends), early + late + tail);
    TwinWithGap(perms, s, x, early, late, sends, tail, rest);
    return [x, Reply(task), Drain(task, sends)] + rest;
  }

  /** The first step of a run begins a registration; this is how the run goes on with it. */
  lemma FirstGap(perms: Permissions, s: State, steps: seq<Step>)
    returns (early: seq<Step>, late: seq<Step>, sends: seq<Send>, tail: seq<Step>)
    requires Inv(perms, s) && Settled(s.core)
    requires Possible(perms, s, steps) && Settled(After(perms, s, steps).core)
    requires steps != [] && !Settled(NextCore(perms, s.core, steps[0]))
    ensures var x, s1 := steps[0], Next(perms, s, steps[0]);
      && steps == [x] + (WithGap(early, StepTask(x), late, sends) + tail) && !Completes(x)
      && Gap(perms, s1, early, StepTask(x), late, sends)
      && Possible(perms, s1, WithGap(early, StepTask(x), late, sends) + tail)
    ensures var t2 := Completed(perms, Next(perms, s, steps[0]), StepTask(steps[0]), sends);
      && Inv(perms, t2) && Settled(t2.core)
      && Possible(perms, t2, early + late + tail) && Settled(After(perms, t2, early + late + tail).core)
  {
    var x, s1 := steps[0], Next(perms, s, steps[0]);
    StepKeepsInv(perms, s, x);
    GapBegins(perms, s.core, x);
    early, late, sends, tail := FindGap(perms, s1, steps[1..], StepTask(x));
    GapFollows(perms, s1, early, StepTask(x), late, sends, tail);
  }

  /** `atomic` does what `steps` does, with every registration at once. */
  ghost predicate AtomicTwin(perms: Permissions, s: State, steps: seq<Step>, atomic: seq<Step>) {
    && Possible(perms, s, atomic) && Atomic(atomic)
    && After(perms, s, atomic).core == After(perms, s, steps).core
    && SameHistories(After(perms, s, steps).log, After(perms, s, atomic).log)
  }

  ghost function Completed(perms: Permissions, s: State, task: TaskId, sends: seq<Send>): State {
    Next(perms, Next(perms, s, Reply(task)), Drain(task, sends))
  }

  /** After the completion the rest of the run goes on from a settled state. */
  lemma GapFollows(perms: Permissions, s: State, early: seq<Step>, task: TaskId, late: seq<Step>,
                   sends: seq<Send>, tail: seq<Step>)
    requires Gap(perms, s, early, task, late, sends) && Possible(perms, s, WithGap(early, task, late, sends) + tail)
    requires Settled(After(perms, s, WithGap(early, task, late, sends) + tail).core)
    requires forall t :: t != task ==> !PhaseOf(s.core, t).Inserted? && !PhaseOf(s.core, t).Replied?
    ensures var t2 := Completed(perms, s, task, sends);
      && Inv(perms, t2) && Settled(t2.core)
      && Possible(perms, t2, early + late + tail) && Settled(After(perms, t2, early + late + tail).core)
  {
    CloseGap(perms, s, early, task, late, sends, tail);
    StepKeepsInv(perms, s, Reply(task));
    StepKeepsInv(perms, Next(perms, s, Reply(task)), Drain(task, sends));
    SettledAgain(perms, s.core, task, sends);
  }

  lemma TwinWithStep(perms: Permissions, s: State, x: Step, rest: seq<Step>, atomic: seq<Step>)
    requires Enabled(perms, s, x) && Settled(s.core) && AtomicTwin(perms, Next(perms, s, x), rest, atomic)
    ensures AtomicTwin(perms, s, [x] + rest, [x] + atomic)
  {
    AtomicCons(perms, s.core, x, atomic);
    Prepend(perms, s, x, atomic);
    Prepend(perms, s, x, rest);
  }

  lemma TwinWithGap(perms: Permissions, s: State, x: Step, early: seq<Step>, late: seq<Step>, sends: seq<Send>,
                    tail: seq<Step>, atomic: seq<Step>)
    requires Enabled(perms, s, x) && !Completes(x)
    requires Gap(perms, Next(perms, s, x), early, StepTask(x), late, sends)
    requires Possible(perms, Next(perms, s, x), WithGap(early, StepTask(x), late, sends) + tail)
    requires AtomicTwin(perms, Completed(perms, Next(perms, s, x), StepTask(x), sends), early + late + tail, atomic)
    ensures AtomicTwin(perms, s, [x] + (WithGap(early, StepTask(x), late, sends) + tail),
                       [x, Reply(StepTask(x)), Drain(StepTask(x), sends)] + atomic)
  {
    var task, s1 := StepTask(x), Next(perms, s, x);
    CloseGap(perms, s1, early, task, late, sends, tail);
    AtomicTriple(x, task, sends, atomic);
    Prepend(perms, s, x, WithGap(early, task, late, sends) + tail);
    ThreeSteps(perms, s, x, Reply(task), Drain(task, sends), atomic);
    HistoriesChain(After(perms, s1, WithGap(early, task, late, sends) + tail).log,
                   After(perms, Completed(perms, s1, task, sends), early + late + tail).log,
                   After(perms, Completed(perms, s1, task, sends), atomic).log);
  }

  lemma ThreeSteps(perms: Permissions, s: State, x: Step, r: Step, d: Step, rest: seq<Step>)
    ensures var t := Next(perms, Next(perms, Next(perms, s, x), r), d);
      && ((&& Enabled(perms, s, x) && Enabled(perms, Next(perms, s, x), r)
           && Enabled(perms, Next(perms, Next(perms, s, x), r), d) && Possible(perms, t, rest))
          ==> Possible(perms, s, [x, r, d] + rest))
      && After(perms, s, [x, r, d] + rest) == After(perms, t, rest)
  {
    var s1 := Next(perms, s, x);
    Prepend(perms, Next(perms, s1, r), d, rest);
    Prepend(perms, s1, r, [d] + rest);
    Prepend(perms, s, x, [r] + ([d] + rest));
    assert [x, r, d] + rest == [x] + ([r] + ([d] + rest));
  }

  lemma HistoriesChain(a: seq<Event>, b: seq<Event>, c: seq<Event>)
    requires SameHistories(a, b) && SameHistories(b, c)
    ensures SameHistories(a, c)
  {
  }

  /**
   * Every run that leaves no registration half done, with however many registrations interleaved, has a
   * counterpart in which each of them inserts, replies and drains without a step of anybody else in
   * between. It ends in the same tables, with the same entries, and every request sees the same history.
   */
  lemma EveryRunIsAtomic(perms: Permissions, steps: seq<Step>)
    requires Possible(perms, INIT, steps) && Settled(After(perms, INIT, steps).core)
    ensures exists atomic :: AtomicTwin(perms, INIT, steps, atomic)
  {
    InitInv(perms);
    assert forall t :: PhaseOf(INIT.core, t) == Gone;
    var atomic := MakeAtomic(perms, INIT, steps);
  }
}
