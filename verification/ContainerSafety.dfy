/**
 * What every run of the container lifecycle keeps: no instance is lost
 * silently, a refused name is never torn down, the counters are exact, and a
 * clean verdict of the shutdown join is sound.
 */
module ContainerSafety {
  import opened Common
  import opened ContainerLifecycle

  // ---- the invariant ----

  /** The instance that this process made under a name is accounted for. */
  ghost predicate Accounted(p: Process, n: Name)
  {
    n in p.slots &&
    (IsCounted(p.slots[n]) || (IsGuarded(p.slots[n]) && !p.slots[n].Before?) || p.slots[n].Live? || n in p.failures)
  }

  ghost predicate NoSilentLeak(p: Process)
  {
    forall n | n in p.daemon && p.daemon[n] == Us :: Accounted(p, n)
  }

  /** A cleanup that is over without a recorded failure left nothing of ours. */
  ghost predicate DoneMeansGone(p: Process)
  {
    forall n | n in p.slots && (p.slots[n].CleanDone? || p.slots[n].Settled?) ::
      n in p.failures || n !in p.daemon || p.daemon[n] == Them
  }

  /** Nothing of ours exists under a name before its create command, or after its refusal. */
  ghost predicate NothingYet(p: Process)
  {
    forall n | n in p.slots && (p.slots[n].Before? || p.slots[n].Creating? || p.slots[n].Refused?) ::
      n !in p.daemon || p.daemon[n] == Them
  }

  ghost predicate NeverSent(p: Process)
  {
    && (forall n | n in p.slots &&
      (p.slots[n].Before? || p.slots[n].Creating? || p.slots[n].SettingUp? || p.slots[n].Refused?) ::
          n !in p.sent)
    && (forall n | n in p.sent :: n in p.slots)
  }

  /** No failure is recorded for a name before a teardown of it was tried, and only for names with a slot. */
  ghost predicate FailuresOk(p: Process)
  {
    && (forall n | n in p.slots && (p.slots[n].Before? || p.slots[n].Creating? || p.slots[n].Refused?) ::
          n !in p.failures)
    && (forall n | n in p.failures :: n in p.slots)
  }

  ghost predicate CountersOk(p: Process)
  {
    p.counter == |Active(p)| && p.started == p.finished + p.counter
  }

  ghost predicate ChildrenOk(p: Process)
  {
    p.killed == p.reaped + p.pending && p.reaped !! p.pending && p.exited <= p.killed && p.reaped <= p.exited
  }

  ghost predicate JoinOk(p: Process)
  {
    && (!p.join.NotJoining? ==> forall n | n in p.slots :: !IsGuarded(p.slots[n]))
    && (p.join == Loaded(0) ==> Active(p) == {})
    && (p.join == Joined(0) ==> Active(p) == {} && p.pending == {})
  }

  ghost predicate OwnersOk(p: Process)
  {
    NoSilentLeak(p) && DoneMeansGone(p) && NothingYet(p)
  }

  ghost predicate BooksOk(p: Process)
  {
    NeverSent(p) && FailuresOk(p) && CountersOk(p) && ChildrenOk(p) && JoinOk(p)
  }

  lemma InitOk(p: Process)
    requires Init(p)
    ensures OwnersOk(p) && BooksOk(p)
  {
    assert Active(p) == {};
  }

  lemma MoveActive(p: Process, q: Process, n: Name, slot: Slot)
    requires q.slots == p.slots[n := slot]
    ensures Active(q) == if IsCounted(slot) then Active(p) + {n} else Active(p) - {n}
  {
  }

  /** The steps of a guarded provision or an awaited teardown. */
  predicate IsGuardedStep(a: Action)
  {
    || a.Begin? || a.SendCreate? || a.FailEarly? || a.CreateEnds? || a.SetUpEnds? || a.Cancel?
    || a.BeginTeardown? || a.StopEnds? || a.DeleteEnds? || a.RecordAwaited?
  }

  /** The steps of a counted cleanup. */
  predicate IsCleanupStep(a: Action)
  {
    a.Count? || a.StartCleanup? || a.CleanStopEnds? || a.CleanDeleteEnds? || a.RecordDetached? || a.Uncount?
  }

  lemma CreateKeepsOwners(p: Process, a: Action)
    requires OwnersOk(p) && Enabled(p, a) && Honest(a) && (a.CreateEnds? || a.Cancel?)
    ensures OwnersOk(Apply(p, a))
  {
  }

  lemma GuardedStepKeepsOwners(p: Process, a: Action)
    requires OwnersOk(p) && Enabled(p, a) && IsGuardedStep(a) && !a.CreateEnds? && !a.Cancel?
    ensures OwnersOk(Apply(p, a))
  {
  }

  lemma DetachedDeleteKeepsOwners(p: Process, a: Action)
    requires OwnersOk(p) && Enabled(p, a) && a.CleanDeleteEnds?
    ensures OwnersOk(Apply(p, a))
  {
  }

  lemma CleanupEndKeepsOwners(p: Process, a: Action)
    requires OwnersOk(p) && Enabled(p, a) && (a.RecordDetached? || a.Uncount?)
    ensures OwnersOk(Apply(p, a))
  {
  }

  lemma CleanupStepKeepsOwners(p: Process, a: Action)
    requires OwnersOk(p) && Enabled(p, a) && (a.Count? || a.StartCleanup? || a.CleanStopEnds?)
    ensures OwnersOk(Apply(p, a))
  {
  }

  lemma OtherStepKeepsOwners(p: Process, a: Action)
    requires OwnersOk(p) && Enabled(p, a) && !IsGuardedStep(a) && !IsCleanupStep(a)
    ensures OwnersOk(Apply(p, a))
  {
  }

  lemma GuardedStepKeepsSent(p: Process, a: Action)
    requires NeverSent(p) && Enabled(p, a) && IsGuardedStep(a)
    ensures NeverSent(Apply(p, a))
  {
  }

  lemma OtherStepKeepsSent(p: Process, a: Action)
    requires NeverSent(p) && Enabled(p, a) && !IsGuardedStep(a)
    ensures NeverSent(Apply(p, a))
  {
  }

  lemma AwaitedStepKeepsFailures(p: Process, a: Action)
    requires FailuresOk(p) && Enabled(p, a) && (a.StopEnds? || a.DeleteEnds? || a.RecordAwaited? || a.BeginTeardown?)
    ensures FailuresOk(Apply(p, a))
  {
  }

  lemma ProvisionStepKeepsFailures(p: Process, a: Action)
    requires FailuresOk(p) && Enabled(p, a) && IsGuardedStep(a)
    requires !(a.StopEnds? || a.DeleteEnds? || a.RecordAwaited? || a.BeginTeardown?)
    ensures FailuresOk(Apply(p, a))
  {
  }

  lemma CleanupStepKeepsFailures(p: Process, a: Action)
    requires FailuresOk(p) && Enabled(p, a) && IsCleanupStep(a)
    ensures FailuresOk(Apply(p, a))
  {
  }

  lemma OtherStepKeepsFailures(p: Process, a: Action)
    requires FailuresOk(p) && Enabled(p, a) && !IsGuardedStep(a) && !IsCleanupStep(a)
    ensures FailuresOk(Apply(p, a))
  {
  }

  lemma ChildrenKeep(p: Process, a: Action)
    requires ChildrenOk(p) && Enabled(p, a)
    ensures ChildrenOk(Apply(p, a))
  {
  }

  /** How a step may change the counters and the slots. */
  ghost predicate CountsRight(p: Process, a: Action, q: Process)
  {
    && (if a.Count? then q.counter == p.counter + 1 && q.started == p.started + 1 && q.finished == p.finished
        else if a.Uncount? then q.counter == p.counter - 1 && q.started == p.started && q.finished == p.finished + 1
        else q.counter == p.counter && q.started == p.started && q.finished == p.finished)
    && (if IsGuardedStep(a) || IsCleanupStep(a) then a.n in q.slots && q.slots == p.slots[a.n := q.slots[a.n]]
        else q.slots == p.slots)
    && (IsGuardedStep(a) ==> !IsCounted(q.slots[a.n]) && (a.n in p.slots ==> !IsCounted(p.slots[a.n])))
    && (IsCleanupStep(a) ==>
          a.n in p.slots && IsCounted(p.slots[a.n]) == !a.Count? && IsCounted(q.slots[a.n]) == !a.Uncount?)
  }

  lemma GuardedStepCounts(p: Process, a: Action)
    requires Enabled(p, a) && IsGuardedStep(a)
    ensures CountsRight(p, a, Apply(p, a))
  {
  }

  lemma CleanupStepCounts(p: Process, a: Action)
    requires Enabled(p, a) && IsCleanupStep(a)
    ensures CountsRight(p, a, Apply(p, a))
  {
  }

  lemma OtherStepCounts(p: Process, a: Action)
    requires Enabled(p, a) && !IsGuardedStep(a) && !IsCleanupStep(a)
    ensures CountsRight(p, a, Apply(p, a))
  {
  }

  /** Only the first and the last step of a cleanup change what is counted, and the counter with it. */
  lemma StepCounts(p: Process, a: Action)
    requires Enabled(p, a)
    ensures CountsRight(p, a, Apply(p, a))
  {
    hide Enabled; hide Apply; hide CountsRight;
    if IsGuardedStep(a) {
      GuardedStepCounts(p, a);
    } else if IsCleanupStep(a) {
      CleanupStepCounts(p, a);
    } else {
      OtherStepCounts(p, a);
    }
  }

  lemma StepActive(p: Process, a: Action)
    requires Enabled(p, a)
    ensures Active(Apply(p, a)) ==
            if a.Count? then Active(p) + {a.n} else if a.Uncount? then Active(p) - {a.n} else Active(p)
    ensures a.Count? ==> a.n !in Active(p)
    ensures a.Uncount? ==> a.n in Active(p)
  {
    hide Enabled; hide Apply; hide IsCounted;
    StepCounts(p, a);
    var q := Apply(p, a);
    if IsGuardedStep(a) || IsCleanupStep(a) {
      MoveActive(p, q, a.n, q.slots[a.n]);
    }
  }

  lemma CleaningIsActive(p: Process, a: Action)
    requires Enabled(p, a) && IsCleanupStep(a) && !a.Count?
    ensures a.n in Active(p)
  {
  }

  lemma CountersKeep(p: Process, a: Action)
    requires CountersOk(p) && Enabled(p, a)
    ensures CountersOk(Apply(p, a))
  {
    hide Enabled; hide Apply; hide Active;
    StepCounts(p, a);
    StepActive(p, a);
  }

  lemma CleanupStepKeepsJoin(p: Process, a: Action)
    requires JoinOk(p) && Enabled(p, a) && IsCleanupStep(a)
    ensures JoinOk(Apply(p, a))
  {
    hide Active;
    StepActive(p, a);
    if !a.Count? {
      CleaningIsActive(p, a);
    }
  }

  /** While nothing is joined there is nothing to keep. */
  lemma GuardedStepKeepsJoin(p: Process, a: Action)
    requires Enabled(p, a) && IsGuardedStep(a)
    ensures JoinOk(Apply(p, a))
  {
    hide Active;
  }

  lemma OtherStepKeepsJoin(p: Process, a: Action)
    requires JoinOk(p) && CountersOk(p) && Enabled(p, a) && !IsCleanupStep(a) && !IsGuardedStep(a)
    ensures JoinOk(Apply(p, a))
  {
    hide Active; hide IsGuarded;
    StepActive(p, a);
    if p.join.Loaded? && p.join.counter == 0 {
      assert p.join == Loaded(0);
    }
  }

  lemma StepKeepsBooks(p: Process, a: Action)
    requires BooksOk(p) && Enabled(p, a)
    ensures BooksOk(Apply(p, a))
  {
    hide Enabled; hide Apply; hide NeverSent; hide FailuresOk; hide CountersOk; hide ChildrenOk; hide JoinOk;
    if IsGuardedStep(a) {
      GuardedStepKeepsSent(p, a);
      if a.StopEnds? || a.DeleteEnds? || a.RecordAwaited? || a.BeginTeardown? {
        AwaitedStepKeepsFailures(p, a);
      } else {
        ProvisionStepKeepsFailures(p, a);
      }
    } else {
      OtherStepKeepsSent(p, a);
      if IsCleanupStep(a) { CleanupStepKeepsFailures(p, a); } else { OtherStepKeepsFailures(p, a); }
    }
    ChildrenKeep(p, a);
    CountersKeep(p, a);
    if IsCleanupStep(a) {
      CleanupStepKeepsJoin(p, a);
    } else if IsGuardedStep(a) {
      GuardedStepKeepsJoin(p, a);
    } else {
      OtherStepKeepsJoin(p, a);
    }
  }

  lemma StepKeepsOwners(p: Process, a: Action)
    requires OwnersOk(p) && Enabled(p, a) && Honest(a)
    ensures OwnersOk(Apply(p, a))
  {
    hide Enabled; hide Apply; hide OwnersOk;
    if a.CreateEnds? || a.Cancel? {
      CreateKeepsOwners(p, a);
    } else if IsGuardedStep(a) {
      GuardedStepKeepsOwners(p, a);
    } else if a.CleanDeleteEnds? {
      DetachedDeleteKeepsOwners(p, a);
    } else if a.RecordDetached? || a.Uncount? {
      CleanupEndKeepsOwners(p, a);
    } else if IsCleanupStep(a) {
      CleanupStepKeepsOwners(p, a);
    } else {
      OtherStepKeepsOwners(p, a);
    }
  }

  lemma {:induction false} RunKeepsBooks(p: Process, actions: seq<Action>)
    requires BooksOk(p) && Legal(p, actions)
    ensures BooksOk(Run(p, actions))
    decreases |actions|
  {
    hide BooksOk; hide Enabled; hide Apply;
    if actions != [] {
      StepKeepsBooks(p, actions[0]);
      RunKeepsBooks(Apply(p, actions[0]), actions[1..]);
    }
  }

  lemma {:induction false} RunKeepsOwners(p: Process, actions: seq<Action>)
    requires OwnersOk(p) && Legal(p, actions)
    requires forall a | a in actions :: Honest(a)
    ensures OwnersOk(Run(p, actions))
    decreases |actions|
  {
    hide OwnersOk; hide Enabled; hide Apply; hide Honest;
    if actions != [] {
      StepKeepsOwners(p, actions[0]);
      RunKeepsOwners(Apply(p, actions[0]), actions[1..]);
    }
  }

  // ---- the theorems ----

  /**
   * After any run whose refusals were honest, an instance that this process
   * made and the daemon still has is live, guarded, being cleaned up, or one
   * of the recorded failures.
   */
  lemma NothingIsLostSilently(p: Process, actions: seq<Action>, n: Name)
    requires Init(p) && Legal(p, actions)
    requires forall a | a in actions :: Honest(a)
    requires n in Run(p, actions).daemon && Run(p, actions).daemon[n] == Us
    ensures Accounted(Run(p, actions), n)
    ensures !Run(p, actions).slots[n].Refused?
  {
    hide Enabled; hide Apply; hide Legal; hide Run;
    InitOk(p);
    RunKeepsOwners(p, actions);
  }

  /** A refusal that was not honest loses the instance: its guard is disarmed, and nothing records it. */
  lemma DishonestStepLoses(p: Process, a: Action)
    requires BooksOk(p) && Enabled(p, a) && !Honest(a)
    ensures !NoSilentLeak(Apply(p, a))
  {
    var q := Apply(p, a);
    assert a.n in q.daemon && q.daemon[a.n] == Us && !Accounted(q, a.n);
  }

  lemma {:induction false} RunSplits(p: Process, actions: seq<Action>, k: nat)
    requires k <= |actions| && Legal(p, actions)
    ensures Legal(p, actions[..k]) && Legal(Run(p, actions[..k]), actions[k..])
    ensures Run(p, actions) == Run(Run(p, actions[..k]), actions[k..])
    decreases k
  {
    hide Enabled; hide Apply;
    if k == 0 {
      assert actions[..0] == [] && actions[0..] == actions;
    } else {
      RunSplits(Apply(p, actions[0]), actions[1..], k - 1);
      assert actions[..k][1..] == actions[1..][..k - 1] && actions[..k][0] == actions[0];
      assert actions[1..][k - 1..] == actions[k..];
    }
  }

  /** The state after the first `k` steps of a run. */
  ghost function StateAt(p: Process, actions: seq<Action>, k: nat): Process
    requires k <= |actions| && Legal(p, actions)
  {
    RunSplits(p, actions, k);
    Run(p, actions[..k])
  }

  lemma NextState(p: Process, actions: seq<Action>, k: nat)
    requires k < |actions| && Legal(p, actions)
    ensures Enabled(StateAt(p, actions, k), actions[k])
    ensures StateAt(p, actions, k + 1) == Apply(StateAt(p, actions, k), actions[k])
  {
    hide Enabled; hide Apply;
    RunSplits(p, actions, k);
    RunSplits(p, actions, k + 1);
    RunSplits(p, actions[..k + 1], k);
    assert actions[..k + 1][..k] == actions[..k] && actions[..k + 1][k..] == [actions[k]];
    assert actions[k..][0] == actions[k] && [actions[k]][1..] == [];
  }

  /**
   * Honesty is the exact condition: no state of a run has lost an instance
   * silently if and only if every refusal in it came from a create command
   * that made nothing.
   */
  lemma NothingIsLostIffHonest(p: Process, actions: seq<Action>)
    requires Init(p) && Legal(p, actions)
    ensures (forall k | 0 <= k <= |actions| :: NoSilentLeak(StateAt(p, actions, k))) <==>
      (forall a | a in actions :: Honest(a))
  {
    hide Enabled; hide Apply; hide Legal; hide Run; hide Honest; hide NoSilentLeak; hide Init;
    InitOk(p);
    if forall a | a in actions :: Honest(a) {
      forall k | 0 <= k <= |actions|
        ensures NoSilentLeak(StateAt(p, actions, k))
      {
        RunSplits(p, actions, k);
        RunKeepsOwners(p, actions[..k]);
      }
    }
    forall k | 0 <= k < |actions| && !Honest(actions[k])
      ensures !NoSilentLeak(StateAt(p, actions, k + 1))
    {
      NextState(p, actions, k);
      RunSplits(p, actions, k);
      RunKeepsBooks(p, actions[..k]);
      DishonestStepLoses(StateAt(p, actions, k), actions[k]);
    }
  }

  lemma {:induction false} RefusedStays(p: Process, actions: seq<Action>, n: Name)
    requires At(p, n, Refused) && Legal(p, actions)
    ensures At(Run(p, actions), n, Refused)
    decreases |actions|
  {
    hide Apply; hide Enabled;
    if actions != [] {
      RefusedStep(p, actions[0], n);
      RefusedStays(Apply(p, actions[0]), actions[1..], n);
    }
  }

  lemma RefusedStep(p: Process, a: Action, n: Name)
    requires At(p, n, Refused) && Enabled(p, a)
    ensures At(Apply(p, a), n, Refused)
  {
  }

  /** Once the daemon refused a name as taken, no stop or delete for it is ever sent, whatever happens later. */
  lemma RefusedIsLeftAlone(p: Process, before: seq<Action>, after: seq<Action>, n: Name)
    requires Init(p) && Legal(p, before) && Legal(Run(p, before), after)
    requires At(Run(p, before), n, Refused)
    ensures n !in Run(Run(p, before), after).sent
    ensures At(Run(Run(p, before), after), n, Refused)
  {
    hide Enabled; hide Apply; hide Legal; hide Run;
    InitOk(p);
    RunKeepsBooks(p, before);
    RunKeepsBooks(Run(p, before), after);
    RefusedStays(Run(p, before), after, n);
  }

  /**
   * The outstanding counter is the number of cleanups under way, on either
   * path, in every reachable state; a cleanup that is over can always be
   * taken off it.
   */
  lemma CounterIsExact(p: Process, actions: seq<Action>)
    requires Init(p) && Legal(p, actions)
    ensures var q := Run(p, actions);
      && q.counter == |Active(q)| == q.started - q.finished
      && forall n | n in q.slots && q.slots[n].CleanDone? :: q.counter > 0
  {
    hide Enabled; hide Apply; hide Legal; hide Run;
    InitOk(p);
    RunKeepsBooks(p, actions);
    var q := Run(p, actions);
    forall n | n in q.slots && q.slots[n].CleanDone?
      ensures q.counter > 0
    {
      assert n in Active(q);
    }
  }

  /**
   * A shutdown join that reports nothing outstanding is right: every cleanup
   * that was ever started is over, every killed child is reaped, and what the
   * daemon still has of ours is live or a recorded failure.
   */
  lemma CleanJoinIsSound(p: Process, actions: seq<Action>)
    requires Init(p) && Legal(p, actions)
    requires Run(p, actions).join == Joined(0)
    ensures var q := Run(p, actions);
      && Active(q) == {} && q.started == q.finished
      && q.pending == {} && q.killed == q.reaped
      && ((forall a | a in actions :: Honest(a)) ==>
            forall n | n in q.daemon && q.daemon[n] == Us :: n in q.failures || At(q, n, Live))
  {
    hide Enabled; hide Apply; hide Legal; hide Run;
    InitOk(p);
    RunKeepsBooks(p, actions);
    if forall a | a in actions :: Honest(a) {
      var q := Run(p, actions);
      RunKeepsOwners(p, actions);
      forall n | n in q.daemon && q.daemon[n] == Us
        ensures n in q.failures || At(q, n, Live)
      {
        assert Accounted(q, n);
        assert n !in Active(q);
      }
    }
  }

  /** How often an action occurs in a run. */
  function Times(actions: seq<Action>, a: Action): nat
  {
    if actions == [] then 0 else (if actions[0] == a then 1 else 0) + Times(actions[1..], a)
  }

  /** How often a name was counted and uncounted, on either path, from a slot to the end of the run. */
  ghost predicate CountsMatch(before: Option<Slot>, actions: seq<Action>, n: Name, after: Option<Slot>)
  {
    var counts, uncounts := Times(actions, Count(n)), Times(actions, Uncount(n, false)) +
      Times(actions, Uncount(n, true));
    && counts + Counted01(before) == uncounts + Counted01(after)
    && counts <= (if IsBeforeCounting(before) then 1 else 0)
  }

  function Counted01(slot: Option<Slot>): nat
  {
    if slot.Some? && IsCounted(slot.value) then 1 else 0
  }

  predicate IsBeforeCounting(slot: Option<Slot>)
  {
    slot.None? || !(IsCounted(slot.value) || slot.value.Settled? || slot.value.Refused?)
  }

  function SlotOf(p: Process, n: Name): Option<Slot>
  {
    if n in p.slots then Some(p.slots[n]) else None
  }

  /** What one step does to the slot of a name, as far as counting goes. */
  ghost predicate SlotMoves(before: Option<Slot>, a: Action, n: Name, after: Option<Slot>)
  {
    && (a == Count(n) ==> IsBeforeCounting(before) && Counted01(before) == 0 && Counted01(after) == 1)
    && (a.Uncount? && a.n == n ==> Counted01(before) == 1 && Counted01(after) == 0)
    && (a != Count(n) && !(a.Uncount? && a.n == n) ==> Counted01(before) == Counted01(after))
    && (IsBeforeCounting(after) ==> IsBeforeCounting(before) && a != Count(n))
  }

  lemma GuardedStepMoves(p: Process, a: Action)
    requires Enabled(p, a) && IsGuardedStep(a)
    ensures SlotMoves(SlotOf(p, a.n), a, a.n, SlotOf(Apply(p, a), a.n))
  {
  }

  lemma CleanupStepMoves(p: Process, a: Action)
    requires Enabled(p, a) && IsCleanupStep(a)
    ensures SlotMoves(SlotOf(p, a.n), a, a.n, SlotOf(Apply(p, a), a.n))
  {
  }

  lemma StepCountsName(p: Process, a: Action, n: Name)
    requires Enabled(p, a)
    ensures SlotMoves(SlotOf(p, n), a, n, SlotOf(Apply(p, a), n))
  {
    hide Enabled; hide Apply;
    StepCounts(p, a);
    if IsGuardedStep(a) && a.n == n {
      GuardedStepMoves(p, a);
    } else if IsCleanupStep(a) && a.n == n {
      CleanupStepMoves(p, a);
    }
  }

  lemma {:induction false} RunCountsName(p: Process, actions: seq<Action>, n: Name)
    requires Legal(p, actions)
    ensures CountsMatch(SlotOf(p, n), actions, n, SlotOf(Run(p, actions), n))
    decreases |actions|
  {
    hide Enabled; hide Apply; hide IsCounted; hide SlotOf; hide IsBeforeCounting; hide Counted01;
    if actions != [] {
      StepCountsName(p, actions[0], n);
      RunCountsName(Apply(p, actions[0]), actions[1..], n);
    }
  }

  /**
   * Over every run a name is counted at most once, and uncounted once, by the
   * thread or inline but not both, exactly when its cleanup is over.
   */
  lemma CountedOnce(p: Process, actions: seq<Action>, n: Name)
    requires Init(p) && Legal(p, actions)
    ensures var counts, ended := Times(actions, Count(n)), Times(actions, Uncount(n, false)) +
      Times(actions, Uncount(n, true));
      counts <= 1 && ended == if n in Active(Run(p, actions)) then counts - 1 else counts
  {
    hide Enabled; hide Apply; hide Legal; hide Run;
    RunCountsName(p, actions, n);
  }

  lemma RunCons(p: Process, a: Action, rest: seq<Action>)
    requires Enabled(p, a) && Legal(Apply(p, a), rest)
    ensures Legal(p, [a] + rest) && Run(p, [a] + rest) == Run(Apply(p, a), rest)
  {
    hide Enabled; hide Apply;
    assert ([a] + rest)[1..] == rest;
  }

  /** A process with one name. */
  ghost function Only(p: Process, n: Name, slot: Slot): Process
  {
    p.(slots := map[n := slot])
  }

  lemma MoveOnly(p: Process, n: Name, from: Slot, to: Slot)
    ensures Move(Only(p, n, from), n, to) == Only(p, n, to)
  {
    assert map[n := from][n := to] == map[n := to];
  }

  /** A cleanup under way, with the join begun, and no child retained. */
  ghost function Underway(p: Process, n: Name, inline: bool): Process
  {
    Only(p.(sent := {n}, counter := 1, started := 1, join := Polling), n, Cleaning(inline, Delete))
  }

  /** A provision is cancelled before it has sent anything. */
  lemma CancelledIsReachable(p: Process, n: Name, rest: seq<Action>)
    requires Init(p) && Legal(Only(p, n, Dropping), rest)
    ensures var actions := [Begin(n)] + ([Cancel(n, false, {})] + rest);
      Legal(p, actions) && Run(p, actions) == Run(Only(p, n, Dropping), rest)
  {
    hide Legal; hide Run;
    assert map[][n := Before] == map[n := Before];
    assert Apply(p, Begin(n)) == Only(p, n, Before);
    MoveOnly(p, n, Before, Dropping);
    assert Apply(Only(p, n, Before), Cancel(n, false, {})) == Only(p, n, Dropping);
    RunCons(Only(p, n, Before), Cancel(n, false, {}), rest);
    RunCons(p, Begin(n), [Cancel(n, false, {})] + rest);
  }

  lemma CountingStep(p: Process, n: Name)
    requires Init(p)
    ensures Enabled(Only(p, n, Dropping), Count(n))
    ensures Apply(Only(p, n, Dropping), Count(n)) == Only(p.(counter := 1, started := 1), n, Counted)
  {
    MoveOnly(p.(counter := 1, started := 1), n, Dropping, Counted);
  }

  lemma StartingStep(p: Process, n: Name, inline: bool)
    requires Init(p)
    ensures var p1 := p.(counter := 1, started := 1);
      && Enabled(Only(p1, n, Counted), StartCleanup(n, inline))
      && Apply(Only(p1, n, Counted), StartCleanup(n, inline)) == Only(p1.(sent := {n}), n, Cleaning(inline, Stop))
  {
    MoveOnly(p.(counter := 1, started := 1, sent := {n}), n, Counted, Cleaning(inline, Stop));
  }

  lemma StoppingStep(p: Process, n: Name, inline: bool)
    requires Init(p)
    ensures var p2 := p.(counter := 1, started := 1, sent := {n});
      && Enabled(Only(p2, n, Cleaning(inline, Stop)), CleanStopEnds(n, {}))
      && Apply(Only(p2, n, Cleaning(inline, Stop)), CleanStopEnds(n, {})) == Only(p2, n, Cleaning(inline, Delete))
      && Enabled(Only(p2, n, Cleaning(inline, Delete)), BeginJoin)
      && Apply(Only(p2, n, Cleaning(inline, Delete)), BeginJoin) == Underway(p, n, inline)
  {
    MoveOnly(p.(counter := 1, started := 1, sent := {n}), n, Cleaning(inline, Stop), Cleaning(inline, Delete));
  }

  /** From the start a provision can be cancelled and its cleanup be under way when the join begins. */
  lemma UnderwayIsReachable(p: Process, n: Name, inline: bool) returns (actions: seq<Action>)
    requires Init(p)
    ensures Legal(p, actions) && Run(p, actions) == Underway(p, n, inline)
  {
    hide Legal; hide Run; hide Enabled; hide Apply; hide Only; hide Underway;
    var p1 := p.(counter := 1, started := 1);
    var p2 := p1.(sent := {n});
    CountingStep(p, n);
    StartingStep(p, n, inline);
    StoppingStep(p, n, inline);
    RunNone(Underway(p, n, inline));
    actions := [BeginJoin] + [];
    RunCons(Only(p2, n, Cleaning(inline, Delete)), BeginJoin, []);
    RunCons(Only(p2, n, Cleaning(inline, Stop)), CleanStopEnds(n, {}), actions);
    actions := [CleanStopEnds(n, {})] + actions;
    RunCons(Only(p1, n, Counted), StartCleanup(n, inline), actions);
    actions := [StartCleanup(n, inline)] + actions;
    RunCons(Only(p, n, Dropping), Count(n), actions);
    actions := [Count(n)] + actions;
    CancelledIsReachable(p, n, actions);
    actions := [Begin(n)] + ([Cancel(n, false, {})] + actions);
  }

  lemma RunNone(p: Process)
    ensures Legal(p, []) && Run(p, []) == p
  {
  }

  /**
   * The order of the two reads matters: a join that looked at the retained
   * children first and at the counter afterwards could find both empty while
   * the last cleanup, whose delete timed out, leaves a killed child behind in
   * between.
   */
  lemma ReadingChildrenFirstIsUnsound(p: Process, n: Name, c: Child, inline: bool)
    returns (before: seq<Action>, between: seq<Action>)
    requires Init(p)
    ensures Legal(p, before) && Legal(Run(p, before), between)
    ensures var children, counter := Run(p, before), Run(Run(p, before), between);
      && children.join == Polling && children.pending == {}
      && counter.join == Polling && counter.counter == 0 && counter.pending == {c}
  {
    hide Legal; hide Run;
    before := UnderwayIsReachable(p, n, inline);
    between := LastCleanupEnds(p, n, c, inline);
  }

  /** The last steps of a cleanup whose delete timed out. */
  lemma TimedOutSteps(p: Process, n: Name, c: Child, inline: bool)
    requires Init(p)
    ensures var q, timedOut := Underway(p, n, inline), CleanDeleteEnds(n, Failed, false, {c});
      && Enabled(q, timedOut)
      && var q1 := Apply(q, timedOut);
         && q1.counter == 1 && q1.pending == {c} && q1.join == Polling
         && q1.slots == map[n := CleanFailed(inline)] && Enabled(q1, RecordDetached(n))
  {
    assert map[n := Cleaning(inline, Delete)][n := CleanFailed(inline)] == map[n := CleanFailed(inline)];
  }

  lemma RecordedSteps(q: Process, n: Name, inline: bool)
    requires q.counter == 1 && q.join == Polling && q.slots == map[n := CleanFailed(inline)]
    ensures Enabled(q, RecordDetached(n))
    ensures var q1 := Apply(q, RecordDetached(n));
      && Enabled(q1, Uncount(n, inline))
      && var q2 := Apply(q1, Uncount(n, inline)); q2.counter == 0 && q2.join == Polling && q2.pending == q.pending
  {
  }

  lemma LastCleanupEnds(p: Process, n: Name, c: Child, inline: bool) returns (actions: seq<Action>)
    requires Init(p)
    ensures Legal(Underway(p, n, inline), actions)
    ensures var q := Run(Underway(p, n, inline), actions); q.join == Polling && q.counter == 0 && q.pending == {c}
  {
    hide Legal; hide Run; hide Enabled; hide Apply; hide Underway;
    var q := Underway(p, n, inline);
    var timedOut := CleanDeleteEnds(n, Failed, false, {c});
    TimedOutSteps(p, n, c, inline);
    var q1 := Apply(q, timedOut);
    RecordedSteps(q1, n, inline);
    var q2 := Apply(q1, RecordDetached(n));
    RunNone(Apply(q2, Uncount(n, inline)));
    actions := [Uncount(n, inline)] + [];
    RunCons(q2, Uncount(n, inline), []);
    RunCons(q1, RecordDetached(n), actions);
    actions := [RecordDetached(n)] + actions;
    RunCons(q, timedOut, actions);
    actions := [timedOut] + actions;
  }

  /** How many steps of its own a cleanup has left. */
  function StepsLeft(slot: Slot): nat
  {
    match slot
    case Counted => 5
    case Cleaning(_, Stop) => 4
    case Cleaning(_, Delete) => 3
    case CleanFailed(_) => 2
    case CleanDone(_) => 1
    case _ => 0
  }

  /**
   * Every step of a cleanup, however its command ends, brings it closer to its
   * end, and no step of another name pushes it back.
   */
  lemma CleanupsEnd(p: Process, a: Action, n: Name)
    requires Enabled(p, a) && n in p.slots && IsCounted(p.slots[n])
    ensures var q := Apply(p, a);
      && n in q.slots
      && (if IsCleanupStep(a) && a.n == n then StepsLeft(q.slots[n]) < StepsLeft(p.slots[n])
          else q.slots[n] == p.slots[n])
      && (q.slots[n] == Settled || IsCounted(q.slots[n]))
  {
    hide Apply; hide Enabled;
    StepCounts(p, a);
    if IsCleanupStep(a) && a.n == n {
      OwnStepCounts(p, a);
    }
  }

  lemma OwnStepCounts(p: Process, a: Action)
    requires Enabled(p, a) && IsCleanupStep(a) && !a.Count?
    ensures var q := Apply(p, a);
      && a.n in p.slots && a.n in q.slots && StepsLeft(q.slots[a.n]) < StepsLeft(p.slots[a.n])
      && (q.slots[a.n] == Settled || IsCounted(q.slots[a.n]))
  {
  }

  /** A cleanup that is not over can always take its next step. */
  lemma CleanupCanStep(p: Process, n: Name) returns (a: Action)
    requires BooksOk(p) && n in p.slots && IsCounted(p.slots[n])
    ensures IsCleanupStep(a) && a.n == n && Enabled(p, a)
  {
    assert n in Active(p);
    a := match p.slots[n]
      case Counted => StartCleanup(n, false)
      case Cleaning(_, Stop) => CleanStopEnds(n, {})
      case Cleaning(_, Delete) => CleanDeleteEnds(n, Failed, false, {})
      case CleanFailed(_) => RecordDetached(n)
      case CleanDone(inline) => Uncount(n, inline);
  }

  /** A join whose cleanups are over and whose children have exited reports a clean stop at its next poll. */
  lemma JoinCompletes(p: Process, expired: bool)
    requires BooksOk(p) && p.join == Polling && Active(p) == {} && p.pending <= p.exited
    ensures Legal(p, [LoadCounter, ReapAndDecide(expired)])
    ensures Run(p, [LoadCounter, ReapAndDecide(expired)]).join == Joined(0)
  {
    var q := Apply(p, LoadCounter);
    assert q.join == Loaded(0);
    var a := ReapAndDecide(expired);
    assert ReapExited(q).pending == {};
    var r := Apply(q, a);
    assert r.join == Joined(0);
    assert [LoadCounter, a][1..] == [a] && [a][1..] == [];
    assert Legal(r, []) && Legal(q, [a]) && Run(q, [a]) == r;
  }
}
