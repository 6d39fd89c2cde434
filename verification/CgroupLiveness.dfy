/** Retirement makes progress: from any crash point it can be finished, and then it stays finished. */
module CgroupLiveness {
  import opened Common
  import opened CgroupRecord
  import opened CgroupProtocol
  import opened CgroupSafety
  import Tree = CgroupTree

  // ---- the measure ----

  /** How far the durable record still has to go. */
  function PhaseLeft(w: World): nat
  {
    if w.disk.None? then 0 else 3 - Rank(PhaseOf(w.disk.value))
  }

  /** The directories of the root that are left. */
  function DirsLeft(w: World): nat
  {
    if w.disk.Some? && w.disk.value.runRoot in w.dirs then 1 + |w.dirs[w.disk.value.runRoot].nested| else 0
  }

  /** The steps of the call that are left, for one pass over the directories. */
  function StepsLeft(call: Call): nat
  {
    match call
    case LookAtRoot(_) => 8
    case KillRoot(_) => 7
    case AwaitEmpty(_) => 6
    case RecordEmpty(_) => 5
    case ListNested(_) => 4
    case RemoveTree(_, _) => 3
    case RecordCleaned(_) => 2
    case _ => 0
  }

  function TodoLeft(call: Call): nat
  {
    if call.RemoveTree? then |call.todo| else 0
  }

  predicate IsRetireStep(a: Action)
  {
    a.Look? || a.KillTree? || a.SeeEmpty? || a.WriteEmpty? || a.List? || a.RemoveNext? || a.WriteCleaned?
  }

  /** Lexicographic order on what is left. */
  predicate LessLeft(a: World, b: World)
  {
    || PhaseLeft(a) < PhaseLeft(b)
    || (PhaseLeft(a) == PhaseLeft(b) &&
        (|| DirsLeft(a) < DirsLeft(b)
         || (DirsLeft(a) == DirsLeft(b) &&
             (|| StepsLeft(a.call) < StepsLeft(b.call)
              || (StepsLeft(a.call) == StepsLeft(b.call) && TodoLeft(a.call) < TodoLeft(b.call))))))
  }

  /** Every step of a retirement leaves less to do; a crash loses only the progress within the call. */
  lemma RetireStepProgresses(w: World, a: Action)
    requires Inv(w) && Enabled(w, a)
    ensures IsRetireStep(a) ==> LessLeft(Apply(w, a), w)
    ensures a.Stop? ==> PhaseLeft(Apply(w, a)) == PhaseLeft(w) && DirsLeft(Apply(w, a)) == DirsLeft(w)
  {
    hide ValidRecord;
    hide Tree.RemovalOrder;
    if a.RemoveNext? {
      RemoveNextProgresses(w);
    }
  }

  lemma RemoveNextProgresses(w: World)
    requires Inv(w) && Enabled(w, RemoveNext)
    ensures LessLeft(Apply(w, RemoveNext), w)
  {
    hide ValidRecord;
    hide Tree.Childless;
    var b := w.call.b;
    var nested := w.dirs[b.runRoot].nested;
    if w.call.todo != [] {
      assert w.call.todo[0] in nested ==> |nested - {w.call.todo[0]}| < |nested|;
    }
  }

  // ---- finishing ----

  /** A nested set always has an order in which it can be removed. */
  lemma OrderExists(nested: set<Tree.Path>) returns (todo: seq<Tree.Path>)
    ensures Tree.RemovalOrder(todo, nested)
  {
    var listed := Enumerate(nested);
    Tree.SortFacts(listed);
    todo := Tree.SortDeepestFirst(listed);
    Tree.SameElements(listed, todo);
  }

  lemma Enumerate(nested: set<Tree.Path>) returns (listed: seq<Tree.Path>)
    ensures NoDuplicates(listed) && forall p :: p in listed <==> p in nested
  {
    if nested == {} {
      listed := [];
    } else {
      var p :| p in nested;
      var rest := Enumerate(nested - {p});
      listed := [p] + rest;
    }
  }

  /** A retirement in progress that nobody disturbs. */
  ghost predicate Retiring(w: World)
  {
    && StepsLeft(w.call) > 0
    && var b := w.call.b;
       && (b.prepared ==> w.call.RecordCleaned? || (w.call.LookAtRoot? && b.runRoot !in w.dirs))
       && (StepsLeft(w.call) <= 5 && b.runRoot in w.dirs && !w.call.RecordCleaned? ==> !w.dirs[b.runRoot].populated)
       && (w.call.RemoveTree? && b.runRoot in w.dirs ==> Tree.RemovalOrder(w.call.todo, w.dirs[b.runRoot].nested))
  }

  /** What the retirement and a kernel that honours the kill do. */
  predicate IsCooperative(a: Action, root: string)
  {
    IsRetireStep(a) || a == SetPopulated(root, false)
  }

  ghost predicate Finishes(w: World, actions: seq<Action>, b: Binding)
  {
    && Legal(w, actions)
    && (forall a | a in actions :: IsCooperative(a, b.runRoot))
    && Run(w, actions).disk == Some(b.(emptyConfirmed := true, cleaned := true))
  }

  lemma FinishesCons(w: World, a: Action, rest: seq<Action>, b: Binding)
    requires Enabled(w, a) && IsCooperative(a, b.runRoot) && Finishes(Apply(w, a), rest, b)
    ensures Finishes(w, [a] + rest, b)
  {
    assert ([a] + rest)[0] == a && ([a] + rest)[1..] == rest;
  }

  /** The head of a removal order is childless, and the tail is an order for what remains. */
  lemma OrderStep(todo: seq<Tree.Path>, nested: set<Tree.Path>)
    requires Tree.RemovalOrder(todo, nested) && todo != []
    ensures todo[0] in nested && Tree.Childless(nested, todo[0])
    ensures Tree.RemovalOrder(todo[1..], nested - {todo[0]})
  {
    assert todo == [todo[0]] + todo[1..];
    forall q | q in nested
      ensures !Tree.StrictlyInside(todo[0], q)
    {
      assert q in todo;
    }
  }

  lemma OrderEnd(nested: set<Tree.Path>)
    requires Tree.RemovalOrder([], nested)
    ensures nested == {}
  {
  }

  /** The next step of a retirement in progress. */
  lemma NextStep(w: World) returns (a: Action)
    requires Inv(w) && Retiring(w)
    requires w.call.AwaitEmpty? ==> !w.dirs[w.call.b.runRoot].populated
    ensures Enabled(w, a) && IsRetireStep(a)
    ensures var next := Apply(w, a);
            && (a.WriteCleaned? <==> !Retiring(next))
            && (a.WriteCleaned? ==> next.disk == Some(w.call.b.(emptyConfirmed := true, cleaned := true)))
            && (!a.WriteCleaned? ==> next.call.b.(emptyConfirmed := true) == w.call.b.(emptyConfirmed := true))
  {
    hide ValidRecord;
    var b := w.call.b;
    match w.call
    case LookAtRoot(_) =>
      a := Look;
      if !b.prepared && b.runRoot !in w.dirs {
        assert b.nonce in w.removed;
      }
    case KillRoot(_) => a := KillTree;
    case AwaitEmpty(_) => a := SeeEmpty;
    case RecordEmpty(_) => a := WriteEmpty;
    case ListNested(_) =>
      var todo := OrderExists(w.dirs[b.runRoot].nested);
      a := List(todo);
    case RemoveTree(_, todo) =>
      a := RemoveNext;
      if todo == [] {
        OrderEnd(w.dirs[b.runRoot].nested);
      } else {
        OrderStep(todo, w.dirs[b.runRoot].nested);
      }
    case RecordCleaned(_) => a := WriteCleaned;
  }

  /** A retirement in progress can be finished by its own steps and a kernel that honours the kill. */
  lemma {:induction false} Completes(w: World) returns (actions: seq<Action>)
    requires Inv(w) && Retiring(w)
    ensures Finishes(w, actions, w.call.b)
    decreases PhaseLeft(w), DirsLeft(w), StepsLeft(w.call), TodoLeft(w.call)
  {
    hide ValidRecord;
    hide Legal;
    hide Run;
    var b := w.call.b;
    var drain := SetPopulated(b.runRoot, false);
    var quiet := if w.call.AwaitEmpty? then Apply(w, drain) else w;
    if w.call.AwaitEmpty? {
      StepKeeps(w, drain);
    }
    var a := NextStep(quiet);
    var next := Apply(quiet, a);
    StepKeeps(quiet, a);
    RetireStepProgresses(quiet, a);
    if a.WriteCleaned? {
      RunOne(quiet, a);
      actions := [a];
    } else {
      var rest := Completes(next);
      FinishesCons(quiet, a, rest, b);
      actions := [a] + rest;
    }
    if w.call.AwaitEmpty? {
      FinishesCons(w, drain, actions, b);
      actions := [drain] + actions;
    }
  }

  // ---- the main results ----

  /** What `reconcile` answers from its checks alone. */
  datatype Verdict = NotBound | AlreadyCleaned | Refused | Proceeds

  function ReconcileVerdict(disk: Option<Binding>, boot: string, configured: Option<string>, runId: string): Verdict
  {
    if disk.None? then NotBound
    else if !ValidBinding(disk.value, boot, configured, runId) then Refused
    else if disk.value.cleaned then AlreadyCleaned
    else Proceeds
  }

  /**
   * From every crash point of every run, in the same boot and under the same
   * or no configured parent, a reconciliation can run to Cleaned when the
   * root was published. When only the intent was recorded, it can exactly
   * when nothing exists at the intended path.
   */
  lemma ReconcileReachesCleaned(start: World, before: seq<Action>, configured: Option<string>)
    returns (actions: seq<Action>)
    requires Init(start) && Legal(start, before)
    requires var w := Run(start, before);
             && w.call.Idle? && w.disk.Some? && !w.disk.value.cleaned && w.disk.value.bootId == w.boot
             && (configured.Some? ==> configured.value == w.disk.value.delegatedParent)
    ensures var w := Run(start, before);
            var b := w.disk.value;
            var begin := BeginReconcile(configured, b.runId);
            && ReconcileVerdict(w.disk, w.boot, configured, b.runId) == Proceeds
            && Enabled(w, begin)
            && (b.prepared && b.runRoot in w.dirs ==> !Enabled(Apply(w, begin), Look))
            && (!b.prepared || b.runRoot !in w.dirs ==> Finishes(Apply(w, begin), actions, b))
  {
    var w := Run(start, before);
    InitInv(start);
    RunKeeps(start, before);
    var b := w.disk.value;
    var begin := BeginReconcile(configured, b.runId);
    StepKeeps(w, begin);
    var now := Apply(w, begin);
    actions := [];
    if !b.prepared || b.runRoot !in w.dirs {
      actions := Completes(now);
    }
  }

  /**
   * A record that is not cleaned and that nothing can clean: it is from
   * another boot, or its root was made and never published, and no call is
   * about to publish it.
   */
  ghost predicate Stuck(w: World)
  {
    && w.disk.Some? && !w.disk.value.cleaned
    && var b := w.disk.value;
       b.bootId != w.boot || (b.prepared && b.nonce in w.created && !w.call.ProbeRoot? && !w.call.PublishRoot?)
  }

  lemma StuckStep(w: World, a: Action)
    requires Inv(w) && Stuck(w) && Enabled(w, a)
    ensures Stuck(Apply(w, a)) && Apply(w, a).disk == w.disk && Apply(w, a).effects == w.effects && !a.BeginBind?
  {
    hide ValidRecord;
  }

  /** A stuck record stays: no run changes it, destroys anything or binds another run. */
  lemma {:induction false} StuckForGood(w: World, actions: seq<Action>)
    requires Inv(w) && Stuck(w) && Legal(w, actions)
    ensures var now := Run(w, actions); Stuck(now) && now.disk == w.disk && now.effects == w.effects
    ensures forall a | a in actions :: !a.BeginBind?
    decreases |actions|
  {
    hide Inv;
    hide Stuck;
    hide Enabled;
    hide Apply;
    if actions != [] {
      StuckStep(w, actions[0]);
      StepKeeps(w, actions[0]);
      StuckForGood(Apply(w, actions[0]), actions[1..]);
      assert actions == [actions[0]] + actions[1..];
    }
  }

  /** Some run cleans the record of this execution. */
  ghost predicate CanBeCleaned(w: World)
    requires w.disk.Some?
  {
    exists actions :: Legal(w, actions) && CleanedAs(Run(w, actions), w.disk.value.nonce)
  }

  predicate CleanedAs(w: World, nonce: string)
  {
    w.disk.Some? && w.disk.value.nonce == nonce && w.disk.value.cleaned
  }

  /** The call that is under way ends, after publishing a root it has made. */
  lemma EndCall(w: World) returns (actions: seq<Action>)
    requires Inv(w) && w.disk.Some? && !w.disk.value.cleaned && !Stuck(w)
    ensures Legal(w, actions)
    ensures var now := Run(w, actions);
            && now.call.Idle? && now.disk.Some? && !now.disk.value.cleaned && !Stuck(now)
            && now.disk.value.nonce == w.disk.value.nonce
  {
    hide ValidRecord;
    hide Legal;
    hide Run;
    var b := w.disk.value;
    actions := [];
    if w.call.Idle? {
      RunNothing(w);
      return;
    }
    if w.call.ProbeRoot? || w.call.PublishRoot? {
      var drain := SetPopulated(b.runRoot, false);
      RunOne(w, drain);
      actions := [drain];
      if w.call.ProbeRoot? {
        RunMore(w, actions, Probe);
        actions := actions + [Probe];
      }
      RunMore(w, actions, Publish);
      actions := actions + [Publish];
      RunMore(w, actions, Action.Stop);
      actions := actions + [Action.Stop];
    } else {
      RunOne(w, Action.Stop);
      actions := [Action.Stop];
    }
  }

  lemma RunNothing(w: World)
    ensures Legal(w, []) && Run(w, []) == w
  {
  }

  /** What exists at the path of an intent that came to nothing was made by others, who can remove it. */
  lemma ClearPath(w: World) returns (actions: seq<Action>)
    requires Inv(w) && w.call.Idle? && w.disk.Some? && !w.disk.value.cleaned && !Stuck(w)
    ensures Legal(w, actions)
    ensures var now := Run(w, actions);
            && now.call.Idle? && now.disk == w.disk && !Stuck(now)
            && (now.disk.value.prepared ==> now.disk.value.runRoot !in now.dirs)
  {
    hide ValidRecord;
    hide Legal;
    hide Run;
    var b := w.disk.value;
    actions := [];
    RunNothing(w);
    if b.prepared && b.runRoot in w.dirs {
      IntendedIsForeign(w);
      RunOne(w, ForeignRmdir(b.runRoot));
      actions := [ForeignRmdir(b.runRoot)];
    }
  }

  lemma IntendedIsForeign(w: World)
    requires Inv(w) && w.disk.Some? && w.disk.value.runRoot in w.dirs && w.disk.value.nonce !in w.created
    ensures w.dirs[w.disk.value.runRoot].owner.Foreign?
  {
    var b := w.disk.value;
    var owner := w.dirs[b.runRoot].owner;
    RootEndsWithNonce(b);
    if owner.Ours? {
      NonceIsDetermined(b.runRoot, owner.nonce, b.nonce);
    }
  }

  /** From an idle state with nothing in the way, one reconciliation. */
  lemma CleanRun(w: World) returns (actions: seq<Action>)
    requires Inv(w) && w.call.Idle? && w.disk.Some? && !w.disk.value.cleaned && w.disk.value.bootId == w.boot
    requires w.disk.value.prepared ==> w.disk.value.runRoot !in w.dirs
    ensures Legal(w, actions) && CleanedAs(Run(w, actions), w.disk.value.nonce)
  {
    hide Legal;
    hide Run;
    var begin := BeginReconcile(None, w.disk.value.runId);
    RunOne(w, begin);
    StepKeeps(w, begin);
    var rest := Completes(Apply(w, begin));
    RunConcat(w, [begin], rest);
    actions := [begin] + rest;
  }

  /**
   * In every reachable state, the record that is not cleaned can still become
   * cleaned by some run exactly when it is not stuck: when this is its boot
   * and no root was made that stayed unpublished.
   */
  lemma CleanedUnlessStuck(start: World, before: seq<Action>)
    requires Init(start) && Legal(start, before)
    requires var w := Run(start, before); w.disk.Some? && !w.disk.value.cleaned
    ensures CanBeCleaned(Run(start, before)) <==> !Stuck(Run(start, before))
  {
    hide Legal;
    hide Run;
    hide Inv;
    hide Stuck;
    var w := Run(start, before);
    InitInv(start);
    RunKeeps(start, before);
    if Stuck(w) {
      forall actions | Legal(w, actions)
        ensures !CleanedAs(Run(w, actions), w.disk.value.nonce)
      {
        StuckForGood(w, actions);
      }
    } else {
      var one := EndCall(w);
      var idle := Run(w, one);
      RunKeeps(w, one);
      var two := ClearPath(idle);
      var clear := Run(idle, two);
      RunKeeps(idle, two);
      OwnBoot(clear);
      var three := CleanRun(clear);
      RunConcat(idle, two, three);
      RunConcat(w, one, two + three);
    }
  }

  lemma OwnBoot(w: World)
    requires w.disk.Some? && !w.disk.value.cleaned && !Stuck(w)
    ensures w.disk.value.bootId == w.boot
  {
  }

  /** Stuck records happen: a crash between making the root and publishing it, or a reboot before the end. */
  lemma StuckIsReached(w: World, parent: string, runId: string, nonce: string, boot: string)
    requires Enabled(w, BeginBind(parent, runId, nonce)) && Enabled(w, Reboot(boot)) && w.boot in w.boots
    requires Intent(parent, runId, nonce, w.boot).runRoot !in w.dirs
    ensures var crash := [BeginBind(parent, runId, nonce), Mkdir, Action.Stop];
            Legal(w, crash) && Stuck(Run(w, crash))
    ensures var reboot := [BeginBind(parent, runId, nonce), Reboot(boot)];
            Legal(w, reboot) && Stuck(Run(w, reboot))
  {
    hide Legal;
    hide Run;
    hide IsDelegatedParent;
    var begin := BeginBind(parent, runId, nonce);
    RunOne(w, begin);
    RunMore(w, [begin], Mkdir);
    assert [begin] + [Mkdir] == [begin, Mkdir];
    RunMore(w, [begin, Mkdir], Action.Stop);
    assert [begin, Mkdir] + [Action.Stop] == [begin, Mkdir, Action.Stop];
    RunMore(w, [begin], Reboot(boot));
    assert [begin] + [Reboot(boot)] == [begin, Reboot(boot)];
  }

  /**
   * A finished retirement is final: until the next `bind` no run changes the
   * record or destroys anything, and `reconcile` answers AlreadyCleaned under
   * every boot and every configured parent.
   */
  lemma {:induction false} CleanedIsFinal(w: World, actions: seq<Action>, boot: string, configured: Option<string>)
    requires Inv(w) && w.disk.Some? && w.disk.value.cleaned && Legal(w, actions)
    requires forall a | a in actions :: !a.BeginBind?
    ensures var now := Run(w, actions);
            && now.disk == w.disk && now.effects == w.effects
            && ReconcileVerdict(now.disk, boot, configured, w.disk.value.runId) == AlreadyCleaned
    decreases |actions|
  {
    if actions != [] {
      var a := actions[0];
      assert a in actions;
      StepKeeps(w, a);
      CleanedStep(w, a);
      CleanedIsFinal(Apply(w, a), actions[1..], boot, configured);
    }
  }

  lemma CleanedStep(w: World, a: Action)
    requires Inv(w) && w.disk.Some? && w.disk.value.cleaned && Enabled(w, a) && !a.BeginBind?
    ensures Apply(w, a).disk == w.disk && Apply(w, a).effects == w.effects
  {
    hide ValidRecord;
  }
}
