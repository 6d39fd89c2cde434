/** What every run of the ownership protocol keeps. */
module CgroupSafety {
  import opened Common
  import opened CgroupRecord
  import opened CgroupProtocol
  import Tree = CgroupTree

  // ---- the invariant ----

  ghost predicate OwnRoot(w: World, b: Binding)
  {
    b.runRoot in w.dirs && w.dirs[b.runRoot].owner == Ours(b.nonce)
  }

  /** The directories of this boot made by an execution are exactly those still owned by one. */
  ghost predicate OwnersOk(w: World)
  {
    && w.boot in w.boots
    && w.removed <= w.created <= w.nonces && w.removed <= w.seenEmpty
    && (forall p | p in w.dirs :: p in w.made <==> w.dirs[p].owner.Ours?)
    && (forall p | p in w.dirs && w.dirs[p].owner.Ours? ::
          var n := w.dirs[p].owner.nonce; n in w.created && |n| == 32 && EndsWith(p, n))
  }

  /** What a durable record says about the world. */
  ghost predicate RecordOk(w: World, b: Binding)
  {
    && ValidRecord(b, b.runId) && b.nonce in w.nonces && b.bootId in w.boots
    && (!b.prepared ==> b.nonce in w.created)
    && (b.prepared && b.cleaned ==> b.nonce !in w.created)
    && (!b.prepared && b.emptyConfirmed ==> b.nonce in w.seenEmpty)
    && (!b.prepared && b.cleaned ==> b.nonce in w.removed)
    && (b.nonce in w.removed ==> !b.prepared && b.emptyConfirmed)
    && (b.bootId == w.boot && b.nonce in w.created ==> b.runRoot in w.made)
    && (b.bootId == w.boot && b.nonce in w.created && b.nonce !in w.removed ==> OwnRoot(w, b))
  }

  /** What the current call knows. */
  ghost predicate CallOk(w: World)
  {
    w.call.Idle? ||
    (var b := w.call.b;
     && w.disk.Some? && b.bootId == w.boot
     && match w.call
        case MakeRoot(_) => w.disk.value == b && PhaseOf(b) == Prepared && b.nonce !in w.created
        case ProbeRoot(_) => w.disk.value == b && PhaseOf(b) == Prepared && OwnRoot(w, b) && b.nonce in w.created
        case PublishRoot(_) => w.disk.value == b && PhaseOf(b) == Prepared && OwnRoot(w, b) && b.nonce in w.created
        case ReturnScope(_) => w.disk.value == b && PhaseOf(b) == Bound
        case LookAtRoot(_) => w.disk.value == b && !b.cleaned
        case KillRoot(_) => w.disk.value == b && !b.prepared && !b.cleaned && OwnRoot(w, b)
        case AwaitEmpty(_) => w.disk.value == b && !b.prepared && !b.cleaned && OwnRoot(w, b)
        case RecordEmpty(_) =>
          w.disk.value.(emptyConfirmed := true) == b && PhaseOf(b) == EmptyConfirmed && OwnRoot(w, b) &&
            b.nonce in w.seenEmpty
        case ListNested(_) => w.disk.value == b && PhaseOf(b) == EmptyConfirmed && OwnRoot(w, b)
        case RemoveTree(_, _) => w.disk.value == b && PhaseOf(b) == EmptyConfirmed && OwnRoot(w, b)
        case RecordCleaned(_) =>
          w.disk.value.(emptyConfirmed := true) == b && !b.cleaned &&
          if b.prepared then b.nonce !in w.created else b.nonce in w.removed
        case ReturnCleaned(_) => w.disk.value == b && PhaseOf(b) == Cleaned)
  }

  /**
   * A destructive act is safe: its root was made by the acting execution, and
   * removals follow a durable confirmation.
   */
  predicate SafeEffect(e: Effect)
  {
    e.owner == Ours(e.nonce) && (e.kind.Kill? || e.recordedEmpty)
  }

  ghost predicate EffectsOk(w: World)
  {
    forall e | e in w.effects :: SafeEffect(e)
  }

  ghost predicate Inv(w: World)
  {
    OwnersOk(w) && (w.disk.Some? ==> RecordOk(w, w.disk.value)) && CallOk(w) && EffectsOk(w)
  }

  lemma InitInv(w: World)
    requires Init(w)
    ensures Inv(w)
  {
    if w.disk.Some? {
      RootEndsWithNonce(w.disk.value);
    }
  }

  // ---- every step keeps it ----

  /** A root of this boot that exists under a published record is the one its execution made. */
  lemma RootIsOurs(w: World, b: Binding)
    requires OwnersOk(w) && RecordOk(w, b) && !b.prepared && b.bootId == w.boot && b.runRoot in w.dirs
    ensures OwnRoot(w, b)
  {
    RootEndsWithNonce(b);
    NonceIsDetermined(b.runRoot, w.dirs[b.runRoot].owner.nonce, b.nonce);
  }

  lemma BeginBindKeeps(w: World, a: Action)
    requires Inv(w) && a.BeginBind? && Enabled(w, a)
    ensures Inv(Apply(w, a))
  {
    assert ValidRecord(Intent(a.parent, a.runId, a.nonce, w.boot), a.runId);
  }

  lemma MkdirKeeps(w: World)
    requires Inv(w) && Enabled(w, Mkdir)
    ensures Inv(Apply(w, Mkdir))
  {
    RootEndsWithNonce(w.call.b);
  }

  /** The remaining steps of `bind` and the beginnings of `reconcile` and `retire`. */
  lemma BindStepKeeps(w: World, a: Action)
    requires Inv(w) && Enabled(w, a)
    requires a.Probe? || a.Publish? || a.BeginReconcile? || a.BeginRetire?
    ensures Inv(Apply(w, a))
  {
  }

  lemma LookKeeps(w: World)
    requires Inv(w) && Enabled(w, Look)
    ensures Inv(Apply(w, Look))
  {
    var b := w.call.b;
    if !b.prepared && b.runRoot in w.dirs {
      RootIsOurs(w, b);
    }
  }

  /** A step that leaves the directories and what was made of them. */
  lemma SameDirs(w: World, next: World)
    requires next == w.(disk := next.disk, call := next.call, seenEmpty := next.seenEmpty, effects := next.effects)
    requires OwnersOk(w) && w.seenEmpty <= next.seenEmpty
    ensures OwnersOk(next) && forall b :: RecordOk(w, b) ==> RecordOk(next, b)
  {
    hide ValidRecord;
  }

  lemma RetireStepKeeps(w: World, a: Action)
    requires Inv(w) && Enabled(w, a)
    requires a.KillTree? || a.SeeEmpty? || a.List?
    ensures Inv(Apply(w, a))
  {
    hide OwnersOk;
    hide RecordOk;
    hide Tree.DeepestFirst;
    SameDirs(w, Apply(w, a));
  }

  lemma WriteKeeps(w: World, a: Action)
    requires Inv(w) && Enabled(w, a)
    requires a.WriteEmpty? || a.WriteCleaned?
    ensures Inv(Apply(w, a))
  {
    hide OwnersOk;
    hide IsDelegatedParent;
    hide RunRootName;
    SameDirs(w, Apply(w, a));
  }

  lemma RemoveNextKeeps(w: World)
    requires Inv(w) && Enabled(w, RemoveNext)
    ensures Inv(Apply(w, RemoveNext))
  {
    hide ValidRecord;
  }

  /** The end of a call or of a boot. */
  lemma EndKeeps(w: World, a: Action)
    requires Inv(w) && Enabled(w, a) && (a.Stop? || a.Reboot?)
    ensures Inv(Apply(w, a))
  {
    hide ValidRecord;
  }

  /** Directories of others. */
  lemma OthersKeep(w: World, a: Action)
    requires Inv(w) && Enabled(w, a) && (a.ForeignMkdir? || a.ForeignRmdir?)
    ensures Inv(Apply(w, a))
  {
    hide ValidRecord;
  }

  /** Processes and nested cgroups may change anywhere. */
  lemma EditKeeps(w: World, path: string, dir: Dir)
    requires Inv(w) && path in w.dirs && dir.owner == w.dirs[path].owner
    ensures Inv(EditDir(w, path, dir))
  {
    hide ValidRecord;
    var next := EditDir(w, path, dir);
    assert forall p :: p in next.dirs <==> p in w.dirs;
    assert forall p | p in w.dirs :: next.dirs[p].owner == w.dirs[p].owner;
    assert forall b: Binding :: OwnRoot(next, b) <==> OwnRoot(w, b);
    assert w.disk.Some? ==> RecordOk(next, w.disk.value);
  }

  lemma StepKeeps(w: World, a: Action)
    requires Inv(w) && Enabled(w, a)
    ensures Inv(Apply(w, a))
  {
    hide ValidRecord;
    match a
    case BeginBind(_, _, _) => BeginBindKeeps(w, a);
    case Mkdir => MkdirKeeps(w);
    case Probe => BindStepKeeps(w, a);
    case Publish => BindStepKeeps(w, a);
    case BeginReconcile(_, _) => BindStepKeeps(w, a);
    case BeginRetire(_) => BindStepKeeps(w, a);
    case Look => LookKeeps(w);
    case RemoveNext => RemoveNextKeeps(w);
    case KillTree => RetireStepKeeps(w, a);
    case SeeEmpty => RetireStepKeeps(w, a);
    case WriteEmpty => WriteKeeps(w, a);
    case List(_) => RetireStepKeeps(w, a);
    case WriteCleaned => WriteKeeps(w, a);
    case SetPopulated(path, value) => EditKeeps(w, path, w.dirs[path].(populated := value));
    case NestedMkdir(path, p) => EditKeeps(w, path, w.dirs[path].(nested := w.dirs[path].nested + {p}));
    case NestedRmdir(path, p) => EditKeeps(w, path, w.dirs[path].(nested := w.dirs[path].nested - {p}));
    case Stop => EndKeeps(w, a);
    case Reboot(_) => EndKeeps(w, a);
    case _ => OthersKeep(w, a);
  }

  lemma {:induction false} RunKeeps(w: World, actions: seq<Action>)
    requires Inv(w) && Legal(w, actions)
    ensures Inv(Run(w, actions))
    decreases |actions|
  {
    if actions != [] {
      StepKeeps(w, actions[0]);
      RunKeeps(Apply(w, actions[0]), actions[1..]);
    }
  }

  // ---- the main results ----

  /**
   * No run ever kills or removes a directory under a root that the acting
   * execution did not make itself, and nothing is removed before emptiness
   * was durably confirmed; whatever crashes, reboots and others do.
   */
  lemma NoForeignRootIsTouched(w: World, actions: seq<Action>)
    requires Init(w) && Legal(w, actions)
    ensures forall e | e in Run(w, actions).effects :: e.owner == Ours(e.nonce) && (e.kind.Kill? || e.recordedEmpty)
  {
    InitInv(w);
    RunKeeps(w, actions);
  }

  /**
   * In every reachable state the record is valid and means what it says: a
   * published root of this boot exists unless its emptiness is recorded, and
   * a cleaned record means that the root was removed after being seen empty,
   * or was never made.
   */
  lemma RecordMeansWhatItSays(w: World, actions: seq<Action>)
    requires Init(w) && Legal(w, actions)
    ensures var now := Run(w, actions);
            now.disk.Some? ==>
              var b := now.disk.value;
              && ValidRecord(b, b.runId)
              && (PhaseOf(b) == Bound && b.bootId == now.boot ==> OwnRoot(now, b))
              && (b.cleaned ==> if b.prepared then b.nonce !in now.created
                                else b.nonce in now.created && b.nonce in now.seenEmpty && b.nonce in now.removed)
  {
    InitInv(w);
    RunKeeps(w, actions);
    var now := Run(w, actions);
    if now.disk.Some? && PhaseOf(now.disk.value) == Bound {
      assert now.disk.value.nonce !in now.removed;
    }
  }

  ghost predicate SameExecution(a: Binding, b: Binding)
  {
    a == b.(prepared := a.prepared, cleaned := a.cleaned, emptyConfirmed := a.emptyConfirmed)
  }

  /** One step changes the record of an execution along an edge, or replaces a finished one by a fresh intent. */
  lemma StepPhase(w: World, a: Action)
    requires Inv(w) && Enabled(w, a)
    ensures var next := Apply(w, a);
            && w.nonces <= next.nonces
            && (w.disk.Some? ==>
                  && next.disk.Some?
                  && var b, b' := w.disk.value, next.disk.value;
                     if b'.nonce == b.nonce then SameExecution(b, b') && PhaseEdge(PhaseOf(b), PhaseOf(b'))
                     else b.cleaned && PhaseOf(b') == Prepared && b'.nonce !in w.nonces)
            && (w.disk.None? && next.disk.Some? ==>
              PhaseOf(next.disk.value) == Prepared && next.disk.value.nonce !in w.nonces)
  {
    hide PathsMatch;
  }

  function Rank(p: Phase): nat
  {
    match p case Prepared => 0 case Bound => 1 case EmptyConfirmed => 2 case Cleaned => 3
  }

  /** An execution whose record was replaced never comes back. */
  lemma {:induction false} ReplacedForGood(w: World, actions: seq<Action>, nonce: string)
    requires Inv(w) && Legal(w, actions) && nonce in w.nonces
    requires w.disk.Some? ==> w.disk.value.nonce != nonce
    ensures var now := Run(w, actions); now.disk.Some? ==> now.disk.value.nonce != nonce
    decreases |actions|
  {
    if actions != [] {
      StepKeeps(w, actions[0]);
      StepPhase(w, actions[0]);
      ReplacedForGood(Apply(w, actions[0]), actions[1..], nonce);
    }
  }

  /** Over a whole run the record of one execution keeps its identity and its phase only moves forward. */
  lemma {:induction false} PhasesMoveForward(w: World, actions: seq<Action>)
    requires Inv(w) && Legal(w, actions) && w.disk.Some?
    ensures var now := Run(w, actions);
            && now.disk.Some?
            && (now.disk.value.nonce == w.disk.value.nonce ==>
                  SameExecution(w.disk.value, now.disk.value) &&
                    Rank(PhaseOf(w.disk.value)) <= Rank(PhaseOf(now.disk.value)))
    decreases |actions|
  {
    if actions != [] {
      var next := Apply(w, actions[0]);
      StepKeeps(w, actions[0]);
      StepPhase(w, actions[0]);
      PhasesMoveForward(next, actions[1..]);
      if next.disk.value.nonce != w.disk.value.nonce {
        ReplacedForGood(next, actions[1..], w.disk.value.nonce);
      }
    }
  }

  /** A new root can be bound and published wherever nothing exists. */
  lemma BindRun(w: World, parent: string, runId: string, nonce: string) returns (actions: seq<Action>)
    requires w.call.Idle? && Enabled(w, BeginBind(parent, runId, nonce))
    requires Intent(parent, runId, nonce, w.boot).runRoot !in w.dirs
    ensures Legal(w, actions)
    ensures var b := Intent(parent, runId, nonce, w.boot).(prepared := false);
            var now := Run(w, actions);
            && now.call.Idle? && now.disk == Some(b) && now.boot == w.boot
            && now.dirs == w.dirs[b.runRoot := Dir(Ours(nonce), false, {})]
  {
    hide Legal;
    hide Run;
    hide IsDelegatedParent;
    actions := [BeginBind(parent, runId, nonce)];
    RunOne(w, actions[0]);
    RunMore(w, actions, Mkdir);
    actions := actions + [Mkdir];
    RunMore(w, actions, Probe);
    actions := actions + [Probe];
    RunMore(w, actions, Publish);
    actions := actions + [Publish];
    RunMore(w, actions, Action.Stop);
    actions := actions + [Action.Stop];
  }

  /** A retirement of an empty root can stop just in front of its last record. */
  lemma RetireRun(w: World) returns (actions: seq<Action>)
    requires w.call.Idle? && w.disk.Some? && !w.disk.value.prepared && !w.disk.value.cleaned
    requires var b := w.disk.value;
             ValidBinding(b, w.boot, None, b.runId) && b.runRoot in w.dirs && w.dirs[b.runRoot].nested == {} &&
             !w.dirs[b.runRoot].populated
    ensures Legal(w, actions)
    ensures var b := w.disk.value.(emptyConfirmed := true);
            var now := Run(w, actions);
            now.call.Idle? && now.disk == Some(b) && now.boot == w.boot && now.dirs == w.dirs - {b.runRoot}
  {
    hide Legal;
    hide Run;
    hide ValidBinding;
    actions := [BeginReconcile(None, w.disk.value.runId)];
    RunOne(w, actions[0]);
    RunMore(w, actions, Look);
    actions := actions + [Look];
    RunMore(w, actions, KillTree);
    actions := actions + [KillTree];
    RunMore(w, actions, SeeEmpty);
    actions := actions + [SeeEmpty];
    RunMore(w, actions, WriteEmpty);
    actions := actions + [WriteEmpty];
    RunMore(w, actions, List([]));
    actions := actions + [List([])];
    RunMore(w, actions, RemoveNext);
    actions := actions + [RemoveNext];
    RunMore(w, actions, Action.Stop);
    actions := actions + [Action.Stop];
  }

  /** A directory at the root of a published record is taken for the root and killed, whoever made it. */
  lemma RootIsKilled(w: World)
    requires w.call.Idle? && w.disk.Some? && !w.disk.value.prepared && !w.disk.value.cleaned
    requires var b := w.disk.value; ValidBinding(b, w.boot, None, b.runId) && b.runRoot in w.dirs
    ensures var b := w.disk.value;
            var actions := [BeginReconcile(None, b.runId), Look, KillTree];
            && Legal(w, actions)
            && exists e :: e in Run(w, actions).effects && e.kind.Kill? && e.owner == w.dirs[b.runRoot].owner
  {
    hide Legal;
    hide Run;
    hide ValidBinding;
    var b := w.disk.value;
    var begin := BeginReconcile(None, b.runId);
    RunOne(w, begin);
    RunMore(w, [begin], Look);
    assert [begin] + [Look] == [begin, Look];
    RunMore(w, [begin, Look], KillTree);
    assert [begin, Look] + [KillTree] == [begin, Look, KillTree];
    var now := Run(w, [begin, Look, KillTree]);
    assert now.effects[|now.effects| - 1].owner == w.dirs[b.runRoot].owner;
  }

  /**
   * The assumption about reused paths is needed. From every start without a
   * record, a bind and a retirement that stops in front of its last record
   * are a run; a directory that someone else then makes at the removed root
   * would be taken for the root by the next reconciliation and killed.
   */
  lemma ReusedRootWouldBeKilled(w: World, parent: string, runId: string, nonce: string, dir: Dir)
    returns (before: seq<Action>)
    requires Init(w) && w.disk.None? && dir.owner == Foreign
    requires IsDelegatedParent(parent) && IsNonce(nonce) && nonce !in w.nonces && w.boot != ""
    requires Intent(parent, runId, nonce, w.boot).runRoot !in w.dirs
    ensures Legal(w, before)
    ensures var root := Intent(parent, runId, nonce, w.boot).runRoot;
            var now := Run(w, before);
            var reused := EditDir(now, root, dir);
            var actions := [BeginReconcile(None, runId), Look, KillTree];
            && root !in now.dirs && root in now.made && !Enabled(now, ForeignMkdir(root))
            && Legal(reused, actions) && exists e :: e in Run(reused, actions).effects && e.owner == Foreign
  {
    hide Legal;
    hide Run;
    hide Inv;
    var bind := BindRun(w, parent, runId, nonce);
    var bound := Run(w, bind);
    var retire := RetireRun(bound);
    RunConcat(w, bind, retire);
    before := bind + retire;
    var now := Run(w, before);
    var b := now.disk.value;
    InitInv(w);
    RunKeeps(w, before);
    RootWasMade(now);
    RootIsKilled(EditDir(now, b.runRoot, dir));
  }

  lemma RootWasMade(w: World)
    requires Inv(w) && w.disk.Some? && !w.disk.value.prepared && w.disk.value.bootId == w.boot
    ensures w.disk.value.runRoot in w.made
  {
  }
}
