/**
 * The calls of the ownership protocol as they run when nothing interrupts
 * them: code on the record file and the cgroup directories. Each call is
 * shown to be a run of the transition system, so what every run keeps, every
 * sequence of calls keeps.
 */
module CgroupHost {
  import opened Common
  import opened CgroupRecord
  import opened CgroupProtocol
  import opened CgroupSafety
  import Live = CgroupLiveness
  import Tree = CgroupTree

  datatype Outcome = NotBound | AlreadyCleaned | Cleaned | Failed

  /** What the occupancy file says when it is read. */
  datatype Reading = Populated | Empty | Unreadable

  /** Somewhere it says empty, and before that it could always be read. */
  predicate Drains(readings: seq<Reading>)
  {
    readings != [] && (readings[0].Empty? || (readings[0].Populated? && Drains(readings[1..])))
  }

  class Host {
    var disk: Option<Binding>
    var dirs: map<string, Dir>
    var boot: string
    ghost var world: World

    /** The fields are those of a world that keeps the invariant. */
    ghost predicate Valid()
      reads this
    {
      world.disk == disk && world.dirs == dirs && world.boot == boot && Inv(world)
    }

    /** A new host without a record. */
    constructor (boot: string)
      requires boot != ""
      ensures Valid() && world.call == Idle && disk == None && dirs == map[]
    {
      this.boot := boot;
      disk, dirs := None, map[];
      world := World(None, map[], boot, Idle, {boot}, {}, {}, {}, {}, {}, []);
    }

    /** Record one step of the transition system. */
    ghost method Take(a: Action, done: seq<Action>, start: World) returns (more: seq<Action>)
      requires Inv(world) && Enabled(world, a) && Legal(start, done) && Run(start, done) == world
      modifies this`world
      ensures world == Apply(old(world), a) && Inv(world)
      ensures Legal(start, more) && Run(start, more) == world
    {
      RunMore(start, done, a);
      StepKeeps(world, a);
      world := Apply(world, a);
      more := done + [a];
    }

    ghost method Nothing(start: World) returns (none: seq<Action>)
      ensures Legal(start, none) && Run(start, none) == start
    {
      none := [];
    }

    /**
     * Binds a run to a new root: intent first, then the directory, then the
     * publication. An existing directory is left alone and the intent stays;
     * so does a new one in which a process appears before the first look
     * (`early`) or before the second (`late`).
     */
    method Bind(parent: string, runId: string, nonce: string, early: bool, late: bool)
      returns (scope: Option<Scope>, ghost actions: seq<Action>)
      requires Valid() && world.call == Idle
      requires IsDelegatedParent(parent) && IsNonce(nonce) && nonce !in world.nonces && boot != ""
      modifies this
      ensures Valid() && world.call == Idle && boot == old(boot)
      ensures Legal(old(world), actions) && Run(old(world), actions) == world
      ensures var b := Intent(parent, runId, nonce, boot);
              if old(disk).Some? && !old(disk).value.cleaned then
                scope == None && disk == old(disk) && dirs == old(dirs)
              else RootMade(b, old(dirs), early || late, scope, disk, dirs)
    {
      hide Inv;
      hide Legal;
      hide Run;
      ghost var start := world;
      actions := Nothing(start);
      if disk.Some? && !disk.value.cleaned { return None, actions; }
      var b := Intent(parent, runId, nonce, boot);
      disk := Some(b);
      actions := Take(BeginBind(parent, runId, nonce), actions, start);
      ghost var more;
      scope, more := MakeRoot(b, early, late);
      RunConcat(start, actions, more);
      actions := actions + more;
    }

    /** The rest of `bind` after the intent is recorded. */
    method MakeRoot(intent: Binding, early: bool, late: bool) returns (scope: Option<Scope>, ghost actions: seq<Action>)
      requires Valid() && world.call == Call.MakeRoot(intent)
      modifies this
      ensures Valid() && world.call == Idle && boot == old(boot)
      ensures Legal(old(world), actions) && Run(old(world), actions) == world
      ensures RootMade(intent, old(dirs), early || late, scope, disk, dirs)
    {
      hide Inv;
      hide Legal;
      hide Run;
      ghost var start := world;
      actions := Nothing(start);
      CallFacts(world);
      if intent.runRoot in dirs {
        actions := Take(Action.Stop, actions, start);
        return None, actions;
      }
      dirs := dirs[intent.runRoot := Dir(Ours(intent.nonce), false, {})];
      actions := Take(Mkdir, actions, start);
      ghost var more;
      scope, more := ProbeRoot(intent, early, late);
      RunConcat(start, actions, more);
      actions := actions + more;
    }

    /** The new root is looked at, its kill file tried, and looked at again; then it is published. */
    method ProbeRoot(intent: Binding, early: bool, late: bool)
      returns (scope: Option<Scope>, ghost actions: seq<Action>)
      requires Valid() && world.call == Call.ProbeRoot(intent) && disk == Some(intent) && intent.prepared
      requires intent.runRoot in dirs && dirs[intent.runRoot] == Dir(Ours(intent.nonce), false, {})
      modifies this
      ensures Valid() && world.call == Idle && boot == old(boot)
      ensures Legal(old(world), actions) && Run(old(world), actions) == world
      ensures dirs == old(dirs)[intent.runRoot := Dir(Ours(intent.nonce), early || late, {})]
      ensures if early || late then scope == None && disk == old(disk)
              else disk == Some(intent.(prepared := false)) && scope == ScopeOf(disk.value) != None
    {
      hide Inv;
      hide Legal;
      hide Run;
      ghost var start := world;
      actions := Nothing(start);
      if early { actions := Occupy(intent, true, actions, start); }
      if dirs[intent.runRoot].populated {
        actions := Take(Action.Stop, actions, start);
        return None, actions;
      }
      actions := Take(Probe, actions, start);
      ghost var more;
      scope, more := PublishRoot(intent, late);
      RunConcat(start, actions, more);
      actions := actions + more;
    }

    /** After the kill file was tried. */
    method PublishRoot(intent: Binding, late: bool) returns (scope: Option<Scope>, ghost actions: seq<Action>)
      requires Valid() && world.call == Call.PublishRoot(intent) && disk == Some(intent) && intent.prepared
      requires intent.runRoot in dirs && !dirs[intent.runRoot].populated
      modifies this
      ensures Valid() && world.call == Idle && boot == old(boot)
      ensures Legal(old(world), actions) && Run(old(world), actions) == world
      ensures dirs == old(dirs)[intent.runRoot := old(dirs)[intent.runRoot].(populated := late)]
      ensures if late then scope == None && disk == old(disk)
              else disk == Some(intent.(prepared := false)) && scope == ScopeOf(disk.value) != None
    {
      hide Inv;
      hide Legal;
      hide Run;
      ghost var start := world;
      actions := Nothing(start);
      if late { actions := Occupy(intent, true, actions, start); }
      if dirs[intent.runRoot].populated {
        actions := Take(Action.Stop, actions, start);
        return None, actions;
      }
      var b := intent.(prepared := false);
      disk := Some(b);
      actions := Take(Publish, actions, start);
      actions := Take(Action.Stop, actions, start);
      scope := ScopeOf(b);
    }

    /** The root becomes occupied or empty. */
    method Occupy(b: Binding, value: bool, ghost done: seq<Action>, ghost start: World)
      returns (ghost more: seq<Action>)
      requires Valid() && b.runRoot in dirs && Legal(start, done) && Run(start, done) == world
      modifies this`dirs, this`world
      ensures Valid() && world == old(world).(dirs := dirs)
      ensures dirs == old(dirs)[b.runRoot := old(dirs)[b.runRoot].(populated := value)]
      ensures Legal(start, more) && Run(start, more) == world
    {
      hide Inv;
      hide Legal;
      hide Run;
      dirs := dirs[b.runRoot := dirs[b.runRoot].(populated := value)];
      more := Take(SetPopulated(b.runRoot, value), done, start);
    }

    /**
     * Kill, then poll until the tree is empty. The occupancy file reads
     * `readings`, one after the other; the time is up when they end.
     */
    method KillAndConfirm(b: Binding, readings: seq<Reading>) returns (ok: bool, ghost actions: seq<Action>)
      requires Valid() && world.call == KillRoot(b) && b.runRoot in dirs
      modifies this
      ensures Valid() && boot == old(boot) && disk == old(disk)
      ensures Legal(old(world), actions) && Run(old(world), actions) == world
      ensures ok <==> Drains(readings)
      ensures Occupied(b, old(dirs), dirs)
      ensures ok ==> world.call == RecordEmpty(b.(emptyConfirmed := true)) && !dirs[b.runRoot].populated
      ensures !ok ==> !world.call.Idle?
    {
      hide Inv;
      hide Legal;
      hide Run;
      ghost var start, before := world, dirs;
      actions := Nothing(start);
      actions := Take(KillTree, actions, start);
      assert readings[0..] == readings;
      for i := 0 to |readings|
        invariant Valid() && boot == old(boot) && disk == old(disk) && Occupied(b, before, dirs)
        invariant world.call == AwaitEmpty(b)
        invariant Legal(start, actions) && Run(start, actions) == world
        invariant Drains(readings) == Drains(readings[i..])
      {
        assert readings[i..][0] == readings[i] && readings[i..][1..] == readings[i + 1..];
        if readings[i].Unreadable? { return false, actions; }
        actions := Occupy(b, readings[i].Populated?, actions, start);
        if !dirs[b.runRoot].populated {
          actions := Take(SeeEmpty, actions, start);
          return true, actions;
        }
      }
      ok := false;
    }

    /** Remove one listed cgroup, unless it is gone; it must have no child. */
    method RemoveOne(b: Binding, todo: seq<Tree.Path>, ghost done: seq<Action>, ghost start: World)
      returns (ok: bool, ghost more: seq<Action>)
      requires Valid() && todo != [] && world.call == RemoveTree(b, todo) && b.runRoot in dirs
      requires Legal(start, done) && Run(start, done) == world
      modifies this`dirs, this`world
      ensures Valid() && Legal(start, more) && Run(start, more) == world
      ensures var dir := old(dirs)[b.runRoot];
              && (ok <==> (todo[0] in dir.nested ==> Tree.Childless(dir.nested, todo[0])))
              && dirs == (if ok then old(dirs)[b.runRoot := dir.(nested := dir.nested - {todo[0]})] else old(dirs))
              && world.call == (if ok then RemoveTree(b, todo[1..]) else old(world).call)
    {
      hide Inv;
      hide Legal;
      hide Run;
      more := done;
      var p, nested := todo[0], dirs[b.runRoot].nested;
      if p in nested {
        if exists q | q in nested :: p < q {
          return false, more;
        }
        dirs := dirs[b.runRoot := dirs[b.runRoot].(nested := nested - {p})];
      } else {
        assert nested - {p} == nested;
        assert dirs == dirs[b.runRoot := dirs[b.runRoot].(nested := nested - {p})];
      }
      more := Take(RemoveNext, more, start);
      ok := true;
    }

    /** Remove listed cgroups in their order, whatever the tree is by now. */
    method RemoveNestedCgroups(b: Binding, order: seq<Tree.Path>) returns (ok: bool, ghost actions: seq<Action>)
      requires Valid() && world.call == RemoveTree(b, order) && b.runRoot in dirs
      modifies this
      ensures Valid() && boot == old(boot) && disk == old(disk)
      ensures Legal(old(world), actions) && Run(old(world), actions) == world
      ensures var swept := Tree.Swept(old(dirs)[b.runRoot].nested, order);
              ok == swept.ok && dirs == old(dirs)[b.runRoot := old(dirs)[b.runRoot].(nested := swept.left)]
      ensures if ok then world.call == RemoveTree(b, []) else !world.call.Idle?
    {
      hide Inv;
      hide Legal;
      hide Run;
      hide Enabled;
      hide Apply;
      hide Tree.Childless;
      ghost var start, before := world, dirs;
      actions := Nothing(start);
      var i := 0;
      assert order[0..] == order;
      while i < |order|
        invariant 0 <= i <= |order| && Valid() && boot == old(boot) && disk == old(disk)
        invariant world.call == RemoveTree(b, order[i..]) && b.runRoot in dirs
        invariant dirs == before[b.runRoot := before[b.runRoot].(nested := dirs[b.runRoot].nested)]
        invariant var all := Tree.Swept(before[b.runRoot].nested, order);
                  var rest := Tree.Swept(dirs[b.runRoot].nested, order[i..]);
                  all.ok == rest.ok && all.left == rest.left
        invariant Legal(start, actions) && Run(start, actions) == world
      {
        assert order[i..][0] == order[i] && order[i..][1..] == order[i + 1..];
        ghost var nested := dirs[b.runRoot].nested;
        assert order[i] !in nested ==> nested - {order[i]} == nested;
        ok, actions := RemoveOne(b, order[i..], actions, start);
        if !ok {
          return false, actions;
        }
        i := i + 1;
      }
      assert order[i..] == [];
      ok := true;
    }

    /**
     * After the confirmation is recorded: everything that was listed below the root,
     * then the root, if it is childless.
     */
    method RemoveAll(b: Binding, entries: seq<Tree.Entry>)
      returns (ok: bool, ghost log: seq<Tree.Path>, ghost actions: seq<Action>)
      requires Valid() && world.call == ListNested(b) && b.runRoot in dirs && !dirs[b.runRoot].populated
      requires Tree.DistinctNames(entries)
      modifies this
      ensures Valid() && boot == old(boot) && disk == old(disk)
      ensures Legal(old(world), actions) && Run(old(world), actions) == world
      ensures ok <==> old(dirs)[b.runRoot].nested <= Tree.Descendants(entries, [])
      ensures ok ==> world.call == RecordCleaned(b) && dirs == old(dirs) - {b.runRoot}
      ensures !ok ==> !world.call.Idle? && Thinned(b, old(dirs), dirs)
      ensures Tree.IsRemoval(old(dirs)[b.runRoot].nested, log, if ok then {} else dirs[b.runRoot].nested)
      ensures forall p | p in log :: Tree.StrictlyInside([], p) && p in Tree.Descendants(entries, [])
    {
      hide Inv;
      hide Legal;
      hide Run;
      hide Tree.IsRemoval;
      hide Tree.Childless;
      hide Tree.Swept;
      ghost var start, before, nested := world, dirs, dirs[b.runRoot].nested;
      var order := Tree.SortDeepestFirst(Tree.Collect(entries, []));
      Tree.CollectedIsRemovalOrder(entries, []);
      Tree.SweptOnceAndChildless(nested, order);
      Tree.SweptClean(nested, order, Tree.Descendants(entries, []));
      log := Tree.Swept(nested, order).log;
      actions := Nothing(start);
      actions := Take(List(order), actions, start);
      ghost var more;
      ok, more := RemoveNestedCgroups(b, order);
      RunConcat(start, actions, more);
      actions := actions + more;
      if !ok || dirs[b.runRoot].nested != {} {
        return false, log, actions;
      }
      dirs := dirs - {b.runRoot};
      assert dirs == before - {b.runRoot};
      actions := Take(RemoveNext, actions, start);
    }

    /** Retirement of a root that exists, up to the last record. */
    method RetireRoot(b: Binding, entries: seq<Tree.Entry>, readings: seq<Reading>)
      returns (ok: bool, ghost actions: seq<Action>)
      requires Valid() && world.call == KillRoot(b) && b.runRoot in dirs
      requires Tree.DistinctNames(entries)
      modifies this
      ensures Valid() && boot == old(boot)
      ensures Legal(old(world), actions) && Run(old(world), actions) == world
      ensures ok <==> Drains(readings) && old(dirs)[b.runRoot].nested <= Tree.Descendants(entries, [])
      ensures if ok then world.call == RecordCleaned(b.(emptyConfirmed := true)) && dirs == old(dirs) - {b.runRoot}
              else !world.call.Idle? && StoppedAt(b, Drains(readings), old(disk), old(dirs), disk, dirs)
    {
      hide Inv;
      hide Legal;
      hide Run;
      hide Tree.IsRemoval;
      ghost var start, before := world, dirs;
      ok, actions := KillAndConfirm(b, readings);
      if !ok { return; }
      ghost var quiet := dirs;
      var b1 := b.(emptyConfirmed := true);
      disk := Some(b1);
      actions := Take(WriteEmpty, actions, start);
      ghost var log, more;
      ok, log, more := RemoveAll(b1, entries);
      RunConcat(start, actions, more);
      actions := actions + more;
      if ok {
        assert dirs == before - {b.runRoot};
      } else {
        ThinnedAfter(b, before, quiet, dirs);
      }
    }

    /** Retires a validated binding. */
    method RetireBinding(b: Binding, entries: seq<Tree.Entry>, readings: seq<Reading>)
      returns (ok: bool, ghost actions: seq<Action>)
      requires Valid() && world.call == LookAtRoot(b)
      requires Tree.DistinctNames(entries)
      modifies this
      ensures Valid() && world.call == Idle && boot == old(boot)
      ensures Legal(old(world), actions) && Run(old(world), actions) == world
      ensures ok <==> CanRetire(b, old(dirs), Drains(readings), Tree.Descendants(entries, []))
      ensures Retired(b, ok, Drains(readings), old(disk), old(dirs), disk, dirs)
    {
      hide Inv;
      hide Legal;
      hide Run;
      ghost var start, before := world, dirs;
      actions := Nothing(start);
      var present := b.runRoot in dirs;
      ok := if b.prepared then !present else present || b.emptyConfirmed;
      if ok {
        actions := Take(Look, actions, start);
        if present {
          ghost var more;
          ok, more := RetireRoot(b, entries, readings);
          RunConcat(start, actions, more);
          actions := actions + more;
        } else {
          assert dirs == before - {b.runRoot};
        }
      }
      if ok {
        disk := Some(b.(emptyConfirmed := true, cleaned := true));
        actions := Take(WriteCleaned, actions, start);
      }
      actions := Take(Action.Stop, actions, start);
    }

    /** Reconciles whatever an earlier execution left behind. */
    method Reconcile(configured: Option<string>, runId: string, entries: seq<Tree.Entry>, readings: seq<Reading>)
      returns (r: Outcome, ghost actions: seq<Action>)
      requires Valid() && world.call == Idle
      requires Tree.DistinctNames(entries)
      modifies this
      ensures Valid() && world.call == Idle && boot == old(boot)
      ensures Legal(old(world), actions) && Run(old(world), actions) == world
      ensures match Live.ReconcileVerdict(old(disk), boot, configured, runId)
              case NotBound => r == NotBound && disk == old(disk) && dirs == old(dirs)
              case AlreadyCleaned => r == AlreadyCleaned && disk == old(disk) && dirs == old(dirs)
              case Refused => r == Failed && disk == old(disk) && dirs == old(dirs)
              case Proceeds =>
                var b := old(disk).value;
                && (r == Outcome.Cleaned || r == Failed)
                && (r == Outcome.Cleaned <==>
                      CanRetire(b, old(dirs), Drains(readings), Tree.Descendants(entries, [])))
                && Retired(b, r == Outcome.Cleaned, Drains(readings), old(disk), old(dirs), disk, dirs)
    {
      hide Inv;
      hide Legal;
      hide Run;
      hide ValidRecord;
      ghost var start := world;
      actions := Nothing(start);
      if disk.None? { return NotBound, actions; }
      if !ValidBinding(disk.value, boot, configured, runId) { return Failed, actions; }
      if disk.value.cleaned { return AlreadyCleaned, actions; }
      actions := Take(BeginReconcile(configured, runId), actions, start);
      ghost var more;
      var ok;
      ok, more := RetireBinding(disk.value, entries, readings);
      RunConcat(start, actions, more);
      actions := actions + more;
      r := if ok then Outcome.Cleaned else Failed;
    }

    /** Retires the scope of a finished execution, if the record is still its own. */
    method RetireScope(scope: Scope, entries: seq<Tree.Entry>, readings: seq<Reading>)
      returns (ok: bool, ghost actions: seq<Action>)
      requires Valid() && world.call == Idle
      requires Tree.DistinctNames(entries)
      modifies this
      ensures Valid() && world.call == Idle && boot == old(boot)
      ensures Legal(old(world), actions) && Run(old(world), actions) == world
      ensures var mine := && old(disk).Some? && ValidBinding(old(disk).value, boot, None, scope.runId)
                          && ScopeOf(old(disk).value) == Some(scope);
              if !mine then !ok && disk == old(disk) && dirs == old(dirs)
              else if old(disk).value.cleaned then ok && disk == old(disk) && dirs == old(dirs)
              else
                var b := old(disk).value;
                && (ok <==> CanRetire(b, old(dirs), Drains(readings), Tree.Descendants(entries, [])))
                && Retired(b, ok, Drains(readings), old(disk), old(dirs), disk, dirs)
    {
      hide Inv;
      hide Legal;
      hide Run;
      hide ValidRecord;
      ghost var start := world;
      actions := Nothing(start);
      if disk.None? || !ValidBinding(disk.value, boot, None, scope.runId) { return false, actions; }
      if ScopeOf(disk.value) != Some(scope) { return false, actions; }
      if disk.value.cleaned { return true, actions; }
      actions := Take(BeginRetire(scope), actions, start);
      ghost var more;
      ok, more := RetireBinding(disk.value, entries, readings);
      RunConcat(start, actions, more);
      actions := actions + more;
    }
  }

  // ---- what the calls leave behind ----

  /** After `bind`: published, or stopped with the intent on record and nobody's directory touched. */
  ghost predicate RootMade(
    intent: Binding, before: map<string, Dir>, occupied: bool,
    scope: Option<Scope>, disk: Option<Binding>, dirs: map<string, Dir>)
  {
    if intent.runRoot in before then scope == None && disk == Some(intent) && dirs == before
    else
      && dirs == before[intent.runRoot := Dir(Ours(intent.nonce), occupied, {})]
      && if occupied then scope == None && disk == Some(intent)
         else disk == Some(intent.(prepared := false)) && scope == ScopeOf(disk.value) != None
  }

  lemma CallFacts(w: World)
    requires Inv(w) && w.call.MakeRoot?
    ensures w.disk == Some(w.call.b) && w.call.b.prepared
  {
  }

  /** The same directories, with fewer cgroups below the root. */
  ghost predicate Thinned(b: Binding, before: map<string, Dir>, after: map<string, Dir>)
  {
    && b.runRoot in before && b.runRoot in after && after[b.runRoot].nested <= before[b.runRoot].nested
    && after == before[b.runRoot := before[b.runRoot].(nested := after[b.runRoot].nested)]
  }

  /** The same directories, with the root perhaps occupied or no longer. */
  ghost predicate Occupied(b: Binding, before: map<string, Dir>, after: map<string, Dir>)
  {
    && b.runRoot in before && b.runRoot in after
    && after == before[b.runRoot := before[b.runRoot].(populated := after[b.runRoot].populated)]
  }

  /**
   * Where a retirement stops: at the kill, with nothing but the occupancy
   * changed, or at the removal, with emptiness on record.
   */
  ghost predicate StoppedAt(
    b: Binding, drained: bool, oldDisk: Option<Binding>, before: map<string, Dir>, disk: Option<Binding>,
      dirs: map<string, Dir>)
  {
    if !drained then disk == oldDisk && Occupied(b, before, dirs)
    else
      && disk == Some(b.(emptyConfirmed := true)) && b.runRoot in before
      && Thinned(b, before[b.runRoot := before[b.runRoot].(populated := false)], dirs)
  }

  lemma ThinnedAfter(b: Binding, before: map<string, Dir>, quiet: map<string, Dir>, after: map<string, Dir>)
    requires b.runRoot in before && quiet == before[b.runRoot := before[b.runRoot].(populated := false)]
    requires Thinned(b.(emptyConfirmed := true), quiet, after)
    ensures Thinned(b, before[b.runRoot := before[b.runRoot].(populated := false)], after)
  {
  }

  /**
   * When a retirement succeeds; `drains` says that the tree is seen empty in
   * time, and `listed` is what was listed below the root.
   */
  ghost predicate CanRetire(b: Binding, dirs: map<string, Dir>, drains: bool, listed: set<Tree.Path>)
  {
    if b.prepared then b.runRoot !in dirs
    else if b.runRoot in dirs then drains && dirs[b.runRoot].nested <= listed
    else b.emptyConfirmed
  }

  /** What a retirement leaves: a cleaned record and no root, or what it had when it stopped. */
  ghost predicate Retired(
    b: Binding, ok: bool, drains: bool, oldDisk: Option<Binding>, before: map<string, Dir>,
    disk: Option<Binding>, dirs: map<string, Dir>)
  {
    if ok then disk == Some(b.(emptyConfirmed := true, cleaned := true)) && dirs == before - {b.runRoot}
    else if b.prepared || b.runRoot !in before then disk == oldDisk && dirs == before
    else StoppedAt(b, drains, oldDisk, before, disk, dirs)
  }
}
