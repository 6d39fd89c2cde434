/**
 * The crash-safe ownership protocol as a transition system: a durable record
 * that is only ever replaced atomically, the cgroup directories of the host
 * with their creators, the current boot, and the progress of the one call
 * that holds the execution lease. A call can stop between any two steps, by
 * an error or by a crash; the environment acts at any time.
 */
module CgroupProtocol {
  import opened Common
  import opened CgroupRecord
  import Tree = CgroupTree

  /** Who made a directory: an execution of this protocol, or anyone else. */
  datatype Owner = Foreign | Ours(nonce: string)

  /** A cgroup below a delegated parent, with its nested cgroups by relative path. */
  datatype Dir = Dir(owner: Owner, populated: bool, nested: set<Tree.Path>)

  /** Where the current call is; `b` is its copy of the binding. */
  datatype Call =
    | Idle
    | MakeRoot(b: Binding)     // intent recorded; create_dir comes next
    | ProbeRoot(b: Binding)    // directory made; check that it is empty and try the kill file
    | PublishRoot(b: Binding)  // kill file tried; check again and publish
    | ReturnScope(b: Binding)  // published
    | LookAtRoot(b: Binding)   // binding validated; see whether the root exists
    | KillRoot(b: Binding)     // root exists; kill
    | AwaitEmpty(b: Binding)   // killed; wait until it is empty
    | RecordEmpty(b: Binding)  // seen empty; record that
    | ListNested(b: Binding)   // recorded; list the nested cgroups
    | RemoveTree(b: Binding, todo: seq<Tree.Path>)  // remove them, then the root
    | RecordCleaned(b: Binding)  // nothing is left; record that
    | ReturnCleaned(b: Binding)

  datatype EffectKind = Kill | RemoveNested(path: Tree.Path) | RemoveRoot

  /** A destructive act: for which execution, on which root, made by whom, and what the durable record then said. */
  datatype Effect = Effect(kind: EffectKind, nonce: string, root: string, owner: Owner, recordedEmpty: bool)

  datatype World = World(
    disk: Option<Binding>, dirs: map<string, Dir>, boot: string, call: Call,
    // history
    boots: set<string>, nonces: set<string>,  // used so far
    made: set<string>,                        // roots made by create_dir in this boot
    created: set<string>, seenEmpty: set<string>, removed: set<string>,  // by nonce
    effects: seq<Effect>)

  datatype Action =
    | BeginBind(parent: string, runId: string, nonce: string)
    | Mkdir | Probe | Publish
    | BeginReconcile(configured: Option<string>, runId: string)
    | BeginRetire(scope: Scope)
    | Look | KillTree | SeeEmpty | WriteEmpty | List(todo: seq<Tree.Path>) | RemoveNext | WriteCleaned
    | Stop
    | Reboot(boot: string)
    | ForeignMkdir(path: string) | ForeignRmdir(path: string)
    | SetPopulated(path: string, value: bool)
    | NestedMkdir(path: string, nested: Tree.Path) | NestedRmdir(path: string, nested: Tree.Path)

  /** The record that `bind` writes before it makes anything. */
  function Intent(parent: string, runId: string, nonce: string, boot: string): Binding
  {
    Binding(BINDING_VERSION, runId, nonce, parent, parent + "/" + RunRootName(runId, nonce), boot, true, false, false)
  }

  /** The steps of a call, in the order of the code, and the assumptions on the environment. */
  ghost predicate Enabled(w: World, a: Action)
  {
    match a
    // bind: only over no record or a cleaned one, with a fresh nonce
    case BeginBind(parent, runId, nonce) =>
      w.call.Idle? && (w.disk.Some? ==> w.disk.value.cleaned) &&
      IsDelegatedParent(parent) && IsNonce(nonce) && nonce !in w.nonces && w.boot != ""
    case Mkdir => w.call.MakeRoot? && w.call.b.runRoot !in w.dirs
    case Probe => w.call.ProbeRoot? && w.call.b.runRoot in w.dirs && !w.dirs[w.call.b.runRoot].populated
    case Publish => w.call.PublishRoot? && w.call.b.runRoot in w.dirs && !w.dirs[w.call.b.runRoot].populated
    // reconcile and retire: only a validated binding that is not cleaned
    case BeginReconcile(configured, runId) =>
      w.call.Idle? && w.disk.Some? && ValidBinding(w.disk.value, w.boot, configured, runId) && !w.disk.value.cleaned
    case BeginRetire(scope) =>
      w.call.Idle? && w.disk.Some? && ValidBinding(w.disk.value, w.boot, None, scope.runId) && !w.disk.value.cleaned &&
      ScopeOf(w.disk.value) == Some(scope)
    case Look =>
      w.call.LookAtRoot? &&
      var b := w.call.b;
      if b.prepared then b.runRoot !in w.dirs else b.runRoot in w.dirs || b.emptyConfirmed
    case KillTree => w.call.KillRoot? && w.call.b.runRoot in w.dirs
    case SeeEmpty => w.call.AwaitEmpty? && w.call.b.runRoot in w.dirs && !w.dirs[w.call.b.runRoot].populated
    case WriteEmpty => w.call.RecordEmpty?
    // a listing, deepest first; the nested cgroups may be others by the time they are removed
    case List(todo) => w.call.ListNested? && NoDuplicates(todo) && Tree.DeepestFirst(todo)
    case RemoveNext =>
      w.call.RemoveTree? && w.call.b.runRoot in w.dirs &&
      var dir := w.dirs[w.call.b.runRoot];
      if w.call.todo == [] then dir.nested == {} && !dir.populated
      else w.call.todo[0] in dir.nested ==> Tree.Childless(dir.nested, w.call.todo[0])
    case WriteCleaned => w.call.RecordCleaned?
    // an error return or a crash
    case Stop => !w.call.Idle?
    case Reboot(boot) => boot != "" && boot !in w.boots
    // nobody else makes or removes a root that an execution made in this boot
    case ForeignMkdir(path) => path !in w.dirs && path !in w.made
    case ForeignRmdir(path) => path in w.dirs && w.dirs[path].owner.Foreign?
    // processes and nested cgroups come and go
    case SetPopulated(path, _) => path in w.dirs
    case NestedMkdir(path, p) => path in w.dirs && p != []
    case NestedRmdir(path, p) => path in w.dirs && p in w.dirs[path].nested
  }

  function Log(w: World, kind: EffectKind, b: Binding): seq<Effect>
    requires b.runRoot in w.dirs
  {
    w.effects + [Effect(kind, b.nonce, b.runRoot, w.dirs[b.runRoot].owner, w.disk.Some? && w.disk.value.emptyConfirmed)]
  }

  function EditDir(w: World, path: string, dir: Dir): World
  {
    w.(dirs := w.dirs[path := dir])
  }

  ghost function Apply(w: World, a: Action): World
    requires Enabled(w, a)
  {
    match a
    case BeginBind(parent, runId, nonce) =>
      var b := Intent(parent, runId, nonce, w.boot);
      w.(disk := Some(b), call := MakeRoot(b), nonces := w.nonces + {nonce})
    case Mkdir =>
      var b := w.call.b;
      w.(dirs := w.dirs[b.runRoot := Dir(Ours(b.nonce), false, {})], call := ProbeRoot(b),
         made := w.made + {b.runRoot}, created := w.created + {b.nonce})
    case Probe => w.(effects := Log(w, Kill, w.call.b), call := PublishRoot(w.call.b))
    case Publish =>
      var b := w.call.b.(prepared := false);
      w.(disk := Some(b), call := ReturnScope(b))
    case BeginReconcile(_, _) => w.(call := LookAtRoot(w.disk.value))
    case BeginRetire(_) => w.(call := LookAtRoot(w.disk.value))
    case Look =>
      var b := w.call.b;
      if b.prepared then w.(call := RecordCleaned(b.(emptyConfirmed := true)))
      else if b.runRoot in w.dirs then w.(call := KillRoot(b))
      else w.(call := RecordCleaned(b))
    case KillTree => w.(effects := Log(w, Kill, w.call.b), call := AwaitEmpty(w.call.b))
    case SeeEmpty =>
      w.(seenEmpty := w.seenEmpty + {w.call.b.nonce}, call := RecordEmpty(w.call.b.(emptyConfirmed := true)))
    case WriteEmpty => w.(disk := Some(w.call.b), call := ListNested(w.call.b))
    case List(todo) => w.(call := RemoveTree(w.call.b, todo))
    case RemoveNext =>
      var b := w.call.b;
      var dir := w.dirs[b.runRoot];
      if w.call.todo == [] then
        w.(effects := Log(w, RemoveRoot, b), dirs := w.dirs - {b.runRoot}, removed := w.removed + {b.nonce},
           call := RecordCleaned(b))
      else
        var p := w.call.todo[0];
        var next := RemoveTree(b, w.call.todo[1..]);
        if p in dir.nested then
          w.(effects := Log(w, RemoveNested(p), b), dirs := w.dirs[b.runRoot := dir.(nested := dir.nested - {p})],
            call := next)
        else w.(call := next)
    case WriteCleaned =>
      var b := w.call.b.(cleaned := true);
      w.(disk := Some(b), call := ReturnCleaned(b))
    case Stop => w.(call := Idle)
    // a reboot ends every process and every cgroup
    case Reboot(boot) => w.(boot := boot, boots := w.boots + {boot}, dirs := map[], made := {}, call := Idle)
    case ForeignMkdir(path) => EditDir(w, path, Dir(Foreign, false, {}))
    case ForeignRmdir(path) => w.(dirs := w.dirs - {path})
    case SetPopulated(path, value) => EditDir(w, path, w.dirs[path].(populated := value))
    case NestedMkdir(path, p) => EditDir(w, path, w.dirs[path].(nested := w.dirs[path].nested + {p}))
    case NestedRmdir(path, p) => EditDir(w, path, w.dirs[path].(nested := w.dirs[path].nested - {p}))
  }

  /** A run: every action is enabled where it is taken. */
  ghost predicate Legal(w: World, actions: seq<Action>)
    decreases |actions|
  {
    actions == [] || (Enabled(w, actions[0]) && Legal(Apply(w, actions[0]), actions[1..]))
  }

  ghost function Run(w: World, actions: seq<Action>): World
    requires Legal(w, actions)
    decreases |actions|
  {
    if actions == [] then w else Run(Apply(w, actions[0]), actions[1..])
  }

  /** Runs compose. */
  lemma {:induction false} RunConcat(w: World, a: seq<Action>, b: seq<Action>)
    requires Legal(w, a) && Legal(Run(w, a), b)
    ensures Legal(w, a + b) && Run(w, a + b) == Run(Run(w, a), b)
    decreases |a|
  {
    hide Enabled;
    hide Apply;
    if a == [] {
      assert a + b == b;
    } else {
      assert (a + b)[0] == a[0] && (a + b)[1..] == a[1..] + b;
      RunConcat(Apply(w, a[0]), a[1..], b);
    }
  }

  lemma RunOne(w: World, a: Action)
    requires Enabled(w, a)
    ensures Legal(w, [a]) && Run(w, [a]) == Apply(w, a)
  {
    assert [a][1..] == [];
  }

  lemma RunMore(w: World, done: seq<Action>, a: Action)
    requires Legal(w, done) && Enabled(Run(w, done), a)
    ensures Legal(w, done + [a]) && Run(w, done + [a]) == Apply(Run(w, done), a)
  {
    RunOne(Run(w, done), a);
    RunConcat(w, done, [a]);
  }

  /**
   * Before the first call: no record, or a legacy record of version 1, which
   * is always published, in any phase, with the root its execution made
   * unless that was removed.
   */
  ghost predicate Init(w: World)
  {
    && w.call.Idle? && w.effects == [] && w.boot in w.boots
    && if w.disk.None? then
         && w.created == w.seenEmpty == w.removed == {} && w.made == {}
         && forall p | p in w.dirs :: w.dirs[p].owner.Foreign?
       else
         var b := w.disk.value;
         && ValidRecord(b, b.runId) && b.version == 1
         && b.bootId in w.boots && b.nonce in w.nonces && w.created == {b.nonce}
         && w.seenEmpty == (if b.emptyConfirmed then {b.nonce} else {}) && w.removed <= w.seenEmpty
         && (b.cleaned ==> b.nonce in w.removed)
         && w.made == (if b.bootId == w.boot then {b.runRoot} else {})
         && (b.bootId == w.boot ==>
               if b.nonce in w.removed then b.runRoot !in w.dirs
               else b.runRoot in w.dirs && w.dirs[b.runRoot].owner == Ours(b.nonce))
         && forall p | p in w.dirs && p !in w.made :: w.dirs[p].owner.Foreign?
  }
}
