/**
 * The lifecycle of managed container instances as interleaved steps of one
 * process against a daemon: ownership guards armed before the first side
 * effect, awaited teardowns with a detached retry, the shared counters, the
 * retained client children, and the shutdown join.
 *
 * Assumed of the daemon: a command that has ended or was killed has no later
 * effect; a successful delete and a proved absence mean that the instance is
 * gone. That a refusal of an existing name means that nothing was created is
 * a separate condition, because one theorem here turns on it.
 */
module ContainerLifecycle {
  type Name = string
  type Child = nat

  datatype Creator = Us | Them

  datatype Stage = Stop | Delete

  /** Where the ownership of one generated name is. */
  datatype Slot =
    | Before                 // guard armed, nothing sent
    | Creating               // guard armed, the create command runs
    | SettingUp              // guard armed, created, being configured and started
    | Refused                // the name belongs to someone else; guard disarmed
    | Live                   // handed to the caller
    | Awaiting(stage: Stage) // awaited teardown, guard still armed
    | AwaitFailed            // awaited teardown failed, not yet recorded
    | Dropping               // armed guard being dropped
    | Counted                // cleanup counted, not yet running
    | Cleaning(inline: bool, stage: Stage)  // on its own thread, or inline when none could be started
    | CleanFailed(inline: bool)  // cleanup failed, not yet recorded
    | CleanDone(inline: bool)    // cleanup over, still counted
    | Settled

  datatype CreateReport = Made | Broken | Exists
  datatype DeleteReport = Deleted | Absent | Failed

  datatype Join = NotJoining | Polling | Loaded(counter: nat) | Joined(outstanding: nat)

  datatype Process = Process(
    daemon: map<Name, Creator>, slots: map<Name, Slot>,
    counter: nat, failures: seq<Name>,  // every recorded failure, by instance
    sent: set<Name>,                    // instances for which a stop or delete was sent
    killed: set<Child>, exited: set<Child>, pending: set<Child>, reaped: set<Child>,
    started: nat, finished: nat, join: Join)

  datatype Action =
    | Begin(n: Name) | SendCreate(n: Name) | FailEarly(n: Name)
    | CreateEnds(n: Name, report: CreateReport, created: bool, kept: set<Child>)
    | SetUpEnds(n: Name, ok: bool, kept: set<Child>)
    | Cancel(n: Name, created: bool, kept: set<Child>)
    | BeginTeardown(n: Name)
    | StopEnds(n: Name, kept: set<Child>)
    | DeleteEnds(n: Name, result: DeleteReport, gone: bool, kept: set<Child>)
    | RecordAwaited(n: Name)
    | Count(n: Name) | StartCleanup(n: Name, inline: bool)
    | CleanStopEnds(n: Name, kept: set<Child>)
    | CleanDeleteEnds(n: Name, result: DeleteReport, gone: bool, kept: set<Child>)
    | RecordDetached(n: Name)
    | Uncount(n: Name, inline: bool)  // by the thread, or inline
    | ChildExits(c: Child) | Reap
    | TheyCreate(n: Name) | TheyRemove(n: Name)
    | BeginJoin | LoadCounter | ReapAndDecide(expired: bool)

  /** A cleanup that the counter stands for. */
  predicate IsCounted(slot: Slot)
  {
    slot.Counted? || slot.Cleaning? || slot.CleanFailed? || slot.CleanDone?
  }

  /** An armed guard, or work of the process that is not a counted cleanup. */
  predicate IsGuarded(slot: Slot)
  {
    slot.Before? || slot.Creating? || slot.SettingUp? || slot.Awaiting? || slot.AwaitFailed? || slot.Dropping?
  }

  ghost function Active(p: Process): set<Name>
  {
    set n | n in p.slots && IsCounted(p.slots[n])
  }

  /** The steps that may still happen during a shutdown join. */
  predicate AllowedDuringJoin(a: Action)
  {
    || a.StartCleanup? || a.CleanStopEnds? || a.CleanDeleteEnds? || a.RecordDetached? || a.Uncount?
    || a.ChildExits? || a.Reap? || a.TheyCreate? || a.TheyRemove? || a.LoadCounter? || a.ReapAndDecide?
  }

  predicate At(p: Process, n: Name, slot: Slot)
  {
    n in p.slots && p.slots[n] == slot
  }

  /** A delete that reports success or proves absence leaves nothing behind; any other one may or may not. */
  predicate TruthfulDelete(p: Process, n: Name, result: DeleteReport, gone: bool)
  {
    result == Failed || gone || n !in p.daemon
  }

  ghost predicate Enabled(p: Process, a: Action)
  {
    && (p.join.NotJoining? || AllowedDuringJoin(a))
    && match a
       case Begin(n) => n !in p.slots
       case SendCreate(n) => At(p, n, Before)
       case FailEarly(n) => At(p, n, Before)
       case CreateEnds(n, report, created, kept) =>
         && At(p, n, Creating) && kept !! p.killed
         && (created ==> n !in p.daemon) && (report == Made ==> created)
         && (report != Broken ==> kept == {})
       case SetUpEnds(n, _, kept) => At(p, n, SettingUp) && kept !! p.killed
       case Cancel(n, created, kept) =>
         && n in p.slots && kept !! p.killed
         && var slot := p.slots[n];
            && (slot.Before? || slot.Creating? || slot.SettingUp? || slot.Awaiting? || slot.Live?)
            && (created ==> slot.Creating? && n !in p.daemon)
       case BeginTeardown(n) => At(p, n, Live)
       case StopEnds(n, kept) => At(p, n, Awaiting(Stop)) && kept !! p.killed
       case DeleteEnds(n, result, gone, kept) =>
         && At(p, n, Awaiting(Delete)) && kept !! p.killed && TruthfulDelete(p, n, result, gone)
         && (result != Failed ==> kept == {})
       case RecordAwaited(n) => At(p, n, AwaitFailed)
       case Count(n) => At(p, n, Dropping)
       case StartCleanup(n, _) => At(p, n, Counted)
       case CleanStopEnds(n, kept) => n in p.slots && p.slots[n].Cleaning? && p.slots[n].stage.Stop? && kept !! p.killed
       case CleanDeleteEnds(n, result, gone, kept) =>
         && n in p.slots && p.slots[n].Cleaning? && p.slots[n].stage.Delete? && kept !! p.killed
         && TruthfulDelete(p, n, result, gone) && (result != Failed ==> kept == {})
       case RecordDetached(n) => n in p.slots && p.slots[n].CleanFailed?
       case Uncount(n, inline) => At(p, n, CleanDone(inline)) && p.counter > 0
       case ChildExits(c) => c in p.killed
       case Reap => true
       case TheyCreate(n) => n !in p.daemon
       case TheyRemove(n) => n in p.daemon
       // the join begins when no guard is armed and no other command runs
       case BeginJoin => forall n | n in p.slots :: !IsGuarded(p.slots[n])
       case LoadCounter => p.join.Polling?
       case ReapAndDecide(_) => p.join.Loaded?
  }

  function Move(p: Process, n: Name, slot: Slot): Process
  {
    p.(slots := p.slots[n := slot])
  }

  /** A killed child that could not be reaped at once is retained; a command that ended by itself leaves none. */
  function Retain(p: Process, kept: set<Child>): Process
  {
    p.(killed := p.killed + kept, pending := p.pending + kept)
  }

  function CreateInstance(p: Process, n: Name, created: bool): Process
  {
    if created then p.(daemon := p.daemon[n := Us]) else p
  }

  function DeleteInstance(p: Process, n: Name, gone: bool): Process
  {
    if gone then p.(daemon := p.daemon - {n}) else p
  }

  /** The first command of a teardown is sent. */
  function Send(p: Process, n: Name): Process
  {
    p.(sent := p.sent + {n})
  }

  function ReapExited(p: Process): Process
  {
    p.(pending := p.pending - p.exited, reaped := p.reaped + (p.pending * p.exited))
  }

  ghost function Apply(p: Process, a: Action): Process
    requires Enabled(p, a)
  {
    match a
    case Begin(n) => Move(p, n, Before)
    case SendCreate(n) => Move(p, n, Creating)
    case FailEarly(n) => Move(Send(p, n), n, Awaiting(Stop))
    case CreateEnds(n, report, created, kept) =>
      var q := Retain(CreateInstance(p, n, created), kept);
      (match report
       case Made => Move(q, n, SettingUp)
       case Broken => Move(Send(q, n), n, Awaiting(Stop))
       case Exists => Move(q, n, Refused))
    case SetUpEnds(n, ok, kept) =>
      var q := Retain(p, kept);
      if ok then Move(q, n, Live) else Move(Send(q, n), n, Awaiting(Stop))
    case Cancel(n, created, kept) => Move(Retain(CreateInstance(p, n, created), kept), n, Dropping)
    case BeginTeardown(n) => Move(Send(p, n), n, Awaiting(Stop))
    case StopEnds(n, kept) => Move(Retain(p, kept), n, Awaiting(Delete))
    case DeleteEnds(n, result, gone, kept) =>
      Move(Retain(DeleteInstance(p, n, gone), kept), n, if result == Failed then AwaitFailed else Settled)
    case RecordAwaited(n) => Move(p.(failures := p.failures + [n]), n, Dropping)
    case Count(n) => Move(p.(counter := p.counter + 1, started := p.started + 1), n, Counted)
    case StartCleanup(n, inline) => Move(Send(p, n), n, Cleaning(inline, Stop))
    case CleanStopEnds(n, kept) => Move(Retain(p, kept), n, Cleaning(p.slots[n].inline, Delete))
    case CleanDeleteEnds(n, result, gone, kept) =>
      var inline := p.slots[n].inline;
      Move(Retain(DeleteInstance(p, n, gone), kept), n, if result == Failed then CleanFailed(inline)
        else CleanDone(inline))
    case RecordDetached(n) => Move(p.(failures := p.failures + [n]), n, CleanDone(p.slots[n].inline))
    case Uncount(n, _) => Move(p.(counter := p.counter - 1, finished := p.finished + 1), n, Settled)
    case ChildExits(c) => p.(exited := p.exited + {c})
    case Reap => ReapExited(p)
    case TheyCreate(n) => p.(daemon := p.daemon[n := Them])
    case TheyRemove(n) => p.(daemon := p.daemon - {n})
    case BeginJoin => p.(join := Polling)
    case LoadCounter => p.(join := Loaded(p.counter))
    case ReapAndDecide(expired) =>
      var q := ReapExited(p);
      var remaining := p.join.counter + |q.pending|;
      q.(join := if remaining == 0 || expired then Joined(remaining) else Polling)
  }

  /** A refusal of an existing name comes only from a create command that made nothing. */
  predicate Honest(a: Action)
  {
    a.CreateEnds? && a.report == Exists ==> !a.created
  }

  ghost predicate Legal(p: Process, actions: seq<Action>)
    decreases |actions|
  {
    actions == [] || (Enabled(p, actions[0]) && Legal(Apply(p, actions[0]), actions[1..]))
  }

  ghost function Run(p: Process, actions: seq<Action>): Process
    requires Legal(p, actions)
    decreases |actions|
  {
    if actions == [] then p else Run(Apply(p, actions[0]), actions[1..])
  }

  /** A process that has not done anything yet; the daemon may have instances of others. */
  ghost predicate Init(p: Process)
  {
    && p.slots == map[] && (forall n | n in p.daemon :: p.daemon[n] == Them)
    && p.counter == p.started == p.finished == 0 && p.failures == [] && p.sent == {}
    && p.killed == p.exited == p.pending == p.reaped == {} && p.join == NotJoining
  }
}
