/**
 * The two teardowns of a container session, the awaited one and the blocking
 * one that a dropped guard runs, and their tracking file.
 */
module ContainerTeardown {
  import opened Common
  import opened Text
  import opened ContainerStderr

  /** The file in which the container engine records the id of what it started. */
  datatype TrackingFile = Missing | Unreadable | Contents(text: string)

  datatype Target = Container | Instance(name: string) | Mismatched

  datatype Command = Kill(id: string) | Remove(id: string) | Stop(name: string) | Delete(name: string)

  /** How a client command ended. */
  datatype Outcome = NotSpawned | WaitFailed | TimedOut | Exited(success: bool, stderr: Option<seq<Read>>)

  datatype Verdict = Done | Absent | Failed

  type Decoder = seq<byte> -> Option<string>

  /** The id in a tracking file: none for a missing or blank file, an error when it cannot be read. */
  datatype Identity = NoIdentity | Known(id: string) | Unknown

  function ReadTrackingFile(file: TrackingFile): Identity
  {
    match file
    case Missing => NoIdentity
    case Unreadable => Unknown
    case Contents(text) => if Trim(text) == "" then NoIdentity else Known(Trim(text))
  }

  /** The verdict on a command whose diagnostics were read. */
  function WithStderr(decode: Decoder, instance: string, outcome: Outcome): Verdict
  {
    if !outcome.Exited? then Failed
    else if outcome.success then Done
    else if ProvedAbsent(decode, instance, outcome.stderr) then Absent
    else Failed
  }

  /** The verdict on a command that ran without a pipe for its diagnostics. */
  function WithoutStderr(outcome: Outcome): Verdict
  {
    if outcome.Exited? && outcome.success then Done else Failed
  }

  method RunTimed(decode: Decoder, instance: string, outcome: Outcome) returns (v: Verdict)
    ensures v == WithStderr(decode, instance, outcome)
  {
    if !outcome.Exited? {
      return Failed;
    }
    if !outcome.success {
      var absent := Conclude(decode, instance, outcome.stderr);
      return if absent then Absent else Failed;
    }
    return Done;
  }

  method RunBounded(decode: Decoder, instance: string, outcome: Outcome, fallback: bool) returns (v: Verdict)
    ensures v == Bounded(decode, instance, outcome, fallback)
  {
    if fallback {
      return WithoutStderr(outcome);
    }
    v := RunTimed(decode, instance, outcome);
  }

  function Bounded(decode: Decoder, instance: string, outcome: Outcome, fallback: bool): Verdict
  {
    if fallback then WithoutStderr(outcome) else WithStderr(decode, instance, outcome)
  }

  /** The name under which the daemon is asked, when it is asked at all. */
  function Asked(target: Target, file: TrackingFile): Option<string>
  {
    match target
    case Container => if ReadTrackingFile(file).Known? then Some(ReadTrackingFile(file).id) else None
    case Instance(name) => Some(name)
    case Mismatched => None
  }

  function CommandsFor(target: Target, file: TrackingFile): seq<Command>
  {
    var name := Asked(target, file);
    if name.None? then []
    else if target.Container? then [Kill(name.value), Remove(name.value)]
    else [Stop(name.value), Delete(name.value)]
  }

  datatype Settlement = Settlement(ok: bool, file: TrackingFile)

  /** The result of a teardown whose removal command ended with `removal`. */
  function Settle(target: Target, file: TrackingFile, removal: Verdict, unlinks: bool): Settlement
  {
    match target
    case Mismatched => Settlement(true, file)
    case Instance(_) => Settlement(removal != Failed, file)
    case Container =>
      match ReadTrackingFile(file)
      case Unknown => Settlement(false, file)
      case NoIdentity => Settlement(true, if unlinks then Missing else file)
      case Known(_) =>
        if removal == Failed || !unlinks then Settlement(false, file) else Settlement(true, Missing)
  }

  class Session {
    const target: Target
    var file: TrackingFile
    var sent: seq<Command>

    constructor (target: Target, file: TrackingFile)
      ensures this.target == target && this.file == file && sent == []
    {
      this.target := target;
      this.file := file;
      sent := [];
    }

    method Unlink(unlinks: bool)
      modifies this`file
      ensures file == if unlinks then Missing else old(file)
    {
      if unlinks {
        file := Missing;
      }
    }

    /** The awaited teardown; `first` and `second` are how its two commands end. */
    method Teardown(decode: Decoder, first: Outcome, second: Outcome, unlinks: bool) returns (ok: bool)
      modifies this
      ensures sent == old(sent) + CommandsFor(target, old(file))
      ensures var name := Asked(target, old(file));
        Settlement(ok, file) == Settle(target, old(file),
          if name.Some? then WithStderr(decode, name.value, second) else Failed, unlinks)
    {
      match target {
        case Mismatched =>
          return true;
        case Container =>
          match ReadTrackingFile(file) {
            case Unknown =>
              return false;
            case NoIdentity =>
              Unlink(unlinks);
              return true;
            case Known(id) =>
              sent := sent + [Kill(id)];
              var stopped := RunTimed(decode, id, first);
              sent := sent + [Remove(id)];
              var removed := RunTimed(decode, id, second);
              if removed == Failed {
                return false;
              }
              Unlink(unlinks);
              return unlinks;
          }
        case Instance(name) =>
          sent := sent + [Stop(name)];
          var stopped := RunTimed(decode, name, first);
          sent := sent + [Delete(name)];
          var removed := RunTimed(decode, name, second);
          return removed != Failed;
      }
    }

    /** The blocking teardown: the two commands in a loop, each with its own fallback. */
    method TeardownSync(decode: Decoder, outcomes: seq<Outcome>, fallbacks: seq<bool>, unlinks: bool) returns (ok: bool)
      requires |outcomes| == |fallbacks| == 2
      modifies this
      ensures sent == old(sent) + CommandsFor(target, old(file))
      ensures var name := Asked(target, old(file));
        Settlement(ok, file) == Settle(target, old(file),
          if name.Some? then Bounded(decode, name.value, outcomes[1], fallbacks[1]) else Failed, unlinks)
    {
      if target.Mismatched? {
        return true;
      }
      if target.Container? && ReadTrackingFile(file).Unknown? {
        return false;
      }
      if target.Container? && ReadTrackingFile(file).NoIdentity? {
        Unlink(unlinks);
        return true;
      }
      var commands := CommandsFor(target, file);
      var name := Asked(target, file).value;
      var stage := 0;
      while stage < 2
        invariant 0 <= stage <= 2 && file == old(file)
        invariant sent == old(sent) + commands[..stage]
        invariant stage == 2 ==> Bounded(decode, name, outcomes[1], fallbacks[1]) != Failed
      {
        sent := sent + [commands[stage]];
        assert commands[..stage + 1] == commands[..stage] + [commands[stage]];
        var v := RunBounded(decode, name, outcomes[stage], fallbacks[stage]);
        // a failed stop never keeps the removal from being tried
        if v == Failed && stage == 1 {
          assert commands[..2] == commands;
          return false;
        }
        stage := stage + 1;
      }
      assert commands[..2] == commands;
      if target.Container? {
        Unlink(unlinks);
        return unlinks;
      }
      return true;
    }
  }

  /**
   * For the same responses, a teardown that had to do without diagnostics
   * succeeds only where the awaited one does, with the same tracking file;
   * the two differ exactly where an absence was proved.
   */
  lemma FallbackOnlyFails(target: Target, file: TrackingFile, decode: Decoder, second: Outcome, unlinks: bool)
    requires Asked(target, file).Some?
    ensures var read := WithStderr(decode, Asked(target, file).value, second);
      var full, blind := Settle(target, file, read, unlinks), Settle(target, file, WithoutStderr(second), unlinks);
      && (blind.ok ==> full == blind)
      && (full != blind <==> read == Absent && full.ok)
      && (full != blind ==> !blind.ok && blind.file == file)
  {
  }

  /**
   * One attempt: how its two commands end, whether the file can be unlinked, and
   * for a blocking one which commands run blind.
   */
  datatype Attempt =
    | Awaited(first: Outcome, second: Outcome, unlinks: bool)
    | Blocking(first: Outcome, second: Outcome, unlinks: bool, firstBlind: bool, secondBlind: bool)

  /** An attempt removes a container or proves it absent, and unlinks its file. */
  predicate Removes(decode: Decoder, id: string, a: Attempt)
  {
    a.unlinks && Bounded(decode, id, a.second, a.Blocking? && a.secondBlind) != Failed
  }

  /** The first attempt that removes the container, or the number of attempts. */
  function FirstRemoval(decode: Decoder, id: string, attempts: seq<Attempt>): (k: nat)
    ensures k <= |attempts| && (forall i | 0 <= i < k :: !Removes(decode, id, attempts[i]))
    ensures k < |attempts| ==> Removes(decode, id, attempts[k])
  {
    if attempts == [] || Removes(decode, id, attempts[0]) then 0 else 1 + FirstRemoval(decode, id, attempts[1..])
  }

  /** The commands of so many attempts. */
  function Asks(id: string, attempts: nat): seq<Command>
  {
    if attempts == 0 then [] else Asks(id, attempts - 1) + [Kill(id), Remove(id)]
  }

  method Try(session: Session, decode: Decoder, a: Attempt) returns (ok: bool)
    modifies session
    ensures session.sent == old(session.sent) + CommandsFor(session.target, old(session.file))
    ensures var name := Asked(session.target, old(session.file));
      Settlement(ok, session.file) == Settle(session.target, old(session.file),
        if name.Some? then Bounded(decode, name.value, a.second, a.Blocking? && a.secondBlind) else Failed, a.unlinks)
  {
    match a {
      case Awaited(first, second, unlinks) => ok := session.Teardown(decode, first, second, unlinks);
      case Blocking(first, second, unlinks, firstBlind, secondBlind) =>
        ok := session.TeardownSync(decode, [first, second], [firstBlind, secondBlind], unlinks);
    }
  }

  /**
   * A container session driven through any mix of awaited and blocking
   * teardowns, whatever their commands answer: its recorded id stays on file,
   * and every attempt fails and asks the daemon about it again, up to the
   * first one that removes the container or proves it absent and unlinks the
   * file; from then on the file is gone, and every attempt succeeds without
   * asking.
   */
  method Drive(session: Session, decode: Decoder, attempts: seq<Attempt>) returns (verdicts: seq<bool>)
    requires session.target.Container? && ReadTrackingFile(session.file).Known?
    modifies session
    ensures var id := ReadTrackingFile(old(session.file)).id;
      var k := FirstRemoval(decode, id, attempts);
      && session.file == (if k < |attempts| then Missing else old(session.file))
      && session.sent == old(session.sent) + Asks(id, if k < |attempts| then k + 1 else k)
      && |verdicts| == |attempts| && forall i | 0 <= i < |attempts| :: verdicts[i] == (k <= i)
  {
    hide Bounded;
    var id := ReadTrackingFile(session.file).id;
    ghost var k := FirstRemoval(decode, id, attempts);
    verdicts := [];
    for i := 0 to |attempts|
      invariant session.file == if k < i then Missing else old(session.file)
      invariant session.sent == old(session.sent) + Asks(id, if k < i then k + 1 else i)
      invariant |verdicts| == i && forall j | 0 <= j < i :: verdicts[j] == (k <= j)
    {
      ghost var before := session.sent;
      var ok := Try(session, decode, attempts[i]);
      if i <= k {
        ConcatAssociates(old(session.sent), Asks(id, i), [Kill(id), Remove(id)]);
      } else {
        assert session.sent == before + [];
      }
      verdicts := verdicts + [ok];
    }
  }

  /**
   * Both teardowns on the same responses, with diagnostics: the same verdict, the
   * same commands, the same tracking file.
   */
  method TeardownsAgree(
    target: Target, file: TrackingFile, decode: Decoder, first: Outcome, second: Outcome, unlinks: bool)
    returns (awaited: bool, blocking: bool, awaitedFile: TrackingFile, blockingFile: TrackingFile)
    ensures awaited == blocking && awaitedFile == blockingFile
    ensures awaited ==> awaitedFile == Missing || !ReadTrackingFile(file).Known? || !target.Container?
  {
    var a := new Session(target, file);
    awaited := a.Teardown(decode, first, second, unlinks);
    var b := new Session(target, file);
    blocking := b.TeardownSync(decode, [first, second], [false, false], unlinks);
    awaitedFile, blockingFile := a.file, b.file;
    assert a.sent == b.sent;
  }
}
