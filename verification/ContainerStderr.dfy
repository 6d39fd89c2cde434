/** The bounded capture of a teardown command's standard error. */
module ContainerStderr {
  import opened Common
  import opened ContainerReport

  const CAPACITY: nat := 16 * 1024

  /** The last bytes of everything received, as many as the capture may hold. */
  function LastBytes(all: seq<byte>): seq<byte>
  {
    if |all| <= CAPACITY then all else all[|all| - CAPACITY..]
  }

  /** What a capture holds, and whether anything was dropped. */
  datatype Capture = Capture(tail: seq<byte>, truncated: bool)

  function Excess(tail: seq<byte>, bytes: seq<byte>): nat
  {
    if |tail| + |bytes| > CAPACITY then |tail| + |bytes| - CAPACITY else 0
  }

  function Pushed(c: Capture, bytes: seq<byte>): Capture
  {
    var excess := Excess(c.tail, bytes);
    Capture(c.tail[if excess < |c.tail| then excess else |c.tail|..] +
      bytes[if |bytes| > CAPACITY then |bytes| - CAPACITY else 0..],
            c.truncated || excess > 0)
  }

  /** One read of the pipe: some bytes, the end of the stream, or an error. */
  datatype Read = Bytes(bytes: seq<byte>) | Broken

  /** The bytes delivered before the end of the stream, a read error, or the last read so far. */
  function Delivered(chunks: seq<Read>): seq<byte>
  {
    if chunks == [] || chunks[0].Broken? || chunks[0].bytes == [] then [] else chunks[0].bytes + Delivered(chunks[1..])
  }

  /** Whether the end of the stream (an empty read) is reached before any error. */
  predicate ReachesEnd(chunks: seq<Read>)
  {
    chunks != [] && chunks[0].Bytes? && (chunks[0].bytes == [] || ReachesEnd(chunks[1..]))
  }

  class TeardownStderr {
    var tail: seq<byte>
    var complete: bool
    var truncated: bool

    constructor ()
      ensures Holds([]) && !complete
    {
      tail := [];
      complete := false;
      truncated := false;
    }

    ghost function Contents(): Capture
      reads this
    {
      Capture(tail, truncated)
    }

    /** The capture after everything in `all` was received. */
    ghost predicate Holds(all: seq<byte>)
      reads this
    {
      tail == LastBytes(all) && truncated == (|all| > CAPACITY)
    }

    method Push(bytes: seq<byte>)
      modifies this`tail, this`truncated
      ensures Contents() == Pushed(old(Contents()), bytes)
      ensures forall all: seq<byte> | old(Holds(all)) :: Holds(all + bytes)
    {
      ghost var before := Contents();
      var excess := if |tail| + |bytes| > CAPACITY then |tail| + |bytes| - CAPACITY else 0;
      if excess > 0 {
        truncated := true;
        tail := tail[if excess < |tail| then excess else |tail|..];
      }
      tail := tail + bytes[if |bytes| > CAPACITY then |bytes| - CAPACITY else 0..];
      assert Contents() == Pushed(before, bytes);
      forall all: seq<byte> | old(Holds(all))
        ensures Holds(all + bytes)
      {
        LastOfConcat(all, bytes);
      }
    }

    /** Drains the pipe; without a pipe nothing is captured and nothing is complete. */
    method Collect(pipe: Option<seq<Read>>)
      requires Holds([]) && !complete
      modifies this
      ensures Holds(if pipe.Some? then Delivered(pipe.value) else [])
      ensures complete == (pipe.Some? && ReachesEnd(pipe.value))
    {
      if pipe.None? {
        return;
      }
      var chunks := pipe.value;
      var i := 0;
      ghost var all: seq<byte> := [];
      while i < |chunks|
        invariant 0 <= i <= |chunks|
        invariant Holds(all) && !complete
        invariant Delivered(chunks) == all + Delivered(chunks[i..])
        invariant ReachesEnd(chunks) == ReachesEnd(chunks[i..])
      {
        assert chunks[i..][1..] == chunks[i + 1..];
        if chunks[i].Broken? {
          assert Delivered(chunks) == all;
          return;
        }
        if chunks[i].bytes == [] {
          assert Delivered(chunks) == all;
          complete := true;
          return;
        }
        ConcatAssociates(all, chunks[i].bytes, Delivered(chunks[i + 1..]));
        Push(chunks[i].bytes);
        all := all + chunks[i].bytes;
        i := i + 1;
      }
      assert chunks[i..] == [] && Delivered(chunks) == all;
    }

    /** Whether the capture proves that the instance is absent; `decode` gives the lower-case text of valid UTF-8. */
    predicate ProvesAbsent(decode: seq<byte> -> Option<string>, instance: string)
      reads this
    {
      && complete && !truncated
      && decode(tail).Some? && IsDaemonAbsentReport(decode(tail).value, instance)
    }
  }

  lemma LastOfConcat(all: seq<byte>, bytes: seq<byte>)
    ensures Pushed(Capture(LastBytes(all), |all| > CAPACITY), bytes) ==
            Capture(LastBytes(all + bytes), |all + bytes| > CAPACITY)
  {
    var tail := LastBytes(all);
    var kept := tail[if Excess(tail, bytes) < |tail| then Excess(tail, bytes) else |tail|..];
    var added := bytes[if |bytes| > CAPACITY then |bytes| - CAPACITY else 0..];
    assert kept + added == LastBytes(all + bytes);
  }

  /** The capture after a sequence of pushes. */
  function AfterPushes(pieces: seq<seq<byte>>): Capture
  {
    if pieces == [] then Capture([], false) else Pushed(AfterPushes(pieces[..|pieces| - 1]), pieces[|pieces| - 1])
  }

  /**
   * Whatever pieces the bytes come in, the capture is the end of all of them, and
   * it is truncated exactly when more came than it holds.
   */
  lemma {:induction false} CaptureIsEnd(pieces: seq<seq<byte>>)
    ensures AfterPushes(pieces) == Capture(LastBytes(Flatten(pieces)), |Flatten(pieces)| > CAPACITY)
  {
    hide Pushed; hide LastBytes;
    if pieces == [] {
      assert LastBytes([]) == [] by { NothingHeld(); }
    } else {
      var front, last := pieces[..|pieces| - 1], pieces[|pieces| - 1];
      assert pieces == front + [last];
      CaptureIsEnd(front);
      FlattenSnoc(front, last);
      LastOfConcat(Flatten(front), last);
    }
  }

  lemma NothingHeld()
    ensures LastBytes([]) == []
  {
  }

  /** The stream was read to its end, fits the capture, and is as a whole an absence report. */
  predicate ProvedAbsent(decode: seq<byte> -> Option<string>, instance: string, pipe: Option<seq<Read>>)
  {
    && pipe.Some? && ReachesEnd(pipe.value)
    && var all := Delivered(pipe.value);
       |all| <= CAPACITY && decode(all).Some? && IsDaemonAbsentReport(decode(all).value, instance)
  }

  /** A capture proves absence exactly when the complete diagnostics do. */
  method Conclude(decode: seq<byte> -> Option<string>, instance: string, pipe: Option<seq<Read>>) returns (absent: bool)
    ensures absent <==> ProvedAbsent(decode, instance, pipe)
  {
    var captured := new TeardownStderr();
    captured.Collect(pipe);
    absent := captured.ProvesAbsent(decode, instance);
  }
}
