/**
 * Bounded buffers fed by arbitrary interleavings of reads from the pipes of any number of children.
 * `select` is adversarial: it may report any registered streams, each with any block.
 */
module ProcessGroup {
  import opened Common

  const ERROR_LIMIT: nat := 65537
  const OUTPUT_LIMIT: nat := 1048576

  function Take(s: Bytes, n: nat): Bytes {
    if |s| <= n then s else s[..n]
  }

  lemma TakeOfConcat(s: Bytes, block: Bytes, n: nat)
    ensures Take(s + block, n) == Take(s, n) + (if |s| < n then Take(block, n - |s|) else "")
  {
  }

  class Child {
    const required: bool
    const capture: bool
    var log: Bytes
    var logOpen: bool
    var output: Bytes
    var error: Bytes
    var logged: nat
    var openStreams: nat
    var registered: map<bool, bool>  // which streams are in the selector; `true` is stderr
    ghost var outRead: Bytes  // what was read from stdout before stopping
    ghost var errRead: Bytes  // what was read from stderr before stopping

    ghost predicate Valid(logBound: nat)
      reads this
    {
      && logged == |log| <= logBound
      && error == Take(errRead, ERROR_LIMIT)
      && output == (if capture then outRead else "") && |output| <= OUTPUT_LIMIT
      && registered.Keys == {false, true}
      && openStreams == (if registered[false] then 1 else 0) + (if registered[true] then 1 else 0)
      && (logOpen <==> openStreams > 0)
    }

    constructor (required: bool, capture: bool)
      ensures this.required == required && this.capture == capture
      ensures Valid(0) && openStreams == 2 && registered[false] && registered[true]
      ensures outRead == "" && errRead == "" && log == ""
    {
      this.required, this.capture := required, capture;
      log, logOpen, output, error, logged, openStreams := "", true, "", "", 0, 2;
      registered := map[false := true, true := true];
      outRead, errRead := "", "";
    }

    /** The loop body of `pump` for one ready stream; false where it raises. */
    method Feed(isError: bool, block: Bytes, stopping: bool, logBound: nat) returns (ok: bool)
      requires Valid(logBound) && isError in registered && registered[isError]
      modifies this
      ensures !ok <==> !stopping && capture && !isError && |old(output)| + |block| > 1024 * 1024
      ensures exists n: nat :: n <= |block| && log == old(log) + block[..n]
      ensures Valid(logBound)
      ensures forall s :: s in registered ==>
                s in old(registered) && registered[s] == (old(registered)[s] && !(s == isError && block == ""))
      ensures ok ==> outRead == old(outRead) + (if !stopping && !isError then block else "")
      ensures ok ==> errRead == old(errRead) + (if !stopping && isError then block else "")
      ensures stopping ==> log == old(log) && output == old(output) && error == old(error)
    {
      assert log == log + block[..0];
      if block == "" {
        registered := registered[isError := false];
        openStreams := openStreams - 1;
        if openStreams == 0 {
          logOpen := false;
        }
        return true;
      }
      var remaining := logBound - logged;
      if remaining > 0 && !stopping {
        assert logOpen;  // no write hits a closed log
        var chunk := Take(block, remaining);
        var written := Write(chunk);
        assert chunk[..written] == block[..written];
        logged := logged + written;
      }
      if isError && !stopping {
        TakeOfConcat(errRead, block, ERROR_LIMIT);
        if |error| <= 65536 {
          error := error + Take(block, 65537 - |error|);
        }
        errRead := errRead + block;
      }
      if !isError && !stopping {
        if capture {
          if |output| + |block| > OUTPUT_LIMIT {
            return false;
          }
          output := output + block;
        }
        outRead := outRead + block;
      }
      ok := true;
    }

    /** An unbuffered write may take only a part of the chunk. */
    method Write(chunk: Bytes) returns (written: nat)
      requires logOpen
      modifies `log
      ensures written <= |chunk| && log == old(log) + chunk[..written]
    {
      written :| 0 <= written <= |chunk|;
      log := log + chunk[..written];
    }
  }

  /** Why a method of the group raises, if it does. */
  datatype Verdict = Fine | Interrupted | RequiredExited | NotStarted | OutputExceeds | TimedOut

  predicate HasRequired(children: seq<Child>) {
    exists i :: 0 <= i < |children| && children[i].required
  }

  /** A stream that `select` reports, and the block read from it. */
  datatype Ready = Ready(child: nat, isError: bool, block: Bytes)

  /** All blocks that the events hold for one stream, in order. */
  function Blocks(events: seq<Ready>, child: nat, isError: bool): Bytes {
    if events == [] then ""
    else
      var e := Last(events);
      Blocks(Front(events), child, isError) + (if e.child == child && e.isError == isError then e.block else "")
  }

  lemma BlocksOfPrefix(events: seq<Ready>, k: nat)
    requires k < |events|
    ensures forall i, s :: Blocks(events[..k + 1], i, s)
                        == Blocks(events[..k], i, s)
                           + (if i == events[k].child && s == events[k].isError then events[k].block else "")
  {
    assert Front(events[..k + 1]) == events[..k];
  }

  lemma {:induction false} BlocksGrow(events: seq<Ready>, k: nat, i: nat)
    requires k <= |events|
    ensures |Blocks(events[..k], i, false)| <= |Blocks(events, i, false)|
    decreases |events| - k
  {
    if k < |events| {
      BlocksOfPrefix(events, k);
      BlocksGrow(events, k + 1, i);
    } else {
      assert events[..k] == events;
    }
  }

  lemma NoBlocks()
    ensures forall i, s :: Blocks([], i, s) == ""
  {
  }

  class ProcessGroup {
    const logBound: nat
    var children: seq<Child>
    var stopping: bool
    var interrupted: bool
    ghost var pumped: seq<Verdict>  // what the calls of `pump` came to

    ghost predicate Valid()
      reads this`children, children
    {
      && (forall i, j :: 0 <= i < j < |children| ==> children[i] != children[j])
      && (forall i :: 0 <= i < |children| ==> children[i].Valid(logBound))
    }

    constructor (logBound: nat)
      ensures Valid() && children == [] && !stopping && this.logBound == logBound
    {
      this.logBound := logBound;
      children, stopping, interrupted, pumped := [], false, false, [];
    }

    /** `start`: the check, and then the child with both pipes registered; None where it raises. */
    method Start(required: bool, capture: bool) returns (started: Option<Child>, verdict: Verdict)
      requires Valid()
      modifies this`children
      ensures Valid()
      ensures started.Some? <==> verdict.Fine?
      ensures verdict.Interrupted? <==> interrupted && !stopping
      ensures verdict.RequiredExited? ==> !stopping && HasRequired(old(children))
      ensures verdict in {Fine, Interrupted, RequiredExited, NotStarted}
      ensures started.None? ==> children == old(children)
      ensures started.Some? ==>
                var child := started.value;
                && fresh(child) && children == old(children) + [child]
                && child.required == required && child.capture == capture
                && child.outRead == "" && child.errRead == ""
                && child.registered == map[false := true, true := true]
    {
      verdict := Check();
      if verdict != Fine {
        return None, verdict;
      }
      var created: bool := *;  // the log file and the process may fail to come into being
      if !created {
        return None, NotStarted;
      }
      var child := new Child(required, capture);
      children := children + [child];
      assert child.registered == map[false := true, true := true];
      started := Some(child);
    }

    /** `select` reports each registered stream at most once. */
    predicate Selectable(events: seq<Ready>)
      reads this`children, children
    {
      && (forall k :: 0 <= k < |events| ==> IsRegistered(events[k]))
      && (forall k, l :: 0 <= k < l < |events| ==>
            events[k].child != events[l].child || events[k].isError != events[l].isError)
    }

    predicate IsRegistered(e: Ready)
      reads this`children, children
    {
      && e.child < |children| && e.isError in children[e.child].registered && children[e.child].registered[e.isError]
    }

    /** What the children have read so far, `true` for stderr. */
    ghost function ReadSoFar(i: nat, isError: bool): Bytes
      requires i < |children|
      reads this`children, children
    {
      if isError then children[i].errRead else children[i].outRead
    }

    /** What the child at `i` has captured within the bound is all that it wrote. */
    lemma CapturedWithinBound(i: nat)
      requires Valid() && i < |children| && children[i].capture
      ensures |ReadSoFar(i, false)| <= OUTPUT_LIMIT && children[i].output == ReadSoFar(i, false)
    {
      assert children[i].Valid(logBound);
    }

    /** One ready stream; no other child and no other stream is touched. */
    method Dispatch(e: Ready) returns (ok: bool)
      requires Valid() && IsRegistered(e)
      modifies children[e.child]
      ensures Valid() && children == old(children) && stopping == old(stopping)
      ensures forall r: Ready :: old(IsRegistered(r)) && (r.child != e.child || r.isError != e.isError)
                                 ==> IsRegistered(r)
      ensures !ok ==> && !stopping && children[e.child].capture && !e.isError
                      && |old(ReadSoFar(e.child, false))| + |e.block| > OUTPUT_LIMIT
      ensures ok && !stopping ==> forall i, s :: 0 <= i < |children| ==>
                ReadSoFar(i, s) == old(ReadSoFar(i, s)) + (if i == e.child && s == e.isError then e.block else "")
    {
      if children[e.child].capture {
        CapturedWithinBound(e.child);
      }
      ok := children[e.child].Feed(e.isError, e.block, stopping, logBound);
      assert forall i :: 0 <= i < |children| && i != e.child ==> children[i] != children[e.child];
    }

    /** A child that captures would have more than the bound after these events. */
    ghost predicate Exceeds(events: seq<Ready>)
      reads this`children, children
    {
      exists i :: 0 <= i < |children| && children[i].capture
                  && |ReadSoFar(i, false)| + |Blocks(events, i, false)| > OUTPUT_LIMIT
    }

    /** The loop of `pump`; false where it raises. */
    method Drain(events: seq<Ready>) returns (ok: bool)
      requires Valid() && Selectable(events)
      modifies children
      ensures Valid() && children == old(children) && stopping == old(stopping)
      ensures !ok ==> !stopping && old(Exceeds(events))
      ensures ok && !stopping ==> forall i, s :: 0 <= i < |children| ==>
                ReadSoFar(i, s) == old(ReadSoFar(i, s)) + Blocks(events, i, s)
    {
      hide Child.Valid, Blocks, ReadSoFar;
      NoBlocks();
      for k := 0 to |events|
        invariant Valid() && children == old(children) && stopping == old(stopping)
        invariant forall l :: k <= l < |events| ==> IsRegistered(events[l])
        invariant !stopping ==> forall i, s :: 0 <= i < |children| ==>
                    ReadSoFar(i, s) == old(ReadSoFar(i, s)) + Blocks(events[..k], i, s)
      {
        BlocksOfPrefix(events, k);
        BlocksGrow(events, k + 1, events[k].child);
        ok := Dispatch(events[k]);
        if !ok {
          return;
        }
        if !stopping {
          forall i, s | 0 <= i < |children|
            ensures ReadSoFar(i, s) == old(ReadSoFar(i, s)) + Blocks(events[..k + 1], i, s)
          {
            var more := if i == events[k].child && s == events[k].isError then events[k].block else "";
            assert old(ReadSoFar(i, s)) + Blocks(events[..k], i, s) + more
                == old(ReadSoFar(i, s)) + (Blocks(events[..k], i, s) + more);
          }
        }
      }
      assert events[..|events|] == events;
      ok := true;
    }

    /** `pump` on the streams that `select` reported, and why it raises if it does. */
    method Pump(events: seq<Ready>) returns (verdict: Verdict)
      requires Valid() && Selectable(events)
      modifies this`pumped, children
      ensures Valid() && children == old(children) && stopping == old(stopping)
      ensures pumped == old(pumped) + [verdict]
      ensures verdict in {Fine, Interrupted, RequiredExited, OutputExceeds} && (stopping ==> verdict == Fine)
      ensures verdict == Interrupted <==> interrupted && !stopping
      ensures verdict == RequiredExited ==> HasRequired(children)
      ensures verdict == OutputExceeds ==> old(Exceeds(events))
      ensures verdict == Fine && !stopping ==> !old(Exceeds(events))
      ensures verdict == Fine && !stopping ==> forall i, s :: 0 <= i < |children| ==>
                ReadSoFar(i, s) == old(ReadSoFar(i, s)) + Blocks(events, i, s)
    {
      hide Child.Valid, Blocks, ReadSoFar, Selectable;
      verdict := Check();
      if verdict == Fine {
        var ok := Drain(events);
        if ok && !stopping {
          forall i | 0 <= i < |children| && children[i].capture
            ensures |old(ReadSoFar(i, false))| + |Blocks(events, i, false)| <= OUTPUT_LIMIT
          {
            CapturedWithinBound(i);
            assert |ReadSoFar(i, false)| <= OUTPUT_LIMIT;
          }
        }
        if ok {
          verdict := Check();
        } else {
          verdict := OutputExceeds;
        }
      }
      pumped := pumped + [verdict];
    }

    /** Whatever `select` reports. */
    method Select() returns (events: seq<Ready>)
      ensures Selectable(events)
    {
      events := *;
      if !Selectable(events) {
        events := [];
      }
    }

    /** `run`: pumps the whole group until the child has ended and both its pipes are at their end, or time is up. */
    method Run(capture: bool, rounds: nat) returns (ran: Option<Child>, verdict: Verdict)
      requires Valid() && !stopping
      modifies this`children, this`pumped, children
      ensures Valid() && old(children) <= children && |children| <= |old(children)| + 1
      ensures ran.Some? <==> verdict.Fine?
      ensures old(pumped) <= pumped && |pumped| <= |old(pumped)| + rounds
      ensures forall k :: |old(pumped)| <= k < |pumped| - 1 ==> pumped[k] == Fine
      ensures verdict == TimedOut ==> |pumped| == |old(pumped)| + rounds && (rounds > 0 ==> Last(pumped) == Fine)
      ensures verdict in {RequiredExited, OutputExceeds} && |pumped| > |old(pumped)| ==> Last(pumped) == verdict
      ensures verdict == OutputExceeds ==> |pumped| > |old(pumped)|
      ensures verdict == Interrupted <==> interrupted
      ensures verdict == RequiredExited ==> HasRequired(old(children))
      ensures interrupted || verdict == NotStarted ==> children == old(children)
      ensures ran.Some? ==>
                var child := ran.value;
                && fresh(child) && children == old(children) + [child] && child.capture == capture
                && child.registered == map[false := false, true := false] && !child.logOpen
                && child.output == (if capture then child.outRead else "")
                && child.error == Take(child.errRead, 64 * 1024 + 1)
    {
      ran := None;
      var started;
      started, verdict := Start(false, capture);
      if started.None? {
        return;
      }
      var child := started.value;
      for n := 0 to rounds
        invariant Valid() && children == old(children) + [child] && !stopping && child.capture == capture
        invariant ran.None? && !child.required && !interrupted
        invariant old(pumped) <= pumped && |pumped| == |old(pumped)| + n
        invariant forall k :: |old(pumped)| <= k < |pumped| ==> pumped[k] == Fine
      {
        assert children[|old(children)|] == child;
        var ended: bool := *;
        if ended && child.openStreams == 0 {
          assert child.registered == map[false := false, true := false];
          return Some(child), Fine;
        }
        var events := Select();
        verdict := Pump(events);
        if verdict != Fine {
          return;
        }
      }
      verdict := TimedOut;
    }

    /** `check`: an interrupt or the exit of a required child raises unless the group is stopping. */
    method Check() returns (verdict: Verdict)
      ensures verdict in {Fine, Interrupted, RequiredExited} && (stopping ==> verdict == Fine)
      ensures verdict == Interrupted <==> interrupted && !stopping
      ensures verdict == RequiredExited ==> HasRequired(children)
    {
      if stopping {
        return Fine;
      }
      if interrupted {
        return Interrupted;
      }
      for i := 0 to |children| {
        var exited: bool := *;
        if children[i].required && exited {
          return RequiredExited;
        }
      }
      verdict := Fine;
    }
  }
}
