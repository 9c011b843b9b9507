/** The capture utility as an object with the source's fields. */
module Capture {
  import opened Bytes
  import opened TraceEngine
  import opened StreamingTrace
  import opened CaptureLoop

  class Command {
    const trace: Trace
    const tbufsReqTokens: array<int>
    const numDbufs: nat
    var numPendingBufs: int
    var outFile: seq<byte>
    ghost var handled: seq<nat>
    ghost var phase: Phase

    ghost function Abs(): World
      reads this, trace, tbufsReqTokens
    {
      World(trace.Abs(), tbufsReqTokens[..], numDbufs, numPendingBufs, outFile, handled, phase)
    }

    ghost predicate Valid()
      reads this, trace, tbufsReqTokens
    {
      trace.Valid() && Good(Abs())
    }

    /** `alloc_cstrace_runtime_storage` for a sink just started: as many data buffers as its window
        holds, and some event buffers. */
    constructor (trace: Trace, numEbufs: nat)
      requires trace.Valid() && trace.status.ACTIVE? && trace.dataBufferCount + numEbufs > 0
      requires trace.queuedBuffers == trace.pendingBuffers == trace.eventBuffers == []
      requires trace.completedEventTokens == trace.returned == []
      ensures Valid() && this.trace == trace && fresh(tbufsReqTokens) && Begins(Abs())
              && tbufsReqTokens.Length == numDbufs + numEbufs
    {
      this.trace := trace;
      tbufsReqTokens := new int[trace.dataBufferCount + numEbufs](_ => -1);
      numDbufs, numPendingBufs, outFile, handled, phase := trace.dataBufferCount, 0, [], [], Submitting(0);
      new;
      Begun(Abs());
    }

    /** `cstrace_submit_client_buf`; `next` is the phase behind it. */
    method SubmitClientBuf(idx: nat, ghost next: Phase) returns (ok: bool)
      requires trace.Valid() && idx < tbufsReqTokens.Length
      modifies this`numPendingBufs, this`phase, tbufsReqTokens, trace
      ensures trace.Valid() && ok == !old(trace.status).DETACHED?
      ensures ok ==> Abs() == SubmitAt(old(Abs()), idx, next)
    {
      hide Inv, SubmitBuffer;
      phase := next;
      var r := trace.SubmitEventBuffer(if idx < numDbufs then TypeData else TypeEvent, idx);
      if !r.Ok? {
        return false;
      }
      tbufsReqTokens[idx] := r.token;
      numPendingBufs := numPendingBufs + 1;
      return true;
    }

    /** `cstrace_find_tbuf_id`. */
    method FindTbufId(token: int) returns (found: bool, id: nat)
      ensures found <==> token in tbufsReqTokens[..]
      ensures id == FirstOf(tbufsReqTokens[..], token) && (found ==> id < tbufsReqTokens.Length)
    {
      found, id := false, 0;
      while id < tbufsReqTokens.Length
        invariant id <= tbufsReqTokens.Length && !found && forall j :: 0 <= j < id ==> tbufsReqTokens[j] != token
      {
        if token == tbufsReqTokens[id] {
          found := true;
          break;
        }
        id := id + 1;
      }
      FirstIs(tbufsReqTokens[..], token, id);
    }

    /** The wait of `cstrace_capture_data`, up to the point where it blocks. */
    method AwaitEvent() returns (r: Result)
      requires Valid() && phase.Capturing?
      modifies this`phase, trace
      ensures Valid()
      ensures if old(trace.completedEventTokens) == [] then r == Blocked && Abs() == old(Abs())
              else r == Ok(old(trace.completedEventTokens)[0]) && Abs() == Act(old(Abs()), Await)
    {
      hide Good, Inv;
      AwaitKeeps(Abs());
      r := trace.WaitForEvent();
      if r.Ok? {
        phase := Holding(r.token);
      }
    }

    /** The wait over: with a token, at its deadline, to be repeated, or with an error, which ends the loop. */
    method ResumeAwait(notified: bool) returns (r: Result)
      requires Valid() && phase.Capturing?
      modifies this`phase, trace
      ensures Valid() && (r.Timeout? <==> !notified && old(trace.completedEventTokens) == [])
      ensures r.Ok? <==> old(trace.completedEventTokens) != [] && !(notified && old(trace.status).EXITED?)
      ensures Abs() == if r.Ok? then Act(old(Abs()), Await)
                       else if notified && old(trace.status).EXITED? then Act(old(Abs()), GiveUp) else old(Abs())
    {
      hide Good, Inv;
      AwaitKeeps(Abs());
      r := trace.ResumeWait(notified);
      if r.Ok? {
        phase := Holding(r.token);
      } else if r.CommsError? {
        phase := Closing;
      }
    }

    /** The rest of `cstrace_capture_data` up to the resubmission: the buffer is found under its token,
        counted off, and its data appended to the file. */
    method HandleEvent(token: nat) returns (again: bool, id: nat)
      requires Valid() && phase == Holding(token)
      modifies this
      ensures Valid() && Abs() == Process(old(Abs()))
      ensures again <==> phase.Resubmitting?
      ensures again ==> phase == Resubmitting(id)
    {
      hide Good, Inv, FirstOf, Mine, Process;
      HandleGood(Abs());
      FoundAtItsIndex(Abs());
      var found;
      found, id := FindTbufId(token);
      again := Record(token, id);
    }

    /** The buffer is counted off and its type looked at; without one, an error. */
    method Record(token: nat, id: nat) returns (again: bool)
      requires phase == Holding(token) && id == FirstOf(tbufsReqTokens[..], token)
      modifies this
      ensures Abs() == Process(old(Abs()))
      ensures again <==> phase.Resubmitting?
      ensures again ==> phase == Resubmitting(id)
    {
      hide FirstOf;
      if id == tbufsReqTokens.Length {
        phase := Closing;
        return false;
      }
      numPendingBufs := numPendingBufs - 1;
      if id in trace.memory && trace.memory[id].typ.TypeData? {
        outFile := outFile + trace.memory[id].bytes;
        handled := handled + [token];
        phase := Resubmitting(id);
        return true;
      }
      phase := Closing;
      return false;
    }

    /** The discard loop of `capture_cstrace`; `turns` says what happens during the waits that block.  It
        ends well only with nothing outstanding, and otherwise at a wait without a token. */
    method DiscardPending(sink: int, turns: seq<Turn>) returns (ok: bool)
      requires Valid() && phase.Discarding?
      modifies this`numPendingBufs, this`phase, trace
      ensures Valid() && Abs() == DiscardLoop(old(Abs()), sink, turns) && ok == phase.Ended?
      ensures ok ==> numPendingBufs == 0 && trace.completedEventTokens == []
      ensures ok ==> trace.pendingBuffers == trace.queuedBuffers == trace.eventBuffers == []
      ensures !ok ==> numPendingBufs > 0 && phase.Discarding?
    {
      hide Good, Inv, After, ThreadSteps, DiscardLoop;
      var i := 0;
      while numPendingBufs > 0
        invariant Valid() && phase.Discarding? && i <= |turns|
        invariant DiscardLoop(Abs(), sink, turns[i..]) == DiscardLoop(old(Abs()), sink, turns)
        decreases |turns| - i, |trace.completedEventTokens|
      {
        ghost var w := Abs();
        LoopIs(w, sink, turns[i..]);
        DiscardKeeps(w);
        var r := trace.WaitForEvent();
        if r.Blocked? {
          if i == |turns| {
            return false;
          }
          assert turns[i..][0] == turns[i] && turns[i..][1..] == turns[i + 1..];
          TurnGood(w, sink, turns[i].fs);
          trace.RunThread(sink, turns[i].fs);
          ghost var v := Abs();
          LoopIs(v, sink, turns[i + 1..]);
          DiscardKeeps(v);
          r := trace.ResumeWait(turns[i].notified);
          i := i + 1;
        }
        if r.Timeout? || r.CommsError? {
          return false;
        }
        if r.Ok? {
          numPendingBufs := numPendingBufs - 1;
        }
      }
      LoopIs(Abs(), sink, turns[i..]);
      NoneLeft(Abs());
      phase := Ended;
      ok := true;
    }
  }

  lemma {:induction false} AwaitKeeps(w: World)
    requires Good(w) && w.phase.Capturing?
    ensures w.e.completed != [] ==> Good(Act(w, Await))
    ensures Good(Act(w, GiveUp))
  {
    hide Good, Act;
    if w.e.completed != [] {
      ActGood(w, Await);
    }
    ActGood(w, GiveUp);
  }

  lemma {:induction false} DiscardKeeps(w: World)
    requires Good(w) && w.phase.Discarding?
    ensures w.numPending > 0 && w.e.completed != [] ==> Good(w.(e := Take(w.e), numPending := w.numPending - 1))
  {
    hide Good;
    if w.e.completed != [] {
      DiscardGood(w);
    }
  }

  /** With a count of zero nothing is outstanding. */
  lemma {:induction false} NoneLeft(w: World)
    requires Good(w) && w.phase.Discarding? && w.numPending <= 0
    ensures w.numPending == 0 && w.e.completed == [] && w.e.pending == w.e.queued == w.e.events == []
    ensures Good(w.(phase := Ended))
  {
    GoodCounts(w);
    hide Good;
    PhaseGood(w, Ended);
  }

  lemma {:induction false} LoopIs(w: World, sink: int, turns: seq<Turn>)
    ensures DiscardLoop(w, sink, turns) ==
              if w.numPending <= 0 then w.(phase := Ended)
              else if w.e.completed != [] then
                DiscardLoop(w.(e := Take(w.e), numPending := w.numPending - 1), sink, turns)
              else if turns == [] then w
              else
                var v := w.(e := After(w.e, ThreadSteps(sink, turns[0].fs)));
                if GivesUp(v.e, turns[0].notified) then v else DiscardLoop(v, sink, turns[1..])
  {
    hide After, ThreadSteps, GivesUp, Take;
  }

  lemma {:induction false} FirstIs(toks: seq<int>, t: int, i: nat)
    requires i <= |toks| && (i < |toks| ==> toks[i] == t) && forall j :: 0 <= j < i ==> toks[j] != t
    ensures FirstOf(toks, t) == i
  {
  }
}
