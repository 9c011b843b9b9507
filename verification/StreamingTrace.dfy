/** The engine as an object with the source's fields.  Each method is one region of code that holds
    the lock, and does to the fields what the corresponding step does to the state.
 */
module StreamingTrace {
  import opened Bytes
  import opened TraceEngine
  import opened TraceContents

  datatype Result = Ok(token: nat) | NotAttached | NotStarted | InvalidType | Blocked | Timeout | CommsError

  class Trace {
    const dataBufferCount: nat
    var status: Status
    var queuedBuffers: seq<Buffer>
    var pendingBuffers: seq<Buffer>
    var eventBuffers: seq<Buffer>
    var completedEventTokens: seq<nat>
    var nextToken: nat
    var dataTransferTokens: seq<nat>
    var controlToken: int
    var usbNextToken: nat
    var memory: map<nat, Cell>
    var thread: ThreadAt
    ghost var issued: seq<Ticket>
    ghost var returned: seq<nat>
    ghost var sentFor: map<nat, nat>
    ghost var filled: map<nat, Cell>

    ghost function Abs(): State
      reads this
    {
      State(status, queuedBuffers, pendingBuffers, eventBuffers, completedEventTokens, dataTransferTokens, controlToken,
            usbNextToken, thread, dataBufferCount, memory, issued, returned, sentFor, filled)
    }

    ghost predicate Valid()
      reads this
    {
      nextToken == |issued| && Inv(Abs())
    }

    /** A sink just attached, its control request under way.  `spent` are tokens of earlier sessions. */
    constructor (dataBufferCount: nat, control: nat, spent: nat)
      ensures Valid() && Attached(Abs()) && this.dataBufferCount == dataBufferCount
      ensures status.ATTACHED? && completedEventTokens == [] && nextToken == spent && memory == map[]
    {
      this.dataBufferCount := dataBufferCount;
      status, queuedBuffers, pendingBuffers, eventBuffers, completedEventTokens := ATTACHED, [], [], [], [];
      nextToken, dataTransferTokens, controlToken, usbNextToken, memory, thread := spent, [], control, control + 1,
              map[], Between;
      issued, returned, sentFor, filled := seq(spent, i => Ticket(Void, 0)), [], map[], map[];
      new;
      FirstAttach(Abs());
      AttachedKeeps(Abs());
    }

    /** `submitBuffer`, and the move to the window. */
    method SubmitBuffer()
      requires queuedBuffers != []
      modifies this`queuedBuffers, this`pendingBuffers, this`dataTransferTokens, this`usbNextToken, this`sentFor
      ensures Abs() == SubmitOne(old(Abs()))
    {
      hide SubmitOne, Transported;
      OneInTwo(Abs());
      SubmitToTransport(queuedBuffers[0]);
      MoveToWindow();
    }

    /** The transport's token. */
    method SubmitToTransport(buf: Buffer)
      modifies this`dataTransferTokens, this`usbNextToken, this`sentFor
      ensures Abs() == Transported(old(Abs()), buf)
    {
      sentFor := sentFor[usbNextToken := buf.token];
      dataTransferTokens := dataTransferTokens + [usbNextToken];
      usbNextToken := usbNextToken + 1;
    }

    method MoveToWindow()
      requires queuedBuffers != []
      modifies this`queuedBuffers, this`pendingBuffers
      ensures Abs() == InWindow(old(Abs()))
    {
      var buf := queuedBuffers[0];
      queuedBuffers := queuedBuffers[1..];
      pendingBuffers := pendingBuffers + [buf];
    }

    /** `submitBuffers`. */
    method SubmitBuffers()
      modifies this`queuedBuffers, this`pendingBuffers, this`dataTransferTokens, this`usbNextToken, this`sentFor
      ensures Abs() == SubmitAll(old(Abs()))
    {
      while |pendingBuffers| < dataBufferCount && queuedBuffers != []
        invariant SubmitAll(Abs()) == SubmitAll(old(Abs()))
        decreases |queuedBuffers|
      {
        OneIs(Abs());
        SubmitBuffer();
      }
    }

    method SubmitEventBuffer(bufferType: EventType, ptr: nat) returns (r: Result)
      requires Valid()
      modifies this`memory, this`nextToken, this`issued, this`queuedBuffers, this`eventBuffers
      modifies this`pendingBuffers, this`dataTransferTokens, this`usbNextToken, this`sentFor
      ensures Valid() && Abs() == TraceEngine.SubmitBuffer(old(Abs()), bufferType, ptr)
      ensures r == if old(status).DETACHED? then NotAttached
                   else if bufferType.TypeData? || bufferType.TypeEvent? then Ok(old(nextToken)) else InvalidType
    {
      hide Inv, SubmitAll, Issue, TraceEngine.SubmitBuffer;
      SubmitKeeps(Abs(), bufferType, ptr);
      SubmitIs(Abs(), bufferType, ptr);
      if status.DETACHED? {
        return NotAttached;
      }
      var token := nextToken;
      if bufferType.TypeData? {
        TakeToken(Data, ptr);
        IssueIs(old(Abs()), Data, ptr);
        if status.ACTIVE? {
          SubmitBuffers();
        }
      } else if bufferType.TypeEvent? {
        TakeToken(Event, ptr);
      } else {
        TakeToken(Void, ptr);
        return InvalidType;
      }
      return Ok(token);
    }

    /** The buffer is reset and gets the next token, and goes to the end of the queue of its kind. */
    method TakeToken(kind: Kind, ptr: nat)
      requires nextToken == |issued|
      modifies this`memory, this`nextToken, this`issued, this`queuedBuffers, this`eventBuffers
      ensures nextToken == |issued| == old(nextToken) + 1 && Abs() == Issue(old(Abs()), kind, ptr)
    {
      hide Issue, Ticketed, Filed;
      IssueInTwo(Abs(), kind, ptr);
      var buf := Buffer(nextToken, ptr);
      NextTicket(kind, ptr);
      File(kind, buf);
    }

    method NextTicket(kind: Kind, ptr: nat)
      requires nextToken == |issued|
      modifies this`memory, this`nextToken, this`issued
      ensures nextToken == |issued| == old(nextToken) + 1 && Abs() == Ticketed(old(Abs()), kind, ptr)
    {
      memory := memory[ptr := Cell(TypeNone, [])];
      nextToken := nextToken + 1;
      issued := issued + [Ticket(kind, ptr)];
    }

    method File(kind: Kind, buf: Buffer)
      modifies this`queuedBuffers, this`eventBuffers
      ensures Abs() == Filed(old(Abs()), kind, buf)
    {
      if kind.Data? {
        queuedBuffers := queuedBuffers + [buf];
      } else if kind.Event? {
        eventBuffers := eventBuffers + [buf];
      }
    }

    /** `WaitForEvent` up to its wait: the oldest completed token, or the client blocks. */
    method WaitForEvent() returns (r: Result)
      requires Valid()
      modifies this`completedEventTokens, this`returned
      ensures Valid()
      ensures if old(completedEventTokens) == [] then r == Blocked && unchanged(this)
              else r == Ok(old(completedEventTokens)[0]) && Abs() == Take(old(Abs()))
    {
      if completedEventTokens == [] {
        return Blocked;
      }
      r := PopCompleted();
    }

    method PopCompleted() returns (r: Result)
      requires Valid() && completedEventTokens != []
      modifies this`completedEventTokens, this`returned
      ensures Valid() && r == Ok(old(completedEventTokens)[0]) && Abs() == Take(old(Abs()))
    {
      hide Inv;
      TakeKeeps(Abs());
      var token := completedEventTokens[0];
      completedEventTokens, returned := completedEventTokens[1..], returned + [token];
      return Ok(token);
    }

    /** `WaitForEvent` with the lock back, by a notification or the deadline.  Notified once the data thread
        has ended, it fails even if a token was pushed meanwhile; at the deadline it still takes one. */
    method ResumeWait(notified: bool) returns (r: Result)
      requires Valid()
      modifies this`completedEventTokens, this`returned
      ensures Valid()
      ensures r.CommsError? <==> notified && status.EXITED?
      ensures r.Timeout? <==> !notified && old(completedEventTokens) == []
      ensures r.Blocked? <==> notified && !status.EXITED? && old(completedEventTokens) == []
      ensures r.Ok? <==> old(completedEventTokens) != [] && !(notified && status.EXITED?)
      ensures if r.Ok? then r.token == old(completedEventTokens)[0] && Abs() == Take(old(Abs())) else unchanged(this)
    {
      if notified && status.EXITED? {
        return CommsError;
      }
      if completedEventTokens == [] {
        return if notified then Blocked else Timeout;
      }
      r := PopCompleted();
    }

    method Start() returns (ok: bool)
      requires Valid()
      modifies this
      ensures Valid() && Abs() == TraceEngine.Start(old(Abs())) && ok == !old(status).DETACHED?
    {
      StartKeeps(Abs());
      hide Inv, SubmitAll;
      if status.DETACHED? {
        return false;
      }
      status := ACTIVE;
      SubmitFrame(Abs());
      SubmitBuffers();
      if controlToken == -1 {
        SubmitControlRequest();
      }
      return true;
    }

    method SubmitControlRequest()
      modifies this`controlToken, this`usbNextToken
      ensures Abs() == ArmControl(old(Abs()))
    {
      controlToken := usbNextToken;
      usbNextToken := usbNextToken + 1;
    }

    /** The front event buffer becomes a completed one. */
    method CompleteFront(cell: Cell)
      requires eventBuffers != []
      modifies this`memory, this`eventBuffers, this`completedEventTokens, this`filled
      ensures Abs() == CompleteEvent(old(Abs()), cell)
    {
      var buf := eventBuffers[0];
      memory := memory[buf.ptr := cell];
      eventBuffers := eventBuffers[1..];
      completedEventTokens := completedEventTokens + [buf.token];
      filled := filled[buf.token := cell];
    }

    /** `doSendStateEvent`. */
    method DoSendStateEvent(typ: EventType)
      modifies this`memory, this`eventBuffers, this`completedEventTokens, this`filled
      ensures Abs() == StateEvent(old(Abs()), typ)
    {
      hide CompleteEvent;
      if eventBuffers != [] {
        var ptr := eventBuffers[0].ptr;
        CompleteFront(Cell(typ, if ptr in memory then memory[ptr].bytes else []));
      }
    }

    method SendStateEvent(typ: EventType)
      requires Valid()
      modifies this`memory, this`eventBuffers, this`completedEventTokens, this`filled
      ensures Valid() && Abs() == StateEvent(old(Abs()), typ)
    {
      StateEventKeeps(Abs(), typ);
      hide Inv, StateEvent;
      DoSendStateEvent(typ);
    }

    method Stop() returns (r: Result)
      requires Valid()
      modifies this`status, this`memory, this`eventBuffers, this`completedEventTokens, this`filled
      ensures Valid() && Abs() == TraceEngine.Stop(old(Abs()))
      ensures r.NotStarted? <==> !old(status).ACTIVE? && !old(status).DETACHING?
    {
      StopKeeps(Abs());
      hide Inv;
      if status.DETACHING? {
        return Ok(0);
      }
      if !status.ACTIVE? {
        return NotStarted;
      }
      status := DETACHING;
      CompleteEventBuffers();
      return Ok(0);
    }

    /** The loop of `Stop`. */
    method CompleteEventBuffers()
      modifies this`memory, this`eventBuffers, this`completedEventTokens, this`filled
      ensures Abs() == CompleteEvents(old(Abs()))
    {
      hide CompleteEvent;
      while eventBuffers != []
        invariant CompleteEvents(Abs()) == CompleteEvents(old(Abs()))
        decreases |eventBuffers|
      {
        EventIs(Abs());
        CompleteFront(Cell(TypeNone, []));
      }
    }

    /** The data thread up to the blocking call: false is the way out. */
    method BeginWait() returns (wait: bool)
      requires Valid() && thread.Between? && (status.DETACHED? || pendingBuffers != [])
      modifies this`thread
      ensures Valid() && Abs() == Enter(old(Abs())) && wait == !status.DETACHED?
    {
      ThreadKeeps(Abs());
      hide Inv;
      if status.DETACHED? {
        thread := Leaving;
        return false;
      }
      thread := Waiting;
      return true;
    }

    /** The data thread with a finished transfer, until it blocks again, has completed a buffer, or
        must end. */
    method EndWait(sink: int, f: Finished) returns (completed: bool)
      requires Valid() && thread.Waiting? && pendingBuffers != []
      modifies this`dataTransferTokens, this`memory, this`filled, this`pendingBuffers, this`thread
      modifies this`completedEventTokens, this`queuedBuffers, this`usbNextToken, this`sentFor
      modifies this`controlToken, this`eventBuffers
      ensures Valid() && Abs() == Finish(old(Abs()), sink, f)
      ensures completed <==> f.token != -1 && f.token != old(controlToken) && f.token == old(dataTransferTokens)[0]
    {
      hide Inv, ControlDone, DataDone, Finish;
      FinishKeeps(Abs(), sink, f);
      LinesMatch(Abs());
      FinishIs(Abs(), sink, f);
      completed := false;
      if f.token == -1 {
        thread := Leaving;
      } else if f.token == controlToken {
        CompleteUsbTransfer(sink, f);
      } else if f.token == dataTransferTokens[0] {
        CompleteDataTransfer(f);
        completed := true;
      } else {
        thread := Leaving;
      }
    }

    /** `completeUsbTransfer`. */
    method CompleteUsbTransfer(sink: int, f: Finished)
      modifies this`memory, this`filled, this`thread, this`completedEventTokens, this`usbNextToken
      modifies this`controlToken, this`eventBuffers
      ensures Abs() == ControlDone(old(Abs()), sink, f)
      ensures f.status.Success? && f.whole && f.message == EndSession(sink) && old(eventBuffers) != [] ==>
                && completedEventTokens == old(completedEventTokens) + [old(eventBuffers)[0].token]
                && eventBuffers == old(eventBuffers)[1..]
      ensures !f.status.Success? || !f.whole || f.message != EndSession(sink) ==>
                completedEventTokens == old(completedEventTokens) && eventBuffers == old(eventBuffers)
    {
      hide ArmControl;
      if f.status.Success? && f.whole {
        if f.message == EndSession(sink) {
          DoSendStateEvent(TypeEndOfData);
        }
        SubmitControlRequest();
      } else if f.status.NoData? {
        SubmitControlRequest();
      } else if f.status.Cancelled? && status.DETACHING? {
        SubmitControlRequest();
      } else {
        controlToken := -1;
        thread := Leaving;
      }
    }

    /** The buffer is written, the window moved on and filled up, and the token pushed. */
    method CompleteDataTransfer(f: Finished)
      requires pendingBuffers != [] && dataTransferTokens != []
      modifies this`dataTransferTokens, this`memory, this`filled, this`pendingBuffers, this`thread
      modifies this`completedEventTokens, this`queuedBuffers, this`usbNextToken, this`sentFor
      ensures Abs() == DataDone(old(Abs()), f)
      ensures completedEventTokens == old(completedEventTokens) + [old(pendingBuffers)[0].token]
      ensures old(pendingBuffers)[0].ptr in memory && Carries(memory[old(pendingBuffers)[0].ptr], f)
    {
      hide SubmitAll, DataFront, Carries;
      DataDoneIs(Abs(), f);
      var token := pendingBuffers[0].token;
      WriteFront(f);
      if status.ACTIVE? {
        SubmitBuffers();
      }
      completedEventTokens := completedEventTokens + [token];
    }

    method WriteFront(f: Finished)
      requires pendingBuffers != [] && dataTransferTokens != []
      modifies this`dataTransferTokens, this`memory, this`filled, this`pendingBuffers, this`thread
      ensures Abs() == DataFront(old(Abs()), f)
      ensures old(pendingBuffers)[0].ptr in memory && Carries(memory[old(pendingBuffers)[0].ptr], f)
    {
      hide DataFront, Written, Popped;
      FrontInTwo(Abs(), f);
      var cell;
      match f.status {
        case Success | InProgress => cell := Cell(TypeData, f.data);
        case Cancelled => cell := Cell(TypeEndOfData, []);
        case NoData => cell := Cell(TypeData, []);
        case Failed => cell := Cell(TypeError, []);
      }
      WriteBuffer(pendingBuffers[0], cell);
      PopFront();
    }

    method WriteBuffer(buf: Buffer, cell: Cell)
      modifies this`memory, this`filled
      ensures Abs() == Written(old(Abs()), buf, cell) && memory == old(memory)[buf.ptr := cell]
    {
      memory := memory[buf.ptr := cell];
      filled := filled[buf.token := cell];
    }

    method PopFront()
      requires pendingBuffers != [] && dataTransferTokens != []
      modifies this`dataTransferTokens, this`pendingBuffers, this`thread
      ensures Abs() == Popped(old(Abs()))
    {
      dataTransferTokens := dataTransferTokens[1..];
      pendingBuffers := pendingBuffers[1..];
      thread := Between;
    }

    /** The end of `dataThread`. */
    method ThreadExit()
      requires Valid() && thread.Leaving?
      modifies this`status, this`thread
      ensures Valid() && Abs() == Leave(old(Abs()))
    {
      ThreadKeeps(Abs());
      hide Inv;
      status, thread := EXITED, Gone;
    }

    /** The data thread while transfers finish one after the other. */
    method RunThread(sink: int, fs: seq<Finished>)
      requires Valid()
      modifies this
      ensures Valid() && Abs() == After(old(Abs()), ThreadSteps(sink, fs))
    {
      hide Inv, Enter, Finish, Leave, After, ThreadSteps;
      NoTurns(Abs(), sink);
      assert fs[..0] == [];
      for i := 0 to |fs|
        invariant Valid() && Abs() == After(old(Abs()), ThreadSteps(sink, fs[..i]))
      {
        TurnIs(old(Abs()), sink, fs[..i], fs[i]);
        assert fs[..i] + [fs[i]] == fs[..i + 1];
        ThreadTurn(sink, fs[i]);
      }
      assert fs[..|fs|] == fs;
    }

    method ThreadTurn(sink: int, f: Finished)
      requires Valid()
      modifies this
      ensures Valid() && Abs() == TurnOf(old(Abs()), sink, f)
    {
      hide Inv, Enter, Finish, Leave;
      if thread.Between? && (status.DETACHED? || pendingBuffers != []) {
        var wait := BeginWait();
      }
      if thread.Waiting? && pendingBuffers != [] {
        var completed := EndWait(sink, f);
      }
      if thread.Leaving? {
        ThreadExit();
      }
    }

    /** `Detach`: the status, the join of the data thread while the transfers of `during` finish, and the
        wait for what is pending, with those of `fs`.  Without a transfer that ends a wait it does not
        come back. */
    method Detach(sink: int, during: seq<Finished>, fs: seq<Finished>) returns (back: bool)
      requires Valid()
      modifies this
      ensures back <==> old(thread).Waiting? ==> Released(BeginDetach(old(Abs())), ThreadSteps(sink, during))
      ensures var s := Joined(old(Abs()), ThreadSteps(sink, during));
              Abs() == if back then TraceEngine.FinishDetach(s, sink, fs) else s
      ensures if back then Detached() else Valid()
    {
      hide Inv, After, ThreadSteps, TraceEngine.FinishDetach, Settled, Released, Enter, Leave;
      ghost var es := ThreadSteps(sink, during);
      ThreadOnly(sink, during);
      DetachReturns(Abs(), es);
      JoinedIs(Abs(), es);
      DetachSink();
      RunThread(sink, during);
      LeaveTurn();
      back := thread.Gone?;
      if back {
        FinishDetach(sink, fs);
      }
    }

    /** The start of `Detach`, up to the point where it waits for the thread. */
    method DetachSink()
      requires Valid()
      modifies this`status
      ensures Valid() && Abs() == BeginDetach(old(Abs()))
    {
      ThreadKeeps(Abs());
      hide Inv;
      status := DETACHED;
    }

    /** The data thread's way out of a detached sink, unless it is waiting. */
    method LeaveTurn()
      requires Valid()
      modifies this
      ensures Valid() && Abs() == Try(Try(old(Abs()), DoEnter), DoLeave)
    {
      hide Inv, Enter, Leave;
      if thread.Between? && (status.DETACHED? || pendingBuffers != []) {
        var wait := BeginWait();
      }
      if thread.Leaving? {
        ThreadExit();
      }
    }

    /** The rest of `Detach` once the thread is gone, with what the transport finishes meanwhile. */
    method FinishDetach(sink: int, fs: seq<Finished>)
      modifies this
      ensures Abs() == TraceEngine.FinishDetach(old(Abs()), sink, fs)
      ensures old(Valid()) ==> Detached()
    {
      if Valid() {
        DetachEnd(Abs(), sink, fs);
      }
      hide TraceEngine.FinishDetach, Settled, Inv;
      AwaitPending(sink, fs);
    }

    /** One transfer that finishes during these waits; the thread is gone, whatever the transfer says. */
    method AwaitOne(sink: int, f: Finished) returns (more: bool)
      requires pendingBuffers != []
      modifies this
      ensures nextToken == old(nextToken)
      ensures var s := old(Abs());
              if f.token == -1 then !more && Abs() == s
              else if f.token == s.control then
                Abs() == ControlDone(s, sink, f).(thread := s.thread) && more == (Abs().control != -1)
              else if s.usb != [] && f.token == s.usb[0] then more && Abs() == DataFront(s, f).(thread := s.thread)
              else !more && Abs() == s
    {
      hide ControlDone, DataFront, Carries;
      var gone := thread;
      more := false;
      if f.token == -1 {
      } else if f.token == controlToken {
        CompleteUsbTransfer(sink, f);
        thread, more := gone, controlToken != -1;
      } else if dataTransferTokens != [] && f.token == dataTransferTokens[0] {
        WriteFront(f);
        thread, more := gone, true;
      }
    }

    /** The wait loop, and the clearing of the queues. */
    method AwaitPending(sink: int, fs: seq<Finished>)
      modifies this
      ensures Abs() == TraceEngine.FinishDetach(old(Abs()), sink, fs) && nextToken == old(nextToken)
    {
      hide TraceEngine.FinishDetach, ControlDone, DataFront, Clear, Carries;
      var i := 0;
      assert fs[0..] == fs;
      while pendingBuffers != [] && i < |fs|
        invariant i <= |fs| && nextToken == old(nextToken)
        invariant TraceEngine.FinishDetach(Abs(), sink, fs[i..]) == TraceEngine.FinishDetach(old(Abs()), sink, fs)
        decreases |fs| - i
      {
        DetachIs(Abs(), sink, fs[i..]);
        assert fs[i..][1..] == fs[i + 1..];
        var more := AwaitOne(sink, fs[i]);
        i := i + 1;
        if !more {
          break;
        }
      }
      DetachEnds(Abs(), sink, fs[i..]);
      ClearQueues();
    }

    /** `Attach` after an earlier session: its history starts anew, and when the detach left nothing with the
        transport it is a session like any other. */
    method AttachSink()
      modifies this`status, this`thread, this`controlToken, this`usbNextToken, this`issued, this`returned
      ensures Abs() == Renewed(Attach(old(Abs())))
      ensures old(Detached() && dataTransferTokens == []) ==> Valid() && Attached(Abs())
    {
      hide Inv, Settled, Attached, Attach, Opened, ArmControl;
      ghost var s := Abs();
      AttachIs(s);
      if Detached() && dataTransferTokens == [] {
        SessionBegins(s);
      }
      BeginSession();
      SubmitControlRequest();
      assert Abs() == Attach(s);
      Renew();
    }

    method BeginSession()
      modifies this`status, this`thread
      ensures Abs() == Opened(old(Abs()))
    {
      if status.DETACHED? {
        status := ATTACHED;
      }
      thread := Between;
    }

    ghost method Renew()
      modifies this`issued, this`returned
      ensures Abs() == Renewed(old(Abs()))
    {
      issued, returned := Relabel(issued, completedEventTokens), [];
    }

    /** What a detach leaves. */
    ghost predicate Detached()
      reads this
    {
      && nextToken == |issued| && Settled(Abs()) && -1 <= controlToken < usbNextToken
      && queuedBuffers == pendingBuffers == eventBuffers == []
    }

    method ClearQueues()
      modifies this`queuedBuffers, this`pendingBuffers, this`eventBuffers
      ensures Abs() == Clear(old(Abs()))
    {
      queuedBuffers, pendingBuffers, eventBuffers := [], [], [];
    }
  }

  lemma {:induction false} DetachEnd(s: State, sink: int, fs: seq<Finished>)
    requires Inv(s)
    ensures var t := TraceEngine.FinishDetach(s, sink, fs);
            && Settled(t) && t.issued == s.issued && -1 <= t.control < t.nextUsb
            && t.queued == t.pending == t.events == []
  {
    InvSettled(s);
    DetachSettled(s, sink, fs);
    DetachWired(s, sink, fs);
  }

  function Opened(s: State): State {
    s.(status := if s.status.DETACHED? then ATTACHED else s.status, thread := Between)
  }

  lemma {:induction false} AttachIs(s: State)
    ensures Attach(s) == ArmControl(Opened(s))
  {
  }

  lemma {:induction false} SessionBegins(s: State)
    requires Settled(s) && -1 <= s.control < s.nextUsb && s.queued == s.pending == s.events == [] && s.usb == []
    ensures Attached(Renewed(Attach(s))) && Inv(Renewed(Attach(s)))
  {
    RenewedLined(s);
    hide Inv, Lined, Settled, Relabel;
    AttachedKeeps(Renewed(Attach(s)));
  }

  // ---------------------------------------------------------------------------------------------
  // Steps in two parts

  function Transported(s: State, b: Buffer): (t: State)
    ensures t.queued == s.queued
  {
    s.(usb := s.usb + [s.nextUsb], sentFor := s.sentFor[s.nextUsb := b.token], nextUsb := s.nextUsb + 1)
  }

  function InWindow(s: State): State
    requires s.queued != []
  {
    s.(queued := s.queued[1..], pending := s.pending + [s.queued[0]])
  }

  lemma {:induction false} OneInTwo(s: State)
    requires s.queued != []
    ensures SubmitOne(s) == InWindow(Transported(s, s.queued[0]))
  {
  }

  function Ticketed(s: State, k: Kind, ptr: nat): (t: State)
    ensures t.queued == s.queued && t.events == s.events
  {
    Put(s, ptr, Cell(TypeNone, [])).(issued := s.issued + [Ticket(k, ptr)])
  }

  function Filed(s: State, k: Kind, b: Buffer): (t: State)
    ensures t.issued == s.issued
  {
    match k
    case Data => s.(queued := s.queued + [b])
    case Event => s.(events := s.events + [b])
    case Void => s
  }

  lemma {:induction false} IssueInTwo(s: State, k: Kind, ptr: nat)
    ensures Issue(s, k, ptr) == Filed(Ticketed(s, k, ptr), k, Buffer(|s.issued|, ptr))
  {
  }

  function Written(s: State, b: Buffer, c: Cell): (t: State)
    ensures t.pending == s.pending && t.usb == s.usb
  {
    s.(cells := s.cells[b.ptr := c], filled := s.filled[b.token := c])
  }

  function Popped(s: State): State
    requires s.pending != [] && s.usb != []
  {
    s.(usb := s.usb[1..], pending := s.pending[1..], thread := Between)
  }

  lemma {:induction false} FrontInTwo(s: State, f: Finished)
    requires s.pending != [] && s.usb != []
    ensures DataFront(s, f) == Popped(Written(s, s.pending[0], Outcome(f)))
  {
    hide Outcome;
  }

  function Try(s: State, e: Step): State {
    if Enabled(s, e) then Next(s, e) else s
  }

  /** What the data thread does around one finished transfer. */
  function TurnOf(s: State, sink: int, f: Finished): State {
    Try(Try(Try(s, DoEnter), DoFinish(sink, f)), DoLeave)
  }

  lemma {:induction false} NoTurns(s: State, sink: int)
    ensures After(s, ThreadSteps(sink, [])) == s
  {
  }

  lemma {:induction false} AfterSnoc(s: State, es: seq<Step>, e: Step)
    ensures After(s, es + [e]) == Try(After(s, es), e)
  {
    hide Next, Enabled;
    assert (es + [e])[..|es|] == es;
  }

  lemma {:induction false} JoinedIs(s: State, es: seq<Step>)
    ensures Joined(s, es) == Try(Try(After(BeginDetach(s), es), DoEnter), DoLeave)
  {
    hide After, Try;
    assert es + [DoEnter, DoLeave] == es + [DoEnter] + [DoLeave];
    AfterSnoc(BeginDetach(s), es, DoEnter);
    AfterSnoc(BeginDetach(s), es + [DoEnter], DoLeave);
  }

  lemma {:induction false} ThreadOnly(sink: int, fs: seq<Finished>)
    ensures forall i :: 0 <= i < |ThreadSteps(sink, fs)| ==> NotRestarted(ThreadSteps(sink, fs)[i])
  {
    hide ThreadSteps;
  }

  lemma {:induction false} TurnIs(s: State, sink: int, fs: seq<Finished>, f: Finished)
    ensures After(s, ThreadSteps(sink, fs + [f])) == TurnOf(After(s, ThreadSteps(sink, fs)), sink, f)
  {
    assert (fs + [f])[..|fs|] == fs;
    var es, x := ThreadSteps(sink, fs), DoFinish(sink, f);
    assert es + [DoEnter, x, DoLeave] == es + [DoEnter] + [x] + [DoLeave];
    hide After, ThreadSteps, Try;
    AfterSnoc(s, es, DoEnter);
    AfterSnoc(s, es + [DoEnter], x);
    AfterSnoc(s, es + [DoEnter] + [x], DoLeave);
    assert ThreadSteps(sink, fs + [f]) == es + [DoEnter, x, DoLeave] by { StepsSnoc(sink, fs, f); }
  }

  lemma {:induction false} StepsSnoc(sink: int, fs: seq<Finished>, f: Finished)
    ensures ThreadSteps(sink, fs + [f]) == ThreadSteps(sink, fs) + [DoEnter, DoFinish(sink, f), DoLeave]
  {
    assert (fs + [f])[..|fs|] == fs;
  }

  /** One turn of the loop of `Detach`. */
  lemma {:induction false} DetachIs(s: State, sink: int, fs: seq<Finished>)
    requires s.pending != [] && fs != []
    ensures TraceEngine.FinishDetach(s, sink, fs) ==
              if fs[0].token == -1 then Clear(s)
              else if fs[0].token == s.control then
                var t := ControlDone(s, sink, fs[0]).(thread := s.thread);
                if t.control == -1 then Clear(t) else TraceEngine.FinishDetach(t, sink, fs[1..])
              else if s.usb != [] && fs[0].token == s.usb[0] then
                TraceEngine.FinishDetach(DataFront(s, fs[0]).(thread := s.thread), sink, fs[1..])
              else Clear(s)
  {
    hide ControlDone, DataFront, Clear;
  }

  lemma {:induction false} DetachEnds(s: State, sink: int, fs: seq<Finished>)
    ensures s.pending == [] || fs == [] ==> TraceEngine.FinishDetach(s, sink, fs) == Clear(s)
  {
    hide ControlDone, DataFront, Clear;
  }

  lemma {:induction false} OneIs(s: State)
    requires |s.pending| < s.window && s.queued != []
    ensures SubmitAll(s) == SubmitAll(SubmitOne(s))
  {
  }

  lemma {:induction false} EventIs(s: State)
    requires s.events != []
    ensures CompleteEvents(s) == CompleteEvents(CompleteEvent(s, Cell(TypeNone, [])))
    ensures CompleteEvent(s, Cell(TypeNone, [])).events == s.events[1..]
  {
  }

  lemma {:induction false} IssueIs(s: State, k: Kind, ptr: nat)
    ensures var t := Issue(s, k, ptr); t.status == s.status && |t.issued| == |s.issued| + 1
  {
  }

  lemma {:induction false} FinishIs(s: State, sink: int, f: Finished)
    requires s.pending != [] && s.usb != []
    ensures Finish(s, sink, f) ==
              if f.token != -1 && f.token == s.control then ControlDone(s, sink, f)
              else if f.token != -1 && f.token == s.usb[0] then DataDone(s, f)
              else s.(thread := Leaving)
  {
    hide ControlDone, DataDone;
  }

  lemma {:induction false} DataDoneIs(s: State, f: Finished)
    requires s.pending != [] && s.usb != []
    ensures var t := DataFront(s, f);
            var u := if s.status.ACTIVE? then SubmitAll(t) else t;
            t.status == s.status && DataDone(s, f) == u.(completed := u.completed + [s.pending[0].token])
  {
    hide SubmitAll;
  }
}
