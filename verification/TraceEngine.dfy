/** The streaming-trace buffer engine for one attached sink: a client hands buffers in and gets
    tokens, a bounded window of data buffers is with the transport, a data thread completes them.
    Every step is one region of code that holds the lock.
 */
module TraceEngine {
  import opened Bytes

  datatype Status = DETACHED | ATTACHED | ACTIVE | DETACHING | EXITED

  /** Buffer types a client asks for, and those it finds in a completed buffer. */
  datatype EventType = TypeNone | TypeData | TypeEvent | TypeEndOfData | TypeError | TypeOther

  datatype Buffer = Buffer(token: nat, ptr: nat)

  /** A client's buffer, found through its pointer: its type and its used bytes. */
  datatype Cell = Cell(typ: EventType, bytes: seq<byte>)

  /** What a token was handed out for; `Void` for one spent on a request of an invalid type, or
      spent before the sink was attached. */
  datatype Kind = Data | Event | Void

  datatype Ticket = Ticket(kind: Kind, ptr: nat)

  /** Where the data thread is: between two calls of `WaitForDataEvent`; inside `waitForBuffer`, with
      the lock dropped; on its way out; gone. */
  datatype ThreadAt = Between | Waiting | Leaving | Gone

  datatype Transfer = Success | InProgress | Cancelled | NoData | Failed

  /** The engine's fields; the client's buffers; and the history: `issued[t]` is what token `t` was
      for, `sentFor` gives the buffer token of a transport token, `filled` what a completed buffer
      held when it completed. */
  datatype State = State(
    status: Status, queued: seq<Buffer>, pending: seq<Buffer>, events: seq<Buffer>, completed: seq<nat>,
    usb: seq<nat>, control: int, nextUsb: nat, thread: ThreadAt, window: nat, cells: map<nat, Cell>,
    issued: seq<Ticket>, returned: seq<nat>, sentFor: map<nat, nat>, filled: map<nat, Cell>)

  function Put(s: State, ptr: nat, c: Cell): State {
    s.(cells := s.cells[ptr := c])
  }

  // ---------------------------------------------------------------------------------------------
  // Steps

  /** One turn of `submitBuffers`. */
  function SubmitOne(s: State): State
    requires s.queued != []
  {
    var b := s.queued[0];
    s.(usb := s.usb + [s.nextUsb], sentFor := s.sentFor[s.nextUsb := b.token], nextUsb := s.nextUsb + 1,
       queued := s.queued[1..], pending := s.pending + [b])
  }

  function SubmitAll(s: State): State
    decreases |s.queued|
  {
    if |s.pending| < s.window && s.queued != [] then SubmitAll(SubmitOne(s)) else s
  }

  /** `SubmitEventBuffer`: refused when detached; a token is spent on an invalid type too. */
  function SubmitBuffer(s: State, typ: EventType, ptr: nat): State {
    if s.status.DETACHED? then s
    else
      var b := Buffer(|s.issued|, ptr);
      var t := Put(s, ptr, Cell(TypeNone, []));
      match typ
      case TypeData =>
        var u := t.(queued := t.queued + [b], issued := t.issued + [Ticket(Data, ptr)]);
        if u.status.ACTIVE? then SubmitAll(u) else u
      case TypeEvent => t.(events := t.events + [b], issued := t.issued + [Ticket(Event, ptr)])
      case _ => t.(issued := t.issued + [Ticket(Void, ptr)])
  }

  /** A fresh control channel request. */
  function ArmControl(s: State): State {
    s.(control := s.nextUsb, nextUsb := s.nextUsb + 1)
  }

  function Start(s: State): State {
    if s.status.DETACHED? then s
    else
      var t := SubmitAll(s.(status := ACTIVE));
      if t.control == -1 then ArmControl(t) else t
  }

  /** The front event buffer completes with what is in its cell now. */
  function CompleteEvent(s: State, c: Cell): State
    requires s.events != []
  {
    var b := s.events[0];
    Put(s, b.ptr, c).(events := s.events[1..], completed := s.completed + [b.token], filled := s.filled[b.token := c])
  }

  function CompleteEvents(s: State): State
    decreases |s.events|
  {
    if s.events == [] then s else CompleteEvents(CompleteEvent(s, Cell(TypeNone, [])))
  }

  /** `Stop`: a second call does nothing, a call on a sink that is not running is refused. */
  function Stop(s: State): State {
    if s.status.ACTIVE? then CompleteEvents(s.(status := DETACHING)) else s
  }

  /** `doSendStateEvent`: the type of an event buffer changes, its content does not. */
  function StateEvent(s: State, typ: EventType): State {
    if s.events == [] then s
    else
      var p := s.events[0].ptr;
      CompleteEvent(s, Cell(typ, if p in s.cells then s.cells[p].bytes else []))
  }

  /** `WaitForEvent` with something completed. */
  function Take(s: State): State
    requires s.completed != []
  {
    s.(completed := s.completed[1..], returned := s.returned + [s.completed[0]])
  }

  /** The data thread begins `WaitForDataEvent` and finds a buffer, or a detached sink. */
  function Enter(s: State): State {
    if s.status.DETACHED? then s.(thread := Leaving) else s.(thread := Waiting)
  }

  /** What the control channel brought: the end of a session, or anything else. */
  datatype Message = EndSession(sink: int) | OtherMessage

  /** A finished transfer as the data thread sees it. */
  datatype Finished = Finished(token: int, status: Transfer, data: seq<byte>, whole: bool, message: Message)

  /** `completeUsbTransfer`: the control request is repeated unless it failed, or was cancelled
      while the sink is not being stopped. */
  function ControlDone(s: State, sink: int, f: Finished): State {
    if f.status.Success? && f.whole then
      ArmControl(if f.message == EndSession(sink) then StateEvent(s, TypeEndOfData) else s)
    else if f.status.NoData? || (f.status.Cancelled? && s.status.DETACHING?) then ArmControl(s)
    else s.(control := -1, thread := Leaving)
  }

  /** What a data transfer leaves in its buffer. */
  function Outcome(f: Finished): Cell {
    match f.status
    case Success => Cell(TypeData, f.data)
    case InProgress => Cell(TypeData, f.data)
    case Cancelled => Cell(TypeEndOfData, [])
    case NoData => Cell(TypeData, [])
    case Failed => Cell(TypeError, [])
  }

  /** The front buffer is written and taken off the window. */
  function DataFront(s: State, f: Finished): State
    requires s.pending != [] && s.usb != []
  {
    var b := s.pending[0];
    Put(s, b.ptr, Outcome(f)).(usb := s.usb[1..], pending := s.pending[1..], thread := Between,
                               filled := s.filled[b.token := Outcome(f)])
  }

  /** The front buffer completes: written, taken off the window, the window filled up, and its token
      pushed, all before the lock is released. */
  function DataDone(s: State, f: Finished): State
    requires s.pending != [] && s.usb != []
  {
    var t := DataFront(s, f);
    var u := if t.status.ACTIVE? then SubmitAll(t) else t;
    u.(completed := u.completed + [s.pending[0].token])
  }

  /** `waitForBuffer` with the lock back: the control token is looked for first, then the token at
      the front of the line; anything else ends the thread. */
  function Finish(s: State, sink: int, f: Finished): State
    requires s.pending != []
  {
    if f.token == -1 then s.(thread := Leaving)
    else if f.token == s.control then ControlDone(s, sink, f)
    else if s.usb != [] && f.token == s.usb[0] then DataDone(s, f)
    else s.(thread := Leaving)
  }

  function Leave(s: State): State {
    s.(status := EXITED, thread := Gone)
  }

  /** The first half of `Detach`. */
  function BeginDetach(s: State): State {
    s.(status := DETACHED)
  }

  datatype Step =
    | DoSubmit(typ: EventType, ptr: nat)
    | DoStart
    | DoStop
    | DoStateEvent(typ: EventType)
    | DoTake
    | DoEnter
    | DoFinish(sink: int, f: Finished)
    | DoLeave
    | DoDetach

  predicate Enabled(s: State, e: Step) {
    match e
    case DoTake => s.completed != []
    case DoEnter => s.thread.Between? && (s.status.DETACHED? || s.pending != [])
    case DoFinish(_, _) => s.thread.Waiting? && s.pending != []
    case DoLeave => s.thread.Leaving?
    case _ => true
  }

  function Next(s: State, e: Step): State
    requires Enabled(s, e)
  {
    match e
    case DoSubmit(typ, ptr) => SubmitBuffer(s, typ, ptr)
    case DoStart => Start(s)
    case DoStop => Stop(s)
    case DoStateEvent(typ) => StateEvent(s, typ)
    case DoTake => Take(s)
    case DoEnter => Enter(s)
    case DoFinish(sink, f) => Finish(s, sink, f)
    case DoLeave => Leave(s)
    case DoDetach => BeginDetach(s)
  }

  /** A run; steps that cannot be taken are left out of it. */
  function After(s: State, es: seq<Step>): State
    decreases |es|
  {
    if es == [] then s
    else
      var t := After(s, es[..|es| - 1]);
      if Enabled(t, es[|es| - 1]) then Next(t, es[|es| - 1]) else t
  }

  /** What the data thread does with transfers that finish one after the other: for each it blocks if it
      has not, takes the transfer, and leaves if it must; what it cannot do it does not. */
  function ThreadSteps(sink: int, fs: seq<Finished>): (es: seq<Step>)
    ensures forall i :: 0 <= i < |es| ==> es[i].DoEnter? || es[i].DoFinish? || es[i].DoLeave?
  {
    if fs == [] then []
    else ThreadSteps(sink, fs[..|fs| - 1]) + [DoEnter, DoFinish(sink, fs[|fs| - 1]), DoLeave]
  }

  // ---------------------------------------------------------------------------------------------
  // Where tokens are

  function Toks(bs: seq<Buffer>): (ts: seq<nat>)
    ensures |ts| == |bs| && forall i :: 0 <= i < |bs| ==> ts[i] == bs[i].token
  {
    seq(|bs|, i requires 0 <= i < |bs| => bs[i].token)
  }

  /** All tokens of a kind, in the order they were handed out. */
  function OfKind(issued: seq<Ticket>, k: Kind): (ts: seq<nat>)
    ensures forall i :: 0 <= i < |ts| ==> ts[i] < |issued|
  {
    if issued == [] then []
    else
      var n := |issued| - 1;
      OfKind(issued[..n], k) + if issued[n].kind == k then [n] else []
  }

  predicate IsKind(t: nat, issued: seq<Ticket>, k: Kind) {
    t < |issued| && issued[t].kind == k
  }

  /** The tokens of a kind in a line of tokens. */
  function Only(ts: seq<nat>, issued: seq<Ticket>, k: Kind): seq<nat> {
    if ts == [] then []
    else
      var n := |ts| - 1;
      Only(ts[..n], issued, k) + if IsKind(ts[n], issued, k) then [ts[n]] else []
  }

  function Handed(s: State): seq<nat> {
    s.returned + s.completed
  }

  /** Tokens handed on were handed out for a buffer. */
  predicate AllSpent(handed: seq<nat>, issued: seq<Ticket>) {
    forall i :: 0 <= i < |handed| ==> handed[i] < |issued| && !issued[handed[i]].kind.Void?
  }

  /** The data tokens handed on, then those of the line of data buffers, are all data tokens in the
      order of their submission; likewise those of event buffers. */
  predicate Lined(handed: seq<nat>, issued: seq<Ticket>, line: seq<Buffer>, events: seq<Buffer>) {
    && Only(handed, issued, Data) + Toks(line) == OfKind(issued, Data)
    && Only(handed, issued, Event) + Toks(events) == OfKind(issued, Event)
    && AllSpent(handed, issued)
  }

  /** Returned, completed, pending and queued, in this order. */
  predicate InLine(s: State) {
    Lined(Handed(s), s.issued, s.pending + s.queued, s.events)
  }

  /** Buffers are those their tokens were handed out for. */
  predicate Owned(bs: seq<Buffer>, issued: seq<Ticket>, k: Kind) {
    forall i :: 0 <= i < |bs| ==> bs[i].token < |issued| && issued[bs[i].token] == Ticket(k, bs[i].ptr)
  }

  /** The transport's tokens run in step with the pending buffers, each issued for its own. */
  predicate Wired(s: State) {
    && |s.usb| == |s.pending| && -1 <= s.control < s.nextUsb
    && (forall i :: 0 <= i < |s.usb| ==> s.usb[i] < s.nextUsb && s.usb[i] != s.control
                                         && s.usb[i] in s.sentFor && s.sentFor[s.usb[i]] == s.pending[i].token)
    && (forall i, j :: 0 <= i < j < |s.usb| ==> s.usb[i] < s.usb[j])
  }

  /** The window is never overrun, and while the sink is active nothing waits unless it is full. */
  predicate Windowed(s: State) {
    && |s.pending| <= s.window
    && (s.status.ACTIVE? ==> s.queued == [] || |s.pending| == s.window)
    && (s.thread.Waiting? ==> s.pending != [])
  }

  predicate Inv(s: State) {
    && InLine(s) && Owned(s.pending + s.queued, s.issued, Data) && Owned(s.events, s.issued, Event)
    && Wired(s) && Windowed(s)
  }

  // ---------------------------------------------------------------------------------------------
  // Lines

  lemma {:induction false} OnlySnoc(ts: seq<nat>, t: nat, issued: seq<Ticket>, k: Kind)
    ensures Only(ts + [t], issued, k) == Only(ts, issued, k) + if IsKind(t, issued, k) then [t] else []
  {
    assert (ts + [t])[..|ts|] == ts;
  }

  lemma {:induction false} OnlyGrow(ts: seq<nat>, issued: seq<Ticket>, x: Ticket, k: Kind)
    requires forall i :: 0 <= i < |ts| ==> ts[i] < |issued|
    ensures Only(ts, issued + [x], k) == Only(ts, issued, k)
  {
    if ts != [] {
      OnlyGrow(ts[..|ts| - 1], issued, x, k);
    }
  }

  lemma {:induction false} OfKindSnoc(issued: seq<Ticket>, x: Ticket, k: Kind)
    ensures OfKind(issued + [x], k) == OfKind(issued, k) + if x.kind == k then [|issued|] else []
  {
    assert (issued + [x])[..|issued|] == issued;
  }

  lemma {:induction false} ToksAppend(a: seq<Buffer>, b: seq<Buffer>)
    ensures Toks(a + b) == Toks(a) + Toks(b)
  {
  }

  lemma {:induction false} ToksFirst(bs: seq<Buffer>)
    requires bs != []
    ensures Toks(bs) == [bs[0].token] + Toks(bs[1..])
  {
  }

  /** A new token goes to the end of the line of its kind. */
  lemma {:induction false} LinedIssue(handed: seq<nat>, issued: seq<Ticket>, line: seq<Buffer>, events: seq<Buffer>,
          x: Ticket)
    requires Lined(handed, issued, line, events)
    ensures var b := [Buffer(|issued|, x.ptr)];
            Lined(handed, issued + [x], if x.kind.Data? then line + b else line,
                    if x.kind.Event? then events + b else events)
  {
    assert AllSpent(handed, issued + [x]);
    OnlyGrow(handed, issued, x, Data);
    OnlyGrow(handed, issued, x, Event);
    hide AllSpent;
    OfKindSnoc(issued, x, Data);
    OfKindSnoc(issued, x, Event);
    hide Only, OfKind;
    var b := [Buffer(|issued|, x.ptr)];
    ToksAppend(line, b);
    ToksAppend(events, b);
    assert Toks(b) == [|issued|];
    hide Toks;
    assert Only(handed, issued, Data) + (Toks(line) + Toks(b)) == Only(handed, issued, Data) + Toks(line) + Toks(b);
    assert Only(handed, issued, Event) + (Toks(events) + Toks(b))
        == Only(handed, issued, Event) + Toks(events) + Toks(b);
  }

  lemma {:induction false} Regroup(a: seq<nat>, t: nat, b: seq<nat>)
    ensures a + ([t] + b) == (a + [t]) + b && a + [] == a
  {
  }

  lemma {:induction false} HandedSnoc(handed: seq<nat>, issued: seq<Ticket>, t: nat)
    requires AllSpent(handed, issued) && t < |issued| && !issued[t].kind.Void?
    ensures AllSpent(handed + [t], issued)
  {
  }

  /** The front of the data line is handed on. */
  lemma {:induction false} LinedData(handed: seq<nat>, issued: seq<Ticket>, line: seq<Buffer>, events: seq<Buffer>)
    requires Lined(handed, issued, line, events) && line != [] && IsKind(line[0].token, issued, Data)
    ensures Lined(handed + [line[0].token], issued, line[1..], events)
  {
    var t := line[0].token;
    OnlySnoc(handed, t, issued, Data);
    OnlySnoc(handed, t, issued, Event);
    ToksFirst(line);
    hide Only, OfKind, Toks, AllSpent;
    Regroup(Only(handed, issued, Data), t, Toks(line[1..]));
    Regroup(Only(handed, issued, Event), t, []);
    HandedSnoc(handed, issued, t);
  }

  lemma {:induction false} LinedEvent(handed: seq<nat>, issued: seq<Ticket>, line: seq<Buffer>, events: seq<Buffer>)
    requires Lined(handed, issued, line, events) && events != [] && IsKind(events[0].token, issued, Event)
    ensures Lined(handed + [events[0].token], issued, line, events[1..])
  {
    var t := events[0].token;
    OnlySnoc(handed, t, issued, Data);
    OnlySnoc(handed, t, issued, Event);
    ToksFirst(events);
    hide Only, OfKind, Toks, AllSpent;
    Regroup(Only(handed, issued, Event), t, Toks(events[1..]));
    Regroup(Only(handed, issued, Data), t, []);
    HandedSnoc(handed, issued, t);
  }

  lemma {:induction false} OwnedGrow(bs: seq<Buffer>, issued: seq<Ticket>, x: Ticket, k: Kind)
    requires Owned(bs, issued, k)
    ensures Owned(bs, issued + [x], k)
    ensures x.kind == k ==> Owned(bs + [Buffer(|issued|, x.ptr)], issued + [x], k)
  {
  }

  lemma {:induction false} OwnedFirst(bs: seq<Buffer>, issued: seq<Ticket>, k: Kind)
    requires Owned(bs, issued, k) && bs != []
    ensures IsKind(bs[0].token, issued, k) && Owned(bs[1..], issued, k)
  {
  }

  // ---------------------------------------------------------------------------------------------
  // What every step keeps

  /** The invariant without the demand that an active window be full. */
  predicate Core(s: State) {
    && InLine(s) && Owned(s.pending + s.queued, s.issued, Data) && Owned(s.events, s.issued, Event) && Wired(s)
    && |s.pending| <= s.window && (s.thread.Waiting? ==> s.pending != [])
  }

  lemma {:induction false} OneKeeps(s: State)
    requires Core(s) && s.queued != [] && |s.pending| < s.window
    ensures Core(SubmitOne(s))
  {
    hide Lined, Owned;
    var t := SubmitOne(s);
    assert t.pending + t.queued == s.pending + s.queued;
  }

  /** `submitBuffers` moves buffers from the queue to the window in order, until either is done. */
  lemma {:induction false} AllKeeps(s: State)
    requires Core(s)
    ensures var t := SubmitAll(s);
            && Core(t) && (t.queued == [] || |t.pending| == t.window)
            && t.pending + t.queued == s.pending + s.queued && s.pending <= t.pending && s.usb <= t.usb
            && t == s.(queued := t.queued, pending := t.pending, usb := t.usb, sentFor := t.sentFor,
                   nextUsb := t.nextUsb)
    decreases |s.queued|
  {
    hide Core;
    if |s.pending| < s.window && s.queued != [] {
      var t := SubmitOne(s);
      assert t.pending + t.queued == s.pending + s.queued;
      OneKeeps(s);
      AllKeeps(t);
    } else {
      assert Core(s) ==> |s.pending| <= s.window by { WindowOf(s); }
    }
  }

  lemma {:induction false} WindowOf(s: State)
    requires Core(s)
    ensures |s.pending| <= s.window
  {
  }

  /** The state with one more ticket, before anything is submitted to the transport. */
  function Issue(s: State, k: Kind, ptr: nat): State {
    var b := [Buffer(|s.issued|, ptr)];
    Put(s, ptr, Cell(TypeNone, [])).(issued := s.issued + [Ticket(k, ptr)],
                                     queued := if k.Data? then s.queued + b else s.queued,
                                     events := if k.Event? then s.events + b else s.events)
  }

  lemma {:induction false} IssueParts(s: State, k: Kind, ptr: nat)
    ensures var t := Issue(s, k, ptr);
            var b := [Buffer(|s.issued|, ptr)];
            && Handed(t) == Handed(s) && t.issued == s.issued + [Ticket(k, ptr)]
            && t.pending + t.queued == (if k.Data? then s.pending + s.queued + b else s.pending + s.queued)
            && t.events == if k.Event? then s.events + b else s.events
  {
    assert s.pending + s.queued + [Buffer(|s.issued|, ptr)] == s.pending + (s.queued + [Buffer(|s.issued|, ptr)]);
  }

  lemma {:induction false} IssueLine(s: State, k: Kind, ptr: nat)
    requires InLine(s)
    ensures InLine(Issue(s, k, ptr))
  {
    hide Issue, Lined, Handed;
    IssueParts(s, k, ptr);
    LinedIssue(Handed(s), s.issued, s.pending + s.queued, s.events, Ticket(k, ptr));
  }

  lemma {:induction false} IssueOwned(s: State, k: Kind, ptr: nat)
    requires Owned(s.pending + s.queued, s.issued, Data) && Owned(s.events, s.issued, Event)
    ensures var t := Issue(s, k, ptr); Owned(t.pending + t.queued, t.issued, Data) && Owned(t.events, t.issued, Event)
  {
    var x, line := Ticket(k, ptr), s.pending + s.queued;
    var b := Buffer(|s.issued|, ptr);
    OwnedGrow(line, s.issued, x, Data);
    OwnedGrow(s.events, s.issued, x, Event);
    hide Owned;
    assert line + [b] == s.pending + (s.queued + [b]);
  }

  lemma {:induction false} IssueKeeps(s: State, k: Kind, ptr: nat)
    requires Inv(s)
    ensures Core(Issue(s, k, ptr)) && (!k.Data? ==> Inv(Issue(s, k, ptr)))
  {
    IssueLine(s, k, ptr);
    IssueOwned(s, k, ptr);
    SameWires(s, Issue(s, k, ptr));
    hide InLine, Owned, Wired;
  }

  lemma {:induction false} SameWires(s: State, t: State)
    requires Wired(s) && t.usb == s.usb && t.pending == s.pending && t.control == s.control
            && t.nextUsb == s.nextUsb && t.sentFor == s.sentFor
    ensures Wired(t)
  {
  }

  lemma {:induction false} WiredPop(s: State, t: State)
    requires Wired(s) && s.usb != [] && t.usb == s.usb[1..] && t.pending == s.pending[1..]
    requires t.control == s.control && t.nextUsb == s.nextUsb && t.sentFor == s.sentFor
    ensures Wired(t)
  {
  }

  lemma {:induction false} SubmitKeeps(s: State, typ: EventType, ptr: nat)
    requires Inv(s)
    ensures Inv(SubmitBuffer(s, typ, ptr))
  {
    if !s.status.DETACHED? {
      var kind := match typ case TypeData => Data case TypeEvent => Event case _ => Void;
      var u := Issue(s, kind, ptr);
      IssueKeeps(s, kind, ptr);
      SubmitIs(s, typ, ptr);
      if typ.TypeData? {
        if u.status.ACTIVE? {
          AllKeeps(u);
        }
        hide Lined, Owned, SubmitAll, SubmitBuffer, Issue, Wired, InLine;
      }
    }
  }

  lemma {:induction false} SubmitIs(s: State, typ: EventType, ptr: nat)
    ensures SubmitBuffer(s, typ, ptr) ==
      if s.status.DETACHED? then s
      else
        var u := Issue(s, match typ case TypeData => Data case TypeEvent => Event case _ => Void, ptr);
        if typ.TypeData? && u.status.ACTIVE? then SubmitAll(u) else u
  {
  }

  lemma {:induction false} ArmKeeps(s: State)
    requires Core(s)
    ensures Core(ArmControl(s))
  {
    hide Lined, Owned;
  }

  lemma {:induction false} StartKeeps(s: State)
    requires Inv(s)
    ensures Inv(Start(s))
  {
    if !s.status.DETACHED? {
      var u := s.(status := ACTIVE);
      assert Core(u) by { hide Lined, Owned; }
      AllKeeps(u);
      ArmKeeps(SubmitAll(u));
      hide Lined, Owned, SubmitAll;
    }
  }

  lemma {:induction false} EventKeeps(s: State, c: Cell)
    requires Inv(s) && s.events != []
    ensures Inv(CompleteEvent(s, c))
  {
    OwnedFirst(s.events, s.issued, Event);
    LinedEvent(Handed(s), s.issued, s.pending + s.queued, s.events);
    hide Lined, Owned;
    assert s.returned + (s.completed + [s.events[0].token]) == Handed(s) + [s.events[0].token];
  }

  lemma {:induction false} EventsKeep(s: State)
    requires Inv(s)
    ensures Inv(CompleteEvents(s)) && CompleteEvents(s).events == []
    decreases |s.events|
  {
    hide Inv;
    if s.events != [] {
      EventKeeps(s, Cell(TypeNone, []));
      EventsKeep(CompleteEvent(s, Cell(TypeNone, [])));
    }
  }

  lemma {:induction false} StopKeeps(s: State)
    requires Inv(s)
    ensures Inv(Stop(s))
  {
    if s.status.ACTIVE? {
      var u := s.(status := DETACHING);
      assert Inv(u) by { hide Lined, Owned; }
      EventsKeep(u);
    }
    hide Inv;
  }

  lemma {:induction false} StateEventKeeps(s: State, typ: EventType)
    requires Inv(s)
    ensures Inv(StateEvent(s, typ))
  {
    hide Inv;
    if s.events != [] {
      var p := s.events[0].ptr;
      EventKeeps(s, Cell(typ, if p in s.cells then s.cells[p].bytes else []));
    }
  }

  lemma {:induction false} TakeKeeps(s: State)
    requires Inv(s) && s.completed != []
    ensures Inv(Take(s))
  {
    hide Lined, Owned;
    assert s.returned + [s.completed[0]] + s.completed[1..] == Handed(s);
  }

  lemma {:induction false} LostControl(s: State)
    requires Inv(s)
    ensures Inv(s.(control := -1, thread := Leaving))
  {
    hide Lined, Owned;
  }

  lemma {:induction false} ControlKeeps(s: State, sink: int, f: Finished)
    requires Inv(s)
    ensures Inv(ControlDone(s, sink, f))
  {
    if f.status.Success? && f.whole {
      StateEventKeeps(s, TypeEndOfData);
      ArmInv(StateEvent(s, TypeEndOfData));
    }
    ArmInv(s);
    LostControl(s);
    hide Inv, StateEvent, ArmControl;
  }

  lemma {:induction false} ArmInv(s: State)
    requires Inv(s)
    ensures Inv(ArmControl(s))
  {
    hide Lined, Owned;
  }

  /** The front buffer off the window, before the window is filled up again: its token is nowhere
      until it is pushed. */
  lemma {:induction false} DataKeeps(s: State, f: Finished)
    requires Inv(s) && s.pending != [] && s.usb != []
    ensures Inv(DataDone(s, f))
  {
    var b, line := s.pending[0], s.pending + s.queued;
    OwnedFirst(line, s.issued, Data);
    LinedData(Handed(s), s.issued, line, s.events);
    assert line[1..] == s.pending[1..] + s.queued;
    // the same with the token already pushed: the order of the two pushes is not observable
    var t := DataFront(s, f);
    var v := t.(completed := t.completed + [b.token]);
    WiredPop(s, v);
    hide Wired;
    assert Core(v) by {
      hide Lined, Owned;
      assert s.returned + (s.completed + [b.token]) == Handed(s) + [b.token];
    }
    if s.status.ACTIVE? {
      AllKeeps(v);
      PushCommutes(t, b.token);
    }
    hide Lined, Owned, SubmitAll, InLine;
  }

  lemma {:induction false} PushCommutes(s: State, t: nat)
    ensures SubmitAll(s.(completed := s.completed + [t])) == SubmitAll(s).(completed := SubmitAll(s).completed + [t])
    decreases |s.queued|
  {
    if |s.pending| < s.window && s.queued != [] {
      PushCommutes(SubmitOne(s), t);
    }
  }

  lemma {:induction false} GoingKeeps(s: State)
    requires Inv(s)
    ensures Inv(s.(thread := Leaving))
  {
    hide Lined, Owned;
  }

  lemma {:induction false} FinishKeeps(s: State, sink: int, f: Finished)
    requires Inv(s) && s.pending != []
    ensures Inv(Finish(s, sink, f))
  {
    hide Inv, ControlDone, DataDone;
    ControlKeeps(s, sink, f);
    if s.usb != [] {
      DataKeeps(s, f);
    }
    GoingKeeps(s);
  }

  lemma {:induction false} ThreadKeeps(s: State)
    requires Inv(s)
    ensures s.pending != [] || s.status.DETACHED? ==> Inv(Enter(s))
    ensures Inv(Leave(s)) && Inv(BeginDetach(s))
  {
    hide Lined, Owned;
  }

  lemma {:induction false} StepKeeps(s: State, e: Step)
    requires Inv(s) && Enabled(s, e)
    ensures Inv(Next(s, e))
  {
    hide Inv, SubmitBuffer, Start, Stop, StateEvent, Take, Enter, Finish, Leave, BeginDetach;
    match e
    case DoSubmit(typ, ptr) => SubmitKeeps(s, typ, ptr);
    case DoStart => StartKeeps(s);
    case DoStop => StopKeeps(s);
    case DoStateEvent(typ) => StateEventKeeps(s, typ);
    case DoTake => TakeKeeps(s);
    case DoEnter => ThreadKeeps(s);
    case DoFinish(sink, f) => FinishKeeps(s, sink, f);
    case DoLeave => ThreadKeeps(s);
    case DoDetach => ThreadKeeps(s);
  }

  /** A sink just attached, for the first time or again: nothing is queued or with the transport, and the
      tokens that count are those an earlier session completed and the client has not taken yet. */
  predicate Attached(s: State) {
    && !s.status.DETACHED? && s.thread.Between?
    && s.queued == s.pending == s.events == [] && s.usb == s.returned == []
    && -1 <= s.control < s.nextUsb && Lined(s.completed, s.issued, [], [])
  }

  /** In every state an attach session can reach, under any interleaving of submit, start, stop,
      wait, state events, transport completions in any order, and the thread's coming and going. */
  lemma {:induction false} RunKeeps(s: State, es: seq<Step>)
    requires Attached(s)
    ensures Inv(After(s, es))
  {
    hide Inv, After, Attached;
    AttachedKeeps(s);
    AfterKeeps(s, es);
  }

  lemma {:induction false} AfterKeeps(s: State, es: seq<Step>)
    requires Inv(s)
    ensures Inv(After(s, es))
    decreases |es|
  {
    hide Inv, Next;
    if es != [] {
      var t := After(s, es[..|es| - 1]);
      AfterKeeps(s, es[..|es| - 1]);
      if Enabled(t, es[|es| - 1]) {
        StepKeeps(t, es[|es| - 1]);
      }
    }
  }

  lemma {:induction false} AttachedKeeps(s: State)
    requires Attached(s)
    ensures Inv(s)
  {
    hide Lined;
    assert [] + s.completed == s.completed && s.pending + s.queued == [];
  }

  /** The first time, all tokens were spent elsewhere. */
  lemma {:induction false} FirstAttach(s: State)
    requires !s.status.DETACHED? && s.thread.Between? && -1 <= s.control < s.nextUsb
    requires s.queued == s.pending == s.events == [] && s.usb == s.returned == s.completed == []
    requires forall i :: 0 <= i < |s.issued| ==> s.issued[i].kind.Void?
    ensures Attached(s)
  {
    NothingYet(s.issued);
  }

  lemma {:induction false} NothingYet(issued: seq<Ticket>)
    requires forall i :: 0 <= i < |issued| ==> issued[i].kind.Void?
    ensures OfKind(issued, Data) == [] && OfKind(issued, Event) == []
  {
    if issued != [] {
      NothingYet(issued[..|issued| - 1]);
    }
  }

  // ---------------------------------------------------------------------------------------------
  // Consequences

  lemma {:induction false} OnlyCount(ts: seq<nat>, issued: seq<Ticket>, k: Kind, t: nat)
    ensures multiset(Only(ts, issued, k))[t] == if IsKind(t, issued, k) then multiset(ts)[t] else 0
  {
    hide IsKind;
    if ts != [] {
      var n := |ts| - 1;
      OnlyCount(ts[..n], issued, k, t);
      assert ts == ts[..n] + [ts[n]];
      hide Only;
      OneMore(ts[..n], ts[n], t);
      OneMore(Only(ts[..n], issued, k), ts[n], t);
    }
  }

  lemma {:induction false} OneMore(ts: seq<nat>, x: nat, t: nat)
    ensures multiset(ts + [x])[t] == multiset(ts)[t] + if x == t then 1 else 0
    ensures multiset(ts + [])[t] == multiset(ts)[t]
  {
    assert ts + [] == ts;
  }

  lemma {:induction false} OfKindCount(issued: seq<Ticket>, k: Kind, t: nat)
    ensures multiset(OfKind(issued, k))[t] == if IsKind(t, issued, k) then 1 else 0
  {
    hide IsKind;
    if issued == [] {
      NoKind(k, t);
    } else {
      var n := |issued| - 1;
      OfKindCount(issued[..n], k, t);
      KindNext(issued, k, t);
      var before := OfKind(issued[..n], k);
      assert OfKind(issued, k) == before + if issued[n].kind == k then [n] else [];
      hide OfKind;
      OneMore(before, n, t);
    }
  }

  lemma {:induction false} NoKind(k: Kind, t: nat)
    ensures !IsKind(t, [], k)
  {
  }

  lemma {:induction false} KindNext(issued: seq<Ticket>, k: Kind, t: nat)
    requires issued != []
    ensures var n := |issued| - 1;
            if t == n then (IsKind(t, issued, k) <==> issued[n].kind == k) && !IsKind(t, issued[..n], k)
            else IsKind(t, issued, k) <==> IsKind(t, issued[..n], k)
  {
  }

  lemma {:induction false} OwnedCount(bs: seq<Buffer>, issued: seq<Ticket>, k: Kind, t: nat)
    requires Owned(bs, issued, k) && !IsKind(t, issued, k)
    ensures multiset(Toks(bs))[t] == 0
  {
    forall i | 0 <= i < |bs| ensures Toks(bs)[i] != t {
      assert IsKind(bs[i].token, issued, k);
    }
  }

  lemma {:induction false} SpentCount(handed: seq<nat>, issued: seq<Ticket>, t: nat)
    requires AllSpent(handed, issued) && (t >= |issued| || issued[t].kind.Void?)
    ensures multiset(handed)[t] == 0
  {
  }

  /** Each token handed out for a buffer is in exactly one of returned, completed, pending, queued
      and waiting for an event; no other token is in any. */
  lemma {:induction false} EachOnce(s: State, t: nat)
    requires Inv(s)
    ensures multiset(Handed(s))[t] + multiset(Toks(s.pending + s.queued))[t] + multiset(Toks(s.events))[t]
         == if t < |s.issued| && !s.issued[t].kind.Void? then 1 else 0
  {
    var h, line, events := Handed(s), Toks(s.pending + s.queued), Toks(s.events);
    OnlyCount(h, s.issued, Data, t);
    OnlyCount(h, s.issued, Event, t);
    OfKindCount(s.issued, Data, t);
    OfKindCount(s.issued, Event, t);
    if !IsKind(t, s.issued, Data) {
      OwnedCount(s.pending + s.queued, s.issued, Data, t);
    }
    if !IsKind(t, s.issued, Event) {
      OwnedCount(s.events, s.issued, Event, t);
    }
    if t >= |s.issued| || s.issued[t].kind.Void? {
      SpentCount(h, s.issued, t);
    }
    hide Only, OfKind, Owned, Wired, Windowed, AllSpent, Toks, Handed;
    assert multiset(Only(h, s.issued, Data) + line)[t] == multiset(OfKind(s.issued, Data))[t];
    assert multiset(Only(h, s.issued, Event) + events)[t] == multiset(OfKind(s.issued, Event))[t];
  }

  /** A data transfer is written into the buffer it was submitted for, and into no other: the bytes that
      came, or the news that none did, that it was cancelled, or that it failed.  Its token is the next to
      complete. */
  lemma {:induction false} WritesItsOwn(s: State, sink: int, f: Finished)
    requires Inv(s) && s.pending != [] && f.token == s.usb[0]
    ensures f.token in s.sentFor
    ensures var t, v := s.sentFor[f.token], Finish(s, sink, f);
            && IsKind(t, s.issued, Data) && v.completed == s.completed + [t] && v.events == s.events
            && t in v.filled && v.filled == s.filled[t := v.filled[t]]
            && v.cells == s.cells[s.issued[t].ptr := v.filled[t]]
    ensures var c := Finish(s, sink, f).filled[s.sentFor[f.token]];
            match f.status
            case Success => c == Cell(TypeData, f.data)
            case InProgress => c == Cell(TypeData, f.data)
            case NoData => c == Cell(TypeData, [])
            case Cancelled => c == Cell(TypeEndOfData, [])
            case Failed => c == Cell(TypeError, [])
  {
    CoreFront(s, f);
    hide SubmitAll, Lined;
    assert s.usb[0] == f.token != s.control;
    assert IsKind((s.pending + s.queued)[0].token, s.issued, Data);
  }

  lemma {:induction false} CoreFront(s: State, f: Finished)
    requires s.pending != [] && s.usb != []
    ensures var t, v := DataFront(s, f), SubmitAll(DataFront(s, f));
            v == t.(queued := v.queued, pending := v.pending, usb := v.usb, sentFor := v.sentFor, nextUsb := v.nextUsb)
  {
    SubmitFrame(DataFront(s, f));
    hide SubmitAll;
  }

  lemma {:induction false} SubmitFrame(s: State)
    ensures var v := SubmitAll(s);
            v == s.(queued := v.queued, pending := v.pending, usb := v.usb, sentFor := v.sentFor, nextUsb := v.nextUsb)
    decreases |s.queued|
  {
    if |s.pending| < s.window && s.queued != [] {
      SubmitFrame(SubmitOne(s));
    }
  }

  /** A transfer ahead of its turn, or none at all, ends the thread and writes nothing. */
  lemma {:induction false} OutOfTurn(s: State, sink: int, f: Finished)
    requires Inv(s) && s.pending != []
    requires f.token == -1 || (f.token != s.control && f.token != s.usb[0])
    ensures Finish(s, sink, f) == s.(thread := Leaving)
  {
  }

  /** A finished control request: the end of a session announced for this sink completes the oldest event
      buffer as such; nothing else that comes this way completes anything, for another sink or without an
      event buffer.  The request is repeated exactly when a whole message came, none came, or it was
      cancelled by a stop; otherwise the thread goes and the request is lost. */
  lemma {:induction false} ControlExact(s: State, sink: int, f: Finished)
    requires Inv(s) && s.pending != [] && f.token == s.control && f.token != -1
    ensures var v := Finish(s, sink, f);
            if f.status.Success? && f.whole && f.message == EndSession(sink) && s.events != [] then
              var b := s.events[0];
              var c := Cell(TypeEndOfData, if b.ptr in s.cells then s.cells[b.ptr].bytes else []);
              && v.completed == s.completed + [b.token] && v.events == s.events[1..]
              && v.cells == s.cells[b.ptr := c] && v.filled == s.filled[b.token := c]
            else
              v.completed == s.completed && v.events == s.events && v.cells == s.cells && v.filled == s.filled
    ensures var v := Finish(s, sink, f);
            if f.status.NoData? || (f.status.Success? && f.whole) || (f.status.Cancelled? && s.status.DETACHING?) then
              v.control == s.nextUsb && v.nextUsb == s.nextUsb + 1 && v.thread == s.thread
            else v.control == -1 && v.nextUsb == s.nextUsb && v.thread.Leaving?
    ensures var v := Finish(s, sink, f);
            && v.pending == s.pending && v.queued == s.queued && v.usb == s.usb && v.returned == s.returned
            && v.issued == s.issued && v.status == s.status
  {
    hide Inv;
  }

  // ---------------------------------------------------------------------------------------------
  // Stopping

  /** `Stop` of a running sink completes every event buffer, empty, in order; of any other it does
      nothing. */
  lemma {:induction false} StopCompletes(s: State)
    ensures var t := Stop(s);
            if s.status.ACTIVE? then
              && t.status.DETACHING? && t.events == [] && t.completed == s.completed + Toks(s.events)
              && t.pending == s.pending && t.queued == s.queued && t.usb == s.usb
              && forall b :: b in s.events ==>
                   && b.token in t.filled && t.filled[b.token] == Cell(TypeNone, [])
                   && b.ptr in t.cells && t.cells[b.ptr] == Cell(TypeNone, [])
            else t == s
  {
    if s.status.ACTIVE? {
      EventsComplete(s.(status := DETACHING));
      EventsEmpty(s.(status := DETACHING), s.events);
    }
  }

  lemma {:induction false} EventsEmpty(s: State, bs: seq<Buffer>)
    requires forall b :: b in bs && b !in s.events ==> b.token in s.filled && s.filled[b.token] == Cell(TypeNone, [])
    requires forall b :: b in bs && b !in s.events ==> b.ptr in s.cells && s.cells[b.ptr] == Cell(TypeNone, [])
    ensures var t := CompleteEvents(s);
            forall b :: b in bs ==>
              && b.token in t.filled && t.filled[b.token] == Cell(TypeNone, [])
              && b.ptr in t.cells && t.cells[b.ptr] == Cell(TypeNone, [])
    decreases |s.events|
  {
    if s.events != [] {
      assert s.events == [s.events[0]] + s.events[1..];
      EventsEmpty(CompleteEvent(s, Cell(TypeNone, [])), bs);
    }
  }

  /** A buffer handed in: refused by a detached sink; otherwise it gets the next token and is reset, and goes
      to the end of the line of its kind, or nowhere if its type is neither. */
  lemma {:induction false} SubmitExact(s: State, typ: EventType, ptr: nat)
    ensures s.status.DETACHED? ==> SubmitBuffer(s, typ, ptr) == s
    ensures !s.status.DETACHED? ==>
              var t, b := SubmitBuffer(s, typ, ptr), Buffer(|s.issued|, ptr);
              && t.issued == s.issued
                  + [Ticket(if typ.TypeData? then Data else if typ.TypeEvent? then Event else Void, ptr)]
              && t.pending + t.queued == s.pending + s.queued + (if typ.TypeData? then [b] else [])
              && t.events == s.events + (if typ.TypeEvent? then [b] else [])
              && t.cells == s.cells[ptr := Cell(TypeNone, [])] && t.filled == s.filled
              && t.completed == s.completed && t.returned == s.returned
              && t.status == s.status && t.thread == s.thread && t.control == s.control
  {
    var kind := if typ.TypeData? then Data else if typ.TypeEvent? then Event else Void;
    var u := Issue(s, kind, ptr);
    SubmitIs(s, typ, ptr);
    SubmitFrame(u);
    WindowLine(u);
    hide SubmitBuffer, SubmitAll;
    assert s.queued + [] == s.queued && s.events + [] == s.events;
    assert s.pending + (s.queued + [Buffer(|s.issued|, ptr)]) == s.pending + s.queued + [Buffer(|s.issued|, ptr)];
    assert s.pending + s.queued + [] == s.pending + s.queued;
  }

  lemma {:induction false} WindowLine(s: State)
    ensures var t := SubmitAll(s);
            && t.pending + t.queued == s.pending + s.queued && (t.queued == [] || |t.pending| >= s.window)
            && |t.usb| - |s.usb| == t.nextUsb - s.nextUsb == |t.pending| - |s.pending| >= 0
    decreases |s.queued|
  {
    if |s.pending| < s.window && s.queued != [] {
      var t := SubmitOne(s);
      assert t.pending + t.queued == s.pending + s.queued;
      WindowLine(t);
    }
  }

  /** A start: refused by a detached sink; otherwise the sink runs, the window is filled from the queue until
      it is full or the queue is empty, and a control request that was lost is made again. */
  lemma {:induction false} StartExact(s: State)
    ensures s.status.DETACHED? ==> Start(s) == s
    ensures !s.status.DETACHED? ==>
              var t := Start(s);
              && t.status.ACTIVE? && t.pending + t.queued == s.pending + s.queued
              && (t.queued == [] || |t.pending| >= s.window) && |t.usb| - |s.usb| == |t.pending| - |s.pending|
              && (if s.control == -1 then
                    t.control == s.nextUsb + (|t.usb| - |s.usb|) && t.nextUsb == t.control + 1
                  else t.control == s.control && t.nextUsb == s.nextUsb + (|t.usb| - |s.usb|))
              && t.events == s.events && t.completed == s.completed && t.returned == s.returned
              && t.cells == s.cells && t.filled == s.filled && t.issued == s.issued && t.thread == s.thread
  {
    SubmitFrame(s.(status := ACTIVE));
    WindowLine(s.(status := ACTIVE));
    hide SubmitAll;
  }

  lemma {:induction false} EventsComplete(s: State)
    ensures var t := CompleteEvents(s);
            && t.status == s.status && t.events == [] && t.completed == s.completed + Toks(s.events)
            && t.pending == s.pending && t.queued == s.queued && t.usb == s.usb
    decreases |s.events|
  {
    if s.events != [] {
      var u := CompleteEvent(s, Cell(TypeNone, []));
      EventsComplete(u);
      ToksFirst(s.events);
      assert u.completed + Toks(u.events) == s.completed + ([s.events[0].token] + Toks(s.events[1..]));
    }
  }

  predicate Shrunk(s: State, t: State) {
    && |t.pending| <= |s.pending| && t.pending == s.pending[|s.pending| - |t.pending|..]
    && |t.usb| <= |s.usb| && t.usb == s.usb[|s.usb| - |t.usb|..]
    && s.queued <= t.queued && !t.status.ACTIVE?
  }

  lemma {:induction false} ShrunkStep(s: State, e: Step)
    requires !s.status.ACTIVE? && Enabled(s, e) && !e.DoStart? && |s.usb| == |s.pending|
    ensures Shrunk(s, Next(s, e))
  {
    hide Shrunk, SubmitBuffer, Finish, CompleteEvents, StateEvent, Take;
    match e
    case DoSubmit(typ, ptr) => SubmitShrinks(s, typ, ptr);
    case DoFinish(sink, f) => FinishShrinks(s, sink, f);
    case DoStop => ShrunkSame(s, s);
    case DoStateEvent(typ) => StateEventShrinks(s, typ);
    case DoTake => TakeShrinks(s);
    case DoStart =>
    case DoEnter => ShrunkSame(s, Enter(s));
    case DoLeave => ShrunkSame(s, Leave(s));
    case DoDetach => ShrunkSame(s, BeginDetach(s));
  }

  lemma {:induction false} SubmitShrinks(s: State, typ: EventType, ptr: nat)
    requires !s.status.ACTIVE?
    ensures Shrunk(s, SubmitBuffer(s, typ, ptr))
  {
    SubmitIs(s, typ, ptr);
    hide SubmitBuffer, SubmitAll;
  }

  lemma {:induction false} StateEventShrinks(s: State, typ: EventType)
    requires !s.status.ACTIVE?
    ensures Shrunk(s, StateEvent(s, typ))
  {
    hide Shrunk;
    ShrunkSame(s, StateEvent(s, typ));
  }

  lemma {:induction false} TakeShrinks(s: State)
    requires !s.status.ACTIVE? && s.completed != []
    ensures Shrunk(s, Take(s))
  {
    hide Shrunk;
    ShrunkSame(s, Take(s));
  }

  lemma {:induction false} FinishShrinks(s: State, sink: int, f: Finished)
    requires !s.status.ACTIVE? && s.pending != [] && |s.usb| == |s.pending|
    ensures Shrunk(s, Finish(s, sink, f))
  {
    ShrunkSame(s, s.(thread := Leaving));
    ControlShrinks(s, sink, f);
    DataShrinks(s, f);
    hide Shrunk, ControlDone, DataDone;
  }

  lemma {:induction false} ShrunkSame(s: State, t: State)
    requires !t.status.ACTIVE? && t.pending == s.pending && t.usb == s.usb && t.queued == s.queued
    ensures Shrunk(s, t)
  {
  }

  lemma {:induction false} ControlShrinks(s: State, sink: int, f: Finished)
    requires !s.status.ACTIVE?
    ensures Shrunk(s, ControlDone(s, sink, f))
  {
    hide Shrunk;
    ShrunkSame(s, ControlDone(s, sink, f));
  }

  lemma {:induction false} DataShrinks(s: State, f: Finished)
    requires !s.status.ACTIVE? && s.pending != [] && s.usb != []
    ensures Shrunk(s, DataDone(s, f))
  {
    hide SubmitAll, Outcome;
  }

  lemma {:induction false} ShrunkTwice(s: State, t: State, u: State)
    requires Shrunk(s, t) && Shrunk(t, u)
    ensures Shrunk(s, u)
  {
  }

  /** From a stopped sink on, unless it is started again, no data buffer is newly submitted: the
      window only empties from the front, and what is queued stays queued. */
  lemma {:induction false} NoneSubmitted(s: State, es: seq<Step>)
    requires Inv(s) && !s.status.ACTIVE? && forall i :: 0 <= i < |es| ==> !es[i].DoStart?
    ensures Inv(After(s, es)) && Shrunk(s, After(s, es))
    decreases |es|
  {
    if es == [] {
    } else {
      var t, e := After(s, es[..|es| - 1]), es[|es| - 1];
      NoneSubmitted(s, es[..|es| - 1]);
      if Enabled(t, e) {
        StepKeeps(t, e);
        assert |t.usb| == |t.pending|;
        hide Inv, Next;
        ShrunkStep(t, e);
        ShrunkTwice(s, t, Next(t, e));
      }
    }
  }

  /** Whether the control request is repeated after this completion of it. */
  predicate Repeats(s: State, f: Finished) {
    (f.status.Success? && f.whole) || f.status.NoData? || (f.status.Cancelled? && s.status.DETACHING?)
  }

  /** A finished transfer the thread goes on after: a control completion that is repeated, or the
      front transfer however it ended. */
  predicate InTurn(s: State, f: Finished) {
    f.token != -1 && if f.token == s.control then Repeats(s, f) else s.usb != [] && f.token == s.usb[0]
  }

  /** A sink being stopped, its data thread alive. */
  predicate Stopping(s: State) {
    s.status.DETACHING? && s.events == [] && (s.thread.Between? || s.thread.Waiting?)
  }

  predicate InOrderStep(s: State, e: Step) {
    e.DoEnter? || e.DoTake? || (e.DoFinish? && (Enabled(s, e) ==> InTurn(s, e.f)))
  }

  /** Any interleaving of the data thread and the client's waits in which every transfer that finishes
      is the front one or a control completion that is repeated. */
  predicate InOrder(s: State, es: seq<Step>)
    decreases |es|
  {
    es == [] || (InOrder(s, es[..|es| - 1]) && InOrderStep(After(s, es[..|es| - 1]), es[|es| - 1]))
  }

  /** What is left to do: for a pending buffer the thread's entry, the transfer and the client's wait. */
  function Load(s: State): nat {
    3 * |s.pending| + |s.completed| + if s.thread.Between? then 1 else 0
  }

  /** Control completions are not work. */
  function Work(s: State, e: Step): nat {
    if e.DoFinish? && e.f.token == s.control then 0 else 1
  }

  function WorkDone(s: State, es: seq<Step>): nat
    decreases |es|
  {
    if es == [] then 0
    else
      var t, e := After(s, es[..|es| - 1]), es[|es| - 1];
      WorkDone(s, es[..|es| - 1]) + if Enabled(t, e) then Work(t, e) else 0
  }

  /** Everything handed on or pending, in order. */
  function Owed(s: State): seq<nat> {
    Handed(s) + Toks(s.pending)
  }

  /** One step of a sink being stopped: no token is lost or overtakes another, the thread stays, and
      every step but a control completion brings the end nearer by one. */
  predicate Nearer(s: State, e: Step, t: State) {
    && Stopping(t) && Owed(t) == Owed(s) && t.queued == s.queued && Load(s) == Work(s, e) + Load(t)
  }

  lemma {:induction false} TakeNearer(s: State)
    requires Stopping(s) && s.completed != []
    ensures Nearer(s, DoTake, Take(s))
  {
    hide Toks;
    assert s.returned + [s.completed[0]] + s.completed[1..] == Handed(s);
  }

  lemma {:induction false} EnterNearer(s: State)
    requires Stopping(s) && Enabled(s, DoEnter)
    ensures Nearer(s, DoEnter, Enter(s))
  {
    hide Toks;
  }

  lemma {:induction false} ControlNearer(s: State, sink: int, f: Finished)
    requires Stopping(s) && InTurn(s, f) && f.token == s.control
    ensures Nearer(s, DoFinish(sink, f), ControlDone(s, sink, f))
  {
    hide Toks;
  }

  lemma {:induction false} DataNearer(s: State, sink: int, f: Finished)
    requires Stopping(s) && s.thread.Waiting? && s.pending != [] && s.usb != [] && f.token != s.control
    ensures Nearer(s, DoFinish(sink, f), DataDone(s, f))
  {
    ToksFirst(s.pending);
    hide Toks, Outcome;
    var t := s.pending[0].token;
    assert s.returned + (s.completed + [t]) == Handed(s) + [t];
    Regroup(Handed(s), t, Toks(s.pending[1..]));
  }

  lemma {:induction false} StopStep(s: State, e: Step)
    requires Inv(s) && Stopping(s) && Enabled(s, e) && InOrderStep(s, e)
    ensures Inv(Next(s, e)) && Nearer(s, e, Next(s, e))
  {
    StepKeeps(s, e);
    LinesMatch(s);
    hide Inv, Take, Enter, ControlDone, DataDone, Stopping, Nearer, Repeats;
    match e
    case DoTake => TakeNearer(s);
    case DoEnter => EnterNearer(s);
    case DoFinish(sink, f) =>
      if f.token == s.control {
        ControlNearer(s, sink, f);
      } else {
        DataNearer(s, sink, f);
      }
  }

  lemma {:induction false} LinesMatch(s: State)
    requires Inv(s)
    ensures |s.usb| == |s.pending|
  {
  }

  /** From a stop on, under any interleaving of the thread, the client's waits, data completions in
      turn and control completions that are repeated: what is pending is delivered in order and only
      what was queued is not, the thread never ends or blocks for good, and the number of steps to
      the end is known. */
  lemma {:induction false} Delivers(s: State, es: seq<Step>)
    requires Inv(s) && Stopping(s) && InOrder(s, es)
    ensures var t := After(s, es);
            && Inv(t) && Stopping(t) && t.queued == s.queued && Owed(t) == Owed(s)
            && (t.pending == [] ==> Handed(t) == Owed(s))
            && (t.pending != [] ==> Enabled(t, DoEnter) || (t.thread.Waiting? && t.usb != []))
            && WorkDone(s, es) + Load(t) == Load(s)
            && (t.pending == [] && t.completed == [] && t.thread.Between? <==>
                  WorkDone(s, es) == 3 * |s.pending| + |s.completed| + if s.thread.Between? then 0 else -1)
    decreases |es|
  {
    hide Inv, Next, InOrderStep, Work, Nearer, Stopping, Load, Owed;
    if es != [] {
      var t, e := After(s, es[..|es| - 1]), es[|es| - 1];
      Delivers(s, es[..|es| - 1]);
      if Enabled(t, e) {
        StopStep(t, e);
        NearerIs(t, e, Next(t, e));
      }
    }
    NotStuck(After(s, es));
    NotStuck(s);
    EngineCounts(s);
    LoadCounts(After(s, es));
  }

  lemma {:induction false} EngineCounts(s: State)
    ensures Load(s) == 3 * |s.pending| + |s.completed| + if s.thread.Between? then 1 else 0
    ensures Owed(s) == s.returned + s.completed + Toks(s.pending)
  {
  }

  lemma {:induction false} LoadCounts(s: State)
    requires Stopping(s) && (s.thread.Waiting? ==> s.pending != [])
    ensures Load(s) >= 1 && (Load(s) == 1 <==> s.pending == [] && s.completed == [] && s.thread.Between?)
  {
  }

  lemma {:induction false} NearerIs(s: State, e: Step, t: State)
    requires Nearer(s, e, t)
    ensures Stopping(t) && Owed(t) == Owed(s) && t.queued == s.queued && Load(s) == Work(s, e) + Load(t)
  {
  }

  lemma {:induction false} NotStuck(s: State)
    requires Inv(s) && Stopping(s)
    ensures s.pending == [] ==> Handed(s) == Owed(s)
    ensures s.pending != [] ==> Enabled(s, DoEnter) || (s.thread.Waiting? && s.usb != [])
    ensures s.thread.Waiting? ==> s.pending != []
  {
    LinesMatch(s);
  }

  // ---------------------------------------------------------------------------------------------
  // Detaching

  /** The end of `Detach`: the queues are cleared, the line of transport tokens is not. */
  function Clear(s: State): State {
    s.(queued := [], pending := [], events := [])
  }

  /** The rest of `Detach` once the thread is gone: pending buffers are waited for, with what the
      transport finishes, until none is left or a wait fails. */
  function FinishDetach(s: State, sink: int, fs: seq<Finished>): State
    decreases |fs|
  {
    if s.pending == [] || fs == [] || fs[0].token == -1 then Clear(s)
    else if fs[0].token == s.control then
      var t := ControlDone(s, sink, fs[0]).(thread := s.thread);
      if t.control == -1 then Clear(t) else FinishDetach(t, sink, fs[1..])
    else if s.usb != [] && fs[0].token == s.usb[0] then
      FinishDetach(DataFront(s, fs[0]).(thread := s.thread), sink, fs[1..])
    else Clear(s)
  }

  /** A completion of the control request after which a detach goes on; the thread's exit has changed the
      status, so that a cancelled one is not. */
  predicate Kept(f: Finished) {
    (f.status.Success? && f.whole) || f.status.NoData?
  }

  /** Whether a line of transport tokens is served by transfers finishing in this order: each is the front
      data transfer or a control completion that is kept, whose repetition gets the next token. */
  predicate Serves(usb: seq<nat>, control: int, next: nat, fs: seq<Finished>)
    decreases |fs|
  {
    fs == []
    || (usb != [] && fs[0].token != -1
        && if fs[0].token == control then Kept(fs[0]) && Serves(usb, next, next + 1, fs[1..])
           else fs[0].token == usb[0] && Serves(usb[1..], control, next, fs[1..]))
  }

  /** How many of them are data transfers. */
  function DataIn(control: int, next: nat, fs: seq<Finished>): (n: nat)
    ensures n <= |fs|
    decreases |fs|
  {
    if fs == [] then 0
    else if fs[0].token == control then DataIn(next, next + 1, fs[1..])
    else 1 + DataIn(control, next, fs[1..])
  }

  lemma {:induction false} ControlMoves(s: State, sink: int, f: Finished)
    ensures var t := ControlDone(s, sink, f);
            && t.usb == s.usb && t.pending == s.pending && t.status == s.status
            && if Repeats(s, f) then t.control == s.nextUsb && t.nextUsb == s.nextUsb + 1
               else t.control == -1 && t.nextUsb == s.nextUsb
  {
  }

  /** What a detach leaves in the line of transport tokens is all behind the data transfers among the
      longest list of transfers it is served by: nothing exactly when these are as many as were
      pending. */
  lemma {:induction false} DetachExact(s: State, sink: int, fs: seq<Finished>, k: nat)
    requires |s.usb| == |s.pending| && !s.status.DETACHING? && k <= |fs|
    requires Serves(s.usb, s.control, s.nextUsb, fs[..k])
    requires k < |fs| ==> !Serves(s.usb, s.control, s.nextUsb, fs[..k + 1])
    ensures var n, t := DataIn(s.control, s.nextUsb, fs[..k]), FinishDetach(s, sink, fs);
            && n <= |s.usb| && t.usb == s.usb[n..] && (t.usb == [] <==> n == |s.usb|)
            && t.pending == t.queued == t.events == [] && t.status == s.status
    decreases |fs|
  {
    hide ControlDone, DataFront;
    if k == 0 {
      if fs != [] {
        Unserved(s, fs);
        DetachStops(s, sink, fs);
      }
    } else {
      Shorter(fs, k);
      var f := fs[0];
      if f.token == s.control {
        ControlMoves(s, sink, f);
        DetachExact(ControlDone(s, sink, f).(thread := s.thread), sink, fs[1..], k - 1);
      } else {
        DataMoves(s, f);
        DetachExact(DataFront(s, f).(thread := s.thread), sink, fs[1..], k - 1);
      }
    }
  }

  lemma {:induction false} Shorter(fs: seq<Finished>, k: nat)
    requires 0 < k <= |fs|
    ensures fs[..k][0] == fs[0] && fs[..k][1..] == fs[1..][..k - 1]
    ensures k < |fs| ==> fs[..k + 1][0] == fs[0] && fs[..k + 1][1..] == fs[1..][..k]
  {
  }

  lemma {:induction false} DataMoves(s: State, f: Finished)
    requires s.pending != [] && s.usb != []
    ensures var t := DataFront(s, f);
            && t.usb == s.usb[1..] && t.pending == s.pending[1..] && t.status == s.status
            && t.control == s.control && t.nextUsb == s.nextUsb
  {
  }

  /** A transfer that is not in turn. */
  lemma {:induction false} Unserved(s: State, fs: seq<Finished>)
    requires fs != [] && !Serves(s.usb, s.control, s.nextUsb, fs[..1])
    ensures s.usb == [] || fs[0].token == -1 || (fs[0].token == s.control && !Kept(fs[0]))
            || (fs[0].token != s.control && fs[0].token != s.usb[0])
  {
    assert fs[..1][1..] == [];
  }

  lemma {:induction false} DetachStops(s: State, sink: int, fs: seq<Finished>)
    requires |s.usb| == |s.pending| && !s.status.DETACHING? && fs != []
    requires s.usb == [] || fs[0].token == -1 || (fs[0].token == s.control && !Kept(fs[0]))
             || (fs[0].token != s.control && fs[0].token != s.usb[0])
    ensures var t := FinishDetach(s, sink, fs);
            t.usb == s.usb && t.pending == t.queued == t.events == [] && t.status == s.status
  {
    ControlMoves(s, sink, fs[0]);
    hide ControlDone, DataFront;
  }

  /** The data transfers finish in turn until the control request is reported, cancelled with them or
      failed, or a token that is neither the control request's nor the next transfer's: the rest is left
      behind.  With no control request (-1) only the second can happen. */
  lemma {:induction false} CancelledControlBreaks(s: State, sink: int, data: seq<Finished>, c: Finished,
          rest: seq<Finished>)
    requires |s.usb| == |s.pending| && s.control !in s.usb && !s.status.DETACHING?
    requires |data| <= |s.usb| && forall i :: 0 <= i < |data| ==> data[i].token == s.usb[i]
    requires if c.token == s.control then c.token == -1 || !Kept(c) else c.token !in s.usb
    ensures var t := FinishDetach(s, sink, data + [c] + rest);
            t.usb == s.usb[|data|..] && (t.usb == [] <==> |data| == |s.usb|)
  {
    var fs, k := data + [c] + rest, |data|;
    ServesData(s.usb, s.control, s.nextUsb, data);
    ServesThen(s.usb, s.control, s.nextUsb, data, c);
    assert fs[..k] == data && fs[..k + 1] == data + [c];
    hide FinishDetach, Serves, DataIn;
    DetachExact(s, sink, fs, k);
  }

  lemma {:induction false} ServesData(usb: seq<nat>, control: int, next: nat, data: seq<Finished>)
    requires control !in usb && |data| <= |usb| && forall i :: 0 <= i < |data| ==> data[i].token == usb[i]
    ensures Serves(usb, control, next, data) && DataIn(control, next, data) == |data|
    decreases |data|
  {
    if data != [] {
      assert usb[0] in usb;
      ServesData(usb[1..], control, next, data[1..]);
    }
  }

  lemma {:induction false} ServesThen(usb: seq<nat>, control: int, next: nat, data: seq<Finished>, c: Finished)
    requires control !in usb && |data| <= |usb| && forall i :: 0 <= i < |data| ==> data[i].token == usb[i]
    requires if c.token == control then c.token == -1 || !Kept(c) else c.token !in usb
    ensures !Serves(usb, control, next, data + [c])
    decreases |data|
  {
    var fs := data + [c];
    if data != [] {
      assert usb[0] in usb && fs[0] == data[0] && fs[1..] == data[1..] + [c];
      ServesThen(usb[1..], control, next, data[1..], c);
    } else {
      assert fs == [c];
    }
  }

  /** A detach that finds the data thread between two buffers leaves every pending one to the wait at its
      end: the thread goes without touching them. */
  lemma {:induction false} DetachFinds(s: State)
    requires s.thread.Between?
    ensures After(s, [DoDetach, DoEnter, DoLeave]) == s.(status := EXITED, thread := Gone)
  {
    var es := [DoDetach, DoEnter, DoLeave];
    assert es[..2] == [DoDetach, DoEnter] && es[..2][..1] == [DoDetach] && es[..2][..1][..0] == [];
    assert After(s, es[..2][..1]) == BeginDetach(s);
    assert After(s, es[..2]) == Enter(BeginDetach(s));
  }

  /** A run from a sink just attached to a detach that leaves a token behind. */
  lemma {:induction false} DetachLeaves(s: State, ptr: nat, sink: int, c: Finished)
    requires Attached(s) && s.window > 0 && s.control != -1 && c.token == s.control && c.status.Cancelled?
    ensures var t := After(s, [DoStart, DoSubmit(TypeData, ptr), DoDetach, DoEnter, DoLeave]);
            && t.status.EXITED? && t.thread.Gone? && t.usb == [s.nextUsb]
            && FinishDetach(t, sink, [c]).usb == [s.nextUsb]
  {
    var es := [DoStart, DoSubmit(TypeData, ptr)];
    var u := SubmitBuffer(Start(s), TypeData, ptr);
    assert es[..1] == [DoStart] && es[..1][..0] == [];
    assert After(s, es[..1]) == Start(s);
    assert After(s, es) == u;
    OneSubmitted(s, ptr);
    hide After, SubmitBuffer, Start;
    DetachFinds(u);
    AfterAppend(s, es, [DoDetach, DoEnter, DoLeave]);
    assert es + [DoDetach, DoEnter, DoLeave] == [DoStart, DoSubmit(TypeData, ptr), DoDetach, DoEnter, DoLeave];
    var t := u.(status := EXITED, thread := Gone);
    assert [] + [c] + [] == [c];
    CancelledControlBreaks(t, sink, [], c, []);
  }

  lemma {:induction false} OneSubmitted(s: State, ptr: nat)
    requires Attached(s) && s.window > 0 && s.control != -1
    ensures var u := SubmitBuffer(Start(s), TypeData, ptr);
            u.usb == [s.nextUsb] && |u.pending| == 1 && u.control == s.control && u.thread.Between?
  {
    var t := s.(status := ACTIVE);
    assert SubmitAll(t) == t && Start(s) == t;
    var b := Buffer(|s.issued|, ptr);
    var v := Put(t, ptr, Cell(TypeNone, [])).(queued := [b], issued := t.issued + [Ticket(Data, ptr)]);
    assert t.queued + [b] == [b];
    assert SubmitBuffer(t, TypeData, ptr) == SubmitAll(v);
    assert SubmitAll(v) == SubmitAll(SubmitOne(v)) && SubmitOne(v).queued == [];
  }

  lemma {:induction false} AfterAppend(s: State, a: seq<Step>, b: seq<Step>)
    ensures After(s, a + b) == After(After(s, a), b)
    decreases |b|
  {
    hide Next, Enabled;
    if b == [] {
      assert a + b == a;
    } else {
      assert (a + b)[..|a + b| - 1] == a + b[..|b| - 1];
      AfterAppend(s, a, b[..|b| - 1]);
    }
  }

  // ---------------------------------------------------------------------------------------------
  // The next session

  /** `Attach`: a control request, and a new data thread. */
  function Attach(s: State): State {
    ArmControl(s).(status := if s.status.DETACHED? then ATTACHED else s.status, thread := Between)
  }

  /** The line of transport tokens begins with one that nothing will come for. */
  predicate Stale(s: State, d: nat) {
    && s.usb != [] && s.usb[0] == d
    && AllSpent(Handed(s), s.issued) && Owned(s.events, s.issued, Event)
  }

  /** The data tokens handed on so far. */
  function DataHanded(s: State): seq<nat> {
    Only(Handed(s), s.issued, Data)
  }

  predicate Without(d: nat, e: Step) {
    e.DoFinish? ==> e.f.token != d
  }

  lemma {:induction false} StaleSame(s: State, t: State, d: nat)
    requires Stale(s, d) && t.usb != [] && t.usb[0] == d
    requires Handed(t) == Handed(s) && t.issued == s.issued && t.events == s.events
    ensures Stale(t, d) && DataHanded(t) == DataHanded(s)
  {
  }

  lemma {:induction false} StaleEvent(s: State, c: Cell, d: nat)
    requires Stale(s, d) && s.events != []
    ensures Stale(CompleteEvent(s, c), d) && DataHanded(CompleteEvent(s, c)) == DataHanded(s)
  {
    var t := s.events[0].token;
    OwnedFirst(s.events, s.issued, Event);
    OnlySnoc(Handed(s), t, s.issued, Data);
    HandedSnoc(Handed(s), s.issued, t);
    hide Only, AllSpent, Owned;
    assert s.returned + (s.completed + [t]) == Handed(s) + [t];
  }

  lemma {:induction false} StaleEvents(s: State, d: nat)
    requires Stale(s, d)
    ensures Stale(CompleteEvents(s), d) && DataHanded(CompleteEvents(s)) == DataHanded(s)
    decreases |s.events|
  {
    hide Stale, DataHanded, CompleteEvent;
    if s.events != [] {
      StaleEvent(s, Cell(TypeNone, []), d);
      assert |CompleteEvent(s, Cell(TypeNone, [])).events| < |s.events| by { FewerEvents(s, Cell(TypeNone, [])); }
      StaleEvents(CompleteEvent(s, Cell(TypeNone, [])), d);
    }
  }

  lemma {:induction false} FewerEvents(s: State, c: Cell)
    requires s.events != []
    ensures |CompleteEvent(s, c).events| < |s.events|
  {
  }

  lemma {:induction false} StaleIssue(s: State, k: Kind, ptr: nat, d: nat)
    requires Stale(s, d)
    ensures Stale(Issue(s, k, ptr), d) && DataHanded(Issue(s, k, ptr)) == DataHanded(s)
  {
    OnlyGrow(Handed(s), s.issued, Ticket(k, ptr), Data);
    OwnedGrow(s.events, s.issued, Ticket(k, ptr), Event);
    hide Only, Owned;
  }

  lemma {:induction false} StaleAll(s: State, d: nat)
    requires Stale(s, d)
    ensures Stale(SubmitAll(s), d) && DataHanded(SubmitAll(s)) == DataHanded(s)
    decreases |s.queued|
  {
    if |s.pending| < s.window && s.queued != [] {
      var t := SubmitOne(s);
      StaleSame(s, t, d);
      hide Stale, DataHanded;
      StaleAll(t, d);
    }
  }

  lemma {:induction false} StaleArm(s: State, d: nat)
    requires Stale(s, d)
    ensures Stale(ArmControl(s), d) && DataHanded(ArmControl(s)) == DataHanded(s)
  {
    StaleSame(s, ArmControl(s), d);
  }

  lemma {:induction false} StaleControl(s: State, sink: int, f: Finished, d: nat)
    requires Stale(s, d)
    ensures Stale(ControlDone(s, sink, f), d) && DataHanded(ControlDone(s, sink, f)) == DataHanded(s)
  {
    if s.events != [] {
      var p := s.events[0].ptr;
      StaleEvent(s, Cell(TypeEndOfData, if p in s.cells then s.cells[p].bytes else []), d);
    }
    StaleArm(StateEvent(s, TypeEndOfData), d);
    StaleArm(s, d);
    assert s.usb != [] && s.usb[0] == d;
    StaleSame(s, s.(control := -1, thread := Leaving), d);
    hide Stale, DataHanded, ArmControl, CompleteEvent;
  }

  lemma {:induction false} StaleFinish(s: State, sink: int, f: Finished, d: nat)
    requires Stale(s, d) && f.token != d && s.pending != []
    ensures Stale(Finish(s, sink, f), d) && DataHanded(Finish(s, sink, f)) == DataHanded(s)
  {
    StaleControl(s, sink, f, d);
    assert s.usb != [] && s.usb[0] == d;
    StaleSame(s, s.(thread := Leaving), d);
    hide Stale, DataHanded, ControlDone, DataDone;
  }

  lemma {:induction false} StaleSubmit(s: State, typ: EventType, ptr: nat, d: nat)
    requires Stale(s, d)
    ensures Stale(SubmitBuffer(s, typ, ptr), d) && DataHanded(SubmitBuffer(s, typ, ptr)) == DataHanded(s)
  {
    SubmitIs(s, typ, ptr);
    var k := match typ case TypeData => Data case TypeEvent => Event case _ => Void;
    hide Stale, DataHanded, SubmitAll, Issue, SubmitBuffer;
    StaleIssue(s, k, ptr, d);
    StaleAll(Issue(s, k, ptr), d);
  }

  lemma {:induction false} StaleStart(s: State, d: nat)
    requires Stale(s, d)
    ensures Stale(Start(s), d) && DataHanded(Start(s)) == DataHanded(s)
  {
    var u := s.(status := ACTIVE);
    StaleSame(s, u, d);
    hide Stale, DataHanded, SubmitAll, ArmControl;
    StaleAll(u, d);
    StaleArm(SubmitAll(u), d);
  }

  lemma {:induction false} StaleStop(s: State, d: nat)
    requires Stale(s, d)
    ensures Stale(Stop(s), d) && DataHanded(Stop(s)) == DataHanded(s)
  {
    var u := s.(status := DETACHING);
    StaleSame(s, u, d);
    hide Stale, DataHanded, CompleteEvents;
    StaleEvents(u, d);
  }

  lemma {:induction false} StaleStateEvent(s: State, typ: EventType, d: nat)
    requires Stale(s, d)
    ensures Stale(StateEvent(s, typ), d) && DataHanded(StateEvent(s, typ)) == DataHanded(s)
  {
    hide Stale, DataHanded, CompleteEvent;
    if s.events != [] {
      var p := s.events[0].ptr;
      StaleEvent(s, Cell(typ, if p in s.cells then s.cells[p].bytes else []), d);
    }
  }

  lemma {:induction false} StaleMove(s: State, e: Step, d: nat)
    requires Stale(s, d) && Enabled(s, e) && (e.DoTake? || e.DoEnter? || e.DoLeave? || e.DoDetach?)
    ensures Stale(Next(s, e), d) && DataHanded(Next(s, e)) == DataHanded(s)
  {
    if e.DoTake? {
      assert s.returned + [s.completed[0]] + s.completed[1..] == Handed(s);
    }
    hide Only, AllSpent, Owned;
    StaleSame(s, Next(s, e), d);
  }

  lemma {:induction false} StaleStep(s: State, e: Step, d: nat)
    requires Stale(s, d) && Enabled(s, e) && Without(d, e)
    ensures Stale(Next(s, e), d) && DataHanded(Next(s, e)) == DataHanded(s)
  {
    hide Stale, DataHanded, SubmitBuffer, Start, Stop, StateEvent, Take, Enter, Finish, Leave, BeginDetach;
    match e
    case DoSubmit(typ, ptr) => StaleSubmit(s, typ, ptr, d);
    case DoStart => StaleStart(s, d);
    case DoStop => StaleStop(s, d);
    case DoStateEvent(typ) => StaleStateEvent(s, typ, d);
    case DoFinish(sink, f) => StaleFinish(s, sink, f, d);
    case _ => StaleMove(s, e, d);
  }

  /** With a token left behind, however many, the next session completes no data buffer at all, in any
      run: nothing comes for the first of them, and it stays at the front. */
  lemma {:induction false} StaleBlocks(s: State, es: seq<Step>, d: nat)
    requires Stale(s, d) && forall i :: 0 <= i < |es| ==> Without(d, es[i])
    ensures Stale(After(s, es), d) && DataHanded(After(s, es)) == DataHanded(s)
    decreases |es|
  {
    hide Stale, DataHanded, Next, Enabled, Without;
    if es != [] {
      var t := After(s, es[..|es| - 1]);
      StaleBlocks(s, es[..|es| - 1], d);
      if Enabled(t, es[|es| - 1]) {
        StaleStep(t, es[|es| - 1], d);
      }
    }
  }

  /** What stays true of the tokens handed on through a detach: they are the first of their kind, in
      order, although buffers in flight are lost behind them. */
  predicate Settled(s: State) {
    && Only(Handed(s), s.issued, Data) <= OfKind(s.issued, Data)
    && Only(Handed(s), s.issued, Event) + Toks(s.events) <= OfKind(s.issued, Event)
    && AllSpent(Handed(s), s.issued) && Owned(s.events, s.issued, Event)
  }

  lemma {:induction false} InvSettled(s: State)
    requires Inv(s)
    ensures Settled(s)
  {
    hide Only, OfKind, Toks, AllSpent, Owned, Wired, Windowed;
  }

  lemma {:induction false} SettledSame(s: State, t: State)
    requires Settled(s) && Handed(t) == Handed(s) && t.issued == s.issued && (t.events == s.events || t.events == [])
    ensures Settled(t)
  {
    hide Only, OfKind, AllSpent;
    assert Toks([]) == [] && Only(Handed(s), s.issued, Event) + [] == Only(Handed(s), s.issued, Event);
    hide Toks;
  }

  lemma {:induction false} SettledEvent(s: State, c: Cell)
    requires Settled(s) && s.events != []
    ensures Settled(CompleteEvent(s, c)) && CompleteEvent(s, c).issued == s.issued
  {
    var h, t := Handed(s), s.events[0].token;
    OwnedFirst(s.events, s.issued, Event);
    OnlySnoc(h, t, s.issued, Data);
    OnlySnoc(h, t, s.issued, Event);
    ToksFirst(s.events);
    HandedSnoc(h, s.issued, t);
    hide Only, OfKind, Toks, AllSpent, Owned;
    assert s.returned + (s.completed + [t]) == h + [t];
    Regroup(Only(h, s.issued, Event), t, Toks(s.events[1..]));
    Regroup(Only(h, s.issued, Data), t, []);
  }

  lemma {:induction false} SettledControl(s: State, sink: int, f: Finished)
    requires Settled(s)
    ensures Settled(ControlDone(s, sink, f)) && ControlDone(s, sink, f).issued == s.issued
  {
    hide Settled;
    var t := ControlDone(s, sink, f);
    if f.status.Success? && f.whole && f.message == EndSession(sink) && s.events != [] {
      var p := s.events[0].ptr;
      var u := CompleteEvent(s, Cell(TypeEndOfData, if p in s.cells then s.cells[p].bytes else []));
      SettledEvent(s, Cell(TypeEndOfData, if p in s.cells then s.cells[p].bytes else []));
      assert t == ArmControl(u);
      SettledSame(u, t);
    } else {
      SettledSame(s, t);
    }
  }

  /** The detach takes no token from the client, and none appears. */
  lemma {:induction false} DetachSettled(s: State, sink: int, fs: seq<Finished>)
    requires Settled(s)
    ensures var t := FinishDetach(s, sink, fs);
            Settled(t) && t.events == t.queued == t.pending == [] && t.issued == s.issued
    decreases |fs|
  {
    SettledSame(s, Clear(s));
    if s.pending != [] && fs != [] && fs[0].token != -1 {
      if fs[0].token == s.control {
        var t := ControlDone(s, sink, fs[0]).(thread := s.thread);
        SettledControl(s, sink, fs[0]);
        SettledSame(ControlDone(s, sink, fs[0]), t);
        SettledSame(t, Clear(t));
        hide ControlDone, DataFront, Settled;
        DetachSettled(t, sink, fs[1..]);
      } else if s.usb != [] && fs[0].token == s.usb[0] {
        var t := DataFront(s, fs[0]).(thread := s.thread);
        SettledSame(s, t);
        assert t.issued == s.issued;
        hide ControlDone, DataFront, Settled;
        DetachSettled(t, sink, fs[1..]);
      }
    }
  }

  /** A detach hands on no data token, whatever finishes during its waits: what is pending is waited for and
      forgotten, and what is queued is dropped.  Only announced ends of session complete anything. */
  lemma {:induction false} DetachDrops(s: State, sink: int, fs: seq<Finished>)
    requires Settled(s)
    ensures var t := FinishDetach(s, sink, fs);
            && DataHanded(t) == DataHanded(s) && t.returned == s.returned && s.completed <= t.completed
            && ((forall i :: 0 <= i < |fs| ==> fs[i].message != EndSession(sink)) ==> t.completed == s.completed)
    decreases |fs|
  {
    hide ControlDone, DataFront, Settled;
    if s.pending != [] && fs != [] && fs[0].token != -1 {
      if fs[0].token == s.control {
        ControlHands(s, sink, fs[0]);
        DetachDrops(ControlDone(s, sink, fs[0]).(thread := s.thread), sink, fs[1..]);
      } else if s.usb != [] && fs[0].token == s.usb[0] {
        FrontHands(s, fs[0]);
        DetachDrops(DataFront(s, fs[0]).(thread := s.thread), sink, fs[1..]);
      }
    }
  }

  lemma {:induction false} FrontHands(s: State, f: Finished)
    requires Settled(s) && s.pending != [] && s.usb != []
    ensures var t := DataFront(s, f).(thread := s.thread);
            Settled(t) && DataHanded(t) == DataHanded(s) && t.returned == s.returned && t.completed == s.completed
  {
    hide Settled, Only, Outcome;
    SettledSame(s, DataFront(s, f).(thread := s.thread));
  }

  lemma {:induction false} ControlHands(s: State, sink: int, f: Finished)
    requires Settled(s)
    ensures var t := ControlDone(s, sink, f).(thread := s.thread);
            && Settled(t) && DataHanded(t) == DataHanded(s) && t.returned == s.returned && s.completed <= t.completed
            && (f.message != EndSession(sink) ==> t.completed == s.completed)
  {
    hide Only, Settled;
    SettledControl(s, sink, f);
    ControlTokens(s, sink, f);
    SettledSame(ControlDone(s, sink, f), ControlDone(s, sink, f).(thread := s.thread));
    if s.events != [] {
      EventHands(s);
    }
    hide ControlDone;
  }

  lemma {:induction false} ControlTokens(s: State, sink: int, f: Finished)
    ensures var t := ControlDone(s, sink, f);
            && t.returned == s.returned && t.issued == s.issued
            && t.completed == if f.status.Success? && f.whole && f.message == EndSession(sink) && s.events != [] then
                                s.completed + [s.events[0].token]
                              else s.completed
  {
  }

  lemma {:induction false} EventHands(s: State)
    requires Settled(s) && s.events != []
    ensures Only(s.returned + (s.completed + [s.events[0].token]), s.issued, Data) == DataHanded(s)
  {
    var h, t := Handed(s), s.events[0].token;
    OwnedFirst(s.events, s.issued, Event);
    OnlySnoc(h, t, s.issued, Data);
    hide Settled, Only;
    assert s.returned + (s.completed + [t]) == h + [t];
  }

  /** From a session through a detach that leaves something behind to any run of the next session: no
      data buffer handed in ever completes. */
  lemma {:induction false} StaleSession(s: State, sink: int, fs: seq<Finished>, es: seq<Step>)
    requires Inv(s) && FinishDetach(s, sink, fs).usb != []
    requires forall i :: 0 <= i < |es| ==> Without(FinishDetach(s, sink, fs).usb[0], es[i])
    ensures var u := FinishDetach(s, sink, fs);
            var t := After(Attach(u), es);
            t.usb != [] && t.usb[0] == u.usb[0] && DataHanded(t) == DataHanded(u)
  {
    InvSettled(s);
    DetachSettled(s, sink, fs);
    var u := FinishDetach(s, sink, fs);
    SettledSpent(u);
    StaleAttach(u);
    hide FinishDetach, Attach, After, Without, DataHanded;
    StaleBlocks(Attach(u), es, u.usb[0]);
  }

  lemma {:induction false} SettledSpent(s: State)
    requires Settled(s)
    ensures AllSpent(Handed(s), s.issued)
  {
  }

  lemma {:induction false} StaleAttach(s: State)
    requires s.usb != [] && AllSpent(Handed(s), s.issued) && s.events == []
    ensures Stale(Attach(s), s.usb[0]) && DataHanded(Attach(s)) == DataHanded(s)
  {
  }

  // ---------------------------------------------------------------------------------------------
  // A session behind a clean detach

  /** The history of a new session: tokens of earlier sessions count only while they wait to be taken. */
  function Relabel(issued: seq<Ticket>, keep: seq<nat>): (r: seq<Ticket>)
    ensures |r| == |issued|
    ensures forall i :: 0 <= i < |issued| ==> r[i] == if i in keep then issued[i] else Ticket(Void, issued[i].ptr)
  {
    seq(|issued|, i requires 0 <= i < |issued| => if i in keep then issued[i] else Ticket(Void, issued[i].ptr))
  }

  function Renewed(s: State): State {
    s.(returned := [], issued := Relabel(s.issued, s.completed))
  }

  function Keep(ts: seq<nat>, c: seq<nat>): seq<nat> {
    if ts == [] then []
    else
      var n := |ts| - 1;
      Keep(ts[..n], c) + if ts[n] in c then [ts[n]] else []
  }

  lemma {:induction false} KeepAppend(a: seq<nat>, b: seq<nat>, c: seq<nat>)
    ensures Keep(a + b, c) == Keep(a, c) + Keep(b, c)
  {
    if b == [] {
      assert a + b == a;
    } else {
      var n := |b| - 1;
      assert (a + b)[..|a + b| - 1] == a + b[..n];
      KeepAppend(a, b[..n], c);
    }
  }

  lemma {:induction false} KeepAll(ts: seq<nat>, c: seq<nat>)
    requires forall t :: t in ts ==> t in c
    ensures Keep(ts, c) == ts
  {
    if ts != [] {
      var n := |ts| - 1;
      forall t | t in ts[..n] ensures t in c {
        var i :| 0 <= i < n && ts[..n][i] == t;
        assert ts[i] == t;
      }
      KeepAll(ts[..n], c);
      assert ts[n] in c && ts == ts[..n] + [ts[n]];
    }
  }

  lemma {:induction false} KeepNone(ts: seq<nat>, c: seq<nat>)
    requires forall t :: t in ts ==> t !in c
    ensures Keep(ts, c) == []
  {
    if ts != [] {
      KeepNone(ts[..|ts| - 1], c);
    }
  }

  lemma {:induction false} RelabelSnoc(issued: seq<Ticket>, x: Ticket, c: seq<nat>)
    ensures Relabel(issued + [x], c) == Relabel(issued, c) + [if |issued| in c then x else Ticket(Void, x.ptr)]
  {
  }

  lemma {:induction false} KindKept(issued: seq<Ticket>, c: seq<nat>, k: Kind)
    requires !k.Void?
    ensures OfKind(Relabel(issued, c), k) == Keep(OfKind(issued, k), c)
  {
    if issued != [] {
      var n := |issued| - 1;
      var pre, x := issued[..n], issued[n];
      KindKept(pre, c, k);
      hide OfKind, Keep, Relabel;
      assert issued == pre + [x];
      RelabelSnoc(pre, x, c);
      OfKindSnoc(pre, x, k);
      OfKindSnoc(Relabel(pre, c), if n in c then x else Ticket(Void, x.ptr), k);
      KeepAppend(OfKind(pre, k), [n], c);
      KeepOne(n, c);
      assert OfKind(pre, k) + [] == OfKind(pre, k) && Keep(OfKind(pre, k), c) + [] == Keep(OfKind(pre, k), c);
    }
  }

  lemma {:induction false} KeepOne(t: nat, c: seq<nat>)
    ensures Keep([t], c) == if t in c then [t] else []
  {
    assert [t][..0] == [];
  }

  lemma {:induction false} OnlyRelabel(ts: seq<nat>, issued: seq<Ticket>, c: seq<nat>, k: Kind)
    requires !k.Void? && forall t :: t in ts ==> t in c
    ensures Only(ts, Relabel(issued, c), k) == Only(ts, issued, k)
  {
    if ts != [] {
      var n := |ts| - 1;
      OnlyRelabel(ts[..n], issued, c, k);
      assert ts[n] in ts;
    }
  }

  lemma {:induction false} OnlyAppend(a: seq<nat>, b: seq<nat>, issued: seq<Ticket>, k: Kind)
    ensures Only(a + b, issued, k) == Only(a, issued, k) + Only(b, issued, k)
  {
    if b == [] {
      assert a + b == a;
    } else {
      var n := |b| - 1;
      assert (a + b)[..|a + b| - 1] == a + b[..n];
      OnlyAppend(a, b[..n], issued, k);
    }
  }

  /** Tokens of a kind among a list are in it, and all of that kind are. */
  lemma {:induction false} OnlyIn(ts: seq<nat>, issued: seq<Ticket>, k: Kind, t: nat)
    ensures t in Only(ts, issued, k) <==> t in ts && IsKind(t, issued, k)
  {
    OnlyCount(ts, issued, k, t);
    hide Only;
    assert t in ts <==> multiset(ts)[t] > 0;
  }

  lemma {:induction false} KeepMiddle(a: seq<nat>, b: seq<nat>, rest: seq<nat>, c: seq<nat>)
    requires (forall t :: t in b ==> t in c) && forall t :: t in a || t in rest ==> t !in c
    ensures Keep(a + b + rest, c) == b
  {
    hide Keep;
    KeepAppend(a + b, rest, c);
    KeepAppend(a, b, c);
    KeepNone(a, c);
    KeepNone(rest, c);
    KeepAll(b, c);
    assert [] + b + [] == b;
  }

  /** Of the tokens of a kind, the completed ones are those completed: no other is one of them. */
  lemma {:induction false} KindCompleted(issued: seq<Ticket>, k: Kind, returned: seq<nat>, completed: seq<nat>)
    requires !k.Void? && Only(returned + completed, issued, k) <= OfKind(issued, k)
    ensures OfKind(Relabel(issued, completed), k) == Only(completed, Relabel(issued, completed), k)
  {
    hide Only, OfKind, Relabel;
    var a, b := Only(returned, issued, k), Only(completed, issued, k);
    OnlyAppend(returned, completed, issued, k);
    var rest := OfKind(issued, k)[|a + b|..];
    assert OfKind(issued, k) == a + b + rest;
    forall t | t in b ensures t in completed {
      OnlyIn(completed, issued, k, t);
    }
    forall t | t in a || t in rest ensures t !in completed {
      NotCompleted(issued, k, completed, a, rest, t);
    }
    KeepMiddle(a, b, rest, completed);
    KindKept(issued, completed, k);
    OnlyRelabel(completed, issued, completed, k);
  }

  lemma {:induction false} NotCompleted(issued: seq<Ticket>, k: Kind, completed: seq<nat>, a: seq<nat>, rest: seq<nat>,
          t: nat)
    requires OfKind(issued, k) == a + Only(completed, issued, k) + rest && (t in a || t in rest)
    ensures t !in completed
  {
    var b: seq<nat> := Only(completed, issued, k);
    OfKindCount(issued, k, t);
    OnlyIn(completed, issued, k, t);
    hide OfKind, Only;
    var all: seq<nat> := a + b + rest;
    assert multiset(all)[t] == multiset(a)[t] + multiset(b)[t] + multiset(rest)[t];
    assert multiset(a)[t] + multiset(rest)[t] > 0;
  }

  lemma {:induction false} RenewedLined(s: State)
    requires Settled(s) && s.events == []
    ensures Lined(s.completed, Relabel(s.issued, s.completed), [], [])
  {
    hide Only, OfKind, Toks, Relabel;
    assert Toks([]) == [];
    KindCompleted(s.issued, Data, s.returned, s.completed);
    assert Only(Handed(s), s.issued, Event) <= Only(Handed(s), s.issued, Event) + Toks(s.events);
    KindCompleted(s.issued, Event, s.returned, s.completed);
    SpentRelabel(s);
    var issued := Relabel(s.issued, s.completed);
    assert Only(s.completed, issued, Data) + [] == Only(s.completed, issued, Data);
    assert Only(s.completed, issued, Event) + [] == Only(s.completed, issued, Event);
  }

  lemma {:induction false} SpentRelabel(s: State)
    requires AllSpent(Handed(s), s.issued)
    ensures AllSpent(s.completed, Relabel(s.issued, s.completed))
  {
    forall i | 0 <= i < |s.completed| ensures s.completed[i] < |s.issued| && !s.issued[s.completed[i]].kind.Void? {
      assert Handed(s)[|s.returned| + i] == s.completed[i];
    }
  }

  /** After a detach that leaves nothing with the transport, attaching again starts a session like any
      other, its history being what the client has not taken yet. */
  lemma {:induction false} AttachAgain(s: State, sink: int, fs: seq<Finished>)
    requires Inv(s) && FinishDetach(s, sink, fs).usb == []
    ensures Attached(Renewed(Attach(FinishDetach(s, sink, fs))))
  {
    InvSettled(s);
    DetachSettled(s, sink, fs);
    hide FinishDetach, Inv, Lined, Settled, Relabel;
    var u := FinishDetach(s, sink, fs);
    RenewedLined(u);
  }

  /** Whatever happens between the two, and attaching itself, keeps the invariant. */
  lemma {:induction false} SessionsKeep(s: State, sink: int, fs: seq<Finished>, between: seq<Step>, es: seq<Step>)
    requires Inv(s) && s.thread.Gone? && FinishDetach(s, sink, fs).usb == []
    ensures Inv(After(Attach(After(Renewed(FinishDetach(s, sink, fs)), between)), es))
  {
    InvSettled(s);
    DetachSettled(s, sink, fs);
    hide FinishDetach, Inv, Lined, Settled, Relabel, After, Attach;
    var u := FinishDetach(s, sink, fs);
    DetachWired(s, sink, fs);
    RenewedLined(u);
    RenewedKeeps(u);
    AfterKeeps(Renewed(u), between);
    AttachKeeps(After(Renewed(u), between));
    AfterKeeps(Attach(After(Renewed(u), between)), es);
  }

  lemma {:induction false} DetachWired(s: State, sink: int, fs: seq<Finished>)
    requires Inv(s)
    ensures var t := FinishDetach(s, sink, fs); -1 <= t.control < t.nextUsb && t.thread == s.thread
  {
    assert Wired(s);
    hide Inv;
    DetachControl(s, sink, fs);
  }

  lemma {:induction false} DetachControl(s: State, sink: int, fs: seq<Finished>)
    requires -1 <= s.control < s.nextUsb
    ensures var t := FinishDetach(s, sink, fs); -1 <= t.control < t.nextUsb && t.thread == s.thread
    decreases |fs|
  {
    hide ControlDone, DataFront;
    if s.pending != [] && fs != [] && fs[0].token != -1 {
      if fs[0].token == s.control {
        ControlMoves(s, sink, fs[0]);
        DetachControl(ControlDone(s, sink, fs[0]).(thread := s.thread), sink, fs[1..]);
      } else if s.usb != [] && fs[0].token == s.usb[0] {
        DataMoves(s, fs[0]);
        DetachControl(DataFront(s, fs[0]).(thread := s.thread), sink, fs[1..]);
      }
    }
  }

  lemma {:induction false} RenewedKeeps(s: State)
    requires s.queued == s.pending == s.events == [] && s.usb == [] && -1 <= s.control < s.nextUsb && !s.thread.Waiting?
    requires Lined(s.completed, Relabel(s.issued, s.completed), [], [])
    ensures Inv(Renewed(s))
  {
    hide Lined, Relabel;
    assert [] + s.completed == s.completed && s.pending + s.queued == [];
  }

  lemma {:induction false} AttachKeeps(s: State)
    requires Inv(s)
    ensures Inv(Attach(s))
  {
    hide Lined, Owned;
  }

  /** What was handed on stays so, and tickets are only added. */
  predicate Grown(s: State, t: State) {
    Handed(s) <= Handed(t) && s.issued <= t.issued
  }

  lemma {:induction false} EventGrows(s: State, c: Cell)
    requires s.events != []
    ensures Grown(s, CompleteEvent(s, c)) && |CompleteEvent(s, c).events| < |s.events|
  {
  }

  lemma {:induction false} EventsGrow(s: State)
    ensures Grown(s, CompleteEvents(s))
    decreases |s.events|
  {
    hide CompleteEvent, Grown;
    if s.events != [] {
      var t := CompleteEvent(s, Cell(TypeNone, []));
      EventGrows(s, Cell(TypeNone, []));
      EventsGrow(t);
      GrownTwice(s, t, CompleteEvents(t));
    } else {
      GrownSame(s, s);
    }
  }

  lemma {:induction false} GrownTwice(s: State, t: State, u: State)
    requires Grown(s, t) && Grown(t, u)
    ensures Grown(s, u)
  {
  }

  lemma {:induction false} GrownSame(s: State, t: State)
    requires Handed(t) == Handed(s) && t.issued == s.issued
    ensures Grown(s, t)
  {
  }

  lemma {:induction false} StateEventGrows(s: State, typ: EventType)
    ensures Grown(s, StateEvent(s, typ))
  {
    hide CompleteEvent, Grown;
    if s.events != [] {
      var p := s.events[0].ptr;
      EventGrows(s, Cell(typ, if p in s.cells then s.cells[p].bytes else []));
    } else {
      GrownSame(s, s);
    }
  }

  lemma {:induction false} SubmitGrows(s: State, typ: EventType, ptr: nat)
    ensures Grown(s, SubmitBuffer(s, typ, ptr))
  {
    SubmitIs(s, typ, ptr);
    SubmitFrame(Issue(s, match typ case TypeData => Data case TypeEvent => Event case _ => Void, ptr));
    hide SubmitBuffer, SubmitAll;
  }

  lemma {:induction false} StartGrows(s: State)
    ensures Grown(s, Start(s))
  {
    SubmitFrame(s.(status := ACTIVE));
    hide SubmitAll;
  }

  lemma {:induction false} ControlGrows(s: State, sink: int, f: Finished)
    ensures Grown(s, ControlDone(s, sink, f))
  {
    StateEventGrows(s, TypeEndOfData);
    hide StateEvent, Grown;
    var u := StateEvent(s, TypeEndOfData);
    GrownSame(u, ArmControl(u));
    GrownTwice(s, u, ArmControl(u));
    GrownSame(s, ArmControl(s));
    GrownSame(s, s.(control := -1, thread := Leaving));
  }

  lemma {:induction false} DataGrows(s: State, f: Finished)
    requires s.pending != [] && s.usb != []
    ensures Grown(s, DataDone(s, f))
  {
    CoreFront(s, f);
    hide SubmitAll, Outcome;
  }

  lemma {:induction false} FinishGrows(s: State, sink: int, f: Finished)
    requires s.pending != []
    ensures Grown(s, Finish(s, sink, f))
  {
    hide ControlDone, DataDone, Grown;
    ControlGrows(s, sink, f);
    if s.usb != [] {
      DataGrows(s, f);
    }
    GrownSame(s, s.(thread := Leaving));
  }

  lemma {:induction false} StepGrown(s: State, e: Step)
    requires Enabled(s, e)
    ensures Grown(s, Next(s, e))
  {
    hide SubmitBuffer, Start, StateEvent, Finish, CompleteEvents, Grown;
    match e
    case DoSubmit(typ, ptr) => SubmitGrows(s, typ, ptr);
    case DoStart => StartGrows(s);
    case DoStop =>
      var u := s.(status := DETACHING);
      GrownSame(s, u);
      EventsGrow(u);
      GrownTwice(s, u, CompleteEvents(u));
      GrownSame(s, s);
    case DoStateEvent(typ) => StateEventGrows(s, typ);
    case DoFinish(sink, f) => FinishGrows(s, sink, f);
    case DoTake =>
      assert s.returned + [s.completed[0]] + s.completed[1..] == Handed(s);
      GrownSame(s, Take(s));
    case _ => GrownSame(s, Next(s, e));
  }

  lemma {:induction false} RunGrown(s: State, es: seq<Step>)
    ensures Grown(s, After(s, es))
    decreases |es|
  {
    hide Grown, Next, Enabled;
    if es == [] {
      GrownSame(s, s);
    } else {
      var t := After(s, es[..|es| - 1]);
      RunGrown(s, es[..|es| - 1]);
      if Enabled(t, es[|es| - 1]) {
        StepGrown(t, es[|es| - 1]);
        GrownTwice(s, t, Next(t, es[|es| - 1]));
      }
    }
  }

  /** A session first hands on what an earlier one left, in order, and then only tokens of its own: the
      first token the client takes is an old one if and only if any was left. */
  lemma {:induction false} OldTokensFirst(s: State, es: seq<Step>)
    requires Attached(s)
    ensures var t := After(s, es);
            && s.completed <= Handed(t)
            && (forall i :: |s.completed| <= i < |Handed(t)| ==> Handed(t)[i] >= |s.issued|)
            && (t.returned != [] ==> (t.returned[0] < |s.issued| <==> s.completed != []))
  {
    hide After, Inv, Attached, AllSpent;
    var t := After(s, es);
    RunGrown(s, es);
    AttachedKeeps(s);
    AfterKeeps(s, es);
    AttachedSpent(s);
    assert [] + s.completed == s.completed;
    forall i | |s.completed| <= i < |Handed(t)| ensures Handed(t)[i] >= |s.issued| {
      NewTokens(s, t, i);
    }
    if t.returned != [] {
      assert t.returned[0] == Handed(t)[0];
    }
  }

  lemma {:induction false} AttachedSpent(s: State)
    requires Attached(s)
    ensures s.returned == [] && s.pending == s.queued == s.events == [] && AllSpent(s.completed, s.issued)
  {
  }

  /** A token handed on behind the old ones is not old: an old one that counts is in front already. */
  lemma {:induction false} NewTokens(s: State, t: State, i: nat)
    requires Inv(s) && Inv(t) && s.returned == [] && s.pending == s.queued == s.events == []
    requires Grown(s, t) && |s.completed| <= i < |Handed(t)|
    ensures Handed(t)[i] >= |s.issued|
  {
    var x := Handed(t)[i];
    if x < |s.issued| {
      assert AllSpent(Handed(t), t.issued);
      assert t.issued[x] == s.issued[x] && !t.issued[x].kind.Void?;
      EachOnce(s, x);
      EachOnce(t, x);
      assert s.pending + s.queued == [] && Toks([]) == [] && [] + s.completed == s.completed;
      hide Inv, AllSpent, Toks;
      assert multiset(s.completed)[x] == 1;
      var j :| 0 <= j < |s.completed| && s.completed[j] == x;
      assert Handed(t)[j] == x;
      TwoOf(Handed(t), j, i);
      assert false;
    }
  }

  lemma {:induction false} TwoOf(ts: seq<nat>, i: nat, j: nat)
    requires i < j < |ts| && ts[i] == ts[j]
    ensures multiset(ts)[ts[i]] >= 2
  {
    assert ts == ts[..j] + [ts[j]] + ts[j + 1..];
    assert ts[..j][i] == ts[i];
    assert multiset(ts)[ts[i]] == multiset(ts[..j])[ts[i]] + multiset([ts[j]])[ts[i]] + multiset(ts[j + 1..])[ts[i]];
  }

  /** The same across a detach and the next attach. */
  lemma {:induction false} LeftoversFirst(s: State, sink: int, fs: seq<Finished>, es: seq<Step>)
    requires Inv(s) && FinishDetach(s, sink, fs).usb == []
    ensures var u := FinishDetach(s, sink, fs);
            var t := After(Renewed(Attach(u)), es);
            && s.completed <= u.completed && u.completed <= Handed(t)
            && (t.returned != [] ==> (t.returned[0] < |s.issued| <==> u.completed != []))
  {
    var u := FinishDetach(s, sink, fs);
    AttachAgain(s, sink, fs);
    InvSettled(s);
    DetachSettled(s, sink, fs);
    DetachGrows(s, sink, fs);
    hide FinishDetach, Inv, Attached, After, Settled, Relabel;
    OldTokensFirst(Renewed(Attach(u)), es);
  }

  lemma {:induction false} DetachGrows(s: State, sink: int, fs: seq<Finished>)
    ensures s.completed <= FinishDetach(s, sink, fs).completed
    decreases |fs|
  {
    if s.pending != [] && fs != [] && fs[0].token != -1 {
      if fs[0].token == s.control {
        var t := ControlDone(s, sink, fs[0]).(thread := s.thread);
        assert s.completed <= t.completed;
        hide ControlDone, DataFront;
        DetachGrows(t, sink, fs[1..]);
      } else if s.usb != [] && fs[0].token == s.usb[0] {
        hide ControlDone, Outcome;
        DetachGrows(DataFront(s, fs[0]).(thread := s.thread), sink, fs[1..]);
      }
    }
  }

  // ---------------------------------------------------------------------------------------------
  // The status behind a detach

  predicate NotRestarted(e: Step) {
    !e.DoStart? && !e.DoDetach?
  }

  lemma {:induction false} DetachedStep(s: State, e: Step)
    requires (s.status.DETACHED? || s.status.EXITED?) && Enabled(s, e) && NotRestarted(e)
    ensures Next(s, e).status == if e.DoLeave? then EXITED else s.status
    ensures if e.DoLeave? then Next(s, e).thread.Gone? else Next(s, e).thread.Gone? == s.thread.Gone?
    ensures e.DoLeave? ==> !s.thread.Gone?
  {
    hide Finish, SubmitBuffer, CompleteEvents, StateEvent;
    match e
    case DoSubmit(typ, ptr) => SubmitStatus(s, typ, ptr);
    case DoFinish(sink, f) => FinishStatus(s, sink, f);
    case DoStateEvent(typ) => StateEventStatus(s, typ);
    case _ =>
  }

  lemma {:induction false} SubmitStatus(s: State, typ: EventType, ptr: nat)
    requires !s.status.ACTIVE?
    ensures SubmitBuffer(s, typ, ptr).status == s.status && SubmitBuffer(s, typ, ptr).thread == s.thread
  {
    SubmitIs(s, typ, ptr);
    hide SubmitBuffer, SubmitAll;
  }

  lemma {:induction false} StateEventStatus(s: State, typ: EventType)
    ensures StateEvent(s, typ).status == s.status && StateEvent(s, typ).thread == s.thread
  {
  }

  lemma {:induction false} FinishStatus(s: State, sink: int, f: Finished)
    requires !s.status.ACTIVE? && s.thread.Waiting? && s.pending != []
    ensures Finish(s, sink, f).status == s.status && !Finish(s, sink, f).thread.Gone?
  {
    StateEventStatus(s, TypeEndOfData);
    hide StateEvent, SubmitAll, Outcome;
  }

  /** Whatever runs behind the start of a detach, the data thread's last act is to change the status: it
      is still DETACHED if and only if the thread was gone before, or is not gone yet. */
  lemma {:induction false} DetachedUntil(s: State, es: seq<Step>)
    requires forall i :: 0 <= i < |es| ==> NotRestarted(es[i])
    ensures var t := After(BeginDetach(s), es);
            && t.status == (if s.thread.Gone? || !t.thread.Gone? then DETACHED else EXITED)
            && (s.thread.Gone? ==> t.thread.Gone?)
    decreases |es|
  {
    hide Next, Enabled, NotRestarted;
    if es != [] {
      var t, e := After(BeginDetach(s), es[..|es| - 1]), es[|es| - 1];
      DetachedUntil(s, es[..|es| - 1]);
      if Enabled(t, e) {
        DetachedStep(t, e);
      }
    }
  }

  /** So once a detach is done, a buffer handed in is refused if and only if the data thread was gone before
      it began. */
  lemma {:induction false} DetachedStillAccepts(s: State, es: seq<Step>, sink: int, fs: seq<Finished>, typ: EventType,
          ptr: nat)
    requires forall i :: 0 <= i < |es| ==> NotRestarted(es[i])
    requires After(BeginDetach(s), es).thread.Gone?
    ensures var t := FinishDetach(After(BeginDetach(s), es), sink, fs);
            && (t.status.DETACHED? <==> s.thread.Gone?)
            && if s.thread.Gone? then SubmitBuffer(t, typ, ptr) == t
               else |SubmitBuffer(t, typ, ptr).issued| == |t.issued| + 1
  {
    DetachedUntil(s, es);
    var u := After(BeginDetach(s), es);
    DetachStatus(u, sink, fs);
    var t := FinishDetach(u, sink, fs);
    SubmitIs(t, typ, ptr);
    hide After, FinishDetach, SubmitBuffer, SubmitAll, NotRestarted;
  }

  /** And the sink it leaves is attached again as ATTACHED or as EXITED, which a notified wait takes for the end
      of the thread until the sink is started: the latter unless the thread was gone before the detach. */
  lemma {:induction false} AttachStatus(s: State, es: seq<Step>, sink: int, fs: seq<Finished>)
    requires forall i :: 0 <= i < |es| ==> NotRestarted(es[i])
    requires After(BeginDetach(s), es).thread.Gone?
    ensures Attach(FinishDetach(After(BeginDetach(s), es), sink, fs)).status ==
              if s.thread.Gone? then ATTACHED else EXITED
  {
    DetachedUntil(s, es);
    DetachStatus(After(BeginDetach(s), es), sink, fs);
    hide After, FinishDetach, NotRestarted;
  }

  /** A transfer that ends the wait of the data thread: any but a control completion that is repeated. */
  predicate Releases(s: State, e: Step) {
    e.DoFinish? && !(e.f.token != -1 && e.f.token == s.control && Repeats(s, e.f))
  }

  predicate Released(s: State, es: seq<Step>)
    decreases |es|
  {
    es != []
    && (Released(s, es[..|es| - 1])
        || var t, e := After(s, es[..|es| - 1]), es[|es| - 1]; Enabled(t, e) && Releases(t, e))
  }

  lemma {:induction false} WaitStep(s: State, e: Step)
    requires Enabled(s, e) && s.thread.Waiting?
    ensures Next(s, e).thread.Waiting? <==> !Releases(s, e)
  {
    match e
    case DoSubmit(typ, ptr) =>
      SubmitFrame(Issue(s, match typ case TypeData => Data case TypeEvent => Event case _ => Void, ptr));
      SubmitIs(s, typ, ptr);
      hide SubmitBuffer, SubmitAll;
    case DoStart =>
      SubmitFrame(s.(status := ACTIVE));
      hide SubmitAll;
    case DoStop =>
      EventsThread(s.(status := DETACHING));
      hide CompleteEvents;
    case DoFinish(sink, f) =>
      WaitFinish(s, sink, f);
    case _ =>
  }

  lemma {:induction false} WaitFinish(s: State, sink: int, f: Finished)
    requires s.thread.Waiting? && s.pending != []
    ensures Finish(s, sink, f).thread.Waiting? <==> !Releases(s, DoFinish(sink, f))
  {
    if s.usb != [] {
      CoreFront(s, f);
    }
    hide SubmitAll, Outcome;
  }

  lemma {:induction false} EventsThread(s: State)
    ensures CompleteEvents(s).thread == s.thread
    decreases |s.events|
  {
    if s.events != [] {
      EventsThread(CompleteEvent(s, Cell(TypeNone, [])));
    }
  }

  lemma {:induction false} NotBack(s: State, e: Step)
    requires s.status.DETACHED? && Enabled(s, e) && NotRestarted(e) && !s.thread.Waiting?
    ensures !Next(s, e).thread.Waiting?
  {
    match e
    case DoSubmit(typ, ptr) =>
      SubmitIs(s, typ, ptr);
      hide SubmitBuffer;
    case _ =>
  }

  lemma {:induction false} GoneStays(s: State, e: Step)
    requires (s.status.DETACHED? || s.status.EXITED?) && Enabled(s, e) && NotRestarted(e) && s.thread.Gone?
    ensures Next(s, e).thread.Gone?
  {
    DetachedStep(s, e);
  }

  /** A detach that finds the data thread waiting: nothing has been cancelled yet, and the thread goes on
      waiting until a transfer other than a repeated control request comes by itself. */
  lemma {:induction false} WaitsUntil(s: State, es: seq<Step>)
    requires forall i :: 0 <= i < |es| ==> NotRestarted(es[i])
    ensures After(BeginDetach(s), es).thread.Waiting? <==> s.thread.Waiting? && !Released(BeginDetach(s), es)
    decreases |es|
  {
    hide Next, Enabled, NotRestarted, Releases;
    if es != [] {
      var t, e := After(BeginDetach(s), es[..|es| - 1]), es[|es| - 1];
      WaitsUntil(s, es[..|es| - 1]);
      DetachedUntil(s, es[..|es| - 1]);
      if Enabled(t, e) {
        if t.thread.Waiting? {
          WaitStep(t, e);
        } else if t.thread.Gone? {
          GoneStays(t, e);
        } else {
          NotBack(t, e);
        }
      }
    }
  }

  /** What the detach joins: the data thread's last two steps come last. */
  function Joined(s: State, es: seq<Step>): State {
    After(BeginDetach(s), es + [DoEnter, DoLeave])
  }

  /** So a detach can return if and only if the data thread was not waiting, or such a transfer came. */
  lemma {:induction false} DetachReturns(s: State, es: seq<Step>)
    requires forall i :: 0 <= i < |es| ==> NotRestarted(es[i])
    ensures Joined(s, es).thread.Gone? <==> (s.thread.Waiting? ==> Released(BeginDetach(s), es))
  {
    WaitsUntil(s, es);
    DetachedUntil(s, es);
    AfterAppend(BeginDetach(s), es, [DoEnter, DoLeave]);
    var t := After(BeginDetach(s), es);
    hide Released;
    assert [DoEnter, DoLeave][..1] == [DoEnter] && [DoEnter][..0] == [];
    assert After(t, [DoEnter]) == if Enabled(t, DoEnter) then Next(t, DoEnter) else t;
  }

  lemma {:induction false} DetachStatus(s: State, sink: int, fs: seq<Finished>)
    ensures FinishDetach(s, sink, fs).status == s.status
    decreases |fs|
  {
    hide ControlDone, DataFront;
    if s.pending != [] && fs != [] && fs[0].token != -1 {
      if fs[0].token == s.control {
        ControlMoves(s, sink, fs[0]);
        DetachStatus(ControlDone(s, sink, fs[0]).(thread := s.thread), sink, fs[1..]);
      } else if s.usb != [] && fs[0].token == s.usb[0] {
        DataMoves(s, fs[0]);
        DetachStatus(DataFront(s, fs[0]).(thread := s.thread), sink, fs[1..]);
      }
    }
  }
}
