/** The capture utility on top of the engine: it hands all its buffers in, writes what comes back to
    the trace file, hands each data buffer in again, and at the end stops the sink and discards what
    is still outstanding.  The data thread runs between any two of its steps.
 */
module CaptureLoop {
  import opened Bytes
  import opened TraceEngine
  import opened TraceContents

  /** Where the client is: handing in buffer `next`; about to wait for an event; holding a token it
      was just given; about to hand a buffer in again; out of the loop; discarding; done. */
  datatype Phase =
    | Submitting(next: nat)
    | Capturing
    | Holding(token: nat)
    | Resubmitting(idx: nat)
    | Closing
    | Discarding
    | Ended

  /** The engine, and the client's fields: the token each buffer was handed in under (-1 for none),
      how many buffers are data buffers, the count of outstanding ones, and the trace file.
      `handled` lists the tokens whose data went to the file. */
  datatype World = World(e: State, toks: seq<int>, dataBufs: nat, numPending: int, file: seq<byte>,
          handled: seq<nat>, phase: Phase)

  function TypeOf(w: World, idx: nat): EventType {
    if idx < w.dataBufs then TypeData else TypeEvent
  }

  function KindOf(w: World, idx: nat): Kind {
    if idx < w.dataBufs then Data else Event
  }

  /** `cstrace_submit_client_buf`. */
  function SubmitAt(w: World, idx: nat, phase: Phase): World
    requires idx < |w.toks|
  {
    w.(e := SubmitBuffer(w.e, TypeOf(w, idx), idx), toks := w.toks[idx := |w.e.issued|],
            numPending := w.numPending + 1, phase := phase)
  }

  /** Position of the first entry for a token; the length when there is none. */
  function FirstOf(toks: seq<int>, t: int): (i: nat)
    ensures i <= |toks| && (i < |toks| ==> toks[i] == t) && forall j :: 0 <= j < i ==> toks[j] != t
  {
    if toks == [] || toks[0] == t then 0 else 1 + FirstOf(toks[1..], t)
  }

  /** The part of `cstrace_capture_data` behind the wait: find the buffer, count it as returned, and
      write its data, or leave the loop. */
  function Process(w: World): World
    requires w.phase.Holding?
  {
    var i := FirstOf(w.toks, w.phase.token);
    if i == |w.toks| then w.(phase := Closing)
    else
      var v := w.(numPending := w.numPending - 1);
      if i in w.e.cells && w.e.cells[i].typ.TypeData? then
        v.(file := w.file + w.e.cells[i].bytes, handled := w.handled + [w.phase.token], phase := Resubmitting(i))
      else v.(phase := Closing)
  }

  datatype Action =
    | Thread(step: Step)
    | Submit
    | Await
    | Handle
    | Resubmit
    | GiveUp
    | StopSink
    | Discard

  predicate CanAct(w: World, a: Action) {
    match a
    case Thread(step) => (step.DoEnter? || step.DoFinish? || step.DoLeave?) && Enabled(w.e, step)
    case Submit => w.phase.Submitting? && w.phase.next < |w.toks|
    case Await => w.phase.Capturing? && w.e.completed != []
    case Handle => w.phase.Holding?
    case Resubmit => w.phase.Resubmitting? && w.phase.idx < |w.toks|
    case GiveUp => w.phase.Capturing?
    case StopSink => w.phase.Closing?
    case Discard => w.phase.Discarding? && (w.numPending <= 0 || w.e.completed != [])
  }

  /** The phase behind the submission of buffer `next`. */
  function PastSubmit(w: World, next: nat): Phase {
    if next + 1 < |w.toks| then Submitting(next + 1) else Capturing
  }

  function Act(w: World, a: Action): World
    requires CanAct(w, a)
  {
    match a
    case Thread(step) => w.(e := Next(w.e, step))
    case Submit => SubmitAt(w, w.phase.next, PastSubmit(w, w.phase.next))
    case Await => w.(e := Take(w.e), phase := Holding(w.e.completed[0]))
    case Handle => Process(w)
    case Resubmit => SubmitAt(w, w.phase.idx, Capturing)
    case GiveUp => w.(phase := Closing)
    case StopSink =>
      w.(e := Stop(w.e), phase := if w.e.status.ACTIVE? || w.e.status.DETACHING? then Discarding else Ended)
    case Discard => if w.numPending <= 0 then w.(phase := Ended) else w.(e := Take(w.e), numPending := w.numPending - 1)
  }

  /** A run; actions that cannot be taken are left out of it. */
  function Acts(w: World, acts: seq<Action>): World
    decreases |acts|
  {
    if acts == [] then w
    else
      var v := Acts(w, acts[..|acts| - 1]);
      if CanAct(v, acts[|acts| - 1]) then Act(v, acts[|acts| - 1]) else v
  }

  /** A started sink and a client with all its buffers, none of them handed in, as many data buffers
      as the sink's window holds. */
  predicate Begins(w: World) {
    && Inv(w.e) && w.e.status.ACTIVE?
    && w.e.queued == w.e.pending == w.e.events == [] && w.e.completed == w.e.returned == []
    && w.dataBufs <= |w.toks| && (forall i :: 0 <= i < |w.toks| ==> w.toks[i] == -1)
    && w.numPending == 0 && w.file == [] && w.handled == [] && w.phase == Submitting(0)
    && w.dataBufs == w.e.window && |w.toks| > 0
  }

  // ---------------------------------------------------------------------------------------------
  // The invariant

  /** The buffer of token `t` is the client's, is handed in under it, and is of its kind. */
  predicate Mine(w: World, t: nat) {
    && t < |w.e.issued| && w.e.issued[t].ptr < |w.toks| && w.toks[w.e.issued[t].ptr] == t
    && w.e.issued[t].kind == KindOf(w, w.e.issued[t].ptr)
  }

  /** Completed tokens, among them one the client holds and has not handled yet. */
  function Done(w: World): seq<nat> {
    w.e.completed + if w.phase.Holding? then [w.phase.token] else []
  }

  function Line(e: State): seq<Buffer> {
    e.pending + e.queued
  }

  /** Every entry of the token table names its own buffer. */
  predicate Table(w: World) {
    forall j :: 0 <= j < |w.toks| ==>
      w.toks[j] == -1 || (0 <= w.toks[j] < |w.e.issued| && w.e.issued[w.toks[j]].ptr == j)
  }

  predicate Holdings(w: World) {
    && (forall t :: t in Done(w) ==> Mine(w, t))
    && (forall b :: b in Line(w.e) ==> Mine(w, b.token))
    && (forall b :: b in w.e.events ==> Mine(w, b.token))
  }

  predicate IntactToken(w: World, t: nat)
    requires t < |w.e.issued|
  {
    var p := w.e.issued[t].ptr;
    && t in w.e.filled && p in w.e.cells && w.e.cells[p] == w.e.filled[t]
    && (w.e.issued[t].kind.Event? ==> !w.e.filled[t].typ.TypeData?)
  }

  /** A completed buffer still holds what it completed with; an event buffer never holds data. */
  predicate Intact(w: World) {
    forall t :: t in Done(w) && t < |w.e.issued| ==> IntactToken(w, t)
  }

  predicate Counted(w: World) {
    w.numPending == |Done(w)| + |Line(w.e)| + |w.e.events|
  }

  /** What the transport delivered for a line of tokens, one after the other. */
  function Payloads(ts: seq<nat>, filled: map<nat, Cell>): seq<byte> {
    if ts == [] then []
    else
      var n := |ts| - 1;
      Payloads(ts[..n], filled) + if ts[n] in filled then filled[ts[n]].bytes else []
  }

  /** The file holds the data of the handled tokens, and these are all that was returned while the
      loop runs. */
  predicate Written(w: World) {
    && w.file == Payloads(w.handled, w.e.filled)
    && (forall i :: 0 <= i < |w.handled| ==> w.handled[i] in w.e.filled && IsKind(w.handled[i], w.e.issued, Data))
    && (forall i :: 0 <= i < |w.handled| && w.handled[i] in w.e.filled ==> w.e.filled[w.handled[i]].typ.TypeData?)
    && w.handled <= w.e.returned
    && (w.phase.Submitting? || w.phase.Capturing? || w.phase.Resubmitting? ==> w.e.returned == w.handled)
    && (w.phase.Holding? ==> w.e.returned == w.handled + [w.phase.token])
  }

  /** A buffer about to be handed in is not held by the engine. */
  predicate Free(w: World, idx: nat) {
    && (forall t :: t in Done(w) ==> t < |w.e.issued| && w.e.issued[t].ptr != idx)
    && (forall b :: b in Line(w.e) ==> b.ptr != idx)
    && (forall b :: b in w.e.events ==> b.ptr != idx)
  }

  predicate Placed(w: World) {
    && (w.phase.Submitting? ==> w.phase.next < |w.toks| && forall j :: w.phase.next <= j < |w.toks| ==> w.toks[j] == -1)
    && (w.phase.Resubmitting? ==> w.phase.idx < |w.toks| && Free(w, w.phase.idx))
  }

  predicate Good(w: World) {
    && Inv(w.e) && !w.e.status.DETACHED? && w.dataBufs == w.e.window
    && Table(w) && Holdings(w) && Intact(w) && Counted(w) && Written(w) && Placed(w)
  }

  // ---------------------------------------------------------------------------------------------
  // Ownership

  /** No token is in two places. */
  lemma {:induction false} Apart(s: State, t: nat)
    requires Inv(s)
    ensures t in s.completed ==> t !in s.returned
    ensures t in Toks(Line(s)) ==> t !in s.returned && t !in s.completed && t !in Toks(s.events)
    ensures t in Toks(s.events) ==> t !in s.returned && t !in s.completed
  {
    EachOnce(s, t);
    hide Inv, Toks;
    assert multiset(Handed(s))[t] == multiset(s.returned)[t] + multiset(s.completed)[t];
  }

  /** Buffers the engine or the client holds under different tokens are different buffers. */
  lemma {:induction false} Distinct(w: World, t: nat, u: nat)
    requires Mine(w, t) && Mine(w, u) && t != u
    ensures w.e.issued[t].ptr != w.e.issued[u].ptr
  {
  }

  lemma {:induction false} Begun(w: World)
    requires Begins(w)
    ensures Good(w)
  {
    hide Inv;
  }

  // ---------------------------------------------------------------------------------------------
  // What every action keeps

  /** An engine step that moves no token. */
  lemma {:induction false} Unmoved(w: World, e: State)
    requires Good(w) && Inv(e) && !e.status.DETACHED? && e.window == w.e.window
    requires Line(e) == Line(w.e) && e.events == w.e.events && e.completed == w.e.completed
            && e.returned == w.e.returned
    requires e.issued == w.e.issued && e.cells == w.e.cells && e.filled == w.e.filled
    ensures Good(w.(e := e))
  {
    hide Inv, Line, Payloads;
    var v := w.(e := e);
    assert Done(v) == Done(w);
  }

  /** An engine step that completes buffer `b`, the first of its line, with content `c`. */
  predicate CompletesOne(s: State, v: State, b: Buffer, c: Cell) {
    && v.completed == s.completed + [b.token] && v.cells == s.cells[b.ptr := c] && v.filled == s.filled[b.token := c]
    && v.issued == s.issued && v.returned == s.returned && v.window == s.window
    && ((Line(s) != [] && b == Line(s)[0] && Line(v) == Line(s)[1..] && v.events == s.events)
        || (s.events != [] && b == s.events[0] && v.events == s.events[1..] && Line(v) == Line(s) && !c.typ.TypeData?))
  }

  /** Tokens and buffers behind a completion were there before it. */
  predicate Moved(w: World, v: World, b: Buffer) {
    && (forall t :: t in Done(v) ==> t in Done(w) || t == b.token) && |Done(v)| == |Done(w)| + 1
    && (forall x :: x in Line(v.e) ==> x in Line(w.e)) && (forall x :: x in v.e.events ==> x in w.e.events)
    && |Line(v.e)| + |v.e.events| + 1 == |Line(w.e)| + |w.e.events|
    && (b in Line(w.e) || b in w.e.events)
  }

  lemma {:induction false} MovedOne(w: World, v: World, b: Buffer, c: Cell)
    requires CompletesOne(w.e, v.e, b, c) && v == w.(e := v.e)
    ensures Moved(w, v, b)
  {
    hide Line;
  }

  lemma {:induction false} OwnedAll(s: State)
    requires Inv(s)
    ensures forall b :: b in Line(s) ==> b.token < |s.issued| && s.issued[b.token] == Ticket(Data, b.ptr)
    ensures forall b :: b in s.events ==> b.token < |s.issued| && s.issued[b.token] == Ticket(Event, b.ptr)
  {
    assert Owned(Line(s), s.issued, Data) && Owned(s.events, s.issued, Event);
    hide InLine, Wired, Windowed, Line;
  }

  lemma {:induction false} ToksOf(bs: seq<Buffer>, b: Buffer)
    requires b in bs
    ensures b.token in Toks(bs)
  {
    var i :| 0 <= i < |bs| && bs[i] == b;
    assert Toks(bs)[i] == b.token;
  }

  /** The buffer being completed is held under its own token, apart from every other. */
  lemma {:induction false} FrontApart(w: World, b: Buffer)
    requires Good(w) && (b in Line(w.e) || b in w.e.events)
    ensures Mine(w, b.token) && w.e.issued[b.token].ptr == b.ptr && b.token !in Done(w) && b.token !in w.e.returned
  {
    OwnedAll(w.e);
    Apart(w.e, b.token);
    if b in Line(w.e) {
      ToksOf(Line(w.e), b);
    } else {
      ToksOf(w.e.events, b);
    }
    hide Inv, Table, Intact, Counted, Placed, Line, Payloads, Toks;
  }

  lemma {:induction false} PayloadsSame(ts: seq<nat>, filled: map<nat, Cell>, t: nat, c: Cell)
    requires t !in ts
    ensures Payloads(ts, filled[t := c]) == Payloads(ts, filled)
  {
    if ts != [] {
      PayloadsSame(ts[..|ts| - 1], filled, t, c);
    }
  }

  lemma {:induction false} HoldingsDone(w: World, v: World, b: Buffer, c: Cell)
    requires Good(w) && CompletesOne(w.e, v.e, b, c) && v == w.(e := v.e)
    ensures Holdings(v) && Table(v) && Counted(v)
  {
    MovedOne(w, v, b, c);
    FrontApart(w, b);
    assert v.toks == w.toks && v.e.issued == w.e.issued;
    hide Inv, Intact, Written, Placed, Line, Payloads, CompletesOne, Done;
    assert forall t: nat :: Mine(w, t) ==> Mine(v, t);
    hide Mine;
  }

  lemma {:induction false} IntactDone(w: World, v: World, b: Buffer, c: Cell)
    requires Good(w) && CompletesOne(w.e, v.e, b, c) && v == w.(e := v.e)
    ensures Intact(v)
  {
    MovedOne(w, v, b, c);
    FrontApart(w, b);
    EventData(w, v, b, c);
    assert forall t :: t in Done(w) ==> Mine(w, t);
    assert Intact(w);
    hide Good, CompletesOne, Done, Intact, Mine, IntactToken, Moved;
    MovedDone(w, v, b);
    IntactNew(w, v, b, c);
    forall t: nat | t in Done(v) && t < |v.e.issued| ensures IntactToken(v, t) {
      if t != b.token {
        IntactAt(w, t);
        Distinct(w, t, b.token);
        IntactOld(w, v, b, c, t);
      }
    }
    IntactAll(v);
  }

  lemma {:induction false} MovedDone(w: World, v: World, b: Buffer)
    requires Moved(w, v, b)
    ensures forall t :: t in Done(v) ==> t in Done(w) || t == b.token
  {
  }

  lemma {:induction false} IntactNew(w: World, v: World, b: Buffer, c: Cell)
    requires CompletesOne(w.e, v.e, b, c) && b.token < |w.e.issued| && w.e.issued[b.token].ptr == b.ptr
    requires w.e.issued[b.token].kind.Event? ==> !c.typ.TypeData?
    ensures v.e.issued == w.e.issued && IntactToken(v, b.token)
  {
    hide Line;
  }

  lemma {:induction false} IntactOld(w: World, v: World, b: Buffer, c: Cell, t: nat)
    requires CompletesOne(w.e, v.e, b, c) && t < |w.e.issued| && t != b.token && w.e.issued[t].ptr != b.ptr
    requires v.e.issued == w.e.issued && IntactToken(w, t)
    ensures IntactToken(v, t)
  {
    hide Line;
  }

  lemma {:induction false} IntactAt(w: World, t: nat)
    requires Intact(w) && t in Done(w) && t < |w.e.issued|
    ensures IntactToken(w, t)
  {
  }

  lemma {:induction false} IntactAll(w: World)
    requires forall t: nat :: t in Done(w) && t < |w.e.issued| ==> IntactToken(w, t)
    ensures Intact(w)
  {
  }

  lemma {:induction false} EventData(w: World, v: World, b: Buffer, c: Cell)
    requires Good(w) && CompletesOne(w.e, v.e, b, c)
    ensures b.token < |w.e.issued| && (w.e.issued[b.token].kind.Event? ==> !c.typ.TypeData?)
  {
    hide CompletesOne, Inv, Line;
    OwnedAll(w.e);
    KindFits(w.e, v.e, b, c);
  }

  lemma {:induction false} KindFits(s: State, v: State, b: Buffer, c: Cell)
    requires CompletesOne(s, v, b, c)
    ensures b in Line(s) || (b in s.events && !c.typ.TypeData?)
  {
    hide Line;
  }

  lemma {:induction false} WrittenDone(w: World, v: World, b: Buffer, c: Cell)
    requires Good(w) && CompletesOne(w.e, v.e, b, c) && v == w.(e := v.e)
    ensures Written(v)
  {
    MovedOne(w, v, b, c);
    FrontApart(w, b);
    hide Inv, Intact, Placed, Line, Counted, Table, Holdings, Moved;
    forall i | 0 <= i < |w.handled| ensures w.handled[i] != b.token {
      assert w.e.returned[i] == w.handled[i];
    }
    PayloadsSame(w.handled, w.e.filled, b.token, c);
    hide Payloads;
  }

  lemma {:induction false} PlacedDone(w: World, v: World, b: Buffer, c: Cell)
    requires Good(w) && CompletesOne(w.e, v.e, b, c) && v == w.(e := v.e)
    ensures Placed(v)
  {
    MovedOne(w, v, b, c);
    FrontApart(w, b);
    assert v.e.issued == w.e.issued;
    hide Inv, Intact, Written, Counted, Table, Holdings, Line, CompletesOne, Done;
  }

  lemma {:induction false} CompleteGood(w: World, v: World, b: Buffer, c: Cell)
    requires Good(w) && CompletesOne(w.e, v.e, b, c) && v == w.(e := v.e) && Inv(v.e) && !v.e.status.DETACHED?
    ensures Good(v)
  {
    HoldingsDone(w, v, b, c);
    IntactDone(w, v, b, c);
    WrittenDone(w, v, b, c);
    PlacedDone(w, v, b, c);
    hide Inv, Holdings, Table, Counted, Intact, Written, Placed;
  }

  // ---------------------------------------------------------------------------------------------
  // Engine steps

  lemma {:induction false} SubmitLine(s: State)
    ensures Line(SubmitAll(s)) == Line(s)
    decreases |s.queued|
  {
    if |s.pending| < s.window && s.queued != [] {
      var t := SubmitOne(s);
      assert t.pending + t.queued == s.pending + s.queued;
      SubmitLine(t);
    }
  }

  lemma {:induction false} DataCompletes(s: State, f: Finished)
    requires s.pending != [] && s.usb != []
    ensures CompletesOne(s, DataDone(s, f), s.pending[0], Outcome(f)) && DataDone(s, f).status == s.status
  {
    var t := DataFront(s, f);
    SubmitFrame(t);
    SubmitLine(t);
    hide SubmitAll;
    assert Line(s)[1..] == Line(t);
  }

  lemma {:induction false} EventCompletes(s: State, c: Cell)
    requires s.events != [] && !c.typ.TypeData?
    ensures CompletesOne(s, CompleteEvent(s, c), s.events[0], c)
  {
  }

  lemma {:induction false} ControlGood(w: World, sink: int, f: Finished)
    requires Good(w)
    ensures Good(w.(e := ControlDone(w.e, sink, f)))
  {
    ControlKeeps(w.e, sink, f);
    hide Good, Inv;
    var e := ControlDone(w.e, sink, f);
    GoodEngine(w);
    if f.status.Success? && f.whole && f.message == EndSession(sink) && w.e.events != [] {
      var p := w.e.events[0].ptr;
      var c := Cell(TypeEndOfData, if p in w.e.cells then w.e.cells[p].bytes else []);
      EventCompletes(w.e, c);
      CompleteGood(w, w.(e := e), w.e.events[0], c);
    } else {
      Unmoved(w, e);
    }
  }

  lemma {:induction false} GoodEngine(w: World)
    requires Good(w)
    ensures Inv(w.e) && !w.e.status.DETACHED?
  {
  }

  lemma {:induction false} ThreadGood(w: World, step: Step)
    requires Good(w) && (step.DoEnter? || step.DoFinish? || step.DoLeave?) && Enabled(w.e, step)
    ensures Good(w.(e := Next(w.e, step)))
  {
    hide Good, Inv, ControlDone, DataDone;
    GoodEngine(w);
    StepKeeps(w.e, step);
    if step.DoFinish? {
      var f := step.f;
      LinesMatch(w.e);
      if f.token != -1 && f.token == w.e.control {
        ControlGood(w, step.sink, f);
      } else if f.token != -1 && f.token == w.e.usb[0] {
        DataCompletes(w.e, f);
        CompleteGood(w, w.(e := DataDone(w.e, f)), w.e.pending[0], Outcome(f));
      } else {
        Unmoved(w, w.e.(thread := Leaving));
      }
    } else {
      Unmoved(w, Next(w.e, step));
    }
  }

  /** Stopping completes the event buffers one by one. */
  lemma {:induction false} EventsGood(w: World)
    requires Good(w)
    ensures Good(w.(e := CompleteEvents(w.e)))
    decreases |w.e.events|
  {
    hide Good, Inv, CompleteEvent;
    if w.e.events != [] {
      var c := Cell(TypeNone, []);
      var v := w.(e := CompleteEvent(w.e, c));
      GoodEngine(w);
      EventKeeps(w.e, c);
      EventCompletes(w.e, c);
      EventStatus(w.e, c);
      CompleteGood(w, v, w.e.events[0], c);
      EventsGood(v);
    }
  }

  lemma {:induction false} EventStatus(s: State, c: Cell)
    requires s.events != []
    ensures CompleteEvent(s, c).status == s.status && |CompleteEvent(s, c).events| < |s.events|
  {
  }

  // ---------------------------------------------------------------------------------------------
  // The client's actions

  lemma {:induction false} SubmitEffect(s: State, typ: EventType, ptr: nat)
    requires !s.status.DETACHED? && (typ.TypeData? || typ.TypeEvent?)
    ensures var t := SubmitBuffer(s, typ, ptr);
            var b := [Buffer(|s.issued|, ptr)];
            && t.status == s.status && t.window == s.window && t.returned == s.returned
                    && t.completed == s.completed && t.filled == s.filled
            && t.issued == s.issued + [Ticket(if typ.TypeData? then Data else Event, ptr)]
            && t.cells == s.cells[ptr := Cell(TypeNone, [])]
            && Line(t) == (if typ.TypeData? then Line(s) + b else Line(s))
            && t.events == (if typ.TypeData? then s.events else s.events + b)
  {
    SubmitIs(s, typ, ptr);
    var k := if typ.TypeData? then Data else Event;
    var u := Issue(s, k, ptr);
    SubmitFrame(u);
    SubmitLine(u);
    hide SubmitAll, SubmitBuffer;
    assert s.pending + (s.queued + [Buffer(|s.issued|, ptr)]) == s.pending + s.queued + [Buffer(|s.issued|, ptr)];
  }

  /** A client with one more buffer handed in: what `SubmitAt` does, as far as tokens go. */
  predicate Adds(w: World, v: World, idx: nat) {
    var n, k := |w.e.issued|, KindOf(w, idx);
    var b := [Buffer(n, idx)];
    && idx < |w.toks| && v.toks == w.toks[idx := n] && v.dataBufs == w.dataBufs
    && v.e.issued == w.e.issued + [Ticket(k, idx)] && Done(v) == Done(w) && v.e.filled == w.e.filled
    && v.e.cells == w.e.cells[idx := Cell(TypeNone, [])]
    && Line(v.e) == (if k.Data? then Line(w.e) + b else Line(w.e))
    && v.e.events == (if k.Data? then w.e.events else w.e.events + b)
    && v.numPending == w.numPending + 1 && v.e.returned == w.e.returned && v.file == w.file && v.handled == w.handled
  }

  lemma {:induction false} SubmitAdds(w: World, idx: nat, phase: Phase)
    requires idx < |w.toks| && !w.e.status.DETACHED? && !w.phase.Holding? && !phase.Holding?
    ensures Adds(w, SubmitAt(w, idx, phase), idx)
  {
    SubmitEffect(w.e, TypeOf(w, idx), idx);
    hide SubmitBuffer, Line;
  }

  lemma {:induction false} AddsMine(w: World, v: World, idx: nat)
    requires Adds(w, v, idx)
    ensures Mine(v, |w.e.issued|)
    ensures forall t: nat :: Mine(w, t) && w.e.issued[t].ptr != idx ==> Mine(v, t)
  {
    hide Done, Line;
    forall t: nat | Mine(w, t) && w.e.issued[t].ptr != idx ensures Mine(v, t) {
    }
  }

  lemma {:induction false} AddsHoldings(w: World, v: World, idx: nat)
    requires Inv(w.e) && Holdings(w) && Free(w, idx) && Adds(w, v, idx)
    ensures Holdings(v)
  {
    hide Inv, Line, Done, Mine, Adds;
    OwnedAll(w.e);
    AddsMine(w, v, idx);
    AddsMembers(w, v, idx);
  }

  lemma {:induction false} AddsMembers(w: World, v: World, idx: nat)
    requires Adds(w, v, idx)
    ensures forall t :: t in Done(v) ==> t in Done(w)
    ensures forall x :: x in Line(v.e) ==> x in Line(w.e) || x == Buffer(|w.e.issued|, idx)
    ensures forall x :: x in v.e.events ==> x in w.e.events || x == Buffer(|w.e.issued|, idx)
  {
    hide Line, Done, KindOf;
  }

  lemma {:induction false} AddsIntact(w: World, v: World, idx: nat)
    requires Holdings(w) && Intact(w) && Free(w, idx) && Adds(w, v, idx)
    ensures Intact(v)
  {
    hide Inv, Line, Done;
  }

  lemma {:induction false} AddsTable(w: World, v: World, idx: nat)
    requires Table(w) && Counted(w) && Adds(w, v, idx)
    ensures Table(v) && Counted(v)
  {
    hide Line, Done;
  }

  lemma {:induction false} AddsWritten(w: World, v: World, idx: nat)
    requires Written(w) && Adds(w, v, idx) && (w.phase.Submitting? || w.phase.Resubmitting?) && !v.phase.Holding?
    ensures Written(v)
  {
    hide Line, Done, Payloads;
  }

  lemma {:induction false} SubmitGood(w: World, idx: nat, phase: Phase)
    requires Good(w) && idx < |w.toks| && Free(w, idx)
    requires (w.phase.Submitting? && idx == w.phase.next && phase == PastSubmit(w, idx)) || (w.phase.Resubmitting?
            && phase.Capturing?)
    ensures Good(SubmitAt(w, idx, phase))
  {
    var v := SubmitAt(w, idx, phase);
    SubmitAdds(w, idx, phase);
    SubmitPlaced(w, idx, phase);
    SubmitKeeps(w.e, TypeOf(w, idx), idx);
    SubmitEffect(w.e, TypeOf(w, idx), idx);
    assert v.e.status == w.e.status && v.e.window == w.e.window;
    hide Inv, SubmitBuffer, Holdings, Intact, Counted, Table, Written, Placed, Free, Adds, Line;
    AddsHoldings(w, v, idx);
    AddsIntact(w, v, idx);
    AddsTable(w, v, idx);
    AddsWritten(w, v, idx);
  }

  lemma {:induction false} SubmitPlaced(w: World, idx: nat, phase: Phase)
    requires Good(w) && idx < |w.toks|
    requires (w.phase.Submitting? && idx == w.phase.next && phase == PastSubmit(w, idx)) || (w.phase.Resubmitting?
            && phase.Capturing?)
    ensures Placed(SubmitAt(w, idx, phase))
  {
    hide Inv, SubmitBuffer, Holdings, Intact, Counted, Table, Written, Line, Done;
  }

  /** A buffer that was never handed in is free. */
  lemma {:induction false} UnusedIsFree(w: World)
    requires Good(w) && w.phase.Submitting?
    ensures w.phase.next < |w.toks| && Free(w, w.phase.next)
  {
    OwnedAll(w.e);
    hide Inv, Line, Payloads, Written, Intact, Counted, Table;
    forall t: nat | Mine(w, t) ensures w.e.issued[t].ptr != w.phase.next {
    }
  }

  /** Fewer completed tokens, and nothing else that matters changed. */
  predicate Fewer(w: World, v: World) {
    && (forall t :: t in Done(v) ==> t in Done(w))
    && v.toks == w.toks && v.dataBufs == w.dataBufs && v.e.issued == w.e.issued && v.e.cells == w.e.cells
            && v.e.filled == w.e.filled
    && Line(v.e) == Line(w.e) && v.e.events == w.e.events
  }

  lemma {:induction false} FewerKeeps(w: World, v: World)
    requires Good(w) && Fewer(w, v)
    ensures Table(v) && Holdings(v) && Intact(v) && forall i :: Free(w, i) ==> Free(v, i)
  {
    hide Inv, Line, Done, Counted, Written, Placed;
  }

  lemma {:induction false} AwaitGood(w: World)
    requires Good(w) && w.phase.Capturing? && w.e.completed != []
    ensures Good(w.(e := Take(w.e), phase := Holding(w.e.completed[0])))
  {
    hide Inv, Payloads, Done, Table, Holdings, Intact;
    TakeKeeps(w.e);
    var v := w.(e := Take(w.e), phase := Holding(w.e.completed[0]));
    SameTokens(w, v);
    assert Line(v.e) == Line(w.e) && v.e.returned == w.handled + [v.phase.token];
    FewerKeeps(w, v);
  }

  lemma {:induction false} SameTokens(w: World, v: World)
    requires w.phase.Capturing? && w.e.completed != [] && v == w.(e := Take(w.e), phase := Holding(w.e.completed[0]))
    ensures |Done(v)| == |Done(w)| && forall t :: t in Done(v) ==> t in Done(w)
  {
    assert Done(v) == w.e.completed[1..] + [w.e.completed[0]];
    assert Done(w) == w.e.completed + [] == [w.e.completed[0]] + w.e.completed[1..];
  }

  /** The token the client is given is found at the one index it was issued for. */
  lemma {:induction false} FoundAtItsIndex(w: World)
    requires Good(w) && w.phase.Holding?
    ensures var t := w.phase.token;
            && Mine(w, t) && FirstOf(w.toks, t) == w.e.issued[t].ptr
            && forall j :: 0 <= j < |w.toks| && w.toks[j] == t ==> j == w.e.issued[t].ptr
  {
    var t := w.phase.token;
    hide Inv, Payloads, Line;
    assert t in Done(w);
  }

  lemma {:induction false} HandleIs(w: World)
    requires Good(w) && w.phase.Holding?
    ensures w.phase.token < |w.e.issued|
    ensures var t, i := w.phase.token, w.e.issued[w.phase.token].ptr;
            && i in w.e.cells && t in w.e.filled && w.e.cells[i] == w.e.filled[t]
            && Process(w) == if w.e.filled[t].typ.TypeData? then
                 w.(numPending := w.numPending - 1, file := w.file + w.e.filled[t].bytes, handled := w.handled + [t],
                         phase := Resubmitting(i))
               else w.(numPending := w.numPending - 1, phase := Closing)
  {
    FoundAtItsIndex(w);
    assert w.phase.token in Done(w);
    hide Inv, Payloads, Line, Written, Holdings, FirstOf;
  }

  /** Once the client holds a token, its buffer is the client's alone. */
  lemma {:induction false} HeldIsFree(w: World)
    requires Good(w) && w.phase.Holding?
    ensures w.phase.token < |w.e.issued| && Free(w.(phase := Closing), w.e.issued[w.phase.token].ptr)
  {
    var t := w.phase.token;
    FoundAtItsIndex(w);
    OwnedAll(w.e);
    Apart(w.e, t);
    assert t in w.e.returned;
    var ptr := w.e.issued[t].ptr;
    forall u: nat | u in w.e.completed ensures u < |w.e.issued| && w.e.issued[u].ptr != ptr {
      assert u in Done(w);
      Distinct(w, u, t);
    }
    hide Inv, Payloads, Table, Intact, Counted, Written, Placed;
    forall b | b in Line(w.e) ensures b.ptr != ptr {
      ToksOf(Line(w.e), b);
      Distinct(w, b.token, t);
    }
    forall b | b in w.e.events ensures b.ptr != ptr {
      ToksOf(w.e.events, b);
      Distinct(w, b.token, t);
    }
  }

  lemma {:induction false} HandleGood(w: World)
    requires Good(w) && w.phase.Holding?
    ensures Good(Process(w))
  {
    HandleIs(w);
    HeldIsFree(w);
    HandledOnce(w);
    var v, t := Process(w), w.phase.token;
    assert Done(w) == Done(v) + [t] && Done(v) == w.e.completed == Done(w.(phase := Closing));
    FewerKeeps(w, v);
    HandleWritten(w, v);
    var ptr := w.e.issued[t].ptr;
    assert Free(v, ptr) by { SameFree(w.(phase := Closing), v, ptr); }
    assert ptr < |w.toks| by { FoundAtItsIndex(w); }
    hide Inv, Line, Done, Process, Table, Holdings, Intact, Written, Free, Fewer;
  }

  lemma {:induction false} SameFree(w: World, v: World, idx: nat)
    requires Free(w, idx) && Done(v) == Done(w) && v.e == w.e
    ensures Free(v, idx)
  {
  }

  lemma {:induction false} HandleWritten(w: World, v: World)
    requires Good(w) && w.phase.Holding? && v == Process(w)
    ensures Written(v)
  {
    HandleIs(w);
    HandledOnce(w);
    if w.e.filled[w.phase.token].typ.TypeData? {
      PayloadsSnoc(w.handled, w.e.filled, w.phase.token);
    }
    hide Inv, Payloads, Line, Process, Table, Holdings, Intact, Counted, Placed, Done;
  }

  lemma {:induction false} PayloadsSnoc(ts: seq<nat>, filled: map<nat, Cell>, t: nat)
    requires t in filled
    ensures Payloads(ts + [t], filled) == Payloads(ts, filled) + filled[t].bytes
  {
    assert (ts + [t])[..|ts|] == ts;
  }

  /** Only a data buffer's token makes it to the file. */
  lemma {:induction false} HandledOnce(w: World)
    requires Good(w) && w.phase.Holding?
    ensures var t := w.phase.token;
            t in w.e.filled && t < |w.e.issued| && (w.e.filled[t].typ.TypeData? ==> IsKind(t, w.e.issued, Data))
  {
    var t := w.phase.token;
    assert t in Done(w);
    assert Mine(w, t);
    hide Inv, Payloads, Line, Table, Counted, Placed, Done;
  }

  lemma {:induction false} StopGood(w: World)
    requires Good(w) && w.phase.Closing?
    ensures Good(Act(w, StopSink))
  {
    hide CompleteEvents, Payloads;
    if w.e.status.ACTIVE? {
      var e := w.e.(status := DETACHING);
      assert Inv(e) by { hide Lined, Owned; }
      Unmoved(w, e);
      EventsGood(w.(e := e));
    }
    PhaseGood(w.(e := Stop(w.e)), if w.e.status.ACTIVE? || w.e.status.DETACHING? then Discarding else Ended);
    hide Good, Inv;
  }

  /** Changing to a phase that claims nothing. */
  lemma {:induction false} PhaseGood(w: World, phase: Phase)
    requires Good(w) && !w.phase.Holding? && (phase.Closing? || phase.Discarding? || phase.Ended?)
    ensures Good(w.(phase := phase))
  {
    hide Inv, Payloads, Line;
    assert Done(w.(phase := phase)) == Done(w);
  }

  lemma {:induction false} DiscardGood(w: World)
    requires Good(w) && w.phase.Discarding? && w.e.completed != []
    ensures Good(w.(e := Take(w.e), numPending := w.numPending - 1))
  {
    TakeKeeps(w.e);
    var v := w.(e := Take(w.e), numPending := w.numPending - 1);
    assert Line(v.e) == Line(w.e);
    assert w.e.completed == [w.e.completed[0]] + w.e.completed[1..];
    assert Done(w) == w.e.completed && Done(v) == w.e.completed[1..];
    FewerKeeps(w, v);
    hide Inv, Payloads, Line, Done, Table, Holdings, Intact, Fewer;
  }

  lemma {:induction false} ActGood(w: World, a: Action)
    requires Good(w) && CanAct(w, a)
    ensures Good(Act(w, a))
  {
    hide Good, SubmitAt, Process, Next, Stop;
    match a
    case Thread(step) =>
      ThreadGood(w, step);
    case Submit =>
      UnusedIsFree(w);
      SubmitGood(w, w.phase.next, PastSubmit(w, w.phase.next));
    case Await =>
      AwaitGood(w);
    case Handle =>
      HandleGood(w);
    case Resubmit =>
      ResubmitFree(w);
      SubmitGood(w, w.phase.idx, Capturing);
    case GiveUp =>
      PhaseGood(w, Closing);
    case StopSink =>
      StopGood(w);
    case Discard =>
      if w.numPending <= 0 {
        PhaseGood(w, Ended);
      } else {
        DiscardGood(w);
      }
  }

  lemma {:induction false} ResubmitFree(w: World)
    requires Good(w) && w.phase.Resubmitting?
    ensures Free(w, w.phase.idx)
  {
  }

  lemma {:induction false} ActsGood(w: World, acts: seq<Action>)
    requires Good(w)
    ensures Good(Acts(w, acts))
    decreases |acts|
  {
    hide Good, Act, CanAct;
    if acts != [] {
      var v := Acts(w, acts[..|acts| - 1]);
      ActsGood(w, acts[..|acts| - 1]);
      if CanAct(v, acts[|acts| - 1]) {
        ActGood(v, acts[|acts| - 1]);
      }
    }
  }

  /** Every state the utility and the engine can get into together. */
  lemma {:induction false} RunGood(w: World, acts: seq<Action>)
    requires Begins(w)
    ensures Good(Acts(w, acts))
  {
    hide Good, Acts, Begins;
    Begun(w);
    ActsGood(w, acts);
  }

  // ---------------------------------------------------------------------------------------------
  // The trace file

  lemma {:induction false} OnlyAll(ts: seq<nat>, issued: seq<Ticket>, k: Kind)
    requires forall i :: 0 <= i < |ts| ==> IsKind(ts[i], issued, k)
    ensures Only(ts, issued, k) == ts
  {
    if ts != [] {
      var n := |ts| - 1;
      OnlyAll(ts[..n], issued, k);
      assert IsKind(ts[n], issued, k) && ts == ts[..n] + [ts[n]];
    }
  }

  /** The engine's step in an action, if it has one. */
  function StepsBy(w: World, a: Action): (es: seq<Step>)
    requires CanAct(w, a)
    ensures |es| <= 1 && forall i :: 0 <= i < |es| ==> Enabled(w.e, es[i])
  {
    match a
    case Thread(step) => [step]
    case Submit => [DoSubmit(TypeOf(w, w.phase.next), w.phase.next)]
    case Await => [DoTake]
    case Resubmit => [DoSubmit(TypeOf(w, w.phase.idx), w.phase.idx)]
    case StopSink => [DoStop]
    case Discard => if w.numPending <= 0 then [] else [DoTake]
    case _ => []
  }

  /** The engine's part of a run. */
  function EngineSteps(w: World, acts: seq<Action>): seq<Step>
    decreases |acts|
  {
    if acts == [] then []
    else
      var v, a := Acts(w, acts[..|acts| - 1]), acts[|acts| - 1];
      EngineSteps(w, acts[..|acts| - 1]) + if CanAct(v, a) then StepsBy(v, a) else []
  }

  lemma {:induction false} ActIs(w: World, a: Action)
    requires CanAct(w, a)
    ensures Act(w, a).e == if StepsBy(w, a) == [] then w.e else Next(w.e, StepsBy(w, a)[0])
  {
    hide SubmitBuffer, Stop, FirstOf, Finish;
  }

  lemma {:induction false} ActsAreRun(w: World, acts: seq<Action>)
    ensures Acts(w, acts).e == After(w.e, EngineSteps(w, acts))
    decreases |acts|
  {
    hide Act, CanAct, StepsBy, Next, Enabled;
    if acts != [] {
      var v, a, es := Acts(w, acts[..|acts| - 1]), acts[|acts| - 1], EngineSteps(w, acts[..|acts| - 1]);
      ActsAreRun(w, acts[..|acts| - 1]);
      if CanAct(v, a) && StepsBy(v, a) != [] {
        ActIs(v, a);
        assert StepsBy(v, a) == [StepsBy(v, a)[0]];
        assert (es + [StepsBy(v, a)[0]])[..|es|] == es;
      } else {
        if CanAct(v, a) {
          ActIs(v, a);
        }
        assert es + [] == es;
      }
    }
  }

  /** What transfers bring to a file. */
  function Stored(ds: seq<Finished>): seq<byte> {
    if ds == [] then []
    else
      var n := |ds| - 1;
      Stored(ds[..n]) + if ds[n].status.NoData? then [] else ds[n].data
  }

  /** In every reachable state the trace file is what the first data transfers that finished in turn brought,
      as many as buffers were handled: none of them was cancelled or failed, and their buffers are the first
      data buffers handed in, in this order.  None is lost, repeated or out of place, whatever the
      interleaving. */
  lemma {:induction false} FileInOrder(w: World, acts: seq<Action>)
    requires Begins(w)
    ensures var v, ds := Acts(w, acts), DataFinished(w.e, EngineSteps(w, acts));
            && v.handled <= OfKind(v.e.issued, Data) && |v.handled| <= |ds|
            && v.file == Stored(ds[..|v.handled|])
            && forall i :: 0 <= i < |v.handled| ==> !ds[i].status.Cancelled? && !ds[i].status.Failed?
  {
    RunGood(w, acts);
    var v, es := Acts(w, acts), EngineSteps(w, acts);
    HandledPrefix(v);
    ActsAreRun(w, acts);
    NoneHanded(w);
    BuffersHold(w.e, es);
    FileHolds(v, DataFinished(w.e, es));
    hide Inv, Acts, EngineSteps, DataFinished, EventsSent, DataHeld, Good;
  }

  lemma {:induction false} NoneHanded(w: World)
    requires Begins(w)
    ensures Inv(w.e) && DataHanded(w.e) == []
  {
    assert Handed(w.e) == [];
  }

  lemma {:induction false} FileHolds(w: World, ds: seq<Finished>)
    requires Good(w) && DataHeld(w.e, 0, ds) && w.handled <= DataHanded(w.e)
    ensures |w.handled| <= |ds| && w.file == Stored(ds[..|w.handled|])
    ensures forall i :: 0 <= i < |w.handled| ==> !ds[i].status.Cancelled? && !ds[i].status.Failed?
  {
    hide Inv, Table, Holdings, Intact, Counted, Placed, Payloads, Carries, DataHanded, Brings;
    var h, n := DataHanded(w.e), |w.handled|;
    forall i | 0 <= i < n ensures Brings(w.handled[i], w.e.filled, ds[i]) {
      assert w.handled[i] == h[i];
      BringsIf(w.handled[i], w.e.filled, ds[i]);
    }
    hide Written;
    StoredIs(w.handled, w.e.filled, ds[..n]);
    assert forall i :: 0 <= i < n ==> ds[..n][i] == ds[i];
  }

  /** A token's buffer completed with the data of a transfer. */
  predicate Brings(t: nat, filled: map<nat, Cell>, f: Finished) {
    && t in filled && !f.status.Cancelled? && !f.status.Failed?
    && filled[t].bytes == if f.status.NoData? then [] else f.data
  }

  lemma {:induction false} BringsIf(t: nat, filled: map<nat, Cell>, f: Finished)
    requires t in filled && Carries(filled[t], f) && filled[t].typ.TypeData?
    ensures Brings(t, filled, f)
  {
  }

  lemma {:induction false} StoredIs(ts: seq<nat>, filled: map<nat, Cell>, ds: seq<Finished>)
    requires |ts| == |ds| && forall i :: 0 <= i < |ts| ==> Brings(ts[i], filled, ds[i])
    ensures Payloads(ts, filled) == Stored(ds)
    ensures forall i :: 0 <= i < |ds| ==> !ds[i].status.Cancelled? && !ds[i].status.Failed?
  {
    if ts != [] {
      var n := |ts| - 1;
      assert Brings(ts[n], filled, ds[n]);
      hide Brings;
      StoredIs(ts[..n], filled, ds[..n]);
      StoredNext(ds);
      assert forall i :: 0 <= i < n ==> ds[..n][i] == ds[i];
    }
  }

  lemma {:induction false} StoredNext(ds: seq<Finished>)
    requires ds != []
    ensures var n := |ds| - 1;
            Stored(ds) == Stored(ds[..n]) + if ds[n].status.NoData? then [] else ds[n].data
  {
  }

  lemma {:induction false} HandledPrefix(w: World)
    requires Good(w)
    ensures w.handled <= OfKind(w.e.issued, Data) && w.handled <= DataHanded(w.e)
  {
    hide Inv, Table, Holdings, Intact, Counted, Placed, Payloads, Only, OfKind, Toks;
    var rest := w.e.returned[|w.handled|..] + w.e.completed;
    assert Handed(w.e) == w.handled + rest;
    DataLine(w.e);
    OnlyAppend(w.handled, rest, w.e.issued, Data);
    OnlyAll(w.handled, w.e.issued, Data);
  }

  // ---------------------------------------------------------------------------------------------
  // What goes round

  /** What the client does with a token: its buffer is the one recorded under it; data goes to the file and the
      buffer is to be handed in again; anything else ends the loop.  The buffer is counted off either way. */
  lemma {:induction false} HandleExact(w: World)
    requires Good(w) && w.phase.Holding?
    ensures w.phase.token < |w.e.issued|
    ensures var t, v := w.phase.token, Act(w, Handle);
            var i := w.e.issued[t].ptr;
            && i < |w.toks| && w.toks[i] == t && i in w.e.cells
            && v.e == w.e && v.toks == w.toks && v.numPending == w.numPending - 1
            && if w.e.cells[i].typ == TypeData then
                 v.phase == Resubmitting(i) && v.file == w.file + w.e.cells[i].bytes
               else v.phase == Closing && v.file == w.file
  {
    HandleIs(w);
    FoundAtItsIndex(w);
    hide Good;
  }

  /** And what it does then: the buffer is handed in as a data buffer under a new token, and counted again. */
  lemma {:induction false} Recycled(w: World)
    requires Good(w) && w.phase.Resubmitting? && w.phase.idx < w.dataBufs
    ensures w.phase.idx < |w.toks|
    ensures var i, t, v := w.phase.idx, |w.e.issued|, Act(w, Resubmit);
            && v.phase == Capturing && v.numPending == w.numPending + 1 && v.file == w.file
            && v.toks == w.toks[i := t] && v.e.issued == w.e.issued + [Ticket(Data, i)]
            && Line(v.e) == Line(w.e) + [Buffer(t, i)]
  {
    SubmitExact(w.e, TypeOf(w, w.phase.idx), w.phase.idx);
    hide SubmitBuffer, Inv, Table, Holdings, Intact, Counted, Written;
  }

  /** While the client hands its buffers in, the ones in front have tokens; behind that, all have. */
  predicate HandedIn(w: World) {
    forall j :: 0 <= j < |w.toks| && (w.phase.Submitting? ==> j < w.phase.next) ==> w.toks[j] >= 0
  }

  lemma {:induction false} ActHandsIn(w: World, a: Action)
    requires HandedIn(w) && CanAct(w, a)
    ensures HandedIn(Act(w, a)) && |Act(w, a).toks| == |w.toks|
  {
    hide SubmitBuffer, Stop, FirstOf, Next;
  }

  /** The capture does not begin before every buffer, data and event, was handed in, each in its turn. */
  lemma {:induction false} AllHandedIn(w: World, acts: seq<Action>)
    requires Begins(w)
    ensures var v := Acts(w, acts); HandedIn(v) && |v.toks| == |w.toks|
    decreases |acts|
  {
    if acts == [] {
      hide Inv;
    } else {
      hide HandedIn, Act, CanAct, Begins;
      var v := Acts(w, acts[..|acts| - 1]);
      AllHandedIn(w, acts[..|acts| - 1]);
      if CanAct(v, acts[|acts| - 1]) {
        ActHandsIn(v, acts[|acts| - 1]);
      }
    }
  }

  lemma {:induction false} DataLine(s: State)
    requires Inv(s)
    ensures Only(Handed(s), s.issued, Data) <= OfKind(s.issued, Data)
  {
    hide Only, OfKind, Toks, AllSpent, Owned, Wired, Windowed;
  }

  // ---------------------------------------------------------------------------------------------
  // Counting

  /** Distinct numbers below `n` are at most `n`. */
  lemma {:induction false} Pigeons(xs: seq<nat>, n: nat)
    requires forall i :: 0 <= i < |xs| ==> xs[i] < n
    requires forall i, j :: 0 <= i < j < |xs| ==> xs[i] != xs[j]
    ensures |xs| <= n
    decreases n
  {
    assert |xs| > 0 ==> xs[0] < n;
    if n == 0 {
    } else if i :| 0 <= i < |xs| && xs[i] == n - 1 {
      Pigeons(xs[..i] + xs[i + 1..], n - 1);
    } else {
      Pigeons(xs, n - 1);
    }
  }

  function Ptrs(bs: seq<Buffer>): (ps: seq<nat>)
    ensures |ps| == |bs| && forall i :: 0 <= i < |bs| ==> ps[i] == bs[i].ptr
  {
    seq(|bs|, i requires 0 <= i < |bs| => bs[i].ptr)
  }

  /** The engine never holds more data buffers than there are. */
  lemma {:induction false} LineBound(w: World)
    requires Good(w)
    ensures |Line(w.e)| <= w.dataBufs
  {
    OwnedAll(w.e);
    var line := Line(w.e);
    forall i | 0 <= i < |line| ensures line[i].ptr < w.dataBufs {
      assert line[i] in line;
    }
    forall i, j | 0 <= i < j < |line| ensures line[i].ptr != line[j].ptr {
      assert line[i] in line && line[j] in line;
      LineDistinct(w.e, i, j);
      Distinct(w, line[i].token, line[j].token);
    }
    hide Inv, Line;
    Pigeons(Ptrs(line), w.dataBufs);
  }

  lemma {:induction false} LineDistinct(s: State, i: nat, j: nat)
    requires Inv(s) && i < j < |Line(s)|
    ensures Line(s)[i].token != Line(s)[j].token
  {
    var t := Line(s)[i].token;
    EachOnce(s, t);
    if Toks(Line(s))[j] == t {
      TwoOf(Toks(Line(s)), i, j);
    }
    hide Inv;
  }

  /** While the sink is active nothing is ever queued: every data buffer the client does not hold is
      with the transport or completed. */
  lemma {:induction false} NothingQueued(w: World)
    requires Good(w) && w.e.status.ACTIVE?
    ensures w.e.queued == []
  {
    LineBound(w);
    assert |Line(w.e)| == |w.e.pending| + |w.e.queued|;
    hide InLine, Owned, Wired, Table, Holdings, Intact, Counted, Written, Placed;
  }

  /** The client's count is the number of buffers the engine holds, and the one it has been given the
      token of but not looked at. */
  lemma {:induction false} CountIsExact(w: World, acts: seq<Action>)
    requires Begins(w)
    ensures var v := Acts(w, acts);
            v.numPending == |v.e.completed| + |v.e.pending| + |v.e.queued| + |v.e.events|
                            + if v.phase.Holding? then 1 else 0
  {
    RunGood(w, acts);
    hide Inv, Act, Table, Holdings, Intact, Written, Placed;
  }

  // ---------------------------------------------------------------------------------------------
  // The end

  /** A transfer that finishes is the front one, or a control completion that is repeated. */
  predicate Civil(w: World, a: Action) {
    a.Thread? && a.step.DoFinish? && CanAct(w, a) ==> InTurn(w.e, a.step.f)
  }

  predicate CivilRun(w: World, acts: seq<Action>)
    decreases |acts|
  {
    acts == [] || (CivilRun(w, acts[..|acts| - 1]) && Civil(Acts(w, acts[..|acts| - 1]), acts[|acts| - 1]))
  }

  function Cost(w: World, a: Action): nat {
    if a.Thread? then Work(w.e, a.step) else 1
  }

  /** How many actions of a run were taken and were not control completions. */
  function Spent(w: World, acts: seq<Action>): nat
    decreases |acts|
  {
    if acts == [] then 0
    else
      var v, a := Acts(w, acts[..|acts| - 1]), acts[|acts| - 1];
      Spent(w, acts[..|acts| - 1]) + if CanAct(v, a) then Cost(v, a) else 0
  }

  /** The sink stopped, nothing queued, the thread alive: the discard loop runs, or has ended at zero. */
  predicate Winding(w: World) {
    Good(w) && Stopping(w.e) && w.e.queued == [] && (w.phase.Discarding? || (w.phase.Ended? && w.numPending == 0))
  }

  function Left(w: World): nat {
    Load(w.e) + if w.phase.Discarding? then 1 else 0
  }

  /** What an action of the thread or the loop leads to. */
  predicate Winds(w: World, a: Action, v: World) {
    && Winding(v) && Owed(v.e) == Owed(w.e) && Left(w) == Cost(w, a) + Left(v)
    && v.numPending == w.numPending - if a.Discard? && w.numPending > 0 then 1 else 0
  }

  lemma {:induction false} ThreadWinds(w: World, step: Step)
    requires Winding(w) && CanAct(w, Thread(step)) && Civil(w, Thread(step))
    ensures Winds(w, Thread(step), Act(w, Thread(step)))
  {
    hide Good, Inv, Next, Owed, Load, Work, Stopping;
    ActGood(w, Thread(step));
    GoodEngine(w);
    StillHere(w.e);
    StopStep(w.e, step);
    NearerIs(w.e, step, Next(w.e, step));
  }

  lemma {:induction false} StillHere(s: State)
    requires Stopping(s)
    ensures !Enabled(s, DoLeave)
  {
  }

  lemma {:induction false} DiscardWinds(w: World)
    requires Winding(w) && CanAct(w, Discard)
    ensures Winds(w, Discard, Act(w, Discard))
  {
    hide Good, Inv, Owed, Load, Stopping, Act, Winds;
    ActGood(w, Discard);
    WindingCount(w);
    if w.numPending > 0 {
      StepTake(w.e);
      DiscardTakes(w);
      OneDiscarded(w, Act(w, Discard));
    } else {
      LastDiscarded(w, Act(w, Discard));
    }
  }

  lemma {:induction false} DiscardTakes(w: World)
    requires CanAct(w, Discard) && w.numPending > 0
    ensures w.e.completed != [] && Act(w, Discard).e == Take(w.e)
  {
    hide Take;
  }

  lemma {:induction false} OneDiscarded(w: World, v: World)
    requires Winding(w) && w.phase.Discarding? && w.numPending > 0 && w.e.completed != [] && v == Act(w, Discard)
    requires Good(v) && Stopping(v.e) && Owed(v.e) == Owed(w.e) && v.e.queued == w.e.queued
    requires Load(w.e) == 1 + Load(v.e)
    ensures Winds(w, Discard, v)
  {
    hide Good, Inv, Owed, Load, Stopping, Take;
  }

  lemma {:induction false} LastDiscarded(w: World, v: World)
    requires Winding(w) && w.phase.Discarding? && w.numPending == 0 && v == Act(w, Discard) && Good(v)
    ensures Winds(w, Discard, v)
  {
    hide Good, Inv, Owed, Load, Stopping, Take;
  }

  lemma {:induction false} StepTake(s: State)
    requires Stopping(s) && s.completed != []
    ensures var t := Take(s); Stopping(t) && Owed(t) == Owed(s) && t.queued == s.queued && Load(s) == 1 + Load(t)
  {
    hide Stopping, Owed, Load;
    TakeNearer(s);
    NearerIs(s, DoTake, Take(s));
  }

  lemma {:induction false} ActWinds(w: World, a: Action)
    requires Winding(w) && CanAct(w, a) && Civil(w, a)
    ensures Winds(w, a, Act(w, a))
  {
    match a
    case Thread(step) =>
      hide Act, Winding, Civil, Winds;
      ThreadWinds(w, step);
    case Discard =>
      hide Act, Winding, Civil, Winds;
      DiscardWinds(w);
    case _ =>
      hide Good;
  }

  lemma {:induction false} WindsIs(w: World, a: Action, v: World)
    requires Winds(w, a, v)
    ensures Winding(v) && Owed(v.e) == Owed(w.e) && Left(w) == Cost(w, a) + Left(v)
  {
  }

  lemma {:induction false} WindingRun(w: World, acts: seq<Action>)
    requires Winding(w) && CivilRun(w, acts)
    ensures var v := Acts(w, acts);
            Winding(v) && Owed(v.e) == Owed(w.e) && Left(w) == Spent(w, acts) + Left(v)
    decreases |acts|
  {
    hide Winding, Winds, Act, CanAct, Owed, Left, Cost, Civil;
    if acts != [] {
      var v, a := Acts(w, acts[..|acts| - 1]), acts[|acts| - 1];
      WindingRun(w, acts[..|acts| - 1]);
      if CanAct(v, a) {
        ActWinds(v, a);
        WindsIs(v, a, Act(v, a));
      }
    }
  }

  /** Whenever the client leaves the loop with the sink active and the data thread alive, and whatever the
      interleaving of the discard loop, the thread, transfers finishing in turn and control requests
      being repeated: the count is the number of buffers outstanding; no token is lost or overtakes
      another; while the count is not zero something can always be done; and the loop has ended, with
      nothing outstanding, exactly when a number of steps fixed at the stop has been taken. */
  lemma {:induction false} DiscardEnds(w: World, acts: seq<Action>)
    requires Good(w) && w.phase.Closing? && w.e.status.ACTIVE? && (w.e.thread.Between? || w.e.thread.Waiting?)
    requires CivilRun(Act(w, StopSink), acts)
    ensures var stopped := Act(w, StopSink);
            var v := Acts(stopped, acts);
            var all := w.e.returned + w.e.completed + Toks(w.e.events) + Toks(w.e.pending);
            var n := 3 * |w.e.pending| + |w.e.completed| + |w.e.events| + if w.e.thread.Between? then 1 else 0;
            && Winding(stopped) && Winding(v) && stopped.phase.Discarding?
            && v.numPending == |v.e.completed| + |v.e.pending|
            && v.e.returned + v.e.completed + Toks(v.e.pending) == all
            && Spent(stopped, acts) <= n && (v.phase.Ended? <==> Spent(stopped, acts) == n)
            && (v.phase.Ended? ==> v.e.completed == [] && v.e.pending == [] && v.e.returned == all)
            && (v.phase.Discarding? ==> CanAct(v, Discard) || CanAct(v, Thread(DoEnter)) || v.e.thread.Waiting?)
  {
    hide Good, Act, Acts, Winding, CivilRun, Spent, Owed, Load;
    StopWinds(w);
    var stopped := Act(w, StopSink);
    WindingRun(stopped, acts);
    var v := Acts(stopped, acts);
    WindingCount(v);
    WindingEnd(v);
    EngineCounts(stopped.e);
    EngineCounts(v.e);
    assert w.e.returned + (w.e.completed + Toks(w.e.events)) == w.e.returned + w.e.completed + Toks(w.e.events);
  }

  lemma {:induction false} StopWinds(w: World)
    requires Good(w) && w.phase.Closing? && w.e.status.ACTIVE? && (w.e.thread.Between? || w.e.thread.Waiting?)
    ensures var stopped := Act(w, StopSink); Winding(stopped) && stopped.phase.Discarding?
    ensures var e := Act(w, StopSink).e;
            && e.pending == w.e.pending && e.completed == w.e.completed + Toks(w.e.events)
            && e.returned == w.e.returned && e.thread == w.e.thread
  {
    NothingQueued(w);
    StopCompletes(w.e);
    StopThread(w.e);
    EventsTaken(w.e.(status := DETACHING));
    ActGood(w, StopSink);
    StoppedEngine(w);
    hide Good, Inv, Act, Stop, Line, Done;
  }

  lemma {:induction false} WindingCount(w: World)
    requires Winding(w)
    ensures w.numPending == |w.e.completed| + |w.e.pending|
  {
    GoodCounts(w);
    hide Good;
  }

  lemma {:induction false} WindingEnd(w: World)
    requires Winding(w)
    ensures w.phase.Ended? <==> Left(w) == 1
    ensures Left(w) >= 1
    ensures w.phase.Ended? ==> w.e.completed == [] && w.e.pending == [] && w.e.returned == Owed(w.e)
    ensures w.phase.Discarding? ==> CanAct(w, Discard) || CanAct(w, Thread(DoEnter)) || w.e.thread.Waiting?
  {
    WindingCount(w);
    GoodEngine(w);
    hide Good, Inv, Owed, Load;
    NotStuck(w.e);
    LoadIs(w.e);
    if w.phase.Ended? {
      NothingCompleted(w.e);
    }
  }

  lemma {:induction false} LoadIs(s: State)
    requires Stopping(s) && (s.thread.Waiting? ==> s.pending != [])
    ensures Load(s) >= 1 && (Load(s) == 1 && s.thread.Between? <==> s.pending == [] && s.completed == [])
    ensures s.pending == [] && s.completed == [] ==> Load(s) == 1
  {
  }

  lemma {:induction false} NothingCompleted(s: State)
    requires s.completed == []
    ensures Handed(s) == s.returned
  {
  }

  /** The other way round: a transfer that finishes out of turn ends the thread, and the loop never ends. */
  lemma {:induction false} DiscardStuck(w: World, sink: int, f: Finished, acts: seq<Action>)
    requires Winding(w) && CanAct(w, Thread(DoFinish(sink, f))) && !InTurn(w.e, f)
    ensures var v := Acts(Act(w, Thread(DoFinish(sink, f))), acts);
            v.phase.Discarding? && v.e.pending == w.e.pending && v.numPending >= |w.e.pending| > 0
  {
    var a := Thread(DoFinish(sink, f));
    WindingCount(w);
    OutOfTurnEnds(w.e, sink, f);
    ActGood(w, a);
    var u := Act(w, a);
    assert u.phase.Discarding? && u.e.pending == w.e.pending && u.e.thread.Leaving?;
    hide Good, Act, Acts, CanAct;
    NeverEnds(u, acts);
  }

  lemma {:induction false} OutOfTurnEnds(s: State, sink: int, f: Finished)
    requires s.pending != [] && !InTurn(s, f)
    ensures var t := Finish(s, sink, f); t.thread.Leaving? && t.pending == s.pending
  {
    ControlMoves(s, sink, f);
    hide DataDone;
  }

  predicate Dead(w: World) {
    w.phase.Discarding? && w.e.pending != [] && (w.e.thread.Leaving? || w.e.thread.Gone?)
  }

  lemma {:induction false} DeadStays(w: World, a: Action)
    requires Good(w) && Dead(w) && CanAct(w, a)
    ensures Dead(Act(w, a)) && Act(w, a).e.pending == w.e.pending
  {
    hide Good, Inv, Next, SubmitBuffer, Stop, Process;
    DeadCounts(w);
    if a.Thread? {
      DeadThread(w.e, a.step);
    }
  }

  lemma {:induction false} DeadThread(s: State, e: Step)
    requires (s.thread.Leaving? || s.thread.Gone?) && Enabled(s, e) && (e.DoEnter? || e.DoFinish? || e.DoLeave?)
    ensures var t := Next(s, e); (t.thread.Leaving? || t.thread.Gone?) && t.pending == s.pending
  {
  }

  lemma {:induction false} NeverEnds(w: World, acts: seq<Action>)
    requires Good(w) && Dead(w)
    ensures var v := Acts(w, acts); Good(v) && Dead(v) && v.e.pending == w.e.pending && v.numPending >= |v.e.pending|
    decreases |acts|
  {
    hide Good, Act, CanAct, Dead;
    if acts != [] {
      var v, a := Acts(w, acts[..|acts| - 1]), acts[|acts| - 1];
      NeverEnds(w, acts[..|acts| - 1]);
      if CanAct(v, a) {
        DeadStays(v, a);
        ActGood(v, a);
      }
    }
    DeadCounts(Acts(w, acts));
  }

  lemma {:induction false} DeadCounts(w: World)
    requires Good(w) && Dead(w)
    ensures w.numPending >= |w.e.pending|
  {
    GoodCounts(w);
    hide Good;
  }

  /** An engine run of thread steps and waits, the waits being the loop's. */
  function ActsOf(es: seq<Step>): (acts: seq<Action>)
    ensures |acts| == |es|
    ensures forall i :: 0 <= i < |es| ==> acts[i] == if es[i].DoTake? then Discard else Thread(es[i])
  {
    seq(|es|, i requires 0 <= i < |es| => if es[i].DoTake? then Discard else Thread(es[i]))
  }

  /** One step of it. */
  lemma {:induction false} OneOf(w: World, e: Step)
    requires Winding(w) && InOrderStep(w.e, e)
    ensures var a := if e.DoTake? then Discard else Thread(e);
            && Civil(w, a)
            && (if CanAct(w, a) then Act(w, a) else w).e == (if Enabled(w.e, e) then Next(w.e, e) else w.e)
  {
    WindingCount(w);
    WindingEnd(w);
    hide Good, Inv, InTurn, Stopping, Owed, Load;
    match e
    case DoTake =>
    case DoEnter =>
    case DoFinish(_, _) =>
      hide Finish;
    case _ =>
  }

  /** An orderly run of the engine is a civil one of the loop. */
  lemma {:induction false} OrderIsCivil(w: World, es: seq<Step>)
    requires Winding(w) && InOrder(w.e, es)
    ensures CivilRun(w, ActsOf(es)) && Acts(w, ActsOf(es)).e == After(w.e, es)
    decreases |es|
  {
    hide Winding, Civil, InOrderStep, Act, CanAct, Next, Enabled;
    if es != [] {
      var pre, e := es[..|es| - 1], es[|es| - 1];
      OrderIsCivil(w, pre);
      WindingRun(w, ActsOf(pre));
      assert ActsOf(es)[..|es| - 1] == ActsOf(pre);
      OneOf(Acts(w, ActsOf(pre)), e);
    }
  }

  // ---------------------------------------------------------------------------------------------
  // The discard loop as the client runs it

  /** A wait of the client with nothing completed: the transfers that finish during it, and whether it ends
      by a notification or by the deadline. */
  datatype Turn = Turn(fs: seq<Finished>, notified: bool)

  /** A wait that ends without a token: a notification under EXITED is an error even if one was pushed. */
  predicate GivesUp(s: State, notified: bool) {
    if notified then s.status.EXITED? else s.completed == []
  }

  function DiscardLoop(w: World, sink: int, turns: seq<Turn>): World
    decreases |turns|, |w.e.completed|
  {
    if w.numPending <= 0 then w.(phase := Ended)
    else if w.e.completed != [] then DiscardLoop(w.(e := Take(w.e), numPending := w.numPending - 1), sink, turns)
    else if turns == [] then w
    else
      var v := w.(e := After(w.e, ThreadSteps(sink, turns[0].fs)));
      if GivesUp(v.e, turns[0].notified) then v else DiscardLoop(v, sink, turns[1..])
  }

  function Threads(es: seq<Step>): (acts: seq<Action>)
    ensures |acts| == |es| && forall i :: 0 <= i < |es| ==> acts[i] == Thread(es[i])
  {
    seq(|es|, i requires 0 <= i < |es| => Thread(es[i]))
  }

  /** The data thread's steps are the engine's run. */
  lemma {:induction false} ThreadsRun(w: World, es: seq<Step>)
    requires forall i :: 0 <= i < |es| ==> es[i].DoEnter? || es[i].DoFinish? || es[i].DoLeave?
    ensures Acts(w, Threads(es)) == w.(e := After(w.e, es))
    decreases |es|
  {
    hide Next, Enabled;
    if es != [] {
      ThreadsRun(w, es[..|es| - 1]);
      assert Threads(es)[..|es| - 1] == Threads(es[..|es| - 1]);
    }
  }

  lemma {:induction false} TurnGood(w: World, sink: int, fs: seq<Finished>)
    requires Good(w)
    ensures Good(w.(e := After(w.e, ThreadSteps(sink, fs))))
  {
    hide Good, Acts, After, ThreadSteps;
    ThreadsRun(w, ThreadSteps(sink, fs));
    ActsGood(w, Threads(ThreadSteps(sink, fs)));
  }

  lemma {:induction false} ActsAppend(w: World, a: seq<Action>, b: seq<Action>)
    ensures Acts(w, a + b) == Acts(Acts(w, a), b)
    decreases |b|
  {
    hide Act, CanAct;
    if b == [] {
      assert a + b == a;
    } else {
      assert (a + b)[..|a + b| - 1] == a + b[..|b| - 1];
      ActsAppend(w, a, b[..|b| - 1]);
    }
  }

  lemma {:induction false} OneAct(w: World, a: Action)
    requires CanAct(w, a)
    ensures Acts(w, [a]) == Act(w, a)
  {
    hide Act, CanAct;
    assert [a][..0] == [];
    assert Acts(w, [a][..0]) == w;
  }

  /** What client and thread do in it, one after the other. */
  function LoopActs(w: World, sink: int, turns: seq<Turn>): seq<Action>
    decreases |turns|, |w.e.completed|
  {
    if w.numPending <= 0 then [Discard]
    else if w.e.completed != [] then
      [Discard] + LoopActs(w.(e := Take(w.e), numPending := w.numPending - 1), sink, turns)
    else if turns == [] then []
    else
      var es := ThreadSteps(sink, turns[0].fs);
      var v := w.(e := After(w.e, es));
      Threads(es) + if GivesUp(v.e, turns[0].notified) then [] else LoopActs(v, sink, turns[1..])
  }

  /** The loop, however its waits go, is one of the interleavings of discards and thread steps. */
  lemma {:induction false} DiscardIsRun(w: World, sink: int, turns: seq<Turn>)
    requires w.phase.Discarding?
    ensures var acts := LoopActs(w, sink, turns);
            && DiscardLoop(w, sink, turns) == Acts(w, acts)
            && forall i :: 0 <= i < |acts| ==> acts[i].Discard? || acts[i].Thread?
    decreases |turns|, |w.e.completed|
  {
    hide Acts, After, ThreadSteps;
    if w.numPending <= 0 {
      OneAct(w, Discard);
    } else if w.e.completed != [] {
      OneAct(w, Discard);
      var v := Act(w, Discard);
      DiscardIsRun(v, sink, turns);
      ActsAppend(w, [Discard], LoopActs(v, sink, turns));
    } else if turns == [] {
      NoActs(w);
    } else {
      var es := ThreadSteps(sink, turns[0].fs);
      ThreadsRun(w, es);
      var v := w.(e := After(w.e, es));
      if GivesUp(v.e, turns[0].notified) {
        assert Threads(es) + [] == Threads(es);
      } else {
        DiscardIsRun(v, sink, turns[1..]);
        ActsAppend(w, Threads(es), LoopActs(v, sink, turns[1..]));
      }
    }
  }

  /** A wait of the loop ends it when it fails: notified once the sink has EXITED, even if a token was pushed, or
      at the deadline without one.  Otherwise the loop goes on, with the wait over. */
  lemma {:induction false} DiscardWaits(w: World, sink: int, turns: seq<Turn>)
    requires w.phase.Discarding? && w.numPending > 0 && w.e.completed == [] && turns != []
    ensures var v, n := w.(e := After(w.e, ThreadSteps(sink, turns[0].fs))), turns[0].notified;
            DiscardLoop(w, sink, turns) ==
              if (n && v.e.status == EXITED) || (!n && v.e.completed == []) then v else DiscardLoop(v, sink, turns[1..])
  {
    hide After, ThreadSteps;
  }

  /** Stopping a sink whose data thread has ended is refused: the utility is done, its count is what it was, and
      nothing is waited for.  Any other sink it has started is wound up by the discard loop. */
  lemma {:induction false} StopRefused(w: World)
    requires w.phase.Closing?
    ensures var v := Act(w, StopSink);
            && v.numPending == w.numPending && v.file == w.file
            && (w.e.status.EXITED? ==> v.phase == Ended && v.e == w.e)
            && (w.e.status.ACTIVE? ==> v.phase == Discarding && v.e.events == [])
            && (w.e.status.DETACHING? ==> v.phase == Discarding && v.e == w.e)
  {
    StopCompletes(w.e);
    hide Stop;
  }

  lemma {:induction false} NoActs(w: World)
    ensures Acts(w, []) == w
  {
  }

  lemma {:induction false} EventsTaken(s: State)
    ensures CompleteEvents(s).returned == s.returned
    decreases |s.events|
  {
    if s.events != [] {
      EventsTaken(CompleteEvent(s, Cell(TypeNone, [])));
    }
  }

  lemma {:induction false} StopThread(s: State)
    requires s.status.ACTIVE?
    ensures Stop(s).thread == s.thread
  {
    EventsThread(s.(status := DETACHING));
  }

  lemma {:induction false} StoppedEngine(w: World)
    requires Good(w) && w.phase.Closing? && w.e.status.ACTIVE?
    ensures var v := Act(w, StopSink); v.e == Stop(w.e) && v.phase.Discarding?
  {
    hide Stop;
  }

  lemma {:induction false} GoodCounts(w: World)
    requires Good(w) && !w.phase.Holding?
    ensures w.numPending == |w.e.completed| + |w.e.pending| + |w.e.queued| + |w.e.events|
  {
    hide Inv;
  }
}
