/** What the buffers of a run hold when they complete: data buffers the data of the transfers that finished
    in turn, event buffers the events that were announced.
 */
module TraceContents {
  import opened Bytes
  import opened TraceEngine

  /** What a data transfer leaves in its buffer. */
  predicate Carries(c: Cell, f: Finished) {
    match f.status
    case Success => c == Cell(TypeData, f.data)
    case InProgress => c == Cell(TypeData, f.data)
    case NoData => c == Cell(TypeData, [])
    case Cancelled => c == Cell(TypeEndOfData, [])
    case Failed => c == Cell(TypeError, [])
  }

  /** The data transfer a step finishes in turn, if it does. */
  function DataBy(s: State, e: Step): seq<Finished> {
    if e.DoFinish? && e.f.token != -1 && e.f.token != s.control && s.usb != [] && e.f.token == s.usb[0] then [e.f]
    else []
  }

  /** The data transfers that finish in turn in a run. */
  function DataFinished(s: State, es: seq<Step>): seq<Finished>
    decreases |es|
  {
    if es == [] then []
    else
      var t, e := After(s, es[..|es| - 1]), es[|es| - 1];
      DataFinished(s, es[..|es| - 1]) + if Enabled(t, e) then DataBy(t, e) else []
  }

  /** The end of the session, announced for the sink the thread serves. */
  predicate EndsSession(s: State, e: Step) {
    && e.DoFinish? && e.f.token == s.control && e.f.token != -1
    && e.f.status.Success? && e.f.whole && e.f.message == EndSession(e.sink)
  }

  function Nones(n: nat): (ts: seq<EventType>)
    ensures |ts| == n && forall i :: 0 <= i < n ==> ts[i] == TypeNone
  {
    seq(n, i => TypeNone)
  }

  /** The types a step completes event buffers with: one for a state event or an end of session, if a buffer
      is there to take it; all there are, empty, when a running sink is stopped. */
  function EventsBy(s: State, e: Step): seq<EventType> {
    if EndsSession(s, e) && s.events != [] then [TypeEndOfData]
    else if e.DoStateEvent? && s.events != [] then [e.typ]
    else if e.DoStop? && s.status.ACTIVE? then Nones(|s.events|)
    else []
  }

  /** The types of a run. */
  function EventsSent(s: State, es: seq<Step>): seq<EventType>
    decreases |es|
  {
    if es == [] then []
    else
      var t, e := After(s, es[..|es| - 1]), es[|es| - 1];
      EventsSent(s, es[..|es| - 1]) + if Enabled(t, e) then EventsBy(t, e) else []
  }

  function EventHanded(s: State): seq<nat> {
    Only(Handed(s), s.issued, Event)
  }

  /** The data tokens handed on from position `from` stand for the transfers `ds`, one each... */
  predicate DataHeld(s: State, from: nat, ds: seq<Finished>) {
    var h := DataHanded(s);
    && |h| == from + |ds|
    && forall i :: from <= i < |h| ==> h[i] in s.filled && Carries(s.filled[h[i]], ds[i - from])
  }

  /** ...and the event tokens for the types `ts`. */
  predicate EventsHeld(s: State, from: nat, ts: seq<EventType>) {
    var h := EventHanded(s);
    && |h| == from + |ts|
    && forall i :: from <= i < |h| ==> h[i] in s.filled && s.filled[h[i]].typ == ts[i - from]
  }

  predicate Held(s: State, d: nat, e: nat, ds: seq<Finished>, ts: seq<EventType>) {
    DataHeld(s, d, ds) && EventsHeld(s, e, ts)
  }

  // ---------------------------------------------------------------------------------------------
  // One completion

  /** A token that completes was not handed on before. */
  lemma {:induction false} NotYet(s: State, t: nat)
    requires Inv(s) && (t in Toks(s.events) || t in Toks(s.pending + s.queued))
    ensures t !in Handed(s)
  {
    EachOnce(s, t);
    hide Inv, Toks;
  }

  lemma {:induction false} OnlyIn(ts: seq<nat>, issued: seq<Ticket>, k: Kind)
    ensures forall i :: 0 <= i < |Only(ts, issued, k)| ==>
              Only(ts, issued, k)[i] in ts && IsKind(Only(ts, issued, k)[i], issued, k)
  {
    if ts != [] {
      OnlyIn(ts[..|ts| - 1], issued, k);
    }
  }

  /** Nothing handed on, and at most a ticket more. */
  lemma {:induction false} HeldSame(s: State, t: State, d: nat, e: nat, ds: seq<Finished>, ts: seq<EventType>)
    requires Inv(s) && Held(s, d, e, ds, ts) && Handed(t) == Handed(s) && t.filled == s.filled
    requires t.issued == s.issued || (|t.issued| == |s.issued| + 1 && t.issued[..|s.issued|] == s.issued)
    ensures Held(t, d, e, ds, ts)
  {
    if t.issued != s.issued {
      var x := t.issued[|s.issued|];
      assert t.issued == s.issued + [x];
      HandedSpent(s);
      OnlyGrow(Handed(s), s.issued, x, Data);
      OnlyGrow(Handed(s), s.issued, x, Event);
    }
    hide Inv, Only, Handed, Carries;
  }

  lemma {:induction false} HandedSpent(s: State)
    requires Inv(s)
    ensures forall i :: 0 <= i < |Handed(s)| ==> Handed(s)[i] < |s.issued|
  {
    hide Only, OfKind, Toks, Owned, Wired, Windowed;
  }

  /** One token handed on, its buffer with content `c`. */
  lemma {:induction false} HeldOne(s: State, t: State, tok: nat, c: Cell, d: nat, e: nat, ds: seq<Finished>,
          ts: seq<EventType>, f: Finished)
    requires Held(s, d, e, ds, ts) && tok !in Handed(s) && t.issued == s.issued
    requires Handed(t) == Handed(s) + [tok] && t.filled == s.filled[tok := c]
    ensures IsKind(tok, s.issued, Data) && Carries(c, f) ==> Held(t, d, e, ds + [f], ts)
    ensures IsKind(tok, s.issued, Event) ==> Held(t, d, e, ds, ts + [c.typ])
  {
    OnlySnoc(Handed(s), tok, s.issued, Data);
    OnlySnoc(Handed(s), tok, s.issued, Event);
    OnlyIn(Handed(s), s.issued, Data);
    OnlyIn(Handed(s), s.issued, Event);
    hide Only, Handed, Carries;
    var h, g := DataHanded(s), EventHanded(s);
    assert forall i :: 0 <= i < |h| ==> h[i] != tok;
    assert forall i :: 0 <= i < |g| ==> g[i] != tok;
  }

  lemma {:induction false} EventFront(s: State)
    requires Inv(s) && s.events != []
    ensures var t := s.events[0].token; t !in Handed(s) && IsKind(t, s.issued, Event)
  {
    OwnedFirst(s.events, s.issued, Event);
    assert Toks(s.events)[0] == s.events[0].token;
    NotYet(s, s.events[0].token);
    hide Inv, Toks, Owned;
  }

  lemma {:induction false} DataFrontNew(s: State)
    requires Inv(s) && s.pending != []
    ensures var t := s.pending[0].token; t !in Handed(s) && IsKind(t, s.issued, Data)
  {
    var line := s.pending + s.queued;
    OwnedFirst(line, s.issued, Data);
    assert Toks(line)[0] == s.pending[0].token;
    NotYet(s, s.pending[0].token);
    hide Inv, Toks, Owned;
  }

  lemma {:induction false} HeldEvent(s: State, c: Cell, d: nat, e: nat, ds: seq<Finished>, ts: seq<EventType>)
    requires Inv(s) && s.events != [] && Held(s, d, e, ds, ts)
    ensures Held(CompleteEvent(s, c), d, e, ds, ts + [c.typ])
  {
    EventFront(s);
    hide Inv, Held;
    var t := s.events[0].token;
    assert s.returned + (s.completed + [t]) == Handed(s) + [t];
    HeldOne(s, CompleteEvent(s, c), t, c, d, e, ds, ts, Finished(-1, Failed, [], false, OtherMessage));
  }

  // ---------------------------------------------------------------------------------------------
  // One step

  lemma {:induction false} HeldEvents(s: State, d: nat, e: nat, ds: seq<Finished>, ts: seq<EventType>)
    requires Inv(s) && Held(s, d, e, ds, ts)
    ensures Held(CompleteEvents(s), d, e, ds, ts + Nones(|s.events|))
    decreases |s.events|
  {
    hide Inv, Held, CompleteEvent;
    if s.events == [] {
      assert ts + Nones(0) == ts;
    } else {
      var c := Cell(TypeNone, []);
      var t := CompleteEvent(s, c);
      EventKeeps(s, c);
      HeldEvent(s, c, d, e, ds, ts);
      OneEventLess(s, c);
      HeldEvents(t, d, e, ds, ts + [TypeNone]);
      assert ts + [TypeNone] + Nones(|s.events| - 1) == ts + Nones(|s.events|);
    }
  }

  lemma {:induction false} OneEventLess(s: State, c: Cell)
    requires s.events != []
    ensures |CompleteEvent(s, c).events| == |s.events| - 1
  {
  }

  lemma {:induction false} HeldState(s: State, typ: EventType, d: nat, e: nat, ds: seq<Finished>, ts: seq<EventType>)
    requires Inv(s) && Held(s, d, e, ds, ts)
    ensures Held(StateEvent(s, typ), d, e, ds, ts + if s.events != [] then [typ] else [])
  {
    hide Inv, Held, CompleteEvent;
    if s.events != [] {
      var p := s.events[0].ptr;
      HeldEvent(s, Cell(typ, if p in s.cells then s.cells[p].bytes else []), d, e, ds, ts);
    } else {
      assert ts + [] == ts;
    }
  }

  lemma {:induction false} SameSubmit(s: State, typ: EventType, ptr: nat)
    ensures var t := SubmitBuffer(s, typ, ptr);
            && Handed(t) == Handed(s) && t.filled == s.filled
            && (t.issued == s.issued || (|t.issued| == |s.issued| + 1 && t.issued[..|s.issued|] == s.issued))
  {
    SubmitIs(s, typ, ptr);
    SubmitFrame(Issue(s, match typ case TypeData => Data case TypeEvent => Event case _ => Void, ptr));
    hide SubmitBuffer, SubmitAll;
  }

  lemma {:induction false} SameStart(s: State)
    ensures var t := Start(s); Handed(t) == Handed(s) && t.filled == s.filled && t.issued == s.issued
  {
    SubmitFrame(s.(status := ACTIVE));
    hide SubmitAll;
  }

  lemma {:induction false} SameTake(s: State)
    requires s.completed != []
    ensures var t := Take(s); Handed(t) == Handed(s) && t.filled == s.filled && t.issued == s.issued
  {
    assert s.returned + [s.completed[0]] + s.completed[1..] == Handed(s);
  }

  lemma {:induction false} DataDoneHands(s: State, f: Finished)
    requires s.pending != [] && s.usb != []
    ensures var t, tok := DataDone(s, f), s.pending[0].token;
            && Handed(t) == Handed(s) + [tok] && t.issued == s.issued && tok in t.filled
            && t.filled == s.filled[tok := t.filled[tok]] && Carries(t.filled[tok], f)
  {
    CoreFront(s, f);
    hide SubmitAll;
    assert s.returned + (s.completed + [s.pending[0].token]) == Handed(s) + [s.pending[0].token];
  }

  lemma {:induction false} HeldControl(s: State, sink: int, f: Finished, d: nat, e: nat, ds: seq<Finished>,
          ts: seq<EventType>)
    requires Inv(s) && s.pending != [] && f.token == s.control && f.token != -1 && Held(s, d, e, ds, ts)
    ensures Held(Finish(s, sink, f), d, e, ds, ts + EventsBy(s, DoFinish(sink, f)))
  {
    hide Inv, Held;
    var v := Finish(s, sink, f);
    ControlExact(s, sink, f);
    hide Finish;
    if EndsSession(s, DoFinish(sink, f)) && s.events != [] {
      HeldState(s, TypeEndOfData, d, e, ds, ts);
      StateEventIs(s, TypeEndOfData);
      StateEventKeeps(s, TypeEndOfData);
      HeldSame(StateEvent(s, TypeEndOfData), v, d, e, ds, ts + [TypeEndOfData]);
    } else {
      HeldSame(s, v, d, e, ds, ts);
      assert ts + [] == ts;
    }
  }

  lemma {:induction false} StateEventIs(s: State, typ: EventType)
    requires s.events != []
    ensures var b, t := s.events[0], StateEvent(s, typ);
            && t.completed == s.completed + [b.token] && t.returned == s.returned && t.issued == s.issued
            && t.filled == s.filled[b.token := Cell(typ, if b.ptr in s.cells then s.cells[b.ptr].bytes else [])]
  {
  }

  lemma {:induction false} HeldFinish(s: State, sink: int, f: Finished, d: nat, e: nat, ds: seq<Finished>,
          ts: seq<EventType>)
    requires Inv(s) && s.pending != [] && Held(s, d, e, ds, ts)
    ensures Held(Finish(s, sink, f), d, e, ds + DataBy(s, DoFinish(sink, f)), ts + EventsBy(s, DoFinish(sink, f)))
  {
    hide Inv, Held, ControlDone, DataDone;
    LinesMatch(s);
    assert ds + [] == ds && ts + [] == ts;
    if f.token != -1 && f.token == s.control {
      HeldControl(s, sink, f, d, e, ds, ts);
    } else if f.token != -1 && f.token == s.usb[0] {
      DataFrontNew(s);
      DataDoneHands(s, f);
      var t, tok := DataDone(s, f), s.pending[0].token;
      HeldOne(s, t, tok, t.filled[tok], d, e, ds, ts, f);
    } else {
      HeldSame(s, s.(thread := Leaving), d, e, ds, ts);
    }
  }

  lemma {:induction false} HeldStep(s: State, step: Step, d: nat, e: nat, ds: seq<Finished>, ts: seq<EventType>)
    requires Inv(s) && Enabled(s, step) && Held(s, d, e, ds, ts)
    ensures Held(Next(s, step), d, e, ds + DataBy(s, step), ts + EventsBy(s, step))
  {
    hide Inv, Held, SubmitBuffer, Start, StateEvent, Finish, CompleteEvents, Take;
    assert ds + [] == ds && ts + [] == ts;
    match step
    case DoSubmit(typ, ptr) =>
      SameSubmit(s, typ, ptr);
      HeldSame(s, SubmitBuffer(s, typ, ptr), d, e, ds, ts);
    case DoStart =>
      SameStart(s);
      HeldSame(s, Start(s), d, e, ds, ts);
    case DoStop =>
      HeldStop(s, d, e, ds, ts);
    case DoStateEvent(typ) =>
      HeldState(s, typ, d, e, ds, ts);
    case DoTake =>
      SameTake(s);
      HeldSame(s, Take(s), d, e, ds, ts);
    case DoFinish(sink, f) =>
      HeldFinish(s, sink, f, d, e, ds, ts);
    case _ =>
      HeldSame(s, Next(s, step), d, e, ds, ts);
  }

  lemma {:induction false} HeldStop(s: State, d: nat, e: nat, ds: seq<Finished>, ts: seq<EventType>)
    requires Inv(s) && Held(s, d, e, ds, ts)
    ensures Held(Stop(s), d, e, ds, ts + EventsBy(s, DoStop))
  {
    hide Held, CompleteEvents;
    if s.status.ACTIVE? {
      var u := s.(status := DETACHING);
      assert Inv(u) by { hide Lined, Owned; }
      hide Inv;
      HeldSame(s, u, d, e, ds, ts);
      HeldEvents(u, d, e, ds, ts);
    } else {
      assert ts + [] == ts;
    }
  }

  // ---------------------------------------------------------------------------------------------
  // Runs

  /** In every run: the data tokens handed on since its start are as many as the data transfers that finished
      in turn, in this order, and each one's buffer completed with what its own transfer brought; the event
      tokens are as many as the events sent, in this order, each of its event's type.  Both are the next of
      their kind to have been handed out. */
  lemma {:induction false} BuffersHold(s: State, es: seq<Step>)
    requires Inv(s)
    ensures var t, d, e := After(s, es), |DataHanded(s)|, |EventHanded(s)|;
            && DataHeld(t, d, DataFinished(s, es)) && DataHanded(t) <= OfKind(t.issued, Data)
            && EventsHeld(t, e, EventsSent(s, es)) && EventHanded(t) <= OfKind(t.issued, Event)
  {
    RunHeld(s, es);
    AfterKeeps(s, es);
    FirstOnes(After(s, es));
    hide Inv, After, DataFinished, EventsSent;
  }

  lemma {:induction false} FirstOnes(s: State)
    requires Inv(s)
    ensures DataHanded(s) <= OfKind(s.issued, Data) && EventHanded(s) <= OfKind(s.issued, Event)
  {
    hide Only, OfKind, Toks, AllSpent, Owned, Wired, Windowed;
  }

  lemma {:induction false} RunHeld(s: State, es: seq<Step>)
    requires Inv(s)
    ensures Held(After(s, es), |DataHanded(s)|, |EventHanded(s)|, DataFinished(s, es), EventsSent(s, es))
    decreases |es|
  {
    hide Inv, Next, Enabled, DataBy, EventsBy, Carries;
    if es != [] {
      var t, d, e := After(s, es[..|es| - 1]), |DataHanded(s)|, |EventHanded(s)|;
      var ds, ts := DataFinished(s, es[..|es| - 1]), EventsSent(s, es[..|es| - 1]);
      RunHeld(s, es[..|es| - 1]);
      hide Held;
      if Enabled(t, es[|es| - 1]) {
        AfterKeeps(s, es[..|es| - 1]);
        HeldStep(t, es[|es| - 1], d, e, ds, ts);
      } else {
        assert ds + [] == ds && ts + [] == ts;
      }
    }
  }

  /** Between stops and state events, as many event buffers complete as ends of session were announced for
      this sink while one was there: the next ones in order, and as such. */
  lemma {:induction false} EndsCount(s: State, es: seq<Step>)
    requires forall i :: 0 <= i < |es| ==> !es[i].DoStop? && !es[i].DoStateEvent?
    ensures |EventsSent(s, es)| == Ends(s, es)
    ensures forall i :: 0 <= i < |EventsSent(s, es)| ==> EventsSent(s, es)[i] == TypeEndOfData
    decreases |es|
  {
    hide EndsSession, Next;
    if es != [] {
      EndsCount(s, es[..|es| - 1]);
    }
  }

  /** How many ends of session were announced for the sink with an event buffer waiting. */
  function Ends(s: State, es: seq<Step>): nat
    decreases |es|
  {
    if es == [] then 0
    else
      var t, e := After(s, es[..|es| - 1]), es[|es| - 1];
      Ends(s, es[..|es| - 1]) + if Enabled(t, e) && EndsSession(t, e) && t.events != [] then 1 else 0
  }

  /** So in such a run the event tokens handed on are the first as many as before and ends of session. */
  lemma {:induction false} EndsInOrder(s: State, es: seq<Step>)
    requires Inv(s) && forall i :: 0 <= i < |es| ==> !es[i].DoStop? && !es[i].DoStateEvent?
    ensures var t, e := After(s, es), |EventHanded(s)|;
            var n := e + Ends(s, es);
            && n <= |OfKind(t.issued, Event)| && EventHanded(t) == OfKind(t.issued, Event)[..n]
            && forall i :: e <= i < n ==>
                 EventHanded(t)[i] in t.filled && t.filled[EventHanded(t)[i]].typ == TypeEndOfData
  {
    BuffersHold(s, es);
    EndsCount(s, es);
    hide Inv, After, DataFinished, EventsSent, EventHanded, DataHeld, Ends;
  }
}
