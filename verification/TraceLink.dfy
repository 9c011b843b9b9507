/** The trace engine on top of the USB device: data requests on a bulk endpoint, control requests on one of
    their own, and a libusb that completes the transfers of each endpoint in order.
 */
module TraceLink {
  import opened Bytes
  import opened TraceEngine
  import Loop = CaptureLoop
  import Usb = UsbDevice

  /** The engine, and what has happened to the device it uses. */
  datatype Rig = Rig(e: State, log: seq<Usb.Event>, bulk: nat, ctrl: nat)

  /** `map_libusb_status`. */
  function StatusOf(s: Usb.Status): TraceEngine.Transfer {
    match s
    case Completed => Success
    case Cancelled => TraceEngine.Cancelled
    case TimedOut => NoData
    case Stall => TraceEngine.Cancelled
    case Failed => TraceEngine.Failed
  }

  /** The submissions that hand out the transport tokens from `from` to `to`. */
  function Submissions(r: Rig, control: int, from: nat, last: nat): seq<Usb.Event>
    decreases last - from
  {
    if from >= last then []
    else
      Submissions(r, control, from, last - 1)
      + [Usb.SubmitEvent(if last - 1 == control then r.ctrl else r.bulk, true, true)]
  }

  /** The engine's new state, and the submissions it took to get there. */
  function Moved(r: Rig, log: seq<Usb.Event>, e: State): Rig {
    r.(e := e, log := log + Submissions(r, e.control, r.e.nextUsb, e.nextUsb))
  }

  datatype Move =
    | Engine(step: Step)
    | Arrives(ep: nat, status: Usb.Status)
    | Finishes(sink: int, data: seq<byte>, whole: bool, message: Message)

  /** A transfer as `completeTransfer` hands it out. */
  function HandedOut(d: Usb.Done, data: seq<byte>, whole: bool, message: Message): Finished {
    Finished(d.t.token, StatusOf(d.status), data, whole, message)
  }

  /** The engine's steps but the end of a wait; libusb completing the first transfer in flight of an
      endpoint; and the waiting thread being handed the oldest completed one. */
  predicate CanMove(r: Rig, m: Move) {
    var u := Usb.After(r.log);
    match m
    case Engine(step) => !step.DoFinish? && Enabled(r.e, step)
    case Arrives(ep, _) => ep < |u.eps| == Usb.ENDPOINTS && u.eps[ep] != [] && u.eps[ep][0].ep < Usb.ENDPOINTS
    case Finishes(_, _, _, _) => r.e.thread.Waiting? && r.e.pending != [] && u.completed != []
  }

  /** The engine's step of a move, if it is one. */
  function StepOf(r: Rig, m: Move): (es: seq<Step>)
    requires CanMove(r, m)
    ensures |es| <= 1 && forall i :: 0 <= i < |es| ==> Enabled(r.e, es[i])
  {
    match m
    case Engine(step) => [step]
    case Arrives(_, _) => []
    case Finishes(sink, data, whole, message) =>
      [DoFinish(sink, HandedOut(Usb.After(r.log).completed[0], data, whole, message))]
  }

  function Apply(r: Rig, m: Move): Rig
    requires CanMove(r, m)
  {
    match m
    case Engine(step) => Moved(r, r.log, Next(r.e, step))
    case Arrives(ep, status) => r.(log := r.log + [Usb.CompleteEvent(Usb.After(r.log).eps[ep][0], status, 0)])
    case Finishes(_, _, _, _) => Moved(r, r.log + [Usb.ReturnEvent(0)], Next(r.e, StepOf(r, m)[0]))
  }

  function Run(r: Rig, ms: seq<Move>): Rig
    decreases |ms|
  {
    if ms == [] then r
    else
      var q := Run(r, ms[..|ms| - 1]);
      if CanMove(q, ms[|ms| - 1]) then Apply(q, ms[|ms| - 1]) else q
  }

  // ---------------------------------------------------------------------------------------------
  // Lines of transfers

  /** The tokens of completed transfers of an endpoint, in the order of their completion. */
  function DoneOn(ds: seq<Usb.Done>, ep: nat): seq<nat> {
    if ds == [] then []
    else DoneOn(ds[..|ds| - 1], ep) + if ds[|ds| - 1].t.ep == ep then [ds[|ds| - 1].t.token] else []
  }

  function Toks(ts: seq<Usb.Transfer>): (ns: seq<nat>)
    ensures |ns| == |ts| && forall i :: 0 <= i < |ts| ==> ns[i] == ts[i].token
  {
    seq(|ts|, i requires 0 <= i < |ts| => ts[i].token)
  }

  /** What an endpoint has outstanding: completed and not handed out, then in flight. */
  function Line(u: Usb.Usb, ep: nat): seq<nat>
    requires ep < |u.eps|
  {
    DoneOn(u.completed, ep) + Toks(u.eps[ep])
  }

  predicate Ups(ts: seq<nat>) {
    forall i, j :: 0 <= i < j < |ts| ==> ts[i] < ts[j]
  }

  /** Only the two endpoints are used, and each transfer is under its own. */
  predicate Housed(u: Usb.Usb, bulk: nat, ctrl: nat) {
    && |u.eps| == Usb.ENDPOINTS && bulk < Usb.ENDPOINTS && ctrl < Usb.ENDPOINTS && bulk != ctrl
    && u.queued == []
    && (forall i :: 0 <= i < |u.completed| ==> u.completed[i].t.ep == bulk || u.completed[i].t.ep == ctrl)
    && (forall ep :: 0 <= ep < Usb.ENDPOINTS && ep != bulk && ep != ctrl ==> u.eps[ep] == [])
    && (forall i :: 0 <= i < |u.eps[bulk]| ==> u.eps[bulk][i].ep == bulk)
    && (forall i :: 0 <= i < |u.eps[ctrl]| ==> u.eps[ctrl][i].ep == ctrl)
  }

  /** And their lines are `b` and `c`. */
  predicate Lines(u: Usb.Usb, bulk: nat, ctrl: nat, b: seq<nat>, c: seq<nat>) {
    Housed(u, bulk, ctrl) && Line(u, bulk) == b && Line(u, ctrl) == c
  }

  lemma {:induction false} ToksSnoc(ts: seq<Usb.Transfer>, t: Usb.Transfer)
    ensures Toks(ts + [t]) == Toks(ts) + [t.token]
  {
  }

  lemma {:induction false} Assoc(a: seq<nat>, b: seq<nat>, c: seq<nat>)
    ensures a + (b + c) == a + b + c
  {
  }

  /** A submission puts its token at the end of its endpoint's line. */
  lemma {:induction false} SubmitLines(u: Usb.Usb, bulk: nat, ctrl: nat, b: seq<nat>, c: seq<nat>, ep: nat)
    requires Lines(u, bulk, ctrl, b, c) && (ep == bulk || ep == ctrl) && |u.eps[ep]| < Usb.MAX_IN_FLIGHT
    ensures var v := Usb.Submit(u, ep, true, true);
            && v.next == u.next + 1
            && Lines(v, bulk, ctrl, if ep == bulk then b + [u.next] else b, if ep == ctrl then c + [u.next] else c)
  {
    var t := Usb.Transfer(u.next, ep);
    ToksSnoc(u.eps[ep], t);
    hide DoneOn, Toks;
    Assoc(DoneOn(u.completed, ep), Toks(u.eps[ep]), [u.next]);
  }

  lemma {:induction false} FindFirst(d: seq<Usb.Transfer>)
    requires d != [] && forall i :: 0 < i < |d| ==> d[i] != d[0]
    ensures Usb.Find(d, d[0]) == 0
  {
    var k := |d| - 1;
    if k > 0 {
      assert d[..k][0] == d[0];
      FindFirst(d[..k]);
    }
  }

  lemma {:induction false} FirstOnce(done: seq<nat>, d: seq<Usb.Transfer>)
    requires d != [] && Ups(done + Toks(d))
    ensures forall i :: 0 < i < |d| ==> d[i] != d[0]
  {
    var ts := done + Toks(d);
    forall i | 0 < i < |d| ensures d[i] != d[0] {
      assert ts[|done|] == d[0].token && ts[|done| + i] == d[i].token;
    }
  }

  lemma {:induction false} DoneSnoc(ds: seq<Usb.Done>, d: Usb.Done, ep: nat)
    ensures DoneOn(ds + [d], ep) == DoneOn(ds, ep) + if d.t.ep == ep then [d.t.token] else []
  {
    assert (ds + [d])[..|ds|] == ds;
  }

  lemma {:induction false} LineKept(u: Usb.Usb, v: Usb.Usb, ep: nat, status: Usb.Status, x: nat)
    requires ep < |u.eps| && x < |u.eps| && u.eps[ep] != [] && u.eps[ep][0].ep == ep
    requires v.eps == u.eps[ep := u.eps[ep][1..]] && v.completed == u.completed + [Usb.Done(u.eps[ep][0], status)]
    ensures Line(v, x) == Line(u, x)
  {
    var d := u.eps[ep];
    DoneSnoc(u.completed, Usb.Done(d[0], status), x);
    assert Toks(d) == [d[0].token] + Toks(d[1..]);
    hide DoneOn, Toks;
    if x == ep {
      Assoc(DoneOn(u.completed, ep), [d[0].token], Toks(d[1..]));
    } else {
      assert DoneOn(u.completed, x) + [] == DoneOn(u.completed, x);
    }
  }

  lemma {:induction false} ArriveHoused(u: Usb.Usb, v: Usb.Usb, bulk: nat, ctrl: nat, ep: nat, status: Usb.Status)
    requires Housed(u, bulk, ctrl) && (ep == bulk || ep == ctrl) && u.eps[ep] != []
    requires v.eps == u.eps[ep := u.eps[ep][1..]] && v.completed == u.completed + [Usb.Done(u.eps[ep][0], status)]
    requires v.queued == []
    ensures Housed(v, bulk, ctrl)
  {
  }

  lemma {:induction false} InHouse(u: Usb.Usb, bulk: nat, ctrl: nat, ep: nat)
    requires Housed(u, bulk, ctrl) && ep < Usb.ENDPOINTS && u.eps[ep] != []
    ensures u.eps[ep][0].ep == ep && (ep == bulk || ep == ctrl)
  {
  }

  /** Completing the first transfer in flight of an endpoint leaves the lines as they are. */
  lemma {:induction false} ArriveLines(u: Usb.Usb, bulk: nat, ctrl: nat, b: seq<nat>, c: seq<nat>, ep: nat,
          status: Usb.Status)
    requires Lines(u, bulk, ctrl, b, c) && Ups(b) && Ups(c) && ep < Usb.ENDPOINTS && u.eps[ep] != []
    ensures u.eps[ep][0].ep == ep && (ep == bulk || ep == ctrl)
    ensures var v := Usb.Complete(u, u.eps[ep][0], status, 0); v.next == u.next && Lines(v, bulk, ctrl, b, c)
  {
    var d := u.eps[ep];
    InHouse(u, bulk, ctrl, ep);
    hide Usb.Complete, Ups, DoneOn, Usb.Find, Toks;
    assert Ups(DoneOn(u.completed, ep) + Toks(d)) by { assert Ups(Line(u, ep)); }
    FirstOnce(DoneOn(u.completed, ep), d);
    FindFirst(d);
    ArriveIs(u, ep, status);
    var v := Usb.Complete(u, d[0], status, 0);
    ArriveHoused(u, v, bulk, ctrl, ep, status);
    hide Housed, Line;
    LineKept(u, v, ep, status, bulk);
    LineKept(u, v, ep, status, ctrl);
  }

  lemma {:induction false} ArriveIs(u: Usb.Usb, ep: nat, status: Usb.Status)
    requires |u.eps| == Usb.ENDPOINTS && ep < Usb.ENDPOINTS && u.queued == []
            && u.eps[ep] != [] && u.eps[ep][0].ep == ep
    requires Usb.Find(u.eps[ep], u.eps[ep][0]) == 0
    ensures var d := u.eps[ep];
            var v := Usb.Complete(u, d[0], status, 0);
            && v.eps == u.eps[ep := d[1..]] && v.queued == [] && v.next == u.next
            && v.completed == u.completed + [Usb.Done(d[0], status)]
  {
    hide Usb.Find;
    var d := u.eps[ep];
    assert Usb.Remove(d, 0) == d[1..];
  }

  lemma {:induction false} DoneFirst(ds: seq<Usb.Done>, ep: nat)
    requires ds != []
    ensures DoneOn(ds, ep) == (if ds[0].t.ep == ep then [ds[0].t.token] else []) + DoneOn(ds[1..], ep)
  {
    var n := |ds| - 1;
    if n == 0 {
      assert ds[..0] == [] && ds[1..] == [];
    } else {
      DoneFirst(ds[..n], ep);
      assert ds[..n][1..] == ds[1..][..n - 1] && ds[1..][n - 1] == ds[n];
    }
  }

  lemma {:induction false} ReturnHoused(u: Usb.Usb, v: Usb.Usb, bulk: nat, ctrl: nat)
    requires Housed(u, bulk, ctrl) && u.completed != [] && v.completed == u.completed[1..]
    requires v.eps == u.eps && v.queued == u.queued
    ensures Housed(v, bulk, ctrl) && (u.completed[0].t.ep == bulk || u.completed[0].t.ep == ctrl)
  {
  }

  lemma {:induction false} LineShort(u: Usb.Usb, v: Usb.Usb, x: nat)
    requires u.completed != [] && v.completed == u.completed[1..] && v.eps == u.eps && x < |u.eps|
    ensures var t := u.completed[0].t;
            if t.ep == x then Line(u, x) != [] && Line(u, x)[0] == t.token && Line(v, x) == Line(u, x)[1..]
            else Line(v, x) == Line(u, x)
  {
    var t := u.completed[0].t;
    DoneFirst(u.completed, x);
    hide DoneOn, Toks;
    if t.ep == x {
      Assoc([t.token], DoneOn(v.completed, x), Toks(u.eps[x]));
    } else {
      assert [] + DoneOn(v.completed, x) == DoneOn(v.completed, x);
    }
  }

  /** Handing the oldest completed transfer out takes it off the front of its endpoint's line. */
  lemma {:induction false} ReturnLines(u: Usb.Usb, bulk: nat, ctrl: nat, b: seq<nat>, c: seq<nat>)
    requires Lines(u, bulk, ctrl, b, c) && u.completed != []
    ensures var v, t := Usb.ReturnAt(u, 0), u.completed[0].t;
            && v.next == u.next && (t.ep == bulk || t.ep == ctrl)
            && (if t.ep == bulk then b != [] && b[0] == t.token else c != [] && c[0] == t.token)
            && Lines(v, bulk, ctrl, if t.ep == bulk then b[1..] else b, if t.ep == bulk then c else c[1..])
  {
    var v := Usb.ReturnAt(u, 0);
    assert v.completed == u.completed[1..] && |u.eps| == Usb.ENDPOINTS && bulk < |u.eps| && ctrl < |u.eps|
        && bulk != ctrl;
    ReturnHoused(u, v, bulk, ctrl);
    hide Housed, Line;
    LineShort(u, v, bulk);
    LineShort(u, v, ctrl);
  }

  // ---------------------------------------------------------------------------------------------
  // What the engine submits

  /** The transport tokens from `from` to `to` that are not the control request's. */
  function DataToks(control: int, from: nat, last: nat): (ts: seq<nat>)
    ensures |ts| <= if from <= last then last - from else 0
    decreases last - from
  {
    if from >= last then [] else DataToks(control, from, last - 1) + if last - 1 == control then [] else [last - 1]
  }

  function CtrlToks(control: int, from: nat, last: nat): seq<nat> {
    if from <= control < last then [control] else []
  }

  function CtrlLine(control: int): seq<nat>
    requires control >= -1
  {
    if control == -1 then [] else [control]
  }

  /** A step from lines `usb` and `c` to those of `t`: it appends the tokens it hands out. */
  predicate Extends(usb: seq<nat>, c: seq<nat>, from: nat, t: State) {
    && from <= t.nextUsb && t.control >= -1
    && t.usb == usb + DataToks(t.control, from, t.nextUsb)
    && CtrlLine(t.control) == c + CtrlToks(t.control, from, t.nextUsb)
  }

  lemma {:induction false} ExtendsNone(t: State)
    requires -1 <= t.control < t.nextUsb
    ensures Extends(t.usb, CtrlLine(t.control), t.nextUsb, t)
  {
  }

  /** Filling the window. */
  lemma {:induction false} AllExtends(s: State)
    requires -1 <= s.control < s.nextUsb
    ensures var t := SubmitAll(s);
            && t.control == s.control && s.nextUsb <= t.nextUsb
            && forall k: int :: k < s.nextUsb ==> t.usb == s.usb + DataToks(k, s.nextUsb, t.nextUsb)
    decreases |s.queued|
  {
    if |s.pending| < s.window && s.queued != [] {
      var u := SubmitOne(s);
      AllExtends(u);
      var t := SubmitAll(u);
      hide SubmitAll;
      forall k: int | k < s.nextUsb ensures t.usb == s.usb + DataToks(k, s.nextUsb, t.nextUsb) {
        DataFirst(k, s.nextUsb, t.nextUsb);
        assert s.usb + [s.nextUsb] + DataToks(k, u.nextUsb, t.nextUsb)
            == s.usb + ([s.nextUsb] + DataToks(k, u.nextUsb, t.nextUsb));
      }
    }
  }

  lemma {:induction false} DataFirst(k: int, from: nat, last: nat)
    requires k < from < last
    ensures DataToks(k, from, last) == [from] + DataToks(k, from + 1, last)
    decreases last
  {
    if from + 1 < last {
      DataFirst(k, from, last - 1);
    }
  }

  lemma {:induction false} AllIs(s: State)
    requires -1 <= s.control < s.nextUsb
    ensures Extends(s.usb, CtrlLine(s.control), s.nextUsb, SubmitAll(s))
  {
    AllExtends(s);
    hide SubmitAll, DataToks;
  }

  lemma {:induction false} SubmitExtends(s: State, typ: EventType, ptr: nat)
    requires -1 <= s.control < s.nextUsb
    ensures Extends(s.usb, CtrlLine(s.control), s.nextUsb, SubmitBuffer(s, typ, ptr))
  {
    SubmitIs(s, typ, ptr);
    var u := Issue(s, match typ case TypeData => Data case TypeEvent => Event case _ => Void, ptr);
    AllIs(u);
    ExtendsNone(u);
    ExtendsNone(s);
    hide SubmitAll, SubmitBuffer, Extends;
  }

  /** Arming the control request once there is none. */
  lemma {:induction false} ArmExtends(usb: seq<nat>, from: nat, s: State)
    requires s.control == -1 && Extends(usb, [], from, s)
    ensures Extends(usb, [], from, ArmControl(s))
  {
    SameToks(-1, s.nextUsb, from, s.nextUsb);
    hide DataToks;
    DataSkips(s.nextUsb, from);
  }

  lemma {:induction false} SameToks(k: int, l: int, from: nat, last: nat)
    requires (k < from || k >= last) && (l < from || l >= last)
    ensures DataToks(k, from, last) == DataToks(l, from, last)
    decreases last
  {
    if from < last {
      SameToks(k, l, from, last - 1);
    }
  }

  lemma {:induction false} DataSkips(k: nat, from: nat)
    requires from <= k
    ensures DataToks(k, from, k + 1) == DataToks(k, from, k)
  {
    assert DataToks(k, from, k) + [] == DataToks(k, from, k);
  }

  lemma {:induction false} StartExtends(s: State)
    requires -1 <= s.control < s.nextUsb
    ensures Extends(s.usb, CtrlLine(s.control), s.nextUsb, Start(s))
  {
    var u := s.(status := ACTIVE);
    AllIs(u);
    ExtendsNone(s);
    var t := SubmitAll(u);
    hide SubmitAll, Extends;
    AllControl(u);
    if t.control == -1 {
      ArmExtends(s.usb, s.nextUsb, t);
    }
  }

  lemma {:induction false} AllControl(s: State)
    ensures SubmitAll(s).control == s.control
  {
    SubmitFrame(s);
    hide SubmitAll;
  }

  /** The steps that submit nothing. */
  predicate SameLines(s: State, t: State) {
    t.usb == s.usb && t.control == s.control && t.nextUsb == s.nextUsb
  }

  lemma {:induction false} EventsSame(s: State)
    ensures SameLines(s, CompleteEvents(s))
    decreases |s.events|
  {
    if s.events != [] {
      EventsSame(CompleteEvent(s, Cell(TypeNone, [])));
    }
  }

  lemma {:induction false} EngineExtends(s: State, step: Step)
    requires -1 <= s.control < s.nextUsb && Enabled(s, step) && !step.DoFinish?
    ensures Extends(s.usb, CtrlLine(s.control), s.nextUsb, Next(s, step))
  {
    hide SubmitBuffer, Start, Extends;
    match step
    case DoSubmit(typ, ptr) => SubmitExtends(s, typ, ptr);
    case DoStart => StartExtends(s);
    case DoStop =>
      EventsSame(s.(status := DETACHING));
      hide CompleteEvents;
      ExtendsNone(Next(s, step));
    case DoFinish(_, _) =>
    case DoStateEvent(_) => ExtendsNone(Next(s, step));
    case DoTake => ExtendsNone(Next(s, step));
    case DoEnter => ExtendsNone(Next(s, step));
    case DoLeave => ExtendsNone(Next(s, step));
    case DoDetach => ExtendsNone(Next(s, step));
  }

  /** What the waiting thread does with the control request's completion. */
  lemma {:induction false} ControlExtends(s: State, sink: int, f: Finished)
    requires -1 <= s.control < s.nextUsb
    ensures Extends(s.usb, [], s.nextUsb, ControlDone(s, sink, f))
  {
    ControlMoves(s, sink, f);
    DataSkips(s.nextUsb, s.nextUsb);
    hide ControlDone;
  }

  /** And with the front transfer. */
  lemma {:induction false} DataExtends(s: State, f: Finished)
    requires -1 <= s.control < s.nextUsb && s.pending != [] && s.usb != []
    ensures Extends(s.usb[1..], CtrlLine(s.control), s.nextUsb, DataDone(s, f))
  {
    var t := DataFront(s, f);
    AllIs(t);
    ExtendsNone(t);
    hide SubmitAll, Outcome, DataToks;
  }

  // ---------------------------------------------------------------------------------------------
  // Engine and device together

  /** The device's lines are the engine's, and no submission found an endpoint full. */
  predicate Linked(r: Rig) {
    && Inv(r.e) && r.e.window <= Usb.MAX_IN_FLIGHT && Usb.Roomy(r.log) && Usb.After(r.log).next == r.e.nextUsb
    && Lines(Usb.After(r.log), r.bulk, r.ctrl, r.e.usb, CtrlLine(r.e.control))
  }

  /** A log with the lines of a state. */
  predicate Logged(r: Rig, log: seq<Usb.Event>, next: nat, b: seq<nat>, c: seq<nat>) {
    Usb.Roomy(log) && Usb.After(log).next == next && Lines(Usb.After(log), r.bulk, r.ctrl, b, c)
  }

  lemma {:induction false} RoomyOne(log: seq<Usb.Event>, ev: Usb.Event)
    requires Usb.Roomy(log) && Usb.Possible(Usb.After(log), ev)
    requires ev.SubmitEvent? ==> |Usb.After(log).eps[ev.ep]| < Usb.MAX_IN_FLIGHT
    ensures Usb.Roomy(log + [ev]) && Usb.After(log + [ev]) == Usb.Step(Usb.After(log), ev)
  {
    Usb.AfterOne(log, ev);
    hide Usb.Step, Usb.Possible, Usb.After;
    assert (log + [ev])[..|log|] == log;
  }

  lemma {:induction false} LineRoom(u: Usb.Usb, bulk: nat, ctrl: nat, b: seq<nat>, c: seq<nat>)
    requires Lines(u, bulk, ctrl, b, c)
    ensures |u.eps[bulk]| <= |b| && |u.eps[ctrl]| <= |c| && |u.eps| == Usb.ENDPOINTS && bulk < Usb.ENDPOINTS
            && ctrl < Usb.ENDPOINTS
  {
    hide DoneOn;
  }

  /** One submission. */
  lemma {:induction false} SubmitLogged(r: Rig, log: seq<Usb.Event>, next: nat, b: seq<nat>, c: seq<nat>, ep: nat)
    requires Logged(r, log, next, b, c)
    requires (ep == r.bulk && |b| < Usb.MAX_IN_FLIGHT) || (ep == r.ctrl && c == [])
    ensures Logged(r, log + [Usb.SubmitEvent(ep, true, true)], next + 1, if ep == r.bulk then b + [next] else b,
                   if ep == r.ctrl then c + [next] else c)
  {
    var u, ev := Usb.After(log), Usb.SubmitEvent(ep, true, true);
    LineRoom(u, r.bulk, r.ctrl, b, c);
    hide Usb.After, Usb.Roomy, Lines, Usb.Submit;
    SubmitLines(u, r.bulk, r.ctrl, b, c, ep);
    RoomyOne(log, ev);
  }

  /** A step's submissions find room as long as the lines they lead to are no longer than they may be. */
  lemma {:induction false} SubmissionsLogged(r: Rig, log: seq<Usb.Event>, b: seq<nat>, c: seq<nat>, control: int,
          from: nat, last: nat)
    requires Logged(r, log, from, b, c) && from <= last
    requires |b + DataToks(control, from, last)| <= Usb.MAX_IN_FLIGHT && |c + CtrlToks(control, from, last)| <= 1
    ensures Logged(r, log + Submissions(r, control, from, last), last, b + DataToks(control, from, last),
                   c + CtrlToks(control, from, last))
    decreases last
  {
    hide Logged;
    if from == last {
      assert log + [] == log && b + [] == b && c + [] == c;
    } else {
      var b2, c2, log2 := b + DataToks(control, from, last - 1), c + CtrlToks(control, from, last - 1),
          log + Submissions(r, control, from, last - 1);
      SubmissionsLogged(r, log, b, c, control, from, last - 1);
      LoggedApart(r, log2, last - 1, b2, c2);
      var ep := if last - 1 == control then r.ctrl else r.bulk;
      SubmitLogged(r, log2, last - 1, b2, c2, ep);
      assert log2 + [Usb.SubmitEvent(ep, true, true)] == log + Submissions(r, control, from, last);
      if last - 1 == control {
        assert c2 == c + [] == c;
        assert DataToks(control, from, last - 1) + [] == DataToks(control, from, last - 1);
      } else {
        assert b2 + [last - 1] == b + DataToks(control, from, last);
      }
    }
  }

  lemma {:induction false} LoggedApart(r: Rig, log: seq<Usb.Event>, next: nat, b: seq<nat>, c: seq<nat>)
    requires Logged(r, log, next, b, c)
    ensures r.bulk != r.ctrl
  {
  }

  /** An engine step that extends the lines `b` and `c` of a log. */
  lemma {:induction false} MovedLinked(r: Rig, log: seq<Usb.Event>, e: State, b: seq<nat>, c: seq<nat>)
    requires Logged(r, log, r.e.nextUsb, b, c) && Extends(b, c, r.e.nextUsb, e) && Inv(e)
    requires e.window <= Usb.MAX_IN_FLIGHT
    ensures Linked(Moved(r, log, e))
  {
    InWindow(e);
    hide Inv, Logged, DataToks;
    SubmissionsLogged(r, log, b, c, e.control, r.e.nextUsb, e.nextUsb);
    LinkedIs(Moved(r, log, e));
  }

  lemma {:induction false} LinkedIs(r: Rig)
    requires Inv(r.e) && r.e.window <= Usb.MAX_IN_FLIGHT && r.e.control >= -1
    requires Logged(r, r.log, r.e.nextUsb, r.e.usb, CtrlLine(r.e.control))
    ensures Linked(r)
  {
    hide Inv, Lines, Usb.After, Usb.Roomy;
  }

  lemma {:induction false} InWindow(e: State)
    requires Inv(e)
    ensures |e.usb| <= e.window && -1 <= e.control < e.nextUsb
  {
    hide InLine, Owned;
  }

  lemma {:induction false} LinkedParts(r: Rig)
    requires Linked(r)
    ensures Inv(r.e) && r.e.window <= Usb.MAX_IN_FLIGHT && -1 <= r.e.control < r.e.nextUsb && r.e.control !in r.e.usb
    ensures Logged(r, r.log, r.e.nextUsb, r.e.usb, CtrlLine(r.e.control)) && Ups(r.e.usb) && |r.e.usb| == |r.e.pending|
  {
    assert Wired(r.e);
    hide Inv, Lines, Usb.After, Usb.Roomy;
  }

  lemma {:induction false} WindowKept(s: State, step: Step)
    requires Enabled(s, step)
    ensures Next(s, step).window == s.window
  {
    match step
    case DoSubmit(typ, ptr) =>
      SubmitIs(s, typ, ptr);
      SubmitFrame(Issue(s, match typ case TypeData => Data case TypeEvent => Event case _ => Void, ptr));
      hide SubmitBuffer, SubmitAll;
    case DoStart =>
      SubmitFrame(s.(status := ACTIVE));
      hide SubmitAll;
    case DoStop =>
      EventsWindow(s.(status := DETACHING));
      hide CompleteEvents;
    case DoFinish(sink, f) =>
      if s.usb != [] {
        CoreFront(s, f);
      }
      hide SubmitAll, Outcome;
    case _ =>
  }

  lemma {:induction false} EventsWindow(s: State)
    ensures CompleteEvents(s).window == s.window
    decreases |s.events|
  {
    if s.events != [] {
      EventsWindow(CompleteEvent(s, Cell(TypeNone, [])));
    }
  }

  lemma {:induction false} EngineLinked(r: Rig, step: Step)
    requires Linked(r) && Enabled(r.e, step) && !step.DoFinish?
    ensures Linked(Moved(r, r.log, Next(r.e, step)))
  {
    hide Linked, Inv, Logged, Extends, Next, Moved;
    LinkedParts(r);
    StepKeeps(r.e, step);
    EngineExtends(r.e, step);
    WindowKept(r.e, step);
    MovedLinked(r, r.log, Next(r.e, step), r.e.usb, CtrlLine(r.e.control));
  }

  lemma {:induction false} ArriveLinked(r: Rig, ep: nat, status: Usb.Status)
    requires Linked(r) && CanMove(r, Arrives(ep, status))
    ensures Linked(Apply(r, Arrives(ep, status)))
  {
    hide Linked, Inv, Lines, Ups, Usb.Complete;
    LinkedParts(r);
    var u := Usb.After(r.log);
    CtrlUps(r.e.control);
    ArriveLines(u, r.bulk, r.ctrl, r.e.usb, CtrlLine(r.e.control), ep, status);
    RoomyOne(r.log, Usb.CompleteEvent(u.eps[ep][0], status, 0));
    hide Usb.After, Usb.Roomy;
    LinkedIs(Apply(r, Arrives(ep, status)));
  }

  lemma {:induction false} CtrlUps(control: int)
    requires control >= -1
    ensures Ups(CtrlLine(control))
  {
  }

  /** What the waiting thread is handed is always its turn: the control request or the front transfer. */
  lemma {:induction false} HandedInTurn(r: Rig, m: Move)
    requires Linked(r) && m.Finishes? && CanMove(r, m)
    ensures var f := StepOf(r, m)[0].f;
            && f.token != -1 && (f.token == r.e.control || (r.e.usb != [] && f.token == r.e.usb[0]))
            && (InTurn(r.e, f) <==> f.token == r.e.control ==> Repeats(r.e, f))
    ensures var f, d := StepOf(r, m)[0].f, Usb.After(r.log).completed[0];
            && f.token == d.t.token
            && match d.status
               case Completed => f.status == Success
               case Cancelled => f.status == TraceEngine.Cancelled
               case TimedOut => f.status == NoData
               case Stall => f.status == TraceEngine.Cancelled
               case Failed => f.status == TraceEngine.Failed
  {
    LinkedParts(r);
    hide Linked, Inv, Lines, Repeats;
    ReturnLines(Usb.After(r.log), r.bulk, r.ctrl, r.e.usb, CtrlLine(r.e.control));
  }

  /** Handing out, on a log. */
  lemma {:induction false} ReturnOnce(r: Rig, log: seq<Usb.Event>, next: nat, b: seq<nat>, c: seq<nat>)
    requires Logged(r, log, next, b, c) && Usb.After(log).completed != []
    ensures var t := Usb.After(log).completed[0].t;
            && (if t.ep == r.bulk then b != [] && b[0] == t.token else c != [] && c[0] == t.token)
            && Logged(r, log + [Usb.ReturnEvent(0)], next, if t.ep == r.bulk then b[1..] else b,
                      if t.ep == r.bulk then c else c[1..])
  {
    hide Lines, Usb.ReturnAt, Usb.After, Usb.Roomy;
    ReturnLines(Usb.After(log), r.bulk, r.ctrl, b, c);
    RoomyOne(log, Usb.ReturnEvent(0));
  }

  lemma {:induction false} ReturnLogged(r: Rig)
    requires Linked(r) && Usb.After(r.log).completed != []
    ensures var t := Usb.After(r.log).completed[0].t;
            if t.token == r.e.control then
              Logged(r, r.log + [Usb.ReturnEvent(0)], r.e.nextUsb, r.e.usb, [])
            else
              && r.e.usb != [] && t.token == r.e.usb[0] && r.e.control >= -1
              && Logged(r, r.log + [Usb.ReturnEvent(0)], r.e.nextUsb, r.e.usb[1..], CtrlLine(r.e.control))
  {
    hide Linked, Inv, Logged, Usb.After, Ups;
    LinkedParts(r);
    ReturnOnce(r, r.log, r.e.nextUsb, r.e.usb, CtrlLine(r.e.control));
    assert r.e.usb != [] ==> r.e.usb[0] in r.e.usb;
    assert CtrlLine(r.e.control) != [] ==> CtrlLine(r.e.control)[1..] == [];
  }

  lemma {:induction false} FinishIs(r: Rig, m: Move)
    requires m.Finishes? && CanMove(r, m)
    ensures var f, log := StepOf(r, m)[0].f, r.log + [Usb.ReturnEvent(0)];
            && StepOf(r, m) == [DoFinish(m.sink, f)] && Usb.After(r.log).completed != [] && r.e.pending != []
            && f.token == Usb.After(r.log).completed[0].t.token && Enabled(r.e, DoFinish(m.sink, f))
            && Apply(r, m) == Moved(r, log, Finish(r.e, m.sink, f))
  {
    hide Finish, StatusOf, Moved, Usb.After;
  }

  lemma {:induction false} FinishParts(r: Rig, m: Move)
    requires Linked(r) && m.Finishes? && CanMove(r, m)
    ensures var f, log := StepOf(r, m)[0].f, r.log + [Usb.ReturnEvent(0)];
            && StepOf(r, m) == [DoFinish(m.sink, f)] && Enabled(r.e, DoFinish(m.sink, f))
            && Apply(r, m) == Moved(r, log, Finish(r.e, m.sink, f))
            && f.token == Usb.After(r.log).completed[0].t.token && r.e.pending != [] && r.e.usb != []
            && Usb.After(r.log).completed != []
  {
    hide Linked, Finish, StatusOf, Apply, CanMove, StepOf, Moved, Usb.After, Logged, Inv, Ups;
    FinishIs(r, m);
    LinkedParts(r);
  }

  lemma {:induction false} FinishLinked(r: Rig, m: Move)
    requires Linked(r) && m.Finishes? && CanMove(r, m)
    ensures Linked(Apply(r, m))
  {
    var step, log := StepOf(r, m)[0], r.log + [Usb.ReturnEvent(0)];
    var f := step.f;
    hide Linked, Inv, Logged, Extends, Moved, ControlDone, DataDone, Usb.After, CanMove, Apply, StepOf, Ups;
    FinishParts(r, m);
    LinkedParts(r);
    ReturnLogged(r);
    StepKeeps(r.e, step);
    WindowKept(r.e, step);
    if f.token == r.e.control {
      ControlExtends(r.e, m.sink, f);
      MovedLinked(r, log, ControlDone(r.e, m.sink, f), r.e.usb, []);
    } else {
      DataExtends(r.e, f);
      MovedLinked(r, log, DataDone(r.e, f), r.e.usb[1..], CtrlLine(r.e.control));
    }
  }

  /** In every run of engine and device from linked ones, with a window of at most sixteen and libusb
      completing each endpoint's transfers in order, their lines agree, and no submission finds its
      endpoint full. */
  lemma {:induction false} RunLinked(r: Rig, ms: seq<Move>)
    requires Linked(r)
    ensures Linked(Run(r, ms))
    decreases |ms|
  {
    hide Linked, CanMove, Apply;
    if ms != [] {
      var q, m := Run(r, ms[..|ms| - 1]), ms[|ms| - 1];
      RunLinked(r, ms[..|ms| - 1]);
      if CanMove(q, m) {
        MoveLinked(q, m);
      }
    }
  }

  lemma {:induction false} MoveLinked(r: Rig, m: Move)
    requires Linked(r) && CanMove(r, m)
    ensures Linked(Apply(r, m))
  {
    match m
    case Engine(step) =>
      hide Linked, Moved, Next;
      EngineLinked(r, step);
    case Arrives(ep, status) =>
      hide Linked;
      ArriveLinked(r, ep, status);
    case Finishes(_, _, _, _) =>
      hide Linked, Apply, CanMove;
      FinishLinked(r, m);
  }

  /** While the thread waits the device always has something for it: `completeTransfer` never returns -1. */
  lemma {:induction false} NeverNothing(r: Rig)
    requires Linked(r) && r.e.thread.Waiting?
    ensures var u := Usb.After(r.log); u.completed != [] || u.inFlight > 0
  {
    LinkedParts(r);
    StillWaiting(r.e);
    var u := Usb.After(r.log);
    Usb.RunKeeps(r.log);
    assert Usb.Counted(u);
    hide Linked, Inv, Usb.After, Usb.Roomy, Usb.Conserved, Ups;
    if u.completed == [] {
      assert Toks(u.eps[r.bulk]) == r.e.usb;
      Usb.TotalChanged(u.eps, r.bulk, []);
    }
  }

  lemma {:induction false} StillWaiting(s: State)
    requires Inv(s) && s.thread.Waiting?
    ensures s.pending != []
  {
    hide InLine, Owned, Wired;
  }

  // ---------------------------------------------------------------------------------------------
  // The engine's part of a run

  function StepsOf(r: Rig, ms: seq<Move>): seq<Step>
    decreases |ms|
  {
    if ms == [] then []
    else
      var q := Run(r, ms[..|ms| - 1]);
      StepsOf(r, ms[..|ms| - 1]) + if CanMove(q, ms[|ms| - 1]) then StepOf(q, ms[|ms| - 1]) else []
  }

  /** From a stop on: the thread's and the client's steps, and the control request, if it completes, being
      repeated. */
  predicate Polite(r: Rig, ms: seq<Move>)
    decreases |ms|
  {
    ms == []
    || (Polite(r, ms[..|ms| - 1])
        && var q, m := Run(r, ms[..|ms| - 1]), ms[|ms| - 1];
           match m
           case Engine(step) => step.DoEnter? || step.DoTake?
           case Arrives(_, _) => true
           case Finishes(_, _, _, _) =>
             CanMove(q, m) ==> var f := StepOf(q, m)[0].f; f.token == q.e.control ==> Repeats(q.e, f))
  }

  lemma {:induction false} StepRuns(r: Rig, m: Move)
    requires CanMove(r, m)
    ensures Apply(r, m).e == if StepOf(r, m) == [] then r.e else Next(r.e, StepOf(r, m)[0])
  {
    hide Next;
  }

  /** The engine's part of such a run is an orderly one: what `Delivers` and the discard loop ask of the
      transport follows from libusb completing each endpoint's transfers in order. */
  lemma {:induction false} RunInOrder(r: Rig, ms: seq<Move>)
    requires Linked(r) && Polite(r, ms)
    ensures InOrder(r.e, StepsOf(r, ms)) && After(r.e, StepsOf(r, ms)) == Run(r, ms).e
    decreases |ms|
  {
    hide Linked, CanMove, Apply, Next, StepOf, InOrderStep;
    if ms != [] {
      var q, m := Run(r, ms[..|ms| - 1]), ms[|ms| - 1];
      RunInOrder(r, ms[..|ms| - 1]);
      RunLinked(r, ms[..|ms| - 1]);
      if CanMove(q, m) {
        StepRuns(q, m);
        InOrderMove(q, m, r, ms);
        var es, es1 := StepsOf(r, ms[..|ms| - 1]), StepOf(q, m);
        if es1 == [] {
          assert es + [] == es;
        } else {
          assert (es + es1)[..|es|] == es && (es + es1)[|es|] == es1[0];
        }
      } else {
        assert StepsOf(r, ms[..|ms| - 1]) + [] == StepsOf(r, ms[..|ms| - 1]);
      }
    }
  }

  lemma {:induction false} InOrderMove(q: Rig, m: Move, r: Rig, ms: seq<Move>)
    requires Linked(q) && CanMove(q, m) && ms != [] && m == ms[|ms| - 1] && q == Run(r, ms[..|ms| - 1]) && Polite(r, ms)
    ensures forall e :: e in StepOf(q, m) ==> InOrderStep(q.e, e)
  {
    if m.Finishes? {
      HandedInTurn(q, m);
    }
    hide Linked, InTurn, Repeats, Run;
  }

  /** And so is the discard loop's: its premise on the transport follows. */
  lemma {:induction false} DiscardFollows(w: Loop.World, r: Rig, ms: seq<Move>)
    requires Loop.Winding(w) && Linked(r) && r.e == w.e && Polite(r, ms)
    ensures var acts := Loop.ActsOf(StepsOf(r, ms)); Loop.CivilRun(w, acts) && Loop.Acts(w, acts).e == Run(r, ms).e
  {
    hide Linked, Polite, Run, StepsOf, InOrder, After, Loop.Winding, Loop.CivilRun, Loop.Acts;
    RunInOrder(r, ms);
    Loop.OrderIsCivil(w, StepsOf(r, ms));
  }

  /** An attach that finds the device with nothing outstanding, the first one or one behind a detach whose drain
      loop has come to its end, and submits its control request. */
  lemma {:induction false} AttachLinked(e: State, log: seq<Usb.Event>, bulk: nat, ctrl: nat)
    requires Attached(e) && e.control >= 0 && e.nextUsb == e.control + 1 && e.window <= Usb.MAX_IN_FLIGHT
    requires bulk < Usb.ENDPOINTS && ctrl < Usb.ENDPOINTS && bulk != ctrl
    requires Usb.Roomy(log) && Usb.After(log).next == e.control && Usb.Pending(Usb.After(log)) == 0
    ensures Linked(Rig(e, log + [Usb.SubmitEvent(ctrl, true, true)], bulk, ctrl))
  {
    hide Inv, Attached, Usb.Roomy, Usb.After;
    var r := Rig(e, log + [Usb.SubmitEvent(ctrl, true, true)], bulk, ctrl);
    AttachedKeeps(e);
    Usb.RunKeeps(log);
    IdleLines(Usb.After(log), bulk, ctrl);
    SubmitLogged(r, log, e.control, [], [], ctrl);
    assert [] + [e.control] == [e.control];
    hide Logged;
    NoUsb(e);
    LinkedIs(r);
  }

  /** A device with nothing pending has nothing on any endpoint. */
  lemma {:induction false} IdleLines(u: Usb.Usb, bulk: nat, ctrl: nat)
    requires Usb.Counted(u) && Usb.Pending(u) == 0
    requires bulk < Usb.ENDPOINTS && ctrl < Usb.ENDPOINTS && bulk != ctrl
    ensures Lines(u, bulk, ctrl, [], [])
  {
    forall ep | 0 <= ep < Usb.ENDPOINTS ensures u.eps[ep] == [] {
      Usb.TotalChanged(u.eps, ep, []);
    }
  }

  lemma {:induction false} NoUsb(e: State)
    requires Attached(e)
    ensures e.usb == []
  {
  }
}
