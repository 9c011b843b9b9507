/** Transfer bookkeeping of the USB device: tokens, transfers in flight per endpoint, a queue for
    what does not fit, and a queue of completed transfers.  libusb is whatever sequence of
    callbacks and submission results it chooses to produce.
 */
module UsbDevice {
  const MAX_IN_FLIGHT := 16
  const ENDPOINTS := 256

  datatype Transfer = Transfer(token: nat, ep: nat)

  datatype Status = Completed | Cancelled | TimedOut | Stall | Failed

  datatype Done = Done(t: Transfer, status: Status)

  /** The device's fields, and the history of transfers handed to callers, returned to them, and
      dropped when a queued one could not be submitted.  An endpoint without an entry in the
      source's map has an empty deque here. */
  datatype Usb = Usb(next: nat, eps: seq<seq<Transfer>>, queued: seq<Transfer>, completed: seq<Done>, inFlight: int,
                     issued: seq<Transfer>, returned: seq<Transfer>, dropped: seq<Transfer>)

  // ---------------------------------------------------------------------------------------------
  // Sequences of deques

  function Total(eps: seq<seq<Transfer>>): nat {
    if eps == [] then 0 else |eps[0]| + Total(eps[1..])
  }

  function Flat(eps: seq<seq<Transfer>>): multiset<Transfer> {
    if eps == [] then multiset{} else multiset(eps[0]) + Flat(eps[1..])
  }

  lemma {:induction false} TotalChanged(eps: seq<seq<Transfer>>, e: nat, d: seq<Transfer>)
    requires e < |eps|
    ensures Total(eps[e := d]) == Total(eps) - |eps[e]| + |d| && |eps[e]| <= Total(eps)
  {
    var after := eps[e := d];
    if e == 0 {
      assert after[1..] == eps[1..];
    } else {
      assert after[1..] == eps[1..][e - 1 := d];
      TotalChanged(eps[1..], e - 1, d);
    }
  }

  lemma {:induction false} FlatChanged(eps: seq<seq<Transfer>>, e: nat, d: seq<Transfer>)
    requires e < |eps|
    ensures multiset(eps[e]) <= Flat(eps) && Flat(eps[e := d]) == Flat(eps) - multiset(eps[e]) + multiset(d)
  {
    var after := eps[e := d];
    if e == 0 {
      assert after[1..] == eps[1..];
    } else {
      assert after[1..] == eps[1..][e - 1 := d];
      FlatChanged(eps[1..], e - 1, d);
    }
  }

  lemma {:induction false} DequeChanged(eps: seq<seq<Transfer>>, e: nat, d: seq<Transfer>)
    requires e < |eps|
    ensures Total(eps[e := d]) == Total(eps) - |eps[e]| + |d| && |eps[e]| <= Total(eps)
    ensures multiset(eps[e]) <= Flat(eps) && Flat(eps[e := d]) == Flat(eps) - multiset(eps[e]) + multiset(d)
  {
    hide Total, Flat;
    TotalChanged(eps, e, d);
    FlatChanged(eps, e, d);
  }

  function Transfers(ds: seq<Done>): (ts: seq<Transfer>)
    ensures |ts| == |ds| && forall i :: 0 <= i < |ds| ==> ts[i] == ds[i].t
  {
    seq(|ds|, i requires 0 <= i < |ds| => ds[i].t)
  }

  // ---------------------------------------------------------------------------------------------
  // Steps

  function Start(): Usb {
    Usb(0, NoDeques(ENDPOINTS), [], [], 0, [], [], [])
  }

  function NoDeques(n: nat): (eps: seq<seq<Transfer>>)
    ensures |eps| == n && forall e :: 0 <= e < n ==> eps[e] == []
  {
    if n == 0 then [] else NoDeques(n - 1) + [[]]
  }

  /** `submitTransfer`: a token is spent even when the call throws, because the endpoint, size or
      direction is wrong or libusb refuses. */
  function Submit(u: Usb, ep: nat, valid: bool, accepted: bool): Usb
    requires |u.eps| == ENDPOINTS && ep < ENDPOINTS
  {
    var t := Transfer(u.next, ep);
    var v := u.(next := u.next + 1);
    if !valid then v
    else if |u.eps[ep]| < MAX_IN_FLIGHT then
      if accepted then v.(eps := u.eps[ep := u.eps[ep] + [t]], inFlight := u.inFlight + 1,
              issued := u.issued + [t]) else v
    else v.(queued := u.queued + [t], issued := u.issued + [t])
  }

  /** Position of the last entry for a transfer; the length when there is none. */
  function Find(d: seq<Transfer>, t: Transfer): (i: nat)
    ensures i <= |d| && (i < |d| ==> d[i] == t)
    ensures i == |d| <==> t !in d
  {
    if d == [] then 0
    else
      var k := |d| - 1;
      if d[k] == t then k else var i := Find(d[..k], t); if i < k then i else |d|
  }

  /** A deque filled up from the queue, as long as libusb takes the transfers: it takes `accept`
      of them and refuses the next, which is then dropped. */
  datatype Refilled = Refilled(deque: seq<Transfer>, queue: seq<Transfer>, dropped: seq<Transfer>)

  function Refill(d: seq<Transfer>, q: seq<Transfer>, accept: nat): (r: Refilled)
    ensures d <= r.deque && |r.deque| <= if |d| <= MAX_IN_FLIGHT then MAX_IN_FLIGHT else |d|
    ensures r.deque + r.dropped + r.queue == d + q && |r.dropped| <= 1
    ensures r.queue != [] && r.dropped == [] ==> |r.deque| >= MAX_IN_FLIGHT
    ensures accept >= |q| ==> r.dropped == []
    decreases q
  {
    if |d| >= MAX_IN_FLIGHT || q == [] then Refilled(d, q, [])
    else if accept == 0 then Refilled(d, q[1..], [q[0]])
    else Refill(d + [q[0]], q[1..], accept - 1)
  }

  function Remove<T>(s: seq<T>, i: nat): seq<T>
    requires i < |s|
  {
    s[..i] + s[i + 1..]
  }

  /** `transfer_complete`: the transfer moves to the completed queue if it is found in the deque of
      its endpoint, and that deque is filled up from the queue, whichever endpoint the queued
      transfers are for. */
  function Complete(u: Usb, t: Transfer, status: Status, accept: nat): Usb
    requires |u.eps| == ENDPOINTS && t.ep < ENDPOINTS
  {
    var d := u.eps[t.ep];
    var i := Find(d, t);
    var rest := if i < |d| then Remove(d, i) else d;
    var r := Refill(rest, u.queued, accept);
    u.(eps := u.eps[t.ep := r.deque], queued := r.queue, dropped := u.dropped + r.dropped,
       completed := if i < |d| then u.completed + [Done(t, status)] else u.completed,
       inFlight := u.inFlight - |d| + |r.deque|)
  }

  function AllCancelled(q: seq<Transfer>): (ds: seq<Done>)
    ensures |ds| == |q| && forall i :: 0 <= i < |q| ==> ds[i] == Done(q[i], Cancelled)
  {
    seq(|q|, i requires 0 <= i < |q| => Done(q[i], Cancelled))
  }

  /** `cancelTransfers`: what is queued completes at once; what is in flight when libusb says so. */
  function Cancel(u: Usb): Usb {
    u.(queued := [], completed := u.completed + AllCancelled(u.queued))
  }

  /** The return of the completed transfer at position `i`, those in front of it rotated behind. */
  function ReturnAt(u: Usb, i: nat): Usb
    requires i < |u.completed|
  {
    u.(completed := u.completed[i + 1..] + u.completed[..i], returned := u.returned + [u.completed[i].t])
  }

  /** `pendingTransfers`. */
  function Pending(u: Usb): int {
    |u.queued| + u.inFlight + |u.completed|
  }

  // ---------------------------------------------------------------------------------------------
  // What every step keeps

  predicate Increasing(ts: seq<Transfer>) {
    forall i, j :: 0 <= i < j < |ts| ==> ts[i].token < ts[j].token
  }

  /** Everything the device holds or has let go of. */
  function Held(u: Usb): multiset<Transfer> {
    Flat(u.eps) + multiset(u.queued) + multiset(Transfers(u.completed)) + multiset(u.returned) + multiset(u.dropped)
  }

  /** Bounds and the counter... */
  predicate Counted(u: Usb) {
    && |u.eps| == ENDPOINTS && (forall e :: 0 <= e < ENDPOINTS ==> |u.eps[e]| <= MAX_IN_FLIGHT)
    && u.inFlight == Total(u.eps)
  }

  /** ...and tokens: those handed out are distinct, and each is in exactly one place. */
  predicate Conserved(u: Usb) {
    && Increasing(u.issued) && (forall i :: 0 <= i < |u.issued| ==> u.issued[i].token < u.next)
    && multiset(u.issued) == Held(u)
  }

  datatype Event =
    | SubmitEvent(ep: nat, valid: bool, accepted: bool)
    | CompleteEvent(t: Transfer, status: Status, accept: nat)
    | CancelEvent
    | ReturnEvent(at: nat)

  predicate Possible(u: Usb, e: Event) {
    match e
    case SubmitEvent(ep, _, _) => |u.eps| == ENDPOINTS && ep < ENDPOINTS
    case CompleteEvent(t, _, _) => |u.eps| == ENDPOINTS && t.ep < ENDPOINTS
    case CancelEvent => true
    case ReturnEvent(at) => at < |u.completed|
  }

  function Step(u: Usb, e: Event): Usb
    requires Possible(u, e)
  {
    match e
    case SubmitEvent(ep, valid, accepted) => Submit(u, ep, valid, accepted)
    case CompleteEvent(t, status, accept) => Complete(u, t, status, accept)
    case CancelEvent => Cancel(u)
    case ReturnEvent(at) => ReturnAt(u, at)
  }

  lemma {:induction false} IssuedNext(u: Usb, ep: nat)
    requires Increasing(u.issued) && forall i :: 0 <= i < |u.issued| ==> u.issued[i].token < u.next
    ensures var issued := u.issued + [Transfer(u.next, ep)];
            Increasing(issued) && forall i :: 0 <= i < |issued| ==> issued[i].token < u.next + 1
  {
  }

  lemma {:induction false} SubmitKeeps(u: Usb, ep: nat, valid: bool, accepted: bool)
    requires Counted(u) && Conserved(u) && ep < ENDPOINTS
    ensures var v := Submit(u, ep, valid, accepted); Counted(v) && Conserved(v)
  {
    hide Total, Flat, Transfers, Increasing, Held;
    TotalChanged(u.eps, ep, u.eps[ep] + [Transfer(u.next, ep)]);
    SubmitHeld(u, ep, valid, accepted);
    IssuedNext(u, ep);
  }

  /** What is handed out is held. */
  lemma {:induction false} SubmitHeld(u: Usb, ep: nat, valid: bool, accepted: bool)
    requires |u.eps| == ENDPOINTS && ep < ENDPOINTS && multiset(u.issued) == Held(u)
    ensures var v := Submit(u, ep, valid, accepted); multiset(v.issued) == Held(v)
  {
    var t := Transfer(u.next, ep);
    var d := u.eps[ep];
    hide Total, Flat, Transfers;
    FlatChanged(u.eps, ep, d + [t]);
    assert multiset(d + [t]) == multiset(d) + multiset{t}
        && multiset(u.queued + [t]) == multiset(u.queued) + multiset{t};
    assert multiset(u.issued + [t]) == multiset(u.issued) + multiset{t};
    OneMore(Flat(u.eps), multiset(d), multiset{t});
  }

  lemma {:induction false} OneMore<T>(flat: multiset<T>, d: multiset<T>, t: multiset<T>)
    requires d <= flat
    ensures flat - d + (d + t) == flat + t
  {
  }

  /** What a completion leaves of the deque before it is filled up. */
  function Rest(u: Usb, t: Transfer): (rest: seq<Transfer>)
    requires |u.eps| == ENDPOINTS && t.ep < ENDPOINTS
    ensures |rest| <= |u.eps[t.ep]|
    ensures multiset(u.eps[t.ep]) == multiset(rest) + if t in u.eps[t.ep] then multiset{t} else multiset{}
  {
    var d := u.eps[t.ep];
    var i := Find(d, t);
    if i < |d| then assert d == d[..i] + [t] + d[i + 1..]; Remove(d, i) else d
  }

  lemma {:induction false} CompleteParts(u: Usb, t: Transfer, status: Status, accept: nat)
    requires |u.eps| == ENDPOINTS && t.ep < ENDPOINTS
    ensures var r, found := Refill(Rest(u, t), u.queued, accept), t in u.eps[t.ep];
            Complete(u, t, status, accept) ==
              u.(eps := u.eps[t.ep := r.deque], queued := r.queue, dropped := u.dropped + r.dropped,
                 completed := if found then u.completed + [Done(t, status)] else u.completed,
                 inFlight := u.inFlight - |u.eps[t.ep]| + |r.deque|)
  {
    hide Refill;
  }

  lemma {:induction false} CompleteCounted(u: Usb, t: Transfer, status: Status, accept: nat)
    requires Counted(u) && t.ep < ENDPOINTS
    ensures Counted(Complete(u, t, status, accept))
  {
    CompleteParts(u, t, status, accept);
    var r := Refill(Rest(u, t), u.queued, accept);
    DequeChanged(u.eps, t.ep, r.deque);
    hide Total, Flat, Rest, Refill, Complete;
  }

  lemma {:induction false} CompleteConserved(u: Usb, t: Transfer, status: Status, accept: nat)
    requires Conserved(u) && |u.eps| == ENDPOINTS && t.ep < ENDPOINTS
    ensures Conserved(Complete(u, t, status, accept))
  {
    hide Total, Flat, Transfers, Rest, Refill, Complete, Increasing;
    CompleteParts(u, t, status, accept);
    HeldKept(u, t, status, accept);
  }

  lemma {:induction false} HeldKept(u: Usb, t: Transfer, status: Status, accept: nat)
    requires |u.eps| == ENDPOINTS && t.ep < ENDPOINTS
    ensures Held(Complete(u, t, status, accept)) == Held(u)
  {
    hide Total, Flat, Transfers, Rest, Refill, Complete;
    CompleteParts(u, t, status, accept);
    var d, rest := u.eps[t.ep], Rest(u, t);
    var r := Refill(rest, u.queued, accept);
    DequeChanged(u.eps, t.ep, r.deque);
    DoneSnoc(u.completed, Done(t, status));
    Threefold(r.deque, r.dropped, r.queue, rest, u.queued);
    var found := if t in d then multiset{t} else multiset{};
    var v := Complete(u, t, status, accept);
    assert multiset(Transfers(v.completed)) == multiset(Transfers(u.completed)) + found;
    Rebalance(Held(u), Flat(u.eps), multiset(d), multiset(rest), found, multiset(r.deque), multiset(u.queued),
              multiset(r.queue), multiset(Transfers(u.completed)), multiset(u.returned), multiset(u.dropped),
              multiset(r.dropped));
  }

  lemma {:induction false} Threefold<T>(a: seq<T>, b: seq<T>, c: seq<T>, d: seq<T>, e: seq<T>)
    requires a + b + c == d + e
    ensures multiset(a) + multiset(b) + multiset(c) == multiset(d) + multiset(e)
  {
    assert multiset(a + b + c) == multiset(a) + multiset(b) + multiset(c);
  }

  /** Moving transfers between the places keeps the sum. */
  lemma {:induction false} Rebalance<T>(all: multiset<T>, flat: multiset<T>, d: multiset<T>, rest: multiset<T>,
          found: multiset<T>, d2: multiset<T>, q: multiset<T>, q2: multiset<T>, c: multiset<T>, r: multiset<T>,
          x: multiset<T>, x2: multiset<T>)
    requires all == flat + q + c + r + x && d <= flat && d == rest + found && d2 + x2 + q2 == rest + q
    ensures all == (flat - d + d2) + q2 + (c + found) + r + (x + x2)
  {
    var others := flat - d;
    assert flat == others + d;
    assert all == others + found + (rest + q) + c + r + x;
  }

  lemma {:induction false} DoneSnoc(ds: seq<Done>, x: Done)
    ensures Transfers(ds + [x]) == Transfers(ds) + [x.t]
  {
  }

  lemma {:induction false} CancelKeeps(u: Usb)
    requires Counted(u) && Conserved(u)
    ensures var v := Cancel(u); Counted(v) && Conserved(v)
  {
    hide Total, Flat, Held, Increasing;
    CancelHeld(u);
  }

  lemma {:induction false} CancelHeld(u: Usb)
    ensures Held(Cancel(u)) == Held(u)
  {
    assert Transfers(u.completed + AllCancelled(u.queued)) == Transfers(u.completed) + u.queued;
    hide Total, Flat, Transfers;
    assert multiset(Transfers(u.completed) + u.queued) == multiset(Transfers(u.completed)) + multiset(u.queued);
    assert multiset(Cancel(u).queued) == multiset{};
  }

  lemma {:induction false} ReturnKeeps(u: Usb, i: nat)
    requires Counted(u) && Conserved(u) && i < |u.completed|
    ensures var v := ReturnAt(u, i); Counted(v) && Conserved(v)
  {
    hide Total, Flat;
    var c := Transfers(u.completed);
    assert Transfers(u.completed[i + 1..] + u.completed[..i]) == c[i + 1..] + c[..i];
    assert c == c[..i] + [c[i]] + c[i + 1..];
  }

  lemma {:induction false} CountedSize(u: Usb)
    requires Counted(u)
    ensures |u.eps| == ENDPOINTS
  {
  }

  /** Every step, on any number of endpoints and whatever libusb refuses, keeps the counter equal to
      the deque sizes, each deque within its bound, and every token in exactly one place. */
  lemma {:induction false} StepKeeps(u: Usb, e: Event)
    requires Counted(u) && Conserved(u) && Possible(u, e)
    ensures var v := Step(u, e); Counted(v) && Conserved(v)
  {
    hide Counted, Conserved, Submit, Complete, Cancel, ReturnAt;
    match e
    case SubmitEvent(ep, valid, accepted) => SubmitKeeps(u, ep, valid, accepted);
    case CompleteEvent(t, status, accept) =>
      CountedSize(u);
      CompleteCounted(u, t, status, accept);
      CompleteConserved(u, t, status, accept);
    case CancelEvent => CancelKeeps(u);
    case ReturnEvent(at) => ReturnKeeps(u, at);
  }

  /** The state after a run; events that cannot happen are left out of it. */
  function After(es: seq<Event>): Usb
    decreases |es|
  {
    if es == [] then Start()
    else
      var u := After(es[..|es| - 1]);
      if Possible(u, es[|es| - 1]) then Step(u, es[|es| - 1]) else u
  }

  lemma {:induction false} RunKeeps(es: seq<Event>)
    ensures Counted(After(es)) && Conserved(After(es))
    decreases |es|
  {
    if es == [] {
      EmptyDeques(Start().eps);
    } else {
      var u, e := After(es[..|es| - 1]), es[|es| - 1];
      RunKeeps(es[..|es| - 1]);
      hide Step, Counted, Conserved;
      if Possible(u, e) {
        StepKeeps(u, e);
      }
    }
  }

  lemma {:induction false} EmptyDeques(eps: seq<seq<Transfer>>)
    requires forall e :: 0 <= e < |eps| ==> eps[e] == []
    ensures Total(eps) == 0 && Flat(eps) == multiset{}
  {
    if eps != [] {
      EmptyDeques(eps[1..]);
    }
  }

  // ---------------------------------------------------------------------------------------------
  // One endpoint

  /** In flight and queued transfers stand in the order of their tokens, and nothing is queued while
      the deque has room. */
  predicate Ordered(u: Usb, ep: nat) {
    && |u.eps| == ENDPOINTS && ep < ENDPOINTS
    && (forall e :: 0 <= e < ENDPOINTS && e != ep ==> u.eps[e] == [])
    && (forall i :: 0 <= i < |u.eps[ep]| ==> u.eps[ep][i].ep == ep)
    && (forall i :: 0 <= i < |u.queued| ==> u.queued[i].ep == ep)
    && Increasing(u.eps[ep] + u.queued)
    && (forall i :: 0 <= i < |u.eps[ep] + u.queued| ==> (u.eps[ep] + u.queued)[i].token < u.next)
    && (u.queued != [] ==> |u.eps[ep]| == MAX_IN_FLIGHT)
    && u.dropped == []
  }

  /** Everything is for one endpoint, and libusb takes what it is offered. */
  predicate Accepting(u: Usb, e: Event, ep: nat) {
    match e
    case SubmitEvent(ep0, _, accepted) => ep0 == ep && accepted
    case CompleteEvent(t, _, accept) => t.ep == ep && accept >= |u.queued|
    case _ => true
  }

  lemma {:induction false} SubmitOrdered(u: Usb, ep: nat, valid: bool)
    requires Ordered(u, ep) && |u.eps[ep]| <= MAX_IN_FLIGHT
    ensures Ordered(Submit(u, ep, valid, true), ep)
  {
    var t := Transfer(u.next, ep);
    var s := u.eps[ep] + u.queued;
    assert Increasing(s + [t]);
    if |u.eps[ep]| < MAX_IN_FLIGHT {
      assert u.eps[ep] + [t] + [] == s + [t];
    } else {
      assert u.eps[ep] + (u.queued + [t]) == s + [t];
    }
  }

  lemma {:induction false} RemoveOrdered(s: seq<Transfer>, i: nat)
    requires i < |s| && Increasing(s)
    ensures Increasing(Remove(s, i))
    ensures forall x :: x in Remove(s, i) ==> x in s
  {
  }

  /** What is left of the deque and the queue behind it, in order and for the same endpoint. */
  lemma {:induction false} LineLeft(u: Usb, ep: nat, t: Transfer)
    requires Ordered(u, ep) && t.ep == ep
    ensures var after := Rest(u, t) + u.queued;
            && Increasing(after) && forall i :: 0 <= i < |after| ==> after[i].ep == ep && after[i].token < u.next
  {
    var line := u.eps[ep] + u.queued;
    LineOf(u, ep);
    RestLine(u, t);
    hide Find, Ordered, Increasing, Remove, Rest;
    if t in u.eps[ep] {
      RemoveOrdered(line, Find(u.eps[ep], t));
    }
    AllOf(Rest(u, t) + u.queued, line, ep, u.next);
  }

  lemma {:induction false} LineOf(u: Usb, ep: nat)
    requires Ordered(u, ep)
    ensures var line := u.eps[ep] + u.queued;
            Increasing(line) && forall x :: x in line ==> x.ep == ep && x.token < u.next
  {
    var d, line := u.eps[ep], u.eps[ep] + u.queued;
    forall i | 0 <= i < |line| ensures line[i].ep == ep {
      if i >= |d| {
        assert line[i] == u.queued[i - |d|];
      }
    }
  }

  lemma {:induction false} AllOf(after: seq<Transfer>, line: seq<Transfer>, ep: nat, next: nat)
    requires (forall x :: x in after ==> x in line) && forall x :: x in line ==> x.ep == ep && x.token < next
    ensures forall i :: 0 <= i < |after| ==> after[i].ep == ep && after[i].token < next
  {
    forall i | 0 <= i < |after| ensures after[i].ep == ep && after[i].token < next {
      assert after[i] in after;
    }
  }

  lemma {:induction false} RestLine(u: Usb, t: Transfer)
    requires |u.eps| == ENDPOINTS && t.ep < ENDPOINTS
    ensures var d := u.eps[t.ep];
            Rest(u, t) + u.queued == if t in d then Remove(d + u.queued, Find(d, t)) else d + u.queued
  {
    hide Find;
  }

  /** Completion removes one transfer from the line and keeps the rest in order. */
  lemma {:induction false} CompleteOrdered(u: Usb, ep: nat, t: Transfer, status: Status, accept: nat)
    requires Ordered(u, ep) && t.ep == ep && accept >= |u.queued|
    requires |u.eps[ep]| <= MAX_IN_FLIGHT
    ensures Ordered(Complete(u, t, status, accept), ep)
  {
    hide Rest, Refill, Complete, Increasing;
    CompleteParts(u, t, status, accept);
    LineLeft(u, ep, t);
    var rest := Rest(u, t);
    var r := Refill(rest, u.queued, accept);
    RefillLine(rest, u.queued, accept);
    Parts(rest + u.queued, r.deque, r.queue, ep);
  }

  /** Nothing dropped, the line is the same, and something is left only behind a full deque. */
  lemma {:induction false} RefillLine(d: seq<Transfer>, q: seq<Transfer>, accept: nat)
    requires |d| <= MAX_IN_FLIGHT && accept >= |q|
    ensures var r := Refill(d, q, accept);
            && r.deque + r.queue == d + q && r.dropped == [] && |r.deque| <= MAX_IN_FLIGHT
            && (r.queue != [] ==> |r.deque| == MAX_IN_FLIGHT)
  {
    var r := Refill(d, q, accept);
    hide Refill;
    assert r.deque + [] + r.queue == r.deque + r.queue;
  }

  lemma {:induction false} Parts(line: seq<Transfer>, d: seq<Transfer>, q: seq<Transfer>, ep: nat)
    requires line == d + q && forall i :: 0 <= i < |line| ==> line[i].ep == ep
    ensures forall i :: 0 <= i < |d| ==> d[i].ep == ep
    ensures forall i :: 0 <= i < |q| ==> q[i].ep == ep
  {
    forall i | 0 <= i < |d| ensures d[i].ep == ep {
      assert line[i] == d[i];
    }
    forall i | 0 <= i < |q| ensures q[i].ep == ep {
      assert line[|d| + i] == q[i];
    }
  }

  lemma {:induction false} StepOrdered(u: Usb, e: Event, ep: nat)
    requires Counted(u) && Ordered(u, ep) && Possible(u, e) && Accepting(u, e, ep)
    ensures Ordered(Step(u, e), ep)
  {
    match e
    case SubmitEvent(_, valid, _) =>
      hide Ordered, Submit;
      SubmitOrdered(u, ep, valid);
    case CompleteEvent(t, status, accept) =>
      hide Ordered, Complete;
      CompleteOrdered(u, ep, t, status, accept);
    case CancelEvent =>
      assert forall i, j :: 0 <= i < j < |u.eps[ep]| ==>
              (u.eps[ep] + u.queued)[i].token < (u.eps[ep] + u.queued)[j].token;
      assert u.eps[ep] + [] == u.eps[ep];
      assert forall i :: 0 <= i < |u.eps[ep]| ==> (u.eps[ep] + u.queued)[i] == u.eps[ep][i];
    case ReturnEvent(_) =>
  }

  /** A run on one endpoint in which libusb takes what it is offered. */
  predicate Willing(es: seq<Event>, ep: nat)
    decreases |es|
  {
    es == [] || (Willing(es[..|es| - 1], ep) && Accepting(After(es[..|es| - 1]), es[|es| - 1], ep))
  }

  /** In every such run, whatever the order of completions, the transfers in flight and queued are in
      the order they were issued, and the queue is used only while the deque is full. */
  lemma {:induction false} RunOrdered(es: seq<Event>, ep: nat)
    requires Willing(es, ep) && ep < ENDPOINTS
    ensures Ordered(After(es), ep)
    decreases |es|
  {
    if es != [] {
      var u, e := After(es[..|es| - 1]), es[|es| - 1];
      RunKeeps(es[..|es| - 1]);
      RunOrdered(es[..|es| - 1], ep);
      hide Step, Counted, Conserved, Ordered, Accepting;
      if Possible(u, e) {
        StepOrdered(u, e, ep);
      }
    }
  }

  // ---------------------------------------------------------------------------------------------
  // Several endpoints

  /** Every transfer in a deque is for that deque's endpoint. */
  predicate Homed(u: Usb) {
    forall e, i :: 0 <= e < |u.eps| && 0 <= i < |u.eps[e]| ==> u.eps[e][i].ep == e
  }

  /** How many queued transfers a completion takes: as many as there is room for, are queued, and are
      accepted by libusb. */
  function ToTake(u: Usb, t: Transfer, accept: nat): (k: nat)
    requires Counted(u) && t.ep < ENDPOINTS
    ensures k <= |u.queued|
  {
    var d := u.eps[t.ep];
    var room := MAX_IN_FLIGHT - |d| + if t in d then 1 else 0;
    Min(Min(room, |u.queued|), accept)
  }

  function Min(a: nat, b: nat): nat {
    if a <= b then a else b
  }

  /** The first `k` of the queue were taken, and the next was dropped if there was room for it. */
  predicate Takes(r: Refilled, d: seq<Transfer>, q: seq<Transfer>, k: nat) {
    && k <= |q| && r.deque == d + q[..k]
    && r.dropped == (if k < |q| && |d| + k < MAX_IN_FLIGHT then [q[k]] else [])
    && k + |r.dropped| <= |q| && r.queue == q[k + |r.dropped|..]
  }

  lemma {:induction false} TakesNext(r: Refilled, d: seq<Transfer>, q: seq<Transfer>, k: nat)
    requires k > 0 && q != [] && Takes(r, d + [q[0]], q[1..], k - 1)
    ensures Takes(r, d, q, k)
  {
    TakeOneMore(d, q, k);
    DropBehind(q, k - 1 + |r.dropped|);
  }

  lemma {:induction false} TakeOneMore<T>(d: seq<T>, q: seq<T>, k: nat)
    requires 0 < k <= |q|
    ensures d + [q[0]] + q[1..][..k - 1] == d + q[..k]
    ensures k < |q| ==> q[1..][k - 1] == q[k]
  {
  }

  lemma {:induction false} DropBehind<T>(q: seq<T>, n: nat)
    requires n < |q|
    ensures q[1..][n..] == q[n + 1..]
  {
  }

  /** Filling up takes a prefix of the queue, as long as there is room, and drops at most one more. */
  lemma {:induction false} RefillTakes(d: seq<Transfer>, q: seq<Transfer>, accept: nat)
    requires |d| <= MAX_IN_FLIGHT
    ensures Takes(Refill(d, q, accept), d, q, Min(Min(MAX_IN_FLIGHT - |d|, |q|), accept))
    decreases |q|
  {
    hide Refill, Takes, Min;
    if |d| < MAX_IN_FLIGHT && q != [] && accept > 0 {
      RefillNext(d, q, accept);
      RefillTakes(d + [q[0]], q[1..], accept - 1);
      TakesNext(Refill(d, q, accept), d, q, Min(Min(MAX_IN_FLIGHT - |d|, |q|), accept));
    } else {
      RefillStops(d, q, accept);
    }
  }

  lemma {:induction false} RefillStops(d: seq<Transfer>, q: seq<Transfer>, accept: nat)
    requires |d| == MAX_IN_FLIGHT || (|d| < MAX_IN_FLIGHT && (q == [] || accept == 0))
    ensures Takes(Refill(d, q, accept), d, q, Min(Min(MAX_IN_FLIGHT - |d|, |q|), accept))
  {
    assert d + q[..0] == d && q[0..] == q;
  }

  lemma {:induction false} RefillNext(d: seq<Transfer>, q: seq<Transfer>, accept: nat)
    requires |d| < MAX_IN_FLIGHT && q != [] && accept > 0
    ensures Refill(d, q, accept) == Refill(d + [q[0]], q[1..], accept - 1)
    ensures var k := Min(Min(MAX_IN_FLIGHT - |d|, |q|), accept);
            k > 0 && Min(Min(MAX_IN_FLIGHT - |d + [q[0]]|, |q[1..]|), accept - 1) == k - 1
  {
  }

  lemma {:induction false} RestSize(u: Usb, t: Transfer)
    requires |u.eps| == ENDPOINTS && t.ep < ENDPOINTS
    ensures |Rest(u, t)| == |u.eps[t.ep]| - if t in u.eps[t.ep] then 1 else 0
  {
    hide Find;
  }

  /** Deques stay homed through a completion exactly when the queued transfers it takes are for the
      endpoint that completed. */
  lemma {:induction false} HomedWhen(u: Usb, t: Transfer, status: Status, accept: nat)
    requires Counted(u) && t.ep < ENDPOINTS && Homed(u)
    ensures Homed(Complete(u, t, status, accept)) <==>
              forall i :: 0 <= i < ToTake(u, t, accept) ==> u.queued[i].ep == t.ep
  {
    hide Rest, Refill, Complete, ToTake, Takes;
    var rest, k := Rest(u, t), ToTake(u, t, accept);
    HomedAfter(u, t, status, accept);
    RestHomed(u, t);
    DequeHomed(u.eps, t.ep, rest, u.queued[..k]);
    TakenAre(u.queued, k, t.ep);
  }

  /** The deques behind a completion. */
  lemma {:induction false} HomedAfter(u: Usb, t: Transfer, status: Status, accept: nat)
    requires Counted(u) && t.ep < ENDPOINTS
    ensures Complete(u, t, status, accept).eps == u.eps[t.ep := Rest(u, t) + u.queued[..ToTake(u, t, accept)]]
  {
    hide Rest, Refill, Complete, Find;
    CompleteParts(u, t, status, accept);
    RestSize(u, t);
    RefillTakes(Rest(u, t), u.queued, accept);
  }

  lemma {:induction false} TakenAre(q: seq<Transfer>, k: nat, ep: nat)
    requires k <= |q|
    ensures (forall x :: x in q[..k] ==> x.ep == ep) <==> forall i :: 0 <= i < k ==> q[i].ep == ep
  {
    var taken := q[..k];
    if forall x :: x in taken ==> x.ep == ep {
      forall i | 0 <= i < k ensures q[i].ep == ep {
        assert taken[i] == q[i];
      }
    }
  }

  lemma {:induction false} RestHomed(u: Usb, t: Transfer)
    requires |u.eps| == ENDPOINTS && t.ep < ENDPOINTS && Homed(u)
    ensures forall x :: x in Rest(u, t) ==> x.ep == t.ep
  {
    hide Find;
  }

  predicate HomedDeques(eps: seq<seq<Transfer>>) {
    forall e, i :: 0 <= e < |eps| && 0 <= i < |eps[e]| ==> eps[e][i].ep == e
  }

  lemma {:induction false} DequeHomed(eps: seq<seq<Transfer>>, ep: nat, rest: seq<Transfer>, taken: seq<Transfer>)
    requires ep < |eps| && HomedDeques(eps) && forall x :: x in rest ==> x.ep == ep
    ensures HomedDeques(eps[ep := rest + taken]) <==> forall x :: x in taken ==> x.ep == ep
  {
    var after: seq<seq<Transfer>> := eps[ep := rest + taken];
    if HomedDeques(after) {
      forall x | x in taken ensures x.ep == ep {
        var k :| 0 <= k < |taken| && taken[k] == x;
        assert after[ep][|rest| + k] == x;
      }
    }
  }

  lemma {:induction false} IncreasingOnce(ts: seq<Transfer>, t: Transfer)
    requires Increasing(ts)
    ensures multiset(ts)[t] <= 1
  {
    if ts != [] {
      var n := |ts| - 1;
      IncreasingOnce(ts[..n], t);
      assert ts == ts[..n] + [ts[n]];
      forall i | 0 <= i < n ensures ts[..n][i] != ts[n] {
        assert ts[i].token < ts[n].token;
      }
    }
  }

  lemma {:induction false} InTwoDeques(eps: seq<seq<Transfer>>, e: nat, f: nat, t: Transfer)
    requires e < |eps| && f < |eps| && e != f && t in eps[e] && t in eps[f]
    ensures Flat(eps)[t] >= 2
  {
    DequeChanged(eps, e, []);
    var others: seq<seq<Transfer>> := eps[e := []];
    DequeChanged(others, f, []);
    hide Flat, Total;
    assert multiset(eps[e])[t] >= 1 && multiset(others[f])[t] >= 1;
  }

  lemma {:induction false} FlatOnce(u: Usb, t: Transfer)
    requires Conserved(u)
    ensures Flat(u.eps)[t] <= 1
  {
    IncreasingOnce(u.issued, t);
    hide Flat, Increasing, Transfers;
  }

  /** A transfer in flight is recognised when it completes exactly if it is filed under its own
      endpoint; filed elsewhere it stays in flight. */
  lemma {:induction false} RecognisedWhen(u: Usb, e: nat, i: nat, status: Status, accept: nat)
    requires Counted(u) && Conserved(u) && e < ENDPOINTS && i < |u.eps[e]| && u.eps[e][i].ep < ENDPOINTS
    ensures var t := u.eps[e][i];
            var v := Complete(u, t, status, accept);
            if t.ep == e then v.completed == u.completed + [Done(t, status)]
            else v.completed == u.completed && v.eps[e] == u.eps[e]
  {
    var t := u.eps[e][i];
    CompleteParts(u, t, status, accept);
    FlatOnce(u, t);
    if t.ep != e && t in u.eps[t.ep] {
      InTwoDeques(u.eps, e, t.ep, t);
      assert false;
    }
    hide Rest, Refill, Complete;
  }

  /** No submission finds its endpoint's deque full. */
  predicate Roomy(es: seq<Event>)
    decreases |es|
  {
    es == []
    || (Roomy(es[..|es| - 1])
        && var u, e := After(es[..|es| - 1]), es[|es| - 1];
           e.SubmitEvent? && Possible(u, e) ==> |u.eps[e.ep]| < MAX_IN_FLIGHT)
  }

  lemma {:induction false} StepTidy(u: Usb, e: Event)
    requires Counted(u) && Possible(u, e) && u.queued == [] && Homed(u)
    requires e.SubmitEvent? ==> |u.eps[e.ep]| < MAX_IN_FLIGHT
    ensures Step(u, e).queued == [] && Homed(Step(u, e))
  {
    match e
    case CompleteEvent(t, status, accept) =>
      hide Complete, Homed;
      HomedWhen(u, t, status, accept);
      CompleteParts(u, t, status, accept);
      hide Rest;
    case _ =>
  }

  /** As long as no endpoint is asked for more than its deque holds, on any number of endpoints: nothing
      is ever queued, every transfer is under its own endpoint, and the completion of every transfer
      in flight is recognised. */
  lemma {:induction false} RunTidy(es: seq<Event>)
    requires Roomy(es)
    ensures var u := After(es);
            && u.queued == [] && Homed(u) && |u.eps| == ENDPOINTS
            && forall e, i, status, accept :: 0 <= e < ENDPOINTS && 0 <= i < |u.eps[e]| ==>
                 Complete(u, u.eps[e][i], status, accept).completed == u.completed + [Done(u.eps[e][i], status)]
    decreases |es|
  {
    RunKeeps(es);
    if es != [] {
      var u, e := After(es[..|es| - 1]), es[|es| - 1];
      RunTidy(es[..|es| - 1]);
      RunKeeps(es[..|es| - 1]);
      hide Step, Counted, Conserved, Homed;
      if Possible(u, e) {
        StepTidy(u, e);
      }
    }
    AllRecognised(After(es));
  }

  lemma {:induction false} AllRecognised(u: Usb)
    requires Counted(u) && Conserved(u) && Homed(u)
    ensures forall e, i, status, accept :: 0 <= e < ENDPOINTS && 0 <= i < |u.eps[e]| ==>
              Complete(u, u.eps[e][i], status, accept).completed == u.completed + [Done(u.eps[e][i], status)]
  {
    hide Complete, Conserved;
    forall e, i, status, accept | 0 <= e < ENDPOINTS && 0 <= i < |u.eps[e]|
      ensures Complete(u, u.eps[e][i], status, accept).completed == u.completed + [Done(u.eps[e][i], status)]
    {
      RecognisedWhen(u, e, i, status, accept);
    }
  }

  /** `n` submissions to endpoint 1, and the tokens they get. */
  function Submits(n: nat): (es: seq<Event>)
    ensures |es| == n
  {
    if n == 0 then [] else Submits(n - 1) + [SubmitEvent(1, true, true)]
  }

  function Tokens(n: nat): (ts: seq<Transfer>)
    ensures |ts| == n
  {
    if n == 0 then [] else Tokens(n - 1) + [Transfer(n - 1, 1)]
  }

  lemma {:induction false} SubmitsRun(n: nat)
    requires n <= MAX_IN_FLIGHT
    ensures After(Submits(n)) == Usb(n, NoDeques(ENDPOINTS)[1 := Tokens(n)], [], [], n, Tokens(n), [], [])
  {
    if n == 0 {
      assert NoDeques(ENDPOINTS)[1 := []] == NoDeques(ENDPOINTS);
    } else {
      SubmitsRun(n - 1);
      AfterOne(Submits(n - 1), SubmitEvent(1, true, true));
      assert Submits(n) == Submits(n - 1) + [SubmitEvent(1, true, true)];
      assert Tokens(n) == Tokens(n - 1) + [Transfer(n - 1, 1)];
      hide After, NoDeques, Submits, Tokens, Submit;
      SubmitNext(NoDeques(ENDPOINTS), Tokens(n - 1), n - 1);
    }
  }

  lemma {:induction false} SubmitNext(eps: seq<seq<Transfer>>, ts: seq<Transfer>, n: nat)
    requires |eps| == ENDPOINTS && |ts| == n < MAX_IN_FLIGHT
    ensures Submit(Usb(n, eps[1 := ts], [], [], n, ts, [], []), 1, true, true)
         == var us := ts + [Transfer(n, 1)]; Usb(n + 1, eps[1 := us], [], [], n + 1, us, [], [])
  {
    Rewritten(eps, 1, ts, ts + [Transfer(n, 1)]);
  }

  lemma {:induction false} AfterOne(es: seq<Event>, e: Event)
    ensures After(es + [e]) == if Possible(After(es), e) then Step(After(es), e) else After(es)
  {
    hide Step, Possible;
    assert (es + [e])[..|es|] == es;
  }

  /** Endpoint 1 filled and asked for one more, then endpoint 2 asked for one. */
  function Crowd(): seq<Event> {
    Submits(MAX_IN_FLIGHT) + [SubmitEvent(1, true, true)] + [SubmitEvent(2, true, true)]
  }

  lemma {:induction false} CrowdRun()
    ensures var u := After(Crowd());
            |u.eps| == ENDPOINTS && u.queued == [Transfer(16, 1)] && u.eps[2] == [Transfer(17, 2)] && u.completed == []
  {
    var full := Submits(MAX_IN_FLIGHT);
    SubmitsRun(MAX_IN_FLIGHT);
    AfterOne(full, SubmitEvent(1, true, true));
    AfterOne(full + [SubmitEvent(1, true, true)], SubmitEvent(2, true, true));
    hide After, Submits, Tokens;
  }

  predicate Alone(u: Usb, e: nat, t: Transfer) {
    e < |u.eps| && u.eps[e] == [t]
  }

  /** The run in which it goes wrong: endpoint 2 completes, the transfer queued for endpoint 1 is filed
      under endpoint 2, and its own completion is not recognised. */
  lemma {:induction false} Misfiled()
    ensures var stuck := Transfer(16, 1);
            var es := Crowd() + [CompleteEvent(Transfer(17, 2), Completed, 1)];
            var after := After(es + [CompleteEvent(stuck, Completed, 1)]);
            Alone(After(es), 2, stuck) && Alone(after, 2, stuck) && after.completed == After(es).completed
  {
    var stuck, other := Transfer(16, 1), Transfer(17, 2);
    var es := Crowd() + [CompleteEvent(other, Completed, 1)];
    MisfiledFirst();
    hide After, Crowd, Complete, Conserved, Counted;
    AfterOne(es, CompleteEvent(stuck, Completed, 1));
    RunKeeps(es);
    RunSize(es);
    RecognisedWhen(After(es), 2, 0, Completed, 1);
  }

  lemma {:induction false} RunSize(es: seq<Event>)
    ensures |After(es).eps| == ENDPOINTS
  {
    RunKeeps(es);
    hide After, Conserved;
  }

  lemma {:induction false} MisfiledFirst()
    ensures Alone(After(Crowd() + [CompleteEvent(Transfer(17, 2), Completed, 1)]), 2, Transfer(16, 1))
  {
    hide After, Crowd, Complete;
    CrowdRun();
    AfterOne(Crowd(), CompleteEvent(Transfer(17, 2), Completed, 1));
    CompletesOther(After(Crowd()), Transfer(16, 1), Transfer(17, 2));
  }

  lemma {:induction false} CompletesOther(u: Usb, stuck: Transfer, other: Transfer)
    requires |u.eps| == ENDPOINTS && u.queued == [stuck] && u.eps[2] == [other] && other.ep == 2
    ensures var v := Complete(u, other, Completed, 1);
            |v.eps| == ENDPOINTS && v.eps[2] == [stuck] && v.completed == u.completed + [Done(other, Completed)]
  {
    assert Find([other], other) == 0;
    assert Remove([other], 0) == [];
    assert Refill([], [stuck], 1) == Refilled([stuck], [], []);
  }

  // ---------------------------------------------------------------------------------------------
  // The count of pending transfers

  /** Cancelling completes what is queued, in order and as cancelled, and loses none; what is in flight
      stays so until libusb calls back. */
  lemma {:induction false} CancelPending(u: Usb)
    ensures var v, n := Cancel(u), |u.completed|;
            && Pending(v) == Pending(u) && v.queued == [] && v.eps == u.eps && v.inFlight == u.inFlight
            && |v.completed| == n + |u.queued| && v.completed[..n] == u.completed
            && forall i :: n <= i < |v.completed| ==> v.completed[i] == Done(u.queued[i - n], Cancelled)
  {
  }

  lemma {:induction false} FlatSize(eps: seq<seq<Transfer>>)
    ensures |Flat(eps)| == Total(eps)
  {
    if eps != [] {
      FlatSize(eps[1..]);
    }
  }

  /** The count is of the transfers handed out that were neither returned nor dropped. */
  lemma {:induction false} PendingMeans(u: Usb)
    requires Counted(u) && Conserved(u)
    ensures Pending(u) == |u.issued| - |u.returned| - |u.dropped|
  {
    FlatSize(u.eps);
    hide Flat, Total, Increasing, Transfers;
    assert |multiset(u.issued)| == |u.issued|;
  }

  /** Handing one out takes exactly one off the count; a completion leaves it, or lowers it by the
      transfer libusb refused. */
  lemma {:induction false} PendingFalls(u: Usb, e: Event)
    requires Possible(u, e) && !e.SubmitEvent?
    ensures Pending(Step(u, e)) == Pending(u) - (if e.ReturnEvent? then 1 else |Step(u, e).dropped| - |u.dropped|)
  {
    match e
    case CompleteEvent(t, status, accept) =>
      var d := u.eps[t.ep];
      var i := Find(d, t);
      var rest := if i < |d| then Remove(d, i) else d;
      var r := Refill(rest, u.queued, accept);
      hide Find, Refill;
      assert |r.deque + r.dropped + r.queue| == |rest + u.queued|;
    case CancelEvent =>
    case ReturnEvent(_) =>
  }

  // ---------------------------------------------------------------------------------------------
  // The device

  /** A completion in its two halves: the move, and the filling up. */
  function Moved(u: Usb, cb: Callback): (v: Usb)
    requires |u.eps| == ENDPOINTS && cb.t.ep < ENDPOINTS
    ensures |v.eps| == ENDPOINTS
  {
    if cb.t in u.eps[cb.t.ep] then
      u.(eps := u.eps[cb.t.ep := Rest(u, cb.t)], completed := u.completed + [Done(cb.t, cb.status)],
              inFlight := u.inFlight - 1)
    else u
  }

  function Filled(u: Usb, ep: nat, accept: nat): Usb
    requires |u.eps| == ENDPOINTS && ep < ENDPOINTS
  {
    var r := Refill(u.eps[ep], u.queued, accept);
    u.(eps := u.eps[ep := r.deque], queued := r.queue, dropped := u.dropped + r.dropped,
       inFlight := u.inFlight - |u.eps[ep]| + |r.deque|)
  }

  /** One turn of the loop. */
  function TakeOne(u: Usb, ep: nat): (v: Usb)
    requires u.queued != [] && ep < |u.eps|
    ensures |v.eps| == |u.eps| && v.queued == u.queued[1..]
  {
    u.(queued := u.queued[1..], eps := u.eps[ep := u.eps[ep] + [u.queued[0]]], inFlight := u.inFlight + 1)
  }

  function DropOne(u: Usb): Usb
    requires u.queued != []
  {
    u.(queued := u.queued[1..], dropped := u.dropped + [u.queued[0]])
  }

  lemma {:induction false} FilledIs(u: Usb, ep: nat, left: nat)
    requires |u.eps| == ENDPOINTS && ep < ENDPOINTS
    ensures Filled(u, ep, left) ==
              if |u.eps[ep]| >= MAX_IN_FLIGHT || u.queued == [] then u
              else if left == 0 then DropOne(u) else Filled(TakeOne(u, ep), ep, left - 1)
  {
    if |u.eps[ep]| >= MAX_IN_FLIGHT || u.queued == [] || left == 0 {
      assert u.eps[ep := u.eps[ep]] == u.eps && u.dropped + [] == u.dropped;
    } else {
      var d := u.eps[ep] + [u.queued[0]];
      Rewritten(u.eps, ep, d, Refill(d, u.queued[1..], left - 1).deque);
    }
  }

  lemma {:induction false} CompleteInTwo(u: Usb, cb: Callback)
    requires |u.eps| == ENDPOINTS && cb.t.ep < ENDPOINTS
    ensures Complete(u, cb.t, cb.status, cb.accept) == Filled(Moved(u, cb), cb.t.ep, cb.accept)
  {
    var d, rest := u.eps[cb.t.ep], Rest(u, cb.t);
    var r := Refill(rest, u.queued, cb.accept);
    CompleteParts(u, cb.t, cb.status, cb.accept);
    Rewritten(u.eps, cb.t.ep, rest, r.deque);
    if cb.t !in d {
      assert rest == d;
    }
    hide Refill, Complete, Find;
  }

  /** A completion callback of libusb, and how many of the submissions it triggers are taken. */
  datatype Callback = Callback(t: Transfer, status: Status, accept: nat)

  class Device {
    var nextToken: nat
    var epInFlight: seq<seq<Transfer>>
    var queued: seq<Transfer>
    var completed: seq<Done>
    var inFlight: int
    ghost var issued: seq<Transfer>
    ghost var returned: seq<Transfer>
    ghost var dropped: seq<Transfer>

    ghost function Abs(): Usb
      reads this
    {
      Usb(nextToken, epInFlight, queued, completed, inFlight, issued, returned, dropped)
    }

    ghost predicate Valid()
      reads this
    {
      Counted(Abs()) && Conserved(Abs())
    }

    constructor ()
      ensures Valid() && Abs() == Start()
    {
      nextToken, epInFlight, queued, completed, inFlight := 0, NoDeques(ENDPOINTS), [], [], 0;
      issued, returned, dropped := [], [], [];
      new;
      RunKeeps([]);
    }

    method PendingTransfers() returns (n: int)
      requires Valid()
      ensures n == |issued| - |returned| - |dropped| == Pending(Abs()) >= 0
    {
      PendingMeans(Abs());
      hide Conserved;
      n := |queued| + inFlight + |completed|;
    }

    method CancelTransfers()
      requires Valid()
      modifies this`queued, this`completed
      ensures Valid() && Abs() == Cancel(old(Abs()))
    {
      CancelKeeps(Abs());
      hide Counted, Conserved, CancelledTo, AllCancelled;
      ghost var u, i: nat := Abs(), 0;
      CancelledNone(u);
      while queued != []
        invariant i <= |u.queued| && queued == u.queued[i..] && CancelledTo(u, i, completed)
        decreases |queued|
      {
        var t := queued[0];
        queued := queued[1..];
        completed := completed + [Done(t, Cancelled)];
        i := i + 1;
        CancelledNext(u, i - 1, completed);
      }
      CancelledAll(u, completed);
    }

    /** -1 stands for the exceptions. */
    method SubmitTransfer(ep: nat, valid: bool, accepted: bool) returns (token: int)
      requires Valid() && ep < ENDPOINTS
      modifies this
      ensures Valid() && Abs() == Submit(old(Abs()), ep, valid, accepted)
      ensures token == (if |issued| == |old(issued)| then -1 else old(nextToken)) && nextToken == old(nextToken) + 1
      ensures |issued| == |old(issued)| <==> !valid || (!accepted && |old(epInFlight)[ep]| < MAX_IN_FLIGHT)
    {
      hide Counted, Conserved, Transfers;
      SubmitKeeps(Abs(), ep, valid, accepted);
      CountedSize(Abs());
      var t := Transfer(nextToken, ep);
      nextToken := nextToken + 1;
      if !valid {
        return -1;
      }
      if |epInFlight[ep]| < MAX_IN_FLIGHT {
        if !accepted {
          return -1;
        }
        epInFlight := epInFlight[ep := epInFlight[ep] + [t]];
        inFlight := inFlight + 1;
      } else {
        queued := queued + [t];
      }
      issued := issued + [t];
      return t.token;
    }

    method TransferComplete(cb: Callback)
      requires Valid() && cb.t.ep < ENDPOINTS
      modifies this
      ensures Valid() && Abs() == Complete(old(Abs()), cb.t, cb.status, cb.accept)
    {
      ghost var u := Abs();
      CompleteInTwo(u, cb);
      CompleteCounted(u, cb.t, cb.status, cb.accept);
      CompleteConserved(u, cb.t, cb.status, cb.accept);
      hide Counted, Conserved, Complete, Moved, Filled, Find;
      var tx := FindTransfer(epInFlight[cb.t.ep], cb.t);
      MoveToCompleted(cb, tx);
      SubmitMore(cb.t.ep, cb.accept);
    }

    /** The search keeps the last match. */
    method FindTransfer(d: seq<Transfer>, t: Transfer) returns (tx: nat)
      ensures tx == Find(d, t)
    {
      tx := |d|;
      for i := 0 to |d|
        invariant tx == if Find(d[..i], t) < i then Find(d[..i], t) else |d|
      {
        assert d[..i + 1][..i] == d[..i];
        if d[i] == t {
          tx := i;
        }
      }
      assert d[..|d|] == d;
    }

    method MoveToCompleted(cb: Callback, tx: nat)
      requires |epInFlight| == ENDPOINTS && cb.t.ep < ENDPOINTS && tx == Find(epInFlight[cb.t.ep], cb.t)
      modifies this`completed, this`epInFlight, this`inFlight
      ensures Abs() == Moved(old(Abs()), cb)
    {
      var d := epInFlight[cb.t.ep];
      if tx < |d| {
        completed := completed + [Done(d[tx], cb.status)];
        epInFlight := epInFlight[cb.t.ep := d[..tx] + d[tx + 1..]];
        inFlight := inFlight - 1;
      }
    }

    /** The loop that fills the deque up from the queue. */
    method SubmitMore(ep: nat, accept: nat)
      requires |epInFlight| == ENDPOINTS && ep < ENDPOINTS
      modifies this`queued, this`epInFlight, this`inFlight, this`dropped
      ensures Abs() == Filled(old(Abs()), ep, accept)
    {
      hide Filled, TakeOne, DropOne;
      var left := accept;
      while |epInFlight[ep]| < MAX_IN_FLIGHT && queued != []
        invariant |epInFlight| == ENDPOINTS
        invariant Filled(Abs(), ep, left) == Filled(old(Abs()), ep, accept)
        decreases |queued|
      {
        FilledIs(Abs(), ep, left);
        if left == 0 {
          DropFirst();
          return;
        }
        TakeFirst(ep);
        left := left - 1;
      }
      FilledIs(Abs(), ep, left);
    }

    /** A queued transfer that libusb takes. */
    method TakeFirst(ep: nat)
      requires queued != [] && ep < |epInFlight|
      modifies this`queued, this`epInFlight, this`inFlight
      ensures Abs() == TakeOne(old(Abs()), ep)
    {
      var t := queued[0];
      queued := queued[1..];
      epInFlight := epInFlight[ep := epInFlight[ep] + [t]];
      inFlight := inFlight + 1;
    }

    /** And one that it refuses. */
    method DropFirst()
      requires queued != []
      modifies this`queued, this`dropped
      ensures Abs() == DropOne(old(Abs()))
    {
      var t := queued[0];
      queued := queued[1..];
      dropped := dropped + [t];
    }

    /** One locked pass of `completeTransfer_forToken`: a miss rotates the queue all the way round, a
        hit takes out the first transfer with the token and leaves those in front of it behind. */
    method RotateFor(token: nat) returns (hit: bool)
      requires Valid()
      modifies this`completed, this`returned
      ensures Valid()
      ensures !hit ==> unchanged(this) && forall i :: 0 <= i < |completed| ==> completed[i].t.token != token
      ensures hit ==> exists k :: FirstWith(old(completed), token, k) && Abs() == ReturnAt(old(Abs()), k)
    {
      hide Counted, Conserved, Turned, ReturnAt;
      ghost var was := completed;
      TurnStart(was);
      for i := 0 to |completed|
        invariant |completed| == |was| && Turned(was, i, completed) && returned == old(returned)
        invariant forall j :: 0 <= j < i ==> was[j].t.token != token
      {
        TurnNext(was, i, completed);
        var transfer := completed[0];
        completed := completed[1..];
        if transfer.t.token == token {
          ReturnKeeps(old(Abs()), i);
          returned := returned + [transfer.t];
          ReturnIs(old(Abs()), i, Abs());
          assert FirstWith(was, token, i) && Abs() == ReturnAt(old(Abs()), i);
          return true;
        }
        completed := completed + [transfer];
      }
      TurnEnd(was, completed);
      hit := false;
    }

    /** `completeTransfer`: waits for libusb's callbacks, which come in as a list, until something is
        completed, and returns the first; -1 when there is nothing to wait for, and -2 when the
        callbacks given run out before. */
    method CompleteTransfer(callbacks: seq<Callback>) returns (token: int, left: seq<Callback>)
      requires Valid() && forall i :: 0 <= i < |callbacks| ==> callbacks[i].t.ep < ENDPOINTS
      modifies this
      ensures Valid() && |left| <= |callbacks| && left == callbacks[|callbacks| - |left|..]
      ensures token == -1 <==> old(completed) == [] && old(inFlight) == 0
      ensures old(completed) != [] ==>
                Abs() == ReturnAt(old(Abs()), 0) && token == old(completed)[0].t.token && left == callbacks
      ensures token < 0 ==> completed == []
      ensures token == -1 ==> Abs() == old(Abs())
      ensures token >= 0 ==> Pending(Abs()) < old(Pending(Abs())) && |returned| == |old(returned)| + 1
                             && returned[|returned| - 1].token == token
      ensures token == -2 ==> left == []
      ensures Pending(Abs()) <= old(Pending(Abs()))
      ensures token >= -2
    {
      hide Counted, Conserved;
      left := callbacks;
      if completed == [] && inFlight == 0 {
        return -1, left;
      }
      left := AwaitCompleted(callbacks);
      if completed == [] {
        return -2, left;
      }
      token := PopCompleted();
    }

    method PopCompleted() returns (token: nat)
      requires Valid() && completed != []
      modifies this`completed, this`returned
      ensures Valid() && Abs() == ReturnAt(old(Abs()), 0) && token == old(completed[0].t.token)
    {
      ReturnKeeps(Abs(), 0);
      hide Counted, Conserved;
      var transfer := completed[0];
      completed, returned := completed[1..], returned + [transfer.t];
      Kept(completed);
      return transfer.t.token;
    }

    /** The wait loop. */
    method AwaitCompleted(callbacks: seq<Callback>) returns (left: seq<Callback>)
      requires Valid() && forall i :: 0 <= i < |callbacks| ==> callbacks[i].t.ep < ENDPOINTS
      modifies this
      ensures Valid() && |left| <= |callbacks| && left == callbacks[|callbacks| - |left|..]
      ensures Pending(Abs()) <= old(Pending(Abs())) && returned == old(returned)
      ensures completed == [] ==> left == []
      ensures old(completed) != [] ==> Abs() == old(Abs()) && left == callbacks
    {
      hide Counted, Conserved, Complete, Pending;
      left := callbacks;
      while completed == [] && left != []
        invariant Valid() && |left| <= |callbacks| && left == callbacks[|callbacks| - |left|..]
        invariant Pending(Abs()) <= old(Pending(Abs())) && returned == old(returned)
        invariant old(completed) != [] ==> Abs() == old(Abs()) && left == callbacks
        decreases |left|
      {
        PendingNotMore(Abs(), left[0]);
        TransferComplete(left[0]);
        left := left[1..];
      }
    }
  }

  /** The drain loop of `detachDevice`: it ends, and unless libusb stops calling back it ends with
      nothing completed and nothing in flight. */
  method Drain(dev: Device, callbacks: seq<Callback>) returns (left: seq<Callback>)
    requires dev.Valid() && forall i :: 0 <= i < |callbacks| ==> callbacks[i].t.ep < ENDPOINTS
    modifies dev
    ensures dev.Valid() && dev.completed == []
    ensures left != [] ==> dev.inFlight == 0
    ensures Pending(dev.Abs()) <= old(Pending(dev.Abs()))
  {
    hide Counted, Conserved, Pending;
    left := callbacks;
    var n := dev.PendingTransfers();
    if n == 0 {
      NonePending(dev.Abs());
    }
    while n > 0
      invariant dev.Valid() && n == Pending(dev.Abs()) >= 0 && n <= old(Pending(dev.Abs()))
      invariant forall i :: 0 <= i < |left| ==> left[i].t.ep < ENDPOINTS
      invariant n == 0 ==> dev.completed == [] && dev.inFlight == 0
      decreases n
    {
      var token;
      token, left := dev.CompleteTransfer(left);
      if token < 0 {
        return;
      }
      n := dev.PendingTransfers();
      if n == 0 {
        NonePending(dev.Abs());
      }
    }
  }

  lemma {:induction false} NonePending(u: Usb)
    requires Counted(u) && Pending(u) == 0
    ensures u.completed == [] && u.inFlight == 0 && u.queued == []
  {
  }

  /** On one endpoint that leaves nothing at all. */
  lemma {:induction false} OrderedDrained(u: Usb, ep: nat)
    requires Counted(u) && Ordered(u, ep) && u.completed == [] && u.inFlight == 0
    ensures Pending(u) == 0
  {
    assert ep < |u.eps|;
    hide Total, Ordered;
    TotalChanged(u.eps, ep, []);
    QueueBehind(u, ep);
  }

  lemma {:induction false} QueueBehind(u: Usb, ep: nat)
    requires Ordered(u, ep)
    ensures u.queued == [] || u.eps[ep] != []
  {
  }

  /** The completed queue after `i` queued transfers were moved behind it. */
  predicate CancelledTo(u: Usb, i: nat, completed: seq<Done>) {
    i <= |u.queued| && completed == u.completed + AllCancelled(u.queued)[..i]
  }

  lemma {:induction false} CancelledNone(u: Usb)
    ensures CancelledTo(u, 0, u.completed)
  {
  }

  lemma {:induction false} CancelledNext(u: Usb, i: nat, completed: seq<Done>)
    requires i < |u.queued| && completed != [] && CancelledTo(u, i, completed[..|completed| - 1])
    requires completed[|completed| - 1] == Done(u.queued[i], Cancelled)
    ensures CancelledTo(u, i + 1, completed)
  {
    var all := AllCancelled(u.queued);
    assert all[..i + 1] == all[..i] + [all[i]];
    assert completed == completed[..|completed| - 1] + [all[i]];
  }

  lemma {:induction false} CancelledAll(u: Usb, completed: seq<Done>)
    requires CancelledTo(u, |u.queued|, completed)
    ensures completed == u.completed + AllCancelled(u.queued)
  {
    assert AllCancelled(u.queued)[..|u.queued|] == AllCancelled(u.queued);
  }

  /** A queue rotated by `i`. */
  predicate Turned(s: seq<Done>, i: nat, r: seq<Done>) {
    i <= |s| && r == s[i..] + s[..i]
  }

  lemma {:induction false} TurnStart(s: seq<Done>)
    ensures Turned(s, 0, s)
  {
  }

  lemma {:induction false} TurnNext(s: seq<Done>, i: nat, r: seq<Done>)
    requires Turned(s, i, r) && i < |s|
    ensures |r| == |s| && r[0] == s[i] && r[1..] == s[i + 1..] + s[..i] && Turned(s, i + 1, r[1..] + [r[0]])
  {
  }

  lemma {:induction false} TurnEnd(s: seq<Done>, r: seq<Done>)
    requires Turned(s, |s|, r)
    ensures r == s
  {
  }

  lemma {:induction false} ReturnIs(u: Usb, i: nat, v: Usb)
    requires i < |u.completed|
    requires v == u.(completed := u.completed[i + 1..] + u.completed[..i], returned := u.returned + [u.completed[i].t])
    ensures v == ReturnAt(u, i)
  {
  }

  lemma {:induction false} Rewritten<T>(s: seq<T>, i: nat, a: T, b: T)
    requires i < |s|
    ensures s[i := a][i := b] == s[i := b]
  {
  }

  lemma {:induction false} Kept<T>(s: seq<T>)
    ensures s + [] == s
  {
  }

  predicate FirstWith(ds: seq<Done>, token: nat, k: nat) {
    k < |ds| && ds[k].t.token == token && forall j :: 0 <= j < k ==> ds[j].t.token != token
  }

  lemma {:induction false} PendingNotMore(u: Usb, cb: Callback)
    requires Counted(u) && cb.t.ep < ENDPOINTS
    ensures var v := Complete(u, cb.t, cb.status, cb.accept); Pending(v) <= Pending(u) && v.returned == u.returned
  {
    PendingFalls(u, CompleteEvent(cb.t, cb.status, cb.accept));
    CompleteParts(u, cb.t, cb.status, cb.accept);
    hide Refill, Complete;
  }
}
