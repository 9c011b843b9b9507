/** A batch through both programs: the client's frame, the server's parser and command loop, the
    reply frame, and the client's matching.
 */
module EndToEnd {
  import opened Bytes
  import Varint
  import opened Fields
  import opened CswpBuffer
  import opened Commands
  import opened DummyServer
  import opened Responses
  import opened Matching

  function Types(cs: seq<Command>): (ts: seq<u64>)
    ensures |ts| == |cs|
  {
    if cs == [] then [] else [Type(cs[0])] + Types(cs[1..])
  }

  function Encs(infos: seq<Info>): (ts: seq<int>)
    ensures |ts| == |infos|
  {
    if infos == [] then [] else [infos[0].cmdEnc] + Encs(infos[1..])
  }

  lemma {:induction false} TypesAt(cs: seq<Command>, i: nat)
    requires i < |cs|
    ensures Types(cs)[i] == Type(cs[i])
  {
    hide Type;
    if i > 0 {
      TypesAt(cs[1..], i - 1);
    }
  }

  /** The types the server runs are those of the commands. */
  lemma {:induction false} EncsAreTypes(cs: seq<Command>, at: nat)
    requires forall i :: 0 <= i < |cs| ==> Sized(cs[i])
    ensures Encs(InfosOf(cs, at)) == Types(cs)
  {
    hide Sized, Type, HeadArgs, Args, ApNum, CommandBytes;
    if cs != [] {
      EncsAreTypes(cs[1..], at + |CommandBytes(cs[0])|);
      var infos := InfosOf(cs, at);
      assert infos[1..] == InfosOf(cs[1..], at + |CommandBytes(cs[0])|);
    }
  }

  /** An `int` code survives its trip through a varint. */
  lemma {:induction false} CodeReturns(code: int)
    requires -TWO31 <= code < TWO31
    ensures Int32(ToU64(code)) == code
  {
  }

  /** A call the client makes: what it sends, what it waits for, and what the server's handler
      will do with it. */
  datatype Exchange = Exchange(c: Command, complete: Handler, h: Handled)

  /** A handler that succeeds answers with a body the client can take. */
  ghost predicate Proper(x: Exchange) {
    && Sized(x.c) && Small(x.c) && HandlerOk(x.complete) && CodeOk(x.h)
    && (x.h.Added? ==> Fits(x.complete, x.h.body))
  }

  ghost predicate AllProper(xs: seq<Exchange>) {
    forall i :: 0 <= i < |xs| ==> Proper(xs[i])
  }

  function CommandsOf(xs: seq<Exchange>): (cs: seq<Command>)
    ensures |cs| == |xs| && forall i :: 0 <= i < |xs| ==> cs[i] == xs[i].c
    ensures AllProper(xs) ==> forall i :: 0 <= i < |cs| ==> Sized(cs[i]) && Small(cs[i])
  {
    if xs == [] then [] else [xs[0].c] + CommandsOf(xs[1..])
  }

  function PendingOf(xs: seq<Exchange>): (ps: seq<Pending>)
    ensures |ps| == |xs| && forall i :: 0 <= i < |xs| ==> ps[i] == Pending(Type(xs[i].c), xs[i].complete)
  {
    if xs == [] then [] else [Pending(Type(xs[0].c), xs[0].complete)] + PendingOf(xs[1..])
  }

  function HandledOf(xs: seq<Exchange>): (hs: seq<Handled>)
    ensures |hs| == |xs| && forall i :: 0 <= i < |xs| ==> hs[i] == xs[i].h
    ensures AllProper(xs) ==> forall i :: 0 <= i < |hs| ==> CodeOk(hs[i])
  {
    if xs == [] then [] else [xs[0].h] + HandledOf(xs[1..])
  }

  /** What the server answers to the bytes it receives, when its handlers do `hs` in turn. */
  function Serve(d: seq<byte>, hs: seq<Handled>): Option<seq<Response>>
    requires forall i :: 0 <= i < |hs| ==> CodeOk(hs[i])
  {
    var req := Parse(d);
    if req.None? then None
    else
      var ts := Encs(req.value.infos);
      if |ts| != |hs| || exists i :: 0 <= i < |ts| && !(0 <= ts[i] < TWO64) then None
      else Some(Run(req.value.errorMode, ts, hs, false))
  }

  lemma {:induction false} ServeFrame(mode: byte, xs: seq<Exchange>)
    requires AllProper(xs)
    requires |xs| < TWO31 && |Frame(mode, CommandsOf(xs))| < TWO32
    ensures Serve(Frame(mode, CommandsOf(xs)), HandledOf(xs)) == Some(Run(mode, Types(CommandsOf(xs)), HandledOf(xs),
            false))
  {
    hide Type, Sized, Small, HandlerOk, CodeOk, Fits, Parse, InfosOf, Frame, Run, Encs;
    var cs := CommandsOf(xs);
    ParseFrame(mode, cs, []);
    assert Frame(mode, cs) + [] == Frame(mode, cs);
    EncsAreTypes(cs, 4 + |Varint.Encode(|cs|)| + 1);
    var req := Parse(Frame(mode, cs)).value;
    var ts: seq<u64> := Types(cs);
    assert Encs(req.infos) == ts;
  }

  /** `k` is the position of the first command that fails or is a TERM, or the number of commands. */
  ghost predicate FirstStop(xs: seq<Exchange>, k: nat) {
    && k <= |xs| && (k < |xs| ==> xs[k].h.Failed? || xs[k].c.Term?)
    && forall i :: 0 <= i < k ==> xs[i].h.Added? && !xs[i].c.Term?
  }

  /** Commands that succeed: those in front of the stop, and a TERM that is one. */
  function Succeeded(xs: seq<Exchange>, k: nat): (n: nat)
    requires k <= |xs|
    ensures k <= n <= |xs| && n <= k + 1
  {
    if k < |xs| && xs[k].h.Added? then k + 1 else k
  }

  /** The result: the failure's code; behind a TERM, that of a cancelled command. */
  function ResultOf(xs: seq<Exchange>, k: nat): int
    requires k <= |xs|
  {
    if k < |xs| && xs[k].h.Failed? then xs[k].h.code
    else if Succeeded(xs, k) < |xs| then CSWP_CANCELLED
    else CSWP_SUCCESS
  }

  /** One handler's response is accepted when it succeeds and refused with its code when it fails. */
  lemma {:induction false} Answer(x: Exchange, behind: seq<Response>)
    requires Proper(x)
    ensures var p, r := Pending(Type(x.c), x.complete), RespondTo(Type(x.c), x.h);
            if x.h.Added? then Accepts(p, r) && r.body == x.h.body
            else Refuses(p, r, AllResponses(behind), x.h.code)
  {
    NotTooLong(behind);
    hide Type, Sized, Small, HandlerOk, Fits, AllResponses, Varint.ClientRead;
    if x.h.Failed? {
      CodeReturns(x.h.code);
      assert [] + AllResponses(behind) == AllResponses(behind);
    }
  }

  lemma {:induction false} CancelledRefused(p: Pending, behind: seq<Response>)
    ensures Refuses(p, Response(p.typ, CSWP_CANCELLED, NoBody), AllResponses(behind), CSWP_CANCELLED)
  {
    NotTooLong(behind);
    hide AllResponses, Varint.ClientRead;
    assert [] + AllResponses(behind) == AllResponses(behind);
  }

  /** Responses to a run whose first stop is number `k`. */
  lemma {:induction false} Answers(mode: byte, xs: seq<Exchange>, k: nat, i: nat)
    requires AllProper(xs) && (mode != 0 || |xs| <= 1) && FirstStop(xs, k) && i < |xs|
    ensures Run(mode, Types(CommandsOf(xs)), HandledOf(xs), false)[i] ==
              if i <= k then RespondTo(Type(xs[i].c), xs[i].h) else Response(Type(xs[i].c), CSWP_CANCELLED, NoBody)
  {
    hide Proper, Run, RespondTo, CodeOk, Sized, Small;
    TermsAre(xs);
    TypesAt(CommandsOf(xs), i);
    hide Type;
    RunToStop(mode, Types(CommandsOf(xs)), HandledOf(xs), k, i);
  }

  lemma {:induction false} TermsAre(xs: seq<Exchange>)
    ensures forall i :: 0 <= i < |xs| ==> (Types(CommandsOf(xs))[i] == CSWP_TERM <==> xs[i].c.Term?)
  {
    hide Proper, AllProper;
    forall i | 0 <= i < |xs| ensures Types(CommandsOf(xs))[i] == CSWP_TERM <==> xs[i].c.Term? {
      TypesAt(CommandsOf(xs), i);
    }
  }

  /** What the client makes of the reply to a run whose first stop is number `k`. */
  ghost predicate Outcomes(xs: seq<Exchange>, k: nat, o: Outcome)
    requires FirstStop(xs, k)
  {
    && o.Matched? && o.ops == Succeeded(xs, k) && o.res == ResultOf(xs, k)
    && |o.outs| >= o.ops && forall i :: 0 <= i < Succeeded(xs, k) ==> o.outs[i] == OutOf(BodyOf(xs[i].h))
  }

  function BodyOf(h: Handled): Body {
    if h.Added? then h.body else NoBody
  }

  /** The responses of the server's run, in a mode the client uses for this many commands. */
  ghost predicate Ran(mode: byte, xs: seq<Exchange>, rs: seq<Response>) {
    && AllProper(xs) && (mode != 0 || |xs| <= 1) && |rs| == |xs|
    && rs == Run(mode, Types(CommandsOf(xs)), HandledOf(xs), false)
  }

  /** The first `n` responses are accepted, with the bodies the handlers produced. */
  ghost predicate AcceptedBodies(xs: seq<Exchange>, rs: seq<Response>, n: nat) {
    n <= |xs| == |rs| && forall i :: 0 <= i < n ==> Accepts(PendingOf(xs)[i], rs[i]) && rs[i].body == BodyOf(xs[i].h)
  }

  lemma {:induction false} ReplyAccepted(mode: byte, xs: seq<Exchange>, k: nat, rs: seq<Response>)
    requires Ran(mode, xs, rs) && FirstStop(xs, k)
    ensures AcceptedBodies(xs, rs, Succeeded(xs, k))
    ensures AcceptedTo(PendingOf(xs), rs, Succeeded(xs, k), ResultOf(xs, k))
  {
    hide Ran, AllProper, ResultOf, Succeeded, AcceptedBodies, AcceptedTo, PendingOf;
    RanSize(mode, xs, rs);
    AcceptedFront(mode, xs, k, rs);
    HandlersOk(xs);
    hide FirstStop;
    AcceptedEnd(mode, xs, k, rs);
    AcceptedParts(xs, rs, Succeeded(xs, k), ResultOf(xs, k));
  }

  /** Where the responses end to be accepted. */
  ghost predicate Ends(xs: seq<Exchange>, rs: seq<Response>, n: nat, code: int) {
    n <= |xs| == |rs|
    && if n < |xs| then Refuses(PendingOf(xs)[n], rs[n], AllResponses(rs[n + 1..]), code) else code == CSWP_SUCCESS
  }

  lemma {:induction false} AcceptedEnd(mode: byte, xs: seq<Exchange>, k: nat, rs: seq<Response>)
    requires Ran(mode, xs, rs) && FirstStop(xs, k)
    ensures Ends(xs, rs, Succeeded(xs, k), ResultOf(xs, k))
  {
    hide Ran, AllProper, ResultOf, Succeeded, Refuses, AllResponses;
    RanSize(mode, xs, rs);
    if Succeeded(xs, k) < |xs| {
      RefusedAt(mode, xs, k, rs);
    } else {
      AllSucceed(xs, k);
    }
  }

  lemma {:induction false} RanSize(mode: byte, xs: seq<Exchange>, rs: seq<Response>)
    requires Ran(mode, xs, rs)
    ensures AllProper(xs) && |rs| == |xs|
  {
  }

  lemma {:induction false} AcceptedFront(mode: byte, xs: seq<Exchange>, k: nat, rs: seq<Response>)
    requires Ran(mode, xs, rs) && FirstStop(xs, k)
    ensures AcceptedBodies(xs, rs, Succeeded(xs, k))
  {
    RanSize(mode, xs, rs);
    assert k <= |xs|;
    hide FirstStop, Ran, AllProper, Succeeded, Accepts, BodyOf, PendingOf;
    forall i | 0 <= i < Succeeded(xs, k) ensures Accepts(PendingOf(xs)[i], rs[i]) && rs[i].body == BodyOf(xs[i].h) {
      AnswerAt(mode, xs, k, rs, i);
    }
  }

  lemma {:induction false} AcceptedParts(xs: seq<Exchange>, rs: seq<Response>, n: nat, code: int)
    requires AcceptedBodies(xs, rs, n) && forall i :: 0 <= i < |xs| ==> HandlerOk(PendingOf(xs)[i].complete)
    requires Ends(xs, rs, n, code)
    ensures AcceptedTo(PendingOf(xs), rs, n, code)
  {
    hide Refuses, AllResponses, HandlerOk, Accepts, BodyOf, PendingOf;
  }

  lemma {:induction false} AllSucceed(xs: seq<Exchange>, k: nat)
    requires FirstStop(xs, k) && Succeeded(xs, k) == |xs|
    ensures ResultOf(xs, k) == CSWP_SUCCESS
  {
  }

  lemma {:induction false} HandlersOk(xs: seq<Exchange>)
    requires AllProper(xs)
    ensures forall i :: 0 <= i < |xs| ==> HandlerOk(PendingOf(xs)[i].complete)
  {
    forall i | 0 <= i < |xs| ensures HandlerOk(PendingOf(xs)[i].complete) {
      assert Proper(xs[i]);
    }
  }

  /** A response of the run, by its position. */
  lemma {:induction false} RanAt(mode: byte, xs: seq<Exchange>, k: nat, rs: seq<Response>, i: nat)
    requires Ran(mode, xs, rs) && FirstStop(xs, k) && i < |xs|
    ensures i < |rs| && Proper(xs[i]) && PendingOf(xs)[i] == Pending(Type(xs[i].c), xs[i].complete)
    ensures rs[i] == if i <= k then RespondTo(Type(xs[i].c), xs[i].h)
                     else Response(Type(xs[i].c), CSWP_CANCELLED, NoBody)
  {
    hide Proper, Run, RespondTo, Type, FirstStop;
    Answers(mode, xs, k, i);
  }

  lemma {:induction false} AnswerAt(mode: byte, xs: seq<Exchange>, k: nat, rs: seq<Response>, i: nat)
    requires Ran(mode, xs, rs) && FirstStop(xs, k) && i < Succeeded(xs, k)
    ensures |rs| == |xs| && Accepts(PendingOf(xs)[i], rs[i]) && rs[i].body == BodyOf(xs[i].h)
  {
    RanSize(mode, xs, rs);
    InFront(xs, k, i);
    hide Type, Accepts, Refuses, Proper, AllProper, RespondTo, Ran, FirstStop, PendingOf, Succeeded;
    RanAt(mode, xs, k, rs, i);
    Answer(xs[i], []);
  }

  lemma {:induction false} InFront(xs: seq<Exchange>, k: nat, i: nat)
    requires FirstStop(xs, k) && i < Succeeded(xs, k)
    ensures i <= k && xs[i].h.Added?
  {
  }

  /** The response the client stops at: the failure itself, or the first cancelled behind a TERM. */
  lemma {:induction false} RefusedAt(mode: byte, xs: seq<Exchange>, k: nat, rs: seq<Response>)
    requires Ran(mode, xs, rs) && FirstStop(xs, k) && Succeeded(xs, k) < |xs|
    ensures |rs| == |xs|
    ensures var n := Succeeded(xs, k);
            Refuses(PendingOf(xs)[n], rs[n], AllResponses(rs[n + 1..]), ResultOf(xs, k))
  {
    hide Type, Accepts, Refuses, Proper, AllProper, RespondTo, AllResponses, FirstStop, ResultOf, Succeeded,
            PendingOf, Ran;
    RanSize(mode, xs, rs);
    StopCases(xs, k);
    var n := Succeeded(xs, k);
    RanAt(mode, xs, k, rs, n);
    Stopped(xs[n], PendingOf(xs)[n], rs[n], n == k, rs[n + 1..], ResultOf(xs, k));
  }

  lemma {:induction false} Stopped(x: Exchange, p: Pending, r: Response, own: bool, behind: seq<Response>, code: int)
    requires Proper(x) && p == Pending(Type(x.c), x.complete)
    requires if own then x.h.Failed? && r == RespondTo(Type(x.c), x.h) && code == x.h.code
             else r == Response(Type(x.c), CSWP_CANCELLED, NoBody) && code == CSWP_CANCELLED
    ensures Refuses(p, r, AllResponses(behind), code)
  {
    hide Type, Accepts, Refuses, Proper, RespondTo, AllResponses;
    if own {
      Answer(x, behind);
    } else {
      CancelledRefused(p, behind);
    }
  }

  lemma {:induction false} StopCases(xs: seq<Exchange>, k: nat)
    requires FirstStop(xs, k) && Succeeded(xs, k) < |xs|
    ensures if Succeeded(xs, k) == k then xs[k].h.Failed? && ResultOf(xs, k) == xs[k].h.code
            else Succeeded(xs, k) == k + 1 && ResultOf(xs, k) == CSWP_CANCELLED
  {
  }

  lemma {:induction false} ReplyOutcome(mode: byte, xs: seq<Exchange>, k: nat, rs: seq<Response>)
    requires Ran(mode, xs, rs) && FirstStop(xs, k) && |xs| < TWO31 && |Reply(rs)| < TWO32
    ensures Outcomes(xs, k, Receive(PendingOf(xs), |xs|, Reply(rs)))
  {
    RanSize(mode, xs, rs);
    hide Ran, Reply, Match, Receive, AcceptedTo, FirstStop, ResultOf, Succeeded, AcceptedBodies, Outcomes,
            PendingOf, Counts, AllResponses, AllProper;
    ReplyAccepted(mode, xs, k, rs);
    ReceiveReply(PendingOf(xs), rs);
    var n := Succeeded(xs, k);
    MatchPrefix(PendingOf(xs), rs, n, ResultOf(xs, k));
    OutcomesFrom(xs, k, rs, Match(PendingOf(xs), AllResponses(rs)));
  }

  lemma {:induction false} OutcomesFrom(xs: seq<Exchange>, k: nat, rs: seq<Response>, o: Outcome)
    requires FirstStop(xs, k) && AcceptedBodies(xs, rs, Succeeded(xs, k)) && |rs| == |xs|
    requires Counts(o, rs, Succeeded(xs, k), ResultOf(xs, k))
    ensures Outcomes(xs, k, o)
  {
    assert k <= |xs|;
    hide FirstStop, ResultOf, Succeeded, Accepts, BodyOf, OutOf, OutsOf;
    var n := Succeeded(xs, k);
    forall i | 0 <= i < n ensures o.outs[i] == OutOf(BodyOf(xs[i].h)) {
      OutsAt(rs[..n], i);
      assert o.outs[..n][i] == o.outs[i];
    }
  }

  /** In either batch mode, and for a single call, the operations the client counts are exactly the
      commands before the server's first failure, the result is that failure's code, and the
      completion functions of exactly those commands have run, on the bodies the server's handlers
      produced.  A TERM that succeeds is counted too, and what follows it was cancelled. */
  lemma {:induction false} BatchOutcome(mode: byte, xs: seq<Exchange>, k: nat)
    requires AllProper(xs) && (mode != 0 || |xs| <= 1) && FirstStop(xs, k)
    requires k <= |xs| < TWO31 && |Frame(mode, CommandsOf(xs))| < TWO32
    ensures var answer := Serve(Frame(mode, CommandsOf(xs)), HandledOf(xs));
            && answer.Some? && |answer.value| == |xs|
            && (|Reply(answer.value)| < TWO32 ==> Outcomes(xs, k, Receive(PendingOf(xs), |xs|, Reply(answer.value))))
  {
    hide AllProper, FirstStop, Outcomes, Run, Frame, Serve, Reply, Receive;
    ServeFrame(mode, xs);
    var rs := Run(mode, Types(CommandsOf(xs)), HandledOf(xs), false);
    if |Reply(rs)| < TWO32 {
      ReplyOutcome(mode, xs, k, rs);
    }
  }

  lemma {:induction false} OutsAt(rs: seq<Response>, i: nat)
    requires i < |rs|
    ensures OutsOf(rs)[i] == OutOf(rs[i].body)
  {
    hide OutOf;
    if i > 0 {
      OutsAt(rs[1..], i - 1);
    }
  }

  /** Outside a batch, a single command of any type, CSWP_TERM included, returns what its handler did. */
  lemma {:induction false} SingleOutcome(x: Exchange)
    requires Proper(x) && |Frame(0, [x.c])| < TWO32
    ensures var answer := Serve(Frame(0, [x.c]), [x.h]);
            && answer.Some? && |answer.value| == 1
            && (|Reply(answer.value)| < TWO32 ==>
                 var o := Receive([Pending(Type(x.c), x.complete)], 1, Reply(answer.value));
                 && o.Matched?
                 && if x.h.Failed? then o.ops == 0 && o.res == x.h.code
                    else o.ops == 1 && o.res == CSWP_SUCCESS && o.outs == [OutOf(x.h.body)])
  {
    hide Sized, Small, HandlerOk, Fits, Frame, Serve, Reply, Match, Receive, OutOf, Type;
    var xs := [x];
    assert CommandsOf(xs) == [x.c] && HandledOf(xs) == [x.h];
    var ps := [Pending(Type(x.c), x.complete)];
    ServeFrame(0, xs);
    TypesAt([x.c], 0);
    var rs := Run(0, Types([x.c]), [x.h], false);
    assert rs == [RespondTo(Type(x.c), x.h)];
    if |Reply(rs)| < TWO32 {
      ReceiveReply(ps, rs);
      if x.h.Failed? {
        CodeReturns(x.h.code);
        MatchPrefix(ps, rs, 0, x.h.code);
      } else {
        MatchPrefix(ps, rs, 1, CSWP_SUCCESS);
        OutsAt(rs[..1], 0);
      }
    }
  }
}
