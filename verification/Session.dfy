/** Session counting: several handles may initialise and terminate the same client, and only the
    first and the last of them reach the server.
 */
module Session {
  import opened Bytes
  import opened Fields
  import opened CswpBuffer
  import opened Commands
  import opened Matching
  import opened CswpClient
  import Responses

  /** What the server says about itself. */
  datatype Answer = Answer(protocol: u64, id: CString, version: u32)

  /** `strncpy` into `size` bytes, the last of them the terminator. */
  function Cut(a: Answer, size: nat): (r: Answer)
    requires size > 0
    ensures |r.id| < size && r.id <= a.id && (|a.id| < size ==> r == a)
  {
    if |a.id| < size then a else Answer(a.protocol, a.id[..size - 1], a.version)
  }

  /** Fate of an attempt to talk to the server: no connection, a command too long to encode, a
      failed transaction, or success. */
  datatype Attempt = Unreachable | TooLong | Failed | Done(answer: Answer)

  datatype Op = InitOp(size: nat, attempt: Attempt) | TermOp(attempt: Attempt)

  /** What the transport sees. */
  datatype Event = Connect | SendInit | SendTerm | Disconnect

  datatype State = State(connected: nat, cached: Answer, log: seq<Event>)

  /** The events of a fresh connection on which `send` is tried. */
  function Visit(a: Attempt, send: Event): seq<Event> {
    match a
    case Unreachable => []
    case TooLong => [Connect]
    case _ => [Connect, send]
  }

  function InitStep(s: State, a: Attempt): State {
    if s.connected > 0 then State(s.connected + 1, s.cached, s.log)
    else
      var log := s.log + Visit(a, SendInit);
      if a.Done? then State(1, a.answer, log)
      else State(0, s.cached, if a.Unreachable? then log else log + [Disconnect])
  }

  function TermStep(s: State, a: Attempt): State {
    if s.connected > 1 then State(s.connected - 1, s.cached, s.log)
    else if s.connected == 1 then State(0, s.cached, s.log + [SendTerm, Disconnect])
    else State(0, s.cached, s.log + if a.Unreachable? then [] else [Connect, SendTerm, Disconnect])
  }

  function Step(s: State, op: Op): State {
    match op
    case InitOp(_, a) => InitStep(s, a)
    case TermOp(a) => TermStep(s, a)
  }

  function Run(s: State, ops: seq<Op>): State {
    if ops == [] then s else Step(Run(s, ops[..|ops| - 1]), ops[|ops| - 1])
  }

  /** What an init that finds a session open hands to its caller. */
  function Nested(s: State, size: nat): Answer
    requires size > 0
  {
    Cut(s.cached, size)
  }

  // ---------------------------------------------------------------------------------------------
  // Runs

  const START: State := State(0, Answer(0, [], 0), [])

  /** Inits minus terms. */
  function Balance(ops: seq<Op>): int {
    if ops == [] then 0
    else Balance(ops[..|ops| - 1]) + if ops[|ops| - 1].InitOp? then 1 else -1
  }

  /** Every attempt succeeds, and no prefix holds more terms than inits. */
  predicate Orderly(ops: seq<Op>) {
    ops == [] || (Orderly(ops[..|ops| - 1]) && Balance(ops) >= 0 && ops[|ops| - 1].attempt.Done?)
  }

  /** The answer to the init that opened the session in progress. */
  function Opening(ops: seq<Op>): Answer {
    if ops == [] then START.cached
    else
      var before, last := ops[..|ops| - 1], ops[|ops| - 1];
      if Balance(before) == 0 && last.InitOp? && last.attempt.Done? then last.attempt.answer else Opening(before)
  }

  function Count(log: seq<Event>, e: Event): nat {
    multiset(log)[e]
  }

  /** Connections, and on each of them an INIT, then a TERM. */
  function Sessions(n: nat): (log: seq<Event>)
    ensures |log| == 4 * n
  {
    if n == 0 then [] else Sessions(n - 1) + [Connect, SendInit, SendTerm, Disconnect]
  }

  /** In an orderly run the handle count is the balance; the server has seen complete sessions,
      one after the other, and an open one exactly while the count is positive; and what is cached
      is the answer that opened it. */
  lemma {:induction false} OrderlyRun(ops: seq<Op>)
    requires Orderly(ops)
    ensures var s := Run(START, ops);
            && s.connected == Balance(ops)
            && s.log == Sessions(|s.log| / 4) + (if s.connected > 0 then [Connect, SendInit] else [])
            && s.cached == Opening(ops)
  {
    if ops != [] {
      var before, last := ops[..|ops| - 1], ops[|ops| - 1];
      OrderlyRun(before);
      var s, t := Run(START, before), Run(START, ops);
      assert t == Step(s, last);
      assert Balance(ops) == Balance(before) + if last.InitOp? then 1 else -1;
      var n := |s.log| / 4;
      if last.TermOp? && s.connected == 1 {
        assert Sessions(n) + [Connect, SendInit] + [SendTerm, Disconnect] == Sessions(n + 1) + [];
      } else if last.InitOp? && s.connected == 0 {
        assert Sessions(n) + [] + [Connect, SendInit] == Sessions(n) + [Connect, SendInit];
      }
    }
  }

  /** INIT is sent exactly on 0 -> 1 and TERM exactly on 1 -> 0. */
  lemma {:induction false} SentAtTheEdges(ops: seq<Op>, op: Op)
    requires Orderly(ops + [op])
    ensures var s, t := Run(START, ops), Run(START, ops + [op]);
            && (Count(t.log, SendInit) == Count(s.log, SendInit)
                + if s.connected == 0 && t.connected == 1 then 1 else 0)
            && (Count(t.log, SendTerm) == Count(s.log, SendTerm)
                + if s.connected == 1 && t.connected == 0 then 1 else 0)
  {
    hide Sessions, Opening;
    var all := ops + [op];
    assert all[..|all| - 1] == ops && all[|all| - 1] == op;
    OrderlyRun(ops);
    assert Balance(all) == Balance(ops) + if op.InitOp? then 1 else -1;
    assert op.attempt.Done?;
    assert Run(START, all) == Step(Run(START, ops), op);
    hide Run, Orderly, Balance;
    SendsOf(Run(START, ops), op);
  }

  lemma {:induction false} SendsOf(s: State, op: Op)
    requires op.attempt.Done? && (op.TermOp? ==> s.connected > 0)
    ensures var t := Step(s, op);
            && (Count(t.log, SendInit) == Count(s.log, SendInit)
                + if s.connected == 0 && t.connected == 1 then 1 else 0)
            && (Count(t.log, SendTerm) == Count(s.log, SendTerm)
                + if s.connected == 1 && t.connected == 0 then 1 else 0)
  {
  }

  /** Every nested init returns the answer of the init that opened the session, cut to the size its
      caller has. */
  lemma {:induction false} NestedAnswers(ops: seq<Op>, size: nat)
    requires Orderly(ops) && Balance(ops) > 0 && size > 0
    ensures var r, a := Nested(Run(START, ops), size), Opening(ops);
            && r.protocol == a.protocol && r.version == a.version
            && r.id == a.id[..if |a.id| < size then |a.id| else size - 1]
  {
    OrderlyRun(ops);
  }

  /** Every TERM the server sees comes directly behind an INIT of its own. */
  predicate Answered(log: seq<Event>) {
    forall i :: 0 <= i < |log| && log[i].SendTerm? ==> i > 0 && log[i - 1].SendInit?
  }

  lemma {:induction false} StepGrows(s: State, op: Op)
    ensures s.log <= Step(s, op).log
  {
  }

  lemma {:induction false} PrefixAnswered(a: seq<Event>, b: seq<Event>)
    requires a <= b && Answered(b)
    ensures Answered(a)
  {
    forall i | 0 <= i < |a| && a[i].SendTerm? ensures i > 0 && a[i - 1].SendInit? {
      assert b[i] == a[i] && (i > 0 ==> b[i - 1] == a[i - 1]);
    }
  }

  predicate AllDone(ops: seq<Op>) {
    forall i :: 0 <= i < |ops| ==> ops[i].attempt.Done?
  }

  /** With successful exchanges, a TERM reaches the server without an INIT in front of it exactly when
      some prefix of the calls holds more terms than inits. */
  lemma {:induction false} TermsAnswered(ops: seq<Op>)
    requires AllDone(ops)
    ensures Answered(Run(START, ops).log) <==> Orderly(ops)
  {
    if ops != [] {
      var before, last := ops[..|ops| - 1], ops[|ops| - 1];
      var s, t := Run(START, before), Run(START, ops);
      TermsAnswered(before);
      StepGrows(s, last);
      assert t == Step(s, last);
      assert Balance(ops) == Balance(before) + if last.InitOp? then 1 else -1;
      if Orderly(before) {
        OrderlyRun(before);
        hide Sessions, Opening, Run, Orderly, Balance;
        LastStep(s, last);
      } else if Answered(t.log) {
        PrefixAnswered(s.log, t.log);
      }
    }
  }

  lemma {:induction false} LastStep(s: State, op: Op)
    requires Answered(s.log) && op.attempt.Done?
    requires s.connected > 0 ==> s.log != [] && s.log[|s.log| - 1].SendInit?
    ensures Answered(Step(s, op).log) <==> op.InitOp? || s.connected > 0
  {
    if op.TermOp? && s.connected == 0 {
      var log := Step(s, op).log;
      assert log[|s.log|].Connect? && log[|s.log| + 1].SendTerm?;
    }
  }

  /** Whether the transport is connected after `log`; `None` when it was used while it was not, or
      connected twice. */
  function Connected(log: seq<Event>): Option<bool> {
    if log == [] then Some(false)
    else
      var before, e := Connected(log[..|log| - 1]), log[|log| - 1];
      if before.None? || before.value == e.Connect? then None else Some(!e.Disconnect?)
  }

  lemma {:induction false} ConnectedSnoc(log: seq<Event>, e: Event)
    requires Connected(log).Some? && Connected(log).value != e.Connect?
    ensures Connected(log + [e]) == Some(!e.Disconnect?)
  {
    assert (log + [e])[..|log|] == log;
  }

  /** Whatever fails, in any sequence of inits and terms the transport is connected only when it is
      not, used only when it is, and left connected exactly while handles are held. */
  lemma {:induction false} TransportPaired(ops: seq<Op>)
    ensures var s := Run(START, ops); Connected(s.log) == Some(s.connected > 0)
  {
    if ops != [] {
      var before, last := ops[..|ops| - 1], ops[|ops| - 1];
      TransportPaired(before);
      var s := Run(START, before);
      assert Run(START, ops) == Step(s, last);
      match last
      case InitOp(_, a) => InitPaired(s, a);
      case TermOp(a) => TermPaired(s, a);
    }
  }

  lemma {:induction false} InitPaired(s: State, a: Attempt)
    requires Connected(s.log) == Some(s.connected > 0)
    ensures var t := InitStep(s, a); Connected(t.log) == Some(t.connected > 0)
  {
    hide Connected;
    if s.connected == 0 && a.Unreachable? {
      assert s.log + [] == s.log;
    } else if s.connected == 0 {
      ConnectedSnoc(s.log, Connect);
      var log := s.log + [Connect];
      if !a.TooLong? {
        ConnectedSnoc(log, SendInit);
        assert log + [SendInit] == s.log + [Connect, SendInit];
        log := log + [SendInit];
      }
      ConnectedSnoc(log, Disconnect);
    }
  }

  lemma {:induction false} TermPaired(s: State, a: Attempt)
    requires Connected(s.log) == Some(s.connected > 0)
    ensures var t := TermStep(s, a); Connected(t.log) == Some(t.connected > 0)
  {
    hide Connected;
    if s.connected == 1 {
      SayGoodbye(s.log);
    } else if s.connected == 0 && a.Unreachable? {
      assert s.log + [] == s.log;
    } else if s.connected == 0 {
      ConnectedSnoc(s.log, Connect);
      SayGoodbye(s.log + [Connect]);
      assert s.log + [Connect] + [SendTerm, Disconnect] == s.log + [Connect, SendTerm, Disconnect];
    }
  }

  lemma {:induction false} SayGoodbye(log: seq<Event>)
    requires Connected(log) == Some(true)
    ensures Connected(log + [SendTerm, Disconnect]) == Some(false)
  {
    hide Connected;
    ConnectedSnoc(log, SendTerm);
    ConnectedSnoc(log + [SendTerm], Disconnect);
    assert log + [SendTerm] + [Disconnect] == log + [SendTerm, Disconnect];
  }

  // ---------------------------------------------------------------------------------------------
  // The functions on the client

  /** A C string read back from an array: up to the first NUL. */
  function CStr(s: seq<byte>): (r: CString)
    ensures r <= s && (|r| < |s| ==> s[|r|] == 0)
  {
    if s == [] || s[0] == 0 then [] else [s[0]] + CStr(s[1..])
  }

  function InitReader(size: nat): Handler {
    FieldReader([KVar, KStr(size), KVar])
  }

  function AnswerOf(out: Out): Answer {
    if out.FieldsOut? && |out.fields| == 3 && out.fields[0].FVar? && out.fields[1].FStr? && out.fields[2].FVar? then
      Answer(out.fields[0].v, CStr(out.fields[1].str), out.fields[2].v % TWO32)
    else START.cached
  }

  function Fitting(c: Command): bool
    requires Sized(c)
  {
    REQ_HEADER_SIZE + |CommandBytes(c)| <= REQ_RSP_BUFFER_SIZE
  }

  /** How an init on a fresh connection goes. */
  ghost function InitAttempt(c: Command, size: nat, connectRes: int, ch: Channel): Attempt
    requires Sized(c)
  {
    if connectRes != CSWP_SUCCESS then Unreachable
    else if !Fitting(c) then TooLong
    else
      var o := Transacted(ch, [Pending(CSWP_INIT, InitReader(size))], 1, 0);
      if o.Matched? && o.res == CSWP_SUCCESS && |o.outs| > 0 then Done(AnswerOf(o.outs[0])) else Failed
  }

  /** A server that answers as it should opens the session with what it said. */
  lemma {:induction false} InitAnswered(c: Command, size: nat, proto: u64, id: seq<byte>, version: u64)
    requires Sized(c) && Fitting(c) && |id| < size && |id| < TWO64
    requires |Responses.Reply([InitResponse(proto, id, version)])| < TWO32
    ensures InitResponse(proto, id, version).typ == 0x1 && InitResponse(proto, id, version).err == 0
    ensures InitResponse(proto, id, version).body == Responses.FieldList([FVar(proto), FStr(id), FVar(version)])
    ensures var ch := Channel(CSWP_SUCCESS, CSWP_SUCCESS, Responses.Reply([InitResponse(proto, id, version)]));
            InitAttempt(c, size, CSWP_SUCCESS, ch) == Done(Answer(proto, CStr(id), version % TWO32))
  {
    hide Sized, Fitting, Responses.Reply, Match, Receive, CStr;
    var r := InitResponse(proto, id, version);
    var ps := [Pending(CSWP_INIT, InitReader(size))];
    ReceiveReply(ps, [r]);
    MatchPrefix(ps, [r], 1, CSWP_SUCCESS);
    assert [r][..1] == [r];
    assert OutsOf([r]) == [OutOf(r.body)] + OutsOf([]);
  }

  function InitResponse(proto: u64, id: seq<byte>, version: u64): Responses.Response {
    Responses.Response(CSWP_INIT, 0, Responses.FieldList([FVar(proto), FStr(id), FVar(version)]))
  }

  class Handle {
    const client: Client
    var connected: nat
    var cached: Answer
    ghost var log: seq<Event>

    ghost predicate Valid()
      reads this, client, client.Repr()
    {
      this !in client.Repr() && client.Valid() && client.batchMode.BatchNone?
    }

    ghost function Abs(): State
      reads this
    {
      State(connected, cached, log)
    }

    constructor (client: Client)
      requires client.Valid() && client.batchMode.BatchNone?
      ensures Valid() && this.client == client && Abs() == START
    {
      this.client := client;
      connected, cached, log := 0, START.cached, [];
    }

    /** `cswp_init`.  The caller has room for a string. */
    method Init(version: u64, clientID: CString, size: nat, connectRes: int, ch: Channel) returns (res: int,
            answer: Answer)
      requires Valid() && size > 0 && |clientID| < TWO64
      requires ChannelOk(ch, [Pending(CSWP_INIT, InitReader(size))], 1)
      modifies this, client.Repr()
      ensures Valid()
      ensures var a := InitAttempt(Commands.Init(version, clientID), size, connectRes, ch);
              && Abs() == InitStep(old(Abs()), a)
              && (res == CSWP_SUCCESS <==> old(connected) > 0 || a.Done?)
              && (res == CSWP_SUCCESS ==> answer == if old(connected) > 0 then Nested(old(Abs()), size) else a.answer)
              && (old(connected) > 0 ==>
                    && answer.protocol == old(cached).protocol && answer.version == old(cached).version
                    && answer.id == old(cached).id[..if |old(cached).id| < size then |old(cached).id| else size - 1])
              && if old(connected) > 0 || connectRes != CSWP_SUCCESS || a.TooLong? then client.sent == old(client.sent)
                 else |client.sent| == |old(client.sent)| + 1 && client.sent[..|old(client.sent)|] == old(client.sent)
                      && IsFrame(client.sent[|old(client.sent)|], 0, [Commands.Init(version, clientID)])
    {
      hide CommandBytes, ChannelOk, Transacted, IsFrame, AnswerOf;
      answer := cached;
      if connected > 0 {
        var id := if |cached.id| < size then cached.id else cached.id[..size - 1];
        answer := Answer(cached.protocol, id, cached.version);
        connected := connected + 1;
        return CSWP_SUCCESS, answer;
      }
      if connectRes != CSWP_SUCCESS {
        return connectRes, answer;
      }
      log := log + [Connect];
      var c := Commands.Init(version, clientID);
      assert ShortStrings(Args(c)) && Type(c) == CSWP_INIT;
      assert HandlerOk(InitReader(size));
      hide ShortStrings, Args, Type, HandlerOk, InitReader;
      res := client.Call(c, InitReader(size), ch);
      log := log + if Fitting(c) then [SendInit] else [];
      if res == CSWP_SUCCESS {
        answer := AnswerOf(client.outputs[0]);
        cached, connected := answer, 1;
      } else {
        log := log + [Disconnect];
      }
    }

    /** `cswp_term`: a call without a session connects, says goodbye and disconnects. */
    method Term(connectRes: int, ch: Channel) returns (res: int)
      requires Valid() && ChannelOk(ch, [Pending(CSWP_TERM, NoHandler)], 1)
      modifies this, client.Repr()
      ensures Valid()
      ensures Abs() == TermStep(old(Abs()), if connectRes != CSWP_SUCCESS then Unreachable else Failed)
      ensures old(connected) > 1 ==> res == CSWP_SUCCESS && client.sent == old(client.sent)
      ensures old(connected) == 0 && connectRes != CSWP_SUCCESS ==> res == connectRes && client.sent == old(client.sent)
      ensures old(connected) == 1 || (old(connected) == 0 && connectRes == CSWP_SUCCESS) ==>
                && |client.sent| == |old(client.sent)| + 1 && client.sent[..|old(client.sent)|] == old(client.sent)
                && IsFrame(client.sent[|old(client.sent)|], 0, [Commands.Term])
                && exists ops, outs :: Matched(ops, res, outs) == Transacted(ch, [Pending(CSWP_TERM, NoHandler)], 1, 0)
    {
      hide ChannelOk, Transacted, IsFrame;
      client.PrepCmdData();
      if connected == 0 {
        if connectRes != CSWP_SUCCESS {
          assert log + [] == log;
          return connectRes;
        }
        log := log + [Connect];
      } else {
        connected := connected - 1;
        if connected > 0 {
          return CSWP_SUCCESS;
        }
      }
      TermFits();
      assert ShortStrings(Args(Commands.Term)) && Type(Commands.Term) == CSWP_TERM;
      hide ShortStrings, Args, Type, CommandBytes;
      res := client.Call(Commands.Term, NoHandler, ch);
      log := log + [SendTerm, Disconnect];
    }
  }

  lemma {:induction false} TermFits()
    ensures Fitting(Commands.Term)
  {
    assert PutAll([]) == [];
  }
}
