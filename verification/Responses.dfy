/** The reply side of the wire protocol and the server's command loop. */
module Responses {
  import opened Bytes
  import Varint
  import opened Fields
  import opened Commands
  import opened DummyServer

  /** The body of a successful response: nothing, memory contents, or a list of fields. */
  datatype Body = NoBody | Memory(data: seq<byte>) | FieldList(fields: seq<Field>)

  function BodyBytes(b: Body): seq<byte> {
    match b
    case NoBody => []
    case Memory(data) => Varint.Encode(|data|) + data
    case FieldList(fs) => PutAll(fs)
  }

  datatype Response = Response(typ: u64, err: u64, body: Body)

  function ResponseBytes(r: Response): (s: seq<byte>)
    ensures |s| >= 2
  {
    Varint.Encode(r.typ) + Varint.Encode(r.err) + BodyBytes(r.body)
  }

  function AllResponses(rs: seq<Response>): (s: seq<byte>)
    ensures |s| >= 2 * |rs|
  {
    if rs == [] then [] else ResponseBytes(rs[0]) + AllResponses(rs[1..])
  }

  lemma {:induction false} AllResponsesSnoc(rs: seq<Response>, r: Response)
    ensures AllResponses(rs + [r]) == AllResponses(rs) + ResponseBytes(r)
  {
    hide ResponseBytes;
    if rs == [] {
      assert [r][1..] == [];
      assert AllResponses([r]) == ResponseBytes(r) + AllResponses([]);
    } else {
      AllResponsesSnoc(rs[1..], r);
      assert (rs + [r])[1..] == rs[1..] + [r];
    }
  }

  /** A reply: total length, number of responses, responses. */
  function Reply(rs: seq<Response>): (s: seq<byte>) {
    var body := Varint.Encode(|rs|) + AllResponses(rs);
    LE(4 + |body|, 4) + body
  }

  // ---------------------------------------------------------------------------------------------
  // The command loop

  /** What a handler does: fail with a nonzero code, or add one response. */
  datatype Handled = Failed(code: int) | Added(body: Body)

  ghost predicate CodeOk(h: Handled) {
    h.Failed? ==> -TWO31 <= h.code < TWO31 && h.code != 0
  }

  function RespondTo(typ: u64, h: Handled): Response
    requires CodeOk(h)
  {
    if h.Failed? then Response(typ, ToU64(h.code), NoBody) else Response(typ, 0, h.body)
  }

  /** The responses to commands of types `ts`, whose handlers would do `hs`: after a failure in a
      nonzero error mode, or after CSWP_TERM, the rest is answered with CSWP_CANCELLED. */
  function Run(mode: byte, ts: seq<u64>, hs: seq<Handled>, cancel: bool): (rs: seq<Response>)
    requires |ts| == |hs| && forall i :: 0 <= i < |hs| ==> CodeOk(hs[i])
    ensures |rs| == |ts|
  {
    if ts == [] then []
    else
      [RespondTo(ts[0], Turn(hs[0], cancel))] + Run(mode, ts[1..], hs[1..], Cancels(mode, ts[0], hs[0], cancel))
  }

  /** The server's response buffer. */
  class Server {
    var respBuffer: seq<byte>
    var respNresp: nat
    var running: bool
    ghost var responses: seq<Response>

    ghost predicate Valid()
      reads this
    {
      respBuffer == AllResponses(responses) && respNresp == |responses|
    }

    constructor ()
      ensures Valid() && responses == [] && running
    {
      respBuffer, respNresp, running, responses := [], 0, true, [];
    }

    method ResponseAdd(resp: seq<byte>, ghost r: Response)
      requires Valid() && resp == ResponseBytes(r)
      modifies this`respBuffer, this`respNresp, this`responses
      ensures Valid() && responses == old(responses) + [r]
    {
      AllResponsesSnoc(responses, r);
      respBuffer, respNresp := respBuffer + resp, respNresp + 1;
      responses := responses + [r];
    }

    /** An error response is the type and the code, with no message behind them. */
    method ResponseErr(typ: u64, code: int)
      requires Valid() && -TWO31 <= code < TWO31
      modifies this`respBuffer, this`respNresp, this`responses
      ensures Valid() && responses == old(responses) + [Response(typ, if code < 0 then TWO64 + code else code, NoBody)]
    {
      var t := Varint.EncodeVarint(typ);
      var e := Varint.EncodeVarint(ToU64(code));
      assert t + e + [] == t + e;
      ResponseAdd(t + e, Response(typ, ToU64(code), NoBody));
    }

    /** A handler that succeeds. */
    method ResponseOk(typ: u64, body: Body)
      requires Valid()
      modifies this`respBuffer, this`respNresp, this`responses
      ensures Valid() && responses == old(responses) + [Response(typ, 0, body)]
    {
      var t := Varint.EncodeVarint(typ);
      var e := Varint.EncodeVarint(0);
      ResponseAdd(t + e + BodyBytes(body), Response(typ, 0, body));
    }

    /** `response_send`: the frame that leaves, if there is one. */
    method ResponseSend() returns (packet: seq<byte>)
      requires Valid() && |respBuffer| + 14 < TWO32 && respNresp < TWO64
      modifies this`respBuffer, this`respNresp, this`responses
      ensures packet == if old(responses) == [] then [] else Reply(old(responses))
      ensures Valid() && responses == []
    {
      if respNresp == 0 {
        packet := [];
      } else {
        var n := Varint.EncodeVarint(respNresp);
        packet := LE(|respBuffer| + 4 + |n|, 4) + (n + respBuffer);
      }
      respBuffer, respNresp, responses := [], 0, [];
    }

    /** The loop of `main` over one request. */
    method RunCommands(mode: byte, ts: seq<u64>, hs: seq<Handled>)
      requires Valid() && responses == [] && |ts| == |hs| && forall i :: 0 <= i < |hs| ==> CodeOk(hs[i])
      modifies this
      ensures Valid() && responses == Run(mode, ts, hs, false)
      ensures running == (old(running) && CSWP_TERM !in ts)
    {
      hide Run;
      var cancel := false;
      assert ts[0..] == ts && hs[0..] == hs;
      for i := 0 to |ts|
        invariant Valid()
        invariant responses + Run(mode, ts[i..], hs[i..], cancel) == Run(mode, ts, hs, false)
        invariant running == (old(running) && CSWP_TERM !in ts[..i])
      {
        Regroup(responses, ts, hs, i, mode, cancel);
        cancel := RunOne(mode, ts[i], hs[i], cancel);
        assert ts[..i + 1] == ts[..i] + [ts[i]];
      }
      assert ts[..|ts|] == ts;
      RunNone(mode, ts[|ts|..], hs[|ts|..], cancel);
    }

    /** One turn of the loop. */
    method RunOne(mode: byte, typ: u64, handler: Handled, cancelled: bool) returns (cancel: bool)
      requires Valid() && CodeOk(handler)
      modifies this
      ensures Valid() && responses == old(responses) + [RespondTo(typ, Turn(handler, cancelled))]
      ensures cancel == Cancels(mode, typ, handler, cancelled)
      ensures running == (old(running) && typ != CSWP_TERM)
    {
      cancel := cancelled;
      var h := if cancel then Failed(CSWP_CANCELLED) else handler;
      if h.Failed? {
        ResponseErr(typ, h.code);
        if mode != 0 {
          cancel := true;
        }
      } else {
        ResponseOk(typ, h.body);
      }
      if typ == CSWP_TERM {
        running := false;
        cancel := true;
      }
    }
  }

  /** What happens to a command whose handler would do `h`. */
  function Turn(h: Handled, cancelled: bool): Handled {
    if cancelled then Failed(CSWP_CANCELLED) else h
  }

  /** Whether the commands behind it are cancelled. */
  function Cancels(mode: byte, typ: u64, h: Handled, cancelled: bool): bool {
    cancelled || (h.Failed? && mode != 0) || typ == CSWP_TERM
  }

  lemma {:induction false} RunNone(mode: byte, ts: seq<u64>, hs: seq<Handled>, cancel: bool)
    requires ts == [] && hs == []
    ensures Run(mode, ts, hs, cancel) == []
  {
  }

  lemma {:induction false} Regroup(done: seq<Response>, ts: seq<u64>, hs: seq<Handled>, i: nat, mode: byte,
          cancel: bool)
    requires i < |ts| == |hs| && forall j :: 0 <= j < |hs| ==> CodeOk(hs[j])
    ensures done + Run(mode, ts[i..], hs[i..], cancel) ==
            done + [RespondTo(ts[i], Turn(hs[i], cancel))] + Run(mode, ts[i + 1..], hs[i + 1..], Cancels(mode, ts[i],
                    hs[i], cancel))
  {
    RunUnfold(mode, ts, hs, i, cancel);
    hide Run, RespondTo;
  }

  lemma {:induction false} RunUnfold(mode: byte, ts: seq<u64>, hs: seq<Handled>, i: nat, cancel: bool)
    requires i < |ts| == |hs| && forall j :: 0 <= j < |hs| ==> CodeOk(hs[j])
    ensures Run(mode, ts[i..], hs[i..], cancel) ==
            [RespondTo(ts[i], Turn(hs[i], cancel))] + Run(mode, ts[i + 1..], hs[i + 1..], Cancels(mode, ts[i], hs[i],
                    cancel))
  {
    assert ts[i..][1..] == ts[i + 1..] && hs[i..][1..] == hs[i + 1..];
  }

  /** Once cancelled, everything left is answered with CSWP_CANCELLED. */
  lemma {:induction false} RunCancelled(mode: byte, ts: seq<u64>, hs: seq<Handled>, j: nat)
    requires j < |ts| == |hs| && forall i :: 0 <= i < |hs| ==> CodeOk(hs[i])
    ensures Run(mode, ts, hs, true)[j] == Response(ts[j], CSWP_CANCELLED, NoBody)
  {
    if j > 0 {
      RunCancelled(mode, ts[1..], hs[1..], j - 1);
    }
  }

  /** In a nonzero error mode, or for a single command, the first command `k` that fails or is a
      CSWP_TERM ends the handlers' work: up to it the responses are their own, behind it all are
      CSWP_CANCELLED. */
  lemma {:induction false} RunToStop(mode: byte, ts: seq<u64>, hs: seq<Handled>, k: nat, j: nat)
    requires (mode != 0 || |ts| <= 1) && k <= |ts| == |hs| && j < |ts| && forall i :: 0 <= i < |hs| ==> CodeOk(hs[i])
    requires forall i :: 0 <= i < k ==> hs[i].Added? && ts[i] != CSWP_TERM
    requires k < |hs| ==> hs[k].Failed? || ts[k] == CSWP_TERM
    ensures Run(mode, ts, hs, false)[j] ==
            if j <= k then RespondTo(ts[j], hs[j]) else Response(ts[j], CSWP_CANCELLED, NoBody)
  {
    if j > 0 {
      if k > 0 {
        RunToStop(mode, ts[1..], hs[1..], k - 1, j - 1);
      } else {
        RunCancelled(mode, ts[1..], hs[1..], j - 1);
      }
    }
  }

  /** In mode 0 a failure stops nothing: up to the first CSWP_TERM every response is the command's own, and
      behind it all are CSWP_CANCELLED. */
  lemma {:induction false} RunThrough(ts: seq<u64>, hs: seq<Handled>, k: nat, j: nat)
    requires k <= |ts| == |hs| && j < |ts| && forall i :: 0 <= i < |hs| ==> CodeOk(hs[i])
    requires (forall i :: 0 <= i < k ==> ts[i] != CSWP_TERM) && (k < |ts| ==> ts[k] == CSWP_TERM)
    ensures Run(0, ts, hs, false)[j] ==
            if j <= k then RespondTo(ts[j], hs[j]) else Response(ts[j], CSWP_CANCELLED, NoBody)
  {
    if j > 0 {
      if k > 0 {
        RunThrough(ts[1..], hs[1..], k - 1, j - 1);
      } else {
        RunCancelled(0, ts[1..], hs[1..], j - 1);
      }
    }
  }
}
