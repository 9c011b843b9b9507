/** How the client matches a reply against the responses it is waiting for. */
module Matching {
  import opened Bytes
  import Varint
  import opened Fields
  import opened CswpBuffer
  import opened Responses

  const CSWP_UNEXPECTED_RESPONSE := 0x13
  const CSWP_RESPONSE_SIZE_ERR := 0x14
  const ERR_MSG_SIZE := 1024

  /** The completion function of a pending response: none, the memory reader with room for `max`
      bytes, or one that decodes varints and strings. */
  datatype Handler = NoHandler | MemReader(max: nat) | FieldReader(kinds: seq<Kind>)

  /** Strings decoded into no room at all are skipped instead, which is not modelled. */
  predicate HandlerOk(h: Handler) {
    h.FieldReader? ==> forall i :: 0 <= i < |h.kinds| ==> h.kinds[i].KVar? || (h.kinds[i].KStr? && h.kinds[i].room > 0)
  }

  datatype Pending = Pending(typ: u64, complete: Handler)

  /** What a completion function leaves with the caller. */
  datatype Out = NoOut | MemoryOut(data: seq<byte>) | FieldsOut(fields: seq<Field>)

  /** Outcome of handling one response at the front of the unread bytes.  `Undefined`: a varint
      runs past ten bytes. */
  datatype Verdict = Good(len: nat, out: Out) | Bad(code: int, out: Out) | Undefined

  function Shift(n: nat, v: Verdict): Verdict {
    if v.Good? then Good(n + v.len, v.out) else v
  }

  // ---------------------------------------------------------------------------------------------
  // Bodies

  /** The code with which a read fails. */
  function Fault(k: Kind, s: seq<byte>): int {
    var r := Varint.ClientRead(s);
    if k.KStr? && r.Got? && |s| - r.len >= r.value >= k.room then CSWP_OUTPUT_BUFFER_OVERFLOW else CSWP_BUFFER_EMPTY
  }

  predicate Endless(k: Kind, s: seq<byte>) {
    (k.KVar? || k.KStr?) && Varint.ClientRead(s).TooLong?
  }

  /** A run of reads; the first failure ends it. */
  function Decode(ks: seq<Kind>, s: seq<byte>): (v: Verdict)
    ensures (v.Good? ==> v.len <= |s| && v.out.FieldsOut?) && (v.Bad? ==> v.code != CSWP_SUCCESS)
  {
    if ks == [] then Good(0, FieldsOut([]))
    else if Endless(ks[0], s) then Undefined
    else
      var i := Get(Client, ks[0], s);
      if i.NoItem? then Bad(Fault(ks[0], s), NoOut) else WithField(i, Decode(ks[1..], s[i.len..]))
  }

  function WithField(i: Item, v: Verdict): (r: Verdict)
    requires i.Item? && (v.Good? ==> v.out.FieldsOut?)
    ensures r.Good? ==> r.out.FieldsOut?
    ensures r.Bad? ==> r == v
  {
    if v.Good? then Good(i.len + v.len, FieldsOut([i.field] + v.out.fields)) else v
  }

  /** `cswp_device_mem_read_complete`: more data than asked for is cut and reported. */
  function ReadMemory(max: nat, s: seq<byte>): (v: Verdict)
    ensures (v.Good? ==> v.len <= |s|) && (v.Bad? ==> v.code != CSWP_SUCCESS)
  {
    var n := Varint.ClientRead(s);
    if n.TooLong? then Undefined
    else if n.Ends? || |s| - n.len < n.value then Bad(CSWP_BUFFER_EMPTY, NoOut)
    else if n.value > max then Bad(CSWP_OUTPUT_BUFFER_OVERFLOW, MemoryOut(s[n.len..n.len + max]))
    else Good(n.len + n.value, MemoryOut(s[n.len..n.len + n.value]))
  }

  function Complete(h: Handler, s: seq<byte>): (v: Verdict)
    ensures (v.Good? ==> v.len <= |s|) && (v.Bad? ==> v.code != CSWP_SUCCESS)
  {
    match h
    case NoHandler => Good(0, NoOut)
    case MemReader(max) => ReadMemory(max, s)
    case FieldReader(ks) => Decode(ks, s)
  }

  // ---------------------------------------------------------------------------------------------
  // Responses

  /** Where the error message reader leaves the cursor. */
  function MessageEnd(s: seq<byte>): (n: nat)
    ensures n <= |s|
  {
    var r := Varint.ClientRead(s);
    if !r.Got? then |s|
    else if |s| - r.len < r.value || r.value >= ERR_MSG_SIZE then r.len
    else r.len + r.value
  }

  /** `cswp_client_verify_response`.  An error code that is a multiple of 2^32 is nonzero when
      tested and zero once converted to `int`, and is handled as a success. */
  function Verify(p: Pending, s: seq<byte>): (v: Verdict)
    ensures (v.Good? ==> v.len <= |s|) && (v.Bad? ==> v.code != CSWP_SUCCESS)
  {
    var t := Varint.ClientRead(s);
    if t.TooLong? then Undefined
    else if t.Ends? then Bad(CSWP_BUFFER_EMPTY, NoOut)
    else Shift(t.len, VerifyTyped(p, t.value, s[t.len..]))
  }

  function VerifyTyped(p: Pending, typ: u64, s: seq<byte>): (v: Verdict)
    ensures (v.Good? ==> v.len <= |s|) && (v.Bad? ==> v.code != CSWP_SUCCESS)
  {
    var e := Varint.ClientRead(s);
    if e.TooLong? then Undefined
    else if e.Ends? then Bad(CSWP_BUFFER_EMPTY, NoOut)
    else if typ != p.typ then Bad(CSWP_UNEXPECTED_RESPONSE, NoOut)
    else if e.value == 0 then Shift(e.len, Complete(p.complete, s[e.len..]))
    else Shift(e.len, VerifyError(p, e.value, s[e.len..]))
  }

  function VerifyError(p: Pending, err: u64, s: seq<byte>): (v: Verdict)
    ensures (v.Good? ==> v.len <= |s|) && (v.Bad? ==> v.code != CSWP_SUCCESS)
  {
    if Varint.ClientRead(s).TooLong? then Undefined
    else if Int32(err) != 0 then Bad(Int32(err), NoOut)
    else var n := MessageEnd(s); Shift(n, Complete(p.complete, s[n..]))
  }

  /** Outcome of a whole reply: how many responses were good, the result, what the completion
      functions left, one entry for each response handled. */
  datatype Outcome = Matched(ops: nat, res: int, outs: seq<Out>) | NoOutcome

  /** The loop over the pending list. */
  function Match(ps: seq<Pending>, s: seq<byte>): (o: Outcome)
    ensures o.Matched? ==> o.ops <= |ps| && (o.res == CSWP_SUCCESS <==> o.ops == |ps|)
    ensures o.Matched? ==> |o.outs| == if o.ops == |ps| then o.ops else o.ops + 1
  {
    if ps == [] then Matched(0, CSWP_SUCCESS, [])
    else
      var v := Verify(ps[0], s);
      if v.Undefined? then NoOutcome
      else if v.Bad? then Matched(0, v.code, [v.out])
      else WithGood(v.out, Match(ps[1..], s[v.len..]))
  }

  function WithGood(out: Out, o: Outcome): Outcome {
    if o.Matched? then Matched(o.ops + 1, o.res, [out] + o.outs) else NoOutcome
  }

  /** `cswp_client_transact_receive` on the bytes received for `n` commands. */
  function Receive(ps: seq<Pending>, n: nat, reply: seq<byte>): (o: Outcome)
    ensures o.Matched? && o.res == CSWP_SUCCESS ==> o.ops == |o.outs| == |ps|
  {
    if |reply| < 4 then NoOutcome
    else if U32At(reply) > |reply| then Matched(0, CSWP_RESPONSE_SIZE_ERR, [])
    else
      var count := Varint.ClientRead(reply[4..]);
      if !count.Got? then NoOutcome
      else if count.value != n then Matched(0, CSWP_RESPONSE_SIZE_ERR, [])
      else Match(ps, reply[4 + count.len..])
  }

  // ---------------------------------------------------------------------------------------------
  // Matching what a server sends

  /** A body the completion function of `h` can take. */
  predicate Fits(h: Handler, b: Body) {
    match h
    case NoHandler => b.NoBody?
    case MemReader(max) => b.Memory? && |b.data| <= max && |b.data| < TWO64
    case FieldReader(ks) => b.FieldList? && ReadsAll(Client, ks, b.fields)
  }

  function OutOf(b: Body): Out {
    match b
    case NoBody => NoOut
    case Memory(data) => MemoryOut(data)
    case FieldList(fs) => FieldsOut(fs)
  }

  /** A response of the right type, without error, whose body can be taken. */
  predicate Accepts(p: Pending, r: Response) {
    r.typ == p.typ && r.err == 0 && Fits(p.complete, r.body)
  }

  /** Memory contents of which fewer bytes are there than their length says, or not even that. */
  predicate Incomplete(s: seq<byte>) {
    var n := Varint.ClientRead(s);
    n.Ends? || (n.Got? && |s| - n.len < n.value)
  }

  /** The bytes open with the fields `fs`, as asked for, and behind them the next read fails with
      `code`. */
  ghost predicate FailsBehind(ks: seq<Kind>, s: seq<byte>, fs: seq<Field>, code: int) {
    && |fs| < |ks| && ReadsAll(Client, ks[..|fs|], fs) && PutAll(fs) <= s
    && var k, tail := ks[|fs|], s[|PutAll(fs)|..];
       !Endless(k, tail) && Get(Client, k, tail).NoItem? && code == Fault(k, tail)
  }

  /** A response that must be refused, and the code it is refused with; `rest` is what follows it.  An
      error response may carry any body that, with what follows, does not open with an endless
      varint. */
  ghost predicate Refuses(p: Pending, r: Response, rest: seq<byte>, code: int) {
    var s := BodyBytes(r.body) + rest;
    if r.typ != p.typ then code == CSWP_UNEXPECTED_RESPONSE
    else if r.err != 0 then code == Int32(r.err) != 0 && !Varint.ClientRead(s).TooLong?
    else
      match p.complete
      case NoHandler => false
      case MemReader(max) =>
        if r.body.Memory? && max < |r.body.data| < TWO64 then code == CSWP_OUTPUT_BUFFER_OVERFLOW
        else Incomplete(s) && code == CSWP_BUFFER_EMPTY
      case FieldReader(ks) => exists fs :: FailsBehind(ks, s, fs, code)
  }

  function OutsOf(rs: seq<Response>): (os: seq<Out>)
    ensures |os| == |rs|
  {
    if rs == [] then [] else [OutOf(rs[0].body)] + OutsOf(rs[1..])
  }

  lemma {:induction false} DecodeFields(ks: seq<Kind>, fs: seq<Field>, rest: seq<byte>)
    requires ReadsAll(Client, ks, fs) && HandlerOk(FieldReader(ks))
    ensures Decode(ks, PutAll(fs) + rest) == Good(|PutAll(fs)|, FieldsOut(fs))
  {
    hide Get, Put, Endless, Fault;
    if fs != [] {
      assert Reads(Client, ks[0], fs[0]) && HandlerOk(FieldReader(ks[1..]));
      hide Reads;
      var s, tail := PutAll(fs) + rest, PutAll(fs[1..]) + rest;
      assert s == Put(fs[0]) + tail;
      assert |PutAll(fs)| == |Put(fs[0])| + |PutAll(fs[1..])|;
      hide PutAll;
      GetPut(Client, ks[0], fs[0], tail);
      NotEndless(ks[0], s);
      DropFront(Put(fs[0]), tail);
      DecodeFields(ks[1..], fs[1..], rest);
      HeadTail(fs);
    }
  }

  lemma {:induction false} NotEndless(k: Kind, s: seq<byte>)
    requires Get(Client, k, s).Item?
    ensures !Endless(k, s)
  {
    hide Varint.ClientRead;
  }

  lemma {:induction false} CompleteTakes(h: Handler, b: Body, rest: seq<byte>)
    requires Fits(h, b) && HandlerOk(h)
    ensures Complete(h, BodyBytes(b) + rest) == Good(|BodyBytes(b)|, OutOf(b))
  {
    hide Varint.Encode, Varint.ClientRead, Decode, PutAll, ReadsAll;
    match h
    case NoHandler =>
    case MemReader(_) =>
      MemoryAt(b.data, rest);
    case FieldReader(ks) =>
      DecodeFields(ks, b.fields, rest);
  }

  lemma {:induction false} MemoryAt(data: seq<byte>, rest: seq<byte>)
    requires |data| < TWO64
    ensures var len := Varint.Encode(|data|);
            var s := len + data + rest;
            Varint.ClientRead(s) == Varint.Got(|data|, |len|) && s[|len|..] == data + rest
  {
    hide Varint.Encode, Varint.ClientRead;
    var len := Varint.Encode(|data|);
    assert len + data + rest == len + (data + rest);
    Varint.ClientRoundTrip(|data|, data + rest);
  }

  lemma {:induction false} ReadMemoryCut(max: nat, data: seq<byte>, rest: seq<byte>)
    requires max < |data| < TWO64
    ensures ReadMemory(max, BodyBytes(Memory(data)) + rest) == Bad(CSWP_OUTPUT_BUFFER_OVERFLOW, MemoryOut(data[..max]))
  {
    hide Varint.Encode, Varint.ClientRead;
    MemoryAt(data, rest);
    var len := Varint.Encode(|data|);
    var s := len + data + rest;
    assert s[|len|..|len| + max] == s[|len|..][..max] == (data + rest)[..max] == data[..max];
  }

  /** The two varints at the front of a response. */
  lemma {:induction false} ResponseFront(p: Pending, r: Response, rest: seq<byte>)
    ensures var t, e, b := Varint.Encode(r.typ), Varint.Encode(r.err), BodyBytes(r.body) + rest;
            && ResponseBytes(r) + rest == t + (e + b)
            && Verify(p, t + (e + b)) == Shift(|t|, VerifyTyped(p, r.typ, e + b))
            && Varint.ClientRead(e + b) == Varint.Got(r.err, |e|)
            && (e + b)[|e|..] == b
  {
    hide Varint.Encode, Varint.ClientRead, VerifyTyped;
    var t, e, b := Varint.Encode(r.typ), Varint.Encode(r.err), BodyBytes(r.body) + rest;
    assert ResponseBytes(r) + rest == t + (e + b);
    Varint.ClientRoundTrip(r.typ, e + b);
    DropFront(t, e + b);
    Varint.ClientRoundTrip(r.err, b);
    DropFront(e, b);
  }

  lemma {:induction false} VerifyAccepts(p: Pending, r: Response, rest: seq<byte>)
    requires Accepts(p, r) && HandlerOk(p.complete)
    ensures Verify(p, ResponseBytes(r) + rest) == Good(|ResponseBytes(r)|, OutOf(r.body))
  {
    hide Varint.Encode, Varint.ClientRead, Verify, Complete, BodyBytes, OutOf, Fits;
    ResponseFront(p, r, rest);
    CompleteTakes(p.complete, r.body, rest);
  }

  /** Decoding stops at the first field that cannot be read, with its code. */
  lemma {:induction false} DecodeFails(ks: seq<Kind>, s: seq<byte>, fs: seq<Field>, code: int)
    requires FailsBehind(ks, s, fs, code) && HandlerOk(FieldReader(ks))
    ensures Decode(ks, s) == Bad(code, NoOut)
    decreases |fs|
  {
    hide Get, Put, Endless, Fault;
    if fs == [] {
      assert s[|PutAll([])|..] == s;
    } else {
      FirstReads(ks, s, fs);
      var tail := s[|Put(fs[0])|..];
      assert tail[|PutAll(fs[1..])|..] == s[|PutAll(fs)|..];
      assert ks[1..][..|fs[1..]|] == ks[..|fs|][1..];
      hide PutAll, Reads;
      DecodeFails(ks[1..], tail, fs[1..], code);
    }
  }

  lemma {:induction false} PrefixParts(s: seq<byte>, a: seq<byte>, b: seq<byte>)
    requires a + b <= s
    ensures |a| <= |s| && s == a + s[|a|..] && b <= s[|a|..]
  {
  }

  lemma {:induction false} FirstReads(ks: seq<Kind>, s: seq<byte>, fs: seq<Field>)
    requires fs != [] && |fs| <= |ks| && ReadsAll(Client, ks[..|fs|], fs) && PutAll(fs) <= s
    ensures |Put(fs[0])| <= |s| && |PutAll(fs)| == |Put(fs[0])| + |PutAll(fs[1..])|
    ensures PutAll(fs[1..]) <= s[|Put(fs[0])|..]
    ensures Get(Client, ks[0], s) == Item(fs[0], |Put(fs[0])|) && !Endless(ks[0], s)
  {
    hide Get, Put, Endless, Reads;
    assert PutAll(fs) == Put(fs[0]) + PutAll(fs[1..]);
    assert Reads(Client, ks[..|fs|][0], fs[0]);
    hide PutAll, ReadsAll;
    PrefixParts(s, Put(fs[0]), PutAll(fs[1..]));
    GetPut(Client, ks[0], fs[0], s[|Put(fs[0])|..]);
    NotEndless(ks[0], s);
  }

  /** A wrong type is refused whatever follows; so is an error, with or without a message, whose code
      is returned; and a body that is too long, cut short or undecodable. */
  lemma {:induction false} VerifyRefuses(p: Pending, r: Response, rest: seq<byte>, code: int)
    requires Refuses(p, r, rest, code) && HandlerOk(p.complete)
    ensures var v := Verify(p, ResponseBytes(r) + rest); v.Bad? && v.code == code
  {
    hide Varint.Encode, Varint.ClientRead, Verify, Decode, FailsBehind, HandlerOk, BodyBytes;
    ResponseFront(p, r, rest);
    if r.typ == p.typ && r.err == 0 {
      match p.complete
      case MemReader(max) =>
        if r.body.Memory? && max < |r.body.data| < TWO64 {
          hide ReadMemory;
          ReadMemoryCut(max, r.body.data, rest);
        }
      case FieldReader(ks) =>
        var fs :| FailsBehind(ks, BodyBytes(r.body) + rest, fs, code);
        DecodeFails(ks, BodyBytes(r.body) + rest, fs, code);
    }
  }

  /** A string as long as its reader's room, or longer, behind fields that were read, is refused with an
      overflow. */
  lemma {:induction false} StringTooLong(p: Pending, r: Response, rest: seq<byte>, fs: seq<Field>, room: nat,
          str: seq<byte>, more: seq<byte>)
    requires HandlerOk(p.complete) && p.complete.FieldReader? && r.typ == p.typ && r.err == 0
    requires |fs| < |p.complete.kinds| && ReadsAll(Client, p.complete.kinds[..|fs|], fs)
    requires p.complete.kinds[|fs|] == KStr(room) && room <= |str| < TWO64
    requires BodyBytes(r.body) == PutAll(fs) + Put(FStr(str)) + more
    ensures var v := Verify(p, ResponseBytes(r) + rest); v.Bad? && v.code == CSWP_OUTPUT_BUFFER_OVERFLOW
  {
    hide Verify, HandlerOk, BodyBytes, Put, PutAll, Get, Endless, Fault;
    var ks, s := p.complete.kinds, BodyBytes(r.body) + rest;
    var tail := Put(FStr(str)) + (more + rest);
    assert s == PutAll(fs) + tail;
    assert s[|PutAll(fs)|..] == tail;
    StringOverflows(room, str, more + rest);
    assert FailsBehind(ks, s, fs, CSWP_OUTPUT_BUFFER_OVERFLOW);
    VerifyRefuses(p, r, rest, CSWP_OUTPUT_BUFFER_OVERFLOW);
  }

  lemma {:induction false} StringOverflows(room: nat, str: seq<byte>, rest: seq<byte>)
    requires room <= |str| < TWO64
    ensures var k, s := KStr(room), Put(FStr(str)) + rest;
            !Endless(k, s) && Get(Client, k, s).NoItem? && Fault(k, s) == CSWP_OUTPUT_BUFFER_OVERFLOW
  {
    hide Varint.Encode, Varint.ClientRead;
    var len := Varint.Encode(|str|);
    assert len + str + rest == len + (str + rest);
    Varint.ClientRoundTrip(|str|, str + rest);
  }

  lemma {:induction false} NotTooLong(rs: seq<Response>)
    ensures !Varint.ClientRead(AllResponses(rs)).TooLong?
  {
    if rs != [] {
      hide Varint.ClientRead, Varint.Encode;
      var r := rs[0];
      var t, rest := Varint.Encode(r.typ), Varint.Encode(r.err) + BodyBytes(r.body) + AllResponses(rs[1..]);
      assert AllResponses(rs) == t + rest;
      Varint.ClientRoundTrip(r.typ, rest);
    }
  }

  lemma {:induction false} MatchStep(ps: seq<Pending>, rs: seq<Response>)
    requires ps != [] && rs != [] && Accepts(ps[0], rs[0]) && HandlerOk(ps[0].complete)
    ensures Match(ps, AllResponses(rs)) == WithGood(OutOf(rs[0].body), Match(ps[1..], AllResponses(rs[1..])))
  {
    hide Verify, Accepts, HandlerOk, ResponseBytes, OutOf;
    assert AllResponses(rs) == ResponseBytes(rs[0]) + AllResponses(rs[1..]);
    hide AllResponses;
    VerifyAccepts(ps[0], rs[0], AllResponses(rs[1..]));
    DropFront(ResponseBytes(rs[0]), AllResponses(rs[1..]));
  }

  lemma {:induction false} MatchStop(ps: seq<Pending>, rs: seq<Response>, code: int)
    requires ps != [] && rs != [] && Refuses(ps[0], rs[0], AllResponses(rs[1..]), code) && HandlerOk(ps[0].complete)
    ensures var o := Match(ps, AllResponses(rs)); o.Matched? && o.ops == 0 && o.res == code && |o.outs| == 1
  {
    hide Verify, Refuses, ResponseBytes, HandlerOk;
    assert AllResponses(rs) == ResponseBytes(rs[0]) + AllResponses(rs[1..]);
    hide AllResponses;
    VerifyRefuses(ps[0], rs[0], AllResponses(rs[1..]), code);
  }

  /** The responses are acceptable up to number `k`, and that one is refused with `code`; or all of
      them are acceptable, and `code` is success. */
  ghost predicate AcceptedTo(ps: seq<Pending>, rs: seq<Response>, k: nat, code: int) {
    && |ps| == |rs| && k <= |ps|
    && (forall i :: 0 <= i < |ps| ==> HandlerOk(ps[i].complete))
    && (forall i :: 0 <= i < k ==> Accepts(ps[i], rs[i]))
    && if k < |ps| then Refuses(ps[k], rs[k], AllResponses(rs[k + 1..]), code) else code == CSWP_SUCCESS
  }

  /** `k` operations counted, the result `code`, and the completion functions of those `k` run. */
  predicate Counts(o: Outcome, rs: seq<Response>, k: nat, code: int)
    requires k <= |rs|
  {
    o.Matched? && o.ops == k && o.res == code && |o.outs| >= k && o.outs[..k] == OutsOf(rs[..k])
  }

  /** On any reply the client counts exactly the responses up to the first it must refuse, returns
      that refusal's code (or success), and has run the completion functions of those alone. */
  lemma {:induction false} MatchPrefix(ps: seq<Pending>, rs: seq<Response>, k: nat, code: int)
    requires AcceptedTo(ps, rs, k, code)
    ensures k <= |rs| && Counts(Match(ps, AllResponses(rs)), rs, k, code)
    decreases |ps|
  {
    hide Accepts, HandlerOk, Match, AllResponses, Counts, OutOf;
    AcceptedTail(ps, rs, k, code);
    if k == 0 {
      MatchNone(ps, rs, code);
    } else {
      hide AcceptedTo, Refuses;
      MatchStep(ps, rs);
      MatchPrefix(ps[1..], rs[1..], k - 1, code);
      FirstOut(rs, k, code, Match(ps[1..], AllResponses(rs[1..])));
    }
  }

  lemma {:induction false} AcceptedTail(ps: seq<Pending>, rs: seq<Response>, k: nat, code: int)
    requires AcceptedTo(ps, rs, k, code)
    ensures k <= |rs| && |ps| == |rs|
    ensures k > 0 ==> Accepts(ps[0], rs[0]) && HandlerOk(ps[0].complete) && AcceptedTo(ps[1..], rs[1..], k - 1, code)
  {
    hide Accepts, HandlerOk, Refuses, AllResponses;
    if 0 < k < |rs| {
      assert rs[1..][k..] == rs[k + 1..];
    }
  }

  lemma {:induction false} MatchNone(ps: seq<Pending>, rs: seq<Response>, code: int)
    requires AcceptedTo(ps, rs, 0, code)
    ensures Counts(Match(ps, AllResponses(rs)), rs, 0, code)
  {
    hide Accepts, HandlerOk, Refuses, AllResponses;
    if ps != [] {
      MatchStop(ps, rs, code);
    }
  }

  lemma {:induction false} FirstOut(rs: seq<Response>, k: nat, code: int, o: Outcome)
    requires 0 < k <= |rs| && Counts(o, rs[1..], k - 1, code)
    ensures Counts(WithGood(OutOf(rs[0].body), o), rs, k, code)
  {
    hide OutOf;
    var first := OutOf(rs[0].body);
    assert rs[..k][1..] == rs[1..][..k - 1];
    assert ([first] + o.outs)[..k] == [first] + o.outs[..k - 1];
  }

  /** The reply frame's length and count check out, and what is matched is its responses. */
  lemma {:induction false} ReceiveReply(ps: seq<Pending>, rs: seq<Response>)
    requires |Reply(rs)| < TWO32 && |rs| < TWO64
    ensures Receive(ps, |rs|, Reply(rs)) == Match(ps, AllResponses(rs))
  {
    hide Match, AllResponses, Varint.Encode, Varint.ClientRead, LE, U32At;
    var n, all := Varint.Encode(|rs|), AllResponses(rs);
    var d := Reply(rs);
    var len := LE(|d|, 4);
    assert d == len + (n + all);
    GetPut32(|d|, n + all);
    DropFront(len, n + all);
    Varint.ClientRoundTrip(|rs|, all);
    DropFront(n, all);
    DropTwice(d, 4, |n|);
  }

  /** Which replies are refused before any response is looked at, and that all others are matched, even one
      that says it is shorter than what was received. */
  lemma {:induction false} ReceiveRefuses(ps: seq<Pending>, n: nat, size: u32, count: u64, rest: seq<byte>)
    ensures var s := LE(size, 4) + (Varint.Encode(count) + rest);
            if size > |s| || count != n then Receive(ps, n, s) == Matched(0, CSWP_RESPONSE_SIZE_ERR, [])
            else Receive(ps, n, s) == Match(ps, rest)
  {
    hide Match, Varint.Encode, Varint.ClientRead, LE, U32At;
    var len, c := LE(size, 4), Varint.Encode(count);
    var s := len + (c + rest);
    GetPut32(size, c + rest);
    DropFront(len, c + rest);
    Varint.ClientRoundTrip(count, rest);
    DropFront(c, rest);
    DropTwice(s, 4, |c|);
  }
}
