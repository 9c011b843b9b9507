/** The read thread of the USB transport sorts incoming frames into a response and an async queue
    by peeking at two bytes.
 */
module FrameSorter {
  import opened Bytes
  import Varint
  import opened Fields
  import opened CswpBuffer
  import opened Commands
  import opened Responses

  const CSWP_ASYNC_MSG_LOG := 0x4
  const CSWP_ASYNC_MSG_END := 0x5
  const CSWP_TIMEOUT := 0x22
  const FRAME_MAX := 16384

  predicate IsAsync(d: seq<byte>) {
    |d| >= 7 && d[5] == 0x80 && d[6] == 0x20
  }

  /** The frames of one kind, in their order of arrival. */
  function Pick(async: bool, ds: seq<seq<byte>>): seq<seq<byte>> {
    if ds == [] then [] else (if IsAsync(ds[0]) == async then [ds[0]] else []) + Pick(async, ds[1..])
  }

  lemma {:induction false} PickAppend(async: bool, a: seq<seq<byte>>, b: seq<seq<byte>>)
    ensures Pick(async, a + b) == Pick(async, a) + Pick(async, b)
  {
    hide IsAsync;
    if a == [] {
      assert a + b == b;
    } else {
      assert (a + b)[1..] == a[1..] + b;
      PickAppend(async, a[1..], b);
    }
  }

  /** Together the two kinds are all the frames, each exactly as often as it arrived. */
  lemma {:induction false} PickPartition(ds: seq<seq<byte>>)
    ensures multiset(Pick(true, ds)) + multiset(Pick(false, ds)) == multiset(ds)
    ensures (forall d :: d in Pick(true, ds) ==> IsAsync(d)) && (forall d :: d in Pick(false, ds) ==> !IsAsync(d))
  {
    hide IsAsync;
    if ds != [] {
      PickPartition(ds[1..]);
      assert ds == [ds[0]] + ds[1..];
    }
  }

  lemma {:induction false} PickOne(async: bool, done: seq<seq<byte>>, d: seq<byte>)
    ensures Pick(async, done + [d]) == if IsAsync(d) == async then Pick(async, done) + [d] else Pick(async, done)
  {
    hide IsAsync;
    PickAppend(async, done, [d]);
    assert [d][1..] == [];
    assert Pick(async, [d]) == (if IsAsync(d) == async then [d] else []) + Pick(async, []);
  }

  // ---------------------------------------------------------------------------------------------
  // The queues

  datatype TransferStatus = Success | NoData | Cancelled | Error

  datatype Received = Thrown | Status(code: int, data: seq<byte>)

  class Sorter {
    var respQ: seq<seq<byte>>
    var asyncQ: seq<seq<byte>>
    var running: bool
    ghost var arrived: seq<seq<byte>>
    ghost var responses: seq<seq<byte>>
    ghost var messages: seq<seq<byte>>

    /** What was handed out and what is still queued is what arrived, kind by kind and in order. */
    ghost predicate Valid()
      reads this
    {
      responses + respQ == Pick(false, arrived) && messages + asyncQ == Pick(true, arrived)
    }

    constructor ()
      ensures Valid() && arrived == [] && running
    {
      respQ, asyncQ, running, arrived, responses, messages := [], [], true, [], [], [];
    }

    /** The read thread with a completed transfer: a cancelled or empty one is submitted again,
        any other failure ends the thread. */
    method Listen(status: TransferStatus, data: seq<byte>)
      requires Valid() && running
      modifies this`respQ, this`asyncQ, this`running, this`arrived
      ensures Valid()
      ensures arrived == if status.Success? then old(arrived) + [data] else old(arrived)
      ensures running == !status.Error?
    {
      match status
      case Cancelled =>
      case NoData =>
      case Error =>
        running := false;
      case Success =>
        Push(data);
    }

    method Push(data: seq<byte>)
      requires Valid()
      modifies this`respQ, this`asyncQ, this`arrived
      ensures Valid() && arrived == old(arrived) + [data]
    {
      PickOne(true, arrived, data);
      PickOne(false, arrived, data);
      hide Pick;
      if |data| >= 7 && data[5] == 0x80 && data[6] == 0x20 {
        Behind(messages, asyncQ, data);
        asyncQ := asyncQ + [data];
      } else {
        Behind(responses, respQ, data);
        respQ := respQ + [data];
      }
      arrived := arrived + [data];
    }

    /** The waiting caller: a timeout while nothing is there; once the thread has ended it throws,
        even with responses queued. */
    method Receive() returns (r: Received)
      requires Valid()
      modifies this`respQ, this`responses
      ensures Valid()
      ensures !running ==> r == Thrown && unchanged(this)
      ensures running && old(respQ) == [] ==> r == Status(CSWP_TIMEOUT, []) && unchanged(this)
      ensures running && old(respQ) != [] ==>
                r == Status(CSWP_SUCCESS, old(respQ)[0]) && respQ == old(respQ)[1..]
                        && responses == old(responses) + [r.data]
    {
      hide Pick;
      if respQ == [] && running {
        return Status(CSWP_TIMEOUT, []);
      }
      if !running {
        return Thrown;
      }
      var resp := respQ[0];
      assert responses + [resp] + respQ[1..] == responses + respQ;
      respQ, responses := respQ[1..], responses + [resp];
      return Status(CSWP_SUCCESS, resp);
    }

    method ReceiveAsync() returns (code: int, data: seq<byte>)
      requires Valid()
      modifies this`asyncQ, this`messages
      ensures Valid()
      ensures old(asyncQ) == [] ==> code == CSWP_ASYNC_MSG_END && unchanged(this)
      ensures old(asyncQ) != [] ==>
                code == CSWP_ASYNC_MSG_LOG && [data] + asyncQ == old(asyncQ) && messages == old(messages) + [data]
    {
      hide Pick;
      if asyncQ == [] {
        return CSWP_ASYNC_MSG_END, [];
      }
      data := asyncQ[0];
      assert messages + [data] + asyncQ[1..] == messages + asyncQ;
      asyncQ, messages := asyncQ[1..], messages + [data];
      return CSWP_ASYNC_MSG_LOG, data;
    }
  }

  lemma {:induction false} Behind<T>(done: seq<T>, queue: seq<T>, x: T)
    ensures done + (queue + [x]) == done + queue + [x]
  {
  }

  // ---------------------------------------------------------------------------------------------
  // What the peek decides

  predicate AsyncFirst(rs: seq<Response>) {
    1 <= |rs| < 0x80 && rs[0].typ == CSWP_ASYNC_MESSAGE
  }

  /** The two bytes are the encoding of the async type and of nothing else. */
  lemma {:induction false} AsyncType(v: nat, rest: seq<byte>)
    ensures var s := Varint.Encode(v) + rest;
            |s| >= 2 && s[0] == 0x80 && s[1] == 0x20 <==> v == CSWP_ASYNC_MESSAGE
  {
    var e := Varint.Encode(v);
    if v > 0x7F {
      assert e[1..] == Varint.Encode(v / 0x80);
      var w := v / 0x80;
      assert e[0] == 0x80 + v % 0x80;
      if w <= 0x7F {
        assert Varint.Encode(w) == [w] && e[1] == w;
      } else {
        assert Varint.Encode(w) == [0x80 + w % 0x80] + Varint.Encode(w / 0x80);
        assert e[1] == 0x80 + w % 0x80;
      }
    }
  }

  /** A frame that fits the read buffer is taken for an async message exactly when it holds fewer
      than 128 responses and the first of them is one. */
  lemma {:induction false} PeekDecides(rs: seq<Response>)
    requires |Reply(rs)| <= FRAME_MAX
    ensures IsAsync(Reply(rs)) <==> AsyncFirst(rs)
  {
    var n, all := Varint.Encode(|rs|), AllResponses(rs);
    var d := Reply(rs);
    CountBytes(|rs|, all);
    LayOut(LE(|d|, 4), n, all, d);
    if 1 <= |rs| < 0x80 {
      FirstResponse(rs);
    }
  }

  lemma {:induction false} LayOut(len: seq<byte>, n: seq<byte>, all: seq<byte>, d: seq<byte>)
    requires |len| == 4 && d == len + (n + all)
    ensures |n| == 1 ==> |d| == 5 + |all| && forall i :: 0 <= i < |all| ==> d[5 + i] == all[i]
    ensures |n| == 2 ==> |d| >= 6 && d[5] == n[1]
  {
  }

  /** Each response takes two bytes at least, so the count takes two at most. */
  lemma {:induction false} CountBytes(n: nat, all: seq<byte>)
    requires |all| >= 2 * n && |all| < FRAME_MAX
    ensures var e := Varint.Encode(n);
            if n < 0x80 then |e| == 1 else |e| == 2 && e[1] < 0x80
  {
    if n >= 0x80 {
      assert n / 0x80 < 0x80;
      assert Varint.Encode(n) == [0x80 + n % 0x80] + Varint.Encode(n / 0x80);
    }
  }

  lemma {:induction false} FirstResponse(rs: seq<Response>)
    requires rs != []
    ensures var all := AllResponses(rs);
            |all| >= 2 && (all[0] == 0x80 && all[1] == 0x20 <==> rs[0].typ == CSWP_ASYNC_MESSAGE)
  {
    hide Varint.Encode;
    var r := rs[0];
    var rest := Varint.Encode(r.err) + BodyBytes(r.body) + AllResponses(rs[1..]);
    assert AllResponses(rs) == Varint.Encode(r.typ) + rest;
    AsyncType(r.typ, rest);
  }

  function Replies(rss: seq<seq<Response>>): seq<seq<byte>> {
    if rss == [] then [] else [Reply(rss[0])] + Replies(rss[1..])
  }

  function Choose(async: bool, rss: seq<seq<Response>>): seq<seq<Response>> {
    if rss == [] then [] else (if AsyncFirst(rss[0]) == async then [rss[0]] else []) + Choose(async, rss[1..])
  }

  /** Whatever replies and async frames a server sends, each queue receives exactly the frames of
      its kind, in the order they were sent. */
  lemma {:induction false} SortsFrames(async: bool, rss: seq<seq<Response>>)
    requires forall i :: 0 <= i < |rss| ==> |Reply(rss[i])| <= FRAME_MAX
    ensures Pick(async, Replies(rss)) == Replies(Choose(async, rss))
  {
    hide IsAsync, AsyncFirst, Reply;
    if rss != [] {
      PeekDecides(rss[0]);
      SortsFrames(async, rss[1..]);
      assert Replies(rss)[1..] == Replies(rss[1..]);
      var others := Choose(async, rss[1..]);
      if AsyncFirst(rss[0]) == async {
        assert ([rss[0]] + others)[1..] == others;
      } else {
        assert [] + others == others;
      }
    }
  }
}
