/** The client: batches of commands, framing in place, and the handling of replies.  The transport
    is abstract: what `send` and `receive` will do comes in as a `Channel`, what was sent is kept
    in a log.
 */
module CswpClient {
  import opened Bytes
  import Varint
  import opened Fields
  import opened CswpBuffer
  import opened Commands
  import opened Matching

  const REQ_HEADER_SIZE := 15
  const REQ_RSP_BUFFER_SIZE := 16384

  datatype BatchMode = BatchNone | BatchContinue | BatchAbort

  function ModeByte(m: BatchMode): byte {
    match m case BatchNone => 0 case BatchContinue => 1 case BatchAbort => 2
  }

  lemma {:induction false} ModeIs(m: BatchMode)
    ensures ModeByte(m) == match m case BatchNone => 0 case BatchContinue => 1 case BatchAbort => 2
  {
  }

  /** Results of the next send and receive, and the bytes the latter delivers. */
  datatype Channel = Channel(sendRes: int, recvRes: int, reply: seq<byte>)

  /** What the language leaves defined: a delivered reply holds its two header fields, and no
      varint in it runs past ten bytes. */
  ghost predicate ChannelOk(ch: Channel, ps: seq<Pending>, n: nat) {
    && |ch.reply| <= REQ_RSP_BUFFER_SIZE
    && (ch.sendRes == CSWP_SUCCESS && ch.recvRes == CSWP_SUCCESS ==> Receive(ps, n, ch.reply).Matched?)
  }

  /** Outcome of a transaction: the count of completed operations starts at what the caller's
      variable held and is reset once the request is out. */
  ghost function Transacted(ch: Channel, ps: seq<Pending>, n: nat, ops: nat): (o: Outcome)
    ensures o.Matched? && o.res == CSWP_SUCCESS ==> o.ops == |o.outs| == |ps|
  {
    if ch.sendRes != CSWP_SUCCESS then Matched(ops, ch.sendRes, [])
    else if ch.recvRes != CSWP_SUCCESS then Matched(0, ch.recvRes, [])
    else Receive(ps, n, ch.reply)
  }

  class Client {
    const hdr: Buffer
    const cmd: Buffer
    const rsp: Buffer
    var batchMode: BatchMode
    var numCmds: nat
    var pending: seq<Pending>
    var outputs: seq<Out>
    var sent: seq<seq<byte>>
    /** The commands in the request buffer, as long as every one of them fitted. */
    ghost var cmds: seq<Command>
    ghost var clean: bool

    ghost function Repr(): set<object>
      reads this
    {
      {this, hdr, hdr.buf, cmd, cmd.buf, rsp, rsp.buf}
    }

    ghost predicate Valid()
      reads Repr()
    {
      && hdr != cmd && cmd != rsp && rsp != hdr && hdr.buf != cmd.buf && cmd.buf != rsp.buf && rsp.buf != hdr.buf
      && hdr.buf.Length == REQ_HEADER_SIZE && cmd.buf.Length == rsp.buf.Length == REQ_RSP_BUFFER_SIZE
      && hdr.Appending() && rsp.Valid()
    }

    /** A batch (or a single call) under way: the request buffer holds the commands behind the
        space for the header, and the pending list has one entry for each of them. */
    ghost predicate Open()
      reads Repr()
    {
      && Valid() && cmd.Appending() && REQ_HEADER_SIZE + numCmds <= cmd.used
      && numCmds == |pending| && (forall i :: 0 <= i < |pending| ==> HandlerOk(pending[i].complete))
      && (clean ==> Holds(cmds, pending, cmd.buf[REQ_HEADER_SIZE..cmd.used]))
    }

    constructor ()
      ensures Valid() && fresh(Repr()) && batchMode.BatchNone? && sent == []
    {
      hdr := new Buffer(REQ_HEADER_SIZE);
      cmd := new Buffer(REQ_RSP_BUFFER_SIZE);
      rsp := new Buffer(REQ_RSP_BUFFER_SIZE);
      batchMode, numCmds, pending, outputs, sent := BatchNone, 0, [], [], [];
      cmds, clean := [], true;
    }

    /** Outside a batch the request buffer starts over, with space for the header. */
    method PrepCmdData()
      requires Valid() && (!batchMode.BatchNone? ==> Open())
      modifies this`numCmds, this`pending, this`cmds, this`clean, cmd
      ensures Open()
      ensures if batchMode.BatchNone? then pending == [] && cmds == [] && clean && cmd.used == REQ_HEADER_SIZE
              else unchanged(this, cmd)
    {
      if batchMode.BatchNone? {
        cmd.pos, cmd.used := REQ_HEADER_SIZE, REQ_HEADER_SIZE;
        pending, numCmds := [], 0;
        cmds, clean := [], true;
      }
    }

    /** `cswp_batch_begin`; inside a batch it only changes the mode. */
    method BatchBegin(abortOnError: bool)
      requires Valid() && (!batchMode.BatchNone? ==> Open())
      modifies this, cmd
      ensures Open() && batchMode == (if abortOnError then BatchAbort else BatchContinue) && sent == old(sent)
      ensures outputs == old(outputs)
      ensures if old(batchMode).BatchNone? then cmds == [] && pending == [] && clean && cmd.used == REQ_HEADER_SIZE
              else cmds == old(cmds) && pending == old(pending) && clean == old(clean) && unchanged(cmd)
    {
      PrepCmdData();
      batchMode := if abortOnError then BatchAbort else BatchContinue;
    }

    /** The encoder of a command. */
    method Encode(c: Command) returns (res: int)
      requires cmd.Appending() && Sized(c) && ShortStrings(Args(c))
      modifies cmd, cmd.buf
      ensures cmd.Appending() && cmd.used >= old(cmd.used) + if res == CSWP_SUCCESS then 1 else 0
      ensures old(cmd.used) + |CommandBytes(c)| <= cmd.buf.Length ==>
                res == CSWP_SUCCESS && cmd.Contents() == old(cmd.Contents()) + CommandBytes(c)
      ensures res != CSWP_SUCCESS && !c.RegWrite? ==> res == CSWP_BUFFER_FULL
      ensures res == CSWP_SUCCESS <==>
                old(cmd.used) + |if c.RegWrite? then CommandHead(c) else CommandBytes(c)| <= cmd.buf.Length
    {
      hide CommandBytes, CommandHead, Sized, Args, ShortStrings, PutLoose, WriteFields;
      if c.RegWrite? {
        res := EncodeRegWrite(cmd, c);
      } else {
        res := EncodeCommand(cmd, c);
      }
    }

    /** Encodes a command at the end of the request buffer and, if the encoder reports success,
        queues its pending response.  A command that does not fit may leave part of itself
        behind, and a register write succeeds when its header fits. */
    method Enqueue(c: Command, h: Handler) returns (res: int)
      requires Open() && Sized(c) && ShortStrings(Args(c)) && HandlerOk(h)
      modifies this`numCmds, this`pending, this`cmds, this`clean, cmd, cmd.buf
      ensures Open()
      ensures old(cmd.used) + |CommandBytes(c)| <= REQ_RSP_BUFFER_SIZE ==>
                res == CSWP_SUCCESS && clean == old(clean) && cmd.used == old(cmd.used) + |CommandBytes(c)|
      ensures res == CSWP_SUCCESS ==> pending == old(pending) + [Pending(Type(c), h)] && cmds == old(cmds) + [c]
      ensures res != CSWP_SUCCESS ==> pending == old(pending) && cmds == old(cmds)
      ensures clean <==> old(clean) && old(cmd.used) + |CommandBytes(c)| <= REQ_RSP_BUFFER_SIZE
      ensures res != CSWP_SUCCESS && !c.RegWrite? ==> res == CSWP_BUFFER_FULL
      ensures res == CSWP_SUCCESS <==>
                old(cmd.used) + |if c.RegWrite? then CommandHead(c) else CommandBytes(c)| <= REQ_RSP_BUFFER_SIZE
    {
      hide CommandBytes, CommandHead, Type, Sized, Args, HandlerOk, ShortStrings, Holds, PutLoose, WriteFields;
      cmd.ContentsFrom(REQ_HEADER_SIZE);
      ghost var before, room := cmd.Contents(), old(cmd.used) + |CommandBytes(c)| <= REQ_RSP_BUFFER_SIZE;
      res := Encode(c);
      clean := clean && room;
      if res == CSWP_SUCCESS {
        pending, numCmds := pending + [Pending(Type(c), h)], numCmds + 1;
        cmds := cmds + [c];
        if clean {
          cmd.ContentsFrom(REQ_HEADER_SIZE);
          DropAppend(before, CommandBytes(c), REQ_HEADER_SIZE);
          HoldsSnoc(old(cmds), old(pending), before[REQ_HEADER_SIZE..], c, h);
        }
      }
    }

    /** `cswp_client_transact_send`: the header goes into the space in front of the commands, at
        its end, so that the request is one run of bytes. */
    method TransactSend()
      requires Open()
      modifies this`sent, hdr, hdr.buf, cmd.buf
      ensures Open() && |sent| == |old(sent)| + 1 && sent[..|old(sent)|] == old(sent)
      ensures clean ==>
                IsFrame(sent[|sent| - 1], match batchMode case BatchNone => 0 case BatchContinue => 1
                        case BatchAbort => 2, cmds)
    {
      hide Holds, Varint.Encode, LE, Frame, IsFrame, HandlerOk, ModeByte;
      ModeIs(batchMode);
      ghost var commands := cmd.buf[REQ_HEADER_SIZE..cmd.used];
      BuildHeader();
      ghost var head := hdr.Contents();
      var reqOffset := REQ_HEADER_SIZE - 4 - hdr.used;
      var reqSize := (cmd.used - reqOffset) % TWO32;
      PlaceHeader(reqOffset, reqSize);
      var packet := cmd.buf[reqOffset..reqOffset + reqSize];
      ghost var all := cmd.buf[..];
      SliceJoin(all, reqOffset, REQ_HEADER_SIZE, cmd.used);
      assert packet == all[reqOffset..cmd.used] && all[reqOffset..REQ_HEADER_SIZE] == LE(reqSize, 4) + head;
      if clean {
        FrameIs(ModeByte(batchMode), cmds, pending, commands, reqSize, packet);
      }
      sent := sent + [packet];
    }

    method BuildHeader()
      requires Valid() && numCmds <= REQ_RSP_BUFFER_SIZE
      modifies hdr, hdr.buf
      ensures hdr.Appending() && hdr.used <= 4
      ensures hdr.Contents() == Varint.Encode(numCmds) + [ModeByte(batchMode)]
    {
      hide Varint.Encode;
      CountShort(numCmds);
      hdr.Clear();
      var _ := hdr.PutVarint(numCmds);
      assert hdr.Contents() == Varint.Encode(numCmds);
      var _ := hdr.PutUint8(ModeByte(batchMode));
    }

    /** The length bytes and the copy of the header buffer. */
    method PlaceHeader(at: nat, size: u32)
      requires Valid() && at + 4 + hdr.used == REQ_HEADER_SIZE <= cmd.used <= REQ_RSP_BUFFER_SIZE
      modifies cmd.buf
      ensures cmd.buf[at..REQ_HEADER_SIZE] == LE(size, 4) + hdr.Contents()
      ensures cmd.buf[REQ_HEADER_SIZE..cmd.used] == old(cmd.buf[REQ_HEADER_SIZE..cmd.used])
    {
      ghost var was := cmd.buf[..];
      LE4(size);
      cmd.buf[at] := size % 0x100;
      cmd.buf[at + 1] := size / 0x100 % 0x100;
      cmd.buf[at + 2] := size / 0x1_0000 % 0x100;
      cmd.buf[at + 3] := size / 0x100_0000 % 0x100;
      ghost var len := cmd.buf[at..at + 4];
      assert len == LE(size, 4);
      hide LE;
      ghost var mid := cmd.buf[..];
      cmd.CopyIn(at + 4, hdr.buf[..hdr.used]);
      CopiedBehind(mid, cmd.buf[..], at, hdr.Contents());
      assert cmd.buf[at..REQ_HEADER_SIZE] == cmd.buf[..][at..REQ_HEADER_SIZE];
      SameBehind(was, cmd.buf[..], cmd.used);
      assert cmd.buf[REQ_HEADER_SIZE..cmd.used] == cmd.buf[..][REQ_HEADER_SIZE..cmd.used];
    }

    /** `cswp_client_transact_receive`. */
    method TransactReceive(ch: Channel) returns (ops: nat, res: int)
      requires Open() && ch.sendRes == CSWP_SUCCESS && ChannelOk(ch, pending, numCmds)
      modifies this`outputs, rsp, rsp.buf
      ensures Valid()
      ensures Matched(ops, res, outputs) == Transacted(ch, pending, numCmds, 0)
    {
      hide Match, U32At, Varint.ClientRead;
      ops, res, outputs := 0, ch.recvRes, [];
      if res == CSWP_SUCCESS {
        rsp.CopyIn(0, ch.reply);
        rsp.used := |ch.reply|;
        assert rsp.buf[0..rsp.used] == ch.reply;
        rsp.Seek(0);
        var rspSize, numRsps;
        res, rspSize := rsp.GetUint32();
        if rspSize > rsp.used {
          res := CSWP_RESPONSE_SIZE_ERR;
          return;
        }
        rsp.UnreadBehind(0, ch.reply);
        res, numRsps := rsp.GetVarint();
        if numRsps != numCmds {
          res := CSWP_RESPONSE_SIZE_ERR;
          return;
        }
        rsp.UnreadBehind(0, ch.reply);
        ops, res := MatchResponses();
      }
    }

    /** `cswp_client_transact`: whatever happens, the pending list ends up empty. */
    method Transact(ch: Channel, opsBefore: nat) returns (ops: nat, res: int)
      requires Open() && ChannelOk(ch, pending, numCmds)
      modifies this, hdr, hdr.buf, cmd.buf, rsp, rsp.buf
      ensures Valid() && pending == [] && batchMode == old(batchMode)
      ensures Matched(ops, res, outputs) == Transacted(ch, old(pending), old(numCmds), opsBefore)
      ensures ch.sendRes != CSWP_SUCCESS ==> res == ch.sendRes && ops == opsBefore && outputs == []
      ensures ch.sendRes == CSWP_SUCCESS != ch.recvRes ==> res == ch.recvRes && ops == 0 && outputs == []
      ensures |sent| == |old(sent)| + 1 && sent[..|old(sent)|] == old(sent)
      ensures old(clean) ==>
                IsFrame(sent[|old(sent)|], match batchMode case BatchNone => 0 case BatchContinue => 1
                        case BatchAbort => 2, old(cmds))
    {
      hide IsFrame, Receive, Holds, HandlerOk;
      TransactSend();
      ops, res, outputs := opsBefore, ch.sendRes, [];
      if res == CSWP_SUCCESS {
        ops, res := TransactReceive(ch);
      }
      pending := [];
    }

    /** Every command function of the client: encode, queue, and outside a batch transact. */
    method Call(c: Command, h: Handler, ch: Channel) returns (res: int)
      requires Valid() && (!batchMode.BatchNone? ==> Open())
      requires Sized(c) && ShortStrings(Args(c)) && HandlerOk(h)
      requires batchMode.BatchNone? ==> ChannelOk(ch, [Pending(Type(c), h)], 1)
      modifies this, hdr, hdr.buf, cmd, cmd.buf, rsp, rsp.buf
      ensures Valid() && batchMode == old(batchMode)
      ensures !batchMode.BatchNone? ==> Open() && sent == old(sent)
      ensures !batchMode.BatchNone? ==>
                (if res == CSWP_SUCCESS then pending == old(pending) + [Pending(Type(c), h)] && cmds == old(cmds) + [c]
                 else pending == old(pending) && cmds == old(cmds) && !clean)
      ensures !batchMode.BatchNone? && old(cmd.used) + |CommandBytes(c)| <= REQ_RSP_BUFFER_SIZE ==>
                res == CSWP_SUCCESS && clean == old(clean) && cmd.used == old(cmd.used) + |CommandBytes(c)|
      ensures !batchMode.BatchNone? && !c.RegWrite? && old(cmd.used) + |CommandBytes(c)| > REQ_RSP_BUFFER_SIZE ==>
                res == CSWP_BUFFER_FULL
      ensures batchMode.BatchNone? && REQ_HEADER_SIZE + |CommandBytes(c)| <= REQ_RSP_BUFFER_SIZE ==>
                && |sent| == |old(sent)| + 1 && sent[..|old(sent)|] == old(sent)
                && IsFrame(sent[|old(sent)|], 0, [c])
                && exists ops :: Matched(ops, res, outputs) == Transacted(ch, [Pending(Type(c), h)], 1, 0)
      ensures batchMode.BatchNone? && !c.RegWrite? && REQ_HEADER_SIZE + |CommandBytes(c)| > REQ_RSP_BUFFER_SIZE ==>
                res == CSWP_BUFFER_FULL && sent == old(sent)
    {
      hide Sized, ShortStrings, Args, CommandBytes, CommandHead, HandlerOk, Transacted, IsFrame, ChannelOk, Holds;
      PrepCmdData();
      res := Enqueue(c, h);
      if res == CSWP_SUCCESS && batchMode.BatchNone? && numCmds > 0 {
        var ops;
        assert [] + [Pending(Type(c), h)] == [Pending(Type(c), h)] && [] + [c] == [c];
        ops, res := Transact(ch, 0);
      }
    }

    /** `cswp_batch_end`: nothing to send, nothing sent, and the caller's counter untouched. */
    method BatchEnd(ch: Channel, opsBefore: nat) returns (ops: nat, res: int)
      requires Open() && ChannelOk(ch, pending, numCmds)
      modifies this, hdr, hdr.buf, cmd.buf, rsp, rsp.buf
      ensures Valid() && batchMode.BatchNone? && pending == []
      ensures old(pending) == [] ==> res == CSWP_SUCCESS && ops == opsBefore && sent == old(sent)
      ensures old(pending) != [] ==>
                && Matched(ops, res, outputs) == Transacted(ch, old(pending), |old(pending)|, opsBefore)
                && (ch.sendRes != CSWP_SUCCESS ==> res == ch.sendRes && ops == opsBefore && outputs == [])
                && (ch.sendRes == CSWP_SUCCESS != ch.recvRes ==> res == ch.recvRes && ops == 0 && outputs == [])
                && |sent| == |old(sent)| + 1 && sent[..|old(sent)|] == old(sent)
                && (old(clean) ==>
                      IsFrame(sent[|old(sent)|], match old(batchMode) case BatchNone => 0 case BatchContinue => 1
                              case BatchAbort => 2, old(cmds)))
    {
      hide IsFrame, ChannelOk, Holds, HandlerOk, Receive;
      ops, res := opsBefore, CSWP_SUCCESS;
      if numCmds > 0 {
        ops, res := Transact(ch, opsBefore);
      }
      batchMode := BatchNone;
    }

    /** The loop over the pending list. */
    method MatchResponses() returns (ops: nat, res: int)
      requires Valid() && (forall i :: 0 <= i < |pending| ==> HandlerOk(pending[i].complete))
      requires Match(pending, rsp.Unread()).Matched? && outputs == []
      modifies this`outputs, rsp`pos
      ensures Valid()
      ensures Matched(ops, res, outputs) == Match(pending, old(rsp.Unread()))
    {
      hide Match, Verify, HandlerOk;
      ghost var all := Match(pending, rsp.Unread());
      ops, res := 0, CSWP_SUCCESS;
      MoreNone(all);
      assert pending[0..] == pending;
      while ops < |pending|
        invariant ops <= |pending| && Valid() && rsp.used == old(rsp.used)
        invariant More(ops, outputs, Match(pending[ops..], rsp.Unread())) == all && all.Matched?
        decreases |pending| - ops
      {
        ghost var s, from := rsp.Unread(), rsp.pos;
        MatchOne(pending, ops, s, outputs);
        var out;
        res, out := VerifyResponse(pending[ops]);
        outputs := outputs + [out];
        if res != CSWP_SUCCESS {
          return;
        }
        rsp.UnreadBehind(from, s);
        ops := ops + 1;
      }
      MoreEnd(pending, rsp.Unread(), ops, outputs);
      return ops, CSWP_SUCCESS;
    }

    method VerifyResponse(p: Pending) returns (res: int, out: Out)
      requires Valid() && HandlerOk(p.complete) && !Verify(p, rsp.Unread()).Undefined?
      modifies rsp`pos
      ensures Valid()
      ensures var v := Verify(p, old(rsp.Unread()));
              if v.Good? then res == CSWP_SUCCESS && out == v.out && rsp.pos == old(rsp.pos) + v.len
              else res == v.code && out == v.out
    {
      hide Varint.ClientRead, Complete, HandlerOk, VerifyError;
      ghost var s, from := rsp.Unread(), rsp.pos;
      var msgType, errCode;
      out := NoOut;
      res, msgType := rsp.GetVarint();
      if res != CSWP_SUCCESS {
        return;
      }
      ghost var t := Varint.ClientRead(s);
      rsp.UnreadBehind(from, s);
      ghost var s1, from1 := rsp.Unread(), rsp.pos;
      res, errCode := rsp.GetVarint();
      if res != CSWP_SUCCESS {
        return;
      }
      ghost var e := Varint.ClientRead(s1);
      rsp.UnreadBehind(from1, s1);
      if msgType != p.typ {
        return CSWP_UNEXPECTED_RESPONSE, NoOut;
      }
      res, out := FinishVerify(p, errCode);
    }

    /** The error message, if there is one, and the completion function. */
    method FinishVerify(p: Pending, errCode: u64) returns (res: int, out: Out)
      requires Valid() && HandlerOk(p.complete)
      requires !(if errCode == 0 then Complete(p.complete, rsp.Unread())
                 else VerifyError(p, errCode, rsp.Unread())).Undefined?
      modifies rsp`pos
      ensures Valid()
      ensures var s := old(rsp.Unread());
              var v := if errCode == 0 then Complete(p.complete, s) else VerifyError(p, errCode, s);
              if v.Good? then res == CSWP_SUCCESS && out == v.out && rsp.pos == old(rsp.pos) + v.len
              else res == v.code && out == v.out
    {
      hide Varint.ClientRead, Complete, HandlerOk;
      out := NoOut;
      if errCode != CSWP_SUCCESS {
        ghost var s, at := rsp.Unread(), rsp.pos;
        SkipMessage();
        res := Int32(errCode);
        if res != CSWP_SUCCESS {
          return;
        }
        rsp.UnreadBehind(at, s);
      }
      res, out := RunHandler(p.complete);
    }

    /** `cswp_decode_error_response_body` into the client's message buffer. */
    method SkipMessage()
      requires Valid() && !Varint.ClientRead(rsp.Unread()).TooLong?
      modifies rsp`pos
      ensures Valid() && rsp.pos == old(rsp.pos) + MessageEnd(old(rsp.Unread()))
    {
      hide Varint.ClientRead;
      var errorMsg := new byte[ERR_MSG_SIZE];
      var _, _ := rsp.GetString(errorMsg);
    }

    /** The completion functions. */
    method RunHandler(h: Handler) returns (res: int, out: Out)
      requires Valid() && HandlerOk(h) && !Complete(h, rsp.Unread()).Undefined?
      modifies rsp`pos
      ensures Valid()
      ensures var v := Complete(h, old(rsp.Unread()));
              if v.Good? then res == CSWP_SUCCESS && out == v.out && rsp.pos == old(rsp.pos) + v.len
              else res == v.code && out == v.out
    {
      hide ReadMemory, Decode;
      match h
      case NoHandler => res, out := CSWP_SUCCESS, NoOut;
      case MemReader(max) => res, out := MemReadComplete(max);
      case FieldReader(ks) => res, out := DecodeBody(ks);
    }

    method MemReadComplete(maxBytes: nat) returns (res: int, out: Out)
      requires Valid() && !ReadMemory(maxBytes, rsp.Unread()).Undefined?
      modifies rsp`pos
      ensures Valid()
      ensures var v := ReadMemory(maxBytes, old(rsp.Unread()));
              if v.Good? then res == CSWP_SUCCESS && out == v.out && rsp.pos == old(rsp.pos) + v.len
              else res == v.code && out == v.out
    {
      hide Varint.ClientRead, ReadMemory;
      ghost var s := rsp.Unread();
      ReadCases(maxBytes, s);
      var bytesRead, data;
      res, bytesRead := rsp.GetVarint();
      if res != CSWP_SUCCESS {
        return res, NoOut;
      }
      rsp.UnreadBehind(old(rsp.pos), s);
      res, data := rsp.GetDirect(bytesRead);
      if res != CSWP_SUCCESS {
        return res, NoOut;
      }
      if bytesRead > maxBytes {
        return CSWP_OUTPUT_BUFFER_OVERFLOW, MemoryOut(data[..maxBytes]);
      }
      return CSWP_SUCCESS, MemoryOut(data);
    }

    /** The body decoders: a run of checked gets. */
    method DecodeBody(ks: seq<Kind>) returns (res: int, out: Out)
      requires Valid() && HandlerOk(FieldReader(ks)) && !Decode(ks, rsp.Unread()).Undefined?
      modifies rsp`pos
      ensures Valid()
      ensures var v := Decode(ks, old(rsp.Unread()));
              if v.Good? then res == CSWP_SUCCESS && out == v.out && rsp.pos == old(rsp.pos) + v.len
              else res == v.code && out == v.out
    {
      hide Decode, Get, Endless, Decoded, HandlerOk, Fault;
      ghost var all := Decode(ks, rsp.Unread());
      var fields: seq<Field> := [];
      assert ks[0..] == ks;
      DecodedNone(all);
      for i := 0 to |ks|
        invariant Valid() && rsp.used == old(rsp.used) && old(rsp.pos) <= rsp.pos
        invariant Decoded(rsp.pos - old(rsp.pos), fields, Decode(ks[i..], rsp.Unread())) == all
      {
        ghost var s, from := rsp.Unread(), rsp.pos;
        DecodeNext(ks, i, s, from - old(rsp.pos), fields);
        var item;
        res, item := DecodeField(ks[i]);
        if res != CSWP_SUCCESS {
          return res, NoOut;
        }
        rsp.UnreadBehind(from, s);
        fields := fields + [item];
      }
      assert ks[|ks|..] == [];
      DecodedEnd(rsp.pos - old(rsp.pos), fields, rsp.Unread());
      return CSWP_SUCCESS, FieldsOut(fields);
    }

    method DecodeField(k: Kind) returns (res: int, field: Field)
      requires Valid() && HandlerOk(FieldReader([k])) && !Endless(k, rsp.Unread())
      modifies rsp`pos
      ensures Valid()
      ensures var g := Get(Client, k, old(rsp.Unread()));
              if g.Item? then res == CSWP_SUCCESS && field == g.field && rsp.pos == old(rsp.pos) + g.len
              else res == Fault(k, old(rsp.Unread())) != CSWP_SUCCESS
    {
      hide Varint.ClientRead;
      assert [k][0] == k;
      if k.KVar? {
        var v;
        res, v := rsp.GetVarint();
        field := FVar(v);
      } else {
        var str := new byte[k.room];
        var len;
        res, len := rsp.GetString(str);
        field := FStr(if len <= k.room then str[..len] else []);
      }
    }
  }

  // ---------------------------------------------------------------------------------------------
  // Proof steps

  /** The bytes behind the header are the commands, and the pending list has their types. */
  ghost predicate Holds(cmds: seq<Command>, ps: seq<Pending>, bytes: seq<byte>) {
    && |cmds| == |ps|
    && (forall i :: 0 <= i < |cmds| ==> Sized(cmds[i]) && ps[i].typ == Type(cmds[i]))
    && bytes == AllBytes(cmds)
  }

  ghost predicate IsFrame(packet: seq<byte>, mode: byte, cmds: seq<Command>) {
    && (forall i :: 0 <= i < |cmds| ==> Sized(cmds[i]))
    && packet == Frame(mode, cmds)
  }

  lemma {:induction false} HoldsSnoc(cmds: seq<Command>, ps: seq<Pending>, bytes: seq<byte>, c: Command, h: Handler)
    requires Holds(cmds, ps, bytes) && Sized(c)
    ensures Holds(cmds + [c], ps + [Pending(Type(c), h)], bytes + CommandBytes(c))
  {
    hide Sized, Type, CommandBytes, AllBytes;
    AllBytesSnoc(cmds, c);
  }

  lemma {:induction false} FrameIs(mode: byte, cmds: seq<Command>, ps: seq<Pending>, bytes: seq<byte>, size: nat,
          packet: seq<byte>)
    requires Holds(cmds, ps, bytes)
    requires var head := Varint.Encode(|ps|) + [mode];
             size == 4 + |head| + |bytes| && packet == LE(size, 4) + head + bytes
    ensures IsFrame(packet, mode, cmds)
  {
    hide Sized, Type, AllBytes, Varint.Encode, LE;
    var head := Varint.Encode(|ps|) + [mode];
    assert LE(size, 4) + head + bytes == LE(size, 4) + (head + bytes);
  }

  /** The count of a batch that fits its buffer takes at most three bytes. */
  lemma {:induction false} CountShort(n: nat)
    requires n <= REQ_RSP_BUFFER_SIZE
    ensures |Varint.Encode(n)| <= 3
  {
    Varint.EncodeLength(n, 3);
    assert Varint.Pow128(3) == 0x80 * Varint.Pow128(2) && Varint.Pow128(2) == 0x80 * Varint.Pow128(1);
    assert Varint.Pow128(1) == 0x80 * Varint.Pow128(0);
  }

  /** What the read completion makes of a response, by its two reads. */
  lemma {:induction false} ReadCases(max: nat, s: seq<byte>)
    requires !ReadMemory(max, s).Undefined?
    ensures var n := Varint.ClientRead(s);
            && !n.TooLong?
            && if !n.Got? || |s[n.len..]| < n.value then ReadMemory(max, s) == Bad(CSWP_BUFFER_EMPTY, NoOut)
               else
                 var data := s[n.len..][..n.value];
                 ReadMemory(max, s) == if n.value > max then Bad(CSWP_OUTPUT_BUFFER_OVERFLOW, MemoryOut(data[..max]))
                                       else Good(n.len + n.value, MemoryOut(data))
  {
    var n := Varint.ClientRead(s);
    hide Varint.ClientRead;
    if n.Got? && |s| - n.len >= n.value {
      DropTake(s, n.len, n.value);
      if n.value > max {
        DropTake(s, n.len, max);
        assert s[n.len..][..n.value][..max] == s[n.len..][..max];
      }
    }
  }

  lemma {:induction false} SameBehind(was: seq<byte>, now: seq<byte>, used: nat)
    requires REQ_HEADER_SIZE <= used <= |was| == |now| && now[REQ_HEADER_SIZE..] == was[REQ_HEADER_SIZE..]
    ensures now[REQ_HEADER_SIZE..used] == was[REQ_HEADER_SIZE..used]
  {
    SliceSlice(was, REQ_HEADER_SIZE, |was|, 0, used - REQ_HEADER_SIZE);
    SliceSlice(now, REQ_HEADER_SIZE, |now|, 0, used - REQ_HEADER_SIZE);
  }

  lemma {:induction false} CopiedBehind(mid: seq<byte>, after: seq<byte>, at: nat, data: seq<byte>)
    requires at + 4 + |data| <= |mid| && after == mid[..at + 4] + data + mid[at + 4 + |data|..]
    ensures after[at..at + 4 + |data|] == mid[at..at + 4] + data
    ensures after[at + 4 + |data|..] == mid[at + 4 + |data|..]
  {
  }

  /** What is left to match, behind `ops` good responses. */
  ghost function More(ops: nat, outs: seq<Out>, rest: Outcome): Outcome {
    if rest.Matched? then Matched(ops + rest.ops, rest.res, outs + rest.outs) else NoOutcome
  }

  lemma {:induction false} MoreNone(o: Outcome)
    ensures More(0, [], o) == o
  {
    if o.Matched? {
      assert [] + o.outs == o.outs;
    }
  }

  lemma {:induction false} MoreEnd(ps: seq<Pending>, s: seq<byte>, ops: nat, outs: seq<Out>)
    requires ops == |ps|
    ensures More(ops, outs, Match(ps[ops..], s)) == Matched(ops, CSWP_SUCCESS, outs)
  {
    assert ps[ops..] == [] && outs + [] == outs;
  }

  lemma {:induction false} MatchOne(ps: seq<Pending>, ops: nat, s: seq<byte>, outs: seq<Out>)
    requires ops < |ps| && Match(ps[ops..], s).Matched?
    ensures var v := Verify(ps[ops], s);
            var o := More(ops, outs, Match(ps[ops..], s));
            && !v.Undefined?
            && (v.Bad? ==> v.code != CSWP_SUCCESS && o == Matched(ops, v.code, outs + [v.out]))
            && (v.Good? ==> v.len <= |s| && o == More(ops + 1, outs + [v.out], Match(ps[ops + 1..], s[v.len..])))
  {
    hide Verify;
    assert ps[ops..][1..] == ps[ops + 1..];
    var v := Verify(ps[ops], s);
    if v.Good? {
      var o := Match(ps[ops + 1..], s[v.len..]);
      assert outs + ([v.out] + o.outs) == outs + [v.out] + o.outs;
    }
  }

  ghost function Decoded(len: nat, fields: seq<Field>, rest: Verdict): Verdict {
    if rest.Good? && rest.out.FieldsOut? then Good(len + rest.len, FieldsOut(fields + rest.out.fields)) else rest
  }

  lemma {:induction false} DecodedNone(v: Verdict)
    ensures Decoded(0, [], v) == v
  {
    if v.Good? && v.out.FieldsOut? {
      assert [] + v.out.fields == v.out.fields;
    }
  }

  lemma {:induction false} DecodedEnd(len: nat, fields: seq<Field>, s: seq<byte>)
    ensures Decoded(len, fields, Decode([], s)) == Good(len, FieldsOut(fields))
  {
    assert fields + [] == fields;
  }

  lemma {:induction false} DecodeNext(ks: seq<Kind>, i: nat, s: seq<byte>, len: nat, fields: seq<Field>)
    requires i < |ks| && !Decoded(len, fields, Decode(ks[i..], s)).Undefined? && HandlerOk(FieldReader(ks))
    ensures !Endless(ks[i], s) && HandlerOk(FieldReader([ks[i]]))
    ensures var g, d := Get(Client, ks[i], s), Decoded(len, fields, Decode(ks[i..], s));
            && (g.NoItem? ==> d == Bad(Fault(ks[i], s), NoOut))
            && (g.Item? ==> g.len <= |s| && d == Decoded(len + g.len, fields + [g.field], Decode(ks[i + 1..],
                    s[g.len..])))
  {
    hide Get, Endless, Fault;
    assert ks[i..][1..] == ks[i + 1..];
    var g := Get(Client, ks[i], s);
    if g.Item? {
      var v := Decode(ks[i + 1..], s[g.len..]);
      if v.Good? {
        assert fields + ([g.field] + v.out.fields) == fields + [g.field] + v.out.fields;
      }
    }
  }
}
