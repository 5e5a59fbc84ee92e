/** The two checksum bytes of a block, from both ends of the line. */
module YmodemChecksum {
  import opened CrcDivision
  import opened CrcWords
  import opened CrcProperties
  import Crc16

  /** The receiver's own check: divide the data as a polynomial, compare with the two bytes sent. */
  predicate ChecksumMatches(data: seq<bv8>, hi: bv8, lo: bv8) {
    Bits8(hi) + Bits8(lo) == Remainder(MessageBits(data) + Zeros(16))
  }

  /** The bytes the sender appends are the ones the receiver expects. */
  method BlockChecksum(buf: seq<bv8>) returns (crc1: bv8, crc2: bv8)
    ensures ChecksumMatches(buf, crc1, crc2)
  {
    var cksum := Crc16.Crc16Ccitt(0, buf);
    WordBytes(cksum);
    CrcIsRemainder(0, buf);
    crc1, crc2 := (cksum >> 8) as bv8, (cksum & 0xFF) as bv8;
  }

  lemma ChecksumIsUnique(data: seq<bv8>, hi: bv8, lo: bv8, hi': bv8, lo': bv8)
    requires ChecksumMatches(data, hi, lo) && ChecksumMatches(data, hi', lo')
    ensures hi == hi' && lo == lo'
  {
    var a, b := Bits8(hi) + Bits8(lo), Bits8(hi') + Bits8(lo');
    assert a == b && a[..8] == b[..8] && a[8..] == b[8..];
    Bits8Injective(hi, hi');
    Bits8Injective(lo, lo');
  }
}

/** The YMODEM sender of uboot-shell, and the receiving side of Forsberg's protocol it talks to. */
module YmodemProtocol {
  import opened Bytes
  import opened Options
  import opened YmodemChecksum

  const SOH: bv8 := 0x01
  const STX: bv8 := 0x02
  const EOT: bv8 := 0x04
  const ACK: bv8 := 0x06
  const NAK: bv8 := 0x15
  const CPMEOF: bv8 := 0x1A
  const CRC: bv8 := 0x43
  const DEFAULT_BLOCK_RETRIES: nat := 10

  // ---------- Blocks on the wire ----------

  /** A block: start byte for its size, number, complemented number, data, and the remainder of the
      data as two bytes. */
  predicate IsBlock(t: seq<bv8>, number: bv8, data: seq<bv8>) {
    && (|data| == 128 || |data| == 1024)
    && |t| == |data| + 5
    && t[0] == (if |data| == 128 then 0x01 else 0x02)
    && t[1] == number
    && t[2] == !number
    && DataOf(t) == data
    && ChecksumMatches(data, t[|data| + 3], t[|data| + 4])
  }

  /** The data field of a transmission, between its three leading and two trailing bytes. */
  function DataOf(t: seq<bv8>): seq<bv8> {
    if |t| < 5 then [] else t[3..|t| - 2]
  }

  /** Number and data determine a block completely. */
  lemma BlockIsUnique(t: seq<bv8>, u: seq<bv8>, number: bv8, data: seq<bv8>)
    requires IsBlock(t, number, data) && IsBlock(u, number, data)
    ensures t == u
  {
    var n := |data|;
    ChecksumIsUnique(data, t[n + 3], t[n + 4], u[n + 3], u[n + 4]);
    forall i | 0 <= i < |t| ensures t[i] == u[i] {
      if 3 <= i < n + 3 {
        assert t[i] == DataOf(t)[i - 3] && u[i] == DataOf(u)[i - 3];
      }
    }
  }

  /** Data bytes of a block, filled up to its size. */
  function Padded(data: seq<bv8>, pad: bv8): (r: seq<bv8>)
    requires |data| <= 1024
    ensures |r| == (if |data| > 128 then 1024 else 128) && data <= r
  {
    data + Fill((if |data| > 128 then 1024 else 128) - |data|, pad)
  }

  function Fill(n: nat, pad: bv8): (r: seq<bv8>)
    ensures |r| == n && forall i :: 0 <= i < n ==> r[i] == pad
  {
    if n == 0 then [] else Fill(n - 1, pad) + [pad]
  }

  function Next(number: bv8): bv8 { if number == 255 then 0 else number + 1 }

  // ---------- The receiver ----------

  datatype Phase = Header | Data | Trailer | Closed

  /** What the receiver has taken: the number it expects next and the accepted data fields, the
      header block first. */
  datatype Receiver = Receiver(phase: Phase, expected: bv8, blocks: seq<seq<bv8>>) {

    /** May this transmission be acknowledged? Only a well-formed block with the expected number,
        an end mark among data, or the empty-name block that ends the batch. */
    predicate Acceptable(t: seq<bv8>) {
      match phase
      case Header => IsBlock(t, 0, DataOf(t)) && DataOf(t)[0] != 0
      case Data => t == [0x04] || IsBlock(t, expected, DataOf(t))
      case Trailer => IsBlock(t, 0, DataOf(t)) && DataOf(t)[0] == 0
      case Closed => false
    }

    function Accept(t: seq<bv8>): Receiver
      requires Acceptable(t)
    {
      match phase
      case Header => Receiver(Data, 1, [DataOf(t)])
      case Data => if t == [0x04] then this.(phase := Trailer)
                   else this.(expected := Next(expected), blocks := blocks + [DataOf(t)])
      case Trailer => this.(phase := Closed)
    }
  }

  const DIGITS: seq<bv8> := [0x30, 0x31, 0x32, 0x33, 0x34, 0x35, 0x36, 0x37, 0x38, 0x39]

  function Spelled(ds: seq<nat>): seq<bv8>
    requires forall i :: 0 <= i < |ds| ==> ds[i] < 10
  {
    if ds == [] then [] else [DIGITS[ds[0]]] + Spelled(ds[1..])
  }

  function DecimalText(n: nat): seq<bv8> { Spelled(Digits(n)) }

  /** The decimal number a string starts with, if it starts with one. */
  function LeadingDigits(s: seq<bv8>): (ds: seq<nat>)
    ensures forall i :: 0 <= i < |ds| ==> ds[i] < 10
  {
    if s == [] || !(0x30 <= s[0] <= 0x39) then [] else [(s[0] - 0x30) as int] + LeadingDigits(s[1..])
  }

  function Concat(blocks: seq<seq<bv8>>): seq<bv8> {
    if blocks == [] then [] else Concat(blocks[..|blocks| - 1]) + blocks[|blocks| - 1]
  }

  /** The file a finished batch delivered: name and length from the header, contents cut to length. */
  function Received(r: Receiver): Option<(seq<bv8>, seq<bv8>)> {
    if r.phase != Closed || r.blocks == [] then None
    else
      var name := UpTo(r.blocks[0], 0);
      var length := LeadingDigits(if |name| < |r.blocks[0]| then r.blocks[0][|name| + 1..] else []);
      var contents := Concat(r.blocks[1..]);
      if length == [] || Value(length) > |contents| then None
      else Some((name, contents[..Value(length)]))
  }

  lemma DigitValue(d: nat)
    requires d < 10
    ensures 0x30 <= DIGITS[d] <= 0x39 && (DIGITS[d] - 0x30) as int == d
  {
    match d
    case 0 => case 1 => case 2 => case 3 => case 4 => case 5 => case 6 => case 7 => case 8 => case _ =>
  }

  lemma {:induction false} LeadingDigitsOf(ds: seq<nat>, rest: seq<bv8>)
    requires forall i :: 0 <= i < |ds| ==> ds[i] < 10
    requires rest == [] || !(0x30 <= rest[0] <= 0x39)
    ensures LeadingDigits(Spelled(ds) + rest) == ds
  {
    if ds == [] {
      assert Spelled(ds) + rest == rest;
    } else {
      assert (Spelled(ds) + rest)[1..] == Spelled(ds[1..]) + rest;
      LeadingDigitsOf(ds[1..], rest);
      DigitValue(ds[0]);
      assert ds == [ds[0]] + ds[1..];
    }
  }

  // ---------- The contents of a transfer ----------

  function HeaderText(name: seq<bv8>, size: nat): seq<bv8> {
    name + [0] + DecimalText(size) + [0]
  }

  /** The data fields of a file: 1024 bytes at a time, the rest filled with CP/M end-of-file. */
  function Chunks(file: seq<bv8>): (r: seq<seq<bv8>>) {
    if file == [] then []
    else if |file| <= 1024 then [Padded(file, 0x1A)]
    else [Padded(file[..1024], 0x1A)] + Chunks(file[1024..])
  }

  lemma {:induction false} ChunksSnoc(done: seq<bv8>, chunk: seq<bv8>)
    requires |done| % 1024 == 0 && 0 < |chunk| <= 1024
    ensures Chunks(done + chunk) == Chunks(done) + [Padded(chunk, 0x1A)]
    decreases |done|
  {
    if done == [] {
      assert done + chunk == chunk;
      assert |chunk| == 1024 ==> chunk[..1024] == chunk;
    } else {
      var all := done + chunk;
      assert all[..1024] == done[..1024] && all[1024..] == done[1024..] + chunk;
      ChunksSnoc(done[1024..], chunk);
      if |done| == 1024 {
        assert done[..1024] == done && done[1024..] == [];
        assert Chunks(done) == [Padded(done, 0x1A)] + Chunks([]);
      }
      assert Chunks(all) == [Padded(done[..1024], 0x1A)] + Chunks(all[1024..]);
    }
  }

  /** Concatenating the data fields gives the file back, followed by filling only. */
  lemma {:induction false} ConcatChunks(file: seq<bv8>)
    ensures file <= Concat(Chunks(file))
    decreases |file|
  {
    if file == [] {
    } else if |file| <= 1024 {
      assert Chunks(file)[..0] == [];
      assert Concat(Chunks(file)) == [] + Padded(file, 0x1A);
    } else {
      var head := Padded(file[..1024], 0x1A);
      assert head == file[..1024];
      ConcatChunks(file[1024..]);
      ConcatCons(head, Chunks(file[1024..]));
      assert file == file[..1024] + file[1024..];
    }
  }

  lemma {:induction false} ConcatCons(head: seq<bv8>, blocks: seq<seq<bv8>>)
    ensures Concat([head] + blocks) == head + Concat(blocks)
    decreases |blocks|
  {
    var all := [head] + blocks;
    if blocks == [] {
      assert all[..0] == [];
    } else {
      assert all[..|all| - 1] == [head] + blocks[..|blocks| - 1];
      ConcatCons(head, blocks[..|blocks| - 1]);
    }
  }

  lemma HeaderParses(name: seq<bv8>, size: nat, fill: seq<bv8>)
    requires 0 !in name
    ensures UpTo(HeaderText(name, size) + fill, 0) == name
    ensures |HeaderText(name, size)| > |name|
    ensures LeadingDigits((HeaderText(name, size) + fill)[|name| + 1..]) == Digits(size)
  {
    hide UpTo, LeadingDigits, Digits, Spelled;
    var digits := DecimalText(size);
    var block := HeaderText(name, size) + fill;
    assert block == name + [0] + (digits + [0] + fill);
    UpToOf(name, 0, digits + [0] + fill);
    assert block[|name| + 1..] == digits + ([0] + fill);
    LeadingDigitsOf(Digits(size), [0] + fill);
  }

  /** No receiver ever takes a name with a NUL in it. */
  lemma ReceivedName(r: Receiver)
    ensures Received(r).Some? ==> 0 !in Received(r).value.0
  {
    hide LeadingDigits, Concat, Value;
  }

  /** A receiver that took the header and the chunks of a file, and closed, has received that file. */
  lemma ReceivedFile(r: Receiver, name: seq<bv8>, file: seq<bv8>)
    requires 0 !in name && |HeaderText(name, |file|)| <= 1024
    requires r.phase == Closed && r.blocks == [Padded(HeaderText(name, |file|), 0)] + Chunks(file)
    ensures Received(r) == Some((name, file))
  {
    hide UpTo, LeadingDigits, Digits, Value, Concat, Chunks, HeaderText;
    var text := HeaderText(name, |file|);
    var block := Padded(text, 0);
    var fill := block[|text|..];
    var ds := Digits(|file|);
    assert block == text + fill;
    HeaderParses(name, |file|, fill);
    assert r.blocks[0] == block == text + fill;
    assert LeadingDigits(block[|name| + 1..]) == Digits(|file|);
    ValueOfDigits(|file|);
    assert r.blocks[1..] == Chunks(file);
    ConcatChunks(file);
    assert Concat(r.blocks[1..])[..|file|] == file;
  }
}

/** The sender: `Ymodem::send` against a line with such a receiver at its other end. */
module Ymodem {
  import opened Bytes
  import opened Options
  import opened YmodemChecksum
  import opened YmodemProtocol

  /** Bytes a receiver may print besides its replies. */
  predicate IsChatter(s: seq<bv8>) { 0x06 !in s && 0x15 !in s && 0x43 !in s }

  /** What a sender reading `inbox` sees first: the acknowledgement, its negation, or the end. */
  datatype Verdict = Acked | Refused | Silent

  function FirstReply(inbox: seq<bv8>): (Verdict, seq<bv8>) {
    if inbox == [] then (Silent, [])
    else if inbox[0] == 0x06 then (Acked, inbox[1..])
    else if inbox[0] == 0x43 then (Refused, inbox[1..])
    else FirstReply(inbox[1..])
  }

  lemma {:induction false} FirstReplyAfterChatter(chatter: seq<bv8>, reply: bv8, rest: seq<bv8>)
    requires IsChatter(chatter) && reply in {ACK, CRC}
    ensures FirstReply(chatter + [reply] + rest) == (if reply == ACK then Acked else Refused, rest)
  {
    var inbox := chatter + [reply] + rest;
    if chatter == [] {
      assert inbox[1..] == rest;
    } else {
      assert inbox[0] == chatter[0] && chatter[0] in chatter;
      assert inbox[1..] == chatter[1..] + [reply] + rest;
      FirstReplyAfterChatter(chatter[1..], reply, rest);
    }
  }

  /** One transmission, and whether it was acknowledged. */
  datatype Sent = Sent(bytes: seq<bv8>, acked: bool)

  /** A block that was refused `n` times. */
  function Refusals(block: seq<bv8>, n: nat): (r: seq<Sent>)
    ensures |r| == n && forall i :: 0 <= i < n ==> r[i] == Sent(block, false)
  {
    if n == 0 then [] else Refusals(block, n - 1) + [Sent(block, false)]
  }

  /** A block that was sent `n` times, and acknowledged the last time or not. */
  function Repeated(block: seq<bv8>, n: nat, acked: bool): (r: seq<Sent>)
    requires n > 0
  {
    Refusals(block, n - 1) + [Sent(block, acked)]
  }

  /** Every block of `blocks` in order, the i-th transmitted `counts[i]` times and then acknowledged, except
      perhaps the last. */
  function Transmissions(blocks: seq<seq<bv8>>, counts: seq<nat>, acked: bool): seq<Sent>
    requires |blocks| == |counts| && forall i :: 0 <= i < |counts| ==> counts[i] > 0
  {
    if blocks == [] then []
    else
      var k := |blocks| - 1;
      Transmissions(blocks[..k], counts[..k], true) + Repeated(blocks[k], counts[k], acked)
  }

  /** Everything sent is these blocks, each transmitted between once and ten times. */
  ghost predicate IsLog(sent: seq<Sent>, blocks: seq<seq<bv8>>, counts: seq<nat>, acked: bool) {
    && |blocks| == |counts|
    && (forall i :: 0 <= i < |counts| ==> 1 <= counts[i] <= 10)
    && sent == Transmissions(blocks, counts, acked)
  }

  /** Why no more blocks are sent: the last one was refused ten times, or it was the end mark, which is sent
      once. */
  predicate GivenUp(blocks: seq<seq<bv8>>, counts: seq<nat>) {
    |blocks| == |counts| > 0 && counts[|counts| - 1] == (if blocks[|blocks| - 1] == [0x04] then 1 else 10)
  }

  lemma LogSnoc(sent: seq<Sent>, before: seq<Sent>, blocks: seq<seq<bv8>>, counts: seq<nat>,
                block: seq<bv8>, n: nat, acked: bool)
    requires IsLog(before, blocks, counts, true) && 1 <= n <= 10
    requires sent == before + Repeated(block, n, acked)
    ensures IsLog(sent, blocks + [block], counts + [n], acked)
  {
    assert (blocks + [block])[..|blocks|] == blocks && (counts + [n])[..|counts|] == counts;
  }

  /** The line to the receiver. Each flush is one transmission, answered by one reply. */
  class Line {
    var receiver: Receiver
    var wire: seq<bv8>
    var inbox: seq<bv8>
    ghost var sent: seq<Sent>
    /** Whether the last reply came with a request for the next batch. */
    ghost var asked: bool

    constructor ()
      ensures receiver == Receiver.Receiver(Header, 0, []) && wire == [] && inbox == [] && sent == []
    {
      receiver := Receiver.Receiver(Header, 0, []);
      wire, inbox, sent, asked := [], [], [], false;
    }

    method WriteAll(bytes: seq<bv8>)
      modifies this`wire
      ensures wire == old(wire) + bytes
    {
      wire := wire + bytes;
    }

    /** Delivers what was written. The receiver acknowledges only what it may accept, and may always
        answer 'C' instead; it may print other bytes first, and asks for the next batch once closed. */
    method Flush() returns (acked: bool, ghost chatter: seq<bv8>, ghost request: seq<bv8>)
      modifies this
      ensures wire == [] && sent == old(sent) + [Sent(old(wire), acked)] && asked == (request != [])
      ensures acked ==> old(receiver).Acceptable(old(wire)) && receiver == old(receiver).Accept(old(wire))
      ensures !acked ==> receiver == old(receiver)
      ensures IsReply(chatter, request, receiver) && inbox == old(inbox) + Reply(chatter, acked, request)
    {
      acked := *;
      acked := acked && receiver.Acceptable(wire);
      if acked {
        receiver := receiver.Accept(wire);
      }
      var printed: seq<bv8> := *;
      if !IsChatter(printed) {
        printed := [];
      }
      var asks: bool := *;
      var more := if asks && receiver.phase == Closed then [CRC] else [];
      inbox := inbox + Reply(printed, acked, more);
      sent, wire, asked := sent + [Sent(wire, acked)], [], more != [];
      chatter, request := printed, more;
    }

    /** `getc`: the next byte from the receiver, or nothing when it stays silent. */
    method ReadByte() returns (b: Option<bv8>)
      modifies this`inbox
      ensures old(inbox) == [] ==> b == None && inbox == []
      ensures old(inbox) != [] ==> b == Some(old(inbox)[0]) && inbox == old(inbox)[1..]
    {
      if inbox == [] {
        return None;
      }
      b := Some(inbox[0]);
      inbox := inbox[1..];
    }
  }

  predicate IsReply(chatter: seq<bv8>, request: seq<bv8>, receiver: Receiver) {
    IsChatter(chatter) && (request == [] || (request == [CRC] && receiver.phase == Closed))
  }

  function Reply(chatter: seq<bv8>, acked: bool, request: seq<bv8>): seq<bv8> {
    chatter + [if acked then ACK else CRC] + request
  }

  lemma ReplyVerdict(chatter: seq<bv8>, acked: bool, request: seq<bv8>)
    requires IsChatter(chatter)
    ensures FirstReply([] + Reply(chatter, acked, request)) == (if acked then Acked else Refused, request)
  {
    assert [] + Reply(chatter, acked, request) == chatter + [if acked then ACK else CRC] + request;
    FirstReplyAfterChatter(chatter, if acked then ACK else CRC, request);
  }

  /** `Ymodem` in CRC mode. */
  class Sender {
    var blk: bv8

    constructor ()
      ensures blk == 0
    {
      blk := 0;
    }

    /** Reads up to the first acknowledgement or refusal; everything else goes to the console. */
    method WaitAck(line: Line) returns (v: Verdict)
      modifies line`inbox
      ensures (v, line.inbox) == FirstReply(old(line.inbox))
    {
      while true
        invariant FirstReply(line.inbox) == FirstReply(old(line.inbox))
        decreases |line.inbox|
      {
        var c := line.ReadByte();
        match c
        case None => return Silent;
        case Some(b) =>
          if b == ACK { return Acked; }
          if b == CRC { return Refused; }
      }
    }

    /** One transmission of a block and the reply to it. */
    method Attempt(line: Line, number: bv8, buf: seq<bv8>) returns (acked: bool, ghost block: seq<bv8>)
      requires (|buf| == 128 || |buf| == 1024)
      requires line.wire == [] && line.inbox == [] && line.receiver.phase != Closed
      modifies line
      ensures IsBlock(block, number, buf) && line.wire == [] && line.sent == old(line.sent) + [Sent(block, acked)]
      ensures acked ==> old(line.receiver).Acceptable(block) && line.receiver == old(line.receiver).Accept(block)
      ensures !acked ==> line.receiver == old(line.receiver)
      ensures line.inbox == (if line.asked then [CRC] else []) && (line.asked ==> line.receiver.phase == Closed)
    {
      line.WriteAll([if |buf| == 1024 then STX else SOH, number, !number]);
      line.WriteAll(buf);
      var crc1, crc2 := BlockChecksum(buf);
      line.WriteAll([crc1, crc2]);
      AssembledIsBlock(line.wire, number, buf, crc1, crc2);
      block := line.wire;
      ghost var answer, chatter, request := line.Flush();
      ReplyVerdict(chatter, answer, request);
      var v := WaitAck(line);
      acked := v == Acked;
    }

    /** Writes one block, again until it is acknowledged, at most ten times, identical each time. */
    method SendBlock(line: Line, data: seq<bv8>, pad: bv8, last: bool)
      returns (ok: bool, ghost block: seq<bv8>, ghost n: nat)
      requires 0 < |data| <= 1024
      requires line.wire == [] && line.inbox == [] && line.receiver.phase != Closed
      modifies this, line
      ensures line.wire == [] && IsBlock(block, if last then 0 else old(blk), Padded(data, pad))
      ensures 1 <= n <= 10 && (!ok ==> n == 10)
      ensures line.sent == old(line.sent) + Repeated(block, n, ok)
      ensures blk == if ok then Next(old(blk)) else old(blk)
      ensures ok ==> old(line.receiver).Acceptable(block) && line.receiver == old(line.receiver).Accept(block)
      ensures !ok ==> line.receiver == old(line.receiver)
      ensures line.inbox == (if line.asked then [CRC] else []) && (line.asked ==> line.receiver.phase == Closed)
    {
      var number := if last then 0 else blk;
      var buf := Padded(data, pad);
      var retries := DEFAULT_BLOCK_RETRIES;
      block, n := [], 0;
      while true
        invariant 0 <= retries <= DEFAULT_BLOCK_RETRIES && n == DEFAULT_BLOCK_RETRIES - retries
        invariant line.wire == [] && line.inbox == [] && line.receiver == old(line.receiver)
        invariant line.sent == old(line.sent) + Refusals(block, n)
        invariant n > 0 ==> IsBlock(block, number, buf) && line.inbox == if line.asked then [CRC] else []
        invariant blk == old(blk)
        decreases retries
      {
        if retries == 0 {
          return false, block, n;
        }
        ghost var attempt;
        ok, attempt := Attempt(line, number, buf);
        if n > 0 {
          BlockIsUnique(block, attempt, number, buf);
        }
        block, n := attempt, n + 1;
        if ok {
          break;
        }
        retries := retries - 1;
      }
      blk := Next(blk);
    }

    /** `send`: the header, the file in blocks of 1024, the end mark, and the block that ends the batch. It
        succeeds exactly if each of them was acknowledged and another batch is asked for; it gives up only on a
        block that was refused ten times, or on the end mark. */
    method Send(line: Line, name: seq<bv8>, file: seq<bv8>)
      returns (ok: bool, ghost blocks: seq<seq<bv8>>, ghost counts: seq<nat>, ghost acked: bool)
      requires |HeaderText(name, |file|)| <= 1024
      requires line.receiver == Receiver.Receiver(Header, 0, []) && line.wire == [] && line.inbox == [] && line.sent == []
      modifies this, line
      ensures ok ==> (Received(line.receiver) == Some((name, file)) <==> 0 !in name)
      ensures IsLog(line.sent, blocks, counts, acked)
      ensures ok <==> acked && line.asked
      ensures acked ==> old(blk) == 0 && IsTransfer(blocks, HeaderText(name, |file|), Chunks(file))
      ensures !acked ==> GivenUp(blocks, counts)
    {
      hide IsLog, IsTransfer, GivenUp, Chunks;
      ok, blocks, counts, acked := Transfer(line, name + [0] + DecimalText(|file|) + [0], file);
      if ok && 0 !in name {
        ReceivedFile(line.receiver, name, file);
      } else if ok {
        ReceivedName(line.receiver);
      }
    }

    method Transfer(line: Line, header: seq<bv8>, file: seq<bv8>)
      returns (ok: bool, ghost blocks: seq<seq<bv8>>, ghost counts: seq<nat>, ghost acked: bool)
      requires 0 < |header| <= 1024
      requires line.receiver == Receiver.Receiver(Header, 0, []) && line.wire == [] && line.inbox == [] && line.sent == []
      modifies this, line
      ensures ok ==> line.receiver.phase == Closed && line.receiver.blocks == [Padded(header, 0)] + Chunks(file)
      ensures IsLog(line.sent, blocks, counts, acked)
      ensures ok <==> acked && line.asked
      ensures acked ==> old(blk) == 0 && IsTransfer(blocks, header, Chunks(file))
      ensures !acked ==> GivenUp(blocks, counts)
    {
      hide IsBlock, IsLog, IsTransfer, GivenUp, AreDataBlocks, Chunks, Padded;
      ghost var p;
      ok, p := SendHeader(line, header);
      if !ok {
        return false, p.blocks, p.counts, false;
      }
      ok, p := SendContents(line, file, p, header);
      if !ok {
        return false, p.blocks, p.counts, false;
      }
      ok, blocks, counts, acked := Finish(line, p.blocks, p.counts);
      if acked {
        TransferComplete(p.blocks, blocks, header, Chunks(file));
      }
    }

    /** The first block: the name and the size. */
    method SendHeader(line: Line, header: seq<bv8>) returns (ok: bool, ghost p: Progress)
      requires 0 < |header| <= 1024
      requires line.receiver == Receiver.Receiver(Header, 0, []) && line.wire == [] && line.inbox == [] && line.sent == []
      modifies this, line
      ensures line.wire == [] && IsLog(line.sent, p.blocks, p.counts, ok)
      ensures ok ==> old(blk) == 0 && p.chunks == [] && line.inbox == [] && p.Holds(line.receiver, line.sent, blk, header)
      ensures !ok ==> GivenUp(p.blocks, p.counts)
    {
      hide ChecksumMatches, Padded;
      ghost var block, n;
      ok, block, n := SendBlock(line, header, 0, false);
      LogSnoc(line.sent, [], [], [], block, n, ok);
      p := Progress([] + [block], [] + [n], []);
      if ok {
        AcceptHeader(old(line.receiver), block, old(blk), header);
      } else {
        NotTheEnd(block, old(blk), Padded(header, 0));
      }
    }

    /** The read loop: the file in blocks of up to 1024 bytes. */
    method SendContents(line: Line, file: seq<bv8>, ghost first: Progress, ghost header: seq<bv8>)
      returns (ok: bool, ghost p: Progress)
      requires line.wire == [] && line.inbox == [] && first.chunks == []
      requires first.Holds(line.receiver, line.sent, blk, header)
      modifies this, line
      ensures line.wire == [] && IsLog(line.sent, p.blocks, p.counts, ok)
      ensures !ok ==> GivenUp(p.blocks, p.counts)
      ensures ok ==> line.inbox == [] && p.chunks == Chunks(file)
      ensures ok ==> p.Holds(line.receiver, line.sent, blk, header)
    {
      ok, p := true, first;
      var size := 0;
      ghost var k: nat := 0;
      while size < |file|
        invariant 0 <= size <= |file| && (size == 1024 * k || size == |file|)
        invariant p.chunks == Chunks(file[..size])
        invariant ok && line.wire == [] && line.inbox == []
        invariant p.Holds(line.receiver, line.sent, blk, header)
      {
        var next := if |file| - size < 1024 then |file| else size + 1024;
        ChunksExtended(file, size, k, next);
        ok, p := SendChunk(line, file[size..next], p, header);
        if !ok {
          return;
        }
        size, k := next, k + 1;
      }
      assert file[..size] == file;
    }

    /** One block of file data, after the blocks already sent. */
    method SendChunk(line: Line, data: seq<bv8>, ghost before: Progress, ghost header: seq<bv8>)
      returns (ok: bool, ghost p: Progress)
      requires 0 < |data| <= 1024 && line.wire == [] && line.inbox == []
      requires before.Holds(line.receiver, line.sent, blk, header)
      modifies this, line
      ensures line.wire == [] && IsLog(line.sent, p.blocks, p.counts, ok)
      ensures !ok ==> GivenUp(p.blocks, p.counts)
      ensures ok ==> line.inbox == [] && p.chunks == before.chunks + [Padded(data, 0x1A)]
      ensures ok ==> p.Holds(line.receiver, line.sent, blk, header)
    {
      ghost var block, n;
      ok, block, n := SendBlock(line, data, CPMEOF, false);
      LogSnoc(line.sent, old(line.sent), before.blocks, before.counts, block, n, ok);
      p := Progress(before.blocks + [block], before.counts + [n], before.chunks + [Padded(data, CPMEOF)]);
      if ok {
        AcceptData(old(line.receiver), block, old(blk), Padded(data, CPMEOF));
        DataBlocksSnoc(before.blocks, header, before.chunks, block, old(blk), Padded(data, CPMEOF));
        NextNumber(old(blk), |before.blocks|);
      } else {
        NotTheEnd(block, old(blk), Padded(data, CPMEOF));
      }
    }

    /** The end mark, the block that ends the batch, and the request for another one. */
    method Finish(line: Line, ghost before: seq<seq<bv8>>, ghost counts: seq<nat>)
      returns (ok: bool, ghost blocks: seq<seq<bv8>>, ghost tally: seq<nat>, ghost acked: bool)
      requires line.wire == [] && line.inbox == [] && IsLog(line.sent, before, counts, true)
      requires line.receiver.phase == Data
      modifies this, line
      ensures IsLog(line.sent, blocks, tally, acked)
      ensures ok <==> acked && line.asked
      ensures !acked ==> GivenUp(blocks, tally)
      ensures acked ==> line.receiver == old(line.receiver).(phase := Closed)
      ensures acked ==> |blocks| == |before| + 2 && before <= blocks && blocks[|before|] == [0x04]
                        && IsBlock(blocks[|before| + 1], 0, Padded([0], 0))
    {
      hide IsBlock, IsLog, Padded;
      line.WriteAll([EOT]);
      assert line.wire == [EOT];
      ghost var chatter, request;
      acked, chatter, request := line.Flush();
      LogSnoc(line.sent, old(line.sent), before, counts, [EOT], 1, acked);
      blocks, tally := before + [[EOT]], counts + [1];
      ReplyVerdict(chatter, acked, request);
      var v := WaitAck(line);
      ok := v == Acked;
      if !ok {
        return;
      }
      assert line.receiver == old(line.receiver).(phase := Trailer);
      ghost var sent, receiver := line.sent, line.receiver;
      ghost var block, n;
      ok, block, n := SendBlock(line, [0], 0, true);
      LogSnoc(line.sent, sent, blocks, tally, block, n, ok);
      blocks, tally, acked := blocks + [block], tally + [n], ok;
      if ok {
        AcceptTrailer(receiver, block);
        ok := WaitForStart(line);
      } else {
        NotTheEnd(block, 0, Padded([0], 0));
      }
    }

    method WaitForStart(line: Line) returns (ok: bool)
      modifies line`inbox
      ensures ok <==> (0x43 in old(line.inbox) || 0x15 in old(line.inbox))
    {
      while true
        invariant (CRC in line.inbox || NAK in line.inbox) <==> (CRC in old(line.inbox) || NAK in old(line.inbox))
        decreases |line.inbox|
      {
        var c := line.ReadByte();
        match c
        case None => return false;
        case Some(b) =>
          if b == NAK || b == CRC { return true; }
      }
    }
  }

  lemma NotTheEnd(block: seq<bv8>, number: bv8, data: seq<bv8>)
    requires IsBlock(block, number, data)
    ensures block != [0x04]
  {}

  lemma AssembledIsBlock(t: seq<bv8>, number: bv8, buf: seq<bv8>, crc1: bv8, crc2: bv8)
    requires (|buf| == 128 || |buf| == 1024) && ChecksumMatches(buf, crc1, crc2)
    requires t == [if |buf| == 1024 then STX else SOH, number, !number] + buf + [crc1, crc2]
    ensures IsBlock(t, number, buf)
  {
    assert DataOf(t) == buf;
    assert t[|buf| + 3] == crc1 && t[|buf| + 4] == crc2;
  }

  /** The i-th block of a transfer: it carries i modulo 256. */
  ghost predicate IsNumbered(block: seq<bv8>, i: nat, data: seq<bv8>) {
    |block| > 1 && block[1] as int == i % 256 && IsBlock(block, block[1], data)
  }

  /** Header and data blocks of a transfer, numbered from 0 and wrapping after 255. */
  ghost predicate AreDataBlocks(blocks: seq<seq<bv8>>, header: seq<bv8>, chunks: seq<seq<bv8>>) {
    && |blocks| == |chunks| + 1
    && |header| <= 1024 && IsBlock(blocks[0], 0, Padded(header, 0))
    && forall i :: 0 < i < |blocks| ==> IsNumbered(blocks[i], i, chunks[i - 1])
  }

  /** How far a transfer has come: the blocks sent, how often each, and the data fields accepted. */
  datatype Progress = Progress(blocks: seq<seq<bv8>>, counts: seq<nat>, chunks: seq<seq<bv8>>) {
    ghost predicate Holds(r: Receiver, sent: seq<Sent>, blk: bv8, header: seq<bv8>) {
      && AreDataBlocks(blocks, header, chunks)
      && r == Receiver.Receiver(Data, blk, [Padded(header, 0)] + chunks)
      && blk as int == |blocks| % 256
      && IsLog(sent, blocks, counts, true)
    }
  }

  /** All blocks of a complete transfer. */
  ghost predicate IsTransfer(blocks: seq<seq<bv8>>, header: seq<bv8>, chunks: seq<seq<bv8>>) {
    && |blocks| >= 2
    && AreDataBlocks(blocks[..|blocks| - 2], header, chunks)
    && blocks[|blocks| - 2] == [0x04]
    && IsBlock(blocks[|blocks| - 1], 0, Padded([0], 0))
  }

  lemma TransferComplete(data: seq<seq<bv8>>, blocks: seq<seq<bv8>>, header: seq<bv8>, chunks: seq<seq<bv8>>)
    requires AreDataBlocks(data, header, chunks) && data <= blocks
    requires |blocks| == |data| + 2 && blocks[|data|] == [0x04]
    requires IsBlock(blocks[|data| + 1], 0, Padded([0], 0))
    ensures IsTransfer(blocks, header, chunks)
  {
    assert blocks[..|blocks| - 2] == data;
  }

  lemma NextNumber(number: bv8, i: nat)
    requires number as int == i % 256
    ensures Next(number) as int == (i + 1) % 256
  {
    if number != 255 {
      assert (number + 1) as int == number as int + 1;
    }
  }

  lemma DataBlocksSnoc(blocks: seq<seq<bv8>>, header: seq<bv8>, chunks: seq<seq<bv8>>, block: seq<bv8>, number: bv8,
                       data: seq<bv8>)
    requires AreDataBlocks(blocks, header, chunks)
    requires number as int == |blocks| % 256 && IsBlock(block, number, data)
    ensures AreDataBlocks(blocks + [block], header, chunks + [data])
  {
    var longer, fields := blocks + [block], chunks + [data];
    assert IsNumbered(block, |blocks|, data);
    forall i | 0 < i < |longer| ensures IsNumbered(longer[i], i, fields[i - 1]) {
      if i < |blocks| {
        assert longer[i] == blocks[i] && fields[i - 1] == chunks[i - 1];
      }
    }
  }

  lemma ChunksExtended(file: seq<bv8>, size: nat, k: nat, next: nat)
    requires size == 1024 * k < next <= |file| && next - size <= 1024
    ensures Chunks(file[..next]) == Chunks(file[..size]) + [Padded(file[size..next], 0x1A)]
  {
    ChunksSnoc(file[..size], file[size..next]);
    assert file[..next] == file[..size] + file[size..next];
  }

  lemma AcceptHeader(r: Receiver, block: seq<bv8>, number: bv8, header: seq<bv8>)
    requires r == Receiver.Receiver(Header, 0, []) && 0 < |header| <= 1024
    requires IsBlock(block, number, Padded(header, 0)) && r.Acceptable(block)
    ensures number == 0 && r.Accept(block) == Receiver.Receiver(Data, 1, [Padded(header, 0)])
  {
  }

  lemma AcceptData(r: Receiver, block: seq<bv8>, number: bv8, data: seq<bv8>)
    requires r.phase == Data && number == r.expected && IsBlock(block, number, data) && r.Acceptable(block)
    ensures r.Accept(block) == Receiver.Receiver(Data, Next(number), r.blocks + [data])
  {
  }

  lemma AcceptTrailer(r: Receiver, block: seq<bv8>)
    requires r.phase == Trailer && IsBlock(block, 0, Padded([0], 0)) && r.Acceptable(block)
    ensures r.Accept(block) == r.(phase := Closed)
  {}
}
