/** A scan reads a port until a wanted identity appears, then hands the open stream, and what it has
    read last, to a lease.
  */
module SerialHandOver {
  import opened Bytes
  import opened Options
  import opened Beacon

  const PREFIX_LIMIT: nat := 65536

  function LastBytes(s: seq<byte>, n: nat): (r: seq<byte>) {
    if |s| <= n then s else s[|s| - n..]
  }

  /** Trimming after every read keeps what trimming once at the end would keep. */
  lemma LastBytesAppend(s: seq<byte>, t: seq<byte>, n: nat)
    ensures LastBytes(LastBytes(s, n) + t, n) == LastBytes(s + t, n)
  {
    if |s| > n {
      var kept := s[|s| - n..];
      assert s + t == s[..|s| - n] + (kept + t);
      if |t| == 0 {
        assert kept + t == kept && s + t == s;
      } else {
        assert (s + t)[|s + t| - n..] == (kept + t)[|kept + t| - n..];
      }
    }
  }

  /** Two adjacent stretches of a stream make one. */
  lemma Adjacent(s: seq<byte>, i: nat, j: nat, k: nat)
    requires i <= j <= k <= |s|
    ensures s[i..j] + s[j..k] == s[i..k]
  {}

  lemma OneMore(s: seq<byte>, i: nat, j: nat)
    requires i <= j < |s|
    ensures s[i..j] + [s[j]] == s[i..j + 1]
  {}

  /** An open port: the bytes the device will ever send, how many were read, how often it was read, and how
      many of these reads failed or gave nothing. */
  class Stream {
    const input: seq<byte>
    var pos: nat
    ghost var calls: nat
    ghost var ended: nat

    ghost predicate Valid()
      reads this
    {
      pos <= |input|
    }

    constructor (input: seq<byte>)
      ensures Valid() && this.input == input && pos == calls == ended == 0
    {
      this.input, pos, calls, ended := input, 0, 0, 0;
    }

    /** Any number of the next bytes that fits the buffer, or an error. */
    method Read(capacity: nat) returns (r: Option<seq<byte>>)
      requires Valid()
      modifies this
      ensures Valid()
      ensures r == None ==> pos == old(pos)
      ensures r.Some? ==> |r.value| <= capacity && pos == old(pos) + |r.value| && r.value == input[old(pos)..pos]
      ensures calls == old(calls) + 1
      ensures ended == old(ended) + (if pos == old(pos) then 1 else 0)
    {
      var size: int := *;
      calls := calls + 1;
      if !(0 < size <= capacity && pos + size <= |input|) {
        ended := ended + 1;
        return if size == 0 then Some([]) else None;
      }
      r := Some(input[pos..pos + size]);
      pos := pos + size;
    }
  }

  /** Byte `i` of the stream completes a wanted identity, out of the bytes from `origin` on; `from` is where the
      read began that it came with. */
  predicate Hits(input: seq<byte>, origin: nat, from: nat, i: nat, wanted: (nat, seq<byte>) -> bool)
    requires origin <= from <= i < |input|
  {
    var id := NextId(input[origin..i], input[i]);
    id.Some? && wanted(i - from, id.value)
  }

  predicate NoHits(input: seq<byte>, origin: nat, from: nat, to: nat, wanted: (nat, seq<byte>) -> bool)
    requires origin <= from <= to <= |input|
  {
    forall i :: from <= i < to ==> !Hits(input, origin, from, i, wanted)
  }

  datatype ScanStep = Continue | Found(id: seq<byte>) | Ended

  /** The read loop of a scan. */
  class Scan {
    const stream: Stream
    var history: seq<byte>
    var decoder: SerialFrameDecoder
    ghost var resetAt: nat

    /** The history is the end of everything read; the decoder has seen what came since its reset. */
    ghost predicate Valid()
      reads this, stream, decoder, decoder.line
    {
      && stream.Valid() && decoder.Valid()
      && resetAt <= stream.pos
      && history == LastBytes(stream.input[..stream.pos], PREFIX_LIMIT)
      && decoder.fed == stream.input[resetAt..stream.pos]
    }

    constructor (stream: Stream)
      requires stream.Valid() && stream.pos == 0
      ensures Valid() && this.stream == stream && fresh(decoder) && fresh(decoder.line)
    {
      this.stream := stream;
      history, resetAt := [], 0;
      decoder := new SerialFrameDecoder();
    }

    /** Another set of line parameters starts the search over; the history stays. */
    method Rotate()
      requires Valid()
      modifies this`decoder, this`resetAt
      ensures Valid() && fresh(decoder) && fresh(decoder.line) && resetAt == stream.pos
    {
      decoder := new SerialFrameDecoder();
      resetAt := stream.pos;
    }

    /** One read. `wanted` says which identities are expected with the current parameters at the
        moment the i-th byte of the read is decoded. It goes on exactly if the read gave bytes and none of
        them completed a wanted identity, out of bytes read since the last reset; what it finds was completed
        by byte `n` of the stream, the first that does. */
    method Step(wanted: (nat, seq<byte>) -> bool) returns (step: ScanStep, ghost n: nat)
      requires Valid() && {stream, this} !! {decoder as object, decoder.line}
      modifies this`history, stream, decoder, decoder.line
      ensures stream.Valid() && history == LastBytes(stream.input[..stream.pos], PREFIX_LIMIT)
      ensures decoder == old(decoder) && resetAt == old(resetAt)
      ensures stream.calls == old(stream.calls) + 1 && resetAt <= old(stream.pos) <= stream.pos
      ensures stream.pos <= old(stream.pos) + 4096
      ensures step.Found? ==> resetAt <= old(stream.pos) < n <= stream.pos
      ensures step == Continue ==> Valid()
      ensures !step.Found? ==> NoHits(stream.input, resetAt, old(stream.pos), stream.pos, wanted)
      ensures step == Ended <==> stream.pos == old(stream.pos)
      ensures stream.ended == old(stream.ended) + (if step == Ended then 1 else 0)
      ensures step.Found? ==> NoHits(stream.input, resetAt, old(stream.pos), n - 1, wanted)
      ensures step.Found? ==> wanted(n - 1 - old(stream.pos), step.id)
      ensures step.Found? ==> NextId(stream.input[resetAt..n - 1], stream.input[n - 1]) == Some(step.id)
    {
      hide NextId, Unfinished;
      n := 0;
      var read := stream.Read(4096);
      if read == None || |read.value| == 0 {
        return Ended, 0;
      }
      history := Keep(read.value);
      var id: Option<seq<byte>>;
      id, n := Search(read.value, wanted, stream.input, resetAt, old(stream.pos));
      step := if id == None then Continue else Found(id.value);
    }

    /** The history after reading more bytes. */
    method Keep(bytes: seq<byte>) returns (kept: seq<byte>)
      requires |bytes| <= stream.pos <= |stream.input| && stream.input[stream.pos - |bytes|..stream.pos] == bytes
      requires history == LastBytes(stream.input[..stream.pos - |bytes|], PREFIX_LIMIT)
      ensures kept == LastBytes(stream.input[..stream.pos], PREFIX_LIMIT)
    {
      ghost var before := stream.input[..stream.pos - |bytes|];
      LastBytesAppend(before, bytes, PREFIX_LIMIT);
      assert before + bytes == stream.input[..stream.pos];
      kept := history + bytes;
      if |kept| > PREFIX_LIMIT {
        kept := kept[|kept| - PREFIX_LIMIT..];
      }
    }

    /** Feeds the bytes read at `from` until one of them completes a wanted identity. */
    method Search(bytes: seq<byte>, wanted: (nat, seq<byte>) -> bool,
        ghost input: seq<byte>, ghost origin: nat, ghost from: nat)
        returns (found: Option<seq<byte>>, ghost n: nat)
      requires decoder.Valid() && this !in {decoder as object, decoder.line}
      requires origin <= from <= from + |bytes| <= |input| && bytes == input[from..from + |bytes|]
      requires decoder.fed == input[origin..from]
      modifies decoder, decoder.line
      ensures decoder.Valid()
      ensures found == None ==>
                decoder.fed == input[origin..from + |bytes|] && NoHits(input, origin, from, from + |bytes|, wanted)
      ensures found.Some? ==> from < n <= from + |bytes| && wanted(n - 1 - from, found.value)
      ensures found.Some? ==> NoHits(input, origin, from, n - 1, wanted)
      ensures found.Some? ==> NextId(input[origin..n - 1], input[n - 1]) == found
    {
      hide NextId, Unfinished;
      for i := 0 to |bytes|
        invariant decoder.Valid() && decoder.fed == input[origin..from + i]
        invariant NoHits(input, origin, from, from + i, wanted)
      {
        assert bytes[i] == input[from + i];
        OneMore(input, origin, from + i);
        var id := decoder.Push(bytes[i]);
        if id.Some? && wanted(i, id.value) {
          return id, from + i + 1;
        }
      }
      found, n := None, 0;
    }
  }

  /** The lease a bind receives. */
  class SerialLease {
    const stream: Stream
    var prefix: seq<byte>
    var decoder: SerialFrameDecoder
    var observed: Option<seq<byte>>
    /** Where the handed-over bytes start, where live reading starts, where the decoder was reset. */
    ghost const start: nat
    ghost const live: nat
    ghost var resetAt: nat
    ghost var delivered: seq<byte>
    /** How many identities since the reset were announced before the last one was taken. */
    ghost var taken: nat

    ghost predicate Valid()
      reads this, stream, decoder, decoder.line
    {
      && stream.Valid() && decoder.Valid()
      && start <= live <= resetAt <= stream.pos
      && delivered + prefix == stream.input[start..stream.pos]
      && decoder.fed == stream.input[resetAt..stream.pos]
      && taken <= |Announced(decoder.fed)|
      && observed == LatestAfter(Announced(decoder.fed), taken)
    }

    ghost predicate Separate()
      reads this, decoder
    {
      {stream, this} !! {decoder as object, decoder.line}
    }

    /** Takes over the stream and the history of a scan. */
    constructor (scanned: Stream, history: seq<byte>)
      requires scanned.Valid() && history == LastBytes(scanned.input[..scanned.pos], PREFIX_LIMIT)
      ensures Valid() && Separate() && fresh(decoder) && fresh(decoder.line)
      ensures stream == scanned && delivered == [] && observed == None && resetAt == live == scanned.pos
      ensures live - start == if scanned.pos < 65536 then scanned.pos else 65536
    {
      stream, prefix, observed := scanned, history, None;
      live, start := scanned.pos, if scanned.pos < PREFIX_LIMIT then 0 else scanned.pos - PREFIX_LIMIT;
      resetAt, delivered, taken := scanned.pos, [], 0;
      decoder := new SerialFrameDecoder();
      new;
      assert Announced([]) == [];
    }

    /** `poll_read`: first what was handed over, as much as fits, then live bytes. Everything ever returned is
        one contiguous stretch of the stream from where the hand-over starts. */
    method PollRead(capacity: nat) returns (out: Option<seq<byte>>, invalidate: bool)
      requires Valid() && Separate()
      modifies this`prefix, this`observed, this`delivered, stream, decoder, decoder.line
      ensures Valid() && Separate() && decoder == old(decoder) && resetAt == old(resetAt) && taken == old(taken)
      ensures delivered == old(delivered) + (if out == None then [] else out.value)
      ensures delivered <= stream.input[start..]
      ensures out.Some? ==> |out.value| <= capacity
      ensures old(prefix) != [] ==>
                var n := if capacity < |old(prefix)| then capacity else |old(prefix)|;
                && out == Some(old(prefix)[..n]) && prefix == old(prefix)[n..]
                && stream.pos == old(stream.pos) && stream.calls == old(stream.calls) && observed == old(observed)
      ensures old(prefix) == [] ==>
                && prefix == [] && stream.calls == old(stream.calls) + 1
                && (out == None || out.value == [] <==> stream.ended == old(stream.ended) + 1)
      ensures invalidate <==> old(prefix) == [] && (out == None || (out.value == [] && capacity > 0))
    {
      hide Announced, Unfinished;
      if prefix != [] {
        var n := if capacity < |prefix| then capacity else |prefix|;
        var bytes := prefix[..n];
        assert delivered + prefix == (delivered + bytes) + prefix[n..];
        delivered, prefix := delivered + bytes, prefix[n..];
        DeliveredIsPrefix();
        return Some(bytes), false;
      }
      out := ReadLive(capacity);
      invalidate := out == None || (out.value == [] && capacity > 0);
    }

    method ReadLive(capacity: nat) returns (out: Option<seq<byte>>)
      requires Valid() && Separate() && prefix == []
      modifies this`observed, this`delivered, stream, decoder, decoder.line
      ensures Valid() && Separate() && decoder == old(decoder)
      ensures delivered == old(delivered) + (if out == None then [] else out.value)
      ensures delivered <= stream.input[start..]
      ensures out.Some? ==> |out.value| <= capacity
      ensures stream.calls == old(stream.calls) + 1
      ensures out == None || out.value == [] <==> stream.ended == old(stream.ended) + 1
    {
      hide Announced, Unfinished;
      assert delivered == delivered + prefix;
      out := stream.Read(capacity);
      if out.Some? {
        ghost var seen := decoder.fed;
        Decode(out.value);
        delivered := delivered + out.value;
        Adjacent(stream.input, resetAt, old(stream.pos), stream.pos);
        Adjacent(stream.input, start, old(stream.pos), stream.pos);
        assert delivered + prefix == delivered;
      }
      DeliveredIsPrefix();
    }

    /** Feeds live bytes; the latest identity they complete is the one observed. */
    method Decode(bytes: seq<byte>)
      requires stream.Valid() && decoder.Valid() && Separate() && taken <= |Announced(decoder.fed)|
      requires observed == LatestAfter(Announced(decoder.fed), taken)
      modifies this`observed, decoder, decoder.line
      ensures decoder.Valid() && decoder.fed == old(decoder.fed) + bytes && decoder == old(decoder)
      ensures taken <= |Announced(decoder.fed)| && observed == LatestAfter(Announced(decoder.fed), taken)
    {
      hide Announced, Unfinished, NextId;
      for i := 0 to |bytes|
        invariant decoder.Valid() && decoder.fed == old(decoder.fed) + bytes[..i]
        invariant taken <= |Announced(decoder.fed)| && observed == LatestAfter(Announced(decoder.fed), taken)
      {
        AnnouncedSnoc(decoder.fed, bytes[i]);
        var id := decoder.Push(bytes[i]);
        assert old(decoder.fed) + bytes[..i] + [bytes[i]] == old(decoder.fed) + bytes[..i + 1] by {
          OneMore(bytes, 0, i);
        }
        if id.Some? {
          observed := id;
        }
      }
      assert bytes[..|bytes|] == bytes;
    }

    /** New line parameters: nothing read before them can prove anything. */
    method Configure()
      requires Valid()
      modifies this`decoder, this`observed, this`resetAt, this`taken
      ensures Valid() && Separate() && fresh(decoder) && fresh(decoder.line)
      ensures observed == None && resetAt == stream.pos
    {
      decoder := new SerialFrameDecoder();
      observed, resetAt, taken := None, stream.pos, 0;
      assert Announced([]) == [];
    }

    /** The last identity that live bytes announced since the one before was taken, if any. */
    method TakeObservedId() returns (id: Option<seq<byte>>)
      requires Valid()
      modifies this`observed, this`taken
      ensures Valid() && id == old(observed) && observed == None
      ensures var ids := Announced(stream.input[resetAt..stream.pos]);
              taken == |ids| && (id == None <==> |ids| == old(taken)) && (id.Some? ==> id.value == ids[|ids| - 1])
    {
      id := observed;
      observed, taken := None, |Announced(decoder.fed)|;
    }

    lemma DeliveredIsPrefix()
      requires stream.Valid() && start <= stream.pos
      requires delivered + prefix == stream.input[start..stream.pos]
      ensures delivered <= stream.input[start..]
    {
      var rest := stream.input[start..];
      assert stream.input[start..stream.pos] == rest[..stream.pos - start];
      forall i | 0 <= i < |delivered| ensures delivered[i] == rest[i] {
        assert (delivered + prefix)[i] == rest[i];
      }
    }
  }

  /** The last of the identities beyond the first `n`, if there is one. */
  function LatestAfter(ids: seq<seq<byte>>, n: nat): Option<seq<byte>> {
    if n < |ids| then Some(ids[|ids| - 1]) else None
  }

  // ---------- From the scan to the reader ----------

  /** What a scan does next: read, or change the line parameters. */
  datatype ScanMove = ReadOn(wanted: (nat, seq<byte>) -> bool) | ChangeParameters

  /** What the owner of a lease does next. */
  datatype LeaseMove = ReadOut(capacity: nat) | Reconfigure | TakeId

  /** Where the stream was before each move that was made, and after the last. */
  predicate Positions(scans: seq<ScanMove>, cuts: seq<nat>, length: nat) {
    && 1 <= |cuts| <= |scans| + 1 && cuts[0] == 0
    && (forall k :: 0 <= k < |cuts| - 1 ==> cuts[k] <= cuts[k + 1] && (scans[k].ChangeParameters? ==> cuts[k] == cuts[k + 1]))
    && (forall k :: 0 <= k < |cuts| ==> cuts[k] <= length)
  }

  /** Where the line parameters were changed last before a move, or where the stream begins. */
  function Origin(scans: seq<ScanMove>, cuts: seq<nat>, k: nat): (r: nat)
    requires k <= |scans| && k < |cuts|
  {
    if k == 0 then 0
    else if scans[k - 1].ChangeParameters? then cuts[k]
    else Origin(scans, cuts, k - 1)
  }

  lemma OriginBefore(scans: seq<ScanMove>, cuts: seq<nat>, k: nat, length: nat)
    requires Positions(scans, cuts, length) && k < |cuts|
    ensures Origin(scans, cuts, k) <= cuts[k]
  {}

  lemma {:induction false} OriginStays(scans: seq<ScanMove>, cuts: seq<nat>, more: nat, k: nat)
    requires k <= |scans| && k < |cuts|
    ensures Origin(scans, cuts + [more], k) == Origin(scans, cuts, k)
  {
    if k > 0 {
      OriginStays(scans, cuts, more, k - 1);
    }
  }

  /** This move read no byte that completed an identity it wanted. */
  predicate Missed(input: seq<byte>, scans: seq<ScanMove>, cuts: seq<nat>, k: nat)
    requires Positions(scans, cuts, |input|) && k < |cuts| - 1
  {
    scans[k].ReadOn? ==>
      Origin(scans, cuts, k) <= cuts[k] && NoHits(input, Origin(scans, cuts, k), cuts[k], cuts[k + 1], scans[k].wanted)
  }

  lemma MissedStays(input: seq<byte>, scans: seq<ScanMove>, cuts: seq<nat>, more: nat, m: nat)
    requires Positions(scans, cuts, |input|) && Positions(scans, cuts + [more], |input|)
    requires m < |cuts| - 1 && Missed(input, scans, cuts, m)
    ensures Missed(input, scans, cuts + [more], m)
  {
    hide NoHits, Origin;
    OriginStays(scans, cuts, more, m);
  }

  lemma MissedLast(input: seq<byte>, scans: seq<ScanMove>, cuts: seq<nat>, more: nat)
    requires |cuts| >= 1 && Positions(scans, cuts, |input|) && Positions(scans, cuts + [more], |input|)
    requires var k := |cuts| - 1;
             k < |scans| && Origin(scans, cuts, k) <= cuts[k] <= more <= |input|
             && (scans[k].ReadOn? ==> NoHits(input, Origin(scans, cuts, k), cuts[k], more, scans[k].wanted))
    ensures Missed(input, scans, cuts + [more], |cuts| - 1)
  {
    hide NoHits, Origin, Positions;
    OriginStays(scans, cuts, more, |cuts| - 1);
    var after := cuts + [more];
    assert after[|cuts| - 1] == cuts[|cuts| - 1] && after[|cuts|] == more;
  }

  lemma NoMoves(scans: seq<ScanMove>, length: nat)
    ensures Positions(scans, [0], length) && Origin(scans, [0], 0) == 0
  {}

  /** One more move, which reads up to `more`. */
  lemma OneMoreMove(input: seq<byte>, scans: seq<ScanMove>, cuts: seq<nat>, more: nat)
    requires Positions(scans, cuts, |input|) && |cuts| <= |scans| && cuts[|cuts| - 1] <= more <= |input|
    requires scans[|cuts| - 1].ChangeParameters? ==> cuts[|cuts| - 1] == more
    requires forall m :: 0 <= m < |cuts| - 1 ==> Missed(input, scans, cuts, m)
    ensures Positions(scans, cuts + [more], |input|)
    ensures forall m :: 0 <= m < |cuts| - 1 ==> Missed(input, scans, cuts + [more], m)
    ensures Origin(scans, cuts, |cuts| - 1) <= cuts[|cuts| - 1]
    ensures Origin(scans, cuts + [more], |cuts|)
            == if scans[|cuts| - 1].ChangeParameters? then more else Origin(scans, cuts, |cuts| - 1)
  {
    hide Missed;
    var after := cuts + [more];
    assert Positions(scans, after, |input|);
    OriginStays(scans, cuts, more, |cuts| - 1);
    OriginBefore(scans, cuts, |cuts| - 1, |input|);
    forall m | 0 <= m < |cuts| - 1 ensures Missed(input, scans, after, m) {
      MissedStays(input, scans, cuts, more, m);
    }
  }

  /** The last move read a byte that completed a wanted identity, and none before it did. */
  predicate HitLast(input: seq<byte>, scans: seq<ScanMove>, cuts: seq<nat>, id: seq<byte>)
    requires Positions(scans, cuts, |input|) && |cuts| >= 2
  {
    var last := |cuts| - 2;
    var origin := Origin(scans, cuts, last);
    && scans[last].ReadOn? && origin <= cuts[last]
    && exists i :: cuts[last] <= i < cuts[last + 1] && Hits(input, origin, cuts[last], i, scans[last].wanted)
         && NextId(input[origin..i], input[i]) == Some(id) && NoHits(input, origin, cuts[last], i, scans[last].wanted)
  }

  lemma FoundLast(input: seq<byte>, scans: seq<ScanMove>, cuts: seq<nat>, more: nat, i: nat, id: seq<byte>)
    requires Positions(scans, cuts, |input|) && Positions(scans, cuts + [more], |input|) && scans[|cuts| - 1].ReadOn?
    requires var (k, origin) := (|cuts| - 1, Origin(scans, cuts, |cuts| - 1));
             && origin <= cuts[k] <= i < more <= |input| && NextId(input[origin..i], input[i]) == Some(id)
             && scans[k].wanted(i - cuts[k], id) && NoHits(input, origin, cuts[k], i, scans[k].wanted)
    ensures HitLast(input, scans, cuts + [more], id)
  {
    hide NextId, NoHits;
    OriginStays(scans, cuts, more, |cuts| - 1);
  }

  function Reads(scans: seq<ScanMove>): nat {
    if scans == [] then 0 else Reads(scans[..|scans| - 1]) + if scans[|scans| - 1].ReadOn? then 1 else 0
  }

  /** How many handed-over bytes are left after some moves. */
  function Remaining(length: nat, moves: seq<LeaseMove>): nat {
    if moves == [] then length
    else
      var (before, last) := (Remaining(length, moves[..|moves| - 1]), moves[|moves| - 1]);
      if !last.ReadOut? then before else if last.capacity < before then before - last.capacity else 0
  }

  /** How many of the moves read live bytes. */
  function LiveReads(length: nat, moves: seq<LeaseMove>): nat {
    if moves == [] then 0
    else
      var (before, last) := (moves[..|moves| - 1], moves[|moves| - 1]);
      LiveReads(length, before) + if last.ReadOut? && Remaining(length, before) == 0 then 1 else 0
  }

  /** What came of a scan: nothing, and then nothing that it read was wanted, and it made all its moves unless
      the stream ended; or the first wanted identity. */
  ghost predicate Outcome(stream: Stream, scans: seq<ScanMove>, cuts: seq<nat>, found: Option<seq<byte>>)
    reads stream
  {
    && Positions(scans, cuts, |stream.input|)
    && match found
       case None =>
         && (forall k :: 0 <= k < |cuts| - 1 ==> Missed(stream.input, scans, cuts, k))
         && (|cuts| < |scans| + 1 ==> stream.ended > 0)
       case Some(id) =>
         && |cuts| >= 2 && HitLast(stream.input, scans, cuts, id)
         && (forall k :: 0 <= k < |cuts| - 2 ==> Missed(stream.input, scans, cuts, k))
  }

  /** A scan makes its moves until a wanted identity is found; then a lease takes over, and its owner reads
      in any portions: first the last 65536 bytes that the scan read, then what follows them, in as many reads as
      it takes. */
  method HandOver(stream: Stream, scans: seq<ScanMove>, moves: seq<LeaseMove>)
      returns (found: Option<seq<byte>>, out: seq<byte>, ghost left: seq<byte>, ghost cuts: seq<nat>, ghost end: nat)
    requires stream.Valid() && stream.pos == stream.ended == stream.calls == 0
    modifies stream
    ensures Positions(scans, cuts, |stream.input|)
    ensures found == None ==> out == [] && Outcome(stream, scans, cuts, None)
    ensures found.Some? ==> |cuts| >= 2 && HitLast(stream.input, scans, cuts, found.value)
    ensures found.Some? ==> forall k :: 0 <= k < |cuts| - 2 ==> Missed(stream.input, scans, cuts, k)
    ensures found.Some? ==>
              var scanned := cuts[|cuts| - 1];
              && scanned <= end <= |stream.input|
              && out + left == stream.input[if scanned <= 65536 then 0 else scanned - 65536..end]
              && (left != [] ==> end == scanned)
              && |left| == Remaining(if scanned <= 65536 then scanned else 65536, moves)
              && stream.calls == Reads(scans[..|cuts| - 1])
                                 + LiveReads(if scanned <= 65536 then scanned else 65536, moves)
  {
    hide LastBytes, NextId, Unfinished, Announced, LatestAfter, HitLast, Missed, Positions, Reads, Remaining, LiveReads;
    out, left := [], [];
    var history;
    found, history, cuts := ScanFor(stream, scans);
    ghost var scanned := stream.pos;
    end := scanned;
    if found.Some? {
      var lease := new SerialLease(stream, history);
      out := ReadLease(lease, moves);
      left, end := lease.prefix, stream.pos;
    }
  }

  method ScanFor(stream: Stream, scans: seq<ScanMove>)
      returns (found: Option<seq<byte>>, history: seq<byte>, ghost cuts: seq<nat>)
    requires stream.Valid() && stream.pos == stream.ended == 0
    modifies stream
    ensures stream.Valid()
    ensures history == LastBytes(stream.input[..stream.pos], PREFIX_LIMIT)
    ensures Outcome(stream, scans, cuts, found) && cuts[|cuts| - 1] == stream.pos
    ensures stream.calls == old(stream.calls) + Reads(scans[..|cuts| - 1])
  {
    hide NextId, Unfinished, LastBytes, Hits, NoHits, Missed, HitLast, Origin, Positions;
    var scan := new Scan(stream);
    cuts := [0];
    NoMoves(scans, |stream.input|);
    for k := 0 to |scans|
      invariant fresh(scan) && fresh(scan.decoder) && fresh(scan.decoder.line)
      invariant scan.stream == stream && scan.Valid() && {stream, scan} !! {scan.decoder as object, scan.decoder.line}
      invariant |cuts| == k + 1 && cuts[k] == stream.pos && Positions(scans, cuts, |stream.input|)
      invariant scan.resetAt == Origin(scans, cuts, k)
      invariant stream.calls == old(stream.calls) + Reads(scans[..k])
      invariant forall m :: 0 <= m < k ==> Missed(stream.input, scans, cuts, m)
    {
      ghost var before := cuts;
      assert scans[..k + 1][..k] == scans[..k];
      match scans[k]
      case ChangeParameters =>
        scan.Rotate();
        OneMoreMove(stream.input, scans, before, stream.pos);
        MissedLast(stream.input, scans, before, stream.pos);
        cuts := before + [stream.pos];
      case ReadOn(wanted) =>
        var step, n := scan.Step(wanted);
        OneMoreMove(stream.input, scans, before, stream.pos);
        cuts := before + [stream.pos];
        if step.Found? {
          FoundLast(stream.input, scans, before, stream.pos, n - 1, step.id);
          return Some(step.id), scan.history, cuts;
        }
        MissedLast(stream.input, scans, before, stream.pos);
        if step.Ended? {
          return None, scan.history, cuts;
        }
    }
    assert scans[..|scans|] == scans;
    return None, scan.history, cuts;
  }

  method ReadLease(lease: SerialLease, moves: seq<LeaseMove>) returns (out: seq<byte>)
    requires lease.Valid() && lease.Separate() && lease.delivered == [] && lease.stream.pos == lease.live
    modifies lease, lease.stream, lease.decoder, lease.decoder.line
    ensures lease.Valid() && out == lease.delivered
    ensures lease.prefix != [] ==> lease.stream.pos == lease.live
    ensures |lease.prefix| == Remaining(|old(lease.prefix)|, moves)
    ensures lease.stream.calls == old(lease.stream.calls) + LiveReads(|old(lease.prefix)|, moves)
  {
    hide Announced, Unfinished, LatestAfter;
    out := [];
    for k := 0 to |moves|
      invariant lease.Valid() && lease.Separate() && out == lease.delivered
      invariant lease.decoder == old(lease.decoder) || fresh(lease.decoder)
      invariant lease.decoder.line == old(lease.decoder.line) || fresh(lease.decoder.line)
      invariant lease.prefix != [] ==> lease.stream.pos == lease.live
      invariant |lease.prefix| == Remaining(|old(lease.prefix)|, moves[..k])
      invariant lease.stream.calls == old(lease.stream.calls) + LiveReads(|old(lease.prefix)|, moves[..k])
    {
      assert moves[..k + 1][..k] == moves[..k];
      match moves[k]
      case ReadOut(capacity) =>
        var bytes, _ := lease.PollRead(capacity);
        if bytes.Some? {
          out := out + bytes.value;
        }
      case Reconfigure => lease.Configure();
      case TakeId => var _ := lease.TakeObservedId();
    }
    assert moves[..|moves|] == moves;
  }
}
