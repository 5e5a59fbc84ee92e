/** The serial beacon a loader prints, and the bounded decoder that looks for it. */
module Beacon {
  import opened Bytes
  import opened Options

  const LF: byte := 10
  const CR: byte := 13
  const LINE_LIMIT: nat := 64
  const SERIAL_ID_BYTES: nat := 32

  /** "AXLOADER-SERIAL/1 " */
  const SERIAL_BEACON_PREFIX: seq<byte> :=
    [65, 88, 76, 79, 65, 68, 69, 82, 45, 83, 69, 82, 73, 65, 76, 47, 49, 32]

  predicate ValidSerialId(id: seq<byte>) {
    |id| == SERIAL_ID_BYTES && forall i :: 0 <= i < |id| ==> 48 <= id[i] <= 57 || 97 <= id[i] <= 102
  }

  // ---------- Unbounded specification ----------

  /** The identity a line without its newline announces, after dropping one trailing CR. */
  function LineId(line: seq<byte>): (r: Option<seq<byte>>)
    ensures r.Some? ==> ValidSerialId(r.value)
  {
    var text := if line != [] && line[|line| - 1] == CR then line[..|line| - 1] else line;
    if SERIAL_BEACON_PREFIX <= text && ValidSerialId(text[|SERIAL_BEACON_PREFIX|..])
    then Some(text[|SERIAL_BEACON_PREFIX|..])
    else None
  }

  /** The lines of a stream that a newline ended, without it. */
  function Lines(stream: seq<byte>): seq<seq<byte>>
    decreases |stream|
  {
    var line := UpTo(stream, LF);
    if |line| == |stream| then [] else [line] + Lines(stream[|line| + 1..])
  }

  /** What follows the last newline. */
  function Unfinished(stream: seq<byte>): seq<byte>
    decreases |stream|
  {
    var line := UpTo(stream, LF);
    if |line| == |stream| then stream else Unfinished(stream[|line| + 1..])
  }

  /** The identities announced by lines, in order. */
  function Ids(lines: seq<seq<byte>>): seq<seq<byte>> {
    if lines == [] then []
    else
      var front := Ids(lines[..|lines| - 1]);
      match LineId(lines[|lines| - 1])
      case Some(id) => front + [id]
      case None => front
  }

  function Announced(stream: seq<byte>): seq<seq<byte>> { Ids(Lines(stream)) }

  /** What one more byte announces. */
  function NextId(stream: seq<byte>, b: byte): (r: Option<seq<byte>>) {
    if b == LF then LineId(Unfinished(stream)) else None
  }

  lemma {:induction false} FirstLineSnoc(stream: seq<byte>, b: byte)
    ensures UpTo(stream + [b], LF) ==
            if |UpTo(stream, LF)| < |stream| || b == LF then UpTo(stream, LF) else stream + [b]
  {
    if stream != [] && stream[0] != LF {
      assert (stream + [b])[1..] == stream[1..] + [b];
      FirstLineSnoc(stream[1..], b);
    } else if stream == [] {
      assert (stream + [b])[1..] == [];
    }
  }

  /** A newline ends the unfinished line; any other byte extends it. */
  lemma {:induction false} LinesSnoc(stream: seq<byte>, b: byte)
    ensures Lines(stream + [b]) == if b == LF then Lines(stream) + [Unfinished(stream)] else Lines(stream)
    ensures Unfinished(stream + [b]) == if b == LF then [] else Unfinished(stream) + [b]
    decreases |stream|
  {
    var line, longer := UpTo(stream, LF), stream + [b];
    FirstLineSnoc(stream, b);
    if |line| < |stream| {
      assert longer[|line| + 1..] == stream[|line| + 1..] + [b];
      LinesSnoc(stream[|line| + 1..], b);
    } else if b == LF {
      assert longer[|line| + 1..] == [] && line == stream;
      assert Lines([]) == Lines(stream) == [] && Unfinished([]) == [];
    }
  }

  lemma AnnouncedSnoc(stream: seq<byte>, b: byte)
    ensures Announced(stream + [b]) ==
            match NextId(stream, b) { case Some(id) => Announced(stream) + [id] case None => Announced(stream) }
  {
    LinesSnoc(stream, b);
    if b == LF {
      var lines := Lines(stream) + [Unfinished(stream)];
      assert lines[..|lines| - 1] == Lines(stream);
    }
  }

  /** A line that announces an identity fits the buffer with room to spare. */
  lemma BeaconsAreShort(line: seq<byte>)
    ensures LineId(line).Some? ==> |line| <= 18 + 32 + 1 < 64
  {}

  /** Exactly the lines "AXLOADER-SERIAL/1 " and 32 lower-case hexadecimal digits announce these digits, with or
      without a CR at the end. */
  lemma BeaconMeans(line: seq<byte>, id: seq<byte>)
    ensures var beacon := [65, 88, 76, 79, 65, 68, 69, 82, 45, 83, 69, 82, 73, 65, 76, 47, 49, 32] + id;
            LineId(line) == Some(id)
            <==> (line == beacon || line == beacon + [13])
                 && |id| == 32 && forall i :: 0 <= i < 32 ==> 48 <= id[i] <= 57 || 97 <= id[i] <= 102
  {
    var prefix: seq<byte> := [65, 88, 76, 79, 65, 68, 69, 82, 45, 83, 69, 82, 73, 65, 76, 47, 49, 32];
    var text := if line != [] && line[|line| - 1] == CR then line[..|line| - 1] else line;
    if LineId(line) == Some(id) {
      assert text == prefix + text[18..];
    }
    if line == prefix + id && |id| == 32 {
      assert line[|line| - 1] == id[31] && line[18..] == id;
    }
    if line == prefix + id + [13] {
      assert line[..|line| - 1] == prefix + id && text[18..] == id;
    }
  }

  /** What is unfinished is what follows the last newline. */
  lemma {:induction false} UnfinishedMeans(stream: seq<byte>)
    ensures var (u, n) := (Unfinished(stream), |stream| - |Unfinished(stream)|);
            0 <= n && stream[n..] == u && 10 !in u && (n > 0 ==> stream[n - 1] == 10)
    decreases |stream|
  {
    var line := UpTo(stream, LF);
    if |line| < |stream| {
      UnfinishedMeans(stream[|line| + 1..]);
    }
  }

  // ---------- The bounded decoder ----------

  class SerialFrameDecoder {
    const line: array<byte>
    var len: nat
    var overflow: bool
    ghost var fed: seq<byte>

    ghost predicate Valid()
      reads this, line
    {
      && line.Length == 64 == LINE_LIMIT
      && len <= LINE_LIMIT
      && (overflow <==> |Unfinished(fed)| > LINE_LIMIT)
      && (overflow ==> len == LINE_LIMIT)
      && (!overflow ==> line[..len] == Unfinished(fed))
    }

    constructor ()
      ensures Valid() && fresh(line) && fed == []
    {
      line := new byte[LINE_LIMIT];
      len, overflow, fed := 0, false, [];
      new;
      assert Unfinished([]) == [];
    }

    method Push(b: byte) returns (id: Option<seq<byte>>)
      requires Valid()
      modifies this, line
      ensures Valid() && fed == old(fed) + [b]
      ensures id == NextId(old(fed), b)
    {
      hide ValidSerialId, Lines, Ids;
      LinesSnoc(fed, b);
      fed := fed + [b];
      if b != LF {
        if len == line.Length {
          overflow := true;
        } else {
          line[len] := b;
          len := len + 1;
          assert line[..len] == old(line[..len]) + [b];
        }
        return None;
      }
      BeaconsAreShort(Unfinished(old(fed)));
      var end := if len > 0 && line[len - 1] == CR then len - 1 else len;
      id := None;
      if !overflow {
        var text := line[..end];
        ghost var whole := Unfinished(old(fed));
        assert line[..len] == whole;
        assert text == if whole != [] && whole[|whole| - 1] == CR then whole[..|whole| - 1] else whole;
        if SERIAL_BEACON_PREFIX <= text && ValidSerialId(text[|SERIAL_BEACON_PREFIX|..]) {
          id := Some(text[|SERIAL_BEACON_PREFIX|..]);
        }
      }
      len, overflow := 0, false;
    }
  }

  lemma NoneAnnounced()
    ensures Announced([]) == []
  {}

  /** Pushing a whole stream reports exactly the announced identities, in order. */
  method DecodeAll(stream: seq<byte>) returns (ids: seq<seq<byte>>)
    ensures ids == Announced(stream)
  {
    hide Announced, NextId, Unfinished;
    var decoder := new SerialFrameDecoder();
    ids := [];
    NoneAnnounced();
    for i := 0 to |stream|
      invariant fresh(decoder) && fresh(decoder.line) && decoder.Valid() && decoder.fed == stream[..i]
      invariant ids == Announced(stream[..i])
    {
      AnnouncedSnoc(stream[..i], stream[i]);
      assert stream[..i + 1] == stream[..i] + [stream[i]];
      var id := decoder.Push(stream[i]);
      match id
      case Some(value) => ids := ids + [value];
      case None =>
    }
    assert stream[..|stream|] == stream;
  }
}
