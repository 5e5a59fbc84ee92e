/** Sending a command line to a console that echoes, one byte at a time. */
module EchoCommand {
  import opened Bytes
  import opened Options

  const ESC: byte := 0x1b
  const BRACKET: byte := 0x5b
  const LF: byte := 10
  const CTRL_C: byte := 3
  const COMMAND_ATTEMPTS: nat := 3

  // ---------- Control sequences (ECMA-48, section 5.4) ----------

  predicate IsFinal(b: byte) { 0x40 <= b <= 0x7e }

  /** How many parameter and intermediate bytes a text starts with. */
  function Body(s: seq<byte>): (k: nat)
    ensures k <= |s|
    ensures forall i :: 0 <= i < k ==> 0x20 <= s[i] <= 0x3f
  {
    if s == [] || !(0x20 <= s[0] <= 0x3f) then 0 else 1 + Body(s[1..])
  }

  /** Any number of complete control sequences. */
  predicate IsFormatting(s: seq<byte>)
    decreases |s|
  {
    || s == []
    || (|s| >= 3 && s[0] == 0x1b && s[1] == 0x5b
        && var k := Body(s[2..]);
           2 + k < |s| && IsFinal(s[2 + k]) && IsFormatting(s[3 + k..]))
  }

  // ---------- What the host skips ----------

  datatype Mode = Plain | Escape | Csi

  function Feed(m: Mode, b: byte): Mode {
    match m
    case Csi => if IsFinal(b) then Plain else Csi
    case Escape => if b == BRACKET then Csi else Plain
    case Plain => if b == ESC then Escape else Plain
  }

  function ModeAfter(m: Mode, s: seq<byte>): Mode
    decreases |s|
  {
    if s == [] then m else ModeAfter(Feed(m, s[0]), s[1..])
  }

  /** The bytes that are not formatting, when reading starts in a mode. */
  function Visible(m: Mode, s: seq<byte>): seq<byte>
    decreases |s|
  {
    if s == [] then []
    else (if m == Plain && s[0] != ESC then [s[0]] else []) + Visible(Feed(m, s[0]), s[1..])
  }

  lemma Heard(m: Mode, b: byte, rest: seq<byte>)
    ensures ModeAfter(m, [b] + rest) == ModeAfter(Feed(m, b), rest)
    ensures Visible(m, [b] + rest) ==
            if m == Plain && b != ESC then [b] + Visible(Feed(m, b), rest) else Visible(Feed(m, b), rest)
  {
    assert ([b] + rest)[1..] == rest;
  }

  lemma Silence(m: Mode)
    ensures Visible(m, []) == [] && ModeAfter(m, []) == m
  {}

  lemma {:induction false} VisibleAppend(m: Mode, s: seq<byte>, t: seq<byte>)
    ensures Visible(m, s + t) == Visible(m, s) + Visible(ModeAfter(m, s), t)
    ensures ModeAfter(m, s + t) == ModeAfter(ModeAfter(m, s), t)
    decreases |s|
  {
    hide Feed, Visible, ModeAfter;
    Silence(m);
    if s == [] {
      assert s + t == t;
    } else {
      var rest := s[1..];
      assert s == [s[0]] + rest && s + t == [s[0]] + (rest + t);
      Heard(m, s[0], rest);
      Heard(m, s[0], rest + t);
      VisibleAppend(Feed(m, s[0]), rest, t);
    }
  }

  lemma {:induction false} BodyInvisible(s: seq<byte>, k: nat)
    requires k < |s| && IsFinal(s[k]) && forall i :: 0 <= i < k ==> 0x20 <= s[i] <= 0x3f
    ensures Visible(Csi, s[..k + 1]) == [] && ModeAfter(Csi, s[..k + 1]) == Plain
  {
    if k == 0 {
      assert s[..1][1..] == [];
    } else {
      assert s[..k + 1][1..] == s[1..][..k];
      BodyInvisible(s[1..], k - 1);
    }
  }

  /** Complete control sequences show nothing and leave the host where it was. */
  lemma {:induction false} FormattingInvisible(s: seq<byte>)
    requires IsFormatting(s)
    ensures Visible(Plain, s) == [] && ModeAfter(Plain, s) == Plain
    decreases |s|
  {
    if s != [] {
      var tail := s[2..];
      var k := Body(tail);
      BodyInvisible(tail, k);
      FormattingInvisible(s[3 + k..]);
      assert tail == tail[..k + 1] + s[3 + k..];
      VisibleAppend(Csi, tail[..k + 1], s[3 + k..]);
      assert s[1..][1..] == tail;
    }
  }

  // ---------- The console ----------

  predicate EndsLine(b: byte) { b == 10 || b == 3 }

  /** A console whose receiver holds one byte: another one arriving before it is processed is lost. It
      echoes what it accepts, with any formatting around it, whenever it gets to it. A newline runs the
      line, an interrupt gives it up; only these two print anything else, prompts included. */
  class Console {
    var slot: Option<byte>
    var line: seq<byte>
    var output: seq<byte>
    /** How many prompts are in the output that the host has not seen. */
    var prompts: nat
    var dropped: nat
    var executed: seq<seq<byte>>
    /** How much longer the host waits for the present echo. */
    var left: nat
    /** How often something did not come in time, could not be read or written, or was not what was hoped for. */
    ghost var troubles: nat

    constructor ()
      ensures slot == None && line == [] && output == [] && prompts == 0 && dropped == 0 && executed == [] && troubles == 0
    {
      slot, line, output, prompts, dropped, executed, left, troubles := None, [], [], 0, 0, [], 0, 0;
    }

    /** The host starts to wait. */
    method StartClock()
      modifies this`left
    {
      var time: int := *;
      left := if time > 0 then time else 0;
    }

    /** Whether it has waited long enough. */
    method IsLate() returns (late: bool)
      modifies this`left, this`troubles
      ensures troubles == old(troubles) + (if late then 1 else 0)
      ensures !late ==> left < old(left)
    {
      late := left == 0;
      if late {
        troubles := troubles + 1;
      } else {
        left := left - 1;
      }
    }

    /** Whether writing fails, or sending takes too long as a whole. */
    method Fails() returns (fails: bool)
      modifies this`troubles
      ensures troubles == old(troubles) + (if fails then 1 else 0)
    {
      fails := *;
      troubles := troubles + if fails then 1 else 0;
    }

    /** Whether what was printed before the prompt ends with the success text. */
    method Succeeded() returns (accepted: bool)
      modifies this`troubles
      ensures troubles == old(troubles) + (if accepted then 0 else 1)
    {
      accepted := *;
      troubles := troubles + if accepted then 0 else 1;
    }

    /** What was run, and what will be as soon as the newline in the slot is processed. */
    function Lines(): seq<seq<byte>>
      reads this
    {
      executed + if slot == Some(10) then [line] else []
    }

    /** Processes the byte in the slot, or not yet. */
    method Work()
      modifies this
      ensures dropped == old(dropped) && Lines() == old(Lines()) && troubles == old(troubles) && left == old(left)
      ensures slot == None || slot == old(slot)
      ensures slot == old(slot) ==> line == old(line) && executed == old(executed) && prompts == old(prompts)
      ensures slot == old(slot) && slot.Some? ==> output == old(output)
      ensures old(slot) == None ==> slot == None && Same(old(output))
      ensures slot != old(slot) && !EndsLine(old(slot).value) ==>
                line == old(line) + [old(slot).value] && executed == old(executed) && prompts == old(prompts)
                && Echoed(old(output), old(slot).value)
      ensures slot != old(slot) && EndsLine(old(slot).value) ==> line == []
    {
      var before: seq<byte> := *;
      var after: seq<byte> := *;
      var printed: seq<byte> := *;
      var shown: int := *;
      var ready: bool := *;
      if !IsFormatting(before) || !IsFormatting(after) {
        before, after := [], [];
      }
      if slot == None {
        output := output + before;
        FormattingInvisible(before);
        SameAppend(old(output), before);
        return;
      }
      if !ready {
        return;
      }
      if EndsLine(slot.value) {
        if slot == Some(LF) {
          executed := executed + [line];
        }
        line, output, prompts := [], output + printed, prompts + if shown > 0 then shown else 0;
      } else {
        line := line + [slot.value];
        output := output + before + [slot.value] + after;
        EchoAppend(old(output), before, slot.value, after);
      }
      slot := None;
    }

    /** Only formatting was added to the output. */
    ghost predicate Same(before: seq<byte>)
      reads this
    {
      forall m :: ModeAfter(m, before) == Plain ==>
        Visible(m, output) == Visible(m, before) && ModeAfter(m, output) == Plain
    }

    /** An echo, with formatting around it, was added to the output. */
    ghost predicate Echoed(before: seq<byte>, b: byte)
      reads this
    {
      forall m :: ModeAfter(m, before) == Plain && b != ESC ==>
        Visible(m, output) == Visible(m, before) + [b] && ModeAfter(m, output) == Plain
    }

    /** A byte arrives; what was in the slot may have been processed before or not. */
    method Receive(b: byte)
      modifies this
      ensures old(slot) == None ==>
                && slot == Some(b) && dropped == old(dropped) && line == old(line) && executed == old(executed)
                && prompts == old(prompts) && Same(old(output))
      ensures slot == Some(b) || (slot == old(slot) && line == old(line) && prompts == old(prompts))
      ensures b != LF ==> Lines() == old(Lines())
      ensures troubles == old(troubles)
      ensures old(dropped) <= dropped <= old(dropped) + 1
    {
      Work();
      if slot == None {
        slot := Some(b);
      } else {
        dropped := dropped + 1;
      }
    }

    /** The next output byte, if it comes in time. */
    method Read() returns (b: Option<byte>)
      requires slot.Some? ==> !EndsLine(slot.value)
      modifies this
      ensures dropped == old(dropped) && prompts == old(prompts) && executed == old(executed) && left == old(left)
      ensures troubles == old(troubles) + (if b == None then 1 else 0)
      ensures slot == old(slot) ==> line == old(line)
      ensures slot == None || slot == old(slot)
      ensures slot != old(slot) ==> line == old(line) + [old(slot).value]
      ensures forall m :: ModeAfter(m, old(output)) == Plain && old(slot) != Some(ESC) ==>
                ModeAfter(m, Given(b) + output) == Plain
                && Visible(m, Given(b) + output)
                   == Visible(m, old(output)) + if slot != old(slot) then [old(slot).value] else []
    {
      Work();
      var late: bool := *;
      if late || output == [] {
        b, troubles := None, troubles + 1;
        assert Given(b) + output == output;
      } else {
        b := Some(output[0]);
        assert Given(b) + output[1..] == output;
        output := output[1..];
      }
    }

    /** Reads until nothing more comes for a while, unless reading fails; by then the console has processed
        what it received. */
    method Drain() returns (silent: bool)
      modifies this
      ensures dropped == old(dropped) && Lines() == old(Lines())
      ensures slot == None || slot == old(slot)
      ensures slot == old(slot) ==> line == old(line)
      ensures slot != old(slot) && EndsLine(old(slot).value) ==> line == []
      ensures silent ==> slot == None && output == [] && prompts == 0
      ensures troubles == old(troubles) + (if silent then 0 else 1)
    {
      Work();
      var fault: bool := *;
      silent := slot == None && !fault;
      if silent {
        output, prompts := [], 0;
      } else {
        troubles := troubles + 1;
      }
    }

    /** Reads until a prompt, or until it takes too long. */
    method AwaitPrompt() returns (seen: bool)
      modifies this
      ensures dropped == old(dropped) && Lines() == old(Lines())
      ensures slot == None || slot == old(slot)
      ensures slot == old(slot) ==> line == old(line)
      ensures slot != old(slot) && EndsLine(old(slot).value) ==> line == []
      ensures seen && old(prompts) == 0 ==> slot == None && old(slot).Some? && EndsLine(old(slot).value)
      ensures !seen && old(prompts) == 0 && (old(slot).Some? ==> !EndsLine(old(slot).value)) ==> prompts == 0
      ensures troubles == old(troubles) + (if seen then 0 else 1)
    {
      Work();
      var late: bool := *;
      var taken: int := *;
      seen := !late && prompts > 0;
      if seen {
        prompts := prompts - 1;
      } else {
        troubles := troubles + 1;
      }
      output := if 0 <= taken <= |output| then output[taken..] else [];
    }
  }

  function Given(b: Option<byte>): seq<byte> { match b case Some(v) => [v] case None => [] }

  lemma SameAppend(output: seq<byte>, more: seq<byte>)
    requires IsFormatting(more)
    ensures forall m :: ModeAfter(m, output) == Plain ==>
              Visible(m, output + more) == Visible(m, output) && ModeAfter(m, output + more) == Plain
  {
    forall m | ModeAfter(m, output) == Plain
      ensures Visible(m, output + more) == Visible(m, output) && ModeAfter(m, output + more) == Plain
    {
      VisibleAppend(m, output, more);
      FormattingInvisible(more);
    }
  }

  lemma EchoAppend(output: seq<byte>, before: seq<byte>, b: byte, after: seq<byte>)
    requires IsFormatting(before) && IsFormatting(after)
    ensures forall m :: ModeAfter(m, output) == Plain && b != ESC ==>
              Visible(m, output + before + [b] + after) == Visible(m, output) + [b]
              && ModeAfter(m, output + before + [b] + after) == Plain
  {
    SameAppend(output, before);
    forall m | ModeAfter(m, output) == Plain && b != ESC
      ensures Visible(m, output + before + [b] + after) == Visible(m, output) + [b]
              && ModeAfter(m, output + before + [b] + after) == Plain
    {
      VisibleAppend(m, output + before, [b]);
      assert [b][1..] == [];
      assert Visible(Plain, [b]) == [b] && ModeAfter(Plain, [b]) == Plain;
      VisibleAppend(m, output + before + [b], after);
      FormattingInvisible(after);
    }
  }

  // ---------- The sender ----------

  predicate IsControl(b: byte) { b < 0x20 || b == 0x7f }

  /** Printable bytes only, and bytes beyond ASCII. */
  predicate IsSingleLine(command: seq<byte>) { forall i :: 0 <= i < |command| ==> 0x20 <= command[i] != 0x7f }

  /** Reads until the echo of one byte, or until that does not come in time. While it waits, either the byte is still in the slot and nothing
      but formatting is coming, or it was accepted and its echo is the one visible byte to come. */
  method AwaitEcho(console: Console, expected: byte, ghost line: seq<byte>) returns (ok: bool)
    requires !IsControl(expected)
    requires console.slot == Some(expected) && console.line == line
    requires Visible(Plain, console.output) == [] && ModeAfter(Plain, console.output) == Plain
    modifies console
    ensures console.dropped == old(console.dropped) && console.executed == old(console.executed)
    ensures console.prompts == old(console.prompts) && (console.slot == None || console.slot == Some(expected))
    ensures console.troubles == old(console.troubles) + (if ok then 0 else 1)
    ensures ok ==> console.slot == None && console.line == line + [expected]
    ensures ok ==> Visible(Plain, console.output) == [] && ModeAfter(Plain, console.output) == Plain
  {
    hide Visible, ModeAfter;
    console.StartClock();
    var mode := Plain;
    while true
      invariant console.dropped == old(console.dropped) && console.executed == old(console.executed)
      invariant console.prompts == old(console.prompts) && console.troubles == old(console.troubles)
      invariant ModeAfter(mode, console.output) == Plain
      invariant console.slot == Some(expected) || console.slot == None
      invariant console.slot == Some(expected) ==> console.line == line && Visible(mode, console.output) == []
      invariant console.slot == None ==> console.line == line + [expected] && Visible(mode, console.output) == [expected]
      decreases console.left
    {
      var late := console.IsLate();
      if late {
        return false;
      }
      assert ModeAfter(mode, console.output) == Plain;
      assert console.slot != Some(ESC);
      var byte := console.Read();
      if byte == None {
        return false;
      }
      Heard(mode, byte.value, console.output);
      if mode == Csi {
        mode := if IsFinal(byte.value) then Plain else Csi;
        continue;
      }
      if mode == Escape {
        mode := if byte.value == BRACKET then Csi else Plain;
        continue;
      }
      if byte.value == ESC {
        mode := Escape;
        continue;
      }
      assert Visible(mode, [byte.value] + console.output)[0] == byte.value;
      assert console.slot == None && byte.value == expected;
      if byte.value == expected {
        return true;
      }
    }
  }

  /** One byte in flight at a time. Sending fails only if an echo does not come in time or writing fails. Once
      the newline was sent, which it is if sending succeeds, the console has lost nothing, and its line is what
      it was before, followed by exactly the command. */
  method SendEchoedCommand(console: Console, command: seq<byte>) returns (ok: bool)
    requires IsSingleLine(command)
    requires console.slot == None && Visible(Plain, console.output) == [] && ModeAfter(Plain, console.output) == Plain
    modifies console
    ensures console.dropped == old(console.dropped) && console.executed == old(console.executed)
    ensures console.prompts == old(console.prompts)
    ensures console.troubles == old(console.troubles) + (if ok then 0 else 1)
    ensures ok ==> console.slot == Some(10)
    ensures console.slot == Some(10) ==> console.line == old(console.line) + command
    ensures console.slot.Some? && console.slot != Some(10) ==> !IsControl(console.slot.value)
  {
    hide Visible, ModeAfter;
    for i := 0 to |command|
      invariant console.slot == None && console.dropped == old(console.dropped)
      invariant console.executed == old(console.executed) && console.line == old(console.line) + command[..i]
      invariant console.prompts == old(console.prompts) && console.troubles == old(console.troubles)
      invariant Visible(Plain, console.output) == [] && ModeAfter(Plain, console.output) == Plain
    {
      ghost var line := console.line;
      console.Receive(command[i]);
      var echoed := AwaitEcho(console, command[i], line);
      if !echoed {
        return false;
      }
      assert line + [command[i]] == old(console.line) + command[..i + 1];
    }
    assert command[..|command|] == command;
    console.Receive(LF);
    var fails := console.Fails();
    ok := !fails;
  }

  /** What the host appends to tell success from failure: `&& echo cmd-ok`. */
  function SuccessSuffix(): seq<byte> {
    [0x26, 0x26, 0x20, 0x65, 0x63, 0x68, 0x6f, 0x20, 0x63, 0x6d, 0x64, 0x2d, 0x6f, 0x6b]
  }

  lemma SuffixSpells()
    ensures var text := "&& echo cmd-ok";
            |SuccessSuffix()| == |text| && forall i :: 0 <= i < |text| ==> SuccessSuffix()[i] as int == text[i] as int
  {}

  lemma SuffixedIsSingleLine(command: seq<byte>)
    requires IsSingleLine(command)
    ensures IsSingleLine(command + SuccessSuffix())
  {
    var suffix := SuccessSuffix();
    forall i | 0 <= i < |command + suffix| ensures !IsControl((command + suffix)[i]) {
      if i < |command| {
        assert (command + suffix)[i] == command[i];
      } else {
        assert (command + suffix)[i] == suffix[i - |command|];
      }
    }
  }

  // ---------- Three attempts ----------

  /** Nothing is left in the editor, or will be once the byte in the slot is processed. */
  ghost predicate AtPrompt(console: Console)
    reads console
  {
    if console.slot == None then console.line == [] else EndsLine(console.slot.value)
  }

  /** No prompt is coming: the last line was not ended. */
  ghost predicate Unanswered(console: Console)
    reads console
  {
    console.prompts == 0 && (console.slot.Some? ==> !EndsLine(console.slot.value))
  }

  /** Interrupts the editor after a failed attempt. A prompt is only seen if nothing is left in it, even if
      the interrupt itself was lost. */
  method Resynchronize(console: Console) returns (ok: bool)
    requires AtPrompt(console) || Unanswered(console) || console.slot == None
    modifies console
    ensures console.Lines() == old(console.Lines()) && console.dropped <= old(console.dropped) + 1
    ensures ok ==> AtPrompt(console)
    ensures console.troubles == old(console.troubles) + (if ok then 0 else 1)
  {
    console.Receive(CTRL_C);
    assert AtPrompt(console) || Unanswered(console);
    ok := console.AwaitPrompt();
  }

  /** One attempt: clear what was printed, send, await the prompt, and look for the success text. `line` is
      what the newline ended, if one was sent. */
  method Attempt(console: Console, command: seq<byte>)
      returns (ok: bool, ghost line: Option<seq<byte>>, ghost held: seq<byte>)
    requires IsSingleLine(command)
    modifies console
    ensures line == None || line == Some(held + command)
    ensures line.Some? && old(console.slot) == None ==> held == old(console.line)
    ensures line.Some? && old(AtPrompt(console)) ==> held == []
    ensures console.Lines() == old(console.Lines()) + (if line == None then [] else [line.value])
    ensures console.dropped == old(console.dropped)
    ensures console.troubles == old(console.troubles) + (if ok then 0 else 1)
    ensures ok ==> line.Some? && console.slot == None && console.line == []
    ensures old(console.slot) == None || old(AtPrompt(console)) ==>
              AtPrompt(console) || Unanswered(console) || console.slot == None
  {
    hide Visible, ModeAfter;
    line := None;
    var silent := console.Drain();
    held := console.line;
    if !silent {
      return false, None, held;
    }
    Silence(Plain);
    var sent := SendEchoedCommand(console, command);
    line := if console.slot == Some(LF) then Some(held + command) else None;
    if !sent {
      return false, line, held;
    }
    var seen := console.AwaitPrompt();
    if !seen {
      return false, line, held;
    }
    ok := console.Succeeded();
  }

  /** Each line is the command; only the first one may continue what was there before. */
  predicate AreLines(lines: seq<seq<byte>>, before: seq<byte>, command: seq<byte>, first: bool) {
    forall i :: 0 <= i < |lines| ==> lines[i] == if i == 0 && first then before + command else command
  }

  /** Up to three attempts. Every line that the console runs, or will run, for them is exactly the command with
      the success suffix, except that one that the first attempt ended continues what the editor held before;
      and success means that one was run, and that the editor is empty. Only interrupts can be lost. Each failed
      attempt met one trouble; it gives up only after the third, or if no prompt comes after an interrupt. */
  method RunCommand(console: Console, command: seq<byte>)
      returns (ok: bool, ghost lines: seq<seq<byte>>, ghost first: bool, ghost attempted: nat)
    requires console.slot == None
    modifies console
    ensures !IsSingleLine(command) ==> !ok && lines == [] && console.slot == None && console.line == old(console.line)
    ensures IsSingleLine(command) <==> attempted > 0
    ensures |lines| <= attempted <= 3 && console.Lines() == old(console.executed) + lines
    ensures console.dropped < old(console.dropped) + 3
    ensures console.troubles == old(console.troubles)
            + (if ok then attempted - 1 else if attempted == 0 || attempted == 3 then attempted else attempted + 1)
    ensures AreLines(lines, old(console.line), command + SuccessSuffix(), first) && (first ==> lines != [])
    ensures ok ==>
              lines != [] && console.executed == old(console.executed) + lines
              && console.slot == None && console.line == []
  {
    hide SuccessSuffix;
    ok, lines, first, attempted := false, [], false, 0;
    if exists i :: 0 <= i < |command| && IsControl(command[i]) {
      return;
    }
    SuffixedIsSingleLine(command);
    var full := command + SuccessSuffix();
    var attempts := 0;
    while attempts < COMMAND_ATTEMPTS
      invariant attempts == attempted <= COMMAND_ATTEMPTS && |lines| <= attempts
      invariant !ok && console.troubles == old(console.troubles) + attempts
      invariant attempts == 0 ==> console.slot == None && console.line == old(console.line)
      invariant 0 < attempts < COMMAND_ATTEMPTS ==> AtPrompt(console)
      invariant console.Lines() == old(console.executed) + lines
      invariant console.dropped <= old(console.dropped) + attempts && (attempts == COMMAND_ATTEMPTS ==>
        console.dropped < old(console.dropped) + COMMAND_ATTEMPTS)
      invariant first ==> lines != []
      invariant AreLines(lines, old(console.line), full, first)
    {
      ghost var line, held;
      ok, line, held := Attempt(console, full);
      if line.Some? {
        assert [] + full == full;
        first := first || attempts == 0;
        lines := lines + [line.value];
      }
      attempts, attempted := attempts + 1, attempted + 1;
      if ok {
        return;
      }
      if attempts < COMMAND_ATTEMPTS {
        var prompt := Resynchronize(console);
        if !prompt {
          return;
        }
      }
    }
  }
}
