/** The flattened devicetree format, read independently of the code that writes it: sections 5.2 to 5.6
    of the Devicetree Specification, release 0.4.
  */
module FdtFormat {
  import opened Bytes
  import opened Options

  type Text = seq<byte>

  const WORD: nat := 0x1_0000_0000
  const FDT_MAGIC: nat := 0xd00dfeed
  const FDT_VERSION: nat := 17
  const FDT_LAST_COMP_VERSION: nat := 16

  const BEGIN_NODE: nat := 1
  const END_NODE: nat := 2
  const PROP: nat := 3
  const NOP: nat := 4
  const END: nat := 9

  // ---------- Words and padding ----------

  /** The low 32 bits of a number, most significant byte first. */
  function Be32(n: nat): (r: seq<byte>)
    ensures |r| == 4
  {
    [(n / 0x100_0000 % 0x100) as byte, (n / 0x1_0000 % 0x100) as byte, (n / 0x100 % 0x100) as byte, (n % 0x100) as byte]
  }

  function Word(s: seq<byte>): (n: nat)
    requires |s| >= 4
    ensures n < WORD
  {
    s[0] as nat * 0x100_0000 + s[1] as nat * 0x1_0000 + s[2] as nat * 0x100 + s[3] as nat
  }

  lemma WordOfBe32(n: nat)
    ensures Word(Be32(n)) == n % WORD
  {
    var (a, b, c) := (n / 0x100, n / 0x1_0000, n / 0x100_0000);
    assert n == a * 0x100 + n % 0x100;
    assert a == b * 0x100 + a % 0x100 && b == n / 0x100 / 0x100;
    assert b == c * 0x100 + b % 0x100 && c == b / 0x100;
    assert c == c / 0x100 * 0x100 + c % 0x100;
    var low := Word(Be32(n));
    assert n == c / 0x100 * WORD + low;
  }

  lemma WordHead(n: nat, rest: seq<byte>)
    ensures |Be32(n) + rest| >= 4 && Word(Be32(n) + rest) == n % WORD && (Be32(n) + rest)[4..] == rest
  {
    hide Word;
    WordOfBe32(n);
    SameWord(Be32(n), Be32(n) + rest);
  }

  lemma SameWord(s: seq<byte>, t: seq<byte>)
    requires |s| >= 4 && |t| >= 4 && forall i :: 0 <= i < 4 ==> s[i] == t[i]
    ensures Word(s) == Word(t)
  {}

  /** How many zero bytes bring a length to a multiple of four. */
  function Gap(length: nat): (g: nat)
    ensures g < 4 && (length + g) % 4 == 0
  {
    (4 - length % 4) % 4
  }

  function Zeros(n: nat): (r: seq<byte>)
    ensures |r| == n && forall i :: 0 <= i < n ==> r[i] == 0
  {
    if n == 0 then [] else Zeros(n - 1) + [0]
  }

  function Padded(s: seq<byte>): (r: seq<byte>)
    ensures |r| % 4 == 0 && s <= r && |r| == |s| + Gap(|s|)
  {
    s + Zeros(Gap(|s|))
  }

  // ---------- The structure block ----------

  /** A token with its property name still an offset. */
  datatype RawToken =
    | RawBegin(name: Text)
    | RawEndNode
    | RawProp(nameOffset: nat, value: seq<byte>)
    | RawNop
    | RawEnd

  /** Section 5.4.1: big-endian tokens, names and values padded to 32 bits. */
  function EncodeOne(t: RawToken): (r: seq<byte>)
    ensures |r| % 4 == 0 && |r| >= 4
  {
    match t
    case RawBegin(name) => Be32(BEGIN_NODE) + Padded(name + [0])
    case RawEndNode => Be32(END_NODE)
    case RawProp(nameOffset, value) => Be32(PROP) + Be32(|value|) + Be32(nameOffset) + Padded(value)
    case RawNop => Be32(NOP)
    case RawEnd => Be32(END)
  }

  function Encode(ts: seq<RawToken>): (r: seq<byte>)
    ensures |r| % 4 == 0
  {
    if ts == [] then []
    else
      var (front, last) := (Encode(ts[..|ts| - 1]), EncodeOne(ts[|ts| - 1]));
      SumAligned(|front|, |last|);
      front + last
  }

  lemma SumAligned(m: nat, n: nat)
    requires m % 4 == 0 && n % 4 == 0
    ensures (m + n) % 4 == 0
  {}

  /** One token and what follows it. */
  function ReadToken(s: seq<byte>): (r: Option<(RawToken, seq<byte>)>)
    ensures r.Some? ==> |r.value.1| < |s|
  {
    if |s| < 4 then None
    else
      var rest := s[4..];
      var code := Word(s);
      if code == BEGIN_NODE then
        var name := UpTo(rest, 0);
        var end := |name| + 1 + Gap(|name| + 1);
        if end <= |rest| then Some((RawBegin(name), rest[end..])) else None
      else if code == END_NODE then Some((RawEndNode, rest))
      else if code == PROP then ReadProp(rest)
      else if code == NOP then Some((RawNop, rest))
      else if code == END then Some((RawEnd, rest))
      else None
  }

  function ReadProp(rest: seq<byte>): (r: Option<(RawToken, seq<byte>)>)
    ensures r.Some? ==> |r.value.1| <= |rest|
  {
    if |rest| < 8 then None
    else
      var (length, offset, data) := (Word(rest), Word(rest[4..]), rest[8..]);
      if length + Gap(length) <= |data|
      then Some((RawProp(offset, data[..length]), data[length + Gap(length)..]))
      else None
  }

  /** All tokens of a block: it must end with the one end token. */
  function ReadTokens(s: seq<byte>): Option<seq<RawToken>>
    decreases |s|
  {
    match ReadToken(s)
    case None => None
    case Some((RawEnd, rest)) => if rest == [] then Some([RawEnd]) else None
    case Some((t, rest)) =>
      match ReadTokens(rest)
      case None => None
      case Some(ts) => Some([t] + ts)
  }

  /** What a reader of the format can tell apart: lengths and offsets that fit a word, names without NUL. */
  predicate Readable(t: RawToken) {
    match t
    case RawBegin(name) => 0 !in name
    case RawProp(nameOffset, value) => nameOffset < WORD && |value| < WORD
    case _ => true
  }

  lemma NameBody(name: Text, rest: seq<byte>)
    requires 0 !in name
    ensures UpTo(Padded(name + [0]) + rest, 0) == name
    ensures (Padded(name + [0]) + rest)[|name| + 1 + Gap(|name| + 1)..] == rest
  {
    hide UpTo, Gap;
    UpToOf(name, 0, Zeros(Gap(|name| + 1)) + rest);
    assert Padded(name + [0]) + rest == name + [0] + (Zeros(Gap(|name| + 1)) + rest);
  }

  lemma ReadBegin(name: Text, rest: seq<byte>)
    requires 0 !in name
    ensures ReadToken(EncodeOne(RawBegin(name)) + rest) == Some((RawBegin(name), rest))
  {
    hide Word, UpTo, Be32, Gap, ReadProp;
    var body := Padded(name + [0]) + rest;
    assert EncodeOne(RawBegin(name)) + rest == Be32(BEGIN_NODE) + body;
    WordHead(BEGIN_NODE, body);
    NameBody(name, rest);
  }

  lemma ValueBody(value: seq<byte>, rest: seq<byte>)
    ensures var data := Padded(value) + rest;
            |value| + Gap(|value|) <= |data| && data[..|value|] == value && data[|value| + Gap(|value|)..] == rest
  {}

  lemma ReadPropOf(nameOffset: nat, value: seq<byte>, rest: seq<byte>)
    requires nameOffset < WORD && |value| < WORD
    ensures ReadProp(Be32(|value|) + Be32(nameOffset) + Padded(value) + rest) == Some((RawProp(nameOffset, value), rest))
  {
    hide Word, Be32, Gap, Padded;
    var data := Padded(value) + rest;
    var afterLength := Be32(nameOffset) + data;
    var body := Be32(|value|) + afterLength;
    assert Be32(|value|) + Be32(nameOffset) + Padded(value) + rest == body;
    WordHead(|value|, afterLength);
    WordHead(nameOffset, data);
    assert body[8..] == afterLength[4..];
    ValueBody(value, rest);
  }

  lemma ReadPropToken(nameOffset: nat, value: seq<byte>, rest: seq<byte>)
    requires nameOffset < WORD && |value| < WORD
    ensures ReadToken(EncodeOne(RawProp(nameOffset, value)) + rest) == Some((RawProp(nameOffset, value), rest))
  {
    hide Word, Be32, Gap, Padded, ReadProp, UpTo;
    var body := Be32(|value|) + Be32(nameOffset) + Padded(value) + rest;
    assert EncodeOne(RawProp(nameOffset, value)) + rest == Be32(PROP) + body;
    WordHead(PROP, body);
    ReadPropOf(nameOffset, value, rest);
  }

  lemma ReadOne(t: RawToken, rest: seq<byte>)
    requires Readable(t)
    ensures ReadToken(EncodeOne(t) + rest) == Some((t, rest))
  {
    hide Word, Be32, UpTo, ReadProp;
    match t
    case RawBegin(name) => ReadBegin(name, rest);
    case RawProp(nameOffset, value) => ReadPropToken(nameOffset, value, rest);
    case RawEndNode => WordHead(END_NODE, rest);
    case RawNop => WordHead(NOP, rest);
    case RawEnd => WordHead(END, rest);
  }

  lemma {:induction false} EncodeAppend(ts: seq<RawToken>, us: seq<RawToken>)
    ensures Encode(ts + us) == Encode(ts) + Encode(us)
  {
    hide EncodeOne;
    if us == [] {
      assert ts + us == ts;
    } else {
      EncodeAppend(ts, us[..|us| - 1]);
      assert (ts + us)[..|ts + us| - 1] == ts + us[..|us| - 1];
    }
  }

  lemma EncodeSingle(t: RawToken)
    ensures Encode([t]) == EncodeOne(t)
  {
    hide EncodeOne;
    assert [t][..0] == [];
    assert Encode([]) == [];
  }

  /** Reading undoes writing, for every readable sequence of tokens. */
  lemma {:induction false} ReadTokensOf(ts: seq<RawToken>)
    requires forall i :: 0 <= i < |ts| ==> Readable(ts[i]) && !ts[i].RawEnd?
    ensures ReadTokens(Encode(ts + [RawEnd])) == Some(ts + [RawEnd])
  {
    hide ReadToken, EncodeOne;
    if ts == [] {
      EncodeSingle(RawEnd);
      ReadOne(RawEnd, []);
      assert ts + [RawEnd] == [RawEnd] && EncodeOne(RawEnd) + [] == EncodeOne(RawEnd);
    } else {
      var rest := ts[1..] + [RawEnd];
      assert ts + [RawEnd] == [ts[0]] + rest;
      EncodeAppend([ts[0]], rest);
      EncodeSingle(ts[0]);
      ReadOne(ts[0], Encode(rest));
      ReadTokensOf(ts[1..]);
    }
  }

  /** A reader never sees a NUL in a node name. */
  lemma {:induction false} NamesRead(s: seq<byte>)
    ensures ReadTokens(s).Some? ==>
              forall i :: 0 <= i < |ReadTokens(s).value| ==>
                ReadTokens(s).value[i].RawBegin? ==> 0 !in ReadTokens(s).value[i].name
    decreases |s|
  {
    hide Word, UpTo;
    match ReadToken(s)
    case None =>
    case Some((t, rest)) =>
      if !t.RawEnd? {
        NamesRead(rest);
      }
  }

  // ---------- Property names ----------

  datatype Token = BeginNode(name: Text) | EndNode | Prop(name: Text, value: seq<byte>) | End

  /** Section 5.5: a name runs from its offset in the strings block to the next NUL. */
  function NameAt(strings: seq<byte>, offset: nat): Option<Text> {
    if offset > |strings| then None
    else
      var name := UpTo(strings[offset..], 0);
      if offset + |name| < |strings| then Some(name) else None
  }

  function ResolveOne(t: RawToken, strings: seq<byte>): Option<seq<Token>> {
    match t
    case RawBegin(name) => Some([BeginNode(name)])
    case RawEndNode => Some([EndNode])
    case RawProp(nameOffset, value) =>
      (match NameAt(strings, nameOffset)
       case None => None
       case Some(name) => Some([Prop(name, value)]))
    case RawNop => Some([])
    case RawEnd => Some([End])
  }

  /** Names filled in, and no-operation tokens dropped. */
  function Resolve(ts: seq<RawToken>, strings: seq<byte>): Option<seq<Token>> {
    if ts == [] then Some([])
    else
      match (Resolve(ts[..|ts| - 1], strings), ResolveOne(ts[|ts| - 1], strings))
      case (Some(front), Some(last)) => Some(front + last)
      case _ => None
  }

  lemma ResolveSnoc(ts: seq<RawToken>, t: RawToken, strings: seq<byte>)
    ensures Resolve(ts, strings).Some? && ResolveOne(t, strings).Some? ==>
              Resolve(ts + [t], strings) == Some(Resolve(ts, strings).value + ResolveOne(t, strings).value)
  {
    hide ResolveOne;
    assert (ts + [t])[..|ts + [t]| - 1] == ts;
  }

  lemma NameGrows(strings: seq<byte>, more: seq<byte>, offset: nat)
    requires NameAt(strings, offset).Some?
    ensures NameAt(strings + more, offset) == NameAt(strings, offset)
  {
    hide UpTo;
    assert (strings + more)[offset..] == strings[offset..] + more;
    UpToGrows(strings[offset..], 0, more);
  }

  /** Strings added later change no name. */
  lemma {:induction false} ResolveGrows(ts: seq<RawToken>, strings: seq<byte>, more: seq<byte>)
    requires Resolve(ts, strings).Some?
    ensures Resolve(ts, strings + more) == Resolve(ts, strings)
  {
    hide NameAt;
    if ts != [] {
      ResolveGrows(ts[..|ts| - 1], strings, more);
      if ts[|ts| - 1].RawProp? {
        NameGrows(strings, more, ts[|ts| - 1].nameOffset);
      }
    }
  }

  // ---------- The tree ----------

  datatype Node = Node(name: Text, items: seq<Item>)
  datatype Item = Property(name: Text, value: seq<byte>) | Child(node: Node)

  function NodeTokens(n: Node): seq<Token>
    decreases n
  {
    [BeginNode(n.name)] + ItemsTokens(n.items) + [EndNode]
  }

  function ItemsTokens(items: seq<Item>): seq<Token>
    decreases items
  {
    if items == [] then [] else ItemTokens(items[0]) + ItemsTokens(items[1..])
  }

  function ItemTokens(item: Item): seq<Token>
    decreases item
  {
    match item
    case Property(name, value) => [Prop(name, value)]
    case Child(node) => NodeTokens(node)
  }

  /** The items up to the end of the current node, and what follows that end. */
  function ParseItems(ts: seq<Token>): (r: Option<(seq<Item>, seq<Token>)>)
    ensures r.Some? ==> |r.value.1| < |ts|
    decreases |ts|
  {
    if ts == [] then None
    else
      match ts[0]
      case End => None
      case EndNode => Some(([], ts[1..]))
      case Prop(name, value) =>
        (match ParseItems(ts[1..])
         case None => None
         case Some((items, rest)) => Some(([Property(name, value)] + items, rest)))
      case BeginNode(name) =>
        (match ParseItems(ts[1..])
         case None => None
         case Some((inner, afterNode)) =>
           match ParseItems(afterNode)
           case None => None
           case Some((items, rest)) => Some(([Child(Node(name, inner))] + items, rest)))
  }

  /** One root node and the end token. */
  function ParseTree(ts: seq<Token>): Option<Node> {
    if ts == [] || !ts[0].BeginNode? then None
    else
      match ParseItems(ts[1..])
      case None => None
      case Some((items, rest)) => if rest == [End] then Some(Node(ts[0].name, items)) else None
  }

  lemma {:induction false} ItemsParse(items: seq<Item>, rest: seq<Token>)
    ensures ParseItems(ItemsTokens(items) + [EndNode] + rest) == Some((items, rest))
    decreases items
  {
    hide ItemTokens;
    var ts := ItemsTokens(items) + [EndNode] + rest;
    if items == [] {
      assert ts == [EndNode] + rest;
    } else {
      var more := ItemsTokens(items[1..]) + [EndNode] + rest;
      ItemsParse(items[1..], rest);
      assert items == [items[0]] + items[1..];
      assert ts == ItemTokens(items[0]) + more;
      ItemParses(items[0], more, items[1..], rest);
    }
  }

  lemma {:induction false} ItemParses(item: Item, more: seq<Token>, items: seq<Item>, rest: seq<Token>)
    requires ParseItems(more) == Some((items, rest))
    ensures ParseItems(ItemTokens(item) + more) == Some(([item] + items, rest))
    decreases item
  {
    var ts := ItemTokens(item) + more;
    match item
    case Property(name, value) =>
      assert ts[1..] == more;
    case Child(node) =>
      var inside := ItemsTokens(node.items) + [EndNode];
      assert ItemTokens(item) == NodeTokens(node) == [BeginNode(node.name)] + inside;
      assert ts == [BeginNode(node.name)] + (inside + more);
      ItemsParse(node.items, more);
  }

  lemma TreeParses(n: Node)
    ensures ParseTree(NodeTokens(n) + [End]) == Some(n)
  {
    assert (NodeTokens(n) + [End])[1..] == ItemsTokens(n.items) + [EndNode] + [End];
    ItemsParse(n.items, [End]);
  }

  lemma {:induction false} ItemsTokensAppend(items: seq<Item>, more: seq<Item>)
    ensures ItemsTokens(items + more) == ItemsTokens(items) + ItemsTokens(more)
  {
    hide ItemTokens;
    if items == [] {
      assert items + more == more;
    } else {
      assert (items + more)[1..] == items[1..] + more;
      ItemsTokensAppend(items[1..], more);
    }
  }

  // ---------- Whole blobs ----------

  /** Section 5.3: pairs of 64-bit numbers, ended by a pair of zeros. */
  function ReadReservations(s: seq<byte>): Option<seq<(nat, nat)>>
    decreases |s|
  {
    if |s| < 16 then None
    else
      var address := Word(s) * WORD + Word(s[4..]);
      var size := Word(s[8..]) * WORD + Word(s[12..]);
      if address == 0 && size == 0 then Some([])
      else
        match ReadReservations(s[16..])
        case None => None
        case Some(more) => Some([(address, size)] + more)
  }

  datatype Blob = Blob(reservations: seq<(nat, nat)>, tree: Node)

  function HeaderWord(b: seq<byte>, k: nat): nat
    requires 4 * k + 4 <= |b|
  {
    Word(b[4 * k..])
  }

  /** Sections 5.2 and 5.6: where the blocks are, provided they are aligned and inside the blob, in order. */
  datatype Layout = Layout(reservations: nat, structure: nat, structureSize: nat, strings: nat, stringsSize: nat)

  function ReadLayout(b: seq<byte>): (r: Option<Layout>)
    ensures r.Some? ==>
              var l := r.value;
              && l.reservations <= l.structure <= l.structure + l.structureSize <= l.strings
              && l.strings + l.stringsSize <= |b|
  {
    if |b| < 40 || HeaderWord(b, 0) != FDT_MAGIC || HeaderWord(b, 1) != |b|
       || HeaderWord(b, 5) < HeaderWord(b, 6) || HeaderWord(b, 6) > FDT_VERSION then None
    else
      var l := Layout(HeaderWord(b, 4), HeaderWord(b, 2), HeaderWord(b, 9), HeaderWord(b, 3), HeaderWord(b, 8));
      if l.reservations % 8 == 0 && l.structure % 4 == 0
         && 40 <= l.reservations <= l.structure
         && l.structure + l.structureSize <= l.strings
         && l.strings + l.stringsSize <= |b|
      then Some(l)
      else None
  }

  function ParseBlob(b: seq<byte>): Option<Blob> {
    match ReadLayout(b)
    case None => None
    case Some(l) =>
      match (ReadReservations(b[l.reservations..l.structure]), ReadTokens(b[l.structure..l.structure + l.structureSize]))
      case (Some(reservations), Some(raw)) =>
        (match Resolve(raw, b[l.strings..l.strings + l.stringsSize])
         case None => None
         case Some(ts) =>
           match ParseTree(ts)
           case None => None
           case Some(tree) => Some(Blob(reservations, tree)))
      case _ => None
  }
}
