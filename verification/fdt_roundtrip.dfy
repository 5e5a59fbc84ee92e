/** Reading a written FIT image gives back the tree its configuration describes. */
module FitRoundTrip {
  import opened Bytes
  import opened Options
  import opened FdtFormat
  import opened FitTree
  import opened FitContents
  import opened FitWriter

  // ---------- Names without NUL ----------

  predicate CleanToken(t: Token) { t.BeginNode? ==> 0 !in t.name }

  predicate CleanTokens(ts: seq<Token>) { forall i :: 0 <= i < |ts| ==> CleanToken(ts[i]) }

  predicate CleanTree(n: Node)
    decreases n
  {
    0 !in n.name && CleanItems(n.items)
  }

  predicate CleanItems(items: seq<Item>)
    decreases items
  {
    items == [] || (CleanItem(items[0]) && CleanItems(items[1..]))
  }

  predicate CleanItem(item: Item)
    decreases item
  {
    match item
    case Property(_, _) => true
    case Child(node) => CleanTree(node)
  }

  lemma CleanAppend(ts: seq<Token>, us: seq<Token>)
    ensures CleanTokens(ts + us) == (CleanTokens(ts) && CleanTokens(us))
  {
    hide CleanToken;
    if CleanTokens(ts + us) {
      assert forall i :: 0 <= i < |ts| ==> ts[i] == (ts + us)[i];
      assert forall i :: 0 <= i < |us| ==> us[i] == (ts + us)[|ts| + i];
    }
  }

  lemma {:induction false} CleanNode(n: Node)
    ensures CleanTokens(NodeTokens(n)) == CleanTree(n)
    decreases n
  {
    hide CleanItems, ItemsTokens;
    CleanItemList(n.items);
    var begin := [BeginNode(n.name)];
    assert NodeTokens(n) == begin + ItemsTokens(n.items) + [EndNode];
    CleanAppend(begin + ItemsTokens(n.items), [EndNode]);
    CleanAppend(begin, ItemsTokens(n.items));
    assert CleanTokens(begin) == CleanToken(begin[0]);
  }

  lemma {:induction false} CleanItemList(items: seq<Item>)
    ensures CleanTokens(ItemsTokens(items)) == CleanItems(items)
    decreases items
  {
    hide CleanItem, ItemTokens, CleanToken;
    if items != [] {
      CleanOneItem(items[0]);
      CleanItemList(items[1..]);
      CleanAppend(ItemTokens(items[0]), ItemsTokens(items[1..]));
    }
  }

  lemma {:induction false} CleanOneItem(item: Item)
    ensures CleanTokens(ItemTokens(item)) == CleanItem(item)
    decreases item
  {
    match item
    case Property(name, value) =>
    case Child(node) =>
      CleanNode(node);
  }

  lemma {:induction false} CleanItemsAppend(items: seq<Item>, more: seq<Item>)
    ensures CleanItems(items + more) == (CleanItems(items) && CleanItems(more))
  {
    hide CleanItem;
    if items == [] {
      assert items + more == more;
    } else {
      assert (items + more)[1..] == items[1..] + more;
      CleanItemsAppend(items[1..], more);
    }
  }

  // ---------- Parsing loses nothing ----------

  /** What was parsed, written again, is what was read. */
  lemma {:induction false} ItemsUnparse(ts: seq<Token>)
    ensures ParseItems(ts).Some? ==>
              var (items, rest) := ParseItems(ts).value; ts == ItemsTokens(items) + [EndNode] + rest
    decreases |ts|
  {
    if ts != [] && ParseItems(ts).Some? {
      var (items, rest) := ParseItems(ts).value;
      match ts[0]
      case End =>
      case EndNode =>
        assert ItemsTokens([]) == [];
        assert ts == [EndNode] + ts[1..];
      case Prop(name, value) =>
        ItemsUnparse(ts[1..]);
        Unparsed(ts, Property(name, value), items[1..], [ts[0]], rest);
      case BeginNode(name) =>
        ItemsUnparse(ts[1..]);
        var (inner, afterNode) := ParseItems(ts[1..]).value;
        ItemsUnparse(afterNode);
        var node := Node(name, inner);
        assert NodeTokens(node) == [ts[0]] + ItemsTokens(inner) + [EndNode];
        assert ts == [ts[0]] + (ItemsTokens(inner) + [EndNode] + afterNode);
        assert ts == NodeTokens(node) + afterNode;
        Unparsed(ts, Child(node), items[1..], NodeTokens(node), rest);
    }
  }

  lemma Unparsed(ts: seq<Token>, item: Item, items: seq<Item>, head: seq<Token>, rest: seq<Token>)
    requires head == ItemTokens(item) && ts == head + (ItemsTokens(items) + [EndNode] + rest)
    ensures ts == ItemsTokens([item] + items) + [EndNode] + rest
  {
    hide ItemTokens;
    assert ([item] + items)[1..] == items;
  }

  lemma TreeUnparse(ts: seq<Token>)
    requires ParseTree(ts).Some?
    ensures ts == NodeTokens(ParseTree(ts).value) + [End]
  {
    ItemsUnparse(ts[1..]);
    assert ts == [ts[0]] + ts[1..];
  }

  // ---------- The blocks of an image ----------

  lemma {:induction false} WordsAt(ws: seq<nat>, k: nat, rest: seq<byte>)
    requires k < |ws|
    ensures HeaderWord(Words(ws) + rest, k) == ws[k] % WORD
  {
    hide Be32, Word;
    if k == 0 {
      var tail := Words(ws[1..]) + rest;
      assert Words(ws) + rest == Be32(ws[0]) + tail;
      WordHead(ws[0], tail);
      assert (Words(ws) + rest)[0..] == Words(ws) + rest;
    } else {
      WordsAt(ws[1..], k - 1, rest);
      assert (Words(ws) + rest)[4 * k..] == (Words(ws[1..]) + rest)[4 * (k - 1)..];
    }
  }

  lemma Blocks(structure: seq<byte>, strings: seq<byte>)
    ensures var b := Image([(0, 0)], structure, strings);
            && |b| == 72 + |structure| + |strings|
            && b[56..72] == Reservations([(0, 0)])
            && b[72..72 + |structure|] == structure
            && b[72 + |structure|..72 + |structure| + |strings|] == strings
  {
    hide HeaderFields, Words, Reservations;
  }

  lemma FieldsOf(structSize: nat, stringsSize: nat)
    requires 72 + structSize + stringsSize < WORD
    ensures HeaderFields(1, structSize, stringsSize) ==
            [ 0xd00dfeed, 72 + structSize + stringsSize, 72, 72 + structSize, 56,
              17, 16, 0, stringsSize, structSize, 0, 0, 0, 0 ]
  {}

  lemma FieldAt(structure: seq<byte>, strings: seq<byte>, k: nat)
    requires k < 14
    ensures |Image([(0, 0)], structure, strings)| == 72 + |structure| + |strings|
    ensures HeaderWord(Image([(0, 0)], structure, strings), k) == HeaderFields(1, |structure|, |strings|)[k] % WORD
  {
    hide Word, Words, Reservations, HeaderWord, HeaderFields;
    Blocks(structure, strings);
    var rest := Reservations([(0, 0)]) + structure + strings;
    assert Image([(0, 0)], structure, strings) == Words(HeaderFields(1, |structure|, |strings|)) + rest;
    WordsAt(HeaderFields(1, |structure|, |strings|), k, rest);
  }

  /** The header of an image that fits in 32 bits describes adjacent blocks that fill it exactly. */
  lemma LayoutOf(structure: seq<byte>, strings: seq<byte>)
    requires |structure| % 4 == 0 && 72 + |structure| + |strings| < WORD
    ensures |Image([(0, 0)], structure, strings)| == 72 + |structure| + |strings|
    ensures ReadLayout(Image([(0, 0)], structure, strings))
            == Some(Layout(56, 72, |structure|, 72 + |structure|, |strings|))
  {
    hide HeaderFields, HeaderWord, Image;
    FieldsOf(|structure|, |strings|);
    FieldAt(structure, strings, 0);
    FieldAt(structure, strings, 1);
    FieldAt(structure, strings, 2);
    FieldAt(structure, strings, 3);
    FieldAt(structure, strings, 4);
    FieldAt(structure, strings, 5);
    FieldAt(structure, strings, 6);
    FieldAt(structure, strings, 8);
    FieldAt(structure, strings, 9);
  }

  lemma TooLong(entries: seq<(nat, nat)>, structure: seq<byte>, strings: seq<byte>)
    requires |Image(entries, structure, strings)| >= WORD
    ensures ParseBlob(Image(entries, structure, strings)) == None
  {
    hide Word, Words, Reservations;
    var fields := HeaderFields(|entries|, |structure|, |strings|);
    var b := Image(entries, structure, strings);
    assert b == Words(fields) + (Reservations(entries) + structure + strings);
    WordsAt(fields, 1, Reservations(entries) + structure + strings);
    assert HeaderWord(b, 1) < WORD;
  }

  lemma NoReservations(rest: seq<byte>)
    requires rest == Reservations([(0, 0)])
    ensures ReadReservations(rest) == Some([])
  {
    hide Word;
    assert [(0, 0)][..0] == [];
    assert rest == [] + Be64(0) + Be64(0);
    ZeroWords(rest);
  }

  lemma ZeroWords(s: seq<byte>)
    requires |s| == 16 && s == Be64(0) + Be64(0)
    ensures Word(s) == Word(s[4..]) == Word(s[8..]) == Word(s[12..]) == 0
  {}

  // ---------- Round trip ----------

  lemma {:induction false} ValueFits(ts: seq<RawToken>, i: nat)
    requires i < |ts|
    ensures |EncodeOne(ts[i])| <= |Encode(ts)|
  {
    hide EncodeOne;
    if i < |ts| - 1 {
      ValueFits(ts[..|ts| - 1], i);
    }
  }

  /** Node names reach the resolved tokens unchanged. */
  lemma {:induction false} NamesResolve(ts: seq<RawToken>, strings: seq<byte>)
    requires Resolve(ts, strings).Some?
    ensures CleanTokens(Resolve(ts, strings).value) ==
            forall i :: 0 <= i < |ts| ==> ts[i].RawBegin? ==> 0 !in ts[i].name
  {
    hide NameAt, CleanTokens;
    if ts == [] {
      assert CleanTokens([]) by { CleanNothing(); }
    } else {
      var front, t := ts[..|ts| - 1], ts[|ts| - 1];
      NamesResolve(front, strings);
      CleanAppend(Resolve(front, strings).value, ResolveOne(t, strings).value);
      CleanOne(t, strings);
      assert forall i :: 0 <= i < |front| ==> front[i] == ts[i];
    }
  }

  lemma CleanNothing()
    ensures CleanTokens([])
  {}

  lemma CleanOne(t: RawToken, strings: seq<byte>)
    requires ResolveOne(t, strings).Some?
    ensures CleanTokens(ResolveOne(t, strings).value) == (t.RawBegin? ==> 0 !in t.name)
  {
    hide NameAt;
    var ts := ResolveOne(t, strings).value;
    assert t.RawBegin? ==> ts[0] == BeginNode(t.name);
  }

  lemma ReadableContent(raws: seq<RawToken>)
    requires Content(raws) && |Encode(raws)| < WORD
    requires forall i :: 0 <= i < |raws| ==> raws[i].RawBegin? ==> 0 !in raws[i].name
    ensures forall i :: 0 <= i < |raws| ==> Readable(raws[i]) && !raws[i].RawEnd?
  {
    forall i | 0 <= i < |raws| ensures Readable(raws[i]) && !raws[i].RawEnd? {
      ValueFits(raws, i);
      if raws[i].RawProp? {
        ValueEncoded(raws[i].nameOffset, raws[i].value);
      }
    }
  }

  lemma ValueEncoded(nameOffset: nat, value: seq<byte>)
    ensures |EncodeOne(RawProp(nameOffset, value))| >= |value|
  {}

  /** An image is read back as the described tree exactly when it fits in 32 bits and no node name
      holds a NUL. */
  lemma ImageReadsBack(raws: seq<RawToken>, strings: seq<byte>, tree: Node)
    requires Content(raws)
    requires |strings| < WORD ==> Resolve(raws, strings) == Some(NodeTokens(tree))
    ensures var b := Image([(0, 0)], Encode(raws) + EncodeOne(RawEnd), strings);
            ParseBlob(b) == Some(Blob([], tree)) <==> |b| < WORD && CleanTree(tree)
  {
    hide Encode, EncodeOne, Image, ReadLayout, ReadReservations, ReadTokens, Resolve, ParseTree, Content, CleanTree, NodeTokens;
    var structure := Encode(raws) + EncodeOne(RawEnd);
    var b := Image([(0, 0)], structure, strings);
    ImageLength(structure, strings);
    if |b| >= WORD {
      TooLong([(0, 0)], structure, strings);
    } else {
      SumAligned(|Encode(raws)|, |EncodeOne(RawEnd)|);
      LayoutOf(structure, strings);
      Blocks(structure, strings);
      NoReservations(b[56..72]);
      if CleanTree(tree) {
        CleanReadsBack(raws, strings, tree);
      } else if ParseBlob(b) == Some(Blob([], tree)) {
        var raw := ReadTokens(structure).value;
        NamesRead(structure);
        NamesResolve(raw, strings);
        TreeUnparse(Resolve(raw, strings).value);
        CleanAppend(NodeTokens(tree), [End]);
        CleanNode(tree);
      }
    }
  }

  lemma ImageLength(structure: seq<byte>, strings: seq<byte>)
    ensures |Image([(0, 0)], structure, strings)| == 72 + |structure| + |strings|
  {}

  lemma CleanReadsBack(raws: seq<RawToken>, strings: seq<byte>, tree: Node)
    requires Content(raws) && |Encode(raws)| < WORD && CleanTree(tree)
    requires Resolve(raws, strings) == Some(NodeTokens(tree))
    ensures ReadTokens(Encode(raws) + EncodeOne(RawEnd)) == Some(raws + [RawEnd])
    ensures Resolve(raws + [RawEnd], strings) == Some(NodeTokens(tree) + [End])
    ensures ParseTree(NodeTokens(tree) + [End]) == Some(tree)
  {
    hide Encode, EncodeOne, ReadTokens, Resolve, ParseTree, CleanTree, NodeTokens, Content;
    CleanNode(tree);
    NamesResolve(raws, strings);
    ReadableContent(raws);
    ReadTokensOf(raws);
    EncodeAppend(raws, [RawEnd]);
    EncodeSingle(RawEnd);
    ResolveSnoc(raws, RawEnd, strings);
    TreeParses(tree);
  }

  // ---------- Configurations ----------

  predicate CleanName(component: Option<ComponentConfig>) { component.Some? ==> 0 !in component.value.name }

  /** What a caller can check of a configuration: the names that become node names hold no NUL. */
  predicate NamesClean(config: FitImageConfig) {
    && CleanName(config.kernel) && CleanName(config.fdt) && CleanName(config.ramdisk)
    && forall n: Text :: n in config.configurations ==> 0 !in n
  }

  predicate PropertiesOnly(items: seq<Item>) { forall i :: 0 <= i < |items| ==> items[i].Property? }

  lemma {:induction false} PropertiesClean(items: seq<Item>)
    requires PropertiesOnly(items)
    ensures CleanItems(items)
  {
    if items != [] {
      PropertiesClean(items[1..]);
    }
  }

  lemma CleanChild(name: Text, items: seq<Item>)
    requires PropertiesOnly(items)
    ensures CleanItems([Child(Node(name, items))]) == (0 !in name)
  {
    PropertiesClean(items);
    assert [Child(Node(name, items))][1..] == [];
    assert CleanItem(Child(Node(name, items))) == CleanTree(Node(name, items));
  }

  lemma ComponentProperties(c: ComponentConfig)
    ensures PropertiesOnly(KernelItems(c)) && PropertiesOnly(FdtItems(c)) && PropertiesOnly(RamdiskItems(c))
  {
    hide Ascii;
  }

  lemma ReferenceProperties(description: Text, kernel: Option<Text>, fdt: Option<Text>, ramdisk: Option<Text>)
    ensures PropertiesOnly(References(description, kernel, fdt, ramdisk))
  {
    hide Ascii;
  }

  lemma CleanComponent(component: Option<ComponentConfig>, items: ComponentConfig -> seq<Item>)
    requires component.Some? ==> PropertiesOnly(items(component.value))
    ensures CleanItems(OptionalChild(component, items)) == CleanName(component)
  {
    if component.Some? {
      CleanChild(component.value.name, items(component.value));
    }
  }

  lemma CleanImages(config: FitImageConfig)
    ensures CleanItems(ImageItems(config)) == (CleanName(config.kernel) && CleanName(config.fdt) && CleanName(config.ramdisk))
  {
    hide CleanItems, KernelItems, FdtItems, RamdiskItems, OptionalChild, PropertiesOnly, CleanName;
    var kernel, fdt := OptionalChild(config.kernel, KernelItems), OptionalChild(config.fdt, FdtItems);
    forall c | config.kernel == Some(c) || config.fdt == Some(c) || config.ramdisk == Some(c)
      ensures PropertiesOnly(KernelItems(c)) && PropertiesOnly(FdtItems(c)) && PropertiesOnly(RamdiskItems(c))
    {
      ComponentProperties(c);
    }
    CleanComponent(config.kernel, KernelItems);
    CleanComponent(config.fdt, FdtItems);
    CleanComponent(config.ramdisk, RamdiskItems);
    CleanItemsAppend(kernel + fdt, OptionalChild(config.ramdisk, RamdiskItems));
    CleanItemsAppend(kernel, fdt);
  }

  lemma {:induction false} CleanNodes(configurations: map<Text, FitConfiguration>, order: seq<Text>)
    requires forall i :: 0 <= i < |order| ==> order[i] in configurations
    ensures CleanItems(ConfigurationNodes(configurations, order)) == forall i :: 0 <= i < |order| ==> 0 !in order[i]
  {
    hide References, CleanItems, PropertiesOnly;
    if order == [] {
      PropertiesClean([]) by { NoItems(); }
    } else {
      var front, name := order[..|order| - 1], order[|order| - 1];
      var c := configurations[name];
      CleanNodes(configurations, front);
      ReferenceProperties(c.description, c.kernel, c.fdt, c.ramdisk);
      CleanChild(name, References(c.description, c.kernel, c.fdt, c.ramdisk));
      CleanItemsAppend(ConfigurationNodes(configurations, front), [ConfigurationNode(name, c)]);
      assert forall i :: 0 <= i < |front| ==> front[i] == order[i];
    }
  }

  lemma NoItems()
    ensures PropertiesOnly([])
  {}

  lemma CleanConfigurations(config: FitImageConfig, order: seq<Text>)
    requires IsOrderOf(order, config.configurations.Keys)
    ensures CleanItems(ConfigurationItems(config, order)) == forall n: Text :: n in config.configurations ==> 0 !in n
  {
    hide Ascii, References, CleanItems, ConfigurationNodes;
    if config.configurations == map[] {
      var inside := References(Ascii("Default configuration"), Named(config.kernel), Named(config.fdt), Named(config.ramdisk));
      ReferenceProperties(Ascii("Default configuration"), Named(config.kernel), Named(config.fdt), Named(config.ramdisk));
      CleanChild(Ascii("config-1"), inside);
      PropertiesClean([TextItem(Ascii("default"), Ascii("config-1"))]);
      CleanItemsAppend([Child(Node(Ascii("config-1"), inside))], [TextItem(Ascii("default"), Ascii("config-1"))]);
    } else {
      var default := OptionalText(Ascii("default"), config.defaultConfig);
      PropertiesClean(default);
      CleanItemsAppend(default, ConfigurationNodes(config.configurations, order));
      CleanNodes(config.configurations, order);
    }
  }

  lemma DescribedClean(config: FitImageConfig, seconds: nat, order: seq<Text>)
    requires IsOrderOf(order, config.configurations.Keys)
    ensures CleanTree(Described(config, seconds, order)) == NamesClean(config)
  {
    hide Ascii, CleanItems, ImageItems, ConfigurationItems, IsOrderOf, CleanName, Be32;
    CleanImages(config);
    CleanConfigurations(config, order);
    var properties := [ Property(Ascii("timestamp"), Be32(seconds)), TextItem(Ascii("description"), config.description),
                        Property(Ascii("#address-cells"), Be32(2)), Property(Ascii("#size-cells"), Be32(1)) ];
    var images := Node(Ascii("images"), ImageItems(config));
    var configurations := Node(Ascii("configurations"), ConfigurationItems(config, order));
    PropertiesClean(properties);
    assert RootItems(config, seconds, order) == properties + ([Child(images)] + [Child(configurations)]);
    CleanItemsAppend(properties, [Child(images)] + [Child(configurations)]);
    CleanItemsAppend([Child(images)], [Child(configurations)]);
    CleanSingle(images);
    CleanSingle(configurations);
  }

  lemma CleanSingle(n: Node)
    ensures CleanItems([Child(n)]) == CleanTree(n)
  {
    hide CleanTree;
    assert [Child(n)][1..] == [];
    assert CleanItem(Child(n)) == CleanTree(n);
  }

  /** A header of version 17, readable by readers of version 16; and header, reservations, structure and strings
      follow one another and end where the image ends. */
  predicate Fills(b: seq<byte>) {
    && |b| >= 40
    && HeaderWord(b, 0) == 0xd00dfeed && HeaderWord(b, 1) == |b|
    && HeaderWord(b, 5) == 17 && HeaderWord(b, 6) == 16 && HeaderWord(b, 7) == 0
    && HeaderWord(b, 4) == 56 && HeaderWord(b, 2) == 56 + 16
    && HeaderWord(b, 2) + HeaderWord(b, 9) == HeaderWord(b, 3)
    && HeaderWord(b, 3) + HeaderWord(b, 8) == |b|
  }

  lemma HeaderOf(structure: seq<byte>, strings: seq<byte>)
    requires 72 + |structure| + |strings| < WORD
    ensures Fills(Image([(0, 0)], structure, strings))
  {
    hide HeaderFields, HeaderWord, Image;
    FieldsOf(|structure|, |strings|);
    FieldAt(structure, strings, 0);
    FieldAt(structure, strings, 1);
    FieldAt(structure, strings, 2);
    FieldAt(structure, strings, 3);
    FieldAt(structure, strings, 4);
    FieldAt(structure, strings, 5);
    FieldAt(structure, strings, 6);
    FieldAt(structure, strings, 7);
    FieldAt(structure, strings, 8);
    FieldAt(structure, strings, 9);
  }

  lemma ImageFills(structure: seq<byte>, strings: seq<byte>)
    requires |structure| % 4 == 0
    ensures var b := Image([(0, 0)], structure, strings);
            if |b| < WORD then Fills(b) else ParseBlob(b) == None
  {
    hide Image, Fills, ParseBlob;
    ImageLength(structure, strings);
    if |Image([(0, 0)], structure, strings)| < WORD {
      HeaderOf(structure, strings);
    } else {
      TooLong([(0, 0)], structure, strings);
    }
  }

  /** How the tokens look in the bytes of the structure block. */
  lemma TokenBytes(t: RawToken)
    ensures |EncodeOne(t)| >= 4
    ensures var code := Number(EncodeOne(t)[..4]);
            match t
            case RawBegin(name) => code == 1 && EncodeOne(t)[4..4 + |name| + 1] == name + [0]
            case RawEndNode => code == 2 && |EncodeOne(t)| == 4
            case RawProp(_, _) => code == 3
            case RawNop => code == 4 && |EncodeOne(t)| == 4
            case RawEnd => code == 9 && |EncodeOne(t)| == 4
    ensures t.RawProp? ==>
              && |EncodeOne(t)| >= 12 + |t.value|
              && Number(EncodeOne(t)[4..8]) == |t.value| % 0x1_0000_0000
              && Number(EncodeOne(t)[8..12]) == t.nameOffset % 0x1_0000_0000
              && EncodeOne(t)[12..12 + |t.value|] == t.value
  {
    hide Be32, Number;
    forall n: nat { NumberOfBe32(n); }
    var (e, code) := (EncodeOne(t), match t case RawBegin(_) => BEGIN_NODE case RawEndNode => END_NODE
                                            case RawProp(_, _) => PROP case RawNop => NOP case RawEnd => END);
    assert e[..4] == Be32(code);
    if t.RawBegin? {
      assert e[4..] == Padded(t.name + [0]);
    } else if t.RawProp? {
      assert e[4..8] == Be32(|t.value|) && e[8..12] == Be32(t.nameOffset) && e[12..] == Padded(t.value);
    }
  }

  /** Building and finishing an image. A reader of the format gets the described tree back, whatever
      order the configurations come in, exactly when the image is shorter than 2^32 bytes and no
      node name holds a NUL; in it he finds everything that the configuration asks for. The device tree
      payload starts at a multiple of eight. */
  method BuildFit(config: FitImageConfig, seconds: nat) returns (result: seq<byte>, ghost order: seq<Text>, ghost at: nat)
    ensures IsOrderOf(order, config.configurations.Keys)
    ensures ParseBlob(result) == Some(Blob([], Described(config, seconds, order)))
            <==> |result| < WORD && NamesClean(config)
    ensures |result| < 0x1_0000_0000 && NamesClean(config) ==>
              ParseBlob(result).Some? && Reads(ParseBlob(result).value.tree, config, seconds)
    ensures |result| >= 0x1_0000_0000 ==> ParseBlob(result) == None
    ensures |result| < 0x1_0000_0000 ==> Fills(result)
    ensures config.fdt.Some? ==> PayloadAt(result, at, config.fdt.value.data) && at % 8 == 0
  {
    hide Described, IsOrderOf, Image, ParseBlob, Fills, NamesClean, CleanTree, Encode, EncodeOne, Resolve, Content, PayloadAt, Reads;
    var builder := new StandardFdtBuilder();
    order, at := builder.BuildFitTree(config, seconds);
    ghost var structure := builder.structBuffer;
    var strings := builder.stringTable.strings;
    assert builder.memReserve == [(0, 0)];
    result := builder.Finalize();
    var tree := Described(config, seconds, order);
    RootTokens(tree);
    ImageReadsBack(builder.raws, strings, tree);
    ImageFills(structure, strings);
    DescribedClean(config, seconds, order);
    DescribedRead(config, seconds, order);
    if config.fdt.Some? {
      PayloadInImage(structure, strings, at, config.fdt.value.data);
    }
    at := at + HEADER_SIZE + RESERVE_ENTRY_SIZE;
  }

  lemma RootTokens(tree: Node)
    ensures OpenTokens(Top([Child(tree)])) == NodeTokens(tree)
  {
    hide NodeTokens;
    assert [Child(tree)][1..] == [];
    assert ItemsTokens([]) == [] && ItemTokens(Child(tree)) == NodeTokens(tree);
  }

  lemma PayloadInImage(structure: seq<byte>, strings: seq<byte>, at: nat, data: seq<byte>)
    requires PayloadAt(structure, at, data)
    ensures PayloadAt(Image([(0, 0)], structure, strings), at + 72, data)
  {
    hide Words, Reservations;
    var b := Image([(0, 0)], structure, strings);
    assert b[72..] == structure + strings;
    assert b[at + 72..] == b[72..][at..];
    assert b[at + 72..][..|data|] == structure[at..][..|data|];
  }
}
