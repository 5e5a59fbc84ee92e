/** Writing a FIT image: the string table, the structure block and the header. */
module FitWriter {
  import opened Bytes
  import opened Options
  import opened FdtFormat
  import opened FitTree

  const HEADER_SIZE: nat := 56
  const RESERVE_ENTRY_SIZE: nat := 16
  const FDT_DATA_ALIGNMENT: nat := 8
  const PROPERTY_PREFIX_SIZE: nat := 12

  // ---------- The string table ----------

  /** A name and its NUL are at an offset. */
  predicate Points(strings: seq<byte>, offset: nat, name: Text) {
    offset + |name| < |strings| && strings[offset..offset + |name|] == name && strings[offset + |name|] == 0
  }

  lemma PointsGrows(strings: seq<byte>, longer: seq<byte>, offset: nat, name: Text)
    requires Points(strings, offset, name) && strings <= longer
    ensures Points(longer, offset, name)
  {
    assert strings == longer[..|strings|];
    assert longer[offset..offset + |name|] == strings[offset..offset + |name|];
  }

  lemma PointsName(strings: seq<byte>, offset: nat, name: Text)
    requires Points(strings, offset, name) && 0 !in name
    ensures NameAt(strings, offset) == Some(name)
  {
    hide UpTo;
    var rest := strings[offset + |name| + 1..];
    assert strings[offset..] == name + [0] + rest;
    UpToOf(name, 0, rest);
  }

  class StringTable {
    var strings: seq<byte>
    var offsets: map<Text, nat>

    /** Offsets are 32 bits wide; while the block fits in 32 bits each one finds its name. */
    ghost predicate Valid()
      reads this
    {
      && |strings| % 4 == 0
      && (forall n :: n in offsets ==> offsets[n] < WORD)
      && (|strings| < WORD ==> forall n :: n in offsets ==> Points(strings, offsets[n], n))
    }

    constructor ()
      ensures Valid() && strings == [] && offsets == map[]
    {
      strings, offsets := [], map[];
    }

    method AddString(s: Text) returns (offset: nat)
      requires Valid()
      modifies this
      ensures Valid() && old(strings) <= strings && offset < WORD
      ensures s in old(offsets) ==> strings == old(strings) && offsets == old(offsets)
      ensures offsets == old(offsets)[s := offset]
      ensures s in old(offsets) ==> offset == old(offsets)[s]
      ensures |strings| < WORD ==> Points(strings, offset, s)
    {
      hide Points;
      if s in offsets {
        return offsets[s];
      }
      offset := |strings| % WORD;
      ghost var before := strings;
      strings := strings + s + [0];
      strings := strings + Zeros((4 - |strings| % 4) % 4);
      offsets := offsets[s := offset];
      if |strings| < WORD {
        Appended(before, s, strings);
        forall n | n in old(offsets) ensures Points(strings, old(offsets)[n], n) {
          PointsGrows(before, strings, old(offsets)[n], n);
        }
      }
    }
  }

  lemma Appended(before: seq<byte>, s: Text, after: seq<byte>)
    requires before + s + [0] <= after
    ensures Points(after, |before|, s)
  {
    var all := before + s + [0];
    assert all == after[..|all|];
    assert after[|before|..|before| + |s|] == all[|before|..|before| + |s|] == s;
  }

  // ---------- Writing ----------

  /** Zero bytes up to the next multiple of four. */
  method PadToAlignment(buffer: seq<byte>) returns (r: seq<byte>)
    ensures r == buffer + Zeros(Gap(|buffer|))
  {
    var aligned := (|buffer| + 3) / 4 * 4;
    r := buffer + Zeros(aligned - |buffer|);
  }

  lemma GapAfterAligned(m: nat, n: nat)
    requires m % 4 == 0
    ensures Gap(m + n) == Gap(n)
  {}

  method WriteString(buffer: seq<byte>, s: Text) returns (r: seq<byte>)
    requires |buffer| % 4 == 0
    ensures r == buffer + Padded(s + [0])
  {
    r := PadToAlignment(buffer + s + [0]);
    GapAfterAligned(|buffer|, |s| + 1);
  }

  method WritePropData(buffer: seq<byte>, data: seq<byte>) returns (r: seq<byte>)
    requires |buffer| % 4 == 0
    ensures r == buffer + Padded(data)
  {
    r := PadToAlignment(buffer + data);
    GapAfterAligned(|buffer|, |data|);
  }

  // ---------- The tree so far ----------

  /** Nodes begun and not ended, each with its items so far. */
  datatype Open = Top(items: seq<Item>) | Inside(parent: Open, name: Text, items: seq<Item>)

  function OpenTokens(o: Open): seq<Token> {
    match o
    case Top(items) => ItemsTokens(items)
    case Inside(parent, name, items) => OpenTokens(parent) + [BeginNode(name)] + ItemsTokens(items)
  }

  function With(o: Open, more: seq<Item>): (r: Open)
    ensures r.items == o.items + more
    ensures r.Inside? == o.Inside?
  {
    o.(items := o.items + more)
  }

  lemma WithTwice(o: Open, a: seq<Item>, b: seq<Item>)
    ensures With(With(o, a), b) == With(o, a + b)
  {
    assert o.items + a + b == o.items + (a + b);
  }

  lemma WithNone(o: Open)
    ensures With(o, []) == o
  {
    assert o.items + [] == o.items;
  }

  lemma OpenSnoc(o: Open, item: Item)
    ensures OpenTokens(With(o, [item])) == OpenTokens(o) + ItemTokens(item)
  {
    hide ItemTokens;
    ItemsTokensAppend(o.items, [item]);
    assert ItemsTokens([item]) == ItemTokens(item) by {
      assert [item][1..] == [];
      assert ItemsTokens([]) == [];
    }
    match o
    case Top(items) =>
    case Inside(parent, name, items) =>
      assert OpenTokens(parent) + [BeginNode(name)] + (ItemsTokens(items) + ItemTokens(item))
          == OpenTokens(o) + ItemTokens(item);
  }

  lemma OpenBegin(o: Open, name: Text)
    ensures OpenTokens(Inside(o, name, [])) == OpenTokens(o) + [BeginNode(name)]
  {
    assert ItemsTokens([]) == [];
  }

  lemma OpenEnd(o: Open)
    requires o.Inside?
    ensures OpenTokens(With(o.parent, [Child(Node(o.name, o.items))])) == OpenTokens(o) + [EndNode]
  {
    var node := Node(o.name, o.items);
    OpenSnoc(o.parent, Child(node));
    assert ItemTokens(Child(node)) == NodeTokens(node) == [BeginNode(o.name)] + ItemsTokens(o.items) + [EndNode];
    assert OpenTokens(o.parent) + ([BeginNode(o.name)] + ItemsTokens(o.items) + [EndNode])
        == OpenTokens(o.parent) + [BeginNode(o.name)] + ItemsTokens(o.items) + [EndNode];
  }

  // ---------- The builder ----------

  /** Tokens before the end token, with offsets as wide as the format has them. */
  predicate Content(ts: seq<RawToken>) {
    forall i :: 0 <= i < |ts| ==> !ts[i].RawEnd? && (ts[i].RawProp? ==> ts[i].nameOffset < WORD)
  }

  class StandardFdtBuilder {
    const stringTable: StringTable
    const header: FdtHeader
    var structBuffer: seq<byte>
    var memReserve: seq<(nat, nat)>
    /** The tokens written, and what they describe. */
    ghost var raws: seq<RawToken>
    ghost var open: Open

    ghost predicate Valid()
      reads this, stringTable
    {
      && stringTable.Valid()
      && structBuffer == Encode(raws)
      && Content(raws)
      && (|stringTable.strings| < WORD ==> Resolve(raws, stringTable.strings) == Some(OpenTokens(open)))
    }

    constructor ()
      ensures Valid() && fresh(stringTable) && fresh(header) && structBuffer == [] && memReserve == []
      ensures open == Top([]) && header.IsNew()
    {
      stringTable := new StringTable();
      header := new FdtHeader();
      structBuffer, memReserve, raws, open := [], [], [], Top([]);
      new;
      assert OpenTokens(open) == [];
    }

    method BeginNode(name: Text)
      requires Valid()
      modifies this`structBuffer, this`raws, this`open
      ensures Valid() && open == Inside(old(open), name, [])
      ensures old(structBuffer) <= structBuffer
    {
      hide Encode, OpenTokens, Padded, Be32, Resolve;
      Written(raws, RawBegin(name), stringTable.strings);
      OpenBegin(open, name);
      structBuffer := structBuffer + Be32(BEGIN_NODE);
      structBuffer := WriteString(structBuffer, name);
      raws, open := raws + [RawBegin(name)], Inside(open, name, []);
      assert structBuffer == old(structBuffer) + (Be32(BEGIN_NODE) + Padded(name + [0]));
    }

    method EndNode()
      requires Valid() && open.Inside?
      modifies this`structBuffer, this`raws, this`open
      ensures Valid() && open == With(old(open).parent, [Child(Node(old(open).name, old(open).items))])
      ensures old(structBuffer) <= structBuffer
    {
      hide Encode, OpenTokens, Be32, Resolve;
      Written(raws, RawEndNode, stringTable.strings);
      OpenEnd(open);
      structBuffer := structBuffer + Be32(END_NODE);
      raws, open := raws + [RawEndNode], With(open.parent, [Child(Node(open.name, open.items))]);
    }

    /** The common start of all property writers: the name gets its offset. */
    method NameOffset(name: Text) returns (nameOffset: nat)
      requires Valid()
      modifies stringTable
      ensures Valid() && nameOffset < WORD && old(stringTable.strings) <= stringTable.strings
      ensures |stringTable.strings| < WORD ==> Points(stringTable.strings, nameOffset, name)
    {
      hide Encode, OpenTokens, Resolve, Points;
      nameOffset := stringTable.AddString(name);
      ghost var before, after := old(stringTable.strings), stringTable.strings;
      if |after| < WORD {
        ResolveGrows(raws, before, after[|before|..]);
        assert before + after[|before|..] == after;
      }
    }

    method AddPropertyString(name: Text, value: Text)
      requires Valid() && 0 !in name
      modifies this`structBuffer, this`raws, this`open, stringTable
      ensures Valid() && open == With(old(open), [TextItem(name, value)])
      ensures old(structBuffer) <= structBuffer
    {
      hide Encode, OpenTokens, Padded, Be32, Resolve, Points, EncodeOne;
      var nameOffset := NameOffset(name);
      PropertyWritten(raws, open, stringTable.strings, name, nameOffset, value + [0]);
      structBuffer := structBuffer + Be32(PROP);
      structBuffer := structBuffer + (Be32(|value| + 1) + Be32(nameOffset));
      structBuffer := WriteString(structBuffer, value);
      raws, open := raws + [RawProp(nameOffset, value + [0])], With(open, [Property(name, value + [0])]);
      Joined(old(structBuffer), Be32(PROP), Be32(|value| + 1), Be32(nameOffset), Padded(value + [0]));
    }

    method AddPropertyU32(name: Text, value: nat)
      requires Valid() && 0 !in name
      modifies this`structBuffer, this`raws, this`open, stringTable
      ensures Valid() && open == With(old(open), [Property(name, Be32(value))])
      ensures old(structBuffer) <= structBuffer
    {
      hide Encode, OpenTokens, Padded, Be32, Resolve, Points, EncodeOne;
      var nameOffset := NameOffset(name);
      PropertyWritten(raws, open, stringTable.strings, name, nameOffset, Be32(value));
      structBuffer := structBuffer + Be32(PROP);
      structBuffer := structBuffer + (Be32(4) + Be32(nameOffset));
      structBuffer := structBuffer + Be32(value);
      raws, open := raws + [RawProp(nameOffset, Be32(value))], With(open, [Property(name, Be32(value))]);
      AlignedNeedsNoPadding(Be32(value));
      Joined(old(structBuffer), Be32(PROP), Be32(4), Be32(nameOffset), Be32(value));
    }

    method AddPropertyU64(name: Text, value: nat)
      requires Valid() && 0 !in name
      modifies this`structBuffer, this`raws, this`open, stringTable
      ensures Valid() && open == With(old(open), [Property(name, Be64(value))])
      ensures old(structBuffer) <= structBuffer
    {
      hide Encode, OpenTokens, Padded, Be32, Be64, Resolve, Points, EncodeOne;
      var nameOffset := NameOffset(name);
      PropertyWritten(raws, open, stringTable.strings, name, nameOffset, Be64(value));
      structBuffer := structBuffer + Be32(PROP);
      structBuffer := structBuffer + (Be32(8) + Be32(nameOffset));
      structBuffer := structBuffer + Be64(value);
      raws, open := raws + [RawProp(nameOffset, Be64(value))], With(open, [Property(name, Be64(value))]);
      AlignedNeedsNoPadding(Be64(value));
      Joined(old(structBuffer), Be32(PROP), Be32(8), Be32(nameOffset), Be64(value));
    }

    method AddPropertyData(name: Text, data: seq<byte>)
      requires Valid() && 0 !in name
      modifies this`structBuffer, this`raws, this`open, stringTable
      ensures Valid() && open == With(old(open), [Property(name, data)])
      ensures old(structBuffer) <= structBuffer
      ensures |old(structBuffer)| + PROPERTY_PREFIX_SIZE + |data| <= |structBuffer|
      ensures structBuffer[|old(structBuffer)| + PROPERTY_PREFIX_SIZE..][..|data|] == data
    {
      hide Encode, OpenTokens, Padded, Be32, Resolve, Points, EncodeOne;
      var nameOffset := NameOffset(name);
      PropertyWritten(raws, open, stringTable.strings, name, nameOffset, data);
      structBuffer := structBuffer + Be32(PROP);
      structBuffer := structBuffer + (Be32(|data|) + Be32(nameOffset));
      structBuffer := WritePropData(structBuffer, data);
      raws, open := raws + [RawProp(nameOffset, data)], With(open, [Property(name, data)]);
      Joined(old(structBuffer), Be32(PROP), Be32(|data|), Be32(nameOffset), Padded(data));
    }

    /** An FDT payload is preceded by a no-operation token if it would not be aligned to 8 bytes. */
    method AlignFdtData()
      requires Valid()
      modifies this`structBuffer, this`raws
      ensures Valid() && old(structBuffer) <= structBuffer
      ensures raws == old(raws) || raws == old(raws) + [RawNop]
      ensures (HEADER_SIZE + |memReserve| * RESERVE_ENTRY_SIZE + |structBuffer| + PROPERTY_PREFIX_SIZE) % FDT_DATA_ALIGNMENT == 0
    {
      hide Encode, OpenTokens, Be32, Resolve;
      var dataOffset := HEADER_SIZE + |memReserve| * RESERVE_ENTRY_SIZE + |structBuffer| + PROPERTY_PREFIX_SIZE;
      AlignedToFour(|memReserve|, |structBuffer|);
      if dataOffset % FDT_DATA_ALIGNMENT != 0 {
        Written(raws, RawNop, stringTable.strings);
        structBuffer := structBuffer + Be32(NOP);
        raws := raws + [RawNop];
        if |stringTable.strings| < WORD {
          assert OpenTokens(open) + [] == OpenTokens(open);
        }
      }
    }

    method AddFdtPropertyData(name: Text, data: seq<byte>) returns (ghost at: nat)
      requires Valid() && 0 !in name
      modifies this`structBuffer, this`raws, this`open, stringTable
      ensures Valid() && open == With(old(open), [Property(name, data)])
      ensures old(structBuffer) <= structBuffer
      ensures PayloadAt(structBuffer, at, data) && PayloadAligned(|memReserve|, at)
    {
      hide StandardFdtBuilder.Valid;
      AlignFdtData();
      at := |structBuffer| + PROPERTY_PREFIX_SIZE;
      AddPropertyData(name, data);
    }

    method AddOptionalU64(name: Text, value: Option<Address>)
      requires Valid() && 0 !in name
      modifies this`structBuffer, this`raws, this`open, stringTable
      ensures Valid() && open == With(old(open), OptionalAddress(name, value))
      ensures old(structBuffer) <= structBuffer
    {
      hide StandardFdtBuilder.Valid;
      if value.Some? {
        AddPropertyU64(name, value.value);
      } else {
        WithNone(open);
      }
    }

    method AddOptionalString(name: Text, value: Option<Text>)
      requires Valid() && 0 !in name
      modifies this`structBuffer, this`raws, this`open, stringTable
      ensures Valid() && open == With(old(open), OptionalText(name, value))
      ensures old(structBuffer) <= structBuffer
    {
      hide StandardFdtBuilder.Valid;
      if value.Some? {
        AddPropertyString(name, value.value);
      } else {
        WithNone(open);
      }
    }

    method AddCompression(c: ComponentConfig)
      requires Valid()
      modifies this`structBuffer, this`raws, this`open, stringTable
      ensures Valid() && open == With(old(open), [Compression(c)])
      ensures old(structBuffer) <= structBuffer
    {
      hide StandardFdtBuilder.Valid, Ascii;
      if c.compression {
        AddPropertyString(Ascii("compression"), Ascii("gzip"));
      } else {
        AddPropertyString(Ascii("compression"), Ascii("none"));
      }
    }

    method AddKernelImage(name: Text, c: ComponentConfig)
      requires Valid()
      modifies this`structBuffer, this`raws, this`open, stringTable
      ensures Valid() && open == With(old(open), [Child(Node(name, KernelItems(c)))])
      ensures old(structBuffer) <= structBuffer
    {
      hide StandardFdtBuilder.Valid, Ascii, OrElse, OptionalAddress, Compression, TextItem;
      BeginNode(name);
      AddPropertyString(Ascii("description"), OrElse(c.description, Ascii("Linux Kernel")));
      AddPropertyString(Ascii("type"), OrElse(c.componentType, Ascii("kernel")));
      AddPropertyString(Ascii("arch"), OrElse(c.arch, Ascii("arm64")));
      AddPropertyString(Ascii("os"), OrElse(c.os, Ascii("linux")));
      AddCompression(c);
      AddOptionalU64(Ascii("load"), c.loadAddress);
      AddOptionalU64(Ascii("entry"), c.entryPoint);
      AddPropertyData(Ascii("data"), c.data);
      assert open.items == KernelItems(c);
      EndNode();
    }

    method AddFdtImage(name: Text, c: ComponentConfig) returns (ghost at: nat)
      requires Valid()
      modifies this`structBuffer, this`raws, this`open, stringTable
      ensures Valid() && open == With(old(open), [Child(Node(name, FdtItems(c)))])
      ensures old(structBuffer) <= structBuffer
      ensures PayloadAt(structBuffer, at, c.data) && PayloadAligned(|memReserve|, at)
    {
      hide StandardFdtBuilder.Valid, Ascii, OrElse, OptionalAddress, Compression, TextItem, PayloadAt, PayloadAligned;
      BeginNode(name);
      AddPropertyString(Ascii("description"), OrElse(c.description, Ascii("Device Tree Blob")));
      AddPropertyString(Ascii("type"), OrElse(c.componentType, Ascii("flat_dt")));
      AddPropertyString(Ascii("arch"), OrElse(c.arch, Ascii("arm64")));
      AddCompression(c);
      AddOptionalU64(Ascii("load"), c.loadAddress);
      at := AddFdtPropertyData(Ascii("data"), c.data);
      assert open.items == FdtItems(c);
      ghost var written := structBuffer;
      EndNode();
      PayloadStays(written, structBuffer, at, c.data);
    }

    method AddRamdiskImage(name: Text, c: ComponentConfig)
      requires Valid()
      modifies this`structBuffer, this`raws, this`open, stringTable
      ensures Valid() && open == With(old(open), [Child(Node(name, RamdiskItems(c)))])
      ensures old(structBuffer) <= structBuffer
    {
      hide StandardFdtBuilder.Valid, Ascii, OrElse, OptionalAddress, Compression, TextItem;
      BeginNode(name);
      AddPropertyString(Ascii("description"), Ascii("Ramdisk Image"));
      AddPropertyString(Ascii("type"), Ascii("ramdisk"));
      AddPropertyString(Ascii("arch"), OrElse(c.arch, Ascii("arm64")));
      AddPropertyString(Ascii("os"), OrElse(c.os, Ascii("linux")));
      AddCompression(c);
      AddOptionalU64(Ascii("load"), c.loadAddress);
      AddPropertyData(Ascii("data"), c.data);
      assert open.items == RamdiskItems(c);
      EndNode();
    }

    method AddImages(config: FitImageConfig) returns (ghost at: nat)
      requires Valid()
      modifies this`structBuffer, this`raws, this`open, stringTable
      ensures Valid() && open == With(old(open), ImageItems(config))
      ensures old(structBuffer) <= structBuffer
      ensures config.fdt.Some? ==> PayloadAt(structBuffer, at, config.fdt.value.data) && PayloadAligned(|memReserve|, at)
    {
      hide StandardFdtBuilder.Valid, KernelItems, FdtItems, RamdiskItems, PayloadAt, PayloadAligned;
      ghost var kernel, fdt := OptionalChild(config.kernel, KernelItems), OptionalChild(config.fdt, FdtItems);
      AddKernelIfAny(config.kernel);
      at := AddFdtIfAny(config.fdt);
      WithTwice(old(open), kernel, fdt);
      ghost var written := structBuffer;
      AddRamdiskIfAny(config.ramdisk);
      WithTwice(old(open), kernel + fdt, OptionalChild(config.ramdisk, RamdiskItems));
      if config.fdt.Some? {
        PayloadStays(written, structBuffer, at, config.fdt.value.data);
      }
    }

    method AddKernelIfAny(kernel: Option<ComponentConfig>)
      requires Valid()
      modifies this`structBuffer, this`raws, this`open, stringTable
      ensures Valid() && open == With(old(open), OptionalChild(kernel, KernelItems))
      ensures old(structBuffer) <= structBuffer
    {
      hide StandardFdtBuilder.Valid, KernelItems;
      if kernel.Some? {
        AddKernelImage(kernel.value.name, kernel.value);
      } else {
        WithNone(open);
      }
    }

    method AddFdtIfAny(fdt: Option<ComponentConfig>) returns (ghost at: nat)
      requires Valid()
      modifies this`structBuffer, this`raws, this`open, stringTable
      ensures Valid() && open == With(old(open), OptionalChild(fdt, FdtItems))
      ensures old(structBuffer) <= structBuffer
      ensures fdt.Some? ==> PayloadAt(structBuffer, at, fdt.value.data) && PayloadAligned(|memReserve|, at)
    {
      hide StandardFdtBuilder.Valid, FdtItems, PayloadAt, PayloadAligned;
      at := 0;
      if fdt.Some? {
        at := AddFdtImage(fdt.value.name, fdt.value);
      } else {
        WithNone(open);
      }
    }

    method AddRamdiskIfAny(ramdisk: Option<ComponentConfig>)
      requires Valid()
      modifies this`structBuffer, this`raws, this`open, stringTable
      ensures Valid() && open == With(old(open), OptionalChild(ramdisk, RamdiskItems))
      ensures old(structBuffer) <= structBuffer
    {
      hide StandardFdtBuilder.Valid, RamdiskItems;
      if ramdisk.Some? {
        AddRamdiskImage(ramdisk.value.name, ramdisk.value);
      } else {
        WithNone(open);
      }
    }

    method AddReferences(description: Text, kernel: Option<Text>, fdt: Option<Text>, ramdisk: Option<Text>)
      requires Valid()
      modifies this`structBuffer, this`raws, this`open, stringTable
      ensures Valid() && open == With(old(open), References(description, kernel, fdt, ramdisk))
      ensures old(structBuffer) <= structBuffer
    {
      hide StandardFdtBuilder.Valid, Ascii, OptionalText, TextItem;
      AddPropertyString(Ascii("description"), description);
      AddOptionalString(Ascii("kernel"), kernel);
      AddOptionalString(Ascii("fdt"), fdt);
      AddOptionalString(Ascii("ramdisk"), ramdisk);
      assert open.items == old(open).items + References(description, kernel, fdt, ramdisk);
    }

    method AddDefaultConfiguration(config: FitImageConfig)
      requires Valid()
      modifies this`structBuffer, this`raws, this`open, stringTable
      ensures Valid() && open == With(old(open), DefaultItems(config))
      ensures old(structBuffer) <= structBuffer
    {
      hide StandardFdtBuilder.Valid, Ascii, References, TextItem, Named;
      BeginNode(Ascii("config-1"));
      AddReferences(Ascii("Default configuration"), Named(config.kernel), Named(config.fdt), Named(config.ramdisk));
      ghost var inside := References(Ascii("Default configuration"), Named(config.kernel), Named(config.fdt), Named(config.ramdisk));
      assert [] + inside == inside;
      EndNode();
      AddPropertyString(Ascii("default"), Ascii("config-1"));
      WithTwice(old(open), [Child(Node(Ascii("config-1"), inside))], [TextItem(Ascii("default"), Ascii("config-1"))]);
    }

    method AddConfiguration(name: Text, c: FitConfiguration)
      requires Valid()
      modifies this`structBuffer, this`raws, this`open, stringTable
      ensures Valid()
      ensures open == With(old(open), [ConfigurationNode(name, c)])
      ensures old(structBuffer) <= structBuffer
    {
      hide StandardFdtBuilder.Valid, References;
      BeginNode(name);
      AddReferences(c.description, c.kernel, c.fdt, c.ramdisk);
      assert [] + References(c.description, c.kernel, c.fdt, c.ramdisk) == References(c.description, c.kernel, c.fdt, c.ramdisk);
      EndNode();
    }

    /** The map hands out its entries in an order of its own. */
    method AddConfigurationNodes(configurations: map<Text, FitConfiguration>) returns (ghost order: seq<Text>)
      requires Valid()
      modifies this`structBuffer, this`raws, this`open, stringTable
      ensures Valid() && IsOrderOf(order, configurations.Keys)
      ensures open == With(old(open), ConfigurationNodes(configurations, order))
      ensures old(structBuffer) <= structBuffer
    {
      hide StandardFdtBuilder.Valid, References;
      order := [];
      var todo := configurations.Keys;
      WithNone(open);
      while todo != {}
        invariant Valid() && todo <= configurations.Keys && IsOrderOf(order, configurations.Keys - todo)
        invariant open == With(old(open), ConfigurationNodes(configurations, order))
        invariant old(structBuffer) <= structBuffer
      {
        var name :| name in todo;
        AddConfiguration(name, configurations[name]);
        NextInOrder(configurations, old(open), order, name);
        todo, order := todo - {name}, order + [name];
      }
    }

    method AddConfigurations(config: FitImageConfig) returns (ghost order: seq<Text>)
      requires Valid()
      modifies this`structBuffer, this`raws, this`open, stringTable
      ensures Valid() && IsOrderOf(order, config.configurations.Keys)
      ensures open == With(old(open), ConfigurationItems(config, order))
      ensures old(structBuffer) <= structBuffer
    {
      hide StandardFdtBuilder.Valid, Ascii, DefaultItems, ConfigurationNodes, OptionalText;
      if config.configurations == map[] {
        order := [];
        AddDefaultConfiguration(config);
      } else {
        AddOptionalString(Ascii("default"), config.defaultConfig);
        order := AddConfigurationNodes(config.configurations);
        WithTwice(old(open), OptionalText(Ascii("default"), config.defaultConfig),
                  ConfigurationNodes(config.configurations, order));
      }
    }

    method BuildStructureBlock(config: FitImageConfig, seconds: nat) returns (ghost order: seq<Text>, ghost at: nat)
      requires Valid() && open == Top([])
      modifies this`structBuffer, this`raws, this`open, stringTable
      ensures Complete() && IsOrderOf(order, config.configurations.Keys)
      ensures open == Top([Child(Described(config, seconds, order))])
      ensures config.fdt.Some? ==> PayloadAt(structBuffer, at, config.fdt.value.data) && PayloadAligned(|memReserve|, at)
    {
      hide StandardFdtBuilder.Valid, Ascii, Be32, TextItem, ImageItems, ConfigurationItems, PayloadAt, PayloadAligned, IsOrderOf;
      BeginNode([]);
      AddPropertyU32(Ascii("timestamp"), seconds);
      AddPropertyString(Ascii("description"), config.description);
      AddPropertyU32(Ascii("#address-cells"), 2);
      AddPropertyU32(Ascii("#size-cells"), 1);
      BeginNode(Ascii("images"));
      at := AddImages(config);
      ghost var written := structBuffer;
      assert [] + ImageItems(config) == ImageItems(config);
      EndNode();
      BeginNode(Ascii("configurations"));
      order := AddConfigurations(config);
      assert [] + ConfigurationItems(config, order) == ConfigurationItems(config, order);
      EndNode();
      assert open.items == RootItems(config, seconds, order);
      EndNode();
      WriteEnd();
      if config.fdt.Some? {
        PayloadStays(written, structBuffer, at, config.fdt.value.data);
      }
    }

    method WriteEnd()
      requires Valid()
      modifies this`structBuffer
      ensures Complete() && old(structBuffer) <= structBuffer
    {
      structBuffer := structBuffer + Be32(END);
    }

    /** The structure block ends with the end token; the rest is as before. */
    ghost predicate Complete()
      reads this, stringTable
    {
      && stringTable.Valid()
      && structBuffer == Encode(raws) + EncodeOne(RawEnd)
      && Content(raws)
      && (|stringTable.strings| < WORD ==> Resolve(raws, stringTable.strings) == Some(OpenTokens(open)))
    }

    method BuildFitTree(config: FitImageConfig, seconds: nat) returns (ghost order: seq<Text>, ghost at: nat)
      requires Valid() && open == Top([])
      modifies this, stringTable
      ensures Complete() && IsOrderOf(order, config.configurations.Keys)
      ensures open == Top([Child(Described(config, seconds, order))])
      ensures memReserve == old(memReserve) + [(0, 0)]
      ensures config.fdt.Some? ==> PayloadAt(structBuffer, at, config.fdt.value.data) && PayloadAligned(|memReserve|, at)
    {
      hide PayloadAt, PayloadAligned, IsOrderOf, Described;
      memReserve := memReserve + [(0, 0)];
      order, at := BuildStructureBlock(config, seconds);
    }

    method Finalize() returns (result: seq<byte>)
      requires header.IsNew()
      modifies header
      ensures result == Image(memReserve, structBuffer, stringTable.strings)
    {
      hide Words, Be32;
      var memRsvmapSize := |memReserve| * RESERVE_ENTRY_SIZE % WORD;
      var structSize, stringsSize := |structBuffer| % WORD, |stringTable.strings| % WORD;
      var offDtStruct := (HEADER_SIZE + memRsvmapSize) % WORD;
      var offDtStrings := (offDtStruct + structSize) % WORD;
      var totalSize := (offDtStrings + stringsSize) % WORD;
      header.Finalize(totalSize, offDtStruct, offDtStrings, HEADER_SIZE, stringsSize, structSize);
      result := header.WriteToBuffer([]);
      ghost var start := result;
      for i := 0 to |memReserve|
        invariant result == start + Reservations(memReserve[..i])
      {
        assert memReserve[..i + 1][..i] == memReserve[..i];
        result := result + Be64(memReserve[i].0) + Be64(memReserve[i].1);
      }
      assert memReserve[..|memReserve|] == memReserve;
      result := result + structBuffer;
      result := result + stringTable.strings;
    }
  }

  /** One more token: its bytes, and what it means. */
  lemma Written(raws: seq<RawToken>, t: RawToken, strings: seq<byte>)
    ensures Encode(raws + [t]) == Encode(raws) + EncodeOne(t)
    ensures Resolve(raws, strings).Some? && ResolveOne(t, strings).Some? ==>
              Resolve(raws + [t], strings) == Some(Resolve(raws, strings).value + ResolveOne(t, strings).value)
  {
    hide EncodeOne, ResolveOne;
    EncodeAppend(raws, [t]);
    EncodeSingle(t);
    ResolveSnoc(raws, t, strings);
  }

  predicate PayloadAt(buffer: seq<byte>, at: nat, data: seq<byte>) {
    at + |data| <= |buffer| && buffer[at..][..|data|] == data
  }

  lemma PayloadStays(before: seq<byte>, after: seq<byte>, at: nat, data: seq<byte>)
    requires PayloadAt(before, at, data) && before <= after
    ensures PayloadAt(after, at, data)
  {
    assert before == after[..|before|];
    assert after[at..][..|data|] == before[at..][..|data|];
  }

  lemma NextInOrder(configurations: map<Text, FitConfiguration>, o: Open, order: seq<Text>, name: Text)
    requires name in configurations
    ensures With(With(o, ConfigurationNodes(configurations, order)), [ConfigurationNode(name, configurations[name])])
            == With(o, ConfigurationNodes(configurations, order + [name]))
  {
    hide ConfigurationNode;
    assert (order + [name])[..|order|] == order;
    WithTwice(o, ConfigurationNodes(configurations, order), [ConfigurationNode(name, configurations[name])]);
  }

  /** The place of a payload in the finished image, which starts with header and reservations. */
  predicate PayloadAligned(reservations: nat, at: nat) {
    (HEADER_SIZE + reservations * RESERVE_ENTRY_SIZE + at) % FDT_DATA_ALIGNMENT == 0
  }

  lemma AlignedToFour(reservations: nat, length: nat)
    requires length % 4 == 0
    ensures var offset := HEADER_SIZE + reservations * RESERVE_ENTRY_SIZE + length + PROPERTY_PREFIX_SIZE;
            offset % FDT_DATA_ALIGNMENT == 0 || (offset + 4) % FDT_DATA_ALIGNMENT == 0
  {
    var m := 17 + 4 * reservations + length / 4;
    assert HEADER_SIZE + reservations * RESERVE_ENTRY_SIZE + length + PROPERTY_PREFIX_SIZE == 4 * m;
    assert m % 2 == 0 ==> 4 * m == 8 * (m / 2);
    assert m % 2 == 1 ==> 4 * m + 4 == 8 * (m / 2 + 1);
  }

  lemma AlignedNeedsNoPadding(s: seq<byte>)
    requires |s| % 4 == 0
    ensures Padded(s) == s
  {
    assert Zeros(0) == [];
    assert s + [] == s;
  }

  lemma Joined(a: seq<byte>, b: seq<byte>, c: seq<byte>, d: seq<byte>, e: seq<byte>)
    ensures a + b + (c + d) + e == a + (b + c + d + e)
  {}

  /** One more property: its bytes, and what it means. */
  lemma PropertyWritten(raws: seq<RawToken>, o: Open, strings: seq<byte>, name: Text, nameOffset: nat, value: seq<byte>)
    requires |strings| < WORD ==> Resolve(raws, strings) == Some(OpenTokens(o)) && Points(strings, nameOffset, name)
    requires 0 !in name
    ensures var t := RawProp(nameOffset, value);
            && Encode(raws + [t]) == Encode(raws) + (Be32(PROP) + Be32(|value|) + Be32(nameOffset) + Padded(value))
            && (|strings| < WORD ==>
                  Resolve(raws + [t], strings) == Some(OpenTokens(With(o, [Property(name, value)]))))
  {
    hide Points, OpenTokens, Padded, Be32, Resolve, Encode;
    var t := RawProp(nameOffset, value);
    Written(raws, t, strings);
    if |strings| < WORD {
      PointsName(strings, nameOffset, name);
      OpenSnoc(o, Property(name, value));
    }
  }

  // ---------- The header ----------

  /** Words one after the other. */
  function Words(ws: seq<nat>): (r: seq<byte>)
    ensures |r| == 4 * |ws|
  {
    if ws == [] then [] else Be32(ws[0]) + Words(ws[1..])
  }

  function Reservations(entries: seq<(nat, nat)>): (r: seq<byte>)
    ensures |r| == RESERVE_ENTRY_SIZE * |entries|
  {
    if entries == [] then []
    else
      var e := entries[|entries| - 1];
      Reservations(entries[..|entries| - 1]) + Be64(e.0) + Be64(e.1)
  }

  /** The header fields in order, each as wide as the format has it. */
  function HeaderFields(reservations: nat, structSize: nat, stringsSize: nat): (r: seq<nat>)
    ensures |r| == 14
  {
    var offDtStruct := (HEADER_SIZE + RESERVE_ENTRY_SIZE * reservations % WORD) % WORD;
    var offDtStrings := (offDtStruct + structSize % WORD) % WORD;
    [ FDT_MAGIC, (offDtStrings + stringsSize % WORD) % WORD, offDtStruct, offDtStrings, HEADER_SIZE,
      FDT_VERSION, FDT_LAST_COMP_VERSION, 0, stringsSize % WORD, structSize % WORD, 0, 0, 0, 0 ]
  }

  /** The four parts of an image, one after the other. */
  function Image(entries: seq<(nat, nat)>, structure: seq<byte>, strings: seq<byte>): seq<byte> {
    Words(HeaderFields(|entries|, |structure|, |strings|)) + Reservations(entries) + structure + strings
  }

  class FdtHeader {
    var magic: nat
    var totalsize: nat
    var offDtStruct: nat
    var offDtStrings: nat
    var offMemRsvmap: nat
    var version: nat
    var lastCompVersion: nat
    var bootCpuidPhys: nat
    var sizeDtStrings: nat
    var sizeDtStruct: nat

    ghost predicate IsNew()
      reads this
    {
      magic == FDT_MAGIC && version == FDT_VERSION && lastCompVersion == FDT_LAST_COMP_VERSION && bootCpuidPhys == 0
    }

    constructor ()
      ensures IsNew()
    {
      magic, version, lastCompVersion, bootCpuidPhys := FDT_MAGIC, FDT_VERSION, FDT_LAST_COMP_VERSION, 0;
      totalsize, offDtStruct, offDtStrings, offMemRsvmap, sizeDtStrings, sizeDtStruct := HEADER_SIZE, 0, 0, 0, 0, 0;
    }

    method Finalize(totalsize: nat, offDtStruct: nat, offDtStrings: nat, offMemRsvmap: nat,
        sizeDtStrings: nat, sizeDtStruct: nat)
      modifies this
      ensures this.totalsize == totalsize && this.offDtStruct == offDtStruct && this.offDtStrings == offDtStrings
      ensures this.offMemRsvmap == offMemRsvmap && this.sizeDtStrings == sizeDtStrings
      ensures this.sizeDtStruct == sizeDtStruct && (old(IsNew()) ==> IsNew())
    {
      this.totalsize, this.offDtStruct, this.offDtStrings := totalsize, offDtStruct, offDtStrings;
      this.offMemRsvmap, this.sizeDtStrings, this.sizeDtStruct := offMemRsvmap, sizeDtStrings, sizeDtStruct;
    }

    method WriteToBuffer(buffer: seq<byte>) returns (r: seq<byte>)
      ensures r == buffer + Words([magic, totalsize, offDtStruct, offDtStrings, offMemRsvmap, version,
                                   lastCompVersion, bootCpuidPhys, sizeDtStrings, sizeDtStruct, 0, 0, 0, 0])
    {
      r := buffer;
      var words := [magic, totalsize, offDtStruct, offDtStrings, offMemRsvmap, version,
                    lastCompVersion, bootCpuidPhys, sizeDtStrings, sizeDtStruct, 0, 0, 0, 0];
      for i := 0 to |words|
        invariant r == buffer + Words(words[..i])
      {
        WordsSnoc(words, i);
        r := r + Be32(words[i]);
      }
      assert words[..|words|] == words;
    }
  }

  lemma {:induction false} WordsSnoc(ws: seq<nat>, i: nat)
    requires i < |ws|
    ensures Words(ws[..i + 1]) == Words(ws[..i]) + Be32(ws[i])
  {
    hide Be32;
    if i > 0 {
      WordsSnoc(ws[1..], i - 1);
      assert ws[..i + 1][1..] == ws[1..][..i] && ws[..i][1..] == ws[1..][..i - 1];
    } else {
      assert ws[..1][1..] == [] && Words([]) == [];
    }
  }
}
