/** What a reader finds in the tree of a FIT image, property by property. */
module FitContents {
  import opened Bytes
  import opened Options
  import opened FdtFormat
  import opened FitTree

  // ---------- Looking things up ----------

  /** The values of all properties of this name, in order. */
  function Values(items: seq<Item>, name: Text): seq<seq<byte>> {
    if items == [] then []
    else (if items[0].Property? && items[0].name == name then [items[0].value] else []) + Values(items[1..], name)
  }

  /** All children, in order. */
  function Nodes(items: seq<Item>): seq<Node> {
    if items == [] then []
    else if items[0].Child? then [items[0].node] + Nodes(items[1..])
    else Nodes(items[1..])
  }

  /** The first child of this name. */
  function Find(nodes: seq<Node>, name: Text): Option<Node> {
    if nodes == [] then None
    else if nodes[0].name == name then Some(nodes[0])
    else Find(nodes[1..], name)
  }

  /** The node that a path of names leads to. */
  function NodeAt(tree: Node, path: seq<Text>): Option<Node>
    decreases |path|
  {
    if path == [] then Some(tree)
    else
      match Find(Nodes(tree.items), path[0])
      case None => None
      case Some(node) => NodeAt(node, path[1..])
  }

  /** A big-endian number. */
  function Number(s: seq<byte>): nat {
    if s == [] then 0 else 256 * Number(s[..|s| - 1]) + s[|s| - 1] as nat
  }

  // ---------- What is to be found ----------

  predicate HasText(n: Node, name: string, t: Text) { Values(n.items, Ascii(name)) == [t + [0]] }

  predicate HasTextOr(n: Node, name: string, t: Option<Text>, other: string) {
    HasText(n, name, if t.Some? then t.value else Ascii(other))
  }

  predicate HasOptionalText(n: Node, name: string, t: Option<Text>) {
    if t.Some? then HasText(n, name, t.value) else Values(n.items, Ascii(name)) == []
  }

  predicate HasNumber(n: Node, name: string, length: nat, number: nat) {
    var values := Values(n.items, Ascii(name));
    |values| == 1 && |values[0]| == length && Number(values[0]) == number
  }

  predicate HasOptionalAddress(n: Node, name: string, a: Option<Address>) {
    if a.Some? then HasNumber(n, name, 8, a.value) else Values(n.items, Ascii(name)) == []
  }

  predicate HasData(n: Node, data: seq<byte>) { Values(n.items, Ascii("data")) == [data] }

  /** A node has no children, and properties of these names only. */
  predicate NothingBut(n: Node, names: set<Text>) {
    forall i :: 0 <= i < |n.items| ==> n.items[i].Property? && n.items[i].name in names
  }

  predicate ReadsKernel(n: Node, c: ComponentConfig) {
    && n.name == c.name
    && HasTextOr(n, "description", c.description, "Linux Kernel")
    && HasTextOr(n, "type", c.componentType, "kernel")
    && HasTextOr(n, "arch", c.arch, "arm64")
    && HasTextOr(n, "os", c.os, "linux")
    && HasText(n, "compression", Ascii(if c.compression then "gzip" else "none"))
    && HasOptionalAddress(n, "load", c.loadAddress)
    && HasOptionalAddress(n, "entry", c.entryPoint)
    && HasData(n, c.data)
    && NothingBut(n, {Ascii("description"), Ascii("type"), Ascii("arch"), Ascii("os"),
                      Ascii("compression"), Ascii("load"), Ascii("entry"), Ascii("data")})
  }

  /** A device tree has no operating system and no entry point. */
  predicate ReadsFdt(n: Node, c: ComponentConfig) {
    && n.name == c.name
    && HasTextOr(n, "description", c.description, "Device Tree Blob")
    && HasTextOr(n, "type", c.componentType, "flat_dt")
    && HasTextOr(n, "arch", c.arch, "arm64")
    && HasText(n, "compression", Ascii(if c.compression then "gzip" else "none"))
    && HasOptionalAddress(n, "load", c.loadAddress)
    && HasData(n, c.data)
    && NothingBut(n, {Ascii("description"), Ascii("type"), Ascii("arch"),
                      Ascii("compression"), Ascii("load"), Ascii("data")})
  }

  /** Of a ramdisk the configured description, type and entry point are not used. */
  predicate ReadsRamdisk(n: Node, c: ComponentConfig) {
    && n.name == c.name
    && HasText(n, "description", Ascii("Ramdisk Image"))
    && HasText(n, "type", Ascii("ramdisk"))
    && HasTextOr(n, "arch", c.arch, "arm64")
    && HasTextOr(n, "os", c.os, "linux")
    && HasText(n, "compression", Ascii(if c.compression then "gzip" else "none"))
    && HasOptionalAddress(n, "load", c.loadAddress)
    && HasData(n, c.data)
    && NothingBut(n, {Ascii("description"), Ascii("type"), Ascii("arch"), Ascii("os"),
                      Ascii("compression"), Ascii("load"), Ascii("data")})
  }

  /** The kernel comes first, then the device tree, then the ramdisk, each if there is one. */
  predicate ReadsImages(nodes: seq<Node>, config: FitImageConfig) {
    var k := if config.kernel.Some? then 1 else 0;
    var f := if config.fdt.Some? then k + 1 else k;
    && |nodes| == (if config.ramdisk.Some? then f + 1 else f)
    && (config.kernel.Some? ==> ReadsKernel(nodes[0], config.kernel.value))
    && (config.fdt.Some? ==> ReadsFdt(nodes[k], config.fdt.value))
    && (config.ramdisk.Some? ==> ReadsRamdisk(nodes[f], config.ramdisk.value))
  }

  predicate ReadsReferences(n: Node, description: Text, kernel: Option<Text>, fdt: Option<Text>, ramdisk: Option<Text>) {
    && HasText(n, "description", description)
    && HasOptionalText(n, "kernel", kernel)
    && HasOptionalText(n, "fdt", fdt)
    && HasOptionalText(n, "ramdisk", ramdisk)
    && NothingBut(n, {Ascii("description"), Ascii("kernel"), Ascii("fdt"), Ascii("ramdisk")})
  }

  function NameOf(component: Option<ComponentConfig>): Option<Text> {
    if component.Some? then Some(component.value.name) else None
  }

  /** One node for each configuration, with its references; without any, one that refers to all components
      and is the default. */
  predicate ReadsConfigurations(n: Node, config: FitImageConfig) {
    var nodes := Nodes(n.items);
    if config.configurations == map[] then
      && |nodes| == 1 && nodes[0].name == Ascii("config-1")
      && ReadsReferences(nodes[0], Ascii("Default configuration"), NameOf(config.kernel), NameOf(config.fdt),
                         NameOf(config.ramdisk))
      && HasText(n, "default", Ascii("config-1"))
    else
      && |nodes| == |config.configurations|
      && (forall name :: name in config.configurations ==>
            Find(nodes, name).Some? && ReadsConfiguration(Find(nodes, name).value, config.configurations[name]))
      && HasOptionalText(n, "default", config.defaultConfig)
  }

  predicate ReadsConfiguration(n: Node, c: FitConfiguration) {
    ReadsReferences(n, c.description, c.kernel, c.fdt, c.ramdisk)
  }

  /** Everything that a configuration asks for is found where a boot loader looks for it. */
  predicate Reads(tree: Node, config: FitImageConfig, seconds: nat) {
    && HasNumber(tree, "timestamp", 4, seconds % 0x1_0000_0000)
    && HasText(tree, "description", config.description)
    && HasNumber(tree, "#address-cells", 4, 2)
    && HasNumber(tree, "#size-cells", 4, 1)
    && var nodes := Nodes(tree.items);
       && |nodes| == 2 && nodes[0].name == Ascii("images") && nodes[1].name == Ascii("configurations")
       && ReadsImages(Nodes(nodes[0].items), config)
       && ReadsConfigurations(nodes[1], config)
  }

  // ---------- Names ----------

  /** A text of ASCII characters is spelled as it is. */
  lemma {:induction false} AsciiSpells(s: string, i: nat)
    requires i < |s| && 0 < s[i] as int < 128
    ensures Ascii(s)[i] as int == s[i] as int
  {
    if i > 0 {
      AsciiSpells(s[1..], i - 1);
    }
  }

  lemma FirstLetter(s: string)
    requires s != "" && 0 < s[0] as int < 128
    ensures Ascii(s)[0] as int == s[0] as int
  {}

  /** Property names of the same length differ in their first letter. */
  lemma NamesDiffer()
    ensures Ascii("description") != Ascii("compression") && Ascii("description") != Ascii("#size-cells")
    ensures Ascii("ramdisk") != Ascii("default")
    ensures Ascii("type") != Ascii("arch") && Ascii("type") != Ascii("load") && Ascii("type") != Ascii("data")
    ensures Ascii("arch") != Ascii("load") && Ascii("arch") != Ascii("data") && Ascii("load") != Ascii("data")
  {
    hide Ascii;
    FirstLetter("description");
    FirstLetter("compression");
    FirstLetter("#size-cells");
    FirstLetter("ramdisk");
    FirstLetter("default");
    FirstLetter("type");
    FirstLetter("arch");
    FirstLetter("load");
    FirstLetter("data");
  }

  // ---------- Numbers ----------

  lemma {:induction false} NumberAppend(s: seq<byte>, t: seq<byte>)
    ensures Number(s + t) == Number(s) * Power(|t|) + Number(t)
  {
    if t == [] {
      assert s + t == s;
    } else {
      var front := t[..|t| - 1];
      assert (s + t)[..|s + t| - 1] == s + front;
      NumberAppend(s, front);
      assert 256 * (Number(s) * Power(|front|)) == Number(s) * Power(|t|);
    }
  }

  function Power(n: nat): nat { if n == 0 then 1 else 256 * Power(n - 1) }

  lemma NumberOfBe32(n: nat)
    ensures Number(Be32(n)) == n % 0x1_0000_0000
  {
    var s := Be32(n);
    WordOfBe32(n);
    assert s[..3][..2] == s[..2] && s[..2][..1] == s[..1] && s[..1][..0] == [];
    assert Number(s[..1]) == s[0] as nat;
    assert Number(s[..2]) == 256 * s[0] as nat + s[1] as nat;
    assert Number(s[..3]) == 65536 * s[0] as nat + 256 * s[1] as nat + s[2] as nat;
  }

  lemma NumberOfBe64(a: Address)
    ensures Number(Be64(a)) == a
  {
    hide Number;
    NumberAppend(Be32(a / WORD), Be32(a));
    NumberOfBe32(a / WORD);
    NumberOfBe32(a);
    assert Power(4) == WORD by { assert Power(2) == 65536; }
  }

  // ---------- Finding ----------

  predicate Is(item: Item, name: Text) { item.Property? && item.name == name }

  lemma {:induction false} FoundOnce(items: seq<Item>, k: nat, name: Text)
    requires k < |items| && Is(items[k], name) && forall i :: 0 <= i < |items| && i != k ==> !Is(items[i], name)
    ensures Values(items, name) == [items[k].value]
  {
    if k == 0 {
      NotFound(items[1..], name);
    } else {
      assert !Is(items[0], name);
      FoundOnce(items[1..], k - 1, name);
    }
  }

  lemma {:induction false} NotFound(items: seq<Item>, name: Text)
    requires forall i :: 0 <= i < |items| ==> !Is(items[i], name)
    ensures Values(items, name) == []
  {
    if items != [] {
      assert !Is(items[0], name);
      NotFound(items[1..], name);
    }
  }

  lemma {:induction false} NodesAppend(items: seq<Item>, more: seq<Item>)
    ensures Nodes(items + more) == Nodes(items) + Nodes(more)
  {
    if items == [] {
      assert items + more == more;
    } else {
      assert (items + more)[1..] == items[1..] + more;
      NodesAppend(items[1..], more);
      assert (items + more)[0] == items[0];
    }
  }

  lemma KernelRead(c: ComponentConfig)
    ensures ReadsKernel(Node(c.name, KernelItems(c)), c)
  {
    hide Ascii, Values, Number, Be64, HasOptionalAddress, OptionalAddress;
    NamesDiffer();
    var n := Node(c.name, KernelItems(c));
    KernelPlaces(c);
    FoundOnce(n.items, 0, Ascii("description"));
    FoundOnce(n.items, 1, Ascii("type"));
    FoundOnce(n.items, 2, Ascii("arch"));
    FoundOnce(n.items, 3, Ascii("os"));
    FoundOnce(n.items, 4, Ascii("compression"));
    FoundOnce(n.items, |n.items| - 1, Ascii("data"));
  }

  lemma KernelPlaces(c: ComponentConfig)
    ensures var n := Node(c.name, KernelItems(c));
            && HasOptionalAddress(n, "load", c.loadAddress) && HasOptionalAddress(n, "entry", c.entryPoint)
            && (forall i :: 5 <= i < |n.items| - 1 ==> n.items[i].Property? && n.items[i].name in {Ascii("load"), Ascii("entry")})
  {
    hide Ascii, Values, Number, Be64, HasOptionalAddress, OrElse;
    NamesDiffer();
    var n := Node(c.name, KernelItems(c));
    AddressFound(n, "load", 5, c.loadAddress);
    AddressFound(n, "entry", if c.loadAddress.Some? then 6 else 5, c.entryPoint);
  }

  lemma AddressFound(n: Node, name: string, k: nat, a: Option<Address>)
    requires a.Some? ==> k < |n.items| && n.items[k] == Property(Ascii(name), Be64(a.value))
    requires forall i :: 0 <= i < |n.items| && (a.None? || i != k) ==> !Is(n.items[i], Ascii(name))
    ensures HasOptionalAddress(n, name, a)
  {
    hide Ascii, Values, Number;
    if a.Some? {
      FoundOnce(n.items, k, Ascii(name));
      NumberOfBe64(a.value);
    } else {
      NotFound(n.items, Ascii(name));
    }
  }

  lemma FdtRead(c: ComponentConfig)
    ensures ReadsFdt(Node(c.name, FdtItems(c)), c)
  {
    hide Ascii, Values, Number, Be64;
    NamesDiffer();
    var n := Node(c.name, FdtItems(c));
    FoundOnce(n.items, 0, Ascii("description"));
    FoundOnce(n.items, 1, Ascii("type"));
    FoundOnce(n.items, 2, Ascii("arch"));
    FoundOnce(n.items, 3, Ascii("compression"));
    AddressFound(n, "load", 4, c.loadAddress);
    FoundOnce(n.items, |n.items| - 1, Ascii("data"));
  }

  lemma RamdiskRead(c: ComponentConfig)
    ensures ReadsRamdisk(Node(c.name, RamdiskItems(c)), c)
  {
    hide Ascii, Values, Number, Be64;
    NamesDiffer();
    var n := Node(c.name, RamdiskItems(c));
    FoundOnce(n.items, 0, Ascii("description"));
    FoundOnce(n.items, 1, Ascii("type"));
    FoundOnce(n.items, 2, Ascii("arch"));
    FoundOnce(n.items, 3, Ascii("os"));
    FoundOnce(n.items, 4, Ascii("compression"));
    AddressFound(n, "load", 5, c.loadAddress);
    FoundOnce(n.items, |n.items| - 1, Ascii("data"));
  }

  lemma NodeOf(n: Node)
    ensures Nodes([Child(n)]) == [n]
  {
    assert [Child(n)][1..] == [];
  }

  lemma ImagesRead(config: FitImageConfig)
    ensures ReadsImages(Nodes(ImageItems(config)), config)
  {
    hide KernelItems, FdtItems, RamdiskItems, ReadsKernel, ReadsFdt, ReadsRamdisk;
    var kernel, fdt, ramdisk := OptionalChild(config.kernel, KernelItems), OptionalChild(config.fdt, FdtItems),
                                OptionalChild(config.ramdisk, RamdiskItems);
    NodesAppend(kernel + fdt, ramdisk);
    NodesAppend(kernel, fdt);
    if config.kernel.Some? {
      KernelRead(config.kernel.value);
      NodeOf(Node(config.kernel.value.name, KernelItems(config.kernel.value)));
    }
    if config.fdt.Some? {
      FdtRead(config.fdt.value);
      NodeOf(Node(config.fdt.value.name, FdtItems(config.fdt.value)));
    }
    if config.ramdisk.Some? {
      RamdiskRead(config.ramdisk.value);
      NodeOf(Node(config.ramdisk.value.name, RamdiskItems(config.ramdisk.value)));
    }
  }

  lemma TextFound(n: Node, name: string, k: nat, t: Option<Text>)
    requires t.Some? ==> k < |n.items| && n.items[k] == TextItem(Ascii(name), t.value)
    requires forall i :: 0 <= i < |n.items| && (t.None? || i != k) ==> !Is(n.items[i], Ascii(name))
    ensures HasOptionalText(n, name, t)
  {
    hide Ascii, Values;
    if t.Some? {
      FoundOnce(n.items, k, Ascii(name));
    } else {
      NotFound(n.items, Ascii(name));
    }
  }

  lemma ReferencesRead(name: Text, description: Text, kernel: Option<Text>, fdt: Option<Text>, ramdisk: Option<Text>)
    ensures ReadsReferences(Node(name, References(description, kernel, fdt, ramdisk)), description, kernel, fdt, ramdisk)
  {
    hide Ascii, Values;
    NamesDiffer();
    var n := Node(name, References(description, kernel, fdt, ramdisk));
    var f := if kernel.Some? then 2 else 1;
    var r := if fdt.Some? then f + 1 else f;
    FoundOnce(n.items, 0, Ascii("description"));
    TextFound(n, "kernel", 1, kernel);
    TextFound(n, "fdt", f, fdt);
    TextFound(n, "ramdisk", r, ramdisk);
  }

  // ---------- Configurations ----------

  lemma ConfigurationRead(name: Text, c: FitConfiguration)
    ensures ConfigurationNode(name, c).Child? && ConfigurationNode(name, c).node.name == name
    ensures ReadsConfiguration(ConfigurationNode(name, c).node, c)
  {
    hide References, ReadsReferences;
    ReferencesRead(name, c.description, c.kernel, c.fdt, c.ramdisk);
  }

  lemma {:induction false} EachConfiguration(configurations: map<Text, FitConfiguration>, order: seq<Text>)
    requires forall i :: 0 <= i < |order| ==> order[i] in configurations
    ensures var items := ConfigurationNodes(configurations, order); var nodes := Nodes(items);
            && (forall i :: 0 <= i < |items| ==> items[i].Child?) && |nodes| == |order|
            && forall i :: 0 <= i < |order| ==>
                 nodes[i].name == order[i] && ReadsConfiguration(nodes[i], configurations[order[i]])
  {
    hide ConfigurationNode, ReadsConfiguration;
    if order != [] {
      var front, name := order[..|order| - 1], order[|order| - 1];
      EachConfiguration(configurations, front);
      var last := ConfigurationNode(name, configurations[name]);
      ConfigurationRead(name, configurations[name]);
      NodeOf(last.node);
      NodesAppend(ConfigurationNodes(configurations, front), [last]);
    }
  }

  lemma {:induction false} FindAt(nodes: seq<Node>, k: nat)
    requires k < |nodes| && forall i :: 0 <= i < k ==> nodes[i].name != nodes[k].name
    ensures Find(nodes, nodes[k].name) == Some(nodes[k])
  {
    if k > 0 {
      FindAt(nodes[1..], k - 1);
    }
  }

  lemma {:induction false} OrderLength(order: seq<Text>, keys: set<Text>)
    requires IsOrderOf(order, keys)
    ensures |order| == |keys|
  {
    if order == [] {
      assert keys == {};
    } else {
      var front, last := order[..|order| - 1], order[|order| - 1];
      assert order == front + [last];
      OrderLength(front, keys - {last});
    }
  }

  lemma ConfigurationsRead(name: Text, config: FitImageConfig, order: seq<Text>)
    requires IsOrderOf(order, config.configurations.Keys)
    ensures ReadsConfigurations(Node(name, ConfigurationItems(config, order)), config)
  {
    hide Ascii, Values, Nodes, References, ReadsReferences, ReadsConfiguration, ConfigurationNodes, Find;
    var n := Node(name, ConfigurationItems(config, order));
    if config.configurations == map[] {
      DefaultRead(n, config);
    } else {
      var default, children := OptionalText(Ascii("default"), config.defaultConfig),
                               ConfigurationNodes(config.configurations, order);
      EachConfiguration(config.configurations, order);
      OrderLength(order, config.configurations.Keys);
      NodesAppend(default, children);
      NoNodes(default);
      TextFound(n, "default", 0, config.defaultConfig);
      forall key | key in config.configurations
        ensures Find(Nodes(n.items), key).Some?
                && ReadsConfiguration(Find(Nodes(n.items), key).value, config.configurations[key])
      {
        var k :| 0 <= k < |order| && order[k] == key;
        FindAt(Nodes(n.items), k);
      }
    }
  }

  lemma {:induction false} NoNodes(items: seq<Item>)
    requires forall i :: 0 <= i < |items| ==> items[i].Property?
    ensures Nodes(items) == []
  {
    if items != [] {
      NoNodes(items[1..]);
    }
  }

  lemma DefaultRead(n: Node, config: FitImageConfig)
    requires config.configurations == map[] && n.items == DefaultItems(config)
    ensures ReadsConfigurations(n, config)
  {
    hide Ascii, Values, Nodes, References, ReadsReferences;
    var references := References(Ascii("Default configuration"), Named(config.kernel), Named(config.fdt), Named(config.ramdisk));
    var only := Node(Ascii("config-1"), references);
    ReferencesRead(only.name, Ascii("Default configuration"), Named(config.kernel), Named(config.fdt), Named(config.ramdisk));
    NodeOf(only);
    NodesAppend([Child(only)], [n.items[1]]);
    NoNodes([n.items[1]]);
    FoundOnce(n.items, 1, Ascii("default"));
  }

  // ---------- The whole tree ----------

  lemma DescribedRead(config: FitImageConfig, seconds: nat, order: seq<Text>)
    requires IsOrderOf(order, config.configurations.Keys)
    ensures Reads(Described(config, seconds, order), config, seconds)
  {
    hide Ascii, Values, Nodes, Number, Be32, ImageItems, ConfigurationItems, ReadsImages, ReadsConfigurations;
    NamesDiffer();
    var items := RootItems(config, seconds, order);
    FoundOnce(items, 0, Ascii("timestamp"));
    FoundOnce(items, 1, Ascii("description"));
    FoundOnce(items, 2, Ascii("#address-cells"));
    FoundOnce(items, 3, Ascii("#size-cells"));
    NumberOfBe32(seconds);
    NumberOfBe32(2);
    NumberOfBe32(1);
    ImagesRead(config);
    ConfigurationsRead(Ascii("configurations"), config, order);
    RootNodes(items);
  }

  lemma RootNodes(items: seq<Item>)
    requires |items| == 6 && items[4].Child? && items[5].Child? && forall i :: 0 <= i < 4 ==> items[i].Property?
    ensures Nodes(items) == [items[4].node, items[5].node]
  {
    NodesAppend(items[..4], items[4..]);
    assert items == items[..4] + items[4..];
    NoNodes(items[..4]);
    NodeOf(items[4].node);
    NodeOf(items[5].node);
    NodesAppend([items[4]], [items[5]]);
    assert items[4..] == [items[4]] + [items[5]];
  }

  // ---------- What a boot loader finds by path ----------

  predicate Names(component: Option<ComponentConfig>, name: Text) { component.Some? && component.value.name == name }

  /** The first of kernel, device tree and ramdisk that has a name, and nothing if none has it. */
  predicate IsComponent(found: Option<Node>, config: FitImageConfig, name: Text) {
    if Names(config.kernel, name) then found.Some? && ReadsKernel(found.value, config.kernel.value)
    else if Names(config.fdt, name) then found.Some? && ReadsFdt(found.value, config.fdt.value)
    else if Names(config.ramdisk, name) then found.Some? && ReadsRamdisk(found.value, config.ramdisk.value)
    else found == None
  }

  lemma ChildrenAt(tree: Node, top: nat, name: Text)
    requires var nodes := Nodes(tree.items); top < |nodes| && forall i :: 0 <= i < top ==> nodes[i].name != nodes[top].name
    ensures var node := Nodes(tree.items)[top];
            NodeAt(tree, [node.name]) == Some(node) && NodeAt(tree, [node.name, name]) == Find(Nodes(node.items), name)
  {
    hide Nodes, Find;
    var nodes := Nodes(tree.items);
    FindAt(nodes, top);
    var (node, path) := (nodes[top], [nodes[top].name, name]);
    assert path[1..] == [name] && [node.name][1..] == [] && [name][1..] == [];
    assert NodeAt(node, [name]) == Find(Nodes(node.items), name);
    assert NodeAt(tree, path) == NodeAt(node, path[1..]);
  }

  /** A path below the images leads to the component of that name, and nowhere exactly if no component has
      it. */
  lemma ComponentsAreFound(tree: Node, config: FitImageConfig, seconds: nat, name: Text)
    requires Reads(tree, config, seconds)
    ensures IsComponent(NodeAt(tree, [Ascii("images"), name]), config, name)
  {
    hide Reads, IsComponent, ReadsImages, ReadsConfigurations, Nodes, Find, NodeAt, Ascii;
    ReadsParts(tree, config, seconds);
    ChildrenAt(tree, 0, name);
    FindAmong(Nodes(Nodes(tree.items)[0].items), config, name);
  }

  lemma ReadsParts(tree: Node, config: FitImageConfig, seconds: nat)
    requires Reads(tree, config, seconds)
    ensures var nodes := Nodes(tree.items);
            && |nodes| == 2 && nodes[0].name == Ascii("images") && nodes[1].name == Ascii("configurations")
            && ReadsImages(Nodes(nodes[0].items), config) && ReadsConfigurations(nodes[1], config)
  {
    hide Ascii, Values, Nodes, Number, ReadsImages, ReadsConfigurations;
  }

  lemma FindAmong(nodes: seq<Node>, config: FitImageConfig, name: Text)
    requires ReadsImages(nodes, config)
    ensures IsComponent(Find(nodes, name), config, name)
  {
    hide ReadsKernel, ReadsFdt, ReadsRamdisk, Find;
    ComponentNames(nodes, config);
    var k := if config.kernel.Some? then 1 else 0;
    if Names(config.kernel, name) {
      FindAt(nodes, 0);
    } else if Names(config.fdt, name) {
      FindAt(nodes, k);
    } else if Names(config.ramdisk, name) {
      FindAt(nodes, |nodes| - 1);
    } else {
      NoneAmong(nodes, name);
    }
  }

  lemma {:induction false} NoneAmong(nodes: seq<Node>, name: Text)
    requires forall i :: 0 <= i < |nodes| ==> nodes[i].name != name
    ensures Find(nodes, name) == None
  {
    if nodes != [] {
      NoneAmong(nodes[1..], name);
    }
  }

  lemma ComponentNames(nodes: seq<Node>, config: FitImageConfig)
    requires ReadsImages(nodes, config)
    ensures config.kernel.Some? ==> nodes[0].name == config.kernel.value.name
    ensures var k := if config.kernel.Some? then 1 else 0; config.fdt.Some? ==> nodes[k].name == config.fdt.value.name
    ensures config.ramdisk.Some? ==> nodes[|nodes| - 1].name == config.ramdisk.value.name
  {
    hide HasText, HasTextOr, HasOptionalAddress, HasData, NothingBut;
  }

  /** A configuration node names a component, and the name leads to an image. */
  predicate Refers(tree: Node, chosen: Node, name: string, component: Option<ComponentConfig>) {
    component.Some? ==> HasText(chosen, name, component.value.name)
                        && NodeAt(tree, [Ascii("images"), component.value.name]).Some?
  }

  /** Without configurations of its own, an image can be booted from: the default leads to a configuration,
      and each of its references to a component that bears the name. */
  lemma DefaultBoots(tree: Node, config: FitImageConfig, seconds: nat)
    requires Reads(tree, config, seconds) && config.configurations == map[]
    ensures var top := NodeAt(tree, [Ascii("configurations")]);
            && top.Some? && HasText(top.value, "default", Ascii("config-1"))
            && var chosen := NodeAt(tree, [Ascii("configurations"), Ascii("config-1")]);
               && chosen.Some? && Refers(tree, chosen.value, "kernel", config.kernel)
               && Refers(tree, chosen.value, "fdt", config.fdt) && Refers(tree, chosen.value, "ramdisk", config.ramdisk)
  {
    hide Reads, ReadsKernel, ReadsFdt, ReadsRamdisk, ReadsImages, Nodes, Find, NodeAt, Ascii, HasText, NothingBut;
    ReadsParts(tree, config, seconds);
    NamesDiffer();
    ChildrenAt(tree, 1, Ascii("config-1"));
    FindAt(Nodes(Nodes(tree.items)[1].items), 0);
    if config.kernel.Some? {
      ComponentsAreFound(tree, config, seconds, config.kernel.value.name);
    }
    if config.fdt.Some? {
      ComponentsAreFound(tree, config, seconds, config.fdt.value.name);
    }
    if config.ramdisk.Some? {
      ComponentsAreFound(tree, config, seconds, config.ramdisk.value.name);
    }
  }

  /** A path below the configurations leads exactly to those that were given, each with its own references. */
  lemma ConfigurationsAreFound(tree: Node, config: FitImageConfig, seconds: nat, name: Text)
    requires Reads(tree, config, seconds) && config.configurations != map[]
    ensures var found := NodeAt(tree, [Ascii("configurations"), name]);
            if name in config.configurations
            then found.Some? && ReadsConfiguration(found.value, config.configurations[name])
            else found == None
  {
    hide Reads, ReadsConfiguration, ReadsImages, Nodes, Find, NodeAt, Ascii, HasOptionalText;
    ReadsParts(tree, config, seconds);
    NamesDiffer();
    ChildrenAt(tree, 1, name);
    if name !in config.configurations {
      NoOthers(Nodes(Nodes(tree.items)[1].items), config.configurations.Keys, name);
    }
  }

  lemma {:induction false} FindMeans(nodes: seq<Node>, name: Text)
    ensures Find(nodes, name).Some? <==> exists i :: 0 <= i < |nodes| && nodes[i].name == name
  {
    if nodes != [] {
      FindMeans(nodes[1..], name);
      if i :| 0 <= i < |nodes| && nodes[i].name == name {
        assert i == 0 || nodes[1..][i - 1].name == name;
      }
    }
  }

  /** As many nodes as names, and each name found, leave no room for another. */
  lemma {:induction false} NoOthers(nodes: seq<Node>, names: set<Text>, name: Text)
    requires |nodes| == |names| && name !in names && forall n :: n in names ==> Find(nodes, n).Some?
    ensures Find(nodes, name) == None
  {
    hide Find;
    if Find(nodes, name).Some? {
      forall n | n in names + {name} ensures exists i :: 0 <= i < |nodes| && nodes[i].name == n {
        FindMeans(nodes, n);
      }
      TooMany(nodes, names + {name});
    }
  }

  lemma {:induction false} TooMany(nodes: seq<Node>, names: set<Text>)
    requires forall n :: n in names ==> exists i :: 0 <= i < |nodes| && nodes[i].name == n
    ensures |names| <= |nodes|
  {
    if nodes == [] {
      assert names == {};
    } else {
      var rest, last := nodes[..|nodes| - 1], nodes[|nodes| - 1].name;
      forall n | n in names - {last} ensures exists i :: 0 <= i < |rest| && rest[i].name == n {
        var i :| 0 <= i < |nodes| && nodes[i].name == n;
        assert rest[i].name == n;
      }
      TooMany(rest, names - {last});
    }
  }
}
