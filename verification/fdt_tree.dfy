/** What a FIT image configuration describes, as a devicetree. */
module FitTree {
  import opened Bytes
  import opened Options
  import opened FdtFormat

  type Address = n: int | 0 <= n < 0x1_0000_0000_0000_0000

  datatype ComponentConfig = ComponentConfig(
    name: Text,
    data: seq<byte>,
    description: Option<Text>,
    componentType: Option<Text>,
    arch: Option<Text>,
    os: Option<Text>,
    compression: bool,
    loadAddress: Option<Address>,
    entryPoint: Option<Address>)

  datatype FitConfiguration = FitConfiguration(
    description: Text, kernel: Option<Text>, fdt: Option<Text>, ramdisk: Option<Text>)

  datatype FitImageConfig = FitImageConfig(
    description: Text,
    kernel: Option<ComponentConfig>,
    fdt: Option<ComponentConfig>,
    ramdisk: Option<ComponentConfig>,
    defaultConfig: Option<Text>,
    configurations: map<Text, FitConfiguration>)

  /** The bytes of a literal; a character that is not ASCII, or NUL, would become a question mark. */
  function Ascii(s: string): (r: Text)
    ensures |r| == |s| && 0 !in r
  {
    if s == [] then [] else [if 0 < s[0] as int < 128 then s[0] as int as byte else 63] + Ascii(s[1..])
  }

  function Be64(n: nat): (r: seq<byte>)
    ensures |r| == 8
  {
    Be32(n / WORD) + Be32(n)
  }

  function OrElse(text: Option<Text>, other: Text): Text {
    match text case Some(t) => t case None => other
  }

  function TextItem(name: Text, value: Text): Item { Property(name, value + [0]) }

  function OptionalText(name: Text, value: Option<Text>): seq<Item> {
    match value case Some(t) => [TextItem(name, t)] case None => []
  }

  function OptionalAddress(name: Text, value: Option<Address>): seq<Item> {
    match value case Some(a) => [Property(name, Be64(a))] case None => []
  }

  function Compression(c: ComponentConfig): Item {
    TextItem(Ascii("compression"), if c.compression then Ascii("gzip") else Ascii("none"))
  }

  function KernelItems(c: ComponentConfig): seq<Item> {
    [ TextItem(Ascii("description"), OrElse(c.description, Ascii("Linux Kernel"))),
      TextItem(Ascii("type"), OrElse(c.componentType, Ascii("kernel"))),
      TextItem(Ascii("arch"), OrElse(c.arch, Ascii("arm64"))),
      TextItem(Ascii("os"), OrElse(c.os, Ascii("linux"))),
      Compression(c) ]
    + OptionalAddress(Ascii("load"), c.loadAddress)
    + OptionalAddress(Ascii("entry"), c.entryPoint)
    + [Property(Ascii("data"), c.data)]
  }

  function FdtItems(c: ComponentConfig): seq<Item> {
    [ TextItem(Ascii("description"), OrElse(c.description, Ascii("Device Tree Blob"))),
      TextItem(Ascii("type"), OrElse(c.componentType, Ascii("flat_dt"))),
      TextItem(Ascii("arch"), OrElse(c.arch, Ascii("arm64"))),
      Compression(c) ]
    + OptionalAddress(Ascii("load"), c.loadAddress)
    + [Property(Ascii("data"), c.data)]
  }

  function RamdiskItems(c: ComponentConfig): seq<Item> {
    [ TextItem(Ascii("description"), Ascii("Ramdisk Image")),
      TextItem(Ascii("type"), Ascii("ramdisk")),
      TextItem(Ascii("arch"), OrElse(c.arch, Ascii("arm64"))),
      TextItem(Ascii("os"), OrElse(c.os, Ascii("linux"))),
      Compression(c) ]
    + OptionalAddress(Ascii("load"), c.loadAddress)
    + [Property(Ascii("data"), c.data)]
  }

  function OptionalChild(component: Option<ComponentConfig>, items: ComponentConfig -> seq<Item>): seq<Item> {
    match component case Some(c) => [Child(Node(c.name, items(c)))] case None => []
  }

  function ImageItems(config: FitImageConfig): seq<Item> {
    OptionalChild(config.kernel, KernelItems)
    + OptionalChild(config.fdt, FdtItems)
    + OptionalChild(config.ramdisk, RamdiskItems)
  }

  function Named(component: Option<ComponentConfig>): Option<Text> {
    match component case Some(c) => Some(c.name) case None => None
  }

  function References(description: Text, kernel: Option<Text>, fdt: Option<Text>, ramdisk: Option<Text>): seq<Item> {
    [TextItem(Ascii("description"), description)]
    + OptionalText(Ascii("kernel"), kernel)
    + OptionalText(Ascii("fdt"), fdt)
    + OptionalText(Ascii("ramdisk"), ramdisk)
  }

  /** Without configurations there is a default one, and the reference to it comes after its node. */
  function DefaultItems(config: FitImageConfig): seq<Item> {
    [Child(Node(Ascii("config-1"),
                References(Ascii("Default configuration"),
                           Named(config.kernel), Named(config.fdt), Named(config.ramdisk))))]
    + [TextItem(Ascii("default"), Ascii("config-1"))]
  }

  function ConfigurationNode(name: Text, c: FitConfiguration): Item {
    Child(Node(name, References(c.description, c.kernel, c.fdt, c.ramdisk)))
  }

  /** One node for each name, in the given order. */
  function ConfigurationNodes(configurations: map<Text, FitConfiguration>, order: seq<Text>): seq<Item> {
    if order == [] then []
    else
      var (front, name) := (ConfigurationNodes(configurations, order[..|order| - 1]), order[|order| - 1]);
      if name in configurations then front + [ConfigurationNode(name, configurations[name])] else front
  }

  /** Every key once. */
  predicate IsOrderOf(order: seq<Text>, keys: set<Text>) {
    && (forall i :: 0 <= i < |order| ==> order[i] in keys)
    && (forall i, j :: 0 <= i < j < |order| ==> order[i] != order[j])
    && (forall k :: k in keys ==> k in order)
  }

  function ConfigurationItems(config: FitImageConfig, order: seq<Text>): seq<Item>
    requires IsOrderOf(order, config.configurations.Keys)
  {
    if config.configurations == map[] then DefaultItems(config)
    else OptionalText(Ascii("default"), config.defaultConfig) + ConfigurationNodes(config.configurations, order)
  }

  function RootItems(config: FitImageConfig, seconds: nat, order: seq<Text>): seq<Item>
    requires IsOrderOf(order, config.configurations.Keys)
  {
    [ Property(Ascii("timestamp"), Be32(seconds)),
      TextItem(Ascii("description"), config.description),
      Property(Ascii("#address-cells"), Be32(2)),
      Property(Ascii("#size-cells"), Be32(1)),
      Child(Node(Ascii("images"), ImageItems(config))),
      Child(Node(Ascii("configurations"), ConfigurationItems(config, order))) ]
  }

  function Described(config: FitImageConfig, seconds: nat, order: seq<Text>): Node
    requires IsOrderOf(order, config.configurations.Keys)
  {
    Node([], RootItems(config, seconds, order))
  }
}
