/**
 * The human-readable USB descriptor dump of the device picker: the device's own fields,
 * then one block per interface and, inside it, one block per endpoint. The text is kept
 * as the sequence of pieces the string builder received, so that its structure can be
 * stated: which lines exist, in which order, and how they are numbered.
 */
module DeviceUtils {
  import opened Wrappers
  import Numerals
  import Text

  /** A Kotlin `Int`. */
  type int32 = x: int | -0x8000_0000 <= x < 0x8000_0000

  // Interface class codes of android.hardware.usb.UsbConstants (the USB-IF class codes).
  const USB_CLASS_PER_INTERFACE: int32 := 0
  const USB_CLASS_AUDIO: int32 := 1
  const USB_CLASS_COMM: int32 := 2
  const USB_CLASS_HID: int32 := 3
  const USB_CLASS_PHYSICAL: int32 := 5
  const USB_CLASS_STILL_IMAGE: int32 := 6
  const USB_CLASS_PRINTER: int32 := 7
  const USB_CLASS_MASS_STORAGE: int32 := 8
  const USB_CLASS_HUB: int32 := 9
  const USB_CLASS_CDC_DATA: int32 := 10
  const USB_CLASS_CSCID: int32 := 11
  const USB_CLASS_CONTENT_SEC: int32 := 13
  const USB_CLASS_VIDEO: int32 := 14
  const USB_CLASS_WIRELESS_CONTROLLER: int32 := 224
  const USB_CLASS_MISC: int32 := 239
  const USB_CLASS_APP_SPEC: int32 := 254
  const USB_CLASS_VENDOR_SPEC: int32 := 255

  // Endpoint transfer types (bmAttributes bits 1..0, section 9.6.6 of the USB 2.0 specification).
  const USB_ENDPOINT_XFER_CONTROL: int32 := 0
  const USB_ENDPOINT_XFER_ISOC: int32 := 1
  const USB_ENDPOINT_XFER_BULK: int32 := 2
  const USB_ENDPOINT_XFER_INT: int32 := 3

  /** Direction bit of an endpoint address: device to host. */
  const USB_DIR_IN: int32 := 0x80

  // android.os.Build.VERSION_CODES
  const LOLLIPOP: int := 21
  const M: int := 23

  datatype UsbEndpoint = UsbEndpoint(
    address: int32, endpointNumber: int32, direction: int32, endpointType: int32,
    attributes: int32, maxPacketSize: int32, interval: int32)

  datatype UsbInterface = UsbInterface(
    id: int32, interfaceClass: int32, interfaceSubclass: int32, interfaceProtocol: int32,
    name: Option<string>, endpoints: seq<UsbEndpoint>)

  /** `productName`, `manufacturerName`, `serialNumber` and the interface name may be `null`. */
  datatype UsbDevice = UsbDevice(
    deviceName: string, productName: Option<string>, manufacturerName: Option<string>,
    serialNumber: Option<string>, deviceId: int32, vendorId: int32, productId: int32,
    deviceClass: int32, deviceSubclass: int32, deviceProtocol: int32, version: string,
    interfaces: seq<UsbInterface>)

  // ---- names ----

  const UNKNOWN: string := "Unknown("

  /** The reference table of interface class names. */
  const INTERFACE_CLASS_NAMES: map<int, string> := map[
    USB_CLASS_APP_SPEC := "Application Specific",
    USB_CLASS_AUDIO := "Audio",
    USB_CLASS_CDC_DATA := "CDC Data",
    USB_CLASS_COMM := "Communications",
    USB_CLASS_CONTENT_SEC := "Content Security",
    USB_CLASS_CSCID := "Content Smart Card",
    USB_CLASS_HID := "HID",
    USB_CLASS_HUB := "Hub",
    USB_CLASS_MASS_STORAGE := "Mass Storage",
    USB_CLASS_MISC := "Miscellaneous",
    USB_CLASS_PER_INTERFACE := "Per Interface",
    USB_CLASS_PHYSICAL := "Physical",
    USB_CLASS_PRINTER := "Printer",
    USB_CLASS_STILL_IMAGE := "Still Image",
    USB_CLASS_VENDOR_SPEC := "Vendor Specific",
    USB_CLASS_VIDEO := "Video",
    USB_CLASS_WIRELESS_CONTROLLER := "Wireless Controller"]

  /** The reference table of endpoint transfer type names. */
  const ENDPOINT_TYPE_NAMES: map<int, string> := map[
    USB_ENDPOINT_XFER_BULK := "Bulk",
    USB_ENDPOINT_XFER_CONTROL := "Control",
    USB_ENDPOINT_XFER_INT := "Interrupt",
    USB_ENDPOINT_XFER_ISOC := "Isochronous"]

  function UnknownName(code: int32): string {
    UNKNOWN + Numerals.DecimalInt(code) + ")"
  }

  function InterfaceClassName(cls: int32): string {
    if cls == USB_CLASS_APP_SPEC then "Application Specific"
    else if cls == USB_CLASS_AUDIO then "Audio"
    else if cls == USB_CLASS_CDC_DATA then "CDC Data"
    else if cls == USB_CLASS_COMM then "Communications"
    else if cls == USB_CLASS_CONTENT_SEC then "Content Security"
    else if cls == USB_CLASS_CSCID then "Content Smart Card"
    else if cls == USB_CLASS_HID then "HID"
    else if cls == USB_CLASS_HUB then "Hub"
    else if cls == USB_CLASS_MASS_STORAGE then "Mass Storage"
    else if cls == USB_CLASS_MISC then "Miscellaneous"
    else if cls == USB_CLASS_PER_INTERFACE then "Per Interface"
    else if cls == USB_CLASS_PHYSICAL then "Physical"
    else if cls == USB_CLASS_PRINTER then "Printer"
    else if cls == USB_CLASS_STILL_IMAGE then "Still Image"
    else if cls == USB_CLASS_VENDOR_SPEC then "Vendor Specific"
    else if cls == USB_CLASS_VIDEO then "Video"
    else if cls == USB_CLASS_WIRELESS_CONTROLLER then "Wireless Controller"
    else UnknownName(cls)
  }

  function EndpointTypeName(endpointType: int32): string {
    if endpointType == USB_ENDPOINT_XFER_BULK then "Bulk"
    else if endpointType == USB_ENDPOINT_XFER_CONTROL then "Control"
    else if endpointType == USB_ENDPOINT_XFER_INT then "Interrupt"
    else if endpointType == USB_ENDPOINT_XFER_ISOC then "Isochronous"
    else UnknownName(endpointType)
  }

  function DirectionName(direction: int32): (name: string)
    ensures name == "IN" || name == "OUT"
    ensures name == "IN" <==> direction == USB_DIR_IN
  {
    if direction == USB_DIR_IN then "IN" else "OUT"
  }

  /** Each listed class code has its table name; every other code prints as Unknown(code). */
  lemma InterfaceClassNameTable(cls: int32)
    ensures cls in INTERFACE_CLASS_NAMES ==> InterfaceClassName(cls) == INTERFACE_CLASS_NAMES[cls]
    ensures cls !in INTERFACE_CLASS_NAMES ==> InterfaceClassName(cls) == UnknownName(cls)
  {
    if cls !in INTERFACE_CLASS_NAMES {
      assert cls !in {0, 1, 2, 3, 5, 6, 7, 8, 9, 10, 11, 13, 14, 224, 239, 254, 255};
    }
  }

  /** Each listed transfer type has its table name; every other value prints as Unknown(value). */
  lemma EndpointTypeNameTable(endpointType: int32)
    ensures endpointType in ENDPOINT_TYPE_NAMES ==> EndpointTypeName(endpointType) == ENDPOINT_TYPE_NAMES[endpointType]
    ensures endpointType !in ENDPOINT_TYPE_NAMES ==> EndpointTypeName(endpointType) == UnknownName(endpointType)
  {
  }

  lemma UnknownNameInjective(a: int32, b: int32)
    requires UnknownName(a) == UnknownName(b)
    ensures a == b
  {
    var da := Numerals.DecimalInt(a);
    var db := Numerals.DecimalInt(b);
    assert |da| == |db|;
    assert da == UnknownName(a)[|UNKNOWN|..|UNKNOWN| + |da|];
    assert db == UnknownName(b)[|UNKNOWN|..|UNKNOWN| + |db|];
    Numerals.DecimalIntInjective(a, b);
  }

  /** No listed name reads like an Unknown(..) name. */
  lemma ListedNamesAreNotUnknown(name: string, code: int32)
    requires name in INTERFACE_CLASS_NAMES.Values || name in ENDPOINT_TYPE_NAMES.Values
    ensures name != UnknownName(code)
  {
    assert UnknownName(code)[0] == 'U';
  }

  /** Distinct class codes get distinct names, so the name identifies the code. */
  lemma InterfaceClassNameInjective(a: int32, b: int32)
    requires InterfaceClassName(a) == InterfaceClassName(b)
    ensures a == b
  {
    InterfaceClassNameTable(a);
    InterfaceClassNameTable(b);
    if a in INTERFACE_CLASS_NAMES && b in INTERFACE_CLASS_NAMES {
      ClassTableInjective(a, b);
    } else if a in INTERFACE_CLASS_NAMES {
      ListedNamesAreNotUnknown(InterfaceClassName(a), b);
    } else if b in INTERFACE_CLASS_NAMES {
      ListedNamesAreNotUnknown(InterfaceClassName(b), a);
    } else {
      UnknownNameInjective(a, b);
    }
  }

  /** No two class codes of the table share a name. */
  lemma ClassTableInjective(a: int, b: int)
    requires a in INTERFACE_CLASS_NAMES && b in INTERFACE_CLASS_NAMES
    requires INTERFACE_CLASS_NAMES[a] == INTERFACE_CLASS_NAMES[b]
    ensures a == b
  {
  }

  /** Distinct transfer types get distinct names. */
  lemma EndpointTypeNameInjective(a: int32, b: int32)
    requires EndpointTypeName(a) == EndpointTypeName(b)
    ensures a == b
  {
    EndpointTypeNameTable(a);
    EndpointTypeNameTable(b);
    if a in ENDPOINT_TYPE_NAMES && b in ENDPOINT_TYPE_NAMES {
    } else if a in ENDPOINT_TYPE_NAMES {
      ListedNamesAreNotUnknown(EndpointTypeName(a), b);
    } else if b in ENDPOINT_TYPE_NAMES {
      ListedNamesAreNotUnknown(EndpointTypeName(b), a);
    } else {
      UnknownNameInjective(a, b);
    }
  }

  // ---- numbers ----

  /** `String.format("%04X", n)`: a negative Int is printed as its unsigned 32-bit value. */
  function Hex04(n: int32): string {
    Numerals.HexPadded(if n < 0 then n + 0x1_0000_0000 else n, 4)
  }

  /** A 16-bit ID prints as exactly four upper-case hex digits that read back as the ID. */
  lemma Hex04RoundTrip(id: int32)
    requires 0 <= id <= 0xFFFF
    ensures |Hex04(id)| == 4
    ensures forall i :: 0 <= i < 4 ==> Numerals.IsUpperHexChar(Hex04(id)[i])
    ensures Numerals.ParseHex(Hex04(id)) == Some(id as nat)
  {
    assert Numerals.Pow(16, 4) == 0x10000;
    Numerals.HexPaddedWidth(id, 4);
    Numerals.HexPaddedRoundTrip(id, 4);
  }

  /** A Kotlin template of a nullable string. */
  function Show(s: Option<string>): string {
    match s
    case None => "null"
    case Some(v) => v
  }

  // ---- the appended lines ----

  /** Which of the templates of `getDeviceDetailString` a line was appended from. */
  datatype Field =
    | DeviceName | ProductName | ManufacturerName | SerialNumber | DeviceId | VendorId | ProductId
    | DeviceClass | DeviceSubclass | DeviceProtocol | Version | InterfaceCount
    | Banner
    | InterfaceHeading | InterfaceId | InterfaceClass | InterfaceSubclass | InterfaceProtocol
    | InterfaceName | EndpointCount
    | EndpointHeading | Address | Number | Direction | TransferType | Attributes
    | MaxPacketSize | Interval
  {
    predicate IsDeviceField() {
      DeviceName? || ProductName? || ManufacturerName? || SerialNumber? || DeviceId? || VendorId?
      || ProductId? || DeviceClass? || DeviceSubclass? || DeviceProtocol? || Version? || InterfaceCount?
    }

    predicate IsInterfaceField() {
      InterfaceHeading? || InterfaceId? || InterfaceClass? || InterfaceSubclass? || InterfaceProtocol?
      || InterfaceName? || EndpointCount?
    }

    predicate IsEndpointField() {
      EndpointHeading? || Address? || Number? || Direction? || TransferType? || Attributes?
      || MaxPacketSize? || Interval?
    }

    /** The constant text in front of the interpolated value. */
    function Prefix(): string {
      match this
      case DeviceName => "Device Name: "
      case ProductName => "Product Name: "
      case ManufacturerName => "Manufacturer Name: "
      case SerialNumber => "Serial Number: "
      case DeviceId => "Device ID: "
      case VendorId => "Vendor ID: "
      case ProductId => "Product ID: "
      case DeviceClass => "Class: "
      case DeviceSubclass => "Subclass: "
      case DeviceProtocol => "Protocol: "
      case Version => "Version: "
      case InterfaceCount => "Interface Count: "
      case Banner => "\n--- Interfaces ---"
      case InterfaceHeading => "\nInterface #"
      case InterfaceId => "  ID: "
      case InterfaceClass => "  Class: "
      case InterfaceSubclass => "  Subclass: "
      case InterfaceProtocol => "  Protocol: "
      case InterfaceName => "  Name: "
      case EndpointCount => "  Endpoint Count: "
      case EndpointHeading => "    Endpoint #"
      case Address => "      Address: "
      case Number => "      Number: "
      case Direction => "      Direction: "
      case TransferType => "      Type: "
      case Attributes => "      Attributes: "
      case MaxPacketSize => "      Max Packet Size: "
      case Interval => "      Interval: "
    }

    /** The constant text after the value: the headings end in a colon. */
    function Suffix(): (suffix: string)
      ensures |suffix| > 0 && suffix[|suffix| - 1] == '\n'
    {
      if InterfaceHeading? || EndpointHeading? then ":\n" else "\n"
    }
  }

  /** The expression a template interpolates, and how Kotlin prints it. */
  datatype Value =
    | Str(s: string)
    | Nullable(o: Option<string>)
    | Int(n: int32)
    | IntHex(n: int32)
    | ClassCode(n: int32)
    | DirectionCode(n: int32)
    | TypeCode(n: int32)
    | Count(count: nat)
    | NoValue
  {
    function Format(): string {
      match this
      case Str(s) => s
      case Nullable(o) => Show(o)
      case Int(n) => Numerals.DecimalInt(n)
      case IntHex(n) => Numerals.DecimalInt(n) + " (0x" + Hex04(n) + ")"
      case ClassCode(n) => Numerals.DecimalInt(n) + " (" + InterfaceClassName(n) + ")"
      case DirectionCode(n) => DirectionName(n)
      case TypeCode(n) => EndpointTypeName(n)
      case Count(n) => Numerals.Decimal(n)
      case NoValue => ""
    }
  }

  /** One call of `StringBuilder.append` with a string template. */
  datatype Piece = Piece(field: Field, value: Value) {
    function Text(): (text: string)
      ensures |text| > 0 && text[|text| - 1] == '\n'
    {
      field.Prefix() + value.Format() + field.Suffix()
    }
  }

  const BANNER: Piece := Piece(Banner, NoValue)

  function Render(pieces: seq<Piece>): string {
    if pieces == [] then "" else Render(pieces[..|pieces| - 1]) + pieces[|pieces| - 1].Text()
  }

  /** The templates the pieces came from, in order. */
  function Fields(pieces: seq<Piece>): (fields: seq<Field>)
    ensures |fields| == |pieces|
    ensures forall k :: 0 <= k < |pieces| ==> fields[k] == pieces[k].field
  {
    seq(|pieces|, k requires 0 <= k < |pieces| => pieces[k].field)
  }

  /** The values of the lines appended from template `f`, in order. */
  function ValuesOf(pieces: seq<Piece>, f: Field): seq<Value> {
    if pieces == [] then []
    else
      var last := pieces[|pieces| - 1];
      ValuesOf(pieces[..|pieces| - 1], f) + (if last.field == f then [last.value] else [])
  }

  /** The lines only API level 21 (LOLLIPOP) and later print. */
  function ProductLines(d: UsbDevice, sdkInt: int): seq<Piece> {
    if sdkInt >= LOLLIPOP then
      [Piece(ProductName, Nullable(d.productName)),
       Piece(ManufacturerName, Nullable(d.manufacturerName)),
       Piece(SerialNumber, Nullable(d.serialNumber))]
    else []
  }

  function IdLines(d: UsbDevice): seq<Piece> {
    [Piece(DeviceId, Int(d.deviceId)),
     Piece(VendorId, IntHex(d.vendorId)),
     Piece(ProductId, IntHex(d.productId)),
     Piece(DeviceClass, Int(d.deviceClass)),
     Piece(DeviceSubclass, Int(d.deviceSubclass)),
     Piece(DeviceProtocol, Int(d.deviceProtocol))]
  }

  /** The line only API level 23 (M) and later print. */
  function VersionLines(d: UsbDevice, sdkInt: int): seq<Piece> {
    if sdkInt >= M then [Piece(Version, Str(d.version))] else []
  }

  function DeviceHeader(d: UsbDevice, sdkInt: int): seq<Piece> {
    [Piece(DeviceName, Str(d.deviceName))] + ProductLines(d, sdkInt) + IdLines(d)
    + VersionLines(d, sdkInt) + [Piece(InterfaceCount, Count(|d.interfaces|))]
  }

  function InterfaceHead(i: nat, intf: UsbInterface): seq<Piece> {
    [Piece(InterfaceHeading, Count(i)),
     Piece(InterfaceId, Int(intf.id)),
     Piece(InterfaceClass, ClassCode(intf.interfaceClass)),
     Piece(InterfaceSubclass, Int(intf.interfaceSubclass)),
     Piece(InterfaceProtocol, Int(intf.interfaceProtocol)),
     Piece(InterfaceName, Nullable(intf.name)),
     Piece(EndpointCount, Count(|intf.endpoints|))]
  }

  function EndpointBlock(j: nat, ep: UsbEndpoint): seq<Piece> {
    [Piece(EndpointHeading, Count(j)),
     Piece(Address, Int(ep.address)),
     Piece(Number, Int(ep.endpointNumber)),
     Piece(Direction, DirectionCode(ep.direction)),
     Piece(TransferType, TypeCode(ep.endpointType)),
     Piece(Attributes, Int(ep.attributes)),
     Piece(MaxPacketSize, Int(ep.maxPacketSize)),
     Piece(Interval, Int(ep.interval))]
  }

  /** The endpoint blocks of `eps`, numbered by position. */
  function EndpointBlocks(eps: seq<UsbEndpoint>): seq<Piece> {
    if eps == [] then []
    else EndpointBlocks(eps[..|eps| - 1]) + EndpointBlock(|eps| - 1, eps[|eps| - 1])
  }

  function InterfaceBlock(i: nat, intf: UsbInterface): seq<Piece> {
    InterfaceHead(i, intf) + EndpointBlocks(intf.endpoints)
  }

  /** The interface blocks of `ifs`, numbered by position. */
  function InterfaceBlocks(ifs: seq<UsbInterface>): seq<Piece> {
    if ifs == [] then []
    else InterfaceBlocks(ifs[..|ifs| - 1]) + InterfaceBlock(|ifs| - 1, ifs[|ifs| - 1])
  }

  /** Everything `getDeviceDetailString` appends, in order. */
  function DetailPieces(d: UsbDevice, sdkInt: int): seq<Piece> {
    DeviceHeader(d, sdkInt) + [BANNER] + InterfaceBlocks(d.interfaces)
  }

  function DeviceDetail(d: UsbDevice, sdkInt: int): string {
    Render(DetailPieces(d, sdkInt))
  }

  /** The header lines each API level prints, in order. */
  function HeaderFields(sdkInt: int): seq<Field> {
    [DeviceName]
    + (if sdkInt >= LOLLIPOP then [ProductName, ManufacturerName, SerialNumber] else [])
    + [DeviceId, VendorId, ProductId, DeviceClass, DeviceSubclass, DeviceProtocol]
    + (if sdkInt >= M then [Version] else [])
    + [InterfaceCount]
  }

  // ---- properties of the dump ----

  /** Every appended line ends in a newline, so the dump does. */
  lemma {:induction false} RenderEndsWithNewline(pieces: seq<Piece>)
    requires pieces != []
    ensures |Render(pieces)| > 0 && Render(pieces)[|Render(pieces)| - 1] == '\n'
  {
    var text := pieces[|pieces| - 1].Text();
    assert Render(pieces) == Render(pieces[..|pieces| - 1]) + text;
  }

  lemma DeviceDetailEndsWithNewline(d: UsbDevice, sdkInt: int)
    ensures |DeviceDetail(d, sdkInt)| > 0
    ensures DeviceDetail(d, sdkInt)[|DeviceDetail(d, sdkInt)| - 1] == '\n'
  {
    RenderEndsWithNewline(DetailPieces(d, sdkInt));
  }

  lemma {:induction false} RenderAppend(a: seq<Piece>, b: seq<Piece>)
    ensures Render(a + b) == Render(a) + Render(b)
    decreases |b|
  {
    if b == [] {
      assert a + b == a;
    } else {
      var init, last := b[..|b| - 1], b[|b| - 1];
      assert (a + b)[..|a + b| - 1] == a + init;
      assert (a + b)[|a + b| - 1] == last;
      RenderAppend(a, init);
      Text.Associate(Render(a), Render(init), last.Text());
    }
  }

  lemma BannerText()
    ensures Render([BANNER]) == "\n--- Interfaces ---\n"
  {
    assert Render([BANNER]) == Render([]) + BANNER.Text();
  }

  /** The dump is the header lines, then the banner line, then the interface blocks. */
  lemma DeviceDetailLayout(d: UsbDevice, sdkInt: int)
    ensures DeviceDetail(d, sdkInt)
         == Render(DeviceHeader(d, sdkInt)) + "\n--- Interfaces ---\n" + Render(InterfaceBlocks(d.interfaces))
  {
    var header, blocks := DeviceHeader(d, sdkInt), InterfaceBlocks(d.interfaces);
    assert DetailPieces(d, sdkInt) == header + [BANNER] + blocks;
    RenderAppend(header + [BANNER], blocks);
    RenderAppend(header, [BANNER]);
    BannerText();
  }

  lemma {:induction false} ValuesOfAppend(a: seq<Piece>, b: seq<Piece>, f: Field)
    ensures ValuesOf(a + b, f) == ValuesOf(a, f) + ValuesOf(b, f)
    decreases |b|
  {
    if b == [] {
      assert a + b == a;
    } else {
      var init := b[..|b| - 1];
      assert (a + b)[..|a + b| - 1] == a + init;
      ValuesOfAppend(a, init, f);
    }
  }

  /** `ValuesOfAppend` with the values of both halves already known. */
  lemma ValuesOfJoin(a: seq<Piece>, b: seq<Piece>, f: Field, va: seq<Value>, vb: seq<Value>)
    requires ValuesOf(a, f) == va && ValuesOf(b, f) == vb
    ensures ValuesOf(a + b, f) == va + vb
  {
    ValuesOfAppend(a, b, f);
  }

  lemma {:induction false} ValuesOfAbsent(pieces: seq<Piece>, f: Field)
    requires forall k :: 0 <= k < |pieces| ==> pieces[k].field != f
    ensures ValuesOf(pieces, f) == []
    decreases |pieces|
  {
    if pieces != [] {
      ValuesOfAbsent(pieces[..|pieces| - 1], f);
    }
  }

  /** A block whose first line, and only that line, comes from `f`. */
  lemma ValuesOfLeading(block: seq<Piece>, f: Field)
    requires block != [] && block[0].field == f
    requires forall k :: 1 <= k < |block| ==> block[k].field != f
    ensures ValuesOf(block, f) == [block[0].value]
  {
    assert block == [block[0]] + block[1..];
    ValuesOfAppend([block[0]], block[1..], f);
    ValuesOfAbsent(block[1..], f);
    assert ValuesOf([block[0]], f) == ValuesOf([], f) + [block[0].value];
  }

  /** A block whose last line, and only that line, comes from `f`. */
  lemma ValuesOfTrailing(block: seq<Piece>, f: Field)
    requires block != [] && block[|block| - 1].field == f
    requires forall k :: 0 <= k < |block| - 1 ==> block[k].field != f
    ensures ValuesOf(block, f) == [block[|block| - 1].value]
  {
    ValuesOfAbsent(block[..|block| - 1], f);
  }

  lemma {:induction false} EndpointBlocksFields(eps: seq<UsbEndpoint>)
    ensures forall k :: 0 <= k < |EndpointBlocks(eps)| ==> EndpointBlocks(eps)[k].field.IsEndpointField()
  {
    if eps != [] {
      EndpointBlocksFields(eps[..|eps| - 1]);
    }
  }

  lemma {:induction false} InterfaceBlocksFields(ifs: seq<UsbInterface>)
    ensures forall k :: 0 <= k < |InterfaceBlocks(ifs)| ==>
      InterfaceBlocks(ifs)[k].field.IsInterfaceField() || InterfaceBlocks(ifs)[k].field.IsEndpointField()
  {
    if ifs != [] {
      var last := ifs[|ifs| - 1];
      InterfaceBlocksFields(ifs[..|ifs| - 1]);
      EndpointBlocksFields(last.endpoints);
    }
  }

  /** The values of the headings of `n` consecutive blocks: 0, 1, ..., n - 1. */
  function Numbered(n: nat): (values: seq<Value>)
    ensures |values| == n
    ensures forall j :: 0 <= j < n ==> values[j] == Count(j)
  {
    seq(n, j requires 0 <= j < n => Count(j))
  }

  lemma NumberedSnoc(n: nat)
    ensures Numbered(n + 1) == Numbered(n) + [Count(n)]
  {
  }

  lemma EndpointBlockValues(j: nat, ep: UsbEndpoint)
    ensures ValuesOf(EndpointBlock(j, ep), EndpointHeading) == [Count(j)]
  {
    ValuesOfLeading(EndpointBlock(j, ep), EndpointHeading);
  }

  lemma InterfaceHeadValues(i: nat, intf: UsbInterface)
    ensures ValuesOf(InterfaceHead(i, intf), InterfaceHeading) == [Count(i)]
    ensures ValuesOf(InterfaceHead(i, intf), EndpointCount) == [Count(|intf.endpoints|)]
    ensures ValuesOf(InterfaceHead(i, intf), EndpointHeading) == []
  {
    var head := InterfaceHead(i, intf);
    ValuesOfLeading(head, InterfaceHeading);
    ValuesOfTrailing(head, EndpointCount);
    ValuesOfAbsent(head, EndpointHeading);
  }

  /** The endpoint headings of a run of endpoint blocks count 0, 1, 2, ... */
  lemma {:induction false} EndpointBlocksNumbered(eps: seq<UsbEndpoint>)
    ensures ValuesOf(EndpointBlocks(eps), EndpointHeading) == Numbered(|eps|)
  {
    if eps != [] {
      var n := |eps| - 1;
      EndpointBlocksNumbered(eps[..n]);
      ValuesOfAppend(EndpointBlocks(eps[..n]), EndpointBlock(n, eps[n]), EndpointHeading);
      EndpointBlockValues(n, eps[n]);
      NumberedSnoc(n);
    }
  }

  lemma EndpointBlocksAbsent(eps: seq<UsbEndpoint>, f: Field)
    requires !f.IsEndpointField()
    ensures ValuesOf(EndpointBlocks(eps), f) == []
  {
    EndpointBlocksFields(eps);
    ValuesOfAbsent(EndpointBlocks(eps), f);
  }

  /** Inside the block of one interface the endpoints are numbered 0 to endpointCount - 1. */
  lemma EndpointsNumbered(i: nat, intf: UsbInterface)
    ensures ValuesOf(InterfaceBlock(i, intf), EndpointHeading) == Numbered(|intf.endpoints|)
  {
    InterfaceHeadValues(i, intf);
    EndpointBlocksNumbered(intf.endpoints);
    ValuesOfJoin(InterfaceHead(i, intf), EndpointBlocks(intf.endpoints), EndpointHeading,
                 [], Numbered(|intf.endpoints|));
  }

  /** The endpoint count line agrees with the number of endpoint blocks that follow it. */
  lemma EndpointCountAgrees(i: nat, intf: UsbInterface)
    ensures ValuesOf(InterfaceBlock(i, intf), EndpointCount)
         == [Count(|ValuesOf(InterfaceBlock(i, intf), EndpointHeading)|)]
  {
    InterfaceHeadValues(i, intf);
    EndpointBlocksNumbered(intf.endpoints);
    EndpointBlocksAbsent(intf.endpoints, EndpointCount);
    CountLineAgrees(InterfaceHead(i, intf), EndpointBlocks(intf.endpoints), EndpointCount, EndpointHeading,
                    |intf.endpoints|);
  }

  /**
   * A head whose one count line says `m`, followed by `m` numbered blocks that have no count
   * line of their own: the count line agrees with the number of headings.
   */
  lemma CountLineAgrees(head: seq<Piece>, rest: seq<Piece>, count: Field, heading: Field, m: nat)
    requires ValuesOf(head, count) == [Count(m)] && ValuesOf(rest, count) == []
    requires ValuesOf(head, heading) == [] && ValuesOf(rest, heading) == Numbered(m)
    ensures ValuesOf(head + rest, count) == [Count(|ValuesOf(head + rest, heading)|)]
  {
    ValuesOfAppend(head, rest, count);
    ValuesOfAppend(head, rest, heading);
    assert [] + Numbered(m) == Numbered(m);
  }

  lemma InterfaceBlockValues(i: nat, intf: UsbInterface)
    ensures ValuesOf(InterfaceBlock(i, intf), InterfaceHeading) == [Count(i)]
  {
    var head, rest := InterfaceHead(i, intf), EndpointBlocks(intf.endpoints);
    InterfaceHeadValues(i, intf);
    ValuesOfAppend(head, rest, InterfaceHeading);
    EndpointBlocksAbsent(intf.endpoints, InterfaceHeading);
  }

  /** The interface headings of a run of interface blocks count 0, 1, 2, ... */
  lemma {:induction false} InterfaceBlocksNumbered(ifs: seq<UsbInterface>)
    ensures ValuesOf(InterfaceBlocks(ifs), InterfaceHeading) == Numbered(|ifs|)
  {
    if ifs != [] {
      var n := |ifs| - 1;
      InterfaceBlocksNumbered(ifs[..n]);
      ValuesOfAppend(InterfaceBlocks(ifs[..n]), InterfaceBlock(n, ifs[n]), InterfaceHeading);
      InterfaceBlockValues(n, ifs[n]);
      NumberedSnoc(n);
    }
  }

  /** The header prints exactly the lines of its API level, in source order. */
  lemma HeaderLayout(d: UsbDevice, sdkInt: int)
    ensures Fields(DeviceHeader(d, sdkInt)) == HeaderFields(sdkInt)
  {
  }

  lemma DetailFields(d: UsbDevice, sdkInt: int)
    ensures Fields(DetailPieces(d, sdkInt))
         == HeaderFields(sdkInt) + [Banner] + Fields(InterfaceBlocks(d.interfaces))
  {
    HeaderLayout(d, sdkInt);
  }

  lemma HeaderIsDeviceFields(d: UsbDevice, sdkInt: int)
    ensures forall k :: 0 <= k < |DeviceHeader(d, sdkInt)| ==> DeviceHeader(d, sdkInt)[k].field.IsDeviceField()
  {
    HeaderLayout(d, sdkInt);
    var fields := HeaderFields(sdkInt);
    assert forall k :: 0 <= k < |fields| ==> fields[k].IsDeviceField();
  }

  lemma HeaderHasNoHeadings(d: UsbDevice, sdkInt: int)
    ensures ValuesOf(DeviceHeader(d, sdkInt) + [BANNER], InterfaceHeading) == []
  {
    var header := DeviceHeader(d, sdkInt) + [BANNER];
    HeaderIsDeviceFields(d, sdkInt);
    assert forall k :: 0 <= k < |header| ==> header[k].field != InterfaceHeading;
    ValuesOfAbsent(header, InterfaceHeading);
  }

  lemma InterfaceBlocksAbsent(ifs: seq<UsbInterface>, f: Field)
    requires !f.IsInterfaceField() && !f.IsEndpointField()
    ensures ValuesOf(InterfaceBlocks(ifs), f) == []
  {
    InterfaceBlocksFields(ifs);
    ValuesOfAbsent(InterfaceBlocks(ifs), f);
  }

  /** The interfaces of the dump are numbered 0 to interfaceCount - 1. */
  lemma InterfacesNumbered(d: UsbDevice, sdkInt: int)
    ensures ValuesOf(DetailPieces(d, sdkInt), InterfaceHeading) == Numbered(|d.interfaces|)
  {
    HeaderHasNoHeadings(d, sdkInt);
    InterfaceBlocksNumbered(d.interfaces);
    ValuesOfJoin(DeviceHeader(d, sdkInt) + [BANNER], InterfaceBlocks(d.interfaces), InterfaceHeading,
                 [], Numbered(|d.interfaces|));
  }

  /** The interface count is the last header line, and no other header line is one. */
  lemma HeaderFieldsEndWithCount(sdkInt: int)
    ensures var fields := HeaderFields(sdkInt);
      && fields != [] && fields[|fields| - 1] == InterfaceCount
      && forall k :: 0 <= k < |fields| - 1 ==> fields[k] != InterfaceCount
  {
  }

  lemma HeaderCountLine(d: UsbDevice, sdkInt: int)
    ensures ValuesOf(DeviceHeader(d, sdkInt) + [BANNER], InterfaceCount) == [Count(|d.interfaces|)]
  {
    var header := DeviceHeader(d, sdkInt);
    HeaderLayout(d, sdkInt);
    HeaderFieldsEndWithCount(sdkInt);
    assert header[|header| - 1] == Piece(InterfaceCount, Count(|d.interfaces|));
    ValuesOfTrailing(header, InterfaceCount);
    ValuesOfAbsent([BANNER], InterfaceCount);
    ValuesOfJoin(header, [BANNER], InterfaceCount, [Count(|d.interfaces|)], []);
  }

  /** The count line agrees with the number of interface blocks that follow it. */
  lemma InterfaceCountAgrees(d: UsbDevice, sdkInt: int)
    ensures ValuesOf(DetailPieces(d, sdkInt), InterfaceCount)
         == [Count(|ValuesOf(DetailPieces(d, sdkInt), InterfaceHeading)|)]
  {
    HeaderCountLine(d, sdkInt);
    HeaderHasNoHeadings(d, sdkInt);
    InterfaceCountBeforeBlocks(DeviceHeader(d, sdkInt) + [BANNER], d.interfaces);
  }

  /** Any header with one interface count line that says `|ifs|`, then the blocks of `ifs`. */
  lemma InterfaceCountBeforeBlocks(header: seq<Piece>, ifs: seq<UsbInterface>)
    requires ValuesOf(header, InterfaceCount) == [Count(|ifs|)]
    requires ValuesOf(header, InterfaceHeading) == []
    ensures ValuesOf(header + InterfaceBlocks(ifs), InterfaceCount)
         == [Count(|ValuesOf(header + InterfaceBlocks(ifs), InterfaceHeading)|)]
  {
    InterfaceBlocksCounts(ifs);
    CountLineAgrees(header, InterfaceBlocks(ifs), InterfaceCount, InterfaceHeading, |ifs|);
  }

  /** The interface blocks carry numbered headings and no interface count line. */
  lemma InterfaceBlocksCounts(ifs: seq<UsbInterface>)
    ensures ValuesOf(InterfaceBlocks(ifs), InterfaceCount) == []
    ensures ValuesOf(InterfaceBlocks(ifs), InterfaceHeading) == Numbered(|ifs|)
  {
    InterfaceBlocksAbsent(ifs, InterfaceCount);
    InterfaceBlocksNumbered(ifs);
  }

  lemma HeaderFieldsGating(sdkInt: int)
    ensures ProductName in HeaderFields(sdkInt) <==> sdkInt >= LOLLIPOP
    ensures ManufacturerName in HeaderFields(sdkInt) <==> sdkInt >= LOLLIPOP
    ensures SerialNumber in HeaderFields(sdkInt) <==> sdkInt >= LOLLIPOP
    ensures Version in HeaderFields(sdkInt) <==> sdkInt >= M
    ensures forall f: Field ::
              f.IsDeviceField() && !f.ProductName? && !f.ManufacturerName? && !f.SerialNumber? && !f.Version?
              ==> f in HeaderFields(sdkInt)
  {
  }

  /**
   * Product, manufacturer and serial lines appear exactly when the API level is at least
   * LOLLIPOP, the version line exactly when it is at least M; every other header line always.
   */
  lemma SdkGatedLines(d: UsbDevice, sdkInt: int)
    ensures ProductName in Fields(DetailPieces(d, sdkInt)) <==> sdkInt >= LOLLIPOP
    ensures ManufacturerName in Fields(DetailPieces(d, sdkInt)) <==> sdkInt >= LOLLIPOP
    ensures SerialNumber in Fields(DetailPieces(d, sdkInt)) <==> sdkInt >= LOLLIPOP
    ensures Version in Fields(DetailPieces(d, sdkInt)) <==> sdkInt >= M
    ensures forall f: Field ::
              f.IsDeviceField() && !f.ProductName? && !f.ManufacturerName? && !f.SerialNumber? && !f.Version?
              ==> f in Fields(DetailPieces(d, sdkInt))
  {
    var rest := Fields(InterfaceBlocks(d.interfaces));
    DetailFields(d, sdkInt);
    InterfaceBlocksFields(d.interfaces);
    assert forall f :: f in rest ==> !f.IsDeviceField();
    DeviceFieldsOfHeader(Fields(DetailPieces(d, sdkInt)), HeaderFields(sdkInt), rest);
    HeaderFieldsGating(sdkInt);
  }

  /** With only non-device lines after the banner, the device lines are those of the header. */
  lemma DeviceFieldsOfHeader(all: seq<Field>, header: seq<Field>, rest: seq<Field>)
    requires all == header + [Banner] + rest
    requires forall f :: f in rest ==> !f.IsDeviceField()
    ensures forall f: Field :: f.IsDeviceField() ==> (f in all <==> f in header)
  {
  }

  // ---- the imperative formatter ----

  /**
   * `java.lang.StringBuilder`, holding the lines appended so far; its text is their
   * concatenation.
   */
  class StringBuilder {
    var pieces: seq<Piece>

    constructor ()
      ensures pieces == []
    {
      pieces := [];
    }

    method Append(p: Piece)
      modifies this
      ensures pieces == old(pieces) + [p]
    {
      pieces := pieces + [p];
    }

    function ToString(): string
      reads this
    {
      Render(pieces)
    }
  }

  /** The descriptor dump; `sdkInt` stands for `Build.VERSION.SDK_INT`. */
  method GetDeviceDetailString(device: UsbDevice, sdkInt: int) returns (s: string)
    ensures s == DeviceDetail(device, sdkInt)
  {
    var sb := new StringBuilder();
    AppendDeviceHeader(sb, device, sdkInt);
    sb.Append(BANNER);
    assert sb.pieces == DeviceHeader(device, sdkInt) + [BANNER];
    AppendInterfaces(sb, device.interfaces);
    s := sb.ToString();
  }

  /** The outer loop, over the interfaces in index order. */
  method AppendInterfaces(sb: StringBuilder, ifs: seq<UsbInterface>)
    modifies sb
    ensures sb.pieces == old(sb.pieces) + InterfaceBlocks(ifs)
  {
    ghost var top := sb.pieces;
    for i := 0 to |ifs|
      invariant sb.pieces == top + InterfaceBlocks(ifs[..i])
    {
      AppendInterfaceBlock(sb, i, ifs[i]);
      InterfaceBlocksSnoc(ifs, i);
    }
    assert ifs[..|ifs|] == ifs;
  }

  /** One pass of the outer loop: the interface's lines, then the inner loop over its endpoints. */
  method AppendInterfaceBlock(sb: StringBuilder, i: nat, intf: UsbInterface)
    modifies sb
    ensures sb.pieces == old(sb.pieces) + InterfaceBlock(i, intf)
  {
    AppendInterfaceHead(sb, i, intf);
    ghost var head := sb.pieces;
    var eps := intf.endpoints;
    for j := 0 to |eps|
      invariant sb.pieces == head + EndpointBlocks(eps[..j])
    {
      AppendEndpoint(sb, j, eps[j]);
      EndpointBlocksSnoc(eps, j);
    }
    assert eps[..|eps|] == eps;
  }

  lemma EndpointBlocksSnoc(eps: seq<UsbEndpoint>, j: nat)
    requires j < |eps|
    ensures EndpointBlocks(eps[..j + 1]) == EndpointBlocks(eps[..j]) + EndpointBlock(j, eps[j])
  {
    assert eps[..j + 1][..j] == eps[..j];
  }

  lemma InterfaceBlocksSnoc(ifs: seq<UsbInterface>, i: nat)
    requires i < |ifs|
    ensures InterfaceBlocks(ifs[..i + 1]) == InterfaceBlocks(ifs[..i]) + InterfaceBlock(i, ifs[i])
  {
    assert ifs[..i + 1][..i] == ifs[..i];
  }

  method AppendDeviceHeader(sb: StringBuilder, device: UsbDevice, sdkInt: int)
    modifies sb
    ensures sb.pieces == old(sb.pieces) + DeviceHeader(device, sdkInt)
  {
    ghost var p0 := sb.pieces;
    sb.Append(Piece(DeviceName, Str(device.deviceName)));
    if sdkInt >= LOLLIPOP {
      AppendProductLines(sb, device);
    }
    AppendIdLines(sb, device);
    if sdkInt >= M {
      sb.Append(Piece(Version, Str(device.version)));
    }
    sb.Append(Piece(InterfaceCount, Count(|device.interfaces|)));
    HeaderAssociates(p0, device, sdkInt);
  }

  method AppendProductLines(sb: StringBuilder, device: UsbDevice)
    modifies sb
    ensures sb.pieces == old(sb.pieces) + ProductLines(device, LOLLIPOP)
  {
    sb.Append(Piece(ProductName, Nullable(device.productName)));
    sb.Append(Piece(ManufacturerName, Nullable(device.manufacturerName)));
    sb.Append(Piece(SerialNumber, Nullable(device.serialNumber)));
  }

  method AppendIdLines(sb: StringBuilder, device: UsbDevice)
    modifies sb
    ensures sb.pieces == old(sb.pieces) + IdLines(device)
  {
    sb.Append(Piece(DeviceId, Int(device.deviceId)));
    sb.Append(Piece(VendorId, IntHex(device.vendorId)));
    sb.Append(Piece(ProductId, IntHex(device.productId)));
    sb.Append(Piece(DeviceClass, Int(device.deviceClass)));
    sb.Append(Piece(DeviceSubclass, Int(device.deviceSubclass)));
    sb.Append(Piece(DeviceProtocol, Int(device.deviceProtocol)));
  }

  lemma HeaderAssociates(p0: seq<Piece>, d: UsbDevice, sdkInt: int)
    ensures p0 + [Piece(DeviceName, Str(d.deviceName))] + ProductLines(d, sdkInt) + IdLines(d)
            + VersionLines(d, sdkInt) + [Piece(InterfaceCount, Count(|d.interfaces|))]
         == p0 + DeviceHeader(d, sdkInt)
  {
    var a, b, c, e, f := [Piece(DeviceName, Str(d.deviceName))], ProductLines(d, sdkInt), IdLines(d),
      VersionLines(d, sdkInt), [Piece(InterfaceCount, Count(|d.interfaces|))];
    assert DeviceHeader(d, sdkInt) == a + b + c + e + f;
    Text.Associate5(p0, a, b, c, e, f);
  }

  method AppendInterfaceHead(sb: StringBuilder, i: nat, intf: UsbInterface)
    modifies sb
    ensures sb.pieces == old(sb.pieces) + InterfaceHead(i, intf)
  {
    sb.Append(Piece(InterfaceHeading, Count(i)));
    sb.Append(Piece(InterfaceId, Int(intf.id)));
    sb.Append(Piece(InterfaceClass, ClassCode(intf.interfaceClass)));
    sb.Append(Piece(InterfaceSubclass, Int(intf.interfaceSubclass)));
    sb.Append(Piece(InterfaceProtocol, Int(intf.interfaceProtocol)));
    sb.Append(Piece(InterfaceName, Nullable(intf.name)));
    sb.Append(Piece(EndpointCount, Count(|intf.endpoints|)));
  }

  method AppendEndpoint(sb: StringBuilder, j: nat, ep: UsbEndpoint)
    modifies sb
    ensures sb.pieces == old(sb.pieces) + EndpointBlock(j, ep)
  {
    sb.Append(Piece(EndpointHeading, Count(j)));
    sb.Append(Piece(Address, Int(ep.address)));
    sb.Append(Piece(Number, Int(ep.endpointNumber)));
    sb.Append(Piece(Direction, DirectionCode(ep.direction)));
    sb.Append(Piece(TransferType, TypeCode(ep.endpointType)));
    sb.Append(Piece(Attributes, Int(ep.attributes)));
    sb.Append(Piece(MaxPacketSize, Int(ep.maxPacketSize)));
    sb.Append(Piece(Interval, Int(ep.interval)));
  }
}
