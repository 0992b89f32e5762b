// The report descriptor of the virtual gamepad, the 10-byte report it
// describes, and the usage constants (Shared/HIDReportDescriptor.h).

module HidReportDescriptor {
  import opened CTypes
  import opened HidItems

  // Usages of the Generic Desktop page (0x01) and the Button page (0x09).
  const GenericDesktopPage := 0x01
  const GamePad := 0x05
  const UsageX := 0x30
  const UsageY := 0x31
  const UsageZ := 0x32
  const UsageRx := 0x33
  const UsageRy := 0x34
  const UsageRz := 0x35
  const HatSwitch := 0x39
  const ButtonPage := 0x09

  /** The Unit item of the hat switch: English Rotation, degrees. */
  const Degrees := 0x14

  // The descriptor, group by group in the order of the array. Each group is
  // given as its bytes and as the short items those bytes encode; the lemma
  // after it proves the encoding and states the group's effect on the item
  // state, whatever that state was before it.

  /** Usage Page (Generic Desktop), Usage (Game Pad), Collection (Application) */
  const Application := Group([0x05, 0x01, 0x09, 0x05, 0xA1, 0x01],
    [Item(GlobalItem, 0, 1, 0x01), Item(LocalItem, 0, 1, 0x05), Item(MainItem, 10, 1, 0x01)])

  lemma ApplicationEncoding()
    ensures Encodes(Application.items, Application.bytes)
  {
  }

  lemma {:induction false} ApplicationGroup(s: Walker)
    ensures Walk(s, Application.items)
      == Some(Open(s.(globals := s.globals.(usagePage := GenericDesktopPage),
                      locals := s.locals.(usages := s.locals.usages + [GamePad])), HidItems.Application))
  {
    var it := Application.items;
    var s1 := s.(globals := s.globals.(usagePage := GenericDesktopPage));
    var s2 := s1.(locals := s1.locals.(usages := s1.locals.usages + [GamePad]));
    WalkCons(s, it, s1);
    WalkCons(s1, it[1..], s2);
    WalkCons(s2, it[2..], Open(s2, HidItems.Application));
  }

  /** Report ID (1) */
  const ReportIdOne := Group([0x85, 0x01], [Item(GlobalItem, 8, 1, 1)])

  lemma ReportIdEncoding()
    ensures Encodes(ReportIdOne.items, ReportIdOne.bytes)
  {
  }

  lemma {:induction false} ReportIdGroup(s: Walker)
    ensures Walk(s, ReportIdOne.items) == Some(s.(globals := s.globals.(reportId := 1)))
  {
    WalkCons(s, ReportIdOne.items, s.(globals := s.globals.(reportId := 1)));
  }

  /** Usage Page (Button), Usage Minimum (1), Usage Maximum (16) */
  const ButtonUsage := Group([0x05, 0x09, 0x19, 0x01, 0x29, 0x10],
    [Item(GlobalItem, 0, 1, 0x09), Item(LocalItem, 1, 1, 1), Item(LocalItem, 2, 1, 16)])

  lemma ButtonUsageEncoding()
    ensures Encodes(ButtonUsage.items, ButtonUsage.bytes)
  {
  }

  lemma {:induction false} ButtonUsageGroup(s: Walker)
    ensures Walk(s, ButtonUsage.items)
      == Some(s.(globals := s.globals.(usagePage := ButtonPage),
                 locals := s.locals.(usageMin := Some(1), usageMax := Some(16))))
  {
    var it := ButtonUsage.items;
    var s1 := s.(globals := s.globals.(usagePage := ButtonPage));
    var s2 := s1.(locals := s1.locals.(usageMin := Some(1)));
    WalkCons(s, it, s1);
    WalkCons(s1, it[1..], s2);
    WalkCons(s2, it[2..], s2.(locals := s2.locals.(usageMax := Some(16))));
  }

  /** Logical Minimum (0), Logical Maximum (1) */
  const ButtonLogical := Group([0x15, 0x00, 0x25, 0x01], [Item(GlobalItem, 1, 1, 0), Item(GlobalItem, 2, 1, 1)])

  lemma ButtonLogicalEncoding()
    ensures Encodes(ButtonLogical.items, ButtonLogical.bytes)
  {
  }

  lemma {:induction false} ButtonLogicalGroup(s: Walker)
    ensures Walk(s, ButtonLogical.items) == Some(s.(globals := s.globals.(logicalMin := 0, logicalMax := 1)))
  {
    var it := ButtonLogical.items;
    var s1 := s.(globals := s.globals.(logicalMin := 0));
    WalkCons(s, it, s1);
    WalkCons(s1, it[1..], s1.(globals := s1.globals.(logicalMax := 1)));
  }

  /** Report Size (1), Report Count (16), Input (Data, Variable, Absolute) */
  const ButtonField := Group([0x75, 0x01, 0x95, 0x10, 0x81, 0x02],
    [Item(GlobalItem, 7, 1, 1), Item(GlobalItem, 9, 1, 16), Item(MainItem, 8, 1, 0x02)])

  lemma ButtonFieldEncoding()
    ensures Encodes(ButtonField.items, ButtonField.bytes)
  {
  }

  lemma {:induction false} ButtonFieldGroup(s: Walker)
    ensures Walk(s, ButtonField.items)
      == Some(Declare(s.(globals := s.globals.(reportSize := 1, reportCount := 16)), Input, DataVariable))
  {
    var it := ButtonField.items;
    var s1 := s.(globals := s.globals.(reportSize := 1));
    var s2 := s1.(globals := s1.globals.(reportCount := 16));
    WalkCons(s, it, s1);
    WalkCons(s1, it[1..], s2);
    WalkCons(s2, it[2..], Declare(s2, Input, DataVariable));
  }

  /** Usage Page (Generic Desktop), Usage (X), Usage (Y) */
  const LeftStickUsage := Group([0x05, 0x01, 0x09, 0x30, 0x09, 0x31],
    [Item(GlobalItem, 0, 1, 0x01), Item(LocalItem, 0, 1, 0x30), Item(LocalItem, 0, 1, 0x31)])

  lemma LeftStickUsageEncoding()
    ensures Encodes(LeftStickUsage.items, LeftStickUsage.bytes)
  {
  }

  lemma {:induction false} LeftStickUsageGroup(s: Walker)
    ensures Walk(s, LeftStickUsage.items)
      == Some(s.(globals := s.globals.(usagePage := GenericDesktopPage),
                 locals := s.locals.(usages := s.locals.usages + [UsageX, UsageY])))
  {
    var it := LeftStickUsage.items;
    var s1 := s.(globals := s.globals.(usagePage := GenericDesktopPage));
    var s2 := s1.(locals := s1.locals.(usages := s1.locals.usages + [UsageX]));
    WalkCons(s, it, s1);
    WalkCons(s1, it[1..], s2);
    WalkCons(s2, it[2..], s2.(locals := s2.locals.(usages := s2.locals.usages + [UsageY])));
    assert s1.locals.usages + [UsageX] + [UsageY] == s.locals.usages + [UsageX, UsageY];
  }

  /** Logical Minimum (0), Logical Maximum (255) */
  const StickLogical := Group([0x15, 0x00, 0x26, 0xFF, 0x00], [Item(GlobalItem, 1, 1, 0), Item(GlobalItem, 2, 2, 255)])

  lemma StickLogicalEncoding()
    ensures Encodes(StickLogical.items, StickLogical.bytes)
  {
  }

  lemma {:induction false} StickLogicalGroup(s: Walker)
    ensures Walk(s, StickLogical.items) == Some(s.(globals := s.globals.(logicalMin := 0, logicalMax := 255)))
  {
    var it := StickLogical.items;
    var s1 := s.(globals := s.globals.(logicalMin := 0));
    WalkCons(s, it, s1);
    WalkCons(s1, it[1..], s1.(globals := s1.globals.(logicalMax := 255)));
  }

  /** Report Size (8), Report Count (2), Input (Data, Variable, Absolute) */
  const LeftStickField := Group([0x75, 0x08, 0x95, 0x02, 0x81, 0x02],
    [Item(GlobalItem, 7, 1, 8), Item(GlobalItem, 9, 1, 2), Item(MainItem, 8, 1, 0x02)])

  lemma LeftStickFieldEncoding()
    ensures Encodes(LeftStickField.items, LeftStickField.bytes)
  {
  }

  lemma {:induction false} LeftStickFieldGroup(s: Walker)
    ensures Walk(s, LeftStickField.items)
      == Some(Declare(s.(globals := s.globals.(reportSize := 8, reportCount := 2)), Input, DataVariable))
  {
    var it := LeftStickField.items;
    var s1 := s.(globals := s.globals.(reportSize := 8));
    var s2 := s1.(globals := s1.globals.(reportCount := 2));
    WalkCons(s, it, s1);
    WalkCons(s1, it[1..], s2);
    WalkCons(s2, it[2..], Declare(s2, Input, DataVariable));
  }

  /** Usage (Rx), Usage (Ry), Input (Data, Variable, Absolute): size and count are inherited */
  const RightStick := Group([0x09, 0x33, 0x09, 0x34, 0x81, 0x02],
    [Item(LocalItem, 0, 1, 0x33), Item(LocalItem, 0, 1, 0x34), Item(MainItem, 8, 1, 0x02)])

  lemma RightStickEncoding()
    ensures Encodes(RightStick.items, RightStick.bytes)
  {
  }

  lemma {:induction false} RightStickGroup(s: Walker)
    ensures Walk(s, RightStick.items)
      == Some(Declare(s.(locals := s.locals.(usages := s.locals.usages + [UsageRx, UsageRy])), Input, DataVariable))
  {
    var it := RightStick.items;
    var s1 := s.(locals := s.locals.(usages := s.locals.usages + [UsageRx]));
    var s2 := s1.(locals := s1.locals.(usages := s1.locals.usages + [UsageRy]));
    WalkCons(s, it, s1);
    WalkCons(s1, it[1..], s2);
    WalkCons(s2, it[2..], Declare(s2, Input, DataVariable));
    assert s.locals.usages + [UsageRx] + [UsageRy] == s.locals.usages + [UsageRx, UsageRy];
  }

  /** Usage (Z), Usage (Rz), Input (Data, Variable, Absolute): size and count are inherited */
  const Triggers := Group([0x09, 0x32, 0x09, 0x35, 0x81, 0x02],
    [Item(LocalItem, 0, 1, 0x32), Item(LocalItem, 0, 1, 0x35), Item(MainItem, 8, 1, 0x02)])

  lemma TriggersEncoding()
    ensures Encodes(Triggers.items, Triggers.bytes)
  {
  }

  lemma {:induction false} TriggersGroup(s: Walker)
    ensures Walk(s, Triggers.items)
      == Some(Declare(s.(locals := s.locals.(usages := s.locals.usages + [UsageZ, UsageRz])), Input, DataVariable))
  {
    var it := Triggers.items;
    var s1 := s.(locals := s.locals.(usages := s.locals.usages + [UsageZ]));
    var s2 := s1.(locals := s1.locals.(usages := s1.locals.usages + [UsageRz]));
    WalkCons(s, it, s1);
    WalkCons(s1, it[1..], s2);
    WalkCons(s2, it[2..], Declare(s2, Input, DataVariable));
    assert s.locals.usages + [UsageZ] + [UsageRz] == s.locals.usages + [UsageZ, UsageRz];
  }

  /** Usage (Hat Switch), Logical Minimum (0), Logical Maximum (7), Physical Minimum (0) */
  const HatUsage := Group([0x09, 0x39, 0x15, 0x00, 0x25, 0x07, 0x35, 0x00],
    [Item(LocalItem, 0, 1, 0x39), Item(GlobalItem, 1, 1, 0), Item(GlobalItem, 2, 1, 7), Item(GlobalItem, 3, 1, 0)])

  lemma HatUsageEncoding()
    ensures Encodes(HatUsage.items, HatUsage.bytes)
  {
  }

  lemma {:induction false} HatUsageGroup(s: Walker)
    ensures Walk(s, HatUsage.items)
      == Some(s.(globals := s.globals.(logicalMin := 0, logicalMax := 7, physicalMin := 0),
                 locals := s.locals.(usages := s.locals.usages + [HatSwitch])))
  {
    var it := HatUsage.items;
    var s1 := s.(locals := s.locals.(usages := s.locals.usages + [HatSwitch]));
    var s2 := s1.(globals := s1.globals.(logicalMin := 0));
    var s3 := s2.(globals := s2.globals.(logicalMax := 7));
    WalkCons(s, it, s1);
    WalkCons(s1, it[1..], s2);
    WalkCons(s2, it[2..], s3);
    WalkCons(s3, it[3..], s3.(globals := s3.globals.(physicalMin := 0)));
  }

  /** Physical Maximum (315), Unit (English Rotation: degrees) */
  const HatPhysical := Group([0x46, 0x3B, 0x01, 0x65, 0x14], [Item(GlobalItem, 4, 2, 315), Item(GlobalItem, 6, 1, 0x14)])

  lemma HatPhysicalEncoding()
    ensures Encodes(HatPhysical.items, HatPhysical.bytes)
  {
  }

  lemma {:induction false} HatPhysicalGroup(s: Walker)
    ensures Walk(s, HatPhysical.items) == Some(s.(globals := s.globals.(physicalMax := 315, unit := Degrees)))
  {
    var it := HatPhysical.items;
    var s1 := s.(globals := s.globals.(physicalMax := 315));
    WalkCons(s, it, s1);
    WalkCons(s1, it[1..], s1.(globals := s1.globals.(unit := Degrees)));
  }

  /** Report Size (4), Report Count (1), Input (Data, Variable, Absolute, Null State) */
  const HatField := Group([0x75, 0x04, 0x95, 0x01, 0x81, 0x42],
    [Item(GlobalItem, 7, 1, 4), Item(GlobalItem, 9, 1, 1), Item(MainItem, 8, 1, 0x42)])

  lemma HatFieldEncoding()
    ensures Encodes(HatField.items, HatField.bytes)
  {
  }

  lemma {:induction false} HatFieldGroup(s: Walker)
    ensures Walk(s, HatField.items)
      == Some(Declare(s.(globals := s.globals.(reportSize := 4, reportCount := 1)), Input, DataVariableNull))
  {
    var it := HatField.items;
    var s1 := s.(globals := s.globals.(reportSize := 4));
    var s2 := s1.(globals := s1.globals.(reportCount := 1));
    WalkCons(s, it, s1);
    WalkCons(s1, it[1..], s2);
    WalkCons(s2, it[2..], Declare(s2, Input, DataVariableNull));
  }

  /** Report Size (4), Report Count (1), Input (Constant): padding to the byte boundary */
  const Padding := Group([0x75, 0x04, 0x95, 0x01, 0x81, 0x03],
    [Item(GlobalItem, 7, 1, 4), Item(GlobalItem, 9, 1, 1), Item(MainItem, 8, 1, 0x03)])

  lemma PaddingEncoding()
    ensures Encodes(Padding.items, Padding.bytes)
  {
  }

  lemma {:induction false} PaddingGroup(s: Walker)
    ensures Walk(s, Padding.items)
      == Some(Declare(s.(globals := s.globals.(reportSize := 4, reportCount := 1)), Input, ConstantVariable))
  {
    var it := Padding.items;
    var s1 := s.(globals := s.globals.(reportSize := 4));
    var s2 := s1.(globals := s1.globals.(reportCount := 1));
    WalkCons(s, it, s1);
    WalkCons(s1, it[1..], s2);
    WalkCons(s2, it[2..], Declare(s2, Input, ConstantVariable));
  }

  /** End Collection */
  const End := Group([0xC0], [Item(MainItem, 12, 0, 0)])

  lemma EndEncoding()
    ensures Encodes(End.items, End.bytes)
  {
  }

  lemma {:induction false} EndGroup(s: Walker)
    requires s.depth > 0
    ensures Walk(s, End.items) == Some(Close(s))
  {
    WalkCons(s, End.items, Close(s));
  }

  /** kBigbenHIDReportDescriptor: the groups above, in order. */
  const Descriptor: seq<byte> :=
    Application.bytes + ReportIdOne.bytes + ButtonUsage.bytes + ButtonLogical.bytes +
    ButtonField.bytes + LeftStickUsage.bytes + StickLogical.bytes + LeftStickField.bytes +
    RightStick.bytes + Triggers.bytes + HatUsage.bytes + HatPhysical.bytes + HatField.bytes +
    Padding.bytes + End.bytes

  /** The items of the descriptor in order. */
  const DescriptorItems: seq<Item> :=
    Application.items + ReportIdOne.items + ButtonUsage.items + ButtonLogical.items +
    ButtonField.items + LeftStickUsage.items + StickLogical.items + LeftStickField.items +
    RightStick.items + Triggers.items + HatUsage.items + HatPhysical.items + HatField.items +
    Padding.items + End.items

  /** kBigbenHIDReportDescriptorSize, the size of the array. */
  const DescriptorSize := |Descriptor|

  /** The descriptor is well formed: it splits into exactly the items above. */
  lemma DescriptorParses()
    ensures Encodes(DescriptorItems, Descriptor)
    ensures ParseItems(Descriptor) == Some(DescriptorItems)
  {
    ApplicationEncoding();
    var items, bytes := Application.items, Application.bytes;
    ReportIdEncoding();
    EncodesAppend(items, bytes, ReportIdOne.items, ReportIdOne.bytes);
    items, bytes := items + ReportIdOne.items, bytes + ReportIdOne.bytes;
    ButtonUsageEncoding();
    EncodesAppend(items, bytes, ButtonUsage.items, ButtonUsage.bytes);
    items, bytes := items + ButtonUsage.items, bytes + ButtonUsage.bytes;
    ButtonLogicalEncoding();
    EncodesAppend(items, bytes, ButtonLogical.items, ButtonLogical.bytes);
    items, bytes := items + ButtonLogical.items, bytes + ButtonLogical.bytes;
    ButtonFieldEncoding();
    EncodesAppend(items, bytes, ButtonField.items, ButtonField.bytes);
    items, bytes := items + ButtonField.items, bytes + ButtonField.bytes;
    LeftStickUsageEncoding();
    EncodesAppend(items, bytes, LeftStickUsage.items, LeftStickUsage.bytes);
    items, bytes := items + LeftStickUsage.items, bytes + LeftStickUsage.bytes;
    StickLogicalEncoding();
    EncodesAppend(items, bytes, StickLogical.items, StickLogical.bytes);
    items, bytes := items + StickLogical.items, bytes + StickLogical.bytes;
    LeftStickFieldEncoding();
    EncodesAppend(items, bytes, LeftStickField.items, LeftStickField.bytes);
    items, bytes := items + LeftStickField.items, bytes + LeftStickField.bytes;
    RightStickEncoding();
    EncodesAppend(items, bytes, RightStick.items, RightStick.bytes);
    items, bytes := items + RightStick.items, bytes + RightStick.bytes;
    TriggersEncoding();
    EncodesAppend(items, bytes, Triggers.items, Triggers.bytes);
    items, bytes := items + Triggers.items, bytes + Triggers.bytes;
    HatUsageEncoding();
    EncodesAppend(items, bytes, HatUsage.items, HatUsage.bytes);
    items, bytes := items + HatUsage.items, bytes + HatUsage.bytes;
    HatPhysicalEncoding();
    EncodesAppend(items, bytes, HatPhysical.items, HatPhysical.bytes);
    items, bytes := items + HatPhysical.items, bytes + HatPhysical.bytes;
    HatFieldEncoding();
    EncodesAppend(items, bytes, HatField.items, HatField.bytes);
    items, bytes := items + HatField.items, bytes + HatField.bytes;
    PaddingEncoding();
    EncodesAppend(items, bytes, Padding.items, Padding.bytes);
    items, bytes := items + Padding.items, bytes + Padding.bytes;
    EndEncoding();
    EncodesAppend(items, bytes, End.items, End.bytes);
    items, bytes := items + End.items, bytes + End.bytes;
    AnalyseEncoding(DescriptorItems, Descriptor);
  }

  // The item state at the end of each block of the descriptor.

  const InputReport := ReportKey(Input, 1)

  const GamePadCollection := Collection(HidItems.Application, 0, GenericDesktopPage, [GamePad])

  const ButtonGlobals := Globals(ButtonPage, 0, 1, 0, 0, 0, 0, 1, 1, 16)
  const StickGlobals := Globals(GenericDesktopPage, 0, 255, 0, 0, 0, 0, 8, 1, 2)
  const HatGlobals := Globals(GenericDesktopPage, 0, 7, 0, 315, 0, Degrees, 4, 1, 1)

  const ButtonsInput := Field(Input, DataVariable, 0, ButtonGlobals, Locals([], Some(1), Some(16)))
  const LeftStickInput := Field(Input, DataVariable, 16, StickGlobals, Locals([UsageX, UsageY], None, None))
  const RightStickInput := Field(Input, DataVariable, 32, StickGlobals, Locals([UsageRx, UsageRy], None, None))
  const TriggersInput := Field(Input, DataVariable, 48, StickGlobals, Locals([UsageZ, UsageRz], None, None))
  const HatInput := Field(Input, DataVariableNull, 64, HatGlobals, Locals([HatSwitch], None, None))
  const PaddingInput := Field(Input, ConstantVariable, 68, HatGlobals, NoLocals)

  /** The input report the descriptor declares, field by field, as a host parser reads it. */
  const InputFields: seq<Field> :=
    [ButtonsInput, LeftStickInput, RightStickInput, TriggersInput, HatInput, PaddingInput]

  const AfterHeader := Walker(NoGlobals.(usagePage := GenericDesktopPage, reportId := 1), [], NoLocals, 1, [GamePadCollection], [], map[])
  const AfterButtons := Walker(ButtonGlobals, [], NoLocals, 1, [GamePadCollection],
    [ButtonsInput], map[InputReport := 16])
  const AfterLeftStick := Walker(StickGlobals, [], NoLocals, 1, [GamePadCollection],
    [ButtonsInput, LeftStickInput], map[InputReport := 32])
  const AfterTriggers := Walker(StickGlobals, [], NoLocals, 1, [GamePadCollection],
    [ButtonsInput, LeftStickInput, RightStickInput, TriggersInput], map[InputReport := 64])
  const AfterHatSwitch := Walker(HatGlobals, [], NoLocals, 1, [GamePadCollection],
    [ButtonsInput, LeftStickInput, RightStickInput, TriggersInput, HatInput], map[InputReport := 68])
  const AfterPadding := Walker(HatGlobals, [], NoLocals, 1, [GamePadCollection],
    InputFields, map[InputReport := 72])
  const AfterEnd := AfterPadding.(depth := 0)

  lemma HeaderBlock(prefix: seq<Item>)
    requires Walk(StartWalk, prefix) == Some(StartWalk)
    ensures Walk(StartWalk, prefix + Application.items + ReportIdOne.items) == Some(AfterHeader)
  {
    var items, w := prefix, StartWalk;
    WalkThen(StartWalk, items, Application.items, w);
    ApplicationGroup(w);
    items, w := items + Application.items, Walk(w, Application.items).value;
    WalkThen(StartWalk, items, ReportIdOne.items, w);
    ReportIdGroup(w);
    items, w := items + ReportIdOne.items, Walk(w, ReportIdOne.items).value;
    assert [] + [GamePad] == [GamePad];
    assert w.globals == AfterHeader.globals && w.stack == [] && w.locals == NoLocals;
    assert w.collections == AfterHeader.collections && w.bits == map[];
  }

  lemma ButtonBlock(prefix: seq<Item>)
    requires Walk(StartWalk, prefix) == Some(AfterHeader)
    ensures Walk(StartWalk, prefix + ButtonUsage.items + ButtonLogical.items + ButtonField.items) == Some(AfterButtons)
  {
    var items, w := prefix, AfterHeader;
    WalkThen(StartWalk, items, ButtonUsage.items, w);
    ButtonUsageGroup(w);
    items, w := items + ButtonUsage.items, Walk(w, ButtonUsage.items).value;
    WalkThen(StartWalk, items, ButtonLogical.items, w);
    ButtonLogicalGroup(w);
    items, w := items + ButtonLogical.items, Walk(w, ButtonLogical.items).value;
    WalkThen(StartWalk, items, ButtonField.items, w);
    ButtonFieldGroup(w);
    items, w := items + ButtonField.items, Walk(w, ButtonField.items).value;
    assert w.globals == AfterButtons.globals && w.stack == [] && w.locals == NoLocals;
    assert w.fields == AfterButtons.fields;
    assert w.bits == AfterButtons.bits;
  }

  lemma LeftStickBlock(prefix: seq<Item>)
    requires Walk(StartWalk, prefix) == Some(AfterButtons)
    ensures Walk(StartWalk, prefix + LeftStickUsage.items + StickLogical.items + LeftStickField.items) == Some(AfterLeftStick)
  {
    var items, w := prefix, AfterButtons;
    WalkThen(StartWalk, items, LeftStickUsage.items, w);
    LeftStickUsageGroup(w);
    items, w := items + LeftStickUsage.items, Walk(w, LeftStickUsage.items).value;
    WalkThen(StartWalk, items, StickLogical.items, w);
    StickLogicalGroup(w);
    items, w := items + StickLogical.items, Walk(w, StickLogical.items).value;
    assert w.locals.usages == [UsageX, UsageY] && ReportBits(w, InputReport) == 16;
    WalkThen(StartWalk, items, LeftStickField.items, w);
    LeftStickFieldGroup(w);
    items, w := items + LeftStickField.items, Walk(w, LeftStickField.items).value;
    assert w.fields == [ButtonsInput] + [LeftStickInput];
    assert w.globals == AfterLeftStick.globals && w.stack == [] && w.locals == NoLocals;
    assert w.fields == AfterLeftStick.fields;
    assert w.bits == AfterLeftStick.bits;
  }

  lemma TriggerBlock(prefix: seq<Item>)
    requires Walk(StartWalk, prefix) == Some(AfterLeftStick)
    ensures Walk(StartWalk, prefix + RightStick.items + Triggers.items) == Some(AfterTriggers)
  {
    var items, w := prefix, AfterLeftStick;
    assert w.locals == NoLocals && ReportBits(w, InputReport) == 32;
    assert [] + [UsageRx, UsageRy] == [UsageRx, UsageRy];
    WalkThen(StartWalk, items, RightStick.items, w);
    RightStickGroup(w);
    items, w := items + RightStick.items, Walk(w, RightStick.items).value;
    assert w.fields == [ButtonsInput, LeftStickInput] + [RightStickInput];
    assert w.locals == NoLocals && ReportBits(w, InputReport) == 48;
    assert [] + [UsageZ, UsageRz] == [UsageZ, UsageRz];
    WalkThen(StartWalk, items, Triggers.items, w);
    TriggersGroup(w);
    items, w := items + Triggers.items, Walk(w, Triggers.items).value;
    assert w.fields == [ButtonsInput, LeftStickInput, RightStickInput] + [TriggersInput];
    assert w.bits.Keys == {InputReport} && w.bits[InputReport] == 64;
    assert w.globals == AfterTriggers.globals && w.stack == [] && w.locals == NoLocals;
    assert w.fields == AfterTriggers.fields;
    assert w.bits == AfterTriggers.bits;
  }

  lemma HatBlock(prefix: seq<Item>)
    requires Walk(StartWalk, prefix) == Some(AfterTriggers)
    ensures Walk(StartWalk, prefix + HatUsage.items + HatPhysical.items + HatField.items) == Some(AfterHatSwitch)
  {
    var items, w := prefix, AfterTriggers;
    WalkThen(StartWalk, items, HatUsage.items, w);
    HatUsageGroup(w);
    items, w := items + HatUsage.items, Walk(w, HatUsage.items).value;
    WalkThen(StartWalk, items, HatPhysical.items, w);
    HatPhysicalGroup(w);
    items, w := items + HatPhysical.items, Walk(w, HatPhysical.items).value;
    assert w.bits.Keys == {InputReport} && w.bits[InputReport] == 64;
    assert w.locals.usages == [HatSwitch] && ReportBits(w, InputReport) == 64;
    WalkThen(StartWalk, items, HatField.items, w);
    HatFieldGroup(w);
    items, w := items + HatField.items, Walk(w, HatField.items).value;
    assert w.fields == [ButtonsInput, LeftStickInput, RightStickInput, TriggersInput] + [HatInput];
    assert w.globals == AfterHatSwitch.globals && w.stack == [] && w.locals == NoLocals;
    assert w.bits.Keys == {InputReport} && w.bits[InputReport] == 68;
    assert w.bits == AfterHatSwitch.bits && w.fields == AfterHatSwitch.fields;
  }

  lemma PaddingBlock(prefix: seq<Item>)
    requires Walk(StartWalk, prefix) == Some(AfterHatSwitch)
    ensures Walk(StartWalk, prefix + Padding.items) == Some(AfterPadding)
  {
    var w := AfterHatSwitch;
    WalkThen(StartWalk, prefix, Padding.items, w);
    PaddingGroup(w);
    w := Walk(w, Padding.items).value;
    assert w.fields == [ButtonsInput, LeftStickInput, RightStickInput, TriggersInput, HatInput] + [PaddingInput];
    assert w.globals == AfterPadding.globals && w.stack == [] && w.locals == NoLocals;
    assert w.bits.Keys == {InputReport} && w.bits[InputReport] == 72;
    assert w.bits == AfterPadding.bits && w.fields == AfterPadding.fields;
  }

  lemma EndBlock(prefix: seq<Item>)
    requires Walk(StartWalk, prefix) == Some(AfterPadding)
    ensures Walk(StartWalk, prefix + End.items) == Some(AfterEnd)
  {
    var items, w := prefix, AfterPadding;
    WalkThen(StartWalk, items, End.items, w);
    EndGroup(w);
    items, w := items + End.items, Walk(w, End.items).value;
    assert w.globals == AfterEnd.globals && w.stack == [] && w.locals == NoLocals;
    assert w.fields == AfterEnd.fields;
    assert w.bits == AfterEnd.bits;
  }

  /**
   * What a host learns from the descriptor: one Application collection of
   * usage Game Pad, closed again; the six input fields above, in report 1;
   * 72 bits of input report 1 and no other report.
   */
  lemma DescriptorLayout()
    ensures Analyse(Descriptor) == Some(AfterEnd)
    ensures Balanced(AfterEnd) && AfterEnd.collections == [GamePadCollection]
    ensures AfterEnd.fields == InputFields && AfterEnd.bits == map[InputReport := 72]
  {
    DescriptorParses();
    HeaderBlock([]);
    assert [] + Application.items == Application.items;
    var p := Application.items + ReportIdOne.items;
    ButtonBlock(p);
    p := p + ButtonUsage.items + ButtonLogical.items + ButtonField.items;
    LeftStickBlock(p);
    p := p + LeftStickUsage.items + StickLogical.items + LeftStickField.items;
    TriggerBlock(p);
    p := p + RightStick.items + Triggers.items;
    HatBlock(p);
    p := p + HatUsage.items + HatPhysical.items + HatField.items;
    PaddingBlock(p);
    p := p + Padding.items;
    EndBlock(p);
  }

  /** The array holds 79 bytes in 39 items, not the 71 bytes its comment states. */
  lemma DescriptorLength()
    ensures DescriptorSize == 79 && DescriptorSize != 71
    ensures |DescriptorItems| == 39
  {
  }

  // ---------------------------------------------------------------------
  // BigbenHIDReport
  // ---------------------------------------------------------------------

  /** BigbenHIDReport: the report the virtual device sends to the host. */
  datatype HidReport = HidReport(
    reportId: byte, buttons: uint16, leftStickX: byte, leftStickY: byte, rightStickX: byte,
    rightStickY: byte, leftTrigger: byte, rightTrigger: byte, hatSwitch: byte)

  /** BIGBEN_HID_REPORT_SIZE, the size of the packed struct. */
  const HidReportSize := 10

  /** The hat value the struct uses for "no direction". */
  const HatNull := 8

  /** The struct's bytes in memory: packed, the 16-bit field little-endian. */
  function HidReportBytes(r: HidReport): (b: seq<byte>)
    ensures |b| == HidReportSize
  {
    [r.reportId, LowByte(r.buttons), HighByte(r.buttons), r.leftStickX, r.leftStickY,
     r.rightStickX, r.rightStickY, r.leftTrigger, r.rightTrigger, r.hatSwitch]
  }

  /** The struct read back from its bytes. */
  function HidReportOf(b: seq<byte>): HidReport
    requires |b| == HidReportSize
  {
    HidReport(b[0], Le16(b[1], b[2]), b[3], b[4], b[5], b[6], b[7], b[8], b[9])
  }

  lemma HidReportRoundTrip(r: HidReport)
    ensures HidReportOf(HidReportBytes(r)) == r
  {
    WordBytes(r.buttons);
  }

  lemma HidReportBytesRoundTrip(b: seq<byte>)
    requires |b| == HidReportSize
    ensures HidReportBytes(HidReportOf(b)) == b
  {
  }

  // The struct matches the descriptor: a host that reads each field of
  // input report 1 at the bit offset the descriptor gives, in the bytes
  // after the report ID, finds the struct member of the same usage.

  /** The struct is the report ID byte followed by the 72 declared bits. */
  lemma ReportSizeMatchesDescriptor()
    ensures AfterEnd.bits[InputReport] % 8 == 0 && HidReportSize == 1 + AfterEnd.bits[InputReport] / 8
  {
  }

  /** Button n+1 (usages 1..16 of the Button page) is bit n of `buttons`. */
  lemma ButtonsMatchDescriptor(r: HidReport, i: nat)
    requires i < 16
    ensures (FieldValue(HidReportBytes(r)[1..], ButtonsInput, i) == 1) == TestBit(r.buttons, i)
  {
    var d := HidReportBytes(r)[1..];
    assert Pow2(8) == 0x100;
    ReadBit(d, i);
    if i < 8 {
      ModPow2Bit(r.buttons, 8, i);
    } else {
      ShrDiv(r.buttons, 8);
      ShrBit(r.buttons, 8, i - 8);
    }
  }

  /** X and Y are the left stick. */
  lemma LeftStickMatchesDescriptor(r: HidReport)
    ensures var d := HidReportBytes(r)[1..];
      FieldValue(d, LeftStickInput, 0) == r.leftStickX && FieldValue(d, LeftStickInput, 1) == r.leftStickY
  {
    var d := HidReportBytes(r)[1..];
    ByteValue(d, 2);
    ByteValue(d, 3);
  }

  /** Rx and Ry are the right stick. */
  lemma RightStickMatchesDescriptor(r: HidReport)
    ensures var d := HidReportBytes(r)[1..];
      FieldValue(d, RightStickInput, 0) == r.rightStickX && FieldValue(d, RightStickInput, 1) == r.rightStickY
  {
    var d := HidReportBytes(r)[1..];
    ByteValue(d, 4);
    ByteValue(d, 5);
  }

  /** Z and Rz are the left and right triggers, the hat switch the low four bits of `hatSwitch`. */
  lemma TriggersAndHatMatchDescriptor(r: HidReport)
    ensures var d := HidReportBytes(r)[1..];
      FieldValue(d, TriggersInput, 0) == r.leftTrigger && FieldValue(d, TriggersInput, 1) == r.rightTrigger
      && FieldValue(d, HatInput, 0) == r.hatSwitch % 16
  {
    var d := HidReportBytes(r)[1..];
    ByteValue(d, 6);
    ByteValue(d, 7);
    ReadLowBits(d, 8, 4);
    assert Pow2(4) == 16;
  }

  /**
   * The hat switch: logical range 0..7 with the Null State flag (bit 6 of
   * the Input item, HID 1.11 section 6.2.2.5), so the neutral value 8 is
   * read as "no direction"; physical range 0..315 degrees; followed by four
   * constant bits that end the report on a byte boundary.
   */
  lemma HatSwitchNull()
    ensures TestBit(HatInput.flags, 6) && HatInput.globals.logicalMin == 0 && HatInput.globals.logicalMax == 7
    ensures HatNull > HatInput.globals.logicalMax && HatNull < Pow2(HatInput.globals.reportSize)
    ensures HatInput.globals.physicalMin == 0 && HatInput.globals.physicalMax == 315
    ensures TestBit(PaddingInput.flags, 0) && PaddingInput.bitOffset == HatInput.bitOffset + 4
    ensures (PaddingInput.bitOffset + PaddingInput.globals.reportSize * PaddingInput.globals.reportCount) % 8 == 0
  {
  }
}
