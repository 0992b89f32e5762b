// The report descriptor the USB driver hands to the HID stack
// (kBigbenHIDReportDescriptor of BigbenControllerDriver/Sources/BigbenUSBDriver.cpp):
// input report 1 with sticks, triggers, hat and 13 buttons, output report 2 with
// four LEDs and a rumble effect, and how a host would read the raw report the
// driver forwards under it.

module UsbReportDescriptor {
  import opened CTypes
  import opened HidItems
  import opened HidReportDescriptor
  import BigbenProtocol

  const LedPage := 0x08
  const PhysicalInterfacePage := 0x0F
  const SetEffectReport := 0x21
  const DcEnableActuators := 0x97
  const Magnitude := 0x70

  // The groups of the array that the virtual device's descriptor does not share.
  // Shared groups (Application, ReportIdOne, LeftStickUsage, StickLogical, HatUsage,
  // HatPhysical, HatField, ButtonLogical, End) are reused from it.

  /** Usage (Rx), Usage (Ry) */
  const RightStickUsage := Group([0x09, 0x33, 0x09, 0x34], [Item(LocalItem, 0, 1, 0x33), Item(LocalItem, 0, 1, 0x34)])

  lemma RightStickUsageEncoding()
    ensures Encodes(RightStickUsage.items, RightStickUsage.bytes)
  {
  }

  lemma {:induction false} RightStickUsageGroup(s: Walker)
    ensures Walk(s, RightStickUsage.items)
      == Some(s.(locals := s.locals.(usages := s.locals.usages + [UsageRx] + [UsageRy])))
  {
    var it := RightStickUsage.items;
    var s1 := s.(locals := s.locals.(usages := s.locals.usages + [UsageRx]));
    WalkCons(s, it, s1);
    WalkCons(s1, it[1..], s1.(locals := s1.locals.(usages := s1.locals.usages + [UsageRy])));
  }

  /** Report Size (8), Report Count (4), Input (Data, Variable, Absolute) */
  const SticksField := Group([0x75, 0x08, 0x95, 0x04, 0x81, 0x02],
    [Item(GlobalItem, 7, 1, 8), Item(GlobalItem, 9, 1, 4), Item(MainItem, 8, 1, 0x02)])

  lemma SticksFieldEncoding()
    ensures Encodes(SticksField.items, SticksField.bytes)
  {
  }

  lemma {:induction false} SticksFieldGroup(s: Walker)
    ensures Walk(s, SticksField.items)
      == Some(Declare(s.(globals := s.globals.(reportSize := 8, reportCount := 4)), Input, DataVariable))
  {
    var it := SticksField.items;
    var s1 := s.(globals := s.globals.(reportSize := 8));
    var s2 := s1.(globals := s1.globals.(reportCount := 4));
    WalkCons(s, it, s1);
    WalkCons(s1, it[1..], s2);
    WalkCons(s2, it[2..], Declare(s2, Input, DataVariable));
  }

  /** Usage (Z), Usage (Rz), Report Count (2) */
  const TriggerUsage := Group([0x09, 0x32, 0x09, 0x35, 0x95, 0x02],
    [Item(LocalItem, 0, 1, 0x32), Item(LocalItem, 0, 1, 0x35), Item(GlobalItem, 9, 1, 2)])

  lemma TriggerUsageEncoding()
    ensures Encodes(TriggerUsage.items, TriggerUsage.bytes)
  {
  }

  lemma {:induction false} TriggerUsageGroup(s: Walker)
    ensures Walk(s, TriggerUsage.items)
      == Some(s.(locals := s.locals.(usages := s.locals.usages + [UsageZ] + [UsageRz]),
                 globals := s.globals.(reportCount := 2)))
  {
    var it := TriggerUsage.items;
    var s1 := s.(locals := s.locals.(usages := s.locals.usages + [UsageZ]));
    var s2 := s1.(locals := s1.locals.(usages := s1.locals.usages + [UsageRz]));
    WalkCons(s, it, s1);
    WalkCons(s1, it[1..], s2);
    WalkCons(s2, it[2..], s2.(globals := s2.globals.(reportCount := 2)));
  }

  /** Input (Data, Variable, Absolute), inheriting Report Size 8 */
  const TriggerField := Group([0x81, 0x02], [Item(MainItem, 8, 1, 0x02)])

  lemma TriggerFieldEncoding()
    ensures Encodes(TriggerField.items, TriggerField.bytes)
  {
  }

  lemma {:induction false} TriggerFieldGroup(s: Walker)
    ensures Walk(s, TriggerField.items) == Some(Declare(s, Input, DataVariable))
  {
    WalkCons(s, TriggerField.items, Declare(s, Input, DataVariable));
  }

  /** Report Size (4), Report Count (1), Input (Constant) */
  const HatPadding := Group([0x75, 0x04, 0x95, 0x01, 0x81, 0x01],
    [Item(GlobalItem, 7, 1, 4), Item(GlobalItem, 9, 1, 1), Item(MainItem, 8, 1, 0x01)])

  lemma HatPaddingEncoding()
    ensures Encodes(HatPadding.items, HatPadding.bytes)
  {
  }

  lemma {:induction false} HatPaddingGroup(s: Walker)
    ensures Walk(s, HatPadding.items)
      == Some(Declare(s.(globals := s.globals.(reportSize := 4, reportCount := 1)), Input, Constant))
  {
    var it := HatPadding.items;
    var s1 := s.(globals := s.globals.(reportSize := 4));
    var s2 := s1.(globals := s1.globals.(reportCount := 1));
    WalkCons(s, it, s1);
    WalkCons(s1, it[1..], s2);
    WalkCons(s2, it[2..], Declare(s2, Input, Constant));
  }

  /** Usage Page (Button), Usage Minimum (1), Usage Maximum (13) */
  const ButtonUsage13 := Group([0x05, 0x09, 0x19, 0x01, 0x29, 0x0D],
    [Item(GlobalItem, 0, 1, 0x09), Item(LocalItem, 1, 1, 1), Item(LocalItem, 2, 1, 13)])

  lemma ButtonUsage13Encoding()
    ensures Encodes(ButtonUsage13.items, ButtonUsage13.bytes)
  {
  }

  lemma {:induction false} ButtonUsage13Group(s: Walker)
    ensures Walk(s, ButtonUsage13.items)
      == Some(s.(globals := s.globals.(usagePage := ButtonPage),
                 locals := s.locals.(usageMin := Some(1), usageMax := Some(13))))
  {
    var it := ButtonUsage13.items;
    var s1 := s.(globals := s.globals.(usagePage := ButtonPage));
    var s2 := s1.(locals := s1.locals.(usageMin := Some(1)));
    WalkCons(s, it, s1);
    WalkCons(s1, it[1..], s2);
    WalkCons(s2, it[2..], s2.(locals := s2.locals.(usageMax := Some(13))));
  }

  /** Report Size (1), Report Count (13), Input (Data, Variable, Absolute) */
  const ButtonField13 := Group([0x75, 0x01, 0x95, 0x0D, 0x81, 0x02],
    [Item(GlobalItem, 7, 1, 1), Item(GlobalItem, 9, 1, 13), Item(MainItem, 8, 1, 0x02)])

  lemma ButtonField13Encoding()
    ensures Encodes(ButtonField13.items, ButtonField13.bytes)
  {
  }

  lemma {:induction false} ButtonField13Group(s: Walker)
    ensures Walk(s, ButtonField13.items)
      == Some(Declare(s.(globals := s.globals.(reportSize := 1, reportCount := 13)), Input, DataVariable))
  {
    var it := ButtonField13.items;
    var s1 := s.(globals := s.globals.(reportSize := 1));
    var s2 := s1.(globals := s1.globals.(reportCount := 13));
    WalkCons(s, it, s1);
    WalkCons(s1, it[1..], s2);
    WalkCons(s2, it[2..], Declare(s2, Input, DataVariable));
  }

  /** Report Size (1), Report Count (3), Input (Constant) */
  const ButtonPadding := Group([0x75, 0x01, 0x95, 0x03, 0x81, 0x01],
    [Item(GlobalItem, 7, 1, 1), Item(GlobalItem, 9, 1, 3), Item(MainItem, 8, 1, 0x01)])

  lemma ButtonPaddingEncoding()
    ensures Encodes(ButtonPadding.items, ButtonPadding.bytes)
  {
  }

  lemma {:induction false} ButtonPaddingGroup(s: Walker)
    ensures Walk(s, ButtonPadding.items)
      == Some(Declare(s.(globals := s.globals.(reportSize := 1, reportCount := 3)), Input, Constant))
  {
    var it := ButtonPadding.items;
    var s1 := s.(globals := s.globals.(reportSize := 1));
    var s2 := s1.(globals := s1.globals.(reportCount := 3));
    WalkCons(s, it, s1);
    WalkCons(s1, it[1..], s2);
    WalkCons(s2, it[2..], Declare(s2, Input, Constant));
  }

  /** Report ID (2), Usage Page (LEDs), Usage Minimum (1) */
  const OutputHeader := Group([0x85, 0x02, 0x05, 0x08, 0x19, 0x01],
    [Item(GlobalItem, 8, 1, 2), Item(GlobalItem, 0, 1, 0x08), Item(LocalItem, 1, 1, 1)])

  lemma OutputHeaderEncoding()
    ensures Encodes(OutputHeader.items, OutputHeader.bytes)
  {
  }

  lemma {:induction false} OutputHeaderGroup(s: Walker)
    ensures Walk(s, OutputHeader.items)
      == Some(s.(globals := s.globals.(reportId := 2, usagePage := LedPage),
                 locals := s.locals.(usageMin := Some(1))))
  {
    var it := OutputHeader.items;
    var s1 := s.(globals := s.globals.(reportId := 2));
    var s2 := s1.(globals := s1.globals.(usagePage := LedPage));
    WalkCons(s, it, s1);
    WalkCons(s1, it[1..], s2);
    WalkCons(s2, it[2..], s2.(locals := s2.locals.(usageMin := Some(1))));
  }

  /** Usage Maximum (4), Report Count (4), Report Size (1) */
  const LedCount := Group([0x29, 0x04, 0x95, 0x04, 0x75, 0x01],
    [Item(LocalItem, 2, 1, 4), Item(GlobalItem, 9, 1, 4), Item(GlobalItem, 7, 1, 1)])

  lemma LedCountEncoding()
    ensures Encodes(LedCount.items, LedCount.bytes)
  {
  }

  lemma {:induction false} LedCountGroup(s: Walker)
    ensures Walk(s, LedCount.items)
      == Some(s.(locals := s.locals.(usageMax := Some(4)),
                 globals := s.globals.(reportCount := 4, reportSize := 1)))
  {
    var it := LedCount.items;
    var s1 := s.(locals := s.locals.(usageMax := Some(4)));
    var s2 := s1.(globals := s1.globals.(reportCount := 4));
    WalkCons(s, it, s1);
    WalkCons(s1, it[1..], s2);
    WalkCons(s2, it[2..], s2.(globals := s2.globals.(reportSize := 1)));
  }

  /** Output (Data, Variable, Absolute), Report Count (4), Output (Constant) */
  const LedField := Group([0x91, 0x02, 0x95, 0x04, 0x91, 0x01],
    [Item(MainItem, 9, 1, 0x02), Item(GlobalItem, 9, 1, 4), Item(MainItem, 9, 1, 0x01)])

  lemma LedFieldEncoding()
    ensures Encodes(LedField.items, LedField.bytes)
  {
  }

  lemma {:induction false} LedFieldGroup(s: Walker)
    ensures var s1 := Declare(s, Output, DataVariable);
      Walk(s, LedField.items) == Some(Declare(s1.(globals := s1.globals.(reportCount := 4)), Output, Constant))
  {
    var it := LedField.items;
    var s1 := Declare(s, Output, DataVariable);
    var s2 := s1.(globals := s1.globals.(reportCount := 4));
    WalkCons(s, it, s1);
    WalkCons(s1, it[1..], s2);
    WalkCons(s2, it[2..], Declare(s2, Output, Constant));
  }

  /** Usage Page (Physical Interface Device), Usage (Set Effect Report), Collection (Logical) */
  const EffectCollection := Group([0x05, 0x0F, 0x09, 0x21, 0xA1, 0x02],
    [Item(GlobalItem, 0, 1, 0x0F), Item(LocalItem, 0, 1, 0x21), Item(MainItem, 10, 1, 0x02)])

  lemma EffectCollectionEncoding()
    ensures Encodes(EffectCollection.items, EffectCollection.bytes)
  {
  }

  lemma {:induction false} EffectCollectionGroup(s: Walker)
    ensures Walk(s, EffectCollection.items)
      == Some(Open(s.(globals := s.globals.(usagePage := PhysicalInterfacePage),
                      locals := s.locals.(usages := s.locals.usages + [SetEffectReport])), Logical))
  {
    var it := EffectCollection.items;
    var s1 := s.(globals := s.globals.(usagePage := PhysicalInterfacePage));
    var s2 := s1.(locals := s1.locals.(usages := s1.locals.usages + [SetEffectReport]));
    WalkCons(s, it, s1);
    WalkCons(s1, it[1..], s2);
    WalkCons(s2, it[2..], Open(s2, Logical));
  }

  /** Usage (DC Enable Actuators), Logical Minimum (0), Logical Maximum (1) */
  const ActuatorUsage := Group([0x09, 0x97, 0x15, 0x00, 0x25, 0x01],
    [Item(LocalItem, 0, 1, 0x97), Item(GlobalItem, 1, 1, 0), Item(GlobalItem, 2, 1, 1)])

  lemma ActuatorUsageEncoding()
    ensures Encodes(ActuatorUsage.items, ActuatorUsage.bytes)
  {
  }

  lemma {:induction false} ActuatorUsageGroup(s: Walker)
    ensures Walk(s, ActuatorUsage.items)
      == Some(s.(locals := s.locals.(usages := s.locals.usages + [DcEnableActuators]),
                 globals := s.globals.(logicalMin := 0, logicalMax := 1)))
  {
    var it := ActuatorUsage.items;
    var s1 := s.(locals := s.locals.(usages := s.locals.usages + [DcEnableActuators]));
    var s2 := s1.(globals := s1.globals.(logicalMin := 0));
    WalkCons(s, it, s1);
    WalkCons(s1, it[1..], s2);
    WalkCons(s2, it[2..], s2.(globals := s2.globals.(logicalMax := 1)));
  }

  /** Report Size (1), Report Count (1), Output (Data, Variable, Absolute) */
  const ActuatorField := Group([0x75, 0x01, 0x95, 0x01, 0x91, 0x02],
    [Item(GlobalItem, 7, 1, 1), Item(GlobalItem, 9, 1, 1), Item(MainItem, 9, 1, 0x02)])

  lemma ActuatorFieldEncoding()
    ensures Encodes(ActuatorField.items, ActuatorField.bytes)
  {
  }

  lemma {:induction false} ActuatorFieldGroup(s: Walker)
    ensures Walk(s, ActuatorField.items)
      == Some(Declare(s.(globals := s.globals.(reportSize := 1, reportCount := 1)), Output, DataVariable))
  {
    var it := ActuatorField.items;
    var s1 := s.(globals := s.globals.(reportSize := 1));
    var s2 := s1.(globals := s1.globals.(reportCount := 1));
    WalkCons(s, it, s1);
    WalkCons(s1, it[1..], s2);
    WalkCons(s2, it[2..], Declare(s2, Output, DataVariable));
  }

  /** Report Count (7), Output (Constant) */
  const ActuatorPadding := Group([0x95, 0x07, 0x91, 0x01], [Item(GlobalItem, 9, 1, 7), Item(MainItem, 9, 1, 0x01)])

  lemma ActuatorPaddingEncoding()
    ensures Encodes(ActuatorPadding.items, ActuatorPadding.bytes)
  {
  }

  lemma {:induction false} ActuatorPaddingGroup(s: Walker)
    ensures Walk(s, ActuatorPadding.items)
      == Some(Declare(s.(globals := s.globals.(reportCount := 7)), Output, Constant))
  {
    var it := ActuatorPadding.items;
    var s1 := s.(globals := s.globals.(reportCount := 7));
    WalkCons(s, it, s1);
    WalkCons(s1, it[1..], Declare(s1, Output, Constant));
  }

  /** Usage (Magnitude), Logical Maximum (255), Report Size (8) */
  const MagnitudeUsage := Group([0x09, 0x70, 0x26, 0xFF, 0x00, 0x75, 0x08],
    [Item(LocalItem, 0, 1, 0x70), Item(GlobalItem, 2, 2, 255), Item(GlobalItem, 7, 1, 8)])

  lemma MagnitudeUsageEncoding()
    ensures Encodes(MagnitudeUsage.items, MagnitudeUsage.bytes)
  {
  }

  lemma {:induction false} MagnitudeUsageGroup(s: Walker)
    ensures Walk(s, MagnitudeUsage.items)
      == Some(s.(locals := s.locals.(usages := s.locals.usages + [Magnitude]),
                 globals := s.globals.(logicalMax := 255, reportSize := 8)))
  {
    var it := MagnitudeUsage.items;
    var s1 := s.(locals := s.locals.(usages := s.locals.usages + [Magnitude]));
    var s2 := s1.(globals := s1.globals.(logicalMax := 255));
    WalkCons(s, it, s1);
    WalkCons(s1, it[1..], s2);
    WalkCons(s2, it[2..], s2.(globals := s2.globals.(reportSize := 8)));
  }

  /** Report Count (1), Output (Data, Variable, Absolute): the strong motor */
  const StrongField := Group([0x95, 0x01, 0x91, 0x02], [Item(GlobalItem, 9, 1, 1), Item(MainItem, 9, 1, 0x02)])

  lemma StrongFieldEncoding()
    ensures Encodes(StrongField.items, StrongField.bytes)
  {
  }

  lemma {:induction false} StrongFieldGroup(s: Walker)
    ensures Walk(s, StrongField.items)
      == Some(Declare(s.(globals := s.globals.(reportCount := 1)), Output, DataVariable))
  {
    var it := StrongField.items;
    var s1 := s.(globals := s.globals.(reportCount := 1));
    WalkCons(s, it, s1);
    WalkCons(s1, it[1..], Declare(s1, Output, DataVariable));
  }

  /** Usage (Magnitude), Output (Data, Variable, Absolute): the weak motor */
  const WeakField := Group([0x09, 0x70, 0x91, 0x02], [Item(LocalItem, 0, 1, 0x70), Item(MainItem, 9, 1, 0x02)])

  lemma WeakFieldEncoding()
    ensures Encodes(WeakField.items, WeakField.bytes)
  {
  }

  lemma {:induction false} WeakFieldGroup(s: Walker)
    ensures Walk(s, WeakField.items)
      == Some(Declare(s.(locals := s.locals.(usages := s.locals.usages + [Magnitude])), Output, DataVariable))
  {
    var it := WeakField.items;
    var s1 := s.(locals := s.locals.(usages := s.locals.usages + [Magnitude]));
    WalkCons(s, it, s1);
    WalkCons(s1, it[1..], Declare(s1, Output, DataVariable));
  }

  /** The array is 141 bytes of short items and splits into exactly the items above. */
  lemma UsbDescriptorParses()
    ensures |UsbDescriptor| == 141
    ensures Encodes(UsbDescriptorItems, UsbDescriptor)
    ensures ParseItems(UsbDescriptor) == Some(UsbDescriptorItems)
  {
    UsbHeadEncoding();
    UsbTailEncoding();
    EncodesAppend(UsbHeadItems, UsbHead, UsbTailItems, UsbTail);
    AnalyseEncoding(UsbDescriptorItems, UsbDescriptor);
  }

  /** The driver's kBigbenHIDReportDescriptor: the input part, then the output part. */
  const UsbDescriptor: seq<byte> := UsbHead + UsbTail

  const UsbDescriptorItems: seq<Item> := UsbHeadItems + UsbTailItems

  // The groups in the order of the array.

  const UsbHead: seq<byte> := SticksAndTriggers + HatAndButtons

  const UsbHeadItems: seq<Item> := SticksAndTriggersItems + HatAndButtonsItems

  /** The collection header, the four stick bytes and the two trigger bytes. */
  const SticksAndTriggers: seq<byte> :=
    HidReportDescriptor.Application.bytes + ReportIdOne.bytes + LeftStickUsage.bytes + RightStickUsage.bytes +
    StickLogical.bytes + SticksField.bytes + TriggerUsage.bytes + TriggerField.bytes

  const SticksAndTriggersItems: seq<Item> :=
    HidReportDescriptor.Application.items + ReportIdOne.items + LeftStickUsage.items + RightStickUsage.items +
    StickLogical.items + SticksField.items + TriggerUsage.items + TriggerField.items

  /** The rest of input report 1: the hat switch, the buttons and their padding. */
  const HatAndButtons: seq<byte> :=
    HatUsage.bytes + HatPhysical.bytes + HatField.bytes + HatPadding.bytes +
    ButtonUsage13.bytes + ButtonLogical.bytes + ButtonField13.bytes + ButtonPadding.bytes

  const HatAndButtonsItems: seq<Item> :=
    HatUsage.items + HatPhysical.items + HatField.items + HatPadding.items +
    ButtonUsage13.items + ButtonLogical.items + ButtonField13.items + ButtonPadding.items

  const UsbTail: seq<byte> :=
    OutputHeader.bytes + LedCount.bytes + LedField.bytes +
    EffectCollection.bytes + ActuatorUsage.bytes + ActuatorField.bytes +
    ActuatorPadding.bytes + MagnitudeUsage.bytes + StrongField.bytes +
    WeakField.bytes + End.bytes + End.bytes

  const UsbTailItems: seq<Item> :=
    OutputHeader.items + LedCount.items + LedField.items +
    EffectCollection.items + ActuatorUsage.items + ActuatorField.items +
    ActuatorPadding.items + MagnitudeUsage.items + StrongField.items +
    WeakField.items + End.items + End.items

  lemma UsbHeadEncoding()
    ensures Encodes(UsbHeadItems, UsbHead)
  {
    SticksAndTriggersEncoding();
    HatAndButtonsEncoding();
    EncodesAppend(SticksAndTriggersItems, SticksAndTriggers, HatAndButtonsItems, HatAndButtons);
  }

  lemma SticksAndTriggersEncoding()
    ensures Encodes(SticksAndTriggersItems, SticksAndTriggers)
  {
    ApplicationEncoding();
    var items, bytes := HidReportDescriptor.Application.items, HidReportDescriptor.Application.bytes;
    ReportIdEncoding();
    EncodesAppend(items, bytes, ReportIdOne.items, ReportIdOne.bytes);
    items, bytes := items + ReportIdOne.items, bytes + ReportIdOne.bytes;
    LeftStickUsageEncoding();
    EncodesAppend(items, bytes, LeftStickUsage.items, LeftStickUsage.bytes);
    items, bytes := items + LeftStickUsage.items, bytes + LeftStickUsage.bytes;
    RightStickUsageEncoding();
    EncodesAppend(items, bytes, RightStickUsage.items, RightStickUsage.bytes);
    items, bytes := items + RightStickUsage.items, bytes + RightStickUsage.bytes;
    StickLogicalEncoding();
    EncodesAppend(items, bytes, StickLogical.items, StickLogical.bytes);
    items, bytes := items + StickLogical.items, bytes + StickLogical.bytes;
    SticksFieldEncoding();
    EncodesAppend(items, bytes, SticksField.items, SticksField.bytes);
    items, bytes := items + SticksField.items, bytes + SticksField.bytes;
    TriggerUsageEncoding();
    EncodesAppend(items, bytes, TriggerUsage.items, TriggerUsage.bytes);
    items, bytes := items + TriggerUsage.items, bytes + TriggerUsage.bytes;
    TriggerFieldEncoding();
    EncodesAppend(items, bytes, TriggerField.items, TriggerField.bytes);
  }

  lemma HatAndButtonsEncoding()
    ensures Encodes(HatAndButtonsItems, HatAndButtons)
  {
    HatUsageEncoding();
    var items, bytes := HatUsage.items, HatUsage.bytes;
    HatPhysicalEncoding();
    EncodesAppend(items, bytes, HatPhysical.items, HatPhysical.bytes);
    items, bytes := items + HatPhysical.items, bytes + HatPhysical.bytes;
    HatFieldEncoding();
    EncodesAppend(items, bytes, HatField.items, HatField.bytes);
    items, bytes := items + HatField.items, bytes + HatField.bytes;
    HatPaddingEncoding();
    EncodesAppend(items, bytes, HatPadding.items, HatPadding.bytes);
    items, bytes := items + HatPadding.items, bytes + HatPadding.bytes;
    ButtonUsage13Encoding();
    EncodesAppend(items, bytes, ButtonUsage13.items, ButtonUsage13.bytes);
    items, bytes := items + ButtonUsage13.items, bytes + ButtonUsage13.bytes;
    ButtonLogicalEncoding();
    EncodesAppend(items, bytes, ButtonLogical.items, ButtonLogical.bytes);
    items, bytes := items + ButtonLogical.items, bytes + ButtonLogical.bytes;
    ButtonField13Encoding();
    EncodesAppend(items, bytes, ButtonField13.items, ButtonField13.bytes);
    items, bytes := items + ButtonField13.items, bytes + ButtonField13.bytes;
    ButtonPaddingEncoding();
    EncodesAppend(items, bytes, ButtonPadding.items, ButtonPadding.bytes);
  }

  lemma UsbTailEncoding()
    ensures Encodes(UsbTailItems, UsbTail)
  {
    OutputHeaderEncoding();
    var items, bytes := OutputHeader.items, OutputHeader.bytes;
    LedCountEncoding();
    EncodesAppend(items, bytes, LedCount.items, LedCount.bytes);
    items, bytes := items + LedCount.items, bytes + LedCount.bytes;
    LedFieldEncoding();
    EncodesAppend(items, bytes, LedField.items, LedField.bytes);
    items, bytes := items + LedField.items, bytes + LedField.bytes;
    EffectCollectionEncoding();
    EncodesAppend(items, bytes, EffectCollection.items, EffectCollection.bytes);
    items, bytes := items + EffectCollection.items, bytes + EffectCollection.bytes;
    ActuatorUsageEncoding();
    EncodesAppend(items, bytes, ActuatorUsage.items, ActuatorUsage.bytes);
    items, bytes := items + ActuatorUsage.items, bytes + ActuatorUsage.bytes;
    ActuatorFieldEncoding();
    EncodesAppend(items, bytes, ActuatorField.items, ActuatorField.bytes);
    items, bytes := items + ActuatorField.items, bytes + ActuatorField.bytes;
    ActuatorPaddingEncoding();
    EncodesAppend(items, bytes, ActuatorPadding.items, ActuatorPadding.bytes);
    items, bytes := items + ActuatorPadding.items, bytes + ActuatorPadding.bytes;
    MagnitudeUsageEncoding();
    EncodesAppend(items, bytes, MagnitudeUsage.items, MagnitudeUsage.bytes);
    items, bytes := items + MagnitudeUsage.items, bytes + MagnitudeUsage.bytes;
    StrongFieldEncoding();
    EncodesAppend(items, bytes, StrongField.items, StrongField.bytes);
    items, bytes := items + StrongField.items, bytes + StrongField.bytes;
    WeakFieldEncoding();
    EncodesAppend(items, bytes, WeakField.items, WeakField.bytes);
    items, bytes := items + WeakField.items, bytes + WeakField.bytes;
    EndEncoding();
    EncodesAppend(items, bytes, End.items, End.bytes);
    items, bytes := items + End.items, bytes + End.bytes;
    EncodesAppend(items, bytes, End.items, End.bytes);
  }

  // The item state after each block of the array.

  /** The global state, the nesting depth, the collections and the bit totals are as given;
    * no local state is pending and nothing is pushed. */
  predicate At(w: Walker, g: Globals, depth: nat, collections: seq<Collection>, bits: map<ReportKey, nat>)
  {
    w.globals == g && w.stack == [] && w.locals == NoLocals && w.depth == depth
    && w.collections == collections && w.bits == bits
  }

  const OutputReport := ReportKey(Output, 2)

  const EffectCollectionEntry := Collection(Logical, 1, PhysicalInterfacePage, [SetEffectReport])

  const HeaderGlobals := NoGlobals.(usagePage := GenericDesktopPage, reportId := 1)
  const SticksGlobals := Globals(GenericDesktopPage, 0, 255, 0, 0, 0, 0, 8, 1, 4)
  const TriggerGlobals := Globals(GenericDesktopPage, 0, 255, 0, 0, 0, 0, 8, 1, 2)
  const ButtonPadGlobals := Globals(ButtonPage, 0, 1, 0, 315, 0, Degrees, 1, 1, 3)
  const LedGlobals := Globals(LedPage, 0, 1, 0, 315, 0, Degrees, 1, 2, 4)
  const ActuatorGlobals := Globals(PhysicalInterfacePage, 0, 1, 0, 315, 0, Degrees, 1, 2, 1)
  const MagnitudeGlobals := Globals(PhysicalInterfacePage, 0, 255, 0, 315, 0, Degrees, 8, 2, 1)

  /** The first input field: four 8-bit values X, Y, Rx, Ry at bit 0 of report 1. */
  const SticksInput := Field(Input, DataVariable, 0, SticksGlobals, Locals([UsageX, UsageY, UsageRx, UsageRy], None, None))

  /** The second input field: two 8-bit values Z, Rz at bit 32 of report 1. */
  const TriggersInput2 := Field(Input, DataVariable, 32, TriggerGlobals, Locals([UsageZ, UsageRz], None, None))

  lemma SticksBlock(st: Walker, prefix: seq<Item>, w0: Walker) returns (w1: Walker)
    requires Walk(st, prefix) == Some(w0) && At(w0, HeaderGlobals, 1, [GamePadCollection], map[])
    ensures Walk(st, prefix + LeftStickUsage.items + RightStickUsage.items + StickLogical.items + SticksField.items) == Some(w1)
    ensures At(w1, SticksGlobals, 1, [GamePadCollection], map[InputReport := 32])
    ensures w1.fields == w0.fields + [SticksInput]
  {
    var items, w := prefix, w0;
    WalkThen(st, items, LeftStickUsage.items, w);
    LeftStickUsageGroup(w);
    items, w := items + LeftStickUsage.items, Walk(w, LeftStickUsage.items).value;
    WalkThen(st, items, RightStickUsage.items, w);
    RightStickUsageGroup(w);
    items, w := items + RightStickUsage.items, Walk(w, RightStickUsage.items).value;
    WalkThen(st, items, StickLogical.items, w);
    StickLogicalGroup(w);
    items, w := items + StickLogical.items, Walk(w, StickLogical.items).value;
    assert w.locals.usages == [UsageX, UsageY, UsageRx, UsageRy] && ReportBits(w, InputReport) == 0;
    WalkThen(st, items, SticksField.items, w);
    SticksFieldGroup(w);
    items, w := items + SticksField.items, Walk(w, SticksField.items).value;
    w1 := w;
  }

  lemma TriggersBlock(st: Walker, prefix: seq<Item>, w0: Walker) returns (w1: Walker)
    requires Walk(st, prefix) == Some(w0) && At(w0, SticksGlobals, 1, [GamePadCollection], map[InputReport := 32])
    ensures Walk(st, prefix + TriggerUsage.items + TriggerField.items) == Some(w1)
    ensures At(w1, TriggerGlobals, 1, [GamePadCollection], map[InputReport := 48])
    ensures w1.fields == w0.fields + [TriggersInput2]
  {
    var items, w := prefix, w0;
    WalkThen(st, items, TriggerUsage.items, w);
    TriggerUsageGroup(w);
    items, w := items + TriggerUsage.items, Walk(w, TriggerUsage.items).value;
    assert w.locals.usages == [UsageZ, UsageRz] && ReportBits(w, InputReport) == 32;
    WalkThen(st, items, TriggerField.items, w);
    TriggerFieldGroup(w);
    items, w := items + TriggerField.items, Walk(w, TriggerField.items).value;
    assert w.bits == map[InputReport := 48];
    w1 := w;
  }

  lemma HatBlock2(st: Walker, prefix: seq<Item>, w0: Walker) returns (w1: Walker)
    requires Walk(st, prefix) == Some(w0) && At(w0, TriggerGlobals, 1, [GamePadCollection], map[InputReport := 48])
    ensures Walk(st, prefix + HatUsage.items + HatPhysical.items + HatField.items) == Some(w1)
    ensures At(w1, HatGlobals, 1, [GamePadCollection], map[InputReport := 52])
  {
    var items, w := prefix, w0;
    WalkThen(st, items, HatUsage.items, w);
    HatUsageGroup(w);
    items, w := items + HatUsage.items, Walk(w, HatUsage.items).value;
    WalkThen(st, items, HatPhysical.items, w);
    HatPhysicalGroup(w);
    items, w := items + HatPhysical.items, Walk(w, HatPhysical.items).value;
    assert ReportBits(w, InputReport) == 48;
    WalkThen(st, items, HatField.items, w);
    HatFieldGroup(w);
    items, w := items + HatField.items, Walk(w, HatField.items).value;
    assert w.bits == map[InputReport := 52];
    w1 := w;
  }

  lemma HatPaddingBlock(st: Walker, prefix: seq<Item>, w0: Walker) returns (w1: Walker)
    requires Walk(st, prefix) == Some(w0) && At(w0, HatGlobals, 1, [GamePadCollection], map[InputReport := 52])
    ensures Walk(st, prefix + HatPadding.items) == Some(w1)
    ensures At(w1, HatGlobals, 1, [GamePadCollection], map[InputReport := 56])
  {
    WalkThen(st, prefix, HatPadding.items, w0);
    HatPaddingGroup(w0);
    w1 := Walk(w0, HatPadding.items).value;
    assert w1.bits == map[InputReport := 56];
  }

  lemma ButtonsBlock(st: Walker, prefix: seq<Item>, w0: Walker) returns (w1: Walker)
    requires Walk(st, prefix) == Some(w0) && At(w0, HatGlobals, 1, [GamePadCollection], map[InputReport := 56])
    ensures Walk(st, prefix + ButtonUsage13.items + ButtonLogical.items + ButtonField13.items + ButtonPadding.items) == Some(w1)
    ensures At(w1, ButtonPadGlobals, 1, [GamePadCollection], map[InputReport := 72])
  {
    var items, w := prefix, w0;
    WalkThen(st, items, ButtonUsage13.items, w);
    ButtonUsage13Group(w);
    items, w := items + ButtonUsage13.items, Walk(w, ButtonUsage13.items).value;
    WalkThen(st, items, ButtonLogical.items, w);
    ButtonLogicalGroup(w);
    items, w := items + ButtonLogical.items, Walk(w, ButtonLogical.items).value;
    assert ReportBits(w, InputReport) == 56;
    WalkThen(st, items, ButtonField13.items, w);
    ButtonField13Group(w);
    items, w := items + ButtonField13.items, Walk(w, ButtonField13.items).value;
    assert w.bits == map[InputReport := 69];
    WalkThen(st, items, ButtonPadding.items, w);
    ButtonPaddingGroup(w);
    items, w := items + ButtonPadding.items, Walk(w, ButtonPadding.items).value;
    assert w.bits == map[InputReport := 72];
    w1 := w;
  }

  lemma LedsBlock(st: Walker, prefix: seq<Item>, w0: Walker) returns (w1: Walker)
    requires Walk(st, prefix) == Some(w0) && At(w0, ButtonPadGlobals, 1, [GamePadCollection], map[InputReport := 72])
    ensures Walk(st, prefix + OutputHeader.items + LedCount.items + LedField.items) == Some(w1)
    ensures At(w1, LedGlobals, 1, [GamePadCollection], map[InputReport := 72, OutputReport := 8])
  {
    var items, w := prefix, w0;
    WalkThen(st, items, OutputHeader.items, w);
    OutputHeaderGroup(w);
    items, w := items + OutputHeader.items, Walk(w, OutputHeader.items).value;
    WalkThen(st, items, LedCount.items, w);
    LedCountGroup(w);
    items, w := items + LedCount.items, Walk(w, LedCount.items).value;
    assert ReportBits(w, OutputReport) == 0;
    WalkThen(st, items, LedField.items, w);
    LedFieldGroup(w);
    items, w := items + LedField.items, Walk(w, LedField.items).value;
    assert w.bits == map[InputReport := 72, OutputReport := 8];
    w1 := w;
  }

  lemma EffectBlock(st: Walker, prefix: seq<Item>, w0: Walker) returns (w1: Walker)
    requires Walk(st, prefix) == Some(w0) && At(w0, LedGlobals, 1, [GamePadCollection], map[InputReport := 72, OutputReport := 8])
    ensures Walk(st, prefix + EffectCollection.items + ActuatorUsage.items + ActuatorField.items) == Some(w1)
    ensures At(w1, ActuatorGlobals, 2, [GamePadCollection, EffectCollectionEntry], map[InputReport := 72, OutputReport := 9])
  {
    var items, w := prefix, w0;
    WalkThen(st, items, EffectCollection.items, w);
    EffectCollectionGroup(w);
    items, w := items + EffectCollection.items, Walk(w, EffectCollection.items).value;
    assert [] + [SetEffectReport] == [SetEffectReport];
    assert w.collections == [GamePadCollection, EffectCollectionEntry];
    WalkThen(st, items, ActuatorUsage.items, w);
    ActuatorUsageGroup(w);
    items, w := items + ActuatorUsage.items, Walk(w, ActuatorUsage.items).value;
    assert ReportBits(w, OutputReport) == 8;
    WalkThen(st, items, ActuatorField.items, w);
    ActuatorFieldGroup(w);
    items, w := items + ActuatorField.items, Walk(w, ActuatorField.items).value;
    assert w.bits == map[InputReport := 72, OutputReport := 9];
    w1 := w;
  }

  lemma MotorsBlock(st: Walker, prefix: seq<Item>, w0: Walker) returns (w1: Walker)
    requires Walk(st, prefix) == Some(w0)
    requires At(w0, ActuatorGlobals, 2, [GamePadCollection, EffectCollectionEntry], map[InputReport := 72, OutputReport := 9])
    ensures Walk(st, prefix + ActuatorPadding.items + MagnitudeUsage.items + StrongField.items + WeakField.items) == Some(w1)
    ensures At(w1, MagnitudeGlobals, 2, [GamePadCollection, EffectCollectionEntry], map[InputReport := 72, OutputReport := 32])
  {
    var items, w := prefix, w0;
    WalkThen(st, items, ActuatorPadding.items, w);
    ActuatorPaddingGroup(w);
    items, w := items + ActuatorPadding.items, Walk(w, ActuatorPadding.items).value;
    assert w.bits == map[InputReport := 72, OutputReport := 16];
    WalkThen(st, items, MagnitudeUsage.items, w);
    MagnitudeUsageGroup(w);
    items, w := items + MagnitudeUsage.items, Walk(w, MagnitudeUsage.items).value;
    assert ReportBits(w, OutputReport) == 16;
    WalkThen(st, items, StrongField.items, w);
    StrongFieldGroup(w);
    items, w := items + StrongField.items, Walk(w, StrongField.items).value;
    assert w.bits == map[InputReport := 72, OutputReport := 24];
    WalkThen(st, items, WeakField.items, w);
    WeakFieldGroup(w);
    items, w := items + WeakField.items, Walk(w, WeakField.items).value;
    assert w.bits == map[InputReport := 72, OutputReport := 32];
    w1 := w;
  }

  lemma CloseBlock(st: Walker, prefix: seq<Item>, w0: Walker) returns (w1: Walker)
    requires Walk(st, prefix) == Some(w0)
    requires At(w0, MagnitudeGlobals, 2, [GamePadCollection, EffectCollectionEntry], map[InputReport := 72, OutputReport := 32])
    ensures Walk(st, prefix + End.items + End.items) == Some(w1)
    ensures At(w1, MagnitudeGlobals, 0, [GamePadCollection, EffectCollectionEntry], map[InputReport := 72, OutputReport := 32])
  {
    var items, w := prefix, w0;
    WalkThen(st, items, End.items, w);
    EndGroup(w);
    items, w := items + End.items, Walk(w, End.items).value;
    WalkThen(st, items, End.items, w);
    EndGroup(w);
    items, w := items + End.items, Walk(w, End.items).value;
    w1 := w;
  }

  lemma SticksAndTriggersLayout() returns (w: Walker)
    ensures Walk(StartWalk, SticksAndTriggersItems) == Some(w)
    ensures At(w, TriggerGlobals, 1, [GamePadCollection], map[InputReport := 48])
    ensures w.fields == [SticksInput, TriggersInput2]
  {
    HeaderBlock([]);
    assert [] + HidReportDescriptor.Application.items == HidReportDescriptor.Application.items;
    var p := HidReportDescriptor.Application.items + ReportIdOne.items;
    var w1 := SticksBlock(StartWalk, p, AfterHeader);
    p := p + LeftStickUsage.items + RightStickUsage.items + StickLogical.items + SticksField.items;
    w := TriggersBlock(StartWalk, p, w1);
  }

  lemma HatAndButtonsLayout(w0: Walker) returns (w: Walker)
    requires At(w0, TriggerGlobals, 1, [GamePadCollection], map[InputReport := 48])
    ensures Walk(w0, HatAndButtonsItems) == Some(w)
    ensures At(w, ButtonPadGlobals, 1, [GamePadCollection], map[InputReport := 72])
  {
    assert [] + HatUsage.items == HatUsage.items;
    var w1 := HatBlock2(w0, [], w0);
    var q := HatUsage.items + HatPhysical.items + HatField.items;
    w1 := HatPaddingBlock(w0, q, w1);
    q := q + HatPadding.items;
    w := ButtonsBlock(w0, q, w1);
  }

  lemma OutputLayout(w0: Walker) returns (w: Walker)
    requires At(w0, ButtonPadGlobals, 1, [GamePadCollection], map[InputReport := 72])
    ensures Walk(w0, UsbTailItems) == Some(w)
    ensures At(w, MagnitudeGlobals, 0, [GamePadCollection, EffectCollectionEntry], map[InputReport := 72, OutputReport := 32])
  {
    assert [] + OutputHeader.items == OutputHeader.items;
    var w1 := LedsBlock(w0, [], w0);
    var r := OutputHeader.items + LedCount.items + LedField.items;
    w1 := EffectBlock(w0, r, w1);
    r := r + EffectCollection.items + ActuatorUsage.items + ActuatorField.items;
    w1 := MotorsBlock(w0, r, w1);
    r := r + ActuatorPadding.items + MagnitudeUsage.items + StrongField.items + WeakField.items;
    w := CloseBlock(w0, r, w1);
  }

  /**
   * The array of the USB driver parses into balanced collections: the
   * Generic Desktop game pad application and, inside it, a logical
   * collection for the Set Effect Report. Input report 1 declares 72 bits
   * (the sticks X, Y, Rx, Ry as four bytes first, then Z and Rz), output
   * report 2 declares 32 bits, and no output bits are declared under report
   * ID 1. No other report is declared.
   */
  lemma UsbDescriptorLayout() returns (w: Walker)
    ensures Analyse(UsbDescriptor) == Some(w)
    ensures Balanced(w) && w.collections == [GamePadCollection, EffectCollectionEntry]
    ensures w.bits == map[InputReport := 72, OutputReport := 32]
    ensures ReportBits(w, ReportKey(Output, 1)) == 0
    ensures |w.fields| >= 2 && w.fields[0] == SticksInput && w.fields[1] == TriggersInput2
  {
    UsbDescriptorParses();
    var w1 := SticksAndTriggersLayout();
    var w2 := HatAndButtonsLayout(w1);
    WalkKeepsFields(w1, HatAndButtonsItems);
    WalkThen(StartWalk, SticksAndTriggersItems, HatAndButtonsItems, w1);
    w := OutputLayout(w2);
    WalkKeepsFields(w2, UsbTailItems);
    WalkThen(StartWalk, UsbHeadItems, UsbTailItems, w2);
  }

  // The driver hands the raw 64-byte controller report to the HID stack.
  // A host that reads input report 1 by this descriptor, in the bytes after
  // the report ID, finds the sticks where they are, but not the triggers.

  /** The four stick values of input report 1 are its first four data bytes. */
  lemma SticksAreBytes(d: seq<byte>)
    requires |d| >= 9
    ensures FieldValue(d, SticksInput, 0) == d[0] && FieldValue(d, SticksInput, 1) == d[1]
    ensures FieldValue(d, SticksInput, 2) == d[2] && FieldValue(d, SticksInput, 3) == d[3]
  {
    assert SticksInput.globals.reportSize == 8 && SticksInput.bitOffset == 0;
    ByteValue(d, 0);
    ByteValue(d, 1);
    ByteValue(d, 2);
    ByteValue(d, 3);
  }

  /** Z and Rz are data bytes 4 and 5. */
  lemma TriggersAreBytes(d: seq<byte>)
    requires |d| >= 9
    ensures FieldValue(d, TriggersInput2, 0) == d[4] && FieldValue(d, TriggersInput2, 1) == d[5]
  {
    assert TriggersInput2.globals.reportSize == 8 && TriggersInput2.bitOffset == 32;
    ByteValue(d, 4);
    ByteValue(d, 5);
  }

  /** X, Y, Rx and Ry are the four stick bytes of the controller report. */
  lemma ForwardedSticksMatch(r: BigbenProtocol.InputReport)
    ensures var d := BigbenProtocol.InputReportBytes(r)[1..];
      FieldValue(d, SticksInput, 0) == r.leftStickX && FieldValue(d, SticksInput, 1) == r.leftStickY
      && FieldValue(d, SticksInput, 2) == r.rightStickX && FieldValue(d, SticksInput, 3) == r.rightStickY
  {
    var d := BigbenProtocol.InputReportBytes(r)[1..];
    assert d[0] == r.leftStickX && d[1] == r.leftStickY && d[2] == r.rightStickX && d[3] == r.rightStickY;
    SticksAreBytes(d);
  }

  /** Z and Rz, declared as the triggers, read the D-pad byte and the low byte of the
    * button word. */
  lemma ForwardedTriggersMisplaced(r: BigbenProtocol.InputReport)
    ensures var d := BigbenProtocol.InputReportBytes(r)[1..];
      FieldValue(d, TriggersInput2, 0) == r.dpad && FieldValue(d, TriggersInput2, 1) == LowByte(r.buttons)
  {
    var d := BigbenProtocol.InputReportBytes(r)[1..];
    assert d[4] == r.dpad && d[5] == LowByte(r.buttons);
    TriggersAreBytes(d);
  }

  /** Every forwarded frame is 64 bytes long; the descriptor declares 1 + 72 / 8 = 10. */
  lemma ForwardedLengthDiffers(r: BigbenProtocol.InputReport)
    ensures var w := Analyse(UsbDescriptor);
      w.Some? && InputReport in w.value.bits
      && |BigbenProtocol.InputReportBytes(r)| == 64 && 1 + w.value.bits[InputReport] / 8 == 10
  {
    var w := UsbDescriptorLayout();
  }
}
