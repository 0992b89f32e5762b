// Short items of a HID report descriptor and the walk over them, following
// section 6.2.2 of the USB Device Class Definition for HID 1.11: the item
// prefix (6.2.2.2), main items (6.2.2.4-6.2.2.6), global items with their
// push/pop stack (6.2.2.7) and local items (6.2.2.8).

module HidItems {
  import opened CTypes

  /** The bType field of an item prefix. */
  datatype ItemType = MainItem | GlobalItem | LocalItem | ReservedItem

  function TypeCode(t: ItemType): (c: nat)
    ensures c < 4
  {
    match t
    case MainItem => 0
    case GlobalItem => 1
    case LocalItem => 2
    case ReservedItem => 3
  }

  function TypeOfCode(c: nat): (t: ItemType)
    requires c < 4
    ensures TypeCode(t) == c
  {
    if c == 0 then MainItem else if c == 1 then GlobalItem else if c == 2 then LocalItem else ReservedItem
  }

  /** The prefix byte that opens a long item; the walk accepts short items only. */
  const LongItemPrefix: byte := 0xFE

  /**
   * A short item: its type, its 4-bit tag, the number of data bytes that
   * follow the prefix (0, 1, 2 or 4) and those bytes read as an unsigned
   * little-endian number.
   */
  datatype Item = Item(kind: ItemType, tag: nat, size: nat, data: nat)

  /** Number of data bytes selected by the 2-bit bSize field. */
  function DataSize(code: nat): (n: nat)
    requires code < 4
    ensures n <= 4
  {
    if code == 3 then 4 else code
  }

  function SizeCode(size: nat): nat
  {
    if size == 4 then 3 else size
  }

  function Pow256(n: nat): (p: nat)
    ensures p >= 1
  {
    if n == 0 then 1 else 0x100 * Pow256(n - 1)
  }

  /** The prefix byte: bTag in the high nibble, then bType and bSize. */
  function Prefix(it: Item): byte
  {
    (16 * it.tag + 4 * TypeCode(it.kind) + SizeCode(it.size)) % 0x100
  }

  /** An item that has a short-item encoding. */
  predicate ValidItem(it: Item)
  {
    it.tag < 16 && (it.size == 0 || it.size == 1 || it.size == 2 || it.size == 4)
    && it.data < Pow256(it.size) && Prefix(it) != LongItemPrefix
  }

  /** Bytes read as an unsigned little-endian number. */
  function Unsigned(b: seq<byte>): (v: nat)
    ensures v < Pow256(|b|)
  {
    if b == [] then 0 else b[0] + 0x100 * Unsigned(b[1..])
  }

  /** The n low bytes of v, least significant first. */
  function LittleEndian(v: nat, n: nat): (b: seq<byte>)
    ensures |b| == n
  {
    if n == 0 then [] else [v % 0x100] + LittleEndian(v / 0x100, n - 1)
  }

  lemma {:induction false} UnsignedLittleEndian(v: nat, n: nat)
    requires v < Pow256(n)
    ensures Unsigned(LittleEndian(v, n)) == v
  {
    if n > 0 {
      UnsignedLittleEndian(v / 0x100, n - 1);
      assert LittleEndian(v, n)[1..] == LittleEndian(v / 0x100, n - 1);
    }
  }

  lemma {:induction false} LittleEndianUnsigned(b: seq<byte>)
    ensures LittleEndian(Unsigned(b), |b|) == b
  {
    if b != [] {
      LittleEndianUnsigned(b[1..]);
      assert Unsigned(b) / 0x100 == Unsigned(b[1..]);
      assert Unsigned(b) % 0x100 == b[0];
    }
  }

  /**
   * The data of an item read as a two's-complement number, as section
   * 6.2.2.7 prescribes for the logical and physical extents.
   */
  function SignedData(it: Item): int
  {
    var p := Pow256(it.size);
    if it.size > 0 && 2 * it.data >= p then it.data - p else it.data
  }

  function EncodeItem(it: Item): (b: seq<byte>)
    ensures |b| == 1 + it.size
  {
    [Prefix(it)] + LittleEndian(it.data, it.size)
  }

  function EncodeItems(items: seq<Item>): seq<byte>
  {
    if items == [] then [] else EncodeItem(items[0]) + EncodeItems(items[1..])
  }

  /**
   * Splits a descriptor into short items. Fails on a long-item prefix and
   * on an item whose data runs past the end.
   */
  function ParseItems(b: seq<byte>): (r: Option<seq<Item>>)
    ensures r.Some? ==> forall i :: 0 <= i < |r.value| ==> ValidItem(r.value[i])
    decreases |b|
  {
    if b == [] then Some([])
    else
      var p := b[0];
      var n := DataSize(p % 4);
      if p == LongItemPrefix || |b| < 1 + n then None
      else
        match ParseItems(b[1 + n..])
        case None => None
        case Some(rest) =>
          Some([Item(TypeOfCode((p / 4) % 4), p / 16, n, Unsigned(b[1..1 + n]))] + rest)
  }

  lemma PrefixFields(it: Item)
    requires ValidItem(it)
    ensures Prefix(it) / 16 == it.tag
    ensures (Prefix(it) / 4) % 4 == TypeCode(it.kind)
    ensures DataSize(Prefix(it) % 4) == it.size
  {
  }

  /** Parsing undoes encoding. */
  lemma {:induction false} ParseEncode(items: seq<Item>)
    requires forall i :: 0 <= i < |items| ==> ValidItem(items[i])
    ensures ParseItems(EncodeItems(items)) == Some(items)
  {
    if items != [] {
      var it := items[0];
      var b := EncodeItems(items);
      var rest := EncodeItems(items[1..]);
      assert b == EncodeItem(it) + rest;
      PrefixFields(it);
      var p := b[0];
      assert p == Prefix(it);
      var n := DataSize(p % 4);
      assert n == it.size;
      assert b[1 + n..] == rest;
      assert b[1..1 + n] == LittleEndian(it.data, it.size);
      UnsignedLittleEndian(it.data, it.size);
      ParseEncode(items[1..]);
      assert TypeOfCode((p / 4) % 4) == it.kind;
      assert Item(TypeOfCode((p / 4) % 4), p / 16, n, Unsigned(b[1..1 + n])) == it;
      assert ParseItems(b) == Some([it] + items[1..]);
      assert [it] + items[1..] == items;
    }
  }

  /** Encoding the parsed items gives back the bytes. */
  lemma {:induction false} EncodeParse(b: seq<byte>)
    requires ParseItems(b).Some?
    ensures EncodeItems(ParseItems(b).value) == b
    decreases |b|
  {
    if b != [] {
      var n, it := ParseHead(b);
      var tail := b[1 + n..];
      EncodeParse(tail);
      EncodeCons(it, ParseItems(tail).value);
      assert b == b[..1 + n] + tail;
    }
  }

  /** One step of a successful parse: the first item, which encodes back to its bytes, then the rest. */
  lemma ParseHead(b: seq<byte>) returns (n: nat, it: Item)
    requires b != [] && ParseItems(b).Some?
    ensures 1 + n <= |b| && ParseItems(b[1 + n..]).Some?
    ensures ParseItems(b).value == [it] + ParseItems(b[1 + n..]).value
    ensures EncodeItem(it) == b[..1 + n]
  {
    var p := b[0];
    n := DataSize(p % 4);
    var head := b[1..1 + n];
    it := Item(TypeOfCode((p / 4) % 4), p / 16, n, Unsigned(head));
    ItemBytes(p, head);
    assert b[..1 + n] == [p] + head;
  }

  lemma EncodeCons(it: Item, rest: seq<Item>)
    ensures EncodeItems([it] + rest) == EncodeItem(it) + EncodeItems(rest)
  {
    var items := [it] + rest;
    assert items[0] == it && items[1..] == rest;
  }

  /** The item read from a prefix and its data bytes encodes back to them. */
  lemma ItemBytes(p: byte, head: seq<byte>)
    requires p != LongItemPrefix && |head| == DataSize(p % 4)
    ensures var it := Item(TypeOfCode((p / 4) % 4), p / 16, |head|, Unsigned(head));
      ValidItem(it) && EncodeItem(it) == [p] + head
  {
    var it := Item(TypeOfCode((p / 4) % 4), p / 16, |head|, Unsigned(head));
    assert SizeCode(|head|) == p % 4;
    assert p == 16 * (p / 16) + 4 * ((p / 4) % 4) + p % 4;
    assert Prefix(it) == p;
    LittleEndianUnsigned(head);
  }

  // ---------------------------------------------------------------------
  // Item state (section 6.2.2.7 and 6.2.2.8)
  // ---------------------------------------------------------------------

  datatype Globals = Globals(
    usagePage: nat, logicalMin: int, logicalMax: int, physicalMin: int, physicalMax: int,
    unitExponent: nat, unit: nat, reportSize: nat, reportId: nat, reportCount: nat)

  const NoGlobals := Globals(0, 0, 0, 0, 0, 0, 0, 0, 0, 0)

  datatype Locals = Locals(usages: seq<nat>, usageMin: Option<nat>, usageMax: Option<nat>)

  const NoLocals := Locals([], None, None)

  datatype ReportKind = Input | Output | Feature

  datatype ReportKey = ReportKey(kind: ReportKind, id: nat)

  /**
   * One Input, Output or Feature item: its flags, its first bit within its
   * report (after the report ID byte), and the global and local state in
   * force for it, which give its report, size, count, usages and ranges.
   */
  datatype Field = Field(kind: ReportKind, flags: nat, bitOffset: nat, globals: Globals, locals: Locals)

  /** A Collection item: its type, the nesting depth it opens at, and its usage. */
  datatype Collection = Collection(collectionType: nat, depth: nat, usagePage: nat, usages: seq<nat>)

  datatype Walker = Walker(
    globals: Globals, stack: seq<Globals>, locals: Locals, depth: nat,
    collections: seq<Collection>, fields: seq<Field>, bits: map<ReportKey, nat>)

  const StartWalk := Walker(NoGlobals, [], NoLocals, 0, [], [], map[])

  /** Bits declared so far for one report. */
  function ReportBits(w: Walker, key: ReportKey): nat
  {
    if key in w.bits then w.bits[key] else 0
  }

  function MainKind(tag: nat): Option<ReportKind>
  {
    if tag == 8 then Some(Input) else if tag == 9 then Some(Output)
    else if tag == 11 then Some(Feature) else None
  }

  /** The effect of one item on the parser state; None for an item the walk rejects. */
  function Step(w: Walker, it: Item): (r: Option<Walker>)
  {
    match it.kind
    case MainItem => MainStep(w, it.tag, it.data)
    case GlobalItem => GlobalStep(w, it)
    case LocalItem => LocalStep(w, it.tag, it.data)
    case ReservedItem => None
  }

  /**
   * A main item: Input, Output and Feature items declare a field of
   * the current report, Collection and End Collection open and close a
   * collection; every main item clears the local state.
   */
  function MainStep(w: Walker, tag: nat, data: nat): (r: Option<Walker>)
    ensures r.Some? ==> r.value.locals == NoLocals && r.value.globals == w.globals
  {
    if MainKind(tag).Some? then Some(Declare(w, MainKind(tag).value, data))
    else if tag == 10 then Some(Open(w, data))
    else if tag == 12 && w.depth > 0 then Some(Close(w))
    else None
  }

  /**
   * An Input, Output or Feature item: a field of `reportSize` x
   * `reportCount` bits placed after the bits already declared for the same
   * report, carrying the current global and local state.
   */
  function Declare(w: Walker, kind: ReportKind, flags: nat): (r: Walker)
    ensures r.locals == NoLocals && r.globals == w.globals && r.depth == w.depth
    ensures var key := ReportKey(kind, w.globals.reportId);
      ReportBits(r, key) == ReportBits(w, key) + w.globals.reportSize * w.globals.reportCount
  {
    var g := w.globals;
    var key := ReportKey(kind, g.reportId);
    var offset := ReportBits(w, key);
    var f := Field(kind, flags, offset, g, w.locals);
    w.(fields := w.fields + [f], bits := w.bits[key := offset + g.reportSize * g.reportCount],
       locals := NoLocals)
  }

  /** A Collection item: one level deeper, recorded with its usage. */
  function Open(w: Walker, collectionType: nat): (r: Walker)
    ensures r.depth == w.depth + 1 && r.locals == NoLocals
  {
    var c := Collection(collectionType, w.depth, w.globals.usagePage, w.locals.usages);
    w.(collections := w.collections + [c], depth := w.depth + 1, locals := NoLocals)
  }

  /** An End Collection item closing the innermost open collection. */
  function Close(w: Walker): (r: Walker)
    requires w.depth > 0
    ensures r.depth == w.depth - 1 && r.locals == NoLocals
  {
    w.(depth := w.depth - 1, locals := NoLocals)
  }

  /** A global item changes the global state, which later main items inherit. */
  function GlobalStep(w: Walker, it: Item): (r: Option<Walker>)
    ensures r.Some? ==> r.value.locals == w.locals && r.value.depth == w.depth && r.value.fields == w.fields
  {
    var g := w.globals;
    if it.tag == 0 then Some(w.(globals := g.(usagePage := it.data)))
    else if it.tag == 1 then Some(w.(globals := g.(logicalMin := SignedData(it))))
    else if it.tag == 2 then Some(w.(globals := g.(logicalMax := SignedData(it))))
    else if it.tag == 3 then Some(w.(globals := g.(physicalMin := SignedData(it))))
    else if it.tag == 4 then Some(w.(globals := g.(physicalMax := SignedData(it))))
    else if it.tag == 5 then Some(w.(globals := g.(unitExponent := it.data)))
    else if it.tag == 6 then Some(w.(globals := g.(unit := it.data)))
    else if it.tag == 7 then Some(w.(globals := g.(reportSize := it.data)))
    else if it.tag == 8 && it.data > 0 then Some(w.(globals := g.(reportId := it.data)))
    else if it.tag == 9 then Some(w.(globals := g.(reportCount := it.data)))
    else if it.tag == 10 then Some(w.(stack := w.stack + [g]))
    else if it.tag == 11 && |w.stack| > 0 then
      Some(w.(globals := w.stack[|w.stack| - 1], stack := w.stack[..|w.stack| - 1]))
    else None
  }

  /** A local item adds to the local state of the next main item. */
  function LocalStep(w: Walker, tag: nat, data: nat): (r: Option<Walker>)
    ensures r.Some? ==> r.value.globals == w.globals && r.value.depth == w.depth && r.value.fields == w.fields
  {
    if tag == 0 then Some(w.(locals := w.locals.(usages := w.locals.usages + [data])))
    else if tag == 1 then Some(w.(locals := w.locals.(usageMin := Some(data))))
    else if tag == 2 then Some(w.(locals := w.locals.(usageMax := Some(data))))
    else if tag <= 10 then Some(w)
    else None
  }

  /** Runs the items in order from a state; None as soon as one is rejected. */
  function Walk(w: Walker, items: seq<Item>): Option<Walker>
    decreases |items|
  {
    if items == [] then Some(w)
    else
      match Step(w, items[0])
      case None => None
      case Some(w') => Walk(w', items[1..])
  }

  /** Walking a concatenation walks the two parts in turn. */
  lemma {:induction false} WalkAppend(w: Walker, a: seq<Item>, b: seq<Item>)
    ensures Walk(w, a + b) == (match Walk(w, a) case None => None case Some(w') => Walk(w', b))
    decreases |a|
  {
    if a == [] {
      assert a + b == b;
    } else {
      assert (a + b)[0] == a[0];
      assert (a + b)[1..] == a[1..] + b;
      match Step(w, a[0])
      case None =>
      case Some(w') =>
        assert Walk(w, a + b) == Walk(w', a[1..] + b);
        assert Walk(w, a) == Walk(w', a[1..]);
        WalkAppend(w', a[1..], b);
    }
  }

  /** Walking a concatenation whose first part is known to end in `w1`. */
  lemma WalkThen(w: Walker, a: seq<Item>, b: seq<Item>, w1: Walker)
    requires Walk(w, a) == Some(w1)
    ensures Walk(w, a + b) == Walk(w1, b)
  {
    WalkAppend(w, a, b);
  }

  /** Walking items whose first item steps to `w1` continues from `w1`. */
  lemma WalkCons(w: Walker, items: seq<Item>, w1: Walker)
    requires items != [] && Step(w, items[0]) == Some(w1)
    ensures Walk(w, items) == Walk(w1, items[1..])
  {
  }

  /** A walk only adds fields: those declared before it stay where they were. */
  lemma {:induction false} WalkKeepsFields(w: Walker, items: seq<Item>)
    requires Walk(w, items).Some?
    ensures |w.fields| <= |Walk(w, items).value.fields|
    ensures forall i :: 0 <= i < |w.fields| ==> Walk(w, items).value.fields[i] == w.fields[i]
    decreases |items|
  {
    if items != [] {
      var w1 := Step(w, items[0]).value;
      assert |w.fields| <= |w1.fields| && forall i :: 0 <= i < |w.fields| ==> w1.fields[i] == w.fields[i];
      WalkKeepsFields(w1, items[1..]);
    }
  }

  /** The walk of a whole descriptor from the initial state. */
  function Analyse(d: seq<byte>): Option<Walker>
  {
    match ParseItems(d)
    case None => None
    case Some(items) => Walk(StartWalk, items)
  }

  /** `bytes` is the short-item encoding of `items`. */
  predicate Encodes(items: seq<Item>, bytes: seq<byte>)
  {
    (forall i :: 0 <= i < |items| ==> ValidItem(items[i])) && EncodeItems(items) == bytes
  }

  lemma {:induction false} EncodeAppend(a: seq<Item>, b: seq<Item>)
    ensures EncodeItems(a + b) == EncodeItems(a) + EncodeItems(b)
  {
    if a == [] {
      assert a + b == b;
    } else {
      assert (a + b)[0] == a[0];
      assert (a + b)[1..] == a[1..] + b;
      EncodeAppend(a[1..], b);
    }
  }

  /** Encodings of consecutive item groups concatenate. */
  lemma EncodesAppend(a: seq<Item>, x: seq<byte>, b: seq<Item>, y: seq<byte>)
    requires Encodes(a, x) && Encodes(b, y)
    ensures Encodes(a + b, x + y)
  {
    EncodeAppend(a, b);
    forall i | 0 <= i < |a + b|
      ensures ValidItem((a + b)[i])
    {
      if i >= |a| {
        assert (a + b)[i] == b[i - |a|];
      }
    }
  }

  /**
   * A descriptor that is the encoding of some items is split back into
   * exactly those items, and analysed by walking them.
   */
  lemma AnalyseEncoding(items: seq<Item>, d: seq<byte>)
    requires Encodes(items, d)
    ensures ParseItems(d) == Some(items)
    ensures Analyse(d) == Walk(StartWalk, items)
  {
    ParseEncode(items);
  }

  // How a host reads a field out of a report (HID 1.11 section 8.4): bits
  // are numbered from the least significant bit of the first data byte.

  /** Bit i of report data, as 0 or 1. */
  function DataBit(d: seq<byte>, i: nat): nat
    requires i < 8 * |d|
  {
    if TestBit(d[i / 8], i % 8) then 1 else 0
  }

  /** The n-bit unsigned value at bit `offset` of report data. */
  function ReadBits(d: seq<byte>, offset: nat, n: nat): (v: nat)
    requires offset + n <= 8 * |d|
    ensures v < Pow2(n)
    decreases n
  {
    if n == 0 then 0 else DataBit(d, offset) + 2 * ReadBits(d, offset + 1, n - 1)
  }

  /** The k-th value of a field, k counting from 0 up to the field's Report Count. */
  function FieldValue(d: seq<byte>, f: Field, k: nat): nat
    requires k < f.globals.reportCount
    requires f.bitOffset + (k + 1) * f.globals.reportSize <= 8 * |d|
  {
    ReadBits(d, f.bitOffset + k * f.globals.reportSize, f.globals.reportSize)
  }

  /** Bits j .. j+n-1 of report data lie in byte k: they are the low n bits of d[k] >> j. */
  lemma {:induction false} ReadBitsInByte(d: seq<byte>, k: nat, j: nat, n: nat)
    requires k < |d| && j + n <= 8
    ensures ReadBits(d, 8 * k + j, n) == LowBits(Shr(d[k], j), n)
    decreases n
  {
    if n > 0 {
      var i := 8 * k + j;
      assert i / 8 == k && i % 8 == j by {
        DivUnique(i, 8, k, j);
        ModUnique(i, 8, k, j);
      }
      ShrStep(d[k], j);
      ReadBitsInByte(d, k, j + 1, n - 1);
    }
  }

  /** The low n bits of byte k, for a field that starts on a byte boundary. */
  lemma ReadLowBits(d: seq<byte>, k: nat, n: nat)
    requires k < |d| && n <= 8
    ensures ReadBits(d, 8 * k, n) == d[k] % Pow2(n)
  {
    ReadBitsInByte(d, k, 0, n);
    LowBitsMod(d[k], n);
  }

  /** A whole byte of report data read as an 8-bit value. */
  lemma ByteValue(d: seq<byte>, m: nat)
    requires m < |d|
    ensures ReadBits(d, 8 * m, 8) == d[m]
  {
    ReadLowBits(d, m, 8);
    ByteMod(d[m]);
  }

  lemma ByteMod(x: byte)
    ensures x % Pow2(8) == x
  {
    assert Pow2(8) == 0x100;
  }

  /** One bit of report data is the corresponding bit of its byte. */
  lemma ReadBit(d: seq<byte>, i: nat)
    requires i < 8 * |d|
    ensures (ReadBits(d, i, 1) == 1) == TestBit(d[i / 8], i % 8)
  {
  }

  /** A run of consecutive items of a descriptor, with the bytes that encode them. */
  datatype Group = Group(bytes: seq<byte>, items: seq<Item>)

  /** A descriptor that walks cleanly and closes every collection it opens. */
  predicate Balanced(w: Walker)
  {
    w.depth == 0 && w.stack == []
  }

  // Item constructors named as in section 6.2.2 (one data byte unless stated).

  function UsagePage(v: nat): Item { Item(GlobalItem, 0, 1, v) }
  function LogicalMinimum(v: nat): Item { Item(GlobalItem, 1, 1, v) }
  function LogicalMaximum(v: nat): Item { Item(GlobalItem, 2, 1, v) }
  function LogicalMaximum2(v: nat): Item { Item(GlobalItem, 2, 2, v) }
  function PhysicalMinimum(v: nat): Item { Item(GlobalItem, 3, 1, v) }
  function PhysicalMaximum2(v: nat): Item { Item(GlobalItem, 4, 2, v) }
  function Unit(v: nat): Item { Item(GlobalItem, 6, 1, v) }
  function ReportSize(v: nat): Item { Item(GlobalItem, 7, 1, v) }
  function ReportId(v: nat): Item { Item(GlobalItem, 8, 1, v) }
  function ReportCount(v: nat): Item { Item(GlobalItem, 9, 1, v) }
  function Usage(v: nat): Item { Item(LocalItem, 0, 1, v) }
  function UsageMinimum(v: nat): Item { Item(LocalItem, 1, 1, v) }
  function UsageMaximum(v: nat): Item { Item(LocalItem, 2, 1, v) }
  function InputItem(flags: nat): Item { Item(MainItem, 8, 1, flags) }
  function OutputItem(flags: nat): Item { Item(MainItem, 9, 1, flags) }
  function CollectionItem(kind: nat): Item { Item(MainItem, 10, 1, kind) }
  function EndCollection(): Item { Item(MainItem, 12, 0, 0) }

  // Collection types and main-item flag bits used by the descriptors.
  const Physical := 0
  const Application := 1
  const Logical := 2
  /** Data, Variable, Absolute. */
  const DataVariable := 0x02
  /** Data, Variable, Absolute, Null State. */
  const DataVariableNull := 0x42
  /** Constant (padding). */
  const Constant := 0x01
  /** Constant, Variable: padding declared with the Variable bit set. */
  const ConstantVariable := 0x03

  predicate IsConstant(f: Field)
  {
    f.flags % 2 == 1
  }
}
