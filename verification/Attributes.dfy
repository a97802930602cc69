/**
 Attribute packets: a list of items, each a tag, a count and a value, of which
 the type and the size of the file are read and the rest passed over.
 */
module Attributes {
  import opened Options
  import opened Bytes

  datatype FileType = Text | Binary

  datatype Attributes = Attributes(fileType: Option<FileType>, size: Option<nat>)

  const NOTHING := Attributes(None, None)

  const TYPE_TAG: byte := 34
  const SIZE_TAG: byte := 49
  const KILOBYTES_TAG: byte := 33
  const END_TAG: byte := 64

  /** One past the largest size a sixty-four-bit count holds. */
  const SIZES := 0x1_0000_0000_0000_0000

  // ------------------------------------------------------------------
  // Decimal numbers
  // ------------------------------------------------------------------

  function Decimal(n: nat): (s: seq<byte>)
    ensures |s| > 0
  {
    if n < 10 then [48 + n] else Decimal(n / 10) + [48 + n % 10]
  }

  predicate IsDigit(c: byte) { 48 <= c <= 57 }

  function Digit(c: byte): nat
    requires IsDigit(c)
  {
    c as int - 48
  }

  /** One character of white space, as Unicode has it, in UTF-8. */
  predicate IsBlank(s: seq<byte>) {
    if |s| == 1 then s[0] == 32 || 9 <= s[0] <= 13
    else if |s| == 2 then s[0] == 0xc2 && (s[1] == 0x85 || s[1] == 0xa0)
    else
      |s| == 3
      && ((s[0] == 0xe1 && s[1] == 0x9a && s[2] == 0x80)
          || (s[0] == 0xe2 && s[1] == 0x80 && (0x80 <= s[2] <= 0x8a || s[2] == 0xa8 || s[2] == 0xa9 || s[2] == 0xaf))
          || (s[0] == 0xe2 && s[1] == 0x81 && s[2] == 0x9f)
          || (s[0] == 0xe3 && s[1] == 0x80 && s[2] == 0x80))
  }

  /** How many bytes of white space a value begins with, of one character. */
  function Leading(s: seq<byte>): (n: nat)
    ensures n <= |s|
  {
    if |s| >= 1 && IsBlank(s[..1]) then 1
    else if |s| >= 2 && IsBlank(s[..2]) then 2
    else if |s| >= 3 && IsBlank(s[..3]) then 3
    else 0
  }

  function Trailing(s: seq<byte>): (n: nat)
    ensures n <= |s|
  {
    if |s| >= 1 && IsBlank(s[|s| - 1..]) then 1
    else if |s| >= 2 && IsBlank(s[|s| - 2..]) then 2
    else if |s| >= 3 && IsBlank(s[|s| - 3..]) then 3
    else 0
  }

  function Trimmed(s: seq<byte>): seq<byte>
    decreases |s|
  {
    if Leading(s) > 0 then Trimmed(s[Leading(s)..])
    else if Trailing(s) > 0 then Trimmed(s[..|s| - Trailing(s)])
    else s
  }

  /** The number a run of digits spells. */
  function Spelled(s: seq<byte>): nat
    requires forall c | c in s :: IsDigit(c)
  {
    if s == [] then 0 else Spelled(s[..|s| - 1]) * 10 + Digit(s[|s| - 1])
  }

  /** A number as it is parsed: trimmed, perhaps with a plus sign, and not too large. */
  function Number(value: seq<byte>): Option<nat> {
    var s := Trimmed(value);
    var digits := if s != [] && s[0] == 43 then s[1..] else s;
    if digits == [] || exists c | c in digits :: !IsDigit(c) then None
    else if Spelled(digits) < SIZES then Some(Spelled(digits))
    else None
  }

  function Pow10(k: nat): nat { if k == 0 then 1 else 10 * Pow10(k - 1) }

  lemma {:induction false} DecimalIsShort(n: nat, k: nat)
    requires k > 0 && n < Pow10(k)
    ensures |Decimal(n)| <= k
  {
    if n >= 10 {
      DecimalIsShort(n / 10, k - 1);
    }
  }

  lemma {:induction false} DecimalSpells(n: nat)
    ensures forall c | c in Decimal(n) :: IsDigit(c)
    ensures Spelled(Decimal(n)) == n
  {
    if n >= 10 {
      DecimalSpells(n / 10);
      assert Decimal(n)[..|Decimal(n)| - 1] == Decimal(n / 10);
    } else {
      assert Decimal(n)[..0] == [];
    }
  }

  lemma DecimalParses(n: nat)
    requires n < SIZES
    ensures Number(Decimal(n)) == Some(n) && |Decimal(n)| <= 20
  {
    hide Decimal, Spelled, Pow10;
    DecimalSpells(n);
    var s := Decimal(n);
    assert s[0] in s && s[|s| - 1] in s;
    DigitsHoldNoBlank(s);
    TwentyDigits();
    DecimalIsShort(n, 20);
  }

  lemma BlankIsNoDigit(s: seq<byte>)
    ensures IsBlank(s) ==> s != [] && !IsDigit(s[0]) && !IsDigit(s[|s| - 1])
  {
  }

  lemma DigitsHoldNoBlank(s: seq<byte>)
    requires s != [] && IsDigit(s[0]) && IsDigit(s[|s| - 1])
    ensures Trimmed(s) == s
  {
    hide IsBlank, IsDigit;
    forall n | 0 < n <= |s| ensures !IsBlank(s[..n]) && !IsBlank(s[|s| - n..]) {
      BlankIsNoDigit(s[..n]);
      BlankIsNoDigit(s[|s| - n..]);
    }
    assert Leading(s) == 0 && Trailing(s) == 0;
  }

  lemma TwentyDigits()
    ensures SIZES <= Pow10(20)
  {
    assert Pow10(10) == 10_000_000_000;
    assert Pow10(15) == 100_000 * Pow10(10);
    assert Pow10(20) == 100_000 * Pow10(15);
  }

  // ------------------------------------------------------------------
  // The packet
  // ------------------------------------------------------------------

  function Item(tag: byte, value: seq<byte>): seq<byte> {
    [tag, ToChar(|value| % 256)] + value
  }

  function TypeItem(fileType: Option<FileType>): seq<byte> {
    match fileType
    case Some(Text) => Item(TYPE_TAG, [65, 77, 74])
    case Some(Binary) => Item(TYPE_TAG, [66, 56])
    case None => []
  }

  function SizeItems(size: Option<nat>): seq<byte> {
    match size
    case Some(n) => Item(SIZE_TAG, Decimal(n)) + Item(KILOBYTES_TAG, Decimal((n + 1023) / 1024))
    case None => []
  }

  function Built(a: Attributes): seq<byte> { TypeItem(a.fileType) + SizeItems(a.size) }

  method Build(a: Attributes) returns (out: seq<byte>)
    ensures out == Built(a)
    ensures (a.size.Some? ==> a.size.value < SIZES) ==> ReadAll(out) == a
  {
    hide Item, Decimal, ReadAll;
    out := [];
    match a.fileType {
      case Some(Text) => out := out + Item(TYPE_TAG, [65, 77, 74]);
      case Some(Binary) => out := out + Item(TYPE_TAG, [66, 56]);
      case None =>
    }
    if a.size.Some? {
      out := out + Item(SIZE_TAG, Decimal(a.size.value));
      out := out + Item(KILOBYTES_TAG, Decimal((a.size.value + 1023) / 1024));
    }
    assert out == Built(a);
    if a.size.Some? ==> a.size.value < SIZES {
      BuiltReadsBack(a);
    }
  }

  /** What one attribute adds to what was found before it. */
  function Noted(found: Attributes, tag: byte, value: seq<byte>): Attributes {
    if tag == TYPE_TAG then
      found.(fileType := if value != [] && value[0] == 65 then Some(Text)
                         else if value != [] && value[0] == 66 then Some(Binary)
                         else None)
    else if tag == SIZE_TAG then found.(size := Number(value))
    else if tag == KILOBYTES_TAG && found.size.None? then
      var k := Number(value);
      found.(size := if k.None? then None else Some(k.value * 1024 % SIZES))
    else found
  }

  function ReadFrom(data: seq<byte>, found: Attributes): Attributes
    decreases |data|
  {
    if |data| < 2 then found
    else
      var len := UnChar(data[1]);
      if |data| < 2 + len then found
      else
        var found' := Noted(found, data[0], data[2..2 + len]);
        if data[0] == END_TAG then found' else ReadFrom(data[2 + len..], found')
  }

  function ReadAll(data: seq<byte>): Attributes { ReadFrom(data, NOTHING) }

  method Read(data: seq<byte>) returns (found: Attributes)
    ensures found == ReadAll(data)
  {
    hide Noted;
    found := NOTHING;
    var at := 0;
    assert data[0..] == data;
    while at + 1 < |data|
      invariant at <= |data|
      invariant ReadAll(data) == ReadFrom(data[at..], found)
    {
      ghost var rest := data[at..];
      var tag, len := data[at], UnChar(data[at + 1]);
      assert rest[0] == tag && UnChar(rest[1]) == len;
      if at + 2 + len > |data| {
        return;
      }
      var value := data[at + 2..at + 2 + len];
      assert rest[2..2 + len] == value;
      at := at + 2 + len;
      assert rest[2 + len..] == data[at..];
      found := Noted(found, tag, value);
      if tag == END_TAG {
        return;
      }
    }
  }

  lemma ReadItem(tag: byte, value: seq<byte>, rest: seq<byte>, found: Attributes)
    requires |value| < 224 && tag != END_TAG
    ensures ReadFrom(Item(tag, value) + rest, found) == ReadFrom(rest, Noted(found, tag, value))
  {
    hide Noted;
    var data := Item(tag, value) + rest;
    assert UnChar(data[1]) == |value|;
    assert data[2..2 + |value|] == value;
    assert data[2 + |value|..] == rest;
  }

  /** What was said reads back as it was said. */
  lemma BuiltReadsBack(a: Attributes)
    requires a.size.Some? ==> a.size.value < SIZES
    ensures ReadAll(Built(a)) == a
  {
    hide Item, Number, Decimal, ReadFrom;
    var typed := a.(size := None);
    var sizes := SizeItems(a.size);
    assert ReadFrom([], typed) == typed && ReadFrom([], a) == a by { ReadNothing(typed); ReadNothing(a); }
    match a.fileType {
      case Some(Text) => ReadItem(TYPE_TAG, [65, 77, 74], sizes, NOTHING);
      case Some(Binary) => ReadItem(TYPE_TAG, [66, 56], sizes, NOTHING);
      case None => assert [] + sizes == sizes;
    }
    if a.size.Some? {
      var n := a.size.value;
      DecimalParses(n);
      DecimalParses((n + 1023) / 1024);
      var kilobytes := Item(KILOBYTES_TAG, Decimal((n + 1023) / 1024));
      ReadItem(SIZE_TAG, Decimal(n), kilobytes, typed);
      assert kilobytes + [] == kilobytes;
      ReadItem(KILOBYTES_TAG, Decimal((n + 1023) / 1024), [], a);
    }
  }

  lemma ReadNothing(found: Attributes)
    ensures ReadFrom([], found) == found
  {
  }

  /** A built packet is short enough for the short form whatever the check. */
  lemma BuiltIsShort(a: Attributes)
    requires a.size.Some? ==> a.size.value < SIZES
    ensures |Built(a)| <= 49
  {
    hide Number, Decimal;
    if a.size.Some? {
      DecimalParses(a.size.value);
      DecimalParses((a.size.value + 1023) / 1024);
    }
  }

  /** Nothing in it is a mark. */
  lemma BuiltIsUnmarked(a: Attributes)
    requires a.size.Some? ==> a.size.value < SIZES
    ensures MARK !in Built(a)
  {
    hide Decimal, Item;
    TypeIsUnmarked(a.fileType);
    if a.size.Some? {
      NumberIsUnmarked(SIZE_TAG, a.size.value);
      NumberIsUnmarked(KILOBYTES_TAG, (a.size.value + 1023) / 1024);
    }
  }

  lemma TypeIsUnmarked(fileType: Option<FileType>)
    ensures MARK !in TypeItem(fileType)
  {
  }

  lemma NumberIsUnmarked(tag: byte, n: nat)
    requires tag != MARK && n < SIZES
    ensures MARK !in Item(tag, Decimal(n))
  {
    hide Decimal;
    DecimalParses(n);
    DecimalSpells(n);
  }

  // ------------------------------------------------------------------
  // Characters by number
  // ------------------------------------------------------------------

  lemma ItemInNumbers(tag: byte, value: seq<byte>)
    requires |value| <= 94
    ensures Item(tag, value) == [tag, |value| + 32] + value
  {
  }

  /** What is said of a text file of `n` bytes, character by character. */
  lemma BuiltInNumbers(n: nat)
    requires n < SIZES
    ensures var exact, kilobytes := Decimal(n), Decimal((n + 1023) / 1024);
            Built(Attributes(Some(Text), Some(n)))
            == [34, 35, 65, 77, 74] + ([49, |exact| + 32] + exact + ([33, |kilobytes| + 32] + kilobytes))
    ensures Built(Attributes(Some(Binary), None)) == [34, 34, 66, 56]
    ensures [34, 49, 33, 64] == ['"' as int, '1' as int, '!' as int, '@' as int]
  {
    hide Decimal, Number, Item;
    DecimalParses(n);
    DecimalParses((n + 1023) / 1024);
    ItemInNumbers(TYPE_TAG, [65, 77, 74]);
    ItemInNumbers(TYPE_TAG, [66, 56]);
    ItemInNumbers(SIZE_TAG, Decimal(n));
    ItemInNumbers(KILOBYTES_TAG, Decimal((n + 1023) / 1024));
    assert TypeItem(Some(Text)) == [34, 35, 65, 77, 74];
  }

  lemma ReadOne(tag: byte, value: seq<byte>, found: Attributes)
    requires |value| < 224 && tag != END_TAG
    ensures ReadFrom(Item(tag, value), found) == Noted(found, tag, value)
  {
    hide Item, Noted, ReadFrom;
    ReadItem(tag, value, [], found);
    ReadNothing(Noted(found, tag, value));
    assert Item(tag, value) + [] == Item(tag, value);
  }

  /** A size said in kilobytes alone is 1024 times the number; one said in bytes too, before it or after, is that. */
  lemma KilobytesInNumbers(k: nat, n: nat)
    requires k * 1024 < SIZES && n < SIZES
    ensures var kilobytes, exact := Item('!' as int, Decimal(k)), Item('1' as int, Decimal(n));
            && ReadAll(kilobytes).size == Some(1024 * k)
            && ReadAll(kilobytes + exact).size == Some(n) && ReadAll(exact + kilobytes).size == Some(n)
  {
    hide Item, Decimal, ReadFrom, Number;
    DecimalParses(k);
    DecimalParses(n);
    ReadOne('!' as int, Decimal(k), NOTHING);
    ReadItem('!' as int, Decimal(k), Item('1' as int, Decimal(n)), NOTHING);
    ReadOne('1' as int, Decimal(n), NOTHING.(size := Some(1024 * k)));
    ReadItem('1' as int, Decimal(n), Item('!' as int, Decimal(k)), NOTHING);
    ReadOne('!' as int, Decimal(k), NOTHING.(size := Some(n)));
  }

  /** Nothing is read past an item that ends the list, and an item of another tag is passed over. */
  lemma OthersPassedOver(tag: byte, value: seq<byte>, rest: seq<byte>)
    requires |value| < 224
    ensures tag !in {'"' as int, '1' as int, '!' as int, '@' as int} ==> ReadAll(Item(tag, value) + rest) == ReadAll(rest)
    ensures ReadAll(['@' as int, ' ' as int] + rest) == Attributes(None, None)
  {
    hide Number;
    if tag != END_TAG {
      ReadItem(tag, value, rest, NOTHING);
    }
  }

  /** A type is text, binary, or one not known, whatever was found before and whatever follows its letter. */
  lemma TypeInNumbers(value: seq<byte>, found: Attributes)
    requires |value| < 224
    ensures var after := ReadFrom(Item('"' as int, value), found);
            && after.size == found.size
            && (after.fileType == Some(Text) <==> value != [] && value[0] == 'A' as int)
            && (after.fileType == Some(Binary) <==> value != [] && value[0] == 'B' as int)
  {
    hide Item, ReadFrom;
    ReadOne('"' as int, value, found);
  }

  /** A size in bytes that is no number leaves none known, and one in kilobytes that is none changes nothing known. */
  lemma UnreadableSize(value: seq<byte>, found: Attributes)
    requires |value| < 224 && Number(value) == None
    ensures ReadFrom(Item('1' as int, value), found) == found.(size := None)
    ensures ReadFrom(Item('!' as int, value), found) == found
  {
    hide Item, ReadFrom, Number;
    ReadOne('1' as int, value, found);
    ReadOne('!' as int, value, found);
  }
}
