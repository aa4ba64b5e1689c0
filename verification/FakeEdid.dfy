/**
 * The 128-byte EDID that is made up for a connector without one, and its reading by sections 3.4, 3.10 and 3.11
 * of VESA E-EDID Release A, Revision 2.
 */
module FakeEdid {
  import opened Arithmetic
  import opened DisplayModes

  type byte = x: int | 0 <= x < 256

  const HEADER: seq<byte> := [0x00, 0xff, 0xff, 0xff, 0xff, 0xff, 0xff, 0x00]
  const VENDOR: seq<byte> := [0x3a, 0xac, 0x00, 0x00, 0x00, 0x00, 0x00, 0x00]
  const BASIC: seq<byte> := [0xff, 0x22, 0x01, 0x04, 0x80, 0x00, 0x00, 0x78]
  const COLOUR: seq<byte> := [0x07, 0xee, 0x95, 0xa3, 0x54, 0x4c, 0x99, 0x26]
  const ESTABLISHED: seq<byte> := [0x0f, 0x50, 0x54, 0x00, 0x00, 0x00, 0x01, 0x01]
  const STANDARD: seq<byte> := [0x01, 0x01, 0x01, 0x01, 0x01, 0x01, 0x01, 0x01]
  const TIMING: seq<byte> := [
    0x01, 0x01, 0x01, 0x01, 0x01, 0x01, 0x02, 0x3a,
    0x80, 0xa0, 0x70, 0x38, 0x1f, 0x40, 0x30, 0x20,
    0x35, 0x00, 0x63, 0xc8, 0x10, 0x00, 0x00, 0x02]

  function Zeros(n: nat): (r: seq<byte>)
    ensures |r| == n && forall i :: 0 <= i < n ==> r[i] == 0
  {
    seq(n, _ => 0)
  }

  function Template(): (t: seq<byte>)
    ensures |t| == 128
  {
    HEADER + VENDOR + BASIC + COLOUR + ESTABLISHED + STANDARD + TIMING + Zeros(55) + [0x8e]
  }

  /** A mode with the flags that the detailed timing carries. */
  datatype EdidMode = EdidMode(mode: Mode, interlaced: bool, hPositive: bool, vPositive: bool)

  const NO_EDID_MODE := EdidMode(NO_MODE, false, false, false)

  // ---- Reading a detailed timing --------------------------------------------------------------

  datatype Detailed = Detailed(
    clock: int,
    hActive: int, hBlank: int, vActive: int, vBlank: int,
    hPorch: int, hSync: int, vPorch: int, vSync: int,
    hSize: int, vSize: int,
    interlaced: bool, digitalSeparate: bool, hPositive: bool, vPositive: bool)

  /** Section 3.10.2: bytes 54 to 71. */
  function Read(b: seq<byte>): Detailed
    requires |b| == 128
  {
    Detailed(
      Wide(b[54], b[55]),
      Wide(b[56], b[58] / 16), Wide(b[57], b[58] % 16), Wide(b[59], b[61] / 16), Wide(b[60], b[61] % 16),
      Wide(b[62], b[65] / 64), Wide(b[63], b[65] / 16 % 4), b[64] / 16 + 16 * (b[65] / 4 % 4),
        b[64] % 16 + 16 * (b[65] % 4),
      Wide(b[66], b[68] / 16), Wide(b[67], b[68] % 16),
      b[71] / 128 == 1, b[71] / 8 % 4 == 3, b[71] / 2 % 2 == 1, b[71] / 4 % 2 == 1)
  }

  /** Eight low bits and what is above them. */
  function Wide(low: int, high: int): int {
    low + 256 * high
  }

  /** The timing as the connector has it; the clock of a mode is in kHz, that of the EDID in 10 kHz. */
  function Exact(m: EdidMode, width: u32, height: u32): Detailed {
    var t := m.mode.timing;
    Detailed(
      t.clock / 10,
      t.hDisplay, t.hTotal - t.hDisplay, t.vDisplay, t.vTotal - t.vDisplay,
      t.hSyncStart - t.hDisplay, t.hSyncEnd - t.hSyncStart, t.vSyncStart - t.vDisplay, t.vSyncEnd - t.vSyncStart,
      width, height,
      m.interlaced, true, m.hPositive, m.vPositive)
  }

  /** What the fields have room for. Of the height only eight bits are written. */
  function Masked(d: Detailed): Detailed {
    Detailed(
      d.clock % 0x1_0000,
      d.hActive % 4096, d.hBlank % 4096, d.vActive % 4096, d.vBlank % 4096,
      d.hPorch % 1024, d.hSync % 1024, d.vPorch % 64, d.vSync % 64,
      d.hSize % 4096, d.vSize % 256,
      d.interlaced, d.digitalSeparate, d.hPositive, d.vPositive)
  }

  predicate InField(x: int, size: int) {
    0 <= x < size
  }

  predicate InFields(d: Detailed) {
    && InField(d.clock, 0x1_0000)
    && InField(d.hActive, 4096) && InField(d.hBlank, 4096) && InField(d.vActive, 4096) && InField(d.vBlank, 4096)
    && InField(d.hPorch, 1024) && InField(d.hSync, 1024) && InField(d.vPorch, 64) && InField(d.vSync, 64)
    && InField(d.hSize, 4096) && InField(d.vSize, 256)
  }

  // ---- Packing --------------------------------------------------------------------------------

  /** Eight low bits, and the four above them, of a possibly negative number in two's complement. */
  function Low(x: int): byte { x % 256 }
  function Nibble(x: int): (n: int)
    ensures 0 <= n < 16
  {
    x / 256 % 16
  }

  function Pair(x: int): (n: int)
    ensures 0 <= n < 4
  {
    x / 256 % 4
  }

  /** Two numbers of four bits in a byte, and four of two bits. */
  function Pack44(a: int, b: int): byte
    requires 0 <= a < 16 && 0 <= b < 16
  {
    16 * a + b
  }

  function Pack2222(a: int, b: int, c: int, d: int): byte
    requires 0 <= a < 4 && 0 <= b < 4 && 0 <= c < 4 && 0 <= d < 4
  {
    64 * a + 16 * b + 4 * c + d
  }

  function Flags(interlaced: bool, vPositive: bool, hPositive: bool): byte {
    0x18 + (if interlaced then 0x80 else 0) + (if vPositive then 0x4 else 0) + (if hPositive then 0x2 else 0)
  }

  /** Two twelve-bit numbers share their third byte. */
  lemma TwelveBits(x: int, y: int)
    ensures Wide(Low(x), Pack44(Nibble(x), Nibble(y)) / 16) == x % 4096
    ensures Wide(Low(y), Pack44(Nibble(x), Nibble(y)) % 16) == y % 4096
  {
    Halves(Nibble(x), Nibble(y));
    TwelveBitsOf(x);
    TwelveBitsOf(y);
    hide Low, Nibble, Pack44, Wide;
  }

  lemma TwelveBitsOf(x: int)
    ensures Wide(Low(x), Nibble(x)) == x % 4096
  {
    LowerDigits(x, 256, 16);
  }

  /** Two digits of a number, to the bases `a` and `b`. */
  lemma LowerDigits(x: int, a: int, b: int)
    requires a > 0 && b > 0 && a * b > 0
    ensures x % a + a * (x / a % b) == x % (a * b)
  {
    var q := x / a;
    DivMod(x, a);
    DivMod(q, b);
    var r := x % a + a * (q % b);
    assert a * (q % b) <= a * (b - 1) by { Grows(a, q % b, b - 1); }
    assert a * (b - 1) == a * b - a;
    assert a * q == a * (b * (q / b) + q % b) == a * (b * (q / b)) + a * (q % b);
    assert a * (b * (q / b)) == (a * b) * (q / b);
    assert a * (q % b) >= 0 by { Grows(a, 0, q % b); }
    UniqueQuotient(x, a * b, q / b);
  }

  lemma Grows(a: int, m: int, n: int)
    requires a > 0 && m <= n
    ensures a * m <= a * n
  {
    assert a * (n - m) >= 0;
  }

  lemma Halves(a: int, b: int)
    requires 0 <= a < 16 && 0 <= b < 16
    ensures Pack44(a, b) / 16 == a && Pack44(a, b) % 16 == b
  {
  }

  /** The height's upper bits are not shifted down and fall out of the shared byte. */
  lemma SizeBits(width: int, height: int)
    ensures (16 * Nibble(width) + 256 * Nibble(height)) % 256 == Pack44(Nibble(width), 0)
    ensures Wide(Low(width), Pack44(Nibble(width), 0) / 16) == width % 4096
    ensures Wide(Low(height), Pack44(Nibble(width), 0) % 16) == height % 256
  {
  }

  lemma PorchBits(hp: int, hs: int, vp: int, vs: int)
    ensures var low, high := Pack44(vp % 16, vs % 16), Pack2222(Pair(hp), Pair(hs), vp / 16 % 4, vs / 16 % 4);
            && Wide(Low(hp), high / 64) == hp % 1024 && Wide(Low(hs), high / 16 % 4) == hs % 1024
            && low / 16 + 16 * (high / 4 % 4) == vp % 64 && low % 16 + 16 * (high % 4) == vs % 64
  {
    Quarters(Pair(hp), Pair(hs), vp / 16 % 4, vs / 16 % 4);
    TenBits(hp);
    TenBits(hs);
    SixBits(vp);
    SixBits(vs);
  }

  lemma Quarters(a: int, b: int, c: int, d: int)
    requires 0 <= a < 4 && 0 <= b < 4 && 0 <= c < 4 && 0 <= d < 4
    ensures var x := Pack2222(a, b, c, d);
            x / 64 == a && x / 16 % 4 == b && x / 4 % 4 == c && x % 4 == d
  {
    var x := Pack2222(a, b, c, d);
    assert x / 16 == 4 * a + b;
    assert x / 4 == 16 * a + 4 * b + c;
  }

  lemma TenBits(x: int)
    ensures Wide(Low(x), Pair(x)) == x % 1024
  {
    LowerDigits(x, 256, 4);
  }

  lemma SixBits(x: int)
    ensures x % 16 + 16 * (x / 16 % 4) == x % 64
  {
    LowerDigits(x, 16, 4);
  }

  lemma FlagBits(i: bool, v: bool, h: bool)
    ensures var x := Flags(i, v, h);
            (x / 128 == 1 <==> i) && x / 8 % 4 == 3 && (x / 4 % 2 == 1 <==> v) && (x / 2 % 2 == 1 <==> h)
  {
  }

  lemma ClockBits(c: int)
    requires 0 <= c < 0x1_0000
    ensures c / 256 < 256 && Wide(c % 256, c / 256) == c
  {
  }

  /** The bytes from 54 to 61. */
  ghost predicate PackedAreas(b: seq<byte>, d: Detailed)
    requires |b| == 128
  {
    && b[54] == d.clock % 0x1_0000 % 256 && b[55] == d.clock % 0x1_0000 / 256
    && b[56] == Low(d.hActive) && b[57] == Low(d.hBlank) && b[58] == Pack44(Nibble(d.hActive), Nibble(d.hBlank))
    && b[59] == Low(d.vActive) && b[60] == Low(d.vBlank) && b[61] == Pack44(Nibble(d.vActive), Nibble(d.vBlank))
  }

  /** The bytes from 62 on. */
  ghost predicate PackedSyncs(b: seq<byte>, d: Detailed)
    requires |b| == 128
  {
    && b[62] == Low(d.hPorch) && b[63] == Low(d.hSync) && b[64] == Pack44(d.vPorch % 16, d.vSync % 16)
    && b[65] == Pack2222(Pair(d.hPorch), Pair(d.hSync), d.vPorch / 16 % 4, d.vSync / 16 % 4)
    && b[66] == Low(d.hSize) && b[67] == Low(d.vSize) && b[68] == Pack44(Nibble(d.hSize), 0)
    && b[71] == Flags(d.interlaced, d.vPositive, d.hPositive)
  }

  ghost predicate Packed(b: seq<byte>, d: Detailed)
    requires |b| == 128
  {
    PackedAreas(b, d) && PackedSyncs(b, d)
  }

  /** Reading what was packed gives every field as far as there is room for it. */
  lemma ReadPacked(b: seq<byte>, d: Detailed)
    requires |b| == 128 && Packed(b, d) && d.digitalSeparate
    ensures Read(b) == Masked(d)
  {
    TwelveBits(d.hActive, d.hBlank);
    TwelveBits(d.vActive, d.vBlank);
    PorchBits(d.hPorch, d.hSync, d.vPorch, d.vSync);
    SizeBits(d.hSize, d.vSize);
    FlagBits(d.interlaced, d.vPositive, d.hPositive);
    ClockBits(d.clock % 0x1_0000);
    hide Low, Nibble, Pair, Pack44, Pack2222, Flags, Wide;
  }

  method WriteAreas(buffer: array<byte>, d: Detailed)
    requires buffer.Length == 128
    modifies buffer
    ensures PackedAreas(buffer[..], d)
    ensures forall i :: 0 <= i < 128 && !(54 <= i < 62) ==> buffer[i] == old(buffer[i])
  {
    hide Low, Nibble, Pack44;
    var clk := d.clock % 0x1_0000;
    ClockBits(clk);
    buffer[54], buffer[55] := clk % 256, clk / 256;
    buffer[56], buffer[57], buffer[58] := Low(d.hActive), Low(d.hBlank), Pack44(Nibble(d.hActive), Nibble(d.hBlank));
    buffer[59], buffer[60], buffer[61] := Low(d.vActive), Low(d.vBlank), Pack44(Nibble(d.vActive), Nibble(d.vBlank));
  }

  method WriteSyncs(buffer: array<byte>, d: Detailed)
    requires buffer.Length == 128
    modifies buffer
    ensures PackedSyncs(buffer[..], d)
    ensures forall i :: 0 <= i < 128 && !(62 <= i < 69) && i != 71 ==> buffer[i] == old(buffer[i])
  {
    hide Low, Nibble, Pair, Pack44, Pack2222, Flags, Wide;
    SizeBits(d.hSize, d.vSize);
    var shared := (16 * Nibble(d.hSize) + 256 * Nibble(d.vSize)) % 256;
    buffer[62], buffer[63], buffer[64] := Low(d.hPorch), Low(d.hSync), Pack44(d.vPorch % 16, d.vSync % 16);
    buffer[65] := Pack2222(Pair(d.hPorch), Pair(d.hSync), d.vPorch / 16 % 4, d.vSync / 16 % 4);
    buffer[66], buffer[67], buffer[68] := Low(d.hSize), Low(d.vSize), shared;
    buffer[71] := Flags(d.interlaced, d.vPositive, d.hPositive);
  }

  /** The detailed timing at byte 54. */
  method WriteTiming(buffer: array<byte>, m: EdidMode, width: u32, height: u32)
    requires buffer.Length == 128
    modifies buffer
    ensures Packed(buffer[..], Exact(m, width, height))
    ensures forall i :: 0 <= i < 128 && !(54 <= i < 69) && i != 71 ==> buffer[i] == old(buffer[i])
  {
    hide Low, Nibble, Pair, Pack44, Pack2222, Flags, Exact;
    var d := Exact(m, width, height);
    WriteAreas(buffer, d);
    WriteSyncs(buffer, d);
  }

  /** A timing comes back as it was exactly when every field has room for it. */
  lemma TimingRoundTrip(d: Detailed)
    ensures Masked(d) == d <==> InFields(d)
  {
  }

  // ---- Name, identification, checksum ---------------------------------------------------------

  function Digits(n: nat): seq<byte> {
    if n < 10 then [48 + n] else Digits(n / 10) + [48 + n % 10]
  }

  const DUMMY: seq<byte> := [68, 117, 109, 109, 121, 45]

  /** The text `Dummy-<type>-<id>` with a line feed, as bytes. */
  function NameText(typeName: seq<byte>, typeId: nat): seq<byte> {
    DUMMY + typeName + [45] + Digits(typeId) + [10]
  }

  /** The number that decimal digits stand for. */
  function Decimal(ds: seq<byte>): int {
    if ds == [] then 0 else 10 * Decimal(ds[..|ds| - 1]) + ds[|ds| - 1] - 48
  }

  lemma {:induction false} DigitsRead(n: nat)
    ensures var ds := Digits(n);
            && Decimal(ds) == n && (forall i :: 0 <= i < |ds| ==> 48 <= ds[i] <= 57)
            && ds != [] && (n > 0 ==> ds[0] != 48)
  {
    if n >= 10 {
      DigitsRead(n / 10);
      assert Digits(n)[..|Digits(n)| - 1] == Digits(n / 10);
    }
  }

  /** The name is the text cut to twelve bytes, or the whole of it, and zeros. */
  lemma NameReads(typeName: seq<byte>, typeId: nat)
    ensures var name := Printed(NameText(typeName, typeId));
            var text := [68, 117, 109, 109, 121, 45] + typeName + [45] + Digits(typeId) + [10];
            if |text| >= 12 then name == text[..12] + [0] else name == text + Zeros(13 - |text|)
  {
  }

  /** What a thirteen-byte snprintf leaves: twelve bytes of text at most, then zeros. */
  function Printed(text: seq<byte>): (r: seq<byte>)
    ensures |r| == 13 && r[12] == 0
  {
    seq(13, i requires 0 <= i < 13 => if i < 12 && i < |text| then text[i] else 0)
  }

  method WriteName(buffer: array<byte>, typeName: seq<byte>, typeId: nat)
    requires buffer.Length == 128
    modifies buffer
    ensures buffer[75] == 0xfc
    ensures buffer[77..90] == Printed(NameText(typeName, typeId))
    ensures forall i :: 0 <= i < 128 && i != 75 && !(77 <= i < 90) ==> buffer[i] == old(buffer[i])
  {
    buffer[75] := 0xfc;
    var name := Printed(NameText(typeName, typeId));
    var i := 0;
    while i < 13
      invariant 0 <= i <= 13 && buffer[75] == 0xfc
      invariant forall k :: 0 <= k < i ==> buffer[77 + k] == name[k]
      invariant forall k :: 0 <= k < 128 && k != 75 && !(77 <= k < 90) ==> buffer[k] == old(buffer[k])
    {
      buffer[77 + i] := name[i];
      i := i + 1;
    }
    assert buffer[77..90] == name;
  }

  /** Three letters of five bits each, as section 3.4.1 packs them. */
  function Letters(a: char, b: char, c: char): int
    requires 'A' <= a <= 'Z' && 'A' <= b <= 'Z' && 'A' <= c <= 'Z'
  {
    (a as int - 64) * 1024 + (b as int - 64) * 32 + (c as int - 64)
  }

  /** The manufacturer's two bytes as the machine reads them back, low byte first, after the swap. */
  const MFC: bv16 := 0xb911

  function ProductCode(typeId: nat): (r: int)
    ensures 0 <= r < 0x1_0000
  {
    (MFC ^ ((typeId % 0x1_0000) as bv16)) as int
  }

  function Word(lo: byte, hi: byte): int {
    lo + 256 * hi
  }

  ghost predicate Identified(b: seq<byte>, typeId: nat)
    requires |b| == 128
  {
    && Word(b[9], b[8]) == Letters('D', 'M', 'Y')
    && Word(b[10], b[11]) == ProductCode(typeId)
    && Word(b[12], b[13]) == typeId % 0x1_0000
    && Word(b[14], b[15]) == 0xb911
  }

  /**
   * What a reader makes of them: the letters are section 3.4.1's five-bit codes of DMY, the second half of the serial
   * number repeats them, and the first half is the connector's number.
   */
  lemma IdentifiedReads(b: seq<byte>, typeId: nat)
    requires |b| == 128 && Identified(b, typeId)
    ensures var name := Word(b[9], b[8]);
            name / 1024 == 4 && name / 32 % 32 == 13 && name % 32 == 25
    ensures b[14] == b[8] && b[15] == b[9] && Word(b[12], b[13]) == typeId % 0x1_0000
  {
    hide ProductCode;
  }

  lemma ProductCodeReads(typeId: nat)
    ensures (ProductCode(typeId) as bv16) ^ ((typeId % 0x1_0000) as bv16) == 0xb911
  {
    AndBack(MFC ^ ((typeId % 0x1_0000) as bv16));
    XorTwice((typeId % 0x1_0000) as bv16);
  }

  lemma AndBack(x: bv16)
    ensures 0 <= x as int < 0x1_0000 && (x as int) as bv16 == x
  {
  }

  lemma XorTwice(x: bv16)
    ensures (MFC ^ x) ^ x == 0xb911
  {
  }

  method WriteIds(buffer: array<byte>, typeId: nat)
    requires buffer.Length == 128
    modifies buffer
    ensures Identified(buffer[..], typeId)
    ensures forall i :: 0 <= i < 128 && !(8 <= i < 16) ==> buffer[i] == old(buffer[i])
  {
    hide ProductCode;
    var name := Letters('D', 'M', 'Y');
    buffer[8], buffer[9] := name % 256, name / 256;
    buffer[8], buffer[9] := buffer[9], buffer[8];
    var code := ProductCode(typeId);
    buffer[10], buffer[11] := code % 256, code / 256;
    var id := typeId % 0x1_0000;
    buffer[12], buffer[13] := id % 256, id / 256;
    buffer[14], buffer[15] := buffer[8], buffer[9];
  }

  function Sum(b: seq<byte>): int {
    if b == [] then 0 else Sum(b[..|b| - 1]) + b[|b| - 1]
  }

  lemma SumSnoc(b: seq<byte>, x: byte)
    ensures Sum(b + [x]) == Sum(b) + x
  {
    assert (b + [x])[..|b|] == b;
  }

  lemma SumWraps(sum: int, total: int)
    requires sum == total % 256
    ensures (total + (0x100 - sum) % 256) % 256 == 0
  {
  }

  /** Section 3.11: all 128 bytes sum to 0 modulo 256. */
  method WriteChecksum(buffer: array<byte>)
    requires buffer.Length == 128
    modifies buffer
    ensures Sum(buffer[..]) % 256 == 0
    ensures forall i :: 0 <= i < 127 ==> buffer[i] == old(buffer[i])
  {
    var sum: byte := 0;
    var i := 0;
    assert Sum(buffer[..0]) == 0;
    hide Sum;
    while i < 127
      invariant 0 <= i <= 127
      invariant sum == Sum(buffer[..i]) % 256
      invariant buffer[..] == old(buffer[..])
    {
      assert buffer[..i + 1] == buffer[..i] + [buffer[i]];
      SumSnoc(buffer[..i], buffer[i]);
      sum := (sum + buffer[i]) % 256;
      i := i + 1;
    }
    ghost var before := buffer[..127];
    SumWraps(sum, Sum(before));
    buffer[127] := (0x100 - sum) % 256;
    assert buffer[..127] == before;
    assert buffer[..] == before + [buffer[127]];
    SumSnoc(before, buffer[127]);
  }

  // ---- The whole ------------------------------------------------------------------------------

  /** The breaks leave only their own loops, so the later choices win. */
  method ChooseMode(modes: seq<EdidMode>, raw: seq<EdidMode>) returns (m: EdidMode)
    ensures |raw| > 0 ==> m == raw[0]
    ensures |raw| == 0 && |modes| > 0 ==> m == modes[0]
    ensures |raw| == 0 && |modes| == 0 ==> m == NO_EDID_MODE
  {
    m := NO_EDID_MODE;
    var i := 0;
    while i < |modes|
      invariant 0 <= i <= |modes| && m == NO_EDID_MODE
    {
      if modes[i].mode.preferred {
        m := modes[i];
        break;
      }
      i := i + 1;
    }
    if |modes| > 0 {
      m := modes[0];
    }
    ghost var listed := m;
    i := 0;
    while i < |raw|
      invariant 0 <= i <= |raw| && m == listed
    {
      if raw[i].mode.preferred {
        m := raw[i];
        break;
      }
      i := i + 1;
    }
    if |raw| > 0 {
      m := raw[0];
    }
  }

  /** What an EDID says apart from its timing. */
  ghost predicate Framed(b: seq<byte>, typeName: seq<byte>, typeId: nat)
    requires |b| == 128
  {
    && b[0] == b[7] == 0 && (forall i :: 1 <= i < 7 ==> b[i] == 0xff) && b[18] == 1 && b[19] == 4
    && b[72] == b[73] == b[74] == b[76] == 0 && b[75] == 0xfc && b[77..90] == Printed(NameText(typeName, typeId))
    && b[126] == 0
  }

  /** The chosen mode's timing can be read back, exactly if it fits; the checksum of all bytes is zero. */
  method MakeFakeEDID(buffer: array<byte>, modes: seq<EdidMode>, raw: seq<EdidMode>, width: u32, height: u32,
      typeName: seq<byte>, typeId: nat)
    requires buffer.Length == 128
    modifies buffer
    ensures var m := if |raw| > 0 then raw[0] else if |modes| > 0 then modes[0] else NO_EDID_MODE;
            var t := m.mode.timing;
            var d := Detailed(
              t.clock / 10,
              t.hDisplay, t.hTotal - t.hDisplay, t.vDisplay, t.vTotal - t.vDisplay,
              t.hSyncStart - t.hDisplay, t.hSyncEnd - t.hSyncStart,
              t.vSyncStart - t.vDisplay, t.vSyncEnd - t.vSyncStart,
              width, height, m.interlaced, true, m.hPositive, m.vPositive);
            Read(buffer[..]) == Masked(d) && (Read(buffer[..]) == d <==> InFields(d))
    ensures Framed(buffer[..], typeName, typeId)
    ensures Identified(buffer[..], typeId)
    ensures Sum(buffer[..]) % 256 == 0
  {
    hide Sum, Read, Masked, InFields, Packed, Printed, NameText, Template, Identified;
    var m := ChooseMode(modes, raw);
    TimingRoundTrip(Exact(m, width, height));
    CopyTemplate(buffer);
    TemplateFacts();
    WriteTiming(buffer, m, width, height);
    ghost var a := buffer[..];
    WriteName(buffer, typeName, typeId);
    WriteIds(buffer, typeId);
    ghost var b := buffer[..];
    PackedBy(a, b, Exact(m, width, height));
    WriteChecksum(buffer);
    ghost var c := buffer[..];
    PackedBy(b, c, Exact(m, width, height));
    ReadPacked(c, Exact(m, width, height));
    IdentifiedBy(b, c, typeId);
    assert c[77..90] == b[77..90];
  }

  /** The template carries a detailed timing of its own: 1920 by 1080 at 148.5 MHz on 355 by 200 mm. */
  lemma TemplateReads()
    ensures Read(Template())
         == Detailed(14850, 1920, 160, 1080, 31, 48, 32, 3, 5, 355, 200, false, false, true, false)
  {
    TemplateTiming();
    hide Template;
  }

  lemma TemplateTiming()
    ensures var t := Template();
            && t[54] == 0x02 && t[55] == 0x3a && t[56] == 0x80 && t[57] == 0xa0 && t[58] == 0x70 && t[59] == 0x38
            && t[60] == 0x1f && t[61] == 0x40 && t[62] == 0x30 && t[63] == 0x20 && t[64] == 0x35 && t[65] == 0x00
            && t[66] == 0x63 && t[67] == 0xc8 && t[68] == 0x10 && t[69] == 0x00 && t[70] == 0x00 && t[71] == 0x02
  {
    hide Template;
    TemplateCarriesTiming();
  }

  lemma TemplateCarriesTiming()
    ensures forall j :: 54 <= j < 72 ==> Template()[j] == TIMING[j - 48]
  {
    var before := HEADER + VENDOR + BASIC + COLOUR + ESTABLISHED + STANDARD;
    assert Template() == before + (TIMING + (Zeros(55) + [0x8e]));
  }

  lemma TemplateFacts()
    ensures var t := Template();
            && t[0] == t[7] == 0 && (forall i :: 1 <= i < 7 ==> t[i] == 0xff) && t[18] == 1 && t[19] == 4
            && t[72] == t[73] == t[74] == t[76] == 0 && t[126] == 0
  {
  }

  lemma PackedBy(b: seq<byte>, c: seq<byte>, d: Detailed)
    requires |b| == |c| == 128 && Packed(b, d) && forall i :: 54 <= i < 72 ==> c[i] == b[i]
    ensures Packed(c, d)
  {
    hide Low, Nibble, Pair, Pack44, Pack2222, Flags;
  }

  lemma IdentifiedBy(b: seq<byte>, c: seq<byte>, typeId: nat)
    requires |b| == |c| == 128 && Identified(b, typeId) && forall i :: 8 <= i < 16 ==> c[i] == b[i]
    ensures Identified(c, typeId)
  {
    hide ProductCode;
  }

  method CopyTemplate(buffer: array<byte>)
    requires buffer.Length == 128
    modifies buffer
    ensures buffer[..] == Template()
  {
    hide Template;
    var i := 0;
    while i < 128
      invariant 0 <= i <= 128
      invariant forall k :: 0 <= k < i ==> buffer[k] == Template()[k]
    {
      buffer[i] := Template()[i];
      i := i + 1;
    }
  }
}
