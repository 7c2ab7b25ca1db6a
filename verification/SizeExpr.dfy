/** Size expressions on the command line: bytes, multiples and sector counts, with or without a sign. */
module SizeExpr {
  import opened Machine

  datatype Size = Bytes(n: u64) | Sectors(n: u64)

  datatype SignedSize = Signed(negative: bool, magnitude: Size)

  datatype SizeError = Empty | NotANumber | UnknownUnit | Overflow

  // ------------------------------------------------------------------
  // Characters
  // ------------------------------------------------------------------

  predicate IsDigit(c: char) {
    '0' <= c <= '9'
  }

  /** The characters `trim` removes: Unicode White_Space. */
  predicate IsSpace(c: char) {
    var n := c as int;
    9 <= n <= 13 || n == 32 || n == 0x85 || n == 0xA0 || n == 0x1680 || 0x2000 <= n <= 0x200A ||
    n == 0x2028 || n == 0x2029 || n == 0x202F || n == 0x205F || n == 0x3000
  }

  predicate AllSpace(s: string) {
    forall i :: 0 <= i < |s| ==> IsSpace(s[i])
  }

  predicate AllDigits(s: string) {
    forall i :: 0 <= i < |s| ==> IsDigit(s[i])
  }

  function TrimStart(s: string): string {
    if s != [] && IsSpace(s[0]) then TrimStart(s[1..]) else s
  }

  function TrimEnd(s: string): string {
    if s != [] && IsSpace(s[|s| - 1]) then TrimEnd(s[..|s| - 1]) else s
  }

  function Trim(s: string): string {
    TrimEnd(TrimStart(s))
  }

  predicate Trimmed(s: string) {
    s == [] || (!IsSpace(s[0]) && !IsSpace(s[|s| - 1]))
  }

  function LowerChar(c: char): char {
    if 'A' <= c <= 'Z' then c - 'A' + 'a' else c
  }

  function Lower(s: string): (r: string)
    ensures |r| == |s|
  {
    seq(|s|, i requires 0 <= i < |s| => LowerChar(s[i]))
  }

  // ------------------------------------------------------------------
  // Numbers
  // ------------------------------------------------------------------

  function Digit(n: nat): char
    requires n < 10
  {
    '0' + n as char
  }

  function DigitValue(c: char): nat
    requires IsDigit(c)
  {
    (c - '0') as nat
  }

  function Value(digits: string): nat
    requires AllDigits(digits)
  {
    if digits == [] then 0 else Value(digits[..|digits| - 1]) * 10 + DigitValue(digits[|digits| - 1])
  }

  function PrintNat(n: nat): string {
    if n < 10 then [Digit(n)] else PrintNat(n / 10) + [Digit(n % 10)]
  }

  /** A printed number is all digits and reads back as itself. */
  lemma {:induction false} PrintedNumberReads(n: nat)
    ensures PrintNat(n) != [] && AllDigits(PrintNat(n)) && Value(PrintNat(n)) == n
  {
    if n < 10 {
      assert PrintNat(n)[..0] == [];
    } else {
      PrintedNumberReads(n / 10);
      var front := PrintNat(n / 10);
      assert PrintNat(n)[..|front|] == front;
    }
  }

  // ------------------------------------------------------------------
  // Parsing
  // ------------------------------------------------------------------

  function DigitsEnd(s: string): (r: nat)
    ensures r <= |s| && AllDigits(s[..r]) && (r < |s| ==> !IsDigit(s[r]))
  {
    if s == [] || !IsDigit(s[0]) then 0
    else
      var r := DigitsEnd(s[1..]);
      assert s[..r + 1] == [s[0]] + s[1..][..r];
      1 + r
  }

  const KIB: nat := 1024
  const KB: nat := 1000

  function UnitMultiplier(unit: string): Option<nat> {
    var u := Lower(unit);
    if u == "" || u == "b" then Some(1)
    else if u == "k" || u == "kib" then Some(KIB)
    else if u == "m" || u == "mib" then Some(KIB * KIB)
    else if u == "g" || u == "gib" then Some(KIB * KIB * KIB)
    else if u == "t" || u == "tib" then Some(KIB * KIB * KIB * KIB)
    else if u == "kb" then Some(KB)
    else if u == "mb" then Some(KB * KB)
    else if u == "gb" then Some(KB * KB * KB)
    else if u == "tb" then Some(KB * KB * KB * KB)
    else None
  }

  const BARE_UNITS := ["k", "m", "g", "t"]
  const BINARY_UNITS := ["kib", "mib", "gib", "tib"]
  const DECIMAL_UNITS := ["kb", "mb", "gb", "tb"]

  function Power(base: nat, exponent: nat): nat {
    if exponent == 0 then 1 else base * Power(base, exponent - 1)
  }

  /** A bare prefix and its binary unit are a power of 1024, its decimal unit the same power of 1000. */
  lemma UnitsArePowers(i: nat)
    requires i < 4
    ensures UnitMultiplier(BARE_UNITS[i]) == UnitMultiplier(BINARY_UNITS[i]) == Some(Power(KIB, i + 1))
    ensures UnitMultiplier(DECIMAL_UNITS[i]) == Some(Power(KB, i + 1))
  {
    LowerIsSame(BARE_UNITS[i]);
    LowerIsSame(BINARY_UNITS[i]);
    LowerIsSame(DECIMAL_UNITS[i]);
    SmallPowers(KIB);
    SmallPowers(KB);
  }

  lemma SmallPowers(base: nat)
    ensures Power(base, 1) == base && Power(base, 2) == base * base
    ensures Power(base, 3) == base * base * base && Power(base, 4) == base * base * base * base
  {
    assert Power(base, 1) == base * Power(base, 0);
    assert Power(base, 2) == base * Power(base, 1);
    assert Power(base, 3) == base * Power(base, 2);
    assert Power(base, 4) == base * Power(base, 3);
  }

  lemma LowerIsSame(s: string)
    requires forall i :: 0 <= i < |s| ==> 'a' <= s[i] <= 'z'
    ensures Lower(s) == s
  {
    assert forall i :: 0 <= i < |s| ==> Lower(s)[i] == s[i];
  }

  /** What a number followed by a unit means. */
  function Denoted(value: nat, unit: string): Result<Size, SizeError> {
    if value > U64_MAX then Err(NotANumber)
    else if Lower(unit) == "s" then Ok(Sectors(value))
    else match UnitMultiplier(unit)
      case None => Err(UnknownUnit)
      case Some(m) => if value * m > U64_MAX then Err(Overflow) else Ok(Bytes(value * m))
  }

  function Parse(s: string): Result<Size, SizeError> {
    var trimmed := Trim(s);
    if trimmed == [] then Err(Empty)
    else
      var end := DigitsEnd(trimmed);
      if end == 0 then Err(NotANumber) else Denoted(Value(trimmed[..end]), Trim(trimmed[end..]))
  }

  predicate IsZero(size: Size) {
    size.n == 0
  }

  function ParseSigned(s: string): Result<SignedSize, SizeError> {
    var trimmed := Trim(s);
    if trimmed != [] && trimmed[0] == '-' then
      match Parse(trimmed[1..])
      case Err(e) => Err(e)
      case Ok(size) => Ok(Signed(!IsZero(size), size))
    else
      match Parse(trimmed)
      case Err(e) => Err(e)
      case Ok(size) => Ok(Signed(false, size))
  }

  function Print(size: Size): string {
    match size
    case Bytes(n) => PrintNat(n)
    case Sectors(n) => PrintNat(n) + "s"
  }

  function PrintSigned(x: SignedSize): string {
    (if x.negative then "-" else "") + Print(x.magnitude)
  }

  /** `resolve` */
  function Resolve(size: Size, sectorSize: nat): Result<nat, SizeError> {
    match size
    case Bytes(n) => Ok(n)
    case Sectors(n) => SectorBytes(n, sectorSize)
  }

  // ------------------------------------------------------------------
  // Trimming and splitting
  // ------------------------------------------------------------------

  lemma {:induction false} TrimStartDrops(lead: string, s: string)
    requires AllSpace(lead) && (s == [] || !IsSpace(s[0]))
    ensures TrimStart(lead + s) == s
    decreases |lead|
  {
    if lead == [] {
      assert lead + s == s;
    } else {
      assert (lead + s)[1..] == lead[1..] + s;
      TrimStartDrops(lead[1..], s);
    }
  }

  lemma {:induction false} TrimEndDrops(s: string, tail: string)
    requires AllSpace(tail) && (s == [] || !IsSpace(s[|s| - 1]))
    ensures TrimEnd(s + tail) == s
    decreases |tail|
  {
    if tail == [] {
      assert s + tail == s;
    } else {
      assert (s + tail)[..|s + tail| - 1] == s + tail[..|tail| - 1];
      TrimEndDrops(s, tail[..|tail| - 1]);
    }
  }

  /** Trimming undoes padding. */
  lemma TrimDropsPadding(lead: string, s: string, tail: string)
    requires AllSpace(lead) && AllSpace(tail) && Trimmed(s) && s != []
    ensures Trim(lead + s + tail) == s
  {
    assert lead + s + tail == lead + (s + tail);
    TrimStartDrops(lead, s + tail);
    TrimEndDrops(s, tail);
  }

  lemma TrimDropsSpace(s: string)
    requires AllSpace(s)
    ensures Trim(s) == []
  {
    assert s + [] == s;
    TrimStartDrops(s, []);
  }

  lemma {:induction false} DigitsEndIs(digits: string, rest: string)
    requires AllDigits(digits) && (rest == [] || !IsDigit(rest[0]))
    ensures DigitsEnd(digits + rest) == |digits|
    decreases |digits|
  {
    if digits == [] {
      assert digits + rest == rest;
    } else {
      assert (digits + rest)[1..] == digits[1..] + rest;
      DigitsEndIs(digits[1..], rest);
    }
  }

  // ------------------------------------------------------------------
  // What the parser reads
  // ------------------------------------------------------------------

  /** A number, whitespace, and a unit, in any padding, are read as that number of that unit. */
  lemma WrittenSizeIsRead(lead: string, digits: string, gap: string, unit: string, tail: string)
    requires AllSpace(lead) && AllSpace(gap) && AllSpace(tail)
    requires digits != [] && AllDigits(digits)
    requires Trimmed(unit) && (unit == [] || !IsDigit(unit[0]))
    ensures Parse(lead + digits + gap + unit + tail) == Denoted(Value(digits), unit)
  {
    Regroup(lead, digits, gap, unit, tail);
    if unit == [] {
      TrimDropsPadding(lead, digits, gap + tail);
      assert digits + [] == digits;
      BareSizeIsRead(lead + digits + (gap + tail), digits, [], []);
    } else {
      SizeWithUnitIsRead(lead, digits, gap, unit, tail);
    }
  }

  lemma Regroup(a: string, b: string, c: string, d: string, e: string)
    ensures a + b + c + d + e == a + (b + (c + d)) + e
    ensures d == [] ==> a + b + c + d + e == a + b + (c + e)
  {
    assert a + b + c + d == a + (b + (c + d));
    if d == [] {
      assert a + b + c + d == a + b + c;
    }
  }

  lemma SizeWithUnitIsRead(lead: string, digits: string, gap: string, unit: string, tail: string)
    requires AllSpace(lead) && AllSpace(gap) && AllSpace(tail)
    requires digits != [] && AllDigits(digits)
    requires Trimmed(unit) && unit != [] && !IsDigit(unit[0])
    ensures Parse(lead + (digits + (gap + unit)) + tail) == Denoted(Value(digits), unit)
  {
    var core := digits + (gap + unit);
    assert core[0] == digits[0] && core[|core| - 1] == unit[|unit| - 1];
    TrimDropsPadding(lead, core, tail);
    BareSizeIsRead(lead + core + tail, digits, gap, unit);
  }

  /** Once its padding is gone, a size is split where its digits end. */
  lemma BareSizeIsRead(s: string, digits: string, gap: string, unit: string)
    requires Trim(s) == digits + (gap + unit) && digits != [] && AllDigits(digits)
    requires AllSpace(gap) && Trimmed(unit) && (unit == [] ==> gap == []) && (unit == [] || !IsDigit(unit[0]))
    ensures Parse(s) == Denoted(Value(digits), unit)
  {
    var rest := gap + unit;
    DigitsEndIs(digits, rest);
    assert (digits + rest)[..|digits|] == digits && (digits + rest)[|digits|..] == rest;
    if unit == [] {
      TrimDropsSpace(rest);
    } else {
      assert gap + unit + [] == rest;
      TrimDropsPadding(gap, unit, []);
    }
  }

  /** Printing a size and parsing it back gives the same size. */
  lemma SizeRoundTrips(size: Size)
    ensures Parse(Print(size)) == Ok(size)
  {
    var digits := PrintNat(size.n);
    PrintedNumberReads(size.n);
    var unit := if size.Bytes? then "" else "s";
    assert [] + digits + [] + unit + [] == digits + unit;
    assert size.Bytes? ==> digits + unit == digits;
    WrittenSizeIsRead([], digits, [], unit, []);
    LowerOfUnits();
  }

  lemma LowerOfUnits()
    ensures Lower("") == "" && Lower("s") == "s"
  {
    assert Lower("s")[0] == 's';
  }

  /** A sector count resolves to its digits times the sector size, or to an error where that needs more than 64 bits. */
  lemma WrittenSectorsResolve(digits: string, sectorSize: nat)
    requires digits != [] && AllDigits(digits)
    ensures Parse(digits + "s").Ok? <==> Value(digits) <= U64_MAX
    ensures Value(digits) <= U64_MAX ==>
      Resolve(Parse(digits + "s").value, sectorSize) == SectorBytes(Value(digits), sectorSize)
  {
    assert [] + digits + [] + "s" + [] == digits + "s";
    WrittenSizeIsRead([], digits, [], "s", []);
    DenotedSectors(Value(digits));
  }

  function SectorBytes(n: nat, sectorSize: nat): Result<nat, SizeError> {
    if n * sectorSize > U64_MAX then Err(Overflow) else Ok(n * sectorSize)
  }

  lemma DenotedSectors(n: nat)
    ensures Denoted(n, "s") == if n > U64_MAX then Err(NotANumber) else Ok(Sectors(n))
  {
    LowerOfUnits();
  }

  /** A printed size stands on its own: nothing to trim, and it begins with a digit. */
  lemma PrintedIsBare(size: Size)
    ensures Print(size) != [] && IsDigit(Print(size)[0]) && Trimmed(Print(size))
  {
    PrintedNumberReads(size.n);
  }

  /** A signed size survives being printed and parsed back iff it is not a negative zero. */
  lemma SignedRoundTripsIff(x: SignedSize)
    ensures ParseSigned(PrintSigned(x)) == Ok(x) <==> !(x.negative && IsZero(x.magnitude))
  {
    PrintedIsBare(x.magnitude);
    SizeRoundTrips(x.magnitude);
    SignIsRead(x.negative, Print(x.magnitude));
  }

  /** A sign in front of something bare is taken off, and what follows is parsed on its own. */
  lemma SignIsRead(negative: bool, bare: string)
    requires bare != [] && IsDigit(bare[0]) && Trimmed(bare)
    ensures ParseSigned((if negative then "-" else "") + bare) ==
      match Parse(bare)
      case Err(e) => Err(e)
      case Ok(size) => Ok(Signed(negative && !IsZero(size), size))
  {
    var whole := (if negative then "-" else "") + bare;
    assert [] + whole + [] == whole;
    assert whole[|whole| - 1] == bare[|bare| - 1];
    TrimDropsPadding([], whole, []);
    assert if negative then whole[1..] == bare else whole == bare;
  }

  /** The parser never returns a negative zero, so whatever it returns round-trips. */
  lemma ParsedSizesRoundTrip(s: string)
    requires ParseSigned(s).Ok?
    ensures !(ParseSigned(s).value.negative && IsZero(ParseSigned(s).value.magnitude))
    ensures ParseSigned(PrintSigned(ParseSigned(s).value)) == ParseSigned(s)
  {
    SignedRoundTripsIff(ParseSigned(s).value);
  }
}
