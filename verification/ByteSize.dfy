/** Byte counts on the command line: printed with the largest binary unit that divides them, and parsed
    back exactly. */
module ByteSizes {
  import opened Common

  const U64_MAX: nat := TWO_TO_THE_64 - 1
  const KIB: nat := 0x400
  const MIB: nat := 0x10_0000
  const GIB: nat := 0x4000_0000

  datatype Error = Malformed | TooLarge
  datatype Result = Ok(bytes: nat) | Err(error: Error)

  // ---------------------------------------------------------------------------
  // Decimal numbers
  // ---------------------------------------------------------------------------

  predicate IsDigit(c: char) {
    '0' <= c <= '9'
  }

  function Digit(d: nat): (c: char)
    requires d < 10
    ensures IsDigit(c) && c as int - '0' as int == d
  {
    ('0' as int + d) as char
  }

  function Decimal(n: nat): (s: string)
    ensures s != "" && forall i :: 0 <= i < |s| ==> IsDigit(s[i])
  {
    if n < 10 then [Digit(n)] else Decimal(n / 10) + [Digit(n % 10)]
  }

  function Value(s: string): nat
    requires forall i :: 0 <= i < |s| ==> IsDigit(s[i])
  {
    if s == "" then 0
    else
      assert IsDigit(s[|s| - 1]);
      Value(s[..|s| - 1]) * 10 + (s[|s| - 1] as int - '0' as int)
  }

  lemma {:induction false} ValueOfDecimal(n: nat)
    ensures Value(Decimal(n)) == n
  {
    if n >= 10 {
      ValueOfDecimal(n / 10);
      assert Decimal(n)[..|Decimal(n)| - 1] == Decimal(n / 10);
    } else {
      assert Decimal(n)[..0] == "";
    }
  }

  /** No zero leads, and a leading zero would not change the value. */
  lemma {:induction false} NoLeadingZero(n: nat)
    ensures |Decimal(n)| > 1 ==> Decimal(n)[0] != '0'
    ensures |Decimal(n)| == 1 ==> n < 10
  {
    if n >= 10 {
      NoLeadingZero(n / 10);
    }
  }

  lemma {:induction false} LeadingZero(s: string)
    requires forall i :: 0 <= i < |s| ==> IsDigit(s[i])
    ensures Value(['0'] + s) == Value(s)
  {
    if s == "" {
      assert Value("0") == Value("") * 10;
    } else {
      LeadingZero(s[..|s| - 1]);
      assert (['0'] + s)[..|s|] == ['0'] + s[..|s| - 1];
    }
  }

  // ---------------------------------------------------------------------------
  // Printing and parsing
  // ---------------------------------------------------------------------------

  function Display(bytes: nat): string {
    if bytes >= GIB && bytes % GIB == 0 then Decimal(bytes / GIB) + "GiB"
    else if bytes >= MIB && bytes % MIB == 0 then Decimal(bytes / MIB) + "MiB"
    else if bytes >= KIB && bytes % KIB == 0 then Decimal(bytes / KIB) + "KiB"
    else Decimal(bytes) + "B"
  }

  /** The characters of Unicode's White_Space property. */
  predicate IsBlank(c: char) {
    var u := c as int;
    || 9 <= u <= 13 || u == 0x20 || u == 0x85 || u == 0xA0 || u == 0x1680 || 0x2000 <= u <= 0x200A
    || u == 0x2028 || u == 0x2029 || u == 0x202F || u == 0x205F || u == 0x3000
  }

  const WHITE_SPACE: string := "\t\n\U{B}\U{C}\r \U{85}\U{A0}\U{1680}\U{2000}\U{2001}\U{2002}\U{2003}\U{2004}"
    + "\U{2005}\U{2006}\U{2007}\U{2008}\U{2009}\U{200A}\U{2028}\U{2029}\U{202F}\U{205F}\U{3000}"

  lemma {:induction false} BlanksAreWhiteSpace(c: char)
    ensures IsBlank(c) <==> c in WHITE_SPACE
  {
  }

  function TrimStart(s: string): string {
    if s != "" && IsBlank(s[0]) then TrimStart(s[1..]) else s
  }

  function TrimEnd(s: string): string {
    if s != "" && IsBlank(s[|s| - 1]) then TrimEnd(s[..|s| - 1]) else s
  }

  function Trim(s: string): string {
    TrimEnd(TrimStart(s))
  }

  /** The number of leading digits. */
  function Digits(s: string): (n: nat)
    ensures n <= |s|
    ensures forall i :: 0 <= i < n ==> IsDigit(s[i])
    ensures n < |s| ==> !IsDigit(s[n])
  {
    if s != "" && IsDigit(s[0]) then 1 + Digits(s[1..]) else 0
  }

  /** A bare letter is binary, and so are the spellings with an `i`. */
  function Multiple(unit: string): Option<nat> {
    if unit == "" || unit == "b" then Some(1)
    else if unit == "k" || unit == "kib" then Some(KIB)
    else if unit == "m" || unit == "mib" then Some(MIB)
    else if unit == "g" || unit == "gib" then Some(GIB)
    else if unit == "kb" then Some(1_000)
    else if unit == "mb" then Some(1_000_000)
    else if unit == "gb" then Some(1_000_000_000)
    else None
  }

  function Parse(text: string): Result {
    var value := Trim(text);
    var n := Digits(value);
    var count, unit := value[..n], value[n..];
    if count == "" || Value(count) > U64_MAX then Err(Malformed)
    else match Multiple(Lower(Trim(unit)))
      case None => Err(Malformed)
      case Some(multiple) =>
        if Value(count) * multiple > U64_MAX then Err(TooLarge) else Ok(Value(count) * multiple)
  }

  // ---------------------------------------------------------------------------
  // What any text means
  // ---------------------------------------------------------------------------

  ghost predicate AllBlank(s: string) {
    forall i :: 0 <= i < |s| ==> IsBlank(s[i])
  }

  ghost predicate AllDigits(s: string) {
    forall i :: 0 <= i < |s| ==> IsDigit(s[i])
  }

  lemma {:induction false} TrimStartDropsBlanks(blanks: string, s: string)
    requires AllBlank(blanks) && (s != "" ==> !IsBlank(s[0]))
    ensures TrimStart(blanks + s) == s
  {
    if blanks == "" {
      assert blanks + s == s;
    } else {
      assert (blanks + s)[1..] == blanks[1..] + s;
      TrimStartDropsBlanks(blanks[1..], s);
    }
  }

  lemma {:induction false} TrimEndDropsBlanks(s: string, blanks: string)
    requires AllBlank(blanks) && (s != "" ==> !IsBlank(s[|s| - 1]))
    ensures TrimEnd(s + blanks) == s
  {
    if blanks == "" {
      assert s + blanks == s;
    } else {
      assert (s + blanks)[..|s + blanks| - 1] == s + blanks[..|blanks| - 1];
      TrimEndDropsBlanks(s, blanks[..|blanks| - 1]);
    }
  }

  lemma {:induction false} DigitsOf(count: string, rest: string)
    requires AllDigits(count) && (rest != "" ==> !IsDigit(rest[0]))
    ensures Digits(count + rest) == |count|
  {
    if count == "" {
      assert count + rest == rest;
    } else {
      assert (count + rest)[1..] == count[1..] + rest;
      DigitsOf(count[1..], rest);
    }
  }

  /** Every unit, in lower case, and what it stands for. */
  const UNITS: map<string, nat> := map[
    "" := 1, "b" := 1,
    "kb" := 1000, "mb" := 1000_000, "gb" := 1000_000_000,
    "k" := 1024, "m" := 1048_576, "g" := 1073_741_824,
    "kib" := 1024, "mib" := 1048_576, "gib" := 1073_741_824]

  lemma {:induction false} UnitsAreKnown(unit: string)
    ensures Multiple(unit) == if unit in UNITS then Some(UNITS[unit]) else None
  {
  }

  /** What a text made of a count and a unit means: the exact product, an error if the unit is none or
      if the count or the product does not fit 64 bits. Blanks around either part, and the unit's
      case, make no difference. */
  function Meaning(count: string, unit: string): Result
    requires AllDigits(count) && count != ""
  {
    if Value(count) > U64_MAX || Lower(unit) !in UNITS then Err(Malformed)
    else if Value(count) * UNITS[Lower(unit)] > U64_MAX then Err(TooLarge)
    else Ok(Value(count) * UNITS[Lower(unit)])
  }

  /** A unit has no blanks at its ends, and does not start with a digit. */
  ghost predicate IsUnit(unit: string) {
    unit != "" ==> !IsBlank(unit[0]) && !IsBlank(unit[|unit| - 1]) && !IsDigit(unit[0])
  }

  lemma {:induction false} TrimDropsBlanks(before: string, core: string, after: string)
    requires AllBlank(before) && AllBlank(after)
    requires core != "" ==> !IsBlank(core[0]) && !IsBlank(core[|core| - 1])
    ensures Trim(before + core + after) == core
  {
    if core == "" {
      assert before + core + after == (before + after) + "";
      TrimStartDropsBlanks(before + after, "");
    } else {
      assert before + core + after == before + (core + after);
      TrimStartDropsBlanks(before, core + after);
      TrimEndDropsBlanks(core, after);
    }
  }

  /** The text without its outer blanks: a unit that is not there leaves the blanks before it outside. */
  lemma {:induction false} CoreParses(count: string, between: string, unit: string)
    requires AllBlank(between) && AllDigits(count) && count != "" && IsUnit(unit)
    requires unit == "" ==> between == ""
    ensures var core := count + between + unit;
      && Trim(core) == core
      && Digits(core) == |count| && core[..|count|] == count
      && Trim(core[|count|..]) == unit
  {
    var core, rest := count + between + unit, between + unit;
    assert core == count + rest && core == "" + core + "";
    assert IsDigit(core[0]) && (if unit == "" then IsDigit(core[|core| - 1]) else !IsBlank(core[|core| - 1]));
    TrimDropsBlanks("", core, "");
    DigitsOf(count, rest);
    assert rest == between + unit + "";
    TrimDropsBlanks(between, unit, "");
  }

  /** Parsing takes such a text apart into its count and unit. */
  lemma {:induction false} ComesApart(before: string, count: string, between: string, unit: string, after: string)
    requires AllBlank(before) && AllBlank(between) && AllBlank(after)
    requires AllDigits(count) && count != "" && IsUnit(unit)
    ensures
      var core := Trim(before + count + between + unit + after);
      Digits(core) == |count| && core[..|count|] == count && Trim(core[|count|..]) == unit
  {
    var inner, tail := if unit == "" then "" else between, if unit == "" then between + after else after;
    var core := count + inner + unit;
    CoreParses(count, inner, unit);
    assert before + count + between + unit + after == before + core + tail;
    assert core[0] == count[0] && IsDigit(count[0]);
    assert core[|core| - 1] == if unit == "" then count[|count| - 1] else unit[|unit| - 1];
    TrimDropsBlanks(before, core, tail);
  }

  lemma {:induction false} ParseMeans(before: string, count: string, between: string, unit: string, after: string)
    requires AllBlank(before) && AllBlank(between) && AllBlank(after)
    requires AllDigits(count) && count != "" && IsUnit(unit)
    ensures Parse(before + count + between + unit + after) == Meaning(count, unit)
  {
    var text := before + count + between + unit + after;
    ComesApart(before, count, between, unit, after);
    CoreMeans(text, Trim(text), count, unit);
  }

  lemma {:induction false} CoreMeans(text: string, core: string, count: string, unit: string)
    requires AllDigits(count) && count != "" && Trim(text) == core
    requires Digits(core) == |count| && core[..|count|] == count && Trim(core[|count|..]) == unit
    ensures Parse(text) == Meaning(count, unit)
  {
    UnitsAreKnown(Lower(unit));
  }

  lemma {:induction false} PrintedParses(count: nat, unit: string, multiple: nat, bytes: nat)
    requires IsUnit(unit) && Lower(unit) in UNITS && UNITS[Lower(unit)] == multiple
    requires count <= U64_MAX && count * multiple == bytes <= U64_MAX
    ensures Parse(Decimal(count) + unit) == Ok(bytes)
  {
    var digits := Decimal(count);
    assert Meaning(digits, unit) == Ok(bytes) by {
      ValueOfDecimal(count);
    }
    assert Parse(digits + unit) == Meaning(digits, unit) by {
      assert "" + digits + "" + unit + "" == digits + unit;
      ParseMeans("", digits, "", unit, "");
    }
  }

  /** The printed units, largest first, the last of them plain bytes. */
  const PRINTED: seq<(string, nat)> := [("GiB", 1073_741_824), ("MiB", 1048_576), ("KiB", 1024), ("B", 1)]

  /** `bytes` is a whole number of that unit, and not less than one, but for plain bytes. */
  ghost predicate IsWhole(bytes: nat, unit: nat)
    requires unit < |PRINTED|
  {
    bytes % PRINTED[unit].1 == 0 && (bytes >= PRINTED[unit].1 || unit == 3)
  }

  /** A count prints in the largest unit it is a whole number of. */
  lemma {:induction false} PrintsTheLargestUnit(bytes: nat, unit: nat)
    requires unit < |PRINTED| && IsWhole(bytes, unit)
    requires forall larger :: 0 <= larger < unit ==> !IsWhole(bytes, larger)
    ensures Display(bytes) == Decimal(bytes / PRINTED[unit].1) + PRINTED[unit].0
  {
    assert unit > 0 ==> !IsWhole(bytes, 0);
    assert unit > 1 ==> !IsWhole(bytes, 1);
    assert unit > 2 ==> !IsWhole(bytes, 2);
  }

  /** Every 64-bit count prints as a value that parses back to it. */
  lemma {:induction false} RoundTrip(bytes: nat)
    requires bytes <= U64_MAX
    ensures Parse(Display(bytes)) == Ok(bytes)
  {
    PrintedUnits();
    var text := Display(bytes);
    assert Parse(text) == Ok(bytes) by {
      if bytes >= GIB && bytes % GIB == 0 {
        PrintedParses(bytes / GIB, "GiB", GIB, bytes);
      } else if bytes >= MIB && bytes % MIB == 0 {
        PrintedParses(bytes / MIB, "MiB", MIB, bytes);
      } else if bytes >= KIB && bytes % KIB == 0 {
        PrintedParses(bytes / KIB, "KiB", KIB, bytes);
      } else {
        PrintedParses(bytes, "B", 1, bytes);
      }
    }
  }

  lemma {:induction false} PrintedUnits()
    ensures Lower("B") in UNITS && UNITS[Lower("B")] == 1 && IsUnit("B")
    ensures Lower("KiB") in UNITS && UNITS[Lower("KiB")] == KIB && IsUnit("KiB")
    ensures Lower("MiB") in UNITS && UNITS[Lower("MiB")] == MIB && IsUnit("MiB")
    ensures Lower("GiB") in UNITS && UNITS[Lower("GiB")] == GIB && IsUnit("GiB")
  {
    assert Lower("B") == "b" && Lower("KiB") == "kib" && Lower("MiB") == "mib" && Lower("GiB") == "gib";
  }

  /** `text` is `count` and `unit` between blanks. */
  ghost predicate Reads(text: string, before: string, count: string, between: string, unit: string, after: string) {
    && AllBlank(before) && AllBlank(between) && AllBlank(after)
    && AllDigits(count) && count != ""
    && text == before + count + between + unit + after
  }

  ghost predicate IsProduct(bytes: nat, count: string, unit: string) {
    AllDigits(count) && Lower(unit) in UNITS && bytes == Value(count) * UNITS[Lower(unit)] <= U64_MAX
  }

  /** Any text that is accepted is a count and a unit between blanks, and yields exactly their product:
      the arithmetic never wraps, and nothing else is accepted. */
  lemma {:induction false} AcceptedIsExact(text: string)
    requires Parse(text).Ok?
    ensures exists before, count, between, unit, after ::
      Reads(text, before, count, between, unit, after) && IsProduct(Parse(text).bytes, count, unit)
  {
    var before, value, after := TrimSplits(text);
    var n := Digits(value);
    var count := value[..n];
    var between, unit, last := TrimSplits(value[n..]);
    assert text == before + count + between + unit + (last + after) by {
      assert value == count + (between + unit + last);
    }
    AllBlankTogether(last, after);
    UnitsAreKnown(Lower(unit));
    assert Reads(text, before, count, between, unit, last + after);
    assert IsProduct(Parse(text).bytes, count, unit);
  }

  lemma {:induction false} AllBlankTogether(a: string, b: string)
    requires AllBlank(a) && AllBlank(b)
    ensures AllBlank(a + b)
  {
  }

  lemma {:induction false} TrimStartSplits(s: string) returns (blanks: string)
    ensures AllBlank(blanks) && s == blanks + TrimStart(s)
  {
    if s != "" && IsBlank(s[0]) {
      var rest := TrimStartSplits(s[1..]);
      blanks := [s[0]] + rest;
    } else {
      blanks := "";
    }
  }

  lemma {:induction false} TrimEndSplits(s: string) returns (blanks: string)
    ensures AllBlank(blanks) && s == TrimEnd(s) + blanks
  {
    if s != "" && IsBlank(s[|s| - 1]) {
      var rest := TrimEndSplits(s[..|s| - 1]);
      blanks := rest + [s[|s| - 1]];
    } else {
      blanks := "";
    }
  }

  lemma {:induction false} TrimSplits(s: string) returns (before: string, value: string, after: string)
    ensures AllBlank(before) && AllBlank(after) && value == Trim(s) && s == before + value + after
  {
    before := TrimStartSplits(s);
    after := TrimEndSplits(TrimStart(s));
    value := Trim(s);
  }
}
