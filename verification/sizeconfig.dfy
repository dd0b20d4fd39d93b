/** `config_size`: a byte count written as digits with an optional unit
    letter, and the `maxsize` validation around it in the pack script's
    `config`. */
module SizeConfig {
  import opened Wrappers
  import opened Decimal

  /** The error `config_size` raises. The code appends the literal text
      `'str'`, not the input, so the message is the same for every input. */
  const InvalidSize: ConfigError := ConfigError("Invalid size " + "str")

  predicate IsUnit(c: char)
  {
    c == 'k' || c == 'K' || c == 'm' || c == 'M' || c == 'g' || c == 'G'
  }

  function Multiplier(c: char): nat
    requires IsUnit(c)
  {
    if c == 'k' || c == 'K' then 1024
    else if c == 'm' || c == 'M' then 1024 * 1024
    else 1024 * 1024 * 1024
  }

  /** The `for c in str` loop of `config_size` from the point where `bytes`
      has been accumulated and `inDigits` is the flag `num == 1`. */
  function SizeLoop(s: string, bytes: nat, inDigits: bool): (r: Result<nat>)
    ensures r.Failure? ==> r.error == InvalidSize
    ensures r.Success? ==> r.value >= bytes
    ensures !inDigits ==> (r.Success? <==> s == [])
  {
    if s == [] then Success(bytes)
    else if !inDigits then Failure(InvalidSize)
    else if IsDigit(s[0]) then SizeLoop(s[1..], bytes * 10 + DigitValue(s[0]), true)
    else if s[0] == 'k' || s[0] == 'K' then SizeLoop(s[1..], bytes * 1024, false)
    else if s[0] == 'm' || s[0] == 'M' then SizeLoop(s[1..], bytes * (1024 * 1024), false)
    else if s[0] == 'g' || s[0] == 'G' then SizeLoop(s[1..], bytes * (1024 * 1024 * 1024), false)
    else Failure(InvalidSize)
  }

  /** The number of digits `s` starts with. */
  function LeadingDigits(s: string): (r: nat)
    ensures r <= |s|
    ensures forall i :: 0 <= i < r && i < |s| ==> IsDigit(s[i])
    ensures r < |s| ==> !IsDigit(s[r])
  {
    if s == [] || !IsDigit(s[0]) then 0
    else 1 + LeadingDigits(s[1..])
  }

  /** The grammar `digit* unit?`: digits, then at most one unit letter, then
      nothing. */
  predicate WellFormedSize(s: string)
  {
    var k := LeadingDigits(s);
    k == |s| || (k == |s| - 1 && IsUnit(s[k]))
  }

  /** The byte count a well-formed size denotes: the digits' value (0 when
      there are none) times the unit's multiplier. */
  function SizeValue(s: string): nat
    requires WellFormedSize(s)
  {
    var k := LeadingDigits(s);
    DigitsValue(s[..k]) * (if k == |s| then 1 else Multiplier(s[k]))
  }

  /** Running the loop on `s` after the digits `p` have been read. */
  lemma {:induction false} SizeLoopAfterDigits(p: string, s: string)
    requires AllDigits(p)
    ensures AllDigits(p + s[..LeadingDigits(s)])
    ensures SizeLoop(s, DigitsValue(p), true)
      == if WellFormedSize(s)
         then Success(DigitsValue(p + s[..LeadingDigits(s)])
                      * (if LeadingDigits(s) == |s| then 1 else Multiplier(s[LeadingDigits(s)])))
         else Failure(InvalidSize)
    decreases |s|
  {
    var k := LeadingDigits(s);
    assert AllDigits(p + s[..k]);
    if s == [] {
      assert p + s[..k] == p;
    } else if IsDigit(s[0]) {
      var p' := p + [s[0]];
      assert p'[..|p'| - 1] == p;
      assert DigitsValue(p') == DigitsValue(p) * 10 + DigitValue(s[0]);
      SizeLoopAfterDigits(p', s[1..]);
      assert p' + s[1..][..k - 1] == p + s[..k];
    } else {
      assert p + s[..k] == p;
    }
  }

  /** `config_size`. */
  function ConfigSize(s: string): (r: Result<nat>)
    ensures r.Success? <==> WellFormedSize(s)
    ensures r.Failure? ==> r.error == InvalidSize
    ensures r.Success? ==> r.value == SizeValue(s)
  {
    SizeLoopAfterDigits("", s);
    assert "" + s[..LeadingDigits(s)] == s[..LeadingDigits(s)];
    SizeLoop(s, 0, true)
  }

  /** A number rendered in decimal, with or without a unit letter, reads back
      as that number times the unit. */
  lemma SizeRoundTrip(n: nat, unit: string)
    requires unit == [] || (|unit| == 1 && IsUnit(unit[0]))
    ensures ConfigSize(NatToString(n) + unit)
      == Success(n * (if unit == [] then 1 else Multiplier(unit[0])))
  {
    var d := NatToString(n);
    var s := d + unit;
    LeadingDigitsOfNumber(d, unit);
    assert s[..|d|] == d;
    NatToStringRoundTrip(n);
  }

  lemma {:induction false} LeadingDigitsOfNumber(d: string, rest: string)
    requires AllDigits(d)
    requires rest == [] || !IsDigit(rest[0])
    ensures LeadingDigits(d + rest) == |d|
  {
    if d != [] {
      assert (d + rest)[1..] == d[1..] + rest;
      LeadingDigitsOfNumber(d[1..], rest);
    } else {
      assert d + rest == rest;
    }
  }

  /** Examples of the grammar. */
  lemma ConfigSizeExamples()
    ensures ConfigSize("12m") == Success(12 * 1024 * 1024)
    ensures ConfigSize("7") == Success(7)
    ensures ConfigSize("2g") == Success(2 * 1024 * 1024 * 1024)
    ensures ConfigSize("12mb").Failure? && ConfigSize("m12").Failure?
    ensures ConfigSize("12x").Failure?
    ensures ConfigSize("") == Success(0) && ConfigSize("k") == Success(0)
  {
    SizeRoundTrip(12, "m");
    SizeRoundTrip(7, "");
    SizeRoundTrip(2, "g");
  }

  // Python 2 compares a `str` with an `int` by type, never by value: `==` is
  // always false, and every number orders before every string.

  predicate RawEqualsInt(raw: string, n: int)
  {
    false
  }

  predicate RawBelowInt(raw: string, n: int)
  {
    false
  }

  /** The `maxsize` step of the pack script's `config` as written: the zero
      and 4096-byte checks compare the raw string, so neither ever rejects. */
  function PackMaxsize(raw: string): (r: Result<nat>)
    ensures r == ConfigSize(raw)
  {
    match ConfigSize(raw)
    case Failure(e) => Failure(e)
    case Success(m) =>
      if RawEqualsInt(raw, 0) then Failure(ConfigError("Zero maxsize"))
      else if RawBelowInt(raw, 4096) then Failure(ConfigError("Invalid maxsize value " + NatToString(m)))
      else Success(m)
  }

  /** A zero budget and a 1 KiB budget both get through as written. */
  lemma PackMaxsizeAcceptsTinyBudgets()
    ensures PackMaxsize("0") == Success(0)
    ensures PackMaxsize("1k") == Success(1024)
  {
    SizeRoundTrip(0, "");
    SizeRoundTrip(1, "k");
  }

  /** The `maxsize` step as evidently intended: the parsed value is checked. */
  function MaxsizeChecked(raw: string): (r: Result<nat>)
    ensures r.Success? <==> ConfigSize(raw).Success? && ConfigSize(raw).value >= 4096
    ensures r.Success? ==> r.value == ConfigSize(raw).value
    ensures ConfigSize(raw) == Success(0) ==> r == Failure(ConfigError("Zero maxsize"))
  {
    match ConfigSize(raw)
    case Failure(e) => Failure(e)
    case Success(m) =>
      if m == 0 then Failure(ConfigError("Zero maxsize"))
      else if m < 4096 then Failure(ConfigError("Invalid maxsize value " + NatToString(m)))
      else Success(m)
  }

  /** The intended checks turn away the budgets the written code lets in. */
  lemma MaxsizeCheckedRejectsTinyBudgets()
    ensures MaxsizeChecked("0") == Failure(ConfigError("Zero maxsize"))
    ensures MaxsizeChecked("1k").Failure?
    ensures MaxsizeChecked("4k") == Success(4096)
  {
    SizeRoundTrip(0, "");
    SizeRoundTrip(1, "k");
    SizeRoundTrip(4, "k");
  }
}
