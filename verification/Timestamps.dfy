/** Timestamps split into epoch, fraction and encoded offset and put together again, and TIME strings. */
module Timestamps {
  import opened Common
  import opened Decimals

  const I64_MIN: int := -0x8000_0000_0000_0000
  const I64_MAX: int := 0x7FFF_FFFF_FFFF_FFFF
  const I32_MIN: int := -0x8000_0000
  const I32_MAX: int := 0x7FFF_FFFF
  const NANOS: int := 1_000_000_000
  const DAY: int := 86400

  predicate I64(n: int) { I64_MIN <= n <= I64_MAX }
  predicate I32(n: int) { I32_MIN <= n <= I32_MAX }

  /** Division and remainder that round toward zero. */
  function TruncDiv(a: int, b: int): int
    requires b > 0
  {
    if a >= 0 then a / b else -((-a) / b)
  }

  function TruncRem(a: int, b: int): int
    requires b > 0
  {
    a - b * TruncDiv(a, b)
  }

  lemma NatRemRange(a: nat, b: int)
    requires b > 0
    ensures 0 <= a - b * (a / b) < b && 0 <= b * (a / b) <= a
  {
    assert a == b * (a / b) + a % b;
  }

  lemma TruncRemRange(a: int, b: int)
    requires b > 0
    ensures -b < TruncRem(a, b) < b
    ensures a >= 0 ==> 0 <= TruncRem(a, b) && 0 <= b * TruncDiv(a, b) <= a
    ensures a <= 0 ==> TruncRem(a, b) <= 0 && a <= b * TruncDiv(a, b) <= 0
  {
    var n: nat := if a >= 0 then a else -a;
    NatRemRange(n, b);
    var q := n / b;
    assert b * (-q) == -(b * q);
  }

  // --------------------------------------------------------------------- instants and offsets

  /** A column's raw value times this is the instant in nanoseconds. */
  datatype TimeUnit = Second | Millisecond | Microsecond | Nanosecond

  function NanosPer(unit: TimeUnit): int {
    match unit
    case Second => 1_000_000_000
    case Millisecond => 1_000_000
    case Microsecond => 1_000
    case Nanosecond => 1
  }

  /** A thousand of each unit make the next greater one, and the smallest is the nanosecond. */
  lemma UnitFactors()
    ensures NanosPer(Nanosecond) == 1 && NanosPer(Microsecond) == 1000 * NanosPer(Nanosecond)
    ensures NanosPer(Millisecond) == 1000 * NanosPer(Microsecond) && NanosPer(Second) == 1000 * NanosPer(Millisecond)
  {
  }

  /** Two's complement wrap-around. */
  function Wrap64(n: int): (r: int)
    ensures I64(r)
  {
    (n + 0x8000_0000_0000_0000) % 0x1_0000_0000_0000_0000 - 0x8000_0000_0000_0000
  }

  function Wrap32(n: int): (r: int)
    ensures I32(r)
  {
    (n + 0x8000_0000) % 0x1_0000_0000 - 0x8000_0000
  }

  lemma Wrap64Twice(n: int, k: int)
    ensures Wrap64(Wrap64(n) + k) == Wrap64(n + k)
  {
    var m := 0x1_0000_0000_0000_0000;
    var q := (n + 0x8000_0000_0000_0000) / m;
    assert Wrap64(n) == n - m * q;
    ShiftMod(n + k + 0x8000_0000_0000_0000, m, q);
  }

  lemma ShiftMod(n: int, m: int, q: int)
    requires m == 0x1_0000_0000_0000_0000
    ensures (n - m * q) % m == n % m
  {
  }

  function ToNanoseconds(v: int, unit: TimeUnit): (r: int)
    requires I64(v)
    ensures I64(r)
  {
    Wrap64(v * NanosPer(unit))
  }

  /** The instant is exact for precisely the values whose nanoseconds fit. */
  lemma ToNanosecondsExact(v: int, unit: TimeUnit)
    requires I64(v)
    ensures ToNanoseconds(v, unit) == v * NanosPer(unit) <==>
            TruncDiv(I64_MIN, NanosPer(unit)) <= v <= TruncDiv(I64_MAX, NanosPer(unit))
  {
    match unit
    case Second =>
    case Millisecond =>
    case Microsecond =>
    case Nanosecond =>
  }

  function Epoch(nanos: int): int { TruncDiv(nanos, NANOS) }
  function Fraction(nanos: int): int { TruncRem(nanos, NANOS) }

  /** Putting the parts together gives the instant back, with no overflow on either way. */
  lemma SplitRecombines(nanos: int)
    requires I64(nanos)
    ensures I64(Epoch(nanos)) && I32(Fraction(nanos)) && I64(Epoch(nanos) * NANOS)
    ensures Epoch(nanos) * NANOS + Fraction(nanos) == nanos
    ensures NANOS == NanosPer(Second) && -1_000_000_000 < Fraction(nanos) < 1_000_000_000
    ensures nanos >= 0 ==> Epoch(nanos) >= 0 && Fraction(nanos) >= 0
    ensures nanos <= 0 ==> Epoch(nanos) <= 0 && Fraction(nanos) <= 0
  {
    TruncRemRange(nanos, NANOS);
    assert NANOS * TruncDiv(nanos, NANOS) == Epoch(nanos) * NANOS;
  }

  /** Epoch and fraction put together in 64 bits. */
  function Recombine(epoch: int, fraction: int): (r: int)
    ensures I64(r)
  {
    Wrap64(Wrap64(epoch * NANOS) + fraction)
  }

  /** Recombining any epoch and fraction is exact precisely when the instant fits in 64 bits. */
  lemma RecombineExactIff(epoch: int, fraction: int)
    requires I64(epoch) && I32(fraction)
    ensures Recombine(epoch, fraction) == epoch * NANOS + fraction <==> I64(epoch * NANOS + fraction)
  {
    Wrap64Twice(epoch * NANOS, fraction);
  }

  /** Offset from UTC in seconds, as whole minutes above minus one day. */
  function EncodeOffset(seconds: int): int { TruncDiv(seconds, 60) + 1440 }

  predicate ValidOffset(seconds: int) { -DAY < seconds < DAY }

  /** Offsets of a day or more fall back to UTC. */
  function Fallback(seconds: int): int { if ValidOffset(seconds) then seconds else 0 }

  /** The seconds are computed in 32 bits. */
  function DecodeOffset(minutes: int): int { Fallback(Wrap32(Wrap32(minutes - 1440) * 60)) }

  /** Encoded, a zone's minutes count from 1440 for UTC, and only offsets short of a day are kept. */
  lemma OffsetCode(minutes: int)
    requires -1440 < minutes < 1440
    ensures EncodeOffset(60 * minutes) == 1440 + minutes && DecodeOffset(1440 + minutes) == 60 * minutes
    ensures DecodeOffset(0) == DecodeOffset(2880) == 0
  {
  }

  /** The offset that encoded minutes stand for. */
  function MeantOffset(minutes: int): int { Fallback((minutes - 1440) * 60) }

  const TWO32: int := 0x1_0000_0000

  /** Less than a day from the k-th multiple of 2^32, and not the multiple itself. */
  predicate NearMultiple(n: int, k: int) { n != k * TWO32 && ValidOffset(n - k * TWO32) }

  ghost predicate WrapsIntoADay(n: int) {
    exists k: int :: k != 0 && NearMultiple(n, k)
  }

  lemma Wrap32Is(n: int, k: int)
    requires I32(n - k * TWO32)
    ensures Wrap32(n) == n - k * TWO32
  {
    var a := n - k * TWO32 + 0x8000_0000;
    assert (a + k * TWO32) % TWO32 == a % TWO32;
  }

  lemma Wrap32Off(n: int) returns (k: int)
    ensures Wrap32(n) == n - k * TWO32
  {
    k := (n + 0x8000_0000) / TWO32;
  }

  /** Wrapping before the multiplication makes no difference. */
  lemma DecodeWrapsOnce(minutes: int)
    ensures DecodeOffset(minutes) == Fallback(Wrap32((minutes - 1440) * 60))
  {
    var k := Wrap32Off(minutes - 1440);
    var inner := Wrap32(minutes - 1440) * 60;
    var j := Wrap32Off(inner);
    assert inner == (minutes - 1440) * 60 - 60 * k * TWO32;
    Wrap32Is((minutes - 1440) * 60, 60 * k + j);
  }

  /** Offsets decode as meant exactly unless their seconds come near a multiple of 2^32 other than zero. */
  lemma DecodeExactIff(minutes: int)
    ensures DecodeOffset(minutes) == MeantOffset(minutes) <==> !WrapsIntoADay((minutes - 1440) * 60)
  {
    var n := (minutes - 1440) * 60;
    DecodeWrapsOnce(minutes);
    if k :| k != 0 && NearMultiple(n, k) {
      Wrap32Is(n, k);
      FarFromZero(n, k);
    } else {
      var k := Wrap32Off(n);
      assert k == 0 || !NearMultiple(n, k);
      if k != 0 {
        FarFromZero(n, k);
      }
    }
  }

  lemma FarFromZero(n: int, k: int)
    requires k != 0 && I32(n - k * TWO32)
    ensures !ValidOffset(n)
  {
  }

  /** In particular while the seconds fit in 32 bits. */
  lemma DecodeExact(minutes: int)
    requires I32((minutes - 1440) * 60)
    ensures DecodeOffset(minutes) == MeantOffset(minutes)
  {
    var n := (minutes - 1440) * 60;
    forall k: int | k != 0
      ensures !NearMultiple(n, k)
    {
    }
    DecodeExactIff(minutes);
  }

  /** An offset of more than a hundred years that decodes to 44 seconds. */
  lemma DecodeWraps()
    ensures I32(71_584_229) && DecodeOffset(71_584_229) == 44 && MeantOffset(71_584_229) == 0
  {
  }

  lemma WholeMinutes(seconds: int)
    ensures TruncRem(seconds, 60) == 0 <==> seconds % 60 == 0
  {
  }

  lemma EncodedInRange(seconds: int)
    requires ValidOffset(seconds)
    ensures 0 < EncodeOffset(seconds) < 2880
    ensures (EncodeOffset(seconds) - 1440) * 60 == seconds - TruncRem(seconds, 60)
    ensures ValidOffset(seconds - TruncRem(seconds, 60))
  {
    TruncRemRange(seconds, 60);
  }

  /** A valid offset loses its seconds, so it survives exactly when it is a whole number of minutes. */
  lemma OffsetSurvivesIff(seconds: int)
    requires ValidOffset(seconds)
    ensures DecodeOffset(EncodeOffset(seconds)) == seconds - TruncRem(seconds, 60)
    ensures DecodeOffset(EncodeOffset(seconds)) == seconds <==> seconds % 60 == 0
  {
    EncodedInRange(seconds);
    Survives(EncodeOffset(seconds));
    WholeMinutes(seconds);
  }

  lemma Survives(minutes: int)
    requires 0 < minutes < 2880
    ensures DecodeOffset(minutes) == (minutes - 1440) * 60
  {
    DecodeExact(minutes);
  }

  // ---------------------------------------------------------------------------- whole columns

  /** A zone's offset in seconds by instant; None when the zone's name cannot be parsed. */
  type Zone = Option<int -> int>

  ghost predicate RulesOk(rules: int -> int) {
    forall n: int :: ValidOffset(rules(n))
  }

  /** A negative fraction is taken for zero. */
  function ZoneMinutes(zone: Zone, nanos: int): int {
    if nanos == 0 || zone.None? then 1440
    else
      var fraction := if Fraction(nanos) < 0 then 0 else Fraction(nanos);
      EncodeOffset(zone.value(Epoch(nanos) * NANOS + fraction))
  }

  datatype Struct = Struct(epochs: seq<Option<int>>, fractions: seq<Option<int>>, zones: seq<Option<int>>)

  function MapSome(xs: seq<Option<int>>, f: int -> int): (r: seq<Option<int>>)
    ensures |r| == |xs|
    ensures forall i :: 0 <= i < |xs| ==> r[i] == if xs[i].None? then None else Some(f(xs[i].value))
  {
    seq(|xs|, i requires 0 <= i < |xs| => if xs[i].None? then None else Some(f(xs[i].value)))
  }

  function ToStruct(column: seq<Option<int>>, zone: Zone): Struct {
    Struct(MapSome(column, n => Epoch(n)), MapSome(column, n => Fraction(n)),
           MapSome(column, n => ZoneMinutes(zone, n)))
  }

  /** An instant to be printed at an offset. */
  datatype Stamp = Stamp(nanos: int, offset: int)

  /** A null offset slot reads as zero. */
  function SlotValue(x: Option<int>): int { if x.Some? then x.value else 0 }

  method BuildTimestamps(s: Struct, zoned: bool) returns (r: seq<Option<Stamp>>)
    requires |s.epochs| == |s.fractions| == |s.zones|
    ensures |r| == |s.epochs|
    ensures forall i :: 0 <= i < |r| ==>
              r[i] == if s.epochs[i].None? || s.fractions[i].None? then None
                      else Some(Stamp(Recombine(s.epochs[i].value, s.fractions[i].value),
                                      if zoned then DecodeOffset(SlotValue(s.zones[i])) else 0))
    ensures forall i :: 0 <= i < |r| && r[i].Some? && s.zones[i].None? ==> r[i].value.offset == 0
  {
    r := [];
    for i := 0 to |s.epochs|
      invariant |r| == i
      invariant forall k :: 0 <= k < i ==>
                  r[k] == if s.epochs[k].None? || s.fractions[k].None? then None
                          else Some(Stamp(Recombine(s.epochs[k].value, s.fractions[k].value),
                                          if zoned then DecodeOffset(SlotValue(s.zones[k])) else 0))
    {
      if s.epochs[i].None? || s.fractions[i].None? {
        r := r + [None];
        continue;
      }
      var nanos := Recombine(s.epochs[i].value, s.fractions[i].value);
      if zoned {
        var seconds := Wrap32(Wrap32(SlotValue(s.zones[i]) - 1440) * 60);
        r := r + [Some(Stamp(nanos, if -DAY < seconds < DAY then seconds else 0))];
      } else {
        r := r + [Some(Stamp(nanos, 0))];
      }
    }
  }

  /** The offset a non-null instant comes back with. */
  function OffsetBack(zone: Zone, nanos: int): int { DecodeOffset(ZoneMinutes(zone, nanos)) }

  /** Converting a column and building it again keeps nulls and every instant. */
  method ConvertAndBuild(column: seq<Option<int>>, zone: Zone) returns (r: seq<Option<Stamp>>)
    requires forall i :: 0 <= i < |column| && column[i].Some? ==> I64(column[i].value)
    ensures |r| == |column|
    ensures forall i :: 0 <= i < |column| ==>
              r[i] == if column[i].None? then None else Some(Stamp(column[i].value, OffsetBack(zone, column[i].value)))
  {
    r := BuildTimestamps(ToStruct(column, zone), true);
    forall i | 0 <= i < |column| && column[i].Some?
      ensures r[i] == Some(Stamp(column[i].value, OffsetBack(zone, column[i].value)))
    {
      SplitRecombines(column[i].value);
      RecombineExactIff(Epoch(column[i].value), Fraction(column[i].value));
    }
  }

  /** An instant in a zone that cannot be parsed comes back at UTC, and so does the epoch in every zone. */
  lemma OffsetBackAtUtc(zone: Zone, nanos: int)
    ensures OffsetBack(None, nanos) == 0 && OffsetBack(zone, 0) == 0
  {
  }

  /** The instant at which the zone is read: before the epoch, the next whole second. */
  function ReadAt(nanos: int): int { if nanos >= 0 then nanos else Epoch(nanos) * NANOS }

  /** Every non-zero instant comes back with its zone's offset at that reading, less its seconds. */
  lemma OffsetBackIs(rules: int -> int, nanos: int)
    requires I64(nanos) && RulesOk(rules) && nanos != 0
    ensures OffsetBack(Some(rules), nanos) == rules(ReadAt(nanos)) - TruncRem(rules(ReadAt(nanos)), 60)
  {
    SplitRecombines(nanos);
    TruncRemRange(nanos, NANOS);
    OffsetSurvivesIff(rules(ReadAt(nanos)));
  }

  /**
   * An instant keeps its zone's offset exactly when that is whole minutes and the zone has the same
   * minutes where it is read; the epoch itself is always put at UTC.
   */
  lemma OffsetKeptIff(rules: int -> int, nanos: int)
    requires I64(nanos) && RulesOk(rules)
    ensures OffsetBack(Some(rules), nanos) == rules(nanos) <==>
            if nanos == 0 then rules(nanos) == 0
            else rules(nanos) % 60 == 0 && TruncDiv(rules(ReadAt(nanos)), 60) == TruncDiv(rules(nanos), 60)
  {
    if nanos != 0 {
      OffsetBackIs(rules, nanos);
      OffsetSurvivesIff(rules(nanos));
      MinutesAgree(rules(ReadAt(nanos)), rules(nanos));
    }
  }

  lemma MinutesAgree(a: int, b: int)
    ensures a - TruncRem(a, 60) == b <==> b % 60 == 0 && TruncDiv(a, 60) == TruncDiv(b, 60)
  {
    TruncRemRange(b, 60);
  }

  /** A zone one hour ahead of UTC until the epoch. */
  function AheadUntilEpoch(): int -> int { (n: int) => if n < 0 then 3600 else 0 }

  /** Half a second before the epoch the zone is read at the epoch: a change of offset there is missed. */
  lemma PreEpochOffsetMissed()
    ensures OffsetBack(Some(AheadUntilEpoch()), -500_000_000) == 0 && AheadUntilEpoch()(-500_000_000) == 3600
  {
    assert ReadAt(-500_000_000) == 0 && TruncRem(0, 60) == 0;
    assert RulesOk(AheadUntilEpoch());
    OffsetBackIs(AheadUntilEpoch(), -500_000_000);
  }

  // ------------------------------------------------------------------------------- TIME strings

  /** Padded with zeros to the scale; a longer fraction is left as it is. */
  function FormatTime(seconds: string, fraction: string, scale: nat): string {
    var zeros := if scale > |fraction| then scale - |fraction| else 0;
    seconds + ['.'] + Zeros(zeros) + fraction
  }

  function Scale(unit: TimeUnit): nat {
    match unit
    case Second => 3
    case Millisecond => 3
    case Microsecond => 6
    case Nanosecond => 9
  }

  /** A TIME value of the day in its unit; whole seconds are printed with three zeros. */
  function ConvertTime(v: nat, unit: TimeUnit): string {
    match unit
    case Second => FormatTime(Decimal(v), "000", 0)
    case Millisecond => FormatTime(Decimal(v / 1000), Decimal(v % 1000), 3)
    case Microsecond => FormatTime(Decimal(v / 1_000_000), Decimal(v % 1_000_000), 6)
    case Nanosecond => FormatTime(Decimal(v / 1_000_000_000), Decimal(v % 1_000_000_000), 9)
  }

  /** A decimal number read exactly: its digits without the point, and how many follow the point. */
  datatype Exact = Exact(digits: nat, scale: nat)

  function PointAt(s: string): (n: nat)
    ensures n <= |s| && (forall i :: 0 <= i < n ==> s[i] != '.') && (n < |s| ==> s[n] == '.')
  {
    if s == "" || s[0] == '.' then 0 else 1 + PointAt(s[1..])
  }

  function ReadDecimal(s: string): Option<Exact> {
    var n := PointAt(s);
    if n == |s| || !AllDigits(s[..n]) || !AllDigits(s[n + 1..]) then None
    else Some(Exact(DigitsValue(s[..n] + s[n + 1..]), |s| - n - 1))
  }

  lemma PartsReadBack(whole: string, sub: string)
    requires AllDigits(whole) && AllDigits(sub)
    ensures ReadDecimal(whole + ['.'] + sub) == Some(Exact(DigitsValue(whole + sub), |sub|))
  {
    var s := whole + ['.'] + sub;
    assert s[|whole|] == '.' && forall i :: 0 <= i < |whole| ==> IsDigit(s[i]);
    assert PointAt(s) == |whole|;
    assert s[..|whole|] == whole && s[|whole| + 1..] == sub;
  }

  lemma PaddedValue(digits: string, zeros: nat)
    requires AllDigits(digits)
    ensures DigitsValue(Zeros(zeros) + digits) == DigitsValue(digits)
  {
    ZerosValue(zeros);
    ConcatValue(Zeros(zeros), digits);
  }

  function Padded(digits: string, scale: nat): (r: string)
    requires |digits| <= scale && AllDigits(digits)
    ensures |r| == scale && AllDigits(r)
  {
    Zeros(scale - |digits|) + digits
  }

  lemma FormattedReadsBack(whole: string, digits: string, scale: nat)
    requires AllDigits(whole) && AllDigits(digits) && |digits| <= scale
    ensures ReadDecimal(FormatTime(whole, digits, scale))
            == Some(Exact(DigitsValue(whole + Padded(digits, scale)), scale))
  {
    assert FormatTime(whole, digits, scale) == whole + ['.'] + Padded(digits, scale);
    PartsReadBack(whole, Padded(digits, scale));
  }

  lemma PaddedConcat(whole: string, digits: string, scale: nat)
    requires AllDigits(whole) && AllDigits(digits) && |digits| <= scale
    ensures DigitsValue(whole + Padded(digits, scale)) == DigitsValue(whole) * Pow10(scale) + DigitsValue(digits)
  {
    PaddedValue(digits, scale - |digits|);
    ConcatValue(whole, Padded(digits, scale));
  }

  function Whole(v: nat, unit: TimeUnit): nat { if unit == Second then v * 1000 else v }

  lemma SubsecondsReadBack(whole: nat, sub: nat, scale: nat)
    requires scale >= 1 && sub < Pow10(scale)
    ensures ReadDecimal(FormatTime(Decimal(whole), Decimal(sub), scale))
            == Some(Exact(whole * Pow10(scale) + sub, scale))
  {
    DecimalLength(sub, scale);
    FormattedReadsBack(Decimal(whole), Decimal(sub), scale);
    PaddedConcat(Decimal(whole), Decimal(sub), scale);
    DecimalValue(whole);
    DecimalValue(sub);
  }

  lemma UnitReadsBack(v: nat, whole: nat, sub: nat, scale: nat, p: nat)
    requires scale >= 1 && p == Pow10(scale) && sub < p && v == whole * p + sub
    ensures ReadDecimal(FormatTime(Decimal(whole), Decimal(sub), scale)) == Some(Exact(v, scale))
  {
    SubsecondsReadBack(whole, sub, scale);
  }

  lemma SecondsReadBack(v: nat)
    ensures ReadDecimal(FormatTime(Decimal(v), "000", 0)) == Some(Exact(v * 1000, 3))
  {
    Powers();
    assert FormatTime(Decimal(v), "000", 0) == Decimal(v) + ['.'] + "000";
    assert Zeros(3) == "000";
    PartsReadBack(Decimal(v), "000");
    ZerosValue(3);
    DecimalValue(v);
    ConcatValue(Decimal(v), "000");
  }

  /** Every TIME value prints with exactly the digits of its unit and reads back as the same number. */
  lemma TimeReadsBack(v: nat, unit: TimeUnit)
    ensures ReadDecimal(ConvertTime(v, unit)) == Some(Exact(Whole(v, unit), Scale(unit)))
  {
    Powers();
    match unit
    case Second => SecondsReadBack(v);
    case Millisecond => UnitReadsBack(v, v / 1000, v % 1000, 3, 1000);
    case Microsecond => UnitReadsBack(v, v / 1_000_000, v % 1_000_000, 6, 1_000_000);
    case Nanosecond => UnitReadsBack(v, v / 1_000_000_000, v % 1_000_000_000, 9, 1_000_000_000);
  }

  /** That number, with its digits after the point, is the value's nanoseconds as seconds. */
  lemma TimeIsInSeconds(v: nat, unit: TimeUnit)
    ensures Whole(v, unit) * 1_000_000_000 == v * NanosPer(unit) * Pow10(Scale(unit))
  {
    Powers();
    var (factor, power) := (NanosPer(unit), Pow10(Scale(unit)));
    assert factor * power == if unit == Second then 1_000_000_000_000 else 1_000_000_000;
    assert v * factor * power == v * (factor * power);
  }

  lemma Powers()
    ensures Pow10(3) == 1000 && Pow10(6) == 1_000_000 && Pow10(9) == 1_000_000_000
  {
    assert Pow10(1) == 10 && Pow10(2) == 100 && Pow10(3) == 1000;
    assert Pow10(4) == 10_000 && Pow10(5) == 100_000 && Pow10(6) == 1_000_000;
    assert Pow10(7) == 10_000_000 && Pow10(8) == 100_000_000;
  }
}
