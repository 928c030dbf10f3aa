/** Region replicas given as counts or percentages: what the admission webhook lets through, and
    what the controllers make of it. */
module Admission {
  import opened Basics

  // ---------- decimal numbers ----------

  predicate Digit(c: char) {
    '0' <= c <= '9'
  }

  predicate Digits(s: string) {
    forall i :: 0 <= i < |s| ==> Digit(s[i])
  }

  function Value(s: string): (n: nat)
    requires Digits(s)
  {
    if s == "" then 0
    else 10 * Value(s[..|s| - 1]) + (s[|s| - 1] as int - '0' as int)
  }

  /** strconv.ParseInt in base 10 into 32 bits: an optional sign and at least one digit. */
  function ParseInt32(s: string): (r: Option<int>)
    ensures r.Some? ==> -0x8000_0000 <= r.value < 0x8000_0000
  {
    var signed := s != "" && (s[0] == '+' || s[0] == '-');
    var digits := if signed then s[1..] else s;
    if digits == "" || !Digits(digits) then None
    else
      var n := (if s[0] == '-' then -1 else 1) * Value(digits);
      if -0x8000_0000 <= n < 0x8000_0000 then Some(n) else None
  }

  /** The usual decimal form of a number. */
  function Decimal(n: nat): (s: string) {
    var last := [(n % 10 + '0' as int) as char];
    if n < 10 then last else Decimal(n / 10) + last
  }

  lemma {:induction false} DecimalValue(n: nat)
    ensures Decimal(n) != "" && Digits(Decimal(n)) && Value(Decimal(n)) == n
  {
    var s := Decimal(n);
    if n < 10 {
      assert s[..|s| - 1] == "";
    } else {
      DecimalValue(n / 10);
      assert s[..|s| - 1] == Decimal(n / 10);
    }
  }

  // ---------- one region ----------

  datatype IntOrString = IntVal(count: int) | StrVal(text: string)

  datatype Error = Negative | NoTotal | NoPercentSign | NotANumber | OutOfRange

  datatype Result<T> = Ok(value: T) | Err(error: Error)

  /** The percentage a text stands for. */
  function Percentage(text: string): (r: Result<nat>)
    ensures r.Ok? ==> r.value <= 100
  {
    if text == "" || text[|text| - 1] != '%' then Err(NoPercentSign)
    else match ParseInt32(text[..|text| - 1])
      case None => Err(NotANumber)
      case Some(p) => if p > 100 || p < 0 then Err(OutOfRange) else Ok(p)
  }

  /** Every percentage from 0 to 100 can be written, and reads back as itself. */
  lemma PercentageRoundTrip(p: nat)
    requires p <= 100
    ensures Percentage(Decimal(p) + "%") == Ok(p)
  {
    DecimalValue(p);
    var text := Decimal(p) + "%";
    assert text[..|text| - 1] == Decimal(p);
  }

  /** `total * percent / 100` rounded to the nearest number, halves up. */
  function Share(total: nat, percent: nat): (r: nat)
    ensures -100 < 200 * r - 2 * total * percent <= 100
  {
    (2 * total * percent + 100) / 200
  }

  /** The replicas of a region, out of `total` for the whole deployment. */
  function ParseRegionReplicas(total: int, replicas: IntOrString): (r: Result<nat>) {
    match replicas
    case IntVal(count) => if count < 0 then Err(Negative) else Ok(count)
    case StrVal(text) =>
      if total < 0 then Err(NoTotal)
      else match Percentage(text)
        case Ok(percent) => Ok(Share(total, percent))
        case Err(e) => Err(e)
  }

  // ---------- the webhook ----------

  /** Regions in the order of the spec; a region's replicas may be left out. */
  type Regions = seq<Option<IntOrString>>

  /** `Crashed` is a dereferenced nil. */
  datatype Verdict = Accepted | Rejected | Crashed

  predicate Count(r: Option<IntOrString>) {
    r.Some? && r.value.IntVal?
  }

  predicate Text(r: Option<IntOrString>) {
    r.Some? && r.value.StrVal?
  }

  predicate Percent(r: Option<IntOrString>) {
    Text(r) ==> Percentage(r.value.text).Ok?
  }

  /** The percentages of the regions that have one. */
  function PercentSum(regions: Regions): (n: nat)
    requires forall i :: 0 <= i < |regions| ==> Percent(regions[i])
  {
    if regions == [] then 0
    else
      var last := regions[|regions| - 1];
      assert Percent(last);
      PercentSum(regions[..|regions| - 1]) + if Text(last) then Percentage(last.value.text).value else 0
  }

  /** What the webhook lets through, in one sentence. */
  predicate Admissible(total: Option<int>, regions: Regions) {
    if total.None? || total.value <= 0 then
      forall i :: 0 <= i < |regions| ==> !Text(regions[i])
    else if exists i :: 0 <= i < |regions| && Count(regions[i]) then
      Count(regions[0]) && forall i :: 0 <= i < |regions| ==> !Text(regions[i])
    else
      (forall i :: 0 <= i < |regions| ==> Percent(regions[i])) && PercentSum(regions) == 100
  }

  /** A total, a count in some region, and nothing in the first one. */
  predicate CrashesOn(total: Option<int>, regions: Regions) {
    && total.Some? && total.value > 0
    && (exists i :: 0 <= i < |regions| && Count(regions[i]))
    && regions[0].None?
  }

  /** Whether every region given has the first one's type; `None` when the first one is nil. */
  method IsTypeConsistent(regions: Regions) returns (r: Option<bool>)
    ensures r.None? <==> regions != [] && regions[0].None?
    ensures regions == [] ==> r == Some(true)
    ensures regions != [] && Count(regions[0]) ==>
              (r == Some(true) <==> forall i :: 0 <= i < |regions| ==> !Text(regions[i]))
    ensures regions != [] && Text(regions[0]) ==>
              (r == Some(true) <==> forall i :: 0 <= i < |regions| ==> !Count(regions[i]))
  {
    if |regions| == 0 {
      return Some(true);
    }
    if regions[0].None? {
      return None;
    }
    var counts := regions[0].value.IntVal?;
    for i := 0 to |regions|
      invariant forall j :: 0 <= j < i ==> regions[j].Some? ==> regions[j].value.IntVal? == counts
    {
      if regions[i].Some? && regions[i].value.IntVal? != counts {
        assert regions[i].value.IntVal? != counts;
        return Some(false);
      }
    }
    return Some(true);
  }

  /** The percentages added up; `None` when one of them cannot be read. */
  method SumPercentages(regions: Regions) returns (sum: Option<nat>)
    ensures sum.Some? <==> forall i :: 0 <= i < |regions| ==> Percent(regions[i])
    ensures sum.Some? ==> sum.value == PercentSum(regions)
  {
    var total := 0;
    for i := 0 to |regions|
      invariant forall j :: 0 <= j < i ==> Percent(regions[j])
      invariant total == PercentSum(regions[..i])
    {
      if Text(regions[i]) {
        var percent := Percentage(regions[i].value.text);
        if percent.Err? {
          return None;
        }
        total := total + percent.value;
      }
      assert regions[..i + 1][..i] == regions[..i];
    }
    assert regions[..|regions|] == regions;
    return Some(total);
  }

  /** Whether a region has a text for its replicas. */
  method AnyText(regions: Regions) returns (found: bool)
    ensures found <==> exists i :: 0 <= i < |regions| && Text(regions[i])
  {
    for i := 0 to |regions|
      invariant forall j :: 0 <= j < i ==> !Text(regions[j])
    {
      if Text(regions[i]) {
        return true;
      }
    }
    return false;
  }

  method CompareReplicas(total: Option<int>, regions: Regions) returns (v: Verdict)
    ensures v == Accepted <==> Admissible(total, regions)
    ensures v == Crashed <==> CrashesOn(total, regions)
  {
    if total.None? || total.value <= 0 {
      var text := AnyText(regions);
      return if text then Rejected else Accepted;
    }
    for i := 0 to |regions|
      invariant forall j :: 0 <= j < i ==> !Count(regions[j])
    {
      if Count(regions[i]) {
        var consistent := IsTypeConsistent(regions);
        if consistent.None? {
          return Crashed;
        }
        return if consistent.value then Accepted else Rejected;
      }
    }
    var sum := SumPercentages(regions);
    return if sum == Some(100) then Accepted else Rejected;
  }

  // ---------- splitting ----------

  /** A split reads the total and every region's replicas, present or not. */
  datatype Split = Split(configured: seq<nat>) | Failed(error: Error) | Crash

  /** The configured replicas of each region; the first region that cannot be read ends it. */
  method ConfigureRegions(total: Option<int>, regions: Regions) returns (s: Split)
    ensures s.Split? <==> Splittable(total, regions)
    ensures s.Split? ==> s.configured == if regions == [] then [] else Configured(total.value, regions)
    ensures s.Failed? ==> total.Some? && exists i :: FailsAt(total.value, regions, i, s.error)
    ensures s.Crash? ==> total.Some? ==> exists i :: 0 <= i < |regions| && Readable(total.value, regions[..i]) && regions[i].None?
  {
    var configured := [];
    for i := 0 to |regions|
      invariant i > 0 ==> total.Some?
      invariant forall j :: 0 <= j < i ==> regions[j].Some?
      invariant forall j :: 0 <= j < i ==> ParseRegionReplicas(total.value, regions[j].value).Ok?
      invariant |configured| == i
      invariant forall j :: 0 <= j < i ==> Ok(configured[j]) == ParseRegionReplicas(total.value, regions[j].value)
    {
      if total.None? || regions[i].None? {
        return Crash;
      }
      var r := ParseRegionReplicas(total.value, regions[i].value);
      if r.Err? {
        assert FailsAt(total.value, regions, i, r.error);
        return Failed(r.error);
      }
      configured := configured + [r.value];
    }
    return Split(configured);
  }

  ghost predicate Readable(total: int, regions: Regions) {
    forall i :: 0 <= i < |regions| ==> regions[i].Some? && ParseRegionReplicas(total, regions[i].value).Ok?
  }

  /** Region `i` is the first that cannot be read. */
  ghost predicate FailsAt(total: int, regions: Regions, i: int, e: Error) {
    && 0 <= i < |regions| && Readable(total, regions[..i])
    && regions[i].Some? && ParseRegionReplicas(total, regions[i].value) == Err(e)
  }

  ghost function Configured(total: int, regions: Regions): (c: seq<nat>)
    requires Readable(total, regions)
  {
    seq(|regions|, i requires 0 <= i < |regions| => ParseRegionReplicas(total, regions[i].value).value)
  }

  function Sum(s: seq<nat>): nat {
    if s == [] then 0 else Sum(s[..|s| - 1]) + s[|s| - 1]
  }

  /** Total and regions can all be read; without regions nothing is. */
  ghost predicate Splittable(total: Option<int>, regions: Regions) {
    regions == [] || (total.Some? && Readable(total.value, regions))
  }

  /** What is let through can be split exactly when there is a total, no region is without replicas
      and no count is negative; the webhook checks none of these. */
  lemma AdmittedCanBeSplit(total: Option<int>, regions: Regions)
    requires Admissible(total, regions)
    ensures Splittable(total, regions) <==>
            || regions == []
            || (total.Some? && forall i :: 0 <= i < |regions| ==>
                  regions[i].Some? && (Count(regions[i]) ==> regions[i].value.count >= 0))
  {
    if exists i :: 0 <= i < |regions| && Text(regions[i]) {
      assert total.Some? && total.value > 0;
      assert forall i :: 0 <= i < |regions| ==> Percent(regions[i]);
    }
  }

  /** Percentages only, and each of them readable. */
  predicate Percentages(regions: Regions) {
    forall i :: 0 <= i < |regions| ==> Text(regions[i]) && Percent(regions[i])
  }

  function Shares(total: nat, percents: seq<nat>): seq<nat> {
    seq(|percents|, i requires 0 <= i < |percents| => Share(total, percents[i]))
  }

  /** How far the rounded shares are from the exact ones, in two hundredths of a replica. */
  function Excess(total: nat, percents: seq<nat>): int {
    200 * Sum(Shares(total, percents)) - 2 * total * Sum(percents)
  }

  /** One more region moves the excess by at most half a replica either way. */
  lemma ExcessStep(total: nat, percents: seq<nat>)
    requires percents != []
    ensures -100 < Excess(total, percents) - Excess(total, percents[..|percents| - 1]) <= 100
  {
    var n := |percents|;
    var rest, p := percents[..n - 1], percents[n - 1];
    assert Shares(total, percents)[..n - 1] == Shares(total, rest);
    assert 2 * total * Sum(percents) == 2 * total * Sum(rest) + 2 * total * p;
  }

  lemma {:induction false} ExcessBounded(total: nat, percents: seq<nat>)
    ensures -100 * |percents| <= Excess(total, percents) <= 100 * |percents|
    ensures percents != [] ==> -100 * |percents| < Excess(total, percents)
  {
    if percents == [] {
    } else {
      ExcessStep(total, percents);
      ExcessBounded(total, percents[..|percents| - 1]);
    }
  }

  function PercentsOf(regions: Regions): seq<nat>
    requires Percentages(regions)
  {
    seq(|regions|, i requires 0 <= i < |regions| => Percentage(regions[i].value.text).value)
  }

  lemma {:induction false} SumOfPercents(regions: Regions)
    requires Percentages(regions)
    ensures PercentSum(regions) == Sum(PercentsOf(regions))
  {
    if regions == [] {
    } else {
      var rest := regions[..|regions| - 1];
      SumOfPercents(rest);
      assert PercentsOf(regions)[..|rest|] == PercentsOf(rest);
    }
  }

  lemma SplitByPercents(total: nat, regions: Regions)
    requires Percentages(regions)
    ensures Readable(total, regions) && Configured(total, regions) == Shares(total, PercentsOf(regions))
  {
    assert Readable(total, regions);
    var ps := PercentsOf(regions);
    forall i | 0 <= i < |regions| ensures Configured(total, regions)[i] == Shares(total, ps)[i] {
      assert Percent(regions[i]);
    }
  }

  /** Admitted percentages split the total to within half a replica for each region. */
  lemma SplitIsClose(total: int, regions: Regions)
    requires Admissible(Some(total), regions)
    requires regions != [] && forall i :: 0 <= i < |regions| ==> Text(regions[i])
    ensures total > 0 && Readable(total, regions)
    ensures -|regions| < 2 * (Sum(Configured(total, regions)) - total) <= |regions|
  {
    assert Text(regions[0]);
    SplitByPercents(total, regions);
    SumOfPercents(regions);
    ExcessBounded(total, PercentsOf(regions));
    assert 2 * total * Sum(PercentsOf(regions)) == 200 * total;
  }

  lemma TwoHalves()
    ensures Sum([50, 50]) == 100 && Sum(Shares(1, [50, 50])) == 2
  {
    assert Shares(1, [50, 50]) == [1, 1];
    assert [50, 50][..1] == [50] && [1, 1][..1] == [1];
    assert Sum([50]) == 50 && Sum([1]) == 1;
  }

  /** The bound is reached: one replica over two regions of fifty percent becomes two. */
  lemma HalvesRoundUp(text: string)
    requires Percentage(text) == Ok(50)
    ensures var half := Some(StrVal(text));
      Admissible(Some(1), [half, half]) && Readable(1, [half, half]) && Sum(Configured(1, [half, half])) == 2
  {
    var half := Some(StrVal(text));
    var halves := [half, half];
    assert PercentsOf(halves) == [50, 50];
    SumOfPercents(halves);
    SplitByPercents(1, halves);
    TwoHalves();
  }

  /** Counts are let through beside a total and used as they stand, whatever they add up to. */
  lemma CountsIgnoreTotal(total: int, counts: seq<nat>)
    requires counts != []
    ensures var regions := seq(|counts|, i requires 0 <= i < |counts| => Some(IntVal(counts[i])));
      Admissible(Some(total), regions) && Readable(total, regions) && Configured(total, regions) == counts
  {
    var regions: Regions := seq(|counts|, i requires 0 <= i < |counts| => Some(IntVal(counts[i])));
    assert Count(regions[0]);
  }

  // ---------- what is and what is not a percentage ----------

  function InRange(n: int): Option<int> {
    if -0x8000_0000 <= n < 0x8000_0000 then Some(n) else None
  }

  lemma ParsesDigits(s: string, n: nat)
    requires s != "" && Digits(s) && Value(s) == n
    ensures ParseInt32(s) == InRange(n)
  {
    assert Digit(s[0]);
  }

  lemma ParsesSigned(s: string, n: nat, sign: char)
    requires s != "" && Digits(s) && Value(s) == n && (sign == '+' || sign == '-')
    ensures ParseInt32([sign] + s) == InRange(if sign == '-' then -1 * n else n)
  {
    var t := [sign] + s;
    assert t[0] == sign && t[1..] == s;
  }

  /** Signs: a minus makes the number negative, a plus changes nothing. */
  lemma SignedRoundTrip(n: nat)
    ensures ParseInt32(Decimal(n)) == InRange(n)
    ensures ParseInt32(['+'] + Decimal(n)) == InRange(n)
    ensures ParseInt32(['-'] + Decimal(n)) == InRange(-1 * n)
  {
    var s := Decimal(n);
    DecimalValue(n);
    ParsesDigits(s, n);
    ParsesSigned(s, n, '+');
    ParsesSigned(s, n, '-');
  }

  lemma PercentageOf(s: string)
    ensures Percentage(s + ['%'])
         == match ParseInt32(s)
            case None => Err(NotANumber)
            case Some(p) => if 0 <= p <= 100 then Ok(p) else Err(OutOfRange)
  {
    var text := s + ['%'];
    assert text[..|text| - 1] == s;
  }

  /** Written numbers are percentages exactly up to a hundred; a negative one never is. */
  lemma PercentageExactly(n: nat)
    ensures Percentage(Decimal(n) + ['%']).Ok? <==> n <= 100
    ensures Percentage((['-'] + Decimal(n)) + ['%']).Ok? <==> n == 0
  {
    SignedRoundTrip(n);
    PercentageOf(Decimal(n));
    PercentageOf(['-'] + Decimal(n));
  }

  /** Without the percent sign, or with anything but digits behind the sign, nothing is read. */
  lemma NotAPercentage(text: string)
    ensures text == "" || text[|text| - 1] != '%' ==> Percentage(text) == Err(NoPercentSign)
    ensures forall i :: 0 < i < |text| - 1 && !Digit(text[i]) ==> Percentage(text).Err?
  {
    if i :| 0 < i < |text| - 1 && !Digit(text[i]) {
      forall i | 0 < i < |text| - 1 && !Digit(text[i]) ensures Percentage(text).Err? {
        var s := text[..|text| - 1];
        assert s[i] == text[i] && s[1..][i - 1] == text[i];
      }
    }
  }

  /** A percentage of a negative total is an error. */
  lemma PercentOfNothing(total: int, text: string)
    requires total < 0
    ensures ParseRegionReplicas(total, StrVal(text)) == Err(NoTotal)
  {
  }

  /** Without a total every count is let through, and so is a region without replicas. */
  lemma CountsNeedNoTotal(total: Option<int>, regions: Regions)
    requires total.None? || total.value <= 0
    ensures Admissible(total, regions) <==> forall i :: 0 <= i < |regions| ==> regions[i].None? || Count(regions[i])
  {
    assert forall i :: 0 <= i < |regions| ==> (Text(regions[i]) <==> regions[i].Some? && !Count(regions[i]));
  }
}
