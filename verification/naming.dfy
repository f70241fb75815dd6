/** The monitor-element naming scheme of RPCChamberQuality: every name is a
    folder prefix, a fixed literal and a decimal wheel or disk number put
    together with fmt::format, so names are pure string functions here. */
module Naming {
  import opened Wrappers

  // ---------------------------------------------------------------------
  // fmt::format("{}", n) for integers, and its inverse.

  function DigitChar(d: nat): (c: char)
    requires d < 10
  {
    (48 + d) as char
  }

  /** Decimal digits of n, most significant first, no leading zeros. */
  function NatToString(n: nat): (s: string)
    decreases n
  {
    if n < 10 then [DigitChar(n)] else NatToString(n / 10) + [DigitChar(n % 10)]
  }

  /** Decimal rendering of an int: a '-' before the digits of |i| when negative. */
  function IntToString(i: int): string {
    if i < 0 then "-" + NatToString(-i) else NatToString(i)
  }

  predicate IsDigit(c: char) {
    '0' <= c <= '9'
  }

  /** Reads a string of digits back as a number. */
  function ParseNat(s: string): nat
    decreases |s|
  {
    if s == [] then 0
    else
      var d := s[|s| - 1] as int - 48;
      ParseNat(s[..|s| - 1]) * 10 + (if 0 <= d < 10 then d else 0)
  }

  function ParseInt(s: string): (r: int) {
    if |s| > 0 && s[0] == '-' then 0 - ParseNat(s[1..]) as int else ParseNat(s)
  }

  /** The rendering is non-empty, all digits, and parses back to n. */
  lemma {:induction false} NatToStringRoundTrip(n: nat)
    ensures |NatToString(n)| >= 1
    ensures forall i :: 0 <= i < |NatToString(n)| ==> IsDigit(NatToString(n)[i])
    ensures ParseNat(NatToString(n)) == n
    decreases n
  {
    var s := NatToString(n);
    if n >= 10 {
      NatToStringRoundTrip(n / 10);
      var p := NatToString(n / 10);
      assert s == p + [DigitChar(n % 10)];
      assert s[..|s| - 1] == p;
      assert forall i :: 0 <= i < |s| ==> IsDigit(s[i]) by {
        forall i | 0 <= i < |s|
          ensures IsDigit(s[i])
        {
          if i < |p| {
            assert s[i] == p[i];
          }
        }
      }
    }
  }

  /** fmt::format("{}", i) parses back to i; hence different numbers get
      different names. */
  lemma IntToStringRoundTrip(i: int)
    ensures ParseInt(IntToString(i)) == i
    ensures forall k :: 0 <= k < |IntToString(i)| ==> IsDigit(IntToString(i)[k]) || (k == 0 && i < 0)
  {
    if i < 0 {
      NatToStringRoundTrip(-i);
      var s := IntToString(i);
      assert s[1..] == NatToString(-i);
      forall k | 0 < k < |s|
        ensures IsDigit(s[k])
      {
        assert s[k] == NatToString(-i)[k - 1];
      }
    } else {
      NatToStringRoundTrip(i);
    }
  }

  lemma IntToStringInjective(a: int, b: int)
    requires IntToString(a) == IntToString(b)
    ensures a == b
  {
    IntToStringRoundTrip(a);
    IntToStringRoundTrip(b);
  }

  /** A rendered number contains neither '_' nor '/'. */
  lemma IntToStringHasNoSeparators(i: int)
    ensures '_' !in IntToString(i) && '/' !in IntToString(i)
  {
    IntToStringRoundTrip(i);
    var s := IntToString(i);
    forall k | 0 <= k < |s|
      ensures s[k] != '_' && s[k] != '/'
    {
    }
  }

  // ---------------------------------------------------------------------
  // std::string::find_last_of(c)

  /** Index of the last occurrence of c in s, None for npos. */
  function LastIndexOf(s: string, c: char): (r: Option<nat>)
    ensures r.Some? ==> r.value < |s| && s[r.value] == c
    ensures r.Some? ==> forall j :: r.value < j < |s| ==> s[j] != c
    ensures r.None? ==> forall j :: 0 <= j < |s| ==> s[j] != c
    decreases |s|
  {
    if s == [] then None
    else if s[|s| - 1] == c then Some(|s| - 1)
    else LastIndexOf(s[..|s| - 1], c)
  }

  /** `MESufix.substr(MESufix.find_last_of('_'))`: the tail from the last
      '_' on. With no '_' the position is npos and substr throws. */
  function DistributionSuffix(suffix: string): (r: Result<string>)
    ensures r.Failure? <==> '_' !in suffix
    ensures r.Success? ==> |r.value| >= 1 && r.value[0] == '_' && '_' !in r.value[1..]
    ensures r.Success? ==> exists p :: 0 <= p <= |suffix| && suffix[p..] == r.value
  {
    match LastIndexOf(suffix, '_')
    case None => Failure(OutOfRange("basic_string::substr"))
    case Some(p) =>
      var t := suffix[p..];
      assert forall j :: 0 <= j < |t| - 1 ==> t[1..][j] == suffix[p + 1 + j];
      Success(t)
  }

  // ---------------------------------------------------------------------
  // The names themselves.

  /** A wheel of the barrel or a disk of an endcap. */
  datatype Unit = Wheel(w: int) | Disk(d: int)

  datatype Region = EndcapNegative | Barrel | EndcapPositive

  /** Position of a region in regions_ and in the overview's y axis (0-based). */
  function RegionIndex(r: Region): (k: nat)
    ensures k < 3
  {
    match r
    case EndcapNegative => 0
    case Barrel => 1
    case EndcapPositive => 2
  }

  function RegionLabel(r: Region): string {
    match r
    case EndcapNegative => "EndcapNegative"
    case Barrel => "Barrel"
    case EndcapPositive => "EndcapPositive"
  }

  /** The region whose summary a unit's states go to: the barrel for wheels,
      the negative endcap for disks below 0, the positive one otherwise. */
  function RegionOf(u: Unit): Region {
    match u
    case Wheel(_) => Barrel
    case Disk(d) => if d < 0 then EndcapNegative else EndcapPositive
  }

  /** `folder + "/" + name`: the full name of a monitor element booked under folder. */
  function FullName(folder: string, name: string): string {
    folder + "/" + name
  }

  lemma FullNameInjective(folder: string, a: string, b: string)
    requires FullName(folder, a) == FullName(folder, b)
    ensures a == b
  {
    var k := |folder| + 1;
    assert a == FullName(folder, a)[k..];
    assert b == FullName(folder, b)[k..];
  }

  /** The suffix fillMonitorElements passes to performeClientOperation. */
  function UnitSuffix(u: Unit): string {
    match u
    case Wheel(w) => "Roll_vs_Sector_Wheel" + IntToString(w)
    case Disk(d) => "Ring_vs_Segment_Disk" + IntToString(d)
  }

  /** The monitor elements this client books. */
  datatype Output = QualityMap(u: Unit) | Distribution(u: Unit) | Summary(r: Region) | Overview

  /** The literal part of each name in myBooker's format strings. */
  function Head(o: Output): string {
    match o
    case QualityMap(Wheel(_)) => "RPCChamberQuality_Roll_vs_Sector_Wheel"
    case QualityMap(Disk(_)) => "RPCChamberQuality_Ring_vs_Segment_Disk"
    case Distribution(Wheel(_)) => "RPCChamberQuality_Distribution_Wheel"
    case Distribution(Disk(_)) => "RPCChamberQuality_Distribution_Disk"
    case Summary(r) => "RPCChamberQuality_" + RegionLabel(r)
    case Overview => "RPC_System_Quality_Overview"
  }

  /** The formatted wheel or disk number that follows the literal, if any. */
  function Number(o: Output): string {
    match o
    case QualityMap(Wheel(w)) => IntToString(w)
    case QualityMap(Disk(d)) => IntToString(d)
    case Distribution(Wheel(w)) => IntToString(w)
    case Distribution(Disk(d)) => IntToString(d)
    case Summary(_) => ""
    case Overview => ""
  }

  /** Names as myBooker formats them. */
  function OutputName(o: Output): string {
    Head(o) + Number(o)
  }

  /** The seven input maps read for each unit. */
  datatype Input = HVStatus | LVStatus | DeadChannelFraction | ClusterSizeIn1Bin | NoisyStrips | DigiMean | AsymmetryLeftRight

  function InputPrefix(k: Input): string {
    match k
    case HVStatus => "HVStatus_"
    case LVStatus => "LVStatus_"
    case DeadChannelFraction => "DeadChannelFraction_"
    case ClusterSizeIn1Bin => "ClusterSizeIn1Bin_"
    case NoisyStrips => "RPCNoisyStrips_"
    case DigiMean => "NumberOfDigi_Mean_"
    case AsymmetryLeftRight => "AsymmetryLeftRight_"
  }

  /** Name of an input map for a given suffix, as performeClientOperation forms it. */
  function InputName(k: Input, suffix: string): string {
    InputPrefix(k) + suffix
  }

  /** The names performeClientOperation looks up agree with the names
      myBooker booked: the quality map is "RPCChamberQuality_" + suffix, and
      the distribution is "RPCChamberQuality_Distribution" followed by the
      suffix's tail from its last '_' ("_Wheel-2", "_Disk3"). */
  lemma LookupNamesMatchBooking(u: Unit)
    ensures "RPCChamberQuality_" + UnitSuffix(u) == OutputName(QualityMap(u))
    ensures DistributionSuffix(UnitSuffix(u)) == Success(UnitTag(u))
    ensures "RPCChamberQuality_Distribution" + UnitTag(u) == OutputName(Distribution(u))
  {
    match u
    case Wheel(w) =>
      MapLookupWheel(w);
      DistributionSuffixWheel(w);
      DistributionLookupWheel(w);
    case Disk(d) =>
      MapLookupDisk(d);
      DistributionSuffixDisk(d);
      DistributionLookupDisk(d);
  }

  /** "_Wheel<w>" or "_Disk<d>": the tail of a unit's suffix from its last '_'. */
  function UnitTag(u: Unit): string {
    match u
    case Wheel(w) => "_Wheel" + IntToString(w)
    case Disk(d) => "_Disk" + IntToString(d)
  }

  lemma MapLookupWheel(w: int)
    ensures "RPCChamberQuality_" + UnitSuffix(Wheel(w)) == OutputName(QualityMap(Wheel(w)))
  {
    Regroup("RPCChamberQuality_", "Roll_vs_Sector_Wheel", IntToString(w));
    WheelMapHead();
  }

  lemma MapLookupDisk(d: int)
    ensures "RPCChamberQuality_" + UnitSuffix(Disk(d)) == OutputName(QualityMap(Disk(d)))
  {
    Regroup("RPCChamberQuality_", "Ring_vs_Segment_Disk", IntToString(d));
    DiskMapHead();
  }

  lemma WheelMapHead()
    ensures "RPCChamberQuality_" + "Roll_vs_Sector_Wheel" == Head(QualityMap(Wheel(0)))
  {
  }

  lemma DiskMapHead()
    ensures "RPCChamberQuality_" + "Ring_vs_Segment_Disk" == Head(QualityMap(Disk(0)))
  {
  }

  lemma Regroup(a: string, b: string, c: string)
    ensures a + (b + c) == (a + b) + c
  {
  }

  lemma DistributionLookupWheel(w: int)
    ensures "RPCChamberQuality_Distribution" + UnitTag(Wheel(w)) == OutputName(Distribution(Wheel(w)))
  {
  }

  lemma DistributionLookupDisk(d: int)
    ensures "RPCChamberQuality_Distribution" + UnitTag(Disk(d)) == OutputName(Distribution(Disk(d)))
  {
  }

  lemma DistributionSuffixWheel(w: int)
    ensures DistributionSuffix(UnitSuffix(Wheel(w))) == Success(UnitTag(Wheel(w)))
  {
    var digits := IntToString(w);
    assert "Roll_vs_Sector" + "_" + "Wheel" + digits == UnitSuffix(Wheel(w));
    assert "_" + "Wheel" + digits == UnitTag(Wheel(w));
    LastSeparator("Roll_vs_Sector", "Wheel", w);
  }

  lemma DistributionSuffixDisk(d: int)
    ensures DistributionSuffix(UnitSuffix(Disk(d))) == Success(UnitTag(Disk(d)))
  {
    var digits := IntToString(d);
    assert "Ring_vs_Segment" + "_" + "Disk" + digits == UnitSuffix(Disk(d));
    assert "_" + "Disk" + digits == UnitTag(Disk(d));
    LastSeparator("Ring_vs_Segment", "Disk", d);
  }

  /** In lead + "_" + kind + n, with no '_' in kind, the last '_' is the one
      after lead. */
  lemma LastSeparator(lead: string, kind: string, n: int)
    requires '_' !in kind
    ensures DistributionSuffix(lead + "_" + kind + IntToString(n)) == Success("_" + kind + IntToString(n))
  {
    IntToStringHasNoSeparators(n);
    var digits := IntToString(n);
    var s := lead + "_" + kind + digits;
    var at := |lead|;
    assert s[at] == '_';
    forall j | at < j < |s|
      ensures s[j] != '_'
    {
      if j < at + 1 + |kind| {
        assert s[j] == kind[j - at - 1];
      } else {
        assert s[j] == digits[j - at - 1 - |kind|];
      }
    }
    assert LastIndexOf(s, '_') == Some(at);
    assert s[at..] == "_" + kind + digits;
  }

  /** Different booked elements have different names. */
  lemma OutputNameInjective(a: Output, b: Output)
    requires OutputName(a) == OutputName(b)
    ensures a == b
  {
    var n := OutputName(a);
    HeadChars(a);
    HeadChars(b);
    assert n[3] == Head(a)[3] && n[3] == Head(b)[3];
    if !a.Overview? {
      assert n[18] == Head(a)[18] && n[18] == Head(b)[18];
      match a
      case QualityMap(u) =>
        assert n[19] == Head(a)[19] && n[19] == Head(b)[19];
        SameUnitKindSameNumber(a, b);
      case Distribution(u) =>
        assert n[31] == Head(a)[31] && n[31] == Head(b)[31];
        SameUnitKindSameNumber(a, b);
      case Summary(r) =>
        if r != Barrel {
          assert n[24] == Head(a)[24] && n[24] == Head(b)[24];
        }
    }
  }

  /** The characters that tell the literals apart: position 3 separates the
      overview from the rest, position 18 the families, and positions 19, 24
      and 31 the members of a family. */
  lemma HeadChars(o: Output)
    ensures |Head(o)| > 3 && Head(o)[0] == 'R' && Head(o)[3] == (if o.Overview? then '_' else 'C')
    ensures !o.Overview? ==> |Head(o)| > 18 && Head(o)[18] == FamilyChar(o)
    ensures o.QualityMap? ==> |Head(o)| > 19 && Head(o)[19] == (if o.u.Wheel? then 'o' else 'i')
    ensures o.Distribution? ==> |Head(o)| > 31 && Head(o)[31] == (if o.u.Wheel? then 'W' else 'D')
    ensures o.Summary? && o.r != Barrel ==> |Head(o)| > 24 && Head(o)[24] == (if o.r == EndcapNegative then 'N' else 'P')
  {
    match o
    case QualityMap(u) =>
      MapHeadChars(u);
    case Distribution(u) =>
      DistributionHeadChars(u);
    case Summary(r) =>
      SummaryHeadChars(r);
    case Overview =>
      OverviewHeadChars();
  }

  lemma MapHeadChars(u: Unit)
    ensures |Head(QualityMap(u))| > 19 && Head(QualityMap(u))[0] == 'R' && Head(QualityMap(u))[3] == 'C'
    ensures Head(QualityMap(u))[18] == 'R' && Head(QualityMap(u))[19] == (if u.Wheel? then 'o' else 'i')
  {
  }

  lemma DistributionHeadChars(u: Unit)
    ensures |Head(Distribution(u))| > 31 && Head(Distribution(u))[0] == 'R' && Head(Distribution(u))[3] == 'C'
    ensures Head(Distribution(u))[18] == 'D' && Head(Distribution(u))[31] == (if u.Wheel? then 'W' else 'D')
  {
  }

  lemma OverviewHeadChars()
    ensures |Head(Overview)| > 3 && Head(Overview)[0] == 'R' && Head(Overview)[3] == '_'
  {
  }

  lemma SummaryHeadChars(r: Region)
    ensures |Head(Summary(r))| > 18 && Head(Summary(r))[0] == 'R' && Head(Summary(r))[3] == 'C'
    ensures Head(Summary(r))[18] == FamilyChar(Summary(r))
    ensures r != Barrel ==> |Head(Summary(r))| > 24 && Head(Summary(r))[24] == (if r == EndcapNegative then 'N' else 'P')
  {
    var lead := "RPCChamberQuality_";
    assert Head(Summary(r)) == lead + RegionLabel(r);
    assert Head(Summary(r))[..18] == lead;
    match r
    case Barrel =>
      assert RegionLabel(r)[0] == 'B';
    case EndcapNegative =>
      assert RegionLabel(r)[0] == 'E' && RegionLabel(r)[6] == 'N';
    case EndcapPositive =>
      assert RegionLabel(r)[0] == 'E' && RegionLabel(r)[6] == 'P';
  }

  /** The input prefixes start with 'R' only for "RPCNoisyStrips_", whose
      fourth character is not that of any booked name. */
  lemma InputPrefixChars(k: Input)
    ensures |InputPrefix(k)| > 3
    ensures InputPrefix(k)[0] != 'R' || InputPrefix(k)[3] == 'N'
  {
  }

  function FamilyChar(o: Output): char {
    match o
    case QualityMap(_) => 'R'
    case Distribution(_) => 'D'
    case Summary(r) => if r == Barrel then 'B' else 'E'
    case Overview => '_'
  }

  /** Two maps (or two distributions) of the same unit kind with equal names
      have equal numbers. */
  lemma SameUnitKindSameNumber(a: Output, b: Output)
    requires (a.QualityMap? && b.QualityMap?) || (a.Distribution? && b.Distribution?)
    requires a.u.Wheel? == b.u.Wheel?
    requires OutputName(a) == OutputName(b)
    ensures a == b
  {
    var x := match a.u case Wheel(w) => w case Disk(d) => d;
    var y := match b.u case Wheel(w) => w case Disk(d) => d;
    assert Head(a) == Head(b);
    SamePrefixSameNumber(Head(a), x, y);
  }

  lemma SamePrefixSameNumber(prefix: string, a: int, b: int)
    requires prefix + IntToString(a) == prefix + IntToString(b)
    ensures a == b
  {
    assert IntToString(a) == (prefix + IntToString(a))[|prefix|..];
    assert IntToString(b) == (prefix + IntToString(b))[|prefix|..];
    IntToStringInjective(a, b);
  }

  /** No input map of any unit shares a name with a booked element. */
  lemma InputIsNotOutput(k: Input, u: Unit, o: Output)
    ensures InputName(k, UnitSuffix(u)) != OutputName(o)
  {
    var ni, no := InputName(k, UnitSuffix(u)), OutputName(o);
    HeadChars(o);
    InputPrefixChars(k);
    assert ni[0] == InputPrefix(k)[0] && ni[3] == InputPrefix(k)[3];
    assert no[0] == Head(o)[0] && no[3] == Head(o)[3];
  }
}
