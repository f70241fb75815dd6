/** The RPCChamberQuality client around the sweep: its configuration, the
    histograms myBooker books, and fillMonitorElements, which runs the sweep
    over every wheel and disk and normalises the region summaries into the
    system overview. */
module QualityClient {
  import opened Wrappers
  import opened Histograms
  import opened ChamberQuality
  import opened Naming
  import opened Sweep

  // ---------------------------------------------------------------------
  // Configuration.

  /** The untracked parameters the constructor reads; None means unset. */
  datatype Parameters = Parameters(
    prescaleFactor: Option<int>,
    rpcFolder: Option<string>,
    recHitTypeFolder: Option<string>,
    summaryFolder: Option<string>,
    enableClient: Option<bool>,
    minimumEvents: Option<int>,
    numberOfDisks: Option<int>,
    useRollInfo: Option<bool>,
    offlineDQM: Option<bool>)

  /** The client's configuration after construction. */
  datatype Config = Config(
    prescale: int,
    summaryDir: string,
    prefixDir: string,
    enable: bool,
    minEvents: int,
    disks: int,
    useRollInfo: bool,
    offline: bool)

  const NoParameters := Parameters(None, None, None, None, None, None, None, None, None)

  /** The constructor: every unset parameter takes its default, and the two
      folders are joined from the three folder parameters. */
  function Configure(p: Parameters): (c: Config)
    ensures c.prefixDir == FullName(p.rpcFolder.GetOr("RPC"), p.recHitTypeFolder.GetOr("AllHits"))
    ensures c.summaryDir == FullName(c.prefixDir, p.summaryFolder.GetOr("SummaryHistograms"))
  {
    var subsystem := p.rpcFolder.GetOr("RPC");
    var recHitType := p.recHitTypeFolder.GetOr("AllHits");
    var summary := p.summaryFolder.GetOr("SummaryHistograms");
    Config(
      p.prescaleFactor.GetOr(5),
      subsystem + "/" + recHitType + "/" + summary,
      subsystem + "/" + recHitType,
      p.enableClient.GetOr(true),
      p.minimumEvents.GetOr(10000),
      p.numberOfDisks.GetOr(4),
      p.useRollInfo.GetOr(false),
      p.offlineDQM.GetOr(true))
  }

  /** With nothing set the client runs offline over four disks per endcap,
      fills every fifth lumi section when online, and needs 10000 events. */
  lemma DefaultConfiguration()
    ensures Configure(NoParameters) ==
      Config(5, "RPC/AllHits/SummaryHistograms", "RPC/AllHits", true, 10000, 4, false, true)
  {
    assert "RPC" + "/" + "AllHits" == "RPC/AllHits";
    assert "RPC/AllHits" + "/" + "SummaryHistograms" == "RPC/AllHits/SummaryHistograms";
  }

  /** Online client work happens at the end of lumi sections only when the
      client is enabled and not in offline mode. */
  predicate Online(c: Config) {
    c.enable && !c.offline
  }

  // ---------------------------------------------------------------------
  // Names.

  /** Full name of one of the client's outputs, all booked in summaryDir. */
  function OutName(c: Config, o: Output): string {
    FullName(c.summaryDir, OutputName(o))
  }

  function SummaryName(c: Config, r: Region): string {
    OutName(c, Summary(r))
  }

  function OverviewName(c: Config): string {
    OutName(c, Overview)
  }

  /** The event counter histogram, under prefixDir. */
  function EventsName(c: Config): string {
    FullName(c.prefixDir, "RPCEvents")
  }

  /** Different outputs are booked under different full names. */
  lemma OutNameInjective(c: Config, a: Output, b: Output)
    ensures a != b ==> OutName(c, a) != OutName(c, b)
  {
    if OutName(c, a) == OutName(c, b) {
      FullNameInjective(c.summaryDir, OutputName(a), OutputName(b));
      OutputNameInjective(a, b);
    }
  }

  /** The sinks of a unit are the unit's own outputs in summaryDir. */
  lemma UnitSinksAreOutputs(c: Config, u: Unit)
    ensures UnitSinks(c.summaryDir, u) == Sinks(OutName(c, QualityMap(u)), OutName(c, Distribution(u)), SummaryName(c, RegionOf(u)))
  {
  }

  // ---------------------------------------------------------------------
  // The units swept, in the order fillMonitorElements visits them.

  const Wheels: seq<Unit> := [Wheel(-2), Wheel(-1), Wheel(0), Wheel(1), Wheel(2)]

  /** Disks lo..hi in ascending order, disk 0 skipped. */
  function DiskRange(lo: int, hi: int): seq<Unit>
    decreases hi - lo + 1
  {
    if lo > hi then []
    else (if lo == 0 then [] else [Disk(lo)]) + DiskRange(lo + 1, hi)
  }

  /** DiskRange lists exactly the disks lo..hi but 0, in ascending order. */
  lemma {:induction false} DiskRangeLists(lo: int, hi: int)
    ensures forall u :: u in DiskRange(lo, hi) <==> u.Disk? && lo <= u.d <= hi && u.d != 0
    ensures forall i, j :: 0 <= i < j < |DiskRange(lo, hi)| ==> DiskRange(lo, hi)[i].Disk? && DiskRange(lo, hi)[j].Disk? && DiskRange(lo, hi)[i].d < DiskRange(lo, hi)[j].d
    decreases hi - lo + 1
  {
    if lo <= hi {
      var head: seq<Unit> := if lo == 0 then [] else [Disk(lo)];
      var rest := DiskRange(lo + 1, hi);
      DiskRangeLists(lo + 1, hi);
      assert DiskRange(lo, hi) == head + rest;
      forall i, j | 0 <= i < j < |head + rest|
        ensures (head + rest)[i].Disk? && (head + rest)[j].Disk? && (head + rest)[i].d < (head + rest)[j].d
      {
        if i < |head| {
          assert (head + rest)[i] == Disk(lo);
          assert (head + rest)[j] == rest[j - |head|] && rest[j - |head|] in rest;
        } else {
          assert (head + rest)[i] == rest[i - |head|] && (head + rest)[j] == rest[j - |head|];
        }
      }
    }
  }

  /** Wheels -2..2, then disks -N..N without 0. */
  function Units(c: Config): seq<Unit> {
    Wheels + DiskRange(-c.disks, c.disks)
  }

  /** Every wheel -2..2 and every disk of -N..N but 0 is visited exactly once. */
  lemma UnitsVisitedOnce(c: Config)
    ensures forall u :: u in Units(c) <==> (u.Wheel? && -2 <= u.w <= 2) || (u.Disk? && -c.disks <= u.d <= c.disks && u.d != 0)
    ensures forall i, j :: 0 <= i < j < |Units(c)| ==> Units(c)[i] != Units(c)[j]
  {
    var ds := DiskRange(-c.disks, c.disks);
    DiskRangeLists(-c.disks, c.disks);
    assert Units(c) == Wheels + ds;
    forall u
      ensures u in Units(c) <==> (u.Wheel? && -2 <= u.w <= 2) || (u.Disk? && -c.disks <= u.d <= c.disks && u.d != 0)
    {
      assert u in Units(c) <==> u in Wheels || u in ds;
      assert u in Wheels <==> u.Wheel? && -2 <= u.w <= 2;
    }
    forall i, j | 0 <= i < j < |Units(c)|
      ensures Units(c)[i] != Units(c)[j]
    {
      if j < 5 {
        assert Units(c)[i] == Wheels[i] && Units(c)[j] == Wheels[j];
      } else if i >= 5 {
        assert Units(c)[i] == ds[i - 5] && Units(c)[j] == ds[j - 5];
      } else {
        assert Units(c)[i] == Wheels[i] && Units(c)[j] == ds[j - 5];
        assert ds[j - 5] in ds;
      }
    }
  }

  // ---------------------------------------------------------------------
  // myBooker

  /** Bin labels of every 7-bin state axis. */
  const StateLabels: map<int, string> :=
    map[1 := Labels[0], 2 := Labels[1], 3 := Labels[2], 4 := Labels[3], 5 := Labels[4], 6 := Labels[5], 7 := Labels[6]]

  /** Bin k of a state axis carries the label of the state written as k. */
  lemma StateLabelsMatch(st: State)
    ensures Ordinal(st) in StateLabels && StateLabels[Ordinal(st)] == Label(st)
  {
  }

  /** y labels of the overview: one row per region, in regions_ order. */
  const RegionRowLabels: map<int, string> := map[1 := "E-", 2 := "B", 3 := "E+"]

  /** The histogram myBooker books under a name. The 2-D layout of the
      quality maps comes from a helper outside this model and is left
      unlabelled. */
  function Template(o: Output): (h: Histo)
    ensures forall c :: Get(h, c) == 0.0
    ensures h.entries == 0.0
  {
    match o
    case QualityMap(_) => Booked(map[], map[])
    case Distribution(_) => Booked(StateLabels, map[])
    case Summary(_) => Booked(StateLabels, map[])
    case Overview => Booked(StateLabels, RegionRowLabels)
  }

  /** The two outputs of each unit: its quality map, then its distribution. */
  function UnitOutputs(us: seq<Unit>): (os: seq<Output>)
    ensures |os| == 2 * |us|
    ensures forall o :: o in os <==> (o.QualityMap? || o.Distribution?) && o.u in us
  {
    if us == [] then []
    else
      var os := [QualityMap(us[0]), Distribution(us[0])] + UnitOutputs(us[1..]);
      assert forall u :: u in us <==> u == us[0] || u in us[1..];
      os
  }

  /** Everything myBooker books, in booking order. */
  function BookedOutputs(c: Config): seq<Output> {
    [Summary(EndcapNegative), Summary(Barrel), Summary(EndcapPositive), Overview] + UnitOutputs(Units(c))
  }

  predicate Distinct<T(==)>(xs: seq<T>) {
    forall i, j :: 0 <= i < j < |xs| ==> xs[i] != xs[j]
  }

  lemma DistinctConcat<T>(a: seq<T>, b: seq<T>)
    requires Distinct(a) && Distinct(b)
    requires forall x :: x in a ==> x !in b
    ensures Distinct(a + b)
  {
    forall i, j | 0 <= i < j < |a + b|
      ensures (a + b)[i] != (a + b)[j]
    {
      if i < |a| <= j {
        assert (a + b)[i] in a && (a + b)[j] == b[j - |a|];
      } else if |a| <= i {
        assert (a + b)[i] == b[i - |a|] && (a + b)[j] == b[j - |a|];
      }
    }
  }

  /** Distinct units give distinct outputs. */
  lemma {:induction false} UnitOutputsDistinct(us: seq<Unit>)
    requires Distinct(us)
    ensures Distinct(UnitOutputs(us))
  {
    if us != [] {
      assert Distinct(us[1..]);
      assert us[0] !in us[1..];
      UnitOutputsDistinct(us[1..]);
      DistinctConcat([QualityMap(us[0]), Distribution(us[0])], UnitOutputs(us[1..]));
    }
  }

  /** Booking a list of outputs into summaryDir, in order. */
  function BookAll(c: Config, s: Store, os: seq<Output>): (r: Store)
    ensures s.Keys <= r.Keys
    decreases |os|
  {
    if os == [] then s else BookAll(c, s[OutName(c, os[0]) := Template(os[0])], os[1..])
  }

  /** Booking creates every listed name. */
  lemma {:induction false} BookAllKeys(c: Config, s: Store, os: seq<Output>)
    ensures forall o :: o in os ==> OutName(c, o) in BookAll(c, s, os)
    decreases |os|
  {
    if os != [] {
      BookAllKeys(c, s[OutName(c, os[0]) := Template(os[0])], os[1..]);
      assert forall o :: o in os ==> o == os[0] || o in os[1..];
    }
  }

  /** After booking, every booked name holds its fresh template. */
  lemma {:induction false} BookAllWrites(c: Config, s: Store, os: seq<Output>)
    ensures forall o :: o in os ==> OutName(c, o) in BookAll(c, s, os) && BookAll(c, s, os)[OutName(c, o)] == Template(o)
    decreases |os|
  {
    BookAllKeys(c, s, os);
    if os != [] {
      var s' := s[OutName(c, os[0]) := Template(os[0])];
      BookAllWrites(c, s', os[1..]);
      if os[0] !in os[1..] {
        forall o | o in os[1..]
          ensures OutName(c, os[0]) != OutName(c, o)
        {
          if OutName(c, os[0]) == OutName(c, o) {
            OutNameInjective(c, os[0], o);
          }
        }
        BookAllFrame(c, s', os[1..], OutName(c, os[0]));
      }
    }
  }

  /** Names outside the booked list keep their histogram. */
  lemma {:induction false} BookAllFrame(c: Config, s: Store, os: seq<Output>, n: string)
    requires n in s
    requires forall o :: o in os ==> n != OutName(c, o)
    ensures BookAll(c, s, os)[n] == s[n]
    decreases |os|
  {
    if os != [] {
      BookAllFrame(c, s[OutName(c, os[0]) := Template(os[0])], os[1..], n);
    }
  }

  /** myBooker: the three region summaries, the overview, and a quality map
      and a distribution for every wheel and every disk. */
  function Book(c: Config, s: Store): (r: Store)
    ensures OverviewName(c) in r
    ensures forall reg :: SummaryName(c, reg) in r
  {
    var os := BookedOutputs(c);
    BookAllKeys(c, s, os);
    assert os[3] == Overview;
    assert os[0] == Summary(EndcapNegative) && os[1] == Summary(Barrel) && os[2] == Summary(EndcapPositive);
    BookAll(c, s, os)
  }

  /** Booking creates 14 + 4N histograms for N disks per endcap, all under
      different names, all empty, and leaves every other name alone. */
  lemma BookingCreates(c: Config, s: Store)
    ensures |BookedOutputs(c)| == 14 + 4 * (if c.disks > 0 then c.disks else 0)
    ensures forall i, j :: 0 <= i < j < |BookedOutputs(c)| ==> OutName(c, BookedOutputs(c)[i]) != OutName(c, BookedOutputs(c)[j])
    ensures forall o :: o in BookedOutputs(c) ==> OutName(c, o) in Book(c, s) && Book(c, s)[OutName(c, o)] == Template(o)
    ensures forall n :: n in s && (forall o :: o in BookedOutputs(c) ==> n != OutName(c, o)) ==> Book(c, s)[n] == s[n]
  {
    var os := BookedOutputs(c);
    var fixed: seq<Output> := [Summary(EndcapNegative), Summary(Barrel), Summary(EndcapPositive), Overview];
    UnitsVisitedOnce(c);
    DiskRangeSize(-c.disks, c.disks);
    UnitOutputsDistinct(Units(c));
    DistinctConcat(fixed, UnitOutputs(Units(c)));
    forall i, j | 0 <= i < j < |os|
      ensures OutName(c, os[i]) != OutName(c, os[j])
    {
      if OutName(c, os[i]) == OutName(c, os[j]) {
        OutNameInjective(c, os[i], os[j]);
      }
    }
    BookAllWrites(c, s, os);
    forall n | n in s && (forall o :: o in os ==> n != OutName(c, o))
      ensures Book(c, s)[n] == s[n]
    {
      BookAllFrame(c, s, os, n);
    }
  }

  /** Every name the fill looks up exists once booking has run. */
  lemma BookingProvidesFillNames(c: Config, s: Store)
    ensures OverviewName(c) in Book(c, s)
    ensures forall r :: SummaryName(c, r) in Book(c, s)
    ensures forall u :: u in Units(c) ==> OutName(c, QualityMap(u)) in Book(c, s) && OutName(c, Distribution(u)) in Book(c, s)
  {
    var os := BookedOutputs(c);
    BookAllKeys(c, s, os);
    forall u | u in Units(c)
      ensures QualityMap(u) in os && Distribution(u) in os
    {
      assert QualityMap(u) in UnitOutputs(Units(c)) && Distribution(u) in UnitOutputs(Units(c));
    }
  }

  /** N disks per endcap give 2N disks, none for N <= 0. */
  lemma {:induction false} DiskRangeSize(lo: int, hi: int)
    ensures |DiskRange(lo, hi)| == (if lo > hi then 0 else if lo <= 0 <= hi then hi - lo else hi - lo + 1)
    decreases hi - lo + 1
  {
    if lo <= hi {
      DiskRangeSize(lo + 1, hi);
    }
  }

  // ---------------------------------------------------------------------
  // fillMonitorElements

  /** The event count the gate compares: the truncated first bin of
      RPCEvents, or minEvents itself when that histogram is missing. */
  function EventCount(c: Config, s: Store): int {
    if EventsName(c) in s then TruncateToInt(Get(s[EventsName(c)], Bin(1))) else c.minEvents
  }

  predicate GateOpen(c: Config, s: Store) {
    EventCount(c, s) >= c.minEvents
  }

  /** A missing RPCEvents histogram lets the fill through; a present one with
      a non-negative count lets it through exactly when the count reaches
      the minimum. */
  lemma GateCases(c: Config, s: Store)
    ensures EventsName(c) !in s ==> GateOpen(c, s)
    ensures EventsName(c) in s && Get(s[EventsName(c)], Bin(1)) >= 0.0 ==>
      (GateOpen(c, s) <==> Get(s[EventsName(c)], Bin(1)) >= c.minEvents as real)
  {
  }

  /** The three region summaries are reset before the sweeps. */
  function ResetSummaries(c: Config, s: Store): Store {
    ResetIn(ResetIn(ResetIn(s, SummaryName(c, EndcapNegative)), SummaryName(c, Barrel)), SummaryName(c, EndcapPositive))
  }

  /** The units' passes, one after the other. None of them can throw, as
      RunUnitIsSweep shows, so the result is a store. */
  function RunUnits(folder: string, s: Store, us: seq<Unit>): (r: Store)
    ensures r.Keys == s.Keys
    decreases |us|
  {
    if us == [] then s
    else
      UnitFrame(folder, s, us[0]);
      RunUnits(folder, RunUnit(folder, s, us[0]).value, us[1..])
  }

  /** The overview row y written from a summary: bins x..7 of the row get
      the summary's bin over its entries, one setBinContent each. */
  function WriteRow(ov: Histo, summary: Histo, y: int, x: int): (r: Histo)
    requires 1 <= x <= 8
    requires summary.entries != 0.0
    ensures forall cell ::
      Get(r, cell) == if cell.y == y && x <= cell.x <= 7 then Get(summary, Bin(cell.x)) / summary.entries else Get(ov, cell)
    ensures r.entries == ov.entries + (8 - x) as real
    ensures r.xLabels == ov.xLabels && r.yLabels == ov.yLabels
    decreases 8 - x
  {
    if x == 8 then ov
    else WriteRow(SetBinContent(ov, Cell(x, y), Get(summary, Bin(x)) / summary.entries), summary, y, x + 1)
  }

  /** Whether region r's row of the overview gets written: its summary
      exists and has entries. */
  predicate Shown(c: Config, s: Store, r: Region) {
    SummaryName(c, r) in s && s[SummaryName(c, r)].entries != 0.0
  }

  /** The normalisation of one region's row. */
  function Normalize(c: Config, s: Store, r: Region): Store {
    var q, ov := SummaryName(c, r), OverviewName(c);
    if Shown(c, s, r) && ov in s then s[ov := WriteRow(s[ov], s[q], RegionIndex(r) + 1, 1)] else s
  }

  /** fillMonitorElements. The overview is reset before it is checked for
      null, so with the gate open it must exist. */
  function FillMonitorElements(c: Config, s: Store): (r: Store)
    requires GateOpen(c, s) ==> OverviewName(c) in s
    ensures r.Keys == s.Keys
    ensures !GateOpen(c, s) ==> r == s
  {
    if !GateOpen(c, s) then s
    else
      NormalizeAll(c, ResetIn(AfterSweeps(c, s), OverviewName(c)))
  }

  /** The store after the summaries are reset and every unit is swept,
      before the overview is touched. */
  function AfterSweeps(c: Config, s: Store): (r: Store)
    ensures r.Keys == s.Keys
  {
    RunUnits(c.summaryDir, ResetSummaries(c, s), Units(c))
  }

  /** One row's normalisation touches only that row of the overview. */
  lemma NormalizeEffect(c: Config, s: Store, r: Region)
    requires OverviewName(c) in s
    ensures var t, ov := Normalize(c, s, r), OverviewName(c);
      && t.Keys == s.Keys
      && (forall n :: n in s && n != ov ==> t[n] == s[n])
      && forall cell ::
           Get(t[ov], cell) ==
             if cell.y == RegionIndex(r) + 1 && 1 <= cell.x <= 7 && Shown(c, s, r)
             then Get(s[SummaryName(c, r)], Bin(cell.x)) / s[SummaryName(c, r)].entries
             else Get(s[ov], cell)
  {
  }

  /** A written row's seven setBinContent calls count as seven entries of
      the overview. */
  lemma NormalizeEntries(c: Config, s: Store, r: Region)
    requires OverviewName(c) in s
    ensures Normalize(c, s, r)[OverviewName(c)].entries
      == s[OverviewName(c)].entries + if Shown(c, s, r) then 7.0 else 0.0
  {
  }

  function RowRegion(y: int): Option<Region> {
    if y == 1 then Some(EndcapNegative)
    else if y == 2 then Some(Barrel)
    else if y == 3 then Some(EndcapPositive)
    else None
  }

  lemma RowRegionInverts(r: Region)
    ensures RowRegion(RegionIndex(r) + 1) == Some(r)
  {
  }

  /** What a fill leaves in one overview bin, given the summaries of t. */
  function Fraction(c: Config, t: Store, cell: Cell): real {
    match RowRegion(cell.y)
    case None => 0.0
    case Some(r) =>
      if 1 <= cell.x <= 7 && Shown(c, t, r)
      then Get(t[SummaryName(c, r)], Bin(cell.x)) / t[SummaryName(c, r)].entries
      else 0.0
  }

  /** The three row normalisations, as the fill runs them. */
  function NormalizeAll(c: Config, s: Store): Store {
    Normalize(c, Normalize(c, Normalize(c, s, EndcapNegative), Barrel), EndcapPositive)
  }

  /** Normalising a reset overview leaves exactly the fractions in it. */
  lemma NormalizeAllEffect(c: Config, s: Store)
    requires OverviewName(c) in s
    requires forall cell :: Get(s[OverviewName(c)], cell) == 0.0
    ensures var t := NormalizeAll(c, s);
      && (forall n :: n in s && n != OverviewName(c) ==> t[n] == s[n])
      && forall cell :: Get(t[OverviewName(c)], cell) == Fraction(c, t, cell)
  {
    var ov := OverviewName(c);
    var n1 := Normalize(c, s, EndcapNegative);
    var n2 := Normalize(c, n1, Barrel);
    var t := Normalize(c, n2, EndcapPositive);
    NormalizeEffect(c, s, EndcapNegative);
    NormalizeEffect(c, n1, Barrel);
    NormalizeEffect(c, n2, EndcapPositive);
    SummariesAreNotOverview(c);
    assert forall r: Region :: Shown(c, t, r) <==> Shown(c, s, r);
    forall cell: Cell
      ensures Get(t[ov], cell) == Fraction(c, t, cell)
    {
      if cell.y == 1 {
      } else if cell.y == 2 {
      } else if cell.y == 3 {
      }
    }
  }

  /** The overview after a fill: row r+1 holds region r's state fractions
      when its summary exists and has entries; every other bin is 0. */
  lemma FillOverview(c: Config, s: Store)
    requires GateOpen(c, s) && OverviewName(c) in s
    ensures var t := FillMonitorElements(c, s);
      forall cell :: Get(t[OverviewName(c)], cell) == Fraction(c, t, cell)
  {
    NormalizeAllEffect(c, ResetIn(AfterSweeps(c, s), OverviewName(c)));
  }

  lemma SummariesAreNotOverview(c: Config)
    ensures forall r: Region :: SummaryName(c, r) != OverviewName(c)
  {
    forall r: Region
      ensures SummaryName(c, r) != OverviewName(c)
    {
      if SummaryName(c, r) == OverviewName(c) {
        OutNameInjective(c, Summary(r), Overview);
      }
    }
  }

  /** Number of bins swept for a unit. */
  function SweptCells(u: Unit): int {
    if u.Wheel? then 204 else 216
  }

  /** Bins swept over the units of one region. */
  function Tally(us: seq<Unit>, r: Region): int
    decreases |us|
  {
    if us == [] then 0
    else (if RegionOf(us[0]) == r then SweptCells(us[0]) else 0) + Tally(us[1..], r)
  }

  lemma {:induction false} TallyConcat(a: seq<Unit>, b: seq<Unit>, r: Region)
    ensures Tally(a + b, r) == Tally(a, r) + Tally(b, r)
    decreases |a|
  {
    if a == [] {
      assert a + b == b;
    } else {
      assert (a + b)[1..] == a[1..] + b;
      TallyConcat(a[1..], b, r);
    }
  }

  /** Number of negative disks in lo..hi. */
  function NegativeDisks(lo: int, hi: int): int {
    var top := if hi < -1 then hi else -1;
    if top < lo then 0 else top - lo + 1
  }

  /** Number of positive disks in lo..hi. */
  function PositiveDisks(lo: int, hi: int): int {
    var bottom := if lo > 1 then lo else 1;
    if hi < bottom then 0 else hi - bottom + 1
  }

  /** The bins a range of disks contributes to region r. */
  function DiskShare(lo: int, hi: int, r: Region): int {
    match r
    case Barrel => 0
    case EndcapNegative => 216 * NegativeDisks(lo, hi)
    case EndcapPositive => 216 * PositiveDisks(lo, hi)
  }

  lemma {:induction false} DiskTally(lo: int, hi: int, r: Region)
    ensures Tally(DiskRange(lo, hi), r) == DiskShare(lo, hi, r)
    decreases hi - lo + 1
  {
    if lo <= hi {
      var head: seq<Unit> := if lo == 0 then [] else [Disk(lo)];
      assert DiskRange(lo, hi) == head + DiskRange(lo + 1, hi);
      DiskTally(lo + 1, hi, r);
      TallyConcat(head, DiskRange(lo + 1, hi), r);
    }
  }

  /** The barrel summary counts the 5 x 204 wheel bins, each endcap summary
      216 bins per disk on its side. */
  lemma RegionTally(c: Config, r: Region)
    ensures Tally(Units(c), r) == if r == Barrel then 1020 else 216 * (if c.disks > 0 then c.disks else 0)
  {
    UnitsTally(c, r);
    DiskTally(-c.disks, c.disks, r);
    SideShare(c.disks, r);
  }

  /** The disks' share of a region in a symmetric range -N..N. */
  lemma SideShare(n: int, r: Region)
    ensures DiskShare(-n, n, r) == if r == Barrel then 0 else 216 * (if n > 0 then n else 0)
  {
    DisksPerSide(n);
  }

  /** -N..N holds N disks on each side, none when N is not positive. */
  lemma DisksPerSide(n: int)
    ensures NegativeDisks(-n, n) == (if n > 0 then n else 0)
    ensures PositiveDisks(-n, n) == (if n > 0 then n else 0)
  {
  }

  /** The wheels' share of a region's tally. */
  lemma UnitsTally(c: Config, r: Region)
    ensures Tally(Units(c), r) == (if r == Barrel then 1020 else 0) + Tally(DiskRange(-c.disks, c.disks), r)
  {
    var ds := DiskRange(-c.disks, c.disks);
    assert Units(c) == Wheels + ds;
    TallyConcat(Wheels, ds, r);
    WheelsTally(r);
  }

  lemma WheelsTally(r: Region)
    ensures Tally(Wheels, r) == if r == Barrel then 1020 else 0
  {
    WheelTally(Wheels, r);
  }

  /** Wheels only count towards the barrel, 204 bins each. */
  lemma {:induction false} WheelTally(us: seq<Unit>, r: Region)
    requires forall i :: 0 <= i < |us| ==> us[i].Wheel?
    ensures Tally(us, r) == if r == Barrel then 204 * |us| else 0
    decreases |us|
  {
    if us != [] {
      WheelTally(us[1..], r);
    }
  }

  /** A unit's pass keeps every histogram but its quality map consistent. */
  lemma RunUnitKeepsConsistent(folder: string, s: Store, u: Unit, n: string)
    requires n in s && n != UnitSinks(folder, u).qualityMap && Consistent(s[n])
    ensures Consistent(RunUnit(folder, s, u).value[n])
  {
    var d := UnitSinks(folder, u).distribution;
    RunUnitIsSweep(folder, s, u);
    if n == d {
      ResetIsConsistent(s[n]);
    }
  }

  /** One pass adds its bins to its own region's summary, keeps every
      summary consistent, and leaves the other regions' summaries alone. */
  lemma RunUnitSummary(c: Config, s: Store, u: Unit, r: Region)
    requires SummaryName(c, r) in s
    ensures var t, q := RunUnit(c.summaryDir, s, u).value, SummaryName(c, r);
      && q in t
      && t[q].entries == s[q].entries + (if RegionOf(u) == r then SweptCells(u) else 0) as real
      && (Consistent(s[q]) ==> Consistent(t[q]))
  {
    var q := SummaryName(c, r);
    UnitFrame(c.summaryDir, s, u);
    UnitSinksAreOutputs(c, u);
    OutNameInjective(c, Summary(r), QualityMap(u));
    OutNameInjective(c, Summary(r), Distribution(u));
    if RegionOf(u) == r {
      UnitSummaryEntries(c.summaryDir, s, u);
    } else {
      OutNameInjective(c, Summary(r), Summary(RegionOf(u)));
    }
    if Consistent(s[q]) {
      RunUnitKeepsConsistent(c.summaryDir, s, u, q);
    }
  }

  /** Over a run of passes, a region summary gains one entry per swept bin
      of that region's units and stays consistent. */
  lemma {:induction false} RunUnitsSummary(c: Config, s: Store, us: seq<Unit>, r: Region)
    requires SummaryName(c, r) in s
    ensures var t, q := RunUnits(c.summaryDir, s, us), SummaryName(c, r);
      && t[q].entries == s[q].entries + Tally(us, r) as real
      && (Consistent(s[q]) ==> Consistent(t[q]))
    decreases |us|
  {
    if us != [] {
      var s1 := RunUnit(c.summaryDir, s, us[0]).value;
      assert RunUnits(c.summaryDir, s, us) == RunUnits(c.summaryDir, s1, us[1..]);
      RunUnitSummary(c, s, us[0], r);
      RunUnitsSummary(c, s1, us[1..], r);
    }
  }

  /** Bins in state k over the units of us that belong to region r, each
      unit's bins classified from its inputs in s. */
  function RegionCount(c: Config, s: Store, us: seq<Unit>, r: Region, k: int): nat
    decreases |us|
  {
    if us == [] then 0
    else
      (if RegionOf(us[0]) == r then Count(s, SourcesFor(c.summaryDir, UnitSuffix(us[0])), Grid(RegionCode(us[0])), k) else 0)
        + RegionCount(c, s, us[1..], r, k)
  }

  /** Stores that agree on every unit's inputs give the same region counts. */
  lemma {:induction false} RegionCountFrame(c: Config, s: Store, t: Store, us: seq<Unit>, r: Region, k: int)
    requires forall u :: SameSources(s, t, SourcesFor(c.summaryDir, UnitSuffix(u)))
    ensures RegionCount(c, s, us, r, k) == RegionCount(c, t, us, r, k)
    decreases |us|
  {
    if us != [] {
      var u := us[0];
      CountFrame(s, t, SourcesFor(c.summaryDir, UnitSuffix(u)), Grid(RegionCode(u)), k);
      RegionCountFrame(c, s, t, us[1..], r, k);
    }
  }

  /** One pass changes only output names, so every unit's inputs survive it. */
  lemma RunUnitKeepsAllSources(c: Config, s: Store, u: Unit)
    ensures forall v :: SameSources(s, RunUnit(c.summaryDir, s, u).value, SourcesFor(c.summaryDir, UnitSuffix(v)))
  {
    var s1 := RunUnit(c.summaryDir, s, u).value;
    UnitFrame(c.summaryDir, s, u);
    UnitSinksAreOutputs(c, u);
    forall v
      ensures SameSources(s, s1, SourcesFor(c.summaryDir, UnitSuffix(v)))
    {
      OutputsOnlyKeepSources(c, s, s1, v, PassOutputs(u));
    }
  }

  /** One pass adds its state counts to its own region's summary and leaves
      the other regions' summaries alone. */
  lemma RunUnitSummaryBins(c: Config, s: Store, u: Unit, r: Region, cell: Cell)
    requires SummaryName(c, r) in s
    ensures var t, q, src := RunUnit(c.summaryDir, s, u).value, SummaryName(c, r), SourcesFor(c.summaryDir, UnitSuffix(u));
      && q in t
      && Get(t[q], cell) == Get(s[q], cell)
        + (if cell.y == 0 && RegionOf(u) == r then Count(s, src, Grid(RegionCode(u)), cell.x) else 0) as real
  {
    var q := SummaryName(c, r);
    UnitSinksAreOutputs(c, u);
    if RegionOf(u) == r {
      UnitFillsSummary(c.summaryDir, s, u);
    } else {
      UnitFrame(c.summaryDir, s, u);
      OutNameInjective(c, Summary(r), QualityMap(u));
      OutNameInjective(c, Summary(r), Distribution(u));
      OutNameInjective(c, Summary(r), Summary(RegionOf(u)));
    }
  }

  /** One pass leaves every region count as it was. */
  lemma RunUnitKeepsRegionCount(c: Config, s: Store, u: Unit, us: seq<Unit>, r: Region, k: int)
    ensures RegionCount(c, s, us, r, k) == RegionCount(c, RunUnit(c.summaryDir, s, u).value, us, r, k)
  {
    RunUnitKeepsAllSources(c, s, u);
    RegionCountFrame(c, s, RunUnit(c.summaryDir, s, u).value, us, r, k);
  }

  /** Over a run of passes, bin k of a region summary gains the number of
      that region's swept bins in state k; no other bin moves. */
  lemma {:induction false} RunUnitsSummaryBins(c: Config, s: Store, us: seq<Unit>, r: Region, cell: Cell)
    requires SummaryName(c, r) in s
    ensures var t, q := RunUnits(c.summaryDir, s, us), SummaryName(c, r);
      Get(t[q], cell) == Get(s[q], cell) + (if cell.y == 0 then RegionCount(c, s, us, r, cell.x) else 0) as real
    decreases |us|
  {
    if us != [] {
      var u, q := us[0], SummaryName(c, r);
      var s1 := RunUnit(c.summaryDir, s, u).value;
      RunUnitsStep(c.summaryDir, s, us);
      RunUnitSummaryBins(c, s, u, r, cell);
      RunUnitsSummaryBins(c, s1, us[1..], r, cell);
      RunUnitKeepsRegionCount(c, s, u, us[1..], r, cell.x);
    }
  }

  /** The summaries are reset before the sweeps, and they are not inputs. */
  lemma ResetSummariesKeepSources(c: Config, s: Store)
    ensures forall v :: SameSources(s, ResetSummaries(c, s), SourcesFor(c.summaryDir, UnitSuffix(v)))
  {
    forall v
      ensures SameSources(s, ResetSummaries(c, s), SourcesFor(c.summaryDir, UnitSuffix(v)))
    {
      OutputsOnlyKeepSources(c, s, ResetSummaries(c, s), v, {Summary(EndcapNegative), Summary(Barrel), Summary(EndcapPositive)});
    }
  }

  /** After the sweeps a region summary holds, in bin k, the number of
      swept bins of that region in state k, and nothing else. */
  lemma SweptSummary(c: Config, s: Store, r: Region)
    requires SummaryName(c, r) in s
    ensures var t, q := AfterSweeps(c, s), SummaryName(c, r);
      forall cell :: Get(t[q], cell) == (if cell.y == 0 then RegionCount(c, s, Units(c), r, cell.x) else 0) as real
  {
    var q, s1 := SummaryName(c, r), ResetSummaries(c, s);
    OutNameInjective(c, Summary(EndcapNegative), Summary(Barrel));
    OutNameInjective(c, Summary(EndcapNegative), Summary(EndcapPositive));
    OutNameInjective(c, Summary(Barrel), Summary(EndcapPositive));
    assert s1[q] == ResetHisto(s[q]);
    ResetSummariesKeepSources(c, s);
    forall cell
      ensures Get(AfterSweeps(c, s)[q], cell) == (if cell.y == 0 then RegionCount(c, s, Units(c), r, cell.x) else 0) as real
    {
      RunUnitsSummaryBins(c, s1, Units(c), r, cell);
      RegionCountFrame(c, s, s1, Units(c), r, cell.x);
    }
  }

  /** After a fill each region summary holds exactly its region's state
      counts: bin k is the number of the region's swept bins in state k,
      computed from the inputs before the fill; the summary is consistent,
      with 1020 entries for the barrel and 216 per disk for either endcap. */
  lemma FillSummary(c: Config, s: Store, r: Region)
    requires GateOpen(c, s) && OverviewName(c) in s
    requires SummaryName(c, r) in s
    ensures var t, q := FillMonitorElements(c, s), SummaryName(c, r);
      && (forall cell :: Get(t[q], cell) == (if cell.y == 0 then RegionCount(c, s, Units(c), r, cell.x) else 0) as real)
      && Consistent(t[q])
      && t[q].entries == (if r == Barrel then 1020 else 216 * (if c.disks > 0 then c.disks else 0)) as real
  {
    SweptSummary(c, s, r);
    var q := SummaryName(c, r);
    var s1 := ResetSummaries(c, s);
    OutNameInjective(c, Summary(EndcapNegative), Summary(Barrel));
    OutNameInjective(c, Summary(EndcapNegative), Summary(EndcapPositive));
    OutNameInjective(c, Summary(Barrel), Summary(EndcapPositive));
    assert s1[q] == ResetHisto(s[q]);
    ResetIsConsistent(s[q]);
    RunUnitsSummary(c, s1, Units(c), r);
    RegionTally(c, r);
    SummariesAreNotOverview(c);
    var s3 := ResetIn(AfterSweeps(c, s), OverviewName(c));
    assert s3[q] == AfterSweeps(c, s)[q];
    NormalizeAllEffect(c, s3);
  }

  /** The overview's meaning: after a fill, bin (k, r + 1) is the fraction
      of region r's swept bins that are in state k, when the region's
      summary exists and the region has bins; otherwise it is 0. */
  lemma OverviewHoldsFractions(c: Config, s: Store, r: Region, k: int)
    requires GateOpen(c, s) && OverviewName(c) in s
    requires 1 <= k <= 7
    ensures Get(FillMonitorElements(c, s)[OverviewName(c)], Cell(k, RegionIndex(r) + 1))
      == if SummaryName(c, r) in s && (r == Barrel || c.disks > 0)
         then RegionCount(c, s, Units(c), r, k) as real / (if r == Barrel then 1020 else 216 * c.disks) as real
         else 0.0
  {
    var t, q := FillMonitorElements(c, s), SummaryName(c, r);
    var y := RegionIndex(r) + 1;
    FillOverviewAt(c, s, Cell(k, y));
    FractionAt(c, t, r, k);
    if q in s {
      FillSummary(c, s, r);
    }
  }

  /** One bin of the overview after a fill. */
  lemma FillOverviewAt(c: Config, s: Store, cell: Cell)
    requires GateOpen(c, s) && OverviewName(c) in s
    ensures var t := FillMonitorElements(c, s);
      Get(t[OverviewName(c)], cell) == Fraction(c, t, cell)
  {
    FillOverview(c, s);
  }

  /** The fraction left in row r + 1 for state k. */
  lemma FractionAt(c: Config, t: Store, r: Region, k: int)
    requires 1 <= k <= 7
    ensures Fraction(c, t, Cell(k, RegionIndex(r) + 1))
      == if Shown(c, t, r) then Get(t[SummaryName(c, r)], Bin(k)) / t[SummaryName(c, r)].entries else 0.0
  {
    RowRegionInverts(r);
  }

  /** Sum of the seven state columns of overview row y. */
  function RowSum(h: Histo, y: int): real {
    Get(h, Cell(1, y)) + Get(h, Cell(2, y)) + Get(h, Cell(3, y)) + Get(h, Cell(4, y))
      + Get(h, Cell(5, y)) + Get(h, Cell(6, y)) + Get(h, Cell(7, y))
  }

  /** The row of a region with bins to sweep (the barrel always, an endcap
      when there are disks) is a distribution: its fractions add up to 1. */
  lemma RowSumsToOne(c: Config, s: Store, r: Region)
    requires GateOpen(c, s) && OverviewName(c) in s
    requires SummaryName(c, r) in s && (r == Barrel || c.disks > 0)
    ensures RowSum(FillMonitorElements(c, s)[OverviewName(c)], RegionIndex(r) + 1) == 1.0
  {
    var t := FillMonitorElements(c, s);
    FillOverview(c, s);
    FillSummary(c, s, r);
    assert Shown(c, t, r);
    RowOfFractions(c, t, r);
  }

  /** A row filled with a consistent summary's fractions sums to 1. */
  lemma RowOfFractions(c: Config, t: Store, r: Region)
    requires OverviewName(c) in t && Shown(c, t, r) && Consistent(t[SummaryName(c, r)])
    requires forall cell :: Get(t[OverviewName(c)], cell) == Fraction(c, t, cell)
    ensures RowSum(t[OverviewName(c)], RegionIndex(r) + 1) == 1.0
  {
    var h, y := t[SummaryName(c, r)], RegionIndex(r) + 1;
    var e := h.entries;
    RowRegionInverts(r);
    forall x | 1 <= x <= 7
      ensures Get(t[OverviewName(c)], Cell(x, y)) == Get(h, Bin(x)) / e
    {
      assert Fraction(c, t, Cell(x, y)) == Get(h, Bin(x)) / e;
    }
    SumOfFractions(Get(h, Bin(1)), Get(h, Bin(2)), Get(h, Bin(3)), Get(h, Bin(4)), Get(h, Bin(5)), Get(h, Bin(6)), Get(h, Bin(7)), e);
  }

  lemma SumOfFractions(a1: real, a2: real, a3: real, a4: real, a5: real, a6: real, a7: real, e: real)
    requires e != 0.0 && a1 + a2 + a3 + a4 + a5 + a6 + a7 == e
    ensures a1 / e + a2 / e + a3 / e + a4 / e + a5 / e + a6 / e + a7 / e == 1.0
  {
    assert a1 / e + a2 / e + a3 / e + a4 / e + a5 / e + a6 / e + a7 / e == (a1 + a2 + a3 + a4 + a5 + a6 + a7) / e;
  }

  // ---------------------------------------------------------------------
  // Each unit's own outputs after the whole fill.

  /** The seven input names of a unit. */
  function SourceNames(src: Sources): set<string> {
    {src.hv, src.lv, src.dead, src.clusterSize, src.noisyStrips, src.digiMean, src.asymmetry}
  }

  lemma SameSourcesIfUntouched(s: Store, t: Store, src: Sources)
    requires s.Keys == t.Keys
    requires forall n :: n in SourceNames(src) && n in s ==> t[n] == s[n]
    ensures SameSources(s, t, src)
  {
  }

  /** No input name of any unit is an output name. */
  lemma InputIsNoOutName(c: Config, u: Unit, o: Output)
    ensures OutName(c, o) !in SourceNames(SourcesFor(c.summaryDir, UnitSuffix(u)))
  {
    forall k: Input
      ensures FullName(c.summaryDir, InputName(k, UnitSuffix(u))) != OutName(c, o)
    {
      InputIsNotOutput(k, u, o);
      if FullName(c.summaryDir, InputName(k, UnitSuffix(u))) == OutName(c, o) {
        FullNameInjective(c.summaryDir, InputName(k, UnitSuffix(u)), OutputName(o));
      }
    }
    var src := SourcesFor(c.summaryDir, UnitSuffix(u));
    assert src.hv == FullName(c.summaryDir, InputName(HVStatus, UnitSuffix(u)));
    assert src.lv == FullName(c.summaryDir, InputName(LVStatus, UnitSuffix(u)));
    assert src.dead == FullName(c.summaryDir, InputName(DeadChannelFraction, UnitSuffix(u)));
    assert src.clusterSize == FullName(c.summaryDir, InputName(ClusterSizeIn1Bin, UnitSuffix(u)));
    assert src.noisyStrips == FullName(c.summaryDir, InputName(NoisyStrips, UnitSuffix(u)));
    assert src.digiMean == FullName(c.summaryDir, InputName(DigiMean, UnitSuffix(u)));
    assert src.asymmetry == FullName(c.summaryDir, InputName(AsymmetryLeftRight, UnitSuffix(u)));
  }

  /** A store change that touches only output names keeps every unit's inputs. */
  lemma OutputsOnlyKeepSources(c: Config, s: Store, t: Store, u: Unit, touched: set<Output>)
    requires s.Keys == t.Keys
    requires forall n :: n in s && (forall o :: o in touched ==> n != OutName(c, o)) ==> t[n] == s[n]
    ensures SameSources(s, t, SourcesFor(c.summaryDir, UnitSuffix(u)))
  {
    var src := SourcesFor(c.summaryDir, UnitSuffix(u));
    forall n | n in SourceNames(src) && n in s
      ensures t[n] == s[n]
    {
      forall o | o in touched
        ensures n != OutName(c, o)
      {
        InputIsNoOutName(c, u, o);
      }
    }
    SameSourcesIfUntouched(s, t, src);
  }

  /** The outputs one pass writes. */
  function PassOutputs(u: Unit): set<Output> {
    {QualityMap(u), Distribution(u), Summary(RegionOf(u))}
  }

  lemma {:induction false} RunUnitsSplit(folder: string, s: Store, a: seq<Unit>, b: seq<Unit>)
    ensures RunUnits(folder, s, a + b) == RunUnits(folder, RunUnits(folder, s, a), b)
    decreases |a|
  {
    if a == [] {
      assert a + b == b;
    } else {
      assert (a + b)[1..] == a[1..] + b;
      RunUnitsSplit(folder, RunUnit(folder, s, a[0]).value, a[1..], b);
    }
  }

  /** A run is the first unit's pass followed by the rest of the run. */
  lemma RunUnitsStep(folder: string, s: Store, us: seq<Unit>)
    requires us != []
    ensures RunUnits(folder, s, us) == RunUnits(folder, RunUnit(folder, s, us[0]).value, us[1..])
  {
  }

  /** A run splits into the units before position i, the unit at i and
      the units after it. */
  lemma RunUnitsSplitAt(folder: string, s: Store, us: seq<Unit>, i: int)
    requires 0 <= i < |us|
    ensures RunUnits(folder, s, us) == RunUnits(folder, RunUnits(folder, s, us[..i]), [us[i]] + us[i + 1..])
  {
    assert us[i..] == [us[i]] + us[i + 1..];
    assert us == us[..i] + us[i..];
    RunUnitsSplit(folder, s, us[..i], us[i..]);
  }

  /** One pass leaves alone every name it does not write. */
  lemma RunUnitFrame(c: Config, s: Store, u: Unit, n: string)
    requires n in s
    requires forall o :: o in PassOutputs(u) ==> n != OutName(c, o)
    ensures var t := RunUnit(c.summaryDir, s, u).value;
      n in t && t[n] == s[n]
  {
    UnitFrame(c.summaryDir, s, u);
    UnitSinksAreOutputs(c, u);
    assert QualityMap(u) in PassOutputs(u) && Distribution(u) in PassOutputs(u) && Summary(RegionOf(u)) in PassOutputs(u);
  }

  /** Passes leave alone every name that none of them writes. */
  lemma {:induction false} RunUnitsFrame(c: Config, s: Store, us: seq<Unit>, n: string)
    requires n in s
    requires forall u, o :: u in us && o in PassOutputs(u) ==> n != OutName(c, o)
    ensures RunUnits(c.summaryDir, s, us)[n] == s[n]
    decreases |us|
  {
    if us != [] {
      var s1 := RunUnit(c.summaryDir, s, us[0]).value;
      RunUnitFrame(c, s, us[0], n);
      forall u, o | u in us[1..] && o in PassOutputs(u)
        ensures n != OutName(c, o)
      {
        assert u in us;
      }
      RunUnitsFrame(c, s1, us[1..], n);
    }
  }

  /** Passes keep every unit's inputs. */
  lemma {:induction false} RunUnitsKeepSources(c: Config, s: Store, us: seq<Unit>, v: Unit)
    ensures SameSources(s, RunUnits(c.summaryDir, s, us), SourcesFor(c.summaryDir, UnitSuffix(v)))
    decreases |us|
  {
    if us != [] {
      var u := us[0];
      var s1 := RunUnit(c.summaryDir, s, u).value;
      UnitFrame(c.summaryDir, s, u);
      UnitSinksAreOutputs(c, u);
      OutputsOnlyKeepSources(c, s, s1, v, PassOutputs(u));
      RunUnitsKeepSources(c, s1, us[1..], v);
    }
  }

  /** In a list without repeats, the elements before and after position i
      differ from the one at i. */
  lemma OthersDiffer<T>(us: seq<T>, i: int, before: seq<T>, after: seq<T>)
    requires Distinct(us) && 0 <= i < |us|
    requires before == us[..i] && after == us[i + 1..]
    ensures forall w :: w in before ==> w != us[i]
    ensures forall w :: w in after ==> w != us[i]
  {
    forall w | w in before
      ensures w != us[i]
    {
      var j :| 0 <= j < i && before[j] == w;
      assert us[j] == w;
    }
    forall w | w in after
      ensures w != us[i]
    {
      var j :| 0 <= j < |after| && after[j] == w;
      assert us[i + 1 + j] == w;
    }
  }

  /** No other unit's pass writes unit u's map or distribution. */
  lemma OthersDoNotWrite(c: Config, others: seq<Unit>, u: Unit, o: Output)
    requires forall w :: w in others ==> w != u
    requires o == QualityMap(u) || o == Distribution(u)
    ensures forall w, p :: w in others && p in PassOutputs(w) ==> OutName(c, o) != OutName(c, p)
  {
    forall w, p | w in others && p in PassOutputs(w)
      ensures OutName(c, o) != OutName(c, p)
    {
      OutNameInjective(c, o, p);
    }
  }

  /** A unit's pass followed by passes of other units: the unit's map and
      distribution end as its own pass left them. */
  lemma PassThenOthers(c: Config, s: Store, u: Unit, others: seq<Unit>, o: Output)
    requires forall w :: w in others ==> w != u
    requires o == QualityMap(u) || o == Distribution(u)
    requires OutName(c, o) in s
    ensures RunUnits(c.summaryDir, s, [u] + others)[OutName(c, o)] == RunUnit(c.summaryDir, s, u).value[OutName(c, o)]
  {
    var n, us := OutName(c, o), [u] + others;
    OthersDoNotWrite(c, others, u, o);
    var after := RunUnit(c.summaryDir, s, u).value;
    assert us[0] == u && us[1..] == others;
    assert n in after;
    RunUnitsFrame(c, after, others, n);
  }

  /** In a run of distinct units, unit us[i]'s map and distribution end as
      its own pass left them, and that pass saw the original inputs. */
  lemma RunUnitsAround(c: Config, s: Store, us: seq<Unit>, i: int, o: Output)
    requires Distinct(us) && 0 <= i < |us|
    requires o == QualityMap(us[i]) || o == Distribution(us[i])
    requires OutName(c, o) in s
    ensures var before := RunUnits(c.summaryDir, s, us[..i]);
      && SameSources(s, before, SourcesFor(c.summaryDir, UnitSuffix(us[i])))
      && RunUnits(c.summaryDir, s, us)[OutName(c, o)] == RunUnit(c.summaryDir, before, us[i]).value[OutName(c, o)]
  {
    var u, n := us[i], OutName(c, o);
    var a, b := us[..i], us[i + 1..];
    var before := RunUnits(c.summaryDir, s, a);
    OthersDiffer(us, i, a, b);
    RunUnitsKeepSources(c, s, a, u);
    assert n in before by {
      OthersDoNotWrite(c, a, u, o);
      RunUnitsFrame(c, s, a, n);
    }
    RunUnitsSplitAt(c.summaryDir, s, us, i);
    PassThenOthers(c, before, u, b, o);
  }

  /** Position of a unit in the swept list. */
  lemma UnitIndex(c: Config, u: Unit) returns (i: int)
    requires u in Units(c)
    ensures 0 <= i < |Units(c)| && Units(c)[i] == u
  {
    i :| 0 <= i < |Units(c)| && Units(c)[i] == u;
  }

  /** The overview handling at the end of a fill touches nothing else. */
  lemma FillKeepsSweptStore(c: Config, s: Store, n: string)
    requires GateOpen(c, s) && OverviewName(c) in s
    requires n in s && n != OverviewName(c)
    ensures FillMonitorElements(c, s)[n] == AfterSweeps(c, s)[n]
  {
    NormalizeAllEffect(c, ResetIn(AfterSweeps(c, s), OverviewName(c)));
  }

  /** Within a fill, a unit's map or distribution ends as the unit's own
      pass left it, and that pass saw the inputs of the original store. */
  lemma SweptByOwnPass(c: Config, s: Store, u: Unit, o: Output) returns (before: Store)
    requires u in Units(c)
    requires o == QualityMap(u) || o == Distribution(u)
    requires OutName(c, o) in s
    ensures OutName(c, o) in before
    ensures before[OutName(c, o)] == s[OutName(c, o)]
    ensures SameSources(s, before, SourcesFor(c.summaryDir, UnitSuffix(u)))
    ensures AfterSweeps(c, s)[OutName(c, o)] == RunUnit(c.summaryDir, before, u).value[OutName(c, o)]
  {
    var n := OutName(c, o);
    var s1 := ResetSummaries(c, s);
    forall r: Region {
      OutNameInjective(c, o, Summary(r));
    }
    assert s1[n] == s[n];
    OutputsOnlyKeepSources(c, s, s1, u, {Summary(EndcapNegative), Summary(Barrel), Summary(EndcapPositive)});
    var i := UnitIndex(c, u);
    UnitsVisitedOnce(c);
    RunUnitsAround(c, s1, Units(c), i, o);
    before := RunUnits(c.summaryDir, s1, Units(c)[..i]);
    OthersDiffer(Units(c), i, Units(c)[..i], Units(c)[i + 1..]);
    OthersDoNotWrite(c, Units(c)[..i], u, o);
    RunUnitsFrame(c, s1, Units(c)[..i], n);
  }

  /** After a fill, every swept bin of a unit's quality map holds the state
      of its inputs as they were before the fill; other bins are as before. */
  lemma FillQualityMap(c: Config, s: Store, u: Unit)
    requires GateOpen(c, s) && OverviewName(c) in s
    requires u in Units(c) && OutName(c, QualityMap(u)) in s
    ensures var t, qm, src := FillMonitorElements(c, s), OutName(c, QualityMap(u)), SourcesFor(c.summaryDir, UnitSuffix(u));
      forall cell ::
        Get(t[qm], cell) == if InSweep(RegionCode(u), cell) then Ordinal(StateAt(s, src, cell)) as real else Get(s[qm], cell)
  {
    var qm, src := OutName(c, QualityMap(u)), SourcesFor(c.summaryDir, UnitSuffix(u));
    var before := SweptByOwnPass(c, s, u, QualityMap(u));
    UnitSinksAreOutputs(c, u);
    UnitWritesMap(c.summaryDir, before, u);
    forall cell: Cell {
      StateUnchanged(s, before, src, cell);
    }
    OutNameInjective(c, QualityMap(u), Overview);
    FillKeepsSweptStore(c, s, qm);
  }

  /** After a fill, a unit's distribution holds the state counts of its
      bins, computed from the inputs as they were before the fill: 204
      entries for a wheel, 216 for a disk. */
  lemma FillDistribution(c: Config, s: Store, u: Unit)
    requires GateOpen(c, s) && OverviewName(c) in s
    requires u in Units(c) && OutName(c, Distribution(u)) in s
    ensures var t, d, src := FillMonitorElements(c, s), OutName(c, Distribution(u)), SourcesFor(c.summaryDir, UnitSuffix(u));
      && (forall cell :: Get(t[d], cell) == (if cell.y == 0 then Count(s, src, Grid(RegionCode(u)), cell.x) else 0) as real)
      && t[d].entries == SweptCells(u) as real
  {
    SweptDistribution(c, s, u);
    OutNameInjective(c, Distribution(u), Overview);
    FillKeepsSweptStore(c, s, OutName(c, Distribution(u)));
  }

  /** The same, before the overview step. */
  lemma SweptDistribution(c: Config, s: Store, u: Unit)
    requires u in Units(c) && OutName(c, Distribution(u)) in s
    ensures var h, src := AfterSweeps(c, s)[OutName(c, Distribution(u))], SourcesFor(c.summaryDir, UnitSuffix(u));
      && (forall cell :: Get(h, cell) == (if cell.y == 0 then Count(s, src, Grid(RegionCode(u)), cell.x) else 0) as real)
      && h.entries == SweptCells(u) as real
  {
    var src, grid := SourcesFor(c.summaryDir, UnitSuffix(u)), Grid(RegionCode(u));
    var d := OutName(c, Distribution(u));
    var before := SweptByOwnPass(c, s, u, Distribution(u));
    assert RunUnit(c.summaryDir, before, u).Success? by {
      UnitSinksAreOutputs(c, u);
      UnitFillsDistribution(c.summaryDir, before, u);
    }
    var h := RunUnit(c.summaryDir, before, u).value[d];
    assert h.entries == SweptCells(u) as real
      && forall cell :: Get(h, cell) == (if cell.y == 0 then Count(before, src, grid, cell.x) else 0) as real
    by {
      UnitSinksAreOutputs(c, u);
      UnitFillsDistribution(c.summaryDir, before, u);
    }
    forall cell: Cell
      ensures Get(h, cell) == (if cell.y == 0 then Count(s, src, grid, cell.x) else 0) as real
    {
      CountFrame(s, before, src, grid, cell.x);
    }
  }
}
