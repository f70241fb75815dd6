/** fillMonitorElements run twice on the same inputs: the second run leaves
    every histogram showing the bins the first run left. Summaries,
    distributions and the overview are reset before they are filled, so
    their entry counts repeat too; the quality maps are overwritten bin by
    bin without a reset, so their entry counts grow with every fill.
    Nothing the fill writes is one of its inputs or the event counter. */
module Refill {
  import opened Histograms
  import opened ChamberQuality
  import opened Naming
  import opened Sweep
  import opened QualityClient

  // ---------------------------------------------------------------------
  // Axis labels are never touched.

  /** The same names, and every histogram keeps its axis labels. */
  predicate SameLabels(s: Store, t: Store) {
    && s.Keys == t.Keys
    && forall n :: n in s ==> t[n].xLabels == s[n].xLabels && t[n].yLabels == s[n].yLabels
  }

  lemma SameLabelsTrans(a: Store, b: Store, c: Store)
    requires SameLabels(a, b) && SameLabels(b, c)
    ensures SameLabels(a, c)
  {
  }

  lemma SetInKeepsLabels(s: Store, name: string, c: Cell, v: real)
    ensures SameLabels(s, SetIn(s, name, c, v))
  {
  }

  lemma FillInKeepsLabels(s: Store, name: string, k: int)
    ensures SameLabels(s, FillIn(s, name, k))
  {
  }

  lemma ResetInKeepsLabels(s: Store, name: string)
    ensures SameLabels(s, ResetIn(s, name))
  {
  }

  lemma StepKeepsLabels(s: Store, src: Sources, snk: Sinks, c: Cell)
    ensures SameLabels(s, Step(s, src, snk, c))
  {
    var k := Ordinal(StateAt(s, src, c));
    var s1 := SetIn(s, snk.qualityMap, c, k as real);
    var s2 := FillIn(s1, snk.distribution, k);
    assert Step(s, src, snk, c) == FillIn(s2, snk.summary, k);
    SetInKeepsLabels(s, snk.qualityMap, c, k as real);
    FillInKeepsLabels(s1, snk.distribution, k);
    FillInKeepsLabels(s2, snk.summary, k);
    SameLabelsTrans(s, s1, s2);
    SameLabelsTrans(s, s2, FillIn(s2, snk.summary, k));
  }

  lemma {:induction false} SweepKeepsLabels(s: Store, src: Sources, snk: Sinks, cells: seq<Cell>)
    ensures SameLabels(s, Sweep.Sweep(s, src, snk, cells))
    decreases |cells|
  {
    if cells != [] {
      var s' := Step(s, src, snk, cells[0]);
      StepKeepsLabels(s, src, snk, cells[0]);
      SweepKeepsLabels(s', src, snk, cells[1..]);
      SameLabelsTrans(s, s', Sweep.Sweep(s', src, snk, cells[1..]));
    }
  }

  lemma RunUnitKeepsLabels(folder: string, s: Store, u: Unit)
    ensures SameLabels(s, RunUnit(folder, s, u).value)
  {
    var snk := UnitSinks(folder, u);
    var s1 := ResetIn(s, snk.distribution);
    RunUnitIsSweep(folder, s, u);
    ResetInKeepsLabels(s, snk.distribution);
    SweepKeepsLabels(s1, SourcesFor(folder, UnitSuffix(u)), snk, Grid(RegionCode(u)));
    SameLabelsTrans(s, s1, RunUnit(folder, s, u).value);
  }

  lemma {:induction false} RunUnitsKeepLabels(folder: string, s: Store, us: seq<Unit>)
    ensures SameLabels(s, RunUnits(folder, s, us))
    decreases |us|
  {
    if us != [] {
      var s1 := RunUnit(folder, s, us[0]).value;
      RunUnitKeepsLabels(folder, s, us[0]);
      RunUnitsKeepLabels(folder, s1, us[1..]);
      SameLabelsTrans(s, s1, RunUnits(folder, s1, us[1..]));
    }
  }

  lemma NormalizeKeepsLabels(c: Config, s: Store, r: Region)
    ensures SameLabels(s, Normalize(c, s, r))
  {
    var q, ov := SummaryName(c, r), OverviewName(c);
    if Shown(c, s, r) && ov in s {
      var h := WriteRow(s[ov], s[q], RegionIndex(r) + 1, 1);
      ReplaceKeepsLabels(s, ov, h);
    }
  }

  lemma ReplaceKeepsLabels(s: Store, n: string, h: Histo)
    requires n in s && h.xLabels == s[n].xLabels && h.yLabels == s[n].yLabels
    ensures SameLabels(s, s[n := h])
  {
  }

  /** Resetting the summaries and sweeping every unit keeps the labels. */
  lemma AfterSweepsKeepsLabels(c: Config, s: Store)
    ensures SameLabels(s, AfterSweeps(c, s))
  {
    var a := ResetIn(s, SummaryName(c, EndcapNegative));
    var b := ResetIn(a, SummaryName(c, Barrel));
    var s1 := ResetIn(b, SummaryName(c, EndcapPositive));
    assert s1 == ResetSummaries(c, s);
    ResetInKeepsLabels(s, SummaryName(c, EndcapNegative));
    ResetInKeepsLabels(a, SummaryName(c, Barrel));
    ResetInKeepsLabels(b, SummaryName(c, EndcapPositive));
    SameLabelsTrans(s, a, b);
    SameLabelsTrans(s, b, s1);
    RunUnitsKeepLabels(c.summaryDir, s1, Units(c));
    SameLabelsTrans(s, s1, AfterSweeps(c, s));
  }

  /** The three row normalisations keep the labels. */
  lemma NormalizeAllKeepsLabels(c: Config, s: Store)
    ensures SameLabels(s, NormalizeAll(c, s))
  {
    var n1 := Normalize(c, s, EndcapNegative);
    var n2 := Normalize(c, n1, Barrel);
    NormalizeKeepsLabels(c, s, EndcapNegative);
    NormalizeKeepsLabels(c, n1, Barrel);
    NormalizeKeepsLabels(c, n2, EndcapPositive);
    SameLabelsTrans(s, n1, n2);
    SameLabelsTrans(s, n2, NormalizeAll(c, s));
  }

  /** A fill keeps every histogram's axis labels. */
  lemma FillKeepsLabels(c: Config, s: Store)
    requires GateOpen(c, s) ==> OverviewName(c) in s
    ensures SameLabels(s, FillMonitorElements(c, s))
  {
    if GateOpen(c, s) {
      var s2 := AfterSweeps(c, s);
      var s3 := ResetIn(s2, OverviewName(c));
      AfterSweepsKeepsLabels(c, s);
      ResetInKeepsLabels(s2, OverviewName(c));
      NormalizeAllKeepsLabels(c, s3);
      SameLabelsTrans(s, s2, s3);
      SameLabelsTrans(s, s3, FillMonitorElements(c, s));
    }
  }

  // ---------------------------------------------------------------------
  // Entry counts of the maps and of the overview.

  /** Every setBinContent of the sweep counts one entry of its quality map. */
  lemma {:induction false} SweepCountsMapEntries(s: Store, src: Sources, snk: Sinks, cells: seq<Cell>)
    requires Separated(src, snk) && snk.qualityMap in s
    ensures Sweep.Sweep(s, src, snk, cells)[snk.qualityMap].entries == s[snk.qualityMap].entries + |cells| as real
    decreases |cells|
  {
    if cells != [] {
      var s' := Step(s, src, snk, cells[0]);
      StepEffect(s, src, snk, cells[0]);
      SweepCountsMapEntries(s', src, snk, cells[1..]);
    }
  }

  /** The quality maps are never reset, so every fill adds one entry per
      swept bin: 204 for a wheel, 216 for a disk. */
  lemma FillMapEntries(c: Config, s: Store, u: Unit)
    requires GateOpen(c, s) && OverviewName(c) in s
    requires u in Units(c) && OutName(c, QualityMap(u)) in s
    ensures var qm := OutName(c, QualityMap(u));
      FillMonitorElements(c, s)[qm].entries == s[qm].entries + SweptCells(u) as real
  {
    var qm := OutName(c, QualityMap(u));
    var before := SweptByOwnPass(c, s, u, QualityMap(u));
    var snk := UnitSinks(c.summaryDir, u);
    UnitSinksAreOutputs(c, u);
    UnitNamesSeparated(c.summaryDir, u);
    RunUnitIsSweep(c.summaryDir, before, u);
    GridSize(RegionCode(u));
    SweepCountsMapEntries(ResetIn(before, snk.distribution), SourcesFor(c.summaryDir, UnitSuffix(u)), snk, Grid(RegionCode(u)));
    OutNameInjective(c, QualityMap(u), Overview);
    FillKeepsSweptStore(c, s, qm);
  }

  /** The number of overview rows a store's summaries get written. */
  function ShownRows(c: Config, t: Store): nat {
    (if Shown(c, t, EndcapNegative) then 1 else 0) + (if Shown(c, t, Barrel) then 1 else 0)
      + (if Shown(c, t, EndcapPositive) then 1 else 0)
  }

  /** After a fill the overview counts seven entries per written row: it is
      reset, and then each written row gets seven setBinContent calls. */
  lemma FillOverviewEntries(c: Config, s: Store)
    requires GateOpen(c, s) && OverviewName(c) in s
    ensures var t := FillMonitorElements(c, s);
      t[OverviewName(c)].entries == 7.0 * ShownRows(c, t) as real
  {
    var s3 := ResetIn(AfterSweeps(c, s), OverviewName(c));
    var n1 := Normalize(c, s3, EndcapNegative);
    var n2 := Normalize(c, n1, Barrel);
    NormalizeEffect(c, s3, EndcapNegative);
    NormalizeEffect(c, n1, Barrel);
    NormalizeEntries(c, s3, EndcapNegative);
    NormalizeEntries(c, n1, Barrel);
    NormalizeEntries(c, n2, EndcapPositive);
    SummariesAreNotOverview(c);
    assert forall r: Region :: Shown(c, n2, r) <==> Shown(c, s3, r);
    assert forall r: Region :: Shown(c, FillMonitorElements(c, s), r) <==> Shown(c, n2, r) by {
      NormalizeEffect(c, n2, EndcapPositive);
    }
  }

  // ---------------------------------------------------------------------
  // What a fill does not write.

  /** The outputs a fill writes: the maps and distributions of the swept
      units, the three summaries and the overview. */
  predicate Written(c: Config, o: Output) {
    match o
    case QualityMap(u) => u in Units(c)
    case Distribution(u) => u in Units(c)
    case Summary(_) => true
    case Overview => true
  }

  /** A name the fill does not write keeps its histogram. */
  lemma FillFrame(c: Config, s: Store, n: string)
    requires GateOpen(c, s) && OverviewName(c) in s
    requires n in s
    requires forall o :: Written(c, o) ==> n != OutName(c, o)
    ensures FillMonitorElements(c, s)[n] == s[n]
  {
    var s1 := ResetSummaries(c, s);
    assert n != SummaryName(c, EndcapNegative) && n != SummaryName(c, Barrel) && n != SummaryName(c, EndcapPositive) by {
      assert Written(c, Summary(EndcapNegative)) && Written(c, Summary(Barrel)) && Written(c, Summary(EndcapPositive));
    }
    assert s1[n] == s[n];
    forall u, o | u in Units(c) && o in PassOutputs(u)
      ensures n != OutName(c, o)
    {
      assert Written(c, o);
    }
    RunUnitsFrame(c, s1, Units(c), n);
    assert Written(c, Overview);
    FillKeepsSweptStore(c, s, n);
  }

  /** A fill keeps every unit's inputs. */
  lemma FillKeepsSources(c: Config, s: Store, v: Unit)
    requires GateOpen(c, s) && OverviewName(c) in s
    ensures SameSources(s, FillMonitorElements(c, s), SourcesFor(c.summaryDir, UnitSuffix(v)))
  {
    var src := SourcesFor(c.summaryDir, UnitSuffix(v));
    forall n | n in SourceNames(src) && n in s
      ensures FillMonitorElements(c, s)[n] == s[n]
    {
      forall o | Written(c, o)
        ensures n != OutName(c, o)
      {
        InputIsNoOutName(c, v, o);
      }
      FillFrame(c, s, n);
    }
    SameSourcesIfUntouched(s, FillMonitorElements(c, s), src);
  }

  /** A name directly in folder a is never a name one folder below a when
      the leaf has no '/'. */
  lemma ShallowIsNotDeep(a: string, leaf: string, sub: string, name: string)
    requires forall j :: 0 <= j < |leaf| ==> leaf[j] != '/'
    ensures FullName(a, leaf) != FullName(FullName(a, sub), name)
  {
    var e, o := FullName(a, leaf), FullName(FullName(a, sub), name);
    if |e| == |o| {
      var i := |a| + 1 + |sub|;
      assert o[i] == '/';
      assert e[i] == leaf[|sub|];
    }
  }

  /** RPCEvents sits in the prefix folder and the outputs one folder
      deeper: no output is the event counter. */
  lemma EventsIsNoOutput(p: Parameters, o: Output)
    ensures EventsName(Configure(p)) != OutName(Configure(p), o)
  {
    var c := Configure(p);
    var sub := p.summaryFolder.GetOr("SummaryHistograms");
    assert c.summaryDir == FullName(c.prefixDir, sub);
    var leaf := "RPCEvents";
    assert forall j :: 0 <= j < |leaf| ==> leaf[j] != '/';
    ShallowIsNotDeep(c.prefixDir, leaf, sub, OutputName(o));
  }

  /** The gate reads RPCEvents, which the fill does not write, so it stays
      open for a second fill. */
  lemma GateStaysOpen(p: Parameters, s: Store)
    requires GateOpen(Configure(p), s) && OverviewName(Configure(p)) in s
    ensures GateOpen(Configure(p), FillMonitorElements(Configure(p), s))
  {
    var c := Configure(p);
    if EventsName(c) in s {
      forall o | Written(c, o)
        ensures EventsName(c) != OutName(c, o)
      {
        EventsIsNoOutput(p, o);
      }
      FillFrame(c, s, EventsName(c));
    }
  }

  // ---------------------------------------------------------------------
  // Each written histogram, refilled.

  /** The same bin contents, as getBinContent reads them, and the same labels. */
  ghost predicate SameBins(h: Histo, g: Histo) {
    && (forall cell :: Get(h, cell) == Get(g, cell))
    && h.xLabels == g.xLabels && h.yLabels == g.yLabels
  }

  /** What the client can observe of a histogram: bins, entries, labels. */
  ghost predicate Agrees(h: Histo, g: Histo) {
    SameBins(h, g) && h.entries == g.entries
  }

  /** The quality map of a unit the fill sweeps. */
  ghost predicate SweptMap(c: Config, n: string) {
    exists u :: u in Units(c) && n == OutName(c, QualityMap(u))
  }

  /** Two stores from which the fill reads the same region summaries. */
  ghost predicate SameSummaries(c: Config, s: Store, t: Store) {
    forall r: Region :: (SummaryName(c, r) in s <==> SummaryName(c, r) in t)
      && (SummaryName(c, r) in s ==> Agrees(s[SummaryName(c, r)], t[SummaryName(c, r)]))
  }

  lemma MapRefill(c: Config, s: Store, u: Unit)
    requires GateOpen(c, s) && OverviewName(c) in s
    requires GateOpen(c, FillMonitorElements(c, s))
    requires u in Units(c) && OutName(c, QualityMap(u)) in s
    ensures var t, qm := FillMonitorElements(c, s), OutName(c, QualityMap(u));
      && (forall cell :: Get(FillMonitorElements(c, t)[qm], cell) == Get(t[qm], cell))
      && FillMonitorElements(c, t)[qm].entries == t[qm].entries + SweptCells(u) as real
  {
    var t := FillMonitorElements(c, s);
    var src := SourcesFor(c.summaryDir, UnitSuffix(u));
    FillQualityMap(c, s, u);
    FillQualityMap(c, t, u);
    FillKeepsSources(c, s, u);
    forall cell: Cell {
      StateUnchanged(s, t, src, cell);
    }
    FillMapEntries(c, t, u);
  }

  lemma DistributionRefill(c: Config, s: Store, u: Unit)
    requires GateOpen(c, s) && OverviewName(c) in s
    requires GateOpen(c, FillMonitorElements(c, s))
    requires u in Units(c) && OutName(c, Distribution(u)) in s
    ensures var t, d := FillMonitorElements(c, s), OutName(c, Distribution(u));
      && (forall cell :: Get(FillMonitorElements(c, t)[d], cell) == Get(t[d], cell))
      && FillMonitorElements(c, t)[d].entries == t[d].entries
  {
    var t := FillMonitorElements(c, s);
    var src, grid := SourcesFor(c.summaryDir, UnitSuffix(u)), Grid(RegionCode(u));
    FillDistribution(c, s, u);
    FillDistribution(c, t, u);
    FillKeepsSources(c, s, u);
    forall cell: Cell {
      CountFrame(s, t, src, grid, cell.x);
    }
  }

  lemma SummaryRefill(c: Config, s: Store, r: Region)
    requires GateOpen(c, s) && OverviewName(c) in s
    requires GateOpen(c, FillMonitorElements(c, s))
    requires SummaryName(c, r) in s
    ensures var t, q := FillMonitorElements(c, s), SummaryName(c, r);
      && (forall cell :: Get(FillMonitorElements(c, t)[q], cell) == Get(t[q], cell))
      && FillMonitorElements(c, t)[q].entries == t[q].entries
  {
    var t := FillMonitorElements(c, s);
    FillSummary(c, s, r);
    FillSummary(c, t, r);
    forall cell: Cell {
      FillKeepsRegionCount(c, s, r, cell.x);
    }
  }

  /** The fill keeps every unit's inputs, so the region counts a second
      fill would take are the first fill's. */
  lemma FillKeepsRegionCount(c: Config, s: Store, r: Region, k: int)
    requires GateOpen(c, s) && OverviewName(c) in s
    ensures RegionCount(c, s, Units(c), r, k) == RegionCount(c, FillMonitorElements(c, s), Units(c), r, k)
  {
    forall v
      ensures SameSources(s, FillMonitorElements(c, s), SourcesFor(c.summaryDir, UnitSuffix(v)))
    {
      FillKeepsSources(c, s, v);
    }
    RegionCountFrame(c, s, FillMonitorElements(c, s), Units(c), r, k);
  }

  /** The overview is computed from the summaries alone. */
  lemma FractionsFollowSummaries(c: Config, s: Store, t: Store, cell: Cell)
    requires SameSummaries(c, s, t)
    ensures Fraction(c, s, cell) == Fraction(c, t, cell)
  {
  }

  /** So does the number of rows written. */
  lemma RowsFollowSummaries(c: Config, s: Store, t: Store)
    requires SameSummaries(c, s, t)
    ensures ShownRows(c, s) == ShownRows(c, t)
  {
    assert Shown(c, s, EndcapNegative) == Shown(c, t, EndcapNegative);
    assert Shown(c, s, Barrel) == Shown(c, t, Barrel);
    assert Shown(c, s, EndcapPositive) == Shown(c, t, EndcapPositive);
  }

  lemma OverviewRefill(c: Config, s: Store)
    requires GateOpen(c, s) && OverviewName(c) in s
    requires GateOpen(c, FillMonitorElements(c, s))
    ensures var t, ov := FillMonitorElements(c, s), OverviewName(c);
      && (forall cell :: Get(FillMonitorElements(c, t)[ov], cell) == Get(t[ov], cell))
      && FillMonitorElements(c, t)[ov].entries == t[ov].entries
  {
    var t := FillMonitorElements(c, s);
    var t2 := FillMonitorElements(c, t);
    FillKeepsLabels(c, t);
    forall r: Region | SummaryName(c, r) in s
      ensures Agrees(t2[SummaryName(c, r)], t[SummaryName(c, r)])
    {
      SummaryRefill(c, s, r);
    }
    assert SameSummaries(c, t2, t);
    forall cell: Cell
      ensures Get(t2[OverviewName(c)], cell) == Get(t[OverviewName(c)], cell)
    {
      FillOverviewAt(c, s, cell);
      FillOverviewAt(c, t, cell);
      FractionsFollowSummaries(c, t2, t, cell);
    }
    assert t2[OverviewName(c)].entries == t[OverviewName(c)].entries by {
      FillOverviewEntries(c, s);
      FillOverviewEntries(c, t);
      RowsFollowSummaries(c, t2, t);
    }
  }

  /** One name after a second fill: the same bins and labels, and the same
      entries unless it is a swept quality map, which is never reset. */
  lemma NameRefill(p: Parameters, s: Store, n: string)
    requires GateOpen(Configure(p), s) && OverviewName(Configure(p)) in s
    requires n in s
    ensures var c := Configure(p);
      GateOpen(c, FillMonitorElements(c, s))
      && var t := FillMonitorElements(c, s);
      && SameBins(FillMonitorElements(c, t)[n], t[n])
      && (!SweptMap(c, n) ==> Agrees(FillMonitorElements(c, t)[n], t[n]))
  {
    var c := Configure(p);
    var t := FillMonitorElements(c, s);
    GateStaysOpen(p, s);
    FillKeepsLabels(c, t);
    if o :| Written(c, o) && n == OutName(c, o) {
      match o
      case QualityMap(u) => MapRefill(c, s, u); assert SweptMap(c, n);
      case Distribution(u) => DistributionRefill(c, s, u);
      case Summary(r) => SummaryRefill(c, s, r);
      case Overview => OverviewRefill(c, s);
    } else {
      FillFrame(c, s, n);
      FillFrame(c, t, n);
    }
  }

  /** Filling twice on the same inputs shows what filling once shows: every
      histogram has the same bins and labels after the second fill as after
      the first, and the same entries, except that each swept quality map,
      never reset, counts one more entry per swept bin. */
  lemma FillIdempotent(p: Parameters, s: Store)
    requires GateOpen(Configure(p), s) ==> OverviewName(Configure(p)) in s
    ensures var c := Configure(p);
      var t := FillMonitorElements(c, s);
      var t2 := FillMonitorElements(c, t);
      && (GateOpen(c, t) ==> OverviewName(c) in t)
      && t2.Keys == t.Keys
      && (forall n :: n in t ==> SameBins(t2[n], t[n]))
      && (forall n :: n in t && (!GateOpen(c, s) || !SweptMap(c, n)) ==> Agrees(t2[n], t[n]))
      && (GateOpen(c, s) ==>
            forall u :: u in Units(c) && OutName(c, QualityMap(u)) in t ==>
              t2[OutName(c, QualityMap(u))].entries == t[OutName(c, QualityMap(u))].entries + SweptCells(u) as real)
  {
    var c := Configure(p);
    var t := FillMonitorElements(c, s);
    if GateOpen(c, s) {
      GateStaysOpen(p, s);
      forall n | n in t
        ensures SameBins(FillMonitorElements(c, t)[n], t[n])
        ensures !SweptMap(c, n) ==> Agrees(FillMonitorElements(c, t)[n], t[n])
      {
        NameRefill(p, s, n);
      }
      forall u | u in Units(c) && OutName(c, QualityMap(u)) in t
        ensures FillMonitorElements(c, t)[OutName(c, QualityMap(u))].entries
          == t[OutName(c, QualityMap(u))].entries + SweptCells(u) as real
      {
        MapRefill(c, s, u);
      }
    }
  }
}
