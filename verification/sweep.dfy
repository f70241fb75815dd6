/** performeClientOperation: the decision tree applied to every bin of one
    wheel or disk. Each bin's state is written into the unit's quality map,
    and counted in the unit's distribution and in its region's summary. */
module Sweep {
  import opened Wrappers
  import opened Histograms
  import opened ChamberQuality
  import opened Naming

  // ---------------------------------------------------------------------
  // Geometry of the sweep. `region` is the int argument of the source:
  // 0 selects the barrel layout, anything else the endcap layout.

  /** One past the last x bin. */
  function XMax(region: int): int {
    if region != 0 then 37 else 13
  }

  /** One past the last y bin of column x. */
  function YMax(region: int, x: int): int {
    if region != 0 then 7
    else if x == 4 then 22
    else if x == 9 || x == 11 then 16
    else 18
  }

  /** The bins the sweep visits. */
  predicate InSweep(region: int, c: Cell) {
    1 <= c.x < XMax(region) && 1 <= c.y < YMax(region, c.x)
  }

  /** Visiting order: x outer, y inner, both ascending. */
  predicate Before(a: Cell, b: Cell) {
    a.x < b.x || (a.x == b.x && a.y < b.y)
  }

  function Column(region: int, x: int): seq<Cell> {
    seq(if YMax(region, x) > 1 then YMax(region, x) - 1 else 0, i => Cell(x, i + 1))
  }

  /** Columns x, x+1, ... of the sweep, in visiting order. */
  function Columns(region: int, x: int): seq<Cell>
    decreases XMax(region) - x
  {
    if x >= XMax(region) then [] else Column(region, x) + Columns(region, x + 1)
  }

  /** A column holds exactly its bins of the sweep, in ascending y. */
  lemma ColumnCells(region: int, x: int)
    ensures forall c :: c in Column(region, x) <==> c.x == x && 1 <= c.y < YMax(region, x)
    ensures forall i, j :: 0 <= i < j < |Column(region, x)| ==> Before(Column(region, x)[i], Column(region, x)[j])
  {
    var col := Column(region, x);
    forall c: Cell | c.x == x && 1 <= c.y < YMax(region, x)
      ensures c in col
    {
      assert col[c.y - 1] == c;
    }
  }

  /** Columns x on hold exactly the swept bins from column x on, in
      visiting order. */
  lemma {:induction false} ColumnsCells(region: int, x: int)
    requires x >= 1
    ensures forall c :: c in Columns(region, x) <==> x <= c.x && InSweep(region, c)
    ensures forall i, j :: 0 <= i < j < |Columns(region, x)| ==> Before(Columns(region, x)[i], Columns(region, x)[j])
    decreases XMax(region) - x
  {
    if x < XMax(region) {
      var col, rest := Column(region, x), Columns(region, x + 1);
      ColumnCells(region, x);
      ColumnsCells(region, x + 1);
      assert Columns(region, x) == col + rest;
      forall i, j | 0 <= i < j < |col + rest|
        ensures Before((col + rest)[i], (col + rest)[j])
      {
        if j < |col| {
          assert (col + rest)[i] == col[i] && (col + rest)[j] == col[j];
        } else if i < |col| {
          assert (col + rest)[i] == col[i] && col[i] in col;
          assert (col + rest)[j] == rest[j - |col|] && rest[j - |col|] in rest;
        } else {
          assert (col + rest)[i] == rest[i - |col|] && (col + rest)[j] == rest[j - |col|];
        }
      }
    }
  }

  /** The bins of one unit, in the order the nested loops visit them. */
  function Grid(region: int): seq<Cell> {
    Columns(region, 1)
  }

  /** The grid holds every swept bin and no other, each once. */
  lemma GridCells(region: int)
    ensures forall c :: c in Grid(region) <==> InSweep(region, c)
    ensures forall i, j :: 0 <= i < j < |Grid(region)| ==> Grid(region)[i] != Grid(region)[j]
  {
    ColumnsCells(region, 1);
  }

  /** Closed form of the barrel column lengths from column x on. */
  function BarrelCellsFrom(x: int): int {
    17 * (13 - x) + (if x <= 4 then 4 else 0) - (if x <= 9 then 2 else 0) - (if x <= 11 then 2 else 0)
  }

  lemma {:induction false} BarrelColumnsSize(x: int)
    requires 1 <= x <= 13
    ensures |Columns(0, x)| == BarrelCellsFrom(x)
    decreases 13 - x
  {
    if x < 13 {
      BarrelColumnsSize(x + 1);
    }
  }

  lemma {:induction false} EndcapColumnsSize(region: int, x: int)
    requires region != 0 && 1 <= x <= 37
    ensures |Columns(region, x)| == 6 * (37 - x)
    decreases 37 - x
  {
    if x < 37 {
      EndcapColumnsSize(region, x + 1);
    }
  }

  /** A wheel has 204 bins, a disk 216. */
  lemma GridSize(region: int)
    ensures |Grid(region)| == if region == 0 then 204 else 216
  {
    if region == 0 {
      BarrelColumnsSize(1);
    } else {
      EndcapColumnsSize(region, 1);
    }
  }

  // ---------------------------------------------------------------------
  // Reading the inputs of one bin.

  /** The seven input maps of one unit, by full name. */
  datatype Sources = Sources(hv: string, lv: string, dead: string, clusterSize: string, noisyStrips: string, digiMean: string, asymmetry: string)

  /** The three histograms one unit writes to, by full name. */
  datatype Sinks = Sinks(qualityMap: string, distribution: string, summary: string)

  /** Bin content of a map that may be missing; missing reads as `absent`. */
  function Read(s: Store, name: string, c: Cell, absent: real): (v: real)
    ensures name !in s ==> v == absent
  {
    if name in s then Get(s[name], c) else absent
  }

  /** What the loop body reads for bin c; each value falls back to its
      neutral default when its map is missing. */
  function CellInputs(s: Store, src: Sources, c: Cell): (i: Inputs)
    ensures src.hv in s ==> i.hv == TruncateToInt(Get(s[src.hv], c))
    ensures src.lv in s ==> i.lv == TruncateToInt(Get(s[src.lv], c))
    ensures src.hv !in s ==> i.hv == 1
    ensures src.lv !in s ==> i.lv == 1
    ensures src.dead in s ==> i.dead == Get(s[src.dead], c)
    ensures src.dead !in s ==> i.dead == 0.0
    ensures src.clusterSize in s ==> i.firstBin == Get(s[src.clusterSize], c)
    ensures src.clusterSize !in s ==> i.firstBin == 0.0
    ensures src.noisyStrips in s ==> i.noisyStrips == Get(s[src.noisyStrips], c)
    ensures src.noisyStrips !in s ==> i.noisyStrips == 0.0
    ensures src.digiMean in s ==> i.mult == Get(s[src.digiMean], c)
    ensures src.digiMean !in s ==> i.mult == 0.0
    ensures src.asymmetry in s ==> i.asymmetry == Get(s[src.asymmetry], c)
    ensures src.asymmetry !in s ==> i.asymmetry == 0.0
  {
    Inputs(
      if src.hv in s then TruncateToInt(Get(s[src.hv], c)) else 1,
      if src.lv in s then TruncateToInt(Get(s[src.lv], c)) else 1,
      Read(s, src.dead, c, 0.0),
      Read(s, src.clusterSize, c, 0.0),
      Read(s, src.noisyStrips, c, 0.0),
      Read(s, src.digiMean, c, 0.0),
      Read(s, src.asymmetry, c, 0.0))
  }

  predicate NoneBooked(s: Store, src: Sources) {
    src.hv !in s && src.lv !in s && src.dead !in s && src.clusterSize !in s
    && src.noisyStrips !in s && src.digiMean !in s && src.asymmetry !in s
  }

  /** With no input map at all every bin is Good. */
  lemma AbsentInputsAreGood(s: Store, src: Sources, c: Cell)
    requires NoneBooked(s, src)
    ensures CellInputs(s, src, c) == Neutral
    ensures Classify(CellInputs(s, src, c)) == Good
  {
    NeutralIsGood();
  }

  /** Two stores that agree on the input maps give every bin the same inputs. */
  predicate SameSources(s: Store, t: Store, src: Sources) {
    && (src.hv in s <==> src.hv in t) && (src.hv in s ==> s[src.hv] == t[src.hv])
    && (src.lv in s <==> src.lv in t) && (src.lv in s ==> s[src.lv] == t[src.lv])
    && (src.dead in s <==> src.dead in t) && (src.dead in s ==> s[src.dead] == t[src.dead])
    && (src.clusterSize in s <==> src.clusterSize in t) && (src.clusterSize in s ==> s[src.clusterSize] == t[src.clusterSize])
    && (src.noisyStrips in s <==> src.noisyStrips in t) && (src.noisyStrips in s ==> s[src.noisyStrips] == t[src.noisyStrips])
    && (src.digiMean in s <==> src.digiMean in t) && (src.digiMean in s ==> s[src.digiMean] == t[src.digiMean])
    && (src.asymmetry in s <==> src.asymmetry in t) && (src.asymmetry in s ==> s[src.asymmetry] == t[src.asymmetry])
  }

  /** The state of bin c, computed from the current store. */
  function StateAt(s: Store, src: Sources, c: Cell): State {
    Classify(CellInputs(s, src, c))
  }

  // ---------------------------------------------------------------------
  // The sweep.

  /** The loop body for bin c: set the map bin to the state, fill the unit
      distribution, fill the region summary (each only if it exists). */
  function Step(s: Store, src: Sources, snk: Sinks, c: Cell): (r: Store)
    ensures r.Keys == s.Keys
  {
    var k := Ordinal(StateAt(s, src, c));
    var s1 := SetIn(s, snk.qualityMap, c, k as real);
    var s2 := FillIn(s1, snk.distribution, k);
    FillIn(s2, snk.summary, k)
  }

  /** The loop over the given bins, in order. */
  function Sweep(s: Store, src: Sources, snk: Sinks, cells: seq<Cell>): (r: Store)
    ensures r.Keys == s.Keys
    ensures forall n :: n in s && n != snk.qualityMap && n != snk.distribution && n != snk.summary ==> r[n] == s[n]
    ensures forall n :: n in s && n != snk.qualityMap && Consistent(s[n]) ==> Consistent(r[n])
    decreases |cells|
  {
    if cells == [] then s
    else
      var s' := Step(s, src, snk, cells[0]);
      var k := Ordinal(StateAt(s, src, cells[0]));
      forall n | n in s && n != snk.qualityMap && Consistent(s[n])
        ensures Consistent(s'[n])
      {
        var s1 := SetIn(s, snk.qualityMap, cells[0], k as real);
        var s2 := FillIn(s1, snk.distribution, k);
        assert s1[n] == s[n];
        if n == snk.distribution {
          FillKeepsConsistent(s1[n], k);
        }
        if n == snk.summary {
          FillKeepsConsistent(s2[n], k);
        }
      }
      Sweep(s', src, snk, cells[1..])
  }

  /** Name n is none of the three outputs. */
  predicate Outside(n: string, snk: Sinks) {
    n != snk.qualityMap && n != snk.distribution && n != snk.summary
  }

  /** The input maps are not among the outputs and the three outputs are
      three different histograms. */
  predicate Separated(src: Sources, snk: Sinks) {
    && snk.qualityMap != snk.distribution && snk.qualityMap != snk.summary && snk.distribution != snk.summary
    && Outside(src.hv, snk) && Outside(src.lv, snk) && Outside(src.dead, snk) && Outside(src.clusterSize, snk)
    && Outside(src.noisyStrips, snk) && Outside(src.digiMean, snk) && Outside(src.asymmetry, snk)
  }

  /** How many of the bins have state ordinal k. */
  function Count(s: Store, src: Sources, cells: seq<Cell>, k: int): nat
    decreases |cells|
  {
    if cells == [] then 0
    else (if Ordinal(StateAt(s, src, cells[0])) == k then 1 else 0) + Count(s, src, cells[1..], k)
  }

  lemma {:induction false} CountFrame(s: Store, t: Store, src: Sources, cells: seq<Cell>, k: int)
    requires SameSources(s, t, src)
    ensures Count(s, src, cells, k) == Count(t, src, cells, k)
    decreases |cells|
  {
    if cells != [] {
      StateUnchanged(s, t, src, cells[0]);
      CountFrame(s, t, src, cells[1..], k);
    }
  }

  /** Counting the first bin on its own, the rest against any store with
      the same inputs. */
  lemma CountStep(s: Store, t: Store, src: Sources, cells: seq<Cell>, k: int)
    requires SameSources(s, t, src) && cells != []
    ensures Count(s, src, cells, k) == (if Ordinal(StateAt(s, src, cells[0])) == k then 1 else 0) + Count(t, src, cells[1..], k)
  {
    CountFrame(s, t, src, cells[1..], k);
  }

  /** Every bin lands in exactly one of the seven state bins. */
  lemma {:induction false} CountsAddUp(s: Store, src: Sources, cells: seq<Cell>)
    ensures Count(s, src, cells, 1) + Count(s, src, cells, 2) + Count(s, src, cells, 3) + Count(s, src, cells, 4)
      + Count(s, src, cells, 5) + Count(s, src, cells, 6) + Count(s, src, cells, 7) == |cells|
    decreases |cells|
  {
    if cells != [] {
      CountsAddUp(s, src, cells[1..]);
    }
  }

  /** No bin is counted outside the seven state bins. */
  lemma {:induction false} NoCountOutsideStates(s: Store, src: Sources, cells: seq<Cell>, k: int)
    requires !(1 <= k <= 7)
    ensures Count(s, src, cells, k) == 0
    decreases |cells|
  {
    if cells != [] {
      NoCountOutsideStates(s, src, cells[1..], k);
    }
  }

  /** One loop step on separated names: the map bin is set, both
      distributions are filled, and the inputs are left as they were. */
  lemma StepEffect(s: Store, src: Sources, snk: Sinks, c: Cell)
    requires Separated(src, snk)
    ensures var r, k := Step(s, src, snk, c), Ordinal(StateAt(s, src, c));
      && SameSources(s, r, src)
      && (snk.qualityMap in s ==> r[snk.qualityMap] == SetBinContent(s[snk.qualityMap], c, k as real))
      && (snk.distribution in s ==> r[snk.distribution] == FillBin(s[snk.distribution], k))
      && (snk.summary in s ==> r[snk.summary] == FillBin(s[snk.summary], k))
  {
  }

  /** The inputs never change during a sweep, so every bin's state is the
      one computed from the store the sweep started from. */
  lemma StateUnchanged(s: Store, t: Store, src: Sources, c: Cell)
    requires SameSources(s, t, src)
    ensures StateAt(s, src, c) == StateAt(t, src, c)
  {
    assert CellInputs(s, src, c) == CellInputs(t, src, c);
  }

  /** The sweep's effect on the quality map: each visited bin holds the
      ordinal of its state and no other bin moves. */
  lemma {:induction false} SweepWritesMap(s: Store, src: Sources, snk: Sinks, cells: seq<Cell>)
    requires Separated(src, snk)
    requires snk.qualityMap in s
    ensures forall c ::
      Get(Sweep(s, src, snk, cells)[snk.qualityMap], c) == (if c in cells then Ordinal(StateAt(s, src, c)) as real else Get(s[snk.qualityMap], c))
    decreases |cells|
  {
    if cells != [] {
      var s' := Step(s, src, snk, cells[0]);
      StepEffect(s, src, snk, cells[0]);
      SweepWritesMap(s', src, snk, cells[1..]);
      forall c: Cell {
        StateUnchanged(s, s', src, c);
      }
      assert forall c :: c in cells <==> c == cells[0] || c in cells[1..];
    }
  }

  /** The sweep's effect on either distribution: bin k gains the number of
      visited bins in state k. */
  lemma {:induction false} SweepFillsDistribution(s: Store, src: Sources, snk: Sinks, cells: seq<Cell>, n: string)
    requires Separated(src, snk)
    requires n == snk.distribution || n == snk.summary
    requires n in s
    ensures forall c ::
      Get(Sweep(s, src, snk, cells)[n], c) == Get(s[n], c) + (if c.y == 0 then Count(s, src, cells, c.x) else 0) as real
    decreases |cells|
  {
    if cells != [] {
      var s' := Step(s, src, snk, cells[0]);
      StepEffect(s, src, snk, cells[0]);
      SweepFillsDistribution(s', src, snk, cells[1..], n);
      var k := Ordinal(StateAt(s, src, cells[0]));
      assert s'[n] == FillBin(s[n], k);
      var r := Sweep(s, src, snk, cells);
      assert r == Sweep(s', src, snk, cells[1..]);
      forall c: Cell
        ensures Get(r[n], c) == Get(s[n], c) + (if c.y == 0 then Count(s, src, cells, c.x) else 0) as real
      {
        CountStep(s, s', src, cells, c.x);
        assert Get(s'[n], c) == Get(s[n], c) + (if c == Bin(k) then 1.0 else 0.0);
      }
    }
  }

  /** The entries of either distribution grow by one per visited bin. */
  lemma {:induction false} SweepAddsEntries(s: Store, src: Sources, snk: Sinks, cells: seq<Cell>, n: string)
    requires Separated(src, snk)
    requires n == snk.distribution || n == snk.summary
    requires n in s
    ensures Sweep(s, src, snk, cells)[n].entries == s[n].entries + |cells| as real
    decreases |cells|
  {
    if cells != [] {
      var s' := Step(s, src, snk, cells[0]);
      StepEffect(s, src, snk, cells[0]);
      SweepAddsEntries(s', src, snk, cells[1..], n);
    }
  }

  // ---------------------------------------------------------------------
  // performeClientOperation

  /** The input maps of a unit, from its folder and suffix. */
  function SourcesFor(folder: string, suffix: string): Sources {
    Sources(
      FullName(folder, InputName(HVStatus, suffix)),
      FullName(folder, InputName(LVStatus, suffix)),
      FullName(folder, InputName(DeadChannelFraction, suffix)),
      FullName(folder, InputName(ClusterSizeIn1Bin, suffix)),
      FullName(folder, InputName(NoisyStrips, suffix)),
      FullName(folder, InputName(DigiMean, suffix)),
      FullName(folder, InputName(AsymmetryLeftRight, suffix)))
  }

  /** performeClientOperation(suffix, region, quality): reset the unit's
      distribution, then sweep the unit's bins. Throws (substr past the end)
      when the suffix has no '_'. */
  function ClientOperation(folder: string, s: Store, suffix: string, region: int, summary: string): (r: Result<Store>)
    ensures r.Failure? <==> '_' !in suffix
    ensures r.Success? ==> r.value.Keys == s.Keys
  {
    var qualityMap := FullName(folder, "RPCChamberQuality_" + suffix);
    var tag :- DistributionSuffix(suffix);
    var distribution := FullName(folder, "RPCChamberQuality_Distribution" + tag);
    var s1 := ResetIn(s, distribution);
    Success(Sweep(s1, SourcesFor(folder, suffix), Sinks(qualityMap, distribution, summary), Grid(region)))
  }

  /** The `region` argument fillMonitorElements passes for a unit. */
  function RegionCode(u: Unit): int {
    match u
    case Wheel(_) => 0
    case Disk(d) => if d < 0 then -1 else 1
  }

  /** The full names a real unit's sweep reads and writes. */
  function UnitSinks(folder: string, u: Unit): Sinks {
    Sinks(
      FullName(folder, OutputName(QualityMap(u))),
      FullName(folder, OutputName(Distribution(u))),
      FullName(folder, OutputName(Summary(RegionOf(u)))))
  }

  lemma UnitNamesSeparated(folder: string, u: Unit)
    ensures Separated(SourcesFor(folder, UnitSuffix(u)), UnitSinks(folder, u))
  {
    var sfx := UnitSuffix(u);
    forall k: Input, o: Output
      ensures FullName(folder, InputName(k, sfx)) != FullName(folder, OutputName(o))
    {
      InputIsNotOutput(k, u, o);
      if FullName(folder, InputName(k, sfx)) == FullName(folder, OutputName(o)) {
        FullNameInjective(folder, InputName(k, sfx), OutputName(o));
      }
    }
    forall o: Output, o': Output | o != o'
      ensures FullName(folder, OutputName(o)) != FullName(folder, OutputName(o'))
    {
      if FullName(folder, OutputName(o)) == FullName(folder, OutputName(o')) {
        FullNameInjective(folder, OutputName(o), OutputName(o'));
        OutputNameInjective(o, o');
      }
    }
    assert FullName(folder, OutputName(QualityMap(u))) != FullName(folder, OutputName(Distribution(u)));
    assert FullName(folder, OutputName(QualityMap(u))) != FullName(folder, OutputName(Summary(RegionOf(u))));
    assert FullName(folder, OutputName(Distribution(u))) != FullName(folder, OutputName(Summary(RegionOf(u))));
  }

  /** performeClientOperation as fillMonitorElements calls it for unit u. */
  function RunUnit(folder: string, s: Store, u: Unit): Result<Store> {
    ClientOperation(folder, s, UnitSuffix(u), RegionCode(u), UnitSinks(folder, u).summary)
  }

  /** For a real unit the operation cannot throw: it resets the unit's
      distribution and sweeps the unit's grid over the booked names. */
  lemma RunUnitIsSweep(folder: string, s: Store, u: Unit)
    ensures var snk := UnitSinks(folder, u);
      RunUnit(folder, s, u) == Success(Sweep(ResetIn(s, snk.distribution), SourcesFor(folder, UnitSuffix(u)), snk, Grid(RegionCode(u))))
  {
    var sfx := UnitSuffix(u);
    LookupNamesMatchBooking(u);
    assert FullName(folder, "RPCChamberQuality_" + sfx) == UnitSinks(folder, u).qualityMap;
    assert FullName(folder, "RPCChamberQuality_Distribution" + UnitTag(u)) == UnitSinks(folder, u).distribution;
  }

  /** One pass (reset the distribution, then sweep) on separated names:
      the quality map holds the state of every swept bin, computed from the
      inputs as they were before the pass, and is untouched elsewhere. */
  lemma PassWritesMap(s: Store, src: Sources, snk: Sinks, cells: seq<Cell>)
    requires Separated(src, snk)
    requires snk.qualityMap in s
    ensures forall c ::
      Get(Sweep(ResetIn(s, snk.distribution), src, snk, cells)[snk.qualityMap], c)
      == (if c in cells then Ordinal(StateAt(s, src, c)) as real else Get(s[snk.qualityMap], c))
  {
    var s1 := ResetIn(s, snk.distribution);
    assert SameSources(s, s1, src);
    SweepWritesMap(s1, src, snk, cells);
    forall c: Cell {
      StateUnchanged(s, s1, src, c);
    }
  }

  /** One pass on separated names: the distribution ends holding exactly
      the state counts of the swept bins, one entry per bin. */
  lemma PassFillsDistribution(s: Store, src: Sources, snk: Sinks, cells: seq<Cell>)
    requires Separated(src, snk)
    requires snk.distribution in s
    ensures var r := Sweep(ResetIn(s, snk.distribution), src, snk, cells)[snk.distribution];
      && (forall c :: Get(r, c) == (if c.y == 0 then Count(s, src, cells, c.x) else 0) as real)
      && r.entries == |cells| as real
  {
    var s1 := ResetIn(s, snk.distribution);
    assert SameSources(s, s1, src);
    SweepFillsDistribution(s1, src, snk, cells, snk.distribution);
    SweepAddsEntries(s1, src, snk, cells, snk.distribution);
    forall c: Cell
      ensures Count(s1, src, cells, c.x) == Count(s, src, cells, c.x)
    {
      CountFrame(s, s1, src, cells, c.x);
    }
  }

  /** One pass on separated names: the region summary gains the same state
      counts and one entry per swept bin. */
  lemma PassFillsSummary(s: Store, src: Sources, snk: Sinks, cells: seq<Cell>)
    requires Separated(src, snk)
    requires snk.summary in s
    ensures var r := Sweep(ResetIn(s, snk.distribution), src, snk, cells)[snk.summary];
      && (forall c :: Get(r, c) == Get(s[snk.summary], c) + (if c.y == 0 then Count(s, src, cells, c.x) else 0) as real)
      && r.entries == s[snk.summary].entries + |cells| as real
  {
    var s1 := ResetIn(s, snk.distribution);
    assert SameSources(s, s1, src);
    assert s1[snk.summary] == s[snk.summary];
    SweepFillsDistribution(s1, src, snk, cells, snk.summary);
    SweepAddsEntries(s1, src, snk, cells, snk.summary);
    forall c: Cell
      ensures Count(s1, src, cells, c.x) == Count(s, src, cells, c.x)
    {
      CountFrame(s, s1, src, cells, c.x);
    }
  }

  /** For a unit: the map holds every swept bin's state. */
  lemma UnitWritesMap(folder: string, s: Store, u: Unit)
    requires UnitSinks(folder, u).qualityMap in s
    ensures RunUnit(folder, s, u).Success?
    ensures var r, qm, src := RunUnit(folder, s, u).value, UnitSinks(folder, u).qualityMap, SourcesFor(folder, UnitSuffix(u));
      forall c ::
        Get(r[qm], c) == (if InSweep(RegionCode(u), c) then Ordinal(StateAt(s, src, c)) as real else Get(s[qm], c))
  {
    var snk, src, grid := UnitSinks(folder, u), SourcesFor(folder, UnitSuffix(u)), Grid(RegionCode(u));
    RunUnitIsSweep(folder, s, u);
    UnitNamesSeparated(folder, u);
    PassWritesMap(s, src, snk, grid);
    GridCells(RegionCode(u));
  }

  /** For a unit: the distribution holds the state counts of its 204 (wheel)
      or 216 (disk) bins. */
  lemma UnitFillsDistribution(folder: string, s: Store, u: Unit)
    requires UnitSinks(folder, u).distribution in s
    ensures RunUnit(folder, s, u).Success?
    ensures var r, d, src := RunUnit(folder, s, u).value, UnitSinks(folder, u).distribution, SourcesFor(folder, UnitSuffix(u));
      && (forall c :: Get(r[d], c) == (if c.y == 0 then Count(s, src, Grid(RegionCode(u)), c.x) else 0) as real)
      && r[d].entries == if u.Wheel? then 204.0 else 216.0
  {
    var snk, src, grid := UnitSinks(folder, u), SourcesFor(folder, UnitSuffix(u)), Grid(RegionCode(u));
    RunUnitIsSweep(folder, s, u);
    UnitNamesSeparated(folder, u);
    PassFillsDistribution(s, src, snk, grid);
    GridSize(RegionCode(u));
  }

  /** For a unit: the region summary gains the unit's state counts. */
  lemma UnitFillsSummary(folder: string, s: Store, u: Unit)
    requires UnitSinks(folder, u).summary in s
    ensures RunUnit(folder, s, u).Success?
    ensures var r, q, src := RunUnit(folder, s, u).value, UnitSinks(folder, u).summary, SourcesFor(folder, UnitSuffix(u));
      forall c :: Get(r[q], c) == Get(s[q], c) + (if c.y == 0 then Count(s, src, Grid(RegionCode(u)), c.x) else 0) as real
  {
    var snk, src, grid := UnitSinks(folder, u), SourcesFor(folder, UnitSuffix(u)), Grid(RegionCode(u));
    RunUnitIsSweep(folder, s, u);
    UnitNamesSeparated(folder, u);
    PassFillsSummary(s, src, snk, grid);
    var t := Sweep(ResetIn(s, snk.distribution), src, snk, grid);
    assert RunUnit(folder, s, u).value == t;
    forall c
      ensures Get(t[snk.summary], c) == Get(s[snk.summary], c) + (if c.y == 0 then Count(s, src, grid, c.x) else 0) as real
    {
    }
  }

  /** For a unit: the region summary gains one entry per swept bin, 204 for
      a wheel and 216 for a disk. */
  lemma UnitSummaryEntries(folder: string, s: Store, u: Unit)
    requires UnitSinks(folder, u).summary in s
    ensures RunUnit(folder, s, u).Success?
    ensures var r, q := RunUnit(folder, s, u).value, UnitSinks(folder, u).summary;
      r[q].entries == s[q].entries + if u.Wheel? then 204.0 else 216.0
  {
    var snk, src, grid := UnitSinks(folder, u), SourcesFor(folder, UnitSuffix(u)), Grid(RegionCode(u));
    RunUnitIsSweep(folder, s, u);
    UnitNamesSeparated(folder, u);
    PassFillsSummary(s, src, snk, grid);
    GridSize(RegionCode(u));
  }

  /** Everything but the unit's three outputs is left alone. */
  lemma UnitFrame(folder: string, s: Store, u: Unit)
    ensures RunUnit(folder, s, u).Success?
    ensures var r, snk := RunUnit(folder, s, u).value, UnitSinks(folder, u);
      && r.Keys == s.Keys
      && forall n :: n in s && n != snk.qualityMap && n != snk.distribution && n != snk.summary ==> r[n] == s[n]
  {
    RunUnitIsSweep(folder, s, u);
  }
}
