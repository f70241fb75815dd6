# RPC chamber quality and the tracker geometry tree, in Dafny

This project models two pieces of CMSSW in Dafny and proves properties of the models.

## RPCChamberQuality

`RPCChamberQuality` is the DQM client that rates every RPC chamber roll. It runs on the barrel wheels and the endcap disks.

- **Classifier (`ChamberQuality`).** Each bin of a wheel's or disk's roll map gets one of seven quality states from a fixed-priority decision tree. The inputs are seven monitoring values: HV, LV, dead fraction, cluster size in the first bin, noisy strips, digi multiplicity and left/right asymmetry.
- **Histogram store (`Histograms`).** This is the DQM store, cut down to what the client uses:
  - a map from full names to histograms;
  - a histogram holds bin contents, an entry count and axis labels;
  - a missing name plays the part of a null `MonitorElement*`.
- **Names (`Naming`).** These are the names the client books and the names it looks up, built by string concatenation.
  - It includes the distribution suffix taken from the last `_` of a map suffix.
  - It proves that every lookup name equals the booked name.
  - It proves that all output names are pairwise distinct and differ from every input name.
- **Sweep (`Sweep`).** This is `performeClientOperation`:
  - the geometry of the bins swept for a wheel or a disk;
  - the loop body that sets the map bin and fills the unit distribution and the region summary.
- **Client (`QualityClient`).** This covers:
  - the constructor's defaults;
  - `myBooker`;
  - the minimum-events gate;
  - `fillMonitorElements`, which sweeps every wheel and disk and then normalises the three region summaries into the system overview.
- **Lifecycle (`Lifecycle`).** These are `dqmEndLuminosityBlock` and `dqmEndJob`. They use the booked flag `init_`, the lumi counter and the prescale.
- **Refilling (`Refill`).** A second `fillMonitorElements` on the same inputs leaves every histogram showing the bins and labels the first one left, and nothing the fill writes is an input or the RPCEvents counter. The summaries, distributions and overview are reset before they are filled, so their entry counts repeat too. The quality maps are never reset, so each fill adds one entry per swept bin to them, as ROOT counts every `setBinContent` as an entry.

## GeometricDet

`GeometricDet` is a node of the tracker geometry tree (`GeometricDet` module). The model covers:

- the first-match lookup of specifics values, with the "NotFound" and 0 defaults and the "I need 1 … tags" error;
- the stereo, lower-sensor and upper-sensor flags;
- the constructor from the persistent record, with its navigation path and shape parameters;
- `deepComponents`;
- `addComponents` and `addComponent`;
- `deleteComponents`.

## Modelling choices

- **Barrel vs endcap geometry.** The barrel is swept with region code 0: columns 1..12, with row limits 21 at column 4, 15 at columns 9 and 11, and 17 elsewhere. That gives 204 bins per wheel. An endcap disk is 36 × 6 = 216 bins. The model follows the code, where `region != 0` selects the 36-column layout and the barrel passes 0.
- **State numbering.** States are numbered 1..7 in the order of the x-axis labels.
- **Casts.** The `(int)` casts of HV, LV and the RPCEvents count are truncation toward zero (`TruncateToInt`).
- **Current store.** The sweep reads its inputs from the current store, as live pointers would. The name lemmas show that the client's outputs never alias its inputs.
- **Overview must exist.** `RpcOverview->Reset()` runs before the overview pointer is checked for null. So when the event gate is open, `fillMonitorElements` requires the overview to exist.
- **Missing substring.** `substr` with a missing `_` would throw `std::out_of_range`. `Sweep.ClientOperation` returns a `Failure` in that case. The suffixes the client actually uses always contain `_`.
- **Prescale.** A prescale of 0 online would be a modulo by zero. This is a precondition, and it applies only in online mode.
- **Injected callbacks.** `atof` is a parameter of `GetDouble`. The specifics records are a sequence of maps from key to strings, one map per record that the view returns, in order.

## Model

| member | source | states |
|---|---|---|
| ChamberQuality.Ordinal | DQM/RPCMonitorClient/plugins/RPCChamberQuality.cc:10-11 | every state is written as a value in 1..7 |
| ChamberQuality.FromOrdinal | DQM/RPCMonitorClient/plugins/RPCChamberQuality.cc:10-11 | a value names a state exactly when it lies in 1..7 |
| ChamberQuality.OrdinalRoundTrip | DQM/RPCMonitorClient/plugins/RPCChamberQuality.cc:10-11 | writing a state as its value and reading it back gives the state; the only value that reads back as s is Ordinal(s) |
| ChamberQuality.Label | DQM/RPCMonitorClient/plugins/RPCChamberQuality.cc:10-11 | each state's axis label, one by one: Good "Good", Off "OFF", NoisyStrip "Nois.St", NoisyRoll "Nois.Ch", PartiallyDead "Part.Dead", Dead "Dead", BadShape "Bad.Shape", the xLabels_ entry at the state's ordinal |
| ChamberQuality.LabelsDistinct | DQM/RPCMonitorClient/plugins/RPCChamberQuality.cc:10-11 | different states have different labels |
| ChamberQuality.TruncateToInt | DQM/RPCMonitorClient/plugins/RPCChamberQuality.cc:242-244 | the cast rounds toward zero: the result is the integer part of the value for both signs |
| ChamberQuality.NominalAfterCast | DQM/RPCMonitorClient/plugins/RPCChamberQuality.cc:242-246 | an HV or LV bin counts as nominal exactly when its content lies in [1, 2) |
| ChamberQuality.Classify | DQM/RPCMonitorClient/plugins/RPCChamberQuality.cc:232-282 | for each of the seven states, the exact input region that yields it: Off iff HV or LV is not 1; Dead iff dead >= 0.80; PartiallyDead iff 0.33 <= dead < 0.80; NoisyStrip iff firstbin >= 0.88 or noisy strips > 0; NoisyRoll iff mult >= 6; BadShape iff asymmetry > 0.35; Good otherwise, each under the failure of all earlier checks |
| ChamberQuality.FirstMatchPicksFirstFiring | DQM/RPCMonitorClient/plugins/RPCChamberQuality.cc:246-282 | in a priority list of checks, the first check that fires decides the state |
| ChamberQuality.FirstMatchNoneFiring | DQM/RPCMonitorClient/plugins/RPCChamberQuality.cc:275-277 | when no check fires the state is Good |
| ChamberQuality.ClassifyIsFirstMatch | DQM/RPCMonitorClient/plugins/RPCChamberQuality.cc:246-282 | the nested decision tree equals the first-match over the checks in the order power, dead, partly dead, first bin, noisy strips, multiplicity, asymmetry |
| ChamberQuality.OffOverridesEverything | DQM/RPCMonitorClient/plugins/RPCChamberQuality.cc:246-247 | with HV or LV off the state is Off whatever the five other inputs are |
| ChamberQuality.DeadnessOverridesLaterChecks | DQM/RPCMonitorClient/plugins/RPCChamberQuality.cc:249-254 | with power nominal and dead >= 0.33, cluster size, noisy strips, multiplicity and asymmetry do not change the state |
| ChamberQuality.NeutralIsGood | DQM/RPCMonitorClient/plugins/RPCChamberQuality.cc:232-239 | the default inputs (hv = lv = 1, the rest 0) classify as Good |
| ChamberQuality.ClassifyExamples | DQM/RPCMonitorClient/plugins/RPCChamberQuality.cc:246-277 | one concrete input per branch lands in that branch's state |
| Histograms.Booked | DQM/RPCMonitorClient/plugins/RPCChamberQuality.cc:83-87 | a freshly booked histogram has every bin 0 and no entries |
| Histograms.SetBinContent | DQM/RPCMonitorClient/plugins/RPCChamberQuality.cc:283-284 | the bin gets the value, every other bin and the labels are unchanged, and the entry count grows by one as ROOT's SetBinContent counts it |
| Histograms.FillBin | DQM/RPCMonitorClient/plugins/RPCChamberQuality.cc:285-288 | the filled bin grows by 1, so do the entries, nothing else changes |
| Histograms.ResetHisto | DQM/RPCMonitorClient/plugins/RPCChamberQuality.cc:144-145 | after Reset every bin is 0 and there are no entries; labels stay |
| Histograms.SetIn | DQM/RPCMonitorClient/plugins/RPCChamberQuality.cc:283-284 | setBinContent through a possibly null pointer: only the named histogram changes, and only if it exists |
| Histograms.FillIn | DQM/RPCMonitorClient/plugins/RPCChamberQuality.cc:285-288 | Fill through a possibly null pointer: only the named histogram changes, and only if it exists |
| Histograms.ResetIn | DQM/RPCMonitorClient/plugins/RPCChamberQuality.cc:195-196 | Reset through a possibly null pointer: only the named histogram changes, and only if it exists |
| Histograms.ResetIsConsistent | DQM/RPCMonitorClient/plugins/RPCChamberQuality.cc:144-145 | a reset distribution's entries equal the sum of its seven bins |
| Histograms.FillKeepsConsistent | DQM/RPCMonitorClient/plugins/RPCChamberQuality.cc:285-288 | filling a value in 1..7 keeps entries equal to the sum of the seven bins |
| Naming.NatToStringRoundTrip | DQM/RPCMonitorClient/plugins/RPCChamberQuality.cc:102 | the decimal rendering of a natural number is a non-empty digit string that parses back to the number |
| Naming.IntToStringRoundTrip | DQM/RPCMonitorClient/plugins/RPCChamberQuality.cc:116 | the "{}" rendering of an integer (with '-' for negatives) parses back to the integer |
| Naming.IntToStringInjective | DQM/RPCMonitorClient/plugins/RPCChamberQuality.cc:116 | different wheel or disk numbers give different renderings |
| Naming.IntToStringHasNoSeparators | DQM/RPCMonitorClient/plugins/RPCChamberQuality.cc:193 | a rendered number contains no '_' and no '/' |
| Naming.LastIndexOf | DQM/RPCMonitorClient/plugins/RPCChamberQuality.cc:193 | find_last_of: the position holds the character and none after it does; no position means the character is absent |
| Naming.DistributionSuffix | DQM/RPCMonitorClient/plugins/RPCChamberQuality.cc:193-194 | substr(find_last_of('_')) fails exactly when there is no '_', else it is the tail of the suffix starting at its last '_' |
| Naming.FullNameInjective | DQM/RPCMonitorClient/plugins/RPCChamberQuality.cc:190 | within one folder, different names give different full names |
| Naming.LookupNamesMatchBooking | DQM/RPCMonitorClient/plugins/RPCChamberQuality.cc:190-194 | for every wheel and disk, the quality map and distribution names the sweep looks up are the names myBooker booked |
| Naming.MapLookupWheel | DQM/RPCMonitorClient/plugins/RPCChamberQuality.cc:150 | "RPCChamberQuality_" + "Roll_vs_Sector_Wheel{w}" is the booked wheel map name |
| Naming.MapLookupDisk | DQM/RPCMonitorClient/plugins/RPCChamberQuality.cc:160 | "RPCChamberQuality_" + "Ring_vs_Segment_Disk{d}" is the booked disk map name |
| Naming.DistributionLookupWheel | DQM/RPCMonitorClient/plugins/RPCChamberQuality.cc:105 | "RPCChamberQuality_Distribution" + "_Wheel{w}" is the booked wheel distribution name |
| Naming.DistributionLookupDisk | DQM/RPCMonitorClient/plugins/RPCChamberQuality.cc:119 | "RPCChamberQuality_Distribution" + "_Disk{d}" is the booked disk distribution name |
| Naming.DistributionSuffixWheel | DQM/RPCMonitorClient/plugins/RPCChamberQuality.cc:193-194 | the suffix cut from a wheel map suffix is "_Wheel{w}", e.g. "_Wheel-2" |
| Naming.DistributionSuffixDisk | DQM/RPCMonitorClient/plugins/RPCChamberQuality.cc:193-194 | the suffix cut from a disk map suffix is "_Disk{d}", e.g. "_Disk3" |
| Naming.LastSeparator | DQM/RPCMonitorClient/plugins/RPCChamberQuality.cc:193-194 | when the last part holds no '_', the cut keeps exactly "_" + kind + number |
| Naming.OutputNameInjective | DQM/RPCMonitorClient/plugins/RPCChamberQuality.cc:76-125 | no two different booked outputs (maps, distributions, summaries, overview) share a name |
| Naming.SameUnitKindSameNumber | DQM/RPCMonitorClient/plugins/RPCChamberQuality.cc:100-125 | two wheel (or two disk) histograms of the same family with the same name belong to the same unit |
| Naming.InputIsNotOutput | DQM/RPCMonitorClient/plugins/RPCChamberQuality.cc:190-211 | no input map name (HVStatus_, LVStatus_, DeadChannelFraction_, ...) is ever an output name |
| Sweep.ColumnCells | DQM/RPCMonitorClient/plugins/RPCChamberQuality.cc:221-231 | one column's bins are exactly rows 1 .. yBinMax-1 of that column, in increasing order |
| Sweep.ColumnsCells | DQM/RPCMonitorClient/plugins/RPCChamberQuality.cc:220-231 | the columns from x on visit exactly the swept bins with column >= x, in loop order |
| Sweep.GridCells | DQM/RPCMonitorClient/plugins/RPCChamberQuality.cc:213-231 | the loop visits exactly the bins of the sweep geometry, each once |
| Sweep.BarrelColumnsSize | DQM/RPCMonitorClient/plugins/RPCChamberQuality.cc:218-229 | the barrel columns from x on hold the sum of their row counts |
| Sweep.EndcapColumnsSize | DQM/RPCMonitorClient/plugins/RPCChamberQuality.cc:215-222 | the endcap columns from x on hold 6 bins each |
| Sweep.GridSize | DQM/RPCMonitorClient/plugins/RPCChamberQuality.cc:213-231 | a wheel sweep covers 204 bins and a disk sweep 216 |
| Sweep.Read | DQM/RPCMonitorClient/plugins/RPCChamberQuality.cc:249-272 | a missing input map reads as its default |
| Sweep.CellInputs | DQM/RPCMonitorClient/plugins/RPCChamberQuality.cc:232-272 | each of the seven inputs is read from its own map when that map exists: HV and LV as the truncated bin content, dead fraction, first-bin cluster size, noisy strips, multiplicity and asymmetry as the bin content; a missing map gives 1 for HV and LV and 0 for the five others |
| Sweep.AbsentInputsAreGood | DQM/RPCMonitorClient/plugins/RPCChamberQuality.cc:232-245 | with no input map booked every bin reads neutral inputs and is Good |
| Sweep.CountsAddUp | DQM/RPCMonitorClient/plugins/RPCChamberQuality.cc:283-288 | the seven state counts of a run of bins add up to the number of bins |
| Sweep.NoCountOutsideStates | DQM/RPCMonitorClient/plugins/RPCChamberQuality.cc:285-288 | no bin is filled at a value outside 1..7 |
| Sweep.StepEffect | DQM/RPCMonitorClient/plugins/RPCChamberQuality.cc:283-288 | one loop step sets the map bin to the state and fills the distribution and the summary at the state, leaving the inputs alone |
| Sweep.Sweep | DQM/RPCMonitorClient/plugins/RPCChamberQuality.cc:220-290 | the loop touches only its three outputs and keeps every distribution other than the map consistent |
| Sweep.SweepWritesMap | DQM/RPCMonitorClient/plugins/RPCChamberQuality.cc:283-284 | after the loop each swept bin of the map holds its state's value, computed from the inputs as they were before; other bins are untouched |
| Sweep.SweepFillsDistribution | DQM/RPCMonitorClient/plugins/RPCChamberQuality.cc:285-288 | after the loop bin k of the distribution and of the summary has grown by the number of swept bins in state k |
| Sweep.SweepAddsEntries | DQM/RPCMonitorClient/plugins/RPCChamberQuality.cc:285-288 | the distribution and the summary gain one entry per swept bin |
| Sweep.ClientOperation | DQM/RPCMonitorClient/plugins/RPCChamberQuality.cc:186-292 | performeClientOperation throws exactly when the suffix has no '_', else it keeps the set of booked names |
| Sweep.UnitNamesSeparated | DQM/RPCMonitorClient/plugins/RPCChamberQuality.cc:190-211 | for a wheel or disk, the three outputs are different histograms and no input is an output |
| Sweep.RunUnitIsSweep | DQM/RPCMonitorClient/plugins/RPCChamberQuality.cc:186-292 | a wheel's or disk's operation never throws; it resets the distribution and runs the loop over the unit's geometry |
| Sweep.PassWritesMap | DQM/RPCMonitorClient/plugins/RPCChamberQuality.cc:195-284 | resetting the distribution first does not change what the loop writes into the map |
| Sweep.PassFillsDistribution | DQM/RPCMonitorClient/plugins/RPCChamberQuality.cc:195-286 | after reset and loop the distribution holds exactly the state counts and as many entries as swept bins |
| Sweep.PassFillsSummary | DQM/RPCMonitorClient/plugins/RPCChamberQuality.cc:195-288 | after reset and loop the summary has grown by the state counts and by one entry per bin |
| Sweep.UnitWritesMap | DQM/RPCMonitorClient/plugins/RPCChamberQuality.cc:213-284 | a unit's map holds each swept bin's state and is untouched outside the sweep geometry |
| Sweep.UnitFillsDistribution | DQM/RPCMonitorClient/plugins/RPCChamberQuality.cc:195-286 | a unit's distribution holds its state counts with 204 entries for a wheel and 216 for a disk |
| Sweep.UnitFillsSummary | DQM/RPCMonitorClient/plugins/RPCChamberQuality.cc:287-288 | the region summary grows by the unit's state counts |
| Sweep.UnitSummaryEntries | DQM/RPCMonitorClient/plugins/RPCChamberQuality.cc:213-288 | the region summary gains 204 entries from a wheel and 216 from a disk |
| Sweep.UnitFrame | DQM/RPCMonitorClient/plugins/RPCChamberQuality.cc:186-292 | a unit's operation changes only its map, its distribution and its region summary |
| QualityClient.Configure | DQM/RPCMonitorClient/plugins/RPCChamberQuality.cc:14-35 | the two folders are "RPCFolder/RecHitTypeFolder" and that plus "/SummaryFolder", each part defaulted when unset |
| QualityClient.DefaultConfiguration | DQM/RPCMonitorClient/plugins/RPCChamberQuality.cc:17-31 | the defaults: prescale 5, RPC/AllHits/SummaryHistograms, enabled, 10000 events, 4 disks, no roll info, offline |
| QualityClient.OutNameInjective | DQM/RPCMonitorClient/plugins/RPCChamberQuality.cc:79-125 | different outputs have different full names in the summary folder |
| QualityClient.UnitSinksAreOutputs | DQM/RPCMonitorClient/plugins/RPCChamberQuality.cc:152-165 | a unit writes to its booked map, its booked distribution and its region's summary (barrel summary for wheels, endcap summaries by disk sign) |
| QualityClient.DiskRangeLists | DQM/RPCMonitorClient/plugins/RPCChamberQuality.cc:156-158 | the disk loop visits exactly the disks -N..N except 0, in increasing order |
| QualityClient.DiskRangeSize | DQM/RPCMonitorClient/plugins/RPCChamberQuality.cc:113-115 | the disk loop has 2N iterations for N > 0 and none otherwise |
| QualityClient.UnitsVisitedOnce | DQM/RPCMonitorClient/plugins/RPCChamberQuality.cc:149-166 | the fill visits exactly wheels -2..2 and disks -N..N except 0, each once |
| QualityClient.StateLabelsMatch | DQM/RPCMonitorClient/plugins/RPCChamberQuality.cc:85-87 | bin k of a booked distribution is labelled with the label of the state written as k |
| QualityClient.Template | DQM/RPCMonitorClient/plugins/RPCChamberQuality.cc:83-124 | every histogram myBooker books starts empty |
| QualityClient.UnitOutputs | DQM/RPCMonitorClient/plugins/RPCChamberQuality.cc:100-125 | two histograms per wheel or disk, exactly the maps and distributions of the listed units |
| QualityClient.UnitOutputsDistinct | DQM/RPCMonitorClient/plugins/RPCChamberQuality.cc:100-125 | distinct units book distinct histograms |
| QualityClient.BookAll | DQM/RPCMonitorClient/plugins/RPCChamberQuality.cc:76-126 | booking never removes a name |
| QualityClient.BookAllKeys | DQM/RPCMonitorClient/plugins/RPCChamberQuality.cc:76-126 | every booked output exists afterwards |
| QualityClient.BookAllWrites | DQM/RPCMonitorClient/plugins/RPCChamberQuality.cc:76-126 | every booked output holds its fresh template afterwards |
| QualityClient.BookAllFrame | DQM/RPCMonitorClient/plugins/RPCChamberQuality.cc:76-126 | names that are not booked outputs keep their histograms |
| QualityClient.Book | DQM/RPCMonitorClient/plugins/RPCChamberQuality.cc:76-126 | after myBooker the overview and the three region summaries exist |
| QualityClient.BookingCreates | DQM/RPCMonitorClient/plugins/RPCChamberQuality.cc:76-126 | myBooker books 14 + 4N histograms under pairwise different names, all empty, and leaves every other name alone |
| QualityClient.BookingProvidesFillNames | DQM/RPCMonitorClient/plugins/RPCChamberQuality.cc:138-194 | after booking, every histogram the fill and the per-unit operations write exists |
| QualityClient.GateCases | DQM/RPCMonitorClient/plugins/RPCChamberQuality.cc:129-135 | a missing RPCEvents lets the fill through; a present non-negative count lets it through iff it reaches the minimum |
| QualityClient.RunUnits | DQM/RPCMonitorClient/plugins/RPCChamberQuality.cc:148-166 | the wheel and disk operations in sequence keep the set of names |
| QualityClient.WriteRow | DQM/RPCMonitorClient/plugins/RPCChamberQuality.cc:178-180 | bins x..7 of row y get summary bin over entries; every other overview bin is unchanged; the overview gains one entry per bin written |
| QualityClient.FillMonitorElements | DQM/RPCMonitorClient/plugins/RPCChamberQuality.cc:128-184 | the fill keeps the set of names and changes nothing when the event gate is closed; with the gate open it needs the overview |
| QualityClient.AfterSweeps | DQM/RPCMonitorClient/plugins/RPCChamberQuality.cc:138-166 | resetting the summaries and sweeping every unit keeps the set of names |
| QualityClient.NormalizeEffect | DQM/RPCMonitorClient/plugins/RPCChamberQuality.cc:171-181 | one region's normalisation writes only its own row (r+1) and only when its summary exists with entries |
| QualityClient.NormalizeEntries | DQM/RPCMonitorClient/plugins/RPCChamberQuality.cc:171-181 | a written row adds seven entries to the overview, a skipped row none |
| QualityClient.RowRegionInverts | DQM/RPCMonitorClient/plugins/RPCChamberQuality.cc:92-94 | overview row r+1 belongs to region r |
| QualityClient.NormalizeAllEffect | DQM/RPCMonitorClient/plugins/RPCChamberQuality.cc:168-181 | from a reset overview, every overview bin becomes its region's fraction (or 0) and nothing else changes |
| QualityClient.FillOverview | DQM/RPCMonitorClient/plugins/RPCChamberQuality.cc:168-181 | after a fill every overview bin holds its region's fraction, 0 for rows without a summary with entries |
| QualityClient.SummariesAreNotOverview | DQM/RPCMonitorClient/plugins/RPCChamberQuality.cc:141-168 | no region summary is the overview |
| QualityClient.TallyConcat | DQM/RPCMonitorClient/plugins/RPCChamberQuality.cc:148-166 | bins swept by two runs of units add up |
| QualityClient.DiskTally | DQM/RPCMonitorClient/plugins/RPCChamberQuality.cc:156-166 | the disk loop sweeps 216 bins into a region for each disk on its side |
| QualityClient.SideShare | DQM/RPCMonitorClient/plugins/RPCChamberQuality.cc:156-166 | disks -N..N sweep 216N bins into each endcap and none into the barrel |
| QualityClient.DisksPerSide | DQM/RPCMonitorClient/plugins/RPCChamberQuality.cc:156-158 | N disks on each side for N > 0, none otherwise |
| QualityClient.WheelTally | DQM/RPCMonitorClient/plugins/RPCChamberQuality.cc:149-153 | each wheel sweeps 204 bins into the barrel and none elsewhere |
| QualityClient.WheelsTally | DQM/RPCMonitorClient/plugins/RPCChamberQuality.cc:149-153 | the five wheels sweep 1020 bins into the barrel |
| QualityClient.UnitsTally | DQM/RPCMonitorClient/plugins/RPCChamberQuality.cc:148-166 | all units' bins split into the wheels' 1020 barrel bins plus the disks' share |
| QualityClient.RegionTally | DQM/RPCMonitorClient/plugins/RPCChamberQuality.cc:148-166 | one fill sweeps 1020 bins into the barrel and 216N into each endcap |
| QualityClient.RunUnitKeepsConsistent | DQM/RPCMonitorClient/plugins/RPCChamberQuality.cc:195-288 | a unit's operation keeps every consistent distribution consistent |
| QualityClient.RunUnitSummary | DQM/RPCMonitorClient/plugins/RPCChamberQuality.cc:152-165 | a unit adds its bin count to its own region summary's entries and nothing to the others' |
| QualityClient.RunUnitsSummary | DQM/RPCMonitorClient/plugins/RPCChamberQuality.cc:148-166 | a run of units adds their bins in region r to summary r's entries and keeps it consistent |
| QualityClient.RegionCountFrame | DQM/RPCMonitorClient/plugins/RPCChamberQuality.cc:220-288 | stores that agree on every unit's inputs give every region the same state counts |
| QualityClient.RunUnitKeepsAllSources | DQM/RPCMonitorClient/plugins/RPCChamberQuality.cc:195-288 | one unit's pass leaves the inputs of every unit as they were |
| QualityClient.RunUnitKeepsRegionCount | DQM/RPCMonitorClient/plugins/RPCChamberQuality.cc:195-288 | so one pass leaves every region's state counts as they were |
| QualityClient.RunUnitSummaryBins | DQM/RPCMonitorClient/plugins/RPCChamberQuality.cc:285-288 | one pass adds its own state counts to bin k of its region's summary and leaves other regions' summaries alone |
| QualityClient.RunUnitsSummaryBins | DQM/RPCMonitorClient/plugins/RPCChamberQuality.cc:148-166 | over a run of passes, bin k of region r's summary gains the number of r's swept bins in state k, counted on the inputs before the run; no other bin moves |
| QualityClient.ResetSummariesKeepSources | DQM/RPCMonitorClient/plugins/RPCChamberQuality.cc:140-146 | resetting the three summaries leaves every unit's inputs alone |
| QualityClient.SweptSummary | DQM/RPCMonitorClient/plugins/RPCChamberQuality.cc:138-166 | after the reset and the sweeps, bin k of region r's summary is the number of r's swept bins in state k, and every other bin is 0 |
| QualityClient.FillSummary | DQM/RPCMonitorClient/plugins/RPCChamberQuality.cc:138-166 | after a fill, bin k of each region summary is the number of that region's swept bins in state k, classified from the inputs before the fill; the summary is consistent, with 1020 entries for the barrel and 216N for each endcap |
| QualityClient.OverviewHoldsFractions | DQM/RPCMonitorClient/plugins/RPCChamberQuality.cc:168-181 | after a fill, overview bin (k, r + 1) is the number of region r's swept bins in state k over the region's 1020 or 216N bins when its summary exists and the region has bins, and 0 otherwise |
| QualityClient.FillOverviewAt | DQM/RPCMonitorClient/plugins/RPCChamberQuality.cc:168-181 | one overview bin after a fill is its region's fraction, or 0 |
| QualityClient.FractionAt | DQM/RPCMonitorClient/plugins/RPCChamberQuality.cc:171-180 | the fraction left in row r + 1 is bin over entries of r's summary when that summary exists with entries, otherwise 0 |
| QualityClient.RowSumsToOne | DQM/RPCMonitorClient/plugins/RPCChamberQuality.cc:171-181 | after an open fill, the overview row of a region with swept bins (the barrel, or an endcap when there are disks) sums to 1 |
| QualityClient.RowOfFractions | DQM/RPCMonitorClient/plugins/RPCChamberQuality.cc:178-179 | a row of bin-over-entries fractions of a consistent summary sums to 1 |
| QualityClient.SameSourcesIfUntouched | DQM/RPCMonitorClient/plugins/RPCChamberQuality.cc:199-211 | stores that agree on the seven input maps feed a unit the same inputs |
| QualityClient.InputIsNoOutName | DQM/RPCMonitorClient/plugins/RPCChamberQuality.cc:190-211 | no full output name is among any unit's input map names |
| QualityClient.OutputsOnlyKeepSources | DQM/RPCMonitorClient/plugins/RPCChamberQuality.cc:190-211 | a change confined to output histograms leaves every unit's inputs as they were |
| QualityClient.RunUnitsSplit | DQM/RPCMonitorClient/plugins/RPCChamberQuality.cc:148-166 | running two lists of units is running the first and then the second |
| QualityClient.RunUnitFrame | DQM/RPCMonitorClient/plugins/RPCChamberQuality.cc:186-292 | a unit's operation leaves alone every name it does not write |
| QualityClient.RunUnitsFrame | DQM/RPCMonitorClient/plugins/RPCChamberQuality.cc:148-166 | a run of units leaves alone every name none of them writes |
| QualityClient.RunUnitsKeepSources | DQM/RPCMonitorClient/plugins/RPCChamberQuality.cc:148-166 | the wheel and disk operations never change any unit's inputs |
| QualityClient.OthersDoNotWrite | DQM/RPCMonitorClient/plugins/RPCChamberQuality.cc:148-166 | other units never write a unit's map or distribution |
| QualityClient.PassThenOthers | DQM/RPCMonitorClient/plugins/RPCChamberQuality.cc:148-166 | a unit's map and distribution end as its own operation left them, whatever other units run after it |
| QualityClient.RunUnitsAround | DQM/RPCMonitorClient/plugins/RPCChamberQuality.cc:148-166 | in a run of distinct units, unit i's map and distribution are decided by its own operation, which saw the original inputs |
| QualityClient.FillKeepsSweptStore | DQM/RPCMonitorClient/plugins/RPCChamberQuality.cc:168-181 | the overview handling changes nothing but the overview |
| QualityClient.SweptByOwnPass | DQM/RPCMonitorClient/plugins/RPCChamberQuality.cc:148-166 | within a fill each unit's map and distribution come from that unit's operation on its original inputs |
| QualityClient.FillQualityMap | DQM/RPCMonitorClient/plugins/RPCChamberQuality.cc:220-284 | after a fill each unit's map holds, at every swept bin, the state computed from the inputs before the fill, and is unchanged elsewhere |
| QualityClient.FillDistribution | DQM/RPCMonitorClient/plugins/RPCChamberQuality.cc:195-286 | after a fill each unit's distribution holds exactly its state counts, 204 or 216 entries |
| QualityClient.SweptDistribution | DQM/RPCMonitorClient/plugins/RPCChamberQuality.cc:138-166 | the same holds once every unit is swept, before the overview step |
| Lifecycle.LumiPlan | DQM/RPCMonitorClient/plugins/RPCChamberQuality.cc:47-57 | online the first end of lumi books and fills; later ones fill iff the counter is a multiple of the prescale; offline or disabled nothing happens |
| Lifecycle.EndLumi | DQM/RPCMonitorClient/plugins/RPCChamberQuality.cc:41-60 | the counter always advances; the store is booked and filled per the plan; init_ becomes true only by booking or an open fill |
| Lifecycle.Cadence | DQM/RPCMonitorClient/plugins/RPCChamberQuality.cc:47-59 | online with prescale P, call n books iff n = 0 and fills iff P divides n, i.e. lumi sections 1, 1+P, 1+2P, ... |
| Lifecycle.NoLumiWorkOffline | DQM/RPCMonitorClient/plugins/RPCChamberQuality.cc:47-59 | offline or disabled, ends of lumi only count |
| Lifecycle.RunLumis | DQM/RPCMonitorClient/plugins/RPCChamberQuality.cc:41-60 | online, once the counter has left 0 the overview is booked, so every fill finds it |
| Lifecycle.RunFromStart | DQM/RPCMonitorClient/plugins/RPCChamberQuality.cc:33-59 | from the constructor's state the counter follows the cadence and init_ is set after the first lumi section |
| Lifecycle.EndJob | DQM/RPCMonitorClient/plugins/RPCChamberQuality.cc:62-74 | disabled does nothing; offline books if not yet booked and fills; online fills only if booked before |
| Lifecycle.FillAfterBooking | DQM/RPCMonitorClient/plugins/RPCChamberQuality.cc:168-181 | after booking and an open fill the barrel row sums to 1, the endcap rows sum to 1 with disks, and stay 0 without |
| Lifecycle.BookedRowSumsToOne | DQM/RPCMonitorClient/plugins/RPCChamberQuality.cc:168-181 | after booking, a region with swept bins gets an overview row summing to 1 |
| Lifecycle.NoDisksNoEndcapRows | DQM/RPCMonitorClient/plugins/RPCChamberQuality.cc:168-181 | with no disks both endcap rows stay at their reset value 0 |
| Lifecycle.OfflineJob | DQM/RPCMonitorClient/plugins/RPCChamberQuality.cc:62-74 | an offline job that never filled books, fills, sets init_, and leaves a barrel row summing to 1 |
| Refill.FillKeepsLabels | DQM/RPCMonitorClient/plugins/RPCChamberQuality.cc:138-181 | a fill keeps every histogram's axis labels and the set of names |
| Refill.SweepCountsMapEntries | DQM/RPCMonitorClient/plugins/RPCChamberQuality.cc:220-284 | each setBinContent of the sweep adds one entry to the quality map, so it gains as many entries as bins swept |
| Refill.FillMapEntries | DQM/RPCMonitorClient/plugins/RPCChamberQuality.cc:189-284 | the quality maps are not reset, so every fill adds 204 entries to a wheel's map and 216 to a disk's |
| Refill.FillOverviewEntries | DQM/RPCMonitorClient/plugins/RPCChamberQuality.cc:168-181 | after a fill the overview has seven entries per region row written: it is reset, then each written row gets seven setBinContent calls |
| Refill.FillFrame | DQM/RPCMonitorClient/plugins/RPCChamberQuality.cc:138-181 | a histogram that is not a swept unit's map or distribution, a summary or the overview keeps its contents through a fill |
| Refill.FillKeepsSources | DQM/RPCMonitorClient/plugins/RPCChamberQuality.cc:138-181 | a fill never changes any unit's inputs |
| Refill.ShallowIsNotDeep | DQM/RPCMonitorClient/plugins/RPCChamberQuality.cc:130 | a name directly in a folder, with no '/' in its leaf, is never a name one folder below it |
| Refill.EventsIsNoOutput | DQM/RPCMonitorClient/plugins/RPCChamberQuality.cc:14-35 | with the folders the constructor builds, RPCEvents is never one of the client's outputs |
| Refill.GateStaysOpen | DQM/RPCMonitorClient/plugins/RPCChamberQuality.cc:129-135 | the fill does not write RPCEvents, so a gate that was open stays open for the next fill |
| Refill.MapRefill | DQM/RPCMonitorClient/plugins/RPCChamberQuality.cc:220-284 | a second fill leaves every swept unit's quality map with the same bins as the first, and 204 or 216 more entries |
| Refill.DistributionRefill | DQM/RPCMonitorClient/plugins/RPCChamberQuality.cc:195-288 | a second fill leaves every swept unit's distribution with the same bins and entries |
| Refill.FillKeepsRegionCount | DQM/RPCMonitorClient/plugins/RPCChamberQuality.cc:138-166 | the state counts a second fill would take are those of the first |
| Refill.SummaryRefill | DQM/RPCMonitorClient/plugins/RPCChamberQuality.cc:138-166 | a second fill leaves every region summary with the same bins and entries |
| Refill.FractionsFollowSummaries | DQM/RPCMonitorClient/plugins/RPCChamberQuality.cc:171-180 | the overview fractions depend only on what the summaries show |
| Refill.RowsFollowSummaries | DQM/RPCMonitorClient/plugins/RPCChamberQuality.cc:171-181 | which overview rows get written depends only on what the summaries show |
| Refill.OverviewRefill | DQM/RPCMonitorClient/plugins/RPCChamberQuality.cc:168-181 | a second fill leaves the overview with the same bins and entries |
| Refill.NameRefill | DQM/RPCMonitorClient/plugins/RPCChamberQuality.cc:128-182 | after a second fill on the same inputs, any one histogram shows the same bins and labels as after the first, and the same entries unless it is a swept quality map |
| Refill.FillIdempotent | DQM/RPCMonitorClient/plugins/RPCChamberQuality.cc:128-182 | fillMonitorElements run twice on the same inputs shows what it showed after one run: the set of names does not change, every histogram has the same bins and labels, every histogram but the swept quality maps has the same entries, and each swept quality map has 204 (wheel) or 216 (disk) more entries |
| GeometricDet.FirstHolding | Geometry/TrackerNumberingBuilder/src/GeometricDet.cc:22-28 | the index of the first record holding the key, or none iff no record holds it |
| GeometricDet.Fetch | Geometry/TrackerNumberingBuilder/src/GeometricDet.cc:19-28 | the search loop finds the key iff some record holds it, and then returns the first such record's values |
| GeometricDet.FirstIsFirst | Geometry/TrackerNumberingBuilder/src/GeometricDet.cc:22-28 | a record holding the key with none before it is the one found |
| GeometricDet.GetString | Geometry/TrackerNumberingBuilder/src/GeometricDet.cc:39-59 | "NotFound" when no record has the key, the error "I need 1 key tags" unless exactly one value, else that value |
| GeometricDet.GetDouble | Geometry/TrackerNumberingBuilder/src/GeometricDet.cc:17-37 | 0 when no record has the key, the same error unless exactly one value, else its atof |
| GeometricDet.LookupsFailTogether | Geometry/TrackerNumberingBuilder/src/GeometricDet.cc:17-59 | getString and getDouble throw on exactly the same keys |
| GeometricDet.LaterRecordsIgnored | Geometry/TrackerNumberingBuilder/src/GeometricDet.cc:24-28 | once a record holds the key, records after it do not affect the lookup |
| GeometricDet.Flag | Geometry/TrackerNumberingBuilder/src/GeometricDet.cc:86-88 | a flag throws iff its string lookup throws, else it is whether the string is "true" |
| GeometricDet.FlagMeansTrue | Geometry/TrackerNumberingBuilder/src/GeometricDet.cc:86-88 | a flag is set iff the first record holding it has the single value "true"; a missing key gives false |
| GeometricDet.SpecificsOf | Geometry/TrackerNumberingBuilder/src/GeometricDet.cc:80-89 | on success the seven numbers are the getDouble results of their keys and the three flags are the "true" tests of theirs; construction throws iff one of the ten lookups throws |
| GeometricDet.NoSpecifics | Geometry/TrackerNumberingBuilder/src/GeometricDet.cc:80-89 | with no specifics every number is 0 and every flag false |
| GeometricDet.ExtraNav | Geometry/TrackerNumberingBuilder/src/GeometricDet.cc:173-193 | the nested tests append _nt4 .. _nt10 while _numnt exceeds the index, giving a contiguous run of the record's entries |
| GeometricDet.FromPersistent | Geometry/TrackerNumberingBuilder/src/GeometricDet.cc:126-194 | a leaf whose _ddd is the first 4 entries when _numnt <= 4 and else the first min(_numnt, 11); _params is the 11 record values for shape 1 or 3 and empty otherwise; every other field copied from the record |
| GeometricDet.PersistentBounds | Geometry/TrackerNumberingBuilder/src/GeometricDet.cc:153-193 | _ddd has 4 to 11 entries, more than 4 iff _numnt > 4; _params has 11 entries or none |
| GeometricDet.DeepInto | Geometry/TrackerNumberingBuilder/src/GeometricDet.cc:205-210 | deepComponents(cont) only appends: the old contents stay as a prefix |
| GeometricDet.DeepIntoEach | Geometry/TrackerNumberingBuilder/src/GeometricDet.cc:209 | walking the children only appends to the container |
| GeometricDet.DeepIntoAppendsLeaves | Geometry/TrackerNumberingBuilder/src/GeometricDet.cc:205-210 | deepComponents(cont) appends exactly the node's leaves in depth-first order |
| GeometricDet.DeepIntoEachAppendsLeaves | Geometry/TrackerNumberingBuilder/src/GeometricDet.cc:209 | walking the children appends their leaves in container order |
| GeometricDet.DeepComponents | Geometry/TrackerNumberingBuilder/src/GeometricDet.cc:196-210 | a leaf yields itself; an inner node yields the concatenation of its children's leaves in order |
| GeometricDet.LeavesAreLeaves | Geometry/TrackerNumberingBuilder/src/GeometricDet.cc:205-209 | deepComponents returns at least one node, and only leaves |
| GeometricDet.LeavesOfAreLeaves | Geometry/TrackerNumberingBuilder/src/GeometricDet.cc:209 | the children's leaf lists hold only leaves, and are non-empty when there are children |
| GeometricDet.LeavesOfConcat | Geometry/TrackerNumberingBuilder/src/GeometricDet.cc:209 | the leaves of two runs of children are the leaves of each, concatenated |
| GeometricDet.AddComponents | Geometry/TrackerNumberingBuilder/src/GeometricDet.cc:212-220 | the old children stay as a prefix and the new ones follow in order; nothing else changes |
| GeometricDet.AddComponent | Geometry/TrackerNumberingBuilder/src/GeometricDet.cc:222 | the old children stay as a prefix and the new child is last |
| GeometricDet.AddOneIsAddList | Geometry/TrackerNumberingBuilder/src/GeometricDet.cc:212-222 | adding one child equals adding the one-element list |
| GeometricDet.AddComponentsTwice | Geometry/TrackerNumberingBuilder/src/GeometricDet.cc:212-220 | adding a then b equals adding a + b |
| GeometricDet.DeleteComponents | Geometry/TrackerNumberingBuilder/src/GeometricDet.cc:230-233 | the node keeps its data and has no children left |
| GeometricDet.DeleteMakesLeaf | Geometry/TrackerNumberingBuilder/src/GeometricDet.cc:230-233 | after deleteComponents, deepComponents yields only the node itself |
| GeometricDet.AddedLeavesFollow | Geometry/TrackerNumberingBuilder/src/GeometricDet.cc:205-220 | on an inner node, the leaves of the added children follow the old leaves |

## Left out

- Logging (`edm::LogVerbatim`), `beginJob` and the destructors: they have no effect on the histograms.
- The DQM store services (`IBooker`, `IGetter`, `setCurrentFolder`) are reduced to a map from full names to histograms. Histogram ranges (0.5..7.5 and so on) are not modelled.
- `RPCRollMapHisto::bookBarrel` and `bookEndcap` are not part of this model. Their 2-D layout and labels are not modelled; a booked map is an empty histogram under the booked name.
- Booking a name that already exists replaces it with a fresh histogram; the real store's handling of a repeated booking is not modelled.
- Histograms.SetBinContent: ROOT's `SetBinContent` also clears the histogram's cached sum of weights, which the client never reads; only the entry count it increments is modelled.
- ChamberQuality.Classify: the thresholds are compared over exact reals. The source stores the inputs as `float` and compares them with `double` literals, so a stored 0.88 can fail `>= 0.88`; that rounding is not modelled.
- ChamberQuality.TruncateToInt: a bin content too large for `int` (undefined behaviour in C++) is not modelled; the integers are unbounded.
- Lifecycle.LumiPlan: the 32-bit overflow of `lumiCounter_` after 2^31 - 1 calls is not modelled; the counter is unbounded. (For the zero test of `lumiCounter_ % prescaleFactor_` the C++ and Dafny remainders agree for either sign of the prescale.)
- QualityClient.FillMonitorElements: requires the overview to exist when the gate is open, because the source dereferences it before its null check.
- QualityClient.RowSumsToOne: the overview fractions and their sum are exact reals. The source divides a `float` bin content by a `double` entry count and stores the quotient back into a `float` histogram, so the seven stored fractions need not add up to exactly 1.0.
- QualityClient.OverviewHoldsFractions: the fraction in each overview bin is an exact real quotient, not the `float` the source stores.
- Refill.FillIdempotent: the two fills agree on every bin through getBinContent and on the axis labels, and on the entries of every histogram except the swept quality maps, whose entries grow by 204 or 216 with each fill. The content maps of the model are not shown to be equal as maps, since a bin may be absent in one and hold an explicit 0 in the other; no getBinContent call can tell these apart.
- QualityClient.RowOfFractions: the seven bin-over-entries fractions are exact reals; `float` rounding of each stored fraction is not modelled.
- Lifecycle.FillAfterBooking: the row sums of 1.0 are over exact reals, for the same reason as QualityClient.RowSumsToOne.
- Lifecycle.BookedRowSumsToOne: the overview row's sum of 1.0 is over exact reals; the stored `float` fractions need not add up to exactly 1.0, for the same reason as QualityClient.RowSumsToOne.
- Lifecycle.OfflineJob: the barrel row's sum of 1.0 is over exact reals; the stored `float` fractions need not add up to exactly 1.0, for the same reason as QualityClient.RowSumsToOne.
- GeometricDet.SpecificsOf: when several lookups would throw, which key's "I need 1 … tags" message is raised depends on the order the members are initialised in. That is their declaration order in `GeometricDet.h`, which is not part of this model; the model assumes it matches the order of the initialiser list. The contract states only whether construction throws, which does not depend on the order.
- GeometricDet.GetDouble: `atof` is a parameter, not a model of C string parsing.
- The DD and DD4hep constructors of `GeometricDet` (translation, rotation, shape-name mapping, `computeLegacyShapeParameters`) are not modelled beyond the specifics lookups and flags of the DD constructor (`GeometricDet.SpecificsOf`). The DD view's specifics records are a parameter.
- GeometricDet.FromPersistent: the shape stays the persistent integer code, because the `LegacySolidShapeMap` name lookup is not part of this model. `_isLowerSensor` and `_isUpperSensor`, which this constructor does not set, are false (their in-class default). `_ddd.reserve(_numnt)` with a negative `_numnt` would throw `std::length_error`; that is not modelled.
- `positionBounds`, `rotationBounds` and `bounds`: they are float unit conversions and calls into `TrackerShapeToBounds`, which is not part of this model.
- `deleteComponents` frees the children through `Deleter`; the model only drops them, as memory ownership has no counterpart in immutable values.
- `isLeaf` is declared in a header that is not part of this model; it is taken to mean "no children".
