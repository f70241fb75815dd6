/** The chamber-quality decision tree of RPCChamberQuality: seven per-cell
    monitoring values are reduced to one of seven quality states by a chain
    of checks where the first check that fires decides. */
module ChamberQuality {
  import opened Wrappers

  /** The quality states, declared in the order of the axis labels
      "Good", "OFF", "Nois.St", "Nois.Ch", "Part.Dead", "Dead", "Bad.Shape". */
  datatype State = Good | Off | NoisyStrip | NoisyRoll | PartiallyDead | Dead | BadShape

  /** The value a state is written as into a histogram (1..7). */
  function Ordinal(s: State): (k: int)
    ensures 1 <= k <= 7
  {
    match s
    case Good => 1
    case Off => 2
    case NoisyStrip => 3
    case NoisyRoll => 4
    case PartiallyDead => 5
    case Dead => 6
    case BadShape => 7
  }

  /** Decodes a stored ordinal; None outside 1..7. */
  function FromOrdinal(k: int): (r: Option<State>)
    ensures r.None? <==> !(1 <= k <= 7)
  {
    if k == 1 then Some(Good)
    else if k == 2 then Some(Off)
    else if k == 3 then Some(NoisyStrip)
    else if k == 4 then Some(NoisyRoll)
    else if k == 5 then Some(PartiallyDead)
    else if k == 6 then Some(Dead)
    else if k == 7 then Some(BadShape)
    else None
  }

  /** Storing a state and reading it back gives the same state, and every
      stored ordinal comes from exactly one state. */
  lemma OrdinalRoundTrip(s: State, k: int)
    ensures FromOrdinal(Ordinal(s)) == Some(s)
    ensures FromOrdinal(k) == Some(s) ==> Ordinal(s) == k
  {
  }

  /** The x-axis labels of every quality histogram, bin 1 first. */
  const Labels: seq<string> := ["Good", "OFF", "Nois.St", "Nois.Ch", "Part.Dead", "Dead", "Bad.Shape"]

  /** The label a state's bin carries. */
  function Label(s: State): (l: string)
    ensures s == Good ==> l == "Good"
    ensures s == Off ==> l == "OFF"
    ensures s == NoisyStrip ==> l == "Nois.St"
    ensures s == NoisyRoll ==> l == "Nois.Ch"
    ensures s == PartiallyDead ==> l == "Part.Dead"
    ensures s == Dead ==> l == "Dead"
    ensures s == BadShape ==> l == "Bad.Shape"
  {
    Labels[Ordinal(s) - 1]
  }

  /** The labels tell the states apart. */
  lemma LabelsDistinct(s: State, t: State)
    ensures Label(s) == Label(t) ==> s == t
  {
    if s != t {
      assert Ordinal(s) != Ordinal(t);
      var i, j := Ordinal(s) - 1, Ordinal(t) - 1;
      assert Labels[i] != Labels[j] by {
        assert Labels[i][0] != Labels[j][0] || |Labels[i]| != |Labels[j]| || Labels[i][1] != Labels[j][1]
          || Labels[i][5] != Labels[j][5];
      }
    }
  }

  /** The C++ `(int)` cast of a double: truncation toward zero. */
  function TruncateToInt(v: real): (r: int)
    ensures v >= 0.0 ==> r as real <= v < r as real + 1.0
    ensures v < 0.0 ==> r as real - 1.0 < v <= r as real
  {
    if v >= 0.0 then v.Floor else -((-v).Floor)
  }

  /** A stored HV or LV status reads as nominal (1 after the cast) exactly
      when it lies in [1, 2). */
  lemma NominalAfterCast(v: real)
    ensures TruncateToInt(v) == 1 <==> 1.0 <= v < 2.0
  {
  }

  /** The seven values read for one cell, after the casts the code applies:
      HV and LV are ints, the others are compared as reals. */
  datatype Inputs = Inputs(hv: int, lv: int, dead: real, firstBin: real, noisyStrips: real, mult: real, asymmetry: real)

  /** The values a cell gets when none of its input histograms exists. */
  const Neutral: Inputs := Inputs(1, 1, 0.0, 0.0, 0.0, 0.0, 0.0)

  predicate PowerNominal(i: Inputs) {
    i.hv == 1 && i.lv == 1
  }

  /** The decision tree. Each ensures names the exact set of inputs that
      produce a state, so the seven states partition the input space in
      the priority order of the source. */
  function Classify(i: Inputs): (s: State)
    ensures s == Off <==> !PowerNominal(i)
    ensures s == Dead <==> PowerNominal(i) && i.dead >= 0.80
    ensures s == PartiallyDead <==> PowerNominal(i) && 0.33 <= i.dead < 0.80
    ensures s == NoisyStrip <==>
      PowerNominal(i) && i.dead < 0.33 && (i.firstBin >= 0.88 || i.noisyStrips > 0.0)
    ensures s == NoisyRoll <==>
      PowerNominal(i) && i.dead < 0.33 && i.firstBin < 0.88 && i.noisyStrips <= 0.0 && i.mult >= 6.0
    ensures s == BadShape <==>
      PowerNominal(i) && i.dead < 0.33 && i.firstBin < 0.88 && i.noisyStrips <= 0.0 && i.mult < 6.0
      && i.asymmetry > 0.35
    ensures s == Good <==>
      PowerNominal(i) && i.dead < 0.33 && i.firstBin < 0.88 && i.noisyStrips <= 0.0 && i.mult < 6.0
      && i.asymmetry <= 0.35
  {
    if i.hv != 1 || i.lv != 1 then Off
    else if i.dead >= 0.80 then Dead
    else if 0.33 <= i.dead && i.dead < 0.80 then PartiallyDead
    else if i.firstBin >= 0.88 then NoisyStrip
    else if i.noisyStrips > 0.0 then NoisyStrip
    else if i.mult >= 6.0 then NoisyRoll
    else if i.asymmetry > 0.35 then BadShape
    else Good
  }

  /** The same decision written as an ordered rule list: each rule has a
      firing condition of its own and a verdict, and the first rule of the
      list that fires decides. */
  datatype Rule = PowerOff | FullyDead | PartlyDead | ClusterInFirstBin | HasNoisyStrips | HighMultiplicity | Asymmetric

  const Priority: seq<Rule> :=
    [PowerOff, FullyDead, PartlyDead, ClusterInFirstBin, HasNoisyStrips, HighMultiplicity, Asymmetric]

  predicate Fires(r: Rule, i: Inputs) {
    match r
    case PowerOff => i.hv != 1 || i.lv != 1
    case FullyDead => i.dead >= 0.80
    case PartlyDead => 0.33 <= i.dead < 0.80
    case ClusterInFirstBin => i.firstBin >= 0.88
    case HasNoisyStrips => i.noisyStrips > 0.0
    case HighMultiplicity => i.mult >= 6.0
    case Asymmetric => i.asymmetry > 0.35
  }

  function Verdict(r: Rule): State {
    match r
    case PowerOff => Off
    case FullyDead => Dead
    case PartlyDead => PartiallyDead
    case ClusterInFirstBin => NoisyStrip
    case HasNoisyStrips => NoisyStrip
    case HighMultiplicity => NoisyRoll
    case Asymmetric => BadShape
  }

  /** Verdict of the first firing rule, Good when none fires. */
  function FirstMatch(rules: seq<Rule>, i: Inputs): State {
    if rules == [] then Good
    else if Fires(rules[0], i) then Verdict(rules[0])
    else FirstMatch(rules[1..], i)
  }

  /** First-match evaluation stops at the first rule that fires. */
  lemma {:induction false} FirstMatchPicksFirstFiring(rules: seq<Rule>, i: Inputs, k: nat)
    requires k < |rules| && Fires(rules[k], i)
    requires forall j :: 0 <= j < k ==> !Fires(rules[j], i)
    ensures FirstMatch(rules, i) == Verdict(rules[k])
  {
    if k > 0 {
      assert !Fires(rules[0], i);
      FirstMatchPicksFirstFiring(rules[1..], i, k - 1);
    }
  }

  /** First-match evaluation gives Good when no rule fires. */
  lemma {:induction false} FirstMatchNoneFiring(rules: seq<Rule>, i: Inputs)
    requires forall j :: 0 <= j < |rules| ==> !Fires(rules[j], i)
    ensures FirstMatch(rules, i) == Good
  {
    if rules != [] {
      assert !Fires(rules[0], i);
      FirstMatchNoneFiring(rules[1..], i);
    }
  }

  /** The decision tree is the priority list evaluated first-match. */
  lemma ClassifyIsFirstMatch(i: Inputs)
    ensures Classify(i) == FirstMatch(Priority, i)
  {
    var k := 0;
    while k < |Priority| && !Fires(Priority[k], i)
      invariant 0 <= k <= |Priority|
      invariant forall j :: 0 <= j < k ==> !Fires(Priority[j], i)
    {
      k := k + 1;
    }
    if k < |Priority| {
      FirstMatchPicksFirstFiring(Priority, i, k);
      assert k == 0 || !Fires(Priority[0], i);
      assert k <= 1 || !Fires(Priority[1], i);
      assert k <= 2 || !Fires(Priority[2], i);
      assert k <= 3 || !Fires(Priority[3], i);
      assert k <= 4 || !Fires(Priority[4], i);
      assert k <= 5 || !Fires(Priority[5], i);
    } else {
      FirstMatchNoneFiring(Priority, i);
      assert !Fires(Priority[0], i) && !Fires(Priority[1], i) && !Fires(Priority[2], i);
      assert !Fires(Priority[3], i) && !Fires(Priority[4], i) && !Fires(Priority[5], i);
      assert !Fires(Priority[6], i);
    }
  }

  /** With the power off nothing else matters. */
  lemma OffOverridesEverything(i: Inputs, dead: real, firstBin: real, noisyStrips: real, mult: real, asymmetry: real)
    requires !PowerNominal(i)
    ensures Classify(i.(dead := dead, firstBin := firstBin, noisyStrips := noisyStrips, mult := mult, asymmetry := asymmetry)) == Off
  {
  }

  /** With the power nominal, a dead fraction of 0.33 or more decides alone:
      cluster size, noisy strips, multiplicity and asymmetry are not consulted. */
  lemma DeadnessOverridesLaterChecks(i: Inputs, firstBin: real, noisyStrips: real, mult: real, asymmetry: real)
    requires PowerNominal(i) && i.dead >= 0.33
    ensures Classify(i.(firstBin := firstBin, noisyStrips := noisyStrips, mult := mult, asymmetry := asymmetry)) == Classify(i)
  {
  }

  /** Missing histograms never trigger a fault. */
  lemma NeutralIsGood()
    ensures Classify(Neutral) == Good
  {
  }

  /** Each single fault alone, on otherwise neutral inputs. */
  lemma ClassifyExamples()
    ensures Classify(Neutral.(dead := 0.9)) == Dead
    ensures Classify(Neutral.(dead := 0.5)) == PartiallyDead
    ensures Classify(Neutral.(dead := 0.1, firstBin := 0.9)) == NoisyStrip
    ensures Classify(Neutral.(noisyStrips := 3.0)) == NoisyStrip
    ensures Classify(Neutral.(mult := 7.0)) == NoisyRoll
    ensures Classify(Neutral.(asymmetry := 0.4)) == BadShape
    ensures Classify(Neutral.(hv := 0)) == Off
  {
  }
}
