/** GeometricDet: a node of the tracker's numbering tree. Each node holds
    its geometric attributes and an ordered list of daughter nodes. The
    model covers the attribute lookup in the detector description's
    "specifics" records, the construction from a persistent record, the
    flattening of a subtree to its leaves and the editing of a node's
    daughters. */
module GeometricDet {
  import opened Wrappers

  // ---------------------------------------------------------------------
  // Specifics lookup.

  /** One specifics record: named values, each a list of strings. */
  type Specifics = map<string, seq<string>>

  /** Index of the first record that holds key, if any. */
  function FirstHolding(recs: seq<Specifics>, key: string): (r: Option<nat>)
    ensures r.None? <==> forall i :: 0 <= i < |recs| ==> key !in recs[i]
    ensures r.Some? ==> r.value < |recs| && key in recs[r.value]
    ensures r.Some? ==> forall j :: 0 <= j < r.value ==> key !in recs[j]
  {
    if recs == [] then None
    else if key in recs[0] then Some(0)
    else
      match FirstHolding(recs[1..], key)
      case None => None
      case Some(i) => Some(i + 1)
  }

  /** The scan of getDouble and getString: walk the records, stop at the
      first one that holds key, and report whether one did and its values. */
  method Fetch(recs: seq<Specifics>, key: string) returns (found: bool, values: seq<string>)
    ensures found <==> exists i :: 0 <= i < |recs| && key in recs[i]
    ensures found ==> FirstHolding(recs, key).Some? && values == recs[FirstHolding(recs, key).value][key]
  {
    found := false;
    values := [];
    var i := 0;
    while i < |recs|
      invariant 0 <= i <= |recs|
      invariant forall j :: 0 <= j < i ==> key !in recs[j]
    {
      if key in recs[i] {
        found := true;
        values := recs[i][key];
        FirstIsFirst(recs, key, i);
        return;
      }
      i := i + 1;
    }
  }

  /** A holding record with none before it is the first one. */
  lemma FirstIsFirst(recs: seq<Specifics>, key: string, i: nat)
    requires i < |recs| && key in recs[i]
    requires forall j :: 0 <= j < i ==> key !in recs[j]
    ensures FirstHolding(recs, key) == Some(i)
  {
    var r := FirstHolding(recs, key);
    assert r.Some?;
    assert !(r.value < i) && !(i < r.value);
  }

  /** The values of the first record holding key. */
  function Lookup(recs: seq<Specifics>, key: string): Option<seq<string>> {
    match FirstHolding(recs, key)
    case None => None
    case Some(i) => Some(recs[i][key])
  }

  /** The exception both lookups throw when the matched value is not a
      single string. */
  function NeedOne(key: string): Error {
    Configuration("I need 1 " + key + " tags")
  }

  /** getString: the single string of the first record holding key,
      "NotFound" when none does. */
  function GetString(recs: seq<Specifics>, key: string): (r: Result<string>)
    ensures Lookup(recs, key).None? ==> r == Success("NotFound")
    ensures Lookup(recs, key).Some? && |Lookup(recs, key).value| != 1 ==> r == Failure(NeedOne(key))
    ensures Lookup(recs, key).Some? && |Lookup(recs, key).value| == 1 ==> r == Success(Lookup(recs, key).value[0])
  {
    match Lookup(recs, key)
    case None => Success("NotFound")
    case Some(v) => if |v| != 1 then Failure(NeedOne(key)) else Success(v[0])
  }

  /** getDouble: as getString, with the string parsed by the C library's
      atof (a parameter here) and 0 when no record holds key. */
  function GetDouble(recs: seq<Specifics>, key: string, atof: string -> real): (r: Result<real>)
    ensures Lookup(recs, key).None? ==> r == Success(0.0)
    ensures Lookup(recs, key).Some? && |Lookup(recs, key).value| != 1 ==> r == Failure(NeedOne(key))
    ensures Lookup(recs, key).Some? && |Lookup(recs, key).value| == 1 ==> r == Success(atof(Lookup(recs, key).value[0]))
  {
    match Lookup(recs, key)
    case None => Success(0.0)
    case Some(v) => if |v| != 1 then Failure(NeedOne(key)) else Success(atof(v[0]))
  }

  /** Both lookups throw on exactly the same records. */
  lemma LookupsFailTogether(recs: seq<Specifics>, key: string, atof: string -> real)
    ensures GetString(recs, key).Failure? <==> GetDouble(recs, key, atof).Failure?
  {
  }

  /** A record after the first holding record cannot change a lookup. */
  lemma LaterRecordsIgnored(recs: seq<Specifics>, more: seq<Specifics>, key: string)
    requires exists i :: 0 <= i < |recs| && key in recs[i]
    ensures Lookup(recs + more, key) == Lookup(recs, key)
  {
    var i := FirstHolding(recs, key).value;
    assert (recs + more)[i] == recs[i];
    forall j | 0 <= j < i
      ensures key !in (recs + more)[j]
    {
      assert (recs + more)[j] == recs[j];
    }
    FirstIsFirst(recs + more, key, i);
  }

  // ---------------------------------------------------------------------
  // Attributes.

  /** The attributes the old detector-description constructor takes from
      the specifics. */
  datatype Specific = Specific(
    radLength: real,
    xi: real,
    pixROCRows: real,
    pixROCCols: real,
    pixROCx: real,
    pixROCy: real,
    stereo: bool,
    isLowerSensor: bool,
    isUpperSensor: bool,
    siliconAPVNum: real)

  /** A flag attribute: set exactly when the looked-up string is "true". */
  function Flag(recs: seq<Specifics>, key: string): (r: Result<bool>)
    ensures r.Success? <==> GetString(recs, key).Success?
    ensures r.Success? ==> (r.value <==> GetString(recs, key).value == "true")
  {
    var v :- GetString(recs, key);
    Success(v == "true")
  }

  /** A flag is set exactly when the first record holding its key holds
      the single string "true"; a missing key leaves it unset. */
  lemma FlagMeansTrue(recs: seq<Specifics>, key: string)
    requires Flag(recs, key).Success?
    ensures Flag(recs, key).value <==> Lookup(recs, key) == Some(["true"])
  {
    match Lookup(recs, key)
    case None =>
      assert GetString(recs, key) == Success("NotFound");
    case Some(v) =>
      assert |v| == 1;
      if v[0] == "true" {
        assert v == ["true"];
      }
  }

  /** The attribute initialisers of the old detector-description
      constructor. Whether construction throws does not depend on the
      order of the lookups; which key's message is thrown does, and the
      order here is the order the initialiser list is written in. */
  function SpecificsOf(recs: seq<Specifics>, atof: string -> real): (r: Result<Specific>)
    ensures r.Success? ==> GetDouble(recs, "TrackerRadLength", atof).Success? && r.value.radLength == GetDouble(recs, "TrackerRadLength", atof).value
    ensures r.Success? ==> GetDouble(recs, "TrackerXi", atof).Success? && r.value.xi == GetDouble(recs, "TrackerXi", atof).value
    ensures r.Success? ==> GetDouble(recs, "PixelROCRows", atof).Success? && r.value.pixROCRows == GetDouble(recs, "PixelROCRows", atof).value
    ensures r.Success? ==> GetDouble(recs, "PixelROCCols", atof).Success? && r.value.pixROCCols == GetDouble(recs, "PixelROCCols", atof).value
    ensures r.Success? ==> GetDouble(recs, "PixelROC_X", atof).Success? && r.value.pixROCx == GetDouble(recs, "PixelROC_X", atof).value
    ensures r.Success? ==> GetDouble(recs, "PixelROC_Y", atof).Success? && r.value.pixROCy == GetDouble(recs, "PixelROC_Y", atof).value
    ensures r.Success? ==> GetDouble(recs, "SiliconAPVNumber", atof).Success? && r.value.siliconAPVNum == GetDouble(recs, "SiliconAPVNumber", atof).value
    ensures r.Success? ==> r.value.stereo == (Lookup(recs, "TrackerStereoDetectors") == Some(["true"]))
    ensures r.Success? ==> r.value.isLowerSensor == (Lookup(recs, "TrackerLowerDetectors") == Some(["true"]))
    ensures r.Success? ==> r.value.isUpperSensor == (Lookup(recs, "TrackerUpperDetectors") == Some(["true"]))
    ensures r.Failure? <==> SomeLookupThrows(recs)
  {
    var radLength := GetDouble(recs, "TrackerRadLength", atof);
    var xi := GetDouble(recs, "TrackerXi", atof);
    var rows := GetDouble(recs, "PixelROCRows", atof);
    var cols := GetDouble(recs, "PixelROCCols", atof);
    var x := GetDouble(recs, "PixelROC_X", atof);
    var y := GetDouble(recs, "PixelROC_Y", atof);
    var stereo := Flag(recs, "TrackerStereoDetectors");
    var lower := Flag(recs, "TrackerLowerDetectors");
    var upper := Flag(recs, "TrackerUpperDetectors");
    var apv := GetDouble(recs, "SiliconAPVNumber", atof);
    LookupsFailTogether(recs, "TrackerRadLength", atof);
    LookupsFailTogether(recs, "TrackerXi", atof);
    LookupsFailTogether(recs, "PixelROCRows", atof);
    LookupsFailTogether(recs, "PixelROCCols", atof);
    LookupsFailTogether(recs, "PixelROC_X", atof);
    LookupsFailTogether(recs, "PixelROC_Y", atof);
    LookupsFailTogether(recs, "SiliconAPVNumber", atof);
    if radLength.Failure? then Failure(radLength.error)
    else if xi.Failure? then Failure(xi.error)
    else if rows.Failure? then Failure(rows.error)
    else if cols.Failure? then Failure(cols.error)
    else if x.Failure? then Failure(x.error)
    else if y.Failure? then Failure(y.error)
    else if stereo.Failure? then Failure(stereo.error)
    else if lower.Failure? then Failure(lower.error)
    else if upper.Failure? then Failure(upper.error)
    else if apv.Failure? then Failure(apv.error)
    else
      FlagMeansTrue(recs, "TrackerStereoDetectors");
      FlagMeansTrue(recs, "TrackerLowerDetectors");
      FlagMeansTrue(recs, "TrackerUpperDetectors");
      Success(Specific(radLength.value, xi.value, rows.value, cols.value, x.value, y.value,
        stereo.value, lower.value, upper.value, apv.value))
  }

  /** Whether one of the ten keys the constructor looks up is held by a
      record with other than exactly one value. */
  predicate SomeLookupThrows(recs: seq<Specifics>) {
    || GetString(recs, "TrackerRadLength").Failure?
    || GetString(recs, "TrackerXi").Failure?
    || GetString(recs, "PixelROCRows").Failure?
    || GetString(recs, "PixelROCCols").Failure?
    || GetString(recs, "PixelROC_X").Failure?
    || GetString(recs, "PixelROC_Y").Failure?
    || GetString(recs, "TrackerStereoDetectors").Failure?
    || GetString(recs, "TrackerLowerDetectors").Failure?
    || GetString(recs, "TrackerUpperDetectors").Failure?
    || GetString(recs, "SiliconAPVNumber").Failure?
  }

  /** With no specifics at all every attribute takes its default: 0 for the
      numbers and unset for the flags. */
  lemma NoSpecifics(atof: string -> real)
    ensures SpecificsOf([], atof) == Success(Specific(0.0, 0.0, 0.0, 0.0, 0.0, 0.0, false, false, false, 0.0))
  {
  }

  // ---------------------------------------------------------------------
  // The node and its persistent record.

  /** The eleven navigation slots _nt0.._nt10 of a persistent record. */
  type NavSlots = s: seq<int> | |s| == 11 witness [0, 0, 0, 0, 0, 0, 0, 0, 0, 0, 0]

  /** The eleven shape parameters _params0.._params10 of a persistent record. */
  type ParamSlots = s: seq<real> | |s| == 11 witness [0.0, 0.0, 0.0, 0.0, 0.0, 0.0, 0.0, 0.0, 0.0, 0.0, 0.0]

  /** The rotation matrix _a11.._a33, row by row. */
  type Rotation = s: seq<real> | |s| == 9 witness [0.0, 0.0, 0.0, 0.0, 0.0, 0.0, 0.0, 0.0, 0.0]

  /** One persistent record (PGeometricDet::Item). */
  datatype Item = Item(
    x: real, y: real, z: real,
    phi: real, rho: real,
    rotation: Rotation,
    shape: int,
    name: string,
    geographicalId: int,
    radLength: real, xi: real,
    pixROCRows: real, pixROCCols: real, pixROCx: real, pixROCy: real,
    stereo: bool,
    siliconAPVNum: real,
    numnt: int,
    nt: NavSlots,
    params: ParamSlots)

  /** What a node knows about itself. `shape` is the legacy shape code; the
      shape name it maps to is not part of this model. */
  datatype Info = Info(
    translation: seq<real>,
    phi: real, rho: real,
    rotation: seq<real>,
    shape: int,
    ddd: seq<int>,
    name: string,
    detType: int,
    params: seq<real>,
    geographicalId: int,
    specific: Specific,
    isFromDD4hep: bool)

  /** A node with its daughters in container order. */
  datatype Det = Det(info: Info, components: seq<Det>)

  /** A node without daughters. */
  predicate IsLeaf(d: Det) {
    d.components == []
  }

  function Min(a: int, b: int): int {
    if a < b then a else b
  }

  /** The navigation slots from k on that the nested `_numnt > k` tests
      copy: slot k is taken while _numnt exceeds k, up to slot 10. */
  function ExtraNav(item: Item, k: nat): (r: seq<int>)
    requires 4 <= k <= 11
    ensures |r| == if item.numnt <= k then 0 else Min(item.numnt, 11) - k
    ensures r == item.nt[k..k + |r|]
    decreases 11 - k
  {
    if k <= 10 && item.numnt > k then [item.nt[k]] + ExtraNav(item, k + 1) else []
  }

  /** The shape codes (box and trapezoid) whose parameters are stored. */
  predicate KeepsParams(shape: int) {
    shape == 1 || shape == 3
  }

  /** The constructor from a persistent record. The sensor flags and the
      DD4hep flag are not set by it and keep their defaults. */
  function FromPersistent(item: Item, detType: int): (d: Det)
    ensures IsLeaf(d)
    ensures |d.info.ddd| == if item.numnt <= 4 then 4 else Min(item.numnt, 11)
    ensures d.info.ddd == item.nt[..|d.info.ddd|]
    ensures d.info.params == if KeepsParams(item.shape) then item.params else []
    ensures d.info.translation == [item.x, item.y, item.z] && d.info.rotation == item.rotation
    ensures d.info.phi == item.phi && d.info.rho == item.rho && d.info.shape == item.shape
    ensures d.info.name == item.name && d.info.detType == detType && d.info.geographicalId == item.geographicalId
    ensures d.info.specific == Specific(item.radLength, item.xi, item.pixROCRows, item.pixROCCols, item.pixROCx,
      item.pixROCy, item.stereo, false, false, item.siliconAPVNum)
  {
    var ddd := item.nt[..4] + ExtraNav(item, 4);
    var params := if KeepsParams(item.shape) then item.params else [];
    var specific := Specific(item.radLength, item.xi, item.pixROCRows, item.pixROCCols, item.pixROCx,
      item.pixROCy, item.stereo, false, false, item.siliconAPVNum);
    Det(Info([item.x, item.y, item.z], item.phi, item.rho, item.rotation, item.shape, ddd, item.name, detType,
      params, item.geographicalId, specific, false), [])
  }

  /** A record rebuilt into a node keeps at least the first four
      navigation slots and never more than eleven, and a box or trapezoid
      keeps all eleven parameters. */
  lemma PersistentBounds(item: Item, detType: int)
    ensures 4 <= |FromPersistent(item, detType).info.ddd| <= 11
    ensures |FromPersistent(item, detType).info.ddd| > 4 <==> item.numnt > 4
    ensures KeepsParams(item.shape) ==> |FromPersistent(item, detType).info.params| == 11
    ensures !KeepsParams(item.shape) ==> FromPersistent(item, detType).info.params == []
  {
  }

  // ---------------------------------------------------------------------
  // The tree.

  /** Reference definition: the leaves under d, left to right. */
  function Leaves(d: Det): seq<Det>
    decreases d, 1
  {
    if IsLeaf(d) then [d] else LeavesOf(d.components)
  }

  function LeavesOf(ds: seq<Det>): seq<Det>
    decreases ds, 0
  {
    if ds == [] then [] else Leaves(ds[0]) + LeavesOf(ds[1..])
  }

  /** deepComponents(cont): append d's leaves to cont, visiting the
      daughters in container order. */
  function DeepInto(d: Det, cont: seq<Det>): (r: seq<Det>)
    ensures |r| >= |cont| && r[..|cont|] == cont
    decreases d, 1
  {
    if IsLeaf(d) then cont + [d] else DeepIntoEach(d.components, cont)
  }

  function DeepIntoEach(ds: seq<Det>, cont: seq<Det>): (r: seq<Det>)
    ensures |r| >= |cont| && r[..|cont|] == cont
    decreases ds, 0
  {
    if ds == [] then cont
    else
      var c1 := DeepInto(ds[0], cont);
      var r := DeepIntoEach(ds[1..], c1);
      assert r[..|cont|] == r[..|c1|][..|cont|];
      r
  }

  /** The accumulating traversal appends exactly the leaves. */
  lemma {:induction false} DeepIntoAppendsLeaves(d: Det, cont: seq<Det>)
    ensures DeepInto(d, cont) == cont + Leaves(d)
    decreases d, 1
  {
    if !IsLeaf(d) {
      DeepIntoEachAppendsLeaves(d.components, cont);
    }
  }

  lemma {:induction false} DeepIntoEachAppendsLeaves(ds: seq<Det>, cont: seq<Det>)
    ensures DeepIntoEach(ds, cont) == cont + LeavesOf(ds)
    decreases ds, 0
  {
    if ds == [] {
      assert cont + [] == cont;
    } else {
      DeepIntoAppendsLeaves(ds[0], cont);
      DeepIntoEachAppendsLeaves(ds[1..], cont + Leaves(ds[0]));
      assert cont + Leaves(ds[0]) + LeavesOf(ds[1..]) == cont + (Leaves(ds[0]) + LeavesOf(ds[1..]));
    }
  }

  /** deepComponents(): the leaves under d, starting from an empty list. */
  function DeepComponents(d: Det): (r: seq<Det>)
    ensures IsLeaf(d) ==> r == [d]
    ensures !IsLeaf(d) ==> r == LeavesOf(d.components)
  {
    DeepIntoAppendsLeaves(d, []);
    assert [] + Leaves(d) == Leaves(d);
    DeepInto(d, [])
  }

  /** Everything deepComponents returns is a leaf, and there is at least one. */
  lemma {:induction false} LeavesAreLeaves(d: Det)
    ensures |Leaves(d)| >= 1
    ensures forall i :: 0 <= i < |Leaves(d)| ==> IsLeaf(Leaves(d)[i])
    decreases d, 1
  {
    if !IsLeaf(d) {
      LeavesOfAreLeaves(d.components);
      assert d.components[0] in d.components;
      assert |LeavesOf(d.components)| >= |Leaves(d.components[0])|;
    }
  }

  lemma {:induction false} LeavesOfAreLeaves(ds: seq<Det>)
    ensures forall i :: 0 <= i < |LeavesOf(ds)| ==> IsLeaf(LeavesOf(ds)[i])
    ensures ds != [] ==> |LeavesOf(ds)| >= 1
    decreases ds, 0
  {
    if ds != [] {
      LeavesAreLeaves(ds[0]);
      LeavesOfAreLeaves(ds[1..]);
    }
  }

  lemma {:induction false} LeavesOfConcat(a: seq<Det>, b: seq<Det>)
    ensures LeavesOf(a + b) == LeavesOf(a) + LeavesOf(b)
    decreases |a|
  {
    if a == [] {
      assert a + b == b;
    } else {
      assert (a + b)[0] == a[0] && (a + b)[1..] == a[1..] + b;
      LeavesOfConcat(a[1..], b);
    }
  }

  /** addComponents: the new daughters follow the old ones, in order. */
  function AddComponents(d: Det, more: seq<Det>): (r: Det)
    ensures r.info == d.info
    ensures |r.components| == |d.components| + |more|
    ensures r.components[..|d.components|] == d.components
    ensures r.components[|d.components|..] == more
  {
    d.(components := d.components + more)
  }

  /** addComponent: one daughter appended. */
  function AddComponent(d: Det, det: Det): (r: Det)
    ensures r.info == d.info
    ensures |r.components| == |d.components| + 1
    ensures r.components[..|d.components|] == d.components
    ensures r.components[|d.components|] == det
  {
    d.(components := d.components + [det])
  }

  /** Adding one daughter is adding a list of one. */
  lemma AddOneIsAddList(d: Det, det: Det)
    ensures AddComponent(d, det) == AddComponents(d, [det])
  {
  }

  /** Daughters added in two batches end as if added in one. */
  lemma AddComponentsTwice(d: Det, a: seq<Det>, b: seq<Det>)
    ensures AddComponents(AddComponents(d, a), b) == AddComponents(d, a + b)
  {
    assert d.components + a + b == d.components + (a + b);
  }

  /** deleteComponents: the node keeps its attributes and loses all its
      daughters. */
  function DeleteComponents(d: Det): (r: Det)
    ensures r.info == d.info
    ensures IsLeaf(r)
  {
    d.(components := [])
  }

  /** After deleteComponents a node is its own only leaf. */
  lemma DeleteMakesLeaf(d: Det)
    ensures DeepComponents(DeleteComponents(d)) == [DeleteComponents(d)]
  {
  }

  /** The leaves of a node with daughters grow by the leaves of the added
      daughters, appended after the old ones. */
  lemma AddedLeavesFollow(d: Det, more: seq<Det>)
    requires !IsLeaf(d)
    ensures DeepComponents(AddComponents(d, more)) == DeepComponents(d) + LeavesOf(more)
  {
    LeavesOfConcat(d.components, more);
  }
}
