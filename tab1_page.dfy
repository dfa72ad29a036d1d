/** The sensor page (`Tab1Page`): the editable sensor list, its reordering,
    the `rx_id` to position map, and the edit dialog's fields and flags.
    Ionic events, subscriptions and date formatting are not modelled: their
    payloads are parameters. */
module SensorList {
  import opened Types
  import Settings

  // ---------------------------------------------------------------------
  // Reordering
  // ---------------------------------------------------------------------

  /** The list with the element at `from` taken out and put back in at `to`. */
  function Moved<T>(s: seq<T>, from: nat, to: nat): (r: seq<T>)
    requires from < |s| && to < |s|
    ensures |r| == |s|
    ensures r[to] == s[from]
  {
    var rest := s[..from] + s[from + 1..];
    rest[..to] + [s[from]] + rest[to..]
  }

  /** Where every element of a moved list comes from: the moved element sits
      at `to`, the ones between `from` and `to` shift one place toward
      `from`, and all others stay where they were. */
  lemma MovedAt<T>(s: seq<T>, from: nat, to: nat, k: nat)
    requires from < |s| && to < |s| && k < |s|
    ensures k == to ==> Moved(s, from, to)[k] == s[from]
    ensures from < to && from <= k < to ==> Moved(s, from, to)[k] == s[k + 1]
    ensures to < from && to < k <= from ==> Moved(s, from, to)[k] == s[k - 1]
    ensures (k < from && k < to) || (k > from && k > to) ==> Moved(s, from, to)[k] == s[k]
  {
    var rest := s[..from] + s[from + 1..];
    assert forall j :: 0 <= j < from ==> rest[j] == s[j];
    assert forall j :: from <= j < |rest| ==> rest[j] == s[j + 1];
    var r := rest[..to] + [s[from]] + rest[to..];
    assert forall j :: 0 <= j < to ==> r[j] == rest[j];
    assert forall j :: to < j < |s| ==> r[j] == rest[j - 1];
  }

  /** A reorder is a permutation of the list. */
  lemma MovedIsPermutation<T>(s: seq<T>, from: nat, to: nat)
    requires from < |s| && to < |s|
    ensures multiset(Moved(s, from, to)) == multiset(s)
  {
    var rest := s[..from] + s[from + 1..];
    assert s == s[..from] + [s[from]] + s[from + 1..];
    assert rest == rest[..to] + rest[to..];
    calc {
      multiset(Moved(s, from, to));
      multiset(rest[..to]) + multiset([s[from]]) + multiset(rest[to..]);
      multiset(rest) + multiset([s[from]]);
      multiset(s[..from]) + multiset(s[from + 1..]) + multiset([s[from]]);
      multiset(s);
    }
  }

  // ---------------------------------------------------------------------
  // The rx_id map
  // ---------------------------------------------------------------------

  /** The map `updateMap` builds: every `rx_id` of the list to the last
      position holding it. */
  function IndexMap(s: seq<SensorData>): (m: map<int, int>)
    ensures forall id :: id in m ==> 0 <= m[id] < |s| && s[m[id]].rxId == id
  {
    if s == [] then map[]
    else IndexMap(s[..|s| - 1])[s[|s| - 1].rxId := |s| - 1]
  }

  /** The map has exactly the ids of the list as keys. */
  lemma {:induction false} IndexMapKeys(s: seq<SensorData>)
    ensures forall id :: id in IndexMap(s) <==> exists k :: 0 <= k < |s| && s[k].rxId == id
  {
    if s != [] {
      var init := s[..|s| - 1];
      IndexMapKeys(init);
      forall id | exists k :: 0 <= k < |s| && s[k].rxId == id
        ensures id in IndexMap(s)
      {
        var k :| 0 <= k < |s| && s[k].rxId == id;
        if k < |init| {
          assert init[k] == s[k];
        }
      }
    }
  }

  /** Each id points at the last position holding it. */
  lemma {:induction false} IndexMapIsLastIndex(s: seq<SensorData>)
    ensures forall id, j :: id in IndexMap(s) && IndexMap(s)[id] < j < |s| ==> s[j].rxId != id
  {
    if s != [] {
      var init := s[..|s| - 1];
      IndexMapIsLastIndex(init);
      assert forall k :: 0 <= k < |init| ==> init[k] == s[k];
    }
  }

  // ---------------------------------------------------------------------
  // Records built by the page
  // ---------------------------------------------------------------------

  const DefaultSoapId: string := "/1/2/3/4/5"
  const DefaultName: string := "not named"

  /** toSensorData: the stored sensor, shown with value 0 and no date yet. */
  function ToSensorData(sensor: SensorData): (r: SensorData)
    ensures r.rxId == sensor.rxId && r.soapId == sensor.soapId
    ensures r.name == sensor.name && r.unit == sensor.unit
    ensures r.value == Some(Zero) && r.timestamp == Some("")
  {
    sensor.(value := Some(Zero), timestamp := Some(""))
  }

  /** The sensor `confirm` builds from the dialog fields: an empty OID and an
      empty name are replaced by their defaults; it has no value and no
      timestamp yet. */
  function ConfirmedSensor(rxId: int, soapId: string, name: string, unit: string): (r: SensorData)
    ensures r.rxId == rxId && r.unit == unit && r.value == None && r.timestamp == None
    ensures r.soapId != "" && r.name != ""
    ensures soapId != "" ==> r.soapId == soapId
    ensures name != "" ==> r.name == name
    ensures soapId == "" ==> r.soapId == DefaultSoapId
    ensures name == "" ==> r.name == DefaultName
  {
    SensorData(rxId, if |soapId| == 0 then DefaultSoapId else soapId,
               if |name| == 0 then DefaultName else name, unit, None, None)
  }

  /** splice(i, 1): the element at `i` removed; nothing when `i` is past the end. */
  function RemoveAt<T>(s: seq<T>, i: nat): (r: seq<T>)
    ensures i < |s| ==> |r| == |s| - 1 && multiset(r) + multiset{s[i]} == multiset(s)
    ensures i < |s| ==> forall k :: 0 <= k < |r| ==> r[k] == if k < i then s[k] else s[k + 1]
    ensures i >= |s| ==> r == s
  {
    if i < |s| then
      assert s == s[..i] + [s[i]] + s[i + 1..];
      s[..i] + s[i + 1..]
    else s
  }

  // ---------------------------------------------------------------------
  // The page
  // ---------------------------------------------------------------------

  class Tab1Page {
    const settings: Settings.SettingsStore
    var sensorList: seq<SensorData>
    var indexOf: map<int, int>

    var isEditSensor: bool
    var isNewSensor: bool
    var isDeleteSensor: bool
    var isCleanSensor: bool

    var editName: string
    var editUnit: string
    var editSoapId: string
    var editRxId: int
    var editIndex: int
    var sensorDataCount: int

    /** `removeMeasurementsFromSensor` calls, oldest first. */
    var cleanRequests: seq<int>

    /** The map points every key at a position holding that `rx_id`, and an
        edit or delete in progress names an existing position. */
    predicate Valid()
      reads this
    {
      && (forall id :: id in indexOf ==> 0 <= indexOf[id] < |sensorList| && sensorList[indexOf[id]].rxId == id)
      && editIndex >= 0
      && ((isEditSensor || isDeleteSensor) ==> editIndex < |sensorList|)
    }

    /** No dialog open: all flags down and all fields cleared. */
    predicate Idle()
      reads this
    {
      && !isNewSensor && !isDeleteSensor && !isEditSensor && !isCleanSensor
      && editName == "" && editUnit == "" && editSoapId == "" && editRxId == 0 && editIndex == 0
    }

    constructor (settings: Settings.SettingsStore)
      ensures Valid() && Idle()
      ensures this.settings == settings
      ensures sensorList == [] && indexOf == map[] && sensorDataCount == 0 && cleanRequests == []
    {
      this.settings := settings;
      sensorList := [];
      indexOf := map[];
      isEditSensor, isNewSensor, isDeleteSensor, isCleanSensor := false, false, false, false;
      editName, editUnit, editSoapId, editRxId, editIndex := "", "", "", 0, 0;
      sensorDataCount := 0;
      cleanRequests := [];
    }

    /** updateMap: rebuild the map from the current list. */
    method UpdateMap()
      modifies this`indexOf
      ensures indexOf == IndexMap(sensorList)
    {
      indexOf := map[];
      var i := 0;
      while i < |sensorList|
        invariant 0 <= i <= |sensorList|
        invariant indexOf == IndexMap(sensorList[..i])
      {
        assert sensorList[..i + 1][..i] == sensorList[..i];
        indexOf := indexOf[sensorList[i].rxId := i];
        i := i + 1;
      }
      assert sensorList[..i] == sensorList;
    }

    /** handleReorder's loop for a move toward the end (`to > from`): the
        index counts up from `from` to `to - 1` and each of those positions
        takes its right neighbour, so those elements move down one place. */
    method ShiftDown(from: nat, to: nat)
      requires from <= to < |sensorList|
      modifies this`sensorList
      ensures |sensorList| == |old(sensorList)|
      ensures forall k :: from <= k < to ==> sensorList[k] == old(sensorList)[k + 1]
      ensures forall k :: 0 <= k < |sensorList| && (k < from || k >= to) ==> sensorList[k] == old(sensorList)[k]
    {
      var i := from;
      while i < to
        invariant from <= i <= to
        invariant |sensorList| == |old(sensorList)|
        invariant forall k :: from <= k < i ==> sensorList[k] == old(sensorList)[k + 1]
        invariant forall k :: 0 <= k < |sensorList| && (k < from || k >= i) ==> sensorList[k] == old(sensorList)[k]
      {
        sensorList := sensorList[i := sensorList[i + 1]];
        i := i + 1;
      }
    }

    /** handleReorder's loop for a move toward the front (`to <= from`): the
        index counts down from `from` to `to + 1` and each of those positions
        takes its left neighbour, so those elements move up one place. */
    method ShiftUp(from: nat, to: nat)
      requires to <= from < |sensorList|
      modifies this`sensorList
      ensures |sensorList| == |old(sensorList)|
      ensures forall k :: to < k <= from ==> sensorList[k] == old(sensorList)[k - 1]
      ensures forall k :: 0 <= k < |sensorList| && (k > from || k <= to) ==> sensorList[k] == old(sensorList)[k]
    {
      var i := from;
      while i > to
        invariant to <= i <= from
        invariant |sensorList| == |old(sensorList)|
        invariant forall k :: i < k <= from ==> sensorList[k] == old(sensorList)[k - 1]
        invariant forall k :: 0 <= k < |sensorList| && (k > from || k <= i) ==> sensorList[k] == old(sensorList)[k]
      {
        sensorList := sensorList[i := sensorList[i - 1]];
        i := i - 1;
      }
    }

    /** The in-place part of handleReorder: keep the element at `from`,
        shift the ones in between by one place toward `from`, and put it
        down at `to`. */
    method MoveInPlace(from: nat, to: nat)
      requires from < |sensorList| && to < |sensorList|
      modifies this`sensorList
      ensures sensorList == Moved(old(sensorList), from, to)
    {
      var temp := sensorList[from];
      if to > from {
        ShiftDown(from, to);
      } else {
        ShiftUp(from, to);
      }
      sensorList := sensorList[to := temp];
      forall k | 0 <= k < |sensorList|
        ensures sensorList[k] == Moved(old(sensorList), from, to)[k]
      {
        MovedAt(old(sensorList), from, to, k);
      }
    }

    /** handleReorder: move the element, store the list, rebuild the map. */
    method HandleReorder(from: nat, to: nat)
      requires from < |sensorList| && to < |sensorList|
      requires Valid()
      modifies this`sensorList, this`indexOf, settings`sensorDeviceData
      ensures Valid()
      ensures sensorList == Moved(old(sensorList), from, to)
      ensures settings.sensorDeviceData == sensorList
      ensures indexOf == IndexMap(sensorList)
    {
      MoveInPlace(from, to);
      settings.SetSensors(sensorList);
      UpdateMap();
    }

    /** setDefault: close the dialog. */
    method SetDefault()
      modifies this`editName, this`editUnit, this`editSoapId, this`editRxId, this`editIndex
      modifies this`isNewSensor, this`isDeleteSensor, this`isEditSensor, this`isCleanSensor
      ensures Idle()
    {
      editName, editUnit, editSoapId, editRxId, editIndex := "", "", "", 0, 0;
      isNewSensor, isDeleteSensor, isEditSensor, isCleanSensor := false, false, false, false;
    }

    /** cancel: close the dialog without changing the list. */
    method Cancel()
      requires Valid()
      modifies this`editName, this`editUnit, this`editSoapId, this`editRxId, this`editIndex
      modifies this`isNewSensor, this`isDeleteSensor, this`isEditSensor, this`isCleanSensor
      ensures Valid() && Idle()
    {
      SetDefault();
    }

    /** The list `confirm` leaves: the record appended (new), written over
        the edited position (edit), or the edited position removed (delete). */
    function Confirmed(record: SensorData): (r: seq<SensorData>)
      requires (isEditSensor || isDeleteSensor) ==> editIndex < |sensorList|
      requires editIndex >= 0
      reads this
      ensures isNewSensor && !isEditSensor && !isDeleteSensor ==> r == sensorList + [record]
      ensures !isNewSensor && isEditSensor && !isDeleteSensor ==> r == sensorList[editIndex := record]
      ensures !isNewSensor && !isEditSensor && isDeleteSensor ==> r == RemoveAt(sensorList, editIndex)
      ensures !isNewSensor && !isEditSensor && !isDeleteSensor ==> r == sensorList
    {
      var added := if isNewSensor then sensorList + [record] else sensorList;
      var edited := if isEditSensor then added[editIndex := record] else added;
      if isDeleteSensor then RemoveAt(edited, editIndex) else edited
    }

    /** The list changes of confirm, in the order the code makes them. */
    method ApplyDialog(record: SensorData)
      requires (isEditSensor || isDeleteSensor) ==> editIndex < |sensorList|
      requires editIndex >= 0
      modifies this`sensorList
      ensures sensorList == old(Confirmed(record))
    {
      if isNewSensor {
        sensorList := sensorList + [record];
      }
      if isEditSensor {
        sensorList := sensorList[editIndex := record];
      }
      if isDeleteSensor {
        sensorList := RemoveAt(sensorList, editIndex);
      }
    }

    /** confirm: fill in the defaults, change the list as the flags say, ask
        for the sensor's measurements to be removed (clean), store the list,
        rebuild the map and close the dialog. */
    method Confirm()
      requires Valid()
      modifies this`sensorList, this`indexOf, this`cleanRequests, settings`sensorDeviceData
      modifies this`editName, this`editUnit, this`editSoapId, this`editRxId, this`editIndex
      modifies this`isNewSensor, this`isDeleteSensor, this`isEditSensor, this`isCleanSensor
      ensures Valid() && Idle()
      ensures sensorList == old(Confirmed(ConfirmedSensor(editRxId, editSoapId, editName, editUnit)))
      ensures cleanRequests == old(cleanRequests) + if old(isCleanSensor) then [old(editRxId)] else []
      ensures settings.sensorDeviceData == sensorList
      ensures indexOf == IndexMap(sensorList)
    {
      // The code writes the defaults into the dialog fields before building
      // the record; `SetDefault` clears those fields again below.
      var record := ConfirmedSensor(editRxId, editSoapId, editName, editUnit);
      ApplyDialog(record);
      if isCleanSensor {
        cleanRequests := cleanRequests + [editRxId];
      }
      settings.SetSensors(sensorList);
      UpdateMap();
      SetDefault();
    }

    /** Fill the dialog from the sensor at `index`. */
    method LoadFields(index: nat)
      requires index < |sensorList|
      modifies this`editName, this`editUnit, this`editSoapId, this`editRxId, this`editIndex
      ensures editName == sensorList[index].name && editUnit == sensorList[index].unit
      ensures editSoapId == sensorList[index].soapId && editRxId == sensorList[index].rxId
      ensures editIndex == index
    {
      editName := sensorList[index].name;
      editUnit := sensorList[index].unit;
      editRxId := sensorList[index].rxId;
      editSoapId := sensorList[index].soapId;
      editIndex := index;
    }

    /** new: an empty dialog for a sensor whose `rx_id` is the current time
        in milliseconds. */
    method New(now: int)
      requires Valid()
      modifies this`editName, this`editUnit, this`editSoapId, this`editRxId, this`editIndex, this`sensorDataCount
      modifies this`isNewSensor, this`isDeleteSensor, this`isEditSensor, this`isCleanSensor
      ensures Valid()
      ensures editName == "" && editUnit == "" && editSoapId == "" && editRxId == now && editIndex == 0
      ensures sensorDataCount == 0
      ensures isNewSensor && !isDeleteSensor && !isEditSensor && !isCleanSensor
    {
      editName, editUnit, editRxId, editSoapId, editIndex := "", "", now, "", 0;
      sensorDataCount := 0;
      isNewSensor, isDeleteSensor, isEditSensor, isCleanSensor := true, false, false, false;
    }

    /** edit: the dialog filled from the sensor at `index`, in edit mode. */
    method Edit(index: nat)
      requires Valid() && index < |sensorList|
      modifies this`editName, this`editUnit, this`editSoapId, this`editRxId, this`editIndex, this`sensorDataCount
      modifies this`isNewSensor, this`isDeleteSensor, this`isEditSensor, this`isCleanSensor
      ensures Valid()
      ensures editName == sensorList[index].name && editUnit == sensorList[index].unit
      ensures editSoapId == sensorList[index].soapId && editRxId == sensorList[index].rxId
      ensures editIndex == index && sensorDataCount == 0
      ensures !isNewSensor && !isDeleteSensor && isEditSensor && !isCleanSensor
    {
      LoadFields(index);
      sensorDataCount := 0;
      isNewSensor, isDeleteSensor, isEditSensor, isCleanSensor := false, false, true, false;
    }

    /** delete: the dialog filled from the sensor at `index`, with the number
        of its stored measurements, in delete mode. */
    method Delete(index: nat, measurementCount: int)
      requires Valid() && index < |sensorList|
      modifies this`editName, this`editUnit, this`editSoapId, this`editRxId, this`editIndex, this`sensorDataCount
      modifies this`isNewSensor, this`isDeleteSensor, this`isEditSensor, this`isCleanSensor
      ensures Valid()
      ensures editName == sensorList[index].name && editUnit == sensorList[index].unit
      ensures editSoapId == sensorList[index].soapId && editRxId == sensorList[index].rxId
      ensures editIndex == index && sensorDataCount == measurementCount
      ensures !isNewSensor && isDeleteSensor && !isEditSensor && !isCleanSensor
    {
      LoadFields(index);
      sensorDataCount := measurementCount;
      isNewSensor, isDeleteSensor, isEditSensor, isCleanSensor := false, true, false, false;
    }

    /** clean: the dialog filled from the sensor at `index`, with the number
        of its stored measurements, in clean mode. */
    method Clean(index: nat, measurementCount: int)
      requires Valid() && index < |sensorList|
      modifies this`editName, this`editUnit, this`editSoapId, this`editRxId, this`editIndex, this`sensorDataCount
      modifies this`isNewSensor, this`isDeleteSensor, this`isEditSensor, this`isCleanSensor
      ensures Valid()
      ensures editName == sensorList[index].name && editUnit == sensorList[index].unit
      ensures editSoapId == sensorList[index].soapId && editRxId == sensorList[index].rxId
      ensures editIndex == index && sensorDataCount == measurementCount
      ensures !isNewSensor && !isDeleteSensor && !isEditSensor && isCleanSensor
    {
      LoadFields(index);
      sensorDataCount := measurementCount;
      isNewSensor, isDeleteSensor, isEditSensor, isCleanSensor := false, false, false, true;
    }

    /** The lastUpdate handler: a reading for a known sensor sets its value
        and (already formatted) date; a reading for an unknown id is ignored. */
    method OnLastUpdate(id: int, value: Number, formatted: string)
      requires Valid()
      modifies this`sensorList
      ensures Valid()
      ensures id !in indexOf ==> sensorList == old(sensorList)
      ensures id in indexOf ==>
        sensorList == old(sensorList)[indexOf[id] := old(sensorList)[indexOf[id]].(value := Some(value), timestamp := Some(formatted))]
      ensures id in indexOf ==> sensorList[indexOf[id]].rxId == id
    {
      if id !in indexOf {
        return;
      }
      var i := indexOf[id];
      sensorList := sensorList[i := sensorList[i].(value := Some(value), timestamp := Some(formatted))];
    }

    /** ngOnInit, up to its subscriptions: reload the stored sensors, show
        each through `toSensorData`, rebuild the map and close the dialog. */
    method NgOnInit(storedSensors: Option<seq<SensorData>>)
      modifies this`sensorList, this`indexOf, settings`sensorDeviceData
      modifies this`editName, this`editUnit, this`editSoapId, this`editRxId, this`editIndex
      modifies this`isNewSensor, this`isDeleteSensor, this`isEditSensor, this`isCleanSensor
      ensures Valid() && Idle()
      ensures settings.sensorDeviceData == if storedSensors.Some? then storedSensors.value else []
      ensures |sensorList| == |settings.sensorDeviceData|
      ensures forall k :: 0 <= k < |sensorList| ==> sensorList[k] == ToSensorData(settings.sensorDeviceData[k])
      ensures indexOf == IndexMap(sensorList)
    {
      settings.ReadSensors(storedSensors);
      var sensors := settings.sensorDeviceData;
      sensorList := [];
      var i := 0;
      while i < |sensors|
        invariant 0 <= i <= |sensors|
        invariant |sensorList| == i
        invariant forall k :: 0 <= k < i ==> sensorList[k] == ToSensorData(sensors[k])
        invariant settings.sensorDeviceData == sensors
      {
        sensorList := sensorList + [ToSensorData(sensors[i])];
        i := i + 1;
      }
      UpdateMap();
      SetDefault();
    }
  }
}
