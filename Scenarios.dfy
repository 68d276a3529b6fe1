/**
 * The device scenarios: two devices, the second given a `sampleRate`, and the
 * components and data items added beneath the first. Each method builds its
 * own arena of components and states in its postcondition what the device
 * model answers.
 */
module Scenarios {
  import opened Wrappers
  import opened Device

  function AttributesA(): map<string, string> {
    map["id" := "1", "name" := "DeviceTest1", "uuid" := "UnivUniqId1", "iso841Class" := "4"]
  }

  function AttributesB(): map<string, string> {
    map["id" := "3", "name" := "DeviceTest2", "uuid" := "UnivUniqId2", "sampleRate" := "123.4", "iso841Class" := "6"]
  }

  function Item(id: string, name: Option<string>, source: Option<string>): DataItem {
    DataItem(id, "A", "EVENT", name, source, false)
  }

  /** A device created from the first set of attributes. */
  method DeviceA() returns (m: DeviceModel, a: nat)
    ensures fresh(m) && m.Valid() && a < |m.components|
    ensures a == 0 && m.components == [Component(DeviceClass, DeviceAttributes(AttributesA()), None, [], [], [], map[], [])]
  {
    m := new DeviceModel();
    a := m.NewDevice(AttributesA());
  }

  /** A device created from the second set of attributes, which gives a `sampleRate`. */
  method DeviceB() returns (m: DeviceModel, b: nat)
    ensures fresh(m) && m.Valid() && b < |m.components|
    ensures m.components[b].className == DeviceClass && m.components[b].attributes == DeviceAttributes(AttributesB())
  {
    m := new DeviceModel();
    b := m.NewDevice(AttributesB());
  }

  /** A device's class and id are those it was created with. */
  method GettersA() returns (classA: string, idA: Option<string>)
    ensures classA == DeviceClass && idA == Some("1")
  {
    var m, a := DeviceA();
    assert |"id"| == 2 && |"sampleRate"| == 10 && |"sampleInterval"| == 14;
    classA := m.components[a].className;
    idA := m.GetAttribute(a, "id");
  }

  /** A device's uuid and class attribute are those it was created with. */
  method GettersB() returns (uuidB: Option<string>, classB: Option<string>)
    ensures uuidB == Some("UnivUniqId2") && classB == Some("6")
  {
    var m, b := DeviceB();
    assert |"uuid"| == 4 && |"iso841Class"| == 11 && |"sampleRate"| == 10 && |"sampleInterval"| == 14;
    uuidB := m.GetAttribute(b, "uuid");
    classB := m.GetAttribute(b, "iso841Class");
  }

  /** A device created without `sampleRate` has neither `sampleRate` nor `sampleInterval`. */
  method GetAttributesA() returns (rateA: Option<string>, intervalA: Option<string>)
    ensures rateA == None && intervalA == None
  {
    var m, a := DeviceA();
    rateA := m.GetAttribute(a, "sampleRate");
    intervalA := m.GetAttribute(a, "sampleInterval");
  }

  /** A device created with `sampleRate` keeps its value as `sampleInterval` only. */
  method GetAttributesB() returns (rateB: Option<string>, intervalB: Option<string>)
    ensures rateB == None && intervalB == Some("123.4")
  {
    var m, b := DeviceB();
    rateB := m.GetAttribute(b, "sampleRate");
    intervalB := m.GetAttribute(b, "sampleInterval");
  }

  /** Description attributes that were given are returned; one that was not reads as empty. */
  method Description() returns (manufacturer: string, station: string, body: string)
    ensures manufacturer == "MANUFACTURER" && station == [] && body == "Machine 1"
  {
    var m, a := DeviceA();
    m.AddDescription(a, "Machine 1", map["manufacturer" := "MANUFACTURER", "serialNumber" := "SERIAL_NUMBER"]);
    manufacturer := m.GetDescription(a, "manufacturer");
    station := m.GetDescription(a, "station");
    body := m.components[a].descriptionBody;
  }

  /** The first device with two components, Linear and Controller, added beneath it. */
  method TwoChildren() returns (m: DeviceModel, a: nat, linear: nat, controller: nat)
    ensures fresh(m) && m.Valid() && a < |m.components| && linear < |m.components| && controller < |m.components|
    ensures |m.components| == 3 && a == 0 && linear == 1 && controller == 2
    ensures m.components[a].className == DeviceClass && m.components[a].parent == None
    ensures m.components[a].children == [linear, controller]
    ensures m.components[linear].className == "Linear" && m.components[linear].parent == Some(a)
    ensures m.components[controller].className == "Controller" && m.components[controller].parent == Some(a)
  {
    m, a := DeviceA();
    linear := m.NewComponent("Linear", map[]);
    m.AddChild(a, linear);
    controller := m.NewComponent("Controller", map[]);
    m.AddChild(a, controller);
  }

  /** Components added to a device have it as parent and as device. */
  method Relationships() returns (parents: seq<Option<nat>>, devices: seq<Option<nat>>)
    ensures parents == [Some(0), Some(0)]
    ensures devices == [Some(0), Some(0), Some(0)]
  {
    var m, a, linear, controller := TwoChildren();
    parents := [m.GetParent(linear), m.GetParent(controller)];
    var da := m.GetDevice(a);
    var dl := m.GetDevice(linear);
    var dc := m.GetDevice(controller);
    devices := [da, dl, dc];
  }

  /** The children of a device keep the order they were added in. */
  method Children() returns (children: seq<nat>)
    ensures children == [1, 2, 3, 4]
  {
    var m, a, linear, controller := TwoChildren();
    var axes := m.NewComponent("Axes", map[]);
    m.AddChild(a, axes);
    var thermostat := m.NewComponent("Thermostat", map[]);
    m.AddChild(a, thermostat);
    children := m.GetChildren(a);
  }

  /** Data items added to a device are its data items, in order. */
  method DataItems() returns (before: seq<DataItem>, after: seq<DataItem>)
    ensures before == []
    ensures after == [Item("a", None, None), Item("b", None, None)]
  {
    var m, a := DeviceA();
    before := m.GetDataItems(a);
    m.AddDataItem(a, Item("a", None, None));
    m.AddDataItem(a, Item("b", None, None));
    after := m.GetDataItems(a);
  }

  /** A new device has no data items registered and finds none. */
  method DeviceDataItemEmpty() returns (registered: seq<DataItem>, missing: Option<DataItem>)
    ensures registered == [] && missing == None
  {
    var m, a := DeviceA();
    registered := m.GetDeviceDataItems(a);
    missing := m.GetDeviceDataItem(a, "DataItemTest1");
  }

  /** A device finds the data items registered with it by id. */
  method DeviceDataItem() returns (count: nat, found1: Option<DataItem>, found2: Option<DataItem>)
    ensures count == 2
    ensures found1 == Some(Item("DataItemTest1", None, None))
    ensures found2 == Some(Item("DataItemTest2", None, None))
  {
    var m, a := DeviceA();
    var d1 := Item("DataItemTest1", None, None);
    var d2 := Item("DataItemTest2", None, None);
    m.AddDataItem(a, d1);
    m.AddDataItem(a, d2);
    count := |m.GetDeviceDataItems(a)|;
    LookupById([d1, d2], "DataItemTest1", 0);
    LookupById([d1, d2], "DataItemTest2", 1);
    found1 := m.GetDeviceDataItem(a, "DataItemTest1");
    found2 := m.GetDeviceDataItem(a, "DataItemTest2");
  }

  function D1(): DataItem { Item("by_id", Some("by_name"), Some("by_source")) }
  function D2(): DataItem { Item("by_id2", Some("by_name2"), Some("by_source2")) }
  function D3(): DataItem { Item("by_id3", Some("by_name3"), Some("by_source3")) }

  /** The first device with three data items added, each with an id, a name and a Source value. */
  method ThreeItems() returns (m: DeviceModel, a: nat)
    ensures fresh(m) && m.Valid() && a < |m.components|
    ensures m.components[a].deviceDataItems == [D1(), D2(), D3()]
  {
    m, a := DeviceA();
    m.AddDataItem(a, D1());
    m.AddDataItem(a, D2());
    m.AddDataItem(a, D3());
  }

  /** A device finds a data item by its id. */
  method GetDataItemById() returns (r1: Option<DataItem>, r3: Option<DataItem>)
    ensures r1 == Some(D1()) && r3 == Some(D3())
  {
    var m, a := ThreeItems();
    LookupById([D1(), D2(), D3()], "by_id", 0);
    LookupById([D1(), D2(), D3()], "by_id3", 2);
    r1 := m.GetDeviceDataItem(a, "by_id");
    r3 := m.GetDeviceDataItem(a, "by_id3");
  }

  /** A device finds a data item by its name when no id matches. */
  method GetDataItemByName() returns (r1: Option<DataItem>, r2: Option<DataItem>)
    ensures r1 == Some(D1()) && r2 == Some(D2())
  {
    var m, a := ThreeItems();
    LookupByName([D1(), D2(), D3()], "by_name", 0);
    LookupByName([D1(), D2(), D3()], "by_name2", 1);
    r1 := m.GetDeviceDataItem(a, "by_name");
    r2 := m.GetDeviceDataItem(a, "by_name2");
  }

  /** A device finds a data item by its Source value when no id or name matches. */
  method GetDataItemBySource() returns (r2: Option<DataItem>, r3: Option<DataItem>)
    ensures r2 == Some(D2()) && r3 == Some(D3())
  {
    var m, a := ThreeItems();
    LookupBySource([D1(), D2(), D3()], "by_source2", 1);
    LookupBySource([D1(), D2(), D3()], "by_source3", 2);
    r2 := m.GetDeviceDataItem(a, "by_source2");
    r3 := m.GetDeviceDataItem(a, "by_source3");
  }
}
