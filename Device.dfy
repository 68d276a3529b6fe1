/**
 * The device model: a tree of components rooted at devices, each component
 * with its attributes, children and data items, and each device with a
 * registry of every data item added beneath it.
 *
 * Components live in an arena (`DeviceModel.components`) and refer to each
 * other by index: a parent index and a list of child indexes. A ghost rank,
 * strictly larger for a child than for its parent, shows that walking up
 * the parents always ends.
 */
module Device {
  import opened Wrappers

  /** A data item: id, type and category, and the optional name and Source value it may be looked up by. */
  datatype DataItem = DataItem(id: string, kind: string, category: string, name: Option<string>, source: Option<string>, discrete: bool)

  datatype Component = Component(
    className: string,
    attributes: map<string, string>,
    parent: Option<nat>,
    children: seq<nat>,
    dataItems: seq<DataItem>,
    deviceDataItems: seq<DataItem>,
    description: map<string, string>,
    descriptionBody: string)

  /** The class name of a device; every other component carries its element name ("Linear", "Axes", ...). */
  const DeviceClass := "Device"

  predicate IsDevice(c: Component) {
    c.className == DeviceClass
  }

  /** Parents and children are components of the arena, and every parent ranks below its children. */
  ghost predicate WellFormed(comps: seq<Component>, rank: seq<nat>) {
    && |rank| == |comps|
    && (forall i :: 0 <= i < |comps| && comps[i].parent.Some? ==>
          comps[i].parent.value < |comps| && rank[comps[i].parent.value] < rank[i])
    && (forall i, j :: 0 <= i < |comps| && 0 <= j < |comps[i].children| ==> comps[i].children[j] < |comps|)
  }

  /** The component itself and all the components above it. */
  ghost function AncestorsOrSelf(comps: seq<Component>, rank: seq<nat>, i: nat): (r: set<nat>)
    requires WellFormed(comps, rank) && i < |comps|
    ensures i in r
    ensures forall a :: a in r ==> a < |comps|
    decreases rank[i]
  {
    {i} + (if comps[i].parent.None? then {} else AncestorsOrSelf(comps, rank, comps[i].parent.value))
  }

  /** The device a component belongs to: the nearest device at or above it, if any. */
  ghost function DeviceOf(comps: seq<Component>, rank: seq<nat>, i: nat): (r: Option<nat>)
    requires WellFormed(comps, rank) && i < |comps|
    ensures r.Some? ==> r.value in AncestorsOrSelf(comps, rank, i) && IsDevice(comps[r.value])
    ensures r.None? ==> forall a :: a in AncestorsOrSelf(comps, rank, i) ==> !IsDevice(comps[a])
    decreases rank[i]
  {
    if IsDevice(comps[i]) then Some(i)
    else if comps[i].parent.None? then None
    else DeviceOf(comps, rank, comps[i].parent.value)
  }

  /** The attributes a new device keeps: `sampleRate` is renamed `sampleInterval`. */
  function DeviceAttributes(attrs: map<string, string>): (r: map<string, string>)
    ensures "sampleRate" !in r
    ensures forall k :: k != "sampleRate" && k != "sampleInterval" ==> (k in r <==> k in attrs) && (k in r ==> r[k] == attrs[k])
    ensures "sampleRate" in attrs ==> "sampleInterval" in r && r["sampleInterval"] == attrs["sampleRate"]
    ensures "sampleRate" !in attrs ==> r == attrs
  {
    if "sampleRate" in attrs then (attrs - {"sampleRate"})["sampleInterval" := attrs["sampleRate"]] else attrs
  }

  // ----- Looking data items up by id, name or Source value -----

  datatype Field = ById | ByName | BySource

  predicate Matches(d: DataItem, f: Field, key: string) {
    match f
    case ById => d.id == key
    case ByName => d.name == Some(key)
    case BySource => d.source == Some(key)
  }

  /** The position of the first data item that matches `key` on field `f`. */
  function FindIndex(items: seq<DataItem>, f: Field, key: string): (r: Option<nat>)
    ensures r.Some? ==> r.value < |items| && Matches(items[r.value], f, key)
    ensures r.Some? ==> forall j :: 0 <= j < r.value ==> !Matches(items[j], f, key)
    ensures r.None? ==> forall j :: 0 <= j < |items| ==> !Matches(items[j], f, key)
  {
    if items == [] then None
    else if Matches(items[0], f, key) then Some(0)
    else match FindIndex(items[1..], f, key)
      case None => None
      case Some(j) => Some(j + 1)
  }

  /** Looks a data item up by id, then by name, then by Source value. */
  function LookupDataItem(items: seq<DataItem>, key: string): (r: Option<DataItem>)
    ensures r.Some? ==> r.value in items
    ensures r.Some? ==> Matches(r.value, ById, key) || Matches(r.value, ByName, key) || Matches(r.value, BySource, key)
  {
    match FindIndex(items, ById, key)
    case Some(i) => Some(items[i])
    case None =>
      match FindIndex(items, ByName, key)
      case Some(i) => Some(items[i])
      case None =>
        match FindIndex(items, BySource, key)
        case Some(i) => Some(items[i])
        case None => None
  }

  /** A lookup finds something exactly when some item has that id, name or Source value. */
  lemma LookupFound(items: seq<DataItem>, key: string)
    ensures LookupDataItem(items, key).Some? <==>
      exists j :: 0 <= j < |items| && (Matches(items[j], ById, key) || Matches(items[j], ByName, key) || Matches(items[j], BySource, key))
  {
    if LookupDataItem(items, key).None? {
      assert forall j :: 0 <= j < |items| ==> !Matches(items[j], ById, key) && !Matches(items[j], ByName, key) && !Matches(items[j], BySource, key);
    }
  }

  /** An id takes precedence: when an item has id `key`, the lookup returns the first such item. */
  lemma LookupById(items: seq<DataItem>, key: string, i: nat)
    requires i < |items| && items[i].id == key
    requires forall j :: 0 <= j < i ==> items[j].id != key
    ensures LookupDataItem(items, key) == Some(items[i])
  {
    assert Matches(items[i], ById, key);
    var k := FindIndex(items, ById, key);
    assert k.Some? && k.value == i by {
      if k.None? || k.value < i || k.value > i {
        assert false;
      }
    }
  }

  /** Where no id matches, the lookup returns the first item with name `key`. */
  lemma LookupByName(items: seq<DataItem>, key: string, i: nat)
    requires forall j :: 0 <= j < |items| ==> items[j].id != key
    requires i < |items| && items[i].name == Some(key)
    requires forall j :: 0 <= j < i ==> items[j].name != Some(key)
    ensures LookupDataItem(items, key) == Some(items[i])
  {
    assert FindIndex(items, ById, key).None? by {
      if FindIndex(items, ById, key).Some? {
        assert false;
      }
    }
    assert Matches(items[i], ByName, key);
    var k := FindIndex(items, ByName, key);
    assert k.Some? && k.value == i by {
      if k.None? || k.value < i || k.value > i {
        assert false;
      }
    }
  }

  /** Where no id and no name matches, the lookup returns the first item with Source value `key`. */
  lemma LookupBySource(items: seq<DataItem>, key: string, i: nat)
    requires forall j :: 0 <= j < |items| ==> items[j].id != key && items[j].name != Some(key)
    requires i < |items| && items[i].source == Some(key)
    requires forall j :: 0 <= j < i ==> items[j].source != Some(key)
    ensures LookupDataItem(items, key) == Some(items[i])
  {
    assert FindIndex(items, ById, key).None? by {
      if FindIndex(items, ById, key).Some? {
        assert false;
      }
    }
    assert FindIndex(items, ByName, key).None? by {
      if FindIndex(items, ByName, key).Some? {
        assert false;
      }
    }
    assert Matches(items[i], BySource, key);
    var k := FindIndex(items, BySource, key);
    assert k.Some? && k.value == i by {
      if k.None? || k.value < i || k.value > i {
        assert false;
      }
    }
  }

  // ----- Properties of the tree -----

  /** The parent of an ancestor is an ancestor too. */
  lemma {:induction false} AncestorsClosed(comps: seq<Component>, rank: seq<nat>, p: nat, x: nat)
    requires WellFormed(comps, rank) && p < |comps|
    requires x in AncestorsOrSelf(comps, rank, p) && comps[x].parent.Some?
    ensures comps[x].parent.value in AncestorsOrSelf(comps, rank, p)
    decreases rank[p]
  {
    if x != p {
      AncestorsClosed(comps, rank, comps[p].parent.value, x);
    }
  }

  /** A component that is not a device belongs to the device of its parent. */
  lemma DeviceOfChild(comps: seq<Component>, rank: seq<nat>, c: nat)
    requires WellFormed(comps, rank) && c < |comps|
    requires comps[c].parent.Some? && !IsDevice(comps[c])
    ensures DeviceOf(comps, rank, c) == DeviceOf(comps, rank, comps[c].parent.value)
  {
  }

  /** The device of a component depends only on the class names and parents of the components at or above it. */
  lemma {:induction false} DeviceOfFrame(comps1: seq<Component>, rank1: seq<nat>, comps2: seq<Component>, rank2: seq<nat>, i: nat)
    requires WellFormed(comps1, rank1) && WellFormed(comps2, rank2) && i < |comps1| && i < |comps2|
    requires forall a :: a in AncestorsOrSelf(comps1, rank1, i) ==>
      a < |comps2| && comps2[a].className == comps1[a].className && comps2[a].parent == comps1[a].parent
    ensures DeviceOf(comps1, rank1, i) == DeviceOf(comps2, rank2, i)
    decreases rank1[i]
  {
    if !IsDevice(comps1[i]) && comps1[i].parent.Some? {
      DeviceOfFrame(comps1, rank1, comps2, rank2, comps1[i].parent.value);
    }
  }

  /** The arena of components of one agent. */
  class DeviceModel {
    var components: seq<Component>
    ghost var rank: seq<nat>

    ghost predicate Valid()
      reads this
    {
      WellFormed(components, rank)
    }

    constructor()
      ensures Valid() && components == []
    {
      components := [];
      rank := [];
    }

    /** Creates a device from its attributes; it has no parent, children or data items. */
    method NewDevice(attrs: map<string, string>) returns (i: nat)
      requires Valid()
      modifies this
      ensures Valid() && i == |old(components)|
      ensures components == old(components) + [Component(DeviceClass, DeviceAttributes(attrs), None, [], [], [], map[], [])]
    {
      i := |components|;
      components := components + [Component(DeviceClass, DeviceAttributes(attrs), None, [], [], [], map[], [])];
      rank := rank + [0];
    }

    /** Creates a component with the given element name and attributes. */
    method NewComponent(className: string, attrs: map<string, string>) returns (i: nat)
      requires Valid()
      modifies this
      ensures Valid() && i == |old(components)|
      ensures components == old(components) + [Component(className, attrs, None, [], [], [], map[], [])]
    {
      i := |components|;
      components := components + [Component(className, attrs, None, [], [], [], map[], [])];
      rank := rank + [0];
    }

    /**
     * Appends `c` to the children of `p` and makes `p` the parent of `c`.
     * `c` must not be `p` or above it: the parent chain would otherwise loop.
     */
    method AddChild(p: nat, c: nat)
      requires Valid() && p < |components| && c < |components|
      requires c !in AncestorsOrSelf(components, rank, p)
      modifies this
      ensures Valid() && |components| == |old(components)|
      ensures components[c] == old(components[c]).(parent := Some(p))
      ensures components[p] == old(components[p]).(children := old(components[p].children) + [c])
      ensures forall x :: 0 <= x < |components| && x != c && x != p ==> components[x] == old(components[x])
      ensures DeviceOf(components, rank, p) == DeviceOf(old(components), old(rank), p)
      ensures !IsDevice(components[c]) ==> DeviceOf(components, rank, c) == DeviceOf(old(components), old(rank), p)
    {
      ghost var above := AncestorsOrSelf(components, rank, p);
      ghost var old_ := rank;
      ghost var lift := rank[p] + 1;
      ghost var newRank := seq(|old_|, x requires 0 <= x < |old_| => if x in above then old_[x] else old_[x] + lift);
      var comps := components[c := components[c].(parent := Some(p))];
      comps := comps[p := comps[p].(children := comps[p].children + [c])];
      forall x | 0 <= x < |comps| && comps[x].parent.Some?
        ensures comps[x].parent.value < |comps| && newRank[comps[x].parent.value] < newRank[x]
      {
        if x != c {
          assert comps[x].parent == components[x].parent;
          if x in above {
            AncestorsClosed(components, rank, p, x);
          }
        }
      }
      assert WellFormed(comps, newRank);
      forall a | a in above
        ensures a < |comps| && comps[a].className == components[a].className && comps[a].parent == components[a].parent
      {
      }
      DeviceOfFrame(components, rank, comps, newRank, p);
      components := comps;
      rank := newRank;
    }

    /** The parent of a component. */
    function GetParent(i: nat): (r: Option<nat>)
      requires Valid() && i < |components|
      reads this
      ensures r.Some? ==> r.value < |components|
    {
      components[i].parent
    }

    /** The children of a component, in the order they were added. */
    function GetChildren(i: nat): (r: seq<nat>)
      requires Valid() && i < |components|
      reads this
      ensures forall j :: 0 <= j < |r| ==> r[j] < |components|
    {
      components[i].children
    }

    /** Walks up from `i` to the device it belongs to. */
    method GetDevice(i: nat) returns (r: Option<nat>)
      requires Valid() && i < |components|
      ensures r == DeviceOf(components, rank, i)
    {
      var cur: nat := i;
      while !IsDevice(components[cur]) && components[cur].parent.Some?
        invariant cur < |components|
        invariant DeviceOf(components, rank, cur) == DeviceOf(components, rank, i)
        decreases rank[cur]
      {
        cur := components[cur].parent.value;
      }
      if IsDevice(components[cur]) {
        r := Some(cur);
      } else {
        r := None;
      }
    }

    /** Appends `d` to the data items of component `i` and registers it with the device `i` belongs to. */
    method AddDataItem(i: nat, d: DataItem)
      requires Valid() && i < |components|
      modifies this
      ensures Valid() && |components| == |old(components)| && rank == old(rank)
      ensures var dev := DeviceOf(old(components), old(rank), i);
        && (dev == Some(i) ==> components[i] == old(components[i]).(
              dataItems := old(components[i].dataItems) + [d],
              deviceDataItems := old(components[i].deviceDataItems) + [d]))
        && (dev != Some(i) ==> components[i] == old(components[i]).(dataItems := old(components[i].dataItems) + [d]))
        && (dev.Some? && dev != Some(i) ==>
              components[dev.value] == old(components[dev.value]).(deviceDataItems := old(components[dev.value].deviceDataItems) + [d]))
        && forall x :: 0 <= x < |components| && x != i && dev != Some(x) ==> components[x] == old(components[x])
    {
      var dev := GetDevice(i);
      var comps := components[i := components[i].(dataItems := components[i].dataItems + [d])];
      if dev.Some? {
        var x := dev.value;
        comps := comps[x := comps[x].(deviceDataItems := comps[x].deviceDataItems + [d])];
      }
      components := comps;
    }

    /** Sets the description body and the description attributes of component `i`. */
    method AddDescription(i: nat, body: string, attrs: map<string, string>)
      requires Valid() && i < |components|
      modifies this
      ensures Valid() && |components| == |old(components)| && rank == old(rank)
      ensures components[i] == old(components[i]).(description := attrs, descriptionBody := body)
      ensures forall x :: 0 <= x < |components| && x != i ==> components[x] == old(components[x])
    {
      components := components[i := components[i].(description := attrs, descriptionBody := body)];
    }

    /** A description attribute, or the empty string when it was not given. */
    function GetDescription(i: nat, key: string): (r: string)
      requires Valid() && i < |components|
      reads this
      ensures key in components[i].description ==> r == components[i].description[key]
      ensures key !in components[i].description ==> r == []
    {
      if key in components[i].description then components[i].description[key] else []
    }

    /** An attribute of component `i`, if it was given. */
    function GetAttribute(i: nat, key: string): (r: Option<string>)
      requires Valid() && i < |components|
      reads this
      ensures r.Some? <==> key in components[i].attributes
      ensures r.Some? ==> r.value == components[i].attributes[key]
    {
      if key in components[i].attributes then Some(components[i].attributes[key]) else None
    }

    /** The data items added to component `i`, in order. */
    function GetDataItems(i: nat): seq<DataItem>
      requires Valid() && i < |components|
      reads this
    {
      components[i].dataItems
    }

    /** Every data item registered with device `i`, in order. */
    function GetDeviceDataItems(i: nat): seq<DataItem>
      requires Valid() && i < |components|
      reads this
    {
      components[i].deviceDataItems
    }

    /** The data item of device `i` with id, name or Source value `key`. */
    function GetDeviceDataItem(i: nat, key: string): (r: Option<DataItem>)
      requires Valid() && i < |components|
      reads this
      ensures r.Some? ==> r.value in components[i].deviceDataItems
      ensures r.Some? ==> r.value.id == key || r.value.name == Some(key) || r.value.source == Some(key)
    {
      LookupDataItem(components[i].deviceDataItems, key)
    }
  }
}
