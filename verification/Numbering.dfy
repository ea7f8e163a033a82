/** Boundary-zone types from patch names, and the canonical renumbering of the zones
    (devtools/validation/fluent_repair.py). Ids of zone lines are unique in a mesh file. */
module Numbering {
  import opened Wrappers
  import opened Text
  import opened Sorting

  /** A line of the zone list. */
  datatype Zone = Zone(id: nat, typ: string, name: string)

  /** A boundary zone with the type it is to get. */
  datatype Entry = Entry(id: nat, name: string, typ: string)

  datatype Label = Label(name: string, typ: string)

  const FIRST: nat := 10

  const ROLE_PRIORITY := ["velocity-inlet", "mass-flow-inlet", "pressure-inlet", "pressure-outlet",
                          "outflow", "wall", "symmetry", "pressure-far-field"]

  const NAME_RULES := [("inlet", "velocity-inlet"), ("outlet", "pressure-outlet"), ("wall", "wall"),
                       ("body", "wall"), ("sym", "symmetry"), ("farfield", "velocity-inlet"),
                       ("far-field", "velocity-inlet"), ("far_field", "velocity-inlet")]

  function BcCode(typ: string): Option<nat> {
    if typ == "interior" then Some(2)
    else if typ == "wall" then Some(3)
    else if typ == "pressure-inlet" then Some(4)
    else if typ == "pressure-outlet" then Some(5)
    else if typ == "symmetry" then Some(7)
    else if typ == "pressure-far-field" then Some(9)
    else if typ == "velocity-inlet" then Some(10)
    else if typ == "mass-flow-inlet" then Some(20)
    else if typ == "outflow" then Some(31)
    else None
  }

  type Overrides = map<string, string>

  /** The command line accepts only types with a code. */
  ghost predicate Accepted(overrides: Overrides) {
    forall n :: n in overrides ==> BcCode(overrides[n]).Some?
  }

  predicate StandsAt(s: string, part: string, i: nat) {
    i + |part| <= |s| && s[i..i + |part|] == part
  }

  predicate Contains(s: string, part: string) {
    exists i | 0 <= i <= |s| :: StandsAt(s, part, i)
  }

  function ByRules(low: string, rules: seq<(string, string)>): Option<string> {
    if rules == [] then None
    else if Contains(low, rules[0].0) then Some(rules[0].1)
    else ByRules(low, rules[1..])
  }

  function InferType(name: string, overrides: Overrides): Option<string> {
    var low := Lower(name);
    if low in overrides then Some(overrides[low]) else ByRules(low, NAME_RULES)
  }

  predicate Boundary(z: Zone) { z.typ != "fluid" && z.typ != "interior" }

  /** The type a boundary zone gets: by override, by name, or the one it has. */
  function NewType(z: Zone, overrides: Overrides): string {
    match InferType(z.name, overrides) case Some(t) => t case None => z.typ
  }

  function RoleIn(typ: string, roles: seq<string>): nat {
    if roles == [] then 0 else if roles[0] == typ then 0 else 1 + RoleIn(typ, roles[1..])
  }

  /** Place in the list of roles; types outside it come last, together. */
  function Role(typ: string): nat {
    if typ in ROLE_PRIORITY then RoleIn(typ, ROLE_PRIORITY) else 99
  }

  predicate LabelPrecedes(a: Label, b: Label) {
    Role(a.typ) < Role(b.typ) || (Role(a.typ) == Role(b.typ) && StringLe(a.name, b.name))
  }

  function LabelOf(e: Entry): Label { Label(e.name, e.typ) }

  predicate Precedes(a: Entry, b: Entry) { LabelPrecedes(LabelOf(a), LabelOf(b)) }

  predicate ZoneById(a: Zone, b: Zone) { a.id <= b.id }

  predicate EntryById(a: Entry, b: Entry) { a.id <= b.id }

  function EntryOf(overrides: Overrides): Zone -> Option<Entry> {
    z => if Boundary(z) then Some(Entry(z.id, z.name, NewType(z, overrides))) else None
  }

  /** The boundary zones in the order of their ids. */
  function BoundaryZones(zones: seq<Zone>, overrides: Overrides): seq<Entry> {
    Collect(Sorted(zones, ZoneById), EntryOf(overrides))
  }

  /** The boundary zones by role and name. */
  function Order(zones: seq<Zone>, overrides: Overrides): seq<Entry> {
    Sorted(BoundaryZones(zones, overrides), Precedes)
  }

  function Position(order: seq<Entry>, id: nat): (k: nat)
    ensures k <= |order|
    ensures k < |order| ==> order[k].id == id
    ensures k == |order| ==> forall i :: 0 <= i < |order| ==> order[i].id != id
  {
    if order == [] then 0
    else if order[0].id == id then 0
    else
      var k := Position(order[1..], id);
      assert k == |order[1..]| ==> forall i :: 1 <= i < |order| ==> order[i].id == order[1..][i - 1].id;
      1 + k
  }

  predicate Renumbered(order: seq<Entry>, id: nat) { Position(order, id) < |order| }

  function NewId(order: seq<Entry>, id: nat): nat {
    if Renumbered(order, id) then FIRST + Position(order, id) else id
  }

  function RepairedZone(order: seq<Entry>, overrides: Overrides): Zone -> Zone {
    z => if Boundary(z) then Zone(NewId(order, z.id), NewType(z, overrides), z.name) else z
  }

  function RepairedZones(zones: seq<Zone>, overrides: Overrides): seq<Zone> {
    Mapped(zones, RepairedZone(Order(zones, overrides), overrides))
  }

  // ---- the order ----------------------------------------------------------------------------------

  lemma LabelOrder()
    ensures TotalPreorder(LabelPrecedes)
  {
    StringOrder();
    forall x: Label, y: Label, z: Label | LabelPrecedes(x, y) && LabelPrecedes(y, z) ensures LabelPrecedes(x, z) {
      if Role(x.typ) == Role(y.typ) == Role(z.typ) {
        assert StringLe(x.name, y.name) && StringLe(y.name, z.name);
      }
    }
    forall x: Label, y: Label ensures LabelPrecedes(x, y) || LabelPrecedes(y, x) {
      assert StringLe(x.name, y.name) || StringLe(y.name, x.name);
    }
  }

  lemma EntryOrder()
    ensures TotalPreorder(Precedes)
  {
    LabelOrder();
    forall x: Entry, y: Entry ensures Precedes(x, y) || Precedes(y, x) {
      assert LabelPrecedes(LabelOf(x), LabelOf(y)) || LabelPrecedes(LabelOf(y), LabelOf(x));
    }
    forall x: Entry, y: Entry, z: Entry | Precedes(x, y) && Precedes(y, z) ensures Precedes(x, z) {
      assert LabelPrecedes(LabelOf(x), LabelOf(y)) && LabelPrecedes(LabelOf(y), LabelOf(z));
    }
  }

  ghost predicate UniqueZones(zones: seq<Zone>) {
    forall i, j :: 0 <= i < j < |zones| ==> zones[i].id != zones[j].id
  }

  ghost predicate UniqueEntries(order: seq<Entry>) {
    forall i, j :: 0 <= i < j < |order| ==> order[i].id != order[j].id
  }

  /** The boundary zones, in the order of the file. */
  function Entries(zones: seq<Zone>, overrides: Overrides): seq<Entry> {
    Collect(zones, EntryOf(overrides))
  }

  lemma OrderIsEntries(zones: seq<Zone>, overrides: Overrides)
    ensures multiset(Order(zones, overrides)) == multiset(Entries(zones, overrides))
  {
    CollectForgetsOrder(Sorted(zones, ZoneById), zones, EntryOf(overrides));
  }

  lemma {:induction false} EntriesAreUnique(zones: seq<Zone>, overrides: Overrides)
    requires UniqueZones(zones)
    ensures UniqueEntries(Entries(zones, overrides))
  {
    if zones != [] {
      var n := |zones| - 1;
      EntriesAreUnique(zones[..n], overrides);
      forall e | e in Entries(zones[..n], overrides) ensures e.id != zones[n].id {
        var z := CollectedFrom(zones[..n], EntryOf(overrides), e);
      }
    }
  }

  lemma OrderIsUnique(zones: seq<Zone>, overrides: Overrides)
    requires UniqueZones(zones)
    ensures UniqueEntries(Order(zones, overrides))
  {
    EntriesAreUnique(zones, overrides);
    OrderIsEntries(zones, overrides);
    var id := (e: Entry) => e.id;
    assert KeyedOnce(Entries(zones, overrides), id);
    KeyedOnceForgetsOrder(Entries(zones, overrides), Order(zones, overrides), id);
    assert forall e: Entry :: id(e) == e.id;
  }

  lemma {:induction false} PositionIs(order: seq<Entry>, k: nat)
    requires UniqueEntries(order) && k < |order|
    ensures Position(order, order[k].id) == k
  {
    var p := Position(order, order[k].id);
    assert p < |order| && order[p].id == order[k].id;
  }

  // ---- the numbering --------------------------------------------------------------------------------

  function Entered(z: Zone, overrides: Overrides): Entry { Entry(z.id, z.name, NewType(z, overrides)) }

  /** `order` holds an entry for each boundary zone, and no other. */
  ghost predicate Holds(zones: seq<Zone>, overrides: Overrides, order: seq<Entry>) {
    && UniqueZones(zones) && UniqueEntries(order)
    && (forall z :: z in zones && Boundary(z) ==> Entered(z, overrides) in order)
    && (forall e :: e in order ==> exists z :: z in zones && Boundary(z) && Entered(z, overrides) == e)
  }

  lemma OrderHolds(zones: seq<Zone>, overrides: Overrides)
    requires UniqueZones(zones)
    ensures Holds(zones, overrides, Order(zones, overrides))
  {
    var order := Order(zones, overrides);
    OrderIsUnique(zones, overrides);
    OrderIsEntries(zones, overrides);
    forall z | z in zones && Boundary(z) ensures Entered(z, overrides) in order {
      CollectKeeps(zones, EntryOf(overrides), z);
      assert Entered(z, overrides) in multiset(Entries(zones, overrides));
    }
    forall e | e in order ensures exists z :: z in zones && Boundary(z) && Entered(z, overrides) == e {
      assert e in multiset(order);
      var z := CollectedFrom(zones, EntryOf(overrides), e);
    }
  }

  lemma SameZone(zones: seq<Zone>, y: Zone, z: Zone)
    requires UniqueZones(zones) && y in zones && z in zones && y.id == z.id
    ensures y == z
  {
    var i :| 0 <= i < |zones| && zones[i] == y;
    var j :| 0 <= j < |zones| && zones[j] == z;
    assert i == j;
  }

  lemma PlaceOf(zones: seq<Zone>, overrides: Overrides, order: seq<Entry>, z: Zone) returns (k: nat)
    requires Holds(zones, overrides, order) && z in zones && Boundary(z)
    ensures k < |order| && order[k] == Entered(z, overrides) && Position(order, z.id) == k
    ensures NewId(order, z.id) == FIRST + k
  {
    k :| k < |order| && order[k] == Entered(z, overrides);
    PositionIs(order, k);
  }

  lemma ZoneAt(zones: seq<Zone>, overrides: Overrides, order: seq<Entry>, k: nat) returns (z: Zone)
    requires Holds(zones, overrides, order) && k < |order|
    ensures z in zones && Boundary(z) && Entered(z, overrides) == order[k] && NewId(order, z.id) == FIRST + k
  {
    assert order[k] in order;
    z :| z in zones && Boundary(z) && Entered(z, overrides) == order[k];
    PositionIs(order, k);
  }

  lemma InnerKeepsId(zones: seq<Zone>, overrides: Overrides, order: seq<Entry>, z: Zone)
    requires Holds(zones, overrides, order) && z in zones && !Boundary(z)
    ensures !Renumbered(order, z.id) && NewId(order, z.id) == z.id
  {
    var k := Position(order, z.id);
    if k < |order| {
      var y := ZoneAt(zones, overrides, order, k);
      SameZone(zones, y, z);
    }
  }

  ghost predicate Handed(zones: seq<Zone>, order: seq<Entry>, id: nat) {
    exists z :: z in zones && Boundary(z) && NewId(order, z.id) == id
  }

  predicate SameNewId(zones: seq<Zone>, order: seq<Entry>, y: Zone, z: Zone) {
    y in zones && z in zones && Boundary(y) && Boundary(z) && NewId(order, y.id) == NewId(order, z.id)
  }

  /** The boundary zones of a mesh get the ids 10, 11, ... once each, and the other zones keep theirs. */
  lemma NumberingIsBijective(zones: seq<Zone>, overrides: Overrides)
    requires UniqueZones(zones)
    ensures var order := Order(zones, overrides);
      && (forall z :: z in zones && Boundary(z) ==> FIRST <= NewId(order, z.id) < FIRST + |order|)
      && (forall y, z :: SameNewId(zones, order, y, z) ==> y == z)
      && (forall id :: FIRST <= id < FIRST + |order| ==> Handed(zones, order, id))
      && (forall z :: z in zones && !Boundary(z) ==> NewId(order, z.id) == z.id)
  {
    OrderHolds(zones, overrides);
    Bijective(zones, overrides, Order(zones, overrides));
  }

  lemma Bijective(zones: seq<Zone>, overrides: Overrides, order: seq<Entry>)
    requires Holds(zones, overrides, order)
    ensures forall z :: z in zones && Boundary(z) ==> FIRST <= NewId(order, z.id) < FIRST + |order|
    ensures forall y, z :: SameNewId(zones, order, y, z) ==> y == z
    ensures forall id :: FIRST <= id < FIRST + |order| ==> Handed(zones, order, id)
    ensures forall z :: z in zones && !Boundary(z) ==> NewId(order, z.id) == z.id
  {
    forall z | z in zones && Boundary(z) ensures FIRST <= NewId(order, z.id) < FIRST + |order| {
      var k := PlaceOf(zones, overrides, order, z);
    }
    forall y, z | y in zones && z in zones && Boundary(y) && Boundary(z) && NewId(order, y.id) == NewId(order, z.id)
      ensures y == z {
      var i := PlaceOf(zones, overrides, order, y);
      var j := PlaceOf(zones, overrides, order, z);
      SameZone(zones, y, z);
    }
    forall id | FIRST <= id < FIRST + |order| ensures Handed(zones, order, id) {
      var z := ZoneAt(zones, overrides, order, id - FIRST);
    }
    forall z | z in zones && !Boundary(z) ensures NewId(order, z.id) == z.id {
      InnerKeepsId(zones, overrides, order, z);
    }
  }

  /** A smaller new id means an earlier role, or the same role and a name no later. */
  lemma NumbersFollowRoles(zones: seq<Zone>, overrides: Overrides, y: Zone, z: Zone)
    requires UniqueZones(zones) && y in zones && z in zones && Boundary(y) && Boundary(z)
    requires NewId(Order(zones, overrides), y.id) < NewId(Order(zones, overrides), z.id)
    ensures LabelPrecedes(Label(y.name, NewType(y, overrides)), Label(z.name, NewType(z, overrides)))
  {
    var order := Order(zones, overrides);
    EntryOrder();
    SortedIsSorted(BoundaryZones(zones, overrides), Precedes);
    OrderHolds(zones, overrides);
    var i := PlaceOf(zones, overrides, order, y);
    var j := PlaceOf(zones, overrides, order, z);
    assert Precedes(order[i], order[j]);
  }

  /** The ids of a repaired mesh are distinct exactly when no fluid or interior zone holds one of the
      ids handed out: those zones are not renumbered. */
  lemma IdsStayUniqueIff(zones: seq<Zone>, overrides: Overrides)
    requires UniqueZones(zones)
    ensures UniqueZones(RepairedZones(zones, overrides))
      <==> forall z :: z in zones && !Boundary(z) ==> !(FIRST <= z.id < FIRST + |Order(zones, overrides)|)
  {
    OrderHolds(zones, overrides);
    UniqueAfterIff(zones, overrides, Order(zones, overrides));
  }

  lemma DistinctAfter(zones: seq<Zone>, overrides: Overrides, order: seq<Entry>, y: Zone, z: Zone)
    requires Holds(zones, overrides, order) && y in zones && z in zones && y.id != z.id
    requires forall x :: x in zones && !Boundary(x) ==> !(FIRST <= x.id < FIRST + |order|)
    ensures NewId(order, y.id) != NewId(order, z.id)
  {
    Bijective(zones, overrides, order);
  }

  /** An inner zone holding an id handed out has it twice. */
  lemma ClashAfter(zones: seq<Zone>, overrides: Overrides, order: seq<Entry>, z: Zone)
    requires Holds(zones, overrides, order) && z in zones && !Boundary(z) && FIRST <= z.id < FIRST + |order|
    ensures !UniqueZones(Mapped(zones, RepairedZone(order, overrides)))
  {
    var y := ZoneAt(zones, overrides, order, z.id - FIRST);
    InnerKeepsId(zones, overrides, order, z);
    SameIdTwice(zones, Mapped(zones, RepairedZone(order, overrides)), RepairedZone(order, overrides), y, z);
  }

  lemma SameIdTwice(zones: seq<Zone>, after: seq<Zone>, f: Zone -> Zone, y: Zone, z: Zone)
    requires y in zones && z in zones && y != z && f(y).id == f(z).id && after == Mapped(zones, f)
    ensures !UniqueZones(after)
  {
    var i :| 0 <= i < |zones| && zones[i] == y;
    var j :| 0 <= j < |zones| && zones[j] == z;
    assert after[i].id == after[j].id;
  }

  lemma UniqueAfterIff(zones: seq<Zone>, overrides: Overrides, order: seq<Entry>)
    requires Holds(zones, overrides, order)
    ensures UniqueZones(Mapped(zones, RepairedZone(order, overrides)))
      <==> forall z :: z in zones && !Boundary(z) ==> !(FIRST <= z.id < FIRST + |order|)
  {
    var after := Mapped(zones, RepairedZone(order, overrides));
    if z :| z in zones && !Boundary(z) && FIRST <= z.id < FIRST + |order| {
      ClashAfter(zones, overrides, order, z);
    } else {
      forall i, j | 0 <= i < j < |zones| ensures after[i].id != after[j].id {
        DistinctAfter(zones, overrides, order, zones[i], zones[j]);
      }
    }
  }

  // ---- what the numbering depends on ----------------------------------------------------------------

  function Labels(order: seq<Entry>): seq<Label> { Mapped(order, LabelOf) }

  lemma LabelsForgetOrder(a: seq<Entry>, b: seq<Entry>)
    requires multiset(a) == multiset(b)
    ensures multiset(Labels(a)) == multiset(Labels(b))
  {
    var f := (e: Entry) => Some(LabelOf(e));
    CollectForgetsOrder(a, b, f);
    LabelsCollect(a, f);
    LabelsCollect(b, f);
  }

  lemma {:induction false} LabelsCollect(a: seq<Entry>, f: Entry -> Option<Label>)
    requires forall e: Entry :: f(e) == Some(LabelOf(e))
    ensures Collect(a, f) == Labels(a)
  {
    if a != [] {
      LabelsCollect(a[..|a| - 1], f);
      assert Labels(a)[..|a| - 1] == Labels(a[..|a| - 1]);
    }
  }

  /** CANONICAL. Two meshes whose boundary zones carry the same names and types give each of them the
      same id, whatever ids they had and in whatever order they were listed, as long as no two of the
      zones share both role and name. */
  lemma NumberingForgetsIds(a: seq<Zone>, b: seq<Zone>, overrides: Overrides)
    requires multiset(Labels(Entries(a, overrides))) == multiset(Labels(Entries(b, overrides)))
    requires NoTies(Labels(Entries(a, overrides)), LabelPrecedes)
    ensures Labels(Order(a, overrides)) == Labels(Order(b, overrides))
  {
    var x, y := BoundaryZones(a, overrides), BoundaryZones(b, overrides);
    LabelOrder();
    OrderIsEntries(a, overrides);
    OrderIsEntries(b, overrides);
    LabelsForgetOrder(x, Entries(a, overrides));
    LabelsForgetOrder(y, Entries(b, overrides));
    SortCommutes(x, LabelOf, Precedes, LabelPrecedes);
    SortCommutes(y, LabelOf, Precedes, LabelPrecedes);
    forall l | l in Labels(x) ensures l in Labels(Entries(a, overrides)) {
      assert l in multiset(Labels(x));
    }
    SortForgetsOrder(Labels(x), Labels(y), LabelPrecedes);
  }

  // ---- a second run ---------------------------------------------------------------------------------

  /** What the second run makes of an entry of the first: a zone retyped `interior` is a boundary
      zone no more. */
  function Again(order: seq<Entry>): Entry -> Option<Entry> {
    (e: Entry) => if e.typ == "fluid" || e.typ == "interior" then None else Some(e.(id := NewId(order, e.id)))
  }

  /** The entries of the second run, in the order of the first. */
  function Remaining(order: seq<Entry>): seq<Entry> { Collect(order, Again(order)) }

  lemma {:induction false} SecondEntries(zones: seq<Zone>, overrides: Overrides, order: seq<Entry>)
    ensures Entries(Mapped(zones, RepairedZone(order, overrides)), overrides)
         == Collect(Entries(zones, overrides), Again(order))
  {
    if zones != [] {
      var n := |zones| - 1;
      SecondEntries(zones[..n], overrides, order);
      var after := Mapped(zones, RepairedZone(order, overrides));
      assert after[..n] == Mapped(zones[..n], RepairedZone(order, overrides));
      var front := Entries(zones[..n], overrides);
      if Boundary(zones[n]) {
        var e := EntryOf(overrides)(zones[n]).value;
        assert (front + [e])[..|front|] == front;
      } else {
        assert front + [] == front;
      }
    }
  }

  lemma ByNewId(order: seq<Entry>)
    requires UniqueEntries(order)
    ensures SortedBy(Remaining(order), EntryById) && NoTies(Remaining(order), EntryById)
  {
    var byNewId := (a: Entry, b: Entry) => NewId(order, a.id) <= NewId(order, b.id);
    forall i, j | 0 <= i < j < |order| ensures byNewId(order[i], order[j]) {
      PositionIs(order, i);
      PositionIs(order, j);
    }
    CollectKeepsSorted(order, Again(order), byNewId, EntryById);
    forall x, y | x in Remaining(order) && y in Remaining(order) && EntryById(x, y) && EntryById(y, x) ensures x == y {
      var a := CollectedFrom(order, Again(order), x);
      var b := CollectedFrom(order, Again(order), y);
      SamePlace(order, a, b);
    }
  }

  lemma SamePlace(order: seq<Entry>, a: Entry, b: Entry)
    requires UniqueEntries(order) && a in order && b in order && NewId(order, a.id) == NewId(order, b.id)
    ensures a == b
  {
    var i :| 0 <= i < |order| && order[i] == a;
    var j :| 0 <= j < |order| && order[j] == b;
    PositionIs(order, i);
    PositionIs(order, j);
  }

  lemma RemainingIsSorted(zones: seq<Zone>, overrides: Overrides)
    requires UniqueZones(zones)
    ensures var r := Remaining(Order(zones, overrides));
      SortedBy(r, EntryById) && SortedBy(r, Precedes) && NoTies(r, EntryById)
  {
    var order := Order(zones, overrides);
    OrderIsUnique(zones, overrides);
    EntryOrder();
    SortedIsSorted(BoundaryZones(zones, overrides), Precedes);
    CollectKeepsSorted(order, Again(order), Precedes, Precedes);
    ByNewId(order);
  }

  lemma ByIdOrder()
    ensures TotalPreorder(EntryById) && TotalPreorder(ZoneById)
  {
  }

  /** The second run orders the remaining zones as the first did. */
  lemma SecondOrder(zones: seq<Zone>, overrides: Overrides)
    requires UniqueZones(zones)
    ensures Order(RepairedZones(zones, overrides), overrides) == Remaining(Order(zones, overrides))
  {
    var order, after := Order(zones, overrides), RepairedZones(zones, overrides);
    var second := BoundaryZones(after, overrides);
    ByIdOrder();
    RemainingIsSorted(zones, overrides);
    SortedIsSorted(after, ZoneById);
    CollectKeepsSorted(Sorted(after, ZoneById), EntryOf(overrides), ZoneById, EntryById);
    OrderIsEntries(after, overrides);
    SecondEntries(zones, overrides, order);
    OrderIsEntries(zones, overrides);
    CollectForgetsOrder(order, Entries(zones, overrides), Again(order));
    assert multiset(Remaining(order)) == multiset(second);
    SortedUnique(Remaining(order), second, EntryById);
    SortedFixpoint(second, Precedes);
  }

  /** A zone's id after the second run: the remaining zones close ranks. */
  lemma {:induction false} SecondPosition(order: seq<Entry>, k: nat)
    requires UniqueEntries(order) && k < |order| && Again(order)(order[k]).Some?
    requires UniqueEntries(Remaining(order))
    ensures Position(Remaining(order), FIRST + k) == |Collect(order[..k], Again(order))| < |Remaining(order)|
  {
    var again := Again(order);
    var front := Collect(order[..k], again);
    PositionIs(order, k);
    assert order == order[..k] + [order[k]] + order[k + 1..];
    CollectSplits(order[..k] + [order[k]], order[k + 1..], again);
    assert (order[..k] + [order[k]])[..k] == order[..k];
    assert Remaining(order)[|front|] == again(order[k]).value;
    PositionIs(Remaining(order), |front|);
  }

  lemma {:induction false} CollectAll(s: seq<Entry>, f: Entry -> Option<Entry>)
    ensures |Collect(s, f)| <= |s|
    ensures |Collect(s, f)| == |s| <==> forall e :: e in s ==> f(e).Some?
  {
    if s != [] {
      var n := |s| - 1;
      CollectAll(s[..n], f);
      assert s == s[..n] + [s[n]];
    }
  }

  /** Zones retyped `interior` come after every other boundary zone. */
  ghost predicate InteriorLast(order: seq<Entry>) {
    forall i, j :: 0 <= i < j < |order| && order[i].typ == "interior" ==> order[j].typ == "interior"
  }

  lemma {:induction false} RulesHaveCodes(low: string, rules: seq<(string, string)>)
    requires forall r :: r in rules ==> BcCode(r.1).Some?
    ensures ByRules(low, rules).Some? ==> BcCode(ByRules(low, rules).value).Some?
  {
    if rules != [] {
      assert rules[0] in rules;
      RulesHaveCodes(low, rules[1..]);
    }
  }

  lemma NeverFluid(z: Zone, overrides: Overrides)
    requires Accepted(overrides) && Boundary(z)
    ensures NewType(z, overrides) != "fluid"
  {
    RulesHaveCodes(Lower(z.name), NAME_RULES);
  }

  lemma {:induction false} UniqueCollected(order: seq<Entry>, part: seq<Entry>)
    requires UniqueEntries(order) && UniqueEntries(part) && forall e :: e in part ==> e in order
    ensures UniqueEntries(Collect(part, Again(order)))
  {
    if part != [] {
      var n := |part| - 1;
      UniqueCollected(order, part[..n]);
      forall e | e in Collect(part[..n], Again(order)) ensures e.id != NewId(order, part[n].id) {
        var x := CollectedFrom(part[..n], Again(order), e);
        assert part[n] in order && x in order && x.id != part[n].id;
        if e.id == NewId(order, part[n].id) { SamePlace(order, x, part[n]); }
      }
    }
  }

  ghost predicate NoneFluid(order: seq<Entry>) { forall e :: e in order ==> e.typ != "fluid" }

  lemma OrderHasNoFluid(zones: seq<Zone>, overrides: Overrides, order: seq<Entry>)
    requires Holds(zones, overrides, order) && Accepted(overrides)
    ensures NoneFluid(order)
  {
    forall e | e in order ensures e.typ != "fluid" {
      var z :| z in zones && Boundary(z) && Entered(z, overrides) == e;
      NeverFluid(z, overrides);
    }
  }

  /** The id the second run gives the k-th zone of the first, if it still sees a boundary zone: never
      a later one, and the same one exactly when no zone before it dropped out. */
  lemma SecondId(order: seq<Entry>, k: nat)
    requires UniqueEntries(order) && NoneFluid(order) && k < |order| && order[k].typ != "interior"
    ensures Renumbered(Remaining(order), FIRST + k) && NewId(Remaining(order), FIRST + k) <= FIRST + k
    ensures NewId(Remaining(order), FIRST + k) == FIRST + k <==> forall i :: 0 <= i < k ==> order[i].typ != "interior"
  {
    UniqueCollected(order, order);
    assert order[k] in order;
    SecondPosition(order, k);
    CollectAll(order[..k], Again(order));
    AllKept(order, k);
  }

  lemma AllKept(order: seq<Entry>, k: nat)
    requires NoneFluid(order) && k <= |order|
    ensures (forall e :: e in order[..k] ==> Again(order)(e).Some?)
        <==> forall i :: 0 <= i < k ==> order[i].typ != "interior"
  {
    forall i | 0 <= i < k ensures Again(order)(order[i]).Some? <==> order[i].typ != "interior" {
      assert order[i] in order;
    }
    if forall e :: e in order[..k] ==> Again(order)(e).Some? {
      forall i | 0 <= i < k ensures order[i].typ != "interior" {
        assert order[..k][i] == order[i] && order[i] in order[..k];
      }
    } else {
      var e :| e in order[..k] && Again(order)(e).None?;
      var i :| 0 <= i < k && order[..k][i] == e;
      assert order[i] == e;
    }
  }

  /** IDEMPOTENT, EXACTLY WHEN. A second run leaves every zone line as the first wrote it if and only
      if the zones that the overrides retype `interior` are last in the first run's order. */
  lemma SecondNumberingIff(zones: seq<Zone>, overrides: Overrides)
    requires UniqueZones(zones) && Accepted(overrides)
    ensures var after := RepairedZones(zones, overrides);
      RepairedZones(after, overrides) == after <==> InteriorLast(Order(zones, overrides))
  {
    SecondOrder(zones, overrides);
    OrderHolds(zones, overrides);
    OrderHasNoFluid(zones, overrides, Order(zones, overrides));
    SettledIff(zones, overrides, Order(zones, overrides));
  }

  lemma SettledIff(zones: seq<Zone>, overrides: Overrides, order: seq<Entry>)
    requires Holds(zones, overrides, order) && Accepted(overrides) && NoneFluid(order)
    ensures var after := Mapped(zones, RepairedZone(order, overrides));
      Mapped(after, RepairedZone(Remaining(order), overrides)) == after <==> InteriorLast(order)
  {
    var f, g := RepairedZone(order, overrides), RepairedZone(Remaining(order), overrides);
    if InteriorLast(order) {
      forall k | 0 <= k < |zones| ensures g(f(zones[k])) == f(zones[k]) {
        LastKeepsZone(zones, overrides, order, zones[k]);
      }
    } else {
      var i, j :| 0 <= i < j < |order| && order[i].typ == "interior" && order[j].typ != "interior";
      var z := LaterZoneMoves(zones, overrides, order, i, j);
      var k :| 0 <= k < |zones| && zones[k] == z;
      assert Mapped(Mapped(zones, f), g)[k] != Mapped(zones, f)[k];
    }
  }

  lemma LaterZoneMoves(zones: seq<Zone>, overrides: Overrides, order: seq<Entry>, i: nat, j: nat) returns (z: Zone)
    requires Holds(zones, overrides, order) && Accepted(overrides) && NoneFluid(order)
    requires i < j < |order| && order[i].typ == "interior" && order[j].typ != "interior"
    ensures z in zones
    ensures var after := RepairedZone(order, overrides)(z);
      RepairedZone(Remaining(order), overrides)(after) != after
  {
    z := ZoneAt(zones, overrides, order, j);
    NeverFluid(z, overrides);
    SecondId(order, j);
  }

  lemma LastKeepsZone(zones: seq<Zone>, overrides: Overrides, order: seq<Entry>, z: Zone)
    requires Holds(zones, overrides, order) && Accepted(overrides) && NoneFluid(order) && InteriorLast(order)
    requires z in zones
    ensures var after := RepairedZone(order, overrides)(z);
      RepairedZone(Remaining(order), overrides)(after) == after
  {
    if Boundary(z) && NewType(z, overrides) != "interior" {
      var k := PlaceOf(zones, overrides, order, z);
      SecondId(order, k);
    }
  }

  /** The case that moves: a zone retyped `interior` ahead, by label, of one that is not. */
  lemma InteriorAheadMoves(zones: seq<Zone>, overrides: Overrides, y: Zone, z: Zone)
    requires UniqueZones(zones) && Accepted(overrides) && y in zones && z in zones && Boundary(y) && Boundary(z)
    requires NewType(y, overrides) == "interior" && NewType(z, overrides) != "interior"
    requires !LabelPrecedes(Label(z.name, NewType(z, overrides)), Label(y.name, NewType(y, overrides)))
    ensures RepairedZones(RepairedZones(zones, overrides), overrides) != RepairedZones(zones, overrides)
  {
    var order := Order(zones, overrides);
    OrderHolds(zones, overrides);
    var i := PlaceOf(zones, overrides, order, y);
    var j := PlaceOf(zones, overrides, order, z);
    if NewId(order, z.id) < NewId(order, y.id) { NumbersFollowRoles(zones, overrides, z, y); }
    assert i < j && order[i].typ == "interior" && order[j].typ != "interior";
    SecondNumberingIff(zones, overrides);
  }

  /** Such a mesh: patch `a` overridden to `interior` beside a patch `b` that no rule recognises. */
  lemma SecondNumberingCanMove() returns (zones: seq<Zone>, overrides: Overrides)
    ensures UniqueZones(zones) && Accepted(overrides)
    ensures RepairedZones(RepairedZones(zones, overrides), overrides) != RepairedZones(zones, overrides)
  {
    var y, z := Zone(3, "wall", "a"), Zone(4, "radiator", "b");
    zones, overrides := [y, z], map["a" := "interior"];
    assert Lower("a") == "a";
    Unrecognised("b");
    UnlistedByName("b", "radiator", "a", "interior");
    assert NewType(y, overrides) == "interior" && NewType(z, overrides) == "radiator";
    InteriorAheadMoves(zones, overrides, y, z);
  }

  lemma Unrecognised(name: string)
    requires |name| == 1
    ensures ByRules(Lower(name), NAME_RULES).None?
  {
    NoRule(Lower(name), NAME_RULES);
  }

  lemma UnlistedByName(a: string, s: string, b: string, t: string)
    requires s !in ROLE_PRIORITY && t !in ROLE_PRIORITY && |a| == |b| == 1 && a[0] > b[0]
    ensures !LabelPrecedes(Label(a, s), Label(b, t))
  {
  }

  lemma {:induction false} NoRule(low: string, rules: seq<(string, string)>)
    requires forall r :: r in rules ==> |r.0| > |low|
    ensures ByRules(low, rules).None?
  {
    if rules != [] {
      assert rules[0] in rules;
      NoRule(low, rules[1..]);
    }
  }
}
