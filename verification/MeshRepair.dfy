/** The whole mesh repair: types, numbers and windings, and a second repair of the repaired mesh
    (devtools/validation/fluent_repair.py). A mesh is its parsed zone lines, face sections and nodes. */
module MeshRepair {
  import opened Wrappers
  import opened Newell
  import opened Orientation
  import opened Numbering
  import Sorting

  /** A face section; `first..last` is the range its header declares. Section 0, which only declares
      totals, holds no faces and is left out. */
  datatype Section = Section(id: nat, first: int, last: int, bc: nat, faces: seq<Face>)

  datatype Mesh = Mesh(zones: seq<Zone>, sections: seq<Section>, coords: map<nat, Vec>)

  function Step(n: int, samples: int): (step: nat)
    requires samples != 0
    ensures step >= 1
  {
    if n > 0 && samples > 0 && n / samples > 1 then n / samples else 1
  }

  predicate Taken(s: Section, samples: int, idx: nat)
    requires samples != 0
  {
    var n := s.last - s.first + 1;
    idx < n && idx % Step(n, samples) == 0
  }

  /** The faces of the first `k` that are sampled. */
  function SampledUpTo(s: Section, samples: int, k: nat): seq<Face>
    requires samples != 0 && k <= |s.faces|
  {
    if k == 0 || s.bc == 2 then []
    else SampledUpTo(s, samples, k - 1) + if Taken(s, samples, k - 1) then [s.faces[k - 1]] else []
  }

  function Sampled(s: Section, samples: int): seq<Face>
    requires samples != 0
  {
    SampledUpTo(s, samples, |s.faces|)
  }

  /** The samples kept under an id: those of the last section with it. */
  function SampleOf(sections: seq<Section>, samples: int, id: nat): seq<Face>
    requires samples != 0
  {
    if sections == [] then []
    else if sections[|sections| - 1].id == id then Sampled(sections[|sections| - 1], samples)
    else SampleOf(sections[..|sections| - 1], samples, id)
  }

  function AllFaces(sections: seq<Section>): seq<Face> {
    if sections == [] then []
    else AllFaces(sections[..|sections| - 1]) + sections[|sections| - 1].faces
  }

  function Wanted(sections: seq<Section>, samples: int): set<nat>
    requires samples != 0
  {
    set s, f | s in sections && f in SampleOf(sections, samples, s.id) :: Owner(f)
  }

  ghost function CellsOf(m: Mesh, samples: int): map<nat, Cell>
    requires samples != 0
  {
    Cells(AllFaces(m.sections), m.coords, Wanted(m.sections, samples))
  }

  ghost predicate InvertedZone(m: Mesh, samples: int, id: nat)
    requires samples != 0
  {
    Inverted(SampleOf(m.sections, samples, id), m.coords, CellsOf(m, samples))
  }

  ghost function FlipsUpTo(m: Mesh, samples: int, k: nat): set<nat>
    requires samples != 0 && k <= |m.sections|
  {
    if k == 0 then {}
    else
      var s := m.sections[k - 1];
      FlipsUpTo(m, samples, k - 1) + if s.bc != 2 && InvertedZone(m, samples, s.id) then {s.id} else {}
  }

  /** The zones whose winding is to be reversed. */
  ghost function Flips(m: Mesh, samples: int): set<nat>
    requires samples != 0
  {
    FlipsUpTo(m, samples, |m.sections|)
  }

  lemma {:induction false} FlipsMeans(m: Mesh, samples: int, k: nat, id: nat)
    requires samples != 0 && k <= |m.sections|
    ensures id in FlipsUpTo(m, samples, k)
      <==> InvertedZone(m, samples, id) && exists i :: 0 <= i < k && m.sections[i].id == id && m.sections[i].bc != 2
  {
    if k > 0 { FlipsMeans(m, samples, k - 1, id); }
  }

  function NewBc(typ: string, bc: nat): nat {
    match BcCode(typ) case Some(c) => c case None => bc
  }

  function RepairedSection(s: Section, order: seq<Entry>, flip: bool): Section {
    if Renumbered(order, s.id) then
      Section(NewId(order, s.id), s.first, s.last, NewBc(order[Position(order, s.id)].typ, s.bc),
              if flip then TurnAll(s.faces) else s.faces)
    else s
  }

  function RepairedSections(sections: seq<Section>, order: seq<Entry>, flips: set<nat>): (r: seq<Section>)
    ensures |r| == |sections|
    ensures forall i :: 0 <= i < |r| ==> r[i] == RepairedSection(sections[i], order, sections[i].id in flips)
  {
    seq(|sections|, i requires 0 <= i < |sections| => RepairedSection(sections[i], order, sections[i].id in flips))
  }

  ghost function Repaired(m: Mesh, overrides: Overrides, samples: int): Mesh
    requires samples != 0
  {
    Mesh(RepairedZones(m.zones, overrides),
         RepairedSections(m.sections, Order(m.zones, overrides), Flips(m, samples)),
         m.coords)
  }

  // ---- zone lines that share an id ---------------------------------------------------------------------

  function Without(zones: seq<Zone>, id: nat): seq<Zone> {
    if zones == [] then []
    else
      var n := |zones| - 1;
      Without(zones[..n], id) + if zones[n].id == id then [] else [zones[n]]
  }

  /** The table of zones: of several lines with one id the last. */
  function Table(zones: seq<Zone>): seq<Zone> {
    if zones == [] then []
    else
      var n := |zones| - 1;
      Without(Table(zones[..n]), zones[n].id) + [zones[n]]
  }

  /** Every line whose id is renumbered gets the number and the type of the table's zone; its name stays. */
  function RewrittenLine(z: Zone, order: seq<Entry>): Zone {
    if Renumbered(order, z.id) then Zone(NewId(order, z.id), order[Position(order, z.id)].typ, z.name) else z
  }

  function Rewritten(zones: seq<Zone>, order: seq<Entry>): (r: seq<Zone>)
    ensures |r| == |zones| && forall i :: 0 <= i < |r| ==> r[i] == RewrittenLine(zones[i], order)
  {
    seq(|zones|, i requires 0 <= i < |zones| => RewrittenLine(zones[i], order))
  }

  /** The repair of any file, ids repeated or not. */
  ghost function RepairedFile(m: Mesh, overrides: Overrides, samples: int): Mesh
    requires samples != 0
  {
    var order := Order(Table(m.zones), overrides);
    Mesh(Rewritten(m.zones, order), RepairedSections(m.sections, order, Flips(m, samples)), m.coords)
  }

  lemma {:induction false} WithoutHolds(zones: seq<Zone>, id: nat, z: Zone)
    ensures z in Without(zones, id) <==> z in zones && z.id != id
  {
    if zones != [] {
      var n := |zones| - 1;
      WithoutHolds(zones[..n], id, z);
      assert zones == zones[..n] + [zones[n]];
    }
  }

  lemma {:induction false} WithoutNone(zones: seq<Zone>, id: nat)
    requires forall i :: 0 <= i < |zones| ==> zones[i].id != id
    ensures Without(zones, id) == zones
  {
    if zones != [] {
      WithoutNone(zones[..|zones| - 1], id);
      assert zones == zones[..|zones| - 1] + [zones[|zones| - 1]];
    }
  }

  lemma {:induction false} WithoutKeepsUnique(zones: seq<Zone>, id: nat)
    requires UniqueZones(zones)
    ensures UniqueZones(Without(zones, id))
  {
    if zones != [] {
      var n := |zones| - 1;
      WithoutKeepsUnique(zones[..n], id);
      var front := Without(zones[..n], id);
      forall i | 0 <= i < |front| ensures front[i].id != zones[n].id {
        WithoutHolds(zones[..n], id, front[i]);
      }
    }
  }

  /** The `i`-th line is the last with its id. */
  ghost predicate LastWith(zones: seq<Zone>, i: nat) {
    i < |zones| && forall j :: i < j < |zones| ==> zones[j].id != zones[i].id
  }

  lemma {:induction false} TableGrows(front: seq<Zone>, last: Zone, z: Zone)
    requires z in front && z.id != last.id
    ensures z in Without(front, last.id) + [last]
  {
    WithoutHolds(front, last.id, z);
  }

  lemma {:induction false} TableHoldsLast(zones: seq<Zone>, i: nat)
    requires LastWith(zones, i)
    ensures zones[i] in Table(zones)
  {
    var n := |zones| - 1;
    var front := zones[..n];
    if i < n {
      assert LastWith(front, i) && front[i] == zones[i];
      TableHoldsLast(front, i);
      TableGrows(Table(front), zones[n], zones[i]);
    }
  }

  lemma {:induction false} TableIsUnique(zones: seq<Zone>)
    ensures UniqueZones(Table(zones))
  {
    if zones != [] {
      var n := |zones| - 1;
      TableIsUnique(zones[..n]);
      WithoutKeepsUnique(Table(zones[..n]), zones[n].id);
      var front := Without(Table(zones[..n]), zones[n].id);
      forall i | 0 <= i < |front| ensures front[i].id != zones[n].id {
        WithoutHolds(Table(zones[..n]), zones[n].id, front[i]);
      }
    }
  }

  lemma {:induction false} TableOfUnique(zones: seq<Zone>)
    requires UniqueZones(zones)
    ensures Table(zones) == zones
  {
    if zones != [] {
      var n := |zones| - 1;
      TableOfUnique(zones[..n]);
      WithoutNone(zones[..n], zones[n].id);
      assert zones == zones[..n] + [zones[n]];
    }
  }

  lemma RewrittenZone(zones: seq<Zone>, overrides: Overrides, z: Zone)
    requires UniqueZones(zones) && z in zones
    ensures RewrittenLine(z, Order(zones, overrides)) == RepairedZone(Order(zones, overrides), overrides)(z)
  {
    var order := Order(zones, overrides);
    OrderHolds(zones, overrides);
    if Boundary(z) {
      var k := PlaceOf(zones, overrides, order, z);
    } else {
      InnerKeepsId(zones, overrides, order, z);
    }
  }

  lemma RewrittenIs(zones: seq<Zone>, overrides: Overrides)
    requires UniqueZones(zones)
    ensures Rewritten(zones, Order(zones, overrides)) == RepairedZones(zones, overrides)
  {
    forall i | 0 <= i < |zones|
      ensures Rewritten(zones, Order(zones, overrides))[i] == RepairedZones(zones, overrides)[i] {
      RewrittenZone(zones, overrides, zones[i]);
    }
  }

  /** Where ids are not repeated each line is repaired by its own type and name. */
  lemma RepairedFileIs(m: Mesh, overrides: Overrides, samples: int)
    requires samples != 0 && UniqueZones(m.zones)
    ensures RepairedFile(m, overrides, samples) == Repaired(m, overrides, samples)
  {
    TableOfUnique(m.zones);
    RewrittenIs(m.zones, overrides);
  }

  /** Where they are repeated, the lines of one id stay together: they get the number and the type that
      the last of them would get if it were the only one. */
  lemma RepeatedLinesFollowTheLast(m: Mesh, overrides: Overrides, samples: int, i: nat, last: nat)
    requires samples != 0 && i < |m.zones| && LastWith(m.zones, last) && m.zones[i].id == m.zones[last].id
    ensures var (after, z) := (RepairedFile(m, overrides, samples).zones, m.zones[last]);
      && after[i].id == NewId(Order(Table(m.zones), overrides), z.id) && after[i].name == m.zones[i].name
      && after[i].typ == (if Boundary(z) then NewType(z, overrides) else m.zones[i].typ)
      && (Boundary(z) <==> Renumbered(Order(Table(m.zones), overrides), z.id))
  {
    var table, z := Table(m.zones), m.zones[last];
    TableIsUnique(m.zones);
    TableHoldsLast(m.zones, last);
    RewrittenZone(table, overrides, z);
    OrderHolds(table, overrides);
    if Boundary(z) {
      var k := PlaceOf(table, overrides, Order(table, overrides), z);
    } else {
      InnerKeepsId(table, overrides, Order(table, overrides), z);
    }
  }

  // ---- the program ----------------------------------------------------------------------------------

  method TakeSamples(s: Section, samples: int) returns (taken: seq<Face>)
    requires samples != 0
    ensures taken == Sampled(s, samples)
  {
    taken := [];
    var idx := 0;
    while idx < |s.faces|
      invariant 0 <= idx <= |s.faces|
      invariant taken == SampledUpTo(s, samples, idx)
    {
      if Taken(s, samples, idx) && s.bc != 2 {
        taken := taken + [s.faces[idx]];
      }
      idx := idx + 1;
    }
  }

  method Scan(sections: seq<Section>, samples: int) returns (table: map<nat, seq<Face>>)
    requires samples != 0
    ensures table == map s | s in sections :: s.id := SampleOf(sections, samples, s.id)
  {
    table := map[];
    for i := 0 to |sections|
      invariant forall id :: id in table <==> exists s :: s in sections[..i] && s.id == id
      invariant forall id :: id in table ==> table[id] == SampleOf(sections[..i], samples, id)
    {
      var taken := TakeSamples(sections[i], samples);
      assert sections[..i + 1][..i] == sections[..i];
      assert sections[..i + 1] == sections[..i] + [sections[i]];
      table := table[sections[i].id := taken];
    }
    assert sections[..|sections|] == sections;
  }

  method ReadGeometry(m: Mesh, samples: int) returns (table: map<nat, seq<Face>>, cells: map<nat, Cell>)
    requires samples != 0 && Readable(AllFaces(m.sections), m.coords, Wanted(m.sections, samples))
    ensures forall s :: s in m.sections ==> s.id in table && table[s.id] == SampleOf(m.sections, samples, s.id)
    ensures cells == CellsOf(m, samples)
  {
    table := Scan(m.sections, samples);
    var wanted := set id, f | id in table && f in table[id] :: Owner(f);
    WantedIs(m.sections, samples, table, wanted);
    cells := GatherGeometry(AllFaces(m.sections), m.coords, wanted);
  }

  method FindFlips(m: Mesh, samples: int) returns (flips: set<nat>)
    requires samples != 0 && Readable(AllFaces(m.sections), m.coords, Wanted(m.sections, samples))
    ensures flips == Flips(m, samples)
  {
    var table, cells := ReadGeometry(m, samples);
    flips := {};
    for i := 0 to |m.sections|
      invariant flips == FlipsUpTo(m, samples, i)
    {
      var s := m.sections[i];
      assert s in m.sections && table[s.id] == SampleOf(m.sections, samples, s.id);
      if s.bc == 2 || table[s.id] == [] {
        continue;
      }
      var frac := ZoneOrientation(table[s.id], m.coords, cells);
      assert InvertedZone(m, samples, s.id) <==> frac.Some? && frac.value < 0.5;
      if frac.Some? && frac.value < 0.5 {
        flips := flips + {s.id};
      }
    }
  }

  lemma {:induction false} WantedIs(sections: seq<Section>, samples: int, table: map<nat, seq<Face>>, wanted: set<nat>)
    requires samples != 0
    requires table == map s | s in sections :: s.id := SampleOf(sections, samples, s.id)
    requires wanted == set id, f | id in table && f in table[id] :: Owner(f)
    ensures wanted == Wanted(sections, samples)
  {
    forall c | c in wanted ensures c in Wanted(sections, samples) {
      var id, f :| id in table && f in table[id] && Owner(f) == c;
      var s :| s in sections && s.id == id;
    }
    forall c | c in Wanted(sections, samples) ensures c in wanted {
      var s, f :| s in sections && f in SampleOf(sections, samples, s.id) && Owner(f) == c;
      assert s.id in table;
    }
  }

  method ReadZones(zones: seq<Zone>) returns (table: seq<Zone>)
    ensures table == Table(zones)
  {
    table := [];
    for i := 0 to |zones|
      invariant table == Table(zones[..i])
    {
      assert zones[..i + 1][..i] == zones[..i];
      table := Without(table, zones[i].id) + [zones[i]];
    }
    assert zones[..|zones|] == zones;
  }

  method RewriteZones(zones: seq<Zone>, order: seq<Entry>) returns (out: seq<Zone>)
    ensures out == Rewritten(zones, order)
  {
    out := [];
    for i := 0 to |zones|
      invariant out == Rewritten(zones[..i], order)
    {
      var z := zones[i];
      if Renumbered(order, z.id) {
        z := Zone(NewId(order, z.id), order[Position(order, z.id)].typ, z.name);
      }
      out := out + [z];
    }
    assert zones[..|zones|] == zones;
  }

  method RewriteSections(sections: seq<Section>, order: seq<Entry>, flips: set<nat>) returns (out: seq<Section>)
    ensures out == RepairedSections(sections, order, flips)
  {
    out := [];
    for i := 0 to |sections|
      invariant out == RepairedSections(sections[..i], order, flips)
    {
      var s := sections[i];
      if Renumbered(order, s.id) {
        var faces := s.faces;
        if s.id in flips {
          faces := TurnAll(faces);
        }
        s := Section(NewId(order, s.id), s.first, s.last, NewBc(order[Position(order, s.id)].typ, s.bc), faces);
      }
      out := out + [s];
    }
    assert sections[..|sections|] == sections;
  }

  method Repair(m: Mesh, overrides: Overrides, samples: int) returns (out: Mesh)
    requires samples != 0 && Readable(AllFaces(m.sections), m.coords, Wanted(m.sections, samples))
    ensures out == RepairedFile(m, overrides, samples)
    ensures UniqueZones(m.zones) ==> out == Repaired(m, overrides, samples)
  {
    var table := ReadZones(m.zones);
    var order := Order(table, overrides);
    var flips := FindFlips(m, samples);
    var zones := RewriteZones(m.zones, order);
    var sections := RewriteSections(m.sections, order, flips);
    out := Mesh(zones, sections, m.coords);
    if UniqueZones(m.zones) { RepairedFileIs(m, overrides, samples); }
  }

  // ---- a second repair --------------------------------------------------------------------------------

  /** What the first repair needs of a mesh for a second one to read it as the first left it: no id
      that is not handed out lies among those that are, and no boundary section passes for an interior
      one. */
  ghost predicate Clean(m: Mesh, overrides: Overrides) {
    var order := Order(m.zones, overrides);
    && UniqueZones(m.zones)
    && (forall z :: z in m.zones && !Boundary(z) ==> !(FIRST <= z.id < FIRST + |order|))
    && (forall s :: s in m.sections && !Renumbered(order, s.id) ==> !(FIRST <= s.id < FIRST + |order|))
    && (forall s :: s in m.sections && Renumbered(order, s.id) ==> s.bc != 2)
  }

  /** The form of mesh the repair is for: the fluid and interior zones keep ids below the first one handed
      out, every face section belongs to a listed zone, and no boundary section is coded as interior. */
  ghost predicate Exported(m: Mesh) {
    && UniqueZones(m.zones)
    && (forall z :: z in m.zones && !Boundary(z) ==> z.id < FIRST)
    && (forall s :: s in m.sections ==> exists z :: z in m.zones && z.id == s.id && (Boundary(z) ==> s.bc != 2))
  }

  lemma ExportedIsClean(m: Mesh, overrides: Overrides)
    requires Exported(m)
    ensures Clean(m, overrides)
  {
    var order := Order(m.zones, overrides);
    OrderHolds(m.zones, overrides);
    forall s | s in m.sections
      ensures if Renumbered(order, s.id) then s.bc != 2 else !(FIRST <= s.id < FIRST + |order|) {
      var z :| z in m.zones && z.id == s.id && (Boundary(z) ==> s.bc != 2);
      if Boundary(z) {
        var k := PlaceOf(m.zones, overrides, order, z);
      } else {
        InnerKeepsId(m.zones, overrides, order, z);
      }
    }
  }

  lemma {:induction false} TurnedSample(s: Section, t: Section, samples: int, k: nat)
    requires samples != 0 && k <= |s.faces|
    requires s.bc != 2 && t.bc != 2 && s.first == t.first && s.last == t.last && t.faces == TurnAll(s.faces)
    ensures SampledUpTo(t, samples, k) == TurnAll(SampledUpTo(s, samples, k))
  {
    if k > 0 {
      TurnedSample(s, t, samples, k - 1);
      var front := SampledUpTo(s, samples, k - 1);
      assert TurnAll(front + [s.faces[k - 1]]) == TurnAll(front) + [Turned(s.faces[k - 1])];
    }
  }

  lemma {:induction false} SameSample(s: Section, t: Section, samples: int, k: nat)
    requires samples != 0 && k <= |s.faces|
    requires s.bc != 2 && t.bc != 2 && s.first == t.first && s.last == t.last && t.faces == s.faces
    ensures SampledUpTo(t, samples, k) == SampledUpTo(s, samples, k)
  {
    if k > 0 { SameSample(s, t, samples, k - 1); }
  }

  /** The samples of a section come from under its own header alone. */
  lemma SectionSample(s: Section, t: Section, samples: int, flip: bool)
    requires samples != 0 && s.bc != 2 && t.bc != 2 && s.first == t.first && s.last == t.last
    requires t.faces == if flip then TurnAll(s.faces) else s.faces
    ensures Sampled(t, samples) == if flip then TurnAll(Sampled(s, samples)) else Sampled(s, samples)
  {
    if flip { TurnedSample(s, t, samples, |s.faces|); } else { SameSample(s, t, samples, |s.faces|); }
  }

  /** `after` is `before` with the ids that are `old` now `new`, and their faces turned if `flip`. */
  ghost predicate Follows(before: seq<Section>, after: seq<Section>, was: nat, now: nat, flip: bool) {
    && |before| == |after|
    && (forall i :: 0 <= i < |before| ==> (before[i].id == was <==> after[i].id == now))
    && (forall i :: 0 <= i < |before| && before[i].id == was ==>
          && before[i].bc != 2 && after[i].bc != 2
          && before[i].first == after[i].first && before[i].last == after[i].last
          && after[i].faces == if flip then TurnAll(before[i].faces) else before[i].faces)
  }

  lemma {:induction false} SampleFollows(before: seq<Section>, after: seq<Section>, samples: int, was: nat, now: nat,
                                         flip: bool)
    requires samples != 0 && Follows(before, after, was, now, flip)
    ensures SampleOf(after, samples, now)
         == if flip then TurnAll(SampleOf(before, samples, was)) else SampleOf(before, samples, was)
  {
    if before != [] {
      var n := |before| - 1;
      if before[n].id == was {
        SectionSample(before[n], after[n], samples, flip);
      } else {
        SampleFollows(before[..n], after[..n], samples, was, now, flip);
      }
    }
  }

  lemma {:induction false} FacesStay(before: seq<Section>, after: seq<Section>)
    requires |before| == |after|
    requires forall i :: 0 <= i < |before| ==>
        after[i].faces == before[i].faces || after[i].faces == TurnAll(before[i].faces)
    ensures SameUpToTurning(AllFaces(before), AllFaces(after))
  {
    if before != [] {
      FacesStay(before[..|before| - 1], after[..|after| - 1]);
    }
  }

  /** The cell a sampled face belongs to has the same centre in any mesh with the same faces. */
  lemma SameVerdict(m: Mesh, after: Mesh, samples: int, s: Section, t: Section, sample: seq<Face>)
    requires samples != 0 && m.coords == after.coords && s in m.sections && t in after.sections
    requires SameUpToTurning(AllFaces(m.sections), AllFaces(after.sections))
    requires forall f :: f in sample ==>
        Owner(f) in Wanted(m.sections, samples) && Owner(f) in Wanted(after.sections, samples)
    ensures Inverted(sample, m.coords, CellsOf(m, samples)) == Inverted(sample, m.coords, CellsOf(after, samples))
  {
    forall f | f in sample ensures CellsOf(m, samples)[Owner(f)] == CellsOf(after, samples)[Owner(f)] {
      CellsStay(AllFaces(m.sections), AllFaces(after.sections), m.coords, Owner(f));
    }
    OnlyOwnersMatter(sample, m.coords, CellsOf(m, samples), CellsOf(after, samples), Outward);
    OnlyOwnersMatter(sample, m.coords, CellsOf(m, samples), CellsOf(after, samples), NotOutward);
    InvertedMeans(sample, m.coords, CellsOf(m, samples));
    InvertedMeans(sample, m.coords, CellsOf(after, samples));
  }

  lemma RemainingComesFrom(order: seq<Entry>, id: nat) returns (k: nat)
    requires UniqueEntries(order) && Renumbered(Remaining(order), id)
    ensures k < |order| && id == FIRST + k && order[k].typ != "interior"
    ensures Remaining(order)[Position(Remaining(order), id)].typ == order[k].typ
  {
    var e := Remaining(order)[Position(Remaining(order), id)];
    var x := Sorting.CollectedFrom(order, Again(order), e);
    k :| k < |order| && order[k] == x;
    PositionIs(order, k);
  }

  /** A zone the second repair still renumbers: a boundary zone, not retyped `interior`. */
  ghost predicate Open(order: seq<Entry>, id: nat) {
    Renumbered(order, id) && order[Position(order, id)].typ != "interior"
  }

  lemma StaysOpen(s: Section, order: seq<Entry>, flip: bool)
    requires s.bc != 2 && Open(order, s.id)
    ensures RepairedSection(s, order, flip).bc != 2
  {
  }

  lemma SameIdAfter(m: Mesh, overrides: Overrides, s: Section, t: Section, flip: bool)
    requires Clean(m, overrides) && s in m.sections && t in m.sections && Renumbered(Order(m.zones, overrides), s.id)
    ensures var order := Order(m.zones, overrides);
      t.id == s.id <==> RepairedSection(t, order, flip).id == NewId(order, s.id)
  {
    var order := Order(m.zones, overrides);
    if Renumbered(order, t.id) {
      assert order[Position(order, t.id)].id == t.id && order[Position(order, s.id)].id == s.id;
    }
  }

  lemma SectionsFollow(m: Mesh, overrides: Overrides, flips: set<nat>, s: Section)
    requires Clean(m, overrides) && s in m.sections && Open(Order(m.zones, overrides), s.id)
    ensures var order := Order(m.zones, overrides);
      Follows(m.sections, RepairedSections(m.sections, order, flips), s.id, NewId(order, s.id), s.id in flips)
  {
    var order := Order(m.zones, overrides);
    var after := RepairedSections(m.sections, order, flips);
    forall j | 0 <= j < |after| ensures m.sections[j].id == s.id <==> after[j].id == NewId(order, s.id) {
      SameIdAfter(m, overrides, s, m.sections[j], m.sections[j].id in flips);
    }
    forall j | 0 <= j < |after| && m.sections[j].id == s.id ensures m.sections[j].bc != 2 && after[j].bc != 2 {
      assert m.sections[j] in m.sections;
      StaysOpen(m.sections[j], order, m.sections[j].id in flips);
    }
  }

  lemma SectionFaces(m: Mesh, overrides: Overrides, samples: int)
    requires samples != 0
    ensures SameUpToTurning(AllFaces(m.sections), AllFaces(Repaired(m, overrides, samples).sections))
  {
    FacesStay(m.sections, Repaired(m, overrides, samples).sections);
  }

  lemma FlippedIffInverted(m: Mesh, samples: int, s: Section)
    requires samples != 0 && s in m.sections && s.bc != 2
    ensures s.id in Flips(m, samples) <==> InvertedZone(m, samples, s.id)
  {
    FlipsMeans(m, samples, |m.sections|, s.id);
    var i :| 0 <= i < |m.sections| && m.sections[i] == s;
  }

  /** Of the sampled faces of a zone neither the outward ones nor the inward ones are half of those
      judged, so that no repair settles it. */
  ghost predicate NeverSettles(m: Mesh, samples: int, id: nat)
    requires samples != 0
  {
    Undecided(SampleOf(m.sections, samples, id), m.coords, CellsOf(m, samples))
  }

  lemma {:induction false} SampleAgain(m: Mesh, overrides: Overrides, samples: int, s: Section)
    requires samples != 0 && Clean(m, overrides) && s in m.sections && Open(Order(m.zones, overrides), s.id)
    ensures var before, id := SampleOf(m.sections, samples, s.id), NewId(Order(m.zones, overrides), s.id);
      SampleOf(Repaired(m, overrides, samples).sections, samples, id)
      == if InvertedZone(m, samples, s.id) then TurnAll(before) else before
  {
    FlippedIffInverted(m, samples, s);
    SectionsFollow(m, overrides, Flips(m, samples), s);
    SampleFollows(m.sections, Repaired(m, overrides, samples).sections, samples, s.id,
                  NewId(Order(m.zones, overrides), s.id), s.id in Flips(m, samples));
  }

  /** Sampled faces of `after` filed under `t` that are those of `m` under `s`, perhaps turned, have
      their owner cells gathered in both. */
  lemma {:induction false} OwnersWanted(m: Mesh, after: Mesh, samples: int, s: Section, t: Section)
    requires samples != 0 && s in m.sections && t in after.sections
    requires var before, now := SampleOf(m.sections, samples, s.id), SampleOf(after.sections, samples, t.id);
      now == before || now == TurnAll(before)
    ensures forall f :: f in SampleOf(after.sections, samples, t.id) ==>
      Owner(f) in Wanted(m.sections, samples) && Owner(f) in Wanted(after.sections, samples)
  {
    var before, now := SampleOf(m.sections, samples, s.id), SampleOf(after.sections, samples, t.id);
    forall f | f in now ensures Owner(f) in Wanted(m.sections, samples) && Owner(f) in Wanted(after.sections, samples) {
      var i :| 0 <= i < |now| && now[i] == f;
      assert before[i] in before && Owner(before[i]) == Owner(f);
    }
  }

  lemma OpenSection(m: Mesh, overrides: Overrides, samples: int, i: nat)
    requires samples != 0 && Clean(m, overrides) && i < |m.sections|
    requires Open(Order(m.zones, overrides), m.sections[i].id)
    ensures var t := Repaired(m, overrides, samples).sections[i];
      t.id == NewId(Order(m.zones, overrides), m.sections[i].id) && t.bc != 2
  {
    assert m.sections[i] in m.sections;
    StaysOpen(m.sections[i], Order(m.zones, overrides), m.sections[i].id in Flips(m, samples));
  }

  lemma {:induction false} InvertedAgainIff(m: Mesh, after: Mesh, samples: int, s: Section, t: Section)
    requires samples != 0 && m.coords == after.coords && s in m.sections && t in after.sections
    requires SameUpToTurning(AllFaces(m.sections), AllFaces(after.sections))
    requires var before := SampleOf(m.sections, samples, s.id);
      SampleOf(after.sections, samples, t.id) == if InvertedZone(m, samples, s.id) then TurnAll(before) else before
    ensures InvertedZone(after, samples, t.id) <==> NeverSettles(m, samples, s.id)
  {
    InvertedBothWaysIff(SampleOf(m.sections, samples, s.id), m.coords, CellsOf(m, samples));
    OwnersWanted(m, after, samples, s, t);
    SameVerdict(m, after, samples, s, t, SampleOf(after.sections, samples, t.id));
  }

  /** A second repair reverses a zone again exactly when neither outward nor inward faces are half of
      those judged in its sample. */
  lemma SecondFlipIff(m: Mesh, overrides: Overrides, samples: int, i: nat)
    requires samples != 0 && Clean(m, overrides) && i < |m.sections|
    requires Open(Order(m.zones, overrides), m.sections[i].id)
    ensures var after := Repaired(m, overrides, samples);
      after.sections[i].id in Flips(after, samples) <==> NeverSettles(m, samples, m.sections[i].id)
  {
    var s, after := m.sections[i], Repaired(m, overrides, samples);
    var t := after.sections[i];
    assert s in m.sections && t in after.sections;
    OpenSection(m, overrides, samples, i);
    SampleAgain(m, overrides, samples, s);
    SectionFaces(m, overrides, samples);
    InvertedAgainIff(m, after, samples, s, t);
    FlippedIffInverted(after, samples, t);
  }

  /** The second repair knows the zone of an open section by the number it was given. */
  lemma {:induction false} OpenIdAgain(m: Mesh, overrides: Overrides, id: nat)
    requires UniqueZones(m.zones) && Accepted(overrides)
    requires var order := Order(m.zones, overrides); InteriorLast(order) && Open(order, id)
    ensures var order := Order(m.zones, overrides);
      var again := Remaining(order);
      && Renumbered(again, NewId(order, id)) && NewId(again, NewId(order, id)) == NewId(order, id)
      && again[Position(again, NewId(order, id))].typ == order[Position(order, id)].typ
  {
    var order := Order(m.zones, overrides);
    OrderHolds(m.zones, overrides);
    OrderHasNoFluid(m.zones, overrides, order);
    SecondId(order, Position(order, id));
    var k := RemainingComesFrom(order, NewId(order, id));
  }

  /** A second repair that renumbers a section's zone leaves all of it but the winding, and the winding
      too if the zone is not reversed again or its faces read the same both ways. */
  lemma OpenSectionAgain(m: Mesh, overrides: Overrides, samples: int, i: nat)
    requires samples != 0 && Clean(m, overrides) && Accepted(overrides) && i < |m.sections|
    requires var order := Order(m.zones, overrides); InteriorLast(order) && Open(order, m.sections[i].id)
    ensures var after := Repaired(m, overrides, samples);
      var t, settled := after.sections[i], !NeverSettles(m, samples, m.sections[i].id);
      RepairedSection(t, Remaining(Order(m.zones, overrides)), t.id in Flips(after, samples))
      == if settled then t else t.(faces := TurnAll(t.faces))
  {
    var order := Order(m.zones, overrides);
    var s, t := m.sections[i], Repaired(m, overrides, samples).sections[i];
    assert s in m.sections;
    OpenIdAgain(m, overrides, s.id);
    SecondFlipIff(m, overrides, samples, i);
  }

  lemma StillOpen(m: Mesh, overrides: Overrides, samples: int, i: nat)
    requires samples != 0 && Clean(m, overrides) && i < |m.sections|
    requires Renumbered(Remaining(Order(m.zones, overrides)), Repaired(m, overrides, samples).sections[i].id)
    ensures Open(Order(m.zones, overrides), m.sections[i].id)
  {
    var order := Order(m.zones, overrides);
    assert m.sections[i] in m.sections;
    OrderIsUnique(m.zones, overrides);
    var k := RemainingComesFrom(order, Repaired(m, overrides, samples).sections[i].id);
    assert Renumbered(order, m.sections[i].id) && Position(order, m.sections[i].id) == k;
  }

  lemma ClosedSectionAgain(m: Mesh, overrides: Overrides, samples: int, i: nat, flip: bool)
    requires samples != 0 && Clean(m, overrides) && i < |m.sections|
    requires !Open(Order(m.zones, overrides), m.sections[i].id)
    ensures var t := Repaired(m, overrides, samples).sections[i];
      RepairedSection(t, Remaining(Order(m.zones, overrides)), flip) == t
  {
    var order := Order(m.zones, overrides);
    if Renumbered(Remaining(order), Repaired(m, overrides, samples).sections[i].id) {
      StillOpen(m, overrides, samples, i);
    }
  }

  /** Reversing the section's faces changes nothing. */
  predicate Palindromic(s: Section) { TurnAll(s.faces) == s.faces }

  lemma {:induction false} TurnAllTwice(faces: seq<Face>)
    ensures TurnAll(TurnAll(faces)) == faces
  {
    forall i | 0 <= i < |faces| ensures Turned(Turned(faces[i])) == faces[i] { RevTwice(faces[i].nodes); }
  }

  /** The section stays as the first repair wrote it unless its zone never settles and it shows. */
  lemma SectionStandsIff(m: Mesh, overrides: Overrides, samples: int, i: nat)
    requires samples != 0 && Clean(m, overrides) && Accepted(overrides) && i < |m.sections|
    requires InteriorLast(Order(m.zones, overrides))
    ensures var after, s := Repaired(m, overrides, samples), m.sections[i];
      RepairedSection(after.sections[i], Remaining(Order(m.zones, overrides)),
          after.sections[i].id in Flips(after, samples))
      == after.sections[i]
      <==> (Open(Order(m.zones, overrides), s.id) && NeverSettles(m, samples, s.id) ==> Palindromic(s))
  {
    var after, s := Repaired(m, overrides, samples), m.sections[i];
    if Open(Order(m.zones, overrides), s.id) {
      OpenSectionAgain(m, overrides, samples, i);
      TurnAllTwice(s.faces);
    } else {
      ClosedSectionAgain(m, overrides, samples, i, after.sections[i].id in Flips(after, samples));
    }
  }

  lemma SectionsStandIff(sections: seq<Section>, order: seq<Entry>, flips: set<nat>)
    ensures RepairedSections(sections, order, flips) == sections
      <==> forall i :: 0 <= i < |sections| ==>
          RepairedSection(sections[i], order, sections[i].id in flips) == sections[i]
  {
    if RepairedSections(sections, order, flips) == sections {
      forall i | 0 <= i < |sections|
        ensures RepairedSection(sections[i], order, sections[i].id in flips) == sections[i] {
        assert RepairedSections(sections, order, flips)[i] == sections[i];
      }
    }
  }

  /** The section's zone is renumbered again and never settles, and its faces show it. */
  ghost predicate Restless(m: Mesh, overrides: Overrides, samples: int, s: Section)
    requires samples != 0
  {
    Open(Order(m.zones, overrides), s.id) && NeverSettles(m, samples, s.id) && !Palindromic(s)
  }

  lemma SectionsAgainIff(m: Mesh, overrides: Overrides, samples: int)
    requires samples != 0 && Clean(m, overrides) && Accepted(overrides)
    requires InteriorLast(Order(m.zones, overrides))
    ensures var after := Repaired(m, overrides, samples);
      RepairedSections(after.sections, Remaining(Order(m.zones, overrides)), Flips(after, samples)) == after.sections
      <==> forall s :: s in m.sections ==> !Restless(m, overrides, samples, s)
  {
    var after, again := Repaired(m, overrides, samples), Remaining(Order(m.zones, overrides));
    SectionsStandIff(after.sections, again, Flips(after, samples));
    forall i | 0 <= i < |m.sections|
      ensures RepairedSection(after.sections[i], again, after.sections[i].id in Flips(after, samples))
          == after.sections[i]
        <==> !Restless(m, overrides, samples, m.sections[i]) {
      SectionStandsIff(m, overrides, samples, i);
    }
    forall s | s in m.sections ensures exists i :: 0 <= i < |m.sections| && m.sections[i] == s {}
  }

  /** IDEMPOTENT, EXACTLY WHEN. Repairing a repaired mesh writes the same mesh, types, ids, codes and
      windings, if and only if the zones retyped `interior` come last and no section is restless. */
  lemma RepairIsIdempotentIff(m: Mesh, overrides: Overrides, samples: int)
    requires samples != 0 && Clean(m, overrides) && Accepted(overrides)
    ensures UniqueZones(Repaired(m, overrides, samples).zones)
    ensures Repaired(Repaired(m, overrides, samples), overrides, samples) == Repaired(m, overrides, samples)
      <==> && InteriorLast(Order(m.zones, overrides))
           && forall s :: s in m.sections ==> !Restless(m, overrides, samples, s)
  {
    IdsStayUniqueIff(m.zones, overrides);
    SecondOrder(m.zones, overrides);
    SecondNumberingIff(m.zones, overrides);
    if InteriorLast(Order(m.zones, overrides)) { SectionsAgainIff(m, overrides, samples); }
  }

  // ---- a mesh that every repair turns ---------------------------------------------------------------------

  /** A triangle between two cells. */
  const SHARED := Face([1, 2, 3], 1, 2)

  const BAFFLE := Section(3, 1, 1, 3, [SHARED])

  const CORNERS: map<nat, Vec> := map[1 := ZERO, 2 := Vec(1.0, 0.0, 0.0), 3 := Vec(0.0, 1.0, 0.0)]

  const TWO_SIDED := Mesh([Zone(3, "wall", "w")], [BAFFLE], CORNERS)

  lemma BaffleIsOpen()
    ensures UniqueZones(TWO_SIDED.zones) && Open(Order(TWO_SIDED.zones, map[]), 3)
    ensures InteriorLast(Order(TWO_SIDED.zones, map[]))
  {
    var z, zones := Zone(3, "wall", "w"), TWO_SIDED.zones;
    assert z in zones;
    Unrecognised("w");
    OrderHolds(zones, map[]);
    var order := Order(zones, map[]);
    var k := PlaceOf(zones, map[], order, z);
    forall e | e in order ensures e.typ == "wall" {
      var y :| y in zones && Boundary(y) && Entered(y, map[]) == e;
      assert y == z;
    }
    forall i | 0 <= i < |order| ensures order[i].typ == "wall" { assert order[i] in order; }
  }

  lemma BaffleSampled()
    ensures SampleOf([BAFFLE], 40, 3) == [SHARED] && AllFaces([BAFFLE]) == [SHARED]
    ensures Owner(SHARED) in Wanted([BAFFLE], 40)
  {
    assert Sampled(BAFFLE, 40) == SampledUpTo(BAFFLE, 40, 1) == SampledUpTo(BAFFLE, 40, 0) + [SHARED];
    assert [BAFFLE][..0] == [];
    assert BAFFLE in [BAFFLE] && SHARED in SampleOf([BAFFLE], 40, BAFFLE.id);
  }

  lemma SharedIsJudged(cells: map<nat, Cell>)
    requires 1 in cells && cells[1].count == 1
    ensures Undecided([SHARED], CORNERS, cells)
  {
    AllPoints([1, 2, 3], CORNERS);
    InnerFacesNeverSettle([SHARED], CORNERS, cells);
    assert [SHARED][..0] == [];
  }

  lemma BaffleNeverSettles()
    ensures NeverSettles(TWO_SIDED, 40, 3)
  {
    BaffleSampled();
    AllPoints([1, 2, 3], CORNERS);
    var cell := CellOf([SHARED], CORNERS, 1);
    assert CellOf([], CORNERS, 1) == Cell(ZERO, 0);
    assert [SHARED][..0] == [] && cell == Gathered(Cell(ZERO, 0), SHARED, CORNERS, 1);
    assert |Points(SHARED.nodes, CORNERS)| == 3 && cell.count == 1;
    assert CellsOf(TWO_SIDED, 40)[1] == cell;
    SharedIsJudged(CellsOf(TWO_SIDED, 40));
  }

  lemma BaffleShows()
    ensures !Palindromic(BAFFLE)
  {
    RevEnds([1, 2, 3]);
    assert Turned(SHARED).nodes[0] == 3;
    assert TurnAll([SHARED])[0] == Turned(SHARED) && [SHARED][0] == SHARED;
  }

  lemma BaffleIsClean()
    ensures Clean(TWO_SIDED, map[]) && Accepted(map[])
  {
    BaffleIsOpen();
    assert TWO_SIDED.sections == [BAFFLE] && TWO_SIDED.zones == [Zone(3, "wall", "w")];
  }

  /** Repaired over and over, this mesh is never written as it was: its one face lies between two cells. */
  lemma TwoSidedZoneNeverSettles()
    ensures Clean(TWO_SIDED, map[]) && Accepted(map[])
    ensures var once := Repaired(TWO_SIDED, map[], 40); Repaired(once, map[], 40) != once
  {
    BaffleIsClean();
    BaffleIsOpen();
    BaffleNeverSettles();
    BaffleShows();
    assert BAFFLE in TWO_SIDED.sections && Restless(TWO_SIDED, map[], 40, BAFFLE);
    RepairIsIdempotentIff(TWO_SIDED, map[], 40);
  }

  /** When every sampled face has one open side and is not seen edge-on, no zone fails to settle. */
  lemma {:induction false} DecisiveZonesSettle(m: Mesh, samples: int, id: nat)
    requires samples != 0
    requires forall f :: f in SampleOf(m.sections, samples, id) ==> Decisive(f, m.coords, CellsOf(m, samples))
    ensures !NeverSettles(m, samples, id)
  {
    InvertedBothWaysIff(SampleOf(m.sections, samples, id), m.coords, CellsOf(m, samples));
    if InvertedZone(m, samples, id) {
      TurnedZoneIsUpright(SampleOf(m.sections, samples, id), m.coords, CellsOf(m, samples));
    }
  }

  // ---- a mesh that is not of that form ---------------------------------------------------------------------

  const FLUID := Zone(10, "fluid", "f")

  const WALL := Zone(3, "wall", "w")

  /** The fluid zone has the id that the wall is given. */
  const COLLIDING := Mesh([FLUID, WALL], [], map[])

  lemma WallOrder()
    ensures UniqueZones(COLLIDING.zones) && |Order(COLLIDING.zones, map[])| > 0
    ensures NewId(Order(COLLIDING.zones, map[]), 3) == FIRST
  {
    var zones := COLLIDING.zones;
    var order := Order(zones, map[]);
    assert WALL in zones;
    OrderHolds(zones, map[]);
    var k := PlaceOf(zones, map[], order, WALL);
    NumberingIsBijective(zones, map[]);
    assert Handed(zones, order, FIRST);
    var z :| z in zones && Boundary(z) && NewId(order, z.id) == FIRST;
    assert z == WALL;
  }

  lemma WallIsFirst()
    ensures UniqueZones(COLLIDING.zones) && !Clean(COLLIDING, map[])
    ensures RepairedZones(COLLIDING.zones, map[]) == [FLUID, Zone(10, "wall", "w")]
  {
    WallOrder();
    Unrecognised("w");
    assert FLUID in COLLIDING.zones;
  }

  /** Of two lines with one id the second repair takes the last for both, and the fluid becomes a wall; so
      the form is needed. */
  lemma CollidingIdsMove()
    ensures UniqueZones(COLLIDING.zones) && !Clean(COLLIDING, map[]) && Accepted(map[])
    ensures var once := RepairedFile(COLLIDING, map[], 40); RepairedFile(once, map[], 40) != once
  {
    WallIsFirst();
    assert FLUID in COLLIDING.zones;
    RepairedFileIs(COLLIDING, map[], 40);
    var once := RepairedFile(COLLIDING, map[], 40);
    Unrecognised("w");
    assert LastWith(once.zones, 1);
    RepeatedLinesFollowTheLast(once, map[], 40, 0, 1);
  }
}
