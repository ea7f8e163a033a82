/** The rules of the mesh repair, spelled out: which type a zone's name stands for, which code its faces carry, in
    which order the zones are numbered and how many faces are sampled (devtools/validation/fluent_repair.py). */
module ZoneRules {
  import opened Wrappers
  import opened Text
  import opened Sorting
  import opened Orientation
  import opened Numbering
  import opened MeshRepair

  // ---- types -------------------------------------------------------------------------------------------

  /** `part` occurs in the text. */
  ghost predicate Says(text: string, part: string) { exists front: string, back: string :: text == front + part + back }

  lemma SaysIff(text: string, part: string)
    ensures Contains(text, part) <==> Says(text, part)
  {
    if Contains(text, part) {
      var i :| 0 <= i <= |text| && StandsAt(text, part, i);
      assert text == text[..i] + part + text[i + |part|..];
    }
    if Says(text, part) {
      var front, back :| text == front + part + back;
      assert StandsAt(text, part, |front|);
    }
  }

  /** The type a name stands for when the command line gives it none; the first word that it says decides. */
  ghost function TypeOfName(low: string): Option<string> {
    if Says(low, "inlet") then Some("velocity-inlet")
    else if Says(low, "outlet") then Some("pressure-outlet")
    else if Says(low, "wall") || Says(low, "body") then Some("wall")
    else if Says(low, "sym") then Some("symmetry")
    else if Says(low, "farfield") || Says(low, "far-field") || Says(low, "far_field") then Some("velocity-inlet")
    else None
  }

  /** The rules from the `k`-th on. */
  lemma {:induction false} RulesFrom(low: string, k: nat)
    requires k < 8
    ensures ByRules(low, NAME_RULES[k..])
         == if Says(low, NAME_RULES[k].0) then Some(NAME_RULES[k].1) else ByRules(low, NAME_RULES[k + 1..])
  {
    SaysIff(low, NAME_RULES[k].0);
    assert NAME_RULES[k..][1..] == NAME_RULES[k + 1..] && NAME_RULES[k..][0] == NAME_RULES[k];
  }

  lemma {:induction false} TypeByName(low: string)
    ensures ByRules(low, NAME_RULES) == TypeOfName(low)
  {
    assert NAME_RULES[0..] == NAME_RULES && NAME_RULES[8..] == [];
    RulesFrom(low, 0);
    RulesFrom(low, 1);
    RulesFrom(low, 2);
    RulesFrom(low, 3);
    RulesFrom(low, 4);
    RulesFrom(low, 5);
    RulesFrom(low, 6);
    RulesFrom(low, 7);
  }

  /** The type a boundary zone is to have: the command line's for its name, the one its name stands for, or the one it
      had. */
  ghost function WantedType(z: Zone, overrides: Overrides): string {
    if Lower(z.name) in overrides then overrides[Lower(z.name)]
    else match TypeOfName(Lower(z.name)) case Some(t) => t case None => z.typ
  }

  lemma NewTypeIsWanted(z: Zone, overrides: Overrides)
    ensures NewType(z, overrides) == WantedType(z, overrides)
  {
    TypeByName(Lower(z.name));
  }

  /** Zones of cells and of the faces between them are left alone. */
  predicate Inner(z: Zone) { z.typ == "fluid" || z.typ == "interior" }

  /** WHAT A ZONE LINE BECOMES. A line of cells or inner faces stays as it is; any other keeps its name, gets the
      type it is to have, and is numbered from ten on. */
  lemma ZoneLineIs(m: Mesh, overrides: Overrides, samples: int, i: nat)
    requires samples != 0 && LastWith(m.zones, i)
    ensures var (z, now) := (m.zones[i], RepairedFile(m, overrides, samples).zones[i]);
      if Inner(z) then now == z
      else now.name == z.name && now.typ == WantedType(z, overrides) && now.id >= 10
  {
    RepeatedLinesFollowTheLast(m, overrides, samples, i, i);
    NewTypeIsWanted(m.zones[i], overrides);
  }

  // ---- codes -------------------------------------------------------------------------------------------

  /** The boundary-condition codes of the file format, in its hexadecimal. */
  const CODES: map<string, nat> :=
    map["interior" := 0x2, "wall" := 0x3, "pressure-inlet" := 0x4, "pressure-outlet" := 0x5, "symmetry" := 0x7,
        "pressure-far-field" := 0x9, "velocity-inlet" := 0xA, "mass-flow-inlet" := 0x14, "outflow" := 0x1F]

  lemma CodeIs(typ: string)
    ensures BcCode(typ) == if typ in CODES then Some(CODES[typ]) else None
  {
  }

  /** WHAT ITS FACES CARRY. The section of a boundary zone gets the zone's number, and the code of its type if the
      format has one; the sections of other zones keep both. */
  lemma SectionCodeIs(m: Mesh, overrides: Overrides, samples: int, i: nat, last: nat)
    requires samples != 0 && i < |m.sections| && LastWith(m.zones, last) && m.zones[last].id == m.sections[i].id
    ensures var (was, z) := (m.sections[i], m.zones[last]);
      var (now, line) := (RepairedFile(m, overrides, samples).sections[i],
                          RepairedFile(m, overrides, samples).zones[last]);
      && now.first == was.first && now.last == was.last
      && if Inner(z) then now.id == was.id && now.bc == was.bc
         else now.id == line.id && now.bc == if line.typ in CODES then CODES[line.typ] else was.bc
  {
    RepeatedLinesFollowTheLast(m, overrides, samples, last, last);
    LineTypeIs(m, overrides, samples, last);
    CodeIs(RepairedFile(m, overrides, samples).zones[last].typ);
  }

  lemma LineTypeIs(m: Mesh, overrides: Overrides, samples: int, i: nat)
    requires samples != 0 && LastWith(m.zones, i)
    ensures var (order, z) := (Order(Table(m.zones), overrides), m.zones[i]);
      RepairedFile(m, overrides, samples).zones[i] == RewrittenLine(z, order)
  {
  }

  // ---- numbers -----------------------------------------------------------------------------------------

  /** The order of the roles; a type without one comes after them all. */
  function Rank(typ: string): nat {
    if typ == "velocity-inlet" then 1 else if typ == "mass-flow-inlet" then 2 else if typ == "pressure-inlet" then 3
    else if typ == "pressure-outlet" then 4 else if typ == "outflow" then 5 else if typ == "wall" then 6
    else if typ == "symmetry" then 7 else if typ == "pressure-far-field" then 8 else 9
  }

  lemma {:induction false} RoleFrom(typ: string, k: nat)
    requires k < 8
    ensures RoleIn(typ, ROLE_PRIORITY[k..])
         == if typ == ROLE_PRIORITY[k] then 0 else 1 + RoleIn(typ, ROLE_PRIORITY[k + 1..])
  {
    assert ROLE_PRIORITY[k..][1..] == ROLE_PRIORITY[k + 1..] && ROLE_PRIORITY[k..][0] == ROLE_PRIORITY[k];
  }

  lemma RankOfRole(typ: string)
    ensures typ in ROLE_PRIORITY <==> Rank(typ) < 9
    ensures Role(typ) == if Rank(typ) < 9 then Rank(typ) - 1 else 99
  {
    RolesAre();
    assert ROLE_PRIORITY[0..] == ROLE_PRIORITY;
    RoleFrom(typ, 0);
    RoleFrom(typ, 1);
    RoleFrom(typ, 2);
    RoleFrom(typ, 3);
    RoleFrom(typ, 4);
    RoleFrom(typ, 5);
    RoleFrom(typ, 6);
    RoleFrom(typ, 7);
  }

  lemma RolesAre()
    ensures ROLE_PRIORITY[0] == "velocity-inlet" && ROLE_PRIORITY[1] == "mass-flow-inlet"
    ensures ROLE_PRIORITY[2] == "pressure-inlet" && ROLE_PRIORITY[3] == "pressure-outlet"
    ensures ROLE_PRIORITY[4] == "outflow" && ROLE_PRIORITY[5] == "wall"
    ensures ROLE_PRIORITY[6] == "symmetry" && ROLE_PRIORITY[7] == "pressure-far-field"
  {
  }

  /** The zone of the first label is to be numbered first. */
  predicate Ahead(a: Label, b: Label) {
    Rank(a.typ) < Rank(b.typ) || (Rank(a.typ) == Rank(b.typ) && a.name != b.name && StringLe(a.name, b.name))
  }

  lemma RanksDecide(a: Label, b: Label)
    requires LabelPrecedes(b, a)
    ensures !Ahead(a, b)
  {
    RankOfRole(a.typ);
    RankOfRole(b.typ);
    StringLeTotal(a.name, b.name);
  }

  /** THE NUMBERS FOLLOW THE ROLES: of two boundary zones the one whose new type comes first in the list of roles
      has the smaller number; of two in one role, the one whose name comes first. */
  lemma NumbersFollowRanks(zones: seq<Zone>, overrides: Overrides, y: Zone, z: Zone)
    requires UniqueZones(zones) && y in zones && z in zones && !Inner(y) && !Inner(z)
    requires Ahead(Label(y.name, WantedType(y, overrides)), Label(z.name, WantedType(z, overrides)))
    ensures NewId(Order(zones, overrides), y.id) < NewId(Order(zones, overrides), z.id)
  {
    NewTypeIsWanted(y, overrides);
    NewTypeIsWanted(z, overrides);
    if NewId(Order(zones, overrides), z.id) < NewId(Order(zones, overrides), y.id) {
      NumbersFollowRoles(zones, overrides, z, y);
      RanksDecide(Label(y.name, NewType(y, overrides)), Label(z.name, NewType(z, overrides)));
    } else if NewId(Order(zones, overrides), z.id) == NewId(Order(zones, overrides), y.id) {
      SameNumber(zones, overrides, y, z);
    }
  }

  lemma SameNumber(zones: seq<Zone>, overrides: Overrides, y: Zone, z: Zone)
    requires UniqueZones(zones) && y in zones && z in zones && Boundary(y) && Boundary(z)
    requires NewId(Order(zones, overrides), y.id) == NewId(Order(zones, overrides), z.id)
    ensures y == z
  {
    NumberingIsBijective(zones, overrides);
    assert SameNewId(zones, Order(zones, overrides), y, z);
  }

  // ---- samples -----------------------------------------------------------------------------------------

  /** How many of the first `k` faces are taken when every `step`-th is. */
  lemma {:induction false} EveryStep(s: Section, samples: int, k: nat)
    requires samples != 0 && s.bc != 2 && k <= |s.faces| <= s.last - s.first + 1
    ensures var step := Step(s.last - s.first + 1, samples);
      (|SampledUpTo(s, samples, k)| - 1) * step < k <= |SampledUpTo(s, samples, k)| * step
      && (k > 0 ==> |SampledUpTo(s, samples, k)| > 0)
  {
    var step := Step(s.last - s.first + 1, samples);
    if k > 0 {
      EveryStep(s, samples, k - 1);
      var before := |SampledUpTo(s, samples, k - 1)|;
      if k - 1 == before * step {
        Multiple(before, step);
        assert (before + 1 - 1) * step == before * step;
        assert (before + 1) * step == before * step + step;
      } else {
        NoMultiple(k - 1, before, step);
      }
    }
  }

  lemma Multiple(a: nat, step: nat)
    requires step > 0
    ensures (a * step) % step == 0
  {
    var q, r := (a * step) / step, (a * step) % step;
    assert a * step == q * step + r;
    assert (a - q) * step == r;
    if a > q { Grows(1, a - q, step); } else { Grows(a - q, 0, step); }
  }

  lemma NoMultiple(n: nat, a: nat, step: nat)
    requires step > 0 && (a - 1) * step < n < a * step
    ensures n % step != 0
  {
    if n % step == 0 {
      var q := n / step;
      assert n == q * step;
      if q >= a { Grows(a, q, step); } else { Grows(q, a - 1, step); }
    }
  }

  lemma Grows(a: int, b: int, step: nat)
    requires a <= b
    ensures a * step <= b * step
  {
  }

  /** HOW MANY FACES ARE JUDGED. Of a boundary section with at least as many faces as samples are asked for, that many
      are taken, and less than twice as many; of a smaller one all are. */
  lemma SampleSize(s: Section, samples: int)
    requires samples > 0 && s.bc != 2 && |s.faces| == s.last - s.first + 1
    ensures |s.faces| < samples ==> |Sampled(s, samples)| == |s.faces|
    ensures |s.faces| >= samples ==> samples <= |Sampled(s, samples)| < 2 * samples
  {
    var n := |s.faces|;
    EveryStep(s, samples, n);
    Sizes(n, samples, |Sampled(s, samples)|, Step(n, samples));
  }

  lemma Sizes(n: nat, samples: nat, taken: nat, step: nat)
    requires samples > 0 && step == if n / samples > 1 then n / samples else 1
    requires (taken - 1) * step < n <= taken * step
    ensures n < samples ==> taken == n
    ensures n >= samples ==> samples <= taken < 2 * samples
  {
    if n >= 2 * samples {
      ManySizes(n, samples, taken, n / samples, n % samples);
    } else {
      FewSteps(n, samples);
    }
  }

  lemma FewSteps(n: nat, samples: nat)
    requires samples > 0 && n < 2 * samples
    ensures n / samples <= 1
  {
  }

  lemma ManySizes(n: nat, samples: nat, taken: nat, q: nat, r: nat)
    requires n == q * samples + r && r < samples && q >= 2
    requires (taken - 1) * q < n <= taken * q
    ensures samples <= taken < 2 * samples
  {
    TwiceTooMany(q, r, samples);
    assert (samples - 1) * q == samples * q - q && (taken - 1) * q == taken * q - q;
    if taken < samples { Grows(taken, samples - 1, q); }
    if taken >= 2 * samples { Grows(2 * samples, taken, q); }
  }

  lemma TwiceTooMany(q: nat, r: nat, samples: nat)
    requires q >= 2 && r < samples
    ensures 2 * samples * q - q >= q * samples + r
  {
    assert 2 * samples * q - q - q * samples == q * (samples - 1);
    assert q * (samples - 1) >= samples - 1;
  }

  /** Faces past the range that the header declares are not looked at. */
  lemma {:induction false} BeyondTheHeader(s: Section, samples: int, k: nat)
    requires samples != 0 && s.first <= s.last + 1 && s.last - s.first + 1 <= k <= |s.faces|
    ensures SampledUpTo(s, samples, k) == SampledUpTo(s, samples, s.last - s.first + 1)
  {
    if k > s.last - s.first + 1 { BeyondTheHeader(s, samples, k - 1); }
  }

  /** A negative number of samples asks for every face. */
  lemma NegativeTakesAll(s: Section, samples: int)
    requires samples < 0 && s.bc != 2 && |s.faces| == s.last - s.first + 1
    ensures |Sampled(s, samples)| == |s.faces|
  {
    EveryStep(s, samples, |s.faces|);
  }
}
