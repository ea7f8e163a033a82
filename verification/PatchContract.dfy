/** The boundary set the user approved, held in one canonical form
    (src/meshpipeline/application/approved_patch_contract.py). A fingerprint is what it digests. */
module PatchContract {
  import opened Wrappers
  import opened Text
  import opened Sorting

  datatype Patch = Patch(name: string, role: string)

  /** An entry of a patch set as JSON carries it; an absent field is None. */
  datatype RawEntry = NotADict | Dict(name: Option<string>, role: Option<string>, typ: Option<string>)

  datatype Raw = Absent | NotAList | Entries(entries: seq<RawEntry>)

  datatype Error = NotList | NotDict | NoName | Duplicate(name: string) | NothingRequired | Version | Altered
    | NotApproved | Mismatch(missing: set<string>, added: set<string>, roleChanged: set<string>)

  datatype Fingerprint = Fingerprint(required: bool, patches: seq<Patch>)

  datatype Contract = Contract(version: int, required: bool, patches: seq<Patch>, fingerprint: Fingerprint)

  /** The stored form of a contract. */
  datatype Stored = Stored(version: Option<int>, required: bool, patches: Raw, fingerprint: Option<Fingerprint>)

  const VERSION: int := 1

  function Said(s: Option<string>): string { match s case Some(t) => t case None => "" }

  /** The first text that is not empty. */
  function Either(a: Option<string>, b: Option<string>): string { if Said(a) != "" then Said(a) else Said(b) }

  /** The entry's name and role without surrounding whitespace; nothing if it is not a dictionary. */
  function Cleaned(e: RawEntry): Option<Patch> {
    if e.NotADict? then None else Some(Patch(Strip(Said(e.name)), Strip(Either(e.role, e.typ))))
  }

  function CleanAll(entries: seq<RawEntry>): seq<Option<Patch>> { Mapped(entries, Cleaned) }

  predicate PatchLe(a: Patch, b: Patch) {
    if a.name == b.name then StringLe(a.role, b.role) else StringLe(a.name, b.name)
  }

  function Names(patches: seq<Patch>): set<string> { set p | p in patches :: p.name }

  /** The first `k` entries, or the first fault among them. */
  function Parsed(cleaned: seq<Option<Patch>>, k: nat): Result<seq<Patch>, Error>
    requires k <= |cleaned|
  {
    if k == 0 then Success([])
    else
      match Parsed(cleaned, k - 1)
      case Failure(e) => Failure(e)
      case Success(out) =>
        if cleaned[k - 1].None? then Failure(NotDict)
        else
          var p := cleaned[k - 1].value;
          if p.name == "" then Failure(NoName)
          else if p.name in Names(out) then Failure(Duplicate(p.name))
          else Success(out + [p])
  }

  function Normalized(raw: Raw): Result<seq<Patch>, Error> {
    match raw
    case Absent => Success([])
    case NotAList => Failure(NotList)
    case Entries(entries) =>
      match Parsed(CleanAll(entries), |entries|)
      case Failure(e) => Failure(e)
      case Success(out) => Success(Sorted(out, PatchLe))
  }

  method ParseEntries(cleaned: seq<Option<Patch>>) returns (r: Result<seq<Patch>, Error>)
    ensures r == Parsed(cleaned, |cleaned|)
  {
    var seen: set<string> := {};
    var out: seq<Patch> := [];
    for k := 0 to |cleaned|
      invariant Parsed(cleaned, k) == Success(out) && seen == Names(out)
    {
      if cleaned[k].None? {
        FaultStays(cleaned, k + 1, |cleaned|);
        return Failure(NotDict);
      }
      var p := cleaned[k].value;
      if p.name == "" {
        FaultStays(cleaned, k + 1, |cleaned|);
        return Failure(NoName);
      }
      if p.name in seen {
        FaultStays(cleaned, k + 1, |cleaned|);
        return Failure(Duplicate(p.name));
      }
      seen := seen + {p.name};
      out := out + [p];
    }
    return Success(out);
  }

  method NormalizePatches(raw: Raw) returns (r: Result<seq<Patch>, Error>)
    ensures r == Normalized(raw)
  {
    if raw.Absent? {
      return Success([]);
    }
    if raw.NotAList? {
      return Failure(NotList);
    }
    var parsed := ParseEntries(CleanAll(raw.entries));
    if parsed.Failure? {
      return parsed;
    }
    return Success(Sorted(parsed.value, PatchLe));
  }

  lemma {:induction false} FaultStays(cleaned: seq<Option<Patch>>, j: nat, k: nat)
    requires j <= k <= |cleaned| && Parsed(cleaned, j).Failure?
    ensures Parsed(cleaned, k) == Parsed(cleaned, j)
  {
    if j < k { FaultStays(cleaned, j, k - 1); }
  }

  function Fingerprinted(required: bool, patches: seq<Patch>): Contract {
    Contract(VERSION, required, patches, Fingerprint(required, patches))
  }

  function Built(raw: Raw, required: Option<bool>): Result<Contract, Error> {
    match Normalized(raw)
    case Failure(e) => Failure(e)
    case Success(patches) =>
      var req := match required case Some(b) => b case None => patches != [];
      if req && patches == [] then Failure(NothingRequired) else Success(Fingerprinted(req, patches))
  }

  function ToRaw(patches: seq<Patch>): Raw {
    Entries(seq(|patches|, i requires 0 <= i < |patches| => Dict(Some(patches[i].name), Some(patches[i].role), None)))
  }

  function ToDict(c: Contract): Stored { Stored(Some(c.version), c.required, ToRaw(c.patches), Some(c.fingerprint)) }

  function FromDict(d: Stored): Result<Contract, Error> {
    if d.version != Some(VERSION) then Failure(Version)
    else
      match Normalized(d.patches)
      case Failure(e) => Failure(e)
      case Success(patches) =>
        if d.required && patches == [] then Failure(NothingRequired)
        else if d.fingerprint != Some(Fingerprint(d.required, patches)) then Failure(Altered)
        else Success(Fingerprinted(d.required, patches))
  }

  predicate Matches(c: Contract, raw: Raw) { Normalized(raw) == Success(c.patches) }

  /** The check before a run: None accepts. */
  function Refusal(c: Contract, raw: Raw): Option<Error> {
    match Normalized(raw)
    case Failure(e) => Some(e)
    case Success(got) =>
      if !c.required then (if got != [] then Some(NotApproved) else None)
      else if got == c.patches then None
      else Some(Mismatch(Names(c.patches) - Names(got), Names(got) - Names(c.patches),
                         set p | p in got && p.name in Names(c.patches) && p !in c.patches :: p.name))
  }

  // ---- the canonical form --------------------------------------------------------------------------

  lemma PatchLeOrders(x: Patch, y: Patch, z: Patch)
    ensures PatchLe(x, y) || PatchLe(y, x)
    ensures PatchLe(x, y) && PatchLe(y, x) ==> x == y
    ensures PatchLe(x, y) && PatchLe(y, z) ==> PatchLe(x, z)
  {
    StringLeTotal(x.name, y.name);
    StringLeTotal(x.role, y.role);
    if PatchLe(x, y) && PatchLe(y, z) {
      if x.name == y.name && y.name == z.name {
        StringLeTransitive(x.role, y.role, z.role);
      } else if x.name != y.name && y.name != z.name {
        StringLeTransitive(x.name, y.name, z.name);
      }
    }
  }

  lemma PatchOrder()
    ensures TotalPreorder(PatchLe) && AntiSymmetric(PatchLe)
  {
    forall x: Patch, y: Patch, z: Patch
      ensures (PatchLe(x, y) || PatchLe(y, x)) && (PatchLe(x, y) && PatchLe(y, z) ==> PatchLe(x, z)) {
      PatchLeOrders(x, y, z);
    }
    forall x: Patch, y: Patch ensures PatchLe(x, y) && PatchLe(y, x) ==> x == y {
      PatchLeOrders(x, y, x);
    }
  }

  function NameOf(p: Patch): string { p.name }

  function NameIn(p: Option<Patch>): Option<string> { match p case Some(q) => Some(q.name) case None => None }

  /** Well-formed entries: each a dictionary that names a patch no other names. */
  ghost predicate WellFormed(cleaned: seq<Option<Patch>>) {
    (forall p :: p in cleaned ==> p.Some? && p.value.name != "") && KeyedOnce(cleaned, NameIn)
  }

  lemma {:induction false} ParsedIff(cleaned: seq<Option<Patch>>, k: nat)
    requires k <= |cleaned|
    ensures Parsed(cleaned, k).Success? <==> WellFormed(cleaned[..k])
    ensures Parsed(cleaned, k).Success? ==> CleanedTo(cleaned, Parsed(cleaned, k).value, k)
  {
    if k > 0 {
      ParsedIff(cleaned, k - 1);
      assert cleaned[..k] == cleaned[..k - 1] + [cleaned[k - 1]];
      if Parsed(cleaned, k - 1).Success? && cleaned[k - 1].Some? {
        NamedBefore(cleaned, Parsed(cleaned, k - 1).value, k - 1, cleaned[k - 1].value.name);
      }
    }
  }

  ghost predicate CleanedTo(cleaned: seq<Option<Patch>>, out: seq<Patch>, k: nat)
    requires k <= |cleaned|
  {
    |out| == k && forall i :: 0 <= i < k ==> cleaned[i] == Some(out[i])
  }

  lemma NamedBefore(cleaned: seq<Option<Patch>>, out: seq<Patch>, k: nat, name: string)
    requires k <= |cleaned| && CleanedTo(cleaned, out, k)
    ensures name in Names(out) <==> exists i :: 0 <= i < k && NameIn(cleaned[i]) == Some(name)
  {
    if i :| 0 <= i < k && NameIn(cleaned[i]) == Some(name) { assert out[i] in out; }
    if name in Names(out) {
      var i :| 0 <= i < k && out[i].name == name;
      assert NameIn(cleaned[i]) == Some(name);
    }
  }

  /** A patch set in canonical form: sorted, each patch named once, nothing to trim. */
  ghost predicate Canonical(patches: seq<Patch>) {
    && SortedBy(patches, PatchLe) && KeyedOnce(patches, NameOf)
    && (forall p :: p in patches ==> p.name != "" && Trimmed(p.name) && Trimmed(p.role))
  }

  lemma CleanedIsTrimmed(e: RawEntry)
    ensures Cleaned(e).Some? ==> Trimmed(Cleaned(e).value.name) && Trimmed(Cleaned(e).value.role)
  {
  }

  lemma {:induction false} ParsedIsCanonical(cleaned: seq<Option<Patch>>, out: seq<Patch>)
    requires Parsed(cleaned, |cleaned|) == Success(out)
    requires forall p :: p in cleaned && p.Some? ==> Trimmed(p.value.name) && Trimmed(p.value.role)
    ensures Canonical(Sorted(out, PatchLe))
  {
    ParsedIff(cleaned, |cleaned|);
    assert cleaned[..|cleaned|] == cleaned;
    forall i, j | 0 <= i < j < |out| ensures NameOf(out[i]) != NameOf(out[j]) {
      assert NameIn(cleaned[i]) != NameIn(cleaned[j]);
    }
    PatchOrder();
    SortedIsSorted(out, PatchLe);
    KeyedOnceForgetsOrder(out, Sorted(out, PatchLe), NameOf);
    forall p | p in Sorted(out, PatchLe) ensures p.name != "" && Trimmed(p.name) && Trimmed(p.role) {
      assert p in multiset(Sorted(out, PatchLe));
      var i :| 0 <= i < |out| && out[i] == p;
      assert cleaned[i] in cleaned;
    }
  }

  /** Normalisation succeeds exactly on the well-formed sets, and its results are canonical. */
  lemma NormalizedIsCanonical(raw: Raw)
    ensures Normalized(raw).Success? <==> raw.Absent? || (raw.Entries? && WellFormed(CleanAll(raw.entries)))
    ensures Normalized(raw).Success? ==> Canonical(Normalized(raw).value)
  {
    if raw.Entries? {
      var cleaned := CleanAll(raw.entries);
      ParsedIff(cleaned, |cleaned|);
      assert cleaned[..|cleaned|] == cleaned;
      forall p | p in cleaned && p.Some? ensures Trimmed(p.value.name) && Trimmed(p.value.role) {
        var i :| 0 <= i < |cleaned| && cleaned[i] == p;
        CleanedIsTrimmed(raw.entries[i]);
      }
      if Parsed(cleaned, |cleaned|).Success? {
        ParsedIsCanonical(cleaned, Parsed(cleaned, |cleaned|).value);
      }
    }
  }

  function Itself(): Option<Patch> -> Option<Patch> { (p: Option<Patch>) => p }

  function Cleaning(): RawEntry -> Option<Option<Patch>> { (e: RawEntry) => Some(Cleaned(e)) }

  lemma {:induction false} CleanAllCollects(entries: seq<RawEntry>)
    ensures CleanAll(entries) == Collect(entries, Cleaning())
  {
    if entries != [] {
      CleanAllCollects(entries[..|entries| - 1]);
      assert CleanAll(entries)[..|entries| - 1] == CleanAll(entries[..|entries| - 1]);
    }
  }

  lemma {:induction false} ParsedIsCollected(cleaned: seq<Option<Patch>>, out: seq<Patch>)
    requires CleanedTo(cleaned, out, |cleaned|)
    ensures out == Collect(cleaned, Itself())
  {
    if cleaned != [] { ParsedIsCollected(cleaned[..|cleaned| - 1], out[..|out| - 1]); }
  }

  lemma WellFormedForgetsOrder(a: seq<Option<Patch>>, b: seq<Option<Patch>>)
    requires multiset(a) == multiset(b) && WellFormed(a)
    ensures WellFormed(b)
  {
    forall p | p in b ensures p.Some? && p.value.name != "" { assert p in multiset(a); }
    KeyedOnceForgetsOrder(a, b, NameIn);
  }

  lemma {:induction false} ParsedForgetsOrder(a: seq<Option<Patch>>, b: seq<Option<Patch>>)
    requires multiset(a) == multiset(b) && WellFormed(a)
    ensures Parsed(a, |a|).Success? && Parsed(b, |b|).Success?
    ensures Sorted(Parsed(a, |a|).value, PatchLe) == Sorted(Parsed(b, |b|).value, PatchLe)
  {
    WellFormedForgetsOrder(a, b);
    assert a[..|a|] == a && b[..|b|] == b;
    ParsedIff(a, |a|);
    ParsedIff(b, |b|);
    ParsedIsCollected(a, Parsed(a, |a|).value);
    ParsedIsCollected(b, Parsed(b, |b|).value);
    CollectForgetsOrder(a, b, Itself());
    PatchOrder();
    SortForgetsOrder(Parsed(a, |a|).value, Parsed(b, |b|).value, PatchLe);
  }

  /** The order of the entries does not matter: neither to whether a set is accepted nor to its form. */
  lemma NormalizedForgetsOrder(a: seq<RawEntry>, b: seq<RawEntry>)
    requires multiset(a) == multiset(b)
    ensures Normalized(Entries(a)).Success? <==> Normalized(Entries(b)).Success?
    ensures Normalized(Entries(a)).Success? ==> Normalized(Entries(a)) == Normalized(Entries(b))
  {
    NormalizedIsCanonical(Entries(a));
    NormalizedIsCanonical(Entries(b));
    CleanAllCollects(a);
    CleanAllCollects(b);
    CollectForgetsOrder(a, b, Cleaning());
    if WellFormed(CleanAll(a)) {
      ParsedForgetsOrder(CleanAll(a), CleanAll(b));
    } else if WellFormed(CleanAll(b)) {
      ParsedForgetsOrder(CleanAll(b), CleanAll(a));
    }
  }

  lemma CleanedBack(p: Patch)
    requires Trimmed(p.name) && Trimmed(p.role)
    ensures Cleaned(Dict(Some(p.name), Some(p.role), None)) == Some(p)
  {
    StripTrimmed(p.name);
    StripTrimmed(p.role);
  }

  lemma {:induction false} ParsedBack(cleaned: seq<Option<Patch>>, patches: seq<Patch>)
    requires Canonical(patches) && CleanedTo(cleaned, patches, |cleaned|)
    ensures Parsed(cleaned, |cleaned|) == Success(patches)
  {
    assert cleaned[..|cleaned|] == cleaned;
    forall p | p in cleaned ensures p.Some? && p.value.name != "" {
      var i :| 0 <= i < |cleaned| && cleaned[i] == p;
      assert patches[i] in patches;
    }
    forall i, j | 0 <= i < j < |cleaned| ensures NameIn(cleaned[i]) != NameIn(cleaned[j]) {
      assert NameOf(patches[i]) != NameOf(patches[j]);
    }
    ParsedIff(cleaned, |cleaned|);
    assert Parsed(cleaned, |cleaned|).value == patches;
  }

  /** A canonical set written out and read back is itself. */
  lemma CanonicalIsFixed(patches: seq<Patch>)
    requires Canonical(patches)
    ensures Normalized(ToRaw(patches)) == Success(patches)
  {
    var cleaned := CleanAll(ToRaw(patches).entries);
    forall i | 0 <= i < |patches| ensures cleaned[i] == Some(patches[i]) {
      assert patches[i] in patches;
      CleanedBack(patches[i]);
    }
    ParsedBack(cleaned, patches);
    SortedFixpoint(patches, PatchLe);
  }

  /** A contract as `Built` and `FromDict` make it. */
  ghost predicate Valid(c: Contract) {
    c == Fingerprinted(c.required, c.patches) && Canonical(c.patches) && (c.required ==> c.patches != [])
  }

  lemma BuiltIsValid(raw: Raw, required: Option<bool>, d: Stored)
    ensures Built(raw, required).Success? ==> Valid(Built(raw, required).value)
    ensures FromDict(d).Success? ==> Valid(FromDict(d).value)
  {
    NormalizedIsCanonical(raw);
    NormalizedIsCanonical(d.patches);
  }

  /** ROUND TRIP. A valid contract survives its stored form. */
  lemma FromToDict(c: Contract)
    requires Valid(c)
    ensures FromDict(ToDict(c)) == Success(c)
  {
    CanonicalIsFixed(c.patches);
  }

  /** A stored contract whose patches or requirement no longer are what was fingerprinted is refused. */
  lemma AlteredIsRefused(c: Contract, d: Stored)
    requires Valid(c) && d.fingerprint == Some(c.fingerprint) && FromDict(d).Success?
    ensures FromDict(d).value == c
  {
  }

  lemma SameSets(a: seq<Patch>, b: seq<Patch>)
    requires Canonical(a) && Canonical(b) && (forall p :: p in a <==> p in b)
    ensures a == b
  {
    forall p ensures multiset(a)[p] == multiset(b)[p] {
      OnceIn(a, NameOf, p);
      OnceIn(b, NameOf, p);
      assert p in multiset(a) <==> p in a;
      assert p in multiset(b) <==> p in b;
    }
    PatchOrder();
    SortedUnique(a, b, PatchLe);
  }

  /** The entries name each of `patches` once, with its role, and nothing else. */
  ghost predicate Declares(entries: seq<RawEntry>, patches: seq<Patch>) {
    WellFormed(CleanAll(entries)) && forall p: Patch :: Some(p) in CleanAll(entries) <==> p in patches
  }

  lemma CleanedHolds(cleaned: seq<Option<Patch>>, out: seq<Patch>, p: Patch)
    requires CleanedTo(cleaned, out, |cleaned|)
    ensures p in out <==> Some(p) in cleaned
  {
    if p in out {
      var i :| 0 <= i < |out| && out[i] == p;
      assert cleaned[i] == Some(p);
    }
    if Some(p) in cleaned {
      var i :| 0 <= i < |cleaned| && cleaned[i] == Some(p);
      assert out[i] == p;
    }
  }

  lemma {:induction false} SortedHolds(patches: seq<Patch>, p: Patch)
    ensures p in Sorted(patches, PatchLe) <==> p in patches
  {
    assert p in Sorted(patches, PatchLe) <==> p in multiset(Sorted(patches, PatchLe));
    assert p in patches <==> p in multiset(patches);
  }

  lemma NormalizedHolds(entries: seq<RawEntry>, p: Patch)
    requires Normalized(Entries(entries)).Success?
    ensures p in Normalized(Entries(entries)).value <==> Some(p) in CleanAll(entries)
  {
    var cleaned := CleanAll(entries);
    ParsedIff(cleaned, |cleaned|);
    var out := Parsed(cleaned, |cleaned|).value;
    CleanedHolds(cleaned, out, p);
    SortedHolds(out, p);
  }

  lemma DeclaresNothing(entries: seq<RawEntry>)
    ensures Declares(entries, []) <==> entries == []
  {
    if entries != [] {
      var e := CleanAll(entries)[0];
      assert e in CleanAll(entries);
      if e.Some? { assert Some(e.value) in CleanAll(entries); }
    }
  }

  lemma NormalizedIff(entries: seq<RawEntry>, patches: seq<Patch>)
    requires Canonical(patches)
    ensures Normalized(Entries(entries)) == Success(patches) <==> Declares(entries, patches)
  {
    NormalizedIsCanonical(Entries(entries));
    if Normalized(Entries(entries)).Success? {
      var got := Normalized(Entries(entries)).value;
      forall p ensures p in got <==> Some(p) in CleanAll(entries) { NormalizedHolds(entries, p); }
      if Declares(entries, patches) { SameSets(got, patches); }
    }
  }

  /** ACCEPTANCE, EXACTLY. A required contract accepts a list whose entries, trimmed, name each approved
      patch once with its approved role and nothing else, in any order; one that is not required accepts
      no entries at all. */
  lemma AcceptsIff(c: Contract, raw: Raw)
    requires Valid(c)
    ensures Refusal(c, raw).None? <==>
      if c.required then raw.Entries? && Declares(raw.entries, c.patches) else raw.Absent? || raw == Entries([])
  {
    NormalizedIsCanonical(raw);
    if raw.Entries? {
      NormalizedIff(raw.entries, if c.required then c.patches else []);
      DeclaresNothing(raw.entries);
    }
  }

  /** So acceptance and equality agree for every patch set exactly when the contract is required or
      approves nothing; built as not required, a contract with patches refuses its own. */
  lemma AcceptsMatchesIff(c: Contract)
    requires Valid(c)
    ensures (forall raw :: Refusal(c, raw).None? <==> Matches(c, raw)) <==> c.required || c.patches == []
  {
    if !c.required && c.patches != [] {
      CanonicalIsFixed(c.patches);
      assert Matches(c, ToRaw(c.patches)) && Refusal(c, ToRaw(c.patches)) == Some(NotApproved);
    }
  }

  /** A refusal of a well-formed set by a required contract says why: it names a patch that is missing,
      added, or has another role. */
  lemma RefusalNamesADifference(c: Contract, raw: Raw)
    requires Valid(c) && c.required && Normalized(raw).Success? && Normalized(raw).value != c.patches
    ensures Refusal(c, raw).Some? && Refusal(c, raw).value.Mismatch?
    ensures var m := Refusal(c, raw).value; m.missing + m.added + m.roleChanged != {}
  {
    var got, m := Normalized(raw).value, Refusal(c, raw).value;
    NormalizedIsCanonical(raw);
    if m.missing + m.added + m.roleChanged == {} {
      forall p | p in got ensures p in c.patches {
        assert p.name in Names(got) && p.name !in m.added && p.name !in m.roleChanged;
      }
      forall p | p in c.patches ensures p in got {
        assert p.name in Names(c.patches) && p.name !in m.missing;
        var q :| q in got && q.name == p.name;
        assert q in c.patches;
        SameKey(c.patches, NameOf, p, q);
      }
      SameSets(got, c.patches);
    }
  }

  /** What is missing, what is added and whose role differs, name by name. */
  lemma RefusalNamesAll(c: Contract, raw: Raw, n: string)
    requires Valid(c) && c.required && Normalized(raw).Success? && Normalized(raw).value != c.patches
    ensures var (got, m) := (Normalized(raw).value, Refusal(c, raw));
      && m.Some? && m.value.Mismatch?
      && (n in m.value.missing <==> Has(c.patches, n) && !Has(got, n))
      && (n in m.value.added <==> Has(got, n) && !Has(c.patches, n))
      && (n in m.value.roleChanged
          <==> exists p, q :: p in c.patches && q in got && p.name == n == q.name && p.role != q.role)
  {
    var (got, m) := (Normalized(raw).value, Refusal(c, raw).value);
    NormalizedIsCanonical(raw);
    if p, q :| p in c.patches && q in got && p.name == n == q.name && p.role != q.role {
      if q in c.patches { SameKey(c.patches, NameOf, p, q); }
    }
    if n in m.roleChanged {
      var q :| q in got && q.name in Names(c.patches) && q !in c.patches && q.name == n;
      var p :| p in c.patches && p.name == n;
      assert p.role != q.role;
    }
  }

  ghost predicate Has(patches: seq<Patch>, n: string) { exists p :: p in patches && p.name == n }

  // ---- reading the entries --------------------------------------------------------------------------

  /** The entry's text for a name, without its whitespace. */
  function EntryName(e: RawEntry): string
    requires e.Dict?
  {
    match e.name case Some(t) => Strip(t) case None => ""
  }

  /** An entry stands for a patch of its name, and of its role if it gives one, else of its type. */
  predicate Reads(e: RawEntry, p: Patch) {
    && e.Dict? && p.name == EntryName(e)
    && match (e.role, e.typ)
       case (Some(role), Some(typ)) => p.role == if role == "" then Strip(typ) else Strip(role)
       case (Some(role), None) => p.role == Strip(role)
       case (None, Some(typ)) => p.role == Strip(typ)
       case (None, None) => p.role == ""
  }

  lemma ReadsIsCleaned(e: RawEntry, p: Patch)
    ensures Reads(e, p) <==> Cleaned(e) == Some(p)
  {
    assert Strip("") == "";
  }

  /** The entries are dictionaries with a name each, all different once trimmed. */
  ghost predicate ProperEntries(entries: seq<RawEntry>) {
    && (forall i :: 0 <= i < |entries| ==> entries[i].Dict? && EntryName(entries[i]) != "")
    && (forall i, j :: 0 <= i < j < |entries| ==> EntryName(entries[i]) != EntryName(entries[j]))
  }

  predicate NamesEntry(p: Option<Patch>, e: RawEntry) {
    (p.Some? <==> e.Dict?) && (e.Dict? ==> p.value.name == EntryName(e))
  }

  lemma CleanedName(e: RawEntry)
    ensures NamesEntry(Cleaned(e), e)
  {
    assert Strip("") == "";
  }

  /** The same of the entries as cleaned. */
  ghost predicate ProperNames(cleaned: seq<Option<Patch>>) {
    && (forall i :: 0 <= i < |cleaned| ==> cleaned[i].Some? && cleaned[i].value.name != "")
    && (forall i, j :: 0 <= i < j < |cleaned| ==> NameIn(cleaned[i]) != NameIn(cleaned[j]))
  }

  lemma ProperNamesAreWellFormed(cleaned: seq<Option<Patch>>)
    ensures ProperNames(cleaned) <==> WellFormed(cleaned)
  {
    if WellFormed(cleaned) {
      forall i | 0 <= i < |cleaned| ensures cleaned[i].Some? && cleaned[i].value.name != "" {
        assert cleaned[i] in cleaned;
      }
    }
  }

  lemma ProperAsCleaned(entries: seq<RawEntry>, cleaned: seq<Option<Patch>>)
    requires |cleaned| == |entries|
    requires forall i :: 0 <= i < |entries| ==> NamesEntry(cleaned[i], entries[i])
    ensures ProperEntries(entries) <==> ProperNames(cleaned)
  {
    if ProperNames(cleaned) {
      forall i, j | 0 <= i < j < |entries| ensures EntryName(entries[i]) != EntryName(entries[j]) {
        assert NameIn(cleaned[i]) != NameIn(cleaned[j]);
      }
    }
  }

  lemma ProperIsWellFormed(entries: seq<RawEntry>)
    ensures ProperEntries(entries) <==> WellFormed(CleanAll(entries))
  {
    var cleaned := CleanAll(entries);
    forall i | 0 <= i < |entries| ensures NamesEntry(cleaned[i], entries[i]) { CleanedName(entries[i]); }
    ProperAsCleaned(entries, cleaned);
    ProperNamesAreWellFormed(cleaned);
  }

  /** WHAT AN ENTRY MEANS. A list is accepted exactly when its entries are proper, and the patches it comes to are
      those its entries stand for. */
  lemma NormalizedReads(entries: seq<RawEntry>, p: Patch)
    ensures Normalized(Entries(entries)).Success? <==> ProperEntries(entries)
    ensures Normalized(Entries(entries)).Success? ==>
      (p in Normalized(Entries(entries)).value <==> exists e :: e in entries && Reads(e, p))
  {
    NormalizedIsCanonical(Entries(entries));
    ProperIsWellFormed(entries);
    if Normalized(Entries(entries)).Success? {
      NormalizedHolds(entries, p);
      if e :| e in entries && Reads(e, p) {
        var i :| 0 <= i < |entries| && entries[i] == e;
        ReadsIsCleaned(e, p);
        assert CleanAll(entries)[i] == Some(p);
      }
      if Some(p) in CleanAll(entries) {
        var i :| 0 <= i < |entries| && CleanAll(entries)[i] == Some(p);
        ReadsIsCleaned(entries[i], p);
      }
    }
  }

  lemma {:induction false} ParsedFront(entries: seq<RawEntry>, k: nat)
    requires k <= |entries| && ProperEntries(entries[..k])
    ensures Parsed(CleanAll(entries), k).Success? && CleanedTo(CleanAll(entries), Parsed(CleanAll(entries), k).value, k)
  {
    ProperIsWellFormed(entries[..k]);
    assert CleanAll(entries)[..k] == CleanAll(entries[..k]);
    ParsedIff(CleanAll(entries), k);
  }

  /** The name of the `k`-th entry is one of those before it. */
  ghost predicate NamedAgain(entries: seq<RawEntry>, k: nat)
    requires k < |entries| && entries[k].Dict?
  {
    exists i :: 0 <= i < k && entries[i].Dict? && EntryName(entries[i]) == EntryName(entries[k])
  }

  lemma NamedAgainMeans(entries: seq<RawEntry>, out: seq<Patch>, k: nat)
    requires k < |entries| && entries[k].Dict? && CleanedTo(CleanAll(entries), out, k)
    ensures NamedAgain(entries, k) <==> EntryName(entries[k]) in Names(out)
  {
    forall i | 0 <= i < k ensures entries[i].Dict? && EntryName(entries[i]) == out[i].name {
      assert CleanAll(entries)[i] == Cleaned(entries[i]);
      CleanedName(entries[i]);
    }
    if NamedAgain(entries, k) {
      var i :| 0 <= i < k && entries[i].Dict? && EntryName(entries[i]) == EntryName(entries[k]);
      assert out[i] in out;
    }
  }

  lemma {:induction false} FaultAt(cleaned: seq<Option<Patch>>, k: nat)
    requires k < |cleaned| && Parsed(cleaned, k).Success?
    requires cleaned[k].None? || cleaned[k].value.name == "" || cleaned[k].value.name in Names(Parsed(cleaned, k).value)
    ensures Parsed(cleaned, |cleaned|)
         == Failure(if cleaned[k].None? then NotDict
                    else if cleaned[k].value.name == "" then NoName else Duplicate(cleaned[k].value.name))
  {
    FaultStays(cleaned, k + 1, |cleaned|);
  }

  /** The fault that is reported is the first: an entry that is no dictionary, has no name, or takes a name again. */
  lemma FirstFault(entries: seq<RawEntry>, k: nat)
    requires k < |entries| && ProperEntries(entries[..k])
    requires entries[k].NotADict? || EntryName(entries[k]) == "" || NamedAgain(entries, k)
    ensures Normalized(Entries(entries))
         == Failure(if entries[k].NotADict? then NotDict
                    else if EntryName(entries[k]) == "" then NoName
                    else Duplicate(EntryName(entries[k])))
  {
    var cleaned := CleanAll(entries);
    ParsedFront(entries, k);
    CleanedName(entries[k]);
    if entries[k].Dict? { NamedAgainMeans(entries, Parsed(cleaned, k).value, k); }
    FaultAt(cleaned, k);
  }

  // ---- building and reading back ---------------------------------------------------------------------

  /** WHAT IS BUILT. A contract of the normalised patches, required as asked or else if there are any; a set that is
      required and empty is refused, and a faulty one for its fault. */
  lemma BuiltIs(raw: Raw, required: Option<bool>)
    ensures Normalized(raw).Failure? ==> Built(raw, required) == Failure(Normalized(raw).error)
    ensures Normalized(raw).Success? ==>
      var (patches, built) := (Normalized(raw).value, Built(raw, required));
      && (built.Failure? <==> required == Some(true) && patches == [])
      && (built.Failure? ==> built.error == NothingRequired)
      && (built.Success? ==>
            && built.value.version == 1 && built.value.patches == patches && Valid(built.value)
            && (built.value.required <==> required == Some(true) || (required == None && patches != [])))
  {
    NormalizedIsCanonical(raw);
  }

  /** What is read back is a given contract exactly when the stored version is the current one and the stored
      patches, requirement and fingerprint are its own. */
  lemma ReadBackIff(d: Stored, c: Contract)
    requires Valid(c)
    ensures FromDict(d) == Success(c)
      <==> && d.version == Some(1) && d.required == c.required && Normalized(d.patches) == Success(c.patches)
           && d.fingerprint == Some(c.fingerprint)
    ensures d.version != Some(1) ==> FromDict(d) == Failure(Version)
  {
  }

  /** The canonical order is by name. */
  lemma SortedByName(raw: Raw, i: nat, j: nat)
    requires Normalized(raw).Success? && i < j < |Normalized(raw).value|
    ensures var patches := Normalized(raw).value;
      patches[i].name != patches[j].name && StringLe(patches[i].name, patches[j].name)
  {
    NormalizedIsCanonical(raw);
    var patches := Normalized(raw).value;
    assert PatchLe(patches[i], patches[j]) && NameOf(patches[i]) != NameOf(patches[j]);
  }
}
