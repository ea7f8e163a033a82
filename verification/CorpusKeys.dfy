/** Keys for the inputs of several corpus directories (devtools/validation/repair_corpus.py). A path is
    the sequence of its components, of which the first and only the first is the root "/"; two joined
    paths are equal exactly when their components are, so keys are kept as components. */
module CorpusKeys {
  import opened Wrappers

  type Path = seq<string>

  ghost predicate Absolute(p: Path) {
    p != [] && p[0] == "/" && forall i :: 1 <= i < |p| ==> p[i] != "/"
  }

  /** The last `depth` components, or all of them. */
  function Tail(p: Path, depth: nat): Path { if |p| <= depth then p else p[|p| - depth..] }

  function Longest(roots: seq<Path>): nat {
    if roots == [] then 0
    else if |roots[|roots| - 1]| > Longest(roots[..|roots| - 1]) then |roots[|roots| - 1]|
    else Longest(roots[..|roots| - 1])
  }

  /** The trailing paths of this depth, one for each distinct root. */
  function LabelsAt(roots: seq<Path>, depth: nat): map<Path, Path> {
    map r | r in roots :: Tail(r, depth)
  }

  /** Every listed root has a label of its own. */
  predicate Separates(roots: seq<Path>, depth: nat) { |LabelsAt(roots, depth).Values| == |roots| }

  predicate IsUnder(f: Path, root: Path) { root <= f }

  datatype Labels = Blank | Trailing(depth: nat) | Whole

  /** What the search settles on: nothing for fewer than two roots, the first depth that separates them,
      or, if none does, whole paths without the leading "/". */
  function Label(how: Labels, root: Path): Path {
    match how
    case Blank => []
    case Trailing(depth) => Tail(root, depth)
    case Whole => if root == [] then [] else root[1..]
  }

  method RootLabels(roots: seq<Path>) returns (how: Labels)
    ensures |roots| < 2 <==> how.Blank?
    ensures how.Trailing? ==> 1 <= how.depth <= Longest(roots) && Separates(roots, how.depth)
    ensures how.Trailing? ==> forall d :: 1 <= d < how.depth ==> !Separates(roots, d)
    ensures how.Whole? ==> forall d :: 1 <= d <= Longest(roots) ==> !Separates(roots, d)
  {
    if |roots| < 2 {
      return Blank;
    }
    var depth := 1;
    while depth <= Longest(roots)
      invariant 1 <= depth <= Longest(roots) + 1
      invariant forall d :: 1 <= d < depth ==> !Separates(roots, d)
    {
      if |LabelsAt(roots, depth).Values| == |roots| {
        return Trailing(depth);
      }
      depth := depth + 1;
    }
    return Whole;
  }

  // ---- distinct roots are told apart -------------------------------------------------------------------

  ghost predicate Distinct(roots: seq<Path>) { forall i, j :: 0 <= i < j < |roots| ==> roots[i] != roots[j] }

  ghost predicate ApartAt(roots: seq<Path>, depth: nat) {
    forall i, j :: 0 <= i < j < |roots| ==> Tail(roots[i], depth) != Tail(roots[j], depth)
  }

  /** The members of a sequence are as many as its places exactly when it has no repeats. */
  lemma {:induction false} AsManyAsPlacesIff(s: seq<Path>)
    ensures |set x | x in s| <= |s|
    ensures |set x | x in s| == |s| <==> Distinct(s)
  {
    if s != [] {
      var n := |s| - 1;
      var all, front := (set x | x in s), (set x | x in s[..n]);
      AsManyAsPlacesIff(s[..n]);
      assert s == s[..n] + [s[n]];
      assert all == front + {s[n]};
      if s[n] in s[..n] {
        assert all == front;
        var i :| 0 <= i < n && s[..n][i] == s[n];
        assert s[i] == s[n];
      }
    }
  }

  function TailsAt(roots: seq<Path>, depth: nat): (r: seq<Path>)
    ensures |r| == |roots| && forall i :: 0 <= i < |r| ==> r[i] == Tail(roots[i], depth)
  {
    seq(|roots|, i requires 0 <= i < |roots| => Tail(roots[i], depth))
  }

  lemma LabelsAreTails(roots: seq<Path>, depth: nat)
    ensures LabelsAt(roots, depth).Values == set x | x in TailsAt(roots, depth)
  {
    var all, tails := LabelsAt(roots, depth), TailsAt(roots, depth);
    forall x | x in tails ensures x in all.Values {
      var i :| 0 <= i < |roots| && tails[i] == x;
      assert roots[i] in all && all[roots[i]] == x;
    }
    forall x | x in all.Values ensures x in tails {
      var r :| r in all && all[r] == x;
      var i :| 0 <= i < |roots| && roots[i] == r;
      assert tails[i] == x;
    }
  }

  /** Counting the labels tells exactly whether they are pairwise distinct. */
  lemma SeparatesIff(roots: seq<Path>, depth: nat)
    ensures Separates(roots, depth) <==> ApartAt(roots, depth)
  {
    LabelsAreTails(roots, depth);
    AsManyAsPlacesIff(TailsAt(roots, depth));
    assert Distinct(TailsAt(roots, depth)) <==> ApartAt(roots, depth);
  }

  lemma {:induction false} NoneLonger(roots: seq<Path>, r: Path)
    requires r in roots
    ensures |r| <= Longest(roots)
  {
    if r != roots[|roots| - 1] { NoneLonger(roots[..|roots| - 1], r); }
  }

  /** The search ends inside its loop, at the least depth that separates the roots, exactly when the
      roots are distinct. */
  lemma {:induction false} SearchSucceedsIff(roots: seq<Path>)
    requires |roots| >= 2 && forall r :: r in roots ==> r != []
    ensures (exists d :: 1 <= d <= Longest(roots) && Separates(roots, d)) <==> Distinct(roots)
  {
    if Distinct(roots) {
      var d := Longest(roots);
      forall r | r in roots ensures Tail(r, d) == r { NoneLonger(roots, r); }
      assert roots[0] in roots && |roots[0]| >= 1;
      NoneLonger(roots, roots[0]);
      SeparatesIff(roots, d);
      assert ApartAt(roots, d);
    }
    if d :| 1 <= d <= Longest(roots) && Separates(roots, d) {
      SeparatesIff(roots, d);
      forall i, j | 0 <= i < j < |roots| ensures roots[i] != roots[j] {
        assert Tail(roots[i], d) != Tail(roots[j], d);
      }
    }
  }

  // ---- keys -------------------------------------------------------------------------------------------------

  /** The key of a file under a root: the root's label and the file's path from the root. */
  function KeyOf(how: Labels, root: Path, f: Path): Path
    requires IsUnder(f, root)
  {
    Label(how, root) + f[|root|..]
  }

  /** The labels of the search, for these roots. */
  ghost predicate LabelsFor(how: Labels, roots: seq<Path>) {
    match how
    case Blank => |roots| < 2
    case Trailing(depth) => Separates(roots, depth)
    case Whole => true
  }

  lemma Rejoined(root: Path, f: Path)
    requires IsUnder(f, root)
    ensures root + f[|root|..] == f
  {
  }

  /** Roots with enough components get labels of one length, and then no two of them share a key. */
  lemma LongRootsNeverCollide(roots: seq<Path>, depth: nat, i: nat, j: nat, f: Path, g: Path)
    requires Separates(roots, depth) && i < |roots| && j < |roots| && i != j
    requires |roots[i]| >= depth && |roots[j]| >= depth && IsUnder(f, roots[i]) && IsUnder(g, roots[j])
    ensures KeyOf(Trailing(depth), roots[i], f) != KeyOf(Trailing(depth), roots[j], g)
  {
    SeparatesIff(roots, depth);
    var a, b := Tail(roots[i], depth), Tail(roots[j], depth);
    assert a != b && |a| == |b| == depth;
    assert KeyOf(Trailing(depth), roots[i], f)[..depth] == a;
    assert KeyOf(Trailing(depth), roots[j], g)[..depth] == b;
  }

  lemma WholeLabel(root: Path, depth: nat, f: Path)
    requires Absolute(root) && Absolute(f) && IsUnder(f, root)
    ensures KeyOf(Trailing(depth), root, f) != [] && |root| <= depth ==> KeyOf(Trailing(depth), root, f) == f
    ensures |root| > depth >= 1 ==> KeyOf(Trailing(depth), root, f)[0] != "/"
  {
    Rejoined(root, f);
    if |root| > depth >= 1 {
      assert Tail(root, depth)[0] == root[|root| - depth];
    }
  }

  lemma SameRoot(head: Path, root: Path, f: Path, g: Path)
    requires IsUnder(f, root) && IsUnder(g, root) && head + f[|root|..] == head + g[|root|..]
    ensures f == g
  {
    assert (head + f[|root|..])[|head|..] == f[|root|..];
    assert (head + g[|root|..])[|head|..] == g[|root|..];
    Rejoined(root, f);
    Rejoined(root, g);
  }

  lemma WholeKey(root: Path, f: Path)
    requires Absolute(root) && IsUnder(f, root)
    ensures f == ["/"] + KeyOf(Whole, root, f)
  {
    var rest := f[|root|..];
    Rejoined(root, f);
    assert root == ["/"] + root[1..];
    assert (["/"] + root[1..]) + rest == ["/"] + (root[1..] + rest);
  }

  lemma WholeKeys(r: Path, s: Path, f: Path, g: Path)
    requires Absolute(r) && Absolute(s) && IsUnder(f, r) && IsUnder(g, s) && KeyOf(Whole, r, f) == KeyOf(Whole, s, g)
    ensures f == g
  {
    WholeKey(r, f);
    WholeKey(s, g);
  }

  lemma TrailingKeys(depth: nat, roots: seq<Path>, r: Path, s: Path, f: Path, g: Path)
    requires Separates(roots, depth) && depth >= 1 && r in roots && s in roots
    requires Absolute(r) && Absolute(s) && Absolute(f) && Absolute(g) && IsUnder(f, r) && IsUnder(g, s)
    requires KeyOf(Trailing(depth), r, f) == KeyOf(Trailing(depth), s, g)
    ensures f == g
  {
    if r == s {
      SameRoot(Tail(r, depth), r, f, g);
    } else if |r| >= depth && |s| >= depth {
      var i :| 0 <= i < |roots| && roots[i] == r;
      var j :| 0 <= j < |roots| && roots[j] == s;
      LongRootsNeverCollide(roots, depth, i, j, f, g);
    } else {
      WholeLabel(r, depth, f);
      WholeLabel(s, depth, g);
    }
  }

  /** A KEY NAMES ONE FILE. For absolute roots, two files get the same key only if they are the same
      file, reached from nested roots or from one root listed twice. */
  lemma KeyNamesOneFile(how: Labels, roots: seq<Path>, r: Path, s: Path, f: Path, g: Path)
    requires LabelsFor(how, roots) && r in roots && s in roots && (how.Trailing? ==> how.depth >= 1)
    requires Absolute(r) && Absolute(s) && Absolute(f) && Absolute(g) && IsUnder(f, r) && IsUnder(g, s)
    requires KeyOf(how, r, f) == KeyOf(how, s, g)
    ensures f == g
  {
    match how
    case Blank =>
      assert KeyOf(how, r, f) == f[|r|..] && KeyOf(how, s, g) == g[|s|..];
      Rejoined(r, f);
      Rejoined(s, g);
    case Whole => WholeKeys(r, s, f, g);
    case Trailing(depth) => TrailingKeys(depth, roots, r, s, f, g);
  }

  // ---- the input map ------------------------------------------------------------------------------------------

  datatype Conflict = Conflict(key: Path)

  function Members(files: seq<Path>, root: Path): seq<Path> {
    if files == [] then []
    else
      var n := |files| - 1;
      Members(files[..n], root) + if IsUnder(files[n], root) then [files[n]] else []
  }

  lemma {:induction false} MembersAre(files: seq<Path>, root: Path, f: Path)
    ensures f in Members(files, root) <==> f in files && IsUnder(f, root)
  {
    if files != [] {
      MembersAre(files[..|files| - 1], root, f);
      assert files == files[..|files| - 1] + [files[|files| - 1]];
    }
  }

  /** The key is that of a file under one of the first `k` roots, and holds that file's hash. */
  ghost predicate Held(key: Path, hashes: map<Path, string>, how: Labels, roots: seq<Path>, k: nat, files: seq<Path>,
                       hash: Path -> string)
    requires k <= |roots| && key in hashes
  {
    exists i, f :: 0 <= i < k && f in files && IsUnder(f, roots[i]) && key == KeyOf(how, roots[i], f)
        && hashes[key] == hash(f)
  }

  ghost predicate AllHeld(hashes: map<Path, string>, how: Labels, roots: seq<Path>, k: nat, files: seq<Path>,
                          hash: Path -> string)
    requires k <= |roots|
  {
    forall key :: key in hashes ==> Held(key, hashes, how, roots, k, files, hash)
  }

  /** Every file under one of the first `k` roots has a key in the map, and every key is such a file's. */
  ghost predicate Records(hashes: map<Path, string>, how: Labels, roots: seq<Path>, k: nat, files: seq<Path>,
                          hash: Path -> string)
    requires k <= |roots|
  {
    && (forall i, f :: 0 <= i < k && f in files && IsUnder(f, roots[i]) ==> KeyOf(how, roots[i], f) in hashes)
    && AllHeld(hashes, how, roots, k, files, hash)
  }

  ghost predicate Sound(how: Labels, roots: seq<Path>, files: seq<Path>) {
    && LabelsFor(how, roots) && (how.Trailing? ==> how.depth >= 1)
    && (forall p :: p in roots ==> Absolute(p)) && (forall p :: p in files ==> Absolute(p))
  }

  /** A key that is already there holds the hash about to be written. */
  lemma NoConflict(hashes: map<Path, string>, how: Labels, roots: seq<Path>, k: nat, files: seq<Path>,
                   hash: Path -> string, r: Path, f: Path)
    requires Sound(how, roots, files) && k <= |roots| && r in roots && f in files && IsUnder(f, r)
    requires KeyOf(how, r, f) in hashes && Held(KeyOf(how, r, f), hashes, how, roots, k, files, hash)
    ensures hashes[KeyOf(how, r, f)] == hash(f)
  {
    var key := KeyOf(how, r, f);
    var i, g :| 0 <= i < k && g in files && IsUnder(g, roots[i]) && key == KeyOf(how, roots[i], g)
        && hashes[key] == hash(g);
    KeyNamesOneFile(how, roots, r, roots[i], f, g);
  }

  lemma StillHeld(hashes: map<Path, string>, grown: map<Path, string>, how: Labels, roots: seq<Path>, k: nat,
                  files: seq<Path>, hash: Path -> string, key: Path)
    requires k < |roots| && key in hashes && key in grown && grown[key] == hashes[key]
    requires Held(key, hashes, how, roots, k, files, hash) || Held(key, hashes, how, roots, k + 1, files, hash)
    ensures Held(key, grown, how, roots, k + 1, files, hash)
  {
  }

  lemma AllStillHeld(hashes: map<Path, string>, how: Labels, roots: seq<Path>, k: nat, files: seq<Path>,
                     hash: Path -> string)
    requires k < |roots| && AllHeld(hashes, how, roots, k, files, hash)
    ensures AllHeld(hashes, how, roots, k + 1, files, hash)
  {
    forall key | key in hashes ensures Held(key, hashes, how, roots, k + 1, files, hash) {
      StillHeld(hashes, hashes, how, roots, k, files, hash, key);
    }
  }

  /** One file added; a key that holds another hash would be refused. */
  method AddFile(hashes: map<Path, string>, how: Labels, roots: seq<Path>, k: nat, files: seq<Path>,
                 hash: Path -> string, f: Path)
    returns (r: Result<map<Path, string>, Conflict>)
    requires k < |roots| && Sound(how, roots, files) && f in files && IsUnder(f, roots[k])
    requires AllHeld(hashes, how, roots, k + 1, files, hash)
    ensures r.Success? && hashes.Keys <= r.value.Keys && KeyOf(how, roots[k], f) in r.value
    ensures AllHeld(r.value, how, roots, k + 1, files, hash)
  {
    var key := KeyOf(how, roots[k], f);
    if key in hashes {
      NoConflict(hashes, how, roots, k + 1, files, hash, roots[k], f);
    }
    if key in hashes && hashes[key] != hash(f) {
      return Failure(Conflict(key));
    }
    var grown := hashes[key := hash(f)];
    forall other | other in grown ensures Held(other, grown, how, roots, k + 1, files, hash) {
      if other != key { StillHeld(hashes, grown, how, roots, k, files, hash, other); }
    }
    return Success(grown);
  }

  /** The files of one root added to the map; a key that holds another hash would be refused. */
  method AddMembers(hashes: map<Path, string>, how: Labels, roots: seq<Path>, k: nat, files: seq<Path>,
                    hash: Path -> string, members: seq<Path>)
    returns (r: Result<map<Path, string>, Conflict>)
    requires k < |roots| && Sound(how, roots, files) && AllHeld(hashes, how, roots, k + 1, files, hash)
    requires forall f :: f in members ==> f in files && IsUnder(f, roots[k])
    ensures r.Success? && hashes.Keys <= r.value.Keys && AllHeld(r.value, how, roots, k + 1, files, hash)
    ensures Filed(r.value, how, roots[k], members)
  {
    var grown := hashes;
    for n := 0 to |members|
      invariant hashes.Keys <= grown.Keys && AllHeld(grown, how, roots, k + 1, files, hash)
      invariant Filed(grown, how, roots[k], members[..n])
    {
      var added := AddFile(grown, how, roots, k, files, hash, members[n]);
      FiledMore(grown, added.value, how, roots[k], members, n);
      grown := added.value;
    }
    assert members[..|members|] == members;
    return Success(grown);
  }

  lemma FiledMore(hashes: map<Path, string>, grown: map<Path, string>, how: Labels, root: Path, members: seq<Path>,
                  n: nat)
    requires n < |members| && Filed(hashes, how, root, members[..n]) && hashes.Keys <= grown.Keys
    requires IsUnder(members[n], root) && KeyOf(how, root, members[n]) in grown
    ensures Filed(grown, how, root, members[..n + 1])
  {
    forall f | f in members[..n + 1] && IsUnder(f, root) ensures KeyOf(how, root, f) in grown {
      if f in members[..n] { assert KeyOf(how, root, f) in hashes.Keys; }
    }
  }

  method AddRoot(hashes: map<Path, string>, how: Labels, roots: seq<Path>, k: nat, files: seq<Path>,
                 hash: Path -> string)
    returns (r: Result<map<Path, string>, Conflict>)
    requires k < |roots| && Sound(how, roots, files) && Records(hashes, how, roots, k, files, hash)
    ensures r.Success? && Records(r.value, how, roots, k + 1, files, hash)
  {
    var members := Members(files, roots[k]);
    AllStillHeld(hashes, how, roots, k, files, hash);
    forall f | f in members ensures f in files && IsUnder(f, roots[k]) { MembersAre(files, roots[k], f); }
    r := AddMembers(hashes, how, roots, k, files, hash, members);
    RootRecorded(hashes, r.value, how, roots, k, files, hash);
  }

  ghost predicate Filed(hashes: map<Path, string>, how: Labels, root: Path, members: seq<Path>) {
    forall f :: f in members && IsUnder(f, root) ==> KeyOf(how, root, f) in hashes
  }

  lemma {:induction false} RootRecorded(hashes: map<Path, string>, grown: map<Path, string>, how: Labels,
                                        roots: seq<Path>, k: nat,
                                        files: seq<Path>, hash: Path -> string)
    requires k < |roots| && Records(hashes, how, roots, k, files, hash)
    requires hashes.Keys <= grown.Keys && Filed(grown, how, roots[k], Members(files, roots[k]))
    requires AllHeld(grown, how, roots, k + 1, files, hash)
    ensures Records(grown, how, roots, k + 1, files, hash)
  {
    forall i, f | 0 <= i < k + 1 && f in files && IsUnder(f, roots[i]) ensures KeyOf(how, roots[i], f) in grown {
      if i == k { MembersAre(files, roots[k], f); } else { assert KeyOf(how, roots[i], f) in hashes.Keys; }
    }
  }

  /** NEVER REFUSED. For absolute roots, listed once or more, nested or not, the input map is complete:
      it names every file under a root, under a key that holds its hash. */
  method HashCorpusInputs(roots: seq<Path>, files: seq<Path>, hash: Path -> string)
    returns (r: Result<map<Path, string>, Conflict>, how: Labels)
    requires (forall p :: p in roots ==> Absolute(p)) && (forall p :: p in files ==> Absolute(p))
    ensures r.Success? && Sound(how, roots, files) && Records(r.value, how, roots, |roots|, files, hash)
  {
    how := RootLabels(roots);
    var hashes: map<Path, string> := map[];
    for k := 0 to |roots|
      invariant Records(hashes, how, roots, k, files, hash)
    {
      var added := AddRoot(hashes, how, roots, k, files, hash);
      hashes := added.value;
    }
    return Success(hashes), how;
  }

  /** The map can answer for each file it was built from. */
  lemma MapNamesEveryFile(hashes: map<Path, string>, how: Labels, roots: seq<Path>, files: seq<Path>,
                          hash: Path -> string, root: Path, f: Path)
    requires Sound(how, roots, files) && Records(hashes, how, roots, |roots|, files, hash)
    requires root in roots && f in files && IsUnder(f, root)
    ensures KeyOf(how, root, f) in hashes && hashes[KeyOf(how, root, f)] == hash(f)
  {
    var i :| 0 <= i < |roots| && roots[i] == root;
    assert KeyOf(how, roots[i], f) in hashes;
    NoConflict(hashes, how, roots, |roots|, files, hash, root, f);
  }

  /** A file is under a root exactly when its path goes on from the root's, or is the root's. */
  lemma UnderIff(f: Path, root: Path)
    ensures IsUnder(f, root) <==> exists rest: Path :: f == root + rest
  {
    if IsUnder(f, root) { assert f == root + f[|root|..]; }
  }

  /** A file's key is its path below the root; of several roots, after the last `depth` components of its own. */
  lemma KeySays(front: Path, end: Path, rest: Path)
    ensures KeyOf(Blank, front + end, front + end + rest) == rest
    ensures KeyOf(Trailing(|end|), front + end, front + end + rest) == end + rest
  {
    var root, f := front + end, front + end + rest;
    assert f[..|root|] == root && f[|root|..] == rest;
    assert root[|root| - |end|..] == end;
    if front == [] { assert root == end; }
  }
}
