/** The geometry a case is a variant of, read off the case's id (devtools/fitness/build_engine_fitness.py). */
module ShapeId {
  import opened Text

  /** The file formats an id may end with; of two that fit, the longer comes first. */
  const FORMATS: seq<string> :=
    ["stl_ascii", "step", "stp", "iges", "igs", "stl", "ascii", "brep", "obj", "ply", "off", "vtp", "vtu", "glb",
     "3mf", "msh", "bdf", "inp"]

  const TWINS: seq<string> := ["body", "fluid", "capped", "open", "metal", "cht", "solid", "wall"]

  const WORKSTREAMS: seq<string> := ["rc", "vt", "mx", "stl", "smoke", "turf"]

  predicate EndsWith(s: string, end: string) { |end| <= |s| && s[|s| - |end|..] == end }

  predicate StartsWith(s: string, start: string) { |start| <= |s| && s[..|start|] == start }

  predicate Digit(c: char) { '0' <= c <= '9' }

  /** Without the first of `words` that ends `s` after a `mark`. */
  function DropEnding(s: string, mark: char, words: seq<string>): (r: string)
    ensures |r| < |s| || r == s
  {
    if words == [] then s
    else if EndsWith(s, [mark] + words[0]) then s[..|s| - 1 - |words[0]|]
    else DropEnding(s, mark, words[1..])
  }

  function DropFormats(s: string): string
    decreases |s|
  {
    var r := DropEnding(s, '.', FORMATS);
    if r == s then s else DropFormats(r)
  }

  function DropStart(s: string, words: seq<string>): string {
    if words == [] then s
    else if StartsWith(s, words[0] + "_") then s[|words[0]| + 1..]
    else DropStart(s, words[1..])
  }

  function LeadingDigits(s: string): (k: nat)
    ensures k <= |s|
  {
    if s != "" && Digit(s[0]) then 1 + LeadingDigits(s[1..]) else 0
  }

  function DropDigits(s: string): (r: string)
    ensures |r| <= |s|
  {
    if s != "" && Digit(s[|s| - 1]) then DropDigits(s[..|s| - 1]) else s
  }

  /** Without a heat-transfer workstream's prefix, `ht` and a number. */
  function DropHt(s: string): string {
    if !StartsWith(s, "ht") then s
    else
      var k := 2 + LeadingDigits(s[2..]);
      if k < |s| && s[k] == '_' then s[k + 1..] else s
  }

  function DropWorkstream(s: string): string {
    var r := DropStart(s, WORKSTREAMS);
    if r == s then DropHt(s) else r
  }

  /** Without an offset twin's `_offset_`, number and `mm`. */
  function DropOffset(s: string): string {
    if !EndsWith(s, "mm") then s
    else
      var number := s[..|s| - 2];
      var before := DropDigits(number);
      if |before| < |number| && EndsWith(before, "_offset_") then before[..|before| - 8] else s
  }

  function DropTwin(s: string): string {
    var r := DropEnding(s, '_', TWINS);
    if r == s then DropOffset(s) else r
  }

  function Round(s: string): string { DropTwin(DropEnding(s, '_', FORMATS)) }

  function ShapeOf(caseId: string): string {
    Round(Round(Round(DropWorkstream(DropFormats(Lower(caseId))))))
  }

  lemma LastDot(t: string, end: string)
    requires EndsWith(t, "." + end) && '.' !in end
    ensures t[|t| - |end| - 1] == '.' && t[|t| - |end|..] == end
    ensures forall i :: |t| - |end| <= i < |t| ==> t[i] != '.'
  {
    var k := |t| - |end| - 1;
    assert t[k] == t[k..][0] == '.' && t[k + 1..] == t[k..][1..] == end;
    forall i | k < i < |t| ensures t[i] != '.' { assert t[i] == t[k + 1..][i - k - 1] && t[i] in end; }
  }

  lemma OneEnding(s: string, v: string, w: string)
    requires '.' !in v && '.' !in w
    ensures EndsWith(s + "." + w, "." + v) <==> v == w
  {
    var t := s + "." + w;
    assert t[|t| - |"." + w|..] == "." + w;
    LastDot(t, w);
    if EndsWith(t, "." + v) { LastDot(t, v); }
  }

  lemma {:induction false} EndingDropped(s: string, w: string, words: seq<string>)
    requires w in words && forall v :: v in words ==> '.' !in v
    ensures DropEnding(s + "." + w, '.', words) == s
  {
    OneEnding(s, words[0], w);
    if words[0] != w { EndingDropped(s, w, words[1..]); }
  }

  lemma LowerCopy(caseId: string, format: string)
    requires Lowered(format)
    ensures Lower(caseId + "." + format) == Lower(caseId) + "." + format
  {
  }

  predicate Plain(w: string) { '.' !in w && Lowered(w) }

  lemma SixArePlain()
    ensures forall i :: 0 <= i < 6 ==> Plain(FORMATS[i])
  {
    assert Plain("stl_ascii") && Plain("step") && Plain("stp") && Plain("iges") && Plain("igs") && Plain("stl");
  }

  lemma SixMoreArePlain()
    ensures forall i :: 6 <= i < 12 ==> Plain(FORMATS[i])
  {
    assert Plain("ascii") && Plain("brep") && Plain("obj") && Plain("ply") && Plain("off") && Plain("vtp");
  }

  lemma TheRestArePlain()
    ensures forall i :: 12 <= i < |FORMATS| ==> Plain(FORMATS[i])
  {
    assert Plain("vtu") && Plain("glb") && Plain("3mf") && Plain("msh") && Plain("bdf") && Plain("inp");
  }

  lemma FormatIsPlain(format: string)
    requires format in FORMATS
    ensures Plain(format)
  {
    var i :| 0 <= i < |FORMATS| && FORMATS[i] == format;
    if i < 6 {
      SixArePlain();
    } else if i < 12 {
      SixMoreArePlain();
    } else {
      TheRestArePlain();
    }
  }

  /** A format copy of a case is the same shape, for every id and every format. */
  lemma FormatCopyIsSameShape(caseId: string, format: string)
    requires format in FORMATS
    ensures ShapeOf(caseId + "." + format) == ShapeOf(caseId)
  {
    forall w | w in FORMATS ensures Plain(w) { FormatIsPlain(w); }
    LowerCopy(caseId, format);
    EndingDropped(Lower(caseId), format, FORMATS);
    assert DropFormats(Lower(caseId) + "." + format) == DropFormats(Lower(caseId));
  }

  // ---- what is dropped, word by word -------------------------------------------------------------------

  predicate TwinWord(w: string) {
    w == "body" || w == "fluid" || w == "capped" || w == "open" || w == "metal" || w == "cht" || w == "solid"
    || w == "wall"
  }

  predicate FormatWord(w: string) {
    || w == "step" || w == "stp" || w == "iges" || w == "igs" || w == "stl" || w == "stl_ascii" || w == "ascii"
    || w == "brep" || w == "obj" || w == "ply" || w == "off" || w == "vtp" || w == "vtu" || w == "glb" || w == "3mf"
    || w == "msh" || w == "bdf" || w == "inp"
  }

  predicate Workstream(w: string) {
    || w == "rc" || w == "vt" || w == "mx" || w == "stl" || w == "smoke" || w == "turf"
    || (StartsWith(w, "ht") && AllDigits(w[2..]))
  }

  predicate AllDigits(s: string) { forall i :: 0 <= i < |s| ==> Digit(s[i]) }

  lemma EndAt(t: string, end: string, k: int)
    requires EndsWith(t, end) && 0 <= k < |end|
    ensures t[|t| - |end| + k] == end[k]
  {
  }

  lemma StartAt(t: string, start: string, k: int)
    requires StartsWith(t, start) && 0 <= k < |start|
    ensures t[k] == start[k]
  {
  }

  lemma LastMark(t: string, mark: char, end: string)
    requires EndsWith(t, [mark] + end) && mark !in end
    ensures t[|t| - |end| - 1] == mark && t[|t| - |end|..] == end
    ensures forall i :: |t| - |end| <= i < |t| ==> t[i] != mark
  {
    var k := |t| - |end| - 1;
    assert t[k] == t[k..][0] == mark && t[k + 1..] == t[k..][1..] == end;
    forall i | k < i < |t| ensures t[i] != mark { assert t[i] == t[k + 1..][i - k - 1] && t[i] in end; }
  }

  lemma SameEnding(t: string, mark: char, v: string, w: string)
    requires mark !in v && mark !in w && EndsWith(t, [mark] + v) && EndsWith(t, [mark] + w)
    ensures v == w
  {
    LastMark(t, mark, v);
    LastMark(t, mark, w);
  }

  lemma JoinEnds(s: string, mark: char, w: string)
    ensures EndsWith(s + [mark] + w, [mark] + w)
  {
    var t := s + [mark] + w;
    assert t[|t| - |[mark] + w|..] == [mark] + w;
  }

  /** Of words that are free of the mark, only the one that is there is dropped. */
  lemma {:induction false} WordDropped(s: string, mark: char, w: string, words: seq<string>)
    requires w in words && mark !in w && forall v :: v in words ==> mark !in v
    ensures DropEnding(s + [mark] + w, mark, words) == s
  {
    var t := s + [mark] + w;
    JoinEnds(s, mark, w);
    if EndsWith(t, [mark] + words[0]) {
      SameEnding(t, mark, words[0], w);
    } else {
      WordDropped(s, mark, w, words[1..]);
    }
  }

  lemma {:induction false} NothingDropped(t: string, mark: char, words: seq<string>)
    requires forall v :: v in words ==> !EndsWith(t, [mark] + v)
    ensures DropEnding(t, mark, words) == t
  {
    if words != [] {
      assert words[0] in words;
      NothingDropped(t, mark, words[1..]);
    }
  }

  lemma TwinsAre(w: string)
    ensures w in TWINS <==> TwinWord(w)
    ensures TwinWord(w) ==> '_' !in w && '.' !in w && Lowered(w) && w != "" && w[|w| - 1] != 'm'
  {
    assert TWINS[0] == "body" && TWINS[1] == "fluid" && TWINS[2] == "capped" && TWINS[3] == "open";
    assert TWINS[4] == "metal" && TWINS[5] == "cht" && TWINS[6] == "solid" && TWINS[7] == "wall";
  }

  lemma FormatsAre(w: string)
    ensures w in FORMATS <==> FormatWord(w)
  {
    assert FORMATS[0] == "stl_ascii" && FORMATS[1] == "step" && FORMATS[2] == "stp" && FORMATS[3] == "iges";
    assert FORMATS[4] == "igs" && FORMATS[5] == "stl" && FORMATS[6] == "ascii" && FORMATS[7] == "brep";
    assert FORMATS[8] == "obj" && FORMATS[9] == "ply" && FORMATS[10] == "off" && FORMATS[11] == "vtp";
    assert FORMATS[12] == "vtu" && FORMATS[13] == "glb" && FORMATS[14] == "3mf" && FORMATS[15] == "msh";
    assert FORMATS[16] == "bdf" && FORMATS[17] == "inp";
  }

  lemma FormatShape(w: string)
    requires FormatWord(w)
    ensures '.' !in w && Lowered(w) && w != "" && w[|w| - 1] != 'm' && ('_' in w <==> w == "stl_ascii")
  {
  }

  lemma NoTwinIsAFormat(w: string)
    requires TwinWord(w)
    ensures !FormatWord(w) && w != "ascii"
  {
  }

  lemma AsciiEnding(t: string)
    requires EndsWith(t, "_stl_ascii")
    ensures EndsWith(t, "_ascii")
  {
    assert "_stl_ascii"[4..] == "_ascii";
    assert t[|t| - 6..] == t[|t| - 10..][4..];
  }

  /** After an underscore, a word that is no format ends no format. */
  lemma {:induction false} NoFormatEnds(s: string, w: string)
    requires '_' !in w && !FormatWord(w)
    ensures DropEnding(s + "_" + w, '_', FORMATS) == s + "_" + w
  {
    var t := s + "_" + w;
    JoinEnds(s, '_', w);
    forall f | f in FORMATS ensures !EndsWith(t, "_" + f) {
      FormatsAre(f);
      FormatShape(f);
      if EndsWith(t, "_" + f) {
        if f == "stl_ascii" {
          AsciiEnding(t);
          SameEnding(t, '_', "ascii", w);
        } else {
          SameEnding(t, '_', f, w);
        }
      }
    }
    NothingDropped(t, '_', FORMATS);
  }

  /** One round drops one twin's ending. */
  lemma RoundDropsTwin(s: string, w: string)
    requires TwinWord(w)
    ensures Round(s + "_" + w) == s
  {
    TwinsAre(w);
    NoTwinIsAFormat(w);
    NoFormatEnds(s, w);
    forall v | v in TWINS ensures '_' !in v { TwinsAre(v); }
    WordDropped(s, '_', w, TWINS);
  }

  /** A word without an underscore has nothing more to drop. */
  lemma RoundKeeps(b: string)
    requires '_' !in b
    ensures Round(b) == b
  {
    NothingEnds(b, FORMATS);
    NothingEnds(b, TWINS);
    OffsetKeeps(b);
  }

  lemma {:induction false} NothingEnds(b: string, words: seq<string>)
    requires '_' !in b
    ensures DropEnding(b, '_', words) == b
  {
    forall v | v in words ensures !EndsWith(b, "_" + v) {
      if EndsWith(b, "_" + v) { EndAt(b, "_" + v, 0); }
    }
    NothingDropped(b, '_', words);
  }

  lemma OffsetKeeps(b: string)
    requires '_' !in b
    ensures DropOffset(b) == b
  {
    if EndsWith(b, "mm") {
      var before := DropDigits(b[..|b| - 2]);
      DigitsAreEnding(b[..|b| - 2]);
      assert forall i :: 0 <= i < |before| ==> before[i] == b[i] && b[i] in b;
      if EndsWith(before, "_offset_") { EndAt(before, "_offset_", 0); }
    }
  }

  lemma {:induction false} DigitsAreEnding(s: string)
    ensures DropDigits(s) == s[..|DropDigits(s)|]
  {
    if s != "" && Digit(s[|s| - 1]) { DigitsAreEnding(s[..|s| - 1]); }
  }

  // ---- the front ------------------------------------------------------------------------------------------

  lemma FirstMark(v: string, w: string, rest: string)
    requires '_' !in v && '_' !in w
    ensures StartsWith(w + "_" + rest, v + "_") <==> v == w
  {
    var t := w + "_" + rest;
    forall i | 0 <= i < |w| ensures t[i] == w[i] != '_' { assert w[i] in w; }
    assert t[|w|] == '_';
    if v == w { assert t[..|v| + 1] == v + "_"; }
    if StartsWith(t, v + "_") {
      StartAt(t, v + "_", |v|);
      forall i | 0 <= i < |v| ensures t[i] == v[i] != '_' {
        StartAt(t, v + "_", i);
        assert v[i] in v;
      }
      assert v == t[..|v|] == w;
    }
  }

  lemma WorkstreamsAre(w: string)
    ensures w in WORKSTREAMS <==> w == "rc" || w == "vt" || w == "mx" || w == "stl" || w == "smoke" || w == "turf"
    ensures w in WORKSTREAMS ==> '_' !in w && '.' !in w && Lowered(w) && w != "" && w[0] != 'h'
  {
    assert WORKSTREAMS[0] == "rc" && WORKSTREAMS[1] == "vt" && WORKSTREAMS[2] == "mx" && WORKSTREAMS[3] == "stl";
    assert WORKSTREAMS[4] == "smoke" && WORKSTREAMS[5] == "turf";
  }

  lemma {:induction false} StartDropped(w: string, rest: string, words: seq<string>)
    requires '_' !in w && forall v :: v in words ==> '_' !in v
    ensures DropStart(w + "_" + rest, words) == if w in words then rest else w + "_" + rest
  {
    if words != [] {
      assert words[0] in words;
      FirstMark(words[0], w, rest);
      if words[0] != w { StartDropped(w, rest, words[1..]); }
    }
  }

  lemma {:induction false} DigitsCounted(d: string, rest: string)
    requires AllDigits(d) && rest != "" && !Digit(rest[0])
    ensures LeadingDigits(d + rest) == |d|
  {
    if d != "" {
      assert (d + rest)[1..] == d[1..] + rest;
      DigitsCounted(d[1..], rest);
    } else {
      assert d + rest == rest;
    }
  }

  lemma {:induction false} DigitsStop(d: string, rest: string)
    requires !AllDigits(d)
    ensures LeadingDigits(d + rest) < |d| && !Digit(d[LeadingDigits(d + rest)])
  {
    if Digit(d[0]) {
      assert (d + rest)[1..] == d[1..] + rest;
      DigitsStop(d[1..], rest);
    }
  }

  /** A workstream's word and its underscore are dropped from the front, once; any other word stays. */
  lemma FrontDropped(w: string, rest: string)
    requires '_' !in w
    ensures DropWorkstream(w + "_" + rest) == if Workstream(w) then rest else w + "_" + rest
  {
    var t := w + "_" + rest;
    forall v | v in WORKSTREAMS ensures '_' !in v { WorkstreamsAre(v); }
    WorkstreamsAre(w);
    StartDropped(w, rest, WORKSTREAMS);
    if w !in WORKSTREAMS { HtDropped(w, rest); }
  }

  lemma HtDropped(w: string, rest: string)
    requires '_' !in w
    ensures DropHt(w + "_" + rest) == if StartsWith(w, "ht") && AllDigits(w[2..]) then rest else w + "_" + rest
  {
    var t := w + "_" + rest;
    if StartsWith(w, "ht") {
      assert t[..2] == w[..2] && t[2..] == w[2..] + ("_" + rest);
      if AllDigits(w[2..]) {
        DigitsCounted(w[2..], "_" + rest);
      } else {
        DigitsStop(w[2..], "_" + rest);
        var k := 2 + LeadingDigits(t[2..]);
        assert t[k] == w[k] && w[k] in w;
      }
    } else if |w| >= 2 {
      assert t[..2] == w[..2];
    } else if StartsWith(t, "ht") {
      StartAt(t, "ht", |w|);
    }
  }

  // ---- whole ids --------------------------------------------------------------------------------------------

  /** A name with nothing in it that could be dropped. */
  predicate Bare(base: string) { '_' !in base && '.' !in base }

  lemma BareLowered(base: string)
    requires Bare(base)
    ensures Bare(Lower(base)) && Lower(Lower(base)) == Lower(base)
  {
    forall i | 0 <= i < |base| ensures Lower(base)[i] != '_' && Lower(base)[i] != '.' { assert base[i] in base; }
  }

  lemma {:induction false} NoDotKept(s: string)
    requires '.' !in s
    ensures DropFormats(s) == s
  {
    forall f | f in FORMATS ensures !EndsWith(s, "." + f) {
      if EndsWith(s, "." + f) { EndAt(s, "." + f, 0); }
    }
    NothingDropped(s, '.', FORMATS);
  }

  lemma ShapeFrom(caseId: string, lowered: string)
    requires Lower(caseId) == lowered && '.' !in lowered
    ensures ShapeOf(caseId) == Round(Round(Round(DropWorkstream(lowered))))
  {
    NoDotKept(lowered);
  }

  lemma LowerParts(a: string, b: string)
    requires Lowered(b)
    ensures Lower(a + b) == Lower(a) + b && Lower(b + a) == b + Lower(a)
  {
  }

  /** THE WORKSTREAM DOES NOT MATTER: a case named after its workstream is the geometry it is a copy of. */
  lemma WorkstreamIsSameShape(w: string, base: string)
    requires Workstream(w) && Lowered(w) && '_' !in w && '.' !in w && Bare(base)
    ensures ShapeOf(w + "_" + base) == Lower(base)
  {
    BareLowered(base);
    LowerParts(base, w + "_");
    ShapeFrom(w + "_" + base, w + "_" + Lower(base));
    FrontDropped(w, Lower(base));
    RoundKeeps(Lower(base));
  }

  function With(s: string, w: string): string { s + "_" + w }

  lemma ShapeWith(base: string, tail: string)
    requires Bare(base) && !Workstream(Lower(base)) && Lowered(tail) && '.' !in tail
    ensures ShapeOf(base + "_" + tail) == Round(Round(Round(Lower(base) + "_" + tail)))
  {
    var b := Lower(base);
    BareLowered(base);
    LowerParts(base, "_" + tail);
    assert base + "_" + tail == base + ("_" + tail) && b + "_" + tail == b + ("_" + tail);
    ShapeFrom(base + "_" + tail, b + "_" + tail);
    FrontDropped(b, tail);
  }

  /** The endings of `s`, one after another. */
  lemma WithMore(s: string, tail: string, w: string)
    requires Lowered(tail) && '.' !in tail && TwinWord(w)
    ensures With(s + "_" + tail, w) == s + "_" + With(tail, w) && Lowered(With(tail, w)) && '.' !in With(tail, w)
  {
    TwinsAre(w);
  }

  /** NOR DOES THE TWIN. */
  lemma TwinIsSameShape(base: string, w: string)
    requires Bare(base) && !Workstream(Lower(base)) && TwinWord(w)
    ensures ShapeOf(With(base, w)) == Lower(base)
  {
    BareLowered(base);
    TwinsAre(w);
    ShapeWith(base, w);
    RoundDropsTwin(Lower(base), w);
    RoundKeeps(Lower(base));
  }

  /** Up to three endings of a twin are dropped ... */
  lemma ThreeTwinsAreSameShape(base: string, u: string, v: string, w: string)
    requires Bare(base) && !Workstream(Lower(base)) && TwinWord(u) && TwinWord(v) && TwinWord(w)
    ensures ShapeOf(With(With(With(base, u), v), w)) == Lower(base)
  {
    var b := Lower(base);
    TwinsAre(u);
    WithMore(base, u, v);
    WithMore(b, u, v);
    WithMore(base, With(u, v), w);
    WithMore(b, With(u, v), w);
    ShapeWith(base, With(With(u, v), w));
    RoundDropsTwin(With(With(b, u), v), w);
    RoundDropsTwin(With(b, u), v);
    RoundDropsTwin(b, u);
  }

  /** ... and a fourth stays. */
  lemma FourthEndingStays(base: string, u: string, v: string, w: string, x: string)
    requires Bare(base) && !Workstream(Lower(base)) && TwinWord(u) && TwinWord(v) && TwinWord(w) && TwinWord(x)
    ensures ShapeOf(With(With(With(With(base, u), v), w), x)) == With(Lower(base), u)
  {
    var b := Lower(base);
    TwinsAre(u);
    WithMore(base, u, v);
    WithMore(b, u, v);
    WithMore(base, With(u, v), w);
    WithMore(b, With(u, v), w);
    WithMore(base, With(With(u, v), w), x);
    WithMore(b, With(With(u, v), w), x);
    ShapeWith(base, With(With(With(u, v), w), x));
    RoundDropsTwin(With(With(With(b, u), v), w), x);
    RoundDropsTwin(With(With(b, u), v), w);
    RoundDropsTwin(With(b, u), v);
  }

  lemma {:induction false} StlAsciiDropped(b: string)
    ensures DropEnding(b + "_" + "stl_ascii", '_', FORMATS) == b
  {
    var t := b + "_" + "stl_ascii";
    JoinEnds(b, '_', "stl_ascii");
    assert FORMATS[0] == "stl_ascii" && t[..|t| - 10] == b;
  }

  lemma OthersHaveNoMark()
    ensures forall v :: v in FORMATS[1..] ==> '_' !in v
  {
    forall v | v in FORMATS[1..] ensures '_' !in v {
      FormatsAre(v);
      FormatShape(v);
      OnlyFirstHasMark(v);
    }
  }

  lemma {:induction false} LaterWordDropped(s: string, mark: char, w: string, words: seq<string>)
    requires words != [] && !EndsWith(s + [mark] + w, [mark] + words[0])
    requires w in words[1..] && mark !in w && forall v :: v in words[1..] ==> mark !in v
    ensures DropEnding(s + [mark] + w, mark, words) == s
  {
    WordDropped(s, mark, w, words[1..]);
  }

  lemma LaterFormat(f: string)
    requires FormatWord(f) && f != "stl_ascii"
    ensures f in FORMATS[1..] && '_' !in f && FORMATS[0] == "stl_ascii"
  {
    FormatsAre(f);
    FormatShape(f);
    assert FORMATS[0] == "stl_ascii" && FORMATS == [FORMATS[0]] + FORMATS[1..];
  }

  lemma {:induction false} OtherFormatDropped(b: string, f: string)
    requires FormatWord(f) && f != "stl_ascii" && '_' !in b
    ensures DropEnding(b + "_" + f, '_', FORMATS) == b
  {
    LaterFormat(f);
    OthersHaveNoMark();
    TwoMarks(b, f);
    LaterWordDropped(b, '_', f, FORMATS);
  }

  lemma RoundDropsFormat(b: string, f: string)
    requires FormatWord(f) && '_' !in b
    ensures Round(b + "_" + f) == b
  {
    if f == "stl_ascii" { StlAsciiDropped(b); } else { OtherFormatDropped(b, f); }
    NothingEnds(b, TWINS);
    OffsetKeeps(b);
  }

  lemma OnlyFirstHasMark(v: string)
    requires v in FORMATS[1..]
    ensures v != "stl_ascii"
  {
    assert |"stl_ascii"| == 9 && |FORMATS[1..]| == 17;
  }

  lemma TwoMarks(b: string, f: string)
    requires '_' !in b && '_' !in f
    ensures !EndsWith(b + "_" + f, "_" + "stl_ascii")
  {
    var t := b + "_" + f;
    forall i | 0 <= i < |t| && i != |b| ensures t[i] != '_' {
      assert if i < |b| then t[i] == b[i] && b[i] in b else t[i] == f[i - |b| - 1] && f[i - |b| - 1] in f;
    }
    if EndsWith(t, "_" + "stl_ascii") {
      EndAt(t, "_" + "stl_ascii", 0);
      EndAt(t, "_" + "stl_ascii", 4);
    }
  }

  /** NOR THE FORMAT, at the end of the name too. */
  lemma FormatEndingIsSameShape(base: string, f: string)
    requires Bare(base) && !Workstream(Lower(base)) && FormatWord(f)
    ensures ShapeOf(With(base, f)) == Lower(base)
  {
    BareLowered(base);
    FormatShape(f);
    ShapeWith(base, f);
    RoundDropsFormat(Lower(base), f);
    RoundKeeps(Lower(base));
  }

  lemma {:induction false} TrailingDigits(s: string, d: string)
    requires AllDigits(d) && s != "" && !Digit(s[|s| - 1])
    ensures DropDigits(s + d) == s
  {
    if d == "" {
      assert s + d == s;
    } else {
      assert (s + d)[..|s + d| - 1] == s + d[..|d| - 1];
      TrailingDigits(s, d[..|d| - 1]);
    }
  }

  lemma OffsetTail(d: string)
    requires AllDigits(d)
    ensures Lowered("offset_" + d + "mm") && '.' !in "offset_" + d + "mm"
  {
  }

  /** NOR AN OFFSET IN MILLIMETRES. */
  lemma OffsetIsSameShape(base: string, d: string)
    requires Bare(base) && !Workstream(Lower(base)) && AllDigits(d) && d != ""
    ensures ShapeOf(With(base, "offset_" + d + "mm")) == Lower(base)
  {
    BareLowered(base);
    OffsetTail(d);
    ShapeWith(base, "offset_" + d + "mm");
    RoundDropsOffset(Lower(base), d);
    RoundKeeps(Lower(base));
  }

  lemma FormatEndsInNoM(f: string)
    requires f in FORMATS
    ensures f != "" && f[|f| - 1] != 'm'
  {
    FormatsAre(f);
    FormatShape(f);
  }

  lemma {:induction false} NoWordEndsInM(t: string, words: seq<string>)
    requires t != "" && t[|t| - 1] == 'm' && forall v :: v in words ==> v != "" && v[|v| - 1] != 'm'
    ensures DropEnding(t, '_', words) == t
  {
    forall v | v in words ensures !EndsWith(t, "_" + v) { LastChars(t, v); }
    NothingDropped(t, '_', words);
  }

  lemma {:induction false} EndsInNoFormat(t: string)
    requires t != "" && t[|t| - 1] == 'm'
    ensures DropEnding(t, '_', FORMATS) == t
  {
    forall f | f in FORMATS ensures f != "" && f[|f| - 1] != 'm' { FormatEndsInNoM(f); }
    NoWordEndsInM(t, FORMATS);
  }

  lemma TwinEndsInNoM(w: string)
    requires w in TWINS
    ensures w != "" && w[|w| - 1] != 'm'
  {
    TwinsAre(w);
  }

  lemma {:induction false} EndsInNoTwin(t: string)
    requires t != "" && t[|t| - 1] == 'm'
    ensures DropEnding(t, '_', TWINS) == t
  {
    forall w | w in TWINS ensures w != "" && w[|w| - 1] != 'm' { TwinEndsInNoM(w); }
    NoWordEndsInM(t, TWINS);
  }

  lemma OffsetDropped(t: string, b: string, d: string)
    requires AllDigits(d) && d != "" && EndsWith(t, "mm") && t[..|t| - 2] == b + "_offset_" + d
    ensures DropOffset(t) == b
  {
    TrailingDigits(b + "_offset_", d);
    assert (b + "_offset_")[|b|..] == "_offset_" && (b + "_offset_")[..|b|] == b;
  }

  lemma OffsetText(b: string, d: string)
    ensures var t := b + "_" + ("offset_" + d + "mm");
      EndsWith(t, "mm") && t[..|t| - 2] == b + "_offset_" + d && t[|t| - 1] == 'm'
  {
    var t := b + "_" + ("offset_" + d + "mm");
    assert t == b + "_offset_" + d + "mm";
    assert t[|t| - 2..] == "mm";
  }

  lemma RoundDropsOffset(b: string, d: string)
    requires AllDigits(d) && d != ""
    ensures Round(b + "_" + ("offset_" + d + "mm")) == b
  {
    var t := b + "_" + ("offset_" + d + "mm");
    OffsetText(b, d);
    EndsInNoFormat(t);
    OffsetDropped(t, b, d);
    EndsInNoTwin(t);
  }

  lemma LastChars(t: string, f: string)
    requires t != "" && t[|t| - 1] == 'm' && f != "" && f[|f| - 1] != 'm'
    ensures !EndsWith(t, "_" + f)
  {
    if EndsWith(t, "_" + f) { EndAt(t, "_" + f, |f|); }
  }

  lemma DigitIs(c: char)
    ensures Digit(c) <==> c in "0123456789"
  {
    assert "0123456789"[0] == '0' && "0123456789"[1] == '1' && "0123456789"[2] == '2' && "0123456789"[3] == '3';
    assert "0123456789"[4] == '4' && "0123456789"[5] == '5' && "0123456789"[6] == '6' && "0123456789"[7] == '7';
    assert "0123456789"[8] == '8' && "0123456789"[9] == '9';
    if Digit(c) { assert c == "0123456789"[c as int - '0' as int]; }
  }

  lemma OffsetKept(t: string, b: string)
    requires EndsWith(t, "mm") && t[..|t| - 2] == b + "_offset_"
    ensures DropOffset(t) == t
  {
    TrailingDigits(b + "_offset_", "");
    assert b + "_offset_" + "" == b + "_offset_";
  }

  lemma RoundKeepsOffset(b: string)
    ensures Round(b + "_" + "offset_mm") == b + "_" + "offset_mm"
  {
    var t := b + "_" + "offset_mm";
    assert t[|t| - 2..] == "mm" && t[..|t| - 2] == b + "_offset_";
    EndsInNoFormat(t);
    EndsInNoTwin(t);
    OffsetKept(t, b);
  }

  /** An offset without its number is part of the name. */
  lemma OffsetNeedsANumber(base: string)
    requires Bare(base) && !Workstream(Lower(base))
    ensures ShapeOf(With(base, "offset_mm")) == With(Lower(base), "offset_mm")
  {
    BareLowered(base);
    ShapeWith(base, "offset_mm");
    RoundKeepsOffset(Lower(base));
  }
}
