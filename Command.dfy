/**
 * `ScanManager._build_command`: the `czkawka_cli` argument vector for a scan,
 * and the text-mode variant that drops "--json". The command is the binary,
 * the subcommand, optional directory lists, "--json", then at most two
 * type-specific flag/value pairs, each one appended only when its option is set.
 */
module Command {
  import opened Wrappers
  import opened Text
  import opened Models

  /** A string option is appended only when it is truthy: set and non-empty. */
  predicate Truthy(o: Option<string>) {
    o.Some? && o.value != ""
  }

  /** `[flag, value]` for a truthy string option. */
  function StrFlag(flag: string, o: Option<string>): seq<string> {
    if Truthy(o) then [flag, o.value] else []
  }

  /** `[flag, str(n)]` for an integer option that `is not None`. */
  function IntFlag(flag: string, o: Option<int>): seq<string> {
    if o.Some? then [flag, IntToString(o.value)] else []
  }

  /** `[flag, ",".join(xs)]` for a non-empty list. */
  function ListFlag(flag: string, xs: seq<string>): seq<string> {
    if xs != [] then [flag, Join(",", xs)] else []
  }

  /** The flags that depend on the scan type, including "--min-size" for duplicates. */
  function TypeArgs(t: ScanType, o: ScanOptions): seq<string> {
    match t
    case Duplicates => StrFlag("--search-method", o.searchMethod) + IntFlag("--min-size", o.minSize)
    case SimilarImages => StrFlag("--similarity-preset", o.similarityPreset)
    case SimilarVideos => IntFlag("--tolerance", o.tolerance)
    case SimilarMusic => StrFlag("--music-similarity", o.musicSimilarity)
    case Broken => if o.checkedTypes.Some? then ListFlag("--checked-types", o.checkedTypes.value) else []
    case _ => []
  }

  /** "--min-size" for the types other than duplicates. */
  function GlobalMinSize(t: ScanType, o: ScanOptions): seq<string> {
    if t != Duplicates then IntFlag("--min-size", o.minSize) else []
  }

  /** The arguments before "--json". */
  function Prefix(bin: string, scan: ScanResult): seq<string> {
    [bin, scan.scanType.Value()]
    + ListFlag("--directories", scan.directories)
    + ListFlag("--excluded-directories", scan.excludedDirectories)
  }

  /** The specification of `_build_command`. */
  function CommandLine(bin: string, scan: ScanResult): seq<string> {
    Prefix(bin, scan) + ["--json"] + TypeArgs(scan.scanType, scan.options) + GlobalMinSize(scan.scanType, scan.options)
  }

  method BuildCommand(bin: string, scan: ScanResult) returns (cmd: seq<string>)
    ensures cmd == CommandLine(bin, scan)
  {
    cmd := [bin, scan.scanType.Value()];
    if scan.directories != [] {
      cmd := cmd + ["--directories", Join(",", scan.directories)];
    }
    if scan.excludedDirectories != [] {
      cmd := cmd + ["--excluded-directories", Join(",", scan.excludedDirectories)];
    }
    assert cmd == Prefix(bin, scan);
    cmd := cmd + ["--json"];
    var typeArgs := TypeSpecificArgs(scan.scanType, scan.options);
    cmd := cmd + typeArgs;
    if scan.options.minSize.Some? && scan.scanType != Duplicates {
      cmd := cmd + ["--min-size", IntToString(scan.options.minSize.value)];
    }
  }

  /** The type-specific branch of the builder. */
  method TypeSpecificArgs(t: ScanType, opts: ScanOptions) returns (args: seq<string>)
    ensures args == TypeArgs(t, opts)
  {
    args := [];
    match t {
      case Duplicates =>
        if opts.searchMethod.Some? && opts.searchMethod.value != "" {
          args := args + ["--search-method", opts.searchMethod.value];
        }
        if opts.minSize.Some? {
          args := args + ["--min-size", IntToString(opts.minSize.value)];
        }
      case SimilarImages =>
        if opts.similarityPreset.Some? && opts.similarityPreset.value != "" {
          args := ["--similarity-preset", opts.similarityPreset.value];
        }
      case SimilarVideos =>
        if opts.tolerance.Some? {
          args := ["--tolerance", IntToString(opts.tolerance.value)];
        }
      case SimilarMusic =>
        if opts.musicSimilarity.Some? && opts.musicSimilarity.value != "" {
          args := ["--music-similarity", opts.musicSimilarity.value];
        }
      case Broken =>
        if opts.checkedTypes.Some? && opts.checkedTypes.value != [] {
          args := ["--checked-types", Join(",", opts.checkedTypes.value)];
        }
      case _ =>
    }
  }

  // ---------------------------------------------------------------------
  // Occurrences
  // ---------------------------------------------------------------------

  function Count(s: seq<string>, x: string): nat {
    if s == [] then 0 else Count(s[..|s| - 1], x) + (if s[|s| - 1] == x then 1 else 0)
  }

  /** `[c for c in s if c != x]`. */
  function Remove(s: seq<string>, x: string): (r: seq<string>)
    ensures |r| <= |s|
  {
    if s == [] then [] else Remove(s[..|s| - 1], x) + (if s[|s| - 1] == x then [] else [s[|s| - 1]])
  }

  lemma {:induction false} CountAppend(a: seq<string>, b: seq<string>, x: string)
    ensures Count(a + b, x) == Count(a, x) + Count(b, x)
    decreases |b|
  {
    if b == [] {
      assert a + b == a;
    } else {
      assert (a + b)[..|a + b| - 1] == a + b[..|b| - 1];
      CountAppend(a, b[..|b| - 1], x);
    }
  }

  lemma {:induction false} RemoveAppend(a: seq<string>, b: seq<string>, x: string)
    ensures Remove(a + b, x) == Remove(a, x) + Remove(b, x)
    decreases |b|
  {
    if b == [] {
      assert a + b == a;
    } else {
      assert (a + b)[..|a + b| - 1] == a + b[..|b| - 1];
      RemoveAppend(a, b[..|b| - 1], x);
    }
  }

  /** Removing `x` leaves no `x`, and leaves a sequence without `x` as it is. */
  lemma {:induction false} RemoveProperties(s: seq<string>, x: string)
    ensures Count(Remove(s, x), x) == 0
    ensures Count(s, x) == 0 ==> Remove(s, x) == s
  {
    if s != [] {
      var init := s[..|s| - 1];
      RemoveProperties(init, x);
      if s[|s| - 1] != x {
        CountAppend(Remove(init, x), [s[|s| - 1]], x);
        assert [s[|s| - 1]][..0] == [];
      } else {
        assert Remove(s, x) == Remove(init, x);
      }
      assert s == init + [s[|s| - 1]];
    }
  }

  /** A sequence with exactly one `x` holds it at one index only. */
  lemma CountOneUnique(s: seq<string>, x: string, i: nat, j: nat)
    requires Count(s, x) == 1 && i < |s| && j < |s| && s[i] == x && s[j] == x
    ensures i == j
  {
    if i < j {
      CountTwo(s, x, i, j);
    } else if j < i {
      CountTwo(s, x, j, i);
    }
  }

  lemma CountTwo(s: seq<string>, x: string, i: nat, j: nat)
    requires i < j < |s| && s[i] == x && s[j] == x
    ensures Count(s, x) >= 2
  {
    assert s == s[..i] + [x] + s[i + 1..j] + [x] + s[j + 1..];
    CountAppend(s[..i] + [x] + s[i + 1..j] + [x], s[j + 1..], x);
    CountAppend(s[..i] + [x] + s[i + 1..j], [x], x);
    CountAppend(s[..i] + [x], s[i + 1..j], x);
    CountAppend(s[..i], [x], x);
    assert [x][..0] == [];
  }

  // ---------------------------------------------------------------------
  // Properties of the command
  // ---------------------------------------------------------------------

  /** Position of "--json": after the binary, the subcommand and the directory pairs. */
  function JsonIndex(scan: ScanResult): nat {
    2 + (if scan.directories != [] then 2 else 0) + (if scan.excludedDirectories != [] then 2 else 0)
  }

  /** The binary comes first, the subcommand second and "--json" right after the directory pairs. */
  lemma CommandHead(bin: string, scan: ScanResult)
    ensures var c := CommandLine(bin, scan);
      && |c| > JsonIndex(scan)
      && c[0] == bin && c[1] == scan.scanType.Value()
      && c[JsonIndex(scan)] == "--json"
      && c[..JsonIndex(scan)] == Prefix(bin, scan)
  {
    var c := CommandLine(bin, scan);
    var p := Prefix(bin, scan);
    assert |p| == JsonIndex(scan);
    assert c == p + (["--json"] + TypeArgs(scan.scanType, scan.options) + GlobalMinSize(scan.scanType, scan.options));
  }

  /** An argument that reads as an option: it starts with "--", as every flag the builder emits does. */
  predicate IsFlag(s: string) {
    |s| >= 2 && s[0] == '-' && s[1] == '-'
  }

  /** No value the builder copies from the scan (nor the binary path) reads as an option. */
  predicate NoFlagValues(bin: string, scan: ScanResult) {
    var o := scan.options;
    && !IsFlag(bin)
    && !IsFlag(Join(",", scan.directories))
    && !IsFlag(Join(",", scan.excludedDirectories))
    && (o.searchMethod.Some? ==> !IsFlag(o.searchMethod.value))
    && (o.similarityPreset.Some? ==> !IsFlag(o.similarityPreset.value))
    && (o.musicSimilarity.Some? ==> !IsFlag(o.musicSimilarity.value))
    && (o.checkedTypes.Some? ==> !IsFlag(Join(",", o.checkedTypes.value)))
  }

  lemma IntTextNotFlag(n: int)
    ensures !IsFlag(IntToString(n))
  {
  }

  /** The value that must follow `flag`, or `None` when `flag` must not appear. */
  function Expected(flag: string, scan: ScanResult): Option<string> {
    var o := scan.options;
    var t := scan.scanType;
    if flag == "--directories" then (if scan.directories != [] then Some(Join(",", scan.directories)) else None)
    else if flag == "--excluded-directories" then
      (if scan.excludedDirectories != [] then Some(Join(",", scan.excludedDirectories)) else None)
    else if flag == "--min-size" then (if o.minSize.Some? then Some(IntToString(o.minSize.value)) else None)
    else if flag == "--search-method" then (if t == Duplicates && Truthy(o.searchMethod) then o.searchMethod else None)
    else if flag == "--similarity-preset" then
      (if t == SimilarImages && Truthy(o.similarityPreset) then o.similarityPreset else None)
    else if flag == "--tolerance" then
      (if t == SimilarVideos && o.tolerance.Some? then Some(IntToString(o.tolerance.value)) else None)
    else if flag == "--music-similarity" then
      (if t == SimilarMusic && Truthy(o.musicSimilarity) then o.musicSimilarity else None)
    else if flag == "--checked-types" then
      (if t == Broken && o.checkedTypes.Some? && o.checkedTypes.value != [] then Some(Join(",", o.checkedTypes.value)) else None)
    else None
  }

  lemma Count2(a: string, b: string, f: string)
    ensures Count([a, b], f) == (if a == f then 1 else 0) + (if b == f then 1 else 0)
  {
    var s := [a, b];
    assert s[..|s| - 1] == [a] && s[|s| - 1] == b;
    assert [a][..0] == [];
    assert Count([a], f) == Count([], f) + (if a == f then 1 else 0);
  }

  lemma StrFlagCount(flag: string, o: Option<string>, f: string)
    requires (o.Some? ==> !IsFlag(o.value)) && IsFlag(f)
    ensures Count(StrFlag(flag, o), f) == if Truthy(o) && flag == f then 1 else 0
  {
    if Truthy(o) {
      Count2(flag, o.value, f);
    }
  }

  lemma IntFlagCount(flag: string, o: Option<int>, f: string)
    requires IsFlag(f)
    ensures Count(IntFlag(flag, o), f) == if o.Some? && flag == f then 1 else 0
  {
    if o.Some? {
      IntTextNotFlag(o.value);
      Count2(flag, IntToString(o.value), f);
    }
  }

  lemma ListFlagCount(flag: string, xs: seq<string>, f: string)
    requires !IsFlag(Join(",", xs)) && IsFlag(f)
    ensures Count(ListFlag(flag, xs), f) == if xs != [] && flag == f then 1 else 0
  {
    if xs != [] {
      Count2(flag, Join(",", xs), f);
    }
  }

  lemma TypeArgsCount(t: ScanType, o: ScanOptions, f: string)
    requires IsFlag(f)
    requires (o.searchMethod.Some? ==> !IsFlag(o.searchMethod.value))
    requires (o.similarityPreset.Some? ==> !IsFlag(o.similarityPreset.value))
    requires (o.musicSimilarity.Some? ==> !IsFlag(o.musicSimilarity.value))
    requires (o.checkedTypes.Some? ==> !IsFlag(Join(",", o.checkedTypes.value)))
    ensures Count(TypeArgs(t, o), f)
         == (if t == Duplicates && Truthy(o.searchMethod) && f == "--search-method" then 1 else 0)
          + (if t == Duplicates && o.minSize.Some? && f == "--min-size" then 1 else 0)
          + (if t == SimilarImages && Truthy(o.similarityPreset) && f == "--similarity-preset" then 1 else 0)
          + (if t == SimilarVideos && o.tolerance.Some? && f == "--tolerance" then 1 else 0)
          + (if t == SimilarMusic && Truthy(o.musicSimilarity) && f == "--music-similarity" then 1 else 0)
          + (if t == Broken && o.checkedTypes.Some? && o.checkedTypes.value != [] && f == "--checked-types" then 1 else 0)
  {
    match t {
      case Duplicates =>
        CountAppend(StrFlag("--search-method", o.searchMethod), IntFlag("--min-size", o.minSize), f);
        StrFlagCount("--search-method", o.searchMethod, f);
        IntFlagCount("--min-size", o.minSize, f);
      case SimilarImages => StrFlagCount("--similarity-preset", o.similarityPreset, f);
      case SimilarVideos => IntFlagCount("--tolerance", o.tolerance, f);
      case SimilarMusic => StrFlagCount("--music-similarity", o.musicSimilarity, f);
      case Broken =>
        if o.checkedTypes.Some? {
          ListFlagCount("--checked-types", o.checkedTypes.value, f);
        }
      case _ =>
    }
  }

  lemma FlagPairCount(flag: string, value: string, f: string)
    requires !IsFlag(value) && IsFlag(f)
    ensures Count([flag, value], f) == if flag == f then 1 else 0
  {
    Count2(flag, value, f);
  }

  /** The command's count of `f` is the sum over its segments. */
  lemma CountSegments(bin: string, scan: ScanResult, f: string)
    ensures Count(CommandLine(bin, scan), f)
         == Count([bin, scan.scanType.Value()], f)
          + Count(ListFlag("--directories", scan.directories), f)
          + Count(ListFlag("--excluded-directories", scan.excludedDirectories), f)
          + Count(["--json"], f)
          + Count(TypeArgs(scan.scanType, scan.options), f)
          + Count(GlobalMinSize(scan.scanType, scan.options), f)
  {
    var p0 := [bin, scan.scanType.Value()];
    var l1 := ListFlag("--directories", scan.directories);
    var l2 := ListFlag("--excluded-directories", scan.excludedDirectories);
    var t := TypeArgs(scan.scanType, scan.options);
    var g := GlobalMinSize(scan.scanType, scan.options);
    CountAppend(p0 + l1 + l2 + ["--json"] + t, g, f);
    CountAppend(p0 + l1 + l2 + ["--json"], t, f);
    CountAppend(p0 + l1 + l2, ["--json"], f);
    CountAppend(p0 + l1, l2, f);
    CountAppend(p0, l1, f);
  }

  /** Counts of every flag in the command, segment by segment. */
  lemma SegmentCounts(bin: string, scan: ScanResult, f: string)
    requires NoFlagValues(bin, scan) && IsFlag(f)
    ensures Count(CommandLine(bin, scan), f)
         == (if scan.directories != [] && f == "--directories" then 1 else 0)
          + (if scan.excludedDirectories != [] && f == "--excluded-directories" then 1 else 0)
          + (if f == "--json" then 1 else 0)
          + (if scan.scanType == Duplicates && Truthy(scan.options.searchMethod) && f == "--search-method" then 1 else 0)
          + (if scan.options.minSize.Some? && f == "--min-size" then 1 else 0)
          + (if scan.scanType == SimilarImages && Truthy(scan.options.similarityPreset) && f == "--similarity-preset" then 1 else 0)
          + (if scan.scanType == SimilarVideos && scan.options.tolerance.Some? && f == "--tolerance" then 1 else 0)
          + (if scan.scanType == SimilarMusic && Truthy(scan.options.musicSimilarity) && f == "--music-similarity" then 1 else 0)
          + (if scan.scanType == Broken && scan.options.checkedTypes.Some? && scan.options.checkedTypes.value != []
               && f == "--checked-types" then 1 else 0)
  {
    var o := scan.options;
    CountSegments(bin, scan, f);
    Count2(bin, scan.scanType.Value(), f);
    assert !IsFlag(scan.scanType.Value());
    ListFlagCount("--directories", scan.directories, f);
    ListFlagCount("--excluded-directories", scan.excludedDirectories, f);
    assert ["--json"][..0] == [];
    TypeArgsCount(scan.scanType, o, f);
    if scan.scanType != Duplicates {
      IntFlagCount("--min-size", o.minSize, f);
    }
  }

  /** How often each flag other than "--json" occurs: once when its option calls for it, else never. */
  lemma FlagCount(bin: string, scan: ScanResult, f: string)
    requires NoFlagValues(bin, scan) && IsFlag(f) && f != "--json"
    ensures Count(CommandLine(bin, scan), f) == if Expected(f, scan).Some? then 1 else 0
  {
    SegmentCounts(bin, scan, f);
  }

  /** "--json" occurs exactly once when no copied value spells a flag. */
  lemma JsonOnce(bin: string, scan: ScanResult)
    requires NoFlagValues(bin, scan)
    ensures Count(CommandLine(bin, scan), "--json") == 1
  {
    SegmentCounts(bin, scan, "--json");
  }

  /** A directory literally named "--json" makes the flag occur twice. */
  lemma JsonDirectoryCounterexample(bin: string, scan: ScanResult)
    requires scan.directories == ["--json"]
    ensures Count(CommandLine(bin, scan), "--json") >= 2
  {
    var c := CommandLine(bin, scan);
    CommandHead(bin, scan);
    assert c[..JsonIndex(scan)][3] == Join(",", ["--json"]) == "--json";
    CountTwo(c, "--json", 3, JsonIndex(scan));
  }

  lemma {:induction false} CountZero(s: seq<string>, x: string)
    requires Count(s, x) == 0
    ensures x !in s
  {
    if s != [] {
      CountZero(s[..|s| - 1], x);
      assert s == s[..|s| - 1] + [s[|s| - 1]];
    }
  }

  /** A two-element segment `[f, v]` of `c` is an occurrence of `f` followed by `v`. */
  lemma SegmentWitness(c: seq<string>, a: seq<string>, seg: seq<string>, b: seq<string>, f: string, v: string)
    requires c == a + seg + b && seg == [f, v]
    ensures exists i :: 0 <= i < |c| - 1 && c[i] == f && c[i + 1] == v
  {
    assert c[|a|] == f && c[|a| + 1] == v;
  }

  /** A flag its option calls for is present and immediately followed by its value. */
  lemma FlagValueAt(bin: string, scan: ScanResult, f: string)
    requires Expected(f, scan).Some?
    ensures var c := CommandLine(bin, scan);
      exists i :: 0 <= i < |c| - 1 && c[i] == f && c[i + 1] == Expected(f, scan).value
  {
    var c := CommandLine(bin, scan);
    var v := Expected(f, scan).value;
    var p0 := [bin, scan.scanType.Value()];
    var l1 := ListFlag("--directories", scan.directories);
    if f == "--directories" {
      assert c[2] == f && c[3] == v;
    } else if f == "--excluded-directories" {
      assert c[|p0 + l1|] == f && c[|p0 + l1| + 1] == v;
    } else {
      OptionFlagValueAt(Prefix(bin, scan) + ["--json"], scan, f);
    }
  }

  /** The same for the flags after "--json", whatever comes before it. */
  lemma OptionFlagValueAt(pre: seq<string>, scan: ScanResult, f: string)
    requires Expected(f, scan).Some? && f != "--directories" && f != "--excluded-directories"
    ensures var c := pre + TypeArgs(scan.scanType, scan.options) + GlobalMinSize(scan.scanType, scan.options);
      exists i :: 0 <= i < |c| - 1 && c[i] == f && c[i + 1] == Expected(f, scan).value
  {
    var o := scan.options;
    var t := TypeArgs(scan.scanType, o);
    var g := GlobalMinSize(scan.scanType, o);
    var c := pre + t + g;
    var v := Expected(f, scan).value;
    if f == "--min-size" && scan.scanType == Duplicates {
      var sm := StrFlag("--search-method", o.searchMethod);
      assert t == sm + IntFlag("--min-size", o.minSize);
      SegmentWitness(c, pre + sm, IntFlag("--min-size", o.minSize), g, f, v);
    } else if f == "--min-size" {
      SegmentWitness(c, pre + t, g, [], f, v);
    } else if f == "--search-method" {
      var ms := IntFlag("--min-size", o.minSize);
      assert t == StrFlag("--search-method", o.searchMethod) + ms;
      SegmentWitness(c, pre, StrFlag("--search-method", o.searchMethod), ms + g, f, v);
    } else {
      TypeFlagSegment(scan, f);
      SegmentWitness(c, pre, t, g, f, v);
    }
  }

  /** The flags that are the whole type-specific segment of their own type. */
  lemma TypeFlagSegment(scan: ScanResult, f: string)
    requires Expected(f, scan).Some?
    requires f !in {"--directories", "--excluded-directories", "--min-size", "--search-method"}
    ensures TypeArgs(scan.scanType, scan.options) == [f, Expected(f, scan).value]
  {
  }

  /**
   * Every flag other than "--json" occurs only when its option calls for it, and
   * then once, immediately followed by its value.
   */
  lemma FlagPlacement(bin: string, scan: ScanResult, f: string)
    requires NoFlagValues(bin, scan) && IsFlag(f) && f != "--json"
    ensures var c := CommandLine(bin, scan);
      && (Expected(f, scan).None? ==> f !in c)
      && (Expected(f, scan).Some? ==> f in c && forall i :: 0 <= i < |c| && c[i] == f ==> i + 1 < |c| && c[i + 1] == Expected(f, scan).value)
  {
    var c := CommandLine(bin, scan);
    FlagCount(bin, scan, f);
    if Expected(f, scan).None? {
      CountZero(c, f);
    } else {
      FlagValueAt(bin, scan, f);
      var j :| 0 <= j < |c| - 1 && c[j] == f && c[j + 1] == Expected(f, scan).value;
      forall i | 0 <= i < |c| && c[i] == f
        ensures i + 1 < |c| && c[i + 1] == Expected(f, scan).value
      {
        CountOneUnique(c, f, i, j);
      }
    }
  }

  /** The specification of the text-mode command: the same arguments without "--json". */
  function TextCommandLine(bin: string, scan: ScanResult): seq<string> {
    Remove(CommandLine(bin, scan), "--json")
  }

  method TextModeCommand(bin: string, scan: ScanResult) returns (cmd: seq<string>)
    ensures cmd == TextCommandLine(bin, scan)
  {
    var full := BuildCommand(bin, scan);
    cmd := Filter(full, "--json");
  }

  /** The list comprehension `[c for c in s if c != x]`. */
  method Filter(s: seq<string>, x: string) returns (r: seq<string>)
    ensures r == Remove(s, x)
  {
    r := [];
    for i := 0 to |s|
      invariant r == Remove(s[..i], x)
    {
      assert s[..i + 1][..i] == s[..i];
      if s[i] != x {
        r := r + [s[i]];
      }
    }
    assert s[..|s|] == s;
  }

  lemma Singleton(x: string)
    ensures Count([x], x) == 1 && Remove([x], x) == []
  {
    assert [x][..0] == [];
  }

  /** Removing an element that occurs exactly once, at `k`, cuts out position `k`. */
  lemma RemoveOnly(s: seq<string>, x: string, k: nat)
    requires k < |s| && s[k] == x && Count(s, x) == 1
    ensures Remove(s, x) == s[..k] + s[k + 1..]
  {
    var a, b := s[..k], s[k + 1..];
    assert s == (a + [x]) + b;
    Singleton(x);
    CountAppend(a + [x], b, x);
    CountAppend(a, [x], x);
    RemoveAround(a, x, b);
  }

  /** Removing `x` from `a + [x] + b` where `a` and `b` hold none gives `a + b`. */
  lemma RemoveAround(a: seq<string>, x: string, b: seq<string>)
    requires Count(a, x) == 0 && Count(b, x) == 0
    ensures Remove((a + [x]) + b, x) == a + b
  {
    Singleton(x);
    RemoveAppend(a + [x], b, x);
    RemoveAppend(a, [x], x);
    RemoveProperties(a, x);
    RemoveProperties(b, x);
    assert Remove(a + [x], x) == a;
  }

  /**
   * The text-mode command never holds "--json"; when no copied value spells a
   * flag it is the full command with the one "--json" taken out.
   */
  lemma TextCommandShape(bin: string, scan: ScanResult)
    ensures "--json" !in TextCommandLine(bin, scan)
    ensures NoFlagValues(bin, scan) ==>
      var c := CommandLine(bin, scan);
      TextCommandLine(bin, scan) == c[..JsonIndex(scan)] + c[JsonIndex(scan) + 1..]
  {
    var c := CommandLine(bin, scan);
    RemoveProperties(c, "--json");
    CountZero(Remove(c, "--json"), "--json");
    if NoFlagValues(bin, scan) {
      CommandHead(bin, scan);
      JsonOnce(bin, scan);
      RemoveOnly(c, "--json", JsonIndex(scan));
    }
  }
}
