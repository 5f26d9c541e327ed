/**
 * `parse_text_output`: turning `czkawka_cli`'s plain-text report into results
 * when the binary does not accept `--json`. Simple scan types give one
 * `{"path": line}` per kept line; the other types give groups
 * `{"files": [entry, ...]}` of consecutive kept lines, where a skipped line
 * (blank, or a "----", "Found" or "Searching" header) ends the current group.
 */
module TextOutput {
  import opened Wrappers
  import opened Text
  import opened Json
  import opened Models
  import Findings

  /** The input's lines, each stripped, as the parser's loop sees them. */
  function Lines(text: string): (ls: seq<string>)
    ensures Strip(text) == [] <==> ls == []
  {
    StripEach(SplitLines(Strip(text)))
  }

  function StripEach(raw: seq<string>): (ls: seq<string>)
    ensures |ls| == |raw| && forall k :: 0 <= k < |raw| ==> ls[k] == Strip(raw[k])
  {
    seq(|raw|, k requires 0 <= k < |raw| => Strip(raw[k]))
  }

  /** A line the parser skips: blank or a header or summary line. */
  predicate Skipped(line: string) {
    line == [] || StartsWith(line, "----") || StartsWith(line, "Found") || StartsWith(line, "Searching")
  }

  /** The lines that are not skipped, in input order. */
  function Kept(ls: seq<string>): (r: seq<string>)
    ensures |r| <= |ls|
    ensures forall k :: 0 <= k < |r| ==> !Skipped(r[k])
  {
    if ls == [] then []
    else Kept(ls[..|ls| - 1]) + (if Skipped(ls[|ls| - 1]) then [] else [ls[|ls| - 1]])
  }

  // ---------------------------------------------------------------------
  // The size-and-path pattern `^(\d+(?:\.\d+)?(?:\s*[KMGT]?B)?)\s*-\s*(.+)$`
  // ---------------------------------------------------------------------

  predicate IsUnitPrefix(c: char) {
    c == 'K' || c == 'M' || c == 'G' || c == 'T'
  }

  /** The characters the size group can hold. */
  predicate IsTokenChar(c: char) {
    IsDigit(c) || c == '.' || IsSpace(c) || IsUnitPrefix(c) || c == 'B'
  }

  /** A string the size group can match: it starts with a digit and ends with a digit or 'B'. */
  predicate IsSizeToken(t: string) {
    && t != [] && IsDigit(t[0]) && (IsDigit(t[|t| - 1]) || t[|t| - 1] == 'B')
    && forall i :: 0 <= i < |t| ==> IsTokenChar(t[i])
  }

  /**
   * Where the size group ends in `line`, or 0 when the line does not start with a
   * digit. The regex cannot backtrack into a shorter size: whatever follows a
   * shorter digit run, fraction or unit is a character the rest cannot match.
   */
  function SizeEnd(line: string): (e: nat)
    ensures e <= |line|
    ensures e > 0 ==> IsSizeToken(line[..e])
    ensures e == 0 <==> (line == [] || !IsDigit(line[0]))
  {
    var d := DigitRun(line, 0);
    if d == 0 then 0
    else
      var f := if d < |line| && line[d] == '.' && DigitRun(line, d + 1) > d + 1 then DigitRun(line, d + 1) else d;
      var w := SpaceRun(line, f);
      var u := if w < |line| && IsUnitPrefix(line[w]) then w + 1 else w;
      var e := if u < |line| && line[u] == 'B' then u + 1 else f;
      assert forall i :: 0 <= i < e ==> IsTokenChar(line[..e][i]) by {
        forall i | 0 <= i < e ensures IsTokenChar(line[i]) {
          if i < d || (d < i < f) { assert IsDigit(line[i]); }
          else if i == d && i < f { assert line[i] == '.'; }
          else if f <= i < w { assert IsSpace(line[i]); }
          else if i == w && w < u { assert IsUnitPrefix(line[i]); }
          else { assert line[i] == 'B'; }
        }
      }
      e
  }

  /** The regex's two groups: the size token and the path. */
  datatype SizePath = SizePath(size: string, path: string)

  /** `\s*-\s*`: whitespace, one hyphen, whitespace. */
  predicate IsSeparator(m: string) {
    exists j :: 0 <= j < |m| && m[j] == '-' && (forall i :: 0 <= i < |m| && i != j ==> IsSpace(m[i]))
  }

  /**
   * `re.match` of the size-and-path pattern, on a line without line breaks
   * (which is all the parser passes it): the line is the size token, a
   * separator, and a non-empty path group that reaches the end of the line.
   */
  function MatchSizePath(line: string): (r: Option<SizePath>)
    ensures r.Some? ==>
      && |r.value.size| + |r.value.path| <= |line|
      && line == r.value.size + line[|r.value.size|..|line| - |r.value.path|] + r.value.path
      && IsSizeToken(r.value.size)
      && IsSeparator(line[|r.value.size|..|line| - |r.value.path|])
      && r.value.path != []
  {
    var e := SizeEnd(line);
    if e == 0 then None
    else
      var s := SpaceRun(line, e);
      if s == |line| || line[s] != '-' then None
      else
        if s + 1 == |line| then None
        else
          // `\s*` is greedy; when only whitespace is left it gives back one character to `.+`
          var q := SpaceRun(line, s + 1);
          var p := if q < |line| then q else |line| - 1;
          var path := line[p..];
          SeparatorBetween(line, e, s, path);
          Some(SizePath(line[..e], path))
  }

  lemma SeparatorBetween(line: string, e: nat, s: nat, path: string)
    requires e <= s < |line| && line[s] == '-'
    requires forall j :: e <= j < s ==> IsSpace(line[j])
    requires s + 1 + |path| <= |line| && path == line[|line| - |path|..]
    requires forall i :: s + 1 <= i < |line| - |path| ==> IsSpace(line[i])
    ensures line == line[..e] + line[e..|line| - |path|] + path
    ensures IsSeparator(line[e..|line| - |path|])
  {
    var m := line[e..|line| - |path|];
    assert m[s - e] == '-';
    forall i | 0 <= i < |m| && i != s - e
      ensures IsSpace(m[i])
    {
      if i < s - e {
        assert m[i] == line[e + i];
      } else {
        assert m[i] == line[e + i];
      }
    }
  }

  /** A group line as the parser records it: size (or its unparsed token) and path, or just the path. */
  function Entry(line: string): Value {
    match MatchSizePath(line)
    case None => Object([("path", Str(line))])
    case Some(sp) =>
      var size := Strip(sp.size);
      var path := Strip(sp.path);
      match ParseInt(size)
      case Some(n) => Object([("size", Int(n)), ("path", Str(path))])
      case None => Object([("size_str", Str(size)), ("path", Str(path))])
  }

  /** The size token never has surrounding whitespace, and `int()` accepts it exactly when it is all digits. */
  lemma SizeTokenParses(tok: string)
    requires IsSizeToken(tok)
    ensures Strip(tok) == tok
    ensures ParseInt(tok).Some? <==> AllDigits(tok)
    ensures AllDigits(tok) ==> ParseInt(tok) == Some(DigitsValue(tok))
  {
    assert !IsSpace(tok[0]) && !IsSpace(tok[|tok| - 1]);
    StripOfStripped(tok);
    ParseIntUnsigned(tok);
    if DecimalBody(tok) {
      TokenBodyDigits(tok);
    }
  }

  /** The size group holds no underscore, so a decimal body among its strings is all digits. */
  lemma TokenBodyDigits(tok: string)
    requires IsSizeToken(tok) && DecimalBody(tok)
    ensures AllDigits(tok)
  {
    forall i | 0 <= i < |tok|
      ensures IsDigit(tok[i])
    {
      assert IsTokenChar(tok[i]);
    }
  }

  /**
   * A line of the size-and-path form records an integer "size" exactly when the
   * size token is all digits, and the token itself as "size_str" otherwise; its
   * "path" is the stripped path group. Any other line records only its path.
   */
  lemma EntryShape(line: string)
    ensures MatchSizePath(line).None? ==> Entry(line) == Object([("path", Str(line))])
    ensures MatchSizePath(line).Some? ==>
      var sp := MatchSizePath(line).value;
      && (AllDigits(sp.size) ==> Entry(line) == Object([("size", Int(DigitsValue(sp.size))), ("path", Str(Strip(sp.path)))]))
      && (!AllDigits(sp.size) ==> Entry(line) == Object([("size_str", Str(sp.size)), ("path", Str(Strip(sp.path)))]))
  {
    if MatchSizePath(line).Some? {
      SizeTokenParses(MatchSizePath(line).value.size);
    }
  }

  /** "123 - /a/b": a plain byte count, a hyphen and a path. */
  lemma PlainSizeLineMatches(digits: string, w1: string, w2: string, path: string)
    requires digits != [] && AllDigits(digits)
    requires forall i :: 0 <= i < |w1| ==> IsSpace(w1[i])
    requires forall i :: 0 <= i < |w2| ==> IsSpace(w2[i])
    requires path != [] && !IsSpace(path[0])
    ensures MatchSizePath(digits + w1 + "-" + w2 + path) == Some(SizePath(digits, path))
  {
    var line := digits + w1 + "-" + w2 + path;
    var n := |digits|;
    var s := n + |w1|;
    var q := s + 1 + |w2|;
    assert forall j :: 0 <= j < n ==> line[j] == digits[j];
    assert forall j :: n <= j < s ==> line[j] == w1[j - n];
    assert line[s] == '-';
    assert forall j :: s + 1 <= j < q ==> line[j] == w2[j - s - 1];
    assert line[q..] == path;
    assert line[..n] == digits;
    DigitRunIs(line, 0, n);
    SpaceRunIs(line, n, s);
    SpaceRunIs(line, s + 1, q);
    PlainSizeEnd(line, n, s);
    PlainSeparator(line, n, s, q);
  }

  /** A digit run followed by whitespace and a hyphen is the whole size group. */
  lemma PlainSizeEnd(line: string, n: nat, s: nat)
    requires 0 < n <= s < |line| && line[s] == '-'
    requires DigitRun(line, 0) == n && SpaceRun(line, n) == s
    ensures SizeEnd(line) == n
  {
    assert line[n] != '.' by {
      if n < s {
        assert IsSpace(line[n]);
      }
    }
  }

  /** After the size group: whitespace, the hyphen, whitespace, and a path starting at `q`. */
  lemma PlainSeparator(line: string, n: nat, s: nat, q: nat)
    requires SizeEnd(line) == n > 0 && s < q < |line| && line[s] == '-'
    requires SpaceRun(line, n) == s && SpaceRun(line, s + 1) == q
    ensures MatchSizePath(line) == Some(SizePath(line[..n], line[q..]))
  {
  }

  lemma {:induction false} DigitRunIs(s: string, i: nat, k: nat)
    requires i <= k <= |s|
    requires forall j :: i <= j < k ==> IsDigit(s[j])
    requires k < |s| ==> !IsDigit(s[k])
    ensures DigitRun(s, i) == k
    decreases k - i
  {
    if i < k {
      DigitRunIs(s, i + 1, k);
    }
  }

  lemma {:induction false} SpaceRunIs(s: string, i: nat, k: nat)
    requires i <= k <= |s|
    requires forall j :: i <= j < k ==> IsSpace(s[j])
    requires k < |s| ==> !IsSpace(s[k])
    ensures SpaceRun(s, i) == k
    decreases k - i
  {
    if i < k {
      SpaceRunIs(s, i + 1, k);
    }
  }

  // ---------------------------------------------------------------------
  // The parser
  // ---------------------------------------------------------------------

  function PathItem(line: string): Value {
    Object([("path", Str(line))])
  }

  /** Output for the simple types: one path item per kept line. */
  function SimpleItems(ls: seq<string>): seq<Value> {
    if ls == [] then []
    else SimpleItems(ls[..|ls| - 1]) + (if Skipped(ls[|ls| - 1]) then [] else [PathItem(ls[|ls| - 1])])
  }

  /** The groups closed so far and the group being built. */
  datatype GroupState = GroupState(closed: seq<seq<Value>>, current: seq<Value>)

  /** One line of the group loop: a skipped line closes a non-empty group, any other line joins it. */
  function StepGroup(st: GroupState, line: string): GroupState {
    if Skipped(line) then GroupState(Close(st), [])
    else GroupState(st.closed, st.current + [Entry(line)])
  }

  /** The groups once the group being built, if non-empty, is closed too. */
  function Close(st: GroupState): seq<seq<Value>> {
    if st.current != [] then st.closed + [st.current] else st.closed
  }

  function Fold(ls: seq<string>): GroupState {
    if ls == [] then GroupState([], []) else StepGroup(Fold(ls[..|ls| - 1]), ls[|ls| - 1])
  }

  /** The file lists of the groups for the given lines. */
  function GroupFiles(ls: seq<string>): seq<seq<Value>> {
    Close(Fold(ls))
  }

  function GroupValue(files: seq<Value>): Value {
    Object([("files", List(files))])
  }

  function Wrap(groups: seq<seq<Value>>): (r: seq<Value>)
    ensures |r| == |groups| && forall k :: 0 <= k < |r| ==> r[k] == GroupValue(groups[k])
  {
    if groups == [] then [] else Wrap(groups[..|groups| - 1]) + [GroupValue(groups[|groups| - 1])]
  }

  /** The specification of `parse_text_output`. */
  function ParseText(text: string, scanType: ScanType): seq<Value> {
    if Strip(text) == [] then []
    else if IsSimpleType(scanType) then SimpleItems(Lines(text))
    else Wrap(GroupFiles(Lines(text)))
  }

  method ParseTextOutput(text: string, scanType: ScanType) returns (r: seq<Value>)
    ensures r == ParseText(text, scanType)
  {
    if Strip(text) == [] {
      return [];
    }
    var lines := SplitLines(Strip(text));
    if IsSimpleType(scanType) {
      r := ParseSimple(lines);
    } else {
      r := ParseGroups(lines);
    }
  }

  /** The loop for the simple types. */
  method ParseSimple(lines: seq<string>) returns (items: seq<Value>)
    ensures items == SimpleItems(StripEach(lines))
  {
    ghost var ls := StripEach(lines);
    items := [];
    for i := 0 to |lines|
      invariant items == SimpleItems(ls[..i])
    {
      var line := Strip(lines[i]);
      assert ls[..i + 1][..i] == ls[..i] && ls[i] == line;
      if Skipped(line) {
        continue;
      }
      items := items + [Object([("path", Str(line))])];
    }
    assert ls[..|lines|] == ls;
  }

  /** The loop for the group types. */
  method ParseGroups(lines: seq<string>) returns (groups: seq<Value>)
    ensures groups == Wrap(GroupFiles(StripEach(lines)))
  {
    ghost var ls := StripEach(lines);
    groups := [];
    var current: seq<Value> := [];
    for i := 0 to |lines|
      invariant groups == Wrap(Fold(ls[..i]).closed) && current == Fold(ls[..i]).current
    {
      var line := Strip(lines[i]);
      assert ls[..i + 1][..i] == ls[..i] && ls[i] == line;
      if Skipped(line) {
        if current != [] {
          WrapSnoc(Fold(ls[..i]).closed, current);
          groups := groups + [Object([("files", List(current))])];
          current := [];
        }
        continue;
      }
      var fileInfo := ParseFileInfo(line);
      current := current + [fileInfo];
    }
    assert ls[..|lines|] == ls;
    if current != [] {
      WrapSnoc(Fold(ls).closed, current);
      groups := groups + [Object([("files", List(current))])];
    }
  }

  /** The dict one group line becomes, built key by key. */
  method ParseFileInfo(line: string) returns (info: Value)
    ensures info == Entry(line)
  {
    var m := MatchSizePath(line);
    if m.Some? {
      var sizeStr := Strip(m.value.size);
      var filePath := Strip(m.value.path);
      var size := ParseInt(sizeStr);
      var sizeField := if size.Some? then ("size", Int(size.value)) else ("size_str", Str(sizeStr));
      info := Object([sizeField, ("path", Str(filePath))]);
    } else {
      info := Object([("path", Str(line))]);
    }
  }

  // ---------------------------------------------------------------------
  // Properties of the parser
  // ---------------------------------------------------------------------

  /** Kept lines are exactly the input lines that are not skipped. */
  lemma {:induction false} KeptMembers(ls: seq<string>, x: string)
    ensures x in Kept(ls) <==> x in ls && !Skipped(x)
  {
    if ls != [] {
      KeptMembers(ls[..|ls| - 1], x);
      assert ls == ls[..|ls| - 1] + [ls[|ls| - 1]];
    }
  }

  /** Empty or whitespace-only output parses to no results, whatever the scan type. */
  lemma BlankTextParsesEmpty(text: string, scanType: ScanType)
    requires forall i :: 0 <= i < |text| ==> IsSpace(text[i])
    ensures ParseText(text, scanType) == []
  {
  }

  /** For the simple types the output is one `{"path": line}` per kept line, in order. */
  lemma {:induction false} SimpleItemsAreKept(ls: seq<string>)
    ensures |SimpleItems(ls)| == |Kept(ls)|
    ensures forall k :: 0 <= k < |Kept(ls)| ==> SimpleItems(ls)[k] == PathItem(Kept(ls)[k])
  {
    if ls != [] {
      SimpleItemsAreKept(ls[..|ls| - 1]);
    }
  }

  /** The entries of all kept lines, in order. */
  function Entries(ls: seq<string>): seq<Value> {
    if ls == [] then []
    else Entries(ls[..|ls| - 1]) + (if Skipped(ls[|ls| - 1]) then [] else [Entry(ls[|ls| - 1])])
  }

  lemma {:induction false} EntriesAreKept(ls: seq<string>)
    ensures |Entries(ls)| == |Kept(ls)|
    ensures forall k :: 0 <= k < |Kept(ls)| ==> Entries(ls)[k] == Entry(Kept(ls)[k])
  {
    if ls != [] {
      EntriesAreKept(ls[..|ls| - 1]);
    }
  }

  function Flatten(groups: seq<seq<Value>>): seq<Value> {
    if groups == [] then [] else Flatten(groups[..|groups| - 1]) + groups[|groups| - 1]
  }

  lemma FlattenSnoc(groups: seq<seq<Value>>, g: seq<Value>)
    ensures Flatten(groups + [g]) == Flatten(groups) + g
  {
    assert (groups + [g])[..|groups|] == groups;
  }

  /** What the group loop keeps: closed groups are non-empty, and closed plus open files are the entries so far. */
  lemma {:induction false} FoldInvariant(ls: seq<string>)
    ensures forall k :: 0 <= k < |Fold(ls).closed| ==> Fold(ls).closed[k] != []
    ensures Flatten(Fold(ls).closed) + Fold(ls).current == Entries(ls)
  {
    if ls != [] {
      var init, line := ls[..|ls| - 1], ls[|ls| - 1];
      FoldInvariant(init);
      var st := Fold(init);
      assert Fold(ls) == StepGroup(st, line);
      assert Entries(ls) == Entries(init) + (if Skipped(line) then [] else [Entry(line)]);
      if Skipped(line) {
        if st.current != [] {
          FlattenSnoc(st.closed, st.current);
        }
      } else {
        assert Flatten(st.closed) + (st.current + [Entry(line)]) == Flatten(st.closed) + st.current + [Entry(line)];
      }
    }
  }

  /** No emitted group is empty. */
  lemma GroupsNonEmpty(ls: seq<string>)
    ensures forall k :: 0 <= k < |GroupFiles(ls)| ==> GroupFiles(ls)[k] != []
  {
    FoldInvariant(ls);
  }

  /** Concatenating the groups' files gives one entry per kept line, in input order. */
  lemma GroupsFlatten(ls: seq<string>)
    ensures Flatten(GroupFiles(ls)) == Entries(ls)
  {
    FoldInvariant(ls);
    var st := Fold(ls);
    if st.current != [] {
      FlattenSnoc(st.closed, st.current);
    }
  }

  /** Folding past a point where no group is open continues as a fresh fold would. */
  lemma {:induction false} FoldAfterClose(x: seq<string>, b: seq<string>)
    requires Fold(x).current == []
    ensures Fold(x + b) == GroupState(Fold(x).closed + Fold(b).closed, Fold(b).current)
    decreases |b|
  {
    if b == [] {
      assert x + b == x;
    } else {
      var b' := b[..|b| - 1];
      FoldAfterClose(x, b');
      assert (x + b)[..|x + b| - 1] == x + b';
      var st := Fold(b');
      assert Fold(x).closed + st.closed + [st.current] == Fold(x).closed + (st.closed + [st.current]);
    }
  }

  /** A skipped line separates groups: the lines before it and after it group independently. */
  lemma SkippedLineSplits(a: seq<string>, line: string, b: seq<string>)
    requires Skipped(line)
    ensures GroupFiles(a + [line] + b) == GroupFiles(a) + GroupFiles(b)
  {
    var x := a + [line];
    assert x[..|x| - 1] == a;
    FoldAfterClose(x, b);
    var st := Fold(b);
    if st.current != [] {
      assert GroupFiles(a) + st.closed + [st.current] == GroupFiles(a) + (st.closed + [st.current]);
    }
  }

  /** A run of kept lines with no skipped line among them forms a single group. */
  lemma {:induction false} KeptRunIsOneGroup(ls: seq<string>)
    requires ls != []
    requires forall k :: 0 <= k < |ls| ==> !Skipped(ls[k])
    ensures GroupFiles(ls) == [Entries(ls)]
  {
    KeptRunFold(ls);
  }

  lemma {:induction false} KeptRunFold(ls: seq<string>)
    requires forall k :: 0 <= k < |ls| ==> !Skipped(ls[k])
    ensures Fold(ls) == GroupState([], Entries(ls))
    ensures ls != [] ==> Entries(ls) != []
  {
    if ls != [] {
      KeptRunFold(ls[..|ls| - 1]);
    }
  }

  // ---------------------------------------------------------------------
  // The parse as the summarisers see it
  // ---------------------------------------------------------------------

  function SumLengths(groups: seq<seq<Value>>): nat {
    if groups == [] then 0 else SumLengths(groups[..|groups| - 1]) + |groups[|groups| - 1]|
  }

  lemma {:induction false} FlattenLength(groups: seq<seq<Value>>)
    ensures |Flatten(groups)| == SumLengths(groups)
  {
    if groups != [] {
      FlattenLength(groups[..|groups| - 1]);
    }
  }

  /** A list of groups counts the files of every group. */
  lemma {:induction false} WrapCount(groups: seq<seq<Value>>)
    ensures Findings.CountItems(Wrap(groups)) == Ok(SumLengths(groups))
  {
    if groups != [] {
      var init := groups[..|groups| - 1];
      var g := GroupValue(groups[|groups| - 1]);
      WrapCount(init);
      Findings.CountItemsAppend(Wrap(init), [g]);
      assert g.fields[0].0 == "files";
      assert [g][1..] == [];
    }
  }

  /** A list of groups sums the sizes of all their files. */
  lemma {:induction false} WrapSize(groups: seq<seq<Value>>)
    ensures Findings.SumItemSizes(Wrap(groups)) == Ok(Findings.SumEntrySizes(Flatten(groups)))
  {
    if groups != [] {
      var init := groups[..|groups| - 1];
      var last := groups[|groups| - 1];
      WrapSize(init);
      WrapFlattenSnoc(groups);
      SnocSize(Wrap(init), Findings.SumEntrySizes(Flatten(init)), last);
      Findings.SumEntrySizesAppend(Flatten(init), last);
    }
  }

  /** Wrapping one more group appends its value. */
  lemma WrapSnoc(closed: seq<seq<Value>>, files: seq<Value>)
    ensures Wrap(closed + [files]) == Wrap(closed) + [GroupValue(files)]
  {
    assert (closed + [files])[..|closed|] == closed;
  }

  /** One unfolding of `Wrap` and `Flatten`. */
  lemma WrapFlattenSnoc(groups: seq<seq<Value>>)
    requires groups != []
    ensures Wrap(groups) == Wrap(groups[..|groups| - 1]) + [GroupValue(groups[|groups| - 1])]
    ensures Flatten(groups) == Flatten(groups[..|groups| - 1]) + groups[|groups| - 1]
  {
  }

  /** Appending a group to items whose sizes sum to `x` adds the group's file sizes. */
  lemma SnocSize(items: seq<Value>, x: int, files: seq<Value>)
    requires Findings.SumItemSizes(items) == Ok(x)
    ensures Findings.SumItemSizes(items + [GroupValue(files)]) == Ok(x + Findings.SumEntrySizes(files))
  {
    Findings.SumItemSizesAppend(items, [GroupValue(files)]);
    GroupValueSize(files);
  }

  /** One group adds the sizes of its files. */
  lemma GroupValueSize(files: seq<Value>)
    ensures Findings.SumItemSizes([GroupValue(files)]) == Ok(Findings.SumEntrySizes(files))
  {
    var g := GroupValue(files);
    assert g.fields[0].0 == "files";
    assert [g][1..] == [];
  }

  /** Path-only items carry no sizes. */
  lemma {:induction false} SimpleItemsSize(ls: seq<string>)
    ensures Findings.SumItemSizes(SimpleItems(ls)) == Ok(0)
  {
    if ls != [] {
      var init := ls[..|ls| - 1];
      SimpleItemsSize(init);
      var l := ls[|ls| - 1];
      if !Skipped(l) {
        var item := PathItem(l);
        Findings.SumItemSizesAppend(SimpleItems(init), [item]);
        assert !HasKey(item.fields, "files") && !HasKey(item.fields, "size");
        assert [item][1..] == [];
      } else {
        assert SimpleItems(ls) == SimpleItems(init);
      }
    }
  }

  /** The findings count of a parse is the number of kept lines, for every scan type. */
  lemma ParseCount(text: string, scanType: ScanType)
    ensures Findings.FindingsCount(List(ParseText(text, scanType))) == Ok(|Kept(Lines(text))|)
  {
    if Strip(text) == [] {
    } else if IsSimpleType(scanType) {
      SimpleCount(Lines(text));
    } else {
      GroupCount(Lines(text));
    }
  }

  lemma SimpleCount(ls: seq<string>)
    ensures Findings.FindingsCount(List(SimpleItems(ls))) == Ok(|Kept(ls)|)
  {
    SimpleItemsAreKept(ls);
    var items := SimpleItems(ls);
    forall k | 0 <= k < |items|
      ensures !(items[k].Object? && HasKey(items[k].fields, "files"))
    {
      assert items[k].fields[0].0 == "path";
    }
    Findings.FlatListCount(items);
  }

  lemma GroupCount(ls: seq<string>)
    ensures Findings.FindingsCount(List(Wrap(GroupFiles(ls)))) == Ok(|Kept(ls)|)
  {
    var gs := GroupFiles(ls);
    WrapCount(gs);
    FlattenLength(gs);
    GroupsFlatten(ls);
    EntriesAreKept(ls);
  }

  /**
   * The total size of a parse: nothing for the simple types; for the group types,
   * the sizes of the kept lines' entries (a "size_str" entry adds nothing).
   */
  lemma ParseSize(text: string, scanType: ScanType)
    ensures IsSimpleType(scanType) ==> Findings.TotalSize(List(ParseText(text, scanType))) == Ok(0)
    ensures !IsSimpleType(scanType) ==>
      Findings.TotalSize(List(ParseText(text, scanType))) == Ok(Findings.SumEntrySizes(Entries(Lines(text))))
  {
    var ls := Lines(text);
    if Strip(text) == [] {
    } else if IsSimpleType(scanType) {
      SimpleItemsSize(ls);
    } else {
      GroupSize(ls);
    }
  }

  lemma GroupSize(ls: seq<string>)
    ensures Findings.TotalSize(List(Wrap(GroupFiles(ls)))) == Ok(Findings.SumEntrySizes(Entries(ls)))
  {
    WrapSize(GroupFiles(ls));
    GroupsFlatten(ls);
  }
}
