/**
 * The progress extractor of `_read_progress`: each stderr line, stripped, becomes
 * the current stage when it is not blank, and the first match of
 * `(\d+)\s*files?` under `re.IGNORECASE` replaces the processed-file count.
 * Digits are the ASCII digits; the optional `s` never changes whether or where
 * the pattern matches, so only "file" is searched for.
 */
module Progress {
  import opened Wrappers
  import opened Text
  import opened Models

  /**
   * Whether `c` matches the lower-case pattern letter `p` case-insensitively.
   * Python's Unicode case folding lets `i` also match U+0130 and U+0131; the
   * other letters of "file" match only their ASCII capitals.
   */
  predicate LetterMatches(c: char, p: char)
    requires 'a' <= p <= 'z'
  {
    c == p || c == (p as int - 32) as char || (p == 'i' && (c == 'İ' || c == 'ı'))
  }

  /** "file", in any case, starts at `k`. */
  predicate FileAt(s: string, k: nat) {
    k + 4 <= |s| && LetterMatches(s[k], 'f') && LetterMatches(s[k + 1], 'i')
      && LetterMatches(s[k + 2], 'l') && LetterMatches(s[k + 3], 'e')
  }

  /**
   * The regular expression matches at `p` with `\d+` covering `s[p..q]` and
   * `\s*` covering `s[q..r]`: any way of matching, greedy or not.
   */
  predicate RegexMatch(s: string, p: nat, q: nat, r: nat) {
    p < q <= r <= |s|
      && (forall j :: p <= j < q ==> IsDigit(s[j]))
      && (forall j :: q <= j < r ==> IsSpace(s[j]))
      && FileAt(s, r)
  }

  /** A match at `p` as the engine finds it: the whole digit run, then all the whitespace. */
  predicate MatchAt(s: string, p: nat) {
    p < |s| && IsDigit(s[p]) && FileAt(s, SpaceRun(s, DigitRun(s, p)))
  }

  /**
   * The greedy split is the only split, so the captured group is the maximal
   * digit run from `p` whenever the pattern matches there at all.
   */
  lemma MatchSplitIsUnique(s: string, p: nat, q: nat, r: nat)
    requires RegexMatch(s, p, q, r)
    ensures q == DigitRun(s, p) && r == SpaceRun(s, q) && MatchAt(s, p)
  {
    // the character after the digits is whitespace or the start of "file", not a digit
    assert q < |s| && !IsDigit(s[q]);
    assert DigitRun(s, p) == q;
    // the character after the whitespace starts "file", so it is not whitespace
    assert !IsSpace(s[r]);
  }

  lemma MatchAtIsRegexMatch(s: string, p: nat)
    requires MatchAt(s, p)
    ensures RegexMatch(s, p, DigitRun(s, p), SpaceRun(s, DigitRun(s, p)))
  {
  }

  /** `re.search` from `from`: the leftmost position where the pattern matches. */
  function Search(s: string, from: nat): (r: Option<nat>)
    requires from <= |s|
    ensures r.Some? ==> from <= r.value < |s| && MatchAt(s, r.value)
    ensures forall q :: from <= q < |s| && (r.None? || q < r.value) ==> !MatchAt(s, q)
    decreases |s| - from
  {
    if from == |s| then None
    else if MatchAt(s, from) then Some(from)
    else Search(s, from + 1)
  }

  /** `int(files_match.group(1))`, or `None` when the line holds no match. */
  function FilesInLine(text: string): (n: Option<nat>)
  {
    match Search(text, 0)
    case None => None
    case Some(p) => Some(DigitsValue(text[p..DigitRun(text, p)]))
  }

  /** Every match, however split, lies at or after the position `Search` reports. */
  lemma SearchIsLeftmost(s: string, p: nat, q: nat, r: nat)
    requires RegexMatch(s, p, q, r)
    ensures Search(s, 0).Some? && Search(s, 0).value <= p
  {
    MatchSplitIsUnique(s, p, q, r);
  }

  /**
   * The count comes from the first digit run that is followed by optional
   * whitespace and "file": the run starts the match, it is not the tail of a longer run,
   * and no earlier position matches in any way.
   */
  lemma FilesInLineIsFirstRun(text: string)
    ensures FilesInLine(text).None? <==> forall p: nat, q: nat, r: nat :: !RegexMatch(text, p, q, r)
    ensures FilesInLine(text).Some? ==>
      exists p: nat ::
        && p < |text|
        && (p == 0 || !IsDigit(text[p - 1]))
        && RegexMatch(text, p, DigitRun(text, p), SpaceRun(text, DigitRun(text, p)))
        && FilesInLine(text).value == DigitsValue(text[p..DigitRun(text, p)])
        && forall p': nat, q: nat, r: nat :: p' < p ==> !RegexMatch(text, p', q, r)
  {
    forall p: nat, q: nat, r: nat | RegexMatch(text, p, q, r)
      ensures Search(text, 0).Some? && Search(text, 0).value <= p
    {
      SearchIsLeftmost(text, p, q, r);
    }
    if Search(text, 0).Some? {
      var p := Search(text, 0).value;
      MatchAtIsRegexMatch(text, p);
      if p > 0 && IsDigit(text[p - 1]) {
        RunTailMatches(text, p);
      }
    }
  }

  /** A match inside a digit run is also a match at the position before it. */
  lemma RunTailMatches(s: string, p: nat)
    requires 0 < p && MatchAt(s, p) && IsDigit(s[p - 1])
    ensures MatchAt(s, p - 1)
  {
    assert DigitRun(s, p - 1) == DigitRun(s, p);
  }

  /**
   * One stderr line applied to the progress record: a blank line changes nothing;
   * otherwise the stripped line is the stage, `elapsed` (already rounded) the
   * elapsed time, and a match the new file count.
   */
  function ApplyLine(progress: ScanProgress, raw: string, elapsed: real): (r: ScanProgress)
    ensures r.kind == progress.kind && r.currentFile == progress.currentFile
    ensures Strip(raw) == [] ==> r == progress
  {
    var text := Strip(raw);
    if text == [] then progress
    else
      var files := match FilesInLine(text) case Some(n) => n case None => progress.filesProcessed;
      progress.(currentStage := text, elapsedSeconds := elapsed, filesProcessed := files)
  }

  /** What a non-blank line does to the record, field by field. */
  lemma ApplyNonBlankLine(progress: ScanProgress, raw: string, elapsed: real)
    requires Strip(raw) != []
    ensures var r := ApplyLine(progress, raw, elapsed);
      && r.currentStage == Strip(raw) && r.elapsedSeconds == elapsed
      && (FilesInLine(Strip(raw)).None? ==> r.filesProcessed == progress.filesProcessed)
      && (FilesInLine(Strip(raw)).Some? ==> r.filesProcessed == FilesInLine(Strip(raw)).value)
  {
  }

  /** A line is applied as its stripped text: stripping it again first changes nothing. */
  lemma ApplyLineStripped(progress: ScanProgress, raw: string, elapsed: real)
    ensures ApplyLine(progress, Strip(raw), elapsed) == ApplyLine(progress, raw, elapsed)
  {
    StripOfStripped(Strip(raw));
  }

  /** An example: "12 files" sets the count to 12. */
  lemma FilesExample(progress: ScanProgress)
    ensures ApplyLine(progress, "12 files", 1.5).filesProcessed == 12
  {
    TwelveFilesStripped();
    TwelveFilesCount();
  }

  /** "12 files" has no surrounding whitespace. */
  lemma TwelveFilesStripped()
    ensures Strip("12 files") == "12 files"
  {
    StripOfStripped("12 files");
  }

  /** The digit run at the start of "12 files" is the match, and its value is 12. */
  lemma TwelveFilesCount()
    ensures FilesInLine("12 files") == Some(12)
  {
    var s := "12 files";
    assert DigitRun(s, 2) == 2 && DigitRun(s, 0) == 2 && SpaceRun(s, 2) == 3;
    assert MatchAt(s, 0);
    assert s[0..2] == "12";
    assert DigitsValue("12") == 12 by {
      assert "12"[..1] == "1";
      assert "1"[..0] == "";
    }
  }
}
