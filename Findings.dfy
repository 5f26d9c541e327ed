/**
 * `ScanManager._count_findings` and `ScanManager._calc_total_size`: best-effort
 * summaries of an untyped results document. Both can raise: `len()` of an int or
 * None, and iterating an int or None, are `TypeError`s that nothing inside them
 * catches; only `int()` failures on a size are swallowed.
 */
module Findings {
  import opened Wrappers
  import opened Json
  import Text

  /** What one list item adds to the count: `len(item["files"])` for a dict holding "files", else 1. */
  function ItemCount(item: Value): Result<nat> {
    if item.Object? && HasKey(item.fields, "files") then Len(Get(item.fields, "files").value) else Ok(1)
  }

  /** Adds `c` to a successful count; an exception passes through unchanged. */
  function Shift(r: Result<int>, c: int): Result<int> {
    match r
    case Ok(n) => Ok(n + c)
    case Err(e) => Err(e)
  }

  /** The count of a list of items, or the first exception in list order. */
  function CountItems(items: seq<Value>): (r: Result<int>)
    ensures r.Ok? ==> r.value >= 0
  {
    if items == [] then Ok(0)
    else
      match ItemCount(items[0])
      case Err(e) => Err(e)
      case Ok(k) => Shift(CountItems(items[1..]), k)
  }

  /** The sum of the lengths of a dict's list values. */
  function CountListValues(fields: seq<(string, Value)>): nat {
    if fields == [] then 0
    else (if fields[0].1.List? then |fields[0].1.items| else 0) + CountListValues(fields[1..])
  }

  /** The specification of `_count_findings`. */
  function FindingsCount(results: Value): (r: Result<int>)
    ensures Falsy(results) ==> r == Ok(0)
    ensures r.Ok? ==> r.value >= 0
  {
    if Falsy(results) then Ok(0)
    else
      match results
      case List(items) => CountItems(items)
      case Object(fields) => Ok(CountListValues(fields))
      case _ => Ok(0)
  }

  method CountFindings(results: Value) returns (r: Result<int>)
    ensures r == FindingsCount(results)
  {
    if Falsy(results) {
      return Ok(0);
    }
    match results {
      case List(items) =>
        var count := 0;
        var i := 0;
        while i < |items|
          invariant 0 <= i <= |items|
          invariant CountItems(items) == Shift(CountItems(items[i..]), count)
        {
          var item := items[i];
          assert items[i..][1..] == items[i + 1..];
          if item.Object? && HasKey(item.fields, "files") {
            var n := Len(Get(item.fields, "files").value);
            if n.Err? {
              return Err(n.error);
            }
            count := count + n.value;
          } else {
            count := count + 1;
          }
          i := i + 1;
        }
        return Ok(count);
      case Object(fields) =>
        var total := 0;
        var i := 0;
        while i < |fields|
          invariant 0 <= i <= |fields|
          invariant CountListValues(fields) == total + CountListValues(fields[i..])
        {
          assert fields[i..][1..] == fields[i + 1..];
          if fields[i].1.List? {
            total := total + |fields[i].1.items|;
          }
          i := i + 1;
        }
        return Ok(total);
      case _ =>
        return Ok(0);
    }
  }

  /** `int(v)` inside `try/except (ValueError, TypeError)`: `None` where Python skips the entry. */
  function SizeOf(v: Value): Option<int> {
    match v
    case Int(n) => Some(n)
    case Str(s) => Text.ParseInt(s)
    case _ => None
  }

  /** What an entry adds to the total: its convertible "size" if it is a dict holding one, else 0. */
  function EntrySize(v: Value): int {
    if v.Object? && HasKey(v.fields, "size") then
      match SizeOf(Get(v.fields, "size").value)
      case Some(n) => n
      case None => 0
    else 0
  }

  function SumEntrySizes(vs: seq<Value>): int {
    if vs == [] then 0 else EntrySize(vs[0]) + SumEntrySizes(vs[1..])
  }

  /**
   * `for f in item["files"]`: a list's entries are summed; a string's characters
   * and a dict's keys are never dicts; an int or None is not iterable.
   */
  function FilesSize(files: Value): Result<int> {
    match files
    case List(fs) => Ok(SumEntrySizes(fs))
    case Str(_) => Ok(0)
    case Object(_) => Ok(0)
    case Int(_) => Err("'int' object is not iterable")
    case Null => Err("'NoneType' object is not iterable")
  }

  /** What one list item adds: a group's file sizes, a flat entry's size, or nothing. */
  function ListItemSize(item: Value): Result<int> {
    if !item.Object? then Ok(0)
    else if HasKey(item.fields, "files") then FilesSize(Get(item.fields, "files").value)
    else Ok(EntrySize(item))
  }

  function SumItemSizes(items: seq<Value>): Result<int> {
    if items == [] then Ok(0)
    else
      match ListItemSize(items[0])
      case Err(e) => Err(e)
      case Ok(k) => Shift(SumItemSizes(items[1..]), k)
  }

  /** A dict's list values, each summed entry by entry. */
  function SumDictSizes(fields: seq<(string, Value)>): int {
    if fields == [] then 0
    else (if fields[0].1.List? then SumEntrySizes(fields[0].1.items) else 0) + SumDictSizes(fields[1..])
  }

  /** The specification of `_calc_total_size`. */
  function TotalSize(results: Value): (r: Result<int>)
    ensures Falsy(results) ==> r == Ok(0)
  {
    if Falsy(results) then Ok(0)
    else
      match results
      case List(items) => SumItemSizes(items)
      case Object(fields) => Ok(SumDictSizes(fields))
      case _ => Ok(0)
  }

  method SumSizes(entries: seq<Value>) returns (total: int)
    ensures total == SumEntrySizes(entries)
  {
    total := 0;
    var j := 0;
    while j < |entries|
      invariant 0 <= j <= |entries|
      invariant SumEntrySizes(entries) == total + SumEntrySizes(entries[j..])
    {
      assert entries[j..][1..] == entries[j + 1..];
      var f := entries[j];
      if f.Object? && HasKey(f.fields, "size") {
        var n := SizeOf(Get(f.fields, "size").value);
        if n.Some? {
          total := total + n.value;
        }
      }
      j := j + 1;
    }
  }

  method CalcTotalSize(results: Value) returns (r: Result<int>)
    ensures r == TotalSize(results)
  {
    if Falsy(results) {
      return Ok(0);
    }
    match results {
      case List(items) =>
        r := SumListSizes(items);
      case Object(fields) =>
        var total := SumDictListSizes(fields);
        r := Ok(total);
      case _ =>
        r := Ok(0);
    }
  }

  /** The loop over a list of results: groups add their files, flat entries their size. */
  method SumListSizes(items: seq<Value>) returns (r: Result<int>)
    ensures r == SumItemSizes(items)
  {
    var total := 0;
    var i := 0;
    while i < |items|
      invariant 0 <= i <= |items|
      invariant SumItemSizes(items) == Shift(SumItemSizes(items[i..]), total)
    {
      var k := ItemSize(items[i]);
      SumItemSizesStep(items, i);
      if k.Err? {
        return Err(k.error);
      }
      ShiftShift(SumItemSizes(items[i + 1..]), k.value, total);
      total := total + k.value;
      i := i + 1;
    }
    return Ok(total);
  }

  /** One pass of that loop's body: what one item adds, or the exception it raises. */
  method ItemSize(item: Value) returns (r: Result<int>)
    ensures r == ListItemSize(item)
  {
    r := Ok(0);
    if item.Object? {
      if HasKey(item.fields, "files") {
        var files := Get(item.fields, "files").value;
        match files {
          case List(fs) =>
            var s := SumSizes(fs);
            r := Ok(s);
          case Str(_) =>
          case Object(_) =>
          case Int(_) =>
            r := Err("'int' object is not iterable");
          case Null =>
            r := Err("'NoneType' object is not iterable");
        }
      } else if HasKey(item.fields, "size") {
        var n := SizeOf(Get(item.fields, "size").value);
        if n.Some? {
          r := Ok(n.value);
        }
      }
    }
  }

  /** The sum from position `i` is the item at `i` followed by the sum from `i + 1`. */
  lemma SumItemSizesStep(items: seq<Value>, i: nat)
    requires i < |items|
    ensures SumItemSizes(items[i..]) ==
      match ListItemSize(items[i])
      case Err(e) => Err(e)
      case Ok(k) => Shift(SumItemSizes(items[i + 1..]), k)
  {
    assert items[i..][1..] == items[i + 1..];
  }

  /** Adding twice is adding the sum. */
  lemma ShiftShift(x: Result<int>, a: int, b: int)
    ensures Shift(Shift(x, a), b) == Shift(x, a + b)
  {
  }

  /** The loop over a dict of results: every list value adds its entries' sizes. */
  method SumDictListSizes(fields: seq<(string, Value)>) returns (total: int)
    ensures total == SumDictSizes(fields)
  {
    total := 0;
    var i := 0;
    while i < |fields|
      invariant 0 <= i <= |fields|
      invariant SumDictSizes(fields) == total + SumDictSizes(fields[i..])
    {
      assert fields[i..][1..] == fields[i + 1..];
      if fields[i].1.List? {
        var s := SumSizes(fields[i].1.items);
        total := total + s;
      }
      i := i + 1;
    }
  }

  /** Once `_count_findings` has returned, `_calc_total_size` cannot raise on the same results. */
  lemma {:induction false} CountOkThenSizeOk(results: Value)
    requires FindingsCount(results).Ok?
    ensures TotalSize(results).Ok?
  {
    if !Falsy(results) && results.List? {
      ItemsCountOkThenSizeOk(results.items);
    }
  }

  lemma {:induction false} ItemsCountOkThenSizeOk(items: seq<Value>)
    requires CountItems(items).Ok?
    ensures SumItemSizes(items).Ok?
  {
    if items != [] {
      ItemsCountOkThenSizeOk(items[1..]);
    }
  }

  /** A list none of whose items is a dict holding "files" counts one finding per item. */
  lemma {:induction false} FlatListCount(items: seq<Value>)
    requires forall k :: 0 <= k < |items| ==> !(items[k].Object? && HasKey(items[k].fields, "files"))
    ensures FindingsCount(List(items)) == Ok(|items|)
  {
    FlatItemsCount(items);
  }

  lemma {:induction false} FlatItemsCount(items: seq<Value>)
    requires forall k :: 0 <= k < |items| ==> !(items[k].Object? && HasKey(items[k].fields, "files"))
    ensures CountItems(items) == Ok(|items|)
  {
    if items != [] {
      assert forall k :: 0 <= k < |items[1..]| ==> items[1..][k] == items[k + 1];
      FlatItemsCount(items[1..]);
    }
  }

  /** A list of groups `{"files": [...]}` counts the files of every group. */
  lemma {:induction false} GroupListCount(groups: seq<seq<Value>>)
    ensures CountItems(seq(|groups|, k requires 0 <= k < |groups| => Object([("files", List(groups[k]))])))
         == Ok(SumLengths(groups))
    decreases |groups|
  {
    var items := seq(|groups|, k requires 0 <= k < |groups| => Object([("files", List(groups[k]))]));
    if groups != [] {
      assert items[0].fields[0].0 == "files";
      assert items[1..] == seq(|groups[1..]|, k requires 0 <= k < |groups[1..]| => Object([("files", List(groups[1..][k]))]));
      GroupListCount(groups[1..]);
    }
  }

  function SumLengths<T>(groups: seq<seq<T>>): nat {
    if groups == [] then 0 else |groups[0]| + SumLengths(groups[1..])
  }

  /** Counting a concatenation: the first part's exception wins, otherwise the counts add up. */
  lemma {:induction false} CountItemsAppend(a: seq<Value>, b: seq<Value>)
    ensures CountItems(a + b) == (match CountItems(a) case Err(e) => Err(e) case Ok(x) => Shift(CountItems(b), x))
  {
    if a != [] {
      assert (a + b)[0] == a[0] && (a + b)[1..] == a[1..] + b;
      CountItemsAppend(a[1..], b);
    } else {
      assert a + b == b;
    }
  }

  /** Summing a concatenation: the first part's exception wins, otherwise the sizes add up. */
  lemma {:induction false} SumItemSizesAppend(a: seq<Value>, b: seq<Value>)
    ensures SumItemSizes(a + b) == (match SumItemSizes(a) case Err(e) => Err(e) case Ok(x) => Shift(SumItemSizes(b), x))
  {
    if a != [] {
      assert (a + b)[0] == a[0] && (a + b)[1..] == a[1..] + b;
      SumItemSizesAppend(a[1..], b);
    } else {
      assert a + b == b;
    }
  }

  lemma {:induction false} SumEntrySizesAppend(a: seq<Value>, b: seq<Value>)
    ensures SumEntrySizes(a + b) == SumEntrySizes(a) + SumEntrySizes(b)
  {
    if a != [] {
      assert (a + b)[0] == a[0] && (a + b)[1..] == a[1..] + b;
      SumEntrySizesAppend(a[1..], b);
    } else {
      assert a + b == b;
    }
  }
}
