/**
 * The JSON documents the scanner stores as a scan's `results`: what `json.loads`
 * returns (floats and booleans aside) and what `parse_text_output` builds.
 * Python's `None` is `Null`. An object keeps its keys in insertion order.
 * Nothing forces its keys to be distinct: `Get` finds the first entry under a
 * key, so `json.loads` (which keeps the last) is taken to return objects
 * without repeated keys.
 */
module Json {
  import opened Wrappers

  datatype Value =
    | Null
    | Int(i: int)
    | Str(s: string)
    | List(items: seq<Value>)
    | Object(fields: seq<(string, Value)>)

  /** `key in d` for a dict `d`. */
  predicate HasKey(fields: seq<(string, Value)>, key: string) {
    exists k :: 0 <= k < |fields| && fields[k].0 == key
  }

  /** `d[key]`, or `None` for the `KeyError`. */
  function Get(fields: seq<(string, Value)>, key: string): (r: Option<Value>)
    ensures r.Some? <==> HasKey(fields, key)
    ensures r.Some? ==> exists k :: 0 <= k < |fields| && fields[k] == (key, r.value)
  {
    if fields == [] then None
    else if fields[0].0 == key then Some(fields[0].1)
    else
      var r := Get(fields[1..], key);
      assert HasKey(fields, key) ==> HasKey(fields[1..], key) by {
        if HasKey(fields, key) {
          var k :| 0 <= k < |fields| && fields[k].0 == key;
          assert fields[1..][k - 1] == fields[k];
        }
      }
      assert r.Some? ==> exists k :: 0 <= k < |fields| && fields[k] == (key, r.value) by {
        if r.Some? {
          var k :| 0 <= k < |fields[1..]| && fields[1..][k] == (key, r.value);
          assert fields[k + 1] == fields[1..][k];
        }
      }
      r
  }

  /** `not v`: None, 0, "", [] and {} are false in Python. */
  predicate Falsy(v: Value) {
    v == Null || v == Int(0) || v == Str("") || v == List([]) || v == Object([])
  }

  /** Python's `len(v)`; an int or None raises `TypeError`. */
  function Len(v: Value): (r: Result<nat>)
    ensures r.Ok? <==> (v.List? || v.Str? || v.Object?)
    ensures v.List? ==> r == Ok(|v.items|)
  {
    match v
    case List(xs) => Ok(|xs|)
    case Str(s) => Ok(|s|)
    case Object(fs) => Ok(|fs|)
    case Int(_) => Err("object of type 'int' has no len()")
    case Null => Err("object of type 'NoneType' has no len()")
  }
}
