/**
 * `file_ops.py` over an abstract filesystem: a map from resolved path to node.
 * A directory's contents are the paths beneath it; the map does not insist
 * that a path's parent exists. `Path.resolve()`, the clock, `json.dumps` and
 * `json.loads` are parameters; `datetime.fromisoformat` is a table from the
 * strings it accepts to the instants they denote.
 */
module FileOps {
  import opened Wrappers
  import opened Text
  import opened Json
  import opened Models
  import opened Paths

  /** A regular file with its byte size and contents, or a directory with the size `stat` reports for it. */
  datatype Node = File(size: nat, text: string) | Dir(size: nat)

  type Tree = map<string, Node>

  /** `shutil.rmtree(r)`: `r` and everything beneath it are gone. */
  function RemoveTree(nodes: Tree, r: string): (m: Tree)
    ensures forall q :: q in m <==> q in nodes && !Under(r, q)
    ensures forall q :: q in m ==> m[q] == nodes[q]
  {
    map q | q in nodes && !Under(r, q) :: nodes[q]
  }

  /** `shutil.rmtree("/")` leaves no absolute path behind. */
  lemma RemoveRootTree(nodes: Tree)
    ensures forall q :: q in RemoveTree(nodes, "/") ==> q == [] || q[0] != '/'
  {
    forall q | q != [] && q[0] == '/'
      ensures Under("/", q)
    {
      assert q[..1] == "/";
    }
  }

  /**
   * The part of a path beneath `src` that lies below it: empty for `src`
   * itself, and otherwise starting with `/`.
   */
  function Below(src: string, q: string): (t: string)
    requires Under(src, q)
    ensures t == [] <==> q == src
    ensures t != [] ==> t[0] == '/'
    ensures (if src == "/" && t != [] then t else src + t) == q
  {
    if src == "/" && q != "/" then q
    else
      assert q == q[..|src|] + q[|src|..];
      q[|src|..]
  }

  /** Where a path beneath `src` lands when `src` is moved to `dst`. */
  function Rebase(src: string, dst: string, q: string): (r: string)
    requires Under(src, q)
    ensures |r| >= |dst| && r[..|dst|] == dst && r[|dst|..] == Below(src, q)
  {
    dst + Below(src, q)
  }

  /** Distinct paths beneath `src` land on distinct paths. */
  lemma RebaseInjective(src: string, dst: string, q1: string, q2: string)
    requires Under(src, q1) && Under(src, q2) && Rebase(src, dst, q1) == Rebase(src, dst, q2)
    ensures q1 == q2
  {
    assert Below(src, q1) == Rebase(src, dst, q1)[|dst|..];
  }

  lemma RebaseUnder(src: string, dst: string, q: string)
    requires Under(src, q)
    ensures Under(dst, Rebase(src, dst, q))
  {
    var r := Rebase(src, dst, q);
    if q != src {
      assert r[|dst|] == Below(src, q)[0];
    } else {
      assert r == dst + [];
    }
  }

  /**
   * `shutil.move(src, dst)` as a rename: the tree at `src` now sits at `dst`,
   * replacing whatever was there.
   */
  function MoveTree(nodes: Tree, src: string, dst: string): (m: Tree)
  {
    var kept := map q | q in nodes && !Under(src, q) && !Under(dst, q) :: nodes[q];
    assert forall q1, q2 ::
      (q1 in nodes && Under(src, q1) && q2 in nodes && Under(src, q2) && Rebase(src, dst, q1) == Rebase(src, dst, q2))
      ==> nodes[q1] == nodes[q2] by {
      forall q1, q2 | q1 in nodes && Under(src, q1) && q2 in nodes && Under(src, q2)
        && Rebase(src, dst, q1) == Rebase(src, dst, q2)
        ensures nodes[q1] == nodes[q2]
      {
        RebaseInjective(src, dst, q1, q2);
      }
    }
    var moved := map q | q in nodes && Under(src, q) :: Rebase(src, dst, q) := nodes[q];
    kept + moved
  }

  /**
   * A move puts the source's node at the destination, takes the source away
   * (unless the destination holds it), and leaves every path outside both trees alone.
   */
  lemma MoveTreeEffect(nodes: Tree, src: string, dst: string)
    requires src in nodes
    ensures var m := MoveTree(nodes, src, dst);
      && dst in m && m[dst] == nodes[src]
      && (!Under(dst, src) ==> src !in m)
      && (forall q :: !Under(src, q) && !Under(dst, q) ==> (q in m <==> q in nodes) && (q in m ==> m[q] == nodes[q]))
  {
    var m := MoveTree(nodes, src, dst);
    assert Rebase(src, dst, src) == dst;
    forall q | !Under(src, q) && !Under(dst, q)
      ensures (q in m <==> q in nodes) && (q in m ==> m[q] == nodes[q])
    {
      forall x | x in nodes && Under(src, x)
        ensures Rebase(src, dst, x) != q
      {
        RebaseUnder(src, dst, x);
      }
    }
    if !Under(dst, src) {
      forall x | x in nodes && Under(src, x)
        ensures Rebase(src, dst, x) != src
      {
        RebaseUnder(src, dst, x);
      }
    }
  }

  // ---------------------------------------------------------------------
  // The ledger
  // ---------------------------------------------------------------------

  /** One path's entry: `None` for success, or the failure's message. */
  function Record(res: FileOperationResult, p: string, outcome: Option<string>): FileOperationResult {
    match outcome
    case None => res.(success := res.success + [p])
    case Some(e) => res.(failed := res.failed + [Failure(p, e)])
  }

  /** The result for `paths` whose outcomes were `outcomes`, path by path in order. */
  function Ledger(paths: seq<string>, outcomes: seq<Option<string>>): (r: FileOperationResult)
    requires |outcomes| == |paths|
    ensures |r.success| + |r.failed| == |paths|
  {
    if paths == [] then EmptyOperationResult
    else Record(Ledger(paths[..|paths| - 1], outcomes[..|paths| - 1]), paths[|paths| - 1], outcomes[|paths| - 1])
  }

  /** The paths of a failure list. */
  function FailedPaths(failed: seq<Failure>): (r: seq<string>)
    ensures |r| == |failed| && forall k :: 0 <= k < |failed| ==> r[k] == failed[k].path
  {
    if failed == [] then [] else FailedPaths(failed[..|failed| - 1]) + [failed[|failed| - 1].path]
  }

  /** The two lists together are the input paths, counted with multiplicity. */
  lemma {:induction false} LedgerPartition(paths: seq<string>, outcomes: seq<Option<string>>)
    requires |outcomes| == |paths|
    ensures var r := Ledger(paths, outcomes);
      multiset(r.success) + multiset(FailedPaths(r.failed)) == multiset(paths)
  {
    if paths != [] {
      var n := |paths| - 1;
      LedgerPartition(paths[..n], outcomes[..n]);
      var prev := Ledger(paths[..n], outcomes[..n]);
      assert Ledger(paths, outcomes) == Record(prev, paths[n], outcomes[n]);
      RecordPartition(prev, paths[n], outcomes[n]);
      SnocMultiset(paths);
    }
  }

  /** A non-empty sequence, counted, is its prefix and its last element. */
  lemma SnocMultiset(s: seq<string>)
    requires s != []
    ensures multiset(s) == multiset(s[..|s| - 1]) + multiset{s[|s| - 1]}
  {
    assert s == s[..|s| - 1] + [s[|s| - 1]];
  }

  /** Recording one path adds it, once, to one of the two lists. */
  lemma RecordPartition(res: FileOperationResult, p: string, outcome: Option<string>)
    ensures var r := Record(res, p, outcome);
      multiset(r.success) + multiset(FailedPaths(r.failed))
        == multiset(res.success) + multiset(FailedPaths(res.failed)) + multiset{p}
  {
    if outcome.Some? {
      var f := res.failed + [Failure(p, outcome.value)];
      assert FailedPaths(f) == FailedPaths(res.failed) + [p];
    }
  }

  /** Each path lands in the list its outcome names, with its message when it failed. */
  lemma {:induction false} LedgerEntries(paths: seq<string>, outcomes: seq<Option<string>>)
    requires |outcomes| == |paths|
    ensures var r := Ledger(paths, outcomes);
      forall i :: 0 <= i < |paths| ==>
        (outcomes[i].None? ==> paths[i] in r.success) && (outcomes[i].Some? ==> Failure(paths[i], outcomes[i].value) in r.failed)
  {
    if paths != [] {
      var n := |paths| - 1;
      LedgerEntries(paths[..n], outcomes[..n]);
      forall i | 0 <= i < n
        ensures paths[..n][i] == paths[i] && outcomes[..n][i] == outcomes[i]
      {
      }
    }
  }

  /** The ledger keeps input order: the ledger of a concatenation is the two ledgers' lists concatenated. */
  lemma {:induction false} LedgerAppend(a: seq<string>, oa: seq<Option<string>>, b: seq<string>, ob: seq<Option<string>>)
    requires |oa| == |a| && |ob| == |b|
    ensures var l := Ledger(a + b, oa + ob);
      l.success == Ledger(a, oa).success + Ledger(b, ob).success
      && l.failed == Ledger(a, oa).failed + Ledger(b, ob).failed
    decreases |b|
  {
    if b == [] {
      assert a + b == a && oa + ob == oa;
    } else {
      var n := |b| - 1;
      assert (a + b)[..|a + b| - 1] == a + b[..n];
      assert (oa + ob)[..|a + b| - 1] == oa + ob[..n];
      LedgerAppend(a, oa, b[..n], ob[..n]);
    }
  }

  // ---------------------------------------------------------------------
  // delete_files
  // ---------------------------------------------------------------------

  const NotFound := "Not found"

  /** A state and the outcomes of the paths processed so far. */
  datatype Run = Run(nodes: Tree, outcomes: seq<Option<string>>)

  /** One iteration of `delete_files`. */
  function DeleteOne(nodes: Tree, p: string, resolve: string -> string, root: string): (Tree, Option<string>) {
    match ValidatePath(p, resolve, root)
    case Err(e) => (nodes, Some(e))
    case Ok(r) =>
      if r in nodes && nodes[r].File? then (nodes - {r}, None)
      else if r in nodes && nodes[r].Dir? then (RemoveTree(nodes, r), None)
      else (nodes, Some(NotFound))
  }

  /** The specification of `delete_files`: each path in turn on the state the previous ones left. */
  function DeleteRun(nodes: Tree, paths: seq<string>, resolve: string -> string, root: string): (r: Run)
    ensures |r.outcomes| == |paths|
  {
    if paths == [] then Run(nodes, [])
    else
      var prev := DeleteRun(nodes, paths[..|paths| - 1], resolve, root);
      var (after, outcome) := DeleteOne(prev.nodes, paths[|paths| - 1], resolve, root);
      Run(after, prev.outcomes + [outcome])
  }

  /** `a` holds a subset of `b`'s paths, with the same nodes. */
  ghost predicate SubTree(a: Tree, b: Tree) {
    forall q :: q in a ==> q in b && a[q] == b[q]
  }

  /**
   * What one path does: a refused path or a missing one changes nothing and
   * fails with its message; an existing file or directory is removed, with
   * everything beneath it when it is a directory, and nothing outside it changes.
   */
  lemma DeleteOneEffect(nodes: Tree, p: string, resolve: string -> string, root: string)
    ensures var (after, outcome) := DeleteOne(nodes, p, resolve, root);
      var r := resolve(p);
      && SubTree(after, nodes)
      && (!StartsWith(r, root) ==> after == nodes && outcome == Some(OutsideMessage(p)))
      && (StartsWith(r, root) && r !in nodes ==> after == nodes && outcome == Some(NotFound))
      && (StartsWith(r, root) && r in nodes ==>
            outcome.None? && r !in after
            && (forall q :: q in nodes && !Under(r, q) ==> q in after)
            && (nodes[r].Dir? ==> forall q :: q in after ==> !Under(r, q)))
  {
  }

  /**
   * Over the whole run the filesystem only loses paths, every path reported as
   * deleted is gone at the end, and every failure is a refusal or "Not found".
   */
  lemma {:induction false} DeleteRunEffect(nodes: Tree, paths: seq<string>, resolve: string -> string, root: string)
    ensures var run := DeleteRun(nodes, paths, resolve, root);
      && SubTree(run.nodes, nodes)
      && (forall i :: 0 <= i < |paths| && run.outcomes[i].None? ==> resolve(paths[i]) !in run.nodes)
      && (forall i :: 0 <= i < |paths| && run.outcomes[i].Some? ==>
            run.outcomes[i].value == NotFound || run.outcomes[i].value == OutsideMessage(paths[i]))
  {
    if paths != [] {
      var n := |paths| - 1;
      var prev := DeleteRun(nodes, paths[..n], resolve, root);
      DeleteRunEffect(nodes, paths[..n], resolve, root);
      DeleteOneEffect(prev.nodes, paths[n], resolve, root);
      var run := DeleteRun(nodes, paths, resolve, root);
      forall i | 0 <= i < n
        ensures paths[..n][i] == paths[i] && run.outcomes[i] == prev.outcomes[i]
      {
      }
    }
  }

  // ---------------------------------------------------------------------
  // trash_files
  // ---------------------------------------------------------------------

  /** `f"{ts}_{name}"`. */
  function TrashId(ts: int, r: string): string {
    IntToString(ts) + "_" + Name(r)
  }

  /** `trash_dir / trash_id`: where an item with this id is kept. */
  function ItemPath(trashDir: string, trashId: string): string {
    Slash(trashDir, trashId)
  }

  /** `trash_dir / f"{trash_id}.meta.json"`: the metadata file of an item with this id. */
  function MetaPath(trashDir: string, trashId: string): string {
    Slash(trashDir, trashId + ".meta.json")
  }

  /** An id `trash_files` makes is a plain name: the joins put it directly in the trash directory. */
  lemma TrashIdPlain(trashDir: string, ts: int, r: string)
    ensures ItemPath(trashDir, TrashId(ts, r)) == JoinPath(trashDir, TrashId(ts, r))
    ensures MetaPath(trashDir, TrashId(ts, r)) == JoinPath(trashDir, TrashId(ts, r) + ".meta.json")
  {
    var id := TrashId(ts, r);
    assert id[0] == IntToString(ts)[0] && (id + ".meta.json")[0] == id[0];
    assert |id + ".meta.json"| > 1;
  }

  /**
   * Ids `trash_files` never makes: an empty or "." id names the trash directory itself,
   * and an absolute id names a path that need not lie in the trash directory at all.
   */
  lemma OddTrashIds(trashDir: string, trashId: string)
    ensures trashId == "" ==> ItemPath(trashDir, trashId) == trashDir && MetaPath(trashDir, trashId) == JoinPath(trashDir, ".meta.json")
    ensures trashId == "." ==> ItemPath(trashDir, trashId) == trashDir && MetaPath(trashDir, trashId) == JoinPath(trashDir, "..meta.json")
    ensures trashId != "" && trashId[0] == '/' ==>
      ItemPath(trashDir, trashId) == trashId && MetaPath(trashDir, trashId) == trashId + ".meta.json"
  {
    if trashId != "" && trashId[0] == '/' {
      assert (trashId + ".meta.json")[0] == '/';
    }
  }

  /** The metadata document `trash_files` writes. */
  function MetaDoc(trashId: string, original: string, trashedAt: string, filename: string, size: int): Value {
    Object([("trash_id", Str(trashId)), ("original_path", Str(original)), ("trashed_at", Str(trashedAt)),
            ("filename", Str(filename)), ("size", Int(size))])
  }

  /** The message of the `FileExistsError` `mkdir` (or `copytree`'s `makedirs`) raises when a file stands at the path. */
  function ExistsMessage(p: string): string {
    "[Errno 17] File exists: '" + p + "'"
  }

  /**
   * `shutil.move` on a directory whose destination lies beneath it: the rename
   * fails and the move refuses to copy a tree into itself.
   */
  predicate IntoItself(nodes: Tree, src: string, dst: string) {
    src in nodes && nodes[src].Dir? && Under(src, dst) && src != dst
  }

  /** The message of the `shutil.Error` raised then. */
  function IntoItselfMessage(src: string, dst: string): string {
    "Cannot move a directory '" + src + "' into itself '" + dst + "'."
  }

  /**
   * `shutil.move` of a directory onto a file: the rename fails, and the copy
   * it falls back on stops at `makedirs`, because the destination exists.
   */
  predicate DirOntoFile(nodes: Tree, src: string, dst: string) {
    src in nodes && nodes[src].Dir? && dst in nodes && nodes[dst].File?
  }

  /** A directory stands at the metadata path and survives the move of `r`, so `write_text` fails. */
  predicate MetaBlocked(nodes: Tree, r: string, meta: string) {
    meta in nodes && nodes[meta].Dir? && !Under(r, meta)
  }

  /** After validation, none of the ways trashing `r` at millisecond `ts` can fail applies. */
  predicate TrashClear(nodes: Tree, r: string, trashDir: string, ts: int) {
    var dest := ItemPath(trashDir, TrashId(ts, r));
    !IntoItself(nodes, r, dest) && !DirOntoFile(nodes, r, dest) && !MetaBlocked(nodes, r, MetaPath(trashDir, TrashId(ts, r)))
  }

  /**
   * One iteration of `trash_files`, at millisecond `ts` and ISO time `iso`:
   * move the item to `trash_dir/{ts}_{name}` and write its metadata beside it.
   */
  function TrashOne(nodes: Tree, p: string, resolve: string -> string, root: string, trashDir: string,
                    ts: int, iso: string, dumps: Value -> string): (Tree, Option<string>)
  {
    match ValidatePath(p, resolve, root)
    case Err(e) => (nodes, Some(e))
    case Ok(r) =>
      if r !in nodes then (nodes, Some(NotFound))
      else
        var id := TrashId(ts, r);
        var dest := ItemPath(trashDir, id);
        if IntoItself(nodes, r, dest) then (nodes, Some(IntoItselfMessage(r, dest)))
        else if DirOntoFile(nodes, r, dest) then (nodes, Some(ExistsMessage(dest)))
        else
          var moved := MoveTree(nodes, r, dest);
          var size := if dest in moved && moved[dest].File? then moved[dest].size else 0;
          var text := dumps(MetaDoc(id, r, iso, Name(r), size));
          var meta := MetaPath(trashDir, id);
          if meta in moved && moved[meta].Dir? then (moved, Some(IsDirectoryMessage(meta)))
          else (moved[meta := File(|text|, text)], None)
  }

  /** The specification of `trash_files`' loop; `clock[i]` is the (milliseconds, ISO text) reading for path `i`. */
  function TrashRun(nodes: Tree, paths: seq<string>, resolve: string -> string, root: string, trashDir: string,
                    clock: seq<(int, string)>, dumps: Value -> string): (r: Run)
    requires |clock| == |paths|
    ensures |r.outcomes| == |paths|
  {
    if paths == [] then Run(nodes, [])
    else
      var n := |paths| - 1;
      var prev := TrashRun(nodes, paths[..n], resolve, root, trashDir, clock[..n], dumps);
      var (after, outcome) := TrashOne(prev.nodes, paths[n], resolve, root, trashDir, clock[n].0, clock[n].1, dumps);
      Run(after, prev.outcomes + [outcome])
  }

  /** The metadata file sits next to the trashed item, under the item's name plus ".meta.json". */
  lemma MetaBesideItem(trashDir: string, ts: int, r: string)
    ensures MetaPath(trashDir, TrashId(ts, r)) == ItemPath(trashDir, TrashId(ts, r)) + ".meta.json"
  {
    TrashIdPlain(trashDir, ts, r);
  }

  /**
   * A trashed item: the source is gone, the item sits at `trash_dir/{ts}_{name}`,
   * its metadata holds the id, the original path, the time, the name and a size
   * that is 0 for a directory, and no path outside the two trees changes.
   */
  lemma TrashOneEffect(nodes: Tree, p: string, resolve: string -> string, root: string, trashDir: string,
                       ts: int, iso: string, dumps: Value -> string)
    requires StartsWith(resolve(p), root) && resolve(p) in nodes
    requires TrashClear(nodes, resolve(p), trashDir, ts)
    ensures var r := resolve(p);
      var (after, outcome) := TrashOne(nodes, p, resolve, root, trashDir, ts, iso, dumps);
      var id := TrashId(ts, r);
      var dest := ItemPath(trashDir, id);
      var meta := MetaPath(trashDir, id);
      var text := dumps(MetaDoc(id, r, iso, Name(r), if nodes[r].File? then nodes[r].size else 0));
      && outcome.None?
      && dest in after && after[dest] == nodes[r]
      && meta in after && after[meta] == File(|text|, text)
      && (!Under(dest, r) && r != meta ==> r !in after)
      && (forall q :: !Under(r, q) && !Under(dest, q) && q != meta ==> (q in after <==> q in nodes) && (q in after ==> after[q] == nodes[q]))
  {
    var r := resolve(p);
    var id := TrashId(ts, r);
    var dest := ItemPath(trashDir, id);
    MoveTreeEffect(nodes, r, dest);
    MetaBesideItem(trashDir, ts, r);
    assert MetaPath(trashDir, id) != dest;
    MetaSurvivesMove(nodes, r, trashDir, ts);
  }

  /** The metadata file of an id `trash_files` makes does not lie beneath the item. */
  lemma MetaOutsideItem(trashDir: string, ts: int, r: string)
    ensures !Under(ItemPath(trashDir, TrashId(ts, r)), MetaPath(trashDir, TrashId(ts, r)))
  {
    var id := TrashId(ts, r);
    var dest := ItemPath(trashDir, id);
    var meta := MetaPath(trashDir, id);
    MetaBesideItem(trashDir, ts, r);
    TrashIdPlain(trashDir, ts, r);
    assert |dest| >= 2 && meta[|dest|] == '.';
  }

  /** A path beneath the source and outside the destination is gone after a move. */
  lemma MoveTreeLeaves(nodes: Tree, src: string, dst: string, q: string)
    requires Under(src, q) && !Under(dst, q)
    ensures q !in MoveTree(nodes, src, dst)
  {
    forall x | x in nodes && Under(src, x)
      ensures Rebase(src, dst, x) != q
    {
      RebaseUnder(src, dst, x);
    }
  }

  /**
   * The metadata path never lies beneath the trashed item's destination, so after the move
   * a directory stands there exactly when one stood there before, outside the moved tree.
   */
  lemma MetaSurvivesMove(nodes: Tree, r: string, trashDir: string, ts: int)
    requires r in nodes
    ensures var id := TrashId(ts, r);
      var moved := MoveTree(nodes, r, ItemPath(trashDir, id));
      var meta := MetaPath(trashDir, id);
      (meta in moved && moved[meta].Dir?) <==> MetaBlocked(nodes, r, meta)
  {
    var id := TrashId(ts, r);
    var dest := ItemPath(trashDir, id);
    var meta := MetaPath(trashDir, id);
    MetaOutsideItem(trashDir, ts, r);
    MoveTreeEffect(nodes, r, dest);
    if Under(r, meta) {
      MoveTreeLeaves(nodes, r, dest, meta);
    }
  }

  /**
   * A path fails exactly when it is refused, missing, a directory moved into its own
   * trash destination or onto a file already there, or when a directory stands at its
   * metadata path; all but the last leave the filesystem as it was.
   */
  lemma TrashOneFailure(nodes: Tree, p: string, resolve: string -> string, root: string, trashDir: string,
                        ts: int, iso: string, dumps: Value -> string)
    ensures var (after, outcome) := TrashOne(nodes, p, resolve, root, trashDir, ts, iso, dumps);
      var r := resolve(p);
      var dest := ItemPath(trashDir, TrashId(ts, r));
      var meta := MetaPath(trashDir, TrashId(ts, r));
      var moves := StartsWith(r, root) && r in nodes && !IntoItself(nodes, r, dest) && !DirOntoFile(nodes, r, dest);
      && (outcome.Some? <==> !moves || MetaBlocked(nodes, r, meta))
      && (!moves ==> after == nodes)
      && (!StartsWith(r, root) ==> outcome == Some(OutsideMessage(p)))
      && (StartsWith(r, root) && r !in nodes ==> outcome == Some(NotFound))
      && (StartsWith(r, root) && IntoItself(nodes, r, dest) ==> outcome == Some(IntoItselfMessage(r, dest)))
      && (StartsWith(r, root) && !IntoItself(nodes, r, dest) && DirOntoFile(nodes, r, dest) ==> outcome == Some(ExistsMessage(dest)))
      && (moves && MetaBlocked(nodes, r, meta) ==> after == MoveTree(nodes, r, dest) && outcome == Some(IsDirectoryMessage(meta)))
  {
    var r := resolve(p);
    if StartsWith(r, root) && r in nodes {
      MetaSurvivesMove(nodes, r, trashDir, ts);
    }
  }

  /** Trashing a directory that holds the trash directory fails: its destination lies beneath it. */
  lemma TrashAncestorFails(nodes: Tree, p: string, resolve: string -> string, root: string, trashDir: string,
                           ts: int, iso: string, dumps: Value -> string)
    requires StartsWith(resolve(p), root) && resolve(p) in nodes && nodes[resolve(p)].Dir?
    requires Under(resolve(p), trashDir) && trashDir != "."
    ensures var r := resolve(p);
      var dest := ItemPath(trashDir, TrashId(ts, r));
      TrashOne(nodes, p, resolve, root, trashDir, ts, iso, dumps) == (nodes, Some(IntoItselfMessage(r, dest)))
  {
    var r := resolve(p);
    var dest := ItemPath(trashDir, TrashId(ts, r));
    TrashIdPlain(trashDir, ts, r);
    JoinUnder(trashDir, TrashId(ts, r));
    UnderTransitive(r, trashDir, dest);
  }


  /**
   * The id determines the millisecond and the name; two items with the same
   * name trashed in the same millisecond therefore share an id (and a destination).
   */
  lemma TrashIdInjective(t1: int, a: string, t2: int, b: string)
    ensures TrashId(t1, a) == TrashId(t2, b) <==> t1 == t2 && Name(a) == Name(b)
  {
    if TrashId(t1, a) == TrashId(t2, b) {
      var s1, s2 := IntToString(t1), IntToString(t2);
      NoUnderscore(t1);
      NoUnderscore(t2);
      SplitAtFirst(s1, Name(a), s2, Name(b));
      IntToStringParses(t1);
      IntToStringParses(t2);
    }
  }

  lemma NoUnderscore(t: int)
    ensures '_' !in IntToString(t)
  {
    var s := IntToString(t);
    if t < 0 {
      assert AllDigits(s[1..]);
    }
    assert forall i :: 0 <= i < |s| ==> s[i] != '_' by {
      forall i | 0 <= i < |s| ensures s[i] != '_' {
        if t < 0 && i > 0 {
          assert s[i] == s[1..][i - 1];
        }
      }
    }
  }

  /** Strings joined at their first `_` split back uniquely. */
  lemma SplitAtFirst(a: string, x: string, b: string, y: string)
    requires '_' !in a && '_' !in b && a + "_" + x == b + "_" + y
    ensures a == b && x == y
  {
    var s := a + "_" + x;
    FirstUnderscore(a, x);
    FirstUnderscore(b, y);
    assert |a| == |b|;
    assert a == s[..|a|] && x == s[|a| + 1..];
  }

  /** In `a + "_" + x` with no `_` in `a`, the first `_` is at `|a|`. */
  lemma FirstUnderscore(a: string, x: string)
    requires '_' !in a
    ensures var s := a + "_" + x; |a| < |s| && s[|a|] == '_' && forall j :: 0 <= j < |a| ==> s[j] != '_'
  {
  }

  // ---------------------------------------------------------------------
  // get_trash
  // ---------------------------------------------------------------------

  /** The paths `trash_dir.glob("*.meta.json")` yields: the trash directory's entries named so. */
  function MetaNames(nodes: Tree, trashDir: string): set<string> {
    set k | k in nodes && Parent(k) == trashDir && EndsWith(Name(k), ".meta.json")
  }

  /** `m` comes after every other member of `names` as Python orders strings. */
  predicate IsLargest(m: string, names: set<string>) {
    forall x :: x in names && x != m ==> LexLess(x, m)
  }

  lemma {:induction false} LargestExists(names: set<string>)
    requires names != {}
    ensures exists m :: m in names && IsLargest(m, names)
    decreases |names|
  {
    var y :| y in names;
    if names != {y} {
      LargestExists(names - {y});
      var m :| m in names - {y} && IsLargest(m, names - {y});
      if LexLess(y, m) {
        assert IsLargest(m, names);
      } else {
        LexLessTotal(y, m);
        forall x | x in names && x != y
          ensures LexLess(x, y)
        {
          if x != m {
            LexLessTransitive(x, m, y);
          }
        }
      }
    }
  }

  lemma LargestUnique(a: string, b: string, names: set<string>)
    requires a in names && b in names && IsLargest(a, names) && IsLargest(b, names)
    ensures a == b
  {
    if a != b {
      LexLessTransitive(a, b, a);
      LexLessIrreflexive(a);
    }
  }

  /** `sorted(names, reverse=True)`: the names from largest to smallest. */
  ghost function SortedDown(names: set<string>): seq<string>
    decreases |names|
  {
    if names == {} then []
    else
      LargestExists(names);
      var m :| m in names && IsLargest(m, names);
      [m] + SortedDown(names - {m})
  }

  /** The sorted list holds exactly the names, each once, in strictly decreasing order. */
  lemma {:induction false} SortedDownSpec(names: set<string>)
    ensures var r := SortedDown(names);
      && |r| == |names|
      && (forall x :: x in r <==> x in names)
      && (forall i, j :: 0 <= i < j < |r| ==> LexLess(r[j], r[i]))
    decreases |names|
  {
    if names != {} {
      var r := SortedDown(names);
      var m := r[0];
      assert m in names && IsLargest(m, names) && r == [m] + SortedDown(names - {m});
      SortedDownSpec(names - {m});
      forall i, j | 0 <= i < j < |r|
        ensures LexLess(r[j], r[i])
      {
        assert r[j] == SortedDown(names - {m})[j - 1];
        if i == 0 {
          assert r[j] in SortedDown(names - {m});
          assert r[j] in names && r[j] != m;
        } else {
          assert r[i] == SortedDown(names - {m})[i - 1];
        }
      }
    }
  }

  /** Whichever largest name is taken first, the rest of the order is the same. */
  lemma SortedDownFirst(names: set<string>, m: string)
    requires m in names && IsLargest(m, names)
    ensures SortedDown(names) == [m] + SortedDown(names - {m})
  {
    var r := SortedDown(names);
    assert r[0] in names && IsLargest(r[0], names) && r == [r[0]] + SortedDown(names - {r[0]});
    LargestUnique(m, r[0], names);
  }

  /** `sorted(names, reverse=True)`, taking the largest remaining name each time. */
  method SortDown(names: set<string>) returns (r: seq<string>)
    ensures r == SortedDown(names)
  {
    var remaining := names;
    r := [];
    while remaining != {}
      invariant r + SortedDown(remaining) == SortedDown(names)
      decreases |remaining|
    {
      LargestExists(remaining);
      var m :| m in remaining && IsLargest(m, remaining);
      SortedDownFirst(remaining, m);
      assert (r + [m]) + SortedDown(remaining - {m}) == r + SortedDown(remaining);
      r := r + [m];
      remaining := remaining - {m};
    }
  }

  /** The loop of `get_trash` over the sorted metadata files: each read back, or skipped. */
  method ReadEntries(nodes: Tree, trashDir: string, names: seq<string>,
                     loads: string -> Result<Value>, parseIso: map<string, Instant>) returns (items: seq<TrashItem>)
    ensures items == Parsed(nodes, trashDir, names, loads, parseIso)
  {
    items := [];
    for i := 0 to |names|
      invariant items == Parsed(nodes, trashDir, names[..i], loads, parseIso)
    {
      var entry := TrashEntry(nodes, trashDir, names[i], loads, parseIso);
      ParsedSnoc(nodes, trashDir, names, i, loads, parseIso);
      if entry.Some? {
        items := items + [entry.value];
      }
    }
    assert names[..|names|] == names;
  }

  /** A string-valued key with a default: the default when absent, `None` (skipped) when not a string. */
  function StrOr(fields: seq<(string, Value)>, key: string, default: string): Option<string> {
    match Get(fields, key)
    case None => Some(default)
    case Some(Str(v)) => Some(v)
    case Some(_) => None
  }

  /** `json.loads(meta_file.read_text())` when that yields a dict; `None` when it raises or yields anything else. */
  function MetaObject(nodes: Tree, meta: string, loads: string -> Result<Value>): Option<seq<(string, Value)>> {
    if meta !in nodes || nodes[meta].Dir? then None
    else match loads(nodes[meta].text)
      case Ok(Object(fs)) => Some(fs)
      case _ => None
  }

  /** The `trashed_at` timestamp, when it is a string `datetime.fromisoformat` accepts. */
  function StampOf(fields: seq<(string, Value)>, parseIso: map<string, Instant>): Option<Instant> {
    match Get(fields, "trashed_at")
    case Some(Str(t)) => if t in parseIso then Some(parseIso[t]) else None
    case _ => None
  }

  /** The `size`, defaulting to the trashed item's own size (0 when it is gone). */
  function SizeOr(fields: seq<(string, Value)>, default: int): Option<int> {
    match Get(fields, "size")
    case None => Some(default)
    case Some(Int(n)) => Some(n)
    case Some(_) => None
  }

  /** The record, when every field was read. */
  function Assemble(id: string, original: Option<string>, stamp: Option<Instant>, filename: Option<string>, size: Option<int>): Option<TrashItem> {
    if original.Some? && stamp.Some? && filename.Some? && size.Some? then
      Some(TrashItem(id, original.value, stamp.value, filename.value, size.value))
    else None
  }

  /** The record built from a decoded metadata dict, or `None` when a lookup or the record's validation raises. */
  function ItemOf(nodes: Tree, trashDir: string, fields: seq<(string, Value)>, parseIso: map<string, Instant>): Option<TrashItem> {
    match Get(fields, "trash_id")
    case Some(Str(id)) =>
      var trashFile := ItemPath(trashDir, id);
      Assemble(id, StrOr(fields, "original_path", "unknown"), StampOf(fields, parseIso), StrOr(fields, "filename", id),
               SizeOr(fields, if trashFile in nodes then nodes[trashFile].size else 0))
    case _ => None
  }

  /**
   * One metadata file as `get_trash` reads it, or `None` when reading, decoding,
   * a missing key, a bad timestamp or the record's validation raises (the entry is skipped).
   */
  function TrashEntry(nodes: Tree, trashDir: string, meta: string,
                      loads: string -> Result<Value>, parseIso: map<string, Instant>): Option<TrashItem>
  {
    match MetaObject(nodes, meta, loads)
    case Some(fs) => ItemOf(nodes, trashDir, fs, parseIso)
    case None => None
  }

  /** Each name's entry, in order. */
  function Entries(nodes: Tree, trashDir: string, names: seq<string>,
                   loads: string -> Result<Value>, parseIso: map<string, Instant>): (r: seq<Option<TrashItem>>)
  {
    seq(|names|, k requires 0 <= k < |names| => TrashEntry(nodes, trashDir, names[k], loads, parseIso))
  }

  /** The items for `names`, in order, skipping the ones that do not read back. */
  function Parsed(nodes: Tree, trashDir: string, names: seq<string>,
                  loads: string -> Result<Value>, parseIso: map<string, Instant>): (r: seq<TrashItem>)
    ensures |r| <= |names|
  {
    Somes(Entries(nodes, trashDir, names, loads, parseIso))
  }


  lemma ParsedSnoc(nodes: Tree, trashDir: string, names: seq<string>, i: nat,
                   loads: string -> Result<Value>, parseIso: map<string, Instant>)
    requires i < |names|
    ensures var e := TrashEntry(nodes, trashDir, names[i], loads, parseIso);
      Parsed(nodes, trashDir, names[..i + 1], loads, parseIso)
        == Parsed(nodes, trashDir, names[..i], loads, parseIso) + (if e.Some? then [e.value] else [])
  {
    var e := Entries(nodes, trashDir, names[..i + 1], loads, parseIso);
    assert e[..i] == Entries(nodes, trashDir, names[..i], loads, parseIso);
  }


  /** The specification of `get_trash`. */
  ghost function Listing(nodes: Tree, trashDir: string,
                         loads: string -> Result<Value>, parseIso: map<string, Instant>): seq<TrashItem>
  {
    if trashDir !in nodes then []
    else Parsed(nodes, trashDir, SortedDown(MetaNames(nodes, trashDir)), loads, parseIso)
  }

  /** Every listed item comes from one of the names, and every name that reads back is listed. */
  lemma ParsedMembers(nodes: Tree, trashDir: string, names: seq<string>,
                      loads: string -> Result<Value>, parseIso: map<string, Instant>, item: TrashItem)
    ensures item in Parsed(nodes, trashDir, names, loads, parseIso)
      <==> exists k :: 0 <= k < |names| && TrashEntry(nodes, trashDir, names[k], loads, parseIso) == Some(item)
  {
    var e := Entries(nodes, trashDir, names, loads, parseIso);
    SomesMembers(e, item);
    if Some(item) in e {
      var k :| 0 <= k < |e| && e[k] == Some(item);
      assert TrashEntry(nodes, trashDir, names[k], loads, parseIso) == Some(item);
    }
    if exists k :: 0 <= k < |names| && TrashEntry(nodes, trashDir, names[k], loads, parseIso) == Some(item) {
      var k :| 0 <= k < |names| && TrashEntry(nodes, trashDir, names[k], loads, parseIso) == Some(item);
      assert e[k] == Some(item);
    }
  }


  /**
   * Trash followed by listing: when the metadata decodes to what was written and
   * the timestamp parses, the listing holds the item with its id, original path,
   * time, name and size.
   */
  lemma TrashThenListed(nodes: Tree, p: string, resolve: string -> string, root: string, trashDir: string,
                        ts: int, iso: string, dumps: Value -> string,
                        loads: string -> Result<Value>, parseIso: map<string, Instant>, when: Instant)
    requires StartsWith(resolve(p), root) && resolve(p) in nodes && trashDir != ""
    requires var r := resolve(p); var id := TrashId(ts, r);
      var doc := MetaDoc(id, r, iso, Name(r), if nodes[r].File? then nodes[r].size else 0);
      loads(dumps(doc)) == Ok(doc)
    requires iso in parseIso && parseIso[iso] == when
    requires TrashClear(nodes, resolve(p), trashDir, ts)
    requires var after := TrashOne(nodes, p, resolve, root, trashDir, ts, iso, dumps).0; trashDir in after
    ensures var r := resolve(p);
      var after := TrashOne(nodes, p, resolve, root, trashDir, ts, iso, dumps).0;
      TrashItem(TrashId(ts, r), r, when, Name(r), if nodes[r].File? then nodes[r].size else 0) in Listing(after, trashDir, loads, parseIso)
  {
    var r := resolve(p);
    var id := TrashId(ts, r);
    var after := TrashOne(nodes, p, resolve, root, trashDir, ts, iso, dumps).0;
    var meta := MetaPath(trashDir, id);
    var size := if nodes[r].File? then nodes[r].size else 0;
    var item := TrashItem(id, r, when, Name(r), size);
    TrashOneEffect(nodes, p, resolve, root, trashDir, ts, iso, dumps);
    MetaIsGlobbed(after, trashDir, ts, r);
    MetaDocReads(after, trashDir, meta, dumps(MetaDoc(id, r, iso, Name(r), size)), id, r, iso, Name(r), size, loads, parseIso, when);
    ReadableIsListed(after, trashDir, meta, loads, parseIso, item);
  }

  /** The metadata file of an item is among the files `get_trash` globs. */
  lemma MetaIsGlobbed(nodes: Tree, trashDir: string, ts: int, r: string)
    requires trashDir != "" && MetaPath(trashDir, TrashId(ts, r)) in nodes
    ensures MetaPath(trashDir, TrashId(ts, r)) in MetaNames(nodes, trashDir)
  {
    var name := TrashId(ts, r) + ".meta.json";
    NameWithoutSlash(ts, r);
    ParentOfJoin(trashDir, name);
    assert name[|name| - |".meta.json"|..] == ".meta.json";
  }

  /** A metadata file holding what `trash_files` writes reads back as the item it describes. */
  lemma MetaDocReads(nodes: Tree, trashDir: string, meta: string, text: string,
                     id: string, original: string, iso: string, filename: string, size: int,
                     loads: string -> Result<Value>, parseIso: map<string, Instant>, when: Instant)
    requires meta in nodes && nodes[meta] == File(|text|, text)
    requires loads(text) == Ok(MetaDoc(id, original, iso, filename, size)) && iso in parseIso && parseIso[iso] == when
    ensures TrashEntry(nodes, trashDir, meta, loads, parseIso) == Some(TrashItem(id, original, when, filename, size))
  {
    var fs := MetaDoc(id, original, iso, filename, size).fields;
    assert MetaObject(nodes, meta, loads) == Some(fs);
    ItemOfMetaDoc(nodes, trashDir, id, original, iso, filename, size, parseIso, when);
  }

  lemma ItemOfMetaDoc(nodes: Tree, trashDir: string, id: string, original: string, iso: string, filename: string, size: int,
                      parseIso: map<string, Instant>, when: Instant)
    requires iso in parseIso && parseIso[iso] == when
    ensures ItemOf(nodes, trashDir, MetaDoc(id, original, iso, filename, size).fields, parseIso)
      == Some(TrashItem(id, original, when, filename, size))
  {
    MetaDocFields(id, original, iso, filename, size);
    ItemOfFields(nodes, trashDir, MetaDoc(id, original, iso, filename, size).fields, id, original, iso, filename, size, parseIso, when);
  }

  lemma ItemOfFields(nodes: Tree, trashDir: string, fs: seq<(string, Value)>,
                     id: string, original: string, iso: string, filename: string, size: int,
                     parseIso: map<string, Instant>, when: Instant)
    requires Get(fs, "trash_id") == Some(Str(id)) && Get(fs, "original_path") == Some(Str(original))
    requires Get(fs, "trashed_at") == Some(Str(iso)) && Get(fs, "filename") == Some(Str(filename))
    requires Get(fs, "size") == Some(Int(size)) && iso in parseIso && parseIso[iso] == when
    ensures ItemOf(nodes, trashDir, fs, parseIso) == Some(TrashItem(id, original, when, filename, size))
  {
  }

  /** The five keys of the metadata document, looked up. */
  lemma MetaDocFields(id: string, original: string, iso: string, filename: string, size: int)
    ensures var fs := MetaDoc(id, original, iso, filename, size).fields;
      && Get(fs, "trash_id") == Some(Str(id)) && Get(fs, "original_path") == Some(Str(original))
      && Get(fs, "trashed_at") == Some(Str(iso)) && Get(fs, "filename") == Some(Str(filename))
      && Get(fs, "size") == Some(Int(size))
  {
    var f4 := [("size", Int(size))];
    var f3 := [("filename", Str(filename))] + f4;
    var f2 := [("trashed_at", Str(iso))] + f3;
    var f1 := [("original_path", Str(original))] + f2;
    var fs := [("trash_id", Str(id))] + f1;
    assert MetaDoc(id, original, iso, filename, size).fields == fs;
    GetPast(("trash_id", Str(id)), f1, "original_path");
    GetPast(("trash_id", Str(id)), f1, "trashed_at");
    GetPast(("original_path", Str(original)), f2, "trashed_at");
    GetPast(("trash_id", Str(id)), f1, "filename");
    GetPast(("original_path", Str(original)), f2, "filename");
    GetPast(("trashed_at", Str(iso)), f3, "filename");
    GetPast(("trash_id", Str(id)), f1, "size");
    GetPast(("original_path", Str(original)), f2, "size");
    GetPast(("trashed_at", Str(iso)), f3, "size");
    GetPast(("filename", Str(filename)), f4, "size");
  }

  /** A lookup passes over a first field with another key. */
  lemma GetPast(first: (string, Value), rest: seq<(string, Value)>, key: string)
    requires first.0 != key
    ensures Get([first] + rest, key) == Get(rest, key)
  {
    assert ([first] + rest)[1..] == rest;
  }

  /** A globbed metadata file that reads back is listed. */
  lemma ReadableIsListed(nodes: Tree, trashDir: string, meta: string,
                         loads: string -> Result<Value>, parseIso: map<string, Instant>, item: TrashItem)
    requires trashDir in nodes && meta in MetaNames(nodes, trashDir)
    requires TrashEntry(nodes, trashDir, meta, loads, parseIso) == Some(item)
    ensures item in Listing(nodes, trashDir, loads, parseIso)
  {
    var names := MetaNames(nodes, trashDir);
    SortedDownSpec(names);
    var sorted := SortedDown(names);
    assert meta in sorted;
    var k :| 0 <= k < |sorted| && sorted[k] == meta;
    ParsedHas(nodes, trashDir, sorted, k, loads, parseIso, item);
  }

  lemma ParsedHas(nodes: Tree, trashDir: string, names: seq<string>, k: nat,
                  loads: string -> Result<Value>, parseIso: map<string, Instant>, item: TrashItem)
    requires k < |names| && TrashEntry(nodes, trashDir, names[k], loads, parseIso) == Some(item)
    ensures item in Parsed(nodes, trashDir, names, loads, parseIso)
  {
    ParsedMembers(nodes, trashDir, names, loads, parseIso, item);
  }

  /** A trash id holds no `/`: it is a number, `_` and a name. */
  lemma NameWithoutSlash(t: int, r: string)
    ensures '/' !in TrashId(t, r) + ".meta.json"
  {
    var s := IntToString(t);
    assert '/' !in s by {
      forall i | 0 <= i < |s| ensures s[i] != '/' {
        if t < 0 && i > 0 {
          assert s[i] == s[1..][i - 1];
        }
      }
    }
  }

  /** The parent of `dir / name` is `dir`, and its name is `name`. */
  lemma ParentOfJoin(dir: string, name: string)
    requires dir != "" && '/' !in name
    ensures Parent(JoinPath(dir, name)) == dir && Name(JoinPath(dir, name)) == name
  {
    var j := JoinPath(dir, name);
    if dir == "." {
      assert LastSlash(j).None?;
    } else {
      JoinLastSlash(dir, name);
    }
  }

  /** In `dir / name` the last `/` is the one the join put in. */
  lemma JoinLastSlash(dir: string, name: string)
    requires dir != "" && dir != "." && '/' !in name
    ensures var i := if dir == "/" then 0 else |dir|;
      var j := JoinPath(dir, name);
      i < |j| && j[i + 1..] == name && LastSlash(j) == Some(i)
  {
    var j := JoinPath(dir, name);
    var i := if dir == "/" then 0 else |dir|;
    assert j[i] == '/' && j[i + 1..] == name;
  }

  // ---------------------------------------------------------------------
  // restore_from_trash
  // ---------------------------------------------------------------------

  const TrashedMissing := "Trashed file not found"
  const MetaMissing := "Trash metadata not found"

  /** The message of the `FileNotFoundError` that unlinking a missing path raises. */
  function NoSuchFileMessage(p: string): string {
    "[Errno 2] No such file or directory: '" + p + "'"
  }

  /** The message of the `IsADirectoryError` that reading, writing or unlinking a directory raises. */
  function IsDirectoryMessage(p: string): string {
    "[Errno 21] Is a directory: '" + p + "'"
  }

  /** The message of the `TypeError` that `v["original_path"]` raises on a non-dict. */
  function SubscriptMessage(v: Value): string {
    match v
    case Null => "'NoneType' object is not subscriptable"
    case Int(_) => "'int' object is not subscriptable"
    case Str(_) => "string indices must be integers, not 'str'"
    case List(_) => "list indices must be integers or slices, not str"
    case Object(_) => ""
  }

  const PathTypePrefix := "argument should be a str or an os.PathLike object where __fspath__ returns a str, not "

  /** The message of the `TypeError` that `Path(v)` raises on a non-string. */
  function PathTypeMessage(v: Value): string {
    var kind := match v
      case Null => "NoneType" case Int(_) => "int" case Str(_) => "str" case List(_) => "list" case Object(_) => "dict";
    PathTypePrefix + "'" + kind + "'"
  }

  /** How far `restore_from_trash` gets before choosing a destination. */
  datatype Plan = Stop(error: string) | Go(original: string, parent: string)

  /** The checks and the metadata read that precede the move, in the order the source makes them. */
  function RestorePlan(nodes: Tree, trashDir: string, trashId: string, loads: string -> Result<Value>): (r: Plan)
    ensures r.Go? ==> r.parent == Parent(r.original) && !(r.parent in nodes && nodes[r.parent].File?)
  {
    var trashFile := ItemPath(trashDir, trashId);
    var metaFile := MetaPath(trashDir, trashId);
    if trashFile !in nodes then Stop(TrashedMissing)
    else if metaFile !in nodes then Stop(MetaMissing)
    else if nodes[metaFile].Dir? then Stop(IsDirectoryMessage(metaFile))
    else match loads(nodes[metaFile].text)
      case Err(e) => Stop(e)
      case Ok(Object(fs)) =>
        (match Get(fs, "original_path")
         case None => Stop("'original_path'")
         case Some(Str(original)) =>
           var parent := Parent(original);
           if parent in nodes && nodes[parent].File? then Stop(ExistsMessage(parent))
           else Go(original, parent)
         case Some(v) => Stop(PathTypeMessage(v)))
      case Ok(v) => Stop(SubscriptMessage(v))
  }

  /** `mkdir(parents=True, exist_ok=True)` on a path where no file stands. */
  function MakeDir(nodes: Tree, dir: string, size: nat): (m: Tree)
    ensures dir in m && m[dir].Dir?
    ensures forall q :: q != dir ==> (q in m <==> q in nodes) && (q in m ==> m[q] == nodes[q])
    ensures dir in nodes && nodes[dir].Dir? ==> m == nodes
  {
    if dir in nodes && nodes[dir].Dir? then nodes else nodes[dir := Dir(size)]
  }

  /** The `counter`-th alternative name: `{stem}_restored_{counter}{suffix}` beside the original. */
  function Candidate(parent: string, stem: string, suffix: string, counter: nat): string {
    JoinPath(parent, stem + "_restored_" + IntToString(counter) + suffix)
  }

  /**
   * The destination the source settles on: the original path when it is free,
   * otherwise the first free alternative name, counting from 1.
   */
  ghost predicate ChosenDest(nodes: Tree, original: string, parent: string, dest: string) {
    (original !in nodes && dest == original)
    || (original in nodes
        && var stem, suffix := Stem(Name(original)), Suffix(Name(original));
           exists k: nat :: 1 <= k && dest == Candidate(parent, stem, suffix, k) && dest !in nodes
             && forall c: nat :: 1 <= c < k ==> Candidate(parent, stem, suffix, c) in nodes)
  }

  lemma CandidateInjective(parent: string, stem: string, suffix: string, a: nat, b: nat)
    requires Candidate(parent, stem, suffix, a) == Candidate(parent, stem, suffix, b)
    ensures a == b
  {
    var x := stem + "_restored_";
    var sa, sb := IntToString(a), IntToString(b);
    var y := suffix;
    var na, nb := x + sa + y, x + sb + y;
    assert na == nb by {
      if parent == "." {
      } else if parent == "/" {
        assert na == ("/" + na)[1..] && nb == ("/" + nb)[1..];
      } else {
        assert na == (parent + "/" + na)[|parent| + 1..];
        assert nb == (parent + "/" + nb)[|parent| + 1..];
      }
    }
    assert |sa| == |sb|;
    assert sa == na[|x|..|x| + |sa|];
    assert sb == nb[|x|..|x| + |sb|];
    IntToStringParses(a);
    IntToStringParses(b);
  }

  /** Only one destination meets the description: it is the first free one. */
  lemma ChosenDestUnique(nodes: Tree, original: string, parent: string, d1: string, d2: string)
    requires ChosenDest(nodes, original, parent, d1) && ChosenDest(nodes, original, parent, d2)
    ensures d1 == d2 && d1 !in nodes
  {
    if original in nodes {
      var stem, suffix := Stem(Name(original)), Suffix(Name(original));
      var k1 := ChosenCounter(nodes, original, parent, d1);
      var k2 := ChosenCounter(nodes, original, parent, d2);
      NotBeyondFree(nodes, parent, stem, suffix, k1, k2);
      NotBeyondFree(nodes, parent, stem, suffix, k2, k1);
      assert k1 == k2;
    } else {
      assert d1 == original == d2;
    }
  }

  /** The counter of a chosen alternative. */
  lemma ChosenCounter(nodes: Tree, original: string, parent: string, d: string) returns (k: nat)
    requires ChosenDest(nodes, original, parent, d) && original in nodes
    ensures var stem, suffix := Stem(Name(original)), Suffix(Name(original));
      1 <= k && d == Candidate(parent, stem, suffix, k) && d !in nodes
      && forall c: nat :: 1 <= c < k ==> Candidate(parent, stem, suffix, c) in nodes
  {
    var stem, suffix := Stem(Name(original)), Suffix(Name(original));
    k :| 1 <= k && d == Candidate(parent, stem, suffix, k) && d !in nodes
      && forall c: nat :: 1 <= c < k ==> Candidate(parent, stem, suffix, c) in nodes;
  }

  /** A counter whose predecessors are all taken cannot lie beyond a free alternative. */
  lemma NotBeyondFree(nodes: Tree, parent: string, stem: string, suffix: string, free: nat, k: nat)
    requires 1 <= free && Candidate(parent, stem, suffix, free) !in nodes
    requires forall c: nat :: 1 <= c < k ==> Candidate(parent, stem, suffix, c) in nodes
    ensures k <= free
  {
  }

  /** The first `k` alternative names. */
  function Candidates(parent: string, stem: string, suffix: string, k: nat): (r: set<string>)
    ensures forall x :: x in r ==> exists c: nat :: 1 <= c <= k && x == Candidate(parent, stem, suffix, c)
  {
    if k == 0 then {} else Candidates(parent, stem, suffix, k - 1) + {Candidate(parent, stem, suffix, k)}
  }

  /** The alternative names are pairwise distinct, so there are `k` of the first `k`. */
  lemma {:induction false} CandidatesCard(parent: string, stem: string, suffix: string, k: nat)
    ensures |Candidates(parent, stem, suffix, k)| == k
  {
    if k > 0 {
      CandidatesCard(parent, stem, suffix, k - 1);
      if Candidate(parent, stem, suffix, k) in Candidates(parent, stem, suffix, k - 1) {
        var c: nat :| 1 <= c <= k - 1 && Candidate(parent, stem, suffix, k) == Candidate(parent, stem, suffix, c);
        CandidateInjective(parent, stem, suffix, c, k);
      }
    }
  }

  /** A filesystem holding the first `k` alternatives holds at least `k` paths: the counter loop ends. */
  lemma CandidatesTaken(nodes: Tree, parent: string, stem: string, suffix: string, k: nat)
    requires forall c: nat :: 1 <= c <= k ==> Candidate(parent, stem, suffix, c) in nodes
    ensures k <= |nodes.Keys|
  {
    CandidatesCard(parent, stem, suffix, k);
    var taken := Candidates(parent, stem, suffix, k);
    forall x | x in taken
      ensures x in nodes.Keys
    {
      var c: nat :| 1 <= c <= k && x == Candidate(parent, stem, suffix, c);
    }
    SubsetCard(taken, nodes.Keys);
  }

  lemma SubsetCard(a: set<string>, b: set<string>)
    requires a <= b
    ensures |a| <= |b|
  {
    assert b == a + (b - a);
    assert a * (b - a) == {};
  }

  /** The counter loop: try the original, then `{stem}_restored_1{suffix}`, `_2`, … until one is free. */
  method FreeDestination(nodes: Tree, original: string, parent: string) returns (dest: string)
    ensures ChosenDest(nodes, original, parent, dest)
  {
    dest := original;
    if dest in nodes {
      var stem := Stem(Name(original));
      var suffix := Suffix(Name(original));
      var counter: nat := 1;
      while dest in nodes
        invariant counter >= 1
        invariant counter == 1 ==> dest == original
        invariant counter > 1 ==> dest == Candidate(parent, stem, suffix, counter - 1)
        invariant forall c: nat :: 1 <= c < counter - 1 ==> Candidate(parent, stem, suffix, c) in nodes
        invariant counter <= |nodes.Keys| + 2
        decreases |nodes.Keys| + 2 - counter
      {
        CounterStep(nodes, parent, stem, suffix, counter, dest);
        dest := Candidate(parent, stem, suffix, counter);
        counter := counter + 1;
      }
      ChosenAt(nodes, original, parent, counter - 1);
    }
  }

  /** A taken `dest` extends the run of taken alternatives, which the filesystem bounds. */
  lemma CounterStep(nodes: Tree, parent: string, stem: string, suffix: string, counter: nat, dest: string)
    requires counter >= 1 && dest in nodes
    requires counter > 1 ==> dest == Candidate(parent, stem, suffix, counter - 1)
    requires forall c: nat :: 1 <= c < counter - 1 ==> Candidate(parent, stem, suffix, c) in nodes
    ensures forall c: nat :: 1 <= c < counter ==> Candidate(parent, stem, suffix, c) in nodes
    ensures counter <= |nodes.Keys| + 1
  {
    if counter > 1 {
      CandidatesTaken(nodes, parent, stem, suffix, counter - 1);
    }
  }

  /** A free `k`-th alternative after `k - 1` taken ones is the chosen destination. */
  lemma ChosenAt(nodes: Tree, original: string, parent: string, k: nat)
    requires original in nodes && 1 <= k
    requires var stem, suffix := Stem(Name(original)), Suffix(Name(original));
      Candidate(parent, stem, suffix, k) !in nodes
      && forall c: nat :: 1 <= c < k ==> Candidate(parent, stem, suffix, c) in nodes
    ensures ChosenDest(nodes, original, parent, Candidate(parent, Stem(Name(original)), Suffix(Name(original)), k))
  {
  }

  /** What a successful restore leaves: the trashed tree at `dest` and the metadata file gone. */
  function Restored(prepared: Tree, trashFile: string, metaFile: string, dest: string): Tree {
    MoveTree(prepared, trashFile, dest) - {metaFile}
  }

  /**
   * The move and the unlink that end a restore to `dest`: a trashed directory
   * whose destination lies beneath it stays put and the failure is recorded
   * under the trash id; otherwise the tree moves, and the metadata goes unless
   * the move took it along (or a directory stands there), which the unlink
   * reports as the failure instead.
   */
  function RestoreMove(prepared: Tree, trashFile: string, metaFile: string, trashId: string, dest: string)
    : (Tree, FileOperationResult)
  {
    if IntoItself(prepared, trashFile, dest) then
      (prepared, FileOperationResult([], [Failure(trashId, IntoItselfMessage(trashFile, dest))]))
    else
      var moved := MoveTree(prepared, trashFile, dest);
      if metaFile !in moved then (moved, FileOperationResult([], [Failure(trashId, NoSuchFileMessage(metaFile))]))
      else if moved[metaFile].Dir? then (moved, FileOperationResult([], [Failure(trashId, IsDirectoryMessage(metaFile))]))
      else (Restored(prepared, trashFile, metaFile, dest), FileOperationResult([dest], []))
  }

  /** With the metadata file outside both trees, the restore moves the item and removes the metadata. */
  lemma RestoreMoveSucceeds(prepared: Tree, trashFile: string, metaFile: string, trashId: string, dest: string)
    requires trashFile in prepared && metaFile in prepared && prepared[metaFile].File?
    requires !Under(trashFile, metaFile) && !Under(dest, metaFile) && !IntoItself(prepared, trashFile, dest)
    ensures RestoreMove(prepared, trashFile, metaFile, trashId, dest)
      == (Restored(prepared, trashFile, metaFile, dest), FileOperationResult([dest], []))
  {
    MoveTreeEffect(prepared, trashFile, dest);
  }

  /**
   * Metadata lying inside the trashed item moves along with it, so the unlink
   * that follows finds nothing: the tree is moved and the restore is a failure.
   */
  lemma RestoreMetaInsideItemFails(prepared: Tree, trashFile: string, metaFile: string, trashId: string, dest: string)
    requires Under(trashFile, metaFile) && !Under(dest, metaFile) && !IntoItself(prepared, trashFile, dest)
    ensures RestoreMove(prepared, trashFile, metaFile, trashId, dest)
      == (MoveTree(prepared, trashFile, dest), FileOperationResult([], [Failure(trashId, NoSuchFileMessage(metaFile))]))
  {
    MoveTreeLeaves(prepared, trashFile, dest, metaFile);
  }

  /** Restoring the id "" moves the whole trash directory and then fails to unlink `.meta.json`. */
  lemma RestoreEmptyIdLosesMeta(prepared: Tree, trashDir: string, dest: string)
    requires trashDir != "." && !Under(dest, JoinPath(trashDir, ".meta.json")) && !IntoItself(prepared, trashDir, dest)
    ensures var meta := JoinPath(trashDir, ".meta.json");
      RestoreMove(prepared, ItemPath(trashDir, ""), MetaPath(trashDir, ""), "", dest)
        == (MoveTree(prepared, trashDir, dest), FileOperationResult([], [Failure("", NoSuchFileMessage(meta))]))
  {
    OddTrashIds(trashDir, "");
    JoinUnder(trashDir, ".meta.json");
    RestoreMetaInsideItemFails(prepared, trashDir, JoinPath(trashDir, ".meta.json"), "", dest);
  }

  /**
   * A trashed directory is never restored beneath itself: when the recorded
   * original lies beneath the trashed item, the move fails and nothing moves.
   */
  lemma RestoreBeneathItemFails(prepared: Tree, trashFile: string, metaFile: string, trashId: string, original: string)
    requires trashFile in prepared && prepared[trashFile].Dir?
    requires Under(trashFile, original) && original !in prepared
    ensures RestoreMove(prepared, trashFile, metaFile, trashId, original).0 == prepared
    ensures RestoreMove(prepared, trashFile, metaFile, trashId, original).1.success == []
  {
  }

  /**
   * Trash followed by restore puts the node back where it was, when nothing
   * took its place meanwhile and its parent is not a file.
   */
  lemma TrashThenRestored(nodes: Tree, p: string, resolve: string -> string, root: string, trashDir: string,
                          ts: int, iso: string, dumps: Value -> string, loads: string -> Result<Value>,
                          newDirSize: nat, dest: string)
    requires StartsWith(resolve(p), root) && resolve(p) in nodes && trashDir != ""
    requires var r := resolve(p); var id := TrashId(ts, r);
      var doc := MetaDoc(id, r, iso, Name(r), if nodes[r].File? then nodes[r].size else 0);
      loads(dumps(doc)) == Ok(doc)
    requires var r := resolve(p); var id := TrashId(ts, r);
      !Under(ItemPath(trashDir, id), r) && !Under(r, MetaPath(trashDir, id)) && Parent(r) != r
    requires TrashClear(nodes, resolve(p), trashDir, ts)
    requires var r := resolve(p); var after := TrashOne(nodes, p, resolve, root, trashDir, ts, iso, dumps).0;
      !(Parent(r) in after && after[Parent(r)].File?)
    requires var r := resolve(p); var id := TrashId(ts, r);
      var after := TrashOne(nodes, p, resolve, root, trashDir, ts, iso, dumps).0;
      ChosenDest(MakeDir(after, Parent(r), newDirSize), r, Parent(r), dest)
    ensures var r := resolve(p); var id := TrashId(ts, r);
      var after := TrashOne(nodes, p, resolve, root, trashDir, ts, iso, dumps).0;
      && RestorePlan(after, trashDir, id, loads) == Go(r, Parent(r))
      && dest == r
      && var prepared := MakeDir(after, Parent(r), newDirSize);
         var back := Restored(prepared, ItemPath(trashDir, id), MetaPath(trashDir, id), r);
         && RestoreMove(prepared, ItemPath(trashDir, id), MetaPath(trashDir, id), id, r) == (back, FileOperationResult([r], []))
         && r in back && back[r] == nodes[r]
  {
    var r := resolve(p);
    var id := TrashId(ts, r);
    var after := TrashOne(nodes, p, resolve, root, trashDir, ts, iso, dumps).0;
    var size := if nodes[r].File? then nodes[r].size else 0;
    var doc := MetaDoc(id, r, iso, Name(r), size);
    TrashOneEffect(nodes, p, resolve, root, trashDir, ts, iso, dumps);
    MetaDocFields(id, r, iso, Name(r), size);
    RestorePlanGo(after, trashDir, id, loads, doc.fields, r);
    var trashFile := ItemPath(trashDir, id);
    var prepared := MakeDir(after, Parent(r), newDirSize);
    assert r !in prepared;
    assert trashFile in prepared && prepared[trashFile] == nodes[r] by {
      if trashFile == Parent(r) {
        assert prepared == after;
      }
    }
    MovedBack(prepared, trashFile, MetaPath(trashDir, id), r);
    MetaOutsideItem(trashDir, ts, r);
    RestoreMoveSucceeds(prepared, trashFile, MetaPath(trashDir, id), id, r);
  }

  /** With both files present and the metadata decoding to a dict with a string path, the restore goes ahead. */
  lemma RestorePlanGo(nodes: Tree, trashDir: string, trashId: string, loads: string -> Result<Value>,
                      fs: seq<(string, Value)>, original: string)
    requires ItemPath(trashDir, trashId) in nodes
    requires var meta := MetaPath(trashDir, trashId); meta in nodes && nodes[meta].File? && loads(nodes[meta].text) == Ok(Object(fs))
    requires Get(fs, "original_path") == Some(Str(original))
    requires !(Parent(original) in nodes && nodes[Parent(original)].File?)
    ensures RestorePlan(nodes, trashDir, trashId, loads) == Go(original, Parent(original))
  {
  }

  /** A tree moved onto a free path that is not the metadata file is found there after the restore. */
  lemma MovedBack(prepared: Tree, trashFile: string, metaFile: string, dest: string)
    requires trashFile in prepared && dest != metaFile
    ensures var back := Restored(prepared, trashFile, metaFile, dest);
      dest in back && back[dest] == prepared[trashFile]
  {
    MoveTreeEffect(prepared, trashFile, dest);
  }

  /**
   * The failures come in the source's order: a missing item is reported before
   * missing metadata, and both before anything is read.
   */
  lemma RestorePlanStops(nodes: Tree, trashDir: string, trashId: string, loads: string -> Result<Value>)
    ensures var plan := RestorePlan(nodes, trashDir, trashId, loads);
      var trashFile := ItemPath(trashDir, trashId);
      var meta := MetaPath(trashDir, trashId);
      var doc := MetaObject(nodes, meta, loads);
      && (trashFile !in nodes ==> plan == Stop(TrashedMissing))
      && (trashFile in nodes && meta !in nodes ==> plan == Stop(MetaMissing))
      && (trashFile in nodes && meta in nodes && nodes[meta].Dir? ==> plan == Stop(IsDirectoryMessage(meta)))
      && (trashFile in nodes && meta in nodes && nodes[meta].File? && loads(nodes[meta].text).Err? ==>
            plan == Stop(loads(nodes[meta].text).error))
      && (trashFile in nodes && doc.Some? && !HasKey(doc.value, "original_path") ==> plan == Stop("'original_path'"))
  {
  }

  /** An empty id names the trash directory itself, so the restore stops at the missing `.meta.json` beside it. */
  lemma RestoreEmptyIdStops(nodes: Tree, trashDir: string, loads: string -> Result<Value>)
    requires trashDir in nodes && JoinPath(trashDir, ".meta.json") !in nodes
    ensures RestorePlan(nodes, trashDir, "", loads) == Stop(MetaMissing)
  {
    OddTrashIds(trashDir, "");
  }

  /** An absolute id is restored from wherever it points, with its metadata read beside it. */
  lemma RestoreAbsoluteIdGo(nodes: Tree, trashDir: string, trashId: string, loads: string -> Result<Value>,
                            fs: seq<(string, Value)>, original: string)
    requires trashId != "" && trashId[0] == '/' && trashId in nodes
    requires var meta := trashId + ".meta.json"; meta in nodes && nodes[meta].File? && loads(nodes[meta].text) == Ok(Object(fs))
    requires Get(fs, "original_path") == Some(Str(original))
    requires !(Parent(original) in nodes && nodes[Parent(original)].File?)
    ensures RestorePlan(nodes, trashDir, trashId, loads) == Go(original, Parent(original))
  {
    OddTrashIds(trashDir, trashId);
    RestorePlanGo(nodes, trashDir, trashId, loads, fs, original);
  }

  class FileSystem {
    /** The size `stat` reports for a newly made directory. */
    const newDirSize: nat
    var nodes: Tree

    constructor(newDirSize: nat, nodes: Tree)
      ensures this.newDirSize == newDirSize && this.nodes == nodes
    {
      this.newDirSize := newDirSize;
      this.nodes := nodes;
    }

    /** `delete_files`. */
    method DeleteFiles(paths: seq<string>, resolve: string -> string, root: string) returns (result: FileOperationResult)
      modifies this
      ensures nodes == DeleteRun(old(nodes), paths, resolve, root).nodes
      ensures result == Ledger(paths, DeleteRun(old(nodes), paths, resolve, root).outcomes)
    {
      result := EmptyOperationResult;
      ghost var outcomes: seq<Option<string>> := [];
      for i := 0 to |paths|
        invariant DeleteRun(old(nodes), paths[..i], resolve, root) == Run(nodes, outcomes)
        invariant result == Ledger(paths[..i], outcomes)
      {
        assert paths[..i + 1][..i] == paths[..i];
        var p := paths[i];
        var v := ValidatePath(p, resolve, root);
        if v.Err? {
          result := result.(failed := result.failed + [Failure(p, v.error)]);
          outcomes := outcomes + [Some(v.error)];
        } else {
          var resolved := v.value;
          if resolved in nodes && nodes[resolved].File? {
            nodes := nodes - {resolved};
            result := result.(success := result.success + [p]);
            outcomes := outcomes + [None];
          } else if resolved in nodes && nodes[resolved].Dir? {
            nodes := RemoveTree(nodes, resolved);
            result := result.(success := result.success + [p]);
            outcomes := outcomes + [None];
          } else {
            result := result.(failed := result.failed + [Failure(p, NotFound)]);
            outcomes := outcomes + [Some(NotFound)];
          }
        }
      }
      assert paths[..|paths|] == paths;
    }

    /**
     * `trash_files`: the trash directory is made first (a file in its place
     * raises, and nothing is processed); then each path is trashed in turn.
     */
    method TrashFiles(paths: seq<string>, config: AppConfig, resolve: string -> string, root: string,
                      clock: seq<(int, string)>, dumps: Value -> string) returns (r: Result<FileOperationResult>)
      requires |clock| == |paths|
      modifies this
      ensures var trashDir := config.trashDir;
        trashDir in old(nodes) && old(nodes)[trashDir].File? ==> r == Err(ExistsMessage(trashDir)) && nodes == old(nodes)
      ensures var trashDir := config.trashDir;
        !(trashDir in old(nodes) && old(nodes)[trashDir].File?) ==>
          var start := if trashDir in old(nodes) then old(nodes) else old(nodes)[trashDir := Dir(newDirSize)];
          var run := TrashRun(start, paths, resolve, root, trashDir, clock, dumps);
          nodes == run.nodes && r == Ok(Ledger(paths, run.outcomes))
    {
      var trashDir := config.trashDir;
      if trashDir in nodes && nodes[trashDir].File? {
        return Err(ExistsMessage(trashDir));
      }
      if trashDir !in nodes {
        nodes := nodes[trashDir := Dir(newDirSize)];
      }
      ghost var start := nodes;
      var result := EmptyOperationResult;
      ghost var outcomes: seq<Option<string>> := [];
      for i := 0 to |paths|
        invariant TrashRun(start, paths[..i], resolve, root, trashDir, clock[..i], dumps) == Run(nodes, outcomes)
        invariant result == Ledger(paths[..i], outcomes)
      {
        assert paths[..i + 1][..i] == paths[..i];
        assert clock[..i + 1][..i] == clock[..i];
        var p := paths[i];
        var outcome := TrashPath(p, resolve, root, trashDir, clock[i].0, clock[i].1, dumps);
        result := Record(result, p, outcome);
        outcomes := outcomes + [outcome];
      }
      assert paths[..|paths|] == paths;
      assert clock[..|paths|] == clock;
      r := Ok(result);
    }

    /** The body of `trash_files`' loop for one path. */
    method TrashPath(p: string, resolve: string -> string, root: string, trashDir: string,
                     ts: int, iso: string, dumps: Value -> string) returns (outcome: Option<string>)
      modifies this
      ensures (nodes, outcome) == TrashOne(old(nodes), p, resolve, root, trashDir, ts, iso, dumps)
    {
      var v := ValidatePath(p, resolve, root);
      if v.Err? {
        return Some(v.error);
      }
      var resolved := v.value;
      if resolved !in nodes {
        return Some(NotFound);
      }
      var trashId := TrashId(ts, resolved);
      var dest := ItemPath(trashDir, trashId);
      if IntoItself(nodes, resolved, dest) {
        return Some(IntoItselfMessage(resolved, dest));
      }
      if DirOntoFile(nodes, resolved, dest) {
        return Some(ExistsMessage(dest));
      }
      nodes := MoveTree(nodes, resolved, dest);
      var size := if dest in nodes && nodes[dest].File? then nodes[dest].size else 0;
      var meta := MetaDoc(trashId, resolved, iso, Name(resolved), size);
      var text := dumps(meta);
      var metaPath := MetaPath(trashDir, trashId);
      if metaPath in nodes && nodes[metaPath].Dir? {
        return Some(IsDirectoryMessage(metaPath));
      }
      nodes := nodes[metaPath := File(|text|, text)];
      outcome := None;
    }

    /** `get_trash`: the metadata files from the largest name down, each read back or skipped. */
    method GetTrash(config: AppConfig, loads: string -> Result<Value>, parseIso: map<string, Instant>)
      returns (items: seq<TrashItem>)
      ensures items == Listing(nodes, config.trashDir, loads, parseIso)
    {
      var trashDir := config.trashDir;
      if trashDir !in nodes {
        return [];
      }
      var names := SortDown(MetaNames(nodes, trashDir));
      items := ReadEntries(nodes, trashDir, names, loads, parseIso);
    }

    /**
     * `restore_from_trash`: a missing item, missing metadata or a failure reading it
     * changes nothing and reports the failure under the trash id; otherwise the
     * parent is made, the first free destination chosen, the item moved there and
     * the metadata removed.
     */
    method RestoreFromTrash(trashId: string, config: AppConfig, loads: string -> Result<Value>)
      returns (result: FileOperationResult)
      modifies this
      ensures var plan := RestorePlan(old(nodes), config.trashDir, trashId, loads);
        plan.Stop? ==> nodes == old(nodes) && result == FileOperationResult([], [Failure(trashId, plan.error)])
      ensures var plan := RestorePlan(old(nodes), config.trashDir, trashId, loads);
        plan.Go? ==>
          var prepared := MakeDir(old(nodes), plan.parent, newDirSize);
          exists dest :: ChosenDest(prepared, plan.original, plan.parent, dest)
            && (nodes, result) == RestoreMove(prepared, ItemPath(config.trashDir, trashId), MetaPath(config.trashDir, trashId), trashId, dest)
    {
      var trashDir := config.trashDir;
      var plan := RestorePlan(nodes, trashDir, trashId, loads);
      if plan.Stop? {
        return FileOperationResult([], [Failure(trashId, plan.error)]);
      }
      var original, parent := plan.original, plan.parent;
      nodes := MakeDir(nodes, parent, newDirSize);
      var dest := FreeDestination(nodes, original, parent);
      var trashFile, metaFile := ItemPath(trashDir, trashId), MetaPath(trashDir, trashId);
      if IntoItself(nodes, trashFile, dest) {
        return FileOperationResult([], [Failure(trashId, IntoItselfMessage(trashFile, dest))]);
      }
      nodes := MoveTree(nodes, trashFile, dest);
      if metaFile !in nodes {
        return FileOperationResult([], [Failure(trashId, NoSuchFileMessage(metaFile))]);
      }
      if nodes[metaFile].Dir? {
        return FileOperationResult([], [Failure(trashId, IsDirectoryMessage(metaFile))]);
      }
      nodes := nodes - {metaFile};
      result := FileOperationResult([dest], []);
    }
  }
}
