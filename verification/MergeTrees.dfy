/** Deep merge of plain objects as a recursive definition on trees, and what it comes to path by path. */
module MergeTrees {
  import opened Wrappers

  /** A finite object tree. `Hole` is a property whose value is undefined. */
  datatype Tree = Hole | Leaf(id: int) | Node(fields: map<string, Tree>)

  const EMPTY: Tree := Node(map[])

  predicate IsSkipped(key: string) {
    key == "__proto__" || key == "constructor" || key == "prototype"
  }

  /** The keys a source contributes. */
  function Taken(s: Tree): set<string>
    requires s.Node?
  {
    set k | k in s.fields && !IsSkipped(k) && s.fields[k] != Hole
  }

  function FieldsOf(t: Tree): map<string, Tree> {
    if t.Node? then t.fields else map[]
  }

  function FieldOr(t: Tree, k: string): Tree {
    if t.Node? && k in t.fields then t.fields[k] else Hole
  }

  /** The recursive merge: a source object is merged key by key, anything else replaces. */
  function Merge(base: Tree, s: Tree): Tree
    decreases s
  {
    if !s.Node? then s
    else
      Node(map k | k in FieldsOf(base).Keys + Taken(s) ::
             if k in Taken(s) then Merge(FieldOr(base, k), s.fields[k]) else FieldsOf(base)[k])
  }

  lemma MergeField(base: Tree, s: Tree, k: string)
    requires s.Node?
    ensures Merge(base, s).Node?
    ensures k in Merge(base, s).fields <==> k in FieldsOf(base) || k in Taken(s)
    ensures k in Taken(s) ==> Merge(base, s).fields[k] == Merge(FieldOr(base, k), s.fields[k])
    ensures k !in Taken(s) && k in FieldsOf(base) ==> Merge(base, s).fields[k] == FieldsOf(base)[k]
  {
  }

  /** Merging the same source again changes nothing. */
  lemma {:induction false} MergeIdempotent(base: Tree, s: Tree)
    ensures Merge(Merge(base, s), s) == Merge(base, s)
    decreases s
  {
    if s.Node? {
      var once := Merge(base, s);
      var twice := Merge(once, s);
      forall k
        ensures k in twice.fields <==> k in once.fields
        ensures k in once.fields ==> twice.fields[k] == once.fields[k]
      {
        MergeField(base, s, k);
        MergeField(once, s, k);
        if k in Taken(s) {
          MergeIdempotent(FieldOr(base, k), s.fields[k]);
        }
      }
      assert twice.fields == once.fields;
    }
  }

  /** The merge of all sources in order; a missing one contributes nothing. */
  function MergeAll(trees: seq<Option<Tree>>): Tree {
    if trees == [] then EMPTY
    else
      var n := |trees| - 1;
      if trees[n].None? then MergeAll(trees[..n]) else Merge(MergeAll(trees[..n]), trees[n].value)
  }

  // ------------------------------------------------------------- path by path

  /** What an object shows, or a source says, at a path: nothing about it, a value that is no plain
      object, a plain object, or that there is nothing because a value above it is no object. */
  datatype Word = Silent | Value(id: int) | Branch | Cut

  /** What a tree has at a path. */
  function At(t: Tree, path: seq<string>): Word
    decreases |path|
  {
    if path == [] then
      match t
      case Hole => Silent
      case Leaf(id) => Value(id)
      case Node(_) => Branch
    else if t.Node? && path[0] in t.fields then At(t.fields[path[0]], path[1..])
    else Silent
  }

  /** What a source says of a path. It says nothing of a key that is refused, missing or undefined. */
  function Says(t: Tree, path: seq<string>): Word
    decreases |path|
  {
    match t
    case Hole => Silent
    case Leaf(id) => if path == [] then Value(id) else Cut
    case Node(fields) =>
      if path == [] then Branch
      else if path[0] in {"__proto__", "constructor", "prototype"} || path[0] !in fields then Silent
      else Says(fields[path[0]], path[1..])
  }

  /** The last word on a path; missing sources have none. */
  function LastWord(trees: seq<Option<Tree>>, path: seq<string>): Word {
    if trees == [] then Silent
    else
      var n := |trees| - 1;
      if trees[n].Some? && Says(trees[n].value, path) != Silent then Says(trees[n].value, path)
      else LastWord(trees[..n], path)
  }

  /** `t` shows at every path below the root what the last source with a word on it says. */
  ghost predicate Shows(t: Tree, trees: seq<Option<Tree>>) {
    t.Node? && forall path: seq<string> | path != [] :: At(t, path) == Shown(LastWord(trees, path))
  }

  /** Below a value that is no object there is nothing to see. */
  function Shown(word: Word): Word {
    if word == Cut then Silent else word
  }

  /** A merged source has the last word; where it has none, the base stays. */
  lemma {:induction false} MergeShows(base: Tree, s: Tree, path: seq<string>)
    requires s != Hole
    ensures At(Merge(base, s), path) == if Says(s, path) == Silent then At(base, path) else Shown(Says(s, path))
    decreases |path|
  {
    if s.Node? && path != [] {
      var k := path[0];
      MergeField(base, s, k);
      if k in Taken(s) {
        MergeShows(FieldOr(base, k), s.fields[k], path[1..]);
        HoleShowsNothing(path[1..]);
      }
    }
  }

  lemma HoleShowsNothing(path: seq<string>)
    ensures At(Hole, path) == Silent
  {
  }

  ghost predicate AreObjects(trees: seq<Option<Tree>>) {
    forall i | 0 <= i < |trees| && trees[i].Some? :: trees[i].value.Node?
  }

  lemma {:induction false} MergeAllShowsAt(trees: seq<Option<Tree>>, path: seq<string>)
    requires AreObjects(trees) && path != []
    ensures MergeAll(trees).Node?
    ensures At(MergeAll(trees), path) == Shown(LastWord(trees, path))
  {
    if trees != [] {
      var n := |trees| - 1;
      MergeAllShowsAt(trees[..n], path);
      if trees[n].Some? {
        MergeField(MergeAll(trees[..n]), trees[n].value, "");
        MergeShows(MergeAll(trees[..n]), trees[n].value, path);
      }
    }
  }

  /** The merge of the sources shows at every path the last word any of them has on it: later
      sources override earlier ones, objects are joined, refused and undefined keys count for nothing. */
  lemma MergeAllShows(trees: seq<Option<Tree>>)
    requires AreObjects(trees)
    ensures Shows(MergeAll(trees), trees)
  {
    forall path: seq<string> | path != []
      ensures At(MergeAll(trees), path) == Shown(LastWord(trees, path))
    {
      MergeAllShowsAt(trees, path);
    }
    MergeAllShowsAt(trees, [""]);
  }

  /** The source holds the key with a defined value. */
  predicate Holds(t: Option<Tree>, k: string) {
    t.Some? && t.value.Node? && k in t.value.fields && t.value.fields[k] != Hole
  }

  lemma KeyWord(t: Tree, k: string)
    requires t.Node?
    ensures Says(t, [k]) ==
            if k in {"__proto__", "constructor", "prototype"} || !Holds(Some(t), k) then Silent
            else if t.fields[k].Leaf? then Value(t.fields[k].id)
            else Branch
  {
    assert [k][0] == k && [k][1..] == [];
  }

  lemma {:induction false} KeyLastWord(trees: seq<Option<Tree>>, k: string, i: nat)
    requires AreObjects(trees) && i <= |trees|
    requires k in {"__proto__", "constructor", "prototype"} || forall j | i <= j < |trees| :: !Holds(trees[j], k)
    ensures LastWord(trees, [k]) == LastWord(trees[..i], [k])
  {
    if i < |trees| {
      var n := |trees| - 1;
      KeyLastWord(trees[..n], k, i);
      assert trees[..n][..i] == trees[..i];
      if trees[n].Some? {
        KeyWord(trees[n].value, k);
      }
    } else {
      assert trees[..i] == trees;
    }
  }

  /** Key by key: one that is refused, or that no source holds, is not in the merge; any other shows
      the leaf, or an object, as the last source that holds it does. */
  lemma MergeAllKeys(trees: seq<Option<Tree>>, k: string)
    requires AreObjects(trees)
    ensures k in {"__proto__", "constructor", "prototype"} || (forall j | 0 <= j < |trees| :: !Holds(trees[j], k)) ==>
              At(MergeAll(trees), [k]) == Silent
    ensures forall i | 0 <= i < |trees| && k !in {"__proto__", "constructor", "prototype"} && Holds(trees[i], k) &&
                       (forall j | i < j < |trees| :: !Holds(trees[j], k)) ::
              At(MergeAll(trees), [k]) ==
              if trees[i].value.fields[k].Leaf? then Value(trees[i].value.fields[k].id) else Branch
  {
    MergeAllShowsAt(trees, [k]);
    if k in {"__proto__", "constructor", "prototype"} || forall j | 0 <= j < |trees| :: !Holds(trees[j], k) {
      KeyLastWord(trees, k, 0);
    }
    forall i | 0 <= i < |trees| && k !in {"__proto__", "constructor", "prototype"} && Holds(trees[i], k) &&
               (forall j | i < j < |trees| :: !Holds(trees[j], k))
      ensures LastWord(trees, [k]) ==
              if trees[i].value.fields[k].Leaf? then Value(trees[i].value.fields[k].id) else Branch
    {
      KeyLastWord(trees, k, i + 1);
      assert trees[..i + 1][..i] == trees[..i] && trees[..i + 1][i] == trees[i];
      KeyWord(trees[i].value, k);
    }
  }
}
