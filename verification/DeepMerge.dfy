/** The in-place deep merge with an explicit stack, which refines the recursive merge of trees. */
module DeepMerge {
  import opened Wrappers
  import opened MergeTrees

  /** A property value: a plain object, or anything else (kept by identity), or undefined. */
  datatype Val = Undefined | Atom(id: int) | Obj(object_: PlainObject)

  class PlainObject {
    var props: map<string, Val>

    constructor ()
      ensures props == map[]
    {
      props := map[];
    }
  }

  // ------------------------------------------------------------------- sizes

  ghost function Size(t: Tree): nat
    decreases t
  {
    if t.Node? then 1 + FieldsSize(t, t.fields.Keys) else 1
  }

  ghost function FieldsSize(t: Tree, keys: set<string>): nat
    requires t.Node? && keys <= t.fields.Keys
    decreases t, keys
  {
    if keys == {} then 0
    else
      var k :| k in keys;
      Size(t.fields[k]) + FieldsSize(t, keys - {k})
  }

  lemma {:induction false} FieldsSizePick(t: Tree, keys: set<string>, k: string)
    requires t.Node? && keys <= t.fields.Keys && k in keys
    ensures FieldsSize(t, keys) == Size(t.fields[k]) + FieldsSize(t, keys - {k})
    decreases keys
  {
    var x :| x in keys && FieldsSize(t, keys) == Size(t.fields[x]) + FieldsSize(t, keys - {x});
    if x != k {
      FieldsSizePick(t, keys - {x}, k);
      FieldsSizePick(t, keys - {k}, x);
      assert keys - {x} - {k} == keys - {k} - {x};
    }
  }

  ghost function Pending(srcs: seq<Tree>): nat {
    if srcs == [] then 0 else Pending(srcs[..|srcs| - 1]) + Size(srcs[|srcs| - 1])
  }

  // -------------------------------------------------------------- heap shapes

  /** The objects of a region of the heap, and their properties. */
  type Heap = map<PlainObject, map<string, Val>>

  /** The objects of `h` have the properties recorded in `h`. */
  ghost predicate Mirrors(h: Heap)
    reads h.Keys
  {
    forall o | o in h :: o.props == h[o]
  }

  /** `o` is the root of a structure inside `h` that reads as the tree `t`. */
  ghost predicate Represents(h: Heap, o: PlainObject, t: Tree)
    decreases t
  {
    && o in h && t.Node? && h[o].Keys == t.fields.Keys
    && forall k | k in t.fields ::
         match h[o][k]
         case Undefined => t.fields[k] == Hole
         case Atom(a) => t.fields[k] == Leaf(a)
         case Obj(c) => Represents(h, c, t.fields[k])
  }

  /** The heap after `o.k` is set to `v`. */
  ghost function Put(h: Heap, o: PlainObject, k: string, v: Val): (r: Heap)
    requires o in h
    ensures r.Keys == h.Keys && forall x | x in h && x != o :: r[x] == h[x]
  {
    h[o := h[o][k := v]]
  }

  /** The heap after `o.k` is set to the new, empty object `c`. */
  ghost function Grown(h: Heap, o: PlainObject, k: string, c: PlainObject): (r: Heap)
    requires o in h && c !in h
    ensures r.Keys == h.Keys + {c} && r[c] == map[] && r[o] == h[o][k := Obj(c)]
    ensures forall x | x in h && x != o :: r[x] == h[x]
  {
    h[c := map[]][o := h[o][k := Obj(c)]]
  }

  /** A value agrees with a tree, objects being judged by the trees wanted of them. */
  ghost predicate Fits(want: map<PlainObject, Tree>, v: Val, t: Tree) {
    match v
    case Undefined => false
    case Atom(a) => t == Leaf(a)
    case Obj(c) => c in want && t == want[c]
  }

  ghost predicate Reads(h: Heap, want: map<PlainObject, Tree>, o: PlainObject, t: Tree)
    requires o in h
  {
    && t.Node? && h[o].Keys == t.fields.Keys
    && forall k | k in t.fields :: Fits(want, h[o][k], t.fields[k])
  }

  /** No object hangs below two places, and nothing points at the root. */
  ghost predicate TreeShaped(h: Heap, root: PlainObject) {
    ChildrenInside(h, root) && OneParent(h)
  }

  ghost predicate ChildrenInside(h: Heap, root: PlainObject) {
    forall o, k | o in h && k in h[o] && h[o][k].Obj? :: h[o][k].object_ in h && h[o][k].object_ != root
  }

  ghost predicate OneParent(h: Heap) {
    forall o, k, o', k' | o in h && k in h[o] && o' in h && k' in h[o'] && h[o][k].Obj? && h[o][k] == h[o'][k'] ::
      o == o' && k == k'
  }

  /** Every object of the region reads as the tree wanted of it. */
  ghost predicate Settled(h: Heap, want: map<PlainObject, Tree>, root: PlainObject) {
    && h.Keys == want.Keys && root in h && TreeShaped(h, root)
    && (forall o | o in h :: want[o].Node?)
    && forall o | o in h :: Reads(h, want, o, want[o])
  }

  /** A settled heap structure represents the tree wanted of its root. */
  lemma {:induction false} SettledRepresents(h: Heap, want: map<PlainObject, Tree>, root: PlainObject, o: PlainObject)
    requires Settled(h, want, root) && o in h
    ensures Represents(h, o, want[o])
    decreases want[o]
  {
    assert Reads(h, want, o, want[o]);
    forall k | k in want[o].fields && h[o][k].Obj?
      ensures Represents(h, h[o][k].object_, want[o].fields[k])
    {
      assert Fits(want, h[o][k], want[o].fields[k]);
      SettledRepresents(h, want, root, h[o][k].object_);
    }
    assert forall k | k in want[o].fields :: Fits(want, h[o][k], want[o].fields[k]);
  }

  // ------------------------------------------------------------- the worklist

  /** What a pending frame must do: merge the tree `src` over the tree `base`. */
  datatype Plan = Plan(base: Tree, src: Tree)

  /** The pending frames, by target object. */
  type Jobs = map<PlainObject, Plan>

  ghost predicate PlanHolds(h: Heap, want: map<PlainObject, Tree>, o: PlainObject, plan: Plan)
    requires o in h && o in want
  {
    plan.src.Node? && Reads(h, want, o, plan.base) && want[o] == Merge(plan.base, plan.src)
  }

  /** Waiting objects still read as their plan's base. */
  ghost predicate JobsHold(h: Heap, want: map<PlainObject, Tree>, jobs: Jobs, done: set<PlainObject>) {
    forall o | o in jobs :: o in h && o in want && o !in done && PlanHolds(h, want, o, jobs[o])
  }

  /** Objects that do not wait read as wanted. */
  ghost predicate OthersRead(h: Heap, want: map<PlainObject, Tree>, except: set<PlainObject>) {
    forall o | o in h && o !in except :: o in want && Reads(h, want, o, want[o])
  }

  /** No child of `o` below `keys` waits or was merged already. */
  ghost predicate Untouched(h: Heap, o: PlainObject, keys: set<string>, busy: set<PlainObject>)
    requires o in h
  {
    forall k | k in keys && k in h[o] && h[o][k].Obj? :: h[o][k].object_ !in busy
  }

  ghost predicate AllUntouched(h: Heap, jobs: Jobs, done: set<PlainObject>) {
    forall o | o in h && o !in done :: Untouched(h, o, h[o].Keys, jobs.Keys + done)
  }

  ghost predicate Shaped(h: Heap, want: map<PlainObject, Tree>, root: PlainObject) {
    h.Keys == want.Keys && root in h && TreeShaped(h, root) && forall o | o in h :: want[o].Node?
  }

  /** The merge between two frames. */
  ghost predicate Working(h: Heap, want: map<PlainObject, Tree>, root: PlainObject, jobs: Jobs, done: set<PlainObject>) {
    Shaped(h, want, root) && JobsHold(h, want, jobs, done) && OthersRead(h, want, jobs.Keys) && AllUntouched(h, jobs, done)
  }

  /** The tree an object reads as while the keys `left` are still to be merged. */
  function Mid(base: Tree, wanted: Tree, left: set<string>): Tree
    requires base.Node? && wanted.Node?
  {
    Node(map k | k in base.fields.Keys + wanted.fields.Keys && (if k in left then k in base.fields else k in wanted.fields) ::
           if k in left then base.fields[k] else wanted.fields[k])
  }

  /** The object being merged, the keys of its source that are left. */
  ghost predicate Halfway(h: Heap, want: map<PlainObject, Tree>, o: PlainObject, plan: Plan, left: set<string>)
    requires o in h && o in want
  {
    && plan.base.Node? && plan.src.Node? && want[o] == Merge(plan.base, plan.src)
    && left <= plan.src.fields.Keys
    && Reads(h, want, o, Mid(plan.base, want[o], left))
  }

  /** Everything but the object `o` being merged. */
  ghost predicate Around(h: Heap, want: map<PlainObject, Tree>, root: PlainObject, jobs: Jobs, done: set<PlainObject>,
                         o: PlainObject)
  {
    && Shaped(h, want, root) && o in h && o in done && o !in jobs
    && JobsHold(h, want, jobs, done) && OthersRead(h, want, jobs.Keys + {o}) && AllUntouched(h, jobs, done)
  }

  /** The merge between two keys of the object `o`. */
  ghost predicate Merging(h: Heap, want: map<PlainObject, Tree>, root: PlainObject, jobs: Jobs, done: set<PlainObject>,
                          o: PlainObject, plan: Plan, left: set<string>)
  {
    && Around(h, want, root, jobs, done, o)
    && Halfway(h, want, o, plan, left)
    && Untouched(h, o, left, jobs.Keys + done)
  }

  lemma MidStart(plan: Plan)
    requires plan.base.Node? && plan.src.Node?
    ensures Mid(plan.base, Merge(plan.base, plan.src), plan.src.fields.Keys) == plan.base
  {
    var w := Merge(plan.base, plan.src);
    var m := Mid(plan.base, w, plan.src.fields.Keys);
    forall k
      ensures k in m.fields <==> k in plan.base.fields
      ensures k in m.fields ==> m.fields[k] == plan.base.fields[k]
    {
      MergeField(plan.base, plan.src, k);
    }
    assert m.fields == plan.base.fields;
  }

  lemma MidEnd(base: Tree, wanted: Tree)
    requires base.Node? && wanted.Node?
    ensures Mid(base, wanted, {}) == wanted
  {
    assert Mid(base, wanted, {}).fields == wanted.fields;
  }

  /** Any one of the pending objects may be merged next. */
  lemma TakeFrame(h: Heap, want: map<PlainObject, Tree>, root: PlainObject, jobs: Jobs, done: set<PlainObject>, o: PlainObject)
    requires Working(h, want, root, jobs, done) && o in jobs
    ensures Merging(h, want, root, jobs - {o}, done + {o}, o, jobs[o], jobs[o].src.fields.Keys)
  {
    MidStart(jobs[o]);
    assert Untouched(h, o, h[o].Keys, jobs.Keys + done);
    assert (jobs - {o}).Keys + (done + {o}) == jobs.Keys + done;
    assert (jobs - {o}).Keys + {o} == jobs.Keys;
  }

  /** All keys merged: the object reads as wanted. */
  lemma FinishObject(h: Heap, want: map<PlainObject, Tree>, root: PlainObject, jobs: Jobs, done: set<PlainObject>,
                     o: PlainObject, plan: Plan)
    requires Merging(h, want, root, jobs, done, o, plan, {})
    ensures Working(h, want, root, jobs, done)
  {
    MidEnd(plan.base, want[o]);
  }

  /** An object whose children keep their wanted trees reads as before. */
  lemma ReadsKept(h: Heap, want: map<PlainObject, Tree>, h': Heap, want': map<PlainObject, Tree>, o: PlainObject, t: Tree)
    requires o in h && o in h' && h'[o] == h[o] && Reads(h, want, o, t)
    requires forall k | k in h[o] && h[o][k].Obj? && h[o][k].object_ in want ::
               h[o][k].object_ in want' && want'[h[o][k].object_] == want[h[o][k].object_]
    ensures Reads(h', want', o, t)
  {
    forall k | k in t.fields
      ensures Fits(want', h'[o][k], t.fields[k])
    {
      assert Fits(want, h[o][k], t.fields[k]);
    }
  }

  lemma MidDrop(base: Tree, wanted: Tree, left: set<string>, k: string)
    requires base.Node? && wanted.Node? && k in left
    ensures var m, n := Mid(base, wanted, left), Mid(base, wanted, left - {k});
            && (k in n.fields <==> k in wanted.fields) && (k in n.fields ==> n.fields[k] == wanted.fields[k])
            && (k in m.fields <==> k in base.fields) && (k in m.fields ==> m.fields[k] == base.fields[k])
            && forall x | x != k :: (x in n.fields <==> x in m.fields) && (x in n.fields ==> n.fields[x] == m.fields[x])
  {
  }

  /** After the key `k` is merged into `o`, `o` is one key further. */
  lemma HalfwayNext(h: Heap, want: map<PlainObject, Tree>, h': Heap, want': map<PlainObject, Tree>,
                    o: PlainObject, plan: Plan, left: set<string>, k: string)
    requires o in h && o in want && o in h' && o in want' && want'[o] == want[o]
    requires Halfway(h, want, o, plan, left) && k in left
    requires k in h'[o] <==> k in want[o].fields
    requires k in want[o].fields ==> Fits(want', h'[o][k], want[o].fields[k])
    requires forall x | x != k :: (x in h'[o] <==> x in h[o]) && (x in h[o] ==> h'[o][x] == h[o][x])
    requires forall x | x in h[o] && x != k && h[o][x].Obj? && h[o][x].object_ in want ::
               h[o][x].object_ in want' && want'[h[o][x].object_] == want[h[o][x].object_]
    ensures Halfway(h', want', o, plan, left - {k})
  {
    var m, n := Mid(plan.base, want[o], left), Mid(plan.base, want[o], left - {k});
    MidDrop(plan.base, want[o], left, k);
    forall x
      ensures x in h'[o] <==> x in n.fields
      ensures x in n.fields ==> Fits(want', h'[o][x], n.fields[x])
    {
      if x != k && x in n.fields {
        assert Fits(want, h[o][x], m.fields[x]);
      }
    }
    assert h'[o].Keys == n.fields.Keys;
  }

  /** A key that is skipped: the object already reads as wanted there. */
  lemma SkipKey(h: Heap, want: map<PlainObject, Tree>, root: PlainObject, jobs: Jobs, done: set<PlainObject>,
                o: PlainObject, plan: Plan, left: set<string>, k: string)
    requires Merging(h, want, root, jobs, done, o, plan, left) && k in left && k !in Taken(plan.src)
    ensures Merging(h, want, root, jobs, done, o, plan, left - {k})
  {
    MergeField(plan.base, plan.src, k);
    var m := Mid(plan.base, want[o], left);
    MidDrop(plan.base, want[o], left, k);
    assert k in m.fields ==> Fits(want, h[o][k], m.fields[k]);
    HalfwayNext(h, want, h, want, o, plan, left, k);
  }

  // ------------------------------------------------- a key assigned a plain value

  lemma AssignShape(h: Heap, root: PlainObject, o: PlainObject, k: string, a: int)
    requires TreeShaped(h, root) && o in h
    ensures TreeShaped(Put(h, o, k, Atom(a)), root)
  {
    AssignOneParent(h, o, k, a);
  }

  lemma AssignOneParent(h: Heap, o: PlainObject, k: string, a: int)
    requires OneParent(h) && o in h
    ensures OneParent(Put(h, o, k, Atom(a)))
  {
    var h': Heap := Put(h, o, k, Atom(a));
    assert forall x: PlainObject, y: string | x in h' && y in h'[x] && h'[x][y].Obj? :: y in h[x] && h[x][y] == h'[x][y];
  }

  /** Writing into `o` leaves every other object's reading alone. */
  lemma JobsKept(h: Heap, want: map<PlainObject, Tree>, h': Heap, jobs: Jobs, done: set<PlainObject>, o: PlainObject)
    requires JobsHold(h, want, jobs, done) && o !in jobs
    requires h'.Keys == h.Keys && forall x | x in h && x != o :: h'[x] == h[x]
    ensures JobsHold(h', want, jobs, done)
  {
    forall x | x in jobs
      ensures PlanHolds(h', want, x, jobs[x])
    {
      assert PlanHolds(h, want, x, jobs[x]);
      ReadsKept(h, want, h', want, x, jobs[x].base);
    }
  }

  lemma OthersKept(h: Heap, want: map<PlainObject, Tree>, h': Heap, except: set<PlainObject>, o: PlainObject)
    requires OthersRead(h, want, except) && o in except
    requires h'.Keys == h.Keys && forall x | x in h && x != o :: h'[x] == h[x]
    ensures OthersRead(h', want, except)
  {
    forall x | x in h' && x !in except
      ensures Reads(h', want, x, want[x])
    {
      ReadsKept(h, want, h', want, x, want[x]);
    }
  }

  lemma AssignKey(h: Heap, want: map<PlainObject, Tree>, root: PlainObject, jobs: Jobs, done: set<PlainObject>,
                  o: PlainObject, plan: Plan, left: set<string>, k: string, a: int)
    requires Merging(h, want, root, jobs, done, o, plan, left)
    requires k in left && k in Taken(plan.src) && plan.src.fields[k] == Leaf(a)
    ensures Merging(Put(h, o, k, Atom(a)), want, root, jobs, done, o, plan, left - {k})
  {
    var h' := Put(h, o, k, Atom(a));
    AssignShape(h, root, o, k, a);
    JobsKept(h, want, h', jobs, done, o);
    OthersKept(h, want, h', jobs.Keys + {o}, o);
    MergeField(plan.base, plan.src, k);
    HalfwayNext(h, want, h', want, o, plan, left, k);
  }

  // ---------------------------------------- a key whose two values are both objects

  /** The child found below a key still reads as wanted and belongs to no frame. */
  lemma ChildFound(h: Heap, want: map<PlainObject, Tree>, root: PlainObject, jobs: Jobs, done: set<PlainObject>,
                   o: PlainObject, plan: Plan, left: set<string>, k: string)
    requires Merging(h, want, root, jobs, done, o, plan, left)
    requires k in left && k in Taken(plan.src) && plan.src.fields[k].Node? && k in h[o] && h[o][k].Obj?
    ensures var c := h[o][k].object_;
            && c in h && c in want && c !in jobs && c !in done && c != root && c != o
            && want[c].Node? && Reads(h, want, c, want[c])
            && k in want[o].fields && want[o].fields[k] == Merge(want[c], plan.src.fields[k])
  {
    var c := h[o][k].object_;
    var m := Mid(plan.base, want[o], left);
    MidDrop(plan.base, want[o], left, k);
    assert Fits(want, h[o][k], m.fields[k]);
    MergeField(plan.base, plan.src, k);
  }

  lemma DescendHalfway(h: Heap, want: map<PlainObject, Tree>, root: PlainObject, o: PlainObject, plan: Plan, left: set<string>,
                       k: string, t: Tree)
    requires TreeShaped(h, root) && o in h && o in want && Halfway(h, want, o, plan, left)
    requires k in left && k in h[o] && h[o][k].Obj? && h[o][k].object_ != o
    requires k in want[o].fields && want[o].fields[k] == t
    ensures Halfway(h, want[h[o][k].object_ := t], o, plan, left - {k})
  {
    OnlyParent(h, root, o, k);
    HalfwayNext(h, want, h, want[h[o][k].object_ := t], o, plan, left, k);
  }

  lemma KeysWith(jobs: Jobs, c: PlainObject, job: Plan, o: PlainObject)
    ensures jobs[c := job].Keys + {o} == jobs.Keys + {o} + {c}
  {
  }

  lemma DescendShaped(h: Heap, want: map<PlainObject, Tree>, root: PlainObject, c: PlainObject, t: Tree)
    requires Shaped(h, want, root) && c in h && t.Node?
    ensures Shaped(h, want[c := t], root)
  {
  }

  lemma DescendAround(h: Heap, want: map<PlainObject, Tree>, root: PlainObject, jobs: Jobs, done: set<PlainObject>,
                      o: PlainObject, k: string, job: Plan)
    requires Around(h, want, root, jobs, done, o) && k in h[o] && h[o][k].Obj?
    requires var c := h[o][k].object_;
             c in h && c !in jobs && c !in done && c != o && Reads(h, want, c, job.base) && job.src.Node?
    ensures Around(h, want[h[o][k].object_ := Merge(job.base, job.src)], root, jobs[h[o][k].object_ := job], done, o)
  {
    var c, t := h[o][k].object_, Merge(job.base, job.src);
    MergeField(job.base, job.src, k);
    DescendJobs(h, want, root, jobs, done, o, k, job);
    DescendOthers(h, want, root, jobs.Keys + {o}, o, k, t);
    DescendUntouched(h, root, jobs, done, o, k, job);
    KeysWith(jobs, c, job, o);
    DescendShaped(h, want, root, c, t);
  }

  /** The child below `k` of the object being merged waits for a merge of its own. */
  lemma DescendKey(h: Heap, want: map<PlainObject, Tree>, root: PlainObject, jobs: Jobs, done: set<PlainObject>,
                   o: PlainObject, plan: Plan, left: set<string>, k: string)
    requires Merging(h, want, root, jobs, done, o, plan, left)
    requires k in left && k in Taken(plan.src) && plan.src.fields[k].Node? && k in h[o] && h[o][k].Obj?
    ensures var c := h[o][k].object_;
            && c in want && c !in jobs && c != root
            && var job := Plan(want[c], plan.src.fields[k]);
               Merging(h, want[c := Merge(job.base, job.src)], root, jobs[c := job], done, o, plan, left - {k})
  {
    var c := h[o][k].object_;
    ChildFound(h, want, root, jobs, done, o, plan, left, k);
    var job := Plan(want[c], plan.src.fields[k]);
    DescendAround(h, want, root, jobs, done, o, k, job);
    DescendHalfway(h, want, root, o, plan, left, k, Merge(job.base, job.src));
    DescendUntouched(h, root, jobs, done, o, k, job);
  }

  lemma OnlyParent(h: Heap, root: PlainObject, o: PlainObject, k: string)
    requires TreeShaped(h, root) && o in h && k in h[o] && h[o][k].Obj?
    ensures forall x, y | x in h && y in h[x] && h[x][y].Obj? && h[x][y].object_ == h[o][k].object_ :: x == o && y == k
  {
    forall x, y | x in h && y in h[x] && h[x][y].Obj? && h[x][y].object_ == h[o][k].object_
      ensures x == o && y == k
    {
      assert h[x][y] == h[o][k];
    }
  }

  /** Only the parent of a child sees that another tree is wanted of it. */
  lemma WantedElsewhere(h: Heap, want: map<PlainObject, Tree>, root: PlainObject, o: PlainObject, k: string, t: Tree,
                        x: PlainObject, read: Tree)
    requires TreeShaped(h, root) && o in h && k in h[o] && h[o][k].Obj?
    requires x in h && x != o && Reads(h, want, x, read)
    ensures Reads(h, want[h[o][k].object_ := t], x, read)
  {
    OnlyParent(h, root, o, k);
    ReadsKept(h, want, h, want[h[o][k].object_ := t], x, read);
  }

  lemma DescendJob(h: Heap, want: map<PlainObject, Tree>, root: PlainObject, o: PlainObject, k: string, t: Tree,
                   x: PlainObject, plan: Plan)
    requires TreeShaped(h, root) && o in h && k in h[o] && h[o][k].Obj?
    requires x in h && x in want && x != o && x != h[o][k].object_ && PlanHolds(h, want, x, plan)
    ensures PlanHolds(h, want[h[o][k].object_ := t], x, plan)
  {
    WantedElsewhere(h, want, root, o, k, t, x, plan.base);
  }

  lemma DescendJobs(h: Heap, want: map<PlainObject, Tree>, root: PlainObject, jobs: Jobs, done: set<PlainObject>,
                    o: PlainObject, k: string, job: Plan)
    requires TreeShaped(h, root) && h.Keys == want.Keys && o in h && k in h[o] && h[o][k].Obj?
    requires JobsHold(h, want, jobs, done) && o !in jobs && h[o][k].object_ !in jobs && h[o][k].object_ !in done
    requires h[o][k].object_ != o && Reads(h, want, h[o][k].object_, job.base) && job.src.Node?
    ensures var c := h[o][k].object_;
            JobsHold(h, want[c := Merge(job.base, job.src)], jobs[c := job], done)
  {
    var c := h[o][k].object_;
    var t := Merge(job.base, job.src);
    WantedElsewhere(h, want, root, o, k, t, c, job.base);
    forall x | x in jobs
      ensures PlanHolds(h, want[c := t], x, jobs[x])
    {
      DescendJob(h, want, root, o, k, t, x, jobs[x]);
    }
  }

  lemma DescendOthers(h: Heap, want: map<PlainObject, Tree>, root: PlainObject, except: set<PlainObject>,
                      o: PlainObject, k: string, t: Tree)
    requires TreeShaped(h, root) && h.Keys == want.Keys && o in h && k in h[o] && h[o][k].Obj?
    requires OthersRead(h, want, except) && o in except
    ensures OthersRead(h, want[h[o][k].object_ := t], except + {h[o][k].object_})
  {
    var c := h[o][k].object_;
    OnlyParent(h, root, o, k);
    forall x | x in h && x !in except + {c}
      ensures Reads(h, want[c := t], x, want[x])
    {
      ReadsKept(h, want, h, want[c := t], x, want[x]);
    }
  }

  lemma DescendUntouched(h: Heap, root: PlainObject, jobs: Jobs, done: set<PlainObject>, o: PlainObject, k: string, job: Plan)
    requires TreeShaped(h, root) && o in h && o in done && k in h[o] && h[o][k].Obj?
    requires AllUntouched(h, jobs, done)
    ensures AllUntouched(h, jobs[h[o][k].object_ := job], done)
    ensures forall left | Untouched(h, o, left, jobs.Keys + done) ::
              Untouched(h, o, left - {k}, jobs[h[o][k].object_ := job].Keys + done)
  {
    var c := h[o][k].object_;
    OnlyParent(h, root, o, k);
    forall x | x in h && x !in done
      ensures Untouched(h, x, h[x].Keys, jobs[c := job].Keys + done)
    {
      assert Untouched(h, x, h[x].Keys, jobs.Keys + done);
    }
  }

  // ------------------------------------------- a key that gets a new, empty object

  lemma CreateShape(h: Heap, root: PlainObject, o: PlainObject, k: string, c: PlainObject)
    requires TreeShaped(h, root) && o in h && c !in h && root in h
    ensures TreeShaped(Grown(h, o, k, c), root)
  {
  }

  /** An object other than `o` reads as before when `o` gets a new child. */
  lemma CreateElsewhere(h: Heap, want: map<PlainObject, Tree>, root: PlainObject, o: PlainObject, k: string, c: PlainObject,
                        t: Tree, x: PlainObject, read: Tree)
    requires TreeShaped(h, root) && o in h && c !in h && x in h && x != o && Reads(h, want, x, read)
    ensures Reads(Grown(h, o, k, c), want[c := t], x, read)
  {
    ReadsKept(h, want, Grown(h, o, k, c), want[c := t], x, read);
  }

  lemma CreateJobs(h: Heap, want: map<PlainObject, Tree>, root: PlainObject, jobs: Jobs, done: set<PlainObject>,
                   o: PlainObject, k: string, c: PlainObject, src: Tree)
    requires TreeShaped(h, root) && h.Keys == want.Keys && o in h && c !in h && c !in done && src.Node?
    requires JobsHold(h, want, jobs, done) && o !in jobs
    ensures JobsHold(Grown(h, o, k, c), want[c := Merge(EMPTY, src)], jobs[c := Plan(EMPTY, src)], done)
  {
    var h', want' := Grown(h, o, k, c), want[c := Merge(EMPTY, src)];
    forall x | x in jobs
      ensures x in h' && x in want' && x !in done && PlanHolds(h', want', x, jobs[x])
    {
      assert PlanHolds(h, want, x, jobs[x]);
      CreateElsewhere(h, want, root, o, k, c, Merge(EMPTY, src), x, jobs[x].base);
    }
  }

  lemma CreateOthers(h: Heap, want: map<PlainObject, Tree>, root: PlainObject, except: set<PlainObject>,
                     o: PlainObject, k: string, c: PlainObject, t: Tree)
    requires TreeShaped(h, root) && h.Keys == want.Keys && o in h && c !in h
    requires OthersRead(h, want, except) && o in except
    ensures OthersRead(Grown(h, o, k, c), want[c := t], except + {c})
  {
    var h', want' := Grown(h, o, k, c), want[c := t];
    forall x | x in h' && x !in except + {c}
      ensures x in want' && Reads(h', want', x, want'[x])
    {
      CreateElsewhere(h, want, root, o, k, c, t, x, want[x]);
    }
  }

  lemma CreateHalfway(h: Heap, want: map<PlainObject, Tree>, root: PlainObject, o: PlainObject, plan: Plan, left: set<string>,
                      k: string, c: PlainObject, t: Tree)
    requires TreeShaped(h, root) && o in h && o in want && c !in h && Halfway(h, want, o, plan, left) && k in left
    requires k in want[o].fields && want[o].fields[k] == t
    ensures Halfway(Grown(h, o, k, c), want[c := t], o, plan, left - {k})
  {
    HalfwayNext(h, want, Grown(h, o, k, c), want[c := t], o, plan, left, k);
  }

  lemma CreateShaped(h: Heap, want: map<PlainObject, Tree>, root: PlainObject, o: PlainObject, k: string, c: PlainObject,
                     t: Tree)
    requires Shaped(h, want, root) && o in h && c !in h && t.Node?
    ensures Shaped(Grown(h, o, k, c), want[c := t], root)
  {
    CreateShape(h, root, o, k, c);
  }

  lemma CreateAround(h: Heap, want: map<PlainObject, Tree>, root: PlainObject, jobs: Jobs, done: set<PlainObject>,
                     o: PlainObject, k: string, c: PlainObject, src: Tree)
    requires Around(h, want, root, jobs, done, o) && c !in h && c !in done && src.Node?
    ensures Around(Grown(h, o, k, c), want[c := Merge(EMPTY, src)], root, jobs[c := Plan(EMPTY, src)], done, o)
  {
    var t, job := Merge(EMPTY, src), Plan(EMPTY, src);
    CreateJobs(h, want, root, jobs, done, o, k, c, src);
    CreateOthers(h, want, root, jobs.Keys + {o}, o, k, c, t);
    CreateUntouched(h, root, jobs, done, o, k, c, job, {});
    KeysWith(jobs, c, job, o);
    CreateShaped(h, want, root, o, k, c, t);
  }

  /** A fresh object is put below `k` and waits for its merge; it starts empty. */
  lemma CreateKey(h: Heap, want: map<PlainObject, Tree>, root: PlainObject, jobs: Jobs, done: set<PlainObject>,
                  o: PlainObject, plan: Plan, left: set<string>, k: string, c: PlainObject)
    requires Merging(h, want, root, jobs, done, o, plan, left) && c !in h && c !in done
    requires k in left && k in Taken(plan.src) && plan.src.fields[k].Node? && (k in h[o] ==> h[o][k].Atom?)
    ensures var job := Plan(EMPTY, plan.src.fields[k]);
            Merging(Grown(h, o, k, c), want[c := Merge(job.base, job.src)], root,
                    jobs[c := job], done, o, plan, left - {k})
  {
    var job := Plan(EMPTY, plan.src.fields[k]);
    CreatedValue(h, want, o, plan, left, k);
    CreateAround(h, want, root, jobs, done, o, k, c, job.src);
    CreateHalfway(h, want, root, o, plan, left, k, c, Merge(job.base, job.src));
    CreateUntouched(h, root, jobs, done, o, k, c, job, left);
  }

  /** Merging over a value that is no object is merging over an empty one. */
  lemma CreatedValue(h: Heap, want: map<PlainObject, Tree>, o: PlainObject, plan: Plan, left: set<string>, k: string)
    requires o in h && o in want && Halfway(h, want, o, plan, left) && k in left
    requires k in Taken(plan.src) && plan.src.fields[k].Node? && (k in h[o] ==> h[o][k].Atom?)
    ensures k in want[o].fields && want[o].fields[k] == Merge(EMPTY, plan.src.fields[k])
  {
    var m := Mid(plan.base, want[o], left);
    MidDrop(plan.base, want[o], left, k);
    MergeField(plan.base, plan.src, k);
    assert k in m.fields ==> Fits(want, h[o][k], m.fields[k]);
    assert FieldsOf(FieldOr(plan.base, k)) == map[];
  }

  lemma CreateUntouched(h: Heap, root: PlainObject, jobs: Jobs, done: set<PlainObject>, o: PlainObject, k: string,
                        c: PlainObject, job: Plan, left: set<string>)
    requires TreeShaped(h, root) && o in h && o in done && c !in h && c !in done
    requires AllUntouched(h, jobs, done) && Untouched(h, o, left, jobs.Keys + done)
    ensures AllUntouched(Grown(h, o, k, c), jobs[c := job], done)
    ensures Untouched(Grown(h, o, k, c), o, left - {k}, jobs[c := job].Keys + done)
  {
    var h' := Grown(h, o, k, c);
    forall x | x in h' && x !in done
      ensures Untouched(h', x, h'[x].Keys, jobs[c := job].Keys + done)
    {
      if x != c {
        assert Untouched(h, x, h[x].Keys, jobs.Keys + done);
      }
    }
  }

  // ------------------------------------------------------- the stack of frames

  datatype Frame = Frame(target: PlainObject, source: PlainObject)

  /** What the proof knows of a merge under way: the target structure, the trees wanted of its
      objects, the pending jobs, the objects merged, and the trees of the stacked sources. */
  datatype Work = Work(h: Heap, want: map<PlainObject, Tree>, jobs: Jobs, done: set<PlainObject>, srcs: seq<Tree>)

  /** The stack holds one frame for each pending job. */
  ghost predicate StackHolds(stack: seq<Frame>, jobs: Jobs, srcs: seq<Tree>, sources: Heap) {
    && |stack| == |srcs|
    && (forall i | 0 <= i < |stack| ::
          stack[i].target in jobs && jobs[stack[i].target].src == srcs[i] && Represents(sources, stack[i].source, srcs[i]))
    && (forall i, j | 0 <= i < j < |stack| :: stack[i].target != stack[j].target)
    && (forall o | o in jobs :: exists i :: 0 <= i < |stack| && stack[i].target == o)
  }

  lemma StackPush(stack: seq<Frame>, jobs: Jobs, srcs: seq<Tree>, sources: Heap, frame: Frame, job: Plan)
    requires StackHolds(stack, jobs, srcs, sources) && frame.target !in jobs && Represents(sources, frame.source, job.src)
    ensures StackHolds(stack + [frame], jobs[frame.target := job], srcs + [job.src], sources)
    ensures Pending(srcs + [job.src]) == Pending(srcs) + Size(job.src)
  {
    var stack', jobs' := stack + [frame], jobs[frame.target := job];
    assert stack'[|stack|] == frame;
    assert (srcs + [job.src])[..|srcs|] == srcs;
    forall o | o in jobs'
      ensures exists i :: 0 <= i < |stack'| && stack'[i].target == o
    {
      if o != frame.target {
        var i :| 0 <= i < |stack| && stack[i].target == o;
        assert stack'[i].target == o;
      }
    }
  }

  /** All but the `n`-th. */
  function Without<T>(s: seq<T>, n: nat): (r: seq<T>)
    requires n < |s|
    ensures |r| == |s| - 1 && forall i | 0 <= i < |r| :: r[i] == s[if i < n then i else i + 1]
  {
    s[..n] + s[n + 1..]
  }

  lemma {:induction false} PendingWithout(srcs: seq<Tree>, n: nat)
    requires n < |srcs|
    ensures Pending(srcs) == Pending(Without(srcs, n)) + Size(srcs[n])
  {
    var last := |srcs| - 1;
    if n < last {
      PendingWithout(srcs[..last], n);
      assert Without(srcs, n)[..last - 1] == Without(srcs[..last], n);
    } else {
      assert Without(srcs, n) == srcs[..last];
    }
  }

  /** Any frame may leave the stack. */
  lemma StackTake(stack: seq<Frame>, jobs: Jobs, srcs: seq<Tree>, sources: Heap, n: nat)
    requires StackHolds(stack, jobs, srcs, sources) && n < |stack|
    ensures StackHolds(Without(stack, n), jobs - {stack[n].target}, Without(srcs, n), sources)
  {
    var rest := Without(stack, n);
    forall o | o in jobs - {stack[n].target}
      ensures exists i :: 0 <= i < |rest| && rest[i].target == o
    {
      var i :| 0 <= i < |stack| && stack[i].target == o;
      assert i < n ==> rest[i].target == o;
      assert i > n ==> rest[i - 1].target == o;
    }
  }

  /** The merge between two frames of the stack. */
  ghost predicate Between(w: Work, stack: seq<Frame>, root: PlainObject, sources: Heap) {
    && w.h.Keys !! sources.Keys && w.done <= w.h.Keys
    && Working(w.h, w.want, root, w.jobs, w.done)
    && StackHolds(stack, w.jobs, w.srcs, sources)
  }

  /** The target structure while `o` is merged, the keys in `left` to come. */
  ghost predicate Inside(w: Work, root: PlainObject, o: PlainObject, plan: Plan, left: set<string>) {
    w.done <= w.h.Keys && Merging(w.h, w.want, root, w.jobs, w.done, o, plan, left)
  }

  /** The merge of `frame` between two keys, those in `left` to come. */
  ghost predicate Within(w: Work, stack: seq<Frame>, root: PlainObject, sources: Heap, frame: Frame, plan: Plan,
                         left: set<string>)
  {
    && w.h.Keys !! sources.Keys
    && Represents(sources, frame.source, plan.src)
    && Inside(w, root, frame.target, plan, left)
    && StackHolds(stack, w.jobs, w.srcs, sources)
  }

  /** A source value and the tree at its key. */
  lemma SourceValue(sources: Heap, source: PlainObject, src: Tree, k: string)
    requires Represents(sources, source, src) && k in src.fields
    ensures k in sources[source]
    ensures k in Taken(src) <==> !IsSkipped(k) && !sources[source][k].Undefined?
    ensures sources[source][k].Atom? ==> src.fields[k] == Leaf(sources[source][k].id)
    ensures sources[source][k].Obj? ==> src.fields[k].Node? && Represents(sources, sources[source][k].object_, src.fields[k])
  {
    if sources[source][k].Obj? {
      assert Represents(sources, sources[source][k].object_, src.fields[k]);
    }
  }

  /** The target never holds an undefined value. */
  lemma TargetValue(h: Heap, want: map<PlainObject, Tree>, o: PlainObject, plan: Plan, left: set<string>, k: string)
    requires o in h && o in want && Halfway(h, want, o, plan, left) && k in h[o]
    ensures !h[o][k].Undefined?
  {
    assert Fits(want, h[o][k], Mid(plan.base, want[o], left).fields[k]);
  }

  /** The work after the child `c` of the target structure `h` got a job of its own. */
  ghost function Queued(w: Work, h: Heap, c: PlainObject, job: Plan): Work {
    Work(h, w.want[c := Merge(job.base, job.src)], w.jobs[c := job], w.done, w.srcs + [job.src])
  }

  /** Both values are objects: the target's child waits, the heap stays as it is. */
  lemma Descend(w: Work, root: PlainObject, o: PlainObject, plan: Plan, left: set<string>, k: string)
    requires Inside(w, root, o, plan, left) && k in left && k in Taken(plan.src)
    requires plan.src.fields[k].Node? && k in w.h[o] && w.h[o][k].Obj?
    ensures var c := w.h[o][k].object_;
            && c in w.want && root in w.want && c != root && c !in w.jobs
            && Inside(Queued(w, w.h, c, Plan(w.want[c], plan.src.fields[k])), root, o, plan, left - {k})
  {
    ChildFound(w.h, w.want, root, w.jobs, w.done, o, plan, left, k);
    DescendKey(w.h, w.want, root, w.jobs, w.done, o, plan, left, k);
  }

  /** The source value is an object, the target's is not: the new object `c` takes its place. */
  lemma Create(w: Work, root: PlainObject, o: PlainObject, plan: Plan, left: set<string>, k: string, c: PlainObject)
    requires Inside(w, root, o, plan, left) && k in left && k in Taken(plan.src) && c !in w.h
    requires plan.src.fields[k].Node? && !(k in w.h[o] && w.h[o][k].Obj?)
    ensures root in w.want && c != root && c !in w.jobs
    ensures Inside(Queued(w, Grown(w.h, o, k, c), c, Plan(EMPTY, plan.src.fields[k])), root, o, plan, left - {k})
  {
    if k in w.h[o] {
      TargetValue(w.h, w.want, o, plan, left, k);
    }
    CreateKey(w.h, w.want, root, w.jobs, w.done, o, plan, left, k, c);
  }

  /** The child `c` joins the stack. */
  lemma Push(w: Work, w': Work, stack: seq<Frame>, root: PlainObject, sources: Heap, frame: Frame, plan: Plan,
             left: set<string>, k: string, c: PlainObject, src: PlainObject, job: Plan)
    requires Within(w, stack, root, sources, frame, plan, left) && k in left
    requires job.src == plan.src.fields[k] && Represents(sources, src, job.src)
    requires c !in w.jobs && root in w.want && c != root
    requires w' == Queued(w, w'.h, c, job) && w'.h.Keys !! sources.Keys && Inside(w', root, frame.target, plan, left - {k})
    ensures Within(w', stack + [Frame(c, src)], root, sources, frame, plan, left - {k})
    ensures root in w'.want && w'.want[root] == w.want[root]
    ensures Pending(w'.srcs) == Pending(w.srcs) + Size(plan.src.fields[k])
  {
    StackPush(stack, w.jobs, w.srcs, sources, Frame(c, src), job);
  }

  /** Nothing points at the root, so no object sees that another tree is wanted of it. */
  lemma StartReads(h: Heap, want: map<PlainObject, Tree>, root: PlainObject, t: Tree, o: PlainObject)
    requires Settled(h, want, root) && o in h
    ensures Reads(h, want[root := t], o, want[o])
  {
    ReadsKept(h, want, h, want[root := t], o, want[o]);
  }

  lemma StartOthers(h: Heap, want: map<PlainObject, Tree>, root: PlainObject, t: Tree)
    requires Settled(h, want, root)
    ensures OthersRead(h, want[root := t], {root})
  {
    forall o | o in h && o != root
      ensures Reads(h, want[root := t], o, want[o])
    {
      StartReads(h, want, root, t, o);
    }
  }

  lemma StartUntouched(h: Heap, root: PlainObject, job: Plan)
    requires TreeShaped(h, root)
    ensures AllUntouched(h, map[root := job], {})
  {
  }

  /** So a job may be opened there. */
  lemma StartWorking(h: Heap, want: map<PlainObject, Tree>, root: PlainObject, src: Tree)
    requires Settled(h, want, root) && src.Node?
    ensures Working(h, want[root := Merge(want[root], src)], root, map[root := Plan(want[root], src)], {})
  {
    var t, job := Merge(want[root], src), Plan(want[root], src);
    MergeField(want[root], src, "");
    StartReads(h, want, root, t, root);
    StartOthers(h, want, root, t);
    StartUntouched(h, root, job);
    DescendShaped(h, want, root, root, t);
    assert map[root := job].Keys == {root};
  }

  /** The stack starts with the two objects of the call. */
  lemma Start(h: Heap, want: map<PlainObject, Tree>, root: PlainObject, source: PlainObject, src: Tree, sources: Heap)
    requires Settled(h, want, root) && h.Keys !! sources.Keys && Represents(sources, source, src)
    ensures var job := Plan(want[root], src);
            Between(Work(h, want[root := Merge(job.base, job.src)], map[root := job], {}, [src]), [Frame(root, source)],
                    root, sources)
  {
    StartWorking(h, want, root, src);
    assert [Frame(root, source)][0].target == root;
  }

  /** The work after the frame at `n` left the stack. */
  ghost function Taking(w: Work, stack: seq<Frame>, n: nat): Work
    requires n < |stack| && n < |w.srcs|
  {
    var o := stack[n].target;
    Work(w.h, w.want, w.jobs - {o}, w.done + {o}, Without(w.srcs, n))
  }

  lemma Take(w: Work, stack: seq<Frame>, root: PlainObject, sources: Heap, n: nat)
    requires Between(w, stack, root, sources) && n < |stack|
    ensures var o := stack[n].target;
            && o in w.jobs && o in w.h && w.jobs[o].src.Node?
            && Within(Taking(w, stack, n), Without(stack, n), root, sources, stack[n], w.jobs[o], w.jobs[o].src.fields.Keys)
            && Pending(w.srcs) == Pending(Without(w.srcs, n)) + Size(w.jobs[o].src)
  {
    StackTake(stack, w.jobs, w.srcs, sources, n);
    PendingWithout(w.srcs, n);
    TakeFrame(w.h, w.want, root, w.jobs, w.done, stack[n].target);
  }

  lemma Finish(w: Work, stack: seq<Frame>, root: PlainObject, sources: Heap, frame: Frame, plan: Plan)
    requires Within(w, stack, root, sources, frame, plan, {})
    ensures Between(w, stack, root, sources)
  {
    FinishObject(w.h, w.want, root, w.jobs, w.done, frame.target, plan);
  }

  /** An empty stack leaves no job, so everything reads as wanted. */
  lemma AllMerged(w: Work, root: PlainObject, sources: Heap)
    requires Between(w, [], root, sources)
    ensures Settled(w.h, w.want, root)
  {
    assert w.jobs == map[];
  }

  // ------------------------------------------------------------------ the code

  /** The target structure only grew, and the tree wanted of the root is the same. */
  ghost predicate Since(before: Work, w: Work, root: PlainObject) {
    && before.h.Keys <= w.h.Keys
    && root in before.want && root in w.want && w.want[root] == before.want[root]
  }

  /** Only new objects joined the structure. */
  twostate predicate Newer(before: Heap, new h: Heap) {
    before.Keys <= h.Keys && forall o | o in h && o !in before :: fresh(o)
  }

  method Store(o: PlainObject, k: string, v: Val, ghost h: Heap, ghost sources: Heap)
    requires o in h && h.Keys !! sources.Keys && Mirrors(h) && Mirrors(sources)
    modifies o
    ensures Mirrors(Put(h, o, k, v)) && Mirrors(sources)
  {
    o.props := o.props[k := v];
  }

  method StoreNew(o: PlainObject, k: string, ghost h: Heap, ghost sources: Heap) returns (c: PlainObject)
    requires o in h && h.Keys !! sources.Keys && Mirrors(h) && Mirrors(sources)
    modifies o
    ensures fresh(c) && c !in h && c !in sources
    ensures Mirrors(Grown(h, o, k, c)) && Mirrors(sources)
  {
    c := new PlainObject();
    o.props := o.props[k := Obj(c)];
  }

  /** One key of a frame's source. */
  method MergeKey(frame: Frame, k: string, stack: seq<Frame>, ghost w: Work, ghost root: PlainObject,
                  ghost sources: Heap, ghost plan: Plan, ghost left: set<string>)
    returns (stack': seq<Frame>, ghost w': Work)
    requires Within(w, stack, root, sources, frame, plan, left) && k in left
    requires Mirrors(w.h) && Mirrors(sources)
    modifies frame.target
    ensures Within(w', stack', root, sources, frame, plan, left - {k})
    ensures Mirrors(w'.h) && Mirrors(sources)
    ensures Since(w, w', root) && Newer(w.h, w'.h)
    ensures left <= plan.src.fields.Keys
    ensures Pending(w'.srcs) + FieldsSize(plan.src, left - {k}) <= Pending(w.srcs) + FieldsSize(plan.src, left)
  {
    stack', w' := stack, w;
    FieldsSizePick(plan.src, left, k);
    SourceValue(sources, frame.source, plan.src, k);
    var o, srcVal := frame.target, frame.source.props[k];
    if IsSkipped(k) || srcVal.Undefined? {
      SkipKey(w.h, w.want, root, w.jobs, w.done, o, plan, left, k);
    } else if srcVal.Obj? && k in o.props && o.props[k].Obj? {
      var c := o.props[k].object_;
      Descend(w, root, o, plan, left, k);
      stack' := stack + [Frame(c, srcVal.object_)];
      ghost var job := Plan(w.want[c], plan.src.fields[k]);
      w' := Queued(w, w.h, c, job);
      Push(w, w', stack, root, sources, frame, plan, left, k, c, srcVal.object_, job);
    } else if srcVal.Obj? {
      var c := StoreNew(o, k, w.h, sources);
      Create(w, root, o, plan, left, k, c);
      stack' := stack + [Frame(c, srcVal.object_)];
      ghost var job := Plan(EMPTY, plan.src.fields[k]);
      w' := Queued(w, Grown(w.h, o, k, c), c, job);
      Push(w, w', stack, root, sources, frame, plan, left, k, c, srcVal.object_, job);
    } else {
      AssignKey(w.h, w.want, root, w.jobs, w.done, o, plan, left, k, srcVal.id);
      Store(o, k, srcVal, w.h, sources);
      w' := w.(h := Put(w.h, o, k, srcVal));
    }
  }

  /** One frame: the keys of its source in any order. */
  method MergeFrame(frame: Frame, stack: seq<Frame>, ghost w: Work, ghost root: PlainObject, ghost sources: Heap,
                    ghost plan: Plan)
    returns (stack': seq<Frame>, ghost w': Work)
    requires plan.src.Node? && Within(w, stack, root, sources, frame, plan, plan.src.fields.Keys)
    requires Mirrors(w.h) && Mirrors(sources)
    modifies frame.target
    ensures Between(w', stack', root, sources)
    ensures Mirrors(w'.h) && Mirrors(sources)
    ensures Since(w, w', root) && Newer(w.h, w'.h)
    ensures Pending(w'.srcs) < Pending(w.srcs) + Size(plan.src)
  {
    stack', w' := stack, w;
    var left := frame.source.props.Keys;
    assert left == plan.src.fields.Keys;
    while left != {}
      invariant left <= plan.src.fields.Keys
      invariant Within(w', stack', root, sources, frame, plan, left)
      invariant Mirrors(w'.h) && Mirrors(sources)
      invariant Since(w, w', root) && Newer(w.h, w'.h)
      invariant Pending(w'.srcs) + FieldsSize(plan.src, left) < Pending(w.srcs) + Size(plan.src)
      decreases left
    {
      var k :| k in left;
      stack', w' := MergeKey(frame, k, stack', w', root, sources, plan, left);
      left := left - {k};
    }
    Finish(w', stack', root, sources, frame, plan);
  }

  /** One turn of the loop, for the frame at `n`. */
  method MergeAt(n: nat, stack: seq<Frame>, ghost w: Work, ghost root: PlainObject, ghost sources: Heap)
    returns (stack': seq<Frame>, ghost w': Work)
    requires Between(w, stack, root, sources) && n < |stack|
    requires Mirrors(w.h) && Mirrors(sources)
    modifies stack[n].target
    ensures Between(w', stack', root, sources)
    ensures Mirrors(w'.h) && Mirrors(sources)
    ensures root in w.want ==> Since(w, w', root)
    ensures Newer(w.h, w'.h)
    ensures Pending(w'.srcs) < Pending(w.srcs)
  {
    var frame := stack[n];
    Take(w, stack, root, sources, n);
    ghost var plan := w.jobs[frame.target];
    stack', w' := MergeFrame(frame, Without(stack, n), Taking(w, stack, n), root, sources, plan);
  }

  /** Merges the tree of `source` into the structure below `target`, in place. */
  method MergeInto(target: PlainObject, source: PlainObject, ghost h: Heap, ghost want: map<PlainObject, Tree>,
                   ghost sources: Heap, ghost src: Tree)
    returns (ghost h': Heap, ghost want': map<PlainObject, Tree>)
    requires Settled(h, want, target) && Mirrors(h)
    requires Represents(sources, source, src) && Mirrors(sources) && h.Keys !! sources.Keys
    modifies h.Keys
    ensures Settled(h', want', target) && Mirrors(h') && want'[target] == Merge(want[target], src)
    ensures Mirrors(sources) && h.Keys <= h'.Keys && Newer(h, h') && h'.Keys !! sources.Keys
  {
    var stack := [Frame(target, source)];
    ghost var w := Work(h, want[target := Merge(want[target], src)], map[target := Plan(want[target], src)], {}, [src]);
    Start(h, want, target, source, src, sources);
    while stack != []
      invariant Between(w, stack, target, sources)
      invariant Mirrors(w.h) && Mirrors(sources)
      invariant h.Keys <= w.h.Keys && Newer(h, w.h)
      invariant target in w.want && w.want[target] == Merge(want[target], src)
      decreases Pending(w.srcs)
    {
      stack, w := MergeAt(|stack| - 1, stack, w, target, sources);
    }
    AllMerged(w, target, sources);
    h', want' := w.h, w.want;
  }

  /** The same with the pending frames taken in any order whatever: the result is the same tree. */
  method MergeIntoInAnyOrder(target: PlainObject, source: PlainObject, ghost h: Heap, ghost want: map<PlainObject, Tree>,
                             ghost sources: Heap, ghost src: Tree)
    returns (ghost h': Heap, ghost want': map<PlainObject, Tree>)
    requires Settled(h, want, target) && Mirrors(h)
    requires Represents(sources, source, src) && Mirrors(sources) && h.Keys !! sources.Keys
    modifies h.Keys
    ensures Settled(h', want', target) && Mirrors(h') && want'[target] == Merge(want[target], src)
    ensures Mirrors(sources) && h.Keys <= h'.Keys && Newer(h, h') && h'.Keys !! sources.Keys
  {
    var stack := [Frame(target, source)];
    ghost var w := Work(h, want[target := Merge(want[target], src)], map[target := Plan(want[target], src)], {}, [src]);
    Start(h, want, target, source, src, sources);
    while stack != []
      invariant Between(w, stack, target, sources)
      invariant Mirrors(w.h) && Mirrors(sources)
      invariant h.Keys <= w.h.Keys && Newer(h, w.h)
      invariant target in w.want && w.want[target] == Merge(want[target], src)
      decreases Pending(w.srcs)
    {
      var n: nat :| n < |stack|;
      stack, w := MergeAt(n, stack, w, target, sources);
    }
    AllMerged(w, target, sources);
    h', want' := w.h, w.want;
  }

  /** The result shows at every path the last word the sources have on it, is built of new objects
      only, and no source is changed. */
  method DeepMerge(sources: seq<PlainObject?>, ghost heap: Heap, ghost trees: seq<Option<Tree>>)
    returns (result: PlainObject, ghost h: Heap, ghost tree: Tree)
    requires |trees| == |sources| && Mirrors(heap)
    requires forall i | 0 <= i < |sources| :: sources[i] == null <==> trees[i].None?
    requires forall i | 0 <= i < |sources| && sources[i] != null :: Represents(heap, sources[i], trees[i].value)
    ensures fresh(h.Keys) && Mirrors(h) && Mirrors(heap)
    ensures Represents(h, result, tree) && Shows(tree, trees) && tree == MergeAll(trees)
  {
    result := new PlainObject();
    h := map[result := map[]];
    ghost var want: map<PlainObject, Tree> := map[result := EMPTY];
    for i := 0 to |sources|
      invariant fresh(h.Keys) && Mirrors(h) && Mirrors(heap) && h.Keys !! heap.Keys
      invariant Settled(h, want, result) && want[result] == MergeAll(trees[..i])
    {
      assert trees[..i + 1][..i] == trees[..i];
      if sources[i] != null {
        h, want := MergeInto(result, sources[i], h, want, heap, trees[i].value);
      }
    }
    assert trees[..|sources|] == trees;
    SettledRepresents(h, want, result, result);
    tree := MergeAll(trees);
    MergeAllShows(trees);
  }
}
