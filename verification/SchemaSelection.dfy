/** Which catalog objects a profile may use: the stored selection, and how it is reconciled with
    the catalog as it is now. */
module SchemaSelection {
  import opened Wrappers
  import opened Ordering
  import opened Seqs
  import C = SchemaCatalog
  import R = CatalogRelationships
  import Strings

  datatype Entry = Entry(id: string, kind: string, selected: bool)

  /** A stored selection. */
  datatype Scope = Scope(formatVersion: int, catalogVersion: int, fingerprint: string, objects: seq<Entry>)

  /** A hashed catalog, as far as selections look at it. */
  datatype Source = Source(formatVersion: int, fingerprint: string, objects: seq<C.Object>)

  datatype Selection = Selection(scope: Scope, selected: seq<Entry>, deselected: seq<Entry>, added: seq<Entry>,
                                 removed: seq<Entry>)

  datatype Error =
    | UnsupportedFormat
    | OtherCatalogVersion
    | DuplicatePrevious
    | EmptyAllowlist
    | RemovalNotConfirmed
    | AllConflictsWithInclude
    | NothingRequested
    | DuplicateEntries
    | DuplicateIdentities
    | EmptyIdentity
    | AmbiguousIdentity
    | UnknownIdentity
    | IncludedAndExcluded

  const FORMAT_VERSION := 1

  function EntryId(): Entry -> string { (e: Entry) => e.id }

  function IsSelected(): Entry -> bool { (e: Entry) => e.selected }

  function Offer(): C.Object -> Entry { (o: C.Object) => Entry(o.id, o.kind, false) }

  function Deselect(): Entry -> Entry { (e: Entry) => e.(selected := false) }

  /** The objects of the catalog by id, none selected. */
  function Available(leq: (string, string) -> bool, source: Source): seq<Entry> {
    Sort(Map(Offer(), source.objects), C.ById(EntryId(), leq))
  }

  function HasId(entries: seq<Entry>, id: string): bool {
    exists e | e in entries :: e.id == id
  }

  /** What a list stores for an id; the last entry counts. */
  function Stored(entries: seq<Entry>, id: string): Option<Entry> {
    if entries == [] then None
    else if entries[|entries| - 1].id == id then Some(entries[|entries| - 1])
    else Stored(entries[..|entries| - 1], id)
  }

  function WasSelected(entries: seq<Entry>, id: string): bool {
    Stored(entries, id).Some? && Stored(entries, id).value.selected
  }

  function Unknown(entries: seq<Entry>): Entry -> bool {
    (e: Entry) => !HasId(entries, e.id)
  }

  function FlagBy(previous: seq<Entry>): Entry -> Entry {
    (e: Entry) => e.(selected := WasSelected(previous, e.id))
  }

  function FlagIn(ids: set<string>): Entry -> Entry {
    (e: Entry) => e.(selected := e.id in ids)
  }

  function Validate(scope: Scope, source: Source): Option<Error> {
    if scope.formatVersion != FORMAT_VERSION then Some(UnsupportedFormat)
    else if scope.catalogVersion != source.formatVersion then Some(OtherCatalogVersion)
    else if C.FirstDuplicate(Map(EntryId(), scope.objects)).Some? then Some(DuplicatePrevious)
    else None
  }

  /** The selection of flagged objects, compared with what was stored before. */
  function Select(leq: (string, string) -> bool, source: Source, previous: Option<seq<Entry>>, objects: seq<Entry>): Selection {
    var available := Available(leq, source);
    var before := if previous.Some? then previous.value else [];
    Selection(Scope(FORMAT_VERSION, source.formatVersion, source.fingerprint, objects),
              Filter(IsSelected(), objects), Filter(Not(IsSelected()), objects),
              if previous.None? then [] else Map(Deselect(), Filter(Unknown(before), available)),
              Sort(Filter(Unknown(available), before), C.ById(EntryId(), leq)))
  }

  /** A stored selection applied to the catalog as it is now. */
  function Reconcile(leq: (string, string) -> bool, source: Source, scope: Scope): Result<Selection, Error> {
    var invalid := Validate(scope, source);
    if invalid.Some? then Err(invalid.value)
    else
      var objects := Map(FlagBy(scope.objects), Available(leq, source));
      if Filter(IsSelected(), objects) == [] then Err(EmptyAllowlist)
      else Ok(Select(leq, source, Some(scope.objects), objects))
  }

  // ------------------------------------------------------------ new selections

  datatype Request =
    | Interactive(review: (seq<Entry>, seq<Entry>, bool) -> (seq<string>, bool))
    | Direct(includes: Option<seq<string>>, excludes: Option<seq<string>>, all: bool)

  function EndsWith(text: string, tail: string): bool {
    |tail| <= |text| && text[|text| - |tail|..] == tail
  }

  function NamedShort(name: string): Entry -> bool {
    (e: Entry) => EndsWith(e.id, "." + name)
  }

  /** A full id, or the unqualified name of exactly one object. */
  function ResolveIdentity(trim: string -> string, identity: string, available: seq<Entry>): (r: Result<string, Error>)
    ensures r.Ok? ==> HasId(available, r.value)
    ensures trim(identity) != "" && HasId(available, trim(identity)) ==> r == Ok(trim(identity))
    ensures r.Ok? && r.value != trim(identity) ==>
              '.' !in trim(identity) && forall e | e in available && EndsWith(e.id, "." + trim(identity)) :: e.id == r.value
  {
    var trimmed := trim(identity);
    if trimmed == "" then Err(EmptyIdentity)
    else if HasId(available, trimmed) then Ok(trimmed)
    else if '.' in trimmed then Err(UnknownIdentity)
    else
      var matches := Filter(NamedShort(trimmed), available);
      if |matches| > 1 then Err(AmbiguousIdentity)
      else if |matches| == 1 then
        assert matches[0] in matches;
        Ok(matches[0].id)
      else Err(UnknownIdentity)
  }

  function ResolveAll(trim: string -> string, requested: seq<string>, available: seq<Entry>): (r: Result<seq<string>, Error>)
    ensures r.Ok? ==> |r.value| == |requested| && forall i | 0 <= i < |r.value| :: HasId(available, r.value[i])
  {
    if requested == [] then Ok([])
    else
      var n := |requested| - 1;
      var before :- ResolveAll(trim, requested[..n], available);
      var last :- ResolveIdentity(trim, requested[n], available);
      Ok(before + [last])
  }

  function ToSet(s: seq<string>): set<string> {
    set x | x in s
  }

  function ResolveIdentities(trim: string -> string, requested: seq<string>, available: seq<Entry>)
    : (r: Result<set<string>, Error>)
    ensures r.Ok? ==> forall id | id in r.value :: HasId(available, id)
  {
    if C.FirstDuplicate(requested).Some? then Err(DuplicateEntries)
    else
      var resolved :- ResolveAll(trim, requested, available);
      if C.FirstDuplicate(resolved).Some? then Err(DuplicateIdentities)
      else Ok(ToSet(resolved))
  }

  function AllIds(available: seq<Entry>): set<string> {
    set e | e in available :: e.id
  }

  /** The ids a direct request asks for. */
  function Requested(trim: string -> string, request: Request, available: seq<Entry>): (r: Result<set<string>, Error>)
    requires request.Direct?
    ensures r.Ok? ==> r.value <= AllIds(available)
  {
    if request.all && request.includes.Some? then Err(AllConflictsWithInclude)
    else if !request.all && request.includes.None? && request.excludes.None? then Err(NothingRequested)
    else
      var included :- if request.all || request.includes.None? then Ok(AllIds(available))
                      else ResolveIdentities(trim, request.includes.value, available);
      var excluded :- ResolveIdentities(trim, if request.excludes.Some? then request.excludes.value else [], available);
      if request.includes.Some? && included * excluded != {} then Err(IncludedAndExcluded)
      else Ok(included - excluded)
  }

  /** The values that occur twice. */
  ghost predicate OccursTwice(values: seq<string>, x: string) {
    exists i, j :: 0 <= i < j < |values| && values[i] == values[j] == x
  }

  /** `duplicates`: the values that occur twice, gathered with two sets and sorted. */
  method Duplicates(values: seq<string>) returns (twice: seq<string>)
    ensures forall x :: x in twice <==> OccursTwice(values, x)
    ensures Sorted(twice, Strings.DefaultOrder()) && AllDifferent(twice)
  {
    var seen: set<string>, repeated: set<string> := {}, {};
    for n := 0 to |values|
      invariant forall x :: x in seen <==> x in values[..n]
      invariant forall x :: x in repeated <==> OccursTwice(values[..n], x)
    {
      TwiceNext(values, n);
      if values[n] in seen {
        repeated := repeated + {values[n]};
      }
      seen := seen + {values[n]};
    }
    TakeAll(values);
    twice := Strings.SortKeys(repeated);
    Strings.SortedKeysSort(repeated);
    Strings.SortedKeysDiffer(repeated);
    assert forall x :: x in twice <==> x in multiset(twice);
  }

  lemma TwiceNext(values: seq<string>, n: nat)
    requires n < |values|
    ensures forall x :: OccursTwice(values[..n + 1], x) <==>
                        OccursTwice(values[..n], x) || (x == values[n] && x in values[..n])
  {
    var front, all := values[..n], values[..n + 1];
    forall x
      ensures OccursTwice(all, x) <==> OccursTwice(front, x) || (x == values[n] && x in front)
    {
      if OccursTwice(all, x) {
        var i, j :| 0 <= i < j < |all| && all[i] == all[j] == x;
        assert front[i] == x;
        if j < n {
          assert front[j] == x;
        }
      }
      if OccursTwice(front, x) {
        var i, j :| 0 <= i < j < |front| && front[i] == front[j] == x;
        assert all[i] == all[j] == x;
      }
      if x == values[n] && x in front {
        var i :| 0 <= i < |front| && front[i] == x;
        assert all[i] == all[n] == x;
      }
    }
  }

  /** A direct request: excluded ids are deleted from the included ones one by one. */
  method ResolveNonInteractive(trim: string -> string, request: Request, available: seq<Entry>)
    returns (r: Result<set<string>, Error>)
    requires request.Direct?
    ensures r == Requested(trim, request, available)
  {
    if request.all && request.includes.Some? {
      return Err(AllConflictsWithInclude);
    }
    if !request.all && request.includes.None? && request.excludes.None? {
      return Err(NothingRequested);
    }
    var included := if request.all || request.includes.None? then Ok(AllIds(available))
                    else ResolveIdentities(trim, request.includes.value, available);
    if included.Err? {
      return Err(included.error);
    }
    var excluded := ResolveIdentities(trim, if request.excludes.Some? then request.excludes.value else [], available);
    if excluded.Err? {
      return Err(excluded.error);
    }
    if request.includes.Some? && included.value * excluded.value != {} {
      return Err(IncludedAndExcluded);
    }
    var kept, left := included.value, excluded.value;
    while left != {}
      invariant left <= excluded.value && kept == included.value - (excluded.value - left)
      decreases left
    {
      var id :| id in left;
      kept := kept - {id};
      left := left - {id};
    }
    assert kept == included.value - excluded.value;
    r := Ok(kept);
  }

  /** What is shown for an interactive choice: everything on a first run, otherwise what was selected. */
  function Shown(previous: Option<seq<Entry>>): C.Object -> Entry {
    (o: C.Object) => Entry(o.id, o.kind, previous.None? || WasSelected(previous.value, o.id))
  }

  function Chosen(trim: string -> string, leq: (string, string) -> bool, source: Source, previous: Option<seq<Entry>>,
                  request: Request): Result<set<string>, Error>
  {
    var available := Available(leq, source);
    match request
    case Interactive(review) =>
      var removed := Sort(Filter(Unknown(available), if previous.Some? then previous.value else []), C.ById(EntryId(), leq));
      var (selected, confirmed) := review(Map(Shown(previous), source.objects), removed, previous.None?);
      if removed != [] && !confirmed then Err(RemovalNotConfirmed)
      else ResolveIdentities(trim, selected, available)
    case Direct(_, _, _) => Requested(trim, request, available)
  }

  /** A new selection, made interactively or on the command line. */
  function Resolve(trim: string -> string, leq: (string, string) -> bool, source: Source, previous: Option<Scope>,
                   request: Request): Result<Selection, Error>
  {
    if previous.Some? && Validate(previous.value, source).Some? then Err(Validate(previous.value, source).value)
    else
      var before := if previous.Some? then Some(previous.value.objects) else None;
      var ids :- Chosen(trim, leq, source, before, request);
      if ids == {} then Err(EmptyAllowlist)
      else Ok(Select(leq, source, before, Map(FlagIn(ids), Available(leq, source))))
  }

  // ------------------------------------------------------------------ lemmas

  /** Catalog objects have different ids. */
  ghost predicate Identified(source: Source) {
    AllDifferent(Map(C.ObjectKey(), source.objects))
  }

  lemma {:induction false} StoredMeans(entries: seq<Entry>, id: string)
    ensures Stored(entries, id).Some? <==> HasId(entries, id)
    ensures Stored(entries, id).Some? ==> Stored(entries, id).value in entries && Stored(entries, id).value.id == id
  {
    if entries != [] {
      StoredMeans(entries[..|entries| - 1], id);
      assert entries == entries[..|entries| - 1] + [entries[|entries| - 1]];
    }
  }

  /** With different ids, an entry of the list is what the list stores. */
  lemma StoredIsEntry(entries: seq<Entry>, e: Entry)
    requires AllDifferent(Map(EntryId(), entries)) && e in entries
    ensures Stored(entries, e.id) == Some(e)
  {
    StoredMeans(entries, e.id);
    var i :| 0 <= i < |entries| && entries[i] == e;
    var j :| 0 <= j < |entries| && entries[j] == Stored(entries, e.id).value;
    assert Map(EntryId(), entries)[i] == Map(EntryId(), entries)[j];
  }

  lemma OfferedIds(source: Source, offered: seq<Entry>, available: seq<Entry>)
    requires offered == Map(Offer(), source.objects) && multiset(available) == multiset(offered)
    ensures forall e | e in available :: !e.selected
    ensures forall id :: HasId(available, id) <==> exists o | o in source.objects :: o.id == id
  {
    forall e
      ensures e in available <==> e in offered
    {
      InBoth(available, offered, e);
    }
    forall o | o in source.objects
      ensures Offer()(o) in offered
    {
      var i :| 0 <= i < |source.objects| && source.objects[i] == o;
      assert offered[i] == Offer()(o);
    }
    forall e | e in offered
      ensures exists o | o in source.objects :: e == Offer()(o)
    {
      var i :| 0 <= i < |offered| && offered[i] == e;
      assert source.objects[i] in source.objects;
    }
    forall id | exists o | o in source.objects :: o.id == id
      ensures HasId(available, id)
    {
      var o :| o in source.objects && o.id == id;
      assert Offer()(o) in available;
    }
  }

  /** The available entries are the catalog's objects, once each. */
  lemma AvailableIds(leq: (string, string) -> bool, source: Source)
    requires Orders(leq) && Identified(source)
    ensures AllDifferent(Map(EntryId(), Available(leq, source)))
    ensures multiset(Available(leq, source)) == multiset(Map(Offer(), source.objects))
    ensures forall id :: HasId(Available(leq, source), id) <==> exists o | o in source.objects :: o.id == id
  {
    var offered := Map(Offer(), source.objects);
    R.IdRanks(EntryId(), leq);
    SortSorts(offered, C.ById(EntryId(), leq));
    assert Map(EntryId(), offered) == Map(C.ObjectKey(), source.objects);
    R.DifferentPermuted(EntryId(), offered, Available(leq, source));
    OfferedIds(source, offered, Available(leq, source));
  }

  /** Flags as a test on ids. */
  ghost predicate Flagged(entries: seq<Entry>, flagged: seq<Entry>, test: string -> bool) {
    |flagged| == |entries| && forall i | 0 <= i < |entries| :: flagged[i] == entries[i].(selected := test(entries[i].id))
  }

  lemma FlaggedIds(entries: seq<Entry>, flagged: seq<Entry>, test: string -> bool)
    requires Flagged(entries, flagged, test)
    ensures Map(EntryId(), flagged) == Map(EntryId(), entries)
    ensures forall id :: HasId(flagged, id) <==> HasId(entries, id)
  {
    forall id
      ensures HasId(flagged, id) <==> HasId(entries, id)
    {
      if HasId(flagged, id) {
        var e :| e in flagged && e.id == id;
        var i :| 0 <= i < |flagged| && flagged[i] == e;
        assert entries[i] in entries && entries[i].id == id;
      }
      if HasId(entries, id) {
        var e :| e in entries && e.id == id;
        var i :| 0 <= i < |entries| && entries[i] == e;
        assert flagged[i] in flagged && flagged[i].id == id;
      }
    }
  }

  /** Flagging the available entries by a list of them that is flagged gives that list. */
  lemma FlagAgain(available: seq<Entry>, flagged: seq<Entry>, test: string -> bool)
    requires Flagged(available, flagged, test) && AllDifferent(Map(EntryId(), available))
    ensures Map(FlagBy(flagged), available) == flagged
  {
    FlaggedIds(available, flagged, test);
    forall i | 0 <= i < |available|
      ensures FlagBy(flagged)(available[i]) == flagged[i]
    {
      assert flagged[i] in flagged;
      StoredIsEntry(flagged, flagged[i]);
    }
  }

  lemma NothingUnknown(entries: seq<Entry>, others: seq<Entry>)
    requires forall id :: HasId(entries, id) ==> HasId(others, id)
    ensures Filter(Unknown(others), entries) == []
  {
    forall e | e in entries
      ensures !Unknown(others)(e)
    {
      assert HasId(entries, e.id);
    }
    FilterNone(Unknown(others), entries);
  }

  /** A scope made of the available entries, however flagged, reconciles to itself: the same
      objects stay selected and deselected, and nothing is added or removed. */
  lemma FlaggedScopeIsStable(leq: (string, string) -> bool, source: Source, objects: seq<Entry>, test: string -> bool)
    requires Orders(leq) && Identified(source)
    requires Flagged(Available(leq, source), objects, test) && Filter(IsSelected(), objects) != []
    ensures var scope := Scope(FORMAT_VERSION, source.formatVersion, source.fingerprint, objects);
            Reconcile(leq, source, scope) ==
            Ok(Selection(scope, Filter(IsSelected(), objects), Filter(Not(IsSelected()), objects), [], []))
  {
    var available := Available(leq, source);
    AvailableIds(leq, source);
    FlaggedIds(available, objects, test);
    C.NoDuplicateMeans(Map(EntryId(), objects));
    FlagAgain(available, objects, test);
    NothingUnknown(available, objects);
    NothingUnknown(objects, available);
  }

  function WasSelectedIn(entries: seq<Entry>): string -> bool {
    (id: string) => WasSelected(entries, id)
  }

  function IsIn(ids: set<string>): string -> bool {
    (id: string) => id in ids
  }

  /** Reconciling the scope of a reconciled selection again returns it unchanged. */
  lemma ReconcileIsIdempotent(leq: (string, string) -> bool, source: Source, scope: Scope)
    requires Orders(leq) && Identified(source) && Reconcile(leq, source, scope).Ok?
    ensures var one := Reconcile(leq, source, scope).value;
            Reconcile(leq, source, one.scope) == Ok(Selection(one.scope, one.selected, one.deselected, [], []))
  {
    var objects := Map(FlagBy(scope.objects), Available(leq, source));
    FlaggedScopeIsStable(leq, source, objects, WasSelectedIn(scope.objects));
  }

  /** So does reconciling the scope of a newly resolved one, if it selects something. */
  lemma ResolveIsStable(trim: string -> string, leq: (string, string) -> bool, source: Source, previous: Option<Scope>,
                        request: Request)
    requires Orders(leq) && Identified(source) && Resolve(trim, leq, source, previous, request).Ok?
    ensures var one := Resolve(trim, leq, source, previous, request).value;
            && one.selected != []
            && Reconcile(leq, source, one.scope) == Ok(Selection(one.scope, one.selected, one.deselected, [], []))
  {
    var available := Available(leq, source);
    var before := if previous.Some? then Some(previous.value.objects) else None;
    var ids := Chosen(trim, leq, source, before, request).value;
    var objects := Map(FlagIn(ids), available);
    ChosenAreAvailable(trim, leq, source, before, request);
    SomeSelected(available, ids);
    FlaggedScopeIsStable(leq, source, objects, IsIn(ids));
  }

  lemma SomeSelected(available: seq<Entry>, ids: set<string>)
    requires ids != {} && forall id | id in ids :: HasId(available, id)
    ensures Filter(IsSelected(), Map(FlagIn(ids), available)) != []
  {
    var id :| id in ids;
    assert HasId(available, id);
    var e :| e in available && e.id == id;
    var i :| 0 <= i < |available| && available[i] == e;
    var objects := Map(FlagIn(ids), available);
    assert objects[i] in objects && IsSelected()(objects[i]);
    assert objects[i] in Filter(IsSelected(), objects);
  }

  lemma ChosenAreAvailable(trim: string -> string, leq: (string, string) -> bool, source: Source,
                           previous: Option<seq<Entry>>, request: Request)
    ensures var ids := Chosen(trim, leq, source, previous, request);
            ids.Ok? ==> forall id | id in ids.value :: HasId(Available(leq, source), id)
  {
  }

  /** Selected and deselected objects divide the catalog. */
  lemma SelectionDivides(leq: (string, string) -> bool, source: Source, previous: Option<seq<Entry>>, objects: seq<Entry>,
                         test: string -> bool)
    requires Orders(leq) && Identified(source) && Flagged(Available(leq, source), objects, test)
    ensures var s := Select(leq, source, previous, objects);
            && multiset(s.selected) + multiset(s.deselected) == multiset(s.scope.objects)
            && multiset(Map(EntryId(), s.scope.objects)) == multiset(Map(C.ObjectKey(), source.objects))
            && (forall e | e in s.selected :: e.selected) && (forall e | e in s.deselected :: !e.selected)
  {
    FilterDivides(IsSelected(), objects);
    AvailableIds(leq, source);
    FlaggedIds(Available(leq, source), objects, test);
    MapPermuted(EntryId(), Available(leq, source), Map(Offer(), source.objects));
    assert Map(EntryId(), Map(Offer(), source.objects)) == Map(C.ObjectKey(), source.objects);
  }

  /** After reconciling, an object is selected exactly when the stored selection selected it; so an
      object the stored selection does not know is never selected. */
  lemma ReconcileSelects(leq: (string, string) -> bool, source: Source, scope: Scope, id: string)
    requires Orders(leq) && Identified(source) && Reconcile(leq, source, scope).Ok?
    ensures var r := Reconcile(leq, source, scope).value;
            && (HasId(r.selected, id) <==> (exists o | o in source.objects :: o.id == id) && WasSelected(scope.objects, id))
            && (HasId(r.added, id) ==> !HasId(r.selected, id))
            && (HasId(r.removed, id) ==> !exists o | o in source.objects :: o.id == id)
  {
    var available := Available(leq, source);
    var objects := Map(FlagBy(scope.objects), available);
    AvailableIds(leq, source);
    FlaggedIds(available, objects, WasSelectedIn(scope.objects));
    StoredMeans(scope.objects, id);
    SelectedById(available, objects, WasSelectedIn(scope.objects), id);
    if HasId(Map(Deselect(), Filter(Unknown(scope.objects), available)), id) {
      AddedById(available, scope.objects, id);
    }
    if HasId(Sort(Filter(Unknown(available), scope.objects), C.ById(EntryId(), leq)), id) {
      RemovedById(leq, available, scope.objects, id);
    }
  }

  lemma SelectedById(available: seq<Entry>, objects: seq<Entry>, test: string -> bool, id: string)
    requires Flagged(available, objects, test)
    ensures HasId(Filter(IsSelected(), objects), id) <==> HasId(available, id) && test(id)
  {
    if HasId(Filter(IsSelected(), objects), id) {
      var e :| e in Filter(IsSelected(), objects) && e.id == id;
      var i :| 0 <= i < |objects| && objects[i] == e;
      assert available[i] in available && available[i].id == id;
    }
    if HasId(available, id) && test(id) {
      var e :| e in available && e.id == id;
      var i :| 0 <= i < |available| && available[i] == e;
      assert objects[i] in Filter(IsSelected(), objects) && objects[i].id == id;
    }
  }

  lemma AddedById(available: seq<Entry>, before: seq<Entry>, id: string)
    requires HasId(Map(Deselect(), Filter(Unknown(before), available)), id)
    ensures !HasId(before, id)
  {
    var unknown := Filter(Unknown(before), available);
    var added := Map(Deselect(), unknown);
    var e :| e in added && e.id == id;
    var i :| 0 <= i < |added| && added[i] == e;
    assert unknown[i] in unknown;
  }

  lemma RemovedById(leq: (string, string) -> bool, available: seq<Entry>, before: seq<Entry>, id: string)
    requires Orders(leq) && HasId(Sort(Filter(Unknown(available), before), C.ById(EntryId(), leq)), id)
    ensures !HasId(available, id)
  {
    var gone := Filter(Unknown(available), before);
    R.IdRanks(EntryId(), leq);
    SortSorts(gone, C.ById(EntryId(), leq));
    var e :| e in Sort(gone, C.ById(EntryId(), leq)) && e.id == id;
    InBoth(Sort(gone, C.ById(EntryId(), leq)), gone, e);
  }

  // ------------------------------------------------- what a selection reports

  /** The scope is of this format and this catalog and lists every object with its kind. */
  ghost predicate ListsCatalog(scope: Scope, source: Source) {
    && scope.formatVersion == 1 && scope.catalogVersion == source.formatVersion && scope.fingerprint == source.fingerprint
    && |scope.objects| == |source.objects|
    && (forall o | o in source.objects :: exists e | e in scope.objects :: e.id == o.id && e.kind == o.kind)
    && (forall e | e in scope.objects :: exists o | o in source.objects :: e.id == o.id && e.kind == o.kind)
  }

  /** New objects are those the stored list does not know, removed ones those the catalog does not. */
  ghost predicate Compares(s: Selection, source: Source, before: seq<Entry>) {
    && (forall e | e in s.added :: !e.selected)
    && (forall id :: HasId(s.added, id) <==> (exists o | o in source.objects :: o.id == id) && !HasId(before, id))
    && (forall e :: e in s.removed <==> e in before && !exists o | o in source.objects :: o.id == e.id)
  }

  lemma AvailableLists(leq: (string, string) -> bool, source: Source)
    requires Orders(leq)
    ensures |Available(leq, source)| == |source.objects|
    ensures forall e :: e in Available(leq, source) <==> exists o | o in source.objects :: e == Entry(o.id, o.kind, false)
  {
    var offered := Map(Offer(), source.objects);
    R.IdRanks(EntryId(), leq);
    SortSorts(offered, C.ById(EntryId(), leq));
    SameLength(offered, Available(leq, source));
    forall e
      ensures e in Available(leq, source) <==> exists o | o in source.objects :: e == Entry(o.id, o.kind, false)
    {
      InBoth(Available(leq, source), offered, e);
      InOffered(source.objects, e);
    }
  }

  lemma InOffered(objects: seq<C.Object>, e: Entry)
    ensures e in Map(Offer(), objects) <==> exists o | o in objects :: e == Entry(o.id, o.kind, false)
  {
    if o :| o in objects && e == Entry(o.id, o.kind, false) {
      var i :| 0 <= i < |objects| && objects[i] == o;
      assert Map(Offer(), objects)[i] == e;
    }
  }

  lemma FlaggedLists(leq: (string, string) -> bool, source: Source, objects: seq<Entry>, test: string -> bool)
    requires Orders(leq) && Flagged(Available(leq, source), objects, test)
    ensures ListsCatalog(Scope(1, source.formatVersion, source.fingerprint, objects), source)
  {
    var available := Available(leq, source);
    AvailableLists(leq, source);
    forall o | o in source.objects
      ensures exists e | e in objects :: e.id == o.id && e.kind == o.kind
    {
      assert Entry(o.id, o.kind, false) in available;
      var i :| 0 <= i < |available| && available[i] == Entry(o.id, o.kind, false);
      assert objects[i] in objects;
    }
    forall e | e in objects
      ensures exists o | o in source.objects :: e.id == o.id && e.kind == o.kind
    {
      var i :| 0 <= i < |objects| && objects[i] == e;
      assert available[i] in available;
    }
  }

  lemma SelectCompares(leq: (string, string) -> bool, source: Source, previous: seq<Entry>, objects: seq<Entry>)
    requires Orders(leq)
    ensures Compares(Select(leq, source, Some(previous), objects), source, previous)
  {
    var available := Available(leq, source);
    var s := Select(leq, source, Some(previous), objects);
    AvailableLists(leq, source);
    var fresh_, gone := Filter(Unknown(previous), available), Filter(Unknown(available), previous);
    R.IdRanks(EntryId(), leq);
    SortSorts(gone, C.ById(EntryId(), leq));
    forall id
      ensures HasId(s.added, id) <==> (exists o | o in source.objects :: o.id == id) && !HasId(previous, id)
    {
      AddedIds(fresh_, id);
      if o :| o in source.objects && o.id == id {
        assert Entry(o.id, o.kind, false) in available;
      }
    }
    forall e
      ensures e in s.removed <==> e in previous && !exists o | o in source.objects :: o.id == e.id
    {
      InBoth(s.removed, gone, e);
      if o :| o in source.objects && o.id == e.id {
        assert Entry(o.id, o.kind, false) in available;
      }
    }
  }

  lemma AddedIds(entries: seq<Entry>, id: string)
    ensures HasId(Map(Deselect(), entries), id) <==> HasId(entries, id)
    ensures forall e | e in Map(Deselect(), entries) :: !e.selected
  {
    if e :| e in entries && e.id == id {
      var i :| 0 <= i < |entries| && entries[i] == e;
      assert Map(Deselect(), entries)[i] in Map(Deselect(), entries);
    }
    if e :| e in Map(Deselect(), entries) && e.id == id {
      var i :| 0 <= i < |entries| && Map(Deselect(), entries)[i] == e;
      assert entries[i] in entries;
    }
  }

  /** Some object of the catalog was stored as selected. */
  ghost predicate SomeLeft(source: Source, scope: Scope) {
    exists o | o in source.objects :: WasSelected(scope.objects, o.id)
  }

  /** A stored selection is refused for another format or catalog version, for an id stored twice, and
      when nothing of it is left to select. */
  lemma ReconcileRefuses(leq: (string, string) -> bool, source: Source, scope: Scope)
    requires Orders(leq) && Identified(source)
    ensures Reconcile(leq, source, scope).Ok? <==>
            && scope.formatVersion == 1 && scope.catalogVersion == source.formatVersion
            && AllDifferent(Map(EntryId(), scope.objects)) && SomeLeft(source, scope)
  {
    C.NoDuplicateMeans(Map(EntryId(), scope.objects));
    SomethingSelected(leq, source, scope, Map(FlagBy(scope.objects), Available(leq, source)));
  }

  /** Otherwise the result lists the catalog and compares it with what was stored. */
  lemma ReconcileReports(leq: (string, string) -> bool, source: Source, scope: Scope)
    requires Orders(leq) && Identified(source) && Reconcile(leq, source, scope).Ok?
    ensures ListsCatalog(Reconcile(leq, source, scope).value.scope, source)
    ensures Compares(Reconcile(leq, source, scope).value, source, scope.objects)
  {
    var objects := Map(FlagBy(scope.objects), Available(leq, source));
    FlaggedLists(leq, source, objects, WasSelectedIn(scope.objects));
    SelectCompares(leq, source, scope.objects, objects);
  }

  lemma SomethingSelected(leq: (string, string) -> bool, source: Source, scope: Scope, objects: seq<Entry>)
    requires Orders(leq) && Identified(source) && objects == Map(FlagBy(scope.objects), Available(leq, source))
    ensures Filter(IsSelected(), objects) != [] <==> SomeLeft(source, scope)
  {
    var available := Available(leq, source);
    AvailableIds(leq, source);
    if o :| o in source.objects && WasSelected(scope.objects, o.id) {
      assert HasId(available, o.id);
      SelectedById(available, objects, WasSelectedIn(scope.objects), o.id);
    }
    if Filter(IsSelected(), objects) != [] {
      var e := Filter(IsSelected(), objects)[0];
      assert e in Filter(IsSelected(), objects);
      SelectedById(available, objects, WasSelectedIn(scope.objects), e.id);
    }
  }

  // ------------------------------------------------------ what is asked for

  /** The predicate holds there and nowhere else. */
  ghost predicate OnlyAt(p: Entry -> bool, entries: seq<Entry>, i: nat)
    requires i < |entries|
  {
    p(entries[i]) && forall j | 0 <= j < |entries| && j != i :: !p(entries[j])
  }

  /** The id is the name with a schema before it. */
  ghost predicate CalledShort(id: string, name: string) {
    exists schema :: id == schema + "." + name
  }

  lemma ShortMeans(e: Entry, name: string)
    ensures NamedShort(name)(e) <==> CalledShort(e.id, name)
  {
    var tail := "." + name;
    if EndsWith(e.id, tail) {
      assert e.id == e.id[..|e.id| - |tail|] + "." + name;
    }
    if schema :| e.id == schema + "." + name {
      assert e.id == schema + tail;
      assert e.id[|schema|..] == tail;
    }
  }

  /** Exactly one available object is so called without its schema. */
  ghost predicate OnlyShort(available: seq<Entry>, name: string, id: string) {
    exists i | 0 <= i < |available| ::
      && available[i].id == id && CalledShort(id, name)
      && forall j | 0 <= j < |available| && j != i :: !CalledShort(available[j].id, name)
  }

  lemma {:induction false} NoMatch(p: Entry -> bool, entries: seq<Entry>)
    requires forall i | 0 <= i < |entries| :: !p(entries[i])
    ensures Filter(p, entries) == []
  {
    if entries != [] {
      NoMatch(p, entries[..|entries| - 1]);
    }
  }

  lemma {:induction false} OneMatch(p: Entry -> bool, entries: seq<Entry>, i: nat)
    requires i < |entries| && OnlyAt(p, entries, i)
    ensures Filter(p, entries) == [entries[i]]
  {
    var n := |entries| - 1;
    if i < n {
      OneMatch(p, entries[..n], i);
    } else {
      NoMatch(p, entries[..n]);
    }
  }

  lemma {:induction false} FoundMatch(p: Entry -> bool, entries: seq<Entry>) returns (i: nat)
    requires |Filter(p, entries)| == 1
    ensures i < |entries| && OnlyAt(p, entries, i)
  {
    var n := |entries| - 1;
    if p(entries[n]) {
      i := n;
      forall j | 0 <= j < n
        ensures !p(entries[j])
      {
        assert entries[..n][j] in entries[..n];
        assert Filter(p, entries[..n]) == [];
      }
    } else {
      i := FoundMatch(p, entries[..n]);
    }
  }

  /** An identity is an available id, or else the unqualified name of exactly one available object;
      everything else is refused. */
  lemma IdentityMeans(trim: string -> string, identity: string, available: seq<Entry>, id: string)
    ensures var name := trim(identity);
            ResolveIdentity(trim, identity, available) == Ok(id) <==>
            name != "" &&
            if HasId(available, name) then id == name else '.' !in name && OnlyShort(available, name, id)
  {
    var short := NamedShort(trim(identity));
    forall e: Entry
      ensures short(e) <==> CalledShort(e.id, trim(identity))
    {
      ShortMeans(e, trim(identity));
    }
    if OnlyShort(available, trim(identity), id) {
      var i :| 0 <= i < |available| && available[i].id == id && OnlyAt(short, available, i);
      OneMatch(short, available, i);
    }
    if |Filter(short, available)| == 1 {
      var i := FoundMatch(short, available);
      OneMatch(short, available, i);
    }
  }

  /** The ids a list of identities names. */
  ghost predicate Named(trim: string -> string, identities: seq<string>, available: seq<Entry>, ids: set<string>) {
    forall id :: id in ids <==>
      exists i | 0 <= i < |identities| :: ResolveIdentity(trim, identities[i], available) == Ok(id)
  }

  lemma {:induction false} ResolvedAt(trim: string -> string, identities: seq<string>, available: seq<Entry>, i: nat)
    requires i < |identities| && ResolveAll(trim, identities, available).Ok?
    ensures ResolveIdentity(trim, identities[i], available) == Ok(ResolveAll(trim, identities, available).value[i])
  {
    if i < |identities| - 1 {
      ResolvedAt(trim, identities[..|identities| - 1], available, i);
    }
  }

  lemma {:induction false} ResolvedAll(trim: string -> string, identities: seq<string>, available: seq<Entry>)
    requires forall i | 0 <= i < |identities| :: ResolveIdentity(trim, identities[i], available).Ok?
    ensures ResolveAll(trim, identities, available).Ok?
  {
    if identities != [] {
      ResolvedAll(trim, identities[..|identities| - 1], available);
    }
  }

  /** A list of identities is refused when one is listed twice, is no identity, or names the same
      object as another. */
  lemma IdentitiesMean(trim: string -> string, identities: seq<string>, available: seq<Entry>)
    ensures ResolveIdentities(trim, identities, available).Ok? <==>
            && AllDifferent(identities)
            && (forall i | 0 <= i < |identities| :: ResolveIdentity(trim, identities[i], available).Ok?)
            && (forall i, j | 0 <= i < j < |identities| ::
                  ResolveIdentity(trim, identities[i], available) != ResolveIdentity(trim, identities[j], available))
    ensures ResolveIdentities(trim, identities, available).Ok? ==>
              Named(trim, identities, available, ResolveIdentities(trim, identities, available).value)
  {
    C.NoDuplicateMeans(identities);
    var resolved := ResolveAll(trim, identities, available);
    if forall i | 0 <= i < |identities| :: ResolveIdentity(trim, identities[i], available).Ok? {
      ResolvedAll(trim, identities, available);
    }
    if resolved.Ok? {
      C.NoDuplicateMeans(resolved.value);
      forall i | 0 <= i < |identities|
        ensures ResolveIdentity(trim, identities[i], available) == Ok(resolved.value[i])
      {
        ResolvedAt(trim, identities, available, i);
      }
    }
  }

  /** A direct request asks for all objects or for some, less the excluded ones; it must ask for
      something, not for all and for some, and not for what it excludes. */
  lemma DirectMeans(trim: string -> string, includes: Option<seq<string>>, excludes: Option<seq<string>>, all: bool,
                    available: seq<Entry>)
    ensures var less := if excludes.Some? then excludes.value else [];
            var included := if includes.Some? then ResolveIdentities(trim, includes.value, available)
                            else Ok(AllIds(available));
            var excluded := ResolveIdentities(trim, less, available);
            var asked := Requested(trim, Direct(includes, excludes, all), available);
            && (asked.Ok? <==>
                && !(all && includes.Some?) && (all || includes.Some? || excludes.Some?)
                && included.Ok? && excluded.Ok? && (includes.Some? ==> included.value * excluded.value == {}))
            && (asked.Ok? ==> asked.value == included.value - excluded.value)
  {
  }

  /** What an interactive choice is offered: every object, on a first run as selected, otherwise as
      it was stored. */
  ghost predicate Offers(shown: seq<Entry>, source: Source, previous: Option<seq<Entry>>) {
    && |shown| == |source.objects|
    && forall i | 0 <= i < |shown| ::
         && shown[i].id == source.objects[i].id && shown[i].kind == source.objects[i].kind
         && (shown[i].selected <==> previous == None || WasSelected(previous.value, shown[i].id))
  }

  /** An interactive choice names objects, and must confirm that stored ones are gone. */
  lemma InteractiveMeans(trim: string -> string, leq: (string, string) -> bool, source: Source,
                         previous: Option<seq<Entry>>, review: (seq<Entry>, seq<Entry>, bool) -> (seq<string>, bool))
    returns (shown: seq<Entry>, gone: seq<Entry>)
    requires Orders(leq)
    ensures Offers(shown, source, previous)
    ensures forall e :: e in gone <==>
              previous.Some? && e in previous.value && !exists o | o in source.objects :: o.id == e.id
    ensures var answer := review(shown, gone, previous.None?);
            Chosen(trim, leq, source, previous, Interactive(review)) ==
            if gone == [] || answer.1 then ResolveIdentities(trim, answer.0, Available(leq, source))
            else Err(RemovalNotConfirmed)
  {
    var before := if previous.Some? then previous.value else [];
    shown := Map(Shown(previous), source.objects);
    gone := Sort(Filter(Unknown(Available(leq, source)), before), C.ById(EntryId(), leq));
    SelectCompares(leq, source, before, []);
    assert gone == Select(leq, source, Some(before), []).removed;
  }

  function BeforeOf(previous: Option<Scope>): Option<seq<Entry>> {
    if previous.Some? then Some(previous.value.objects) else None
  }

  /** A new selection is refused for a stored one that is, for a choice that is, and for an empty
      choice. */
  lemma ResolveRefuses(trim: string -> string, leq: (string, string) -> bool, source: Source, previous: Option<Scope>,
                       request: Request)
    ensures var chosen := Chosen(trim, leq, source, BeforeOf(previous), request);
            Resolve(trim, leq, source, previous, request).Ok? <==>
            (previous.Some? ==> Validate(previous.value, source) == None) && chosen.Ok? && chosen.value != {}
  {
  }

  /** Otherwise it selects exactly what was chosen, lists the catalog, and compares it with a stored
      selection if there is one. */
  lemma ResolveSelects(trim: string -> string, leq: (string, string) -> bool, source: Source, previous: Option<Scope>,
                       request: Request)
    requires Orders(leq) && Identified(source) && Resolve(trim, leq, source, previous, request).Ok?
    ensures var chosen := Chosen(trim, leq, source, BeforeOf(previous), request);
            var s := Resolve(trim, leq, source, previous, request).value;
            && ListsCatalog(s.scope, source)
            && chosen.Ok? && (forall id :: HasId(s.selected, id) <==> id in chosen.value)
            && (if previous.Some? then Compares(s, source, previous.value.objects) else s.added == [] && s.removed == [])
  {
    var before := BeforeOf(previous);
    var ids := Chosen(trim, leq, source, before, request).value;
    var objects := Map(FlagIn(ids), Available(leq, source));
    ResolvedIs(trim, leq, source, previous, request);
    ChosenSelected(trim, leq, source, before, request);
    FlaggedLists(leq, source, objects, IsIn(ids));
    if previous.Some? {
      SelectCompares(leq, source, previous.value.objects, objects);
    } else {
      NothingBefore(leq, source, objects);
    }
  }

  lemma ResolvedIs(trim: string -> string, leq: (string, string) -> bool, source: Source, previous: Option<Scope>,
                   request: Request)
    requires Resolve(trim, leq, source, previous, request).Ok?
    ensures var chosen := Chosen(trim, leq, source, BeforeOf(previous), request);
            chosen.Ok? && Resolve(trim, leq, source, previous, request).value ==
                          Select(leq, source, BeforeOf(previous), Map(FlagIn(chosen.value), Available(leq, source)))
  {
  }

  lemma NothingBefore(leq: (string, string) -> bool, source: Source, objects: seq<Entry>)
    ensures Select(leq, source, None, objects).added == [] && Select(leq, source, None, objects).removed == []
  {
  }

  lemma ChosenSelected(trim: string -> string, leq: (string, string) -> bool, source: Source,
                       previous: Option<seq<Entry>>, request: Request)
    requires Orders(leq) && Identified(source) && Chosen(trim, leq, source, previous, request).Ok?
    ensures var ids := Chosen(trim, leq, source, previous, request).value;
            var objects := Map(FlagIn(ids), Available(leq, source));
            forall id :: HasId(Filter(IsSelected(), objects), id) <==> id in ids
  {
    var ids := Chosen(trim, leq, source, previous, request).value;
    var available := Available(leq, source);
    var objects := Map(FlagIn(ids), available);
    ChosenAreAvailable(trim, leq, source, previous, request);
    forall id
      ensures HasId(Filter(IsSelected(), objects), id) <==> id in ids
    {
      SelectedById(available, objects, IsIn(ids), id);
    }
  }

  /** A stored selection is valid for this format and this catalog version, when it lists no id twice. */
  lemma ValidMeans(scope: Scope, source: Source)
    ensures Validate(scope, source) ==
            if scope.formatVersion != 1 then Some(UnsupportedFormat)
            else if scope.catalogVersion != source.formatVersion then Some(OtherCatalogVersion)
            else if AllDifferent(Map(EntryId(), scope.objects)) then None
            else Some(DuplicatePrevious)
  {
    C.NoDuplicateMeans(Map(EntryId(), scope.objects));
  }
}
