/** The in-memory store that `core/testcase_manager.py` and
    `core/assertion_manager.py` both keep: a dict from module name to the
    list of records (each a dict) of that module. Lookup by name, the
    in-place update, the removal by name and the filtered listing sorted by
    `updated_at` are the same in both files and are written once here. */
module Records {
  import opened Wrappers
  import opened Json
  import opened Seqs
  import Text
  import Sorting

  /* ------------------------------------------------------------ lookups */

  /** `record['name'] == name` */
  predicate Named(o: Object, name: string) {
    Lookup(o, "name") == Some(Str(name))
  }

  /** Every record carries a `name` key, so comparing names never raises. */
  predicate AllNamed(rs: seq<Object>) {
    forall i :: 0 <= i < |rs| ==> HasKey(rs[i], "name")
  }

  /** The position of the first record called `name`: where the generator
      `next(r for r in records if r['name'] == name)` stops. */
  function FindNamed(rs: seq<Object>, name: string): (r: Option<nat>)
    ensures r.Some? ==> r.value < |rs| && Named(rs[r.value], name)
    ensures r.Some? ==> forall j :: 0 <= j < r.value ==> !Named(rs[j], name)
    ensures r.None? ==> forall j :: 0 <= j < |rs| ==> !Named(rs[j], name)
  {
    if rs == [] then None
    else if Named(rs[0], name) then Some(0)
    else match FindNamed(rs[1..], name)
      case None => None
      case Some(k) => Some(k + 1)
  }

  /** `[r for r in records if r['name'] != name]` */
  function DropNamed(rs: seq<Object>, name: string): (r: seq<Object>)
    ensures forall o :: o in r <==> o in rs && !Named(o, name)
    ensures AllNamed(rs) ==> AllNamed(r)
  {
    if rs == [] then []
    else
      var rest := DropNamed(rs[1..], name);
      assert forall o :: o in rs[1..] ==> o in rs;
      if Named(rs[0], name) then rest else [rs[0]] + rest
  }

  /** Removing the records called `name` keeps every other record, in
      order: the result is what is left of the list once they are taken
      out, and nothing else. */
  lemma {:induction false} DropNamedCount(rs: seq<Object>, name: string)
    ensures |DropNamed(rs, name)| + |FindAll(rs, name)| == |rs|
    ensures multiset(DropNamed(rs, name)) + multiset(FindAll(rs, name)) == multiset(rs)
  {
    if rs != [] {
      DropNamedCount(rs[1..], name);
      assert rs == [rs[0]] + rs[1..];
    }
  }

  /** The records called `name`, in order. */
  function FindAll(rs: seq<Object>, name: string): (r: seq<Object>)
    ensures forall o :: o in r ==> Named(o, name)
  {
    if rs == [] then []
    else (if Named(rs[0], name) then [rs[0]] else []) + FindAll(rs[1..], name)
  }

  /* ------------------------------------------------------------ loading */

  /** The records that the loading loop of a module directory keeps, in
      file order: the files that parsed (`Some`) to a non-empty record that
      `valid` accepts. */
  function Loaded(parsed: seq<Option<Object>>, valid: Object -> bool): seq<Object> {
    if parsed == [] then []
    else
      var p := parsed[|parsed| - 1];
      Loaded(parsed[..|parsed| - 1], valid) + (if p.Some? && valid(p.value) && p.value != [] then [p.value] else [])
  }

  /** Exactly the valid parsed files are loaded. */
  lemma {:induction false} LoadedMembers(parsed: seq<Option<Object>>, valid: Object -> bool, o: Object)
    ensures o in Loaded(parsed, valid) <==> Some(o) in parsed && valid(o) && o != []
  {
    if parsed != [] {
      var init := parsed[..|parsed| - 1];
      LoadedMembers(init, valid, o);
      assert parsed == init + [parsed[|parsed| - 1]];
    }
  }

  /** When the check demands a name, every loaded record has one. */
  lemma LoadedNamed(parsed: seq<Option<Object>>, valid: Object -> bool)
    requires forall o :: valid(o) ==> HasKey(o, "name")
    ensures AllNamed(Loaded(parsed, valid))
  {
    forall i | 0 <= i < |Loaded(parsed, valid)| ensures HasKey(Loaded(parsed, valid)[i], "name") {
      LoadedMembers(parsed, valid, Loaded(parsed, valid)[i]);
    }
  }

  /* ------------------------------------------------------------ updates */

  /** No update key is missing from the record: the check that rejects
      `invalid_fields`. */
  predicate AllKnown(o: Object, updates: Object) {
    forall i :: 0 <= i < |updates| ==> HasKey(o, updates[i].key)
  }

  /** `record.update(updates)`: stores every entry of `updates`, in order. */
  function ApplyUpdates(o: Object, updates: Object): Object
    decreases |updates|
  {
    if updates == [] then o
    else ApplyUpdates(Put(o, updates[0].key, updates[0].val), updates[1..])
  }

  /** After the update, a key of `updates` holds its value there and any
      other key holds what it held before. */
  lemma {:induction false} ApplyUpdatesLookup(o: Object, updates: Object, k: string)
    requires KeysUnique(updates)
    ensures Lookup(ApplyUpdates(o, updates), k) == if HasKey(updates, k) then Lookup(updates, k) else Lookup(o, k)
    decreases |updates|
  {
    if updates != [] {
      var e := updates[0];
      assert KeysUnique(updates[1..]);
      ApplyUpdatesLookup(Put(o, e.key, e.val), updates[1..], k);
      if e.key != k {
        PutOther(o, e.key, e.val, k);
      } else {
        assert !HasKey(updates[1..], k) by {
          HasKeyExists(updates[1..], k);
        }
      }
    }
  }

  /** When every update key is already there, the record keeps exactly its
      keys, in their order. */
  lemma {:induction false} ApplyUpdatesKeys(o: Object, updates: Object)
    requires AllKnown(o, updates)
    ensures Keys(ApplyUpdates(o, updates)) == Keys(o)
    decreases |updates|
  {
    if updates != [] {
      var e := updates[0];
      var o' := Put(o, e.key, e.val);
      PutKeys(o, e.key, e.val);
      forall i | 0 <= i < |updates[1..]| ensures HasKey(o', updates[1..][i].key) {
        HasKeyIff(o, updates[i + 1].key);
        HasKeyIff(o', updates[i + 1].key);
      }
      ApplyUpdatesKeys(o', updates[1..]);
    }
  }

  /** The update of `update_test_case`/`update_assertion`: the updates,
      then a fresh `updated_at`. */
  function Updated(o: Object, updates: Object, now: string): Object {
    Put(ApplyUpdates(o, updates), "updated_at", Str(now))
  }

  /** An update that does not rename the record leaves it findable under
      its name. */
  lemma UpdatedKeepsName(o: Object, updates: Object, now: string, name: string)
    requires KeysUnique(updates) && Named(o, name) && !HasKey(updates, "name")
    ensures Named(Updated(o, updates, now), name)
  {
    ApplyUpdatesLookup(o, updates, "name");
    PutOther(ApplyUpdates(o, updates), "updated_at", Str(now), "name");
  }

  /** An updated record still carries a name. */
  lemma UpdatedHasName(o: Object, updates: Object, now: string)
    requires HasKey(o, "name") && AllKnown(o, updates)
    ensures HasKey(Updated(o, updates, now), "name")
  {
    ApplyUpdatesKeys(o, updates);
    HasKeyIff(o, "name");
    HasKeyIff(ApplyUpdates(o, updates), "name");
    PutOther(ApplyUpdates(o, updates), "updated_at", Str(now), "name");
  }

  /** `records[j] = record` at the first `j` whose record is called
      `name`, or no change when there is none. */
  function ReplaceFirstNamed(rs: seq<Object>, name: string, u: Object): (r: seq<Object>)
    ensures |r| == |rs|
    ensures FindNamed(rs, name).Some? ==> r[FindNamed(rs, name).value] == u
    ensures forall j :: 0 <= j < |rs| && (FindNamed(rs, name).None? || j != FindNamed(rs, name).value) ==> r[j] == rs[j]
  {
    match FindNamed(rs, name)
    case None => rs
    case Some(j) => rs[j := u]
  }

  /* ------------------------------------------------------------ listing */

  /** The records of every module, module after module in insertion order. */
  function Flatten(store: map<string, seq<Object>>, modules: seq<string>): seq<Object> {
    if modules == [] then []
    else (if modules[0] in store then store[modules[0]] else []) + Flatten(store, modules[1..])
  }

  lemma {:induction false} FlattenMembers(store: map<string, seq<Object>>, modules: seq<string>, o: Object)
    ensures o in Flatten(store, modules) <==> exists m :: m in modules && m in store && o in store[m]
  {
    if modules != [] {
      FlattenMembers(store, modules[1..], o);
      if o in Flatten(store, modules[1..]) {
        var m :| m in modules[1..] && m in store && o in store[m];
        assert m in modules;
      }
    }
  }

  /** `[r for r in records if r.get('status') == status]` */
  function WithStatus(rs: seq<Object>, status: string): (r: seq<Object>)
    ensures forall o :: o in r <==> o in rs && Lookup(o, "status") == Some(Str(status))
  {
    if rs == [] then []
    else
      var rest := WithStatus(rs[1..], status);
      assert forall o :: o in rs[1..] ==> o in rs;
      (if Lookup(rs[0], "status") == Some(Str(status)) then [rs[0]] else []) + rest
  }

  /** A Python argument that is given and truthy. */
  predicate Given(s: Option<string>) {
    s.Some? && s.value != ""
  }

  /** The records a listing considers: those of one module, or of all
      modules when none is given, kept only with the given status. */
  function Picked(store: map<string, seq<Object>>, modules: seq<string>,
                  moduleName: Option<string>, status: Option<string>): seq<Object> {
    var base :=
      if Given(moduleName) then (if moduleName.value in store then store[moduleName.value] else [])
      else Flatten(store, modules);
    if Given(status) then WithStatus(base, status.value) else base
  }

  /** A record is listed iff it belongs to the module asked for (any
      module when none is) and has the status asked for (any when none
      is). */
  lemma PickedMembers(store: map<string, seq<Object>>, modules: seq<string>,
                      moduleName: Option<string>, status: Option<string>, o: Object)
    ensures o in Picked(store, modules, moduleName, status) <==>
      && (Given(moduleName) ==> moduleName.value in store && o in store[moduleName.value])
      && (!Given(moduleName) ==> exists m :: m in modules && m in store && o in store[m])
      && (Given(status) ==> Lookup(o, "status") == Some(Str(status.value)))
  {
    FlattenMembers(store, modules, o);
  }

  /** The sort key `x['updated_at']`, when it is a string. */
  function UpdatedAt(o: Object): string {
    StrOr(Lookup(o, "updated_at"), "")
  }

  predicate HasStrUpdatedAt(o: Object) {
    Lookup(o, "updated_at").Some? && Lookup(o, "updated_at").value.Str?
  }

  /** `get_test_cases`/`get_assertions`: the picked records sorted by
      `updated_at`, newest first, equal keys in their listed order; a
      record without a string `updated_at` makes the sort raise, and the
      listing is then empty. */
  function Listing(store: map<string, seq<Object>>, modules: seq<string>,
                   moduleName: Option<string>, status: Option<string>): seq<Object> {
    var picked := Picked(store, modules, moduleName, status);
    if forall i :: 0 <= i < |picked| ==> HasStrUpdatedAt(picked[i])
    then Sorting.SortDescending(picked, UpdatedAt, Text.LexLe)
    else []
  }

  lemma LexLeTotalPreorder()
    ensures Sorting.TotalPreorder(Text.LexLe)
  {
    forall a, b ensures Text.LexLe(a, b) || Text.LexLe(b, a) {
      Text.LexLeTotal(a, b);
    }
    forall a, b, c | Text.LexLe(a, b) && Text.LexLe(b, c) ensures Text.LexLe(a, c) {
      Text.LexLeTrans(a, b, c);
    }
  }

  /** The listing is in descending `updated_at` order and holds exactly the
      picked records, or is empty when one of them has no string
      `updated_at`. */
  lemma ListingSpec(store: map<string, seq<Object>>, modules: seq<string>,
                    moduleName: Option<string>, status: Option<string>)
    ensures Sorting.Descending(Listing(store, modules, moduleName, status), UpdatedAt, Text.LexLe)
    ensures var picked := Picked(store, modules, moduleName, status);
      if forall i :: 0 <= i < |picked| ==> HasStrUpdatedAt(picked[i])
      then multiset(Listing(store, modules, moduleName, status)) == multiset(picked)
      else Listing(store, modules, moduleName, status) == []
  {
    var picked := Picked(store, modules, moduleName, status);
    LexLeTotalPreorder();
    Sorting.SortSorted(picked, UpdatedAt, Text.LexLe);
    Sorting.SortPermutes(picked, UpdatedAt, Text.LexLe);
  }

  /** Records with the same `updated_at` keep the order in which they were
      picked (module order, then insertion order): Python's sort is
      stable. */
  lemma ListingStable(store: map<string, seq<Object>>, modules: seq<string>,
                      moduleName: Option<string>, status: Option<string>, updatedAt: string)
    ensures var picked := Picked(store, modules, moduleName, status);
      (forall i :: 0 <= i < |picked| ==> HasStrUpdatedAt(picked[i])) ==>
      Sorting.WithKey(Listing(store, modules, moduleName, status), UpdatedAt, updatedAt) ==
      Sorting.WithKey(picked, UpdatedAt, updatedAt)
  {
    LexLeTotalPreorder();
    Sorting.SortStable(Picked(store, modules, moduleName, status), UpdatedAt, Text.LexLe, updatedAt);
  }

  /* ------------------------------------------------------------ the store */

  /** The dict of module name to records, with the insertion order of its
      modules. */
  class Store {
    var records: map<string, seq<Object>>
    var modules: seq<string>

    ghost predicate Valid()
      reads this
    {
      && Distinct(modules)
      && (forall m :: m in modules <==> m in records)
      && (forall m :: m in records ==> AllNamed(records[m]))
    }

    constructor ()
      ensures Valid() && records == map[] && modules == []
    {
      records := map[];
      modules := [];
    }

    /** `get_test_case`/`get_assertion`: the first record of the module
        with that name. */
    function Find(moduleName: string, name: string): (r: Option<Object>)
      reads this
      ensures r.Some? <==> moduleName in records && FindNamed(records[moduleName], name).Some?
      ensures r.Some? ==> Named(r.value, name) && r.value in records[moduleName]
    {
      if moduleName !in records then None
      else match FindNamed(records[moduleName], name)
        case None => None
        case Some(i) => Some(records[moduleName][i])
    }

    /** `self.test_cases[module] = records`: a new module goes last, an
        existing one keeps its place. */
    method SetModule(moduleName: string, rs: seq<Object>)
      requires Valid() && AllNamed(rs)
      modifies this
      ensures Valid()
      ensures records == old(records)[moduleName := rs]
      ensures modules == if moduleName in old(records) then old(modules) else old(modules) + [moduleName]
    {
      if moduleName !in records {
        DistinctSnoc(modules, moduleName);
        modules := modules + [moduleName];
      }
      records := records[moduleName := rs];
    }

    /** The loading loop of `load_test_cases`/`load_assertions` for one
        module directory: the module's list is reset, then every file that
        parsed to a record `valid` accepts is appended, in file order. */
    method LoadModule(moduleName: string, parsed: seq<Option<Object>>, valid: Object -> bool)
      requires Valid() && forall o :: valid(o) ==> HasKey(o, "name")
      modifies this
      ensures Valid()
      ensures records == old(records)[moduleName := Loaded(parsed, valid)]
      ensures modules == if moduleName in old(records) then old(modules) else old(modules) + [moduleName]
    {
      var kept := [];
      var i := 0;
      while i < |parsed|
        invariant 0 <= i <= |parsed|
        invariant kept == Loaded(parsed[..i], valid)
      {
        assert parsed[..i + 1][..i] == parsed[..i];
        var p := parsed[i];
        if p.Some? && valid(p.value) && p.value != [] {
          kept := kept + [p.value];
        }
        i := i + 1;
      }
      assert parsed[..i] == parsed;
      LoadedNamed(parsed, valid);
      SetModule(moduleName, kept);
    }

    /** `self.test_cases.setdefault(module, []).append(record)` */
    method Append(moduleName: string, o: Object)
      requires Valid() && HasKey(o, "name")
      modifies this
      ensures Valid()
      ensures records == old(records)[moduleName := (if moduleName in old(records) then old(records)[moduleName] else []) + [o]]
      ensures modules == if moduleName in old(records) then old(modules) else old(modules) + [moduleName]
    {
      var rs := if moduleName in records then records[moduleName] else [];
      SetModule(moduleName, rs + [o]);
    }

    /** The update of `update_test_case`/`update_assertion` once the file
        search has ended: the record found by name is updated in place
        whether or not its file is found; only when it is, the first record
        that still has the old name is then replaced by the updated one. */
    method UpdateNamed(moduleName: string, name: string, updates: Object, fileFound: bool, now: string)
      returns (ok: bool)
      requires Valid() && KeysUnique(updates)
      modifies this
      ensures Valid() && modules == old(modules)
      ensures ok <==> old(Find(moduleName, name)).Some? && AllKnown(old(Find(moduleName, name)).value, updates) && fileFound
      ensures old(Find(moduleName, name)).None? || !AllKnown(old(Find(moduleName, name)).value, updates) ==>
        records == old(records)
      ensures old(Find(moduleName, name)).Some? && AllKnown(old(Find(moduleName, name)).value, updates) ==>
        var rs, i := old(records)[moduleName], FindNamed(old(records)[moduleName], name).value;
        var u := Updated(rs[i], updates, now);
        records == old(records)[moduleName := if fileFound then ReplaceFirstNamed(rs[i := u], name, u) else rs[i := u]]
    {
      var found := Find(moduleName, name);
      if found.None? || !AllKnown(found.value, updates) {
        return false;
      }
      var o := found.value;
      var rs := records[moduleName];
      var i := FindNamed(rs, name).value;
      var u := Updated(o, updates, now);
      UpdatedHasName(o, updates, now);
      SetModule(moduleName, rs[i := u]);
      if !fileFound {
        return false;
      }
      ReplaceFirst(moduleName, name, u);
      ok := true;
    }

    /** The loop that puts the updated record back: the first record with
        the name is replaced, and the loop stops there. */
    method ReplaceFirst(moduleName: string, name: string, u: Object)
      requires Valid() && moduleName in records && HasKey(u, "name")
      modifies this
      ensures Valid() && modules == old(modules)
      ensures records == old(records)[moduleName := ReplaceFirstNamed(old(records)[moduleName], name, u)]
    {
      var rs := records[moduleName];
      var j := 0;
      while j < |rs|
        invariant 0 <= j <= |rs|
        invariant records == old(records) && modules == old(modules)
        invariant forall k :: 0 <= k < j ==> !Named(rs[k], name)
      {
        if Named(rs[j], name) {
          SetModule(moduleName, rs[j := u]);
          return;
        }
        j := j + 1;
      }
      SetModule(moduleName, rs);
    }

    /** The removal of `delete_test_case`/`delete_assertion` once the file
        search has ended: only when a record of that name exists and its
        file is found are all records of that name taken out. */
    method DeleteNamed(moduleName: string, name: string, fileFound: bool) returns (ok: bool)
      requires Valid()
      modifies this
      ensures Valid() && modules == old(modules)
      ensures ok <==> old(Find(moduleName, name)).Some? && fileFound
      ensures ok ==> records == old(records)[moduleName := DropNamed(old(records)[moduleName], name)]
      ensures !ok ==> records == old(records)
    {
      if Find(moduleName, name).None? || !fileFound {
        return false;
      }
      records := records[moduleName := DropNamed(records[moduleName], name)];
      ok := true;
    }

    /** The filtered, sorted listing. */
    function List(moduleName: Option<string>, status: Option<string>): seq<Object>
      reads this
    {
      Listing(records, modules, moduleName, status)
    }
  }
}
