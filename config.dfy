/** The configuration store of `utils/config.py`: a JSON dict read with
    dotted paths, written with dotted paths that create missing levels,
    merged recursively with another dict, checked against the required
    fields and completed with defaults. Files are not modelled: the store
    starts from the dict that was loaded. */
module Configuration {
  import opened Wrappers
  import opened Text
  import opened Json
  import Helpers

  /** The keys a dotted key names: `key.split('.')`. */
  function KeyPath(key: string): (path: seq<string>)
    ensures |path| >= 1
  {
    Split(key, '.')
  }

  /** Following `path` from `v`: `None` when a key is missing or a value on
      the way is not a dict (the KeyError and TypeError of `get`). */
  function GetPath(v: Value, path: seq<string>): Option<Value>
    decreases |path|
  {
    if path == [] then Some(v)
    else if !v.Dict? then None
    else match Lookup(v.entries, path[0])
      case None => None
      case Some(c) => GetPath(c, path[1..])
  }

  /** One level of `set`'s walk: a missing key gets a new empty dict, a
      dict is entered, and any other value makes the walk raise TypeError. */
  function Descend(e: Object, k: string): Option<Object> {
    match Lookup(e, k)
    case None => Some([])
    case Some(c) => if c.Dict? then Some(c.entries) else None
  }

  /** The dict `set` leaves behind, or `None` when it raises; a failing walk
      changes nothing, as it only fails where every level already existed. */
  function SetPath(e: Object, path: seq<string>, x: Value): Option<Object>
    requires |path| >= 1
    decreases |path|
  {
    if |path| == 1 then Some(Put(e, path[0], x))
    else match Descend(e, path[0])
      case None => None
      case Some(sub) =>
        match SetPath(sub, path[1..], x)
        case None => None
        case Some(sub') => Some(Put(e, path[0], Dict(sub')))
  }

  /** After a successful `set`, `get` of the same path returns the value. */
  lemma {:induction false} GetAfterSet(e: Object, path: seq<string>, x: Value)
    requires |path| >= 1 && SetPath(e, path, x).Some?
    ensures GetPath(Dict(SetPath(e, path, x).value), path) == Some(x)
    decreases |path|
  {
    if |path| > 1 {
      var sub := Descend(e, path[0]).value;
      GetAfterSet(sub, path[1..], x);
    }
  }

  /** `set` raises exactly when some proper prefix of the path already
      leads to a value that is not a dict. */
  lemma {:induction false} SetFailsIff(e: Object, path: seq<string>, x: Value)
    requires |path| >= 1
    ensures SetPath(e, path, x).None? <==>
      exists j :: 1 <= j < |path| && GetPath(Dict(e), path[..j]).Some? && !GetPath(Dict(e), path[..j]).value.Dict?
    decreases |path|
  {
    if |path| > 1 {
      var k := path[0];
      assert GetPath(Dict(e), path[..1]) == Lookup(e, k) by {
        assert path[..1][1..] == [];
      }
      forall j | 2 <= j <= |path|
        ensures GetPath(Dict(e), path[..j]) ==
          if Lookup(e, k).Some? then GetPath(Lookup(e, k).value, path[1..][..j - 1]) else None
      {
        assert path[..j][0] == k && path[..j][1..] == path[1..][..j - 1];
      }
      match Lookup(e, k)
      case None =>
        SetFailsIff([], path[1..], x);
        NothingBelowEmpty(path[1..], x);
      case Some(c) =>
        if c.Dict? {
          SetFailsIff(c.entries, path[1..], x);
          if SetPath(e, path, x).None? {
            var j' :| 1 <= j' < |path[1..]| && GetPath(Dict(c.entries), path[1..][..j']).Some?
              && !GetPath(Dict(c.entries), path[1..][..j']).value.Dict?;
            assert GetPath(Dict(e), path[..j' + 1]) == GetPath(Dict(c.entries), path[1..][..j']);
          }
        }
    }
  }

  /** Below a missing key nothing can block the walk. */
  lemma NothingBelowEmpty(path: seq<string>, x: Value)
    requires |path| >= 1
    ensures SetPath([], path, x).Some?
    decreases |path|
  {
    if |path| > 1 {
      NothingBelowEmpty(path[1..], x);
    }
  }

  /** `set` does not touch the entries under other top-level keys. */
  lemma SetKeepsOtherKeys(e: Object, path: seq<string>, x: Value, k: string)
    requires |path| >= 1 && SetPath(e, path, x).Some? && k != path[0]
    ensures Lookup(SetPath(e, path, x).value, k) == Lookup(e, k)
  {
    var r := SetPath(e, path, x).value;
    if |path| == 1 {
      PutOther(e, path[0], x, k);
    } else {
      var sub := Descend(e, path[0]).value;
      PutOther(e, path[0], Dict(SetPath(sub, path[1..], x).value), k);
    }
  }

  /** `set` does not change what `get` finds along any path that parts
      from the written one: a path that is neither a prefix of it nor
      extends it. */
  lemma {:induction false} SetKeepsOtherPaths(e: Object, path: seq<string>, x: Value, q: seq<string>)
    requires |path| >= 1 && SetPath(e, path, x).Some?
    requires !(q <= path) && !(path <= q)
    ensures GetPath(Dict(SetPath(e, path, x).value), q) == GetPath(Dict(e), q)
    decreases |path|
  {
    var r := SetPath(e, path, x).value;
    if q[0] != path[0] {
      SetKeepsOtherKeys(e, path, x, q[0]);
    } else {
      assert |path| > 1 && |q| > 1;
      var sub := Descend(e, path[0]).value;
      var sub' := SetPath(sub, path[1..], x).value;
      assert q == [q[0]] + q[1..] && path == [path[0]] + path[1..];
      SetKeepsOtherPaths(sub, path[1..], x, q[1..]);
      assert GetPath(Dict(r), q) == GetPath(Dict(sub'), q[1..]);
      assert GetPath(Dict(e), q) == GetPath(Dict(sub), q[1..]);
    }
  }

  /** `deep_update(d, u)`: the entries of `u` in order, a dict value merged
      into whatever `d` holds under its key (an empty dict when nothing),
      any other value stored over it. The flag is false when the merge
      raised: `d` was not a dict while `u` still had entries. The value
      returned is `d` as far as it had been updated in place. */
  function Merge(d: Value, u: Object): (Value, bool)
    decreases u
  {
    if u == [] then (d, true)
    else if !d.Dict? then (d, false)
    else
      var k, v := u[0].key, u[0].val;
      if v.Dict? then
        var inner := Merge(Lookup(d.entries, k).GetOr(Dict([])), v.entries);
        var d1 := Dict(Put(d.entries, k, inner.0));
        if !inner.1 then (d1, false) else Merge(d1, u[1..])
      else Merge(Dict(Put(d.entries, k, v)), u[1..])
  }

  /** Every dict inside `u`, at any depth, has distinct keys (as every
      Python dict does). */
  predicate DeepUnique(u: Object)
    decreases u
  {
    && KeysUnique(u)
    && forall i :: 0 <= i < |u| && u[i].val.Dict? ==> DeepUnique(u[i].val.entries)
  }

  /** No key of `u` whose value is a non-empty dict meets a non-dict in `d`,
      at any depth. */
  predicate Compatible(d: Value, u: Object)
    decreases u
  {
    || u == []
    || (&& d.Dict?
        && forall i :: 0 <= i < |u| && u[i].val.Dict? ==>
             Compatible(Lookup(d.entries, u[i].key).GetOr(Dict([])), u[i].val.entries))
  }

  lemma CompatibleAfterPut(e: Object, k: string, w: Value, u: Object)
    requires forall i :: 0 <= i < |u| ==> u[i].key != k
    ensures Compatible(Dict(e), u) <==> Compatible(Dict(Put(e, k, w)), u)
  {
    forall i | 0 <= i < |u|
      ensures Lookup(Put(e, k, w), u[i].key) == Lookup(e, u[i].key)
    {
      PutOther(e, k, w, u[i].key);
    }
  }

  lemma KeysUniqueTail(u: Object)
    requires KeysUnique(u) && u != []
    ensures KeysUnique(u[1..]) && forall i :: 0 <= i < |u[1..]| ==> u[1..][i].key != u[0].key
  {
  }

  /** `deep_update` raises exactly when `d` and `u` clash. */
  lemma {:induction false} MergeOkIff(d: Value, u: Object)
    requires DeepUnique(u)
    ensures Merge(d, u).1 <==> Compatible(d, u)
    decreases u
  {
    if u != [] && d.Dict? {
      var k, v := u[0].key, u[0].val;
      KeysUniqueTail(u);
      assert DeepUnique(u[1..]);
      var w := if v.Dict? then Merge(Lookup(d.entries, k).GetOr(Dict([])), v.entries).0 else v;
      CompatibleAfterPut(d.entries, k, w, u[1..]);
      MergeOkIff(Dict(Put(d.entries, k, w)), u[1..]);
      if v.Dict? {
        MergeOkIff(Lookup(d.entries, k).GetOr(Dict([])), v.entries);
      }
      assert Compatible(d, u) <==>
        (v.Dict? ==> Compatible(Lookup(d.entries, k).GetOr(Dict([])), v.entries)) && Compatible(d, u[1..]);
    }
  }

  /** What a successful `deep_update` leaves: keys only in `d` keep their
      values, non-dict values of `u` are stored, and dict values of `u`
      are merged into what `d` held. */
  lemma {:induction false} MergeEffect(d: Value, u: Object)
    requires d.Dict? && KeysUnique(u) && Merge(d, u).1
    ensures Merge(d, u).0.Dict?
    ensures forall k :: !HasKey(u, k) ==> Lookup(Merge(d, u).0.entries, k) == Lookup(d.entries, k)
    ensures forall i :: 0 <= i < |u| && !u[i].val.Dict? ==>
      Lookup(Merge(d, u).0.entries, u[i].key) == Some(u[i].val)
    ensures forall i :: 0 <= i < |u| && u[i].val.Dict? ==>
      Lookup(Merge(d, u).0.entries, u[i].key) ==
        Some(Merge(Lookup(d.entries, u[i].key).GetOr(Dict([])), u[i].val.entries).0)
    decreases u
  {
    if u != [] {
      var k, v := u[0].key, u[0].val;
      KeysUniqueTail(u);
      var w := if v.Dict? then Merge(Lookup(d.entries, k).GetOr(Dict([])), v.entries).0 else v;
      var d1 := Dict(Put(d.entries, k, w));
      MergeEffect(d1, u[1..]);
      var r := Merge(d, u).0;
      assert r == Merge(d1, u[1..]).0;
      HasKeyExists(u[1..], k);
      forall k' | !HasKey(u, k')
        ensures Lookup(r.entries, k') == Lookup(d.entries, k')
      {
        HasKeyExists(u, k');
        HasKeyExists(u[1..], k');
        assert !HasKey(u[1..], k') && k' != k;
        PutOther(d.entries, k, w, k');
      }
      forall i | 1 <= i < |u|
        ensures Lookup(d1.entries, u[i].key) == Lookup(d.entries, u[i].key)
      {
        assert u[1..][i - 1] == u[i];
        PutOther(d.entries, k, w, u[i].key);
      }
      assert forall i :: 1 <= i < |u| ==> u[1..][i - 1] == u[i];
    }
  }

  /** The checks of `load_config` once the file is read:
      `_validate_config`, then `_supplement_config` (without the directory
      creation). `None` when validation raises ConfigError; on a dict that
      passed validation every default-filling step runs. */
  function LoadConfig(loaded: Object, rootDir: string, recordingsDir: string, androidHome: Option<string>):
    (r: Option<Object>)
    ensures r.Some? <==> Helpers.Conforms(loaded, Helpers.RequiredFields)
    ensures r.Some? ==> Supplemented(loaded, rootDir, recordingsDir, androidHome) == (r.value, true)
  {
    if Helpers.ValidateConfig(loaded).Some? then None
    else
      ConformingHasSupplementKeys(loaded);
      SupplementFillsDefaults(loaded, rootDir, recordingsDir, androidHome);
      Some(Supplemented(loaded, rootDir, recordingsDir, androidHome).0)
  }

  /** The configuration store. */
  class Config {
    /** The whole configuration; always a dict. */
    var config: Value
    /** `ROOT_DIR` and `RECORDINGS_DIR`: absolute paths, never empty. */
    const rootDir: string
    const recordingsDir: string

    ghost predicate Valid()
      reads this
    {
      config.Dict? && rootDir != [] && recordingsDir != []
    }

    /** `__init__` through `load_config`, from the dict read from the
        configuration file: it is validated and completed with defaults.
        A dict that fails validation makes `load_config` raise
        ConfigError, and no store is made. */
    constructor (loaded: Object, rootDir: string, recordingsDir: string, androidHome: Option<string>)
      requires rootDir != [] && recordingsDir != []
      requires LoadConfig(loaded, rootDir, recordingsDir, androidHome).Some?
      ensures Valid() && config == Dict(LoadConfig(loaded, rootDir, recordingsDir, androidHome).value)
      ensures this.rootDir == rootDir && this.recordingsDir == recordingsDir
    {
      config := Dict(LoadConfig(loaded, rootDir, recordingsDir, androidHome).value);
      this.rootDir := rootDir;
      this.recordingsDir := recordingsDir;
    }

    /** `get`: the value at the dotted key, or `default`. */
    method Get(key: string, default: Value) returns (r: Value)
      requires Valid()
      ensures r == GetPath(config, KeyPath(key)).GetOr(default)
    {
      var keys := KeyPath(key);
      var value := config;
      var i := 0;
      while i < |keys|
        invariant 0 <= i <= |keys|
        invariant GetPath(config, keys) == GetPath(value, keys[i..])
      {
        assert keys[i..][1..] == keys[i + 1..];
        if !value.Dict? {
          return default;
        }
        var next := Lookup(value.entries, keys[i]);
        if next.None? {
          return default;
        }
        value := next.value;
        i := i + 1;
      }
      return value;
    }

    /** `set`: walks the dotted key, creating the missing levels, and
        stores `x` at its end; false when the walk raised TypeError. */
    method Set(key: string, x: Value) returns (ok: bool)
      requires Valid()
      modifies this
      ensures Valid()
      ensures var r := SetPath(old(config).entries, KeyPath(key), x);
        ok == r.Some? && config == if ok then Dict(r.value) else old(config)
    {
      var keys := KeyPath(key);
      var n := |keys| - 1;
      // the dict at each level of the walk
      var levels: seq<Object> := [config.entries];
      var i := 0;
      while i < n
        invariant 0 <= i <= n && |levels| == i + 1
        invariant levels[0] == config.entries
        invariant forall j :: 0 <= j < i ==> Descend(levels[j], keys[j]) == Some(levels[j + 1])
      {
        var next := Descend(levels[i], keys[i]);
        if next.None? {
          SetStuck(levels, keys, x, i);
          return false;
        }
        levels := levels + [next.value];
        i := i + 1;
      }
      var cur := Put(levels[n], keys[n], x);
      assert keys[n..] == [keys[n]];
      while i > 0
        invariant 0 <= i <= n
        invariant SetPath(levels[i], keys[i..], x) == Some(cur)
      {
        i := i - 1;
        assert keys[i..][1..] == keys[i + 1..];
        cur := Put(levels[i], keys[i], Dict(cur));
      }
      config := Dict(cur);
      return true;
    }

    /** `update`: merges `u` into the configuration in place; false when
        the merge raised, in which case the configuration keeps the part
        already merged. */
    method Update(u: Object) returns (ok: bool)
      requires Valid()
      modifies this
      ensures Valid()
      ensures config == Merge(old(config), u).0 && ok == Merge(old(config), u).1
    {
      var r;
      r, ok := DeepUpdate(config, u);
      MergeStaysDict(config, u);
      config := r;
    }

    /** `_validate_config`: the first violation of the required fields. */
    function ValidateConfig(): (r: Option<Helpers.SchemaError>)
      reads this
      requires Valid()
      ensures r.None? <==> Helpers.Conforms(config.entries, Helpers.RequiredFields)
    {
      Helpers.ValidateConfig(config.entries)
    }

    /** `_supplement_config`, without the directory creation: `androidHome`
        is the `ANDROID_HOME` environment variable. False when a lookup
        raised; the steps already done stay done. */
    method Supplement(androidHome: Option<string>) returns (ok: bool)
      requires Valid()
      modifies this
      ensures Valid()
      ensures (config.entries, ok) == Supplemented(old(config).entries, rootDir, recordingsDir, androidHome)
    {
      var c := config.entries;
      var step := FillIfEmpty(c, "work_dir", Str(rootDir));
      if step.None? {
        return false;
      }
      config := Dict(step.value);
      step := FillIfEmpty(step.value, "log_level", Str("INFO"));
      if step.None? {
        return false;
      }
      config := Dict(step.value);
      step := FillNestedIfEmpty(step.value, "record", "save_dir", Some(Str(recordingsDir)));
      if step.None? {
        return false;
      }
      config := Dict(step.value);
      var home := if androidHome.Some? && androidHome.value != [] then Some(Str(androidHome.value)) else None;
      step := FillNestedIfEmpty(step.value, "device", "android_sdk", home);
      if step.None? {
        return false;
      }
      config := Dict(step.value);
      return true;
    }
  }

  /** `deep_update` itself, updating `d` entry by entry. */
  method DeepUpdate(d: Value, u: Object) returns (r: Value, ok: bool)
    ensures (r, ok) == Merge(d, u)
    decreases u
  {
    r := d;
    var i := 0;
    while i < |u|
      invariant 0 <= i <= |u|
      invariant Merge(r, u[i..]) == Merge(d, u)
    {
      assert u[i..][0] == u[i] && u[i..][1..] == u[i + 1..];
      if !r.Dict? {
        // `d.get` or `d[k] = v` on a non-dict raises
        return r, false;
      }
      var k, v := u[i].key, u[i].val;
      if v.Dict? {
        var inner, innerOk := DeepUpdate(Lookup(r.entries, k).GetOr(Dict([])), v.entries);
        r := Dict(Put(r.entries, k, inner));
        if !innerOk {
          return r, false;
        }
      } else {
        r := Dict(Put(r.entries, k, v));
      }
      i := i + 1;
    }
    return r, true;
  }

  lemma MergeStaysDict(d: Value, u: Object)
    requires d.Dict?
    ensures Merge(d, u).0.Dict?
    decreases u
  {
    if u != [] {
      var k, v := u[0].key, u[0].val;
      if v.Dict? {
        var inner := Merge(Lookup(d.entries, k).GetOr(Dict([])), v.entries);
        if inner.1 {
          MergeStaysDict(Dict(Put(d.entries, k, inner.0)), u[1..]);
        }
      } else {
        MergeStaysDict(Dict(Put(d.entries, k, v)), u[1..]);
      }
    }
  }

  /** The walk of `set` stops at a level that is not a dict: the whole set
      raises. */
  lemma {:induction false} SetStuck(levels: seq<Object>, keys: seq<string>, x: Value, i: nat)
    requires |keys| >= 1 && i < |keys| - 1 && |levels| == i + 1
    requires forall j :: 0 <= j < i ==> Descend(levels[j], keys[j]) == Some(levels[j + 1])
    requires Descend(levels[i], keys[i]).None?
    ensures SetPath(levels[0], keys, x).None?
    decreases i
  {
    if i > 0 {
      SetStuck(levels[1..], keys[1..], x, i - 1);
    }
  }

  /** `if not c[k]: c[k] = default`; `None` when `k` is missing (KeyError). */
  function FillIfEmpty(c: Object, k: string, default: Value): Option<Object> {
    match Lookup(c, k)
    case None => None
    case Some(v) => if Truthy(v) then Some(c) else Some(Put(c, k, default))
  }

  /** `if not c[outer][k]: c[outer][k] = default` (when there is a default);
      `None` when a key is missing or `c[outer]` is not a dict. */
  function FillNestedIfEmpty(c: Object, outer: string, k: string, default: Option<Value>): Option<Object> {
    match Lookup(c, outer)
    case None => None
    case Some(o) =>
      if !o.Dict? then None
      else match FillIfEmpty(o.entries, k, default.GetOr(Null))
        case None => None
        case Some(o') => if default.None? then Some(c) else Some(Put(c, outer, Dict(o')))
  }

  /** The four default-filling steps of `_supplement_config` in order,
      with the dict as far as they got and whether all four ran. */
  function Supplemented(c: Object, rootDir: string, recordingsDir: string, androidHome: Option<string>): (Object, bool) {
    match FillIfEmpty(c, "work_dir", Str(rootDir))
    case None => (c, false)
    case Some(c1) =>
      match FillIfEmpty(c1, "log_level", Str("INFO"))
      case None => (c1, false)
      case Some(c2) =>
        match FillNestedIfEmpty(c2, "record", "save_dir", Some(Str(recordingsDir)))
        case None => (c2, false)
        case Some(c3) =>
          var home := if androidHome.Some? && androidHome.value != [] then Some(Str(androidHome.value)) else None;
          match FillNestedIfEmpty(c3, "device", "android_sdk", home)
          case None => (c3, false)
          case Some(c4) => (c4, true)
  }

  /** The value at a dotted path of a dict, `Null` when there is none. */
  function At(c: Object, path: seq<string>): Value {
    GetPath(Dict(c), path).GetOr(Null)
  }

  lemma At1(c: Object, a: string)
    ensures At(c, [a]) == Lookup(c, a).GetOr(Null)
  {
    assert [a][1..] == [];
    if Lookup(c, a).Some? {
      assert GetPath(Dict(c), [a]) == GetPath(Lookup(c, a).value, []);
    }
  }

  lemma At2(c: Object, a: string, b: string)
    ensures At(c, [a, b]) ==
      if Lookup(c, a).Some? && Lookup(c, a).value.Dict? then Lookup(Lookup(c, a).value.entries, b).GetOr(Null) else Null
  {
    assert [a, b][1..] == [b];
    if Lookup(c, a).Some? {
      var o := Lookup(c, a).value;
      assert GetPath(Dict(c), [a, b]) == GetPath(o, [b]);
      if o.Dict? {
        At1(o.entries, b);
      }
    }
  }

  /** A path's value depends only on the entry under its first key. */
  lemma AtSameHead(c: Object, c': Object, path: seq<string>)
    requires |path| >= 1 && Lookup(c, path[0]) == Lookup(c', path[0])
    ensures At(c, path) == At(c', path)
  {
  }

  /** Filling `k` leaves every other key's value as it was. */
  lemma FillKeeps(c: Object, k: string, default: Value, k': string)
    requires k' != k && FillIfEmpty(c, k, default).Some?
    ensures Lookup(FillIfEmpty(c, k, default).value, k') == Lookup(c, k')
  {
    if !Truthy(Lookup(c, k).value) {
      PutOther(c, k, default, k');
    }
  }

  /** Filling a present key keeps a truthy value and replaces a falsy one
      by the default. */
  lemma FillSets(c: Object, k: string, default: Value)
    requires HasKey(c, k)
    ensures FillIfEmpty(c, k, default).Some?
    ensures Lookup(FillIfEmpty(c, k, default).value, k) ==
      Some(if Truthy(Lookup(c, k).value) then Lookup(c, k).value else default)
  {
  }

  /** Filling `outer.k` leaves every top-level key but `outer` as it was. */
  lemma FillNestedKeeps(c: Object, outer: string, k: string, default: Option<Value>, k': string)
    requires k' != outer && FillNestedIfEmpty(c, outer, k, default).Some?
    ensures Lookup(FillNestedIfEmpty(c, outer, k, default).value, k') == Lookup(c, k')
  {
    if default.Some? {
      var o' := FillIfEmpty(Lookup(c, outer).value.entries, k, default.value).value;
      PutOther(c, outer, Dict(o'), k');
    }
  }

  /** Filling a present nested key `outer.k` keeps a truthy value and
      replaces a falsy one by the default, when there is one. */
  lemma FillNestedSets(c: Object, outer: string, k: string, default: Option<Value>)
    requires HasKey(c, outer) && Lookup(c, outer).value.Dict? && HasKey(Lookup(c, outer).value.entries, k)
    ensures FillNestedIfEmpty(c, outer, k, default).Some?
    ensures At(FillNestedIfEmpty(c, outer, k, default).value, [outer, k]) ==
      (if !Truthy(At(c, [outer, k])) && default.Some? then default.value else At(c, [outer, k]))
  {
    var o := Lookup(c, outer).value.entries;
    FillSets(o, k, default.GetOr(Null));
    At2(c, outer, k);
    if default.Some? {
      var o' := FillIfEmpty(o, k, default.value).value;
      At2(Put(c, outer, Dict(o')), outer, k);
    }
  }

  /** The keys `_supplement_config` reads are all there, with dicts where
      it reads a nested key. */
  predicate HasSupplementKeys(c: Object) {
    && HasKey(c, "work_dir") && HasKey(c, "log_level")
    && HasKey(c, "record") && Lookup(c, "record").value.Dict?
    && HasKey(Lookup(c, "record").value.entries, "save_dir")
    && HasKey(c, "device") && Lookup(c, "device").value.Dict?
    && HasKey(Lookup(c, "device").value.entries, "android_sdk")
  }

  /** A configuration that passed the required-field check has them. */
  lemma ConformingHasSupplementKeys(c: Object)
    requires Helpers.Conforms(c, Helpers.RequiredFields)
    ensures HasSupplementKeys(c)
  {
    Helpers.ConformingConfig(c);
  }

  /** When the keys it reads are there, every step of `_supplement_config`
      runs: an empty `work_dir`, `log_level` or `record.save_dir` is
      replaced by its default and a non-empty one is kept, an empty
      `device.android_sdk` takes a non-empty `ANDROID_HOME`, and every
      other top-level key keeps its value. */
  lemma SupplementFillsDefaults(c: Object, rootDir: string, recordingsDir: string, androidHome: Option<string>)
    requires HasSupplementKeys(c)
    ensures var (r, ok) := Supplemented(c, rootDir, recordingsDir, androidHome);
      && ok
      && At(r, ["work_dir"]) == (if Truthy(At(c, ["work_dir"])) then At(c, ["work_dir"]) else Str(rootDir))
      && At(r, ["log_level"]) == (if Truthy(At(c, ["log_level"])) then At(c, ["log_level"]) else Str("INFO"))
      && At(r, ["record", "save_dir"]) ==
           (if Truthy(At(c, ["record", "save_dir"])) then At(c, ["record", "save_dir"]) else Str(recordingsDir))
      && At(r, ["device", "android_sdk"]) ==
           (if !Truthy(At(c, ["device", "android_sdk"])) && androidHome.Some? && androidHome.value != []
            then Str(androidHome.value) else At(c, ["device", "android_sdk"]))
      && forall k :: k !in ["work_dir", "log_level", "record", "device"] ==> Lookup(r, k) == Lookup(c, k)
  {
    var home := if androidHome.Some? && androidHome.value != [] then Some(Str(androidHome.value)) else None;
    FillSets(c, "work_dir", Str(rootDir));
    var c1 := FillIfEmpty(c, "work_dir", Str(rootDir)).value;
    FillKeeps(c, "work_dir", Str(rootDir), "log_level");
    FillKeeps(c, "work_dir", Str(rootDir), "record");
    FillKeeps(c, "work_dir", Str(rootDir), "device");
    FillSets(c1, "log_level", Str("INFO"));
    var c2 := FillIfEmpty(c1, "log_level", Str("INFO")).value;
    FillKeeps(c1, "log_level", Str("INFO"), "work_dir");
    FillKeeps(c1, "log_level", Str("INFO"), "record");
    FillKeeps(c1, "log_level", Str("INFO"), "device");
    FillNestedSets(c2, "record", "save_dir", Some(Str(recordingsDir)));
    var c3 := FillNestedIfEmpty(c2, "record", "save_dir", Some(Str(recordingsDir))).value;
    FillNestedKeeps(c2, "record", "save_dir", Some(Str(recordingsDir)), "work_dir");
    FillNestedKeeps(c2, "record", "save_dir", Some(Str(recordingsDir)), "log_level");
    FillNestedKeeps(c2, "record", "save_dir", Some(Str(recordingsDir)), "device");
    FillNestedSets(c3, "device", "android_sdk", home);
    var c4 := FillNestedIfEmpty(c3, "device", "android_sdk", home).value;
    FillNestedKeeps(c3, "device", "android_sdk", home, "work_dir");
    FillNestedKeeps(c3, "device", "android_sdk", home, "log_level");
    FillNestedKeeps(c3, "device", "android_sdk", home, "record");
    assert Supplemented(c, rootDir, recordingsDir, androidHome) == (c4, true);
    At1(c, "work_dir");
    At1(c4, "work_dir");
    At1(c, "log_level");
    At1(c4, "log_level");
    AtSameHead(c, c2, ["record", "save_dir"]);
    AtSameHead(c3, c4, ["record", "save_dir"]);
    AtSameHead(c, c3, ["device", "android_sdk"]);
    forall k | k !in ["work_dir", "log_level", "record", "device"]
      ensures Lookup(c4, k) == Lookup(c, k)
    {
      FillKeeps(c, "work_dir", Str(rootDir), k);
      FillKeeps(c1, "log_level", Str("INFO"), k);
      FillNestedKeeps(c2, "record", "save_dir", Some(Str(recordingsDir)), k);
      FillNestedKeeps(c3, "device", "android_sdk", home, k);
    }
  }
}
