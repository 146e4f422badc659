/** The JSON-like values that the configuration, the test-case and
    assertion records, the recorded actions and the editor steps are made
    of. A Python `dict` is an association list in insertion order; every
    dict built by the modelled code has distinct keys. */
module Json {
  import opened Wrappers
  import Text

  datatype Value =
    | Null
    | Bool(b: bool)
    | Int(i: int)
    | Str(s: string)
    | List(items: seq<Value>)
    | Dict(entries: seq<Entry>)

  datatype Entry = Entry(key: string, val: Value)

  /** A dict's entries, in insertion order. */
  type Object = seq<Entry>

  /** The keys of a dict, in insertion order. */
  function Keys(o: Object): (ks: seq<string>)
    ensures |ks| == |o| && forall i :: 0 <= i < |o| ==> ks[i] == o[i].key
  {
    if o == [] then [] else [o[0].key] + Keys(o[1..])
  }

  /** `k in o` */
  predicate HasKey(o: Object, k: string) {
    Lookup(o, k).Some?
  }

  /** A key is in a dict iff it is among its keys. */
  lemma {:induction false} HasKeyIff(o: Object, k: string)
    ensures HasKey(o, k) <==> k in Keys(o)
  {
    if o != [] {
      HasKeyIff(o[1..], k);
    }
  }

  /** A key is in a dict iff some entry carries it. */
  lemma HasKeyExists(o: Object, k: string)
    ensures HasKey(o, k) <==> exists i :: 0 <= i < |o| && o[i].key == k
  {
    HasKeyIff(o, k);
  }

  predicate KeysUnique(o: Object) {
    forall i, j :: 0 <= i < j < |o| ==> o[i].key != o[j].key
  }

  /** `o.get(k)`: the value stored under `k`, if any. */
  function Lookup(o: Object, k: string): Option<Value> {
    if o == [] then None
    else if o[0].key == k then Some(o[0].val)
    else Lookup(o[1..], k)
  }

  /** `o.get(key)`: the value, or `None` when missing. */
  function Get(o: Object, key: string): Value {
    GetOr(o, key, Null)
  }

  /** `o.get(key, default)` */
  function GetOr(o: Object, key: string, default: Value): Value {
    match Lookup(o, key)
    case Some(v) => v
    case None => default
  }

  /** In a dict with distinct keys, the entry at any position is what a
      lookup of its key finds. */
  lemma {:induction false} LookupAt(o: Object, i: int)
    requires KeysUnique(o) && 0 <= i < |o|
    ensures Lookup(o, o[i].key) == Some(o[i].val)
  {
    if i > 0 {
      LookupAt(o[1..], i - 1);
    }
  }

  /** A lookup in two dicts laid end to end finds the first one's entry
      when it has the key, and the second one's otherwise. */
  lemma {:induction false} LookupAppend(a: Object, b: Object, k: string)
    ensures Lookup(a + b, k) == if HasKey(a, k) then Lookup(a, k) else Lookup(b, k)
  {
    if a == [] {
      assert a + b == b;
    } else {
      assert (a + b)[1..] == a[1..] + b;
      LookupAppend(a[1..], b, k);
    }
  }

  /** The dict display `{keys[0]: vals[0], keys[1]: vals[1], ...}`. */
  function Zip(keys: seq<string>, vals: seq<Value>): (o: Object)
    requires |keys| == |vals|
    ensures |o| == |keys| && forall i :: 0 <= i < |o| ==> o[i] == Entry(keys[i], vals[i])
  {
    seq(|keys|, i requires 0 <= i < |keys| => Entry(keys[i], vals[i]))
  }

  /** A display holds exactly the keys it lists. */
  lemma ZipHasKey(keys: seq<string>, vals: seq<Value>, k: string)
    requires |keys| == |vals|
    ensures HasKey(Zip(keys, vals), k) <==> k in keys
  {
    HasKeyExists(Zip(keys, vals), k);
  }

  /** A display with distinct keys has them unique. */
  lemma ZipUnique(keys: seq<string>, vals: seq<Value>)
    requires |keys| == |vals| && forall i, j :: 0 <= i < j < |keys| ==> keys[i] != keys[j]
    ensures KeysUnique(Zip(keys, vals))
  {
  }

  /** In a display with distinct keys, each key finds its own value. */
  lemma ZipUniqueAt(keys: seq<string>, vals: seq<Value>, i: int)
    requires |keys| == |vals| && 0 <= i < |keys| && KeysUnique(Zip(keys, vals))
    ensures Lookup(Zip(keys, vals), keys[i]) == Some(vals[i])
  {
    LookupAt(Zip(keys, vals), i);
  }

  /** A lookup finds the value of the first entry that carries the key. */
  lemma {:induction false} LookupFirst(o: Object, i: int)
    requires 0 <= i < |o| && forall j :: 0 <= j < i ==> o[j].key != o[i].key
    ensures Lookup(o, o[i].key) == Some(o[i].val)
  {
    if i > 0 {
      LookupFirst(o[1..], i - 1);
    }
  }

  /** A lookup in a display finds the value listed with the key's first
      occurrence. */
  lemma ZipAt(keys: seq<string>, vals: seq<Value>, i: int)
    requires |keys| == |vals| && 0 <= i < |keys| && keys[i] !in keys[..i]
    ensures Lookup(Zip(keys, vals), keys[i]) == Some(vals[i])
  {
    forall j | 0 <= j < i ensures keys[j] != keys[i] {
      assert keys[j] == keys[..i][j];
    }
    LookupFirst(Zip(keys, vals), i);
  }

  /** `o[k] = v`: replaces the value of an existing key where it stands,
      or appends a new entry. */
  function Put(o: Object, k: string, v: Value): (r: Object)
    ensures Lookup(r, k) == Some(v)
    ensures HasKey(o, k) ==> |r| == |o|
    ensures !HasKey(o, k) ==> r == o + [Entry(k, v)]
  {
    if o == [] then [Entry(k, v)]
    else if o[0].key == k then [Entry(k, v)] + o[1..]
    else
      [o[0]] + Put(o[1..], k, v)
  }

  /** Storing under `k` leaves every other key's value as it was. */
  lemma {:induction false} PutOther(o: Object, k: string, v: Value, k': string)
    requires k' != k
    ensures Lookup(Put(o, k, v), k') == Lookup(o, k')
  {
    if o != [] && o[0].key != k {
      PutOther(o[1..], k, v, k');
    }
  }

  /** Storing under `k` changes the lookup of no other key. */
  lemma PutOthers(o: Object, k: string, v: Value)
    ensures forall k' :: k' != k ==> Lookup(Put(o, k, v), k') == Lookup(o, k')
  {
    forall k' | k' != k ensures Lookup(Put(o, k, v), k') == Lookup(o, k') {
      PutOther(o, k, v, k');
    }
  }

  /** Storing keeps the keys and their order, adding `k` at the end when
      it is new. */
  lemma {:induction false} PutKeys(o: Object, k: string, v: Value)
    ensures Keys(Put(o, k, v)) == if HasKey(o, k) then Keys(o) else Keys(o) + [k]
  {
    if o != [] && o[0].key != k {
      PutKeys(o[1..], k, v);
      assert ([o[0]] + Put(o[1..], k, v))[1..] == Put(o[1..], k, v);
    } else if o != [] {
      assert ([Entry(k, v)] + o[1..])[1..] == o[1..];
    }
  }

  /** Storing keeps the keys of a dict distinct. */
  lemma PutUnique(o: Object, k: string, v: Value)
    requires KeysUnique(o)
    ensures KeysUnique(Put(o, k, v))
  {
    PutKeys(o, k, v);
    HasKeyIff(o, k);
    var r := Put(o, k, v);
    assert forall i :: 0 <= i < |r| ==> r[i].key == Keys(r)[i];
  }

  /** Python truthiness: `None`, `False`, `0`, `""`, `[]` and `{}` are false. */
  predicate Truthy(v: Value) {
    match v
    case Null => false
    case Bool(b) => b
    case Int(i) => i != 0
    case Str(s) => s != []
    case List(items) => items != []
    case Dict(entries) => entries != []
  }

  /** `isinstance(v, str)` */
  predicate IsStr(v: Value) {
    v.Str?
  }

  /** `isinstance(v, int)`: true for booleans too, as `bool` is a subclass
      of `int` in Python. */
  predicate IsInt(v: Value) {
    v.Int? || v.Bool?
  }

  /** A string value, or `fallback` when `v` is not a string. */
  function StrOr(v: Option<Value>, fallback: string): string {
    if v.Some? && v.value.Str? then v.value.s else fallback
  }

  /** `str(v)` inside an f-string, for the scalar values that the code
      generators interpolate; containers are shown by their element count. */
  function Render(v: Value): string {
    match v
    case Null => "None"
    case Bool(b) => if b then "True" else "False"
    case Int(i) => Text.IntToString(i)
    case Str(s) => s
    case List(items) => "[" + Text.IntToString(|items|) + " items]"
    case Dict(entries) => "{" + Text.IntToString(|entries|) + " entries}"
  }
}
