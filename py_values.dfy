/**
 * Python runtime values as they reach the modelled code: decoded JSON/TOML
 * payloads (None, bools, ints, strings, bytes, lists, string-keyed dicts),
 * enum members and plain instances of user classes. A dict, and an
 * instance's `__dict__`, is an association list in insertion order, since
 * iteration order matters to several of the modelled functions.
 */
module PyValues {
  import opened Wrappers

  type byte = b: int | 0 <= b < 256

  datatype Value =
    | VNone
    | VBool(b: bool)
    | VInt(i: int)
    | VStr(s: string)
    | VBytes(bytes: seq<byte>)
    | VList(items: seq<Value>)
    | VDict(entries: seq<(string, Value)>)
    | VEnum(enumName: string, member: string)
    | VObj(cls: string, attrs: seq<(string, Value)>)

  /**
   * `hash(v)` succeeds: lists and dicts are the unhashable values. Every
   * instance counts as hashable, as one of a plain class is; an instance
   * whose class sets `__hash__` to `None` (a non-frozen `@dataclass` with
   * `eq=True`, for one) is not told apart.
   */
  predicate Hashable(v: Value)
  {
    !v.VList? && !v.VDict?
  }

  /** Python's `bool(v)`. */
  predicate Truthy(v: Value)
  {
    match v
    case VNone => false
    case VBool(b) => b
    case VInt(i) => i != 0
    case VStr(s) => |s| > 0
    case VBytes(bs) => |bs| > 0
    case VList(items) => |items| > 0
    case VDict(entries) => |entries| > 0
    case VEnum(_, _) => true
    case VObj(_, _) => true
  }

  /** The integer a bool or an int stands for; `True == 1` in Python. */
  function AsInt(v: Value): Option<int>
  {
    match v
    case VBool(b) => Some(if b then 1 else 0)
    case VInt(i) => Some(i)
    case _ => None
  }

  /**
   * Python's `a == b`. A bool equals the int it stands for, at any depth;
   * lists compare item by item; dicts compare as mappings, whatever the
   * order of their entries (for a key held twice, the first entry is the
   * one a lookup sees). Any other value equals only itself: enum members
   * by identity, instances by their class and attributes.
   */
  predicate PyEq(a: Value, b: Value)
    decreases a
  {
    if AsInt(a).Some? && AsInt(b).Some? then AsInt(a).value == AsInt(b).value
    else match a
      case VList(xs) =>
        b.VList? && |xs| == |b.items| && forall i :: 0 <= i < |xs| ==> PyEq(xs[i], b.items[i])
      case VDict(es) =>
        b.VDict? && KeySet(es) == KeySet(b.entries)
        && forall i, j ::
             (0 <= i < |es| && 0 <= j < |b.entries| && FirstKey(es, i) && FirstKey(b.entries, j) && es[i].0 == b.entries[j].0)
             ==> PyEq(es[i].1, b.entries[j].1)
      case _ => a == b
  }

  /** `==` is reflexive. */
  lemma {:induction false} PyEqReflexive(a: Value)
    ensures PyEq(a, a)
    decreases a
  {
    match a
    case VList(xs) =>
      forall i | 0 <= i < |xs| ensures PyEq(xs[i], xs[i]) {
        PyEqReflexive(xs[i]);
      }
    case VDict(es) =>
      forall i, j | 0 <= i < |es| && 0 <= j < |es| && FirstKey(es, i) && FirstKey(es, j) && es[i].0 == es[j].0
        ensures PyEq(es[i].1, es[j].1)
      {
        assert i == j;
        PyEqReflexive(es[i].1);
      }
    case _ =>
  }

  /** `==` is symmetric. */
  lemma {:induction false} PyEqSymmetric(a: Value, b: Value)
    requires PyEq(a, b)
    ensures PyEq(b, a)
    decreases a
  {
    if !(AsInt(a).Some? && AsInt(b).Some?) {
      match a
      case VList(xs) =>
        forall i | 0 <= i < |xs| ensures PyEq(b.items[i], xs[i]) {
          PyEqSymmetric(xs[i], b.items[i]);
        }
      case VDict(es) =>
        var fs := b.entries;
        forall j, i | 0 <= j < |fs| && 0 <= i < |es| && FirstKey(fs, j) && FirstKey(es, i) && fs[j].0 == es[i].0
          ensures PyEq(fs[j].1, es[i].1)
        {
          PyEqSymmetric(es[i].1, fs[j].1);
        }
      case _ =>
    }
  }

  /** `==` is transitive: for dicts, through the entry the middle dict holds for each key. */
  lemma {:induction false} PyEqTransitive(a: Value, b: Value, c: Value)
    requires PyEq(a, b) && PyEq(b, c)
    ensures PyEq(a, c)
    decreases a
  {
    if !(AsInt(a).Some? && AsInt(b).Some?) {
      match a
      case VList(xs) =>
        forall i | 0 <= i < |xs| ensures PyEq(xs[i], c.items[i]) {
          PyEqTransitive(xs[i], b.items[i], c.items[i]);
        }
      case VDict(es) =>
        var fs, gs := b.entries, c.entries;
        forall i, k | 0 <= i < |es| && 0 <= k < |gs| && FirstKey(es, i) && FirstKey(gs, k) && es[i].0 == gs[k].0
          ensures PyEq(es[i].1, gs[k].1)
        {
          assert es[i].0 in KeySet(es);
          var j := FirstIndex(fs, es[i].0);
          PyEqTransitive(es[i].1, fs[j].1, gs[k].1);
        }
      case _ =>
    }
  }

  /** The keys of an association list, as a set. */
  function KeySet<V>(entries: seq<(string, V)>): set<string>
  {
    set i | 0 <= i < |entries| :: entries[i].0
  }

  /** Entry `i` is the first one with its key: the entry a lookup sees. */
  predicate FirstKey<V>(entries: seq<(string, V)>, i: nat)
    requires i < |entries|
  {
    forall j :: 0 <= j < i ==> entries[j].0 != entries[i].0
  }

  /** Where the first entry with a key the list holds sits. */
  function FirstIndex<V>(entries: seq<(string, V)>, key: string): (i: nat)
    requires key in KeySet(entries)
    ensures i < |entries| && entries[i].0 == key && FirstKey(entries, i)
    decreases |entries|
  {
    if entries[0].0 == key then 0
    else
      assert key in KeySet(entries[1..]) by {
        var k :| 0 <= k < |entries| && entries[k].0 == key;
        assert entries[1..][k - 1].0 == key;
      }
      1 + FirstIndex(entries[1..], key)
  }

  /** Keys of an association list, in order. */
  function Keys<V>(entries: seq<(string, V)>): (ks: seq<string>)
    ensures |ks| == |entries|
    ensures forall i :: 0 <= i < |entries| ==> ks[i] == entries[i].0
  {
    seq(|entries|, i requires 0 <= i < |entries| => entries[i].0)
  }

  /** `d.get(key)` on an association list: the first entry with that key. */
  function Get<V>(entries: seq<(string, V)>, key: string): (r: Option<V>)
    ensures r.None? <==> key !in Keys(entries)
    ensures r.Some? ==> (key, r.value) in entries
  {
    if |entries| == 0 then None
    else if entries[0].0 == key then Some(entries[0].1)
    else
      assert Keys(entries) == [entries[0].0] + Keys(entries[1..]);
      Get(entries[1..], key)
  }

  /** `d[key] = v` on an association list: an existing key keeps its place, a new key is appended. */
  function Put<V>(entries: seq<(string, V)>, key: string, v: V): (r: seq<(string, V)>)
  {
    if |entries| == 0 then [(key, v)]
    else if entries[0].0 == key then [(key, v)] + entries[1..]
    else [entries[0]] + Put(entries[1..], key, v)
  }

  /** After `d[key] = v`, `d[key]` is `v` and every other key reads as before. */
  lemma {:induction false} PutGet<V>(entries: seq<(string, V)>, key: string, v: V)
    ensures Get(Put(entries, key, v), key) == Some(v)
    ensures forall k :: k != key ==> Get(Put(entries, key, v), k) == Get(entries, k)
  {
    if |entries| > 0 && entries[0].0 != key {
      PutGet(entries[1..], key, v);
      assert ([entries[0]] + Put(entries[1..], key, v))[1..] == Put(entries[1..], key, v);
    } else if |entries| > 0 {
      assert ([(key, v)] + entries[1..])[1..] == entries[1..];
    }
  }

  /** `d[key] = v` keeps the key order; a new key goes last. */
  lemma {:induction false} PutKeys<V>(entries: seq<(string, V)>, key: string, v: V)
    ensures key in Keys(entries) ==> Keys(Put(entries, key, v)) == Keys(entries)
    ensures key !in Keys(entries) ==> Keys(Put(entries, key, v)) == Keys(entries) + [key]
  {
    if |entries| > 0 && entries[0].0 != key {
      PutKeys(entries[1..], key, v);
      var rest := Put(entries[1..], key, v);
      assert Keys(entries) == [entries[0].0] + Keys(entries[1..]);
      assert Keys([entries[0]] + rest) == [entries[0].0] + Keys(rest);
    } else if |entries| > 0 {
      assert Keys(entries) == [key] + Keys(entries[1..]);
      assert Keys([(key, v)] + entries[1..]) == [key] + Keys(entries[1..]);
    }
  }
}
