/** The values `json.loads` produces, and the few Python built-ins the
    modelled code applies to them: `len`, indexing, iteration, key lookup,
    key assignment and truth testing, each with the exception text CPython
    (3.11 and later) raises when the value has the wrong shape. */
module JsonValue {
  import opened Outcomes

  /** A Python dict keeps its keys in insertion order, so a `Dict` is the
      sequence of its entries. `json.loads` never builds two entries with
      the same key (see DistinctKeys), but the type does not demand it, so
      the model's `loads` parameters may also return dicts Python cannot
      build; `Lookup` then sees the first entry for a key, and no property
      proved here depends on distinct keys in the parsed reply. */
  datatype Json =
    | Null
    | Bool(b: bool)
    | Int(i: int)
    | Float(f: real)
    | Str(s: string)
    | List(items: seq<Json>)
    | Dict(entries: seq<(string, Json)>)

  type Entries = seq<(string, Json)>

  /** `type(v).__name__` */
  function TypeName(v: Json): string {
    match v
    case Null => "NoneType"
    case Bool(_) => "bool"
    case Int(_) => "int"
    case Float(_) => "float"
    case Str(_) => "str"
    case List(_) => "list"
    case Dict(_) => "dict"
  }

  /** `bool(v)`: None, False, zero and empty containers are false. */
  predicate Truthy(v: Json) {
    match v
    case Null => false
    case Bool(b) => b
    case Int(i) => i != 0
    case Float(f) => f != 0.0
    case Str(s) => |s| > 0
    case List(items) => |items| > 0
    case Dict(entries) => |entries| > 0
  }

  /** A value that has a length is true exactly when that length is not zero. */
  lemma TruthyIsNonEmpty(v: Json)
    requires Len(v).Ok?
    ensures Truthy(v) <==> Len(v).value > 0
  {
  }

  // ---------------------------------------------------------------------
  // Dicts as ordered entries

  /** `list(d.keys())` */
  function KeySeq(d: Entries): (ks: seq<string>)
    ensures |ks| == |d|
    ensures forall i :: 0 <= i < |d| ==> ks[i] == d[i].0
  {
    seq(|d|, i requires 0 <= i < |d| => d[i].0)
  }

  /** `set(d.keys())` */
  function KeySet(d: Entries): (ks: set<string>)
    ensures forall k :: k in ks <==> exists i :: 0 <= i < |d| && d[i].0 == k
    decreases |d|
  {
    if d == [] then {}
    else
      var ks := {d[0].0} + KeySet(d[1..]);
      assert forall i :: 1 <= i < |d| ==> d[i] == d[1..][i - 1];
      ks
  }

  predicate DistinctKeys(d: Entries) {
    forall i, j :: 0 <= i < j < |d| ==> d[i].0 != d[j].0
  }

  /** `d.get(k)`: the value stored under `k`, if any. */
  function Lookup(d: Entries, k: string): (r: Option<Json>)
    ensures r.Some? <==> k in KeySet(d)
    ensures r.Some? ==> exists i :: 0 <= i < |d| && d[i] == (k, r.value)
    decreases |d|
  {
    if d == [] then None
    else if d[0].0 == k then Some(d[0].1)
    else
      var r := Lookup(d[1..], k);
      assert r.Some? ==> exists i :: 0 <= i < |d[1..]| && d[1..][i] == (k, r.value);
      r
  }

  /** `d[k] = v`: an existing key keeps its place and takes the new value;
      a new key goes at the end. */
  function DictSet(d: Entries, k: string, v: Json): (r: Entries)
    ensures KeySet(r) == KeySet(d) + {k}
    ensures Lookup(r, k) == Some(v)
    ensures forall k' :: k' != k ==> Lookup(r, k') == Lookup(d, k')
    decreases |d|
  {
    if d == [] then [(k, v)]
    else if d[0].0 == k then
      var r := [(k, v)] + d[1..];
      assert r[1..] == d[1..];
      r
    else
      var tail := DictSet(d[1..], k, v);
      var r := [d[0]] + tail;
      assert r[1..] == tail;
      r
  }

  /** `d[k] = v` with a new key appends the entry. */
  lemma {:induction false} DictSetAppends(d: Entries, k: string, v: Json)
    requires k !in KeySet(d)
    ensures DictSet(d, k, v) == d + [(k, v)]
    decreases |d|
  {
    if d != [] {
      assert KeySet(d) == {d[0].0} + KeySet(d[1..]);
      assert d[0].0 != k && k !in KeySet(d[1..]);
      DictSetAppends(d[1..], k, v);
      assert DictSet(d, k, v) == [d[0]] + DictSet(d[1..], k, v);
      assert d == [d[0]] + d[1..];
    }
  }

  /** `d[k] = v` with a key already present keeps every key in its place. */
  lemma {:induction false} DictSetReplaces(d: Entries, k: string, v: Json)
    requires k in KeySet(d)
    ensures |DictSet(d, k, v)| == |d|
    ensures forall i :: 0 <= i < |d| ==> DictSet(d, k, v)[i].0 == d[i].0
    decreases |d|
  {
    var r := DictSet(d, k, v);
    if d[0].0 == k {
      assert r == [(k, v)] + d[1..];
      assert forall i :: 0 < i < |d| ==> r[i] == d[i];
    } else {
      assert KeySet(d) == {d[0].0} + KeySet(d[1..]);
      DictSetReplaces(d[1..], k, v);
      var tail := DictSet(d[1..], k, v);
      assert r == [d[0]] + tail;
      forall i | 0 < i < |d| ensures r[i].0 == d[i].0 {
        assert r[i] == tail[i - 1] && d[i] == d[1..][i - 1];
      }
    }
  }

  /** Two entry lists with the same keys at the same places have the same key sequence. */
  lemma KeySeqSame(a: Entries, b: Entries)
    requires |a| == |b| && forall i :: 0 <= i < |a| ==> a[i].0 == b[i].0
    ensures KeySeq(a) == KeySeq(b)
  {
  }

  lemma KeySeqAppend(d: Entries, k: string, v: Json)
    ensures KeySeq(d + [(k, v)]) == KeySeq(d) + [k]
  {
    var r := d + [(k, v)];
    assert forall i :: 0 <= i < |d| ==> r[i] == d[i];
  }

  /** `d[k] = v` keeps the order of the keys already there; a new key goes last. */
  lemma DictSetKeySeq(d: Entries, k: string, v: Json)
    ensures KeySeq(DictSet(d, k, v)) == if k in KeySet(d) then KeySeq(d) else KeySeq(d) + [k]
  {
    if k !in KeySet(d) {
      DictSetAppends(d, k, v);
      KeySeqAppend(d, k, v);
    } else {
      DictSetReplaces(d, k, v);
      KeySeqSame(DictSet(d, k, v), d);
    }
  }

  /** Whether keys repeat depends only on the key sequence. */
  lemma DistinctByKeySeq(a: Entries, b: Entries)
    requires KeySeq(a) == KeySeq(b) && DistinctKeys(b)
    ensures DistinctKeys(a)
  {
    forall i, j | 0 <= i < j < |a| ensures a[i].0 != a[j].0 {
      assert KeySeq(a)[i] == KeySeq(b)[i] && KeySeq(a)[j] == KeySeq(b)[j];
    }
  }

  lemma DistinctAppend(d: Entries, k: string, v: Json)
    requires DistinctKeys(d) && k !in KeySet(d)
    ensures DistinctKeys(d + [(k, v)])
  {
    var r := d + [(k, v)];
    forall i, j | 0 <= i < j < |r| ensures r[i].0 != r[j].0 {
      assert r[i] == d[i];
      if j < |d| {
        assert r[j] == d[j];
      }
    }
  }

  /** `d[k] = v` never creates a second entry for one key. */
  lemma DictSetDistinct(d: Entries, k: string, v: Json)
    requires DistinctKeys(d)
    ensures DistinctKeys(DictSet(d, k, v))
  {
    if k !in KeySet(d) {
      DictSetAppends(d, k, v);
      DistinctAppend(d, k, v);
    } else {
      DictSetReplaces(d, k, v);
      KeySeqSame(DictSet(d, k, v), d);
      DistinctByKeySeq(DictSet(d, k, v), d);
    }
  }

  /** Assigning the same key twice leaves only the second value. */
  lemma {:induction false} DictSetTwice(d: Entries, k: string, a: Json, b: Json)
    ensures DictSet(DictSet(d, k, a), k, b) == DictSet(d, k, b)
    decreases |d|
  {
    if d != [] && d[0].0 != k {
      DictSetTwice(d[1..], k, a, b);
      var once := DictSet(d, k, a);
      assert once[1..] == DictSet(d[1..], k, a);
    }
  }

  // ---------------------------------------------------------------------
  // Exception texts

  /** Decimal digits of `n`, as `str(n)` writes them. */
  function NatToString(n: nat): string
    decreases n
  {
    var digit := "0123456789"[n % 10];
    if n < 10 then [digit] else NatToString(n / 10) + [digit]
  }

  function NoLenMessage(v: Json): string {
    "object of type '" + TypeName(v) + "' has no len()"
  }

  function NoAttributeMessage(v: Json, attribute: string): string {
    "'" + TypeName(v) + "' object has no attribute '" + attribute + "'"
  }

  function NotIterableMessage(v: Json): string {
    "'" + TypeName(v) + "' object is not iterable"
  }

  function NotSubscriptableMessage(v: Json): string {
    "'" + TypeName(v) + "' object is not subscriptable"
  }

  /** `str(KeyError(k))` for a string key without quotes or escapes. */
  function MissingKeyMessage(k: string): string {
    "'" + k + "'"
  }

  const ListIndexMessage := "list index out of range"

  // ---------------------------------------------------------------------
  // Built-ins applied to values

  /** `len(v)` */
  function Len(v: Json): (r: Outcome<nat>)
    ensures r.Ok? <==> v.Str? || v.List? || v.Dict?
  {
    match v
    case Str(s) => Ok(|s|)
    case List(items) => Ok(|items|)
    case Dict(entries) => Ok(|entries|)
    case _ => Raised(NoLenMessage(v))
  }

  /** `v[i]` with an integer index: a one-character string for a `str`;
      a dict parsed from JSON has only string keys, so any integer is missing. */
  function ItemAt(v: Json, i: nat): (r: Outcome<Json>)
    ensures r.Ok? <==> (v.Str? || v.List?) && i < Len(v).value
  {
    match v
    case Str(s) => if i < |s| then Ok(Str([s[i]])) else Raised("string index out of range")
    case List(items) => if i < |items| then Ok(items[i]) else Raised(ListIndexMessage)
    case Dict(_) => Raised(NatToString(i))
    case _ => Raised(NotSubscriptableMessage(v))
  }

  /** The values a `for` loop over `v` visits: a list's items, a string's
      characters, a dict's keys. */
  function Iterate(v: Json): (r: Outcome<seq<Json>>)
    ensures r.Ok? <==> Len(v).Ok?
    ensures r.Ok? ==> |r.value| == Len(v).value
  {
    match v
    case Str(s) => Ok(seq(|s|, i requires 0 <= i < |s| => Str([s[i]])))
    case List(items) => Ok(items)
    case Dict(entries) => Ok(seq(|entries|, i requires 0 <= i < |entries| => Str(entries[i].0)))
    case _ => Raised(NotIterableMessage(v))
  }

  /** `v[k]` with a string key. */
  function Subscript(v: Json, k: string): (r: Outcome<Json>)
    ensures r.Ok? <==> v.Dict? && Lookup(v.entries, k).Some?
    ensures r.Ok? ==> r.value == Lookup(v.entries, k).value
  {
    match v
    case Dict(entries) =>
      (match Lookup(entries, k)
       case Some(x) => Ok(x)
       case None => Raised(MissingKeyMessage(k)))
    case List(_) => Raised("list indices must be integers or slices, not str")
    case Str(_) => Raised("string indices must be integers, not 'str'")
    case _ => Raised(NotSubscriptableMessage(v))
  }

  /** `isinstance(v, dict) and k in v and v[k] is not None` */
  predicate HasNonNull(v: Json, k: string) {
    v.Dict? && Lookup(v.entries, k).Some? && Lookup(v.entries, k).value != Null
  }
}
