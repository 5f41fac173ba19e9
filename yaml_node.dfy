/**
 * The generic YAML document tree that both the placeholder substitution and
 * the typed-value parser work on: serde_yml's `Value`, its `Number`, and the
 * two operations of its insertion-ordered `Mapping` that the core uses
 * (`get` and `insert`).
 */
module Yaml {
  import opened Wrappers

  type U64 = x: int | 0 <= x < 0x1_0000_0000_0000_0000
  type I64 = x: int | -0x8000_0000_0000_0000 <= x < 0x8000_0000_0000_0000

  /** The negative part of the signed 64-bit range. */
  type NegI64 = x: int | -0x8000_0000_0000_0000 <= x < 0 witness -1

  const I64Max: int := 0x7FFF_FFFF_FFFF_FFFF

  /**
   * A YAML number as serde_yml stores it: a non-negative integer that fits
   * in 64 unsigned bits, a negative integer that fits in 64 signed bits, or
   * a binary64 float kept as its raw bits (its IEEE meaning is not modelled).
   * Every integer at or above zero is a `PosInt`, so `NegInt` holds only
   * negative ones.
   */
  datatype Number = PosInt(u: U64) | NegInt(i: NegI64) | Float(bits: bv64)

  /** The 64-bit float that converting a YAML number gives; kept opaque. */
  datatype F64 = AsF64Of(n: Number)

  /** `Number::as_i64`: defined for every integer that fits in a signed 64-bit integer. */
  function AsI64(n: Number): (r: Option<I64>)
    ensures r.None? <==> n.Float? || (n.PosInt? && n.u > I64Max)
  {
    match n
    case PosInt(u) => if u <= I64Max then Some(u) else None
    case NegInt(i) => Some(i)
    case Float(_) => None
  }

  /** `Number::as_f64`: every YAML number converts (integers by rounding to the nearest float). */
  function AsF64(n: Number): Option<F64>
  {
    Some(AsF64Of(n))
  }

  /** The number serde_yml produces for an integer literal `i`. */
  function FromI64(i: I64): Number
  {
    if i >= 0 then PosInt(i) else NegInt(i)
  }

  /** Reading back the number stored for an integer gives that integer, and the reverse. */
  lemma {:induction false} I64RoundTrip(i: I64, n: Number)
    ensures AsI64(FromI64(i)) == Some(i)
    ensures AsI64(n).Some? ==> FromI64(AsI64(n).value) == n
  {
  }

  datatype Node =
    | Null
    | Bool(b: bool)
    | Number(n: Number)
    | String(s: string)
    | Sequence(items: seq<Node>)
    | Mapping(entries: seq<(Node, Node)>)
    | Tagged(tag: string, value: Node)

  /** The entries of a YAML mapping in document order. */
  type Entries = seq<(Node, Node)>

  /** A serde_yml mapping never holds two equal keys. */
  ghost predicate DistinctKeys(m: Entries)
  {
    forall i, j :: 0 <= i < j < |m| ==> m[i].0 != m[j].0
  }

  /** The position of `key` in `m`: the first entry whose key equals it. */
  function KeyIndex(m: Entries, key: Node): (r: Option<nat>)
    ensures r.Some? ==> r.value < |m| && m[r.value].0 == key
  {
    if m == [] then None
    else if m[0].0 == key then Some(0)
    else match KeyIndex(m[1..], key)
      case None => None
      case Some(i) => Some(i + 1)
  }

  /** `KeyIndex` finds the first entry with the key, and finds none only when there is none. */
  lemma {:induction false} KeyIndexSpec(m: Entries, key: Node)
    ensures var r := KeyIndex(m, key);
      && (r.Some? ==> forall i :: 0 <= i < r.value ==> m[i].0 != key)
      && (r.None? ==> forall i :: 0 <= i < |m| ==> m[i].0 != key)
    decreases |m|
  {
    if m != [] && m[0].0 != key {
      KeyIndexSpec(m[1..], key);
      assert forall i :: 1 <= i < |m| ==> m[i] == m[1..][i - 1];
    }
  }

  /** The first entry with key `key` is the one `KeyIndex` finds. */
  lemma {:induction false} KeyIndexAt(m: Entries, key: Node, j: nat)
    requires j < |m| && m[j].0 == key
    requires forall i :: 0 <= i < j ==> m[i].0 != key
    ensures KeyIndex(m, key) == Some(j)
  {
    KeyIndexSpec(m, key);
  }

  /** `Mapping::get`: the value stored under `key`, if any. */
  function Get(m: Entries, key: Node): (r: Option<Node>)
    ensures r.Some? ==> r.value < Mapping(m)
  {
    match KeyIndex(m, key)
    case None => None
    case Some(j) =>
      assert m[j].1 < m[j];
      Some(m[j].1)
  }

  /** `get` finds a value exactly when the key is present, and in a mapping with distinct keys it is the key's value. */
  lemma {:induction false} GetSpec(m: Entries, key: Node)
    ensures var r := Get(m, key);
      && (r.Some? <==> exists j :: 0 <= j < |m| && m[j].0 == key)
      && (r.Some? ==> exists j :: 0 <= j < |m| && m[j] == (key, r.value))
      && (DistinctKeys(m) ==> forall j :: 0 <= j < |m| && m[j].0 == key ==> r == Some(m[j].1))
  {
    KeyIndexSpec(m, key);
  }

  /**
   * `Mapping::insert`: a key already present keeps its position and takes
   * the new value; a new key is appended at the end.
   */
  function Insert(m: Entries, key: Node, value: Node): (r: Entries)
    ensures (forall i :: 0 <= i < |m| ==> m[i].0 != key) ==> r == m + [(key, value)]
  {
    KeyIndexSpec(m, key);
    match KeyIndex(m, key)
    case Some(j) =>
      var r := m[j := (key, value)];
      KeyIndexAt(r, key, j);
      r
    case None =>
      var r := m + [(key, value)];
      KeyIndexAt(r, key, |m|);
      r
  }

  /** Every entry after an insert was already there or is the inserted one. */
  lemma {:induction false} InsertFrom(m: Entries, key: Node, value: Node)
    ensures forall k, v :: (k, v) in Insert(m, key, value) ==> (k, v) in m || (k, v) == (key, value)
  {
    var r := Insert(m, key, value);
    forall k, v | (k, v) in r ensures (k, v) in m || (k, v) == (key, value) {
      var i :| 0 <= i < |r| && r[i] == (k, v);
      match KeyIndex(m, key)
      case Some(j) => if i != j { assert r[i] == m[i]; }
      case None => if i < |m| { assert r[i] == m[i]; }
    }
  }

  /**
   * The node under any number of tags. serde_yml's typed accessors
   * (`as_str`, `as_bool`, `as_sequence`, `as_mapping`) look through tags;
   * a direct `match` on a node does not.
   */
  function Untag(n: Node): (r: Node)
    ensures !r.Tagged?
    ensures r == n || r < n
    ensures !n.Tagged? ==> r == n
  {
    match n
    case Tagged(_, v) => Untag(v)
    case _ => n
  }

  /** `Value::as_str`. */
  function AsStr(n: Node): (r: Option<string>)
    ensures r.Some? <==> Untag(n).String?
    ensures r.Some? ==> Untag(n) == String(r.value)
  {
    match Untag(n)
    case String(s) => Some(s)
    case _ => None
  }

  /** `Value::as_bool`. */
  function AsBool(n: Node): (r: Option<bool>)
    ensures r.Some? <==> Untag(n).Bool?
    ensures r.Some? ==> Untag(n) == Bool(r.value)
  {
    match Untag(n)
    case Bool(b) => Some(b)
    case _ => None
  }

  /** `Value::as_sequence`. */
  function AsSequence(n: Node): (r: Option<seq<Node>>)
    ensures r.Some? <==> Untag(n).Sequence?
    ensures r.Some? ==> Untag(n) == Sequence(r.value)
  {
    match Untag(n)
    case Sequence(items) => Some(items)
    case _ => None
  }

  /** `Value::as_mapping`. */
  function AsMapping(n: Node): (r: Option<Entries>)
    ensures r.Some? <==> Untag(n).Mapping?
    ensures r.Some? ==> Untag(n) == Mapping(r.value)
  {
    match Untag(n)
    case Mapping(entries) => Some(entries)
    case _ => None
  }
}
