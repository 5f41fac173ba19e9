/**
 * Environment-placeholder substitution over a YAML document
 * (`EnvReplacer` in src/yaml/mod.rs).
 *
 * Every string leaf that the walk visits is scanned for the leftmost
 * `env!(`; the text up to the next `)` names an environment variable, every
 * occurrence of `env!(NAME)` is replaced by its value, and the string is
 * scanned again from the start. The environment is a snapshot passed in as
 * a map. The source repeats the rescan without bound; here each string gets
 * at most `fuel` rescans and reports `OutOfFuel` beyond that.
 */
module EnvReplacer {
  import opened Wrappers
  import opened Text
  import opened Yaml

  datatype Error = EnvVarNotFound(envName: string) | InvalidEnvSyntax

  /** The outcome of a walk: the source's `Result`, plus running out of rescans. */
  datatype EnvResult<+T> = Resolved(value: T) | Failed(error: Error) | OutOfFuel
  {
    predicate IsFailure() { !Resolved? }

    function PropagateFailure<U>(): EnvResult<U>
      requires !Resolved?
    {
      if Failed? then Failed(error) else OutOfFuel
    }

    function Extract(): T
      requires Resolved?
    {
      value
    }
  }

  const Marker: string := "env!("

  /** The text that one placeholder for `name` occupies. */
  function Placeholder(name: string): string
  {
    Marker + name + ")"
  }

  /** `i` is where the leftmost `env!(` of `s` starts. */
  ghost predicate FirstMarkerAt(s: string, i: nat)
  {
    OccursAt(s, Marker, i) && forall j: nat :: j < i ==> !OccursAt(s, Marker, j)
  }

  /** The leftmost `env!(` of `s` starts at `i` and the first `)` after it closes `name`. */
  ghost predicate PlaceholderAt(s: string, i: nat, name: string)
  {
    FirstMarkerAt(s, i) && OccursAt(s, name + ")", i + |Marker|) && ')' !in name
  }

  /** No `)` follows the leftmost `env!(` of `s`. */
  ghost predicate Unterminated(s: string)
  {
    exists i: nat :: FirstMarkerAt(s, i) && ')' !in s[i + |Marker|..]
  }

  lemma {:induction false} FirstMarkerUnique(s: string, i: nat, k: nat)
    requires FirstMarkerAt(s, i) && FirstMarkerAt(s, k)
    ensures i == k
  {
  }

  lemma {:induction false} CharOccursAt(s: string, c: char, k: nat)
    ensures OccursAt(s, [c], k) <==> k < |s| && s[k] == c
  {
    if k < |s| { assert s[k..k + 1] == [s[k]]; }
  }

  /**
   * What `find_env` computes: the characters between the leftmost `env!(`
   * and the first `)` after it, nothing when the string has no `env!(`, and
   * `InvalidEnvSyntax` when no `)` follows.
   */
  function FindEnvName(s: string): Result<Option<string>, Error>
  {
    match Find(s, Marker)
    case None => Ok(None)
    case Some(i) =>
      var rest := s[i + |Marker|..];
      match Find(rest, ")")
      case None => Err(InvalidEnvSyntax)
      case Some(j) => Ok(Some(rest[..j]))
  }

  /**
   * `find_env` reports no name exactly when the string has no `env!(`,
   * fails exactly when no `)` follows the leftmost one, and otherwise names
   * the text that the leftmost placeholder encloses.
   */
  lemma {:induction false} FindEnvNameOutcome(s: string)
    ensures var r := FindEnvName(s);
      && (r == Ok(None) <==> !Contains(s, Marker))
      && (r.Err? <==> Unterminated(s))
      && (r.Err? ==> r.error == InvalidEnvSyntax)
      && (r.Ok? && r.value.Some? ==> exists i: nat :: PlaceholderAt(s, i, r.value.value))
  {
    FindSpec(s, Marker);
    match Find(s, Marker)
    case None =>
    case Some(i) =>
      assert FirstMarkerAt(s, i);
      var rest := s[i + |Marker|..];
      FindSpec(rest, ")");
      match Find(rest, ")")
      case None =>
        assert ')' !in rest by {
          forall k | 0 <= k < |rest| ensures rest[k] != ')' { CharOccursAt(rest, ')', k); }
        }
      case Some(j) =>
        CharOccursAt(rest, ')', j);
        var name := rest[..j];
        assert ')' !in name by {
          forall k | 0 <= k < j ensures rest[k] != ')' { CharOccursAt(rest, ')', k); }
        }
        assert s[i + |Marker|..i + |Marker| + |name + ")"|] == rest[..j + 1] == name + ")";
        assert PlaceholderAt(s, i, name);
        assert !Unterminated(s) by {
          forall k: nat | FirstMarkerAt(s, k) ensures ')' in s[k + |Marker|..] {
            FirstMarkerUnique(s, i, k);
            assert rest[j] == ')';
          }
        }
  }

  /** The first `)` after a position determines the name before it. */
  lemma {:induction false} NameUnique(s: string, p: nat, a: string, b: string)
    requires OccursAt(s, a + ")", p) && ')' !in a
    requires OccursAt(s, b + ")", p) && ')' !in b
    ensures a == b
  {
    var t := s[p..];
    ClosedNameIsFirstParen(t, a);
    ClosedNameIsFirstParen(t, b);
    assert a == t[..|a|] == b;
  }

  lemma {:induction false} ClosedNameIsFirstParen(t: string, a: string)
    requires |a| < |t| && t[..|a| + 1] == a + ")" && ')' !in a
    ensures Find(t, ")") == Some(|a|) && t[..|a|] == a
  {
    assert t[..|a|] == (a + ")")[..|a|] == a;
    CharOccursAt(t, ')', |a|);
    forall j: nat | j < |a| ensures !OccursAt(t, ")", j) {
      CharOccursAt(t, ')', j);
      assert t[j] == a[j];
    }
    FindLeftmost(t, ")", |a|);
  }

  /** A string with a placeholder at its leftmost `env!(` yields exactly that name. */
  lemma {:induction false} PlaceholderFound(s: string, i: nat, name: string)
    requires PlaceholderAt(s, i, name)
    ensures FindEnvName(s) == Ok(Some(name))
  {
    assert OccursAt(s, Marker, i);
    assert !Unterminated(s) by {
      forall k: nat | FirstMarkerAt(s, k) ensures ')' in s[k + |Marker|..] {
        FirstMarkerUnique(s, i, k);
        assert s[i + |Marker| + |name|] == (name + ")")[|name|];
        assert s[k + |Marker|..][|name|] == ')';
      }
    }
    FindEnvNameOutcome(s);
    var other := FindEnvName(s).value.value;
    var k: nat :| PlaceholderAt(s, k, other);
    FirstMarkerUnique(s, i, k);
    NameUnique(s, i + |Marker|, name, other);
  }

  /**
   * `find_env` as written: `str::find` locates the marker, then the name is
   * accumulated character by character until the first `)`.
   */
  method FindEnv(s: string) returns (r: Result<Option<string>, Error>)
    ensures r == FindEnvName(s)
  {
    var index := Find(s, Marker);
    if index.None? {
      return Ok(None);
    }
    var rest := s[index.value + |Marker|..];
    var envName := "";
    var k := 0;
    while k < |rest|
      invariant k <= |rest|
      invariant envName == rest[..k]
      invariant forall m :: 0 <= m < k ==> rest[m] != ')'
    {
      if rest[k] == ')' {
        FirstParen(rest, k);
        return Ok(Some(envName));
      }
      envName := envName + [rest[k]];
      k := k + 1;
    }
    NoParen(rest);
    return Err(InvalidEnvSyntax);
  }

  lemma {:induction false} FirstParen(t: string, k: nat)
    requires k < |t| && t[k] == ')'
    requires forall m :: 0 <= m < k ==> t[m] != ')'
    ensures Find(t, ")") == Some(k)
  {
    CharOccursAt(t, ')', k);
    forall j: nat | j < k ensures !OccursAt(t, ")", j) {
      CharOccursAt(t, ')', j);
    }
    FindLeftmost(t, ")", k);
  }

  lemma {:induction false} NoParen(t: string)
    requires forall m :: 0 <= m < |t| ==> t[m] != ')'
    ensures Find(t, ")") == None
  {
    FindSpec(t, ")");
    if Find(t, ")").Some? {
      CharOccursAt(t, ')', Find(t, ")").value);
    }
  }

  /** One pass of `replace_string` before it calls itself again. */
  datatype Step = Finished | Abort(error: Error) | Rewritten(next: string)

  function ReplaceStep(envs: map<string, string>, s: string): Step
  {
    match FindEnvName(s)
    case Err(e) => Abort(e)
    case Ok(None) => Finished
    case Ok(Some(name)) =>
      if name in envs then Rewritten(ReplaceAll(s, Placeholder(name), envs[name]))
      else Abort(EnvVarNotFound(name))
  }

  /**
   * `replace_string`, allowed at most `fuel` rescans: a string without
   * `env!(` is the result, a failed lookup or an unclosed placeholder is the
   * error, and otherwise every occurrence of the found placeholder is
   * replaced and the new string is scanned again.
   */
  function ReplaceString(envs: map<string, string>, s: string, fuel: nat): EnvResult<string>
    decreases fuel
  {
    match ReplaceStep(envs, s)
    case Finished => Resolved(s)
    case Abort(e) => Failed(e)
    case Rewritten(next) => if fuel == 0 then OutOfFuel else ReplaceString(envs, next, fuel - 1)
  }

  /**
   * The outcomes of `replace_string`: a string without `env!(` is returned
   * unchanged, an unclosed placeholder is `InvalidEnvSyntax`, a placeholder
   * naming an unset variable is `EnvVarNotFound` with that name, a result
   * holds no `env!(`, and every error is one of those two.
   */
  lemma {:induction false} ReplaceStringOutcome(envs: map<string, string>, s: string, fuel: nat)
    ensures var r := ReplaceString(envs, s, fuel);
      && (!Contains(s, Marker) ==> r == Resolved(s))
      && (Unterminated(s) ==> r == Failed(InvalidEnvSyntax))
      && (forall i: nat, name :: PlaceholderAt(s, i, name) && name !in envs ==> r == Failed(EnvVarNotFound(name)))
      && (r.Resolved? ==> !Contains(r.value, Marker))
      && (r.Failed? ==> r.error == InvalidEnvSyntax || r.error.envName !in envs)
    decreases fuel
  {
    FindEnvNameOutcome(s);
    forall i: nat, name | PlaceholderAt(s, i, name) ensures FindEnvName(s) == Ok(Some(name)) {
      PlaceholderFound(s, i, name);
    }
    var step := ReplaceStep(envs, s);
    if step.Rewritten? && fuel > 0 {
      ReplaceStringOutcome(envs, step.next, fuel - 1);
    }
  }

  /**
   * No string that the walk scans holds `env!(`: string leaves, sequence
   * elements and mapping values are looked at; mapping keys and tagged
   * values are not.
   */
  ghost predicate NoPlaceholders(n: Node)
  {
    match n
    case String(s) => !Contains(s, Marker)
    case Sequence(items) => forall i :: 0 <= i < |items| ==> NoPlaceholders(items[i])
    case Mapping(entries) => forall k, v :: (k, v) in entries ==> NoPlaceholders(v)
    case _ => true
  }

  /** Every mapping in the scanned part of the tree has distinct keys, as serde_yml guarantees. */
  ghost predicate WellFormed(n: Node)
  {
    match n
    case Sequence(items) => forall i :: 0 <= i < |items| ==> WellFormed(items[i])
    case Mapping(entries) => DistinctKeys(entries) && forall k, v :: (k, v) in entries ==> WellFormed(v)
    case _ => true
  }

  /**
   * `replace_value`: scalars and tagged values pass through, strings are
   * rewritten, sequences and mappings are rebuilt from their resolved
   * elements; the first failure ends the walk.
   */
  function Resolve(envs: map<string, string>, fuel: nat, n: Node): (r: EnvResult<Node>)
    ensures n.Null? || n.Bool? || n.Number? || n.Tagged? ==> r == Resolved(n)
    decreases n
  {
    match n
    case Null => Resolved(n)
    case Bool(_) => Resolved(n)
    case Number(_) => Resolved(n)
    case String(s) =>
      var t :- ReplaceString(envs, s, fuel);
      Resolved(String(t))
    case Sequence(items) =>
      var resolved :- ResolveItems(envs, fuel, items);
      Resolved(Sequence(resolved))
    case Mapping(entries) =>
      var resolved :- ResolveEntries(envs, fuel, entries);
      Resolved(Mapping(resolved))
    case Tagged(_, _) => Resolved(n)
  }

  /** `replace_sequence`: the elements resolved in order, or the first failure. */
  function ResolveItems(envs: map<string, string>, fuel: nat, items: seq<Node>): (r: EnvResult<seq<Node>>)
    decreases items
  {
    if items == [] then Resolved([])
    else
      var prefix :- ResolveItems(envs, fuel, items[..|items| - 1]);
      var last :- Resolve(envs, fuel, items[|items| - 1]);
      Resolved(prefix + [last])
  }

  /** `replace_mapping`: each value resolved in order and inserted under its key, or the first failure. */
  function ResolveEntries(envs: map<string, string>, fuel: nat, entries: Entries): (r: EnvResult<Entries>)
    decreases entries
  {
    if entries == [] then Resolved([])
    else
      var acc :- ResolveEntries(envs, fuel, entries[..|entries| - 1]);
      var e := entries[|entries| - 1];
      assert e.1 < e;
      var v :- Resolve(envs, fuel, e.1);
      Resolved(Insert(acc, e.0, v))
  }

  /** Once a prefix of the elements fails, so do all longer prefixes, with the same outcome. */
  lemma {:induction false} ItemsFailureSticks(envs: map<string, string>, fuel: nat, items: seq<Node>, k: nat, j: nat)
    requires k <= j <= |items|
    requires !ResolveItems(envs, fuel, items[..k]).Resolved?
    ensures ResolveItems(envs, fuel, items[..j]) == ResolveItems(envs, fuel, items[..k])
    decreases j
  {
    if j > k {
      ItemsFailureSticks(envs, fuel, items, k, j - 1);
      assert items[..j][..j - 1] == items[..j - 1];
    }
  }

  lemma {:induction false} EntriesFailureSticks(envs: map<string, string>, fuel: nat, entries: Entries, k: nat, j: nat)
    requires k <= j <= |entries|
    requires !ResolveEntries(envs, fuel, entries[..k]).Resolved?
    ensures ResolveEntries(envs, fuel, entries[..j]) == ResolveEntries(envs, fuel, entries[..k])
    decreases j
  {
    if j > k {
      EntriesFailureSticks(envs, fuel, entries, k, j - 1);
      assert entries[..j][..j - 1] == entries[..j - 1];
    }
  }

  /** `replace_value` as written: a dispatch on the kind of node. */
  method ReplaceValue(envs: map<string, string>, fuel: nat, value: Node) returns (r: EnvResult<Node>)
    ensures r == Resolve(envs, fuel, value)
    decreases value, 1
  {
    match value
    case Null => r := Resolved(value);
    case Bool(_) => r := Resolved(value);
    case Number(_) => r := Resolved(value);
    case String(s) =>
      var t := ReplaceString(envs, s, fuel);
      r := if t.Resolved? then Resolved(String(t.value)) else t.PropagateFailure();
    case Sequence(vec) => r := ReplaceSequence(envs, fuel, vec);
    case Mapping(map_) => r := ReplaceMapping(envs, fuel, map_);
    case Tagged(_, _) => r := Resolved(value);
  }

  /** `replace_sequence` as written: push each resolved element, returning at the first failure. */
  method ReplaceSequence(envs: map<string, string>, fuel: nat, vec: seq<Node>) returns (r: EnvResult<Node>)
    ensures r == Resolve(envs, fuel, Sequence(vec))
    decreases vec
  {
    var newVec: seq<Node> := [];
    var i := 0;
    while i < |vec|
      invariant i <= |vec|
      invariant ResolveItems(envs, fuel, vec[..i]) == Resolved(newVec)
    {
      var newValue := ReplaceValue(envs, fuel, vec[i]);
      assert vec[..i + 1][..i] == vec[..i];
      if !newValue.Resolved? {
        ItemsFailureSticks(envs, fuel, vec, i + 1, |vec|);
        assert vec[..|vec|] == vec;
        return newValue.PropagateFailure();
      }
      newVec := newVec + [newValue.value];
      i := i + 1;
    }
    assert vec[..|vec|] == vec;
    return Resolved(Sequence(newVec));
  }

  /** Extending a resolved prefix of the entries by one entry. */
  lemma {:induction false} EntriesStep(envs: map<string, string>, fuel: nat, entries: Entries, i: nat, acc: Entries)
    requires i < |entries|
    requires ResolveEntries(envs, fuel, entries[..i]) == Resolved(acc)
    ensures var v := Resolve(envs, fuel, entries[i].1);
      ResolveEntries(envs, fuel, entries[..i + 1])
        == if v.Resolved? then Resolved(Insert(acc, entries[i].0, v.value)) else v.PropagateFailure()
  {
    assert entries[..i + 1][..i] == entries[..i];
  }

  /** `replace_mapping` as written: insert each key with its resolved value, returning at the first failure. */
  method ReplaceMapping(envs: map<string, string>, fuel: nat, map_: Entries) returns (r: EnvResult<Node>)
    ensures r == Resolve(envs, fuel, Mapping(map_))
    decreases map_
  {
    var newMap: Entries := [];
    var i := 0;
    while i < |map_|
      invariant i <= |map_|
      invariant ResolveEntries(envs, fuel, map_[..i]) == Resolved(newMap)
    {
      var (key, value) := map_[i];
      assert value < map_[i];
      var newValue := ReplaceValue(envs, fuel, value);
      EntriesStep(envs, fuel, map_, i, newMap);
      if !newValue.Resolved? {
        EntriesFailureSticks(envs, fuel, map_, i + 1, |map_|);
        assert map_[..|map_|] == map_;
        return newValue.PropagateFailure();
      }
      newMap := Insert(newMap, key, newValue.value);
      i := i + 1;
    }
    assert map_[..|map_|] == map_;
    assert ResolveEntries(envs, fuel, map_) == Resolved(newMap);
    return Resolved(Mapping(newMap));
  }

  /**
   * Resolving a mapping keeps its keys and their order; each value is the
   * resolution of the value at the same position.
   */
  lemma {:induction false} ResolveEntriesKeys(envs: map<string, string>, fuel: nat, entries: Entries)
    requires DistinctKeys(entries)
    ensures var r := ResolveEntries(envs, fuel, entries);
      r.Resolved? ==> EntrywiseResolved(envs, fuel, entries, r.value)
    decreases |entries|
  {
    if entries != [] {
      var n := |entries| - 1;
      var prefix := entries[..n];
      ResolveEntriesKeys(envs, fuel, prefix);
      var r := ResolveEntries(envs, fuel, entries);
      if r.Resolved? {
        var acc := ResolveEntries(envs, fuel, prefix).value;
        var v := Resolve(envs, fuel, entries[n].1).value;
        EntriesStep(envs, fuel, entries, n, acc);
        assert entries[..n + 1] == entries;
        EntrywiseExtend(envs, fuel, entries, acc, v);
      }
    }
  }

  /** Output entry i carries input key i and the resolution of input value i. */
  ghost predicate EntrywiseResolved(envs: map<string, string>, fuel: nat, entries: Entries, out: Entries)
  {
    && |out| == |entries|
    && forall i :: 0 <= i < |entries| ==>
         out[i].0 == entries[i].0 && Resolve(envs, fuel, entries[i].1) == Resolved(out[i].1)
  }

  lemma {:induction false} EntrywiseExtend(envs: map<string, string>, fuel: nat, entries: Entries, acc: Entries, v: Node)
    requires entries != [] && DistinctKeys(entries)
    requires EntrywiseResolved(envs, fuel, entries[..|entries| - 1], acc)
    requires Resolve(envs, fuel, entries[|entries| - 1].1) == Resolved(v)
    ensures Insert(acc, entries[|entries| - 1].0, v) == acc + [(entries[|entries| - 1].0, v)]
    ensures EntrywiseResolved(envs, fuel, entries, acc + [(entries[|entries| - 1].0, v)])
  {
    var n := |entries| - 1;
    var prefix := entries[..n];
    var key := entries[n].0;
    forall j | 0 <= j < |acc| ensures acc[j].0 != key {
      assert acc[j].0 == prefix[j].0 == entries[j].0;
    }
    var out := acc + [(key, v)];
    forall i | 0 <= i < |entries|
      ensures out[i].0 == entries[i].0 && Resolve(envs, fuel, entries[i].1) == Resolved(out[i].1)
    {
      if i < n {
        assert out[i] == acc[i] && prefix[i] == entries[i];
      }
    }
  }

  /** Resolving a sequence keeps its length and order; element i is the resolution of element i. */
  lemma {:induction false} ResolveItemsElementwise(envs: map<string, string>, fuel: nat, items: seq<Node>)
    ensures var r := ResolveItems(envs, fuel, items);
      r.Resolved? ==>
        && |r.value| == |items|
        && forall i :: 0 <= i < |items| ==> Resolve(envs, fuel, items[i]) == Resolved(r.value[i])
    decreases |items|
  {
    if items != [] {
      var n := |items| - 1;
      var prefix := items[..n];
      ResolveItemsElementwise(envs, fuel, prefix);
      var r := ResolveItems(envs, fuel, items);
      if r.Resolved? {
        var acc := ResolveItems(envs, fuel, prefix).value;
        var last := Resolve(envs, fuel, items[n]).value;
        assert r.value == acc + [last];
        forall i | 0 <= i < |items| ensures Resolve(envs, fuel, items[i]) == Resolved(r.value[i]) {
          if i < n {
            assert r.value[i] == acc[i] && prefix[i] == items[i];
          }
        }
      }
    }
  }

  /**
   * A sequence fails exactly when one of its elements does, and then with
   * the outcome of the first element that fails.
   */
  lemma {:induction false} ResolveItemsFirstFailure(envs: map<string, string>, fuel: nat, items: seq<Node>)
    ensures var r := ResolveItems(envs, fuel, items);
      && (r.Resolved? <==> forall i :: 0 <= i < |items| ==> Resolve(envs, fuel, items[i]).Resolved?)
      && (!r.Resolved? ==>
            exists j :: 0 <= j < |items| && !Resolve(envs, fuel, items[j]).Resolved?
                     && r == Resolve(envs, fuel, items[j]).PropagateFailure()
                     && forall i :: 0 <= i < j ==> Resolve(envs, fuel, items[i]).Resolved?)
    decreases |items|
  {
    if items != [] {
      var n := |items| - 1;
      var prefix := items[..n];
      ResolveItemsFirstFailure(envs, fuel, prefix);
      var p := ResolveItems(envs, fuel, prefix);
      assert forall i :: 0 <= i < n ==> prefix[i] == items[i];
      if !p.Resolved? {
        var j :| 0 <= j < n && !Resolve(envs, fuel, prefix[j]).Resolved?
                 && p == Resolve(envs, fuel, prefix[j]).PropagateFailure()
                 && forall i :: 0 <= i < j ==> Resolve(envs, fuel, prefix[i]).Resolved?;
        assert items[j] == prefix[j];
      }
    }
  }

  /** The mapping counterpart: a mapping fails with the outcome of the first value that fails. */
  lemma {:induction false} ResolveEntriesFirstFailure(envs: map<string, string>, fuel: nat, entries: Entries)
    ensures var r := ResolveEntries(envs, fuel, entries);
      && (r.Resolved? <==> forall i :: 0 <= i < |entries| ==> Resolve(envs, fuel, entries[i].1).Resolved?)
      && (!r.Resolved? ==>
            exists j :: 0 <= j < |entries| && !Resolve(envs, fuel, entries[j].1).Resolved?
                     && r == Resolve(envs, fuel, entries[j].1).PropagateFailure()
                     && forall i :: 0 <= i < j ==> Resolve(envs, fuel, entries[i].1).Resolved?)
    decreases |entries|
  {
    if entries != [] {
      var n := |entries| - 1;
      var prefix := entries[..n];
      ResolveEntriesFirstFailure(envs, fuel, prefix);
      var p := ResolveEntries(envs, fuel, prefix);
      assert forall i :: 0 <= i < n ==> prefix[i] == entries[i];
      if !p.Resolved? {
        var j :| 0 <= j < n && !Resolve(envs, fuel, prefix[j].1).Resolved?
                 && p == Resolve(envs, fuel, prefix[j].1).PropagateFailure()
                 && forall i :: 0 <= i < j ==> Resolve(envs, fuel, prefix[i].1).Resolved?;
        assert entries[j] == prefix[j];
      }
    }
  }

  /** Whatever resolution produces holds no `env!(` in any string it scans. */
  lemma {:induction false} ResolvedHasNoPlaceholders(envs: map<string, string>, fuel: nat, n: Node)
    ensures Resolve(envs, fuel, n).Resolved? ==> NoPlaceholders(Resolve(envs, fuel, n).value)
    decreases n
  {
    match n
    case String(s) => ReplaceStringOutcome(envs, s, fuel);
    case Sequence(items) =>
      var r := ResolveItems(envs, fuel, items);
      if r.Resolved? {
        ResolveItemsElementwise(envs, fuel, items);
        forall i | 0 <= i < |items| ensures NoPlaceholders(r.value[i]) {
          ResolvedHasNoPlaceholders(envs, fuel, items[i]);
        }
      }
    case Mapping(entries) =>
      EntriesHaveNoPlaceholders(envs, fuel, entries);
    case _ =>
  }

  lemma {:induction false} EntriesHaveNoPlaceholders(envs: map<string, string>, fuel: nat, entries: Entries)
    ensures var r := ResolveEntries(envs, fuel, entries);
      r.Resolved? ==> forall k, v :: (k, v) in r.value ==> NoPlaceholders(v)
    decreases entries
  {
    if entries != [] {
      var n := |entries| - 1;
      var prefix := entries[..n];
      EntriesHaveNoPlaceholders(envs, fuel, prefix);
      var r := ResolveEntries(envs, fuel, entries);
      if r.Resolved? {
        var acc := ResolveEntries(envs, fuel, prefix).value;
        var e := entries[n];
        assert e.1 < e;
        ResolvedHasNoPlaceholders(envs, fuel, e.1);
        var v := Resolve(envs, fuel, e.1).value;
        InsertFrom(acc, e.0, v);
      }
    }
  }

  /**
   * A document whose scanned strings hold no placeholder resolves to itself,
   * whatever the environment and the fuel.
   */
  lemma {:induction false} FixedPoint(envs: map<string, string>, fuel: nat, n: Node)
    requires WellFormed(n) && NoPlaceholders(n)
    ensures Resolve(envs, fuel, n) == Resolved(n)
    decreases n
  {
    match n
    case String(s) => ReplaceStringOutcome(envs, s, fuel);
    case Sequence(items) => ItemsFixedPoint(envs, fuel, items);
    case Mapping(entries) => EntriesFixedPoint(envs, fuel, entries);
    case _ =>
  }

  lemma {:induction false} ItemsFixedPoint(envs: map<string, string>, fuel: nat, items: seq<Node>)
    requires forall i :: 0 <= i < |items| ==> WellFormed(items[i]) && NoPlaceholders(items[i])
    ensures ResolveItems(envs, fuel, items) == Resolved(items)
    decreases items
  {
    if items != [] {
      var n := |items| - 1;
      ItemsFixedPoint(envs, fuel, items[..n]);
      FixedPoint(envs, fuel, items[n]);
      assert items[..n] + [items[n]] == items;
    }
  }

  lemma {:induction false} EntriesFixedPoint(envs: map<string, string>, fuel: nat, entries: Entries)
    requires DistinctKeys(entries)
    requires forall k, v :: (k, v) in entries ==> WellFormed(v) && NoPlaceholders(v)
    ensures ResolveEntries(envs, fuel, entries) == Resolved(entries)
    decreases entries
  {
    if entries != [] {
      var n := |entries| - 1;
      var prefix := entries[..n];
      assert forall k, v :: (k, v) in prefix ==> (k, v) in entries;
      EntriesFixedPoint(envs, fuel, prefix);
      var e := entries[n];
      assert e.1 < e;
      assert e in entries;
      FixedPoint(envs, fuel, e.1);
      EntriesAppendNew(envs, fuel, entries);
    }
  }

  /** The last entry's key is new to the prefix, so resolving it in place appends it. */
  lemma {:induction false} EntriesAppendNew(envs: map<string, string>, fuel: nat, entries: Entries)
    requires entries != [] && DistinctKeys(entries)
    requires ResolveEntries(envs, fuel, entries[..|entries| - 1]) == Resolved(entries[..|entries| - 1])
    requires Resolve(envs, fuel, entries[|entries| - 1].1) == Resolved(entries[|entries| - 1].1)
    ensures ResolveEntries(envs, fuel, entries) == Resolved(entries)
  {
    var n := |entries| - 1;
    var prefix := entries[..n];
    EntriesStep(envs, fuel, entries, n, prefix);
    assert entries[..n + 1] == entries;
    assert forall i :: 0 <= i < |prefix| ==> prefix[i].0 != entries[n].0;
    assert prefix + [(entries[n].0, entries[n].1)] == entries;
  }


  /** Resolution keeps every mapping's keys distinct. */
  lemma {:induction false} ResolvePreservesWellFormed(envs: map<string, string>, fuel: nat, n: Node)
    requires WellFormed(n)
    ensures Resolve(envs, fuel, n).Resolved? ==> WellFormed(Resolve(envs, fuel, n).value)
    decreases n
  {
    match n
    case Sequence(items) =>
      var r := ResolveItems(envs, fuel, items);
      if r.Resolved? {
        ResolveItemsElementwise(envs, fuel, items);
        forall i | 0 <= i < |items| ensures WellFormed(r.value[i]) {
          ResolvePreservesWellFormed(envs, fuel, items[i]);
        }
      }
    case Mapping(entries) =>
      var r := ResolveEntries(envs, fuel, entries);
      if r.Resolved? {
        ResolveEntriesKeys(envs, fuel, entries);
        assert EntrywiseResolved(envs, fuel, entries, r.value);
        forall k, v | (k, v) in r.value ensures WellFormed(v) {
          var i :| 0 <= i < |r.value| && r.value[i] == (k, v);
          assert entries[i] in entries;
          assert entries[i].1 < entries[i];
          ResolvePreservesWellFormed(envs, fuel, entries[i].1);
        }
      }
    case _ =>
  }

  /** Resolving a second time changes nothing. */
  lemma {:induction false} Idempotent(envs: map<string, string>, fuel: nat, fuel2: nat, n: Node)
    requires WellFormed(n) && Resolve(envs, fuel, n).Resolved?
    ensures Resolve(envs, fuel2, Resolve(envs, fuel, n).value) == Resolve(envs, fuel, n)
  {
    ResolvedHasNoPlaceholders(envs, fuel, n);
    ResolvePreservesWellFormed(envs, fuel, n);
    FixedPoint(envs, fuel2, Resolve(envs, fuel, n).value);
  }

  /** Once a string resolves or fails within some number of rescans, more rescans give the same outcome. */
  lemma {:induction false} StringFuelMonotone(envs: map<string, string>, s: string, fuel: nat, more: nat)
    requires fuel <= more && !ReplaceString(envs, s, fuel).OutOfFuel?
    ensures ReplaceString(envs, s, more) == ReplaceString(envs, s, fuel)
    decreases fuel, 1
  {
    if ReplaceStep(envs, s).Rewritten? {
      RescannedFuelMonotone(envs, s, fuel, more);
    } else {
      FinalStepIgnoresFuel(envs, s, fuel, more);
    }
  }

  lemma {:induction false} RescannedFuelMonotone(envs: map<string, string>, s: string, fuel: nat, more: nat)
    requires fuel <= more && !ReplaceString(envs, s, fuel).OutOfFuel?
    requires ReplaceStep(envs, s).Rewritten?
    ensures ReplaceString(envs, s, more) == ReplaceString(envs, s, fuel)
    decreases fuel, 0
  {
    RescanUnfold(envs, s, fuel);
    RescanUnfold(envs, s, more);
    StringFuelMonotone(envs, ReplaceStep(envs, s).next, fuel - 1, more - 1);
  }

  lemma {:induction false} RescanUnfold(envs: map<string, string>, s: string, fuel: nat)
    requires ReplaceStep(envs, s).Rewritten?
    ensures ReplaceString(envs, s, fuel)
      == if fuel == 0 then OutOfFuel else ReplaceString(envs, ReplaceStep(envs, s).next, fuel - 1)
  {
  }

  lemma {:induction false} FinalStepIgnoresFuel(envs: map<string, string>, s: string, fuel: nat, more: nat)
    requires !ReplaceStep(envs, s).Rewritten?
    ensures ReplaceString(envs, s, more) == ReplaceString(envs, s, fuel)
  {
  }

  /** The same for whole documents. */
  lemma {:induction false} FuelMonotone(envs: map<string, string>, n: Node, fuel: nat, more: nat)
    requires fuel <= more && !Resolve(envs, fuel, n).OutOfFuel?
    ensures Resolve(envs, more, n) == Resolve(envs, fuel, n)
    decreases n
  {
    match n
    case String(s) => StringFuelMonotone(envs, s, fuel, more);
    case Sequence(items) => ItemsFuelMonotone(envs, items, fuel, more);
    case Mapping(entries) => EntriesFuelMonotone(envs, entries, fuel, more);
    case _ =>
  }

  lemma {:induction false} ItemsFuelMonotone(envs: map<string, string>, items: seq<Node>, fuel: nat, more: nat)
    requires fuel <= more && !ResolveItems(envs, fuel, items).OutOfFuel?
    ensures ResolveItems(envs, more, items) == ResolveItems(envs, fuel, items)
    decreases items
  {
    if items != [] {
      var n := |items| - 1;
      ItemsFuelMonotone(envs, items[..n], fuel, more);
      if ResolveItems(envs, fuel, items[..n]).Resolved? {
        FuelMonotone(envs, items[n], fuel, more);
      }
    }
  }

  lemma {:induction false} EntriesFuelMonotone(envs: map<string, string>, entries: Entries, fuel: nat, more: nat)
    requires fuel <= more && !ResolveEntries(envs, fuel, entries).OutOfFuel?
    ensures ResolveEntries(envs, more, entries) == ResolveEntries(envs, fuel, entries)
    decreases entries
  {
    if entries != [] {
      var n := |entries| - 1;
      EntriesFuelMonotone(envs, entries[..n], fuel, more);
      if ResolveEntries(envs, fuel, entries[..n]).Resolved? {
        var e := entries[n];
        assert e.1 < e;
        FuelMonotone(envs, e.1, fuel, more);
      }
    }
  }

  /** Every `env!(` carries a `!` three characters in. */
  lemma {:induction false} MarkerHasBang(s: string, j: nat)
    ensures OccursAt(s, Marker, j) ==> j + 3 < |s| && s[j + 3] == '!'
  {
    if OccursAt(s, Marker, j) {
      assert s[j..j + 5][3] == Marker[3];
    }
  }

  /** Every placeholder starts with `env!(`. */
  lemma {:induction false} PlaceholderHasMarker(s: string, name: string, j: nat)
    ensures OccursAt(s, Placeholder(name), j) ==> OccursAt(s, Marker, j)
  {
    if OccursAt(s, Placeholder(name), j) {
      assert s[j..j + |Marker|] == s[j..j + |Placeholder(name)|][..|Marker|];
    }
  }

  /**
   * When the variable of the leftmost placeholder is set, one pass keeps the
   * text before it and puts the value in place of that placeholder and of
   * every later occurrence of the same placeholder, not only the first.
   */
  lemma {:induction false} PlaceholderStep(envs: map<string, string>, s: string, i: nat, name: string)
    requires PlaceholderAt(s, i, name) && name in envs
    ensures ReplaceStep(envs, s) == Rewritten(s[..i] + envs[name] + ReplaceAll(s[i + |Placeholder(name)|..], Placeholder(name), envs[name]))
  {
    PlaceholderFound(s, i, name);
    PlaceholderOccurs(s, i, name);
    StepAtFirst(envs, s, i, name, s[..i] + envs[name] + ReplaceAll(s[i + |Placeholder(name)|..], Placeholder(name), envs[name]));
  }

  /** One pass, once the found name and the leftmost occurrence of its placeholder are known. */
  lemma {:induction false} StepAtFirst(envs: map<string, string>, s: string, i: nat, name: string, r: string)
    requires FindEnvName(s) == Ok(Some(name)) && name in envs
    requires OccursAt(s, Placeholder(name), i)
    requires forall j: nat :: j < i ==> !OccursAt(s, Placeholder(name), j)
    requires r == s[..i] + envs[name] + ReplaceAll(s[i + |Placeholder(name)|..], Placeholder(name), envs[name])
    ensures ReplaceStep(envs, s) == Rewritten(r)
  {
    ReplaceAllAtFirst(s, Placeholder(name), envs[name], i);
  }

  /** The leftmost placeholder is also the leftmost occurrence of its own text. */
  lemma {:induction false} PlaceholderOccurs(s: string, i: nat, name: string)
    requires PlaceholderAt(s, i, name)
    ensures OccursAt(s, Placeholder(name), i)
    ensures forall j: nat :: j < i ==> !OccursAt(s, Placeholder(name), j)
  {
    var pat := Placeholder(name);
    assert s[i..i + |pat|] == s[i..i + |Marker|] + s[i + |Marker|..i + |Marker| + |name + ")"|];
    forall j: nat | j < i ensures !OccursAt(s, pat, j) {
      PlaceholderHasMarker(s, name, j);
    }
  }

  /** When the variable of the leftmost placeholder is unset, the result is that name's error, whatever follows. */
  lemma {:induction false} PlaceholderUnset(envs: map<string, string>, s: string, i: nat, name: string, fuel: nat)
    requires PlaceholderAt(s, i, name) && name !in envs
    ensures ReplaceString(envs, s, fuel) == Failed(EnvVarNotFound(name))
  {
    PlaceholderFound(s, i, name);
  }

  /** When no `)` follows the leftmost `env!(`, the result is `InvalidEnvSyntax`. */
  lemma {:induction false} MarkerUnclosed(envs: map<string, string>, s: string, i: nat, fuel: nat)
    requires FirstMarkerAt(s, i) && ')' !in s[i + |Marker|..]
    ensures ReplaceString(envs, s, fuel) == Failed(InvalidEnvSyntax)
  {
    assert Unterminated(s);
    FindEnvNameOutcome(s);
  }

  /** A string without `!` holds no placeholder and is returned unchanged. */
  lemma {:induction false} NoBangResolves(envs: map<string, string>, s: string, fuel: nat)
    requires '!' !in s
    ensures ReplaceString(envs, s, fuel) == Resolved(s)
  {
    forall j: nat ensures !OccursAt(s, Marker, j) {
      MarkerHasBang(s, j);
    }
    ReplaceStringOutcome(envs, s, fuel);
  }

  /** A placeholder preceded by text without `!` is the leftmost one. */
  lemma {:induction false} LeadingPlaceholderAt(p: string, name: string, t: string)
    requires '!' !in p && ')' !in name
    ensures PlaceholderAt(p + Placeholder(name) + t, |p|, name)
    ensures forall j: nat :: j < |p| ==> !OccursAt(p + Placeholder(name) + t, Placeholder(name), j)
  {
    var pat := Placeholder(name);
    var s := p + pat + t;
    var i := |p|;
    assert s[i..i + |pat|] == pat;
    assert s[i..i + |Marker|] == Marker;
    forall j: nat | j < i ensures !OccursAt(s, Marker, j) {
      MarkerHasBang(s, j);
      if j + 3 < i { assert s[j + 3] == p[j + 3]; } else { assert s[j + 3] == pat[j + 3 - i]; }
    }
    assert s[i + |Marker|..i + |Marker| + |name + ")"|] == name + ")";
    forall j: nat | j < i ensures !OccursAt(s, pat, j) {
      PlaceholderHasMarker(s, name, j);
    }
  }

  /** `PlaceholderStep` for a placeholder preceded by text without `!`; `s` is the string scanned and `r` the string the pass produces. */
  lemma {:induction false} LeadingPlaceholderStep(envs: map<string, string>, p: string, name: string, t: string, s: string, r: string)
    requires '!' !in p && ')' !in name && name in envs
    requires s == p + Placeholder(name) + t
    requires r == p + envs[name] + ReplaceAll(t, Placeholder(name), envs[name])
    ensures ReplaceStep(envs, s) == Rewritten(r)
  {
    var i := |p|;
    LeadingPlaceholderAt(p, name, t);
    assert s[..i] == p && s[i + |Placeholder(name)|..] == t;
    PlaceholderStep(envs, s, i, name);
  }

  /** `PlaceholderUnset` for a placeholder preceded by text without `!`. */
  lemma {:induction false} LeadingPlaceholderUnset(envs: map<string, string>, p: string, name: string, t: string, fuel: nat)
    requires '!' !in p && ')' !in name && name !in envs
    ensures ReplaceString(envs, p + Placeholder(name) + t, fuel) == Failed(EnvVarNotFound(name))
  {
    LeadingPlaceholderAt(p, name, t);
    PlaceholderUnset(envs, p + Placeholder(name) + t, |p|, name, fuel);
  }

  /** `MarkerUnclosed` for an `env!(` preceded by text without `!`. */
  lemma {:induction false} LeadingMarkerUnclosed(envs: map<string, string>, p: string, t: string, fuel: nat)
    requires '!' !in p && ')' !in t
    ensures ReplaceString(envs, p + Marker + t, fuel) == Failed(InvalidEnvSyntax)
  {
    var s := p + Marker + t;
    var i := |p|;
    assert s[i..i + |Marker|] == Marker;
    forall j: nat | j < i ensures !OccursAt(s, Marker, j) {
      MarkerHasBang(s, j);
      if j + 3 < i { assert s[j + 3] == p[j + 3]; } else { assert s[j + 3] == Marker[j + 3 - i]; }
    }
    assert s[i + |Marker|..] == t;
    MarkerUnclosed(envs, s, i, fuel);
  }

  /**
   * A variable whose value is its own placeholder: one pass rewrites the
   * string to itself, so the rescan never ends and no number of rescans
   * suffices.
   */
  lemma {:induction false} SelfReferenceLoops(envs: map<string, string>, name: string, fuel: nat)
    requires ')' !in name && name in envs && envs[name] == Placeholder(name)
    ensures ReplaceStep(envs, Placeholder(name)) == Rewritten(Placeholder(name))
    ensures ReplaceString(envs, Placeholder(name), fuel) == OutOfFuel
    decreases fuel
  {
    var s := Placeholder(name);
    assert s == [] + s + [];
    forall j: nat ensures !OccursAt([], s, j) { }
    ReplaceAllAbsent([], s, envs[name]);
    LeadingPlaceholderStep(envs, [], name, [], s, s);
    RescanUnfold(envs, s, fuel);
    if fuel > 0 {
      SelfReferenceLoops(envs, name, fuel - 1);
    }
  }
}
