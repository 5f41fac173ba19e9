/**
 * The typed-value parser of the configuration (`Value::from_entry` and
 * `Value::from_basic_entry`): a YAML mapping carries a `type` tag and the
 * fields that tag asks for, and is decoded into a closed sum type.
 *
 * The full vocabulary has eight tags; the restricted vocabulary used for
 * HTTP headers has four (`source`, `integer`, `float`, `string`).
 * Decoding stops at the first error, and every error has its own
 * constructor.
 *
 * The recursive getters `get_object` and `get_array` fill a map and a
 * vector in loops. They are the methods `GetObject` and `GetArray`.
 * Each method is proved equal to a specification function (`ParseObject`,
 * `ParseArray`) whose properties are lemmas.
 */
module ConfigValue {
  import opened Wrappers
  import Y = Yaml

  /** The two run-time dates a value can refer to (`config::source::Source`). */
  datatype DateSource = ExecuteDate | LastExecuteDate

  datatype Value =
    | Array(items: seq<Value>)
    | Object(fields: map<string, Value>)
    | String(s: string)
    | Bool(b: bool)
    | Float(f: Y.F64)
    | Integer(i: Y.I64)
    | Null
    | Source(source: DateSource)

  datatype ParseEntryError =
    | MissingField(field: string)
    | InvalidType
    | InvalidValue
    | InvalidItems
    | InvalidProperties
    | InvalidSource
    | InvalidSourceValue(source: string)
    | InvalidTypeValue(entryType: string)

  type Parsed<T> = Result<T, ParseEntryError>

  const TypeTag: string := "type"
  const PropertiesTag: string := "properties"
  const ItemsTag: string := "items"
  const ValueTag: string := "value"
  const SourceTag: string := "source"

  /** The tags of the full vocabulary. */
  const FullTags: set<string> := {"array", "object", "integer", "float", "string", "boolean", "null", "source"}

  /** The tags of the restricted vocabulary. */
  const BasicTags: set<string> := {"source", "integer", "float", "string"}

  /** The YAML key a field name is looked up under. */
  function Key(tag: string): Y.Node
  {
    Y.String(tag)
  }

  // ---------------------------------------------------------------------
  // The getters that do not recurse
  // ---------------------------------------------------------------------

  function GetType(entry: Y.Entries): Parsed<string>
  {
    match Y.Get(entry, Key(TypeTag))
    case None => Err(MissingField(TypeTag))
    case Some(t) =>
      match Y.AsStr(t)
      case None => Err(InvalidType)
      case Some(s) => Ok(s)
  }

  function GetItems(entry: Y.Entries): (r: Parsed<seq<Y.Node>>)
    ensures r.Ok? ==> Y.Sequence(r.value) < Y.Mapping(entry)
  {
    match Y.Get(entry, Key(ItemsTag))
    case None => Err(MissingField(ItemsTag))
    case Some(items) =>
      match Y.AsSequence(items)
      case None => Err(InvalidItems)
      case Some(sequence) => Ok(sequence)
  }

  function GetProperties(entry: Y.Entries): (r: Parsed<Y.Entries>)
    ensures r.Ok? ==> Y.Mapping(r.value) < Y.Mapping(entry)
  {
    match Y.Get(entry, Key(PropertiesTag))
    case None => Err(MissingField(PropertiesTag))
    case Some(properties) =>
      match Y.AsMapping(properties)
      case None => Err(InvalidProperties)
      case Some(mapping) => Ok(mapping)
  }

  function GetValue(entry: Y.Entries): Parsed<Y.Node>
  {
    match Y.Get(entry, Key(ValueTag))
    case None => Err(MissingField(ValueTag))
    case Some(value) => Ok(value)
  }

  function GetBool(entry: Y.Entries): Parsed<Value>
  {
    match GetValue(entry)
    case Err(e) => Err(e)
    case Ok(value) =>
      match Y.AsBool(value)
      case None => Err(InvalidValue)
      case Some(b) => Ok(Bool(b))
  }

  /** Only an untagged number is accepted; its conversion to a float is not interpreted. */
  function GetFloat(entry: Y.Entries): Parsed<Value>
  {
    match GetValue(entry)
    case Err(e) => Err(e)
    case Ok(value) =>
      match value
      case Number(n) =>
        (match Y.AsF64(n)
         case None => Err(InvalidValue)
         case Some(f) => Ok(Float(f)))
      case _ => Err(InvalidValue)
  }

  /** Only an untagged number that fits in a signed 64-bit integer is accepted. */
  function GetInteger(entry: Y.Entries): Parsed<Value>
  {
    match GetValue(entry)
    case Err(e) => Err(e)
    case Ok(value) =>
      match value
      case Number(n) =>
        (match Y.AsI64(n)
         case None => Err(InvalidValue)
         case Some(i) => Ok(Integer(i)))
      case _ => Err(InvalidValue)
  }

  /** Only an untagged string is accepted, and it is kept verbatim. */
  function GetString(entry: Y.Entries): Parsed<Value>
  {
    match GetValue(entry)
    case Err(e) => Err(e)
    case Ok(value) =>
      match value
      case String(s) => Ok(String(s))
      case _ => Err(InvalidValue)
  }

  function GetSource(entry: Y.Entries): Parsed<Value>
  {
    match Y.Get(entry, Key(SourceTag))
    case None => Err(MissingField(SourceTag))
    case Some(source) =>
      match Y.AsStr(source)
      case None => Err(InvalidSource)
      case Some(s) =>
        if s == "last_execute_time" then Ok(Source(LastExecuteDate))
        else if s == "execute_time" then Ok(Source(ExecuteDate))
        else Err(InvalidSourceValue(s))
  }

  // ---------------------------------------------------------------------
  // Specification of the full parser
  // ---------------------------------------------------------------------

  /** `from_entry`: read the tag, then decode by it. */
  function Parse(entry: Y.Entries): Parsed<Value>
    decreases Y.Mapping(entry), 2
  {
    match GetType(entry)
    case Err(e) => Err(e)
    case Ok(entryType) =>
      ParseByType(entryType, entry)
  }

  /** `parse_entry_by_type`: one branch per tag of the full vocabulary. */
  function ParseByType(entryType: string, entry: Y.Entries): Parsed<Value>
    decreases Y.Mapping(entry), 1
  {
    if entryType == "object" then ParseObject(entry)
    else if entryType == "array" then ParseArray(entry)
    else if entryType == "source" then GetSource(entry)
    else if entryType == "integer" then GetInteger(entry)
    else if entryType == "float" then GetFloat(entry)
    else if entryType == "string" then GetString(entry)
    else if entryType == "boolean" then GetBool(entry)
    else if entryType == "null" then Ok(Null)
    else Err(InvalidTypeValue(entryType))
  }

  /** What `get_object` computes. */
  function ParseObject(entry: Y.Entries): Parsed<Value>
    decreases Y.Mapping(entry), 0
  {
    match GetProperties(entry)
    case Err(e) => Err(e)
    case Ok(properties) =>
      match ParseProperties(properties, |properties|)
      case Err(e) => Err(e)
      case Ok(fields) =>
        Ok(Object(fields))
  }

  /** One property: a string key and a mapping value, decoded. */
  function ParseProperty(key: Y.Node, value: Y.Node): Parsed<(string, Value)>
    decreases value, 3
  {
    match Y.AsStr(key)
    case None => Err(InvalidProperties)
    case Some(name) =>
      match Y.AsMapping(value)
      case None => Err(InvalidProperties)
      case Some(entry) =>
        match Parse(entry)
        case Err(e) => Err(e)
        case Ok(v) =>
          Ok((name, v))
  }

  /**
   * The object built from the first `n` properties: each is inserted in
   * order, so a later property whose key reads as the same string
   * replaces an earlier one.
   */
  function ParseProperties(properties: Y.Entries, n: nat): Parsed<map<string, Value>>
    requires n <= |properties|
    decreases Y.Mapping(properties), 0, n
  {
    if n == 0 then Ok(map[])
    else
      match ParseProperties(properties, n - 1)
      case Err(e) => Err(e)
      case Ok(fields) =>
        assert properties[n - 1].1 < properties[n - 1];
        match ParseProperty(properties[n - 1].0, properties[n - 1].1)
        case Err(e) => Err(e)
        case Ok(field) =>
          Ok(fields[field.0 := field.1])
  }

  /** What `get_array` computes. */
  function ParseArray(entry: Y.Entries): Parsed<Value>
    decreases Y.Mapping(entry), 0
  {
    match GetItems(entry)
    case Err(e) => Err(e)
    case Ok(items) =>
      match ParseItems(items, |items|)
      case Err(e) => Err(e)
      case Ok(values) =>
        Ok(Array(values))
  }

  /** One array element: a mapping, decoded. */
  function ParseItem(item: Y.Node): Parsed<Value>
    decreases item, 3
  {
    match Y.AsMapping(item)
    case None => Err(InvalidItems)
    case Some(entry) => Parse(entry)
  }

  /** The array built from the first `n` items. */
  function ParseItems(items: seq<Y.Node>, n: nat): Parsed<seq<Value>>
    requires n <= |items|
    decreases Y.Sequence(items), 0, n
  {
    if n == 0 then Ok([])
    else
      match ParseItems(items, n - 1)
      case Err(e) => Err(e)
      case Ok(values) =>
        match ParseItem(items[n - 1])
        case Err(e) => Err(e)
        case Ok(value) =>
          Ok(values + [value])
  }

  /** `from_basic_entry`: read the tag, then decode by the restricted vocabulary. */
  function FromBasicEntry(entry: Y.Entries): Parsed<Value>
  {
    match GetType(entry)
    case Err(e) => Err(e)
    case Ok(entryType) =>
      ParseBasicByType(entryType, entry)
  }

  /** `parse_basic_entry_by_type`. */
  function ParseBasicByType(entryType: string, entry: Y.Entries): Parsed<Value>
  {
    if entryType == "source" then GetSource(entry)
    else if entryType == "integer" then GetInteger(entry)
    else if entryType == "float" then GetFloat(entry)
    else if entryType == "string" then GetString(entry)
    else Err(InvalidTypeValue(entryType))
  }

  // ---------------------------------------------------------------------
  // The parser as written: `get_object` and `get_array` loop
  // ---------------------------------------------------------------------

  method FromEntry(entry: Y.Entries) returns (r: Parsed<Value>)
    ensures r == Parse(entry)
    decreases Y.Mapping(entry), 2
  {
    var entryType := GetType(entry);
    if entryType.Err? {
      return Err(entryType.error);
    }
    r := ParseEntryByType(entryType.value, entry);
  }

  method ParseEntryByType(entryType: string, entry: Y.Entries) returns (r: Parsed<Value>)
    ensures r == ParseByType(entryType, entry)
    decreases Y.Mapping(entry), 1
  {
    if entryType == "object" {
      r := GetObject(entry);
    } else if entryType == "array" {
      r := GetArray(entry);
    } else {
      r := ParseByType(entryType, entry);
    }
  }

  method GetObject(entry: Y.Entries) returns (r: Parsed<Value>)
    ensures r == ParseObject(entry)
    decreases Y.Mapping(entry), 0
  {
    var got := GetProperties(entry);
    if got.Err? {
      return Err(got.error);
    }
    var properties := got.value;
    var fields: map<string, Value> := map[];
    var i := 0;
    while i < |properties|
      invariant i <= |properties|
      invariant ParseProperties(properties, i) == Ok(fields)
    {
      var (key, value) := properties[i];
      assert value < properties[i];
      var name := Y.AsStr(key);
      var entry' := Y.AsMapping(value);
      if name.None? || entry'.None? {
        PropertiesFailureSticks(properties, i + 1, |properties|);
        return Err(InvalidProperties);
      }
      var jsonValue := FromEntry(entry'.value);
      if jsonValue.Err? {
        PropertiesFailureSticks(properties, i + 1, |properties|);
        return Err(jsonValue.error);
      }
      fields := fields[name.value := jsonValue.value];
      i := i + 1;
    }
    return Ok(Object(fields));
  }

  method GetArray(entry: Y.Entries) returns (r: Parsed<Value>)
    ensures r == ParseArray(entry)
    decreases Y.Mapping(entry), 0
  {
    var got := GetItems(entry);
    if got.Err? {
      return Err(got.error);
    }
    var items := got.value;
    var values: seq<Value> := [];
    var i := 0;
    while i < |items|
      invariant i <= |items|
      invariant ParseItems(items, i) == Ok(values)
    {
      var entry' := Y.AsMapping(items[i]);
      if entry'.None? {
        ItemsFailureSticks(items, i + 1, |items|);
        return Err(InvalidItems);
      }
      var jsonValue := FromEntry(entry'.value);
      if jsonValue.Err? {
        ItemsFailureSticks(items, i + 1, |items|);
        return Err(jsonValue.error);
      }
      values := values + [jsonValue.value];
      i := i + 1;
    }
    return Ok(Array(values));
  }

  lemma {:induction false} PropertiesFailureSticks(properties: Y.Entries, i: nat, n: nat)
    requires i <= n <= |properties|
    requires ParseProperties(properties, i).Err?
    ensures ParseProperties(properties, n) == ParseProperties(properties, i)
    decreases n
  {
    if n > i {
      PropertiesFailureSticks(properties, i, n - 1);
    }
  }

  lemma {:induction false} ItemsFailureSticks(items: seq<Y.Node>, i: nat, n: nat)
    requires i <= n <= |items|
    requires ParseItems(items, i).Err?
    ensures ParseItems(items, n) == ParseItems(items, i)
    decreases n
  {
    if n > i {
      ItemsFailureSticks(items, i, n - 1);
    }
  }

  // ---------------------------------------------------------------------
  // The tag
  // ---------------------------------------------------------------------

  /** In both vocabularies a missing tag and a tag that is not a string are reported as such. */
  lemma {:induction false} TypeTagErrors(entry: Y.Entries)
    ensures Y.Get(entry, Key(TypeTag)).None? ==>
      Parse(entry) == Err(MissingField("type")) && FromBasicEntry(entry) == Err(MissingField("type"))
    ensures Y.Get(entry, Key(TypeTag)).Some? && Y.AsStr(Y.Get(entry, Key(TypeTag)).value).None? ==>
      Parse(entry) == Err(InvalidType) && FromBasicEntry(entry) == Err(InvalidType)
  {
  }

  /** A `null` entry decodes to Null whatever else it holds; the restricted vocabulary rejects it. */
  lemma {:induction false} NullTag(entry: Y.Entries)
    requires GetType(entry) == Ok("null")
    ensures Parse(entry) == Ok(Null)
    ensures FromBasicEntry(entry) == Err(InvalidTypeValue("null"))
  {
  }

  /** A tag outside a vocabulary is reported with its own text. */
  lemma {:induction false} UnknownTag(entry: Y.Entries, entryType: string)
    requires GetType(entry) == Ok(entryType)
    ensures entryType !in FullTags ==> Parse(entry) == Err(InvalidTypeValue(entryType))
    ensures entryType !in BasicTags ==> FromBasicEntry(entry) == Err(InvalidTypeValue(entryType))
  {
  }

  predicate IsBasic(v: Value)
  {
    v.String? || v.Integer? || v.Float? || v.Source?
  }

  /**
   * The restricted vocabulary is a restriction of the full one: on its four
   * tags, and on a missing or malformed tag, both give the same outcome;
   * whatever it accepts is a string, integer, float or date source.
   */
  lemma {:induction false} BasicAgreesWithFull(entry: Y.Entries)
    ensures FromBasicEntry(entry).Ok? ==> Parse(entry) == FromBasicEntry(entry)
    ensures FromBasicEntry(entry).Ok? ==> IsBasic(FromBasicEntry(entry).value)
    ensures GetType(entry).Err? || GetType(entry).value in BasicTags ==> Parse(entry) == FromBasicEntry(entry)
  {
  }

  // ---------------------------------------------------------------------
  // Scalars and date sources
  // ---------------------------------------------------------------------

  /** Every scalar tag needs a `value` field. */
  lemma {:induction false} ScalarNeedsValue(entry: Y.Entries, entryType: string)
    requires GetType(entry) == Ok(entryType)
    requires entryType in {"integer", "float", "string", "boolean"}
    requires Y.Get(entry, Key(ValueTag)).None?
    ensures Parse(entry) == Err(MissingField("value"))
    ensures entryType != "boolean" ==> FromBasicEntry(entry) == Err(MissingField("value"))
  {
  }

  /** An integer entry succeeds exactly when its value is a number that fits in 64 signed bits. */
  lemma {:induction false} IntegerEntry(entry: Y.Entries, i: Y.I64)
    requires GetType(entry) == Ok("integer")
    ensures Parse(entry) == FromBasicEntry(entry)
    ensures Parse(entry) == Ok(Integer(i)) <==>
      exists n :: Y.Get(entry, Key(ValueTag)) == Some(Y.Number(n)) && Y.AsI64(n) == Some(i)
    ensures Parse(entry).Err? && Y.Get(entry, Key(ValueTag)).Some? ==> Parse(entry) == Err(InvalidValue)
  {
    assert Parse(entry) == GetInteger(entry);
    if Parse(entry) == Ok(Integer(i)) {
      var n := Y.Get(entry, Key(ValueTag)).value.n;
      assert Y.Get(entry, Key(ValueTag)) == Some(Y.Number(n)) && Y.AsI64(n) == Some(i);
    }
  }

  /** A string entry succeeds exactly when its value is a string, which it keeps verbatim. */
  lemma {:induction false} StringEntry(entry: Y.Entries, s: string)
    requires GetType(entry) == Ok("string")
    ensures Parse(entry) == FromBasicEntry(entry)
    ensures Parse(entry) == Ok(String(s)) <==> Y.Get(entry, Key(ValueTag)) == Some(Y.String(s))
    ensures Parse(entry).Err? && Y.Get(entry, Key(ValueTag)).Some? ==> Parse(entry) == Err(InvalidValue)
  {
  }

  /** A boolean entry succeeds exactly when its value is a boolean. */
  lemma {:induction false} BooleanEntry(entry: Y.Entries, b: bool)
    requires GetType(entry) == Ok("boolean")
    ensures Parse(entry) == Ok(Bool(b)) <==>
      (Y.Get(entry, Key(ValueTag)).Some? && Y.AsBool(Y.Get(entry, Key(ValueTag)).value) == Some(b))
    ensures Parse(entry).Err? && Y.Get(entry, Key(ValueTag)).Some? ==> Parse(entry) == Err(InvalidValue)
  {
  }

  /**
   * A float entry succeeds exactly when its value is a number, and then
   * holds that number's conversion to a float; any other value is
   * `InvalidValue`.
   */
  lemma {:induction false} FloatEntry(entry: Y.Entries)
    requires GetType(entry) == Ok("float")
    ensures Parse(entry) == FromBasicEntry(entry)
    ensures Parse(entry).Ok? <==> Y.Get(entry, Key(ValueTag)).Some? && Y.Get(entry, Key(ValueTag)).value.Number?
    ensures Parse(entry).Ok? ==> Parse(entry) == Ok(Float(Y.AsF64Of(Y.Get(entry, Key(ValueTag)).value.n)))
    ensures Parse(entry).Err? && Y.Get(entry, Key(ValueTag)).Some? ==> Parse(entry) == Err(InvalidValue)
  {
    assert Parse(entry) == GetFloat(entry);
  }

  /** The spelling of each date source in a configuration file. */
  function SourceName(source: DateSource): (r: string)
    ensures r in {"execute_time", "last_execute_time"}
  {
    match source
    case ExecuteDate => "execute_time"
    case LastExecuteDate => "last_execute_time"
  }

  /**
   * A source entry decodes the two spellings to their sources and reports
   * a missing field, a non-string field and any other string separately.
   */
  lemma {:induction false} SourceEntry(entry: Y.Entries, source: DateSource)
    requires GetType(entry) == Ok("source")
    ensures Parse(entry) == FromBasicEntry(entry)
    ensures Parse(entry) == Ok(Source(source)) <==>
      Y.Get(entry, Key(SourceTag)).Some? && Y.AsStr(Y.Get(entry, Key(SourceTag)).value) == Some(SourceName(source))
    ensures Y.Get(entry, Key(SourceTag)).None? ==> Parse(entry) == Err(MissingField("source"))
    ensures Y.Get(entry, Key(SourceTag)).Some? && Y.AsStr(Y.Get(entry, Key(SourceTag)).value).None? ==>
      Parse(entry) == Err(InvalidSource)
    ensures forall s ::
      (Y.Get(entry, Key(SourceTag)).Some? && Y.AsStr(Y.Get(entry, Key(SourceTag)).value) == Some(s)
       && s !in {"execute_time", "last_execute_time"}) ==> Parse(entry) == Err(InvalidSourceValue(s))
  {
  }

  // ---------------------------------------------------------------------
  // Arrays
  // ---------------------------------------------------------------------

  /** A decoded array has one element per item, each the decoding of its item. */
  lemma {:induction false} ItemsOk(items: seq<Y.Node>, n: nat)
    requires n <= |items|
    ensures var r := ParseItems(items, n);
      r.Ok? ==> |r.value| == n && forall i :: 0 <= i < n ==> ParseItem(items[i]) == Ok(r.value[i])
    decreases n
  {
    if n > 0 {
      ItemsOk(items, n - 1);
    }
  }

  /** If every item decodes, so does the array, to exactly those elements. */
  lemma {:induction false} ItemsFromElements(items: seq<Y.Node>, n: nat, values: seq<Value>)
    requires n <= |items| && |values| == n
    requires forall i :: 0 <= i < n ==> ParseItem(items[i]) == Ok(values[i])
    ensures ParseItems(items, n) == Ok(values)
    decreases n
  {
    if n > 0 {
      ItemsFromElements(items, n - 1, values[..n - 1]);
      assert values[..n - 1] + [values[n - 1]] == values;
    }
  }

  /** Array decoding is elementwise: same length, same order, element i from item i. */
  lemma {:induction false} ItemsElementwise(items: seq<Y.Node>, n: nat, values: seq<Value>)
    requires n <= |items|
    ensures ParseItems(items, n) == Ok(values) <==>
      |values| == n && forall i :: 0 <= i < n ==> ParseItem(items[i]) == Ok(values[i])
  {
    ItemsOk(items, n);
    if |values| == n && forall i :: 0 <= i < n ==> ParseItem(items[i]) == Ok(values[i]) {
      ItemsFromElements(items, n, values);
    }
  }

  /** An array fails exactly when an item fails, and then with the first failing item's error. */
  lemma {:induction false} ItemsFirstFailure(items: seq<Y.Node>, n: nat)
    requires n <= |items|
    ensures ParseItems(items, n).Err? <==> exists k :: 0 <= k < n && ParseItem(items[k]).Err?
    ensures ParseItems(items, n).Err? ==>
      exists k :: 0 <= k < n
        && ParseItem(items[k]) == Err(ParseItems(items, n).error)
        && forall i :: 0 <= i < k ==> ParseItem(items[i]).Ok?
    decreases n
  {
    ItemsOk(items, n);
    if n > 0 {
      ItemsFirstFailure(items, n - 1);
      if ParseItems(items, n - 1).Ok? {
        ItemsOk(items, n - 1);
      }
    }
  }

  /**
   * An item that is not a mapping makes the whole array `InvalidItems`
   * when every item before it decodes.
   */
  lemma {:induction false} ItemNotMapping(items: seq<Y.Node>, k: nat)
    requires k < |items| && Y.AsMapping(items[k]).None?
    requires forall i :: 0 <= i < k ==> ParseItem(items[i]).Ok?
    ensures ParseItem(items[k]) == Err(InvalidItems)
    ensures ParseItems(items, |items|) == Err(InvalidItems)
  {
    ItemsFirstFailure(items, k);
    ItemsFailureSticks(items, k + 1, |items|);
  }

  /**
   * An array entry needs an `items` sequence; on success it holds one
   * element per item, element i the decoding of item i.
   */
  lemma {:induction false} ArrayEntry(entry: Y.Entries)
    requires GetType(entry) == Ok("array")
    ensures Parse(entry) == ParseArray(entry)
    ensures Y.Get(entry, Key(ItemsTag)).None? ==> Parse(entry) == Err(MissingField("items"))
    ensures Y.Get(entry, Key(ItemsTag)).Some? && Y.AsSequence(Y.Get(entry, Key(ItemsTag)).value).None? ==>
      Parse(entry) == Err(InvalidItems)
    ensures Parse(entry).Ok? ==>
      && Parse(entry).value.Array? && GetItems(entry).Ok?
      && |Parse(entry).value.items| == |GetItems(entry).value|
      && forall i :: 0 <= i < |GetItems(entry).value| ==>
           ParseItem(GetItems(entry).value[i]) == Ok(Parse(entry).value.items[i])
  {
    if GetItems(entry).Ok? {
      ItemsOk(GetItems(entry).value, |GetItems(entry).value|);
    }
  }

  // ---------------------------------------------------------------------
  // Objects
  // ---------------------------------------------------------------------

  /** Property i is the last of the first `n` whose key reads as its key. */
  ghost predicate LastOccurrence(properties: Y.Entries, n: nat, i: nat)
    requires i < n <= |properties|
  {
    forall j :: i < j < n ==> Y.AsStr(properties[j].0) != Y.AsStr(properties[i].0)
  }

  /** A decoded object comes from properties that all decode. */
  lemma {:induction false} PropertiesAllOk(properties: Y.Entries, n: nat)
    requires n <= |properties|
    ensures ParseProperties(properties, n).Ok? <==>
      forall i :: 0 <= i < n ==> ParseProperty(properties[i].0, properties[i].1).Ok?
    decreases n
  {
    if n > 0 {
      PropertiesAllOk(properties, n - 1);
    }
  }

  /** The keys of a decoded object are exactly the keys of its properties. */
  lemma {:induction false} PropertiesKeys(properties: Y.Entries, n: nat)
    requires n <= |properties|
    ensures var r := ParseProperties(properties, n);
      r.Ok? ==> forall name :: name in r.value <==> exists i :: 0 <= i < n && Y.AsStr(properties[i].0) == Some(name)
    decreases n
  {
    if n > 0 {
      PropertiesKeys(properties, n - 1);
      var r := ParseProperties(properties, n);
      if r.Ok? {
        var field := ParseProperty(properties[n - 1].0, properties[n - 1].1).value;
        assert Y.AsStr(properties[n - 1].0) == Some(field.0);
      }
    }
  }

  /** Each key of a decoded object holds the decoding of the last property with that key. */
  lemma {:induction false} PropertiesLastWins(properties: Y.Entries, n: nat, i: nat)
    requires i < n <= |properties|
    requires LastOccurrence(properties, n, i)
    ensures var r := ParseProperties(properties, n);
      r.Ok? ==> var field := ParseProperty(properties[i].0, properties[i].1);
        field.Ok? && field.value.0 in r.value && r.value[field.value.0] == field.value.1
    decreases n
  {
    var r := ParseProperties(properties, n);
    if r.Ok? {
      PropertiesAllOk(properties, n);
      if i < n - 1 {
        assert LastOccurrence(properties, n - 1, i);
        PropertiesLastWins(properties, n - 1, i);
        var last := ParseProperty(properties[n - 1].0, properties[n - 1].1).value;
        assert Y.AsStr(properties[n - 1].0) == Some(last.0);
      }
    }
  }

  /** An object fails exactly when a property fails, and then with the first failing property's error. */
  lemma {:induction false} PropertiesFirstFailure(properties: Y.Entries, n: nat)
    requires n <= |properties|
    ensures ParseProperties(properties, n).Err? ==>
      exists k :: 0 <= k < n
        && ParseProperty(properties[k].0, properties[k].1) == Err(ParseProperties(properties, n).error)
        && forall i :: 0 <= i < k ==> ParseProperty(properties[i].0, properties[i].1).Ok?
    decreases n
  {
    if n > 0 {
      PropertiesFirstFailure(properties, n - 1);
      if ParseProperties(properties, n - 1).Ok? {
        PropertiesAllOk(properties, n - 1);
      }
    }
  }

  /** A property fails on a non-string key or a non-mapping value, before its value is decoded. */
  lemma {:induction false} PropertyErrors(key: Y.Node, value: Y.Node)
    ensures Y.AsStr(key).None? ==> ParseProperty(key, value) == Err(InvalidProperties)
    ensures Y.AsMapping(value).None? ==> ParseProperty(key, value) == Err(InvalidProperties)
    ensures ParseProperty(key, value).Ok? ==>
      Y.AsStr(key) == Some(ParseProperty(key, value).value.0)
      && Parse(Y.AsMapping(value).value) == Ok(ParseProperty(key, value).value.1)
  {
  }

  /**
   * An object entry needs a `properties` mapping; on success its keys are
   * the property keys and each holds the decoding of the last property
   * with that key.
   */
  lemma {:induction false} ObjectEntry(entry: Y.Entries)
    requires GetType(entry) == Ok("object")
    ensures Parse(entry) == ParseObject(entry)
    ensures Y.Get(entry, Key(PropertiesTag)).None? ==> Parse(entry) == Err(MissingField("properties"))
    ensures Y.Get(entry, Key(PropertiesTag)).Some? && Y.AsMapping(Y.Get(entry, Key(PropertiesTag)).value).None? ==>
      Parse(entry) == Err(InvalidProperties)
    ensures Parse(entry).Ok? ==>
      && Parse(entry).value.Object? && GetProperties(entry).Ok?
      && var properties := GetProperties(entry).value;
         forall name :: name in Parse(entry).value.fields <==>
           exists i :: 0 <= i < |properties| && Y.AsStr(properties[i].0) == Some(name)
  {
    if GetProperties(entry).Ok? {
      var properties := GetProperties(entry).value;
      PropertiesKeys(properties, |properties|);
    }
  }

  // ---------------------------------------------------------------------
  // Every value has an entry that decodes to it
  // ---------------------------------------------------------------------

  /** An entry holding only a tag and one field. */
  function TaggedEntry(entryType: string, field: string, value: Y.Node): Y.Entries
  {
    [(Key(TypeTag), Y.String(entryType)), (Key(field), value)]
  }

  /** The tag and the field of such an entry are found under their keys. */
  lemma {:induction false} TaggedEntryFields(entryType: string, field: string, value: Y.Node)
    requires field != TypeTag
    ensures GetType(TaggedEntry(entryType, field, value)) == Ok(entryType)
    ensures Y.Get(TaggedEntry(entryType, field, value), Key(field)) == Some(value)
  {
    var m := TaggedEntry(entryType, field, value);
    Y.KeyIndexAt(m, Key(TypeTag), 0);
    Y.KeyIndexAt(m, Key(field), 1);
  }

  /** Some key of a non-empty object. */
  ghost function PickKey(fields: map<string, Value>): (name: string)
    requires |fields| > 0
    ensures name in fields
  {
    var name :| name in fields; name
  }

  /**
   * A configuration entry for `v`: the shape a configuration file uses to
   * describe it. Arrays and objects take one unit of `fuel` per level of
   * nesting; `None` means the fuel ran out.
   */
  ghost function Encode(v: Value, fuel: nat): Option<Y.Entries>
    decreases fuel, 0
  {
    match v
    case Array(values) =>
      if fuel == 0 then None
      else
        (match EncodeItems(values, fuel - 1)
         case None => None
         case Some(items) => Some(TaggedEntry("array", ItemsTag, Y.Sequence(items))))
    case Object(fields) =>
      if fuel == 0 then None
      else
        (match EncodeFields(fields, fuel - 1)
         case None => None
         case Some(properties) => Some(TaggedEntry("object", PropertiesTag, Y.Mapping(properties))))
    case _ => Some(ScalarEntry(v))
  }

  /** The entry for a value that is neither an array nor an object. */
  ghost function ScalarEntry(v: Value): Y.Entries
    requires !v.Array? && !v.Object?
  {
    match v
    case Null => [(Key(TypeTag), Y.String("null"))]
    case Bool(b) => TaggedEntry("boolean", ValueTag, Y.Bool(b))
    case Integer(i) => TaggedEntry("integer", ValueTag, Y.Number(Y.FromI64(i)))
    case Float(f) => TaggedEntry("float", ValueTag, Y.Number(f.n))
    case String(s) => TaggedEntry("string", ValueTag, Y.String(s))
    case Source(source) => TaggedEntry("source", SourceTag, Y.String(SourceName(source)))
  }

  ghost function EncodeItems(values: seq<Value>, fuel: nat): (r: Option<seq<Y.Node>>)
    ensures r.Some? ==> |r.value| == |values|
    decreases fuel, |values| + 1
  {
    if values == [] then Some([])
    else
      match EncodeItems(values[..|values| - 1], fuel)
      case None => None
      case Some(items) =>
        match Encode(values[|values| - 1], fuel)
        case None => None
        case Some(entry) => Some(items + [Y.Mapping(entry)])
  }

  ghost function EncodeFields(fields: map<string, Value>, fuel: nat): Option<Y.Entries>
    decreases fuel, |fields| + 1
  {
    if |fields| == 0 then Some([])
    else
      var name := PickKey(fields);
      var rest := fields - {name};
      assert |rest| < |fields| by {
        assert rest.Keys + {name} == fields.Keys;
      }
      match EncodeFields(rest, fuel)
      case None => None
      case Some(properties) =>
        match Encode(fields[name], fuel)
        case None => None
        case Some(entry) => Some(properties + [(Y.String(name), Y.Mapping(entry))])
  }

  function Max(a: nat, b: nat): (m: nat)
    ensures a <= m && b <= m && (m == a || m == b)
  {
    if a < b then b else a
  }

  /** How deeply arrays and objects nest in `v`: the fuel its encoding needs. */
  ghost function Depth(v: Value): nat
    decreases v, 1
  {
    match v
    case Array(values) => 1 + DepthItems(v, values)
    case Object(fields) => 1 + DepthFields(v, fields)
    case _ => 0
  }

  ghost function DepthItems(parent: Value, values: seq<Value>): (d: nat)
    requires forall i :: 0 <= i < |values| ==> values[i] < parent
    ensures forall i :: 0 <= i < |values| ==> Depth(values[i]) <= d
    decreases parent, 0, |values|
  {
    if values == [] then 0
    else Max(DepthItems(parent, values[..|values| - 1]), Depth(values[|values| - 1]))
  }

  ghost function DepthFields(parent: Value, fields: map<string, Value>): (d: nat)
    requires forall name :: name in fields ==> fields[name] < parent
    ensures forall name :: name in fields ==> Depth(fields[name]) <= d
    decreases parent, 0, |fields|
  {
    if |fields| == 0 then 0
    else
      var name := PickKey(fields);
      var rest := fields - {name};
      assert |rest| < |fields| by {
        assert rest.Keys + {name} == fields.Keys;
      }
      Max(DepthFields(parent, rest), Depth(fields[name]))
  }

  /** With at least its depth in fuel, every value has an encoding. */
  lemma {:induction false} EncodeDefined(v: Value, fuel: nat)
    requires Depth(v) <= fuel
    ensures Encode(v, fuel).Some?
    decreases v, 2
  {
    if v.Array? {
      EncodeArrayDefined(v, fuel);
    } else if v.Object? {
      EncodeObjectDefined(v, fuel);
    }
  }

  lemma {:induction false} EncodeArrayDefined(v: Value, fuel: nat)
    requires v.Array? && Depth(v) <= fuel
    ensures Encode(v, fuel).Some?
    decreases v, 1
  {
    var d := DepthItems(v, v.items);
    assert Depth(v) == 1 + d;
    assert forall i :: 0 <= i < |v.items| ==> v.items[i] < v && Depth(v.items[i]) <= fuel - 1;
    EncodeItemsDefined(v, v.items, fuel - 1);
  }

  lemma {:induction false} EncodeObjectDefined(v: Value, fuel: nat)
    requires v.Object? && Depth(v) <= fuel
    ensures Encode(v, fuel).Some?
    decreases v, 1
  {
    var d := DepthFields(v, v.fields);
    assert Depth(v) == 1 + d;
    assert forall name :: name in v.fields ==> v.fields[name] < v && Depth(v.fields[name]) <= fuel - 1;
    EncodeFieldsDefined(v, v.fields, fuel - 1);
  }

  lemma {:induction false} EncodeItemsDefined(parent: Value, values: seq<Value>, fuel: nat)
    requires forall i :: 0 <= i < |values| ==> values[i] < parent && Depth(values[i]) <= fuel
    ensures EncodeItems(values, fuel).Some?
    decreases parent, 0, |values|
  {
    if values != [] {
      EncodeItemsDefined(parent, values[..|values| - 1], fuel);
      EncodeDefined(values[|values| - 1], fuel);
    }
  }

  lemma {:induction false} EncodeFieldsDefined(parent: Value, fields: map<string, Value>, fuel: nat)
    requires forall name :: name in fields ==> fields[name] < parent && Depth(fields[name]) <= fuel
    ensures EncodeFields(fields, fuel).Some?
    decreases parent, 0, |fields|
  {
    if |fields| > 0 {
      var name := PickKey(fields);
      var rest := fields - {name};
      assert rest.Keys + {name} == fields.Keys;
      EncodeFieldsDefined(parent, rest, fuel);
      EncodeDefined(fields[name], fuel);
    }
  }

  /** More fuel never changes an encoding that already exists. */
  lemma {:induction false} EncodeMonotone(v: Value, fuel: nat, more: nat)
    requires fuel <= more && Encode(v, fuel).Some?
    ensures Encode(v, more) == Encode(v, fuel)
    decreases fuel, 0, 1
  {
    if v.Array? {
      EncodeArrayMonotone(v, fuel, more);
    } else if v.Object? {
      EncodeObjectMonotone(v, fuel, more);
    }
  }

  lemma {:induction false} EncodeArrayMonotone(v: Value, fuel: nat, more: nat)
    requires v.Array? && fuel <= more && Encode(v, fuel).Some?
    ensures Encode(v, more) == Encode(v, fuel)
    decreases fuel, 0, 0
  {
    EncodeItemsMonotone(v.items, fuel - 1, more - 1);
  }

  lemma {:induction false} EncodeObjectMonotone(v: Value, fuel: nat, more: nat)
    requires v.Object? && fuel <= more && Encode(v, fuel).Some?
    ensures Encode(v, more) == Encode(v, fuel)
    decreases fuel, 0, 0
  {
    EncodeFieldsMonotone(v.fields, fuel - 1, more - 1);
  }

  lemma {:induction false} EncodeItemsMonotone(values: seq<Value>, fuel: nat, more: nat)
    requires fuel <= more && EncodeItems(values, fuel).Some?
    ensures EncodeItems(values, more) == EncodeItems(values, fuel)
    decreases fuel, 1, |values|
  {
    if values != [] {
      EncodeItemsMonotone(values[..|values| - 1], fuel, more);
      EncodeMonotone(values[|values| - 1], fuel, more);
    }
  }

  lemma {:induction false} EncodeFieldsMonotone(fields: map<string, Value>, fuel: nat, more: nat)
    requires fuel <= more && EncodeFields(fields, fuel).Some?
    ensures EncodeFields(fields, more) == EncodeFields(fields, fuel)
    decreases fuel, 1, |fields|
  {
    if |fields| > 0 {
      var name := PickKey(fields);
      var rest := fields - {name};
      assert rest.Keys + {name} == fields.Keys;
      EncodeFieldsMonotone(rest, fuel, more);
      EncodeMonotone(fields[name], fuel, more);
    }
  }

  /** Decoding the first `n` items looks at nothing after them. */
  lemma {:induction false} ItemsPrefix(items: seq<Y.Node>, more: seq<Y.Node>, n: nat)
    requires n <= |items| <= |more| && items == more[..|items|]
    ensures ParseItems(more, n) == ParseItems(items, n)
    decreases n
  {
    if n > 0 {
      assert more[n - 1] == items[n - 1];
      ItemsPrefix(items, more, n - 1);
    }
  }

  lemma {:induction false} PropertiesPrefix(properties: Y.Entries, more: Y.Entries, n: nat)
    requires n <= |properties| <= |more| && properties == more[..|properties|]
    ensures ParseProperties(more, n) == ParseProperties(properties, n)
    decreases n
  {
    if n > 0 {
      assert more[n - 1] == properties[n - 1];
      PropertiesPrefix(properties, more, n - 1);
    }
  }

  /**
   * Every value has an encoding once the fuel reaches its depth, and
   * decoding an encoding gives back the value: the parser reaches every
   * value.
   */
  lemma {:induction false} RoundTrip(v: Value, fuel: nat)
    ensures Depth(v) <= fuel ==> Encode(v, fuel).Some?
    ensures Encode(v, fuel).Some? ==> Parse(Encode(v, fuel).value) == Ok(v)
    decreases fuel, 1
  {
    if Depth(v) <= fuel {
      EncodeDefined(v, fuel);
    }
    match v
    case Array(values) => ArrayRoundTrip(values, fuel);
    case Object(fields) => ObjectRoundTrip(fields, fuel);
    case _ => ScalarRoundTrip(v);
  }

  lemma {:induction false} ScalarRoundTrip(v: Value)
    requires !v.Array? && !v.Object?
    ensures Encode(v, 0).Some? && Parse(Encode(v, 0).value) == Ok(v)
  {
    match v
    case Null => NullRoundTrip();
    case Bool(b) => BoolRoundTrip(b);
    case Integer(i) => IntegerRoundTrip(i);
    case Float(f) => FloatRoundTrip(f);
    case String(s) => StringRoundTrip(s);
    case Source(source) => SourceRoundTrip(source);
  }

  lemma {:induction false} NullRoundTrip()
    ensures Parse(Encode(Null, 0).value) == Ok(Null)
  {
    Y.KeyIndexAt(Encode(Null, 0).value, Key(TypeTag), 0);
    NullTag(Encode(Null, 0).value);
  }

  lemma {:induction false} BoolRoundTrip(b: bool)
    ensures Parse(Encode(Bool(b), 0).value) == Ok(Bool(b))
  {
    TaggedEntryFields("boolean", ValueTag, Y.Bool(b));
    BooleanEntry(Encode(Bool(b), 0).value, b);
  }

  lemma {:induction false} IntegerRoundTrip(i: Y.I64)
    ensures Parse(Encode(Integer(i), 0).value) == Ok(Integer(i))
  {
    TaggedEntryFields("integer", ValueTag, Y.Number(Y.FromI64(i)));
    IntegerEntry(Encode(Integer(i), 0).value, i);
  }

  lemma {:induction false} FloatRoundTrip(f: Y.F64)
    ensures Parse(Encode(Float(f), 0).value) == Ok(Float(f))
  {
    TaggedEntryFields("float", ValueTag, Y.Number(f.n));
    assert Parse(Encode(Float(f), 0).value) == GetFloat(Encode(Float(f), 0).value);
  }

  lemma {:induction false} StringRoundTrip(s: string)
    ensures Parse(Encode(String(s), 0).value) == Ok(String(s))
  {
    TaggedEntryFields("string", ValueTag, Y.String(s));
    StringEntry(Encode(String(s), 0).value, s);
  }

  lemma {:induction false} SourceRoundTrip(source: DateSource)
    ensures Parse(Encode(Source(source), 0).value) == Ok(Source(source))
  {
    TaggedEntryFields("source", SourceTag, Y.String(SourceName(source)));
    SourceEntry(Encode(Source(source), 0).value, source);
  }

  lemma {:induction false} ArrayRoundTrip(values: seq<Value>, fuel: nat)
    ensures Encode(Array(values), fuel).Some? ==> Parse(Encode(Array(values), fuel).value) == Ok(Array(values))
    decreases fuel, 0
  {
    if fuel > 0 && Encode(Array(values), fuel).Some? {
      ItemsRoundTrip(values, fuel - 1);
      var items := EncodeItems(values, fuel - 1).value;
      TaggedEntryFields("array", ItemsTag, Y.Sequence(items));
      ArrayEntry(TaggedEntry("array", ItemsTag, Y.Sequence(items)));
    }
  }

  lemma {:induction false} ObjectRoundTrip(fields: map<string, Value>, fuel: nat)
    ensures Encode(Object(fields), fuel).Some? ==> Parse(Encode(Object(fields), fuel).value) == Ok(Object(fields))
    decreases fuel, 0
  {
    if fuel > 0 && Encode(Object(fields), fuel).Some? {
      FieldsRoundTrip(fields, fuel - 1);
      var properties := EncodeFields(fields, fuel - 1).value;
      TaggedEntryFields("object", PropertiesTag, Y.Mapping(properties));
      ObjectEntry(TaggedEntry("object", PropertiesTag, Y.Mapping(properties)));
    }
  }

  lemma {:induction false} ItemsRoundTrip(values: seq<Value>, fuel: nat)
    ensures var r := EncodeItems(values, fuel);
      r.Some? ==> ParseItems(r.value, |r.value|) == Ok(values)
    decreases fuel, |values| + 1
  {
    var r := EncodeItems(values, fuel);
    if values != [] && r.Some? {
      var n := |values| - 1;
      var items := EncodeItems(values[..n], fuel).value;
      var entry := Encode(values[n], fuel).value;
      ItemsRoundTrip(values[..n], fuel);
      RoundTrip(values[n], fuel);
      assert r.value == items + [Y.Mapping(entry)];
      ItemsSnoc(items, values[..n], entry, values[n]);
      assert values[..n] + [values[n]] == values;
    }
  }

  /** Appending an item that decodes appends its value to the array. */
  lemma {:induction false} ItemsSnoc(items: seq<Y.Node>, values: seq<Value>, entry: Y.Entries, v: Value)
    requires ParseItems(items, |items|) == Ok(values)
    requires Parse(entry) == Ok(v)
    ensures var more := items + [Y.Mapping(entry)];
      ParseItems(more, |more|) == Ok(values + [v])
  {
    var more := items + [Y.Mapping(entry)];
    ItemsPrefix(items, more, |items|);
    assert ParseItem(Y.Mapping(entry)) == Ok(v);
  }

  lemma {:induction false} FieldsRoundTrip(fields: map<string, Value>, fuel: nat)
    ensures var r := EncodeFields(fields, fuel);
      r.Some? ==> ParseProperties(r.value, |r.value|) == Ok(fields)
    decreases fuel, |fields| + 1
  {
    var r := EncodeFields(fields, fuel);
    if |fields| > 0 && r.Some? {
      var name := PickKey(fields);
      var rest := fields - {name};
      assert rest.Keys + {name} == fields.Keys;
      var properties := EncodeFields(rest, fuel).value;
      var entry := Encode(fields[name], fuel).value;
      FieldsRoundTrip(rest, fuel);
      RoundTrip(fields[name], fuel);
      assert r.value == properties + [(Y.String(name), Y.Mapping(entry))];
      PropertiesSnoc(properties, rest, name, entry, fields[name]);
      assert rest[name := fields[name]] == fields;
    }
  }

  /** Appending a property whose key and value decode adds that field to the object. */
  lemma {:induction false} PropertiesSnoc(properties: Y.Entries, fields: map<string, Value>, name: string, entry: Y.Entries, v: Value)
    requires ParseProperties(properties, |properties|) == Ok(fields)
    requires Parse(entry) == Ok(v)
    ensures var more := properties + [(Y.String(name), Y.Mapping(entry))];
      ParseProperties(more, |more|) == Ok(fields[name := v])
  {
    var more := properties + [(Y.String(name), Y.Mapping(entry))];
    PropertiesPrefix(properties, more, |properties|);
    assert ParseProperty(Y.String(name), Y.Mapping(entry)) == Ok((name, v));
  }

  /** Scalars and date sources need no fuel, and the restricted vocabulary decodes their encodings too. */
  lemma {:induction false} BasicRoundTrip(v: Value)
    requires IsBasic(v)
    ensures Encode(v, 0).Some? && FromBasicEntry(Encode(v, 0).value) == Ok(v)
  {
    RoundTrip(v, 0);
    BasicAgreesWithFull(Encode(v, 0).value);
  }
}

