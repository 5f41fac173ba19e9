/**
 * The HTTP task of the repository's own deserialization test, decoded
 * with the model: its four headers and its JSON body.
 */
module HttpConfigExamples {
  import opened Wrappers
  import Y = Yaml
  import opened ConfigValue
  import opened HttpConfig

  /** A `string` entry. */
  function StringOf(s: string): Y.Entries
  {
    TaggedEntry("string", ValueTag, Y.String(s))
  }

  /** A `source` entry. */
  function SourceOf(source: string): Y.Entries
  {
    TaggedEntry("source", SourceTag, Y.String(source))
  }

  /** The `headers` section of the test document. */
  function TestHeaders(): MapEntries
  {
    [ ("X-Api-Key", StringOf("env!(YOUR_OWN_SERVICE_KEY)")),
      ("X-Custom-Key", StringOf("My Custom Key")),
      ("X-Last-Execute-Time", SourceOf("last_execute_time")),
      ("X-Execute-Time", SourceOf("execute_time")) ]
  }

  /** A `string` entry decodes to its string under either vocabulary. */
  lemma {:induction false} StringOfDecodes(s: string)
    ensures Parse(StringOf(s)) == Ok(Value.String(s))
    ensures FromBasicEntry(StringOf(s)) == Ok(Value.String(s))
  {
    BasicRoundTrip(Value.String(s));
  }

  /** A `source` entry naming a date source decodes to it under either vocabulary. */
  lemma {:induction false} SourceOfDecodes(source: DateSource)
    ensures Parse(SourceOf(SourceName(source))) == Ok(Value.Source(source))
    ensures FromBasicEntry(SourceOf(SourceName(source))) == Ok(Value.Source(source))
  {
    BasicRoundTrip(Value.Source(source));
  }

  /** One more header, found at position `k`, that decodes. */
  lemma {:induction false} HeaderAt(entries: MapEntries, k: nat, headers: Headers, entry: Y.Entries, v: Value)
    requires k < |entries| && entries[k].1 == entry
    requires HeadersOf(entries, k) == Ok(headers)
    requires FromBasicEntry(entry) == Ok(v)
    ensures HeadersOf(entries, k + 1) == Ok(headers[entries[k].0 := v])
  {
    HeadersStep(FromBasicEntry, entries, k, headers);
  }

  /** The placeholder in the first header stays literal; the two date sources are recognised. */
  lemma {:induction false} TestHeadersDecode()
    ensures HeadersOf(TestHeaders(), 4) == Ok(map[
      "X-Api-Key" := Value.String("env!(YOUR_OWN_SERVICE_KEY)"),
      "X-Custom-Key" := Value.String("My Custom Key"),
      "X-Last-Execute-Time" := Value.Source(LastExecuteDate),
      "X-Execute-Time" := Value.Source(ExecuteDate)])
  {
    var h := TestHeaders();
    StringOfDecodes("env!(YOUR_OWN_SERVICE_KEY)");
    StringOfDecodes("My Custom Key");
    SourceOfDecodes(LastExecuteDate);
    SourceOfDecodes(ExecuteDate);
    var m1 := map["X-Api-Key" := Value.String("env!(YOUR_OWN_SERVICE_KEY)")];
    var m2 := m1["X-Custom-Key" := Value.String("My Custom Key")];
    var m3 := m2["X-Last-Execute-Time" := Value.Source(LastExecuteDate)];
    HeaderAt(h, 0, map[], StringOf("env!(YOUR_OWN_SERVICE_KEY)"), Value.String("env!(YOUR_OWN_SERVICE_KEY)"));
    HeaderAt(h, 1, m1, StringOf("My Custom Key"), Value.String("My Custom Key"));
    HeaderAt(h, 2, m2, SourceOf(SourceName(LastExecuteDate)), Value.Source(LastExecuteDate));
    HeaderAt(h, 3, m3, SourceOf(SourceName(ExecuteDate)), Value.Source(ExecuteDate));
  }

  /** An `object` entry whose properties decode decodes to the object they build. */
  lemma {:induction false} ObjectOf(properties: Y.Entries, fields: map<string, Value>)
    requires ParseProperties(properties, |properties|) == Ok(fields)
    ensures Parse(TaggedEntry("object", PropertiesTag, Y.Mapping(properties))) == Ok(Object(fields))
  {
    var entry := TaggedEntry("object", PropertiesTag, Y.Mapping(properties));
    TaggedEntryFields("object", PropertiesTag, Y.Mapping(properties));
    ObjectEntry(entry);
  }

  /** An `array` entry whose items decode decodes to the array they build. */
  lemma {:induction false} ArrayOf(items: seq<Y.Node>, values: seq<Value>)
    requires ParseItems(items, |items|) == Ok(values)
    ensures Parse(TaggedEntry("array", ItemsTag, Y.Sequence(items))) == Ok(Array(values))
  {
    var entry := TaggedEntry("array", ItemsTag, Y.Sequence(items));
    TaggedEntryFields("array", ItemsTag, Y.Sequence(items));
    ArrayEntry(entry);
  }

  /** A `boolean` entry. */
  function BoolOf(b: bool): Y.Entries
  {
    TaggedEntry("boolean", ValueTag, Y.Bool(b))
  }

  /** `field2`: an object holding the integer 100 under `field1_1`. */
  function Field2(): Y.Entries
  {
    TaggedEntry("object", PropertiesTag, Y.Mapping([(Y.String("field1_1"), Y.Mapping(TaggedEntry("integer", ValueTag, Y.Number(Y.PosInt(100)))))]))
  }

  lemma {:induction false} Field2Decodes()
    ensures Parse(Field2()) == Ok(Object(map["field1_1" := Integer(100)]))
  {
    IntegerRoundTrip(100);
    PropertiesSnoc([], map[], "field1_1", TaggedEntry("integer", ValueTag, Y.Number(Y.PosInt(100))), Integer(100));
    assert [] + [(Y.String("field1_1"), Y.Mapping(TaggedEntry("integer", ValueTag, Y.Number(Y.PosInt(100)))))]
      == [(Y.String("field1_1"), Y.Mapping(TaggedEntry("integer", ValueTag, Y.Number(Y.PosInt(100)))))];
    ObjectOf([(Y.String("field1_1"), Y.Mapping(TaggedEntry("integer", ValueTag, Y.Number(Y.PosInt(100)))))], map["field1_1" := Integer(100)]);
  }

  /** `field3`: an array of an object holding `false` and of the boolean `true`. */
  function Field3(): Y.Entries
  {
    TaggedEntry("array", ItemsTag, Y.Sequence([
      Y.Mapping(TaggedEntry("object", PropertiesTag, Y.Mapping([(Y.String("field1"), Y.Mapping(BoolOf(false)))]))),
      Y.Mapping(BoolOf(true))]))
  }

  lemma {:induction false} Field3Decodes()
    ensures Parse(Field3()) == Ok(Array([Object(map["field1" := Bool(false)]), Bool(true)]))
  {
    var inner := TaggedEntry("object", PropertiesTag, Y.Mapping([(Y.String("field1"), Y.Mapping(BoolOf(false)))]));
    BoolRoundTrip(false);
    BoolRoundTrip(true);
    PropertiesSnoc([], map[], "field1", BoolOf(false), Bool(false));
    assert [] + [(Y.String("field1"), Y.Mapping(BoolOf(false)))] == [(Y.String("field1"), Y.Mapping(BoolOf(false)))];
    ObjectOf([(Y.String("field1"), Y.Mapping(BoolOf(false)))], map["field1" := Bool(false)]);
    ItemAt([Y.Mapping(inner), Y.Mapping(BoolOf(true))], 0, [], inner, Object(map["field1" := Bool(false)]));
    assert [] + [Object(map["field1" := Bool(false)])] == [Object(map["field1" := Bool(false)])];
    ItemAt([Y.Mapping(inner), Y.Mapping(BoolOf(true))], 1, [Object(map["field1" := Bool(false)])], BoolOf(true), Bool(true));
    assert [Object(map["field1" := Bool(false)])] + [Bool(true)] == [Object(map["field1" := Bool(false)]), Bool(true)];
    ArrayOf([Y.Mapping(inner), Y.Mapping(BoolOf(true))], [Object(map["field1" := Bool(false)]), Bool(true)]);
  }

  /** One more item, found at position `k`, that decodes. */
  lemma {:induction false} ItemAt(items: seq<Y.Node>, k: nat, values: seq<Value>, entry: Y.Entries, v: Value)
    requires k < |items| && items[k] == Y.Mapping(entry)
    requires ParseItems(items, k) == Ok(values)
    requires Parse(entry) == Ok(v)
    ensures ParseItems(items, k + 1) == Ok(values + [v])
  {
    assert ParseItem(Y.Mapping(entry)) == Ok(v);
  }

  /** The properties of the test document's JSON body, in document order. */
  function BodyProperties(): Y.Entries
  {
    [ (Y.String("field1"), Y.Mapping(StringOf("hello"))),
      (Y.String("field2"), Y.Mapping(Field2())),
      (Y.String("field3"), Y.Mapping(Field3())),
      (Y.String("field4"), Y.Mapping(NullOf())),
      (Y.String("last_execute_time"), Y.Mapping(SourceOf("last_execute_time"))),
      (Y.String("execute_time"), Y.Mapping(SourceOf("execute_time"))) ]
  }

  function ExpectedBody(): Value
  {
    Object(map[
      "field1" := Value.String("hello"),
      "field2" := Object(map["field1_1" := Integer(100)]),
      "field3" := Array([Object(map["field1" := Bool(false)]), Bool(true)]),
      "field4" := Null,
      "last_execute_time" := Value.Source(LastExecuteDate),
      "execute_time" := Value.Source(ExecuteDate)])
  }

  /** One more property, found at position `k`, that decodes. */
  lemma {:induction false} PropertyAt(properties: Y.Entries, k: nat, fields: map<string, Value>, name: string, entry: Y.Entries, v: Value)
    requires k < |properties| && properties[k] == (Y.String(name), Y.Mapping(entry))
    requires ParseProperties(properties, k) == Ok(fields)
    requires Parse(entry) == Ok(v)
    ensures ParseProperties(properties, k + 1) == Ok(fields[name := v])
  {
    assert ParseProperty(Y.String(name), Y.Mapping(entry)) == Ok((name, v));
  }

  /** The `null` entry. */
  function NullOf(): Y.Entries
  {
    [(Key(TypeTag), Y.String("null"))]
  }

  /** The fields the body has decoded after each of its properties. */
  function Body1(): map<string, Value> { map["field1" := Value.String("hello")] }
  function Body2(): map<string, Value> { Body1()["field2" := Object(map["field1_1" := Integer(100)])] }
  function Body3(): map<string, Value> { Body2()["field3" := Array([Object(map["field1" := Bool(false)]), Bool(true)])] }
  function Body4(): map<string, Value> { Body3()["field4" := Null] }
  function Body5(): map<string, Value> { Body4()["last_execute_time" := Value.Source(LastExecuteDate)] }
  function Body6(): map<string, Value> { Body5()["execute_time" := Value.Source(ExecuteDate)] }

  /** The body's properties decode one at a time, each adding its field. */
  lemma {:induction false} BodyStep1()
    ensures ParseProperties(BodyProperties(), 1) == Ok(Body1())
  {
    StringOfDecodes("hello");
    PropertyAt(BodyProperties(), 0, map[], "field1", StringOf("hello"), Value.String("hello"));
  }

  lemma {:induction false} BodyStep2()
    ensures ParseProperties(BodyProperties(), 2) == Ok(Body2())
  {
    BodyStep1();
    Field2Decodes();
    PropertyAt(BodyProperties(), 1, Body1(), "field2", Field2(), Object(map["field1_1" := Integer(100)]));
  }

  lemma {:induction false} BodyStep3()
    ensures ParseProperties(BodyProperties(), 3) == Ok(Body3())
  {
    BodyStep2();
    Field3Decodes();
    PropertyAt(BodyProperties(), 2, Body2(), "field3", Field3(), Array([Object(map["field1" := Bool(false)]), Bool(true)]));
  }

  lemma {:induction false} BodyStep4()
    ensures ParseProperties(BodyProperties(), 4) == Ok(Body4())
  {
    BodyStep3();
    NullRoundTrip();
    PropertyAt(BodyProperties(), 3, Body3(), "field4", NullOf(), Null);
  }

  lemma {:induction false} BodyStep5()
    ensures ParseProperties(BodyProperties(), 5) == Ok(Body5())
  {
    BodyStep4();
    SourceOfDecodes(LastExecuteDate);
    PropertyAt(BodyProperties(), 4, Body4(), "last_execute_time", SourceOf(SourceName(LastExecuteDate)), Value.Source(LastExecuteDate));
  }

  lemma {:induction false} BodyPropertiesDecode()
    ensures ParseProperties(BodyProperties(), 6) == Ok(ExpectedBody().fields)
  {
    BodyStep5();
    SourceOfDecodes(ExecuteDate);
    PropertyAt(BodyProperties(), 5, Body5(), "execute_time", SourceOf(SourceName(ExecuteDate)), Value.Source(ExecuteDate));
    assert Body6() == ExpectedBody().fields;
  }

  /** The body of the test task decodes to the nested JSON value the test expects. */
  lemma {:induction false} TestBodyDecodes()
    ensures VisitBody([("json", TaggedEntry("object", PropertiesTag, Y.Mapping(BodyProperties())))]) == Ok(Json(ExpectedBody()))
  {
    BodyPropertiesDecode();
    ObjectOf(BodyProperties(), ExpectedBody().fields);
  }
}
