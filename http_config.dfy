/**
 * The dispatch layer of an HTTP task's configuration: the method name, the
 * headers map and the request body. serde's `MapAccess` is taken to be the
 * finite sequence of (key, mapping) entries it yields, in document order.
 */
module HttpConfig {
  import opened Wrappers
  import Y = Yaml
  import V = ConfigValue

  datatype Method = Get | Post | Delete | Put | Patch

  /** The deserialization errors the visitors raise; their message text is not modelled. */
  datatype Error =
    | UnknownVariant(variant: string)
    | Entry(error: V.ParseEntryError)
    | InvalidBodyField
    | UnknownField(field: string)

  /** The entries a `MapAccess` yields: each key with the mapping under it. */
  type MapEntries = seq<(string, Y.Entries)>

  // ---------------------------------------------------------------------
  // Method
  // ---------------------------------------------------------------------

  /** `MethodVisitor::visit_str`: the five upper-case names, and nothing else. */
  function VisitStr(value: string): Result<Method, Error>
  {
    if value == "GET" then Ok(Get)
    else if value == "POST" then Ok(Post)
    else if value == "PUT" then Ok(Put)
    else if value == "DELETE" then Ok(Delete)
    else if value == "PATCH" then Ok(Patch)
    else Err(UnknownVariant(value))
  }

  /** The name a configuration file spells each method with. */
  function MethodName(m: Method): (name: string)
    ensures name in {"GET", "POST", "PUT", "DELETE", "PATCH"}
  {
    match m
    case Get => "GET"
    case Post => "POST"
    case Put => "PUT"
    case Delete => "DELETE"
    case Patch => "PATCH"
  }

  /** Every method is accepted under its name. */
  lemma {:induction false} MethodNameAccepted(m: Method)
    ensures VisitStr(MethodName(m)) == Ok(m)
  {
  }

  /** Only the five names are accepted, each for its own method; any other string is reported as given. */
  lemma {:induction false} VisitStrExact(value: string)
    ensures VisitStr(value).Ok? <==> value in {"GET", "POST", "PUT", "DELETE", "PATCH"}
    ensures VisitStr(value).Ok? ==> MethodName(VisitStr(value).value) == value
    ensures VisitStr(value).Err? ==> VisitStr(value) == Err(UnknownVariant(value))
  {
  }

  /** Matching is case-sensitive: the lower-case names are rejected. */
  lemma {:induction false} LowerCaseRejected()
    ensures VisitStr("get").Err? && VisitStr("post").Err? && VisitStr("put").Err?
    ensures VisitStr("delete").Err? && VisitStr("patch").Err?
  {
    VisitStrExact("get");
    VisitStrExact("post");
    VisitStrExact("put");
    VisitStrExact("delete");
    VisitStrExact("patch");
  }

  // ---------------------------------------------------------------------
  // Headers
  // ---------------------------------------------------------------------

  type Headers = map<string, V.Value>

  /** `Headers::default`: no headers. */
  function DefaultHeaders(): Headers
  {
    map[]
  }

  /** A decoder of one header entry. */
  type Decoder = Y.Entries -> V.Parsed<V.Value>

  /**
   * What `HeadersVisitor::visit_map` builds from the first `n` entries with
   * `decode`: each entry is decoded and inserted, so a later entry with the
   * same key replaces an earlier one; the first entry that does not decode
   * ends the visit with its error.
   */
  function HeadersWith(decode: Decoder, entries: MapEntries, n: nat): Result<Headers, Error>
    requires n <= |entries|
  {
    if n == 0 then Ok(map[])
    else
      match HeadersWith(decode, entries, n - 1)
      case Err(e) => Err(e)
      case Ok(headers) =>
        match decode(entries[n - 1].1)
        case Err(e) => Err(Entry(e))
        case Ok(value) => Ok(headers[entries[n - 1].0 := value])
  }

  /** The headers, decoded with the restricted vocabulary. */
  function HeadersOf(entries: MapEntries, n: nat): Result<Headers, Error>
    requires n <= |entries|
  {
    HeadersWith(V.FromBasicEntry, entries, n)
  }

  /**
   * The loop of `HeadersVisitor::visit_map`: each entry is decoded and
   * inserted in turn, and the first error is returned at once.
   */
  method VisitHeadersWith(decode: Decoder, entries: MapEntries) returns (r: Result<Headers, Error>)
    ensures r == HeadersWith(decode, entries, |entries|)
  {
    var headers: Headers := map[];
    var i := 0;
    while i < |entries|
      invariant i <= |entries|
      invariant HeadersWith(decode, entries, i) == Ok(headers)
    {
      var (key, entry) := entries[i];
      var value := decode(entry);
      HeadersStep(decode, entries, i, headers);
      if value.Err? {
        HeadersFailureSticks(decode, entries, i + 1, |entries|);
        return Err(Entry(value.error));
      }
      headers := headers[key := value.value];
      i := i + 1;
    }
    return Ok(headers);
  }

  /** `HeadersVisitor::visit_map`: the loop, decoding with the restricted vocabulary. */
  method VisitHeaders(entries: MapEntries) returns (r: Result<Headers, Error>)
    ensures r == HeadersOf(entries, |entries|)
  {
    r := VisitHeadersWith(V.FromBasicEntry, entries);
  }

  /**
   * The `headers` field of a task: absent, it takes its default; present,
   * it is visited.
   */
  function HeadersField(field: Option<MapEntries>): Result<Headers, Error>
  {
    match field
    case None => Ok(DefaultHeaders())
    case Some(entries) => HeadersOf(entries, |entries|)
  }

  // The lemmas below hold for any decoder; `HeadersOf` is the instance with
  // the restricted vocabulary, `V.FromBasicEntry`.

  /** One more entry: its decoding is inserted, or its error ends the visit. */
  lemma {:induction false} HeadersStep(decode: Decoder, entries: MapEntries, i: nat, headers: Headers)
    requires i < |entries| && HeadersWith(decode, entries, i) == Ok(headers)
    ensures var value := decode(entries[i].1);
      HeadersWith(decode, entries, i + 1) == if value.Ok? then Ok(headers[entries[i].0 := value.value]) else Err(Entry(value.error))
  {
  }

  /** Once an entry has failed, the entries after it change nothing. */
  lemma {:induction false} HeadersFailureSticks(decode: Decoder, entries: MapEntries, i: nat, n: nat)
    requires i <= n <= |entries|
    requires HeadersWith(decode, entries, i).Err?
    ensures HeadersWith(decode, entries, n) == HeadersWith(decode, entries, i)
    decreases n
  {
    if n > i {
      HeadersFailureSticks(decode, entries, i, n - 1);
    }
  }

  /** An absent headers field and an empty headers mapping both give no headers. */
  lemma {:induction false} AbsentHeadersDefault()
    ensures HeadersField(None) == Ok(map[])
    ensures HeadersField(None) == HeadersField(Some([]))
  {
  }

  /** The headers decode exactly when every entry decodes. */
  lemma {:induction false} HeadersAllOk(decode: Decoder, entries: MapEntries, n: nat)
    requires n <= |entries|
    ensures HeadersWith(decode, entries, n).Ok? <==> forall i :: 0 <= i < n ==> decode(entries[i].1).Ok?
    decreases n
  {
    if n > 0 {
      HeadersAllOk(decode, entries, n - 1);
    }
  }

  /** A failure is the error of the first entry that does not decode. */
  lemma {:induction false} HeadersFirstFailure(decode: Decoder, entries: MapEntries, n: nat)
    requires n <= |entries|
    ensures HeadersWith(decode, entries, n).Err? ==>
      exists k :: 0 <= k < n
        && decode(entries[k].1).Err?
        && HeadersWith(decode, entries, n) == Err(Entry(decode(entries[k].1).error))
        && forall i :: 0 <= i < k ==> decode(entries[i].1).Ok?
    decreases n
  {
    if n > 0 {
      HeadersFirstFailure(decode, entries, n - 1);
      if HeadersWith(decode, entries, n - 1).Ok? {
        HeadersAllOk(decode, entries, n - 1);
      }
    }
  }

  /** The header names are exactly the keys read. */
  lemma {:induction false} HeadersKeys(decode: Decoder, entries: MapEntries, n: nat)
    requires n <= |entries|
    ensures var r := HeadersWith(decode, entries, n);
      r.Ok? ==> forall key :: key in r.value <==> exists i :: 0 <= i < n && entries[i].0 == key
    decreases n
  {
    if n > 0 {
      HeadersKeys(decode, entries, n - 1);
    }
  }

  /** Each header holds the decoding of the last entry with its name. */
  lemma {:induction false} HeadersLastWins(decode: Decoder, entries: MapEntries, n: nat, i: nat)
    requires i < n <= |entries|
    requires forall j :: i < j < n ==> entries[j].0 != entries[i].0
    ensures var r := HeadersWith(decode, entries, n);
      r.Ok? ==>
        && decode(entries[i].1).Ok?
        && entries[i].0 in r.value && r.value[entries[i].0] == decode(entries[i].1).value
    decreases n
  {
    if HeadersWith(decode, entries, n).Ok? {
      HeadersAllOk(decode, entries, n);
      if i < n - 1 {
        HeadersLastWins(decode, entries, n - 1, i);
      }
    }
  }

  /**
   * A `string` header is kept verbatim: header decoding does not look for
   * environment placeholders.
   */
  lemma {:induction false} StringHeaderVerbatim(key: string, s: string)
    ensures HeadersOf([(key, V.TaggedEntry("string", V.ValueTag, Y.String(s)))], 1) == Ok(map[key := V.String(s)])
  {
    V.BasicRoundTrip(V.String(s));
    HeadersStep(V.FromBasicEntry, [(key, V.TaggedEntry("string", V.ValueTag, Y.String(s)))], 0, map[]);
  }

  // ---------------------------------------------------------------------
  // Body
  // ---------------------------------------------------------------------

  datatype Body = Json(value: V.Value)

  /**
   * `BodyVisitor::visit_map`: only the first entry is read; its key must be
   * `json`, and its mapping is decoded with the full vocabulary.
   */
  function VisitBody(entries: MapEntries): Result<Body, Error>
  {
    if |entries| == 0 then Err(InvalidBodyField)
    else if entries[0].0 == "json" then
      match V.Parse(entries[0].1)
      case Ok(value) => Ok(Json(value))
      case Err(e) => Err(Entry(e))
    else Err(UnknownField(entries[0].0))
  }

  /** The three outcomes of a body, decided by its first entry alone. */
  lemma {:induction false} BodyOutcome(entries: MapEntries, v: V.Value)
    ensures VisitBody(entries) == Ok(Json(v)) <==>
      (|entries| > 0 && entries[0].0 == "json" && V.Parse(entries[0].1) == Ok(v))
    ensures |entries| == 0 ==> VisitBody(entries) == Err(InvalidBodyField)
    ensures |entries| > 0 && entries[0].0 != "json" ==> VisitBody(entries) == Err(UnknownField(entries[0].0))
    ensures |entries| > 0 && entries[0].0 == "json" && V.Parse(entries[0].1).Err? ==>
      VisitBody(entries) == Err(Entry(V.Parse(entries[0].1).error))
    ensures forall rest :: |entries| > 0 ==> VisitBody([entries[0]] + rest) == VisitBody(entries)
  {
  }

  /**
   * Every value can be sent as a JSON body: with fuel for its depth it has
   * an encoding, and a body holding an encoding reads back as that value.
   */
  lemma {:induction false} BodyRoundTrip(v: V.Value, fuel: nat)
    ensures V.Depth(v) <= fuel ==> V.Encode(v, fuel).Some?
    ensures V.Encode(v, fuel).Some? ==> VisitBody([("json", V.Encode(v, fuel).value)]) == Ok(Json(v))
  {
    V.RoundTrip(v, fuel);
  }
}
