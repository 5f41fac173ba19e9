/**
 * The cases of `test_env_replacer` (src/yaml/mod.rs), stated on the
 * strings and document trees that the YAML texts of those cases parse to.
 */
module EnvReplacerExamples {
  import opened Text
  import opened Yaml
  import opened EnvReplacer

  /** The environment of the test: at least these two variables, with these values. */
  predicate TestEnvs(envs: map<string, string>)
  {
    && "TOKEN" in envs && envs["TOKEN"] == "example_token"
    && "URL" in envs && envs["URL"] == "http://localhost:3030"
  }

  /** One pass over a leading placeholder, then the rescan of what it produced. */
  lemma {:induction false} Rescan(envs: map<string, string>, p: string, name: string, t: string, fuel: nat)
    requires '!' !in p && ')' !in name && name in envs && fuel >= 1
    requires forall j: nat :: !OccursAt(t, Placeholder(name), j)
    ensures ReplaceString(envs, p + Placeholder(name) + t, fuel) == ReplaceString(envs, p + envs[name] + t, fuel - 1)
  {
    ReplaceAllAbsent(t, Placeholder(name), envs[name]);
    LeadingPlaceholderStep(envs, p, name, t, p + Placeholder(name) + t, p + envs[name] + t);
    RescanUnfold(envs, p + Placeholder(name) + t, fuel);
  }

  /** A string whose only placeholder is set to a value without `!` resolves in one pass. */
  lemma {:induction false} OnePass(envs: map<string, string>, p: string, name: string, t: string, fuel: nat)
    requires '!' !in p && ')' !in name && name in envs && fuel >= 1
    requires forall j: nat :: !OccursAt(t, Placeholder(name), j)
    requires '!' !in p + envs[name] + t
    ensures ReplaceString(envs, p + Placeholder(name) + t, fuel) == Resolved(p + envs[name] + t)
  {
    Rescan(envs, p, name, t, fuel);
    NoBangResolves(envs, p + envs[name] + t, fuel - 1);
  }

  lemma {:induction false} NoBangNoPlaceholder(t: string, name: string)
    requires '!' !in t
    ensures forall j: nat :: !OccursAt(t, Placeholder(name), j)
  {
    forall j: nat ensures !OccursAt(t, Placeholder(name), j) {
      PlaceholderHasMarker(t, name, j);
      MarkerHasBang(t, j);
    }
  }

  /** `env!(TOKEN)` */
  lemma {:induction false} TokenOnly(envs: map<string, string>, fuel: nat)
    requires TestEnvs(envs)
    requires fuel >= 1
    ensures ReplaceString(envs, Placeholder("TOKEN"), fuel) == Resolved("example_token")
  {
    NoBangNoPlaceholder([], "TOKEN");
    assert [] + envs["TOKEN"] + [] == envs["TOKEN"];
    OnePass(envs, [], "TOKEN", [], fuel);
    assert [] + Placeholder("TOKEN") + [] == Placeholder("TOKEN");
  }

  /** `env!(URL)/load` */
  lemma {:induction false} UrlWithPath(envs: map<string, string>, fuel: nat)
    requires TestEnvs(envs)
    requires fuel >= 1
    ensures ReplaceString(envs, Placeholder("URL") + "/load", fuel) == Resolved("http://localhost:3030" + "/load")
  {
    NoBangNoPlaceholder("/load", "URL");
    assert [] + envs["URL"] + "/load" == envs["URL"] + "/load";
    OnePass(envs, [], "URL", "/load", fuel);
    assert [] + Placeholder("URL") + "/load" == Placeholder("URL") + "/load";
  }

  /** `env!(URL)` does not occur in `/env!(TOKEN)/`. */
  lemma {:induction false} UrlNotInTokenTail()
    ensures forall j: nat :: !OccursAt("/" + Placeholder("TOKEN") + "/", Placeholder("URL"), j)
  {
    var t := "/" + Placeholder("TOKEN") + "/";
    var pat := Placeholder("URL");
    assert t == "/env!(TOKEN)/";
    forall j: nat ensures !OccursAt(t, pat, j) {
      if j + 9 <= |t| {
        if j == 0 { assert t[0] != pat[0]; }
        else if j == 1 { assert t[6] != pat[5]; }
        else if j == 2 { assert t[2] != pat[0]; }
        else if j == 3 { assert t[3] != pat[0]; }
        else { assert t[4] != pat[0]; }
      }
    }
  }

  /** `env!(URL)/env!(TOKEN)/`: two different placeholders take two passes. */
  lemma {:induction false} TwoPlaceholders(envs: map<string, string>, fuel: nat)
    requires TestEnvs(envs)
    requires fuel >= 2
    ensures ReplaceString(envs, Placeholder("URL") + "/" + Placeholder("TOKEN") + "/", fuel)
         == Resolved("http://localhost:3030" + "/" + "example_token" + "/")
  {
    TwoPlaceholdersAnyValues(envs, fuel);
  }

  /** The same for any values of the two variables that hold no `!`. */
  lemma {:induction false} TwoPlaceholdersAnyValues(envs: map<string, string>, fuel: nat)
    requires "URL" in envs && "TOKEN" in envs
    requires '!' !in envs["URL"] && '!' !in envs["TOKEN"]
    requires fuel >= 2
    ensures ReplaceString(envs, Placeholder("URL") + "/" + Placeholder("TOKEN") + "/", fuel)
         == Resolved(envs["URL"] + "/" + envs["TOKEN"] + "/")
  {
    UrlFirst(envs, fuel);
    TokenSecond(envs, envs["URL"] + "/", fuel - 1);
  }

  lemma {:induction false} UrlFirst(envs: map<string, string>, fuel: nat)
    requires "URL" in envs && fuel >= 1
    ensures ReplaceString(envs, Placeholder("URL") + "/" + Placeholder("TOKEN") + "/", fuel)
         == ReplaceString(envs, (envs["URL"] + "/") + Placeholder("TOKEN") + "/", fuel - 1)
  {
    var t := "/" + Placeholder("TOKEN") + "/";
    UrlNotInTokenTail();
    Rescan(envs, [], "URL", t, fuel);
    assert [] + Placeholder("URL") + t == Placeholder("URL") + "/" + Placeholder("TOKEN") + "/";
    assert [] + envs["URL"] + t == (envs["URL"] + "/") + Placeholder("TOKEN") + "/";
  }

  lemma {:induction false} TokenSecond(envs: map<string, string>, p: string, fuel: nat)
    requires "TOKEN" in envs && '!' !in p && '!' !in envs["TOKEN"] && fuel >= 1
    ensures ReplaceString(envs, p + Placeholder("TOKEN") + "/", fuel) == Resolved(p + envs["TOKEN"] + "/")
  {
    NoBangNoPlaceholder("/", "TOKEN");
    OnePass(envs, p, "TOKEN", "/", fuel);
  }

  /** `env!(RANDOM_ENV)` with no such variable: reported by name, whatever the fuel. */
  lemma {:induction false} UnsetVariable(envs: map<string, string>, fuel: nat)
    requires "RANDOM_ENV" !in envs
    ensures ReplaceString(envs, Placeholder("RANDOM_ENV"), fuel) == Failed(EnvVarNotFound("RANDOM_ENV"))
  {
    LeadingPlaceholderUnset(envs, [], "RANDOM_ENV", [], fuel);
    assert [] + Placeholder("RANDOM_ENV") + [] == Placeholder("RANDOM_ENV");
  }

  /** `env!(RANDOM_ENV`: a placeholder that is never closed is a syntax error, whatever the fuel. */
  lemma {:induction false} UnclosedPlaceholder(envs: map<string, string>, fuel: nat)
    ensures ReplaceString(envs, Marker + "RANDOM_ENV", fuel) == Failed(InvalidEnvSyntax)
  {
    LeadingMarkerUnclosed(envs, [], "RANDOM_ENV", fuel);
    assert [] + Marker + "RANDOM_ENV" == Marker + "RANDOM_ENV";
  }

  /**
   * A placeholder that occurs twice, as in `env!(TOKEN)/env!(TOKEN)`: the
   * one pass replaces both occurrences, so the string resolves after a
   * single rescan.
   */
  lemma {:induction false} RepeatedPlaceholder(envs: map<string, string>, name: string, q: string, fuel: nat)
    requires ')' !in name && name in envs && '!' !in q && '!' !in envs[name] && fuel >= 1
    ensures ReplaceStep(envs, Placeholder(name) + q + Placeholder(name))
      == Rewritten(envs[name] + q + envs[name])
    ensures ReplaceString(envs, Placeholder(name) + q + Placeholder(name), fuel)
      == Resolved(envs[name] + q + envs[name])
  {
    var s := Placeholder(name) + q + Placeholder(name);
    var r := envs[name] + q + envs[name];
    RepeatedPlaceholderStep(envs, name, q);
    RescanUnfold(envs, s, fuel);
    NoBangResolves(envs, r, fuel - 1);
  }

  lemma {:induction false} RepeatedPlaceholderStep(envs: map<string, string>, name: string, q: string)
    requires ')' !in name && name in envs && '!' !in q
    ensures ReplaceStep(envs, Placeholder(name) + q + Placeholder(name))
      == Rewritten(envs[name] + q + envs[name])
  {
    var pat := Placeholder(name);
    var v := envs[name];
    TrailingPlaceholderReplaced(q, name, v);
    assert pat + q + pat == [] + pat + (q + pat);
    assert v + q + v == [] + v + ReplaceAll(q + pat, pat, v);
    LeadingPlaceholderStep(envs, [], name, q + pat, pat + q + pat, v + q + v);
  }

  /** A placeholder preceded by text without `!` is the one occurrence that `replace` rewrites. */
  lemma {:induction false} TrailingPlaceholderReplaced(q: string, name: string, v: string)
    requires '!' !in q && ')' !in name
    ensures ReplaceAll(q + Placeholder(name), Placeholder(name), v) == q + v
  {
    var pat := Placeholder(name);
    LeadingPlaceholderAt(q, name, []);
    assert q + pat + [] == q + pat;
    ReplaceAllAtFirst(q + pat, pat, v, |q|);
    assert (q + pat)[..|q|] == q && (q + pat)[|q| + |pat|..] == [];
    NoBangNoPlaceholder([], name);
    ReplaceAllAbsent([], pat, v);
    assert q + v + [] == q + v;
  }

  /** A two-element sequence whose elements resolve resolves to the sequence of their resolutions. */
  lemma {:induction false} TwoItems(envs: map<string, string>, fuel: nat, a: Node, b: Node, ra: Node, rb: Node)
    requires Resolve(envs, fuel, a) == Resolved(ra) && Resolve(envs, fuel, b) == Resolved(rb)
    ensures Resolve(envs, fuel, Sequence([a, b])) == Resolved(Sequence([ra, rb]))
  {
    assert [a, b][..1] == [a];
    assert [a][..0] == [];
    assert ResolveItems(envs, fuel, []) == Resolved([]);
    assert [] + [ra] == [ra];
    assert ResolveItems(envs, fuel, [a]) == Resolved([ra]);
    assert [ra] + [rb] == [ra, rb];
    assert ResolveItems(envs, fuel, [a, b]) == Resolved([ra, rb]);
  }

  /** A one-entry mapping whose value resolves keeps its key and holds the resolution. */
  lemma {:induction false} OneEntry(envs: map<string, string>, fuel: nat, k: Node, v: Node, rv: Node)
    requires Resolve(envs, fuel, v) == Resolved(rv)
    ensures Resolve(envs, fuel, Mapping([(k, v)])) == Resolved(Mapping([(k, rv)]))
  {
    assert [(k, v)][..0] == [];
    assert ResolveEntries(envs, fuel, []) == Resolved([]);
    assert Insert([], k, rv) == [] + [(k, rv)];
    assert [] + [(k, rv)] == [(k, rv)];
    assert ResolveEntries(envs, fuel, [(k, v)]) == Resolved([(k, rv)]);
  }

  /** `test: ["env!(TOKEN)", "env!(URL)/load"]`: each element of the sequence is resolved in place. */
  lemma {:induction false} SequenceDocument(envs: map<string, string>, fuel: nat)
    requires TestEnvs(envs)
    requires fuel >= 1
    ensures Resolve(envs, fuel, Mapping([(String("test"),
              Sequence([String(Placeholder("TOKEN")), String(Placeholder("URL") + "/load")]))]))
         == Resolved(Mapping([(String("test"),
              Sequence([String("example_token"), String("http://localhost:3030" + "/load")]))]))
  {
    TokenOnly(envs, fuel);
    UrlWithPath(envs, fuel);
    TwoItems(envs, fuel, String(Placeholder("TOKEN")), String(Placeholder("URL") + "/load"),
      String("example_token"), String("http://localhost:3030" + "/load"));
    OneEntry(envs, fuel, String("test"),
      Sequence([String(Placeholder("TOKEN")), String(Placeholder("URL") + "/load")]),
      Sequence([String("example_token"), String("http://localhost:3030" + "/load")]));
  }

  /** `test: ["env!(URL)/env!(TOKEN)/", "env!(URL)/load"]`. */
  lemma {:induction false} TwoPlaceholderDocument(envs: map<string, string>, fuel: nat)
    requires TestEnvs(envs)
    requires fuel >= 2
    ensures Resolve(envs, fuel, Mapping([(String("test"),
              Sequence([String(Placeholder("URL") + "/" + Placeholder("TOKEN") + "/"), String(Placeholder("URL") + "/load")]))]))
         == Resolved(Mapping([(String("test"),
              Sequence([String("http://localhost:3030" + "/" + "example_token" + "/"), String("http://localhost:3030" + "/load")]))]))
  {
    TwoPlaceholders(envs, fuel);
    UrlWithPath(envs, fuel);
    TwoItems(envs, fuel, String(Placeholder("URL") + "/" + Placeholder("TOKEN") + "/"), String(Placeholder("URL") + "/load"),
      String("http://localhost:3030" + "/" + "example_token" + "/"), String("http://localhost:3030" + "/load"));
    OneEntry(envs, fuel, String("test"),
      Sequence([String(Placeholder("URL") + "/" + Placeholder("TOKEN") + "/"), String(Placeholder("URL") + "/load")]),
      Sequence([String("http://localhost:3030" + "/" + "example_token" + "/"), String("http://localhost:3030" + "/load")]));
  }
}
