/**
 * The second half of the argument resolver: the eight-field configuration
 * built from `params` with a default for every field
 * (tools/shinobi-generate.mjs, lines 28-37).
 *
 * The three string fields use JavaScript's `||`: an undefined or empty
 * value falls back to the default. The two list fields fall back to `[]`.
 * The three flags are false only when their value is exactly the string
 * "false"; absence, "", "0" and "False" all give true.
 */
module Resolver {
  import opened Wrappers
  import opened JsString
  import opened ArgParser

  datatype Config = Config(
    componentName: string,
    serviceType: string,
    framework: string,
    packsToInclude: seq<string>,
    extraControlTags: seq<string>,
    includeTests: bool,
    includeObservability: bool,
    includePolicies: bool)

  const DefaultComponent: string := "s3-bucket"
  const DefaultFramework: string := "fedramp-moderate"

  /** The configuration of a run without arguments. */
  const DefaultConfig: Config :=
    Config(DefaultComponent, DefaultComponent, DefaultFramework, [], [], true, true, true)

  /** `params.key`: a missing key reads as `undefined`. */
  function Get(params: map<string, Val>, key: string): Val {
    if key in params then params[key] else Undefined
  }

  /**
   * `params.key || default` for a string field. A list never sits under a
   * string key (ArgParser.ParsedWellKinded), so that case gives the default.
   */
  function StringOr(v: Val, default: string): string {
    if v.Text? && v.s != "" then v.s else default
  }

  /**
   * `params.key || []` for a list field. A string never sits under a list
   * key (ArgParser.ParsedWellKinded), so that case gives `[]`.
   */
  function ListOr(v: Val): seq<string> {
    if v.List? then v.items else []
  }

  /** `params.key !== 'false'`. */
  function NotFalse(v: Val): bool {
    v != Text("false")
  }

  /** The defaulting step: the configuration object built from `params`. */
  function ConfigOf(params: map<string, Val>): (c: Config)
    ensures c.componentName != "" && c.serviceType != "" && c.framework != ""
    ensures !c.includeTests ==> "includeTests" in params
    ensures !c.includeObservability ==> "includeObservability" in params
    ensures !c.includePolicies ==> "includePolicies" in params
    ensures "packsToInclude" !in params ==> c.packsToInclude == []
    ensures "extraControlTags" !in params ==> c.extraControlTags == []
  {
    Config(
      StringOr(Get(params, "componentName"), DefaultComponent),
      StringOr(Get(params, "serviceType"), DefaultComponent),
      StringOr(Get(params, "framework"), DefaultFramework),
      ListOr(Get(params, "packsToInclude")),
      ListOr(Get(params, "extraControlTags")),
      NotFalse(Get(params, "includeTests")),
      NotFalse(Get(params, "includeObservability")),
      NotFalse(Get(params, "includePolicies")))
  }

  /**
   * The whole resolver: tokens to configuration. It is total: every token
   * list, odd-length ones included, resolves, with non-empty string fields
   * and list fields made of comma-free pieces.
   */
  function Resolve(args: seq<string>): (c: Config)
    ensures c.componentName != "" && c.serviceType != "" && c.framework != ""
    ensures forall p :: p in c.packsToInclude ==> ',' !in p
    ensures forall p :: p in c.extraControlTags ==> ',' !in p
  {
    ConfigOf(Parsed(args))
  }

  /** `value || default` for a value token that may be `undefined`. */
  function OrDefault(value: Option<string>, default: string): string {
    if value.Some? && value.value != "" then value.value else default
  }

  /**
   * When the last key token that normalises to `key` is at index `i`, the
   * field named `key` is derived from the token after it alone: the value
   * or its default for a string field, its comma pieces for a list field,
   * and for a flag whether it differs from "false".
   */
  lemma ResolveSupplied(args: seq<string>, key: string, i: nat)
    requires LastKeyAt(args, key, i)
    ensures var c, v := Resolve(args), ValueAt(args, i + 1);
      (key == "componentName" ==> c.componentName == OrDefault(v, DefaultComponent)) &&
      (key == "serviceType" ==> c.serviceType == OrDefault(v, DefaultComponent)) &&
      (key == "framework" ==> c.framework == OrDefault(v, DefaultFramework)) &&
      (key == "packsToInclude" ==> c.packsToInclude == SplitOrEmpty(v)) &&
      (key == "extraControlTags" ==> c.extraControlTags == SplitOrEmpty(v)) &&
      (key == "includeTests" ==> c.includeTests == (v != Some("false"))) &&
      (key == "includeObservability" ==> c.includeObservability == (v != Some("false"))) &&
      (key == "includePolicies" ==> c.includePolicies == (v != Some("false")))
  {
    ParsedLastWins(args, key, i);
  }

  /** A field whose key never appears takes its default. */
  lemma ResolveAbsent(args: seq<string>, key: string)
    requires KeyAbsent(args, key)
    ensures var c := Resolve(args);
      (key == "componentName" ==> c.componentName == DefaultConfig.componentName) &&
      (key == "serviceType" ==> c.serviceType == DefaultConfig.serviceType) &&
      (key == "framework" ==> c.framework == DefaultConfig.framework) &&
      (key == "packsToInclude" ==> c.packsToInclude == []) &&
      (key == "extraControlTags" ==> c.extraControlTags == []) &&
      (key == "includeTests" ==> c.includeTests) &&
      (key == "includeObservability" ==> c.includeObservability) &&
      (key == "includePolicies" ==> c.includePolicies)
  {
    ParsedKeys(args, key);
  }

  /**
   * `includeTests` is false exactly when the last `includeTests` key is
   * followed by the token "false".
   */
  lemma ResolveTestsFlag(args: seq<string>)
    ensures !Resolve(args).includeTests <==>
      exists i: nat :: LastKeyAt(args, "includeTests", i) && ValueAt(args, i + 1) == Some("false")
  {
    FlagFalseIff(args, "includeTests");
  }

  /** The same rule for `includeObservability`. */
  lemma ResolveObservabilityFlag(args: seq<string>)
    ensures !Resolve(args).includeObservability <==>
      exists i: nat :: LastKeyAt(args, "includeObservability", i) && ValueAt(args, i + 1) == Some("false")
  {
    FlagFalseIff(args, "includeObservability");
  }

  /** The same rule for `includePolicies`. */
  lemma ResolvePoliciesFlag(args: seq<string>)
    ensures !Resolve(args).includePolicies <==>
      exists i: nat :: LastKeyAt(args, "includePolicies", i) && ValueAt(args, i + 1) == Some("false")
  {
    FlagFalseIff(args, "includePolicies");
  }

  /** The stored value of a flag key is "false" exactly when its last value token is. */
  lemma FlagFalseIff(args: seq<string>, key: string)
    requires !IsListKey(key)
    ensures Get(Parsed(args), key) == Text("false") <==>
      exists i: nat :: LastKeyAt(args, key, i) && ValueAt(args, i + 1) == Some("false")
  {
    if Get(Parsed(args), key) == Text("false") {
      ParsedKeys(args, key);
      var i0 :| 0 <= i0 < |args| && i0 % 2 == 0 && ReplaceFirstDashes(args[i0]) == key;
      var i := LastKeyExists(args, key, i0);
      ParsedLastWins(args, key, i);
    }
    if exists i: nat :: LastKeyAt(args, key, i) && ValueAt(args, i + 1) == Some("false") {
      var i: nat :| LastKeyAt(args, key, i) && ValueAt(args, i + 1) == Some("false");
      ParsedLastWins(args, key, i);
    }
  }
}
