/**
 * The generator's linear flow with the console output and the file write
 * left out: parse the tokens, default the configuration, build the summary
 * and the path it is written to.
 */
module ShinobiGenerate {
  import opened Wrappers
  import opened JsString
  import opened ArgParser
  import opened Resolver
  import opened SummaryWriter

  /** One run on the command-line tokens after the program and script names. */
  method Generate(args: seq<string>) returns (config: Config, summary: Summary, path: string)
    ensures config == Resolve(args)
    ensures summary == SummaryOf(config)
    ensures path == SummaryPath(config)
  {
    var params := ParseArgs(args);
    config := ConfigOf(params);
    summary := SummaryOf(config);
    path := SummaryPath(config);
  }

  /** Without arguments every field takes its default. */
  lemma NoArguments()
    ensures Resolve([]) == DefaultConfig
  {
  }

  /**
   * The token list `--componentName payments-api --framework fedramp-high
   * --packsToInclude net,iam --includeTests false`, with each key token
   * written as `--` followed by the field name.
   */
  predicate IsPaymentsApiExample(args: seq<string>) {
    |args| == 8 &&
    args[0] == "--" + "componentName" && args[1] == "payments-api" &&
    args[2] == "--" + "framework" && args[3] == "fedramp-high" &&
    args[4] == "--" + "packsToInclude" && args[5] == "net,iam" &&
    args[6] == "--" + "includeTests" && args[7] == "false"
  }

  /** The key tokens of the example normalise to the four field names. */
  lemma ExampleKeys(args: seq<string>)
    requires IsPaymentsApiExample(args)
    ensures ReplaceFirstDashes(args[0]) == "componentName" && ReplaceFirstDashes(args[2]) == "framework"
    ensures ReplaceFirstDashes(args[4]) == "packsToInclude" && ReplaceFirstDashes(args[6]) == "includeTests"
  {
    LeadingDashesRemoved("componentName");
    LeadingDashesRemoved("framework");
    LeadingDashesRemoved("packsToInclude");
    LeadingDashesRemoved("includeTests");
  }

  /** A field name other than the four supplied ones is absent from the example. */
  lemma ExampleKeyAbsent(args: seq<string>, key: string)
    requires IsPaymentsApiExample(args)
    requires key != "componentName" && key != "framework"
    requires key != "packsToInclude" && key != "includeTests"
    ensures KeyAbsent(args, key)
  {
    ExampleKeys(args);
    forall i | 0 <= i < |args| && i % 2 == 0 ensures ReplaceFirstDashes(args[i]) != key {
      assert i == 0 || i == 2 || i == 4 || i == 6;
    }
  }

  /** `net,iam` splits into its two pack names. */
  lemma NetIamPieces()
    ensures Split("net,iam") == ["net", "iam"]
  {
    SplitAfterPiece("net", "iam");
    SplitNoComma("iam");
    assert "net" + "," + "iam" == "net,iam";
  }

  /** The supplied component name is kept. */
  lemma ExampleComponentName(args: seq<string>)
    requires IsPaymentsApiExample(args)
    ensures Resolve(args).componentName == "payments-api"
  {
    ExampleKeys(args);
    ResolveSupplied(args, "componentName", 0);
  }

  /** The supplied framework is kept. */
  lemma ExampleFramework(args: seq<string>)
    requires IsPaymentsApiExample(args)
    ensures Resolve(args).framework == "fedramp-high"
  {
    ExampleKeys(args);
    ResolveSupplied(args, "framework", 2);
  }

  /** The supplied pack list is split on its comma. */
  lemma ExamplePacks(args: seq<string>)
    requires IsPaymentsApiExample(args)
    ensures Resolve(args).packsToInclude == ["net", "iam"]
  {
    ExampleKeys(args);
    ResolveSupplied(args, "packsToInclude", 4);
    NetIamPieces();
  }

  /** The value "false" switches the tests off. */
  lemma ExampleTestsFlag(args: seq<string>)
    requires IsPaymentsApiExample(args)
    ensures !Resolve(args).includeTests
  {
    ExampleKeys(args);
    ResolveSupplied(args, "includeTests", 6);
  }

  /** The two string and list fields not supplied take their defaults. */
  lemma ExampleDefaultValues(args: seq<string>)
    requires IsPaymentsApiExample(args)
    ensures Resolve(args).serviceType == "s3-bucket" && Resolve(args).extraControlTags == []
  {
    ExampleKeyAbsent(args, "serviceType");
    ResolveAbsent(args, "serviceType");
    ExampleKeyAbsent(args, "extraControlTags");
    ResolveAbsent(args, "extraControlTags");
  }

  /** The two flags not supplied stay on. */
  lemma ExampleDefaultFlags(args: seq<string>)
    requires IsPaymentsApiExample(args)
    ensures Resolve(args).includeObservability && Resolve(args).includePolicies
  {
    ExampleKeyAbsent(args, "includeObservability");
    ResolveAbsent(args, "includeObservability");
    ExampleKeyAbsent(args, "includePolicies");
    ResolveAbsent(args, "includePolicies");
  }

  /**
   * The example resolves to the named values with every other field at its
   * default; its summary estimates no test files and is written to the
   * `payments-api` component directory.
   */
  lemma PaymentsApiExample(args: seq<string>)
    requires IsPaymentsApiExample(args)
    ensures Resolve(args) ==
      Config("payments-api", "s3-bucket", "fedramp-high", ["net", "iam"], [], false, true, true)
    ensures SummaryOf(Resolve(args)).estimatedFiles.tests == 0
    ensures SummaryPath(Resolve(args)) == SummaryDir + "payments-api" + SummaryFile
  {
    ExampleComponentName(args);
    ExampleFramework(args);
    ExamplePacks(args);
    ExampleTestsFlag(args);
    ExampleDefaultValues(args);
    ExampleDefaultFlags(args);
  }

  /** The `--` is removed wherever it first occurs: `include--Tests` is the key `includeTests`. */
  lemma DashesRemovedInside()
    ensures ReplaceFirstDashes("include--Tests") == "includeTests"
  {
    var head, tail := "include", "Tests";
    var t := head + "--" + tail;
    forall j | 0 <= j < |head| ensures !DashesAt(t, j) { assert t[j] == head[j] != '-'; }
    ReplaceFirstDashesAt(t, |head|);
    assert t[..|head|] == head;
    assert t[|head| + 2..] == tail;
    assert t == "include--Tests";
    assert head + tail == "includeTests";
  }

  /** Only the first `--` is removed: `----x` is the key `--x`. */
  lemma OnlyFirstDashesRemoved()
    ensures ReplaceFirstDashes("----x") == "--x"
  {
    var u := "----x";
    assert DashesAt(u, 0);
    ReplaceFirstDashesAt(u, 0);
  }

  /** A key given without `--` is used as it is. */
  lemma BareKeyKept()
    ensures ReplaceFirstDashes("includeTests") == "includeTests"
  {
    var w := "includeTests";
    forall j | 0 <= j < |w| ensures !DashesAt(w, j) { assert w[j] != '-'; }
    ReplaceFirstDashesNone(w);
  }
}
