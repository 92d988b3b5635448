/**
 * The summary record the generator writes for CI, and the path it is
 * written to (tools/shinobi-generate.mjs, lines 104-126 and 129).
 *
 * The summary copies five configuration fields, estimates file counts from
 * fixed constants (three of them switched by the flags) and lists six fixed
 * compliance features. Serialising it to JSON and writing the file are not
 * part of this model.
 */
module SummaryWriter {
  import opened Resolver

  /** The estimate for REGO policies: the string 'variable' or the number 0. */
  datatype Rego = Variable | Count(n: nat)

  datatype EstimatedFiles = EstimatedFiles(
    component: nat,
    tests: nat,
    compliance: nat,
    rego: Rego,
    observability: nat,
    documentation: nat)

  datatype Summary = Summary(
    componentName: string,
    serviceType: string,
    framework: string,
    packsToInclude: seq<string>,
    extraControlTags: seq<string>,
    estimatedFiles: EstimatedFiles,
    complianceFeatures: seq<string>)

  const ComplianceFeatures: seq<string> := [
    "6-step synth() pattern",
    "ConfigBuilder with 5-layer precedence",
    "Compliance tagging",
    "REGO policies",
    "Observability configs",
    "Comprehensive test suite"
  ]

  /** The summary object built from the configuration. */
  function SummaryOf(c: Config): (s: Summary)
    ensures s.componentName == c.componentName && s.serviceType == c.serviceType
    ensures s.framework == c.framework
    ensures s.packsToInclude == c.packsToInclude && s.extraControlTags == c.extraControlTags
    ensures s.estimatedFiles.tests == (if c.includeTests then 4 else 0)
    ensures s.estimatedFiles.observability == (if c.includeObservability then 2 else 0)
    ensures s.estimatedFiles.rego == (if c.includePolicies then Variable else Count(0))
    ensures s.estimatedFiles.component == 4 && s.estimatedFiles.compliance == 2
    ensures s.estimatedFiles.documentation == 1
    ensures s.complianceFeatures == ComplianceFeatures
  {
    Summary(
      c.componentName,
      c.serviceType,
      c.framework,
      c.packsToInclude,
      c.extraControlTags,
      EstimatedFiles(
        4,
        if c.includeTests then 4 else 0,
        2,
        if c.includePolicies then Variable else Count(0),
        if c.includeObservability then 2 else 0,
        1),
      ComplianceFeatures)
  }

  /** Reads the configuration back out of a summary. */
  function ConfigOfSummary(s: Summary): Config {
    Config(
      s.componentName,
      s.serviceType,
      s.framework,
      s.packsToInclude,
      s.extraControlTags,
      s.estimatedFiles.tests != 0,
      s.estimatedFiles.observability != 0,
      s.estimatedFiles.rego.Variable?)
  }

  /** The summary loses nothing: the configuration can be read back from it. */
  lemma SummaryKeepsConfig(c: Config)
    ensures ConfigOfSummary(SummaryOf(c)) == c
  {
  }

  /**
   * Two configurations have the same summary exactly when they are equal:
   * the summary is determined by the configuration and determines it.
   */
  lemma SummaryInjective(c: Config, d: Config)
    ensures SummaryOf(c) == SummaryOf(d) <==> c == d
  {
  }

  const SummaryDir: string := "packages/components/"
  const SummaryFile: string := "/generation-summary.json"

  /** `path.join('packages', 'components', name, 'generation-summary.json')`, unnormalised. */
  function SummaryPath(c: Config): (p: string)
    ensures |p| == |SummaryDir| + |c.componentName| + |SummaryFile|
    ensures p[..|SummaryDir|] == SummaryDir
    ensures p[|p| - |SummaryFile|..] == SummaryFile
    ensures p[|SummaryDir|..|p| - |SummaryFile|] == c.componentName
  {
    SummaryDir + c.componentName + SummaryFile
  }
}
