# Shinobi component generator: argument resolver and summary

`tools/shinobi-generate.mjs` is a command-line tool that announces a
generation plan for a new component and writes a JSON summary of it for CI.
Its only logic is the argument resolver and the summary record built from
the resolved configuration. This project models both in Dafny.

- **Argument resolver.** The tokens after the program and script names are
  read two at a time. The token at an even index is the key, with its first
  `--` removed wherever it occurs. The next token is the value, `undefined`
  when the list has an odd length. The keys `packsToInclude` and
  `extraControlTags` store their value split on commas; a missing or empty
  value stores `[]`. Every other key stores the value unchanged,
  `undefined` included. A later occurrence of a key overwrites the earlier
  one. The eight-field configuration is then built with defaults:
  - `componentName` and `serviceType` default to `s3-bucket`, and
    `framework` defaults to `fedramp-moderate`, whenever the value is
    missing or empty.
  - The two lists default to `[]`.
  - The three flags are false only for the exact value `"false"`.
- **Summary.** The summary copies five configuration fields and estimates
  file counts: 4 component files, 2 compliance files and 1 documentation
  file always; 4 test files, 2 observability files and a `variable` number
  of REGO policies when the matching flag is on, 0 otherwise. It ends with
  six fixed compliance feature labels. It is written to
  `packages/components/<componentName>/generation-summary.json`.

Modules, one per concern of the script:

- `JsString` (`js_string.dfy`): `replace('--', '')` and `split(',')` as
  the script uses them, and `join(',')`, which the script does not call, as
  the inverse of the split, with the split/join round trips.
- `ArgParser` (`arg_parser.dfy`): the `params` dictionary. `ParseArgs` is
  the loop as written, a method proved equal to the recursive
  specification `Parsed`. The lemmas state which keys are present and
  that the last occurrence of a key wins.
- `Resolver` (`resolver.dfy`): the defaulting step, and the end-to-end
  rules from the tokens to each configuration field.
- `SummaryWriter` (`summary_writer.dfy`): the summary record and its path.
- `ShinobiGenerate` (`shinobi_generate.dfy`): the linear flow (parse,
  default, summarise) and worked examples.

Three behaviours of the code are easy to miss:
- The first `--` anywhere in a key is removed, not only a leading one, so
  `include--Tests` is the key `includeTests` (`DashesRemovedInside`).
- The `||` defaults of the three string fields apply both when the key is
  missing and when its value is the empty string.
- A scalar key whose value is missing (the last token of an odd-length
  list) is still stored, with the value `undefined`
  (`ArgParser.Val.Undefined`), and then falls to its default.

## Model

| member | source | states |
|---|---|---|
| `JsString.ReplaceFirstDashesCases` | tools/shinobi-generate.mjs:17 | for every token, `replace('--', '')` returns it unchanged when it has no `--`, and otherwise removes exactly the two characters of its first `--`, wherever that is |
| `JsString.LeadingDashesRemoved` | tools/shinobi-generate.mjs:17 | `--name` normalises to `name` |
| `JsString.ReplaceFirstDashesAt` | tools/shinobi-generate.mjs:17 | when `--` first occurs at index k, the key is the token with exactly those two characters removed, wherever k is |
| `JsString.ReplaceFirstDashesNone` | tools/shinobi-generate.mjs:17 | a token without `--` is used unchanged as the key |
| `JsString.Split` | tools/shinobi-generate.mjs:21 | `split(',')` always gives at least one piece and no piece contains a comma |
| `JsString.JoinSplit` | tools/shinobi-generate.mjs:21 | joining the pieces of a split with `,` gives back the original value, empty pieces included |
| `JsString.SplitJoin` | tools/shinobi-generate.mjs:21 | splitting the join of non-empty, comma-free piece lists gives back the pieces |
| `ArgParser.SplitOrEmpty` | tools/shinobi-generate.mjs:21 | a list value is `[]` exactly when the value is missing or empty; otherwise it is comma-free pieces that join back to the value, which with `SplitJoin` makes them exactly the split pieces in order |
| `ArgParser.Stored` | tools/shinobi-generate.mjs:20-24 | a list is stored exactly under the two list keys |
| `ArgParser.Pairs` | tools/shinobi-generate.mjs:16-18 | the tokens form ceil(n/2) key/value pairs |
| `ArgParser.PairsAt` | tools/shinobi-generate.mjs:16-18 | pair i/2 is the key at even index i with the token at i+1, or no value past the end |
| `ArgParser.StoreStep` | tools/shinobi-generate.mjs:20-24 | storing one more pair sets the entry of its normalised key and changes nothing else |
| `ArgParser.StoreShape` | tools/shinobi-generate.mjs:16-24 | each pair adds at most one entry, and every stored list is made of comma-free pieces |
| `ArgParser.Parsed` | tools/shinobi-generate.mjs:16-25 | the dictionary has at most one entry per key token and its lists are comma-free; `ParsedKeys`, `ParsedLastWins` and `ParsedWellKinded` give its keys and values |
| `ArgParser.ParseArgs` | tools/shinobi-generate.mjs:16-25 | the in-place loop that steps by two builds exactly the dictionary `Parsed(args)` |
| `ArgParser.StoreKeys` | tools/shinobi-generate.mjs:16-24 | the dictionary's keys are exactly the normalised key tokens; nothing else is added |
| `ArgParser.StoreLastWins` | tools/shinobi-generate.mjs:16-24 | each key holds the value stored for its last occurrence |
| `ArgParser.ParsedKeys` | tools/shinobi-generate.mjs:16-24 | a key is missing from `params` exactly when no even-index token normalises to it |
| `ArgParser.ParsedLastWins` | tools/shinobi-generate.mjs:16-24 | for the last key token at index i, `params[key]` is derived from the token at i+1 alone; earlier occurrences are overwritten |
| `ArgParser.LastKeyExists` | tools/shinobi-generate.mjs:16-24 | a key that occurs has a last occurrence |
| `ArgParser.StoreWellKinded` | tools/shinobi-generate.mjs:20-24 | list keys hold lists and other keys hold strings or `undefined` |
| `ArgParser.ParsedWellKinded` | tools/shinobi-generate.mjs:20-24 | the parsed dictionary never holds a list under a scalar key, nor a string under a list key |
| `Resolver.ConfigOf` | tools/shinobi-generate.mjs:28-37 | the string fields are never empty; a flag can be false only when its key is present; a list is `[]` when its key is absent |
| `Resolver.Resolve` | tools/shinobi-generate.mjs:16-37 | every token list resolves; the string fields are never empty and the list fields are comma-free pieces; `ResolveSupplied`, `ResolveAbsent` and the three flag lemmas give each field |
| `Resolver.ResolveSupplied` | tools/shinobi-generate.mjs:16-37 | for each of the eight fields, the field follows the value after its last key: the value or the default when missing or empty, the comma pieces or `[]`, and true unless the value is `"false"` |
| `Resolver.ResolveAbsent` | tools/shinobi-generate.mjs:28-37 | a field whose key never appears takes its default: `s3-bucket`, `fedramp-moderate`, `[]` or true |
| `Resolver.FlagFalseIff` | tools/shinobi-generate.mjs:34-36 | a scalar key reads as `"false"` exactly when the value after its last occurrence is `"false"` |
| `Resolver.ResolveTestsFlag` | tools/shinobi-generate.mjs:34 | `includeTests` is false if and only if the value after the last `includeTests` key is exactly `"false"` |
| `Resolver.ResolveObservabilityFlag` | tools/shinobi-generate.mjs:35 | `includeObservability` is false if and only if the value after its last key is exactly `"false"` |
| `Resolver.ResolvePoliciesFlag` | tools/shinobi-generate.mjs:36 | `includePolicies` is false if and only if the value after its last key is exactly `"false"` |
| `SummaryWriter.SummaryOf` | tools/shinobi-generate.mjs:104-126 | the five fields are copied unchanged; tests is 4 or 0, observability 2 or 0 and REGO `variable` or 0, as their flags are on or off; the component, compliance and documentation counts are 4, 2 and 1; the feature list is the fixed six labels |
| `SummaryWriter.SummaryKeepsConfig` | tools/shinobi-generate.mjs:104-117 | the whole configuration can be read back from its summary |
| `SummaryWriter.SummaryInjective` | tools/shinobi-generate.mjs:104-117 | two configurations have equal summaries if and only if they are equal |
| `SummaryWriter.SummaryPath` | tools/shinobi-generate.mjs:129 | the path is `packages/components/`, the component name, then `/generation-summary.json`, and the name can be read back from it |
| `ShinobiGenerate.Generate` | tools/shinobi-generate.mjs:16-129 | one run gives the resolved configuration, its summary and the summary's path |
| `ShinobiGenerate.NoArguments` | tools/shinobi-generate.mjs:28-37 | with no tokens every field takes its default |
| `ShinobiGenerate.PaymentsApiExample` | tools/shinobi-generate.mjs:16-37 | `--componentName payments-api --framework fedramp-high --packsToInclude net,iam --includeTests false` resolves to those values with the other fields at their defaults, with 0 estimated test files |
| `ShinobiGenerate.DashesRemovedInside` | tools/shinobi-generate.mjs:17 | `include--Tests` normalises to `includeTests` |
| `ShinobiGenerate.OnlyFirstDashesRemoved` | tools/shinobi-generate.mjs:17 | `----x` normalises to `--x`: only one `--` is removed |
| `ShinobiGenerate.BareKeyKept` | tools/shinobi-generate.mjs:17 | `includeTests` without dashes is kept as the key |

## Left out

- Console output (tools/shinobi-generate.mjs lines 39-101 and 133) is fixed
  text written to standard output and is not modelled.
- `process.argv.slice(2)` is not modelled: the tokens are a parameter.
- `JSON.stringify` and `fs.writeFileSync` are not modelled. That includes
  the failure when the component directory does not exist, which is a
  filesystem error raised by the host.
- SummaryWriter.SummaryPath: the path is plain concatenation. `path.join`'s
  normalisation (for a component name with `..`, `/` or nothing in it) is
  not modelled.
- `params` is a Dafny `map`. Plain-object quirks of JavaScript, such as the
  key `__proto__`, are not modelled.
- Resolver.ConfigOf: a list value under a string key, or a string under a
  list key, gives the default. The JavaScript `||` would pass the value
  through instead. Neither case can arise from the parser
  (`ArgParser.ParsedWellKinded`).
- JavaScript strings are UTF-16 code units and Dafny strings are `char`
  sequences. The only characters the resolver inspects are `-` and `,`, so
  this makes no difference to the model.
- The external generation agent mentioned in the script's comments is not
  part of this model.
