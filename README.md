# parseArgs of the closure shim script, in Dafny

The closure shim script packages JavaScript files with an external
minifier. Its one piece of reusable logic is `parseArgs`, a command-line
tokenizer. It turns the raw tokens into positional values (`topLevel`) and
named options (`options`, each either `true` or a string). It supports
`--name`, `--name=value`, short clusters `-abc` and a letter-to-name
shorthand table. The TypeScript source and its compiled JavaScript copy
behave the same, so one model covers both.

The model has four modules:

- `ArgParse` (argparse.dfy) states the scan as functions over values. The
  closures `handleArg` and `handleValue` become `HandleArg` and
  `HandleValue`. One iteration of the outer loop is `Step`. The inner loop
  over a cluster's non-last letters is `Cluster`. The whole pass is `Scan`,
  and `parseArgs`'s result is `Parse`.
- `ArgParseImpl` (scanner.dfy) is the imperative form. The state the
  closures capture is a `Scanner` object whose fields the methods update in
  place. `ParseArgs` runs the same two `for` loops as the source and is
  proved equal to `Parse`.
- `ArgParseProps` (argparse_props.dfy) holds the properties: the effect of
  each kind of token, how an open name is resolved, and facts about a whole
  parse.
- `ArgParseExamples` (argparse_examples.dfy) works through concrete command
  lines, including the shim's own `-o` shorthand.

Behaviours of the code that the model keeps exactly:

- A name still open at the end of input is dropped. It is not set to
  `true`: `["-abc"]` gives `{a: true, b: true}`, and `["--output="]` gives
  `{}`.
- `handleArg` checks for an open name with `!== undefined`. `handleValue`
  uses truthiness. So an open empty name (from `--` or `--=v`) never takes a
  value: the value goes to `topLevel`, and the empty name is set to `true`
  when the next name opens.
- The empty token is a plain value, and it can become the empty-string
  value of an open name.
- `--=v` pushes `v` to `topLevel`, and `v` is not itself a token. So
  `topLevel` is a subsequence of the values the tokens *offer* (plain tokens
  and the non-empty text after `=`), not of the plain tokens alone.
- `handleArg(name, true)` leaves the open name as it was. This cannot be
  observed, because a cluster's trailing letter always replaces it.

Both copies walk a cluster's letters with their own index `j`, from 1 to
one before the last letter. They do not differ in how they handle clusters.

## Model

| member | source | states |
|---|---|---|
| ArgParse.IndexOf | src/closure_shim.script.ts:110 | `indexOf("=")`: -1 exactly when there is no `=`; otherwise the index of an `=` with none before it |
| ArgParse.Cluster | src/closure_shim.script.ts:124-127 | the inner loop over a cluster's non-last letters never touches `topLevel` or the open name |
| ArgParse.Scan | src/closure_shim.script.ts:106-134 | after the outer loop, `topLevel` has at most one entry per token |
| ArgParseImpl.Scanner.HandleArg | src/closure_shim.script.ts:85-95 | a defined open name is set to `true`; then the value is stored under `name`, or `name` becomes the open name; `topLevel` is unchanged |
| ArgParseImpl.Scanner.HandleValue | src/closure_shim.script.ts:97-104 | a truthy open name takes the value and is cleared; otherwise the value is appended to `topLevel` and the options are unchanged |
| ArgParseImpl.ParseArgs | src/closure_shim.script.ts:78-137 | the two nested `for` loops over the tokens and the cluster letters compute exactly `Parse(args, shorthand)`; the open name left at the end is dropped |
| ArgParseProps.IndexOfEquals | src/closure_shim.script.ts:110-119 | in `--name=value` with no `=` in `name`, the split is after `name`, and the value is the whole rest, including any further `=` |
| ArgParseProps.LongOpen | src/closure_shim.script.ts:111-113 | `--name` sets the previous open name to `true`, opens `name` and writes nothing for `name` |
| ArgParseProps.LongOpenTrailingEquals | src/closure_shim.script.ts:115-120 | `--name=` behaves like `--name`: `name` is opened, not given the empty string |
| ArgParseProps.LongAssign | build/closure_shim.script.js:89-101 | `--name=value` with non-empty parts sets `options[name]` to the text after the first `=`, and leaves no name open |
| ArgParseProps.LongEmptyName | src/closure_shim.script.ts:115-119 | `--=v` opens the empty name; `v` goes to `topLevel` and the empty name stays open |
| ArgParseProps.ClusterEffect | build/closure_shim.script.js:105-108 | the non-last letters set exactly their shorthand-mapped names to `true`, after the previous open name is set to `true` |
| ArgParseProps.ShortCluster | src/closure_shim.script.ts:122-131 | `-l1…ln`: the non-last letters' mapped names become `true`, only the last letter's mapped name is opened, and `topLevel` is unchanged |
| ArgParseProps.PlainToken | src/closure_shim.script.ts:131-133 | a plain token becomes the value of a truthy open name, and is appended to `topLevel` otherwise |
| ArgParseProps.DashAndEmptyArePlain | src/closure_shim.script.ts:122 | `-` and the empty token are plain values; the empty token can become an open name's empty-string value |
| ArgParseProps.EmptyOpenNameNeverAbsorbs | build/closure_shim.script.js:78-85 | an open empty name fails the truthy test: the token goes to `topLevel` and the empty name stays open |
| ArgParseProps.OpenThenValue | build/closure_shim.script.js:96-100 | after `--name` or `--name=`, a plain token becomes the value of a non-empty `name` |
| ArgParseProps.OpenThenOption | build/closure_shim.script.js:67-76 | after `--name` or `--name=`, a following `--next` without `=` sets `name` to `true` and opens `next` |
| ArgParseProps.OptionResolvesOpenName | src/closure_shim.script.ts:85-95 | any option token after an open name, long or short cluster, records that name: as the text after `=` exactly when the token is `--name=value` with a non-empty value for that same non-empty name, and as `true` for every other option token (an open empty name followed by `--=v` stays `true`) |
| ArgParseProps.EmptyOpenNameThenEmptyAssign | src/closure_shim.script.ts:85-104 | an open empty name followed by `--=v` is set to `true`: `--=v` opens the empty name again and its truthiness test sends `v` to `topLevel`, so `v` never becomes the empty name's value |
| ArgParseProps.AllPlain | src/closure_shim.script.ts:97-104 | with only plain tokens, `topLevel` is the tokens in order, the options are empty and no name is open |
| ArgParseProps.NoDashAllPositional | build/closure_shim.script.js:87-115 | when no token starts with `-`, the result is the tokens in order with no options |
| ArgParseProps.StepTopLevel | src/closure_shim.script.ts:102 | one token adds at most the one value it offers to `topLevel` |
| ArgParseProps.TopLevelSubseq | src/closure_shim.script.ts:106-136 | `topLevel` is an order-preserving subsequence of the offered values, so it is no longer than `args` |
| ArgParseProps.StepValues | src/closure_shim.script.ts:97-100 | a string written by one token is the value that token offers |
| ArgParseProps.ValuesFromInput | src/closure_shim.script.ts:78-137 | every string value in `options` is a value offered by some token |
| ArgParseProps.LastWriteWins | build/closure_shim.script.js:67-76 | a final `--name=value` with non-empty parts and no `=` in `name` decides `options[name]`, overwriting any earlier value, and leaves `topLevel` unchanged |
| ArgParseProps.TrailingOpenDropped | build/closure_shim.script.js:115-116 | a final `--name` only sets the previous open name to `true`; `name` is not recorded |
| ArgParseExamples.LongWithValueExample | src/closure_shim.script.ts:109-121 | `["--output=out.js"]` gives `{output: "out.js"}` |
| ArgParseExamples.ValueWithEqualsExample | src/closure_shim.script.ts:110-119 | `["--a=b=c"]` gives `{a: "b=c"}` |
| ArgParseExamples.TrailingEqualsExample | src/closure_shim.script.ts:134-136 | `["--output="]` gives `{}` |
| ArgParseExamples.ShimInvocationExample | src/closure_shim.script.ts:173 | with shorthand `o` to `output`, `["a.js","b.js","-o","out.js"]` gives `topLevel ["a.js","b.js"]` and `{output: "out.js"}` |
| ArgParseExamples.ClusterAtEndExample | src/closure_shim.script.ts:122-136 | `["-abc"]` gives `{a: true, b: true}`, with no `c` |
| ArgParseExamples.ClusterValueExample | src/closure_shim.script.ts:122-133 | `["-ab","val"]` gives `{a: true, b: "val"}` |
| ArgParseExamples.OpenNameTakesValueExample | src/closure_shim.script.ts:111-113 | `["--flag","pos1"]` gives `{flag: "pos1"}` and an empty `topLevel` |
| ArgParseExamples.EmptyNameExample | src/closure_shim.script.ts:98-103 | `["--","x","--y"]` gives `topLevel ["x"]` and `{"": true}`; `["--=v"]` gives `topLevel ["v"]` and `{}` |

## Left out

- `main` (src/closure_shim.script.ts:12-53): it calls the external Closure Compiler through a callback, writes to the console and copies a file. All of this is I/O and foreign code.
- `validateArgsAndPrintErrors` (src/closure_shim.script.ts:139-166): it wraps the zod library's `safeParse` and prints its issues. The library is not part of this model.
- The slicing of `process.argv` and the call `main(parseArgs(...))` (src/closure_shim.script.ts:173). The tokens and the shorthand table are parameters of `ParseArgs` instead.
- The compiled file's `__awaiter` helper (build/closure_shim.script.js:6-14). It only runs asynchronous code.
- src/closure.d.ts: it holds type declarations only.
- JavaScript object keys: `options` is a map, so the special `__proto__` key of a plain object is not modelled.
- Strings are sequences of Dafny characters. JavaScript indexes UTF-16 code units, so a letter outside the Basic Multilingual Plane is not split into two halves the way `arg[j]` splits it.
- Purity and idempotence need no lemma here: `Parse` is a function, so the same tokens always give the same result.
