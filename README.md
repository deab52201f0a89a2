# A verified model of the chevron routers

arrow.py and router.py are two small Python interpreters for programs
written as chains of words joined by `>` ("chevrons"). Each line of a
program is a statement, and its segments are the words between the `>`s.

* **arrow.py** has a `Router` with three dictionaries:
  - `routes`, from `target.key` to a rule body;
  - `values`, the variables set by top-level statements;
  - `scopes`, one dictionary of block variables per target.

  `execute` proceeds in three steps:
  1. It filters the program's lines, dropping blank lines and `#` comments.
  2. It splits them into blocks with a stack of open braces:
     - A group is emitted when a `}` line empties the stack. It holds every line collected since the last group: the `{` header, its interior and that `}`, and also any plain lines read before the header (`Blocks.AbsorbedLeadingLines`).
     - The lines still collected at the end become single lines, one block each. This includes the lines of a group that is never closed, its header among them.
     - A `}` met with no brace open raises `IndexError`.
  3. It processes the blocks in order:
     - A group gets a fresh scope. Its first line gives the target. When that line ends in `{`, the lines between it and the last line are processed; otherwise every line of the group is. Each such line is either a binding (a digit string or a quoted string) or a route definition.
     - A single line is dispatched. `systemPrint > x` prints `x`, or the value `@x` names. `name > 5` and `name > "s"` set a value. Any other line follows the route `parts[0].parts[1]`, or `parts[0]` when the line has a single segment. Following a route means substituting `@var` from the target's scope, then `arg0`, `arg1`, … from the line's later segments, then dispatching the result again.
* **router.py** has a second, tiny `Router`. Its `send` links each segment of a line to the next in one table. A source that already has an entry gets the new target appended after a space.

The model has six modules:

* `Text`: the Python string built-ins both programs use. These are `split`, `strip`, `startswith`, `endswith`, `" > ".join`, `isdigit`, `int`/`str` on digit strings, and `replace`. `Text` proves the facts about them that the rest needs.
* `Blocks`: the line filter and the block splitter of `_parse_blocks`. The splitter's `IndexError` is a `Result`.
* `Arrow`: the rest of arrow.py, plus the `Router` class itself.
  - Functions define each operation, and lemmas state its cases.
  - The `Router` class has one method per source method. Each method's loops are proved against those functions.
* `ArrowFacts`: properties of `_process`, the route-following recursion and `_substitute`, stated over the `Arrow` functions.
* `ArrowScenario`: the test program at the bottom of arrow.py, run end to end.
* `Chain`: router.py. It has the same structure: reference functions, lemmas, a `Router` class with a `Send` loop, and the two test scenarios.

How some things are modelled:

* What `print` writes is the `output` field, one string per call. `print(None)` writes `None`.
* Each route hop is one more nested `_route` call, and Python's recursion limit bounds how deep those calls may go. The model names that bound `fuel`: the number of nested calls still allowed.
  - A chain that needs more raises `RecursionError`. Nothing catches it, so `execute` stops at that block (`Arrow.ProcessAllAborted`).
  - The blocks before it keep their effect, and the blocks after it are never processed. The hops themselves only rewrite the line, so the failing block changes nothing.
  - A line whose route rewrites it into itself raises whatever the limit (`ArrowFacts.SelfRouteNeverReturns`, `ArrowFacts.SelfRouteAborts`).
  - A higher limit never changes a dispatch that returns (`ArrowFacts.FuelMonotone`).
* A scope is a list of pairs in insertion order. A Python dict iterates in that order, and `_substitute` replaces variables in that order, so the order is observable.

What arrow.py does with scopes and names:

* A block's scope replaces any earlier scope of the same target.
* An unbound `@name` is left in the text.
* `systemPrint > @x` with `x` unset prints `@x` itself.
* Only exact `target.key` routes exist.

## Model

| member | source | states |
|---|---|---|
| Text.StripPadded | arrow.py:18 | `strip` removes exactly the whitespace around a text with no whitespace at its ends |
| Text.StripTrimmed | arrow.py:18 | the result of `strip` has no whitespace at either end |
| Text.StripIdempotent | arrow.py:18-20 | stripping an already stripped text changes nothing |
| Text.JoinSplit | arrow.py:19 | joining the pieces of `split(c)` with `c` gives the text back |
| Text.SplitJoin | arrow.py:19 | `split(c)` of pieces joined by `c` (none containing `c`) gives the pieces back |
| Text.SplitAvoids | arrow.py:45 | no piece of `split(c)` contains `c` |
| Text.SegmentsClean | arrow.py:62 | every stripped segment of a line has no whitespace at its ends and no `>` |
| Text.SegmentsOfJoin | arrow.py:52 | segmenting `" > ".join(words)` gives the words back when they are stripped and free of `>` |
| Text.SegmentsPadded | router.py:15-16 | the same with whitespace after the line: the trailing space of `C ` is stripped away |
| Text.ParseNatToString | arrow.py:48 | `int(str(n)) == n` for every natural number |
| Text.NatToStringParse | arrow.py:47-48 | `str(int(s)) == s` for a digit string exactly when it is one digit or has no leading zero |
| Text.ReplaceAbsent | arrow.py:96 | `replace` leaves a text in which the pattern does not occur unchanged |
| Text.ReplaceSkip | arrow.py:96 | `replace` copies a prefix that cannot start a match and continues after it |
| Text.ReplaceHit | arrow.py:96 | `replace` rewrites a leading match and continues after it (left to right, non-overlapping) |
| Text.ReplaceNearMiss | arrow.py:98 | a text as long as the pattern but different, whose tail cannot start a match, is copied |
| Text.ReplaceKeeps | arrow.py:96-98 | an occurrence of `q` survives `replace(p, sub)` when no match of `p` can overlap it: `p` is no prefix of `q`, and neither text's first character occurs after the other's first |
| Blocks.Kept | arrow.py:17-21 | the filter never adds lines |
| Blocks.KeptAppend | arrow.py:17-21 | filtering a concatenation filters each part, so line order is kept |
| Blocks.KeptMembers | arrow.py:17-21 | a line is kept exactly when some raw line strips to it and it is non-empty and not a `#` comment |
| Blocks.ScanShape | arrow.py:22-34 | the loop invariant: the emitted blocks and `current` hold all lines read, the stack depth is the open-brace depth, and every emitted block is a well-formed group |
| Blocks.StepKeeps | arrow.py:23-34 | one iteration of the splitting loop keeps that invariant |
| Blocks.ScanFails | arrow.py:27-28 | the loop raises `IndexError` exactly when some `}` line is met with no brace open |
| Blocks.ScanSticky | arrow.py:28 | once raised, the error is not recovered from by later lines |
| Blocks.ScanNeutral | arrow.py:33-34 | lines that neither open nor close are only collected into `current` |
| Blocks.SplitBlocksFails | arrow.py:16-36 | `_parse_blocks` raises exactly on a stray `}` |
| Blocks.SplitBlocksFlatten | arrow.py:22-36 | the blocks hold every filtered line once, in order |
| Blocks.SplitBlocksShape | arrow.py:22-36 | every group ends with its matching `}` and closes no earlier; single lines come after all groups; no group is empty |
| Blocks.AbsorbedLeadingLines | arrow.py:33-34 | plain lines before a group's header are swept into that group |
| Blocks.UnmatchedCloserRaises | arrow.py:27-28 | a `}` before any `{` raises even though a later group is balanced |
| Arrow.Put | arrow.py:48-50 | `scope[k] = v` binds `k`, leaves other names alone, and keeps an existing name's place |
| Arrow.ResolveValue | arrow.py:86-89 | no value stays none; `@name` with `name` set gives `str(values[name])`; anything else, including an unset `@name`, is returned as is |
| Arrow.DispatchEffects | arrow.py:60-84 | a `_route` call that returns never writes routes or scopes, prints at most one line, prints or assigns but not both, and never removes a value |
| Arrow.DispatchPrints | arrow.py:64-68 | a `systemPrint` line prints the resolved second segment, or `None` when there is none (a case of the definition, not a separate result) |
| Arrow.DispatchBinds | arrow.py:70-76 | a two-segment line with a digit or quoted second segment sets that value (a case of the definition, not a separate result) |
| Arrow.DispatchFollows | arrow.py:78-84 | any other line with a known route key dispatches the substituted rule (a case of the definition, not a separate result) |
| Arrow.DispatchStops | arrow.py:81 | a line with an unknown route key does nothing (a case of the definition, not a separate result) |
| Arrow.DispatchTooDeep | arrow.py:81-84 | a known route key with no nested call left raises `RecursionError` (a case of the definition, not a separate result) |
| Arrow.DefineLineCases | arrow.py:45-54 | an interior line binds an `int`, binds an unquoted string, or stores `" > ".join(parts[1:])` under `target.parts[0]` (a case of the definition, not a separate result) |
| Arrow.ProcessGroup | arrow.py:39-54 | a group gives its target a fresh scope holding exactly what its interior lines bind |
| Arrow.DefineAllStep | arrow.py:44 | interior lines are read one after another |
| Arrow.ProcessAllSnoc | arrow.py:13-14 | `execute` processes the blocks in order |
| Arrow.ProcessAllAborted | arrow.py:10-14 | once a block has raised, the later blocks are never processed: the whole loop ends as it was at that block |
| Arrow.Router.constructor | arrow.py:2-5 | a new router has empty tables and has printed nothing |
| Arrow.Router.Execute | arrow.py:10-14 | `execute` raises what `Run` raises (`IndexError` from the split, or `RecursionError` from a block) and leaves the state `Run` gives; on `IndexError` nothing changes, on `RecursionError` the earlier blocks' effects stay |
| Arrow.Router.ParseBlocks | arrow.py:16-36 | the splitting loop, run on the filtered lines, computes `SplitBlocks` of them, including the `IndexError` exit |
| Arrow.Router.Process | arrow.py:38-58 | the block loop computes `ProcessBlock`; it reports `RecursionError` exactly when `ProcessBlock` does, and then nothing has changed |
| Arrow.Router.Route | arrow.py:60-84 | the recursive method computes `Dispatch`; it reports `RecursionError` exactly when `Dispatch` does, and then nothing has changed |
| Arrow.Router.Substitute | arrow.py:91-99 | the two replacement loops compute scope substitution, then argument substitution |
| ArrowFacts.ProcessGroupEffect | arrow.py:38-56 | after a group: its target's scope holds the last binding of each name; each `target.k` is the last route line for `k`; all other routes, scopes, values and output are unchanged |
| ArrowFacts.DefineAllScope | arrow.py:44-50 | a name's binding in the block scope is its last binding line |
| ArrowFacts.DefineAllRoute | arrow.py:51-54 | `target.k` is present exactly when it was or some line defines `k`, and then holds the last such body |
| ArrowFacts.DefineAllOtherRoutes | arrow.py:44-54 | keys no route line of the block writes are untouched |
| ArrowFacts.LastBindingNone | arrow.py:46-50 | no binding is found exactly when no line binds the name |
| ArrowFacts.LastBindingFound | arrow.py:46-50 | the binding found is the one no later line rebinds |
| ArrowFacts.LastRouteNone | arrow.py:51-54 | no route body is found exactly when no route line has the key |
| ArrowFacts.LastRouteFound | arrow.py:51-54 | the body found is the one no later line overwrites |
| ArrowFacts.RouteKeySuffix | arrow.py:52 | `target.k` determines `k` |
| ArrowFacts.FuelMonotone | arrow.py:81-84 | once a dispatch returns within a recursion limit, a higher limit gives the same result |
| ArrowFacts.SelfRouteNeverReturns | arrow.py:81-84 | a line whose route rewrites it into itself raises `RecursionError` whatever the limit |
| ArrowFacts.SelfRouteAborts | arrow.py:10-14 | `execute` on a program with such a line stops there: it raises `RecursionError`, keeps the earlier blocks' effects and skips the later blocks |
| ArrowFacts.NoAtNoVars | arrow.py:95-96 | a rule without `@` is untouched by the scope pass, whatever the scope |
| ArrowFacts.NoArgNoArgs | arrow.py:97-98 | a rule without `arg` is untouched by the argument pass, whatever the arguments |
| ArrowFacts.OccursPrefix | arrow.py:98 | a text containing `arg{i}` contains `arg` |
| ArrowFacts.TwoArguments | arrow.py:97-98 | with two arguments, `arg0` is replaced first, then `arg1` in the result (a case of the definition, not a separate result) |
| ArrowFacts.ArgPrefixCapture | arrow.py:97-98 | substitution is textual: `arg1` also matches inside `arg10` |
| ArrowFacts.ArgValueRescanned | arrow.py:97-98 | an argument value that spells a later placeholder is rewritten again |
| ArrowFacts.MissingArgStays | arrow.py:97-98 | in any text, a placeholder `arg{j}` with no argument (`j >= len(args)`) stays, unless an argument's placeholder name is a prefix of it (`arg1` of `arg10`) |
| ArrowFacts.ArgResolved | arrow.py:97-98 | the argument pass turns `arg{i}` into the `i`-th argument `parts[2+i]` when no earlier placeholder occurs in `arg{i}` and no later one occurs in that argument |
| ArrowFacts.VarResolved | arrow.py:94-96 | the scope pass turns `@n` into `str(v)` when the scope binds `n` to `v`, no other variable's `@name` occurs in `@n`, and `str(v)` has no `@` |
| ArrowScenario.ReadLines | arrow.py:17-21 | the program text, joined by newlines from good lines, filters to its statements |
| ArrowScenario.CleanProgram | arrow.py:103-114 | the test program filters to its nine statements: two four-line groups and the call |
| ArrowScenario.ParseProgram | arrow.py:103-114 | the test program splits into the two groups and the final call |
| ArrowScenario.SplitTwoGroups | arrow.py:22-36 | two groups then a plain line give two group blocks and one single block |
| ArrowScenario.ScanWholeGroup | arrow.py:23-32 | a group read with nothing open is emitted as one block |
| ArrowScenario.TwoLineGroup | arrow.py:39-54 | a group with two interior lines defines them in order under a fresh scope |
| ArrowScenario.DefineBlock1 | arrow.py:104-107 | the first block binds `secret` to `hello world` and stores `funcwithsecret.true` |
| ArrowScenario.DefineBlock2 | arrow.py:109-112 | the second block gives `getsecret` an empty scope and stores its two routes |
| ArrowScenario.CallHop | arrow.py:78-84 | `getsecret > true` follows `getsecret.true` |
| ArrowScenario.FuncSubstituted | arrow.py:91-99 | `funcwithsecret.true`'s rule becomes `getsecret > setpublicsecret > hello world`: `@secret` first, then `arg0`, then `arg1` |
| ArrowScenario.ChainHop | arrow.py:78-84 | the second hop runs in `funcwithsecret`'s scope with two arguments |
| ArrowScenario.PrintSubstituted | arrow.py:97-98 | `setpublicsecret`'s rule becomes `systemPrint > hello world` |
| ArrowScenario.RelayHop | arrow.py:78-84 | the third hop follows `getsecret.setpublicsecret` |
| ArrowScenario.PrintHop | arrow.py:64-68 | `systemPrint > hello world` prints `hello world` as written |
| ArrowScenario.CallChain | arrow.py:113 | once both blocks are defined, the call prints `hello world` when three nested calls are allowed, and raises `RecursionError` otherwise |
| ArrowScenario.RunIsCall | arrow.py:10-14 | once both blocks are defined, what remains of the run is the call |
| ArrowScenario.ProgramRun | arrow.py:103-118 | `execute(test_code)` defines exactly the three routes and two scopes and sets no value; given three nested calls it raises nothing and prints `hello world` once, and with fewer it raises `RecursionError` after defining the blocks |
| ArrowScenario.TestWordsFit | arrow.py:103-114 | the words of the test program meet every condition the scenario lemmas assume |
| ArrowScenario.TestCodeText | arrow.py:103-114 | the program the scenario runs, built from those words, is `test_code` line for line |
| ArrowScenario.RunTestProgram | arrow.py:118 | `Router().execute(test_code)` on the object raises nothing and prints exactly `["hello world"]` |
| Chain.Sources | router.py:19-27 | the loop's sources include every non-final segment and number at most the pairs |
| Chain.LinkEntry | router.py:24-27 | one step appends the target to the source's entry after a space, or creates the entry |
| Chain.RelayEntry | router.py:19-27 | after the pairs, an entry is its old text followed by every target it was linked to, in order, separated by spaces |
| Chain.TargetsEmpty | router.py:19-27 | a key is linked to something exactly when it is a source |
| Chain.TargetsOnce | router.py:19-27 | a source occurring once is linked to exactly the segment after it |
| Chain.SendEntry | router.py:10-27 | `send` gives every entry its old text plus its new targets, and keeps entries no line segment touches |
| Chain.SendFrame | router.py:12-27 | entries whose key is not a source are unchanged; a line without `>` changes nothing |
| Chain.SendKeys | router.py:19-27 | the new keys are the old keys plus every non-final segment; none is removed and at most one per pair is added |
| Chain.SourcesStripped | router.py:15-16 | every source is a stripped segment without `>` |
| Chain.SendAppends | router.py:24-27 | a source occurring once is appended to, not overwritten |
| Chain.Router.constructor | router.py:2-3 | a new router has an empty table |
| Chain.Router.Send | router.py:10-27 | the loop over adjacent pairs computes `Sent` on the table |
| Chain.SendWords | router.py:15-27 | `send` on a line built from words links the words in order |
| Chain.SimpleRoutingWords | router.py:32-43 | `a > b > c ` then `b > d` then `a > h` leave `{a: "b h", b: "c d"}` |
| Chain.FunctionLikeWords | router.py:46-56 | `g > p > h` then `g > p > w` leave `{g: "p p", p: "h w"}` |
| Chain.TestSimpleRouting | router.py:32-43 | the first test on a `Router` object leaves `{A: "B hello", B: "C D"}` |
| Chain.TestFunctionLike | router.py:46-56 | the second test leaves `{greeter: "print print", print: "hello world"}` |

## Left out

- `debug` (arrow.py:7-8) and its calls, `log` (router.py:6-8) and the `debug` field (router.py:4). They only print diagnostics and change no state.
- The banner prints of the test harnesses (arrow.py:116-117, router.py:38-39 and 51-52).
- The harness loop of router.py (router.py:41-43 and 54-56). It sends each non-blank line unchanged. The scenarios send those lines directly rather than modelling `splitlines`.
- Arrow.Router.Execute, Arrow.Router.Route and Arrow.Dispatch take `fuel`, the number of nested `_route` calls the recursion limit still allows. Python's limit counts all frames on the stack, not only `_route` calls, so the model does not fix its value. Running out is `RecursionError`, which ends `execute` as in Python.
- Text.Strip removes ASCII whitespace plus U+001C–U+001F, U+0085 and U+00A0. Python's `str.strip` also removes the other Unicode spaces, such as U+2000–U+200A and U+3000.
- Text.IsDigits accepts ASCII digits only. Python's `isdigit` also accepts two kinds of non-ASCII digit, and neither is modelled:
  - Unicode decimal digits such as `٣` or `３`. `int` parses these, so `x > ٣` binds `Int(3)` in a block (arrow.py:47-48) and sets `values["x"]` at top level (arrow.py:71-72). The model instead stores, or follows, the route `x.٣`.
  - Other digits such as `²` or `①`. Here `int` raises `ValueError`, and the model again treats the line as a route.
- Arrow.Router.Process builds a block's scope and then stores it. Python stores the empty dict first and fills it through the alias. Nothing reads `scopes` while the block is defined, so the results agree, but the aliasing itself is not represented.
- Chain.Router.Send keeps the table as a `map`. The table's insertion order is never observed outside the left-out `log` output.
- Text.ParseNat, Arrow.DefineLine and Arrow.Dispatch read a digit string of any length. Since Python 3.11 (and 3.7.14, 3.8.14, 3.9.14, 3.10.7), `int` by default refuses strings of more than 4300 digits with `ValueError`. That happens at arrow.py:48 in a block and at arrow.py:72 at top level. The model binds the number instead. This `ValueError` is not modelled.
- Exceptions other than the splitter's `IndexError` and the route chain's `RecursionError` are not modelled. Apart from the two `ValueError`s above, none can arise: every `parts[0]` exists because `split` returns at least one piece, and `block[0]` exists because groups are non-empty (`Blocks.SplitBlocksShape`).
