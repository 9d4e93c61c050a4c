# go-program, modelled in Dafny

A model of the core of `go-program`, a small Go library for command-line
programs. A `Program` has a name and a description, a set of options (flags,
or options taking a value), positional arguments (mandatory, optional,
trailing), and optionally named commands, each with its own options and
arguments. `ParseCommandLine` adds a `help` command when there are commands
and parses the command line:

1. the leading options;
2. the command name, the command's options, and the positional arguments;
3. the default options `--help`, `--quiet` and `--debug <level>`.

User errors end the process after an error line and the usage text. The
library also renders that usage text, and it parses, formats and compares
build identifiers such as `v1.2.3-17-f1d2d2f`.

Files and modules:

- `wrappers.dfy` (`Wrappers`): `Option` and `Result`.
- `text.dfy` (`Text`):
  - decimal numerals and their round trip;
  - Go's byte-wise string order;
  - `%-*s` padding;
  - `sentence`.
- `schema.dfy` (`Schema`):
  - option and argument records;
  - commands;
  - registration errors (panics in Go) and usage errors (`fatal` in Go);
  - the shape rules of positional argument lists and their checks.
- `scanner.dfy` (`Scanner`): what `parse`, `parseOptions`, `parseCommand` and
  `parseArguments` compute, as functions, with their properties.
- `usage.dfy` (`Usage`):
  - the usage text as a function of the schema;
  - option signatures, table rows and their alignment;
  - the sorted listings.
- `program.dfy` (`Programs`): the class `Program`.
  - Fields are updated in place: registration, parsing, accessors, `computeMaxWidth`, the usage renderer, `fatal`, `cmdHelp`, `Run`, `Debug` and `Info`.
  - Each method is proved against the functions of the modules above.
- `build_id.dfy` (`BuildIds`):
  - build identifiers and their recogniser, formatting and order;
  - a `BuildIdVar` class whose `Parse` updates an id in place.

Modelling choices:

- **Option records.** Records live in one arena, `options: seq<OptionRecord>`. A scope (the program's options, or a command's) maps keys to indices into it. Several keys can then share one record, as several map entries share one `*Option` in Go.
- **Commands.** Commands are values in `commands: map<string, Command>`. The active command is held by name.
- **Errors.** Every `panic` of the source is a `RegistrationError` result. Every `fatal` is a `UsageError` result. The process exit becomes an `Ending` value: `Exit(status, lines)` lists what is written to standard error.
- **Program name.** `os.Args[0]` is the `programName` parameter. `os.Args[1:]` is the `args` parameter of `ParseCommandLine`.
- **Verbosity.** `ParseCommandLine` assigns to `p.Quiet` and `p.DebugLevel`, which `Program` does not declare. `Info` and `Debug` read `verbose` and `debugLevel`. The model follows the declared fields and their evident meaning: `--quiet` sets `verbose` to false, and `--debug` sets `debugLevel`.

## Model

| member | source | states |
|---|---|---|
| Text.DigitsToNat | build_id.go:67-72 | `strconv.Atoi` of a digit string, the most significant digit first; its inverse is stated by `NatToStringRoundTrip` |
| Text.NatToString | build_id.go:52-55 | `%d` of a natural: a canonical numeral, `"0"` exactly for zero |
| Text.NatToStringRoundTrip | build_id.go:67-72 | reading back a printed number (`strconv.Atoi` of `%d`) gives the number |
| Text.CanonicalRoundTrip | build_id.go:28 | a numeral without superfluous leading zero prints back as itself |
| Text.LessOrEqualTotal | usage.go:153 | Go's string order used by `sort.Strings` is total |
| Text.LessOrEqualAntisymmetric | usage.go:153 | the string order is antisymmetric |
| Text.LessOrEqualTransitive | usage.go:153 | the string order is transitive |
| Text.Pad | usage.go:157 | `%-*s`: padded with spaces to the width, never truncated, the text kept as a prefix |
| Text.Upper | utils.go:18 | upper-casing changes exactly the lower-case letters |
| Text.Sentence | utils.go:12-25 | empty stays empty; otherwise the first character is upper-cased, the rest kept, and a period is appended exactly when the text does not end with one |
| Text.SentenceIdempotent | utils.go:12-25 | `sentence` applied twice equals applied once |
| Schema.NewArgument | command_line.go:152-220 | a new argument is unset, with the kind's optional/trailing flags |
| Schema.CheckAppend | command_line.go:222-260 | the three last-argument checks: accepted exactly when the list is empty or its last argument is not trailing and, for a mandatory argument, not optional; `multiple trailing` exactly for a second trailing argument |
| Schema.CheckAppendExact | command_line.go:222-260 | the last-argument checks pass exactly when the extended list is still well shaped (mandatory*, optional*, at most one trailing, last) |
| Schema.BuiltListsAreWellShaped | command_line.go:152-220 | any list built by checked appends is well shaped |
| Scanner.Key | parser.go:62 | `strings.TrimLeft(arg, "-")`, never longer than the token; its shape is stated by `KeyShape` |
| Scanner.KeyShape | parser.go:62 | `strings.TrimLeft(arg, "-")`: the key is a suffix of the token, everything before it is a dash, and it does not start with one |
| Scanner.ShortKey | parser.go:55-62 | `--` is neither short nor long; a short token's key is its one character after the dash |
| Scanner.LongKey | parser.go:56-62 | a long token's key is what follows its two leading dashes |
| Scanner.DashesHaveNoKey | parser.go:56-62 | a long token made only of dashes has the empty key |
| Scanner.ScanOptions | parser.go:51-85 | `parseOptions` as a function of the arena, the scope and the tokens; the arena keeps its size; its steps and outcome are stated by `ScanStep` and `ScanOptionsOutcome` |
| Scanner.ScanStep | parser.go:64-80 | one step of the option loop: a flag consumes its token, an option with a value consumes its token and the next, and an option with a value at the end fails with `missing value for option` |
| Scanner.ScanLeavesSuffix | parser.go:51-85 | `parseOptions` consumes a prefix of the tokens |
| Scanner.ScanOptionsOutcome | parser.go:51-85 | the option loop stops only at the end, at a non-option, or with `unknown option` / `missing value for option` naming the offending key |
| Scanner.LaterScanKeepsKinds | parser.go:69-80 | the scan changes only parse state, never names or value kinds |
| Scanner.ScanLeavesUnnamed | parser.go:64-80 | a record no token names is left as it was |
| Scanner.ScanKeepsSet | parser.go:69 | a set option stays set |
| Scanner.GivenOptionIsSet | parser.go:64-69 | a known option given as the first token is marked set, whatever follows |
| Scanner.ScanConcat | parser.go:51-85 | the scan goes token by token: after a run of tokens it consumes without error, scanning what follows starts from the arena that run left |
| Scanner.GivenOptionSetAnywhere | parser.go:64-69 | a known option given at any position among the leading options is marked set, whatever follows |
| Scanner.ValueTakesNextToken | parser.go:71-80 | an option with a value name given first and followed by exactly one token takes that token as its value, even when it looks like an option, and the scan ends without error |
| Scanner.ValueTakenAnywhere | parser.go:71-80 | an option with a value name at any position among the leading options takes the next token verbatim as its value, and keeps it to the end of the scan when no later token names the option |
| Scanner.LeadingMandatory | parser.go:107-114 | `min` counts the leading mandatory arguments |
| Scanner.Merge | parser.go:35-41 | the merged scope has both scopes' keys, the command's entry winning |
| Scanner.FillOptional | parser.go:133-147 | the optional loop; when it stops at a trailing argument, that argument is at or after the start and tokens remain for it |
| Scanner.FillOptionalBindsInOrder | parser.go:133-147 | the optional loop binds tokens to arguments in order until a trailing argument or the end |
| Scanner.BindArguments | parser.go:104-161 | `parseArguments` as a function of the declared arguments and the tokens; the list keeps its length; its meaning is stated by `BindArgumentsMeaning` |
| Scanner.ExpectedBinding | parser.go:104-161 | the independent positional statement of the binding rules: the list keeps its length, and without error every token is consumed |
| Scanner.BindArgumentsMeaning | parser.go:104-161 | `parseArguments` binds mandatory, then optional arguments in order, gives the rest to the trailing argument, and otherwise reports extra tokens |
| Scanner.BindArgumentsErrors | parser.go:116-156 | `missing argument(s)` exactly when fewer tokens than mandatory arguments, `too many arguments` exactly when tokens remain with no trailing argument; no other error; all for a non-empty argument list, since with none leftover tokens are ignored |
| Scanner.SameDeclarationsKeepShape | parser.go:120-152 | parse state changes keep an argument list well shaped |
| Scanner.BindKeepsDeclarations | parser.go:104-161 | binding changes only the parse state of the arguments |
| Scanner.TwoMandatoryThenTrailing | parser.go:104-161 | concrete bindings for `<a> <b> [<c>...]` with 2, 4 and 1 tokens |
| Scanner.ParseSpec | parser.go:23-49 | the selected command is registered, and command names are kept |
| Scanner.CommandPhase | parser.go:32-45 | the same for the phase after the leading options |
| Scanner.SelectedCommand | parser.go:34-45 | once a command is selected: it is the active command, the option arena keeps its size and the command names are kept |
| Scanner.ParseKeepsDeclarations | parser.go:23-49 | a parse changes no declaration, only parse state |
| Scanner.CommandPhaseKeepsDeclarations | parser.go:32-45 | the same for the command phase |
| Scanner.ParseSelectsCommand | parser.go:28-33 | a successful parse of a program with commands, without help, selects a registered command |
| Scanner.HelpStopsParse | parser.go:28-30 | `--help` as the first token, with the global options scanning without error, ends the parse with no error and no command |
| Scanner.HelpAnywhereStopsParse | parser.go:28-30 | `--help` at any position among the leading global options, with those options scanning without error, ends the parse with no error and no command, whatever follows |
| Scanner.CommandSelection | parser.go:87-102 | the first non-option token selects that command, or the error `unknown command` names it |
| Usage.SortKey | usage.go:225-235 | `sortKey`: the short name, else the long name; empty exactly when the option has neither |
| Usage.InsertBy | usage.go:153 | one insertion keeps the list sorted and adds exactly the element |
| Usage.SortBy | usage.go:210-212 | the result is sorted by the key and is a permutation of the input |
| Usage.Ordered | usage.go:147-153 | the elements of a set, once each, in strictly increasing key order |
| Usage.StrictlySortedUnique | usage.go:210-212 | two strictly sorted listings of the same elements are equal |
| Usage.SortedListingIsOrdered | usage.go:147-153 | collecting in any map order and sorting gives the same listing |
| Usage.PermutationKeepsDistinct | usage.go:172-207 | a permutation of a duplicate-free list is duplicate-free |
| Usage.SetMax | usage.go:98-142 | the maximum of a set of widths (0 for none) |
| Usage.OptionSignature | usage.go:181-199 | the option title `-s, --long <value>`; stated by `SignatureShowsKeys` and `SignatureFits` |
| Usage.SignatureWidth | usage.go:120-124 | the width reserved for an option title: `2 + 2 + 2 + len(long)`, plus `2 + len(value) + 1` with a value name; compared with the title by `SignatureFits` |
| Usage.SignatureFits | usage.go:120-129 | the width reserved for an option title fits it when the short name has at most one character, exactly with a long name, and is overrun by a longer short name |
| Usage.SignatureShowsKeys | usage.go:181-195 | the title shows `-s` and `, --long` |
| Usage.RowColumns | usage.go:157 | a row shows the title, then spaces, and its text from column `width + 2` |
| Usage.OptionRowShowsDefault | usage.go:215-221 | an option row ends with ` (default: d)` exactly when the default is non-empty |
| Usage.ArgumentTokenShowsKind | usage.go:57-65 | the synopsis token of an argument shows its kind |
| Usage.Synopsis | usage.go:55-68 | an empty synopsis exactly for no arguments |
| Usage.SynopsisAppend | usage.go:57-65 | the synopsis lists the arguments in declaration order |
| Usage.CommandRows | usage.go:155-158 | one row per command name, in order |
| Usage.ArgumentRows | usage.go:164-166 | one row per argument, in order |
| Usage.OptionRows | usage.go:214-222 | one row per option record, in order |
| Usage.CommandRowsAligned | usage.go:155-158 | all command descriptions start in the same column |
| Usage.ArgumentRowsAligned | usage.go:164-166 | all argument descriptions start in the same column |
| Usage.OptionRowsAligned | usage.go:214-222 | when every option title fits the width, all option descriptions start in the same column |
| Usage.UsageText | usage.go:25-96 | the first line is the usage line: ` <command>` for the root view of a program with commands, else the synopsis |
| Programs.RegisterError | command_line.go:109-150 | the `addOption` checks: `no name` exactly when both names are empty; accepted exactly when some name is given and each non-empty name is new in the scope and, for a command, in the program scope, the long name differing from the short one; a `duplicate option name` error names a colliding key |
| Programs.GlobalMayReuseCommandKey | command_line.go:109-150 | a global registration consults only the global scope, so a key a command already holds is accepted globally, while a command key already global is refused |
| Programs.Register | command_line.go:123-149 | registering adds exactly the non-empty short and long keys |
| Programs.RegisterKeepsScopeValid | command_line.go:110-150 | an accepted registration keeps the scope valid, keeps old keys, and maps the new keys to the new record |
| Programs.ScopeSortKeysDistinct | usage.go:225-235 | in a valid scope, distinct records have distinct sort keys |
| Programs.Message | parser.go:66-155 | the texts `fatal` writes: `unknown option "k"`, `missing value for option "k"`, `missing command`, `unknown command "c"`, `missing argument(s)`, `too many arguments`, and `invalid debug level` of command_line.go:344 |
| Programs.MessageInjective | parser.go:66-155 | distinct usage errors have distinct messages: the text names the error and its key, command or level |
| Programs.Quote | parser.go:66 | `%q` of text that needs no escaping: the text between double quotes |
| Programs.ParseDebugLevel | command_line.go:340-345 | an accepted level is at most `math.MaxInt32` |
| Programs.ParseDebugLevelRoundTrip | command_line.go:340-347 | every level in range, printed with or without `+`, is accepted as itself |
| Programs.ParseDebugLevelSigned | command_line.go:342-345 | a signed numeral is accepted exactly when in range and not negative |
| Programs.ParseDebugLevelShape | command_line.go:342 | nothing but an optionally signed numeral is accepted |
| Programs.SameNamesKeepScopeValid | parser.go:69-80 | writing parse state keeps a scope valid |
| Programs.ParseArguments | parser.go:104-161 | the loop of `parseArguments` computes the binding function |
| Programs.ScanArena | parser.go:51-85 | the loop of `parseOptions` computes the scan function |
| Programs.MaxOfUnion | usage.go:98-142 | the larger of two maxima is the maximum of the union |
| Programs.ArgumentsWidth | usage.go:114-118 | the loop over arguments finds their longest name |
| Programs.UsageHead | usage.go:52-71 | the usage line: ` OPTIONS <command>` for the root view of a program with commands, else ` OPTIONS` and the synopsis |
| Programs.ArgumentSynopsis | usage.go:55-68 | the synopsis loop appends one token per argument, in order |
| Programs.CommandTable | usage.go:155-158 | the command row loop builds the rows |
| Programs.OptionTable | usage.go:214-222 | the option row loop builds the rows |
| Programs.WithHelp | command_line.go:327-329 | the `help` command is added exactly when there are commands |
| Programs.HelpPrefixThenText | command_line.go:375-387 | output written name after name completes to the whole help text |
| Programs.HelpListsAll | command_line.go:375-387 | with every name known, the loop writes each usage in turn |
| Programs.HelpStopsAtUnknown | command_line.go:380-384 | at the first unknown name the loop writes the error and stops |
| Programs.HelpExitMeaning | command_line.go:380-384 | `cmdHelp` fails (status 1) exactly when some name is unknown, else succeeds |
| Programs.DefaultsWellFormed | program.go:39-52 | the state of a new program, with the default options, is well formed |
| Programs.Program.constructor | program.go:39-52 | a new program has no commands and no arguments, and has the options `-h/--help`, `-q/--quiet`, `--debug <level>` |
| Programs.Program.SetMain | program.go:54-60 | refused once commands exist; otherwise sets main; nothing else changes |
| Programs.Program.AddCommand | command_line.go:58-76 | refused when a main is set; otherwise adds or replaces the command, with no options and no arguments |
| Programs.Program.AddOption | command_line.go:78-150 | errors for no name and for a duplicate key in the scope or, for a command, the program scope; otherwise appends the record and registers its keys |
| Programs.Program.AddArgument | command_line.go:152-260 | refused exactly as the last-argument check says; otherwise appends the new argument to the scope |
| Programs.Program.CommandName | command_line.go:262-268 | the active command's name; `no command defined` when the program has no commands, and an error when none is active |
| Programs.Program.FindOption | command_line.go:283-297 | a key is found in the active command's scope first, then in the global scope, and only there; a key in both resolves to the command's record |
| Programs.ShadowedOptionLookup | command_line.go:283-297 | registering `-x` for a command and then globally is accepted, and with the command active the lookup finds the command's record, not the global one |
| Programs.Program.IsOptionSet | command_line.go:270-297 | the set flag of the option found, or `unknown option` |
| Programs.Program.OptionValue | command_line.go:274-297 | the value when set, the default otherwise, or `unknown option` |
| Programs.Program.MustArgument | command_line.go:307-324 | the first argument with the name in the active scope, or `unknown argument` when none has it |
| Programs.Program.ArgumentValue | command_line.go:299-301 | the value of that argument, or the error |
| Programs.Program.TrailingArgumentValues | command_line.go:303-305 | the trailing values of that argument, or the error |
| Programs.Program.ParseOptions | parser.go:51-85 | `parseOptions` updates the arena as the scan function says |
| Programs.Program.ParseCommand | parser.go:87-102 | `missing command`, `unknown command` by name, or the command is selected and the rest returned |
| Programs.Program.Parse | parser.go:23-49 | the new state and error are those of the parse function |
| Programs.Program.ParseSelected | parser.go:34-45 | after the command is selected, its options then its arguments are parsed, as `SelectedCommand` says |
| Programs.Program.ParseCommandPhase | parser.go:32-48 | the same for the phase after the leading options |
| Programs.Program.ComputeMaxWidth | usage.go:98-142 | the maximum width over command names, the arguments in view and the option titles in view |
| Programs.Program.CommandNamesWidth | usage.go:101-105 | the longest command name |
| Programs.Program.ScopeWidth | usage.go:120-139 | the widest option title reserved for a scope |
| Programs.Program.UsageCommands | usage.go:144-159 | the COMMANDS table lists the commands sorted by name |
| Programs.Program.CommandNames | usage.go:147-151 | every command name once |
| Programs.Program.UsageArguments | usage.go:161-167 | the ARGUMENTS table lists the arguments in order |
| Programs.Program.UsageOptions | usage.go:169-223 | each record of the scope once, sorted by `sortKey`, whatever keys lead to it |
| Programs.Program.ScopeRecordList | usage.go:172-207 | every record of the scope once |
| Programs.Program.ScopeListing | usage.go:83-93 | a scope lists no option exactly when it has no key |
| Programs.Program.ViewFitsWidth | usage.go:98-142 | every command name, argument name and option title in view fits the computed width |
| Programs.Program.PrintUsage | usage.go:25-96 | the usage text of the program or of one command: usage line, description sentence, command or argument table, then OPTIONS (GLOBAL OPTIONS when the command has its own) and COMMAND OPTIONS |
| Programs.Program.UsageListing | usage.go:77-81 | COMMANDS for the root view of a program with commands, else ARGUMENTS when there are any |
| Programs.Program.UsageOptionSections | usage.go:83-93 | the option sections and their titles |
| Programs.Program.Fatal | program.go:98-110 | `error: <message>`, an empty line, then the usage of the active view |
| Programs.Program.UsageTexts | command_line.go:375-387 | one usage text per name |
| Programs.Program.UsageTextsAt | command_line.go:380-386 | the text of a known name is its command's usage |
| Programs.Program.UsageTextsAll | command_line.go:380-386 | the same for every known name |
| Programs.Program.CmdHelp | command_line.go:362-389 | the program usage with no name (status 0); else each named command's usage (status 0), stopping at an unknown name (status 1); `unknown argument` when `help` lacks its `command` argument |
| Programs.Program.HelpOn | command_line.go:372-388 | the output and status for the names once known |
| Programs.Program.HelpOnProgram | command_line.go:372-373 | with no name, help prints the program usage and succeeds |
| Programs.Program.HelpNames | command_line.go:363-370 | no name outside a command, the trailing values under `help`, else the command's own name |
| Programs.Program.ShowHelp | command_line.go:375-387 | the help loop from the `i`-th name gives the status and text the help functions say |
| Programs.Program.Run | program.go:62-71 | the active command's callback, else the program's main, else none |
| Programs.Program.Debug | program.go:73-79 | the message is written exactly when its level is at most the debug level |
| Programs.Program.Info | program.go:81-87 | the message is written exactly in verbose mode |
| Programs.Program.AddDefaultCommands | command_line.go:357-360 | adds the `help` command with its trailing `command` argument; nothing else changes |
| Programs.Program.ParseCommandLine | command_line.go:326-349 | state as the parse of the command line with `help` added; a usage error exits 1 with the message and usage; otherwise help, quiet and debug take effect |
| Programs.Program.ParseWithHelp | command_line.go:326-331 | the parse with `help` added; after success the help names are available |
| Programs.Program.HelpArgumentKept | command_line.go:357-366 | the `help` command keeps its `command` argument through a parse |
| Programs.Program.ApplyDefaultOptions | command_line.go:333-348 | `--help` runs the help and exits; else verbose becomes `!quiet`, and `--debug` sets the level or exits 1 with `invalid debug level` |
| Programs.Program.SetLogging | command_line.go:338-347 | sets the verbosity and the debug level and nothing else, keeping the program well formed |
| Programs.Program.DefaultOptionsFor | command_line.go:333-348 | the same outcome, computed before the fields are written |
| Programs.Program.DebugFor | command_line.go:340-348 | the `--debug` part: level set, unchanged, or the fatal error |
| Programs.Program.KeepScopesValid | parser.go:69-80 | parse state changes keep all scopes valid |
| Programs.ArenaGrowthKeepsScopeValid | command_line.go:134-148 | appending a record keeps existing scopes valid |
| BuildIds.Format | build_id.go:51-59 | `String`: `vM.m.p`, then `-N-R` when not stable |
| BuildIds.FormatShape | build_id.go:51-59 | a formatted id starts with `v` and contains a dash exactly when it is not stable |
| BuildIds.LowerOrEqualTo | build_id.go:89-119 | lexicographic on major, minor, patch and the commit count (0 when absent); its properties are the lemmas below |
| BuildIds.LowerOrEqualToReflexive | build_id.go:89-119 | every id is lower or equal to itself |
| BuildIds.LowerOrEqualToTotal | build_id.go:89-119 | any two ids are comparable |
| BuildIds.LowerOrEqualToTransitive | build_id.go:89-119 | the order is transitive |
| BuildIds.StableIsLowest | build_id.go:108-118 | a stable id is lowest among builds of the same version, and tied exactly with zero commits |
| BuildIds.RevisionIgnored | build_id.go:108-118 | the revision plays no part in the order |
| BuildIds.SplitNumber | build_id.go:28 | splits after the longest leading run of digits |
| BuildIds.SplitNumberOf | build_id.go:28 | the split of digits followed by a non-digit is exact |
| BuildIds.Recognise | build_id.go:27-36 | a recogniser for the intended grammar (literal periods); proved sound and complete by `RecogniseSound` and `RecogniseComplete` |
| BuildIds.RecogniseSuffixSound | build_id.go:30-35 | an accepted suffix is empty or `-N-R` with a positive count and a revision |
| BuildIds.RecogniseSound | build_id.go:27-36 | everything recognised is in the intended grammar, with these parts |
| BuildIds.RecogniseSuffixComplete | build_id.go:30-35 | every well-formed suffix is recognised with its parts |
| BuildIds.RecogniseComplete | build_id.go:27-36 | everything in the intended grammar is recognised, with exactly its parts |
| BuildIds.ParseFresh | build_id.go:61-79 | `Parse` into a fresh id, over the intended grammar (literal periods): the parts of the match with paired suffix parts, or `invalid format` |
| BuildIds.FromMatch | build_id.go:67-76 | the id of a match is stable exactly when there is no suffix |
| BuildIds.FormatFromMatch | build_id.go:51-59 | formatting the id of a match spells the match |
| BuildIds.ParseFormatRoundTrip | build_id.go:51-79 | parse then format gives back the input |
| BuildIds.FormatParseRoundTrip | build_id.go:51-79 | format then parse gives back every formattable id |
| BuildIds.KnownZeroId | build_id_test.go:31-32 | worked example: `v0.0.0` parses to the expected fields |
| BuildIds.KnownStableId | build_id_test.go:33-34 | worked example: `v1.2.3` parses to the expected fields |
| BuildIds.KnownMultiDigitId | build_id_test.go:35-36 | worked example: `v10.2.314` parses to the expected fields |
| BuildIds.KnownDevelopmentId | build_id_test.go:37-40 | worked example: `v1.2.3-17-f1d2d2f` parses to the expected fields |
| BuildIds.AsWrittenAcceptsAnySeparator | build_id.go:29 | the pattern as written accepts `v1x2x3`, which the intended grammar rejects and which does not round-trip |
| BuildIds.ParseInto | build_id.go:61-79 | intended grammar, suffix kept as written: failure leaves the id unchanged; success replaces the triple, and the suffix only when the input has one |
| BuildIds.AsWrittenKeepsStaleSuffix | build_id.go:71-76 | `v1.2.4` parsed over `v1.2.3-4-abc` gives `v1.2.4-4-abc` |
| BuildIds.EqualAsWritten | build_id.go:81-87 | `Equal` as written: the triple by value, the suffix parts by pointer identity |
| BuildIds.AsWrittenEqualComparesPointers | build_id.go:81-87 | two separate parses of the same development id are not `Equal` as written |
| BuildIds.Equal | build_id.go:81-87 | `Equal` as intended: equality of the values |
| BuildIds.EqualAsWrittenOnSameValue | build_id.go:81-87 | for an id with paired suffix parts, `Equal` as written holds of two copies exactly when the id is stable or both pointers are shared; so copies of a development id with separate pointers are equal by value only |
| BuildIds.EqualAsWrittenWhenShared | build_id.go:81-87 | when pointers are shared exactly when their values agree, `Equal` as written is value equality |
| BuildIds.EqualConsistent | build_id.go:81-119 | value equality is reflexive, implies the order both ways, and includes pointer equality |
| BuildIds.BuildIdVar.constructor | build_id.go:38-45 | the zero value is `v0.0.0`, stable |
| BuildIds.BuildIdVar.Parse | build_id.go:61-79 | over the intended grammar: `invalid format` leaving the id unchanged, or the id updated as `ParseInto` says, an earlier suffix surviving a stable input |

## Left out

- Output and exit: writes to standard error and `os.Exit` become returned lines and an `Ending`. `io.Copy` and buffers are not modelled.
- `os.Args` is a parameter.
- User callbacks (`Main`) are opaque identifiers. `Run` returns the callback instead of calling it.
- `Programs.Program.CommandName`: Go dereferences a nil active command and panics; the model returns the `NoActiveCommand` error.
- `Run` on a program with no main and no command panics on a nil function in Go. The model returns `None`.
- `panic` ends the process in Go. The model returns the error and, for `addOption`, leaves the scope unchanged. Go may already have inserted the short key before it panics on a duplicate long key.
- `%q` escaping is not modelled. `Quote` only adds double quotes, which matches Go for text without quotes, backslashes or control characters.
- `unicode.ToUpper` is restricted to ASCII. Lengths count characters, which match Go's byte lengths only for ASCII text.
- The build-id regular expression is replaced by a hand-written recogniser of the intended grammar, proved sound and complete.
- BuildIds.ParseInto: accepts only the intended grammar, with a literal period between the numbers. Go's pattern also accepts strings such as `v1x2x3`, `v10203` (read as 1.2.3) and `v1.2-3-4-abc` (read as 1.2.3-4-abc); here they give `invalid format`. `AsWrittenAcceptsAnySeparator` records the difference.
- BuildIds.BuildIdVar.Parse: rejects the same extra strings, because it parses as `ParseInto` does.
- BuildIds.Format: requires both suffix parts present or both absent. Go's `String` dereferences a nil pointer, and panics, when only one of `NbCommits` and `Revision` is set; that case is not modelled.
- BuildIds.BuildId: the version numbers and the commit count are naturals. In Go they are exported `int`s that a caller may set negative; `Parse` never produces one.
- BuildIds.StableIsLowest: holds only for non-negative commit counts. With a negative count, Go's `LowerOrEqualTo` ranks that build of a triple below the stable id of the same triple.
- `strconv.Atoi` and `strconv.ParseInt` overflow is not modelled: numbers are unbounded. The debug level keeps the source's range check against `math.MaxInt32`.
- Map iteration order is not modelled. Listings are proved independent of it: they are sorted, and `SortedListingIsOrdered` shows any collection order gives the same result.
- `sort.Slice` and `sort.Strings` are modelled by an insertion sort. Only their result is specified: sorted, and a permutation of the input.
- `usageOptions` de-duplicates records by pointer. The model de-duplicates by value. In a valid scope the two agree, because distinct records have distinct sort keys (`ScopeSortKeysDistinct`).
- The key-map copy loops of `parse` are modelled as the function `Merge`.
- `Programs.Program.ComputeMaxWidth` keeps one running maximum per part (command names, arguments, each option scope) and combines them with `MaxOfUnion`. The source keeps one running maximum across all loops. The result is the same maximum.
- `Programs.Program.ShowHelp` is the loop of `cmdHelp` written as a recursive method over the index of the name.
- `Programs.Program.CmdHelp` returns the error that `mustArgument` panics with when the `help` command lacks its `command` argument. `ParseCommandLine` adds that argument itself, so `ParseWithHelp` proves the error cannot arise there.
- Usage.OptionRowsAligned: alignment is proved when every title fits the width. The width Go reserves fits every title whose short name has at most one character; a longer short name overflows it, as `SignatureFits` shows, and that row is then misaligned.
- Descriptions containing newlines are treated as single lines.
- `Error` and `Fatal` (the exported ones) only write a line and exit. They appear only as the first line of `Fatal` and the unknown-command line of `cmdHelp`.
- `AddFlag` and the exported per-scope `Add*Argument` wrappers are covered by `AddOption` and `AddArgument` with a scope parameter. They are not separate members.

## Findings

| source | as written | input that shows it | evidently intended | confidence | as-written member | corrected member |
|---|---|---|---|---|---|---|
| build_id.go:29 | the version pattern joins the numbers with an unescaped `.`, which matches any character | `v1x2x3` is accepted, as 1.2.3, and formats as `v1.2.3` | a literal period between the numbers | high (not executed) | BuildIds.AsWrittenAcceptsAnySeparator | BuildIds.RecogniseComplete |
| build_id.go:71-76 | `Parse` sets the suffix only when the input has one, so an old suffix survives | `v1.2.4` parsed into an id holding `v1.2.3-4-abc` yields `v1.2.4-4-abc` | the id denotes exactly the parsed text | medium (not executed) | BuildIds.AsWrittenKeepsStaleSuffix | BuildIds.ParseFormatRoundTrip |
| build_id.go:85-86 | `Equal` compares the commit count and revision pointers, not their values | two separate parses of `v1.2.3-17-f1d2d2f` are not `Equal` | equality of the values | high (not executed) | BuildIds.AsWrittenEqualComparesPointers | BuildIds.EqualConsistent |
