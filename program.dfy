/** The `Program` object: registration of commands, options and arguments,
    the accessors a program calls after parsing, the parse itself, usage
    output, dispatch and message gating. */
module Programs {
  import opened Wrappers
  import opened Text
  import opened Schema
  import opened Scanner
  import opened Usage

  /** A scope is consistent with the arena when every key is the short or
      long name of the record it leads to, and every name of such a record
      leads back to it: a record registered under two names is shared by
      both keys. */
  ghost predicate ScopeValid(keys: map<string, nat>, options: seq<OptionRecord>) {
    && InArena(keys, |options|)
    && forall k :: k in keys ==>
         var o := options[keys[k]];
         && k != ""
         && (k == o.shortName || k == o.longName)
         && (o.shortName != "" ==> o.shortName in keys && keys[o.shortName] == keys[k])
         && (o.longName != "" ==> o.longName in keys && keys[o.longName] == keys[k])
  }

  /** The checks of `addOption` for registering `shortName`/`longName` in
      the scope `keys`; `outer` is the global scope when registering for a
      command. */
  function RegisterError(keys: map<string, nat>, outer: Option<map<string, nat>>, shortName: string, longName: string)
    : (r: Option<RegistrationError>)
    ensures r == Some(NoOptionName) <==> shortName == "" && longName == ""
    ensures r.None? ==> (shortName != "" ==> shortName !in keys && (outer.Some? ==> shortName !in outer.value))
    ensures r.None? ==> (longName != "" ==> longName !in keys && longName != shortName && (outer.Some? ==> longName !in outer.value))
    ensures (shortName != "" || longName != "")
            && (shortName != "" ==> shortName !in keys && (outer.Some? ==> shortName !in outer.value))
            && (longName != "" ==> longName !in keys && longName != shortName && (outer.Some? ==> longName !in outer.value))
            ==> r.None?
    ensures r.Some? && r != Some(NoOptionName) ==>
      || (r == Some(DuplicateOption(shortName)) && shortName != "" && (shortName in keys || (outer.Some? && shortName in outer.value)))
      || (r == Some(DuplicateOption(longName)) && longName != ""
          && (longName in keys || longName == shortName || (outer.Some? && longName in outer.value)))
  {
    if shortName == "" && longName == "" then Some(NoOptionName)
    else if shortName != "" && (shortName in keys || (outer.Some? && shortName in outer.value)) then
      Some(DuplicateOption(shortName))
    else if longName != "" && (longName in keys || longName == shortName || (outer.Some? && longName in outer.value)) then
      Some(DuplicateOption(longName))
    else None
  }

  /** A global registration consults only the global scope: a key that a
      command scope already holds can still be registered globally, while
      the same key registered for a command after a global one is refused. */
  lemma GlobalMayReuseCommandKey(globalKeys: map<string, nat>, commandKeys: map<string, nat>, key: string)
    requires key != "" && key in commandKeys && key !in globalKeys
    ensures RegisterError(globalKeys, None, key, "") == None
    ensures RegisterError(commandKeys, Some(globalKeys), key, "") == Some(DuplicateOption(key))
    ensures RegisterError(map[], Some(globalKeys[key := 0]), key, "") == Some(DuplicateOption(key))
  {
  }

  /** `keys` with the non-empty names of a new record added, both leading
      to index `n`. */
  function Register(keys: map<string, nat>, shortName: string, longName: string, n: nat): (r: map<string, nat>)
    ensures r.Keys == keys.Keys + (if shortName != "" then {shortName} else {}) + (if longName != "" then {longName} else {})
  {
    var withShort := if shortName != "" then keys[shortName := n] else keys;
    if longName != "" then withShort[longName := n] else withShort
  }

  /** A registration that passes the checks keeps the scope consistent,
      adds exactly the given names, and leaves every old key where it was. */
  lemma RegisterKeepsScopeValid(keys: map<string, nat>, options: seq<OptionRecord>, o: OptionRecord)
    requires ScopeValid(keys, options)
    requires RegisterError(keys, None, o.shortName, o.longName).None?
    ensures var r := Register(keys, o.shortName, o.longName, |options|);
      && ScopeValid(r, options + [o])
      && (forall k :: k in keys ==> k in r && r[k] == keys[k])
      && (o.shortName != "" ==> r[o.shortName] == |options|)
      && (o.longName != "" ==> r[o.longName] == |options|)
  {
    var n := |options|;
    var ext := options + [o];
    var r := Register(keys, o.shortName, o.longName, n);
    forall k | k in keys ensures k in r && r[k] == keys[k] && ext[r[k]] == options[keys[k]] {
    }
  }

  /** The distinct records of a scope have distinct sort keys, so sorting
      them by key fixes their order. */
  lemma ScopeSortKeysDistinct(keys: map<string, nat>, options: seq<OptionRecord>)
    requires ScopeValid(keys, options)
    ensures InjectiveOn(ScopeRecords(options, keys), SortKey)
  {
    forall a, b | a in ScopeRecords(options, keys) && b in ScopeRecords(options, keys) && SortKey(a) == SortKey(b)
      ensures a == b
    {
      var ka :| ka in keys && keys[ka] < |options| && options[keys[ka]] == a;
      var kb :| kb in keys && keys[kb] < |options| && options[keys[kb]] == b;
      assert keys[SortKey(a)] == keys[ka];
      assert keys[SortKey(b)] == keys[kb];
    }
  }

  /** The default options of every program. */
  function DefaultOptions(): seq<OptionRecord> {
    [ OptionRecord("h", "help", "", "", "print help and exit", false, ""),
      OptionRecord("q", "quiet", "", "", "do not print status and information messages", false, ""),
      OptionRecord("", "debug", "level", "0", "print debug messages", false, "") ]
  }

  function DefaultKeys(): map<string, nat> {
    map["h" := 0, "help" := 0, "q" := 1, "quiet" := 1, "debug" := 2]
  }

  /** A new program, with only the default options, is well formed. */
  lemma DefaultsWellFormed()
    ensures WellFormed(None, map[], DefaultOptions(), DefaultKeys(), [], None)
  {
    var keys, options := DefaultKeys(), DefaultOptions();
    forall k | k in keys
      ensures var o := options[keys[k]];
        && k != "" && (k == o.shortName || k == o.longName)
        && (o.shortName != "" ==> o.shortName in keys && keys[o.shortName] == keys[k])
        && (o.longName != "" ==> o.longName in keys && keys[o.longName] == keys[k])
    {
      assert k == "h" || k == "help" || k == "q" || k == "quiet" || k == "debug";
    }
  }

  /** The `help` command added to every program that has commands. */
  function HelpCommand(): Command {
    Command("help", "print help and exit", BuiltinHelp, map[],
      [NewArgument("command", "the name of the command(s)", TrailingArg)])
  }

  /** How `ParseCommandLine` ends: the program goes on, or the process exits
      with a status after writing lines to standard error. */
  datatype Ending = Proceed | Exit(status: int, output: seq<string>)

  /** `math.MaxInt32`. */
  const MaxInt32: nat := 0x7fff_ffff

  /** `strconv.ParseInt(s, 10, 64)` followed by the range check of
      `ParseCommandLine`: an optional sign, then at least one decimal digit;
      negative values and values above `MaxInt32` are refused (`-0` is 0). */
  function ParseDebugLevel(s: string): (r: Option<nat>)
    ensures r.Some? ==> r.value <= MaxInt32
  {
    var negative := s != "" && s[0] == '-';
    var digits := if s != "" && (s[0] == '+' || s[0] == '-') then s[1..] else s;
    if digits == "" || !AllDigits(digits) then None
    else
      var v := DigitsToNat(digits);
      if negative && v != 0 then None
      else if v > MaxInt32 then None
      else Some(v)
  }

  /** Every level `%d` prints in the accepted range is read back as itself. */
  lemma ParseDebugLevelRoundTrip(n: nat)
    requires n <= MaxInt32
    ensures ParseDebugLevel(NatToString(n)) == Some(n)
    ensures ParseDebugLevel("+" + NatToString(n)) == Some(n)
  {
    NatToStringRoundTrip(n);
    var s := NatToString(n);
    assert s[0] != '+' && s[0] != '-' by { assert IsDigit(s[0]); }
    assert ("+" + s)[1..] == s;
  }

  /** A numeral with an optional sign is accepted exactly when its value is
      in range and, after a minus sign, zero. */
  lemma ParseDebugLevelSigned(sign: string, digits: string)
    requires sign == "" || sign == "+" || sign == "-"
    requires digits != "" && AllDigits(digits)
    ensures var v := DigitsToNat(digits);
      ParseDebugLevel(sign + digits) == if v <= MaxInt32 && (sign == "-" ==> v == 0) then Some(v) else None
  {
    var s := sign + digits;
    if sign == "" {
      assert s == digits && IsDigit(s[0]);
    } else {
      assert s[0] == sign[0] && s[1..] == digits;
    }
  }

  /** Nothing else is accepted: an accepted text is a sign or a digit
      followed by digits. */
  lemma ParseDebugLevelShape(s: string)
    requires ParseDebugLevel(s).Some?
    ensures s != "" && (s[0] == '+' || s[0] == '-' || IsDigit(s[0])) && AllDigits(s[1..])
  {
  }

  /** Writing parse state into the arena keeps every scope valid. */
  lemma SameNamesKeepScopeValid(keys: map<string, nat>, a: seq<OptionRecord>, b: seq<OptionRecord>)
    requires ScopeValid(keys, a) && SameNames(a, b)
    ensures ScopeValid(keys, b)
  {
    forall k | k in keys ensures b[keys[k]].shortName == a[keys[k]].shortName && b[keys[k]].longName == a[keys[k]].longName {
    }
  }

  /** `parseArguments` on the list `list`, returning the list with the
      parse state written and the tokens left over. */
  method ParseArguments(toks: seq<string>, list: seq<Argument>)
    returns (bound: seq<Argument>, rest: seq<string>, err: Option<UsageError>)
    ensures BindArguments(list, toks) == ArgumentScan(bound, rest, err)
  {
    bound, rest, err := list, toks, None;
    if |list| == 0 {
      return;
    }
    // Mandatory arguments
    var min := 0;
    while min < |list| && !(list[min].optional || list[min].trailing)
      invariant 0 <= min <= |list|
      invariant forall k :: 0 <= k < min ==> list[k].Mandatory()
    {
      min := min + 1;
    }
    assert min == LeadingMandatory(list) by {
      var m := LeadingMandatory(list);
      assert min < |list| ==> !list[min].Mandatory();
      assert m < |list| ==> !list[m].Mandatory();
    }
    if |toks| < min {
      err := Some(MissingArguments);
      return;
    }
    var i := 0;
    while i < min
      invariant 0 <= i <= min
      invariant bound == Bound(list, toks, i)
    {
      bound := bound[i := bound[i].(isSet := true, value := toks[i])];
      i := i + 1;
    }
    rest := toks[min..];
    // Optional arguments
    ghost var filled := FillOptional(Bound(list, toks, min), min, toks[min..]);
    var trailing: Option<nat> := None;
    var j := min;
    while j < |list|
      invariant min <= j <= |list| && |bound| == |list|
      invariant FillOptional(bound, j, rest) == filled
      invariant trailing.None?
    {
      if |rest| == 0 {
        break;
      }
      if bound[j].trailing {
        trailing := Some(j);
        break;
      }
      bound := bound[j := bound[j].(isSet := true, value := rest[0])];
      rest := rest[1..];
      j := j + 1;
    }
    assert filled == (bound, rest, trailing);
    // Trailing argument
    if trailing.Some? {
      bound := bound[trailing.value := bound[trailing.value].(trailingValues := rest)];
      rest := [];
    } else if |rest| > 0 {
      err := Some(TooManyArguments);
    }
  }

  /** The loop of `parseOptions` over the arena `opts`. */
  method ScanArena(opts0: seq<OptionRecord>, table: map<string, nat>, args: seq<string>)
    returns (opts: seq<OptionRecord>, rest: seq<string>, err: Option<UsageError>)
    requires InArena(table, |opts0|)
    ensures ScanOptions(opts0, table, args) == OptionScan(opts, rest, err)
  {
    opts, rest := opts0, args;
    while rest != []
      invariant |opts| == |opts0|
      invariant ScanOptions(opts, table, rest) == ScanOptions(opts0, table, args)
      decreases |rest|
    {
      var arg := rest[0];
      var isShort := |arg| == 2 && arg[0] == '-' && arg[1] != '-';
      var isLong := |arg| > 2 && arg[..2] == "--";
      if arg == "--" || !(isShort || isLong) {
        break;
      }
      var key := Key(arg);
      if key !in table {
        return opts, rest, Some(UnknownOption(key));
      }
      var i := table[key];
      opts := opts[i := opts[i].(isSet := true)];
      if opts[i].valueName == "" {
        rest := rest[1..];
      } else {
        if |rest| < 2 {
          return opts, rest, Some(MissingValue(key));
        }
        opts := opts[i := opts[i].(value := rest[1])];
        rest := rest[2..];
      }
    }
    err := None;
  }

  /** `w` is the largest element of `s`, or 0 when `s` is empty. */
  ghost predicate IsMaxOf(w: nat, s: set<nat>) {
    (forall x :: x in s ==> x <= w) && (w == 0 || w in s)
  }

  /** The larger of two maxima is the maximum of the union. */
  method MaxOfUnion(w1: nat, ghost s1: set<nat>, w2: nat, ghost s2: set<nat>) returns (w: nat)
    requires IsMaxOf(w1, s1) && IsMaxOf(w2, s2)
    ensures IsMaxOf(w, s1 + s2)
    ensures w == if w2 > w1 then w2 else w1
  {
    w := w1;
    if w2 > w {
      w := w2;
    }
  }

  /** The widths of the argument names. */
  ghost function ArgumentWidths(args: seq<Argument>): set<nat> {
    set a | a in args :: |a.name|
  }

  /** The argument loop of `computeMaxWidth`. */
  method ArgumentsWidth(args: seq<Argument>) returns (w: nat)
    ensures IsMaxOf(w, ArgumentWidths(args))
  {
    w := 0;
    var i := 0;
    while i < |args|
      invariant 0 <= i <= |args|
      invariant forall k :: 0 <= k < i ==> |args[k].name| <= w
      invariant w == 0 || w in ArgumentWidths(args)
    {
      if |args[i].name| > w {
        w := |args[i].name|;
      }
      i := i + 1;
    }
  }

  /** The first line of `PrintUsage`. */
  method UsageHead(shown: string, listCommands: bool, args: seq<Argument>) returns (head: string)
    ensures head == UsageLine(shown, listCommands, args)
  {
    if listCommands {
      head := "Usage: " + shown + " OPTIONS <command>";
    } else {
      var synopsis := ArgumentSynopsis(args);
      head := "Usage: " + shown + " OPTIONS" + synopsis;
    }
  }

  /** The argument synopsis of `PrintUsage`, built token by token. */
  method ArgumentSynopsis(args: seq<Argument>) returns (synopsis: string)
    ensures synopsis == Synopsis(args)
  {
    synopsis := "";
    var i := 0;
    while i < |args|
      invariant 0 <= i <= |args|
      invariant synopsis == Synopsis(args[..i])
    {
      assert args[..i + 1][..i] == args[..i];
      synopsis := synopsis + ArgumentToken(args[i]);
      i := i + 1;
    }
    assert args[..i] == args;
  }

  /** The row loop of `usageCommands`. */
  method CommandTable(names: seq<string>, commands: map<string, Command>, width: nat) returns (rows: seq<string>)
    requires forall n :: n in names ==> n in commands
    ensures rows == CommandRows(names, commands, width)
  {
    rows := [];
    var i := 0;
    while i < |names|
      invariant 0 <= i <= |names|
      invariant |rows| == i
      invariant forall j :: 0 <= j < i ==> rows[j] == Row(names[j], width, commands[names[j]].description)
    {
      rows := rows + [Row(names[i], width, commands[names[i]].description)];
      i := i + 1;
    }
  }

  /** The row loop of `usageOptions`. */
  method OptionTable(records: seq<OptionRecord>, width: nat) returns (rows: seq<string>)
    ensures rows == OptionRows(records, width)
  {
    rows := [];
    var i := 0;
    while i < |records|
      invariant 0 <= i <= |records|
      invariant |rows| == i
      invariant forall j :: 0 <= j < i ==> rows[j] == OptionRow(records[j], width)
    {
      rows := rows + [OptionRow(records[i], width)];
      i := i + 1;
    }
  }

  /** The commands once `addDefaultCommands` has run, which it does only for
    a program with commands. */
  function WithHelp(commands: map<string, Command>): (r: map<string, Command>)
    ensures commands != map[] ==> r.Keys == commands.Keys + {"help"} && r["help"] == HelpCommand()
    ensures commands == map[] ==> r == commands
  {
    if commands == map[] then commands else commands["help" := HelpCommand()]
  }

  /** The status `cmdHelp` exits with for `names[i..]`: 1 at the first name
    that is not a command, else 0. */
  function HelpExit(names: seq<string>, known: set<string>, i: nat): int
    requires i <= |names|
    decreases |names| - i
  {
    if i == |names| then 0
    else if names[i] !in known then 1
    else HelpExit(names, known, i + 1)
  }

  /** What `cmdHelp` writes for `names[i..]`, `texts[j]` being the usage
    text of `names[j]`: the usage of each name in turn, two empty lines
    between two of them, and an error at the first name that is not a
    command, where it stops. */
  function HelpText(names: seq<string>, known: set<string>, texts: seq<seq<string>>, i: nat): seq<string>
    requires i <= |names| == |texts|
    decreases |names| - i
  {
    if i == |names| then []
    else
      var separator := if i > 0 then ["", ""] else [];
      if names[i] !in known then separator + ["error: unknown command " + Quote(names[i])]
      else separator + texts[i] + HelpText(names, known, texts, i + 1)
  }

  /** The output written name after name from the left, as the loop of
    `cmdHelp` writes it, for the first `i` names, all known. */
  function HelpPrefix(names: seq<string>, texts: seq<seq<string>>, i: nat): seq<string>
    requires i <= |names| == |texts|
  {
    if i == 0 then []
    else HelpPrefix(names, texts, i - 1) + (if i > 1 then ["", ""] else []) + texts[i - 1]
  }

  /** The text for `names[i..]` completes the prefix for `names[..i]`. */
  lemma {:induction false} HelpPrefixThenText(names: seq<string>, known: set<string>, texts: seq<seq<string>>, i: nat)
    requires i <= |names| == |texts|
    requires forall j :: 0 <= j < i ==> names[j] in known
    ensures HelpPrefix(names, texts, i) + HelpText(names, known, texts, i) == HelpText(names, known, texts, 0)
    decreases i
  {
    if i > 0 {
      HelpPrefixThenText(names, known, texts, i - 1);
      var p := HelpPrefix(names, texts, i - 1);
      var sep: seq<string> := if i > 1 then ["", ""] else [];
      var t := HelpText(names, known, texts, i);
      assert HelpText(names, known, texts, i - 1) == sep + texts[i - 1] + t;
      assert p + (sep + texts[i - 1] + t) == (p + sep + texts[i - 1]) + t;
    }
  }

  /** When every name is known, `cmdHelp` writes the whole text. */
  lemma HelpListsAll(names: seq<string>, known: set<string>, texts: seq<seq<string>>)
    requires |names| == |texts|
    requires forall j :: 0 <= j < |names| ==> names[j] in known
    ensures HelpPrefix(names, texts, |names|) == HelpText(names, known, texts, 0)
  {
    HelpPrefixThenText(names, known, texts, |names|);
  }

  /** At the first unknown name, `cmdHelp` writes the error and stops. */
  lemma HelpStopsAtUnknown(names: seq<string>, known: set<string>, texts: seq<seq<string>>, i: nat)
    requires i < |names| == |texts| && names[i] !in known
    requires forall j :: 0 <= j < i ==> names[j] in known
    ensures HelpPrefix(names, texts, i) + (if i > 0 then ["", ""] else [])
      + ["error: unknown command " + Quote(names[i])] == HelpText(names, known, texts, 0)
  {
    HelpPrefixThenText(names, known, texts, i);
  }

  /** `cmdHelp` fails exactly when one of the names is unknown. */
  lemma {:induction false} HelpExitMeaning(names: seq<string>, known: set<string>, i: nat)
    requires i <= |names|
    ensures HelpExit(names, known, i) == 1 <==> exists j :: i <= j < |names| && names[j] !in known
    ensures HelpExit(names, known, i) == 0 <==> forall j :: i <= j < |names| ==> names[j] in known
    decreases |names| - i
  {
    if i < |names| && names[i] in known {
      HelpExitMeaning(names, known, i + 1);
      forall j | i <= j < |names| && names[j] !in known ensures i + 1 <= j {
      }
    }
  }

  /** `%q` of a string without characters that need escaping. */
  function Quote(s: string): string {
    "\"" + s + "\""
  }

  /** The text of a usage error, as `fatal` formats it. */
  function Message(err: UsageError): string {
    match err
    case UnknownOption(key) => "unknown option " + Quote(key)
    case MissingValue(key) => "missing value for option " + Quote(key)
    case MissingCommand => "missing command"
    case UnknownCommand(name) => "unknown command " + Quote(name)
    case MissingArguments => "missing argument(s)"
    case TooManyArguments => "too many arguments"
    case InvalidDebugLevel(text) => "invalid debug level " + text
  }

  /** The first and ninth characters of each message, which tell the kinds
      of error apart. */
  function HeadOf(err: UsageError): (char, char) {
    match err
    case UnknownOption(_) => ('u', 'o')
    case MissingValue(_) => ('m', 'v')
    case MissingCommand => ('m', 'c')
    case UnknownCommand(_) => ('u', 'c')
    case MissingArguments => ('m', 'a')
    case TooManyArguments => ('t', ' ')
    case InvalidDebugLevel(_) => ('i', 'd')
  }

  lemma MessageHead(err: UsageError)
    ensures |Message(err)| > 8 && (Message(err)[0], Message(err)[8]) == HeadOf(err)
  {
  }

  /** A prefix followed by a quoted text determines the text. */
  lemma QuotedTail(prefix: string, a: string, b: string)
    requires prefix + Quote(a) == prefix + Quote(b)
    ensures a == b
  {
    var m := prefix + Quote(a);
    assert a == m[|prefix| + 1..|m| - 1];
    assert b == (prefix + Quote(b))[|prefix| + 1..|m| - 1];
  }

  /** Distinct usage errors have distinct texts: the message `fatal` writes
      names the error and the key, command or level it concerns. */
  lemma {:induction false} MessageInjective(e1: UsageError, e2: UsageError)
    requires Message(e1) == Message(e2)
    ensures e1 == e2
  {
    MessageHead(e1);
    MessageHead(e2);
    assert HeadOf(e1) == HeadOf(e2);
    match e1
    case UnknownOption(key) =>
      QuotedTail("unknown option ", key, e2.key);
    case MissingValue(key) =>
      QuotedTail("missing value for option ", key, e2.key);
    case UnknownCommand(name) =>
      QuotedTail("unknown command ", name, e2.name);
    case InvalidDebugLevel(text) =>
      var m := Message(e1);
      assert text == m[20..];
      assert e2.text == Message(e2)[20..];
    case _ =>
  }

  /** `args[k]` is the first argument called `name`. */
  predicate FirstNamed(args: seq<Argument>, name: string, k: nat) {
    k < |args| && args[k].name == name && forall j :: 0 <= j < k ==> args[j].name != name
  }

  /** The invariant of a program: every scope leads into the arena and is
      closed under the short and long names of its options, every command is
      registered under its own name with a well-shaped argument list, a main
      callback excludes commands, the selected command exists, and the
      default options are registered. */
  ghost predicate WellFormed(
    main: Option<nat>, commands: map<string, Command>, options: seq<OptionRecord>,
    globalKeys: map<string, nat>, arguments: seq<Argument>, command: Option<string>)
  {
    && ScopeValid(globalKeys, options)
    && (forall c :: c in commands ==>
          && ScopeValid(commands[c].optionKeys, options)
          && WellShaped(commands[c].arguments)
          && commands[c].name == c)
    && WellShaped(arguments)
    && (main.Some? ==> commands == map[])
    && (command.Some? ==> command.value in commands)
    && (forall k :: k in DefaultKeys() ==> k in globalKeys)
  }

  class Program {
    var name: string
    var description: string
    var main: Option<nat>
    var commands: map<string, Command>
    /** The arena of option records; scopes map keys to indices into it. */
    var options: seq<OptionRecord>
    var globalKeys: map<string, nat>
    var arguments: seq<Argument>
    /** The command selected by the parse, by name. */
    var command: Option<string>
    var verbose: bool
    var debugLevel: int

    ghost predicate Valid()
      reads this`description, this`main, this`commands, this`options, this`globalKeys, this`arguments, this`command
    {
      WellFormed(main, commands, options, globalKeys, arguments, command)
    }

    /** `NewProgram`: no commands, no arguments, and the default options
      `-h/--help`, `-q/--quiet` and `--debug <level>` (default `0`). */
    constructor (name: string, description: string)
      ensures Valid()
      ensures this.name == name && this.description == description
      ensures main.None? && commands == map[] && arguments == [] && command.None?
      ensures options == DefaultOptions() && globalKeys == DefaultKeys()
      ensures !verbose && debugLevel == 0
    {
      this.name := name;
      this.description := description;
      main := None;
      commands := map[];
      options := DefaultOptions();
      globalKeys := DefaultKeys();
      arguments := [];
      command := None;
      verbose := false;
      debugLevel := 0;
      DefaultsWellFormed();
    }

    /** `SetMain`: refused once commands exist. */
    method SetMain(callback: nat) returns (err: Option<RegistrationError>)
      requires Valid()
      modifies this
      ensures Valid()
      ensures err.Some? <==> old(commands) != map[]
      ensures err.Some? ==> err.value == MainWithCommands && main == old(main)
      ensures err.None? ==> main == Some(callback)
      ensures name == old(name) && description == old(description) && commands == old(commands)
      ensures options == old(options) && globalKeys == old(globalKeys) && arguments == old(arguments)
      ensures command == old(command) && verbose == old(verbose) && debugLevel == old(debugLevel)
    {
      if commands != map[] {
        return Some(MainWithCommands);
      }
      main := Some(callback);
      return None;
    }

    /** `AddCommand`: refused when a main function is set; a command of the
      same name is replaced. */
    method AddCommand(commandName: string, commandDescription: string, callback: Callback)
      returns (err: Option<RegistrationError>)
      requires Valid()
      modifies this
      ensures Valid()
      ensures err.Some? <==> old(main).Some?
      ensures err.Some? ==> err.value == MainWithCommands && commands == old(commands)
      ensures err.None? ==>
        commands == old(commands)[commandName := Command(commandName, commandDescription, callback, map[], [])]
      ensures name == old(name) && description == old(description) && main == old(main)
      ensures options == old(options) && globalKeys == old(globalKeys) && arguments == old(arguments)
      ensures command == old(command) && verbose == old(verbose) && debugLevel == old(debugLevel)
    {
      if main.Some? {
        return Some(MainWithCommands);
      }
      commands := commands[commandName := Command(commandName, commandDescription, callback, map[], [])];
      return None;
    }

    /** The option keys of `scope`: the global table or a command's. */
    function ScopeKeys(scope: Option<string>): map<string, nat>
      requires scope.Some? ==> scope.value in commands
      reads this`description, this`main, this`commands, this`options, this`globalKeys, this`arguments, this`command
    {
      if scope.None? then globalKeys else commands[scope.value].optionKeys
    }

    /** `AddOption`/`AddFlag` of `Program` (scope None) and of `Command`
      (`addOption`): a record with at least one name, each name new to the
      scope and, for a command, new to the global scope; the long name must
      also differ from the short one. On success the record is appended to
      the arena and its names lead to it. */
    method AddOption(scope: Option<string>, shortName: string, longName: string,
                     valueName: string, defaultValue: string, optionDescription: string)
      returns (err: Option<RegistrationError>)
      requires Valid() && (scope.Some? ==> scope.value in commands)
      modifies this
      ensures Valid()
      ensures err == RegisterError(old(ScopeKeys(scope)), if scope.Some? then Some(old(globalKeys)) else None,
                                   shortName, longName)
      ensures err.Some? ==> options == old(options) && globalKeys == old(globalKeys) && commands == old(commands)
      ensures err.None? ==>
        var n := |old(options)|;
        && options == old(options) + [OptionRecord(shortName, longName, valueName, defaultValue, optionDescription, false, "")]
        && (scope.None? ==> globalKeys == Register(old(globalKeys), shortName, longName, n) && commands == old(commands))
        && (scope.Some? ==>
              globalKeys == old(globalKeys)
              && commands == old(commands)[scope.value := old(commands)[scope.value].(
                   optionKeys := Register(old(commands)[scope.value].optionKeys, shortName, longName, n))])
      ensures name == old(name) && description == old(description) && main == old(main)
      ensures arguments == old(arguments)
      ensures command == old(command) && verbose == old(verbose) && debugLevel == old(debugLevel)
    {
      var outer := if scope.Some? then Some(globalKeys) else None;
      var keys := ScopeKeys(scope);
      err := RegisterError(keys, outer, shortName, longName);
      if err.Some? {
        return;
      }
      var o := OptionRecord(shortName, longName, valueName, defaultValue, optionDescription, false, "");
      var n := |options|;
      assert RegisterError(keys, None, shortName, longName).None?;
      RegisterKeepsScopeValid(keys, options, o);
      var registered := Register(keys, shortName, longName, n);
      ghost var oldOptions := options;
      options := options + [o];
      if scope.None? {
        forall c | c in commands ensures ScopeValid(commands[c].optionKeys, options) {
          ArenaGrowthKeepsScopeValid(commands[c].optionKeys, oldOptions, o);
        }
        globalKeys := registered;
      } else {
        ArenaGrowthKeepsScopeValid(globalKeys, oldOptions, o);
        forall c | c in commands && c != scope.value ensures ScopeValid(commands[c].optionKeys, options) {
          ArenaGrowthKeepsScopeValid(commands[c].optionKeys, oldOptions, o);
        }
        commands := commands[scope.value := commands[scope.value].(optionKeys := registered)];
      }
    }

    /** The argument list of `scope`. */
    function ScopeArguments(scope: Option<string>): seq<Argument>
      requires scope.Some? ==> scope.value in commands
      reads this`description, this`main, this`commands, this`options, this`globalKeys, this`arguments, this`command
    {
      if scope.None? then arguments else commands[scope.value].arguments
    }

    /** `AddArgument`, `AddOptionalArgument` and `AddTrailingArgument` of
      `Program` (scope None) and `Command`: the check on the last argument,
      then an append. */
    method AddArgument(scope: Option<string>, argumentName: string, argumentDescription: string, kind: ArgumentKind)
      returns (err: Option<RegistrationError>)
      requires Valid() && (scope.Some? ==> scope.value in commands)
      modifies this
      ensures Valid()
      ensures err == CheckAppend(old(ScopeArguments(scope)), kind)
      ensures err.Some? ==> arguments == old(arguments) && commands == old(commands)
      ensures err.None? ==>
        var a := NewArgument(argumentName, argumentDescription, kind);
        && (scope.None? ==> arguments == old(arguments) + [a] && commands == old(commands))
        && (scope.Some? ==>
              arguments == old(arguments)
              && commands == old(commands)[scope.value := old(commands)[scope.value].(
                   arguments := old(commands)[scope.value].arguments + [a])])
      ensures name == old(name) && description == old(description) && main == old(main)
      ensures options == old(options) && globalKeys == old(globalKeys)
      ensures command == old(command) && verbose == old(verbose) && debugLevel == old(debugLevel)
    {
      var list := ScopeArguments(scope);
      err := CheckAppend(list, kind);
      if err.Some? {
        return;
      }
      var a := NewArgument(argumentName, argumentDescription, kind);
      CheckAppendExact(list, argumentName, argumentDescription, kind);
      if scope.None? {
        arguments := arguments + [a];
      } else {
        commands := commands[scope.value := commands[scope.value].(arguments := list + [a])];
      }
    }

    /** `mustOption`: the active command's scope first, then the global one. */
    function FindOption(key: string): (r: Option<nat>)
      requires Valid()
      reads this`description, this`main, this`commands, this`options, this`globalKeys, this`arguments, this`command
      ensures r.Some? ==> r.value < |options| && (options[r.value].shortName == key || options[r.value].longName == key)
      ensures r.None? <==> key !in globalKeys && (command.None? || key !in commands[command.value].optionKeys)
      ensures command.None? ==> r == (if key in globalKeys then Some(globalKeys[key]) else None)
      ensures command.Some? && key in commands[command.value].optionKeys ==> r == Some(commands[command.value].optionKeys[key])
      ensures (command.None? || key !in commands[command.value].optionKeys) && key in globalKeys ==> r == Some(globalKeys[key])
    {
      if command.Some? && key in commands[command.value].optionKeys then Some(commands[command.value].optionKeys[key])
      else if key in globalKeys then Some(globalKeys[key])
      else None
    }

    /** `CommandName`: the name of the command the parse selected. Without
      registered commands the source panics with "no command defined";
      with commands but none selected yet, its nil command pointer is
      dereferenced, which panics too. */
    function CommandName(): (r: Result<string, RegistrationError>)
      requires Valid()
      reads this`description, this`main, this`commands, this`options, this`globalKeys, this`arguments, this`command
      ensures r.Failure? <==> commands == map[] || command.None?
      ensures commands == map[] ==> r == Failure(NoCommandDefined)
      ensures r.Success? ==> command == Some(r.value) && r.value in commands && commands[r.value].name == r.value
    {
      if commands == map[] then Failure(NoCommandDefined)
      else if command.None? then Failure(NoActiveCommand)
      else Success(command.value)
    }

    /** `IsOptionSet`; an unknown name is a programming error. */
    function IsOptionSet(key: string): (r: Result<bool, RegistrationError>)
      requires Valid()
      reads this`description, this`main, this`commands, this`options, this`globalKeys, this`arguments, this`command
      ensures r.Failure? <==> FindOption(key).None?
      ensures r.Failure? ==> r.error == UnknownOptionName(key)
      ensures r.Success? ==> r.value == options[FindOption(key).value].isSet
    {
      match FindOption(key)
      case None => Failure(UnknownOptionName(key))
      case Some(i) => Success(options[i].isSet)
    }

    /** `OptionValue`: the value given on the command line, or the default
      when the option was not given. */
    function OptionValue(key: string): (r: Result<string, RegistrationError>)
      requires Valid()
      reads this`description, this`main, this`commands, this`options, this`globalKeys, this`arguments, this`command
      ensures r.Failure? <==> FindOption(key).None?
      ensures r.Failure? ==> r.error == UnknownOptionName(key)
      ensures r.Success? ==>
        var o := options[FindOption(key).value];
        r.value == if o.isSet then o.value else o.defaultValue
    {
      match FindOption(key)
      case None => Failure(UnknownOptionName(key))
      case Some(i) => if options[i].isSet then Success(options[i].value) else Success(options[i].defaultValue)
    }

    /** The arguments in view: the active command's, or the program's. */
    function ActiveArguments(): seq<Argument>
      requires Valid()
      reads this`description, this`main, this`commands, this`options, this`globalKeys, this`arguments, this`command
    {
      if command.None? then arguments else commands[command.value].arguments
    }

    /** `mustArgument`: the first argument in view with that name. */
    method MustArgument(argumentName: string) returns (r: Result<nat, RegistrationError>)
      requires Valid()
      ensures r.Success? ==> FirstNamed(ActiveArguments(), argumentName, r.value)
      ensures r.Failure? ==>
        r.error == UnknownArgumentName(argumentName)
        && forall k :: 0 <= k < |ActiveArguments()| ==> ActiveArguments()[k].name != argumentName
    {
      var args := if command.None? then arguments else commands[command.value].arguments;
      var i := 0;
      while i < |args|
        invariant 0 <= i <= |args|
        invariant forall k :: 0 <= k < i ==> args[k].name != argumentName
      {
        if args[i].name == argumentName {
          return Success(i);
        }
        i := i + 1;
      }
      return Failure(UnknownArgumentName(argumentName));
    }

    /** `ArgumentValue`. */
    method ArgumentValue(argumentName: string) returns (r: Result<string, RegistrationError>)
      requires Valid()
      ensures r.Success? <==> exists k :: 0 <= k < |ActiveArguments()| && ActiveArguments()[k].name == argumentName
      ensures r.Success? ==>
        exists k: nat :: FirstNamed(ActiveArguments(), argumentName, k) && ActiveArguments()[k].value == r.value
      ensures r.Failure? ==> r.error == UnknownArgumentName(argumentName)
    {
      var found := MustArgument(argumentName);
      match found
      case Failure(e) => r := Failure(e);
      case Success(k) => r := Success(ActiveArguments()[k].value);
    }

    /** `TrailingArgumentValues`. */
    method TrailingArgumentValues(argumentName: string) returns (r: Result<seq<string>, RegistrationError>)
      requires Valid()
      ensures r.Success? <==> exists k :: 0 <= k < |ActiveArguments()| && ActiveArguments()[k].name == argumentName
      ensures r.Success? ==>
        exists k: nat :: FirstNamed(ActiveArguments(), argumentName, k) && ActiveArguments()[k].trailingValues == r.value
      ensures r.Failure? ==> r.error == UnknownArgumentName(argumentName)
    {
      var found := MustArgument(argumentName);
      match found
      case Failure(e) => r := Failure(e);
      case Success(k) => r := Success(ActiveArguments()[k].trailingValues);
    }

    /** `parseOptions` against the scope `table`: the arena gets the parse
      state `ScanOptions` describes. */
    method ParseOptions(args: seq<string>, table: map<string, nat>) returns (rest: seq<string>, err: Option<UsageError>)
      requires InArena(table, |options|)
      modifies this
      ensures var r := ScanOptions(old(options), table, args);
        options == r.options && rest == r.rest && err == r.error
      ensures name == old(name) && description == old(description) && main == old(main)
      ensures commands == old(commands) && globalKeys == old(globalKeys) && arguments == old(arguments)
      ensures command == old(command) && verbose == old(verbose) && debugLevel == old(debugLevel)
    {
      options, rest, err := ScanArena(options, table, args);
    }

    /** `parseCommand`: the next token must name a registered command, which
      becomes the active one. */
    method ParseCommand(args: seq<string>) returns (rest: seq<string>, err: Option<UsageError>)
      requires Valid()
      modifies this
      ensures Valid()
      ensures args == [] ==> err == Some(MissingCommand) && command == old(command)
      ensures args != [] && args[0] !in commands ==> err == Some(UnknownCommand(args[0])) && command == old(command)
      ensures args != [] && args[0] in commands ==> err.None? && command == Some(args[0]) && rest == args[1..]
      ensures name == old(name) && description == old(description) && main == old(main)
      ensures commands == old(commands) && options == old(options) && globalKeys == old(globalKeys)
      ensures arguments == old(arguments) && verbose == old(verbose) && debugLevel == old(debugLevel)
    {
      if |args| == 0 {
        return args, Some(MissingCommand);
      }
      var commandName := args[0];
      if commandName !in commands {
        return args, Some(UnknownCommand(commandName));
      }
      command := Some(commandName);
      return args[1..], None;
    }

    /** `parse`: the new state is the one `ParseSpec` describes. */
    method Parse(args: seq<string>) returns (err: Option<UsageError>)
      requires Valid() && command.None?
      modifies this
      ensures Valid()
      ensures var p := ParseSpec(old(options), old(globalKeys), old(commands), old(arguments), args);
        && options == p.options && command == p.command && commands == p.commands
        && arguments == p.arguments && err == p.error
      ensures name == old(name) && description == old(description) && main == old(main)
      ensures globalKeys == old(globalKeys) && verbose == old(verbose) && debugLevel == old(debugLevel)
    {
      ghost var before := options;
      LaterScanKeepsKinds(options, globalKeys, args);
      var rest;
      rest, err := ParseOptions(args, globalKeys);
      KeepScopesValid(before);
      if err.Some? {
        return;
      }
      var help := IsOptionSet("help");
      if help.value {
        return;
      }
      if commands != map[] {
        err := ParseCommandPhase(rest);
      } else {
        var bound;
        BindKeepsDeclarations(arguments, rest);
        bound, rest, err := ParseArguments(rest, arguments);
        arguments := bound;
      }
    }

    /** The command half of `parse`. */
    method ParseCommandPhase(args: seq<string>) returns (err: Option<UsageError>)
      requires Valid() && command.None?
      modifies this
      ensures Valid()
      ensures var p := CommandPhase(old(options), old(globalKeys), old(commands), old(arguments), args);
        && options == p.options && command == p.command && commands == p.commands
        && arguments == p.arguments && err == p.error
      ensures name == old(name) && description == old(description) && main == old(main)
      ensures globalKeys == old(globalKeys) && verbose == old(verbose) && debugLevel == old(debugLevel)
    {
      var rest;
      rest, err := ParseCommand(args);
      if err.Some? {
        return;
      }
      err := ParseSelected(rest);
    }

    /** The command half of `parse` once `parseCommand` has recognised the
      command: its options, then its arguments. */
    method ParseSelected(args: seq<string>) returns (err: Option<UsageError>)
      requires Valid() && command.Some?
      modifies this
      ensures Valid()
      ensures var p := SelectedCommand(old(options), old(globalKeys), old(commands), old(arguments), old(command).value, args);
        && options == p.options && command == p.command && commands == p.commands
        && arguments == p.arguments && err == p.error
      ensures name == old(name) && description == old(description) && main == old(main)
      ensures globalKeys == old(globalKeys) && verbose == old(verbose) && debugLevel == old(debugLevel)
    {
      var commandName := command.value;
      var cmd := commands[commandName];
      var merged := Merge(globalKeys, cmd.optionKeys);
      ghost var middle := options;
      LaterScanKeepsKinds(options, merged, args);
      var rest;
      rest, err := ParseOptions(args, merged);
      KeepScopesValid(middle);
      if err.Some? {
        return;
      }
      var bound;
      BindKeepsDeclarations(cmd.arguments, rest);
      bound, rest, err := ParseArguments(rest, cmd.arguments);
      commands := commands[commandName := cmd.(arguments := bound)];
    }

    // -------------------------------------------------------------------
    // Usage

    /** The command in view, if any. */
    function ViewCommand(view: Option<string>): Option<Command>
      requires view.Some? ==> view.value in commands
      reads this`description, this`main, this`commands, this`options, this`globalKeys, this`arguments, this`command
    {
      if view.None? then None else Some(commands[view.value])
    }

    function ViewArguments(view: Option<string>): seq<Argument>
      requires view.Some? ==> view.value in commands
      reads this`description, this`main, this`commands, this`options, this`globalKeys, this`arguments, this`command
    {
      if view.None? then arguments else commands[view.value].arguments
    }

    /** The widths of all command names. */
    ghost function NameWidths(): set<nat>
      reads this`description, this`main, this`commands, this`options, this`globalKeys, this`arguments, this`command
    {
      set c | c in commands :: |commands[c].name|
    }

    /** The reserved widths of the options of one scope. */
    ghost function OptionWidths(keys: map<string, nat>): set<nat>
      reads this`description, this`main, this`commands, this`options, this`globalKeys, this`arguments, this`command
    {
      set o | o in ScopeRecords(options, keys) :: SignatureWidth(o)
    }

    /** Every width the usage of `view` has to leave room for: all command
      names (even in a command's view), the argument names in view and the
      reserved width of every option in the global and, for a command, the
      command's scope. */
    ghost function Widths(view: Option<string>): set<nat>
      requires view.Some? ==> view.value in commands
      reads this`description, this`main, this`commands, this`options, this`globalKeys, this`arguments, this`command
    {
      NameWidths() + ArgumentWidths(ViewArguments(view)) + OptionWidths(globalKeys)
      + (if view.Some? then OptionWidths(commands[view.value].optionKeys) else {})
    }

    /** `computeMaxWidth`: the largest of `Widths(view)`. */
    method ComputeMaxWidth(view: Option<string>) returns (w: nat)
      requires Valid() && (view.Some? ==> view.value in commands)
      ensures IsMaxOf(w, Widths(view))
      ensures w == SetMax(Widths(view))
    {
      var names := CommandNamesWidth();
      var args := if view.None? then arguments else commands[view.value].arguments;
      var argumentsWidth := ArgumentsWidth(args);
      w := MaxOfUnion(names, NameWidths(), argumentsWidth, ArgumentWidths(args));
      var globalWidth := ScopeWidth(globalKeys);
      w := MaxOfUnion(w, NameWidths() + ArgumentWidths(args), globalWidth, OptionWidths(globalKeys));
      if view.Some? {
        var commandWidth := ScopeWidth(commands[view.value].optionKeys);
        w := MaxOfUnion(w, NameWidths() + ArgumentWidths(args) + OptionWidths(globalKeys),
                        commandWidth, OptionWidths(commands[view.value].optionKeys));
      }
      SetMaxUnique(Widths(view), w);
    }

    /** The command-name loop of `computeMaxWidth`. */
    method CommandNamesWidth() returns (w: nat)
      ensures IsMaxOf(w, NameWidths())
    {
      w := 0;
      var names := commands.Keys;
      while names != {}
        invariant names <= commands.Keys
        invariant forall c :: c in commands && c !in names ==> |commands[c].name| <= w
        invariant w == 0 || w in NameWidths()
        decreases names
      {
        var c :| c in names;
        if |commands[c].name| > w {
          w := |commands[c].name|;
        }
        names := names - {c};
      }
    }

    /** The option loops of `computeMaxWidth` for one scope (its closure `f`
      applied to every entry of the scope). */
    method ScopeWidth(keys: map<string, nat>) returns (w: nat)
      requires InArena(keys, |options|)
      ensures IsMaxOf(w, OptionWidths(keys))
    {
      w := 0;
      var ks := keys.Keys;
      while ks != {}
        invariant ks <= keys.Keys
        invariant forall k :: k in keys && k !in ks ==> SignatureWidth(options[keys[k]]) <= w
        invariant w == 0 || w in OptionWidths(keys)
        decreases ks
      {
        var k :| k in ks;
        var opt := options[keys[k]];
        var length := 2 + 2 + 2 + |opt.longName|;
        if opt.valueName != "" {
          length := length + 2 + |opt.valueName| + 1;
        }
        assert opt in ScopeRecords(options, keys);
        if length > w {
          w := length;
        }
        ks := ks - {k};
      }
      forall x | x in OptionWidths(keys) ensures x <= w {
        var o :| o in ScopeRecords(options, keys) && x == SignatureWidth(o);
        var k :| k in keys && keys[k] < |options| && options[keys[k]] == o;
      }
    }

    /** `usageCommands`: the COMMANDS heading and one row per command, by
      name in increasing order, whatever order the map yields them in. */
    method UsageCommands(width: nat) returns (lines: seq<string>)
      ensures lines == Heading("COMMANDS") + CommandRows(Ordered(commands.Keys, Itself), commands, width)
    {
      var names := CommandNames();
      SortedListingIsOrdered(names, commands.Keys, Itself);
      var rows := CommandTable(SortBy(names, Itself), commands, width);
      lines := Heading("COMMANDS") + rows;
    }

    /** The names of the commands, each once, in the map's order. */
    method CommandNames() returns (names: seq<string>)
      ensures Distinct(names)
      ensures forall n :: n in names <==> n in commands
    {
      names := [];
      var ks := commands.Keys;
      while ks != {}
        invariant ks <= commands.Keys
        invariant Distinct(names)
        invariant forall n :: n in names <==> n in commands && n !in ks
        decreases ks
      {
        var n :| n in ks;
        names := names + [n];
        ks := ks - {n};
      }
    }

    /** `usageArguments`: the ARGUMENTS heading and one row per argument, in
      declaration order. */
    method UsageArguments(args: seq<Argument>, width: nat) returns (lines: seq<string>)
      ensures lines == Heading("ARGUMENTS") + ArgumentRows(args, width)
    {
      var rows: seq<string> := [];
      var i := 0;
      while i < |args|
        invariant 0 <= i <= |args|
        invariant |rows| == i
        invariant forall j :: 0 <= j < i ==> rows[j] == Row(args[j].name, width, args[j].description)
      {
        rows := rows + [Row(args[i].name, width, args[i].description)];
        i := i + 1;
      }
      lines := Heading("ARGUMENTS") + rows;
    }

    /** `usageOptions`: the heading and one row per option record of the
      scope (a record reached by both of its names is listed once), ordered
      by sort key. */
    method UsageOptions(title: string, keys: map<string, nat>, width: nat) returns (lines: seq<string>)
      requires ScopeValid(keys, options)
      ensures lines == Heading(title) + OptionRows(Ordered(ScopeRecords(options, keys), SortKey), width)
    {
      var records := ScopeRecordList(keys);
      ScopeSortKeysDistinct(keys, options);
      SortedListingIsOrdered(records, ScopeRecords(options, keys), SortKey);
      var rows := OptionTable(SortBy(records, SortKey), width);
      lines := Heading(title) + rows;
    }

    /** The first loop of `usageOptions`: every record of the scope once,
      skipping a record already met through its other name. */
    method ScopeRecordList(keys: map<string, nat>) returns (records: seq<OptionRecord>)
      requires InArena(keys, |options|)
      ensures Distinct(records)
      ensures forall o :: o in records <==> o in ScopeRecords(options, keys)
    {
      records := [];
      var ks := keys.Keys;
      while ks != {}
        invariant ks <= keys.Keys
        invariant Distinct(records)
        invariant forall o :: o in records ==> o in ScopeRecords(options, keys)
        invariant forall k :: k in keys && k !in ks ==> options[keys[k]] in records
        decreases ks
      {
        var k :| k in ks;
        var o := options[keys[k]];
        if o !in records {
          records := records + [o];
        }
        ks := ks - {k};
      }
      forall o | o in ScopeRecords(options, keys) ensures o in records {
        var k :| k in keys && keys[k] < |options| && options[keys[k]] == o;
      }
    }

    function ViewDescription(view: Option<string>): string
      requires view.Some? ==> view.value in commands
      reads this`description, this`main, this`commands, this`options, this`globalKeys, this`arguments, this`command
    {
      if view.None? then description else commands[view.value].description
    }

    /** The records of one scope in the order they are listed. */
    ghost function ScopeListing(keys: map<string, nat>): (r: seq<OptionRecord>)
      requires ScopeValid(keys, options)
      reads this`description, this`main, this`commands, this`options, this`globalKeys, this`arguments, this`command
      ensures r == [] <==> keys == map[]
    {
      ScopeSortKeysDistinct(keys, options);
      var r := Ordered(ScopeRecords(options, keys), SortKey);
      if keys != map[] then
        var k :| k in keys;
        assert options[keys[k]] in ScopeRecords(options, keys);
        r
      else
        r
    }

    /** The usage text `PrintUsage` writes for `view` (the program when
      None, else the named command), `programName` being the name the
      program was invoked under. */
    ghost function UsageSpec(programName: string, view: Option<string>): seq<string>
      requires Valid() && (view.Some? ==> view.value in commands)
      reads this`description, this`main, this`commands, this`options, this`globalKeys, this`arguments, this`command
    {
      UsageText(
        if view.None? then programName else programName + " " + view.value,
        ViewCommand(view), ViewDescription(view), ViewArguments(view),
        Ordered(commands.Keys, Itself), commands,
        ScopeListing(globalKeys),
        if view.Some? then ScopeListing(commands[view.value].optionKeys) else [],
        SetMax(Widths(view)))
    }

    /** Everything listed in the usage of `view` fits the computed width:
      command names, argument names and option signatures (the latter only
      as reserved by `SignatureWidth`), so with `CommandRowsAligned`,
      `ArgumentRowsAligned` and `OptionRowsAligned` every table's
      descriptions start in one column. */
    lemma ViewFitsWidth(view: Option<string>)
      requires Valid() && (view.Some? ==> view.value in commands)
      ensures var w := SetMax(Widths(view));
        && (forall n :: n in Ordered(commands.Keys, Itself) ==> n in commands && |n| <= w)
        && (forall a :: a in ViewArguments(view) ==> |a.name| <= w)
        && (forall o :: o in ScopeListing(globalKeys) ==> SignatureWidth(o) <= w)
        && (view.Some? ==> forall o :: o in ScopeListing(commands[view.value].optionKeys) ==> SignatureWidth(o) <= w)
    {
      var w := SetMax(Widths(view));
      forall n | n in commands ensures |n| <= w {
        assert |commands[n].name| in NameWidths();
      }
      forall a | a in ViewArguments(view) ensures |a.name| <= w {
        assert |a.name| in ArgumentWidths(ViewArguments(view));
      }
      forall o | o in ScopeListing(globalKeys) ensures SignatureWidth(o) <= w {
        assert SignatureWidth(o) in OptionWidths(globalKeys);
      }
      if view.Some? {
        var keys := commands[view.value].optionKeys;
        forall o | o in ScopeListing(keys) ensures SignatureWidth(o) <= w {
          assert SignatureWidth(o) in OptionWidths(keys);
        }
      }
    }

    /** `PrintUsage`: the usage text of the program or of one command,
      aligned on the widest name or option signature. */
    method PrintUsage(programName: string, view: Option<string>) returns (lines: seq<string>)
      requires Valid() && (view.Some? ==> view.value in commands)
      ensures lines == UsageSpec(programName, view)
    {
      var width := ComputeMaxWidth(view);
      var shown := if view.None? then programName else programName + " " + view.value;
      var args := ViewArguments(view);
      var text := ViewDescription(view);
      var listCommands := view.None? && commands != map[];
      assert listCommands <==> view.None? && Ordered(commands.Keys, Itself) != [] by {
        if commands != map[] {
          var n :| n in commands;
          assert n in Ordered(commands.Keys, Itself);
        }
      }
      var head := UsageHead(shown, listCommands, args);
      var listing := UsageListing(listCommands, args, width);
      var sections := UsageOptionSections(view, width);
      lines := [head] + DescriptionLines(text) + listing + sections;
    }

    /** The COMMANDS or ARGUMENTS part of `PrintUsage`. */
    method UsageListing(listCommands: bool, args: seq<Argument>, width: nat) returns (lines: seq<string>)
      ensures lines == ListingLines(listCommands, Ordered(commands.Keys, Itself), commands, args, width)
    {
      lines := [];
      if listCommands {
        lines := UsageCommands(width);
      } else if args != [] {
        lines := UsageArguments(args, width);
      }
    }

    /** The option parts of `PrintUsage`. */
    method UsageOptionSections(view: Option<string>, width: nat) returns (lines: seq<string>)
      requires Valid() && (view.Some? ==> view.value in commands)
      ensures lines == OptionLines(view.Some?, ScopeListing(globalKeys),
                                   if view.Some? then ScopeListing(commands[view.value].optionKeys) else [], width)
    {
      lines := [];
      var local := view.Some? && commands[view.value].optionKeys != map[];
      if globalKeys != map[] {
        lines := UsageOptions(if local then "GLOBAL OPTIONS" else "OPTIONS", globalKeys, width);
      }
      if local {
        var table := UsageOptions("COMMAND OPTIONS", commands[view.value].optionKeys, width);
        lines := lines + table;
      }
    }

    /** `fatal`: the message, an empty line, then the usage of the active
      command, or of the program when no command is active. */
    method Fatal(programName: string, err: UsageError) returns (lines: seq<string>)
      requires Valid()
      ensures lines == ["error: " + Message(err), ""] + UsageSpec(programName, command)
    {
      var usage := PrintUsage(programName, command);
      lines := ["error: " + Message(err), ""] + usage;
    }

    /** The names `cmdHelp` shows the usage of: none outside a command, the
      trailing values of the `help` command's `command` argument, or the
      active command itself. */
    ghost function HelpTargets(): Result<seq<string>, RegistrationError>
      requires Valid()
      reads this`description, this`main, this`commands, this`options, this`globalKeys, this`arguments, this`command
    {
      if command.None? then Success([])
      else if command.value == "help" then
        var args := commands["help"].arguments;
        if exists k: nat :: FirstNamed(args, "command", k) then
          var k: nat :| FirstNamed(args, "command", k);
          Success(args[k].trailingValues)
        else
          Failure(UnknownArgumentName("command"))
      else Success([command.value])
    }

    /** The usage text of each name that is a command (empty for the
      others). */
    ghost function UsageTexts(programName: string, names: seq<string>): (r: seq<seq<string>>)
      requires Valid()
      reads this`description, this`main, this`commands, this`options, this`globalKeys, this`arguments, this`command
      ensures |r| == |names|
    {
      if names == [] then []
      else [if names[0] in commands then UsageSpec(programName, Some(names[0])) else []]
           + UsageTexts(programName, names[1..])
    }

    lemma {:induction false} UsageTextsAt(programName: string, names: seq<string>, i: nat)
      requires Valid() && i < |names| && names[i] in commands
      ensures UsageTexts(programName, names)[i] == UsageSpec(programName, Some(names[i]))
    {
      var texts := UsageTexts(programName, names);
      if i > 0 {
        UsageTextsAt(programName, names[1..], i - 1);
        assert texts[1..] == UsageTexts(programName, names[1..]);
        assert names[1..][i - 1] == names[i];
        assert texts[i] == texts[1..][i - 1];
      } else {
        assert texts[0] == UsageSpec(programName, Some(names[0]));
      }
    }

    lemma UsageTextsAll(programName: string, names: seq<string>)
      requires Valid()
      ensures forall j :: 0 <= j < |names| && names[j] in commands ==>
                UsageTexts(programName, names)[j] == UsageSpec(programName, Some(names[j]))
    {
      forall j | 0 <= j < |names| && names[j] in commands
        ensures UsageTexts(programName, names)[j] == UsageSpec(programName, Some(names[j]))
      {
        UsageTextsAt(programName, names, j);
      }
    }

    /** What `cmdHelp` writes for `names` and the status it exits with. */
    ghost function HelpLines(programName: string, names: seq<string>): seq<string>
      requires Valid()
      reads this`description, this`main, this`commands, this`options, this`globalKeys, this`arguments, this`command
    {
      HelpText(names, commands.Keys, UsageTexts(programName, names), 0)
    }

    /** How `cmdHelp` ends: the usage of the program when there is no name
      to show, else the usage of every name (status 0) up to the first
      unknown one (status 1). */
    ghost function HelpOutcome(programName: string): Ending
      requires Valid()
      reads this`description, this`main, this`commands, this`options, this`globalKeys, this`arguments, this`command
    {
      match HelpTargets()
      case Failure(_) => Exit(1, [])
      case Success(names) =>
        if names == [] then Exit(0, UsageSpec(programName, None))
        else Exit(HelpExit(names, commands.Keys, 0), HelpLines(programName, names))
    }

    /** `cmdHelp`. Asking for help on the `help` command needs its `command`
      argument; without one the model reports the error `mustArgument`
      panics with. */
    method CmdHelp(programName: string) returns (status: int, lines: seq<string>, err: Option<RegistrationError>)
      requires Valid()
      ensures err.Some? <==> HelpTargets().Failure?
      ensures err.Some? ==> err.value == HelpTargets().error
      ensures Exit(status, lines) == HelpOutcome(programName)
    {
      var targets := HelpNames();
      match targets
      case Failure(e) =>
        return 1, [], Some(e);
      case Success(names) =>
        status, lines := HelpOn(programName, names);
        err := None;
    }

    /** The rest of `cmdHelp`, once the names are known. */
    method HelpOn(programName: string, names: seq<string>) returns (status: int, lines: seq<string>)
      requires Valid() && HelpTargets() == Success(names)
      ensures Exit(status, lines) == HelpOutcome(programName)
    {
      if names == [] {
        status := 0;
        lines := HelpOnProgram(programName);
        return;
      }
      ghost var texts := UsageTexts(programName, names);
      ghost var outcome := HelpOutcome(programName);
      assert outcome == Exit(HelpExit(names, commands.Keys, 0), HelpText(names, commands.Keys, texts, 0));
      UsageTextsAll(programName, names);
      status, lines := ShowHelp(programName, names, texts, 0);
    }

    /** `cmdHelp` with no name to show: the usage of the program. */
    method HelpOnProgram(programName: string) returns (lines: seq<string>)
      requires Valid() && HelpTargets() == Success([])
      ensures Exit(0, lines) == HelpOutcome(programName)
    {
      ghost var usage := UsageSpec(programName, None);
      assert HelpOutcome(programName) == Exit(0, usage);
      lines := PrintUsage(programName, None);
    }

    /** The first part of `cmdHelp`: the names to show the usage of. */
    method HelpNames() returns (r: Result<seq<string>, RegistrationError>)
      requires Valid()
      ensures r == HelpTargets()
    {
      if command.None? {
        return Success([]);
      }
      if command.value != "help" {
        return Success([command.value]);
      }
      var values := TrailingArgumentValues("command");
      if values.Failure? {
        assert ActiveArguments() == commands["help"].arguments;
        return Failure(values.error);
      }
      return Success(values.value);
    }

    /** The loop of `cmdHelp` over a non-empty list of names, from the
      `i`-th on; `texts` holds the usage text of each name that is a
      command. */
    method ShowHelp(programName: string, names: seq<string>, ghost texts: seq<seq<string>>, i: nat)
      returns (status: int, lines: seq<string>)
      requires Valid() && i <= |names| && |texts| == |names|
      requires forall j :: i <= j < |names| && names[j] in commands ==>
                 texts[j] == UsageSpec(programName, Some(names[j]))
      ensures status == HelpExit(names, commands.Keys, i)
      ensures lines == HelpText(names, commands.Keys, texts, i)
      decreases |names| - i
    {
      if i == |names| {
        return 0, [];
      }
      var separator: seq<string> := if i > 0 then ["", ""] else [];
      if names[i] !in commands {
        return 1, separator + ["error: unknown command " + Quote(names[i])];
      }
      var usage := PrintUsage(programName, Some(names[i]));
      var more;
      status, more := ShowHelp(programName, names, texts, i + 1);
      lines := separator + usage + more;
    }

    /** `Run`: the callback of the active command, or the program's main
      function when no command is active (None when it was never set). */
    function Run(): (target: Option<Callback>)
      requires Valid()
      reads this`description, this`main, this`commands, this`options, this`globalKeys, this`arguments, this`command
      ensures command.Some? ==> target == Some(commands[command.value].main)
      ensures command.None? ==> (target.Some? <==> main.Some?)
      ensures command.None? && main.Some? ==> target == Some(UserCode(main.value))
    {
      if command.Some? then Some(commands[command.value].main)
      else if main.Some? then Some(UserCode(main.value))
      else None
    }

    /** `Debug`: the message is written only at levels up to the debug level. */
    function Debug(level: int, message: string): (lines: seq<string>)
      reads this
      ensures lines != [] <==> level <= debugLevel
      ensures lines != [] ==> lines == [message]
    {
      if level > debugLevel then [] else [message]
    }

    /** `Info`: the message is written only in verbose mode. */
    function Info(message: string): (lines: seq<string>)
      reads this
      ensures lines != [] <==> verbose
      ensures lines != [] ==> lines == [message]
    {
      if !verbose then [] else [message]
    }

    /** `addDefaultCommands`: the `help` command, which replaces a command
      of the same name. */
    method AddDefaultCommands()
      requires Valid() && commands != map[]
      modifies this
      ensures Valid()
      ensures commands == old(commands)["help" := HelpCommand()]
      ensures name == old(name) && description == old(description) && main == old(main)
      ensures options == old(options) && globalKeys == old(globalKeys) && arguments == old(arguments)
      ensures command == old(command) && verbose == old(verbose) && debugLevel == old(debugLevel)
    {
      var err := AddCommand("help", "print help and exit", BuiltinHelp);
      assert err.None?;
      err := AddArgument(Some("help"), "command", "the name of the command(s)", TrailingArg);
      assert err.None?;
      ghost var a := NewArgument("command", "the name of the command(s)", TrailingArg);
      assert [] + [a] == [a];
    }

    /** `ParseCommandLine` on the arguments after the program name, for a
      program invoked as `programName`: the `help` command is added when
      there are commands, the command line is parsed, and then `--help`,
      `--quiet` and `--debug` take effect. */
    method ParseCommandLine(programName: string, args: seq<string>) returns (ending: Ending)
      requires Valid() && command.None?
      modifies this
      ensures Valid()
      ensures var p := ParseSpec(old(options), old(globalKeys), WithHelp(old(commands)), old(arguments), args);
        && options == p.options && command == p.command && commands == p.commands && arguments == p.arguments
        && (p.error.Some? ==>
              && ending == Exit(1, ["error: " + Message(p.error.value), ""] + UsageSpec(programName, command))
              && verbose == old(verbose) && debugLevel == old(debugLevel))
        && (p.error.None? ==> DefaultOptionsApplied(programName, ending, old(verbose), old(debugLevel)))
      ensures name == old(name) && description == old(description) && main == old(main)
      ensures globalKeys == old(globalKeys)
    {
      var err := ParseWithHelp(args);
      if err.Some? {
        var lines := Fatal(programName, err.value);
        return Exit(1, lines);
      }
      ending := ApplyDefaultOptions(programName);
    }

    /** The parsing part of `ParseCommandLine`: the `help` command is added
      when there are commands, then the command line is parsed. After a
      successful parse, the names `cmdHelp` would show are available. */
    method ParseWithHelp(args: seq<string>) returns (err: Option<UsageError>)
      requires Valid() && command.None?
      modifies this
      ensures Valid()
      ensures var p := ParseSpec(old(options), old(globalKeys), WithHelp(old(commands)), old(arguments), args);
        && options == p.options && command == p.command && commands == p.commands
        && arguments == p.arguments && err == p.error
      ensures err.None? ==> HelpTargets().Success?
      ensures name == old(name) && description == old(description) && main == old(main)
      ensures globalKeys == old(globalKeys) && verbose == old(verbose) && debugLevel == old(debugLevel)
    {
      if commands != map[] {
        AddDefaultCommands();
      }
      ghost var declared := commands;
      assert declared == WithHelp(old(commands));
      assert ScopesInArena(options, globalKeys, declared);
      ParseKeepsDeclarations(options, globalKeys, declared, arguments, args);
      err := Parse(args);
      HelpArgumentKept(declared);
    }

    /** The `help` command keeps its `command` argument through a parse, so
      the names `cmdHelp` shows can always be found. */
    lemma HelpArgumentKept(declared: map<string, Command>)
      requires Valid()
      requires "help" in declared ==> declared["help"] == HelpCommand()
      requires commands.Keys == declared.Keys
      requires forall c :: c in declared ==> SameDeclarations(declared[c].arguments, commands[c].arguments)
      ensures HelpTargets().Success?
    {
      if command == Some("help") {
        assert SameDeclarations(declared["help"].arguments, commands["help"].arguments);
        assert FirstNamed(commands["help"].arguments, "command", 0);
      }
    }

    /** The end of `ParseCommandLine`, after a successful parse, as the
      ending and the new verbose mode and debug level, from the old ones:
      `--help` shows the help and exits, `--quiet` turns verbose mode off and
      `--debug` sets the debug level, a level that is not a number between 0
      and `math.MaxInt32` being fatal. */
    ghost function DefaultOptionsOutcome(programName: string, verbose0: bool, debugLevel0: int): (Ending, bool, int)
      requires Valid()
      reads this`description, this`main, this`commands, this`options, this`globalKeys, this`arguments, this`command
    {
      if IsOptionSet("help").value then (HelpOutcome(programName), verbose0, debugLevel0)
      else (DebugOutcome(programName, debugLevel0).0, !IsOptionSet("quiet").value, DebugOutcome(programName, debugLevel0).1)
    }

    /** The effect of `--debug`: the ending and the new debug level. */
    ghost function DebugOutcome(programName: string, debugLevel0: int): (Ending, int)
      requires Valid()
      reads this`description, this`main, this`commands, this`options, this`globalKeys, this`arguments, this`command
    {
      if !IsOptionSet("debug").value then (Proceed, debugLevel0)
      else
        var text := OptionValue("debug").value;
        match ParseDebugLevel(text)
        case None =>
          (Exit(1, ["error: " + Message(InvalidDebugLevel(text)), ""] + UsageSpec(programName, command)), debugLevel0)
        case Some(level) => (Proceed, level)
    }

    /** The default options took effect: the help could be shown when asked
      for, and the ending, verbose mode and debug level are as described. */
    ghost predicate DefaultOptionsApplied(programName: string, ending: Ending, verbose0: bool, debugLevel0: int)
      requires Valid()
      reads this
    {
      && (IsOptionSet("help").value ==> HelpTargets().Success?)
      && (ending, verbose, debugLevel) == DefaultOptionsOutcome(programName, verbose0, debugLevel0)
    }

    method ApplyDefaultOptions(programName: string) returns (ending: Ending)
      requires Valid()
      requires HelpTargets().Success?
      modifies this`verbose, this`debugLevel
      ensures Valid()
      ensures DefaultOptionsApplied(programName, ending, old(verbose), old(debugLevel))
    {
      var v, d;
      ending, v, d := DefaultOptionsFor(programName, verbose, debugLevel);
      SetLogging(v, d);
    }

    /** Records the verbose mode and the debug level. */
    method SetLogging(v: bool, d: int)
      requires Valid()
      modifies this`verbose, this`debugLevel
      ensures Valid() && verbose == v && debugLevel == d
    {
      verbose, debugLevel := v, d;
    }

    /** `ApplyDefaultOptions` before it writes the new verbose mode and
      debug level. */
    method DefaultOptionsFor(programName: string, verbose0: bool, debugLevel0: int)
      returns (ending: Ending, verbose1: bool, debugLevel1: int)
      requires Valid()
      requires HelpTargets().Success?
      ensures (ending, verbose1, debugLevel1) == DefaultOptionsOutcome(programName, verbose0, debugLevel0)
    {
      if IsOptionSet("help").value {
        var status, lines, err := CmdHelp(programName);
        return Exit(status, lines), verbose0, debugLevel0;
      }
      verbose1 := !IsOptionSet("quiet").value;
      ending, debugLevel1 := DebugFor(programName, debugLevel0);
    }

    /** The `--debug` part of `ApplyDefaultOptions`. */
    method DebugFor(programName: string, debugLevel0: int) returns (ending: Ending, debugLevel1: int)
      requires Valid()
      ensures (ending, debugLevel1) == DebugOutcome(programName, debugLevel0)
    {
      if !IsOptionSet("debug").value {
        return Proceed, debugLevel0;
      }
      var text := OptionValue("debug").value;
      match ParseDebugLevel(text)
      case None =>
        var lines := Fatal(programName, InvalidDebugLevel(text));
        return Exit(1, lines), debugLevel0;
      case Some(level) =>
        return Proceed, level;
    }

    /** After the arena's parse state changed, every scope is still valid. */
    lemma KeepScopesValid(before: seq<OptionRecord>)
      requires SameNames(before, options)
      requires ScopeValid(globalKeys, before)
      requires forall c :: c in commands ==> ScopeValid(commands[c].optionKeys, before)
      ensures ScopeValid(globalKeys, options)
      ensures forall c :: c in commands ==> ScopeValid(commands[c].optionKeys, options)
    {
      SameNamesKeepScopeValid(globalKeys, before, options);
      forall c | c in commands ensures ScopeValid(commands[c].optionKeys, options) {
        SameNamesKeepScopeValid(commands[c].optionKeys, before, options);
      }
    }
  }

  /** Appending a record to the arena keeps every existing scope valid. */
  lemma ArenaGrowthKeepsScopeValid(keys: map<string, nat>, options: seq<OptionRecord>, o: OptionRecord)
    requires ScopeValid(keys, options)
    ensures ScopeValid(keys, options + [o])
  {
    forall k | k in keys ensures (options + [o])[keys[k]] == options[keys[k]] {
    }
  }

  /** A new program with the one command `run`. */
  method ProgramWithCommand() returns (p: Program)
    ensures fresh(p) && p.Valid()
    ensures p.commands == map["run" := Command("run", "", UserCode(0), map[], [])]
    ensures p.globalKeys == DefaultKeys()
  {
    p := new Program("prog", "");
    var _ := p.AddCommand("run", "", UserCode(0));
  }

  /** A program with the command `run` holding the option `-x`. */
  method ProgramWithCommandOption() returns (p: Program, commandRecord: nat)
    ensures fresh(p) && p.Valid()
    ensures "run" in p.commands && p.commands["run"].optionKeys == map["x" := commandRecord]
    ensures commandRecord < |p.options| && "x" !in p.globalKeys
  {
    p := ProgramWithCommand();
    assert "x" !in p.globalKeys;
    var commandErr := p.AddOption(Some("run"), "x", "", "", "", "");
    commandRecord := |p.options| - 1;
  }

  /** A key can be registered for a command and then globally: the global
      registration is accepted, and while the command is active the lookup
      finds the command's record, not the global one. */
  method ShadowedOptionLookup() returns (globalErr: Option<RegistrationError>, commandRecord: nat, globalRecord: nat, found: Option<nat>)
    ensures globalErr == None
    ensures commandRecord != globalRecord
    ensures found == Some(commandRecord)
  {
    var p;
    p, commandRecord := ProgramWithCommandOption();
    globalErr := p.AddOption(None, "x", "", "", "", "");
    globalRecord := |p.options| - 1;
    var _, _ := p.ParseCommand(["run"]);
    found := p.FindOption("x");
  }
}
