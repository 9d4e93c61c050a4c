/** The registered schema: option and argument records (with the parse state
    the source keeps on them), commands, errors, and the shape rules for
    positional argument lists. */
module Schema {
  import opened Wrappers

  /** The callback a program or command runs: user code, which is outside
      the model and known only by an identifier, or the built-in `help`
      command (`cmdHelp`). */
  datatype Callback = UserCode(id: nat) | BuiltinHelp

  /** One option. `isSet` and `value` are its parse state. A record is stored
      once and reached through its short key, its long key, or both. */
  datatype OptionRecord = OptionRecord(
    shortName: string, longName: string, valueName: string,
    defaultValue: string, description: string,
    isSet: bool, value: string)
  {
    /** A flag takes no value; any other option takes the next token. */
    predicate IsFlag() { valueName == "" }
  }

  /** One positional argument and its parse state. */
  datatype Argument = Argument(
    name: string, description: string, optional: bool, trailing: bool,
    isSet: bool, value: string, trailingValues: seq<string>)
  {
    predicate Mandatory() { !optional && !trailing }
  }

  datatype ArgumentKind = MandatoryArg | OptionalArg | TrailingArg

  function NewArgument(name: string, description: string, kind: ArgumentKind): (a: Argument)
    ensures a.name == name && a.description == description
    ensures a.optional <==> kind == OptionalArg
    ensures a.trailing <==> kind == TrailingArg
    ensures !a.isSet && a.value == "" && a.trailingValues == []
  {
    Argument(name, description, kind == OptionalArg, kind == TrailingArg, false, "", [])
  }

  /** A command: its own option scope (key to record index) and arguments. */
  datatype Command = Command(
    name: string, description: string, main: Callback,
    optionKeys: map<string, nat>, arguments: seq<Argument>)

  /** Programming errors of the host, which the source reports by `panic`. */
  datatype RegistrationError =
    | MainWithCommands
    | NoOptionName
    | DuplicateOption(name: string)
    | ArgumentAfterOptional
    | ArgumentAfterTrailing
    | MultipleTrailing
    | UnknownOptionName(name: string)
    | UnknownArgumentName(name: string)
    | NoCommandDefined
    | NoActiveCommand

  /** Errors in the user's command line, which the source reports by `fatal`. */
  datatype UsageError =
    | UnknownOption(key: string)
    | MissingValue(key: string)
    | MissingCommand
    | UnknownCommand(name: string)
    | MissingArguments
    | TooManyArguments
    | InvalidDebugLevel(text: string)

  // ---------------------------------------------------------------------
  // Argument-list shape

  function Rank(a: Argument): nat {
    if a.trailing then 2 else if a.optional then 1 else 0
  }

  /** mandatory* optional* trailing?: ranks never decrease, no argument is
      both optional and trailing, and at most one (the last) is trailing. */
  predicate WellShaped(args: seq<Argument>) {
    && (forall i :: 0 <= i < |args| ==> !(args[i].optional && args[i].trailing))
    && (forall i, j :: 0 <= i < j < |args| ==> Rank(args[i]) <= Rank(args[j]))
    && (forall i :: 0 <= i < |args| - 1 ==> !args[i].trailing)
  }

  /** `checkForArgument`, `checkForOptionalArgument` and
      `checkForTrailingArgument`: each looks only at the last argument. */
  function CheckAppend(args: seq<Argument>, kind: ArgumentKind): (r: Option<RegistrationError>)
    ensures r.None? <==> args == [] || (!args[|args| - 1].trailing && (kind == MandatoryArg ==> !args[|args| - 1].optional))
    ensures r == Some(MultipleTrailing) <==> args != [] && args[|args| - 1].trailing && kind == TrailingArg
  {
    if args == [] then None
    else
      var last := args[|args| - 1];
      match kind
      case MandatoryArg =>
        if last.optional then Some(ArgumentAfterOptional)
        else if last.trailing then Some(ArgumentAfterTrailing)
        else None
      case OptionalArg =>
        if last.trailing then Some(ArgumentAfterTrailing) else None
      case TrailingArg =>
        if last.trailing then Some(MultipleTrailing) else None
  }

  /** Checking the last argument alone is enough: on a well-shaped list the
      check passes exactly when the extended list is still well shaped. */
  lemma CheckAppendExact(args: seq<Argument>, name: string, description: string, kind: ArgumentKind)
    requires WellShaped(args)
    ensures CheckAppend(args, kind).None? <==> WellShaped(args + [NewArgument(name, description, kind)])
  {
    var a := NewArgument(name, description, kind);
    var ext := args + [a];
    if args != [] {
      var last := args[|args| - 1];
      if CheckAppend(args, kind).Some? {
        assert ext[|args| - 1] == last && ext[|args|] == a;
        assert Rank(last) > Rank(a) || (last.trailing && a.trailing);
      } else {
        assert forall i :: 0 <= i < |args| ==> Rank(ext[i]) <= Rank(last) by {
          forall i | 0 <= i < |args| ensures Rank(ext[i]) <= Rank(last) {
            if i < |args| - 1 {
              assert Rank(args[i]) <= Rank(args[|args| - 1]);
            }
          }
        }
      }
    }
  }

  /** Any list built by the checked appends alone is well shaped. */
  lemma {:induction false} BuiltListsAreWellShaped(kinds: seq<ArgumentKind>, names: seq<string>)
    requires |names| == |kinds|
    requires forall k :: 0 <= k < |kinds| ==> CheckAppend(Build(kinds[..k], names[..k]), kinds[k]).None?
    ensures WellShaped(Build(kinds, names))
  {
    if kinds != [] {
      var n := |kinds| - 1;
      forall k | 0 <= k < n
        ensures CheckAppend(Build(kinds[..n][..k], names[..n][..k]), kinds[..n][k]).None?
      {
        assert kinds[..n][..k] == kinds[..k] && names[..n][..k] == names[..k];
      }
      BuiltListsAreWellShaped(kinds[..n], names[..n]);
      assert kinds[..n] == kinds[..|kinds| - 1] && names[..n] == names[..|names| - 1];
      CheckAppendExact(Build(kinds[..n], names[..n]), names[n], "", kinds[n]);
    }
  }

  /** The argument list obtained by appending arguments of the given kinds. */
  function Build(kinds: seq<ArgumentKind>, names: seq<string>): (args: seq<Argument>)
    requires |names| == |kinds|
    ensures |args| == |kinds|
  {
    if kinds == [] then []
    else
      var n := |kinds| - 1;
      Build(kinds[..n], names[..n]) + [NewArgument(names[n], "", kinds[n])]
  }
}
