/** The usage text: the usage line, option signatures, table rows and the
    order in which options and commands are listed. Output is a sequence of
    lines (without their final newline). */
module Usage {
  import opened Wrappers
  import opened Text
  import opened Schema

  // ---------------------------------------------------------------------
  // Ordering

  /** `sortKey`: the short name when there is one, else the long name. */
  function SortKey(o: OptionRecord): (k: string)
    ensures k == o.shortName || k == o.longName
    ensures k == "" <==> o.shortName == "" && o.longName == ""
  {
    if o.shortName != "" then o.shortName else o.longName
  }

  /** The records a scope lists, each once however many keys lead to it. */
  function ScopeRecords(options: seq<OptionRecord>, keys: map<string, nat>): set<OptionRecord> {
    set k | k in keys && keys[k] < |options| :: options[keys[k]]
  }

  /** The key `sort.Strings` sorts command names by: the name itself. */
  function Itself(s: string): string { s }

  predicate SortedBy<T>(xs: seq<T>, key: T -> string) {
    forall i, j :: 0 <= i < j < |xs| ==> LessOrEqual(key(xs[i]), key(xs[j]))
  }

  predicate StrictlySortedBy<T>(xs: seq<T>, key: T -> string) {
    forall i, j :: 0 <= i < j < |xs| ==> LessOrEqual(key(xs[i]), key(xs[j])) && key(xs[i]) != key(xs[j])
  }

  predicate InjectiveOn<T(!new)>(s: set<T>, key: T -> string) {
    forall a, b :: a in s && b in s && key(a) == key(b) ==> a == b
  }

  ghost predicate Distinct<T>(xs: seq<T>) {
    forall i, j :: 0 <= i < j < |xs| ==> xs[i] != xs[j]
  }

  /** One step of insertion sort. */
  function InsertBy<T>(x: T, xs: seq<T>, key: T -> string): (r: seq<T>)
    requires SortedBy(xs, key)
    ensures SortedBy(r, key)
    ensures multiset(r) == multiset(xs) + multiset{x}
  {
    if xs == [] then [x]
    else if LessOrEqual(key(x), key(xs[0])) then
      var r := [x] + xs;
      forall i, j | 0 <= i < j < |r| ensures LessOrEqual(key(r[i]), key(r[j])) {
        if i == 0 && j > 1 {
          LessOrEqualTransitive(key(x), key(xs[0]), key(xs[j - 1]));
        }
      }
      r
    else
      LessOrEqualTotal(key(x), key(xs[0]));
      var t := InsertBy(x, xs[1..], key);
      var r := [xs[0]] + t;
      assert xs == [xs[0]] + xs[1..];
      forall k | 0 <= k < |t| ensures LessOrEqual(key(xs[0]), key(t[k])) {
        assert t[k] in multiset(t);
        if t[k] != x {
          assert t[k] in multiset(xs[1..]);
          var j :| 0 <= j < |xs[1..]| && xs[1..][j] == t[k];
          assert xs[j + 1] == t[k];
        }
      }
      r
  }

  /** `sort.Strings` / `sort.Slice` by a key: the result is ordered by the
      key and is a permutation of the input. */
  function SortBy<T>(xs: seq<T>, key: T -> string): (r: seq<T>)
    ensures SortedBy(r, key)
    ensures multiset(r) == multiset(xs)
  {
    if xs == [] then []
    else
      assert xs == [xs[0]] + xs[1..];
      InsertBy(xs[0], SortBy(xs[1..], key), key)
  }

  lemma LeastExists<T(!new)>(s: set<T>, key: T -> string)
    requires s != {}
    ensures exists m :: m in s && forall x :: x in s ==> LessOrEqual(key(m), key(x))
    decreases s
  {
    var y :| y in s;
    LessOrEqualTotal(key(y), key(y));
    if s != {y} {
      LeastExists(s - {y}, key);
      var m :| m in s - {y} && forall x :: x in s - {y} ==> LessOrEqual(key(m), key(x));
      LessOrEqualTotal(key(y), key(m));
      if LessOrEqual(key(y), key(m)) {
        forall x | x in s ensures LessOrEqual(key(y), key(x)) {
          if x != y { LessOrEqualTransitive(key(y), key(m), key(x)); }
        }
      } else {
        assert forall x :: x in s ==> LessOrEqual(key(m), key(x));
      }
    }
  }

  /** The elements of `s` in increasing key order: the only order a listing
      of `s` by a key that tells its elements apart can have. */
  ghost function Ordered<T(!new)>(s: set<T>, key: T -> string): (r: seq<T>)
    requires InjectiveOn(s, key)
    ensures StrictlySortedBy(r, key)
    ensures forall x :: x in r <==> x in s
    decreases s
  {
    if s == {} then []
    else
      LeastExists(s, key);
      var m :| m in s && forall x :: x in s ==> LessOrEqual(key(m), key(x));
      var t := Ordered(s - {m}, key);
      var r := [m] + t;
      forall i, j | 0 <= i < j < |r|
        ensures LessOrEqual(key(r[i]), key(r[j])) && key(r[i]) != key(r[j])
      {
        if i == 0 {
          assert r[j] == t[j - 1] && t[j - 1] in s - {m};
        } else {
          assert r[i] == t[i - 1] && r[j] == t[j - 1];
        }
      }
      r
  }

  /** Two strictly ordered listings of the same elements are the same. */
  lemma {:induction false} StrictlySortedUnique<T(!new)>(a: seq<T>, b: seq<T>, key: T -> string)
    requires StrictlySortedBy(a, key) && StrictlySortedBy(b, key)
    requires forall x :: x in a <==> x in b
    ensures a == b
  {
    if a != [] { assert a[0] in b; }
    if b != [] { assert b[0] in a; }
    if a != [] && b != [] {
      var k :| 0 <= k < |b| && b[k] == a[0];
      var l :| 0 <= l < |a| && a[l] == b[0];
      if k != 0 {
        assert l != 0;
        LessOrEqualTransitive(key(b[0]), key(b[k]), key(a[l]));
        LessOrEqualAntisymmetric(key(a[0]), key(a[l]));
        assert false;
      }
      forall x ensures x in a[1..] <==> x in b[1..] {
        if x in a[1..] {
          var i :| 1 <= i < |a| && a[i] == x;
          assert x != a[0];
          assert x in b;
        }
        if x in b[1..] {
          var i :| 1 <= i < |b| && b[i] == x;
          assert x != b[0];
          assert x in a;
        }
      }
      StrictlySortedUnique(a[1..], b[1..], key);
      assert a == [a[0]] + a[1..] && b == [b[0]] + b[1..];
    }
  }

  /** Collecting the elements of `s` in any order, once each, and sorting
      them gives `Ordered(s, key)`: the listing does not depend on the
      iteration order of the map the elements came from. */
  lemma SortedListingIsOrdered<T(!new)>(xs: seq<T>, s: set<T>, key: T -> string)
    requires Distinct(xs) && (forall x :: x in xs <==> x in s) && InjectiveOn(s, key)
    ensures SortBy(xs, key) == Ordered(s, key)
  {
    var r := SortBy(xs, key);
    forall x ensures x in r <==> x in s {
      assert x in r <==> x in multiset(r);
      assert x in xs <==> x in multiset(xs);
    }
    PermutationKeepsDistinct(xs, r);
    forall i, j | 0 <= i < j < |r| ensures key(r[i]) != key(r[j]) {
      assert r[i] in s && r[j] in s;
    }
    StrictlySortedUnique(r, Ordered(s, key), key);
  }

  lemma PermutationKeepsDistinct<T>(xs: seq<T>, r: seq<T>)
    requires Distinct(xs) && multiset(r) == multiset(xs)
    ensures Distinct(r)
  {
    forall i, j | 0 <= i < j < |r| ensures r[i] != r[j] {
      if r[i] == r[j] {
        TwoOccurrences(r, i, j);
        DistinctCountsOne(xs, r[i]);
      }
    }
  }

  lemma TwoOccurrences<T>(r: seq<T>, i: nat, j: nat)
    requires i < j < |r| && r[i] == r[j]
    ensures multiset(r)[r[i]] >= 2
  {
    assert r == r[..j] + r[j..];
    assert r[i] in r[..j] && r[j] in r[j..];
    assert multiset(r) == multiset(r[..j]) + multiset(r[j..]);
  }

  lemma {:induction false} DistinctCountsOne<T>(xs: seq<T>, x: T)
    requires Distinct(xs)
    ensures multiset(xs)[x] <= 1
  {
    if xs != [] {
      assert Distinct(xs[1..]) by {
        forall i, j | 0 <= i < j < |xs[1..]| ensures xs[1..][i] != xs[1..][j] {
          assert xs[1..][i] == xs[i + 1] && xs[1..][j] == xs[j + 1];
        }
      }
      DistinctCountsOne(xs[1..], x);
      assert xs == [xs[0]] + xs[1..];
      if xs[0] == x {
        assert x !in xs[1..];
      }
    }
  }

  /** The largest element of `s`, or 0 for the empty set. */
  ghost function SetMax(s: set<nat>): (m: nat)
    ensures forall y :: y in s ==> y <= m
    ensures m == 0 || m in s
    decreases s
  {
    if s == {} then 0
    else
      var x :| x in s;
      var r := SetMax(s - {x});
      assert forall y :: y in s && y != x ==> y in s - {x};
      if x > r then x else r
  }

  /** An upper bound of `s` that is 0 or in `s` is its maximum. */
  lemma SetMaxUnique(s: set<nat>, w: nat)
    requires forall x :: x in s ==> x <= w
    requires w == 0 || w in s
    ensures w == SetMax(s)
  {
  }

  // ---------------------------------------------------------------------
  // Labels and rows

  /** The title of an option row: `-s, --long <value>`, with two spaces in
      place of a missing short name and `  ` in place of the comma. */
  function OptionSignature(o: OptionRecord): string {
    (if o.shortName == "" then "  " else "-" + o.shortName)
    + (if o.longName == "" then "" else (if o.shortName == "" then "  " else ", ") + "--" + o.longName)
    + (if o.valueName == "" then "" else " <" + o.valueName + ">")
  }

  /** The width `computeMaxWidth` reserves for an option's title. */
  function SignatureWidth(o: OptionRecord): nat {
    2 + 2 + 2 + |o.longName| + (if o.valueName != "" then 2 + |o.valueName| + 1 else 0)
  }

  /** The reserved width fits every title whose short name has at most one
      character, exactly when the option has a long name; a longer short
      name makes the title overflow the column. */
  lemma SignatureFits(o: OptionRecord)
    ensures |o.shortName| <= 1 ==> |OptionSignature(o)| <= SignatureWidth(o)
    ensures |o.shortName| <= 1 && o.longName != "" ==> |OptionSignature(o)| == SignatureWidth(o)
    ensures |o.shortName| > 1 && o.longName != "" ==> |OptionSignature(o)| > SignatureWidth(o)
  {
  }

  /** The title of an option names its short and long keys in the forms the
      scanner accepts. */
  lemma SignatureShowsKeys(o: OptionRecord)
    requires o.shortName != ""
    ensures OptionSignature(o)[..1 + |o.shortName|] == "-" + o.shortName
    ensures o.longName != "" ==>
      OptionSignature(o)[1 + |o.shortName|..5 + |o.shortName| + |o.longName|] == ", --" + o.longName
  {
    var a := "-" + o.shortName;
    var b := if o.longName == "" then "" else ", --" + o.longName;
    var c := if o.valueName == "" then "" else " <" + o.valueName + ">";
    assert OptionSignature(o) == a + b + c;
    assert (a + b + c)[..|a|] == a;
    assert (a + b + c)[|a|..|a| + |b|] == b;
  }

  /** A table row: the title left-justified to `width`, two spaces, the text. */
  function Row(title: string, width: nat, text: string): string {
    Pad(title, width) + "  " + text
  }

  /** When the title fits, the text of every row starts in the same column,
      `width + 2`, and the title can be read back from the row. */
  lemma RowColumns(title: string, width: nat, text: string)
    requires |title| <= width
    ensures var r := Row(title, width, text);
      && r[..|title|] == title
      && (forall i :: |title| <= i < width + 2 ==> r[i] == ' ')
      && r[width + 2..] == text
  {
    var p := Pad(title, width);
    var r := Row(title, width, text);
    assert r == p + "  " + text;
    assert r[..|title|] == p[..|title|];
  }

  /** ` (default: d)`, shown only for a non-empty default. */
  function DefaultNote(d: string): string {
    if d == "" then "" else " (default: " + d + ")"
  }

  function OptionRow(o: OptionRecord, width: nat): string {
    Row(OptionSignature(o), width, o.description) + DefaultNote(o.defaultValue)
  }

  /** An option row shows the description and then, exactly when the
      option has a non-empty default, the default. */
  lemma OptionRowShowsDefault(o: OptionRecord, width: nat)
    ensures var r := OptionRow(o, width);
      var head := Row(OptionSignature(o), width, o.description);
      && r[..|head|] == head
      && (o.defaultValue == "" <==> |r| == |head|)
      && (o.defaultValue != "" ==> r[|head|..] == " (default: " + o.defaultValue + ")")
  {
  }

  // ---------------------------------------------------------------------
  // Usage line

  /** ` <n>`, ` [<n>]` or ` [<n>...]` for a mandatory, optional or trailing
      argument. */
  function ArgumentToken(a: Argument): string {
    if a.trailing then " [<" + a.name + ">...]"
    else if a.optional then " [<" + a.name + ">]"
    else " <" + a.name + ">"
  }

  /** The kind of an argument can be read off its token. */
  lemma ArgumentTokenShowsKind(a: Argument)
    ensures var t := ArgumentToken(a);
      && t[..2] == (if a.Mandatory() then " <" else " [")
      && (a.trailing <==> |t| == |a.name| + 8 && t[|t| - 4..] == "...]")
      && (a.optional && !a.trailing <==> |t| == |a.name| + 5)
      && (a.Mandatory() <==> |t| == |a.name| + 3)
  {
  }

  /** The argument tokens in order, as the synopsis loop appends them. */
  function Synopsis(args: seq<Argument>): (s: string)
    ensures args == [] <==> s == []
  {
    if args == [] then "" else Synopsis(args[..|args| - 1]) + ArgumentToken(args[|args| - 1])
  }

  /** The synopsis lists the arguments in declaration order. */
  lemma {:induction false} SynopsisAppend(a: seq<Argument>, b: seq<Argument>)
    ensures Synopsis(a + b) == Synopsis(a) + Synopsis(b)
    decreases |b|
  {
    if b != [] {
      var init := b[..|b| - 1];
      assert (a + b)[..|a + b| - 1] == a + init;
      SynopsisAppend(a, init);
    } else {
      assert a + b == a;
    }
  }

  /** `Usage: <name> OPTIONS`, then ` <command>` for the root view of a
      program with commands, or else the synopsis of the arguments in view. */
  function UsageLine(programName: string, listCommands: bool, args: seq<Argument>): string {
    "Usage: " + programName + " OPTIONS" + (if listCommands then " <command>" else Synopsis(args))
  }

  // ---------------------------------------------------------------------
  // Tables

  function Heading(title: string): seq<string> {
    ["", title, ""]
  }

  function CommandRows(names: seq<string>, commands: map<string, Command>, width: nat): (r: seq<string>)
    requires forall n :: n in names ==> n in commands
    ensures |r| == |names|
    ensures forall i :: 0 <= i < |names| ==> r[i] == Row(names[i], width, commands[names[i]].description)
  {
    if names == [] then []
    else
      var tail := CommandRows(names[1..], commands, width);
      assert forall i :: 1 <= i < |names| ==> names[1..][i - 1] == names[i];
      [Row(names[0], width, commands[names[0]].description)] + tail
  }

  function ArgumentRows(args: seq<Argument>, width: nat): (r: seq<string>)
    ensures |r| == |args|
    ensures forall i :: 0 <= i < |args| ==> r[i] == Row(args[i].name, width, args[i].description)
  {
    if args == [] then []
    else
      var tail := ArgumentRows(args[1..], width);
      assert forall i :: 1 <= i < |args| ==> args[1..][i - 1] == args[i];
      [Row(args[0].name, width, args[0].description)] + tail
  }

  function OptionRows(records: seq<OptionRecord>, width: nat): (r: seq<string>)
    ensures |r| == |records|
    ensures forall i :: 0 <= i < |records| ==> r[i] == OptionRow(records[i], width)
  {
    if records == [] then []
    else
      var tail := OptionRows(records[1..], width);
      assert forall i :: 1 <= i < |records| ==> records[1..][i - 1] == records[i];
      [OptionRow(records[0], width)] + tail
  }

  /** When every name fits the width, the descriptions of a command table
      all start in column `width + 2`. */
  lemma CommandRowsAligned(names: seq<string>, commands: map<string, Command>, width: nat)
    requires forall n :: n in names ==> n in commands && |n| <= width
    ensures forall i :: 0 <= i < |names| ==>
      var r := CommandRows(names, commands, width)[i];
      r[..|names[i]|] == names[i] && r[width + 2..] == commands[names[i]].description
  {
    forall i | 0 <= i < |names|
      ensures var r := CommandRows(names, commands, width)[i];
        r[..|names[i]|] == names[i] && r[width + 2..] == commands[names[i]].description
    {
      RowColumns(names[i], width, commands[names[i]].description);
    }
  }

  /** The same for an argument table. */
  lemma ArgumentRowsAligned(args: seq<Argument>, width: nat)
    requires forall a :: a in args ==> |a.name| <= width
    ensures forall i :: 0 <= i < |args| ==>
      var r := ArgumentRows(args, width)[i];
      r[..|args[i].name|] == args[i].name && r[width + 2..] == args[i].description
  {
    forall i | 0 <= i < |args|
      ensures var r := ArgumentRows(args, width)[i];
        r[..|args[i].name|] == args[i].name && r[width + 2..] == args[i].description
    {
      RowColumns(args[i].name, width, args[i].description);
    }
  }

  /** The same for an option table whose short names are at most one
      character long: the description, then the default note, start in
      column `width + 2`. */
  lemma OptionRowsAligned(records: seq<OptionRecord>, width: nat)
    requires forall o :: o in records ==> |OptionSignature(o)| <= width
    ensures forall i :: 0 <= i < |records| ==>
      OptionRows(records, width)[i][width + 2..] == records[i].description + DefaultNote(records[i].defaultValue)
  {
    forall i | 0 <= i < |records|
      ensures OptionRows(records, width)[i][width + 2..] == records[i].description + DefaultNote(records[i].defaultValue)
    {
      OptionRowAligned(records[i], width);
    }
  }

  lemma OptionRowAligned(o: OptionRecord, width: nat)
    requires |OptionSignature(o)| <= width
    ensures OptionRow(o, width)[width + 2..] == o.description + DefaultNote(o.defaultValue)
  {
    RowColumns(OptionSignature(o), width, o.description);
    var head := Row(OptionSignature(o), width, o.description);
    assert OptionRow(o, width) == head + DefaultNote(o.defaultValue);
    assert (head + DefaultNote(o.defaultValue))[width + 2..] == head[width + 2..] + DefaultNote(o.defaultValue);
  }

  /** The sentence describing the program or command, when it has one. */
  function DescriptionLines(description: string): seq<string> {
    if description != "" then ["", Sentence(description)] else []
  }

  /** The commands of the root view of a program with commands, else the
      arguments in view, if any. */
  function ListingLines(
    listCommands: bool, commandNames: seq<string>, commands: map<string, Command>,
    args: seq<Argument>, width: nat): seq<string>
    requires forall n :: n in commandNames ==> n in commands
  {
    if listCommands then Heading("COMMANDS") + CommandRows(commandNames, commands, width)
    else if args != [] then Heading("ARGUMENTS") + ArgumentRows(args, width)
    else []
  }

  /** The global options, then, in a command's view, the command's own; the
      global section is called GLOBAL OPTIONS only when both are shown. */
  function OptionLines(commandView: bool, global: seq<OptionRecord>, local: seq<OptionRecord>, width: nat)
    : seq<string>
  {
    (if global != [] then
       Heading(if commandView && local != [] then "GLOBAL OPTIONS" else "OPTIONS") + OptionRows(global, width)
     else [])
    + (if commandView && local != [] then Heading("COMMAND OPTIONS") + OptionRows(local, width) else [])
  }

  /** The whole usage text of one view: the program (`command` is None) or
      one of its commands. `commandNames`, `global` and `local` are the
      command names and the records of the global and command option scopes
      in the order they are listed. */
  function UsageText(
    programName: string, command: Option<Command>, description: string, args: seq<Argument>,
    commandNames: seq<string>, commands: map<string, Command>,
    global: seq<OptionRecord>, local: seq<OptionRecord>, width: nat): (lines: seq<string>)
    requires forall n :: n in commandNames ==> n in commands
    ensures lines != [] && lines[0] == UsageLine(programName, command.None? && commandNames != [], args)
  {
    var listCommands := command.None? && commandNames != [];
    [UsageLine(programName, listCommands, args)]
    + DescriptionLines(description)
    + ListingLines(listCommands, commandNames, commands, args, width)
    + OptionLines(command.Some?, global, local, width)
  }
}
