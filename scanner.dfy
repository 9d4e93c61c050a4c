/** The command-line scanner as specification functions: the option scan of
    `parseOptions` and the positional binding of `parseArguments`. The
    imperative methods of `Programs.Program` are proved equal to these. */
module Scanner {
  import opened Wrappers
  import opened Schema

  // ---------------------------------------------------------------------
  // Tokens

  /** `-x`: exactly two characters, a dash, then anything but a dash. */
  predicate IsShort(t: string) {
    |t| == 2 && t[0] == '-' && t[1] != '-'
  }

  /** `--xx…`: more than two characters, starting with two dashes. */
  predicate IsLong(t: string) {
    |t| > 2 && t[0] == '-' && t[1] == '-'
  }

  /** A token the option scan consumes; `--` stops the scan. */
  predicate IsOptionToken(t: string) {
    t != "--" && (IsShort(t) || IsLong(t))
  }

  /** `strings.TrimLeft(t, "-")`: the token without its leading dashes. */
  function Key(t: string): (k: string)
    ensures |k| <= |t|
  {
    if t != [] && t[0] == '-' then Key(t[1..]) else t
  }

  /** The key is a suffix of the token, does not start with a dash, and
      everything before it is a dash. */
  lemma {:induction false} KeyShape(t: string)
    ensures var k := Key(t);
      && k == t[|t| - |k|..] && (k == [] || k[0] != '-')
      && forall i :: 0 <= i < |t| - |k| ==> t[i] == '-'
    decreases |t|
  {
    if t != [] && t[0] == '-' {
      KeyShape(t[1..]);
      var k := Key(t);
      assert k == Key(t[1..]);
      assert t[1..][|t| - 1 - |k|..] == t[|t| - |k|..];
      forall i | 0 <= i < |t| - |k|
        ensures t[i] == '-'
      {
        if i > 0 {
          assert t[i] == t[1..][i - 1];
        }
      }
    }
  }

  /** The separator `--` is never option-shaped, so the explicit test for it
      in the scan is redundant; a short token's key is its second character. */
  lemma ShortKey(t: string)
    requires IsShort(t)
    ensures !IsShort("--") && !IsLong("--")
    ensures Key(t) == t[1..] && |Key(t)| == 1
  {
    var u := t[1..];
    assert Key(t) == Key(u);
    assert u[0] != '-' && Key(u) == u;
  }

  /** A long token's key is what follows its two leading dashes. */
  lemma LongKey(t: string)
    requires IsLong(t)
    ensures Key(t) == Key(t[2..])
  {
    var u := t[1..];
    assert Key(t) == Key(u);
    assert u[0] == '-' && u[1..] == t[2..];
    assert Key(u) == Key(u[1..]);
  }

  /** A token made only of dashes has the empty key. */
  lemma {:induction false} DashesHaveNoKey(t: string)
    requires forall i :: 0 <= i < |t| ==> t[i] == '-'
    ensures Key(t) == ""
    decreases |t|
  {
    if t != [] {
      assert forall i :: 0 <= i < |t| - 1 ==> t[1..][i] == t[i + 1];
      DashesHaveNoKey(t[1..]);
    }
  }

  // ---------------------------------------------------------------------
  // Option scan

  /** Every key of a scope leads to a record of the arena. */
  predicate InArena(table: map<string, nat>, n: nat) {
    forall k :: k in table ==> table[k] < n
  }

  /** What `parseOptions` leaves behind: the arena with the parse state it
      wrote, the tokens it did not consume and the first user error. */
  datatype OptionScan = OptionScan(options: seq<OptionRecord>, rest: seq<string>, error: Option<UsageError>)

  /** `parseOptions`: consumes option tokens, marking each option set; a value
      option also consumes the next token verbatim as its value. */
  function ScanOptions(options: seq<OptionRecord>, table: map<string, nat>, args: seq<string>): (r: OptionScan)
    requires InArena(table, |options|)
    ensures |r.options| == |options|
    decreases |args|
  {
    if args == [] || !IsOptionToken(args[0]) then OptionScan(options, args, None)
    else
      var key := Key(args[0]);
      if key !in table then OptionScan(options, args, Some(UnknownOption(key)))
      else
        var i := table[key];
        var marked := options[i := options[i].(isSet := true)];
        if options[i].IsFlag() then
          ScanOptions(marked, table, args[1..])
        else if |args| < 2 then
          OptionScan(marked, args, Some(MissingValue(key)))
        else
          ScanOptions(marked[i := marked[i].(value := args[1])], table, args[2..])
  }

  /** The token a scan step looks at: an option token with a known key. */
  predicate ScansOption(table: map<string, nat>, args: seq<string>) {
    args != [] && IsOptionToken(args[0]) && Key(args[0]) in table
  }

  /** The arena after the first token of `args` has been scanned. */
  function Marked(options: seq<OptionRecord>, table: map<string, nat>, args: seq<string>): (r: seq<OptionRecord>)
    requires InArena(table, |options|) && ScansOption(table, args)
    ensures |r| == |options|
  {
    var i := table[Key(args[0])];
    var marked := options[i := options[i].(isSet := true)];
    if options[i].IsFlag() || |args| < 2 then marked else marked[i := marked[i].(value := args[1])]
  }

  /** One step of the scan: a flag consumes one token, a value option with a
      value two, and a value option without one fails. */
  lemma ScanStep(options: seq<OptionRecord>, table: map<string, nat>, args: seq<string>)
    requires InArena(table, |options|) && ScansOption(table, args)
    ensures var i := table[Key(args[0])];
      && (options[i].IsFlag() ==>
            ScanOptions(options, table, args) == ScanOptions(Marked(options, table, args), table, args[1..]))
      && (!options[i].IsFlag() && |args| >= 2 ==>
            ScanOptions(options, table, args) == ScanOptions(Marked(options, table, args), table, args[2..]))
      && (!options[i].IsFlag() && |args| < 2 ==>
            ScanOptions(options, table, args) == OptionScan(Marked(options, table, args), args, Some(MissingValue(Key(args[0])))))
  {
  }

  /** The scan consumes a prefix of the tokens: what it leaves is a suffix. */
  lemma {:induction false} ScanLeavesSuffix(options: seq<OptionRecord>, table: map<string, nat>, args: seq<string>)
    requires InArena(table, |options|)
    ensures IsSuffix(ScanOptions(options, table, args).rest, args)
    decreases |args|
  {
    if ScansOption(table, args) {
      var i := table[Key(args[0])];
      var next := Marked(options, table, args);
      ScanStep(options, table, args);
      if options[i].IsFlag() {
        ScanLeavesSuffix(next, table, args[1..]);
        SuffixOfTail(args, 1, ScanOptions(next, table, args[1..]).rest);
      } else if |args| >= 2 {
        ScanLeavesSuffix(next, table, args[2..]);
        SuffixOfTail(args, 2, ScanOptions(next, table, args[2..]).rest);
      } else {
        assert ScanOptions(options, table, args).rest == args;
      }
    } else {
      assert ScanOptions(options, table, args).rest == args;
    }
  }

  predicate IsSuffix(a: seq<string>, b: seq<string>) {
    |a| <= |b| && a == b[|b| - |a|..]
  }

  /** A suffix of a tail is a suffix of the whole. */
  lemma SuffixOfTail(args: seq<string>, n: nat, rest: seq<string>)
    requires n <= |args| && IsSuffix(rest, args[n..])
    ensures IsSuffix(rest, args)
  {
    assert args[n..][|args| - n - |rest|..] == args[|args| - |rest|..];
  }

  /** The scan stops only at the end, at a token that is not an option, or at
      an error; each error names the offending token's key. */
  lemma {:induction false} ScanOptionsOutcome(options: seq<OptionRecord>, table: map<string, nat>, args: seq<string>)
    requires InArena(table, |options|)
    ensures var r := ScanOptions(options, table, args);
      && (r.error.None? ==> r.rest == [] || !IsOptionToken(r.rest[0]))
      && (r.error.Some? ==> r.rest != [] && IsOptionToken(r.rest[0]))
      && (r.error.Some? && r.error.value.UnknownOption? ==>
            r.error.value.key == Key(r.rest[0]) && r.error.value.key !in table)
      && (r.error.Some? && r.error.value.MissingValue? ==>
            && r.rest == [r.rest[0]] && r.error.value.key == Key(r.rest[0]) && r.error.value.key in table
            && !options[table[r.error.value.key]].IsFlag())
      && (r.error.Some? ==> r.error.value.UnknownOption? || r.error.value.MissingValue?)
    decreases |args|
  {
    if ScansOption(table, args) {
      var i := table[Key(args[0])];
      var next := Marked(options, table, args);
      ScanStep(options, table, args);
      if options[i].IsFlag() {
        ScanOptionsOutcome(next, table, args[1..]);
        LaterScanKeepsKinds(next, table, args[1..]);
      } else if |args| >= 2 {
        ScanOptionsOutcome(next, table, args[2..]);
        LaterScanKeepsKinds(next, table, args[2..]);
      }
    }
  }

  /** Two arenas that differ at most in parse state. */
  predicate SameNames(a: seq<OptionRecord>, b: seq<OptionRecord>) {
    && |a| == |b|
    && forall i :: 0 <= i < |a| ==>
         a[i].shortName == b[i].shortName && a[i].longName == b[i].longName && a[i].valueName == b[i].valueName
  }

  /** The scan writes only parse state: the names of every record, and so
      which options are flags, stay as registered. */
  lemma {:induction false} LaterScanKeepsKinds(options: seq<OptionRecord>, table: map<string, nat>, args: seq<string>)
    requires InArena(table, |options|)
    ensures SameNames(options, ScanOptions(options, table, args).options)
    decreases |args|
  {
    if ScansOption(table, args) {
      var i := table[Key(args[0])];
      var next := Marked(options, table, args);
      ScanStep(options, table, args);
      assert SameNames(options, next);
      if options[i].IsFlag() || |args| >= 2 {
        var rest := if options[i].IsFlag() then args[1..] else args[2..];
        LaterScanKeepsKinds(next, table, rest);
        SameNamesTransitive(options, next, ScanOptions(next, table, rest).options);
      }
    }
  }

  lemma SameNamesTransitive(a: seq<OptionRecord>, b: seq<OptionRecord>, c: seq<OptionRecord>)
    requires SameNames(a, b) && SameNames(b, c)
    ensures SameNames(a, c)
  {
  }

  /** A token that names record `i` through `table`. */
  predicate Names(t: string, table: map<string, nat>, i: nat) {
    IsOptionToken(t) && Key(t) in table && table[Key(t)] == i
  }

  /** A record that no token names is left exactly as it was: an option that
      does not appear on the command line stays unset, keeping its default. */
  lemma {:induction false} ScanLeavesUnnamed(options: seq<OptionRecord>, table: map<string, nat>, args: seq<string>, i: nat)
    requires InArena(table, |options|) && i < |options|
    requires forall k :: 0 <= k < |args| ==> !Names(args[k], table, i)
    ensures ScanOptions(options, table, args).options[i] == options[i]
    decreases |args|
  {
    if args != [] && IsOptionToken(args[0]) && Key(args[0]) in table {
      var j := table[Key(args[0])];
      assert j != i by { assert !Names(args[0], table, i); }
      var marked := options[j := options[j].(isSet := true)];
      if options[j].IsFlag() {
        assert forall k :: 0 <= k < |args| - 1 ==> args[1..][k] == args[k + 1];
        ScanLeavesUnnamed(marked, table, args[1..], i);
      } else if |args| >= 2 {
        assert forall k :: 0 <= k < |args| - 2 ==> args[2..][k] == args[k + 2];
        ScanLeavesUnnamed(marked[j := marked[j].(value := args[1])], table, args[2..], i);
      }
    }
  }

  /** Once set, an option stays set for the rest of the scan. */
  lemma {:induction false} ScanKeepsSet(options: seq<OptionRecord>, table: map<string, nat>, args: seq<string>, i: nat)
    requires InArena(table, |options|) && i < |options| && options[i].isSet
    ensures ScanOptions(options, table, args).options[i].isSet
    decreases |args|
  {
    if args != [] && IsOptionToken(args[0]) && Key(args[0]) in table {
      var j := table[Key(args[0])];
      var marked := options[j := options[j].(isSet := true)];
      if options[j].IsFlag() {
        ScanKeepsSet(marked, table, args[1..], i);
      } else if |args| >= 2 {
        ScanKeepsSet(marked[j := marked[j].(value := args[1])], table, args[2..], i);
      }
    }
  }

  /** An option given first on the command line ends up set. */
  lemma GivenOptionIsSet(options: seq<OptionRecord>, table: map<string, nat>, args: seq<string>)
    requires InArena(table, |options|)
    requires args != [] && IsOptionToken(args[0]) && Key(args[0]) in table
    ensures ScanOptions(options, table, args).options[table[Key(args[0])]].isSet
  {
    var i := table[Key(args[0])];
    var next := Marked(options, table, args);
    ScanStep(options, table, args);
    assert next[i].isSet;
    if options[i].IsFlag() {
      ScanKeepsSet(next, table, args[1..], i);
    } else if |args| >= 2 {
      ScanKeepsSet(next, table, args[2..], i);
    }
  }

  /** A value option followed by one more token takes that token verbatim,
      even when it looks like an option, and the scan then ends without
      error. */
  lemma ValueTakesNextToken(options: seq<OptionRecord>, table: map<string, nat>, args: seq<string>)
    requires InArena(table, |options|)
    requires |args| == 2 && IsOptionToken(args[0]) && Key(args[0]) in table
    requires !options[table[Key(args[0])]].IsFlag()
    ensures var r := ScanOptions(options, table, args);
      r.options[table[Key(args[0])]].value == args[1] && r.options[table[Key(args[0])]].isSet
      && r.rest == [] && r.error.None?
  {
    var i := table[Key(args[0])];
    var next := Marked(options, table, args);
    ScanStep(options, table, args);
    assert args[2..] == [];
    assert ScanOptions(next, table, []) == OptionScan(next, [], None);
  }

  /** Tokens the scan consumes entirely, without error. */
  predicate ScansCleanly(options: seq<OptionRecord>, table: map<string, nat>, pre: seq<string>)
    requires InArena(table, |options|)
  {
    var s := ScanOptions(options, table, pre);
    s.error.None? && s.rest == []
  }

  /** The scan goes token by token: after a run of tokens it consumes
      entirely, it carries on with what follows from the arena that run
      left. */
  lemma {:induction false} ScanConcat(options: seq<OptionRecord>, table: map<string, nat>, pre: seq<string>, post: seq<string>)
    requires InArena(table, |options|) && ScansCleanly(options, table, pre)
    ensures ScanOptions(options, table, pre + post) == ScanOptions(ScanOptions(options, table, pre).options, table, post)
    decreases |pre|
  {
    if pre == [] {
      assert pre + post == post;
    } else {
      var n := StepOfConcat(options, table, pre, post);
      ScanConcat(Marked(options, table, pre), table, pre[n..], post);
    }
  }

  /** The first step over `pre + post` when `pre` is consumed cleanly: it
      consumes `n` tokens of `pre` alone. */
  lemma StepOfConcat(options: seq<OptionRecord>, table: map<string, nat>, pre: seq<string>, post: seq<string>)
    returns (n: nat)
    requires InArena(table, |options|) && ScansCleanly(options, table, pre) && pre != []
    ensures ScansOption(table, pre) && 1 <= n <= |pre|
    ensures ScanOptions(options, table, pre) == ScanOptions(Marked(options, table, pre), table, pre[n..])
    ensures ScanOptions(options, table, pre + post) == ScanOptions(Marked(options, table, pre), table, pre[n..] + post)
  {
    assert ScansOption(table, pre);
    var args := pre + post;
    assert args[0] == pre[0];
    var i := table[Key(pre[0])];
    ScanStep(options, table, pre);
    if options[i].IsFlag() {
      n := 1;
    } else {
      n := 2;
      assert args[1] == pre[1];
    }
    assert Marked(options, table, args) == Marked(options, table, pre);
    assert args[n..] == pre[n..] + post;
    ScanStep(options, table, args);
  }

  /** An option given anywhere among the leading options ends up set. */
  lemma GivenOptionSetAnywhere(options: seq<OptionRecord>, table: map<string, nat>, pre: seq<string>, post: seq<string>)
    requires InArena(table, |options|) && ScansCleanly(options, table, pre)
    requires post != [] && IsOptionToken(post[0]) && Key(post[0]) in table
    ensures ScanOptions(options, table, pre + post).options[table[Key(post[0])]].isSet
  {
    ScanConcat(options, table, pre, post);
    GivenOptionIsSet(ScanOptions(options, table, pre).options, table, post);
  }

  /** A value option anywhere among the leading options takes the token
      right after it verbatim, even when it looks like an option; that value
      is the one the scan ends with unless a later token names the option
      again. */
  lemma ValueTakenAnywhere(
    options: seq<OptionRecord>, table: map<string, nat>, pre: seq<string>, t: string, v: string, post: seq<string>)
    requires InArena(table, |options|) && ScansCleanly(options, table, pre)
    requires IsOptionToken(t) && Key(t) in table && !options[table[Key(t)]].IsFlag()
    requires forall k :: 0 <= k < |post| ==> !Names(post[k], table, table[Key(t)])
    ensures var r := ScanOptions(options, table, pre + [t, v] + post);
      r.options[table[Key(t)]].value == v && r.options[table[Key(t)]].isSet
  {
    var mid := ScanOptions(options, table, pre).options;
    assert pre + [t, v] + post == pre + ([t, v] + post);
    ScanConcat(options, table, pre, [t, v] + post);
    LaterScanKeepsKinds(options, table, pre);
    LeadingValueKept(mid, table, t, v, post);
  }

  /** The case of `ValueTakenAnywhere` where the option comes first. */
  lemma LeadingValueKept(options: seq<OptionRecord>, table: map<string, nat>, t: string, v: string, post: seq<string>)
    requires InArena(table, |options|)
    requires IsOptionToken(t) && Key(t) in table && !options[table[Key(t)]].IsFlag()
    requires forall k :: 0 <= k < |post| ==> !Names(post[k], table, table[Key(t)])
    ensures var r := ScanOptions(options, table, [t, v] + post);
      r.options[table[Key(t)]].value == v && r.options[table[Key(t)]].isSet
  {
    var i := table[Key(t)];
    var args := [t, v] + post;
    assert args[0] == t && args[1] == v && args[2..] == post;
    var next := Marked(options, table, args);
    assert ScanOptions(options, table, args) == ScanOptions(next, table, post);
    ScanLeavesUnnamed(next, table, post, i);
  }

  // ---------------------------------------------------------------------
  // Positional arguments

  /** The number of leading mandatory arguments (`min` in the source). */
  function LeadingMandatory(args: seq<Argument>): (m: nat)
    ensures m <= |args|
    ensures forall i :: 0 <= i < m ==> args[i].Mandatory()
    ensures m < |args| ==> !args[m].Mandatory()
  {
    if args == [] || !args[0].Mandatory() then 0
    else 1 + LeadingMandatory(args[1..])
  }

  /** `args` with each of its first `n` arguments bound to the token at the
      same position, as long as there is one. */
  function Bound(args: seq<Argument>, toks: seq<string>, n: nat): (r: seq<Argument>)
    ensures |r| == |args|
  {
    seq(|args|, i requires 0 <= i < |args| =>
      if i < n && i < |toks| then args[i].(isSet := true, value := toks[i]) else args[i])
  }

  /** The optional-argument loop of `parseArguments`, from position `j` with
      the tokens `toks` still unconsumed: it stops when the tokens or the
      arguments run out, or at a trailing argument, which it reports. */
  function FillOptional(args: seq<Argument>, j: nat, toks: seq<string>): (r: (seq<Argument>, seq<string>, Option<nat>))
    requires j <= |args|
    ensures |r.0| == |args|
    ensures r.2.Some? ==> j <= r.2.value < |args| && r.0[r.2.value].trailing && r.1 != []
    decreases |args| - j
  {
    if j == |args| || toks == [] then (args, toks, None)
    else if args[j].trailing then (args, toks, Some(j))
    else FillOptional(args[j := args[j].(isSet := true, value := toks[0])], j + 1, toks[1..])
  }

  datatype ArgumentScan = ArgumentScan(arguments: seq<Argument>, rest: seq<string>, error: Option<UsageError>)

  /** `parseArguments`. */
  function BindArguments(args: seq<Argument>, toks: seq<string>): (r: ArgumentScan)
    ensures |r.arguments| == |args|
  {
    if args == [] then ArgumentScan(args, toks, None)
    else
      var m := LeadingMandatory(args);
      if |toks| < m then ArgumentScan(args, toks, Some(MissingArguments))
      else
        var (filled, rest, trailing) := FillOptional(Bound(args, toks, m), m, toks[m..]);
        if trailing.Some? && trailing.value < |filled| then
          ArgumentScan(filled[trailing.value := filled[trailing.value].(trailingValues := rest)], [], None)
        else if rest != [] then ArgumentScan(filled, rest, Some(TooManyArguments))
        else ArgumentScan(filled, [], None)
  }

  predicate HasTrailing(args: seq<Argument>) {
    args != [] && args[|args| - 1].trailing
  }

  /** The number of single-valued arguments of a well-shaped list. */
  function SingleCount(args: seq<Argument>): nat {
    if HasTrailing(args) then |args| - 1 else |args|
  }

  lemma {:induction false} FillOptionalBindsInOrder(args: seq<Argument>, toks: seq<string>, j: nat, t: nat)
    requires j <= t <= |args| && j <= |toks|
    requires forall i :: j <= i < t ==> !args[i].trailing
    requires t == |args| || args[t].trailing
    ensures FillOptional(Bound(args, toks, j), j, toks[j..])
      == (Bound(args, toks, t), toks[if |toks| < t then |toks| else t..],
          if |toks| > t && t < |args| then Some(t) else None)
    decreases |args| - j
  {
    var a := Bound(args, toks, j);
    if j == |args| || j == |toks| {
      assert Bound(args, toks, j) == Bound(args, toks, t);
    } else if args[j].trailing {
    } else {
      assert a[j := a[j].(isSet := true, value := toks[j..][0])] == Bound(args, toks, j + 1);
      assert toks[j..][1..] == toks[j + 1..];
      FillOptionalBindsInOrder(args, toks, j + 1, t);
    }
  }

  /** The binding rules of a well-shaped argument list with `m` leading
      mandatory arguments and `s` single-valued ones, for `n` tokens, stated
      by position: an empty list ignores every token; fewer than `m` tokens
      is "missing argument(s)"; otherwise the first tokens bind in order to
      the single-valued arguments, the trailing argument (if any) takes what
      is left when something is, and without one a leftover is "too many
      arguments". */
  function ExpectedBinding(args: seq<Argument>, toks: seq<string>): (r: ArgumentScan)
    ensures |r.arguments| == |args|
    ensures r.error.None? && args != [] ==> r.rest == []
  {
    if args == [] then ArgumentScan(args, toks, None)
    else if |toks| < LeadingMandatory(args) then ArgumentScan(args, toks, Some(MissingArguments))
    else
      var s := SingleCount(args);
      var bound := Bound(args, toks, s);
      if HasTrailing(args) then
        if |toks| > s then ArgumentScan(bound[s := args[s].(trailingValues := toks[s..])], [], None)
        else ArgumentScan(bound, [], None)
      else if |toks| > s then ArgumentScan(bound, toks[s..], Some(TooManyArguments))
      else ArgumentScan(bound, [], None)
  }

  /** `parseArguments` binds as `ExpectedBinding` says, for every
      well-shaped list and every token sequence. */
  lemma BindArgumentsMeaning(args: seq<Argument>, toks: seq<string>)
    requires WellShaped(args)
    ensures BindArguments(args, toks) == ExpectedBinding(args, toks)
  {
    if args != [] {
      var m, s := LeadingMandatory(args), SingleCount(args);
      if |toks| >= m {
        assert m <= s by {
          if HasTrailing(args) { assert !args[|args| - 1].Mandatory(); }
        }
        forall i | m <= i < s ensures !args[i].trailing {
          assert i < |args| - 1 || !HasTrailing(args);
        }
        FillOptionalBindsInOrder(args, toks, m, s);
      }
    }
  }

  /** The only user errors of the binding, each exactly in its case. */
  lemma BindArgumentsErrors(args: seq<Argument>, toks: seq<string>)
    requires WellShaped(args)
    ensures var r := BindArguments(args, toks);
      var n, m := |toks|, LeadingMandatory(args);
      && (r.error == Some(MissingArguments) <==> args != [] && n < m)
      && (r.error == Some(TooManyArguments) <==> args != [] && m <= n && !HasTrailing(args) && n > |args|)
      && (r.error.None? || r.error == Some(MissingArguments) || r.error == Some(TooManyArguments))
      && (r.error.None? ==> args == [] || r.rest == [])
  {
    BindArgumentsMeaning(args, toks);
  }

  /** Two argument lists that differ at most in parse state. */
  predicate SameDeclarations(a: seq<Argument>, b: seq<Argument>) {
    && |a| == |b|
    && forall i :: 0 <= i < |a| ==>
         && a[i].name == b[i].name && a[i].description == b[i].description
         && a[i].optional == b[i].optional && a[i].trailing == b[i].trailing
  }

  lemma SameDeclarationsKeepShape(a: seq<Argument>, b: seq<Argument>)
    requires SameDeclarations(a, b) && WellShaped(a)
    ensures WellShaped(b)
  {
    assert forall i :: 0 <= i < |a| ==> Rank(a[i]) == Rank(b[i]);
  }

  /** Binding writes only parse state, so the list stays well shaped. */
  lemma BindKeepsDeclarations(args: seq<Argument>, toks: seq<string>)
    requires WellShaped(args)
    ensures SameDeclarations(args, BindArguments(args, toks).arguments)
    ensures WellShaped(BindArguments(args, toks).arguments)
  {
    BindArgumentsMeaning(args, toks);
    if args != [] && |toks| >= LeadingMandatory(args) {
      var s := SingleCount(args);
      var bound := Bound(args, toks, s);
      assert SameDeclarations(args, bound);
      if HasTrailing(args) && |toks| > s {
        assert SameDeclarations(args, bound[s := args[s].(trailingValues := toks[s..])]);
      }
    }
    SameDeclarationsKeepShape(args, BindArguments(args, toks).arguments);
  }

  /** The boundary cases for two mandatory arguments and a trailing one. */
  lemma TwoMandatoryThenTrailing(a1: Argument, a2: Argument, a3: Argument)
    requires a1.Mandatory() && a2.Mandatory() && a3.trailing && !a3.optional
    ensures var r := BindArguments([a1, a2, a3], ["x", "y"]);
      r.error.None? && r.arguments[0].value == "x" && r.arguments[1].value == "y"
      && r.arguments[2] == a3
    ensures var r := BindArguments([a1, a2, a3], ["x", "y", "z", "w"]);
      r.error.None? && r.arguments[2].trailingValues == ["z", "w"]
    ensures BindArguments([a1, a2, a3], ["x"]).error == Some(MissingArguments)
  {
    var args := [a1, a2, a3];
    assert WellShaped(args);
    assert LeadingMandatory(args) == 2 by {
      assert LeadingMandatory([a3]) == 0;
      assert [a2, a3][1..] == [a3];
      assert LeadingMandatory([a2, a3]) == 1;
      assert args[1..] == [a2, a3];
    }
    BindArgumentsMeaning(args, ["x", "y"]);
    BindArgumentsMeaning(args, ["x", "y", "z", "w"]);
    assert ["x", "y", "z", "w"][2..] == ["z", "w"];
    BindArgumentsMeaning(args, ["x"]);
  }

  // ---------------------------------------------------------------------
  // The whole parse

  /** Every scope of the registration leads into the arena. */
  predicate ScopesInArena(options: seq<OptionRecord>, globalKeys: map<string, nat>, commands: map<string, Command>) {
    && InArena(globalKeys, |options|)
    && forall c :: c in commands ==> InArena(commands[c].optionKeys, |options|)
  }

  /** The table of the command phase: every global key and every key of the
      command, the command's record winning a clash (the command's options
      are copied in after the global ones). */
  function Merge(globalKeys: map<string, nat>, commandKeys: map<string, nat>): (m: map<string, nat>)
    ensures m.Keys == globalKeys.Keys + commandKeys.Keys
    ensures forall k :: k in m ==> m[k] == if k in commandKeys then commandKeys[k] else globalKeys[k]
  {
    globalKeys + commandKeys
  }

  /** The program state `parse` writes, and the first user error. */
  datatype Parsed = Parsed(
    options: seq<OptionRecord>, command: Option<string>,
    commands: map<string, Command>, arguments: seq<Argument>, error: Option<UsageError>)

  /** `parse`: global options; then, unless help was asked for, either the
      program's arguments or a command name, the merged global and command
      options (a command key shadows a global one) and the command's
      arguments. The command is recorded as soon as it is recognised. */
  function ParseSpec(
    options: seq<OptionRecord>, globalKeys: map<string, nat>, commands: map<string, Command>,
    arguments: seq<Argument>, args: seq<string>): (p: Parsed)
    requires ScopesInArena(options, globalKeys, commands) && "help" in globalKeys
    ensures |p.options| == |options|
    ensures p.command.Some? ==> p.command.value in commands && p.commands.Keys == commands.Keys
    ensures p.command.None? ==> p.commands == commands
  {
    var g := ScanOptions(options, globalKeys, args);
    if g.error.Some? then Parsed(g.options, None, commands, arguments, g.error)
    else if g.options[globalKeys["help"]].isSet then Parsed(g.options, None, commands, arguments, None)
    else if commands == map[] then
      var b := BindArguments(arguments, g.rest);
      Parsed(g.options, None, commands, b.arguments, b.error)
    else CommandPhase(g.options, globalKeys, commands, arguments, g.rest)
  }

  /** The part of `parse` after the global options of a program with
      commands: the command name (`parseCommand`), the merged options and
      the command's arguments. */
  function CommandPhase(
    options: seq<OptionRecord>, globalKeys: map<string, nat>, commands: map<string, Command>,
    arguments: seq<Argument>, rest: seq<string>): (p: Parsed)
    requires ScopesInArena(options, globalKeys, commands)
    ensures |p.options| == |options|
    ensures p.command.Some? ==> p.command.value in commands && p.commands.Keys == commands.Keys
    ensures p.command.None? ==> p.commands == commands
  {
    if rest == [] then Parsed(options, None, commands, arguments, Some(MissingCommand))
    else if rest[0] !in commands then Parsed(options, None, commands, arguments, Some(UnknownCommand(rest[0])))
    else SelectedCommand(options, globalKeys, commands, arguments, rest[0], rest[1..])
  }

  /** The command phase once the command `name` is recognised: its options,
      merged with the global ones, then its arguments. */
  function SelectedCommand(
    options: seq<OptionRecord>, globalKeys: map<string, nat>, commands: map<string, Command>,
    arguments: seq<Argument>, name: string, rest: seq<string>): (p: Parsed)
    requires ScopesInArena(options, globalKeys, commands) && name in commands
    ensures |p.options| == |options|
    ensures p.command == Some(name) && p.commands.Keys == commands.Keys
  {
    var cmd := commands[name];
    var merged := Merge(globalKeys, cmd.optionKeys);
    assert InArena(merged, |options|);
    var c := ScanOptions(options, merged, rest);
    if c.error.Some? then Parsed(c.options, Some(name), commands, arguments, c.error)
    else
      var b := BindArguments(cmd.arguments, c.rest);
      Parsed(c.options, Some(name), commands[name := cmd.(arguments := b.arguments)], arguments, b.error)
  }

  /** The parse changes no declaration: every command keeps its name,
      description, callback and option scope, and its arguments keep their
      declarations; only their parse state changes. */
  lemma ParseKeepsDeclarations(
    options: seq<OptionRecord>, globalKeys: map<string, nat>, commands: map<string, Command>,
    arguments: seq<Argument>, args: seq<string>)
    requires ScopesInArena(options, globalKeys, commands) && "help" in globalKeys
    requires forall c :: c in commands ==> WellShaped(commands[c].arguments)
    ensures var p := ParseSpec(options, globalKeys, commands, arguments, args);
      && p.commands.Keys == commands.Keys
      && forall c :: c in commands ==>
           && p.commands[c].(arguments := commands[c].arguments) == commands[c]
           && SameDeclarations(commands[c].arguments, p.commands[c].arguments)
  {
    var g := ScanOptions(options, globalKeys, args);
    if g.error.None? && !g.options[globalKeys["help"]].isSet && commands != map[] {
      CommandPhaseKeepsDeclarations(g.options, globalKeys, commands, arguments, g.rest);
    }
  }

  lemma CommandPhaseKeepsDeclarations(
    options: seq<OptionRecord>, globalKeys: map<string, nat>, commands: map<string, Command>,
    arguments: seq<Argument>, rest: seq<string>)
    requires ScopesInArena(options, globalKeys, commands)
    requires forall c :: c in commands ==> WellShaped(commands[c].arguments)
    ensures var p := CommandPhase(options, globalKeys, commands, arguments, rest);
      && p.commands.Keys == commands.Keys
      && forall c :: c in commands ==>
           && p.commands[c].(arguments := commands[c].arguments) == commands[c]
           && SameDeclarations(commands[c].arguments, p.commands[c].arguments)
  {
    if rest != [] && rest[0] in commands {
      var name := rest[0];
      var cmd := commands[name];
      var merged := Merge(globalKeys, cmd.optionKeys);
      assert InArena(merged, |options|);
      var c := ScanOptions(options, merged, rest[1..]);
      if c.error.None? {
        var b := BindArguments(cmd.arguments, c.rest);
        BindKeepsDeclarations(cmd.arguments, c.rest);
        var updated := commands[name := cmd.(arguments := b.arguments)];
        assert SelectedCommand(options, globalKeys, commands, arguments, name, rest[1..]).commands == updated;
        forall k | k in commands
          ensures updated[k].(arguments := commands[k].arguments) == commands[k]
          ensures SameDeclarations(commands[k].arguments, updated[k].arguments)
        {
          if k != name {
            assert updated[k] == commands[k];
          }
        }
      }
    }
  }

  /** A successful parse of a program with commands, where help was not
      asked for, has recognised a command: there is always a callback to run. */
  lemma ParseSelectsCommand(
    options: seq<OptionRecord>, globalKeys: map<string, nat>, commands: map<string, Command>,
    arguments: seq<Argument>, args: seq<string>)
    requires ScopesInArena(options, globalKeys, commands) && "help" in globalKeys
    ensures var p := ParseSpec(options, globalKeys, commands, arguments, args);
      p.error.None? && commands != map[] && !p.options[globalKeys["help"]].isSet ==>
        p.command.Some? && p.command.value in p.commands
  {
  }

  /** Help given among the leading options stops the parse: nothing after
      the options is looked at, so neither a missing command nor missing
      arguments is reported. */
  lemma HelpStopsParse(
    options: seq<OptionRecord>, globalKeys: map<string, nat>, commands: map<string, Command>,
    arguments: seq<Argument>, args: seq<string>)
    requires ScopesInArena(options, globalKeys, commands) && "help" in globalKeys
    requires args != [] && IsOptionToken(args[0]) && Key(args[0]) in globalKeys
    requires globalKeys[Key(args[0])] == globalKeys["help"]
    requires ScanOptions(options, globalKeys, args).error.None?
    ensures var p := ParseSpec(options, globalKeys, commands, arguments, args);
      p.error.None? && p.command.None? && p.commands == commands && p.arguments == arguments
  {
    GivenOptionIsSet(options, globalKeys, args);
  }

  /** `--help` anywhere among the leading global options ends the parse with
      no error and no command, whatever follows it. */
  lemma HelpAnywhereStopsParse(
    options: seq<OptionRecord>, globalKeys: map<string, nat>, commands: map<string, Command>,
    arguments: seq<Argument>, pre: seq<string>, post: seq<string>)
    requires ScopesInArena(options, globalKeys, commands) && "help" in globalKeys
    requires ScansCleanly(options, globalKeys, pre)
    requires post != [] && IsOptionToken(post[0]) && Key(post[0]) in globalKeys
    requires globalKeys[Key(post[0])] == globalKeys["help"]
    requires ScanOptions(options, globalKeys, pre + post).error.None?
    ensures var p := ParseSpec(options, globalKeys, commands, arguments, pre + post);
      p.error.None? && p.command.None? && p.commands == commands && p.arguments == arguments
  {
    GivenOptionSetAnywhere(options, globalKeys, pre, post);
  }

  /** The first non-option token after the global options selects the
      command, and an unregistered name is reported by name. */
  lemma CommandSelection(
    options: seq<OptionRecord>, globalKeys: map<string, nat>, commands: map<string, Command>,
    arguments: seq<Argument>, name: string, rest: seq<string>)
    requires ScopesInArena(options, globalKeys, commands) && "help" in globalKeys
    requires commands != map[] && !IsOptionToken(name) && !options[globalKeys["help"]].isSet
    ensures var p := ParseSpec(options, globalKeys, commands, arguments, [name] + rest);
      && (name in commands ==> p.command == Some(name))
      && (name !in commands ==> p.error == Some(UnknownCommand(name)) && p.command.None?)
  {
    assert ScanOptions(options, globalKeys, [name] + rest) == OptionScan(options, [name] + rest, None);
    assert ([name] + rest)[1..] == rest;
  }
}
