/** Build identifiers of the form `vMAJOR.MINOR.PATCH[-COMMITS-REVISION]`:
    recognition, formatting, stability and ordering. */
module BuildIds {
  import opened Wrappers
  import opened Text

  /** A build identifier. The two suffix parts are Go pointers in the source;
      here an absent part is `None`. */
  datatype BuildId = BuildId(major: nat, minor: nat, patch: nat,
                             nbCommits: Option<nat>, revision: Option<string>)

  /** Both suffix parts present or both absent, as every parse leaves them. */
  predicate Paired(id: BuildId) {
    id.nbCommits.Some? == id.revision.Some?
  }

  predicate IsStable(id: BuildId) {
    id.nbCommits.None? && id.revision.None?
  }

  /** `String`: `vM.m.p`, followed by `-N-R` when the id is not stable. */
  function Format(id: BuildId): (s: string)
    requires Paired(id)
  {
    var version := Triple(NatToString(id.major), '.', NatToString(id.minor), '.', NatToString(id.patch));
    if IsStable(id) then version
    else version + SuffixText(NatToString(id.nbCommits.value), id.revision.value)
  }

  function Triple(major: string, sep1: char, minor: string, sep2: char, patch: string): string {
    "v" + major + [sep1] + minor + [sep2] + patch
  }

  function SuffixText(commits: string, revision: string): string {
    "-" + commits + "-" + revision
  }

  /** A formatted id starts with `v`, and carries a dash exactly when it is
      not stable: the version part is digits and periods only. */
  lemma FormatShape(id: BuildId)
    requires Paired(id)
    ensures Format(id)[0] == 'v'
    ensures IsStable(id) <==> '-' !in Format(id)
  {
    var version := Triple(NatToString(id.major), '.', NatToString(id.minor), '.', NatToString(id.patch));
    assert forall i :: 0 <= i < |version| ==> version[i] == 'v' || version[i] == '.' || IsDigit(version[i]);
    if !IsStable(id) {
      assert Format(id)[|version|] == '-';
    }
  }

  /** `LowerOrEqualTo`: lexicographic on major, minor, patch and the commit
      count (0 when absent); the revision plays no part. */
  predicate LowerOrEqualTo(a: BuildId, b: BuildId) {
    if a.major != b.major then a.major < b.major
    else if a.minor != b.minor then a.minor < b.minor
    else if a.patch != b.patch then a.patch < b.patch
    else CommitsOrZero(a) <= CommitsOrZero(b)
  }

  function CommitsOrZero(id: BuildId): nat {
    if id.nbCommits.Some? then id.nbCommits.value else 0
  }

  lemma LowerOrEqualToReflexive(a: BuildId)
    ensures LowerOrEqualTo(a, a)
  {
  }

  lemma LowerOrEqualToTotal(a: BuildId, b: BuildId)
    ensures LowerOrEqualTo(a, b) || LowerOrEqualTo(b, a)
  {
  }

  lemma LowerOrEqualToTransitive(a: BuildId, b: BuildId, c: BuildId)
    requires LowerOrEqualTo(a, b) && LowerOrEqualTo(b, c)
    ensures LowerOrEqualTo(a, c)
  {
  }

  /** A stable release sorts before or equal to any build of the same version
      triple, and after none with more commits unless it has the same triple. */
  lemma StableIsLowest(a: BuildId, b: BuildId)
    requires IsStable(a)
    requires a.major == b.major && a.minor == b.minor && a.patch == b.patch
    ensures LowerOrEqualTo(a, b)
    ensures LowerOrEqualTo(b, a) <==> CommitsOrZero(b) == 0
  {
  }

  /** Two ids that differ only in their revision are ordered both ways: the
      order is a preorder, not a partial order. */
  lemma RevisionIgnored(a: BuildId, r: string)
    requires a.nbCommits.Some?
    ensures LowerOrEqualTo(a, a.(revision := Some(r))) && LowerOrEqualTo(a.(revision := Some(r)), a)
  {
  }

  // ---------------------------------------------------------------------
  // The grammar

  /** The sub-matches of the build-id pattern, as text. `commits` is empty
      when the optional suffix group did not take part in the match. */
  datatype Match = Match(major: string, minor: string, patch: string,
                         commits: string, revision: string)

  predicate IsRevisionChar(c: char) {
    'a' <= c <= 'z' || '0' <= c <= '9'
  }

  predicate IsRevision(r: string) {
    |r| >= 1 && forall i :: 0 <= i < |r| ==> IsRevisionChar(r[i])
  }

  /** A positive count without a leading zero: `[1-9][0-9]*`. */
  predicate IsCount(n: string) {
    Canonical(n) && n[0] != '0'
  }

  /** The text a match stands for, with `sep` between the version numbers. */
  function Spell(m: Match, sep1: char, sep2: char): string {
    Triple(m.major, sep1, m.minor, sep2, m.patch) + SpellSuffix(m)
  }

  predicate WellFormedMatch(m: Match) {
    && Canonical(m.major) && Canonical(m.minor) && Canonical(m.patch)
    && (m.commits == "" ==> m.revision == "")
    && (m.commits != "" ==> IsCount(m.commits) && IsRevision(m.revision))
  }

  /** The intended language: `v D.D.D` with a literal period, optionally
      followed by `-N-R`. */
  ghost predicate InGrammar(s: string, m: Match) {
    WellFormedMatch(m) && s == Spell(m, '.', '.')
  }

  /** The language the pattern accepts as written: its `.` is not escaped, so
      each separator is any character but a newline. This is the set of
      strings the pattern matches, not the submatches Go reports: on
      `v111111` it relates several splits (11.1.1, 1.11.1, 1.1.11) where
      Go's leftmost-first matching reports 11.1.1 alone. Only acceptance is
      drawn from it. */
  ghost predicate InGrammarAsWritten(s: string, m: Match) {
    WellFormedMatch(m) && exists c1: char, c2: char :: c1 != '\n' && c2 != '\n' && s == Spell(m, c1, c2)
  }

  /** Splits `s` after its longest leading run of decimal digits. */
  function SplitNumber(s: string): (r: (string, string))
    ensures r.0 + r.1 == s
    ensures AllDigits(r.0)
    ensures r.1 == [] || !IsDigit(r.1[0])
  {
    if s != [] && IsDigit(s[0]) then
      var (d, rest) := SplitNumber(s[1..]);
      assert [s[0]] + d + rest == s;
      ([s[0]] + d, rest)
    else ([], s)
  }

  /** The split is determined by the digits and what follows them. */
  lemma {:induction false} SplitNumberOf(d: string, rest: string)
    requires AllDigits(d)
    requires rest == [] || !IsDigit(rest[0])
    ensures SplitNumber(d + rest) == (d, rest)
  {
    if d != [] {
      var t := d + rest;
      assert t[0] == d[0] && IsDigit(t[0]);
      assert t[1..] == d[1..] + rest;
      SplitNumberOf(d[1..], rest);
      assert SplitNumber(t) == ([t[0]] + d[1..], rest);
      assert [d[0]] + d[1..] == d;
    } else {
      assert d + rest == rest;
    }
  }

  /** What may follow the version triple: nothing, or `-N-R`. */
  function RecogniseSuffix(t: string): (r: Option<(string, string)>)
  {
    if t == "" then Some(("", ""))
    else if t[0] != '-' then None
    else
      var (n, r4) := SplitNumber(t[1..]);
      if !IsCount(n) || r4 == [] || r4[0] != '-' || !IsRevision(r4[1..]) then None
      else Some((n, r4[1..]))
  }

  /** A canonical number followed by `sep`: the number and what follows. */
  function NumberThen(s: string, sep: char): (r: Option<(string, string)>)
    ensures r.Some? ==> Canonical(r.value.0) && s == r.value.0 + [sep] + r.value.1
  {
    var split := SplitNumber(s);
    if Canonical(split.0) && split.1 != [] && split.1[0] == sep then
      assert split.1 == [sep] + split.1[1..];
      assert s == split.0 + [sep] + split.1[1..];
      Some((split.0, split.1[1..]))
    else None
  }

  lemma NumberThenOf(n: string, sep: char, rest: string)
    requires Canonical(n) && !IsDigit(sep)
    ensures NumberThen(n + [sep] + rest, sep) == Some((n, rest))
  {
    SplitNumberOf(n, [sep] + rest);
    assert n + [sep] + rest == n + ([sep] + rest);
    assert ([sep] + rest)[1..] == rest;
  }

  /** A hand-written recogniser for the intended grammar. */
  function Recognise(s: string): (r: Option<Match>)
  {
    if s == [] || s[0] != 'v' then None
    else
      var major := NumberThen(s[1..], '.');
      if major.None? then None
      else
        var minor := NumberThen(major.value.1, '.');
        if minor.None? then None
        else
          var (patch, r3) := SplitNumber(minor.value.1);
          var suffix := RecogniseSuffix(r3);
          if !Canonical(patch) || suffix.None? then None
          else Some(Match(major.value.0, minor.value.0, patch, suffix.value.0, suffix.value.1))
  }

  function SpellSuffix(m: Match): string {
    if m.commits == "" then "" else SuffixText(m.commits, m.revision)
  }

  lemma RecogniseSuffixSound(t: string)
    requires RecogniseSuffix(t).Some?
    ensures var (n, r) := RecogniseSuffix(t).value;
      (n == "" && r == "" && t == "") || (IsCount(n) && IsRevision(r) && t == "-" + n + "-" + r)
  {
    if t != "" {
      var (n, r4) := SplitNumber(t[1..]);
      assert t == [t[0]] + t[1..];
      assert r4 == [r4[0]] + r4[1..];
    }
  }

  /** Everything the recogniser accepts is in the grammar, with these parts. */
  lemma RecogniseSound(s: string)
    requires Recognise(s).Some?
    ensures InGrammar(s, Recognise(s).value)
  {
    var major := NumberThen(s[1..], '.').value;
    var minor := NumberThen(major.1, '.').value;
    var patch := SplitNumber(minor.1);
    var suffix := RecogniseSuffix(patch.1).value;
    var m := Match(major.0, minor.0, patch.0, suffix.0, suffix.1);
    assert Recognise(s) == Some(m);
    RecogniseSuffixSound(patch.1);
    assert patch.1 == SpellSuffix(m);
    JoinTriple(s, major.0, major.1, minor.0, minor.1, patch.0, patch.1);
  }

  /** Reassembles the text the recogniser took apart. */
  lemma JoinTriple(s: string, major: string, r1: string, minor: string, r2: string, patch: string, r3: string)
    requires s != [] && s[0] == 'v'
    requires s[1..] == major + "." + r1 && r1 == minor + "." + r2 && r2 == patch + r3
    ensures s == Triple(major, '.', minor, '.', patch) + r3
  {
    calc {
      s;
      [s[0]] + s[1..];
      "v" + (major + "." + (minor + "." + (patch + r3)));
      "v" + major + "." + minor + "." + patch + r3;
    }
  }

  lemma RecogniseSuffixComplete(m: Match)
    requires WellFormedMatch(m)
    ensures RecogniseSuffix(SpellSuffix(m)) == Some((m.commits, m.revision))
  {
    if m.commits != "" {
      var t := SpellSuffix(m);
      var r4 := "-" + m.revision;
      assert t == "-" + (m.commits + r4);
      assert t[0] == '-' && t[1..] == m.commits + r4;
      assert r4[0] == '-' && r4[1..] == m.revision;
      SplitNumberOf(m.commits, r4);
    }
  }

  /** Everything in the grammar is recognised, with exactly its parts. */
  lemma RecogniseComplete(s: string, m: Match)
    requires InGrammar(s, m)
    ensures Recognise(s) == Some(m)
  {
    var r3 := SpellSuffix(m);
    RecogniseSuffixComplete(m);
    var r2 := m.patch + r3;
    var r1 := m.minor + "." + r2;
    assert s[1..] == m.major + "." + r1;
    NumberThenOf(m.major, '.', r1);
    NumberThenOf(m.minor, '.', r2);
    SplitNumberOf(m.patch, r3);
  }

  /** The id a successful match denotes on its own, with no earlier state. */
  function FromMatch(m: Match): (id: BuildId)
    requires WellFormedMatch(m)
    ensures Paired(id)
    ensures IsStable(id) <==> m.commits == ""
  {
    BuildId(DigitsToNat(m.major), DigitsToNat(m.minor), DigitsToNat(m.patch),
            if m.commits == "" then None else Some(DigitsToNat(m.commits)),
            if m.commits == "" then None else Some(m.revision))
  }

  /** Parsing a fresh id: the parts of the match, or "invalid format". */
  function ParseFresh(s: string): (r: Option<BuildId>)
    ensures r.Some? ==> Paired(r.value)
  {
    var m := Recognise(s);
    if m.None? then None
    else
      RecogniseSound(s);
      Some(FromMatch(m.value))
  }

  /** Formatting the id a match denotes spells the match with periods. */
  lemma FormatFromMatch(m: Match)
    requires WellFormedMatch(m)
    ensures Format(FromMatch(m)) == Spell(m, '.', '.')
  {
    var id := FromMatch(m);
    CanonicalRoundTrip(m.major);
    CanonicalRoundTrip(m.minor);
    CanonicalRoundTrip(m.patch);
    if m.commits != "" {
      CanonicalRoundTrip(m.commits);
    }
  }

  /** Parse then format reproduces the input exactly. */
  lemma ParseFormatRoundTrip(s: string)
    requires ParseFresh(s).Some?
    ensures Paired(ParseFresh(s).value) && Format(ParseFresh(s).value) == s
  {
    RecogniseSound(s);
    FormatFromMatch(Recognise(s).value);
  }

  /** The ids that survive formatting: suffix parts paired, a positive commit
      count and a non-empty lower-case alphanumeric revision. */
  predicate Formattable(id: BuildId) {
    Paired(id) && (id.nbCommits.Some? ==> id.nbCommits.value >= 1 && IsRevision(id.revision.value))
  }

  /** Format then parse recovers the id. */
  lemma {:induction false} FormatParseRoundTrip(id: BuildId)
    requires Formattable(id)
    ensures ParseFresh(Format(id)) == Some(id)
  {
    var m := Match(NatToString(id.major), NatToString(id.minor), NatToString(id.patch),
                   if IsStable(id) then "" else NatToString(id.nbCommits.value),
                   if IsStable(id) then "" else id.revision.value);
    NatToStringRoundTrip(id.major);
    NatToStringRoundTrip(id.minor);
    NatToStringRoundTrip(id.patch);
    if !IsStable(id) {
      NatToStringRoundTrip(id.nbCommits.value);
      assert NatToString(id.nbCommits.value) != "0";
    }
    assert Format(id) == Spell(m, '.', '.');
    RecogniseComplete(Format(id), m);
  }

  /** The strings of the source's own parse test parse to the expected
      fields (and so, by ParseFormatRoundTrip, format back to themselves). */
  lemma KnownZeroId()
    ensures ParseFresh("v0.0.0") == Some(BuildId(0, 0, 0, None, None))
  {
    var zero := BuildId(0, 0, 0, None, None);
    assert Format(zero) == "v0.0.0" by {
      assert Triple("0", '.', "0", '.', "0") == "v0.0.0";
    }
    FormatParseRoundTrip(zero);
  }

  lemma KnownStableId()
    ensures ParseFresh("v1.2.3") == Some(BuildId(1, 2, 3, None, None))
  {
    var stable := BuildId(1, 2, 3, None, None);
    assert Format(stable) == "v1.2.3" by {
      assert Triple("1", '.', "2", '.', "3") == "v1.2.3";
    }
    FormatParseRoundTrip(stable);
  }

  lemma KnownMultiDigitId()
    ensures ParseFresh("v10.2.314") == Some(BuildId(10, 2, 314, None, None))
  {
    var ten := BuildId(10, 2, 314, None, None);
    assert Format(ten) == "v10.2.314" by {
      assert NatToString(10) == "10" by {
        assert NatToString(10) == NatToString(1) + "0";
      }
      assert NatToString(314) == "314" by {
        assert NatToString(31) == NatToString(3) + "1" == "31";
        assert NatToString(314) == NatToString(31) + "4";
      }
      assert Triple("10", '.', "2", '.', "314") == "v10.2.314";
    }
    FormatParseRoundTrip(ten);
  }

  lemma KnownDevelopmentId()
    ensures ParseFresh("v1.2.3-17-f1d2d2f") == Some(BuildId(1, 2, 3, Some(17), Some("f1d2d2f")))
  {
    var dev := BuildId(1, 2, 3, Some(17), Some("f1d2d2f"));
    assert Format(dev) == "v1.2.3-17-f1d2d2f" by {
      assert NatToString(17) == "17" by {
        assert NatToString(17) == NatToString(1) + "7";
      }
      assert Triple("1", '.', "2", '.', "3") + SuffixText("17", "f1d2d2f") == "v1.2.3-17-f1d2d2f";
    }
    assert IsRevision("f1d2d2f");
    FormatParseRoundTrip(dev);
  }

  // ---------------------------------------------------------------------
  // Discrepancies of the source

  /** The pattern as written accepts `v1x2x3`: any character separates the
      version numbers. The intended grammar rejects it, and the id it yields
      formats as `v1.2.3`, so the round trip fails. */
  lemma AsWrittenAcceptsAnySeparator()
    ensures InGrammarAsWritten("v1x2x3", Match("1", "2", "3", "", ""))
    ensures Recognise("v1x2x3") == None
    ensures Format(FromMatch(Match("1", "2", "3", "", ""))) != "v1x2x3"
  {
    assert Spell(Match("1", "2", "3", "", ""), 'x', 'x') == "v1x2x3";
    OtherSeparatorRejected();
    OneTwoThreeFormat();
  }

  lemma OtherSeparatorRejected()
    ensures Recognise("v1x2x3") == None
  {
    SplitNumberOf("1", "x2x3");
    assert "v1x2x3"[1..] == "1" + "x2x3";
    assert NumberThen("v1x2x3"[1..], '.') == None;
  }

  lemma OneTwoThreeFormat()
    ensures Format(FromMatch(Match("1", "2", "3", "", ""))) == "v1.2.3"
  {
    assert Triple("1", '.', "2", '.', "3") == "v1.2.3";
  }

  /** `Parse` into an existing id: on failure the id is unchanged; on success
      the version triple is replaced, and the suffix only when the input has
      one, so a suffix from an earlier parse survives a stable input. */
  function ParseInto(prior: BuildId, s: string): (r: Option<BuildId>)
    ensures r.None? <==> ParseFresh(s).None?
    ensures r.Some? && !IsStable(ParseFresh(s).value) ==> r == ParseFresh(s)
    ensures r.Some? && IsStable(ParseFresh(s).value) ==>
      r.value == ParseFresh(s).value.(nbCommits := prior.nbCommits, revision := prior.revision)
  {
    var m := Recognise(s);
    if m.None? then None
    else
      RecogniseSound(s);
      var id := FromMatch(m.value);
      if m.value.commits != "" then Some(id)
      else Some(prior.(major := id.major, minor := id.minor, patch := id.patch))
  }

  /** Re-parsing a stable version into an id that held a development build
      keeps the old suffix: `v1.2.4` parsed over `v1.2.3-4-abc` formats as
      `v1.2.4-4-abc`. */
  lemma AsWrittenKeepsStaleSuffix()
    ensures ParseInto(BuildId(1, 2, 3, Some(4), Some("abc")), "v1.2.4")
      == Some(BuildId(1, 2, 4, Some(4), Some("abc")))
    ensures Format(BuildId(1, 2, 4, Some(4), Some("abc"))) != "v1.2.4"
  {
    var newer := BuildId(1, 2, 4, None, None);
    assert Format(newer) == "v1.2.4" by {
      assert Triple("1", '.', "2", '.', "4") == "v1.2.4";
    }
    FormatParseRoundTrip(newer);
    var stale := BuildId(1, 2, 4, Some(4), Some("abc"));
    assert Format(stale) == "v1.2.4" + SuffixText("4", "abc");
  }

  /** `Equal` as written: the triple by value, the suffix parts by pointer.
      `sameCommits`/`sameRevision` say whether the two non-nil pointers are
      the same allocation. */
  predicate EqualAsWritten(a: BuildId, b: BuildId, sameCommits: bool, sameRevision: bool) {
    && a.major == b.major && a.minor == b.minor && a.patch == b.patch
    && (if a.nbCommits.None? || b.nbCommits.None? then a.nbCommits.None? && b.nbCommits.None? else sameCommits)
    && (if a.revision.None? || b.revision.None? then a.revision.None? && b.revision.None? else sameRevision)
  }

  /** Two ids parsed separately from `v1.2.3-17-f1d2d2f` hold distinct
      pointers, so `Equal` calls them different although every field agrees. */
  lemma AsWrittenEqualComparesPointers()
    ensures ParseFresh("v1.2.3-17-f1d2d2f") == Some(BuildId(1, 2, 3, Some(17), Some("f1d2d2f")))
    ensures !EqualAsWritten(ParseFresh("v1.2.3-17-f1d2d2f").value, ParseFresh("v1.2.3-17-f1d2d2f").value, false, false)
  {
    KnownDevelopmentId();
  }

  /** `Equal` by value, as intended. */
  predicate Equal(a: BuildId, b: BuildId) {
    a == b
  }

  /** Equal ids compare lower-or-equal in both directions, and every id is
      equal to itself; pointer-equal ids are also equal by value. */
  lemma EqualConsistent(a: BuildId, b: BuildId, sameCommits: bool, sameRevision: bool)
    ensures Equal(a, a)
    ensures Equal(a, b) ==> LowerOrEqualTo(a, b) && LowerOrEqualTo(b, a)
    ensures (EqualAsWritten(a, b, sameCommits, sameRevision)
             && (sameCommits ==> a.nbCommits == b.nbCommits)
             && (sameRevision ==> a.revision == b.revision)) ==> Equal(a, b)
  {
  }

  /** For ids whose suffix parts are paired, `Equal` as written holds of an
      id and itself exactly when it has no suffix or both suffix pointers
      are shared; two separately parsed copies of a development id are
      equal by value but not as written. */
  lemma {:induction false} EqualAsWrittenOnSameValue(a: BuildId, sameCommits: bool, sameRevision: bool)
    requires Paired(a)
    ensures EqualAsWritten(a, a, sameCommits, sameRevision) <==> IsStable(a) || (sameCommits && sameRevision)
    ensures Equal(a, a) && !EqualAsWritten(a, a, sameCommits, sameRevision) <==> !IsStable(a) && !(sameCommits && sameRevision)
  {
    if a.nbCommits.Some? {
      assert a.revision.Some?;
    }
  }

  /** When suffix pointers are shared exactly when the values they point to
      agree, `Equal` as written is value equality. */
  lemma EqualAsWrittenWhenShared(a: BuildId, b: BuildId)
    ensures EqualAsWritten(a, b, a.nbCommits == b.nbCommits, a.revision == b.revision) <==> Equal(a, b)
  {
  }

  /** A build-id variable, updated in place by `Parse`. */
  class BuildIdVar {
    var major: nat
    var minor: nat
    var patch: nat
    var nbCommits: Option<nat>
    var revision: Option<string>

    function Value(): BuildId
      reads this
    {
      BuildId(major, minor, patch, nbCommits, revision)
    }

    /** The zero value of the Go struct: `v0.0.0`, stable. */
    constructor ()
      ensures Value() == BuildId(0, 0, 0, None, None)
    {
      major, minor, patch := 0, 0, 0;
      nbCommits, revision := None, None;
    }

    method Parse(s: string) returns (err: Option<string>)
      modifies this
      ensures err.None? <==> ParseInto(old(Value()), s).Some?
      ensures err.Some? ==> err.value == "invalid format" && Value() == old(Value())
      ensures err.None? ==> Value() == ParseInto(old(Value()), s).value
    {
      var m := Recognise(s);
      if m.None? {
        return Some("invalid format");
      }
      RecogniseSound(s);
      ghost var expected := ParseInto(Value(), s).value;
      major := DigitsToNat(m.value.major);
      minor := DigitsToNat(m.value.minor);
      patch := DigitsToNat(m.value.patch);
      if |m.value.commits| > 0 {
        nbCommits := Some(DigitsToNat(m.value.commits));
        revision := Some(m.value.revision);
      }
      assert Value() == expected;
      err := None;
    }
  }
}
