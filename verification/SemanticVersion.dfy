/**
  Semantic versions: the parser, the printer and the order.

  Strings are ASCII without newlines. `IsMatch` writes out the language of SEMVER_PATTERN and its five
  groups; `Parse` is the scanner that finds the only groups there can be.
*/
module SemanticVersion {
  import opened Prelude
  import opened Strings
  import opened Ordering

  datatype SemVer = SemVer(major: nat, minor: nat, patch: nat, prerelease: seq<string>, build: string)

  // ---------- identifiers ----------

  predicate IsLetterOrHyphen(c: char) {
    'a' <= c <= 'z' || 'A' <= c <= 'Z' || c == '-'
  }

  predicate IdChars(s: string) {
    forall i :: 0 <= i < |s| ==> IsDigit(s[i]) || IsLetterOrHyphen(s[i])
  }

  /** A build identifier: `[0-9a-zA-Z-]+`. */
  predicate BuildId(s: string) {
    s != "" && IdChars(s)
  }

  /** A prerelease identifier: no leading zero when it is numeric. */
  predicate PrereleaseId(s: string) {
    BuildId(s) && (AllDigits(s) ==> IsNumeral(s))
  }

  predicate AllBuildIds(ids: seq<string>) {
    forall i :: 0 <= i < |ids| ==> BuildId(ids[i])
  }

  predicate AllPrereleaseIds(ids: seq<string>) {
    forall i :: 0 <= i < |ids| ==> PrereleaseId(ids[i])
  }

  /** What the grammar of sections 2, 9 and 10 of Semantic Versioning 2.0.0 allows. */
  predicate WellFormed(v: SemVer) {
    && AllPrereleaseIds(v.prerelease)
    && (v.build == "" || AllBuildIds(Split(v.build)))
  }

  // ---------- printing and parsing ----------

  function Core(v: SemVer): string {
    Join([Digits(v.major), Digits(v.minor), Digits(v.patch)])
  }

  /** `SemVer.__str__`. */
  function Print(v: SemVer): string {
    var core := Core(v);
    var head := if v.prerelease != [] then core + "-" + Join(v.prerelease) else core;
    if v.build != "" then head + "+" + v.build else head
  }

  /** `parse_semver`. */
  function Parse(s: string): Option<SemVer> {
    var head, build := Before(s, '+'), Rest(s, '+');
    var nums, pre := Split(Before(head, '-')), Rest(head, '-');
    if && |nums| == 3 && IsNumeral(nums[0]) && IsNumeral(nums[1]) && IsNumeral(nums[2])
       && (pre.Some? ==> AllPrereleaseIds(Split(pre.value)))
       && (build.Some? ==> AllBuildIds(Split(build.value)))
    then
      Some(SemVer(Number(nums[0]), Number(nums[1]), Number(nums[2]),
                  if pre.Some? then Split(pre.value) else [],
                  if build.Some? then build.value else ""))
    else None
  }

  // ---------- the regular expression ----------

  datatype Groups = Groups(major: string, minor: string, patch: string, pre: Option<string>, build: Option<string>)

  /** `\d*[a-zA-Z-][0-9a-zA-Z-]*`. */
  ghost predicate AlphanumericId(s: string) {
    exists i :: 0 <= i < |s| && AllDigits(s[..i]) && IsLetterOrHyphen(s[i]) && IdChars(s[i + 1..])
  }

  /** `0|[1-9]\d*|\d*[a-zA-Z-][0-9a-zA-Z-]*`. */
  ghost predicate IdPattern(s: string) {
    IsNumeral(s) || AlphanumericId(s)
  }

  /** One identifier, and any number of further ones after dots. */
  ghost predicate DottedList(s: string, id: string -> bool) {
    exists ids: seq<string> :: ids != [] && s == Join(ids) && forall i :: 0 <= i < |ids| ==> id(ids[i])
  }

  ghost predicate IsMatch(s: string, g: Groups) {
    && IsNumeral(g.major) && IsNumeral(g.minor) && IsNumeral(g.patch)
    && (g.pre.Some? ==> DottedList(g.pre.value, IdPattern))
    && (g.build.Some? ==> DottedList(g.build.value, BuildId))
    && s == Assemble(g.major + "." + g.minor + "." + g.patch, g.pre, g.build)
  }

  /** The optional sections after a core. */
  function Head(core: string, pre: Option<string>): string {
    match pre case None => core case Some(p) => core + "-" + p
  }

  function Assemble(core: string, pre: Option<string>, build: Option<string>): string {
    match build case None => Head(core, pre) case Some(b) => Head(core, pre) + "+" + b
  }

  /** The version that `parse_semver` builds from the groups of a match. */
  function FromGroups(g: Groups): SemVer
    requires IsNumeral(g.major) && IsNumeral(g.minor) && IsNumeral(g.patch)
  {
    SemVer(Number(g.major), Number(g.minor), Number(g.patch),
           if g.pre.Some? then Split(g.pre.value) else [],
           if g.build.Some? then g.build.value else "")
  }

  lemma IdPatternIsPrereleaseId(s: string)
    ensures IdPattern(s) <==> PrereleaseId(s)
  {
    if PrereleaseId(s) && !AllDigits(s) {
      var i := FirstNonDigit(s);
      assert AllDigits(s[..i]) && IsLetterOrHyphen(s[i]) && IdChars(s[i + 1..]);
    }
    if AlphanumericId(s) {
      var i :| 0 <= i < |s| && AllDigits(s[..i]) && IsLetterOrHyphen(s[i]) && IdChars(s[i + 1..]);
      forall k | 0 <= k < |s| ensures IsDigit(s[k]) || IsLetterOrHyphen(s[k]) {
        if k < i {
          assert s[k] == s[..i][k];
        } else if k > i {
          assert s[k] == s[i + 1..][k - i - 1];
        }
      }
      assert !IsDigit(s[i]);
    }
  }

  lemma {:induction false} FirstNonDigit(s: string) returns (i: nat)
    requires !AllDigits(s)
    ensures i < |s| && AllDigits(s[..i]) && !IsDigit(s[i])
  {
    if !IsDigit(s[0]) {
      i := 0;
    } else {
      var j := FirstNonDigit(s[1..]);
      i := j + 1;
      assert s[..i] == [s[0]] + s[1..][..j];
    }
  }

  lemma NumeralAvoids(s: string, c: char)
    requires AllDigits(s) && !IsDigit(c)
    ensures c !in s
  {
  }

  lemma IdsAvoid(ids: seq<string>, c: char)
    requires ids != [] && AllBuildIds(ids) && c != '.' && !IsDigit(c) && !IsLetterOrHyphen(c)
    ensures c !in Join(ids)
  {
  }

  lemma IdsHaveNoDots(ids: seq<string>)
    requires AllBuildIds(ids)
    ensures NoDots(ids)
  {
  }

  lemma CoreAvoids(a: string, b: string, c: string)
    requires AllDigits(a) && AllDigits(b) && AllDigits(c)
    ensures '-' !in a + "." + b + "." + c && '+' !in a + "." + b + "." + c
  {
  }

  /** Cutting at the first plus and then at the first hyphen finds the three sections of a version. */
  lemma Sections(core: string, pre: Option<string>, build: Option<string>)
    requires '-' !in core && '+' !in core && (pre.Some? ==> '+' !in pre.value)
    ensures var s, head := Assemble(core, pre, build), Head(core, pre);
      && Before(s, '+') == head && Rest(s, '+') == build
      && Before(head, '-') == core && Rest(head, '-') == pre
  {
    match build {
      case Some(b) => CutAt(Head(core, pre), '+', b);
      case None => CutNothing(Head(core, pre), '+');
    }
    match pre {
      case Some(p) => CutAt(core, '-', p);
      case None => CutNothing(core, '-');
    }
  }

  lemma SectionsBack(s: string)
    ensures s == Assemble(Before(Before(s, '+'), '-'), Rest(Before(s, '+'), '-'), Rest(s, '+'))
  {
    CutBack(s, '+');
    CutBack(Before(s, '+'), '-');
  }

  lemma DottedBuild(s: string)
    ensures DottedList(s, BuildId) <==> AllBuildIds(Split(s))
  {
    JoinOfSplit(s);
    if DottedList(s, BuildId) {
      var ids: seq<string> :| ids != [] && s == Join(ids) && forall i :: 0 <= i < |ids| ==> BuildId(ids[i]);
      IdsHaveNoDots(ids);
      SplitOfJoin(ids);
    }
    if AllBuildIds(Split(s)) {
      var ids := Split(s);
      assert ids != [] && s == Join(ids) && forall i :: 0 <= i < |ids| ==> BuildId(ids[i]);
    }
  }

  lemma DottedPrerelease(s: string)
    ensures DottedList(s, IdPattern) <==> AllPrereleaseIds(Split(s))
  {
    JoinOfSplit(s);
    if DottedList(s, IdPattern) {
      var ids: seq<string> :| ids != [] && s == Join(ids) && forall i :: 0 <= i < |ids| ==> IdPattern(ids[i]);
      forall i | 0 <= i < |ids| ensures PrereleaseId(ids[i]) {
        IdPatternIsPrereleaseId(ids[i]);
      }
      IdsHaveNoDots(ids);
      SplitOfJoin(ids);
    }
    if AllPrereleaseIds(Split(s)) {
      var ids := Split(s);
      forall i | 0 <= i < |ids| ensures IdPattern(ids[i]) {
        IdPatternIsPrereleaseId(ids[i]);
      }
      assert ids != [] && s == Join(ids);
    }
  }

  lemma PrereleaseAvoidsPlus(s: string)
    requires AllPrereleaseIds(Split(s))
    ensures '+' !in s
  {
    JoinOfSplit(s);
    IdsAvoid(Split(s), '+');
  }

  lemma JoinThree(a: string, b: string, c: string)
    ensures Join([a, b, c]) == a + "." + b + "." + c
  {
    assert [a, b, c][1..] == [b, c] && [b, c][1..] == [c];
    assert Join([b, c]) == b + "." + c;
    assert a + "." + (b + "." + c) == a + "." + b + "." + c;
  }

  lemma SplitNumerals(a: string, b: string, c: string)
    requires AllDigits(a) && AllDigits(b) && AllDigits(c)
    ensures Split(a + "." + b + "." + c) == [a, b, c]
  {
    JoinThree(a, b, c);
    var nums := [a, b, c];
    forall i | 0 <= i < 3 ensures '.' !in nums[i] {
      NumeralAvoids(nums[i], '.');
    }
    SplitOfJoin(nums);
  }

  lemma JoinBackNumerals(s: string)
    requires |Split(s)| == 3
    ensures s == Split(s)[0] + "." + Split(s)[1] + "." + Split(s)[2]
  {
    var nums := Split(s);
    JoinOfSplit(s);
    assert nums == [nums[0], nums[1], nums[2]];
    JoinThree(nums[0], nums[1], nums[2]);
  }

  /** Whatever groups the regular expression finds, they are the ones the scanner finds. */
  lemma MatchDeterminesParse(s: string, g: Groups)
    requires IsMatch(s, g)
    ensures Parse(s) == Some(FromGroups(g))
  {
    SplitNumerals(g.major, g.minor, g.patch);
    CoreAvoids(g.major, g.minor, g.patch);
    if g.pre.Some? {
      DottedPrerelease(g.pre.value);
      PrereleaseAvoidsPlus(g.pre.value);
    }
    if g.build.Some? {
      DottedBuild(g.build.value);
    }
    Sections(g.major + "." + g.minor + "." + g.patch, g.pre, g.build);
  }

  /** The groups the scanner cuts out. */
  function GroupsOf(s: string): Groups
    requires Parse(s).Some?
  {
    var head := Before(s, '+');
    var nums := Split(Before(head, '-'));
    Groups(nums[0], nums[1], nums[2], Rest(head, '-'), Rest(s, '+'))
  }

  /** A string the scanner accepts is matched, by the groups it cuts out. */
  lemma ParseGivesMatch(s: string)
    requires Parse(s).Some?
    ensures IsMatch(s, GroupsOf(s)) && Parse(s).value == FromGroups(GroupsOf(s))
  {
    SectionsBack(s);
    var head := Before(s, '+');
    JoinBackNumerals(Before(head, '-'));
    if Rest(head, '-').Some? {
      DottedPrerelease(Rest(head, '-').value);
    }
    if Rest(s, '+').Some? {
      DottedBuild(Rest(s, '+').value);
    }
  }

  /** `parse_semver` accepts exactly the language of the regular expression. */
  lemma ParseAcceptsTheLanguage(s: string)
    ensures Parse(s).Some? <==> exists g :: IsMatch(s, g)
  {
    if Parse(s).Some? {
      ParseGivesMatch(s);
    }
    if g :| IsMatch(s, g) {
      MatchDeterminesParse(s, g);
    }
  }

  // ---------- round trips ----------

  function PreSection(v: SemVer): Option<string> {
    if v.prerelease != [] then Some(Join(v.prerelease)) else None
  }

  function BuildSection(v: SemVer): Option<string> {
    if v.build != "" then Some(v.build) else None
  }

  /** The groups that match a printed version. */
  function PrintedGroups(v: SemVer): Groups {
    Groups(Digits(v.major), Digits(v.minor), Digits(v.patch), PreSection(v), BuildSection(v))
  }

  lemma PrintMatches(v: SemVer)
    requires WellFormed(v)
    ensures IsMatch(Print(v), PrintedGroups(v))
  {
    NumberOfDigits(v.major);
    NumberOfDigits(v.minor);
    NumberOfDigits(v.patch);
    JoinThree(Digits(v.major), Digits(v.minor), Digits(v.patch));
    if v.prerelease != [] {
      IdsHaveNoDots(v.prerelease);
      SplitOfJoin(v.prerelease);
      DottedPrerelease(Join(v.prerelease));
    }
    if v.build != "" {
      DottedBuild(v.build);
    }
  }

  /** Parsing what was printed gives every component back. */
  lemma ParseOfPrint(v: SemVer)
    requires WellFormed(v)
    ensures Parse(Print(v)) == Some(v)
  {
    PrintMatches(v);
    MatchDeterminesParse(Print(v), PrintedGroups(v));
    NumberOfDigits(v.major);
    NumberOfDigits(v.minor);
    NumberOfDigits(v.patch);
    if v.prerelease != [] {
      IdsHaveNoDots(v.prerelease);
      SplitOfJoin(v.prerelease);
    }
  }

  lemma DottedNotEmpty(s: string)
    requires AllBuildIds(Split(s))
    ensures s != ""
  {
    assert Split("") == [""];
    assert !BuildId([""][0]);
  }

  /** Printing what was parsed gives the string back. */
  lemma PrintOfParse(s: string)
    requires Parse(s).Some?
    ensures WellFormed(Parse(s).value) && Print(Parse(s).value) == s
  {
    ParseGivesMatch(s);
    var g, v := GroupsOf(s), Parse(s).value;
    DigitsOfNumber(g.major);
    DigitsOfNumber(g.minor);
    DigitsOfNumber(g.patch);
    JoinThree(g.major, g.minor, g.patch);
    assert Core(v) == g.major + "." + g.minor + "." + g.patch;
    if g.pre.Some? {
      JoinOfSplit(g.pre.value);
    }
    if g.build.Some? {
      DottedNotEmpty(g.build.value);
    }
    assert PreSection(v) == g.pre && BuildSection(v) == g.build;
  }

  // ---------- the order ----------

  function CompareChars(x: char, y: char): int {
    if x < y then -1 else if x > y then 1 else 0
  }

  function CompareStrings(x: string, y: string): int {
    Lex(CompareChars, x, y)
  }

  /** `str.isdigit` on ASCII. */
  predicate IsNumeric(s: string) {
    s != "" && AllDigits(s)
  }

  function CompareIds(x: string, y: string): int {
    if IsNumeric(x) && IsNumeric(y) then
      if Number(x) < Number(y) then -1 else if Number(x) > Number(y) then 1 else 0
    else if IsNumeric(x) then -1
    else if IsNumeric(y) then 1
    else CompareStrings(x, y)
  }

  function ComparePrerelease(a: seq<string>, b: seq<string>): int {
    Lex(CompareIds, a, b)
  }

  lemma {:induction false} LexIsSign<T>(cmp: (T, T) -> int, a: seq<T>, b: seq<T>)
    requires forall x, y :: x in a && y in b ==> -1 <= cmp(x, y) <= 1
    ensures -1 <= Lex(cmp, a, b) <= 1
  {
    if a == [] || b == [] {
    } else {
      assert a[0] in a && b[0] in b;
      assert forall x :: x in a[1..] ==> x in a;
      assert forall x :: x in b[1..] ==> x in b;
      LexIsSign(cmp, a[1..], b[1..]);
    }
  }

  /** `_compare_prerelease`, the loop over the paired identifiers. */
  method ComparePrereleaseLoop(a: seq<string>, b: seq<string>) returns (c: int)
    ensures c == ComparePrerelease(a, b)
  {
    var i := 0;
    while i < |a| && i < |b|
      invariant 0 <= i <= |a| && i <= |b|
      invariant ComparePrerelease(a, b) == ComparePrerelease(a[i..], b[i..])
    {
      var x, y := a[i], b[i];
      if IsNumeric(x) && IsNumeric(y) {
        if Number(x) != Number(y) {
          return if Number(x) < Number(y) then -1 else 1;
        }
      } else if IsNumeric(x) {
        return -1;
      } else if IsNumeric(y) {
        return 1;
      } else {
        CharsTotal();
        LexZero(CompareChars, AnyChar, x, y);
        LexIsSign(CompareChars, x, y);
        if x != y {
          return if CompareStrings(x, y) < 0 then -1 else 1;
        }
      }
      assert a[i..][1..] == a[i + 1..] && b[i..][1..] == b[i + 1..];
      i := i + 1;
    }
    if |a| != |b| {
      return if |a| < |b| then -1 else 1;
    }
    return 0;
  }

  predicate AnyChar(c: char) {
    true
  }

  lemma CharsTotal()
    ensures Total(CompareChars, AnyChar)
  {
  }

  lemma StringsTotal(x: string, y: string, z: string)
    ensures CompareStrings(x, y) == 0 <==> x == y
    ensures CompareStrings(x, y) < 0 <==> CompareStrings(y, x) > 0
    ensures CompareStrings(x, y) < 0 && CompareStrings(y, z) < 0 ==> CompareStrings(x, z) < 0
  {
    CharsTotal();
    LexZero(CompareChars, AnyChar, x, y);
    LexSwap(CompareChars, AnyChar, x, y);
    if CompareStrings(x, y) < 0 && CompareStrings(y, z) < 0 {
      LexTransitive(CompareChars, AnyChar, x, y, z);
    }
  }

  lemma IdsCompare(x: string, y: string, z: string)
    requires PrereleaseId(x) && PrereleaseId(y) && PrereleaseId(z)
    ensures CompareIds(x, y) == 0 <==> x == y
    ensures CompareIds(x, y) < 0 <==> CompareIds(y, x) > 0
    ensures CompareIds(x, y) < 0 && CompareIds(y, z) < 0 ==> CompareIds(x, z) < 0
  {
    StringsTotal(x, y, z);
    if IsNumeric(x) && IsNumeric(y) {
      DigitsOfNumber(x);
      DigitsOfNumber(y);
    }
  }

  /** Well-formed identifiers are totally ordered; without the ban on leading zeros they are not. */
  lemma IdsTotal()
    ensures Total(CompareIds, PrereleaseId)
    ensures CompareIds("01", "1") == 0
  {
    forall x, y | PrereleaseId(x) && PrereleaseId(y)
      ensures (CompareIds(x, y) == 0 <==> x == y) && (CompareIds(x, y) < 0 <==> CompareIds(y, x) > 0)
    {
      IdsCompare(x, y, y);
    }
    forall x, y, z | PrereleaseId(x) && PrereleaseId(y) && PrereleaseId(z) &&
                     CompareIds(x, y) < 0 && CompareIds(y, z) < 0
      ensures CompareIds(x, z) < 0
    {
      IdsCompare(x, y, z);
    }
    assert Number("01"[..1]) == 0 by { assert "01"[..1][..0] == ""; }
    assert Number("1") == 1 by { assert "1"[..0] == ""; }
  }

  /** `__eq__`: the build is ignored. */
  predicate Eq(a: SemVer, b: SemVer) {
    a.major == b.major && a.minor == b.minor && a.patch == b.patch && a.prerelease == b.prerelease
  }

  /** `__lt__`. */
  predicate Lt(a: SemVer, b: SemVer) {
    if a.major != b.major then a.major < b.major
    else if a.minor != b.minor then a.minor < b.minor
    else if a.patch != b.patch then a.patch < b.patch
    else if a.prerelease != [] && b.prerelease == [] then true
    else if a.prerelease == [] && b.prerelease != [] then false
    else if a.prerelease == [] && b.prerelease == [] then false
    else ComparePrerelease(a.prerelease, b.prerelease) < 0
  }

  /** `__le__`, `__gt__` and `__ge__`. */
  predicate Le(a: SemVer, b: SemVer) {
    Eq(a, b) || Lt(a, b)
  }

  predicate Gt(a: SemVer, b: SemVer) {
    !(Eq(a, b) || Lt(a, b))
  }

  predicate Ge(a: SemVer, b: SemVer) {
    !Lt(a, b)
  }

  lemma PrereleaseOrder(a: SemVer, b: SemVer)
    requires WellFormed(a) && WellFormed(b)
    ensures ComparePrerelease(a.prerelease, b.prerelease) == 0 <==> a.prerelease == b.prerelease
    ensures ComparePrerelease(a.prerelease, b.prerelease) < 0 <==> ComparePrerelease(b.prerelease, a.prerelease) > 0
  {
    IdsTotal();
    LexZero(CompareIds, PrereleaseId, a.prerelease, b.prerelease);
    LexSwap(CompareIds, PrereleaseId, a.prerelease, b.prerelease);
  }

  /** Exactly one of less, equal and greater holds, and the other operators are derived from them. */
  lemma Trichotomy(a: SemVer, b: SemVer)
    requires WellFormed(a) && WellFormed(b)
    ensures Lt(a, b) ==> !Eq(a, b) && !Lt(b, a)
    ensures Eq(a, b) ==> !Lt(a, b) && !Lt(b, a)
    ensures Lt(a, b) || Eq(a, b) || Lt(b, a)
    ensures Gt(a, b) <==> Lt(b, a)
    ensures Le(a, b) <==> !Lt(b, a)
    ensures Ge(a, b) <==> Le(b, a)
  {
    PrereleaseOrder(a, b);
    PrereleaseOrder(b, a);
  }

  lemma LtTransitive(a: SemVer, b: SemVer, c: SemVer)
    requires WellFormed(a) && WellFormed(b) && WellFormed(c) && Lt(a, b) && Lt(b, c)
    ensures Lt(a, c)
  {
    if a.prerelease != [] && b.prerelease != [] && c.prerelease != [] {
      if ComparePrerelease(a.prerelease, b.prerelease) < 0 && ComparePrerelease(b.prerelease, c.prerelease) < 0 {
        IdsTotal();
        LexTransitive(CompareIds, PrereleaseId, a.prerelease, b.prerelease, c.prerelease);
      }
    }
  }

  /** Equal versions, which may differ in their build, stand in the same relations. */
  lemma EqRespectsLt(a: SemVer, b: SemVer, c: SemVer)
    requires Eq(a, b)
    ensures (Lt(a, c) <==> Lt(b, c)) && (Lt(c, a) <==> Lt(c, b))
  {
  }

  /** Section 11.4.1 and 11.4.2 of Semantic Versioning 2.0.0, by identifier. */
  predicate IdPrecedes(x: string, y: string) {
    if IsNumeric(x) then !IsNumeric(y) || Number(x) < Number(y)
    else !IsNumeric(y) && CompareStrings(x, y) < 0
  }

  /** Precedence as section 11 of Semantic Versioning 2.0.0 words it: major, minor and patch by number;
      then a prerelease before its release; then the first differing identifier, or the larger set. */
  ghost predicate Precedes(a: SemVer, b: SemVer) {
    || a.major < b.major
    || (a.major == b.major && a.minor < b.minor)
    || (a.major == b.major && a.minor == b.minor && a.patch < b.patch)
    || (&& a.major == b.major && a.minor == b.minor && a.patch == b.patch
        && a.prerelease != []
        && (b.prerelease == [] || exists i: nat :: FirstDifference(a.prerelease, b.prerelease, i)))
  }

  ghost predicate FirstDifference(a: seq<string>, b: seq<string>, i: nat) {
    && i <= |a| && i < |b| && a[..i] == b[..i]
    && (i == |a| || IdPrecedes(a[i], b[i]))
  }

  /** `__lt__` is the precedence of the standard. */
  lemma LtIsPrecedence(a: SemVer, b: SemVer)
    requires WellFormed(a) && WellFormed(b)
    ensures Lt(a, b) <==> Precedes(a, b)
  {
    IdsTotal();
    if a.prerelease != [] && b.prerelease != [] {
      if ComparePrerelease(a.prerelease, b.prerelease) < 0 {
        var i := LexFirstDifference(CompareIds, PrereleaseId, a.prerelease, b.prerelease);
        assert FirstDifference(a.prerelease, b.prerelease, i);
      }
      if i: nat :| FirstDifference(a.prerelease, b.prerelease, i) {
        assert FirstDifferenceLess(CompareIds, a.prerelease, b.prerelease, i);
        FirstDifferenceLex(CompareIds, PrereleaseId, a.prerelease, b.prerelease, i);
      }
    }
  }
}
