/**
  `ModelDescriptor.latest_version`: the greatest version string under a sort key of its own, which
  compares the prerelease as one piece of text. When it is the highest version, and when it is not.
*/
module LatestVersion {
  import opened Prelude
  import opened Strings
  import opened Ordering
  import opened SemanticVersion
  import VersionResolver

  // ---------- the key ----------

  datatype Key = Key(major: nat, minor: nat, patch: nat, text: string)

  /** `int` of a piece of decimal digits, and its ValueError. */
  function IntOf(s: string): Option<nat> {
    if s != "" && AllDigits(s) then Some(Number(s)) else None
  }

  function PartOf(parts: seq<string>, i: nat): Option<nat> {
    if i < |parts| then IntOf(parts[i]) else Some(0)
  }

  /** `_semver_key`; a release gets a text that sorts after every letter. */
  function SemverKey(s: string): Option<Key> {
    var text := match Rest(s, '-') case None => "~" case Some(p) => p;
    var parts := Split(Before(s, '-'));
    match (PartOf(parts, 0), PartOf(parts, 1), PartOf(parts, 2))
    case (Some(major), Some(minor), Some(patch)) => Some(Key(major, minor, patch, text))
    case _ => None
  }

  /** Tuples compare by their first difference. */
  predicate KeyLt(a: Key, b: Key) {
    if a.major != b.major then a.major < b.major
    else if a.minor != b.minor then a.minor < b.minor
    else if a.patch != b.patch then a.patch < b.patch
    else CompareStrings(a.text, b.text) < 0
  }

  function KeyText(v: SemVer): string {
    if v.prerelease == [] then "~" else Join(v.prerelease)
  }

  function KeyOf(v: SemVer): Key {
    Key(v.major, v.minor, v.patch, KeyText(v))
  }

  lemma NumeralParts(major: nat, minor: nat, patch: nat)
    ensures var parts := Split(Digits(major) + "." + Digits(minor) + "." + Digits(patch));
      PartOf(parts, 0) == Some(major) && PartOf(parts, 1) == Some(minor) && PartOf(parts, 2) == Some(patch)
  {
    NumberOfDigits(major);
    NumberOfDigits(minor);
    NumberOfDigits(patch);
    SplitNumerals(Digits(major), Digits(minor), Digits(patch));
  }

  /** Parts that are missing count as zero. */
  lemma MissingPartsAreZero(major: string)
    requires major != "" && AllDigits(major)
    ensures SemverKey(major) == Some(Key(Number(major), 0, 0, "~"))
  {
    CutNothing(major, '-');
    CutNothing(major, '.');
  }

  lemma CoreText(v: SemVer)
    ensures Core(v) == Digits(v.major) + "." + Digits(v.minor) + "." + Digits(v.patch)
    ensures '-' !in Core(v) && '+' !in Core(v)
  {
    NumberOfDigits(v.major);
    NumberOfDigits(v.minor);
    NumberOfDigits(v.patch);
    JoinThree(Digits(v.major), Digits(v.minor), Digits(v.patch));
    CoreAvoids(Digits(v.major), Digits(v.minor), Digits(v.patch));
  }

  /** The key of a version without build metadata, with its prerelease as text. */
  lemma KeyOfPrint(v: SemVer)
    requires WellFormed(v) && v.build == ""
    ensures SemverKey(Print(v)) == Some(KeyOf(v))
  {
    CoreText(v);
    NumeralParts(v.major, v.minor, v.patch);
    if v.prerelease == [] {
      CutNothing(Core(v), '-');
    } else {
      CutAt(Core(v), '-', Join(v.prerelease));
      assert Print(v) == Core(v) + ['-'] + Join(v.prerelease);
    }
  }

  lemma SplitCons(a: string, r: string)
    requires '.' !in a
    ensures Split(a + "." + r) == [a] + Split(r)
  {
    CutAt(a, '.', r);
  }

  /** Before a character that the beginning does not contain comes at least the beginning. */
  lemma BeforeKeeps(s: string, t: string, c: char)
    requires c !in s
    ensures Before(s + t, c) == s + Before(t, c)
  {
    CutBack(t, c);
    match Rest(t, c) {
      case None =>
        assert c !in s + t;
        CutNothing(s + t, c);
        CutNothing(t, c);
      case Some(r) =>
        var b := Before(t, c);
        assert s + t == (s + b) + [c] + r;
        CutAt(s + b, c, r);
    }
  }

  lemma PlusStays(digits: string, tail: string)
    requires AllDigits(digits) && tail != "" && tail[0] == '+'
    ensures IntOf(Split(digits + tail)[0]) == None
  {
    var s := digits + tail;
    var first := Before(s, '.');
    BeforeKeeps(digits, tail, '.');
    assert tail == "+" + tail[1..];
    BeforeKeeps("+", tail[1..], '.');
    assert first[|digits|] == '+';
    assert Split(s)[0] == first;
  }

  lemma ThreeParts(a: string, b: string, rest: string)
    requires '.' !in a && '.' !in b
    ensures Split(a + "." + (b + "." + rest)) == [a, b] + Split(rest)
  {
    SplitCons(a, b + "." + rest);
    SplitCons(b, rest);
  }

  /** A plus sign stays in the third part of the core, which is then no number. */
  lemma PlusInPatch(major: string, minor: string, patch: string, tail: string)
    requires AllDigits(major) && AllDigits(minor) && AllDigits(patch) && tail != "" && tail[0] == '+'
    ensures PartOf(Split(major + "." + (minor + "." + (patch + tail))), 2) == None
  {
    ThreeParts(major, minor, patch + tail);
    PlusStays(patch, tail);
    assert ([major, minor] + Split(patch + tail))[2] == Split(patch + tail)[0];
  }

  lemma BuildInPatch(major: string, minor: string, patch: string, build: string)
    requires AllDigits(major) && AllDigits(minor) && AllDigits(patch)
    ensures SemverKey(major + "." + minor + "." + patch + ("+" + build)) == None
  {
    var core := major + "." + minor + "." + patch;
    CoreAvoids(major, minor, patch);
    BeforeKeeps(core, "+" + build, '-');
    BeforeKeeps("+", build, '-');
    var tail := Before("+" + build, '-');
    assert core + tail == major + "." + (minor + "." + (patch + tail));
    PlusInPatch(major, minor, patch, tail);
  }

  lemma KeyOfReleaseBuild(v: SemVer)
    requires v.prerelease == [] && v.build != ""
    ensures SemverKey(Print(v)) == None
  {
    CoreText(v);
    NumberOfDigits(v.major);
    NumberOfDigits(v.minor);
    NumberOfDigits(v.patch);
    BuildInPatch(Digits(v.major), Digits(v.minor), Digits(v.patch), v.build);
    assert Print(v) == Core(v) + ("+" + v.build);
  }

  /** With build metadata `latest_version` raises for a release, and puts the build of a prerelease into
      its text. */
  lemma KeyWithBuild(v: SemVer)
    requires WellFormed(v) && v.build != ""
    ensures SemverKey(Print(v)) == if v.prerelease == [] then None
            else Some(KeyOf(v).(text := Join(v.prerelease) + "+" + v.build))
  {
    if v.prerelease == [] {
      KeyOfReleaseBuild(v);
    } else {
      var text := Join(v.prerelease) + "+" + v.build;
      KeyOfSections(v, text);
      assert Print(v) == Core(v) + ['-'] + text;
    }
  }

  lemma KeyOfSections(v: SemVer, text: string)
    ensures SemverKey(Core(v) + ['-'] + text) == Some(Key(v.major, v.minor, v.patch, text))
  {
    CoreText(v);
    NumeralParts(v.major, v.minor, v.patch);
    CutAt(Core(v), '-', text);
  }

  lemma KeyOfParsed(s: string)
    requires Parse(s).Some? && '+' !in s
    ensures Parse(s).value.build == "" && SemverKey(s) == Some(KeyOf(Parse(s).value))
  {
    PrintOfParse(s);
    CutNothing(s, '+');
    KeyOfPrint(Parse(s).value);
  }

  // ---------- the order of the keys ----------

  lemma KeysTotal(a: Key, b: Key, c: Key)
    ensures !KeyLt(a, a)
    ensures KeyLt(a, b) ==> !KeyLt(b, a)
    ensures KeyLt(a, b) || KeyLt(b, a) || a == b
    ensures !KeyLt(a, b) && !KeyLt(b, c) ==> !KeyLt(a, c)
  {
    StringsTotal(a.text, a.text, a.text);
    StringsTotal(a.text, b.text, c.text);
    StringsTotal(b.text, a.text, c.text);
    StringsTotal(c.text, b.text, a.text);
    StringsTotal(a.text, c.text, b.text);
    StringsTotal(b.text, c.text, a.text);
  }

  predicate SameCore(a: SemVer, b: SemVer) {
    a.major == b.major && a.minor == b.minor && a.patch == b.patch
  }

  /** The key orders the two versions as SemVer does. */
  predicate Agrees(a: SemVer, b: SemVer) {
    KeyLt(KeyOf(a), KeyOf(b)) <==> Lt(a, b)
  }

  lemma ReleaseTextIsLast(v: SemVer)
    requires WellFormed(v) && v.prerelease != []
    ensures CompareStrings(KeyText(v), "~") < 0 && CompareStrings("~", KeyText(v)) > 0
  {
    var first := v.prerelease[0];
    assert PrereleaseId(first) && first != "";
    assert KeyText(v)[0] == first[0];
    assert IsDigit(first[0]) || IsLetterOrHyphen(first[0]);
  }

  /** Across different releases, and between a release and its prereleases, it always does. */
  lemma AgreesAcrossReleases(a: SemVer, b: SemVer)
    requires WellFormed(a) && WellFormed(b)
    requires !(SameCore(a, b) && a.prerelease != [] && b.prerelease != [])
    ensures Agrees(a, b)
  {
    if a.prerelease != [] {
      ReleaseTextIsLast(a);
    }
    if b.prerelease != [] {
      ReleaseTextIsLast(b);
    }
    StringsTotal("~", "~", "~");
  }

  // ---------- prereleases of one release ----------

  /** What discovery lets into a prerelease: no hyphens. */
  predicate PlainId(s: string) {
    PrereleaseId(s) && '-' !in s
  }

  predicate AllPlain(ids: seq<string>) {
    forall i :: 0 <= i < |ids| ==> PlainId(ids[i])
  }

  /** All characters come after the dot. */
  predicate AboveDot(s: string) {
    forall i :: 0 <= i < |s| ==> s[i] > '.'
  }

  /** The rest of a dotted list after one of its identifiers. */
  predicate Tail(s: string) {
    s == "" || s[0] == '.'
  }

  lemma PlainIsAboveDot(s: string)
    requires PlainId(s)
    ensures AboveDot(s)
  {
    forall i | 0 <= i < |s| ensures s[i] > '.' {
      assert s[i] in s;
    }
  }

  /** Different identifiers decide the comparison of what they begin. */
  lemma {:induction false} FirstIdDecides(x: string, y: string, u: string, v: string)
    requires AboveDot(x) && AboveDot(y) && x != y && Tail(u) && Tail(v)
    ensures CompareStrings(x + u, y + v) == CompareStrings(x, y) != 0
  {
    if x == "" {
      assert x + u == u && (y + v)[0] == y[0];
    } else if y == "" {
      assert y + v == v && (x + u)[0] == x[0];
    } else {
      assert (x + u)[0] == x[0] && (y + v)[0] == y[0];
      assert (x + u)[1..] == x[1..] + u && (y + v)[1..] == y[1..] + v;
      if x[0] == y[0] {
        assert x == [x[0]] + x[1..] && y == [y[0]] + y[1..];
        FirstIdDecides(x[1..], y[1..], u, v);
      }
    }
  }

  /** An equal beginning does not matter. */
  lemma {:induction false} CommonPrefix(x: string, u: string, v: string)
    ensures CompareStrings(x + u, x + v) == CompareStrings(u, v)
  {
    if x == "" {
      assert x + u == u && x + v == v;
    } else {
      assert (x + u)[1..] == x[1..] + u && (x + v)[1..] == x[1..] + v;
      CommonPrefix(x[1..], u, v);
    }
  }

  /** What follows the first identifier in the joined list. */
  function TailOf(ids: seq<string>): (t: string)
    requires ids != []
    ensures Tail(t) && Join(ids) == ids[0] + t
  {
    if |ids| == 1 then "" else "." + Join(ids[1..])
  }

  function CompareLists(a: seq<string>, b: seq<string>): int {
    Lex(CompareStrings, a, b)
  }

  /** The text of a prerelease sorts as the list of its identifiers does when they are compared as text. */
  lemma {:induction false} JoinedTextOrder(a: seq<string>, b: seq<string>)
    requires a != [] && b != [] && AllPlain(a) && AllPlain(b)
    ensures CompareStrings(Join(a), Join(b)) == CompareLists(a, b)
  {
    var x, y := a[0], b[0];
    PlainIsAboveDot(x);
    PlainIsAboveDot(y);
    StringsTotal(x, y, y);
    if x != y {
      FirstIdDecides(x, y, TailOf(a), TailOf(b));
    } else {
      CommonPrefix(x, TailOf(a), TailOf(b));
      if |a| > 1 && |b| > 1 {
        CommonPrefix(".", Join(a[1..]), Join(b[1..]));
        JoinedTextOrder(a[1..], b[1..]);
      } else {
        assert |a| == 1 ==> a[1..] == [];
        assert |b| == 1 ==> b[1..] == [];
        assert CompareStrings(TailOf(a), TailOf(b)) == CompareLists(a[1..], b[1..]);
      }
    }
  }

  /** Two identifiers compare alike as text and as identifiers. */
  predicate Alike(x: string, y: string) {
    CompareStrings(x, y) < 0 <==> CompareIds(x, y) < 0
  }

  /** The lists are the same before i and differ there. */
  predicate DifferAt(a: seq<string>, b: seq<string>, i: nat) {
    i < |a| && i < |b| && a[..i] == b[..i] && a[i] != b[i]
  }

  predicate AlikeAt(a: seq<string>, b: seq<string>, i: nat) {
    DifferAt(a, b, i) ==> Alike(a[i], b[i])
  }

  lemma DifferLater(a: seq<string>, b: seq<string>, i: nat)
    requires a != [] && b != [] && a[0] == b[0]
    ensures DifferAt(a, b, i + 1) <==> DifferAt(a[1..], b[1..], i)
  {
    if i < |a| - 1 && i < |b| - 1 {
      assert a[..i + 1] == [a[0]] + a[1..][..i];
      assert b[..i + 1] == [b[0]] + b[1..][..i];
      assert a[1..][..i] == a[..i + 1][1..] && b[1..][..i] == b[..i + 1][1..];
    }
  }

  lemma AlikeLater(a: seq<string>, b: seq<string>)
    requires a != [] && b != [] && a[0] == b[0]
    ensures (forall i: nat :: AlikeAt(a, b, i)) <==> (forall i: nat :: AlikeAt(a[1..], b[1..], i))
  {
    forall i: nat ensures AlikeAt(a, b, i + 1) <==> AlikeAt(a[1..], b[1..], i) {
      DifferLater(a, b, i);
    }
    assert AlikeAt(a, b, 0);
    if forall i: nat :: AlikeAt(a[1..], b[1..], i) {
      forall i: nat ensures AlikeAt(a, b, i) {
        if i > 0 {
          assert AlikeAt(a[1..], b[1..], i - 1);
          assert AlikeAt(a, b, (i - 1) + 1);
        }
      }
    }
    if forall i: nat :: AlikeAt(a, b, i) {
      forall i: nat ensures AlikeAt(a[1..], b[1..], i) {
        assert AlikeAt(a, b, i + 1);
      }
    }
  }

  /** The two orders of lists agree exactly when the first differing identifiers compare alike. */
  lemma {:induction false} ListsAlike(a: seq<string>, b: seq<string>)
    requires AllPlain(a) && AllPlain(b)
    ensures (CompareLists(a, b) < 0 <==> ComparePrerelease(a, b) < 0) <==> forall i: nat :: AlikeAt(a, b, i)
  {
    if a == [] || b == [] {
    } else {
      var x, y := a[0], b[0];
      IdsCompare(x, y, y);
      StringsTotal(x, y, y);
      if x == y {
        AlikeLater(a, b);
        ListsAlike(a[1..], b[1..]);
      } else {
        assert DifferAt(a, b, 0);
        assert AlikeAt(a, b, 0) <==> Alike(x, y);
        assert forall i: nat :: i > 0 && i < |a| && i < |b| ==> a[..i][0] == x && b[..i][0] == y;
      }
    }
  }

  /** Two prereleases of one release are ordered rightly exactly when their first differing identifiers, if
      there are any, compare alike as text and as identifiers. */
  lemma AgreesExactly(a: SemVer, b: SemVer)
    requires WellFormed(a) && WellFormed(b) && SameCore(a, b)
    requires a.prerelease != [] && b.prerelease != [] && AllPlain(a.prerelease) && AllPlain(b.prerelease)
    ensures Agrees(a, b) <==> forall i: nat :: AlikeAt(a.prerelease, b.prerelease, i)
  {
    JoinedTextOrder(a.prerelease, b.prerelease);
    ListsAlike(a.prerelease, b.prerelease);
  }

  // ---------- which identifiers compare alike ----------

  /** Of two numerals the longer is the greater. */
  lemma {:induction false} LongerIsGreater(x: string, y: string)
    requires AllDigits(x) && IsNumeral(y) && x != "" && |x| < |y|
    ensures Number(x) < Number(y)
  {
    var x', y' := x[..|x| - 1], y[..|y| - 1];
    assert y'[0] == y[0] && IsNumeral(y');
    DigitsOfNumber(y');
    if |x| == 1 {
    } else {
      LongerIsGreater(x', y');
    }
  }

  lemma {:induction false} CompareSnoc(x: string, y: string, c: char, d: char)
    requires |x| == |y|
    ensures CompareStrings(x + [c], y + [d]) ==
      if CompareStrings(x, y) != 0 then CompareStrings(x, y) else CompareChars(c, d)
  {
    if x == "" {
      assert [c][1..] == "" && [d][1..] == "" && x + [c] == [c] && y + [d] == [d];
    } else {
      assert (x + [c])[1..] == x[1..] + [c] && (y + [d])[1..] == y[1..] + [d];
      CompareSnoc(x[1..], y[1..], c, d);
    }
  }

  /** Digits of equal length sort as their numbers. */
  lemma {:induction false} EqualLengthOrder(x: string, y: string)
    requires AllDigits(x) && AllDigits(y) && |x| == |y|
    ensures CompareStrings(x, y) < 0 <==> Number(x) < Number(y)
    ensures CompareStrings(x, y) == 0 <==> Number(x) == Number(y)
  {
    if x == "" {
    } else {
      var n := |x| - 1;
      EqualLengthOrder(x[..n], y[..n]);
      CompareSnoc(x[..n], y[..n], x[n], y[n]);
      assert x == x[..n] + [x[n]] && y == y[..n] + [y[n]];
    }
  }

  /** A proper prefix sorts first; otherwise the part of equal length decides. */
  lemma {:induction false} CompareShorter(x: string, y: string)
    requires |x| < |y|
    ensures CompareStrings(x, y) < 0 <==> CompareStrings(x, y[..|x|]) <= 0
    ensures CompareStrings(y, x) < 0 <==> CompareStrings(y[..|x|], x) < 0
  {
    if x == "" {
    } else {
      assert y[..|x|][1..] == y[1..][..|x| - 1];
      CompareShorter(x[1..], y[1..]);
    }
  }

  /** Two identifiers that are not numerals compare alike, and so do numerals of equal length. Numerals of
      unequal length do exactly when the shorter, as text, is not after the beginning of the longer; and a
      numeral and another identifier do exactly when the numeral, as text, is the first, as it is before
      every letter. */
  lemma AlikeExactly(x: string, y: string)
    requires PrereleaseId(x) && PrereleaseId(y)
    ensures !IsNumeric(x) && !IsNumeric(y) ==> Alike(x, y)
    ensures IsNumeric(x) && IsNumeric(y) && |x| == |y| ==> Alike(x, y)
    ensures IsNumeric(x) && IsNumeric(y) && |x| < |y| ==> (Alike(x, y) <==> CompareStrings(x, y[..|x|]) <= 0)
    ensures IsNumeric(x) && IsNumeric(y) && |y| < |x| ==> (Alike(x, y) <==> CompareStrings(x[..|y|], y) >= 0)
    ensures IsNumeric(x) && !IsNumeric(y) ==> (Alike(x, y) <==> CompareStrings(x, y) < 0)
    ensures !IsNumeric(x) && IsNumeric(y) ==> (Alike(x, y) <==> CompareStrings(x, y) >= 0)
  {
    if IsNumeric(x) && IsNumeric(y) {
      if |x| == |y| {
        EqualLengthOrder(x, y);
      } else if |x| < |y| {
        LongerIsGreater(x, y);
        CompareShorter(x, y);
      } else {
        LongerIsGreater(y, x);
        CompareShorter(y, x);
      }
    }
  }

  lemma NumeralBeforeLetter(x: string, y: string)
    requires IsNumeral(x) && PlainId(y) && !IsDigit(y[0])
    ensures Alike(x, y) && Alike(y, x)
  {
    assert y[0] in y;
  }

  // ---------- the maximum ----------

  /** Every key exists: `latest_version` does not raise. */
  predicate Keyed(versions: seq<string>) {
    forall i :: 0 <= i < |versions| ==> SemverKey(versions[i]).Some?
  }

  function KeysOf(versions: seq<string>): (keys: seq<Key>)
    requires Keyed(versions)
    ensures |keys| == |versions| && forall i :: 0 <= i < |keys| ==> SemverKey(versions[i]) == Some(keys[i])
  {
    seq(|versions|, i requires 0 <= i < |versions| => SemverKey(versions[i]).value)
  }

  /** The position of the first of the greatest keys. */
  function MaxIndex(keys: seq<Key>): (i: nat)
    requires keys != []
    ensures i < |keys|
  {
    var n := |keys| - 1;
    if n == 0 then 0
    else
      var best := MaxIndex(keys[..n]);
      if KeyLt(keys[best], keys[n]) then n else best
  }

  /** `max(..., key=_semver_key)`. */
  function Latest(versions: seq<string>): (r: string)
    requires versions != [] && Keyed(versions)
    ensures r in versions
  {
    versions[MaxIndex(KeysOf(versions))]
  }

  datatype Answer = NoVersion | ValueError | Version(version: string)

  /** `latest_version`. */
  function LatestVersion(versions: seq<string>): Answer {
    if versions == [] then NoVersion
    else if !Keyed(versions) then ValueError
    else Version(Latest(versions))
  }

  /** No key exceeds that of the answer, and an earlier one is smaller. */
  lemma {:induction false} MaxIsGreatest(keys: seq<Key>, j: nat)
    requires j < |keys|
    ensures !KeyLt(keys[MaxIndex(keys)], keys[j])
    ensures j < MaxIndex(keys) ==> KeyLt(keys[j], keys[MaxIndex(keys)])
  {
    var n := |keys| - 1;
    if n == 0 {
      KeysTotal(keys[0], keys[0], keys[0]);
    } else {
      var best := MaxIndex(keys[..n]);
      if j < n {
        MaxIsGreatest(keys[..n], j);
        KeysTotal(keys[best], keys[j], keys[n]);
        KeysTotal(keys[j], keys[n], keys[n]);
      }
      KeysTotal(keys[n], keys[n], keys[n]);
    }
  }

  /** Versions as discovery admits and the parser reads them: no build metadata. */
  predicate Plain(versions: seq<string>) {
    forall i :: 0 <= i < |versions| ==> Parse(versions[i]).Some? && '+' !in versions[i]
  }

  ghost predicate PairwiseAgree(versions: seq<string>)
    requires Plain(versions)
  {
    forall i, j :: 0 <= i < |versions| && 0 <= j < |versions| ==>
      Agrees(Parse(versions[i]).value, Parse(versions[j]).value)
  }

  /** The answer is a version that no other exceeds in the order of SemVer. */
  ghost predicate IsHighest(versions: seq<string>, s: string) {
    VersionResolver.Top(versions, VersionResolver.AnyKey(), s)
  }

  lemma PlainIsKeyed(versions: seq<string>)
    requires Plain(versions)
    ensures Keyed(versions)
  {
    forall i | 0 <= i < |versions| ensures SemverKey(versions[i]).Some? {
      KeyOfParsed(versions[i]);
    }
  }

  lemma AgreementGivesHighest(versions: seq<string>)
    requires versions != [] && Plain(versions) && Keyed(versions) && PairwiseAgree(versions)
    ensures IsHighest(versions, Latest(versions))
  {
    var best := Latest(versions);
    var i := MaxIndex(KeysOf(versions));
    forall s | s in versions ensures !Lt(Parse(best).value, Parse(s).value) {
      var j :| 0 <= j < |versions| && versions[j] == s;
      MaxIsGreatest(KeysOf(versions), j);
      KeyOfParsed(best);
      KeyOfParsed(s);
      assert Agrees(Parse(versions[i]).value, Parse(versions[j]).value);
    }
  }

  lemma LatestPair(s: string, t: string)
    requires Keyed([s, t])
    ensures SemverKey(s).Some? && SemverKey(t).Some?
    ensures Latest([s, t]) == if KeyLt(SemverKey(s).value, SemverKey(t).value) then t else s
  {
    var keys := KeysOf([s, t]);
    assert [s, t][0] == s && [s, t][1] == t;
    assert |keys[..1]| == 1 && MaxIndex(keys[..1]) == 0;
  }

  lemma HighestPair(s: string, t: string, v: SemVer, w: SemVer)
    requires Parse(s) == Some(v) && Parse(t) == Some(w) && !Lt(v, v) && !Lt(w, w)
    ensures IsHighest([s, t], s) <==> !Lt(v, w)
    ensures IsHighest([s, t], t) <==> !Lt(w, v)
  {
    assert s in [s, t] && t in [s, t];
  }

  /** Keys and versions of two without build metadata are different together. */
  lemma OrdersDecide(v: SemVer, w: SemVer)
    requires WellFormed(v) && WellFormed(w) && v.build == w.build == ""
    ensures !Lt(v, v)
    ensures if KeyLt(KeyOf(v), KeyOf(w)) then !Lt(w, v) <==> Agrees(v, w) else !Lt(v, w) <==> Agrees(v, w)
  {
    Trichotomy(v, v);
    Trichotomy(v, w);
    KeysTotal(KeyOf(v), KeyOf(w), KeyOf(v));
  }

  /** Of two versions the latest is the highest exactly when the key orders the two rightly. */
  lemma LatestOfTwo(s: string, t: string)
    requires Plain([s, t])
    ensures Keyed([s, t]) && Parse(s).Some? && Parse(t).Some?
    ensures IsHighest([s, t], Latest([s, t])) <==> Agrees(Parse(s).value, Parse(t).value)
  {
    assert [s, t][0] == s && [s, t][1] == t;
    PlainIsKeyed([s, t]);
    KeyOfParsed(s);
    KeyOfParsed(t);
    PrintOfParse(s);
    PrintOfParse(t);
    var v, w := Parse(s).value, Parse(t).value;
    OrdersDecide(v, w);
    OrdersDecide(w, w);
    HighestPair(s, t, v, w);
    LatestPair(s, t);
  }

  ghost predicate DrawnFrom(r: seq<string>, versions: seq<string>) {
    r != [] && forall i :: 0 <= i < |r| ==> r[i] in versions
  }

  ghost predicate LatestIsHighest(r: seq<string>) {
    Keyed(r) && r != [] && IsHighest(r, Latest(r))
  }

  lemma DrawnIsPlain(r: seq<string>, versions: seq<string>)
    requires Plain(versions) && DrawnFrom(r, versions)
    ensures Plain(r) && (PairwiseAgree(versions) ==> PairwiseAgree(r))
  {
    forall k | 0 <= k < |r| ensures Parse(r[k]).Some? && '+' !in r[k] {
      assert r[k] in versions;
      var j :| 0 <= j < |versions| && versions[j] == r[k];
    }
    if PairwiseAgree(versions) {
      forall k, l | 0 <= k < |r| && 0 <= l < |r| ensures Agrees(Parse(r[k]).value, Parse(r[l]).value) {
        assert r[k] in versions && r[l] in versions;
        var i :| 0 <= i < |versions| && versions[i] == r[k];
        var j :| 0 <= j < |versions| && versions[j] == r[l];
        assert Agrees(Parse(versions[i]).value, Parse(versions[j]).value);
      }
    }
  }

  /** `latest_version` is a highest version for whichever of the given versions a model has exactly when the
      key orders every two of them rightly. */
  lemma LatestIsHighestExactly(versions: seq<string>)
    requires Plain(versions)
    ensures (forall r :: DrawnFrom(r, versions) ==> LatestIsHighest(r)) <==> PairwiseAgree(versions)
  {
    if PairwiseAgree(versions) {
      forall r | DrawnFrom(r, versions) ensures LatestIsHighest(r) {
        DrawnIsPlain(r, versions);
        PlainIsKeyed(r);
        AgreementGivesHighest(r);
      }
    }
    if forall r :: DrawnFrom(r, versions) ==> LatestIsHighest(r) {
      forall i, j | 0 <= i < |versions| && 0 <= j < |versions|
        ensures Agrees(Parse(versions[i]).value, Parse(versions[j]).value)
      {
        var r := [versions[i], versions[j]];
        assert DrawnFrom(r, versions);
        DrawnIsPlain(r, versions);
        assert LatestIsHighest(r);
        LatestOfTwo(versions[i], versions[j]);
      }
    }
  }

  lemma SingleNumerals(v: SemVer, x: string, y: string)
    requires IsNumeral(x) && IsNumeral(y) && |x| < |y| && CompareStrings(x, y[..|x|]) > 0
    ensures var a, b := v.(prerelease := [x]), v.(prerelease := [y]);
      Lt(a, b) && !KeyLt(KeyOf(a), KeyOf(b))
  {
    LongerIsGreater(x, y);
    CompareShorter(x, y);
    assert [x][0] == x && [y][0] == y;
  }

  /** Wherever the shorter numeral is, as text, after the beginning of the longer, as 9 is after 10, the
      lower of two prereleases is returned. */
  lemma LatestPicksTheLower(v: SemVer, x: string, y: string)
    requires v.build == "" && IsNumeral(x) && IsNumeral(y)
    requires |x| < |y| && CompareStrings(x, y[..|x|]) > 0
    ensures var a, b := v.(prerelease := [x]), v.(prerelease := [y]);
      && Parse(Print(a)) == Some(a) && Parse(Print(b)) == Some(b) && Lt(a, b)
      && LatestVersion([Print(a), Print(b)]) == Version(Print(a))
  {
    var a, b := v.(prerelease := [x]), v.(prerelease := [y]);
    assert WellFormed(a) && WellFormed(b);
    ParseOfPrint(a);
    ParseOfPrint(b);
    KeyOfPrint(a);
    KeyOfPrint(b);
    SingleNumerals(v, x, y);
    LatestPair(Print(a), Print(b));
  }
}
