/**
  Version resolution: which version of a model a request gets.

  A model's versions are its dictionary in insertion order: distinct keys, each the version string of
  its descriptor.
*/
module VersionResolver {
  import opened Prelude
  import opened Models
  import opened Strings
  import opened SemanticVersion

  datatype Descriptor = Descriptor(version: string, state: LoadState, health: HealthStatus)

  datatype EligibilityConfig = EligibilityConfig(
    requiredState: LoadState,
    acceptableHealth: set<HealthStatus>,
    includePrerelease: bool,
    minVersion: Option<string>,
    maxVersion: Option<string>)

  // ---------- sort and pick ----------

  datatype Entry<T> = Entry(semver: SemVer, item: T)

  /** The items that have a version, each with it. */
  function Entries<T>(items: seq<T>, key: T -> Option<SemVer>): seq<Entry<T>> {
    if items == [] then []
    else
      (match key(items[0]) case Some(v) => [Entry(v, items[0])] case None => [])
      + Entries(items[1..], key)
  }

  function Insert<T>(x: Entry<T>, sorted: seq<Entry<T>>): seq<Entry<T>> {
    if sorted == [] || !Lt(x.semver, sorted[0].semver) then [x] + sorted
    else [sorted[0]] + Insert(x, sorted[1..])
  }

  /** `sort(key=..., reverse=True)`: descending, and stable also in reverse. */
  function SortDescending<T>(entries: seq<Entry<T>>): seq<Entry<T>> {
    if entries == [] then [] else Insert(entries[0], SortDescending(entries[1..]))
  }

  function Pick<T>(items: seq<T>, key: T -> Option<SemVer>): Option<T> {
    var sorted := SortDescending(Entries(items, key));
    if sorted == [] then None else Some(sorted[0].item)
  }

  ghost predicate Descending<T>(s: seq<Entry<T>>) {
    forall i, j :: 0 <= i < j < |s| ==> !Lt(s[i].semver, s[j].semver)
  }

  ghost predicate AllWellFormed<T>(s: seq<Entry<T>>) {
    forall e :: e in s ==> WellFormed(e.semver)
  }

  lemma NotLtTransitive(a: SemVer, b: SemVer, c: SemVer)
    requires WellFormed(a) && WellFormed(b) && WellFormed(c)
    requires !Lt(a, b) && !Lt(b, c)
    ensures !Lt(a, c)
  {
    Trichotomy(a, b);
    Trichotomy(b, c);
    if Lt(a, c) {
      if Eq(a, b) {
        EqRespectsLt(a, b, c);
      } else if Eq(b, c) {
        EqRespectsLt(b, c, a);
      } else {
        LtTransitive(c, b, a);
        Trichotomy(a, c);
      }
    }
  }

  lemma {:induction false} InsertPermutes<T>(x: Entry<T>, s: seq<Entry<T>>)
    ensures multiset(Insert(x, s)) == multiset{x} + multiset(s)
  {
    if s != [] && Lt(x.semver, s[0].semver) {
      InsertPermutes(x, s[1..]);
      assert s == [s[0]] + s[1..];
    }
  }

  lemma {:induction false} InsertBelow<T>(h: Entry<T>, x: Entry<T>, s: seq<Entry<T>>)
    requires !Lt(h.semver, x.semver) && forall e :: e in s ==> !Lt(h.semver, e.semver)
    ensures forall e :: e in Insert(x, s) ==> !Lt(h.semver, e.semver)
  {
    if s == [] {
    } else {
      assert forall e :: e in s[1..] ==> e in s;
      InsertBelow(h, x, s[1..]);
    }
  }

  /** A head that nothing exceeds, before a descending rest. */
  lemma ConsDescends<T>(x: Entry<T>, s: seq<Entry<T>>)
    requires Descending(s) && forall e :: e in s ==> !Lt(x.semver, e.semver)
    ensures Descending([x] + s)
  {
  }

  lemma HeadNotExceeded<T>(s: seq<Entry<T>>, e: Entry<T>)
    requires Descending(s) && AllWellFormed(s) && e in s
    ensures !Lt(s[0].semver, e.semver)
  {
    var k :| 0 <= k < |s| && s[k] == e;
    assert s[0] in s;
    if k == 0 {
      Trichotomy(e.semver, e.semver);
    }
  }

  lemma {:induction false} InsertSorts<T>(x: Entry<T>, s: seq<Entry<T>>)
    requires Descending(s) && AllWellFormed(s) && WellFormed(x.semver)
    ensures Descending(Insert(x, s))
  {
    if s == [] {
    } else if !Lt(x.semver, s[0].semver) {
      forall e | e in s ensures !Lt(x.semver, e.semver) {
        HeadNotExceeded(s, e);
        assert s[0] in s;
        NotLtTransitive(x.semver, s[0].semver, e.semver);
      }
      ConsDescends(x, s);
    } else {
      var h, t := s[0], s[1..];
      assert h in s && forall e :: e in t ==> e in s;
      InsertSorts(x, t);
      Trichotomy(x.semver, h.semver);
      forall e | e in t ensures !Lt(h.semver, e.semver) {
        assert e in s;
        HeadNotExceeded(s, e);
      }
      InsertBelow(h, x, t);
      ConsDescends(h, Insert(x, t));
    }
  }

  lemma {:induction false} SortPermutes<T>(entries: seq<Entry<T>>)
    ensures multiset(SortDescending(entries)) == multiset(entries)
  {
    if entries == [] {
    } else {
      SortPermutes(entries[1..]);
      InsertPermutes(entries[0], SortDescending(entries[1..]));
      assert entries == [entries[0]] + entries[1..];
    }
  }

  lemma SortKeepsWellFormed<T>(entries: seq<Entry<T>>)
    requires AllWellFormed(entries)
    ensures AllWellFormed(SortDescending(entries))
  {
    SortPermutes(entries);
    var sorted := SortDescending(entries);
    forall e | e in sorted ensures WellFormed(e.semver) {
      assert e in multiset(sorted);
      assert e in entries;
    }
  }

  lemma {:induction false} SortSorts<T>(entries: seq<Entry<T>>)
    requires AllWellFormed(entries)
    ensures Descending(SortDescending(entries))
    ensures multiset(SortDescending(entries)) == multiset(entries)
  {
    SortPermutes(entries);
    if entries != [] {
      var rest := entries[1..];
      assert AllWellFormed(rest);
      SortSorts(rest);
      SortKeepsWellFormed(rest);
      assert entries[0] in entries;
      InsertSorts(entries[0], SortDescending(rest));
    }
  }

  /** The entries of the same precedence as v, in their order. */
  function Equals<T>(v: SemVer, s: seq<Entry<T>>): seq<Entry<T>> {
    if s == [] then [] else (if Eq(s[0].semver, v) then [s[0]] else []) + Equals(v, s[1..])
  }

  lemma {:induction false} InsertIsStable<T>(x: Entry<T>, s: seq<Entry<T>>, v: SemVer)
    requires WellFormed(x.semver) && AllWellFormed(s)
    ensures Equals(v, Insert(x, s)) == Equals(v, [x] + s)
  {
    assert ([x] + s)[1..] == s;
    if s == [] || !Lt(x.semver, s[0].semver) {
    } else {
      var h, t := s[0], s[1..];
      assert h in s && forall e :: e in t ==> e in s;
      InsertIsStable(x, t, v);
      assert ([x] + t)[1..] == t;
      Trichotomy(x.semver, h.semver);
      assert Insert(x, s)[1..] == Insert(x, t);
    }
  }

  /** The sort is stable: entries of equal precedence keep the order of insertion. */
  lemma {:induction false} SortIsStable<T>(entries: seq<Entry<T>>, v: SemVer)
    requires AllWellFormed(entries)
    ensures Equals(v, SortDescending(entries)) == Equals(v, entries)
  {
    if entries == [] {
    } else {
      var x, rest := entries[0], entries[1..];
      assert AllWellFormed(rest);
      SortIsStable(rest, v);
      SortKeepsWellFormed(rest);
      assert x in entries;
      InsertIsStable(x, SortDescending(rest), v);
      assert ([x] + SortDescending(rest))[1..] == SortDescending(rest);
    }
  }

  lemma {:induction false} EntriesMembers<T>(items: seq<T>, key: T -> Option<SemVer>, e: Entry<T>)
    ensures e in Entries(items, key) <==> e.item in items && key(e.item) == Some(e.semver)
  {
    if items == [] {
    } else {
      EntriesMembers(items[1..], key, e);
      assert items == [items[0]] + items[1..];
    }
  }

  /** No key leads outside the well-formed versions; parsing never does. */
  ghost predicate KeysWellFormed<T>(items: seq<T>, key: T -> Option<SemVer>) {
    forall x :: x in items && key(x).Some? ==> WellFormed(key(x).value)
  }

  /** An item with a version that no other item's version exceeds. */
  ghost predicate Top<T>(items: seq<T>, key: T -> Option<SemVer>, x: T) {
    && x in items && key(x).Some?
    && forall y :: y in items && key(y).Some? ==> !Lt(key(x).value, key(y).value)
  }

  /** The pick is an item of greatest version, and fails only when no item has a version. */
  lemma PickIsTop<T>(items: seq<T>, key: T -> Option<SemVer>)
    requires KeysWellFormed(items, key)
    ensures match Pick(items, key)
      case Some(x) => Top(items, key, x)
      case None => forall x :: x in items ==> key(x) == None
  {
    var entries := Entries(items, key);
    forall e | e in entries ensures WellFormed(e.semver) {
      EntriesMembers(items, key, e);
    }
    SortSorts(entries);
    var sorted := SortDescending(entries);
    forall x | x in items && key(x).Some? ensures sorted != [] && !Lt(sorted[0].semver, key(x).value) {
      var e := Entry(key(x).value, x);
      EntriesMembers(items, key, e);
      assert e in multiset(sorted);
      var k :| 0 <= k < |sorted| && sorted[k] == e;
      Trichotomy(e.semver, e.semver);
    }
    if sorted != [] {
      assert sorted[0] in multiset(sorted);
      assert sorted[0] in entries;
      EntriesMembers(items, key, sorted[0]);
    }
  }

  /** Among equals the sort keeps the order of insertion: a top item that comes first is picked. */
  lemma FirstTopIsPicked<T>(items: seq<T>, key: T -> Option<SemVer>)
    requires KeysWellFormed(items, key) && items != [] && Top(items, key, items[0])
    ensures Pick(items, key) == Some(items[0])
  {
    var rest := items[1..];
    assert forall x :: x in rest ==> x in items;
    var sorted := SortDescending(Entries(rest, key));
    if sorted != [] {
      PickIsTop(rest, key);
      var x := sorted[0].item;
      assert Pick(rest, key) == Some(x);
      HeadHasItsKey(rest, key);
    }
  }

  lemma HeadHasItsKey<T>(items: seq<T>, key: T -> Option<SemVer>)
    requires KeysWellFormed(items, key) && SortDescending(Entries(items, key)) != []
    ensures var h := SortDescending(Entries(items, key))[0]; h.item in items && key(h.item) == Some(h.semver)
  {
    var entries := Entries(items, key);
    forall e | e in entries ensures WellFormed(e.semver) {
      EntriesMembers(items, key, e);
    }
    SortSorts(entries);
    var h := SortDescending(entries)[0];
    assert h in multiset(SortDescending(entries));
    assert h in entries;
    EntriesMembers(items, key, h);
  }

  ghost predicate OneTop<T(!new)>(items: seq<T>, key: T -> Option<SemVer>) {
    forall x, y :: Top(items, key, x) && Top(items, key, y) ==> x == y
  }

  ghost predicate Reordering<T>(a: seq<T>, b: seq<T>) {
    multiset(a) == multiset(b)
  }

  lemma SameTops<T>(a: seq<T>, b: seq<T>, key: T -> Option<SemVer>, x: T)
    requires Reordering(a, b)
    ensures Top(a, key, x) <==> Top(b, key, x)
  {
    assert forall y :: y in a <==> y in multiset(a);
    assert forall y :: y in b <==> y in multiset(b);
  }

  lemma BringToFront<T>(items: seq<T>, x: T) returns (r: seq<T>)
    requires x in items
    ensures r != [] && r[0] == x && Reordering(r, items)
  {
    var k :| 0 <= k < |items| && items[k] == x;
    r := [x] + items[..k] + items[k + 1..];
    assert items == items[..k] + [x] + items[k + 1..];
  }

  /** The pick does not depend on the order of the items exactly when one item alone is on top. */
  lemma PickIgnoresOrder<T(!new)>(items: seq<T>, key: T -> Option<SemVer>)
    requires KeysWellFormed(items, key)
    ensures (forall r :: Reordering(r, items) ==> Pick(r, key) == Pick(items, key)) <==> OneTop(items, key)
  {
    forall r | Reordering(r, items) ensures KeysWellFormed(r, key) {
      assert forall y :: y in r ==> y in multiset(r);
    }
    PickIsTop(items, key);
    if OneTop(items, key) {
      forall r | Reordering(r, items) ensures Pick(r, key) == Pick(items, key) {
        PickIsTop(r, key);
        assert forall y :: y in r <==> y in multiset(r);
        assert forall y :: y in items <==> y in multiset(items);
        if Pick(r, key).Some? {
          SameTops(r, items, key, Pick(r, key).value);
        }
      }
    } else {
      var x, y :| Top(items, key, x) && Top(items, key, y) && x != y;
      var other := if Pick(items, key) == Some(x) then y else x;
      var r := BringToFront(items, other);
      SameTops(r, items, key, other);
      FirstTopIsPicked(r, key);
    }
  }

  // ---------- eligibility ----------

  predicate WithinMin(v: SemVer, bound: Option<string>) {
    bound.Some? && Parse(bound.value).Some? ==> !Lt(v, Parse(bound.value).value)
  }

  predicate WithinMax(v: SemVer, bound: Option<string>) {
    bound.Some? && Parse(bound.value).Some? ==> !Gt(v, Parse(bound.value).value)
  }

  /** `EligibilityConfig.is_eligible`. */
  predicate IsEligible(c: EligibilityConfig, d: Descriptor) {
    && d.state == c.requiredState
    && d.health in c.acceptableHealth
    && var semver := Parse(d.version);
       semver.Some? ==>
         && (semver.value.prerelease == [] || c.includePrerelease)
         && WithinMin(semver.value, c.minVersion)
         && WithinMax(semver.value, c.maxVersion)
  }

  function EligibleKey(c: EligibilityConfig): Descriptor -> Option<SemVer> {
    (d: Descriptor) => if IsEligible(c, d) then Parse(d.version) else None
  }

  ghost predicate DistinctKeys(versions: seq<Descriptor>) {
    forall i, j :: 0 <= i < j < |versions| ==> versions[i].version != versions[j].version
  }

  lemma EligibleKeysWellFormed(versions: seq<Descriptor>, c: EligibilityConfig)
    ensures KeysWellFormed(versions, EligibleKey(c))
  {
  }

  // ---------- the resolver ----------

  /** What automatic resolution asks of a version: load state and health as configured, a version string that
      is one, no prerelease unless included, not before a minimum nor after a maximum that can be read. */
  ghost predicate Meets(c: EligibilityConfig, d: Descriptor) {
    && d.state == c.requiredState
    && d.health in c.acceptableHealth
    && Parse(d.version).Some?
    && var v := Parse(d.version).value;
       && (v.prerelease != [] ==> c.includePrerelease)
       && (c.minVersion.Some? && Parse(c.minVersion.value).Some? ==> !Precedes(v, Parse(c.minVersion.value).value))
       && (c.maxVersion.Some? && Parse(c.maxVersion.value).Some? ==> !Precedes(Parse(c.maxVersion.value).value, v))
  }

  /** The version of d comes after that of e, in the precedence of the standard. */
  ghost predicate Exceeds(d: string, e: string) {
    Parse(d).Some? && Parse(e).Some? && Precedes(Parse(e).value, Parse(d).value)
  }

  lemma ExceedsIsGreater(d: string, e: string)
    requires Parse(d).Some? && Parse(e).Some?
    ensures Exceeds(d, e) <==> Lt(Parse(e).value, Parse(d).value)
  {
    PrintOfParse(d);
    PrintOfParse(e);
    LtIsPrecedence(Parse(e).value, Parse(d).value);
  }

  lemma MeetsExactly(c: EligibilityConfig, d: Descriptor)
    ensures Resolvable(c, d) <==> Meets(c, d)
  {
    if Parse(d.version).Some? {
      var v := Parse(d.version).value;
      PrintOfParse(d.version);
      if c.minVersion.Some? && Parse(c.minVersion.value).Some? {
        PrintOfParse(c.minVersion.value);
        LtIsPrecedence(v, Parse(c.minVersion.value).value);
      }
      if c.maxVersion.Some? && Parse(c.maxVersion.value).Some? {
        PrintOfParse(c.maxVersion.value);
        LtIsPrecedence(Parse(c.maxVersion.value).value, v);
        Trichotomy(v, Parse(c.maxVersion.value).value);
      }
    }
  }

  /** A version that automatic resolution may return. */
  predicate Resolvable(c: EligibilityConfig, d: Descriptor) {
    IsEligible(c, d) && Parse(d.version).Some?
  }

  lemma EntriesFrom<T>(items: seq<T>, key: T -> Option<SemVer>, i: nat)
    requires i < |items|
    ensures Entries(items[i..], key) ==
      (match key(items[i]) case Some(v) => [Entry(v, items[i])] case None => []) + Entries(items[i + 1..], key)
  {
    assert items[i..][1..] == items[i + 1..];
  }

  /** The loop that resolution, listing and the convenience functions share: keep what has a version. */
  method Collect<T>(items: seq<T>, key: T -> Option<SemVer>) returns (parsed: seq<Entry<T>>)
    ensures parsed == Entries(items, key)
  {
    parsed := [];
    ghost var all := Entries(items, key);
    assert items[0..] == items;
    var i := 0;
    while i < |items|
      invariant 0 <= i <= |items|
      invariant parsed + Entries(items[i..], key) == all
    {
      EntriesFrom(items, key, i);
      var semver := key(items[i]);
      if semver.Some? {
        parsed := parsed + [Entry(semver.value, items[i])];
      }
      i := i + 1;
    }
  }

  method Highest<T>(items: seq<T>, key: T -> Option<SemVer>) returns (r: Option<T>)
    requires KeysWellFormed(items, key)
    ensures r == Pick(items, key)
    ensures match r
      case Some(x) => Top(items, key, x)
      case None => forall x :: x in items ==> key(x) == None
  {
    var parsed := Collect(items, key);
    var sorted := SortDescending(parsed);
    PickIsTop(items, key);
    r := if sorted == [] then None else Some(sorted[0].item);
  }

  /** `_resolve_automatic`. */
  method ResolveAutomatic(versions: seq<Descriptor>, c: EligibilityConfig) returns (r: Option<Descriptor>)
    ensures r == Pick(versions, EligibleKey(c))
    ensures r == None <==> forall d :: d in versions ==> !Meets(c, d)
    ensures r.Some? ==>
      && r.value in versions && Meets(c, r.value)
      && forall d :: d in versions && Meets(c, d) ==> !Exceeds(d.version, r.value.version)
  {
    EligibleKeysWellFormed(versions, c);
    r := Highest(versions, EligibleKey(c));
    forall d ensures EligibleKey(c)(d).Some? <==> Meets(c, d) {
      MeetsExactly(c, d);
    }
    if r.Some? {
      forall d | d in versions && Meets(c, d) ensures !Exceeds(d.version, r.value.version) {
        ExceedsIsGreater(d.version, r.value.version);
      }
    }
  }

  function Items<T>(entries: seq<Entry<T>>): (items: seq<T>)
    ensures |items| == |entries| && forall i :: 0 <= i < |items| ==> items[i] == entries[i].item
  {
    if entries == [] then [] else [entries[0].item] + Items(entries[1..])
  }

  /** The items that have a version, in their order. */
  function Having<T>(items: seq<T>, key: T -> Option<SemVer>): seq<T> {
    if items == [] then [] else (if key(items[0]).Some? then [items[0]] else []) + Having(items[1..], key)
  }

  lemma {:induction false} ItemsOfEntries<T>(items: seq<T>, key: T -> Option<SemVer>)
    ensures Items(Entries(items, key)) == Having(items, key)
  {
    if items == [] {
    } else {
      ItemsOfEntries(items[1..], key);
      var e := Entries(items, key);
      if key(items[0]).Some? {
        assert e[1..] == Entries(items[1..], key);
      }
    }
  }

  lemma {:induction false} ItemsOfInsert<T>(x: Entry<T>, s: seq<Entry<T>>)
    ensures multiset(Items(Insert(x, s))) == multiset{x.item} + multiset(Items(s))
  {
    if s == [] || !Lt(x.semver, s[0].semver) {
      assert ([x] + s)[1..] == s;
    } else {
      ItemsOfInsert(x, s[1..]);
      assert Insert(x, s)[1..] == Insert(x, s[1..]);
    }
  }

  lemma {:induction false} ItemsOfSort<T>(entries: seq<Entry<T>>)
    ensures multiset(Items(SortDescending(entries))) == multiset(Items(entries))
  {
    if entries == [] {
    } else {
      ItemsOfSort(entries[1..]);
      ItemsOfInsert(entries[0], SortDescending(entries[1..]));
    }
  }

  ghost predicate ListedDescending<T(!new)>(items: seq<T>, key: T -> Option<SemVer>, listing: seq<T>) {
    && multiset(listing) == multiset(Having(items, key))
    && (forall x :: x in listing <==> x in items && key(x).Some?)
    && forall i, j :: 0 <= i < j < |listing| ==>
         key(listing[i]).Some? && key(listing[j]).Some? && !Lt(key(listing[i]).value, key(listing[j]).value)
  }

  lemma SortedEntries<T(!new)>(items: seq<T>, key: T -> Option<SemVer>)
    requires KeysWellFormed(items, key)
    ensures var sorted := SortDescending(Entries(items, key));
      && Descending(sorted)
      && (forall e :: e in sorted ==> e.item in items && key(e.item) == Some(e.semver))
      && (forall x :: x in items && key(x).Some? ==> Entry(key(x).value, x) in sorted)
  {
    var entries := Entries(items, key);
    var sorted := SortDescending(entries);
    forall e ensures e in entries <==> e.item in items && key(e.item) == Some(e.semver) {
      EntriesMembers(items, key, e);
    }
    SortSorts(entries);
    assert forall e :: e in sorted <==> e in multiset(sorted);
    assert forall e :: e in entries <==> e in multiset(entries);
  }

  lemma SortedItems<T(!new)>(items: seq<T>, key: T -> Option<SemVer>, x: T)
    requires KeysWellFormed(items, key)
    ensures x in Items(SortDescending(Entries(items, key))) <==> x in items && key(x).Some?
  {
    var sorted := SortDescending(Entries(items, key));
    var listing := Items(sorted);
    SortedEntries(items, key);
    if x in listing {
      var k :| 0 <= k < |listing| && listing[k] == x;
      assert sorted[k] in sorted;
    }
    if x in items && key(x).Some? {
      var k :| 0 <= k < |sorted| && sorted[k] == Entry(key(x).value, x);
      assert listing[k] == x;
    }
  }

  lemma SortedItemsDescend<T(!new)>(items: seq<T>, key: T -> Option<SemVer>)
    requires KeysWellFormed(items, key)
    ensures ListedDescending(items, key, Items(SortDescending(Entries(items, key))))
  {
    var sorted := SortDescending(Entries(items, key));
    var listing := Items(sorted);
    SortedEntries(items, key);
    ItemsOfSort(Entries(items, key));
    ItemsOfEntries(items, key);
    forall i | 0 <= i < |sorted| ensures key(listing[i]) == Some(sorted[i].semver) {
      assert sorted[i] in sorted;
    }
    forall x ensures x in listing <==> x in items && key(x).Some? {
      SortedItems(items, key, x);
    }
  }

  /** The items that have a version, greatest first. */
  method ListDescending<T(!new)>(items: seq<T>, key: T -> Option<SemVer>) returns (listing: seq<T>)
    requires KeysWellFormed(items, key)
    ensures ListedDescending(items, key, listing)
    ensures (if listing == [] then None else Some(listing[0])) == Pick(items, key)
  {
    var parsed := Collect(items, key);
    var sorted := SortDescending(parsed);
    listing := Items(sorted);
    SortedItemsDescend(items, key);
  }

  lemma {:induction false} HavingCounts<T>(items: seq<T>, key: T -> Option<SemVer>, x: T)
    ensures multiset(Having(items, key))[x] == if key(x).Some? then multiset(items)[x] else 0
  {
    if items == [] {
    } else {
      HavingCounts(items[1..], key, x);
      assert items == [items[0]] + items[1..];
      assert multiset(items) == multiset{items[0]} + multiset(items[1..]);
    }
  }

  /** `get_eligible_versions`: each version that meets what is asked as often as it is there, none exceeded by
      a later one, and the first of them is what automatic resolution returns. */
  method GetEligibleVersions(versions: seq<Descriptor>, c: EligibilityConfig) returns (listing: seq<Descriptor>)
    ensures ListedDescending(versions, EligibleKey(c), listing)
    ensures (if listing == [] then None else Some(listing[0])) == Pick(versions, EligibleKey(c))
    ensures forall d :: multiset(listing)[d] == if Meets(c, d) then multiset(versions)[d] else 0
    ensures forall i, j :: 0 <= i < j < |listing| ==> !Exceeds(listing[j].version, listing[i].version)
  {
    EligibleKeysWellFormed(versions, c);
    listing := ListDescending(versions, EligibleKey(c));
    forall d ensures multiset(listing)[d] == if Meets(c, d) then multiset(versions)[d] else 0 {
      HavingCounts(versions, EligibleKey(c), d);
      MeetsExactly(c, d);
    }
    forall i, j | 0 <= i < j < |listing| ensures !Exceeds(listing[j].version, listing[i].version) {
      assert EligibleKey(c)(listing[i]).Some? && EligibleKey(c)(listing[j]).Some?;
      ExceedsIsGreater(listing[j].version, listing[i].version);
    }
  }

  datatype Resolution =
    | Resolved(descriptor: Descriptor)
    | VersionNotFound
    | VersionNotReady
    | VersionUnhealthy

  function Lookup(versions: seq<Descriptor>, version: string): Option<Descriptor> {
    if versions == [] then None
    else if versions[0].version == version then Some(versions[0])
    else Lookup(versions[1..], version)
  }

  /** `_resolve_explicit`, in the order of its tests. */
  function ResolveExplicit(versions: seq<Descriptor>, version: string, c: EligibilityConfig): Resolution {
    match Lookup(versions, version)
    case None => VersionNotFound
    case Some(d) =>
      if d.state != c.requiredState then VersionNotReady
      else if d.health !in c.acceptableHealth then VersionUnhealthy
      else Resolved(d)
  }

  lemma {:induction false} LookupMember(versions: seq<Descriptor>, version: string)
    ensures match Lookup(versions, version)
      case Some(d) => d in versions && d.version == version
      case None => forall d :: d in versions ==> d.version != version
  {
    if versions == [] {
    } else {
      assert versions == [versions[0]] + versions[1..];
      LookupMember(versions[1..], version);
    }
  }

  lemma {:induction false} LookupFinds(versions: seq<Descriptor>, d: Descriptor)
    requires DistinctKeys(versions) && d in versions
    ensures Lookup(versions, d.version) == Some(d)
  {
    if versions[0] != d {
      assert versions == [versions[0]] + versions[1..];
      var k :| 0 <= k < |versions| && versions[k] == d;
      assert versions[0].version != versions[k].version;
      forall i, j | 0 <= i < j < |versions[1..]| ensures versions[1..][i].version != versions[1..][j].version {
        assert versions[i + 1].version != versions[j + 1].version;
      }
      LookupFinds(versions[1..], d);
    }
  }

  /** The answer to a request by name, from the one version of that name alone: neither prereleases nor the
      bounds matter. */
  lemma ResolveExplicitExactly(versions: seq<Descriptor>, d: Descriptor, version: string, c: EligibilityConfig)
    requires DistinctKeys(versions)
    ensures ResolveExplicit(versions, version, c) == VersionNotFound <==>
      forall e :: e in versions ==> e.version != version
    ensures d in versions && d.version == version ==>
      ResolveExplicit(versions, version, c) ==
        if d.state != c.requiredState then VersionNotReady
        else if d.health !in c.acceptableHealth then VersionUnhealthy
        else Resolved(d)
  {
    LookupMember(versions, version);
    if d in versions && d.version == version {
      LookupFinds(versions, d);
    }
  }

  /** Asking by name for what automatic resolution chose gives the same descriptor. */
  lemma AutomaticReresolves(versions: seq<Descriptor>, c: EligibilityConfig)
    requires DistinctKeys(versions) && Pick(versions, EligibleKey(c)).Some?
    ensures var d := Pick(versions, EligibleKey(c)).value; ResolveExplicit(versions, d.version, c) == Resolved(d)
  {
    EligibleKeysWellFormed(versions, c);
    PickIsTop(versions, EligibleKey(c));
    LookupFinds(versions, Pick(versions, EligibleKey(c)).value);
  }

  /** Resolution does not depend on the load order exactly when no two of the highest eligible versions
      are equal in precedence. */
  lemma AutomaticIgnoresLoadOrder(versions: seq<Descriptor>, c: EligibilityConfig)
    ensures (forall r :: Reordering(r, versions) ==> Pick(r, EligibleKey(c)) == Pick(versions, EligibleKey(c))) <==>
            OneTop(versions, EligibleKey(c))
  {
    EligibleKeysWellFormed(versions, c);
    PickIgnoresOrder(versions, EligibleKey(c));
  }

  /** Keys without build metadata never tie, because equal versions print alike. */
  lemma NoBuildNoTie(versions: seq<Descriptor>, c: EligibilityConfig)
    requires DistinctKeys(versions)
    requires forall i :: 0 <= i < |versions| ==> '+' !in versions[i].version
    ensures OneTop(versions, EligibleKey(c))
  {
    var key := EligibleKey(c);
    forall x, y | Top(versions, key, x) && Top(versions, key, y) ensures x == y {
      PrintOfParse(x.version);
      PrintOfParse(y.version);
      var v, w := Parse(x.version).value, Parse(y.version).value;
      Trichotomy(v, w);
      var i :| 0 <= i < |versions| && versions[i] == x;
      var j :| 0 <= j < |versions| && versions[j] == y;
      CutNothing(x.version, '+');
      CutNothing(y.version, '+');
      assert v == w;
      assert versions[i].version == versions[j].version;
    }
  }

  /** Two eligible versions that are equal in precedence: the order of loading decides. */
  lemma EqualVersionsTie(c: EligibilityConfig, a: Descriptor, b: Descriptor)
    requires a != b && Resolvable(c, a) && Resolvable(c, b)
    requires Eq(Parse(a.version).value, Parse(b.version).value)
    ensures Pick([a, b], EligibleKey(c)) == Some(a) && Pick([b, a], EligibleKey(c)) == Some(b)
  {
    PrintOfParse(a.version);
    PrintOfParse(b.version);
    var key := EligibleKey(c);
    var v, w := Parse(a.version).value, Parse(b.version).value;
    assert key(a) == Some(v) && key(b) == Some(w);
    TieIsPickedInOrder(a, b, key, v, w);
    TieIsPickedInOrder(b, a, key, w, v);
  }

  lemma TieIsPickedInOrder<T>(a: T, b: T, key: T -> Option<SemVer>, v: SemVer, w: SemVer)
    requires key(a) == Some(v) && key(b) == Some(w) && WellFormed(v) && WellFormed(w) && Eq(v, w)
    ensures Pick([a, b], key) == Some(a)
  {
    Trichotomy(v, v);
    Trichotomy(v, w);
    assert Top([a, b], key, [a, b][0]);
    FirstTopIsPicked([a, b], key);
  }

  /** Two builds of one version are such a pair: different keys, equal in precedence. */
  lemma BuildsAreEqual(v: SemVer)
    requires WellFormed(v)
    ensures var s, t := Print(v.(build := "a")), Print(v.(build := "b"));
      s != t && Parse(s).Some? && Parse(t).Some? && Eq(Parse(s).value, Parse(t).value)
  {
    CutNothing("a", '.');
    CutNothing("b", '.');
    var x, y := v.(build := "a"), v.(build := "b");
    assert WellFormed(x) && WellFormed(y);
    ParseOfPrint(x);
    ParseOfPrint(y);
    assert x.build[0] != y.build[0];
  }

  // ---------- the convenience functions ----------

  function AnyKey(): string -> Option<SemVer> {
    (s: string) => Parse(s)
  }

  function StableKey(): string -> Option<SemVer> {
    (s: string) => match Parse(s) case Some(v) => if v.prerelease == [] then Some(v) else None case None => None
  }

  lemma ParsedKeysWellFormed(versions: seq<string>)
    ensures KeysWellFormed(versions, AnyKey()) && KeysWellFormed(versions, StableKey())
  {
  }

  /** The string is a version of the wanted kind. */
  predicate Wanted(s: string, stable: bool) {
    Parse(s).Some? && (stable ==> Parse(s).value.prerelease == [])
  }

  /** One of the wanted versions, exceeded by none of them. */
  ghost predicate HighestOf(versions: seq<string>, s: string, stable: bool) {
    s in versions && Wanted(s, stable) && forall t :: t in versions && Wanted(t, stable) ==> !Exceeds(t, s)
  }

  /** `highest_version`: no version exceeds the result, and there is one if anything parses. */
  method HighestVersion(versions: seq<string>) returns (r: Option<string>)
    ensures match r
      case Some(s) => HighestOf(versions, s, false)
      case None => forall s :: s in versions ==> !Wanted(s, false)
  {
    ParsedKeysWellFormed(versions);
    r := Highest(versions, AnyKey());
    if r.Some? {
      forall t | t in versions && Wanted(t, false) ensures !Exceeds(t, r.value) {
        ExceedsIsGreater(t, r.value);
      }
    }
  }

  /** `highest_stable_version`: the same among the versions that are not prereleases. */
  method HighestStableVersion(versions: seq<string>) returns (r: Option<string>)
    ensures match r
      case Some(s) => HighestOf(versions, s, true)
      case None => forall s :: s in versions ==> !Wanted(s, true)
  {
    ParsedKeysWellFormed(versions);
    r := Highest(versions, StableKey());
    if r.Some? {
      forall t | t in versions && Wanted(t, true) ensures !Exceeds(t, r.value) {
        ExceedsIsGreater(t, r.value);
      }
    }
  }
}
