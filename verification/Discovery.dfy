/**
  The version directories that discovery admits, and what the resolver makes of them. Discovery and the
  resolver read version strings by two different patterns.
*/
module Discovery {
  import opened Prelude
  import opened Strings
  import opened SemanticVersion
  import opened VersionResolver
  import LatestVersion

  /** `[a-zA-Z0-9]+`. */
  predicate AlphanumericId(s: string) {
    BuildId(s) && '-' !in s
  }

  /** VERSION_PATTERN, with its groups: no build, identifiers without hyphens, leading zeros allowed. */
  ghost predicate Admitted(s: string, g: Groups) {
    && IsNumeral(g.major) && IsNumeral(g.minor) && IsNumeral(g.patch)
    && (g.pre.Some? ==> DottedList(g.pre.value, AlphanumericId))
    && g.build == None
    && s == Assemble(g.major + "." + g.minor + "." + g.patch, g.pre, None)
  }

  ghost predicate IsValidVersion(s: string) {
    exists g :: Admitted(s, g)
  }

  predicate LeadingZero(id: string) {
    |id| > 1 && AllDigits(id) && id[0] == '0'
  }

  /** The prerelease has an identifier such as 01. */
  predicate HasLeadingZero(g: Groups) {
    g.pre.Some? && exists i :: 0 <= i < |Split(g.pre.value)| && LeadingZero(Split(g.pre.value)[i])
  }

  lemma DottedAlphanumerics(s: string)
    requires DottedList(s, AlphanumericId)
    ensures forall i :: 0 <= i < |Split(s)| ==> AlphanumericId(Split(s)[i])
    ensures '+' !in s
  {
    var ids: seq<string> :| ids != [] && s == Join(ids) && forall i :: 0 <= i < |ids| ==> AlphanumericId(ids[i]);
    forall i | 0 <= i < |ids| ensures BuildId(ids[i]) {
      assert AlphanumericId(ids[i]);
    }
    IdsHaveNoDots(ids);
    SplitOfJoin(ids);
    IdsAvoid(ids, '+');
  }

  lemma NoLeadingZeroIsPrereleaseId(id: string)
    requires AlphanumericId(id)
    ensures PrereleaseId(id) <==> !LeadingZero(id)
  {
  }

  /** The parser reads an admitted version exactly when its prerelease has no leading zero. */
  lemma AdmittedParses(s: string, g: Groups)
    requires Admitted(s, g)
    ensures '+' !in s
    ensures Parse(s).Some? <==> !HasLeadingZero(g)
  {
    var core := g.major + "." + g.minor + "." + g.patch;
    SplitNumerals(g.major, g.minor, g.patch);
    CoreAvoids(g.major, g.minor, g.patch);
    if g.pre.Some? {
      DottedAlphanumerics(g.pre.value);
      forall i | 0 <= i < |Split(g.pre.value)|
        ensures PrereleaseId(Split(g.pre.value)[i]) <==> !LeadingZero(Split(g.pre.value)[i])
      {
        NoLeadingZeroIsPrereleaseId(Split(g.pre.value)[i]);
      }
    }
    Sections(core, g.pre, None);
  }

  /** And then its prerelease is one that the theorems about `latest_version` speak of. */
  lemma AdmittedIsPlain(s: string, g: Groups)
    requires Admitted(s, g) && !HasLeadingZero(g)
    ensures '+' !in s && Parse(s).Some?
    ensures LatestVersion.AllPlain(Parse(s).value.prerelease) && Parse(s).value.build == ""
  {
    AdmittedParses(s, g);
    LatestVersion.KeyOfParsed(s);
    var core := g.major + "." + g.minor + "." + g.patch;
    CoreAvoids(g.major, g.minor, g.patch);
    if g.pre.Some? {
      DottedAlphanumerics(g.pre.value);
      PrintOfParse(s);
    }
    Sections(core, g.pre, None);
  }

  /** Among discovered versions the load order never matters. */
  lemma DiscoveredIgnoreLoadOrder(versions: seq<Descriptor>, c: EligibilityConfig, r: seq<Descriptor>)
    requires DistinctKeys(versions) && Reordering(r, versions)
    requires forall i :: 0 <= i < |versions| ==> IsValidVersion(versions[i].version)
    ensures Pick(r, EligibleKey(c)) == Pick(versions, EligibleKey(c))
  {
    forall i | 0 <= i < |versions| ensures '+' !in versions[i].version {
      assert IsValidVersion(versions[i].version);
      var g :| Admitted(versions[i].version, g);
      AdmittedParses(versions[i].version, g);
    }
    NoBuildNoTie(versions, c);
    AutomaticIgnoresLoadOrder(versions, c);
  }

  /** A discovered version in the required state and in acceptable health can always be asked for by
      name; with a leading zero in its prerelease automatic resolution never returns it, whatever else
      is loaded. */
  lemma LeadingZeroIsOnlyExplicit(versions: seq<Descriptor>, c: EligibilityConfig, d: Descriptor, g: Groups)
    requires DistinctKeys(versions) && d in versions && Admitted(d.version, g)
    requires d.state == c.requiredState && d.health in c.acceptableHealth
    ensures ResolveExplicit(versions, d.version, c) == Resolved(d)
    ensures HasLeadingZero(g) ==> !Resolvable(c, d) && Pick(versions, EligibleKey(c)) != Some(d)
    ensures HasLeadingZero(g) && (forall e :: e in versions && e != d ==> !Resolvable(c, e)) ==>
      Pick(versions, EligibleKey(c)) == None
  {
    LookupFinds(versions, d);
    AdmittedParses(d.version, g);
    EligibleKeysWellFormed(versions, c);
    PickIsTop(versions, EligibleKey(c));
  }

  lemma OneIdentifier(id: string)
    requires AlphanumericId(id) && '.' !in id
    ensures DottedList(id, AlphanumericId) && Split(id) == [id]
  {
    var ids := [id];
    assert id == Join(ids) && forall i :: 0 <= i < |ids| ==> AlphanumericId(ids[i]);
    SplitOfJoin(ids);
  }

  /** There are such versions: any release number followed by such an identifier, as in 1.0.0-01. */
  lemma AdmittedButUnread(core: Groups, id: string)
    requires IsNumeral(core.major) && IsNumeral(core.minor) && IsNumeral(core.patch) && LeadingZero(id)
    ensures var s := Head(core.major + "." + core.minor + "." + core.patch, Some(id));
      IsValidVersion(s) && Parse(s) == None
  {
    var g := core.(pre := Some(id), build := None);
    OneIdentifier(id);
    assert LeadingZero(Split(id)[0]);
    var s := Head(core.major + "." + core.minor + "." + core.patch, Some(id));
    assert Admitted(s, g);
    AdmittedParses(s, g);
  }
}
