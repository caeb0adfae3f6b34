/** Views: the further narrowing of a list or stream that a caller may ask for. */
module View {
  import opened Prelude
  import opened Authorization

  datatype ViewOptions = ViewOptions(showAll: bool, filterCritical: bool)

  datatype ViewMatch = NoView | InView | CriticalOnly | Outside

  datatype ResolvedView = ResolvedView(groups: seq<seq<Matcher>>, options: ViewOptions, requested: bool)
  {
    /** A view that has no selector at all lets everything through. */
    predicate Active() { requested && |groups| > 0 }

    predicate Filtering() { Active() && !options.showAll }
  }

  // ---------------------------------------------------------------- selectors from grants

  predicate Unrestricted(g: Grant)
  {
    g.role.Administrator? || ((g.role.Viewer? || g.role.Operator?) && g.matchers == [])
  }

  predicate AnyUnrestricted(grants: seq<Grant>)
  {
    exists i | 0 <= i < |grants| :: Unrestricted(grants[i])
  }

  function ScopedGroups(grants: seq<Grant>): (groups: seq<seq<Matcher>>)
    ensures forall i | 0 <= i < |groups| :: groups[i] != []
  {
    if grants == [] then []
    else
      var g := grants[|grants| - 1];
      ScopedGroups(grants[..|grants| - 1]) +
      (if (g.role.Viewer? || g.role.Operator?) && g.matchers != [] then [g.matchers] else [])
  }

  function NonEmptyGroups(groups: seq<seq<Matcher>>): (r: seq<seq<Matcher>>)
    ensures forall i | 0 <= i < |r| :: r[i] != []
  {
    if groups == [] then []
    else
      var g := groups[|groups| - 1];
      NonEmptyGroups(groups[..|groups| - 1]) + (if g != [] then [g] else [])
  }

  /** The selectors of the automatic view. Scoped grants count only beside an unrestricted one,
      since otherwise the view would equal the scope. */
  function ViewGroups(p: Principal): (groups: seq<seq<Matcher>>)
    ensures forall i | 0 <= i < |groups| :: groups[i] != []
  {
    if p.anonymous then []
    else (if AnyUnrestricted(p.grants) then ScopedGroups(p.grants) else []) + NonEmptyGroups(p.viewGroups)
  }

  lemma GrowUnrestricted(grants: seq<Grant>, i: nat)
    requires i < |grants|
    ensures AnyUnrestricted(grants[..i + 1]) == (AnyUnrestricted(grants[..i]) || Unrestricted(grants[i]))
  {
    var longer, shorter := grants[..i + 1], grants[..i];
    if AnyUnrestricted(shorter) {
      var j :| 0 <= j < |shorter| && Unrestricted(shorter[j]);
      assert longer[j] == shorter[j];
    }
    if Unrestricted(grants[i]) {
      assert longer[i] == grants[i];
    }
    if AnyUnrestricted(longer) {
      var j :| 0 <= j < |longer| && Unrestricted(longer[j]);
      assert j < i ==> shorter[j] == longer[j];
    }
  }

  method ViewMatchers(p: Principal) returns (groups: seq<seq<Matcher>>)
    ensures groups == ViewGroups(p)
    ensures forall i | 0 <= i < |groups| :: groups[i] != []
  {
    groups := [];
    if p.anonymous {
      return;
    }
    var unrestricted := false;
    var i := 0;
    while i < |p.grants|
      invariant 0 <= i <= |p.grants|
      invariant unrestricted == AnyUnrestricted(p.grants[..i])
      invariant groups == ScopedGroups(p.grants[..i])
    {
      var g := p.grants[i];
      assert p.grants[..i + 1][..i] == p.grants[..i];
      assert p.grants[..i + 1][i] == g;
      assert AnyUnrestricted(p.grants[..i + 1]) == (AnyUnrestricted(p.grants[..i]) || Unrestricted(g)) by {
        GrowUnrestricted(p.grants, i);
      }
      if g.role.Administrator? {
        unrestricted := true;
      } else if g.role.Viewer? || g.role.Operator? {
        if g.matchers == [] {
          unrestricted := true;
        } else {
          groups := groups + [g.matchers];
        }
      }
      i := i + 1;
    }
    assert p.grants[..i] == p.grants;
    if !unrestricted {
      groups := [];
    }
    ghost var scoped := groups;
    i := 0;
    while i < |p.viewGroups|
      invariant 0 <= i <= |p.viewGroups|
      invariant groups == scoped + NonEmptyGroups(p.viewGroups[..i])
    {
      assert p.viewGroups[..i + 1][..i] == p.viewGroups[..i];
      if |p.viewGroups[i]| > 0 {
        groups := groups + [p.viewGroups[i]];
      }
      i := i + 1;
    }
    assert p.viewGroups[..i] == p.viewGroups;
  }

  lemma {:induction false} ScopedGroupsAre(grants: seq<Grant>, group: seq<Matcher>)
    ensures group in ScopedGroups(grants) <==>
            group != [] && exists g | g in grants :: g.role in {Viewer, Operator} && g.matchers == group
  {
    if grants != [] {
      var front, last := grants[..|grants| - 1], grants[|grants| - 1];
      ScopedGroupsAre(front, group);
      assert grants == front + [last];
    }
  }

  lemma {:induction false} NonEmptyGroupsAre(groups: seq<seq<Matcher>>, group: seq<Matcher>)
    ensures group in NonEmptyGroups(groups) <==> group != [] && group in groups
  {
    if groups != [] {
      NonEmptyGroupsAre(groups[..|groups| - 1], group);
      assert groups == groups[..|groups| - 1] + [groups[|groups| - 1]];
    }
  }

  lemma UnrestrictedAre(grants: seq<Grant>)
    ensures AnyUnrestricted(grants) <==>
            exists g | g in grants ::
              g.role == Administrator || (g.role in {Viewer, Operator} && g.matchers == [])
  {
    if AnyUnrestricted(grants) {
      var i :| 0 <= i < |grants| && Unrestricted(grants[i]);
      assert grants[i] in grants;
    }
    if g :| g in grants && (g.role == Administrator || (g.role in {Viewer, Operator} && g.matchers == [])) {
      var i :| 0 <= i < |grants| && grants[i] == g;
      assert Unrestricted(grants[i]);
    }
  }

  /** What a caller's view is made of: their own selectors, and beside a grant that restricts them to nothing the
      selectors of the grants that would. An anonymous caller has none, and an empty selector is no selector. */
  lemma ViewGroupsAre(p: Principal, group: seq<Matcher>)
    ensures group in ViewGroups(p) <==>
            && !p.anonymous && group != []
            && (|| group in p.viewGroups
                || ((exists g | g in p.grants ::
                       g.role == Administrator || (g.role in {Viewer, Operator} && g.matchers == []))
                    && exists g | g in p.grants :: g.role in {Viewer, Operator} && g.matchers == group))
  {
    ScopedGroupsAre(p.grants, group);
    NonEmptyGroupsAre(p.viewGroups, group);
    UnrestrictedAre(p.grants);
  }

  /** `resolveView`: which selectors apply to this caller, under the options of the request. */
  function Resolve(p: Principal, options: Option<ViewOptions>): (v: ResolvedView)
    ensures forall i | 0 <= i < |v.groups| :: v.groups[i] != []
    ensures !v.requested ==> v.groups == []
  {
    if options.None? then ResolvedView([], ViewOptions(false, false), false)
    else ResolvedView(ViewGroups(p), options.value, true)
  }

  // ---------------------------------------------------------------- classifying labels

  /** Some selector group matches. A group with no selectors matches nothing. */
  predicate InSomeGroup(rx: Regex, groups: seq<seq<Matcher>>, labels: Labels)
  {
    exists i | 0 <= i < |groups| :: groups[i] != [] && MatchesAll(rx, groups[i], labels)
  }

  method MatchViewGroups(rx: Regex, groups: seq<seq<Matcher>>, labels: Labels) returns (ok: bool)
    ensures ok == InSomeGroup(rx, groups, labels)
  {
    var i := 0;
    while i < |groups|
      invariant 0 <= i <= |groups|
      invariant forall j | 0 <= j < i :: groups[j] == [] || !MatchesAll(rx, groups[j], labels)
    {
      var matched := |groups[i]| > 0;
      if matched {
        matched := MatchGroup(rx, groups[i], labels);
      }
      if matched {
        return true;
      }
      i := i + 1;
    }
    return false;
  }

  /** The list's own reading of severity: an alert that names none is a warning. */
  function SeverityOf(labels: Labels): (s: string)
  {
    if "severity" in labels then labels["severity"] else "warning"
  }

  predicate IsCritical(labels: Labels)
  {
    "severity" in labels && labels["severity"] != "" && labels["severity"] == "critical"
  }

  function Classify(rx: Regex, v: ResolvedView, labels: Labels): (m: ViewMatch)
  {
    if !v.Active() then NoView
    else if InSomeGroup(rx, v.groups, labels) then InView
    else if !v.options.filterCritical && IsCritical(labels) then CriticalOnly
    else Outside
  }

  /** These labels are inside the view, or it does not filter. */
  predicate Includes(rx: Regex, v: ResolvedView, labels: Labels)
  {
    !v.Filtering() || Classify(rx, v, labels) != Outside
  }

  /** Some selector of this view matches throughout. */
  ghost predicate Selected(rx: Regex, p: Principal, labels: Labels)
  {
    exists group | group in ViewGroups(p) :: SatisfiesAll(rx, group, labels)
  }

  lemma SelectedMeans(rx: Regex, p: Principal, labels: Labels)
    ensures InSomeGroup(rx, ViewGroups(p), labels) <==> Selected(rx, p, labels)
  {
    var groups := ViewGroups(p);
    forall i | 0 <= i < |groups| {
      MatchesMeans(rx, groups[i], labels);
    }
    if InSomeGroup(rx, groups, labels) {
      var i :| 0 <= i < |groups| && groups[i] != [] && MatchesAll(rx, groups[i], labels);
      assert groups[i] in groups;
    }
    if Selected(rx, p, labels) {
      var group :| group in groups && SatisfiesAll(rx, group, labels);
      var i :| 0 <= i < |groups| && groups[i] == group;
    }
  }

  predicate Critical(labels: Labels) { "severity" in labels && labels["severity"] == "critical" }

  /** Through which door labels come into a view that was asked for and has selectors: a selector, or, unless even that
      is
      filtered, being critical. */
  lemma ViewClassifies(rx: Regex, p: Principal, options: Option<ViewOptions>, labels: Labels)
    ensures Classify(rx, Resolve(p, options), labels) ==
            if options.None? || ViewGroups(p) == [] then NoView
            else if Selected(rx, p, labels) then InView
            else if Critical(labels) && !options.value.filterCritical then CriticalOnly
            else Outside
  {
    SelectedMeans(rx, p, labels);
  }

  /** What a view lets through: everything if none was asked for, it has no selector or it only marks; else what it
      classifies as inside. */
  lemma ViewIncludes(rx: Regex, p: Principal, options: Option<ViewOptions>, labels: Labels)
    ensures Includes(rx, Resolve(p, options), labels) <==>
            || options.None? || ViewGroups(p) == [] || options.value.showAll
            || Selected(rx, p, labels) || (Critical(labels) && !options.value.filterCritical)
  {
    SelectedMeans(rx, p, labels);
  }
}
