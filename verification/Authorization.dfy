/** Who may read and who may act, decided in Go on an alert's labels. */
module Authorization {
  import opened Prelude

  datatype MatchOp = Equals | NotEquals | Like | Unlike

  datatype Matcher = Matcher(name: string, op: MatchOp, value: string)

  /** `OtherRole` is any role name the checks do not know; they skip it. */
  datatype Role = Viewer | Operator | Administrator | OtherRole

  datatype Grant = Grant(role: Role, matchers: seq<Matcher>)

  datatype Principal = Principal(
    subject: string,
    displayName: string,
    anonymous: bool,
    grants: seq<Grant>,
    viewGroups: seq<seq<Matcher>>)

  predicate OpHolds(rx: Regex, op: MatchOp, text: string, value: string)
  {
    match op
    case Equals => text == value
    case NotEquals => text != value
    case Like => rx(value, text)
    case Unlike => !rx(value, text)
  }

  /** Even `!=` and `!~` need the label to be there. */
  predicate Matches(rx: Regex, m: Matcher, labels: Labels)
  {
    m.name in labels && OpHolds(rx, m.op, labels[m.name], m.value)
  }

  predicate MatchesAll(rx: Regex, group: seq<Matcher>, labels: Labels)
  {
    forall i | 0 <= i < |group| :: Matches(rx, group[i], labels)
  }

  predicate MatchesAny(rx: Regex, groups: seq<seq<Matcher>>, labels: Labels)
  {
    exists i | 0 <= i < |groups| :: MatchesAll(rx, groups[i], labels)
  }

  predicate GrantReads(rx: Regex, g: Grant, labels: Labels)
  {
    g.role.Administrator? || ((g.role.Viewer? || g.role.Operator?) && MatchesAll(rx, g.matchers, labels))
  }

  predicate GrantOperates(rx: Regex, g: Grant, labels: Labels)
  {
    g.role.Administrator? || (g.role.Operator? && MatchesAll(rx, g.matchers, labels))
  }

  predicate SomeGrantReads(rx: Regex, grants: seq<Grant>, labels: Labels)
  {
    exists i | 0 <= i < |grants| :: GrantReads(rx, grants[i], labels)
  }

  predicate SomeGrantOperates(rx: Regex, grants: seq<Grant>, labels: Labels)
  {
    exists i | 0 <= i < |grants| :: GrantOperates(rx, grants[i], labels)
  }

  /** The labels are inside the principal's read scope. */
  predicate Readable(rx: Regex, p: Principal, labels: Labels)
  {
    p.anonymous || SomeGrantReads(rx, p.grants, labels)
  }

  /** The labels are inside the principal's operate scope. */
  predicate Operable(rx: Regex, p: Principal, labels: Labels)
  {
    SomeGrantOperates(rx, p.grants, labels)
  }

  /** `CanOperate`: some grant could act on something. */
  predicate CanOperate(p: Principal)
  {
    exists i | 0 <= i < |p.grants| :: p.grants[i].role.Operator? || p.grants[i].role.Administrator?
  }

  /** The label is there and stands in the asked relation to the asked value. */
  predicate Satisfies(rx: Regex, m: Matcher, labels: Labels)
  {
    && m.name in labels
    && (m.op == Equals ==> labels[m.name] == m.value) && (m.op == NotEquals ==> labels[m.name] != m.value)
    && (m.op == Like ==> rx(m.value, labels[m.name])) && (m.op == Unlike ==> !rx(m.value, labels[m.name]))
  }

  /** The inner loop shared by every check: stop at the first matcher that fails. */
  method MatchGroup(rx: Regex, group: seq<Matcher>, labels: Labels) returns (matched: bool)
    ensures matched == MatchesAll(rx, group, labels)
    ensures matched <==> forall i | 0 <= i < |group| :: Satisfies(rx, group[i], labels)
  {
    matched := true;
    var i := 0;
    while i < |group|
      invariant 0 <= i <= |group|
      invariant matched && forall j | 0 <= j < i :: Matches(rx, group[j], labels)
    {
      var m := group[i];
      if m.name !in labels {
        return false;
      }
      match m.op {
        case Equals => matched := labels[m.name] == m.value;
        case NotEquals => matched := labels[m.name] != m.value;
        case Like => matched := rx(m.value, labels[m.name]);
        case Unlike => var found := rx(m.value, labels[m.name]); matched := !found;
      }
      if !matched {
        return false;
      }
      i := i + 1;
    }
  }

  method CanReadLabels(rx: Regex, p: Principal, labels: Labels) returns (ok: bool)
    ensures ok == Readable(rx, p, labels)
  {
    if p.anonymous {
      return true;
    }
    var i := 0;
    while i < |p.grants|
      invariant 0 <= i <= |p.grants|
      invariant forall j | 0 <= j < i :: !GrantReads(rx, p.grants[j], labels)
    {
      var g := p.grants[i];
      if g.role.Administrator? {
        return true;
      }
      if g.role.Viewer? || g.role.Operator? {
        var matched := MatchGroup(rx, g.matchers, labels);
        if matched {
          return true;
        }
      }
      i := i + 1;
    }
    return false;
  }

  method CanOperateLabels(rx: Regex, p: Principal, labels: Labels) returns (ok: bool)
    ensures ok == Operable(rx, p, labels)
  {
    var i := 0;
    while i < |p.grants|
      invariant 0 <= i <= |p.grants|
      invariant forall j | 0 <= j < i :: !GrantOperates(rx, p.grants[j], labels)
    {
      var g := p.grants[i];
      if g.role.Administrator? {
        return true;
      }
      if g.role.Operator? {
        var matched := MatchGroup(rx, g.matchers, labels);
        if matched {
          return true;
        }
      }
      i := i + 1;
    }
    return false;
  }

  predicate SatisfiesAll(rx: Regex, group: seq<Matcher>, labels: Labels)
  {
    forall i | 0 <= i < |group| :: Satisfies(rx, group[i], labels)
  }

  lemma MatchesMeans(rx: Regex, group: seq<Matcher>, labels: Labels)
    ensures MatchesAll(rx, group, labels) <==> SatisfiesAll(rx, group, labels)
  {
    forall i | 0 <= i < |group| ensures Matches(rx, group[i], labels) <==> Satisfies(rx, group[i], labels) {
    }
  }

  /** Who may read an alert: everybody where sign-in is off, administrators, and viewers and operators within the scope
      of their grants. */
  lemma ReadersAre(rx: Regex, p: Principal, labels: Labels)
    ensures Readable(rx, p, labels) <==>
            || p.anonymous
            || exists g | g in p.grants :: g.role == Administrator
                                           || (g.role in {Viewer, Operator} && SatisfiesAll(rx, g.matchers, labels))
  {
    forall i | 0 <= i < |p.grants| {
      MatchesMeans(rx, p.grants[i].matchers, labels);
    }
    if Readable(rx, p, labels) && !p.anonymous {
      var i :| 0 <= i < |p.grants| && GrantReads(rx, p.grants[i], labels);
      assert p.grants[i] in p.grants;
    }
    if g :| g in p.grants && (g.role == Administrator
                              || (g.role in {Viewer, Operator} && SatisfiesAll(rx, g.matchers, labels))) {
      var i :| 0 <= i < |p.grants| && p.grants[i] == g;
      assert GrantReads(rx, p.grants[i], labels);
    }
  }

  /** Who may act on it: administrators, and operators within the scope of their grants, signed in or not. */
  lemma OperatorsAre(rx: Regex, p: Principal, labels: Labels)
    ensures Operable(rx, p, labels) <==>
            exists g | g in p.grants :: g.role == Administrator
                                        || (g.role == Operator && SatisfiesAll(rx, g.matchers, labels))
  {
    forall i | 0 <= i < |p.grants| {
      MatchesMeans(rx, p.grants[i].matchers, labels);
    }
    if Operable(rx, p, labels) {
      var i :| 0 <= i < |p.grants| && GrantOperates(rx, p.grants[i], labels);
      assert p.grants[i] in p.grants;
    }
    if g :| g in p.grants && (g.role == Administrator
                              || (g.role == Operator && SatisfiesAll(rx, g.matchers, labels))) {
      var i :| 0 <= i < |p.grants| && p.grants[i] == g;
      assert GrantOperates(rx, p.grants[i], labels);
    }
  }

  /** Only operators and administrators are asked what they want to do. */
  lemma ActorsAre(p: Principal)
    ensures CanOperate(p) <==> exists g | g in p.grants :: g.role in {Operator, Administrator}
  {
    if CanOperate(p) {
      var i :| 0 <= i < |p.grants| && (p.grants[i].role.Operator? || p.grants[i].role.Administrator?);
      assert p.grants[i] in p.grants;
    }
    if g :| g in p.grants && g.role in {Operator, Administrator} {
      var i :| 0 <= i < |p.grants| && p.grants[i] == g;
    }
  }

  /** Nobody can act on what they cannot read, so an operator's action can always be shown back. */
  lemma OperableIsReadable(rx: Regex, p: Principal, labels: Labels)
    requires Operable(rx, p, labels)
    ensures Readable(rx, p, labels) && CanOperate(p)
  {
    var i :| 0 <= i < |p.grants| && GrantOperates(rx, p.grants[i], labels);
    assert GrantReads(rx, p.grants[i], labels);
  }
}
