/**
  Compiling principal, view and filters to one SQL condition. Every builder appends its
  values to the argument list it was given and refers to them by position, so what it
  emitted must keep its meaning under whatever is appended afterwards.
 */
module QueryCompiler {
  import opened Prelude
  import opened Authorization
  import opened View
  import opened Sql

  function SqlComparison(op: MatchOp): (c: Comparison)
  {
    match op case Equals => Same case NotEquals => Differs case Like => Regexp case Unlike => NotRegexp
  }

  /** `(labels ? $n AND labels->>$n op $m)`. */
  function MatcherCond(column: LabelColumn, op: MatchOp, position: nat): (c: Cond)
  {
    All([HasLabel(column, Arg(position)),
         Compare(LabelAt(column, Arg(position)), SqlComparison(op), Arg(position + 1))])
  }

  /** On any row whose label column is present, and under any further arguments, the condition is
      two-valued and says whether some group matches. */
  ghost predicate Decides(rx: Regex, c: Cond, args: seq<Value>, column: LabelColumn, groups: seq<seq<Matcher>>)
  {
    forall more: seq<Value>, t: Tuple | Column(t, column).Some? ::
      Eval(rx, c, args + more, t) == Lift(MatchesAny(rx, groups, Column(t, column).value))
  }

  /** The same for a list of alternatives still being built. */
  ghost predicate AlternativesDecide(rx: Regex, parts: seq<Cond>, args: seq<Value>, column: LabelColumn,
                                     groups: seq<seq<Matcher>>)
  {
    forall more: seq<Value>, t: Tuple | Column(t, column).Some? ::
      EvalAny(rx, parts, args + more, t) == Lift(MatchesAny(rx, groups, Column(t, column).value))
  }

  /** ... and for a conjunction still being built. */
  ghost predicate ConjunctsDecide(rx: Regex, parts: seq<Cond>, args: seq<Value>, column: LabelColumn,
                                  group: seq<Matcher>)
  {
    forall more: seq<Value>, t: Tuple | Column(t, column).Some? ::
      EvalAll(rx, parts, args + more, t) == Lift(MatchesAll(rx, group, Column(t, column).value))
  }

  // ---------------------------------------------------------------- one matcher, one group

  lemma MatcherMeans(rx: Regex, m: Matcher, column: LabelColumn, position: nat, args: seq<Value>, t: Tuple)
    requires 1 <= position < |args|
    requires args[position - 1] == Text(m.name) && args[position] == Text(m.value)
    requires Column(t, column).Some?
    ensures Eval(rx, MatcherCond(column, m.op, position), args, t) == Lift(Matches(rx, m, Column(t, column).value))
  {
    var has := HasLabel(column, Arg(position));
    var compare := Compare(LabelAt(column, Arg(position)), SqlComparison(m.op), Arg(position + 1));
    EvalPair(rx, has, compare, args, t);
  }

  lemma GroupGrows(rx: Regex, group: seq<Matcher>, m: Matcher, labels: Labels)
    ensures MatchesAll(rx, group + [m], labels) == (MatchesAll(rx, group, labels) && Matches(rx, m, labels))
  {
    var grown := group + [m];
    assert grown[|group|] == m;
    assert forall i | 0 <= i < |group| :: grown[i] == group[i];
  }

  lemma ConjunctsGrow(rx: Regex, parts: seq<Cond>, args: seq<Value>, column: LabelColumn, group: seq<Matcher>,
                      m: Matcher)
    requires ConjunctsDecide(rx, parts, args, column, group)
    ensures ConjunctsDecide(rx, parts + [MatcherCond(column, m.op, |args| + 1)], args + [Text(m.name), Text(m.value)],
                            column, group + [m])
  {
    var c := MatcherCond(column, m.op, |args| + 1);
    var pair := [Text(m.name), Text(m.value)];
    forall more: seq<Value>, t: Tuple | Column(t, column).Some?
      ensures EvalAll(rx, parts + [c], args + pair + more, t) ==
              Lift(MatchesAll(rx, group + [m], Column(t, column).value))
    {
      assert args + pair + more == args + (pair + more);
      EvalAllAppend(rx, parts, c, args + pair + more, t);
      MatcherMeans(rx, m, column, |args| + 1, args + pair + more, t);
      GroupGrows(rx, group, m, Column(t, column).value);
    }
  }

  /** The loop every builder runs over one group's matchers. */
  method GroupCondition(ghost rx: Regex, group: seq<Matcher>, column: LabelColumn, args: seq<Value>)
    returns (c: Cond, out: seq<Value>)
    ensures args <= out
    ensures Decides(rx, c, out, column, [group])
  {
    out := args;
    var parts: seq<Cond> := [];
    var i := 0;
    while i < |group|
      invariant 0 <= i <= |group|
      invariant args <= out
      invariant ConjunctsDecide(rx, parts, out, column, group[..i])
    {
      ConjunctsGrow(rx, parts, out, column, group[..i], group[i]);
      assert group[..i] + [group[i]] == group[..i + 1];
      out := out + [Text(group[i].name), Text(group[i].value)];
      parts := parts + [MatcherCond(column, group[i].op, |out| - 1)];
      i := i + 1;
    }
    assert group[..i] == group;
    c := All(parts);
    assert forall labels: Labels :: MatchesAny(rx, [group], labels) == MatchesAll(rx, [group][0], labels);
  }

  // ---------------------------------------------------------------- alternatives

  lemma AnyGrows(rx: Regex, groups: seq<seq<Matcher>>, g: seq<Matcher>, labels: Labels)
    ensures MatchesAny(rx, groups + [g], labels) == (MatchesAny(rx, groups, labels) || MatchesAll(rx, g, labels))
    ensures MatchesAny(rx, [g], labels) == MatchesAll(rx, g, labels)
  {
    var grown := groups + [g];
    assert grown[|groups|] == g;
    assert [g][0] == g;
    assert forall i | 0 <= i < |groups| :: grown[i] == groups[i];
  }

  lemma AlternativesGrow(rx: Regex, parts: seq<Cond>, args: seq<Value>, column: LabelColumn, groups: seq<seq<Matcher>>,
                         c: Cond, out: seq<Value>, g: seq<Matcher>)
    requires AlternativesDecide(rx, parts, args, column, groups)
    requires args <= out && Decides(rx, c, out, column, [g])
    ensures AlternativesDecide(rx, parts + [c], out, column, groups + [g])
  {
    forall more: seq<Value>, t: Tuple | Column(t, column).Some?
      ensures EvalAny(rx, parts + [c], out + more, t) == Lift(MatchesAny(rx, groups + [g], Column(t, column).value))
    {
      assert out + more == args + (out[|args|..] + more);
      EvalAnyAppend(rx, parts, c, out + more, t);
      AnyGrows(rx, groups, g, Column(t, column).value);
    }
  }

  /** The groups a principal reads through: an administrator's is empty and matches everything. */
  function ReadGroups(grants: seq<Grant>): (groups: seq<seq<Matcher>>)
  {
    if grants == [] then []
    else
      var g := grants[|grants| - 1];
      ReadGroups(grants[..|grants| - 1]) +
      (if g.role.Administrator? then [[]] else if g.role.Viewer? || g.role.Operator? then [g.matchers] else [])
  }

  function OperateGroups(grants: seq<Grant>): (groups: seq<seq<Matcher>>)
  {
    if grants == [] then []
    else
      var g := grants[|grants| - 1];
      OperateGroups(grants[..|grants| - 1]) +
      (if g.role.Administrator? then [[]] else if g.role.Operator? then [g.matchers] else [])
  }

  lemma ReadScopeGrows(rx: Regex, grants: seq<Grant>, g: Grant, labels: Labels)
    ensures SomeGrantReads(rx, grants + [g], labels) <==>
            SomeGrantReads(rx, grants, labels) || GrantReads(rx, g, labels)
  {
    var grown := grants + [g];
    assert grown[|grants|] == g;
    assert forall i | 0 <= i < |grants| :: grown[i] == grants[i];
  }

  lemma {:induction false} ReadGroupsMean(rx: Regex, grants: seq<Grant>, labels: Labels)
    ensures MatchesAny(rx, ReadGroups(grants), labels) <==> SomeGrantReads(rx, grants, labels)
  {
    if grants != [] {
      var front, g := grants[..|grants| - 1], grants[|grants| - 1];
      ReadGroupsMean(rx, front, labels);
      assert grants == front + [g];
      ReadScopeGrows(rx, front, g, labels);
      AnyGrows(rx, ReadGroups(front), if g.role.Administrator? then [] else g.matchers, labels);
      assert ReadGroups(front) + [] == ReadGroups(front);
    }
  }

  lemma OperateScopeGrows(rx: Regex, grants: seq<Grant>, g: Grant, labels: Labels)
    ensures SomeGrantOperates(rx, grants + [g], labels) <==>
            SomeGrantOperates(rx, grants, labels) || GrantOperates(rx, g, labels)
  {
    var grown := grants + [g];
    assert grown[|grants|] == g;
    assert forall i | 0 <= i < |grants| :: grown[i] == grants[i];
  }

  lemma {:induction false} OperateGroupsMean(rx: Regex, grants: seq<Grant>, labels: Labels)
    ensures MatchesAny(rx, OperateGroups(grants), labels) <==> SomeGrantOperates(rx, grants, labels)
  {
    if grants != [] {
      var front, g := grants[..|grants| - 1], grants[|grants| - 1];
      OperateGroupsMean(rx, front, labels);
      assert grants == front + [g];
      OperateScopeGrows(rx, front, g, labels);
      AnyGrows(rx, OperateGroups(front), if g.role.Administrator? then [] else g.matchers, labels);
      assert OperateGroups(front) + [] == OperateGroups(front);
    }
  }

  // ---------------------------------------------------------------- read and operate access

  /** Under any further arguments the condition is exactly "in the principal's read scope". */
  ghost predicate DecidesReadable(rx: Regex, c: Cond, args: seq<Value>, column: LabelColumn, p: Principal)
  {
    forall more: seq<Value>, t: Tuple | Column(t, column).Some? ::
      Eval(rx, c, args + more, t) == Lift(Readable(rx, p, Column(t, column).value))
  }

  ghost predicate DecidesOperable(rx: Regex, c: Cond, args: seq<Value>, column: LabelColumn, p: Principal)
  {
    forall more: seq<Value>, t: Tuple | Column(t, column).Some? ::
      Eval(rx, c, args + more, t) == Lift(Operable(rx, p, Column(t, column).value))
  }

  lemma UnrestrictedReads(rx: Regex, p: Principal, i: nat)
    requires i < |p.grants| && View.Unrestricted(p.grants[i])
    ensures forall labels :: Readable(rx, p, labels)
  {
    forall labels ensures Readable(rx, p, labels) {
      assert GrantReads(rx, p.grants[i], labels);
    }
  }

  method ReadAccessCondition(ghost rx: Regex, p: Principal, column: LabelColumn, args: seq<Value>)
    returns (c: Cond, out: seq<Value>)
    ensures args <= out
    ensures DecidesReadable(rx, c, out, column, p)
  {
    out := args;
    if p.anonymous {
      return Const(true), out;
    }
    var parts: seq<Cond> := [];
    var i := 0;
    while i < |p.grants|
      invariant 0 <= i <= |p.grants|
      invariant args <= out
      invariant AlternativesDecide(rx, parts, out, column, ReadGroups(p.grants[..i]))
    {
      var g := p.grants[i];
      assert p.grants[..i + 1][..i] == p.grants[..i];
      if g.role.Administrator? {
        UnrestrictedReads(rx, p, i);
        return Const(true), out;
      }
      if g.role.Viewer? || g.role.Operator? {
        if g.matchers == [] {
          UnrestrictedReads(rx, p, i);
          return Const(true), out;
        }
        ghost var before := out;
        var group;
        group, out := GroupCondition(rx, g.matchers, column, out);
        AlternativesGrow(rx, parts, before, column, ReadGroups(p.grants[..i]), group, out, g.matchers);
        parts := parts + [group];
      } else {
        assert ReadGroups(p.grants[..i]) + [] == ReadGroups(p.grants[..i]);
      }
      i := i + 1;
    }
    assert p.grants[..i] == p.grants;
    forall labels ensures MatchesAny(rx, ReadGroups(p.grants), labels) == Readable(rx, p, labels) {
      ReadGroupsMean(rx, p.grants, labels);
    }
    c := if parts == [] then Const(false) else Any(parts);
  }

  lemma UnrestrictedOperates(rx: Regex, p: Principal, i: nat)
    requires i < |p.grants|
    requires p.grants[i].role.Administrator? || (p.grants[i].role.Operator? && p.grants[i].matchers == [])
    ensures forall labels :: Operable(rx, p, labels)
  {
    forall labels ensures Operable(rx, p, labels) {
      assert GrantOperates(rx, p.grants[i], labels);
    }
  }

  method OperateAccessCondition(ghost rx: Regex, p: Principal, column: LabelColumn, args: seq<Value>)
    returns (c: Cond, out: seq<Value>)
    ensures args <= out
    ensures DecidesOperable(rx, c, out, column, p)
  {
    out := args;
    var parts: seq<Cond> := [];
    var i := 0;
    while i < |p.grants|
      invariant 0 <= i <= |p.grants|
      invariant args <= out
      invariant AlternativesDecide(rx, parts, out, column, OperateGroups(p.grants[..i]))
    {
      var g := p.grants[i];
      assert p.grants[..i + 1][..i] == p.grants[..i];
      if g.role.Administrator? {
        UnrestrictedOperates(rx, p, i);
        return Const(true), out;
      }
      if g.role.Operator? {
        if g.matchers == [] {
          UnrestrictedOperates(rx, p, i);
          return Const(true), out;
        }
        ghost var before := out;
        var group;
        group, out := GroupCondition(rx, g.matchers, column, out);
        AlternativesGrow(rx, parts, before, column, OperateGroups(p.grants[..i]), group, out, g.matchers);
        parts := parts + [group];
      } else {
        assert OperateGroups(p.grants[..i]) + [] == OperateGroups(p.grants[..i]);
      }
      i := i + 1;
    }
    assert p.grants[..i] == p.grants;
    forall labels ensures MatchesAny(rx, OperateGroups(p.grants), labels) == Operable(rx, p, labels) {
      OperateGroupsMean(rx, p.grants, labels);
    }
    c := if parts == [] then Const(false) else Any(parts);
  }

  // ---------------------------------------------------------------- the view

  /** What the view's own condition says of a row: in a selected group, or critical and let through. */
  predicate Shows(rx: Regex, v: ResolvedView, labels: Labels)
  {
    InSomeGroup(rx, v.groups, labels) || (!v.options.filterCritical && IsCritical(labels))
  }

  predicate Usable(v: ResolvedView)
  {
    forall i | 0 <= i < |v.groups| :: v.groups[i] != []
  }

  ghost predicate DecidesShown(rx: Regex, c: Cond, args: seq<Value>, column: LabelColumn, v: ResolvedView)
  {
    forall more: seq<Value>, t: Tuple | Column(t, column).Some? ::
      Eval(rx, c, args + more, t) == Lift(Shows(rx, v, Column(t, column).value))
  }

  /** `COALESCE(labels->>'severity', 'warning') = 'critical'`. */
  function CriticalCond(column: LabelColumn): (c: Cond)
  {
    Compare(Coalesce(LabelAt(column, Literal("severity")), Literal("warning")), Same, Literal("critical"))
  }

  lemma CriticalMeans(rx: Regex, column: LabelColumn, args: seq<Value>, t: Tuple)
    requires Column(t, column).Some?
    ensures Eval(rx, CriticalCond(column), args, t) == Lift(IsCritical(Column(t, column).value))
  {
    LabelScan(column, Literal("severity"), "severity", "warning", args, t);
  }

  lemma BypassMeans(rx: Regex, c: Cond, args: seq<Value>, column: LabelColumn, v: ResolvedView)
    requires Decides(rx, c, args, column, v.groups) && Usable(v)
    ensures v.options.filterCritical ==> DecidesShown(rx, c, args, column, v)
    ensures !v.options.filterCritical ==> DecidesShown(rx, Any([c, CriticalCond(column)]), args, column, v)
  {
    forall more: seq<Value>, t: Tuple | Column(t, column).Some?
      ensures Eval(rx, c, args + more, t) == Lift(InSomeGroup(rx, v.groups, Column(t, column).value))
      ensures Eval(rx, Any([c, CriticalCond(column)]), args + more, t) ==
              Either(Eval(rx, c, args + more, t), Lift(IsCritical(Column(t, column).value)))
    {
      assert MatchesAny(rx, v.groups, Column(t, column).value) == InSomeGroup(rx, v.groups, Column(t, column).value);
      EvalPair(rx, c, CriticalCond(column), args + more, t);
      CriticalMeans(rx, column, args + more, t);
    }
  }

  /** The view as SQL. It never evaluates to NULL, so its negation selects the complement. */
  method VisibleCondition(ghost rx: Regex, v: ResolvedView, column: LabelColumn, args: seq<Value>)
    returns (c: Cond, out: seq<Value>)
    requires Usable(v)
    ensures args <= out
    ensures DecidesShown(rx, c, out, column, v)
  {
    out := args;
    var parts: seq<Cond> := [];
    var i := 0;
    while i < |v.groups|
      invariant 0 <= i <= |v.groups|
      invariant args <= out
      invariant AlternativesDecide(rx, parts, out, column, v.groups[..i])
    {
      ghost var before := out;
      var group;
      group, out := GroupCondition(rx, v.groups[i], column, out);
      AlternativesGrow(rx, parts, before, column, v.groups[..i], group, out, v.groups[i]);
      assert v.groups[..i] + [v.groups[i]] == v.groups[..i + 1];
      parts := parts + [group];
      i := i + 1;
    }
    assert v.groups[..i] == v.groups;
    c := Any(parts);
    BypassMeans(rx, c, out, column, v);
    if !v.options.filterCritical {
      c := Any([c, CriticalCond(column)]);
    }
  }

  // ---------------------------------------------------------------- the query's own filters

  datatype LabelFilter = LabelFilter(name: string, negated: bool, value: string)

  /** Empty text means no filter; an absent `closed` means open alerts only. */
  datatype Query = Query(
    source: string,
    status: string,
    severity: string,
    team: string,
    suppressed: Option<bool>,
    closed: Option<bool>,
    filters: seq<LabelFilter>,
    view: Option<ViewOptions>)

  predicate FilterHolds(f: LabelFilter, labels: Labels)
  {
    if f.negated then f.name !in labels || labels[f.name] != f.value
    else LabelOrEmpty(labels, f.name) == f.value
  }

  /** What the query asks of a row, apart from scope and view. */
  predicate QueryHolds(q: Query, t: Tuple)
  {
    && (q.source == "" || t.source == q.source)
    && (q.status == "" || t.status == q.status)
    && (q.severity == "" || SeverityOf(t.labels) == q.severity)
    && (q.team == "" || ("team" in t.labels && t.labels["team"] == q.team))
    && (q.suppressed.None? || t.suppressed == q.suppressed.value)
    && (if q.closed.None? then !t.closed else t.closed == q.closed.value)
    && forall i | 0 <= i < |q.filters| :: FilterHolds(q.filters[i], t.labels)
  }

  /** The conjuncts of the WHERE, each with the reading it must have. */
  datatype Clause =
    | InScope | Shown | NotShown
    | SourceIs(text: string) | StatusIs(text: string) | SeverityIs(text: string) | TeamIs(text: string)
    | SuppressedIs(flag: bool) | ClosedIs(flag: bool) | Open
    | Filtered(by_: LabelFilter)

  predicate ClauseHolds(rx: Regex, p: Principal, v: ResolvedView, clause: Clause, t: Tuple)
  {
    match clause
    case InScope => Readable(rx, p, t.labels)
    case Shown => Shows(rx, v, t.labels)
    case NotShown => !Shows(rx, v, t.labels)
    case SourceIs(s) => t.source == s
    case StatusIs(s) => t.status == s
    case SeverityIs(s) => SeverityOf(t.labels) == s
    case TeamIs(s) => "team" in t.labels && t.labels["team"] == s
    case SuppressedIs(b) => t.suppressed == b
    case ClosedIs(b) => t.closed == b
    case Open => !t.closed
    case Filtered(f) => FilterHolds(f, t.labels)
  }

  predicate AllClausesHold(rx: Regex, p: Principal, v: ResolvedView, clauses: seq<Clause>, t: Tuple)
  {
    forall i | 0 <= i < |clauses| :: ClauseHolds(rx, p, v, clauses[i], t)
  }

  /** The conjunction built so far keeps exactly the rows its clauses describe. */
  ghost predicate Keeps(rx: Regex, p: Principal, v: ResolvedView, parts: seq<Cond>, args: seq<Value>,
                        clauses: seq<Clause>)
  {
    forall more: seq<Value>, t: Tuple ::
      EvalAll(rx, parts, args + more, t) == True <==> AllClausesHold(rx, p, v, clauses, t)
  }

  /** One conjunct selects exactly the rows its clause describes. */
  ghost predicate Expresses(rx: Regex, p: Principal, v: ResolvedView, c: Cond, args: seq<Value>, clause: Clause)
  {
    forall more: seq<Value>, t: Tuple :: Selects(rx, c, args + more, t) <==> ClauseHolds(rx, p, v, clause, t)
  }

  lemma ClausesGrow(rx: Regex, p: Principal, v: ResolvedView, clauses: seq<Clause>, extra: seq<Clause>, t: Tuple)
    ensures AllClausesHold(rx, p, v, clauses + extra, t) <==>
            AllClausesHold(rx, p, v, clauses, t) && AllClausesHold(rx, p, v, extra, t)
  {
    var grown := clauses + extra;
    assert forall i | 0 <= i < |clauses| :: grown[i] == clauses[i];
    assert forall i | 0 <= i < |extra| :: grown[|clauses| + i] == extra[i];
  }

  lemma KeepsGrows(rx: Regex, p: Principal, v: ResolvedView, parts: seq<Cond>, args: seq<Value>, clauses: seq<Clause>,
                   c: Cond, out: seq<Value>, clause: Clause)
    requires Keeps(rx, p, v, parts, args, clauses)
    requires args <= out && Expresses(rx, p, v, c, out, clause)
    ensures Keeps(rx, p, v, parts + [c], out, clauses + [clause])
  {
    forall more: seq<Value>, t: Tuple
      ensures EvalAll(rx, parts + [c], out + more, t) == True <==> AllClausesHold(rx, p, v, clauses + [clause], t)
    {
      assert out + more == args + (out[|args|..] + more);
      EvalAllAppend(rx, parts, c, out + more, t);
      ClausesGrow(rx, p, v, clauses, [clause], t);
      assert [clause][0] == clause;
      assert Selects(rx, c, out + more, t) <==> ClauseHolds(rx, p, v, clause, t);
    }
  }

  /** The conditions the `add` closure formats, each over one new argument. */
  function FieldCond(clause: Clause, position: nat): (c: Cond)
    requires clause.SourceIs? || clause.StatusIs? || clause.SeverityIs? || clause.TeamIs? || clause.SuppressedIs?
             || clause.ClosedIs?
  {
    match clause
    case SourceIs(_) => Compare(SourceSlug, Same, Arg(position))
    case StatusIs(_) => Compare(SourceStatus, Same, Arg(position))
    case SeverityIs(_) => Compare(Coalesce(LabelAt(LabelsColumn, Literal("severity")), Literal("warning")), Same,
                                  Arg(position))
    case TeamIs(_) => Compare(LabelAt(LabelsColumn, Literal("team")), Same, Arg(position))
    case SuppressedIs(_) => Compare(SuppressedFlag, Same, Arg(position))
    case ClosedIs(_) => Compare(ClosedFlag, Same, Arg(position))
  }

  function FieldValue(clause: Clause): (value: Value)
    requires clause.SourceIs? || clause.StatusIs? || clause.SeverityIs? || clause.TeamIs? || clause.SuppressedIs?
             || clause.ClosedIs?
  {
    match clause
    case SourceIs(s) => Text(s)
    case StatusIs(s) => Text(s)
    case SeverityIs(s) => Text(s)
    case TeamIs(s) => Text(s)
    case SuppressedIs(b) => Bool(b)
    case ClosedIs(b) => Bool(b)
  }

  lemma FieldMeans(rx: Regex, p: Principal, v: ResolvedView, clause: Clause, args: seq<Value>)
    requires clause.SourceIs? || clause.StatusIs? || clause.SeverityIs? || clause.TeamIs? || clause.SuppressedIs?
             || clause.ClosedIs?
    ensures Expresses(rx, p, v, FieldCond(clause, |args| + 1), args + [FieldValue(clause)], clause)
  {
    var out := args + [FieldValue(clause)];
    forall more: seq<Value>, t: Tuple
      ensures Selects(rx, FieldCond(clause, |args| + 1), out + more, t) <==> ClauseHolds(rx, p, v, clause, t)
    {
      assert (out + more)[|args|] == FieldValue(clause);
      LabelScan(LabelsColumn, Literal("severity"), "severity", "warning", out + more, t);
      LabelScan(LabelsColumn, Literal("team"), "team", "", out + more, t);
    }
  }

  function Optionally(present: bool, clause: Clause): (r: seq<Clause>)
  {
    if present then [clause] else []
  }

  method AddField(ghost rx: Regex, ghost p: Principal, ghost v: ResolvedView, ghost clauses: seq<Clause>,
                  parts: seq<Cond>, args: seq<Value>, present: bool, clause: Clause)
    returns (outParts: seq<Cond>, out: seq<Value>)
    requires clause.SourceIs? || clause.StatusIs? || clause.SeverityIs? || clause.TeamIs? || clause.SuppressedIs?
             || clause.ClosedIs?
    requires Keeps(rx, p, v, parts, args, clauses)
    ensures Keeps(rx, p, v, outParts, out, clauses + Optionally(present, clause))
  {
    outParts, out := parts, args;
    if present {
      FieldMeans(rx, p, v, clause, args);
      KeepsGrows(rx, p, v, parts, args, clauses, FieldCond(clause, |args| + 1), args + [FieldValue(clause)], clause);
      out := args + [FieldValue(clause)];
      outParts := parts + [FieldCond(clause, |out|)];
    } else {
      assert clauses + Optionally(present, clause) == clauses;
    }
  }

  /** Like Prometheus, `!=` also keeps rows without the label; `=` reads an absent label as empty. */
  function FilterCond(f: LabelFilter, position: nat): (c: Cond)
  {
    if f.negated
    then Any([Not(HasLabel(LabelsColumn, Arg(position))),
              Compare(LabelAt(LabelsColumn, Arg(position)), Differs, Arg(position + 1))])
    else Compare(Coalesce(LabelAt(LabelsColumn, Arg(position)), Literal("")), Same, Arg(position + 1))
  }

  lemma FilterMeans(rx: Regex, p: Principal, v: ResolvedView, f: LabelFilter, args: seq<Value>)
    ensures Expresses(rx, p, v, FilterCond(f, |args| + 1), args + [Text(f.name), Text(f.value)], Filtered(f))
  {
    var out := args + [Text(f.name), Text(f.value)];
    var absent := Not(HasLabel(LabelsColumn, Arg(|args| + 1)));
    var differs := Compare(LabelAt(LabelsColumn, Arg(|args| + 1)), Differs, Arg(|args| + 2));
    forall more: seq<Value>, t: Tuple
      ensures Selects(rx, FilterCond(f, |args| + 1), out + more, t) <==> ClauseHolds(rx, p, v, Filtered(f), t)
    {
      assert (out + more)[|args|] == Text(f.name) && (out + more)[|args| + 1] == Text(f.value);
      LabelScan(LabelsColumn, Arg(|args| + 1), f.name, "", out + more, t);
      EvalPair(rx, absent, differs, out + more, t);
    }
  }

  function FilterClauses(filters: seq<LabelFilter>): (r: seq<Clause>)
    ensures |r| == |filters| && forall i | 0 <= i < |r| :: r[i] == Filtered(filters[i])
  {
    if filters == [] then []
    else FilterClauses(filters[..|filters| - 1]) + [Filtered(filters[|filters| - 1])]
  }

  method AddFilters(ghost rx: Regex, ghost p: Principal, ghost v: ResolvedView, ghost clauses: seq<Clause>,
                    parts: seq<Cond>, args: seq<Value>, filters: seq<LabelFilter>)
    returns (outParts: seq<Cond>, out: seq<Value>)
    requires Keeps(rx, p, v, parts, args, clauses)
    ensures Keeps(rx, p, v, outParts, out, clauses + FilterClauses(filters))
  {
    outParts, out := parts, args;
    var i := 0;
    assert clauses + FilterClauses(filters[..0]) == clauses;
    while i < |filters|
      invariant 0 <= i <= |filters|
      invariant Keeps(rx, p, v, outParts, out, clauses + FilterClauses(filters[..i]))
    {
      FilterMeans(rx, p, v, filters[i], out);
      KeepsGrows(rx, p, v, outParts, out, clauses + FilterClauses(filters[..i]),
                 FilterCond(filters[i], |out| + 1), out + [Text(filters[i].name), Text(filters[i].value)],
                     Filtered(filters[i]));
      assert clauses + FilterClauses(filters[..i]) + [Filtered(filters[i])] ==
             clauses + FilterClauses(filters[..i + 1]);
      out := out + [Text(filters[i].name), Text(filters[i].value)];
      outParts := outParts + [FilterCond(filters[i], |out| - 1)];
      i := i + 1;
    }
    assert filters[..i] == filters;
  }

  // ---------------------------------------------------------------- the whole WHERE

  datatype ViewMode = ApplyView | InvertView

  /** The rows a query keeps; in inverted mode, the readable and matching rows outside the view. */
  predicate Wanted(rx: Regex, p: Principal, q: Query, v: ResolvedView, mode: ViewMode, t: Tuple)
  {
    && Readable(rx, p, t.labels)
    && (if mode.InvertView? then !Shows(rx, v, t.labels) else Includes(rx, v, t.labels))
    && QueryHolds(q, t)
  }

  ghost function ViewClauses(v: ResolvedView, mode: ViewMode): (r: seq<Clause>)
  {
    if mode.InvertView? then [NotShown] else if v.Filtering() then [Shown] else []
  }

  ghost function TextClauses(q: Query): (r: seq<Clause>)
  {
    (Optionally(q.source != "", SourceIs(q.source)) + Optionally(q.status != "", StatusIs(q.status)))
    + (Optionally(q.severity != "", SeverityIs(q.severity)) + Optionally(q.team != "", TeamIs(q.team)))
  }

  ghost function FlagClauses(q: Query): (r: seq<Clause>)
  {
    (if q.suppressed.Some? then [SuppressedIs(q.suppressed.value)] else [])
    + (if q.closed.Some? then [ClosedIs(q.closed.value)] else [Open])
  }

  ghost function QueryClauses(q: Query): (r: seq<Clause>)
  {
    TextClauses(q) + FlagClauses(q) + FilterClauses(q.filters)
  }

  lemma OptionalMeans(rx: Regex, p: Principal, v: ResolvedView, present: bool, clause: Clause, t: Tuple)
    ensures AllClausesHold(rx, p, v, Optionally(present, clause), t) <==> !present || ClauseHolds(rx, p, v, clause, t)
    ensures AllClausesHold(rx, p, v, [clause], t) <==> ClauseHolds(rx, p, v, clause, t)
  {
    assert [clause][0] == clause;
  }

  lemma FilterClausesMean(rx: Regex, p: Principal, v: ResolvedView, filters: seq<LabelFilter>, t: Tuple)
    ensures AllClausesHold(rx, p, v, FilterClauses(filters), t) <==>
            forall i | 0 <= i < |filters| :: FilterHolds(filters[i], t.labels)
  {
    var clauses := FilterClauses(filters);
    assert forall i | 0 <= i < |filters| :: ClauseHolds(rx, p, v, clauses[i], t) == FilterHolds(filters[i], t.labels);
  }

  lemma TextClausesMean(rx: Regex, p: Principal, v: ResolvedView, q: Query, t: Tuple)
    ensures AllClausesHold(rx, p, v, TextClauses(q), t) <==>
            && (q.source == "" || t.source == q.source)
            && (q.status == "" || t.status == q.status)
            && (q.severity == "" || SeverityOf(t.labels) == q.severity)
            && (q.team == "" || ("team" in t.labels && t.labels["team"] == q.team))
  {
    var source := Optionally(q.source != "", SourceIs(q.source));
    var status := Optionally(q.status != "", StatusIs(q.status));
    var severity := Optionally(q.severity != "", SeverityIs(q.severity));
    var team := Optionally(q.team != "", TeamIs(q.team));
    ClausesGrow(rx, p, v, source + status, severity + team, t);
    ClausesGrow(rx, p, v, source, status, t);
    ClausesGrow(rx, p, v, severity, team, t);
    OptionalMeans(rx, p, v, q.source != "", SourceIs(q.source), t);
    OptionalMeans(rx, p, v, q.status != "", StatusIs(q.status), t);
    OptionalMeans(rx, p, v, q.severity != "", SeverityIs(q.severity), t);
    OptionalMeans(rx, p, v, q.team != "", TeamIs(q.team), t);
  }

  lemma FlagClausesMean(rx: Regex, p: Principal, v: ResolvedView, q: Query, t: Tuple)
    ensures AllClausesHold(rx, p, v, FlagClauses(q), t) <==>
            && (q.suppressed.None? || t.suppressed == q.suppressed.value)
            && (if q.closed.None? then !t.closed else t.closed == q.closed.value)
  {
    var suppressed := if q.suppressed.Some? then [SuppressedIs(q.suppressed.value)] else [];
    var closed := if q.closed.Some? then [ClosedIs(q.closed.value)] else [Open];
    ClausesGrow(rx, p, v, suppressed, closed, t);
    OptionalMeans(rx, p, v, true, if q.suppressed.Some? then suppressed[0] else Open, t);
    OptionalMeans(rx, p, v, true, closed[0], t);
  }

  lemma QueryClausesMean(rx: Regex, p: Principal, v: ResolvedView, q: Query, t: Tuple)
    ensures AllClausesHold(rx, p, v, QueryClauses(q), t) <==> QueryHolds(q, t)
  {
    ClausesGrow(rx, p, v, TextClauses(q) + FlagClauses(q), FilterClauses(q.filters), t);
    ClausesGrow(rx, p, v, TextClauses(q), FlagClauses(q), t);
    TextClausesMean(rx, p, v, q, t);
    FlagClausesMean(rx, p, v, q, t);
    FilterClausesMean(rx, p, v, q.filters, t);
  }

  lemma ScopeAndViewMean(rx: Regex, p: Principal, v: ResolvedView, mode: ViewMode, t: Tuple)
    ensures AllClausesHold(rx, p, v, [InScope] + ViewClauses(v, mode), t) <==>
            && Readable(rx, p, t.labels)
            && (if mode.InvertView? then !Shows(rx, v, t.labels) else Includes(rx, v, t.labels))
  {
    ClausesGrow(rx, p, v, [InScope], ViewClauses(v, mode), t);
    OptionalMeans(rx, p, v, true, InScope, t);
    OptionalMeans(rx, p, v, true, Shown, t);
    OptionalMeans(rx, p, v, true, NotShown, t);
  }

  lemma WhereMeans(rx: Regex, p: Principal, q: Query, v: ResolvedView, mode: ViewMode, t: Tuple)
    ensures AllClausesHold(rx, p, v, [InScope] + ViewClauses(v, mode) + QueryClauses(q), t) <==>
            Wanted(rx, p, q, v, mode, t)
  {
    ClausesGrow(rx, p, v, [InScope] + ViewClauses(v, mode), QueryClauses(q), t);
    ScopeAndViewMean(rx, p, v, mode, t);
    QueryClausesMean(rx, p, v, q, t);
  }

  lemma ScopeExpresses(rx: Regex, p: Principal, v: ResolvedView, c: Cond, args: seq<Value>)
    requires DecidesReadable(rx, c, args, LabelsColumn, p)
    ensures Expresses(rx, p, v, c, args, InScope)
  {
    forall more: seq<Value>, t: Tuple ensures Selects(rx, c, args + more, t) <==> ClauseHolds(rx, p, v, InScope, t) {
      assert Column(t, LabelsColumn) == Some(t.labels);
    }
  }

  lemma ViewExpresses(rx: Regex, p: Principal, v: ResolvedView, c: Cond, args: seq<Value>)
    requires DecidesShown(rx, c, args, LabelsColumn, v)
    ensures Expresses(rx, p, v, c, args, Shown)
    ensures Expresses(rx, p, v, Not(c), args, NotShown)
  {
    forall more: seq<Value>, t: Tuple
      ensures Selects(rx, c, args + more, t) <==> ClauseHolds(rx, p, v, Shown, t)
      ensures Selects(rx, Not(c), args + more, t) <==> ClauseHolds(rx, p, v, NotShown, t)
    {
      assert Column(t, LabelsColumn) == Some(t.labels);
    }
  }

  /** The first conjuncts: scope, and the view unless it filters nothing. */
  method ScopeAndView(ghost rx: Regex, p: Principal, v: ResolvedView, mode: ViewMode)
    returns (parts: seq<Cond>, args: seq<Value>)
    requires Usable(v)
    ensures Keeps(rx, p, v, parts, args, [InScope] + ViewClauses(v, mode))
  {
    var access;
    access, args := ReadAccessCondition(rx, p, LabelsColumn, []);
    parts := [access];
    ScopeExpresses(rx, p, v, access, args);
    assert Keeps(rx, p, v, [], [], []);
    KeepsGrows(rx, p, v, [], [], [], access, args, InScope);
    assert [] + [access] == parts && [] + [InScope] == [InScope];
    if mode.InvertView? || v.Filtering() {
      ghost var before := args;
      var condition;
      condition, args := VisibleCondition(rx, v, LabelsColumn, args);
      ViewExpresses(rx, p, v, condition, args);
      if mode.InvertView? {
        condition := Not(condition);
      }
      KeepsGrows(rx, p, v, parts, before, [InScope], condition, args, if mode.InvertView? then NotShown else Shown);
      parts := parts + [condition];
    } else {
      assert [InScope] + [] == [InScope];
    }
  }

  lemma Regroup<T>(a: seq<T>, b: seq<T>, c: seq<T>, d: seq<T>)
    ensures a + b + c + d == a + (b + c + d)
    ensures a + b + c + d == a + (b + c) + d
    ensures a + b + (c + d) == a + b + c + d
  {
  }

  method AddTexts(ghost rx: Regex, ghost p: Principal, ghost v: ResolvedView, ghost clauses: seq<Clause>,
                  parts: seq<Cond>, args: seq<Value>, q: Query)
    returns (outParts: seq<Cond>, out: seq<Value>)
    requires Keeps(rx, p, v, parts, args, clauses)
    ensures Keeps(rx, p, v, outParts, out, clauses + TextClauses(q))
  {
    outParts, out := AddField(rx, p, v, clauses, parts, args, q.source != "", SourceIs(q.source));
    ghost var c1 := clauses + Optionally(q.source != "", SourceIs(q.source));
    outParts, out := AddField(rx, p, v, c1, outParts, out, q.status != "", StatusIs(q.status));
    ghost var c2 := c1 + Optionally(q.status != "", StatusIs(q.status));
    outParts, out := AddField(rx, p, v, c2, outParts, out, q.severity != "", SeverityIs(q.severity));
    ghost var c3 := c2 + Optionally(q.severity != "", SeverityIs(q.severity));
    outParts, out := AddField(rx, p, v, c3, outParts, out, q.team != "", TeamIs(q.team));
    Regroup(c1, Optionally(q.status != "", StatusIs(q.status)),
            Optionally(q.severity != "", SeverityIs(q.severity)), Optionally(q.team != "", TeamIs(q.team)));
    Regroup(clauses, Optionally(q.source != "", SourceIs(q.source)), Optionally(q.status != "", StatusIs(q.status)),
            Optionally(q.severity != "", SeverityIs(q.severity)) + Optionally(q.team != "", TeamIs(q.team)));
  }

  /** The condition, against its arguments and anything appended later, keeps exactly the rows that
      scope, view and query agree on. */
  ghost predicate Answers(rx: Regex, p: Principal, q: Query, v: ResolvedView, mode: ViewMode, c: Cond, args: seq<Value>)
  {
    forall more: seq<Value>, t: Tuple :: Selects(rx, c, args + more, t) <==> Wanted(rx, p, q, v, mode, t)
  }

  lemma KeptIsWanted(rx: Regex, p: Principal, q: Query, v: ResolvedView, mode: ViewMode, parts: seq<Cond>,
                     args: seq<Value>)
    requires Keeps(rx, p, v, parts, args, [InScope] + ViewClauses(v, mode) + QueryClauses(q))
    ensures Answers(rx, p, q, v, mode, All(parts), args)
  {
    forall more: seq<Value>, t: Tuple
      ensures Selects(rx, All(parts), args + more, t) <==> Wanted(rx, p, q, v, mode, t)
    {
      WhereMeans(rx, p, q, v, mode, t);
    }
  }

  /** The clauses on the two boolean columns; there is always one on `closed`. */
  method AddFlags(ghost rx: Regex, ghost p: Principal, ghost v: ResolvedView, ghost clauses: seq<Clause>,
                  parts: seq<Cond>, args: seq<Value>, q: Query)
    returns (outParts: seq<Cond>, out: seq<Value>)
    requires Keeps(rx, p, v, parts, args, clauses)
    ensures Keeps(rx, p, v, outParts, out, clauses + FlagClauses(q))
  {
    var suppressed := SuppressedIs(if q.suppressed.Some? then q.suppressed.value else false);
    outParts, out := AddField(rx, p, v, clauses, parts, args, q.suppressed.Some?, suppressed);
    ghost var mid := clauses + Optionally(q.suppressed.Some?, suppressed);
    if q.closed.None? {
      var open := Not(IsTrue(ClosedFlag));
      assert Expresses(rx, p, v, open, out, Open);
      KeepsGrows(rx, p, v, outParts, out, mid, open, out, Open);
      outParts := outParts + [open];
      assert mid + [Open] == clauses + FlagClauses(q);
    } else {
      outParts, out := AddField(rx, p, v, mid, outParts, out, true, ClosedIs(q.closed.value));
      assert mid + [ClosedIs(q.closed.value)] == clauses + FlagClauses(q);
    }
  }

  method AddQuery(ghost rx: Regex, ghost p: Principal, ghost v: ResolvedView, ghost clauses: seq<Clause>,
                  parts: seq<Cond>, args: seq<Value>, q: Query)
    returns (outParts: seq<Cond>, out: seq<Value>)
    requires Keeps(rx, p, v, parts, args, clauses)
    ensures Keeps(rx, p, v, outParts, out, clauses + QueryClauses(q))
  {
    ghost var c1 := clauses + TextClauses(q);
    ghost var c2 := c1 + FlagClauses(q);
    outParts, out := AddTexts(rx, p, v, clauses, parts, args, q);
    outParts, out := AddFlags(rx, p, v, c1, outParts, out, q);
    outParts, out := AddFilters(rx, p, v, c2, outParts, out, q.filters);
    Regroup(clauses, TextClauses(q), FlagClauses(q), FilterClauses(q.filters));
  }

  method AlertFiltersWithView(ghost rx: Regex, p: Principal, q: Query, v: ResolvedView, mode: ViewMode)
    returns (where_: Cond, args: seq<Value>)
    requires Usable(v) && (mode.InvertView? ==> v.Active())
    ensures Answers(rx, p, q, v, mode, where_, args)
  {
    var parts;
    parts, args := ScopeAndView(rx, p, v, mode);
    ghost var c0 := [InScope] + ViewClauses(v, mode);
    parts, args := AddQuery(rx, p, v, c0, parts, args, q);
    where_ := All(parts);
    KeptIsWanted(rx, p, q, v, mode, parts, args);
  }

  // ---------------------------------------------------------------- the stream's condition

  /** In scope and in view, the one notion of visibility snapshot and stream share. */
  predicate Visible(rx: Regex, p: Principal, v: ResolvedView, labels: Labels)
  {
    Readable(rx, p, labels) && Includes(rx, v, labels)
  }

  /** Visible is what the reader may read and their view lets through. */
  lemma InReadersView(rx: Regex, p: Principal, options: Option<ViewOptions>, labels: Labels)
    ensures Visible(rx, p, Resolve(p, options), labels) <==>
            && Readable(rx, p, labels)
            && (|| options.None? || ViewGroups(p) == [] || options.value.showAll
                || Selected(rx, p, labels) || (Critical(labels) && !options.value.filterCritical))
  {
    ViewIncludes(rx, p, options, labels);
  }

  ghost predicate DecidesVisible(rx: Regex, c: Cond, args: seq<Value>, column: LabelColumn, p: Principal,
                                 v: ResolvedView)
  {
    forall more: seq<Value>, t: Tuple | Column(t, column).Some? ::
      Eval(rx, c, args + more, t) == Lift(Visible(rx, p, v, Column(t, column).value))
  }

  lemma IncludesIsShows(rx: Regex, v: ResolvedView, labels: Labels)
    requires v.Filtering()
    ensures Includes(rx, v, labels) == Shows(rx, v, labels)
  {
  }

  lemma VisibleMeans(rx: Regex, p: Principal, v: ResolvedView, access: Cond, mid: seq<Value>, shown: Cond,
                     out: seq<Value>, column: LabelColumn)
    requires DecidesReadable(rx, access, mid, column, p) && mid <= out && v.Filtering()
    requires DecidesShown(rx, shown, out, column, v)
    ensures DecidesVisible(rx, All([access, shown]), out, column, p, v)
  {
    forall more: seq<Value>, t: Tuple | Column(t, column).Some?
      ensures Eval(rx, All([access, shown]), out + more, t) == Lift(Visible(rx, p, v, Column(t, column).value))
    {
      assert out + more == mid + (out[|mid|..] + more);
      EvalPair(rx, access, shown, out + more, t);
      IncludesIsShows(rx, v, Column(t, column).value);
    }
  }

  method ColumnVisible(ghost rx: Regex, p: Principal, v: ResolvedView, column: LabelColumn, args: seq<Value>)
    returns (c: Cond, out: seq<Value>)
    requires Usable(v)
    ensures args <= out
    ensures DecidesVisible(rx, c, out, column, p, v)
  {
    c, out := ReadAccessCondition(rx, p, column, args);
    if v.Filtering() {
      ghost var mid, access := out, c;
      var shown;
      shown, out := VisibleCondition(rx, v, column, out);
      c := All([c, shown]);
      VisibleMeans(rx, p, v, access, mid, shown, out, column);
    }
  }

  /** An event is worth a reader's while when its labels are visible, or its previous labels were. */
  predicate Concerns(rx: Regex, p: Principal, v: ResolvedView, labels: Labels, previous: Option<Labels>)
  {
    Visible(rx, p, v, labels) || (previous.Some? && Visible(rx, p, v, previous.value))
  }

  lemma StreamMeansAt(rx: Regex, p: Principal, v: ResolvedView, current: Cond, mid: seq<Value>, previous: Cond,
                      out: seq<Value>,
                      more: seq<Value>, t: Tuple)
    requires DecidesVisible(rx, current, mid, LabelsColumn, p, v) && mid <= out
    requires DecidesVisible(rx, previous, out, PreviousLabelsColumn, p, v)
    ensures Selects(rx, Any([current, All([NotNull(PreviousLabelsColumn), previous])]), out + more, t) <==>
            Concerns(rx, p, v, t.labels, t.previous)
  {
    assert out + more == mid + (out[|mid|..] + more);
    assert Column(t, LabelsColumn) == Some(t.labels) && Column(t, PreviousLabelsColumn) == t.previous;
    EvalPair(rx, current, All([NotNull(PreviousLabelsColumn), previous]), out + more, t);
    EvalPair(rx, NotNull(PreviousLabelsColumn), previous, out + more, t);
  }

  /** The SELECT of a stream poll makes, in SQL, the same test the row loop then makes in Go. */
  method StreamCondition(ghost rx: Regex, p: Principal, v: ResolvedView, args: seq<Value>)
    returns (c: Cond, out: seq<Value>)
    requires Usable(v)
    ensures args <= out
    ensures forall more: seq<Value>, t: Tuple ::
              Selects(rx, c, out + more, t) <==> Concerns(rx, p, v, t.labels, t.previous)
  {
    var current, previous;
    current, out := ColumnVisible(rx, p, v, LabelsColumn, args);
    ghost var mid := out;
    previous, out := ColumnVisible(rx, p, v, PreviousLabelsColumn, out);
    c := Any([current, All([NotNull(PreviousLabelsColumn), previous])]);
    forall more: seq<Value>, t: Tuple
      ensures Selects(rx, c, out + more, t) <==> Concerns(rx, p, v, t.labels, t.previous)
    {
      StreamMeansAt(rx, p, v, current, mid, previous, out, more, t);
    }
  }

  // ---------------------------------------------------------------- counting what the view hides

  function CountSelected(rx: Regex, c: Cond, args: seq<Value>, table: seq<Tuple>): (n: nat)
  {
    if table == [] then 0
    else CountSelected(rx, c, args, table[1..]) + (if Selects(rx, c, args, table[0]) then 1 else 0)
  }

  /** Rows in scope that satisfy the query, whatever the view. */
  function CountInScope(rx: Regex, p: Principal, q: Query, table: seq<Tuple>): (n: nat)
  {
    if table == [] then 0
    else CountInScope(rx, p, q, table[1..]) + (if Readable(rx, p, table[0].labels) && QueryHolds(q, table[0]) then 1
                                               else 0)
  }

  /** Of those, the ones that are classified as outside the view. */
  function CountOutside(rx: Regex, p: Principal, q: Query, v: ResolvedView, table: seq<Tuple>): (n: nat)
  {
    if table == [] then 0
    else
      CountOutside(rx, p, q, v, table[1..]) +
      (if Readable(rx, p, table[0].labels) && QueryHolds(q, table[0]) && Classify(rx, v, table[0].labels) == Outside
       then 1 else 0)
  }

  lemma {:induction false} ViewPartitions(rx: Regex, p: Principal, q: Query, v: ResolvedView,
                                          listed: Cond, listedArgs: seq<Value>, hidden: Cond, hiddenArgs: seq<Value>,
                                              table: seq<Tuple>)
    requires v.Active()
    requires Answers(rx, p, q, v, ApplyView, listed, listedArgs)
    requires Answers(rx, p, q, v, InvertView, hidden, hiddenArgs)
    ensures CountSelected(rx, hidden, hiddenArgs, table) == CountOutside(rx, p, q, v, table)
    ensures v.Filtering() ==>
              CountSelected(rx, listed, listedArgs, table) + CountSelected(rx, hidden, hiddenArgs, table) ==
                CountInScope(rx, p, q, table)
    ensures !v.Filtering() ==> CountSelected(rx, listed, listedArgs, table) == CountInScope(rx, p, q, table)
  {
    if table != [] {
      ViewPartitions(rx, p, q, v, listed, listedArgs, hidden, hiddenArgs, table[1..]);
      assert listedArgs + [] == listedArgs && hiddenArgs + [] == hiddenArgs;
      assert Selects(rx, listed, listedArgs + [], table[0]) <==> Wanted(rx, p, q, v, ApplyView, table[0]);
      assert Selects(rx, hidden, hiddenArgs + [], table[0]) <==> Wanted(rx, p, q, v, InvertView, table[0]);
    }
  }

  lemma {:induction false} NoViewHidesNothing(rx: Regex, p: Principal, q: Query, v: ResolvedView, c: Cond,
                                              args: seq<Value>, table: seq<Tuple>)
    requires !v.Active() && Answers(rx, p, q, v, ApplyView, c, args)
    ensures CountSelected(rx, c, args, table) == CountInScope(rx, p, q, table)
  {
    if table != [] {
      NoViewHidesNothing(rx, p, q, v, c, args, table[1..]);
      assert args + [] == args;
      assert Selects(rx, c, args + [], table[0]) <==> Wanted(rx, p, q, v, ApplyView, table[0]);
    }
  }

  /** The totals a listing reports: how many rows it lists and how many its view hides. */
  method ListTotals(rx: Regex, p: Principal, q: Query, table: seq<Tuple>) returns (total: nat, hidden: nat)
    ensures var v := Resolve(p, q.view);
            && (v.Filtering() ==> total + hidden == CountInScope(rx, p, q, table))
            && (!v.Filtering() ==> total == CountInScope(rx, p, q, table))
            && (v.Active() ==> hidden == CountOutside(rx, p, q, v, table))
            && (!v.Active() ==> hidden == 0)
  {
    var v := Resolve(p, q.view);
    var where_, args := AlertFiltersWithView(rx, p, q, v, ApplyView);
    total := CountSelected(rx, where_, args, table);
    hidden := 0;
    if v.Active() {
      var inverted, invertedArgs := AlertFiltersWithView(rx, p, q, v, InvertView);
      hidden := CountSelected(rx, inverted, invertedArgs, table);
      ViewPartitions(rx, p, q, v, where_, args, inverted, invertedArgs, table);
    } else {
      NoViewHidesNothing(rx, p, q, v, where_, args, table);
    }
  }
}
