/**
  The SQL the query builders emit, as syntax trees over numbered placeholders, with
  PostgreSQL's three-valued logic: a comparison with NULL is unknown, and a WHERE keeps
  a row only when its condition is true.
 */
module Sql {
  import opened Prelude

  datatype Truth = True | False | Unknown

  /** A bound argument or a column value. */
  datatype Value = Text(text: string) | Bool(flag: bool) | Number(number: int)

  /** The jsonb columns a condition can look into. */
  datatype LabelColumn = LabelsColumn | PreviousLabelsColumn

  datatype Scalar =
    | Arg(position: nat)                                     // $n, counting from 1
    | Literal(text: string)
    | SourceSlug | SourceStatus | SuppressedFlag | ClosedFlag
    | LabelAt(column: LabelColumn, name: Scalar)             // column ->> name
    | Coalesce(first: Scalar, otherwise: Scalar)

  datatype Comparison = Same | Differs | Regexp | NotRegexp

  datatype Cond =
    | Const(holds: bool)
    | HasLabel(column: LabelColumn, name: Scalar)            // column ? name
    | Compare(left: Scalar, comparison: Comparison, right: Scalar)
    | IsTrue(flag: Scalar)
    | NotNull(column: LabelColumn)
    | Not(inner: Cond)
    | All(parts: seq<Cond>)                                  // joined with AND
    | Any(parts: seq<Cond>)                                  // joined with OR

  /** One row of `alerts` or `stream_events`, as far as the conditions look. */
  datatype Tuple = Tuple(
    source: string,
    status: string,
    suppressed: bool,
    closed: bool,
    labels: Labels,
    previous: Option<Labels>)

  function Column(t: Tuple, column: LabelColumn): (l: Option<Labels>)
  {
    match column
    case LabelsColumn => Some(t.labels)
    case PreviousLabelsColumn => t.previous
  }

  function Lift(b: bool): (t: Truth) { if b then True else False }

  function Negate(t: Truth): (r: Truth)
  {
    match t case True => False case False => True case Unknown => Unknown
  }

  function Both(a: Truth, b: Truth): (r: Truth)
  {
    if a.False? || b.False? then False else if a.True? && b.True? then True else Unknown
  }

  function Either(a: Truth, b: Truth): (r: Truth)
  {
    if a.True? || b.True? then True else if a.False? && b.False? then False else Unknown
  }

  /** The value of a scalar; None is NULL. A placeholder beyond the arguments is NULL here,
      and the builders never emit one. */
  function Scan(s: Scalar, args: seq<Value>, t: Tuple): (v: Option<Value>)
  {
    match s
    case Arg(n) => if 1 <= n <= |args| then Some(args[n - 1]) else None
    case Literal(text) => Some(Text(text))
    case SourceSlug => Some(Text(t.source))
    case SourceStatus => Some(Text(t.status))
    case SuppressedFlag => Some(Bool(t.suppressed))
    case ClosedFlag => Some(Bool(t.closed))
    case LabelAt(column, name) =>
      var labels := Column(t, column);
      var key := Scan(name, args, t);
      if labels.Some? && key.Some? && key.value.Text? && key.value.text in labels.value
      then Some(Text(labels.value[key.value.text]))
      else None
    case Coalesce(first, otherwise) =>
      var v := Scan(first, args, t);
      if v.Some? then v else Scan(otherwise, args, t)
  }

  function CompareValues(rx: Regex, comparison: Comparison, a: Option<Value>, b: Option<Value>): (r: Truth)
  {
    if a.None? || b.None? then Unknown
    else
      match comparison
      case Same => Lift(a.value == b.value)
      case Differs => Lift(a.value != b.value)
      case Regexp => if a.value.Text? && b.value.Text? then Lift(rx(b.value.text, a.value.text)) else Unknown
      case NotRegexp => if a.value.Text? && b.value.Text? then Lift(!rx(b.value.text, a.value.text)) else Unknown
  }

  function Eval(rx: Regex, c: Cond, args: seq<Value>, t: Tuple): (r: Truth)
    decreases c, 0
  {
    match c
    case Const(holds) => Lift(holds)
    case HasLabel(column, name) =>
      var labels := Column(t, column);
      var key := Scan(name, args, t);
      if labels.Some? && key.Some? && key.value.Text? then Lift(key.value.text in labels.value) else Unknown
    case Compare(left, comparison, right) => CompareValues(rx, comparison, Scan(left, args, t), Scan(right, args, t))
    case IsTrue(flag) =>
      var v := Scan(flag, args, t);
      if v.Some? && v.value.Bool? then Lift(v.value.flag) else Unknown
    case NotNull(column) => Lift(Column(t, column).Some?)
    case Not(inner) => Negate(Eval(rx, inner, args, t))
    case All(parts) => EvalAll(rx, parts, args, t)
    case Any(parts) => EvalAny(rx, parts, args, t)
  }

  function EvalAll(rx: Regex, parts: seq<Cond>, args: seq<Value>, t: Tuple): (r: Truth)
    decreases parts, 1
  {
    if parts == [] then True
    else Both(EvalAll(rx, parts[..|parts| - 1], args, t), Eval(rx, parts[|parts| - 1], args, t))
  }

  function EvalAny(rx: Regex, parts: seq<Cond>, args: seq<Value>, t: Tuple): (r: Truth)
    decreases parts, 1
  {
    if parts == [] then False
    else Either(EvalAny(rx, parts[..|parts| - 1], args, t), Eval(rx, parts[|parts| - 1], args, t))
  }

  /** What a WHERE does with the answer. */
  predicate Selects(rx: Regex, c: Cond, args: seq<Value>, t: Tuple)
  {
    Eval(rx, c, args, t) == True
  }

  lemma EvalAllAppend(rx: Regex, parts: seq<Cond>, c: Cond, args: seq<Value>, t: Tuple)
    ensures EvalAll(rx, parts + [c], args, t) == Both(EvalAll(rx, parts, args, t), Eval(rx, c, args, t))
  {
    assert (parts + [c])[..|parts|] == parts;
  }

  lemma EvalAnyAppend(rx: Regex, parts: seq<Cond>, c: Cond, args: seq<Value>, t: Tuple)
    ensures EvalAny(rx, parts + [c], args, t) == Either(EvalAny(rx, parts, args, t), Eval(rx, c, args, t))
  {
    assert (parts + [c])[..|parts|] == parts;
  }

  lemma EvalOne(rx: Regex, a: Cond, args: seq<Value>, t: Tuple)
    ensures EvalAll(rx, [a], args, t) == Eval(rx, a, args, t)
    ensures EvalAny(rx, [a], args, t) == Eval(rx, a, args, t)
  {
    assert [a][..0] == [];
  }

  lemma EvalPair(rx: Regex, a: Cond, b: Cond, args: seq<Value>, t: Tuple)
    ensures EvalAll(rx, [a, b], args, t) == Both(Eval(rx, a, args, t), Eval(rx, b, args, t))
    ensures EvalAny(rx, [a, b], args, t) == Either(Eval(rx, a, args, t), Eval(rx, b, args, t))
  {
    assert [a, b][..1] == [a];
    EvalOne(rx, a, args, t);
  }

  /** Reading one label, with and without a default. */
  lemma LabelScan(column: LabelColumn, name: Scalar, key: string, otherwise: string, args: seq<Value>, t: Tuple)
    requires Column(t, column).Some? && Scan(name, args, t) == Some(Text(key))
    ensures var labels := Column(t, column).value;
            && Scan(LabelAt(column, name), args, t) == (if key in labels then Some(Text(labels[key])) else None)
            && Scan(Coalesce(LabelAt(column, name), Literal(otherwise)), args, t) ==
               Some(Text(if key in labels then labels[key] else otherwise))
  {
    assert Scan(Literal(otherwise), args, t) == Some(Text(otherwise));
  }
}
