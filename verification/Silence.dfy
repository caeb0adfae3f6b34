/** Silencing a group: one match per Alertmanager, as narrow as its members allow. */
module Silence {
  import opened Prelude
  import opened AlertModel
  import opened Authorization
  import opened Ordering
  import opened Grouping

  datatype Target = Target(source: string, url: string, labels: Labels, members: nat)

  datatype Scope = Scope(labels: Labels, targets: seq<Target>)

  datatype Reply = NotFound | Invalid | NoSilenceTarget | Resolves(scope: Scope)

  // ---------------------------------------------------------------- which alerts a group names

  /** The part of a group key that an Alertmanager could match on; a source slug is not a label. */
  function KeyLabels(names: seq<string>, key: map<string, string>): (labels: Labels)
    requires forall i | 0 <= i < |names| :: names[i] in key
  {
    map name | name in names && name != "source" :: key[name]
  }

  predicate InGroup(names: seq<string>, key: map<string, string>, row: Row)
    requires forall i | 0 <= i < |names| :: names[i] in key
  {
    forall i | 0 <= i < |names| ::
      if names[i] == "source" then row.source == key["source"] else LabelOrEmpty(row.labels, names[i]) == key[names[i]]
  }

  /** The members a silence is written for: firing, and within the caller's operating grants. */
  predicate InReach(rx: Regex, p: Principal, names: seq<string>, key: map<string, string>, row: Row)
    requires forall i | 0 <= i < |names| :: names[i] in key
  {
    InGroup(names, key, row) && row.status == Firing && Operable(rx, p, row.labels)
  }

  /** The label sets of one source's members. */
  function Scoped(rx: Regex, p: Principal, names: seq<string>, key: map<string, string>, rows: seq<Row>,
                  source: string): (r: seq<Labels>)
    requires forall i | 0 <= i < |names| :: names[i] in key
  {
    if rows == [] then []
    else
      var row := rows[|rows| - 1];
      var rest := Scoped(rx, p, names, key, rows[..|rows| - 1], source);
      if row.source == source && InReach(rx, p, names, key, row) then rest + [row.labels] else rest
  }

  lemma {:induction false} ScopedExact(rx: Regex, p: Principal, names: seq<string>, key: map<string, string>,
                                       rows: seq<Row>, source: string, id: nat)
    requires (forall i | 0 <= i < |names| :: names[i] in key) && id < |rows|
    requires rows[id].source == source && InReach(rx, p, names, key, rows[id])
    ensures rows[id].labels in Scoped(rx, p, names, key, rows, source)
  {
    if id < |rows| - 1 {
      ScopedExact(rx, p, names, key, rows[..|rows| - 1], source, id);
    }
  }

  lemma {:induction false} ScopedFromGroup(rx: Regex, p: Principal, names: seq<string>, key: map<string, string>,
                                           rows: seq<Row>, source: string, k: nat)
    requires (forall i | 0 <= i < |names| :: names[i] in key) && k < |Scoped(rx, p, names, key, rows, source)|
    ensures forall name | name in KeyLabels(names, key) ::
              LabelOrEmpty(Scoped(rx, p, names, key, rows, source)[k], name) == KeyLabels(names, key)[name]
  {
    var front := Scoped(rx, p, names, key, rows[..|rows| - 1], source);
    if k < |front| {
      ScopedFromGroup(rx, p, names, key, rows[..|rows| - 1], source, k);
    } else {
      forall name | name in KeyLabels(names, key)
        ensures LabelOrEmpty(rows[|rows| - 1].labels, name) == KeyLabels(names, key)[name]
      {
        var i :| 0 <= i < |names| && names[i] == name;
      }
    }
  }

  // ---------------------------------------------------------------- the fold

  /** The members a silence at a source is written for, in the rows' own terms. */
  predicate ToSilence(rx: Regex, p: Principal, names: seq<string>, key: map<string, string>, row: Row, source: string)
  {
    && row.source == source && row.status == Firing && Operable(rx, p, row.labels)
    && forall name | name in names ::
         name in key && key[name] == (if name == "source" then row.source
                                      else if name in row.labels then row.labels[name] else "")
  }

  lemma ReachMeans(rx: Regex, p: Principal, names: seq<string>, key: map<string, string>, row: Row, source: string)
    requires forall i | 0 <= i < |names| :: names[i] in key
    ensures row.source == source && InReach(rx, p, names, key, row) <==> ToSilence(rx, p, names, key, row, source)
  {
    if ToSilence(rx, p, names, key, row, source) {
      forall i | 0 <= i < |names| ensures names[i] in names {
      }
    }
  }

  ghost function SilencedRows(rx: Regex, p: Principal, names: seq<string>, key: map<string, string>, rows: seq<Row>,
                              source: string): (ids: set<int>)
  {
    set i | 0 <= i < |rows| && ToSilence(rx, p, names, key, rows[i], source)
  }

  lemma SilencedNext(rx: Regex, p: Principal, names: seq<string>, key: map<string, string>, rows: seq<Row>,
                     source: string)
    requires rows != []
    ensures var n := |rows| - 1;
            var before := SilencedRows(rx, p, names, key, rows[..n], source);
            SilencedRows(rx, p, names, key, rows, source) ==
            if ToSilence(rx, p, names, key, rows[n], source) then before + {n} else before
  {
  }

  /** They are counted once each ... */
  lemma {:induction false} ScopedCount(rx: Regex, p: Principal, names: seq<string>, key: map<string, string>,
                                       rows: seq<Row>, source: string)
    requires forall i | 0 <= i < |names| :: names[i] in key
    ensures |Scoped(rx, p, names, key, rows, source)| == |SilencedRows(rx, p, names, key, rows, source)|
  {
    if rows == [] {
      assert SilencedRows(rx, p, names, key, rows, source) == {};
    } else {
      ScopedCount(rx, p, names, key, rows[..|rows| - 1], source);
      ReachMeans(rx, p, names, key, rows[|rows| - 1], source);
      SilencedNext(rx, p, names, key, rows, source);
    }
  }

  ghost predicate LabelsOfSome(rx: Regex, p: Principal, names: seq<string>, key: map<string, string>, rows: seq<Row>,
                               source: string, labels: Labels)
  {
    exists i | 0 <= i < |rows| :: ToSilence(rx, p, names, key, rows[i], source) && rows[i].labels == labels
  }

  lemma LabelsOfNext(rx: Regex, p: Principal, names: seq<string>, key: map<string, string>, rows: seq<Row>,
                     source: string, labels: Labels)
    requires rows != []
    ensures var last := rows[|rows| - 1];
            LabelsOfSome(rx, p, names, key, rows, source, labels) <==>
            || LabelsOfSome(rx, p, names, key, rows[..|rows| - 1], source, labels)
            || (ToSilence(rx, p, names, key, last, source) && last.labels == labels)
  {
    var front := rows[..|rows| - 1];
    assert forall i | 0 <= i < |front| :: front[i] == rows[i];
  }

  /** ... and their labels are the ones matched. */
  lemma {:induction false} ScopedAre(rx: Regex, p: Principal, names: seq<string>, key: map<string, string>,
                                     rows: seq<Row>, source: string, labels: Labels)
    requires forall i | 0 <= i < |names| :: names[i] in key
    ensures labels in Scoped(rx, p, names, key, rows, source) <==>
            LabelsOfSome(rx, p, names, key, rows, source, labels)
  {
    if rows != [] {
      ScopedAre(rx, p, names, key, rows[..|rows| - 1], source, labels);
      ReachMeans(rx, p, names, key, rows[|rows| - 1], source);
      LabelsOfNext(rx, p, names, key, rows, source, labels);
    }
  }

  /** The values of one label across the members that carry it, one per pair the database unnests. */
  function Carried(ms: seq<Labels>, name: string): (values: seq<string>)
    ensures |values| <= |ms|
  {
    if ms == [] then []
    else
      var rest := Carried(ms[..|ms| - 1], name);
      if name in ms[|ms| - 1] then rest + [ms[|ms| - 1][name]] else rest
  }

  function Least(le: (string, string) -> bool, values: seq<string>): (v: string)
    requires values != []
  {
    if |values| == 1 then values[0]
    else
      var rest, x := Least(le, values[..|values| - 1]), values[|values| - 1];
      if le(x, rest) then x else rest
  }

  function Greatest(le: (string, string) -> bool, values: seq<string>): (v: string)
    requires values != []
  {
    if |values| == 1 then values[0]
    else
      var rest, x := Greatest(le, values[..|values| - 1]), values[|values| - 1];
      if le(rest, x) then x else rest
  }

  function NamesIn(ms: seq<Labels>): (names: set<string>)
  {
    if ms == [] then {} else NamesIn(ms[..|ms| - 1]) + ms[|ms| - 1].Keys
  }

  /** HAVING count(*) = members AND min(value) = max(value). */
  function Common(le: (string, string) -> bool, ms: seq<Labels>): (common: Labels)
  {
    map name | name in NamesIn(ms) && |Carried(ms, name)| == |ms| && Carried(ms, name) != []
                 && Least(le, Carried(ms, name)) == Greatest(le, Carried(ms, name)) :: Least(le, Carried(ms, name))
  }

  /** Every member carries this pair. */
  ghost predicate SharedByAll(ms: seq<Labels>, name: string, value: string)
  {
    forall i | 0 <= i < |ms| :: name in ms[i] && ms[i][name] == value
  }

  lemma {:induction false} LeastBounds(le: (string, string) -> bool, values: seq<string>)
    requires values != [] && TotalOrder(le)
    ensures forall i | 0 <= i < |values| :: le(Least(le, values), values[i]) && le(values[i], Greatest(le, values))
  {
    if |values| > 1 {
      LeastBounds(le, values[..|values| - 1]);
    }
  }

  lemma {:induction false} AllTheSame(le: (string, string) -> bool, values: seq<string>, v: string)
    requires values != [] && forall i | 0 <= i < |values| :: values[i] == v
    ensures Least(le, values) == v && Greatest(le, values) == v
  {
    if |values| > 1 {
      AllTheSame(le, values[..|values| - 1], v);
    }
  }

  lemma {:induction false} CarriedByAll(ms: seq<Labels>, name: string)
    requires |Carried(ms, name)| == |ms|
    ensures forall i | 0 <= i < |ms| :: name in ms[i] && ms[i][name] == Carried(ms, name)[i]
  {
    if ms != [] {
      CarriedByAll(ms[..|ms| - 1], name);
    }
  }

  lemma {:induction false} CarriedWhenShared(ms: seq<Labels>, name: string, value: string)
    requires SharedByAll(ms, name, value)
    ensures |Carried(ms, name)| == |ms| && forall i | 0 <= i < |ms| :: Carried(ms, name)[i] == value
    ensures ms != [] ==> name in NamesIn(ms)
  {
    if ms != [] {
      CarriedWhenShared(ms[..|ms| - 1], name, value);
    }
  }

  /** The database's fold finds exactly the pairs every member carries. */
  lemma CommonIsShared(le: (string, string) -> bool, ms: seq<Labels>, name: string, value: string)
    requires TotalOrder(le) && ms != []
    ensures name in Common(le, ms) && Common(le, ms)[name] == value <==> SharedByAll(ms, name, value)
  {
    var values := Carried(ms, name);
    if SharedByAll(ms, name, value) {
      CarriedWhenShared(ms, name, value);
      AllTheSame(le, values, value);
    }
    if name in Common(le, ms) && Common(le, ms)[name] == value {
      CarriedByAll(ms, name);
      LeastBounds(le, values);
      forall i | 0 <= i < |ms| ensures name in ms[i] && ms[i][name] == value {
        assert le(value, values[i]) && le(values[i], value);
      }
    }
  }

  // ---------------------------------------------------------------- targets

  /** The key always survives, over whatever the fold found. */
  function MatchFor(le: (string, string) -> bool, ms: seq<Labels>, keyLabels: Labels): (labels: Labels)
  {
    Common(le, ms) + keyLabels
  }

  /** An equality match covers an alert when every label, absent ones read as empty, is as it says. */
  predicate Covers(match_: Labels, labels: Labels)
  {
    forall name | name in match_ :: LabelOrEmpty(labels, name) == match_[name]
  }

  /** A target's match covers every one of its members, says everything they all say, and says nothing else but
      the key. */
  lemma MatchIsNarrowest(le: (string, string) -> bool, ms: seq<Labels>, keyLabels: Labels)
    requires TotalOrder(le) && ms != []
    requires forall k, name | 0 <= k < |ms| && name in keyLabels :: LabelOrEmpty(ms[k], name) == keyLabels[name]
    ensures forall k | 0 <= k < |ms| :: Covers(MatchFor(le, ms, keyLabels), ms[k])
    ensures forall name, value :: SharedByAll(ms, name, value) ==>
              name in MatchFor(le, ms, keyLabels) && MatchFor(le, ms, keyLabels)[name] == value
    ensures forall name | name in MatchFor(le, ms, keyLabels) ::
              name in keyLabels || SharedByAll(ms, name, MatchFor(le, ms, keyLabels)[name])
  {
    var m := MatchFor(le, ms, keyLabels);
    forall name | name in m && name !in keyLabels ensures SharedByAll(ms, name, m[name]) {
      CommonIsShared(le, ms, name, m[name]);
    }
    forall k | 0 <= k < |ms| ensures Covers(m, ms[k]) {
      forall name | name in m ensures LabelOrEmpty(ms[k], name) == m[name] {
        if name !in keyLabels {
          assert SharedByAll(ms, name, m[name]);
        }
      }
    }
    forall name, value | SharedByAll(ms, name, value) ensures name in m && m[name] == value {
      CommonIsShared(le, ms, name, value);
      assert LabelOrEmpty(ms[0], name) == value;
    }
  }

  // ---------------------------------------------------------------- how narrow is narrowest

  ghost predicate CoversAll(match_: Labels, ms: seq<Labels>) { forall k | 0 <= k < |ms| :: Covers(match_, ms[k]) }

  /** Whatever the first silences, the second would too. */
  ghost predicate AsNarrowAs(narrow: Labels, wide: Labels)
  {
    forall labels: Labels | Covers(narrow, labels) :: Covers(wide, labels)
  }

  /** Between two matches that cover the same members, the one with more labels is the narrower, and nothing
      else decides it. */
  lemma NarrowerExactly(m: Labels, w: Labels, ms: seq<Labels>)
    requires ms != [] && CoversAll(m, ms) && CoversAll(w, ms)
    ensures AsNarrowAs(m, w) <==> w.Keys <= m.Keys
  {
    if w.Keys <= m.Keys {
      forall labels: Labels | Covers(m, labels) ensures Covers(w, labels) {
        forall name | name in w ensures LabelOrEmpty(labels, name) == w[name] {
          assert Covers(m, ms[0]) && Covers(w, ms[0]);
          assert name in m && m[name] == LabelOrEmpty(ms[0], name) == w[name];
        }
      }
    } else {
      var name :| name in w && name !in m;
      var spoiled := m[name := w[name] + "x"];
      assert |spoiled[name]| == |w[name]| + 1;
      assert Covers(m, spoiled) && !Covers(w, spoiled);
    }
  }

  lemma MatchCoversKey(ms: seq<Labels>, keyLabels: Labels)
    requires CoversAll(keyLabels, ms)
    ensures forall k, name | 0 <= k < |ms| && name in keyLabels :: LabelOrEmpty(ms[k], name) == keyLabels[name]
  {
    forall k, name | 0 <= k < |ms| && name in keyLabels ensures LabelOrEmpty(ms[k], name) == keyLabels[name] {
      assert Covers(keyLabels, ms[k]);
    }
  }

  /** Against every covering match that asks no label to be empty, what is written is the narrowest. */
  lemma NarrowestOfNonEmpty(le: (string, string) -> bool, ms: seq<Labels>, keyLabels: Labels, w: Labels)
    requires TotalOrder(le) && ms != [] && CoversAll(keyLabels, ms)
    requires CoversAll(w, ms) && forall name | name in w :: w[name] != ""
    ensures AsNarrowAs(MatchFor(le, ms, keyLabels), w)
  {
    var m := MatchFor(le, ms, keyLabels);
    MatchCoversKey(ms, keyLabels);
    MatchIsNarrowest(le, ms, keyLabels);
    forall name | name in w ensures name in m {
      forall k | 0 <= k < |ms| ensures name in ms[k] && ms[k][name] == w[name] {
        assert Covers(w, ms[k]);
      }
      assert SharedByAll(ms, name, w[name]);
    }
    NarrowerExactly(m, w, ms);
  }

  /** A label outside the key that some member carries empty and another does not carry at all. To a match the
      two are the same; to the fold they are not. */
  ghost predicate HalfEmpty(ms: seq<Labels>, keyLabels: Labels, name: string)
  {
    && name in NamesIn(ms) && name !in keyLabels
    && (forall k | 0 <= k < |ms| :: LabelOrEmpty(ms[k], name) == "")
    && (exists k | 0 <= k < |ms| :: name !in ms[k])
  }

  /** Narrowest among all covering matches on labels the members carry. */
  ghost predicate Narrowest(m: Labels, ms: seq<Labels>, keyLabels: Labels)
  {
    forall w: Labels | CoversAll(w, ms) && w.Keys <= NamesIn(ms) + keyLabels.Keys :: AsNarrowAs(m, w)
  }

  lemma EmptyMatchCovers(ms: seq<Labels>, name: string)
    requires forall k | 0 <= k < |ms| :: LabelOrEmpty(ms[k], name) == ""
    ensures CoversAll(map[name := ""], ms)
  {
  }

  /** A carried label a covering match names is either written or half empty. */
  lemma WrittenOrHalfEmpty(le: (string, string) -> bool, ms: seq<Labels>, keyLabels: Labels, w: Labels, name: string)
    requires TotalOrder(le) && ms != [] && CoversAll(keyLabels, ms) && CoversAll(w, ms)
    requires name in w && (name in NamesIn(ms) || name in keyLabels)
    ensures name in MatchFor(le, ms, keyLabels) || HalfEmpty(ms, keyLabels, name)
  {
    MatchCoversKey(ms, keyLabels);
    MatchIsNarrowest(le, ms, keyLabels);
    forall k | 0 <= k < |ms| ensures LabelOrEmpty(ms[k], name) == w[name] {
      assert Covers(w, ms[k]);
    }
    if forall k | 0 <= k < |ms| :: name in ms[k] {
      assert SharedByAll(ms, name, w[name]);
    }
  }

  lemma HalfEmptyIsNotWritten(le: (string, string) -> bool, ms: seq<Labels>, keyLabels: Labels, name: string)
    requires TotalOrder(le) && ms != [] && CoversAll(keyLabels, ms) && HalfEmpty(ms, keyLabels, name)
    ensures CoversAll(map[name := ""], ms) && !AsNarrowAs(MatchFor(le, ms, keyLabels), map[name := ""])
  {
    MatchCoversKey(ms, keyLabels);
    MatchIsNarrowest(le, ms, keyLabels);
    EmptyMatchCovers(ms, name);
    NarrowerExactly(MatchFor(le, ms, keyLabels), map[name := ""], ms);
  }

  lemma AllWritten(le: (string, string) -> bool, ms: seq<Labels>, keyLabels: Labels, w: Labels)
    requires TotalOrder(le) && ms != [] && CoversAll(keyLabels, ms) && !exists name :: HalfEmpty(ms, keyLabels, name)
    requires CoversAll(w, ms) && w.Keys <= NamesIn(ms) + keyLabels.Keys
    ensures AsNarrowAs(MatchFor(le, ms, keyLabels), w)
  {
    MatchCoversKey(ms, keyLabels);
    MatchIsNarrowest(le, ms, keyLabels);
    forall name | name in w ensures name in MatchFor(le, ms, keyLabels) {
      WrittenOrHalfEmpty(le, ms, keyLabels, w, name);
    }
    NarrowerExactly(MatchFor(le, ms, keyLabels), w, ms);
  }

  /** The match is the narrowest there is, over the labels its members carry, if and only if no such label is
      empty at one member and absent at another. */
  lemma NarrowestExactly(le: (string, string) -> bool, ms: seq<Labels>, keyLabels: Labels)
    requires TotalOrder(le) && ms != [] && CoversAll(keyLabels, ms)
    ensures Narrowest(MatchFor(le, ms, keyLabels), ms, keyLabels) <==> !exists name :: HalfEmpty(ms, keyLabels, name)
  {
    if name :| HalfEmpty(ms, keyLabels, name) {
      HalfEmptyIsNotWritten(le, ms, keyLabels, name);
    } else {
      forall w: Labels | CoversAll(w, ms) && w.Keys <= NamesIn(ms) + keyLabels.Keys
        ensures AsNarrowAs(MatchFor(le, ms, keyLabels), w)
      {
        AllWritten(le, ms, keyLabels, w);
      }
    }
  }

  /** It does happen: one member carries an empty label, the other lacks it, and a narrower silence that covers
      both is not written. */
  lemma HalfEmptyExample(le: (string, string) -> bool)
    requires TotalOrder(le)
    ensures var ms: seq<Labels> := [map["alertname" := "Down", "x" := ""], map["alertname" := "Down"]];
            && CoversAll(map["alertname" := "Down", "x" := ""], ms)
            && !AsNarrowAs(MatchFor(le, ms, map["alertname" := "Down"]), map["alertname" := "Down", "x" := ""])
  {
    var ms: seq<Labels> := [map["alertname" := "Down", "x" := ""], map["alertname" := "Down"]];
    var key, w: Labels := map["alertname" := "Down"], map["alertname" := "Down", "x" := ""];
    assert CoversAll(key, ms) && CoversAll(w, ms);
    MatchCoversKey(ms, key);
    MatchIsNarrowest(le, ms, key);
    assert "x" !in ms[1];
    assert "x" !in MatchFor(le, ms, key);
    NarrowerExactly(MatchFor(le, ms, key), w, ms);
  }

  predicate Says(labels: Labels, name: string, value: string) { name in labels && labels[name] == value }

  ghost predicate AllSay(targets: seq<Target>, name: string, value: string)
  {
    targets != [] && forall i | 0 <= i < |targets| :: Says(targets[i].labels, name, value)
  }

  lemma AllSayNext(targets: seq<Target>, i: nat, name: string, value: string)
    requires 0 < i < |targets|
    ensures AllSay(targets[..i + 1], name, value) <==>
            AllSay(targets[..i], name, value) && Says(targets[i].labels, name, value)
  {
    var longer, shorter := targets[..i + 1], targets[..i];
    assert forall k | 0 <= k < i :: longer[k] == shorter[k];
    assert longer[i] == targets[i];
  }

  /** The pass over one more target: every label it lacks or reads differently is deleted. */
  method Agreeing(labels: Labels, other: Labels) returns (common: Labels)
    ensures forall name, value :: Says(common, name, value) <==> Says(labels, name, value) && Says(other, name, value)
  {
    common := labels;
    var names := labels.Keys;
    while names != {}
      invariant names <= labels.Keys
      invariant forall name :: name in common <==>
                  name in labels && (name in names || (name in other && other[name] == labels[name]))
      invariant forall name | name in common :: common[name] == labels[name]
      decreases names
    {
      var name :| name in names;
      if name !in other || other[name] != common[name] {
        common := common - {name};
      }
      names := names - {name};
    }
  }

  /** The previewed labels: exactly what every target's match agrees on. */
  method CommonLabels(targets: seq<Target>) returns (common: Labels)
    ensures forall name, value :: Says(common, name, value) <==> AllSay(targets, name, value)
  {
    common := map[];
    var i := 0;
    while i < |targets|
      invariant 0 <= i <= |targets|
      invariant forall name, value :: Says(common, name, value) <==> AllSay(targets[..i], name, value)
    {
      ghost var before := common;
      if i == 0 {
        common := targets[0].labels;
        assert targets[..1] == [targets[0]];
      } else {
        common := Agreeing(common, targets[i].labels);
        forall name, value ensures Says(common, name, value) <==> AllSay(targets[..i + 1], name, value) {
          AllSayNext(targets, i, name, value);
          assert Says(before, name, value) <==> AllSay(targets[..i], name, value);
        }
      }
      i := i + 1;
    }
    assert targets[..i] == targets;
  }

  // ---------------------------------------------------------------- the request

  /** Sources with a member in reach, each once. */
  function Reached(rx: Regex, p: Principal, names: seq<string>, key: map<string, string>,
                   rows: seq<Row>): (sources: seq<string>)
    requires forall i | 0 <= i < |names| :: names[i] in key
  {
    if rows == [] then []
    else
      var row := rows[|rows| - 1];
      var rest := Reached(rx, p, names, key, rows[..|rows| - 1]);
      if InReach(rx, p, names, key, row) && row.source !in rest then rest + [row.source] else rest
  }

  lemma {:induction false} ReachedExact(rx: Regex, p: Principal, names: seq<string>, key: map<string, string>,
                                        rows: seq<Row>, source: string)
    requires forall i | 0 <= i < |names| :: names[i] in key
    ensures source in Reached(rx, p, names, key, rows) <==> Scoped(rx, p, names, key, rows, source) != []
  {
    if rows != [] {
      ReachedExact(rx, p, names, key, rows[..|rows| - 1], source);
    }
  }

  function TargetFor(le: (string, string) -> bool, source: string, url: string, ms: seq<Labels>,
                     keyLabels: Labels): (t: Target)
  {
    Target(source, url, MatchFor(le, ms, keyLabels), |ms|)
  }

  /** The rows of the request's query that join a configured source, in source order. */
  function Joined(sources: seq<string>, urls: map<string, string>): (r: seq<string>)
  {
    if sources == [] then []
    else
      var rest := Joined(sources[..|sources| - 1], urls);
      if sources[|sources| - 1] in urls then rest + [sources[|sources| - 1]] else rest
  }

  /** Of those, the ones that have an Alertmanager URL. */
  function Writable(sources: seq<string>, urls: map<string, string>): (r: seq<string>)
    ensures forall i | 0 <= i < |r| :: r[i] in urls && urls[r[i]] != ""
  {
    if sources == [] then []
    else
      var rest := Writable(sources[..|sources| - 1], urls);
      if sources[|sources| - 1] in urls && urls[sources[|sources| - 1]] != "" then rest + [sources[|sources| - 1]]
      else rest
  }

  lemma {:induction false} WritableExact(sources: seq<string>, urls: map<string, string>, source: string)
    ensures source in Writable(sources, urls) <==> source in sources && source in urls && urls[source] != ""
  {
    if sources != [] {
      WritableExact(sources[..|sources| - 1], urls, source);
      assert sources == sources[..|sources| - 1] + [sources[|sources| - 1]];
    }
  }

  function SourceOrder(rx: Regex, p: Principal, names: seq<string>, key: map<string, string>, rows: seq<Row>,
                       le: (string, string) -> bool): (r: seq<string>)
    requires forall i | 0 <= i < |names| :: names[i] in key
  {
    Sort(le, Reached(rx, p, names, key, rows))
  }

  predicate Answerable(names: seq<string>, key: map<string, string>)
  {
    && ValidGrouping(names)
    && (forall i | 0 <= i < |names| :: names[i] in key)
    && (exists i | 0 <= i < |names| :: names[i] != "source")
  }

  /** The targets a group resolves to. */
  function Targets(rx: Regex, p: Principal, names: seq<string>, key: map<string, string>, rows: seq<Row>,
                   urls: map<string, string>,
                   le: (string, string) -> bool, sources: seq<string>): (targets: seq<Target>)
    requires forall i | 0 <= i < |names| :: names[i] in key
    ensures |targets| == |Writable(sources, urls)|
    ensures forall i | 0 <= i < |targets| ::
              var source := Writable(sources, urls)[i];
              targets[i] == TargetFor(le, source, urls[source], Scoped(rx, p, names, key, rows, source),
                                      KeyLabels(names, key))
  {
    var writable := Writable(sources, urls);
    seq(|writable|, i requires 0 <= i < |writable| =>
      TargetFor(le, writable[i], urls[writable[i]], Scoped(rx, p, names, key, rows, writable[i]),
                KeyLabels(names, key)))
  }

  /** How many alerts the scanned sources hold. */
  function MembersOf(rx: Regex, p: Principal, names: seq<string>, key: map<string, string>, rows: seq<Row>,
                     sources: seq<string>): (n: nat)
    requires forall i | 0 <= i < |names| :: names[i] in key
  {
    if sources == [] then 0
    else
      MembersOf(rx, p, names, key, rows, sources[..|sources| - 1]) +
      |Scoped(rx, p, names, key, rows, sources[|sources| - 1])|
  }

  lemma MembersNext(rx: Regex, p: Principal, names: seq<string>, key: map<string, string>, rows: seq<Row>,
                    urls: map<string, string>, sources: seq<string>, i: nat)
    requires (forall k | 0 <= k < |names| :: names[k] in key) && i < |sources|
    ensures MembersOf(rx, p, names, key, rows, Joined(sources[..i + 1], urls)) ==
            MembersOf(rx, p, names, key, rows, Joined(sources[..i], urls)) +
            (if sources[i] in urls then |Scoped(rx, p, names, key, rows, sources[i])| else 0)
  {
    assert sources[..i + 1][..i] == sources[..i];
    var joined := Joined(sources[..i], urls);
    assert (joined + [sources[i]])[..|joined|] == joined;
  }

  lemma TargetsNext(rx: Regex, p: Principal, names: seq<string>, key: map<string, string>, rows: seq<Row>,
                    urls: map<string, string>, le: (string, string) -> bool, sources: seq<string>, i: nat)
    requires (forall k | 0 <= k < |names| :: names[k] in key) && i < |sources|
    ensures var before, source := Targets(rx, p, names, key, rows, urls, le, sources[..i]), sources[i];
            Targets(rx, p, names, key, rows, urls, le, sources[..i + 1]) ==
            if source in urls && urls[source] != ""
            then before + [TargetFor(le, source, urls[source], Scoped(rx, p, names, key, rows, source),
                                     KeyLabels(names, key))]
            else before
  {
    assert sources[..i + 1][..i] == sources[..i];
  }

  method CollectTargets(rx: Regex, p: Principal, names: seq<string>, key: map<string, string>, rows: seq<Row>,
                        urls: map<string, string>, le: (string, string) -> bool, sources: seq<string>)
    returns (members: nat, targets: seq<Target>)
    requires forall i | 0 <= i < |names| :: names[i] in key
    ensures members == MembersOf(rx, p, names, key, rows, Joined(sources, urls))
    ensures targets == Targets(rx, p, names, key, rows, urls, le, sources)
  {
    members, targets := 0, [];
    var i := 0;
    while i < |sources|
      invariant 0 <= i <= |sources|
      invariant members == MembersOf(rx, p, names, key, rows, Joined(sources[..i], urls))
      invariant targets == Targets(rx, p, names, key, rows, urls, le, sources[..i])
    {
      var source := sources[i];
      MembersNext(rx, p, names, key, rows, urls, sources, i);
      TargetsNext(rx, p, names, key, rows, urls, le, sources, i);
      if source in urls {
        var ms := Scoped(rx, p, names, key, rows, source);
        members := members + |ms|;
        if urls[source] != "" {
          targets := targets + [TargetFor(le, source, urls[source], ms, KeyLabels(names, key))];
        }
      }
      i := i + 1;
    }
    assert sources[..i] == sources;
  }

  lemma OrderedAreReached(rx: Regex, p: Principal, names: seq<string>, key: map<string, string>, rows: seq<Row>,
                          le: (string, string) -> bool)
    requires forall i | 0 <= i < |names| :: names[i] in key
    ensures forall source :: source in SourceOrder(rx, p, names, key, rows, le) <==>
            Scoped(rx, p, names, key, rows, source) != []
  {
    var reached := Reached(rx, p, names, key, rows);
    SortContents(le, reached);
    forall source ensures source in Sort(le, reached) <==> Scoped(rx, p, names, key, rows, source) != [] {
      InMultiset(reached, source);
      InMultiset(Sort(le, reached), source);
      ReachedExact(rx, p, names, key, rows, source);
    }
  }

  lemma {:induction false} NobodyMeansNone(rx: Regex, p: Principal, names: seq<string>, key: map<string, string>,
                                           rows: seq<Row>,
                                           urls: map<string, string>, sources: seq<string>)
    requires forall i | 0 <= i < |names| :: names[i] in key
    requires forall i | 0 <= i < |sources| :: Scoped(rx, p, names, key, rows, sources[i]) != []
    ensures MembersOf(rx, p, names, key, rows, Joined(sources, urls)) == 0 <==> Joined(sources, urls) == []
  {
    if sources != [] {
      var front := Joined(sources[..|sources| - 1], urls);
      NobodyMeansNone(rx, p, names, key, rows, urls, sources[..|sources| - 1]);
      if sources[|sources| - 1] in urls {
        assert (front + [sources[|sources| - 1]])[..|front|] == front;
      }
    }
  }

  method SilenceScopeForGroup(rx: Regex, p: Principal, names: seq<string>, key: map<string, string>, rows: seq<Row>,
                              urls: map<string, string>, le: (string, string) -> bool) returns (reply: Reply)
    ensures !CanOperate(p) ==> reply == NotFound
    ensures CanOperate(p) && !Answerable(names, key) ==> reply == Invalid
    ensures CanOperate(p) && Answerable(names, key) ==>
              var sources := SourceOrder(rx, p, names, key, rows, le);
              if Joined(sources, urls) == [] then reply == NotFound
              else if Writable(sources, urls) == [] then reply == NoSilenceTarget
              else
                && reply.Resolves? && reply.scope.targets == Targets(rx, p, names, key, rows, urls, le, sources)
                && forall name, value :: Says(reply.scope.labels, name, value) <==>
                  AllSay(reply.scope.targets, name, value)
  {
    if !CanOperate(p) {
      return NotFound;
    }
    if !Answerable(names, key) {
      return Invalid;
    }
    var keyLabels := KeyLabels(names, key);
    var sources := SourceOrder(rx, p, names, key, rows, le);
    var members, targets := CollectTargets(rx, p, names, key, rows, urls, le, sources);
    OrderedAreReached(rx, p, names, key, rows, le);
    NobodyMeansNone(rx, p, names, key, rows, urls, sources);
    if members == 0 {
      return NotFound;
    }
    if |targets| == 0 {
      return NoSilenceTarget;
    }
    var common := CommonLabels(targets);
    reply := Resolves(Scope(common, targets));
  }

  /** Every target's match covers every member in reach at that source, carries
      every pair those members all carry, and carries nothing else but the group's own key. */
  lemma TargetsAreNarrowest(rx: Regex, p: Principal, names: seq<string>, key: map<string, string>, rows: seq<Row>,
                            urls: map<string, string>, le: (string, string) -> bool, t: nat)
    requires Answerable(names, key) && TotalOrder(le)
    requires t < |Targets(rx, p, names, key, rows, urls, le, SourceOrder(rx, p, names, key, rows, le))|
    ensures var target := Targets(rx, p, names, key, rows, urls, le, SourceOrder(rx, p, names, key, rows, le))[t];
            var ms := Scoped(rx, p, names, key, rows, target.source);
            && target.members == |ms| > 0
            && (forall k | 0 <= k < |ms| :: Covers(target.labels, ms[k]))
            && (forall name, value :: SharedByAll(ms, name, value) ==> Says(target.labels, name, value))
            && (forall name | name in target.labels ::
                  name in KeyLabels(names, key) || SharedByAll(ms, name, target.labels[name]))
            && (forall name | name in KeyLabels(names, key) :: Says(target.labels, name, key[name]))
            && (forall w: Labels | CoversAll(w, ms) && (forall name | name in w :: w[name] != "") ::
                  AsNarrowAs(target.labels, w))
            && (Narrowest(target.labels, ms, KeyLabels(names, key)) <==>
                !exists name :: HalfEmpty(ms, KeyLabels(names, key), name))
  {
    var sources, keyLabels := SourceOrder(rx, p, names, key, rows, le), KeyLabels(names, key);
    var source := Writable(sources, urls)[t];
    var ms := Scoped(rx, p, names, key, rows, source);
    WritableExact(sources, urls, source);
    OrderedAreReached(rx, p, names, key, rows, le);
    forall k, name | 0 <= k < |ms| && name in keyLabels ensures LabelOrEmpty(ms[k], name) == keyLabels[name] {
      ScopedFromGroup(rx, p, names, key, rows, source, k);
    }
    assert CoversAll(keyLabels, ms);
    MatchIsNarrowest(le, ms, keyLabels);
    NarrowestExactly(le, ms, keyLabels);
    forall w: Labels | CoversAll(w, ms) && (forall name | name in w :: w[name] != "")
      ensures AsNarrowAs(MatchFor(le, ms, keyLabels), w)
    {
      NarrowestOfNonEmpty(le, ms, keyLabels, w);
    }
  }

  /** No member in reach of a writable source is left out. */
  lemma EveryMemberIsCovered(rx: Regex, p: Principal, names: seq<string>, key: map<string, string>, rows: seq<Row>,
                             urls: map<string, string>, le: (string, string) -> bool, id: nat) returns (t: nat)
    requires Answerable(names, key) && TotalOrder(le) && id < |rows| && InReach(rx, p, names, key, rows[id])
    requires rows[id].source in urls && urls[rows[id].source] != ""
    ensures var targets := Targets(rx, p, names, key, rows, urls, le, SourceOrder(rx, p, names, key, rows, le));
            t < |targets| && targets[t].source == rows[id].source && Covers(targets[t].labels, rows[id].labels)
  {
    var sources, source := SourceOrder(rx, p, names, key, rows, le), rows[id].source;
    ScopedExact(rx, p, names, key, rows, source, id);
    OrderedAreReached(rx, p, names, key, rows, le);
    WritableExact(sources, urls, source);
    t :| 0 <= t < |Writable(sources, urls)| && Writable(sources, urls)[t] == source;
    TargetsAreNarrowest(rx, p, names, key, rows, urls, le, t);
    var ms := Scoped(rx, p, names, key, rows, source);
    var k :| 0 <= k < |ms| && ms[k] == rows[id].labels;
  }

  lemma {:induction false} JoinedExact(sources: seq<string>, urls: map<string, string>, source: string)
    ensures source in Joined(sources, urls) <==> source in sources && source in urls
  {
    if sources != [] {
      JoinedExact(sources[..|sources| - 1], urls, source);
      assert sources == sources[..|sources| - 1] + [sources[|sources| - 1]];
    }
  }

  /** Somebody is to be silenced at a configured source, or even at one that can be written to. */
  ghost predicate SomeoneAt(rx: Regex, p: Principal, names: seq<string>, key: map<string, string>, rows: seq<Row>,
                            urls: map<string, string>, writable: bool)
  {
    exists i | 0 <= i < |rows| ::
      && ToSilence(rx, p, names, key, rows[i], rows[i].source) && rows[i].source in urls
      && (writable ==> urls[rows[i].source] != "")
  }

  lemma ReachedFrom(rx: Regex, p: Principal, names: seq<string>, key: map<string, string>, rows: seq<Row>,
                    le: (string, string) -> bool, source: string)
    requires forall i | 0 <= i < |names| :: names[i] in key
    ensures source in SourceOrder(rx, p, names, key, rows, le) <==>
            exists i | 0 <= i < |rows| :: ToSilence(rx, p, names, key, rows[i], source)
  {
    OrderedAreReached(rx, p, names, key, rows, le);
    ScopedCount(rx, p, names, key, rows, source);
    var ids := SilencedRows(rx, p, names, key, rows, source);
    if ids != {} {
      var i :| i in ids;
      assert ToSilence(rx, p, names, key, rows[i], source);
    }
    if i :| 0 <= i < |rows| && ToSilence(rx, p, names, key, rows[i], source) {
      assert i in ids;
    }
  }

  lemma SomeoneBehind(rx: Regex, p: Principal, names: seq<string>, key: map<string, string>, rows: seq<Row>,
                      urls: map<string, string>, le: (string, string) -> bool, source: string, writable: bool)
    requires forall i | 0 <= i < |names| :: names[i] in key
    requires var sources := SourceOrder(rx, p, names, key, rows, le);
             if writable then source in Writable(sources, urls) else source in Joined(sources, urls)
    ensures SomeoneAt(rx, p, names, key, rows, urls, writable)
  {
    var sources := SourceOrder(rx, p, names, key, rows, le);
    JoinedExact(sources, urls, source);
    WritableExact(sources, urls, source);
    ReachedFrom(rx, p, names, key, rows, le, source);
    var i :| 0 <= i < |rows| && ToSilence(rx, p, names, key, rows[i], source);
    assert rows[i].source == source;
  }

  /** Not found means that nobody is to be silenced at any configured source, no target that none of those sources can
      be
      written to. */
  lemma RepliesMean(rx: Regex, p: Principal, names: seq<string>, key: map<string, string>, rows: seq<Row>,
                    urls: map<string, string>, le: (string, string) -> bool)
    requires forall i | 0 <= i < |names| :: names[i] in key
    ensures var sources := SourceOrder(rx, p, names, key, rows, le);
            && (Joined(sources, urls) != [] <==> SomeoneAt(rx, p, names, key, rows, urls, false))
            && (Writable(sources, urls) != [] <==> SomeoneAt(rx, p, names, key, rows, urls, true))
  {
    var sources := SourceOrder(rx, p, names, key, rows, le);
    if SomeoneAt(rx, p, names, key, rows, urls, false) {
      var i :| 0 <= i < |rows| && ToSilence(rx, p, names, key, rows[i], rows[i].source) && rows[i].source in urls;
      ReachedFrom(rx, p, names, key, rows, le, rows[i].source);
      JoinedExact(sources, urls, rows[i].source);
    }
    if SomeoneAt(rx, p, names, key, rows, urls, true) {
      var i :| 0 <= i < |rows| && ToSilence(rx, p, names, key, rows[i], rows[i].source) && rows[i].source in urls
               && urls[rows[i].source] != "";
      ReachedFrom(rx, p, names, key, rows, le, rows[i].source);
      WritableExact(sources, urls, rows[i].source);
    }
    if Joined(sources, urls) != [] {
      SomeoneBehind(rx, p, names, key, rows, urls, le, Joined(sources, urls)[0], false);
    }
    if Writable(sources, urls) != [] {
      SomeoneBehind(rx, p, names, key, rows, urls, le, Writable(sources, urls)[0], true);
    }
  }

  /** Which groups can be silenced: those a list can be grouped by, with a value for every name, unless they are
      grouped by
      source alone. */
  lemma GroupsTaken(names: seq<string>, key: map<string, string>)
    ensures Answerable(names, key) <==>
            && ValidRequest(GroupRequest("", names, None, None, 1)) && names != ["source"]
            && forall name | name in names :: name in key
  {
    if |names| == 1 && names[0] == "source" {
      assert names == ["source"];
    } else if |names| > 1 && names[0] == "source" && NoRepeats(names) {
      assert names[1] != "source";
    }
  }

  /** The preview is never narrower than what is written: whatever a target's match covers, it covers. */
  lemma PreviewIsWider(preview: Labels, targets: seq<Target>, t: nat, labels: Labels)
    requires forall name, value :: Says(preview, name, value) <==> AllSay(targets, name, value)
    requires t < |targets| && Covers(targets[t].labels, labels)
    ensures Covers(preview, labels)
    ensures forall name | name in preview :: Says(targets[t].labels, name, preview[name])
  {
    forall name | name in preview ensures Says(targets[t].labels, name, preview[name]) {
      assert Says(preview, name, preview[name]);
    }
  }
}
