/** Alerts collapsed into groups: aggregates, the order groups are listed in, and paging over them. */
module Grouping {
  import opened Prelude
  import opened AlertModel
  import opened Authorization
  import opened View
  import opened QueryCompiler
  import opened Ordering
  import opened Keyset
  import opened Paging

  type Key = seq<string>

  const MAX_GROUP_KEYS: nat := 3

  predicate IsNameStart(c: char) { 'a' <= c <= 'z' || 'A' <= c <= 'Z' || c == '_' }

  predicate IsLabelName(s: string)
  {
    s != "" && IsNameStart(s[0]) && forall i | 0 <= i < |s| :: IsNameStart(s[i]) || IsDigit(s[i])
  }

  predicate ValidGrouping(names: seq<string>)
  {
    && 0 < |names| <= MAX_GROUP_KEYS
    && (forall i | 0 <= i < |names| :: names[i] == "source" || IsLabelName(names[i]))
    && (forall i, j | 0 <= i < j < |names| :: names[i] != names[j])
  }

  // ---------------------------------------------------------------- keys and members

  /** A grouping key reads an absent label as empty; `source` is the column, not a label. */
  function KeyPart(row: Row, name: string): (value: string)
  {
    if name == "source" then row.source else LabelOrEmpty(row.labels, name)
  }

  function KeyOf(row: Row, names: seq<string>): (key: Key)
    ensures |key| == |names| && forall i | 0 <= i < |names| :: key[i] == KeyPart(row, names[i])
  {
    seq(|names|, i requires 0 <= i < |names| => KeyPart(row, names[i]))
  }

  predicate InTable(rows: seq<Row>, ids: seq<nat>) { forall i | 0 <= i < |ids| :: ids[i] < |rows| }

  function Members(rows: seq<Row>, ids: seq<nat>, names: seq<string>, key: Key): (ms: seq<nat>)
    requires InTable(rows, ids)
    ensures InTable(rows, ms)
  {
    if ids == [] then []
    else
      var rest := Members(rows, ids[..|ids| - 1], names, key);
      if KeyOf(rows[ids[|ids| - 1]], names) == key then rest + [ids[|ids| - 1]] else rest
  }

  /** GROUP BY: one key per group. */
  function GroupKeys(rows: seq<Row>, ids: seq<nat>, names: seq<string>): (keys: seq<Key>)
    requires InTable(rows, ids)
    ensures forall i | 0 <= i < |keys| :: |keys[i]| == |names|
  {
    if ids == [] then []
    else
      var rest, key := GroupKeys(rows, ids[..|ids| - 1], names), KeyOf(rows[ids[|ids| - 1]], names);
      if key in rest then rest else rest + [key]
  }

  lemma {:induction false} GroupKeysOnce(rows: seq<Row>, ids: seq<nat>, names: seq<string>)
    requires InTable(rows, ids)
    ensures NoRepeats(GroupKeys(rows, ids, names))
  {
    if ids != [] {
      GroupKeysOnce(rows, ids[..|ids| - 1], names);
    }
  }

  /** A group exists exactly when it has a member. */
  lemma {:induction false} GroupsHaveMembers(rows: seq<Row>, ids: seq<nat>, names: seq<string>, key: Key)
    requires InTable(rows, ids)
    ensures key in GroupKeys(rows, ids, names) <==> Members(rows, ids, names, key) != []
  {
    if ids != [] {
      GroupsHaveMembers(rows, ids[..|ids| - 1], names, key);
    }
  }

  lemma {:induction false} MembersExact(rows: seq<Row>, ids: seq<nat>, names: seq<string>, key: Key, id: nat)
    requires InTable(rows, ids)
    ensures id in Members(rows, ids, names, key) <==> id in ids && KeyOf(rows[id], names) == key
  {
    if ids != [] {
      MembersExact(rows, ids[..|ids| - 1], names, key, id);
      assert ids == ids[..|ids| - 1] + [ids[|ids| - 1]];
    }
  }

  // ---------------------------------------------------------------- totals

  function SumOf<T>(f: T -> nat, s: seq<T>): (n: nat)
  {
    if s == [] then 0 else SumOf(f, s[..|s| - 1]) + f(s[|s| - 1])
  }

  lemma {:induction false} SumFromFront<T>(f: T -> nat, x: T, s: seq<T>)
    ensures SumOf(f, [x] + s) == f(x) + SumOf(f, s)
  {
    if s == [] {
      assert [x] + s == [x] && [x][..0] == [];
    } else {
      SumFromFront(f, x, s[..|s| - 1]);
      assert ([x] + s)[..|s|] == [x] + s[..|s| - 1];
    }
  }

  lemma {:induction false} SumInsert<T>(le: (T, T) -> bool, f: T -> nat, s: seq<T>, x: T)
    ensures SumOf(f, Insert(le, s, x)) == SumOf(f, s) + f(x)
  {
    if s == [] || le(x, s[0]) {
      SumFromFront(f, x, s);
      assert s == [] ==> [x] + s == [x];
    } else {
      SumInsert(le, f, s[1..], x);
      SumFromFront(f, s[0], Insert(le, s[1..], x));
      SumFromFront(f, s[0], s[1..]);
      assert s == [s[0]] + s[1..];
    }
  }

  lemma {:induction false} SumSort<T>(le: (T, T) -> bool, f: T -> nat, s: seq<T>)
    ensures SumOf(f, Sort(le, s)) == SumOf(f, s)
  {
    if s != [] {
      SumSort(le, f, s[1..]);
      SumInsert(le, f, Sort(le, s[1..]), s[0]);
      SumFromFront(f, s[0], s[1..]);
      assert s == [s[0]] + s[1..];
    }
  }

  function Total(rows: seq<Row>, ids: seq<nat>, names: seq<string>): (f: Key -> nat)
    requires InTable(rows, ids)
  {
    (key: Key) => |Members(rows, ids, names, key)|
  }

  lemma {:induction false} OneMoreMember(rows: seq<Row>, ids: seq<nat>, names: seq<string>, keys: seq<Key>)
    requires InTable(rows, ids) && ids != [] && NoRepeats(keys)
    ensures var front := ids[..|ids| - 1];
            SumOf(Total(rows, ids, names), keys) ==
            SumOf(Total(rows, front, names), keys) + (if KeyOf(rows[ids[|ids| - 1]], names) in keys then 1 else 0)
  {
    if keys != [] {
      OneMoreMember(rows, ids, names, keys[..|keys| - 1]);
      assert keys == keys[..|keys| - 1] + [keys[|keys| - 1]];
    }
  }

  /** Every alert is in exactly one group: the group totals add up to the alert total. */
  lemma {:induction false} TotalsAddUp(rows: seq<Row>, ids: seq<nat>, names: seq<string>)
    requires InTable(rows, ids)
    ensures SumOf(Total(rows, ids, names), GroupKeys(rows, ids, names)) == |ids|
  {
    if ids != [] {
      var front, key := ids[..|ids| - 1], KeyOf(rows[ids[|ids| - 1]], names);
      var before := GroupKeys(rows, front, names);
      TotalsAddUp(rows, front, names);
      GroupKeysOnce(rows, front, names);
      GroupKeysOnce(rows, ids, names);
      OneMoreMember(rows, ids, names, before);
      if key !in before {
        GroupsHaveMembers(rows, front, names, key);
        assert (before + [key])[..|before|] == before;
      }
    }
  }

  // ---------------------------------------------------------------- severities within a group

  function CountSeverity(rows: seq<Row>, ms: seq<nat>, severity: string): (n: nat)
    requires InTable(rows, ms)
  {
    if ms == [] then 0
    else
      CountSeverity(rows, ms[..|ms| - 1], severity) +
      (if SeverityOf(rows[ms[|ms| - 1]].labels) == severity then 1 else 0)
  }

  function CountOther(rows: seq<Row>, ms: seq<nat>): (n: nat)
    requires InTable(rows, ms)
  {
    if ms == [] then 0
    else
      CountOther(rows, ms[..|ms| - 1]) +
      (if SeverityOf(rows[ms[|ms| - 1]].labels) in {"critical", "warning", "info"} then 0 else 1)
  }

  /** Only buckets with something in them are reported. */
  function SeverityCounts(rows: seq<Row>, ms: seq<nat>): (counts: map<string, nat>)
    requires InTable(rows, ms)
  {
    var found := map s | s in {"critical", "warning", "info"} && CountSeverity(rows, ms, s) > 0 ::
          CountSeverity(rows, ms, s);
    if CountOther(rows, ms) > 0 then found["other" := CountOther(rows, ms)] else found
  }

  function Reported(counts: map<string, nat>, severity: string): (n: nat)
  {
    if severity in counts then counts[severity] else 0
  }

  lemma {:induction false} SeveritiesPartition(rows: seq<Row>, ms: seq<nat>)
    requires InTable(rows, ms)
    ensures CountSeverity(rows, ms, "critical") + CountSeverity(rows, ms, "warning") + CountSeverity(rows, ms, "info") +
            CountOther(rows, ms) == |ms|
  {
    if ms != [] {
      SeveritiesPartition(rows, ms[..|ms| - 1]);
    }
  }

  /** The severity buckets a group reports add up to its total. */
  lemma BucketsAddUp(rows: seq<Row>, ms: seq<nat>)
    requires InTable(rows, ms)
    ensures var counts := SeverityCounts(rows, ms);
            Reported(counts, "critical") + Reported(counts, "warning") + Reported(counts, "info") +
              Reported(counts, "other") == |ms|
    ensures SeverityCounts(rows, ms).Keys <= {"critical", "warning", "info", "other"}
  {
    SeveritiesPartition(rows, ms);
  }

  /** Which members each bucket counts; the severity of an alert that names none is a warning. */
  predicate InBucket(row: Row, bucket: string)
  {
    if bucket == "other"
    then !HasSeverity(row.labels, "critical") && !HasSeverity(row.labels, "warning") && !HasSeverity(row.labels, "info")
    else HasSeverity(row.labels, bucket)
  }

  ghost function BucketMembers(rows: seq<Row>, ms: seq<nat>, bucket: string): (places: set<int>)
    requires InTable(rows, ms)
  {
    set i | 0 <= i < |ms| && InBucket(rows[ms[i]], bucket)
  }

  lemma BucketNext(rows: seq<Row>, ms: seq<nat>, bucket: string)
    requires InTable(rows, ms) && ms != []
    ensures |BucketMembers(rows, ms, bucket)| == |BucketMembers(rows, ms[..|ms| - 1], bucket)| +
                                                 (if InBucket(rows[ms[|ms| - 1]], bucket) then 1 else 0)
  {
    var n := |ms| - 1;
    var front := BucketMembers(rows, ms[..n], bucket);
    assert BucketMembers(rows, ms, bucket) == if InBucket(rows[ms[n]], bucket) then front + {n} else front;
  }

  lemma {:induction false} CountsAreBuckets(rows: seq<Row>, ms: seq<nat>, severity: string)
    requires InTable(rows, ms) && severity != "other"
    ensures CountSeverity(rows, ms, severity) == |BucketMembers(rows, ms, severity)|
    ensures CountOther(rows, ms) == |BucketMembers(rows, ms, "other")|
  {
    if ms == [] {
      assert BucketMembers(rows, ms, severity) == {} && BucketMembers(rows, ms, "other") == {};
    } else {
      CountsAreBuckets(rows, ms[..|ms| - 1], severity);
      BucketNext(rows, ms, severity);
      BucketNext(rows, ms, "other");
    }
  }

  /** A group reports under each severity how many of its members have it, under "other" how many have none of the
      three,
      and nothing for none. */
  lemma BucketsAreExact(rows: seq<Row>, ms: seq<nat>, bucket: string)
    requires InTable(rows, ms) && bucket in {"critical", "warning", "info", "other"}
    ensures Reported(SeverityCounts(rows, ms), bucket) == |BucketMembers(rows, ms, bucket)|
    ensures bucket in SeverityCounts(rows, ms) <==> BucketMembers(rows, ms, bucket) != {}
  {
    CountsAreBuckets(rows, ms, "critical");
    CountsAreBuckets(rows, ms, "warning");
    CountsAreBuckets(rows, ms, "info");
  }

  /** The row has these values for these names, the source being one of the names it can be grouped by. */
  predicate HasKey(row: Row, names: seq<string>, key: Key)
  {
    && |key| == |names|
    && forall i | 0 <= i < |names| ::
         key[i] == (if names[i] == "source" then row.source
                    else if names[i] in row.labels then row.labels[names[i]] else "")
  }

  lemma KeyMeans(row: Row, names: seq<string>, key: Key)
    requires |key| == |names|
    ensures KeyOf(row, names) == key <==> HasKey(row, names, key)
  {
    if HasKey(row, names, key) {
      forall i | 0 <= i < |names| ensures KeyOf(row, names)[i] == key[i] {
      }
    }
  }

  lemma {:induction false} MembersOnce(rows: seq<Row>, ids: seq<nat>, names: seq<string>, key: Key)
    requires InTable(rows, ids) && NoRepeats(ids)
    ensures NoRepeats(Members(rows, ids, names, key))
  {
    if ids != [] {
      var front, last := ids[..|ids| - 1], ids[|ids| - 1];
      MembersOnce(rows, front, names, key);
      MembersExact(rows, front, names, key, last);
    }
  }

  /** The members of a group are the alerts listed that have its key, each of them once. */
  lemma MembersAre(rows: seq<Row>, ids: seq<nat>, names: seq<string>, key: Key)
    requires InTable(rows, ids) && NoRepeats(ids) && |key| == |names|
    ensures NoRepeats(Members(rows, ids, names, key))
    ensures forall id :: id in Members(rows, ids, names, key) <==> id in ids && HasKey(rows[id], names, key)
  {
    MembersOnce(rows, ids, names, key);
    forall id ensures id in Members(rows, ids, names, key) <==> id in ids && HasKey(rows[id], names, key) {
      if id in ids {
        MembersExact(rows, ids, names, key, id);
        KeyMeans(rows[id], names, key);
      } else if id >= 0 {
        MembersExact(rows, ids, names, key, id);
      }
    }
  }

  // ---------------------------------------------------------------- what groups are sorted by

  /** Of two keys, the one `min` or `max` keeps. */
  function Pick(c: Collation, least: bool, a: Atom, b: Atom): (r: Atom)
  {
    if least then (if AtomLe(c, a, b) then a else b) else (if AtomLe(c, b, a) then a else b)
  }

  /** No further out than the extreme. */
  predicate Within(c: Collation, least: bool, a: Atom, extreme: Atom)
  {
    if least then AtomLe(c, extreme, a) else AtomLe(c, a, extreme)
  }

  lemma PickBounds(c: Collation, least: bool, a: Atom, b: Atom, x: Atom)
    requires TotalOrder(c)
    ensures Within(c, least, a, Pick(c, least, a, b))
    ensures Within(c, least, x, b) ==> Within(c, least, x, Pick(c, least, a, b))
  {
    AtomTotal(c, a, b);
    AtomTotal(c, a, a);
    if least && AtomLe(c, b, x) && AtomLe(c, a, b) {
      AtomTransitive(c, a, b, x);
    }
    if !least && AtomLe(c, x, b) && AtomLe(c, b, a) {
      AtomTransitive(c, x, b, a);
    }
  }

  /** `max` of a sort key over a group, or `min` for when it started. */
  function Extreme(c: Collation, least: bool, rows: seq<Row>, ms: seq<nat>, sort: SortField): (a: Atom)
    requires InTable(rows, ms) && ms != []
  {
    var x := SortKey(rows[ms[|ms| - 1]], sort);
    if |ms| == 1 then x else Pick(c, least, x, Extreme(c, least, rows, ms[..|ms| - 1], sort))
  }

  lemma {:induction false} ExtremeIsSomeKey(c: Collation, least: bool, rows: seq<Row>, ms: seq<nat>, sort: SortField)
    returns (i: nat)
    requires InTable(rows, ms) && ms != []
    ensures i < |ms| && SortKey(rows[ms[i]], sort) == Extreme(c, least, rows, ms, sort)
  {
    i := |ms| - 1;
    if |ms| > 1 && SortKey(rows[ms[i]], sort) != Extreme(c, least, rows, ms, sort) {
      i := ExtremeIsSomeKey(c, least, rows, ms[..|ms| - 1], sort);
    }
  }

  /** No member's key lies beyond the aggregate. */
  lemma {:induction false} ExtremeIsExtreme(c: Collation, least: bool, rows: seq<Row>, ms: seq<nat>, sort: SortField,
                                            i: nat)
    requires InTable(rows, ms) && i < |ms| && TotalOrder(c)
    ensures Within(c, least, SortKey(rows[ms[i]], sort), Extreme(c, least, rows, ms, sort))
  {
    var last := SortKey(rows[ms[|ms| - 1]], sort);
    if |ms| == 1 {
      AtomTotal(c, last, last);
    } else {
      if i < |ms| - 1 {
        ExtremeIsExtreme(c, least, rows, ms[..|ms| - 1], sort, i);
      }
      PickBounds(c, least, last, Extreme(c, least, rows, ms[..|ms| - 1], sort), SortKey(rows[ms[i]], sort));
    }
  }

  /** The aggregate is some member's own key. */
  lemma {:induction false} ExtremeIsReached(c: Collation, least: bool, rows: seq<Row>, ms: seq<nat>, sort: SortField)
    requires InTable(rows, ms) && ms != []
    ensures exists i | 0 <= i < |ms| :: Extreme(c, least, rows, ms, sort) == SortKey(rows[ms[i]], sort)
  {
    var n := |ms| - 1;
    if n == 0 || Extreme(c, least, rows, ms, sort) == SortKey(rows[ms[n]], sort) {
      assert ms[n] == ms[|ms| - 1];
    } else {
      ExtremeIsReached(c, least, rows, ms[..n], sort);
      var i :| 0 <= i < n && Extreme(c, least, rows, ms[..n], sort) == SortKey(rows[ms[..n][i]], sort);
      assert ms[..n][i] == ms[i];
    }
  }

  function Words(key: Key): (m: Mark)
    ensures |m| == |key| && forall i | 0 <= i < |key| :: m[i] == Word(key[i])
  {
    seq(|key|, i requires 0 <= i < |key| => Word(key[i]))
  }

  /** The default order is worst first, then newest; an explicit sort is one aggregate. */
  function Lead(c: Collation, rows: seq<Row>, ms: seq<nat>, sort: Option<SortField>): (m: Mark)
    requires InTable(rows, ms) && ms != []
    ensures |m| == if sort.None? then 2 else 1
  {
    if sort.None? then [Extreme(c, false, rows, ms, Severity), Extreme(c, false, rows, ms, LastSeen)]
    else [Extreme(c, sort.value.StartsAt?, rows, ms, sort.value)]
  }

  function GroupMark(c: Collation, rows: seq<Row>, ids: seq<nat>, names: seq<string>, sort: Option<SortField>,
                     key: Key): (m: Mark)
    requires InTable(rows, ids) && Members(rows, ids, names, key) != []
  {
    Lead(c, rows, Members(rows, ids, names, key), sort) + Words(key)
  }

  /** The key a group's mark ends with. */
  function KeyIn(m: Mark, n: nat): (key: Key)
  {
    if n <= |m| then seq(n, i requires 0 <= i < n => var a := m[|m| - n + i]; if a.Word? then a.text else "") else []
  }

  lemma KeyInMark(lead: Mark, key: Key)
    ensures KeyIn(lead + Words(key), |key|) == key
  {
    var m := lead + Words(key);
    forall i | 0 <= i < |key| ensures KeyIn(m, |key|)[i] == key[i] {
      assert m[|lead| + i] == Words(key)[i];
    }
  }

  ghost predicate AllGroups(rows: seq<Row>, ids: seq<nat>, names: seq<string>, keys: seq<Key>)
    requires InTable(rows, ids)
  {
    forall i | 0 <= i < |keys| :: Members(rows, ids, names, keys[i]) != [] && |keys[i]| == |names|
  }

  lemma GroupsAreGroups(rows: seq<Row>, ids: seq<nat>, names: seq<string>)
    requires InTable(rows, ids)
    ensures AllGroups(rows, ids, names, GroupKeys(rows, ids, names))
  {
    var keys := GroupKeys(rows, ids, names);
    forall i | 0 <= i < |keys| ensures Members(rows, ids, names, keys[i]) != [] {
      GroupsHaveMembers(rows, ids, names, keys[i]);
    }
  }

  function GroupMarks(c: Collation, rows: seq<Row>, ids: seq<nat>, names: seq<string>,
                      sort: Option<SortField>): (marks: seq<Mark>)
    requires InTable(rows, ids)
    ensures var keys := GroupKeys(rows, ids, names);
            && |marks| == |keys| && AllGroups(rows, ids, names, keys)
            && forall i | 0 <= i < |keys| :: marks[i] == GroupMark(c, rows, ids, names, sort, keys[i])
  {
    var keys := GroupKeys(rows, ids, names);
    GroupsAreGroups(rows, ids, names);
    seq(|keys|, i requires 0 <= i < |keys| => GroupMark(c, rows, ids, names, sort, keys[i]))
  }

  function GroupListing(o: Order, rows: seq<Row>, ids: seq<nat>, names: seq<string>,
                        sort: Option<SortField>): (s: seq<Mark>)
    requires InTable(rows, ids)
  {
    Sort(LeOf(o), GroupMarks(o.collation, rows, ids, names, sort))
  }

  lemma GroupListingIsStrict(o: Order, rows: seq<Row>, ids: seq<nat>, names: seq<string>, sort: Option<SortField>)
    requires InTable(rows, ids) && TotalOrder(o.collation)
    ensures Strict(o, GroupListing(o, rows, ids, names, sort))
    ensures multiset(GroupListing(o, rows, ids, names, sort)) ==
            multiset(GroupMarks(o.collation, rows, ids, names, sort))
  {
    var keys, marks := GroupKeys(rows, ids, names), GroupMarks(o.collation, rows, ids, names, sort);
    GroupKeysOnce(rows, ids, names);
    forall i, j | 0 <= i < j < |marks| ensures marks[i] != marks[j] {
      KeyInMark(Lead(o.collation, rows, Members(rows, ids, names, keys[i]), sort), keys[i]);
      KeyInMark(Lead(o.collation, rows, Members(rows, ids, names, keys[j]), sort), keys[j]);
    }
    OrderedStrictly(o, marks);
  }

  // ---------------------------------------------------------------- group cursors

  /** `groupCursorValue`: the aggregate as the query returned it, written out. */
  function Encode(codec: Codec, sort: SortField, a: Atom): (text: string)
  {
    if a.Word? then a.text
    else if sort.Severity? then (if a.n < 0 then "" else Decimal(a.n))
    else codec.format(a.n)
  }

  /** An atom of the kind a sort produces. */
  predicate OfKind(sort: SortField, a: Atom)
  {
    if sort.LastSeen? || sort.StartsAt? then a.Num? else if sort.Severity? then a.Num? && 0 <= a.n <= 3 else a.Word?
  }

  lemma CastEncodes(codec: Codec, sort: SortField, a: Atom)
    requires Lossless(codec) && OfKind(sort, a)
    ensures Cast(codec, sort, Encode(codec, sort, a)) == a && ValidValue(codec, sort, Encode(codec, sort, a))
  {
    if sort.Severity? {
      ParseDecimal(a.n);
    }
  }

  /** The mark a group's cursor comes back as. */
  function ReadBack(codec: Codec, sort: Option<SortField>, m: Mark): (r: Mark)
  {
    if sort.None? || |m| == 0 then m else [Cast(codec, sort.value, Encode(codec, sort.value, m[0]))] + m[1..]
  }

  function GroupCursorBack(codec: Codec, sort: Option<SortField>): (cur: Mark -> Mark)
    ensures forall m :: cur(m) == ReadBack(codec, sort, m)
  {
    (m: Mark) => ReadBack(codec, sort, m)
  }

  lemma ExtremeOfKind(c: Collation, least: bool, rows: seq<Row>, ms: seq<nat>, sort: SortField)
    requires InTable(rows, ms) && ms != [] && TotalOrder(c)
    ensures OfKind(sort, Extreme(c, least, rows, ms, sort))
  {
    var i := ExtremeIsSomeKey(c, least, rows, ms, sort);
  }

  /** A group's cursor always comes back as the group's own mark. */
  lemma GroupCursorIsMark(codec: Codec, c: Collation, rows: seq<Row>, ids: seq<nat>, names: seq<string>,
                          sort: Option<SortField>, key: Key)
    requires Lossless(codec) && TotalOrder(c) && InTable(rows, ids) && Members(rows, ids, names, key) != []
    ensures var m := GroupMark(c, rows, ids, names, sort, key); ReadBack(codec, sort, m) == m
  {
    var ms := Members(rows, ids, names, key);
    var m := GroupMark(c, rows, ids, names, sort, key);
    if sort.Some? {
      ExtremeOfKind(c, sort.value.StartsAt?, rows, ms, sort.value);
      CastEncodes(codec, sort.value, m[0]);
      assert m == [m[0]] + m[1..];
    }
  }

  /** Walking grouped pages, under the default or any explicit sort, ends and yields every group once. */
  lemma GroupPagingEnds(codec: Codec, o: Order, rows: seq<Row>, ids: seq<nat>, names: seq<string>,
                        sort: Option<SortField>, limit: nat)
    requires Lossless(codec) && TotalOrder(o.collation) && InTable(rows, ids) && 0 < limit
    ensures var s := GroupListing(o, rows, ids, names, sort);
            WalkPages(o, s, limit, GroupCursorBack(codec, sort), |s| + 1) == Done(s)
  {
    var s, marks := GroupListing(o, rows, ids, names, sort), GroupMarks(o.collation, rows, ids, names, sort);
    var keys := GroupKeys(rows, ids, names);
    GroupListingIsStrict(o, rows, ids, names, sort);
    forall k | 0 <= k < |s| ensures Sound(o, s, GroupCursorBack(codec, sort), k) {
      assert s[k] in multiset(s);
      InMultiset(marks, s[k]);
      var i :| 0 <= i < |marks| && marks[i] == s[k];
      GroupCursorIsMark(codec, o.collation, rows, ids, names, sort, keys[i]);
      OwnMarkIsSound(o, s, GroupCursorBack(codec, sort), k);
    }
    SoundWalkEnds(o, s, limit, GroupCursorBack(codec, sort));
  }

  // ---------------------------------------------------------------- totals over the pages

  function MarkTotal(rows: seq<Row>, ids: seq<nat>, names: seq<string>): (f: Mark -> nat)
    requires InTable(rows, ids)
  {
    (m: Mark) => |Members(rows, ids, names, KeyIn(m, |names|))|
  }

  lemma {:induction false} SameSums<T, U>(f: T -> nat, s: seq<T>, g: U -> nat, t: seq<U>)
    requires |s| == |t| && forall i | 0 <= i < |s| :: f(s[i]) == g(t[i])
    ensures SumOf(f, s) == SumOf(g, t)
  {
    if s != [] {
      SameSums(f, s[..|s| - 1], g, t[..|t| - 1]);
    }
  }

  /** The totals of all groups on all pages add up to the number of alerts the query keeps. */
  lemma PageTotalsAddUp(codec: Codec, o: Order, rows: seq<Row>, ids: seq<nat>, names: seq<string>,
                        sort: Option<SortField>, limit: nat)
    requires Lossless(codec) && TotalOrder(o.collation) && InTable(rows, ids) && 0 < limit
    ensures var s := GroupListing(o, rows, ids, names, sort);
            SumOf(MarkTotal(rows, ids, names), WalkPages(o, s, limit, GroupCursorBack(codec, sort), |s| + 1).seen) ==
              |ids|
  {
    var marks, keys := GroupMarks(o.collation, rows, ids, names, sort), GroupKeys(rows, ids, names);
    GroupPagingEnds(codec, o, rows, ids, names, sort, limit);
    SumSort(LeOf(o), MarkTotal(rows, ids, names), marks);
    forall i | 0 <= i < |marks| ensures MarkTotal(rows, ids, names)(marks[i]) == Total(rows, ids, names)(keys[i]) {
      KeyInMark(Lead(o.collation, rows, Members(rows, ids, names, keys[i]), sort), keys[i]);
    }
    SameSums(MarkTotal(rows, ids, names), marks, Total(rows, ids, names), keys);
    TotalsAddUp(rows, ids, names);
  }

  // ---------------------------------------------------------------- opening a group

  function KeyFilters(names: seq<string>, key: Key): (filters: seq<LabelFilter>)
    requires |key| == |names|
  {
    if names == [] then []
    else
      var n := |names| - 1;
      var rest := KeyFilters(names[..n], key[..n]);
      if names[n] == "source" then rest else rest + [LabelFilter(names[n], false, key[n])]
  }

  function KeySource(names: seq<string>, key: Key, otherwise: string): (source: string)
    requires |key| == |names|
  {
    if names == [] then otherwise
    else if names[|names| - 1] == "source" then key[|names| - 1]
    else KeySource(names[..|names| - 1], key[..|names| - 1], otherwise)
  }

  /** The query a console sends to open a group: the same one, narrowed to the group's key. */
  function OpenQuery(q: Query, names: seq<string>, key: Key): (r: Query)
    requires |key| == |names|
  {
    q.(source := KeySource(names, key, q.source), filters := q.filters + KeyFilters(names, key))
  }

  predicate AllHold(filters: seq<LabelFilter>, labels: Labels)
  {
    forall i | 0 <= i < |filters| :: FilterHolds(filters[i], labels)
  }

  predicate LabelsMatch(names: seq<string>, key: Key, labels: Labels)
    requires |key| == |names|
  {
    forall i | 0 <= i < |names| :: names[i] != "source" ==> LabelOrEmpty(labels, names[i]) == key[i]
  }

  lemma AllHoldGrows(a: seq<LabelFilter>, b: seq<LabelFilter>, labels: Labels)
    ensures AllHold(a + b, labels) <==> AllHold(a, labels) && AllHold(b, labels)
  {
    assert forall i | 0 <= i < |a| :: (a + b)[i] == a[i];
    assert forall i | 0 <= i < |b| :: (a + b)[|a| + i] == b[i];
  }

  lemma LabelsMatchGrows(names: seq<string>, key: Key, labels: Labels)
    requires |key| == |names| && names != []
    ensures var n := |names| - 1;
            LabelsMatch(names, key, labels) <==>
            LabelsMatch(names[..n], key[..n], labels)
              && (names[n] != "source" ==> LabelOrEmpty(labels, names[n]) == key[n])
  {
    var n := |names| - 1;
    assert forall i | 0 <= i < n :: names[..n][i] == names[i] && key[..n][i] == key[i];
  }

  lemma {:induction false} KeyFiltersMean(names: seq<string>, key: Key, labels: Labels)
    requires |key| == |names|
    ensures AllHold(KeyFilters(names, key), labels) <==> LabelsMatch(names, key, labels)
  {
    if names != [] {
      var n := |names| - 1;
      KeyFiltersMean(names[..n], key[..n], labels);
      LabelsMatchGrows(names, key, labels);
      if names[n] != "source" {
        AllHoldGrows(KeyFilters(names[..n], key[..n]), [LabelFilter(names[n], false, key[n])], labels);
        assert [LabelFilter(names[n], false, key[n])][0].name == names[n];
      }
    }
  }

  /** Validated groupings name each key once, so there is at most one source in them. */
  ghost predicate SourcesAgree(names: seq<string>, key: Key, source: string)
    requires |key| == |names|
  {
    forall i | 0 <= i < |names| :: names[i] == "source" ==> key[i] == source
  }

  lemma {:induction false} KeySourceMeans(names: seq<string>, key: Key, otherwise: string)
    requires |key| == |names|
    ensures "source" !in names ==> KeySource(names, key, otherwise) == otherwise
    ensures "source" in names ==> exists i | 0 <= i < |names| ::
              names[i] == "source" && KeySource(names, key, otherwise) == key[i]
  {
    if names != [] {
      var n := |names| - 1;
      assert names == names[..n] + [names[n]];
      if names[n] == "source" {
        assert KeySource(names, key, otherwise) == key[n];
      } else {
        KeySourceMeans(names[..n], key[..n], otherwise);
        if i :| 0 <= i < n && names[..n][i] == "source" && KeySource(names[..n], key[..n], otherwise) == key[..n][i] {
          assert names[i] == "source" && key[..n][i] == key[i];
        }
      }
    }
  }

  /** A row has a group's key when its source and its labels, absent ones read as empty, say so. */
  lemma KeyMatches(names: seq<string>, key: Key, row: Row)
    requires |key| == |names|
    ensures KeyOf(row, names) == key <==> SourcesAgree(names, key, row.source) && LabelsMatch(names, key, row.labels)
  {
    if SourcesAgree(names, key, row.source) && LabelsMatch(names, key, row.labels) {
      assert KeyOf(row, names) == key;
    }
  }

  lemma SourceFilter(names: seq<string>, key: Key, q: Query, member: Row, row: Row)
    requires |key| == |names| && KeyOf(member, names) == key && member.source != ""
    requires q.source == "" || member.source == q.source
    ensures var source := KeySource(names, key, q.source);
            (source == "" || row.source == source) <==>
            (q.source == "" || row.source == q.source) && SourcesAgree(names, key, row.source)
  {
    KeySourceMeans(names, key, q.source);
    KeyMatches(names, key, member);
    if "source" in names {
      var i :| 0 <= i < |names| && names[i] == "source" && KeySource(names, key, q.source) == key[i];
      assert key[i] == member.source;
    }
  }

  /** Opening a group keeps a row exactly when the query did and the row is in the group. */
  lemma OpenKeeps(rx: Regex, p: Principal, q: Query, names: seq<string>, key: Key, member: Row, row: Row)
    requires |key| == |names| && KeyOf(member, names) == key && member.source != "" && Listable(rx, p, q, member)
    ensures Listable(rx, p, OpenQuery(q, names, key), row) <==> Listable(rx, p, q, row) && KeyOf(row, names) == key
  {
    SourceFilter(names, key, q, member, row);
    KeyMatches(names, key, row);
    KeyFiltersMean(names, key, row.labels);
    AllHoldGrows(q.filters, KeyFilters(names, key), row.labels);
    assert AllHold(q.filters + KeyFilters(names, key), TupleOf(row).labels) <==>
           forall i | 0 <= i < |q.filters + KeyFilters(names, key)| ::
                    FilterHolds((q.filters + KeyFilters(names, key))[i], row.labels);
  }

  lemma {:induction false} OpenLists(rx: Regex, p: Principal, q: Query, rows: seq<Row>, n: nat, names: seq<string>,
                                     key: Key, member: Row)
    requires n <= |rows| && |key| == |names| && KeyOf(member, names) == key && member.source != ""
             && Listable(rx, p, q, member)
    requires InTable(rows, Listed(rx, p, q, rows[..n]))
    ensures Listed(rx, p, OpenQuery(q, names, key), rows[..n]) == Members(rows, Listed(rx, p, q, rows[..n]), names, key)
  {
    if n > 0 {
      assert rows[..n][..n - 1] == rows[..n - 1];
      var before := Listed(rx, p, q, rows[..n - 1]);
      assert Listed(rx, p, q, rows[..n]) == if Listable(rx, p, q, rows[n - 1]) then before + [n - 1] else before;
      assert InTable(rows, before) by {
        assert forall i | 0 <= i < |before| :: before[i] < |rows[..n - 1]|;
      }
      OpenLists(rx, p, q, rows, n - 1, names, key, member);
      OpenKeeps(rx, p, q, names, key, member, rows[n - 1]);
      assert (before + [n - 1])[..|before|] == before;
    }
  }

  /** Opening a group returns exactly its members, as many as it claimed. */
  lemma OpeningReturnsTheGroup(rx: Regex, p: Principal, q: Query, rows: seq<Row>, names: seq<string>, key: Key)
    requires (forall i | 0 <= i < |rows| :: rows[i].source != "") && |key| == |names|
    requires key in GroupKeys(rows, Listed(rx, p, q, rows), names)
    ensures Listed(rx, p, OpenQuery(q, names, key), rows) == Members(rows, Listed(rx, p, q, rows), names, key)
    ensures |Listed(rx, p, OpenQuery(q, names, key), rows)| == Total(rows, Listed(rx, p, q, rows), names)(key)
  {
    var ids := Listed(rx, p, q, rows);
    GroupsHaveMembers(rows, ids, names, key);
    var id := Members(rows, ids, names, key)[0];
    MembersExact(rows, ids, names, key, id);
    ListedExact(rx, p, q, rows, id);
    assert rows[..|rows|] == rows;
    OpenLists(rx, p, q, rows, |rows|, names, key, rows[id]);
  }

  // ---------------------------------------------------------------- the grouped request itself

  /** A collapsed row; `lead` is what the request orders it by. */
  datatype Group = Group(key: Key, total: nat, worst: Atom, latest: Atom, lead: Mark, severityCounts: map<string, nat>)

  /** What a group cursor carries: the query it belongs to and its order, the group's rank, newest time and
      key, and, under an explicit sort, the aggregate as text. No time at all is Go's zero time. */
  datatype GroupCursor = GroupCursor(
    identity: string,
    sort: SortField,
    descending: bool,
    rank: int,
    latest: Option<int>,
    value: string,
    key: Key)

  /** The request a cursor is checked against; `identity` stands for the hash of its filters. */
  datatype GroupRequest = GroupRequest(
    identity: string,
    names: seq<string>,
    sort: Option<SortField>,
    descending: Option<bool>,
    limit: int)
  {
    /** `groupSort` and `groupOrder`: without an explicit sort the order is worst and newest first. */
    function Sort(): SortField { if sort.None? then Severity else sort.value }

    function Descending(): bool { sort.None? || descending.None? || descending.value }
  }

  predicate ValidRequest(request: GroupRequest)
  {
    ValidGrouping(request.names) && request.limit >= 1 && (request.sort.None? ==> request.descending.None?)
  }

  /** A cursor of this very query, grouping and order, with a position this order can be resumed from. */
  predicate CursorFits(codec: Codec, request: GroupRequest, cursor: GroupCursor)
  {
    && cursor.identity == request.identity && |cursor.key| == |request.names|
    && cursor.sort == request.Sort() && cursor.descending == request.Descending()
    && (if request.sort.None? then cursor.latest.Some? else ValidValue(codec, request.sort.value, cursor.value))
  }

  /** Which cursors are taken: those of the same query and of as many names, in the order asked for. Without a sort
      that is
      worst first, and the cursor tells a time; with one it is that sort, downwards unless asked otherwise,
          and the cursor
      tells a value of it. */
  lemma CursorsTaken(codec: Codec, request: GroupRequest, cursor: GroupCursor)
    ensures CursorFits(codec, request, cursor) <==>
            && cursor.identity == request.identity && |cursor.key| == |request.names|
            && match request.sort
               case None => cursor.sort == Severity && cursor.descending && cursor.latest != None
               case Some(sort) =>
                 && cursor.sort == sort && cursor.descending == (request.descending != Some(false))
                 && (sort in {LastSeen, StartsAt} ==> codec.parse(cursor.value) != None)
                 && (sort == Severity ==> ParseInt(cursor.value) in {Some(0), Some(1), Some(2), Some(3)})
  {
    if request.sort.Some? {
      RefusedValues(codec, request.sort.value, cursor.value);
    }
  }

  function GroupCursorMark(codec: Codec, sort: Option<SortField>, cursor: GroupCursor): (m: Mark)
  {
    (if sort.None? then [Num(cursor.rank), Num(if cursor.latest.Some? then cursor.latest.value else 0)]
     else [Cast(codec, sort.value, cursor.value)]) + Words(cursor.key)
  }

  function NumberIn(a: Atom): (n: int) { if a.Num? then a.n else 0 }

  function GroupCursorOf(codec: Codec, request: GroupRequest, g: Group): (cursor: GroupCursor)
    requires |g.lead| == if request.sort.None? then 2 else 1
  {
    GroupCursor(
      request.identity, request.Sort(), request.Descending(), NumberIn(g.worst), Some(NumberIn(g.latest)),
      if request.sort.None? then "" else Encode(codec, request.sort.value, g.lead[0]), g.key)
  }

  function GroupFor(c: Collation, rows: seq<Row>, ids: seq<nat>, names: seq<string>, sort: Option<SortField>,
                    key: Key): (g: Group)
    requires InTable(rows, ids) && Members(rows, ids, names, key) != []
  {
    var ms := Members(rows, ids, names, key);
    Group(key, |ms|, Extreme(c, false, rows, ms, Severity), Extreme(c, false, rows, ms, LastSeen),
          Lead(c, rows, ms, sort), SeverityCounts(rows, ms))
  }

  /** A mark of some group of the query. */
  ghost predicate MarksGroup(c: Collation, rows: seq<Row>, ids: seq<nat>, names: seq<string>, sort: Option<SortField>,
                             m: Mark)
    requires InTable(rows, ids)
  {
    var key := KeyIn(m, |names|);
    |key| == |names| && Members(rows, ids, names, key) != [] && m == GroupMark(c, rows, ids, names, sort, key)
  }

  lemma RestMarksGroups(o: Order, rows: seq<Row>, ids: seq<nat>, names: seq<string>, sort: Option<SortField>,
                        cursor: Option<Mark>, k: nat)
    requires InTable(rows, ids) && TotalOrder(o.collation)
             && k < |Remaining(o, GroupListing(o, rows, ids, names, sort), cursor)|
    ensures MarksGroup(o.collation, rows, ids, names, sort,
                       Remaining(o, GroupListing(o, rows, ids, names, sort), cursor)[k])
  {
    var s, marks := GroupListing(o, rows, ids, names, sort), GroupMarks(o.collation, rows, ids, names, sort);
    var keys, m := GroupKeys(rows, ids, names), Remaining(o, GroupListing(o, rows, ids, names, sort), cursor)[k];
    if cursor.Some? {
      AfterIsFrom(o, s, cursor.value, k);
    }
    GroupListingIsStrict(o, rows, ids, names, sort);
    InMultiset(s, m);
    InMultiset(marks, m);
    var i :| 0 <= i < |marks| && marks[i] == m;
    KeyInMark(Lead(o.collation, rows, Members(rows, ids, names, keys[i]), sort), keys[i]);
  }

  /** The latest of the members' last deliveries. */
  ghost predicate LatestOf(rows: seq<Row>, ms: seq<nat>, at: int)
    requires InTable(rows, ms)
  {
    && (forall i | 0 <= i < |ms| :: rows[ms[i]].times.lastSeen <= at)
    && exists i | 0 <= i < |ms| :: rows[ms[i]].times.lastSeen == at
  }

  lemma LatestIs(c: Collation, rows: seq<Row>, ms: seq<nat>)
    requires InTable(rows, ms) && ms != [] && TotalOrder(c)
    ensures var a := Extreme(c, false, rows, ms, LastSeen); a.Num? && LatestOf(rows, ms, a.n)
  {
    var a := Extreme(c, false, rows, ms, LastSeen);
    ExtremeIsReached(c, false, rows, ms, LastSeen);
    var j :| 0 <= j < |ms| && a == SortKey(rows[ms[j]], LastSeen);
    assert rows[ms[j]].times.lastSeen == a.n;
    forall i | 0 <= i < |ms| ensures rows[ms[i]].times.lastSeen <= a.n {
      ExtremeIsExtreme(c, false, rows, ms, LastSeen, i);
    }
  }

  ghost predicate WorstAt(rows: seq<Row>, ms: seq<nat>, j: nat)
    requires InTable(rows, ms) && j < |ms|
  {
    forall i | 0 <= i < |ms| :: AsSevere(rows[ms[j]].labels, rows[ms[i]].labels)
  }

  /** The rank of a member at least as severe as every other. */
  ghost predicate WorstOf(rows: seq<Row>, ms: seq<nat>, a: Atom)
    requires InTable(rows, ms)
  {
    exists j | 0 <= j < |ms| :: a == SortKey(rows[ms[j]], Severity) && WorstAt(rows, ms, j)
  }

  lemma RankedAsSevere(c: Collation, a: Row, b: Row)
    requires AtomLe(c, SortKey(b, Severity), SortKey(a, Severity))
    ensures AsSevere(a.labels, b.labels)
  {
  }

  lemma WorstIs(c: Collation, rows: seq<Row>, ms: seq<nat>)
    requires InTable(rows, ms) && ms != [] && TotalOrder(c)
    ensures WorstOf(rows, ms, Extreme(c, false, rows, ms, Severity))
  {
    ExtremeIsReached(c, false, rows, ms, Severity);
    var j :| 0 <= j < |ms| && Extreme(c, false, rows, ms, Severity) == SortKey(rows[ms[j]], Severity);
    forall i | 0 <= i < |ms| ensures AsSevere(rows[ms[j]].labels, rows[ms[i]].labels) {
      ExtremeIsExtreme(c, false, rows, ms, Severity, i);
      RankedAsSevere(c, rows[ms[j]], rows[ms[i]]);
    }
    assert WorstAt(rows, ms, j);
  }

  /** A group reports its key, how many alerts have it, the worst severity among them and the latest delivery of any. */
  lemma GroupLeads(c: Collation, rows: seq<Row>, ids: seq<nat>, names: seq<string>, sort: Option<SortField>, key: Key)
    requires InTable(rows, ids) && TotalOrder(c) && Members(rows, ids, names, key) != []
    ensures var g, ms := GroupFor(c, rows, ids, names, sort, key), Members(rows, ids, names, key);
            && g.key == key && g.total == |ms| && WorstOf(rows, ms, g.worst)
            && g.latest.Num? && LatestOf(rows, ms, g.latest.n)
  {
    WorstIs(c, rows, Members(rows, ids, names, key));
    LatestIs(c, rows, Members(rows, ids, names, key));
  }

  /** Which requests for groups are taken: by one to three different names, each the source or a label name as
      PostgreSQL
      and Prometheus know it, a page of at least one, and an order only with a sort. */
  lemma RequestsTaken(request: GroupRequest)
    ensures ValidRequest(request) <==>
            && 1 <= |request.names| <= 3 && NoRepeats(request.names) && 1 <= request.limit
            && (request.descending.Some? ==> request.sort.Some?)
            && forall i | 0 <= i < |request.names| ::
                 var name := request.names[i];
                 && name != "" && !('0' <= name[0] <= '9')
                 && forall k | 0 <= k < |name| ::
                      || 'a' <= name[k] <= 'z' || 'A' <= name[k] <= 'Z' || name[k] == '_' || '0' <= name[k] <= '9'
  {
    assert IsLabelName("source");
  }

  /** A reported group is the summary of the group a mark stands for. */
  ghost predicate Summarises(c: Collation, rows: seq<Row>, ids: seq<nat>, names: seq<string>, sort: Option<SortField>,
                             m: Mark, g: Group)
    requires InTable(rows, ids)
  {
    MarksGroup(c, rows, ids, names, sort, m) && g == GroupFor(c, rows, ids, names, sort, KeyIn(m, |names|))
  }

  method SummariseGroup(c: Collation, rows: seq<Row>, ids: seq<nat>, names: seq<string>, sort: Option<SortField>,
                        m: Mark) returns (g: Group)
    requires InTable(rows, ids) && MarksGroup(c, rows, ids, names, sort, m)
    ensures Summarises(c, rows, ids, names, sort, m, g)
  {
    g := GroupFor(c, rows, ids, names, sort, KeyIn(m, |names|));
  }

  ghost predicate AllMark(c: Collation, rows: seq<Row>, ids: seq<nat>, names: seq<string>, sort: Option<SortField>,
                          rest: seq<Mark>)
    requires InTable(rows, ids)
  {
    forall k | 0 <= k < |rest| :: MarksGroup(c, rows, ids, names, sort, rest[k])
  }

  ghost function SummaryTest(c: Collation, rows: seq<Row>, ids: seq<nat>, names: seq<string>, sort: Option<SortField>)
    : (test: (Mark, Group) -> bool)
    requires InTable(rows, ids)
  {
    (m, g) => Summarises(c, rows, ids, names, sort, m, g)
  }

  /** Each reported group is the summary of the mark at its place. */
  ghost predicate AllSummarise(c: Collation, rows: seq<Row>, ids: seq<nat>, names: seq<string>, sort: Option<SortField>,
                               rest: seq<Mark>, groups: seq<Group>)
    requires InTable(rows, ids)
  {
    Paired(SummaryTest(c, rows, ids, names, sort), rest, groups)
  }

  lemma SummariesGrow(c: Collation, rows: seq<Row>, ids: seq<nat>, names: seq<string>, sort: Option<SortField>,
                      rest: seq<Mark>, groups: seq<Group>, g: Group)
    requires InTable(rows, ids) && AllSummarise(c, rows, ids, names, sort, rest, groups)
    requires |groups| < |rest| && Summarises(c, rows, ids, names, sort, rest[|groups|], g)
    ensures AllSummarise(c, rows, ids, names, sort, rest, groups + [g])
  {
    PairOneMore(SummaryTest(c, rows, ids, names, sort), rest, groups, g);
  }

  /** Scan up to one group more than the page holds. */
  method ScanGroups(c: Collation, rows: seq<Row>, ids: seq<nat>, names: seq<string>, sort: Option<SortField>,
                    rest: seq<Mark>, limit: nat)
    returns (groups: seq<Group>)
    requires InTable(rows, ids) && AllMark(c, rows, ids, names, sort, rest)
    ensures |groups| == Min(|rest|, limit + 1)
    ensures AllSummarise(c, rows, ids, names, sort, rest, groups)
  {
    groups := [];
    while |groups| < |rest| && |groups| <= limit
      invariant |groups| <= limit + 1
      invariant AllSummarise(c, rows, ids, names, sort, rest, groups)
    {
      var g := SummariseGroup(c, rows, ids, names, sort, rest[|groups|]);
      SummariesGrow(c, rows, ids, names, sort, rest, groups, g);
      groups := groups + [g];
    }
  }

  /** A cursor made from a group comes back as the mark the walk expects, and fits the request it was made for. */
  lemma NextCursorIsMark(codec: Codec, c: Collation, rows: seq<Row>, ids: seq<nat>, request: GroupRequest, m: Mark,
                         g: Group)
    requires InTable(rows, ids) && TotalOrder(c) && Summarises(c, rows, ids, request.names, request.sort, m, g)
    ensures |g.lead| == if request.sort.None? then 2 else 1
    ensures GroupCursorMark(codec, request.sort, GroupCursorOf(codec, request, g)) == ReadBack(codec, request.sort, m)
    ensures Lossless(codec) ==> CursorFits(codec, request, GroupCursorOf(codec, request, g))
  {
    var key := KeyIn(m, |request.names|);
    var ms := Members(rows, ids, request.names, key);
    if request.sort.None? {
      ExtremeOfKind(c, false, rows, ms, Severity);
      ExtremeOfKind(c, false, rows, ms, LastSeen);
    } else {
      ExtremeOfKind(c, request.sort.value.StartsAt?, rows, ms, request.sort.value);
      assert m[1..] == Words(key);
      if Lossless(codec) {
        CastEncodes(codec, request.sort.value, g.lead[0]);
      }
    }
  }

  lemma FewerSummaries(c: Collation, rows: seq<Row>, ids: seq<nat>, names: seq<string>, sort: Option<SortField>,
                       rest: seq<Mark>, groups: seq<Group>, n: nat)
    requires InTable(rows, ids) && AllSummarise(c, rows, ids, names, sort, rest, groups) && 0 < n <= |groups|
    ensures AllSummarise(c, rows, ids, names, sort, rest[..n], groups[..n])
    ensures Summarises(c, rows, ids, names, sort, rest[n - 1], groups[n - 1])
  {
    PairFewer(SummaryTest(c, rows, ids, names, sort), rest, groups, n);
  }

  datatype GroupReply = Refused | Grouped(groups: seq<Group>, next: Option<GroupCursor>, totalGroups: nat,
                                          totalAlerts: nat)

  function GroupCursorAsMark(codec: Codec, sort: Option<SortField>, cursor: Option<GroupCursor>): (m: Option<Mark>)
  {
    if cursor.Some? then Some(GroupCursorMark(codec, sort, cursor.value)) else None
  }

  /** What one page of groups must be: the page the walk over the group listing expects at this cursor. */
  function ExpectedPage(codec: Codec, c: Collation, rows: seq<Row>, ids: seq<nat>, request: GroupRequest,
                        cursor: Option<GroupCursor>): (page: Page)
    requires InTable(rows, ids) && request.limit >= 1
  {
    var o := Order(c, request.Descending());
    Fetch(o, GroupListing(o, rows, ids, request.names, request.sort), GroupCursorAsMark(codec, request.sort, cursor),
          request.limit, GroupCursorBack(codec, request.sort))
  }

  /** Trim the extra group, if there is one. */
  method TrimGroups(ghost c: Collation, ghost rows: seq<Row>, ghost ids: seq<nat>, request: GroupRequest,
                    ghost codec: Codec,
                    ghost rest: seq<Mark>, scanned: seq<Group>) returns (groups: seq<Group>)
    requires InTable(rows, ids) && AllSummarise(c, rows, ids, request.names, request.sort, rest, scanned)
    requires request.limit >= 1 && |scanned| == Min(|rest|, request.limit + 1)
    ensures var items := Cut(rest, request.limit, GroupCursorBack(codec, request.sort)).items;
            |groups| == |items| && AllSummarise(c, rows, ids, request.names, request.sort, items, groups)
  {
    if |scanned| > request.limit {
      FewerSummaries(c, rows, ids, request.names, request.sort, rest, scanned, request.limit);
      groups := scanned[..request.limit];
    } else {
      groups := scanned;
    }
  }

  method MakeCursor(codec: Codec, ghost c: Collation, ghost rows: seq<Row>, ghost ids: seq<nat>, request: GroupRequest,
                    ghost m: Mark, g: Group) returns (cursor: GroupCursor)
    requires InTable(rows, ids) && TotalOrder(c) && Summarises(c, rows, ids, request.names, request.sort, m, g)
    ensures GroupCursorMark(codec, request.sort, cursor) == ReadBack(codec, request.sort, m)
    ensures Lossless(codec) ==> CursorFits(codec, request, cursor)
  {
    NextCursorIsMark(codec, c, rows, ids, request, m, g);
    cursor := GroupCursorOf(codec, request, g);
  }

  lemma NextOfCut(codec: Codec, request: GroupRequest, rest: seq<Mark>, cursor: GroupCursor)
    requires 1 <= request.limit < |rest|
    requires GroupCursorMark(codec, request.sort, cursor) == ReadBack(codec, request.sort, rest[request.limit - 1])
    ensures GroupCursorAsMark(codec, request.sort, Some(cursor)) ==
            Cut(rest, request.limit, GroupCursorBack(codec, request.sort)).next
  {
  }

  /** The next cursor, made from the last group kept, if there is more. */
  method NextCursor(ghost c: Collation, ghost rows: seq<Row>, ghost ids: seq<nat>, request: GroupRequest, codec: Codec,
                    ghost rest: seq<Mark>, scanned: seq<Group>) returns (next: Option<GroupCursor>)
    requires InTable(rows, ids) && TotalOrder(c)
             && AllSummarise(c, rows, ids, request.names, request.sort, rest, scanned)
    requires request.limit >= 1 && |scanned| == Min(|rest|, request.limit + 1)
    ensures GroupCursorAsMark(codec, request.sort, next) ==
            Cut(rest, request.limit, GroupCursorBack(codec, request.sort)).next
    ensures next.Some? && Lossless(codec) ==> CursorFits(codec, request, next.value)
  {
    next := None;
    if |scanned| > request.limit {
      FewerSummaries(c, rows, ids, request.names, request.sort, rest, scanned, request.limit);
      var cursor := MakeCursor(codec, c, rows, ids, request, rest[request.limit - 1], scanned[request.limit - 1]);
      NextOfCut(codec, request, rest, cursor);
      next := Some(cursor);
    }
  }

  /** Scan one group too many, trim it, and make the next cursor from the last one kept. */
  method CutGroups(rows: seq<Row>, ids: seq<nat>, request: GroupRequest, c: Collation, codec: Codec, rest: seq<Mark>)
    returns (groups: seq<Group>, next: Option<GroupCursor>)
    requires TotalOrder(c) && InTable(rows, ids) && request.limit >= 1
    requires AllMark(c, rows, ids, request.names, request.sort, rest)
    ensures var page := Cut(rest, request.limit, GroupCursorBack(codec, request.sort));
            && |groups| == |page.items| && AllSummarise(c, rows, ids, request.names, request.sort, page.items, groups)
            && GroupCursorAsMark(codec, request.sort, next) == page.next
            && (next.Some? && Lossless(codec) ==> CursorFits(codec, request, next.value))
  {
    var scanned := ScanGroups(c, rows, ids, request.names, request.sort, rest, request.limit);
    groups := TrimGroups(c, rows, ids, request, codec, rest, scanned);
    next := NextCursor(c, rows, ids, request, codec, rest, scanned);
  }

  method GroupPage(rows: seq<Row>, ids: seq<nat>, request: GroupRequest, c: Collation, codec: Codec,
                   cursor: Option<GroupCursor>)
    returns (groups: seq<Group>, next: Option<GroupCursor>)
    requires TotalOrder(c) && InTable(rows, ids) && request.limit >= 1
    ensures var page := ExpectedPage(codec, c, rows, ids, request, cursor);
            && |groups| == |page.items| && AllSummarise(c, rows, ids, request.names, request.sort, page.items, groups)
            && GroupCursorAsMark(codec, request.sort, next) == page.next
            && (next.Some? && Lossless(codec) ==> CursorFits(codec, request, next.value))
  {
    var o := Order(c, request.Descending());
    var rest := Remaining(o, GroupListing(o, rows, ids, request.names, request.sort),
                          GroupCursorAsMark(codec, request.sort, cursor));
    forall k | 0 <= k < |rest| ensures MarksGroup(c, rows, ids, request.names, request.sort, rest[k]) {
      RestMarksGroups(o, rows, ids, request.names, request.sort, GroupCursorAsMark(codec, request.sort, cursor), k);
    }
    groups, next := CutGroups(rows, ids, request, c, codec, rest);
  }

  /** One page of groups. */
  method GroupAlerts(rx: Regex, p: Principal, q: Query, rows: seq<Row>, request: GroupRequest, c: Collation,
                     codec: Codec, cursor: Option<GroupCursor>) returns (reply: GroupReply)
    requires TotalOrder(c)
    ensures reply.Refused? <==> !ValidRequest(request) || (cursor.Some? && !CursorFits(codec, request, cursor.value))
    ensures reply.Grouped? ==>
              var ids := Listed(rx, p, q, rows);
              var page := ExpectedPage(codec, c, rows, ids, request, cursor);
              && reply.totalAlerts == |ids| && reply.totalGroups == |GroupKeys(rows, ids, request.names)|
              && |reply.groups| == |page.items|
              && AllSummarise(c, rows, ids, request.names, request.sort, page.items, reply.groups)
              && GroupCursorAsMark(codec, request.sort, reply.next) == page.next
              && (reply.next.Some? && Lossless(codec) ==> CursorFits(codec, request, reply.next.value))
  {
    if !ValidRequest(request) || (cursor.Some? && !CursorFits(codec, request, cursor.value)) {
      return Refused;
    }
    var ids := SelectIds(rx, p, q, rows);
    var groups, next := GroupPage(rows, ids, request, c, codec, cursor);
    reply := Grouped(groups, next, |GroupKeys(rows, ids, request.names)|, |ids|);
  }
}
