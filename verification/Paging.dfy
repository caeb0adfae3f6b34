/** The flat alert list: how it is sorted, what its cursors say, and what following them yields. */
module Paging {
  import opened Prelude
  import opened AlertModel
  import opened Authorization
  import opened View
  import opened Sql
  import opened QueryCompiler
  import opened Ingest
  import opened Ordering
  import opened Keyset

  datatype SortField = LastSeen | StartsAt | Severity | AlertName | Summary | ByStatus | Team | Instance | BySource

  /** Time as cursor text, and what Go and the database make of such text. */
  datatype Codec = Codec(format: int -> string, parse: string -> Option<int>)

  ghost predicate Lossless(codec: Codec) { forall t: int :: codec.parse(codec.format(t)) == Some(t) }

  // ---------------------------------------------------------------- rows a query keeps

  function StatusText(s: Status): (text: string)
  {
    match s case Firing => "firing" case Resolved => "resolved" case Expired => "expired"
  }

  function TupleOf(row: Row): (t: Tuple)
  {
    Tuple(row.source, StatusText(row.status), row.suppressed, row.closed.on, row.labels, None)
  }

  predicate Listable(rx: Regex, p: Principal, q: Query, row: Row)
  {
    Wanted(rx, p, q, Resolve(p, q.view), ApplyView, TupleOf(row))
  }

  /** The ids a query keeps, in id order. */
  function Listed(rx: Regex, p: Principal, q: Query, rows: seq<Row>): (ids: seq<nat>)
    ensures forall i | 0 <= i < |ids| :: ids[i] < |rows|
  {
    if rows == [] then []
    else
      var rest := Listed(rx, p, q, rows[..|rows| - 1]);
      if Listable(rx, p, q, rows[|rows| - 1]) then rest + [|rows| - 1] else rest
  }

  lemma {:induction false} ListedExact(rx: Regex, p: Principal, q: Query, rows: seq<Row>, id: nat)
    ensures id in Listed(rx, p, q, rows) <==> id < |rows| && Listable(rx, p, q, rows[id])
  {
    if rows != [] {
      ListedExact(rx, p, q, rows[..|rows| - 1], id);
    }
  }

  lemma {:induction false} ListedOnce(rx: Regex, p: Principal, q: Query, rows: seq<Row>)
    ensures NoRepeats(Listed(rx, p, q, rows))
  {
    if rows != [] {
      ListedOnce(rx, p, q, rows[..|rows| - 1]);
    }
  }

  // ---------------------------------------------------------------- sort keys and cursors

  /** `severityRank`: unknown severities rank below info; an unnamed one is a warning. */
  function SeverityRank(labels: Labels): (rank: int)
    ensures 0 <= rank <= 3
  {
    var s := SeverityOf(labels);
    if s == "critical" then 3 else if s == "warning" then 2 else if s == "info" then 1 else 0
  }

  /** The SQL expression a sort orders by. */
  function SortKey(row: Row, sort: SortField): (a: Atom)
  {
    match sort
    case LastSeen => Num(row.times.lastSeen)
    case StartsAt => Num(row.times.startsAt)
    case Severity => Num(SeverityRank(row.labels))
    case AlertName => Word(LabelOrEmpty(row.labels, "alertname"))
    case Summary => Word(LabelOrEmpty(row.annotations, "summary"))
    case ByStatus => Word(StatusText(row.status))
    case Team => Word(LabelOrEmpty(row.labels, "team"))
    case Instance => Word(LabelOrEmpty(row.labels, "instance"))
    case BySource => Word(row.source)
  }

  /** `alertCursorValue`, in Go: an unnamed severity and an empty one are the same to it. */
  function CursorValue(codec: Codec, row: Row, sort: SortField): (text: string)
  {
    match sort
    case LastSeen => codec.format(row.times.lastSeen)
    case StartsAt => codec.format(row.times.startsAt)
    case Severity =>
      var s := LabelOrEmpty(row.labels, "severity");
      if s == "critical" then "3" else if s == "info" then "1" else if s == "warning" || s == "" then "2" else "0"
    case AlertName => LabelOrEmpty(row.labels, "alertname")
    case Summary => LabelOrEmpty(row.annotations, "summary")
    case ByStatus => StatusText(row.status)
    case Team => LabelOrEmpty(row.labels, "team")
    case Instance => LabelOrEmpty(row.labels, "instance")
    case BySource => row.source
  }

  /** `validCursorValue`: text of another kind than the sort's is refused before it reaches the database. */
  predicate ValidValue(codec: Codec, sort: SortField, text: string)
  {
    if sort.LastSeen? || sort.StartsAt? then codec.parse(text).Some?
    else if sort.Severity? then ParseInt(text).Some? && 0 <= ParseInt(text).value <= 3
    else true
  }

  /** The cast a valid cursor's text is given in the query. */
  function Cast(codec: Codec, sort: SortField, text: string): (a: Atom)
  {
    var n := if sort.Severity? then ParseInt(text) else codec.parse(text);
    if sort.LastSeen? || sort.StartsAt? || sort.Severity? then Num(if n.Some? then n.value else 0) else Word(text)
  }

  function MarkOf(row: Row, id: nat, sort: SortField): (m: Mark) { [SortKey(row, sort), Num(id)] }

  datatype Cursor = Cursor(value: string, id: nat)

  function CursorOf(codec: Codec, row: Row, id: nat, sort: SortField): (c: Cursor)
  {
    Cursor(CursorValue(codec, row, sort), id)
  }

  function CursorMark(codec: Codec, c: Cursor, sort: SortField): (m: Mark) { [Cast(codec, sort, c.value), Num(c.id)] }

  /** The one row Go and SQL rank differently: its severity label is there, and empty. */
  predicate Misranked(row: Row, sort: SortField)
  {
    sort.Severity? && "severity" in row.labels && row.labels["severity"] == ""
  }

  lemma SeverityCast()
    ensures ParseInt("3") == Some(3) && ParseInt("2") == Some(2) && ParseInt("1") == Some(1) && ParseInt("0") == Some(0)
  {
    assert "3"[..0] == "" && "2"[..0] == "" && "1"[..0] == "" && "0"[..0] == "";
    assert DigitsValue("") == 0;
    assert DigitsValue("3") == 3 && DigitsValue("2") == 2 && DigitsValue("1") == 1 && DigitsValue("0") == 0;
  }

  /** A cursor comes back as its row's sort key exactly when Go and SQL rank the row alike. */
  lemma CursorMatchesSortKeyExactly(codec: Codec, row: Row, id: nat, sort: SortField)
    requires Lossless(codec)
    ensures CursorMark(codec, CursorOf(codec, row, id, sort), sort) == MarkOf(row, id, sort) <==> !Misranked(row, sort)
    ensures Misranked(row, sort) ==>
              && CursorMark(codec, CursorOf(codec, row, id, sort), sort) == [Num(2), Num(id)]
              && MarkOf(row, id, sort) == [Num(0), Num(id)]
  {
    if sort.Severity? {
      SeverityCast();
    }
  }

  /** The server accepts every cursor it hands out. */
  lemma OwnCursorIsValid(codec: Codec, row: Row, sort: SortField)
    requires Lossless(codec)
    ensures ValidValue(codec, sort, CursorValue(codec, row, sort))
  {
    if sort.Severity? {
      SeverityCast();
    }
  }

  // ---------------------------------------------------------------- the listing

  function MarksOf(rows: seq<Row>, ids: seq<nat>, sort: SortField): (marks: seq<Mark>)
    requires forall i | 0 <= i < |ids| :: ids[i] < |rows|
    ensures |marks| == |ids| && forall i | 0 <= i < |ids| :: marks[i] == MarkOf(rows[ids[i]], ids[i], sort)
  {
    seq(|ids|, i requires 0 <= i < |ids| => MarkOf(rows[ids[i]], ids[i], sort))
  }

  /** ORDER BY the sort key, then the id. */
  function Listing(rx: Regex, p: Principal, q: Query, rows: seq<Row>, sort: SortField, o: Order): (s: seq<Mark>)
  {
    Sort(LeOf(o), MarksOf(rows, Listed(rx, p, q, rows), sort))
  }

  /** The mark a cursor made from a listed row comes back as. */
  function CursorBack(codec: Codec, rows: seq<Row>, sort: SortField): (cur: Mark -> Mark)
  {
    (m: Mark) =>
      if |m| == 2 && m[1].Num? && 0 <= m[1].n < |rows|
      then CursorMark(codec, CursorOf(codec, rows[m[1].n], m[1].n, sort), sort)
      else m
  }

  /** A mark stands for one row of the table. */
  ghost predicate Stands(rows: seq<Row>, sort: SortField, m: Mark)
  {
    |m| == 2 && m[1].Num? && 0 <= m[1].n < |rows| && m == MarkOf(rows[m[1].n], m[1].n, sort)
  }

  lemma ListingIsStrict(rx: Regex, p: Principal, q: Query, rows: seq<Row>, sort: SortField, o: Order)
    requires TotalOrder(o.collation)
    ensures Strict(o, Listing(rx, p, q, rows, sort, o))
    ensures multiset(Listing(rx, p, q, rows, sort, o)) == multiset(MarksOf(rows, Listed(rx, p, q, rows), sort))
  {
    var ids := Listed(rx, p, q, rows);
    var marks := MarksOf(rows, ids, sort);
    ListedOnce(rx, p, q, rows);
    forall i, j | 0 <= i < j < |marks| ensures marks[i] != marks[j] {
      assert marks[i][1] == Num(ids[i]) && marks[j][1] == Num(ids[j]);
    }
    OrderedStrictly(o, marks);
  }

  lemma ListingStands(rx: Regex, p: Principal, q: Query, rows: seq<Row>, sort: SortField, o: Order, k: nat)
    requires TotalOrder(o.collation) && k < |Listing(rx, p, q, rows, sort, o)|
    ensures Stands(rows, sort, Listing(rx, p, q, rows, sort, o)[k])
  {
    var s, marks := Listing(rx, p, q, rows, sort, o), MarksOf(rows, Listed(rx, p, q, rows), sort);
    ListingIsStrict(rx, p, q, rows, sort, o);
    assert s[k] in multiset(s);
    assert s[k] in marks;
  }

  /** Exactly the wanted rows are listed. */
  lemma ListingIsExact(rx: Regex, p: Principal, q: Query, rows: seq<Row>, sort: SortField, o: Order, id: nat)
    requires TotalOrder(o.collation) && id < |rows|
    ensures MarkOf(rows[id], id, sort) in Listing(rx, p, q, rows, sort, o) <==> Listable(rx, p, q, rows[id])
  {
    var ids, s := Listed(rx, p, q, rows), Listing(rx, p, q, rows, sort, o);
    var marks := MarksOf(rows, ids, sort);
    var m := MarkOf(rows[id], id, sort);
    ListedExact(rx, p, q, rows, id);
    ListingIsStrict(rx, p, q, rows, sort, o);
    InMultiset(s, m);
    InMultiset(marks, m);
    if id in ids {
      var i :| 0 <= i < |ids| && ids[i] == id;
      assert marks[i] == m;
    }
    if m in marks {
      var i :| 0 <= i < |marks| && marks[i] == m;
      assert m[1] == Num(id) && marks[i][1] == Num(ids[i]);
    }
  }

  // ---------------------------------------------------------------- when paging works

  /** A page may end at this row: its cursor is its own mark, or, ascending, everything after it lies
      beyond the rank Go gave it. */
  ghost predicate Harmless(rows: seq<Row>, sort: SortField, o: Order, s: seq<Mark>, k: nat)
    requires k < |s|
  {
    || !(Stands(rows, sort, s[k]) && Misranked(rows[s[k][1].n], sort))
    || (!o.descending && forall j | k < j < |s| :: Precedes(o, [Num(2), s[k][1]], s[j]))
  }

  lemma RankOrder(o: Order, id: int)
    requires TotalOrder(o.collation)
    ensures o.descending ==> Precedes(o, [Num(2), Num(id)], [Num(0), Num(id)])
    ensures !o.descending ==> Precedes(o, [Num(0), Num(id)], [Num(2), Num(id)])
  {
  }

  lemma MisrankedSoundExactly(o: Order, s: seq<Mark>, cur: Mark -> Mark, k: nat, id: int)
    requires TotalOrder(o.collation) && Strict(o, s) && k < |s|
    requires s[k] == [Num(0), Num(id)] && cur(s[k]) == [Num(2), Num(id)]
    ensures Sound(o, s, cur, k) <==> !o.descending && forall j | k < j < |s| :: Precedes(o, [Num(2), Num(id)], s[j])
  {
    RankOrder(o, id);
    if !o.descending {
      forall q | 0 <= q <= k ensures !Precedes(o, cur(s[k]), s[q]) {
        if Precedes(o, cur(s[k]), s[q]) {
          PrecedesTransitive(o, s[k], cur(s[k]), s[q]);
          PrecedesIsStrict(o, s[k], s[q]);
        }
      }
    } else {
      assert Precedes(o, cur(s[k]), s[k]);
    }
  }

  lemma SoundExactly(codec: Codec, rows: seq<Row>, sort: SortField, o: Order, s: seq<Mark>, k: nat)
    requires Lossless(codec) && TotalOrder(o.collation) && Strict(o, s) && k < |s| && Stands(rows, sort, s[k])
    ensures Sound(o, s, CursorBack(codec, rows, sort), k) <==> Harmless(rows, sort, o, s, k)
  {
    var cur, id := CursorBack(codec, rows, sort), s[k][1].n;
    CursorMatchesSortKeyExactly(codec, rows[id], id, sort);
    if !Misranked(rows[id], sort) {
      OwnMarkIsSound(o, s, cur, k);
    } else {
      assert s[k] == [Num(0), Num(id)] && cur(s[k]) == [Num(2), Num(id)];
      MisrankedSoundExactly(o, s, cur, k, id);
    }
  }

  ghost predicate HarmlessAt(rows: seq<Row>, sort: SortField, o: Order, s: seq<Mark>, limit: nat, n: nat)
  {
    0 < RowsIn(n, limit) < |s| ==> Harmless(rows, sort, o, s, RowsIn(n, limit) - 1)
  }

  /** Every row that ends a page with more to come is harmless. */
  ghost predicate BoundariesHarmless(rows: seq<Row>, sort: SortField, o: Order, s: seq<Mark>, limit: nat)
  {
    forall n: nat :: HarmlessAt(rows, sort, o, s, limit, n)
  }

  lemma BothWays(rows: seq<Row>, sort: SortField, o: Order, s: seq<Mark>, limit: nat, cur: Mark -> Mark)
    requires forall n: nat :: SoundAt(o, s, limit, cur, n) <==> HarmlessAt(rows, sort, o, s, limit, n)
    ensures AllSound(o, s, limit, cur) <==> BoundariesHarmless(rows, sort, o, s, limit)
  {
    if AllSound(o, s, limit, cur) {
      forall n: nat ensures HarmlessAt(rows, sort, o, s, limit, n) {
        assert SoundAt(o, s, limit, cur, n);
      }
    }
  }

  /** For every table, query, sort, order and page size, following next-page cursors lists exactly the
      wanted rows in order, none lost or repeated, if and only if no page ends at a row whose severity
      label is present and empty, ascending pages whose tail lies beyond it excepted. */
  lemma FlatPagingExactly(rx: Regex, p: Principal, q: Query, rows: seq<Row>, sort: SortField, o: Order, codec: Codec,
                          limit: nat)
    requires Lossless(codec) && TotalOrder(o.collation) && 0 < limit
    ensures var s := Listing(rx, p, q, rows, sort, o);
            Faithful(o, s, limit, CursorBack(codec, rows, sort)) <==> BoundariesHarmless(rows, sort, o, s, limit)
  {
    var s, cur := Listing(rx, p, q, rows, sort, o), CursorBack(codec, rows, sort);
    ListingIsStrict(rx, p, q, rows, sort, o);
    forall n: nat ensures SoundAt(o, s, limit, cur, n) <==> HarmlessAt(rows, sort, o, s, limit, n) {
      if 0 < RowsIn(n, limit) < |s| {
        ListingStands(rx, p, q, rows, sort, o, RowsIn(n, limit) - 1);
        SoundExactly(codec, rows, sort, o, s, RowsIn(n, limit) - 1);
      }
    }
    BothWays(rows, sort, o, s, limit, cur);
    WalkExactly(o, s, limit, cur);
  }

  /** ... and the walk ends, having listed everything once and in order, exactly then. */
  lemma FlatPagingEnds(rx: Regex, p: Principal, q: Query, rows: seq<Row>, sort: SortField, o: Order, codec: Codec,
                       limit: nat)
    requires Lossless(codec) && TotalOrder(o.collation) && 0 < limit
    ensures var s := Listing(rx, p, q, rows, sort, o);
            Ends(o, s, limit, CursorBack(codec, rows, sort)) <==> BoundariesHarmless(rows, sort, o, s, limit)
  {
    var s, cur := Listing(rx, p, q, rows, sort, o), CursorBack(codec, rows, sort);
    ListingIsStrict(rx, p, q, rows, sort, o);
    FlatPagingExactly(rx, p, q, rows, sort, o, codec, limit);
    WalkExactly(o, s, limit, cur);
    WalkEndsExactly(o, s, limit, cur);
  }

  lemma ListedAreListable(rx: Regex, p: Principal, q: Query, rows: seq<Row>, sort: SortField, o: Order, k: nat)
    requires TotalOrder(o.collation) && k < |Listing(rx, p, q, rows, sort, o)|
    ensures var m := Listing(rx, p, q, rows, sort, o)[k];
            Stands(rows, sort, m) && Listable(rx, p, q, rows[m[1].n])
  {
    var m := Listing(rx, p, q, rows, sort, o)[k];
    ListingStands(rx, p, q, rows, sort, o, k);
    ListingIsExact(rx, p, q, rows, sort, o, m[1].n);
  }

  lemma SoundlyRankedIsHarmless(rx: Regex, p: Principal, q: Query, rows: seq<Row>, sort: SortField, o: Order, k: nat)
    requires TotalOrder(o.collation) && k < |Listing(rx, p, q, rows, sort, o)|
    requires forall id | 0 <= id < |rows| && Listable(rx, p, q, rows[id]) :: !Misranked(rows[id], sort)
    ensures Harmless(rows, sort, o, Listing(rx, p, q, rows, sort, o), k)
  {
    ListedAreListable(rx, p, q, rows, sort, o, k);
  }

  /** A table in which no listed row has such a label is safe to page at any size. */
  lemma NoEmptySeverityIsHarmless(rx: Regex, p: Principal, q: Query, rows: seq<Row>, sort: SortField, o: Order,
                                  limit: nat)
    requires TotalOrder(o.collation)
    requires forall id | 0 <= id < |rows| && Listable(rx, p, q, rows[id]) :: !Misranked(rows[id], sort)
    ensures BoundariesHarmless(rows, sort, o, Listing(rx, p, q, rows, sort, o), limit)
  {
    var s := Listing(rx, p, q, rows, sort, o);
    forall n: nat | 0 < RowsIn(n, limit) < |s| ensures Harmless(rows, sort, o, s, RowsIn(n, limit) - 1) {
      SoundlyRankedIsHarmless(rx, p, q, rows, sort, o, RowsIn(n, limit) - 1);
    }
  }

  // ---------------------------------------------------------------- when it does not

  /** A new alert whose severity label is empty, and which this reader is listed. */
  predicate Awkward(rx: Regex, p: Principal, q: Query, a: Incoming)
  {
    Listable(rx, p, q, NewRow(a)) && Misranked(NewRow(a), Severity)
  }

  lemma OneStored(row: Row, source: string, fingerprint: string)
    requires row.source != source || row.fingerprint != fingerprint
    ensures FindRow([row], source, fingerprint).None?
  {
  }

  /** Two alerts in one payload are stored as in two. */
  lemma InTwoPayloads(db: Db, a: Incoming, b: Incoming)
    ensures IngestAll(db, [a, b]) == IngestAll(IngestAll(db, [a]), [b])
  {
    assert [a, b][..1] == [a] && [b][..0] == [];
  }

  lemma TwoDelivered(a: Incoming, b: Incoming)
    requires a.source != b.source || a.fingerprint != b.fingerprint
    ensures IngestAll(EMPTY_DB, [a, b]).rows == [NewRow(a), NewRow(b)]
    ensures IdentitiesUnique([NewRow(a), NewRow(b)])
  {
    NewlyDelivered(EMPTY_DB, a);
    OneStored(NewRow(a), b.source, b.fingerprint);
    NewlyDelivered(IngestAll(EMPTY_DB, [a]), b);
    InTwoPayloads(EMPTY_DB, a, b);
  }

  lemma TwoListed(rx: Regex, p: Principal, q: Query, x: Row, y: Row)
    requires Listable(rx, p, q, x) && Listable(rx, p, q, y)
    ensures Listed(rx, p, q, [x, y]) == [0, 1]
  {
    assert [x, y][..1] == [x] && [x][..0] == [];
    assert Listed(rx, p, q, [x]) == [0];
  }

  const FIRST_MARK: Mark := [Num(0), Num(0)]
  const SECOND_MARK: Mark := [Num(0), Num(1)]

  lemma SecondComesFirst(o: Order)
    requires o.descending && TotalOrder(o.collation)
    ensures Sort(LeOf(o), [FIRST_MARK, SECOND_MARK]) == [SECOND_MARK, FIRST_MARK]
  {
    var le, marks := LeOf(o), [FIRST_MARK, SECOND_MARK];
    assert marks[1..] == [SECOND_MARK] && [SECOND_MARK][1..] == [];
    assert FIRST_MARK[1..] == [Num(0)] && SECOND_MARK[1..] == [Num(1)];
    assert Sort(le, [SECOND_MARK]) == [SECOND_MARK];
    assert !le(FIRST_MARK, SECOND_MARK);
    assert Insert(le, [SECOND_MARK], FIRST_MARK) == [SECOND_MARK] + Insert(le, [], FIRST_MARK);
  }

  lemma TwoAwkwardListed(rx: Regex, p: Principal, q: Query, x: Row, y: Row, o: Order)
    requires Listable(rx, p, q, x) && Listable(rx, p, q, y) && Misranked(x, Severity) && Misranked(y, Severity)
    requires o.descending && TotalOrder(o.collation)
    ensures Listing(rx, p, q, [x, y], Severity, o) == [SECOND_MARK, FIRST_MARK]
  {
    TwoListed(rx, p, q, x, y);
    assert MarksOf([x, y], [0, 1], Severity) == [FIRST_MARK, SECOND_MARK];
    SecondComesFirst(o);
  }

  /** Go's rank for the last row of the page puts the whole listing after its cursor. */
  lemma BackToTheStart(o: Order)
    requires o.descending
    ensures After(o, [SECOND_MARK, FIRST_MARK], [Num(2), Num(1)]) == [SECOND_MARK, FIRST_MARK]
  {
    var s, cursor: Mark := [SECOND_MARK, FIRST_MARK], [Num(2), Num(1)];
    assert Precedes(o, cursor, SECOND_MARK) && Precedes(o, cursor, FIRST_MARK);
    assert s[..1] == [SECOND_MARK] && [SECOND_MARK][..0] == [];
    assert After(o, [SECOND_MARK], cursor) == [SECOND_MARK];
  }

  lemma NeverEnds(rx: Regex, p: Principal, q: Query, rows: seq<Row>, o: Order, codec: Codec)
    requires TotalOrder(o.collation)
    requires var s := Listing(rx, p, q, rows, Severity, o);
             forall n: nat :: WalkPages(o, s, 1, CursorBack(codec, rows, Severity), n).Going?
    ensures !Faithful(o, Listing(rx, p, q, rows, Severity, o), 1, CursorBack(codec, rows, Severity))
  {
    var s, cur := Listing(rx, p, q, rows, Severity, o), CursorBack(codec, rows, Severity);
    ListingIsStrict(rx, p, q, rows, Severity, o);
    WalkExactly(o, s, 1, cur);
    assert WalkPages(o, s, 1, cur, |s| + 1).Going?;
    if AllSound(o, s, 1, cur) {
      SoundWalkEnds(o, s, 1, cur);
    }
  }

  /** Deliver two alerts whose severity label is empty and page through them one at a time, worst first: the
      second page is the first again, and so is every page after it. */
  lemma EmptySeverityBreaksPaging(rx: Regex, p: Principal, q: Query, a: Incoming, b: Incoming, o: Order, codec: Codec)
    requires Awkward(rx, p, q, a) && Awkward(rx, p, q, b) && (a.source != b.source || a.fingerprint != b.fingerprint)
    requires o.descending && Lossless(codec) && TotalOrder(o.collation)
    ensures var rows := IngestAll(EMPTY_DB, [a, b]).rows;
            var s, cur := Listing(rx, p, q, rows, Severity, o), CursorBack(codec, rows, Severity);
            && IdentitiesUnique(rows) && |s| == 2
            && (forall n: nat :: WalkPages(o, s, 1, cur, n).Going?)
            && !Faithful(o, s, 1, cur)
  {
    var rows := [NewRow(a), NewRow(b)];
    TwoDelivered(a, b);
    TwoAwkwardListed(rx, p, q, NewRow(a), NewRow(b), o);
    BackToTheStart(o);
    var s, cur := Listing(rx, p, q, rows, Severity, o), CursorBack(codec, rows, Severity);
    CursorMatchesSortKeyExactly(codec, rows[1], 1, Severity);
    assert cur(SECOND_MARK) == [Num(2), Num(1)];
    forall n: nat ensures WalkPages(o, s, 1, cur, n).Going? {
      WalkRepeats(o, s, 1, cur, [Num(2), Num(1)], n);
    }
    NeverEnds(rx, p, q, rows, o, codec);
  }

  lemma AwkwardDelivery(rx: Regex, p: Principal, q: Query, a: Incoming)
    requires p.anonymous && q == Query("", "", "", "", None, None, [], None)
    requires "severity" in a.labels && a.labels["severity"] == ""
    ensures Awkward(rx, p, q, a)
  {
    assert Includes(rx, Resolve(p, q.view), a.labels);
    assert QueryHolds(q, TupleOf(NewRow(a)));
  }

  /** Two such alerts exist, for anyone who may read them. */
  lemma EmptySeverityExample(rx: Regex)
    ensures exists p: Principal, q: Query, a: Incoming, b: Incoming ::
              Awkward(rx, p, q, a) && Awkward(rx, p, q, b) && a.fingerprint != b.fingerprint
  {
    var p := Principal("", "", true, [], []);
    var q := Query("", "", "", "", None, None, [], None);
    var a := Incoming("prom", "a", Firing, map["alertname" := "Down", "severity" := ""], map[], 0, None, 0);
    AwkwardDelivery(rx, p, q, a);
    AwkwardDelivery(rx, p, q, a.(fingerprint := "b"));
    assert Awkward(rx, p, q, a) && Awkward(rx, p, q, a.(fingerprint := "b")) && a.fingerprint != "b";
  }

  // ---------------------------------------------------------------- what a listing shows

  predicate HasSeverity(labels: Labels, severity: string)
  {
    severity == (if "severity" in labels then labels["severity"] else "warning")
  }

  predicate HasStatus(status: Status, text: string)
  {
    || (status == Firing && text == "firing") || (status == Resolved && text == "resolved")
    || (status == Expired && text == "expired")
  }

  predicate FilterPasses(f: LabelFilter, labels: Labels)
  {
    if f.negated then f.name in labels ==> labels[f.name] != f.value
    else f.value == (if f.name in labels then labels[f.name] else "")
  }

  /** The row is what the query asks for, in the row's own terms. What is not asked for does not matter, but for closed
      alerts, which are not shown unless asked for. */
  predicate Asked(q: Query, row: Row)
  {
    && (q.source != "" ==> row.source == q.source) && (q.status != "" ==> HasStatus(row.status, q.status))
    && (q.severity != "" ==> HasSeverity(row.labels, q.severity))
    && (q.team != "" ==> "team" in row.labels && row.labels["team"] == q.team)
    && (q.suppressed.Some? ==> row.suppressed == q.suppressed.value)
    && row.closed.on == (q.closed.Some? && q.closed.value)
    && forall i | 0 <= i < |q.filters| :: FilterPasses(q.filters[i], row.labels)
  }

  lemma ListableMeans(rx: Regex, p: Principal, q: Query, row: Row)
    ensures Listable(rx, p, q, row) <==>
            && Readable(rx, p, row.labels) && Includes(rx, Resolve(p, q.view), row.labels) && Asked(q, row)
  {
    forall i | 0 <= i < |q.filters| ensures FilterHolds(q.filters[i], row.labels) <==>
           FilterPasses(q.filters[i], row.labels) {
    }
  }

  /** A request lists exactly the rows its reader may see, in the view they asked for, that are what they asked for. */
  lemma ListedAre(rx: Regex, p: Principal, q: Query, rows: seq<Row>, id: nat)
    ensures id in Listed(rx, p, q, rows) <==>
            && id < |rows| && Readable(rx, p, rows[id].labels)
            && Includes(rx, Resolve(p, q.view), rows[id].labels) && Asked(q, rows[id])
  {
    ListedExact(rx, p, q, rows, id);
    if id < |rows| {
      ListableMeans(rx, p, q, rows[id]);
    }
  }

  /** At least as bad: critical before warning before info before anything else. */
  predicate AsSevere(a: Labels, b: Labels)
  {
    && (HasSeverity(b, "critical") ==> HasSeverity(a, "critical"))
    && (HasSeverity(b, "warning") ==> HasSeverity(a, "critical") || HasSeverity(a, "warning"))
    && (HasSeverity(b, "info") ==> HasSeverity(a, "critical") || HasSeverity(a, "warning") || HasSeverity(a, "info"))
  }

  /** The label or field a text column is sorted by. */
  predicate ColumnText(row: Row, sort: SortField, text: string)
  {
    match sort
    case AlertName => text == (if "alertname" in row.labels then row.labels["alertname"] else "")
    case Team => text == (if "team" in row.labels then row.labels["team"] else "")
    case Instance => text == (if "instance" in row.labels then row.labels["instance"] else "")
    case Summary => text == (if "summary" in row.annotations then row.annotations["summary"] else "")
    case ByStatus => HasStatus(row.status, text)
    case BySource => text == row.source
    case _ => false
  }

  /** The rows at two places of a listing, the earlier first, stand in the order asked for. */
  lemma MarksInOrder(rows: seq<Row>, sort: SortField, o: Order, x: Row, i: nat, y: Row, j: nat)
    requires TotalOrder(o.collation) && Le(o, MarkOf(x, i, sort), MarkOf(y, j, sort))
    ensures sort == LastSeen ==>
              if o.descending then x.times.lastSeen >= y.times.lastSeen else x.times.lastSeen <= y.times.lastSeen
    ensures sort == StartsAt ==>
              if o.descending then x.times.startsAt >= y.times.startsAt else x.times.startsAt <= y.times.startsAt
    ensures sort == Severity ==> if o.descending then AsSevere(x.labels, y.labels) else AsSevere(y.labels, x.labels)
    ensures forall a, b | ColumnText(x, sort, a) && ColumnText(y, sort, b) ::
              if o.descending then o.collation(b, a) else o.collation(a, b)
  {
    assert MarkOf(x, i, sort)[1..] == [Num(i)] && MarkOf(y, j, sort)[1..] == [Num(j)];
  }

  /** A listing is sorted by what it was asked to be sorted by. */
  lemma ListingIsSorted(rx: Regex, p: Principal, q: Query, rows: seq<Row>, sort: SortField, o: Order, k: nat, l: nat)
    requires TotalOrder(o.collation) && k < l < |Listing(rx, p, q, rows, sort, o)|
    ensures var s := Listing(rx, p, q, rows, sort, o);
            && Stands(rows, sort, s[k]) && Stands(rows, sort, s[l])
            && var x, y := rows[s[k][1].n], rows[s[l][1].n];
               && (sort == LastSeen ==>
                     if o.descending then x.times.lastSeen >= y.times.lastSeen
                     else x.times.lastSeen <= y.times.lastSeen)
               && (sort == StartsAt ==>
                     if o.descending then x.times.startsAt >= y.times.startsAt
                     else x.times.startsAt <= y.times.startsAt)
               && (sort == Severity ==>
                     if o.descending then AsSevere(x.labels, y.labels) else AsSevere(y.labels, x.labels))
               && forall a, b | ColumnText(x, sort, a) && ColumnText(y, sort, b) ::
                    if o.descending then o.collation(b, a) else o.collation(a, b)
  {
    var s := Listing(rx, p, q, rows, sort, o);
    ListingIsStrict(rx, p, q, rows, sort, o);
    ListingStands(rx, p, q, rows, sort, o, k);
    ListingStands(rx, p, q, rows, sort, o, l);
    assert Precedes(o, s[k], s[l]);
    MarksInOrder(rows, sort, o, rows[s[k][1].n], s[k][1].n, rows[s[l][1].n], s[l][1].n);
  }

  /** Which cursor values a flat list refuses: severities but 0 to 3, and times that are none. */
  lemma RefusedValues(codec: Codec, sort: SortField, text: string)
    ensures !ValidValue(codec, sort, text) <==>
            || (sort in {LastSeen, StartsAt} && codec.parse(text).None?)
            || (sort == Severity && ParseInt(text) !in {Some(0), Some(1), Some(2), Some(3)})
  {
  }

  // ---------------------------------------------------------------- the list request itself

  function CursorAsMark(codec: Codec, cursor: Option<Cursor>, sort: SortField): (m: Option<Mark>)
  {
    if cursor.Some? then Some(CursorMark(codec, cursor.value, sort)) else None
  }

  lemma RemainingStands(rx: Regex, p: Principal, q: Query, rows: seq<Row>, sort: SortField, o: Order,
                        cursor: Option<Mark>, k: nat)
    requires TotalOrder(o.collation) && k < |Remaining(o, Listing(rx, p, q, rows, sort, o), cursor)|
    ensures Stands(rows, sort, Remaining(o, Listing(rx, p, q, rows, sort, o), cursor)[k])
  {
    var s := Listing(rx, p, q, rows, sort, o);
    if cursor.Some? {
      AfterIsFrom(o, s, cursor.value, k);
      var j :| 0 <= j < |s| && s[j] == Remaining(o, s, cursor)[k];
      ListingStands(rx, p, q, rows, sort, o, j);
    } else {
      ListingStands(rx, p, q, rows, sort, o, k);
    }
  }

  /** The rows the compiled condition selects. */
  lemma ListedNext(rx: Regex, p: Principal, q: Query, rows: seq<Row>, i: nat)
    requires i < |rows|
    ensures Listed(rx, p, q, rows[..i + 1]) ==
            Listed(rx, p, q, rows[..i]) + if Listable(rx, p, q, rows[i]) then [i] else []
  {
    assert rows[..i + 1][..i] == rows[..i];
  }

  method SelectIds(rx: Regex, p: Principal, q: Query, rows: seq<Row>) returns (ids: seq<nat>)
    ensures ids == Listed(rx, p, q, rows)
  {
    var where_, args := AlertFiltersWithView(rx, p, q, Resolve(p, q.view), ApplyView);
    assert args + [] == args;
    ids := [];
    var i := 0;
    while i < |rows|
      invariant 0 <= i <= |rows|
      invariant ids == Listed(rx, p, q, rows[..i])
    {
      ListedNext(rx, p, q, rows, i);
      if Selects(rx, where_, args + [], TupleOf(rows[i])) {
        ids := ids + [i];
      }
      i := i + 1;
    }
    assert rows[..i] == rows;
  }

  /** These ids are the rows these marks stand for, in order. */
  ghost predicate ListsMarks(rows: seq<Row>, sort: SortField, ids: seq<nat>, marks: seq<Mark>)
  {
    |ids| == |marks| && forall i | 0 <= i < |ids| :: ids[i] < |rows| && marks[i] == MarkOf(rows[ids[i]], ids[i], sort)
  }

  /** The ids of up to one row more than the page holds. */
  method ScanIds(rows: seq<Row>, sort: SortField, rest: seq<Mark>, limit: nat) returns (ids: seq<nat>)
    requires forall k | 0 <= k < |rest| :: Stands(rows, sort, rest[k])
    ensures |ids| == Min(|rest|, limit + 1)
    ensures forall i | 0 <= i < |ids| :: ids[i] < |rows| && rest[i] == MarkOf(rows[ids[i]], ids[i], sort)
  {
    ids := [];
    while |ids| < |rest| && |ids| <= limit
      invariant |ids| <= |rest| && |ids| <= limit + 1
      invariant forall i | 0 <= i < |ids| :: ids[i] < |rows| && rest[i] == MarkOf(rows[ids[i]], ids[i], sort)
    {
      ids := ids + [rest[|ids|][1].n];
    }
  }

  /** Trim the extra row, and make the next cursor from the last row kept. */
  method CutPage(rows: seq<Row>, sort: SortField, codec: Codec, rest: seq<Mark>, limit: nat)
    returns (ids: seq<nat>, next: Option<Cursor>)
    requires 0 < limit && forall k | 0 <= k < |rest| :: Stands(rows, sort, rest[k])
    ensures var page := Cut(rest, limit, CursorBack(codec, rows, sort));
            && ListsMarks(rows, sort, ids, page.items)
            && CursorAsMark(codec, next, sort) == page.next
  {
    ids := ScanIds(rows, sort, rest, limit);
    next := None;
    if |ids| > limit {
      ids := ids[..limit];
      var last := ids[limit - 1];
      next := Some(CursorOf(codec, rows[last], last, sort));
      assert rest[limit - 1] == MarkOf(rows[last], last, sort);
    }
  }

  method ListAlerts(rx: Regex, p: Principal, q: Query, rows: seq<Row>, sort: SortField, o: Order, codec: Codec,
                    cursor: Option<Cursor>, limit: nat)
    returns (ids: seq<nat>, next: Option<Cursor>)
    requires TotalOrder(o.collation) && 0 < limit
    ensures var page := Fetch(o, Listing(rx, p, q, rows, sort, o), CursorAsMark(codec, cursor, sort), limit,
                              CursorBack(codec, rows, sort));
            && ListsMarks(rows, sort, ids, page.items)
            && CursorAsMark(codec, next, sort) == page.next
  {
    var listed := SelectIds(rx, p, q, rows);
    var rest := Remaining(o, Sort(LeOf(o), MarksOf(rows, listed, sort)), CursorAsMark(codec, cursor, sort));
    forall k | 0 <= k < |rest| ensures Stands(rows, sort, rest[k]) {
      RemainingStands(rx, p, q, rows, sort, o, CursorAsMark(codec, cursor, sort), k);
    }
    ids, next := CutPage(rows, sort, codec, rest, limit);
  }
}
