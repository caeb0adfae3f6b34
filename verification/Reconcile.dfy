/** Aligning one source's alerts with what its Alertmanager still holds. */
module Reconcile {
  import opened Prelude
  import opened AlertModel
  import opened Ordering

  datatype LiveAlert = LiveAlert(fingerprint: string, suppressed: bool, silencedBy: seq<string>)

  /** What the live list says of one fingerprint, with its silence ids in stable order. */
  datatype LiveState = LiveState(suppressed: bool, silencedBy: seq<string>)

  /** One pass. `activeSilences` is None when the listing failed, which is no claim at all. */
  datatype Reading = Reading(
    source: string,
    live: map<string, LiveState>,
    missing: set<string>,
    activeSilences: Option<set<string>>,
    now: int)

  datatype Tally = Tally(resolved: nat, suppressed: nat, released: nat, revived: nat)

  const NOTHING := Tally(0, 0, 0, 0)

  // ---------------------------------------------------------------- the live list

  function SortedCopy(ids: seq<string>): (r: seq<string>) { Sort(TextLe, ids) }

  /** Two readings of the same silences compare equal whatever order they were serialised in. */
  lemma SortedCopyIsCanonical(a: seq<string>, b: seq<string>)
    requires multiset(a) == multiset(b)
    ensures SortedCopy(a) == SortedCopy(b)
  {
    TextIsTotalOrder();
    SortContents(TextLe, a);
    SortContents(TextLe, b);
    SortSorts(TextLe, a);
    SortSorts(TextLe, b);
    SortedIsUnique(TextLe, Sort(TextLe, a), Sort(TextLe, b));
  }

  function LiveMap(live: seq<LiveAlert>): (m: map<string, LiveState>)
    ensures m.Keys == set i | 0 <= i < |live| :: live[i].fingerprint
  {
    if live == [] then map[]
    else
      var last := live[|live| - 1];
      LiveMap(live[..|live| - 1])[last.fingerprint := LiveState(last.suppressed, SortedCopy(last.silencedBy))]
  }

  // ---------------------------------------------------------------- one row

  datatype Verdict = Leave | Revive | Resolve | Release | Sync(announced: bool)

  predicate AnySilenceActive(ids: seq<string>, active: set<string>)
  {
    exists i | 0 <= i < |ids| :: ids[i] in active
  }

  /** What a pass decides about a stored alert. Resolved rows, and rows of other sources, are not read. */
  function Judge(row: Row, r: Reading): (v: Verdict)
  {
    if row.source != r.source || row.status == Resolved then Leave
    else if row.status == Expired then (if row.fingerprint in r.live then Revive else Leave)
    else if row.fingerprint in r.missing then Resolve
    else if row.fingerprint !in r.live then
      if r.activeSilences.None? || !row.suppressed || row.silencedBy == [] then Leave
      else if AnySilenceActive(row.silencedBy, r.activeSilences.value) then Leave
      else Release
    else
      var current := r.live[row.fingerprint];
      if current.suppressed == row.suppressed && current.silencedBy == row.silencedBy then Leave
      else Sync(current.suppressed != row.suppressed)
  }

  function JudgedRow(row: Row, v: Verdict, r: Reading): (out: Row)
    requires v == Judge(row, r)
  {
    match v
    case Leave => row
    case Revive =>
      var current := r.live[row.fingerprint];
      row.(status := Firing, times := row.times.(endsAt := None),
           suppressed := current.suppressed, silencedBy := current.silencedBy)
    case Resolve =>
      row.(status := Resolved, times := row.times.(endsAt := if row.times.endsAt.Some? then row.times.endsAt
                                                   else Some(r.now)),
           suppressed := false, silencedBy := [])
    case Release => row.(suppressed := false, silencedBy := [])
    case Sync(_) =>
      var current := r.live[row.fingerprint];
      row.(suppressed := current.suppressed, silencedBy := current.silencedBy)
  }

  function VerdictEffect(id: nat, row: Row, v: Verdict, r: Reading): (eff: Effect)
    requires v == Judge(row, r)
    ensures eff.id == id
  {
    var out := JudgedRow(row, v, r);
    var entry :=
      match v
      case Revive => Some(Entry(id, row.occurrence, Revived, Firing, "", "", r.now))
      case Resolve => Some(Entry(id, row.occurrence, Reconciled, Resolved, "", "", r.now))
      case _ => None;
    var event :=
      if v.Resolve? then Some(MakeEvent(EventResolved, id, out, r.now, None))
      else if v.Leave? || v == Sync(false) then None
      else Some(MakeEvent(EventUpdated, id, out, r.now, None));
    Effect(id, out, entry, event, None)
  }

  /** The source vouched for this alert; expiry counts from here. */
  function StampRow(row: Row, r: Reading): (out: Row)
  {
    if row.source == r.source && row.status == Firing && row.fingerprint in r.live
    then row.(times := row.times.(reconciledAt := Some(r.now)))
    else row
  }

  function SettledRow(row: Row, r: Reading): (out: Row) { StampRow(JudgedRow(row, Judge(row, r), r), r) }

  function Counted(tally: Tally, row: Row, v: Verdict): (t: Tally)
  {
    match v
    case Resolve => tally.(resolved := tally.resolved + 1)
    case Revive => tally.(revived := tally.revived + 1)
    case Release => tally.(released := tally.released + 1)
    case Sync(true) =>
      if row.suppressed then tally.(released := tally.released + 1) else tally.(suppressed := tally.suppressed + 1)
    case _ => tally
  }

  // ---------------------------------------------------------------- the pass

  /** The loop over stored rows, up to row `n`. */
  function JudgeFirst(db: Db, r: Reading, n: nat): (out: (Db, Tally))
    requires n <= |db.rows|
    ensures |out.0.rows| == |db.rows|
  {
    if n == 0 then (db, NOTHING)
    else
      var (before, tally) := JudgeFirst(db, r, n - 1);
      var row := db.rows[n - 1];
      var v := Judge(row, r);
      (Apply(before, VerdictEffect(n - 1, row, v, r)), Counted(tally, row, v))
  }

  function StampAll(rows: seq<Row>, r: Reading): (out: seq<Row>)
    ensures |out| == |rows| && forall i | 0 <= i < |rows| :: out[i] == StampRow(rows[i], r)
  {
    seq(|rows|, i requires 0 <= i < |rows| => StampRow(rows[i], r))
  }

  /** `ReconcileSource`: judge every stored alert, then stamp the ones the source vouched for. */
  function ReconcileSource(db: Db, r: Reading): (out: (Db, Tally))
    ensures |out.0.rows| == |db.rows|
  {
    var (judged, tally) := JudgeFirst(db, r, |db.rows|);
    (judged.(rows := StampAll(judged.rows, r)), tally)
  }

  lemma {:induction false} JudgeFirstRows(db: Db, r: Reading, n: nat, i: nat)
    requires n <= |db.rows| && i < |db.rows|
    ensures JudgeFirst(db, r, n).0.rows[i] ==
            if i < n then JudgedRow(db.rows[i], Judge(db.rows[i], r), r) else db.rows[i]
  {
    if n > 0 {
      JudgeFirstRows(db, r, n - 1, i);
    }
  }

  /** What a pass leaves in each row, independently of every other row. */
  lemma ReconciledRows(db: Db, r: Reading, i: nat)
    requires i < |db.rows|
    ensures ReconcileSource(db, r).0.rows[i] == SettledRow(db.rows[i], r)
  {
    JudgeFirstRows(db, r, |db.rows|, i);
  }

  // ---------------------------------------------------------------- the invariant

  lemma VerdictGood(row: Row, id: nat, r: Reading)
    requires MarksComplete(row)
    ensures var eff := VerdictEffect(id, row, Judge(row, r), r);
            MarksComplete(eff.row) && GoodEntry(row, eff) && GoodEvent(row, eff)
            && eff.row.source == row.source && eff.row.fingerprint == row.fingerprint
  {
    match Judge(row, r)
    case Leave =>
    case Revive =>
    case Resolve =>
    case Release =>
    case Sync(_) =>
  }

  lemma JudgeStepKeepsInv(before: Db, row: Row, id: nat, r: Reading)
    requires Inv(before) && id < |before.rows| && before.rows[id] == row
    ensures Inv(Apply(before, VerdictEffect(id, row, Judge(row, r), r)))
  {
    assert RowAgrees(before, id);
    VerdictGood(row, id, r);
    RowChangeKeepsInv(before, VerdictEffect(id, row, Judge(row, r), r));
  }

  lemma JudgeNext(db: Db, r: Reading, n: nat)
    requires 0 < n <= |db.rows|
    ensures JudgeFirst(db, r, n).0 ==
            Apply(JudgeFirst(db, r, n - 1).0, VerdictEffect(n - 1, db.rows[n - 1], Judge(db.rows[n - 1], r), r))
  {
  }

  lemma {:induction false} JudgeKeepsInv(db: Db, r: Reading, n: nat)
    requires Inv(db) && n <= |db.rows|
    ensures Inv(JudgeFirst(db, r, n).0)
  {
    if n > 0 {
      JudgeKeepsInv(db, r, n - 1);
      JudgeFirstRows(db, r, n - 1, n - 1);
      JudgeStepKeepsInv(JudgeFirst(db, r, n - 1).0, db.rows[n - 1], n - 1, r);
      JudgeNext(db, r, n);
    }
  }

  /** Delivery bookkeeping can be rewritten freely. */
  lemma TimesKeepInv(db: Db, rows: seq<Row>)
    requires Inv(db) && |rows| == |db.rows|
    requires forall i | 0 <= i < |rows| :: rows[i] == db.rows[i].(times := rows[i].times)
    ensures Inv(db.(rows := rows))
  {
    var out := db.(rows := rows);
    forall id | 0 <= id < |rows| ensures RowAgrees(out, id) {
      assert RowAgrees(db, id);
    }
  }

  lemma ReconcileKeepsInv(db: Db, r: Reading)
    requires Inv(db)
    ensures Inv(ReconcileSource(db, r).0)
  {
    JudgeKeepsInv(db, r, |db.rows|);
    var judged := JudgeFirst(db, r, |db.rows|).0;
    TimesKeepInv(judged, StampAll(judged.rows, r));
  }

  // ---------------------------------------------------------------- what a pass may and may not do

  /** Only an alert declared missing is ended, a settled ending is never revisited, another source is
      never touched, an alert still firing on the live list carries the live suppression, and no
      operator's mark or occurrence moves. */
  lemma ReconcileRespects(db: Db, r: Reading, i: nat)
    requires i < |db.rows|
    ensures var row, out := db.rows[i], ReconcileSource(db, r).0.rows[i];
            && (row.status == Resolved || row.source != r.source ==> out == row)
            && (out.status == Resolved && row.status != Resolved ==>
                row.status == Firing && row.fingerprint in r.missing)
            && (out.status == Expired ==> out == row)
            && (row.source == r.source && out.status == Firing && row.fingerprint in r.live ==>
                  && out.suppressed == r.live[row.fingerprint].suppressed
                  && out.silencedBy == r.live[row.fingerprint].silencedBy
                  && out.times.reconciledAt == Some(r.now))
            && out == row.(status := out.status, times := out.times, suppressed := out.suppressed,
                           silencedBy := out.silencedBy)
  {
    ReconciledRows(db, r, i);
  }

  // ---------------------------------------------------------------- what a pass leaves behind

  /** Every silence the row is under has lapsed: there is at least one, and none of them is active any more. */
  predicate SilenceLapsed(row: Row, r: Reading)
  {
    && r.activeSilences.Some? && row.suppressed && |row.silencedBy| > 0
    && forall i | 0 <= i < |row.silencedBy| :: row.silencedBy[i] !in r.activeSilences.value
  }

  /** A firing alert of this source: ended if it is missing, as the source says if it is live, and otherwise left
      as it is, but for a suppression whose silences lapsed. */
  lemma PassOnFiring(db: Db, r: Reading, i: nat)
    requires i < |db.rows| && db.rows[i].source == r.source && db.rows[i].status == Firing
    ensures var row, out := db.rows[i], ReconcileSource(db, r).0.rows[i];
            var ended := if row.times.endsAt.Some? then row.times.endsAt else Some(r.now);
            && (row.fingerprint in r.missing ==>
                  out == row.(status := Resolved, times := row.times.(endsAt := ended), suppressed := false,
                              silencedBy := []))
            && (row.fingerprint !in r.missing && row.fingerprint in r.live ==>
                  out == row.(times := row.times.(reconciledAt := Some(r.now)),
                              suppressed := r.live[row.fingerprint].suppressed,
                              silencedBy := r.live[row.fingerprint].silencedBy))
            && (row.fingerprint !in r.missing && row.fingerprint !in r.live ==>
                  out == if SilenceLapsed(row, r) then row.(suppressed := false, silencedBy := []) else row)
  {
    ReconciledRows(db, r, i);
  }

  /** An expired alert of this source comes back if and only if it is live; nothing else is touched. */
  lemma PassOnOthers(db: Db, r: Reading, i: nat)
    requires i < |db.rows| && (db.rows[i].source != r.source || db.rows[i].status != Firing)
    ensures var row, out := db.rows[i], ReconcileSource(db, r).0.rows[i];
            var back := row.source == r.source && row.status == Expired && row.fingerprint in r.live;
            out == if back
                   then row.(status := Firing, times := row.times.(endsAt := None, reconciledAt := Some(r.now)),
                             suppressed := r.live[row.fingerprint].suppressed,
                             silencedBy := r.live[row.fingerprint].silencedBy)
                   else row
  {
    ReconciledRows(db, r, i);
  }

  lemma JudgeGrowsOnce(db: Db, r: Reading, n: nat)
    requires 0 < n <= |db.rows|
    ensures Grown(JudgeFirst(db, r, n - 1).0, JudgeFirst(db, r, n).0)
  {
    JudgeNext(db, r, n);
    ApplyWrites(JudgeFirst(db, r, n - 1).0, VerdictEffect(n - 1, db.rows[n - 1], Judge(db.rows[n - 1], r), r));
  }

  lemma {:induction false} JudgeGrows(db: Db, r: Reading, m: nat, n: nat)
    requires m <= n <= |db.rows|
    ensures Grown(JudgeFirst(db, r, m).0, JudgeFirst(db, r, n).0)
  {
    if m < n {
      JudgeGrows(db, r, m, n - 1);
      JudgeGrowsOnce(db, r, n);
      GrownOn(JudgeFirst(db, r, m).0, JudgeFirst(db, r, n - 1).0, JudgeFirst(db, r, n).0);
    }
  }

  /** What the judgement of one row writes is written by the pass. */
  lemma JudgementWritten(db: Db, r: Reading, i: nat)
    requires i < |db.rows|
    ensures var eff := VerdictEffect(i, db.rows[i], Judge(db.rows[i], r), r);
            eff.entry.Some? ==> Wrote(db, ReconcileSource(db, r).0, eff.entry.value)
  {
    var eff := VerdictEffect(i, db.rows[i], Judge(db.rows[i], r), r);
    var before, after := JudgeFirst(db, r, i).0, JudgeFirst(db, r, i + 1).0;
    JudgeGrows(db, r, 0, i);
    JudgeGrows(db, r, i + 1, |db.rows|);
    JudgeNext(db, r, i + 1);
    ApplyWrites(before, eff);
    if eff.entry.Some? {
      WroteLater(db, before, after, eff.entry.value);
      WroteEarlier(db, after, JudgeFirst(db, r, |db.rows|).0, eff.entry.value);
    }
  }

  lemma JudgementTold(db: Db, r: Reading, i: nat, kind: EventKind, row: Row)
    requires i < |db.rows|
    requires VerdictEffect(i, db.rows[i], Judge(db.rows[i], r), r).event == Some(MakeEvent(kind, i, row, r.now, None))
    ensures Told(db, ReconcileSource(db, r).0, kind, i, row, r.now)
  {
    var before, after := JudgeFirst(db, r, i).0, JudgeFirst(db, r, i + 1).0;
    JudgeGrows(db, r, 0, i);
    JudgeGrows(db, r, i + 1, |db.rows|);
    JudgeNext(db, r, i + 1);
    ApplyTells(before, VerdictEffect(i, db.rows[i], Judge(db.rows[i], r), r), kind, row, r.now);
    ToldLater(db, before, after, kind, i, row, r.now);
    ToldEarlier(db, after, JudgeFirst(db, r, |db.rows|).0, kind, i, row, r.now);
  }

  /** An ending is written down and announced as one. */
  lemma PassWritesEndings(db: Db, r: Reading, i: nat)
    requires i < |db.rows| && db.rows[i].source == r.source && db.rows[i].status == Firing
    requires db.rows[i].fingerprint in r.missing
    ensures var row, after := db.rows[i], ReconcileSource(db, r).0;
            && Wrote(db, after, Entry(i, row.occurrence, Reconciled, Resolved, "", "", r.now))
            && Told(db, after, EventResolved, i, after.rows[i], r.now)
  {
    ReconciledRows(db, r, i);
    JudgementWritten(db, r, i);
    JudgementTold(db, r, i, EventResolved, JudgedRow(db.rows[i], Judge(db.rows[i], r), r));
  }

  /** A revival is written down, and announced as an update. */
  lemma PassWritesRevivals(db: Db, r: Reading, i: nat)
    requires i < |db.rows| && db.rows[i].source == r.source && db.rows[i].status == Expired
    requires db.rows[i].fingerprint in r.live
    ensures var row, after := db.rows[i], ReconcileSource(db, r).0;
            && Wrote(db, after, Entry(i, row.occurrence, Revived, Firing, "", "", r.now))
            && Told(db, after, EventUpdated, i, after.rows[i], r.now)
  {
    ReconciledRows(db, r, i);
    JudgementWritten(db, r, i);
    JudgementTold(db, r, i, EventUpdated, JudgedRow(db.rows[i], Judge(db.rows[i], r), r));
  }

  /** A change of suppression is announced as an update. */
  lemma PassTellsSuppression(db: Db, r: Reading, i: nat)
    requires i < |db.rows| && db.rows[i].source == r.source && db.rows[i].status == Firing
    requires db.rows[i].fingerprint !in r.missing
    requires ReconcileSource(db, r).0.rows[i].suppressed != db.rows[i].suppressed
    ensures Told(db, ReconcileSource(db, r).0, EventUpdated, i, ReconcileSource(db, r).0.rows[i], r.now)
  {
    ReconciledRows(db, r, i);
    JudgementTold(db, r, i, EventUpdated, JudgedRow(db.rows[i], Judge(db.rows[i], r), r));
  }

  /** How many of the first `n` rows pass a test. */
  function CountRows(rows: seq<Row>, test: Row -> bool, n: nat): (count: nat)
    requires n <= |rows|
  {
    if n == 0 then 0 else CountRows(rows, test, n - 1) + (if test(rows[n - 1]) then 1 else 0)
  }

  predicate Ends(row: Row, r: Reading)
  {
    row.source == r.source && row.status == Firing && row.fingerprint in r.missing
  }

  predicate StaysFiring(row: Row, r: Reading)
  {
    row.source == r.source && row.status == Firing && row.fingerprint !in r.missing
  }

  /** Its suppression comes or goes. */
  predicate Turns(row: Row, r: Reading, on: bool)
  {
    && StaysFiring(row, r) && row.suppressed != on
    && if row.fingerprint in r.live then r.live[row.fingerprint].suppressed == on else !on && SilenceLapsed(row, r)
  }

  /** Which rows each of the four counts counts. */
  function CountedAs(r: Reading): (tests: (Row -> bool, Row -> bool, Row -> bool, Row -> bool))
  {
    ((row: Row) => Ends(row, r), (row: Row) => Turns(row, r, true), (row: Row) => Turns(row, r, false),
     (row: Row) => row.source == r.source && row.status == Expired && row.fingerprint in r.live)
  }

  lemma TurnsAreTold(row: Row, r: Reading)
    ensures Judge(row, r) == Release || (Judge(row, r) == Sync(true) && row.suppressed) <==> Turns(row, r, false)
    ensures Judge(row, r) == Sync(true) && !row.suppressed <==> Turns(row, r, true)
  {
    if Turns(row, r, false) && row.fingerprint !in r.live {
      assert !AnySilenceActive(row.silencedBy, r.activeSilences.value);
    }
  }

  lemma CountedOnce(row: Row, r: Reading, tally: Tally)
    ensures var (resolved, suppressed, released, revived) := CountedAs(r);
            Counted(tally, row, Judge(row, r)) ==
            Tally(tally.resolved + (if resolved(row) then 1 else 0), tally.suppressed +
                  (if suppressed(row) then 1 else 0),
                  tally.released + (if released(row) then 1 else 0), tally.revived + (if revived(row) then 1 else 0))
  {
    TurnsAreTold(row, r);
  }

  lemma {:induction false} JudgeCounts(db: Db, r: Reading, n: nat)
    requires n <= |db.rows|
    ensures var (resolved, suppressed, released, revived) := CountedAs(r);
            JudgeFirst(db, r, n).1 ==
            Tally(CountRows(db.rows, resolved, n), CountRows(db.rows, suppressed, n), CountRows(db.rows, released, n),
                  CountRows(db.rows, revived, n))
  {
    if n > 0 {
      JudgeCounts(db, r, n - 1);
      CountedOnce(db.rows[n - 1], r, JudgeFirst(db, r, n - 1).1);
    }
  }

  /** The four counts a pass reports are those of its endings, suppressions, releases and revivals. */
  lemma PassCountsExactly(db: Db, r: Reading)
    ensures var (resolved, suppressed, released, revived) := CountedAs(r);
            var n := |db.rows|;
            ReconcileSource(db, r).1 ==
            Tally(CountRows(db.rows, resolved, n), CountRows(db.rows, suppressed, n), CountRows(db.rows, released, n),
                  CountRows(db.rows, revived, n))
  {
    JudgeCounts(db, r, |db.rows|);
  }

  /** A fingerprint listed more than once counts as its last listing says. */
  lemma {:induction false} LastListingCounts(live: seq<LiveAlert>, k: nat)
    requires k < |live| && forall i | k < i < |live| :: live[i].fingerprint != live[k].fingerprint
    ensures live[k].fingerprint in LiveMap(live)
    ensures LiveMap(live)[live[k].fingerprint] == LiveState(live[k].suppressed, SortedCopy(live[k].silencedBy))
  {
    if k < |live| - 1 {
      LastListingCounts(live[..|live| - 1], k);
    }
  }

  // ---------------------------------------------------------------- idempotence

  predicate RowContradictory(row: Row, r: Reading)
  {
    row.source == r.source && row.status == Expired && row.fingerprint in r.live && row.fingerprint in r.missing
  }

  /** The one input a second identical pass would still act on: an expired alert that is both on the
      live list and declared missing. The first pass revives it, the second resolves it. */
  ghost predicate Contradictory(rows: seq<Row>, r: Reading)
  {
    exists i | 0 <= i < |rows| :: RowContradictory(rows[i], r)
  }

  lemma SettledStays(row: Row, r: Reading)
    ensures !RowContradictory(row, r) ==> Judge(SettledRow(row, r), r) == Leave
    ensures RowContradictory(row, r) ==> Judge(SettledRow(row, r), r) == Resolve
    ensures StampRow(SettledRow(row, r), r) == SettledRow(row, r)
  {
  }

  lemma {:induction false} AllLeftAlone(db: Db, r: Reading, n: nat)
    requires n <= |db.rows| && forall i | 0 <= i < n :: Judge(db.rows[i], r) == Leave
    ensures JudgeFirst(db, r, n) == (db, NOTHING)
  {
    if n > 0 {
      AllLeftAlone(db, r, n - 1);
      assert db.rows[n - 1 := db.rows[n - 1]] == db.rows;
    }
  }

  lemma {:induction false} SomeResolved(db: Db, r: Reading, n: nat, i: nat)
    requires i < n <= |db.rows| && Judge(db.rows[i], r) == Resolve
    ensures JudgeFirst(db, r, n).1.resolved > 0
  {
    if i < n - 1 {
      SomeResolved(db, r, n - 1, i);
    }
  }

  /** Repeating a pass with the same reading changes nothing at all, unless the reading contradicts
      itself about an expired alert. */
  lemma ReconcileIdempotentExactly(db: Db, r: Reading)
    ensures var once := ReconcileSource(db, r).0;
            ReconcileSource(once, r) == (once, NOTHING) <==> !Contradictory(db.rows, r)
  {
    var once := ReconcileSource(db, r).0;
    forall i | 0 <= i < |db.rows|
      ensures once.rows[i] == SettledRow(db.rows[i], r)
      ensures !RowContradictory(db.rows[i], r) ==> Judge(once.rows[i], r) == Leave
      ensures RowContradictory(db.rows[i], r) ==> Judge(once.rows[i], r) == Resolve
      ensures StampRow(once.rows[i], r) == once.rows[i]
    {
      ReconciledRows(db, r, i);
      SettledStays(db.rows[i], r);
    }
    if Contradictory(db.rows, r) {
      var i :| 0 <= i < |db.rows| && RowContradictory(db.rows[i], r);
      SomeResolved(once, r, |once.rows|, i);
    } else {
      assert forall i | 0 <= i < |db.rows| :: !RowContradictory(db.rows[i], r);
      AllLeftAlone(once, r, |once.rows|);
      assert StampAll(once.rows, r) == once.rows;
    }
  }

  /** Any expired alert can be put to it: called live and missing at once, it is revived by one pass and
      resolved by the next. */
  lemma ExpiredCanContradict(db: Db, i: nat, now: int)
    requires i < |db.rows| && db.rows[i].status == Expired
    ensures var fp := db.rows[i].fingerprint;
            var r := Reading(db.rows[i].source, map[fp := LiveState(false, [])], {fp}, None, now);
            var once := ReconcileSource(db, r).0;
            ReconcileSource(once, r) != (once, NOTHING)
  {
    var fp := db.rows[i].fingerprint;
    var r := Reading(db.rows[i].source, map[fp := LiveState(false, [])], {fp}, None, now);
    assert RowContradictory(db.rows[i], r);
    ReconcileIdempotentExactly(db, r);
  }

  // ---------------------------------------------------------------- conservation

  lemma VerdictBalances(row: Row, id: nat, r: Reading, tally: Tally)
    ensures var v := Judge(row, r);
            var eff, t := VerdictEffect(id, row, v, r), Counted(tally, row, v);
            var entries, events := if eff.entry.Some? then 1 else 0, if eff.event.Some? then 1 else 0;
            && entries == t.resolved - tally.resolved + t.revived - tally.revived
            && events == entries + t.suppressed - tally.suppressed + t.released - tally.released
  {
  }

  /** Every stream event a pass writes is a history entry, except a suppression that was announced. */
  lemma {:induction false} JudgeConserves(db: Db, r: Reading, n: nat)
    requires n <= |db.rows|
    ensures var (out, tally) := JudgeFirst(db, r, n);
            && |out.log| - |db.log| == |out.history| - |db.history| + tally.suppressed + tally.released
            && |out.history| - |db.history| == tally.resolved + tally.revived
  {
    if n > 0 {
      JudgeConserves(db, r, n - 1);
      VerdictBalances(db.rows[n - 1], n - 1, r, JudgeFirst(db, r, n - 1).1);
    }
  }
}
