/**
  The alert database: current rows, the append-only history and every stream event
  ever written. A transaction is a fold of effects, each touching one row, so what an
  effect keeps every writer keeps.
 */
module AlertModel {
  import opened Prelude

  datatype Status = Firing | Resolved | Expired

  /** An operator's yes-or-no mark, with who made it and when. */
  datatype Flag = Flag(on: bool, at: Option<int>, actor: string)

  const OFF := Flag(false, None, "")

  /** The person an alert is assigned to, when, and by whom; NOBODY when it is not assigned. */
  datatype Owner = Owner(name: string, at: Option<int>, actor: string)

  const NOBODY := Owner("", None, "")

  /** Delivery bookkeeping: none of it is news. */
  datatype Times = Times(
    startsAt: int,
    endsAt: Option<int>,
    firstSeen: int,
    lastSeen: int,
    reconciledAt: Option<int>,
    repeatCount: nat)

  datatype Row = Row(
    source: string,
    fingerprint: string,
    status: Status,
    labels: Labels,
    annotations: Labels,
    times: Times,
    occurrence: nat,
    acknowledged: Flag,
    owner: Owner,
    closed: Flag,
    suppressed: bool,
    silencedBy: seq<string>)

  datatype EntryKind =
    | Created | Updated | Reopened | ResolvedBySource
    | Reconciled | ExpiredBySweep | Revived
    | Acknowledged | Unacknowledged
    | Assigned | Unassigned
    | Closed | ReopenedLocally
    | Noted

  datatype Entry = Entry(
    alert: nat,
    occurrence: nat,
    kind: EntryKind,
    status: Status,
    actor: string,
    message: string,
    at: int)

  datatype EventKind = EventCreated | EventUpdated | EventResolved

  datatype StreamEvent = StreamEvent(
    id: nat,
    kind: EventKind,
    alert: nat,
    at: int,
    severity: string,
    alertName: string,
    summary: string,
    source: string,
    team: string,
    labels: Labels,
    previous: Option<Labels>)

  datatype Note = Note(alert: nat, occurrence: nat, author: string, body: string, at: int)

  /** `rows` is indexed by alert id; `log` is every stream event ever written, pruned or not. */
  datatype Db = Db(rows: seq<Row>, history: seq<Entry>, log: seq<StreamEvent>, notes: seq<Note>)

  const EMPTY_DB := Db([], [], [], [])

  // ---------------------------------------------------------------- effects

  /** What one writer does to one alert inside a transaction. */
  datatype Effect = Effect(
    id: nat,
    row: Row,
    entry: Option<Entry>,
    event: Option<StreamEvent>,
    note: Option<Note>)

  function Appended<T>(s: seq<T>, item: Option<T>): (r: seq<T>)
  {
    if item.Some? then s + [item.value] else s
  }

  function Stamped(log: seq<StreamEvent>, event: Option<StreamEvent>): (r: Option<StreamEvent>)
  {
    if event.Some? then Some(event.value.(id := |log| + 1)) else None
  }

  function Apply(db: Db, eff: Effect): (r: Db)
    requires eff.id <= |db.rows|
  {
    Db(
      if eff.id == |db.rows| then db.rows + [eff.row] else db.rows[eff.id := eff.row],
      Appended(db.history, eff.entry),
      Appended(db.log, Stamped(db.log, eff.event)),
      Appended(db.notes, eff.note))
  }

  /** `insertStreamEvent`: an unnamed severity reads as a warning, an unnamed alert by its fingerprint. */
  function MakeEvent(kind: EventKind, alert: nat, row: Row, at: int, previous: Option<Labels>): (e: StreamEvent)
  {
    var severity := LabelOrEmpty(row.labels, "severity");
    var name := LabelOrEmpty(row.labels, "alertname");
    StreamEvent(
      0, kind, alert, at,
      if severity == "" then "warning" else severity,
      if name == "" then row.fingerprint else name,
      LabelOrEmpty(row.annotations, "summary"),
      row.source,
      LabelOrEmpty(row.labels, "team"),
      row.labels,
      previous)
  }

  /** An event tells who the alert is and what it was like: its own severity, name, team and summary, with
      `warning` for a severity and the fingerprint for a name it does not have. */
  predicate Describes(e: StreamEvent, kind: EventKind, alert: nat, row: Row, at: int, previous: Option<Labels>)
  {
    var labels := row.labels;
    && e.kind == kind && e.alert == alert && e.at == at && e.previous == previous
    && e.labels == labels && e.source == row.source
    && e.severity == (if "severity" in labels && labels["severity"] != "" then labels["severity"] else "warning")
    && e.alertName == (if "alertname" in labels && labels["alertname"] != "" then labels["alertname"]
                       else row.fingerprint)
    && e.team == (if "team" in labels then labels["team"] else "")
    && e.summary == (if "summary" in row.annotations then row.annotations["summary"] else "")
  }

  /** The history grew by this entry, among others. */
  ghost predicate Wrote(before: Db, after: Db, entry: Entry)
  {
    exists i | |before.history| <= i < |after.history| :: after.history[i] == entry
  }

  /** The stream grew by an event that describes this row, among others. */
  ghost predicate Told(before: Db, after: Db, kind: EventKind, alert: nat, row: Row, at: int)
  {
    exists i | |before.log| <= i < |after.log| :: Describes(after.log[i], kind, alert, row, at, None)
  }

  /** History and stream are only added to. */
  ghost predicate Grown(a: Db, b: Db) { a.history <= b.history && a.log <= b.log }

  lemma GrownOn(a: Db, b: Db, c: Db)
    requires Grown(a, b) && Grown(b, c)
    ensures Grown(a, c)
  {
  }

  /** Nothing is unwritten, and what was written later was written since. */
  lemma WroteEarlier(before: Db, middle: Db, after: Db, entry: Entry)
    requires middle.history <= after.history && Wrote(before, middle, entry)
    ensures Wrote(before, after, entry)
  {
    var i :| |before.history| <= i < |middle.history| && middle.history[i] == entry;
    assert after.history[i] == entry;
  }

  lemma WroteLater(before: Db, middle: Db, after: Db, entry: Entry)
    requires before.history <= middle.history && Wrote(middle, after, entry)
    ensures Wrote(before, after, entry)
  {
    var i :| |middle.history| <= i < |after.history| && after.history[i] == entry;
  }

  lemma ToldEarlier(before: Db, middle: Db, after: Db, kind: EventKind, alert: nat, row: Row, at: int)
    requires middle.log <= after.log && Told(before, middle, kind, alert, row, at)
    ensures Told(before, after, kind, alert, row, at)
  {
    var i :| |before.log| <= i < |middle.log| && Describes(middle.log[i], kind, alert, row, at, None);
    assert after.log[i] == middle.log[i];
  }

  lemma ToldLater(before: Db, middle: Db, after: Db, kind: EventKind, alert: nat, row: Row, at: int)
    requires before.log <= middle.log && Told(middle, after, kind, alert, row, at)
    ensures Told(before, after, kind, alert, row, at)
  {
    var i :| |middle.log| <= i < |after.log| && Describes(after.log[i], kind, alert, row, at, None);
  }

  /** What an effect writes is there. */
  lemma ApplyWrites(db: Db, eff: Effect)
    requires eff.id <= |db.rows|
    ensures db.history <= Apply(db, eff).history && db.log <= Apply(db, eff).log
    ensures eff.entry.Some? ==> Wrote(db, Apply(db, eff), eff.entry.value)
  {
    if eff.entry.Some? {
      assert Apply(db, eff).history[|db.history|] == eff.entry.value;
    }
  }

  lemma ApplyTells(db: Db, eff: Effect, kind: EventKind, row: Row, at: int)
    requires eff.id <= |db.rows| && eff.event == Some(MakeEvent(kind, eff.id, row, at, None))
    ensures Told(db, Apply(db, eff), kind, eff.id, row, at)
  {
    assert Describes(Apply(db, eff).log[|db.log|], kind, eff.id, row, at, None);
  }

  // ---------------------------------------------------------------- replaying history

  /** The part of a row that is a cache of its history. */
  datatype Summary = Summary(status: Status, occurrence: nat, acknowledged: bool, assignee: string, closed: bool)

  function SummaryOf(row: Row): (s: Summary)
  {
    Summary(row.status, row.occurrence, row.acknowledged.on, row.owner.name, row.closed.on)
  }

  const ASSIGNED_PREFIX := "Assigned to "

  function AssigneeIn(message: string): (s: string)
  {
    if |ASSIGNED_PREFIX| <= |message| then message[|ASSIGNED_PREFIX|..] else ""
  }

  /** One history entry read as an instruction. Only creations and source updates carry their own
      status; every other kind says by its name what happened. */
  function Replay(prior: Option<Summary>, e: Entry): (s: Option<Summary>)
  {
    if e.kind.Created? then Some(Summary(e.status, 1, false, "", false))
    else if prior.None? then None
    else
      var p := prior.value;
      match e.kind
      case Updated => Some(p.(status := e.status, closed := p.closed && e.status != Firing))
      case Reopened => Some(Summary(Firing, p.occurrence + 1, false, "", false))
      case ResolvedBySource => Some(p.(status := Resolved))
      case Reconciled => Some(p.(status := Resolved))
      case ExpiredBySweep => Some(p.(status := Expired))
      case Revived => Some(p.(status := Firing))
      case Acknowledged => Some(p.(acknowledged := true))
      case Unacknowledged => Some(p.(acknowledged := false))
      case Assigned => Some(p.(assignee := AssigneeIn(e.message)))
      case Unassigned => Some(p.(assignee := ""))
      case Closed => Some(p.(closed := true))
      case ReopenedLocally => Some(p.(closed := false))
      case Noted => Some(p)
  }

  /** The fold of one alert's history, oldest entry first. */
  function FoldHistory(history: seq<Entry>, id: nat): (s: Option<Summary>)
  {
    if history == [] then None
    else
      var rest := FoldHistory(history[..|history| - 1], id);
      var e := history[|history| - 1];
      if e.alert == id then Replay(rest, e) else rest
  }

  function CountReopened(history: seq<Entry>, id: nat): (n: nat)
  {
    if history == [] then 0
    else
      var e := history[|history| - 1];
      CountReopened(history[..|history| - 1], id) + (if e.alert == id && e.kind.Reopened? then 1 else 0)
  }

  function LastEntry(history: seq<Entry>, id: nat): (e: Option<Entry>)
  {
    if history == [] then None
    else if history[|history| - 1].alert == id then Some(history[|history| - 1])
    else LastEntry(history[..|history| - 1], id)
  }

  /** How many entries, and how many events, concern one alert. */
  function EntriesFor(history: seq<Entry>, id: nat): (n: nat)
  {
    if history == [] then 0
    else EntriesFor(history[..|history| - 1], id) + (if history[|history| - 1].alert == id then 1 else 0)
  }

  function EventsFor(log: seq<StreamEvent>, id: nat): (n: nat)
  {
    if log == [] then 0
    else EventsFor(log[..|log| - 1], id) + (if log[|log| - 1].alert == id then 1 else 0)
  }

  // ---------------------------------------------------------------- what the stream says about labels

  /** The labels the stream last reported for an alert. */
  function LastLabels(log: seq<StreamEvent>, id: nat): (l: Option<Labels>)
  {
    if log == [] then None
    else if log[|log| - 1].alert == id then Some(log[|log| - 1].labels)
    else LastLabels(log[..|log| - 1], id)
  }

  /** Every event either names the labels it replaces, or leaves them as the stream last said. */
  ghost predicate CoherentAt(log: seq<StreamEvent>, i: nat)
    requires i < |log|
  {
    var e := log[i];
    match LastLabels(log[..i], e.alert)
    case None => e.previous.None?
    case Some(l) => e.previous == Some(l) || (e.previous.None? && e.labels == l)
  }

  ghost predicate Coherent(log: seq<StreamEvent>)
  {
    forall i | 0 <= i < |log| :: CoherentAt(log, i)
  }

  // ---------------------------------------------------------------- the invariant

  predicate FlagComplete(flag: Flag)
  {
    if flag.on then flag.at.Some? && flag.actor != "" else flag == OFF
  }

  predicate OwnerComplete(owner: Owner)
  {
    if owner.name != "" then owner.at.Some? && owner.actor != "" else owner == NOBODY
  }

  /** The CHECK constraints of the alerts table: an operator mark is complete or absent. */
  predicate MarksComplete(row: Row)
  {
    FlagComplete(row.acknowledged) && FlagComplete(row.closed) && OwnerComplete(row.owner)
  }

  /** A row against its history: the fold, the status and occurrence of its last entry, and the
      number of times it reopened. */
  ghost predicate MatchesHistory(row: Row, history: seq<Entry>, id: nat)
  {
    var last := LastEntry(history, id);
    && FoldHistory(history, id) == Some(SummaryOf(row))
    && last.Some? && last.value.status == row.status && last.value.occurrence == row.occurrence
    && row.occurrence == 1 + CountReopened(history, id)
  }

  /** A row against its past: its history, and the labels the stream last reported. */
  ghost predicate RowAgrees(db: Db, id: nat)
    requires id < |db.rows|
  {
    && MatchesHistory(db.rows[id], db.history, id)
    && LastLabels(db.log, id) == Some(db.rows[id].labels)
    && MarksComplete(db.rows[id])
  }

  ghost predicate NoStrangers(db: Db)
  {
    && (forall i | 0 <= i < |db.history| :: db.history[i].alert < |db.rows|)
    && (forall i | 0 <= i < |db.log| :: db.log[i].alert < |db.rows|)
  }

  /** The UNIQUE constraint on (source_slug, fingerprint). */
  ghost predicate IdentitiesUnique(rows: seq<Row>)
  {
    forall i, j | 0 <= i < j < |rows| ::
      rows[i].source != rows[j].source || rows[i].fingerprint != rows[j].fingerprint
  }

  ghost predicate Numbered(log: seq<StreamEvent>)
  {
    forall i | 0 <= i < |log| :: log[i].id == i + 1
  }

  ghost predicate Inv(db: Db)
  {
    && (forall id | 0 <= id < |db.rows| :: RowAgrees(db, id))
    && NoStrangers(db)
    && IdentitiesUnique(db.rows)
    && Numbered(db.log)
    && Coherent(db.log)
  }

  // ---------------------------------------------------------------- what makes an effect good

  ghost predicate GoodCreation(db: Db, eff: Effect)
  {
    && eff.id == |db.rows|
    && eff.entry.Some? && eff.entry.value.alert == eff.id && eff.entry.value.kind.Created?
    && eff.entry.value.status == eff.row.status && eff.entry.value.occurrence == 1
    && SummaryOf(eff.row) == Summary(eff.row.status, 1, false, "", false)
    && eff.event.Some? && eff.event.value.alert == eff.id && eff.event.value.previous.None?
    && eff.event.value.labels == eff.row.labels
    && (forall i | 0 <= i < |db.rows| ::
          db.rows[i].source != eff.row.source || db.rows[i].fingerprint != eff.row.fingerprint)
  }

  ghost predicate GoodEntry(old_: Row, eff: Effect)
  {
    match eff.entry
    case None => SummaryOf(eff.row) == SummaryOf(old_)
    case Some(e) =>
      && e.alert == eff.id && !e.kind.Created?
      && Replay(Some(SummaryOf(old_)), e) == Some(SummaryOf(eff.row))
      && e.status == eff.row.status && e.occurrence == eff.row.occurrence
  }

  ghost predicate GoodEvent(old_: Row, eff: Effect)
  {
    match eff.event
    case None => eff.row.labels == old_.labels
    case Some(e) =>
      && e.alert == eff.id && e.labels == eff.row.labels
      && (e.previous == Some(old_.labels) || (e.previous.None? && eff.row.labels == old_.labels))
  }

  ghost predicate GoodChange(db: Db, eff: Effect)
  {
    && eff.id < |db.rows|
    && eff.row.source == db.rows[eff.id].source && eff.row.fingerprint == db.rows[eff.id].fingerprint
    && GoodEntry(db.rows[eff.id], eff)
    && GoodEvent(db.rows[eff.id], eff)
  }

  ghost predicate Good(db: Db, eff: Effect)
  {
    MarksComplete(eff.row) && (GoodCreation(db, eff) || GoodChange(db, eff))
  }

  // ---------------------------------------------------------------- preservation

  lemma FoldAppend(history: seq<Entry>, e: Entry, id: nat)
    ensures FoldHistory(history + [e], id) ==
            if e.alert == id then Replay(FoldHistory(history, id), e) else FoldHistory(history, id)
    ensures LastEntry(history + [e], id) == if e.alert == id then Some(e) else LastEntry(history, id)
    ensures CountReopened(history + [e], id) ==
            CountReopened(history, id) + (if e.alert == id && e.kind.Reopened? then 1 else 0)
  {
    assert (history + [e])[..|history|] == history;
  }

  lemma WritesAppend(db: Db, eff: Effect, id: nat)
    requires eff.id <= |db.rows| && eff.entry.Some? && eff.event.Some?
    ensures EntriesFor(Apply(db, eff).history, id) ==
            EntriesFor(db.history, id) + (if eff.entry.value.alert == id then 1 else 0)
    ensures EventsFor(Apply(db, eff).log, id) == EventsFor(db.log, id) + (if eff.event.value.alert == id then 1 else 0)
  {
    assert Apply(db, eff).history[..|db.history|] == db.history;
    assert Apply(db, eff).log[..|db.log|] == db.log;
  }

  lemma LabelsAppend(log: seq<StreamEvent>, e: StreamEvent, id: nat)
    ensures LastLabels(log + [e], id) == if e.alert == id then Some(e.labels) else LastLabels(log, id)
  {
    assert (log + [e])[..|log|] == log;
  }

  /** An alert nothing refers to has no past. */
  lemma {:induction false} NoPast(db: Db, id: nat, h: nat, l: nat)
    requires NoStrangers(db) && |db.rows| <= id && h <= |db.history| && l <= |db.log|
    ensures FoldHistory(db.history[..h], id) == None && CountReopened(db.history[..h], id) == 0
    ensures LastLabels(db.log[..l], id) == None
  {
    if h > 0 {
      NoPast(db, id, h - 1, l);
      assert db.history[..h][..h - 1] == db.history[..h - 1];
    } else if l > 0 {
      NoPast(db, id, h, l - 1);
      assert db.log[..l][..l - 1] == db.log[..l - 1];
    }
  }

  lemma CoherentAppend(log: seq<StreamEvent>, e: StreamEvent)
    requires Coherent(log)
    requires match LastLabels(log, e.alert)
             case None => e.previous.None?
             case Some(l) => e.previous == Some(l) || (e.previous.None? && e.labels == l)
    ensures Coherent(log + [e])
  {
    var grown := log + [e];
    forall i | 0 <= i < |grown| ensures CoherentAt(grown, i) {
      if i < |log| {
        assert grown[..i] == log[..i];
        assert CoherentAt(log, i);
      } else {
        assert grown[..i] == log;
      }
    }
  }

  lemma CreationAgrees(db: Db, eff: Effect, id: nat)
    requires Inv(db) && GoodCreation(db, eff) && MarksComplete(eff.row) && id <= |db.rows|
    ensures RowAgrees(Apply(db, eff), id)
  {
    FoldAppend(db.history, eff.entry.value, id);
    LabelsAppend(db.log, Stamped(db.log, eff.event).value, id);
    if id == |db.rows| {
      NoPast(db, id, |db.history|, |db.log|);
      assert db.history[..|db.history|] == db.history;
    } else {
      assert RowAgrees(db, id);
    }
  }

  lemma EntryMatches(row: Row, history: seq<Entry>, e: Entry, id: nat, changed: Row)
    requires MatchesHistory(row, history, id)
    requires e.alert != id ==> changed == row
    requires e.alert == id ==>
               && !e.kind.Created? && e.status == changed.status && e.occurrence == changed.occurrence
               && Replay(Some(SummaryOf(row)), e) == Some(SummaryOf(changed))
    ensures MatchesHistory(changed, history + [e], id)
  {
    FoldAppend(history, e, id);
  }

  lemma ChangeMatchesHistory(db: Db, eff: Effect, id: nat)
    requires GoodChange(db, eff) && id < |db.rows| && RowAgrees(db, id)
    ensures MatchesHistory(Apply(db, eff).rows[id], Apply(db, eff).history, id)
  {
    if eff.entry.Some? {
      EntryMatches(db.rows[id], db.history, eff.entry.value, id, Apply(db, eff).rows[id]);
    }
  }

  lemma ChangeMatchesLabels(db: Db, eff: Effect, id: nat)
    requires GoodChange(db, eff) && id < |db.rows| && RowAgrees(db, id)
    ensures LastLabels(Apply(db, eff).log, id) == Some(Apply(db, eff).rows[id].labels)
  {
    if eff.event.Some? {
      LabelsAppend(db.log, Stamped(db.log, eff.event).value, id);
    }
  }

  lemma IdentitiesKept(db: Db, eff: Effect)
    requires Inv(db) && Good(db, eff)
    ensures IdentitiesUnique(Apply(db, eff).rows) && NoStrangers(Apply(db, eff))
  {
  }

  lemma EventCoherent(db: Db, eff: Effect)
    requires Inv(db) && Good(db, eff)
    ensures Coherent(Apply(db, eff).log)
  {
    if eff.event.Some? {
      var e := Stamped(db.log, eff.event).value;
      if eff.id == |db.rows| {
        NoPast(db, eff.id, |db.history|, |db.log|);
        assert db.log[..|db.log|] == db.log;
      }
      assert eff.id < |db.rows| ==> RowAgrees(db, eff.id);
      CoherentAppend(db.log, e);
    }
  }

  /** The one step every writer is made of keeps rows, history and stream in agreement. */
  lemma ApplyKeepsInv(db: Db, eff: Effect)
    requires Inv(db) && Good(db, eff)
    ensures Inv(Apply(db, eff))
  {
    EventCoherent(db, eff);
    IdentitiesKept(db, eff);
    forall id | 0 <= id < |Apply(db, eff).rows| ensures RowAgrees(Apply(db, eff), id) {
      if GoodCreation(db, eff) {
        CreationAgrees(db, eff, id);
      } else {
        assert RowAgrees(db, id);
        ChangeMatchesHistory(db, eff, id);
        ChangeMatchesLabels(db, eff, id);
      }
    }
  }

  /** The same, for an effect on a row that is already there. */
  lemma RowChangeKeepsInv(db: Db, eff: Effect)
    requires Inv(db) && eff.id < |db.rows| && MarksComplete(eff.row)
    requires eff.row.source == db.rows[eff.id].source && eff.row.fingerprint == db.rows[eff.id].fingerprint
    requires GoodEntry(db.rows[eff.id], eff) && GoodEvent(db.rows[eff.id], eff)
    ensures Inv(Apply(db, eff))
  {
    ApplyKeepsInv(db, eff);
  }
}
