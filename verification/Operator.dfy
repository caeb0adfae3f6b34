/** What operators decide about alerts, one at a time or over a selection. */
module Operator {
  import opened Prelude
  import opened AlertModel
  import opened Authorization

  datatype Change = Acknowledge(on: bool) | Assign(owner: string) | Close(on: bool) | AddNote(body: string)

  datatype Outcome = Applied | Unchanged | NotFound

  datatype Act = Act(principal: Principal, change: Change, now: int)

  const MAX_BULK: nat := 500

  /** Who an action is recorded under; never nobody. */
  function OperatorName(p: Principal): (name: string)
    ensures name != ""
  {
    if p.subject != "" then p.subject else if p.displayName != "" then p.displayName else "unknown"
  }

  const MAX_ASSIGNEE: nat := 128

  /** The characters with Unicode's White_Space property. */
  predicate IsSpace(c: char)
  {
    || '\t' <= c <= '\r' || c == ' ' || c == '\U{85}' || c == '\U{A0}' || c == '\U{1680}'
    || '\U{2000}' <= c <= '\U{200A}' || c == '\U{2028}' || c == '\U{2029}' || c == '\U{202F}' || c == '\U{205F}'
    || c == '\U{3000}'
  }

  /** By code point: U+0009 to U+000D, U+0020, U+0085, U+00A0, U+1680, U+2000 to U+200A, U+2028, U+2029, U+202F, U+205F
      and U+3000. */
  lemma SpacesAre(c: char)
    ensures IsSpace(c) <==>
            || 9 <= c as int <= 13 || c as int in {32, 133, 160, 5760}
            || 8192 <= c as int <= 8202 || c as int in {8232, 8233, 8239, 8287, 12288}
  {
  }

  /** The rest of the text from its first character that is not space. */
  function TrimLeft(s: string): (r: string)
    ensures |r| <= |s| && r == s[|s| - |r|..] && (forall i | 0 <= i < |s| - |r| :: IsSpace(s[i]))
    ensures r == "" || !IsSpace(r[0])
  {
    if s != "" && IsSpace(s[0]) then TrimLeft(s[1..]) else s
  }

  /** The text up to its last character that is not space. */
  function TrimRight(s: string): (r: string)
    ensures r <= s && (forall i | |r| <= i < |s| :: IsSpace(s[i]))
    ensures r == "" || !IsSpace(r[|r| - 1])
  {
    if s != "" && IsSpace(s[|s| - 1]) then TrimRight(s[..|s| - 1]) else s
  }

  lemma {:induction false} TrimLeftIsOnly(s: string, i: nat)
    requires i <= |s| && (forall k | 0 <= k < i :: IsSpace(s[k])) && (i == |s| || !IsSpace(s[i]))
    ensures TrimLeft(s) == s[i..]
  {
    if i > 0 {
      TrimLeftIsOnly(s[1..], i - 1);
    }
  }

  lemma {:induction false} TrimRightIsOnly(s: string, j: nat)
    requires j <= |s| && (forall k | j <= k < |s| :: IsSpace(s[k])) && (j == 0 || !IsSpace(s[j - 1]))
    ensures TrimRight(s) == s[..j]
  {
    if j < |s| {
      TrimRightIsOnly(s[..|s| - 1], j);
    }
  }

  lemma TrimTailIsOnly(s: string, i: nat, j: nat)
    requires i < j <= |s| && (forall k | j <= k < |s| :: IsSpace(s[k])) && !IsSpace(s[j - 1])
    ensures TrimRight(s[i..]) == s[i..j]
  {
    var tail := s[i..];
    assert tail[j - i - 1] == s[j - 1];
    assert forall k | j - i <= k < |tail| :: tail[k] == s[i + k];
    TrimRightIsOnly(tail, j - i);
    assert tail[..j - i] == s[i..j];
  }

  function TrimSpace(s: string): (r: string)
  {
    TrimRight(TrimLeft(s))
  }

  /** Cutting `s` at `i` and `j` takes off all the space around it and nothing else. */
  predicate CutsSpace(s: string, i: nat, j: nat)
    requires i <= j <= |s|
  {
    && (forall k | 0 <= k < i :: IsSpace(s[k])) && (forall k | j <= k < |s| :: IsSpace(s[k]))
    && (i < j ==> !IsSpace(s[i]) && !IsSpace(s[j - 1]))
  }

  /** There is one text left when the space around `s` is gone, and it is the trimmed one. */
  lemma TrimSpaceIsOnly(s: string, i: nat, j: nat)
    requires i <= j <= |s| && CutsSpace(s, i, j)
    ensures TrimSpace(s) == s[i..j]
  {
    if i < j {
      TrimLeftIsOnly(s, i);
      TrimTailIsOnly(s, i, j);
    } else {
      TrimLeftIsOnly(s, |s|);
    }
  }

  /** The number of bytes of a text in UTF-8. */
  function Utf8Length(s: string): (n: nat)
    ensures |s| <= n <= 4 * |s|
  {
    if s == "" then 0
    else
      var c := s[0];
      (if c < '\U{80}' then 1 else if c < '\U{800}' then 2 else if c < '\U{10000}' then 3 else 4)
      + Utf8Length(s[1..])
  }

  /** The bytes of a character in UTF-8, as section 3 of RFC 3629 lays out its bits. */
  function Utf8(c: char): (bytes: seq<int>)
  {
    var n := c as int;
    if n <= 0x7F then [n]
    else if n <= 0x7FF then [0xC0 + n / 64, 0x80 + n % 64]
    else if n <= 0xFFFF then [0xE0 + n / 4096, 0x80 + n / 64 % 64, 0x80 + n % 64]
    else [0xF0 + n / 262144, 0x80 + n / 4096 % 64, 0x80 + n / 64 % 64, 0x80 + n % 64]
  }

  predicate Continues(byte: int) { 0x80 <= byte < 0xC0 }

  lemma ThreeDigits(n: nat)
    ensures n == n / 4096 * 4096 + n / 64 % 64 * 64 + n % 64
  {
    var m := n / 64;
    assert n == m * 64 + n % 64;
    assert m == m / 64 * 64 + m % 64;
    assert n / 4096 == m / 64;
  }

  lemma FourDigits(n: nat)
    ensures n == n / 262144 * 262144 + n / 4096 % 64 * 4096 + n / 64 % 64 * 64 + n % 64
  {
    var m := n / 4096;
    ThreeDigits(n);
    assert m == m / 64 * 64 + m % 64;
    assert n / 262144 == m / 64;
  }

  /** The layout is UTF-8: the lead byte tells how many bytes follow, those continue, and no shorter layout has room for
      the character. */
  predicate WellFormed(n: nat, bytes: seq<int>)
  {
    && 1 <= |bytes| <= 4 && (forall i | 1 <= i < |bytes| :: Continues(bytes[i]))
    && match |bytes|
       case 1 => 0 <= bytes[0] < 0x80 && n == bytes[0]
       case 2 => 0xC2 <= bytes[0] < 0xE0 && n == (bytes[0] - 0xC0) * 64 + (bytes[1] - 0x80)
       case 3 =>
         && 0xE0 <= bytes[0] < 0xF0 && 0x800 <= n
         && n == (bytes[0] - 0xE0) * 4096 + (bytes[1] - 0x80) * 64 + (bytes[2] - 0x80)
       case _ =>
         && 0xF0 <= bytes[0] < 0xF5 && 0x10000 <= n
         && n == (bytes[0] - 0xF0) * 262144 + (bytes[1] - 0x80) * 4096 + (bytes[2] - 0x80) * 64 + (bytes[3] - 0x80)
  }

  lemma Utf8IsWellFormed(c: char)
    ensures WellFormed(c as int, Utf8(c))
  {
    ThreeDigits(c as int);
    FourDigits(c as int);
  }

  function AllUtf8(s: string): (bytes: seq<int>)
  {
    if s == "" then [] else Utf8(s[0]) + AllUtf8(s[1..])
  }

  /** Lengths are lengths in bytes. */
  lemma {:induction false} Utf8LengthCounts(s: string)
    ensures Utf8Length(s) == |AllUtf8(s)|
  {
    if s != "" {
      Utf8LengthCounts(s[1..]);
    }
  }

  /** `validAssignee`: an owner's name, unless it is too long without the space around it. */
  function ValidAssignee(raw: string): (owner: Option<string>)
    ensures owner.None? <==> Utf8Length(TrimSpace(raw)) > 128
    ensures owner.Some? ==> owner.value == TrimSpace(raw) && |owner.value| <= 128
  {
    var owner := TrimSpace(raw);
    if Utf8Length(owner) > MAX_ASSIGNEE then None else Some(owner)
  }

  /** The alert already holds what the change asks for. A note never does. */
  predicate AlreadySo(row: Row, change: Change)
  {
    match change
    case Acknowledge(on) => row.acknowledged.on == on
    case Assign(owner) => row.owner.name == owner
    case Close(on) => row.closed.on == on
    case AddNote(_) => false
  }

  function MarkedFlag(on: bool, act: Act): (f: Flag)
  {
    if on then Flag(true, Some(act.now), OperatorName(act.principal)) else OFF
  }

  function ChangedRow(row: Row, act: Act): (r: Row)
  {
    match act.change
    case Acknowledge(on) => row.(acknowledged := MarkedFlag(on, act))
    case Assign(owner) =>
      row.(owner := if owner == "" then NOBODY else Owner(owner, Some(act.now), OperatorName(act.principal)))
    case Close(on) => row.(closed := MarkedFlag(on, act))
    case AddNote(_) => row
  }

  function ChangeKind(change: Change): (k: EntryKind)
  {
    match change
    case Acknowledge(on) => if on then Acknowledged else Unacknowledged
    case Assign(owner) => if owner == "" then Unassigned else Assigned
    case Close(on) => if on then Closed else ReopenedLocally
    case AddNote(_) => Noted
  }

  function ChangeMessage(change: Change): (m: string)
  {
    match change
    case Acknowledge(on) => if on then "Alert acknowledged" else "Alert unacknowledged"
    case Assign(owner) => if owner == "" then "Assignment cleared" else ASSIGNED_PREFIX + owner
    case Close(on) => if on then "Closed by operator" else "Reopened by operator"
    case AddNote(_) => "Note added"
  }

  /** A close is announced like a resolution, any other change as an update. */
  function ChangeEvent(change: Change): (k: EventKind)
  {
    if change == Close(true) then EventResolved else EventUpdated
  }

  function ChangeEffect(id: nat, row: Row, act: Act): (eff: Effect)
    ensures eff.id == id
  {
    var out := ChangedRow(row, act);
    Effect(id, out,
           Some(Entry(id, row.occurrence, ChangeKind(act.change), row.status, OperatorName(act.principal),
                      ChangeMessage(act.change), act.now)),
           Some(MakeEvent(ChangeEvent(act.change), id, out, act.now, None)),
           if act.change.AddNote?
           then Some(Note(id, row.occurrence, OperatorName(act.principal), act.change.body, act.now))
           else None)
  }

  /** One alert, judged on its own. Out of scope and not there at all are the same answer. */
  function Operate(rx: Regex, db: Db, id: nat, act: Act): (r: (Db, Outcome))
    ensures |r.0.rows| == |db.rows|
  {
    if id >= |db.rows| || !Operable(rx, act.principal, db.rows[id].labels) then (db, NotFound)
    else if AlreadySo(db.rows[id], act.change) then (db, Unchanged)
    else (Apply(db, ChangeEffect(id, db.rows[id], act)), Applied)
  }

  // ---------------------------------------------------------------- the invariant

  lemma OwnerInMessage(owner: string)
    ensures (ASSIGNED_PREFIX + owner)[|ASSIGNED_PREFIX|..] == owner
  {
  }

  lemma AssignReplays(row: Row, id: nat, act: Act)
    requires act.change.Assign?
    ensures GoodEntry(row, ChangeEffect(id, row, act))
  {
    OwnerInMessage(act.change.owner);
  }

  /** A change replays from its own history entry. */
  lemma ChangeReplays(row: Row, id: nat, act: Act)
    ensures GoodEntry(row, ChangeEffect(id, row, act))
  {
    if act.change.Assign? {
      AssignReplays(row, id, act);
    }
  }

  lemma ChangeGood(row: Row, id: nat, act: Act)
    requires MarksComplete(row)
    ensures var eff := ChangeEffect(id, row, act);
            && MarksComplete(eff.row) && GoodEntry(row, eff) && GoodEvent(row, eff)
            && eff.row.source == row.source && eff.row.fingerprint == row.fingerprint
  {
    ChangeReplays(row, id, act);
  }

  lemma OperateKeepsInv(rx: Regex, db: Db, id: nat, act: Act)
    requires Inv(db)
    ensures Inv(Operate(rx, db, id, act).0)
  {
    if id < |db.rows| && Operable(rx, act.principal, db.rows[id].labels) && !AlreadySo(db.rows[id], act.change) {
      assert RowAgrees(db, id);
      ChangeGood(db.rows[id], id, act);
      RowChangeKeepsInv(db, ChangeEffect(id, db.rows[id], act));
    }
  }

  // ---------------------------------------------------------------- what a decision comes to

  /** Who did it: the subject, or the display name of a principal without one. */
  predicate NamedBy(p: Principal, name: string)
  {
    name == (if p.subject != "" then p.subject else if p.displayName != "" then p.displayName else "unknown")
  }

  /** What the change asks for is so already. A note always is something new. */
  predicate NothingToDo(row: Row, change: Change)
  {
    match change
    case Acknowledge(on) => if on then row.acknowledged.on else !row.acknowledged.on
    case Assign(owner) => row.owner.name == owner
    case Close(on) => if on then row.closed.on else !row.closed.on
    case AddNote(_) => false
  }

  /** Out of scope or absent: not found. Already so: unchanged. In either case nothing happens. Everything else is
      applied, notes above all. */
  lemma DecisionOutcome(rx: Regex, db: Db, id: nat, act: Act)
    ensures var (after, outcome) := Operate(rx, db, id, act);
            && (outcome.NotFound? <==> id >= |db.rows| || !Operable(rx, act.principal, db.rows[id].labels))
            && (outcome.Unchanged? <==> !outcome.NotFound? && NothingToDo(db.rows[id], act.change))
            && (!outcome.Applied? ==> after == db)
  {
  }

  /** An applied decision moves its own mark and no other, under the operator's name and at its time. */
  lemma DecisionLeaves(rx: Regex, db: Db, id: nat, act: Act, name: string)
    requires Operate(rx, db, id, act).1.Applied? && NamedBy(act.principal, name)
    ensures var row, after := db.rows[id], Operate(rx, db, id, act).0;
            && |after.rows| == |db.rows| && (forall i | 0 <= i < |db.rows| && i != id :: after.rows[i] == db.rows[i])
            && match act.change {
              case Acknowledge(on) =>
                after.rows[id] == row.(acknowledged := if on then Flag(true, Some(act.now), name)
                                                       else Flag(false, None, ""))
              case Close(on) =>
                after.rows[id] == row.(closed := if on then Flag(true, Some(act.now), name) else Flag(false, None, ""))
              case Assign(owner) =>
                after.rows[id] == row.(owner := if owner == "" then Owner("", None, "")
                                                else Owner(owner, Some(act.now), name))
              case AddNote(_) => after.rows[id] == row
            }
  {
  }

  /** ... and it is written down and announced for what it is. */
  lemma DecisionWrites(rx: Regex, db: Db, id: nat, act: Act, name: string)
    requires Operate(rx, db, id, act).1.Applied? && NamedBy(act.principal, name)
    ensures var row, after := db.rows[id], Operate(rx, db, id, act).0;
            && |after.history| == |db.history| + 1 && after.history[..|db.history|] == db.history
            && |after.log| == |db.log| + 1 && after.log[..|db.log|] == db.log
            && after.log[|db.log|].id == |db.log| + 1
            && var entry := after.history[|db.history|];
               && entry == Entry(id, row.occurrence, entry.kind, row.status, name, entry.message, act.now)
               && match act.change {
                 case Acknowledge(on) =>
                   && entry.kind == (if on then Acknowledged else Unacknowledged)
                   && entry.message == (if on then "Alert acknowledged" else "Alert unacknowledged")
                 case Close(on) =>
                   && entry.kind == (if on then Closed else ReopenedLocally)
                   && entry.message == (if on then "Closed by operator" else "Reopened by operator")
                 case Assign(owner) =>
                   && entry.kind == (if owner == "" then Unassigned else Assigned)
                   && entry.message == (if owner == "" then "Assignment cleared" else "Assigned to " + owner)
                 case AddNote(_) => entry.kind == Noted && entry.message == "Note added"
               }
  {
  }

  lemma DecisionTells(rx: Regex, db: Db, id: nat, act: Act, name: string)
    requires Operate(rx, db, id, act).1.Applied? && NamedBy(act.principal, name)
    ensures var row, after := db.rows[id], Operate(rx, db, id, act).0;
            && Told(db, after, if act.change == Close(true) then EventResolved else EventUpdated, id, after.rows[id],
                    act.now)
            && after.notes == match act.change {
              case AddNote(body) => db.notes + [Note(id, row.occurrence, name, body, act.now)]
              case Acknowledge(_) => db.notes
              case Assign(_) => db.notes
              case Close(_) => db.notes
            }
  {
    var eff := ChangeEffect(id, db.rows[id], act);
    ApplyTells(db, eff, if act.change == Close(true) then EventResolved else EventUpdated, eff.row, act.now);
  }

  // ---------------------------------------------------------------- a selection

  /** The distinct ids of a selection, in the order they first appear. */
  function Distinct(ids: seq<nat>): (r: seq<nat>)
  {
    if ids == [] then []
    else
      var front, last := ids[..|ids| - 1], ids[|ids| - 1];
      if last in front then Distinct(front) else Distinct(front) + [last]
  }

  /** Where an id first appears. */
  function FirstAt(ids: seq<nat>, id: nat): (k: nat)
    requires id in ids
    ensures k < |ids| && ids[k] == id && id !in ids[..k]
  {
    var front := ids[..|ids| - 1];
    assert ids == front + [ids[|ids| - 1]];
    if id in front then
      assert ids[..FirstAt(front, id)] == front[..FirstAt(front, id)];
      FirstAt(front, id)
    else |ids| - 1
  }

  lemma FirstAtGrows(ids: seq<nat>, last: nat, id: nat)
    requires id in ids
    ensures FirstAt(ids + [last], id) == FirstAt(ids, id)
  {
    assert (ids + [last])[..|ids|] == ids;
  }

  /** Each id of the selection once, none besides, in the order they first appear. */
  lemma {:induction false} DistinctIsExact(ids: seq<nat>)
    ensures forall x :: x in Distinct(ids) <==> x in ids
    ensures forall i, j | 0 <= i < j < |Distinct(ids)| ::
              Distinct(ids)[i] in ids && Distinct(ids)[j] in ids
                && FirstAt(ids, Distinct(ids)[i]) < FirstAt(ids, Distinct(ids)[j])
    ensures NoRepeats(Distinct(ids))
  {
    if ids != [] {
      var front, last := ids[..|ids| - 1], ids[|ids| - 1];
      assert ids == front + [last];
      DistinctIsExact(front);
      forall x | x in front ensures FirstAt(ids, x) == FirstAt(front, x) {
        FirstAtGrows(front, last, x);
      }
    }
  }

  /** The single-alert action applied to each id in turn, with what became of it. */
  function OperateEach(rx: Regex, db: Db, ids: seq<nat>, act: Act): (r: (Db, seq<(nat, Outcome)>))
    ensures |r.0.rows| == |db.rows|
    ensures |r.1| == |ids| && forall i | 0 <= i < |ids| :: r.1[i].0 == ids[i]
  {
    if ids == [] then (db, [])
    else
      var (before, outcomes) := OperateEach(rx, db, ids[..|ids| - 1], act);
      var (after, outcome) := Operate(rx, before, ids[|ids| - 1], act);
      (after, outcomes + [(ids[|ids| - 1], outcome)])
  }

  function Mentioned(ids: seq<nat>): (s: set<nat>)
  {
    set k | 0 <= k < |ids| :: ids[k]
  }

  lemma MentionedNext(ids: seq<nat>, i: nat)
    requires i < |ids|
    ensures Mentioned(ids[..i + 1]) == Mentioned(ids[..i]) + {ids[i]}
  {
  }

  lemma DistinctStep(ids: seq<nat>, i: nat)
    requires i < |ids|
    ensures Distinct(ids[..i + 1]) ==
            if ids[i] in Mentioned(ids[..i]) then Distinct(ids[..i]) else Distinct(ids[..i]) + [ids[i]]
  {
    assert ids[..i + 1][..i] == ids[..i];
  }

  lemma OperateEachAppend(rx: Regex, db: Db, ids: seq<nat>, id: nat, act: Act)
    ensures var (before, outcomes) := OperateEach(rx, db, ids, act);
            var (after, outcome) := Operate(rx, before, id, act);
            OperateEach(rx, db, ids + [id], act) == (after, outcomes + [(id, outcome)])
  {
    assert (ids + [id])[..|ids|] == ids;
  }

  /** One more id of a selection: it is operated on unless it was before. */
  lemma OperateEachNext(rx: Regex, db: Db, ids: seq<nat>, i: nat, act: Act, before: Db, outcomes: seq<(nat, Outcome)>)
    requires i < |ids| && OperateEach(rx, db, Distinct(ids[..i]), act) == (before, outcomes)
    ensures var (after, outcome) := Operate(rx, before, ids[i], act);
            OperateEach(rx, db, Distinct(ids[..i + 1]), act) ==
            if ids[i] in Mentioned(ids[..i]) then (before, outcomes) else (after, outcomes + [(ids[i], outcome)])
  {
    DistinctStep(ids, i);
    OperateEachAppend(rx, db, Distinct(ids[..i]), ids[i], act);
  }

  lemma {:induction false} OperateEachKeepsInv(rx: Regex, db: Db, ids: seq<nat>, act: Act)
    requires Inv(db)
    ensures Inv(OperateEach(rx, db, ids, act).0)
  {
    if ids != [] {
      OperateEachKeepsInv(rx, db, ids[..|ids| - 1], act);
      OperateKeepsInv(rx, OperateEach(rx, db, ids[..|ids| - 1], act).0, ids[|ids| - 1], act);
    }
  }

  function CountApplied(outcomes: seq<(nat, Outcome)>): (n: nat)
  {
    if outcomes == [] then 0
    else CountApplied(outcomes[..|outcomes| - 1]) + (if outcomes[|outcomes| - 1].1.Applied? then 1 else 0)
  }

  /** Applied exactly when one history entry and one stream event were written. */
  lemma {:induction false} AppliedIsWritten(rx: Regex, db: Db, ids: seq<nat>, act: Act)
    ensures var (out, outcomes) := OperateEach(rx, db, ids, act);
            && |out.history| == |db.history| + CountApplied(outcomes)
            && |out.log| == |db.log| + CountApplied(outcomes)
  {
    if ids != [] {
      var (before, outcomes) := OperateEach(rx, db, ids[..|ids| - 1], act);
      AppliedIsWritten(rx, db, ids[..|ids| - 1], act);
      var all := OperateEach(rx, db, ids, act).1;
      assert all[..|all| - 1] == outcomes;
    }
  }

  // ---------------------------------------------------------------- a selection is its alerts, one by one

  lemma OperateElsewhere(rx: Regex, db: Db, id: nat, act: Act, other: nat)
    requires other != id
    ensures other < |db.rows| ==> Operate(rx, db, id, act).0.rows[other] == db.rows[other]
    ensures EntriesFor(Operate(rx, db, id, act).0.history, other) == EntriesFor(db.history, other)
    ensures EventsFor(Operate(rx, db, id, act).0.log, other) == EventsFor(db.log, other)
  {
    if Operate(rx, db, id, act).1.Applied? {
      WritesAppend(db, ChangeEffect(id, db.rows[id], act), other);
    }
  }

  /** An alert outside the selection is not touched and not mentioned. */
  lemma {:induction false} BulkLeavesOthers(rx: Regex, db: Db, ids: seq<nat>, act: Act, other: nat)
    requires other !in ids
    ensures var out := OperateEach(rx, db, ids, act).0;
            && (other < |db.rows| ==> out.rows[other] == db.rows[other])
            && EntriesFor(out.history, other) == EntriesFor(db.history, other)
            && EventsFor(out.log, other) == EventsFor(db.log, other)
  {
    if ids != [] {
      BulkLeavesOthers(rx, db, ids[..|ids| - 1], act, other);
      OperateElsewhere(rx, OperateEach(rx, db, ids[..|ids| - 1], act).0, ids[|ids| - 1], act, other);
    }
  }

  lemma OperateHere(rx: Regex, a: Db, b: Db, id: nat, act: Act)
    requires |a.rows| == |b.rows| && (id < |a.rows| ==> a.rows[id] == b.rows[id])
    ensures Operate(rx, a, id, act).1 == Operate(rx, b, id, act).1
    ensures id < |a.rows| ==> Operate(rx, a, id, act).0.rows[id] == Operate(rx, b, id, act).0.rows[id]
    ensures var one := if Operate(rx, a, id, act).1.Applied? then 1 else 0;
            && EntriesFor(Operate(rx, a, id, act).0.history, id) == EntriesFor(a.history, id) + one
            && EventsFor(Operate(rx, a, id, act).0.log, id) == EventsFor(a.log, id) + one
  {
    if Operate(rx, a, id, act).1.Applied? {
      WritesAppend(a, ChangeEffect(id, a.rows[id], act), id);
    }
  }

  /** Each alert of a selection ends up as the action on it alone would leave it, with the
      same outcome; one entry and one event are written about it if it was applied, and none otherwise. */
  lemma {:induction false} BulkIsEachAlone(rx: Regex, db: Db, ids: seq<nat>, act: Act, i: nat)
    requires i < |ids| && NoRepeats(ids)
    ensures var (out, outcomes) := OperateEach(rx, db, ids, act);
            var (alone, outcome) := Operate(rx, db, ids[i], act);
            var one := if outcome.Applied? then 1 else 0;
            && outcomes[i] == (ids[i], outcome)
            && (ids[i] < |db.rows| ==> out.rows[ids[i]] == alone.rows[ids[i]])
            && EntriesFor(out.history, ids[i]) == EntriesFor(db.history, ids[i]) + one
            && EventsFor(out.log, ids[i]) == EventsFor(db.log, ids[i]) + one
  {
    var front, last := ids[..|ids| - 1], ids[|ids| - 1];
    var before := OperateEach(rx, db, front, act).0;
    if i < |front| {
      BulkIsEachAlone(rx, db, front, act, i);
      OperateElsewhere(rx, before, last, act, ids[i]);
    } else {
      BulkLeavesOthers(rx, db, front, act, last);
      OperateHere(rx, before, db, last, act);
    }
  }

  // ---------------------------------------------------------------- repeating a decision

  /** The alert needs nothing more from this act: out of reach, or already so. */
  predicate Satisfied(rx: Regex, db: Db, id: nat, act: Act)
  {
    id >= |db.rows| || !Operable(rx, act.principal, db.rows[id].labels) || AlreadySo(db.rows[id], act.change)
  }

  lemma OperateSatisfies(rx: Regex, db: Db, id: nat, act: Act, other: nat)
    requires !act.change.AddNote?
    ensures Satisfied(rx, Operate(rx, db, id, act).0, id, act)
    ensures Satisfied(rx, db, other, act) ==> Satisfied(rx, Operate(rx, db, id, act).0, other, act)
  {
  }

  lemma {:induction false} EachSatisfies(rx: Regex, db: Db, ids: seq<nat>, act: Act, i: nat)
    requires !act.change.AddNote? && i < |ids|
    ensures Satisfied(rx, OperateEach(rx, db, ids, act).0, ids[i], act)
  {
    var front := ids[..|ids| - 1];
    var before := OperateEach(rx, db, front, act).0;
    if i < |front| {
      EachSatisfies(rx, db, front, act, i);
      assert front[i] == ids[i];
    }
    OperateSatisfies(rx, before, ids[|ids| - 1], act, ids[i]);
  }

  lemma {:induction false} SatisfiedStaysPut(rx: Regex, db: Db, ids: seq<nat>, act: Act)
    requires forall i | 0 <= i < |ids| :: Satisfied(rx, db, ids[i], act)
    ensures OperateEach(rx, db, ids, act).0 == db
    ensures CountApplied(OperateEach(rx, db, ids, act).1) == 0
  {
    if ids != [] {
      var front := ids[..|ids| - 1];
      assert forall i | 0 <= i < |front| :: front[i] == ids[i];
      SatisfiedStaysPut(rx, db, front, act);
      var all := OperateEach(rx, db, ids, act).1;
      assert all[..|all| - 1] == OperateEach(rx, db, front, act).1;
    }
  }

  /** Repeating an acknowledge, assign or close over a selection applies to nothing and writes nothing. */
  lemma RepeatingAppliesNothing(rx: Regex, db: Db, ids: seq<nat>, act: Act, later: int)
    requires !act.change.AddNote?
    ensures var once := OperateEach(rx, db, ids, act).0;
            var again := OperateEach(rx, once, ids, act.(now := later));
            again.0 == once && CountApplied(again.1) == 0
  {
    var once := OperateEach(rx, db, ids, act).0;
    forall i | 0 <= i < |ids| ensures Satisfied(rx, once, ids[i], act.(now := later)) {
      EachSatisfies(rx, db, ids, act, i);
    }
    SatisfiedStaysPut(rx, once, ids, act.(now := later));
  }
}
