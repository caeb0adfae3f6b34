/**
  The reconciliation loop's memory. A source is believed about an ending only after two
  consecutive trustworthy readings; failed reads and refresh passes may fall anywhere.
 */
module Reconciler {
  import opened Prelude
  import opened AlertModel
  import opened Reconcile
  import Lifecycle
  import opened Store

  const MISSES_BEFORE_RESOLVING: nat := 2

  type Counters = map<string, nat>

  // ---------------------------------------------------------------- what was observed

  /** One observation, as far as the counters are concerned. `applied` is whether the store accepted
      the pass that followed the reading. */
  datatype Seen =
    | Listed(slugs: set<string>)
    | Unreadable(slug: string)
    | Read(slug: string, live: set<string>, stored: seq<string>, applied: bool)
    | Refreshed(slug: string)

  /** Nothing at all while alerts are stored firing looks like a restart, not a quiet fleet. */
  predicate Trustworthy(live: set<string>, stored: seq<string>)
  {
    |live| > 0 || |stored| == 0
  }

  /** A trustworthy reading of this source in which the alert was stored firing and not on the live list. */
  predicate Absent(e: Seen, slug: string, fp: string)
  {
    e.Read? && e.slug == slug && Trustworthy(e.live, e.stored) && fp in e.stored && fp !in e.live
  }

  /** An observation that leaves this source's counters alone. */
  predicate Neutral(e: Seen, slug: string)
  {
    match e
    case Listed(slugs) => slug in slugs
    case Unreadable(_) => true
    case Read(s, _, _, _) => s != slug
    case Refreshed(_) => true
  }

  /** The current unbroken run of absences; a conclusion that the store accepted starts it over. */
  ghost function Streak(trace: seq<Seen>, slug: string, fp: string): (n: nat)
  {
    if trace == [] then 0
    else
      var e := trace[|trace| - 1];
      var before := Streak(trace[..|trace| - 1], slug, fp);
      if Neutral(e, slug) then before
      else if !Absent(e, slug, fp) then 0
      else if before + 1 >= MISSES_BEFORE_RESOLVING && e.applied then 0
      else before + 1
  }

  // ---------------------------------------------------------------- what a reading does to the counters

  function CountOf(misses: map<string, Counters>, slug: string, fp: string): (n: nat)
  {
    if slug in misses && fp in misses[slug] then misses[slug][fp] else 0
  }

  function Counter(counters: Counters, fp: string): (n: nat) { if fp in counters then counters[fp] else 0 }

  function CountersFor(misses: map<string, Counters>, slug: string): (c: Counters)
  {
    if slug in misses then misses[slug] else map[]
  }

  /** Every absent stored alert one higher, every other counter gone. */
  function Tallied(counters: Counters, live: set<string>, stored: seq<string>): (r: Counters)
  {
    if Trustworthy(live, stored) then map fp | fp in stored && fp !in live :: Counter(counters, fp) + 1 else map[]
  }

  function MissingOf(tallied: Counters): (fps: set<string>)
  {
    set fp | fp in tallied && tallied[fp] >= MISSES_BEFORE_RESOLVING
  }

  function AfterPass(tallied: Counters, applied: bool): (r: Counters)
  {
    if applied then tallied - MissingOf(tallied) else tallied
  }

  // ---------------------------------------------------------------- the whole system

  datatype Machine = Machine(db: Db, misses: map<string, Counters>, trace: seq<Seen>)

  datatype Step =
    | Write(op: Lifecycle.Op)
    | List(slugs: set<string>)
    | Fail(slug: string)
    | Pass(slug: string, live: seq<LiveAlert>, stored: seq<string>, activeSilences: Option<set<string>>, applied: bool,
           now: int)
    | Refresh(slug: string, live: seq<LiveAlert>, activeSilences: Option<set<string>>, now: int)

  function MissingNow(m: Machine, slug: string, live: seq<LiveAlert>, stored: seq<string>): (fps: set<string>)
  {
    MissingOf(Tallied(CountersFor(m.misses, slug), LiveMap(live).Keys, stored))
  }

  function PassOver(m: Machine, slug: string, live: seq<LiveAlert>, stored: seq<string>,
                    activeSilences: Option<set<string>>,
                    applied: bool, now: int): (r: Machine)
  {
    var tallied := Tallied(CountersFor(m.misses, slug), LiveMap(live).Keys, stored);
    Machine(
      if !applied then m.db
      else Reconcile.ReconcileSource(m.db, Reading(slug, LiveMap(live), MissingOf(tallied), activeSilences, now)).0,
      m.misses[slug := AfterPass(tallied, applied)],
      m.trace + [Read(slug, LiveMap(live).Keys, stored, applied)])
  }

  function Forget(m: Machine, listed: set<string>): (r: Machine)
  {
    m.(misses := m.misses - (m.misses.Keys - listed), trace := m.trace + [Listed(listed)])
  }

  /** Writers of every kind act between passes; aligning with a source happens only through a pass. */
  ghost function Next(rx: Regex, m: Machine, step: Step): (r: Machine)
  {
    match step
    case Write(op) => if op.Align? then m else m.(db := Lifecycle.Perform(rx, m.db, op))
    case List(slugs) => Forget(m, slugs)
    case Fail(slug) => m.(trace := m.trace + [Unreadable(slug)])
    case Pass(slug, live, stored, activeSilences, applied, now) => PassOver(m, slug, live, stored, activeSilences,
                                                                            applied, now)
    case Refresh(slug, live, activeSilences, now) =>
      m.(db := Reconcile.ReconcileSource(m.db, Reading(slug, LiveMap(live), {}, activeSilences, now)).0,
         trace := m.trace + [Refreshed(slug)])
  }

  ghost function Run(rx: Regex, steps: seq<Step>): (m: Machine)
  {
    if steps == [] then Machine(EMPTY_DB, map[], []) else Next(rx, Run(rx, steps[..|steps| - 1]), steps[|steps| - 1])
  }

  // ---------------------------------------------------------------- counters are streaks

  ghost predicate CountersAreStreaks(misses: map<string, Counters>, trace: seq<Seen>)
  {
    forall slug, fp :: CountOf(misses, slug, fp) == Streak(trace, slug, fp)
  }

  lemma StreakNext(trace: seq<Seen>, e: Seen, slug: string, fp: string)
    ensures Streak(trace + [e], slug, fp) ==
            var before := Streak(trace, slug, fp);
            if Neutral(e, slug) then before
            else if !Absent(e, slug, fp) then 0
            else if before + 1 >= MISSES_BEFORE_RESOLVING && e.applied then 0
            else before + 1
  {
    assert (trace + [e])[..|trace|] == trace;
  }

  lemma PassCounts(m: Machine, slug: string, live: seq<LiveAlert>, stored: seq<string>,
                   activeSilences: Option<set<string>>,
                   applied: bool, now: int, other: string, fp: string)
    requires CountOf(m.misses, other, fp) == Streak(m.trace, other, fp)
    ensures var r := PassOver(m, slug, live, stored, activeSilences, applied, now);
            CountOf(r.misses, other, fp) == Streak(r.trace, other, fp)
  {
    StreakNext(m.trace, Read(slug, LiveMap(live).Keys, stored, applied), other, fp);
  }

  lemma PassKeepsStreaks(m: Machine, slug: string, live: seq<LiveAlert>, stored: seq<string>,
                         activeSilences: Option<set<string>>,
                         applied: bool, now: int)
    requires CountersAreStreaks(m.misses, m.trace)
    ensures var r := PassOver(m, slug, live, stored, activeSilences, applied, now);
            CountersAreStreaks(r.misses, r.trace)
  {
    var r := PassOver(m, slug, live, stored, activeSilences, applied, now);
    forall other, fp ensures CountOf(r.misses, other, fp) == Streak(r.trace, other, fp) {
      PassCounts(m, slug, live, stored, activeSilences, applied, now, other, fp);
    }
  }

  /** An observation that changes no counter, or only drops sources no longer listed. */
  lemma OtherKeepsStreaks(misses: map<string, Counters>, trace: seq<Seen>, e: Seen)
    requires CountersAreStreaks(misses, trace) && !e.Read?
    ensures CountersAreStreaks(if e.Listed? then misses - (misses.Keys - e.slugs) else misses, trace + [e])
  {
    var r := if e.Listed? then misses - (misses.Keys - e.slugs) else misses;
    forall slug, fp ensures CountOf(r, slug, fp) == Streak(trace + [e], slug, fp) {
      StreakNext(trace, e, slug, fp);
    }
  }

  lemma NextKeepsStreaks(rx: Regex, m: Machine, step: Step)
    requires CountersAreStreaks(m.misses, m.trace)
    ensures CountersAreStreaks(Next(rx, m, step).misses, Next(rx, m, step).trace)
  {
    match step
    case Write(op) =>
    case List(slugs) => OtherKeepsStreaks(m.misses, m.trace, Listed(slugs));
    case Fail(slug) => OtherKeepsStreaks(m.misses, m.trace, Unreadable(slug));
    case Pass(slug, live, stored, activeSilences, applied, now) =>
      PassKeepsStreaks(m, slug, live, stored, activeSilences, applied, now);
    case Refresh(slug, _, _, _) => OtherKeepsStreaks(m.misses, m.trace, Refreshed(slug));
  }

  /** In every run, every counter is the length of the current streak. */
  lemma {:induction false} CountersFollowReadings(rx: Regex, steps: seq<Step>)
    ensures CountersAreStreaks(Run(rx, steps).misses, Run(rx, steps).trace)
  {
    if steps != [] {
      CountersFollowReadings(rx, steps[..|steps| - 1]);
      NextKeepsStreaks(rx, Run(rx, steps[..|steps| - 1]), steps[|steps| - 1]);
    }
  }

  // ---------------------------------------------------------------- two readings

  /** The latest observation that was not neutral is an absence, at `i`. */
  ghost predicate LatestAbsence(trace: seq<Seen>, slug: string, fp: string, i: nat)
  {
    && i < |trace| && Absent(trace[i], slug, fp)
    && (forall k | i < k < |trace| :: Neutral(trace[k], slug))
  }

  /** The absence at `i` was itself the end of a streak, and was acted upon. */
  ghost predicate ActedUpon(trace: seq<Seen>, slug: string, fp: string, i: nat)
    requires i < |trace|
  {
    trace[i].Read? && trace[i].applied && Streak(trace[..i], slug, fp) + 1 >= MISSES_BEFORE_RESOLVING
  }

  ghost predicate Pending(trace: seq<Seen>, slug: string, fp: string)
  {
    exists i: nat :: LatestAbsence(trace, slug, fp, i) && !ActedUpon(trace, slug, fp, i)
  }

  lemma {:induction false} StreakIsPending(trace: seq<Seen>, slug: string, fp: string)
    ensures Streak(trace, slug, fp) >= 1 <==> Pending(trace, slug, fp)
  {
    if trace != [] {
      var front, e := trace[..|trace| - 1], trace[|trace| - 1];
      StreakIsPending(front, slug, fp);
      if Neutral(e, slug) {
        if Pending(front, slug, fp) {
          var i: nat :| LatestAbsence(front, slug, fp, i) && !ActedUpon(front, slug, fp, i);
          assert trace[..i] == front[..i];
          assert LatestAbsence(trace, slug, fp, i);
        }
        if Pending(trace, slug, fp) {
          var i: nat :| LatestAbsence(trace, slug, fp, i) && !ActedUpon(trace, slug, fp, i);
          assert i < |front|;
          assert trace[..i] == front[..i];
          assert forall k | i < k < |front| :: Neutral(front[k], slug) by {
            assert forall k | i < k < |front| :: front[k] == trace[k];
          }
          assert LatestAbsence(front, slug, fp, i);
        }
      } else if Absent(e, slug, fp) {
        assert LatestAbsence(trace, slug, fp, |front|);
      }
    }
  }

  /** Exactly when a pass declares an alert missing: it is absent now, and the reading before this one
      that said anything was an absence too, not yet acted upon. */
  lemma MissingExactly(m: Machine, slug: string, live: seq<LiveAlert>, stored: seq<string>, fp: string)
    requires CountersAreStreaks(m.misses, m.trace)
    ensures fp in MissingNow(m, slug, live, stored) <==>
            && Absent(Read(slug, LiveMap(live).Keys, stored, true), slug, fp)
            && Pending(m.trace, slug, fp)
  {
    StreakIsPending(m.trace, slug, fp);
    assert CountOf(m.misses, slug, fp) == Streak(m.trace, slug, fp);
  }

  /** Two absences with nothing but neutral observations between them. */
  ghost predicate TwoInARow(trace: seq<Seen>, slug: string, fp: string, i: nat, j: nat)
  {
    && i < j < |trace| && Absent(trace[i], slug, fp) && Absent(trace[j], slug, fp)
    && (forall k | i < k < j :: Neutral(trace[k], slug))
  }

  /** The reading at `j` is the second in a row, and the one before it had not ended anything itself. */
  ghost predicate SecondAbsence(trace: seq<Seen>, slug: string, fp: string, j: nat)
  {
    exists i: nat :: TwoInARow(trace, slug, fp, i, j) && !ActedUpon(trace, slug, fp, i)
  }

  lemma SecondOfTwo(trace: seq<Seen>, e: Seen, slug: string, fp: string)
    requires Absent(e, slug, fp) && Pending(trace, slug, fp)
    ensures SecondAbsence(trace + [e], slug, fp, |trace|)
  {
    var i: nat :| LatestAbsence(trace, slug, fp, i) && !ActedUpon(trace, slug, fp, i);
    var longer := trace + [e];
    assert longer[i] == trace[i] && longer[..i] == trace[..i];
    assert forall k | i < k < |trace| :: longer[k] == trace[k];
    assert TwoInARow(longer, slug, fp, i, |trace|) && !ActedUpon(longer, slug, fp, i);
  }

  lemma PassEndsAfterTwo(m: Machine, slug: string, live: seq<LiveAlert>, stored: seq<string>,
                         activeSilences: Option<set<string>>,
                         applied: bool, now: int, id: nat)
    requires CountersAreStreaks(m.misses, m.trace) && id < |m.db.rows| && m.db.rows[id].status != Resolved
    requires PassOver(m, slug, live, stored, activeSilences, applied, now).db.rows[id].status == Resolved
    ensures applied && m.db.rows[id].status == Firing && m.db.rows[id].source == slug
    ensures SecondAbsence(PassOver(m, slug, live, stored, activeSilences, applied, now).trace, slug,
                          m.db.rows[id].fingerprint, |m.trace|)
  {
    var row := m.db.rows[id];
    ReconcileRespects(m.db, Reading(slug, LiveMap(live), MissingNow(m, slug, live, stored), activeSilences, now), id);
    MissingExactly(m, slug, live, stored, row.fingerprint);
    SecondOfTwo(m.trace, Read(slug, LiveMap(live).Keys, stored, applied), slug, row.fingerprint);
  }

  lemma SecondMeansPending(trace: seq<Seen>, e: Seen, slug: string, fp: string)
    requires SecondAbsence(trace + [e], slug, fp, |trace|)
    ensures Absent(e, slug, fp) && Pending(trace, slug, fp)
  {
    var longer := trace + [e];
    var i: nat :| TwoInARow(longer, slug, fp, i, |trace|) && !ActedUpon(longer, slug, fp, i);
    assert longer[i] == trace[i] && longer[..i] == trace[..i];
    forall k | i < k < |trace| ensures Neutral(trace[k], slug) {
      assert longer[k] == trace[k];
    }
    assert LatestAbsence(trace, slug, fp, i) && !ActedUpon(trace, slug, fp, i);
  }

  /** The rule is exact: an accepted pass ends a firing alert of its source if and only if its reading is the
      second such absence. */
  lemma PassEndsExactly(m: Machine, slug: string, live: seq<LiveAlert>, stored: seq<string>,
                        activeSilences: Option<set<string>>,
                        now: int, id: nat)
    requires CountersAreStreaks(m.misses, m.trace) && id < |m.db.rows|
    requires m.db.rows[id].status == Firing && m.db.rows[id].source == slug
    ensures var after := PassOver(m, slug, live, stored, activeSilences, true, now);
            after.db.rows[id].status == Resolved <==>
            SecondAbsence(after.trace, slug, m.db.rows[id].fingerprint, |m.trace|)
  {
    var row, e := m.db.rows[id], Read(slug, LiveMap(live).Keys, stored, true);
    ReconciledRows(m.db, Reading(slug, LiveMap(live), MissingNow(m, slug, live, stored), activeSilences, now), id);
    MissingExactly(m, slug, live, stored, row.fingerprint);
    if SecondAbsence(m.trace + [e], slug, row.fingerprint, |m.trace|) {
      SecondMeansPending(m.trace, e, slug, row.fingerprint);
    } else if PassOver(m, slug, live, stored, activeSilences, true, now).db.rows[id].status == Resolved {
      PassEndsAfterTwo(m, slug, live, stored, activeSilences, true, now, id);
    }
  }

  /** What may end an alert without an operator or the source itself saying so. */
  lemma EndingNeedsTwo(rx: Regex, m: Machine, step: Step, id: nat)
    requires CountersAreStreaks(m.misses, m.trace) && !step.Write?
    requires id < |m.db.rows| && m.db.rows[id].status != Resolved
    requires id < |Next(rx, m, step).db.rows| && Next(rx, m, step).db.rows[id].status == Resolved
    ensures step.Pass? && step.applied && m.db.rows[id].status == Firing && m.db.rows[id].source == step.slug
    ensures SecondAbsence(Next(rx, m, step).trace, step.slug, m.db.rows[id].fingerprint, |m.trace|)
  {
    if step.Refresh? {
      ReconcileRespects(m.db, Reading(step.slug, LiveMap(step.live), {}, step.activeSilences, step.now), id);
    } else if step.Pass? {
      PassEndsAfterTwo(m, step.slug, step.live, step.stored, step.activeSilences, step.applied, step.now, id);
    }
  }

  /** A source that lists nothing while alerts of it are stored firing looks like one that restarted: such a pass ends
      nothing, whatever was counted before it, and the counting starts over. */
  lemma EmptyReadingEndsNothing(m: Machine, slug: string, stored: seq<string>, activeSilences: Option<set<string>>,
                                applied: bool, now: int)
    requires stored != []
    ensures var after := PassOver(m, slug, [], stored, activeSilences, applied, now);
            && slug in after.misses && after.misses[slug] == map[]
            && |after.db.rows| == |m.db.rows|
            && forall id | 0 <= id < |m.db.rows| && m.db.rows[id].status != Resolved ::
                 after.db.rows[id].status != Resolved
  {
    var r := Reading(slug, LiveMap([]), MissingNow(m, slug, [], stored), activeSilences, now);
    forall id | 0 <= id < |m.db.rows| && m.db.rows[id].status != Resolved
      ensures Reconcile.ReconcileSource(m.db, r).0.rows[id].status != Resolved
    {
      ReconcileRespects(m.db, r, id);
    }
  }

  /** Nothing counted, nothing ended: the first reading of a source, or the first after it was delisted, can
      at most start a count. */
  lemma FirstReadingEndsNothing(m: Machine, slug: string, live: seq<LiveAlert>, stored: seq<string>,
                                activeSilences: Option<set<string>>, applied: bool, now: int)
    requires slug !in m.misses
    ensures var after := PassOver(m, slug, live, stored, activeSilences, applied, now);
            && |after.db.rows| == |m.db.rows|
            && forall id | 0 <= id < |m.db.rows| && m.db.rows[id].status != Resolved ::
                 after.db.rows[id].status != Resolved
  {
    var r := Reading(slug, LiveMap(live), MissingNow(m, slug, live, stored), activeSilences, now);
    forall id | 0 <= id < |m.db.rows| && m.db.rows[id].status != Resolved
      ensures Reconcile.ReconcileSource(m.db, r).0.rows[id].status != Resolved
    {
      ReconcileRespects(m.db, r, id);
    }
  }

  lemma SomethingListed(live: seq<LiveAlert>)
    requires live != []
    ensures |LiveMap(live).Keys| > 0
  {
    assert live[0].fingerprint in LiveMap(live).Keys;
  }

  predicate Lists(live: seq<LiveAlert>, fp: string) { exists i | 0 <= i < |live| :: live[i].fingerprint == fp }

  lemma UnlistedIsTallied(counters: Counters, live: seq<LiveAlert>, stored: seq<string>, fp: string)
    requires live != [] && fp in stored && !Lists(live, fp)
    ensures var tallied := Tallied(counters, LiveMap(live).Keys, stored);
            fp in tallied && tallied[fp] == Counter(counters, fp) + 1
  {
    SomethingListed(live);
  }

  lemma MissingIsEnded(m: Machine, slug: string, live: seq<LiveAlert>, stored: seq<string>,
                       activeSilences: Option<set<string>>, now: int, id: nat)
    requires id < |m.db.rows| && m.db.rows[id].fingerprint in MissingNow(m, slug, live, stored)
    requires !Lists(live, m.db.rows[id].fingerprint)
    ensures var out := PassOver(m, slug, live, stored, activeSilences, true, now).db.rows[id];
            !(out.source == slug && out.status == Firing)
  {
    ReconciledRows(m.db, Reading(slug, LiveMap(live), MissingNow(m, slug, live, stored), activeSilences, now), id);
  }

  /** A pass that lists something but not this alert, stored firing, ends it or leaves a count for it. */
  lemma UnlistedIsCounted(m: Machine, slug: string, live: seq<LiveAlert>, stored: seq<string>,
                          activeSilences: Option<set<string>>, applied: bool, now: int, id: nat)
    requires live != [] && id < |m.db.rows| && m.db.rows[id].fingerprint in stored
             && !Lists(live, m.db.rows[id].fingerprint)
    requires var after := PassOver(m, slug, live, stored, activeSilences, applied, now);
             after.db.rows[id].source == slug && after.db.rows[id].status == Firing
    ensures CountOf(PassOver(m, slug, live, stored, activeSilences, applied, now).misses, slug,
                    m.db.rows[id].fingerprint) >= 1
  {
    var fp := m.db.rows[id].fingerprint;
    UnlistedIsTallied(CountersFor(m.misses, slug), live, stored, fp);
    if applied && fp in MissingNow(m, slug, live, stored) {
      MissingIsEnded(m, slug, live, stored, activeSilences, now, id);
    }
  }

  lemma CountedIsEnded(m: Machine, slug: string, live: seq<LiveAlert>, stored: seq<string>,
                       activeSilences: Option<set<string>>, now: int, id: nat)
    requires live != [] && id < |m.db.rows| && m.db.rows[id].source == slug && m.db.rows[id].status == Firing
    requires m.db.rows[id].fingerprint in stored && !Lists(live, m.db.rows[id].fingerprint)
    requires CountOf(m.misses, slug, m.db.rows[id].fingerprint) >= 1
    ensures PassOver(m, slug, live, stored, activeSilences, true, now).db.rows[id].status == Resolved
  {
    UnlistedIsTallied(CountersFor(m.misses, slug), live, stored, m.db.rows[id].fingerprint);
    ReconciledRows(m.db, Reading(slug, LiveMap(live), MissingNow(m, slug, live, stored), activeSilences, now), id);
  }

  /** Two passes in a row that list something but not this alert, stored firing both times, do end it. */
  lemma TwoReadingsEnd(m: Machine, slug: string, live1: seq<LiveAlert>, live2: seq<LiveAlert>, stored1: seq<string>,
                       stored2: seq<string>, silences1: Option<set<string>>, silences2: Option<set<string>>,
                       applied: bool, now1: int, now2: int, id: nat)
    requires live1 != [] && live2 != [] && id < |m.db.rows|
    requires var once, fp := PassOver(m, slug, live1, stored1, silences1, applied, now1), m.db.rows[id].fingerprint;
             && once.db.rows[id].source == slug && once.db.rows[id].status == Firing
             && fp in stored1 && !Lists(live1, fp) && fp in stored2 && !Lists(live2, fp)
    ensures var once := PassOver(m, slug, live1, stored1, silences1, applied, now1);
            PassOver(once, slug, live2, stored2, silences2, true, now2).db.rows[id].status == Resolved
  {
    var once := PassOver(m, slug, live1, stored1, silences1, applied, now1);
    if applied {
      ReconcileRespects(m.db, Reading(slug, LiveMap(live1), MissingNow(m, slug, live1, stored1), silences1, now1), id);
    }
    UnlistedIsCounted(m, slug, live1, stored1, silences1, applied, now1, id);
    CountedIsEnded(once, slug, live2, stored2, silences2, now2, id);
  }

  /** A listing forgets the sources it leaves out and no other. Failed reads count nothing, and neither do reads made to
      refresh. Other writers act as they always do, and only passes align a source. */
  lemma OnlyPassesCount(rx: Regex, m: Machine, step: Step)
    requires !step.Pass?
    ensures var after := Next(rx, m, step);
            && (!step.List? ==> after.misses == m.misses)
            && (step.List? ==>
                  && after.db == m.db
                  && forall slug :: if slug in m.misses && slug in step.slugs
                                    then slug in after.misses && after.misses[slug] == m.misses[slug]
                                    else slug !in after.misses)
            && (step.Fail? ==> after.db == m.db)
            && (step.Write? ==> after.db == if step.op.Align? then m.db else Lifecycle.Perform(rx, m.db, step.op))
  {
  }

  predicate UnlistedIn(e: Seen, slug: string, fp: string)
  {
    e.Read? && e.slug == slug && e.live != {} && fp in e.stored && fp !in e.live
  }

  predicate Untouched(e: Seen, slug: string)
  {
    (e.Read? ==> e.slug != slug) && (e.Listed? ==> slug in e.slugs)
  }

  /** Read twice, each time listing something but not this alert, which was stored firing; and in between the source was
      neither read nor left out of a listing. */
  ghost predicate UnlistedTwice(trace: seq<Seen>, slug: string, fp: string, j: nat)
  {
    exists i: nat :: i < j < |trace| && UnlistedIn(trace[i], slug, fp) && UnlistedIn(trace[j], slug, fp)
                     && forall k | i < k < j :: Untouched(trace[k], slug)
  }

  lemma SecondIsUnlistedTwice(trace: seq<Seen>, slug: string, fp: string, j: nat)
    requires SecondAbsence(trace, slug, fp, j)
    ensures UnlistedTwice(trace, slug, fp, j)
  {
    var i: nat :| TwoInARow(trace, slug, fp, i, j) && !ActedUpon(trace, slug, fp, i);
    forall k | i < k < j ensures Untouched(trace[k], slug) {
      assert Neutral(trace[k], slug);
    }
    assert UnlistedIn(trace[i], slug, fp) && UnlistedIn(trace[j], slug, fp);
  }

  /** In every run, whatever failed, empty or refreshing passes are interleaved, reconciliation resolves
      an alert only at the second of two consecutive trustworthy readings in which it was stored firing
      and absent from its own source's live list, the first of which had not itself ended it before. */
  lemma ResolvedOnlyAfterTwoReadings(rx: Regex, steps: seq<Step>, step: Step, id: nat)
    requires !step.Write?
    ensures var m := Run(rx, steps);
            var after := Run(rx, steps + [step]);
            && id < |m.db.rows| && id < |after.db.rows|
            && m.db.rows[id].status != Resolved && after.db.rows[id].status == Resolved ==>
              && SecondAbsence(after.trace, m.db.rows[id].source, m.db.rows[id].fingerprint, |m.trace|)
              && UnlistedTwice(after.trace, m.db.rows[id].source, m.db.rows[id].fingerprint, |m.trace|)
  {
    var m := Run(rx, steps);
    assert (steps + [step])[..|steps|] == steps;
    CountersFollowReadings(rx, steps);
    if id < |m.db.rows| && id < |Next(rx, m, step).db.rows|
       && m.db.rows[id].status != Resolved && Next(rx, m, step).db.rows[id].status == Resolved {
      EndingNeedsTwo(rx, m, step, id);
      SecondIsUnlistedTwice(Next(rx, m, step).trace, m.db.rows[id].source, m.db.rows[id].fingerprint, |m.trace|);
    }
  }

  /** A pass never contradicts itself about an alert, so repeating one changes nothing. */
  lemma PassIsIdempotent(m: Machine, slug: string, live: seq<LiveAlert>, stored: seq<string>,
                         activeSilences: Option<set<string>>, now: int)
    ensures var r := Reading(slug, LiveMap(live), MissingNow(m, slug, live, stored), activeSilences, now);
            var once := Reconcile.ReconcileSource(m.db, r).0;
            Reconcile.ReconcileSource(once, r) == (once, NOTHING)
  {
    var r := Reading(slug, LiveMap(live), MissingNow(m, slug, live, stored), activeSilences, now);
    ReconcileIdempotentExactly(m.db, r);
  }

  lemma NextKeepsInv(rx: Regex, m: Machine, step: Step)
    requires Inv(m.db)
    ensures Inv(Next(rx, m, step).db)
  {
    match step
    case Write(op) => Lifecycle.PerformKeepsInv(rx, m.db, op);
    case List(_) =>
    case Fail(_) =>
    case Pass(slug, live, stored, activeSilences, _, now) =>
      ReconcileKeepsInv(m.db, Reading(slug, LiveMap(live), MissingNow(m, slug, live, stored), activeSilences, now));
    case Refresh(slug, live, activeSilences, now) =>
      ReconcileKeepsInv(m.db, Reading(slug, LiveMap(live), {}, activeSilences, now));
  }

  lemma {:induction false} RunKeepsInv(rx: Regex, steps: seq<Step>)
    ensures Inv(Run(rx, steps).db)
  {
    if steps != [] {
      RunKeepsInv(rx, steps[..|steps| - 1]);
      NextKeepsInv(rx, Run(rx, steps[..|steps| - 1]), steps[|steps| - 1]);
    }
  }

  // ---------------------------------------------------------------- the loop itself

  /** `FiringFingerprints`. */
  function Stored(rows: seq<Row>, slug: string): (fps: seq<string>)
  {
    if rows == [] then []
    else
      var row := rows[|rows| - 1];
      var rest := Stored(rows[..|rows| - 1], slug);
      if row.source == slug && row.status == Firing then rest + [row.fingerprint] else rest
  }

  lemma {:induction false} StoredIsExact(rows: seq<Row>, slug: string, fp: string)
    ensures fp in Stored(rows, slug) <==> exists i | 0 <= i < |rows| ::
              rows[i].source == slug && rows[i].status == Firing && rows[i].fingerprint == fp
  {
    if rows != [] {
      var front, row := rows[..|rows| - 1], rows[|rows| - 1];
      StoredIsExact(front, slug, fp);
      if i :| 0 <= i < |front| && front[i].source == slug && front[i].status == Firing && front[i].fingerprint == fp {
        assert rows[i] == front[i];
      }
      if i :| 0 <= i < |rows| && rows[i].source == slug && rows[i].status == Firing && rows[i].fingerprint == fp {
        assert i < |front| ==> front[i] == rows[i];
      }
    }
  }

  /** The unique key of the alerts table is what keeps one reading from counting twice. */
  lemma {:induction false} StoredHasNoRepeats(rows: seq<Row>, slug: string)
    requires IdentitiesUnique(rows)
    ensures NoRepeats(Stored(rows, slug))
  {
    if rows != [] {
      var front, row := rows[..|rows| - 1], rows[|rows| - 1];
      StoredHasNoRepeats(front, slug);
      if row.source == slug {
        StoredIsExact(front, slug, row.fingerprint);
      }
    }
  }

  /** How a source answered, and whether the store then accepted the pass. */
  datatype Reply = NoReply | Live(live: seq<LiveAlert>, activeSilences: Option<set<string>>, accepted: bool)

  function Visit(m: Machine, slug: string, reply: Reply, now: int): (r: Machine)
  {
    match reply
    case NoReply => m.(trace := m.trace + [Unreadable(slug)])
    case Live(live, activeSilences, accepted) => PassOver(m, slug, live, Stored(m.db.rows, slug), activeSilences,
                                                          accepted, now)
  }

  function ReplyOf(replies: map<string, Reply>, slug: string): (reply: Reply)
  {
    if slug in replies then replies[slug] else NoReply
  }

  function VisitAll(m: Machine, slugs: seq<string>, replies: map<string, Reply>, now: int): (r: Machine)
  {
    if slugs == [] then m
    else
      var slug := slugs[|slugs| - 1];
      Visit(VisitAll(m, slugs[..|slugs| - 1], replies, now), slug, ReplyOf(replies, slug), now)
  }

  /** A source that answered is passed over as it was found; one that did not is only noted. */
  lemma NextVisit(m: Machine, slugs: seq<string>, slug: string, replies: map<string, Reply>, now: int)
    ensures var before, after := VisitAll(m, slugs, replies, now), VisitAll(m, slugs + [slug], replies, now);
            if slug in replies && replies[slug].Live?
            then after == PassOver(before, slug, replies[slug].live, Stored(before.db.rows, slug),
                                   replies[slug].activeSilences, replies[slug].accepted, now)
            else after == before.(trace := before.trace + [Unreadable(slug)])
  {
    assert (slugs + [slug])[..|slugs|] == slugs;
  }

  /** One tick of the loop, given the listing of sources and their replies. */
  function Tick(m: Machine, slugs: seq<string>, replies: map<string, Reply>, now: int): (r: Machine)
  {
    VisitAll(Forget(m, set s | s in slugs), slugs, replies, now)
  }

  lemma VisitKeepsInv(m: Machine, slug: string, reply: Reply, now: int)
    requires Inv(m.db)
    ensures Inv(Visit(m, slug, reply, now).db)
  {
    if reply.Live? {
      ReconcileKeepsInv(m.db, Reading(slug, LiveMap(reply.live),
                                      MissingNow(m, slug, reply.live, Stored(m.db.rows, slug)), reply.activeSilences,
                                          now));
    }
  }

  // ---------------------------------------------------------------- a tick is a run

  ghost function VisitStep(m: Machine, slug: string, reply: Reply, now: int): (step: Step)
  {
    match reply
    case NoReply => Fail(slug)
    case Live(live, activeSilences, accepted) =>
      Pass(slug, live, Stored(m.db.rows, slug), activeSilences, accepted, now)
  }

  lemma VisitIsNext(rx: Regex, m: Machine, slug: string, reply: Reply, now: int)
    ensures Next(rx, m, VisitStep(m, slug, reply, now)) == Visit(m, slug, reply, now)
  {
  }

  ghost function VisitSteps(m: Machine, slugs: seq<string>, replies: map<string, Reply>, now: int): (steps: seq<Step>)
  {
    if slugs == [] then []
    else
      var front, slug := slugs[..|slugs| - 1], slugs[|slugs| - 1];
      VisitSteps(m, front, replies, now) + [VisitStep(VisitAll(m, front, replies, now), slug, ReplyOf(replies, slug),
                                                      now)]
  }

  ghost function TickSteps(m: Machine, slugs: seq<string>, replies: map<string, Reply>, now: int): (steps: seq<Step>)
  {
    var listed := set s | s in slugs;
    [List(listed)] + VisitSteps(Forget(m, listed), slugs, replies, now)
  }

  lemma RunNext(rx: Regex, steps: seq<Step>, step: Step)
    ensures Run(rx, steps + [step]) == Next(rx, Run(rx, steps), step)
  {
    assert (steps + [step])[..|steps|] == steps;
  }

  lemma {:induction false} VisitsAreRun(rx: Regex, steps: seq<Step>, m: Machine, slugs: seq<string>,
                                        replies: map<string, Reply>, now: int)
    requires m == Run(rx, steps)
    ensures Run(rx, steps + VisitSteps(m, slugs, replies, now)) == VisitAll(m, slugs, replies, now)
  {
    if slugs == [] {
      assert steps + [] == steps;
    } else {
      var front, slug := slugs[..|slugs| - 1], slugs[|slugs| - 1];
      var before, more := VisitAll(m, front, replies, now), VisitSteps(m, front, replies, now);
      var step := VisitStep(before, slug, ReplyOf(replies, slug), now);
      VisitsAreRun(rx, steps, m, front, replies, now);
      VisitIsNext(rx, before, slug, ReplyOf(replies, slug), now);
      RunNext(rx, steps + more, step);
      assert (steps + more) + [step] == steps + VisitSteps(m, slugs, replies, now);
    }
  }

  lemma ListIsRun(rx: Regex, steps: seq<Step>, listed: set<string>)
    ensures Run(rx, steps + [List(listed)]) == Forget(Run(rx, steps), listed)
  {
    RunNext(rx, steps, List(listed));
  }

  lemma Regroup(a: seq<Step>, b: seq<Step>, c: seq<Step>)
    ensures (a + b) + c == a + (b + c)
  {
  }

  /** What holds of every run therefore holds while the loop ticks, whatever was written in between. */
  lemma TickIsRun(rx: Regex, steps: seq<Step>, slugs: seq<string>, replies: map<string, Reply>, now: int)
    ensures var m := Run(rx, steps);
            Run(rx, steps + TickSteps(m, slugs, replies, now)) == Tick(m, slugs, replies, now)
  {
    var listed := set s | s in slugs;
    var m := Run(rx, steps);
    var visits := VisitSteps(Forget(m, listed), slugs, replies, now);
    ListIsRun(rx, steps, listed);
    VisitsAreRun(rx, steps + [List(listed)], Forget(m, listed), slugs, replies, now);
    Regroup(steps, [List(listed)], visits);
  }

  /** Somewhere from `from` on there is a reading that is this alert's second absence in a row. */
  ghost predicate EndedSince(trace: seq<Seen>, from: nat, slug: string, fp: string)
  {
    exists j: nat :: from <= j < |trace| && SecondAbsence(trace, slug, fp, j)
  }

  lemma SecondStays(trace: seq<Seen>, e: Seen, slug: string, fp: string, j: nat)
    requires j < |trace| && SecondAbsence(trace, slug, fp, j)
    ensures SecondAbsence(trace + [e], slug, fp, j)
  {
    var i: nat :| TwoInARow(trace, slug, fp, i, j) && !ActedUpon(trace, slug, fp, i);
    var longer := trace + [e];
    assert longer[i] == trace[i] && longer[j] == trace[j] && longer[..i] == trace[..i];
    assert forall k | i < k < j :: longer[k] == trace[k];
    assert TwoInARow(longer, slug, fp, i, j) && !ActedUpon(longer, slug, fp, i);
  }

  lemma EndedStays(trace: seq<Seen>, e: Seen, from: nat, slug: string, fp: string)
    requires EndedSince(trace, from, slug, fp)
    ensures EndedSince(trace + [e], from, slug, fp)
  {
    var j: nat :| from <= j < |trace| && SecondAbsence(trace, slug, fp, j);
    SecondStays(trace, e, slug, fp, j);
  }

  /** A row, seen again later: the same alert, and if it has ended since, then at a second absence. */
  ghost predicate EndedFairly(before: Machine, after: Machine, id: nat)
  {
    && id < |before.db.rows| && id < |after.db.rows|
    && var row, out := before.db.rows[id], after.db.rows[id];
       && out.source == row.source && out.fingerprint == row.fingerprint
       && (row.status != Resolved && out.status == Resolved ==>
             EndedSince(after.trace, |before.trace|, row.source, row.fingerprint))
  }

  lemma VisitAppends(m: Machine, slug: string, reply: Reply, now: int, id: nat)
    requires id < |m.db.rows|
    ensures var after := Visit(m, slug, reply, now);
            && after.trace == m.trace + [after.trace[|m.trace|]]
            && id < |after.db.rows|
            && after.db.rows[id].source == m.db.rows[id].source
            && after.db.rows[id].fingerprint == m.db.rows[id].fingerprint
  {
    if reply.Live? && reply.accepted {
      ReconcileRespects(m.db, Reading(slug, LiveMap(reply.live),
                                      MissingNow(m, slug, reply.live, Stored(m.db.rows, slug)), reply.activeSilences,
                                      now), id);
    }
  }

  lemma VisitEndsFairly(before: Machine, m: Machine, slug: string, reply: Reply, now: int, id: nat)
    requires CountersAreStreaks(m.misses, m.trace) && |before.trace| <= |m.trace| && EndedFairly(before, m, id)
    ensures EndedFairly(before, Visit(m, slug, reply, now), id)
  {
    var row, after := before.db.rows[id], Visit(m, slug, reply, now);
    VisitAppends(m, slug, reply, now, id);
    if row.status != Resolved && after.db.rows[id].status == Resolved {
      if m.db.rows[id].status == Resolved {
        EndedStays(m.trace, after.trace[|m.trace|], |before.trace|, row.source, row.fingerprint);
      } else {
        PassEndsAfterTwo(m, slug, reply.live, Stored(m.db.rows, slug), reply.activeSilences, reply.accepted, now, id);
      }
    }
  }

  lemma {:induction false} VisitsEndFairly(rx: Regex, before: Machine, m: Machine, slugs: seq<string>,
                                           replies: map<string, Reply>, now: int, id: nat)
    requires CountersAreStreaks(m.misses, m.trace) && |before.trace| <= |m.trace| && EndedFairly(before, m, id)
    ensures var after := VisitAll(m, slugs, replies, now);
            && CountersAreStreaks(after.misses, after.trace) && |before.trace| <= |after.trace|
            && EndedFairly(before, after, id)
  {
    if slugs != [] {
      var front, slug := slugs[..|slugs| - 1], slugs[|slugs| - 1];
      var mid := VisitAll(m, front, replies, now);
      VisitsEndFairly(rx, before, m, front, replies, now, id);
      VisitEndsFairly(before, mid, slug, ReplyOf(replies, slug), now, id);
      VisitAppends(mid, slug, ReplyOf(replies, slug), now, id);
      VisitIsNext(rx, mid, slug, ReplyOf(replies, slug), now);
      NextKeepsStreaks(rx, mid, VisitStep(mid, slug, ReplyOf(replies, slug), now));
    }
  }

  /** Whatever ran before, a tick over any sources with any replies ends an alert only at its second absence in a
      row, read during that tick. */
  lemma TickEndsFairly(rx: Regex, steps: seq<Step>, slugs: seq<string>, replies: map<string, Reply>, now: int, id: nat)
    requires id < |Run(rx, steps).db.rows|
    ensures EndedFairly(Run(rx, steps), Tick(Run(rx, steps), slugs, replies, now), id)
  {
    var m, listed := Run(rx, steps), set s | s in slugs;
    CountersFollowReadings(rx, steps);
    NextKeepsStreaks(rx, m, List(listed));
    VisitsEndFairly(rx, m, Forget(m, listed), slugs, replies, now, id);
  }

  lemma LiveCount(live: seq<LiveAlert>)
    ensures |LiveMap(live).Keys| > 0 <==> |live| > 0
  {
    if |live| > 0 {
      assert live[0].fingerprint in LiveMap(live).Keys;
    }
  }

  class MissCounters {
    var misses: map<string, Counters>
    ghost var trace: seq<Seen>

    ghost function AsMachine(store: AlertStore): (m: Machine)
      reads this, store
    {
      Machine(store.Tables(), misses, trace)
    }

    ghost predicate Valid()
      reads this
    {
      CountersAreStreaks(misses, trace)
    }

    constructor ()
      ensures Valid() && misses == map[] && trace == []
    {
      misses, trace := map[], [];
    }

    /** The counting loop: present alerts lose their counter, absent ones gain a miss. */
    static method CountAbsences(counters: Counters, live: set<string>, stored: seq<string>)
      returns (counted: Counters, missing: set<string>)
      requires NoRepeats(stored)
      ensures forall fp :: Counter(counted, fp) ==
                (if fp !in stored then Counter(counters, fp)
                 else if fp in live then 0
                 else Counter(counters, fp) + 1)
      ensures forall fp :: fp in counted <==> (fp in counters && fp !in stored) || (fp in stored && fp !in live)
      ensures forall fp :: fp in missing <==>
                fp in stored && fp !in live && Counter(counters, fp) + 1 >= MISSES_BEFORE_RESOLVING
    {
      counted, missing := counters, {};
      var i := 0;
      while i < |stored|
        invariant 0 <= i <= |stored|
        invariant forall fp :: Counter(counted, fp) ==
                    (if fp !in stored[..i] then Counter(counters, fp)
                     else if fp in live then 0
                     else Counter(counters, fp) + 1)
        invariant forall fp :: fp in counted <==>
                    (fp in counters && fp !in stored[..i]) || (fp in stored[..i] && fp !in live)
        invariant forall fp :: fp in missing <==>
                    fp in stored[..i] && fp !in live && Counter(counters, fp) + 1 >= MISSES_BEFORE_RESOLVING
      {
        var fp := stored[i];
        assert fp !in stored[..i];
        assert stored[..i + 1] == stored[..i] + [fp];
        if fp in live {
          counted := counted - {fp};
        } else {
          counted := counted[fp := Counter(counted, fp) + 1];
          if counted[fp] >= MISSES_BEFORE_RESOLVING {
            missing := missing + {fp};
          }
        }
        i := i + 1;
      }
      assert stored[..i] == stored;
    }

    /** What a reading makes of one source's counters, and whom it declares missing. */
    static method CountReading(counters: Counters, live: seq<LiveAlert>, stored: seq<string>)
      returns (counted: Counters, missing: set<string>)
      requires NoRepeats(stored)
      ensures counted == Tallied(counters, LiveMap(live).Keys, stored)
      ensures missing == MissingOf(counted)
    {
      counted, missing := map[], {};
      LiveCount(live);
      if |live| > 0 || |stored| == 0 {
        counted, missing := CountAbsences(counters, LiveMap(live).Keys, stored);
      }
      ghost var raw, want := counted, Tallied(counters, LiveMap(live).Keys, stored);
      counted := map fp | fp in counted && fp in stored :: counted[fp];
      assert counted.Keys == want.Keys;
      forall fp | fp in counted ensures counted[fp] == want[fp] {
        assert counted[fp] == Counter(raw, fp);
      }
      assert counted == want;
    }

    /** One source's pass: read, count, forget what is no longer stored, align, forget what was concluded. */
    method ReconcileSource(store: AlertStore, slug: string, reply: Reply, now: int)
      requires Valid() && IdentitiesUnique(store.rows)
      modifies this, store
      ensures Valid() && AsMachine(store) == Visit(old(AsMachine(store)), slug, reply, now)
    {
      ghost var before := AsMachine(store);
      if reply.NoReply? {
        trace := trace + [Unreadable(slug)];
        OtherKeepsStreaks(misses, before.trace, Unreadable(slug));
        return;
      }
      var stored := Stored(store.rows, slug);
      StoredHasNoRepeats(store.rows, slug);
      var counters, missing := CountReading(CountersFor(misses, slug), reply.live, stored);
      if reply.accepted {
        var tally := store.ReconcileSource(slug, reply.live, missing, reply.activeSilences, now);
        counters := counters - missing;
      }
      misses := misses[slug := counters];
      trace := trace + [Read(slug, LiveMap(reply.live).Keys, stored, reply.accepted)];
      PassKeepsStreaks(before, slug, reply.live, stored, reply.activeSilences, reply.accepted, now);
    }

    /** One tick: sources that are no longer listed are forgotten, then every listed one is visited, in
        whatever order. When the listing itself fails nothing happens at all. */
    method ReconcileOnce(store: AlertStore, sources: Option<seq<string>>, replies: map<string, Reply>, now: int)
      requires Valid() && Inv(store.Tables())
      modifies this, store
      ensures Valid() && Inv(store.Tables())
      ensures AsMachine(store) ==
              if sources.None? then old(AsMachine(store))
              else Tick(old(AsMachine(store)), sources.value, replies, now)
    {
      if sources.None? {
        return;
      }
      var slugs := sources.value;
      var listed := set s | s in slugs;
      OtherKeepsStreaks(misses, trace, Listed(listed));
      misses := misses - (misses.Keys - listed);
      trace := trace + [Listed(listed)];
      ghost var start := AsMachine(store);
      var i := 0;
      while i < |slugs|
        invariant 0 <= i <= |slugs|
        invariant Valid() && Inv(store.Tables())
        invariant AsMachine(store) == VisitAll(start, slugs[..i], replies, now)
      {
        assert slugs[..i + 1][..i] == slugs[..i];
        VisitKeepsInv(AsMachine(store), slugs[i], ReplyOf(replies, slugs[i]), now);
        ReconcileSource(store, slugs[i], ReplyOf(replies, slugs[i]), now);
        i := i + 1;
      }
      assert slugs[..i] == slugs;
    }
  }

  /** What one delayed re-read after a silence came back with. */
  datatype Attempt = SourceGone | NotReadable | Reread(live: seq<LiveAlert>, activeSilences: Option<set<string>>,
                                                       accepted: bool, now: int)

  function RereadOne(db: Db, slug: string, attempt: Attempt): (r: Db)
  {
    if attempt.Reread? && attempt.accepted
    then Reconcile.ReconcileSource(db, Reading(slug, LiveMap(attempt.live), {}, attempt.activeSilences, attempt.now)).0
    else db
  }

  function RereadAll(db: Db, slug: string, attempts: seq<Attempt>): (r: Db)
    decreases |attempts|
  {
    if attempts == [] || attempts[0].SourceGone? then db
    else RereadAll(RereadOne(db, slug, attempts[0]), slug, attempts[1..])
  }

  /** Nothing ended: every row that was not resolved still is not. */
  ghost predicate NothingEnded(before: seq<Row>, after: seq<Row>)
  {
    |before| == |after| && forall id | 0 <= id < |before| :: after[id].status == Resolved ==> before[id] == after[id]
  }

  lemma RefreshEndsNothing(db: Db, slug: string, live: map<string, LiveState>, activeSilences: Option<set<string>>,
                           now: int)
    ensures NothingEnded(db.rows, Reconcile.ReconcileSource(db, Reading(slug, live, {}, activeSilences, now)).0.rows)
  {
    var r := Reading(slug, live, {}, activeSilences, now);
    forall id | 0 <= id < |db.rows| && Reconcile.ReconcileSource(db, r).0.rows[id].status == Resolved
      ensures db.rows[id] == Reconcile.ReconcileSource(db, r).0.rows[id]
    {
      ReconcileRespects(db, r, id);
    }
  }

  lemma {:induction false} NoMoreRereads(db: Db, slug: string, attempts: seq<Attempt>)
    requires forall i | 0 <= i < |attempts| :: !(attempts[i].Reread? && attempts[i].accepted)
    ensures RereadAll(db, slug, attempts) == db
  {
    if attempts != [] && !attempts[0].SourceGone? {
      NoMoreRereads(db, slug, attempts[1..]);
    }
  }

  /** This attempt is made, and is the last that the store accepts. */
  ghost predicate LastAccepted(attempts: seq<Attempt>, k: nat)
  {
    && k < |attempts| && attempts[k].Reread? && attempts[k].accepted
    && (forall i | 0 <= i < k :: !attempts[i].SourceGone?)
    && (forall i | k < i < |attempts| :: !(attempts[i].Reread? && attempts[i].accepted))
  }

  lemma RereadKeeps(db: Db, slug: string, attempt: Attempt, id: nat)
    requires id < |db.rows| && db.rows[id].status != Resolved
    ensures var after := RereadOne(db, slug, attempt);
            && id < |after.rows| && after.rows[id].status != Resolved
            && after.rows[id].source == db.rows[id].source && after.rows[id].fingerprint == db.rows[id].fingerprint
  {
    if attempt.Reread? && attempt.accepted {
      ReconcileRespects(db, Reading(slug, LiveMap(attempt.live), {}, attempt.activeSilences, attempt.now), id);
    }
  }

  lemma RereadSyncs(db: Db, slug: string, attempt: Attempt, id: nat)
    requires attempt.Reread? && attempt.accepted && id < |db.rows| && db.rows[id].source == slug
    requires db.rows[id].status != Resolved && db.rows[id].fingerprint in LiveMap(attempt.live)
    ensures var after, said := RereadOne(db, slug, attempt), LiveMap(attempt.live)[db.rows[id].fingerprint];
            && id < |after.rows| && after.rows[id].status == Firing
            && after.rows[id].suppressed == said.suppressed && after.rows[id].silencedBy == said.silencedBy
  {
    ReconciledRows(db, Reading(slug, LiveMap(attempt.live), {}, attempt.activeSilences, attempt.now), id);
  }

  /** After them, every alert listed by the last re-read the store accepted, and not resolved, is firing and suppressed
      as
      it says. */
  lemma {:induction false} LastRereadCounts(db: Db, slug: string, attempts: seq<Attempt>, k: nat, id: nat)
    requires LastAccepted(attempts, k) && id < |db.rows| && db.rows[id].source == slug && db.rows[id].status != Resolved
    requires db.rows[id].fingerprint in LiveMap(attempts[k].live)
    ensures var after, said := RereadAll(db, slug, attempts), LiveMap(attempts[k].live)[db.rows[id].fingerprint];
            && id < |after.rows| && after.rows[id].status == Firing
            && after.rows[id].suppressed == said.suppressed && after.rows[id].silencedBy == said.silencedBy
    decreases k
  {
    var once := RereadOne(db, slug, attempts[0]);
    if k == 0 {
      RereadSyncs(db, slug, attempts[0], id);
      NoMoreRereads(once, slug, attempts[1..]);
    } else {
      RereadKeeps(db, slug, attempts[0], id);
      LastRereadCounts(once, slug, attempts[1..], k - 1, id);
    }
  }

  /** The passes a new silence schedules bring suppression up to date and can end nothing: a vanished
      source stops them, a failed read only skips one. */
  method SyncSuppression(store: AlertStore, slug: string, attempts: seq<Attempt>)
    requires Inv(store.Tables())
    modifies store
    ensures store.Tables() == RereadAll(old(store.Tables()), slug, attempts)
    ensures Inv(store.Tables()) && NothingEnded(old(store.rows), store.rows)
  {
    var i := 0;
    while i < |attempts|
      invariant 0 <= i <= |attempts|
      invariant RereadAll(store.Tables(), slug, attempts[i..]) == RereadAll(old(store.Tables()), slug, attempts)
      invariant Inv(store.Tables()) && NothingEnded(old(store.rows), store.rows)
    {
      var attempt := attempts[i];
      if attempt.SourceGone? {
        return;
      }
      if attempt.Reread? && attempt.accepted {
        RefreshEndsNothing(store.Tables(), slug, LiveMap(attempt.live), attempt.activeSilences, attempt.now);
        ReconcileKeepsInv(store.Tables(), Reading(slug, LiveMap(attempt.live), {}, attempt.activeSilences,
                                                  attempt.now));
        var tally := store.ReconcileSource(slug, attempt.live, {}, attempt.activeSilences, attempt.now);
      }
      assert attempts[i..][1..] == attempts[i + 1..];
      i := i + 1;
    }
  }
}
