/** Reports and their append-only audit log: any number of moderators at once, each transaction
    holding the report's row lock from its read to its commit. */
module Moderation {
  import opened Orders

  type UserId = nat
  type ReportId = nat
  type ReviewId = nat
  type Instant = int

  datatype Status = Open | Reviewing | Actioned | Dismissed

  predicate Decided(status: Status) {
    status.Actioned? || status.Dismissed?
  }

  datatype Report = Report(
    reporter: Option<UserId>, subject: Option<UserId>, target: nat, status: Status,
    moderatedBy: Option<UserId>, note: string, resolvedAt: Option<Instant>) {

    predicate Active() {
      !Decided(status)
    }
  }

  datatype AuditRow = AuditRow(report: ReportId, actor: UserId, oldStatus: Status, newStatus: Status, note: string)

  datatype Error = NotFound | Forbidden | Conflict | Internal

  datatype Phase = Opened | Locked(oldStatus: Status, subject: Option<UserId>) | Done | Failed(error: Error)

  datatype Review = Review(actor: UserId, report: ReportId, newStatus: Status, note: string, now: Instant, phase: Phase)

  datatype State = State(
    reports: map<ReportId, Report>, audit: seq<AuditRow>, reviews: map<ReviewId, Review>,
    locks: map<ReportId, ReviewId>)

  /** `works` is false when the step fails or the request dies. */
  datatype Event =
    | File(id: ReportId, reporter: UserId, subject: Option<UserId>, target: nat)
    | Begin(t: ReviewId, actor: UserId, report: ReportId, newStatus: Status, note: string, now: Instant)
    | Step(t: ReviewId, works: bool)

  function TransitionAllowed(from: Status, to: Status): bool {
    match from
    case Open => to.Reviewing? || to.Actioned? || to.Dismissed?
    case Reviewing => to.Open? || to.Actioned? || to.Dismissed?
    case _ => to.Reviewing?
  }

  /** The partial unique index: one active report per reporter and target. */
  predicate OneActive(reports: map<ReportId, Report>) {
    forall a, b ::
      (a in reports && b in reports && a != b && reports[a].Active() && reports[b].Active() && reports[a].reporter.Some?
       && reports[a].reporter == reports[b].reporter) ==> reports[a].target != reports[b].target
  }

  function Changed(report: Report, actor: UserId, status: Status, note: string, now: Instant): Report {
    report.(status := status, moderatedBy := Some(actor), note := note,
            resolvedAt := if Decided(status) then Some(now) else None)
  }

  // ---- the protocol --------------------------------------------------------------------

  predicate Active(s: State, t: ReviewId) {
    t in s.reviews && (s.reviews[t].phase.Opened? || s.reviews[t].phase.Locked?)
  }

  predicate Waits(s: State, t: ReviewId)
    requires t in s.reviews
  {
    s.reviews[t].phase.Opened? && s.reviews[t].report in s.locks
  }

  function End(s: State, t: ReviewId, phase: Phase): State
    requires t in s.reviews
  {
    s.(reviews := s.reviews[t := s.reviews[t].(phase := phase)],
       locks := map r | r in s.locks && s.locks[r] != t :: s.locks[r])
  }

  function Recorded(s: State, t: ReviewId, row: AuditRow): State
    requires t in s.reviews && row.report in s.reports
  {
    End(s, t, Done).(
      reports := s.reports[row.report :=
          Changed(s.reports[row.report], row.actor, row.newStatus, row.note, s.reviews[t].now)],
      audit := s.audit + [row])
  }

  function RowToRecord(review: Review): AuditRow
    requires review.phase.Locked?
  {
    AuditRow(review.report, review.actor, review.phase.oldStatus, review.newStatus, review.note)
  }

  function Decide(s: State, t: ReviewId): State
    requires t in s.reviews && s.reviews[t].phase.Locked? && s.reviews[t].report in s.reports
  {
    var review := s.reviews[t];
    var row := RowToRecord(review);
    if review.phase.subject == Some(review.actor) then End(s, t, Failed(Forbidden))
    else if !TransitionAllowed(review.phase.oldStatus, review.newStatus) then End(s, t, Failed(Conflict))
    else if !OneActive(Recorded(s, t, row).reports) then End(s, t, Failed(Internal))
    else Recorded(s, t, row)
  }

  function Advance(s: State, t: ReviewId): State
    requires Active(s, t)
  {
    var review := s.reviews[t];
    if review.report !in s.reports then End(s, t, Failed(NotFound))
    else if review.phase.Opened? then
      s.(reviews := s.reviews[t :=
          review.(phase := Locked(s.reports[review.report].status, s.reports[review.report].subject))],
         locks := s.locks[review.report := t])
    else Decide(s, t)
  }

  function Apply(s: State, event: Event): State {
    match event
    case File(id, reporter, subject, target) =>
      var filed := s.reports[id := Report(Some(reporter), subject, target, Open, None, "", None)];
      if id in s.reports || subject == Some(reporter) || !OneActive(filed) then s else s.(reports := filed)
    case Begin(t, actor, report, newStatus, note, now) =>
      if t in s.reviews then s else s.(reviews := s.reviews[t := Review(actor, report, newStatus, note, now, Opened)])
    case Step(t, works) =>
      if !Active(s, t) || (works && Waits(s, t)) then s
      else if works then Advance(s, t)
      else End(s, t, Failed(Internal))
  }

  function Run(events: seq<Event>): State {
    if events == [] then State(map[], [], map[], map[])
    else Apply(Run(events[..|events| - 1]), events[|events| - 1])
  }

  // ---- what the log says ---------------------------------------------------------------

  function RowsOf(audit: seq<AuditRow>, id: ReportId): (rows: seq<AuditRow>)
    ensures forall row :: row in rows ==> row.report == id
  {
    if audit == [] then []
    else
      var last := audit[|audit| - 1];
      RowsOf(audit[..|audit| - 1], id) + if last.report == id then [last] else []
  }

  /** A chain of allowed transitions from `from` to `to`. */
  predicate IsPath(rows: seq<AuditRow>, from: Status, to: Status) {
    && (rows == [] ==> from == to)
    && (rows != [] ==> rows[0].oldStatus == from && rows[|rows| - 1].newStatus == to)
    && (forall i :: 0 <= i < |rows| - 1 ==> rows[i].newStatus == rows[i + 1].oldStatus)
    && (forall i :: 0 <= i < |rows| ==> TransitionAllowed(rows[i].oldStatus, rows[i].newStatus))
  }

  /** A report and its audit rows tell the same story. */
  predicate Record(report: Report, rows: seq<AuditRow>) {
    && IsPath(rows, Open, report.status)
    && (report.resolvedAt.Some? <==> Decided(report.status))
    && (forall row :: row in rows ==> report.subject != Some(row.actor))
    && (report.moderatedBy == if rows == [] then None else Some(rows[|rows| - 1].actor))
    && (rows != [] ==> report.note == rows[|rows| - 1].note)
  }

  predicate ReportInv(s: State, id: ReportId)
    requires id in s.reports
  {
    Record(s.reports[id], RowsOf(s.audit, id))
  }

  predicate ReviewInv(s: State, t: ReviewId)
    requires t in s.reviews
  {
    var review := s.reviews[t];
    && (forall r :: r in s.locks && s.locks[r] == t ==> r == review.report && review.phase.Locked?)
    && (review.phase.Locked? ==>
          review.report in s.locks && s.locks[review.report] == t && review.report in s.reports
          && s.reports[review.report].status == review.phase.oldStatus
          && s.reports[review.report].subject == review.phase.subject)
  }

  predicate Inv(s: State) {
    && (forall id :: id in s.reports ==> ReportInv(s, id))
    && (forall t :: t in s.reviews ==> ReviewInv(s, t))
    && (forall r :: r in s.locks ==> s.locks[r] in s.reviews)
    && (forall i :: 0 <= i < |s.audit| ==> s.audit[i].report in s.reports)
  }

  lemma {:induction false} NoRowsYet(audit: seq<AuditRow>, id: ReportId)
    requires forall i :: 0 <= i < |audit| ==> audit[i].report != id
    ensures RowsOf(audit, id) == []
    decreases |audit|
  {
    if audit != [] { NoRowsYet(audit[..|audit| - 1], id); }
  }

  lemma FileKeeps(s: State, id: ReportId, report: Report)
    requires Inv(s) && id !in s.reports && Record(report, [])
    ensures Inv(s.(reports := s.reports[id := report]))
  {
    var s' := s.(reports := s.reports[id := report]);
    NoRowsYet(s.audit, id);
    assert ReportInv(s', id);
    FiledOthers(s, s', id);
  }

  lemma FiledOthers(s: State, s': State, id: ReportId)
    requires Inv(s) && id !in s.reports && id in s'.reports && s' == s.(reports := s.reports[id := s'.reports[id]])
    ensures forall r :: r in s.reports ==> ReportInv(s', r)
    ensures forall t :: t in s'.reviews ==> ReviewInv(s', t)
  {
    forall r | r in s.reports ensures ReportInv(s', r) {
      assert ReportInv(s, r);
    }
    forall t | t in s'.reviews ensures ReviewInv(s', t) {
      assert ReviewInv(s, t);
    }
  }

  /** Steps that touch no report. */
  lemma ReviewsKeep(s: State, s': State)
    requires Inv(s) && s'.reports == s.reports && s'.audit == s.audit
    requires forall t :: t in s'.reviews ==> ReviewInv(s', t)
    requires forall r :: r in s'.locks ==> s'.locks[r] in s'.reviews
    ensures Inv(s')
  {
    forall id | id in s'.reports ensures ReportInv(s', id) {
      assert ReportInv(s, id);
    }
  }

  lemma EndKeeps(s: State, t: ReviewId, phase: Phase)
    requires Inv(s) && Active(s, t) && (phase.Done? || phase.Failed?)
    ensures Inv(End(s, t, phase))
  {
    var s' := End(s, t, phase);
    forall o | o in s'.reviews ensures ReviewInv(s', o) {
      assert ReviewInv(s, o);
    }
    ReviewsKeep(s, s');
  }

  lemma LockKeeps(s: State, t: ReviewId)
    requires Inv(s) && Active(s, t) && s.reviews[t].phase.Opened? && !Waits(s, t) && s.reviews[t].report in s.reports
    ensures Inv(Advance(s, t))
  {
    var s' := Advance(s, t);
    forall o | o in s'.reviews ensures ReviewInv(s', o) {
      if o != t { LockOther(s, s', t, o); }
    }
    ReviewsKeep(s, s');
  }

  lemma LockOther(s: State, s': State, t: ReviewId, o: ReviewId)
    requires Inv(s) && t in s.reviews && o in s.reviews && t != o && s.reviews[t].report !in s.locks
    requires s'.reports == s.reports && s'.locks == s.locks[s.reviews[t].report := t]
    requires o in s'.reviews && s'.reviews[o] == s.reviews[o]
    ensures ReviewInv(s', o)
  {
    assert ReviewInv(s, o);
  }

  lemma RecordGrows(report: Report, rows: seq<AuditRow>, row: AuditRow, now: Instant)
    requires Record(report, rows) && report.subject != Some(row.actor)
    requires row.oldStatus == report.status && TransitionAllowed(row.oldStatus, row.newStatus)
    ensures Record(Changed(report, row.actor, row.newStatus, row.note, now), rows + [row])
  {
  }

  lemma RowsAfter(audit: seq<AuditRow>, row: AuditRow, id: ReportId)
    ensures RowsOf(audit + [row], id) == if row.report == id then RowsOf(audit, id) + [row] else RowsOf(audit, id)
  {
    assert (audit + [row])[..|audit|] == audit;
  }

  lemma DecideKeeps(s: State, t: ReviewId)
    requires Inv(s) && Active(s, t) && s.reviews[t].phase.Locked? && s.reviews[t].report in s.reports
    ensures Inv(Decide(s, t))
  {
    var end := DecideEnds(s, t);
    if end.Some? { EndKeeps(s, t, Failed(end.value)); } else { AllowedKeeps(s, t); }
  }

  lemma DecideEnds(s: State, t: ReviewId) returns (error: Option<Error>)
    requires t in s.reviews && s.reviews[t].phase.Locked? && s.reviews[t].report in s.reports
    ensures error.Some? ==> Decide(s, t) == End(s, t, Failed(error.value))
    ensures error.None? ==>
      && Decide(s, t) == Recorded(s, t, RowToRecord(s.reviews[t]))
      && s.reviews[t].phase.subject != Some(s.reviews[t].actor)
      && TransitionAllowed(s.reviews[t].phase.oldStatus, s.reviews[t].newStatus)
  {
    var review := s.reviews[t];
    error := if review.phase.subject == Some(review.actor) then Some(Forbidden)
             else if !TransitionAllowed(review.phase.oldStatus, review.newStatus) then Some(Conflict)
             else if !OneActive(Recorded(s, t, RowToRecord(review)).reports) then Some(Internal)
             else None;
  }

  lemma AllowedKeeps(s: State, t: ReviewId)
    requires Inv(s) && Active(s, t) && s.reviews[t].phase.Locked? && s.reviews[t].report in s.reports
    requires s.reviews[t].phase.subject != Some(s.reviews[t].actor)
    requires TransitionAllowed(s.reviews[t].phase.oldStatus, s.reviews[t].newStatus)
    ensures Inv(Recorded(s, t, RowToRecord(s.reviews[t])))
  {
    assert ReviewInv(s, t);
    var row := RowToRecord(s.reviews[t]);
    DecidedKeeps(s, Recorded(s, t, row), t, row);
  }

  /** The decided report's own rows grow by one; no other report's do. */
  lemma DecidedKeeps(s: State, s': State, t: ReviewId, row: AuditRow)
    requires Inv(s) && Active(s, t) && s.reviews[t].phase.Locked? && ReviewInv(s, t)
    requires row.report == s.reviews[t].report && s.reports[row.report].subject != Some(row.actor)
    requires row.oldStatus == s.reports[row.report].status && TransitionAllowed(row.oldStatus, row.newStatus)
    requires s' == Recorded(s, t, row)
    ensures Inv(s')
  {
    forall id | id in s'.reports ensures ReportInv(s', id) {
      assert ReportInv(s, id);
      RowsAfter(s.audit, row, id);
      if id == row.report { RecordGrows(s.reports[id], RowsOf(s.audit, id), row, s.reviews[t].now); }
    }
    DecidedReviews(s, s', t, row);
  }

  lemma DecidedReviews(s: State, s': State, t: ReviewId, row: AuditRow)
    requires Inv(s) && Active(s, t) && s.reviews[t].phase.Locked? && ReviewInv(s, t)
    requires row.report == s.reviews[t].report && s' == Recorded(s, t, row)
    ensures forall o :: o in s'.reviews ==> ReviewInv(s', o)
  {
    forall o | o in s'.reviews ensures ReviewInv(s', o) {
      assert ReviewInv(s, o);
    }
  }

  lemma BeginKeeps(s: State, event: Event)
    requires Inv(s) && event.Begin?
    ensures Inv(Apply(s, event))
  {
    var s' := Apply(s, event);
    forall o | o in s'.reviews ensures ReviewInv(s', o) {
      if o in s.reviews { assert ReviewInv(s, o); }
    }
    ReviewsKeep(s, s');
  }

  lemma ApplyKeeps(s: State, event: Event)
    requires Inv(s)
    ensures Inv(Apply(s, event))
  {
    match event
    case File(id, reporter, subject, target) =>
      if id !in s.reports { FileKeeps(s, id, Report(Some(reporter), subject, target, Open, None, "", None)); }
    case Begin(_, _, _, _, _, _) => BeginKeeps(s, event);
    case Step(t, works) =>
      if Active(s, t) && !works {
        EndKeeps(s, t, Failed(Internal));
      } else if Active(s, t) && !Waits(s, t) {
        if s.reviews[t].report !in s.reports {
          EndKeeps(s, t, Failed(NotFound));
        } else if s.reviews[t].phase.Opened? {
          LockKeeps(s, t);
        } else {
          DecideKeeps(s, t);
        }
      }
  }

  /** The partial unique index holds because every write is checked against it. */
  lemma OneActiveStep(s: State, event: Event)
    requires OneActive(s.reports)
    ensures OneActive(Apply(s, event).reports)
  {
    assert Apply(s, event).reports == s.reports || OneActive(Apply(s, event).reports);
  }

  lemma {:induction false} RunKeeps(events: seq<Event>)
    ensures Inv(Run(events)) && OneActive(Run(events).reports)
    decreases |events|
  {
    if events != [] {
      var before := Run(events[..|events| - 1]);
      RunKeeps(events[..|events| - 1]);
      ApplyKeeps(before, events[|events| - 1]);
      OneActiveStep(before, events[|events| - 1]);
    }
  }

  // ---- the theorems --------------------------------------------------------------------

  /** In every run, a report's audit rows lead from open to its current status by allowed
      transitions, it carries a resolution time exactly when it is decided, and no one has moved
      a report about themselves. */
  lemma HistoryIsAPath(events: seq<Event>, id: ReportId)
    requires id in Run(events).reports
    ensures var s := Run(events); var report := s.reports[id]; var rows := RowsOf(s.audit, id);
      && IsPath(rows, Open, report.status)
      && (report.resolvedAt.Some? <==> Decided(report.status))
      && (forall row :: row in rows ==> report.subject != Some(row.actor))
      && (report.moderatedBy == if rows == [] then None else Some(rows[|rows| - 1].actor))
      && OneActive(s.reports)
  {
    RunKeeps(events);
    assert ReportInv(Run(events), id);
  }

  /** In every run: a report carries a resolution time exactly when it is decided, and no two undecided
      reports of one reporter are about one target. */
  lemma ReportsInWords(events: seq<Event>, a: ReportId, b: ReportId)
    requires a in Run(events).reports && b in Run(events).reports && a != b
    ensures var x, y := Run(events).reports[a], Run(events).reports[b];
      && (x.resolvedAt.Some? <==> x.status == Actioned || x.status == Dismissed)
      && !(x.status in {Open, Reviewing} && y.status in {Open, Reviewing}
           && x.reporter.Some? && x.reporter == y.reporter && x.target == y.target)
  {
    HistoryIsAPath(events, a);
    assert Run(events).reports[a].Active() <==> Run(events).reports[a].status in {Open, Reviewing};
    assert Run(events).reports[b].Active() <==> Run(events).reports[b].status in {Open, Reviewing};
  }

  /** A decision is never flipped: between an `actioned` and a later `dismissed` row, either way
      round, there is a `reviewing` row, and it directly follows the first. */
  lemma DecisionsAreRevisitedThroughReview(events: seq<Event>, id: ReportId, i: nat, j: nat)
    requires id in Run(events).reports
    requires var rows := RowsOf(Run(events).audit, id);
      i < j < |rows| && Decided(rows[i].newStatus) && Decided(rows[j].newStatus)
    ensures var rows := RowsOf(Run(events).audit, id);
      i + 1 < j && rows[i + 1].newStatus == Reviewing
  {
    HistoryIsAPath(events, id);
    var rows := RowsOf(Run(events).audit, id);
    assert rows[i].newStatus == rows[i + 1].oldStatus;
    assert TransitionAllowed(rows[i + 1].oldStatus, rows[i + 1].newStatus);
  }

  /** Some other undecided report of this reporter is about the same target. */
  predicate RaisedAgain(reports: map<ReportId, Report>, id: ReportId)
    requires id in reports
  {
    reports[id].reporter.Some? && exists other ::
      other in reports && other != id && reports[other].status in {Open, Reviewing}
      && reports[other].reporter == reports[id].reporter && reports[other].target == reports[id].target
  }

  /** Reopening is allowed from every decision, but the active-report index lets it through if and
      only if the reporter has not raised the same target again meanwhile. */
  lemma ReopeningNeedsNoNewerReport(
      reports: map<ReportId, Report>, id: ReportId, actor: UserId, note: string, now: Instant)
    requires OneActive(reports) && id in reports && Decided(reports[id].status)
    ensures TransitionAllowed(reports[id].status, Reviewing)
    ensures OneActive(reports[id := Changed(reports[id], actor, Reviewing, note, now)]) <==> !RaisedAgain(reports, id)
  {
    var reopened := reports[id := Changed(reports[id], actor, Reviewing, note, now)];
    if RaisedAgain(reports, id) {
      var other :| other in reports && other != id && reports[other].status in {Open, Reviewing}
                   && reports[other].reporter == reports[id].reporter && reports[other].target == reports[id].target;
      assert reopened[id].Active() && reopened[other] == reports[other];
    }
  }

  /** The log only grows: what was recorded stays recorded. */
  lemma AuditIsAppendOnly(events: seq<Event>, event: Event)
    ensures var before, after := Run(events).audit, Run(events + [event]).audit;
      |before| <= |after| <= |before| + 1 && after[..|before|] == before
  {
    assert (events + [event])[..|events|] == events;
    StepAppends(Run(events), event);
  }

  lemma StepAppends(s: State, event: Event)
    ensures var after := Apply(s, event).audit; |s.audit| <= |after| <= |s.audit| + 1 && after[..|s.audit|] == s.audit
  {
  }

  // ---- one request at a time -----------------------------------------------------------

  /** The table in words: a report may move to any other status, but from a decision only to review. */
  lemma TransitionsInWords(from: Status, to: Status)
    ensures TransitionAllowed(from, to) <==> from != to && (from in {Actioned, Dismissed} ==> to == Reviewing)
  {
  }

  /** How a request on a report it has locked ends. */
  function Settlement(
      reports: map<ReportId, Report>, actor: UserId, id: ReportId, newStatus: Status, note: string, now: Instant)
      : Result<Report, Error>
  {
    if id !in reports then Err(NotFound)
    else if reports[id].subject == Some(actor) then Err(Forbidden)
    else if !TransitionAllowed(reports[id].status, newStatus) then Err(Conflict)
    else
      var changed := Changed(reports[id], actor, newStatus, note, now);
      if OneActive(reports[id := changed]) then Ok(changed) else Err(Internal)
  }

  /** In full: who may move which report where, which refusal comes first, and what the report then
      says. */
  lemma SettledInWords(
      reports: map<ReportId, Report>, actor: UserId, id: ReportId, newStatus: Status, note: string, now: Instant)
    requires OneActive(reports)
    ensures Settlement(reports, actor, id, newStatus, note, now) ==
      if id !in reports then Err(NotFound)
      else
        var report := reports[id];
        if report.subject == Some(actor) then Err(Forbidden)
        else if newStatus == report.status || (report.status in {Actioned, Dismissed} && newStatus != Reviewing) then
          Err(Conflict)
        else if newStatus == Reviewing && report.status in {Actioned, Dismissed} && RaisedAgain(reports, id) then
          Err(Internal)
        else
          Ok(Report(report.reporter, report.subject, report.target, newStatus, Some(actor), note,
                    if newStatus in {Actioned, Dismissed} then Some(now) else None))
  {
    if id in reports {
      TransitionsInWords(reports[id].status, newStatus);
      IndexAdmits(reports, id, Changed(reports[id], actor, newStatus, note, now));
    }
  }

  /** The index objects to a change only where it makes a second undecided report of one reporter. */
  lemma IndexAdmits(reports: map<ReportId, Report>, id: ReportId, changed: Report)
    requires OneActive(reports) && id in reports
    requires changed.reporter == reports[id].reporter && changed.target == reports[id].target
    ensures OneActive(reports[id := changed]) <==>
      !(changed.status in {Open, Reviewing} && reports[id].status in {Actioned, Dismissed} && RaisedAgain(reports, id))
  {
    var after := reports[id := changed];
    if changed.Active() && RaisedAgain(reports, id) {
      var other :| other in reports && other != id && reports[other].status in {Open, Reviewing}
                   && reports[other].reporter == reports[id].reporter && reports[other].target == reports[id].target;
      assert after[other] == reports[other] && reports[other].Active() && after[id].Active();
    }
  }

  function SettlementOf(reports: map<ReportId, Report>, review: Review): Result<Report, Error> {
    Settlement(reports, review.actor, review.report, review.newStatus, review.note, review.now)
  }

  /** The lock and the decision, with no one in between. */
  function ReviewSteps(s: State, t: ReviewId): State {
    Apply(Apply(s, Step(t, true)), Step(t, true))
  }

  /** The interleaved steps, run alone, settle the request as its locked report does. */
  lemma ReviewAlone(s: State, t: ReviewId)
    requires t in s.reviews && s.reviews[t].phase.Opened? && s.reviews[t].report !in s.locks
    requires forall r :: r in s.locks ==> s.locks[r] != t
    ensures var s', settled := ReviewSteps(s, t), SettlementOf(s.reports, s.reviews[t]); var review := s.reviews[t];
      && s'.reviews == s.reviews[t := review.(phase := if settled.Ok? then Done else Failed(settled.error))]
      && s'.locks == s.locks
      && (settled.Err? ==> s'.reports == s.reports && s'.audit == s.audit)
      && (settled.Ok? ==>
            && s'.reports == s.reports[review.report := settled.value]
            && s'.audit == s.audit + [AuditRow(review.report, review.actor, s.reports[review.report].status,
                                               review.newStatus, review.note)])
  {
    var review := s.reviews[t];
    if review.report in s.reports {
      var s1 := Apply(s, Step(t, true));
      assert s1.reviews[t].phase == Locked(s.reports[review.report].status, s.reports[review.report].subject);
      DecideAlone(s, s1, t);
    }
  }

  lemma DecideAlone(s: State, s1: State, t: ReviewId)
    requires t in s.reviews && s.reviews[t].phase.Opened? && s.reviews[t].report in s.reports
    requires s.reviews[t].report !in s.locks && forall r :: r in s.locks ==> s.locks[r] != t
    requires var review := s.reviews[t]; var report := s.reports[review.report];
      s1 == s.(reviews := s.reviews[t := review.(phase := Locked(report.status, report.subject))],
               locks := s.locks[review.report := t])
    ensures var s', settled := Decide(s1, t), SettlementOf(s.reports, s.reviews[t]); var review := s.reviews[t];
      && s'.reviews == s.reviews[t := review.(phase := if settled.Ok? then Done else Failed(settled.error))]
      && s'.locks == s.locks
      && s'.reports == (if settled.Ok? then s.reports[review.report := settled.value] else s.reports)
      && s'.audit == (if settled.Ok? then
                        s.audit + [AuditRow(review.report, review.actor, s.reports[review.report].status,
                                            review.newStatus, review.note)]
                      else s.audit)
  {
    EndUnlocks(s, s1, t);
  }

  lemma EndUnlocks(s: State, s1: State, t: ReviewId)
    requires t in s1.reviews && forall r :: r in s.locks ==> s.locks[r] != t
    requires s1.locks == s.locks[s1.reviews[t].report := t] && s1.reviews[t].report !in s.locks
    ensures forall phase :: End(s1, t, phase).locks == s.locks
  {
  }

  /** A review that fails at any step leaves report and log, and holds no lock. */
  lemma FailuresCount(s: State, t: ReviewId)
    requires Active(s, t)
    ensures var s' := Apply(s, Step(t, false));
      && s'.reviews == s.reviews[t := s.reviews[t].(phase := Failed(Internal))]
      && s'.reports == s.reports && s'.audit == s.audit && (forall r :: r in s'.locks ==> s'.locks[r] != t)
  {
  }

  // ---- a reopening that is refused -----------------------------------------------------

  lemma RunAppends(events: seq<Event>, event: Event)
    ensures Run(events + [event]) == Apply(Run(events), event)
  {
    assert (events + [event])[..|events|] == events;
  }

  /** Review `t` of report 0, from its request to its end. */
  function ReviewEvents(t: ReviewId, actor: UserId, status: Status, now: Instant): seq<Event> {
    [Begin(t, actor, 0, status, "reviewed", now), Step(t, true), Step(t, true)]
  }

  lemma RunReview(events: seq<Event>, t: ReviewId, actor: UserId, status: Status, now: Instant)
    requires var s := Run(events); t !in s.reviews && s.locks == map[]
    ensures var s, s' := Run(events), Run(events + ReviewEvents(t, actor, status, now));
      var settled := Settlement(s.reports, actor, 0, status, "reviewed", now);
      && t in s'.reviews && s'.locks == map[]
      && s'.reviews == s.reviews[t := s'.reviews[t]]
      && s'.reviews[t].phase == (if settled.Ok? then Done else Failed(settled.error))
      && s'.reports == if settled.Ok? then s.reports[0 := settled.value] else s.reports
  {
    var begin := Begin(t, actor, 0, status, "reviewed", now);
    RunAppends(events, begin);
    RunAppends(events + [begin], Step(t, true));
    RunAppends(events + [begin] + [Step(t, true)], Step(t, true));
    assert events + ReviewEvents(t, actor, status, now) == events + [begin] + [Step(t, true)] + [Step(t, true)];
    ReviewAlone(Run(events + [begin]), t);
  }

  /** File, decide, file again, reopen: the reopening is allowed by the table and refused by the
      index, in a run that starts from nothing. */
  lemma ReopeningIsRefused(reporter: UserId, subject: Option<UserId>, target: nat, actor: UserId, decision: Status)
    requires Decided(decision) && subject != Some(actor) && subject != Some(reporter)
    ensures var filed := [File(0, reporter, subject, target)] + ReviewEvents(1, actor, decision, 0)
                         + [File(1, reporter, subject, target)];
      var s, s' := Run(filed), Run(filed + ReviewEvents(2, actor, Reviewing, 1));
      && 0 in s.reports && s.reports[0].status == decision && TransitionAllowed(decision, Reviewing)
      && 2 in s'.reviews && s'.reviews[2].phase == Failed(Internal) && s'.reports == s.reports
  {
    var first := [File(0, reporter, subject, target)];
    var decided := first + ReviewEvents(1, actor, decision, 0);
    var again := File(1, reporter, subject, target);
    RunAppends([], File(0, reporter, subject, target));
    assert [] + first == first;
    var report := Report(Some(reporter), subject, target, Open, None, "", None);
    assert Run(first) == State(map[0 := report], [], map[], map[]);
    RunReview(first, 1, actor, decision, 0);
    RunAppends(decided, again);
    var s := Run(decided + [again]);
    assert s.reports == map[0 := Changed(report, actor, decision, "reviewed", 0), 1 := report];
    RunReview(decided + [again], 2, actor, Reviewing, 1);
    ReopeningNeedsNoNewerReport(s.reports, 0, actor, "reviewed", 1);
    assert RaisedAgain(s.reports, 0) by { assert s.reports[1].Active(); }
  }

  class Desk {
    var reports: map<ReportId, Report>
    var audit: seq<AuditRow>

    constructor ()
      ensures reports == map[] && audit == []
    {
      reports, audit := map[], [];
    }

    /** The update of a report the request has locked, and the audit row beside it. */
    method UpdateReportStatus(actor: UserId, id: ReportId, newStatus: Status, note: string, now: Instant)
      returns (result: Result<Report, Error>)
      modifies this
      ensures result == Settlement(old(reports), actor, id, newStatus, note, now)
      ensures result.Err? ==> reports == old(reports) && audit == old(audit)
      ensures result.Ok? ==>
        && reports == old(reports)[id := result.value] && result.value.status == newStatus
        && (result.value.resolvedAt == if Decided(newStatus) then Some(now) else None)
        && audit == old(audit) + [AuditRow(id, actor, old(reports)[id].status, newStatus, note)]
      ensures result == Err(Forbidden) <==> id in old(reports) && old(reports)[id].subject == Some(actor)
    {
      if id !in reports {
        return Err(NotFound);
      }
      var oldStatus, subject := reports[id].status, reports[id].subject;
      if subject == Some(actor) {
        return Err(Forbidden);
      }
      if !TransitionAllowed(oldStatus, newStatus) {
        return Err(Conflict);
      }
      var report := Changed(reports[id], actor, newStatus, note, now);
      if !OneActive(reports[id := report]) {
        return Err(Internal);
      }
      reports := reports[id := report];
      audit := audit + [AuditRow(id, actor, oldStatus, newStatus, note)];
      return Ok(report);
    }
  }
}
