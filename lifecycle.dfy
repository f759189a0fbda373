/** The three run lifecycle handlers: a run has started, is alive, or has
    completed. Each looks the run up, returns quietly when it is missing, and
    otherwise writes a few columns of it in one transaction. */
module RunLifecycle {
  import opened Wrappers
  import opened Entities
  import opened Errors
  import opened Store
  import opened MetricStatus
  import opened MetricRunRepository

  /** `new Date(text)` on a timestamp string: the instant it denotes, or
      `None` for an invalid date, which the database then refuses. */
  type DateParser = string -> Option<int>

  /** The effect of a handler: the tables afterwards and the outcome. */
  datatype Handled = Handled(db: Tables, outcome: Outcome<Failure>)

  /** Every run with the id gets `change` applied; the other runs stay. */
  predicate AppliedToRun(before: seq<MetricRun>, after: seq<MetricRun>, runId: string,
                         change: MetricRun -> MetricRun)
  {
    && |after| == |before|
    && forall i :: 0 <= i < |before| ==>
         after[i] == if before[i].id == runId then change(before[i]) else before[i]
  }

  /** Writes `patch` to the run, after the timestamp it needs has been read. */
  function Write(db: Tables, runId: string, patch: Result<RunPatch, Failure>): Handled {
    match FindById(db, runId)
    case None => Handled(db, Pass)
    case Some(_) =>
      match patch
      case Err(e) => Handled(db, Fail(e))
      case Ok(p) => Handled(db.(runs := UpdateRuns(db.runs, runId, p)), Pass)
  }

  /** A timestamp read with `parse`, or the invalid-date error. */
  function ParseDate(parse: DateParser, text: string): Result<int, Failure> {
    match parse(text)
    case None => Err(InvalidDate(text))
    case Some(t) => Ok(t)
  }

  // ---------------------------------------------------------------------
  // Started

  /** `startedAt`: the event's timestamp when it is given and not empty,
      otherwise the clock. */
  function StartedAt(event: MetricRunStartedEvent, parse: DateParser, now: int): Result<int, Failure> {
    if event.startedAt.Some? && event.startedAt.value != "" then ParseDate(parse, event.startedAt.value)
    else Ok(now)
  }

  function StartedPatch(event: MetricRunStartedEvent, parse: DateParser, now: int): Result<RunPatch, Failure> {
    match StartedAt(event, parse, now)
    case Err(e) => Err(e)
    case Ok(t) => Ok(NO_CHANGES.(status := Some(RUNNING), startedAt := Some(t)))
  }

  function Started(db: Tables, event: MetricRunStartedEvent, parse: DateParser, now: int): Handled {
    Write(db, event.runId, StartedPatch(event, parse, now))
  }

  /** `OnMetricRunStartedUseCase.execute`. */
  method OnStarted(st: Store, event: MetricRunStartedEvent, parse: DateParser, now: int)
    returns (r: Outcome<Failure>)
    requires st.Valid()
    modifies st
    ensures var h := Started(old(st.db), event, parse, now);
      st.db == h.db && r == h.outcome
    ensures st.outbox == old(st.outbox) && st.nextId == old(st.nextId)
    ensures st.Valid()
  {
    var run := FindById(st.db, event.runId);
    if run.None? {
      return Pass;
    }
    var startedAt: int;
    if event.startedAt.Some? && event.startedAt.value != "" {
      var parsed := parse(event.startedAt.value);
      if parsed.None? {
        return Fail(InvalidDate(event.startedAt.value));
      }
      startedAt := parsed.value;
    } else {
      startedAt := now;
    }
    var updated := Update(st, event.runId, NO_CHANGES.(status := Some(RUNNING), startedAt := Some(startedAt)));
    if updated.Err? {
      assert false;
    }
    r := Pass;
  }

  // ---------------------------------------------------------------------
  // Heartbeat

  function HeartbeatPatch(event: MetricRunHeartbeatEvent, parse: DateParser): Result<RunPatch, Failure> {
    match ParseDate(parse, event.ts)
    case Err(e) => Err(e)
    case Ok(t) => Ok(NO_CHANGES.(lastHeartbeatAt := Some(t)))
  }

  function Heartbeat(db: Tables, event: MetricRunHeartbeatEvent, parse: DateParser): Handled {
    Write(db, event.runId, HeartbeatPatch(event, parse))
  }

  /** `OnMetricRunHeartbeatUseCase.execute`. */
  method OnHeartbeat(st: Store, event: MetricRunHeartbeatEvent, parse: DateParser)
    returns (r: Outcome<Failure>)
    requires st.Valid()
    modifies st
    ensures var h := Heartbeat(old(st.db), event, parse);
      st.db == h.db && r == h.outcome
    ensures st.outbox == old(st.outbox) && st.nextId == old(st.nextId)
    ensures st.Valid()
  {
    var run := FindById(st.db, event.runId);
    if run.None? {
      return Pass;
    }
    var heartbeatAt := parse(event.ts);
    if heartbeatAt.None? {
      return Fail(InvalidDate(event.ts));
    }
    var updated := Update(st, event.runId, NO_CHANGES.(lastHeartbeatAt := Some(heartbeatAt.value)));
    if updated.Err? {
      assert false;
    }
    r := Pass;
  }

  // ---------------------------------------------------------------------
  // Completed

  /** "SUCCESS" means succeeded; any other completion status means failed. */
  function FinalStatus(status: string): string {
    if status == "SUCCESS" then SUCCEEDED else FAILED
  }

  function CompletedPatch(event: MetricRunCompletedEvent, now: int): RunPatch {
    NO_CHANGES.(status := Some(FinalStatus(event.status)), finishedAt := Some(now),
      versionTs := event.versionTs, manifestPath := event.outputManifest,
      rowCount := event.rowCount, error := event.error)
  }

  function Completed(db: Tables, event: MetricRunCompletedEvent, now: int): Handled {
    Write(db, event.runId, Ok(CompletedPatch(event, now)))
  }

  /** `OnMetricRunCompletedUseCase.execute`. */
  method OnCompleted(st: Store, event: MetricRunCompletedEvent, now: int) returns (r: Outcome<Failure>)
    requires st.Valid()
    modifies st
    ensures var h := Completed(old(st.db), event, now);
      st.db == h.db && r == h.outcome
    ensures st.outbox == old(st.outbox) && st.nextId == old(st.nextId)
    ensures st.Valid()
  {
    var run := FindById(st.db, event.runId);
    if run.None? {
      return Pass;
    }
    var status := if event.status == "SUCCESS" then SUCCEEDED else FAILED;
    var updated := Update(st, event.runId,
      NO_CHANGES.(status := Some(status), finishedAt := Some(now), versionTs := event.versionTs,
                  manifestPath := event.outputManifest, rowCount := event.rowCount, error := event.error));
    if updated.Err? {
      assert false;
    }
    r := Pass;
  }

  // ---------------------------------------------------------------------
  // Properties

  /** A missing run is not an error, and nothing is written. */
  lemma MissingRunIgnored(db: Tables, runId: string, started: MetricRunStartedEvent,
                          heartbeat: MetricRunHeartbeatEvent, completed: MetricRunCompletedEvent,
                          parse: DateParser, now: int)
    requires forall run :: run in db.runs ==> run.id != runId
    requires started.runId == runId && heartbeat.runId == runId && completed.runId == runId
    ensures Started(db, started, parse, now) == Handled(db, Pass)
    ensures Heartbeat(db, heartbeat, parse) == Handled(db, Pass)
    ensures Completed(db, completed, now) == Handled(db, Pass)
  {
  }

  /** Writing a patch to an existing run changes that run as `Patched` says
      and nothing else. */
  lemma WriteChangesOnlyRun(db: Tables, runId: string, patch: RunPatch, change: MetricRun -> MetricRun)
    requires FindById(db, runId).Some?
    requires forall run: MetricRun :: change(run) == Patched(run, patch)
    ensures var h := Write(db, runId, Ok(patch));
      && h.outcome == Pass
      && h.db == db.(runs := h.db.runs)
      && AppliedToRun(db.runs, h.db.runs, runId, change)
  {
  }

  /** An existing run, whatever its status, becomes running with the
      event's start time (the clock when none is given); no other column
      and no other run changes. An unreadable start time writes nothing. */
  lemma StartedSetsStatusAndStart(db: Tables, event: MetricRunStartedEvent, parse: DateParser, now: int)
    requires FindById(db, event.runId).Some?
    ensures var h := Started(db, event, parse, now);
      match StartedAt(event, parse, now)
      case Err(e) => h == Handled(db, Fail(e)) && event.startedAt.Some? && parse(event.startedAt.value).None?
      case Ok(t) =>
        && h.outcome == Pass && h.db == db.(runs := h.db.runs)
        && (t == if event.startedAt.Some? && event.startedAt.value != "" then parse(event.startedAt.value).value
                 else now)
        && AppliedToRun(db.runs, h.db.runs, event.runId,
             (run: MetricRun) => run.(status := RUNNING, startedAt := Some(t)))
  {
    var start := StartedAt(event, parse, now);
    if start.Ok? {
      var t := start.value;
      WriteChangesOnlyRun(db, event.runId, NO_CHANGES.(status := Some(RUNNING), startedAt := Some(t)),
        (run: MetricRun) => run.(status := RUNNING, startedAt := Some(t)));
    }
  }

  /** A heartbeat sets `lastHeartbeatAt` of an existing run and nothing
      else: the status stays, and the reported progress is not stored. */
  lemma HeartbeatSetsOnlyHeartbeat(db: Tables, event: MetricRunHeartbeatEvent, parse: DateParser)
    requires FindById(db, event.runId).Some?
    ensures var h := Heartbeat(db, event, parse);
      && h == Heartbeat(db, event.(progress := None), parse)
      && match parse(event.ts)
         case None => h == Handled(db, Fail(InvalidDate(event.ts)))
         case Some(t) =>
           && h.outcome == Pass && h.db == db.(runs := h.db.runs)
           && AppliedToRun(db.runs, h.db.runs, event.runId, (run: MetricRun) => run.(lastHeartbeatAt := Some(t)))
  {
    if parse(event.ts).Some? {
      var t := parse(event.ts).value;
      WriteChangesOnlyRun(db, event.runId, NO_CHANGES.(lastHeartbeatAt := Some(t)),
        (run: MetricRun) => run.(lastHeartbeatAt := Some(t)));
    }
  }

  /** The run completed, whatever its status: "SUCCESS" makes it succeeded
      and anything else failed, `finishedAt` is the clock, and the optional
      results the event carries replace the stored ones (those it omits
      stay); nothing else changes. */
  function CompletedRun(run: MetricRun, event: MetricRunCompletedEvent, now: int): MetricRun {
    run.(status := FinalStatus(event.status), finishedAt := Some(now),
         versionTs := Overwrite(event.versionTs, run.versionTs),
         manifestPath := Overwrite(event.outputManifest, run.manifestPath),
         rowCount := Overwrite(event.rowCount, run.rowCount),
         error := Overwrite(event.error, run.error))
  }

  lemma CompletedSetsOutcome(db: Tables, event: MetricRunCompletedEvent, now: int)
    requires FindById(db, event.runId).Some?
    ensures var h := Completed(db, event, now);
      && h.outcome == Pass && h.db == db.(runs := h.db.runs)
      && AppliedToRun(db.runs, h.db.runs, event.runId, (run: MetricRun) => CompletedRun(run, event, now))
      && (event.status == "SUCCESS" ==> FinalStatus(event.status) == SUCCEEDED)
      && (event.status != "SUCCESS" ==> FinalStatus(event.status) == FAILED)
  {
    WriteChangesOnlyRun(db, event.runId, CompletedPatch(event, now),
      (run: MetricRun) => CompletedRun(run, event, now));
  }
}
