/** The parts of AttendanceSystem in bio/main.py that tie the components together:
    one step of simulation_thread (authenticate, then log a punch) and shutdown
    (stop, export once, stop the receiver). */
module Kiosk {
  import opened Wrappers
  import opened Formats
  import opened Consensus
  import opened AttendanceLog
  import opened CommandReceiver

  /** random.choice(["in", "out"]) */
  datatype Direction = In | Out

  function AttenType(d: Direction): string {
    match d
    case In => "in"
    case Out => "out"
  }

  /** What one pass of simulation_thread's loop does. */
  datatype StepOutcome = Stopped | NoPunch | Punched(employeeId: string) | ThreadDied

  /** `if not self.running: break`, then `if emp_id := self.authenticate_employee()`:
      only a truthy id (not None, not "") is logged, and an exception from the
      matchers ends the thread. `running` is the flag as read at the top of the
      iteration, before the sleep. */
  function StepOutcomeOf(running: bool, auth: AuthResult): (o: StepOutcome)
    ensures o == Stopped <==> !running
    ensures o == ThreadDied <==> running && auth == Fault
    ensures o.Punched? <==> running && auth.Answer? && auth.identity.Some? && auth.identity.value != ""
    ensures o.Punched? ==> auth == Answer(Some(o.employeeId))
  {
    if !running then Stopped
    else
      match auth
      case Fault => ThreadDied
      case Answer(None) => NoPunch
      case Answer(Some(id)) => if id != "" then Punched(id) else NoPunch
  }

  /** The record log_attendance is asked to store for a punch. */
  function PunchRecord(deviceId: string, employeeId: string, direction: Direction, epochMillis: nat, now: DateTime): (r: Record)
    ensures r.attenType == "in" || r.attenType == "out"
  {
    Record(employeeId, PunchTime(now), AttenType(direction), deviceId, UniqueId(deviceId, epochMillis))
  }

  /** A punch is logged only when the flag read before the sleep was set, the
      enabled matchers raised nothing and every one that answered agreed on a
      non-empty id. */
  lemma PunchNeedsConsensus(running: bool, flags: AuthFlags, pool: Pool, id: string)
    requires StepOutcomeOf(running, Authenticate(flags, pool)) == Punched(id)
    ensures running && id != ""
    ensures exists m :: Enabled(flags, m) && OutcomeOf(pool, m) == Responded(Some(id))
    ensures forall m :: Enabled(flags, m) ==>
      OutcomeOf(pool, m) != Raised && (OutcomeOf(pool, m).Responded? ==> OutcomeOf(pool, m).identity == Some(id))
  {
    AuthenticateIdentifies(flags, pool, id);
    var m :| Enabled(flags, m) && OutcomeOf(pool, m).Responded?;
    assert OutcomeOf(pool, m) == Responded(Some(id));
  }

  /** One iteration of simulation_thread. `runningBeforeSleep` is `self.running`
      as the iteration read it, before `time.sleep(interval)`; the rest of the
      iteration runs after the sleep and does not look at the flag again, so a
      shutdown during the sleep does not stop it. */
  method SimulationStep(sys: AttendanceSystem, runningBeforeSleep: bool, pool: Pool, direction: Direction,
                        epochMillis: nat, now: DateTime)
    returns (outcome: StepOutcome)
    requires sys.Valid()
    modifies sys`logs
    ensures sys.Valid()
    ensures outcome == StepOutcomeOf(runningBeforeSleep, Authenticate(sys.authentication, pool))
    ensures sys.logs == if outcome.Punched?
      then Insert(old(sys.logs), PunchRecord(sys.deviceId, outcome.employeeId, direction, epochMillis, now))
      else old(sys.logs)
  {
    if !runningBeforeSleep {
      return Stopped;
    }
    var auth := AuthenticateEmployee(sys.authentication, pool);
    match auth {
      case Fault =>
        outcome := ThreadDied;
      case Answer(empId) =>
        if empId.Some? && empId.value != "" {
          sys.LogAttendance(empId.value, AttenType(direction), epochMillis, now);
          outcome := Punched(empId.value);
        } else {
          outcome := NoPunch;
        }
    }
  }

  /** shutdown: clear the running flag, export exactly once, stop the receiver. */
  method Shutdown(sys: AttendanceSystem, receiver: CommandReceiver, now: DateTime, fault: ExportFault)
    requires sys.Valid()
    modifies sys`running, sys`logs, sys`csvFolder, receiver`running
    ensures sys.Valid() && !sys.running && !receiver.running
    ensures var r := Export(old(sys.logs), old(sys.csvFolder), now, fault);
      sys.logs == r.logs && sys.csvFolder == r.folder
  {
    sys.running := false;
    var exported := sys.PrepareCsvBatch(now, fault);
    receiver.Stop();
  }

  /** A shutdown that falls in a step's sleep: the step read the flag before
      shutdown cleared it, so its punch is logged after the final export. After a
      successful export that punch is the only row, and it stays in the table with
      no export left to write it out. */
  lemma PunchAfterFinalExport(logs: seq<Record>, folder: Folder, now: DateTime, rec: Record)
    requires Export(logs, folder, now, NoFault).exported
    ensures Insert(Export(logs, folder, now, NoFault).logs, rec) == [rec]
  {
    ExportKeepsEveryRecord(logs, folder, now, NoFault);
    InsertSpec([], rec);
  }

  /** simulation_thread's iteration with shutdown running during its sleep: the
      flag is read, shutdown stops the system and exports, then the step goes on
      with the flag it read. */
  method StepAcrossShutdown(sys: AttendanceSystem, receiver: CommandReceiver, pool: Pool, direction: Direction,
                            epochMillis: nat, now: DateTime, fault: ExportFault)
    returns (outcome: StepOutcome)
    requires sys.Valid()
    modifies sys`running, sys`logs, sys`csvFolder, receiver`running
    ensures sys.Valid() && !sys.running && !receiver.running
    ensures outcome == StepOutcomeOf(old(sys.running), Authenticate(sys.authentication, pool))
    ensures var r := Export(old(sys.logs), old(sys.csvFolder), now, fault);
      sys.csvFolder == r.folder &&
      sys.logs == if outcome.Punched?
        then Insert(r.logs, PunchRecord(sys.deviceId, outcome.employeeId, direction, epochMillis, now))
        else r.logs
  {
    var runningBeforeSleep := sys.running;
    Shutdown(sys, receiver, now, fault);
    outcome := SimulationStep(sys, runningBeforeSleep, pool, direction, epochMillis, now);
  }
}
