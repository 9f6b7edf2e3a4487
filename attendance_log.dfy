/** The attendance log store of bio/main.py: the `logs` table keyed by unique_id,
    the insert done by log_attendance, and the batch export done by
    prepare_csv_batch, which writes every row to a timestamped CSV file in the
    temp_csv_files folder and then empties the table. Each operation runs under
    db_lock, so each is one atomic method here. */
module AttendanceLog {
  import opened Wrappers
  import opened Formats
  import opened Consensus

  /** A row of the logs table. */
  datatype Record = Record(empCode: string, punchTime: string, attenType: string, deviceId: string, uniqueId: string)

  /** The primary key constraint on unique_id. */
  predicate IdsDistinct(logs: seq<Record>) {
    forall i, j :: 0 <= i < j < |logs| ==> logs[i].uniqueId != logs[j].uniqueId
  }

  predicate HasId(logs: seq<Record>, id: string) {
    exists i :: 0 <= i < |logs| && logs[i].uniqueId == id
  }

  /** `INSERT INTO logs`: a row whose unique_id is already stored raises
      IntegrityError, which is caught and rolled back. */
  function Insert(logs: seq<Record>, rec: Record): seq<Record>
  {
    if HasId(logs, rec.uniqueId) then logs else logs + [rec]
  }

  /** An insert adds exactly the new record when its id is fresh, changes nothing
      when the id is taken, and keeps the key unique. */
  lemma InsertSpec(logs: seq<Record>, rec: Record)
    requires IdsDistinct(logs)
    ensures IdsDistinct(Insert(logs, rec))
    ensures !HasId(logs, rec.uniqueId) ==> Insert(logs, rec) == logs + [rec]
    ensures HasId(logs, rec.uniqueId) ==> Insert(logs, rec) == logs
    ensures HasId(Insert(logs, rec), rec.uniqueId)
  {
    if !HasId(logs, rec.uniqueId) {
      var r := logs + [rec];
      assert r[|logs|].uniqueId == rec.uniqueId;
    }
  }

  /** A second punch from the same device in the same millisecond gets the same id
      and is dropped, whatever its employee, time or direction. */
  lemma SameMillisecondPunchDropped(logs: seq<Record>, first: Record, second: Record)
    requires first.uniqueId == second.uniqueId
    ensures Insert(Insert(logs, first), second) == Insert(logs, first)
  {
    var once := Insert(logs, first);
    if !HasId(logs, first.uniqueId) {
      assert once[|logs|].uniqueId == first.uniqueId;
    }
  }

  /** Punches made by one device in different milliseconds are both kept. */
  lemma DistinctMillisecondsBothKept(logs: seq<Record>, deviceId: string, m1: nat, m2: nat, first: Record, second: Record)
    requires m1 != m2
    requires first.uniqueId == UniqueId(deviceId, m1) && second.uniqueId == UniqueId(deviceId, m2)
    requires !HasId(logs, first.uniqueId) && !HasId(logs, second.uniqueId)
    ensures Insert(Insert(logs, first), second) == logs + [first, second]
  {
    UniqueIdInjective(deviceId, m1, deviceId, m2);
    var once := logs + [first];
    assert !HasId(once, second.uniqueId) by {
      forall i | 0 <= i < |once| ensures once[i].uniqueId != second.uniqueId {
        if i < |logs| {
          assert once[i] == logs[i];
        }
      }
    }
  }

  // ---------------------------------------------------------------------------
  // Batch files
  // ---------------------------------------------------------------------------

  /** A CSV row, as the csv module writes the fields of a tuple. */
  type Row = seq<string>

  const Header: Row := ["emp_code", "punch_time", "atten_type", "device_id", "unique_id"]

  function RecordRow(r: Record): Row {
    [r.empCode, r.punchTime, r.attenType, r.deviceId, r.uniqueId]
  }

  function RecordRows(logs: seq<Record>): seq<Row> {
    if logs == [] then [] else [RecordRow(logs[0])] + RecordRows(logs[1..])
  }

  /** The rows of a batch file: writerow(header) and then writerows(logs). */
  function BatchRows(logs: seq<Record>): seq<Row> {
    [Header] + RecordRows(logs)
  }

  function RowRecord(row: Row): Option<Record> {
    if |row| == 5 then Some(Record(row[0], row[1], row[2], row[3], row[4])) else None
  }

  function ParseRows(rows: seq<Row>): Option<seq<Record>> {
    if rows == [] then Some([])
    else
      match (RowRecord(rows[0]), ParseRows(rows[1..]))
      case (Some(r), Some(rest)) => Some([r] + rest)
      case _ => None
  }

  /** Reads a batch file back: the header, then one record per row. */
  function ParseBatch(rows: seq<Row>): Option<seq<Record>> {
    if |rows| > 0 && rows[0] == Header then ParseRows(rows[1..]) else None
  }

  lemma {:induction false} RecordRowsRoundTrip(logs: seq<Record>)
    ensures ParseRows(RecordRows(logs)) == Some(logs)
  {
    if logs != [] {
      RecordRowsRoundTrip(logs[1..]);
      assert RecordRows(logs)[1..] == RecordRows(logs[1..]);
      assert [logs[0]] + logs[1..] == logs;
    }
  }

  /** A batch file holds exactly the exported records, in table order. */
  lemma BatchRoundTrip(logs: seq<Record>)
    ensures ParseBatch(BatchRows(logs)) == Some(logs)
  {
    RecordRowsRoundTrip(logs);
    assert BatchRows(logs)[1..] == RecordRows(logs);
  }

  /** The temp_csv_files folder: file name to rows. */
  type Folder = map<string, seq<Row>>

  /** Where prepare_csv_batch can fail: opening or writing the file, or deleting the
      rows and committing after the file was written. */
  datatype ExportFault = NoFault | WriteFails | DeleteFails

  datatype ExportResult = ExportResult(exported: bool, logs: seq<Record>, folder: Folder)

  /** prepare_csv_batch on the table `logs` at reading `now`. */
  function Export(logs: seq<Record>, folder: Folder, now: DateTime, fault: ExportFault): ExportResult
  {
    if logs == [] then ExportResult(false, logs, folder)
    else
      match fault
      case NoFault => ExportResult(true, [], folder[BatchFileName(now) := BatchRows(logs)])
      case WriteFails => ExportResult(false, logs, folder)
      case DeleteFails => ExportResult(false, logs, folder[BatchFileName(now) := BatchRows(logs)])
  }

  /** An export reports True exactly when there were rows and nothing failed; then
      its file holds every row in order and the table is empty; otherwise every row
      stays in the table. No other file of the folder changes. */
  lemma ExportKeepsEveryRecord(logs: seq<Record>, folder: Folder, now: DateTime, fault: ExportFault)
    ensures var r := Export(logs, folder, now, fault);
      (r.exported <==> logs != [] && fault == NoFault) &&
      (r.exported ==> r.logs == [] && BatchFileName(now) in r.folder &&
                      ParseBatch(r.folder[BatchFileName(now)]) == Some(logs)) &&
      (!r.exported ==> r.logs == logs) &&
      (forall name :: name in folder && name != BatchFileName(now) ==> name in r.folder && r.folder[name] == folder[name]) &&
      (forall name :: name in r.folder ==> name in folder || name == BatchFileName(now))
  {
    BatchRoundTrip(logs);
  }

  /** Exporting an empty table reports False and writes nothing; so does an export
      right after a successful one. */
  lemma EmptyExportChangesNothing(logs: seq<Record>, folder: Folder, t1: DateTime, t2: DateTime, fault: ExportFault)
    ensures Export([], folder, t2, fault) == ExportResult(false, [], folder)
    ensures var r1 := Export(logs, folder, t1, NoFault);
      Export(r1.logs, r1.folder, t2, fault) == ExportResult(false, r1.logs, r1.folder)
  {
  }

  /** When deleting the rows fails after the file was written, the rows stay in the
      table and are also in the file: the next export writes them a second time. */
  lemma FailedDeleteKeepsBothCopies(logs: seq<Record>, folder: Folder, now: DateTime)
    requires logs != []
    ensures var r := Export(logs, folder, now, DeleteFails);
      !r.exported && r.logs == logs && ParseBatch(r.folder[BatchFileName(now)]) == Some(logs)
  {
    BatchRoundTrip(logs);
  }

  /** Two exports within the same second write the same file name, and the file is
      opened for writing, not for exclusive creation: the second batch replaces the
      first, whose rows are then neither in the table nor in that file. */
  lemma SameSecondExportReplacesBatch(first: seq<Record>, second: seq<Record>, folder: Folder, now: DateTime)
    requires first != [] && second != []
    ensures var r1 := Export(first, folder, now, NoFault);
      var r2 := Export(second, r1.folder, now, NoFault);
      r1.exported && r2.exported && r2.logs == [] &&
      ParseBatch(r1.folder[BatchFileName(now)]) == Some(first) &&
      ParseBatch(r2.folder[BatchFileName(now)]) == Some(second) &&
      r2.folder == folder[BatchFileName(now) := BatchRows(second)]
  {
    BatchRoundTrip(first);
    BatchRoundTrip(second);
  }

  // ---------------------------------------------------------------------------
  // The employees table seed (init_databases)
  // ---------------------------------------------------------------------------

  datatype Employee = Employee(employeeId: string, name: string, faceTemplate: string, fingerTemplate: string,
                               irisTemplate: string, assignedLocation: string)

  const SampleEmployees: seq<Employee> := [
    Employee("E001", "Sriram", "face1", "finger1", "iris1", "Location_A"),
    Employee("E002", "Akhila", "face2", "finger2", "iris2", "Location_B"),
    Employee("E003", "Sarthak", "face3", "finger3", "iris3", "Location_A")
  ]

  predicate EmployeeIdsDistinct(table: seq<Employee>) {
    forall i, j :: 0 <= i < j < |table| ==> table[i].employeeId != table[j].employeeId
  }

  /** The seed rows go in only when the employees table is empty; they respect its
      primary key, and a table that has rows is left as it is. */
  function Seeded(table: seq<Employee>): (r: seq<Employee>)
    ensures r != []
    ensures table == [] ==> r == SampleEmployees
    ensures table != [] ==> r == table
    ensures EmployeeIdsDistinct(table) ==> EmployeeIdsDistinct(r)
  {
    if |table| == 0 then SampleEmployees else table
  }

  // ---------------------------------------------------------------------------
  // The system object
  // ---------------------------------------------------------------------------

  /** The state of AttendanceSystem that its operations read and change. */
  class AttendanceSystem {
    const deviceId: string
    const authentication: AuthFlags
    var running: bool
    var employees: seq<Employee>
    var logs: seq<Record>
    var csvFolder: Folder

    ghost predicate Valid()
      reads this
    {
      IdsDistinct(logs)
    }

    /** __init__ with init_databases: the tables persist between runs, and the
        employees table is seeded when empty. */
    constructor (deviceId: string, authentication: AuthFlags, employeesTable: seq<Employee>,
                 logsTable: seq<Record>, folder: Folder)
      requires IdsDistinct(logsTable)
      ensures Valid() && running
      ensures this.deviceId == deviceId && this.authentication == authentication
      ensures employees == Seeded(employeesTable) && logs == logsTable && csvFolder == folder
    {
      this.deviceId := deviceId;
      this.authentication := authentication;
      employees := Seeded(employeesTable);
      logs := logsTable;
      csvFolder := folder;
      running := true;
    }

    /** log_attendance: stamp the punch and insert it unless its id is taken. */
    method LogAttendance(empCode: string, attenType: string, epochMillis: nat, now: DateTime)
      requires Valid()
      modifies this`logs
      ensures Valid()
      ensures logs == Insert(old(logs), Record(empCode, PunchTime(now), attenType, deviceId, UniqueId(deviceId, epochMillis)))
    {
      var uniqueId := UniqueId(deviceId, epochMillis);
      var rec := Record(empCode, PunchTime(now), attenType, deviceId, uniqueId);
      InsertSpec(logs, rec);
      if HasId(logs, uniqueId) {
        // IntegrityError: "Duplicate entry prevented", rolled back
      } else {
        logs := logs + [rec];
      }
    }

    /** prepare_csv_batch: read every row; with none, report False; otherwise write
        them under a timestamped name, delete them and report True, rolling the
        delete back and reporting False if anything fails. */
    method PrepareCsvBatch(now: DateTime, fault: ExportFault) returns (exported: bool)
      requires Valid()
      modifies this`logs, this`csvFolder
      ensures Valid()
      ensures var r := Export(old(logs), old(csvFolder), now, fault);
        exported == r.exported && logs == r.logs && csvFolder == r.folder
    {
      var rows := logs;
      if rows == [] {
        return false;
      }
      var csvFile := BatchFileName(now);
      if fault == WriteFails {
        return false;
      }
      csvFolder := csvFolder[csvFile := BatchRows(rows)];
      if fault == DeleteFails {
        return false;
      }
      logs := [];
      exported := true;
    }
  }
}
