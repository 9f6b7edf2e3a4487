# Attendance kiosk: a verified model

This project models, in Dafny, the record-keeping and decision rules of a small
biometric attendance kiosk:

- **Consensus authentication** (`AttendanceSystem.authenticate_employee`). The
  kiosk builds one matcher task for each enabled modality, in the order facial,
  finger, iris. It skips a task that timed out. It accepts an employee id only
  when every task that answered gave that same id. Module `Consensus`.
- **The attendance log store** (`log_attendance`, `prepare_csv_batch`). This is
  the `logs` table keyed by `unique_id`. Next to it is the `temp_csv_files`
  folder, which receives the timestamped CSV batches. Each operation runs under
  `db_lock`, so each is one atomic method of the class
  `AttendanceLog.AttendanceSystem`. The text the store derives (the decimal id
  `device_id_millis`, the punch time and the batch file name) is in `Formats`.
- **Shutdown and the punch loop** (`shutdown`, one step of `simulation_thread`).
  Module `Kiosk`.
- **The command channel** (`CommandReceiver.process_command`, and the decision
  made in `handle_client`). It checks the key, dispatches on the type tag and
  answers with fixed response shapes. Module `CommandReceiver`.
- **The manual sync page** (`manual_sync.php`). It checks the date, selects that
  date's batch files, uploads each non-empty one and deletes it on HTTP 200.
  Module `ManualSync`.

Clocks, the random punch direction, the matchers, the upload's HTTP status, whether an unlink succeeds, the
employee registry and the failure points of a batch export are all inputs. Each
is a parameter of the operation that uses it.

The code behaves as follows, which its names do not make obvious:

- A matcher that raises an exception does not count as "no result".
  `async_result.get` raises the exception again. It is not a `TimeoutError`, so
  it escapes `authenticate_employee` and ends the simulation thread (`Fault`,
  `ThreadDied`).
- A batch whose write fails does not lose its records. The rows are deleted only
  after the file is written, and the failure rolls the transaction back. When the
  delete or the commit fails instead, the file stays written and the rows stay in
  the table (`FailedDeleteKeepsBothCopies`).
- `update_employee` and `delete_employee` reach no registry.
  `AttendanceSystem` defines neither method. The lookup raises `AttributeError`,
  and `process_command` turns it into an error response (`NoRegistry`,
  `MissingRegistryAnswersError`). A registry that does exist is modelled as an
  oracle.
- Two exports in the same second produce the same file name. The file is opened
  with mode `'w'`, so the second batch replaces the first
  (`SameSecondExportReplacesBatch`). The records of the first batch are then
  neither in the table nor in that file.
- `simulation_thread` reads `running` before it sleeps and not after. A shutdown
  during the sleep does not stop that iteration, so its punch can be logged after the
  final export and stays in the table (`StepAcrossShutdown`,
  `PunchAfterFinalExport`).
- `manual_sync.php` does not check what `unlink` returns. A file whose unlink
  fails stays in the folder and is still reported as uploaded.
- Bytes that are not UTF-8 get no reply. The resulting `UnicodeDecodeError` is
  not the `JSONDecodeError` that `handle_client` catches.

## Model

| member | source | states |
|---|---|---|
| Formats.Decimal | bio/main.py:141 | the millisecond count is written in base 10: at least one digit, no leading zero |
| Formats.DecimalValue | bio/main.py:141 | the decimal text denotes the number it was made from |
| Formats.DecimalRoundTrip | bio/main.py:141 | the canonical decimal parser reads the text back to the same number |
| Formats.Padded | bio/main.py:151 | a zero-padded strftime field has exactly its width in digits |
| Formats.PaddedValue | bio/main.py:172 | a padded field denotes its value whenever the value fits the width |
| Formats.DateStamp | bio/main.py:172 | the `%Y%m%d` part of a batch name is eight digits |
| Formats.ClockStamp | bio/main.py:172 | the `%H%M%S` part of a batch name is six digits |
| Formats.PunchTimeLayout | bio/main.py:151 | the punch time `YYYY-MM-DD HH:MM:SS` is 19 characters, with each field and separator at a fixed position; its date and clock fields are those of the batch name's stamps |
| Formats.PunchTimeInjective | bio/main.py:151 | two readings give the same punch time exactly when they are the same second |
| Formats.BatchFileNameLayout | bio/main.py:172-173 | `attendance_<YYYYMMDD>_<HHMMSS>.csv` is 30 characters, with each field at a fixed position |
| Formats.BatchFileNameInjective | bio/main.py:172-173 | two readings give the same batch name exactly when they are the same second |
| Formats.UniqueIdRoundTrip | bio/main.py:141 | the unique id `device_id + "_" + millis` splits back into the device id and the millis |
| Formats.UniqueIdInjective | bio/main.py:141 | two ids are equal exactly when both the device and the millisecond are equal |
| Consensus.Tasks | bio/main.py:115-124 | each enabled modality is in the task list exactly once, in the order facial, finger, iris |
| Consensus.RaisedPersists | bio/main.py:130-134 | once a matcher's exception escapes the loop, the later tasks no longer matter |
| Consensus.CollectSpec | bio/main.py:129-134 | an exception from any task escapes; otherwise the results list is `Answers`, the answered values in task order with their multiplicities, and every timeout is dropped |
| Consensus.Consensus | bio/main.py:136-138 | the result is `v` exactly when the list is non-empty and every element is `v`; one responder's value is returned as is |
| Consensus.ConsensusIgnoresOrder | bio/main.py:136-138 | permuting the answers does not change the result |
| Consensus.OutcomesOfTasks | bio/main.py:115-127 | a task outcome occurs exactly when some enabled modality's matcher produced it |
| Consensus.AuthenticateFaults | bio/main.py:126-134 | the attempt raises exactly when some enabled matcher raised |
| Consensus.AuthenticateIdentifies | bio/main.py:114-138 | the attempt yields `v` exactly when no enabled matcher raised, at least one answered, and all that answered said `v`; with no modality enabled there is no result |
| Consensus.DisagreementVoids | bio/main.py:136-138 | two answering matchers that disagree void the attempt |
| Consensus.DisabledMatchersIgnored | bio/main.py:115-124 | the outcomes of disabled modalities never influence the result |
| Consensus.AuthenticateEmployee | bio/main.py:114-138 | the task-building and collection loop returns what `Authenticate` specifies |
| AttendanceLog.InsertSpec | bio/main.py:143-159 | a fresh id adds exactly that record; a taken id leaves the table unchanged; ids stay unique |
| AttendanceLog.SameMillisecondPunchDropped | bio/main.py:141-159 | a second punch with the same id is dropped without error |
| AttendanceLog.DistinctMillisecondsBothKept | bio/main.py:141-159 | one device's punches in different milliseconds are both stored, in order |
| AttendanceLog.BatchRoundTrip | bio/main.py:175-178 | a batch file is the header row followed by every record, in table order, and reads back to those records |
| AttendanceLog.ExportKeepsEveryRecord | bio/main.py:161-189 | an export reports True exactly when rows existed and nothing failed; it then leaves all rows in the new file and none in the table; otherwise every row stays in the table; no other file changes |
| AttendanceLog.EmptyExportChangesNothing | bio/main.py:166-170 | an export of an empty table reports False and changes nothing, and so does an export right after a successful one |
| AttendanceLog.FailedDeleteKeepsBothCopies | bio/main.py:175-189 | if the delete fails after the write, the call reports False and the rows are both in the table and in the file |
| AttendanceLog.SameSecondExportReplacesBatch | bio/main.py:172-178 | a second export in the same second overwrites the first batch file, whether or not the two batches are equal |
| AttendanceLog.Seeded | bio/main.py:93-99 | an empty table receives exactly the three sample employees E001, E002, E003, which respect its key; a table with rows is left as it is |
| AttendanceLog.AttendanceSystem.constructor | bio/main.py:40-43 | `init_databases` keeps the existing tables and seeds an empty employees table, and `running` starts true |
| AttendanceLog.AttendanceSystem.LogAttendance | bio/main.py:140-159 | the table becomes `Insert` of the stamped record with id `device_id_millis`; the key stays unique |
| AttendanceLog.AttendanceSystem.PrepareCsvBatch | bio/main.py:161-189 | the result, the table and the folder are exactly those `Export` gives |
| CommandReceiver.AuthGate | bio/receiver.py:53-54 | a command whose auth_key differs from the configured key, including a missing one when the key is "", gets "Invalid auth_key" and makes no call |
| CommandReceiver.EffectsNeedKey | bio/receiver.py:51-78 | a registry call or an export happens only with the right key, and at most one of them happens |
| CommandReceiver.RegistryVerdict | bio/receiver.py:59-68 | update_employee and delete_employee call the registry once and answer "success" exactly when the call returned truthy, "error" exactly when it returned falsy |
| CommandReceiver.MissingRegistryAnswersError | bio/receiver.py:59-68 | with the system as written, update_employee and delete_employee answer with the AttributeError message |
| CommandReceiver.SyncNowAlwaysSucceeds | bio/receiver.py:70-72 | sync_now starts exactly one export and answers "Sync triggered" whatever the export did |
| CommandReceiver.UnknownTypeRejected | bio/receiver.py:56-75 | a missing or unknown type answers "Unknown command type" and does nothing |
| CommandReceiver.MissingPayloadIsEmptyMapping | bio/receiver.py:57 | a command without a payload behaves as one whose payload is `{}` |
| CommandReceiver.ReplyShapes | bio/receiver.py:35-49 | no reply to empty data or non-UTF-8 bytes; `{"error": "Invalid JSON"}` for bad JSON; a status object for every decoded command |
| CommandReceiver.CommandReceiver.constructor | bio/receiver.py:7-13 | the key is the configured auth_key or "" when absent, and the receiver starts running |
| CommandReceiver.CommandReceiver.Stop | bio/receiver.py:18-19 | clears `running` and nothing else |
| CommandReceiver.CommandReceiver.ProcessCommand | bio/receiver.py:51-78 | the response is `Process`'s response; the store changes exactly as one export when `Process` starts one, and otherwise not at all |
| CommandReceiver.CommandReceiver.HandleClient | bio/receiver.py:35-49 | the reply sent and the change to the store are those that `Reply` gives |
| Kiosk.PunchRecord | bio/main.py:202-204 | a punch's atten_type is "in" or "out" |
| Kiosk.StepOutcomeOf | bio/main.py:199-204 | a step stops exactly when the flag read before the sleep is clear, dies exactly on a matcher exception, and punches exactly for a truthy id, which is the one authenticated |
| Kiosk.PunchNeedsConsensus | bio/main.py:199-204 | a punch needs the flag set when the iteration read it before its sleep, and a non-empty id on which every enabled matcher that answered agreed |
| Kiosk.SimulationStep | bio/main.py:198-205 | given the flag read before the sleep, the step's outcome is `StepOutcomeOf`, and the table gets `Insert` of the punch exactly when it punched |
| Kiosk.Shutdown | bio/main.py:213-218 | clears `running`, performs exactly one export, and stops the receiver |
| Kiosk.StepAcrossShutdown | bio/main.py:199-204 | a shutdown during a step's sleep does not stop that step: its punch is inserted into the table the final export left |
| Kiosk.PunchAfterFinalExport | bio/main.py:199-204 | after a successful final export, such a late punch is the only row of the table |
| ManualSync.MatchesDatePattern | bio/manual_sync.php:17 | the pattern accepts exactly the eight-digit zero-padded numbers, alone or followed by one newline |
| ManualSync.DateAccepted | bio/manual_sync.php:17 | the date check accepts exactly what the pattern accepts: the falsiness test excludes nothing more |
| ManualSync.MatchesBatchGlob | bio/manual_sync.php:22 | a name matches exactly when it is `attendance_<date>_<anything>.csv` |
| ManualSync.Selected | bio/manual_sync.php:22 | the selection is exactly the folder's names of the form `attendance_<date>_<anything>.csv`; among the batches the kiosk writes, an accepted date selects exactly those written on that date |
| ManualSync.Verdict | bio/manual_sync.php:30-56 | a file is skipped exactly when empty, uploaded exactly when non-empty with HTTP 200, and failed with its status otherwise |
| ManualSync.SyncDeletesExactlyAccepted | bio/manual_sync.php:29-57 | a file is deleted exactly when it was selected for the date, is non-empty, its upload got HTTP 200 and its unlink succeeded; kept files keep their size |
| ManualSync.RejectedDateTouchesNothing | bio/manual_sync.php:15-27 | an invalid date, or a date without files, leaves the folder unchanged and is reported as such |
| ManualSync.SyncReportCoversSelection | bio/manual_sync.php:22-56 | every selected file is handled, a file is skipped exactly when it is empty, and a failed unlink does not change the report |
| ManualSync.BatchSelectedOnlyOnItsDate | bio/manual_sync.php:22 | a batch named at reading `t` is selected by the date `YYYYMMDD` of `t`, which the date check accepts, and by no other accepted date |
| ManualSync.ManualSync | bio/manual_sync.php:15-57 | the date check, the glob and the per-file loop give exactly what `Sync` specifies |
| CommandReceiver.Delegate | bio/receiver.py:59-68 | the method is looked up before the payload is read, so a missing method is reported whatever the payload; otherwise a non-mapping payload fails on `get`, and a mapping makes exactly one call whose truthiness gives the status, or whose exception message becomes the error response |
| CommandReceiver.NotObjectRejected | bio/receiver.py:51-53 | a decoded command that is not an object gets the AttributeError of `get` as an error response and has no effect |

## Left out

- Kiosk.SimulationStep: the flag is a parameter read before the sleep, and the rest of the iteration is one atomic method. Of the operations another thread can run during the sleep, only `shutdown` is composed with a step (`StepAcrossShutdown`).
- Threads, `threading.Lock`, `multiprocessing.Pool` and the 5-second `get` timeout are not modelled. Each task's outcome is an input, and each locked operation is one atomic method.
- SQLite is not modelled: connections, pragmas and schema creation. The `logs` table is a sequence in insertion order, which is the order `SELECT *` returns its rows here.
- CSV quoting and encoding are not modelled; a batch is a sequence of rows of strings.
- `datetime.now()`, `time.time()` and `random.choice` are parameters. `ValidDateTime` limits readings to four-digit years, where strftime's `%Y` has its nominal width.
- AttendanceLog.AttendanceSystem.LogAttendance: only the `IntegrityError` of a duplicate id is modelled. Any other failure of the insert, such as a locked or full database, propagates out of `log_attendance` and ends the simulation thread; the method has no such outcome.
- AttendanceLog.AttendanceSystem.PrepareCsvBatch: a failed write leaves the folder unchanged. The partial file a write can leave behind is not modelled.
- Configuration loading and its defaults are not modelled. Neither are `get_device_ip`, `start_threads`, the keyboard listener, signal handling and `__main__`: these are process bootstrap and I/O. A configured `auth_key` is a string or absent.
- `periodic_sync` is not modelled as a loop. It sleeps and calls `prepare_csv_batch` for the whole life of the process, and each of its passes is one `PrepareCsvBatch`.
- The socket server (`start`, `run_server`) and JSON decoding are not modelled. A received message is given already classified as no data, not UTF-8, not JSON, or a decoded command. Exceptions raised by sending, or by opening the database from `sync_now`, are not modelled.
- CommandReceiver.Process: `employee_id` and `new_data` are optional strings, not arbitrary JSON values. Responses are key/value lists, not the escaped text `json.dumps` produces.
- The matcher modules (`facial`, `finger`, `iris`) are opaque. Each is represented only by its outcome on an attempt.
- `bio/upload_csv.php` is not part of this model. Its only rule (skip empty files, delete on HTTP 200) is the per-file rule modelled from `manual_sync.php`.
- curl, the HTML form and the echoed messages of `manual_sync.php` are not modelled. Only the outcome and the HTTP status are.
- ManualSync.ManualSync: the report is a map from file name to status, so the order of the printed lines is not modelled; `glob` returns names in alphabetical order. The folder holds base names, and a selected file cannot go missing before its turn in this sequential model.
