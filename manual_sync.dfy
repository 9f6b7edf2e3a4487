/** bio/manual_sync.php: on a POST with a date, upload that date's batch files from
    temp_csv_files and delete each one the server accepted. The folder is a map
    from file name to size; the upload's HTTP status and whether unlink succeeds
    are oracles. */
module ManualSync {
  import opened Formats

  /** The request: a GET shows the form; a POST carries $_POST['date'] ?? ''. */
  datatype Request = Get | Post(date: string)

  /** preg_match('/^\d{8}$/', $date): eight ASCII digits, where PCRE's `$` also
      matches just before one final newline. The accepted strings are exactly the
      eight-digit zero-padded numbers, with or without that newline. */
  function MatchesDatePattern(date: string): (ok: bool)
    ensures ok <==> exists n :: n < 100000000 && (date == Padded(n, 8) || date == Padded(n, 8) + "\n")
  {
    var ok := (|date| == 8 && AllDigits(date)) ||
              (|date| == 9 && AllDigits(date[..8]) && date[8] == '\n');
    assert ok ==> date == Padded(ValueOf(date[..8]), 8) || date == Padded(ValueOf(date[..8]), 8) + "\n" by {
      if ok {
        PaddedOfValue(date[..8]);
        assert Padded(ValueOf(date[..8]), 8) == date[..8];
        if |date| == 8 {
          assert date[..8] == date;
        } else {
          assert date == date[..8] + "\n";
        }
      }
    }
    assert ok ==> ValueOf(date[..8]) < 100000000 by {
      if ok {
        assert Pow10(8) == 100000000;
        ValueBound(date[..8]);
      }
    }
    assert (exists n :: n < 100000000 && (date == Padded(n, 8) || date == Padded(n, 8) + "\n")) ==> ok by {
      if exists n :: n < 100000000 && (date == Padded(n, 8) || date == Padded(n, 8) + "\n") {
        var n :| n < 100000000 && (date == Padded(n, 8) || date == Padded(n, 8) + "\n");
        if date != Padded(n, 8) {
          assert date[..8] == Padded(n, 8);
        }
      }
    }
    assert ok ==> exists n :: n < 100000000 && (date == Padded(n, 8) || date == Padded(n, 8) + "\n");
    ok
  }

  /** `!$date || !preg_match(...)` rejects: "" and "0" are falsy in PHP. Neither
      matches the pattern, so the falsiness test rejects nothing by itself. */
  function DateAccepted(date: string): (ok: bool)
    ensures ok <==> MatchesDatePattern(date)
  {
    date != "" && date != "0" && MatchesDatePattern(date)
  }

  /** A name the glob "attendance_{$date}_*.csv" can match: the date's prefix, any
      middle part, then ".csv". */
  function GlobName(date: string, middle: string): string {
    BatchPrefix + date + "_" + middle + BatchSuffix
  }

  /** Whether the pattern "attendance_{$date}_*.csv" matches a name. An accepted
      date holds no glob metacharacter, so the date is matched literally. */
  function MatchesBatchGlob(name: string, date: string): (ok: bool)
    ensures ok <==> exists middle :: name == GlobName(date, middle)
  {
    var prefix := BatchPrefix + date + "_";
    var ok := |prefix| + |BatchSuffix| <= |name| && name[..|prefix|] == prefix && name[|name| - |BatchSuffix|..] == BatchSuffix;
    if ok then
      var middle := name[|prefix|..|name| - |BatchSuffix|];
      assert name == GlobName(date, middle) by {
        assert name == name[..|prefix|] + middle + name[|name| - |BatchSuffix|..];
      }
      ok
    else
      assert forall middle :: name != GlobName(date, middle) by {
        forall middle ensures name != GlobName(date, middle) {
          var g := GlobName(date, middle);
          assert g[..|prefix|] == prefix;
          assert g[|g| - |BatchSuffix|..] == BatchSuffix;
        }
      }
      ok
  }

  /** The file names glob() returns for the date: every name in the folder of the
      form attendance_<date>_<middle>.csv, and so, for an accepted date, among the
      batches in the folder exactly those written on that date. */
  function Selected(dir: map<string, nat>, date: string): (r: set<string>)
    ensures r <= dir.Keys
    ensures forall f :: f in r <==> f in dir && exists middle :: f == GlobName(date, middle)
    ensures DateAccepted(date) ==>
      forall t :: BatchFileName(t) in dir ==> (BatchFileName(t) in r <==> date == DateStamp(t))
  {
    var r := set f | f in dir && MatchesBatchGlob(f, date);
    assert DateAccepted(date) ==>
      forall t :: BatchFileName(t) in dir ==> (BatchFileName(t) in r <==> date == DateStamp(t)) by {
      if DateAccepted(date) {
        forall t | BatchFileName(t) in dir
          ensures BatchFileName(t) in r <==> date == DateStamp(t)
        {
          BatchSelectedOnlyOnItsDate(t, date);
        }
      }
    }
    r
  }

  /** What happened to one selected file. */
  datatype FileStatus = Skipped | Uploaded | Failed(httpCode: int)

  datatype SyncOutcome = ShowForm | InvalidDate | NoFiles | Synced(report: map<string, FileStatus>)

  /** The per-file rule: skip an empty file; report it uploaded (and unlink it) when
      the upload got HTTP 200; otherwise report the failure with its status. */
  function Verdict(size: nat, httpCode: int): (s: FileStatus)
    ensures s == Skipped <==> size == 0
    ensures s == Uploaded <==> size > 0 && httpCode == 200
    ensures s.Failed? <==> size > 0 && httpCode != 200
    ensures s.Failed? ==> s.httpCode == httpCode
  {
    if size == 0 then Skipped else if httpCode == 200 then Uploaded else Failed(httpCode)
  }

  /** The script as a function of the request, the folder and the oracles for the
      upload's status and for unlink: what it reports and what the folder holds
      afterwards. The result of unlink is never checked, so a file whose unlink fails
      stays in the folder and is still reported as uploaded. */
  function Sync(request: Request, dir: map<string, nat>, upload: string -> int, unlinks: string -> bool)
    : (SyncOutcome, map<string, nat>)
  {
    match request
    case Get => (ShowForm, dir)
    case Post(date) =>
      if !DateAccepted(date) then (InvalidDate, dir)
      else
        var files := Selected(dir, date);
        if files == {} then (NoFiles, dir)
        else
          var report := map f | f in files :: Verdict(dir[f], upload(f));
          (Synced(report), map f | f in dir && !(f in report && report[f] == Uploaded && unlinks(f)) :: dir[f])
  }

  /** A file is deleted exactly when it was selected for the date, was not empty,
      its upload got HTTP 200 and its unlink succeeded; every file kept keeps its size. */
  lemma SyncDeletesExactlyAccepted(request: Request, dir: map<string, nat>, upload: string -> int,
                                   unlinks: string -> bool, f: string)
    requires f in dir
    ensures var after := Sync(request, dir, upload, unlinks).1;
      (f !in after <==> request.Post? && DateAccepted(request.date) && MatchesBatchGlob(f, request.date) &&
                        dir[f] > 0 && upload(f) == 200 && unlinks(f)) &&
      (f in after ==> after[f] == dir[f])
    ensures forall g :: g in Sync(request, dir, upload, unlinks).1 ==> g in dir
  {
    if request.Post? && DateAccepted(request.date) && MatchesBatchGlob(f, request.date) {
      assert f in Selected(dir, request.date);
    }
  }

  /** Nothing is read, uploaded or deleted for a rejected date or a date with no files. */
  lemma RejectedDateTouchesNothing(date: string, dir: map<string, nat>, upload: string -> int, unlinks: string -> bool)
    requires !DateAccepted(date) || Selected(dir, date) == {}
    ensures Sync(Post(date), dir, upload, unlinks).1 == dir
    ensures Sync(Post(date), dir, upload, unlinks).0 == (if !DateAccepted(date) then InvalidDate else NoFiles)
  {
  }

  /** The report covers exactly the selected files, and an empty file is never
      uploaded; whether unlink succeeded does not show in the report. */
  lemma SyncReportCoversSelection(date: string, dir: map<string, nat>, upload: string -> int,
                                  unlinks1: string -> bool, unlinks2: string -> bool)
    requires DateAccepted(date) && Selected(dir, date) != {}
    ensures var outcome := Sync(Post(date), dir, upload, unlinks1).0;
      outcome.Synced? && outcome.report.Keys == Selected(dir, date) &&
      forall f :: f in outcome.report ==> (outcome.report[f] == Skipped <==> dir[f] == 0)
    ensures Sync(Post(date), dir, upload, unlinks1).0 == Sync(Post(date), dir, upload, unlinks2).0
  {
  }

  /** A batch written by prepare_csv_batch at reading t is selected by the date
      DateStamp(t), which the date check accepts, and by no other accepted date. */
  lemma BatchSelectedOnlyOnItsDate(t: DateTime, date: string)
    requires DateAccepted(date)
    ensures DateAccepted(DateStamp(t))
    ensures MatchesBatchGlob(BatchFileName(t), date) <==> date == DateStamp(t)
  {
    var name := BatchFileName(t);
    BatchFileNameLayout(t);
    if MatchesBatchGlob(name, date) {
      var prefix := BatchPrefix + date + "_";
      assert name[..|prefix|] == prefix;
      if |date| == 9 {
        assert false;
      }
      assert |date| == 8;
      assert name[11..19] == prefix[11..19] == date;
    }
    if date == DateStamp(t) {
      assert name[..20] == BatchPrefix + date + "_";
    }
  }

  /** The script: check the date, select the files, and handle each selected file
      in turn, deleting it on HTTP 200. */
  method ManualSync(request: Request, dir: map<string, nat>, upload: string -> int, unlinks: string -> bool)
    returns (outcome: SyncOutcome, after: map<string, nat>)
    ensures (outcome, after) == Sync(request, dir, upload, unlinks)
  {
    if request.Get? {
      return ShowForm, dir;
    }
    var date := request.date;
    if date == "" || date == "0" || !MatchesDatePattern(date) {
      return InvalidDate, dir;
    }
    var files := set f | f in dir && MatchesBatchGlob(f, date);
    if files == {} {
      return NoFiles, dir;
    }

    var pending := files;
    var report: map<string, FileStatus> := map[];
    after := dir;
    while pending != {}
      invariant pending <= files
      invariant report.Keys == files - pending
      invariant forall f :: f in report ==> report[f] == Verdict(dir[f], upload(f))
      invariant forall f :: f in after <==> f in dir && !(f in report && report[f] == Uploaded && unlinks(f))
      invariant forall f :: f in after ==> after[f] == dir[f]
      decreases pending
    {
      var f :| f in pending;
      if f !in after || after[f] == 0 {
        report := report[f := Skipped];
      } else {
        var httpCode := upload(f);
        if httpCode == 200 {
          if unlinks(f) {
            after := after - {f};
          }
          report := report[f := Uploaded];
        } else {
          report := report[f := Failed(httpCode)];
        }
      }
      pending := pending - {f};
    }
    outcome := Synced(report);
    assert report == map f | f in files :: Verdict(dir[f], upload(f));
    assert after == map f | f in dir && !(f in report && report[f] == Uploaded && unlinks(f)) :: dir[f];
  }
}
