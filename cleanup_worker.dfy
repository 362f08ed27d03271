/** The reaper of cleanup_worker.py: `remove_expired_files` deletes the files of
    rows already dropped from the table, one at a time and never giving up on the
    rest of the list; `run_cleanup_loop` repeats "drop expired rows, delete their
    files, sleep". */
module CleanupWorker {
  import opened Common
  import opened Store
  import opened FileStore

  /** What `remove_expired_files` does with one listed file, and the level it logs
      that at: `Removed` (verbose), `Missing` when the path is not a regular file
      (warning), `Failed` when the unlink raised (error; the file stays). */
  datatype Reaped = Removed | Missing | Failed

  /** The outcome for `path` in the storage as it stands: missing when there is
      no such file, failed when the host refuses to unlink it, removed otherwise. */
  function ReapOutcome(files: map<string, seq<byte>>, undeletable: set<string>, path: string): (r: Reaped)
    ensures r == Missing <==> path !in files
    ensures r == Failed <==> path in files && path in undeletable
    ensures r == Removed <==> path in files && path !in undeletable
  {
    if path !in files then Missing
    else if path in undeletable then Failed
    else Removed
  }

  /** The storage after one item: only a removal changes it. */
  function ReapStep(files: map<string, seq<byte>>, undeletable: set<string>, path: string): map<string, seq<byte>>
  {
    if ReapOutcome(files, undeletable, path) == Removed then files - {path} else files
  }

  /** The stored paths named in a list of expired rows. */
  function Paths(expired: seq<ExpiredRow>): set<string>
  {
    set i | 0 <= i < |expired| :: expired[i].1
  }

  /** The storage once every item of `expired` has been handled, in list order:
      files are only ever removed, never created or rewritten. */
  function ReapedFiles(files: map<string, seq<byte>>, undeletable: set<string>, expired: seq<ExpiredRow>): (r: map<string, seq<byte>>)
    ensures forall p :: p in r ==> p in files && r[p] == files[p]
  {
    if expired == [] then files
    else ReapStep(ReapedFiles(files, undeletable, expired[..|expired| - 1]), undeletable, expired[|expired| - 1].1)
  }

  /** The outcome of every item, in list order; each item sees the storage its
      predecessors left. */
  function Outcomes(files: map<string, seq<byte>>, undeletable: set<string>, expired: seq<ExpiredRow>): (r: seq<Reaped>)
    ensures |r| == |expired|
  {
    if expired == [] then []
    else
      var before := expired[..|expired| - 1];
      Outcomes(files, undeletable, before) + [ReapOutcome(ReapedFiles(files, undeletable, before), undeletable, expired[|expired| - 1].1)]
  }

  // ------------------------------------------------------------ properties

  /** After the list, exactly the listed files that could be removed are gone;
      every other file, listed or not, is still there with its contents. */
  lemma {:induction false} ReapedFilesExactly(files: map<string, seq<byte>>, undeletable: set<string>, expired: seq<ExpiredRow>)
    ensures forall p :: p in ReapedFiles(files, undeletable, expired) <==>
      p in files && (p !in Paths(expired) || p in undeletable)
    ensures forall p :: p in ReapedFiles(files, undeletable, expired) ==>
      ReapedFiles(files, undeletable, expired)[p] == files[p]
  {
    if expired != [] {
      var before := expired[..|expired| - 1];
      ReapedFilesExactly(files, undeletable, before);
      assert Paths(expired) == Paths(before) + {expired[|expired| - 1].1} by {
        forall p | p in Paths(expired) ensures p in Paths(before) + {expired[|expired| - 1].1} {
          var i :| 0 <= i < |expired| && expired[i].1 == p;
          if i < |expired| - 1 { assert before[i] == expired[i]; }
        }
        forall p | p in Paths(before) ensures p in Paths(expired) {
          var i :| 0 <= i < |before| && before[i].1 == p;
          assert expired[i] == before[i];
        }
      }
    }
  }

  /** Handling one list and then another is handling the two in a row. */
  lemma {:induction false} ReapedFilesAppend(files: map<string, seq<byte>>, undeletable: set<string>, a: seq<ExpiredRow>, b: seq<ExpiredRow>)
    ensures ReapedFiles(files, undeletable, a + b) == ReapedFiles(ReapedFiles(files, undeletable, a), undeletable, b)
  {
    if b == [] {
      assert a + b == a;
    } else {
      assert (a + b)[..|a + b| - 1] == a + b[..|b| - 1];
      assert (a + b)[|a + b| - 1] == b[|b| - 1];
      ReapedFilesAppend(files, undeletable, a, b[..|b| - 1]);
    }
  }

  /** When no path is listed twice, each item's outcome is decided by the storage
      as it stood before the call: a failure or a missing file earlier in the list
      changes nothing for the items after it. */
  lemma {:induction false} OutcomesOfDistinct(files: map<string, seq<byte>>, undeletable: set<string>, expired: seq<ExpiredRow>)
    requires forall i, j :: 0 <= i < j < |expired| ==> expired[i].1 != expired[j].1
    ensures forall i :: 0 <= i < |expired| ==>
      Outcomes(files, undeletable, expired)[i] == ReapOutcome(files, undeletable, expired[i].1)
  {
    if expired != [] {
      var before := expired[..|expired| - 1];
      var last := expired[|expired| - 1].1;
      OutcomesOfDistinct(files, undeletable, before);
      ReapedFilesExactly(files, undeletable, before);
      forall i | 0 <= i < |before| ensures before[i].1 != last {
        assert before[i] == expired[i];
      }
      var r := Outcomes(files, undeletable, expired);
      forall i | 0 <= i < |expired|
        ensures r[i] == ReapOutcome(files, undeletable, expired[i].1)
      {
        if i < |expired| - 1 {
          assert r[i] == Outcomes(files, undeletable, before)[i];
          assert before[i] == expired[i];
        }
      }
    }
  }

  /** The three kinds of item in one list: an existing file is removed, a
      missing one is only reported, one whose unlink fails stays where it is,
      and each item is handled whatever happened to the one before it. */
  lemma ThreeOutcomes(files: map<string, seq<byte>>, undeletable: set<string>,
                      existing: string, missing: string, failing: string, t1: string, t2: string, t3: string)
    requires existing in files && existing !in undeletable
    requires missing !in files
    requires failing in files && failing in undeletable
    ensures var expired := [(t1, existing), (t2, missing), (t3, failing)];
      && Outcomes(files, undeletable, expired) == [Removed, Missing, Failed]
      && existing !in ReapedFiles(files, undeletable, expired)
      && failing in ReapedFiles(files, undeletable, expired)
  {
    var expired := [(t1, existing), (t2, missing), (t3, failing)];
    OutcomesOfDistinct(files, undeletable, expired);
    ReapedFilesExactly(files, undeletable, expired);
    assert existing in Paths(expired) by {
      assert expired[0].1 == existing;
    }
  }

  // ------------------------------------------------------------ the reaper

  /** `remove_expired_files(expired)` (cleanup_worker.py lines 26-43): for each
      `(token, stored_path)` in order, unlink it when it is a regular file; an
      unlink that fails is logged and the loop goes on. */
  method RemoveExpiredFiles(fs: FileSystem, expired: seq<ExpiredRow>) returns (outcomes: seq<Reaped>)
    modifies fs`files
    ensures outcomes == Outcomes(old(fs.files), fs.undeletable, expired)
    ensures fs.files == ReapedFiles(old(fs.files), fs.undeletable, expired)
  {
    outcomes := [];
    for i := 0 to |expired|
      invariant outcomes == Outcomes(old(fs.files), fs.undeletable, expired[..i])
      invariant fs.files == ReapedFiles(old(fs.files), fs.undeletable, expired[..i])
    {
      assert expired[..i + 1][..i] == expired[..i];
      var path := expired[i].1;
      if fs.IsFile(path) {
        var ok := fs.Unlink(path);
        outcomes := outcomes + [if ok then Removed else Failed];
      } else {
        outcomes := outcomes + [Missing];
      }
    }
    assert expired[..|expired|] == expired;
  }

  // ------------------------------------------------------------ the loop

  /** One iteration of `run_cleanup_loop`: the time `utcnow()` returned, the list
      `delete_expired` returned, what became of each file, and the sleep. */
  datatype Round = Round(now: int, expired: seq<ExpiredRow>, outcomes: seq<Reaped>, slept: int)

  /** The table after `delete_expired` at each of `clocks`, in order. */
  function UnexpiredAll(rows: map<string, Row>, clocks: seq<int>): map<string, Row>
  {
    if clocks == [] then rows
    else Unexpired(UnexpiredAll(rows, clocks[..|clocks| - 1]), clocks[|clocks| - 1])
  }

  /** Every expired list of a sequence of rounds, one after the other. */
  function Reported(rounds: seq<Round>): seq<ExpiredRow>
  {
    if rounds == [] then [] else Reported(rounds[..|rounds| - 1]) + rounds[|rounds| - 1].expired
  }

  /** `round` is iteration `i` done from the table `rows` and the storage `files`:
      expired rows at its time are reported, each reported file is handled, and
      the worker sleeps the configured interval. */
  predicate Performed(round: Round, rows: map<string, Row>, files: map<string, seq<byte>>, undeletable: set<string>,
                      now: int, interval: int)
  {
    && round.now == now
    && (set k | 0 <= k < |round.expired| :: round.expired[k]) == ExpiredRows(rows, now)
    && round.outcomes == Outcomes(files, undeletable, round.expired)
    && round.slept == interval
  }

  /** After `delete_expired` at several times, a row is left exactly when it
      outlives all of them. */
  lemma {:induction false} UnexpiredAllKeeps(rows: map<string, Row>, clocks: seq<int>)
    ensures forall t :: t in UnexpiredAll(rows, clocks) <==>
      t in rows && forall i :: 0 <= i < |clocks| ==> rows[t].expiresAt > clocks[i]
    ensures forall t :: t in UnexpiredAll(rows, clocks) ==> UnexpiredAll(rows, clocks)[t] == rows[t]
  {
    if clocks != [] {
      var before := clocks[..|clocks| - 1];
      UnexpiredAllKeeps(rows, before);
      forall t | t in rows
        ensures (forall i :: 0 <= i < |clocks| ==> rows[t].expiresAt > clocks[i]) <==>
          (forall i :: 0 <= i < |before| ==> rows[t].expiresAt > before[i]) && rows[t].expiresAt > clocks[|clocks| - 1]
      {
        if forall i :: 0 <= i < |before| ==> rows[t].expiresAt > before[i] {
          forall i | 0 <= i < |clocks| - 1 ensures rows[t].expiresAt > clocks[i] {
            assert before[i] == clocks[i];
          }
        }
      }
    }
  }

  /** The body of the `while True` of `run_cleanup_loop` at time `now`. */
  method CleanupRound(db: MetadataStore, fs: FileSystem, now: int, interval: int) returns (round: Round)
    requires db.Valid()
    modifies db, fs`files
    ensures db.Valid()
    ensures Performed(round, old(db.rows), old(fs.files), fs.undeletable, now, interval)
    ensures db.rows == Unexpired(old(db.rows), now)
    ensures fs.files == ReapedFiles(old(fs.files), fs.undeletable, round.expired)
  {
    var expired := db.DeleteExpired(now);
    var outcomes := RemoveExpiredFiles(fs, expired);
    round := Round(now, expired, outcomes, interval);
  }

  /** Rounds `0..|rounds|` of a loop started from `rows` and `files`: each one
      was performed on what the rounds before it left, at its own reading of
      the clock. */
  predicate History(rounds: seq<Round>, rows: map<string, Row>, files: map<string, seq<byte>>,
                    undeletable: set<string>, clock: seq<int>, interval: int)
  {
    && |rounds| <= |clock|
    && forall k :: 0 <= k < |rounds| ==>
      Performed(rounds[k], UnexpiredAll(rows, clock[..k]),
                ReapedFiles(files, undeletable, Reported(rounds[..k])), undeletable, clock[k], interval)
  }

  lemma ReportedSnoc(rounds: seq<Round>, round: Round)
    ensures Reported(rounds + [round]) == Reported(rounds) + round.expired
  {
    assert (rounds + [round])[..|rounds|] == rounds;
  }

  lemma UnexpiredAllSnoc(rows: map<string, Row>, clock: seq<int>, i: nat)
    requires i < |clock|
    ensures UnexpiredAll(rows, clock[..i + 1]) == Unexpired(UnexpiredAll(rows, clock[..i]), clock[i])
  {
    assert clock[..i + 1][..i] == clock[..i];
  }

  /** A history grows by one round performed on what it left. */
  lemma HistoryExtends(rounds: seq<Round>, round: Round, rows: map<string, Row>, files: map<string, seq<byte>>,
                       undeletable: set<string>, clock: seq<int>, interval: int)
    requires |rounds| < |clock| && History(rounds, rows, files, undeletable, clock, interval)
    requires Performed(round, UnexpiredAll(rows, clock[..|rounds|]), ReapedFiles(files, undeletable, Reported(rounds)),
                       undeletable, clock[|rounds|], interval)
    ensures History(rounds + [round], rows, files, undeletable, clock, interval)
  {
    var next := rounds + [round];
    forall k | 0 <= k < |next|
      ensures Performed(next[k], UnexpiredAll(rows, clock[..k]),
                        ReapedFiles(files, undeletable, Reported(next[..k])), undeletable, clock[k], interval)
    {
      assert next[..k] == rounds[..k];
    }
  }

  /** `run_cleanup_loop` for as many iterations as `clock` has readings of
      `utcnow()` (cleanup_worker.py lines 52-58): each iteration drops the rows
      expired at its time, deletes their files, then sleeps `interval`. */
  method RunCleanupLoop(db: MetadataStore, fs: FileSystem, clock: seq<int>, interval: int) returns (rounds: seq<Round>)
    requires db.Valid()
    modifies db, fs`files
    ensures db.Valid()
    ensures |rounds| == |clock|
    ensures History(rounds, old(db.rows), old(fs.files), fs.undeletable, clock, interval)
    ensures db.rows == UnexpiredAll(old(db.rows), clock)
    ensures fs.files == ReapedFiles(old(fs.files), fs.undeletable, Reported(rounds))
  {
    rounds := [];
    for i := 0 to |clock|
      invariant db.Valid()
      invariant |rounds| == i
      invariant History(rounds, old(db.rows), old(fs.files), fs.undeletable, clock, interval)
      invariant db.rows == UnexpiredAll(old(db.rows), clock[..i])
      invariant fs.files == ReapedFiles(old(fs.files), fs.undeletable, Reported(rounds))
    {
      var round := CleanupRound(db, fs, clock[i], interval);
      HistoryExtends(rounds, round, old(db.rows), old(fs.files), fs.undeletable, clock, interval);
      UnexpiredAllSnoc(old(db.rows), clock, i);
      ReportedSnoc(rounds, round);
      ReapedFilesAppend(old(fs.files), fs.undeletable, Reported(rounds), round.expired);
      rounds := rounds + [round];
    }
    assert clock[..|clock|] == clock;
  }

  /** Across any number of iterations, a file that no reported row names is
      never touched, and a reported file is gone unless the host refused the
      unlink. */
  lemma LoopTouchesOnlyReported(files: map<string, seq<byte>>, undeletable: set<string>, rounds: seq<Round>)
    ensures var after := ReapedFiles(files, undeletable, Reported(rounds));
      && (forall p :: p in files && p !in Paths(Reported(rounds)) ==> p in after && after[p] == files[p])
      && (forall p :: p in Paths(Reported(rounds)) && p !in undeletable ==> p !in after)
  {
    ReapedFilesExactly(files, undeletable, Reported(rounds));
  }
}
