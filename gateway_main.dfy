/** The entry point of the gateway, `main()` (gateway.py lines 247-302): it picks
    the direction from `sys.argv`, refuses commands that are not plain `scp -t`
    or `scp -f <token>`, runs one session and turns its end into an exit code. */
module GatewayMain {
  import opened Common
  import opened Text
  import opened Store
  import opened FileStore
  import opened Channel
  import opened GatewayParse
  import opened GatewayReceive
  import opened GatewaySend

  /** `_scp_flags(cmd)` as a set, given what `shlex.split(cmd)` produced. */
  function Flags(split: Option<seq<string>>): set<char>
  {
    if split.None? then {} else FlagsOf(split.value)
  }

  /** What `main` decides before any transfer. */
  datatype Plan =
    | Usage            // wrong `sys.argv`
    | UploadRefused    // `put` without the `t` flag
    | DownloadRefused  // `get` without the `f` flag
    | MissingToken     // `get` with fewer than three words in the command
    | Upload
    | Download(token: string)

  /** The direction `sys.argv` asks for (gateway.py line 248): exactly one
      argument, `put` or `get`. */
  datatype Direction = Put | Get

  function DirectionOf(argv: seq<string>): (d: Option<Direction>)
    ensures d == Some(Put) <==> |argv| == 2 && argv[1] == "put"
    ensures d == Some(Get) <==> |argv| == 2 && argv[1] == "get"
    ensures d == None <==> !(|argv| == 2 && (argv[1] == "put" || argv[1] == "get"))
  {
    if |argv| != 2 then None
    else if argv[1] == "put" then Some(Put)
    else if argv[1] == "get" then Some(Get)
    else None
  }

  /** The token of a download command (gateway.py lines 287-292): the last
      whitespace-separated word of a command of at least three words, which
      `.strip()` leaves as it is. */
  function TokenOf(cmd: string): (t: Option<string>)
    ensures t.Some? <==> |Fields(cmd)| >= 3
    ensures t.Some? ==> t.value == Fields(cmd)[|Fields(cmd)| - 1] && t.value != [] && NoSpace(t.value)
  {
    var parts := Fields(cmd);
    if |parts| < 3 then None
    else
      StripOfNoSpace(parts[|parts| - 1]);
      Some(Strip(parts[|parts| - 1]))
  }

  /** The decision of gateway.py lines 248-292, from `sys.argv`, the stripped
      `SSH_ORIGINAL_COMMAND` and its short flags: an upload needs `put` and `t`,
      a download `get`, `f` and a token; everything else is refused. */
  function PlanOf(argv: seq<string>, cmd: string, flags: set<char>): (p: Plan)
    ensures p == Usage <==> DirectionOf(argv).None?
    ensures p == UploadRefused <==> DirectionOf(argv) == Some(Put) && 't' !in flags
    ensures p == Upload <==> DirectionOf(argv) == Some(Put) && 't' in flags
    ensures p == DownloadRefused <==> DirectionOf(argv) == Some(Get) && 'f' !in flags
    ensures p == MissingToken <==> DirectionOf(argv) == Some(Get) && 'f' in flags && TokenOf(cmd).None?
    ensures p.Download? <==> DirectionOf(argv) == Some(Get) && 'f' in flags && TokenOf(cmd).Some?
    ensures p.Download? ==> p.token == TokenOf(cmd).value
  {
    match DirectionOf(argv)
    case None => Usage
    case Some(Put) => if 't' in flags then Upload else UploadRefused
    case Some(Get) =>
      if 'f' !in flags then DownloadRefused
      else
        match TokenOf(cmd)
        case None => MissingToken
        case Some(t) => Download(t)
  }

  /** One write to stderr. Exception texts and the ISO form of `expires_at` are
      kept as values. */
  datatype Line =
    | Message(text: string)
    | UploadFailed(error: Failure)             // "ERROR: upload failed: {e}\n"
    | DownloadFailed(error: Failure)           // "ERROR: download failed: {e}\n"
    | ReceiptNotice(token: string, expiresAt: int)  // "RECEIPT\ntoken=...\nexpires_at=...\n"

  /** How the process ends: its exit status and what it wrote to stderr. */
  datatype Exit = Exit(code: int, stderr: seq<Line>)

  /** The stderr line of a plan refused before any transfer. */
  function RefusedMessage(p: Plan): string
  {
    match p
    case Usage => "FATAL: usage: gateway.py [put|get]\n"
    case UploadRefused => "ERROR: only scp upload is allowed (scp -t)\n"
    case DownloadRefused => "ERROR: only scp download is allowed (scp -f <token>)\n"
    case MissingToken => "ERROR: missing token\n"
    case _ => ""
  }

  /** One `RECEIPT` block per receipt, in order. */
  function Notices(receipts: seq<Receipt>): (lines: seq<Line>)
    ensures |lines| == |receipts|
    ensures forall i :: 0 <= i < |receipts| ==>
      lines[i] == ReceiptNotice(receipts[i].token, receipts[i].expiresAt)
  {
    seq(|receipts|, i requires 0 <= i < |receipts| => ReceiptNotice(receipts[i].token, receipts[i].expiresAt))
  }

  /** The end of an upload (lines 264-279): exit 0 with the receipts printed when
      the receiver returned, exit 1 when it raised. */
  function UploadExit(r: Result<seq<Receipt>>): (x: Exit)
    ensures x.code == 0 <==> r.Ok?
    ensures x.code == 1 <==> r.Err?
    ensures r.Ok? ==> x.stderr == Notices(r.value)
  {
    match r
    case Ok(receipts) => Exit(0, Notices(receipts))
    case Err(e) => Exit(1, [UploadFailed(e)])
  }

  /** The end of a download (lines 294-302). A refusal is `sys.exit(2)` inside
      `scp_send_one`; `SystemExit` is not an `Exception`, so it passes the
      `except` clause and the process exits 2. An exception raised during the
      transfer exits 1; a completed transfer exits 0. */
  function DownloadExit(d: Download): (x: Exit)
    ensures x.code == 2 <==> d.Refused?
    ensures x.code == 1 <==> d.Transferred? && d.end.result.Fail?
    ensures x.code == 0 <==> d.Transferred? && d.end.result == Pass
    ensures d.Refused? ==> x.stderr == [Message(RefusalMessage(d.why))]
  {
    match d
    case Refused(why) => Exit(2, [Message(RefusalMessage(why))])
    case Transferred(e) =>
      if e.result.Fail? then Exit(1, [DownloadFailed(e.result.error)]) else Exit(0, [])
  }

  /** As written, `main` reports the upload `C0644 -1 a.txt` then `\0` as a
      success: exit 0 and one `RECEIPT` block; the corrected receiver makes it
      exit 1 with the bad-record error. */
  lemma NegativeUploadExit(env: Env, files: map<string, seq<byte>>, rows: map<string, Row>)
    requires env.token(0) !in rows
    ensures var r := ReceiveSession(env, CLine("0644", -1, "a.txt") + [ACK_OK], 0, [], files, rows);
      !env.strict ==> UploadExit(r.result) == Exit(0, [ReceiptNotice(env.token(0), ExpiresAt(env, 0))])
    ensures var r := ReceiveSession(env, CLine("0644", -1, "a.txt") + [ACK_OK], 0, [], files, rows);
      env.strict ==> UploadExit(r.result) == Exit(1, [UploadFailed(BadCRecord(CLine("0644", -1, "a.txt")))])
  {
    if env.strict {
      NegativeSizeRefused(env, files, rows);
    } else {
      NegativeSizeLands(env, files, rows);
    }
  }

  /** A plan that is neither an upload nor a download exits 2. */
  lemma RefusedPlansExitTwo(argv: seq<string>, cmd: string, flags: set<char>)
    requires !(|argv| == 2 && argv[1] == "put" && 't' in flags)
    requires !(|argv| == 2 && argv[1] == "get" && 'f' in flags && |Fields(cmd)| >= 3)
    ensures var p := PlanOf(argv, cmd, flags);
      !p.Upload? && !p.Download? && RefusedMessage(p) != ""
  {
  }

  // ------------------------------------------------------------- main

  /** The upload branch of `main` (lines 262-279): receive, then print a
      `RECEIPT` block per stored file. */
  method RunUpload(env: Env, ch: Channel, fs: FileSystem, db: MetadataStore) returns (x: Exit)
    requires ch.Valid() && db.Valid()
    modifies ch, fs`files, db
    ensures ch.Valid() && ch.input == old(ch.input)
    ensures var e := ReceiveSession(env, ch.input, old(ch.pos), old(ch.output), old(fs.files), old(db.rows));
      && x == UploadExit(e.result)
      && ch.pos == e.state.pos && ch.output == e.state.out
      && fs.files == e.state.files && db.rows == e.state.rows
  {
    var r := ScpReceiveOne(env, ch, fs, db);
    if r.Err? {
      return Exit(1, [UploadFailed(r.error)]);
    }
    var lines: seq<Line> := [];
    for i := 0 to |r.value|
      invariant lines == Notices(r.value[..i])
    {
      assert r.value[..i + 1] == r.value[..i] + [r.value[i]];
      lines := lines + [ReceiptNotice(r.value[i].token, r.value[i].expiresAt)];
    }
    assert r.value[..|r.value|] == r.value;
    return Exit(0, lines);
  }

  /** The download branch of `main` once the token is known (lines 294-302). */
  method RunDownload(ch: Channel, fs: FileSystem, db: MetadataStore, token: string, now: int) returns (x: Exit)
    requires ch.Valid() && db.Valid()
    modifies ch
    ensures ch.Valid() && ch.input == old(ch.input)
    ensures var d := SendSession(db.rows, fs.files, token, now, ch.input, old(ch.pos), old(ch.output));
      && x == DownloadExit(d)
      && (d.Refused? ==> ch.pos == old(ch.pos) && ch.output == old(ch.output))
      && (d.Transferred? ==> ch.pos == d.end.pos && ch.output == d.end.out)
  {
    var d := ScpSendOne(ch, fs, db, token, now);
    if d.Refused? {
      return Exit(2, [Message(RefusalMessage(d.why))]);
    }
    if d.end.result.Fail? {
      return Exit(1, [DownloadFailed(d.end.result.error)]);
    }
    return Exit(0, []);
  }

  /** `main()`, with the outside world as parameters: `sys.argv`, the original
      command and its `shlex.split`, the receiver's environment, the time the
      sender reads, stdin/stdout, the storage directory and the table. */
  method Run(argv: seq<string>, cmd: string, split: Option<seq<string>>, env: Env, now: int,
             ch: Channel, fs: FileSystem, db: MetadataStore) returns (x: Exit)
    requires ch.Valid() && db.Valid()
    modifies ch, fs`files, db
    ensures ch.Valid() && ch.input == old(ch.input)
    ensures var p := PlanOf(argv, cmd, Flags(split));
      !p.Upload? && !p.Download? ==>
        && x == Exit(2, [Message(RefusedMessage(p))])
        && ch.pos == old(ch.pos) && ch.output == old(ch.output)
        && fs.files == old(fs.files) && db.rows == old(db.rows)
    ensures PlanOf(argv, cmd, Flags(split)).Upload? ==>
      var e := ReceiveSession(env, ch.input, old(ch.pos), old(ch.output), old(fs.files), old(db.rows));
      && x == UploadExit(e.result)
      && ch.pos == e.state.pos && ch.output == e.state.out
      && fs.files == e.state.files && db.rows == e.state.rows
    ensures var p := PlanOf(argv, cmd, Flags(split));
      p.Download? ==>
        var d := SendSession(old(db.rows), old(fs.files), p.token, now, ch.input, old(ch.pos), old(ch.output));
        && x == DownloadExit(d)
        && fs.files == old(fs.files) && db.rows == old(db.rows)
        && (d.Refused? ==> ch.pos == old(ch.pos) && ch.output == old(ch.output))
        && (d.Transferred? ==> ch.pos == d.end.pos && ch.output == d.end.out)
  {
    if |argv| != 2 || (argv[1] != "put" && argv[1] != "get") {
      return Exit(2, [Message(RefusedMessage(Usage))]);
    }
    var flags := ScpFlags(split);
    assert flags == Flags(split);
    if argv[1] == "put" {
      if 't' !in flags {
        return Exit(2, [Message(RefusedMessage(UploadRefused))]);
      }
      x := RunUpload(env, ch, fs, db);
      return;
    }
    if 'f' !in flags {
      return Exit(2, [Message(RefusedMessage(DownloadRefused))]);
    }
    var parts := Fields(cmd);
    if |parts| < 3 {
      return Exit(2, [Message(RefusedMessage(MissingToken))]);
    }
    var token := Strip(parts[|parts| - 1]);
    x := RunDownload(ch, fs, db, token, now);
  }
}
