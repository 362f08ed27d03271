/** The upload side of the gateway, `scp_receive_one` (gateway.py lines 97-197):
    a minimal `scp -t` sink. `Receive` states what one session does to the
    channel, the storage directory and the metadata table; `ScpReceiveOne` is the
    step-by-step receiver over the mutable objects, proved to do exactly that. */
module GatewayReceive {
  import opened Common
  import opened Text
  import opened Store
  import opened FileStore
  import opened Channel
  import opened GatewayParse

  /** What the receiver takes from outside: the configuration (`Config`), and the
      foreign calls as functions. `token(n)` is what `_token()` returns on its
      n-th call in the session, `clock(n)` what `utcnow()` returns for the n-th
      file (in seconds), `digest(b)` the `sha512(b).hexdigest()`. `strict` picks
      the header parse: `false` is gateway.py as written, which takes a negative
      size; `true` is the corrected receiver, which refuses it. */
  datatype Env = Env(
    dataDir: string,
    ttlDays: int,
    token: nat -> string,
    clock: nat -> int,
    digest: seq<byte> -> string,
    strict: bool)

  /** `conf.data_dir / token`. */
  function FinalPath(dir: string, token: string): string
  {
    dir + "/" + token
  }

  /** `conf.data_dir / f".{token}.tmp"`. */
  function TmpPath(dir: string, token: string): string
  {
    dir + "/." + token + ".tmp"
  }

  /** One receipt dict; `expires_at` is kept as seconds, not as an ISO string. */
  datatype Receipt = Receipt(
    token: string,
    sha512: string,
    expiresAt: int,
    originalName: string,
    sizeBytes: int,
    mode: string)

  /** Everything a session can change: the stdin cursor, stdout, the directory,
      the table, how many tokens have been drawn, and the receipts so far. */
  datatype RxState = RxState(
    pos: nat,
    out: seq<byte>,
    files: map<string, seq<byte>>,
    rows: map<string, Row>,
    next: nat,
    receipts: seq<Receipt>)

  /** One record handled: go on with the next, or stop on a raised exception. */
  datatype Step = Continue(state: RxState) | Stop(state: RxState, error: Failure)

  /** Where a session ends, and what `scp_receive_one` returns or raises. */
  datatype RxEnd = RxEnd(state: RxState, result: Result<seq<Receipt>>)

  /** `expires = created + timedelta(days=conf.ttl_days)`. */
  function ExpiresAt(env: Env, n: nat): int
  {
    env.clock(n) + env.ttlDays * SECONDS_PER_DAY
  }

  /** The header parse the receiver runs on a `C` line (gateway.py lines 121-127):
      as written, or the corrected one when `env.strict`. */
  function HeaderOf(env: Env, line: seq<byte>): (r: Result<CRecord>)
    ensures r.Err? ==> r.error == BadCRecord(line)
    ensures !env.strict ==> r == ParseCRecordAsWritten(line)
    ensures env.strict ==> r == ParseCRecord(line) && (r.Ok? ==> r.value.size >= 0)
  {
    if env.strict then ParseCRecord(line) else ParseCRecordAsWritten(line)
  }

  /** How many payload bytes `while remaining > 0` expects for a header of `size`:
      all of them, and none at all when the size is not positive. */
  function Copied(size: int): (n: nat)
    ensures size >= 0 ==> n == size
    ensures size <= 0 ==> n == 0
  {
    if size > 0 then size else 0
  }

  /** The body of the `C` branch after a header parsed (gateway.py lines 132-148):
      ack the header, draw a token, copy up to `size` bytes into the temporary
      file (none when `size <= 0`); EOF before all of them have arrived raises. */
  function FileStep(env: Env, input: seq<byte>, s: RxState, c: CRecord): (r: Step)
    requires s.pos <= |input|
    ensures s.pos <= r.state.pos <= |input|
  {
    var tmp := TmpPath(env.dataDir, env.token(s.next));
    var end := Min(s.pos + Copied(c.size), |input|);
    var written := s.(pos := end, out := s.out + [ACK_OK], files := s.files[tmp := input[s.pos..end]],
                      next := s.next + 1);
    if s.pos + Copied(c.size) > |input| then Stop(written, Eof)
    else Commit(env, input, written, s.next, c, input[s.pos..end])
  }

  /** The rest of the `C` branch (gateway.py lines 150-185), once the payload `data`
      of the `n`-th file is in its temporary file: check the terminator, rename,
      ack, then insert the row and append the receipt. */
  function Commit(env: Env, input: seq<byte>, s: RxState, n: nat, c: CRecord, data: seq<byte>): (r: Step)
    requires s.pos <= |input|
    ensures s.pos <= r.state.pos <= |input|
  {
    var token := env.token(n);
    var tmp := TmpPath(env.dataDir, token);
    var fin := FinalPath(env.dataDir, token);
    if s.pos == |input| then Stop(s, Eof)
    else if input[s.pos] != ACK_OK then Stop(s.(pos := s.pos + 1), MissingTerminator(input[s.pos]))
    else
      var moved := s.(pos := s.pos + 1, out := s.out + [ACK_OK], files := (s.files - {tmp})[fin := data]);
      if token in s.rows then Stop(moved, DuplicateToken(token))
      else
        var digest := env.digest(data);
        var row := Row(token, digest, c.filename, c.size, fin, env.clock(n), ExpiresAt(env, n));
        var receipt := Receipt(token, digest, ExpiresAt(env, n), c.filename, c.size, c.mode);
        Continue(moved.(rows := s.rows[token := row], receipts := s.receipts + [receipt]))
  }

  /** One pass of the `while True` loop: read a line, then act on it. */
  function RecordStep(env: Env, input: seq<byte>, s: RxState): (r: Step)
    requires s.pos < |input|
    ensures s.pos < r.state.pos <= |input|
  {
    var e := LineEnd(input, s.pos);
    Dispatch(env, input, s.(pos := e), input[s.pos..e])
  }

  /** What the loop does with the `line` just read (gateway.py lines 113-195). */
  function Dispatch(env: Env, input: seq<byte>, s: RxState, line: seq<byte>): (r: Step)
    requires s.pos <= |input| && line != []
    ensures s.pos <= r.state.pos <= |input|
  {
    if line[0] == MARK_T then Continue(s.(out := s.out + [ACK_OK]))
    else if line[0] == MARK_C then
      match HeaderOf(env, line)
      case Err(err) => Stop(s, err)
      case Ok(c) => FileStep(env, input, s, c)
    else if line[0] == MARK_E then Continue(s.(out := s.out + [ACK_OK]))
    else if IsBlankLine(line) then Continue(s)
    else Stop(s, UnsupportedRecord(line))
  }

  /** The record loop, from `s` until EOF at a record boundary or an exception.
      It returns normally only at the end of the stream, with all the receipts
      collected. */
  function Receive(env: Env, input: seq<byte>, s: RxState): (r: RxEnd)
    requires s.pos <= |input|
    ensures s.pos <= r.state.pos <= |input|
    ensures r.result.Ok? ==> r.state.pos == |input| && r.result.value == r.state.receipts
    decreases |input| - s.pos
  {
    if s.pos == |input| then RxEnd(s, Ok(s.receipts))
    else
      match RecordStep(env, input, s)
      case Stop(s1, err) => RxEnd(s1, Err(err))
      case Continue(s1) => Receive(env, input, s1)
  }

  /** A whole session: the initial ack, then the record loop; a session that
      returns has read the whole stream and gives back every receipt it made. */
  function ReceiveSession(env: Env, input: seq<byte>, pos: nat, out: seq<byte>,
                          files: map<string, seq<byte>>, rows: map<string, Row>): (r: RxEnd)
    requires pos <= |input|
    ensures pos <= r.state.pos <= |input|
    ensures r.result.Ok? ==> r.state.pos == |input| && r.result.value == r.state.receipts
  {
    Receive(env, input, RxState(pos, out + [ACK_OK], files, rows, 0, []))
  }

  // ------------------------------------------------------------ one C record

  /** A file completes exactly when its payload (`size` bytes, none for a size
      `<= 0`) and a `\0` terminator arrive and the token is new; it then consumes
      exactly those bytes, acks twice, stores the payload under `data_dir/token`
      (never under the client's filename), and records one row and one receipt with
      the header's size, whose digest is over exactly the payload. */
  lemma FileStepCompletes(env: Env, input: seq<byte>, s: RxState, c: CRecord)
    requires s.pos <= |input|
    ensures var r := FileStep(env, input, s, c);
      r.Continue? <==>
        s.pos + Copied(c.size) < |input| && input[s.pos + Copied(c.size)] == ACK_OK && env.token(s.next) !in s.rows
    ensures var r := FileStep(env, input, s, c);
      r.Continue? ==>
        var token := env.token(s.next);
        var data := input[s.pos..s.pos + Copied(c.size)];
        var path := FinalPath(env.dataDir, token);
        && r.state.pos == s.pos + Copied(c.size) + 1
        && r.state.out == s.out + [ACK_OK, ACK_OK]
        && path in r.state.files && r.state.files[path] == data
        && TmpPath(env.dataDir, token) !in r.state.files
        && r.state.rows.Keys == s.rows.Keys + {token}
        && r.state.rows[token] == Row(token, env.digest(data), c.filename, c.size, path,
                                      env.clock(s.next), env.clock(s.next) + env.ttlDays * SECONDS_PER_DAY)
        && (forall t :: t in s.rows ==> r.state.rows[t] == s.rows[t])
        && r.state.receipts == s.receipts +
             [Receipt(token, env.digest(data), env.clock(s.next) + env.ttlDays * SECONDS_PER_DAY,
                      c.filename, c.size, c.mode)]
  {
    var r := FileStep(env, input, s, c);
    if r.Continue? {
      var token := env.token(s.next);
      assert token  !in s.rows;
      assert r.state.out == s.out + [ACK_OK] + [ACK_OK];
    }
  }

  /** Any failure inside a file leaves the table and the receipts as they were.
      Short of a duplicate token it does not rename into `data_dir/token`: the
      temporary file keeps what arrived of the payload. Running out of input before
      the terminator is EOF; a wrong terminator byte is reported as such. */
  lemma FileStepFails(env: Env, input: seq<byte>, s: RxState, c: CRecord)
    requires s.pos <= |input|
    ensures var r := FileStep(env, input, s, c);
      r.Stop? ==> r.state.rows == s.rows && r.state.receipts == s.receipts
    ensures var r := FileStep(env, input, s, c);
      r.Stop? && !r.error.DuplicateToken? ==>
        var tmp := TmpPath(env.dataDir, env.token(s.next));
        var end := if s.pos + Copied(c.size) <= |input| then s.pos + Copied(c.size) else |input|;
        && r.state.files == s.files[tmp := input[s.pos..end]]
        && r.state.out == s.out + [ACK_OK]
    ensures var r := FileStep(env, input, s, c);
      r.Stop? ==> (r.error == Eof <==> s.pos + Copied(c.size) >= |input|)
    ensures var r := FileStep(env, input, s, c);
      r.Stop? && r.error.MissingTerminator? ==>
        s.pos + Copied(c.size) < |input| && r.error.got == input[s.pos + Copied(c.size)] != ACK_OK
  {
    assert input[s.pos..|input|] == input[s.pos..];
  }

  // ------------------------------------------------------------ one record

  /** The fields of a well-formed header line `C<mode> <size> <name>\n`. */
  predicate HeaderFields(mode: string, name: string)
  {
    IsAscii(mode) && IsAscii(name) && ' ' !in mode && '\n' !in mode && '\n' !in name &&
    name != [] && !IsSpace(name[|name| - 1])
  }

  /** `line` ends in a newline and holds no other. */
  predicate OneLine(line: seq<byte>)
  {
    |line| > 0 && line[|line| - 1] == NEWLINE && forall k :: 0 <= k < |line| - 1 ==> line[k] != NEWLINE
  }

  lemma {:induction false} LineEndAt(input: seq<byte>, i: nat, line: seq<byte>)
    requires i + |line| <= |input| && input[i..i + |line|] == line && OneLine(line)
    ensures LineEnd(input, i) == i + |line|
    decreases |line|
  {
    if |line| > 1 {
      assert input[i] == line[0] != NEWLINE;
      assert input[i + 1..i + 1 + |line[1..]|] == line[1..];
      LineEndAt(input, i + 1, line[1..]);
    }
  }

  /** `readline()` at `i` returns exactly the `line` at `input[i..e]`. */
  lemma LineEndIs(input: seq<byte>, i: nat, e: nat, line: seq<byte>)
    requires i <= e <= |input| && input[i..e] == line && OneLine(line)
    ensures LineEnd(input, i) == e
  {
    LineEndAt(input, i, line);
  }

  /** The loop reads the `line` at `input[s.pos..e]` and acts on it. */
  lemma RecordStepAt(env: Env, input: seq<byte>, s: RxState, e: nat, line: seq<byte>)
    requires s.pos < e <= |input| && input[s.pos..e] == line && OneLine(line)
    ensures RecordStep(env, input, s) == Dispatch(env, input, s.(pos := e), line)
  {
    LineEndIs(input, s.pos, e, line);
  }

  /** A `T` line is acked and ignored. */
  lemma TimesRecord(env: Env, input: seq<byte>, s: RxState, e: nat, line: seq<byte>)
    requires s.pos < e <= |input| && input[s.pos..e] == line && OneLine(line) && line[0] == MARK_T
    ensures RecordStep(env, input, s) == Continue(s.(pos := e, out := s.out + [ACK_OK]))
  {
    RecordStepAt(env, input, s, e, line);
  }

  /** An `E` line is acked and ignored. */
  lemma EndRecord(env: Env, input: seq<byte>, s: RxState, e: nat, line: seq<byte>)
    requires s.pos < e <= |input| && input[s.pos..e] == line && OneLine(line) && line[0] == MARK_E
    ensures RecordStep(env, input, s) == Continue(s.(pos := e, out := s.out + [ACK_OK]))
  {
    RecordStepAt(env, input, s, e, line);
  }

  /** A blank line is skipped without an ack. */
  lemma BlankRecord(env: Env, input: seq<byte>, s: RxState, e: nat, line: seq<byte>)
    requires s.pos < e <= |input| && input[s.pos..e] == line && OneLine(line) && IsBlankLine(line)
    ensures RecordStep(env, input, s) == Continue(s.(pos := e))
  {
    RecordStepAt(env, input, s, e, line);
    assert IsByteSpace(line[0]);
  }

  /** A `C` line the receiver's parse accepts as `c` hands over to the file step. */
  lemma CRecordLine(env: Env, input: seq<byte>, s: RxState, e: nat, h: seq<byte>, c: CRecord)
    requires s.pos < e <= |input| && input[s.pos..e] == h && OneLine(h) && h[0] == MARK_C
    requires HeaderOf(env, h) == Ok(c)
    ensures RecordStep(env, input, s) == FileStep(env, input, s.(pos := e), c)
  {
    RecordStepAt(env, input, s, e, h);
  }

  /** A `C` line the receiver's parse refuses raises before anything is acked. */
  lemma BadHeaderNotAcked(env: Env, input: seq<byte>, s: RxState, e: nat, h: seq<byte>)
    requires s.pos < e <= |input| && input[s.pos..e] == h && OneLine(h) && h[0] == MARK_C
    requires HeaderOf(env, h).Err?
    ensures RecordStep(env, input, s) == Stop(s.(pos := e), BadCRecord(h))
  {
    RecordStepAt(env, input, s, e, h);
  }

  /** A non-blank line that is not `T`, `C` or `E` raises. */
  lemma UnsupportedRecordRaises(env: Env, input: seq<byte>, s: RxState, e: nat, line: seq<byte>)
    requires s.pos < e <= |input| && input[s.pos..e] == line && OneLine(line)
    requires line[0] != MARK_T && line[0] != MARK_C && line[0] != MARK_E && !IsBlankLine(line)
    ensures RecordStep(env, input, s) == Stop(s.(pos := e), UnsupportedRecord(line))
  {
    RecordStepAt(env, input, s, e, line);
  }

  /** A header written from its fields is one `C` line the parse accepts. */
  lemma HeaderLine(mode: string, size: nat, name: string)
    requires HeaderFields(mode, name)
    ensures OneLine(CLine(mode, size, name)) && CLine(mode, size, name)[0] == MARK_C
    ensures ParseCRecord(CLine(mode, size, name)) == Ok(CRecord(mode, size, name))
  {
    CLineShape(mode, size, name);
    CLineParses(mode, size, name);
  }

  // ------------------------------------------------------------ the session

  /** EOF at a record boundary ends the session normally with the receipts so far. */
  lemma EofEndsSession(env: Env, input: seq<byte>, s: RxState)
    requires s.pos == |input|
    ensures Receive(env, input, s) == RxEnd(s, Ok(s.receipts))
  {
  }

  /** Nothing but acks is ever written to stdout. */
  predicate AllAcks(out: seq<byte>)
  {
    forall i :: 0 <= i < |out| ==> out[i] == ACK_OK
  }

  /** The receipt `r` is backed by the table and the directory: its row holds the
      receipt's fields under the stored path `data_dir/token`, and the file there
      holds the bytes the payload loop copied for `sizeBytes` (that many, none for
      a negative size), whose digest is the receipt's. */
  predicate Backed(env: Env, s: RxState, r: Receipt)
  {
    var path := FinalPath(env.dataDir, r.token);
    && IsUrlSafe(r.token)
    && r.token in s.rows
    && s.rows[r.token].sha512 == r.sha512
    && s.rows[r.token].originalName == r.originalName
    && s.rows[r.token].sizeBytes == r.sizeBytes
    && s.rows[r.token].storedPath == path
    && s.rows[r.token].expiresAt == r.expiresAt
    && path in s.files
    && |s.files[path]| == Copied(r.sizeBytes)
    && env.digest(s.files[path]) == r.sha512
  }

  /** What every successful step keeps: the table is keyed by token, the
      receipts have distinct tokens and are backed, and the corrected receiver
      records no negative size. */
  predicate Consistent(env: Env, s: RxState)
  {
    && KeyedByToken(s.rows)
    && (env.strict ==> forall i :: 0 <= i < |s.receipts| ==> s.receipts[i].sizeBytes >= 0)
    && (forall i :: 0 <= i < |s.receipts| ==> Backed(env, s, s.receipts[i]))
    && (forall i, j :: 0 <= i < j < |s.receipts| ==> s.receipts[i].token != s.receipts[j].token)
  }

  /** A url-safe token holds no `.`, so a temporary path is never a final path. */
  lemma PathsDiffer(dir: string, t: string, u: string)
    requires IsUrlSafe(u)
    ensures TmpPath(dir, t) != FinalPath(dir, u)
    ensures FinalPath(dir, t) == FinalPath(dir, u) ==> t == u
  {
    assert TmpPath(dir, t)[|dir| + 1] == '.';
    assert FinalPath(dir, u)[|dir| + 1] == u[0];
    if FinalPath(dir, t) == FinalPath(dir, u) {
      assert t == FinalPath(dir, t)[|dir| + 1..];
      assert u == FinalPath(dir, u)[|dir| + 1..];
    }
  }

  /** Completing a file keeps every earlier receipt backed and adds one backed receipt. */
  lemma FileStepKeepsConsistent(env: Env, input: seq<byte>, s: RxState, c: CRecord)
    requires s.pos <= |input| && Consistent(env, s) && IsUrlSafe(env.token(s.next))
    requires env.strict ==> c.size >= 0
    ensures var r := FileStep(env, input, s, c);
      r.Continue? ==> Consistent(env, r.state)
  {
    var r := FileStep(env, input, s, c);
    if r.Continue? {
      FileStepCompletes(env, input, s, c);
      var token := env.token(s.next);
      var s2 := r.state;
      forall i | 0 <= i < |s.receipts|
        ensures Backed(env, s2, s2.receipts[i])
      {
        var old_r := s.receipts[i];
        assert s2.receipts[i] == old_r;
        assert old_r.token != token;
        PathsDiffer(env.dataDir, token, old_r.token);
        var path := FinalPath(env.dataDir, old_r.token);
        assert s2.files[path] == s.files[path];
      }
      assert Backed(env, s2, s2.receipts[|s.receipts|]);
    }
  }

  /** A file step writes only acks, and one that continues keeps the session
      consistent. */
  lemma FileStepKeepsAll(env: Env, input: seq<byte>, s: RxState, c: CRecord)
    requires s.pos <= |input| && Consistent(env, s) && AllAcks(s.out) && IsUrlSafe(env.token(s.next))
    requires env.strict ==> c.size >= 0
    ensures AllAcks(FileStep(env, input, s, c).state.out)
    ensures FileStep(env, input, s, c).Continue? ==> Consistent(env, FileStep(env, input, s, c).state)
  {
    FileStepKeepsConsistent(env, input, s, c);
    FileStepCompletes(env, input, s, c);
    FileStepFails(env, input, s, c);
  }

  /** Acting on any line writes only acks, and a step that continues keeps the
      session consistent. */
  lemma DispatchKeepsConsistent(env: Env, input: seq<byte>, s: RxState, line: seq<byte>)
    requires s.pos <= |input| && line != [] && Consistent(env, s) && AllAcks(s.out)
    requires forall n :: IsUrlSafe(env.token(n))
    ensures AllAcks(Dispatch(env, input, s, line).state.out)
    ensures Dispatch(env, input, s, line).Continue? ==> Consistent(env, Dispatch(env, input, s, line).state)
  {
    var r := Dispatch(env, input, s, line);
    if line[0] == MARK_T || (line[0] != MARK_C && line[0] == MARK_E) {
      assert r == Continue(s.(out := s.out + [ACK_OK]));
    } else if line[0] == MARK_C {
      match HeaderOf(env, line)
      case Err(err) =>
        assert r == Stop(s, err);
      case Ok(c) =>
        assert r == FileStep(env, input, s, c);
        FileStepKeepsAll(env, input, s, c);
    } else {
      assert r.state == s;
    }
  }

  /** Every record step writes only acks, and a step that continues keeps the
      session consistent. */
  lemma RecordStepKeepsConsistent(env: Env, input: seq<byte>, s: RxState)
    requires s.pos < |input| && Consistent(env, s) && AllAcks(s.out)
    requires forall n :: IsUrlSafe(env.token(n))
    ensures AllAcks(RecordStep(env, input, s).state.out)
    ensures RecordStep(env, input, s).Continue? ==> Consistent(env, RecordStep(env, input, s).state)
  {
    var e := LineEnd(input, s.pos);
    DispatchKeepsConsistent(env, input, s.(pos := e), input[s.pos..e]);
  }

  /** Whatever its input, a session writes nothing but acks on stdout; when it
      returns normally its result is the receipts it collected, each backed by a
      row and a stored file of the digest recorded and of the size recorded (or
      empty, as written, where the header gave a negative size; the corrected
      receiver records none). */
  lemma {:induction false} ReceiveConsistent(env: Env, input: seq<byte>, s: RxState)
    requires s.pos <= |input| && Consistent(env, s) && AllAcks(s.out)
    requires forall n :: IsUrlSafe(env.token(n))
    ensures AllAcks(Receive(env, input, s).state.out)
    ensures var r := Receive(env, input, s);
      r.result.Ok? ==> r.result.value == r.state.receipts && Consistent(env, r.state)
    decreases |input| - s.pos
  {
    if s.pos < |input| {
      RecordStepKeepsConsistent(env, input, s);
      match RecordStep(env, input, s)
      case Stop(_, _) =>
      case Continue(s1) => ReceiveConsistent(env, input, s1);
    }
  }

  /** A whole session started on a fresh stdout and a keyed table writes only acks
      and returns backed receipts. */
  lemma SessionConsistent(env: Env, input: seq<byte>, files: map<string, seq<byte>>, rows: map<string, Row>)
    requires KeyedByToken(rows)
    requires forall n :: IsUrlSafe(env.token(n))
    ensures AllAcks(ReceiveSession(env, input, 0, [], files, rows).state.out)
    ensures var r := ReceiveSession(env, input, 0, [], files, rows);
      r.result.Ok? ==> r.result.value == r.state.receipts && Consistent(env, r.state)
  {
    ReceiveConsistent(env, input, RxState(0, [] + [ACK_OK], files, rows, 0, []));
  }

  /** `n` ack bytes. */
  function Acks(n: nat): (r: seq<byte>)
    ensures |r| == n && AllAcks(r)
  {
    seq(n, _ => ACK_OK)
  }

  /** `m` acks and then `n` more are `m + n` acks. */
  lemma AcksAdd(o: seq<byte>, m: nat, n: nat)
    ensures o + Acks(m) + Acks(n) == o + Acks(m + n)
    ensures [] + Acks(m) + Acks(n) == Acks(m + n)
  {
    assert Acks(m) + Acks(n) == Acks(m + n);
  }

  /** One ack and two acks, written out. */
  lemma AckLists()
    ensures Acks(1) == [ACK_OK] && Acks(2) == [ACK_OK] + [ACK_OK]
  {
  }

  /** Nothing, then `x`, is `x`. */
  lemma EmptyFirst<T>(x: seq<T>)
    ensures [] + x == x
  {
  }

  /** The record `line` sits at `input[p..e]`. */
  predicate LineAt(input: seq<byte>, p: nat, e: nat, line: seq<byte>)
  {
    p < e <= |input| && input[p..e] == line && OneLine(line)
  }

  /** The `C` line `h`, parsed as `c` with a size of at least zero (so by either
      parse), sits at `input[p..e]`, its payload `data` at `input[e..f]` and its
      `\0` terminator at `f`. */
  predicate FileAt(input: seq<byte>, p: nat, e: nat, f: nat, h: seq<byte>, c: CRecord, data: seq<byte>)
  {
    LineAt(input, p, e, h) && h[0] == MARK_C && ParseCRecord(h) == Ok(c)
    && e <= f < |input| && input[e..f] == data && input[f] == ACK_OK && c.size == |data|
  }

  /** The `E` line `line` sits at `input[p..e]` and one last blank line follows. */
  predicate EndAt(input: seq<byte>, p: nat, e: nat, line: seq<byte>)
  {
    LineAt(input, p, e, line) && line[0] == MARK_E && e + 1 == |input| && input[e] == NEWLINE
  }

  /** A step that continues leads into the rest of the loop. */
  lemma ContinueInto(env: Env, input: seq<byte>, s: RxState, s1: RxState)
    requires s.pos < |input| && RecordStep(env, input, s) == Continue(s1)
    ensures Receive(env, input, s) == Receive(env, input, s1)
  {
  }

  /** The state once the `s.next`-th file, `data`, has landed and the stream is at
      `p`: both acks written, the payload under `data_dir/token` and not under the
      temporary name, the row inserted and the receipt appended. */
  function Landed(env: Env, s: RxState, c: CRecord, data: seq<byte>, p: nat): RxState
  {
    var tok := env.token(s.next);
    var tmp := TmpPath(env.dataDir, tok);
    var fin := FinalPath(env.dataDir, tok);
    s.(pos := p, out := s.out + Acks(2),
       files := (s.files[tmp := data] - {tmp})[fin := data],
       rows := s.rows[tok := Row(tok, env.digest(data), c.filename, c.size, fin, env.clock(s.next), ExpiresAt(env, s.next))],
       next := s.next + 1,
       receipts := s.receipts + [Receipt(tok, env.digest(data), ExpiresAt(env, s.next), c.filename, c.size, c.mode)])
  }

  /** What a landed file leaves in the table and the directory. */
  lemma LandedHolds(env: Env, s: RxState, c: CRecord, data: seq<byte>, p: nat)
    ensures var l := Landed(env, s, c, data, p);
      var tok := env.token(s.next);
      var fin := FinalPath(env.dataDir, tok);
      && l.pos == p && l.out == s.out + Acks(2)
      && tok in l.rows && l.rows[tok].storedPath == fin
      && fin in l.files && l.files[fin] == data
      && l.receipts == s.receipts + [Receipt(tok, env.digest(data), ExpiresAt(env, s.next), c.filename, c.size, c.mode)]
  {
  }

  /** A complete payload at `input[e..f]` with its terminator at `f`, for a new
      token: the file lands. */
  lemma FileLands(env: Env, input: seq<byte>, s: RxState, c: CRecord, data: seq<byte>, e: nat, f: nat)
    requires s.pos <= e <= f < |input| && input[e..f] == data && input[f] == ACK_OK
    requires Copied(c.size) == |data| && env.token(s.next) !in s.rows
    ensures FileStep(env, input, s.(pos := e), c) == Continue(Landed(env, s, c, data, f + 1))
  {
    var r := FileStep(env, input, s.(pos := e), c);
    AckLists();
    assert r.state.out == s.out + [ACK_OK] + [ACK_OK];
  }

  /** A header line for `c` at `input[s.pos..e]`, its payload and terminator:
      the file lands and the loop goes on after the terminator. */
  lemma FileThen(env: Env, input: seq<byte>, s: RxState, h: seq<byte>, c: CRecord,
                 data: seq<byte>, e: nat, f: nat)
    requires FileAt(input, s.pos, e, f, h, c, data) && env.token(s.next) !in s.rows
    ensures Receive(env, input, s) == Receive(env, input, Landed(env, s, c, data, f + 1))
  {
    FileThenBy(env, input, s, h, c, data, e, f);
  }

  /** The same for a header the receiver's own parse accepts, whatever its sign:
      the payload is then what the loop copies for that size. */
  lemma FileThenBy(env: Env, input: seq<byte>, s: RxState, h: seq<byte>, c: CRecord,
                   data: seq<byte>, e: nat, f: nat)
    requires LineAt(input, s.pos, e, h) && h[0] == MARK_C && HeaderOf(env, h) == Ok(c)
    requires e <= f < |input| && input[e..f] == data && input[f] == ACK_OK && Copied(c.size) == |data|
    requires env.token(s.next) !in s.rows
    ensures Receive(env, input, s) == Receive(env, input, Landed(env, s, c, data, f + 1))
  {
    CRecordLine(env, input, s, e, h, c);
    FileLands(env, input, s, c, data, e, f);
    ContinueInto(env, input, s, Landed(env, s, c, data, f + 1));
  }

  /** A `T` or `E` line at `input[s.pos..e]`: acked, and the loop goes on at `e`. */
  lemma AckedThen(env: Env, input: seq<byte>, s: RxState, e: nat, line: seq<byte>)
    requires LineAt(input, s.pos, e, line) && (line[0] == MARK_T || line[0] == MARK_E)
    ensures Receive(env, input, s) == Receive(env, input, s.(pos := e, out := s.out + [ACK_OK]))
  {
    if line[0] == MARK_T {
      TimesRecord(env, input, s, e, line);
    } else {
      EndRecord(env, input, s, e, line);
    }
    ContinueInto(env, input, s, s.(pos := e, out := s.out + [ACK_OK]));
  }

  /** A last blank line ends the session with what has been collected. */
  lemma BlankThenEof(env: Env, input: seq<byte>, s: RxState)
    requires s.pos + 1 == |input| && input[s.pos] == NEWLINE
    ensures Receive(env, input, s) == RxEnd(s.(pos := |input|), Ok(s.receipts))
  {
    assert input[s.pos..s.pos + 1] == [NEWLINE];
    BlankRecord(env, input, s, s.pos + 1, [NEWLINE]);
    ContinueInto(env, input, s, s.(pos := s.pos + 1));
  }

  /** An `E` line at `input[s.pos..e]` and a last blank line end the session. */
  lemma EndThenBlank(env: Env, input: seq<byte>, s: RxState, e: nat, line: seq<byte>)
    requires EndAt(input, s.pos, e, line)
    ensures Receive(env, input, s) == RxEnd(s.(pos := |input|, out := s.out + [ACK_OK]), Ok(s.receipts))
  {
    AckedThen(env, input, s, e, line);
    BlankThenEof(env, input, s.(pos := e, out := s.out + [ACK_OK]));
  }

  /** One file, then an `E` line and a last blank line: the session ends once
      the file has landed, with one more ack. */
  lemma FileThenEnd(env: Env, input: seq<byte>, s: RxState, h: seq<byte>, c: CRecord, data: seq<byte>,
                    line: seq<byte>, p2: nat, p3: nat, p4: nat)
    requires FileAt(input, s.pos, p2, p3, h, c, data) && EndAt(input, p3 + 1, p4, line)
    requires env.token(s.next) !in s.rows
    ensures var l := Landed(env, s, c, data, p3 + 1);
      Receive(env, input, s) == RxEnd(l.(pos := |input|, out := l.out + [ACK_OK]), Ok(l.receipts))
  {
    var l := Landed(env, s, c, data, p3 + 1);
    assert l.pos == p3 + 1;
    EndThenBlank(env, input, l, p4, line);
    FileThen(env, input, s, h, c, data, p2, p3);
  }

  /** A `T` line, one file, an `E` line and a last blank line, from `s` on: the
      session ends with four more acks, the file stored under `data_dir/token`
      and its receipt appended. */
  lemma TimesFileEnd(env: Env, input: seq<byte>, s: RxState, t: seq<byte>, h: seq<byte>, c: CRecord,
                     data: seq<byte>, e: seq<byte>, p1: nat, p2: nat, p3: nat, p4: nat)
    requires LineAt(input, s.pos, p1, t) && t[0] == MARK_T
    requires FileAt(input, p1, p2, p3, h, c, data) && EndAt(input, p3 + 1, p4, e)
    requires env.token(s.next) !in s.rows
    ensures var r := Receive(env, input, s);
      var tok := env.token(s.next);
      var fin := FinalPath(env.dataDir, tok);
      && r.result == Ok(s.receipts + [Receipt(tok, env.digest(data), ExpiresAt(env, s.next), c.filename, c.size, c.mode)])
      && r.state.out == s.out + Acks(4)
      && tok in r.state.rows && r.state.rows[tok].storedPath == fin
      && fin in r.state.files && r.state.files[fin] == data
  {
    AckedThen(env, input, s, p1, t);
    var s1 := s.(pos := p1, out := s.out + [ACK_OK]);
    FileThenEnd(env, input, s1, h, c, data, e, p2, p3, p4);
    LandedHolds(env, s1, c, data, p3 + 1);
    AckLists();
    AcksAdd(s.out, 1, 2);
    AcksAdd(s.out, 3, 1);
  }

  /** The shape of the unit test's upload: a `T` line `t`, a `C` line `h` for
      `data` with its payload and terminator, an `E` line `e` and a blank line,
      sitting at the positions given. A fresh session over it writes five acks
      and returns exactly one receipt, for the header's file. */
  lemma TypicalUpload(env: Env, input: seq<byte>, files: map<string, seq<byte>>, rows: map<string, Row>,
                      t: seq<byte>, h: seq<byte>, c: CRecord, data: seq<byte>, e: seq<byte>,
                      p1: nat, p2: nat, p3: nat, p4: nat)
    requires LineAt(input, 0, p1, t) && t[0] == MARK_T
    requires FileAt(input, p1, p2, p3, h, c, data) && EndAt(input, p3 + 1, p4, e)
    requires env.token(0) !in rows
    ensures var r := ReceiveSession(env, input, 0, [], files, rows);
      var tok := env.token(0);
      && r.result == Ok([Receipt(tok, env.digest(data), ExpiresAt(env, 0), c.filename, c.size, c.mode)])
      && r.state.out == Acks(5)
      && tok in r.state.rows && r.state.rows[tok].storedPath == FinalPath(env.dataDir, tok)
      && FinalPath(env.dataDir, tok) in r.state.files && r.state.files[FinalPath(env.dataDir, tok)] == data
  {
    var s0 := RxState(0, [] + [ACK_OK], files, rows, 0, []);
    TimesFileEnd(env, input, s0, t, h, c, data, e, p1, p2, p3, p4);
    AckLists();
    AcksAdd([], 1, 4);
    EmptyFirst([Receipt(env.token(0), env.digest(data), ExpiresAt(env, 0), c.filename, c.size, c.mode)]);
  }

  /** The pieces of an upload stream `t + h + data + [0] + e + [\n]`, at the
      positions where each begins. */
  predicate Layout(input: seq<byte>, t: seq<byte>, h: seq<byte>, data: seq<byte>, e: seq<byte>,
                   p1: nat, p2: nat, p3: nat, p4: nat)
  {
    p1 == |t| && p2 == p1 + |h| && p3 == p2 + |data| && p4 == p3 + 1 + |e| && p4 + 1 == |input|
    && input[0..p1] == t && input[p1..p2] == h && input[p2..p3] == data && input[p3] == ACK_OK
    && input[p3 + 1..p4] == e && input[p4] == NEWLINE
  }

  /** Where the pieces of an upload sit in its stream. */
  lemma UploadLayout(input: seq<byte>, t: seq<byte>, h: seq<byte>, data: seq<byte>, e: seq<byte>)
    requires input == t + h + data + [ACK_OK] + e + [NEWLINE]
    ensures Layout(input, t, h, data, e, |t|, |t| + |h|, |t| + |h| + |data|, |t| + |h| + |data| + 1 + |e|)
  {
    var p1 := |t|;
    var p2 := p1 + |h|;
    var p3 := p2 + |data|;
    var p4 := p3 + 1 + |e|;
    assert input[0..p1] == t;
    assert input[p1..p2] == h;
    assert input[p2..p3] == data;
    assert input[p3 + 1..p4] == e;
  }

  /** An ASCII text ending in its only newline is one line. */
  lemma TextLine(x: string)
    requires IsAscii(x) && |x| > 0 && x[|x| - 1] == '\n' && forall k :: 0 <= k < |x| - 1 ==> x[k] != '\n'
    ensures OneLine(EncodeUtf8(x)) && EncodeUtf8(x)[0] as int == x[0] as int
  {
  }

  /** The lines of the unit test's upload are what they look like. */
  lemma PutLines()
    ensures OneLine(EncodeUtf8("T0 0 0 0\n")) && EncodeUtf8("T0 0 0 0\n")[0] == MARK_T
    ensures OneLine(EncodeUtf8("E\n")) && EncodeUtf8("E\n")[0] == MARK_E
    ensures |EncodeUtf8("T0 0 0 0\n")| == 9 && |EncodeUtf8("hello")| == 5 && |EncodeUtf8("E\n")| == 2
  {
    assert IsAscii("T0 0 0 0\n") && IsAscii("E\n") && IsAscii("hello");
    TextLine("T0 0 0 0\n");
    TextLine("E\n");
  }

  /** The header of the unit test's upload is a `C` line that parses. */
  lemma PutHeader()
    ensures OneLine(CLine("0644", 5, "hello.txt")) && CLine("0644", 5, "hello.txt")[0] == MARK_C
    ensures ParseCRecord(CLine("0644", 5, "hello.txt")) == Ok(CRecord("0644", 5, "hello.txt"))
    ensures |CLine("0644", 5, "hello.txt")| == 18
  {
    assert FormatInt(5) == "5";
    assert CText("0644", 5, "hello.txt") + "\n" == "C0644 5 hello.txt\n";
    assert IsAscii("C0644 5 hello.txt\n");
    assert HeaderFields("0644", "hello.txt");
    HeaderLine("0644", 5, "hello.txt");
  }

  /** The upload of the unit test, with its four lines and payload named and
      placed. */
  lemma PutPieces(env: Env, input: seq<byte>, files: map<string, seq<byte>>, rows: map<string, Row>,
                  t: seq<byte>, h: seq<byte>, data: seq<byte>, e: seq<byte>, p1: nat, p2: nat, p3: nat, p4: nat)
    requires t == EncodeUtf8("T0 0 0 0\n") && h == CLine("0644", 5, "hello.txt")
    requires data == EncodeUtf8("hello") && e == EncodeUtf8("E\n")
    requires Layout(input, t, h, data, e, p1, p2, p3, p4)
    requires env.token(0) !in rows
    ensures var r := ReceiveSession(env, input, 0, [], files, rows);
      var tok := env.token(0);
      && r.result == Ok([Receipt(tok, env.digest(data), ExpiresAt(env, 0), "hello.txt", 5, "0644")])
      && r.state.out == Acks(5)
      && FinalPath(env.dataDir, tok) in r.state.files && r.state.files[FinalPath(env.dataDir, tok)] == data
  {
    PutLines();
    PutHeader();
    TypicalUpload(env, input, files, rows, t, h, CRecord("0644", 5, "hello.txt"), data, e, p1, p2, p3, p4);
  }

  /** Where the pieces of the unit test's upload sit in its stream. */
  lemma PutLayout(input: seq<byte>, t: seq<byte>, h: seq<byte>, data: seq<byte>, e: seq<byte>)
    requires t == EncodeUtf8("T0 0 0 0\n") && h == CLine("0644", 5, "hello.txt")
    requires data == EncodeUtf8("hello") && e == EncodeUtf8("E\n")
    requires input == t + h + data + [ACK_OK] + e + [NEWLINE]
    ensures Layout(input, t, h, data, e, 9, 27, 32, 35)
  {
    PutLines();
    PutHeader();
    UploadLayout(input, t, h, data, e);
  }

  /** The upload of the unit test, `T0 0 0 0`, `C0644 5 hello.txt`, the payload
      `hello`, `E` and a blank line: five acks, the payload stored under
      `data_dir/token`, and the one receipt. */
  lemma PutFlow(env: Env, input: seq<byte>, files: map<string, seq<byte>>, rows: map<string, Row>)
    requires input == EncodeUtf8("T0 0 0 0\n") + CLine("0644", 5, "hello.txt") + EncodeUtf8("hello")
                      + [ACK_OK] + EncodeUtf8("E\n") + [NEWLINE]
    requires env.token(0) !in rows
    ensures var r := ReceiveSession(env, input, 0, [], files, rows);
      var tok := env.token(0);
      && r.result == Ok([Receipt(tok, env.digest(EncodeUtf8("hello")), ExpiresAt(env, 0),
                                 "hello.txt", 5, "0644")])
      && r.state.out == Acks(5)
      && FinalPath(env.dataDir, tok) in r.state.files
      && r.state.files[FinalPath(env.dataDir, tok)] == EncodeUtf8("hello")
  {
    PutLayout(input, EncodeUtf8("T0 0 0 0\n"), CLine("0644", 5, "hello.txt"), EncodeUtf8("hello"), EncodeUtf8("E\n"));
    PutPieces(env, input, files, rows, EncodeUtf8("T0 0 0 0\n"), CLine("0644", 5, "hello.txt"),
              EncodeUtf8("hello"), EncodeUtf8("E\n"), 9, 27, 32, 35);
  }

  /** The header `C0644 -1 a.txt` is one `C` line of 15 bytes. */
  lemma NegativeHeaderLine()
    ensures OneLine(CLine("0644", -1, "a.txt")) && CLine("0644", -1, "a.txt")[0] == MARK_C
  {
    assert IsAscii("a.txt") && IsAscii("0644");
    CLineShape("0644", -1, "a.txt");
  }

  /** A session over one `C` line `h`, which the receiver's parse reads as `c`,
      with a payload `data` of the size the loop expects and its terminator, and
      nothing after: the file lands and the session ends there. */
  lemma OneHeaderSession(env: Env, input: seq<byte>, h: seq<byte>, c: CRecord, data: seq<byte>,
                         files: map<string, seq<byte>>, rows: map<string, Row>)
    requires OneLine(h) && h[0] == MARK_C && HeaderOf(env, h) == Ok(c) && Copied(c.size) == |data|
    requires input == h + data + [ACK_OK] && env.token(0) !in rows
    ensures var s0 := RxState(0, [] + [ACK_OK], files, rows, 0, []);
      var l := Landed(env, s0, c, data, |input|);
      ReceiveSession(env, input, 0, [], files, rows) == RxEnd(l, Ok(l.receipts))
  {
    var s0 := RxState(0, [] + [ACK_OK], files, rows, 0, []);
    ThreePieces(input, h, data);
    FileThenBy(env, input, s0, h, c, data, |h|, |h| + |data|);
    EofEndsSession(env, input, Landed(env, s0, c, data, |input|));
  }

  /** The pieces of `h + data + [ACK_OK]`, by position. */
  lemma ThreePieces(input: seq<byte>, h: seq<byte>, data: seq<byte>)
    requires input == h + data + [ACK_OK] && OneLine(h)
    ensures LineAt(input, 0, |h|, h) && |input| == |h| + |data| + 1
    ensures input[|h|..|h| + |data|] == data && input[|h| + |data|] == ACK_OK
  {
  }

  /** As written, the upload `C0644 -1 a.txt` then `\0` is accepted: the header
      is acked, the payload loop copies nothing, the terminator is acked, and the
      session returns one receipt of size -1 whose row records size -1 over an
      empty stored file. */
  lemma NegativeSizeLands(env: Env, files: map<string, seq<byte>>, rows: map<string, Row>)
    requires !env.strict && env.token(0) !in rows
    ensures var input := CLine("0644", -1, "a.txt") + [ACK_OK];
      var r := ReceiveSession(env, input, 0, [], files, rows);
      var tok := env.token(0);
      var fin := FinalPath(env.dataDir, tok);
      && r.result == Ok([Receipt(tok, env.digest([]), ExpiresAt(env, 0), "a.txt", -1, "0644")])
      && r.state.out == Acks(3)
      && fin in r.state.files && r.state.files[fin] == []
      && tok in r.state.rows && r.state.rows[tok].sizeBytes == -1 && r.state.rows[tok].storedPath == fin
  {
    var h := CLine("0644", -1, "a.txt");
    NegativeSizeAccepted();
    NegativeHeaderLine();
    NegativeLandsOver(env, h, files, rows);
  }

  /** `NegativeSizeLands` for any line `h` the as-written parse reads as
      `C0644 -1 a.txt`. */
  lemma NegativeLandsOver(env: Env, h: seq<byte>, files: map<string, seq<byte>>, rows: map<string, Row>)
    requires !env.strict && env.token(0) !in rows
    requires OneLine(h) && h[0] == MARK_C && ParseCRecordAsWritten(h) == Ok(CRecord("0644", -1, "a.txt"))
    ensures var r := ReceiveSession(env, h + [ACK_OK], 0, [], files, rows);
      var tok := env.token(0);
      var fin := FinalPath(env.dataDir, tok);
      && r.result == Ok([Receipt(tok, env.digest([]), ExpiresAt(env, 0), "a.txt", -1, "0644")])
      && r.state.out == Acks(3)
      && fin in r.state.files && r.state.files[fin] == []
      && tok in r.state.rows && r.state.rows[tok].sizeBytes == -1 && r.state.rows[tok].storedPath == fin
  {
    var c := CRecord("0644", -1, "a.txt");
    assert h + [ACK_OK] == h + [] + [ACK_OK];
    OneHeaderSession(env, h + [ACK_OK], h, c, [], files, rows);
    FirstLanded(env, files, rows, c, [], |h| + 1);
  }

  /** The first file of a session, landed: three acks in all, the payload under
      `data_dir/token`, its row, and it as the only receipt. */
  lemma FirstLanded(env: Env, files: map<string, seq<byte>>, rows: map<string, Row>, c: CRecord,
                    data: seq<byte>, p: nat)
    ensures var l := Landed(env, RxState(0, [] + [ACK_OK], files, rows, 0, []), c, data, p);
      var tok := env.token(0);
      var fin := FinalPath(env.dataDir, tok);
      && l.out == Acks(3)
      && fin in l.files && l.files[fin] == data
      && tok in l.rows && l.rows[tok].sizeBytes == c.size && l.rows[tok].storedPath == fin
      && l.receipts == [Receipt(tok, env.digest(data), ExpiresAt(env, 0), c.filename, c.size, c.mode)]
  {
    var s0 := RxState(0, [] + [ACK_OK], files, rows, 0, []);
    LandedHolds(env, s0, c, data, p);
    AckLists();
    AcksAdd([], 1, 2);
    EmptyFirst([Receipt(env.token(0), env.digest(data), ExpiresAt(env, 0), c.filename, c.size, c.mode)]);
  }

  /** The corrected receiver refuses the same upload at its header: only the
      initial ack is written, and the directory and the table are untouched. */
  lemma NegativeSizeRefused(env: Env, files: map<string, seq<byte>>, rows: map<string, Row>)
    requires env.strict
    ensures var input := CLine("0644", -1, "a.txt") + [ACK_OK];
      var r := ReceiveSession(env, input, 0, [], files, rows);
      && r.result == Err(BadCRecord(CLine("0644", -1, "a.txt")))
      && r.state.out == Acks(1)
      && r.state.files == files && r.state.rows == rows
  {
    var h := CLine("0644", -1, "a.txt");
    NegativeSizeAccepted();
    NegativeHeaderLine();
    NegativeRefusedOver(env, h, files, rows);
  }

  /** `NegativeSizeRefused` for any line `h` the corrected parse refuses. */
  lemma NegativeRefusedOver(env: Env, h: seq<byte>, files: map<string, seq<byte>>, rows: map<string, Row>)
    requires env.strict && OneLine(h) && h[0] == MARK_C && ParseCRecord(h).Err?
    ensures var r := ReceiveSession(env, h + [ACK_OK], 0, [], files, rows);
      && r.result == Err(BadCRecord(h))
      && r.state.out == Acks(1)
      && r.state.files == files && r.state.rows == rows
  {
    var s0 := RxState(0, [] + [ACK_OK], files, rows, 0, []);
    assert (h + [ACK_OK])[0..|h|] == h;
    BadHeaderNotAcked(env, h + [ACK_OK], s0, |h|, h);
    AckLists();
  }

  // ------------------------------------------------------------ the receiver

  /** The session state the mutable objects hold. */
  ghost function Snapshot(ch: Channel, fs: FileSystem, db: MetadataStore, next: nat,
                          receipts: seq<Receipt>): RxState
    reads ch, fs, db
  {
    RxState(ch.pos, ch.output, fs.files, db.rows, next, receipts)
  }

  /** The payload loop (gateway.py lines 138-147): copies `size` bytes from stdin
      into `tmp` in chunks (none when `size <= 0`), updating the digest input
      `hashed` as it goes; stops short only at EOF. */
  method CopyPayload(ch: Channel, fs: FileSystem, tmp: string, size: int)
    returns (hashed: seq<byte>, complete: bool)
    requires ch.Valid() && tmp in fs.files && fs.files[tmp] == []
    modifies ch`pos, fs`files
    ensures ch.Valid()
    ensures complete <==> old(ch.pos) + Copied(size) <= |ch.input|
    ensures ch.pos == Min(old(ch.pos) + Copied(size), |ch.input|)
    ensures hashed == ch.input[old(ch.pos)..ch.pos]
    ensures fs.files == old(fs.files)[tmp := hashed]
  {
    hashed := [];
    var remaining: int := size;
    while remaining > 0
      invariant ch.Valid() && old(ch.pos) <= ch.pos && hashed == ch.input[old(ch.pos)..ch.pos]
      invariant remaining == size - |hashed| && |hashed| <= Copied(size)
      invariant fs.files == old(fs.files)[tmp := hashed]
      decreases remaining
    {
      var chunk := ch.Read(Min(CHUNK_SIZE, remaining));
      if chunk == [] {
        return hashed, false;
      }
      fs.Append(tmp, chunk);
      hashed := hashed + chunk;
      remaining := remaining - |chunk|;
    }
    complete := true;
  }

  /** The `C` branch from the terminator on (gateway.py lines 150-185). */
  method CommitFile(env: Env, ch: Channel, fs: FileSystem, db: MetadataStore, n: nat, next: nat,
                    receipts: seq<Receipt>, c: CRecord, hashed: seq<byte>)
    returns (receipts': seq<Receipt>, err: Option<Failure>)
    requires ch.Valid() && db.Valid()
    requires TmpPath(env.dataDir, env.token(n)) in fs.files && fs.files[TmpPath(env.dataDir, env.token(n))] == hashed
    modifies ch, fs`files, db
    ensures ch.Valid() && db.Valid() && ch.input == old(ch.input)
    ensures Commit(env, ch.input, old(Snapshot(ch, fs, db, next, receipts)), n, c, hashed)
         == if err.None? then Continue(Snapshot(ch, fs, db, next, receipts'))
            else Stop(Snapshot(ch, fs, db, next, receipts'), err.value)
  {
    var token := env.token(n);
    receipts' := receipts;
    var term := ch.ReadExact(1);
    if term.Err? {
      return receipts', Some(Eof);
    }
    var b := term.value[0];
    if b != ACK_OK {
      return receipts', Some(MissingTerminator(b));
    }
    var fin := FinalPath(env.dataDir, token);
    fs.Replace(TmpPath(env.dataDir, token), fin);
    ch.SendOk();
    var created := env.clock(n);
    var expires := created + env.ttlDays * SECONDS_PER_DAY;
    var digest := env.digest(hashed);
    var inserted := db.InsertFile(token, digest, c.filename, c.size, fin, created, expires);
    if inserted.Fail? {
      return receipts', Some(inserted.error);
    }
    receipts' := receipts + [Receipt(token, digest, expires, c.filename, c.size, c.mode)];
    err := None;
  }

  /** The `C` branch from the header ack on (gateway.py lines 132-185). */
  method ReceiveFile(env: Env, ch: Channel, fs: FileSystem, db: MetadataStore, next: nat,
                     receipts: seq<Receipt>, c: CRecord)
    returns (next': nat, receipts': seq<Receipt>, err: Option<Failure>)
    requires ch.Valid() && db.Valid()
    modifies ch, fs`files, db
    ensures ch.Valid() && db.Valid() && ch.input == old(ch.input)
    ensures FileStep(env, ch.input, old(Snapshot(ch, fs, db, next, receipts)), c)
         == if err.None? then Continue(Snapshot(ch, fs, db, next', receipts'))
            else Stop(Snapshot(ch, fs, db, next', receipts'), err.value)
  {
    ch.SendOk();
    var tmp := TmpPath(env.dataDir, env.token(next));
    next' := next + 1;
    fs.Create(tmp);
    var hashed, complete := CopyPayload(ch, fs, tmp, c.size);
    Rewritten(old(fs.files), tmp, [], hashed);
    if !complete {
      return next', receipts, Some(Eof);
    }
    receipts', err := CommitFile(env, ch, fs, db, next, next', receipts, c, hashed);
  }

  /** One pass of the record loop on the `line` just read, starting from `s0`,
      the state before the read. */
  method ReceiveRecord(env: Env, ch: Channel, fs: FileSystem, db: MetadataStore, next: nat,
                       receipts: seq<Receipt>, line: seq<byte>, ghost s0: RxState)
    returns (next': nat, receipts': seq<Receipt>, err: Option<Failure>)
    requires ch.Valid() && db.Valid()
    requires s0.pos < |ch.input| && ch.pos == LineEnd(ch.input, s0.pos) && line == ch.input[s0.pos..ch.pos]
    requires Snapshot(ch, fs, db, next, receipts) == s0.(pos := ch.pos)
    modifies ch, fs`files, db
    ensures ch.Valid() && db.Valid() && ch.input == old(ch.input)
    ensures RecordStep(env, ch.input, s0)
         == if err.None? then Continue(Snapshot(ch, fs, db, next', receipts'))
            else Stop(Snapshot(ch, fs, db, next', receipts'), err.value)
  {
    if line[0] == MARK_T {
      ch.SendOk();
      return next, receipts, None;
    }
    if line[0] == MARK_C {
      var parsed := HeaderOf(env, line);
      if parsed.Err? {
        return next, receipts, Some(parsed.error);
      }
      next', receipts', err := ReceiveFile(env, ch, fs, db, next, receipts, parsed.value);
      return;
    }
    if line[0] == MARK_E {
      ch.SendOk();
      return next, receipts, None;
    }
    if IsBlankLine(line) {
      return next, receipts, None;
    }
    return next, receipts, Some(UnsupportedRecord(line));
  }

  /** `scp_receive_one`: the initial ack, then records until EOF or an exception. */
  method ScpReceiveOne(env: Env, ch: Channel, fs: FileSystem, db: MetadataStore)
    returns (r: Result<seq<Receipt>>)
    requires ch.Valid() && db.Valid()
    modifies ch, fs`files, db
    ensures ch.Valid() && db.Valid() && ch.input == old(ch.input)
    ensures var e := ReceiveSession(env, ch.input, old(ch.pos), old(ch.output), old(fs.files), old(db.rows));
      && r == e.result
      && ch.pos == e.state.pos && ch.output == e.state.out
      && fs.files == e.state.files && db.rows == e.state.rows
  {
    ghost var goal := ReceiveSession(env, ch.input, ch.pos, ch.output, fs.files, db.rows);
    ch.SendOk();
    var next: nat := 0;
    var receipts: seq<Receipt> := [];
    while true
      invariant ch.Valid() && db.Valid() && ch.input == old(ch.input)
      invariant Receive(env, ch.input, Snapshot(ch, fs, db, next, receipts)) == goal
      decreases |ch.input| - ch.pos
    {
      ghost var s0 := Snapshot(ch, fs, db, next, receipts);
      var line := ch.ReadLine();
      if line.Err? {
        return Ok(receipts);
      }
      var err;
      next, receipts, err := ReceiveRecord(env, ch, fs, db, next, receipts, line.value, s0);
      if err.Some? {
        return Err(err.value);
      }
    }
  }
}
