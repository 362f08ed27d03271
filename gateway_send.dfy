/** The download side of the gateway, `scp_send_one` (gateway.py lines 200-244):
    a minimal `scp -f` source for one token. `SendSession` states what a download
    does to the channel; `ScpSendOne` is the step-by-step sender over the mutable
    objects, proved to do exactly that. */
module GatewaySend {
  import opened Common
  import opened Text
  import opened Store
  import opened FileStore
  import opened Channel
  import opened GatewayParse
  import opened GatewayReceive

  /** Why the sender turns a token away before touching stdin or stdout; each is
      reported on stderr and ends the process with `sys.exit(2)`. */
  datatype Refusal = NotFound | Expired | MissingOnDisk

  /** The stderr line written for each refusal. */
  function RefusalMessage(why: Refusal): string
  {
    match why
    case NotFound => "ERROR: token not found\n"
    case Expired => "ERROR: token expired\n"
    case MissingOnDisk => "ERROR: file missing on disk\n"
  }

  /** The three checks made before any byte is exchanged (gateway.py lines 205-222),
      in this order: the token has a row, `now` is before its expiry (a token is
      already expired at the instant `expires_at`), and its stored file exists. */
  function Admit(rows: map<string, Row>, files: map<string, seq<byte>>, token: string, now: int): (r: Option<Refusal>)
    ensures r == Some(NotFound) <==> token !in rows
    ensures r == Some(Expired) <==> token in rows && now >= rows[token].expiresAt
    ensures r == Some(MissingOnDisk) <==>
      token in rows && now < rows[token].expiresAt && rows[token].storedPath !in files
    ensures r == None <==> token in rows && now < rows[token].expiresAt && rows[token].storedPath in files
  {
    if token !in rows then Some(NotFound)
    else if now >= rows[token].expiresAt then Some(Expired)
    else if rows[token].storedPath !in files then Some(MissingOnDisk)
    else None
  }

  /** Where `_expect_client_ok` leaves a stdin cursor that stood at `p`: one byte
      further, unless the stream had ended. */
  function AfterAck(input: seq<byte>, p: nat): (q: nat)
    requires p <= |input|
    ensures q <= |input| && (q == p + 1 || q == p == |input|)
  {
    if p < |input| then p + 1 else p
  }

  /** What a download leaves: the stdin cursor, stdout, and whether it returned
      or raised. */
  datatype TxEnd = TxEnd(pos: nat, out: seq<byte>, result: Outcome)

  /** Lines 224-244, once the token is admitted: wait for the client's ack, send
      the header, wait, send the whole file and a `\0`, wait for the last ack.
      A download completes exactly when the client acks three times, and then
      consumes those three bytes. Nothing is written before the first ack and the
      file is not sent before the second: a download that fails has written
      nothing, the header only, or (when only the last ack is missing) the header,
      the file and its `\0`; it reports the first byte that was not an ack, or EOF. */
  function Transfer(input: seq<byte>, pos: nat, out: seq<byte>, size: int, token: string,
                    content: seq<byte>): (r: TxEnd)
    requires pos <= |input|
    ensures pos <= r.pos <= |input|
    ensures r.result == Pass <==>
      pos + 3 <= |input| && input[pos] == ACK_OK && input[pos + 1] == ACK_OK && input[pos + 2] == ACK_OK
    ensures r.result == Pass ==> r.pos == pos + 3 && r.out == out + Header(size, token) + content + [ACK_OK]
    ensures (pos == |input| || input[pos] != ACK_OK) ==> r.out == out && r.result == AckAt(input, pos)
    ensures (pos < |input| && input[pos] == ACK_OK && (pos + 1 == |input| || input[pos + 1] != ACK_OK)) ==>
      r.out == out + Header(size, token) && r.result == AckAt(input, pos + 1)
    ensures (pos + 2 <= |input| && input[pos] == ACK_OK && input[pos + 1] == ACK_OK) ==>
      r.out == out + Header(size, token) + content + [ACK_OK] && r.result == AckAt(input, pos + 2)
    ensures r.result.Fail? ==> r.result.error == Eof || r.result.error.ClientNotOk?
  {
    var first := AckAt(input, pos);
    var p1 := AfterAck(input, pos);
    if first.Fail? then TxEnd(p1, out, first)
    else
      var withHeader := out + Header(size, token);
      var second := AckAt(input, p1);
      var p2 := AfterAck(input, p1);
      if second.Fail? then TxEnd(p2, withHeader, second)
      else TxEnd(AfterAck(input, p2), withHeader + content + [ACK_OK], AckAt(input, p2))
  }

  /** A download: turned away, or carried out. */
  datatype Download = Refused(why: Refusal) | Transferred(end: TxEnd)

  /** `scp_send_one(conf, token)` at time `now`, with the stdin cursor at `pos`
      and `out` already written. */
  function SendSession(rows: map<string, Row>, files: map<string, seq<byte>>, token: string, now: int,
                       input: seq<byte>, pos: nat, out: seq<byte>): (d: Download)
    requires pos <= |input|
    ensures d.Refused? <==> Admit(rows, files, token, now).Some?
    ensures d.Refused? ==> d.why == Admit(rows, files, token, now).value
  {
    match Admit(rows, files, token, now)
    case Some(why) => Refused(why)
    case None => Transferred(Transfer(input, pos, out, rows[token].sizeBytes, token, files[rows[token].storedPath]))
  }

  // ------------------------------------------------------------ properties

  /** The client's bytes and the file it receives once the token is admitted. */
  lemma AdmittedDownload(rows: map<string, Row>, files: map<string, seq<byte>>, token: string, now: int,
                         input: seq<byte>, pos: nat, out: seq<byte>)
    requires pos <= |input| && Admit(rows, files, token, now).None?
    ensures token in rows && rows[token].storedPath in files
    ensures var d := SendSession(rows, files, token, now, input, pos, out);
      d.Transferred? && (d.end.result == Pass <==>
        pos + 3 <= |input| && input[pos] == ACK_OK && input[pos + 1] == ACK_OK && input[pos + 2] == ACK_OK)
    ensures var d := SendSession(rows, files, token, now, input, pos, out);
      d.Transferred? && d.end.result == Pass ==>
        d.end.out == out + Header(rows[token].sizeBytes, token) + files[rows[token].storedPath] + [ACK_OK]
  {
  }

  /** Every receipt an upload returned can be fetched back before it expires: the
      client gets the header with the recorded size and then exactly the stored
      bytes, whose digest is the receipt's `sha512`; there are as many of them as
      the size says (none, as written, for a negative size, which the corrected
      receiver never records). */
  lemma ReceiptDownloads(env: Env, s: RxState, i: nat, now: int, input: seq<byte>, pos: nat, out: seq<byte>)
    requires Consistent(env, s) && i < |s.receipts| && now < s.receipts[i].expiresAt
    requires pos + 3 <= |input| && input[pos] == ACK_OK && input[pos + 1] == ACK_OK && input[pos + 2] == ACK_OK
    ensures var r := s.receipts[i];
      var path := FinalPath(env.dataDir, r.token);
      && path in s.files
      && (r.sizeBytes >= 0 ==> |s.files[path]| == r.sizeBytes)
      && (r.sizeBytes < 0 ==> s.files[path] == [])
      && (env.strict ==> r.sizeBytes >= 0)
      && env.digest(s.files[path]) == r.sha512
      && SendSession(s.rows, s.files, r.token, now, input, pos, out)
         == Transferred(TxEnd(pos + 3, out + Header(r.sizeBytes, r.token) + s.files[path] + [ACK_OK], Pass))
  {
    var r := s.receipts[i];
    assert Backed(env, s, r);
    AdmittedDownload(s.rows, s.files, r.token, now, input, pos, out);
  }

  /** The header the sender writes is one `C` line that the receiver's parse
      reads back as the same mode, size and name. */
  lemma SentHeaderParses(size: nat, token: string)
    requires IsUrlSafe(token)
    ensures var h := Header(size, token);
      OneLine(h) && h[0] == MARK_C && ParseCRecord(h) == Ok(CRecord("0644", size, token))
  {
    assert IsAscii(token) && !IsSpace(token[|token| - 1]) && '\n' !in token;
    assert HeaderFields("0644", token);
    HeaderLine("0644", size, token);
  }

  /** The three pieces of `h + content + [ACK_OK]`, by position. */
  lemma Pieces(stream: seq<byte>, h: seq<byte>, content: seq<byte>)
    requires stream == h + content + [ACK_OK]
    ensures |stream| == |h| + |content| + 1
    ensures stream[0..|h|] == h && stream[|h|..|h| + |content|] == content && stream[|h| + |content|] == ACK_OK
  {
    assert stream[0..|h|] == h;
    assert stream[|h|..|h| + |content|] == content;
  }

  /** A header line, its payload and the closing `\0` at the start of a stream
      form one file record there. */
  lemma FileFirst(stream: seq<byte>, h: seq<byte>, c: CRecord, content: seq<byte>)
    requires OneLine(h) && h[0] == MARK_C && ParseCRecord(h) == Ok(c) && c.size == |content|
    requires stream == h + content + [ACK_OK]
    ensures FileAt(stream, 0, |h|, |h| + |content|, h, c, content)
  {
    Pieces(stream, h, content);
  }

  /** Where the pieces of a sent file sit in what the client reads. */
  lemma SentLayout(token: string, content: seq<byte>, stream: seq<byte>)
    requires IsUrlSafe(token) && stream == Header(|content|, token) + content + [ACK_OK]
    ensures var h := Header(|content|, token);
      FileAt(stream, 0, |h|, |h| + |content|, h, CRecord("0644", |content|, token), content)
  {
    SentHeaderParses(|content|, token);
    FileFirst(stream, Header(|content|, token), CRecord("0644", |content|, token), content);
  }

  /** A stream holding exactly one file record is one landed file, and then
      a clean end. */
  lemma OneFileSession(env: Env, input: seq<byte>, q: RxState, h: seq<byte>, c: CRecord, data: seq<byte>, e: nat, f: nat)
    requires FileAt(input, q.pos, e, f, h, c, data) && |input| == f + 1
    requires env.token(q.next) !in q.rows
    ensures var l := Landed(env, q, c, data, |input|);
      Receive(env, input, q) == RxEnd(l, Ok(l.receipts))
  {
    FileThen(env, input, q, h, c, data, e, f);
    var l := Landed(env, q, c, data, f + 1);
    LandedHolds(env, q, c, data, f + 1);
    EofEndsSession(env, input, l);
  }

  /** What the sender writes after its header ack, read by an `scp -t` receiver of
      this same gateway, is one file that lands whole: its bytes are stored under
      the receiver's new token, with the sent token as the original name. */
  lemma SentFileIsReceived(env: Env, token: string, content: seq<byte>, q: RxState, stream: seq<byte>)
    requires IsUrlSafe(token) && stream == Header(|content|, token) + content + [ACK_OK]
    requires q.pos == 0 && env.token(q.next) !in q.rows
    ensures var l := Landed(env, q, CRecord("0644", |content|, token), content, |stream|);
      Receive(env, stream, q) == RxEnd(l, Ok(l.receipts))
  {
    var h := Header(|content|, token);
    SentLayout(token, content, stream);
    Pieces(stream, h, content);
    OneFileSession(env, stream, q, h, CRecord("0644", |content|, token), content, |h|, |h| + |content|);
  }

  // ------------------------------------------------------------ the sender

  /** The chunk loop (gateway.py lines 234-239): the whole file onto stdout,
      `CHUNK_SIZE` bytes at a time. */
  method SendContents(ch: Channel, fs: FileSystem, path: string)
    requires path in fs.files
    modifies ch`output
    ensures ch.output == old(ch.output) + fs.files[path]
  {
    var offset := 0;
    while true
      invariant offset <= |fs.files[path]|
      invariant ch.output == old(ch.output) + fs.files[path][..offset]
      decreases |fs.files[path]| - offset
    {
      var chunk := fs.ReadAt(path, offset, CHUNK_SIZE);
      if chunk == [] {
        break;
      }
      assert fs.files[path][..offset] + chunk == fs.files[path][..offset + |chunk|];
      ch.Write(chunk);
      offset := offset + |chunk|;
    }
    assert fs.files[path][..offset] == fs.files[path];
  }

  /** Lines 224-244: the three acks around the header and the file. */
  method TransferFile(ch: Channel, fs: FileSystem, path: string, size: int, token: string)
    returns (e: TxEnd)
    requires ch.Valid() && path in fs.files
    modifies ch
    ensures ch.Valid() && ch.input == old(ch.input)
    ensures e == Transfer(ch.input, old(ch.pos), old(ch.output), size, token, fs.files[path])
    ensures ch.pos == e.pos && ch.output == e.out
  {
    var ok := ch.ExpectClientOk();
    if ok.Fail? {
      return TxEnd(ch.pos, ch.output, ok);
    }
    ch.Write(Header(size, token));
    ok := ch.ExpectClientOk();
    if ok.Fail? {
      return TxEnd(ch.pos, ch.output, ok);
    }
    SendContents(ch, fs, path);
    ch.Write([ACK_OK]);
    ok := ch.ExpectClientOk();
    return TxEnd(ch.pos, ch.output, ok);
  }

  /** `scp_send_one(conf, token)` at time `now`. */
  method ScpSendOne(ch: Channel, fs: FileSystem, db: MetadataStore, token: string, now: int)
    returns (d: Download)
    requires ch.Valid() && db.Valid()
    modifies ch
    ensures ch.Valid() && ch.input == old(ch.input)
    ensures d == SendSession(db.rows, fs.files, token, now, ch.input, old(ch.pos), old(ch.output))
    ensures d.Refused? ==> ch.pos == old(ch.pos) && ch.output == old(ch.output)
    ensures d.Transferred? ==> ch.pos == d.end.pos && ch.output == d.end.out
  {
    var row := db.GetFileByToken(token);
    if row.None? {
      return Refused(NotFound);
    }
    var r := row.value;
    if now >= r.expiresAt {
      return Refused(Expired);
    }
    if !fs.IsFile(r.storedPath) {
      return Refused(MissingOnDisk);
    }
    var e := TransferFile(ch, fs, r.storedPath, r.sizeBytes, token);
    return Transferred(e);
  }
}
