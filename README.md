# A verified model of the scp file-drop gateway

The system is a restricted file-drop service reached over SSH. A client uploads
with `scp file host:` and gets a receipt with a random token. Later it downloads
with `scp host:<token> .` until the token expires. A background worker deletes
expired rows from the metadata table, then deletes their files.

This project models four pieces of that system in Dafny.

- **The gateway** (`server/app/gateway.py`):
  - the byte-channel primitives over stdin and stdout (module `Channel`);
  - the short-flag extractor and the parse of `C<mode> <size> <name>` headers (`GatewayParse`);
  - the `scp -t` receiver (`GatewayReceive`);
  - the `scp -f` sender (`GatewaySend`);
  - the dispatch and exit codes of `main` (`GatewayMain`).
- **The metadata store** (`server/app/db.py`): the `files` table as a class over a map keyed by token (`Store`).
- **The reaper** (`server/app/cleanup_worker.py`, module `CleanupWorker`):
  - `remove_expired_files`;
  - a bounded number of iterations of the cleanup loop.
- **The logging helper** (`server/app/logutil.py`, module `LogUtil`):
  - level names with aliases and a default;
  - the choice of sink;
  - the level, loaded once and cached;
  - the threshold test and the level wrappers.

Shared modules:
- `Common`: bytes, the ack byte, the exceptions raised, the result wrappers.
- `Text`: the Python string built-ins the code uses, on `seq<char>`.
- `FileStore`: the storage directory as a class holding a map from path to bytes.

The receiver and the sender are written twice:
- as pure functions (`Receive`, `ReceiveSession`, `Transfer`, `SendSession`) that state what a session does;
- as imperative methods over the mutable channel, storage and table objects (`ScpReceiveOne`, `ScpSendOne`), each proved to do what its function says, state for state.

The receiver's configuration `GatewayReceive.Env` has a flag `strict`:
- `false` is `scp_receive_one` as written. Its header parse is `GatewayParse.ParseCRecordAsWritten`, which takes a negative size (see "## Findings").
- `true` is the corrected receiver. Its parse is `GatewayParse.ParseCRecord`, which refuses such a header.

Every receiver lemma holds for both settings unless it names one. `GatewayReceive.NegativeSizeLands` and `GatewayReceive.NegativeSizeRefused` show where the two differ.

The protocol properties are lemmas about the functions.

The repository's unit test `test_scp_send_one_success` asserts that `Filename: orig.txt` appears on stderr. `scp_send_one` never writes that line, so the model writes nothing to stderr on a successful download.

## Model

| member | source | states |
|---|---|---|
| Channel.LineEnd | server/app/gateway.py:48-52 | `readline()` stops just past the first newline, or at the end of the stream when none follows |
| Channel.AckAt | server/app/gateway.py:60-64 | the client's byte passes exactly when it is `\0`; a missing byte is EOF |
| Channel.Channel.Read | server/app/gateway.py:41-43 | a read returns the next bytes of the stream, at most `k` of them, and is empty only at end of stream or when asked for nothing |
| Channel.Channel.ReadExact | server/app/gateway.py:37-45 | `_read_exact(n)` returns exactly the next `n` bytes or fails with EOF; never a short read |
| Channel.Channel.ReadLine | server/app/gateway.py:48-52 | `_read_line` returns the next line with its newline, or the rest of the stream; EOF only when nothing is left |
| Channel.Channel.Write | server/app/gateway.py:227-229 | stdout grows by exactly the bytes written |
| Channel.Channel.SendOk | server/app/gateway.py:55-57 | `_send_ok` appends one `\0` to stdout |
| Channel.Channel.ExpectClientOk | server/app/gateway.py:60-64 | `_expect_client_ok` consumes one byte and fails unless it is `\0` |
| GatewayParse.FlagsOf | server/app/gateway.py:87-94 | a character is a flag iff it follows the leading `-` of a token that has one `-`, not `--`, and is longer than one character |
| GatewayParse.ScpFlags | server/app/gateway.py:76-94 | the nested loops collect exactly those flags; a failed split gives the empty set |
| GatewayParse.CFields | server/app/gateway.py:122 | the fields rejoined with spaces are the stripped decoded line; at most three fields; only the last may hold spaces |
| GatewayParse.ParseCRecordAsWritten | server/app/gateway.py:119-127 | a header is bad iff it has fewer than three fields or `int()` refuses the size; otherwise mode is field 0 minus its `C`, size is `int(field 1)`, and the name is the whole remainder |
| GatewayParse.ParseCRecord | server/app/gateway.py:119-127 | the corrected parse accepts exactly the headers the parse as written accepts whose size is not negative, with the same fields |
| GatewayParse.ShortCRecordRefused | server/app/gateway.py:121-127 | `C0644` alone is a bad record |
| GatewayParse.CRecordRoundTrip | server/app/gateway.py:119-127 | writing a header from mode, size and name and parsing it gives the same three back, spaces in the name included |
| GatewayParse.CLineParses | server/app/gateway.py:119-127 | the corrected parse reads back every header written with size `>= 0` |
| GatewayParse.HeaderParses | server/app/gateway.py:227 | the download header `C0644 <size> <token>` parses back to mode `0644`, the size and the token |
| GatewayParse.NegativeSizeAccepted | server/app/gateway.py:124 | as written, `C0644 -1 a.txt` parses with size -1; the corrected parse refuses it |
| GatewayReceive.HeaderOf | server/app/gateway.py:119-127 | the receiver's header parse: the parse as written in the as-written receiver, the corrected parse in the corrected one, which never yields a negative size; a refusal is always `BadCRecord` of the line |
| GatewayReceive.Copied | server/app/gateway.py:139-147 | the number of bytes the payload loop copies for a size: the size itself when it is at least zero, none otherwise |
| GatewayReceive.FileStep | server/app/gateway.py:132-148 | the payload part of the `C` branch: the header ack, a token drawn, the payload copied into the temporary file, then `Commit`. The stream position only moves forward and stays within the input. What it does is stated by `FileStepCompletes` and `FileStepFails` |
| GatewayReceive.Commit | server/app/gateway.py:150-185 | the terminator, the rename, the second ack, the row and the receipt. The stream position only moves forward and stays within the input |
| GatewayReceive.RecordStep | server/app/gateway.py:107-113 | one pass of the loop reads one line and acts on it. It always consumes at least one byte, so the loop ends |
| GatewayReceive.Dispatch | server/app/gateway.py:113-195 | the five branches on the line just read: `T`, `C`, `E`, blank, anything else. The stream position stays within the input. Each branch is stated by the record lemmas below |
| GatewayReceive.Receive | server/app/gateway.py:105-197 | the loop. The stream position stays within the input. It returns normally only at the end of the stream, and then with every receipt collected |
| GatewayReceive.ReceiveSession | server/app/gateway.py:97-197 | a whole session: the initial ack, then the loop, with the same guarantees as `Receive` |
| GatewayReceive.FileStepCompletes | server/app/gateway.py:132-185 | a file completes iff its payload (`size` bytes, none for a size `<= 0`) and a `\0` follow and the token is new. It then consumes exactly those bytes and acks twice. It stores the payload under `data_dir/token` and removes the temporary file. It adds one row and one receipt, with created plus ttl days as expiry and the digest over exactly the payload |
| GatewayReceive.FileStepFails | server/app/gateway.py:138-155 | a failed file changes neither the table nor the receipts. Short of a duplicate token it does not rename, and the temporary file holds what arrived. Its error is EOF iff the payload or the terminator is cut short; a wrong terminator byte is reported |
| GatewayReceive.TimesRecord | server/app/gateway.py:113-117 | a `T` line is acked and ignored |
| GatewayReceive.EndRecord | server/app/gateway.py:187-189 | an `E` line is acked and ignored |
| GatewayReceive.BlankRecord | server/app/gateway.py:191-193 | a blank line is skipped without an ack |
| GatewayReceive.CRecordLine | server/app/gateway.py:119-132 | a `C` line that the receiver's parse accepts hands over to the file step with the parsed mode, size and name |
| GatewayReceive.BadHeaderNotAcked | server/app/gateway.py:121-127 | a `C` line that the receiver's parse refuses raises `BadCRecord` before anything is acked for it |
| GatewayReceive.UnsupportedRecordRaises | server/app/gateway.py:195 | any other non-blank line raises |
| GatewayReceive.EofEndsSession | server/app/gateway.py:107-111 | EOF at a record boundary ends the session normally with the receipts so far |
| GatewayReceive.HeaderLine | server/app/gateway.py:119-127 | a header written from its fields is one `C` line that the parse accepts |
| GatewayReceive.PathsDiffer | server/app/gateway.py:135-136 | a temporary path is never a final path, and different tokens give different final paths |
| GatewayReceive.FileStepKeepsConsistent | server/app/gateway.py:155-184 | completing a file keeps every earlier receipt backed by its row and file, and adds one backed receipt |
| GatewayReceive.DispatchKeepsConsistent | server/app/gateway.py:113-195 | every record kind writes only acks, and a step that goes on keeps every receipt backed |
| GatewayReceive.ReceiveConsistent | server/app/gateway.py:97-197 | whatever the input, a session writes only acks. A session that returns gives back its receipts, distinct by token, each backed by a row with its fields and a stored file with its digest. The file holds `size_bytes` bytes, or none for a negative size. In the corrected receiver no receipt has a negative size |
| GatewayReceive.SessionConsistent | server/app/gateway.py:97-197 | the same for a whole session started on a fresh stdout |
| GatewayReceive.LandedHolds | server/app/gateway.py:155-184 | a landed file: two acks, the row's stored path is `data_dir/token`, the file there holds the payload, the receipt is appended |
| GatewayReceive.FileLands | server/app/gateway.py:139-156 | a complete payload with its terminator, for a new token, lands |
| GatewayReceive.FileThenEnd | server/app/gateway.py:107-189 | one file, an `E` line and a blank line end the session with the file landed and one more ack |
| GatewayReceive.TimesFileEnd | server/app/gateway.py:105-193 | a `T` line, one file, an `E` line and a blank line give four acks after the initial one, the file under `data_dir/token`, and its receipt |
| GatewayReceive.TypicalUpload | server/app/gateway.py:97-197 | a fresh session over that shape writes five acks and returns exactly one receipt |
| GatewayReceive.OneHeaderSession | server/app/gateway.py:105-189 | a session made of one accepted header, its payload and its terminator ends normally with that one file landed |
| GatewayReceive.NegativeSizeLands | server/app/gateway.py:119-185 | as written, `C0644 -1 a.txt` and `\0` end normally: three acks, an empty file under `data_dir/token`, and a row and a receipt with `size_bytes` -1 |
| GatewayReceive.NegativeSizeRefused | server/app/gateway.py:119-127 | the corrected receiver refuses that header with `BadCRecord`, after the initial ack only, and changes neither the directory nor the table |
| GatewayReceive.PutFlow | tests/test_gateway_unit.py:31-69 | the unit test's upload (`T0 0 0 0`, `C0644 5 hello.txt`, `hello`, `E`, blank) writes five acks, stores `hello` and returns the one receipt with name, size and mode from the header |
| GatewayReceive.CopyPayload | server/app/gateway.py:138-147 | the chunk loop copies exactly `size` bytes (none for a size `<= 0`), or all that is left. It hashes exactly what it copied and is complete iff the stream held `size` bytes |
| GatewayReceive.CommitFile | server/app/gateway.py:150-185 | the terminator check, the rename, the ack, the insert and the receipt do exactly what the function `Commit` says |
| GatewayReceive.ReceiveFile | server/app/gateway.py:132-185 | the `C` branch does exactly what `FileStep` says |
| GatewayReceive.ReceiveRecord | server/app/gateway.py:113-195 | one pass of the loop does exactly what `RecordStep` says |
| GatewayReceive.ScpReceiveOne | server/app/gateway.py:97-197 | `scp_receive_one` leaves the channel, the directory and the table as `ReceiveSession` says, and returns its result |
| GatewaySend.Admit | server/app/gateway.py:205-222 | tokens are refused, in this order, when unknown, when `now >= expires_at` (inclusive), and when the stored file is missing; otherwise admitted |
| GatewaySend.AfterAck | server/app/gateway.py:60-64 | each ack wait consumes one byte unless the stream has ended |
| GatewaySend.Transfer | server/app/gateway.py:224-244 | a download completes iff the client acks three times. It then writes exactly header, file and `\0`. Nothing is written before the first ack and the file not before the second. After two acks the header, the file and `\0` are written even when the third is missing. A failure reports the byte that was not an ack, or EOF |
| GatewaySend.SendSession | server/app/gateway.py:200-244 | a download is refused exactly when `Admit` refuses it, for that reason |
| GatewaySend.AdmittedDownload | server/app/gateway.py:224-244 | an admitted token is transferred; it completes iff three acks come, and the client then gets the header with the stored size, the stored bytes and `\0` |
| GatewaySend.ReceiptDownloads | server/app/gateway.py:155-244 | every receipt an upload returned downloads before its expiry as the header and exactly the stored bytes. Their digest is the receipt's, and so is their count unless the size is negative, in which case the file is empty. The corrected receiver returns no negative size |
| GatewaySend.SentHeaderParses | server/app/gateway.py:227 | the sent header is one `C` line that the receiver's parse reads as mode `0644`, the size and the token |
| GatewaySend.SentLayout | server/app/gateway.py:227-241 | what a download writes after its header ack is one file record at the start of the stream |
| GatewaySend.SentFileIsReceived | server/app/gateway.py:227-241 | what the sender writes, read by this gateway's receiver, lands whole under a new token with the sent token as its name |
| GatewaySend.SendContents | server/app/gateway.py:234-239 | the chunk loop writes the whole file to stdout |
| GatewaySend.TransferFile | server/app/gateway.py:224-244 | the handshake does exactly what `Transfer` says |
| GatewaySend.ScpSendOne | server/app/gateway.py:200-244 | `scp_send_one` does what `SendSession` says; a refused token reads and writes nothing |
| GatewayMain.DirectionOf | server/app/gateway.py:248 | `sys.argv` asks for a direction iff it has exactly one argument, `put` or `get` |
| GatewayMain.TokenOf | server/app/gateway.py:287-292 | a token exists iff the command has at least three words; it is the last word, non-empty and without whitespace |
| GatewayMain.PlanOf | server/app/gateway.py:248-292 | the six outcomes of the checks, each as an if-and-only-if of the direction, the flag and the token |
| GatewayMain.Notices | server/app/gateway.py:273-278 | one `RECEIPT` block per receipt, in order, with its token and expiry |
| GatewayMain.UploadExit | server/app/gateway.py:264-279 | an upload exits 0 iff the receiver returned, with the receipts printed, and 1 iff it raised |
| GatewayMain.DownloadExit | server/app/gateway.py:294-302 | a download exits 2 iff refused, 1 iff the transfer raised, 0 iff it completed |
| GatewayMain.RefusedPlansExitTwo | server/app/gateway.py:248-291 | without `put`+`t` or `get`+`f`+token, `main` refuses with a message |
| GatewayMain.RunUpload | server/app/gateway.py:262-279 | the upload branch ends as `ReceiveSession` and `UploadExit` say |
| GatewayMain.NegativeUploadExit | server/app/gateway.py:119-279 | an upload of `C0644 -1 a.txt` exits 0 with one receipt as written, and 1 with `BadCRecord` in the corrected receiver |
| GatewayMain.RunDownload | server/app/gateway.py:294-302 | the download branch ends as `SendSession` and `DownloadExit` say |
| GatewayMain.Run | server/app/gateway.py:247-302 | `main` exits 2 with its message and touches nothing when the plan is refused. It runs the receiver for `put -t` and the sender for `get -f <token>`, ending as their exit functions say |
| Store.Lookup | server/app/db.py:89-99 | the row stored under the token, or none iff no such row |
| Store.InsertThenLookup | server/app/db.py:57-99 | a row inserted under a fresh token is found field for field; other lookups are unchanged |
| Store.ExpiredRows | server/app/db.py:108-112 | `delete_expired(now)` selects `(token, stored_path)` for exactly the rows with `expires_at <= now` |
| Store.Unexpired | server/app/db.py:112 | the table keeps exactly the rows with `expires_at > now`, unchanged |
| Store.DeleteExpiredPartitions | server/app/db.py:108-114 | every row is either reported and removed or kept, never both |
| Store.DeleteExpiredIdempotent | server/app/db.py:108-112 | a second `delete_expired(now)` finds nothing and changes nothing |
| Store.DeleteExpiredLater | server/app/db.py:108-112 | reaping at `now1` and then at a later `now2` is reaping at `now2` |
| Store.MetadataStore.InsertFile | server/app/db.py:57-86 | adds exactly the row with the seven fields; the primary key refuses a token already present |
| Store.MetadataStore.GetFileByToken | server/app/db.py:89-99 | returns the row under the token, or nothing iff there is none |
| Store.MetadataStore.DeleteExpired | server/app/db.py:102-114 | returns `(token, stored_path)` for exactly the rows with `expires_at <= now`, each once, and removes exactly those |
| FileStore.FileSystem.Create | server/app/gateway.py:140 | `open(path, "wb")` leaves an empty file |
| FileStore.FileSystem.Append | server/app/gateway.py:145 | a write appends the chunk |
| FileStore.FileSystem.ReadAt | server/app/gateway.py:236 | a read returns the next bytes of the file |
| FileStore.FileSystem.Replace | server/app/gateway.py:155 | `os.replace` moves the contents and removes the source |
| FileStore.FileSystem.Unlink | server/app/cleanup_worker.py:32 | removes the file unless the host refuses |
| CleanupWorker.ReapOutcome | server/app/cleanup_worker.py:28-43 | one item's outcome: missing iff no such file, failed iff the file exists and the host refuses the unlink, removed iff it exists and the unlink succeeds |
| CleanupWorker.ReapedFiles | server/app/cleanup_worker.py:26-43 | the storage after the list: every file left was there before with the same contents; nothing is created or rewritten |
| CleanupWorker.Outcomes | server/app/cleanup_worker.py:28-43 | one outcome per listed item |
| CleanupWorker.ReapedFilesExactly | server/app/cleanup_worker.py:26-43 | after the list, exactly the listed removable files are gone; every other file, listed or not, keeps its contents |
| CleanupWorker.ReapedFilesAppend | server/app/cleanup_worker.py:28 | handling two lists in a row is handling their concatenation |
| CleanupWorker.OutcomesOfDistinct | server/app/cleanup_worker.py:28-43 | with distinct paths, each item's outcome depends only on the storage before the call; earlier failures change nothing for later items |
| CleanupWorker.ThreeOutcomes | tests/test_cleanup_worker.py:11-37 | an existing file is removed, a missing one only reported, one whose unlink fails stays, all in one list |
| CleanupWorker.RemoveExpiredFiles | server/app/cleanup_worker.py:26-43 | the loop handles every item in order and leaves the outcomes and the storage the functions give |
| CleanupWorker.UnexpiredAllKeeps | server/app/cleanup_worker.py:52-53 | after several iterations a row is left iff it outlives every clock reading |
| CleanupWorker.CleanupRound | server/app/cleanup_worker.py:53-58 | one iteration: `delete_expired` once at its time, its files handled, one sleep of the interval |
| CleanupWorker.HistoryExtends | server/app/cleanup_worker.py:52-58 | a history grows by one round performed on what the earlier rounds left |
| CleanupWorker.RunCleanupLoop | server/app/cleanup_worker.py:46-58 | `n` iterations give `n` rounds, each performed in turn. The table ends reaped at every reading, and the storage reaped of every reported file |
| CleanupWorker.LoopTouchesOnlyReported | server/app/cleanup_worker.py:52-58 | files no reported row names are never touched; reported removable files are gone |
| LogUtil.LevelNamed | server/app/logutil.py:8-14 | a name is a level only under its own label |
| LogUtil.SinkPath | server/app/logutil.py:25-32 | no sink iff unset, blank, or `stderr`/`sys.stderr` in any case; otherwise the stripped name |
| LogUtil.Destination | server/app/logutil.py:71-82 | lines go to the sink file iff there is one and it opens; otherwise to stderr |
| LogUtil.Normalize | server/app/logutil.py:38 | `raw.strip().upper()`; stated by `NormalizeCanonical` |
| LogUtil.ResolveLevelName | server/app/logutil.py:35-42 | `_resolve_level_name` as the level the returned name stands for; stated by `ResolveLevelNameCases` and `ResolveIdempotent` |
| LogUtil.WarnsUnknown | server/app/logutil.py:52-54 | `_load_level` warns iff `LOG_LEVEL` is set and its normal form is neither a level nor an alias; stated by `WarnsExactlyWhenIgnored` |
| LogUtil.ResolveLevelNameCases | server/app/logutil.py:35-42 | unset gives `INFO`; a stripped, upper-cased level or alias gives that level; anything else gives `INFO` |
| LogUtil.NormalizeCanonical | server/app/logutil.py:38 | a level's label is its own normal form |
| LogUtil.ResolveIdempotent | server/app/logutil.py:35-42 | resolving a level's label gives that level |
| LogUtil.WarnsExactlyWhenIgnored | server/app/logutil.py:52-58 | the warning appears iff a value was set and ignored: it fell back to `INFO` without being `INFO` |
| LogUtil.AliasResolves | tests/test_logutil.py:70-79 | `log("warn", …)` writes the label `WARNING` |
| LogUtil.MoreSevereAlsoEmitted | server/app/logutil.py:85-88 | whenever a level is written, every more severe one is too |
| LogUtil.ThresholdEnds | server/app/logutil.py:85-108 | errors are written at every threshold, verbose lines only at the verbose one |
| LogUtil.Logger.Emit | server/app/logutil.py:71-82 | one line, to the chosen destination, with the level and the message |
| LogUtil.Logger.LoadLevel | server/app/logutil.py:45-58 | the rank of the resolved level and its source are stored; the warning is written iff the value is unknown |
| LogUtil.Logger.Level | server/app/logutil.py:61-64 | loads on first use only; afterwards returns the cached rank and writes nothing |
| LogUtil.Logger.Log | server/app/logutil.py:85-88 | writes the resolved label and the message iff its rank is within the threshold, after the first-use warning if any |
| LogUtil.Logger.Error | server/app/logutil.py:91-92 | `ERROR` is written at every threshold |
| LogUtil.Logger.Warning | server/app/logutil.py:95-96 | `WARNING` is written from rank 1 on |
| LogUtil.Logger.Info | server/app/logutil.py:99-100 | `INFO` is written from rank 2 on |
| LogUtil.Logger.Debug | server/app/logutil.py:103-104 | `DEBUG` is written from rank 3 on |
| LogUtil.Logger.Verbose | server/app/logutil.py:107-108 | `VERBOSE` is written only at rank 4 |
| Text.Strip | server/app/logutil.py:29 | `str.strip()`: empty iff all whitespace, no whitespace at either end, unchanged when there is none to remove |
| Text.StripIsSlice | server/app/logutil.py:29 | `str.strip()` is a slice of its input, and what it cuts at either end is all whitespace |
| Text.Fields | server/app/gateway.py:287 | `str.split()`: non-empty words without whitespace, none iff all whitespace |
| Text.FieldsSplit | server/app/gateway.py:287 | `str.split()` gives the words between the whitespace runs: the text is the runs and the words interleaved in order, the runs inside are non-empty, so each word is a maximal run of non-whitespace and every such run is a word |
| Text.FieldsFromSplits | server/app/gateway.py:287 | the same from any position, with the first run exactly the leading whitespace |
| Text.ParseInt | server/app/gateway.py:124 | `int()` on text: surrounding whitespace, an optional sign, then decimal digits with single underscores between them; none where Python raises, except past its 4300-digit limit; stated by `ParseFormatInt` |
| Text.Split | server/app/gateway.py:122 | `split(" ", 2)`: at most three parts that rejoin to the text; only the last may hold the separator |
| Text.ParseFormatInt | server/app/gateway.py:124 | `int(str(n)) == n` for every integer |
| Text.EncodeUtf8Append | server/app/gateway.py:227 | encoding distributes over concatenation |
| GatewayParse.IsBlankLine | server/app/gateway.py:191-193 | `line.strip() == b""`: every byte of the line is ASCII whitespace |
| Text.DecodeLossy | server/app/gateway.py:122 | decoding keeps the length, is exact on ASCII, and replaces other bytes by U+FFFD |

## Left out

- Logging calls inside the gateway, the table and the reaper are not modelled; `LogUtil` models the logger on its own.
- `LogUtil.Logger.Emit`: the line's timestamp (`_ts`) is not part of `Written`, because it reads the wall clock.
- `LogUtil.UnknownLevelMessage`: `{raw!r}` is written as the value between single quotes; Python's escaping and its choice of double quotes are not modelled.
- `LogUtil.Logger`: the environment (`LOG_LEVEL`, `LOG_SINK`) is fixed when the logger is built, so a change to it between calls is not modelled.
- `LogUtil.ResolveLevelName`: its contract is the lemma `LogUtil.ResolveLevelNameCases`, not its own `ensures`.
- `Text.Upper`: maps ASCII letters, dotless i and long s only. Python's full Unicode upper-casing is left out. It can only matter for characters whose upper case holds several letters, and no level or alias name contains those letters.
- `Text.Lower`: maps ASCII letters only. This is exact for comparing with `stderr` and `sys.stderr`, since no other character lowers to their letters.
- `Text.ParseInt`: Unicode digits are not accepted. Python's `int()` accepts them.
- `Text.ParseInt`: the model has no limit on the number of digits. Python's `int()` raises `ValueError` for a literal of more than 4300 digits (the default of `sys.set_int_max_str_digits`). So a `C` header whose size has more digits is a bad record in gateway.py, raised before the header ack. The model accepts it and goes on to the payload.
- `GatewayReceive.Commit`: `size_bytes` is an unbounded integer. The column is `BIGINT` (server/app/db.py:44), so `insert_file` raises for a size outside -2^63 .. 2^63-1. That happens after the file has been renamed into `data_dir/token` and acked, so gateway.py then exits 1 and leaves a file with no row, which the reaper never removes. The model inserts the row and returns the receipt instead.
- `Store.MetadataStore.InsertFile`: the column types of server/app/db.py:40-48 are not modelled. A `size_bytes` outside `BIGINT` is stored, where the database raises; so is a text the database refuses, such as one holding a NUL character.
- `Text.DecodeLossy`: decodes byte by byte. A valid multi-byte UTF-8 sequence becomes one U+FFFD per byte instead of its character, so a non-ASCII filename in a `C` header is recorded in that form. Where a header holds non-ASCII whitespace, this also changes how it is split. Python strips and splits on a decoded U+3000 or U+00A0, and the model does not, since their bytes become U+FFFD. So `C0644 5 \xe3\x80\x80\n` is a bad record in Python but is accepted by the model, with a name of three U+FFFD. And `C0644 5\xc2\xa0 a\n` is accepted by Python with size 5 but refused by the model. ASCII headers, and every header the sender writes, are split the same way by both.
- Times are integer seconds. `expires_at` is kept as a number, not as an ISO string, in receipts and on stderr.
- `shlex.split`, SHA-512 and `secrets.token_urlsafe` are foreign calls. The split is a parameter of `GatewayParse.ScpFlags` and `GatewayMain.Run`. The `n`-th token drawn, the `n`-th clock reading and the digest are functions in `GatewayReceive.Env`.
- Exception texts are kept as `Failure` values, not as the strings printed after `ERROR: upload failed:`.
- `cfg()`, `CleanupConfig.from_env`, `_parse_original_command` and `db._dsn` read the process environment. Their results are parameters.
- `db.conn`, `init_db` and the SQL layer are left out: the table is a map.
- `Store.MetadataStore.DeleteExpired`: returns the rows in the order it visits the map. The order the database returns them in is not modelled.
- `server/app/cleanup.py` only wires the pieces together and is not part of this model.
- `CleanupWorker.RunCleanupLoop`: runs one iteration per clock reading it is given. The unbounded `while True` is not modelled.
- The sleep is recorded as the interval in each `CleanupWorker.Round`; no time passes.
- Concurrency is left out: the reaper racing a download, and the non-atomic `SELECT` then `DELETE` in `delete_expired`.
- Filesystem failures other than an unlink the host refuses are not modelled: a full disk, a rename that fails, a sink file that fails mid-write.
- A sink file that cannot be opened is given as a set of paths.
- `GatewayMain.Run`: the information line `main` logs before dispatching is not modelled, like the other logging calls.

## Findings

| source | as written | input that shows it | evidently intended | confidence | as-written member | corrected member |
|---|---|---|---|---|---|---|
| server/app/gateway.py:124 | `int(parts[1])` accepts a signed size, so a `C` header with a negative size is accepted. The payload loop then reads nothing, and the receipt and the row record a negative `size_bytes` | `C0644 -1 a.txt\n` followed by `\0` | a size is a byte count: a header with a negative size is a bad record. (The consequences as written hold for sizes within `BIGINT` and of at most 4300 digits; see "## Left out".) | not executed | GatewayReceive.NegativeSizeLands | GatewayReceive.NegativeSizeRefused |
