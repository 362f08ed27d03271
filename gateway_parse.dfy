/** The pure parts of gateway.py: the short-flag extractor `_scp_flags`, the
    C-record parse (inline in `scp_receive_one`), the blank-line test and the
    download header the sender writes. */
module GatewayParse {
  import opened Common
  import opened Text

  // ---------------------------------------------------------------- flags

  /** A token that contributes flags: it starts with exactly one `-` and has at
      least one character after it (so neither `--long` nor a lone `-`). */
  predicate IsShortOptionGroup(p: string)
  {
    |p| > 1 && p[0] == '-' && p[1] != '-'
  }

  /** Every flag character of the already split command, by recursion on the tokens. */
  function FlagsOf(parts: seq<string>): (flags: set<char>)
    ensures forall c :: c in flags <==>
      exists j, k :: 0 <= j < |parts| && IsShortOptionGroup(parts[j]) && 1 <= k < |parts[j]| && parts[j][k] == c
  {
    if parts == [] then {}
    else
      var p := parts[|parts| - 1];
      var rest := FlagsOf(parts[..|parts| - 1]);
      var own := if IsShortOptionGroup(p) then set k | 1 <= k < |p| :: p[k] else {};
      assert forall j :: 0 <= j < |parts| - 1 ==> parts[..|parts| - 1][j] == parts[j];
      rest + own
  }

  /** `_scp_flags(cmd)`, given what `shlex.split(cmd)` produced (`None` where it
      raised `ValueError`): the set of single-letter options. */
  method ScpFlags(split: Option<seq<string>>) returns (flags: set<char>)
    ensures split.None? ==> flags == {}
    ensures split.Some? ==> forall c :: c in flags <==>
      exists j, k :: 0 <= j < |split.value| && IsShortOptionGroup(split.value[j]) &&
                     1 <= k < |split.value[j]| && split.value[j][k] == c
  {
    flags := {};
    if split.None? {
      return;
    }
    var parts := split.value;
    var i := 0;
    while i < |parts|
      invariant 0 <= i <= |parts|
      invariant flags == FlagsOf(parts[..i])
    {
      var p := parts[i];
      assert parts[..i + 1][..i] == parts[..i];
      if IsShortOptionGroup(p) {
        var j := 1;
        while j < |p|
          invariant 1 <= j <= |p|
          invariant flags == FlagsOf(parts[..i]) + set k | 1 <= k < j :: p[k]
        {
          flags := flags + {p[j]};
          j := j + 1;
        }
      }
      i := i + 1;
    }
    assert parts[..|parts|] == parts;
  }

  // ------------------------------------------------------------ C record

  /** A `C<mode> <size> <filename>` header, with the size exactly as `int()`
      read it, sign included. */
  datatype CRecord = CRecord(mode: string, size: int, filename: string)

  /** `parts[0][1:]`: Python slicing, empty on an empty string. */
  function DropFirst(s: string): string
  {
    if s == [] then [] else s[1..]
  }

  /** The fields of a C line: decoded, stripped, split on single spaces at most twice. */
  function CFields(line: seq<byte>): (parts: seq<string>)
    ensures 1 <= |parts| <= 3
    ensures Join(parts, ' ') == Strip(DecodeLossy(line))
    ensures forall i :: 0 <= i < |parts| - 1 ==> ' ' !in parts[i]
  {
    Split(Strip(DecodeLossy(line)), ' ', 2)
  }

  /** The C-record parse of gateway.py lines 121-127 as written: fewer than three
      fields, or a second field `int()` refuses, is a bad record. */
  function ParseCRecordAsWritten(line: seq<byte>): (r: Result<CRecord>)
    ensures r.Err? <==> |CFields(line)| < 3 || ParseInt(CFields(line)[1]).None?
    ensures r.Err? ==> r.error == BadCRecord(line)
    ensures r.Ok? ==> var parts := CFields(line);
      && r.value.mode == DropFirst(parts[0])
      && Some(r.value.size) == ParseInt(parts[1])
      && r.value.filename == parts[2]
      && Strip(DecodeLossy(line)) == parts[0] + " " + parts[1] + " " + r.value.filename
  {
    var parts := CFields(line);
    if |parts| < 3 then Err(BadCRecord(line))
    else
      var n := ParseInt(parts[1]);
      if n.None? then Err(BadCRecord(line))
      else
        JoinThree(parts, ' ');
        Ok(CRecord(DropFirst(parts[0]), n.value, parts[2]))
  }

  /** The corrected C-record parse: as written, and a negative size is a bad
      record too. */
  function ParseCRecord(line: seq<byte>): (r: Result<CRecord>)
    ensures r.Err? ==> r.error == BadCRecord(line)
    ensures r.Ok? <==> ParseCRecordAsWritten(line).Ok? && ParseCRecordAsWritten(line).value.size >= 0
    ensures r.Ok? ==> r == ParseCRecordAsWritten(line) && r.value.size >= 0
  {
    match ParseCRecordAsWritten(line)
    case Err(e) => Err(e)
    case Ok(w) => if w.size < 0 then Err(BadCRecord(line)) else Ok(w)
  }

  /** A line with no space in it is a single field. */
  lemma OneFieldLine(x: string)
    requires IsAscii(x) && x != [] && ' ' !in x && !IsSpace(x[0]) && !IsSpace(x[|x| - 1])
    ensures CFields(EncodeUtf8(x + "\n")) == [x]
  {
    AsciiConcat(x, "\n");
    DecodeEncodeAscii(x + "\n");
    StripLine(x);
    assert IndexOf(x, ' ') == None;
  }

  /** `C0644` alone has one field: a bad record, refused before any ack. */
  lemma ShortCRecordRefused()
    ensures ParseCRecord(EncodeUtf8("C0644\n")) == Err(BadCRecord(EncodeUtf8("C0644\n")))
  {
    assert "C0644" + "\n" == "C0644\n";
    OneFieldLine("C0644");
  }

  /** The pieces a C record line is written from. */
  predicate RecordPieces(mode: string, size: int, name: string, f: string, head: string, tail: string, x: string)
  {
    IsAscii(mode) && IsAscii(name) && ' ' !in mode && name != [] && !IsSpace(name[|name| - 1])
    && f == FormatInt(size) && head == "C" + mode && tail == f + " " + name && x == head + " " + tail
  }

  lemma RecordLineAscii(mode: string, size: int, name: string, f: string, head: string, tail: string, x: string)
    requires RecordPieces(mode, size, name, f, head, tail, x)
    ensures IsAscii(x + "\n")
  {
    FormatIntShape(size);
    AsciiConcat("C", mode);
    AsciiConcat(f, " ");
    AsciiConcat(f + " ", name);
    AsciiConcat(head, " ");
    AsciiConcat(head + " ", tail);
    AsciiConcat(x, "\n");
  }

  lemma RecordLineStrips(mode: string, size: int, name: string, f: string, head: string, tail: string, x: string)
    requires RecordPieces(mode, size, name, f, head, tail, x)
    ensures Strip(DecodeLossy(EncodeUtf8(x + "\n"))) == x
  {
    RecordLineAscii(mode, size, name, f, head, tail, x);
    DecodeEncodeAscii(x + "\n");
    assert x[0] == 'C' && x[|x| - 1] == name[|name| - 1];
    StripLine(x);
  }

  lemma RecordLineSplits(mode: string, size: int, name: string, f: string, head: string, tail: string, x: string)
    requires RecordPieces(mode, size, name, f, head, tail, x)
    ensures Split(x, ' ', 2) == [head, f, name]
  {
    FormatIntShape(size);
    assert ' ' !in head;
    assert x == head + [' '] + tail;
    SplitAfter(head, ' ', tail, 2);
    assert tail == f + [' '] + name;
    SplitAfter(f, ' ', name, 1);
  }

  lemma RecordLineFields(mode: string, size: int, name: string, f: string, head: string, tail: string, x: string)
    requires RecordPieces(mode, size, name, f, head, tail, x)
    ensures CFields(EncodeUtf8(x + "\n")) == [head, f, name]
  {
    RecordLineStrips(mode, size, name, f, head, tail, x);
    RecordLineSplits(mode, size, name, f, head, tail, x);
  }

  /** The text of a C record line, without its newline. */
  function CText(mode: string, size: int, name: string): string
  {
    "C" + mode + " " + FormatInt(size) + " " + name
  }

  /** A C record line as it travels: `C<mode> <size> <name>\n`, UTF-8 encoded. */
  function CLine(mode: string, size: int, name: string): seq<byte>
  {
    EncodeUtf8(CText(mode, size, name) + "\n")
  }

  /** Writing a header out and parsing it again gives back its fields: the mode
      (without spaces), the size, and a filename that may hold spaces but does not
      end in whitespace. */
  lemma CRecordRoundTrip(mode: string, size: int, name: string)
    requires IsAscii(mode) && IsAscii(name) && ' ' !in mode
    requires name != [] && !IsSpace(name[|name| - 1])
    ensures ParseCRecordAsWritten(CLine(mode, size, name)) == Ok(CRecord(mode, size, name))
  {
    var f := FormatInt(size);
    var head := "C" + mode;
    var tail := f + " " + name;
    var x := head + " " + tail;
    assert x == CText(mode, size, name);
    RecordLineFields(mode, size, name, f, head, tail, x);
    ParseFormatInt(size);
    assert DropFirst(head) == mode;
    ParsesFromFields(EncodeUtf8(x + "\n"), head, f, name, CRecord(mode, size, name));
  }

  lemma ParsesFromFields(line: seq<byte>, head: string, f: string, name: string, c: CRecord)
    requires CFields(line) == [head, f, name]
    requires ParseInt(f) == Some(c.size) && DropFirst(head) == c.mode && name == c.filename
    ensures ParseCRecordAsWritten(line) == Ok(c)
  {
  }

  /** The corrected parse takes back every line written with a size `>= 0`. */
  lemma CLineParses(mode: string, size: nat, name: string)
    requires IsAscii(mode) && IsAscii(name) && ' ' !in mode
    requires name != [] && !IsSpace(name[|name| - 1])
    ensures ParseCRecord(CLine(mode, size, name)) == Ok(CRecord(mode, size, name))
  {
    CRecordRoundTrip(mode, size, name);
  }

  /** A C line without newlines in its mode and name is one line to `readline()`,
      marked `C`. */
  lemma CLineShape(mode: string, size: int, name: string)
    requires IsAscii(mode) && IsAscii(name) && ' ' !in mode
    requires name != [] && !IsSpace(name[|name| - 1])
    requires '\n' !in mode && '\n' !in name
    ensures var h := CLine(mode, size, name);
      && |h| > 1 && h[0] == MARK_C && h[|h| - 1] == NEWLINE
      && (forall k :: 0 <= k < |h| - 1 ==> h[k] != NEWLINE)
  {
    var f := FormatInt(size);
    var head := "C" + mode;
    var tail := f + " " + name;
    var x := head + " " + tail;
    assert x == CText(mode, size, name);
    RecordLineAscii(mode, size, name, f, head, tail, x);
    FormatIntShape(size);
    assert '\n' !in x;
    var h := CLine(mode, size, name);
    forall k | 0 <= k < |h| - 1
      ensures h[k] != NEWLINE
    {
      assert h[k] as int == (x + "\n")[k] as int == x[k] as int;
    }
    assert h[|h| - 1] as int == (x + "\n")[|x|] as int;
  }

  /** The download header the sender writes is a C record the receiver accepts,
      naming the token, the stored size and mode `0644`. */
  lemma HeaderParses(size: int, token: string)
    requires IsUrlSafe(token)
    ensures ParseCRecordAsWritten(Header(size, token)) == Ok(CRecord("0644", size, token))
    ensures size >= 0 ==> ParseCRecord(Header(size, token)) == Ok(CRecord("0644", size, token))
  {
    assert IsAscii(token);
    assert !IsSpace(token[|token| - 1]);
    CRecordRoundTrip("0644", size, token);
  }

  /** As written, a negative size is accepted: `C0644 -1 a.txt` parses with size -1;
      the corrected parse refuses it. */
  lemma NegativeSizeAccepted()
    ensures ParseCRecordAsWritten(CLine("0644", -1, "a.txt")) == Ok(CRecord("0644", -1, "a.txt"))
    ensures ParseCRecord(CLine("0644", -1, "a.txt")).Err?
    ensures CText("0644", -1, "a.txt") == "C0644 -1 a.txt"
  {
    assert FormatNat(1) == "1";
    assert FormatInt(-1) == "-1";
    assert CText("0644", -1, "a.txt") == "C" + "0644" + " " + "-1" + " " + "a.txt";
    assert "C" + "0644" + " " + "-1" + " " + "a.txt" == "C0644 -1 a.txt";
    CRecordRoundTrip("0644", -1, "a.txt");
  }

  // -------------------------------------------------------- record lines

  /** The record markers: `T` (times), `C` (file), `E` (end of directory). */
  const MARK_T: byte := 84
  const MARK_C: byte := 67
  const MARK_E: byte := 69

  /** `bytes.isspace()` for one byte: space, tab, newline, CR, VT, FF. */
  predicate IsByteSpace(b: byte)
  {
    b == 32 || 9 <= b <= 13
  }

  /** `line.strip() == b""`. */
  predicate IsBlankLine(line: seq<byte>)
  {
    forall i :: 0 <= i < |line| ==> IsByteSpace(line[i])
  }

  // -------------------------------------------------------------- header

  /** `f"C0644 {size_bytes} {token}\n".encode("utf-8")`. */
  function Header(size: int, token: string): seq<byte>
  {
    CLine("0644", size, token)
  }

  /** What `secrets.token_urlsafe` produces: non-empty, letters, digits, `-` and `_`. */
  predicate IsUrlSafeChar(c: char)
  {
    ('a' <= c <= 'z') || ('A' <= c <= 'Z') || ('0' <= c <= '9') || c == '-' || c == '_'
  }

  predicate IsUrlSafe(t: string)
  {
    |t| > 0 && forall i :: 0 <= i < |t| ==> IsUrlSafeChar(t[i])
  }
}
