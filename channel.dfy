/** The byte-channel primitives of gateway.py (`_read_exact`, `_read_line`,
    `_send_ok`, `_expect_client_ok`) over the session's stdin and stdout. */
module Channel {
  import opened Common

  /** Where `readline()` started at `i` stops: just past the first newline,
      or at the end of the stream when no newline follows. */
  function LineEnd(s: seq<byte>, i: nat): (j: nat)
    requires i < |s|
    ensures i < j <= |s|
    ensures forall k :: i <= k < j - 1 ==> s[k] != NEWLINE
    ensures j < |s| ==> s[j - 1] == NEWLINE
    decreases |s| - i
  {
    if s[i] == NEWLINE || i + 1 == |s| then i + 1 else LineEnd(s, i + 1)
  }

  /** What `_expect_client_ok` concludes from the byte at `p`. */
  function AckAt(input: seq<byte>, p: nat): (r: Outcome)
    requires p <= |input|
    ensures r == Pass <==> p < |input| && input[p] == ACK_OK
    ensures r == Fail(Eof) <==> p == |input|
  {
    if p == |input| then Fail(Eof)
    else if input[p] != ACK_OK then Fail(ClientNotOk(input[p]))
    else Pass
  }

  /** The session's stdin, read through a cursor, and its stdout. */
  class Channel {
    /** Everything the peer sends on stdin. */
    var input: seq<byte>
    /** How much of `input` has been consumed. */
    var pos: nat
    /** Everything written to stdout. */
    var output: seq<byte>

    ghost predicate Valid()
      reads this
    {
      pos <= |input|
    }

    constructor (input: seq<byte>)
      ensures Valid() && this.input == input && pos == 0 && output == []
    {
      this.input := input;
      pos := 0;
      output := [];
    }

    /** `sys.stdin.buffer.read(k)`: the next bytes of the stream, at most `k` of them,
        possibly fewer (a pipe delivers what has arrived); empty only when asked for
        nothing or at end of stream. */
    method Read(k: nat) returns (chunk: seq<byte>)
      requires Valid()
      modifies this`pos
      ensures Valid()
      ensures |chunk| <= k && pos == old(pos) + |chunk| && chunk == input[old(pos)..pos]
      ensures chunk == [] <==> (k == 0 || old(pos) == |input|)
    {
      var n := Min(k, |input| - pos);
      chunk := input[pos..pos + n];
      pos := pos + n;
    }

    /** `_read_exact(n)`: exactly the next `n` bytes, or EOF; never a short read. */
    method ReadExact(n: nat) returns (r: Result<seq<byte>>)
      requires Valid()
      modifies this`pos
      ensures Valid()
      ensures old(pos) + n <= |input| ==> r == Ok(input[old(pos)..old(pos) + n]) && pos == old(pos) + n
      ensures old(pos) + n > |input| ==> r == Err(Eof) && pos == |input|
    {
      var buf: seq<byte> := [];
      while |buf| < n
        invariant Valid() && old(pos) <= pos && buf == input[old(pos)..pos] && |buf| <= n
        decreases n - |buf|
      {
        var chunk := Read(n - |buf|);
        if chunk == [] {
          return Err(Eof);
        }
        buf := buf + chunk;
      }
      return Ok(buf);
    }

    /** `_read_line()`: the next line with its newline, or the rest of the stream when
        no newline follows; EOF only when nothing is left. */
    method ReadLine() returns (r: Result<seq<byte>>)
      requires Valid()
      modifies this`pos
      ensures Valid()
      ensures old(pos) == |input| ==> r == Err(Eof) && pos == old(pos)
      ensures old(pos) < |input| ==>
                pos == LineEnd(input, old(pos)) && r == Ok(input[old(pos)..pos])
    {
      if pos == |input| {
        return Err(Eof);
      }
      var e := LineEnd(input, pos);
      r := Ok(input[pos..e]);
      pos := e;
    }

    /** `sys.stdout.buffer.write(data)`. */
    method Write(data: seq<byte>)
      modifies this`output
      ensures output == old(output) + data
    {
      output := output + data;
    }

    /** `_send_ok()`: one ack byte on stdout. */
    method SendOk()
      modifies this`output
      ensures output == old(output) + [ACK_OK]
    {
      output := output + [ACK_OK];
    }

    /** `_expect_client_ok()`: reads one byte and fails unless it is the ack byte. */
    method ExpectClientOk() returns (r: Outcome)
      requires Valid()
      modifies this`pos
      ensures Valid()
      ensures r == AckAt(input, old(pos))
      ensures pos == if old(pos) < |input| then old(pos) + 1 else old(pos)
    {
      var b := ReadExact(1);
      if b.Err? {
        return Fail(Eof);
      }
      if b.value != [ACK_OK] {
        return Fail(ClientNotOk(b.value[0]));
      }
      return Pass;
    }
  }
}
