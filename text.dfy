/** Python string built-ins the core relies on, written out on `seq<char>`:
    `str.isspace`/`str.strip`, `str.upper`/`str.lower` (for the characters
    that matter), `str.split(sep, maxsplit)`, `str.split()`, `int(str)`,
    `str(int)`, and the UTF-8 conversions used on the wire. */
module Text {
  import opened Common

  /** `str.isspace()` for one character: the Unicode whitespace set Python uses. */
  predicate IsSpace(c: char)
  {
    c == ' ' || ('\t' <= c <= '\r') || ('\U{1c}' <= c <= '\U{1f}') ||
    c == '\U{85}' || c == '\U{a0}' || c == '\U{1680}' || ('\U{2000}' <= c <= '\U{200a}') ||
    c == '\U{2028}' || c == '\U{2029}' || c == '\U{202f}' || c == '\U{205f}' || c == '\U{3000}'
  }

  predicate NoSpace(s: string)
  {
    forall i :: 0 <= i < |s| ==> !IsSpace(s[i])
  }

  predicate AllSpace(s: string)
  {
    forall i :: 0 <= i < |s| ==> IsSpace(s[i])
  }

  /** `s.lstrip()`: the longest suffix of `s` that does not start with whitespace. */
  function StripStart(s: string): (r: string)
    ensures |r| <= |s| && r == s[|s| - |r|..]
    ensures AllSpace(s[..|s| - |r|])
    ensures r == [] || !IsSpace(r[0])
  {
    if |s| > 0 && IsSpace(s[0]) then StripStart(s[1..]) else s
  }

  /** `s.rstrip()`: the longest prefix of `s` that does not end with whitespace. */
  function StripEnd(s: string): (r: string)
    ensures |r| <= |s| && r == s[..|r|]
    ensures AllSpace(s[|r|..])
    ensures r == [] || !IsSpace(r[|r| - 1])
  {
    if |s| > 0 && IsSpace(s[|s| - 1]) then StripEnd(s[..|s| - 1]) else s
  }

  lemma {:induction false} StripStartEmpty(s: string)
    ensures StripStart(s) == [] <==> AllSpace(s)
  {
    if |s| > 0 && IsSpace(s[0]) {
      StripStartEmpty(s[1..]);
      assert AllSpace(s[1..]) ==> AllSpace(s) by {
        if AllSpace(s[1..]) {
          forall i | 0 <= i < |s| ensures IsSpace(s[i]) {
            if i > 0 { assert s[i] == s[1..][i - 1]; }
          }
        }
      }
    }
  }

  /** `s.strip()`. */
  function Strip(s: string): (r: string)
    ensures r == [] <==> AllSpace(s)
    ensures r != [] ==> !IsSpace(r[0]) && !IsSpace(r[|r| - 1])
    ensures (s == [] || (!IsSpace(s[0]) && !IsSpace(s[|s| - 1]))) ==> r == s
  {
    var t := StripStart(s);
    StripStartEmpty(s);
    var r := StripEnd(t);
    if t != [] then
      assert r != [];
      assert r[0] == t[0];
      r
    else r
  }

  /** `s.strip()` is the slice of `s` left once whitespace is cut off both ends:
      it begins after a run of whitespace and is followed by one. */
  lemma StripIsSlice(s: string)
    ensures var r := Strip(s);
      var i := |s| - |StripStart(s)|;
      && i + |r| <= |s| && r == s[i..i + |r|]
      && AllSpace(s[..i]) && AllSpace(s[i + |r|..])
  {
    var t := StripStart(s);
    var i := |s| - |t|;
    var r := StripEnd(t);
    assert Strip(s) == r;
    SliceOfSuffix(s, i, t, r);
    assert r == s[i..i + |r|];
  }

  /** A prefix `r` of the suffix `t == s[i..]`, with only whitespace after it in
      `t`, is a slice of `s` followed by whitespace. */
  lemma SliceOfSuffix(s: string, i: nat, t: string, r: string)
    requires i <= |s| && t == s[i..] && |r| <= |t| && r == t[..|r|] && AllSpace(t[|r|..])
    ensures i + |r| <= |s| && r == s[i..i + |r|] && AllSpace(s[i + |r|..])
  {
    assert t[|r|..] == s[i + |r|..];
  }

  lemma StripOfNoSpace(s: string)
    requires NoSpace(s)
    ensures Strip(s) == s
  {
  }

  /** `str.upper()` for one character. ASCII letters are mapped, and so are the two
      non-ASCII letters whose upper case is an ASCII letter (dotless i and long s). */
  function UpperChar(c: char): char
  {
    if 'a' <= c <= 'z' then (c as int - 32) as char
    else if c == '\U{131}' then 'I'
    else if c == '\U{17f}' then 'S'
    else c
  }

  function Upper(s: string): (r: string)
    ensures |r| == |s|
    ensures forall i :: 0 <= i < |s| ==> r[i] == UpperChar(s[i])
  {
    if s == [] then [] else [UpperChar(s[0])] + Upper(s[1..])
  }

  /** `str.lower()` for one character, on ASCII letters. */
  function LowerChar(c: char): char
  {
    if 'A' <= c <= 'Z' then (c as int + 32) as char else c
  }

  function Lower(s: string): (r: string)
    ensures |r| == |s|
    ensures forall i :: 0 <= i < |s| ==> r[i] == LowerChar(s[i])
  {
    if s == [] then [] else [LowerChar(s[0])] + Lower(s[1..])
  }

  /** Index of the first `c` in `s`, `str.find`. */
  function IndexOf(s: string, c: char): (r: Option<nat>)
    ensures r.Some? ==> r.value < |s| && s[r.value] == c && c !in s[..r.value]
    ensures r.None? ==> c !in s
  {
    if s == [] then None
    else if s[0] == c then Some(0)
    else match IndexOf(s[1..], c)
      case None => None
      case Some(k) => Some(k + 1)
  }

  /** `sep.join(parts)`. */
  function Join(parts: seq<string>, sep: char): string
  {
    if parts == [] then ""
    else if |parts| == 1 then parts[0]
    else parts[0] + [sep] + Join(parts[1..], sep)
  }

  lemma JoinThree(parts: seq<string>, sep: char)
    requires |parts| == 3
    ensures Join(parts, sep) == parts[0] + [sep] + parts[1] + [sep] + parts[2]
  {
    var tail := parts[1..];
    assert |tail| == 2 && tail[0] == parts[1] && tail[1..] == [parts[2]];
    assert Join(tail[1..], sep) == parts[2];
    assert Join(tail, sep) == parts[1] + [sep] + parts[2];
  }

  /** `s.split(sep, maxsplit)` for a one-character separator: at most `maxsplit`
      cuts, each at the left-most remaining separator. */
  function Split(s: string, sep: char, maxsplit: nat): (parts: seq<string>)
    ensures 1 <= |parts| <= maxsplit + 1
    ensures Join(parts, sep) == s
    ensures forall i :: 0 <= i < |parts| - 1 ==> sep !in parts[i]
    ensures |parts| <= maxsplit ==> sep !in parts[|parts| - 1]
  {
    if maxsplit == 0 then [s]
    else match IndexOf(s, sep)
      case None => [s]
      case Some(k) =>
        var rest := Split(s[k + 1..], sep, maxsplit - 1);
        assert s == s[..k] + [sep] + s[k + 1..];
        [s[..k]] + rest
  }

  lemma {:induction false} IndexOfAfter(a: string, c: char, b: string)
    requires c !in a
    ensures IndexOf(a + [c] + b, c) == Some(|a|)
  {
    if a != [] {
      assert (a + [c] + b)[1..] == a[1..] + [c] + b;
      IndexOfAfter(a[1..], c, b);
    }
  }

  /** Splitting `a sep b` where `a` holds no separator cuts right after `a`. */
  lemma SplitAfter(a: string, sep: char, b: string, maxsplit: nat)
    requires sep !in a && maxsplit > 0
    ensures Split(a + [sep] + b, sep, maxsplit) == [a] + Split(b, sep, maxsplit - 1)
  {
    var s := a + [sep] + b;
    IndexOfAfter(a, sep, b);
    assert s[..|a|] == a;
    assert s[|a| + 1..] == b;
  }

  /** Stripping a line whose text has no whitespace at either end drops only its newline. */
  lemma StripLine(x: string)
    requires x != [] && !IsSpace(x[0]) && !IsSpace(x[|x| - 1])
    ensures Strip(x + "\n") == x
  {
    var s := x + "\n";
    assert StripStart(s) == s;
    assert s[..|s| - 1] == x;
    assert StripEnd(s) == StripEnd(x);
  }

  /** Index of the first whitespace at or after `i`, or `|s|`. */
  function WordEnd(s: string, i: nat): (j: nat)
    requires i <= |s|
    ensures i <= j <= |s|
    ensures NoSpace(s[i..j])
    ensures j < |s| ==> IsSpace(s[j])
    decreases |s| - i
  {
    if i == |s| || IsSpace(s[i]) then i else WordEnd(s, i + 1)
  }

  /** Index of the first non-whitespace at or after `i`, or `|s|`. */
  function SkipSpace(s: string, i: nat): (j: nat)
    requires i <= |s|
    ensures i <= j <= |s|
    ensures forall k :: i <= k < j ==> IsSpace(s[k])
    ensures j < |s| ==> !IsSpace(s[j])
    decreases |s| - i
  {
    if i < |s| && IsSpace(s[i]) then SkipSpace(s, i + 1) else i
  }

  /** The whitespace-separated words of `s[i..]`, in order. */
  function FieldsFrom(s: string, i: nat): (r: seq<string>)
    requires i <= |s|
    ensures forall n :: 0 <= n < |r| ==> r[n] != [] && NoSpace(r[n])
    ensures (forall k :: i <= k < |s| ==> IsSpace(s[k])) <==> r == []
    decreases |s| - i
  {
    var j := SkipSpace(s, i);
    if j == |s| then []
    else
      var k := WordEnd(s, j);
      var rest := FieldsFrom(s, k);
      var r := [s[j..k]] + rest;
      assert forall n :: 0 < n < |r| ==> r[n] == rest[n - 1];
      r
  }

  /** `s.split()`: the maximal runs of non-whitespace, in order. */
  function Fields(s: string): (r: seq<string>)
    ensures forall n :: 0 <= n < |r| ==> r[n] != [] && NoSpace(r[n])
    ensures AllSpace(s) <==> r == []
  {
    FieldsFrom(s, 0)
  }

  /** The whitespace runs of `s[i..]` around its words: before the first, between
      two, and after the last. */
  function GapsFrom(s: string, i: nat): seq<string>
    requires i <= |s|
    decreases |s| - i
  {
    var j := SkipSpace(s, i);
    if j == |s| then [s[i..]] else [s[i..j]] + GapsFrom(s, WordEnd(s, j))
  }

  /** `g[0] + w[0] + g[1] + ... + w[n-1] + g[n]`. */
  function Interleave(g: seq<string>, w: seq<string>): string
    requires |g| == |w| + 1
    decreases |w|
  {
    if w == [] then g[0] else g[0] + w[0] + Interleave(g[1..], w[1..])
  }

  /** `s[i..]` is its words with whitespace runs between them: non-empty ones
      between two words, possibly empty ones at the ends. As the words are
      non-empty and hold no whitespace, each is a maximal run of non-whitespace
      and they come in the order they stand in `s`. */
  lemma {:induction false} FieldsFromSplits(s: string, i: nat)
    requires i <= |s|
    ensures var g := GapsFrom(s, i);
      var w := FieldsFrom(s, i);
      && |g| == |w| + 1
      && g[0] == s[i..SkipSpace(s, i)]
      && (forall n :: 0 <= n < |g| ==> AllSpace(g[n]))
      && (forall n :: 0 < n < |g| - 1 ==> g[n] != [])
      && Interleave(g, w) == s[i..]
    decreases |s| - i
  {
    var j := SkipSpace(s, i);
    if j < |s| {
      var k := WordEnd(s, j);
      FieldsFromSplits(s, k);
      WordThenGaps(s, i, j, k, GapsFrom(s, k), FieldsFrom(s, k));
    }
  }

  /** The step of `FieldsFromSplits`: the run before the word `s[j..k]`, the word,
      then what follows it. */
  lemma WordThenGaps(s: string, i: nat, j: nat, k: nat, g': seq<string>, w': seq<string>)
    requires i <= j < |s| && j == SkipSpace(s, i) && k == WordEnd(s, j)
    requires g' == GapsFrom(s, k) && w' == FieldsFrom(s, k)
    requires |g'| == |w'| + 1 && g'[0] == s[k..SkipSpace(s, k)]
    requires forall n :: 0 <= n < |g'| ==> AllSpace(g'[n])
    requires forall n :: 0 < n < |g'| - 1 ==> g'[n] != []
    requires Interleave(g', w') == s[k..]
    ensures var g := GapsFrom(s, i);
      var w := FieldsFrom(s, i);
      && |g| == |w| + 1
      && g[0] == s[i..SkipSpace(s, i)]
      && (forall n :: 0 <= n < |g| ==> AllSpace(g[n]))
      && (forall n :: 0 < n < |g| - 1 ==> g[n] != [])
      && Interleave(g, w) == s[i..]
  {
    var g := [s[i..j]] + g';
    var w := [s[j..k]] + w';
    assert GapsFrom(s, i) == g;
    assert FieldsFrom(s, i) == w;
    if w' != [] {
      assert g'[0] != [] by {
        assert SkipSpace(s, k) < |s|;
        assert IsSpace(s[k]);
      }
    }
    GapsCons(s[i..j], g');
    InterleaveCons(s[i..j], s[j..k], g', w');
    SliceThree(s, i, j, k);
  }

  /** A run before the first of the others: all whitespace, and the inner ones non-empty. */
  lemma GapsCons(x: string, g': seq<string>)
    requires |g'| > 0 && AllSpace(x)
    requires forall n :: 0 <= n < |g'| ==> AllSpace(g'[n])
    requires |g'| > 1 ==> g'[0] != []
    requires forall n :: 0 < n < |g'| - 1 ==> g'[n] != []
    ensures forall n :: 0 <= n < |[x] + g'| ==> AllSpace(([x] + g')[n])
    ensures forall n :: 0 < n < |[x] + g'| - 1 ==> ([x] + g')[n] != []
  {
    var g := [x] + g';
    assert forall n :: 0 < n < |g| ==> g[n] == g'[n - 1];
  }

  /** Interleaving after a first run and a first word. */
  lemma InterleaveCons(x: string, y: string, g': seq<string>, w': seq<string>)
    requires |g'| == |w'| + 1
    ensures Interleave([x] + g', [y] + w') == x + (y + Interleave(g', w'))
  {
    assert ([x] + g')[1..] == g' && ([y] + w')[1..] == w';
  }

  /** Three adjacent slices make up the suffix they cover. */
  lemma SliceThree(s: string, i: nat, j: nat, k: nat)
    requires i <= j <= k <= |s|
    ensures s[i..j] + (s[j..k] + s[k..]) == s[i..]
  {
    assert s[j..k] + s[k..] == s[j..];
  }

  /** `s.split()` as the words between the whitespace runs of `s`. */
  lemma FieldsSplit(s: string)
    ensures var g := GapsFrom(s, 0);
      var w := Fields(s);
      && |g| == |w| + 1
      && (forall n :: 0 <= n < |g| ==> AllSpace(g[n]))
      && (forall n :: 0 < n < |g| - 1 ==> g[n] != [])
      && Interleave(g, w) == s
  {
    FieldsFromSplits(s, 0);
    assert s[0..] == s;
  }

  predicate IsDigit(c: char)
  {
    '0' <= c <= '9'
  }

  function DigitValue(c: char): nat
    requires IsDigit(c)
  {
    c as int - '0' as int
  }

  function DigitChar(d: nat): (c: char)
    requires d < 10
    ensures IsDigit(c) && DigitValue(c) == d
  {
    (d + '0' as int) as char
  }

  /** The body of a Python integer literal: ASCII digits, with single
      underscores allowed between two digits (`1_000`). */
  predicate IsDecimalLiteral(s: string)
  {
    |s| > 0 && IsDigit(s[0]) && IsDigit(s[|s| - 1]) &&
    forall i :: 0 <= i < |s| ==>
      IsDigit(s[i]) || (s[i] == '_' && 0 < i < |s| - 1 && IsDigit(s[i - 1]) && IsDigit(s[i + 1]))
  }

  /** The value of the digits of a literal, underscores ignored. */
  function LiteralValue(s: string): nat
  {
    if s == [] then 0
    else if IsDigit(s[|s| - 1]) then 10 * LiteralValue(s[..|s| - 1]) + DigitValue(s[|s| - 1])
    else LiteralValue(s[..|s| - 1])
  }

  /** `int(s)`: surrounding whitespace, an optional sign, then a decimal literal;
      `None` where Python raises `ValueError`. */
  function ParseInt(s: string): Option<int>
  {
    var t := Strip(s);
    if |t| > 0 && (t[0] == '-' || t[0] == '+') then
      if IsDecimalLiteral(t[1..]) then
        var v: int := LiteralValue(t[1..]);
        Some(if t[0] == '-' then -v else v)
      else None
    else if IsDecimalLiteral(t) then Some(LiteralValue(t))
    else None
  }

  /** `str(n)` for `n >= 0`. */
  function FormatNat(n: nat): (s: string)
    ensures |s| > 0 && forall i :: 0 <= i < |s| ==> IsDigit(s[i])
  {
    if n < 10 then [DigitChar(n)] else FormatNat(n / 10) + [DigitChar(n % 10)]
  }

  /** `str(n)`. */
  function FormatInt(n: int): string
  {
    if n < 0 then "-" + FormatNat(-n) else FormatNat(n)
  }

  lemma {:induction false} LiteralValueOfFormat(n: nat)
    ensures LiteralValue(FormatNat(n)) == n
  {
    if n >= 10 {
      var s := FormatNat(n);
      assert s[..|s| - 1] == FormatNat(n / 10);
      LiteralValueOfFormat(n / 10);
    }
  }

  /** `str(n)` is ASCII, holds no space and has no whitespace at either end. */
  lemma FormatIntShape(n: int)
    ensures IsAscii(FormatInt(n)) && ' ' !in FormatInt(n) && '\n' !in FormatInt(n) && FormatInt(n) != []
    ensures !IsSpace(FormatInt(n)[0]) && !IsSpace(FormatInt(n)[|FormatInt(n)| - 1])
  {
    var m: nat := if n < 0 then -n else n;
    var d := FormatNat(m);
    var s := FormatInt(n);
    if n < 0 {
      assert s == "-" + d;
      assert forall i :: 1 <= i < |s| ==> s[i] == d[i - 1];
    }
  }

  lemma FormatNatIsLiteral(n: nat)
    ensures IsDecimalLiteral(FormatNat(n))
    ensures !IsSpace(FormatNat(n)[0]) && !IsSpace(FormatNat(n)[|FormatNat(n)| - 1])
  {
  }

  lemma ParseLiteral(d: string)
    requires IsDecimalLiteral(d)
    ensures ParseInt(d) == Some(LiteralValue(d))
  {
    assert !IsSpace(d[0]) && !IsSpace(d[|d| - 1]);
    assert Strip(d) == d;
  }

  lemma ParseNegativeLiteral(d: string)
    requires IsDecimalLiteral(d)
    ensures ParseInt("-" + d) == Some(-(LiteralValue(d) as int))
  {
    var s := "-" + d;
    assert s[0] == '-' && s[|s| - 1] == d[|d| - 1];
    assert !IsSpace(s[0]) && !IsSpace(s[|s| - 1]);
    var t := Strip(s);
    assert t == s;
    assert t[1..] == d;
    var v: int := LiteralValue(d);
    assert ParseInt(s) == Some(-v);
  }

  /** `int(str(n)) == n`: the decimal text the sender writes reads back as the same integer. */
  lemma ParseFormatInt(n: int)
    ensures ParseInt(FormatInt(n)) == Some(n)
  {
    var m: nat := if n < 0 then -n else n;
    LiteralValueOfFormat(m);
    FormatNatIsLiteral(m);
    if n < 0 {
      ParseNegativeLiteral(FormatNat(m));
    } else {
      ParseLiteral(FormatNat(m));
    }
  }

  predicate IsAsciiChar(c: char)
  {
    c as int < 128
  }

  predicate IsAscii(s: string)
  {
    forall i :: 0 <= i < |s| ==> IsAsciiChar(s[i])
  }

  lemma AsciiConcat(a: string, b: string)
    requires IsAscii(a) && IsAscii(b)
    ensures IsAscii(a + b)
  {
    assert forall i :: |a| <= i < |a + b| ==> (a + b)[i] == b[i - |a|];
  }

  /** UTF-8 encoding of one Unicode scalar value. */
  function EncodeChar(c: char): (b: seq<byte>)
    ensures 1 <= |b| <= 4
    ensures IsAsciiChar(c) ==> b == [c as int as byte]
  {
    var n := c as int;
    if n < 0x80 then [n as byte]
    else if n < 0x800 then [(0xC0 + n / 0x40) as byte, (0x80 + n % 0x40) as byte]
    else if n < 0x10000 then
      [(0xE0 + n / 0x1000) as byte, (0x80 + (n / 0x40) % 0x40) as byte, (0x80 + n % 0x40) as byte]
    else
      [(0xF0 + n / 0x40000) as byte, (0x80 + (n / 0x1000) % 0x40) as byte,
       (0x80 + (n / 0x40) % 0x40) as byte, (0x80 + n % 0x40) as byte]
  }

  /** `s.encode("utf-8")`. */
  function EncodeUtf8(s: string): (b: seq<byte>)
    ensures IsAscii(s) ==> |b| == |s| && forall i :: 0 <= i < |s| ==> b[i] as int == s[i] as int
  {
    if s == [] then [] else EncodeChar(s[0]) + EncodeUtf8(s[1..])
  }

  lemma {:induction false} EncodeUtf8Append(a: string, b: string)
    ensures EncodeUtf8(a + b) == EncodeUtf8(a) + EncodeUtf8(b)
  {
    if a == [] {
      assert a + b == b;
    } else {
      var head := EncodeChar(a[0]);
      assert (a + b)[0] == a[0] && (a + b)[1..] == a[1..] + b;
      EncodeUtf8Append(a[1..], b);
      assert head + EncodeUtf8(a[1..]) + EncodeUtf8(b) == head + (EncodeUtf8(a[1..]) + EncodeUtf8(b));
    }
  }

  /** `b.decode("utf-8", errors="replace")`, exact on ASCII bytes; every other
      byte is decoded to U+FFFD on its own. */
  function DecodeLossy(b: seq<byte>): (s: string)
    ensures |s| == |b|
    ensures forall i :: 0 <= i < |b| ==> (b[i] < 128 ==> s[i] as int == b[i] as int)
    ensures forall i :: 0 <= i < |b| ==> (b[i] >= 128 ==> s[i] == '\U{fffd}')
  {
    if b == [] then [] else [if b[0] < 128 then b[0] as int as char else '\U{fffd}'] + DecodeLossy(b[1..])
  }

  /** Decoding undoes encoding on ASCII text. */
  lemma DecodeEncodeAscii(s: string)
    requires IsAscii(s)
    ensures DecodeLossy(EncodeUtf8(s)) == s
  {
    var d := DecodeLossy(EncodeUtf8(s));
    assert |d| == |s|;
    forall i | 0 <= i < |s| ensures d[i] == s[i] {
      assert d[i] as int == s[i] as int;
    }
  }
}
