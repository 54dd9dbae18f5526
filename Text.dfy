/** String and line helpers with the .NET semantics the codecs rely on:
    `String.Split`, `String.StartsWith`, `int.Parse`, `int.ToString`,
    C# `int` wrap-around, and the line splitting of `File.ReadAllLines`
    against the line writing of `StreamWriter.WriteLine`. */
module Text {

  datatype Option<+T> = None | Some(value: T)

  datatype Result<+T, +E> = Ok(value: T) | Err(error: E) {
    predicate IsFailure() { Err? }
    function PropagateFailure<U>(): Result<U, E> requires Err? { Err(error) }
    function Extract(): T requires Ok? { value }
  }

  /** The values of a C# `int`. */
  type int32 = x: int | -0x8000_0000 <= x < 0x8000_0000

  const Int32Max: int := 0x7fff_ffff

  /** C# `int` addition wraps around: a result past either end of the `int` range is
      moved back into it by 2^32 at a time. */
  function Wrap32(x: int): (r: int32)
    decreases if x > Int32Max then x - Int32Max else if x < -0x8000_0000 then -0x8000_0000 - x else 0
  {
    if x > Int32Max then Wrap32(x - 0x1_0000_0000)
    else if x < -0x8000_0000 then Wrap32(x + 0x1_0000_0000)
    else x
  }

  /** The wrapped result is the one value of the `int` range that equals the
      mathematical result modulo 2^32; a result in range is kept. */
  lemma {:induction false} Wrap32Modulo(x: int)
    ensures (x - Wrap32(x)) % 0x1_0000_0000 == 0
    ensures -0x8000_0000 <= x <= Int32Max ==> Wrap32(x) == x
    decreases if x > Int32Max then x - Int32Max else if x < -0x8000_0000 then -0x8000_0000 - x else 0
  {
    if x > Int32Max {
      var y := x - 0x1_0000_0000;
      Wrap32Modulo(y);
      var a := y - Wrap32(y);
      assert x - Wrap32(x) == a + 0x1_0000_0000;
      assert (a + 0x1_0000_0000) % 0x1_0000_0000 == a % 0x1_0000_0000;
    } else if x < -0x8000_0000 {
      var y := x + 0x1_0000_0000;
      Wrap32Modulo(y);
      var a := y - Wrap32(y);
      assert x - Wrap32(x) == a - 0x1_0000_0000;
      assert (a - 0x1_0000_0000) % 0x1_0000_0000 == a % 0x1_0000_0000;
    }
  }

  /** `s.StartsWith(prefix)`, comparing character by character. The .NET overload
      the loaders call compares by the current culture, which also lets through a
      line whose key is preceded or split by a character the culture ignores (a soft
      hyphen, for one); this definition does not. */
  predicate StartsWith(s: string, prefix: string) {
    |prefix| <= |s| && s[..|prefix|] == prefix
  }

  // ---------------------------------------------------------------------------
  // String.Split and joining with a separator

  predicate Free(s: string, seps: set<char>) {
    forall i :: 0 <= i < |s| ==> s[i] !in seps
  }

  /** `s.Split(seps)`: every separator ends a token, so `n` separators give `n + 1`
      tokens, empty ones included. */
  function SplitAny(s: string, seps: set<char>): (r: seq<string>)
    ensures |r| >= 1
    decreases |s|
  {
    if |s| == 0 then [""]
    else
      var rest := SplitAny(s[1..], seps);
      if s[0] in seps then [""] + rest
      else [[s[0]] + rest[0]] + rest[1..]
  }

  /** `s.Split(c)`. */
  function Split(s: string, c: char): seq<string> {
    SplitAny(s, {c})
  }

  /** The tokens of `ts` that are not empty, in order (`StringSplitOptions.RemoveEmptyEntries`). */
  function RemoveEmpty(ts: seq<string>): (r: seq<string>)
    ensures |r| <= |ts|
    ensures forall i :: 0 <= i < |r| ==> r[i] != ""
  {
    if |ts| == 0 then []
    else if ts[0] == "" then RemoveEmpty(ts[1..])
    else [ts[0]] + RemoveEmpty(ts[1..])
  }

  /** `s.Split(new char[] { ' ', '\t' }, StringSplitOptions.RemoveEmptyEntries)`. */
  function Tokens(s: string): seq<string> {
    RemoveEmpty(SplitAny(s, {' ', '\t'}))
  }

  /** The tokens written one after another with `sep` between neighbours, as an
      interpolated string such as `$"{a} {b} {c}"` writes them. */
  function Join(ts: seq<string>, sep: char): string {
    if |ts| == 0 then ""
    else if |ts| == 1 then ts[0]
    else ts[0] + [sep] + Join(ts[1..], sep)
  }

  lemma {:induction false} FreeConcat(a: string, b: string, seps: set<char>)
    requires Free(a, seps) && Free(b, seps)
    ensures Free(a + b, seps)
  {
    forall i | 0 <= i < |a + b|
      ensures (a + b)[i] !in seps
    {
      if i < |a| {
        assert (a + b)[i] == a[i];
      } else {
        assert (a + b)[i] == b[i - |a|];
      }
    }
  }

  lemma {:induction false} SplitAnyFree(t: string, seps: set<char>)
    requires Free(t, seps)
    ensures SplitAny(t, seps) == [t]
    decreases |t|
  {
    if |t| > 0 {
      SplitAnyFree(t[1..], seps);
      assert [t[0]] + t[1..] == t;
    }
  }

  lemma {:induction false} SplitAnyAtSeparator(t: string, c: char, u: string, seps: set<char>)
    requires Free(t, seps) && c in seps
    ensures SplitAny(t + [c] + u, seps) == [t] + SplitAny(u, seps)
    decreases |t|
  {
    var s := t + [c] + u;
    if |t| == 0 {
      assert s[1..] == u;
    } else {
      assert s[0] == t[0];
      assert s[1..] == t[1..] + [c] + u;
      SplitAnyAtSeparator(t[1..], c, u, seps);
      assert [t[0]] + t[1..] == t;
    }
  }

  /** Splitting what was joined gives back the tokens, when no token holds a separator. */
  lemma {:induction false} SplitJoin(ts: seq<string>, sep: char, seps: set<char>)
    requires |ts| >= 1 && sep in seps
    requires forall i :: 0 <= i < |ts| ==> Free(ts[i], seps)
    ensures SplitAny(Join(ts, sep), seps) == ts
    decreases |ts|
  {
    if |ts| == 1 {
      SplitAnyFree(ts[0], seps);
    } else {
      SplitAnyAtSeparator(ts[0], sep, Join(ts[1..], sep), seps);
      SplitJoin(ts[1..], sep, seps);
      assert [ts[0]] + ts[1..] == ts;
    }
  }

  /** Joining what was split gives back the string: `Split` loses nothing. */
  lemma {:induction false} JoinSplit(s: string, c: char)
    ensures Join(Split(s, c), c) == s
    decreases |s|
  {
    if |s| > 0 {
      var rest := Split(s[1..], c);
      JoinSplit(s[1..], c);
      if s[0] == c {
        assert Split(s, c) == [""] + rest;
        assert ([""] + rest)[1..] == rest;
        assert s == [] + [c] + s[1..];
      } else {
        var r := Split(s, c);
        assert r == [[s[0]] + rest[0]] + rest[1..];
        if |rest| == 1 {
          assert s == [s[0]] + rest[0];
        } else {
          assert r[1..] == rest[1..];
          assert Join(rest, c) == rest[0] + [c] + Join(rest[1..], c);
          assert s == [s[0]] + s[1..];
        }
      }
    }
  }

  lemma {:induction false} RemoveEmptyOfNonEmpty(ts: seq<string>)
    requires forall i :: 0 <= i < |ts| ==> ts[i] != ""
    ensures RemoveEmpty(ts) == ts
  {
    if |ts| > 0 {
      RemoveEmptyOfNonEmpty(ts[1..]);
      assert [ts[0]] + ts[1..] == ts;
    }
  }

  /** The space/tab tokens of a line joined from non-empty, blank-free tokens are those tokens. */
  lemma {:induction false} TokensOfJoin(ts: seq<string>)
    requires |ts| >= 1
    requires forall i :: 0 <= i < |ts| ==> ts[i] != "" && Free(ts[i], {' ', '\t'})
    ensures Tokens(Join(ts, ' ')) == ts
  {
    SplitJoin(ts, ' ', {' ', '\t'});
    RemoveEmptyOfNonEmpty(ts);
  }

  // ---------------------------------------------------------------------------
  // int.ToString and int.Parse

  predicate IsDigit(c: char) { '0' <= c <= '9' }

  predicate AllDigits(s: string) { forall i :: 0 <= i < |s| ==> IsDigit(s[i]) }

  function DigitChar(d: nat): (c: char)
    requires d < 10
    ensures IsDigit(c)
  {
    (('0' as int) + d) as char
  }

  /** The value of a decimal digit string, most significant digit first. */
  function DigitsValue(ds: string): int
    decreases |ds|
  {
    if |ds| == 0 then 0
    else DigitsValue(ds[..|ds| - 1]) * 10 + ((ds[|ds| - 1] as int) - ('0' as int))
  }

  /** The shortest decimal digit string of `n`. */
  function NatToDigits(n: nat): (s: string)
    ensures |s| >= 1
    decreases n
  {
    if n < 10 then [DigitChar(n)] else NatToDigits(n / 10) + [DigitChar(n % 10)]
  }

  /** The text of a natural number is made of decimal digits. */
  lemma {:induction false} NatToDigitsDigits(n: nat)
    ensures AllDigits(NatToDigits(n))
    decreases n
  {
    if n >= 10 {
      NatToDigitsDigits(n / 10);
    }
  }

  /** `n.ToString()` for an integer: a minus sign for negatives, then the digits. */
  function IntToString(n: int): string {
    if n < 0 then "-" + NatToDigits(-n) else NatToDigits(n)
  }

  /** The text of an integer is one token: not empty, and free of blanks, tabs,
      slashes and line breaks. */
  lemma {:induction false} IntToStringToken(n: int)
    ensures |IntToString(n)| >= 1 && Free(IntToString(n), {' ', '\t', '/', '\n', '\r'})
  {
    NatToDigitsDigits(if n < 0 then -n else n);
  }

  lemma {:induction false} DigitsRoundTrip(n: nat)
    ensures DigitsValue(NatToDigits(n)) == n
    decreases n
  {
    if n >= 10 {
      var s := NatToDigits(n);
      DigitsRoundTrip(n / 10);
      assert s[..|s| - 1] == NatToDigits(n / 10);
    }
  }

  /** The white space `int.Parse` skips around the number. */
  predicate IsWhiteSpace(c: char) { c == ' ' || '\t' <= c <= '\r' }

  function TrimStart(s: string): (r: string)
    ensures r == "" || !IsWhiteSpace(r[0])
    decreases |s|
  {
    if |s| > 0 && IsWhiteSpace(s[0]) then TrimStart(s[1..]) else s
  }

  function TrimEnd(s: string): (r: string)
    ensures r == "" || !IsWhiteSpace(r[|r| - 1])
    decreases |s|
  {
    if |s| > 0 && IsWhiteSpace(s[|s| - 1]) then TrimEnd(s[..|s| - 1]) else s
  }

  /** `int.Parse(s)`: optional white space, an optional sign, at least one digit,
      optional white space, and a value in the `int` range; anything else throws. */
  function ParseInt32(s: string): (r: Option<int32>)
    ensures r.Some? ==> TrimEnd(TrimStart(s)) != ""
  {
    var t := TrimEnd(TrimStart(s));
    var negative := |t| > 0 && t[0] == '-';
    var ds := if |t| > 0 && (t[0] == '-' || t[0] == '+') then t[1..] else t;
    if |ds| == 0 || !AllDigits(ds) then None
    else
      var v: int := if negative then 0 - DigitsValue(ds) else DigitsValue(ds);
      if -0x8000_0000 <= v <= Int32Max then Some(v) else None
  }

  /** `int.Parse` reads back what `int.ToString` wrote. */
  lemma {:induction false} TrimIntString(n: int)
    ensures TrimEnd(TrimStart(IntToString(n))) == IntToString(n)
  {
    var s := IntToString(n);
    var ds := NatToDigits(if n < 0 then -n else n);
    NatToDigitsDigits(if n < 0 then -n else n);
    assert IsDigit(ds[|ds| - 1]);
    if n < 0 {
      assert s[0] == '-';
    } else {
      assert IsDigit(s[0]);
    }
    assert s[|s| - 1] == ds[|ds| - 1];
  }

  /** `int.Parse` reads back what `int.ToString` wrote. */
  lemma {:induction false} ParseIntToString(n: int32)
    ensures ParseInt32(IntToString(n)) == Some(n)
  {
    var s := IntToString(n);
    var m: nat := if n < 0 then 0 - (n as int) else n;
    var ds := NatToDigits(m);
    NatToDigitsDigits(m);
    DigitsRoundTrip(m);
    TrimIntString(n);
    if n < 0 {
      assert s[0] == '-' && s[1..] == ds;
    } else {
      assert s == ds && IsDigit(s[0]);
    }
  }

  // ---------------------------------------------------------------------------
  // File.ReadAllLines against StreamWriter.WriteLine

  predicate IsLineBreak(c: char) { c == '\n' || c == '\r' }

  /** The index of the first line break in `t`, or `|t|` when there is none. */
  function LineEnd(t: string): (k: nat)
    ensures k <= |t| && Free(t[..k], {'\n', '\r'})
    ensures k < |t| ==> IsLineBreak(t[k])
    decreases |t|
  {
    if |t| == 0 || IsLineBreak(t[0]) then 0
    else
      var k := LineEnd(t[1..]);
      assert t[..k + 1] == [t[0]] + t[1..][..k];
      k + 1
  }

  /** `File.ReadAllLines`: a line ends at "\n", "\r" or "\r\n"; the terminator is dropped,
      and text after the last terminator is a final line of its own. */
  function ReadAllLines(t: string): seq<string>
    decreases |t|
  {
    if |t| == 0 then []
    else
      var k := LineEnd(t);
      var next := if k == |t| then k
                  else if t[k] == '\r' && k + 1 < |t| && t[k + 1] == '\n' then k + 2
                  else k + 1;
      [t[..k]] + ReadAllLines(t[next..])
  }

  /** The text a `StreamWriter` holds after one `WriteLine` per line. */
  function WriteAllLines(lines: seq<string>, newLine: string): string {
    if |lines| == 0 then "" else lines[0] + newLine + WriteAllLines(lines[1..], newLine)
  }

  lemma {:induction false} LineEndOfFree(l: string, rest: string)
    requires Free(l, {'\n', '\r'}) && |rest| > 0 && IsLineBreak(rest[0])
    ensures LineEnd(l + rest) == |l|
    decreases |l|
  {
    if |l| > 0 {
      assert (l + rest)[1..] == l[1..] + rest;
      LineEndOfFree(l[1..], rest);
    } else {
      assert l + rest == rest;
    }
  }

  /** No line holds a line break of its own. */
  predicate Unbroken(lines: seq<string>) {
    forall i :: 0 <= i < |lines| ==> Free(lines[i], {'\n', '\r'})
  }

  lemma {:induction false} UnbrokenConcat(a: seq<string>, b: seq<string>)
    requires Unbroken(a) && Unbroken(b)
    ensures Unbroken(a + b)
  {
    forall i | 0 <= i < |a + b|
      ensures Free((a + b)[i], {'\n', '\r'})
    {
      if i < |a| {
        assert (a + b)[i] == a[i];
      } else {
        assert (a + b)[i] == b[i - |a|];
      }
    }
  }

  /** Strings joined with a separator that is not a line break hold no line break. */
  lemma {:induction false} JoinUnbroken(ts: seq<string>, sep: char)
    requires Unbroken(ts) && !IsLineBreak(sep)
    ensures Free(Join(ts, sep), {'\n', '\r'})
    decreases |ts|
  {
    if |ts| > 1 {
      assert Unbroken(ts[1..]) by {
        forall i | 0 <= i < |ts[1..]|
          ensures Free(ts[1..][i], {'\n', '\r'})
        {
          assert ts[1..][i] == ts[i + 1];
        }
      }
      JoinUnbroken(ts[1..], sep);
      FreeConcat(ts[0], [sep], {'\n', '\r'});
      FreeConcat(ts[0] + [sep], Join(ts[1..], sep), {'\n', '\r'});
    }
  }

  /** The first element and the rest of a non-empty sequence, alone and followed by
      others. */
  lemma SplitHead<T>(a: seq<T>, b: seq<T>, c: seq<T>)
    requires |a| > 0
    ensures (a + b)[0] == a[0] && (a + b)[1..] == a[1..] + b && [a[0]] + (a[1..] + c) == a + c
    ensures forall i :: 0 <= i < |a| - 1 ==> a[1..][i] == a[i + 1]
  {
  }

  /** A written line that holds no line break reads back as itself, followed by the
      lines of the text after its newline. */
  lemma {:induction false} ReadFirstLine(l: string, newLine: string, rest: string)
    requires newLine == "\n" || newLine == "\r\n"
    requires Free(l, {'\n', '\r'})
    ensures ReadAllLines(l + newLine + rest) == [l] + ReadAllLines(rest)
  {
    var t := l + newLine + rest;
    assert t == l + (newLine + rest);
    LineEndOfFree(l, newLine + rest);
    assert t[..|l|] == l;
    assert t[|l| + |newLine|..] == rest;
  }

  /** Reading back written lines gives back the leading lines that hold no line break,
      followed by what the lines after them read back as, with either newline
      convention. */
  lemma {:induction false} ReadWritePrefix(a: seq<string>, b: seq<string>, newLine: string)
    requires newLine == "\n" || newLine == "\r\n"
    requires Unbroken(a)
    ensures ReadAllLines(WriteAllLines(a + b, newLine)) == a + ReadAllLines(WriteAllLines(b, newLine))
    decreases |a|
  {
    if |a| == 0 {
      assert a + b == b;
    } else {
      SplitHead(a, b, ReadAllLines(WriteAllLines(b, newLine)));
      var rest := WriteAllLines(a[1..] + b, newLine);
      assert WriteAllLines(a + b, newLine) == a[0] + newLine + rest;
      ReadFirstLine(a[0], newLine, rest);
      ReadWritePrefix(a[1..], b, newLine);
    }
  }

  /** Reading back the written lines gives the same lines, with either newline convention,
      when no line contains a line break. */
  lemma {:induction false} ReadWriteRoundTrip(lines: seq<string>, newLine: string)
    requires newLine == "\n" || newLine == "\r\n"
    requires forall i :: 0 <= i < |lines| ==> Free(lines[i], {'\n', '\r'})
    ensures ReadAllLines(WriteAllLines(lines, newLine)) == lines
    decreases |lines|
  {
    if |lines| > 0 {
      var l := lines[0];
      var rest := WriteAllLines(lines[1..], newLine);
      var t := WriteAllLines(lines, newLine);
      assert t == l + (newLine + rest);
      LineEndOfFree(l, newLine + rest);
      assert t[..|l|] == l;
      assert t[|l| + |newLine|..] == rest;
      ReadWriteRoundTrip(lines[1..], newLine);
      assert [l] + lines[1..] == lines;
    }
  }

  // ---------------------------------------------------------------------------
  // The lexing functions the loaders call

  /** The .NET string functions the loaders read lines with: `words` splits at blanks
      and tabs dropping empty entries, `fields` is `Split(' ')`, and `parseInt` is
      `int.Parse`. The loaders take them as a parameter; `DotNetLexer` is the
      standard instance built from the definitions above. */
  datatype Lexer = Lexer(
    words: string -> seq<string>,
    fields: string -> seq<string>,
    parseInt: string -> Option<int32>)

  function DotNetLexer(): Lexer {
    Lexer(Tokens, s => Split(s, ' '), ParseInt32)
  }

  /** `parseInt` reads back every `int` that `int.ToString` writes. */
  ghost predicate ParsesIntegers(lx: Lexer) {
    forall n: int32 :: lx.parseInt(IntToString(n)) == Some(n)
  }

  /** `fields` splits text joined with single spaces from space-free fields back into
      those fields. */
  ghost predicate SplitsFields(lx: Lexer) {
    forall ts: seq<string> {:trigger Join(ts, ' ')} ::
      |ts| >= 1 && (forall i :: 0 <= i < |ts| ==> Free(ts[i], {' '})) ==> lx.fields(Join(ts, ' ')) == ts
  }

  /** `words` splits text joined with single spaces from non-empty, blank-free tokens
      back into those tokens. */
  ghost predicate SplitsWords(lx: Lexer) {
    forall ts: seq<string> {:trigger Join(ts, ' ')} ::
      |ts| >= 1 && (forall i :: 0 <= i < |ts| ==> ts[i] != "" && Free(ts[i], {' ', '\t'}))
      ==> lx.words(Join(ts, ' ')) == ts
  }

  /** The .NET functions have the properties the round trips rely on. */
  lemma {:induction false} DotNetLexerLaws()
    ensures ParsesIntegers(DotNetLexer()) && SplitsFields(DotNetLexer()) && SplitsWords(DotNetLexer())
  {
    forall ts: seq<string> | |ts| >= 1 && (forall i :: 0 <= i < |ts| ==> ts[i] != "" && Free(ts[i], {' ', '\t'}))
      ensures DotNetLexer().words(Join(ts, ' ')) == ts
    {
      TokensOfJoin(ts);
    }
    forall n: int32
      ensures DotNetLexer().parseInt(IntToString(n)) == Some(n)
    {
      ParseIntToString(n);
    }
    forall ts: seq<string> | |ts| >= 1 && (forall i :: 0 <= i < |ts| ==> Free(ts[i], {' '}))
      ensures DotNetLexer().fields(Join(ts, ' ')) == ts
    {
      SplitJoin(ts, ' ', {' '});
    }
  }

  // ---------------------------------------------------------------------------
  // Writers

  /** The lines a writer holds when a save stops, and why it stopped. */
  datatype Written<E> = Written(lines: seq<string>, error: Option<E>)
}
