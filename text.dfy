/** The JavaScript string operations the core relies on: `split` on one
    character, `trim`, `toLowerCase` (ASCII letters only), removal of
    `\s` characters, and the decimal rendering of an integer in a
    template string. */
module Text {

  /** The characters `trim` removes and `\s` matches: the WhiteSpace and
      LineTerminator code points of ECMAScript. */
  predicate IsWhitespace(c: char) {
    || c == '\t' || c == '\n' || c == '\U{B}' || c == '\U{C}' || c == '\r'
    || c == ' ' || c == '\U{A0}' || c == '\U{1680}'
    || ('\U{2000}' <= c <= '\U{200A}')
    || c == '\U{2028}' || c == '\U{2029}' || c == '\U{202F}' || c == '\U{205F}'
    || c == '\U{3000}' || c == '\U{FEFF}'
  }

  /** No white space at either end. */
  predicate Trimmed(s: string) {
    s == [] || (!IsWhitespace(s[0]) && !IsWhitespace(s[|s| - 1]))
  }

  // ----- split and join -----

  /** `s.split(sep)`: the pieces between occurrences of `sep`, empty pieces
      included; the empty string gives one empty piece. */
  function Split(s: string, sep: char): (parts: seq<string>)
    ensures |parts| >= 1
    ensures forall k :: 0 <= k < |parts| ==> sep !in parts[k]
    decreases |s|
  {
    if s == [] then [[]]
    else
      var rest := Split(s[1..], sep);
      if s[0] == sep then [[]] + rest
      else [[s[0]] + rest[0]] + rest[1..]
  }

  /** `parts.join(sep)`. */
  function Join(parts: seq<string>, sep: char): string
    requires |parts| >= 1
    decreases |parts|
  {
    if |parts| == 1 then parts[0] else parts[0] + [sep] + Join(parts[1..], sep)
  }

  /** Joining the pieces restores the string. */
  lemma {:induction false} JoinSplit(s: string, sep: char)
    ensures Join(Split(s, sep), sep) == s
    decreases |s|
  {
    if s != [] {
      JoinSplit(s[1..], sep);
      var rest := Split(s[1..], sep);
      if s[0] != sep {
        if |rest| == 1 {
          assert Join(Split(s, sep), sep) == [s[0]] + rest[0];
        } else {
          assert rest == [rest[0]] + rest[1..];
          calc {
            Join(Split(s, sep), sep);
            ([s[0]] + rest[0]) + [sep] + Join(rest[1..], sep);
            [s[0]] + (rest[0] + [sep] + Join(rest[1..], sep));
            [s[0]] + Join(rest, sep);
          }
        }
        assert [s[0]] + s[1..] == s;
      }
    }
  }

  /** A piece free of `sep` in front of `t` extends the first piece of `t`. */
  lemma {:induction false} SplitPrefix(p: string, t: string, sep: char)
    requires sep !in p
    ensures Split(p + t, sep) == [p + Split(t, sep)[0]] + Split(t, sep)[1..]
    decreases |p|
  {
    if p != [] {
      SplitPrefix(p[1..], t, sep);
      assert (p + t)[1..] == p[1..] + t;
      assert (p + t)[0] == p[0];
      assert [p[0]] + (p[1..] + Split(t, sep)[0]) == p + Split(t, sep)[0];
    } else {
      var st := Split(t, sep);
      assert p + t == t;
      assert st == [st[0]] + st[1..];
      assert p + st[0] == st[0];
    }
  }

  /** Splitting the join of pieces free of `sep` gives the pieces back. */
  lemma {:induction false} SplitJoin(parts: seq<string>, sep: char)
    requires |parts| >= 1
    requires forall k :: 0 <= k < |parts| ==> sep !in parts[k]
    ensures Split(Join(parts, sep), sep) == parts
    decreases |parts|
  {
    if |parts| == 1 {
      SplitPrefix(parts[0], [], sep);
      assert parts[0] + [] == parts[0];
    } else {
      var tail := Join(parts[1..], sep);
      SplitJoin(parts[1..], sep);
      SplitPrefix(parts[0], [sep] + tail, sep);
      assert parts[0] + [sep] + tail == parts[0] + ([sep] + tail);
      assert ([sep] + tail)[1..] == tail;
      assert ([sep] + tail)[0] == sep;
      assert Split([sep] + tail, sep) == [[]] + Split(tail, sep);
      assert parts[0] + [] == parts[0];
      assert parts == [parts[0]] + parts[1..];
    }
  }

  // ----- trim -----

  function TrimStart(s: string): (r: string)
    ensures |r| <= |s| && r == s[|s| - |r|..]
    ensures forall i :: 0 <= i < |s| - |r| ==> IsWhitespace(s[i])
    ensures r == [] || !IsWhitespace(r[0])
    decreases |s|
  {
    if s != [] && IsWhitespace(s[0]) then TrimStart(s[1..]) else s
  }

  function TrimEnd(s: string): (r: string)
    ensures |r| <= |s| && r == s[..|r|]
    ensures forall i :: |r| <= i < |s| ==> IsWhitespace(s[i])
    ensures r == [] || !IsWhitespace(r[|r| - 1])
    decreases |s|
  {
    if s != [] && IsWhitespace(s[|s| - 1]) then TrimEnd(s[..|s| - 1]) else s
  }

  /** Every character of a slice is a character of the sequence. */
  lemma CharsOfSlice(s: string, i: nat, j: nat)
    requires i <= j <= |s|
    ensures forall c :: c in s[i..j] ==> c in s
  {
    forall c | c in s[i..j] ensures c in s {
      var k :| 0 <= k < j - i && s[i..j][k] == c;
      assert s[i + k] == c;
    }
  }

  /** Only white space lies outside `s[i..j]`. */
  predicate WhitespaceOutside(s: string, i: int, j: int)
    requires 0 <= i <= j <= |s|
  {
    && (forall k :: 0 <= k < i ==> IsWhitespace(s[k]))
    && (forall k :: j <= k < |s| ==> IsWhitespace(s[k]))
  }

  /** How many white-space characters `s` starts with. */
  function LeadingWhitespace(s: string): (n: nat)
    ensures n <= |s|
  {
    |s| - |TrimStart(s)|
  }

  /** What cutting white space off the start of `s`, giving `t`, and then
      off the end of `t`, giving `r`, leaves: the part of `s` after its
      leading white space, with only white space outside it. */
  lemma TrimParts(s: string, t: string, r: string)
    requires |t| <= |s| && t == s[|s| - |t|..]
    requires forall k :: 0 <= k < |s| - |t| ==> IsWhitespace(s[k])
    requires t == [] || !IsWhitespace(t[0])
    requires |r| <= |t| && r == t[..|r|]
    requires forall k :: |r| <= k < |t| ==> IsWhitespace(t[k])
    requires r == [] || !IsWhitespace(r[|r| - 1])
    ensures Trimmed(r)
    ensures var i := |s| - |t|;
      && i + |r| <= |s|
      && (forall k :: 0 <= k < |r| ==> r[k] == s[i + k])
      && WhitespaceOutside(s, i, i + |r|)
    ensures forall c :: c in r ==> c in s
    ensures r == [] <==> forall k :: 0 <= k < |s| ==> IsWhitespace(s[k])
  {
    var i := |s| - |t|;
    assert r != [] ==> r[0] == t[0];
    forall k | i + |r| <= k < |s| ensures IsWhitespace(s[k]) {
      assert s[k] == t[k - i];
    }
    CharsOfSlice(s, i, |s|);
    CharsOfSlice(t, 0, |r|);
  }

  /** `s.trim()`: `s` without its leading and trailing white space. The
      result is the part of `s` that starts after its leading white space,
      and only white space lies outside it. */
  function Trim(s: string): (r: string)
    ensures Trimmed(r)
    ensures var i := LeadingWhitespace(s);
      && i + |r| <= |s|
      && (forall k :: 0 <= k < |r| ==> r[k] == s[i + k])
      && WhitespaceOutside(s, i, i + |r|)
    ensures forall c :: c in r ==> c in s
    ensures r == [] <==> forall i :: 0 <= i < |s| ==> IsWhitespace(s[i])
  {
    var t := TrimStart(s);
    var r := TrimEnd(t);
    TrimParts(s, t, r);
    r
  }

  /** Trimming twice trims no more than once. */
  lemma TrimIdempotent(s: string)
    ensures Trim(Trim(s)) == Trim(s)
  {
    var r := Trim(s);
    if r != [] {
      assert TrimStart(r) == r;
      assert TrimEnd(r) == r;
    }
  }

  // ----- case and white space -----

  /** `toLowerCase` on one character, for the letters A-Z. */
  function LowerChar(c: char): char {
    if 'A' <= c <= 'Z' then (c as int + 32) as char else c
  }

  function Lowercase(s: string): (r: string)
    ensures |r| == |s|
    ensures forall i :: 0 <= i < |s| ==> r[i] == LowerChar(s[i])
  {
    seq(|s|, i requires 0 <= i < |s| => LowerChar(s[i]))
  }

  /** `s.replace(/\s+/g, "")`: `s` with every white-space character
      removed. */
  function StripWhitespace(s: string): (r: string)
    ensures |r| <= |s|
    ensures forall i :: 0 <= i < |r| ==> !IsWhitespace(r[i])
    decreases |s|
  {
    if s == [] then []
    else if IsWhitespace(s[0]) then StripWhitespace(s[1..])
    else [s[0]] + StripWhitespace(s[1..])
  }

  /** Removing white space keeps every other character and adds none. */
  lemma {:induction false} StripWhitespaceKeeps(s: string)
    ensures forall c :: c in StripWhitespace(s) ==> c in s
    ensures forall c :: c in s && !IsWhitespace(c) ==> c in StripWhitespace(s)
    decreases |s|
  {
    if s != [] {
      StripWhitespaceKeeps(s[1..]);
      assert s == [s[0]] + s[1..];
    }
  }

  lemma {:induction false} StripWhitespaceAppend(a: string, b: string)
    ensures StripWhitespace(a + b) == StripWhitespace(a) + StripWhitespace(b)
    decreases |a|
  {
    if a == [] {
      assert a + b == b;
    } else {
      StripWhitespaceAppend(a[1..], b);
      assert (a + b)[1..] == a[1..] + b;
      assert (a + b)[0] == a[0];
      if IsWhitespace(a[0]) {
        calc {
          StripWhitespace(a + b);
          StripWhitespace(a[1..] + b);
          StripWhitespace(a[1..]) + StripWhitespace(b);
          StripWhitespace(a) + StripWhitespace(b);
        }
      } else {
        calc {
          StripWhitespace(a + b);
          [a[0]] + StripWhitespace(a[1..] + b);
          [a[0]] + (StripWhitespace(a[1..]) + StripWhitespace(b));
          ([a[0]] + StripWhitespace(a[1..])) + StripWhitespace(b);
        }
      }
    }
  }

  /** Lowering a string without capitals A-Z changes nothing. */
  lemma LowercaseOfLower(s: string)
    requires forall i :: 0 <= i < |s| ==> !('A' <= s[i] <= 'Z')
    ensures Lowercase(s) == s
  {
  }

  /** Removing white space from a string without any changes nothing. */
  lemma {:induction false} StripWhitespaceOfStripped(s: string)
    requires forall i :: 0 <= i < |s| ==> !IsWhitespace(s[i])
    ensures StripWhitespace(s) == s
    decreases |s|
  {
    if s != [] {
      StripWhitespaceOfStripped(s[1..]);
      assert [s[0]] + s[1..] == s;
    }
  }

  /** Lowering distributes over concatenation. */
  lemma LowercaseAppend(x: string, y: string)
    ensures Lowercase(x + y) == Lowercase(x) + Lowercase(y)
  {
  }

  /** A string of white space only is unchanged by lowering and removed
      entirely by white-space removal. */
  lemma {:induction false} StripAllWhitespace(w: string)
    requires forall i :: 0 <= i < |w| ==> IsWhitespace(w[i])
    ensures Lowercase(w) == w
    ensures StripWhitespace(w) == []
    decreases |w|
  {
    if w != [] {
      StripAllWhitespace(w[1..]);
    }
  }

  // ----- integers in template strings -----

  function DigitChar(d: int): char
    requires 0 <= d < 10
  {
    ('0' as int + d) as char
  }

  /** The decimal digits of `n`, without leading zeros. */
  function DecimalDigits(n: nat): (s: string)
    ensures |s| >= 1
    ensures forall i :: 0 <= i < |s| ==> '0' <= s[i] <= '9'
    ensures s[0] == '0' <==> n == 0
    ensures |s| == 1 <==> n < 10
    decreases n
  {
    if n < 10 then [DigitChar(n)] else DecimalDigits(n / 10) + [DigitChar(n % 10)]
  }

  /** The number that a string of decimal digits denotes. */
  function DecimalValue(s: string): int
    requires forall i :: 0 <= i < |s| ==> '0' <= s[i] <= '9'
    decreases |s|
  {
    if s == [] then 0
    else DecimalValue(s[..|s| - 1]) * 10 + (s[|s| - 1] as int - '0' as int)
  }

  /** Reading the digits back gives the number. */
  lemma {:induction false} DecimalRoundTrip(n: nat)
    ensures DecimalValue(DecimalDigits(n)) == n
    decreases n
  {
    if n >= 10 {
      DecimalRoundTrip(n / 10);
      var s := DecimalDigits(n);
      assert s[..|s| - 1] == DecimalDigits(n / 10);
    }
  }

  /** `${n}` for an integer `n`. */
  function IntToString(n: int): (s: string)
    ensures |s| >= 1
  {
    if n < 0 then "-" + DecimalDigits(-n) else DecimalDigits(n)
  }

  /** The rendering starts with `-` exactly for a negative number, and the
      digits follow. */
  lemma RenderingSign(n: int)
    ensures IntToString(n)[0] == '-' <==> n < 0
    ensures n < 0 ==> IntToString(n)[1..] == DecimalDigits(-n)
    ensures n >= 0 ==> IntToString(n) == DecimalDigits(n)
  {
    if n >= 0 {
      assert '0' <= DecimalDigits(n)[0] <= '9';
    }
  }

  /** Different integers render differently. */
  lemma IntToStringInjective(a: int, b: int)
    requires IntToString(a) == IntToString(b)
    ensures a == b
  {
    RenderingSign(a);
    RenderingSign(b);
    var m, n: nat := if a < 0 then -a else a, if b < 0 then -b else b;
    assert DecimalDigits(m) == DecimalDigits(n);
    DecimalRoundTrip(m);
    DecimalRoundTrip(n);
  }
}
