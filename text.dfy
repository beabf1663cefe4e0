/** The Python string operations the pipeline relies on, on `seq<char>`. */
module Text {
  import opened Base

  predicate StartsWith(s: string, p: string) {
    |p| <= |s| && s[..|p|] == p
  }

  predicate EndsWith(s: string, p: string) {
    |p| <= |s| && s[|s| - |p|..] == p
  }

  /** `p` occurs in `s` at position `i`. */
  predicate OccursAt(s: string, p: string, i: nat) {
    i + |p| <= |s| && forall k :: 0 <= k < |p| ==> s[i + k] == p[k]
  }

  /** Python's `p in s` for strings. */
  predicate Contains(s: string, p: string)
    decreases |s|
  {
    StartsWith(s, p) || (|s| > |p| && Contains(s[1..], p))
  }

  /** The whitespace of `str.isspace()`, which `str.strip()` and
      `str.split()` without arguments remove and split on: the ASCII
      controls tab to carriage return and the four separators U+001C to
      U+001F, the space, and the Unicode spaces and line and paragraph
      separators. */
  predicate IsSpace(c: char) {
    ('\U{0009}' <= c <= '\U{000D}') || ('\U{001C}' <= c <= '\U{0020}') ||
    c == '\U{0085}' || c == '\U{00A0}' || c == '\U{1680}' ||
    ('\U{2000}' <= c <= '\U{200A}') || c == '\U{2028}' || c == '\U{2029}' ||
    c == '\U{202F}' || c == '\U{205F}' || c == '\U{3000}'
  }

  function StripLeft(s: string): (r: string)
    ensures |r| <= |s| && r == s[|s| - |r|..]
    ensures r != [] ==> !IsSpace(r[0])
    ensures forall i :: 0 <= i < |s| - |r| ==> IsSpace(s[i])
  {
    if s != [] && IsSpace(s[0]) then StripLeft(s[1..]) else s
  }

  function StripRight(s: string): (r: string)
    ensures |r| <= |s| && r == s[..|r|]
    ensures r != [] ==> !IsSpace(r[|r| - 1])
    ensures forall i :: |r| <= i < |s| ==> IsSpace(s[i])
  {
    if s != [] && IsSpace(s[|s| - 1]) then StripRight(s[..|s| - 1]) else s
  }

  /** `s.strip()` */
  function Strip(s: string): string {
    StripRight(StripLeft(s))
  }

  /** The longest prefix of `s` without whitespace. */
  function TakeWord(s: string): (w: string)
    ensures |w| <= |s| && w == s[..|w|]
    ensures s != [] && !IsSpace(s[0]) ==> |w| >= 1
    ensures forall i :: 0 <= i < |w| ==> !IsSpace(w[i])
    ensures |w| < |s| ==> IsSpace(s[|w|])
  {
    if s != [] && !IsSpace(s[0]) then [s[0]] + TakeWord(s[1..]) else []
  }

  /** `s.split()`: the maximal runs of non-whitespace, in order. */
  function Words(s: string): seq<string>
    decreases |s|
  {
    var t := StripLeft(s);
    if t == [] then []
    else
      var w := TakeWord(t);
      assert 1 <= |w| <= |t| <= |s|;
      [w] + Words(t[|w|..])
  }

  /** A `split()` token: non-empty and without whitespace. */
  predicate Token(w: string) {
    w != [] && forall i :: 0 <= i < |w| ==> !IsSpace(w[i])
  }

  /** Every token of `split()` is non-empty and holds no whitespace. */
  lemma {:induction false} WordsShape(s: string)
    ensures forall k :: 0 <= k < |Words(s)| ==> Token(Words(s)[k])
    decreases |s|
  {
    var t := StripLeft(s);
    if t != [] {
      var w := TakeWord(t);
      assert Token(w);
      var rest := t[|w|..];
      WordsShape(rest);
      var ws := Words(s);
      assert ws == [w] + Words(rest);
      forall k | 0 <= k < |ws|
        ensures Token(ws[k])
      {
        if k > 0 {
          assert ws[k] == Words(rest)[k - 1];
        }
      }
    }
  }

  /** `s.replace(p, "")`: removes the non-overlapping occurrences of `p`, left to right. */
  function RemoveAll(s: string, p: string): string
    requires p != []
    decreases |s|
  {
    if |s| < |p| then s
    else if s[..|p|] == p then RemoveAll(s[|p|..], p)
    else [s[0]] + RemoveAll(s[1..], p)
  }

  /** `s.find(p, j)`, as an option. */
  function FindFrom(s: string, p: string, j: nat): (r: Option<nat>)
    requires p != []
    ensures r.Some? ==> j <= r.value && r.value + |p| <= |s|
    decreases |s| - j
  {
    if j + |p| > |s| then None
    else if OccursAt(s, p, j) then Some(j)
    else FindFrom(s, p, j + 1)
  }

  /** `find` gives the leftmost occurrence from `j` on, or none when there
      is none. */
  lemma FindFromMeaning(s: string, p: string, j: nat)
    requires p != []
    ensures FindFrom(s, p, j).Some? ==> OccursAt(s, p, FindFrom(s, p, j).value)
    ensures FindFrom(s, p, j).Some? ==> forall i :: j <= i < FindFrom(s, p, j).value ==> !OccursAt(s, p, i)
    ensures FindFrom(s, p, j).None? ==> NoneFrom(s, p, j)
  {
    FindFromHit(s, p, j);
    FindFromFirst(s, p, j);
    FindFromNone(s, p, j);
  }

  lemma {:induction false} FindFromHit(s: string, p: string, j: nat)
    requires p != []
    ensures FindFrom(s, p, j).Some? ==> OccursAt(s, p, FindFrom(s, p, j).value)
    decreases |s| - j
  {
    if j + |p| <= |s| && !OccursAt(s, p, j) {
      FindFromHit(s, p, j + 1);
    }
  }

  lemma {:induction false} FindFromFirst(s: string, p: string, j: nat)
    requires p != []
    ensures FindFrom(s, p, j).Some? ==> forall i :: j <= i < FindFrom(s, p, j).value ==> !OccursAt(s, p, i)
    decreases |s| - j
  {
    if j + |p| <= |s| && !OccursAt(s, p, j) {
      FindFromFirst(s, p, j + 1);
    }
  }

  lemma {:induction false} FindFromNone(s: string, p: string, j: nat)
    requires p != []
    ensures FindFrom(s, p, j).None? ==> NoneFrom(s, p, j)
    decreases |s| - j
  {
    if j + |p| <= |s| && !OccursAt(s, p, j) {
      FindFromNone(s, p, j + 1);
    }
  }

  /** `p` occurs nowhere in `s` from position `j` on. */
  ghost predicate NoneFrom(s: string, p: string, j: nat) {
    forall i :: j <= i ==> !OccursAt(s, p, i)
  }

  /** Where the last piece of `s[j..].split(p)` begins: after each
      separator found from `j` on, the search starts again past it. */
  function LastStart(s: string, p: string, j: nat): (k: nat)
    requires p != [] && j <= |s|
    ensures j <= k <= |s|
    decreases |s| - j
  {
    match FindFrom(s, p, j)
    case None => j
    case Some(i) => LastStart(s, p, i + |p|)
  }

  /** No separator occurs from the last piece on, and unless the last piece
      begins at `j` a separator ends right where it begins. */
  lemma LastStartMeaning(s: string, p: string, j: nat)
    requires p != [] && j <= |s|
    ensures NoneFrom(s, p, LastStart(s, p, j))
    ensures LastStart(s, p, j) > j ==>
      j + |p| <= LastStart(s, p, j) && OccursAt(s, p, LastStart(s, p, j) - |p|)
  {
    LastStartClear(s, p, j);
    LastStartAfterSeparator(s, p, j);
  }

  lemma {:induction false} LastStartClear(s: string, p: string, j: nat)
    requires p != [] && j <= |s|
    ensures NoneFrom(s, p, LastStart(s, p, j))
    decreases |s| - j
  {
    match FindFrom(s, p, j)
    case None =>
      FindFromNone(s, p, j);
    case Some(i) =>
      LastStartClear(s, p, i + |p|);
  }

  lemma {:induction false} LastStartAfterSeparator(s: string, p: string, j: nat)
    requires p != [] && j <= |s|
    ensures LastStart(s, p, j) > j ==>
      j + |p| <= LastStart(s, p, j) && OccursAt(s, p, LastStart(s, p, j) - |p|)
    decreases |s| - j
  {
    match FindFrom(s, p, j)
    case None =>
    case Some(i) =>
      FindFromHit(s, p, j);
      LastStartAfterSeparator(s, p, i + |p|);
  }

  /** `s.split(p)[-1]`: what follows the last separator, or `s` itself. */
  function LastPiece(s: string, p: string): (r: string)
    requires p != []
    ensures |r| <= |s| && r == s[|s| - |r|..]
  {
    s[LastStart(s, p, 0)..]
  }

  /** The last piece is a suffix that holds no separator, and unless it is
      the whole string a separator ends right where it begins. */
  lemma LastPieceMeaning(s: string, p: string)
    requires p != []
    ensures |LastPiece(s, p)| <= |s| && LastPiece(s, p) == s[|s| - |LastPiece(s, p)|..]
    ensures forall i :: 0 <= i ==> !OccursAt(LastPiece(s, p), p, i)
    ensures var r := LastPiece(s, p);
      |r| < |s| ==> |r| + |p| <= |s| && OccursAt(s, p, |s| - |r| - |p|)
  {
    var k := LastStart(s, p, 0);
    var r := s[k..];
    LastStartMeaning(s, p, 0);
    forall i | 0 <= i
      ensures !OccursAt(r, p, i)
    {
      assert !OccursAt(s, p, k + i);
      if i + |p| <= |r| {
        var m :| 0 <= m < |p| && s[k + i + m] != p[m];
        assert r[i + m] != p[m];
      }
    }
  }

  /** `os.path.basename(path)` */
  function Basename(path: string): string {
    LastPiece(path, "/")
  }

  /** `sep.join(xs)` */
  function Join(sep: string, xs: seq<string>): string {
    if xs == [] then ""
    else if |xs| == 1 then xs[0]
    else xs[0] + sep + Join(sep, xs[1..])
  }

  // Decimal numerals

  predicate IsDigit(c: char) {
    '0' <= c <= '9'
  }

  predicate AllDigits(s: string) {
    forall i :: 0 <= i < |s| ==> IsDigit(s[i])
  }

  function DigitChar(d: nat): (c: char)
    requires d < 10
    ensures IsDigit(c)
  {
    ('0' as int + d) as char
  }

  /** `str(n)` for a natural number. */
  function NatToString(n: nat): (s: string)
    ensures s != [] && AllDigits(s)
    decreases n
  {
    if n < 10 then [DigitChar(n)] else NatToString(n / 10) + [DigitChar(n % 10)]
  }

  /** `int(s)` for a string of decimal digits. */
  function ParseDigits(s: string): nat
    requires AllDigits(s)
  {
    if s == [] then 0 else 10 * ParseDigits(s[..|s| - 1]) + (s[|s| - 1] as int - '0' as int)
  }

  /** The number of leading decimal digits of `s`. */
  function DigitRun(s: string): (n: nat)
    ensures n <= |s| && AllDigits(s[..n])
    ensures n < |s| ==> !IsDigit(s[n])
  {
    if s != [] && IsDigit(s[0]) then
      var n := 1 + DigitRun(s[1..]);
      assert s[..n] == [s[0]] + s[1..][..n - 1];
      n
    else 0
  }

  /** Reading back what `str` printed gives the number again. */
  lemma {:induction false} ParseNatToString(n: nat)
    ensures ParseDigits(NatToString(n)) == n
    decreases n
  {
    if n >= 10 {
      ParseNatToString(n / 10);
      var s := NatToString(n);
      assert s[..|s| - 1] == NatToString(n / 10);
    }
  }

  /** The digit run of a numeral followed by a non-digit is that numeral. */
  lemma {:induction false} DigitRunOfNumeral(d: string, rest: string)
    requires AllDigits(d)
    requires rest != [] && !IsDigit(rest[0])
    ensures DigitRun(d + rest) == |d|
    decreases |d|
  {
    if d != [] {
      var s := d + rest;
      var tail := d[1..];
      assert s[0] == d[0] && IsDigit(s[0]);
      assert s[1..] == tail + rest;
      assert AllDigits(tail) by {
        forall i | 0 <= i < |tail|
          ensures IsDigit(tail[i])
        {
          assert tail[i] == d[i + 1];
        }
      }
      DigitRunOfNumeral(tail, rest);
      assert DigitRun(s) == 1 + DigitRun(s[1..]);
    } else {
      assert d + rest == rest;
    }
  }
}
