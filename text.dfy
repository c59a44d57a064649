/** The JavaScript string primitives the application relies on, written out:
    the `\s` character class, `trim`, `toLowerCase`, `includes`, `indexOf`,
    `replace` with a string pattern, `split(c).pop()`, `substring(0, n)`,
    `Array.prototype.join` and the decimal rendering of a non-negative number. */
module Text {
  import opened Wrappers

  /** The characters matched by `\s` in a JavaScript regular expression (and
      removed by `String.prototype.trim`). */
  predicate IsSpace(c: char) {
    c == ' ' || c == '\t' || c == '\n' || c == '\U{000B}' || c == '\U{000C}' || c == '\r'
    || c == '\U{00A0}' || c == '\U{1680}' || ('\U{2000}' <= c <= '\U{200A}')
    || c == '\U{2028}' || c == '\U{2029}' || c == '\U{202F}' || c == '\U{205F}'
    || c == '\U{3000}' || c == '\U{FEFF}'
  }

  predicate IsDigit(c: char) { '0' <= c <= '9' }

  predicate IsAsciiLetter(c: char) { ('a' <= c <= 'z') || ('A' <= c <= 'Z') }

  predicate IsAsciiAlnum(c: char) { IsAsciiLetter(c) || IsDigit(c) }

  predicate AllDigits(s: string) { forall i :: 0 <= i < |s| ==> IsDigit(s[i]) }

  /** `toLowerCase` on one character: ASCII capitals and the Latin-1 capitals
      U+00C0..U+00DE other than the multiplication sign. */
  function LowerChar(c: char): (r: char)
    ensures ('A' <= c <= 'Z') ==> r as int == c as int + 32
    ensures !('A' <= c <= 'Z') && !('\U{00C0}' <= c <= '\U{00DE}') ==> r == c
  {
    if 'A' <= c <= 'Z' then (c as int + 32) as char
    else if '\U{00C0}' <= c <= '\U{00DE}' && c != '\U{00D7}' then (c as int + 32) as char
    else c
  }

  function ToLower(s: string): (r: string)
    ensures |r| == |s|
    ensures forall i :: 0 <= i < |s| ==> r[i] == LowerChar(s[i])
  {
    seq(|s|, i requires 0 <= i < |s| => LowerChar(s[i]))
  }

  /** Number of leading `\s` characters. */
  function LeadingSpaces(s: string): (k: nat)
    ensures k <= |s|
    ensures forall i :: 0 <= i < k ==> IsSpace(s[i])
    ensures k < |s| ==> !IsSpace(s[k])
  {
    if s == [] || !IsSpace(s[0]) then 0 else 1 + LeadingSpaces(s[1..])
  }

  /** Index where the trailing run of `\s` characters starts. */
  function TrailingStart(s: string): (k: nat)
    ensures k <= |s|
    ensures forall i :: k <= i < |s| ==> IsSpace(s[i])
    ensures k > 0 ==> !IsSpace(s[k - 1])
  {
    if s == [] || !IsSpace(s[|s| - 1]) then |s| else TrailingStart(s[..|s| - 1])
  }

  /** `String.prototype.trim`. */
  function Trim(s: string): (r: string)
    ensures r == [] || (!IsSpace(r[0]) && !IsSpace(r[|r| - 1]))
  {
    var t := s[LeadingSpaces(s)..];
    t[..TrailingStart(t)]
  }

  /** The trimmed text is the piece of `s` after its leading whitespace,
      and what follows it is whitespace too. */
  lemma TrimIsInfix(s: string)
    ensures LeadingSpaces(s) + |Trim(s)| <= |s|
    ensures Trim(s) == s[LeadingSpaces(s)..LeadingSpaces(s) + |Trim(s)|]
    ensures forall i :: LeadingSpaces(s) + |Trim(s)| <= i < |s| ==> IsSpace(s[i])
  {
    var k := LeadingSpaces(s);
    var t := s[k..];
    var e := TrailingStart(t);
    assert Trim(s) == t[..e] == s[k..k + e];
    forall i | k + e <= i < |s| ensures IsSpace(s[i]) {
      assert s[i] == t[i - k];
    }
  }

  /** `!s.trim()`: the string is empty or made of whitespace only. */
  predicate IsBlank(s: string) { Trim(s) == [] }

  lemma BlankIffAllSpace(s: string)
    ensures IsBlank(s) <==> forall i :: 0 <= i < |s| ==> IsSpace(s[i])
  {
    var k := LeadingSpaces(s);
    var t := s[k..];
    assert k < |s| ==> TrailingStart(t) > 0;
  }

  /** `p` occurs in `s` at index `j`. */
  predicate MatchAt(s: string, p: string, j: nat) {
    j + |p| <= |s| && s[j..j + |p|] == p
  }

  /** Index of the first occurrence of `p` in `s` (`s.indexOf(p)`, absent as None). */
  function IndexOf(s: string, p: string): (r: Option<nat>)
    ensures r.Some? ==> MatchAt(s, p, r.value)
    ensures r.Some? ==> forall j: nat :: j < r.value ==> !MatchAt(s, p, j)
    ensures r.None? ==> forall j: nat :: !MatchAt(s, p, j)
  {
    if |s| < |p| then None
    else if s[..|p|] == p then Some(0)
    else
      var rest := IndexOf(s[1..], p);
      assert forall j: nat :: 1 <= j ==> (MatchAt(s, p, j) <==> MatchAt(s[1..], p, j - 1)) by {
        forall j: nat | 1 <= j ensures MatchAt(s, p, j) <==> MatchAt(s[1..], p, j - 1) {
          if j + |p| <= |s| {
            SliceOfTail(s, j, |p|);
          }
        }
      }
      assert !MatchAt(s, p, 0);
      match rest
      case None => None
      case Some(k) => Some(k + 1)
  }

  lemma SliceOfTail(s: string, j: nat, n: nat)
    requires 1 <= j && j + n <= |s|
    ensures s[1..][j - 1..j - 1 + n] == s[j..j + n]
  {
    var a, b := s[1..][j - 1..j - 1 + n], s[j..j + n];
    assert |a| == |b| == n;
    forall t | 0 <= t < n ensures a[t] == b[t] {
      assert s[1..][j - 1 + t] == s[j + t];
    }
  }

  /** `s.includes(p)`. */
  predicate Contains(s: string, p: string) { IndexOf(s, p).Some? }

  lemma ContainsAt(s: string, p: string, i: nat)
    requires MatchAt(s, p, i)
    ensures Contains(s, p)
  {
  }

  lemma EmptyContained(s: string)
    ensures Contains(s, [])
  {
    assert s[0..0] == [];
  }

  /** `s.replace(p, v)` with a string pattern: only the first occurrence is
      replaced. The `$` patterns JavaScript expands in the replacement text
      (`$&`, `$$`, `` $` ``, `$'`) are not interpreted: `v` is inserted as it is. */
  function ReplaceFirst(s: string, p: string, v: string): (r: string)
    ensures !Contains(s, p) ==> r == s
    ensures Contains(s, p) ==>
      var i := IndexOf(s, p).value; r == s[..i] + v + s[i + |p|..]
  {
    match IndexOf(s, p)
    case None => s
    case Some(i) => s[..i] + v + s[i + |p|..]
  }

  /** Replacing the piece `s[i..i + |p|]` by `v` keeps an occurrence of `p`
      that lies after the piece, shifted by the difference in length. */
  lemma SpliceKeepsLater(s: string, p: string, v: string, i: nat, j: nat)
    requires i + |p| <= j && MatchAt(s, p, j)
    ensures MatchAt(s[..i] + v + s[i + |p|..], p, j - |p| + |v|)
  {
    var r := s[..i] + v + s[i + |p|..];
    var q := j - |p| + |v|;
    forall k | 0 <= k < |p| ensures r[q + k] == p[k] {
      assert r[q + k] == s[j + k];
      assert s[j + k] == s[j..j + |p|][k];
    }
    assert r[q..q + |p|] == p;
  }

  /** A pattern whose first character never occurs in `s` is not contained in it. */
  lemma FirstCharAbsent(s: string, p: string)
    requires |p| > 0 && forall i :: 0 <= i < |s| ==> s[i] != p[0]
    ensures !Contains(s, p)
  {
    forall j: nat ensures !MatchAt(s, p, j) {
      if j + |p| <= |s| {
        assert s[j..j + |p|][0] == s[j];
      }
    }
  }

  /** Index of the last occurrence of the character `c`. */
  function LastIndexOfChar(s: string, c: char): (r: Option<nat>)
    ensures r.Some? ==> r.value < |s| && s[r.value] == c && forall j :: r.value < j < |s| ==> s[j] != c
    ensures r.None? ==> forall j :: 0 <= j < |s| ==> s[j] != c
  {
    if s == [] then None
    else if s[|s| - 1] == c then Some(|s| - 1)
    else LastIndexOfChar(s[..|s| - 1], c)
  }

  /** `s.split(c).pop()`: the text after the last `c`, or all of `s` when it has none. */
  function LastSegment(s: string, c: char): (r: string)
    ensures forall j :: 0 <= j < |r| ==> r[j] != c
    ensures |r| <= |s| && r == s[|s| - |r|..]
    ensures |r| < |s| ==> s[|s| - |r| - 1] == c
  {
    match LastIndexOfChar(s, c)
    case None => s
    case Some(i) => s[i + 1..]
  }

  /** `s.substring(0, n)` for a non-negative n. */
  function Take(s: string, n: nat): (r: string)
    ensures |r| == if n < |s| then n else |s|
    ensures r == s[..|r|]
  {
    if n < |s| then s[..n] else s
  }

  /** `parts.join(sep)`. */
  function Join(parts: seq<string>, sep: string): string
  {
    if parts == [] then []
    else if |parts| == 1 then parts[0]
    else parts[0] + sep + Join(parts[1..], sep)
  }

  function DigitChar(d: nat): (c: char)
    requires d < 10
    ensures IsDigit(c) && c as int - '0' as int == d
  {
    ('0' as int + d) as char
  }

  /** `String(n)` for a non-negative integer: its decimal digits. */
  function NatToString(n: nat): (r: string)
    ensures |r| >= 1 && AllDigits(r)
    ensures (|r| == 1) == (n < 10)
    ensures r[|r| - 1] == DigitChar(n % 10)
  {
    if n < 10 then [DigitChar(n)] else NatToString(n / 10) + [DigitChar(n % 10)]
  }

  /** Different numbers render as different strings. */
  lemma {:induction false} NatToStringInjective(a: nat, b: nat)
    requires NatToString(a) == NatToString(b)
    ensures a == b
  {
    var s := NatToString(a);
    assert a % 10 == b % 10 by {
      assert DigitChar(a % 10) == DigitChar(b % 10);
    }
    if a >= 10 {
      assert b >= 10;
      assert NatToString(a / 10) == s[..|s| - 1] == NatToString(b / 10);
      NatToStringInjective(a / 10, b / 10);
    }
  }
}
