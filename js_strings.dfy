/** The JavaScript string built-ins that the scraper relies on, defined on
    `seq<char>`: `startsWith`, `indexOf`/`includes`, `replace` with a string
    pattern, `split` on a one-character separator, `trim`, the regular
    expression `/i=(\d+)/`, `parseInt` of a digit string and the decimal
    rendering of an integer in a template literal. */
module JsStrings {
  import opened Wrappers

  /** JavaScript truthiness of an optional string: present and non-empty. */
  predicate Truthy(o: Option<string>) {
    o.Some? && o.value != ""
  }

  predicate StartsWith(s: string, prefix: string) {
    |prefix| <= |s| && s[..|prefix|] == prefix
  }

  /** `pat` occurs in `s` starting at index `k`. */
  predicate OccursAt(s: string, pat: string, k: nat) {
    k + |pat| <= |s| && s[k..k + |pat|] == pat
  }

  /** The leftmost occurrence of `pat` in `s` at or after index `from`. */
  function IndexFrom(s: string, pat: string, from: nat): (r: Option<nat>)
    ensures r.Some? ==> from <= r.value && OccursAt(s, pat, r.value)
    ensures r.Some? ==> forall j: nat :: from <= j < r.value ==> !OccursAt(s, pat, j)
    ensures r.None? ==> forall j: nat :: from <= j ==> !OccursAt(s, pat, j)
    decreases |s| - from
  {
    if from + |pat| > |s| then None
    else if OccursAt(s, pat, from) then Some(from)
    else IndexFrom(s, pat, from + 1)
  }

  /** `s.indexOf(pat)`: the leftmost occurrence, or None for JavaScript's -1. */
  function IndexOf(s: string, pat: string): (r: Option<nat>)
    ensures r.Some? ==> OccursAt(s, pat, r.value)
    ensures r.Some? ==> forall j: nat :: j < r.value ==> !OccursAt(s, pat, j)
    ensures r.None? ==> forall j: nat :: !OccursAt(s, pat, j)
  {
    IndexFrom(s, pat, 0)
  }

  /** `s.includes(pat)` */
  predicate Contains(s: string, pat: string) {
    IndexOf(s, pat).Some?
  }

  lemma ContainsWitness(s: string, pat: string, k: nat)
    requires OccursAt(s, pat, k)
    ensures Contains(s, pat)
  {
  }

  /** `s.replace(pat, rep)` with a string pattern: only the leftmost
      occurrence is replaced. */
  function ReplaceFirst(s: string, pat: string, rep: string): string {
    match IndexOf(s, pat)
    case None => s
    case Some(k) => s[..k] + rep + s[k + |pat|..]
  }

  lemma ReplaceFirstAbsent(s: string, pat: string, rep: string)
    requires !Contains(s, pat)
    ensures ReplaceFirst(s, pat, rep) == s
  {
  }

  /** Replacing removes exactly the leftmost occurrence: when `s` is `pat`
      followed by `rest`, replacing with "" gives back `rest`. */
  lemma ReplaceFirstAtStart(pat: string, rest: string, rep: string)
    ensures ReplaceFirst(pat + rest, pat, rep) == rep + rest
  {
    var s := pat + rest;
    assert s[..|pat|] == pat;
    assert OccursAt(s, pat, 0);
    assert IndexOf(s, pat) == Some(0);
    assert s[|pat|..] == rest;
  }

  /** Joining fields back with the separator, the inverse of `Split`. */
  function Join(parts: seq<string>, sep: char): string
    decreases |parts|
  {
    if |parts| == 0 then ""
    else if |parts| == 1 then parts[0]
    else parts[0] + [sep] + Join(parts[1..], sep)
  }

  /** A one-character pattern occurs exactly where that character is. */
  lemma CharIndex(s: string, c: char)
    ensures IndexOf(s, [c]).None? ==> c !in s
    ensures IndexOf(s, [c]).Some? ==>
      IndexOf(s, [c]).value < |s| && s[IndexOf(s, [c]).value] == c && c !in s[..IndexOf(s, [c]).value]
  {
    match IndexOf(s, [c])
    case None =>
      forall k | 0 <= k < |s| ensures s[k] != c {
        assert !OccursAt(s, [c], k);
        assert s[k..k + 1] == [s[k]];
      }
    case Some(k) =>
      assert s[k..k + 1] == [c];
      forall j | 0 <= j < k ensures s[j] != c {
        assert !OccursAt(s, [c], j);
        assert s[j..j + 1] == [s[j]];
      }
  }

  /** `s.split(sep)` for a one-character separator: at least one field, no
      field contains the separator, and joining the fields gives `s` back. */
  function Split(s: string, sep: char): (parts: seq<string>)
    ensures |parts| >= 1
    ensures forall i :: 0 <= i < |parts| ==> sep !in parts[i]
    ensures Join(parts, sep) == s
    decreases |s|
  {
    CharIndex(s, sep);
    match IndexOf(s, [sep])
    case None => [s]
    case Some(k) =>
      var tail := Split(s[k + 1..], sep);
      var parts := [s[..k]] + tail;
      assert parts[1..] == tail;
      assert s == s[..k] + [sep] + s[k + 1..];
      parts
  }

  /** The white space and line terminators that `String.prototype.trim`
      removes (ECMAScript WhiteSpace and LineTerminator). */
  const Spaces: set<char> := {
    '\t', '\n', '\U{000B}', '\U{000C}', '\r', ' ', '\U{00A0}', '\U{1680}',
    '\U{2000}', '\U{2001}', '\U{2002}', '\U{2003}', '\U{2004}', '\U{2005}',
    '\U{2006}', '\U{2007}', '\U{2008}', '\U{2009}', '\U{200A}',
    '\U{2028}', '\U{2029}', '\U{202F}', '\U{205F}', '\U{3000}', '\U{FEFF}'
  }

  predicate IsSpace(c: char) {
    c in Spaces
  }

  /** The first index at or after `i` whose character is not white space,
      or `|s|` when there is none. */
  function SkipSpace(s: string, i: nat): (j: nat)
    requires i <= |s|
    ensures i <= j <= |s|
    ensures forall k :: i <= k < j ==> IsSpace(s[k])
    ensures j < |s| ==> !IsSpace(s[j])
    decreases |s| - i
  {
    if i < |s| && IsSpace(s[i]) then SkipSpace(s, i + 1) else i
  }

  /** Going back from `j` no further than `lo`, the index just past the last
      character that is not white space, or `lo` when there is none. */
  function SkipSpaceBack(s: string, lo: nat, j: nat): (e: nat)
    requires lo <= j <= |s|
    ensures lo <= e <= j
    ensures forall k :: e <= k < j ==> IsSpace(s[k])
    ensures lo < e ==> !IsSpace(s[e - 1])
    decreases j
  {
    if lo < j && IsSpace(s[j - 1]) then SkipSpaceBack(s, lo, j - 1) else j
  }

  /** `s.trim()`: empty exactly when `s` is all white space; otherwise it
      neither starts nor ends with white space. */
  function Trim(s: string): (r: string)
    ensures |r| <= |s|
    ensures r == [] <==> AllSpace(s)
    ensures r != [] ==> !IsSpace(r[0]) && !IsSpace(r[|r| - 1])
  {
    var i := SkipSpace(s, 0);
    var e := SkipSpaceBack(s, i, |s|);
    assert i < e ==> s[i..e][0] == s[i] && s[i..e][e - i - 1] == s[e - 1];
    s[i..e]
  }

  /** Every character of `s` is white space. */
  predicate AllSpace(s: string) {
    forall k :: 0 <= k < |s| ==> IsSpace(s[k])
  }

  /** `s` is white space, then `Trim(s)`, then white space. */
  lemma TrimSplit(s: string)
    ensures exists p, q :: AllSpace(p) && AllSpace(q) && s == p + Trim(s) + q
  {
    var i := SkipSpace(s, 0);
    var e := SkipSpaceBack(s, i, |s|);
    assert AllSpace(s[..i]) && AllSpace(s[e..]);
    assert s == s[..i] + s[i..e] + s[e..];
  }

  /** Conversely, whenever `s` is white space, then a middle part that is
      empty or neither starts nor ends with white space, then white space,
      that middle part is what `trim` returns. */
  lemma TrimUnique(p: string, m: string, q: string)
    requires AllSpace(p) && AllSpace(q)
    requires m == [] || (!IsSpace(m[0]) && !IsSpace(m[|m| - 1]))
    ensures Trim(p + m + q) == m
  {
    var s := p + m + q;
    assert forall k :: 0 <= k < |p| ==> s[k] == p[k];
    assert forall k :: |p| + |m| <= k < |s| ==> s[k] == q[k - |p| - |m|];
    if m == [] {
      assert AllSpace(s);
    } else {
      var i := SkipSpace(s, 0);
      assert s[|p|] == m[0];
      assert i == |p|;
      var e := SkipSpaceBack(s, i, |s|);
      assert s[|p| + |m| - 1] == m[|m| - 1];
      assert e == |p| + |m|;
      assert s[i..e] == m;
    }
  }

  predicate IsDigit(c: char) {
    '0' <= c <= '9'
  }

  predicate IsDigitString(s: string) {
    s != [] && forall k :: 0 <= k < |s| ==> IsDigit(s[k])
  }

  /** The longest run of decimal digits at the start of `s` (what `\d+`
      matches greedily). */
  function DigitRun(s: string): (r: string)
    ensures |r| <= |s| && r == s[..|r|]
    ensures forall k :: 0 <= k < |r| ==> IsDigit(r[k])
    ensures |r| < |s| ==> !IsDigit(s[|r|])
    decreases |s|
  {
    if s != [] && IsDigit(s[0]) then
      var tail := DigitRun(s[1..]);
      [s[0]] + tail
    else []
  }

  /** `i=` followed by at least one digit starts at index `k`. */
  predicate IdMatchAt(s: string, k: nat) {
    k + 2 < |s| && s[k] == 'i' && s[k + 1] == '=' && IsDigit(s[k + 2])
  }

  /** Where the leftmost match of `/i=(\d+)/` at or after `from` starts. */
  function IdMatchFrom(s: string, from: nat): (r: Option<nat>)
    ensures r.Some? ==> from <= r.value && IdMatchAt(s, r.value)
    ensures r.Some? ==> forall j: nat :: from <= j < r.value ==> !IdMatchAt(s, j)
    ensures r.None? ==> forall j: nat :: from <= j ==> !IdMatchAt(s, j)
    decreases |s| - from
  {
    if from + 2 >= |s| then None
    else if IdMatchAt(s, from) then Some(from)
    else IdMatchFrom(s, from + 1)
  }

  /** `s.match(/i=(\d+)/)?.[1]`: the digits of the leftmost `i=<digits>`,
      taken greedily; None when `s` has no `i=` followed by a digit. The
      result is the maximal run of digits right after the leftmost `i=`
      that a digit follows. */
  function MatchId(s: string): (r: Option<string>)
    ensures r.None? <==> forall j: nat :: !IdMatchAt(s, j)
    ensures r.Some? ==> IsDigitString(r.value)
    ensures r.Some? ==> (exists k: nat ::
      IdMatchAt(s, k) && (forall j: nat :: j < k ==> !IdMatchAt(s, j)) &&
      k + 2 + |r.value| <= |s| && r.value == s[k + 2..k + 2 + |r.value|] &&
      (k + 2 + |r.value| < |s| ==> !IsDigit(s[k + 2 + |r.value|])))
  {
    match IdMatchFrom(s, 0)
    case None => None
    case Some(k) =>
      var d := DigitRun(s[k + 2..]);
      assert d != [] by { assert IsDigit(s[k + 2..][0]); }
      Some(d)
  }

  function DigitValue(c: char): nat
    requires IsDigit(c)
  {
    (c as int - '0' as int) as nat
  }

  function DigitChar(d: nat): (c: char)
    requires d < 10
    ensures IsDigit(c) && DigitValue(c) == d
  {
    ('0' as int + d) as char
  }

  /** `parseInt` of a string of decimal digits (leading zeros allowed). */
  function ParseDigits(s: string): nat
    requires forall k :: 0 <= k < |s| ==> IsDigit(s[k])
    decreases |s|
  {
    if s == [] then 0 else 10 * ParseDigits(s[..|s| - 1]) + DigitValue(s[|s| - 1])
  }

  /** The decimal text of a natural number, as a template literal shows it. */
  function NatToString(n: nat): (r: string)
    ensures IsDigitString(r)
    ensures n > 0 ==> r[0] != '0'
    ensures r[0] != '0' || r == "0"
    decreases n
  {
    if n < 10 then [DigitChar(n)] else NatToString(n / 10) + [DigitChar(n % 10)]
  }

  /** The decimal text of an integer, with a leading '-' when negative. */
  function IntToString(i: int): string {
    if i < 0 then "-" + NatToString(-i) else NatToString(i)
  }

  /** Reading back the decimal text of a number gives the number. */
  lemma {:induction false} ParseNatToString(n: nat)
    ensures ParseDigits(NatToString(n)) == n
    decreases n
  {
    if n >= 10 {
      ParseNatToString(n / 10);
      var s := NatToString(n);
      assert s[..|s| - 1] == NatToString(n / 10);
    }
  }
}
