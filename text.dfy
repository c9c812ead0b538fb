/** String primitives shared by the whole model.

    Strings are `seq<char>`. The character classes follow ECMAScript: `\s` in a
    regular expression and the characters `trim`/`trimEnd` remove are the same
    set (WhiteSpace and LineTerminator), and `.` without the `s` flag matches
    every character except a LineTerminator. */
module Text {

  datatype Option<T> = None | Some(value: T)

  /** ECMAScript WhiteSpace or LineTerminator: what `\s` matches and what `trim` removes. */
  predicate IsSpace(c: char) {
    c == '\t' || c == '\n' || c == '\U{000B}' || c == '\U{000C}' || c == '\r' || c == ' '
    || c == '\U{00A0}' || c == '\U{1680}' || ('\U{2000}' <= c <= '\U{200A}')
    || c == '\U{2028}' || c == '\U{2029}' || c == '\U{202F}' || c == '\U{205F}'
    || c == '\U{3000}' || c == '\U{FEFF}'
  }

  /** ECMAScript LineTerminator: the characters `.` does not match. */
  predicate IsLineBreak(c: char) {
    c == '\n' || c == '\r' || c == '\U{2028}' || c == '\U{2029}'
  }

  /** `\d`: an ASCII decimal digit. */
  predicate IsDigit(c: char) {
    '0' <= c <= '9'
  }

  predicate NoLineBreak(s: string) {
    forall k :: 0 <= k < |s| ==> !IsLineBreak(s[k])
  }

  predicate AllDigits(s: string) {
    forall k :: 0 <= k < |s| ==> IsDigit(s[k])
  }

  predicate StartsWith(s: string, prefix: string) {
    |prefix| <= |s| && s[..|prefix|] == prefix
  }

  predicate EndsWith(s: string, suffix: string) {
    |suffix| <= |s| && s[|s| - |suffix|..] == suffix
  }

  /** `prefix` occurs in `s` at position `i`. */
  predicate OccursAt(s: string, i: nat, p: string) {
    i + |p| <= |s| && s[i..i + |p|] == p
  }

  /** The first position at or after `from` where `p` occurs (`indexOf`). */
  function IndexOf(s: string, p: string, from: nat := 0): (r: Option<nat>)
    requires from <= |s|
    ensures r.Some? ==> from <= r.value && OccursAt(s, r.value, p)
    ensures r.Some? ==> forall k :: from <= k < r.value ==> !OccursAt(s, k, p)
    ensures r.None? ==> forall k :: from <= k <= |s| ==> !OccursAt(s, k, p)
    decreases |s| - from
  {
    if OccursAt(s, from, p) then Some(from)
    else if from == |s| then None
    else IndexOf(s, p, from + 1)
  }

  /** The first occurrence is the one with no occurrence before it. */
  lemma IndexOfFirst(s: string, p: string, i: nat)
    requires OccursAt(s, i, p) && forall k :: 0 <= k < i ==> !OccursAt(s, k, p)
    ensures IndexOf(s, p) == Some(i)
  {
  }

  /** A text whose characters all differ from the first one of `p` does not hold `p`. */
  lemma IndexOfAbsent(s: string, p: string)
    requires p != [] && forall k :: 0 <= k < |s| ==> s[k] != p[0]
    ensures IndexOf(s, p).None?
  {
    forall i: nat | i <= |s| ensures !OccursAt(s, i, p) {
      if i + |p| <= |s| {
        assert s[i..i + |p|][0] == s[i];
      }
    }
  }

  /** An occurrence of a concatenation is an occurrence of each part. */
  lemma OccursSplit(s: string, i: nat, a: string, b: string)
    requires OccursAt(s, i, a + b)
    ensures OccursAt(s, i, a) && OccursAt(s, i + |a|, b)
  {
    assert s[i..i + |a|] == s[i..i + |a| + |b|][..|a|];
    assert s[i + |a|..i + |a| + |b|] == s[i..i + |a| + |b|][|a|..];
  }

  /** Two occurrences side by side are an occurrence of the concatenation. */
  lemma OccursJoin(s: string, i: nat, a: string, b: string)
    requires OccursAt(s, i, a) && OccursAt(s, i + |a|, b)
    ensures OccursAt(s, i, a + b)
  {
    assert s[i..i + |a| + |b|] == s[i..i + |a|] + s[i + |a|..i + |a| + |b|];
  }

  /** An occurrence inside a common prefix is an occurrence in both texts. */
  lemma OccursInPrefix(s: string, t: string, n: nat, k: nat, p: string)
    requires n <= |s| && n <= |t| && s[..n] == t[..n] && k + |p| <= n
    ensures OccursAt(s, k, p) <==> OccursAt(t, k, p)
  {
    assert s[k..k + |p|] == s[..n][k..k + |p|];
    assert t[k..k + |p|] == t[..n][k..k + |p|];
  }

  predicate Contains(s: string, p: string) {
    IndexOf(s, p).Some?
  }

  /** The first position in `lo..hi` that satisfies `p`: how a lazy
      quantifier settles on the shortest extent that lets the rest match. */
  function FirstWhere(lo: nat, hi: nat, p: nat -> bool): (r: Option<nat>)
    requires lo <= hi
    ensures r.Some? ==> lo <= r.value <= hi && p(r.value)
    ensures r.Some? ==> forall k :: lo <= k < r.value ==> !p(k)
    ensures r.None? ==> forall k :: lo <= k <= hi ==> !p(k)
    decreases hi - lo
  {
    if p(lo) then Some(lo) else if lo == hi then None else FirstWhere(lo + 1, hi, p)
  }

  /** The last position in `0..i` that satisfies `p`: how a greedy
      quantifier settles on the longest extent that lets the rest match. */
  function LastWhere(i: nat, p: nat -> bool): (r: Option<nat>)
    ensures r.Some? ==> r.value <= i && p(r.value)
    ensures r.Some? ==> forall k :: r.value < k <= i ==> !p(k)
    ensures r.None? ==> forall k :: 0 <= k <= i ==> !p(k)
  {
    if p(i) then Some(i) else if i == 0 then None else LastWhere(i - 1, p)
  }

  /** The end of the maximal run of characters satisfying `inRun` that starts at `i`. */
  function RunEnd(s: string, i: nat, inRun: char -> bool): (e: nat)
    requires i <= |s|
    ensures i <= e <= |s|
    ensures forall k :: i <= k < e ==> inRun(s[k])
    ensures e == |s| || !inRun(s[e])
    decreases |s| - i
  {
    if i < |s| && inRun(s[i]) then RunEnd(s, i + 1, inRun) else i
  }

  /** The first position at or after `i` that does not hold whitespace. */
  function SkipSpaces(s: string, i: nat): (e: nat)
    requires i <= |s|
    ensures i <= e <= |s|
    ensures forall k :: i <= k < e ==> IsSpace(s[k])
    ensures e == |s| || !IsSpace(s[e])
  {
    RunEnd(s, i, IsSpace)
  }

  /** An occurrence of a text made of class characters, followed by a
      character outside the class or by the end, is a whole run. */
  lemma RunOver(s: string, i: nat, x: string, p: char -> bool)
    requires OccursAt(s, i, x) && (forall k :: 0 <= k < |x| ==> p(x[k]))
    requires i + |x| == |s| || !p(s[i + |x|])
    ensures RunEnd(s, i, p) == i + |x|
  {
    forall k | i <= k < i + |x| ensures p(s[k]) {
      assert s[k] == s[i..i + |x|][k - i];
    }
    RunEndAt(s, i, |x|, p);
  }

  /** A run of `n` characters in the class, followed by one outside it or by the end. */
  lemma {:induction false} RunEndAt(s: string, i: nat, n: nat, p: char -> bool)
    requires i + n <= |s| && (forall k :: i <= k < i + n ==> p(s[k])) && (i + n == |s| || !p(s[i + n]))
    ensures RunEnd(s, i, p) == i + n
    decreases n
  {
    if n > 0 {
      RunEndAt(s, i + 1, n - 1, p);
    }
  }

  /** `trimEnd`: drop trailing whitespace. */
  function TrimEnd(s: string): (r: string)
    ensures |r| <= |s| && r == s[..|r|]
    ensures forall k :: |r| <= k < |s| ==> IsSpace(s[k])
    ensures r == [] || !IsSpace(r[|r| - 1])
  {
    if s != [] && IsSpace(s[|s| - 1]) then TrimEnd(s[..|s| - 1]) else s
  }

  /** `trim`: drop leading and trailing whitespace. */
  function Trim(s: string): (r: string)
    ensures r == [] || (!IsSpace(r[0]) && !IsSpace(r[|r| - 1]))
    ensures exists i, j :: 0 <= i <= j <= |s| && r == s[i..j]
                           && (forall k :: 0 <= k < i ==> IsSpace(s[k]))
                           && (forall k :: j <= k < |s| ==> IsSpace(s[k]))
  {
    var i := SkipSpaces(s, 0);
    var r := TrimEnd(s[i..]);
    assert r == s[i..i + |r|];
    r
  }

  /** `replaceAll(c, rep)` for a one-character pattern: every `c` becomes `rep`. */
  function ReplaceAllChar(s: string, c: char, rep: string): (r: string)
    ensures c !in s ==> r == s
  {
    if s == [] then []
    else (if s[0] == c then rep else [s[0]]) + ReplaceAllChar(s[1..], c, rep)
  }

  lemma {:induction false} ReplaceAllCharAppend(a: string, b: string, c: char, rep: string)
    ensures ReplaceAllChar(a + b, c, rep) == ReplaceAllChar(a, c, rep) + ReplaceAllChar(b, c, rep)
  {
    if a != [] {
      var h := if a[0] == c then rep else [a[0]];
      assert (a + b)[0] == a[0] && (a + b)[1..] == a[1..] + b;
      calc {
        ReplaceAllChar(a + b, c, rep);
        h + ReplaceAllChar(a[1..] + b, c, rep);
        { ReplaceAllCharAppend(a[1..], b, c, rep); }
        h + (ReplaceAllChar(a[1..], c, rep) + ReplaceAllChar(b, c, rep));
        (h + ReplaceAllChar(a[1..], c, rep)) + ReplaceAllChar(b, c, rep);
      }
    } else {
      assert a + b == b;
    }
  }

  /** Replacing a character by a single character works position by position. */
  lemma {:induction false} ReplaceAllCharPointwise(s: string, c: char, d: char)
    ensures |ReplaceAllChar(s, c, [d])| == |s|
    ensures forall k :: 0 <= k < |s| ==>
      ReplaceAllChar(s, c, [d])[k] == if s[k] == c then d else s[k]
  {
    if s != [] {
      ReplaceAllCharPointwise(s[1..], c, d);
    }
  }

  /** `replace(p, rep)` with a string pattern: only the first occurrence of `p` is replaced. */
  function ReplaceFirst(s: string, p: string, rep: string): (r: string)
    ensures IndexOf(s, p).None? ==> r == s
    ensures IndexOf(s, p).Some? ==>
      var i := IndexOf(s, p).value;
      r == s[..i] + rep + s[i + |p|..]
  {
    match IndexOf(s, p)
    case None => s
    case Some(i) => s[..i] + rep + s[i + |p|..]
  }

  /** The value of a decimal digit string (`parseInt` of a string of digits). */
  function DecimalValue(d: string): (n: nat)
    requires AllDigits(d)
  {
    if d == [] then 0 else 10 * DecimalValue(d[..|d| - 1]) + (d[|d| - 1] - '0') as nat
  }

  /** The decimal numeral of a natural number (`Number.prototype.toString`). */
  function DecimalString(n: nat): (d: string)
    ensures |d| > 0 && AllDigits(d)
    ensures |d| > 1 ==> d[0] != '0'
  {
    if n < 10 then [('0' as int + n) as char]
    else DecimalString(n / 10) + [('0' as int + n % 10) as char]
  }

  lemma {:induction false} DecimalRoundTrip(n: nat)
    ensures DecimalValue(DecimalString(n)) == n
  {
    var d := DecimalString(n);
    if n >= 10 {
      DecimalRoundTrip(n / 10);
      assert d[..|d| - 1] == DecimalString(n / 10);
    }
  }

  lemma {:induction false} DecimalStringInjective(m: nat, n: nat)
    requires DecimalString(m) == DecimalString(n)
    ensures m == n
  {
    DecimalRoundTrip(m);
    DecimalRoundTrip(n);
  }

  /** A digit string without a leading zero is the decimal rendering of its value. */
  lemma {:induction false} DecimalValueRoundTrip(d: string)
    requires |d| > 0 && AllDigits(d) && (|d| > 1 ==> d[0] != '0')
    ensures DecimalString(DecimalValue(d)) == d
  {
    if |d| > 1 {
      var p := d[..|d| - 1];
      assert p[0] == d[0];
      DecimalValueRoundTrip(p);
      DecimalValuePositive(p);
      assert d == p + [d[|d| - 1]];
    }
  }

  lemma {:induction false} DecimalValuePositive(d: string)
    requires |d| > 0 && AllDigits(d) && d[0] != '0'
    ensures DecimalValue(d) >= 1
  {
    if |d| > 1 {
      var p := d[..|d| - 1];
      assert p[0] == d[0];
      DecimalValuePositive(p);
    }
  }

  /** `split("\n")`: the pieces between line feeds; there is always one more
      piece than there are line feeds, so the empty text gives one empty line. */
  function SplitLines(s: string): (r: seq<string>)
    ensures |r| >= 1
    ensures forall k :: 0 <= k < |r| ==> '\n' !in r[k]
  {
    if s == [] then [[]]
    else
      var rest := SplitLines(s[1..]);
      if s[0] == '\n' then [[]] + rest
      else
        assert forall k :: 1 <= k < |rest| ==> '\n' !in rest[k];
        [[s[0]] + rest[0]] + rest[1..]
  }

  /** `join("\n")` of a nonempty list of lines. */
  function JoinLines(lines: seq<string>): string
    requires |lines| >= 1
  {
    if |lines| == 1 then lines[0] else lines[0] + "\n" + JoinLines(lines[1..])
  }

  /** Splitting loses nothing: joining the pieces gives the text back. */
  lemma {:induction false} JoinSplitLines(s: string)
    ensures JoinLines(SplitLines(s)) == s
  {
    if s != [] {
      var rest := SplitLines(s[1..]);
      JoinSplitLines(s[1..]);
      if s[0] == '\n' {
        assert ([[]] + rest)[1..] == rest;
      } else {
        var r := [[s[0]] + rest[0]] + rest[1..];
        if |rest| > 1 {
          assert r[1..] == rest[1..];
        }
        assert s == [s[0]] + s[1..];
      }
    }
  }

  /** Joining lines that hold no line feed and splitting again gives the lines back. */
  lemma {:induction false} SplitJoinLines(lines: seq<string>)
    requires |lines| >= 1 && forall k :: 0 <= k < |lines| ==> '\n' !in lines[k]
    ensures SplitLines(JoinLines(lines)) == lines
    decreases |lines|, |lines[0]|
  {
    var head := lines[0];
    if head != [] {
      var tail := [head[1..]] + lines[1..];
      assert forall k :: 1 <= k < |tail| ==> tail[k] == lines[k];
      assert head[0] in lines[0];
      SplitJoinLines(tail);
      JoinLinesFirstChar(lines);
      SplitLinesCons(head[0], JoinLines(tail));
      assert tail[1..] == lines[1..];
      assert [head[0]] + head[1..] == head;
      assert [head] + lines[1..] == lines;
    } else if |lines| > 1 {
      SplitJoinLines(lines[1..]);
      assert JoinLines(lines) == "\n" + JoinLines(lines[1..]);
      assert JoinLines(lines)[1..] == JoinLines(lines[1..]);
      assert [[]] + lines[1..] == lines;
    }
  }

  /** A first line that is not empty gives the joined text its first character. */
  lemma JoinLinesFirstChar(lines: seq<string>)
    requires |lines| >= 1 && lines[0] != []
    ensures JoinLines(lines) == [lines[0][0]] + JoinLines([lines[0][1..]] + lines[1..])
  {
    var tail := [lines[0][1..]] + lines[1..];
    JoinLinesHead(lines);
    JoinLinesHead(tail);
    assert tail[1..] == lines[1..];
    assert lines[0] == [lines[0][0]] + lines[0][1..];
  }

  /** A character other than a line break joins the first line of the rest. */
  lemma SplitLinesCons(x: char, s: string)
    requires x != '\n'
    ensures SplitLines([x] + s) == [[x] + SplitLines(s)[0]] + SplitLines(s)[1..]
  {
    assert ([x] + s)[0] == x && ([x] + s)[1..] == s;
  }

  /** The joined text starts with the first line, then continues with the rest. */
  lemma JoinLinesHead(lines: seq<string>)
    requires |lines| >= 1
    ensures JoinLines(lines) == lines[0] + (if |lines| == 1 then [] else "\n" + JoinLines(lines[1..]))
  {
  }
}
