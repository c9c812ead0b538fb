/** The editor's change handler (script.js:29-43): every maximal run of the
    characters `　＋－＊／（）：”’` in a line of the buffer becomes a warning
    annotation for CodeMirror's lint gutter. The regular expression
    `/[　＋－＊／（）：”’]+/g` is a single greedy character class, so
    `matchAll` yields exactly the maximal runs, from left to right. */
module Lint {
  import opened Text

  datatype Severity = Warning | Error

  /** A CodeMirror position: `{ line, ch }`, both counted from 0. */
  datatype Pos = Pos(line: int, ch: int)

  /** An entry of `lint_data`. */
  datatype Annotation = Annotation(severity: Severity, from: Pos, to: Pos, message: string)

  /** The character class of the lint regular expression. */
  const LintChars: string := "　＋－＊／（）：”’"

  const LintMessage: string := "全角文字が含まれています。"

  /** Membership in `LintChars`, spelt out. */
  predicate IsLintChar(c: char)
    ensures IsLintChar(c) <==> c in LintChars
  {
    c == '　' || c == '＋' || c == '－' || c == '＊' || c == '／' || c == '（' || c == '）' || c == '：' || c == '”' || c == '’'
  }

  /** A `matchAll` result: `match.index` and `match[0]`. */
  datatype Match = Match(index: nat, text: string)

  /** `from..to` is a maximal run of lint characters in `line`. */
  predicate IsMaximalRun(line: string, from: nat, to: nat) {
    from < to <= |line|
    && (forall k :: from <= k < to ==> IsLintChar(line[k]))
    && (from == 0 || !IsLintChar(line[from - 1]))
    && (to == |line| || !IsLintChar(line[to]))
  }

  /** `line.matchAll(/[　＋－＊／（）：”’]+/g)`, continuing from `j`: the
      search skips characters outside the class and takes each run whole. */
  function MatchesFrom(line: string, j: nat): (r: seq<Match>)
    requires j <= |line|
    ensures forall k :: 0 <= k < |r| ==> j <= r[k].index && r[k].index + |r[k].text| <= |line|
    decreases |line| - j
  {
    if j == |line| then []
    else if IsLintChar(line[j]) then
      var e := RunEnd(line, j, IsLintChar);
      [Match(j, line[j..e])] + MatchesFrom(line, e)
    else MatchesFrom(line, j + 1)
  }

  function Matches(line: string): seq<Match>
  {
    MatchesFrom(line, 0)
  }

  /** Each match is a maximal run, and its text is the line's text there. */
  lemma {:induction false} MatchesAreMaximalRuns(line: string, j: nat)
    requires j <= |line| && (j == 0 || !IsLintChar(line[j - 1]))
    ensures AllRuns(line, MatchesFrom(line, j))
    decreases |line| - j
  {
    if j < |line| {
      if IsLintChar(line[j]) {
        var e := RunEnd(line, j, IsLintChar);
        if e < |line| {
          MatchesFromSkip(line, e);
          MatchesAreMaximalRuns(line, e + 1);
        }
        RunIsMatch(line, j);
        MatchesFromRun(line, j);
        RunsCons(line, Match(j, line[j..e]), MatchesFrom(line, e));
      } else {
        MatchesAreMaximalRuns(line, j + 1);
        MatchesFromSkip(line, j);
      }
    }
  }

  /** The search passes over a character outside the class. */
  lemma MatchesFromSkip(line: string, j: nat)
    requires j < |line| && !IsLintChar(line[j])
    ensures MatchesFrom(line, j) == MatchesFrom(line, j + 1)
  {
  }

  /** The search takes the run that starts at `j` whole. */
  lemma MatchesFromRun(line: string, j: nat)
    requires j < |line| && IsLintChar(line[j])
    ensures var e := RunEnd(line, j, IsLintChar);
      MatchesFrom(line, j) == [Match(j, line[j..e])] + MatchesFrom(line, e)
  {
  }

  /** A run that starts after a character outside the class is maximal. */
  lemma RunIsMatch(line: string, j: nat)
    requires j < |line| && IsLintChar(line[j]) && (j == 0 || !IsLintChar(line[j - 1]))
    ensures MatchOfRun(line, Match(j, line[j..RunEnd(line, j, IsLintChar)]))
  {
  }

  /** Every match in `ms` is a maximal run of `line`. */
  predicate AllRuns(line: string, ms: seq<Match>) {
    forall k :: 0 <= k < |ms| ==> MatchOfRun(line, ms[k])
  }

  lemma RunsCons(line: string, m: Match, rest: seq<Match>)
    requires MatchOfRun(line, m) && AllRuns(line, rest)
    ensures AllRuns(line, [m] + rest)
  {
    var r := [m] + rest;
    forall k | 1 <= k < |r| ensures MatchOfRun(line, r[k]) {
      assert r[k] == rest[k - 1];
    }
  }

  /** The match is a maximal run, with the line's text there. */
  predicate MatchOfRun(line: string, m: Match) {
    IsMaximalRun(line, m.index, m.index + |m.text|) && m.text == line[m.index..m.index + |m.text|]
  }

  /** Every maximal run at or after the search position is found. */
  lemma {:induction false} MaximalRunsAreMatched(line: string, j: nat, from: nat, to: nat)
    requires j <= from && IsMaximalRun(line, from, to)
    ensures Match(from, line[from..to]) in MatchesFrom(line, j)
    decreases |line| - j
  {
    if j < from {
      if IsLintChar(line[j]) {
        var e := RunEnd(line, j, IsLintChar);
        assert !IsLintChar(line[from - 1]);
        assert e < from;
        MaximalRunsAreMatched(line, e, from, to);
      } else {
        MaximalRunsAreMatched(line, j + 1, from, to);
      }
    } else {
      RunEndAt(line, from, to - from, IsLintChar);
    }
  }

  /** The matches come from left to right, each ending before the next
      begins: at least one character outside the class separates them. */
  lemma {:induction false} MatchesOrdered(line: string, j: nat)
    requires j <= |line|
    ensures Separated(MatchesFrom(line, j))
    decreases |line| - j
  {
    if j < |line| {
      if IsLintChar(line[j]) {
        var e := RunEnd(line, j, IsLintChar);
        MatchesOrdered(line, e);
        NextMatchAfter(line, e);
        OrderedCons(Match(j, line[j..e]), MatchesFrom(line, e));
        assert MatchesFrom(line, j) == [Match(j, line[j..e])] + MatchesFrom(line, e);
      } else {
        MatchesOrdered(line, j + 1);
        assert MatchesFrom(line, j) == MatchesFrom(line, j + 1);
      }
    }
  }

  /** After a run ends at `e`, the next match starts beyond `e`. */
  lemma NextMatchAfter(line: string, e: nat)
    requires e <= |line| && (e == |line| || !IsLintChar(line[e]))
    ensures var rest := MatchesFrom(line, e); rest != [] ==> e < rest[0].index
  {
    var rest := MatchesFrom(line, e);
    if rest != [] {
      MatchStartsRun(line, e);
      assert rest[0] in rest;
    }
  }

  /** Each match ends strictly before the next one begins. */
  predicate Separated(ms: seq<Match>) {
    forall k :: 0 <= k < |ms| - 1 ==> ms[k].index + |ms[k].text| < ms[k + 1].index
  }

  lemma OrderedCons(m: Match, rest: seq<Match>)
    requires Separated(rest)
    requires rest != [] ==> m.index + |m.text| < rest[0].index
    ensures Separated([m] + rest)
  {
    var r := [m] + rest;
    forall k | 0 <= k < |r| - 1 ensures r[k].index + |r[k].text| < r[k + 1].index {
      if k > 0 {
        assert r[k] == rest[k - 1] && r[k + 1] == rest[k];
      }
    }
  }

  /** A match starts on a lint character. */
  lemma {:induction false} MatchStartsRun(line: string, j: nat)
    requires j <= |line|
    ensures forall m :: m in MatchesFrom(line, j) ==> m.index < |line| && IsLintChar(line[m.index])
    decreases |line| - j
  {
    if j < |line| {
      if IsLintChar(line[j]) {
        MatchStartsRun(line, RunEnd(line, j, IsLintChar));
      } else {
        MatchStartsRun(line, j + 1);
      }
    }
  }

  /** The warning one match produces on line `i`. */
  function Warn(i: nat, m: Match): (a: Annotation)
    ensures a.severity == Warning && a.from.line == i && a.to.line == i && a.message == LintMessage
    ensures a.to.ch - a.from.ch == |m.text|
  {
    Annotation(Warning, Pos(i, m.index), Pos(i, m.index + |m.text|), LintMessage)
  }

  /** The warnings of the matches `ms` of line `i`, in order. */
  function WarnAll(i: nat, ms: seq<Match>): (r: seq<Annotation>)
    ensures |r| == |ms| && forall k :: 0 <= k < |ms| ==> r[k] == Warn(i, ms[k])
  {
    if ms == [] then [] else WarnAll(i, ms[..|ms| - 1]) + [Warn(i, ms[|ms| - 1])]
  }

  /** `lint_data` after the handler has scanned `lines`: the warnings of line 0,
      then those of line 1, and so on. */
  function LintWarnings(lines: seq<string>): seq<Annotation>
  {
    if lines == [] then []
    else LintWarnings(lines[..|lines| - 1]) + WarnAll(|lines| - 1, Matches(lines[|lines| - 1]))
  }

  /** Scanning one more line appends that line's warnings. */
  lemma LintWarningsStep(lines: seq<string>, i: nat)
    requires i < |lines|
    ensures LintWarnings(lines[..i + 1]) == LintWarnings(lines[..i]) + WarnAll(i, Matches(lines[i]))
  {
    assert lines[..i + 1][..i] == lines[..i];
  }

  /** Pushing the warning of one more match appends it. */
  lemma WarnAllStep(i: nat, ms: seq<Match>, j: nat)
    requires j < |ms|
    ensures WarnAll(i, ms[..j + 1]) == WarnAll(i, ms[..j]) + [Warn(i, ms[j])]
  {
    assert ms[..j + 1][..j] == ms[..j];
  }

  /** Every warning marks a maximal run of lint characters on an existing line. */
  lemma {:induction false} LintWarningsSound(lines: seq<string>)
    ensures forall a :: a in LintWarnings(lines) ==>
      a.severity == Warning && a.message == LintMessage && a.from.line == a.to.line
      && 0 <= a.from.line < |lines| && a.from.ch >= 0 && a.to.ch >= 0
      && IsMaximalRun(lines[a.from.line], a.from.ch, a.to.ch)
  {
    if lines != [] {
      var n := |lines| - 1;
      LintWarningsSound(lines[..n]);
      LineWarningsSound(n, lines[n]);
      forall a | a in LintWarnings(lines[..n]) ensures lines[..n][a.from.line] == lines[a.from.line] { }
    }
  }

  /** The warnings of one line mark its maximal runs. */
  lemma LineWarningsSound(n: nat, line: string)
    ensures forall a :: a in WarnAll(n, Matches(line)) ==>
      a.severity == Warning && a.message == LintMessage && a.from.line == n == a.to.line
      && a.from.ch >= 0 && a.to.ch >= 0 && IsMaximalRun(line, a.from.ch, a.to.ch)
  {
    var ms := Matches(line);
    var ws := WarnAll(n, ms);
    forall a | a in ws
      ensures a.from.ch >= 0 && a.to.ch >= 0 && IsMaximalRun(line, a.from.ch, a.to.ch)
    {
      var k :| 0 <= k < |ws| && ws[k] == a;
      WarnOfRun(n, line, k);
    }
  }

  lemma WarnOfRun(n: nat, line: string, k: nat)
    requires k < |MatchesFrom(line, 0)|
    ensures var a := Warn(n, MatchesFrom(line, 0)[k]);
      a.from.ch >= 0 && a.to.ch >= 0 && IsMaximalRun(line, a.from.ch, a.to.ch)
  {
    MatchAt(line, k);
  }

  lemma MatchAt(line: string, k: nat)
    requires k < |MatchesFrom(line, 0)|
    ensures MatchOfRun(line, MatchesFrom(line, 0)[k])
  {
    MatchesAreMaximalRuns(line, 0);
  }

  /** On one line the warnings come in increasing column order, and each
      ends before the next begins. */
  lemma LineWarningsOrdered(n: nat, line: string)
    ensures var ws := WarnAll(n, Matches(line));
      forall k :: 0 <= k < |ws| - 1 ==> ws[k].to.ch < ws[k + 1].from.ch
  {
    var ms := Matches(line);
    MatchesOrdered(line, 0);
    assert Separated(ms);
  }

  /** Every maximal run of lint characters on every line is marked. */
  lemma {:induction false} LintWarningsComplete(lines: seq<string>, i: nat, from: nat, to: nat)
    requires i < |lines| && IsMaximalRun(lines[i], from, to)
    ensures Annotation(Warning, Pos(i, from), Pos(i, to), LintMessage) in LintWarnings(lines)
  {
    var n := |lines| - 1;
    if i < n {
      assert lines[..n][i] == lines[i];
      LintWarningsComplete(lines[..n], i, from, to);
    } else {
      MaximalRunsAreMatched(lines[n], 0, from, to);
      var ms := Matches(lines[n]);
      var k :| 0 <= k < |ms| && ms[k] == Match(from, lines[n][from..to]);
      assert WarnAll(n, ms)[k] == Annotation(Warning, Pos(i, from), Pos(i, to), LintMessage);
    }
  }
}
