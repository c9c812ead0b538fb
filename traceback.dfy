/** `analyze(error)` (script.js:201-216): pull the location and the exception
    out of a Python traceback.

    Two regular expressions do the work. The first collapses the part of a
    traceback between its header and the first frame of the live buffer
    `<exec>`; the second finds the LAST frame line that is followed by an
    `Type: message` line ending the text. Each regex is modelled by the
    choices its backtracking search makes: a lazy group becomes "the first
    position from which the rest matches", a leading greedy `[\s\S]*` "the
    last such position", and a greedy run followed by a character outside
    its class can only stop at the end of the run. */
module Traceback {
  import opened Text

  /** `(PythonError: Traceback \(most recent call last\):)`. */
  const Header: string := "PythonError: Traceback " + "(most recent call last):"
  /** `File "<exec>", line ` after the leading whitespace of a frame of the live buffer. */
  const ExecFrame: string := "File \"<exec>\", line "

  /** `(\s+File "<exec>", line \d)` matches at `j`. The run of whitespace
      is greedy and followed by `F`, so only its full extent can work. */
  predicate ExecFrameAt(s: string, j: nat)
    requires j <= |s|
  {
    j < |s| && IsSpace(s[j]) &&
    var e := SkipSpaces(s, j);
    OccursAt(s, e, ExecFrame) && e + |ExecFrame| < |s| && IsDigit(s[e + |ExecFrame|])
  }

  /** The lazy `.*?`: the first position at or after `j` where the frame matches. */
  function FirstExecFrame(s: string, j: nat): (r: Option<nat>)
    requires j <= |s|
    ensures r.Some? ==> j <= r.value <= |s| && ExecFrameAt(s, r.value)
    ensures r.Some? ==> forall k :: j <= k < r.value ==> !ExecFrameAt(s, k)
    ensures r.None? ==> forall k :: j <= k <= |s| ==> !ExecFrameAt(s, k)
  {
    var p := (k: nat) => k <= |s| && ExecFrameAt(s, k);
    var r := FirstWhere(j, |s|, p);
    FirstExecFrameFound(s, j, p, r);
    r
  }

  lemma FirstExecFrameFound(s: string, j: nat, p: nat -> bool, r: Option<nat>)
    requires j <= |s| && r == FirstWhere(j, |s|, p)
    requires forall k: nat :: p(k) == (k <= |s| && ExecFrameAt(s, k))
    ensures r.Some? ==> j <= r.value <= |s| && ExecFrameAt(s, r.value)
    ensures r.Some? ==> forall k :: j <= k < r.value ==> !ExecFrameAt(s, k)
    ensures r.None? ==> forall k :: j <= k <= |s| ==> !ExecFrameAt(s, k)
  {
    if r.Some? {
      assert p(r.value);
      forall k | j <= k < r.value ensures !ExecFrameAt(s, k) { assert !p(k); }
    } else {
      forall k | j <= k <= |s| ensures !ExecFrameAt(s, k) { assert !p(k); }
    }
  }

  /** Where the first `replace` of `analyze` cuts: after the first header,
      up to the first frame of `<exec>` that follows it. Only the first header
      can start a match: a frame that follows a later header also follows
      the first one. */
  function CollapseSpan(error: string): (r: Option<(nat, nat)>)
    ensures r.Some? ==> |Header| <= r.value.0 <= r.value.1 <= |error|
    ensures r.Some? ==> OccursAt(error, r.value.0 - |Header|, Header) && ExecFrameAt(error, r.value.1)
    ensures r.Some? ==> forall k :: r.value.0 <= k < r.value.1 ==> !ExecFrameAt(error, k)
    ensures IndexOf(error, Header).None? ==> r.None?
  {
    match IndexOf(error, Header)
    case None => None
    case Some(i) =>
      match FirstExecFrame(error, i + |Header|)
      case None => None
      case Some(j) => Some((i + |Header|, j))
  }

  /** The first `replace` of `analyze`, which rewrites its match to `$1$2`:
      the text between the header and the frame is deleted, so that the
      frame follows the header directly. */
  function CollapsePreamble(error: string): (r: string)
    ensures CollapseSpan(error).None? ==> r == error
    ensures CollapseSpan(error).Some? ==>
      var (h, j) := CollapseSpan(error).value;
      |r| == |error| - (j - h) && r[..h] == error[..h] && r[h..] == error[j..] && ExecFrameAt(r, h)
  {
    match CollapseSpan(error)
    case None => error
    case Some((h, j)) =>
      var r := error[..h] + error[j..];
      assert r[h..] == error[j..];
      ShiftedFrame(error, j, r, h);
      r
  }

  /** A match of the frame pattern depends only on the text from its start on. */
  lemma ShiftedFrame(s: string, j: nat, t: string, h: nat)
    requires j <= |s| && h <= |t| && t[h..] == s[j..] && ExecFrameAt(s, j)
    ensures ExecFrameAt(t, h)
  {
    assert t[h] == t[h..][0] == s[j..][0] == s[j];
    var e := SkipSpaces(s, j);
    RunEndShift(s, j, t, h, IsSpace);
    var e2 := SkipSpaces(t, h);
    assert e2 == h + (e - j);
    var n := |ExecFrame|;
    assert t[e2..e2 + n] == t[h..][e - j..e - j + n] == s[j..][e - j..e - j + n] == s[e..e + n];
    assert t[e2 + n] == t[h..][e - j + n] == s[j..][e - j + n] == s[e + n];
  }

  /** A run's length depends only on the text from its start on. */
  lemma {:induction false} RunEndShift(s: string, i: nat, t: string, k: nat, p: char -> bool)
    requires i <= |s| && k <= |t| && s[i..] == t[k..]
    ensures RunEnd(s, i, p) - i == RunEnd(t, k, p) - k
    decreases |s| - i
  {
    if i < |s| {
      assert s[i] == s[i..][0] == t[k..][0] == t[k];
      assert s[i + 1..] == s[i..][1..] == t[k..][1..] == t[k + 1..];
      RunEndShift(s, i + 1, t, k + 1, p);
    }
  }

  /** Collapsing is idempotent: the collapsed text keeps the header where it
      was and has the frame right after it, so a second pass deletes nothing. */
  lemma CollapseIdempotent(error: string)
    ensures CollapsePreamble(CollapsePreamble(error)) == CollapsePreamble(error)
  {
    var r := CollapsePreamble(error);
    if CollapseSpan(error).Some? {
      var h := CollapseSpan(error).value.0;
      CollapsedSpan(error, r, h);
      assert r[..h] + r[h..] == r;
    }
  }

  /** In the collapsed text the header is followed directly by the frame. */
  lemma CollapsedSpan(error: string, r: string, h: nat)
    requires CollapseSpan(error).Some? && h == CollapseSpan(error).value.0
    requires h <= |r| && r[..h] == error[..h] && ExecFrameAt(r, h)
    ensures CollapseSpan(r) == Some((h, h))
  {
    var i := h - |Header|;
    SpanAfterHeader(error);
    HeaderKept(error, r, i);
    IndexOfFirst(r, Header, i);
    FrameRightThere(r, h);
    SpanOfHeaderAndFrame(r, i);
  }

  /** The cut starts right after the first header. */
  lemma SpanAfterHeader(error: string)
    requires CollapseSpan(error).Some?
    ensures IndexOf(error, Header) == Some(CollapseSpan(error).value.0 - |Header|)
  {
    match IndexOf(error, Header)
    case Some(i) =>
      assert CollapseSpan(error).value.0 == i + |Header|;
  }

  /** A first header followed at once by a frame leaves nothing to cut. */
  lemma SpanOfHeaderAndFrame(s: string, i: nat)
    requires IndexOf(s, Header) == Some(i) && i + |Header| <= |s|
    requires FirstExecFrame(s, i + |Header|) == Some(i + |Header|)
    ensures CollapseSpan(s) == Some((i + |Header|, i + |Header|))
  {
  }

  /** A frame that starts where the search starts is the one found. */
  lemma FrameRightThere(s: string, j: nat)
    requires j <= |s| && ExecFrameAt(s, j)
    ensures FirstExecFrame(s, j) == Some(j)
  {
  }

  /** A first header that is kept in a prefix stays the first header. */
  lemma HeaderKept(error: string, r: string, i: nat)
    requires IndexOf(error, Header) == Some(i) && i + |Header| <= |r| && r[..i + |Header|] == error[..i + |Header|]
    ensures OccursAt(r, i, Header) && forall k :: 0 <= k < i ==> !OccursAt(r, k, Header)
  {
    var h := i + |Header|;
    OccursInPrefix(error, r, h, i, Header);
    forall k | 0 <= k < i ensures !OccursAt(r, k, Header) {
      OccursInPrefix(error, r, h, k, Header);
    }
  }

  /** `  File "`: the frame line of the second regex starts with two spaces. */
  const FrameOpen: string := "  File \""
  /** `", line `. */
  const LineSep: string := "\", line "
  /** `, in `. */
  const ScopeSep: string := ", in "

  /** `[^"]`. */
  predicate NotQuote(c: char) { c != '"' }
  /** `\S`. */
  predicate NotSpace(c: char) { !IsSpace(c) }
  /** `[^:\s]`. */
  predicate TypeChar(c: char) { c != ':' && !IsSpace(c) }

  /** What `analyze` returns when the traceback has a location: the file
      name, `parseInt` of the line number, the optional scope (`in_`), the
      snippet between the frame line and the exception line (`script`),
      the exception type and the message. */
  datatype Location = Location(fileName: string, lineno: nat, scope: Option<string>, snippet: string,
                               errorType: string, message: string)

  /** `[original_error, ...]`: the cleaned traceback and, when the second
      regex matches, the location; `None` stands for the six `null`s. */
  datatype Analysis = Analysis(original: string, location: Option<Location>)

  /** The captures of a successful match, as the character classes shape them. */
  predicate Wellformed(loc: Location) {
    loc.fileName != [] && (forall k :: 0 <= k < |loc.fileName| ==> NotQuote(loc.fileName[k]))
    && (loc.scope.Some? ==>
         loc.scope.value != [] && forall k :: 0 <= k < |loc.scope.value| ==> NotSpace(loc.scope.value[k]))
    && loc.errorType != [] && (forall k :: 0 <= k < |loc.errorType| ==> TypeChar(loc.errorType[k]))
    && NoLineBreak(loc.message) && (loc.message == [] || !IsSpace(loc.message[0]))
  }

  /** The exception line `ty: msg` starts at `t` and ends the text: the type
      and a colon, then only whitespace, then the message. */
  predicate ExceptionLine(s: string, t: nat, ty: string, msg: string) {
    OccursAt(s, t, ty + ":") && t + |ty| + 1 + |msg| <= |s| && EndsWith(s, msg)
    && forall k :: t + |ty| + 1 <= k < |s| - |msg| ==> IsSpace(s[k])
  }

  /** `([^:\s]+):\s*(.*)$` at `t`: the exception type, a colon, optional
      whitespace and a message that runs to the end of the text on one line.
      The result is the type and the message. */
  function ExceptionAt(s: string, t: nat): (r: Option<(string, string)>)
    requires t <= |s|
    ensures r.Some? ==> r.value.0 != [] && (forall k :: 0 <= k < |r.value.0| ==> TypeChar(r.value.0[k]))
    ensures r.Some? ==> NoLineBreak(r.value.1) && (r.value.1 == [] || !IsSpace(r.value.1[0]))
    ensures r.Some? ==> OccursAt(s, t, r.value.0 + ":") && EndsWith(s, r.value.1)
    ensures r.Some? ==> ExceptionLine(s, t, r.value.0, r.value.1)
  {
    var te := RunEnd(s, t, TypeChar);
    if te == t || te == |s| || s[te] != ':' then None
    else
      var e := SkipSpaces(s, te + 1);
      if NoLineBreak(s[e..]) then
        assert s[t..te + 1] == s[t..te] + ":";
        Some((s[t..te], s[e..]))
      else None
  }

  /** The lazy `([\s\S]*?)`: the first position at or after `q` where the
      exception line matches. */
  function FirstException(s: string, q: nat): (r: Option<nat>)
    requires q <= |s|
    ensures r.Some? ==> q <= r.value <= |s| && ExceptionAt(s, r.value).Some?
    ensures r.Some? ==> forall t :: q <= t < r.value ==> ExceptionAt(s, t).None?
    ensures r.None? ==> forall t :: q <= t <= |s| ==> ExceptionAt(s, t).None?
  {
    var p := (t: nat) => t <= |s| && ExceptionAt(s, t).Some?;
    var r := FirstWhere(q, |s|, p);
    FirstExceptionFound(s, q, p, r);
    r
  }

  lemma FirstExceptionFound(s: string, q: nat, p: nat -> bool, r: Option<nat>)
    requires q <= |s| && r == FirstWhere(q, |s|, p)
    requires forall t: nat :: p(t) == (t <= |s| && ExceptionAt(s, t).Some?)
    ensures r.Some? ==> q <= r.value <= |s| && ExceptionAt(s, r.value).Some?
    ensures r.Some? ==> forall t :: q <= t < r.value ==> ExceptionAt(s, t).None?
    ensures r.None? ==> forall t :: q <= t <= |s| ==> ExceptionAt(s, t).None?
  {
    if r.Some? {
      assert p(r.value);
      forall t | q <= t < r.value ensures ExceptionAt(s, t).None? { assert !p(t); }
    } else {
      forall t | q <= t <= |s| ensures ExceptionAt(s, t).None? { assert !p(t); }
    }
  }

  /** The head of the frame line at `i`: `  File "([^"]+)", line (\d+)`. The
      result is the file name, the digits and the position after them. */
  function FrameHeadAt(s: string, i: nat): (r: Option<(string, string, nat)>)
    requires i <= |s|
    ensures r.Some? ==> OccursAt(s, i, FrameOpen + r.value.0 + LineSep + r.value.1)
    ensures r.Some? ==> r.value.1 != [] && AllDigits(r.value.1) && r.value.2 <= |s|
  {
    if !OccursAt(s, i, FrameOpen) then None
    else
      var f0: nat := i + |FrameOpen|;
      var fe: nat := RunEnd(s, f0, NotQuote);
      if fe == f0 || !OccursAt(s, fe, LineSep) then None
      else
        var d0: nat := fe + |LineSep|;
        var de: nat := RunEnd(s, d0, IsDigit);
        if de == d0 then None
        else
          FrameLine(s, i, f0, fe, d0, de);
          Some((s[f0..fe], s[d0..de], de))
  }

  /** The rest of the frame line at `de`: `(?:, in (\S+))?\n`. The result is
      the scope and the position after the line break. */
  function ScopeAt(s: string, de: nat): (r: Option<(Option<string>, nat)>)
    requires de <= |s|
    ensures r.Some? ==> r.value.1 <= |s|
  {
    if OccursAt(s, de, ScopeSep) then
      var s0: nat := de + |ScopeSep|;
      var se: nat := RunEnd(s, s0, NotSpace);
      if se > s0 && se < |s| && s[se] == '\n' then Some((Some(s[s0..se]), se + 1)) else None
    else if de < |s| && s[de] == '\n' then Some((None, de + 1))
    else None
  }

  /** The frame line at `i`:
      `  File "([^"]+)", line (\d+)(?:, in (\S+))?\n`. The result is the file
      name, the digits, the scope and the position after the line break. */
  function FrameAt(s: string, i: nat): (r: Option<(string, string, Option<string>, nat)>)
    requires i <= |s|
    ensures r.Some? ==> OccursAt(s, i, FrameOpen + r.value.0 + LineSep + r.value.1)
    ensures r.Some? ==> r.value.1 != [] && AllDigits(r.value.1) && r.value.3 <= |s|
  {
    match FrameHeadAt(s, i)
    case None => None
    case Some((f, d, de)) =>
      match ScopeAt(s, de)
      case None => None
      case Some((scope, q)) => Some((f, d, scope, q))
  }

  lemma FrameLine(s: string, i: nat, f0: nat, fe: nat, d0: nat, de: nat)
    requires OccursAt(s, i, FrameOpen) && f0 == i + |FrameOpen| <= fe && OccursAt(s, fe, LineSep)
    requires d0 == fe + |LineSep| <= de <= |s|
    ensures OccursAt(s, i, FrameOpen + s[f0..fe] + LineSep + s[d0..de])
  {
    OccursJoin(s, i, FrameOpen, s[f0..fe]);
    OccursJoin(s, i, FrameOpen + s[f0..fe], LineSep);
    OccursJoin(s, i, FrameOpen + s[f0..fe] + LineSep, s[d0..de]);
  }

  /** What a match of the pattern at `i` tells about its captures: they are
      well formed; the frame line at `i` holds the file name and the digits
      whose decimal value is the line number; and the exception line, at or
      after `i`, ends the text with the type and the message. */
  ghost predicate MatchedAt(s: string, i: nat, loc: Location) {
    Wellformed(loc) && EndsWith(s, loc.message)
    && (exists d :: d != [] && AllDigits(d) && loc.lineno == DecimalValue(d)
                    && OccursAt(s, i, FrameOpen + loc.fileName + LineSep + d))
    && exists t: nat :: i <= t <= |s| && ExceptionLine(s, t, loc.errorType, loc.message)
  }

  /** The whole pattern after the leading `[\s\S]*`, tried at `i`. */
  function LocationAt(s: string, i: nat): (r: Option<Location>)
    requires i <= |s|
    ensures r.Some? ==> MatchedAt(s, i, r.value)
  {
    match FrameAt(s, i)
    case None => None
    case Some((f, d, scope, q)) =>
      match FirstException(s, q)
      case None => None
      case Some(t) =>
        var (ty, msg) := ExceptionAt(s, t).value;
        Some(Location(f, DecimalValue(d), scope, s[q..t], ty, msg))
  }

  /** The greedy `[\s\S]*`: the last position at or before `i` where the rest matches. */
  function LastLocation(s: string, i: nat): (r: Option<nat>)
    requires i <= |s|
    ensures r.Some? ==> r.value <= i && LocationAt(s, r.value).Some?
    ensures r.Some? ==> forall k :: r.value < k <= i ==> LocationAt(s, k).None?
    ensures r.None? ==> forall k :: 0 <= k <= i ==> LocationAt(s, k).None?
  {
    var p := (k: nat) => k <= |s| && LocationAt(s, k).Some?;
    var r := LastWhere(i, p);
    LastLocationFound(s, i, p, r);
    r
  }

  lemma LastLocationFound(s: string, i: nat, p: nat -> bool, r: Option<nat>)
    requires i <= |s| && r == LastWhere(i, p)
    requires forall k: nat :: p(k) == (k <= |s| && LocationAt(s, k).Some?)
    ensures r.Some? ==> r.value <= i && LocationAt(s, r.value).Some?
    ensures r.Some? ==> forall k :: r.value < k <= i ==> LocationAt(s, k).None?
    ensures r.None? ==> forall k :: 0 <= k <= i ==> LocationAt(s, k).None?
  {
    if r.Some? {
      assert p(r.value);
      forall k | r.value < k <= i ensures LocationAt(s, k).None? { assert !p(k); }
    } else {
      forall k | 0 <= k <= i ensures LocationAt(s, k).None? { assert !p(k); }
    }
  }

  /** A match of the whole pattern starts at `i` and at no later position. */
  predicate LastMatchAt(s: string, i: nat)
  {
    i <= |s| && LocationAt(s, i).Some? && forall k :: i < k <= |s| ==> LocationAt(s, k).None?
  }

  /** `analyze(error)`. */
  function Analyze(error: string): (a: Analysis)
    ensures a.original == TrimEnd(CollapsePreamble(error))
    ensures a.location.None? <==> forall k :: 0 <= k <= |a.original| ==> LocationAt(a.original, k).None?
    ensures a.location.Some? ==> exists i :: LastMatchAt(a.original, i) && a.location == LocationAt(a.original, i)
  {
    var original := TrimEnd(CollapsePreamble(error));
    var last := LastLocation(original, |original|);
    if last.Some? then
      assert LastMatchAt(original, last.value);
      Analysis(original, LocationAt(original, last.value))
    else
      Analysis(original, None)
  }

  /** The location `analyze` reports is made of the captures of a match: a
      file name without quotes, a decimal line number read from the frame
      line, a one-word exception type and a one-line message that ends the
      cleaned traceback, separated from the type by a colon and whitespace
      only. */
  lemma AnalyzeSound(error: string)
    requires Analyze(error).location.Some?
    ensures var a := Analyze(error);
      exists i: nat :: i <= |a.original| && MatchedAt(a.original, i, a.location.value)
  {
    var a := Analyze(error);
    var i :| LastMatchAt(a.original, i) && a.location == LocationAt(a.original, i);
  }

  /** The text of an optional `, in scope` group. */
  function ScopeText(scope: Option<string>): (r: string)
    ensures scope.None? <==> r == []
  {
    match scope
    case None => []
    case Some(x) => ScopeSep + x
  }

  /** A frame line as Python prints it. */
  function FrameLineText(fileName: string, digits: string, scope: Option<string>): string
  {
    FrameOpen + fileName + LineSep + digits + ScopeText(scope) + "\n"
  }

  /** An exception line as Python prints it. */
  function ExceptionLineText(errorType: string, message: string): string
  {
    errorType + ": " + message
  }

  /** The traceback tail Python writes: a frame line, the source lines and the
      exception line. */
  function TracebackTail(loc: Location, digits: string): string
  {
    FrameLineText(loc.fileName, digits, loc.scope) + loc.snippet + ExceptionLineText(loc.errorType, loc.message)
  }

  /** The pattern reads back every field of a well-formed traceback tail:
      `analyze` is a left inverse of the way the frame line and the exception
      line are printed, as long as the snippet ends its last line and holds
      no colon (so that no earlier `word:` can end the lazy snippet group). */
  lemma LocationOfTail(pre: string, loc: Location, digits: string)
    requires Wellformed(loc) && digits != [] && AllDigits(digits) && loc.lineno == DecimalValue(digits)
    requires loc.snippet == [] || (loc.snippet[|loc.snippet| - 1] == '\n' && ':' !in loc.snippet)
    ensures LocationAt(pre + TracebackTail(loc, digits), |pre|) == Some(loc)
  {
    var s := pre + TracebackTail(loc, digits);
    var q, t := TailLayout(pre, loc, digits);
    LocationOfLayout(s, |pre|, q, t, loc, digits);
  }

  lemma LocationOfLayout(s: string, i: nat, q: nat, t: nat, loc: Location, digits: string)
    requires Wellformed(loc) && digits != [] && AllDigits(digits) && loc.lineno == DecimalValue(digits)
    requires loc.snippet == [] || (loc.snippet[|loc.snippet| - 1] == '\n' && ':' !in loc.snippet)
    requires q == i + |FrameLineText(loc.fileName, digits, loc.scope)| && t == q + |loc.snippet| <= |s|
    requires OccursAt(s, i, FrameLineText(loc.fileName, digits, loc.scope))
    requires s[q..t] == loc.snippet && s[t..] == ExceptionLineText(loc.errorType, loc.message)
    ensures LocationAt(s, i) == Some(loc)
  {
    ExceptionOfLine(s, t, loc);
    SnippetThenException(s, q, t, loc.snippet);
    FrameOfLine(s, i, loc, digits);
    LocationOfParts(s, i, q, t);
  }

  /** Where the three parts of a printed tail sit in the text. */
  lemma TailLayout(pre: string, loc: Location, digits: string) returns (q: nat, t: nat)
    ensures var s := pre + TracebackTail(loc, digits);
      q == |pre| + |FrameLineText(loc.fileName, digits, loc.scope)| && t == q + |loc.snippet| <= |s|
      && OccursAt(s, |pre|, FrameLineText(loc.fileName, digits, loc.scope))
      && s[q..t] == loc.snippet && s[t..] == ExceptionLineText(loc.errorType, loc.message)
  {
    var line := FrameLineText(loc.fileName, digits, loc.scope);
    q := |pre| + |line|;
    t := q + |loc.snippet|;
    ThreeParts(pre, line, loc.snippet, ExceptionLineText(loc.errorType, loc.message));
  }

  /** The three pieces of `pre + (a + b + c)` sit one after the other. */
  lemma ThreeParts(pre: string, a: string, b: string, c: string)
    ensures var s := pre + (a + b + c); var q := |pre| + |a|;
      OccursAt(s, |pre|, a) && s[q..q + |b|] == b && s[q + |b|..] == c
  {
    var s := pre + (a + b + c);
    var q := |pre| + |a|;
    assert s == pre + a + b + c;
    assert s[|pre|..q] == a;
    assert s[q..q + |b|] == b;
    assert s[q + |b|..] == c;
  }

  /** The lazy snippet group stops at an exception line that follows a
      snippet ending its last line and holding no colon. */
  lemma SnippetThenException(s: string, q: nat, t: nat, snippet: string)
    requires q <= t <= |s| && s[q..t] == snippet && ExceptionAt(s, t).Some?
    requires snippet == [] || (snippet[|snippet| - 1] == '\n' && ':' !in snippet)
    ensures FirstException(s, q) == Some(t)
  {
    if snippet != [] {
      assert s[t - 1] == snippet[|snippet| - 1];
      forall u | q <= u < t ensures ExceptionAt(s, u).None? {
        SnippetNoException(s, q, t, u);
      }
    }
  }

  /** `LocationAt` assembles the captures of the frame line and the exception line. */
  lemma LocationOfParts(s: string, i: nat, q: nat, t: nat)
    requires i <= |s| && FrameAt(s, i).Some? && FrameAt(s, i).value.3 == q <= t <= |s|
    requires FirstException(s, q) == Some(t)
    ensures var (f, d, scope, _) := FrameAt(s, i).value; var (ty, msg) := ExceptionAt(s, t).value;
      LocationAt(s, i) == Some(Location(f, DecimalValue(d), scope, s[q..t], ty, msg))
  {
  }

  /** A printed frame line is read back by `FrameAt`. */
  lemma FrameOfLine(s: string, i: nat, loc: Location, d: string)
    requires Wellformed(loc) && d != [] && AllDigits(d)
    requires OccursAt(s, i, FrameLineText(loc.fileName, d, loc.scope))
    ensures FrameAt(s, i) == Some((loc.fileName, d, loc.scope, i + |FrameLineText(loc.fileName, d, loc.scope)|))
  {
    FrameOfText(s, i, loc.fileName, d, loc.scope);
  }

  lemma FrameOfText(s: string, i: nat, f: string, d: string, scope: Option<string>)
    requires f != [] && (forall k :: 0 <= k < |f| ==> NotQuote(f[k])) && d != [] && AllDigits(d)
    requires scope.Some? ==> scope.value != [] && forall k :: 0 <= k < |scope.value| ==> NotSpace(scope.value[k])
    requires OccursAt(s, i, FrameLineText(f, d, scope))
    ensures FrameAt(s, i) == Some((f, d, scope, i + |FrameLineText(f, d, scope)|))
  {
    var sc := ScopeText(scope);
    var de := i + |FrameOpen| + |f| + |LineSep| + |d|;
    OccursSplit(s, i, FrameOpen + f + LineSep + d + sc, "\n");
    OccursSplit(s, i, FrameOpen + f + LineSep + d, sc);
    OccursJoin(s, de, sc, "\n");
    assert s[de] == (sc + "\n")[0] by { assert s[de] == s[de..de + |sc| + 1][0]; }
    FrameHeadOfLine(s, i, f, d);
    ScopeOfLine(s, de, scope);
  }

  /** The file name and the digits of a printed frame line are read back. */
  lemma FrameHeadOfLine(s: string, i: nat, f: string, d: string)
    requires f != [] && (forall k :: 0 <= k < |f| ==> NotQuote(f[k])) && d != [] && AllDigits(d)
    requires OccursAt(s, i, FrameOpen + f + LineSep + d)
    requires var de := i + |FrameOpen| + |f| + |LineSep| + |d|; de < |s| && !IsDigit(s[de])
    ensures FrameHeadAt(s, i) == Some((f, d, i + |FrameOpen| + |f| + |LineSep| + |d|))
  {
    var f0 := i + |FrameOpen|;
    var fe := f0 + |f|;
    var d0 := fe + |LineSep|;
    OccursSplit(s, i, FrameOpen + f + LineSep, d);
    OccursSplit(s, i, FrameOpen + f, LineSep);
    OccursSplit(s, i, FrameOpen, f);
    assert s[fe] == LineSep[0] by { assert s[fe] == s[fe..fe + |LineSep|][0]; }
    RunOver(s, f0, f, NotQuote);
    RunOver(s, d0, d, IsDigit);
    FrameHeadAtParts(s, i, fe, d0 + |d|);
  }

  /** `FrameHeadAt` returns the run before the separator and the digit run after it. */
  lemma FrameHeadAtParts(s: string, i: nat, fe: nat, de: nat)
    requires OccursAt(s, i, FrameOpen) && i + |FrameOpen| < fe == RunEnd(s, i + |FrameOpen|, NotQuote)
    requires OccursAt(s, fe, LineSep) && fe + |LineSep| < de == RunEnd(s, fe + |LineSep|, IsDigit)
    ensures FrameHeadAt(s, i) == Some((s[i + |FrameOpen|..fe], s[fe + |LineSep|..de], de))
  {
  }

  /** The optional scope and the line break of a printed frame line are read back. */
  lemma ScopeOfLine(s: string, de: nat, scope: Option<string>)
    requires scope.Some? ==> scope.value != [] && forall k :: 0 <= k < |scope.value| ==> NotSpace(scope.value[k])
    requires OccursAt(s, de, ScopeText(scope) + "\n")
    ensures ScopeAt(s, de) == Some((scope, de + |ScopeText(scope)| + 1))
  {
    var sc := ScopeText(scope);
    OccursSplit(s, de, sc, "\n");
    assert s[de + |sc|] == '\n' by { assert s[de + |sc|] == s[de + |sc|..de + |sc| + 1][0]; }
    if scope.None? {
      assert !OccursAt(s, de, ScopeSep) by {
        if de + |ScopeSep| <= |s| {
          assert s[de..de + |ScopeSep|][0] == '\n';
        }
      }
    } else {
      var x := scope.value;
      OccursSplit(s, de, ScopeSep, x);
      RunOver(s, de + |ScopeSep|, x, NotSpace);
    }
  }

  /** A printed exception line that ends the text is read back by `ExceptionAt`. */
  lemma ExceptionOfLine(s: string, t: nat, loc: Location)
    requires Wellformed(loc)
    requires t <= |s| && s[t..] == ExceptionLineText(loc.errorType, loc.message)
    ensures ExceptionAt(s, t) == Some((loc.errorType, loc.message))
  {
    ExceptionOfText(s, t, loc.errorType, loc.message);
  }

  lemma ExceptionOfText(s: string, t: nat, ty: string, msg: string)
    requires ty != [] && (forall k :: 0 <= k < |ty| ==> TypeChar(ty[k]))
    requires NoLineBreak(msg) && (msg == [] || !IsSpace(msg[0]))
    requires t <= |s| && s[t..] == ExceptionLineText(ty, msg)
    ensures ExceptionAt(s, t) == Some((ty, msg))
  {
    var te := t + |ty|;
    ExceptionLineParts(s, t, ty, msg);
    RunOver(s, t, ty, TypeChar);
    assert msg != [] ==> s[te + 2] == msg[0] by {
      if msg != [] { assert s[te + 2] == s[te + 2..][0]; }
    }
    RunOver(s, te + 1, " ", IsSpace);
    ExceptionAtParts(s, t, te, te + 2);
  }

  /** Where the type, the separator and the message of an exception line sit. */
  lemma ExceptionLineParts(s: string, t: nat, ty: string, msg: string)
    requires t <= |s| && s[t..] == ExceptionLineText(ty, msg)
    ensures t + |ty| + 2 + |msg| == |s| && OccursAt(s, t, ty) && OccursAt(s, t + |ty| + 1, " ")
    ensures s[t + |ty|] == ':' && s[t + |ty| + 2..] == msg
  {
    var te := t + |ty|;
    assert s[t..] == ty + ": " + msg;
    assert s[t..te] == s[t..][..|ty|];
    assert s[te] == s[t..][|ty|];
    assert s[te + 1..te + 2] == s[t..][|ty| + 1..|ty| + 2];
    assert s[te + 2..] == s[t..][|ty| + 2..];
  }

  /** `ExceptionAt` returns the type run and the message after the colon and its spaces. */
  lemma ExceptionAtParts(s: string, t: nat, te: nat, e: nat)
    requires t < te < |s| && te == RunEnd(s, t, TypeChar) && s[te] == ':'
    requires e == SkipSpaces(s, te + 1) && NoLineBreak(s[e..])
    ensures ExceptionAt(s, t) == Some((s[t..te], s[e..]))
  {
  }

  /** No exception line starts inside a snippet that ends its last line and has no colon. */
  lemma SnippetNoException(s: string, q: nat, t: nat, u: nat)
    requires q <= u < t <= |s| && s[t - 1] == '\n' && ':' !in s[q..t]
    ensures ExceptionAt(s, u).None?
  {
    var te := RunEnd(s, u, TypeChar);
    assert !TypeChar(s[t - 1]);
    assert te < t;
    assert s[te] == s[q..t][te - q];
  }
}
