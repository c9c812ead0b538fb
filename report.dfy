/** What `outputError` (script.js:180-199) produces for one Python error: the
    HTML fragments it appends to the output pane, in order, and the error
    annotation it installs in the editor's lint gutter. `getScript`
    (script.js:249-253) reads the editor's buffer, which is a parameter here. */
module Report {
  import opened Text
  import opened Html
  import opened Labels
  import opened Messages
  import opened Traceback
  import opened Lint

  /** `getScript(script, filename, lineno)`: the snippet Python printed, or,
      for the editor's own program when Python printed none, the offending
      line of the buffer, trimmed and indented by four spaces. Indexing past
      the buffer's last line throws in the page; that is `None` here. */
  function GetScript(snippet: string, fileName: string, lineno: nat, buffer: string): (r: Option<string>)
    ensures snippet != [] ==> r == Some(snippet)
    ensures snippet == [] && fileName != ExecFile ==> r == Some("")
    ensures r.None? <==> snippet == [] && fileName == ExecFile && !(1 <= lineno <= |SplitLines(buffer)|)
    ensures snippet == [] && fileName == ExecFile && r.Some? ==>
      StartsWith(r.value, "    ") && '\n' !in r.value
      && (|r.value| == 4 || (!IsSpace(r.value[4]) && !IsSpace(r.value[|r.value| - 1])))
    ensures snippet == [] && fileName == ExecFile && 1 <= lineno <= |SplitLines(buffer)| ==>
      r == Some("    " + Trim(SplitLines(buffer)[lineno - 1]))
  {
    if snippet != [] then Some(snippet)
    else if fileName != ExecFile then Some("")
    else
      var lines := SplitLines(buffer);
      if 1 <= lineno <= |lines| then
        var t := Trim(lines[lineno - 1]);
        TrimNoNewline(lines[lineno - 1], t);
        Some("    " + t)
      else None
  }

  lemma TrimNoNewline(line: string, t: string)
    requires '\n' !in line && exists i, j :: 0 <= i <= j <= |line| && t == line[i..j]
    ensures '\n' !in t
  {
    var i, j :| 0 <= i <= j <= |line| && t == line[i..j];
    forall k | 0 <= k < |t| ensures t[k] != '\n' {
      assert t[k] == line[i + k];
    }
  }

  /** For a buffer made of `lines`, the script shown is line `lineno`
      (counted from 1) with its surrounding whitespace removed. */
  lemma GetScriptOfBuffer(lines: seq<string>, lineno: nat)
    requires |lines| >= 1 && forall k :: 0 <= k < |lines| ==> '\n' !in lines[k]
    ensures 1 <= lineno <= |lines| ==> GetScript("", ExecFile, lineno, JoinLines(lines)) == Some("    " + Trim(lines[lineno - 1]))
    ensures !(1 <= lineno <= |lines|) ==> GetScript("", ExecFile, lineno, JoinLines(lines)).None?
  {
    SplitJoinLines(lines);
  }

  /** `<span class="cls">body</span>`. */
  datatype Fragment = Fragment(cls: string, body: string)

  function Render(f: Fragment): string
  {
    "<span class=\"" + f.cls + "\">" + f.body + "</span>"
  }

  /** The entries `addToOutput` appends for a list of fragments, in order. */
  function Rendered(fs: seq<Fragment>): (r: seq<string>)
    ensures |r| == |fs| && forall k :: 0 <= k < |fs| ==> r[k] == Render(fs[k])
  {
    if fs == [] then [] else Rendered(fs[..|fs| - 1]) + [Render(fs[|fs| - 1])]
  }

  /** The fragments and, when the error was located, the one annotation. */
  datatype Outcome = Outcome(fragments: seq<Fragment>, annotation: Option<Annotation>)

  /** The fixed notice under the original error, written in four parts. */
  const Caution: string := "上に表示されているのが本来の" + "エラーメッセージです。"
    + "エラーについて調べる場合は、" + "上のエラーメッセージで検索して下さい。"

  const LocationTail: string := " 行目でエラーが発生しました。"

  function OriginalFragment(original: string): Fragment
  {
    Fragment("original_error", EscapeHtml(original))
  }

  function CautionFragment(): Fragment
  {
    Fragment("caution", Caution)
  }

  function ErrorTypeFragment(errorType: string): Fragment
  {
    Fragment("error_type", EscapeHtml(ErrorTypeLabel(errorType)))
  }

  /** `escapeHTML(lineno)` escapes the number's decimal rendering. */
  function LocationFragment(fileName: string, lineno: nat): Fragment
  {
    Fragment("location", EscapeHtml(FileLabel(fileName)) + "の " + EscapeHtml(DecimalString(lineno)) + LocationTail)
  }

  function ScriptFragment(script: string): Fragment
  {
    Fragment("script", TrimEnd(EscapeHtml(script)))
  }

  function MessageFragment(message: string): Fragment
  {
    Fragment("error_message", EscapeHtml(message))
  }

  /** The whole of line `lineno` (counted from 1), flagged as an error. */
  function ErrorAnnotation(lineno: nat, message: string): (a: Annotation)
    ensures a.severity == Error && a.from.line == a.to.line == lineno - 1
    ensures a.from.ch == 0 && a.to.ch == 999 && a.message == message
  {
    Annotation(Error, Pos(lineno - 1, 0), Pos(lineno - 1, 999), message)
  }

  /** `getMessage` applied to the fields `analyze` found and the script. */
  function Diagnosis(loc: Location, script: string): string
  {
    Translate(Context(loc.message, loc.errorType, script, loc.lineno))
  }

  /** `outputError(error)`, as the value it produces. */
  function ReportError(error: string, buffer: string): Outcome
  {
    ReportOf(Analyze(error), buffer)
  }

  /** The steps of `outputError` after `analyze`. */
  function ReportOf(a: Analysis, buffer: string): (r: Outcome)
    ensures |r.fragments| >= 1 && r.fragments[0] == OriginalFragment(a.original)
    ensures a.location.None? ==> r == Outcome([OriginalFragment(a.original)], None)
    ensures r.annotation.Some? <==>
      a.location.Some? && GetScript(a.location.value.snippet, a.location.value.fileName,
                                    a.location.value.lineno, buffer).Some?
    ensures r.annotation.None? ==> |r.fragments| == 1
    ensures a.location.Some? ==>
      var loc := a.location.value;
      var script := GetScript(loc.snippet, loc.fileName, loc.lineno, buffer);
      script.Some? ==> r == Located(a.original, loc, script.value, Diagnosis(loc, script.value))
                       && r.annotation == Some(ErrorAnnotation(loc.lineno, Diagnosis(loc, script.value)))
  {
    var first := OriginalFragment(a.original);
    match a.location
    case None => Outcome([first], None)
    case Some(loc) =>
      match GetScript(loc.snippet, loc.fileName, loc.lineno, buffer)
      case None => Outcome([first], None)
      case Some(script) => Located(a.original, loc, script, Diagnosis(loc, script))
  }

  /** The full report for a located error whose script was read and whose
      diagnosis is `message`: six spans, and the annotation on the line. */
  function Located(original: string, loc: Location, script: string, message: string): (r: Outcome)
    ensures |r.fragments| == 6 && r.annotation.Some?
    ensures r.fragments[0] == OriginalFragment(original)
    ensures r.annotation.value.severity == Error
    ensures r.annotation.value.from == Pos(loc.lineno - 1, 0) && r.annotation.value.to == Pos(loc.lineno - 1, 999)
    ensures r.annotation.value.message == message && r.fragments[5] == MessageFragment(message)
  {
    Outcome([OriginalFragment(original)] + Explanation(loc, script, message),
            Some(ErrorAnnotation(loc.lineno, message)))
  }

  /** The five spans that follow the original error. */
  function Explanation(loc: Location, script: string, message: string): (fs: seq<Fragment>)
    ensures |fs| == 5
  {
    [CautionFragment(), ErrorTypeFragment(loc.errorType), LocationFragment(loc.fileName, loc.lineno),
     ScriptFragment(script), MessageFragment(message)]
  }

  /** Every fragment's body is inert text: whatever Python printed, the
      output pane gains no markup beyond the spans themselves. */
  lemma ReportInert(a: Analysis, buffer: string)
    ensures forall f :: f in ReportOf(a, buffer).fragments ==> Inert(f.body)
  {
    EscapeHtmlInert(a.original);
    if a.location.Some? {
      var loc := a.location.value;
      var s := GetScript(loc.snippet, loc.fileName, loc.lineno, buffer);
      if s.Some? {
        LocatedInert(a.original, loc, s.value, Diagnosis(loc, s.value));
      }
    }
  }

  lemma LocatedInert(original: string, loc: Location, script: string, message: string)
    ensures forall f :: f in Located(original, loc, script, message).fragments ==> Inert(f.body)
  {
    var e := Explanation(loc, script, message);
    var fs := Located(original, loc, script, message).fragments;
    EscapeHtmlInert(original);
    ExplanationInert(loc, script, message);
    assert fs == [OriginalFragment(original)] + e;
    forall f | f in fs ensures Inert(f.body) {
      if f != fs[0] {
        assert f in e;
      }
    }
  }

  lemma ExplanationInert(loc: Location, script: string, message: string)
    ensures forall f :: f in Explanation(loc, script, message) ==> Inert(f.body)
  {
    CautionFragmentInert();
    ErrorTypeInert(loc.errorType);
    LocationInert(loc.fileName, loc.lineno);
    ScriptInert(script);
    MessageInert(message);
  }

  lemma CautionFragmentInert()
    ensures Inert(CautionFragment().body)
  {
    CautionInert();
  }

  lemma ErrorTypeInert(errorType: string)
    ensures Inert(ErrorTypeFragment(errorType).body)
  {
    EscapeHtmlInert(ErrorTypeLabel(errorType));
  }

  lemma MessageInert(message: string)
    ensures Inert(MessageFragment(message).body)
  {
    EscapeHtmlInert(message);
  }

  lemma ScriptInert(script: string)
    ensures Inert(ScriptFragment(script).body)
  {
    EscapeHtmlInert(script);
    InertTrimEnd(EscapeHtml(script));
  }

  /** Free of the three characters `escapeHTML` rewrites. */
  predicate Plain(s: string) {
    '<' !in s && '>' !in s && '&' !in s
  }

  lemma PlainInert(s: string)
    requires Plain(s)
    ensures Inert(s)
  {
    forall k | 0 <= k < |s| ensures s[k] != '&' && s[k] != '<' && s[k] != '>' {
      assert s[k] in s;
    }
  }

  lemma CautionInert()
    ensures Inert(Caution)
  {
    var p1, p2, p3, p4 := "上に表示されているのが本来の", "エラーメッセージです。",
      "エラーについて調べる場合は、", "上のエラーメッセージで検索して下さい。";
    PiecesPlain(p1, p2, p3, p4);
    InertAppend(p1, p2);
    InertAppend(p1 + p2, p3);
    InertAppend(p1 + p2 + p3, p4);
  }

  lemma PiecesPlain(p1: string, p2: string, p3: string, p4: string)
    requires p1 == "上に表示されているのが本来の" && p2 == "エラーメッセージです。"
    requires p3 == "エラーについて調べる場合は、" && p4 == "上のエラーメッセージで検索して下さい。"
    ensures Inert(p1) && Inert(p2) && Inert(p3) && Inert(p4)
  {
    assert Plain(p1);
    PlainInert(p1);
    assert Plain(p2);
    PlainInert(p2);
    assert Plain(p3);
    PlainInert(p3);
    assert Plain(p4);
    PlainInert(p4);
  }

  lemma LocationInert(fileName: string, lineno: nat)
    ensures Inert(LocationFragment(fileName, lineno).body)
  {
    var x, d := EscapeHtml(FileLabel(fileName)), EscapeHtml(DecimalString(lineno));
    EscapeHtmlInert(FileLabel(fileName));
    EscapeHtmlInert(DecimalString(lineno));
    LocationPiecesInert();
    InertAppend(x, "の ");
    InertAppend(x + "の ", d);
    InertAppend(x + "の " + d, LocationTail);
  }

  lemma LocationPiecesInert()
    ensures Inert("の ") && Inert(LocationTail)
  {
    assert Plain("の ");
    PlainInert("の ");
    assert Plain(LocationTail);
    PlainInert(LocationTail);
  }

  /** Without a `File "…", line N` locator the page shows only the original
      error and leaves the gutter alone. */
  lemma UnlocatedReport(error: string, buffer: string)
    requires forall k :: 0 <= k <= |TrimEnd(CollapsePreamble(error))| ==>
      LocationAt(TrimEnd(CollapsePreamble(error)), k).None?
    ensures ReportError(error, buffer) == Outcome([OriginalFragment(TrimEnd(CollapsePreamble(error)))], None)
  {
    var a := Analyze(error);
    assert a.location.None?;
  }

  /** The decimal line number is printed as it was written when it has no
      leading zero, so the location sentence names the line Python named. */
  lemma LocationNamesLine(fileName: string, digits: string)
    requires |digits| > 0 && AllDigits(digits) && (|digits| > 1 ==> digits[0] != '0')
    ensures LocationFragment(fileName, DecimalValue(digits)).body
      == EscapeHtml(FileLabel(fileName)) + "の " + digits + LocationTail
  {
    DecimalValueRoundTrip(digits);
    EscapeDigits(digits);
  }

  lemma EscapeDigits(digits: string)
    requires AllDigits(digits)
    ensures EscapeHtml(digits) == digits
  {
    forall c | c in digits ensures c != '&' && c != '<' && c != '>' {
      var k :| 0 <= k < |digits| && digits[k] == c;
      assert IsDigit(digits[k]);
    }
    EscapeHtmlIdentity(digits);
  }
}
