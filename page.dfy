/** The page state the error pipeline writes: the lint annotations shown in
    the editor's gutter (`lint_data`) and the text of the output pane. The
    editor's content is passed to each handler. */
module Page {
  import opened Text
  import opened Traceback
  import opened Lint
  import opened Report

  /** The pane's text: every entry followed by a line break. */
  function PaneText(entries: seq<string>): string
  {
    if entries == [] then [] else PaneText(entries[..|entries| - 1]) + entries[|entries| - 1] + "\n"
  }

  /** Appending an entry extends the pane's text by it and a line break. */
  lemma PaneTextAppend(entries: seq<string>, text: string)
    ensures PaneText(entries + [text]) == PaneText(entries) + text + "\n"
  {
    assert (entries + [text])[..|entries|] == entries;
  }

  /** Five appends in a row render the five fragments in order. */
  lemma RenderedFive(entries: seq<string>, f1: Fragment, f2: Fragment, f3: Fragment, f4: Fragment, f5: Fragment)
    ensures entries + [Render(f1)] + [Render(f2)] + [Render(f3)] + [Render(f4)] + [Render(f5)]
      == entries + Rendered([f1, f2, f3, f4, f5])
  {
  }

  lemma RenderedCons(entries: seq<string>, f: Fragment, fs: seq<Fragment>)
    ensures entries + [Render(f)] + Rendered(fs) == entries + Rendered([f] + fs)
  {
  }

  class Page {
    /** `lint_data`: the annotations CodeMirror's linter reads. */
    var lintData: seq<Annotation>
    /** The entries appended to the output pane, oldest first; the pane's
        `innerHTML` is `PaneText(output)`. */
    var output: seq<string>

    constructor ()
      ensures lintData == [] && output == []
    {
      lintData := [];
      output := [];
    }

    /** `addToOutput(text)` (script.js:110-113): the pane gains the text and
        a line break. */
    method AddToOutput(text: string)
      modifies this
      ensures output == old(output) + [text]
      ensures lintData == old(lintData)
    {
      output := output + [text];
    }

    /** The editor's change handler (script.js:29-43): `lint_data` is reset,
        then each line's matches are pushed in order. */
    method OnChange(text: string)
      modifies this
      ensures lintData == LintWarnings(SplitLines(text))
      ensures output == old(output)
    {
      lintData := [];
      var lines := SplitLines(text);
      var i := 0;
      while i < |lines|
        invariant 0 <= i <= |lines|
        invariant lintData == LintWarnings(lines[..i])
        invariant output == old(output)
      {
        var ms := Matches(lines[i]);
        var j := 0;
        while j < |ms|
          invariant 0 <= j <= |ms|
          invariant lintData == LintWarnings(lines[..i]) + WarnAll(i, ms[..j])
          invariant output == old(output)
        {
          var m := ms[j];
          lintData := lintData + [Annotation(Warning, Pos(i, m.index), Pos(i, m.index + |m.text|), LintMessage)];
          WarnAllStep(i, ms, j);
          j := j + 1;
        }
        assert ms[..j] == ms;
        LintWarningsStep(lines, i);
        i := i + 1;
      }
      assert lines[..i] == lines;
    }

    /** `outputError(error)` (script.js:180-199): the original error is shown
        first; a located error whose script can be read then replaces
        `lint_data` by its one annotation and shows five more spans. When
        `getScript` throws, the handler stops after the first span. */
    method OutputError(error: string, buffer: string)
      modifies this
      ensures output == old(output) + Rendered(ReportError(error, buffer).fragments)
      ensures lintData == if ReportError(error, buffer).annotation.Some?
        then [ReportError(error, buffer).annotation.value] else old(lintData)
    {
      var a := Analyze(error);
      var first := OriginalFragment(a.original);
      AddToOutput(Render(first));
      if a.location.None? {
        return;
      }
      var loc := a.location.value;
      var script := GetScript(loc.snippet, loc.fileName, loc.lineno, buffer);
      if script.None? {
        return;
      }
      var message := Diagnosis(loc, script.value);
      Explain(loc, script.value, message);
      RenderedCons(old(output), first, Explanation(loc, script.value, message));
    }

    /** The located part of `outputError`: the annotation, then five spans. */
    method Explain(loc: Location, script: string, message: string)
      modifies this
      ensures lintData == [ErrorAnnotation(loc.lineno, message)]
      ensures output == old(output) + Rendered(Explanation(loc, script, message))
    {
      lintData := [ErrorAnnotation(loc.lineno, message)];
      var caution, errorType := CautionFragment(), ErrorTypeFragment(loc.errorType);
      var location, shown := LocationFragment(loc.fileName, loc.lineno), ScriptFragment(script);
      var explained := MessageFragment(message);
      AddToOutput(Render(caution));
      AddToOutput(Render(errorType));
      AddToOutput(Render(location));
      AddToOutput(Render(shown));
      AddToOutput(Render(explained));
      RenderedFive(old(output), caution, errorType, location, shown, explained);
    }
  }
}
