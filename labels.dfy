/** The two display-label tables and the labels built from them:
    `error_types`/`getErrorType` (script.js:218-237), `python_types`/`getType`
    (script.js:383-397) and the file-name label `getFileName` (script.js:239-247).
    A lookup never fails: a name missing from a table takes the fallback wording. */
module Labels {
  import opened Text

  /** `python_types` (script.js:383-389). */
  const PythonTypes: map<string, string> := map[
    "str" := "文字列",
    "int" := "整数",
    "float" := "数値",
    "list" := "リスト",
    "tuple" := "タプル"
  ]

  /** `error_types` (script.js:218-229). */
  const ErrorTypes: map<string, string> := map[
    "SyntaxError" := "文法エラー",
    "IndentationError" := "インデントのエラー",
    "TabError" := "タブとスペースの混在エラー",
    "NameError" := "名前に関するエラー",
    "AttributeError" := "属性に関するエラー",
    "ModuleNotFoundError" := "モジュールエラー",
    "IndexError" := "インデクス範囲外エラー",
    "ValueError" := "値に関するエラー",
    "ZeroDivisionError" := "0除算エラー",
    "TypeError" := "型に関するエラー"
  ]

  /** The sentinel name of the live editor buffer. */
  const ExecFile: string := "<exec>"

  /** `getType(type, suffix)`: a known data type shows its Japanese name with
      the raw name in parentheses; an unknown one shows the raw name, `型` and
      the caller's suffix. */
  function TypeLabel(t: string, suffix: string := ""): string
  {
    if t in PythonTypes then PythonTypes[t] + "(" + t + "型)" else t + "型" + suffix
  }

  /** `getErrorType(type)`: the exception-type label in 【】 brackets. */
  function ErrorTypeLabel(t: string): string
  {
    "【" + ErrorTypeHead(t) + "(" + t + ")】"
  }

  /** The word in front of the raw name: the table's label or the generic `エラー`. */
  function ErrorTypeHead(t: string): (h: string)
    ensures '(' !in h
  {
    if t in ErrorTypes then ErrorTypes[t] else "エラー"
  }

  /** `getFileName(filename)`. */
  function FileLabel(fileName: string): string
  {
    if fileName == ExecFile then "プログラム"
    else if StartsWith(fileName, "<") then fileName + " "
    else "ファイル " + fileName + " "
  }

  /** The data-type label always shows the raw name; a known name also shows
      its Japanese name and ignores the suffix, an unknown one ends with it. */
  lemma TypeLabelShape(t: string, suffix: string)
    ensures t in PythonTypes ==>
      StartsWith(TypeLabel(t, suffix), PythonTypes[t]) && EndsWith(TypeLabel(t, suffix), "(" + t + "型)")
      && TypeLabel(t, suffix) == TypeLabel(t, "")
    ensures t !in PythonTypes ==>
      StartsWith(TypeLabel(t, suffix), t + "型") && EndsWith(TypeLabel(t, suffix), suffix)
  {
    var r := TypeLabel(t, suffix);
    if t in PythonTypes {
      assert r == PythonTypes[t] + ("(" + t + "型)");
    } else {
      assert r == (t + "型") + suffix;
    }
  }

  lemma TypeLabelExamples()
    ensures TypeLabel("str", "") == "文字列(str型)"
    ensures TypeLabel("Frobnicator", "のデータ") == "Frobnicator型のデータ"
  {
  }

  /** Splitting a bracketed label at its first parenthesis. */
  lemma {:induction false} SplitAtParen(h1: string, t1: string, h2: string, t2: string)
    requires '(' !in h1 && '(' !in h2
    requires h1 + "(" + t1 == h2 + "(" + t2
    ensures h1 == h2 && t1 == t2
  {
    var s := h1 + "(" + t1;
    FirstParen(h1, t1);
    FirstParen(h2, t2);
    assert |h1| == |h2|;
    assert h1 == s[..|h1|] == h2;
    assert t1 == s[|h1| + 1..] == t2;
  }

  /** In `h + "(" + t` with no parenthesis in `h`, the first one follows `h`. */
  lemma FirstParen(h: string, t: string)
    requires '(' !in h
    ensures (h + "(" + t)[|h|] == '('
    ensures forall k :: 0 <= k < |h| ==> (h + "(" + t)[k] != '('
  {
    forall k | 0 <= k < |h| ensures (h + "(" + t)[k] != '(' {
      assert (h + "(" + t)[k] == h[k];
    }
  }

  /** Equal text between equal brackets. */
  lemma StripFrame(p: string, a: string, b: string, q: string)
    requires p + a + q == p + b + q
    ensures a == b
  {
    var s := p + a + q;
    assert a == s[|p|..|s| - |q|];
    assert b == s[|p|..|s| - |q|];
  }

  /** The exception-type label identifies the exception type: distinct
      types never share a label. */
  lemma ErrorTypeLabelInjective(t1: string, t2: string)
    requires ErrorTypeLabel(t1) == ErrorTypeLabel(t2)
    ensures t1 == t2
  {
    BracketedInjective(ErrorTypeHead(t1), t1, ErrorTypeHead(t2), t2);
  }

  /** `【h(t)】` with no parenthesis in `h` determines `h` and `t`. */
  lemma BracketedInjective(h1: string, t1: string, h2: string, t2: string)
    requires '(' !in h1 && '(' !in h2
    requires "【" + h1 + "(" + t1 + ")】" == "【" + h2 + "(" + t2 + ")】"
    ensures h1 == h2 && t1 == t2
  {
    assert "【" + h1 + "(" + t1 + ")】" == "【" + (h1 + "(" + t1) + ")】";
    assert "【" + h2 + "(" + t2 + ")】" == "【" + (h2 + "(" + t2) + ")】";
    StripFrame("【", h1 + "(" + t1, h2 + "(" + t2, ")】");
    SplitAtParen(h1, t1, h2, t2);
  }

  /** Known exception types get their table label, unknown ones the generic wrapper. */
  lemma ErrorTypeLabelExamples()
    ensures ErrorTypeLabel("NameError") == "【名前に関するエラー(NameError)】"
    ensures ErrorTypeLabel("KeyError") == "【エラー(KeyError)】"
  {
  }

  /** Only the live buffer is called "the program"; every other file label
      shows the file name followed by a space. */
  lemma FileLabelCases(fileName: string)
    ensures FileLabel(fileName) == "プログラム" <==> fileName == ExecFile
    ensures fileName != ExecFile ==>
      EndsWith(FileLabel(fileName), fileName + " ") &&
      (StartsWith(fileName, "<") <==> FileLabel(fileName) == fileName + " ")
  {
    var r := FileLabel(fileName);
    if fileName != ExecFile {
      if StartsWith(fileName, "<") {
        assert r[|r| - 1] == ' ';
      } else {
        assert r == "ファイル " + (fileName + " ");
        assert r[|r| - 1] == ' ';
        assert r[0] == 'フ';
      }
      assert "プログラム"[4] != ' ';
    }
  }
}
