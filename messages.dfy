/** `getMessage(msg, error_type, script, lineno)` (script.js:255-381): the
    ordered, first-match-wins cascade that turns an exception message into a
    Japanese explanation.

    The cascade is data: `Rules` lists the rules in the order of the source,
    in the groups its comments name (SyntaxError, IndentationError, ...);
    `TestOf` gives each rule's matcher (a literal, an anchored pattern, or
    the exception type) and `Render` its sentence, built from the captured
    groups, the snippet and the line number. `Translate` runs the list; a
    message no rule accepts is returned unchanged.

    Long literals are written as concatenations of short pieces, which keeps
    the verifier's reasoning about their first characters cheap. */
module Messages {
  import opened Text
  import opened Patterns
  import opened Labels

  /** The inputs of `getMessage`. */
  datatype Context = Context(message: string, errorType: string, snippet: string, lineno: nat)

  datatype SyntaxRule =
    | InvalidSyntax | NeverClosed | UnterminatedString | EofInString | ExpectedColon
    | ForgotComma | MaybeEquality | AssignToExpression | AssignToAttribute | EolInString
    | UnexpectedEof | Unmatched | MissingParentheses | GeneratorParens | ComprehensionTarget
    | FullWidthSpace | FullWidthChar | InvalidChar | FromImport | LeadingZeros | InvalidDecimal

  datatype IndentRule = UnexpectedIndent | ExpectedIndent | UnindentMismatch | ExpectedIndentAfter | TabsAndSpaces

  datatype IndexRule = ListIndex | TupleIndex | StringIndex

  datatype NameRule = NameSuggestion | NameNotDefined

  datatype TypeRule =
    | ConcatStr | UnsupportedPlus | MissingArguments | TooManyArguments | TooManyArgumentsRange
    | UnexpectedKeyword | NotCallable

  datatype ValueRule = InvalidIntLiteral | FloatConversion

  datatype AttributeRule = AttributeSuggestion | NoAttribute

  datatype ImportRule = NoModule | CannotImport

  /** A rule of the cascade, under the exception group the source files it in. */
  datatype RuleId =
    | SyntaxError(syntax: SyntaxRule)
    | IndentationError(indent: IndentRule)   // with TabError
    | IndexError(index: IndexRule)
    | NameError(name: NameRule)
    | UnboundLocalError
    | TypeError(typeRule: TypeRule)
    | ValueError(value: ValueRule)
    | AttributeError(attribute: AttributeRule)
    | KeyError
    | ImportError(importRule: ImportRule)    // with ModuleNotFoundError
    | FileNotFoundError
    | ZeroDivisionError

  const SyntaxRules: seq<RuleId> := [
    SyntaxError(InvalidSyntax), SyntaxError(NeverClosed), SyntaxError(UnterminatedString),
    SyntaxError(EofInString), SyntaxError(ExpectedColon), SyntaxError(ForgotComma),
    SyntaxError(MaybeEquality), SyntaxError(AssignToExpression), SyntaxError(AssignToAttribute),
    SyntaxError(EolInString), SyntaxError(UnexpectedEof), SyntaxError(Unmatched),
    SyntaxError(MissingParentheses), SyntaxError(GeneratorParens), SyntaxError(ComprehensionTarget),
    SyntaxError(FullWidthSpace), SyntaxError(FullWidthChar), SyntaxError(InvalidChar),
    SyntaxError(FromImport), SyntaxError(LeadingZeros), SyntaxError(InvalidDecimal)]
  const IndentRules: seq<RuleId> := [
    IndentationError(UnexpectedIndent), IndentationError(ExpectedIndent),
    IndentationError(UnindentMismatch), IndentationError(ExpectedIndentAfter),
    IndentationError(TabsAndSpaces)]
  const IndexRules: seq<RuleId> := [IndexError(ListIndex), IndexError(TupleIndex), IndexError(StringIndex)]
  const NameRules: seq<RuleId> := [NameError(NameSuggestion), NameError(NameNotDefined)]
  const UnboundRules: seq<RuleId> := [UnboundLocalError]
  const TypeRules: seq<RuleId> := [
    TypeError(ConcatStr), TypeError(UnsupportedPlus), TypeError(MissingArguments),
    TypeError(TooManyArguments), TypeError(TooManyArgumentsRange), TypeError(UnexpectedKeyword),
    TypeError(NotCallable)]
  const ValueRules: seq<RuleId> := [ValueError(InvalidIntLiteral), ValueError(FloatConversion)]
  const AttributeRules: seq<RuleId> := [AttributeError(AttributeSuggestion), AttributeError(NoAttribute)]
  const KeyRules: seq<RuleId> := [KeyError]
  const ImportRules: seq<RuleId> := [ImportError(NoModule), ImportError(CannotImport)]
  const FileRules: seq<RuleId> := [FileNotFoundError]
  const ZeroDivisionRules: seq<RuleId> := [ZeroDivisionError]

  /** The whole cascade, in the order `getMessage` tries it. */
  const Rules: seq<RuleId> :=
    SyntaxRules + IndentRules + IndexRules + NameRules + UnboundRules + TypeRules
    + ValueRules + AttributeRules + KeyRules + ImportRules + FileRules + ZeroDivisionRules

  /** What a rule looks at. */
  datatype Test =
    | Equals(text: string)     // msg equals a literal
    | Shape(pattern: Pattern)  // msg matches an anchored regular expression
    | TypeIs(name: string)     // the exception type is `name`

  const Quote: CharClass := NoneOf("'")

  function TestOf(id: RuleId): Test
  {
    match id
    case SyntaxError(r) => SyntaxTest(r)
    case IndentationError(r) => IndentTest(r)
    case IndexError(r) => IndexTest(r)
    case NameError(r) => NameTest(r)
    case UnboundLocalError => Shape([Lit("cannot access local variable '"), Many(Quote, true, true),
      Lit("' where it is not associated " + "with a value")])
    case TypeError(r) => TypeTest(r)
    case ValueError(r) => ValueTest(r)
    case AttributeError(r) => AttributeTest(r)
    case KeyError => TypeIs("KeyError")
    case ImportError(r) => ImportTest(r)
    case FileNotFoundError => Shape([Lit("[Errno "), Many(Digit, true, false),
      Lit("] No such file or directory: '"), Many(Quote, true, true), Lit("'")])
    // `(float )?` is a capture group in the source whose value is never used.
    case ZeroDivisionError => Shape([Opt("float "), Lit("division by zero")])
  }

  function SyntaxTest(r: SyntaxRule): Test
  {
    match r
    case InvalidSyntax => Equals("invalid syntax")
    case NeverClosed => Shape([Lit("'"), Many(Quote, true, true), Lit("' was never closed")])
    case UnterminatedString => Shape([Lit("unterminated "), Opt("triple-quoted "),
      Lit("string literal (detected at line "), Many(Digit, true, true), Lit(")")])
    case EofInString => Shape([Lit("EOF while scanning "), Opt("triple-quoted "), Lit("string literal")])
    case ExpectedColon => Equals("expected ':'")
    case ForgotComma => Equals("invalid syntax. Perhaps you forgot " + "a comma?")
    case MaybeEquality => Equals("invalid syntax. Maybe you meant " + "'==' or ':=' instead of '='?")
    case AssignToExpression => Equals("cannot assign to expression here. " + "Maybe you meant '==' instead of '='?")
    case AssignToAttribute => Equals("cannot assign to attribute here. " + "Maybe you meant '==' instead of '='?")
    case EolInString => Equals("EOL while scanning string literal")
    case UnexpectedEof => Equals("unexpected EOF while parsing")
    case Unmatched => Shape([Lit("unmatched '"), Many(Quote, true, true), Lit("'")])
    case MissingParentheses => Shape([Lit("Missing parentheses in call to '"), Many(Quote, true, true),
      Lit("'"), One(BmpNotLineBreak, false), Lit(" Did you mean "), Many(NoneOf("?"), true, true), Lit("?")])
    case GeneratorParens => Equals("Generator expression must be " + "parenthesized")
    case ComprehensionTarget => Equals("did you forget parentheses around " + "the comprehension target?")
    case FullWidthSpace => Equals("invalid non-printable character " + "U+3000")
    case FullWidthChar => Shape([Lit("invalid character '"), One(AnyOf(FullWidthSymbols), true),
      Lit("' ("), Many(NoneOf(")"), true, true), Lit(")")])
    case InvalidChar => Shape([Lit("invalid character '"), One(BmpNotLineBreak, true),
      Lit("' ("), Many(NoneOf(")"), true, true), Lit(")")])
    case FromImport => Equals("Did you mean to use 'from ... " + "import ...' instead?")
    case LeadingZeros => Equals("leading zeros in decimal integer " + "literals are not permitted; use an "
      + "0o prefix for octal integers")
    case InvalidDecimal => Equals("invalid decimal literal")
  }

  /** The full-width symbols the SyntaxError rule singles out. */
  const FullWidthSymbols: string := "（）’”＋－＊／％：＜＞＝！"

  function IndentTest(r: IndentRule): Test
  {
    match r
    case UnexpectedIndent => Equals("unexpected indent")
    case ExpectedIndent => Equals("expected an indented block")
    case UnindentMismatch => Equals("unindent does not match any outer " + "indentation level")
    case ExpectedIndentAfter => Shape([Lit("expected an indented block " + "after '"), Many(Quote, true, true),
      Lit("' statement "), One(AnyOf("oi"), false), Lit("n line "), Many(Digit, true, true)])
    case TabsAndSpaces => Equals("inconsistent use of tabs and spaces " + "in indentation")
  }

  function IndexTest(r: IndexRule): Test
  {
    match r
    case ListIndex => Equals("list index out of range")
    case TupleIndex => Equals("tuple index out of range")
    case StringIndex => Equals("string index out of range")
  }

  function NameTest(r: NameRule): Test
  {
    match r
    case NameSuggestion => Shape([Lit("name '"), Many(Quote, true, true), Lit("' is not defined"),
      One(BmpNotLineBreak, false), Lit(" Did you mean: '"), Many(Quote, true, true), Lit("'?")])
    case NameNotDefined => Shape([Lit("name '"), Many(Quote, true, true), Lit("' is not defined")])
  }

  /** The pattern of the rules led by a function name and `()`. */
  function CallPattern(rest: Pattern): Pattern
  {
    [Many(NoneOf("("), true, true)] + rest
  }

  function TypeTest(r: TypeRule): Test
  {
    match r
    case ConcatStr => Shape([Lit("can only concatenate str (not \""), Many(NoneOf("\""), true, true),
      Lit("\") to str")])
    case UnsupportedPlus => Shape([Lit("unsupported operand type(s) " + "for +: '"), Many(Quote, true, true),
      Lit("' and '"), Many(Quote, true, true), Lit("'")])
    case MissingArguments => Shape(CallPattern([Lit("() missing "), Many(Digit, true, true),
      Lit(" required positional arguments: "), Many(NotLineBreak, true, true)]))
    case TooManyArguments => Shape(CallPattern([Lit("() takes "), Many(Digit, true, true),
      Lit(" positional arguments but "), Many(Digit, true, true), Lit(" were given")]))
    case TooManyArgumentsRange => Shape(CallPattern([Lit("() takes from "),
      Many(Digit, true, true), Lit(" to "), Many(Digit, true, true), Lit(" positional arguments but "),
      Many(Digit, true, true), Lit(" were given")]))
    case UnexpectedKeyword => Shape(CallPattern([Lit("() got an unexpected keyword " + "argument '"),
      Many(Quote, true, true), Lit("'")]))
    case NotCallable => Shape([Lit("'"), Many(Quote, true, true), Lit("' object is not callable")])
  }

  function ValueTest(r: ValueRule): Test
  {
    match r
    // The source captures the quotes with the text, `(\'[^\']*\')`; here the
    // group is the text between them and the sentence puts the quotes back.
    case InvalidIntLiteral => Shape([Lit("invalid literal for int() " + "with base "), Many(Digit, true, true),
      Lit(": '"), Many(Quote, false, true), Lit("'")])
    case FloatConversion => Shape([Lit("could not convert string " + "to float: '"), Many(Quote, true, true),
      Lit("'")])
  }

  function AttributeTest(r: AttributeRule): Test
  {
    match r
    case AttributeSuggestion => Shape([Lit("'"), Many(Quote, true, true), Lit("' object has no attribute '"),
      Many(Quote, true, true), Lit("'"), One(BmpNotLineBreak, false), Lit(" Did you mean: '"),
      Many(Quote, true, true), Lit("'?")])
    case NoAttribute => Shape([Lit("'"), Many(Quote, true, true), Lit("' object has no attribute '"),
      Many(Quote, true, true), Lit("'")])
  }

  function ImportTest(r: ImportRule): Test
  {
    match r
    case NoModule => Shape([Lit("No module named '"), Many(Quote, true, true), Lit("'")])
    case CannotImport => Shape([Lit("cannot import name '"), Many(Quote, true, true), Lit("' from '"),
      Many(Quote, true, true), Lit("'")])
  }

  /** The captured groups when the test accepts the context. */
  function Accepts(test: Test, ctx: Context): Option<seq<string>>
  {
    match test
    case Equals(t) => if ctx.message == t then Some([]) else None
    case Shape(p) => Match(p, ctx.message)
    case TypeIs(n) => if ctx.errorType == n then Some([]) else None
  }

  /** Group `i`, or the empty string for a group the pattern does not have. */
  function G(g: seq<string>, i: nat): string
  {
    if i < |g| then g[i] else ""
  }

  // ---------------------------------------------------------------------------
  // The snippet heuristics

  /** `/^\s*for\s+/` matches and `indexOf('in') == -1`: a `for` header
      without `in` (script.js:259). */
  predicate ForWithoutIn(snippet: string)
  {
    var a := SkipSpaces(snippet, 0);
    OccursAt(snippet, a, "for") && a + 3 < |snippet| && IsSpace(snippet[a + 3])
    && !Contains(snippet, "in")
  }

  /** `/^\s*else\s+.+?[=<>].+?\:/` matches: `else` followed by a
      comparison and a colon on the same line (script.js:270). */
  predicate ElseWithCondition(snippet: string)
  {
    var a := SkipSpaces(snippet, 0);
    OccursAt(snippet, a, "else") &&
    exists b | a + 4 < b <= SkipSpaces(snippet, a + 4) :: ConditionThenColon(snippet, b)
  }

  /** From `b`: at least one character, one of `=<>`, at least one more
      character and a colon, none of them a line break. */
  predicate ConditionThenColon(s: string, b: nat)
    requires b <= |s|
  {
    exists c, d | b < c < |s| && c + 1 < d < |s| ::
      s[c] in "=<>" && s[d] == ':' && NoLineBreak(s[b..d])
  }

  /** `script.match(/(input|print)\(/)[1]`: the builtin whose call appears
      first in the snippet, from position `k` on (script.js:349). */
  function CalledBuiltin(s: string, k: nat := 0): (r: Option<string>)
    requires k <= |s|
    ensures r.Some? ==> r.value in {"input", "print"}
    ensures r.Some? <==> exists i | k <= i <= |s| :: OccursAt(s, i, "input(") || OccursAt(s, i, "print(")
    ensures r.Some? ==> exists i | k <= i <= |s| :: OccursAt(s, i, r.value + "(") && NoCallBetween(s, k, i)
    decreases |s| - k
  {
    if OccursAt(s, k, "input(") then
      assert "input" + "(" == "input(" && NoCallBetween(s, k, k);
      Some("input")
    else if OccursAt(s, k, "print(") then
      assert "print" + "(" == "print(" && NoCallBetween(s, k, k);
      Some("print")
    else if k == |s| then None
    else CalledBuiltin(s, k + 1)
  }

  /** Neither builtin is called at a position from `k` up to `i`. */
  predicate NoCallBetween(s: string, k: nat, i: nat)
  {
    forall j | k <= j < i :: !OccursAt(s, j, "input(") && !OccursAt(s, j, "print(")
  }

  /** `args.replace(', and ', ', ').replace(' and ', ', ')` (script.js:338). */
  function JoinArgs(list: string): string
  {
    ReplaceFirst(ReplaceFirst(list, ", and ", ", "), " and ", ", ")
  }

  const KeySuffix: string := " というキーはありません。スペルミス等をしていないか確認してください。"

  /** The sentence of a rule that accepted `ctx` with groups `g`. */
  function Render(id: RuleId, g: seq<string>, ctx: Context): string
  {
    match id
    case SyntaxError(r) => SyntaxSentence(r, g, ctx)
    case IndentationError(r) => IndentSentence(r, g, ctx)
    case IndexError(r) => IndexSentence(r)
    case NameError(r) => NameSentence(r, g)
    case UnboundLocalError => "関数内でまだ定義されていない「" + G(g, 0) + "」という名前のローカル変数が使われています。"
    case TypeError(r) => TypeSentence(r, g, ctx)
    case ValueError(r) => ValueSentence(r, g)
    case AttributeError(r) => AttributeSentence(r, g)
    case KeyError => ctx.message + KeySuffix
    case ImportError(r) => ImportSentence(r, g)
    case FileNotFoundError => "ファイル「" + G(g, 0) + "」が見つかりません。スペルミス等をしていないか確認してください。"
    case ZeroDivisionError => "0 で割ることはできません。除数（割る数）が予期せず 0 になっていないか確認してください。"
  }

  function SyntaxSentence(r: SyntaxRule, g: seq<string>, ctx: Context): string
  {
    match r
    case InvalidSyntax =>
      if ForWithoutIn(ctx.snippet) then "文法が正しくありません。in を忘れていませんか？"
      else "文法が正しくありません。入力ミス等が無いか確認してください。"
    case NeverClosed => "「" + G(g, 0) + "」を閉じ忘れています。"
    case UnterminatedString => "文字列が閉じられていません。クォートを忘れていませんか？（" + G(g, 0) + "行目で検出）"
    case EofInString => "文字列が閉じられていません。クォートを忘れていませんか？"
    case ExpectedColon =>
      if ElseWithCondition(ctx.snippet) then "else の後に条件式を書くことはできません。elif を使うか、あるいは条件式を消す必要があります。"
      else "コロン「:」を忘れています。"
    case ForgotComma => "文法が正しくありません。コンマ「,」を忘れていませんか？"
    case MaybeEquality => "文法が正しくありません。「=」ではなく「==」や「:=」ではありませんか？"
    case AssignToExpression => "式に代入することはできません。「=」ではなく「==」ではありませんか？"
    case AssignToAttribute => "ここで属性に代入することはできません。「=」ではなく「==」ではありませんか？"
    case EolInString => "文字列が閉じられていません。クォートを忘れていないか確認してください。"
    case UnexpectedEof => "カッコ等の閉じ忘れをしていないか確認してください。"
    case Unmatched => "対応するカッコの無い「" + G(g, 0) + "」があります。"
    case MissingParentheses => "「" + G(g, 0) + "」を呼び出すにはカッコが必要です。例：" + G(g, 1)
    case GeneratorParens => "ジェネレータ式にはカッコが必要です。"
    case ComprehensionTarget => "内包表記のターゲットをカッコで囲むのを忘れていませんか？"
    case FullWidthSpace => "全角空白が使われています。半角空白に直してください。"
    case FullWidthChar => "全角の " + G(g, 0) + " が使われています。英語入力状態で書き直してください。"
    case InvalidChar => "不正な文字 " + G(g, 0) + " が使われています。"
    case FromImport => "from ... import ... と書くべきところを、import ... from ... と書いてしまっていませんか？"
    case LeadingZeros => "数値の前に 0 を入れてはいけません。"
    case InvalidDecimal => "不正な数値データです。数字から始まる変数名を使っていたりしませんか？"
  }

  function IndentSentence(r: IndentRule, g: seq<string>, ctx: Context): string
  {
    match r
    case UnexpectedIndent => "インデントが入るべきでない場所に入ってしまっています。"
    case ExpectedIndent => "インデントが入るべき場所にありません。"
    case UnindentMismatch => "合わせるべきインデントが合っていません。"
    case ExpectedIndentAfter =>
      G(g, 1) + "行目の " + G(g, 0) + " の次行（つまり " + DecimalString(ctx.lineno) + "行目）に、インデントがありません。"
    case TabsAndSpaces => "インデントにタブとスペースが混在しています。"
  }

  function IndexSentence(r: IndexRule): string
  {
    match r
    case ListIndex => "リストの範囲外を参照しようとしています。リストの大きさと参照しようとした位置を確認してください。"
    case TupleIndex => "タプルの範囲外を参照しようとしています。タプルの大きさと参照しようとした位置を確認してください。"
    case StringIndex => "文字列の範囲外を参照しようとしています。文字列の長さと参照しようとした位置を確認してください。"
  }

  function NameSentence(r: NameRule, g: seq<string>): string
  {
    match r
    case NameSuggestion =>
      "「" + G(g, 0) + "」という名前の変数などは見つかりませんでした。「" + G(g, 1) + "」の入力ミスではありませんか？"
    case NameNotDefined =>
      "「" + G(g, 0) + "」という名前の変数などは見つかりませんでした。クォーテーションを忘れていたり、スペルミスや大文字小文字の打ち間違いをしていないか確認してください。"
  }

  function TypeSentence(r: TypeRule, g: seq<string>, ctx: Context): string
  {
    match r
    case ConcatStr => "文字列に " + TypeLabel(G(g, 0), "のデータ") + "を結合することはできません。"
    case UnsupportedPlus => TypeLabel(G(g, 0)) + "に " + TypeLabel(G(g, 1), "のデータ") + "を足すことはできません。"
    case MissingArguments =>
      G(g, 0) + "() に必要な引数が " + G(g, 1) + " 個（" + JoinArgs(G(g, 2)) + "）足りません。"
    case TooManyArguments =>
      G(g, 0) + "() は引数（位置引数）を " + G(g, 1) + " 個しか受け取りませんが、" + G(g, 2) + " 個の引数が与えられています。"
    case TooManyArgumentsRange =>
      G(g, 0) + "() は引数（位置引数）を " + G(g, 1) + "～" + G(g, 2) + " 個しか受け取りませんが、" + G(g, 3) + " 個の引数が与えられています。"
    case UnexpectedKeyword => G(g, 0) + "() に '" + G(g, 1) + "' という未対応のキーワード引数が与えられています。"
    case NotCallable =>
      match CalledBuiltin(ctx.snippet)
      case Some(f) => ShadowedSentence(f)
      case None => TypeLabel(G(g, 0), "") + "のデータは () を付けて呼び出すことはできません。"
  }

  /** The sentence for a builtin the user's program has overwritten. */
  function ShadowedSentence(f: string): string
  {
    f + "関数が上書きされてしまっているため呼び出せません。この行以前で " + f + " という名前の変数を使ってしまっていませんか？"
  }

  function ValueSentence(r: ValueRule, g: seq<string>): string
  {
    match r
    case InvalidIntLiteral =>
      if G(g, 0) == "10" then "文字列 '" + G(g, 1) + "' は、整数として不正なので int型（整数）に変換することができません。"
      else "文字列 '" + G(g, 1) + "' は、" + G(g, 0) + "進法の数値として不適切です。"
    case FloatConversion => "文字列 '" + G(g, 0) + "' を float 型に変換することはできません。"
  }

  function AttributeSentence(r: AttributeRule, g: seq<string>): string
  {
    match r
    case AttributeSuggestion =>
      TypeLabel(G(g, 0), "のオブジェクト") + "には、属性 " + G(g, 1) + " はありません。「" + G(g, 2) + "」のスペルミスではありませんか？"
    case NoAttribute =>
      TypeLabel(G(g, 0), "のオブジェクト") + "には、属性 " + G(g, 1) + " はありません。オブジェクトの型は想定通りか、属性名のスペルミスは無いか確認してください。"
  }

  function ImportSentence(r: ImportRule, g: seq<string>): string
  {
    match r
    case NoModule => "モジュール「" + G(g, 0) + "」が見つかりません。このモジュールがインストールされているか、スペルミスをしていないか確認してください。"
    case CannotImport =>
      "モジュール「" + G(g, 1) + "」に、「" + G(g, 0) + "」という名前のオブジェクトが見つかりません。スペルミスをしていないか等確認してください。"
  }

  /** The sentence of rule `id`, when it accepts `ctx`. */
  function Fire(id: RuleId, ctx: Context): Option<string>
  {
    match Accepts(TestOf(id), ctx)
    case None => None
    case Some(g) => Some(Render(id, g, ctx))
  }

  /** A rule that accepts fires with its sentence for the captured groups. */
  lemma FireAccepted(id: RuleId, ctx: Context, g: seq<string>)
    requires Accepts(TestOf(id), ctx) == Some(g)
    ensures Fire(id, ctx) == Some(Render(id, g, ctx))
  {
  }

  /** Try the rules in order; the first that accepts decides. */
  function Apply(rules: seq<RuleId>, ctx: Context): string
    decreases |rules|
  {
    if rules == [] then ctx.message
    else match Fire(rules[0], ctx)
      case Some(out) => out
      case None => Apply(rules[1..], ctx)
  }

  /** No rule of `rules` accepts `ctx`. */
  predicate NoneFires(rules: seq<RuleId>, ctx: Context)
  {
    forall id | id in rules :: Accepts(TestOf(id), ctx).None?
  }

  /** Rule `k` is the first rule of `rules` that accepts `ctx`. */
  predicate FirstToFire(rules: seq<RuleId>, k: nat, ctx: Context)
  {
    k < |rules| && Fire(rules[k], ctx).Some? && forall i :: 0 <= i < k ==> Fire(rules[i], ctx).None?
  }

  /** `getMessage`. */
  function Translate(ctx: Context): (r: string)
    ensures NoneFires(Rules, ctx) ==> r == ctx.message
    ensures forall k: nat :: FirstToFire(Rules, k, ctx) ==> r == Fire(Rules[k], ctx).value
  {
    ApplyIsFirstMatch(Rules, ctx);
    Apply(Rules, ctx)
  }

  /** The cascade returns the sentence of the first rule that accepts, and
      the message itself when none does. */
  lemma ApplyIsFirstMatch(rules: seq<RuleId>, ctx: Context)
    ensures NoneFires(rules, ctx) ==> Apply(rules, ctx) == ctx.message
    ensures forall k: nat :: FirstToFire(rules, k, ctx) ==> Apply(rules, ctx) == Fire(rules[k], ctx).value
  {
    if NoneFires(rules, ctx) {
      ApplyNoneFires(rules, ctx);
    }
    forall k: nat | FirstToFire(rules, k, ctx) ensures Apply(rules, ctx) == Fire(rules[k], ctx).value {
      ApplyFirstToFire(rules, k, ctx);
    }
  }

  lemma {:induction false} ApplyNoneFires(rules: seq<RuleId>, ctx: Context)
    requires NoneFires(rules, ctx)
    ensures Apply(rules, ctx) == ctx.message
    decreases |rules|
  {
    if rules != [] {
      assert rules[0] in rules;
      assert NoneFires(rules[1..], ctx) by {
        forall id | id in rules[1..] ensures Accepts(TestOf(id), ctx).None? {
          assert id in rules;
        }
      }
      ApplyNoneFires(rules[1..], ctx);
    }
  }

  lemma {:induction false} ApplyFirstToFire(rules: seq<RuleId>, k: nat, ctx: Context)
    requires FirstToFire(rules, k, ctx)
    ensures Apply(rules, ctx) == Fire(rules[k], ctx).value
    decreases k
  {
    if k > 0 {
      assert Fire(rules[0], ctx).None?;
      assert FirstToFire(rules[1..], k - 1, ctx) by {
        forall i | 0 <= i < k - 1 ensures Fire(rules[1..][i], ctx).None? {
          assert rules[1..][i] == rules[i + 1];
        }
      }
      ApplyFirstToFire(rules[1..], k - 1, ctx);
    }
  }


  // ---------------------------------------------------------------------------
  // Which messages a rule can accept, by their first character

  /** The message starts with a character of `cs`. */
  predicate LeadsWith(m: string, cs: string)
  {
    m != [] && m[0] in cs
  }

  /** Every message starting with `t` starts with a character of `cs`. */
  predicate StartsLike(t: string, cs: string)
  {
    t != [] && t[0] in cs
  }

  /** Every message the test accepts starts with a character of `cs`. */
  predicate Leads(test: Test, cs: string)
  {
    match test
    case Equals(t) => StartsLike(t, cs)
    case Shape(p) =>
      |p| > 1 &&
      ((p[0].Lit? && StartsLike(p[0].text, cs)) ||
       (p[0].Opt? && p[1].Lit? && StartsLike(p[0].text, cs) && StartsLike(p[1].text, cs)))
    case TypeIs(_) => false
  }

  lemma StartsLikeSound(t: string, m: string, cs: string)
    requires StartsLike(t, cs) && StartsWith(m, t)
    ensures LeadsWith(m, cs)
  {
    assert m[0] == t[0];
  }

  lemma LeadsSound(test: Test, ctx: Context, cs: string)
    requires Leads(test, cs)
    ensures Accepts(test, ctx).Some? ==> LeadsWith(ctx.message, cs)
  {
    var m := ctx.message;
    if Accepts(test, ctx).Some? {
      match test
      case Equals(t) =>
        assert StartsWith(m, t);
        StartsLikeSound(t, m, cs);
      case Shape(p) =>
        var t := p[0].text;
        if p[0].Lit? {
          StartsLikeSound(t, m, cs);
        } else if StartsWith(m, t) && MatchFrom(p, 1, m[|t|..]).Some? {
          StartsLikeSound(t, m, cs);
        } else {
          assert MatchFrom(p, 1, m).Some?;
          StartsLikeSound(p[1].text, m, cs);
        }
    }
  }

  /** A call pattern only accepts messages that hold `(`. */
  lemma CallPatternSound(rest: Pattern, m: string)
    requires rest != [] && rest[0].Lit? && StartsWith(rest[0].text, "(")
    ensures Match(CallPattern(rest), m).Some? ==> '(' in m
  {
    var p := CallPattern(rest);
    if Match(p, m).Some? {
      var e := ClassRunEnd(m, 0, NoneOf("("));
      assert MatchFrom(p, 1, m[e..]).Some?;
      assert StartsWith(m[e..], rest[0].text);
      assert m[e..][0] == '(';
      assert m[e] == '(';
    }
  }

  /** SyntaxError: only the unclosed-quote rule accepts a message starting
      with a quote, and only the leading-zeros rule one starting with `l`. */
  lemma SyntaxLead(r: SyntaxRule)
    ensures Leads(SyntaxTest(r), SyntaxLeadChars(r))
  {
    if r in {InvalidSyntax, NeverClosed, UnterminatedString, EofInString, ExpectedColon} {
      SyntaxLeadA(r);
    } else if r in {ForgotComma, MaybeEquality, AssignToExpression, AssignToAttribute, EolInString} {
      SyntaxLeadB(r);
    } else if r in {UnexpectedEof, Unmatched, MissingParentheses, GeneratorParens, ComprehensionTarget} {
      SyntaxLeadC(r);
    } else {
      SyntaxLeadD(r);
    }
  }

  function SyntaxLeadChars(r: SyntaxRule): string
  {
    if r == NeverClosed then "'"
    else if r == LeadingZeros then "l"
    else if r in {InvalidSyntax, ForgotComma, MaybeEquality, FullWidthSpace, FullWidthChar, InvalidChar, InvalidDecimal} then "i"
    else "uEecMGdD"
  }

  lemma SyntaxLeadA(r: SyntaxRule)
    requires r in {InvalidSyntax, NeverClosed, UnterminatedString, EofInString, ExpectedColon}
    ensures Leads(SyntaxTest(r), SyntaxLeadChars(r))
  {
    match r
    case InvalidSyntax => case NeverClosed => case UnterminatedString => case EofInString => case ExpectedColon =>
    case _ =>
  }

  lemma SyntaxLeadB(r: SyntaxRule)
    requires r in {ForgotComma, MaybeEquality, AssignToExpression, AssignToAttribute, EolInString}
    ensures Leads(SyntaxTest(r), SyntaxLeadChars(r))
  {
    match r
    case ForgotComma => case MaybeEquality => case AssignToExpression => case AssignToAttribute => case EolInString =>
    case _ =>
  }

  lemma SyntaxLeadC(r: SyntaxRule)
    requires r in {UnexpectedEof, Unmatched, MissingParentheses, GeneratorParens, ComprehensionTarget}
    ensures Leads(SyntaxTest(r), SyntaxLeadChars(r))
  {
    match r
    case UnexpectedEof => case Unmatched => case MissingParentheses => case GeneratorParens => case ComprehensionTarget =>
    case _ =>
  }

  lemma SyntaxLeadD(r: SyntaxRule)
    requires r in {FullWidthSpace, FullWidthChar, InvalidChar, FromImport, LeadingZeros, InvalidDecimal}
    ensures Leads(SyntaxTest(r), SyntaxLeadChars(r))
  {
    match r
    case FullWidthSpace => case FullWidthChar => case InvalidChar => case FromImport => case LeadingZeros => case InvalidDecimal =>
    case _ =>
  }

  lemma IndentLead(r: IndentRule)
    ensures Leads(IndentTest(r), IndentLeadChars(r))
  {
    match r
    case UnexpectedIndent => case ExpectedIndent => case UnindentMismatch =>
    case ExpectedIndentAfter => case TabsAndSpaces =>
  }

  function IndentLeadChars(r: IndentRule): string
  {
    if r == TabsAndSpaces then "i" else if r == ExpectedIndent || r == ExpectedIndentAfter then "e" else "u"
  }

  lemma IndexLead(r: IndexRule)
    ensures Leads(IndexTest(r), "lts")
  {
    match r
    case ListIndex => case TupleIndex => case StringIndex =>
  }

  lemma NameLead(r: NameRule)
    ensures Leads(NameTest(r), "n")
  {
    match r
    case NameSuggestion => case NameNotDefined =>
  }

  /** TypeError: the two operator rules, the not-callable rule, and the four
      rules led by a function name and `()`. */
  lemma TypeLead(r: TypeRule, m: string)
    ensures r !in CallRules ==> Leads(TypeTest(r), TypeLeadChars(r))
    ensures r in CallRules ==> (Match(TypeTest(r).pattern, m).Some? ==> '(' in m)
  {
    match r
    case ConcatStr => case UnsupportedPlus => case NotCallable =>
    case MissingArguments =>
      CallPatternSound(TypeTest(r).pattern[1..], m);
    case TooManyArguments =>
      CallPatternSound(TypeTest(r).pattern[1..], m);
    case TooManyArgumentsRange =>
      CallPatternSound(TypeTest(r).pattern[1..], m);
    case UnexpectedKeyword =>
      CallPatternSound(TypeTest(r).pattern[1..], m);
  }

  const CallRules: set<TypeRule> := {MissingArguments, TooManyArguments, TooManyArgumentsRange, UnexpectedKeyword}

  function TypeLeadChars(r: TypeRule): string
  {
    if r == ConcatStr then "c" else if r == UnsupportedPlus then "u" else "'"
  }

  lemma ValueLead(r: ValueRule)
    ensures Leads(ValueTest(r), "ic")
  {
    match r
    case InvalidIntLiteral => case FloatConversion =>
  }

  lemma AttributeLead(r: AttributeRule)
    ensures Leads(AttributeTest(r), "'")
  {
    match r
    case AttributeSuggestion => case NoAttribute =>
  }

  lemma ImportLead(r: ImportRule)
    ensures Leads(ImportTest(r), "Nc")
  {
    match r
    case NoModule => case CannotImport =>
  }

  /** What keeps rule `id` from accepting `ctx` without looking past the
      first character: a first character the rule's literal does not start
      with, no `(` for the call rules, another exception type for KeyError. */
  predicate LeadExcludes(id: RuleId, ctx: Context)
  {
    var m := ctx.message;
    match id
    case SyntaxError(r) => !LeadsWith(m, SyntaxLeadChars(r))
    case IndentationError(r) => !LeadsWith(m, IndentLeadChars(r))
    case IndexError(_) => !LeadsWith(m, "lts")
    case NameError(_) => !LeadsWith(m, "n")
    case UnboundLocalError => !LeadsWith(m, "c")
    case TypeError(r) => if r in CallRules then '(' !in m else !LeadsWith(m, TypeLeadChars(r))
    case ValueError(_) => !LeadsWith(m, "ic")
    case AttributeError(_) => !LeadsWith(m, "'")
    case KeyError => ctx.errorType != "KeyError"
    case ImportError(_) => !LeadsWith(m, "Nc")
    case FileNotFoundError => !LeadsWith(m, "[")
    case ZeroDivisionError => !LeadsWith(m, "fd")
  }

  lemma LeadExcludesSound(id: RuleId, ctx: Context)
    requires LeadExcludes(id, ctx)
    ensures Fire(id, ctx).None?
  {
    LeadExcludesTest(id, ctx);
  }

  lemma LeadExcludesTest(id: RuleId, ctx: Context)
    requires LeadExcludes(id, ctx)
    ensures Accepts(TestOf(id), ctx).None?
  {
    if id.SyntaxError? || id.IndentationError? || id.IndexError? || id.NameError? || id.UnboundLocalError? {
      LeadExcludesTestA(id, ctx);
    } else {
      LeadExcludesTestB(id, ctx);
    }
  }

  lemma LeadExcludesTestA(id: RuleId, ctx: Context)
    requires id.SyntaxError? || id.IndentationError? || id.IndexError? || id.NameError? || id.UnboundLocalError?
    requires LeadExcludes(id, ctx)
    ensures Accepts(TestOf(id), ctx).None?
  {
    match id
    case SyntaxError(r) =>
      SyntaxLead(r);
      LeadsSound(SyntaxTest(r), ctx, SyntaxLeadChars(r));
    case IndentationError(r) =>
      IndentLead(r);
      LeadsSound(IndentTest(r), ctx, IndentLeadChars(r));
    case IndexError(r) =>
      IndexLead(r);
      LeadsSound(IndexTest(r), ctx, "lts");
    case NameError(r) =>
      NameLead(r);
      LeadsSound(NameTest(r), ctx, "n");
    case UnboundLocalError =>
      LeadsSound(TestOf(id), ctx, "c");
    case _ =>
  }

  lemma LeadExcludesTestB(id: RuleId, ctx: Context)
    requires !(id.SyntaxError? || id.IndentationError? || id.IndexError? || id.NameError? || id.UnboundLocalError?)
    requires LeadExcludes(id, ctx)
    ensures Accepts(TestOf(id), ctx).None?
  {
    match id
    case TypeError(r) =>
      TypeLead(r, ctx.message);
      if r !in CallRules {
        LeadsSound(TypeTest(r), ctx, TypeLeadChars(r));
      }
    case ValueError(r) =>
      ValueLead(r);
      LeadsSound(ValueTest(r), ctx, "ic");
    case AttributeError(r) =>
      AttributeLead(r);
      LeadsSound(AttributeTest(r), ctx, "'");
    case KeyError =>
    case ImportError(r) =>
      ImportLead(r);
      LeadsSound(ImportTest(r), ctx, "Nc");
    case FileNotFoundError =>
      LeadsSound(TestOf(id), ctx, "[");
    case ZeroDivisionError =>
      LeadsSound(TestOf(id), ctx, "fd");
    case _ =>
  }

  // ---------------------------------------------------------------------------
  // Groups, or their first rules, that accept nothing

  /** Where each SyntaxError rule stands in its group. */
  function SyntaxPos(r: SyntaxRule): nat
  {
    match r
    case InvalidSyntax => 0 case NeverClosed => 1 case UnterminatedString => 2 case EofInString => 3
    case ExpectedColon => 4 case ForgotComma => 5 case MaybeEquality => 6 case AssignToExpression => 7
    case AssignToAttribute => 8 case EolInString => 9 case UnexpectedEof => 10 case Unmatched => 11
    case MissingParentheses => 12 case GeneratorParens => 13 case ComprehensionTarget => 14
    case FullWidthSpace => 15 case FullWidthChar => 16 case InvalidChar => 17 case FromImport => 18
    case LeadingZeros => 19 case InvalidDecimal => 20
  }

  lemma SyntaxPositions()
    ensures forall i | 0 <= i < |SyntaxRules| :: SyntaxRules[i].SyntaxError? && SyntaxPos(SyntaxRules[i].syntax) == i
  {
  }

  /** The first `n` SyntaxError rules accept nothing when each of them is
      excluded by its lead or is one of the refuted `except`. */
  lemma SyntaxQuiet(ctx: Context, n: nat, except: set<SyntaxRule>)
    requires n <= |SyntaxRules|
    requires forall r: SyntaxRule | SyntaxPos(r) < n :: r in except || LeadExcludes(SyntaxError(r), ctx)
    requires forall r | r in except :: Accepts(SyntaxTest(r), ctx).None?
    ensures NoneFires(SyntaxRules[..n], ctx)
  {
    SyntaxPositions();
    forall id | id in SyntaxRules[..n] ensures Accepts(TestOf(id), ctx).None? {
      var r := id.syntax;
      if r !in except {
        LeadExcludesTest(SyntaxError(r), ctx);
      }
    }
  }

  /** Where each TypeError rule stands in its group. */
  function TypePos(r: TypeRule): nat
  {
    match r
    case ConcatStr => 0 case UnsupportedPlus => 1 case MissingArguments => 2 case TooManyArguments => 3
    case TooManyArgumentsRange => 4 case UnexpectedKeyword => 5 case NotCallable => 6
  }

  lemma TypePositions()
    ensures forall i | 0 <= i < |TypeRules| :: TypeRules[i].TypeError? && TypePos(TypeRules[i].typeRule) == i
  {
  }

  /** The first `n` TypeError rules accept nothing when each of them is
      excluded by its lead or is one of the refuted `except`. */
  lemma TypeQuiet(ctx: Context, n: nat, except: set<TypeRule>)
    requires n <= |TypeRules|
    requires forall r: TypeRule | TypePos(r) < n :: r in except || LeadExcludes(TypeError(r), ctx)
    requires forall r | r in except :: Accepts(TypeTest(r), ctx).None?
    ensures NoneFires(TypeRules[..n], ctx)
  {
    TypePositions();
    forall id | id in TypeRules[..n] ensures Accepts(TestOf(id), ctx).None? {
      var r := id.typeRule;
      if r !in except {
        LeadExcludesTest(TypeError(r), ctx);
      }
    }
  }

  lemma IndentShape()
    ensures forall id | id in IndentRules :: id.IndentationError?
  {
  }

  lemma IndentQuiet(ctx: Context, except: set<IndentRule>)
    requires forall r: IndentRule :: r in except || LeadExcludes(IndentationError(r), ctx)
    requires forall r | r in except :: Accepts(IndentTest(r), ctx).None?
    ensures NoneFires(IndentRules, ctx)
  {
    IndentShape();
    forall id | id in IndentRules ensures Accepts(TestOf(id), ctx).None? {
      var r := id.indent;
      if r !in except {
        LeadExcludesTest(IndentationError(r), ctx);
      }
    }
  }

  lemma IndexShape()
    ensures forall id | id in IndexRules :: id.IndexError?
  {
  }

  lemma IndexQuiet(ctx: Context, except: set<IndexRule>)
    requires forall r: IndexRule :: r in except || LeadExcludes(IndexError(r), ctx)
    requires forall r | r in except :: Accepts(IndexTest(r), ctx).None?
    ensures NoneFires(IndexRules, ctx)
  {
    IndexShape();
    forall id | id in IndexRules ensures Accepts(TestOf(id), ctx).None? {
      var r := id.index;
      if r !in except {
        LeadExcludesTest(IndexError(r), ctx);
      }
    }
  }

  lemma NameShape()
    ensures forall id | id in NameRules :: id.NameError?
  {
  }

  lemma NameQuiet(ctx: Context, except: set<NameRule>)
    requires forall r: NameRule :: r in except || LeadExcludes(NameError(r), ctx)
    requires forall r | r in except :: Accepts(NameTest(r), ctx).None?
    ensures NoneFires(NameRules, ctx)
  {
    NameShape();
    forall id | id in NameRules ensures Accepts(TestOf(id), ctx).None? {
      var r := id.name;
      if r !in except {
        LeadExcludesTest(NameError(r), ctx);
      }
    }
  }

  lemma ValueShape()
    ensures forall id | id in ValueRules :: id.ValueError?
  {
  }

  lemma ValueQuiet(ctx: Context, except: set<ValueRule>)
    requires forall r: ValueRule :: r in except || LeadExcludes(ValueError(r), ctx)
    requires forall r | r in except :: Accepts(ValueTest(r), ctx).None?
    ensures NoneFires(ValueRules, ctx)
  {
    ValueShape();
    forall id | id in ValueRules ensures Accepts(TestOf(id), ctx).None? {
      var r := id.value;
      if r !in except {
        LeadExcludesTest(ValueError(r), ctx);
      }
    }
  }

  lemma AttributeShape()
    ensures forall id | id in AttributeRules :: id.AttributeError?
  {
  }

  lemma AttributeQuiet(ctx: Context, except: set<AttributeRule>)
    requires forall r: AttributeRule :: r in except || LeadExcludes(AttributeError(r), ctx)
    requires forall r | r in except :: Accepts(AttributeTest(r), ctx).None?
    ensures NoneFires(AttributeRules, ctx)
  {
    AttributeShape();
    forall id | id in AttributeRules ensures Accepts(TestOf(id), ctx).None? {
      var r := id.attribute;
      if r !in except {
        LeadExcludesTest(AttributeError(r), ctx);
      }
    }
  }

  lemma ImportShape()
    ensures forall id | id in ImportRules :: id.ImportError?
  {
  }

  lemma ImportQuiet(ctx: Context, except: set<ImportRule>)
    requires forall r: ImportRule :: r in except || LeadExcludes(ImportError(r), ctx)
    requires forall r | r in except :: Accepts(ImportTest(r), ctx).None?
    ensures NoneFires(ImportRules, ctx)
  {
    ImportShape();
    forall id | id in ImportRules ensures Accepts(TestOf(id), ctx).None? {
      var r := id.importRule;
      if r !in except {
        LeadExcludesTest(ImportError(r), ctx);
      }
    }
  }

  /** Where each rule stands in the whole cascade. */
  function RulePos(id: RuleId): nat
  {
    match id
    case SyntaxError(r) => SyntaxPos(r)
    case IndentationError(r) =>
      21 + (match r case UnexpectedIndent => 0 case ExpectedIndent => 1 case UnindentMismatch => 2
                    case ExpectedIndentAfter => 3 case TabsAndSpaces => 4)
    case IndexError(r) => 26 + (match r case ListIndex => 0 case TupleIndex => 1 case StringIndex => 2)
    case NameError(r) => if r == NameSuggestion then 29 else 30
    case UnboundLocalError => 31
    case TypeError(r) => 32 + TypePos(r)
    case ValueError(r) => if r == InvalidIntLiteral then 39 else 40
    case AttributeError(r) => if r == AttributeSuggestion then 41 else 42
    case KeyError => 43
    case ImportError(r) => if r == NoModule then 44 else 45
    case FileNotFoundError => 46
    case ZeroDivisionError => 47
  }

  lemma RulePositions()
    ensures |Rules| == 48
    ensures forall i | 0 <= i < |Rules| :: RulePos(Rules[i]) == i
  {
    SyntaxPositions();
    SyntaxAt();
    IndentIndexNameAt();
    TypePositions();
    TypeAt();
    TailAt();
  }

  lemma SyntaxAt()
    ensures forall i | 0 <= i < |SyntaxRules| :: Rules[i] == SyntaxRules[i]
  {
  }

  lemma IndentIndexNameAt()
    ensures forall i | 21 <= i < 32 :: RulePos(Rules[i]) == i
  {
  }

  lemma TypeAt()
    ensures forall i | 0 <= i < |TypeRules| :: Rules[32 + i] == TypeRules[i]
  {
  }

  lemma TailAt()
    ensures |Rules| == 48
    ensures forall i | 39 <= i < 48 :: RulePos(Rules[i]) == i
  {
  }

  /** The first `k` rules of the cascade accept nothing when each of them is
      excluded by its lead or is one of the refuted `except`. */
  lemma Quiet(ctx: Context, k: nat, except: set<RuleId>)
    requires k <= 48
    requires forall id: RuleId | RulePos(id) < k :: id in except || LeadExcludes(id, ctx)
    requires forall id | id in except :: Accepts(TestOf(id), ctx).None?
    ensures NoneFires(Rules[..k], ctx)
  {
    RulePositions();
    forall id | id in Rules[..k] ensures Accepts(TestOf(id), ctx).None? {
      if id !in except {
        LeadExcludesTest(id, ctx);
      }
    }
  }

  /** The first `k` rules of the cascade accept nothing when no rule that
      stands before `k` does. */
  lemma QuietWhere(ctx: Context, k: nat)
    requires k <= 48
    requires forall id: RuleId | RulePos(id) < k :: Accepts(TestOf(id), ctx).None?
    ensures NoneFires(Rules[..k], ctx)
  {
    RulePositions();
    forall id | id in Rules[..k] ensures Accepts(TestOf(id), ctx).None? {
      var i :| 0 <= i < k && Rules[i] == id;
      assert RulePos(id) == i;
    }
  }

  // ---------------------------------------------------------------------------
  // Refuting a rule from a known prefix of the message

  /** No message starting with `P` passes the test. */
  predicate TestRefutes(test: Test, P: string)
  {
    match test
    case Equals(t) => DivergeFrom(t, P, 0, 0) || |t| < |P|
    case Shape(p) => Refutes(p, 0, P, 0)
    case TypeIs(_) => false
  }

  lemma TestRefutesSound(test: Test, P: string, ctx: Context)
    requires TestRefutes(test, P) && StartsWith(ctx.message, P)
    ensures Accepts(test, ctx).None?
  {
    assert P[0..] == P;
    match test
    case Equals(t) =>
      if DivergeFrom(t, P, 0, 0) {
        DivergeSound(t, P, 0, 0, ctx.message);
      }
    case Shape(p) =>
      RefutesSound(p, 0, P, 0, ctx.message);
  }

  // ---------------------------------------------------------------------------
  // Deciding rules

  /** Rule `k` decides the message when it accepts it and no earlier rule does. */
  lemma Decides(k: nat, ctx: Context)
    requires k < |Rules| && Fire(Rules[k], ctx).Some? && NoneFires(Rules[..k], ctx)
    ensures Translate(ctx) == Fire(Rules[k], ctx).value
  {
    forall i | 0 <= i < k ensures Fire(Rules[i], ctx).None? {
      assert Rules[i] in Rules[..k];
      assert Accepts(TestOf(Rules[i]), ctx).None?;
    }
    assert FirstToFire(Rules, k, ctx);
  }

  // ---------------------------------------------------------------------------
  // What the cascade answers for particular messages

  /** `name 'X' is not defined. Did you mean: 'Y'?`: the suggestion rule
      decides, and its sentence names both the unknown X and the suggested Y. */
  lemma NameSuggestionSentence(x: string, c: char, y: string, ctx: Context)
    requires x != [] && y != [] && '\'' !in x && '\'' !in y && InClass(c, BmpNotLineBreak)
    requires ctx.message == "name '" + x + "' is not defined" + [c] + " Did you mean: '" + y + "'?"
    ensures Translate(ctx) ==
      "「" + x + "」という名前の変数などは見つかりませんでした。「" + y + "」の入力ミスではありませんか？"
  {
    QuietBeforeNames(ctx);
    NameSuggestionFires(x, c, y, ctx);
    Decides(29, ctx);
  }

  lemma NameSuggestionFires(x: string, c: char, y: string, ctx: Context)
    requires x != [] && y != [] && '\'' !in x && '\'' !in y && InClass(c, BmpNotLineBreak)
    requires ctx.message == "name '" + x + "' is not defined" + [c] + " Did you mean: '" + y + "'?"
    ensures Fire(NameError(NameSuggestion), ctx) ==
      Some("「" + x + "」という名前の変数などは見つかりませんでした。「" + y + "」の入力ミスではありませんか？")
  {
    NameSuggestionMatch(x, c, y, ctx.message);
    FireAccepted(NameError(NameSuggestion), ctx, [x, y]);
  }

  /** No rule before the NameError group accepts a message starting with `n`. */
  lemma QuietBeforeNames(ctx: Context)
    requires LeadsWith(ctx.message, "n")
    ensures Rules[29] == NameError(NameSuggestion) && Rules[30] == NameError(NameNotDefined)
    ensures NoneFires(Rules[..29], ctx)
    ensures Accepts(NameTest(NameSuggestion), ctx).None? ==> NoneFires(Rules[..30], ctx)
  {
    assert NoneFires(SyntaxRules, ctx) by {
      SyntaxQuiet(ctx, |SyntaxRules|, {});
      assert SyntaxRules[..|SyntaxRules|] == SyntaxRules;
    }
    assert NoneFires(IndentRules, ctx) by { IndentQuiet(ctx, {}); }
    assert NoneFires(IndexRules, ctx) by { IndexQuiet(ctx, {}); }
    assert Rules[..29] == SyntaxRules + IndentRules + IndexRules;
    assert Rules[..30] == Rules[..29] + [Rules[29]];
  }

  function NameSuggestionParts(x: string, c: char, y: string): seq<string>
  {
    ["name '", x, "' is not defined", [c], " Did you mean: '", y, "'?"]
  }

  lemma NameSuggestionMatch(x: string, c: char, y: string, m: string)
    requires x != [] && y != [] && '\'' !in x && '\'' !in y && InClass(c, BmpNotLineBreak)
    requires m == "name '" + x + "' is not defined" + [c] + " Did you mean: '" + y + "'?"
    ensures Match(NameTest(NameSuggestion).pattern, m) == Some([x, y])
  {
    NameSuggestionAssembly(x, c, y);
    NameSuggestionTakes(x, c, y);
    TakesAll(NameTest(NameSuggestion).pattern, NameSuggestionParts(x, c, y));
  }

  lemma NameSuggestionAssembly(x: string, c: char, y: string)
    ensures ConcatFrom(NameSuggestionParts(x, c, y), 0) ==
      "name '" + x + "' is not defined" + [c] + " Did you mean: '" + y + "'?"
  {
    var parts := NameSuggestionParts(x, c, y);
    var r6 := "'?";
    var r5 := y + r6;
    var r4 := " Did you mean: '" + r5;
    var r3 := [c] + r4;
    var r2 := "' is not defined" + r3;
    var r1 := x + r2;
    assert ConcatFrom(parts, 6) == r6;
    assert ConcatFrom(parts, 5) == r5;
    assert ConcatFrom(parts, 4) == r4;
    assert ConcatFrom(parts, 3) == r3;
    assert ConcatFrom(parts, 2) == r2;
    assert ConcatFrom(parts, 1) == r1;
  }

  lemma NameSuggestionTakes(x: string, c: char, y: string)
    requires x != [] && y != [] && '\'' !in x && '\'' !in y && InClass(c, BmpNotLineBreak)
    ensures Takes(NameTest(NameSuggestion).pattern, 0, 7, NameSuggestionParts(x, c, y), [])
    ensures Captured(NameTest(NameSuggestion).pattern, 0, 7, NameSuggestionParts(x, c, y)) == [x, y]
  {
    var p, parts := NameTest(NameSuggestion).pattern, NameSuggestionParts(x, c, y);
    assert Takes(p, 6, 7, parts, []);
    assert Takes(p, 5, 7, parts, []);
    assert Takes(p, 4, 7, parts, []);
    assert Takes(p, 3, 7, parts, []);
    assert Takes(p, 2, 7, parts, []);
    assert Takes(p, 1, 7, parts, []);
    assert Captured(p, 4, 7, parts) == [y];
  }

  /** `name 'X' is not defined` with nothing after it: the suggestion rule
      needs more text, so the plain rule decides and names X. */
  lemma NameNotDefinedSentence(x: string, ctx: Context)
    requires x != [] && '\'' !in x
    requires ctx.message == "name '" + x + "' is not defined"
    ensures Translate(ctx) ==
      "「" + x + "」という名前の変数などは見つかりませんでした。クォーテーションを忘れていたり、スペルミスや大文字小文字の打ち間違いをしていないか確認してください。"
  {
    NameNotDefinedMatch(x, ctx.message);
    QuietBeforeNames(ctx);
    Decides(30, ctx);
  }

  lemma NameNotDefinedMatch(x: string, m: string)
    requires x != [] && '\'' !in x
    requires m == "name '" + x + "' is not defined"
    ensures Match(NameTest(NameSuggestion).pattern, m).None?
    ensures Match(NameTest(NameNotDefined).pattern, m) == Some([x])
  {
    var parts := ["name '", x, "' is not defined"];
    assert ConcatFrom(parts, 2) == "' is not defined";
    assert ConcatFrom(parts, 1) == x + "' is not defined";
    assert ConcatFrom(parts, 0) + [] == m;
    NameNotDefinedTakes(x);
    var p := NameTest(NameSuggestion).pattern;
    assert MatchFrom(p, 3, []).None?;
    TakesMatches(p, 0, 3, parts, []);
    TakesMatches(NameTest(NameNotDefined).pattern, 0, 3, parts, []);
  }

  lemma NameNotDefinedTakes(x: string)
    requires x != [] && '\'' !in x
    ensures Takes(NameTest(NameSuggestion).pattern, 0, 3, ["name '", x, "' is not defined"], [])
    ensures NoOpt(NameTest(NameSuggestion).pattern, 0, 3)
    ensures Takes(NameTest(NameNotDefined).pattern, 0, 3, ["name '", x, "' is not defined"], [])
    ensures Captured(NameTest(NameNotDefined).pattern, 0, 3, ["name '", x, "' is not defined"]) == [x]
  {
    var parts := ["name '", x, "' is not defined"];
    var p, q := NameTest(NameSuggestion).pattern, NameTest(NameNotDefined).pattern;
    assert Takes(p, 2, 3, parts, []);
    assert Takes(p, 1, 3, parts, []);
    assert Takes(q, 2, 3, parts, []);
    assert Takes(q, 1, 3, parts, []);
  }

  /** A pattern led by a quoted name, `'X'...`, refuses a message whose text
      after the name goes on differently from the pattern's next literal. */
  lemma QuotedLeadFails(p: Pattern, t: string, tail: string)
    requires 3 <= |p| && p[0] == Lit("'") && p[1] == Many(Quote, true, true) && p[2].Lit?
    requires t != [] && '\'' !in t && tail != [] && tail[0] == '\'' && !StartsWith(tail, p[2].text)
    ensures Match(p, "'" + t + tail).None?
  {
    var parts := ["'", t];
    assert ConcatFrom(parts, 1) == t;
    assert ConcatFrom(parts, 0) + tail == "'" + t + tail;
    assert Takes(p, 1, 2, parts, tail);
    assert Takes(p, 0, 2, parts, tail);
    MatchLitMismatch(p, 2, p[2].text, tail);
    TakesMatches(p, 0, 2, parts, tail);
  }

  /** A KeyError whose message is a quoted key: every earlier rule led by a
      quote refuses it, so the key is echoed with the fixed suffix. */
  lemma KeyErrorSentence(key: string, ctx: Context)
    requires key != [] && '\'' !in key && '(' !in key
    requires ctx.message == "'" + key + "'" && ctx.errorType == "KeyError"
    ensures Translate(ctx) == "'" + key + "'" + KeySuffix
  {
    QuotedKeyRefused(key, ctx);
    QuietBeforeKey(ctx);
    TailAt();
    Decides(43, ctx);
  }

  /** The rules led by a quote before KeyError all want more after the key. */
  lemma QuotedKeyRefused(key: string, ctx: Context)
    requires key != [] && '\'' !in key
    requires ctx.message == "'" + key + "'"
    ensures forall id | id in QuoteLedRules :: Accepts(TestOf(id), ctx).None?
  {
    forall id | id in QuoteLedRules ensures Accepts(TestOf(id), ctx).None? {
      QuoteLedRefuses(id, key, ctx);
    }
  }

  lemma QuoteLedRefuses(id: RuleId, key: string, ctx: Context)
    requires id in QuoteLedRules && key != [] && '\'' !in key
    requires ctx.message == "'" + key + "'"
    ensures Accepts(TestOf(id), ctx).None?
  {
    if id == SyntaxError(NeverClosed) {
      QuotedLeadFails(SyntaxTest(NeverClosed).pattern, key, "'");
    } else if id == TypeError(NotCallable) {
      QuotedLeadFails(TypeTest(NotCallable).pattern, key, "'");
    } else if id == AttributeError(AttributeSuggestion) {
      QuotedLeadFails(AttributeTest(AttributeSuggestion).pattern, key, "'");
    } else {
      QuotedLeadFails(AttributeTest(NoAttribute).pattern, key, "'");
    }
  }

  /** The rules before KeyError whose messages start with a quote. */
  const QuoteLedRules: set<RuleId> := {SyntaxError(NeverClosed), TypeError(NotCallable),
    AttributeError(AttributeSuggestion), AttributeError(NoAttribute)}

  /** A message led by a quote, without `(`, that the quote-led rules refuse
      passes every rule before KeyError. */
  lemma QuietBeforeKey(ctx: Context)
    requires LeadsWith(ctx.message, "'") && '(' !in ctx.message
    requires forall id | id in QuoteLedRules :: Accepts(TestOf(id), ctx).None?
    ensures NoneFires(Rules[..43], ctx)
  {
    QuoteLedExcluded(ctx, 43);
    Quiet(ctx, 43, QuoteLedRules);
  }

  /** Before KeyError, only the quote-led rules can accept a message led by
      a quote and holding no `(`. */
  lemma QuoteLedExcluded(ctx: Context, k: nat)
    requires LeadsWith(ctx.message, "'") && '(' !in ctx.message && k <= 43
    ensures forall id: RuleId | RulePos(id) < k :: id in QuoteLedRules || LeadExcludes(id, ctx)
  {
    forall id: RuleId | RulePos(id) < k ensures id in QuoteLedRules || LeadExcludes(id, ctx) {
      match id
      case SyntaxError(r) => SyntaxLedByQuote(r, ctx.message);
      case TypeError(r) =>
      case _ =>
    }
  }

  lemma SyntaxLedByQuote(r: SyntaxRule, m: string)
    requires LeadsWith(m, "'")
    ensures LeadsWith(m, SyntaxLeadChars(r)) ==> r == NeverClosed
  {
  }

  /** `'X' object is not callable`: when the snippet calls `input(` or
      `print(`, the sentence blames the overwritten builtin that appears
      first; otherwise it describes X's data type. */
  lemma NotCallableSentence(t: string, ctx: Context)
    requires t != [] && '\'' !in t && '(' !in t
    requires ctx.message == "'" + t + NotCallableTail
    ensures CalledBuiltin(ctx.snippet).Some? ==>
      Translate(ctx) == ShadowedSentence(CalledBuiltin(ctx.snippet).value)
    ensures CalledBuiltin(ctx.snippet).None? ==>
      Translate(ctx) == TypeLabel(t, "") + "のデータは () を付けて呼び出すことはできません。"
  {
    QuietBeforeNotCallable(t, ctx);
    NotCallableFires(t, ctx);
    Decides(38, ctx);
    assert Translate(ctx) == TypeSentence(NotCallable, [t], ctx);
    NotCallableText(t, ctx);
  }

  lemma NotCallableText(t: string, ctx: Context)
    ensures CalledBuiltin(ctx.snippet).Some? ==>
      TypeSentence(NotCallable, [t], ctx) == ShadowedSentence(CalledBuiltin(ctx.snippet).value)
    ensures CalledBuiltin(ctx.snippet).None? ==>
      TypeSentence(NotCallable, [t], ctx) == TypeLabel(t, "") + "のデータは () を付けて呼び出すことはできません。"
  {
    assert G([t], 0) == t;
  }

  lemma NotCallableFires(t: string, ctx: Context)
    requires t != [] && '\'' !in t
    requires ctx.message == "'" + t + NotCallableTail
    ensures Fire(TypeError(NotCallable), ctx) == Some(TypeSentence(NotCallable, [t], ctx))
  {
    NotCallableAccepted(t, ctx);
    FireAccepted(TypeError(NotCallable), ctx, [t]);
  }

  lemma NotCallableAccepted(t: string, ctx: Context)
    requires t != [] && '\'' !in t
    requires ctx.message == "'" + t + NotCallableTail
    ensures Accepts(TestOf(TypeError(NotCallable)), ctx) == Some([t])
  {
    NotCallableMatch(t, ctx.message);
  }

  const NotCallableTail: string := "' object is not callable"

  lemma QuietBeforeNotCallable(t: string, ctx: Context)
    requires t != [] && '\'' !in t && '(' !in t
    requires ctx.message == "'" + t + NotCallableTail
    ensures Rules[38] == TypeError(NotCallable)
    ensures NoneFires(Rules[..38], ctx)
  {
    NotCallableShape(t, ctx.message);
    QuoteLedExcluded(ctx, 38);
    QuoteLedBeforeNotCallable();
    Quiet(ctx, 38, {SyntaxError(NeverClosed)});
    TypeAt();
  }

  /** Of the quote-led rules, only the unclosed-quote rule comes before the
      not-callable rule. */
  lemma QuoteLedBeforeNotCallable()
    ensures forall id | id in QuoteLedRules && RulePos(id) < 38 :: id == SyntaxError(NeverClosed)
  {
    assert TypePos(NotCallable) == 6;
  }

  /** The message is led by a quote, holds no `(`, and is refused by the
      unclosed-quote rule. */
  lemma NotCallableShape(t: string, m: string)
    requires t != [] && '\'' !in t && '(' !in t
    requires m == "'" + t + NotCallableTail
    ensures LeadsWith(m, "'") && '(' !in m
    ensures Match(SyntaxTest(NeverClosed).pattern, m).None?
  {
    assert m[0] == '\'';
    assert '(' !in NotCallableTail;
    NoParenQuoted(t, NotCallableTail);
    DiffersAt(NotCallableTail, SyntaxTest(NeverClosed).pattern[2].text, 2);
    QuotedLeadFails(SyntaxTest(NeverClosed).pattern, t, NotCallableTail);
  }

  lemma NoParenQuoted(t: string, tail: string)
    requires '(' !in t && '(' !in tail
    ensures '(' !in "'" + t + tail
  {
    var m := "'" + t + tail;
    forall k | 0 <= k < |m| ensures m[k] != '(' {
      if k == 0 {
      } else if k <= |t| {
        assert m[k] == t[k - 1];
      } else {
        assert m[k] == tail[k - 1 - |t|];
      }
    }
  }

  lemma NotCallableMatch(t: string, m: string)
    requires t != [] && '\'' !in t
    requires m == "'" + t + NotCallableTail
    ensures Match(TypeTest(NotCallable).pattern, m) == Some([t])
  {
    var parts := ["'", t, NotCallableTail];
    assert ConcatFrom(parts, 2) == NotCallableTail;
    assert ConcatFrom(parts, 1) == t + NotCallableTail;
    assert ConcatFrom(parts, 0) == m;
    NotCallableTakes(t);
    TakesAll(TypeTest(NotCallable).pattern, parts);
  }

  lemma NotCallableTakes(t: string)
    requires t != [] && '\'' !in t
    ensures Takes(TypeTest(NotCallable).pattern, 0, 3, ["'", t, NotCallableTail], [])
    ensures Captured(TypeTest(NotCallable).pattern, 0, 3, ["'", t, NotCallableTail]) == [t]
  {
    var p, parts := TypeTest(NotCallable).pattern, ["'", t, NotCallableTail];
    assert Takes(p, 2, 3, parts, []);
    assert Takes(p, 1, 3, parts, []);
    assert Captured(p, 1, 3, parts) == [t];
  }

  /** The message opening of a failed `int()` conversion. */
  const IntLiteralLead: string := "invalid literal for int() " + "with base "

  /** The rules before the `int()` rule that accept messages led by `i` or
      holding `(`. */
  const IntLiteralRivals: set<RuleId> := {SyntaxError(InvalidSyntax), SyntaxError(ForgotComma),
    SyntaxError(MaybeEquality), SyntaxError(FullWidthSpace), SyntaxError(FullWidthChar),
    SyntaxError(InvalidChar), SyntaxError(InvalidDecimal), IndentationError(TabsAndSpaces),
    TypeError(MissingArguments), TypeError(TooManyArguments), TypeError(TooManyArgumentsRange),
    TypeError(UnexpectedKeyword)}

  /** `invalid literal for int() with base B: 'S'`: base 10 gets the "not an
      integer" sentence, any other base the base-B sentence; both quote S. */
  lemma InvalidIntLiteralSentence(base: string, text: string, ctx: Context)
    requires base != [] && AllDigits(base) && '\'' !in text
    requires ctx.message == IntLiteralLead + base + ": '" + text + "'"
    ensures base == "10" ==>
      Translate(ctx) == "文字列 '" + text + "' は、整数として不正なので int型（整数）に変換することができません。"
    ensures base != "10" ==>
      Translate(ctx) == "文字列 '" + text + "' は、" + base + "進法の数値として不適切です。"
  {
    QuietBeforeIntLiteral(ctx, base + ": '" + text + "'");
    InvalidIntLiteralFires(base, text, ctx);
    Decides(39, ctx);
  }

  lemma InvalidIntLiteralFires(base: string, text: string, ctx: Context)
    requires base != [] && AllDigits(base) && '\'' !in text
    requires ctx.message == IntLiteralLead + base + ": '" + text + "'"
    ensures Fire(ValueError(InvalidIntLiteral), ctx) == Some(ValueSentence(InvalidIntLiteral, [base, text]))
  {
    InvalidIntLiteralAccepted(base, text, ctx);
    FireAccepted(ValueError(InvalidIntLiteral), ctx, [base, text]);
  }

  lemma InvalidIntLiteralAccepted(base: string, text: string, ctx: Context)
    requires base != [] && AllDigits(base) && '\'' !in text
    requires ctx.message == IntLiteralLead + base + ": '" + text + "'"
    ensures Accepts(TestOf(ValueError(InvalidIntLiteral)), ctx) == Some([base, text])
  {
    InvalidIntLiteralMatch(base, text, ctx.message);
  }

  /** No rule before the `int()` rule accepts a message with its opening. */
  lemma QuietBeforeIntLiteral(ctx: Context, rest: string)
    requires ctx.message == IntLiteralLead + rest
    ensures Rules[39] == ValueError(InvalidIntLiteral)
    ensures NoneFires(Rules[..39], ctx)
  {
    IntLiteralPrefix(ctx.message, rest);
    IntLiteralRivalsRefuted(ctx);
    IntLiteralLeadsExcluded(ctx);
    Quiet(ctx, 39, IntLiteralRivals);
    TailAt();
  }

  lemma IntLiteralLeadsExcluded(ctx: Context)
    requires LeadsWith(ctx.message, "i") && '(' in ctx.message
    ensures forall id: RuleId | RulePos(id) < 39 :: id in IntLiteralRivals || LeadExcludes(id, ctx)
  {
    forall id: RuleId | RulePos(id) < 39 ensures id in IntLiteralRivals || LeadExcludes(id, ctx) {
      match id
      case SyntaxError(r) => SyntaxLedByI(r, ctx.message);
      case IndentationError(r) =>
      case TypeError(r) =>
      case _ =>
    }
  }

  lemma SyntaxLedByI(r: SyntaxRule, m: string)
    requires LeadsWith(m, "i")
    ensures LeadsWith(m, SyntaxLeadChars(r)) ==> SyntaxError(r) in IntLiteralRivals
  {
  }

  lemma IntLiteralPrefix(m: string, rest: string)
    requires m == IntLiteralLead + rest
    ensures StartsWith(m, IntLiteralLead) && LeadsWith(m, "i") && '(' in m
  {
    assert m[..|IntLiteralLead|] == IntLiteralLead;
    assert m[0] == 'i' && m[23] == '(';
  }

  /** A text that differs from `t` at a position both have neither equals
      `t` nor starts with it. */
  lemma DiffersAt(m: string, t: string, k: nat)
    requires k < |t| && k < |m| && m[k] != t[k]
    ensures m != t && !StartsWith(m, t)
  {
    if |t| <= |m| {
      assert m[..|t|][k] == m[k];
    }
  }

  /** A call pattern refuses a message whose text after the function name
      does not go on as the pattern's first literal. */
  lemma CallPatternRefuted(rest: Pattern, name: string, after: string)
    requires rest != [] && rest[0].Lit? && '(' !in name
    requires after != [] && after[0] == '(' && !StartsWith(after, rest[0].text)
    ensures Match(CallPattern(rest), name + after).None?
  {
    var p := CallPattern(rest);
    ClassRunEndOver(name, after, NoneOf("("));
    assert (name + after)[|name|..] == after;
    MatchLitMismatch(p, 1, rest[0].text, after);
  }

  lemma IntLiteralRivalsRefuted(ctx: Context)
    requires StartsWith(ctx.message, IntLiteralLead)
    ensures forall id | id in IntLiteralRivals :: Accepts(TestOf(id), ctx).None?
  {
    var m := ctx.message;
    var name, after := m[..23], m[23..];
    IntLiteralLeadSplit(m);
    forall id | id in IntLiteralRivals && id.TypeError? ensures Accepts(TestOf(id), ctx).None? {
      IntLiteralCallRival(id.typeRule, name, after);
    }
    IntLiteralLeadRivalsRefuted(ctx);
  }

  /** The lead splits before its `(`: a name without one, then `(int) w…`. */
  lemma IntLiteralLeadSplit(m: string)
    requires StartsWith(m, IntLiteralLead)
    ensures |m| > 26 && '(' !in m[..23] && m == m[..23] + m[23..] && m[23..][0] == '(' && m[23..][3] == 'w'
  {
    assert m[23] == IntLiteralLead[23] == '(' && m[26] == IntLiteralLead[26] == 'w';
    var name := m[..23];
    assert name == IntLiteralLead[..23];
    forall k | 0 <= k < 23 ensures name[k] != '(' {
      assert name[k] == IntLiteralLead[k];
    }
  }

  lemma IntLiteralLeadRivalsRefuted(ctx: Context)
    requires StartsWith(ctx.message, IntLiteralLead)
    ensures forall id | id in IntLiteralRivals && !id.TypeError? :: Accepts(TestOf(id), ctx).None?
  {
    forall id | id in IntLiteralRivals && !id.TypeError? ensures Accepts(TestOf(id), ctx).None? {
      IntLiteralLeadRefutes(id, ctx);
    }
  }

  lemma IntLiteralLeadRefutes(id: RuleId, ctx: Context)
    requires StartsWith(ctx.message, IntLiteralLead)
    requires id in IntLiteralRivals && !id.TypeError?
    ensures Accepts(TestOf(id), ctx).None?
  {
    var m := ctx.message;
    assert m[8] == IntLiteralLead[8] == 'l';
    if id in {SyntaxError(FullWidthChar), SyntaxError(InvalidChar)} {
      DiffersAt(m, InvalidCharLead, 8);
      InvalidCharLeadRefuted(id.syntax, ctx);
    } else {
      IntLiteralEqualsRival(id);
      var test := TestOf(id);
      DiffersAt(m, test.text, 8);
      EqualsRefuted(test, ctx);
    }
  }

  /** An exact-text test refuses any other message. */
  lemma EqualsRefuted(test: Test, ctx: Context)
    requires test.Equals? && ctx.message != test.text
    ensures Accepts(test, ctx).None?
  {
  }

  /** The invalid-character rules refuse a message that does not start with their lead. */
  lemma InvalidCharLeadRefuted(r: SyntaxRule, ctx: Context)
    requires r == FullWidthChar || r == InvalidChar
    requires !StartsWith(ctx.message, InvalidCharLead)
    ensures Accepts(TestOf(SyntaxError(r)), ctx).None?
  {
    var p := SyntaxTest(r).pattern;
    MatchLitMismatch(p, 0, InvalidCharLead, ctx.message);
  }

  lemma IntLiteralEqualsRival(id: RuleId)
    requires id in IntLiteralRivals && !id.TypeError?
    requires id !in {SyntaxError(FullWidthChar), SyntaxError(InvalidChar)}
    ensures TestOf(id).Equals? && |TestOf(id).text| > 8 && TestOf(id).text[8] != 'l'
  {
    if id.SyntaxError? {
      SyntaxEqualsRival(id.syntax);
    } else {
      assert id == IndentationError(TabsAndSpaces);
    }
  }

  lemma SyntaxEqualsRival(r: SyntaxRule)
    requires r in {InvalidSyntax, ForgotComma, MaybeEquality, FullWidthSpace, InvalidDecimal}
    ensures SyntaxTest(r).Equals? && |SyntaxTest(r).text| > 8 && SyntaxTest(r).text[8] != 'l'
  {
    match r
    case InvalidSyntax => case ForgotComma => case MaybeEquality => case FullWidthSpace => case InvalidDecimal =>
    case _ =>
  }

  lemma IntLiteralCallRival(r: TypeRule, name: string, after: string)
    requires TypeError(r) in IntLiteralRivals && '(' !in name
    requires |after| > 3 && after[0] == '(' && after[3] == 'w'
    ensures TypeTest(r).Shape? && Match(TypeTest(r).pattern, name + after).None?
  {
    var rest := TypeTest(r).pattern[1..];
    assert TypeTest(r).pattern == CallPattern(rest);
    DiffersAt(after, rest[0].text, 3);
    CallPatternRefuted(rest, name, after);
  }

  function InvalidIntLiteralParts(base: string, text: string): seq<string>
  {
    [IntLiteralLead, base, ": '", text, "'"]
  }

  lemma InvalidIntLiteralMatch(base: string, text: string, m: string)
    requires base != [] && AllDigits(base) && '\'' !in text
    requires m == IntLiteralLead + base + ": '" + text + "'"
    ensures Match(ValueTest(InvalidIntLiteral).pattern, m) == Some([base, text])
  {
    InvalidIntLiteralAssembly(base, text);
    InvalidIntLiteralTakes(base, text);
    TakesAll(ValueTest(InvalidIntLiteral).pattern, InvalidIntLiteralParts(base, text));
  }

  lemma InvalidIntLiteralAssembly(base: string, text: string)
    ensures ConcatFrom(InvalidIntLiteralParts(base, text), 0) == IntLiteralLead + base + ": '" + text + "'"
  {
    var parts := InvalidIntLiteralParts(base, text);
    var r4 := "'";
    var r3 := text + r4;
    var r2 := ": '" + r3;
    var r1 := base + r2;
    assert ConcatFrom(parts, 4) == r4;
    assert ConcatFrom(parts, 3) == r3;
    assert ConcatFrom(parts, 2) == r2;
    assert ConcatFrom(parts, 1) == r1;
  }

  lemma InvalidIntLiteralTakes(base: string, text: string)
    requires base != [] && AllDigits(base) && '\'' !in text
    ensures Takes(ValueTest(InvalidIntLiteral).pattern, 0, 5, InvalidIntLiteralParts(base, text), [])
    ensures Captured(ValueTest(InvalidIntLiteral).pattern, 0, 5, InvalidIntLiteralParts(base, text)) == [base, text]
  {
    var p, parts := ValueTest(InvalidIntLiteral).pattern, InvalidIntLiteralParts(base, text);
    assert Takes(p, 4, 5, parts, []);
    assert Takes(p, 3, 5, parts, []);
    assert Takes(p, 2, 5, parts, []);
    assert Takes(p, 1, 5, parts, []);
    assert Captured(p, 3, 5, parts) == [text];
  }

  /** What Python prints before `()`: a (qualified) function name, which
      holds no space, no quote and no `(`. */
  predicate CallName(f: string)
  {
    f != [] && forall k | 0 <= k < |f| :: f[k] !in " '("
  }

  /** `f() missing N required positional arguments: L`, for any function
      name `f`: the sentence names `f()` and N, and lists L with its first
      `, and ` and then its first ` and ` turned into `, `. */
  lemma MissingArgumentsSentence(f: string, n: string, args: string, ctx: Context)
    requires CallName(f)
    requires n != [] && AllDigits(n) && args != [] && NoLineBreak(args)
    requires ctx.message == f + "() missing " + n + MissingArgumentsMiddle + args
    ensures Translate(ctx) == f + "() に必要な引数が " + n + " 個（" + JoinArgs(args) + "）足りません。"
  {
    assert ctx.message == f + "(" + (") missing " + n + MissingArgumentsMiddle + args);
    QuietBeforeCall(f, ") missing " + n + MissingArgumentsMiddle + args, ctx);
    MissingArgumentsFires(f, n, args, ctx);
    Decides(34, ctx);
  }

  /** A name such as `sum` starts like the index rules' `string index …`,
      yet only the call rule accepts the message. */
  lemma MissingArgumentsOfSum(n: string, args: string, ctx: Context)
    requires n != [] && AllDigits(n) && args != [] && NoLineBreak(args)
    requires ctx.message == "sum() missing " + n + MissingArgumentsMiddle + args
    ensures Translate(ctx) == "sum() に必要な引数が " + n + " 個（" + JoinArgs(args) + "）足りません。"
  {
    assert "sum() missing " == "sum" + "() missing ";
    assert "sum() に必要な引数が " == "sum" + "() に必要な引数が ";
    MissingArgumentsSentence("sum", n, args, ctx);
  }

  lemma MissingArgumentsFires(f: string, n: string, args: string, ctx: Context)
    requires f != [] && '(' !in f && n != [] && AllDigits(n) && args != [] && NoLineBreak(args)
    requires ctx.message == f + "() missing " + n + MissingArgumentsMiddle + args
    ensures Fire(TypeError(MissingArguments), ctx)
      == Some(f + "() に必要な引数が " + n + " 個（" + JoinArgs(args) + "）足りません。")
  {
    MissingArgumentsAccepted(f, n, args, ctx);
    FireAccepted(TypeError(MissingArguments), ctx, [f, n, args]);
  }

  lemma MissingArgumentsAccepted(f: string, n: string, args: string, ctx: Context)
    requires f != [] && '(' !in f && n != [] && AllDigits(n) && args != [] && NoLineBreak(args)
    requires ctx.message == f + "() missing " + n + MissingArgumentsMiddle + args
    ensures Accepts(TestOf(TypeError(MissingArguments)), ctx) == Some([f, n, args])
  {
    MissingArgumentsMatch(f, n, args, ctx.message);
  }

  const MissingArgumentsMiddle: string := " required positional arguments: "

  // ---------------------------------------------------------------------------
  // Messages led by a call name and `(`

  /** `t` reaches a space or a quote at `k`, with no `(` before it. */
  predicate StopAt(t: string, k: nat)
  {
    k < |t| && t[k] in " '" && forall i | 0 <= i < k :: t[i] != '('
  }

  /** The text a test starts with reaches a space or a quote at `k`, before
      any `(`. */
  predicate WordLed(test: Test, k: nat)
  {
    match test
    case Equals(t) => StopAt(t, k)
    case Shape(p) => p != [] && p[0].Lit? && StopAt(p[0].text, k)
    case TypeIs(_) => false
  }

  /** A text that reaches a space or a quote before any `(` does not start a
      message made of a call name and `(`: where the two first differ, the
      message has `(` or a name character. */
  lemma StopRefutes(t: string, k: nat, f: string, rest: string)
    requires StopAt(t, k) && CallName(f)
    ensures !StartsWith(f + "(" + rest, t)
  {
    var m := f + "(" + rest;
    var j := if k < |f| then k else |f|;
    assert m[j] == (if k < |f| then f[k] else '(');
    DiffersAt(m, t, j);
  }

  lemma WordLedSound(test: Test, k: nat, f: string, rest: string, ctx: Context)
    requires WordLed(test, k) && CallName(f) && ctx.message == f + "(" + rest
    ensures Accepts(test, ctx).None?
  {
    match test
    case Equals(t) =>
      StopRefutes(t, k, f, rest);
      assert !StartsWith(t, t) || ctx.message != t;
    case Shape(p) =>
      StopRefutes(p[0].text, k, f, rest);
  }

  /** Where the first word of each rule before the call rules ends. */
  function StopOf(id: RuleId): nat
  {
    match id
    case SyntaxError(r) => SyntaxStop(r)
    case IndentationError(r) => if r == UnexpectedIndent then 10 else if r == TabsAndSpaces then 12 else 8
    case IndexError(r) => if r == ListIndex then 4 else if r == TupleIndex then 5 else 6
    case NameError(_) => 4
    case UnboundLocalError => 6
    case TypeError(r) => if r == ConcatStr then 3 else 11
    case _ => 0
  }

  function SyntaxStop(r: SyntaxRule): nat
  {
    match r
    case InvalidSyntax => 7 case NeverClosed => 0 case UnterminatedString => 12 case EofInString => 3
    case ExpectedColon => 8 case ForgotComma => 7 case MaybeEquality => 7 case AssignToExpression => 6
    case AssignToAttribute => 6 case EolInString => 3 case UnexpectedEof => 10 case Unmatched => 9
    case MissingParentheses => 7 case GeneratorParens => 9 case ComprehensionTarget => 3
    case FullWidthSpace => 7 case FullWidthChar => 7 case InvalidChar => 7 case FromImport => 3
    case LeadingZeros => 7 case InvalidDecimal => 7
  }

  /** Every rule before the call rules starts with a word: a space or a
      quote comes before any `(` in its text. */
  lemma WordLedBeforeCall(id: RuleId)
    requires RulePos(id) < 34
    ensures WordLed(TestOf(id), StopOf(id))
  {
    match id
    case SyntaxError(r) => SyntaxWord(r);
    case IndentationError(r) => IndentWord(r);
    case IndexError(r) => IndexWord(r);
    case NameError(r) => NameWord(r);
    case UnboundLocalError => UnboundWord();
    case TypeError(r) => TypeWord(r);
    case _ =>
  }

  lemma SyntaxWord(r: SyntaxRule)
    ensures WordLed(SyntaxTest(r), SyntaxStop(r))
  {
    match r
    case InvalidSyntax => InvalidSyntaxWord();
    case NeverClosed => NeverClosedWord();
    case UnterminatedString => UnterminatedStringWord();
    case EofInString => EofInStringWord();
    case ExpectedColon => ExpectedColonWord();
    case ForgotComma => ForgotCommaWord();
    case MaybeEquality => MaybeEqualityWord();
    case AssignToExpression => AssignToExpressionWord();
    case AssignToAttribute => AssignToAttributeWord();
    case EolInString => EolInStringWord();
    case UnexpectedEof => UnexpectedEofWord();
    case Unmatched => UnmatchedWord();
    case MissingParentheses => MissingParenthesesWord();
    case GeneratorParens => GeneratorParensWord();
    case ComprehensionTarget => ComprehensionTargetWord();
    case FullWidthSpace => FullWidthSpaceWord();
    case FullWidthChar => FullWidthCharWord();
    case InvalidChar => InvalidCharWord();
    case FromImport => FromImportWord();
    case LeadingZeros => LeadingZerosWord();
    case InvalidDecimal => InvalidDecimalWord();
  }

  lemma IndentWord(r: IndentRule)
    ensures WordLed(IndentTest(r), StopOf(IndentationError(r)))
  {
    match r
    case UnexpectedIndent => UnexpectedIndentWord();
    case ExpectedIndent => ExpectedIndentWord();
    case UnindentMismatch => UnindentMismatchWord();
    case ExpectedIndentAfter => ExpectedIndentAfterWord();
    case TabsAndSpaces => TabsAndSpacesWord();
  }

  lemma IndexWord(r: IndexRule)
    ensures WordLed(IndexTest(r), StopOf(IndexError(r)))
  {
    match r
    case ListIndex => ListIndexWord();
    case TupleIndex => TupleIndexWord();
    case StringIndex => StringIndexWord();
  }

  lemma NameWord(r: NameRule)
    ensures WordLed(NameTest(r), StopOf(NameError(r)))
  {
    match r
    case NameSuggestion => NameSuggestionWord();
    case NameNotDefined => NameNotDefinedWord();
  }

  lemma TypeWord(r: TypeRule)
    requires TypePos(r) < 2
    ensures WordLed(TypeTest(r), StopOf(TypeError(r)))
  {
    match r
    case ConcatStr => ConcatStrWord();
    case UnsupportedPlus => UnsupportedPlusWord();
    case _ =>
  }

  // The first word of each rule's text, one rule at a time.
  lemma InvalidSyntaxWord() ensures WordLed(SyntaxTest(InvalidSyntax), 7) {}
  lemma NeverClosedWord() ensures WordLed(SyntaxTest(NeverClosed), 0) {}
  lemma UnterminatedStringWord() ensures WordLed(SyntaxTest(UnterminatedString), 12) {}
  lemma EofInStringWord() ensures WordLed(SyntaxTest(EofInString), 3) {}
  lemma ExpectedColonWord() ensures WordLed(SyntaxTest(ExpectedColon), 8) {}
  lemma ForgotCommaWord() ensures WordLed(SyntaxTest(ForgotComma), 7) {}
  lemma MaybeEqualityWord() ensures WordLed(SyntaxTest(MaybeEquality), 7) {}
  lemma AssignToExpressionWord() ensures WordLed(SyntaxTest(AssignToExpression), 6) {}
  lemma AssignToAttributeWord() ensures WordLed(SyntaxTest(AssignToAttribute), 6) {}
  lemma EolInStringWord() ensures WordLed(SyntaxTest(EolInString), 3) {}
  lemma UnexpectedEofWord() ensures WordLed(SyntaxTest(UnexpectedEof), 10) {}
  lemma UnmatchedWord() ensures WordLed(SyntaxTest(Unmatched), 9) {}
  lemma MissingParenthesesWord() ensures WordLed(SyntaxTest(MissingParentheses), 7) {}
  lemma GeneratorParensWord() ensures WordLed(SyntaxTest(GeneratorParens), 9) {}
  lemma ComprehensionTargetWord() ensures WordLed(SyntaxTest(ComprehensionTarget), 3) {}
  lemma FullWidthSpaceWord() ensures WordLed(SyntaxTest(FullWidthSpace), 7) {}
  lemma FullWidthCharWord() ensures WordLed(SyntaxTest(FullWidthChar), 7) {}
  lemma InvalidCharWord() ensures WordLed(SyntaxTest(InvalidChar), 7) {}
  lemma FromImportWord() ensures WordLed(SyntaxTest(FromImport), 3) {}
  lemma LeadingZerosWord() ensures WordLed(SyntaxTest(LeadingZeros), 7) {}
  lemma InvalidDecimalWord() ensures WordLed(SyntaxTest(InvalidDecimal), 7) {}
  lemma UnexpectedIndentWord() ensures WordLed(IndentTest(UnexpectedIndent), 10) {}
  lemma ExpectedIndentWord() ensures WordLed(IndentTest(ExpectedIndent), 8) {}
  lemma UnindentMismatchWord() ensures WordLed(IndentTest(UnindentMismatch), 8) {}
  lemma ExpectedIndentAfterWord() ensures WordLed(IndentTest(ExpectedIndentAfter), 8) {}
  lemma TabsAndSpacesWord() ensures WordLed(IndentTest(TabsAndSpaces), 12) {}
  lemma ListIndexWord() ensures WordLed(IndexTest(ListIndex), 4) {}
  lemma TupleIndexWord() ensures WordLed(IndexTest(TupleIndex), 5) {}
  lemma StringIndexWord() ensures WordLed(IndexTest(StringIndex), 6) {}
  lemma NameSuggestionWord() ensures WordLed(NameTest(NameSuggestion), 4) {}
  lemma NameNotDefinedWord() ensures WordLed(NameTest(NameNotDefined), 4) {}
  lemma UnboundWord() ensures WordLed(TestOf(UnboundLocalError), 6) {}
  lemma ConcatStrWord() ensures WordLed(TypeTest(ConcatStr), 3) {}
  lemma UnsupportedPlusWord() ensures WordLed(TypeTest(UnsupportedPlus), 11) {}

  /** No rule before the call rules accepts a message made of a call name
      and `(`. */
  lemma QuietBeforeCall(f: string, rest: string, ctx: Context)
    requires CallName(f) && ctx.message == f + "(" + rest
    ensures Rules[34] == TypeError(MissingArguments)
    ensures NoneFires(Rules[..34], ctx)
  {
    forall id: RuleId | RulePos(id) < 34 ensures Accepts(TestOf(id), ctx).None? {
      WordLedBeforeCall(id);
      WordLedSound(TestOf(id), StopOf(id), f, rest, ctx);
    }
    QuietWhere(ctx, 34);
    TypeAt();
  }

  function MissingArgumentsParts(f: string, n: string, args: string): seq<string>
  {
    [f, "() missing ", n, MissingArgumentsMiddle, args]
  }

  lemma MissingArgumentsMatch(f: string, n: string, args: string, m: string)
    requires f != [] && '(' !in f && n != [] && AllDigits(n) && args != [] && NoLineBreak(args)
    requires m == f + "() missing " + n + MissingArgumentsMiddle + args
    ensures Match(TypeTest(MissingArguments).pattern, m) == Some([f, n, args])
  {
    MissingArgumentsAssembly(f, n, args);
    MissingArgumentsTakes(f, n, args);
    TakesAll(TypeTest(MissingArguments).pattern, MissingArgumentsParts(f, n, args));
  }

  lemma MissingArgumentsAssembly(f: string, n: string, args: string)
    ensures ConcatFrom(MissingArgumentsParts(f, n, args), 0) == f + "() missing " + n + MissingArgumentsMiddle + args
  {
    var parts := MissingArgumentsParts(f, n, args);
    var r4 := args;
    var r3 := MissingArgumentsMiddle + r4;
    var r2 := n + r3;
    var r1 := "() missing " + r2;
    assert ConcatFrom(parts, 4) == r4;
    assert ConcatFrom(parts, 3) == r3;
    assert ConcatFrom(parts, 2) == r2;
    assert ConcatFrom(parts, 1) == r1;
  }

  lemma MissingArgumentsTakes(f: string, n: string, args: string)
    requires f != [] && '(' !in f && n != [] && AllDigits(n) && args != [] && NoLineBreak(args)
    ensures Takes(TypeTest(MissingArguments).pattern, 0, 5, MissingArgumentsParts(f, n, args), [])
    ensures Captured(TypeTest(MissingArguments).pattern, 0, 5, MissingArgumentsParts(f, n, args)) == [f, n, args]
  {
    var p, parts := TypeTest(MissingArguments).pattern, MissingArgumentsParts(f, n, args);
    assert Takes(p, 4, 5, parts, []);
    assert Takes(p, 3, 5, parts, []);
    assert Takes(p, 2, 5, parts, []);
    assert Takes(p, 1, 5, parts, []);
    assert ConcatFrom(parts, 1)[0] == '(';
    assert Captured(p, 2, 5, parts) == [n, args];
  }

  /** Two names, as Python lists them: `'a' and 'b'` becomes `'a', 'b'`. */
  lemma JoinArgsTwo(a: string, b: string)
    requires ',' !in a && ',' !in b && ' ' !in a
    ensures JoinArgs("'" + a + "' and '" + b + "'") == "'" + a + "', '" + b + "'"
  {
    var s := "'" + a + "' and '" + b + "'";
    TwoNamesNoComma(a, b);
    IndexOfAbsent(s, ", and ");
    TwoNamesFirstAnd(a, b);
    var i := |a| + 2;
    assert s[..i] + ", " + s[i + 5..] == "'" + a + "', '" + b + "'";
  }

  lemma TwoNamesNoComma(a: string, b: string)
    requires ',' !in a && ',' !in b
    ensures forall k | 0 <= k < |"'" + a + "' and '" + b + "'"| :: ("'" + a + "' and '" + b + "'")[k] != ','
  {
    var s := "'" + a + "' and '" + b + "'";
    forall k | 0 <= k < |s| ensures s[k] != ',' {
      if 1 <= k < 1 + |a| {
        assert s[k] == a[k - 1];
      } else if 1 + |a| + 7 <= k < |s| - 1 {
        assert s[k] == b[k - |a| - 8];
      }
    }
  }

  lemma TwoNamesFirstAnd(a: string, b: string)
    requires ' ' !in a
    ensures IndexOf("'" + a + "' and '" + b + "'", " and ") == Some(|a| + 2)
  {
    var s := "'" + a + "' and '" + b + "'";
    var i := |a| + 2;
    assert s[i..i + 5] == " and ";
    forall k | 0 <= k < i ensures !OccursAt(s, k, " and ") {
      if 1 <= k < 1 + |a| {
        assert s[k] == a[k - 1];
      }
      if k + 5 <= |s| {
        assert s[k..k + 5][0] == s[k] != ' ';
      }
    }
    IndexOfFirst(s, " and ", i);
  }

  // ---------------------------------------------------------------------------
  // Messages no rule knows

  /** The first characters of all the messages the pattern and literal rules accept. */
  const RuleLeads: string := "'liuEecMGdDtsnN[f"

  /** A message that starts unlike every rule, holds no `(` and is not a
      KeyError is shown as it is. */
  lemma UnknownPassesThrough(ctx: Context)
    requires !LeadsWith(ctx.message, RuleLeads) && '(' !in ctx.message && ctx.errorType != "KeyError"
    ensures Translate(ctx) == ctx.message
  {
    AllLeadsExcluded(ctx);
    Quiet(ctx, 48, {});
    RulePositions();
    assert Rules[..48] == Rules;
  }

  lemma SyntaxLeadWithin(r: SyntaxRule)
    ensures forall c | c in SyntaxLeadChars(r) :: c in RuleLeads
  {
  }

  lemma AllLeadsExcluded(ctx: Context)
    requires !LeadsWith(ctx.message, RuleLeads) && '(' !in ctx.message && ctx.errorType != "KeyError"
    ensures forall id: RuleId | RulePos(id) < 48 :: LeadExcludes(id, ctx)
  {
    forall id: RuleId | RulePos(id) < 48 ensures LeadExcludes(id, ctx) {
      match id
      case SyntaxError(r) => SyntaxLeadWithin(r);
      case IndentationError(r) =>
      case TypeError(r) =>
      case _ =>
    }
  }

  /** Python's `maximum recursion depth exceeded` has no rule of its own. */
  lemma RecursionErrorPassesThrough(ctx: Context)
    requires ctx.message == "maximum recursion depth exceeded" && ctx.errorType == "RecursionError"
    ensures Translate(ctx) == "maximum recursion depth exceeded"
  {
    RecursionMessageUnknown(ctx.message);
    UnknownPassesThrough(ctx);
  }

  lemma RecursionMessageUnknown(m: string)
    requires m == "maximum recursion depth exceeded"
    ensures !LeadsWith(m, RuleLeads) && '(' !in m
  {
    assert m[0] == 'm';
  }

  // ---------------------------------------------------------------------------
  // Invalid characters

  const InvalidCharLead: string := "invalid character '"

  /** `invalid character 'C' (U+...)` with a full-width symbol C: the general
      invalid-character rule would accept it too, but the full-width rule
      comes first and asks for the text to be retyped in English input mode. */
  lemma FullWidthCharSentence(c: char, code: string, ctx: Context)
    requires c in FullWidthSymbols && code != [] && ')' !in code
    requires ctx.message == InvalidCharLead + [c] + "' (" + code + ")"
    ensures Translate(ctx) == "全角の " + [c] + " が使われています。英語入力状態で書き直してください。"
  {
    InvalidCharLeadRest(c, code, ctx.message);
    QuietBeforeInvalidChar(ctx, [c] + "' (" + code + ")");
    InvalidCharFires(FullWidthChar, c, code, ctx);
    Decides(16, ctx);
  }

  /** Every full-width symbol is a character of the general rule's class,
      so that rule accepts every message the full-width rule does: only
      their order picks the full-width sentence. */
  lemma FullWidthSymbolsPrintable()
    ensures forall c | c in FullWidthSymbols :: InClass(c, SyntaxTest(InvalidChar).pattern[1].cls)
  {
  }

  /** Any other character of the Basic Multilingual Plane but a line break
      gets the general sentence. */
  lemma InvalidCharSentence(c: char, code: string, ctx: Context)
    requires c !in FullWidthSymbols && !IsLineBreak(c) && c < '\U{10000}' && code != [] && ')' !in code
    requires ctx.message == InvalidCharLead + [c] + "' (" + code + ")"
    ensures Translate(ctx) == "不正な文字 " + [c] + " が使われています。"
  {
    InvalidCharLeadRest(c, code, ctx.message);
    FullWidthCharDeclines(c, ctx);
    QuietBeforeInvalidChar(ctx, [c] + "' (" + code + ")");
    InvalidCharFires(InvalidChar, c, code, ctx);
    Decides(17, ctx);
  }

  /** `invalid character 'C' (U+…)` for a character C outside the Basic
      Multilingual Plane, such as an emoji: the single `(.)` takes only the
      first half of C's surrogate pair, so neither invalid-character rule
      accepts the message. Unless the exception is a KeyError, whose rule
      accepts any message, no other rule does either, and the message is
      shown as Python wrote it. */
  lemma AstralCharPassesThrough(c: char, code: string, ctx: Context)
    requires c >= '\U{10000}' && code != [] && ')' !in code
    requires ctx.message == InvalidCharLead + [c] + "' (" + code + ")" && ctx.errorType != "KeyError"
    ensures Translate(ctx) == ctx.message
  {
    var name, after := InvalidCharLead + [c] + "' ", "(" + code + ")";
    AstralCharLayout(c, code, ctx.message);
    IntLiteralLeadsExcluded(ctx);
    AstralRivalsRefused(c, code, ctx);
    forall id: RuleId | RulePos(id) < 48 ensures Accepts(TestOf(id), ctx).None? {
      if RulePos(id) >= 39 {
        AstralTailRefused(id, ctx);
      } else if id !in IntLiteralRivals {
        LeadExcludesTest(id, ctx);
      }
    }
    QuietWhere(ctx, 48);
    RulePositions();
    assert Rules[..48] == Rules;
  }

  /** The message is a name without `(` (up to the space before `(U+`), then
      `(` and the code; it starts like both invalid-character rules' text. */
  lemma AstralCharLayout(c: char, code: string, m: string)
    requires c >= '\U{10000}' && code != [] && ')' !in code
    requires m == InvalidCharLead + [c] + "' (" + code + ")"
    ensures m == (InvalidCharLead + [c] + "' ") + ("(" + code + ")")
    ensures m == InvalidCharLead + ([c] + "' (" + code + ")") && StartsWith(m, InvalidCharLead + [c])
    ensures '(' !in InvalidCharLead + [c] + "' " && code[0] != ')'
    ensures LeadsWith(m, "i") && '(' in m && m[8] == 'c' && StartsWith(m, InvalidCharLead)
  {
    InvalidCharLeadRest(c, code, m);
    var name := InvalidCharLead + [c] + "' ";
    assert m == name + ("(" + code + ")");
    assert m[|name|] == '(';
    assert m[..|InvalidCharLead|] == InvalidCharLead;
    assert m[0] == 'i' && m[8] == 'c';
    assert code[0] in code;
  }

  /** The rules before the `int()` rule that the lead leaves open all refuse
      the message. */
  lemma AstralRivalsRefused(c: char, code: string, ctx: Context)
    requires c >= '\U{10000}' && code != [] && ')' !in code
    requires ctx.message == InvalidCharLead + [c] + "' (" + code + ")"
    ensures forall id | id in IntLiteralRivals :: Accepts(TestOf(id), ctx).None?
  {
    AstralCharLayout(c, code, ctx.message);
    InvalidCharRivalsRefused(ctx, [c] + "' (" + code + ")");
    forall id | id in IntLiteralRivals - InvalidCharRivals ensures Accepts(TestOf(id), ctx).None? {
      AstralRivalRefused(id, c, code, ctx);
    }
  }

  lemma AstralRivalRefused(id: RuleId, c: char, code: string, ctx: Context)
    requires id in IntLiteralRivals - InvalidCharRivals
    requires c >= '\U{10000}' && code != [] && ')' !in code
    requires ctx.message == InvalidCharLead + [c] + "' (" + code + ")"
    ensures Accepts(TestOf(id), ctx).None?
  {
    var m := ctx.message;
    AstralCharLayout(c, code, m);
    if id.TypeError? {
      AstralCallRival(id.typeRule, InvalidCharLead + [c] + "' ", "(" + code + ")");
    } else {
      AstralSyntaxRival(id, c, ctx);
    }
  }

  lemma AstralSyntaxRival(id: RuleId, c: char, ctx: Context)
    requires id in {SyntaxError(FullWidthChar), SyntaxError(InvalidChar),
      SyntaxError(InvalidDecimal), IndentationError(TabsAndSpaces)}
    requires c >= '\U{10000}' && StartsWith(ctx.message, InvalidCharLead + [c]) && ctx.message[8] == 'c'
    ensures Accepts(TestOf(id), ctx).None?
  {
    var m := ctx.message;
    if id == SyntaxError(FullWidthChar) {
      AstralNotFullWidth(c);
      FullWidthCharRefused(c, m);
    } else if id == SyntaxError(InvalidChar) {
      AstralInvalidCharRefused(c, m);
    } else {
      AstralEqualsRival(id);
      DiffersAt(m, TestOf(id).text, 8);
    }
  }

  /** The general invalid-character rule does not accept a character outside
      the Basic Multilingual Plane. */
  lemma AstralInvalidCharRefused(c: char, m: string)
    requires c >= '\U{10000}' && StartsWith(m, InvalidCharLead + [c])
    ensures Match(SyntaxTest(InvalidChar).pattern, m).None?
  {
    var p := SyntaxTest(InvalidChar).pattern;
    var n := |InvalidCharLead|;
    assert m[..n] == InvalidCharLead && m[n..][0] == c;
    MatchOneRefuses(p, 1, m[n..]);
    MatchLitStep(p, 0, InvalidCharLead, m[n..]);
    assert m == InvalidCharLead + m[n..];
  }

  lemma AstralNotFullWidth(c: char)
    requires c >= '\U{10000}'
    ensures c !in FullWidthSymbols
  {
    assert forall x | x in FullWidthSymbols :: x < '\U{10000}';
  }

  lemma AstralEqualsRival(id: RuleId)
    requires id in {SyntaxError(InvalidDecimal), IndentationError(TabsAndSpaces)}
    ensures TestOf(id).Equals? && |TestOf(id).text| > 8 && TestOf(id).text[8] != 'c'
  {
  }

  /** The call rules want `()` where the message has `(U`. */
  lemma AstralCallRival(r: TypeRule, name: string, after: string)
    requires TypeError(r) in IntLiteralRivals && '(' !in name
    requires |after| > 1 && after[0] == '(' && after[1] != ')'
    ensures TypeTest(r).Shape? && Match(TypeTest(r).pattern, name + after).None?
  {
    var rest := TypeTest(r).pattern[1..];
    assert TypeTest(r).pattern == CallPattern(rest);
    DiffersAt(after, rest[0].text, 1);
    CallPatternRefuted(rest, name, after);
  }

  /** From the `int()` rule on: the two ValueError rules differ from the
      message at its ninth and first character, KeyError wants another
      exception type, and the others start with other characters. */
  lemma AstralTailRefused(id: RuleId, ctx: Context)
    requires 39 <= RulePos(id) < 48
    requires StartsWith(ctx.message, InvalidCharLead) && ctx.errorType != "KeyError"
    ensures Accepts(TestOf(id), ctx).None?
  {
    var m := ctx.message;
    assert m[0] == 'i' && m[8] == 'c';
    match id
    case ValueError(r) =>
      var p := ValueTest(r).pattern;
      if r == InvalidIntLiteral {
        DiffersAt(m, p[0].text, 8);
      } else {
        DiffersAt(m, p[0].text, 0);
      }
      MatchLitMismatch(p, 0, p[0].text, m);
    case _ =>
      LeadExcludesTest(id, ctx);
  }

  /** The message is the lead, the character, and the rest. */
  lemma InvalidCharLeadRest(c: char, code: string, m: string)
    requires m == InvalidCharLead + [c] + "' (" + code + ")"
    ensures m == InvalidCharLead + ([c] + "' (" + code + ")") && StartsWith(m, InvalidCharLead + [c])
  {
    assert m == (InvalidCharLead + [c]) + ("' (" + code + ")");
  }

  lemma FullWidthCharDeclines(c: char, ctx: Context)
    requires c !in FullWidthSymbols && StartsWith(ctx.message, InvalidCharLead + [c])
    ensures Accepts(SyntaxTest(FullWidthChar), ctx).None?
  {
    FullWidthCharRefused(c, ctx.message);
  }

  /** Each invalid-character rule accepts a character of its class and
      shows it. */
  lemma InvalidCharFires(r: SyntaxRule, c: char, code: string, ctx: Context)
    requires r == FullWidthChar || r == InvalidChar
    requires (if r == FullWidthChar then c in FullWidthSymbols else InClass(c, BmpNotLineBreak)) && code != [] && ')' !in code
    requires ctx.message == InvalidCharLead + [c] + "' (" + code + ")"
    ensures r == FullWidthChar ==>
      Fire(SyntaxError(r), ctx) == Some("全角の " + [c] + " が使われています。英語入力状態で書き直してください。")
    ensures r == InvalidChar ==> Fire(SyntaxError(r), ctx) == Some("不正な文字 " + [c] + " が使われています。")
  {
    InvalidCharMatch(r, c, code, ctx.message);
  }

  /** The rules before the invalid-character rules that accept messages led by `i`. */
  const InvalidCharRivals: set<RuleId> := {SyntaxError(InvalidSyntax), SyntaxError(ForgotComma),
    SyntaxError(MaybeEquality), SyntaxError(FullWidthSpace)}

  lemma QuietBeforeInvalidChar(ctx: Context, rest: string)
    requires ctx.message == InvalidCharLead + rest
    ensures Rules[16] == SyntaxError(FullWidthChar) && Rules[17] == SyntaxError(InvalidChar)
    ensures NoneFires(Rules[..16], ctx)
    ensures Accepts(SyntaxTest(FullWidthChar), ctx).None? ==> NoneFires(Rules[..17], ctx)
  {
    InvalidCharRivalsRefused(ctx, rest);
    InvalidCharLeadsExcluded(ctx, rest);
    Quiet(ctx, 16, InvalidCharRivals);
    SyntaxAt();
    assert Rules[..17] == Rules[..16] + [Rules[16]];
  }

  lemma InvalidCharRivalsRefused(ctx: Context, rest: string)
    requires ctx.message == InvalidCharLead + rest
    ensures forall id | id in InvalidCharRivals :: Accepts(TestOf(id), ctx).None?
  {
    var m := ctx.message;
    assert m[8] == 'c';
    forall id | id in InvalidCharRivals ensures Accepts(TestOf(id), ctx).None? {
      InvalidCharRival(id);
      DiffersAt(m, TestOf(id).text, 8);
    }
  }

  lemma InvalidCharLeadsExcluded(ctx: Context, rest: string)
    requires ctx.message == InvalidCharLead + rest
    ensures forall id: RuleId | RulePos(id) < 16 :: id in InvalidCharRivals || LeadExcludes(id, ctx)
  {
    var m := ctx.message;
    assert m[0] == 'i';
    forall id: RuleId | RulePos(id) < 16 ensures id in InvalidCharRivals || LeadExcludes(id, ctx) {
      SyntaxLedByI(id.syntax, m);
    }
  }

  lemma InvalidCharRival(id: RuleId)
    requires id in InvalidCharRivals
    ensures TestOf(id).Equals? && |TestOf(id).text| > 8 && TestOf(id).text[8] != 'c'
  {
  }

  function InvalidCharParts(c: char, code: string): seq<string>
  {
    [InvalidCharLead, [c], "' (", code, ")"]
  }

  lemma InvalidCharMatch(r: SyntaxRule, c: char, code: string, m: string)
    requires r == FullWidthChar || r == InvalidChar
    requires InClass(c, SyntaxTest(r).pattern[1].cls) && code != [] && ')' !in code
    requires m == InvalidCharLead + [c] + "' (" + code + ")"
    ensures Match(SyntaxTest(r).pattern, m) == Some([[c], code])
  {
    InvalidCharAssembly(c, code);
    InvalidCharTakes(r, c, code);
    TakesAll(SyntaxTest(r).pattern, InvalidCharParts(c, code));
  }

  lemma InvalidCharAssembly(c: char, code: string)
    ensures ConcatFrom(InvalidCharParts(c, code), 0) == InvalidCharLead + [c] + "' (" + code + ")"
  {
    var parts := InvalidCharParts(c, code);
    var r4 := ")";
    var r3 := code + r4;
    var r2 := "' (" + r3;
    var r1 := [c] + r2;
    assert ConcatFrom(parts, 4) == r4;
    assert ConcatFrom(parts, 3) == r3;
    assert ConcatFrom(parts, 2) == r2;
    assert ConcatFrom(parts, 1) == r1;
  }

  lemma InvalidCharTakes(r: SyntaxRule, c: char, code: string)
    requires r == FullWidthChar || r == InvalidChar
    requires InClass(c, SyntaxTest(r).pattern[1].cls) && code != [] && ')' !in code
    ensures Takes(SyntaxTest(r).pattern, 0, 5, InvalidCharParts(c, code), [])
    ensures Captured(SyntaxTest(r).pattern, 0, 5, InvalidCharParts(c, code)) == [[c], code]
  {
    var cls := SyntaxTest(r).pattern[1].cls;
    assert SyntaxTest(r).pattern == InvalidCharShape(cls);
    InvalidCharShapeTakes(cls, c, code);
  }

  /** Both invalid-character rules share one shape; only the class differs. */
  function InvalidCharShape(cls: CharClass): Pattern
  {
    [Lit(InvalidCharLead), One(cls, true), Lit("' ("), Many(NoneOf(")"), true, true), Lit(")")]
  }

  lemma InvalidCharShapeTakes(cls: CharClass, c: char, code: string)
    requires InClass(c, cls) && code != [] && ')' !in code
    ensures Takes(InvalidCharShape(cls), 0, 5, InvalidCharParts(c, code), [])
    ensures Captured(InvalidCharShape(cls), 0, 5, InvalidCharParts(c, code)) == [[c], code]
  {
    var p, parts := InvalidCharShape(cls), InvalidCharParts(c, code);
    assert Takes(p, 4, 5, parts, []);
    assert Takes(p, 3, 5, parts, []);
    assert Takes(p, 2, 5, parts, []);
    assert Takes(p, 1, 5, parts, []);
    assert Captured(p, 3, 5, parts) == [code];
  }

  lemma FullWidthCharRefused(c: char, m: string)
    requires c !in FullWidthSymbols
    requires StartsWith(m, InvalidCharLead + [c])
    ensures Match(SyntaxTest(FullWidthChar).pattern, m).None?
  {
    var p := SyntaxTest(FullWidthChar).pattern;
    var n := |InvalidCharLead|;
    assert m[..n] == InvalidCharLead && m[n..][0] == c;
    MatchOneRefuses(p, 1, m[n..]);
    MatchLitStep(p, 0, InvalidCharLead, m[n..]);
    assert m == InvalidCharLead + m[n..];
  }

  // ---------------------------------------------------------------------------
  // The rules that look at the snippet

  /** `invalid syntax` is the first rule: a `for` header without `in` gets
      the forgotten-`in` hint, anything else the generic one. */
  lemma InvalidSyntaxSentence(ctx: Context)
    requires ctx.message == "invalid syntax"
    ensures ForWithoutIn(ctx.snippet) ==> Translate(ctx) == "文法が正しくありません。in を忘れていませんか？"
    ensures !ForWithoutIn(ctx.snippet) ==>
      Translate(ctx) == "文法が正しくありません。入力ミス等が無いか確認してください。"
  {
    assert Rules[0] == SyntaxError(InvalidSyntax);
    assert NoneFires(Rules[..0], ctx);
    Decides(0, ctx);
  }

  /** `expected ':'`: an `else` followed by a comparison gets the hint to use
      `elif`, anything else the missing-colon sentence. */
  lemma ExpectedColonSentence(ctx: Context)
    requires ctx.message == "expected ':'"
    ensures ElseWithCondition(ctx.snippet) ==>
      Translate(ctx) == "else の後に条件式を書くことはできません。elif を使うか、あるいは条件式を消す必要があります。"
    ensures !ElseWithCondition(ctx.snippet) ==> Translate(ctx) == "コロン「:」を忘れています。"
  {
    QuietBeforeExpectedColon(ctx);
    Decides(4, ctx);
  }

  lemma QuietBeforeExpectedColon(ctx: Context)
    requires ctx.message == "expected ':'"
    ensures Rules[4] == SyntaxError(ExpectedColon)
    ensures NoneFires(Rules[..4], ctx)
  {
    var m := ctx.message;
    assert m[0] == 'e';
    var except := {SyntaxError(UnterminatedString), SyntaxError(EofInString)};
    forall id | id in except ensures Accepts(TestOf(id), ctx).None? {
      var p := TestOf(id).pattern;
      DiffersAt(m, p[0].text, 0);
      MatchLitMismatch(p, 0, p[0].text, m);
    }
    forall id: RuleId | RulePos(id) < 4 ensures id in except || LeadExcludes(id, ctx) {
      SyntaxLeadA(id.syntax);
    }
    Quiet(ctx, 4, except);
    SyntaxAt();
  }

  /** A `for` header without `in`. */
  lemma ForWithoutInExample()
    ensures ForWithoutIn("for x range(10):")
  {
    var s := "for x range(10):";
    assert SkipSpaces(s, 0) == 0 by { assert !IsSpace(s[0]); }
    assert OccursAt(s, 0, "for") && IsSpace(s[3]);
    IndexOfAbsent(s, "in");
  }

  /** A `for` header with `in` is left alone. */
  lemma ForWithInExample()
    ensures !ForWithoutIn("for x in range(10):")
  {
    assert OccursAt("for x in range(10):", 6, "in");
  }

  /** An `else` line holding a comparison. */
  lemma ElseWithConditionExample()
    ensures ElseWithCondition("else x == 1:")
  {
    var s := "else x == 1:";
    assert SkipSpaces(s, 0) == 0 by { assert !IsSpace(s[0]); }
    assert OccursAt(s, 0, "else");
    assert SkipSpaces(s, 4) == 5 by { assert IsSpace(s[4]) && !IsSpace(s[5]); }
    assert s[7] in "=<>" && s[11] == ':' && NoLineBreak(s[5..11]);
    assert ConditionThenColon(s, 5);
  }
}
