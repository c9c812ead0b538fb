/** Hand-written recognisers for the anchored regular expressions of the
    message cascade (`/^...$/` in script.js:263-377).

    Every expression there is a sequence of literal text, single characters of
    a class, greedy runs of a class (`[^']+`, `\d+`, `.+`, `[^']*`) and
    optional literal groups (`(?:triple-quoted )?`, `(float )?`). `MatchFrom`
    matches such a sequence possessively: a run takes all the characters of
    its class. `BacktrackFrom` is the regex engine's own semantics (a greedy
    run gives characters back one at a time until the rest matches), and
    `PossessiveIsBacktracking` shows the two agree on every pattern in which a
    run is last or is followed by a literal that starts outside its class —
    which is the case for every pattern of the cascade.

    The expressions have no `u` flag, so `.` matches one UTF-16 code unit.
    A run of `.` takes both halves of a surrogate pair, which is the same as
    taking the character. A single `.` is always followed by a literal, so
    it takes the first half and the literal then fails on the second: at
    such a position a character outside the Basic Multilingual Plane does
    not match, which `BmpNotLineBreak` states. */
module Patterns {
  import opened Text

  datatype CharClass =
    | NoneOf(chars: string)   // [^...]
    | AnyOf(chars: string)    // [...]
    | Digit                   // \d
    | NotLineBreak            // . in a run
    | BmpNotLineBreak         // . as a single character

  predicate InClass(c: char, cls: CharClass) {
    match cls
    case NoneOf(cs) => c !in cs
    case AnyOf(cs) => c in cs
    case Digit => IsDigit(c)
    case NotLineBreak => !IsLineBreak(c)
    case BmpNotLineBreak => !IsLineBreak(c) && c < '\U{10000}'
  }

  /** The end of the maximal run of characters of `cls` starting at `i`. */
  function ClassRunEnd(s: string, i: nat, cls: CharClass): (e: nat)
    requires i <= |s|
    ensures i <= e <= |s|
    ensures forall k :: i <= k < e ==> InClass(s[k], cls)
    ensures e == |s| || !InClass(s[e], cls)
    decreases |s| - i
  {
    if i < |s| && InClass(s[i], cls) then ClassRunEnd(s, i + 1, cls) else i
  }

  datatype Piece =
    | Lit(text: string)                                 // literal text
    | Opt(text: string)                                 // (?:text)? — an optional literal, not captured
    | One(cls: CharClass, capture: bool)                // a single character of the class
    | Many(cls: CharClass, nonEmpty: bool, capture: bool) // cls+ (nonEmpty) or cls*, greedy

  /** A pattern is anchored at both ends: the whole message must match. */
  type Pattern = seq<Piece>

  /** The number of capture groups in `p` from piece `j` on. */
  function Captures(p: Pattern, j: nat): nat
    requires j <= |p|
    decreases |p| - j
  {
    if j == |p| then 0
    else
      var here := match p[j]
        case One(_, cap) => if cap then 1 else 0
        case Many(_, _, cap) => if cap then 1 else 0
        case _ => 0;
      here + Captures(p, j + 1)
  }

  /** Put a captured group in front of the groups matched after it. */
  function Keep(capture: bool, g: string, rest: Option<seq<string>>): Option<seq<string>>
  {
    match rest
    case None => None
    case Some(gs) => Some(if capture then [g] + gs else gs)
  }

  /** Possessive matching of pieces `j..` against the whole of `s`; the
      result holds the captured groups in order. */
  function MatchFrom(p: Pattern, j: nat, s: string): (r: Option<seq<string>>)
    requires j <= |p|
    ensures r.Some? ==> |r.value| == Captures(p, j)
    decreases |p| - j
  {
    if j == |p| then (if s == [] then Some([]) else None)
    else match p[j]
      case Lit(t) =>
        if StartsWith(s, t) then MatchFrom(p, j + 1, s[|t|..]) else None
      case Opt(t) =>
        if StartsWith(s, t) && MatchFrom(p, j + 1, s[|t|..]).Some? then MatchFrom(p, j + 1, s[|t|..])
        else MatchFrom(p, j + 1, s)
      case One(cls, cap) =>
        if s != [] && InClass(s[0], cls) then Keep(cap, s[..1], MatchFrom(p, j + 1, s[1..])) else None
      case Many(cls, nonEmpty, cap) =>
        var e := ClassRunEnd(s, 0, cls);
        if nonEmpty && e == 0 then None else Keep(cap, s[..e], MatchFrom(p, j + 1, s[e..]))
  }

  function Match(p: Pattern, s: string): (r: Option<seq<string>>)
    ensures r.Some? ==> |r.value| == Captures(p, 0)
  {
    MatchFrom(p, 0, s)
  }

  // ---------------------------------------------------------------------------
  // The regex engine's backtracking semantics, and when it agrees with MatchFrom

  function BacktrackFrom(p: Pattern, j: nat, s: string): Option<seq<string>>
    requires j <= |p|
    decreases |p| - j, 1, 0
  {
    if j == |p| then (if s == [] then Some([]) else None)
    else match p[j]
      case Lit(t) =>
        if StartsWith(s, t) then BacktrackFrom(p, j + 1, s[|t|..]) else None
      case Opt(t) =>
        if StartsWith(s, t) && BacktrackFrom(p, j + 1, s[|t|..]).Some? then BacktrackFrom(p, j + 1, s[|t|..])
        else BacktrackFrom(p, j + 1, s)
      case One(cls, cap) =>
        if s != [] && InClass(s[0], cls) then Keep(cap, s[..1], BacktrackFrom(p, j + 1, s[1..])) else None
      case Many(cls, nonEmpty, cap) =>
        var e := ClassRunEnd(s, 0, cls);
        if nonEmpty && e == 0 then None else TryRun(p, j, s, e)
  }

  /** A greedy run tries its longest length first and gives back one
      character at a time. */
  function TryRun(p: Pattern, j: nat, s: string, n: nat): Option<seq<string>>
    requires j < |p| && p[j].Many? && n <= |s|
    decreases |p| - j, 0, n
  {
    var r := Keep(p[j].capture, s[..n], BacktrackFrom(p, j + 1, s[n..]));
    if r.Some? || n == 0 || (p[j].nonEmpty && n == 1) then r else TryRun(p, j, s, n - 1)
  }

  /** Every run is last or followed by a literal whose first character is
      outside the run's class, so giving characters back never helps. */
  predicate WellFormed(p: Pattern) {
    forall j :: 0 <= j < |p| && p[j].Many? ==>
      j + 1 == |p| ||
      (p[j + 1].Lit? && |p[j + 1].text| > 0 && !InClass(p[j + 1].text[0], p[j].cls))
  }

  lemma {:induction false} ShorterRunFails(p: Pattern, j: nat, s: string, n: nat)
    requires WellFormed(p) && j < |p| && p[j].Many?
    requires n < ClassRunEnd(s, 0, p[j].cls)
    ensures BacktrackFrom(p, j + 1, s[n..]).None?
  {
    var rest := s[n..];
    assert InClass(rest[0], p[j].cls);
    if j + 1 < |p| {
      var t := p[j + 1].text;
      assert rest[0] != t[0];
    }
  }

  lemma {:induction false} TryRunShorter(p: Pattern, j: nat, s: string, n: nat)
    requires WellFormed(p) && j < |p| && p[j].Many?
    requires n < ClassRunEnd(s, 0, p[j].cls)
    ensures TryRun(p, j, s, n).None?
    decreases n
  {
    ShorterRunFails(p, j, s, n);
    if n > 0 && !(p[j].nonEmpty && n == 1) {
      TryRunShorter(p, j, s, n - 1);
    }
  }

  /** On a well-formed pattern the possessive matcher computes exactly what
      the backtracking regex engine computes, groups included. */
  lemma {:induction false} PossessiveIsBacktracking(p: Pattern, j: nat, s: string)
    requires WellFormed(p) && j <= |p|
    ensures BacktrackFrom(p, j, s) == MatchFrom(p, j, s)
    decreases |p| - j
  {
    if j < |p| {
      match p[j]
      case Lit(t) =>
        if StartsWith(s, t) { PossessiveIsBacktracking(p, j + 1, s[|t|..]); }
      case Opt(t) =>
        if StartsWith(s, t) { PossessiveIsBacktracking(p, j + 1, s[|t|..]); }
        PossessiveIsBacktracking(p, j + 1, s);
      case One(cls, cap) =>
        if s != [] { PossessiveIsBacktracking(p, j + 1, s[1..]); }
      case Many(cls, nonEmpty, cap) =>
        var e := ClassRunEnd(s, 0, cls);
        if !(nonEmpty && e == 0) {
          PossessiveIsBacktracking(p, j + 1, s[e..]);
          if e > 0 && !(nonEmpty && e == 1) {
            TryRunShorter(p, j, s, e - 1);
          }
        }
    }
  }

  // ---------------------------------------------------------------------------
  // Symbolic matching steps, for messages built from known and unknown parts

  lemma MatchLitStep(p: Pattern, j: nat, t: string, rest: string)
    requires j < |p| && p[j] == Lit(t)
    ensures MatchFrom(p, j, t + rest) == MatchFrom(p, j + 1, rest)
  {
    assert StartsWith(t + rest, t);
    assert (t + rest)[|t|..] == rest;
  }

  lemma MatchOneStep(p: Pattern, j: nat, x: string, rest: string)
    requires j < |p| && p[j].One? && |x| == 1 && InClass(x[0], p[j].cls)
    ensures MatchFrom(p, j, x + rest) == Keep(p[j].capture, x, MatchFrom(p, j + 1, rest))
  {
    assert (x + rest)[..1] == x;
    assert (x + rest)[1..] == rest;
  }

  /** A single-character piece refuses a text that does not start with a
      character of its class. */
  lemma MatchOneRefuses(p: Pattern, j: nat, s: string)
    requires j < |p| && p[j].One? && (s == [] || !InClass(s[0], p[j].cls))
    ensures MatchFrom(p, j, s).None?
  {
  }

  lemma ClassRunEndOver(x: string, rest: string, cls: CharClass)
    requires forall k :: 0 <= k < |x| ==> InClass(x[k], cls)
    requires rest == [] || !InClass(rest[0], cls)
    ensures ClassRunEnd(x + rest, 0, cls) == |x|
  {
    var s := x + rest;
    assert forall k :: 0 <= k < |x| ==> s[k] == x[k];
    assert |x| < |s| ==> s[|x|] == rest[0];
  }

  lemma MatchManyStep(p: Pattern, j: nat, x: string, rest: string)
    requires j < |p| && p[j].Many?
    requires forall k :: 0 <= k < |x| ==> InClass(x[k], p[j].cls)
    requires p[j].nonEmpty ==> |x| > 0
    requires rest == [] || !InClass(rest[0], p[j].cls)
    ensures MatchFrom(p, j, x + rest) == Keep(p[j].capture, x, MatchFrom(p, j + 1, rest))
  {
    ClassRunEndOver(x, rest, p[j].cls);
    assert (x + rest)[..|x|] == x;
    assert (x + rest)[|x|..] == rest;
  }

  lemma MatchLitMismatch(p: Pattern, j: nat, t: string, s: string)
    requires j < |p| && p[j] == Lit(t) && !StartsWith(s, t)
    ensures MatchFrom(p, j, s).None?
  {
  }

  /** The concatenation of `parts[i..]`. */
  function ConcatFrom(parts: seq<string>, i: nat): string
    requires i <= |parts|
    decreases |parts| - i
  {
    if i == |parts| then [] else parts[i] + ConcatFrom(parts, i + 1)
  }

  /** What a piece takes when the text at it is `x + rest`: its whole part
      `x`, and no more. */
  predicate TakesPart(piece: Piece, x: string, rest: string)
  {
    match piece
    case Lit(t) => x == t
    case Opt(t) => x == t || (x == [] && !StartsWith(rest, t))
    case One(cls, _) => |x| == 1 && InClass(x[0], cls)
    case Many(cls, nonEmpty, _) =>
      (forall k :: 0 <= k < |x| ==> InClass(x[k], cls)) && (nonEmpty ==> x != [])
      && (rest == [] || !InClass(rest[0], cls))
  }

  /** Pieces `j..n-1` of `p` take `parts[j..]`, one part each, in a text
      that goes on with `tail`. */
  predicate Takes(p: Pattern, j: nat, n: nat, parts: seq<string>, tail: string)
    requires j <= n <= |p| && |parts| == n
    decreases n - j
  {
    j < n ==> TakesPart(p[j], parts[j], ConcatFrom(parts, j + 1) + tail) && Takes(p, j + 1, n, parts, tail)
  }

  /** The parts taken by the capturing pieces among `j..n-1`, in order. */
  function Captured(p: Pattern, j: nat, n: nat, parts: seq<string>): seq<string>
    requires j <= n <= |p| && |parts| == n
    decreases n - j
  {
    if j == n then []
    else
      var cap := match p[j]
        case One(_, c) => c
        case Many(_, _, c) => c
        case _ => false;
      if cap then [parts[j]] + Captured(p, j + 1, n, parts) else Captured(p, j + 1, n, parts)
  }

  /** Groups captured earlier, in front of the outcome of the rest. */
  function Prepend(gs: seq<string>, r: Option<seq<string>>): Option<seq<string>>
  {
    match r
    case None => None
    case Some(hs) => Some(gs + hs)
  }

  /** Pieces `j..n-1` hold no optional literal. */
  predicate NoOpt(p: Pattern, j: nat, n: nat)
    requires j <= n <= |p|
  {
    forall k :: j <= k < n ==> !p[k].Opt?
  }

  /** A text assembled from parts that pieces `j..n-1` take one for one
      matches as the rest of the text matches the remaining pieces, with the
      parts of the capturing pieces in front of the later groups. When the
      rest fails, an optional literal may be tried the other way, so the
      failure carries over only without optional literals. */
  lemma {:induction false} TakesMatches(p: Pattern, j: nat, n: nat, parts: seq<string>, tail: string)
    requires j <= n <= |p| && |parts| == n && Takes(p, j, n, parts, tail)
    requires MatchFrom(p, n, tail).Some? || NoOpt(p, j, n)
    ensures MatchFrom(p, j, ConcatFrom(parts, j) + tail) == Prepend(Captured(p, j, n, parts), MatchFrom(p, n, tail))
    decreases n - j
  {
    if j < n {
      TakesMatches(p, j + 1, n, parts, tail);
      TakesStep(p, j, n, parts, tail);
    } else {
      assert ConcatFrom(parts, j) + tail == tail;
      if MatchFrom(p, n, tail).Some? {
        assert [] + MatchFrom(p, n, tail).value == MatchFrom(p, n, tail).value;
      }
    }
  }

  /** One piece of `TakesMatches`: from the claim for `j + 1` to the claim for `j`. */
  lemma TakesStep(p: Pattern, j: nat, n: nat, parts: seq<string>, tail: string)
    requires j < n <= |p| && |parts| == n && Takes(p, j, n, parts, tail)
    requires MatchFrom(p, n, tail).Some? || NoOpt(p, j, n)
    requires MatchFrom(p, j + 1, ConcatFrom(parts, j + 1) + tail)
      == Prepend(Captured(p, j + 1, n, parts), MatchFrom(p, n, tail))
    ensures MatchFrom(p, j, ConcatFrom(parts, j) + tail) == Prepend(Captured(p, j, n, parts), MatchFrom(p, n, tail))
  {
    var x, rest := parts[j], ConcatFrom(parts, j + 1) + tail;
    assert ConcatFrom(parts, j) + tail == x + rest;
    var cap := (p[j].One? || p[j].Many?) && p[j].capture;
    assert Captured(p, j, n, parts) == (if cap then [x] else []) + Captured(p, j + 1, n, parts);
    assert MatchFrom(p, n, tail).None? ==> !p[j].Opt?;
    PieceStep(p, j, x, rest, cap, Captured(p, j + 1, n, parts), MatchFrom(p, n, tail));
  }

  /** The piece at `j` takes `x` from `x + rest` and keeps it when it captures. */
  lemma PieceStep(p: Pattern, j: nat, x: string, rest: string, cap: bool, gs: seq<string>, later: Option<seq<string>>)
    requires j < |p| && TakesPart(p[j], x, rest) && cap == ((p[j].One? || p[j].Many?) && p[j].capture)
    requires later.Some? || !p[j].Opt?
    requires MatchFrom(p, j + 1, rest) == Prepend(gs, later)
    ensures MatchFrom(p, j, x + rest) == Prepend((if cap then [x] else []) + gs, later)
  {
    match p[j]
    case Lit(t) =>
      MatchLitStep(p, j, t, rest);
      assert [] + gs == gs;
    case Opt(t) =>
      assert [] + gs == gs;
      if x == t {
        assert StartsWith(x + rest, t);
        assert (x + rest)[|t|..] == rest;
      } else {
        assert x + rest == rest;
      }
    case One(cls, c) =>
      MatchOneStep(p, j, x, rest);
      PrependKeep(cap, x, gs, later);
    case Many(cls, nonEmpty, c) =>
      MatchManyStep(p, j, x, rest);
      PrependKeep(cap, x, gs, later);
  }

  lemma PrependKeep(cap: bool, x: string, gs: seq<string>, later: Option<seq<string>>)
    ensures Keep(cap, x, Prepend(gs, later)) == Prepend((if cap then [x] else []) + gs, later)
  {
    if later.Some? {
      assert [x] + (gs + later.value) == [x] + gs + later.value;
      assert [] + gs == gs;
    }
  }

  /** A whole text assembled from parts that all the pieces take. */
  lemma TakesAll(p: Pattern, parts: seq<string>)
    requires |parts| == |p| && Takes(p, 0, |p|, parts, [])
    ensures MatchFrom(p, 0, ConcatFrom(parts, 0)) == Some(Captured(p, 0, |p|, parts))
  {
    TakesMatches(p, 0, |p|, parts, []);
    assert ConcatFrom(parts, 0) + [] == ConcatFrom(parts, 0);
    assert Captured(p, 0, |p|, parts) + [] == Captured(p, 0, |p|, parts);
  }

  // ---------------------------------------------------------------------------
  // Refuting a pattern from a known prefix of the message

  /** `t[k..]` and `P[i + k..]` disagree at some position both of them have. */
  predicate DivergeFrom(t: string, P: string, i: nat, k: nat)
    decreases |t| - k
  {
    k < |t| && i + k < |P| && (t[k] != P[i + k] || DivergeFrom(t, P, i, k + 1))
  }

  lemma {:induction false} DivergeSound(t: string, P: string, i: nat, k: nat, s: string)
    requires i <= |P| && DivergeFrom(t, P, i, k) && StartsWith(s, P[i..])
    ensures !StartsWith(s, t)
    decreases |t| - k
  {
    if t[k] != P[i + k] {
      assert s[k] == P[i + k];
    } else {
      DivergeSound(t, P, i, k + 1, s);
    }
  }

  /** No message that starts with `P[i..]` matches pieces `j..` of `p`. */
  predicate Refutes(p: Pattern, j: nat, P: string, i: nat)
    requires j <= |p| && i <= |P|
    decreases |p| - j, |P| - i
  {
    if j == |p| then i < |P|
    else match p[j]
      case Lit(t) =>
        DivergeFrom(t, P, i, 0) || (i + |t| <= |P| && Refutes(p, j + 1, P, i + |t|))
      case Opt(t) =>
        Refutes(p, j + 1, P, i) &&
        (DivergeFrom(t, P, i, 0) || (i + |t| <= |P| && Refutes(p, j + 1, P, i + |t|)))
      case One(cls, _) =>
        i < |P| && (!InClass(P[i], cls) || Refutes(p, j + 1, P, i + 1))
      case Many(cls, nonEmpty, _) =>
        var e := ClassRunEnd(P, i, cls);
        e < |P| && ((nonEmpty && e == i) || Refutes(p, j + 1, P, e))
  }

  lemma {:induction false} RunAgrees(s: string, P: string, i: nat, cls: CharClass)
    requires i <= |P| && StartsWith(s, P[i..])
    requires ClassRunEnd(P, i, cls) < |P|
    ensures ClassRunEnd(s, 0, cls) == ClassRunEnd(P, i, cls) - i
  {
    var e := ClassRunEnd(P, i, cls);
    assert forall k :: 0 <= k < |P| - i ==> s[k] == P[i + k];
    assert s[e - i] == P[e];
  }

  lemma StartsWithDrop(s: string, P: string, i: nat, n: nat)
    requires i + n <= |P| && StartsWith(s, P[i..])
    ensures StartsWith(s[n..], P[i + n..])
  {
    assert forall k :: 0 <= k < |P| - i ==> s[k] == P[i + k];
    assert s[n..][..|P| - i - n] == P[i + n..];
  }

  lemma {:induction false} RefutesSound(p: Pattern, j: nat, P: string, i: nat, s: string)
    requires j <= |p| && i <= |P|
    requires Refutes(p, j, P, i) && StartsWith(s, P[i..])
    ensures MatchFrom(p, j, s).None?
    decreases |p| - j, 1
  {
    if j < |p| {
      match p[j]
      case Lit(t) => RefutesSoundLit(p, j, P, i, s);
      case Opt(t) => RefutesSoundLit(p, j, P, i, s); RefutesSound(p, j + 1, P, i, s);
      case One(cls, _) => RefutesSoundOne(p, j, P, i, s);
      case Many(cls, nonEmpty, _) => RefutesSoundMany(p, j, P, i, s);
    }
  }

  /** The step for a literal, mandatory or optional: a message starting with
      `P[i..]` either does not start with the literal or continues refuted. */
  lemma {:induction false} RefutesSoundLit(p: Pattern, j: nat, P: string, i: nat, s: string)
    requires j < |p| && i <= |P| && (p[j].Lit? || p[j].Opt?)
    requires DivergeFrom(p[j].text, P, i, 0) || (i + |p[j].text| <= |P| && Refutes(p, j + 1, P, i + |p[j].text|))
    requires StartsWith(s, P[i..])
    ensures StartsWith(s, p[j].text) ==> MatchFrom(p, j + 1, s[|p[j].text|..]).None?
    decreases |p| - j, 0
  {
    var t := p[j].text;
    if DivergeFrom(t, P, i, 0) {
      DivergeSound(t, P, i, 0, s);
    } else if StartsWith(s, t) {
      StartsWithDrop(s, P, i, |t|);
      RefutesSound(p, j + 1, P, i + |t|, s[|t|..]);
    }
  }

  lemma {:induction false} RefutesSoundOne(p: Pattern, j: nat, P: string, i: nat, s: string)
    requires j < |p| && i <= |P| && p[j].One?
    requires Refutes(p, j, P, i) && StartsWith(s, P[i..])
    ensures MatchFrom(p, j, s).None?
    decreases |p| - j, 0
  {
    assert s[0] == P[i];
    if InClass(P[i], p[j].cls) {
      StartsWithDrop(s, P, i, 1);
      RefutesSound(p, j + 1, P, i + 1, s[1..]);
    }
  }

  lemma {:induction false} RefutesSoundMany(p: Pattern, j: nat, P: string, i: nat, s: string)
    requires j < |p| && i <= |P| && p[j].Many?
    requires Refutes(p, j, P, i) && StartsWith(s, P[i..])
    ensures MatchFrom(p, j, s).None?
    decreases |p| - j, 0
  {
    var e := ClassRunEnd(P, i, p[j].cls);
    RunAgrees(s, P, i, p[j].cls);
    if !(p[j].nonEmpty && e == i) {
      StartsWithDrop(s, P, i, e - i);
      RefutesSound(p, j + 1, P, e, s[e - i..]);
    }
  }
}
