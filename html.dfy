/** `escapeHTML` (script.js:106-108): three chained `replaceAll` passes that
    turn `&`, `<` and `>` into character references. */
module Html {
  import opened Text

  function EscapeHtml(text: string): (r: string)
  {
    ReplaceAllChar(ReplaceAllChar(ReplaceAllChar(text, '&', "&amp;"), '<', "&lt;"), '>', "&gt;")
  }

  /** Reference definition: each character is escaped on its own. */
  function EscapeChar(c: char): (r: string)
    ensures c !in "&<>" ==> r == [c]
  {
    if c == '&' then "&amp;" else if c == '<' then "&lt;" else if c == '>' then "&gt;" else [c]
  }

  function EscapeEach(s: string): string
  {
    if s == [] then [] else EscapeChar(s[0]) + EscapeEach(s[1..])
  }

  /** Text that an HTML parser reads as plain characters: no tag delimiters,
      and every `&` starts one of the three references `EscapeHtml` writes. */
  predicate Inert(s: string) {
    forall k :: 0 <= k < |s| ==>
      s[k] != '<' && s[k] != '>' &&
      (s[k] == '&' ==> OccursAt(s, k, "&amp;") || OccursAt(s, k, "&lt;") || OccursAt(s, k, "&gt;"))
  }

  /** Because `&` is replaced first, the chained passes never re-escape the
      references written by an earlier pass: the result is the
      character-by-character escape. */
  lemma {:induction false} EscapeIsCharwise(s: string)
    ensures EscapeHtml(s) == EscapeEach(s)
  {
    if s != [] {
      var c, rest := s[0], s[1..];
      assert s == [c] + rest;
      ReplaceAllCharAppend([c], rest, '&', "&amp;");
      var a1, a2 := ReplaceAllChar([c], '&', "&amp;"), ReplaceAllChar(rest, '&', "&amp;");
      ReplaceAllCharAppend(a1, a2, '<', "&lt;");
      var b1, b2 := ReplaceAllChar(a1, '<', "&lt;"), ReplaceAllChar(a2, '<', "&lt;");
      ReplaceAllCharAppend(b1, b2, '>', "&gt;");
      EscapeOneChar(c);
      EscapeIsCharwise(rest);
    }
  }

  lemma EscapeOneChar(c: char)
    ensures EscapeHtml([c]) == EscapeChar(c)
  {
    ReplaceOne(c, '&', "&amp;");
    var r1 := ReplaceAllChar([c], '&', "&amp;");
    if c == '&' {
      assert '<' !in r1 && '>' !in r1;
    } else {
      ReplaceOne(c, '<', "&lt;");
      var r2 := ReplaceAllChar(r1, '<', "&lt;");
      if c == '<' {
        assert '>' !in r2;
      } else {
        ReplaceOne(c, '>', "&gt;");
      }
    }
  }

  lemma ReplaceOne(c: char, x: char, rep: string)
    ensures ReplaceAllChar([c], x, rep) == if c == x then rep else [c]
  {
    assert [c][1..] == [];
  }

  lemma InertAppend(a: string, b: string)
    requires Inert(a) && Inert(b)
    ensures Inert(a + b)
  {
    var s := a + b;
    forall k | 0 <= k < |s| && s[k] == '&'
      ensures OccursAt(s, k, "&amp;") || OccursAt(s, k, "&lt;") || OccursAt(s, k, "&gt;")
    {
      if k < |a| {
        assert a[k] == '&';
        if OccursAt(a, k, "&amp;") { assert s[k..k + 5] == a[k..k + 5]; }
        else if OccursAt(a, k, "&lt;") { assert s[k..k + 4] == a[k..k + 4]; }
        else { assert s[k..k + 4] == a[k..k + 4]; }
      } else {
        var j := k - |a|;
        assert b[j] == '&';
        if OccursAt(b, j, "&amp;") { assert s[k..k + 5] == b[j..j + 5]; }
        else if OccursAt(b, j, "&lt;") { assert s[k..k + 4] == b[j..j + 4]; }
        else { assert s[k..k + 4] == b[j..j + 4]; }
      }
    }
  }

  lemma {:induction false} EscapeEachInert(s: string)
    ensures Inert(EscapeEach(s))
  {
    if s != [] {
      var e := EscapeChar(s[0]);
      if s[0] == '&' {
        assert OccursAt(e, 0, "&amp;");
      }
      assert Inert(e);
      EscapeEachInert(s[1..]);
      InertAppend(e, EscapeEach(s[1..]));
    }
  }

  /** The escaped text contains no `<` or `>`, and every `&` in it begins
      `&amp;`, `&lt;` or `&gt;`. */
  lemma EscapeHtmlInert(s: string)
    ensures Inert(EscapeHtml(s))
  {
    EscapeIsCharwise(s);
    EscapeEachInert(s);
  }

  /** Text without `&`, `<` and `>` is left as it is. */
  lemma {:induction false} EscapeHtmlIdentity(s: string)
    requires '&' !in s && '<' !in s && '>' !in s
    ensures EscapeHtml(s) == s
  {
    EscapeIsCharwise(s);
    EscapeEachIdentity(s);
  }

  lemma {:induction false} EscapeEachIdentity(s: string)
    requires '&' !in s && '<' !in s && '>' !in s
    ensures EscapeEach(s) == s
  {
    if s != [] {
      assert s[0] in s;
      forall c | c in s[1..] ensures c in s { }
      EscapeEachIdentity(s[1..]);
    }
  }

  /** Escaping is idempotent on text that it leaves unchanged. */
  lemma EscapeHtmlIdempotent(s: string)
    requires '&' !in s && '<' !in s && '>' !in s
    ensures EscapeHtml(EscapeHtml(s)) == EscapeHtml(s)
  {
    EscapeHtmlIdentity(s);
  }

  /** Dropping trailing whitespace keeps escaped text inert: a reference ends
      in `;`, which is not whitespace, so none is cut. */
  lemma InertTrimEnd(s: string)
    requires Inert(s)
    ensures Inert(TrimEnd(s))
  {
    var r := TrimEnd(s);
    forall k | 0 <= k < |r| && r[k] == '&'
      ensures OccursAt(r, k, "&amp;") || OccursAt(r, k, "&lt;") || OccursAt(r, k, "&gt;")
    {
      assert s[k] == '&';
      if OccursAt(s, k, "&amp;") {
        KeptReference(s, r, k, "&amp;");
      } else if OccursAt(s, k, "&lt;") {
        KeptReference(s, r, k, "&lt;");
      } else {
        KeptReference(s, r, k, "&gt;");
      }
    }
  }

  /** A reference that starts in the kept prefix ends there too, since its
      final `;` is not whitespace. */
  lemma KeptReference(s: string, r: string, k: nat, ref: string)
    requires |r| <= |s| && r == s[..|r|] && forall j :: |r| <= j < |s| ==> IsSpace(s[j])
    requires k < |r| && OccursAt(s, k, ref) && ref != [] && ref[|ref| - 1] == ';'
    ensures OccursAt(r, k, ref)
  {
    var e := k + |ref| - 1;
    assert s[e] == s[k..k + |ref|][|ref| - 1] == ';';
    assert !IsSpace(s[e]);
    assert e < |r|;
    assert r[k..k + |ref|] == s[k..k + |ref|];
  }
}
