/** Matching brackets: the scan that finds the end of an object or a list, and the texts it is right about. */
module Brackets {
  import opened Machine
  import opened Text

  function Closer(opener: char): char
  {
    if opener == '{' then '}' else ']'
  }

  /** A quote that a backslash does not escape. */
  predicate Toggles(s: string, i: nat)
    requires i < |s|
  {
    s[i] == '"' && (i == 0 || s[i - 1] != '\\')
  }

  /** The bracket that brings the depth back to zero, outside strings. */
  function Close(s: string, i: nat, opener: char, depth: int, inString: bool): (r: Option<nat>)
    requires i <= |s|
    ensures r.Some? ==> i <= r.value < |s|
    decreases |s| - i
  {
    if i == |s| then None
    else
      var inside := if Toggles(s, i) then !inString else inString;
      if inside then Close(s, i + 1, opener, depth, inside)
      else if s[i] == opener then Close(s, i + 1, opener, depth + 1, inside)
      else if s[i] == Closer(opener) then
        if depth == 1 then Some(i) else Close(s, i + 1, opener, depth - 1, inside)
      else Close(s, i + 1, opener, depth, inside)
  }

  // ---- bodies -----------------------------------------------------------------------------

  /** What stands between two brackets: characters, quoted strings, and bodies in brackets of the same kind. */
  datatype Body = Empty | Letter(c: char, rest: Body) | Str(text: string, rest: Body) | Nested(inner: Body, rest: Body)

  function Render(opener: char, b: Body): string
  {
    match b
    case Empty => ""
    case Letter(c, rest) => [c] + Render(opener, rest)
    case Str(text, rest) => Quoted(text) + Render(opener, rest)
    case Nested(inner, rest) => [opener] + Render(opener, inner) + [Closer(opener)] + Render(opener, rest)
  }

  /** Every quote inside a string is escaped, and the quote that ends it is not. */
  predicate StringText(t: string)
  {
    && (forall i :: 0 <= i < |t| && t[i] == '"' ==> i > 0 && t[i - 1] == '\\')
    && (t != "" ==> t[|t| - 1] != '\\')
  }

  /** A body in its place: brackets only in pairs or strings, quotes only around strings or escaped. */
  predicate WellNested(opener: char, b: Body, escaped: bool)
  {
    match b
    case Empty => true
    case Letter(c, rest) =>
      c != opener && c != Closer(opener) && (c == '"' ==> escaped) && WellNested(opener, rest, c == '\\')
    case Str(text, rest) => !escaped && StringText(text) && WellNested(opener, rest, false)
    case Nested(inner, rest) => WellNested(opener, inner, false) && WellNested(opener, rest, false)
  }

  /** The text starts with a bracketed body that ends at `j`. */
  predicate BodyAt(s: string, opener: char, b: Body, j: nat)
  {
    && WellNested(opener, b, false) && j == |Render(opener, b)| + 1
    && Occurs(s, [opener] + Render(opener, b) + [Closer(opener)], 0)
  }

  // ---- the scan skips a body --------------------------------------------------------------

  lemma OccursBoth(s: string, x: string, y: string, i: nat)
    ensures Occurs(s, x + y, i) <==> Occurs(s, x, i) && Occurs(s, y, i + |x|)
  {
    if i + |x + y| <= |s| {
      assert s[i..i + |x + y|] == s[i..i + |x|] + s[i + |x|..i + |x + y|];
      if s[i..i + |x + y|] == x + y {
        assert s[i..i + |x|] == (x + y)[..|x|] && s[i + |x|..i + |x + y|] == (x + y)[|x|..];
      }
    }
  }

  lemma OccursChar(s: string, c: char, i: nat)
    ensures Occurs(s, [c], i) <==> i < |s| && s[i] == c
  {
    if i < |s| { assert s[i..i + 1] == [s[i]]; }
  }

  lemma {:induction false} StringSkipped(s: string, i: nat, j: nat, opener: char, depth: int)
    requires opener in {'{', '['} && i <= j < |s| && Toggles(s, j) && forall k :: i <= k < j ==> !Toggles(s, k)
    ensures Close(s, i, opener, depth, true) == Close(s, j + 1, opener, depth, false)
    decreases j - i
  {
    if i < j { StringSkipped(s, i + 1, j, opener, depth); }
  }

  /** A quoted text with its quotes escaped is one string to the scan. */
  lemma QuotedSkipped(s: string, i: nat, t: string, opener: char, depth: int)
    requires opener in {'{', '['} && Occurs(s, Quoted(t), i) && StringText(t) && (i > 0 ==> s[i - 1] != '\\')
    ensures s[i + |t| + 1] == '"'
    ensures Close(s, i, opener, depth, false) == Close(s, i + |Quoted(t)|, opener, depth, false)
  {
    var j, q := i + |t| + 1, Quoted(t);
    assert forall k :: 0 <= k < |q| ==> s[i + k] == s[i..i + |q|][k] == q[k];
    assert q[0] == '"' && q[|t| + 1] == '"' && forall k :: 0 <= k < |t| ==> q[k + 1] == t[k];
    assert s[i] == q[0] && s[j] == q[|t| + 1];
    forall k | i + 1 <= k < j ensures s[k] == t[k - i - 1] && !Toggles(s, k) {
      assert s[i + (k - i)] == q[k - i];
      if s[k] == '"' {
        assert s[i + (k - i - 1)] == q[k - i - 1];
      }
    }
    StringSkipped(s, i + 1, j, opener, depth);
  }

  lemma LetterSkipped(s: string, i: nat, c: char, x: string, opener: char, depth: int)
    requires opener in {'{', '['} && 0 < i && Occurs(s, [c] + x, i) && c != opener && c != Closer(opener)
    requires c == '"' ==> s[i - 1] == '\\'
    ensures s[i] == c && Occurs(s, x, i + 1) && |[c] + x| == 1 + |x|
    ensures Close(s, i, opener, depth, false) == Close(s, i + 1, opener, depth, false)
  {
    OccursBoth(s, [c], x, i);
    OccursChar(s, c, i);
  }

  lemma StrSkipped(s: string, i: nat, t: string, x: string, opener: char, depth: int)
    requires opener in {'{', '['} && 0 < i && Occurs(s, Quoted(t) + x, i) && StringText(t) && s[i - 1] != '\\'
    ensures var j := i + |Quoted(t)|;
            && Occurs(s, x, j) && s[j - 1] != '\\' && |Quoted(t) + x| == |Quoted(t)| + |x|
            && Close(s, i, opener, depth, false) == Close(s, j, opener, depth, false)
  {
    OccursBoth(s, Quoted(t), x, i);
    QuotedSkipped(s, i, t, opener, depth);
  }

  lemma Opened(s: string, i: nat, opener: char, depth: int)
    requires opener in {'{', '['} && i < |s| && s[i] == opener
    ensures Close(s, i, opener, depth, false) == Close(s, i + 1, opener, depth + 1, false)
  {
  }

  lemma Closed(s: string, i: nat, opener: char, depth: int)
    requires opener in {'{', '['} && i < |s| && s[i] == Closer(opener) && depth > 1
    ensures Close(s, i, opener, depth, false) == Close(s, i + 1, opener, depth - 1, false)
  {
  }

  /** Whatever the depth, the scan goes on behind a body as it was before it. */
  lemma {:induction false} BodySkipped(s: string, i: nat, b: Body, opener: char, depth: int, end: nat, r: Option<nat>)
    requires BodyBefore(s, i, b, opener, depth, end, r)
    ensures Close(s, i, opener, depth, false) == r
    decreases b, 2
  {
    match b
    case Empty =>
    case Letter(_, _) => LetterCase(s, i, b, opener, depth, end, r);
    case Str(_, _) => StrCase(s, i, b, opener, depth, end, r);
    case Nested(_, _) => NestedCase(s, i, b, opener, depth, end, r);
  }

  /** A body that ends at `end`, from where the scan gives `r`. */
  predicate BodyBefore(s: string, i: nat, b: Body, opener: char, depth: int, end: nat, r: Option<nat>)
  {
    && opener in {'{', '['} && depth >= 1 && 0 < i && Occurs(s, Render(opener, b), i)
    && WellNested(opener, b, s[i - 1] == '\\')
    && end == i + |Render(opener, b)| && Close(s, end, opener, depth, false) == r
  }

  lemma {:induction false} LetterCase(s: string, i: nat, b: Body, opener: char, depth: int, end: nat, r: Option<nat>)
    requires b.Letter? && BodyBefore(s, i, b, opener, depth, end, r)
    ensures Close(s, i, opener, depth, false) == r
    decreases b, 1
  {
    LetterSkipped(s, i, b.c, Render(opener, b.rest), opener, depth);
    BodySkipped(s, i + 1, b.rest, opener, depth, end, r);
  }

  lemma {:induction false} StrCase(s: string, i: nat, b: Body, opener: char, depth: int, end: nat, r: Option<nat>)
    requires b.Str? && BodyBefore(s, i, b, opener, depth, end, r)
    ensures Close(s, i, opener, depth, false) == r
    decreases b, 1
  {
    StrSkipped(s, i, b.text, Render(opener, b.rest), opener, depth);
    BodySkipped(s, i + |Quoted(b.text)|, b.rest, opener, depth, end, r);
  }

  lemma {:induction false} NestedCase(s: string, i: nat, b: Body, opener: char, depth: int, end: nat, r: Option<nat>)
    requires b.Nested? && BodyBefore(s, i, b, opener, depth, end, r)
    ensures Close(s, i, opener, depth, false) == r
    decreases b, 1
  {
    NestedParts(s, i, opener, Render(opener, b.inner), Render(opener, b.rest));
    NestedSkipped(s, i, b.inner, i + 1 + |Render(opener, b.inner)|, b.rest, opener, depth, end, r);
  }

  lemma {:induction false} NestedSkipped(s: string, i: nat, inner: Body, at: nat, rest: Body, opener: char, depth: int,
                                         end: nat, r: Option<nat>)
    requires opener in {'{', '['} && depth >= 1 && 0 < i
    requires WellNested(opener, inner, false) && WellNested(opener, rest, false)
    requires i < |s| && s[i] == opener && Occurs(s, Render(opener, inner), i + 1)
    requires at == i + 1 + |Render(opener, inner)| < |s| && s[at] == Closer(opener)
    requires Occurs(s, Render(opener, rest), at + 1)
    requires end == at + 1 + |Render(opener, rest)| && Close(s, end, opener, depth, false) == r
    ensures Close(s, i, opener, depth, false) == r
    decreases Nested(inner, rest), 0
  {
    BodySkipped(s, at + 1, rest, opener, depth, end, r);
    Closed(s, at, opener, depth + 1);
    BodySkipped(s, i + 1, inner, opener, depth + 1, at, r);
    Opened(s, i, opener, depth);
  }

  lemma NestedParts(s: string, i: nat, opener: char, x: string, y: string)
    requires Occurs(s, [opener] + x + [Closer(opener)] + y, i)
    ensures i < |s| && s[i] == opener && Occurs(s, x, i + 1)
    ensures i + 1 + |x| < |s| && s[i + 1 + |x|] == Closer(opener) && Occurs(s, y, i + 1 + |x| + 1)
  {
    OccursBoth(s, [opener] + x + [Closer(opener)], y, i);
    OccursBoth(s, [opener] + x, [Closer(opener)], i);
    OccursBoth(s, [opener], x, i);
    OccursChar(s, opener, i);
    OccursChar(s, Closer(opener), i + 1 + |x|);
  }

  // ---- and only a body --------------------------------------------------------------------

  lemma {:induction false} StringEnds(s: string, i: nat, opener: char, depth: int) returns (j: nat)
    requires i <= |s| && Close(s, i, opener, depth, true).Some?
    ensures i <= j < |s| && Toggles(s, j) && forall k :: i <= k < j ==> !Toggles(s, k)
    decreases |s| - i
  {
    if Toggles(s, i) { return i; }
    j := StringEnds(s, i + 1, opener, depth);
  }

  lemma StringBetween(s: string, i: nat, j: nat)
    requires i < j < |s| && Toggles(s, i) && Toggles(s, j) && forall k :: i < k < j ==> !Toggles(s, k)
    ensures StringText(s[i + 1..j]) && Occurs(s, Quoted(s[i + 1..j]), i) && |Quoted(s[i + 1..j])| == j + 1 - i
  {
    var t := s[i + 1..j];
    forall k | 0 <= k < |t| && t[k] == '"' ensures k > 0 && t[k - 1] == '\\' {
      assert !Toggles(s, i + 1 + k);
    }
    assert s[i..j + 1] == Quoted(t);
  }

  /** A body found at a place, with the closing bracket behind it. */
  predicate Found(s: string, i: nat, opener: char, b: Body, k: nat)
  {
    && 0 < i <= |s| && WellNested(opener, b, s[i - 1] == '\\') && Occurs(s, Render(opener, b), i)
    && k == i + |Render(opener, b)| < |s| && s[k] == Closer(opener)
  }

  lemma FoundStr(s: string, i: nat, j: nat, opener: char, rest: Body, k: nat)
    requires 0 < i < j < |s| && Toggles(s, i) && Toggles(s, j) && forall m :: i < m < j ==> !Toggles(s, m)
    requires Found(s, j + 1, opener, rest, k)
    ensures Found(s, i, opener, Str(s[i + 1..j], rest), k)
  {
    StringBetween(s, i, j);
    OccursBoth(s, Quoted(s[i + 1..j]), Render(opener, rest), i);
  }

  lemma FoundNested(s: string, i: nat, opener: char, inner: Body, at: nat, rest: Body, k: nat)
    requires opener in {'{', '['} && 0 < i < |s| && s[i] == opener
    requires Found(s, i + 1, opener, inner, at) && Found(s, at + 1, opener, rest, k)
    ensures Found(s, i, opener, Nested(inner, rest), k)
  {
    PartsNested(s, i, opener, Render(opener, inner), Render(opener, rest));
  }

  lemma FoundLetter(s: string, i: nat, opener: char, rest: Body, k: nat)
    requires 0 < i < |s| && !Toggles(s, i) && s[i] != opener && s[i] != Closer(opener)
    requires Found(s, i + 1, opener, rest, k)
    ensures Found(s, i, opener, Letter(s[i], rest), k)
  {
    OccursChar(s, s[i], i);
    OccursBoth(s, [s[i]], Render(opener, rest), i);
  }

  /** What the scan passes on its way out of a bracket is a body. */
  lemma {:induction false} BodyOf(s: string, i: nat, opener: char, depth: int, r: Option<nat>) returns (b: Body, k: nat)
    requires opener in {'{', '['} && depth >= 1 && 0 < i <= |s| && Close(s, i, opener, depth, false) == r && r.Some?
    ensures Found(s, i, opener, b, k) && Close(s, k, opener, depth, false) == r
    decreases |s| - i, 1
  {
    if Toggles(s, i) {
      var j := StringEnds(s, i + 1, opener, depth);
      StringSkipped(s, i + 1, j, opener, depth);
      var rest;
      rest, k := BodyOf(s, j + 1, opener, depth, r);
      b := Str(s[i + 1..j], rest);
      FoundStr(s, i, j, opener, rest, k);
    } else if s[i] == Closer(opener) {
      b, k := Empty, i;
    } else if s[i] == opener {
      b, k := NestedOf(s, i, opener, depth, r);
    } else {
      var rest;
      rest, k := BodyOf(s, i + 1, opener, depth, r);
      b := Letter(s[i], rest);
      FoundLetter(s, i, opener, rest, k);
    }
  }

  lemma {:induction false} NestedOf(s: string, i: nat, opener: char, depth: int, r: Option<nat>) returns (b: Body, k: nat)
    requires opener in {'{', '['} && depth >= 1 && 0 < i < |s| && s[i] == opener
    requires Close(s, i, opener, depth, false) == r && r.Some?
    ensures Found(s, i, opener, b, k) && Close(s, k, opener, depth, false) == r
    decreases |s| - i, 0
  {
    Opened(s, i, opener, depth);
    var inner, at := BodyOf(s, i + 1, opener, depth + 1, r);
    Closed(s, at, opener, depth + 1);
    var rest;
    rest, k := BodyOf(s, at + 1, opener, depth, r);
    b := Nested(inner, rest);
    FoundNested(s, i, opener, inner, at, rest, k);
  }

  lemma PartsNested(s: string, i: nat, opener: char, x: string, y: string)
    requires i < |s| && s[i] == opener && Occurs(s, x, i + 1)
    requires i + 1 + |x| < |s| && s[i + 1 + |x|] == Closer(opener) && Occurs(s, y, i + 1 + |x| + 1)
    ensures Occurs(s, [opener] + x + [Closer(opener)] + y, i)
  {
    OccursChar(s, opener, i);
    OccursChar(s, Closer(opener), i + 1 + |x|);
    OccursBoth(s, [opener], x, i);
    OccursBoth(s, [opener] + x, [Closer(opener)], i);
    OccursBoth(s, [opener] + x + [Closer(opener)], y, i);
  }

  /** The scan from an opening bracket stops at the bracket that matches it. */
  lemma ClosesBody(s: string, opener: char, b: Body, j: nat)
    requires opener in {'{', '['} && BodyAt(s, opener, b, j)
    ensures Close(s, 0, opener, 0, false) == Some(j)
  {
    OccursBoth(s, [opener] + Render(opener, b), [Closer(opener)], 0);
    OccursBoth(s, [opener], Render(opener, b), 0);
    OccursChar(s, opener, 0);
    OccursChar(s, Closer(opener), j);
    BodySkipped(s, 1, b, opener, 1, j, Some(j));
  }

  /** It stops at `j` exactly when the text up to `j` is a well-nested body in brackets. */
  lemma ClosesExactly(s: string, opener: char, j: nat)
    requires opener in {'{', '['} && s != "" && s[0] == opener
    ensures Close(s, 0, opener, 0, false) == Some(j) <==> exists b :: BodyAt(s, opener, b, j)
  {
    if Close(s, 0, opener, 0, false) == Some(j) {
      var b, k := BodyOf(s, 1, opener, 1, Some(j));
      PartsNested(s, 0, opener, Render(opener, b), "");
      assert [opener] + Render(opener, b) + [Closer(opener)] + "" == [opener] + Render(opener, b) + [Closer(opener)];
      assert BodyAt(s, opener, b, j);
    }
    if b :| BodyAt(s, opener, b, j) {
      ClosesBody(s, opener, b, j);
    }
  }

  // ---- bodies of plain text ---------------------------------------------------------------

  /** Text without brackets of this kind, quotes or backslashes. */
  predicate Plain(s: string, opener: char)
  {
    forall i :: 0 <= i < |s| ==> s[i] != opener && s[i] != Closer(opener) && s[i] != '\\' && s[i] != '"'
  }

  /** A body that begins with the characters of a text. */
  function Letters(s: string, rest: Body): Body
  {
    if s == "" then rest else Letter(s[0], Letters(s[1..], rest))
  }

  lemma {:induction false} LettersRender(opener: char, s: string, rest: Body)
    requires Plain(s, opener) && WellNested(opener, rest, false)
    ensures Render(opener, Letters(s, rest)) == s + Render(opener, rest) && WellNested(opener, Letters(s, rest), false)
  {
    if s != "" {
      LettersRender(opener, s[1..], rest);
      assert s == [s[0]] + s[1..];
    }
  }

  // ---- a string the scan misreads ---------------------------------------------------------

  /** The object whose one string is an escaped backslash. */
  const BACKSLASH: string := ['{', '"', '\\', '\\', '"', '}']

  /**
  An escaped backslash at the end of a string hides the quote behind it: the scan takes the rest of the
  text for a part of the string and finds no matching bracket, though the brackets match.
   */
  lemma BackslashHidesQuote()
    ensures Close(BACKSLASH, 0, '{', 0, false) == None && !StringText(['\\', '\\'])
    ensures BACKSLASH == "{" + Quoted(['\\', '\\']) + "}"
  {
    assert Close(BACKSLASH, 4, '{', 1, true) == None;
    assert Close(BACKSLASH, 2, '{', 1, true) == None;
    var text := ['\\', '\\'];
    assert text[|text| - 1] == '\\';
  }
}
