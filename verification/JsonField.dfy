/** The field lookup of the profile parser: a search for the quoted key, then for the end of the value. */
module JsonField {
  import opened Machine
  import opened Text
  import opened Brackets

  datatype Field = Field(value: string, present: bool, isString: bool)

  /** Where a bare value ends. */
  function ScalarEnd(s: string, i: nat): (r: nat)
    requires i <= |s|
    ensures i <= r <= |s|
    decreases |s| - i
  {
    if i < |s| && s[i] != ',' && s[i] != '}' then ScalarEnd(s, i + 1) else i
  }

  /** The value at the front of what follows the colon. */
  function ValueOf(rest: string): Field
  {
    var s := TrimFront(rest);
    if s == "" then Field("", true, false)
    else if s[0] == '"' then
      FindFirst(s, "\"", 1);
      match Find(s, "\"", 1)
      case None => Field("", true, true)
      case Some(end) => Field(s[1..end], true, true)
    else if s[0] == '{' || s[0] == '[' then
      match Close(s, 0, s[0], 0, false)
      case None => Field("", true, false)
      case Some(end) => Field(s[..end + 1], true, false)
    else Field(Trim(s[..ScalarEnd(s, 0)]), true, false)
  }

  function FieldOf(json: string, key: string): Field
  {
    match Find(json, Quoted(key), 0)
    case None => Field("", false, false)
    case Some(at) => AfterColon(json, at + |Quoted(key)|)
  }

  /** The value behind the first colon from `from` on. */
  function AfterColon(json: string, from: nat): Field
  {
    FindFirst(json, ":", from);
    match Find(json, ":", from)
    case None => Field("", true, false)
    case Some(colon) => ValueOf(json[colon + 1..])
  }

  // ---- what each kind of value is read as -------------------------------------------------

  predicate Digits(d: string)
  {
    d != "" && forall i :: 0 <= i < |d| ==> IsDigit(d[i])
  }

  lemma {:induction false} ScalarEndIs(s: string, i: nat, j: nat)
    requires i <= j < |s| && (s[j] == ',' || s[j] == '}') && forall k :: i <= k < j ==> s[k] != ',' && s[k] != '}'
    ensures ScalarEnd(s, i) == j
    decreases j - i
  {
    if i < j { ScalarEndIs(s, i + 1, j); }
  }

  /** White space behind a colon is skipped. */
  lemma ValueBehind(gap: string, rest: string)
    requires Blanks(gap)
    ensures ValueOf(gap + rest) == ValueOf(rest)
  {
    TrimFrontBlanks(gap, rest);
  }

  /** A number ends at the comma or brace, and white space before it does not count. */
  lemma NumberValue(d: string, gap: string, tail: string)
    requires Digits(d) && Blanks(gap) && tail != "" && (tail[0] == ',' || tail[0] == '}')
    ensures ValueOf(d + gap + tail) == Field(d, true, false)
  {
    var s, n := d + gap + tail, |d| + |gap|;
    assert IsDigit(s[0]) && s[0] == d[0];
    assert forall k :: 0 <= k < |d| ==> s[k] == d[k] && IsDigit(d[k]);
    assert forall k :: |d| <= k < n ==> s[k] == gap[k - |d|];
    assert s[n] == tail[0];
    ScalarEndIs(s, 0, n);
    assert s[..n] == "" + d + gap && IsDigit(d[|d| - 1]);
    TrimStrips("", d, gap);
  }

  lemma StringValue(v: string, tail: string)
    requires NoQuote(v)
    ensures ValueOf("\"" + v + "\"" + tail) == Field(v, true, true)
  {
    var s := "\"" + v + "\"" + tail;
    assert s[|v| + 1] == '"' && forall k :: 1 <= k <= |v| ==> s[k] == v[k - 1];
    assert Occurs(s, "\"", |v| + 1) by { assert s[|v| + 1..|v| + 2] == "\""; }
    forall k | 1 <= k < |v| + 1 ensures !Occurs(s, "\"", k) {
      assert s[k..k + 1] == [v[k - 1]];
      assert "\""[0] == '"';
    }
    FindIs(s, "\"", 1, |v| + 1);
    assert s[1..|v| + 1] == v;
  }

  /** A bracketed value ends at its matching bracket, whatever is nested or quoted inside. */
  lemma BracketValue(opener: char, b: Body, tail: string)
    requires opener in {'{', '['} && WellNested(opener, b, false)
    ensures var value := [opener] + Render(opener, b) + [Closer(opener)]; ValueOf(value + tail) == Field(value, true, false)
  {
    var value := [opener] + Render(opener, b) + [Closer(opener)];
    assert Occurs(value + tail, value, 0);
    ClosesBody(value + tail, opener, b, |value| - 1);
    BracketRead(value, tail);
  }

  lemma BracketRead(value: string, tail: string)
    requires value != "" && value[0] in {'{', '['} && Close(value + tail, 0, value[0], 0, false) == Some(|value| - 1)
    ensures ValueOf(value + tail) == Field(value, true, false)
  {
    assert (value + tail)[..|value|] == value;
  }

  // ---- fields of a text cut at its quotes -------------------------------------------------

  lemma ColonAt(json: string, from: nat, gap: string, rest: string)
    requires from <= |json| && Blanks(gap) && json[from..] == gap + ":" + rest
    ensures var colon := from + |gap|;
            colon < |json| && Find(json, ":", from) == Some(colon) && json[colon + 1..] == rest
  {
    var colon := from + |gap|;
    assert forall k :: 0 <= k < |gap| + 1 + |rest| ==> json[from + k] == json[from..][k];
    assert json[colon] == ':';
    assert json[colon..colon + 1] == ":";
    forall j | from <= j < colon ensures !Occurs(json, ":", j) {
      assert json[j] == json[from..][j - from] == gap[j - from];
      assert json[j..j + 1][0] == json[j] && ":"[0] == ':';
    }
    FindIs(json, ":", from, colon);
    assert json[colon + 1..] == json[from..][|gap| + 1..];
  }

  lemma FieldFrom(json: string, key: string, at: nat, from: nat, rest: string)
    requires Find(json, Quoted(key), 0) == Some(at) && from == at + |Quoted(key)| && AfterColon(json, from) == ValueOf(rest)
    ensures FieldOf(json, key) == ValueOf(rest)
  {
  }

  lemma ColonValue(json: string, from: nat, gap: string, rest: string)
    requires from <= |json| && Blanks(gap) && json[from..] == gap + ":" + rest
    ensures AfterColon(json, from) == ValueOf(rest)
  {
    ColonAt(json, from, gap, rest);
  }

  lemma FieldBehind(json: string, key: string, at: nat, gap: string, rest: string)
    requires Find(json, Quoted(key), 0) == Some(at) && at + |Quoted(key)| <= |json|
    requires Blanks(gap) && json[at + |Quoted(key)|..] == gap + ":" + rest
    ensures FieldOf(json, key) == ValueOf(rest)
  {
    var from := at + |Quoted(key)|;
    ColonValue(json, from, gap, rest);
    FieldFrom(json, key, at, from, rest);
  }

  /** The key is found at its own piece, and the colon behind it, with white space between or not. */
  lemma FieldAt(segs: seq<string>, i: nat, key: string, gap: string, rest: string)
    requires NoQuotes(segs) && 0 < i < |segs| - 1 && segs[i] == key && forall j :: 0 < j < i ==> segs[j] != key
    requires Blanks(gap) && Join(segs[i + 1..]) == gap + ":" + rest
    ensures FieldOf(Join(segs), key) == ValueOf(rest)
  {
    FirstPiece(segs, i, key);
    FindIs(Join(segs), Quoted(key), 0, Offset(segs, i));
    AfterKey(segs, i);
    FieldBehind(Join(segs), key, Offset(segs, i), gap, rest);
  }

  /** What follows the first piece. */
  function Tail(segs: seq<string>): string
    requires segs != []
  {
    if |segs| == 1 then "" else "\"" + Join(segs[1..])
  }

  lemma JoinTail(segs: seq<string>)
    requires segs != []
    ensures Join(segs) == segs[0] + Tail(segs)
  {
  }

  lemma AfterKey(segs: seq<string>, i: nat)
    requires 0 < i < |segs| - 1
    ensures var at := Offset(segs, i) + |Quoted(segs[i])|;
            at <= |Join(segs)| && Join(segs)[at..] == Join(segs[i + 1..])
  {
    assert segs == segs[..i] + segs[i..];
    JoinSplit(segs[..i], segs[i..]);
    assert segs[i..] == [segs[i]] + segs[i + 1..];
    JoinSplit([segs[i]], segs[i + 1..]);
  }

  /** White space in a member: behind the key, behind the colon, behind the value and behind the comma. */
  datatype Gaps = Gaps(key: string, colon: string, value: string, comma: string)

  predicate GapsOk(g: Gaps)
  {
    Blanks(g.key) && Blanks(g.colon) && Blanks(g.value) && Blanks(g.comma)
  }

  lemma NumberGroups(g: Gaps, d: string, end: string, tail: string)
    ensures g.key + ":" + g.colon + d + g.value + end + g.comma + tail
         == g.key + ":" + (g.colon + (d + g.value + (end + g.comma + tail)))
  {
  }

  /** A number behind the key is read as its digits. */
  lemma NumberAt(segs: seq<string>, i: nat, key: string, g: Gaps, d: string, end: string)
    requires NoQuotes(segs) && 0 < i < |segs| - 1 && segs[i] == key && forall j :: 0 < j < i ==> segs[j] != key
    requires GapsOk(g) && Digits(d) && (end == "," || end == "}")
    requires segs[i + 1] == g.key + ":" + g.colon + d + g.value + end + g.comma
    ensures FieldOf(Join(segs), key) == Field(d, true, false)
  {
    var tail := Tail(segs[i + 1..]);
    JoinTail(segs[i + 1..]);
    NumberGroups(g, d, end, tail);
    FieldAt(segs, i, key, g.key, g.colon + (d + g.value + (end + g.comma + tail)));
    ValueBehind(g.colon, d + g.value + (end + g.comma + tail));
    assert (end + g.comma + tail)[0] == end[0];
    NumberValue(d, g.value, end + g.comma + tail);
  }

  /** A quoted piece behind the key is read as a string. */
  lemma StringAt(segs: seq<string>, i: nat, key: string, g: Gaps)
    requires NoQuotes(segs) && 0 < i < |segs| - 3 && segs[i] == key && forall j :: 0 < j < i ==> segs[j] != key
    requires GapsOk(g) && segs[i + 1] == g.key + ":" + g.colon
    ensures FieldOf(Join(segs), key) == Field(segs[i + 2], true, true)
  {
    var rest := segs[i + 1..];
    StringRest(rest, g);
    FieldAt(segs, i, key, g.key, g.colon + ("\"" + rest[1] + "\"" + Join(rest[2..])));
    ValueBehind(g.colon, "\"" + rest[1] + "\"" + Join(rest[2..]));
    StringValue(segs[i + 2], Join(rest[2..]));
  }

  lemma StringRest(rest: seq<string>, g: Gaps)
    requires |rest| > 2 && rest[0] == g.key + ":" + g.colon
    ensures Join(rest) == g.key + ":" + (g.colon + ("\"" + rest[1] + "\"" + Join(rest[2..])))
  {
    JoinTail(rest);
    JoinTail(rest[1..]);
    assert rest[1..][1..] == rest[2..];
    StringGroups(g, rest[1], Join(rest[2..]));
  }

  lemma StringGroups(g: Gaps, v: string, tail: string)
    ensures g.key + ":" + g.colon + ("\"" + (v + ("\"" + tail))) == g.key + ":" + (g.colon + ("\"" + v + "\"" + tail))
  {
  }

  /** A bracketed value behind the key is read up to its matching bracket. */
  lemma BracketAt(segs: seq<string>, i: nat, key: string, g: Gaps, opener: char, b: Body, tail: string)
    requires NoQuotes(segs) && 0 < i < |segs| - 1 && segs[i] == key && forall j :: 0 < j < i ==> segs[j] != key
    requires GapsOk(g) && opener in {'{', '['} && WellNested(opener, b, false)
    requires Join(segs[i + 1..]) == g.key + ":" + (g.colon + ([opener] + Render(opener, b) + [Closer(opener)] + tail))
    ensures FieldOf(Join(segs), key) == Field([opener] + Render(opener, b) + [Closer(opener)], true, false)
  {
    FieldAt(segs, i, key, g.key, g.colon + ([opener] + Render(opener, b) + [Closer(opener)] + tail));
    ValueBehind(g.colon, [opener] + Render(opener, b) + [Closer(opener)] + tail);
    BracketValue(opener, b, tail);
  }

  /** A key that is no piece is not found. */
  lemma {:induction false} AbsentIn(segs: seq<string>, key: string, j: nat)
    requires NoQuotes(segs) && segs != [] && NoQuote(key) && forall i :: 0 < i < |segs| - 1 ==> segs[i] != key
    ensures !Occurs(Join(segs), Quoted(key), j)
  {
    if |segs| == 1 {
      NoQuoteNoKey(segs[0], key, j);
    } else {
      var head, rest := segs[0], Join(segs[1..]);
      if j > |head| {
        AbsentIn(segs[1..], key, j - |head| - 1);
        OccursLater(head, rest, Quoted(key), j);
      } else {
        LastPiece(segs, key, j);
      }
    }
  }

  lemma NoQuoteNoKey(s: string, key: string, j: nat)
    requires NoQuote(s)
    ensures !Occurs(s, Quoted(key), j)
  {
    if j + |Quoted(key)| <= |s| {
      assert s[j..j + |Quoted(key)|][0] == s[j] && Quoted(key)[0] == '"';
    }
  }

  lemma LastPiece(segs: seq<string>, key: string, j: nat)
    requires NoQuotes(segs) && |segs| > 1 && NoQuote(key) && j <= |segs[0]|
    requires |segs| > 2 ==> segs[1] != key
    ensures !Occurs(Join(segs), Quoted(key), j)
  {
    var head, rest, q := segs[0], Join(segs[1..]), Quoted(key);
    var s := head + "\"" + rest;
    if |segs| > 2 {
      var tail := Join(segs[1..][1..]);
      assert s == head + "\"" + segs[1] + "\"" + tail;
      if Occurs(s, q, j) { PieceOnly(head, segs[1], tail, key, j); }
    } else if j + |q| <= |s| {
      assert rest == segs[1];
      var n := |q| - 1;
      assert s[j..j + |q|][n] == s[j + n] && q[n] == '"' && n > 0;
      assert s[j..j + |q|][0] == s[j] && q[0] == '"';
    }
  }

  lemma KeyAbsent(segs: seq<string>, key: string)
    requires NoQuotes(segs) && segs != [] && NoQuote(key) && forall i :: 0 < i < |segs| - 1 ==> segs[i] != key
    ensures !FieldOf(Join(segs), key).present
  {
    FindFirst(Join(segs), Quoted(key), 0);
    var r := Find(Join(segs), Quoted(key), 0);
    if r.Some? { AbsentIn(segs, key, r.value); }
  }
}
