/** Strings: trimming, searching, decimal digits, and texts cut at their quotes. */
module Text {
  import opened Machine

  // ---- trimming ---------------------------------------------------------------------------

  predicate IsSpace(c: char)
  {
    c == ' ' || c == '\n' || c == '\r' || c == '\t'
  }

  function TrimFront(s: string): (r: string)
    ensures |r| <= |s|
  {
    if s != "" && IsSpace(s[0]) then TrimFront(s[1..]) else s
  }

  function TrimBack(s: string): (r: string)
    ensures |r| <= |s|
  {
    if s != "" && IsSpace(s[|s| - 1]) then TrimBack(s[..|s| - 1]) else s
  }

  function Trim(s: string): (r: string)
    ensures |r| <= |s|
  {
    TrimBack(TrimFront(s))
  }

  /** The ends of the text are no spaces. */
  predicate Tight(s: string)
  {
    s != "" && !IsSpace(s[0]) && !IsSpace(s[|s| - 1])
  }

  lemma TrimTight(s: string)
    requires s == "" || Tight(s)
    ensures Trim(s) == s
  {
  }

  /** Only blanks, newlines, carriage returns and tabs. */
  predicate Blanks(s: string)
  {
    forall i :: 0 <= i < |s| ==> s[i] == ' ' || s[i] == '\n' || s[i] == '\r' || s[i] == '\t'
  }

  /** Neither end is a blank, a newline, a carriage return or a tab. */
  predicate Bare(s: string)
  {
    s != "" ==> && s[0] != ' ' && s[0] != '\n' && s[0] != '\r' && s[0] != '\t'
                && var c := s[|s| - 1]; c != ' ' && c != '\n' && c != '\r' && c != '\t'
  }

  lemma {:induction false} TrimFrontBlanks(a: string, s: string)
    requires Blanks(a)
    ensures TrimFront(a + s) == TrimFront(s)
  {
    if a == "" {
      assert a + s == s;
    } else {
      TrimFrontBlanks(a[1..], s);
      assert (a + s)[1..] == a[1..] + s;
    }
  }

  lemma {:induction false} TrimBackBlanks(s: string, b: string)
    requires Blanks(b)
    ensures TrimBack(s + b) == TrimBack(s)
  {
    if b == "" {
      assert s + b == s;
    } else {
      var t, n := s + b, |b| - 1;
      assert t[..|t| - 1] == s + b[..n] && t[|t| - 1] == b[n];
      TrimBackBlanks(s, b[..n]);
    }
  }

  /** Trimming takes away exactly the blanks, newlines, carriage returns and tabs at both ends. */
  lemma TrimStrips(a: string, s: string, b: string)
    requires Blanks(a) && Bare(s) && Blanks(b)
    ensures Trim(a + s + b) == s
  {
    assert a + s + b == a + (s + b);
    TrimFrontBlanks(a, s + b);
    if s == "" {
      assert s + b == b && b + "" == b;
      TrimFrontBlanks(b, "");
    } else {
      assert TrimFront(s + b) == s + b;
      TrimBackBlanks(s, b);
    }
  }

  // ---- searching --------------------------------------------------------------------------

  predicate Occurs(s: string, x: string, i: nat)
  {
    i + |x| <= |s| && s[i..i + |x|] == x
  }

  /** The first place at or after `from` where `x` occurs. */
  function Find(s: string, x: string, from: nat): (r: Option<nat>)
    decreases |s| - from
  {
    if from + |x| > |s| then None
    else if Occurs(s, x, from) then Some(from)
    else if from == |s| then None
    else Find(s, x, from + 1)
  }

  lemma {:induction false} FindIs(s: string, x: string, from: nat, i: nat)
    requires from <= i && Occurs(s, x, i) && forall j :: from <= j < i ==> !Occurs(s, x, j)
    ensures Find(s, x, from) == Some(i)
    decreases i - from
  {
    if from < i { FindIs(s, x, from + 1, i); }
  }

  lemma {:induction false} FindFirst(s: string, x: string, from: nat)
    ensures var r := Find(s, x, from);
            && (r.Some? ==> from <= r.value && Occurs(s, x, r.value))
            && forall j :: from <= j && (r.Some? ==> j < r.value) ==> !Occurs(s, x, j)
    decreases |s| - from
  {
    if from + |x| <= |s| && !Occurs(s, x, from) && from < |s| {
      FindFirst(s, x, from + 1);
    }
  }

  // ---- decimal numbers --------------------------------------------------------------------

  predicate IsDigit(c: char)
  {
    '0' <= c <= '9'
  }

  function Digit(d: nat): (c: char)
    requires d < 10
    ensures IsDigit(c)
  {
    '0' + d as char
  }

  function DigitValue(c: char): (d: nat)
    requires IsDigit(c)
    ensures d < 10
  {
    c as int - '0' as int
  }

  /** The decimal text of a number. */
  function Decimal(n: nat): (s: string)
    ensures s != "" && forall i :: 0 <= i < |s| ==> IsDigit(s[i])
  {
    if n < 10 then [Digit(n)] else Decimal(n / 10) + [Digit(n % 10)]
  }

  /** The number a text of digits stands for. */
  function Number(s: string): nat
    requires forall i :: 0 <= i < |s| ==> IsDigit(s[i])
  {
    if s == "" then 0 else 10 * Number(s[..|s| - 1]) + DigitValue(s[|s| - 1])
  }

  lemma {:induction false} NumberOfDecimal(n: nat)
    ensures Number(Decimal(n)) == n
  {
    if n >= 10 {
      NumberOfDecimal(n / 10);
      var s := Decimal(n);
      assert s[..|s| - 1] == Decimal(n / 10);
    } else {
      assert Decimal(n)[..0] == "";
    }
  }

  /** Digits without a leading zero are the decimal text of their number: no other text prints it. */
  lemma {:induction false} DecimalOfNumber(s: string)
    requires s != "" && (forall i :: 0 <= i < |s| ==> '0' <= s[i] <= '9') && (|s| > 1 ==> s[0] != '0')
    ensures Decimal(Number(s)) == s && (|s| > 1 ==> Number(s) >= 10)
  {
    var front, last := s[..|s| - 1], s[|s| - 1];
    assert s == front + [last] && Number(s) == 10 * Number(front) + DigitValue(last);
    if |s| == 1 {
      assert front == "";
    } else {
      DecimalOfNumber(front);
      if |front| == 1 { assert front[..0] == ""; }
      assert Number(s) / 10 == Number(front) && Number(s) % 10 == DigitValue(last);
    }
  }

  lemma DecimalTight(n: nat)
    ensures Tight(Decimal(n)) && Trim(Decimal(n)) == Decimal(n)
  {
    var s := Decimal(n);
    assert IsDigit(s[0]) && IsDigit(s[|s| - 1]);
    TrimTight(s);
  }

  // ---- texts cut at their quotes ----------------------------------------------------------

  predicate NoQuote(s: string)
  {
    forall i :: 0 <= i < |s| ==> s[i] != '"'
  }

  predicate NoQuotes(segs: seq<string>)
  {
    forall i :: 0 <= i < |segs| ==> NoQuote(segs[i])
  }

  /** The pieces with a quote between each two. */
  function Join(segs: seq<string>): string
  {
    if segs == [] then "" else if |segs| == 1 then segs[0] else segs[0] + "\"" + Join(segs[1..])
  }

  lemma {:induction false} JoinSplit(a: seq<string>, b: seq<string>)
    requires a != [] && b != []
    ensures Join(a + b) == Join(a) + "\"" + Join(b)
  {
    if |a| == 1 {
      assert (a + b)[1..] == b;
    } else {
      JoinSplit(a[1..], b);
      assert (a + b)[1..] == a[1..] + b;
    }
  }

  function Quoted(key: string): string
  {
    "\"" + key + "\""
  }

  /** Where the pieces up to `i` end: the quote before piece `i`. */
  function Offset(segs: seq<string>, i: nat): nat
    requires 0 < i < |segs|
  {
    |Join(segs[..i])|
  }

  lemma PieceFound(head: string, key: string, tail: string)
    ensures Occurs(head + "\"" + key + "\"" + tail, Quoted(key), |head|)
  {
    var s := head + "\"" + key + "\"" + tail;
    assert s == head + Quoted(key) + tail;
  }

  lemma PieceOnly(head: string, next: string, tail: string, key: string, i: nat)
    requires NoQuote(head) && NoQuote(next) && NoQuote(key) && i <= |head|
    requires Occurs(head + "\"" + next + "\"" + tail, Quoted(key), i)
    ensures i == |head| && next == key
  {
    var s, q := head + "\"" + next + "\"" + tail, Quoted(key);
    assert forall k :: 0 <= k < |q| ==> s[i..i + |q|][k] == q[k];
    assert s[i] == q[0];
    assert i == |head|;
    var u := next + "\"" + tail;
    assert s == head + "\"" + u;
    assert s[i..i + |q|] == "\"" + u[..|key| + 1];
    assert u[..|key| + 1] == q[1..];
    assert q[1..] == key + "\"";
    SameWord(u, next, key);
  }

  lemma WordEnds(u: string, a: string)
    requires NoQuote(a) && a + "\"" <= u
    ensures u[|a|] == '"' && forall k :: 0 <= k < |a| ==> u[k] != '"' && u[k] == a[k]
  {
    assert u[|a|] == (a + "\"")[|a|];
    assert forall k :: 0 <= k < |a| ==> u[k] == (a + "\"")[k];
  }

  /** Only one quote-free word is followed by the first quote. */
  lemma SameWord(u: string, a: string, b: string)
    requires NoQuote(a) && NoQuote(b) && a + "\"" <= u && b + "\"" <= u
    ensures a == b
  {
    WordEnds(u, a);
    WordEnds(u, b);
    forall k | 0 <= k < |a| ensures a[k] == b[k] {
      assert u[k] == (a + "\"")[k] == a[k] && u[k] == (b + "\"")[k] == b[k];
    }
  }

  lemma OccursLater(head: string, rest: string, x: string, i: nat)
    requires i > |head|
    ensures Occurs(head + "\"" + rest, x, i) <==> Occurs(rest, x, i - |head| - 1)
  {
    var s, k := head + "\"" + rest, i - |head| - 1;
    if i + |x| <= |s| {
      assert s[i..i + |x|] == rest[k..k + |x|];
    }
  }

  /** The first occurrence of a quoted key is the first piece equal to it. */
  lemma {:induction false} FirstPiece(segs: seq<string>, i: nat, key: string)
    requires NoQuotes(segs) && 0 < i < |segs| - 1 && segs[i] == key
    requires forall j :: 0 < j < i ==> segs[j] != key
    ensures Occurs(Join(segs), Quoted(key), Offset(segs, i))
    ensures forall j :: 0 <= j < Offset(segs, i) ==> !Occurs(Join(segs), Quoted(key), j)
    decreases i
  {
    var head, rest, tail := segs[0], Join(segs[1..]), Join(segs[1..][1..]);
    var s := head + "\"" + rest;
    assert rest == segs[1] + "\"" + tail;
    assert s == head + "\"" + segs[1] + "\"" + tail;
    forall j | 0 <= j <= |head| && Occurs(s, Quoted(key), j) ensures j == |head| && segs[1] == key {
      PieceOnly(head, segs[1], tail, key, j);
    }
    if i == 1 {
      assert segs[..1] == [head];
      PieceFound(head, key, tail);
    } else {
      FirstPiece(segs[1..], i - 1, key);
      var at := Offset(segs[1..], i - 1);
      assert segs[..i][1..] == segs[1..][..i - 1];
      assert Offset(segs, i) == |head| + 1 + at;
      OccursLater(head, rest, Quoted(key), |head| + 1 + at);
      forall j | |head| < j < |head| + 1 + at ensures !Occurs(s, Quoted(key), j) {
        OccursLater(head, rest, Quoted(key), j);
      }
    }
  }
}
