/**
Texts of a profile with white space anywhere between their tokens, cut at their quotes, and the round trip of
every such text through the parser.
 */
module ProfileLayout {
  import opened Machine
  import opened Text
  import opened Brackets
  import opened JsonField
  import opened Profile

  // ---- the pieces -------------------------------------------------------------------------

  /** White space around item `i` of a list. */
  type Spacing = nat -> (string, string)

  /** Where the white space is: in member `k`, in the two members of the parameters, and in their lists. */
  datatype Layout = Layout(member: nat -> Gaps, open: string, min: Gaps, max: Gaps, low: Spacing, high: Spacing)

  ghost predicate SpacingOk(sp: Spacing)
  {
    forall i: nat :: Blanks(sp(i).0) && Blanks(sp(i).1)
  }

  ghost predicate LayoutOk(lay: Layout)
  {
    && (forall k: nat :: GapsOk(lay.member(k))) && Blanks(lay.open) && GapsOk(lay.min) && GapsOk(lay.max)
    && SpacingOk(lay.low) && SpacingOk(lay.high)
  }

  function UnitsName(u: Units): string { if u == Normalized then "normalized" else "physical" }

  function NormName(n: Norm): string { if n == NoNorm then "none" else "minmax" }

  function SolverName(s: Solver): string
  {
    match s
    case Euler => "euler"
    case Heun => "heun"
    case RK4 => "rk4"
    case OtherSolver => ""
  }

  function Shown(f: Format, x: Float): string
  {
    if x.Finite? then f.show(x.value) else ""
  }

  /** Comma-separated numbers from item `from` on, without the white space at both ends. */
  function Core(f: Format, sp: Spacing, vs: seq<Float>, from: nat): string
    decreases |vs|
  {
    if vs == [] then ""
    else if |vs| == 1 then Shown(f, vs[0])
    else Shown(f, vs[0]) + sp(from).1 + "," + (sp(from + 1).0 + Core(f, sp, vs[1..], from + 1))
  }

  /** What stands between the brackets of a list. */
  function Inside(f: Format, sp: Spacing, vs: seq<Float>): string
  {
    if vs == [] then "" else sp(0).0 + Core(f, sp, vs, 0) + sp(|vs| - 1).1
  }

  function List(f: Format, sp: Spacing, vs: seq<Float>): string
  {
    "[" + Inside(f, sp, vs) + "]"
  }

  /** A member with a bare number, ended by `end`. */
  function NumberMember(g: Gaps, key: string, n: nat, end: string): seq<string>
  {
    [key, g.key + ":" + g.colon + Decimal(n) + g.value + end + g.comma]
  }

  function StringMember(g: Gaps, key: string, value: string): seq<string>
  {
    [key, g.key + ":" + g.colon, value, g.value + "," + g.comma]
  }

  /** What follows the keys `min` and `max` of the parameters. */
  function LowPiece(f: Format, lay: Layout, p: Profile): string
  {
    lay.min.key + ":" + lay.min.colon + List(f, lay.low, p.low) + lay.min.value + "," + lay.min.comma
  }

  function HighPiece(f: Format, lay: Layout, p: Profile): string
  {
    lay.max.key + ":" + lay.max.colon + List(f, lay.high, p.high) + lay.max.value
  }

  function ParamsMember(f: Format, lay: Layout, p: Profile): seq<string>
  {
    var g := lay.member(7);
    var front, back := g.key + ":" + g.colon + "{" + lay.open, "}" + g.value + "," + g.comma;
    if p.norm == MinMax
    then [K_PARAMS, front, "min", LowPiece(f, lay, p), "max", HighPiece(f, lay, p) + back]
    else [K_PARAMS, front + back]
  }

  function Members(f: Format, lay: Layout, p: Profile): (ms: seq<seq<string>>)
    ensures |ms| == 11 && forall k :: 0 <= k < 11 ==> ms[k] != []
  {
    var g := lay.member;
    [NumberMember(g(0), K_VERSION, p.version, ","), NumberMember(g(1), K_COMPAT, p.compatibility, ","),
     StringMember(g(2), K_HASH, p.hash), NumberMember(g(3), K_DIM, p.actionDim, ","),
     NumberMember(g(4), K_HORIZON, p.horizon, ","), StringMember(g(5), K_UNITS, UnitsName(p.units)),
     StringMember(g(6), K_NORM, NormName(p.norm)), ParamsMember(f, lay, p),
     StringMember(g(8), K_SOLVER, SolverName(p.solver)), NumberMember(g(9), K_MIN, p.minSteps, ","),
     NumberMember(g(10).(comma := ""), K_MAX, p.maxSteps, "}")]
  }

  function Flatten(ms: seq<seq<string>>): seq<string>
  {
    if ms == [] then [] else ms[0] + Flatten(ms[1..])
  }

  function Pieces(ms: seq<seq<string>>): seq<string>
  {
    ["{"] + Flatten(ms)
  }

  /** A text of the profile in this layout. */
  function Spaced(f: Format, lay: Layout, p: Profile): string
  {
    Join(Pieces(Members(f, lay, p)))
  }

  // ---- where a member lies ----------------------------------------------------------------

  lemma {:induction false} FlattenSplit(ms: seq<seq<string>>, k: nat)
    requires k < |ms|
    ensures Flatten(ms) == Flatten(ms[..k]) + ms[k] + Flatten(ms[k + 1..])
  {
    if k > 0 {
      FlattenSplit(ms[1..], k - 1);
      assert ms[..k][1..] == ms[1..][..k - 1] && ms[1..][k..] == ms[k + 1..];
    }
  }

  /** Index of the key of member `k`. */
  function KeyIndex(ms: seq<seq<string>>, k: nat): nat
    requires k <= |ms|
  {
    1 + |Flatten(ms[..k])|
  }

  lemma Placed(ms: seq<seq<string>>, k: nat)
    requires k < |ms|
    ensures var i := KeyIndex(ms, k);
            && i + |ms[k]| <= |Pieces(ms)| && Pieces(ms)[1..i] == Flatten(ms[..k])
            && Pieces(ms)[i..] == ms[k] + Flatten(ms[k + 1..])
  {
    FlattenSplit(ms, k);
    var a, b, c := Flatten(ms[..k]), ms[k], Flatten(ms[k + 1..]);
    assert Pieces(ms) == ["{"] + a + (b + c);
  }

  lemma {:induction false} NotInFlatten(ms: seq<seq<string>>, key: string)
    requires forall m :: 0 <= m < |ms| ==> key !in ms[m]
    ensures key !in Flatten(ms)
  {
    if ms != [] { NotInFlatten(ms[1..], key); }
  }

  predicate QuoteFree(ms: seq<seq<string>>)
  {
    forall m :: 0 <= m < |ms| ==> NoQuotes(ms[m])
  }

  lemma {:induction false} FlattenQuoteFree(ms: seq<seq<string>>)
    requires QuoteFree(ms)
    ensures NoQuotes(Flatten(ms))
  {
    if ms != [] {
      FlattenQuoteFree(ms[1..]);
      assert NoQuotes(ms[0]);
    }
  }

  /** The key of member `k` occurs in no earlier member. */
  predicate FirstIn(ms: seq<seq<string>>, k: nat, key: string)
  {
    k < |ms| && |ms[k]| > 1 && ms[k][0] == key && forall m :: 0 <= m < k ==> key !in ms[m]
  }

  lemma KeyPlaced(ms: seq<seq<string>>, k: nat, key: string)
    requires QuoteFree(ms) && FirstIn(ms, k, key)
    ensures var segs, i := Pieces(ms), KeyIndex(ms, k);
            && NoQuotes(segs) && 0 < i < |segs| - 1 && segs[i] == key && (forall j :: 0 < j < i ==> segs[j] != key)
            && segs[i..] == ms[k] + Flatten(ms[k + 1..])
  {
    var segs, i := Pieces(ms), KeyIndex(ms, k);
    Placed(ms, k);
    FlattenQuoteFree(ms);
    assert segs[i] == segs[i..][0];
    assert forall m :: 0 <= m < k ==> ms[..k][m] == ms[m];
    NotInFlatten(ms[..k], key);
    forall j | 0 < j < i ensures segs[j] != key {
      assert segs[j] == segs[1..i][j - 1];
    }
  }

  lemma NumberField(ms: seq<seq<string>>, k: nat, g: Gaps, key: string, n: nat, end: string)
    requires QuoteFree(ms) && FirstIn(ms, k, key) && ms[k] == NumberMember(g, key, n, end)
    requires GapsOk(g) && (end == "," || end == "}")
    ensures FieldOf(Join(Pieces(ms)), key) == Field(Decimal(n), true, false)
  {
    var segs, i := Pieces(ms), KeyIndex(ms, k);
    KeyPlaced(ms, k, key);
    assert segs[i + 1] == segs[i..][1] == ms[k][1];
    NumberAt(segs, i, key, g, Decimal(n), end);
  }

  lemma StringField(ms: seq<seq<string>>, k: nat, g: Gaps, key: string, value: string)
    requires QuoteFree(ms) && FirstIn(ms, k, key) && ms[k] == StringMember(g, key, value) && GapsOk(g)
    ensures FieldOf(Join(Pieces(ms)), key) == Field(value, true, true)
  {
    var segs, i := Pieces(ms), KeyIndex(ms, k);
    KeyPlaced(ms, k, key);
    assert segs[i + 1] == segs[i..][1] == ms[k][1] && segs[i + 2] == segs[i..][2] == ms[k][2];
    StringAt(segs, i, key, g);
  }

  // ---- keys -------------------------------------------------------------------------------

  function KeyOf(k: nat): string
    requires k < 11
  {
    match k
    case 0 => K_VERSION
    case 1 => K_COMPAT
    case 2 => K_HASH
    case 3 => K_DIM
    case 4 => K_HORIZON
    case 5 => K_UNITS
    case 6 => K_NORM
    case 7 => K_PARAMS
    case 8 => K_SOLVER
    case 9 => K_MIN
    case _ => K_MAX
  }

  lemma KeyShape(k: nat)
    requires k < 11
    ensures 10 <= |KeyOf(k)| <= 27 && 'a' <= KeyOf(k)[0] <= 'z' && KeyOf(k) != "normalized"
    ensures |KeyOf(k)| == [15, 27, 23, 10, 14, 12, 18, 24, 14, 16, 16][k]
    ensures k == 3 ==> KeyOf(k)[0] == 'a'
  {
    assert "normalized"[0] == 'n';
    assert K_DIM[0] == 'a';
  }

  lemma KeyFree(k: nat)
    requires k < 11
    ensures NoQuote(KeyOf(k))
  {
    if k < 6 { FrontKeyFree(k); } else { BackKeyFree(k); }
  }

  lemma FrontKeyFree(k: nat)
    requires k < 6
    ensures NoQuote(KeyOf(k))
  {
  }

  lemma BackKeyFree(k: nat)
    requires 6 <= k < 11
    ensures NoQuote(KeyOf(k))
  {
  }

  lemma KeysDistinct(i: nat, j: nat)
    requires i < j < 11
    ensures KeyOf(i) != KeyOf(j)
  {
    KeyShape(i);
    KeyShape(j);
    assert K_HORIZON[0] == 'a' && K_SOLVER[0] == 's';
    assert K_MIN[8] == 'i' && K_MAX[8] == 'a';
  }

  /** A piece that no key equals: it starts with no letter, has another length, or is a value. */
  predicate Unlike(v: string)
  {
    |v| < 10 || |v| > 27 || !('a' <= v[0] <= 'z') || v == "normalized"
  }

  lemma UnlikeKey(v: string, k: nat)
    requires Unlike(v) && k < 11
    ensures v != KeyOf(k)
  {
    KeyShape(k);
  }

  /** White space, a mark and anything behind it. */
  lemma MarkUnlike(gap: string, mark: char, rest: string)
    requires Blanks(gap) && !('a' <= mark <= 'z')
    ensures Unlike(gap + [mark] + rest)
  {
    var v := gap + [mark] + rest;
    assert v[0] == if gap == "" then mark else gap[0];
  }

  lemma NumberShape(g: Gaps, key: string, n: nat, end: string)
    requires GapsOk(g)
    ensures Unlike(NumberMember(g, key, n, end)[1])
  {
    MarkUnlike(g.key, ':', g.colon + Decimal(n) + g.value + end + g.comma);
    assert g.key + ":" + g.colon + Decimal(n) + g.value + end + g.comma
        == g.key + [':'] + (g.colon + Decimal(n) + g.value + end + g.comma);
  }

  lemma StringShape(g: Gaps, key: string, v: string)
    requires GapsOk(g) && Unlike(v)
    ensures forall i :: 1 <= i < 4 ==> Unlike(StringMember(g, key, v)[i])
  {
    MarkUnlike(g.key, ':', g.colon);
    MarkUnlike(g.value, ',', g.comma);
  }

  lemma FrontShape(g: Gaps, open: string, back: string)
    requires GapsOk(g)
    ensures Unlike(g.key + ":" + g.colon + "{" + open) && Unlike(g.key + ":" + g.colon + "{" + open + back)
  {
    PieceShape(g, "{" + open, g.key + ":" + g.colon + "{" + open);
    PieceShape(g, "{" + open + back, g.key + ":" + g.colon + "{" + open + back);
  }

  lemma BoundShapes(f: Format, lay: Layout, p: Profile, back: string)
    requires LayoutOk(lay)
    ensures Unlike(LowPiece(f, lay, p)) && Unlike(HighPiece(f, lay, p) + back)
  {
    PieceShape(lay.min, List(f, lay.low, p.low) + lay.min.value + "," + lay.min.comma, LowPiece(f, lay, p));
    PieceShape(lay.max, List(f, lay.high, p.high) + lay.max.value + back, HighPiece(f, lay, p) + back);
  }

  lemma ParamsShape(f: Format, lay: Layout, p: Profile)
    requires LayoutOk(lay)
    ensures var s := ParamsMember(f, lay, p); forall i :: 1 <= i < |s| ==> Unlike(s[i])
  {
    var g := lay.member(7);
    FrontShape(g, lay.open, "}" + g.value + "," + g.comma);
    BoundShapes(f, lay, p, "}" + g.value + "," + g.comma);
    assert Unlike("min") && Unlike("max");
  }

  lemma PieceShape(g: Gaps, rest: string, piece: string)
    requires GapsOk(g) && piece == g.key + ":" + g.colon + rest
    ensures Unlike(piece)
  {
    assert piece == g.key + [':'] + (g.colon + rest);
    MarkUnlike(g.key, ':', g.colon + rest);
  }

  lemma ValuesUnlike(p: Profile)
    requires ValidHash(p.hash)
    ensures Unlike(p.hash) && Unlike(UnitsName(p.units)) && Unlike(NormName(p.norm)) && Unlike(SolverName(p.solver))
  {
  }

  /** The members with a bare number, and the others. */
  predicate IsNumber(m: nat)
  {
    m in {0, 1, 3, 4, 9, 10}
  }

  lemma NumbersShape(f: Format, lay: Layout, p: Profile, m: nat)
    requires LayoutOk(lay) && m < 11 && IsNumber(m)
    ensures var s := Members(f, lay, p)[m]; |s| == 2 && s[0] == KeyOf(m) && Unlike(s[1])
  {
    var g := lay.member;
    assert GapsOk(g(m));
    match m
    case 0 => NumberShape(g(0), K_VERSION, p.version, ",");
    case 1 => NumberShape(g(1), K_COMPAT, p.compatibility, ",");
    case 3 => NumberShape(g(3), K_DIM, p.actionDim, ",");
    case 4 => NumberShape(g(4), K_HORIZON, p.horizon, ",");
    case 9 => NumberShape(g(9), K_MIN, p.minSteps, ",");
    case _ => NumberShape(g(10).(comma := ""), K_MAX, p.maxSteps, "}");
  }

  lemma OthersShape(f: Format, lay: Layout, p: Profile, m: nat)
    requires LayoutOk(lay) && ValidHash(p.hash) && m < 11 && !IsNumber(m)
    ensures var s := Members(f, lay, p)[m];
            |s| > 1 && s[0] == KeyOf(m) && forall i :: 1 <= i < |s| ==> Unlike(s[i])
  {
    ValuesUnlike(p);
    var g := lay.member;
    assert GapsOk(g(m));
    match m
    case 2 => StringShape(g(2), K_HASH, p.hash);
    case 5 => StringShape(g(5), K_UNITS, UnitsName(p.units));
    case 6 => StringShape(g(6), K_NORM, NormName(p.norm));
    case 7 => ParamsShape(f, lay, p);
    case _ => StringShape(g(8), K_SOLVER, SolverName(p.solver));
  }

  lemma MemberShape(f: Format, lay: Layout, p: Profile, m: nat)
    requires LayoutOk(lay) && ValidHash(p.hash) && m < 11
    ensures var s := Members(f, lay, p)[m];
            |s| > 1 && s[0] == KeyOf(m) && forall i :: 1 <= i < |s| ==> Unlike(s[i])
  {
    if IsNumber(m) { NumbersShape(f, lay, p, m); } else { OthersShape(f, lay, p, m); }
  }

  /** Every key is found first at its own member. */
  lemma KeyFirst(f: Format, lay: Layout, p: Profile, k: nat)
    requires LayoutOk(lay) && ValidHash(p.hash) && k < 11
    ensures FirstIn(Members(f, lay, p), k, KeyOf(k))
  {
    var ms := Members(f, lay, p);
    MemberShape(f, lay, p, k);
    forall m | 0 <= m < k ensures KeyOf(k) !in ms[m] {
      MemberShape(f, lay, p, m);
      KeysDistinct(m, k);
      forall i | 1 <= i < |ms[m]| ensures ms[m][i] != KeyOf(k) {
        UnlikeKey(ms[m][i], k);
      }
    }
  }

  // ---- arrays of numbers ------------------------------------------------------------------

  predicate IsFloatChar(c: char)
  {
    IsDigit(c) || c == '+' || c == '-' || c == '.' || c == 'e' || c == 'E'
  }

  /** What is assumed of a printed number: it reads back, and uses only digits, signs, dot and exponent. */
  predicate Faithful(f: Format, x: Float)
  {
    && x.Finite?
    && var t := f.show(x.value);
       0 < |t| < 64 && (forall i :: 0 <= i < |t| ==> IsFloatChar(t[i])) && f.read(t) == Some(x.value)
  }

  predicate AllFaithful(f: Format, vs: seq<Float>)
  {
    forall i :: 0 <= i < |vs| ==> Faithful(f, vs[i])
  }

  /** Characters of a list: those of numbers, commas and white space. */
  predicate ListChars(s: string)
  {
    forall i :: 0 <= i < |s| ==> IsFloatChar(s[i]) || s[i] == ',' || IsSpace(s[i])
  }

  lemma BlanksInList(s: string)
    requires Blanks(s)
    ensures ListChars(s)
  {
  }

  lemma {:induction false} CoreShape(f: Format, sp: Spacing, vs: seq<Float>, from: nat)
    requires AllFaithful(f, vs) && SpacingOk(sp) && vs != []
    ensures var s := Core(f, sp, vs, from); s != "" && ListChars(s) && Bare(s)
    decreases |vs|
  {
    assert Faithful(f, vs[0]);
    var t := Shown(f, vs[0]);
    assert IsFloatChar(t[0]) && IsFloatChar(t[|t| - 1]);
    if |vs| > 1 {
      CoreShape(f, sp, vs[1..], from + 1);
      CoreGrows(t, sp(from).1, sp(from + 1).0, Core(f, sp, vs[1..], from + 1));
    }
  }

  lemma CoreGrows(t: string, a: string, b: string, rest: string)
    requires t != "" && ListChars(t) && Bare(t) && Blanks(a) && Blanks(b) && rest != "" && ListChars(rest) && Bare(rest)
    ensures var s := t + a + "," + (b + rest); s != "" && ListChars(s) && Bare(s)
  {
    var s := t + a + "," + (b + rest);
    assert s[0] == t[0] && s[|s| - 1] == rest[|rest| - 1];
    BlanksInList(a);
    BlanksInList(b);
  }

  lemma FloatBack(f: Format, x: Float)
    requires Faithful(f, x)
    ensures var t := f.show(x.value); Trim(t) == t && ReadFloat(f, t) == Some(x.value) && Find(t, ",", 0) == None
  {
    var t := f.show(x.value);
    assert IsFloatChar(t[0]) && IsFloatChar(t[|t| - 1]);
    TrimTight(t);
    NoComma(t);
  }

  lemma NoComma(t: string)
    requires forall i :: 0 <= i < |t| ==> IsFloatChar(t[i])
    ensures Find(t, ",", 0) == None
  {
    FindFirst(t, ",", 0);
    forall j: nat ensures !Occurs(t, ",", j) {
      if j < |t| { assert t[j..j + 1] == [t[j]] && ","[0] == ','; }
    }
  }

  /** A number followed by white space and a comma is cut off there. */
  lemma CommaAfter(t: string, gap: string, rest: string)
    requires (forall i :: 0 <= i < |t| ==> IsFloatChar(t[i])) && Blanks(gap)
    ensures Find(t + gap + "," + rest, ",", 0) == Some(|t| + |gap|)
  {
    var s, n := t + gap + "," + rest, |t| + |gap|;
    assert s[n..n + 1] == ",";
    forall j | 0 <= j < n ensures !Occurs(s, ",", j) {
      assert s[j] == if j < |t| then t[j] else gap[j - |t|];
      assert s[j..j + 1][0] == s[j] && ","[0] == ',';
    }
    FindIs(s, ",", 0, n);
  }

  /** The two parts around the comma, each without the white space at its ends. */
  lemma ItemCut(t: string, gap: string, lead: string, rest: string)
    requires (forall i :: 0 <= i < |t| ==> IsFloatChar(t[i])) && Bare(t) && Blanks(gap) && Blanks(lead) && Bare(rest)
    ensures var s, n := t + gap + "," + (lead + rest), |t| + |gap|;
            && n < |s| && Find(s, ",", 0) == Some(n) && Trim(s[..n]) == t && Trim(s[n + 1..]) == rest
  {
    var s, n := t + gap + "," + (lead + rest), |t| + |gap|;
    CommaAfter(t, gap, lead + rest);
    assert s[..n] == "" + t + gap && s[n + 1..] == lead + rest + "";
    TrimStrips("", t, gap);
    TrimStrips(lead, rest, "");
  }

  lemma ReadCut(f: Format, s: string, n: nat, t: string, v: real, rest: string, vs: seq<Float>)
    requires n < |s| && Find(s, ",", 0) == Some(n) && Trim(s[..n]) == t && Trim(s[n + 1..]) == rest
    requires ReadFloat(f, t) == Some(v) && rest != "" && ReadItems(f, rest) == Some(vs)
    ensures ReadItems(f, s) == Some([Finite(v)] + vs)
  {
  }

  lemma ItemThenRest(f: Format, x: Float, gap: string, lead: string, rest: string, vs: seq<Float>)
    requires Faithful(f, x) && Blanks(gap) && Blanks(lead) && rest != "" && Bare(rest) && ReadItems(f, rest) == Some(vs)
    ensures ReadItems(f, f.show(x.value) + gap + "," + (lead + rest)) == Some([x] + vs)
  {
    var t := f.show(x.value);
    FloatBack(f, x);
    assert IsFloatChar(t[0]) && IsFloatChar(t[|t| - 1]);
    ItemCut(t, gap, lead, rest);
    ReadCut(f, t + gap + "," + (lead + rest), |t| + |gap|, t, x.value, rest, vs);
  }

  lemma OneItem(f: Format, x: Float)
    requires Faithful(f, x)
    ensures ReadItems(f, f.show(x.value)) == Some([x])
  {
    FloatBack(f, x);
  }

  /** A list of numbers is read back, whatever white space stands around its items. */
  lemma {:induction false} ItemsBack(f: Format, sp: Spacing, vs: seq<Float>, from: nat)
    requires AllFaithful(f, vs) && SpacingOk(sp) && vs != []
    ensures ReadItems(f, Core(f, sp, vs, from)) == Some(vs)
    decreases |vs|
  {
    var x, rest := vs[0], vs[1..];
    assert Faithful(f, x);
    assert vs == [x] + rest;
    if rest == [] {
      OneItem(f, x);
      assert |vs| == 1 && vs == [x] && Core(f, sp, vs, from) == f.show(x.value);
    } else {
      ItemsBack(f, sp, rest, from + 1);
      CoreShape(f, sp, rest, from + 1);
      ItemThenRest(f, x, sp(from).1, sp(from + 1).0, Core(f, sp, rest, from + 1), rest);
    }
  }

  lemma InsideShape(f: Format, sp: Spacing, vs: seq<Float>)
    requires AllFaithful(f, vs) && SpacingOk(sp)
    ensures ListChars(Inside(f, sp, vs)) && Trim(Inside(f, sp, vs)) == Core(f, sp, vs, 0)
  {
    if vs != [] {
      CoreShape(f, sp, vs, 0);
      BlanksInList(sp(0).0);
      BlanksInList(sp(|vs| - 1).1);
      TrimStrips(sp(0).0, Core(f, sp, vs, 0), sp(|vs| - 1).1);
    }
  }

  lemma ArrayBack(f: Format, sp: Spacing, vs: seq<Float>)
    requires AllFaithful(f, vs) && SpacingOk(sp)
    ensures ReadArray(f, List(f, sp, vs)) == Some(vs)
  {
    var s, inner := List(f, sp, vs), Inside(f, sp, vs);
    assert s[0] == '[' && s[|s| - 1] == ']';
    TrimTight(s);
    assert s[1..|s| - 1] == inner;
    InsideShape(f, sp, vs);
    if vs != [] {
      CoreShape(f, sp, vs, 0);
      ItemsBack(f, sp, vs, 0);
    }
  }

  // ---- the parameters object --------------------------------------------------------------

  /** What stands between the braces of the parameters object. */
  function ParamsBody(f: Format, lay: Layout, p: Profile): string
  {
    if p.norm == MinMax
    then lay.open + "\"" + "min" + "\"" + LowPiece(f, lay, p) + "\"" + "max" + "\"" + HighPiece(f, lay, p)
    else lay.open
  }

  function ParamsText(f: Format, lay: Layout, p: Profile): string
  {
    "{" + ParamsBody(f, lay, p) + "}"
  }

  lemma ListCharsFree(s: string)
    requires ListChars(s)
    ensures NoQuote(s) && Plain(s, '[') && Plain(s, '{')
  {
  }

  lemma BlanksFree(s: string)
    requires Blanks(s)
    ensures NoQuote(s) && Plain(s, '[') && Plain(s, '{')
  {
  }

  lemma ListFree(f: Format, sp: Spacing, vs: seq<Float>)
    requires AllFaithful(f, vs) && SpacingOk(sp)
    ensures NoQuote(List(f, sp, vs)) && Plain(List(f, sp, vs), '{')
  {
    InsideShape(f, sp, vs);
    ListCharsFree(Inside(f, sp, vs));
  }

  lemma PieceFree(g: Gaps, list: string, end: string)
    requires GapsOk(g) && NoQuote(list) && Plain(list, '{') && NoQuote(end) && Plain(end, '{')
    ensures var s := g.key + ":" + g.colon + list + g.value + end; NoQuote(s) && Plain(s, '{')
  {
    BlanksFree(g.key);
    BlanksFree(g.colon);
    BlanksFree(g.value);
  }

  lemma BoundsFree(f: Format, lay: Layout, p: Profile)
    requires LayoutOk(lay) && AllFaithful(f, p.low) && AllFaithful(f, p.high)
    ensures NoQuote(LowPiece(f, lay, p)) && Plain(LowPiece(f, lay, p), '{')
    ensures NoQuote(HighPiece(f, lay, p)) && Plain(HighPiece(f, lay, p), '{')
  {
    ListFree(f, lay.low, p.low);
    ListFree(f, lay.high, p.high);
    BlanksFree(lay.min.comma);
    PieceFree(lay.min, List(f, lay.low, p.low), "," + lay.min.comma);
    PieceFree(lay.max, List(f, lay.high, p.high), "");
    assert LowPiece(f, lay, p)
        == lay.min.key + ":" + lay.min.colon + List(f, lay.low, p.low) + lay.min.value + ("," + lay.min.comma);
    assert HighPiece(f, lay, p) == lay.max.key + ":" + lay.max.colon + List(f, lay.high, p.high) + lay.max.value + "";
  }

  /** The pieces of the parameters object on its own. */
  function ParamsPieces(f: Format, lay: Layout, p: Profile): seq<string>
  {
    ["{" + lay.open, "min", LowPiece(f, lay, p), "max", HighPiece(f, lay, p) + "}"]
  }

  lemma JoinFive(a: string, b: string, c: string, d: string, e: string)
    ensures Join([a, b, c, d, e]) == a + "\"" + b + "\"" + c + "\"" + d + "\"" + e
  {
    assert Join([d, e]) == d + "\"" + e by { assert [d, e][1..] == [e]; }
    assert Join([c, d, e]) == c + "\"" + Join([d, e]) by { assert [c, d, e][1..] == [d, e]; }
    assert Join([b, c, d, e]) == b + "\"" + Join([c, d, e]) by { assert [b, c, d, e][1..] == [c, d, e]; }
    assert Join([a, b, c, d, e]) == a + "\"" + Join([b, c, d, e]) by { assert [a, b, c, d, e][1..] == [b, c, d, e]; }
  }

  lemma ParamsTextIs(f: Format, lay: Layout, p: Profile)
    requires p.norm == MinMax
    ensures ParamsText(f, lay, p) == Join(ParamsPieces(f, lay, p))
  {
    JoinFive("{" + lay.open, "min", LowPiece(f, lay, p), "max", HighPiece(f, lay, p) + "}");
    BraceGroups(lay.open, "\"" + "min" + "\"" + LowPiece(f, lay, p) + "\"" + "max" + "\"", HighPiece(f, lay, p));
    OpenGroups(lay.open, "min", LowPiece(f, lay, p), "max", HighPiece(f, lay, p));
  }

  lemma BraceGroups(a: string, b: string, c: string)
    ensures "{" + (a + b + c) + "}" == "{" + a + b + (c + "}")
  {
  }

  lemma OpenGroups(a: string, b: string, c: string, d: string, e: string)
    ensures a + "\"" + b + "\"" + c + "\"" + d + "\"" + e == a + ("\"" + b + "\"" + c + "\"" + d + "\"") + e
    ensures "{" + a + "\"" + b + "\"" + c + "\"" + d + "\"" + (e + "}") == "{" + a + ("\"" + b + "\"" + c + "\"" + d + "\"") + (e + "}")
  {
  }

  lemma ListGroups(g: Gaps, inside: string, end: string, tail: string)
    ensures g.key + ":" + g.colon + ("[" + inside + "]") + end + tail
         == g.key + ":" + (g.colon + ("[" + inside + "]" + (end + tail)))
  {
  }

  /** A list in brackets behind its key. */
  lemma ListField(f: Format, segs: seq<string>, i: nat, key: string, g: Gaps, sp: Spacing, vs: seq<Float>, end: string)
    requires NoQuotes(segs) && 0 < i < |segs| - 1 && segs[i] == key && forall j :: 0 < j < i ==> segs[j] != key
    requires AllFaithful(f, vs) && SpacingOk(sp) && GapsOk(g)
    requires segs[i + 1] == g.key + ":" + g.colon + List(f, sp, vs) + end
    ensures FieldOf(Join(segs), key) == Field(List(f, sp, vs), true, false)
  {
    var inside := Inside(f, sp, vs);
    JoinTail(segs[i + 1..]);
    ListGroups(g, inside, end, Tail(segs[i + 1..]));
    InsideShape(f, sp, vs);
    ListCharsFree(inside);
    LettersRender('[', inside, Empty);
    assert inside + "" == inside;
    BracketAt(segs, i, key, g, '[', Letters(inside, Empty), end + Tail(segs[i + 1..]));
  }

  lemma ParamsPiecesFree(f: Format, lay: Layout, p: Profile)
    requires LayoutOk(lay) && AllFaithful(f, p.low) && AllFaithful(f, p.high)
    ensures NoQuotes(ParamsPieces(f, lay, p))
  {
    BlanksFree(lay.open);
    BoundsFree(f, lay, p);
  }

  lemma LowFound(f: Format, lay: Layout, p: Profile, segs: seq<string>)
    requires LayoutOk(lay) && AllFaithful(f, p.low) && segs == ParamsPieces(f, lay, p) && NoQuotes(segs)
    ensures FieldOf(Join(segs), "min") == Field(List(f, lay.low, p.low), true, false)
  {
    EndGroups(lay.min, List(f, lay.low, p.low), "," + lay.min.comma);
    ListField(f, segs, 1, "min", lay.min, lay.low, p.low, lay.min.value + ("," + lay.min.comma));
  }

  lemma HighFound(f: Format, lay: Layout, p: Profile, segs: seq<string>)
    requires LayoutOk(lay) && AllFaithful(f, p.high) && segs == ParamsPieces(f, lay, p) && NoQuotes(segs)
    ensures FieldOf(Join(segs), "max") == Field(List(f, lay.high, p.high), true, false)
  {
    assert "min"[1] == 'i' && "max"[1] == 'a';
    EndGroups(lay.min, List(f, lay.low, p.low), "," + lay.min.comma);
    LowNotMax(lay.min, List(f, lay.low, p.low) + lay.min.value + ("," + lay.min.comma), segs[2]);
    EndGroups(lay.max, List(f, lay.high, p.high), "}");
    ListField(f, segs, 3, "max", lay.max, lay.high, p.high, lay.max.value + "}");
  }

  lemma BoundsFound(f: Format, lay: Layout, p: Profile)
    requires LayoutOk(lay) && AllFaithful(f, p.low) && AllFaithful(f, p.high) && p.norm == MinMax
    ensures FieldOf(ParamsText(f, lay, p), "min") == Field(List(f, lay.low, p.low), true, false)
    ensures FieldOf(ParamsText(f, lay, p), "max") == Field(List(f, lay.high, p.high), true, false)
  {
    ParamsPiecesFree(f, lay, p);
    ParamsTextIs(f, lay, p);
    LowFound(f, lay, p, ParamsPieces(f, lay, p));
    HighFound(f, lay, p, ParamsPieces(f, lay, p));
  }

  lemma EndGroups(g: Gaps, list: string, end: string)
    ensures g.key + ":" + g.colon + list + g.value + end == g.key + ":" + g.colon + list + (g.value + end)
    ensures g.key + ":" + g.colon + list + g.value + "," + g.comma == g.key + ":" + g.colon + list + (g.value + ("," + g.comma))
    ensures g.key + ":" + g.colon + list + (g.value + end) == g.key + ":" + g.colon + (list + g.value + end)
  {
  }

  lemma LowNotMax(g: Gaps, rest: string, piece: string)
    requires GapsOk(g) && piece == g.key + ":" + g.colon + rest
    ensures piece != "max"
  {
    assert piece[|g.key|] == ':';
    assert "max"[0] == 'm' && "max"[1] == 'a' && "max"[2] == 'x';
  }

  lemma BoundsAbsent(f: Format, lay: Layout, p: Profile)
    requires LayoutOk(lay) && p.norm != MinMax
    ensures !FieldOf(ParamsText(f, lay, p), "min").present && !FieldOf(ParamsText(f, lay, p), "max").present
  {
    var text := ParamsText(f, lay, p);
    BlanksFree(lay.open);
    assert Join([text]) == text;
    KeyAbsent([text], "min");
    KeyAbsent([text], "max");
  }

  /** The parameters object is read back as the profile's bounds. */
  lemma BoundsBack(f: Format, lay: Layout, p: Profile)
    requires LayoutOk(lay) && ValidNorm(p) && AllFaithful(f, p.low) && AllFaithful(f, p.high)
    ensures BoundsOf(f, p.norm, ParamsText(f, lay, p)) == Some((p.low, p.high))
  {
    if p.norm == MinMax {
      BoundsFound(f, lay, p);
      ArrayBack(f, lay.low, p.low);
      ArrayBack(f, lay.high, p.high);
    } else {
      BoundsAbsent(f, lay, p);
    }
  }

  /** A quoted word, then plain text. */
  lemma WordRender(word: string, a: string, rest: Body)
    requires NoQuote(word) && StringText(word) && Plain(a, '{') && WellNested('{', rest, false)
    ensures var b := Str(word, Letters(a, rest));
            Render('{', b) == "\"" + word + "\"" + a + Render('{', rest) && WellNested('{', b, false)
  {
    LettersRender('{', a, rest);
  }

  /** The parameters object as a body: two keys in quotes, each followed by a list. */
  function ParamsTree(f: Format, lay: Layout, p: Profile): Body
  {
    if p.norm == MinMax
    then Letters(lay.open, Str("min", Letters(LowPiece(f, lay, p), Str("max", Letters(HighPiece(f, lay, p), Empty)))))
    else Letters(lay.open, Empty)
  }

  lemma ParamsRender(f: Format, lay: Layout, p: Profile)
    requires LayoutOk(lay) && AllFaithful(f, p.low) && AllFaithful(f, p.high)
    ensures Render('{', ParamsTree(f, lay, p)) == ParamsBody(f, lay, p) && WellNested('{', ParamsTree(f, lay, p), false)
  {
    BlanksFree(lay.open);
    if p.norm == MinMax {
      BoundsFree(f, lay, p);
      var low, high := LowPiece(f, lay, p), HighPiece(f, lay, p);
      WordRender("max", high, Empty);
      WordRender("min", low, Str("max", Letters(high, Empty)));
      LettersRender('{', lay.open, Str("min", Letters(low, Str("max", Letters(high, Empty)))));
      WordGroups(lay.open, "min", low, "max", high);
    } else {
      LettersRender('{', lay.open, Empty);
    }
  }

  lemma WordGroups(a: string, b: string, c: string, d: string, e: string)
    ensures a + ("\"" + b + "\"" + c + ("\"" + d + "\"" + e + "")) == a + "\"" + b + "\"" + c + "\"" + d + "\"" + e
  {
  }

  /** What follows the key of the parameters: the object and the comma behind it. */
  lemma ParamsWrapped(f: Format, lay: Layout, p: Profile)
    ensures var g := lay.member(7);
            Join(ParamsMember(f, lay, p)[1..]) == g.key + ":" + (g.colon + (ParamsText(f, lay, p) + (g.value + "," + g.comma)))
  {
    var g, m := lay.member(7), ParamsMember(f, lay, p);
    var front, back := g.key + ":" + g.colon + "{" + lay.open, "}" + g.value + "," + g.comma;
    if p.norm == MinMax {
      var low, high := LowPiece(f, lay, p), HighPiece(f, lay, p);
      assert m[1..] == [front, "min", low, "max", high + back];
      JoinFive(front, "min", low, "max", high + back);
      FrontGroups(g, lay.open, "\"" + "min" + "\"" + low + "\"" + "max" + "\"", high);
      OpenGroups(lay.open, "min", low, "max", high);
      PieceGroups(front, "min", low, "max", high + back);
    } else {
      assert m[1..] == [front + back];
      FrontGroups(g, lay.open, "", "");
    }
  }

  lemma PieceGroups(a: string, b: string, c: string, d: string, e: string)
    ensures a + "\"" + b + "\"" + c + "\"" + d + "\"" + e == a + ("\"" + b + "\"" + c + "\"" + d + "\"") + e
  {
  }

  lemma FrontGroups(g: Gaps, open: string, mid: string, high: string)
    ensures g.key + ":" + g.colon + "{" + open + mid + (high + ("}" + g.value + "," + g.comma))
         == g.key + ":" + (g.colon + ("{" + (open + mid + high) + "}" + (g.value + "," + g.comma)))
    ensures g.key + ":" + g.colon + "{" + open + ("}" + g.value + "," + g.comma)
         == g.key + ":" + (g.colon + ("{" + open + "}" + (g.value + "," + g.comma)))
  {
  }

  lemma TailGroups(g: Gaps, text: string, later: string)
    ensures g.key + ":" + (g.colon + (text + (g.value + "," + g.comma))) + "\"" + later
         == g.key + ":" + (g.colon + (text + (g.value + "," + g.comma + ("\"" + later))))
  {
  }

  /** The text behind the key of a member: the rest of the member, and the members after it. */
  lemma BehindKey(ms: seq<seq<string>>, k: nat, key: string)
    requires QuoteFree(ms) && FirstIn(ms, k, key) && |ms[k]| > 1 && Flatten(ms[k + 1..]) != []
    ensures var segs, i := Pieces(ms), KeyIndex(ms, k);
            0 < i < |segs| && Join(segs[i + 1..]) == Join(ms[k][1..]) + "\"" + Join(Flatten(ms[k + 1..]))
  {
    var segs, i, later := Pieces(ms), KeyIndex(ms, k), Flatten(ms[k + 1..]);
    KeyPlaced(ms, k, key);
    assert segs[i + 1..] == segs[i..][1..] == ms[k][1..] + later;
    JoinSplit(ms[k][1..], later);
  }

  lemma ParamsField(f: Format, lay: Layout, p: Profile, ms: seq<seq<string>>, k: nat)
    requires LayoutOk(lay) && AllFaithful(f, p.low) && AllFaithful(f, p.high) && QuoteFree(ms)
    requires FirstIn(ms, k, K_PARAMS) && ms[k] == ParamsMember(f, lay, p) && Flatten(ms[k + 1..]) != []
    ensures FieldOf(Join(Pieces(ms)), K_PARAMS) == Field(ParamsText(f, lay, p), true, false)
  {
    var segs, i, later, g := Pieces(ms), KeyIndex(ms, k), Flatten(ms[k + 1..]), lay.member(7);
    KeyPlaced(ms, k, K_PARAMS);
    BehindKey(ms, k, K_PARAMS);
    ParamsWrapped(f, lay, p);
    ParamsRender(f, lay, p);
    TailGroups(g, ParamsText(f, lay, p), Join(later));
    BracketAt(segs, i, K_PARAMS, g, '{', ParamsTree(f, lay, p), g.value + "," + g.comma + ("\"" + Join(later)));
  }

  // ---- round trip -------------------------------------------------------------------------

  lemma NumberFree(g: Gaps, key: string, n: nat, end: string)
    requires GapsOk(g) && NoQuote(key) && NoQuote(end)
    ensures NoQuotes(NumberMember(g, key, n, end))
  {
  }

  lemma StringFree(g: Gaps, key: string, v: string)
    requires GapsOk(g) && NoQuote(key) && NoQuote(v)
    ensures NoQuotes(StringMember(g, key, v))
  {
  }

  lemma NoQuoteBoth(a: string, b: string)
    requires NoQuote(a) && NoQuote(b)
    ensures NoQuote(a + b)
  {
  }

  lemma WrapFree(g: Gaps, open: string)
    requires GapsOk(g) && Blanks(open)
    ensures NoQuote(g.key + ":" + g.colon + "{" + open) && NoQuote("}" + g.value + "," + g.comma)
  {
    BlanksFree(g.key);
    BlanksFree(g.colon);
    BlanksFree(g.value);
    BlanksFree(g.comma);
    BlanksFree(open);
  }

  lemma ParamsFree(f: Format, lay: Layout, p: Profile)
    requires LayoutOk(lay) && AllFaithful(f, p.low) && AllFaithful(f, p.high)
    ensures NoQuotes(ParamsMember(f, lay, p))
  {
    var g := lay.member(7);
    var front, back := g.key + ":" + g.colon + "{" + lay.open, "}" + g.value + "," + g.comma;
    WrapFree(g, lay.open);
    BoundsFree(f, lay, p);
    KeyFree(7);
    if p.norm == MinMax {
      NoQuoteBoth(HighPiece(f, lay, p), back);
      SixFree(K_PARAMS, front, "min", LowPiece(f, lay, p), "max", HighPiece(f, lay, p) + back);
    } else {
      NoQuoteBoth(front, back);
    }
  }

  lemma SixFree(a: string, b: string, c: string, d: string, e: string, f: string)
    requires NoQuote(a) && NoQuote(b) && NoQuote(c) && NoQuote(d) && NoQuote(e) && NoQuote(f)
    ensures NoQuotes([a, b, c, d, e, f])
  {
  }

  lemma NamesFree(p: Profile)
    ensures NoQuote(UnitsName(p.units)) && NoQuote(NormName(p.norm)) && NoQuote(SolverName(p.solver))
  {
  }

  lemma NumbersFree(f: Format, lay: Layout, p: Profile, m: nat)
    requires LayoutOk(lay) && m < 11 && IsNumber(m)
    ensures NoQuotes(Members(f, lay, p)[m])
  {
    var g := lay.member;
    assert GapsOk(g(m));
    KeyFree(m);
    match m
    case 0 => NumberFree(g(0), K_VERSION, p.version, ",");
    case 1 => NumberFree(g(1), K_COMPAT, p.compatibility, ",");
    case 3 => NumberFree(g(3), K_DIM, p.actionDim, ",");
    case 4 => NumberFree(g(4), K_HORIZON, p.horizon, ",");
    case 9 => NumberFree(g(9), K_MIN, p.minSteps, ",");
    case _ => NumberFree(g(10).(comma := ""), K_MAX, p.maxSteps, "}");
  }

  lemma MemberFree(f: Format, lay: Layout, p: Profile, m: nat)
    requires LayoutOk(lay) && ValidHash(p.hash) && AllFaithful(f, p.low) && AllFaithful(f, p.high) && m < 11
    ensures NoQuotes(Members(f, lay, p)[m])
  {
    if IsNumber(m) {
      NumbersFree(f, lay, p, m);
    } else {
      var g := lay.member;
      assert GapsOk(g(m));
      HashFree(p.hash);
      NamesFree(p);
      KeyFree(m);
      match m
      case 2 => StringFree(g(2), K_HASH, p.hash);
      case 5 => StringFree(g(5), K_UNITS, UnitsName(p.units));
      case 6 => StringFree(g(6), K_NORM, NormName(p.norm));
      case 7 => ParamsFree(f, lay, p);
      case _ => StringFree(g(8), K_SOLVER, SolverName(p.solver));
    }
  }

  lemma HashFree(h: string)
    requires ValidHash(h)
    ensures NoQuote(h)
  {
    assert forall i :: 0 <= i < 7 ==> h[i] == h[..7][i];
  }

  /** Everything assumed of a profile's text. */
  predicate Printable(f: Format, p: Profile)
  {
    ValidProfile(p) && AllFaithful(f, p.low) && AllFaithful(f, p.high)
  }

  lemma MembersFree(f: Format, lay: Layout, p: Profile)
    requires LayoutOk(lay) && Printable(f, p)
    ensures QuoteFree(Members(f, lay, p))
  {
    forall m | 0 <= m < |Members(f, lay, p)| ensures NoQuotes(Members(f, lay, p)[m]) {
      MemberFree(f, lay, p, m);
    }
  }

  lemma NumberFieldOf(f: Format, lay: Layout, p: Profile, k: nat, g: Gaps, n: nat, end: string)
    requires LayoutOk(lay) && Printable(f, p) && k < 11 && (end == "," || end == "}") && GapsOk(g)
    requires Members(f, lay, p)[k] == NumberMember(g, KeyOf(k), n, end)
    ensures FieldOf(Spaced(f, lay, p), KeyOf(k)) == Field(Decimal(n), true, false)
  {
    MembersFree(f, lay, p);
    KeyFirst(f, lay, p, k);
    NumberField(Members(f, lay, p), k, g, KeyOf(k), n, end);
  }

  lemma StringFieldOf(f: Format, lay: Layout, p: Profile, k: nat, v: string)
    requires LayoutOk(lay) && Printable(f, p) && k < 11 && Members(f, lay, p)[k] == StringMember(lay.member(k), KeyOf(k), v)
    ensures FieldOf(Spaced(f, lay, p), KeyOf(k)) == Field(v, true, true)
  {
    MembersFree(f, lay, p);
    KeyFirst(f, lay, p, k);
    StringField(Members(f, lay, p), k, lay.member(k), KeyOf(k), v);
  }

  lemma ParamsFieldOf(f: Format, lay: Layout, p: Profile)
    requires LayoutOk(lay) && Printable(f, p)
    ensures FieldOf(Spaced(f, lay, p), K_PARAMS) == Field(ParamsText(f, lay, p), true, false)
  {
    var ms := Members(f, lay, p);
    MembersFree(f, lay, p);
    KeyFirst(f, lay, p, 7);
    assert ms[8..] != [] && ms[8..][0] == ms[8];
    ParamsField(f, lay, p, ms, 7);
  }

  lemma FrontFieldsBack(f: Format, lay: Layout, p: Profile)
    requires LayoutOk(lay) && Printable(f, p)
    ensures var t := Spaced(f, lay, p);
            && FieldOf(t, K_VERSION) == Field(Decimal(p.version), true, false)
            && FieldOf(t, K_COMPAT) == Field(Decimal(p.compatibility), true, false)
            && FieldOf(t, K_HASH) == Field(p.hash, true, true)
  {
    NumberFieldOf(f, lay, p, 0, lay.member(0), p.version, ",");
    NumberFieldOf(f, lay, p, 1, lay.member(1), p.compatibility, ",");
    StringFieldOf(f, lay, p, 2, p.hash);
  }

  lemma ActionFieldsBack(f: Format, lay: Layout, p: Profile)
    requires LayoutOk(lay) && Printable(f, p)
    ensures var t := Spaced(f, lay, p);
            && FieldOf(t, K_DIM) == Field(Decimal(p.actionDim), true, false)
            && FieldOf(t, K_HORIZON) == Field(Decimal(p.horizon), true, false)
  {
    NumberFieldOf(f, lay, p, 3, lay.member(3), p.actionDim, ",");
    NumberFieldOf(f, lay, p, 4, lay.member(4), p.horizon, ",");
  }

  lemma NamedFieldsBack(f: Format, lay: Layout, p: Profile)
    requires LayoutOk(lay) && Printable(f, p)
    ensures var t := Spaced(f, lay, p);
            && FieldOf(t, K_UNITS) == Field(UnitsName(p.units), true, true)
            && FieldOf(t, K_NORM) == Field(NormName(p.norm), true, true)
            && FieldOf(t, K_SOLVER) == Field(SolverName(p.solver), true, true)
  {
    StringFieldOf(f, lay, p, 5, UnitsName(p.units));
    StringFieldOf(f, lay, p, 6, NormName(p.norm));
    StringFieldOf(f, lay, p, 8, SolverName(p.solver));
  }

  lemma StepFieldsBack(f: Format, lay: Layout, p: Profile)
    requires LayoutOk(lay) && Printable(f, p)
    ensures var t := Spaced(f, lay, p);
            && FieldOf(t, K_MIN) == Field(Decimal(p.minSteps), true, false)
            && FieldOf(t, K_MAX) == Field(Decimal(p.maxSteps), true, false)
  {
    NumberFieldOf(f, lay, p, 9, lay.member(9), p.minSteps, ",");
    assert GapsOk(lay.member(10));
    NumberFieldOf(f, lay, p, 10, lay.member(10).(comma := ""), p.maxSteps, "}");
  }

  function Printed(f: Format, lay: Layout, p: Profile): Fields
  {
    Fields(Field(Decimal(p.version), true, false), Field(Decimal(p.compatibility), true, false), Field(p.hash, true, true),
           Field(Decimal(p.actionDim), true, false), Field(Decimal(p.horizon), true, false),
           Field(UnitsName(p.units), true, true), Field(NormName(p.norm), true, true),
           Field(ParamsText(f, lay, p), true, false), Field(SolverName(p.solver), true, true),
           Field(Decimal(p.minSteps), true, false), Field(Decimal(p.maxSteps), true, false))
  }

  /** Each field of the text is the value it was printed from. */
  lemma FieldsBack(f: Format, lay: Layout, p: Profile)
    requires LayoutOk(lay) && Printable(f, p)
    ensures FieldsOf(Spaced(f, lay, p)) == Printed(f, lay, p)
  {
    FrontFieldsBack(f, lay, p);
    ActionFieldsBack(f, lay, p);
    NamedFieldsBack(f, lay, p);
    ParamsFieldOf(f, lay, p);
    StepFieldsBack(f, lay, p);
  }

  lemma UintBack(n: U64)
    ensures ReadUint(Decimal(n)) == Some(n)
  {
    DecimalTight(n);
    NumberOfDecimal(n);
  }

  lemma NamesBack(p: Profile)
    requires ValidProfile(p)
    ensures UnitsOf(Field(UnitsName(p.units), true, true)) == p.units
    ensures NormOf(Field(NormName(p.norm), true, true)) == p.norm
    ensures SolverOf(Field(SolverName(p.solver), true, true)) == p.solver
  {
    assert "normalized"[0] == 'n' && "physical"[0] == 'p';
    assert |"none"| == 4 && |"minmax"| == 6 && |"euler"| == 5 && |"heun"| == 4 && |"rk4"| == 3;
  }

  lemma {:induction false} JoinLast(segs: seq<string>)
    requires segs != [] && segs[|segs| - 1] != ""
    ensures Join(segs) != "" && Join(segs)[|Join(segs)| - 1] == segs[|segs| - 1][|segs[|segs| - 1]| - 1]
  {
    if |segs| > 1 { JoinLast(segs[1..]); }
  }

  lemma {:induction false} FlattenLast(ms: seq<seq<string>>)
    requires ms != [] && ms[|ms| - 1] != []
    ensures Flatten(ms) != [] && Flatten(ms)[|Flatten(ms)| - 1] == ms[|ms| - 1][|ms[|ms| - 1]| - 1]
  {
    if |ms| > 1 {
      FlattenLast(ms[1..]);
    } else {
      assert Flatten(ms) == ms[0];
    }
  }

  lemma TextEnds(f: Format, lay: Layout, p: Profile)
    ensures var t := Spaced(f, lay, p); |t| >= 2 && t[0] == '{' && t[|t| - 1] == '}' && Bare(t)
  {
    var ms, segs, t := Members(f, lay, p), Pieces(Members(f, lay, p)), Spaced(f, lay, p);
    var g := lay.member(10).(comma := "");
    FlattenLast(ms);
    assert segs[|segs| - 1] == ms[10][1] == g.key + ":" + g.colon + Decimal(p.maxSteps) + g.value + "}" + "";
    JoinLast(segs);
    JoinTail(segs);
    assert |segs| > 1;
  }

  lemma AssembledFrom(f: Format, p: Profile, x: Fields)
    requires ValidProfile(p) && x.hash == Field(p.hash, true, true)
    requires ReadUint(x.version.value) == Some(p.version) && ReadUint(x.compat.value) == Some(p.compatibility)
    requires ReadUint(x.dim.value) == Some(p.actionDim) && ReadUint(x.horizon.value) == Some(p.horizon)
    requires ReadUint(x.min.value) == Some(p.minSteps) && ReadUint(x.max.value) == Some(p.maxSteps)
    requires UnitsOf(x.units) == p.units && NormOf(x.norm) == p.norm && SolverOf(x.solver) == p.solver
    requires BoundsOf(f, p.norm, x.params.value) == Some((p.low, p.high))
    ensures Assembled(f, x) == Good(p)
  {
  }

  lemma AssembledBack(f: Format, lay: Layout, p: Profile)
    requires LayoutOk(lay) && Printable(f, p)
    ensures Assembled(f, Printed(f, lay, p)) == Good(p)
  {
    UintBack(p.version);
    UintBack(p.compatibility);
    UintBack(p.actionDim);
    UintBack(p.horizon);
    UintBack(p.minSteps);
    UintBack(p.maxSteps);
    NamesBack(p);
    BoundsBack(f, lay, p);
    AssembledFrom(f, p, Printed(f, lay, p));
  }

  /**
  A text of a valid profile parses to exactly that profile, whatever blanks, newlines, carriage returns and tabs
  stand before and behind it, around its colons and commas, and around the items of its lists.
   */
  lemma LayoutRoundTrip(f: Format, lay: Layout, p: Profile, before: string, behind: string)
    requires LayoutOk(lay) && Printable(f, p) && Blanks(before) && Blanks(behind)
    ensures Parse(f, before + Spaced(f, lay, p) + behind) == Good(p)
  {
    TextEnds(f, lay, p);
    TrimStrips(before, Spaced(f, lay, p), behind);
    FieldsBack(f, lay, p);
    AssembledBack(f, lay, p);
  }
}
