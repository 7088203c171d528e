/** The text the printer writes: the layout without white space, and its round trip through the parser. */
module ProfileText {
  import opened Machine
  import opened Text
  import opened JsonField
  import opened Profile
  import opened ProfileLayout

  const NO_GAPS: Gaps := Gaps("", "", "", "")

  function Unspaced(): (lay: Layout)
    ensures LayoutOk(lay)
  {
    Layout(_ => NO_GAPS, "", NO_GAPS, NO_GAPS, _ => ("", ""), _ => ("", ""))
  }

  // ---- the pieces as they are printed -----------------------------------------------------

  /** Comma-separated numbers. */
  function Items(f: Format, vs: seq<Float>): string
  {
    if vs == [] then ""
    else if |vs| == 1 then Shown(f, vs[0])
    else Items(f, vs[..|vs| - 1]) + "," + Shown(f, vs[|vs| - 1])
  }

  function PlainList(f: Format, vs: seq<Float>): string
  {
    ":[" + Items(f, vs) + "]"
  }

  function PlainNumber(key: string, n: nat, end: string): seq<string>
  {
    [key, ":" + Decimal(n) + end]
  }

  function PlainString(key: string, value: string): seq<string>
  {
    [key, ":", value, ","]
  }

  function PlainParams(f: Format, p: Profile): seq<string>
  {
    if p.norm == MinMax
    then [K_PARAMS, ":{", "min", PlainList(f, p.low) + ",", "max", PlainList(f, p.high) + "},"]
    else [K_PARAMS, ":{},"]
  }

  function PlainMembers(f: Format, p: Profile): (ms: seq<seq<string>>)
    ensures |ms| == 11 && forall k :: 0 <= k < 11 ==> ms[k] != []
  {
    [PlainNumber(K_VERSION, p.version, ","), PlainNumber(K_COMPAT, p.compatibility, ","),
     PlainString(K_HASH, p.hash), PlainNumber(K_DIM, p.actionDim, ","), PlainNumber(K_HORIZON, p.horizon, ","),
     PlainString(K_UNITS, UnitsName(p.units)), PlainString(K_NORM, NormName(p.norm)), PlainParams(f, p),
     PlainString(K_SOLVER, SolverName(p.solver)), PlainNumber(K_MIN, p.minSteps, ","),
     PlainNumber(K_MAX, p.maxSteps, "}")]
  }

  /** The text of a profile. */
  function TextOf(f: Format, p: Profile): string
  {
    Join(Pieces(PlainMembers(f, p)))
  }

  // ---- it is the layout without white space -----------------------------------------------

  lemma {:induction false} ItemsFront(f: Format, vs: seq<Float>)
    requires |vs| > 1
    ensures Items(f, vs) == Shown(f, vs[0]) + "," + Items(f, vs[1..])
  {
    var n := |vs| - 1;
    if n > 1 {
      ItemsFront(f, vs[..n]);
      assert vs[..n][1..] == vs[1..][..n - 1] && vs[1..][n - 1] == vs[n];
    } else {
      assert vs[..1] == [vs[0]] && vs[1..] == [vs[1]];
    }
  }

  lemma {:induction false} ItemsAreCore(f: Format, sp: Spacing, vs: seq<Float>, from: nat)
    requires forall i: nat :: sp(i) == ("", "")
    ensures Core(f, sp, vs, from) == Items(f, vs)
    decreases |vs|
  {
    if |vs| > 1 {
      ItemsAreCore(f, sp, vs[1..], from + 1);
      ItemsFront(f, vs);
      CoreGroups(Shown(f, vs[0]), Items(f, vs[1..]));
    }
  }

  lemma CoreGroups(t: string, rest: string)
    ensures t + "" + "," + ("" + rest) == t + "," + rest
  {
  }

  lemma ListsArePlain(f: Format, vs: seq<Float>)
    ensures ":" + List(f, Unspaced().low, vs) == PlainList(f, vs) && List(f, Unspaced().high, vs) == List(f, Unspaced().low, vs)
  {
    ItemsAreCore(f, Unspaced().low, vs, 0);
    ItemsAreCore(f, Unspaced().high, vs, 0);
    InsideGroups(Items(f, vs));
  }

  lemma InsideGroups(items: string)
    ensures "" + items + "" == items && ":" + ("[" + items + "]") == ":[" + items + "]"
  {
    assert ":[" == ":" + "[";
  }

  lemma NumberIsPlain(key: string, n: nat, end: string)
    ensures NumberMember(NO_GAPS, key, n, end) == PlainNumber(key, n, end)
  {
    var d := Decimal(n);
    assert "" + ":" + "" + d + "" + end + "" == ":" + d + end;
  }

  lemma StringIsPlain(key: string, v: string)
    ensures StringMember(NO_GAPS, key, v) == PlainString(key, v)
  {
    assert "" + ":" + "" == ":" && "" + "," + "" == ",";
  }

  lemma BoundGroups(list: string)
    ensures "" + ":" + "" + list + "" + "," + "" == ":" + list + "," && "" + ":" + "" + list + "" == ":" + list
    ensures ":" + list + ("}" + "" + "," + "") == ":" + list + "},"
  {
    assert "}," == "}" + ",";
  }

  lemma ParamsArePlain(f: Format, p: Profile)
    ensures ParamsMember(f, Unspaced(), p) == PlainParams(f, p)
  {
    ListsArePlain(f, p.low);
    ListsArePlain(f, p.high);
    BoundGroups(List(f, Unspaced().low, p.low));
    BoundGroups(List(f, Unspaced().high, p.high));
    assert "" + ":" + "" + "{" + "" == ":{" && ":{" + ("}" + "" + "," + "") == ":{},";
  }

  lemma NumbersArePlain(f: Format, p: Profile)
    ensures var a, b := Members(f, Unspaced(), p), PlainMembers(f, p);
            a[0] == b[0] && a[1] == b[1] && a[3] == b[3] && a[4] == b[4] && a[9] == b[9] && a[10] == b[10]
  {
    NumberIsPlain(K_VERSION, p.version, ",");
    NumberIsPlain(K_COMPAT, p.compatibility, ",");
    NumberIsPlain(K_DIM, p.actionDim, ",");
    NumberIsPlain(K_HORIZON, p.horizon, ",");
    NumberIsPlain(K_MIN, p.minSteps, ",");
    NumberIsPlain(K_MAX, p.maxSteps, "}");
  }

  lemma StringsArePlain(f: Format, p: Profile)
    ensures var a, b := Members(f, Unspaced(), p), PlainMembers(f, p);
            a[2] == b[2] && a[5] == b[5] && a[6] == b[6] && a[8] == b[8]
  {
    StringIsPlain(K_HASH, p.hash);
    StringIsPlain(K_UNITS, UnitsName(p.units));
    StringIsPlain(K_NORM, NormName(p.norm));
    StringIsPlain(K_SOLVER, SolverName(p.solver));
  }

  lemma SameMembers(a: seq<seq<string>>, b: seq<seq<string>>)
    requires |a| == |b| == 11 && a[0] == b[0] && a[1] == b[1] && a[2] == b[2] && a[3] == b[3] && a[4] == b[4] && a[5] == b[5]
    requires a[6] == b[6] && a[7] == b[7] && a[8] == b[8] && a[9] == b[9] && a[10] == b[10]
    ensures a == b
  {
  }

  lemma TextIsUnspaced(f: Format, p: Profile)
    ensures TextOf(f, p) == Spaced(f, Unspaced(), p)
  {
    NumbersArePlain(f, p);
    StringsArePlain(f, p);
    ParamsArePlain(f, p);
    SameMembers(Members(f, Unspaced(), p), PlainMembers(f, p));
  }

  // ---- round trip -------------------------------------------------------------------------

  /** Profile round trip: the text of a valid profile parses to exactly that profile, also with white space around it. */
  lemma RoundTrip(f: Format, p: Profile, before: string, behind: string)
    requires Printable(f, p) && Blanks(before) && Blanks(behind)
    ensures Parse(f, before + TextOf(f, p) + behind) == Good(p)
  {
    TextIsUnspaced(f, p);
    LayoutRoundTrip(f, Unspaced(), p, before, behind);
  }

  lemma PrintedParses(f: Format, p: Profile)
    requires Printable(f, p)
    ensures Parse(f, TextOf(f, p)) == Good(p)
  {
    RoundTrip(f, p, "", "");
    assert "" + TextOf(f, p) + "" == TextOf(f, p);
  }

  /** Texts of different valid profiles differ. */
  lemma TextInjective(f: Format, p: Profile, q: Profile)
    requires Printable(f, p) && Printable(f, q) && TextOf(f, p) == TextOf(f, q)
    ensures p == q
  {
    PrintedParses(f, p);
    PrintedParses(f, q);
  }

  /** Whatever text is accepted, printing the profile and parsing again changes nothing. */
  lemma Reparse(f: Format, text: string)
    requires var r := Parse(f, text); r.Good? && AllFaithful(f, r.profile.low) && AllFaithful(f, r.profile.high)
    ensures Parse(f, TextOf(f, Parse(f, text).profile)) == Parse(f, text)
  {
    PrintedParses(f, Parse(f, text).profile);
  }
}
