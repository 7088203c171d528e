/** The parser and the printer as they run: scans over the text, and one growing output string. */
module ProfileCodec {
  import opened Machine
  import opened Text
  import opened Brackets
  import opened JsonField
  import opened Profile
  import opened ProfileLayout
  import opened ProfileText

  /** Strips the blanks, newlines, carriage returns and tabs at both ends, and nothing else. */
  method TrimText(s: string) returns (r: string)
    ensures r == Trim(s) && Bare(r) && exists a, b :: Blanks(a) && Blanks(b) && s == a + r + b
  {
    r := s;
    ghost var a, b := "", "";
    while r != "" && (r[0] == ' ' || r[0] == '\n' || r[0] == '\r' || r[0] == '\t')
      invariant Blanks(a) && s == a + r
      decreases |r|
    {
      a := a + r[..1];
      r := r[1..];
    }
    assert s == a + r + b;
    while r != "" && (r[|r| - 1] == ' ' || r[|r| - 1] == '\n' || r[|r| - 1] == '\r' || r[|r| - 1] == '\t')
      invariant Blanks(b) && s == a + r + b
      invariant r != "" ==> r[0] != ' ' && r[0] != '\n' && r[0] != '\r' && r[0] != '\t'
      decreases |r|
    {
      b := r[|r| - 1..] + b;
      r := r[..|r| - 1];
    }
    TrimStrips(a, r, b);
  }

  /** The text up to `j` is a well-nested body in brackets. */
  ghost predicate Matches(s: string, j: nat)
    requires s != ""
  {
    exists b :: BodyAt(s, s[0], b, j)
  }

  /** The bracketed value at the front of the text, up to the matching bracket. */
  method Bracketed(s: string) returns (r: Option<nat>)
    requires s != "" && s[0] in {'{', '['}
    ensures r == Close(s, 0, s[0], 0, false)
    ensures forall j: nat :: r == Some(j) <==> Matches(s, j)
  {
    forall j: nat ensures Close(s, 0, s[0], 0, false) == Some(j) <==> Matches(s, j) {
      ClosesExactly(s, s[0], j);
    }
    var opener := s[0];
    var closer := if opener == '{' then '}' else ']';
    var depth, inString, i := 0, false, 0;
    while i < |s|
      invariant 0 <= i <= |s| && Close(s, 0, opener, 0, false) == Close(s, i, opener, depth, inString)
    {
      var c := s[i];
      if c == '"' && (i == 0 || s[i - 1] != '\\') { inString := !inString; }
      if !inString {
        if c == opener {
          depth := depth + 1;
        } else if c == closer {
          depth := depth - 1;
          if depth == 0 { return Some(i); }
        }
      }
      i := i + 1;
    }
    r := None;
  }

  /** Looks a key up by searching for it in quotes. */
  method FieldText(json: string, key: string) returns (r: Field)
    ensures r == FieldOf(json, key)
  {
    var needle := Quoted(key);
    FindFirst(json, needle, 0);
    var at := Find(json, needle, 0);
    if at.None? { return Field("", false, false); }
    assert FieldOf(json, key) == AfterColon(json, at.value + |needle|);
    FindFirst(json, ":", at.value + |needle|);
    var colon := Find(json, ":", at.value + |needle|);
    if colon.None? { return Field("", true, false); }
    r := ValueText(json[colon.value + 1..]);
  }

  method ValueText(rest: string) returns (r: Field)
    ensures r == ValueOf(rest)
  {
    var s := rest;
    while s != "" && (s[0] == ' ' || s[0] == '\n' || s[0] == '\r' || s[0] == '\t')
      invariant TrimFront(s) == TrimFront(rest)
      decreases |s|
    {
      s := s[1..];
    }
    if s == "" { return Field("", true, false); }
    if s[0] == '"' {
      FindFirst(s, "\"", 1);
      var end := Find(s, "\"", 1);
      return if end.None? then Field("", true, true) else Field(s[1..end.value], true, true);
    }
    if s[0] == '{' || s[0] == '[' {
      var end := Bracketed(s);
      return if end.None? then Field("", true, false) else Field(s[..end.value + 1], true, false);
    }
    var end := 0;
    while end < |s| && s[end] != ',' && s[end] != '}'
      invariant 0 <= end <= |s| && ScalarEnd(s, 0) == ScalarEnd(s, end)
    {
      end := end + 1;
    }
    var value := TrimText(s[..end]);
    r := Field(value, true, false);
  }

  /** An unsigned number: one digit or more and nothing else, within 64 bits. */
  method UintText(value: string) returns (r: Option<U64>)
    ensures r == ReadUint(value)
  {
    var s := TrimText(value);
    if s == "" { return None; }
    var parsed, i := 0, 0;
    while i < |s|
      invariant 0 <= i <= |s| && (forall j :: 0 <= j < i ==> '0' <= s[j] <= '9') && parsed == Number(s[..i])
    {
      if s[i] < '0' || s[i] > '9' { return None; }
      parsed := 10 * parsed + (s[i] as int - '0' as int);
      assert s[..i + 1][..i] == s[..i];
      i := i + 1;
    }
    assert s[..i] == s;
    if parsed > U64_MAX { return None; }
    r := Some(parsed);
  }

  /** A number as the source stores it in 32 bits. */
  method SmallText(value: string) returns (r: Option<U32>)
    ensures r == Small(value)
  {
    var n := UintText(value);
    r := if n.None? || n.value > 0xFFFF_FFFF then None else Some(n.value);
  }

  /** The result with the numbers read before it. */
  function Behind(read: seq<Float>, r: Option<seq<Float>>): Option<seq<Float>>
  {
    match r
    case None => None
    case Some(vs) => Some(read + vs)
  }

  lemma BehindNothing(r: Option<seq<Float>>)
    ensures Behind([], r) == r
  {
    if r.Some? { assert [] + r.value == r.value; }
  }

  lemma BehindMore(read: seq<Float>, v: Float, r: Option<seq<Float>>)
    ensures Behind(read, Behind([v], r)) == Behind(read + [v], r)
  {
    if r.Some? { assert read + ([v] + r.value) == read + [v] + r.value; }
  }

  /** A bracketed, comma-separated list of numbers. */
  method ArrayText(f: Format, text: string) returns (r: Option<seq<Float>>)
    ensures r == ReadArray(f, text)
  {
    var s := TrimText(text);
    if |s| < 2 || s[0] != '[' || s[|s| - 1] != ']' { return None; }
    var inner := TrimText(s[1..|s| - 1]);
    if inner == "" { return Some([]); }
    r := ItemsText(f, inner);
  }

  /** One number: fewer than 64 characters, read as a whole. */
  method FloatText(f: Format, value: string) returns (v: Option<real>)
    ensures v == ReadFloat(f, value)
  {
    var s := TrimText(value);
    v := if s == "" || |s| >= 64 then None else f.read(s);
  }

  /** Reads one number and cuts it off, with the comma behind it. */
  method NextItem(f: Format, value: string) returns (v: Option<real>, rest: Option<string>)
    ensures v.None? ==> ReadItems(f, value) == None
    ensures v.Some? && rest.None? ==> ReadItems(f, value) == Some([Finite(v.value)])
    ensures rest.Some? ==> |rest.value| < |value|
    ensures v.Some? && rest.Some? ==>
              ReadItems(f, value) == if rest.value == "" then None
                                     else Behind([Finite(v.value)], ReadItems(f, rest.value))
  {
    rest := None;
    FindFirst(value, ",", 0);
    var comma := Find(value, ",", 0);
    var item := TrimText(if comma.Some? then value[..comma.value] else value);
    v := FloatText(f, item);
    if v.Some? && comma.Some? {
      var tail := TrimText(value[comma.value + 1..]);
      rest := Some(tail);
    }
  }

  method ItemsText(f: Format, inner: string) returns (r: Option<seq<Float>>)
    ensures r == ReadItems(f, inner)
  {
    var value, output := inner, [];
    BehindNothing(ReadItems(f, inner));
    while true
      invariant ReadItems(f, inner) == Behind(output, ReadItems(f, value))
      decreases |value|
    {
      var v, rest := NextItem(f, value);
      if v.None? { return None; }
      if rest.None? { return Some(output + [Finite(v.value)]); }
      if rest.value == "" { return None; }
      BehindMore(output, Finite(v.value), ReadItems(f, rest.value));
      output := output + [Finite(v.value)];
      value := rest.value;
    }
  }

  method HashText(s: string) returns (ok: bool)
    ensures ok <==> ValidHash(s)
    ensures ok <==> |s| == 71 && s[..7] == "sha256:" && forall i :: 7 <= i < 71 ==>
                      '0' <= s[i] <= '9' || 'a' <= s[i] <= 'f' || 'A' <= s[i] <= 'F'
  {
    if |s| != 71 || s[..7] != "sha256:" { return false; }
    var i := 7;
    while i < 71
      invariant 7 <= i <= 71 && forall j :: 7 <= j < i ==> IsHex(s[j])
    {
      var c := s[i];
      if !(('0' <= c && c <= '9') || ('a' <= c && c <= 'f') || ('A' <= c && c <= 'F')) { return false; }
      i := i + 1;
    }
    ok := true;
  }

  method BoundsText(low: seq<Float>, high: seq<Float>) returns (ok: bool)
    requires |low| == |high|
    ensures ok <==> Bounds(low, high)
  {
    var i := 0;
    while i < |low|
      invariant 0 <= i <= |low|
      invariant forall j :: 0 <= j < i ==> low[j].Finite? && high[j].Finite? && low[j].value < high[j].value
    {
      if !low[i].Finite? || !high[i].Finite? || low[i].value >= high[i].value { return false; }
      i := i + 1;
    }
    ok := true;
  }

  method Validate(p: Profile) returns (r: Option<ProfileError>)
    ensures r == Problem(p)
  {
    if p.version != 1 { return Some(UnsupportedVersion); }
    if p.compatibility != 1 { return Some(UnsupportedCompatibility); }
    var ok := HashText(p.hash);
    if !ok { return Some(InvalidHash); }
    if p.actionDim == 0 || p.actionDim > MAX_ACTION_DIM { return Some(InvalidActionDim); }
    if p.horizon == 0 || p.horizon > MAX_HORIZON { return Some(InvalidHorizon); }
    if p.units != Normalized && p.units != Physical { return Some(InvalidUnits); }
    if p.norm != NoNorm && p.norm != MinMax { return Some(InvalidNormType); }
    if p.norm == NoNorm {
      if p.low != [] || p.high != [] { return Some(InvalidNormParameters); }
    } else {
      if |p.low| != p.actionDim || |p.high| != p.actionDim { return Some(InvalidNormParameters); }
      ok := BoundsText(p.low, p.high);
      if !ok { return Some(InvalidNormParameters); }
    }
    if p.solver == OtherSolver { return Some(InvalidSolver); }
    if p.minSteps == 0 || p.maxSteps == 0 || p.minSteps > p.maxSteps || p.maxSteps > MAX_STEPS {
      return Some(InvalidSolverRange);
    }
    r := None;
  }

  // ---- printing ---------------------------------------------------------------------------

  function Texts(ms: seq<seq<string>>): string
  {
    if ms == [] then "" else Texts(ms[..|ms| - 1]) + "\"" + Join(ms[|ms| - 1])
  }

  lemma {:induction false} FlattenSnoc(ms: seq<seq<string>>, m: seq<string>)
    ensures Flatten(ms + [m]) == Flatten(ms) + m
  {
    if ms == [] {
      assert ms + [m] == [m] && [m][1..] == [];
    } else {
      FlattenSnoc(ms[1..], m);
      assert (ms + [m])[1..] == ms[1..] + [m];
    }
  }

  lemma {:induction false} JoinPieces(ms: seq<seq<string>>)
    requires forall k :: 0 <= k < |ms| ==> ms[k] != []
    ensures Join(Pieces(ms)) == "{" + Texts(ms)
  {
    if ms != [] {
      var n := |ms| - 1;
      JoinPieces(ms[..n]);
      assert ms == ms[..n] + [ms[n]];
      FlattenSnoc(ms[..n], ms[n]);
      assert Pieces(ms) == Pieces(ms[..n]) + ms[n];
      JoinSplit(Pieces(ms[..n]), ms[n]);
    }
  }

  lemma NumberText(key: string, n: nat, end: string)
    ensures "\"" + Join(PlainNumber(key, n, end)) == Quoted(key) + ":" + Decimal(n) + end
  {
    var m := PlainNumber(key, n, end);
    assert m[1..] == [m[1]];
  }

  lemma StringText(key: string, v: string)
    ensures "\"" + Join(PlainString(key, v)) == Quoted(key) + ":" + Quoted(v) + ","
  {
    var m := PlainString(key, v);
    assert m[1..] == [":", v, ","] && [":", v, ","][1..] == [v, ","] && [v, ","][1..] == [","];
    assert Join([v, ","]) == v + "\"" + ",";
    assert Join([":", v, ","]) == ":" + "\"" + Join([v, ","]);
  }

  function NumberAs(key: string, n: nat, end: string): string { "\"" + key + "\"" + ":" + Decimal(n) + end }

  function StringAs(key: string, v: string): string { "\"" + key + "\"" + ":" + ("\"" + v + "\"") + "," }

  /** What the printer writes between the braces of the parameters. */
  function PlainBody(f: Format, p: Profile): string
  {
    if p.norm == MinMax
    then "\"" + "min" + "\"" + (PlainList(f, p.low) + ",") + "\"" + "max" + "\"" + PlainList(f, p.high)
    else ""
  }

  lemma ParamsMemberText(f: Format, p: Profile)
    ensures "\"" + Join(PlainParams(f, p)) == Quoted(K_PARAMS) + ":" + ("{" + PlainBody(f, p) + "}") + ","
  {
    if p.norm == MinMax {
      WrapJoin(K_PARAMS, "min", PlainList(f, p.low) + ",", "max", PlainList(f, p.high));
    } else {
      var m := PlainParams(f, p);
      JoinTail(m);
      assert m[1..] == [":{},"];
    }
  }

  lemma WrapJoin(key: string, a: string, b: string, c: string, d: string)
    ensures "\"" + Join([key, ":{", a, b, c, d + "},"])
         == Quoted(key) + ":" + ("{" + ("\"" + a + "\"" + b + "\"" + c + "\"" + d) + "}") + ","
  {
    var m := [key, ":{", a, b, c, d + "},"];
    JoinTail(m);
    assert m[1..] == [":{", a, b, c, d + "},"];
    JoinFive(":{", a, b, c, d + "},");
    WrapGroups(a, b, c, d);
  }

  lemma WrapGroups(a: string, b: string, c: string, d: string)
    ensures ":{" + "\"" + a + "\"" + b + "\"" + c + "\"" + (d + "},")
         == ":" + ("{" + ("\"" + a + "\"" + b + "\"" + c + "\"" + d) + "}") + ","
  {
    assert ":{" == ":" + "{" && "}," == "}" + ",";
  }

  /** The texts of the members, as they follow each other between the outer braces. */
  function MemberTexts(f: Format, p: Profile): seq<string>
  {
    [NumberAs("profile_version", p.version, ","), NumberAs("model_compatibility_version", p.compatibility, ","),
     StringAs("observation_schema_hash", p.hash), NumberAs("action_dim", p.actionDim, ","),
     NumberAs("action_horizon", p.horizon, ","),
     StringAs("action_units", if p.units == Normalized then "normalized" else "physical"),
     StringAs("normalization_type", if p.norm == NoNorm then "none" else "minmax"),
     "\"" + "normalization_parameters" + "\"" + ":" + ("{" + PlainBody(f, p) + "}") + ",",
     StringAs("solver_default", SolverName(p.solver)), NumberAs("solver_min_steps", p.minSteps, ","),
     NumberAs("solver_max_steps", p.maxSteps, "}")]
  }

  function Concat(ts: seq<string>): string
  {
    if ts == [] then "" else Concat(ts[..|ts| - 1]) + ts[|ts| - 1]
  }

  lemma {:induction false} TextsConcat(ms: seq<seq<string>>, ts: seq<string>)
    requires |ms| == |ts| && forall k :: 0 <= k < |ms| ==> "\"" + Join(ms[k]) == ts[k]
    ensures Texts(ms) == Concat(ts)
  {
    if ms != [] {
      var n := |ms| - 1;
      TextsConcat(ms[..n], ts[..n]);
      var front := Texts(ms[..n]);
      assert front + "\"" + Join(ms[n]) == front + ("\"" + Join(ms[n]));
    }
  }

  lemma NumberMembers(f: Format, p: Profile, k: nat)
    requires k in {0, 1, 3, 4, 9, 10}
    ensures "\"" + Join(PlainMembers(f, p)[k]) == MemberTexts(f, p)[k]
  {
    match k
    case 0 => NumberText(K_VERSION, p.version, ",");
    case 1 => NumberText(K_COMPAT, p.compatibility, ",");
    case 3 => NumberText(K_DIM, p.actionDim, ",");
    case 4 => NumberText(K_HORIZON, p.horizon, ",");
    case 9 => NumberText(K_MIN, p.minSteps, ",");
    case _ => NumberText(K_MAX, p.maxSteps, "}");
  }

  lemma StringMembers(f: Format, p: Profile, k: nat)
    requires k in {2, 5, 6, 8}
    ensures "\"" + Join(PlainMembers(f, p)[k]) == MemberTexts(f, p)[k]
  {
    match k
    case 2 => StringText(K_HASH, p.hash);
    case 5 => StringText(K_UNITS, UnitsName(p.units));
    case 6 => StringText(K_NORM, NormName(p.norm));
    case _ => StringText(K_SOLVER, SolverName(p.solver));
  }

  /** The text of a profile, member by member. */
  lemma TextIs(f: Format, p: Profile)
    ensures TextOf(f, p) == "{" + Concat(MemberTexts(f, p))
  {
    var ms := PlainMembers(f, p);
    JoinPieces(ms);
    forall k | 0 <= k < 11 ensures "\"" + Join(ms[k]) == MemberTexts(f, p)[k] {
      if k == 7 { ParamsMemberText(f, p); }
      else if k in {2, 5, 6, 8} { StringMembers(f, p, k); }
      else { NumberMembers(f, p, k); }
    }
    TextsConcat(ms, MemberTexts(f, p));
  }

  /** Appends the numbers with commas between them. */
  method AppendItems(f: Format, output: string, vs: seq<Float>) returns (out: string)
    requires forall i :: 0 <= i < |vs| ==> vs[i].Finite?
    ensures out == output + Items(f, vs)
  {
    out := output;
    var i := 0;
    while i < |vs|
      invariant 0 <= i <= |vs| && out == output + Items(f, vs[..i])
    {
      if i != 0 { out := out + ","; }
      out := out + f.show(vs[i].value);
      assert vs[..i + 1][..i] == vs[..i];
      i := i + 1;
    }
    assert vs[..i] == vs;
  }

  method AppendParams(f: Format, output: string, p: Profile) returns (out: string)
    requires ValidNorm(p)
    ensures out == output + ("\"" + Join(PlainParams(f, p)))
  {
    ParamsMemberText(f, p);
    out := output + Quoted(K_PARAMS) + ":" + "{";
    if p.norm == MinMax { out := AppendBounds(f, out, p); }
    out := out + "}" + ",";
    ParamsGroups(output, Quoted(K_PARAMS), PlainBody(f, p));
  }

  lemma ParamsGroups(output: string, key: string, body: string)
    ensures output + key + ":" + "{" + body + "}" + "," == output + (key + ":" + ("{" + body + "}") + ",")
  {
  }

  method AppendBounds(f: Format, output: string, p: Profile) returns (out: string)
    requires p.norm == MinMax && ValidNorm(p)
    ensures out == output + PlainBody(f, p)
  {
    out := output + "\"" + "min" + "\"" + ":[";
    out := AppendItems(f, out, p.low);
    out := out + "]" + "," + "\"" + "max" + "\"" + ":[";
    out := AppendItems(f, out, p.high);
    out := out + "]";
    BodyGroups(output, Items(f, p.low), Items(f, p.high));
  }

  lemma BodyGroups(head: string, a: string, b: string)
    ensures head + "\"" + "min" + "\"" + ":[" + a + "]" + "," + "\"" + "max" + "\"" + ":[" + b + "]"
         == head + ("\"" + "min" + "\"" + (":[" + a + "]" + ",") + "\"" + "max" + "\"" + (":[" + b + "]"))
  {
  }

  lemma NextMember(ms: seq<seq<string>>, k: nat, m: string)
    requires k < |ms| && m == "\"" + Join(ms[k])
    ensures Texts(ms[..k + 1]) == Texts(ms[..k]) + m
  {
    assert ms[..k + 1][..k] == ms[..k];
  }

  method AppendNumber(output: string, key: string, n: nat, end: string, ghost ms: seq<seq<string>>, ghost k: nat)
    returns (out: string)
    requires k < |ms| && ms[k] == PlainNumber(key, n, end) && output == "{" + Texts(ms[..k])
    ensures out == "{" + Texts(ms[..k + 1])
  {
    out := output + (Quoted(key) + ":" + Decimal(n) + end);
    NumberText(key, n, end);
    NextMember(ms, k, Quoted(key) + ":" + Decimal(n) + end);
  }

  method AppendString(output: string, key: string, v: string, ghost ms: seq<seq<string>>, ghost k: nat)
    returns (out: string)
    requires k < |ms| && ms[k] == PlainString(key, v) && output == "{" + Texts(ms[..k])
    ensures out == "{" + Texts(ms[..k + 1])
  {
    out := output + (Quoted(key) + ":" + Quoted(v) + ",");
    StringText(key, v);
    NextMember(ms, k, Quoted(key) + ":" + Quoted(v) + ",");
  }

  method PrintFront(f: Format, p: Profile, ghost ms: seq<seq<string>>) returns (out: string)
    requires ms == PlainMembers(f, p)
    ensures out == "{" + Texts(ms[..7])
  {
    out := "{";
    out := AppendNumber(out, K_VERSION, p.version, ",", ms, 0);
    out := AppendNumber(out, K_COMPAT, p.compatibility, ",", ms, 1);
    out := AppendString(out, K_HASH, p.hash, ms, 2);
    out := AppendNumber(out, K_DIM, p.actionDim, ",", ms, 3);
    out := AppendNumber(out, K_HORIZON, p.horizon, ",", ms, 4);
    out := AppendString(out, K_UNITS, UnitsName(p.units), ms, 5);
    out := AppendString(out, K_NORM, NormName(p.norm), ms, 6);
  }

  method PrintParams(f: Format, p: Profile, front: string, ghost ms: seq<seq<string>>) returns (out: string)
    requires |ms| > 7 && ms[7] == PlainParams(f, p) && ValidNorm(p) && front == "{" + Texts(ms[..7])
    ensures out == "{" + Texts(ms[..8])
  {
    out := AppendParams(f, front, p);
    NextMember(ms, 7, "\"" + Join(PlainParams(f, p)));
  }

  method PrintBack(f: Format, p: Profile, front: string, ghost ms: seq<seq<string>>) returns (out: string)
    requires ms == PlainMembers(f, p) && ValidNorm(p) && front == "{" + Texts(ms[..7])
    ensures out == "{" + Texts(ms)
  {
    out := PrintParams(f, p, front, ms);
    out := AppendString(out, K_SOLVER, SolverName(p.solver), ms, 8);
    out := AppendNumber(out, K_MIN, p.minSteps, ",", ms, 9);
    out := AppendNumber(out, K_MAX, p.maxSteps, "}", ms, 10);
    assert ms[..11] == ms;
  }

  /** Prints exactly the valid profiles, each as its text; the text parses back to the profile. */
  method Serialize(f: Format, p: Profile) returns (r: Option<string>, error: Option<ProfileError>)
    ensures error == Problem(p) && (r.Some? <==> ValidProfile(p))
    ensures r.Some? ==> r.value == TextOf(f, p)
    ensures r.Some? && AllFaithful(f, p.low) && AllFaithful(f, p.high) ==> Parse(f, r.value) == Good(p)
  {
    error := Validate(p);
    if error.Some? { return None, error; }
    ghost var ms := PlainMembers(f, p);
    var front := PrintFront(f, p, ms);
    var out := PrintBack(f, p, front, ms);
    JoinPieces(ms);
    if AllFaithful(f, p.low) && AllFaithful(f, p.high) { PrintedParses(f, p); }
    r := Some(out);
  }

  // ---- parsing ----------------------------------------------------------------------------

  method FieldsText(json: string) returns (x: Fields)
    ensures x == FieldsOf(json)
  {
    var version := FieldText(json, K_VERSION);
    var compat := FieldText(json, K_COMPAT);
    var hash := FieldText(json, K_HASH);
    var dim := FieldText(json, K_DIM);
    var horizon := FieldText(json, K_HORIZON);
    var units := FieldText(json, K_UNITS);
    var norm := FieldText(json, K_NORM);
    var params := FieldText(json, K_PARAMS);
    var solver := FieldText(json, K_SOLVER);
    var min := FieldText(json, K_MIN);
    var max := FieldText(json, K_MAX);
    x := Fields(version, compat, hash, dim, horizon, units, norm, params, solver, min, max);
  }

  method BoundsOfText(f: Format, norm: Norm, params: string) returns (r: Option<(seq<Float>, seq<Float>)>)
    ensures r == BoundsOf(f, norm, params)
  {
    if params == "" { return None; }
    var low := FieldText(params, "min");
    var high := FieldText(params, "max");
    if norm != MinMax { return if low.present || high.present then None else Some(([], [])); }
    if !low.present || !high.present { return None; }
    var a := ArrayText(f, low.value);
    if a.None? { return None; }
    var b := ArrayText(f, high.value);
    r := if b.None? then None else Some((a.value, b.value));
  }

  method UnitsText(x: Field) returns (r: Units)
    requires x.present
    ensures r == UnitsOf(x)
  {
    if !x.isString { return OtherUnits; }
    r := if x.value == "normalized" then Normalized else if x.value == "physical" then Physical else OtherUnits;
  }

  method NormText(x: Field) returns (r: Norm)
    requires x.present
    ensures r == NormOf(x)
  {
    if !x.isString { return OtherNorm; }
    r := if x.value == "none" then NoNorm else if x.value == "minmax" then MinMax else OtherNorm;
  }

  method SolverText(x: Field) returns (r: Solver)
    requires x.present
    ensures r == SolverOf(x)
  {
    if !x.isString { return OtherSolver; }
    r := if x.value == "euler" then Euler else if x.value == "heun" then Heun
         else if x.value == "rk4" then RK4 else OtherSolver;
  }

  method AssembleText(f: Format, x: Fields) returns (r: Parsed)
    requires AllPresent(x)
    ensures r == Assembled(f, x)
  {
    var version := SmallText(x.version.value);
    if version.None? { return Bad(InvalidField); }
    var compat := SmallText(x.compat.value);
    if compat.None? { return Bad(InvalidField); }
    var ok := HashText(x.hash.value);
    if !x.hash.isString || !ok { return Bad(InvalidHash); }
    var dim := UintText(x.dim.value);
    if dim.None? { return Bad(InvalidActionDim); }
    var horizon := UintText(x.horizon.value);
    if horizon.None? { return Bad(InvalidHorizon); }
    var units := UnitsText(x.units);
    if units == OtherUnits { return Bad(InvalidUnits); }
    var norm := NormText(x.norm);
    if norm == OtherNorm { return Bad(InvalidNormType); }
    var bounds := BoundsOfText(f, norm, x.params.value);
    if bounds.None? { return Bad(InvalidNormParameters); }
    var solver := SolverText(x.solver);
    if solver == OtherSolver { return Bad(InvalidSolver); }
    var min := UintText(x.min.value);
    var max := UintText(x.max.value);
    if min.None? || max.None? { return Bad(InvalidSolverRange); }
    r := Good(Profile(version.value, compat.value, x.hash.value, dim.value, horizon.value, units, norm,
                      bounds.value.0, bounds.value.1, solver, min.value, max.value));
  }

  ghost predicate WritesAs(f: Format, text: string, p: Profile, lay: Layout, a: string, b: string)
  {
    LayoutOk(lay) && Blanks(a) && Blanks(b) && text == a + Spaced(f, lay, p) + b
  }

  /** The text is one of the profile, with some white space around its tokens. */
  ghost predicate Writes(f: Format, text: string, p: Profile)
  {
    exists lay, a, b :: WritesAs(f, text, p, lay, a, b)
  }

  lemma WrittenParses(f: Format, text: string, p: Profile)
    requires Printable(f, p) && Writes(f, text, p)
    ensures Parse(f, text) == Good(p)
  {
    var lay, a, b :| WritesAs(f, text, p, lay, a, b);
    LayoutRoundTrip(f, lay, p, a, b);
  }

  /** Parses a text; what comes out is a valid profile, and the profile of every text that writes one. */
  method ParseText(f: Format, text: string) returns (r: Parsed)
    ensures r == Parse(f, text) && (r.Good? ==> ValidProfile(r.profile))
    ensures forall p :: Printable(f, p) && Writes(f, text, p) ==> r == Good(p)
  {
    forall p | Printable(f, p) && Writes(f, text, p) ensures Parse(f, text) == Good(p) { WrittenParses(f, text, p); }
    var json := TrimText(text);
    if |json| < 2 || json[0] != '{' || json[|json| - 1] != '}' { return Bad(InvalidJson); }
    var x := FieldsText(json);
    if !x.version.present || !x.compat.present || !x.hash.present || !x.dim.present || !x.horizon.present
       || !x.units.present || !x.norm.present || !x.params.present || !x.solver.present || !x.min.present
       || !x.max.present {
      return Bad(MissingField);
    }
    r := AssembleText(f, x);
    if r.Good? {
      var problem := Validate(r.profile);
      if problem.Some? { return Bad(problem.value); }
    }
  }
}
