/** Deployment profiles: validation, the text of a profile, and what the parser makes of a text. */
module Profile {
  import opened Machine
  import opened Text
  import opened JsonField

  const MAX_ACTION_DIM: nat := 65536
  const MAX_HORIZON: nat := 4096
  const MAX_STEPS: nat := 4096

  datatype Units = Normalized | Physical | OtherUnits
  datatype Norm = NoNorm | MinMax | OtherNorm
  datatype Solver = Euler | Heun | RK4 | OtherSolver

  datatype Profile = Profile(version: U32, compatibility: U32, hash: string, actionDim: U64, horizon: U64, units: Units,
                             norm: Norm, low: seq<Float>, high: seq<Float>, solver: Solver, minSteps: U64, maxSteps: U64)

  datatype ProfileError =
    | InvalidJson | MissingField | InvalidField | UnsupportedVersion | UnsupportedCompatibility | InvalidHash
    | InvalidActionDim | InvalidHorizon | InvalidUnits | InvalidNormType | InvalidNormParameters | InvalidSolver
    | InvalidSolverRange

  datatype Parsed = Good(profile: Profile) | Bad(error: ProfileError)

  /** How floating-point numbers are printed and read back: `read` takes a whole text or nothing. */
  datatype Format = Format(show: real -> string, read: string -> Option<real>)

  // ---- validation -------------------------------------------------------------------------

  predicate IsHex(c: char)
  {
    '0' <= c <= '9' || 'a' <= c <= 'f' || 'A' <= c <= 'F'
  }

  predicate ValidHash(s: string)
  {
    |s| == 71 && s[..7] == "sha256:" && forall i :: 7 <= i < 71 ==> IsHex(s[i])
  }

  predicate Bounds(low: seq<Float>, high: seq<Float>)
  {
    && |low| == |high|
    && forall i :: 0 <= i < |low| ==> low[i].Finite? && high[i].Finite? && low[i].value < high[i].value
  }

  predicate ValidNorm(p: Profile)
  {
    match p.norm
    case NoNorm => p.low == [] && p.high == []
    case MinMax => |p.low| == p.actionDim && Bounds(p.low, p.high)
    case OtherNorm => false
  }

  predicate ValidProfile(p: Profile)
  {
    && p.version == 1 && p.compatibility == 1 && ValidHash(p.hash) && 0 < p.actionDim <= MAX_ACTION_DIM
    && 0 < p.horizon <= MAX_HORIZON && p.units != OtherUnits && ValidNorm(p) && p.solver != OtherSolver
    && 0 < p.minSteps <= p.maxSteps <= MAX_STEPS
  }

  /** The check that an error stands for; errors of the parser are not about the profile. */
  predicate Passes(p: Profile, e: ProfileError)
  {
    match e
    case UnsupportedVersion => p.version == 1
    case UnsupportedCompatibility => p.compatibility == 1
    case InvalidHash => ValidHash(p.hash)
    case InvalidActionDim => 0 < p.actionDim <= MAX_ACTION_DIM
    case InvalidHorizon => 0 < p.horizon <= MAX_HORIZON
    case InvalidUnits => p.units == Normalized || p.units == Physical
    case InvalidNormType => p.norm == NoNorm || p.norm == MinMax
    case InvalidNormParameters =>
      && (p.norm == NoNorm ==> p.low == [] && p.high == [])
      && (p.norm == MinMax ==> |p.low| == p.actionDim && Bounds(p.low, p.high))
    case InvalidSolver => p.solver != OtherSolver
    case InvalidSolverRange => 0 < p.minSteps <= p.maxSteps <= MAX_STEPS
    case _ => true
  }

  /** The place of a check in the order of the checks. */
  function Rank(e: ProfileError): nat
  {
    match e
    case UnsupportedVersion => 1
    case UnsupportedCompatibility => 2
    case InvalidHash => 3
    case InvalidActionDim => 4
    case InvalidHorizon => 5
    case InvalidUnits => 6
    case InvalidNormType => 7
    case InvalidNormParameters => 8
    case InvalidSolver => 9
    case InvalidSolverRange => 10
    case _ => 0
  }

  /** The error of the first check that fails, and none exactly for a valid profile. */
  function Problem(p: Profile): (r: Option<ProfileError>)
    ensures r.None? <==> ValidProfile(p)
    ensures r.Some? ==> !Passes(p, r.value) && forall e :: Rank(e) < Rank(r.value) ==> Passes(p, e)
  {
    if p.version != 1 then Some(UnsupportedVersion)
    else if p.compatibility != 1 then Some(UnsupportedCompatibility)
    else if !ValidHash(p.hash) then Some(InvalidHash)
    else if p.actionDim == 0 || p.actionDim > MAX_ACTION_DIM then Some(InvalidActionDim)
    else if p.horizon == 0 || p.horizon > MAX_HORIZON then Some(InvalidHorizon)
    else if p.units == OtherUnits then Some(InvalidUnits)
    else if p.norm == OtherNorm then Some(InvalidNormType)
    else if !ValidNorm(p) then Some(InvalidNormParameters)
    else if p.solver == OtherSolver then Some(InvalidSolver)
    else if p.minSteps == 0 || p.maxSteps == 0 || p.minSteps > p.maxSteps || p.maxSteps > MAX_STEPS then
      Some(InvalidSolverRange)
    else None
  }

  // ---- reading numbers --------------------------------------------------------------------

  function ReadUint(value: string): Option<U64>
  {
    var s := Trim(value);
    if Digits(s) && Number(s) <= U64_MAX then Some(Number(s)) else None
  }

  function ReadFloat(f: Format, value: string): Option<real>
  {
    var s := Trim(value);
    if s == "" || |s| >= 64 then None else f.read(s)
  }

  /** Comma-separated numbers; `value` is trimmed and not empty. */
  function ReadItems(f: Format, value: string): Option<seq<Float>>
    decreases |value|
  {
    FindFirst(value, ",", 0);
    var comma := Find(value, ",", 0);
    match ReadFloat(f, Trim(if comma.Some? then value[..comma.value] else value))
    case None => None
    case Some(v) =>
      if comma.None? then Some([Finite(v)])
      else
        var rest := Trim(value[comma.value + 1..]);
        if rest == "" then None
        else
          match ReadItems(f, rest)
          case None => None
          case Some(vs) => Some([Finite(v)] + vs)
  }

  function ReadArray(f: Format, value: string): Option<seq<Float>>
  {
    var s := Trim(value);
    if |s| < 2 || s[0] != '[' || s[|s| - 1] != ']' then None
    else
      var inner := Trim(s[1..|s| - 1]);
      if inner == "" then Some([]) else ReadItems(f, inner)
  }

  // ---- parsing ----------------------------------------------------------------------------

  const K_VERSION := "profile_version"
  const K_COMPAT := "model_compatibility_version"
  const K_HASH := "observation_schema_hash"
  const K_DIM := "action_dim"
  const K_HORIZON := "action_horizon"
  const K_UNITS := "action_units"
  const K_NORM := "normalization_type"
  const K_PARAMS := "normalization_parameters"
  const K_SOLVER := "solver_default"
  const K_MIN := "solver_min_steps"
  const K_MAX := "solver_max_steps"

  datatype Fields = Fields(version: Field, compat: Field, hash: Field, dim: Field, horizon: Field, units: Field,
                           norm: Field, params: Field, solver: Field, min: Field, max: Field)

  function FieldsOf(json: string): Fields
  {
    Fields(FieldOf(json, K_VERSION), FieldOf(json, K_COMPAT), FieldOf(json, K_HASH), FieldOf(json, K_DIM),
           FieldOf(json, K_HORIZON), FieldOf(json, K_UNITS), FieldOf(json, K_NORM), FieldOf(json, K_PARAMS),
           FieldOf(json, K_SOLVER), FieldOf(json, K_MIN), FieldOf(json, K_MAX))
  }

  predicate AllPresent(x: Fields)
  {
    && x.version.present && x.compat.present && x.hash.present && x.dim.present && x.horizon.present && x.units.present
    && x.norm.present && x.params.present && x.solver.present && x.min.present && x.max.present
  }

  function UnitsOf(x: Field): Units
  {
    if x == Field("normalized", true, true) then Normalized
    else if x == Field("physical", true, true) then Physical else OtherUnits
  }

  function NormOf(x: Field): Norm
  {
    if x == Field("none", true, true) then NoNorm
    else if x == Field("minmax", true, true) then MinMax else OtherNorm
  }

  function SolverOf(x: Field): Solver
  {
    if x == Field("euler", true, true) then Euler
    else if x == Field("heun", true, true) then Heun
    else if x == Field("rk4", true, true) then RK4 else OtherSolver
  }

  /** The bounds in the parameters object: two arrays, or none at all. */
  function BoundsOf(f: Format, norm: Norm, params: string): Option<(seq<Float>, seq<Float>)>
  {
    var low, high := FieldOf(params, "min"), FieldOf(params, "max");
    if params == "" then None
    else if norm == MinMax then
      if !low.present || !high.present then None
      else
        var a, b := ReadArray(f, low.value), ReadArray(f, high.value);
        if a.None? || b.None? then None else Some((a.value, b.value))
    else if low.present || high.present then None else Some(([], []))
  }

  function Small(value: string): Option<U32>
  {
    var n := ReadUint(value);
    if n.Some? && n.value <= U32_MAX then Some(n.value) else None
  }

  /** The profile of the fields, before the versions and ranges are checked. */
  function Assembled(f: Format, x: Fields): Parsed
  {
    if Small(x.version.value).None? || Small(x.compat.value).None? then Bad(InvalidField)
    else if !x.hash.isString || !ValidHash(x.hash.value) then Bad(InvalidHash)
    else if ReadUint(x.dim.value).None? then Bad(InvalidActionDim)
    else if ReadUint(x.horizon.value).None? then Bad(InvalidHorizon)
    else if UnitsOf(x.units) == OtherUnits then Bad(InvalidUnits)
    else if NormOf(x.norm) == OtherNorm then Bad(InvalidNormType)
    else
      var bounds := BoundsOf(f, NormOf(x.norm), x.params.value);
      if bounds.None? then Bad(InvalidNormParameters)
      else if SolverOf(x.solver) == OtherSolver then Bad(InvalidSolver)
      else if ReadUint(x.min.value).None? || ReadUint(x.max.value).None? then Bad(InvalidSolverRange)
      else
        Good(Profile(Small(x.version.value).value, Small(x.compat.value).value, x.hash.value, ReadUint(x.dim.value).value,
                     ReadUint(x.horizon.value).value, UnitsOf(x.units), NormOf(x.norm), bounds.value.0, bounds.value.1,
                     SolverOf(x.solver), ReadUint(x.min.value).value, ReadUint(x.max.value).value))
  }

  /** The parser. Whatever it returns is a valid profile. */
  function Parse(f: Format, text: string): (r: Parsed)
    ensures r.Good? ==> ValidProfile(r.profile)
  {
    var json := Trim(text);
    if |json| < 2 || json[0] != '{' || json[|json| - 1] != '}' then Bad(InvalidJson)
    else if !AllPresent(FieldsOf(json)) then Bad(MissingField)
    else
      match Assembled(f, FieldsOf(json))
      case Bad(e) => Bad(e)
      case Good(p) => if Problem(p).Some? then Bad(Problem(p).value) else Good(p)
  }
}
