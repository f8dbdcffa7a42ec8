/**
 * `generate_fiducials`: the list of candidate fiducials built from the
 * gates that are not omitted, the keyword arguments handed to the slack
 * algorithm (with their defaults filled in), and one search for the
 * preparation and one for the measurement fiducials.
 */
module FidGenerate {
  import opened FidCore
  import opened SlackSearch
  import opened FidOptimize

  /** A keyword-argument value, by the kinds the search accepts. */
  datatype KwArg =
    | NoneArg
    | BoolArg(b: bool)
    | IntArg(i: int)
    | RealArg(x: real)
    | StrArg(s: string)
    | FidsArg(fids: seq<GateString>)
    | BoolsArg(bs: seq<bool>)

  type Kwargs = map<string, KwArg>

  /**
   * `list_all_gatestrings(gates, minLength, maxLength)`, the enumeration
   * of candidate fiducials, supplied by the caller.
   */
  type GateStringLister = (seq<string>, int, int) -> seq<GateString>

  /** The gates of the target gate set that are not in `gatesToOmit`, in order. */
  function FidGates(gates: seq<string>, gatesToOmit: seq<string>): (r: seq<string>)
    ensures |r| <= |gates|
    ensures forall g :: g in r <==> g in gates && g !in gatesToOmit
  {
    if |gates| == 0 then []
    else
      var last := gates[|gates| - 1];
      FidGates(gates[..|gates| - 1], gatesToOmit) + (if last in gatesToOmit then [] else [last])
  }

  /** With nothing omitted, every gate is kept, in order. */
  lemma {:induction false} FidGatesNoneOmitted(gates: seq<string>, gatesToOmit: seq<string>)
    requires forall g :: g in gates ==> g !in gatesToOmit
    ensures FidGates(gates, gatesToOmit) == gates
  {
    if |gates| > 0 {
      FidGatesNoneOmitted(gates[..|gates| - 1], gatesToOmit);
      assert gates[..|gates| - 1] + [gates[|gates| - 1]] == gates;
    }
  }

  /** The keys `generate_fiducials` supplies when the caller has not. */
  function DefaultKwargs(availableFidList: seq<GateString>, verbosity: int): seq<(string, KwArg)> {
    [("fidList", FidsArg(availableFidList)), ("verbosity", IntArg(verbosity))]
  }

  /** `kw[key] = v` unless `key` is already present. */
  function AddIfMissing(kw: Kwargs, key: string, v: KwArg): (r: Kwargs)
    ensures r.Keys == kw.Keys + {key}
    ensures forall k :: k in kw ==> r[k] == kw[k]
    ensures key !in kw ==> r[key] == v
  {
    if key in kw then kw else kw[key := v]
  }

  /** Adds each default, in order, whose key is still missing; present keys win. */
  function AddMissing(kw: Kwargs, defaults: seq<(string, KwArg)>): (r: Kwargs)
    ensures forall k :: k in kw ==> k in r && r[k] == kw[k]
  {
    if |defaults| == 0 then kw
    else
      var d := defaults[|defaults| - 1];
      AddIfMissing(AddMissing(kw, defaults[..|defaults| - 1]), d.0, d.1)
  }

  /** `slackFrac = 1.0` unless the caller chose either kind of slack. */
  function WithSlackDefault(kw: Kwargs): (r: Kwargs)
    ensures forall k :: k in kw ==> k in r && r[k] == kw[k]
    ensures r.Keys == kw.Keys + (if "slackFrac" !in kw && "fixedSlack" !in kw then {"slackFrac"} else {})
    ensures "slackFrac" !in kw && "fixedSlack" !in kw ==> r["slackFrac"] == RealArg(1.0)
  {
    if "slackFrac" !in kw && "fixedSlack" !in kw then kw["slackFrac" := RealArg(1.0)] else kw
  }

  /**
   * The keyword arguments after `generate_fiducials` has filled in its
   * defaults: every key of the caller is kept with its value; a missing
   * `fidList` becomes the available list, a missing `verbosity` the
   * caller's verbosity, and `slackFrac` becomes 1.0 when neither slack
   * option is present.
   */
  function WithDefaults(kw: Kwargs, availableFidList: seq<GateString>, verbosity: int): (r: Kwargs)
    ensures forall k :: k in kw ==> k in r && r[k] == kw[k]
    ensures r.Keys == kw.Keys + {"fidList", "verbosity"} +
      (if "slackFrac" !in kw && "fixedSlack" !in kw then {"slackFrac"} else {})
    ensures "fidList" !in kw ==> r["fidList"] == FidsArg(availableFidList)
    ensures "verbosity" !in kw ==> r["verbosity"] == IntArg(verbosity)
    ensures "slackFrac" !in kw && "fixedSlack" !in kw ==> r["slackFrac"] == RealArg(1.0)
  {
    var slack := WithSlackDefault(kw);
    var withFids := AddIfMissing(slack, "fidList", FidsArg(availableFidList));
    assert "verbosity" != "fidList" && "verbosity" != "slackFrac" && "fidList" != "slackFrac";
    AddIfMissing(withFids, "verbosity", IntArg(verbosity))
  }

  /** Adding two defaults is adding the first, then the second. */
  lemma AddMissingPair(kw: Kwargs, a: (string, KwArg), b: (string, KwArg))
    ensures AddMissing(kw, [a, b]) == AddIfMissing(AddIfMissing(kw, a.0, a.1), b.0, b.1)
  {
    assert [a, b][..1] == [a] && [a][..0] == [];
    assert AddMissing(kw, [a]) == AddIfMissing(AddMissing(kw, []), a.0, a.1);
  }

  /** The algorithm's keyword-argument dictionary, which `generate_fiducials` fills in place. */
  class KwargsDict {
    var entries: Kwargs

    constructor(entries: Kwargs)
      ensures this.entries == entries
    {
      this.entries := entries;
    }
  }

  /** The in-place filling of the defaults. */
  method FillDefaults(kwargs: KwargsDict, availableFidList: seq<GateString>, verbosity: int)
    modifies kwargs
    ensures kwargs.entries == WithDefaults(old(kwargs.entries), availableFidList, verbosity)
  {
    var defaults := DefaultKwargs(availableFidList, verbosity);
    if "slackFrac" !in kwargs.entries && "fixedSlack" !in kwargs.entries {
      kwargs.entries := kwargs.entries["slackFrac" := RealArg(1.0)];
    }
    ghost var filled := kwargs.entries;
    for i := 0 to |defaults|
      invariant kwargs.entries == AddMissing(filled, defaults[..i])
    {
      assert defaults[..i + 1][..i] == defaults[..i];
      var key := defaults[i].0;
      if key !in kwargs.entries {
        kwargs.entries := kwargs.entries[key := defaults[i].1];
      }
    }
    assert defaults[..|defaults|] == defaults;
    AddMissingPair(filled, defaults[0], defaults[1]);
  }

  /** The parameters of `optimize_integer_fiducials_slack` other than `gateset`. */
  const KnownKeys: set<string> := {"fidList", "prepOrMeas", "initialWeights", "scoreFunc", "maxIter",
    "fixedSlack", "slackFrac", "returnAll", "forceEmpty", "forceEmptyScore", "fixedNum", "threshold",
    "verbosity"}

  /** `forceEmptyScore`'s default, 1e100. */
  const DefaultForceEmptyScore: real := 10000000000000000000000000000000000000000000000000000000000000000000000000000000000000000000000000000.0

  /** `threshold`'s default, 1e6. */
  const DefaultThreshold: real := 1000000.0

  function KindError(key: string): Error {
    TypeError("unsupported value for keyword argument '" + key + "'")
  }

  function GetStr(kw: Kwargs, key: string, default: string): Result<string> {
    if key !in kw then Ok(default)
    else match kw[key]
      case StrArg(s) => Ok(s)
      case _ => Err(KindError(key))
  }

  function GetOptStr(kw: Kwargs, key: string): Result<Option<string>> {
    if key !in kw then Ok(None)
    else match kw[key]
      case NoneArg => Ok(None)
      case StrArg(s) => Ok(Some(s))
      case _ => Err(KindError(key))
  }

  function GetBool(kw: Kwargs, key: string, default: bool): Result<bool> {
    if key !in kw then Ok(default)
    else match kw[key]
      case BoolArg(b) => Ok(b)
      case _ => Err(KindError(key))
  }

  function GetInt(kw: Kwargs, key: string, default: int): Result<int> {
    if key !in kw then Ok(default)
    else match kw[key]
      case IntArg(i) => Ok(i)
      case _ => Err(KindError(key))
  }

  function GetOptInt(kw: Kwargs, key: string): Result<Option<int>> {
    if key !in kw then Ok(None)
    else match kw[key]
      case NoneArg => Ok(None)
      case IntArg(i) => Ok(Some(i))
      case _ => Err(KindError(key))
  }

  /** A float parameter; a Python int is accepted where a float is expected. */
  function GetReal(kw: Kwargs, key: string, default: real): Result<real> {
    if key !in kw then Ok(default)
    else match kw[key]
      case RealArg(x) => Ok(x)
      case IntArg(i) => Ok(i as real)
      case _ => Err(KindError(key))
  }

  function GetOptReal(kw: Kwargs, key: string): Result<Option<real>> {
    if key !in kw then Ok(None)
    else match kw[key]
      case NoneArg => Ok(None)
      case RealArg(x) => Ok(Some(x))
      case IntArg(i) => Ok(Some(i as real))
      case _ => Err(KindError(key))
  }

  function GetOptBools(kw: Kwargs, key: string): Result<Option<seq<bool>>> {
    if key !in kw then Ok(None)
    else match kw[key]
      case NoneArg => Ok(None)
      case BoolsArg(bs) => Ok(Some(bs))
      case _ => Err(KindError(key))
  }

  /** The given `initialWeights` has one entry per fiducial of the given `fidList`. */
  predicate WeightsFit(kw: Kwargs) {
    "initialWeights" in kw && kw["initialWeights"].BoolsArg? && "fidList" in kw && kw["fidList"].FidsArg? ==>
      |kw["initialWeights"].bs| == |kw["fidList"].fids|
  }

  /**
   * Binding `**kwargs` to the parameters of `optimize_integer_fiducials_slack`:
   * an unknown keyword or a missing `fidList` is a `TypeError`; every
   * absent parameter takes its default.
   */
  function Decode(kw: Kwargs): (r: Result<(seq<GateString>, SearchArgs)>)
    ensures !(kw.Keys <= KnownKeys) ==> r.Err? && r.error.TypeError?
    ensures "fidList" !in kw ==> r.Err? && r.error.TypeError?
    ensures r.Ok? ==> kw["fidList"] == FidsArg(r.value.0)
    ensures r.Ok? && WeightsFit(kw) && r.value.1.initialWeights.Some? ==> |r.value.1.initialWeights.value| == |r.value.0|
  {
    if !(kw.Keys <= KnownKeys) then Err(TypeError("unexpected keyword argument"))
    else if "fidList" !in kw then Err(TypeError("missing required argument 'fidList'"))
    else if !kw["fidList"].FidsArg? then Err(KindError("fidList"))
    else
      var prepOrMeas :- GetOptStr(kw, "prepOrMeas");
      var initialWeights :- GetOptBools(kw, "initialWeights");
      var scoreFunc :- GetStr(kw, "scoreFunc", "all");
      var maxIter :- GetInt(kw, "maxIter", 100);
      var fixedSlack :- GetOptReal(kw, "fixedSlack");
      var slackFrac :- GetOptReal(kw, "slackFrac");
      var returnAll :- GetBool(kw, "returnAll", false);
      var forceEmpty :- GetBool(kw, "forceEmpty", true);
      var forceEmptyScore :- GetReal(kw, "forceEmptyScore", DefaultForceEmptyScore);
      var fixedNum :- GetOptInt(kw, "fixedNum");
      var threshold :- GetReal(kw, "threshold", DefaultThreshold);
      var verbosity :- GetInt(kw, "verbosity", 1);
      Ok((kw["fidList"].fids, SearchArgs(prepOrMeas, initialWeights, scoreFunc, maxIter, fixedSlack, slackFrac,
        forceEmpty, forceEmptyScore, fixedNum, threshold)))
  }

  function OptStr(o: Option<string>): KwArg {
    match o
    case None => NoneArg
    case Some(s) => StrArg(s)
  }

  function OptReal(o: Option<real>): KwArg {
    match o
    case None => NoneArg
    case Some(x) => RealArg(x)
  }

  function OptInt(o: Option<int>): KwArg {
    match o
    case None => NoneArg
    case Some(i) => IntArg(i)
  }

  function OptBools(o: Option<seq<bool>>): KwArg {
    match o
    case None => NoneArg
    case Some(bs) => BoolsArg(bs)
  }

  /** The keyword arguments that spell out `fids` and `args` in full. */
  function Encode(fids: seq<GateString>, args: SearchArgs): Kwargs {
    map["fidList" := FidsArg(fids),
        "prepOrMeas" := OptStr(args.prepOrMeas),
        "initialWeights" := OptBools(args.initialWeights),
        "scoreFunc" := StrArg(args.scoreFunc),
        "maxIter" := IntArg(args.maxIter),
        "fixedSlack" := OptReal(args.fixedSlack),
        "slackFrac" := OptReal(args.slackFrac),
        "forceEmpty" := BoolArg(args.forceEmpty),
        "forceEmptyScore" := RealArg(args.forceEmptyScore),
        "fixedNum" := OptInt(args.fixedNum),
        "threshold" := RealArg(args.threshold)]
  }

  /** `prepOrMeas` and `scoreFunc` read back from an encoded call. */
  lemma EncodeGetsRoleScoreFunc(fids: seq<GateString>, args: SearchArgs)
    ensures GetOptStr(Encode(fids, args), "prepOrMeas") == Ok(args.prepOrMeas)
    ensures GetStr(Encode(fids, args), "scoreFunc", "all") == Ok(args.scoreFunc)
  {
  }

  /** `initialWeights` reads back from an encoded call. */
  lemma EncodeGetsInitialWeights(fids: seq<GateString>, args: SearchArgs)
    ensures GetOptBools(Encode(fids, args), "initialWeights") == Ok(args.initialWeights)
  {
  }

  /** `maxIter`, `fixedSlack` and `slackFrac` read back from an encoded call. */
  lemma EncodeGetsIterAndSlack(fids: seq<GateString>, args: SearchArgs)
    ensures GetInt(Encode(fids, args), "maxIter", 100) == Ok(args.maxIter)
    ensures GetOptReal(Encode(fids, args), "fixedSlack") == Ok(args.fixedSlack)
    ensures GetOptReal(Encode(fids, args), "slackFrac") == Ok(args.slackFrac)
  {
  }

  /** `returnAll` (never encoded), `forceEmpty` and `forceEmptyScore` read back from an encoded call. */
  lemma EncodeGetsForceEmpty(fids: seq<GateString>, args: SearchArgs)
    ensures GetBool(Encode(fids, args), "returnAll", false) == Ok(false)
    ensures GetBool(Encode(fids, args), "forceEmpty", true) == Ok(args.forceEmpty)
    ensures GetReal(Encode(fids, args), "forceEmptyScore", DefaultForceEmptyScore) == Ok(args.forceEmptyScore)
  {
  }

  /** `fixedNum`, `threshold` and `verbosity` (never encoded) read back from an encoded call. */
  lemma EncodeGetsFixedNumThreshold(fids: seq<GateString>, args: SearchArgs)
    ensures GetOptInt(Encode(fids, args), "fixedNum") == Ok(args.fixedNum)
    ensures GetReal(Encode(fids, args), "threshold", DefaultThreshold) == Ok(args.threshold)
    ensures GetInt(Encode(fids, args), "verbosity", 1) == Ok(1)
  {
  }

  /** The role, start vector, score function, iteration count and slack keywords of the filled defaults. */
  lemma FilledGetsSearchStart(kw: Kwargs, fids: seq<GateString>, verbosity: int, role: string)
    requires kw == map["slackFrac" := RealArg(1.0), "fidList" := FidsArg(fids),
      "verbosity" := IntArg(verbosity), "prepOrMeas" := StrArg(role)]
    ensures GetOptStr(kw, "prepOrMeas") == Ok(Some(role))
    ensures GetOptBools(kw, "initialWeights") == Ok(None)
    ensures GetStr(kw, "scoreFunc", "all") == Ok("all")
    ensures GetInt(kw, "maxIter", 100) == Ok(100)
    ensures GetOptReal(kw, "fixedSlack") == Ok(None)
    ensures GetOptReal(kw, "slackFrac") == Ok(Some(1.0))
  {
  }

  /** The `returnAll`, `forceEmpty`, `forceEmptyScore`, `fixedNum`, `threshold` and `verbosity` keywords of the filled defaults. */
  lemma FilledGetsSelection(kw: Kwargs, fids: seq<GateString>, verbosity: int, role: string)
    requires kw == map["slackFrac" := RealArg(1.0), "fidList" := FidsArg(fids),
      "verbosity" := IntArg(verbosity), "prepOrMeas" := StrArg(role)]
    ensures GetBool(kw, "returnAll", false) == Ok(false)
    ensures GetBool(kw, "forceEmpty", true) == Ok(true)
    ensures GetReal(kw, "forceEmptyScore", DefaultForceEmptyScore) == Ok(DefaultForceEmptyScore)
    ensures GetOptInt(kw, "fixedNum") == Ok(None)
    ensures GetReal(kw, "threshold", DefaultThreshold) == Ok(DefaultThreshold)
    ensures GetInt(kw, "verbosity", 1) == Ok(verbosity)
  {
  }

  /** `Decode` succeeds with the values each parameter's getter yields. */
  lemma DecodeOfGets(kw: Kwargs, fids: seq<GateString>, args: SearchArgs)
    requires kw.Keys <= KnownKeys && "fidList" in kw && kw["fidList"] == FidsArg(fids)
    requires GetOptStr(kw, "prepOrMeas") == Ok(args.prepOrMeas)
    requires GetOptBools(kw, "initialWeights") == Ok(args.initialWeights)
    requires GetStr(kw, "scoreFunc", "all") == Ok(args.scoreFunc)
    requires GetInt(kw, "maxIter", 100) == Ok(args.maxIter)
    requires GetOptReal(kw, "fixedSlack") == Ok(args.fixedSlack)
    requires GetOptReal(kw, "slackFrac") == Ok(args.slackFrac)
    requires GetBool(kw, "returnAll", false).Ok?
    requires GetBool(kw, "forceEmpty", true) == Ok(args.forceEmpty)
    requires GetReal(kw, "forceEmptyScore", DefaultForceEmptyScore) == Ok(args.forceEmptyScore)
    requires GetOptInt(kw, "fixedNum") == Ok(args.fixedNum)
    requires GetReal(kw, "threshold", DefaultThreshold) == Ok(args.threshold)
    requires GetInt(kw, "verbosity", 1).Ok?
    ensures Decode(kw) == Ok((fids, args))
  {
  }

  /** Every argument combination can be passed by keyword and arrives unchanged. */
  lemma DecodeEncode(fids: seq<GateString>, args: SearchArgs)
    ensures Decode(Encode(fids, args)) == Ok((fids, args))
  {
    var kw := Encode(fids, args);
    assert kw.Keys <= KnownKeys;
    EncodeGetsRoleScoreFunc(fids, args);
    EncodeGetsInitialWeights(fids, args);
    EncodeGetsIterAndSlack(fids, args);
    EncodeGetsForceEmpty(fids, args);
    EncodeGetsFixedNumThreshold(fids, args);
    DecodeOfGets(kw, fids, args);
  }

  /** With `fidList` alone, every other parameter takes its documented default. */
  lemma DecodeDefaults(fids: seq<GateString>)
    ensures Decode(map["fidList" := FidsArg(fids)]) ==
      Ok((fids, SearchArgs(None, None, "all", 100, None, None, true, DefaultForceEmptyScore, None, DefaultThreshold)))
  {
    assert map["fidList" := FidsArg(fids)].Keys <= KnownKeys;
  }

  /** The candidate fiducials: every gate string over the kept gates up to `maxFidLength`. */
  function Available(lister: GateStringLister, gates: seq<string>, gatesToOmit: seq<string>, maxFidLength: int)
    : seq<GateString>
  {
    lister(FidGates(gates, gatesToOmit), 0, maxFidLength)
  }

  /** `optimize_integer_fiducials_slack(gateset=gs_target, **kw)`. */
  function OptimizeWith(oracle: Oracle, kw: Kwargs): Result<Option<seq<GateString>>>
    requires WeightsFit(kw)
  {
    var bound :- Decode(kw);
    OptimizeResult(oracle, bound.0, bound.1)
  }

  function InvalidAlgorithm(algorithm: string): Error {
    ValueError("'" + algorithm + "' is not a valid algorithm identifier.")
  }

  /**
   * What `generate_fiducials` returns for keyword arguments `kw`: an
   * unknown algorithm is a `ValueError`; otherwise the preparation and
   * then the measurement search run on `kw` with its defaults filled in
   * and the role set, and the first error raised is the result.
   */
  function GenerateResult(oracle: Oracle, lister: GateStringLister, gates: seq<string>, gatesToOmit: seq<string>,
                          maxFidLength: int, algorithm: string, kw: Kwargs, verbosity: int)
    : (r: Result<(Option<seq<GateString>>, Option<seq<GateString>>)>)
    requires WeightsFit(WithDefaults(kw, Available(lister, gates, gatesToOmit, maxFidLength), verbosity))
    ensures algorithm != "slack" ==> r == Err(InvalidAlgorithm(algorithm))
  {
    if algorithm != "slack" then Err(InvalidAlgorithm(algorithm))
    else
      var full := WithDefaults(kw, Available(lister, gates, gatesToOmit, maxFidLength), verbosity);
      var prep :- OptimizeWith(oracle, full["prepOrMeas" := StrArg("prep")]);
      var meas :- OptimizeWith(oracle, full["prepOrMeas" := StrArg("meas")]);
      Ok((prep, meas))
  }

  /**
   * Without a `fidList` of the caller's, both returned lists are drawn
   * from the candidate fiducials over the gates not omitted.
   */
  lemma GenerateFromAvailable(oracle: Oracle, lister: GateStringLister, gates: seq<string>, gatesToOmit: seq<string>,
                              maxFidLength: int, kw: Kwargs, verbosity: int)
    requires "fidList" !in kw
    requires WeightsFit(WithDefaults(kw, Available(lister, gates, gatesToOmit, maxFidLength), verbosity))
    requires GenerateResult(oracle, lister, gates, gatesToOmit, maxFidLength, "slack", kw, verbosity).Ok?
    ensures var r := GenerateResult(oracle, lister, gates, gatesToOmit, maxFidLength, "slack", kw, verbosity).value;
      (r.0.Some? ==> forall g :: g in r.0.value ==> g in Available(lister, gates, gatesToOmit, maxFidLength)) &&
      (r.1.Some? ==> forall g :: g in r.1.value ==> g in Available(lister, gates, gatesToOmit, maxFidLength))
  {
    var avail := Available(lister, gates, gatesToOmit, maxFidLength);
    var full := WithDefaults(kw, avail, verbosity);
    var prepKw := full["prepOrMeas" := StrArg("prep")];
    var measKw := full["prepOrMeas" := StrArg("meas")];
    var prepBound := Decode(prepKw).value;
    var measBound := Decode(measKw).value;
    assert prepBound.0 == avail && measBound.0 == avail;
    if OptimizeWith(oracle, prepKw).value.Some? {
      OptimizeSublist(oracle, prepBound.0, prepBound.1);
    }
    if OptimizeWith(oracle, measKw).value.Some? {
      OptimizeSublist(oracle, measBound.0, measBound.1);
    }
  }

  /**
   * With no keyword arguments at all, each search runs on the candidate
   * fiducials with `slackFrac` 1.0 and every other parameter at its default.
   */
  lemma GenerateDefaults(availableFidList: seq<GateString>, verbosity: int, role: string)
    ensures Decode(WithDefaults(map[], availableFidList, verbosity)["prepOrMeas" := StrArg(role)]) ==
      Ok((availableFidList, SearchArgs(Some(role), None, "all", 100, None, Some(1.0), true, DefaultForceEmptyScore, None,
        DefaultThreshold)))
  {
    var kw := WithDefaults(map[], availableFidList, verbosity)["prepOrMeas" := StrArg(role)];
    assert kw == map["slackFrac" := RealArg(1.0), "fidList" := FidsArg(availableFidList),
      "verbosity" := IntArg(verbosity), "prepOrMeas" := StrArg(role)];
    DecodeFilledDefaults(availableFidList, verbosity, role);
  }

  /** Binding the filled-in defaults plus a role: only the role and `slackFrac` differ from `DecodeDefaults`. */
  lemma DecodeFilledDefaults(fids: seq<GateString>, verbosity: int, role: string)
    ensures Decode(map["slackFrac" := RealArg(1.0), "fidList" := FidsArg(fids),
      "verbosity" := IntArg(verbosity), "prepOrMeas" := StrArg(role)]) ==
      Ok((fids, SearchArgs(Some(role), None, "all", 100, None, Some(1.0), true, DefaultForceEmptyScore, None,
        DefaultThreshold)))
  {
    var kw := map["slackFrac" := RealArg(1.0), "fidList" := FidsArg(fids),
      "verbosity" := IntArg(verbosity), "prepOrMeas" := StrArg(role)];
    var args := SearchArgs(Some(role), None, "all", 100, None, Some(1.0), true, DefaultForceEmptyScore, None,
      DefaultThreshold);
    assert kw.Keys <= KnownKeys;
    FilledGetsSearchStart(kw, fids, verbosity, role);
    FilledGetsSelection(kw, fids, verbosity, role);
    DecodeOfGets(kw, fids, args);
  }

  /** The `**kwargs` call: bind the keywords, then run the search. */
  method OptimizeWithKwargs(oracle: Oracle, kw: Kwargs) returns (r: Result<Option<seq<GateString>>>)
    requires WeightsFit(kw)
    ensures r == OptimizeWith(oracle, kw)
  {
    var bound := Decode(kw);
    if bound.Err? {
      return Err(bound.error);
    }
    r := OptimizeIntegerFiducialsSlack(oracle, bound.value.0, bound.value.1);
  }

  /**
   * `generate_fiducials` as written: the keyword dictionary is filled with
   * the defaults in place, so the caller's dictionary (or the shared
   * default one) keeps them afterwards.
   */
  method GenerateFiducials(oracle: Oracle, lister: GateStringLister, gates: seq<string>, gatesToOmit: seq<string>,
                           maxFidLength: int, algorithm: string, algorithmKwargs: KwargsDict, verbosity: int)
    returns (r: Result<(Option<seq<GateString>>, Option<seq<GateString>>)>)
    requires WeightsFit(WithDefaults(algorithmKwargs.entries, Available(lister, gates, gatesToOmit, maxFidLength), verbosity))
    modifies algorithmKwargs
    ensures r == GenerateResult(oracle, lister, gates, gatesToOmit, maxFidLength, algorithm, old(algorithmKwargs.entries), verbosity)
    ensures algorithmKwargs.entries ==
      if algorithm == "slack"
      then WithDefaults(old(algorithmKwargs.entries), Available(lister, gates, gatesToOmit, maxFidLength), verbosity)
      else old(algorithmKwargs.entries)
  {
    var fidGates := FidGates(gates, gatesToOmit);
    var availableFidList := lister(fidGates, 0, maxFidLength);
    if algorithm == "slack" {
      FillDefaults(algorithmKwargs, availableFidList, verbosity);
      var prepAlgKwargs := algorithmKwargs.entries["prepOrMeas" := StrArg("prep")];
      var prepFidList := OptimizeWithKwargs(oracle, prepAlgKwargs);
      if prepFidList.Err? {
        return Err(prepFidList.error);
      }
      var measAlgKwargs := algorithmKwargs.entries["prepOrMeas" := StrArg("meas")];
      var measFidList := OptimizeWithKwargs(oracle, measAlgKwargs);
      if measFidList.Err? {
        return Err(measFidList.error);
      }
      r := Ok((prepFidList.value, measFidList.value));
    } else {
      r := Err(InvalidAlgorithm(algorithm));
    }
  }

  /**
   * The shared default dictionary: once one call has filled it, a later
   * call finds every default key present, so the later call's own
   * candidate list and verbosity are ignored.
   */
  lemma SharedDefaultKeepsFirstList(first: seq<GateString>, v1: int, second: seq<GateString>, v2: int)
    ensures WithDefaults(WithDefaults(map[], first, v1), second, v2) == WithDefaults(map[], first, v1)
    ensures first != second ==> WithDefaults(WithDefaults(map[], first, v1), second, v2)["fidList"] != FidsArg(second)
  {
    var once := WithDefaults(map[], first, v1);
    assert once == map["slackFrac" := RealArg(1.0), "fidList" := FidsArg(first), "verbosity" := IntArg(v1)];
  }

  /**
   * `generate_fiducials` with a fresh dictionary per call (`None` standing
   * for the omitted argument): the caller's dictionary is copied, never
   * filled, so each call sees exactly the keywords it was given.
   */
  method GenerateFiducialsFresh(oracle: Oracle, lister: GateStringLister, gates: seq<string>, gatesToOmit: seq<string>,
                                maxFidLength: int, algorithm: string, algorithmKwargs: Option<KwargsDict>, verbosity: int)
    returns (r: Result<(Option<seq<GateString>>, Option<seq<GateString>>)>)
    requires WeightsFit(WithDefaults(if algorithmKwargs.Some? then algorithmKwargs.value.entries else map[],
      Available(lister, gates, gatesToOmit, maxFidLength), verbosity))
    ensures r == GenerateResult(oracle, lister, gates, gatesToOmit, maxFidLength, algorithm,
      if algorithmKwargs.Some? then algorithmKwargs.value.entries else map[], verbosity)
  {
    var copy := new KwargsDict(if algorithmKwargs.Some? then algorithmKwargs.value.entries else map[]);
    r := GenerateFiducials(oracle, lister, gates, gatesToOmit, maxFidLength, algorithm, copy, verbosity);
  }

  /**
   * Called without keyword arguments, the corrected entry point binds
   * each search to the current call's own candidate list, whatever
   * earlier calls did.
   */
  lemma FreshDefaultsUseOwnList(oracle: Oracle, lister: GateStringLister, gates: seq<string>, gatesToOmit: seq<string>,
                                maxFidLength: int, verbosity: int)
    ensures var avail := Available(lister, gates, gatesToOmit, maxFidLength);
      WeightsFit(WithDefaults(map[], avail, verbosity)) &&
      GenerateResult(oracle, lister, gates, gatesToOmit, maxFidLength, "slack", map[], verbosity) ==
        var prep := OptimizeResult(oracle, avail, SearchArgs(Some("prep"), None, "all", 100, None, Some(1.0), true,
          DefaultForceEmptyScore, None, DefaultThreshold));
        var meas := OptimizeResult(oracle, avail, SearchArgs(Some("meas"), None, "all", 100, None, Some(1.0), true,
          DefaultForceEmptyScore, None, DefaultThreshold));
        if prep.Err? then Err(prep.error) else if meas.Err? then Err(meas.error) else Ok((prep.value, meas.value))
  {
    var avail := Available(lister, gates, gatesToOmit, maxFidLength);
    GenerateDefaults(avail, verbosity, "prep");
    GenerateDefaults(avail, verbosity, "meas");
  }
}
