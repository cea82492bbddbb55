/** The operator's configuration: the soft-NMS method parser, its constants
    and the constructor's argument defaults. */
module NmsConfig {
  import opened Status

  const SoftNmsNone := 0
  const SoftNmsLinear := 1
  const SoftNmsGaussian := 2

  predicate IsSoftNmsMethod(m: int) {
    m == SoftNmsNone || m == SoftNmsLinear || m == SoftNmsGaussian
  }

  /** The name under which each method is configured. */
  function MethodName(m: int): string
    requires IsSoftNmsMethod(m)
  {
    if m == SoftNmsNone then "none"
    else if m == SoftNmsLinear then "linear"
    else "gaussian"
  }

  /** Maps a configured name to its method; any other name is an error. */
  function GetSoftNmsMethod(name: string): (r: Result<int>)
    ensures r.Ok? <==> name == "none" || name == "linear" || name == "gaussian"
    ensures r.Ok? ==> IsSoftNmsMethod(r.value)
    ensures r.Err? ==> r.error == UnknownSoftNmsMethod(name)
  {
    if name == "none" then Ok(SoftNmsNone)
    else if name == "linear" then Ok(SoftNmsLinear)
    else if name == "gaussian" then Ok(SoftNmsGaussian)
    else Err(UnknownSoftNmsMethod(name))
  }

  /** The parser and the naming are inverse to each other. */
  lemma ParseNameRoundTrip(m: int)
    requires IsSoftNmsMethod(m)
    ensures GetSoftNmsMethod(MethodName(m)) == Ok(m)
  {
  }

  lemma NameParseRoundTrip(name: string)
    requires GetSoftNmsMethod(name).Ok?
    ensures MethodName(GetSoftNmsMethod(name).value) == name
  {
  }

  datatype Config = Config(
    minScore: real,
    maxIou: real,
    maxObjects: int,
    softNmsMethod: int,
    softNmsSigma: real,
    softNmsMinScore: real)

  /** A constructed operator: its method is one of the three known ones. */
  predicate ValidConfig(cfg: Config) {
    IsSoftNmsMethod(cfg.softNmsMethod)
  }

  /** The operator arguments as given; None for an absent argument. */
  datatype OpArgs = OpArgs(
    minScore: Option<real>,
    maxIou: Option<real>,
    maxObjects: Option<int>,
    softNmsMethod: Option<string>,
    softNmsSigma: Option<real>,
    softNmsMinScore: Option<real>)

  const NoArgs := OpArgs(None, None, None, None, None, None)

  /** The constructor: each field from its argument or its default. */
  function Construct(args: OpArgs): (r: Result<Config>)
    ensures r.Ok? <==> GetSoftNmsMethod(GetOr(args.softNmsMethod, "none")).Ok?
    ensures r.Ok? ==> ValidConfig(r.value)
    ensures r.Err? ==> r.error == UnknownSoftNmsMethod(GetOr(args.softNmsMethod, "none"))
  {
    var m :- GetSoftNmsMethod(GetOr(args.softNmsMethod, "none"));
    Ok(Config(
      GetOr(args.minScore, 0.05),
      GetOr(args.maxIou, 0.3),
      GetOr(args.maxObjects, 100),
      m,
      GetOr(args.softNmsSigma, 0.5),
      GetOr(args.softNmsMinScore, 0.0)))
  }

  /** With no arguments: hard NMS, min score 0.05, IoU 0.3, at most 100 objects,
      sigma 0.5, soft-NMS minimum score 0. */
  lemma ConstructDefaults()
    ensures Construct(NoArgs) == Ok(Config(0.05, 0.3, 100, SoftNmsNone, 0.5, 0.0))
  {
  }

  /** A given argument always wins over its default, and each absent one
      takes its own default whatever the others are. */
  lemma ConstructUsesArgs(args: OpArgs, cfg: Config)
    requires Construct(args) == Ok(cfg)
    ensures args.minScore.Some? ==> cfg.minScore == args.minScore.value
    ensures args.maxIou.Some? ==> cfg.maxIou == args.maxIou.value
    ensures args.maxObjects.Some? ==> cfg.maxObjects == args.maxObjects.value
    ensures args.softNmsMethod.Some? ==> MethodName(cfg.softNmsMethod) == args.softNmsMethod.value
    ensures args.softNmsSigma.Some? ==> cfg.softNmsSigma == args.softNmsSigma.value
    ensures args.softNmsMinScore.Some? ==> cfg.softNmsMinScore == args.softNmsMinScore.value
    ensures args.minScore.None? ==> cfg.minScore == 0.05
    ensures args.maxIou.None? ==> cfg.maxIou == 0.3
    ensures args.maxObjects.None? ==> cfg.maxObjects == 100
    ensures args.softNmsMethod.None? ==> cfg.softNmsMethod == SoftNmsNone
    ensures args.softNmsSigma.None? ==> cfg.softNmsSigma == 0.5
    ensures args.softNmsMinScore.None? ==> cfg.softNmsMinScore == 0.0
  {
  }
}
