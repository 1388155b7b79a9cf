/** The timezone selection of src/main.rs: the parsed command-line options
    and `get_timezone`, which turns the three zone selectors into a zone.
 */
module Cli {
  import opened Wrappers
  import opened Timezones

  /** `Opts` as clap fills it in. */
  datatype Opts = Opts(
    nyc: bool,
    chi: bool,
    zone: Option<string>,
    convertEpochNanos: bool,
    format: Option<string>,
    file: seq<string>)

  /** How many of `--nyc`, `--chi` and `--zone` were given. */
  function SelectorCount(opts: Opts): nat {
    (if opts.nyc then 1 else 0) + (if opts.chi then 1 else 0) + (if opts.zone.Some? then 1 else 0)
  }

  /** `get_timezone`: the arms are tried in order and the first that fits wins.
      It returns (a zone or the resolver's error) exactly when at most one
      selector is given, and panics otherwise; with no selector the zone is
      Chicago. */
  function GetTimezone(opts: Opts, catalog: TzCatalog): (r: Outcome<Result<Tz, RizzyError>>)
    ensures r.Value? <==> SelectorCount(opts) <= 1
    ensures opts.nyc && opts.chi ==> r == Panic("cannot use more than one timezone override")
    ensures opts.nyc != opts.chi && opts.zone.Some? ==> r == Panic("cannot supply --zone and an override")
    ensures opts.nyc && SelectorCount(opts) == 1 ==> r == Value(Ok(NewYork))
    ensures opts.chi && SelectorCount(opts) == 1 ==> r == Value(Ok(Chicago))
    ensures opts.zone.Some? && SelectorCount(opts) == 1 ==> r == Value(ParseTimezone(catalog, opts.zone.value))
    ensures SelectorCount(opts) == 0 ==> r == Value(Ok(Chicago))
    ensures r.Value? && r.value.Ok? ==> r.value.value in {NewYork, Chicago} || r.value.value.name in catalog.names
  {
    match opts
    case Opts(true, true, _, _, _, _) => Panic("cannot use more than one timezone override")
    case Opts(true, false, None, _, _, _) => Value(Ok(NewYork))
    case Opts(false, true, None, _, _, _) => Value(Ok(Chicago))
    case Opts(true, false, Some(_), _, _, _) => Panic("cannot supply --zone and an override")
    case Opts(false, true, Some(_), _, _, _) => Panic("cannot supply --zone and an override")
    case Opts(false, false, Some(tzString), _, _, _) => Value(ParseTimezone(catalog, tzString))
    case Opts(false, false, _, _, _, _) => Value(Ok(Chicago))
  }
}
