/** Timezone values and the name resolver of src/timezones.rs, with the
    error type of src/lib.rs.

chrono_tz's list of zone names and the `auto_correct_n_suggest` dictionary
built over it are outside this model: `TzCatalog` carries the set of names and
the suggestion function as parameters.
 */
module Timezones {
  import opened Wrappers

  /** A zone of the tz database, known by its IANA name. */
  datatype Tz = Tz(name: string)

  const NewYork: Tz := Tz("America/New_York")
  const Chicago: Tz := Tz("America/Chicago")

  /** `RizzyError` (src/lib.rs:6-11). */
  datatype RizzyError =
    | InvalidTimezone(input: string, suggestions: seq<string>)
    | InvalidArg(reason: string)

  /** The names `Tz::from_str` accepts, and the suggestions the dictionary
      offers for any other text (empty when it has none). */
  datatype TzCatalog = TzCatalog(names: set<string>, suggest: string -> seq<string>)

  /** `parse_timezone`: a catalog name gives its zone; anything else is an
      `InvalidTimezone` error carrying the input and the suggestions. */
  function ParseTimezone(catalog: TzCatalog, input: string): (r: Result<Tz, RizzyError>)
    ensures r.Ok? <==> input in catalog.names
    ensures r.Ok? ==> r.value.name == input
    ensures r.Err? ==> r.error.InvalidTimezone? && r.error.input == input
                       && r.error.suggestions == catalog.suggest(input)
  {
    if input in catalog.names then Ok(Tz(input))
    else Err(InvalidTimezone(input, catalog.suggest(input)))
  }
}
