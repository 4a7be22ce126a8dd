/**
 * The town-to-timezone lookup (lib/timezone-helpers.ts): a fixed table of
 * towns and a default for every town it does not list.
 */
module TimezoneHelpers {
  /** The default, which is also the zone of every listed town. */
  const DefaultTimezone: string := "America/Santo_Domingo"

  /** `townTimezones`. */
  const TownTimezones: map<string, string> := map[
    "Cabarete" := "America/Santo_Domingo",
    "Las Terrenas" := "America/Santo_Domingo",
    "Santo Domingo" := "America/Santo_Domingo"
  ]

  /** `townTimezones[town] || default`: the listed zone, unless the town is
      not listed or its zone is the empty string. */
  function TimezoneIn(table: map<string, string>, town: string): (tz: string)
    ensures tz != ""
    ensures town in table && table[town] != "" ==> tz == table[town]
    ensures (town !in table || table[town] == "") ==> tz == DefaultTimezone
  {
    if town in table && table[town] != "" then table[town] else DefaultTimezone
  }

  /** getTownTimezone: the lookup in the fixed table. */
  function GetTownTimezone(town: string): (tz: string)
    ensures tz == DefaultTimezone
  {
    TimezoneIn(TownTimezones, town)
  }

  /** Each listed town maps to Santo Domingo's zone. */
  lemma ListedTowns()
    ensures GetTownTimezone("Cabarete") == "America/Santo_Domingo"
    ensures GetTownTimezone("Las Terrenas") == "America/Santo_Domingo"
    ensures GetTownTimezone("Santo Domingo") == "America/Santo_Domingo"
  {
  }

  /** Keys match exactly: "cabarete" is not listed and takes the default,
      which gives the same zone. */
  lemma LookupIsCaseSensitive()
    ensures "cabarete" !in TownTimezones
    ensures GetTownTimezone("cabarete") == GetTownTimezone("Cabarete")
  {
  }

  /** With a table in which every zone is the default, every town gets the
      default: the lookup is constant in the town. */
  lemma UniformTableIsConstant(table: map<string, string>, town: string)
    requires forall t :: t in table ==> table[t] == DefaultTimezone
    ensures TimezoneIn(table, town) == DefaultTimezone
  {
  }

  /** The fixed table is such a table. */
  lemma FixedTableIsUniform()
    ensures forall t :: t in TownTimezones ==> TownTimezones[t] == DefaultTimezone
  {
  }
}
