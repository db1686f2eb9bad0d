/** The request parameters both aggregations read: `filter` (defaulting to `"all"`),
    and the optional `start_date` and `end_date` strings. */
module Params {
  import opened Optional

  /** `request.GET.get("filter", "all")`. */
  function FilterOption(filter: Option<string>): (option: string)
    ensures filter.None? ==> option == "all"
    ensures filter.Some? ==> option == filter.value
  {
    filter.GetOr("all")
  }

  /** Python truthiness of an optional string (`and end_date_str`): an absent parameter
      and an empty one are false, any other string is true. */
  predicate Given(param: Option<string>)
    ensures param.None? || param == Some("") ==> !Given(param)
    ensures param.Some? && |param.value| > 0 ==> Given(param)
  {
    param.Some? && param.value != ""
  }

  /** The options with a branch of their own in either aggregation. */
  predicate IsKnownOption(option: string) {
    option == "all" || option == "daily" || option == "weekly" || option == "monthly"
    || option == "yearly" || option == "to_date" || option == "custom_range"
  }

  predicate IsRollingWindow(option: string) {
    option == "weekly" || option == "monthly" || option == "yearly"
  }

  /** The length in days of a rolling window (`timedelta(days=…)`). */
  function RollingWindowDays(option: string): (days: int)
    requires IsRollingWindow(option)
    ensures days in {7, 30, 365}
  {
    if option == "weekly" then 7 else if option == "monthly" then 30 else 365
  }

  /** No filtered branch applies: the option is unknown, or it is `"all"`, or a date the
      option needs is absent or empty. */
  predicate NoFilteredBranch(option: string, startDateStr: Option<string>, endDateStr: Option<string>) {
    option == "all"
    || !IsKnownOption(option)
    || (option == "to_date" && !Given(endDateStr))
    || (option == "custom_range" && !(Given(startDateStr) && Given(endDateStr)))
  }
}
