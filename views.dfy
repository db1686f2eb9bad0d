/** `admin_app/views.py`: the staff dashboard's user counts (`dashboard_view`). */
module Views {
  import opened Optional
  import opened Models
  import opened IsoDate
  import opened Queries
  import opened Params

  /** The values `dashboard_view` hands to its template. */
  datatype DashboardContext = DashboardContext(
    totalUsers: nat,
    filterOption: string,
    usersCount: Option<nat>,
    startDateStr: Option<string>,
    endDateStr: Option<string>)

  /** `dashboard_view`, with `today` the day number (days since 1970-01-01) of
      `date.today()`. The count starts out unset (`None`) and only a recognised option with
      the dates it needs sets it; windows compare calendar days, not instants; a date
      string that does not parse sets the count to 0. */
  function DashboardView(users: seq<User>, filter: Option<string>, startDateStr: Option<string>,
                         endDateStr: Option<string>, today: int): (ctx: DashboardContext)
    ensures ctx.totalUsers == |users|
    ensures ctx.usersCount.Some? ==> ctx.usersCount.value <= ctx.totalUsers
    ensures ctx.filterOption == FilterOption(filter)
    ensures ctx.startDateStr == startDateStr && ctx.endDateStr == endDateStr
  {
    var totalUsers := |users|;
    var filterOption := FilterOption(filter);
    var usersCount :=
      if filterOption == "all" then
        Some(totalUsers)
      else if filterOption == "daily" then
        Some(Count(users, CreatedOnDate(today)))
      else if filterOption == "weekly" then
        Some(Count(users, CreatedOnOrAfterDate(today - 7)))
      else if filterOption == "monthly" then
        Some(Count(users, CreatedOnOrAfterDate(today - 30)))
      else if filterOption == "yearly" then
        Some(Count(users, CreatedOnOrAfterDate(today - 365)))
      else if filterOption == "to_date" && Given(endDateStr) then
        match ParseIsoDate(endDateStr.value)
        case None => Some(0)
        case Some(endDate) => Some(Count(users, CreatedOnOrBeforeDate(EpochDay(endDate))))
      else if filterOption == "custom_range" && Given(startDateStr) && Given(endDateStr) then
        match ParseIsoDate(startDateStr.value)
        case None => Some(0)
        case Some(startDate) =>
          match ParseIsoDate(endDateStr.value)
          case None => Some(0)
          case Some(endDate) =>
            Some(Count(users, CreatedInDateRange(EpochDay(startDate), EpochDay(endDate))))
      else
        None;
    DashboardContext(totalUsers, filterOption, usersCount, startDateStr, endDateStr)
  }

  /** The count is left unset exactly when the option is unknown or a date it needs is
      absent or empty; `all` always sets it. */
  lemma DashboardUnsetIff(users: seq<User>, filter: Option<string>, startDateStr: Option<string>,
                          endDateStr: Option<string>, today: int)
    ensures DashboardView(users, filter, startDateStr, endDateStr, today).usersCount.None?
        <==> NoFilteredBranch(FilterOption(filter), startDateStr, endDateStr) && FilterOption(filter) != "all"
  {
  }

  /** `all` (also the default when no filter is sent) reports the total. */
  lemma DashboardAllIsTotal(users: seq<User>, filter: Option<string>, startDateStr: Option<string>,
                            endDateStr: Option<string>, today: int)
    requires FilterOption(filter) == "all"
    ensures DashboardView(users, filter, startDateStr, endDateStr, today).usersCount == Some(|users|)
  {
  }

  /** A date string that does not parse sets the count to 0, not to unset. */
  lemma DashboardInvalidDateIsZero(users: seq<User>, filter: Option<string>, startDateStr: Option<string>,
                                   endDateStr: Option<string>, today: int)
    requires FilterOption(filter) == "to_date" || FilterOption(filter) == "custom_range"
    requires Given(endDateStr)
    requires FilterOption(filter) == "custom_range" ==> Given(startDateStr)
    requires ParseIsoDate(endDateStr.value).None?
             || (FilterOption(filter) == "custom_range" && ParseIsoDate(startDateStr.value).None?)
    ensures DashboardView(users, filter, startDateStr, endDateStr, today).usersCount == Some(0)
  {
  }

  /** Whether the count is set does not depend on the table, and when set, the count of a
      table is the sum of the counts of its parts. */
  lemma DashboardAdditive(a: seq<User>, b: seq<User>, filter: Option<string>, startDateStr: Option<string>,
                          endDateStr: Option<string>, today: int)
    ensures DashboardView(a + b, filter, startDateStr, endDateStr, today).usersCount.Some?
        <==> DashboardView(a, filter, startDateStr, endDateStr, today).usersCount.Some?
    ensures DashboardView(a, filter, startDateStr, endDateStr, today).usersCount.Some? ==>
              DashboardView(a + b, filter, startDateStr, endDateStr, today).usersCount.value
              == DashboardView(a, filter, startDateStr, endDateStr, today).usersCount.value
               + DashboardView(b, filter, startDateStr, endDateStr, today).usersCount.value
  {
    var option := FilterOption(filter);
    if option == "daily" {
      CountAppend(a, b, CreatedOnDate(today));
    } else if IsRollingWindow(option) {
      CountAppend(a, b, CreatedOnOrAfterDate(today - RollingWindowDays(option)));
    } else if option == "to_date" && Given(endDateStr) {
      var endDate := ParseIsoDate(endDateStr.value);
      if endDate.Some? {
        CountAppend(a, b, CreatedOnOrBeforeDate(EpochDay(endDate.value)));
      }
    } else if option == "custom_range" && Given(startDateStr) && Given(endDateStr) {
      var startDate, endDate := ParseIsoDate(startDateStr.value), ParseIsoDate(endDateStr.value);
      if startDate.Some? && endDate.Some? {
        CountAppend(a, b, CreatedInDateRange(EpochDay(startDate.value), EpochDay(endDate.value)));
      }
    }
  }

  /** `daily` counts a user exactly when it was created on day `today`. */
  lemma DashboardDailyOneUser(u: User, startDateStr: Option<string>, endDateStr: Option<string>, today: int)
    ensures DashboardView([u], Some("daily"), startDateStr, endDateStr, today).usersCount == Some(1)
        <==> u.createdAt.Some? && DayOf(u.createdAt.value) == today
  {
    CountSingle(u, CreatedOnDate(today));
  }

  /** `weekly`, `monthly` and `yearly` count a user exactly when its creation day is on or
      after `today` minus 7, 30 or 365 days: the whole first day of the window is included,
      whatever the time of day. */
  lemma DashboardRollingWindowOneUser(u: User, option: string, startDateStr: Option<string>,
                                      endDateStr: Option<string>, today: int)
    requires IsRollingWindow(option)
    ensures DashboardView([u], Some(option), startDateStr, endDateStr, today).usersCount == Some(1)
        <==> u.createdAt.Some? && DayOf(u.createdAt.value) >= today - RollingWindowDays(option)
  {
    CountSingle(u, CreatedOnOrAfterDate(today - RollingWindowDays(option)));
  }

  /** `to_date` counts a user exactly when its creation day is on or before `end_date`. */
  lemma DashboardToDateOneUser(u: User, startDateStr: Option<string>, endDateStr: Option<string>, today: int)
    requires Given(endDateStr) && ParseIsoDate(endDateStr.value).Some?
    ensures DashboardView([u], Some("to_date"), startDateStr, endDateStr, today).usersCount == Some(1)
        <==> u.createdAt.Some?
             && DayOf(u.createdAt.value) <= EpochDay(ParseIsoDate(endDateStr.value).value)
  {
    CountSingle(u, CreatedOnOrBeforeDate(EpochDay(ParseIsoDate(endDateStr.value).value)));
  }

  /** `custom_range` counts a user exactly when its creation day lies in
      `[start_date, end_date]`, both ends included. */
  lemma DashboardCustomRangeOneUser(u: User, startDateStr: Option<string>, endDateStr: Option<string>, today: int)
    requires Given(startDateStr) && ParseIsoDate(startDateStr.value).Some?
    requires Given(endDateStr) && ParseIsoDate(endDateStr.value).Some?
    ensures DashboardView([u], Some("custom_range"), startDateStr, endDateStr, today).usersCount == Some(1)
        <==> u.createdAt.Some?
             && EpochDay(ParseIsoDate(startDateStr.value).value) <= DayOf(u.createdAt.value)
             && DayOf(u.createdAt.value) <= EpochDay(ParseIsoDate(endDateStr.value).value)
  {
    CountSingle(u, CreatedInDateRange(EpochDay(ParseIsoDate(startDateStr.value).value),
                                      EpochDay(ParseIsoDate(endDateStr.value).value)));
  }

  /** A user without a creation time is counted by `all` only. */
  lemma DashboardUndatedOneUser(u: User, filter: Option<string>, startDateStr: Option<string>,
                                endDateStr: Option<string>, today: int)
    requires u.createdAt.None?
    ensures DashboardView([u], filter, startDateStr, endDateStr, today).usersCount
         == if FilterOption(filter) == "all" then Some(1)
            else if NoFilteredBranch(FilterOption(filter), startDateStr, endDateStr) then None
            else Some(0)
  {
    var option := FilterOption(filter);
    if option == "daily" {
      CountSingle(u, CreatedOnDate(today));
    } else if IsRollingWindow(option) {
      CountSingle(u, CreatedOnOrAfterDate(today - RollingWindowDays(option)));
    } else if option == "to_date" && Given(endDateStr) {
      var endDate := ParseIsoDate(endDateStr.value);
      if endDate.Some? {
        CountSingle(u, CreatedOnOrBeforeDate(EpochDay(endDate.value)));
      }
    } else if option == "custom_range" && Given(startDateStr) && Given(endDateStr) {
      var startDate, endDate := ParseIsoDate(startDateStr.value), ParseIsoDate(endDateStr.value);
      if startDate.Some? && endDate.Some? {
        CountSingle(u, CreatedInDateRange(EpochDay(startDate.value), EpochDay(endDate.value)));
      }
    }
  }

  /** The windows are nested: daily <= weekly <= monthly <= yearly <= all. */
  lemma DashboardWindowsNested(users: seq<User>, startDateStr: Option<string>, endDateStr: Option<string>, today: int)
    ensures DashboardView(users, Some("daily"), startDateStr, endDateStr, today).usersCount.value
         <= DashboardView(users, Some("weekly"), startDateStr, endDateStr, today).usersCount.value
    ensures DashboardView(users, Some("weekly"), startDateStr, endDateStr, today).usersCount.value
         <= DashboardView(users, Some("monthly"), startDateStr, endDateStr, today).usersCount.value
    ensures DashboardView(users, Some("monthly"), startDateStr, endDateStr, today).usersCount.value
         <= DashboardView(users, Some("yearly"), startDateStr, endDateStr, today).usersCount.value
    ensures DashboardView(users, Some("yearly"), startDateStr, endDateStr, today).usersCount.value
         <= DashboardView(users, Some("all"), startDateStr, endDateStr, today).usersCount.value
  {
    CountMonotone(users, CreatedOnDate(today), users, CreatedOnOrAfterDate(today - 7));
    CountMonotone(users, CreatedOnOrAfterDate(today - 7), users, CreatedOnOrAfterDate(today - 30));
    CountMonotone(users, CreatedOnOrAfterDate(today - 30), users, CreatedOnOrAfterDate(today - 365));
  }

  /** A range whose start date comes after its end date counts nobody. */
  lemma DashboardReversedRangeIsZero(users: seq<User>, startDateStr: Option<string>, endDateStr: Option<string>, today: int)
    requires Given(startDateStr) && ParseIsoDate(startDateStr.value).Some?
    requires Given(endDateStr) && ParseIsoDate(endDateStr.value).Some?
    requires Before(ParseIsoDate(endDateStr.value).value, ParseIsoDate(startDateStr.value).value)
    ensures DashboardView(users, Some("custom_range"), startDateStr, endDateStr, today).usersCount == Some(0)
  {
    var startDate, endDate := ParseIsoDate(startDateStr.value).value, ParseIsoDate(endDateStr.value).value;
    OrdinalOrder(endDate, startDate);
    CountExtremes(users, CreatedInDateRange(EpochDay(startDate), EpochDay(endDate)));
  }
}
