/** How the two near-identical aggregations, the admin homepage (`Admin.Index`) and the
    staff dashboard (`Views.DashboardView`), agree and where they part, when the
    dashboard's `today` is the calendar day of the homepage's `now`. */
module Comparison {
  import opened Optional
  import opened Models
  import opened IsoDate
  import opened Queries
  import opened Params
  import opened Admin
  import opened Views

  /** On `all`, `daily`, and on `to_date` and `custom_range` with their dates given (parsed
      or not), both report the same number. */
  lemma SameCountOnDayGranularOptions(users: seq<User>, filter: Option<string>, startDateStr: Option<string>,
                                      endDateStr: Option<string>, now: Timestamp)
    requires var option := FilterOption(filter);
             option == "all" || option == "daily"
             || (option == "to_date" && Given(endDateStr))
             || (option == "custom_range" && Given(startDateStr) && Given(endDateStr))
    ensures DashboardView(users, filter, startDateStr, endDateStr, DayOf(now)).usersCount
         == Some(Index(users, filter, startDateStr, endDateStr, now).usersCount)
  {
  }

  /** Where the homepage falls back to the total, the dashboard leaves the count unset. */
  lemma FallbackDiffers(users: seq<User>, filter: Option<string>, startDateStr: Option<string>,
                        endDateStr: Option<string>, now: Timestamp)
    requires NoFilteredBranch(FilterOption(filter), startDateStr, endDateStr) && FilterOption(filter) != "all"
    ensures Index(users, filter, startDateStr, endDateStr, now).usersCount == |users|
    ensures DashboardView(users, filter, startDateStr, endDateStr, DayOf(now)).usersCount == None
  {
  }

  /** A rolling window that starts at an instant lies inside the one that starts at the
      beginning of that instant's day, so the homepage never counts more than the dashboard. */
  lemma RollingWindowWithinDayWindow(users: seq<User>, option: string, startDateStr: Option<string>,
                                     endDateStr: Option<string>, now: Timestamp)
    requires IsRollingWindow(option)
    ensures Index(users, Some(option), startDateStr, endDateStr, now).usersCount
         <= DashboardView(users, Some(option), startDateStr, endDateStr, DayOf(now)).usersCount.value
  {
    var days := RollingWindowDays(option);
    var byInstant := CreatedAtOrAfter(now - days * SecondsPerDay);
    var byDay := CreatedOnOrAfterDate(DayOf(now) - days);
    forall i | 0 <= i < |users| && Matches(byInstant, users[i]) ensures Matches(byDay, users[i]) {
      var t := users[i].createdAt.value;
      assert DayOf(now) * SecondsPerDay <= now;
      assert (DayOf(t) + 1) * SecondsPerDay > t;
    }
    CountMonotone(users, byInstant, users, byDay);
  }

  /** The two rolling windows do differ: unless `now` is exactly midnight, a user created at
      the first instant of the window's first day is counted by the dashboard and not by the
      homepage. */
  lemma RollingWindowsDisagree(u: User, option: string, startDateStr: Option<string>,
                               endDateStr: Option<string>, now: Timestamp)
    requires IsRollingWindow(option)
    requires now % SecondsPerDay != 0
    requires u.createdAt == Some((DayOf(now) - RollingWindowDays(option)) * SecondsPerDay)
    ensures Index([u], Some(option), startDateStr, endDateStr, now).usersCount == 0
    ensures DashboardView([u], Some(option), startDateStr, endDateStr, DayOf(now)).usersCount == Some(1)
  {
    var days := RollingWindowDays(option);
    var t := u.createdAt.value;
    assert DayOf(t) == DayOf(now) - days;
    assert t < now - days * SecondsPerDay;
    CountSingle(u, CreatedAtOrAfter(now - days * SecondsPerDay));
    CountSingle(u, CreatedOnOrAfterDate(DayOf(now) - days));
  }

  /** The dashboard shows the same numbers before and after any bulk action. */
  lemma UpdateKeepsDashboard(rows: seq<User>, selected: set<int>, status: Status, until: Option<Timestamp>,
                             filter: Option<string>, startDateStr: Option<string>, endDateStr: Option<string>, today: int)
    ensures DashboardView(UpdateSelected(rows, selected, status, until), filter, startDateStr, endDateStr, today)
         == DashboardView(rows, filter, startDateStr, endDateStr, today)
  {
    var option := FilterOption(filter);
    if option == "daily" {
      CountUnchangedByUpdate(rows, selected, status, until, CreatedOnDate(today));
    } else if IsRollingWindow(option) {
      CountUnchangedByUpdate(rows, selected, status, until, CreatedOnOrAfterDate(today - RollingWindowDays(option)));
    } else if option == "to_date" && Given(endDateStr) {
      var endDate := ParseIsoDate(endDateStr.value);
      if endDate.Some? {
        CountUnchangedByUpdate(rows, selected, status, until, CreatedOnOrBeforeDate(EpochDay(endDate.value)));
      }
    } else if option == "custom_range" && Given(startDateStr) && Given(endDateStr) {
      var startDate, endDate := ParseIsoDate(startDateStr.value), ParseIsoDate(endDateStr.value);
      if startDate.Some? && endDate.Some? {
        CountUnchangedByUpdate(rows, selected, status, until,
                               CreatedInDateRange(EpochDay(startDate.value), EpochDay(endDate.value)));
      }
    }
  }
}
