/** `admin_app/admin.py`: the custom admin site's homepage counts (`MyAdminSite.index`)
    and the three bulk moderation actions of `UsersAdmin`. */
module Admin {
  import opened Optional
  import opened Models
  import opened IsoDate
  import opened Queries
  import opened Params

  // ---------------------------------------------------------------------------
  // Homepage aggregation

  /** The values `index` adds to the template context. */
  datatype IndexContext = IndexContext(
    totalUsers: nat,
    usersCount: nat,
    filterOption: string,
    startDateStr: Option<string>,
    endDateStr: Option<string>)

  /** `MyAdminSite.index`: the total number of users and the number created in the window
      the request's `filter` names. The count starts out as the total, so an unknown option
      or a missing date keeps it; a date string `date.fromisoformat` rejects raises
      `ValueError`, which is caught and turns the count into 0. Rolling windows compare the
      creation instant with `now` minus whole days; `daily` compares calendar days. */
  function Index(users: seq<User>, filter: Option<string>, startDateStr: Option<string>,
                 endDateStr: Option<string>, now: Timestamp): (ctx: IndexContext)
    ensures ctx.totalUsers == |users|
    ensures ctx.usersCount <= ctx.totalUsers
    ensures ctx.filterOption == FilterOption(filter)
    ensures ctx.startDateStr == startDateStr && ctx.endDateStr == endDateStr
  {
    var filterOption := FilterOption(filter);
    var totalUsers := |users|;
    var usersCount :=
      if filterOption == "daily" then
        Count(users, CreatedOnDate(DayOf(now)))
      else if filterOption == "weekly" then
        Count(users, CreatedAtOrAfter(now - 7 * SecondsPerDay))
      else if filterOption == "monthly" then
        Count(users, CreatedAtOrAfter(now - 30 * SecondsPerDay))
      else if filterOption == "yearly" then
        Count(users, CreatedAtOrAfter(now - 365 * SecondsPerDay))
      else if filterOption == "to_date" && Given(endDateStr) then
        match ParseIsoDate(endDateStr.value)
        case None => 0
        case Some(endDate) => Count(users, CreatedOnOrBeforeDate(EpochDay(endDate)))
      else if filterOption == "custom_range" && Given(startDateStr) && Given(endDateStr) then
        match ParseIsoDate(startDateStr.value)
        case None => 0
        case Some(startDate) =>
          match ParseIsoDate(endDateStr.value)
          case None => 0
          case Some(endDate) =>
            Count(users, CreatedInDateRange(EpochDay(startDate), EpochDay(endDate)))
      else
        totalUsers;
    IndexContext(totalUsers, usersCount, filterOption, startDateStr, endDateStr)
  }

  /** With no filtered branch to take, the count is the total. */
  lemma IndexUnfilteredIsTotal(users: seq<User>, filter: Option<string>, startDateStr: Option<string>,
                               endDateStr: Option<string>, now: Timestamp)
    requires NoFilteredBranch(FilterOption(filter), startDateStr, endDateStr)
    ensures Index(users, filter, startDateStr, endDateStr, now).usersCount == |users|
  {
  }

  /** A date string that does not parse gives a count of 0, whether or not the other
      date of a range parses; nothing is raised. */
  lemma IndexInvalidDateIsZero(users: seq<User>, filter: Option<string>, startDateStr: Option<string>,
                               endDateStr: Option<string>, now: Timestamp)
    requires FilterOption(filter) == "to_date" || FilterOption(filter) == "custom_range"
    requires Given(endDateStr)
    requires FilterOption(filter) == "custom_range" ==> Given(startDateStr)
    requires ParseIsoDate(endDateStr.value).None?
             || (FilterOption(filter) == "custom_range" && ParseIsoDate(startDateStr.value).None?)
    ensures Index(users, filter, startDateStr, endDateStr, now).usersCount == 0
  {
  }

  /** The count of a table is the sum of the counts of its parts, for every request:
      each user is counted, or not, on its own. */
  lemma IndexAdditive(a: seq<User>, b: seq<User>, filter: Option<string>, startDateStr: Option<string>,
                      endDateStr: Option<string>, now: Timestamp)
    ensures Index(a + b, filter, startDateStr, endDateStr, now).usersCount
         == Index(a, filter, startDateStr, endDateStr, now).usersCount
          + Index(b, filter, startDateStr, endDateStr, now).usersCount
  {
    var option := FilterOption(filter);
    if option == "daily" {
      CountAppend(a, b, CreatedOnDate(DayOf(now)));
    } else if IsRollingWindow(option) {
      CountAppend(a, b, CreatedAtOrAfter(now - RollingWindowDays(option) * SecondsPerDay));
    } else if option == "to_date" && Given(endDateStr) {
      var endDate := ParseIsoDate(endDateStr.value);
      if endDate.Some? {
        CountAppend(a, b, CreatedOnOrBeforeDate(EpochDay(endDate.value)));
      }
    } else if option == "custom_range" && Given(startDateStr) && Given(endDateStr) {
      var startDate, endDate := ParseIsoDate(startDateStr.value), ParseIsoDate(endDateStr.value);
      if startDate.Some? && endDate.Some? {
        CountAppend(a, b, CreatedInDateRange(EpochDay(startDate.value), EpochDay(endDate.value)));
      }
    }
  }

  /** `daily` counts a user exactly when it was created on the calendar day of `now`. */
  lemma IndexDailyOneUser(u: User, startDateStr: Option<string>, endDateStr: Option<string>, now: Timestamp)
    ensures Index([u], Some("daily"), startDateStr, endDateStr, now).usersCount == 1
        <==> u.createdAt.Some? && DayOf(u.createdAt.value) == DayOf(now)
  {
    CountSingle(u, CreatedOnDate(DayOf(now)));
  }

  /** `weekly`, `monthly` and `yearly` count a user exactly when it was created at or after
      the instant `now` minus 7, 30 or 365 days: the boundary instant is included, the one
      before it is not. */
  lemma IndexRollingWindowOneUser(u: User, option: string, startDateStr: Option<string>,
                                  endDateStr: Option<string>, now: Timestamp)
    requires IsRollingWindow(option)
    ensures Index([u], Some(option), startDateStr, endDateStr, now).usersCount == 1
        <==> u.createdAt.Some? && u.createdAt.value >= now - RollingWindowDays(option) * SecondsPerDay
  {
    CountSingle(u, CreatedAtOrAfter(now - RollingWindowDays(option) * SecondsPerDay));
  }

  /** `to_date` counts a user exactly when its creation day is on or before `end_date`. */
  lemma IndexToDateOneUser(u: User, startDateStr: Option<string>, endDateStr: Option<string>, now: Timestamp)
    requires Given(endDateStr) && ParseIsoDate(endDateStr.value).Some?
    ensures Index([u], Some("to_date"), startDateStr, endDateStr, now).usersCount == 1
        <==> u.createdAt.Some?
             && DayOf(u.createdAt.value) <= EpochDay(ParseIsoDate(endDateStr.value).value)
  {
    CountSingle(u, CreatedOnOrBeforeDate(EpochDay(ParseIsoDate(endDateStr.value).value)));
  }

  /** `custom_range` counts a user exactly when its creation day lies in
      `[start_date, end_date]`, both ends included. */
  lemma IndexCustomRangeOneUser(u: User, startDateStr: Option<string>, endDateStr: Option<string>, now: Timestamp)
    requires Given(startDateStr) && ParseIsoDate(startDateStr.value).Some?
    requires Given(endDateStr) && ParseIsoDate(endDateStr.value).Some?
    ensures Index([u], Some("custom_range"), startDateStr, endDateStr, now).usersCount == 1
        <==> u.createdAt.Some?
             && EpochDay(ParseIsoDate(startDateStr.value).value) <= DayOf(u.createdAt.value)
             && DayOf(u.createdAt.value) <= EpochDay(ParseIsoDate(endDateStr.value).value)
  {
    CountSingle(u, CreatedInDateRange(EpochDay(ParseIsoDate(startDateStr.value).value),
                                      EpochDay(ParseIsoDate(endDateStr.value).value)));
  }

  /** A user without a creation time is counted only when no filtered branch is taken,
      that is, only as part of the total. */
  lemma IndexUndatedOneUser(u: User, filter: Option<string>, startDateStr: Option<string>,
                            endDateStr: Option<string>, now: Timestamp)
    requires u.createdAt.None?
    ensures Index([u], filter, startDateStr, endDateStr, now).usersCount
         == if NoFilteredBranch(FilterOption(filter), startDateStr, endDateStr) then 1 else 0
  {
    var option := FilterOption(filter);
    if option == "daily" {
      CountSingle(u, CreatedOnDate(DayOf(now)));
    } else if IsRollingWindow(option) {
      CountSingle(u, CreatedAtOrAfter(now - RollingWindowDays(option) * SecondsPerDay));
    } else if option == "to_date" && Given(endDateStr) {
      var endDate := ParseIsoDate(endDateStr.value);
      if endDate.Some? {
        CountSingle(u, CreatedOnOrBeforeDate(EpochDay(endDate.value)));
      }
    } else if option == "custom_range" && Given(startDateStr) && Given(endDateStr) {
      var startDate, endDate := ParseIsoDate(startDateStr.value), ParseIsoDate(endDateStr.value);
      if startDate.Some? && endDate.Some? {
        CountSingle(u, CreatedInDateRange(EpochDay(startDate.value), EpochDay(endDate.value)));
      }
    }
  }

  /** The windows are nested: daily <= weekly <= monthly <= yearly <= total. */
  lemma IndexWindowsNested(users: seq<User>, startDateStr: Option<string>, endDateStr: Option<string>, now: Timestamp)
    ensures Index(users, Some("daily"), startDateStr, endDateStr, now).usersCount
         <= Index(users, Some("weekly"), startDateStr, endDateStr, now).usersCount
    ensures Index(users, Some("weekly"), startDateStr, endDateStr, now).usersCount
         <= Index(users, Some("monthly"), startDateStr, endDateStr, now).usersCount
    ensures Index(users, Some("monthly"), startDateStr, endDateStr, now).usersCount
         <= Index(users, Some("yearly"), startDateStr, endDateStr, now).usersCount
    ensures Index(users, Some("yearly"), startDateStr, endDateStr, now).usersCount <= |users|
  {
    var today := CreatedOnDate(DayOf(now));
    var week := CreatedAtOrAfter(now - 7 * SecondsPerDay);
    var month := CreatedAtOrAfter(now - 30 * SecondsPerDay);
    var year := CreatedAtOrAfter(now - 365 * SecondsPerDay);
    forall i | 0 <= i < |users| && Matches(today, users[i]) ensures Matches(week, users[i]) {
      var t := users[i].createdAt.value;
      assert DayOf(t) == DayOf(now);
    }
    CountMonotone(users, today, users, week);
    CountMonotone(users, week, users, month);
    CountMonotone(users, month, users, year);
  }

  /** A range whose start date comes after its end date counts nobody. */
  lemma IndexReversedRangeIsZero(users: seq<User>, startDateStr: Option<string>, endDateStr: Option<string>, now: Timestamp)
    requires Given(startDateStr) && ParseIsoDate(startDateStr.value).Some?
    requires Given(endDateStr) && ParseIsoDate(endDateStr.value).Some?
    requires Before(ParseIsoDate(endDateStr.value).value, ParseIsoDate(startDateStr.value).value)
    ensures Index(users, Some("custom_range"), startDateStr, endDateStr, now).usersCount == 0
  {
    var startDate, endDate := ParseIsoDate(startDateStr.value).value, ParseIsoDate(endDateStr.value).value;
    OrdinalOrder(endDate, startDate);
    CountExtremes(users, CreatedInDateRange(EpochDay(startDate), EpochDay(endDate)));
  }

  /** A range never counts more than `to_date` with the same end date. */
  lemma IndexRangeWithinToDate(users: seq<User>, startDateStr: Option<string>, endDateStr: Option<string>, now: Timestamp)
    requires Given(startDateStr) && Given(endDateStr)
    ensures Index(users, Some("custom_range"), startDateStr, endDateStr, now).usersCount
         <= Index(users, Some("to_date"), startDateStr, endDateStr, now).usersCount
  {
    var startDate, endDate := ParseIsoDate(startDateStr.value), ParseIsoDate(endDateStr.value);
    if startDate.Some? && endDate.Some? {
      CountMonotone(users, CreatedInDateRange(EpochDay(startDate.value), EpochDay(endDate.value)),
                    users, CreatedOnOrBeforeDate(EpochDay(endDate.value)));
    }
  }

  // ---------------------------------------------------------------------------
  // Bulk moderation actions

  const SuspensionDays: int := 30

  /** The columns a bulk action leaves alone are equal in `u` and `v`. */
  predicate SameProfile(u: User, v: User) {
    u.id == v.id && u.phoneNumber == v.phoneNumber && u.name == v.name && u.age == v.age
    && u.location == v.location && u.interests == v.interests
    && u.personalFacts == v.personalFacts && u.createdAt == v.createdAt
  }

  /** The table after `filter(pk__in=selected).update(status=status, suspended_until=until)`:
      the selected rows take the new status and suspension end and keep every other
      column; the other rows are untouched. */
  function UpdateSelected(rows: seq<User>, selected: set<int>, status: Status, until: Option<Timestamp>): (r: seq<User>)
    ensures |r| == |rows|
    ensures forall i :: 0 <= i < |rows| && rows[i].id in selected ==>
      r[i].status == status && r[i].suspendedUntil == until && SameProfile(r[i], rows[i])
    ensures forall i :: 0 <= i < |rows| && rows[i].id !in selected ==> r[i] == rows[i]
  {
    seq(|rows|, i requires 0 <= i < |rows| =>
      if rows[i].id in selected then rows[i].(status := status, suspendedUntil := until) else rows[i])
  }

  /** An update keeps the keys, so it keeps them unique. */
  lemma UpdateKeepsKeys(rows: seq<User>, selected: set<int>, status: Status, until: Option<Timestamp>)
    requires UniqueKeys(rows)
    ensures UniqueKeys(UpdateSelected(rows, selected, status, until))
    ensures Ids(UpdateSelected(rows, selected, status, until)) == Ids(rows)
  {
    var r := UpdateSelected(rows, selected, status, until);
    assert forall i :: 0 <= i < |rows| ==> r[i].id == rows[i].id && r[i].phoneNumber == rows[i].phoneNumber;
  }

  /** Dropping the last row keeps the keys unique, and the dropped key is not among the rest. */
  lemma UniqueKeysInit(rows: seq<User>)
    requires UniqueKeys(rows) && rows != []
    ensures UniqueKeys(rows[..|rows| - 1])
    ensures rows[|rows| - 1].id !in Ids(rows[..|rows| - 1])
  {
    var n := |rows| - 1;
    var init := rows[..n];
    forall i, j | 0 <= i < j < |init| ensures init[i].id != init[j].id && init[i].phoneNumber != init[j].phoneNumber {
      assert init[i] == rows[i] && init[j] == rows[j];
    }
    assert forall k :: 0 <= k < |init| ==> init[k].id != rows[n].id;
  }

  lemma SelectedGrows(selected: set<int>, ids: set<int>, x: int)
    requires x !in ids
    ensures |selected * (ids + {x})| == |selected * ids| + (if x in selected then 1 else 0)
  {
    if x in selected {
      assert selected * (ids + {x}) == selected * ids + {x};
    } else {
      assert selected * (ids + {x}) == selected * ids;
    }
  }

  /** The number an update reports is the number of selected keys present in the table;
      for a selection drawn from the table, the size of the selection. */
  lemma {:induction false} UpdatedCountIsSelectionSize(rows: seq<User>, selected: set<int>)
    requires UniqueKeys(rows)
    ensures Count(rows, IdIn(selected)) == |selected * Ids(rows)|
    ensures selected <= Ids(rows) ==> Count(rows, IdIn(selected)) == |selected|
  {
    if rows != [] {
      var n := |rows| - 1;
      var init := rows[..n];
      UniqueKeysInit(rows);
      UpdatedCountIsSelectionSize(init, selected);
      assert Ids(rows) == Ids(init) + {rows[n].id};
      assert Count(rows, IdIn(selected)) == Count(init, IdIn(selected)) + (if rows[n].id in selected then 1 else 0);
      SelectedGrows(selected, Ids(init), rows[n].id);
    }
    if selected <= Ids(rows) {
      assert selected * Ids(rows) == selected;
    }
  }

  /** Activating the users just suspended gives the same table as activating them
      directly: the suspension end is cleared. */
  lemma ActivateAfterSuspend(rows: seq<User>, selected: set<int>, until: Timestamp)
    ensures UpdateSelected(UpdateSelected(rows, selected, Suspended, Some(until)), selected, Active, None)
         == UpdateSelected(rows, selected, Active, None)
  {
    var suspended := UpdateSelected(rows, selected, Suspended, Some(until));
    assert forall i :: 0 <= i < |rows| ==> suspended[i].id == rows[i].id;
  }

  /** Repeating an action changes nothing more. */
  lemma UpdateIdempotent(rows: seq<User>, selected: set<int>, status: Status, until: Option<Timestamp>)
    ensures UpdateSelected(UpdateSelected(rows, selected, status, until), selected, status, until)
         == UpdateSelected(rows, selected, status, until)
  {
    var once := UpdateSelected(rows, selected, status, until);
    assert forall i :: 0 <= i < |rows| ==> once[i].id == rows[i].id;
  }

  /** Each of the three actions keeps `suspended_until` null on every user that is not suspended. */
  lemma UpdateKeepsSuspensionConsistent(rows: seq<User>, selected: set<int>, status: Status, until: Option<Timestamp>)
    requires status == Suspended || until.None?
    requires forall i :: 0 <= i < |rows| ==> SuspensionConsistent(rows[i])
    ensures forall i :: 0 <= i < |rows| ==> SuspensionConsistent(UpdateSelected(rows, selected, status, until)[i])
  {
  }

  /** A bulk action never touches `created_at`, so no date lookup counts differently after it. */
  lemma CountUnchangedByUpdate(rows: seq<User>, selected: set<int>, status: Status, until: Option<Timestamp>, q: Lookup)
    requires !q.IdIn?
    ensures Count(UpdateSelected(rows, selected, status, until), q) == Count(rows, q)
  {
    var r := UpdateSelected(rows, selected, status, until);
    assert forall i :: 0 <= i < |rows| ==> r[i].createdAt == rows[i].createdAt;
    CountMonotone(r, q, rows, q);
    CountMonotone(rows, q, r, q);
  }

  /** The homepage shows the same numbers before and after any bulk action. */
  lemma UpdateKeepsIndex(rows: seq<User>, selected: set<int>, status: Status, until: Option<Timestamp>,
                         filter: Option<string>, startDateStr: Option<string>, endDateStr: Option<string>, now: Timestamp)
    ensures Index(UpdateSelected(rows, selected, status, until), filter, startDateStr, endDateStr, now)
         == Index(rows, filter, startDateStr, endDateStr, now)
  {
    var option := FilterOption(filter);
    if option == "daily" {
      CountUnchangedByUpdate(rows, selected, status, until, CreatedOnDate(DayOf(now)));
    } else if IsRollingWindow(option) {
      CountUnchangedByUpdate(rows, selected, status, until, CreatedAtOrAfter(now - RollingWindowDays(option) * SecondsPerDay));
    } else if option == "to_date" && Given(endDateStr) {
      var endDate := ParseIsoDate(endDateStr.value);
      if endDate.Some? {
        CountUnchangedByUpdate(rows, selected, status, until, CreatedOnOrBeforeDate(EpochDay(endDate.value)));
      }
    } else if option == "custom_range" && Given(startDateStr) && Given(endDateStr) {
      var startDate, endDate := ParseIsoDate(startDateStr.value), ParseIsoDate(endDateStr.value);
      if startDate.Some? && endDate.Some? {
        CountUnchangedByUpdate(rows, selected, status, until,
                               CreatedInDateRange(EpochDay(startDate.value), EpochDay(endDate.value)));
      }
    }
  }

  /** `UsersAdmin` acting on the `users` table. The table is updated in place; it never
      gains or loses a row. */
  class UsersAdmin {
    const users: array<User>

    ghost predicate Valid()
      reads users
    {
      UniqueKeys(users[..])
    }

    constructor (rows: seq<User>)
      requires UniqueKeys(rows)
      ensures Valid() && fresh(users) && users[..] == rows
    {
      users := new User[|rows|](i requires 0 <= i < |rows| => rows[i]);
    }

    /** `queryset.update(status=status, suspended_until=until)` over the rows whose key is
        selected, as one set-based statement; returns the number of rows matched. */
    method UpdateSelection(selected: set<int>, status: Status, until: Option<Timestamp>) returns (updated: nat)
      requires Valid()
      modifies users
      ensures Valid()
      ensures users[..] == UpdateSelected(old(users[..]), selected, status, until)
      ensures updated == Count(old(users[..]), IdIn(selected))
    {
      updated := Count(users[..], IdIn(selected));
      ghost var before := users[..];
      forall i | 0 <= i < users.Length && users[i].id in selected {
        users[i] := users[i].(status := status, suspendedUntil := until);
      }
      assert users[..] == UpdateSelected(before, selected, status, until);
      UpdateKeepsKeys(before, selected, status, until);
    }

    /** `make_active`: the selected users become Active with no suspension end. */
    method MakeActive(selected: set<int>) returns (updated: nat)
      requires Valid()
      modifies users
      ensures Valid()
      ensures users[..] == UpdateSelected(old(users[..]), selected, Active, None)
      ensures updated == Count(old(users[..]), IdIn(selected))
    {
      updated := UpdateSelection(selected, Active, None);
    }

    /** `suspend_for_30_days`: the selected users become Suspended until `now` plus 30 days,
        all with the same end instant. */
    method SuspendFor30Days(selected: set<int>, now: Timestamp) returns (updated: nat)
      requires Valid()
      modifies users
      ensures Valid()
      ensures users[..] == UpdateSelected(old(users[..]), selected, Suspended, Some(now + SuspensionDays * SecondsPerDay))
      ensures updated == Count(old(users[..]), IdIn(selected))
    {
      var until := now + SuspensionDays * SecondsPerDay;
      updated := UpdateSelection(selected, Suspended, Some(until));
    }

    /** `block_users`: the selected users become Blocked with no suspension end. */
    method BlockUsers(selected: set<int>) returns (updated: nat)
      requires Valid()
      modifies users
      ensures Valid()
      ensures users[..] == UpdateSelected(old(users[..]), selected, Blocked, None)
      ensures updated == Count(old(users[..]), IdIn(selected))
    {
      updated := UpdateSelection(selected, Blocked, None);
    }
  }
}
