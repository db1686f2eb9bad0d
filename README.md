# Nudge back-office: user counts and bulk moderation, in Dafny

This project models the part of the Nudge administrative back-office that makes
decisions: the date-windowed user counts on the custom admin site's homepage
(`MyAdminSite.index`) and on the staff dashboard (`dashboard_view`), and the three bulk
moderation actions on users (`make_active`, `suspend_for_30_days`, `block_users`).

- `optional.dfy` — `Option`, for Python's `None` and absent request parameters.
- `models.dfy` — a `users` row (`User`), the status codes Active=1, Suspended=2,
  Blocked=3, instants as integer seconds since the Unix epoch (UTC) and their calendar
  day (`DayOf`).
- `iso_date.dfy` — calendar dates, the strict `YYYY-MM-DD` form that
  `date.fromisoformat` reads, and the proleptic Gregorian day number (`date.toordinal`)
  that lets a date be compared with the day of an instant.
- `queries.dfy` — the ORM lookups the core issues (`created_at__date`,
  `created_at__gte`, `created_at__date__gte`, `created_at__date__lte`,
  `created_at__date__range`, `pk__in`) and `.count()`.
- `params.dfy` — the request parameters `filter`, `start_date`, `end_date`.
- `admin.dfy` — `MyAdminSite.index` as the function `Admin.Index`; the `users` table
  as the class `Admin.UsersAdmin` over an array, whose bulk actions rewrite the selected
  rows in place with one set-based `forall` statement and return the number of rows
  matched, specified by the function `Admin.UpdateSelected`.
- `views.dfy` — `dashboard_view` as the function `Views.DashboardView`.
- `comparison.dfy` — where the two aggregations agree and where they differ.

Both aggregations are pure functions of the user table, the request parameters and the
clock reading, which is a parameter: `now` (an instant) for the homepage, `today` (a day
number) for the dashboard. A count is characterised by two facts proved for every
request: it is additive over concatenated tables (`IndexAdditive`,
`DashboardAdditive`), and the one-user lemmas say exactly which single user it counts.

The two aggregations differ from each other in four ways; the model follows the code:

- An unrecognised `filter` keeps the total on the homepage (admin_app/admin.py:69);
  the dashboard leaves the count unset, `None` (admin_app/views.py:9).
- The homepage's rolling windows compare the creation instant with `now` minus whole
  days (`created_at__gte`, admin_app/admin.py:76-90); the dashboard's compare calendar
  days with `today` minus whole days (`created_at__date__gte`, admin_app/views.py:21-29).
- `all` is a branch of its own on the dashboard (admin_app/views.py:17-18); on the
  homepage it is one of the values that keep the initial total.
- A date that does not parse gives 0 on both pages, but the homepage catches the error
  around the whole chain of branches (admin_app/admin.py:71-104) while the dashboard
  catches it in each date branch (admin_app/views.py:31-35, 37-42); on the dashboard
  a date branch therefore always sets the count, `Some(0)` at worst, never `None`.

## Model

| member | source | states |
|---|---|---|
| `Models.DayOf` | admin_app/admin.py:73-74 | the calendar day of an instant is the unique day `d` with `d * 86400 <= t < (d + 1) * 86400` |
| `Models.StatusOfCode` | admin_app/models.py:49-57 | exactly the codes 1, 2, 3 name a status, and the status read back has that code |
| `Models.StatusCodeRoundTrip` | admin_app/models.py:49-57 | each status is read back from its own code |
| `Params.FilterOption` | admin_app/views.py:11 | the filter option defaults to `"all"` when the `filter` parameter is absent |
| `IsoDate.ParseIsoDate` | admin_app/admin.py:92 | a string is accepted only if it has length 10 and names a date that exists (year 1 to 9999, month 1 to 12, day within the month, leap years included) |
| `IsoDate.ParseFormat` | admin_app/admin.py:97-98 | every valid date written as `YYYY-MM-DD` parses back to itself |
| `IsoDate.FormatParse` | admin_app/admin.py:97-98 | the parser is strict: any string it accepts is the canonical `YYYY-MM-DD` form of the date it returns |
| `IsoDate.OrdinalOrder` | admin_app/admin.py:94 | comparing day numbers is comparing dates field by field, in both directions, and equal day numbers mean equal dates |
| `IsoDate.EpochDayNext` | admin_app/admin.py:94 | consecutive calendar dates get consecutive day numbers, so comparing a date's number with an instant's day compares calendar dates day for day |
| `IsoDate.NextDayIsNext` | admin_app/admin.py:100 | no date lies strictly between a date and the day after it |
| `IsoDate.EpochDayAnchors` | admin_app/views.py:33 | the day numbers are on the Unix-day scale of `DayOf`: 1970-01-01 is 0, 2000-01-01 is 10957, 2024-03-01 is 19783 |
| `Queries.Count` | admin_app/admin.py:73-75 | a count never exceeds the number of rows |
| `Queries.CountIsMatchingPositions` | admin_app/admin.py:99-101 | the count equals the number of positions whose row satisfies the lookup |
| `Queries.CountExtremes` | admin_app/admin.py:99-101 | the count is 0 exactly when no row matches and the table size exactly when every row matches |
| `Queries.CountAppend` | admin_app/admin.py:73-75 | counting a concatenation adds the counts of its parts |
| `Queries.CountMonotone` | admin_app/admin.py:76-90 | a lookup implied row by row by another counts at least as many rows |
| `Queries.Matches` | admin_app/admin.py:73-100 | models the lookups `created_at__date`, `created_at__gte`, `created_at__date__gte`, `created_at__date__lte` and `created_at__date__range` (both ends included), plus the primary-key selection a bulk action receives; as in SQL, a null `created_at` satisfies no date lookup |
| `Params.Given` | admin_app/admin.py:91-96 | the truthiness test `and end_date_str`: an absent or empty parameter is false, any other string true |
| `Admin.Index` | admin_app/admin.py:63-112 | `total_users` is the table size for every request; `users_count` never exceeds it; the defaulted option and both date strings are echoed unchanged |
| `Admin.IndexUnfilteredIsTotal` | admin_app/admin.py:69 | an unknown option, `all`, `to_date` without `end_date`, or `custom_range` missing a date reports the total |
| `Admin.IndexInvalidDateIsZero` | admin_app/admin.py:102-104 | a required date that does not parse gives 0 with no error, even when the other date of the range parses |
| `Admin.IndexAdditive` | admin_app/admin.py:71-104 | for every request the count of a concatenated table is the sum of the counts of its parts |
| `Admin.IndexDailyOneUser` | admin_app/admin.py:72-75 | `daily` counts a user if and only if it was created on the calendar day of `now` |
| `Admin.IndexRollingWindowOneUser` | admin_app/admin.py:76-90 | `weekly`/`monthly`/`yearly` count a user if and only if it was created at or after `now` minus 7/30/365 days, so the boundary instant is included and the one before excluded |
| `Admin.IndexToDateOneUser` | admin_app/admin.py:91-95 | `to_date` counts a user if and only if its creation day is on or before `end_date` |
| `Admin.IndexCustomRangeOneUser` | admin_app/admin.py:96-101 | `custom_range` counts a user if and only if its creation day is within `[start_date, end_date]`, both ends included |
| `Admin.IndexUndatedOneUser` | admin_app/admin.py:69-101 | a user with null `created_at` is counted only when no filtered branch applies |
| `Admin.IndexWindowsNested` | admin_app/admin.py:72-90 | daily <= weekly <= monthly <= yearly <= total |
| `Admin.IndexReversedRangeIsZero` | admin_app/admin.py:96-101 | a range whose start date is after its end date counts nobody |
| `Admin.IndexRangeWithinToDate` | admin_app/admin.py:91-101 | a range never counts more than `to_date` with the same end date |
| `Admin.UpdateSelected` | admin_app/admin.py:19 | a set-based update gives the selected rows the new status and suspension end, keeps their other columns, and leaves unselected rows as they were |
| `Admin.UpdateKeepsKeys` | admin_app/admin.py:19 | a bulk update keeps the keys, and so keeps them unique |
| `Admin.UpdatedCountIsSelectionSize` | admin_app/admin.py:24 | the number reported is the number of selected keys present in the table, which is the selection size when the selection comes from the table |
| `Admin.ActivateAfterSuspend` | admin_app/admin.py:18-24 | making suspended users active gives the same table as activating them directly, so `suspended_until` is cleared |
| `Admin.UpdateIdempotent` | admin_app/admin.py:27-28 | repeating a bulk action changes nothing further |
| `Admin.UpdateKeepsSuspensionConsistent` | admin_app/admin.py:18-29 | after any of the three actions every user that is not suspended still has a null `suspended_until` |
| `Admin.CountUnchangedByUpdate` | admin_app/admin.py:19 | a bulk action changes no count by creation date |
| `Admin.UpdateKeepsIndex` | admin_app/admin.py:18-29 | the homepage reports the same numbers before and after any bulk action |
| `Admin.UsersAdmin.UpdateSelection` | admin_app/admin.py:19 | updates the table in place to `UpdateSelected` of its old rows, keeps keys unique, and returns the number of rows matched |
| `Admin.UsersAdmin.MakeActive` | admin_app/admin.py:18-19 | every selected user becomes Active with null `suspended_until`; no other row or column changes; returns the rows matched |
| `Admin.UsersAdmin.SuspendFor30Days` | admin_app/admin.py:22-24 | every selected user becomes Suspended with the same `suspended_until`, `now` plus 30 days; no other row or column changes; returns the rows matched |
| `Admin.UsersAdmin.BlockUsers` | admin_app/admin.py:27-28 | every selected user becomes Blocked with null `suspended_until`; no other row or column changes; returns the rows matched |
| `Views.DashboardView` | admin_app/views.py:7-50 | `total_users` is the table size for every request; a count that is set never exceeds it; the defaulted option and both date strings are echoed unchanged |
| `Views.DashboardUnsetIff` | admin_app/views.py:9 | the count is unset if and only if the option is unknown, or `to_date` lacks `end_date`, or `custom_range` lacks a date |
| `Views.DashboardAllIsTotal` | admin_app/views.py:17-18 | `all` reports the total |
| `Views.DashboardInvalidDateIsZero` | admin_app/views.py:30-42 | a required date that does not parse sets the count to 0, not unset |
| `Views.DashboardAdditive` | admin_app/views.py:17-42 | whether the count is set does not depend on the table, and a set count of a concatenated table is the sum of the counts of its parts |
| `Views.DashboardDailyOneUser` | admin_app/views.py:19-20 | `daily` counts a user if and only if it was created on day `today` |
| `Views.DashboardRollingWindowOneUser` | admin_app/views.py:21-29 | `weekly`/`monthly`/`yearly` count a user if and only if its creation day is on or after `today` minus 7/30/365 days |
| `Views.DashboardToDateOneUser` | admin_app/views.py:30-33 | `to_date` counts a user if and only if its creation day is on or before `end_date` |
| `Views.DashboardCustomRangeOneUser` | admin_app/views.py:36-40 | `custom_range` counts a user if and only if its creation day is within `[start_date, end_date]`, both ends included |
| `Views.DashboardUndatedOneUser` | admin_app/views.py:17-42 | a user with null `created_at` is counted by `all` only |
| `Views.DashboardWindowsNested` | admin_app/views.py:17-29 | daily <= weekly <= monthly <= yearly <= all |
| `Views.DashboardReversedRangeIsZero` | admin_app/views.py:36-40 | a range whose start date is after its end date counts nobody |
| `Comparison.SameCountOnDayGranularOptions` | admin_app/views.py:17-42 | with `today` the day of `now`, both report the same count for `all`, `daily`, and `to_date`/`custom_range` with their dates given |
| `Comparison.FallbackDiffers` | admin_app/views.py:9 | where the homepage falls back to the total, the dashboard leaves the count unset |
| `Comparison.RollingWindowWithinDayWindow` | admin_app/views.py:21-29 | the homepage's instant window is inside the dashboard's day window, so it never counts more |
| `Comparison.RollingWindowsDisagree` | admin_app/admin.py:76-90 | unless `now` is exactly midnight, a user created at the start of the window's first day is counted by the dashboard and not by the homepage |
| `Comparison.UpdateKeepsDashboard` | admin_app/views.py:17-42 | the dashboard reports the same numbers before and after any bulk action |

## Left out

- Screen configuration of the admin (`list_display`, `list_filter`, `search_fields`, `readonly_fields`, `raw_id_fields`, `list_select_related`, site titles, model registration) and `admin_app/urls.py`: declarative framework set-up with no behaviour.
- `message_user` and its messages: operator feedback, not state.
- `super().index`, `render`, the HTML templates and `staff_member_required`: framework I/O and authentication.
- `extra_context` on the homepage: the framework passes none, and a caller-supplied one could overwrite the computed keys; not modelled.
- The database and ORM: the table is a sequence (or, for the bulk actions, an array) of rows, an admin selection is a set of primary keys (`pk__in`), and transactions are not modelled.
- Time zones: every calendar day is taken in UTC. The source takes `timezone.now().date()` in UTC, `created_at__date` in the current time zone and `date.today()` in the server's local zone; these agree only when all three zones coincide.
- Clock readings (`timezone.now()`, `date.today()`) are parameters.
- Sub-second precision: instants are whole seconds, so "one instant before a boundary" is one second before it.
- `OverflowError` from date arithmetic at the ends of the calendar (before year 1 or after year 9999): day numbers are unbounded integers.
- `IsoDate.ParseIsoDate`: accepts only the extended calendar form `YYYY-MM-DD`; the further forms Python 3.11 and later also accept (`YYYYMMDD` and the week dates `YYYY-Www`, `YYYY-Www-D`, `YYYYWww`, `YYYYWwwD`) are not modelled.
- `ChatSessions`, `Prompts`, `AlembicVersion` and `Users.__str__`: no logic of the core reads or writes them.
