/** The `Users` table of the back-office: the record shape, the status codes and the
    instants the aggregations compare. Only the fields the core reads or writes carry
    meaning here; the rest of the row is kept so that "nothing else changes" can be said. */
module Models {
  import opened Optional

  /** An instant, as seconds since 1970-01-01T00:00:00 UTC. */
  type Timestamp = int

  const SecondsPerDay: int := 86400

  /** The calendar day (days since 1970-01-01, UTC) on which instant `t` falls. */
  function DayOf(t: Timestamp): (d: int)
    ensures d * SecondsPerDay <= t < (d + 1) * SecondsPerDay
  {
    t / SecondsPerDay
  }

  /** The moderation status of a user. */
  datatype Status = Active | Suspended | Blocked {

    /** The integer stored in the `status` column. */
    function Code(): (c: int)
      ensures 1 <= c <= 3
    {
      match this
      case Active => 1
      case Suspended => 2
      case Blocked => 3
    }
  }

  /** The status a stored code stands for; `None` for a code outside the choices. The
      model keeps `User.status` as a `Status`, so this is the reading of the column's
      integer choices, kept to pin down which code is which. */
  function StatusOfCode(c: int): (r: Option<Status>)
    ensures r.Some? <==> 1 <= c <= 3
    ensures r.Some? ==> r.value.Code() == c
  {
    if c == 1 then Some(Active)
    else if c == 2 then Some(Suspended)
    else if c == 3 then Some(Blocked)
    else None
  }

  /** Every status is stored under its own code and read back as itself. */
  lemma StatusCodeRoundTrip(s: Status)
    ensures StatusOfCode(s.Code()) == Some(s)
  {
  }

  /** The column's default: a row created without a status is Active. No operation of
      the core creates rows, so nothing here uses it. */
  const DefaultStatus: Status := Active

  /** One row of the `users` table. `createdAt` and `suspendedUntil` are nullable. */
  datatype User = User(
    id: int,
    phoneNumber: string,
    name: string,
    age: int,
    location: string,
    interests: string,
    personalFacts: Option<string>,
    createdAt: Option<Timestamp>,
    status: Status,
    suspendedUntil: Option<Timestamp>)

  /** The primary key and the `phone_number` column are unique across the table. */
  ghost predicate UniqueKeys(rows: seq<User>) {
    forall i, j :: 0 <= i < j < |rows| ==>
      rows[i].id != rows[j].id && rows[i].phoneNumber != rows[j].phoneNumber
  }

  /** The primary keys present in `rows`. */
  function Ids(rows: seq<User>): (ids: set<int>)
    ensures forall i :: 0 <= i < |rows| ==> rows[i].id in ids
    ensures forall x :: x in ids ==> exists i :: 0 <= i < |rows| && rows[i].id == x
  {
    if rows == [] then {} else Ids(rows[..|rows| - 1]) + {rows[|rows| - 1].id}
  }

  /** `suspended_until` is only meaningful for a suspended user: any other status leaves it null. */
  predicate SuspensionConsistent(u: User) {
    u.status != Suspended ==> u.suspendedUntil.None?
  }
}
