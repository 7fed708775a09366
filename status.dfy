/**
  The two closed status vocabularies of the list service (Pymoe/Mal/Status.py):
  the lifecycle of a work (`Series`) and a user's own state for it (`User`),
  each member with its fixed numeric code.
 */
module Status {
  import opened Wrappers

  /** Lifecycle of the work itself. */
  datatype Series = Started | Finished | Planned

  /** A user's personal state for a work. */
  datatype User = Watching | Completed | Onhold | Dropped | Planned

  const AllSeries: set<Series> := {Series.Started, Series.Finished, Series.Planned}
  const AllUser: set<User> := {User.Watching, User.Completed, User.Onhold, User.Dropped, User.Planned}

  /** The codes that belong to some member; code 5 is not a user code. */
  const SeriesCodes: set<int> := {1, 2, 3}
  const UserCodes: set<int> := {1, 2, 3, 4, 6}

  function SeriesCode(s: Series): (c: int)
    ensures c in SeriesCodes
  {
    match s
    case Started => 1
    case Finished => 2
    case Planned => 3
  }

  /** The member with code `c`, if there is one (the enum's lookup by value). */
  function SeriesOfCode(c: int): (r: Option<Series>)
    ensures r.Some? <==> c in SeriesCodes
    ensures r.Some? ==> SeriesCode(r.value) == c
  {
    if c == 1 then Some(Series.Started)
    else if c == 2 then Some(Series.Finished)
    else if c == 3 then Some(Series.Planned)
    else None
  }

  function UserCode(u: User): (c: int)
    ensures c in UserCodes
  {
    match u
    case Watching => 1
    case Completed => 2
    case Onhold => 3
    case Dropped => 4
    case Planned => 6
  }

  function UserOfCode(c: int): (r: Option<User>)
    ensures r.Some? <==> c in UserCodes
    ensures r.Some? ==> UserCode(r.value) == c
  {
    if c == 1 then Some(User.Watching)
    else if c == 2 then Some(User.Completed)
    else if c == 3 then Some(User.Onhold)
    else if c == 4 then Some(User.Dropped)
    else if c == 6 then Some(User.Planned)
    else None
  }

  /** `Series` has exactly three members. */
  lemma SeriesMembers()
    ensures forall s: Series :: s in AllSeries
    ensures |AllSeries| == 3
  {
    forall s: Series ensures s in AllSeries {
      match s
      case Started =>
      case Finished =>
      case Planned =>
    }
  }

  /** `User` has exactly five members; no member has code 5. */
  lemma UserMembers()
    ensures forall u: User :: u in AllUser
    ensures |AllUser| == 5
    ensures UserOfCode(5) == None
  {
    forall u: User ensures u in AllUser {
      match u
      case Watching =>
      case Completed =>
      case Onhold =>
      case Dropped =>
      case Planned =>
    }
  }

  /** Converting a member to its code and back gives the member. */
  lemma SeriesCodeRoundTrip(s: Series)
    ensures SeriesOfCode(SeriesCode(s)) == Some(s)
  {
  }

  lemma UserCodeRoundTrip(u: User)
    ensures UserOfCode(UserCode(u)) == Some(u)
  {
  }

  /** Within each enumeration, distinct members have distinct codes. */
  lemma SeriesCodeInjective(a: Series, b: Series)
    ensures SeriesCode(a) == SeriesCode(b) ==> a == b
  {
    SeriesCodeRoundTrip(a);
    SeriesCodeRoundTrip(b);
  }

  lemma UserCodeInjective(a: User, b: User)
    ensures UserCode(a) == UserCode(b) ==> a == b
  {
    UserCodeRoundTrip(a);
    UserCodeRoundTrip(b);
  }
}
