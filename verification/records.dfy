/** The records the matchmaking site keeps, as immutable values.
    Database rows become datatypes, tables become sequences (or a map for
    profiles, which are always fetched by primary key), and the database as a
    whole is one `Db` value that every form operation takes and returns. */
module Records {

  datatype Option<+T> = None | Some(value: T)

  type ProfileId = nat
  type GameId = nat
  type SessionId = nat

  const SecondsPerHour: nat := 3600
  const SecondsPerDay: nat := 86400

  /** A `datetime.time` as seconds since midnight (the forms accept `%H:%M` and
      `%H:%M:%S`, so seconds are the finest grain that reaches the model). */
  type TimeOfDay = t: int | 0 <= t < SecondsPerDay

  /** `HH:MM` as a time of day. */
  function Clock(h: nat, m: nat): (t: TimeOfDay)
    requires h < 24 && m < 60
    ensures t / SecondsPerHour == h
    ensures t % SecondsPerHour == m * 60
  {
    h * SecondsPerHour + m * 60
  }

  /** A naive `datetime`: `day` counts days from a fixed epoch. */
  function Moment(day: int, t: TimeOfDay): int
  {
    day * SecondsPerDay + t
  }

  /** The four commendation priorities a profile stores, in slot order. */
  datatype Priorities = Priorities(first: string, second: string, third: string, fourth: string)

  datatype Profile = Profile(
    prefServer: string,
    skillCommends: nat,
    sportsmanshipCommends: nat,
    communicationCommends: nat,
    teamworkCommends: nat,
    receivedRatings: nat,
    priorities: Priorities,
    ignoreMatchmaking: bool,
    prefGame: Option<GameId>)

  /** A recurring weekly window during which a profile is willing to play. */
  datatype Availability = Availability(
    pk: nat,
    profile: ProfileId,
    day: string,
    start: TimeOfDay,
    end: TimeOfDay,
    competitive: bool)

  /** `start` is an absolute moment; `end` is only a time of day. */
  datatype Session = Session(
    id: SessionId,
    game: GameId,
    start: int,
    end: TimeOfDay,
    competitive: bool)

  /** Ratings a participant may give a session: 0 to 5. */
  type Rating = r: nat | r <= 5

  /** Links a profile to a session; carries that profile's rating of it. */
  datatype SessionProfile = SessionProfile(session: SessionId, profile: ProfileId, rating: Option<Rating>)

  datatype Report = Report(session: SessionId, reported: ProfileId, sentBy: ProfileId, reason: string)

  datatype Account = Account(
    profile: ProfileId,
    game: GameId,
    tag: string,
    platform: string,
    casRank: string,
    compRank: string)

  /** `profile` has a connected account for `game`. */
  predicate HasAccountFor(accounts: seq<Account>, profile: ProfileId, game: GameId)
  {
    exists a :: a in accounts && a.profile == profile && a.game == game
  }

  datatype Db = Db(
    profiles: map<ProfileId, Profile>,
    availabilities: seq<Availability>,
    sessions: seq<Session>,
    sessionProfiles: seq<SessionProfile>,
    reports: seq<Report>,
    accounts: seq<Account>)
}
