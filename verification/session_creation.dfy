/** The create-session form: a hosted session must start no earlier than now,
    start before it ends and last at least an hour; saving it stores the
    session and links the host to it. */
module SessionCreation {
  import opened Records

  datatype Field = DateField | StartTimeField | EndTimeField

  /** The form's inputs. `date` is `None` when the raw date string is absent
      or does not parse as `%Y-%m-%d`; a time that failed validation is `None`.
      `competitive` is the truthiness of the raw posted value, which `save`
      reads directly rather than from the cleaned field; when it is false the
      session keeps the model field's default, taken here to be false. */
  datatype Input = Input(date: Option<int>, start: Option<TimeOfDay>, end: Option<TimeOfDay>, game: GameId, competitive: bool)
  {
    predicate Complete()
    {
      date.Some? && start.Some? && end.Some?
    }
  }

  /** `clean` either raises an unhandled exception (parsing the raw date,
      combining it with a missing start time, or comparing with a missing end
      time) or reports the fields that received an error. */
  datatype Check = Unhandled | Errors(fields: set<Field>)

  /** One hour after `t`, as a time of day: `(start + 1h).time()` wraps
      past midnight. */
  function HourLater(t: TimeOfDay): (r: TimeOfDay)
    ensures t + SecondsPerHour < SecondsPerDay ==> r == t + SecondsPerHour
    ensures t + SecondsPerHour >= SecondsPerDay ==> r + SecondsPerDay == t + SecondsPerHour
  {
    (t + SecondsPerHour) % SecondsPerDay
  }

  /** `CreateSessionForm.clean` as the source computes it, with the current
      time `now` as a parameter. The clock carries microseconds while a start
      moment is a whole number of seconds, so `now` is the current time
      rounded up to the next second: for a whole-second start, being before
      the clock and being before `now` are then the same thing. */
  function CleanTimingAsWritten(i: Input, now: int): (r: Check)
    ensures r.Unhandled? <==> !i.Complete()
    ensures r.Errors? ==> (DateField in r.fields <==> Moment(i.date.value, i.start.value) < now)
    ensures r.Errors? ==> (StartTimeField in r.fields <==> i.start.value >= i.end.value)
    ensures r.Errors? && StartTimeField in r.fields ==> EndTimeField !in r.fields
    ensures r.Errors? && i.start.value < i.end.value && i.start.value + SecondsPerHour < SecondsPerDay ==>
      (EndTimeField in r.fields <==> i.end.value < i.start.value + SecondsPerHour)
    ensures r.Errors? && i.start.value + SecondsPerHour >= SecondsPerDay ==> EndTimeField !in r.fields
  {
    if !i.Complete() then Unhandled
    else
      var start := Moment(i.date.value, i.start.value);
      var dateErr: set<Field> := if start < now then {DateField} else {};
      var timeErr: set<Field> :=
        if i.start.value >= i.end.value then {StartTimeField}
        else if HourLater(i.start.value) > i.end.value then {EndTimeField}
        else {};
      Errors(dateErr + timeErr)
  }

  /** The one-hour rule as evidently intended: the end must come at least an
      hour after the start on the same day, with no wrap past midnight. */
  function CleanTiming(i: Input, now: int): (r: Check)
    ensures r.Unhandled? <==> !i.Complete()
    ensures r.Errors? ==> (DateField in r.fields <==> Moment(i.date.value, i.start.value) < now)
    ensures r.Errors? ==> (StartTimeField in r.fields <==> i.start.value >= i.end.value)
    ensures r.Errors? ==> (EndTimeField in r.fields <==> i.start.value < i.end.value < i.start.value + SecondsPerHour)
  {
    if !i.Complete() then Unhandled
    else
      var start := Moment(i.date.value, i.start.value);
      var dateErr: set<Field> := if start < now then {DateField} else {};
      var timeErr: set<Field> :=
        if i.start.value >= i.end.value then {StartTimeField}
        else if i.start.value + SecondsPerHour > i.end.value then {EndTimeField}
        else {};
      Errors(dateErr + timeErr)
  }

  /** Before 23:00 the two checks agree on every input. */
  lemma AgreeBeforeElevenPm(i: Input, now: int)
    requires i.start.Some? ==> i.start.value < Clock(23, 0)
    ensures CleanTimingAsWritten(i, now) == CleanTiming(i, now)
  {
  }

  /** From 23:00 on, the check as written lets a fifteen-minute session
      through, which the intended check refuses. */
  lemma AsWrittenAcceptsShortLateSession(now: int)
    ensures var i := Input(Some(now / SecondsPerDay + 1), Some(Clock(23, 30)), Some(Clock(23, 45)), 0, false);
      && CleanTimingAsWritten(i, now) == Errors({})
      && CleanTiming(i, now) == Errors({EndTimeField})
  {
  }

  /** `CreateSessionForm.save`: one new Session and one new Session_Profile
      linking the host to it, with no rating yet. */
  function SaveSession(db: Db, host: ProfileId, date: int, start: TimeOfDay, end: TimeOfDay, game: GameId, competitive: bool, id: SessionId): (r: Db)
    ensures r.sessions == db.sessions + [Session(id, game, Moment(date, start), end, competitive)]
    ensures r.sessionProfiles == db.sessionProfiles + [SessionProfile(id, host, None)]
    ensures r == db.(sessions := r.sessions, sessionProfiles := r.sessionProfiles)
  {
    db.(sessions := db.sessions + [Session(id, game, Moment(date, start), end, competitive)],
        sessionProfiles := db.sessionProfiles + [SessionProfile(id, host, None)])
  }

  datatype Outcome = Crashed | Rejected(fields: set<Field>) | Created(db: Db)

  /** The session `save` stores for a complete input. */
  function NewSession(i: Input, id: SessionId): Session
    requires i.Complete()
  {
    Session(id, i.game, Moment(i.date.value, i.start.value), i.end.value, i.competitive)
  }

  /** The view's use of the form once `clean` has reported `check`: an
      unhandled exception, a re-rendered form with errors, or a save. */
  function Decide(db: Db, host: ProfileId, i: Input, check: Check, id: SessionId): Outcome
    requires check.Errors? ==> i.Complete()
  {
    match check
    case Unhandled => Crashed
    case Errors(fields) =>
      if fields != {} then Rejected(fields)
      else Created(SaveSession(db, host, i.date.value, i.start.value, i.end.value, i.game, i.competitive, id))
  }

  /** Submitting the form as the source does: the check as written guards the
      save, so a late short session can be stored. `id` is the key the
      database assigns to the new session. */
  function SubmitAsWritten(db: Db, host: ProfileId, i: Input, now: int, id: SessionId): (r: Outcome)
    ensures r.Crashed? <==> !i.Complete()
    ensures r.Rejected? ==> r.fields != {} && CleanTimingAsWritten(i, now) == Errors(r.fields)
    ensures r.Created? <==> i.Complete() && CleanTimingAsWritten(i, now) == Errors({})
    ensures r.Created? ==>
      && r.db.sessions == db.sessions + [NewSession(i, id)]
      && r.db.sessionProfiles == db.sessionProfiles + [SessionProfile(id, host, None)]
      && r.db == db.(sessions := r.db.sessions, sessionProfiles := r.db.sessionProfiles)
  {
    Decide(db, host, i, CleanTimingAsWritten(i, now), id)
  }

  /** Submitting the form with the intended timing check guarding the save. */
  function Submit(db: Db, host: ProfileId, i: Input, now: int, id: SessionId): (r: Outcome)
    ensures r.Crashed? <==> !i.Complete()
    ensures r.Rejected? ==> r.fields != {} && CleanTiming(i, now) == Errors(r.fields)
    ensures r.Created? <==> i.Complete() && CleanTiming(i, now) == Errors({})
    ensures r.Created? ==>
      && r.db.sessions == db.sessions + [NewSession(i, id)]
      && r.db.sessionProfiles == db.sessionProfiles + [SessionProfile(id, host, None)]
      && r.db == db.(sessions := r.db.sessions, sessionProfiles := r.db.sessionProfiles)
  {
    Decide(db, host, i, CleanTiming(i, now), id)
  }

  /** The two submissions differ only for starts from 23:00 on. */
  lemma SubmitsAgreeBeforeElevenPm(db: Db, host: ProfileId, i: Input, now: int, id: SessionId)
    requires i.start.Some? ==> i.start.value < Clock(23, 0)
    ensures SubmitAsWritten(db, host, i, now, id) == Submit(db, host, i, now, id)
  {
  }

  /** As written, the form stores a fifteen-minute session starting at 23:30;
      with the intended check it is refused. */
  lemma AsWrittenStoresShortLateSession(db: Db, host: ProfileId, now: int, id: SessionId)
    ensures var i := Input(Some(now / SecondsPerDay + 1), Some(Clock(23, 30)), Some(Clock(23, 45)), 0, false);
      && Submit(db, host, i, now, id) == Rejected({EndTimeField})
      && SubmitAsWritten(db, host, i, now, id).Created?
      && var s := SubmitAsWritten(db, host, i, now, id).db.sessions[|db.sessions|];
         s.end - s.start % SecondsPerDay == 15 * 60
  {
  }

  /** Every session the form creates starts no earlier than `now`, ends at
      least an hour after it starts, and has its host as a participant. */
  lemma CreatedSessionIsValid(db: Db, host: ProfileId, i: Input, now: int, id: SessionId)
    requires Submit(db, host, i, now, id).Created?
    ensures var r := Submit(db, host, i, now, id).db;
      var s := r.sessions[|db.sessions|];
      && s.start >= now
      && s.start % SecondsPerDay + SecondsPerHour <= s.end
      && SessionProfile(s.id, host, None) in r.sessionProfiles
  {
  }
}
