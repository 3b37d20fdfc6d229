/** The post-session rating form: the submitter rates the session, and each
    other participant may be commended and reported. */
module SessionRating {
  import opened Records

  datatype Commend = Skill | Sportsmanship | Communication | Teamwork

  /** The tag values the save routine recognises; any other tag is ignored. */
  function Recognise(tag: string): (c: Option<Commend>)
    ensures c == Some(Skill) <==> tag == "Skill"
    ensures c == Some(Sportsmanship) <==> tag == "Sportsmanship"
    ensures c == Some(Communication) <==> tag == "Communication"
    ensures c == Some(Teamwork) <==> tag == "Teamwork"
  {
    if tag == "Skill" then Some(Skill)
    else if tag == "Sportsmanship" then Some(Sportsmanship)
    else if tag == "Communication" then Some(Communication)
    else if tag == "Teamwork" then Some(Teamwork)
    else None
  }

  const ToxicReason: string := "toxic"

  /** A profile's counter for one commendation kind. */
  function Counter(p: Profile, c: Commend): nat
  {
    match c
    case Skill => p.skillCommends
    case Sportsmanship => p.sportsmanshipCommends
    case Communication => p.communicationCommends
    case Teamwork => p.teamworkCommends
  }

  /** How many of `tags` name the commendation `c`. */
  function Occurrences(tags: seq<string>, c: Commend): nat
  {
    if tags == [] then 0
    else (if Recognise(tags[0]) == Some(c) then 1 else 0) + Occurrences(tags[1..], c)
  }

  /** Applying the ticked tags of one participant, one increment per tag. */
  function Commended(p: Profile, tags: seq<string>): (r: Profile)
    ensures forall c :: Counter(r, c) == Counter(p, c) + Occurrences(tags, c)
    ensures r.(skillCommends := p.skillCommends, sportsmanshipCommends := p.sportsmanshipCommends,
               communicationCommends := p.communicationCommends, teamworkCommends := p.teamworkCommends) == p
    decreases tags
  {
    if tags == [] then p else Commended(Bump(p, tags[0]), tags[1..])
  }

  /** One tag: the counter it names rises by one; an unknown tag does nothing. */
  function Bump(p: Profile, tag: string): (r: Profile)
    ensures forall c :: Counter(r, c) == Counter(p, c) + (if Recognise(tag) == Some(c) then 1 else 0)
    ensures r.(skillCommends := p.skillCommends, sportsmanshipCommends := p.sportsmanshipCommends,
               communicationCommends := p.communicationCommends, teamworkCommends := p.teamworkCommends) == p
  {
    match Recognise(tag)
    case Some(Skill) => p.(skillCommends := p.skillCommends + 1)
    case Some(Sportsmanship) => p.(sportsmanshipCommends := p.sportsmanshipCommends + 1)
    case Some(Communication) => p.(communicationCommends := p.communicationCommends + 1)
    case Some(Teamwork) => p.(teamworkCommends := p.teamworkCommends + 1)
    case None => p
  }

  /** A tag the save routine does not recognise changes nothing. */
  lemma {:induction false} UnknownTagsIgnored(p: Profile, tags: seq<string>)
    requires forall k :: 0 <= k < |tags| ==> Recognise(tags[k]).None?
    ensures Commended(p, tags) == p
  {
    if tags != [] {
      UnknownTagsIgnored(p, tags[1..]);
    }
  }

  /** The inputs for one other participant: the profile key from the hidden
      field, the ticked tags (`None` when the field is absent) and the report
      flag. */
  datatype PlayerInput = PlayerInput(id: ProfileId, commends: Option<seq<string>>, report: bool)

  function TagsOf(pl: PlayerInput): seq<string>
  {
    if pl.commends.Some? then pl.commends.value else []
  }

  /** The profile of one participant after the save routine's loop body. */
  function Rated(p: Profile, pl: PlayerInput): Profile
  {
    var q := Commended(p, TagsOf(pl));
    q.(receivedRatings := q.receivedRatings + 1)
  }

  /** The report filed against a flagged participant. */
  function ToxicReport(session: SessionId, reported: ProfileId, sender: ProfileId): Report
  {
    Report(session, reported, sender, ToxicReason)
  }

  /** The loop over the other participants. It stops at the first participant
      whose profile does not exist (the lookup raises); what the earlier
      iterations saved stays saved. `applied` counts the finished iterations. */
  datatype Progress = Progress(db: Db, applied: nat)

  /** One iteration of the loop for a participant whose profile exists. */
  function Step(db: Db, session: SessionId, sender: ProfileId, pl: PlayerInput): (r: Db)
    requires pl.id in db.profiles
    ensures r.profiles.Keys == db.profiles.Keys
    ensures r == db.(profiles := r.profiles, reports := r.reports)
  {
    var reports := if pl.report then db.reports + [ToxicReport(session, pl.id, sender)] else db.reports;
    db.(profiles := db.profiles[pl.id := Rated(db.profiles[pl.id], pl)], reports := reports)
  }

  /** One iteration files one toxic report when the participant is flagged. */
  lemma StepReports(db: Db, session: SessionId, sender: ProfileId, pl: PlayerInput)
    requires pl.id in db.profiles
    ensures Step(db, session, sender, pl).reports == db.reports + FlaggedReports([pl], session, sender)
  {
  }

  /** One iteration applies the participant's tags to its profile only. */
  lemma StepCounters(db: Db, session: SessionId, sender: ProfileId, pl: PlayerInput, q: ProfileId, c: Commend)
    requires pl.id in db.profiles && q in db.profiles
    ensures Counter(Step(db, session, sender, pl).profiles[q], c) == Counter(db.profiles[q], c) + CommendsFor([pl], q, c)
  {
  }

  /** One iteration counts one more received rating for the participant only. */
  lemma StepReceived(db: Db, session: SessionId, sender: ProfileId, pl: PlayerInput, q: ProfileId)
    requires pl.id in db.profiles && q in db.profiles
    ensures Step(db, session, sender, pl).profiles[q].receivedRatings == db.profiles[q].receivedRatings + Appearances([pl], q)
  {
  }

  function ApplyAll(db: Db, session: SessionId, sender: ProfileId, players: seq<PlayerInput>): (r: Progress)
    ensures r.applied <= |players|
    ensures r.db.profiles.Keys == db.profiles.Keys
    ensures r.db == db.(profiles := r.db.profiles, reports := r.db.reports)
    ensures forall k :: 0 <= k < r.applied ==> players[k].id in db.profiles
    ensures r.applied < |players| ==> players[r.applied].id !in db.profiles
    decreases |players|
  {
    if players == [] || players[0].id !in db.profiles then Progress(db, 0)
    else
      var db1 := Step(db, session, sender, players[0]);
      var rest := ApplyAll(db1, session, sender, players[1..]);
      assert forall k :: 0 < k <= rest.applied ==> players[k] == players[1..][k - 1];
      assert rest.applied + 1 < |players| ==> players[rest.applied + 1] == players[1..][rest.applied];
      Progress(rest.db, rest.applied + 1)
  }

  /** A non-empty prefix is its first element followed by a prefix of the rest. */
  lemma PrefixSplit<T>(xs: seq<T>, n: nat)
    requires 0 < n <= |xs|
    ensures xs[..n] == [xs[0]] + xs[1..][..n - 1]
  {
  }

  /** One toxic report per flagged participant among the finished iterations,
      appended in order. */
  lemma {:induction false} ApplyAllReports(db: Db, session: SessionId, sender: ProfileId, players: seq<PlayerInput>)
    ensures var r := ApplyAll(db, session, sender, players);
      r.db.reports == db.reports + FlaggedReports(players[..r.applied], session, sender)
    decreases |players|
  {
    if players == [] || players[0].id !in db.profiles {
      assert players[..0] == [];
    } else {
      var db1 := Step(db, session, sender, players[0]);
      StepReports(db, session, sender, players[0]);
      ApplyAllReports(db1, session, sender, players[1..]);
      var rest := ApplyAll(db1, session, sender, players[1..]);
      ReportsGlue(db.reports, db1.reports, rest.db.reports, players, rest.applied, session, sender);
    }
  }

  lemma ReportsGlue(before: seq<Report>, mid: seq<Report>, after: seq<Report>, players: seq<PlayerInput>, n: nat,
                    session: SessionId, sender: ProfileId)
    requires n < |players|
    requires mid == before + FlaggedReports([players[0]], session, sender)
    requires after == mid + FlaggedReports(players[1..][..n], session, sender)
    ensures after == before + FlaggedReports(players[..n + 1], session, sender)
  {
    PrefixSplit(players, n + 1);
    FlaggedReportsAppend([players[0]], players[1..][..n], session, sender);
  }

  /** Each commendation counter of each profile rises by the matching tags
      aimed at it among the finished iterations. */
  lemma {:induction false} ApplyAllCounters(db: Db, session: SessionId, sender: ProfileId, players: seq<PlayerInput>, q: ProfileId, c: Commend)
    requires q in db.profiles
    ensures var r := ApplyAll(db, session, sender, players);
      Counter(r.db.profiles[q], c) == Counter(db.profiles[q], c) + CommendsFor(players[..r.applied], q, c)
    decreases |players|
  {
    if players == [] || players[0].id !in db.profiles {
      assert players[..0] == [];
    } else {
      var db1 := Step(db, session, sender, players[0]);
      StepCounters(db, session, sender, players[0], q, c);
      ApplyAllCounters(db1, session, sender, players[1..], q, c);
      var rest := ApplyAll(db1, session, sender, players[1..]);
      PrefixSplit(players, rest.applied + 1);
      CommendsForAppend([players[0]], players[1..][..rest.applied], q, c);
    }
  }

  /** Each profile's received-rating count rises once per listing among the
      finished iterations, whether or not it was commended. */
  lemma {:induction false} ApplyAllReceived(db: Db, session: SessionId, sender: ProfileId, players: seq<PlayerInput>, q: ProfileId)
    requires q in db.profiles
    ensures var r := ApplyAll(db, session, sender, players);
      r.db.profiles[q].receivedRatings == db.profiles[q].receivedRatings + Appearances(players[..r.applied], q)
    decreases |players|
  {
    if players == [] || players[0].id !in db.profiles {
      assert players[..0] == [];
    } else {
      var db1 := Step(db, session, sender, players[0]);
      StepReceived(db, session, sender, players[0], q);
      ApplyAllReceived(db1, session, sender, players[1..], q);
      var rest := ApplyAll(db1, session, sender, players[1..]);
      PrefixSplit(players, rest.applied + 1);
      AppearancesAppend([players[0]], players[1..][..rest.applied], q);
    }
  }

  /** `after` differs from `before` at most in the commendation counters and
      the received-rating count: the settings the rating form never writes
      (preferred server, priorities, override flag, preferred game) are kept. */
  predicate OnlyTallies(before: Profile, after: Profile)
  {
    after == before.(skillCommends := after.skillCommends, sportsmanshipCommends := after.sportsmanshipCommends,
                     communicationCommends := after.communicationCommends, teamworkCommends := after.teamworkCommends,
                     receivedRatings := after.receivedRatings)
  }

  /** The loop changes no profile's settings, only its tallies. */
  lemma {:induction false} ApplyAllKeepsSettings(db: Db, session: SessionId, sender: ProfileId, players: seq<PlayerInput>, q: ProfileId)
    requires q in db.profiles
    ensures OnlyTallies(db.profiles[q], ApplyAll(db, session, sender, players).db.profiles[q])
    decreases |players|
  {
    if players != [] && players[0].id in db.profiles {
      var db1 := Step(db, session, sender, players[0]);
      assert OnlyTallies(db.profiles[q], db1.profiles[q]);
      ApplyAllKeepsSettings(db1, session, sender, players[1..], q);
    }
  }

  lemma {:induction false} FlaggedReportsAppend(a: seq<PlayerInput>, b: seq<PlayerInput>, session: SessionId, sender: ProfileId)
    ensures FlaggedReports(a + b, session, sender) == FlaggedReports(a, session, sender) + FlaggedReports(b, session, sender)
  {
    if a != [] {
      assert (a + b)[1..] == a[1..] + b;
      FlaggedReportsAppend(a[1..], b, session, sender);
    } else {
      assert a + b == b;
    }
  }

  lemma {:induction false} CommendsForAppend(a: seq<PlayerInput>, b: seq<PlayerInput>, q: ProfileId, c: Commend)
    ensures CommendsFor(a + b, q, c) == CommendsFor(a, q, c) + CommendsFor(b, q, c)
  {
    if a != [] {
      assert (a + b)[1..] == a[1..] + b;
      CommendsForAppend(a[1..], b, q, c);
    } else {
      assert a + b == b;
    }
  }

  lemma {:induction false} AppearancesAppend(a: seq<PlayerInput>, b: seq<PlayerInput>, q: ProfileId)
    ensures Appearances(a + b, q) == Appearances(a, q) + Appearances(b, q)
  {
    if a != [] {
      assert (a + b)[1..] == a[1..] + b;
      AppearancesAppend(a[1..], b, q);
    } else {
      assert a + b == b;
    }
  }

  /** The reports the loop files for `players`, in order: one per flagged
      participant, naming it as reported and `sender` as the sender. */
  function FlaggedReports(players: seq<PlayerInput>, session: SessionId, sender: ProfileId): seq<Report>
  {
    if players == [] then []
    else (if players[0].report then [ToxicReport(session, players[0].id, sender)] else [])
         + FlaggedReports(players[1..], session, sender)
  }

  /** The commendations of kind `c` given to profile `q` across `players`. */
  function CommendsFor(players: seq<PlayerInput>, q: ProfileId, c: Commend): nat
  {
    if players == [] then 0
    else (if players[0].id == q then Occurrences(TagsOf(players[0]), c) else 0) + CommendsFor(players[1..], q, c)
  }

  /** How many of the entries in `players` name profile `q`. */
  function Appearances(players: seq<PlayerInput>, q: ProfileId): nat
  {
    if players == [] then 0
    else (if players[0].id == q then 1 else 0) + Appearances(players[1..], q)
  }

  /** Position of the first Session_Profile row of `profile` in `session`. */
  function FirstRow(rows: seq<SessionProfile>, session: SessionId, profile: ProfileId): (r: Option<nat>)
    ensures r.Some? ==> r.value < |rows| && rows[r.value].session == session && rows[r.value].profile == profile
    ensures r.Some? ==> forall k :: 0 <= k < r.value ==> !(rows[k].session == session && rows[k].profile == profile)
    ensures r.None? ==> forall k :: 0 <= k < |rows| ==> !(rows[k].session == session && rows[k].profile == profile)
  {
    if rows == [] then None
    else if rows[0].session == session && rows[0].profile == profile then Some(0)
    else match FirstRow(rows[1..], session, profile)
      case None => None
      case Some(k) => Some(k + 1)
  }

  /** A save that raised part-way keeps what it had already written. */
  datatype Outcome = Saved(db: Db) | Crashed(db: Db)

  /** `RateSessionForm.save`. */
  function SaveRating(db: Db, session: SessionId, sender: ProfileId, rating: Rating, players: seq<PlayerInput>): (r: Outcome)
    ensures FirstRow(db.sessionProfiles, session, sender).None? ==> r == Crashed(db)
    ensures r.Saved? <==> FirstRow(db.sessionProfiles, session, sender).Some? && forall k :: 0 <= k < |players| ==> players[k].id in db.profiles
    ensures r.db.sessions == db.sessions && r.db.availabilities == db.availabilities && r.db.accounts == db.accounts
    ensures r.db.profiles.Keys == db.profiles.Keys
    ensures FirstRow(db.sessionProfiles, session, sender).Some? ==>
      var k := FirstRow(db.sessionProfiles, session, sender).value;
      r.db.sessionProfiles == db.sessionProfiles[k := db.sessionProfiles[k].(rating := Some(rating))]
  {
    match FirstRow(db.sessionProfiles, session, sender)
    case None => Crashed(db)
    case Some(k) =>
      var row := db.sessionProfiles[k];
      var db1 := db.(sessionProfiles := db.sessionProfiles[k := row.(rating := Some(rating))]);
      var p := ApplyAll(db1, session, sender, players);
      if p.applied == |players| then Saved(p.db) else Crashed(p.db)
  }

  /** What a completed save does: the submitter's first Session_Profile row of
      the session gets the rating and no other row changes; each profile's
      commendation counters rise by the number of matching ticked tags aimed
      at it and its received-rating count by the number of times it is
      listed; one toxic report is added per flagged participant. */
  lemma SavedRatingEffects(db: Db, session: SessionId, sender: ProfileId, rating: Rating, players: seq<PlayerInput>)
    requires SaveRating(db, session, sender, rating, players).Saved?
    ensures var r := SaveRating(db, session, sender, rating, players).db;
      var k := FirstRow(db.sessionProfiles, session, sender).value;
      && |r.sessionProfiles| == |db.sessionProfiles|
      && r.sessionProfiles[k] == db.sessionProfiles[k].(rating := Some(rating))
      && (forall j :: 0 <= j < |db.sessionProfiles| && j != k ==> r.sessionProfiles[j] == db.sessionProfiles[j])
      && r.profiles.Keys == db.profiles.Keys
      && (forall q, c :: q in db.profiles ==> Counter(r.profiles[q], c) == Counter(db.profiles[q], c) + CommendsFor(players, q, c))
      && (forall q :: q in db.profiles ==> r.profiles[q].receivedRatings == db.profiles[q].receivedRatings + Appearances(players, q))
      && r.reports == db.reports + FlaggedReports(players, session, sender)
      && (forall q :: q in db.profiles ==> OnlyTallies(db.profiles[q], r.profiles[q]))
  {
    var r := SaveRating(db, session, sender, rating, players).db;
    assert players[..|players|] == players;
    var k := FirstRow(db.sessionProfiles, session, sender).value;
    var row := db.sessionProfiles[k];
    var db1 := db.(sessionProfiles := db.sessionProfiles[k := row.(rating := Some(rating))]);
    ApplyAllReports(db1, session, sender, players);
    forall q, c | q in db.profiles
      ensures Counter(r.profiles[q], c) == Counter(db.profiles[q], c) + CommendsFor(players, q, c)
    {
      ApplyAllCounters(db1, session, sender, players, q, c);
    }
    forall q | q in db.profiles
      ensures r.profiles[q].receivedRatings == db.profiles[q].receivedRatings + Appearances(players, q)
    {
      ApplyAllReceived(db1, session, sender, players, q);
    }
    forall q | q in db.profiles
      ensures OnlyTallies(db.profiles[q], r.profiles[q])
    {
      ApplyAllKeepsSettings(db1, session, sender, players, q);
    }
  }

  /** What a save that raises part-way does: when participant `n` is the
      first whose profile does not exist, the submitter's rating and the
      writes of the `n` earlier iterations stay, and nothing after them is
      applied. */
  lemma CrashedRatingEffects(db: Db, session: SessionId, sender: ProfileId, rating: Rating, players: seq<PlayerInput>, n: nat)
    requires FirstRow(db.sessionProfiles, session, sender).Some?
    requires n < |players| && players[n].id !in db.profiles
    requires forall j :: 0 <= j < n ==> players[j].id in db.profiles
    ensures SaveRating(db, session, sender, rating, players).Crashed?
    ensures var r := SaveRating(db, session, sender, rating, players).db;
      var k := FirstRow(db.sessionProfiles, session, sender).value;
      && r.sessionProfiles[k] == db.sessionProfiles[k].(rating := Some(rating))
      && (forall q, c :: q in db.profiles ==> Counter(r.profiles[q], c) == Counter(db.profiles[q], c) + CommendsFor(players[..n], q, c))
      && (forall q :: q in db.profiles ==> r.profiles[q].receivedRatings == db.profiles[q].receivedRatings + Appearances(players[..n], q))
      && r.reports == db.reports + FlaggedReports(players[..n], session, sender)
      && (forall q :: q in db.profiles ==> OnlyTallies(db.profiles[q], r.profiles[q]))
  {
    var r := SaveRating(db, session, sender, rating, players).db;
    var k := FirstRow(db.sessionProfiles, session, sender).value;
    var row := db.sessionProfiles[k];
    var db1 := db.(sessionProfiles := db.sessionProfiles[k := row.(rating := Some(rating))]);
    var p := ApplyAll(db1, session, sender, players);
    assert p.applied == n;
    ApplyAllReports(db1, session, sender, players);
    forall q, c | q in db.profiles
      ensures Counter(r.profiles[q], c) == Counter(db.profiles[q], c) + CommendsFor(players[..n], q, c)
    {
      ApplyAllCounters(db1, session, sender, players, q, c);
    }
    forall q | q in db.profiles
      ensures r.profiles[q].receivedRatings == db.profiles[q].receivedRatings + Appearances(players[..n], q)
    {
      ApplyAllReceived(db1, session, sender, players, q);
    }
    forall q | q in db.profiles
      ensures OnlyTallies(db.profiles[q], r.profiles[q])
    {
      ApplyAllKeepsSettings(db1, session, sender, players, q);
    }
  }

  /** Each flagged participant gets exactly one toxic report naming it, sent
      by the submitter; unflagged participants get none, so there are never
      more reports than participants. */
  lemma {:induction false} FlaggedReportsShape(players: seq<PlayerInput>, session: SessionId, sender: ProfileId)
    ensures |FlaggedReports(players, session, sender)| <= |players|
    ensures forall rep :: rep in FlaggedReports(players, session, sender) ==>
      rep.session == session && rep.sentBy == sender && rep.reason == ToxicReason
      && exists k :: 0 <= k < |players| && players[k].report && players[k].id == rep.reported
    ensures forall k :: 0 <= k < |players| && players[k].report ==>
      ToxicReport(session, players[k].id, sender) in FlaggedReports(players, session, sender)
    ensures (forall k :: 0 <= k < |players| ==> !players[k].report) ==> FlaggedReports(players, session, sender) == []
  {
    if players != [] {
      FlaggedReportsShape(players[1..], session, sender);
      var rest := FlaggedReports(players[1..], session, sender);
      forall rep | rep in rest
        ensures exists k :: 0 <= k < |players| && players[k].report && players[k].id == rep.reported
      {
        var k :| 0 <= k < |players[1..]| && players[1..][k].report && players[1..][k].id == rep.reported;
        assert players[k + 1] == players[1..][k];
      }
      forall k | 1 <= k < |players| && players[k].report
        ensures ToxicReport(session, players[k].id, sender) in rest
      {
        assert players[1..][k - 1] == players[k];
      }
    }
  }

  /** A participant listed once with no ticked tags still has its
      received-rating count raised by exactly one and no counter changed. */
  lemma {:induction false} PlainRatingCountsOnce(players: seq<PlayerInput>, k: nat)
    requires k < |players| && TagsOf(players[k]) == []
    requires forall j :: 0 <= j < |players| && j != k ==> players[j].id != players[k].id
    ensures Appearances(players, players[k].id) == 1
    ensures forall c :: CommendsFor(players, players[k].id, c) == 0
  {
    if k == 0 {
      NotListed(players[1..], players[0].id);
    } else {
      assert players[0].id != players[k].id;
      PlainRatingCountsOnce(players[1..], k - 1);
    }
  }

  lemma {:induction false} NotListed(players: seq<PlayerInput>, q: ProfileId)
    requires forall j :: 0 <= j < |players| ==> players[j].id != q
    ensures Appearances(players, q) == 0
    ensures forall c :: CommendsFor(players, q, c) == 0
  {
    if players != [] {
      NotListed(players[1..], q);
    }
  }
}
