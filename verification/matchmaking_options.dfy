/** The matchmaking-options form: four commendation priorities that must be
    pairwise distinct, an override flag and a preferred game. */
module MatchmakingOptions {
  import opened Records

  /** The four priority slots, numbered as the form's fields are. */
  type Slot = k: int | 1 <= k <= 4 witness 1

  /** The submitted priority values; a field that failed validation is absent
      from the cleaned data, shown here as `None`. */
  datatype PriorityInput = PriorityInput(first: Option<string>, second: Option<string>, third: Option<string>, fourth: Option<string>)
  {
    function At(k: Slot): Option<string>
    {
      match k
      case 1 => first
      case 2 => second
      case 3 => third
      case 4 => fourth
    }

    predicate Complete()
    {
      first.Some? && second.Some? && third.Some? && fourth.Some?
    }
  }

  /** No two slots hold the same value. */
  predicate Distinct(p: PriorityInput)
  {
    forall i: Slot, j: Slot :: i != j ==> p.At(i) != p.At(j)
  }

  /** `clean` either reads a key that is not there (an unhandled `KeyError`)
      or reports the slots that received the duplicate-priority error. */
  datatype PriorityCheck = MissingKey | Checked(flagged: set<Slot>)

  /** `SelectMatchmakingOptionsForm.clean`: each slot is compared with every
      higher-numbered slot, and the lower slot of a clashing pair is flagged. */
  function CleanPriorities(p: PriorityInput): (r: PriorityCheck)
    ensures r.MissingKey? <==> !p.Complete()
    ensures r.Checked? ==> forall k: Slot :: k in r.flagged <==> exists j: Slot :: k < j && p.At(k) == p.At(j)
    ensures r.Checked? ==> 4 !in r.flagged
    ensures r.Checked? ==> (r.flagged == {} <==> Distinct(p))
  {
    if !p.Complete() then MissingKey
    else
      var one: set<Slot> := if p.first == p.second || p.first == p.third || p.first == p.fourth then {1} else {};
      var two: set<Slot> := if p.second == p.third || p.second == p.fourth then {2} else {};
      var three: set<Slot> := if p.third == p.fourth then {3} else {};
      var flagged := one + two + three;
      forall k: Slot
        ensures k in flagged <==> exists j: Slot :: k < j && p.At(k) == p.At(j)
      {
        if k in flagged {
          if k == 1 {
            if p.first == p.second { assert p.At(1) == p.At(2); }
            else if p.first == p.third { assert p.At(1) == p.At(3); }
            else { assert p.At(1) == p.At(4); }
          } else if k == 2 {
            if p.second == p.third { assert p.At(2) == p.At(3); }
            else { assert p.At(2) == p.At(4); }
          } else {
            assert p.At(3) == p.At(4);
          }
        }
      }
      Checked(flagged)
  }

  /** `SelectMatchmakingOptionsForm.save`: writes the four priorities, the
      override flag and the preferred game, and nothing else. */
  function SaveOptions(p: Profile, prios: Priorities, ignore: bool, game: GameId): (r: Profile)
    ensures r.priorities == prios && r.ignoreMatchmaking == ignore && r.prefGame == Some(game)
    ensures r.(priorities := p.priorities, ignoreMatchmaking := p.ignoreMatchmaking, prefGame := p.prefGame) == p
  {
    p.(priorities := prios, ignoreMatchmaking := ignore, prefGame := Some(game))
  }

  /** The preferred game the form starts with: the stored one, otherwise the
      game of the profile's first connected account, otherwise none. The
      form sets this initial value to the game's name while its choices are
      keyed by game id, so in the page no option is preselected; the model
      returns the game itself. "First" is the account table's order here; the
      query that picks it has no ordering, so the database may pick another. */
  function InitialPrefGame(accounts: seq<Account>, profile: ProfileId, stored: Option<GameId>): (r: Option<GameId>)
    ensures stored.Some? ==> r == stored
    ensures stored.None? && r.None? ==> forall a :: a in accounts ==> a.profile != profile
    ensures stored.None? && r.Some? ==> exists i :: (0 <= i < |accounts| && accounts[i].profile == profile && r.value == accounts[i].game
                                             && forall j :: 0 <= j < i ==> accounts[j].profile != profile)
  {
    if stored.Some? then stored
    else if accounts == [] then None
    else if accounts[0].profile == profile then Some(accounts[0].game)
    else
      var r := InitialPrefGame(accounts[1..], profile, None);
      if r.Some? then
        var i :| 0 < i + 1 < |accounts| && accounts[1..][i].profile == profile && r.value == accounts[1..][i].game
                 && forall j :: 0 <= j < i ==> accounts[1..][j].profile != profile;
        assert accounts[i + 1].profile == profile;
        r
      else
        r
  }

  datatype Outcome = Crashed | Rejected(flagged: set<Slot>) | Saved(db: Db)

  /** Submitting the form for `profile`: the priorities are checked, the
      preferred game must be one of the profile's connected games (the only
      choices the field offers), and a valid form is saved. */
  function Submit(db: Db, profile: ProfileId, p: PriorityInput, ignore: bool, game: GameId): (r: Outcome)
    requires profile in db.profiles
    ensures r.Crashed? <==> !p.Complete()
    ensures r.Saved? <==> p.Complete() && Distinct(p) && HasAccountFor(db.accounts, profile, game)
    ensures r.Rejected? ==> CleanPriorities(p) == Checked(r.flagged)
    ensures r.Saved? ==> r.db == db.(profiles := r.db.profiles) && r.db.profiles.Keys == db.profiles.Keys
    ensures r.Saved? ==>
      var saved := r.db.profiles[profile];
      && saved.priorities == Priorities(p.first.value, p.second.value, p.third.value, p.fourth.value)
      && saved.ignoreMatchmaking == ignore && saved.prefGame == Some(game)
      && saved == db.profiles[profile].(priorities := saved.priorities, ignoreMatchmaking := ignore, prefGame := Some(game))
    ensures r.Saved? ==> forall q :: q in db.profiles && q != profile ==> r.db.profiles[q] == db.profiles[q]
  {
    match CleanPriorities(p)
    case MissingKey => Crashed
    case Checked(flagged) =>
      if flagged != {} || !HasAccountFor(db.accounts, profile, game) then Rejected(flagged)
      else
        var prios := Priorities(p.first.value, p.second.value, p.third.value, p.fourth.value);
        Saved(db.(profiles := db.profiles[profile := SaveOptions(db.profiles[profile], prios, ignore, game)]))
  }

  /** Stored priorities are pairwise distinct. */
  predicate DistinctPriorities(prios: Priorities)
  {
    Distinct(PriorityInput(Some(prios.first), Some(prios.second), Some(prios.third), Some(prios.fourth)))
  }

  /** A saved options form leaves the profile's priorities pairwise distinct,
      so every profile that started distinct stays distinct. */
  lemma SubmitKeepsPrioritiesDistinct(db: Db, profile: ProfileId, p: PriorityInput, ignore: bool, game: GameId)
    requires profile in db.profiles
    requires forall q :: q in db.profiles ==> DistinctPriorities(db.profiles[q].priorities)
    requires Submit(db, profile, p, ignore, game).Saved?
    ensures var r := Submit(db, profile, p, ignore, game).db;
      forall q :: q in r.profiles ==> DistinctPriorities(r.profiles[q].priorities)
  {
  }
}
