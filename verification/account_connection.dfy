/** The connect-account form: links a profile to an in-game identity, after
    checking that the tag is unclaimed, that the profile has no account for
    the game yet, that the game is supported, and that the rank service
    knows the account. */
module AccountConnection {
  import opened Records

  datatype Game = Game(id: GameId, name: string)

  const SupportedGame: string := "Rainbow Six Siege"

  /** What the rank service answered: each rank key may be missing. */
  datatype Ranks = Ranks(cas: Option<string>, comp: Option<string>)

  /** The rank lookup, keyed by preferred server, tag and platform. Its body
      lives outside this model, so it is a parameter; `None` stands for no
      answer at all. */
  type RankLookup = (string, string, Option<string>) -> Option<Ranks>

  datatype ConnectError = TagTaken | GameTaken | Unsupported(name: string) | RanksNotFound

  /** Errors in the order `clean` adds them, and the ranks it copies into the
      cleaned data (casual, competitive). */
  datatype Cleaned = Cleaned(errors: seq<ConnectError>, ranks: Option<(string, string)>)

  /** The position of each error's check in `clean`. */
  function CheckOrder(e: ConnectError): nat
  {
    match e
    case TagTaken => 0
    case GameTaken => 1
    case Unsupported(_) => 2
    case RanksNotFound => 3
  }

  predicate TagClaimed(accounts: seq<Account>, tag: string)
  {
    exists a :: a in accounts && a.tag == tag
  }

  /** `ConnectAccountForm.clean` for the profile `profile`, whose preferred
      server is `server`. */
  function CleanConnect(accounts: seq<Account>, profile: ProfileId, server: string, tag: Option<string>,
                        game: Option<Game>, platform: Option<string>, lookup: RankLookup): (r: Cleaned)
    ensures tag.None? ==> r == Cleaned([], None)
    ensures TagTaken in r.errors <==> tag.Some? && TagClaimed(accounts, tag.value)
    ensures GameTaken in r.errors <==> tag.Some? && game.Some? && HasAccountFor(accounts, profile, game.value.id)
    ensures (exists n :: Unsupported(n) in r.errors) <==>
      tag.Some? && game.Some? && !TagClaimed(accounts, tag.value) && game.value.name != SupportedGame
    ensures RanksNotFound in r.errors <==>
      && tag.Some? && game.Some? && !TagClaimed(accounts, tag.value) && game.value.name == SupportedGame
      && var found := lookup(server, tag.value, platform); found.None? || found.value.cas.None? || found.value.comp.None?
    ensures r.ranks.Some? <==>
      && tag.Some? && game.Some? && !TagClaimed(accounts, tag.value) && game.value.name == SupportedGame
      && var found := lookup(server, tag.value, platform); found.Some? && found.value.cas.Some? && found.value.comp.Some?
    ensures r.ranks.Some? ==>
      var found := lookup(server, tag.value, platform).value; r.ranks.value == (found.cas.value, found.comp.value)
    ensures forall n :: Unsupported(n) in r.errors ==> game.Some? && n == game.value.name
    ensures forall i, j :: 0 <= i < j < |r.errors| ==> CheckOrder(r.errors[i]) < CheckOrder(r.errors[j])
  {
    if tag.None? then Cleaned([], None)
    else
      var claimed := TagClaimed(accounts, tag.value);
      var e1 := if claimed then [TagTaken] else [];
      var e2 := if game.Some? && HasAccountFor(accounts, profile, game.value.id) then [GameTaken] else [];
      if claimed || game.None? then Cleaned(e1 + e2, None)
      else if game.value.name != SupportedGame then
        Cleaned(e1 + e2 + [Unsupported(game.value.name)], None)
      else
        var found := lookup(server, tag.value, platform);
        if found.Some? && found.value.cas.Some? && found.value.comp.Some? then
          Cleaned(e1 + e2, Some((found.value.cas.value, found.value.comp.value)))
        else
          Cleaned(e1 + e2 + [RanksNotFound], None)
  }

  /** No tag is connected twice, and no profile has two accounts for one game. */
  predicate Consistent(accounts: seq<Account>)
  {
    && (forall i, j :: 0 <= i < j < |accounts| ==> accounts[i].tag != accounts[j].tag)
    && (forall i, j :: 0 <= i < j < |accounts| ==>
          !(accounts[i].profile == accounts[j].profile && accounts[i].game == accounts[j].game))
  }

  /** Submitting the form: a missing field or any error from `clean` refuses
      it; otherwise `save` stores one account with the looked-up ranks. */
  function Connect(db: Db, profile: ProfileId, tag: Option<string>, game: Option<Game>,
                   platform: Option<string>, lookup: RankLookup): (r: Option<Db>)
    requires profile in db.profiles
    ensures r.Some? ==> tag.Some? && game.Some? && platform.Some?
    ensures r.Some? ==> !TagClaimed(db.accounts, tag.value) && !HasAccountFor(db.accounts, profile, game.value.id)
    ensures r.Some? ==> game.value.name == SupportedGame
    ensures r.Some? ==> r.value == db.(accounts := r.value.accounts)
    ensures r.Some? <==> && tag.Some? && game.Some? && platform.Some?
                         && CleanConnect(db.accounts, profile, db.profiles[profile].prefServer, tag, game, platform, lookup).errors == []
    ensures r.Some? ==>
      && var found := lookup(db.profiles[profile].prefServer, tag.value, platform);
      && found.Some? && found.value.cas.Some? && found.value.comp.Some?
      && r.value.accounts == db.accounts + [Account(profile, game.value.id, tag.value, platform.value, found.value.cas.value, found.value.comp.value)]
  {
    if tag.None? || game.None? || platform.None? then None
    else
      var c := CleanConnect(db.accounts, profile, db.profiles[profile].prefServer, tag, game, platform, lookup);
      if c.errors != [] || c.ranks.None? then None
      else
        var (cas, comp) := c.ranks.value;
        Some(db.(accounts := db.accounts + [Account(profile, game.value.id, tag.value, platform.value, cas, comp)]))
  }

  /** Connecting an account keeps the table consistent. */
  lemma ConnectKeepsConsistent(db: Db, profile: ProfileId, tag: Option<string>, game: Option<Game>,
                               platform: Option<string>, lookup: RankLookup)
    requires profile in db.profiles && Consistent(db.accounts)
    requires Connect(db, profile, tag, game, platform, lookup).Some?
    ensures Consistent(Connect(db, profile, tag, game, platform, lookup).value.accounts)
  {
  }

  /** Once tag `t` is connected to one profile, connecting it again, to any
      profile, fails with the tag error. */
  lemma ClaimedTagRefused(db: Db, p: ProfileId, q: ProfileId, t: string, g: Game, h: Option<Game>,
                          platform: Option<string>, platform2: Option<string>, lookup: RankLookup, lookup2: RankLookup)
    requires p in db.profiles && q in db.profiles
    requires Connect(db, p, Some(t), Some(g), platform, lookup).Some?
    ensures var db1 := Connect(db, p, Some(t), Some(g), platform, lookup).value;
      && TagTaken in CleanConnect(db1.accounts, q, db1.profiles[q].prefServer, Some(t), h, platform2, lookup2).errors
      && Connect(db1, q, Some(t), h, platform2, lookup2).None?
  {
  }
}
