/**
 * Administrator commands that configure a guild's competition: redeeming a
 * legacy premium token, the rank table, the queue timeout and the other
 * competition settings, and purging the registrations of users who left.
 */
module CompetitionSetup {
  import opened Entities
  import LobbySetup

  /* ------------------------------------------------------------------ */
  /* Saving a competition                                                */
  /* ------------------------------------------------------------------ */

  /**
   * The competitions table after a command saves `c`: the guild's row is
   * replaced, or added when `GetOrCreateCompetition` had to create it.
   */
  function Store(comps: seq<Competition>, c: Competition): seq<Competition> {
    match CompetitionIndex(comps, c.guildId)
    case Some(i) => comps[i := c]
    case None => comps + [c]
  }

  /** A saved competition is the one read back for its guild; every other guild reads what it read before. */
  lemma StoreReadsBack(comps: seq<Competition>, c: Competition, other: Id)
    requires CompetitionKeysUnique(comps)
    ensures CompetitionKeysUnique(Store(comps, c))
    ensures CompetitionOf(Store(comps, c), c.guildId) == c
    ensures other != c.guildId ==> CompetitionOf(Store(comps, c), other) == CompetitionOf(comps, other)
  {
    var r := Store(comps, c);
    var mine := (x: Competition) => x.guildId == c.guildId;
    var theirs := (x: Competition) => x.guildId == other;
    match CompetitionIndex(comps, c.guildId)
    case Some(i) =>
      FirstIndexSameSelection(comps, r, mine);
      if other != c.guildId {
        FirstIndexSameSelection(comps, r, theirs);
      }
    case None =>
      FirstIndexAppend(comps, c, mine);
      if other != c.guildId {
        var before := CompetitionIndex(comps, other);
        var after := CompetitionIndex(r, other);
        if after.Some? && after.value < |comps| {
          assert r[after.value] == comps[after.value];
        }
        if before.Some? {
          assert r[before.value] == comps[before.value];
        }
      }
  }

  /* ------------------------------------------------------------------ */
  /* RedeemLegacyToken                                                   */
  /* ------------------------------------------------------------------ */

  /** Seconds in a day; time is counted in seconds. */
  const DaySeconds: int := 86400

  /**
   * The legacy premium expiry after redeeming a token worth `days`: a guild
   * with no expiry, or one already past, gets `now + days`; a running one is
   * extended by `days`.
   */
  function LegacyExpiry(current: Option<int>, days: int, now: int): (r: int)
    ensures r >= now + days * DaySeconds
    ensures current.None? || current.value < now ==> r == now + days * DaySeconds
    ensures current.Some? && current.value >= now ==> r == current.value + days * DaySeconds
    ensures days >= 0 && current.Some? ==> r >= current.value
  {
    if current.None? then now + days * DaySeconds
    else if current.value < now then now + days * DaySeconds
    else current.value + days * DaySeconds
  }

  datatype RedeemOutcome =
    /** No token given: the command only explains itself. */
    | TokenHelp
    | InvalidToken
    | TokenRedeemed(expiry: int)

  datatype RedeemResult = RedeemResult(outcome: RedeemOutcome, competitions: seq<Competition>, tokens: map<string, int>)

  /** `RedeemLegacyTokenAsync` at time `now`. */
  function RedeemStep(comps: seq<Competition>, tokens: map<string, int>, guild: Id, token: Option<string>, now: int): (r: RedeemResult)
    ensures !r.outcome.TokenRedeemed? ==> r.competitions == comps && r.tokens == tokens
    ensures r.outcome == InvalidToken <==> token.Some? && token.value !in tokens
    ensures r.outcome.TokenRedeemed? ==>
              && token.Some? && token.value in tokens
              && r.tokens == tokens - {token.value}
              && r.outcome.expiry == LegacyExpiry(CompetitionOf(comps, guild).legacyPremiumExpiry, tokens[token.value], now)
  {
    match token
    case None => RedeemResult(TokenHelp, comps, tokens)
    case Some(t) =>
      if t !in tokens then RedeemResult(InvalidToken, comps, tokens)
      else
        var comp := CompetitionOf(comps, guild);
        var expiry := LegacyExpiry(comp.legacyPremiumExpiry, tokens[t], now);
        RedeemResult(TokenRedeemed(expiry), Store(comps, comp.(legacyPremiumExpiry := Some(expiry))), tokens - {t})
  }

  /**
   * A redeemed token is used up, and the guild's stored expiry is at least
   * `days` after `now`; nothing about any other guild changes.
   */
  lemma RedeemingExtendsPremium(comps: seq<Competition>, tokens: map<string, int>, guild: Id, token: string, now: int, other: Id)
    requires CompetitionKeysUnique(comps)
    requires token in tokens
    ensures var r := RedeemStep(comps, tokens, guild, Some(token), now);
            && token !in r.tokens
            && CompetitionKeysUnique(r.competitions)
            && CompetitionOf(r.competitions, guild).legacyPremiumExpiry.Some?
            && CompetitionOf(r.competitions, guild).legacyPremiumExpiry.value >= now + tokens[token] * DaySeconds
            && (other != guild ==> CompetitionOf(r.competitions, other) == CompetitionOf(comps, other))
  {
    var comp := CompetitionOf(comps, guild);
    var expiry := LegacyExpiry(comp.legacyPremiumExpiry, tokens[token], now);
    StoreReadsBack(comps, comp.(legacyPremiumExpiry := Some(expiry)), other);
  }

  /** The same token cannot be redeemed twice. */
  lemma TokenRedeemsOnce(comps: seq<Competition>, tokens: map<string, int>, guild: Id, token: string, now: int, later: int)
    requires token in tokens
    ensures var once := RedeemStep(comps, tokens, guild, Some(token), now);
            RedeemStep(once.competitions, once.tokens, guild, Some(token), later).outcome == InvalidToken
  {
  }

  /* ------------------------------------------------------------------ */
  /* Ranks                                                               */
  /* ------------------------------------------------------------------ */

  /** `Ranks.Find(roleId)`: ranks are stored under their role id. */
  function RankIndex(ranks: seq<Rank>, roleId: Id): (r: Option<nat>)
    ensures r.Some? ==> r.value < |ranks| && ranks[r.value].roleId == roleId
    ensures r.None? ==> forall k :: 0 <= k < |ranks| ==> ranks[k].roleId != roleId
  {
    FirstIndex(ranks, (k: Rank) => k.roleId == roleId)
  }

  /** The two forms of `AddRank`: points only, or points with both modifiers. */
  datatype RankModifiers = PointsOnly | WithModifiers(win: int, loss: int)

  datatype AddRankOutcome = RankAdded | RankUpdated

  /**
   * `AddRank`: the rank of the role gets the new points (and modifiers), or a
   * rank of the guild is added for the role.
   */
  function AddRankStep(ranks: seq<Rank>, guild: Id, roleId: Id, points: int, mods: RankModifiers): (r: (AddRankOutcome, seq<Rank>))
    ensures r.0 == RankUpdated <==> RankIndex(ranks, roleId).Some?
    ensures r.0 == RankUpdated ==> |r.1| == |ranks|
    ensures r.0 == RankAdded ==> |r.1| == |ranks| + 1
  {
    match RankIndex(ranks, roleId)
    case Some(i) =>
      var moved := ranks[i].(points := points);
      var updated := if mods.PointsOnly? then moved
                     else moved.(winModifier := Some(mods.win), lossModifier := Some(mods.loss));
      (RankUpdated, ranks[i := updated])
    case None =>
      var created := Rank(roleId, guild, points, None, None);
      var added := if mods.PointsOnly? then created
                   else created.(winModifier := Some(mods.win), lossModifier := Some(mods.loss));
      (RankAdded, ranks + [added])
  }

  /**
   * After `AddRank` the role has exactly one rank, with the given points (and
   * modifiers when given); every other rank is kept as it was.
   */
  lemma AddRankUpserts(ranks: seq<Rank>, guild: Id, roleId: Id, points: int, mods: RankModifiers)
    requires RankKeysUnique(ranks)
    ensures var r := AddRankStep(ranks, guild, roleId, points, mods).1;
            && RankKeysUnique(r)
            && RankIndex(r, roleId).Some?
            && r[RankIndex(r, roleId).value].points == points
            && (mods.WithModifiers? ==>
                  && r[RankIndex(r, roleId).value].winModifier == Some(mods.win)
                  && r[RankIndex(r, roleId).value].lossModifier == Some(mods.loss))
            && (forall k :: k in ranks && k.roleId != roleId ==> k in r)
            && (forall k :: k in r && k.roleId != roleId ==> k in ranks)
  {
    var r := AddRankStep(ranks, guild, roleId, points, mods).1;
    var p := (k: Rank) => k.roleId == roleId;
    match RankIndex(ranks, roleId)
    case Some(i) =>
      FirstIndexSameSelection(ranks, r, p);
      forall k | k in ranks && k.roleId != roleId ensures k in r {
        var j :| 0 <= j < |ranks| && ranks[j] == k;
        assert r[j] == k;
      }
    case None =>
      FirstIndexAppend(ranks, r[|ranks|], p);
      assert r[..|ranks|] == ranks;
      forall k | k in ranks ensures k in r {
        var j :| 0 <= j < |ranks| && ranks[j] == k;
        assert r[j] == k;
      }
  }

  datatype RemoveRankOutcome = InvalidRank | RankRemoved

  /** `RemoveRank(roleId)`. */
  function RemoveRankStep(ranks: seq<Rank>, roleId: Id): (r: (RemoveRankOutcome, seq<Rank>))
    ensures r.0 == InvalidRank <==> RankIndex(ranks, roleId).None?
    ensures r.0 == InvalidRank ==> r.1 == ranks
  {
    match RankIndex(ranks, roleId)
    case None => (InvalidRank, ranks)
    case Some(i) => (RankRemoved, RemoveAt(ranks, i))
  }

  /** A removal takes out the role's rank and keeps every other rank. */
  lemma RemoveRankRemovesOnlyThatRank(ranks: seq<Rank>, roleId: Id)
    requires RankKeysUnique(ranks)
    ensures var r := RemoveRankStep(ranks, roleId).1;
            && RankKeysUnique(r)
            && RankIndex(r, roleId).None?
            && forall k :: k in r <==> k in ranks && k.roleId != roleId
  {
    var r := RemoveRankStep(ranks, roleId).1;
    if RankIndex(ranks, roleId).Some? {
      var i := RankIndex(ranks, roleId).value;
      LobbySetup.RemoveTheOnlyMatch(ranks, (k: Rank) => k.roleId == roleId, i);
    }
  }

  datatype ModifierOutcome = NotARank | ModifierSet

  /**
   * `RankWinModifier` (`win`) and `RankLossModifier`: the rank's own modifier,
   * or none so that the competition default applies.
   */
  function RankModifierStep(ranks: seq<Rank>, roleId: Id, win: bool, amount: Option<int>): (r: (ModifierOutcome, seq<Rank>))
    ensures r.0 == NotARank <==> RankIndex(ranks, roleId).None?
    ensures r.0 == NotARank ==> r.1 == ranks
    ensures r.0 == ModifierSet ==>
              var i := RankIndex(ranks, roleId).value;
              && |r.1| == |ranks|
              && (forall k :: 0 <= k < |ranks| && k != i ==> r.1[k] == ranks[k])
              && (win ==> r.1[i] == ranks[i].(winModifier := amount))
              && (!win ==> r.1[i] == ranks[i].(lossModifier := amount))
  {
    match RankIndex(ranks, roleId)
    case None => (NotARank, ranks)
    case Some(i) =>
      var updated := if win then ranks[i].(winModifier := amount) else ranks[i].(lossModifier := amount);
      (ModifierSet, ranks[i := updated])
  }

  /** Selects the ranks `PurgeRanks` keeps: other guilds' ranks, and the guild's ranks whose role still exists. */
  function RankKept(guild: Id, roles: set<Id>): Rank -> bool {
    (k: Rank) => !(k.guildId == guild && k.roleId !in roles)
  }

  /** `PurgeRanks`: the guild's ranks whose role is not among the guild's `roles` are removed. */
  function PurgeRanksStep(ranks: seq<Rank>, guild: Id, roles: set<Id>): (r: seq<Rank>)
    ensures forall k :: k in r <==> k in ranks && (k.guildId != guild || k.roleId in roles)
  {
    Filter(ranks, RankKept(guild, roles))
  }

  /** Purging keeps rank keys unique and is idempotent. */
  lemma PurgeRanksIsIdempotent(ranks: seq<Rank>, guild: Id, roles: set<Id>)
    requires RankKeysUnique(ranks)
    ensures RankKeysUnique(PurgeRanksStep(ranks, guild, roles))
    ensures PurgeRanksStep(PurgeRanksStep(ranks, guild, roles), guild, roles) == PurgeRanksStep(ranks, guild, roles)
  {
    FilterKeepsRankKeysUnique(ranks, RankKept(guild, roles));
    var once := PurgeRanksStep(ranks, guild, roles);
    assert forall i :: 0 <= i < |once| ==> once[i] in once;
  }

  /** Removing ranks cannot create a duplicate key. */
  lemma {:induction false} FilterKeepsRankKeysUnique(ranks: seq<Rank>, keep: Rank -> bool)
    requires RankKeysUnique(ranks)
    ensures RankKeysUnique(Filter(ranks, keep))
  {
    if ranks != [] {
      FilterKeepsRankKeysUnique(ranks[1..], keep);
      var rest := Filter(ranks[1..], keep);
      forall j | 0 <= j < |rest| ensures rest[j].roleId != ranks[0].roleId {
        assert rest[j] in ranks[1..];
        var k :| 0 <= k < |ranks[1..]| && ranks[1..][k] == rest[j];
        assert ranks[k + 1] == rest[j];
      }
    }
  }

  /* ------------------------------------------------------------------ */
  /* Competition settings                                                */
  /* ------------------------------------------------------------------ */

  /** Ten minutes, the shortest queue timeout. */
  const MinimumTimeout: int := 600

  datatype TimeoutOutcome =
    /** "Minimum timeout length is 10 minutes." */
    | TooShort
    /** "This feature is for premium ELO servers only." */
    | PremiumOnly
    | ShowTimeout(current: Option<int>)
    | TimeoutSet

  /**
   * `SetQueueTimeout` for a guild whose premium status is `premium`: a value
   * under ten minutes is refused before anything else, then a guild that is
   * not premium; no value shows the current one.
   */
  function SetTimeoutStep(comps: seq<Competition>, guild: Id, timeout: Option<int>, premium: bool): (r: (TimeoutOutcome, seq<Competition>))
    ensures r.0 == TooShort <==> timeout.Some? && timeout.value < MinimumTimeout
    ensures r.0 == PremiumOnly <==> !(timeout.Some? && timeout.value < MinimumTimeout) && !premium
    ensures r.0 != TimeoutSet ==> r.1 == comps
    ensures r.0 == TimeoutSet ==> timeout.Some? && timeout.value >= MinimumTimeout && premium
  {
    if timeout.Some? && timeout.value < MinimumTimeout then (TooShort, comps)
    else if !premium then (PremiumOnly, comps)
    else
      var comp := CompetitionOf(comps, guild);
      if timeout.None? then (ShowTimeout(comp.queueTimeout), comps)
      else (TimeoutSet, Store(comps, comp.(queueTimeout := timeout)))
  }

  /** Every stored queue timeout is at least ten minutes. */
  predicate TimeoutsValid(comps: seq<Competition>) {
    forall k :: 0 <= k < |comps| && comps[k].queueTimeout.Some? ==> comps[k].queueTimeout.value >= MinimumTimeout
  }

  /** Saving a competition whose timeout is valid keeps every stored timeout valid. */
  lemma StoreKeepsTimeoutsValid(comps: seq<Competition>, c: Competition)
    requires TimeoutsValid(comps)
    requires c.queueTimeout.Some? ==> c.queueTimeout.value >= MinimumTimeout
    ensures TimeoutsValid(Store(comps, c))
  {
  }

  /**
   * A timeout that was set is the guild's timeout from then on, and no
   * stored timeout is ever under ten minutes.
   */
  lemma TimeoutIsAtLeastTenMinutes(comps: seq<Competition>, guild: Id, timeout: Option<int>, premium: bool)
    requires CompetitionKeysUnique(comps) && TimeoutsValid(comps)
    ensures var r := SetTimeoutStep(comps, guild, timeout, premium);
            && TimeoutsValid(r.1)
            && (r.0 == TimeoutSet ==> CompetitionOf(r.1, guild).queueTimeout == timeout)
            && (forall g :: g != guild ==> CompetitionOf(r.1, g) == CompetitionOf(comps, g))
  {
    var r := SetTimeoutStep(comps, guild, timeout, premium);
    if r.0 == TimeoutSet {
      var c := CompetitionOf(comps, guild).(queueTimeout := timeout);
      StoreReadsBack(comps, c, guild);
      forall g | g != guild ensures CompetitionOf(r.1, g) == CompetitionOf(comps, g) {
        StoreReadsBack(comps, c, g);
      }
      StoreKeepsTimeoutsValid(comps, c);
    }
  }

  /**
   * The other competition settings of this model. The commands given no
   * value only show the current setting.
   */
  datatype CompetitionSetting =
    | MultiQueueing(allow: Option<bool>)
    | RequeueDelay(delay: Option<int>)
    | ResetRequeueDelay
    | ResetQueueTimeout
    | DefaultWinModifier(amount: Option<int>)
    | DefaultLossModifier(amount: Option<int>)

  predicate OnlyShows(s: CompetitionSetting) {
    || (s.MultiQueueing? && s.allow.None?)
    || (s.RequeueDelay? && s.delay.None?)
    || (s.DefaultWinModifier? && s.amount.None?)
    || (s.DefaultLossModifier? && s.amount.None?)
  }

  /** The competition after a setter. */
  function ApplySetting(comp: Competition, s: CompetitionSetting): (r: Competition)
    requires !OnlyShows(s)
    ensures r.guildId == comp.guildId
    ensures s.MultiQueueing? ==> r == comp.(allowMultiQueueing := s.allow.value)
    ensures s.RequeueDelay? ==> r == comp.(requeueDelay := s.delay)
    ensures s.DefaultWinModifier? ==> r == comp.(defaultWinModifier := s.amount.value)
    ensures s.DefaultLossModifier? ==> r == comp.(defaultLossModifier := s.amount.value)
    ensures s.ResetRequeueDelay? ==> r.requeueDelay.None? && r.(requeueDelay := comp.requeueDelay) == comp
    ensures s.ResetQueueTimeout? ==> r.queueTimeout.None? && r.(queueTimeout := comp.queueTimeout) == comp
    ensures !s.ResetQueueTimeout? ==> r.queueTimeout == comp.queueTimeout
  {
    match s
    case MultiQueueing(allow) => comp.(allowMultiQueueing := allow.value)
    case RequeueDelay(delay) => comp.(requeueDelay := delay)
    case ResetRequeueDelay => comp.(requeueDelay := None)
    case ResetQueueTimeout => comp.(queueTimeout := None)
    case DefaultWinModifier(amount) => comp.(defaultWinModifier := amount.value)
    case DefaultLossModifier(amount) => comp.(defaultLossModifier := amount.value)
  }

  datatype SettingOutcome = ShowSetting(comp: Competition) | SettingSaved(comp: Competition)

  function SettingStep(comps: seq<Competition>, guild: Id, s: CompetitionSetting): (r: (SettingOutcome, seq<Competition>))
    ensures r.0.ShowSetting? <==> OnlyShows(s)
    ensures r.0.ShowSetting? ==> r.1 == comps && r.0.comp == CompetitionOf(comps, guild)
    ensures r.0.SettingSaved? ==> r.0.comp == ApplySetting(CompetitionOf(comps, guild), s)
  {
    var comp := CompetitionOf(comps, guild);
    if OnlyShows(s) then (ShowSetting(comp), comps)
    else
      var updated := ApplySetting(comp, s);
      (SettingSaved(updated), Store(comps, updated))
  }

  /** A saved setting is what the guild reads back; the setters never make a timeout invalid. */
  lemma SettingIsReadBack(comps: seq<Competition>, guild: Id, s: CompetitionSetting)
    requires CompetitionKeysUnique(comps) && TimeoutsValid(comps)
    ensures var r := SettingStep(comps, guild, s);
            && CompetitionKeysUnique(r.1)
            && TimeoutsValid(r.1)
            && (r.0.SettingSaved? ==> CompetitionOf(r.1, guild) == r.0.comp)
            && (forall g :: g != guild ==> CompetitionOf(r.1, g) == CompetitionOf(comps, g))
  {
    var r := SettingStep(comps, guild, s);
    if r.0.SettingSaved? {
      var comp := CompetitionOf(comps, guild);
      StoreReadsBack(comps, r.0.comp, guild);
      forall g | g != guild ensures CompetitionOf(r.1, g) == CompetitionOf(comps, g) {
        StoreReadsBack(comps, r.0.comp, g);
      }
      if comp in comps {
        var k :| 0 <= k < |comps| && comps[k] == comp;
      }
      StoreKeepsTimeoutsValid(comps, r.0.comp);
    }
  }

  /* ------------------------------------------------------------------ */
  /* PurgeRegistrations                                                  */
  /* ------------------------------------------------------------------ */

  /** The confirmation code of `PurgeRegistrations`. */
  const ConfirmKey: string := "erkjbg4rt"

  datatype PurgeRegistrationsOutcome = NeedsConfirmation | RegistrationsRemoved(count: nat)

  /** Selects the players `PurgeRegistrations` keeps: other guilds', and those still in the guild. */
  function StillMember(guild: Id, members: set<Id>): Player -> bool {
    (p: Player) => !(p.guildId == guild && p.userId !in members)
  }

  function Departed(guild: Id, members: set<Id>): Player -> bool {
    (p: Player) => p.guildId == guild && p.userId !in members
  }

  /**
   * `PurgeRegistrationsAsync`: unless `confirm` is the confirmation code,
   * ignoring case, nothing happens; otherwise the registrations of the
   * guild's users that are not among its `members` are removed.
   */
  function PurgeRegistrationsStep(players: seq<Player>, guild: Id, confirm: Option<string>, members: set<Id>): (r: (PurgeRegistrationsOutcome, seq<Player>))
    ensures r.0 == NeedsConfirmation <==> !(confirm.Some? && LobbySetup.SameName(confirm.value, ConfirmKey))
    ensures r.0 == NeedsConfirmation ==> r.1 == players
    ensures forall p :: p in r.1 <==> p in players && (r.0 == NeedsConfirmation || p.guildId != guild || p.userId in members)
  {
    if confirm.None? || !LobbySetup.SameName(confirm.value, ConfirmKey) then (NeedsConfirmation, players)
    else
      var missing := Filter(players, Departed(guild, members));
      (RegistrationsRemoved(|missing|), Filter(players, StillMember(guild, members)))
  }

  /** The count reported is the number of registrations removed, and the code may be given in any case. */
  lemma PurgeRegistrationsCounts(players: seq<Player>, guild: Id, confirm: string, members: set<Id>)
    requires LobbySetup.SameName(confirm, ConfirmKey)
    ensures var r := PurgeRegistrationsStep(players, guild, Some(confirm), members);
            && r.0 == RegistrationsRemoved(|players| - |r.1|)
            && PurgeRegistrationsStep(players, guild, Some(LobbySetup.Folded(confirm)), members) == r
  {
    FilterSplitsLength(players, Departed(guild, members), StillMember(guild, members));
    LobbySetup.FoldingIsIdempotent(confirm);
  }

  /* ------------------------------------------------------------------ */
  /* The commands                                                        */
  /* ------------------------------------------------------------------ */

  /** `RedeemLegacyTokenAsync`. */
  method RedeemLegacyToken(db: Database, guild: Id, token: Option<string>, now: int) returns (outcome: RedeemOutcome)
    requires db.Valid()
    modifies db`competitions, db`legacyTokens
    ensures db.Valid()
    ensures RedeemResult(outcome, db.competitions, db.legacyTokens) ==
            RedeemStep(old(db.competitions), old(db.legacyTokens), guild, token, now)
  {
    if token.None? {
      return TokenHelp;
    }
    var t := token.value;
    if t !in db.legacyTokens {
      return InvalidToken;
    }
    var days := db.legacyTokens[t];
    var comp := CompetitionOf(db.competitions, guild);
    var expiry;
    if comp.legacyPremiumExpiry.None? {
      expiry := now + days * DaySeconds;
    } else {
      if comp.legacyPremiumExpiry.value < now {
        expiry := now + days * DaySeconds;
      } else {
        expiry := comp.legacyPremiumExpiry.value + days * DaySeconds;
      }
    }
    var updated := comp.(legacyPremiumExpiry := Some(expiry));
    StoreReadsBack(db.competitions, updated, guild);
    db.competitions, db.legacyTokens := Store(db.competitions, updated), db.legacyTokens - {t};
    outcome := TokenRedeemed(expiry);
  }

  /** Both forms of `AddRank`. */
  method AddRank(db: Database, guild: Id, roleId: Id, points: int, mods: RankModifiers) returns (outcome: AddRankOutcome)
    requires db.Valid()
    modifies db`ranks
    ensures db.Valid()
    ensures (outcome, db.ranks) == AddRankStep(old(db.ranks), guild, roleId, points, mods)
  {
    AddRankUpserts(db.ranks, guild, roleId, points, mods);
    var oldRank := RankIndex(db.ranks, roleId);
    if oldRank.Some? {
      var i := oldRank.value;
      var rank := db.ranks[i].(points := points);
      if mods.WithModifiers? {
        rank := rank.(winModifier := Some(mods.win), lossModifier := Some(mods.loss));
      }
      db.ranks := db.ranks[i := rank];
      outcome := RankUpdated;
    } else {
      var newRank := Rank(roleId, guild, points, None, None);
      if mods.WithModifiers? {
        newRank := newRank.(winModifier := Some(mods.win), lossModifier := Some(mods.loss));
      }
      db.ranks := db.ranks + [newRank];
      outcome := RankAdded;
    }
  }

  /** `RemoveRank(roleId)`. */
  method RemoveRank(db: Database, roleId: Id) returns (outcome: RemoveRankOutcome)
    requires db.Valid()
    modifies db`ranks
    ensures db.Valid()
    ensures (outcome, db.ranks) == RemoveRankStep(old(db.ranks), roleId)
  {
    RemoveRankRemovesOnlyThatRank(db.ranks, roleId);
    var rank := RankIndex(db.ranks, roleId);
    if rank.None? {
      return InvalidRank;
    }
    db.ranks := RemoveAt(db.ranks, rank.value);
    outcome := RankRemoved;
  }

  /** `RankWinModifier` and `RankLossModifier`. */
  method SetRankModifier(db: Database, roleId: Id, win: bool, amount: Option<int>) returns (outcome: ModifierOutcome)
    requires db.Valid()
    modifies db`ranks
    ensures db.Valid()
    ensures (outcome, db.ranks) == RankModifierStep(old(db.ranks), roleId, win, amount)
  {
    var rank := RankIndex(db.ranks, roleId);
    if rank.None? {
      return NotARank;
    }
    var i := rank.value;
    if win {
      db.ranks := db.ranks[i := db.ranks[i].(winModifier := amount)];
    } else {
      db.ranks := db.ranks[i := db.ranks[i].(lossModifier := amount)];
    }
    outcome := ModifierSet;
  }

  /** `PurgeRanks`; `roles` are the ids of the guild's roles. */
  method PurgeRanks(db: Database, guild: Id, roles: set<Id>)
    requires db.Valid()
    modifies db`ranks
    ensures db.Valid()
    ensures db.ranks == PurgeRanksStep(old(db.ranks), guild, roles)
  {
    PurgeRanksIsIdempotent(db.ranks, guild, roles);
    db.ranks := Filter(db.ranks, RankKept(guild, roles));
  }

  /** `SetQueueTimeout`. */
  method SetQueueTimeout(db: Database, guild: Id, timeout: Option<int>, premium: bool) returns (outcome: TimeoutOutcome)
    requires db.Valid()
    modifies db`competitions
    ensures db.Valid()
    ensures (outcome, db.competitions) == SetTimeoutStep(old(db.competitions), guild, timeout, premium)
  {
    if timeout.Some? && timeout.value < MinimumTimeout {
      return TooShort;
    }
    if !premium {
      return PremiumOnly;
    }
    var competition := CompetitionOf(db.competitions, guild);
    if timeout.None? {
      return ShowTimeout(competition.queueTimeout);
    }
    var updated := competition.(queueTimeout := timeout);
    StoreReadsBack(db.competitions, updated, guild);
    db.competitions := Store(db.competitions, updated);
    outcome := TimeoutSet;
  }

  /**
   * `AllowMultiQueueingAsync`, `SetReQueueDelayAsync`, `ResetReQueueDelayAsync`,
   * `ResetQueueTimeout`, `CompWinModifier` and `CompLossModifier`.
   */
  method SetCompetitionField(db: Database, guild: Id, s: CompetitionSetting) returns (outcome: SettingOutcome)
    requires db.Valid()
    modifies db`competitions
    ensures db.Valid()
    ensures (outcome, db.competitions) == SettingStep(old(db.competitions), guild, s)
  {
    var competition := CompetitionOf(db.competitions, guild);
    if OnlyShows(s) {
      return ShowSetting(competition);
    }
    var updated := ApplySetting(competition, s);
    StoreReadsBack(db.competitions, updated, guild);
    db.competitions := Store(db.competitions, updated);
    outcome := SettingSaved(updated);
  }

  /** `PurgeRegistrationsAsync`; `members` are the ids of the guild's current users. */
  method PurgeRegistrations(db: Database, guild: Id, confirm: Option<string>, members: set<Id>)
    returns (outcome: PurgeRegistrationsOutcome)
    requires db.Valid()
    modifies db`players
    ensures db.Valid()
    ensures (outcome, db.players) == PurgeRegistrationsStep(old(db.players), guild, confirm, members)
  {
    if confirm.None? || !LobbySetup.SameName(confirm.value, ConfirmKey) {
      return NeedsConfirmation;
    }
    var missing := Filter(db.players, Departed(guild, members));
    FilterKeepsPlayerKeysUnique(db.players, StillMember(guild, members));
    db.players := Filter(db.players, StillMember(guild, members));
    outcome := RegistrationsRemoved(|missing|);
  }

  /** Removing registrations cannot create a duplicate key. */
  lemma {:induction false} FilterKeepsPlayerKeysUnique(players: seq<Player>, keep: Player -> bool)
    requires PlayerKeysUnique(players)
    ensures PlayerKeysUnique(Filter(players, keep))
  {
    if players != [] {
      FilterKeepsPlayerKeysUnique(players[1..], keep);
      var rest := Filter(players[1..], keep);
      forall j | 0 <= j < |rest|
        ensures !(rest[j].guildId == players[0].guildId && rest[j].userId == players[0].userId)
      {
        assert rest[j] in players[1..];
        var k :| 0 <= k < |players[1..]| && players[1..][k] == rest[j];
        assert players[k + 1] == rest[j];
      }
    }
  }
}
