/**
 * Moderator and captain commands on a lobby's queue and its current game:
 * clearing the queue, forcing users in and out, substituting a player of a
 * game, and captains picking their teams.
 */
module LobbyManagement {
  import opened Entities

  /* ------------------------------------------------------------------ */
  /* ClearQueue                                                          */
  /* ------------------------------------------------------------------ */

  datatype ClearOutcome =
    | ClearNotALobby
    /** The queue was emptied; `canceled` is the drafting game this canceled, if any. */
    | Cleared(canceled: Option<int>)

  /** The games table after a clear: a latest game that is drafting becomes canceled. */
  function CancelDraft(games: seq<Game>, channel: Id): seq<Game> {
    match LatestGameIndex(games, channel)
    case Some(i) => if games[i].state == Picking then games[i := games[i].(state := Canceled)] else games
    case None => games
  }

  /**
   * After a clear the lobby has no queue and no draft in progress; the queues
   * and drafts of every other lobby are as they were.
   */
  lemma ClearQueueEndsQueueAndDraft(q: seq<QueuedPlayer>, games: seq<Game>, channel: Id, other: Id)
    ensures ChannelQueue(WithoutChannel(q, channel), channel) == []
    ensures !IsPicking(CancelDraft(games, channel), channel)
    ensures other != channel ==> ChannelQueue(WithoutChannel(q, channel), other) == ChannelQueue(q, other)
    ensures IsPicking(CancelDraft(games, channel), other) <==> other != channel && IsPicking(games, other)
  {
    WithoutChannelQueues(q, channel, other);
    match LatestGameIndex(games, channel)
    case Some(i) =>
      if games[i].state == Picking {
        var g := games[i].(state := Canceled);
        LatestGameIgnoresProgress(games, i, g, channel);
        LatestGameIgnoresProgress(games, i, g, other);
        if other != channel {
          var latest := LatestGameIndex(games, other);
          if latest.Some? {
            assert latest.value != i;
          }
        }
      }
    case None =>
  }

  /* ------------------------------------------------------------------ */
  /* ForceRemove                                                         */
  /* ------------------------------------------------------------------ */

  datatype RemoveOutcome = RemoveNotALobby | RemoveDuringDraft | Removed | NotInQueue

  /* ------------------------------------------------------------------ */
  /* ForceJoin                                                           */
  /* ------------------------------------------------------------------ */

  datatype ForceJoinOutcome =
    | ForceJoinNotALobby
    | ForceJoinDuringDraft
    /** `added` joined in this order; `handedOff` when the queue is full afterwards. */
    | ForceJoined(added: seq<Id>, handedOff: bool)

  /** The registrations in the guild of the named users, in table order. */
  function Candidates(players: seq<Player>, guild: Id, users: seq<Id>): (r: seq<Id>)
    ensures forall u :: u in r ==> u in users
  {
    if players == [] then []
    else (if players[0].guildId == guild && players[0].userId in users then [players[0].userId] else [])
         + Candidates(players[1..], guild, users)
  }

  /** One registration per user and guild gives each candidate once. */
  lemma {:induction false} CandidatesDistinct(players: seq<Player>, guild: Id, users: seq<Id>)
    requires PlayerKeysUnique(players)
    ensures Distinct(Candidates(players, guild, users))
    ensures forall u :: u in Candidates(players, guild, users) ==>
              exists i :: 0 <= i < |players| && players[i].guildId == guild && players[i].userId == u
  {
    if players != [] {
      CandidatesDistinct(players[1..], guild, users);
      var rest := Candidates(players[1..], guild, users);
      forall u | u in rest
        ensures exists i :: 0 <= i < |players| && players[i].guildId == guild && players[i].userId == u
      {
        var i :| 0 <= i < |players[1..]| && players[1..][i].guildId == guild && players[1..][i].userId == u;
        assert players[i + 1] == players[1..][i];
      }
      if players[0].guildId == guild && players[0].userId in users {
        assert players[0].userId !in rest;
        var r := [players[0].userId] + rest;
        forall a, b | 0 <= a < b < |r| ensures r[a] != r[b] {
          if a == 0 {
            assert r[b] == rest[b - 1];
            assert r[b] in rest;
          } else {
            assert r[a] == rest[a - 1] && r[b] == rest[b - 1];
          }
        }
      }
    }
  }

  /**
   * The candidates a forced join adds, in order, starting from `count` queued
   * players: it stops once the queue holds `cap` players and skips anyone
   * already queued.
   */
  function Admit(cands: seq<Id>, queued: set<Id>, count: int, cap: int): seq<Id> {
    if cands == [] || count >= cap then []
    else if cands[0] in queued then Admit(cands[1..], queued, count, cap)
    else [cands[0]] + Admit(cands[1..], queued, count + 1, cap)
  }

  /**
   * A forced join admits only unqueued candidates, each once, never fills the
   * queue past `cap`, and turns away an unqueued candidate only when the queue
   * became full.
   */
  lemma {:induction false} AdmitSoundAndComplete(cands: seq<Id>, queued: set<Id>, count: int, cap: int)
    requires Distinct(cands)
    ensures var r := Admit(cands, queued, count, cap);
            && Distinct(r)
            && (forall u :: u in r ==> u in cands && u !in queued)
            && (if count < cap then count + |r| <= cap else r == [])
            && (count + |r| < cap ==> forall u :: u in cands && u !in queued ==> u in r)
  {
    if cands != [] && count < cap {
      assert Distinct(cands[1..]) by {
        forall a, b | 0 <= a < b < |cands[1..]| ensures cands[1..][a] != cands[1..][b] {
          assert cands[1..][a] == cands[a + 1] && cands[1..][b] == cands[b + 1];
        }
      }
      if cands[0] in queued {
        AdmitSoundAndComplete(cands[1..], queued, count, cap);
      } else {
        AdmitSoundAndComplete(cands[1..], queued, count + 1, cap);
        var rest := Admit(cands[1..], queued, count + 1, cap);
        var r := [cands[0]] + rest;
        assert cands[0] !in cands[1..];
        forall a, b | 0 <= a < b < |r| ensures r[a] != r[b] {
          assert r[b] == rest[b - 1] && r[b] in rest;
          if a > 0 {
            assert r[a] == rest[a - 1];
          }
        }
      }
      forall u | u in cands && u !in queued && u != cands[0] ensures u in cands[1..] {
        var k :| 0 <= k < |cands| && cands[k] == u;
        assert cands[1..][k - 1] == u;
      }
    }
  }

  /** The queue rows a forced join inserts for `ids`. */
  function JoinRows(lobby: Lobby, ids: seq<Id>, now: int): (r: seq<QueuedPlayer>)
    ensures |r| == |ids|
    ensures forall i :: 0 <= i < |ids| ==> r[i] == QueuedPlayer(lobby.guildId, lobby.channelId, ids[i], now)
  {
    seq(|ids|, i requires 0 <= i < |ids| => QueuedPlayer(lobby.guildId, lobby.channelId, ids[i], now))
  }

  /** Rows for distinct users not yet in the lobby's queue keep the queue's keys unique. */
  lemma JoinRowsKeepKeysUnique(q: seq<QueuedPlayer>, lobby: Lobby, ids: seq<Id>, now: int)
    requires QueueKeysUnique(q) && Distinct(ids)
    requires forall u :: u in ids ==> !InQueue(q, lobby.channelId, u)
    ensures QueueKeysUnique(q + JoinRows(lobby, ids, now))
  {
    var r := q + JoinRows(lobby, ids, now);
    forall a, b | 0 <= a < b < |r| && r[a].channelId == r[b].channelId ensures r[a].userId != r[b].userId {
      if b >= |q| {
        assert r[b].userId == ids[b - |q|] && ids[b - |q|] in ids;
        if a >= |q| {
          assert r[a].userId == ids[a - |q|];
        }
      }
    }
  }

  /** The user ids of a lobby's queue. */
  function QueuedUsers(q: seq<QueuedPlayer>, channel: Id): (r: set<Id>)
    ensures forall u :: u in r <==> InQueue(q, channel, u)
  {
    set i | 0 <= i < |q| && q[i].channelId == channel :: q[i].userId
  }

  /* ------------------------------------------------------------------ */
  /* Sub                                                                 */
  /* ------------------------------------------------------------------ */

  datatype SubOutcome =
    | SubNotALobby
    | InvalidGame
    | NotUndecided
    | ReplacementNotRegistered
    | AlreadyInGame
    /** The user holds no seat in the game (or, while drafting, no place in the pool). */
    | NotInGame
    | ReplacerInPool
    /** The user's place in the pool of undrafted players went to the replacement. */
    | PoolReplaced
    | TeamReplaced(team: int)
    /** The user's captaincy went to the replacement, and their pool place too when `poolToo`. */
    | CaptainReplaced(team: int, poolToo: bool)

  /** The outcome of a substitution and the three tables after it. */
  datatype SubResult = SubResult(outcome: SubOutcome, queued: seq<QueuedPlayer>,
                                 teamPlayers: seq<TeamPlayer>, captains: seq<TeamCaptain>)

  predicate Succeeded(o: SubOutcome) {
    o.PoolReplaced? || o.TeamReplaced? || o.CaptainReplaced?
  }

  /** The game with this number in the lobby. */
  function GameIndex(games: seq<Game>, channel: Id, gameNumber: int): (r: Option<nat>)
    ensures r.Some? ==> r.value < |games| && games[r.value].gameId == gameNumber && games[r.value].lobbyId == channel
  {
    FirstIndex(games, (g: Game) => g.gameId == gameNumber && g.lobbyId == channel)
  }

  /** The user's row in a team of a game. */
  function TeamRowIndex(tp: seq<TeamPlayer>, channel: Id, game: int, team: int, user: Id): (r: Option<nat>)
    ensures r.Some? ==> r.value < |tp| && tp[r.value] == TeamPlayer(tp[r.value].guildId, channel, game, user, team)
    ensures r.None? <==> forall i :: 0 <= i < |tp| ==>
              !(tp[i].channelId == channel && tp[i].gameNumber == game && tp[i].teamNumber == team && tp[i].userId == user)
  {
    FirstIndex(tp, (t: TeamPlayer) => t.channelId == channel && t.gameNumber == game && t.teamNumber == team && t.userId == user)
  }

  predicate OnTeam(tp: seq<TeamPlayer>, channel: Id, game: int, team: int, user: Id) {
    TeamRowIndex(tp, channel, game, team, user).Some?
  }

  /** The captain row of a team of a game. */
  function CaptainIndex(caps: seq<TeamCaptain>, channel: Id, game: int, team: int): (r: Option<nat>)
    ensures r.Some? ==> r.value < |caps| && caps[r.value].channelId == channel &&
                        caps[r.value].gameNumber == game && caps[r.value].teamNumber == team
    ensures r.Some? ==> forall j :: 0 <= j < r.value ==>
              !(caps[j].channelId == channel && caps[j].gameNumber == game && caps[j].teamNumber == team)
    ensures r.None? ==> forall j :: 0 <= j < |caps| ==>
              !(caps[j].channelId == channel && caps[j].gameNumber == game && caps[j].teamNumber == team)
  {
    FirstIndex(caps, CaptainOf(channel, game, team))
  }

  /** Selects the captain rows of a team of a game. */
  function CaptainOf(channel: Id, game: int, team: int): TeamCaptain -> bool {
    (c: TeamCaptain) => c.channelId == channel && c.gameNumber == game && c.teamNumber == team
  }

  predicate IsCaptain(caps: seq<TeamCaptain>, channel: Id, game: int, team: int, user: Id) {
    match CaptainIndex(caps, channel, game, team)
    case Some(i) => caps[i].userId == user
    case None => false
  }

  /** The user holds a seat in the game: a place in team 1 or 2, or a captaincy. */
  predicate InGame(tp: seq<TeamPlayer>, caps: seq<TeamCaptain>, channel: Id, game: int, user: Id) {
    OnTeam(tp, channel, game, 1, user) || OnTeam(tp, channel, game, 2, user) ||
    IsCaptain(caps, channel, game, 1, user) || IsCaptain(caps, channel, game, 2, user)
  }

  predicate Registered(players: seq<Player>, guild: Id, user: Id) {
    exists i :: 0 <= i < |players| && players[i].guildId == guild && players[i].userId == user
  }

  /** The pool with the user's place handed to the replacement. */
  function SwapQueued(q: seq<QueuedPlayer>, lobby: Lobby, user: Id, replacer: Id, now: int): seq<QueuedPlayer> {
    WithoutEntry(q, lobby.channelId, user) + [QueuedPlayer(lobby.guildId, lobby.channelId, replacer, now)]
  }

  /** The decision and effect of `Sub`, which substitutes `replacer` for `user` in a game of the lobby. */
  function SubStep(lobbies: seq<Lobby>, games: seq<Game>, players: seq<Player>, q: seq<QueuedPlayer>,
                   tp: seq<TeamPlayer>, caps: seq<TeamCaptain>,
                   channel: Id, gameNumber: int, user: Id, replacer: Id, now: int): SubResult
  {
    match LobbyIndex(lobbies, channel)
    case None => SubResult(SubNotALobby, q, tp, caps)
    case Some(li) =>
      var lobby := lobbies[li];
      match GameIndex(games, channel, gameNumber)
      case None => SubResult(InvalidGame, q, tp, caps)
      case Some(gi) =>
        var game := games[gi].gameId;
        var drafting := games[gi].state == Picking;
        if games[gi].state != Undecided && !drafting then SubResult(NotUndecided, q, tp, caps)
        else if !Registered(players, lobby.guildId, replacer) then SubResult(ReplacementNotRegistered, q, tp, caps)
        else if InGame(tp, caps, channel, game, replacer) then SubResult(AlreadyInGame, q, tp, caps)
        else if !InGame(tp, caps, channel, game, user) then SubInPool(q, tp, caps, lobby, drafting, user, replacer, now)
        else if OnTeam(tp, channel, game, 1, user) || OnTeam(tp, channel, game, 2, user) then
          SubInTeam(q, tp, caps, lobby, game, user, replacer)
        else SubCaptain(q, tp, caps, lobby, game, drafting, user, replacer, now)
  }

  /** `Sub` for a user with no seat in the game: only a drafting game's pool place can be handed over. */
  function SubInPool(q: seq<QueuedPlayer>, tp: seq<TeamPlayer>, caps: seq<TeamCaptain>, lobby: Lobby,
                     drafting: bool, user: Id, replacer: Id, now: int): SubResult
  {
    if !drafting || !InQueue(q, lobby.channelId, user) then SubResult(NotInGame, q, tp, caps)
    else if InQueue(q, lobby.channelId, replacer) then SubResult(ReplacerInPool, q, tp, caps)
    else SubResult(PoolReplaced, SwapQueued(q, lobby, user, replacer, now), tp, caps)
  }

  /** `Sub` for a user on team 1 (looked at first) or team 2: their row goes to the replacement. */
  function SubInTeam(q: seq<QueuedPlayer>, tp: seq<TeamPlayer>, caps: seq<TeamCaptain>, lobby: Lobby,
                     game: int, user: Id, replacer: Id): SubResult
    requires OnTeam(tp, lobby.channelId, game, 1, user) || OnTeam(tp, lobby.channelId, game, 2, user)
  {
    var team := if OnTeam(tp, lobby.channelId, game, 1, user) then 1 else 2;
    var ti := TeamRowIndex(tp, lobby.channelId, game, team, user).value;
    SubResult(TeamReplaced(team), q, RemoveAt(tp, ti) + [TeamPlayer(lobby.guildId, lobby.channelId, game, replacer, team)], caps)
  }

  /** The captains table with the captaincy of `team` handed to `replacer`. */
  function RenameCaptain(caps: seq<TeamCaptain>, channel: Id, game: int, team: int, replacer: Id): seq<TeamCaptain>
    requires CaptainIndex(caps, channel, game, team).Some?
  {
    var ci := CaptainIndex(caps, channel, game, team).value;
    caps[ci := caps[ci].(userId := replacer)]
  }

  /** `Sub` for a captain (of team 1, looked at first, or team 2). */
  function SubCaptain(q: seq<QueuedPlayer>, tp: seq<TeamPlayer>, caps: seq<TeamCaptain>, lobby: Lobby,
                      game: int, drafting: bool, user: Id, replacer: Id, now: int): SubResult
    requires IsCaptain(caps, lobby.channelId, game, 1, user) || IsCaptain(caps, lobby.channelId, game, 2, user)
  {
    var channel := lobby.channelId;
    var team := if IsCaptain(caps, channel, game, 1, user) then 1 else 2;
    var caps' := RenameCaptain(caps, channel, game, team, replacer);
    if !drafting then SubResult(CaptainReplaced(team, false), q, tp, caps')
    // While drafting the captain's pool place is handed over too; with no such
    // place the command stops here and the new captain is not saved.
    else if !InQueue(q, channel, user) && !IsCaptain(caps', channel, game, 1, user) && !IsCaptain(caps', channel, game, 2, user)
    then SubResult(NotInGame, q, tp, caps)
    else if InQueue(q, channel, replacer) then SubResult(ReplacerInPool, q, tp, caps)
    else if InQueue(q, channel, user) then SubResult(CaptainReplaced(team, true), SwapQueued(q, lobby, user, replacer, now), tp, caps')
    else SubResult(CaptainReplaced(team, false), q, tp, caps')
  }

  /** Every team-1/2 seat and captaincy of the game is held by a different user. */
  predicate OneSeatEach(tp: seq<TeamPlayer>, caps: seq<TeamCaptain>, channel: Id, game: int) {
    && (forall i, j :: 0 <= i < j < |tp| && Seat(tp[i], channel, game) && Seat(tp[j], channel, game) ==>
          tp[i].userId != tp[j].userId)
    && (forall i :: 0 <= i < |tp| && Seat(tp[i], channel, game) ==>
          !IsCaptain(caps, channel, game, 1, tp[i].userId) && !IsCaptain(caps, channel, game, 2, tp[i].userId))
    && (CaptainIndex(caps, channel, game, 1).Some? && CaptainIndex(caps, channel, game, 2).Some? ==>
          caps[CaptainIndex(caps, channel, game, 1).value].userId != caps[CaptainIndex(caps, channel, game, 2).value].userId)
  }

  /** A team-1 or team-2 row of the game. */
  predicate Seat(t: TeamPlayer, channel: Id, game: int) {
    t.channelId == channel && t.gameNumber == game && (t.teamNumber == 1 || t.teamNumber == 2)
  }

  /** Handing a captaincy to someone else leaves every team's captain row where it was. */
  lemma CaptainIndexAfterRename(caps: seq<TeamCaptain>, ci: nat, replacer: Id, channel: Id, game: int, team: int)
    requires ci < |caps|
    ensures CaptainIndex(caps[ci := caps[ci].(userId := replacer)], channel, game, team) == CaptainIndex(caps, channel, game, team)
  {
    FirstIndexSameSelection(caps, caps[ci := caps[ci].(userId := replacer)], CaptainOf(channel, game, team));
  }

  /** Membership of a team after one of its rows is replaced by a row for `replacer`. */
  lemma OnTeamAfterSwap(tp: seq<TeamPlayer>, ti: nat, row: TeamPlayer, channel: Id, game: int, team: int, u: Id)
    requires ti < |tp|
    ensures OnTeam(RemoveAt(tp, ti) + [row], channel, game, team, u) <==>
              (row == TeamPlayer(row.guildId, channel, game, u, team) ||
               exists j :: 0 <= j < |tp| && j != ti && tp[j] == TeamPlayer(tp[j].guildId, channel, game, u, team))
  {
    var tp' := RemoveAt(tp, ti) + [row];
    if OnTeam(tp', channel, game, team, u) {
      var k := TeamRowIndex(tp', channel, game, team, u).value;
      if k < |tp| - 1 {
        var j := if k < ti then k else k + 1;
        assert tp[j] == tp'[k];
      }
    } else {
      forall j | 0 <= j < |tp| && j != ti ensures tp[j] != TeamPlayer(tp[j].guildId, channel, game, u, team) {
        var k := if j < ti then j else j - 1;
        assert tp'[k] == tp[j];
      }
      assert tp'[|tp| - 1] == row;
    }
  }

  /** The seat rows stay held by distinct users when one is handed to a user outside the game. */
  lemma SwapKeepsSeatsDistinct(tp: seq<TeamPlayer>, caps: seq<TeamCaptain>, channel: Id, game: int, ti: nat, row: TeamPlayer)
    requires OneSeatEach(tp, caps, channel, game)
    requires ti < |tp| && !InGame(tp, caps, channel, game, row.userId)
    ensures var tp' := RemoveAt(tp, ti) + [row];
            forall i, j :: 0 <= i < j < |tp'| && Seat(tp'[i], channel, game) && Seat(tp'[j], channel, game) ==>
              tp'[i].userId != tp'[j].userId
  {
    var tp' := RemoveAt(tp, ti) + [row];
    assert tp'[|tp'| - 1] == row;
    forall i, j | 0 <= i < j < |tp'| && Seat(tp'[i], channel, game) && Seat(tp'[j], channel, game)
      ensures tp'[i].userId != tp'[j].userId
    {
      var i0 := if i < ti then i else i + 1;
      assert tp'[i] == tp[i0];
      if j < |tp'| - 1 {
        var j0 := if j < ti then j else j + 1;
        assert tp'[j] == tp[j0];
      } else {
        assert tp[i0] == TeamPlayer(tp[i0].guildId, channel, game, tp[i0].userId, tp[i0].teamNumber);
        assert TeamRowIndex(tp, channel, game, tp[i0].teamNumber, tp[i0].userId).Some?;
      }
    }
  }

  /**
   * Replacing the user's team row by a row for `replacer` in the same team takes
   * the user out of the game, seats `replacer`, and keeps seats distinct.
   */
  lemma {:induction false} TeamSwapKeepsOneSeatEach(tp: seq<TeamPlayer>, caps: seq<TeamCaptain>, channel: Id, game: int,
                                                    ti: nat, guild: Id, user: Id, replacer: Id)
    requires OneSeatEach(tp, caps, channel, game)
    requires ti < |tp| && Seat(tp[ti], channel, game) && tp[ti].userId == user
    requires !InGame(tp, caps, channel, game, replacer)
    ensures var tp' := RemoveAt(tp, ti) + [TeamPlayer(guild, channel, game, replacer, tp[ti].teamNumber)];
            && !InGame(tp', caps, channel, game, user)
            && OnTeam(tp', channel, game, tp[ti].teamNumber, replacer)
            && OneSeatEach(tp', caps, channel, game)
  {
    var team := tp[ti].teamNumber;
    var row := TeamPlayer(guild, channel, game, replacer, team);
    var tp' := RemoveAt(tp, ti) + [row];
    assert TeamRowIndex(tp, channel, game, team, user).Some?;
    forall t | t == 1 || t == 2 ensures !OnTeam(tp', channel, game, t, user) {
      OnTeamAfterSwap(tp, ti, row, channel, game, t, user);
    }
    OnTeamAfterSwap(tp, ti, row, channel, game, team, replacer);
    SwapKeepsSeatsDistinct(tp, caps, channel, game, ti, row);
    forall i | 0 <= i < |tp'| && Seat(tp'[i], channel, game)
      ensures !IsCaptain(caps, channel, game, 1, tp'[i].userId) && !IsCaptain(caps, channel, game, 2, tp'[i].userId)
    {
      if i < |tp'| - 1 {
        var i0 := if i < ti then i else i + 1;
        assert tp'[i] == tp[i0];
      }
    }
  }

  /**
   * Handing the captaincy of `team` from the user to `replacer` takes the user
   * out of the game, makes `replacer` captain, and keeps seats distinct.
   */
  lemma {:induction false} CaptainSwapKeepsOneSeatEach(tp: seq<TeamPlayer>, caps: seq<TeamCaptain>, channel: Id, game: int,
                                                       team: int, user: Id, replacer: Id)
    requires OneSeatEach(tp, caps, channel, game)
    requires team == 1 || team == 2
    requires IsCaptain(caps, channel, game, team, user)
    requires !OnTeam(tp, channel, game, 1, user) && !OnTeam(tp, channel, game, 2, user)
    requires !InGame(tp, caps, channel, game, replacer)
    ensures var caps' := RenameCaptain(caps, channel, game, team, replacer);
            && !InGame(tp, caps', channel, game, user)
            && IsCaptain(caps', channel, game, team, replacer)
            && OneSeatEach(tp, caps', channel, game)
  {
    var ci := CaptainIndex(caps, channel, game, team).value;
    var caps' := caps[ci := caps[ci].(userId := replacer)];
    CaptainIndexAfterRename(caps, ci, replacer, channel, game, 1);
    CaptainIndexAfterRename(caps, ci, replacer, channel, game, 2);
    forall i | 0 <= i < |tp| && Seat(tp[i], channel, game)
      ensures !IsCaptain(caps', channel, game, 1, tp[i].userId) && !IsCaptain(caps', channel, game, 2, tp[i].userId)
    {
      assert tp[i] == TeamPlayer(tp[i].guildId, channel, game, tp[i].userId, tp[i].teamNumber);
      assert TeamRowIndex(tp, channel, game, tp[i].teamNumber, tp[i].userId).Some?;
    }
  }

  /**
   * Substituting a team player takes the user out of the game, seats the
   * replacement in the user's team, and keeps every seat of the game held by a
   * different user.
   */
  lemma SubInTeamHandsOverTheSeat(q: seq<QueuedPlayer>, tp: seq<TeamPlayer>, caps: seq<TeamCaptain>, lobby: Lobby,
                                  game: int, user: Id, replacer: Id)
    requires OneSeatEach(tp, caps, lobby.channelId, game)
    requires OnTeam(tp, lobby.channelId, game, 1, user) || OnTeam(tp, lobby.channelId, game, 2, user)
    requires !InGame(tp, caps, lobby.channelId, game, replacer)
    ensures var r := SubInTeam(q, tp, caps, lobby, game, user, replacer);
            && r.outcome.TeamReplaced? && r.queued == q && r.captains == caps
            && !InGame(r.teamPlayers, caps, lobby.channelId, game, user)
            && OnTeam(r.teamPlayers, lobby.channelId, game, r.outcome.team, replacer)
            && OneSeatEach(r.teamPlayers, caps, lobby.channelId, game)
  {
    var team := if OnTeam(tp, lobby.channelId, game, 1, user) then 1 else 2;
    var ti := TeamRowIndex(tp, lobby.channelId, game, team, user).value;
    TeamSwapKeepsOneSeatEach(tp, caps, lobby.channelId, game, ti, lobby.guildId, user, replacer);
  }

  /**
   * A captain substitution that goes through takes the user out of the game,
   * makes the replacement captain of the same team, and keeps every seat of
   * the game held by a different user.
   */
  lemma SubCaptainHandsOverTheSeat(q: seq<QueuedPlayer>, tp: seq<TeamPlayer>, caps: seq<TeamCaptain>, lobby: Lobby,
                                   game: int, drafting: bool, user: Id, replacer: Id, now: int)
    requires OneSeatEach(tp, caps, lobby.channelId, game)
    requires IsCaptain(caps, lobby.channelId, game, 1, user) || IsCaptain(caps, lobby.channelId, game, 2, user)
    requires !OnTeam(tp, lobby.channelId, game, 1, user) && !OnTeam(tp, lobby.channelId, game, 2, user)
    requires !InGame(tp, caps, lobby.channelId, game, replacer)
    requires SubCaptain(q, tp, caps, lobby, game, drafting, user, replacer, now).outcome.CaptainReplaced?
    ensures var r := SubCaptain(q, tp, caps, lobby, game, drafting, user, replacer, now);
            && r.teamPlayers == tp
            && !InGame(tp, r.captains, lobby.channelId, game, user)
            && IsCaptain(r.captains, lobby.channelId, game, r.outcome.team, replacer)
            && OneSeatEach(tp, r.captains, lobby.channelId, game)
  {
    var team := if IsCaptain(caps, lobby.channelId, game, 1, user) then 1 else 2;
    CaptainSwapKeepsOneSeatEach(tp, caps, lobby.channelId, game, team, user, replacer);
  }

  /** A substitution that seats the replacement went through `SubInTeam` or `SubCaptain`. */
  lemma SubSeatsThroughTeamOrCaptaincy(lobbies: seq<Lobby>, games: seq<Game>, players: seq<Player>, q: seq<QueuedPlayer>,
                                       tp: seq<TeamPlayer>, caps: seq<TeamCaptain>,
                                       channel: Id, gameNumber: int, user: Id, replacer: Id, now: int)
    requires var o := SubStep(lobbies, games, players, q, tp, caps, channel, gameNumber, user, replacer, now).outcome;
             o.TeamReplaced? || o.CaptainReplaced?
    ensures LobbyIndex(lobbies, channel).Some? && GameIndex(games, channel, gameNumber).Some?
    ensures var lobby := lobbies[LobbyIndex(lobbies, channel).value];
            var g := games[GameIndex(games, channel, gameNumber).value];
            var r := SubStep(lobbies, games, players, q, tp, caps, channel, gameNumber, user, replacer, now);
            && lobby.channelId == channel
            && !InGame(tp, caps, channel, gameNumber, replacer)
            && ((OnTeam(tp, channel, gameNumber, 1, user) || OnTeam(tp, channel, gameNumber, 2, user)) ==>
                  r == SubInTeam(q, tp, caps, lobby, gameNumber, user, replacer))
            && (!OnTeam(tp, channel, gameNumber, 1, user) && !OnTeam(tp, channel, gameNumber, 2, user) ==>
                  (IsCaptain(caps, channel, gameNumber, 1, user) || IsCaptain(caps, channel, gameNumber, 2, user)) &&
                  r == SubCaptain(q, tp, caps, lobby, gameNumber, g.state == Picking, user, replacer, now))
  {
  }

  /**
   * While a game is drafting, substituting a captain who has no place in the
   * pool (the first pick takes the captains out of it) reports the captain as
   * not in the game and saves nothing, although the captaincy was found.
   */
  lemma CaptainSubDuringDraftNeedsPoolPlace(lobbies: seq<Lobby>, games: seq<Game>, players: seq<Player>, q: seq<QueuedPlayer>,
                                            tp: seq<TeamPlayer>, caps: seq<TeamCaptain>,
                                            channel: Id, gameNumber: int, user: Id, replacer: Id, now: int)
    requires LobbyIndex(lobbies, channel).Some? && GameIndex(games, channel, gameNumber).Some?
    requires games[GameIndex(games, channel, gameNumber).value].state == Picking
    requires Registered(players, lobbies[LobbyIndex(lobbies, channel).value].guildId, replacer)
    requires !InGame(tp, caps, channel, gameNumber, replacer)
    requires !OnTeam(tp, channel, gameNumber, 1, user) && !OnTeam(tp, channel, gameNumber, 2, user)
    requires IsCaptain(caps, channel, gameNumber, 1, user) != IsCaptain(caps, channel, gameNumber, 2, user)
    requires !InQueue(q, channel, user)
    ensures SubStep(lobbies, games, players, q, tp, caps, channel, gameNumber, user, replacer, now) ==
            SubResult(NotInGame, q, tp, caps)
  {
    var team := if IsCaptain(caps, channel, gameNumber, 1, user) then 1 else 2;
    var ci := CaptainIndex(caps, channel, gameNumber, team).value;
    CaptainIndexAfterRename(caps, ci, replacer, channel, gameNumber, 1);
    CaptainIndexAfterRename(caps, ci, replacer, channel, gameNumber, 2);
    var lobby := lobbies[LobbyIndex(lobbies, channel).value];
    assert SubStep(lobbies, games, players, q, tp, caps, channel, gameNumber, user, replacer, now) ==
           SubCaptain(q, tp, caps, lobby, gameNumber, true, user, replacer, now);
  }

  /** Handing a queued user's place to an unqueued one keeps the queue's length and keys. */
  lemma {:induction false} SwapQueuedKeepsQueue(q: seq<QueuedPlayer>, lobby: Lobby, user: Id, replacer: Id, now: int)
    requires QueueKeysUnique(q)
    requires InQueue(q, lobby.channelId, user) && !InQueue(q, lobby.channelId, replacer)
    ensures var q' := SwapQueued(q, lobby, user, replacer, now);
            && QueueKeysUnique(q')
            && !InQueue(q', lobby.channelId, user) && InQueue(q', lobby.channelId, replacer)
            && |ChannelQueue(q', lobby.channelId)| == |ChannelQueue(q, lobby.channelId)|
  {
    var channel := lobby.channelId;
    var w := WithoutEntry(q, channel, user);
    var row := QueuedPlayer(lobby.guildId, channel, replacer, now);
    FilterKeepsQueueKeysUnique(q, OtherThan(channel, user));
    assert !InQueue(w, channel, replacer) by {
      forall i | 0 <= i < |w| ensures !(w[i].channelId == channel && w[i].userId == replacer) {
        assert w[i] in w;
      }
    }
    assert !InQueue(w, channel, user) by {
      forall i | 0 <= i < |w| ensures !(w[i].channelId == channel && w[i].userId == user) {
        assert w[i] in w;
      }
    }
    AppendKeepsQueueKeysUnique(w, row);
    assert (w + [row])[|w|] == row;
    ChannelQueueSnoc(w, row, channel);
    WithoutEntryShortensQueue(q, channel, user);
  }

  /**
   * A successful substitution in the pool hands the user's place to the
   * replacement: the lobby's queue keeps its length and its unique keys.
   */
  lemma {:induction false} SubSwapsPoolPlace(lobbies: seq<Lobby>, games: seq<Game>, players: seq<Player>, q: seq<QueuedPlayer>,
                                             tp: seq<TeamPlayer>, caps: seq<TeamCaptain>,
                                             channel: Id, gameNumber: int, user: Id, replacer: Id, now: int)
    requires QueueKeysUnique(q)
    requires var o := SubStep(lobbies, games, players, q, tp, caps, channel, gameNumber, user, replacer, now).outcome;
             o.PoolReplaced? || (o.CaptainReplaced? && o.poolToo)
    ensures var r := SubStep(lobbies, games, players, q, tp, caps, channel, gameNumber, user, replacer, now);
            && QueueKeysUnique(r.queued)
            && !InQueue(r.queued, channel, user) && InQueue(r.queued, channel, replacer)
            && |ChannelQueue(r.queued, channel)| == |ChannelQueue(q, channel)|
  {
    var lobby := lobbies[LobbyIndex(lobbies, channel).value];
    SwapQueuedKeepsQueue(q, lobby, user, replacer, now);
  }

  /* ------------------------------------------------------------------ */
  /* Pick                                                                */
  /* ------------------------------------------------------------------ */

  type TeamNumber = t: int | t == 1 || t == 2 witness 1

  /**
   * The verdict of the captains' turn rules (pick one, or pick two): the pick
   * is refused, or the picked users join the team of the captain whose turn it is.
   */
  datatype Turn = TurnRefused | PicksFor(team: TeamNumber)

  datatype PickOutcome =
    | DuplicateUsers
    | PickNotALobby
    | NoGame
    | NotPicking
    | NotInPool
    | AlreadyPicked
    /** A captain row is missing when the captain check dereferences it: the command faults. */
    | MissingCaptain
    | CaptainSelected
    | PickRefused
    /** The draft goes on; `remaining` are the undrafted users of the pool. */
    | Picked(remaining: seq<Id>)
    /** Both teams are full: the game starts and the queue is emptied. */
    | GameReady

  /** The outcome of a pick and the three tables after it. */
  datatype PickResult = PickResult(outcome: PickOutcome, queued: seq<QueuedPlayer>,
                                   teamPlayers: seq<TeamPlayer>, games: seq<Game>)

  predicate PickSucceeded(o: PickOutcome) {
    o.Picked? || o.GameReady?
  }

  /** The user holding a team's captaincy of a game, if the captain row exists. */
  function CaptainUser(caps: seq<TeamCaptain>, channel: Id, game: int, team: int): (r: Option<Id>)
    ensures r.Some? <==> CaptainIndex(caps, channel, game, team).Some?
    ensures r.Some? ==> IsCaptain(caps, channel, game, team, r.value)
  {
    match CaptainIndex(caps, channel, game, team)
    case Some(i) => Some(caps[i].userId)
    case None => None
  }

  /** The queue without the row of `captain`, if there is a captain. */
  function DropCaptain(q: seq<QueuedPlayer>, channel: Id, captain: Option<Id>): (r: seq<QueuedPlayer>)
    ensures forall u: Id :: InQueue(r, channel, u) ==> InQueue(q, channel, u) && captain != Some(u)
  {
    match captain
    case Some(c) =>
      var r := WithoutEntry(q, channel, c);
      assert forall u :: InQueue(r, channel, u) ==> InQueue(q, channel, u) && c != u by {
        forall u | InQueue(r, channel, u) ensures InQueue(q, channel, u) && c != u {
          var i :| 0 <= i < |r| && r[i].channelId == channel && r[i].userId == u;
          assert r[i] in r;
        }
      }
      r
    case None => q
  }

  lemma DropCaptainKeepsQueueKeysUnique(q: seq<QueuedPlayer>, channel: Id, captain: Option<Id>)
    requires QueueKeysUnique(q)
    ensures QueueKeysUnique(DropCaptain(q, channel, captain))
  {
    if captain.Some? {
      FilterKeepsQueueKeysUnique(q, OtherThan(channel, captain.value));
    }
  }

  /**
   * `users.Any(u => u.Id == cap1.UserId || u.Id == cap2.UserId)`, evaluated
   * left to right: `None` where a missing captain row is dereferenced.
   */
  function SelectsCaptain(users: seq<Id>, cap1: Option<Id>, cap2: Option<Id>): Option<bool> {
    if users == [] then Some(false)
    else if cap1.None? then None
    else if users[0] == cap1.value then Some(true)
    else if cap2.None? then None
    else if users[0] == cap2.value then Some(true)
    else SelectsCaptain(users[1..], cap1, cap2)
  }

  /**
   * For users none of whom is a captain, the captain check never reports a
   * captain; it faults exactly when some user is named and a captain row is missing.
   */
  lemma {:induction false} SelectsCaptainOnlyFaults(users: seq<Id>, cap1: Option<Id>, cap2: Option<Id>)
    requires forall i :: 0 <= i < |users| ==> Some(users[i]) != cap1 && Some(users[i]) != cap2
    ensures SelectsCaptain(users, cap1, cap2) == if users != [] && (cap1.None? || cap2.None?) then None else Some(false)
  {
    if users != [] && cap1.Some? && cap2.Some? {
      SelectsCaptainOnlyFaults(users[1..], cap1, cap2);
    }
  }

  /** The rows the captain's turn adds: each picked user on `team`. */
  function PickRows(guild: Id, channel: Id, game: int, users: seq<Id>, team: int): (r: seq<TeamPlayer>)
    ensures |r| == |users|
    ensures forall i :: 0 <= i < |users| ==> r[i] == TeamPlayer(guild, channel, game, users[i], team)
  {
    seq(|users|, i requires 0 <= i < |users| => TeamPlayer(guild, channel, game, users[i], team))
  }

  /** Selects the rows of one team of a game. */
  function SeatIn(channel: Id, game: int, team: int): TeamPlayer -> bool {
    (t: TeamPlayer) => t.channelId == channel && t.gameNumber == game && t.teamNumber == team
  }

  /** The number of players on a team of a game, captains apart. */
  function TeamSize(tp: seq<TeamPlayer>, channel: Id, game: int, team: int): nat {
    |Filter(tp, SeatIn(channel, game, team))|
  }

  /** The team the last undrafted user is put on: team 2 if team 1 is larger, else team 1. */
  function AutofillTeam(tp: seq<TeamPlayer>, channel: Id, game: int): TeamNumber {
    if TeamSize(tp, channel, game, 1) > TeamSize(tp, channel, game, 2) then 2 else 1
  }

  /** Everyone on team 1 or 2 of the game, captains included. */
  function AssignedUsers(tp: seq<TeamPlayer>, caps: seq<TeamCaptain>, channel: Id, game: int): set<Id> {
    var c1 := CaptainUser(caps, channel, game, 1);
    var c2 := CaptainUser(caps, channel, game, 2);
    (set i | 0 <= i < |tp| && Seat(tp[i], channel, game) :: tp[i].userId)
      + (if c1.Some? then {c1.value} else {}) + (if c2.Some? then {c2.value} else {})
  }

  /** The users counted as placed are exactly those with a seat in the game. */
  lemma AssignedUsersHoldSeats(tp: seq<TeamPlayer>, caps: seq<TeamCaptain>, channel: Id, game: int)
    ensures forall u :: u in AssignedUsers(tp, caps, channel, game) <==> InGame(tp, caps, channel, game, u)
  {
    var seated := set i | 0 <= i < |tp| && Seat(tp[i], channel, game) :: tp[i].userId;
    forall u ensures u in seated <==> OnTeam(tp, channel, game, 1, u) || OnTeam(tp, channel, game, 2, u) {
      if u in seated {
        var i :| 0 <= i < |tp| && Seat(tp[i], channel, game) && tp[i].userId == u;
        assert TeamRowIndex(tp, channel, game, tp[i].teamNumber, u).Some?;
      }
      if OnTeam(tp, channel, game, 1, u) {
        assert tp[TeamRowIndex(tp, channel, game, 1, u).value].userId == u;
      }
      if OnTeam(tp, channel, game, 2, u) {
        assert tp[TeamRowIndex(tp, channel, game, 2, u).value].userId == u;
      }
    }
  }

  /** Selects the queue rows of users outside `seatedIds`. */
  function Unassigned(seatedIds: set<Id>): QueuedPlayer -> bool {
    (x: QueuedPlayer) => x.userId !in seatedIds
  }

  function UserIds(rows: seq<QueuedPlayer>): (r: seq<Id>)
    ensures |r| == |rows| && forall i :: 0 <= i < |rows| ==> r[i] == rows[i].userId
  {
    seq(|rows|, i requires 0 <= i < |rows| => rows[i].userId)
  }

  predicate AllInPool(pool: seq<QueuedPlayer>, channel: Id, users: seq<Id>) {
    forall i :: 0 <= i < |users| ==> InQueue(pool, channel, users[i])
  }

  /** Some picked user already has a place on team 1 or 2. */
  predicate SomeOnTeam(tp: seq<TeamPlayer>, channel: Id, game: int, users: seq<Id>) {
    exists i :: 0 <= i < |users| && (OnTeam(tp, channel, game, 1, users[i]) || OnTeam(tp, channel, game, 2, users[i]))
  }

  /** The decision and effect of `Pick`: a captain drafts `users` from the lobby's pool. */
  function PickStep(lobbies: seq<Lobby>, games: seq<Game>, q: seq<QueuedPlayer>, tp: seq<TeamPlayer>,
                    caps: seq<TeamCaptain>, channel: Id, users: seq<Id>, turn: Turn): PickResult
  {
    if !Distinct(users) then PickResult(DuplicateUsers, q, tp, games)
    else match LobbyIndex(lobbies, channel)
      case None => PickResult(PickNotALobby, q, tp, games)
      case Some(li) =>
        match LatestGameIndex(games, channel)
        case None => PickResult(NoGame, q, tp, games)
        case Some(gi) =>
          if games[gi].state != Picking then PickResult(NotPicking, q, tp, games)
          else PickInDraft(q, tp, caps, lobbies[li], games, gi, users, turn)
  }

  /** The checks of `Pick` on a drafting game, then the captain's turn. */
  function PickInDraft(q: seq<QueuedPlayer>, tp: seq<TeamPlayer>, caps: seq<TeamCaptain>, lobby: Lobby,
                       games: seq<Game>, gi: nat, users: seq<Id>, turn: Turn): PickResult
    requires gi < |games|
  {
    var channel := lobby.channelId;
    var game := games[gi].gameId;
    var cap1 := CaptainUser(caps, channel, game, 1);
    var cap2 := CaptainUser(caps, channel, game, 2);
    var pool := DropCaptain(DropCaptain(q, channel, cap1), channel, cap2);
    match PickRefusal(pool, tp, channel, game, cap1, cap2, users, turn)
    case Some(refusal) => PickResult(refusal, q, tp, games)
    case None => PickCommit(pool, tp + PickRows(lobby.guildId, channel, game, users, turn.team), caps, lobby, games, gi)
  }

  /** Why `Pick` refuses the users on a drafting game, checked in order; `None` when the pick goes ahead. */
  function PickRefusal(pool: seq<QueuedPlayer>, tp: seq<TeamPlayer>, channel: Id, game: int,
                       cap1: Option<Id>, cap2: Option<Id>, users: seq<Id>, turn: Turn): (r: Option<PickOutcome>)
    ensures r.None? <==> && AllInPool(pool, channel, users) && !SomeOnTeam(tp, channel, game, users)
                         && SelectsCaptain(users, cap1, cap2) == Some(false) && turn.PicksFor?
    ensures !AllInPool(pool, channel, users) ==> r == Some(NotInPool)
    ensures AllInPool(pool, channel, users) && SomeOnTeam(tp, channel, game, users) ==> r == Some(AlreadyPicked)
  {
    if !AllInPool(pool, channel, users) then Some(NotInPool)
    else if SomeOnTeam(tp, channel, game, users) then Some(AlreadyPicked)
    else match SelectsCaptain(users, cap1, cap2)
      case None => Some(MissingCaptain)
      case Some(true) => Some(CaptainSelected)
      case Some(false) => if turn.TurnRefused? then Some(PickRefused) else None
  }

  /** The games table after a pick: one more pick on the game, which starts when `ready`. */
  function CountPick(games: seq<Game>, gi: nat, ready: bool): seq<Game>
    requires gi < |games|
  {
    var counted := games[gi := games[gi].(picks := games[gi].picks + 1)];
    if ready then counted[gi := counted[gi].(state := Undecided)] else counted
  }

  /**
   * The saved part of `Pick`: one more pick on the game, the last undrafted
   * user put on the smaller team, and the game started once everyone is placed.
   */
  function PickCommit(pool: seq<QueuedPlayer>, tp: seq<TeamPlayer>, caps: seq<TeamCaptain>, lobby: Lobby,
                      games: seq<Game>, gi: nat): PickResult
    requires gi < |games|
  {
    var channel := lobby.channelId;
    var game := games[gi].gameId;
    var seatedIds := AssignedUsers(tp, caps, channel, game);
    var remaining := Filter(ChannelQueue(pool, channel), Unassigned(seatedIds));
    var last := if |remaining| == 1 then [TeamPlayer(lobby.guildId, channel, game, remaining[0].userId, AutofillTeam(tp, channel, game))] else [];
    var placed := if |remaining| == 1 then seatedIds + {remaining[0].userId} else seatedIds;
    if |placed| >= Capacity(lobby) then
      PickResult(GameReady, WithoutChannel(pool, channel), tp + last, CountPick(games, gi, true))
    else PickResult(Picked(UserIds(remaining)), pool, tp + last, CountPick(games, gi, false))
  }

  /**
   * The captain check of `Pick` never fires: every picked user is in the pool,
   * from which the captains' rows were removed. It faults only when a user is
   * named and a captain row is missing.
   */
  lemma PickNeverSelectsCaptain(q: seq<QueuedPlayer>, tp: seq<TeamPlayer>, channel: Id, game: int,
                                cap1: Option<Id>, cap2: Option<Id>, users: seq<Id>, turn: Turn)
    ensures var r := PickRefusal(DropCaptain(DropCaptain(q, channel, cap1), channel, cap2), tp, channel, game, cap1, cap2, users, turn);
            && r != Some(CaptainSelected)
            && (r == Some(MissingCaptain) ==> users != [] && (cap1.None? || cap2.None?))
  {
    var pool := DropCaptain(DropCaptain(q, channel, cap1), channel, cap2);
    if AllInPool(pool, channel, users) {
      SelectsCaptainOnlyFaults(users, cap1, cap2);
    }
  }

  /** The drafted users join the team of the captain whose turn it was, and keep their places. */
  lemma PickRowsSeatUsers(tp: seq<TeamPlayer>, guild: Id, channel: Id, game: int, users: seq<Id>, team: int,
                          extra: seq<TeamPlayer>)
    ensures forall i :: 0 <= i < |users| ==> OnTeam(tp + PickRows(guild, channel, game, users, team) + extra, channel, game, team, users[i])
  {
    var rows := PickRows(guild, channel, game, users, team);
    forall i | 0 <= i < |users| ensures OnTeam(tp + rows + extra, channel, game, team, users[i]) {
      assert (tp + rows + extra)[|tp| + i] == rows[i];
    }
  }

  /**
   * The last undrafted user goes to the smaller team, team 1 on a tie: the
   * gap between the teams shrinks by one, or becomes one if they were level.
   */
  lemma AutofillBalancesTeams(tp: seq<TeamPlayer>, guild: Id, channel: Id, game: int, user: Id)
    ensures var tp' := tp + [TeamPlayer(guild, channel, game, user, AutofillTeam(tp, channel, game))];
            var gap := TeamSize(tp, channel, game, 1) - TeamSize(tp, channel, game, 2);
            && TeamSize(tp', channel, game, 1) + TeamSize(tp', channel, game, 2) ==
               TeamSize(tp, channel, game, 1) + TeamSize(tp, channel, game, 2) + 1
            && TeamSize(tp', channel, game, 1) - TeamSize(tp', channel, game, 2) == (if gap > 0 then gap - 1 else gap + 1)
  {
    var row := TeamPlayer(guild, channel, game, user, AutofillTeam(tp, channel, game));
    FilterAppend(tp, [row], SeatIn(channel, game, 1));
    FilterAppend(tp, [row], SeatIn(channel, game, 2));
  }

  /**
   * A pick adds one to the game's pick count and keeps it the lobby's latest
   * game; the game leaves the draft exactly when `ready`.
   */
  lemma CountPickAdvancesGame(games: seq<Game>, gi: nat, ready: bool, channel: Id)
    requires gi < |games| && LatestGameIndex(games, channel) == Some(gi) && games[gi].state == Picking
    ensures var games' := CountPick(games, gi, ready);
            && |games'| == |games|
            && LatestGameIndex(games', channel) == Some(gi)
            && games'[gi].picks == games[gi].picks + 1
            && games'[gi] == games[gi].(picks := games'[gi].picks, state := games'[gi].state)
            && (forall j :: 0 <= j < |games| && j != gi ==> games'[j] == games[j])
            && (ready <==> games'[gi].state == Undecided)
            && (ready <==> !IsPicking(games', channel))
  {
    var counted := games[gi := games[gi].(picks := games[gi].picks + 1)];
    LatestGameIgnoresProgress(games, gi, counted[gi], channel);
    if ready {
      LatestGameIgnoresProgress(counted, gi, counted[gi].(state := Undecided), channel);
    }
  }

  /** A team row of the game adds its user to the placed users, and no one else. */
  lemma AssignedUsersAddSeat(tp: seq<TeamPlayer>, row: TeamPlayer, caps: seq<TeamCaptain>, channel: Id, game: int)
    requires Seat(row, channel, game)
    ensures AssignedUsers(tp + [row], caps, channel, game) == AssignedUsers(tp, caps, channel, game) + {row.userId}
  {
    var tp' := tp + [row];
    var before := set i | 0 <= i < |tp| && Seat(tp[i], channel, game) :: tp[i].userId;
    var after := set i | 0 <= i < |tp'| && Seat(tp'[i], channel, game) :: tp'[i].userId;
    forall u | u in after ensures u in before + {row.userId} {
      var i :| 0 <= i < |tp'| && Seat(tp'[i], channel, game) && tp'[i].userId == u;
      if i < |tp| {
        assert tp'[i] == tp[i];
      }
    }
    forall u | u in before ensures u in after {
      var i :| 0 <= i < |tp| && Seat(tp[i], channel, game) && tp[i].userId == u;
      assert tp'[i] == tp[i];
    }
    assert tp'[|tp|] == row;
    assert after == before + {row.userId};
  }

  /**
   * When exactly one user of the pool is left unplaced, a committed pick puts
   * that user on the smaller team and adds no other row; the game starts
   * exactly when the placed users fill both teams.
   */
  lemma PickCommitPlacesTheLast(pool: seq<QueuedPlayer>, tp: seq<TeamPlayer>, caps: seq<TeamCaptain>,
                                lobby: Lobby, games: seq<Game>, gi: nat)
    requires gi < |games|
    ensures var r := PickCommit(pool, tp, caps, lobby, games, gi);
            var channel := lobby.channelId;
            var game := games[gi].gameId;
            var remaining := Filter(ChannelQueue(pool, channel), Unassigned(AssignedUsers(tp, caps, channel, game)));
            && (r.outcome.GameReady? <==> |AssignedUsers(r.teamPlayers, caps, channel, game)| >= Capacity(lobby))
            && (|remaining| == 1 ==>
                  && r.teamPlayers == tp + [TeamPlayer(lobby.guildId, channel, game, remaining[0].userId, AutofillTeam(tp, channel, game))]
                  && remaining[0].userId in AssignedUsers(r.teamPlayers, caps, channel, game))
            && (|remaining| != 1 ==> r.teamPlayers == tp)
  {
    var channel := lobby.channelId;
    var game := games[gi].gameId;
    var remaining := Filter(ChannelQueue(pool, channel), Unassigned(AssignedUsers(tp, caps, channel, game)));
    if |remaining| == 1 {
      AssignedUsersAddSeat(tp, TeamPlayer(lobby.guildId, channel, game, remaining[0].userId, AutofillTeam(tp, channel, game)),
                           caps, channel, game);
    } else {
      assert tp + [] == tp;
    }
  }

  /**
   * A successful pick moves the draft on by one pick. When exactly one user of
   * the pool is left unplaced, that user is put on the smaller team. The game
   * starts exactly when the placed users fill both teams, and then the lobby's
   * queue is empty; otherwise the draft goes on and the unplaced users are reported.
   */
  lemma PickCommitAdvancesDraft(pool: seq<QueuedPlayer>, tp: seq<TeamPlayer>, caps: seq<TeamCaptain>,
                                lobby: Lobby, games: seq<Game>, gi: nat)
    requires gi < |games|
    ensures var r := PickCommit(pool, tp, caps, lobby, games, gi);
            var channel := lobby.channelId;
            var game := games[gi].gameId;
            var remaining := Filter(ChannelQueue(pool, channel), Unassigned(AssignedUsers(tp, caps, channel, game)));
            && PickSucceeded(r.outcome)
            && r.games == CountPick(games, gi, r.outcome.GameReady?)
            && (r.outcome.GameReady? <==> |AssignedUsers(r.teamPlayers, caps, channel, game)| >= Capacity(lobby))
            && (|remaining| == 1 ==>
                  && r.teamPlayers == tp + [TeamPlayer(lobby.guildId, channel, game, remaining[0].userId, AutofillTeam(tp, channel, game))]
                  && remaining[0].userId in AssignedUsers(r.teamPlayers, caps, channel, game))
            && (|remaining| != 1 ==> r.teamPlayers == tp)
            && (r.outcome.GameReady? ==> ChannelQueue(r.queued, channel) == [])
            && (r.outcome.Picked? ==> r.queued == pool && r.outcome == Picked(UserIds(remaining)))
  {
    PickCommitPlacesTheLast(pool, tp, caps, lobby, games, gi);
    WithoutChannelQueues(pool, lobby.channelId, lobby.channelId);
  }

  /**
   * A pick goes ahead only for users who are all in the pool, none of them on
   * a team yet and none a captain, on a captain's turn; it then commits the
   * picked users' rows on that captain's team.
   */
  lemma PickInDraftCommits(q: seq<QueuedPlayer>, tp: seq<TeamPlayer>, caps: seq<TeamCaptain>, lobby: Lobby,
                           games: seq<Game>, gi: nat, users: seq<Id>, turn: Turn)
    requires gi < |games|
    requires PickSucceeded(PickInDraft(q, tp, caps, lobby, games, gi, users, turn).outcome)
    ensures var channel := lobby.channelId;
            var game := games[gi].gameId;
            var cap1 := CaptainUser(caps, channel, game, 1);
            var cap2 := CaptainUser(caps, channel, game, 2);
            var pool := DropCaptain(DropCaptain(q, channel, cap1), channel, cap2);
            && turn.PicksFor?
            && AllInPool(pool, channel, users) && !SomeOnTeam(tp, channel, game, users)
            && SelectsCaptain(users, cap1, cap2) == Some(false)
            && PickInDraft(q, tp, caps, lobby, games, gi, users, turn)
               == PickCommit(pool, tp + PickRows(lobby.guildId, channel, game, users, turn.team), caps, lobby, games, gi)
  {
    var channel := lobby.channelId;
    var game := games[gi].gameId;
    var cap1 := CaptainUser(caps, channel, game, 1);
    var cap2 := CaptainUser(caps, channel, game, 2);
    var pool := DropCaptain(DropCaptain(q, channel, cap1), channel, cap2);
    var refusal := PickRefusal(pool, tp, channel, game, cap1, cap2, users, turn);
    assert refusal.None?;
  }

  /** A pick that goes ahead puts every picked user on the team whose turn it was. */
  lemma PickInDraftSeatsUsers(q: seq<QueuedPlayer>, tp: seq<TeamPlayer>, caps: seq<TeamCaptain>, lobby: Lobby,
                              games: seq<Game>, gi: nat, users: seq<Id>, turn: Turn)
    requires gi < |games|
    requires PickSucceeded(PickInDraft(q, tp, caps, lobby, games, gi, users, turn).outcome)
    ensures var r := PickInDraft(q, tp, caps, lobby, games, gi, users, turn);
            && turn.PicksFor?
            && r.games == CountPick(games, gi, r.outcome.GameReady?)
            && (r.outcome.GameReady? ==> ChannelQueue(r.queued, lobby.channelId) == [])
            && forall i :: 0 <= i < |users| ==> OnTeam(r.teamPlayers, lobby.channelId, games[gi].gameId, turn.team, users[i])
  {
    var channel := lobby.channelId;
    var game := games[gi].gameId;
    var pool := DropCaptain(DropCaptain(q, channel, CaptainUser(caps, channel, game, 1)), channel,
                            CaptainUser(caps, channel, game, 2));
    PickInDraftCommits(q, tp, caps, lobby, games, gi, users, turn);
    var teams := tp + PickRows(lobby.guildId, channel, game, users, turn.team);
    var r := PickCommit(pool, teams, caps, lobby, games, gi);
    PickCommitAdvancesDraft(pool, teams, caps, lobby, games, gi);
    PickRowsSeatUsers(tp, lobby.guildId, channel, game, users, turn.team, r.teamPlayers[|teams|..]);
    assert r.teamPlayers == teams + r.teamPlayers[|teams|..];
  }

  /**
   * A successful pick names distinct users, all in the lobby's pool and none
   * on a team yet, and puts every one of them on the team whose turn it was.
   * It counts one more pick on the lobby's latest game. When exactly one user
   * of the pool is then left unplaced, that user goes to the smaller team. The
   * game starts, with the queue emptied, exactly when the placed users fill
   * both teams; otherwise it stays drafting and the unplaced users are reported.
   */
  lemma PickDraftsUsers(lobbies: seq<Lobby>, games: seq<Game>, q: seq<QueuedPlayer>, tp: seq<TeamPlayer>,
                        caps: seq<TeamCaptain>, channel: Id, users: seq<Id>, turn: Turn)
    requires PickSucceeded(PickStep(lobbies, games, q, tp, caps, channel, users, turn).outcome)
    ensures var r := PickStep(lobbies, games, q, tp, caps, channel, users, turn);
            && LobbyIndex(lobbies, channel).Some? && LatestGameIndex(games, channel).Some? && turn.PicksFor?
            && var lobby := lobbies[LobbyIndex(lobbies, channel).value];
               var gi := LatestGameIndex(games, channel).value;
               var game := games[gi].gameId;
               var pool := DropCaptain(DropCaptain(q, channel, CaptainUser(caps, channel, game, 1)), channel,
                                       CaptainUser(caps, channel, game, 2));
               var teams := tp + PickRows(lobby.guildId, channel, game, users, turn.team);
               var remaining := Filter(ChannelQueue(pool, channel), Unassigned(AssignedUsers(teams, caps, channel, game)));
            && Distinct(users) && AllInPool(pool, channel, users) && !SomeOnTeam(tp, channel, game, users)
            && games[gi].state == Picking
            && r.games == CountPick(games, gi, r.outcome.GameReady?)
            && LatestGameIndex(r.games, channel) == Some(gi)
            && r.games[gi].picks == games[gi].picks + 1
            && (r.outcome.GameReady? <==> r.games[gi].state == Undecided)
            && (r.outcome.GameReady? <==> |AssignedUsers(r.teamPlayers, caps, channel, game)| >= Capacity(lobby))
            && (r.outcome.GameReady? ==> ChannelQueue(r.queued, channel) == [])
            && (r.outcome.Picked? ==> r.queued == pool && r.outcome == Picked(UserIds(remaining)))
            && (|remaining| == 1 ==>
                  r.teamPlayers == teams + [TeamPlayer(lobby.guildId, channel, game, remaining[0].userId,
                                                       AutofillTeam(teams, channel, game))])
            && (|remaining| != 1 ==> r.teamPlayers == teams)
            && (forall i :: 0 <= i < |users| ==> OnTeam(r.teamPlayers, channel, game, turn.team, users[i]))
  {
    var lobby := lobbies[LobbyIndex(lobbies, channel).value];
    var gi := LatestGameIndex(games, channel).value;
    var r := PickInDraft(q, tp, caps, lobby, games, gi, users, turn);
    assert PickStep(lobbies, games, q, tp, caps, channel, users, turn) == r;
    PickInDraftCommits(q, tp, caps, lobby, games, gi, users, turn);
    PickInDraftSeatsUsers(q, tp, caps, lobby, games, gi, users, turn);
    var game := games[gi].gameId;
    var pool := DropCaptain(DropCaptain(q, channel, CaptainUser(caps, channel, game, 1)), channel,
                            CaptainUser(caps, channel, game, 2));
    PickCommitAdvancesDraft(pool, tp + PickRows(lobby.guildId, channel, game, users, turn.team), caps, lobby, games, gi);
    CountPickAdvancesGame(games, gi, r.outcome.GameReady?, channel);
  }

  /* ------------------------------------------------------------------ */
  /* The commands                                                        */
  /* ------------------------------------------------------------------ */

  /** `ClearQueue`: a moderator empties the lobby's queue, canceling a draft in progress. */
  method ClearQueue(db: Database, channel: Id) returns (outcome: ClearOutcome)
    requires db.Valid()
    modifies db`queued, db`games
    ensures db.Valid()
    ensures LobbyIndex(db.lobbies, channel).None? ==>
              outcome == ClearNotALobby && db.queued == old(db.queued) && db.games == old(db.games)
    ensures LobbyIndex(db.lobbies, channel).Some? ==>
              && db.queued == WithoutChannel(old(db.queued), channel)
              && db.games == CancelDraft(old(db.games), channel)
              && outcome == Cleared(if IsPicking(old(db.games), channel)
                                    then Some(old(db.games)[LatestGameIndex(old(db.games), channel).value].gameId)
                                    else None)
  {
    if LobbyIndex(db.lobbies, channel).None? {
      return ClearNotALobby;
    }
    FilterKeepsQueueKeysUnique(db.queued, NotOfChannel(channel));
    var queued := WithoutChannel(db.queued, channel);
    var games := db.games;
    var canceled := None;
    var latest := LatestGameIndex(games, channel);
    if latest.Some? && games[latest.value].state == Picking {
      canceled := Some(games[latest.value].gameId);
      games := games[latest.value := games[latest.value].(state := Canceled)];
    }
    db.queued, db.games := queued, games;
    outcome := Cleared(canceled);
  }

  /** `ForceRemove`: a moderator takes a user out of the lobby's queue. */
  method ForceRemove(db: Database, channel: Id, user: Id) returns (outcome: RemoveOutcome)
    requires db.Valid()
    modifies db`queued
    ensures db.Valid()
    ensures outcome == (if LobbyIndex(db.lobbies, channel).None? then RemoveNotALobby
                        else if IsPicking(db.games, channel) then RemoveDuringDraft
                        else if InQueue(old(db.queued), channel, user) then Removed
                        else NotInQueue)
    ensures db.queued == if outcome == Removed then WithoutEntry(old(db.queued), channel, user) else old(db.queued)
    ensures outcome == Removed ==> |db.queued| == |old(db.queued)| - 1
  {
    if LobbyIndex(db.lobbies, channel).None? {
      return RemoveNotALobby;
    }
    if IsPicking(db.games, channel) {
      return RemoveDuringDraft;
    }
    if InQueue(db.queued, channel, user) {
      WithoutEntryRemovesOneRow(db.queued, channel, user);
      FilterKeepsQueueKeysUnique(db.queued, OtherThan(channel, user));
      db.queued := WithoutEntry(db.queued, channel, user);
      outcome := Removed;
    } else {
      outcome := NotInQueue;
    }
  }

  /**
   * `ForceJoin`: a moderator adds the named users to the lobby's queue, skipping
   * the minimum-points, ban, cooldown and multi-queue checks of `Join`.
   */
  method ForceJoin(db: Database, channel: Id, users: seq<Id>, now: int) returns (outcome: ForceJoinOutcome)
    requires db.Valid()
    modifies db`queued
    ensures db.Valid()
    ensures LobbyIndex(db.lobbies, channel).None? ==> outcome == ForceJoinNotALobby && db.queued == old(db.queued)
    ensures LobbyIndex(db.lobbies, channel).Some? && IsPicking(db.games, channel) ==>
              outcome == ForceJoinDuringDraft && db.queued == old(db.queued)
    ensures LobbyIndex(db.lobbies, channel).Some? && !IsPicking(db.games, channel) ==>
              var lobby := db.lobbies[LobbyIndex(db.lobbies, channel).value];
              var count := |ChannelQueue(old(db.queued), channel)|;
              var added := Admit(Candidates(db.players, lobby.guildId, users), QueuedUsers(old(db.queued), channel),
                                 count, Capacity(lobby));
              && outcome == ForceJoined(added, count + |added| >= Capacity(lobby))
              && db.queued == old(db.queued) + JoinRows(lobby, added, now)
  {
    var li := LobbyIndex(db.lobbies, channel);
    if li.None? {
      return ForceJoinNotALobby;
    }
    var lobby := db.lobbies[li.value];
    var cands := Candidates(db.players, lobby.guildId, users);
    var queuedIds := QueuedUsers(db.queued, channel);
    var count := |ChannelQueue(db.queued, channel)|;
    if IsPicking(db.games, channel) {
      return ForceJoinDuringDraft;
    }
    var added, rows := AddCandidates(db.queued, lobby, cands, queuedIds, count, now);
    CandidatesDistinct(db.players, lobby.guildId, users);
    AdmitSoundAndComplete(cands, queuedIds, count, Capacity(lobby));
    JoinRowsKeepKeysUnique(db.queued, lobby, added, now);
    db.queued := rows;
    outcome := ForceJoined(added, count + |added| >= Capacity(lobby));
  }

  /**
   * The loop of `ForceJoin`: walks the candidates in order, stops at a full
   * queue, skips anyone already queued and appends a row for everyone else.
   */
  method AddCandidates(q: seq<QueuedPlayer>, lobby: Lobby, cands: seq<Id>, queuedIds: set<Id>, count0: int, now: int)
    returns (added: seq<Id>, rows: seq<QueuedPlayer>)
    ensures added == Admit(cands, queuedIds, count0, Capacity(lobby))
    ensures rows == q + JoinRows(lobby, added, now)
  {
    var count := count0;
    added, rows := [], q;
    var i := 0;
    while i < |cands|
      invariant 0 <= i <= |cands|
      invariant count == count0 + |added|
      invariant added + Admit(cands[i..], queuedIds, count, Capacity(lobby)) ==
                Admit(cands, queuedIds, count0, Capacity(lobby))
      invariant rows == q + JoinRows(lobby, added, now)
    {
      if count >= Capacity(lobby) {
        break;
      }
      assert cands[i..][1..] == cands[i + 1..];
      if cands[i] in queuedIds {
        i := i + 1;
        continue;
      }
      var row := QueuedPlayer(lobby.guildId, lobby.channelId, cands[i], now);
      assert JoinRows(lobby, added + [cands[i]], now) == JoinRows(lobby, added, now) + [row];
      rows := rows + [row];
      added := added + [cands[i]];
      count := count + 1;
      i := i + 1;
    }
  }

  /** `Sub`: a moderator substitutes `replacer` for `user` in game `gameNumber` of the lobby. */
  method Sub(db: Database, channel: Id, gameNumber: int, user: Id, replacer: Id, now: int) returns (outcome: SubOutcome)
    requires db.Valid()
    modifies db`queued, db`teamPlayers, db`captains
    ensures db.Valid()
    ensures SubResult(outcome, db.queued, db.teamPlayers, db.captains) ==
            SubStep(db.lobbies, db.games, db.players, old(db.queued), old(db.teamPlayers), old(db.captains),
                    channel, gameNumber, user, replacer, now)
  {
    var q, tp, caps := db.queued, db.teamPlayers, db.captains;
    var r := DecideSub(db.lobbies, db.games, db.players, q, tp, caps, channel, gameNumber, user, replacer, now);
    db.queued, db.teamPlayers, db.captains := r.queued, r.teamPlayers, r.captains;
    outcome := r.outcome;
  }

  /** The checks and table edits of `Sub`, in the command's order, on the tables it reads. */
  method DecideSub(lobbies: seq<Lobby>, games: seq<Game>, players: seq<Player>, q: seq<QueuedPlayer>,
                   tp: seq<TeamPlayer>, caps: seq<TeamCaptain>,
                   channel: Id, gameNumber: int, user: Id, replacer: Id, now: int) returns (r: SubResult)
    ensures r == SubStep(lobbies, games, players, q, tp, caps, channel, gameNumber, user, replacer, now)
    ensures !Succeeded(r.outcome) ==> r.queued == q && r.teamPlayers == tp && r.captains == caps
    ensures r.queued != q ==> r.outcome.PoolReplaced? || (r.outcome.CaptainReplaced? && r.outcome.poolToo)
    ensures QueueKeysUnique(q) ==> QueueKeysUnique(r.queued)
  {
    var li := LobbyIndex(lobbies, channel);
    if li.None? {
      return SubResult(SubNotALobby, q, tp, caps);
    }
    var lobby := lobbies[li.value];
    var gi := GameIndex(games, channel, gameNumber);
    if gi.None? {
      return SubResult(InvalidGame, q, tp, caps);
    }
    var game := games[gi.value];
    if game.state != Undecided && game.state != Picking {
      return SubResult(NotUndecided, q, tp, caps);
    }
    if !Registered(players, lobby.guildId, replacer) {
      return SubResult(ReplacementNotRegistered, q, tp, caps);
    }
    if InGame(tp, caps, channel, game.gameId, replacer) {
      return SubResult(AlreadyInGame, q, tp, caps);
    }
    var drafting := game.state == Picking;
    if !InGame(tp, caps, channel, game.gameId, user) {
      if !drafting || !InQueue(q, channel, user) {
        return SubResult(NotInGame, q, tp, caps);
      }
      if InQueue(q, channel, replacer) {
        return SubResult(ReplacerInPool, q, tp, caps);
      }
      if QueueKeysUnique(q) {
        SwapQueuedKeepsQueue(q, lobby, user, replacer, now);
      }
      return SubResult(PoolReplaced, SwapQueued(q, lobby, user, replacer, now), tp, caps);
    }
    var team: int;
    if OnTeam(tp, channel, game.gameId, 1, user) {
      team := 1;
    } else if OnTeam(tp, channel, game.gameId, 2, user) {
      team := 2;
    } else {
      team := if IsCaptain(caps, channel, game.gameId, 1, user) then 1 else 2;
      var caps' := RenameCaptain(caps, channel, game.gameId, team, replacer);
      var q' := q;
      if drafting {
        var current := InQueue(q, channel, user);
        if !current && !IsCaptain(caps', channel, game.gameId, 1, user) && !IsCaptain(caps', channel, game.gameId, 2, user) {
          return SubResult(NotInGame, q, tp, caps);
        }
        if InQueue(q, channel, replacer) {
          return SubResult(ReplacerInPool, q, tp, caps);
        }
        if current {
          q' := SwapQueued(q, lobby, user, replacer, now);
          if QueueKeysUnique(q) {
            SwapQueuedKeepsQueue(q, lobby, user, replacer, now);
          }
        }
      }
      return SubResult(CaptainReplaced(team, q' != q), q', tp, caps');
    }
    var ti := TeamRowIndex(tp, channel, game.gameId, team, user).value;
    r := SubResult(TeamReplaced(team), q, RemoveAt(tp, ti) + [TeamPlayer(lobby.guildId, channel, game.gameId, replacer, team)], caps);
  }

  /** `Sub` without a game number: substitutes in the lobby's latest game; nothing happens without one. */
  method SubLatest(db: Database, channel: Id, user: Id, replacer: Id, now: int) returns (outcome: Option<SubOutcome>)
    requires db.Valid()
    modifies db`queued, db`teamPlayers, db`captains
    ensures db.Valid()
    ensures LatestGameIndex(db.games, channel).None? ==>
              outcome.None? && db.queued == old(db.queued) && db.teamPlayers == old(db.teamPlayers) && db.captains == old(db.captains)
    ensures LatestGameIndex(db.games, channel).Some? ==>
              outcome.Some? &&
              SubResult(outcome.value, db.queued, db.teamPlayers, db.captains) ==
              SubStep(db.lobbies, db.games, db.players, old(db.queued), old(db.teamPlayers), old(db.captains),
                      channel, db.games[LatestGameIndex(db.games, channel).value].gameId, user, replacer, now)
  {
    var latest := LatestGameIndex(db.games, channel);
    if latest.None? {
      return None;
    }
    var o := Sub(db, channel, db.games[latest.value].gameId, user, replacer, now);
    outcome := Some(o);
  }

  /**
   * `Pick`: the captain whose turn it is drafts `users` from the pool of the
   * lobby's drafting game; `turn` is the verdict of the pick-one or pick-two turn rules.
   */
  method Pick(db: Database, channel: Id, users: seq<Id>, turn: Turn) returns (outcome: PickOutcome)
    requires db.Valid()
    modifies db`queued, db`teamPlayers, db`games
    ensures db.Valid()
    ensures PickResult(outcome, db.queued, db.teamPlayers, db.games) ==
            PickStep(db.lobbies, old(db.games), old(db.queued), old(db.teamPlayers), db.captains, channel, users, turn)
  {
    var r := DecidePick(db.lobbies, db.games, db.queued, db.teamPlayers, db.captains, channel, users, turn);
    db.queued, db.teamPlayers, db.games := r.queued, r.teamPlayers, r.games;
    outcome := r.outcome;
  }

  /** The checks and table edits of `Pick`, in the command's order, on the tables it reads. */
  method DecidePick(lobbies: seq<Lobby>, games: seq<Game>, q: seq<QueuedPlayer>, tp: seq<TeamPlayer>,
                    caps: seq<TeamCaptain>, channel: Id, users: seq<Id>, turn: Turn) returns (r: PickResult)
    ensures r == PickStep(lobbies, games, q, tp, caps, channel, users, turn)
    ensures !PickSucceeded(r.outcome) ==> r.queued == q && r.teamPlayers == tp && r.games == games
    ensures QueueKeysUnique(q) ==> QueueKeysUnique(r.queued)
  {
    if !Distinct(users) {
      return PickResult(DuplicateUsers, q, tp, games);
    }
    var li := LobbyIndex(lobbies, channel);
    if li.None? {
      return PickResult(PickNotALobby, q, tp, games);
    }
    var lobby := lobbies[li.value];
    var latest := LatestGameIndex(games, channel);
    if latest.None? {
      return PickResult(NoGame, q, tp, games);
    }
    var gi := latest.value;
    var game := games[gi];
    if game.state != Picking {
      return PickResult(NotPicking, q, tp, games);
    }
    // The captains are no longer part of the pool.
    var cap1 := CaptainUser(caps, channel, game.gameId, 1);
    var cap2 := CaptainUser(caps, channel, game.gameId, 2);
    var pool := DropCaptain(DropCaptain(q, channel, cap1), channel, cap2);
    var refusal := PickRefusal(pool, tp, channel, game.gameId, cap1, cap2, users, turn);
    if refusal.Some? {
      return PickResult(refusal.value, q, tp, games);
    }
    if QueueKeysUnique(q) {
      DropCaptainKeepsQueueKeysUnique(q, channel, cap1);
      DropCaptainKeepsQueueKeysUnique(DropCaptain(q, channel, cap1), channel, cap2);
    }
    r := CommitPick(pool, tp + PickRows(lobby.guildId, channel, game.gameId, users, turn.team), caps, lobby, games, gi);
  }

  /** The saved part of `Pick`, once the captain's turn has added the picked users to the team. */
  method CommitPick(pool: seq<QueuedPlayer>, teams: seq<TeamPlayer>, caps: seq<TeamCaptain>, lobby: Lobby,
                    games: seq<Game>, gi: nat) returns (r: PickResult)
    requires gi < |games|
    ensures r == PickCommit(pool, teams, caps, lobby, games, gi)
    ensures QueueKeysUnique(pool) ==> QueueKeysUnique(r.queued)
  {
    var channel := lobby.channelId;
    var game := games[gi].gameId;
    var placed := AssignedUsers(teams, caps, channel, game);
    var updated := games[gi := games[gi].(picks := games[gi].picks + 1)];
    var remaining := Filter(ChannelQueue(pool, channel), Unassigned(placed));
    var last := [];
    if |remaining| == 1 {
      // The last undrafted user goes to the smaller team.
      last := [TeamPlayer(lobby.guildId, channel, game, remaining[0].userId, AutofillTeam(teams, channel, game))];
      placed := placed + {remaining[0].userId};
    }
    if QueueKeysUnique(pool) {
      FilterKeepsQueueKeysUnique(pool, NotOfChannel(channel));
    }
    if |placed| >= Capacity(lobby) {
      // The teams are full: the game starts and the queue is emptied.
      updated := updated[gi := updated[gi].(state := Undecided)];
      r := PickResult(GameReady, WithoutChannel(pool, channel), teams + last, updated);
    } else {
      r := PickResult(Picked(UserIds(remaining)), pool, teams + last, updated);
    }
  }

}
