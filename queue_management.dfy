/**
 * Joining and leaving a lobby's queue (the `Join` and `Leave` commands).
 *
 * `JoinVerdict` and `LeaveVerdict` decide a command from the tables it reads;
 * the `QueueManagement` methods run the command's checks in the command's own order
 * and change the queue table, and the requeue-cooldown dictionary the commands
 * share, as the verdict says.
 */
module Queueing {
  import opened Entities

  /** When each user of each guild last joined a queue (`QueueDelays`): guild -> user -> time. */
  type Delays = map<Id, map<Id, int>>

  datatype JoinOutcome =
    | NotRegistered
    | NotALobby
    | Banned
    | QueueFull
    | MultiQueueDisallowed(channels: seq<Id>)
    | BelowMinimum(minimum: int)
    | DraftInProgress
    | AlreadyQueued
    | CooldownActive(remaining: int)
    /** Added as the `count`-th of `capacity` players. */
    | Joined(count: int, capacity: int)
    /** Added as the last player; the lobby is handed to game setup. */
    | LobbyFull

  predicate Admitted(o: JoinOutcome) {
    o.Joined? || o.LobbyFull?
  }

  /** A ban of the user in the guild that is in force at `now`. */
  predicate ActiveBan(bans: seq<Ban>, guild: Id, user: Id, now: int) {
    exists i :: 0 <= i < |bans| && bans[i].userId == user && bans[i].guildId == guild &&
      !bans[i].manuallyDisabled && bans[i].timeOfBan + bans[i].length > now
  }

  /** Selects the user's rows in the guild's other lobbies. */
  function ElsewhereInGuild(guild: Id, channel: Id, user: Id): QueuedPlayer -> bool {
    (x: QueuedPlayer) => x.guildId == guild && x.userId == user && x.channelId != channel
  }

  function OtherQueues(q: seq<QueuedPlayer>, guild: Id, channel: Id, user: Id): (r: seq<QueuedPlayer>)
    ensures forall x :: x in r <==> x in q && x.guildId == guild && x.userId == user && x.channelId != channel
  {
    Filter(q, ElsewhereInGuild(guild, channel, user))
  }

  function Channels(rows: seq<QueuedPlayer>): (r: seq<Id>)
    ensures |r| == |rows| && forall i :: 0 <= i < |rows| ==> r[i] == rows[i].channelId
  {
    seq(|rows|, i requires 0 <= i < |rows| => rows[i].channelId)
  }

  /** Seconds of requeue cooldown the user still has to wait, or 0. */
  function CooldownLeft(delays: Delays, guild: Id, user: Id, delay: int, now: int): int {
    if guild in delays && user in delays[guild] && delays[guild][user] + delay > now
    then delays[guild][user] + delay - now
    else 0
  }

  /**
   * The cooldown dictionary after an admitted join: a first join in the guild is
   * stamped with `now`; an entry that already exists (necessarily an expired one)
   * is left as it was.
   */
  function RecordJoin(delays: Delays, guild: Id, user: Id, now: int): Delays {
    var stamps: map<Id, int> := if guild in delays then delays[guild] else map[];
    if guild in delays && user in stamps then delays
    else delays[guild := stamps[user := now]]
  }

  /** The row an admitted join inserts. */
  function JoinRow(lobby: Lobby, user: Id, now: int): QueuedPlayer {
    QueuedPlayer(lobby.guildId, lobby.channelId, user, now)
  }

  /** The decision of the `Join` command, checks in the order the command makes them. */
  function JoinVerdict(lobbies: seq<Lobby>, comps: seq<Competition>, bans: seq<Ban>, q: seq<QueuedPlayer>,
                       games: seq<Game>, delays: Delays, registration: Option<Player>,
                       channel: Id, user: Id, now: int): JoinOutcome
  {
    if registration.None? then NotRegistered
    else match LobbyIndex(lobbies, channel)
      case None => NotALobby
      case Some(li) =>
        var lobby := lobbies[li];
        var queue := ChannelQueue(q, channel);
        var comp := CompetitionOf(comps, lobby.guildId);
        var others := OtherQueues(q, lobby.guildId, channel, user);
        if ActiveBan(bans, lobby.guildId, user, now) then Banned
        else if |queue| >= Capacity(lobby) then QueueFull
        else if !comp.allowMultiQueueing && |others| > 0 then MultiQueueDisallowed(Channels(others))
        else if lobby.minimumPoints.Some? && registration.value.points < lobby.minimumPoints.value
        then BelowMinimum(lobby.minimumPoints.value)
        else if IsPicking(games, channel) then DraftInProgress
        else if InQueue(q, channel, user) then AlreadyQueued
        else if comp.requeueDelay.Some? && CooldownLeft(delays, lobby.guildId, user, comp.requeueDelay.value, now) > 0
        then CooldownActive(CooldownLeft(delays, lobby.guildId, user, comp.requeueDelay.value, now))
        else if |queue| + 1 >= Capacity(lobby) then LobbyFull
        else Joined(|queue| + 1, Capacity(lobby))
  }

  /** A join is admitted exactly when every check of the command passes. */
  lemma AdmittedIffEveryCheckPasses(lobbies: seq<Lobby>, comps: seq<Competition>, bans: seq<Ban>, q: seq<QueuedPlayer>,
                                    games: seq<Game>, delays: Delays, registration: Option<Player>,
                                    channel: Id, user: Id, now: int)
    ensures Admitted(JoinVerdict(lobbies, comps, bans, q, games, delays, registration, channel, user, now)) <==>
      && registration.Some?
      && LobbyIndex(lobbies, channel).Some?
      && var lobby := lobbies[LobbyIndex(lobbies, channel).value];
         var comp := CompetitionOf(comps, lobby.guildId);
         && !ActiveBan(bans, lobby.guildId, user, now)
         && |ChannelQueue(q, channel)| < Capacity(lobby)
         && (comp.allowMultiQueueing || forall x :: x in q && x.userId == user && x.guildId == lobby.guildId ==> x.channelId == channel)
         && (lobby.minimumPoints.Some? ==> registration.value.points >= lobby.minimumPoints.value)
         && !IsPicking(games, channel)
         && !InQueue(q, channel, user)
         && (comp.requeueDelay.Some? ==> CooldownLeft(delays, lobby.guildId, user, comp.requeueDelay.value, now) == 0)
  {
    if registration.Some? && LobbyIndex(lobbies, channel).Some? {
      var lobby := lobbies[LobbyIndex(lobbies, channel).value];
      var others := OtherQueues(q, lobby.guildId, channel, user);
      assert |others| > 0 <==> exists x :: x in q && x.userId == user && x.guildId == lobby.guildId && x.channelId != channel by {
        if |others| > 0 {
          assert others[0] in others;
        }
        if exists x :: x in q && x.userId == user && x.guildId == lobby.guildId && x.channelId != channel {
          var x :| x in q && x.userId == user && x.guildId == lobby.guildId && x.channelId != channel;
          assert x in others;
        }
      }
    }
  }

  /**
   * An admitted join adds one row to the lobby's queue, never takes it past
   * two full teams, keeps one row per (channel, user), and reports a full lobby
   * exactly when the row it added was the last place.
   */
  lemma {:induction false} AdmissionFillsOnePlace(lobbies: seq<Lobby>, comps: seq<Competition>, bans: seq<Ban>, q: seq<QueuedPlayer>,
                                                  games: seq<Game>, delays: Delays, registration: Option<Player>,
                                                  channel: Id, user: Id, now: int)
    requires QueueKeysUnique(q)
    requires Admitted(JoinVerdict(lobbies, comps, bans, q, games, delays, registration, channel, user, now))
    ensures LobbyIndex(lobbies, channel).Some?
    ensures var lobby := lobbies[LobbyIndex(lobbies, channel).value];
            var after := q + [JoinRow(lobby, user, now)];
            && QueueKeysUnique(after)
            && |ChannelQueue(after, channel)| == |ChannelQueue(q, channel)| + 1 <= Capacity(lobby)
            && (JoinVerdict(lobbies, comps, bans, q, games, delays, registration, channel, user, now).LobbyFull?
                <==> |ChannelQueue(after, channel)| == Capacity(lobby))
  {
    AdmittedIffEveryCheckPasses(lobbies, comps, bans, q, games, delays, registration, channel, user, now);
    var lobby := lobbies[LobbyIndex(lobbies, channel).value];
    var row := JoinRow(lobby, user, now);
    ChannelQueueSnoc(q, row, channel);
    AppendKeepsQueueKeysUnique(q, row);
  }

  /**
   * Joining again straight after an admitted join is refused (as already
   * queued, or as a full queue when the first join took the last place).
   */
  lemma {:induction false} SecondJoinIsRefused(lobbies: seq<Lobby>, comps: seq<Competition>, bans: seq<Ban>, q: seq<QueuedPlayer>,
                                               games: seq<Game>, delays: Delays, registration: Option<Player>,
                                               channel: Id, user: Id, now: int)
    requires Admitted(JoinVerdict(lobbies, comps, bans, q, games, delays, registration, channel, user, now))
    ensures LobbyIndex(lobbies, channel).Some?
    ensures var lobby := lobbies[LobbyIndex(lobbies, channel).value];
            var comp := CompetitionOf(comps, lobby.guildId);
            var q' := q + [JoinRow(lobby, user, now)];
            var delays' := if comp.requeueDelay.Some? then RecordJoin(delays, lobby.guildId, user, now) else delays;
            JoinVerdict(lobbies, comps, bans, q', games, delays', registration, channel, user, now) in {AlreadyQueued, QueueFull}
  {
    var lobby := lobbies[LobbyIndex(lobbies, channel).value];
    var row := JoinRow(lobby, user, now);
    var q' := q + [row];
    ChannelQueueSnoc(q, row, channel);
    FilterAppend(q, [row], ElsewhereInGuild(lobby.guildId, channel, user));
    assert OtherQueues(q', lobby.guildId, channel, user) == OtherQueues(q, lobby.guildId, channel, user);
    assert q'[|q|] == row;
  }

  /**
   * A user's first join in a guild with a requeue delay starts the cooldown:
   * until `delay` seconds have passed, the cooldown check refuses them.
   */
  lemma FirstJoinStartsCooldown(delays: Delays, guild: Id, user: Id, delay: int, now: int, later: int)
    requires guild !in delays || user !in delays[guild]
    requires now <= later < now + delay
    ensures CooldownLeft(RecordJoin(delays, guild, user, now), guild, user, delay, later) == now + delay - later > 0
  {
  }

  /**
   * Once a user's cooldown entry exists, admitted joins never move it: after
   * its first expiry the cooldown does not apply to that user in that guild again.
   */
  lemma ExpiredCooldownIsNotRenewed(delays: Delays, guild: Id, user: Id, delay: int, now: int, later: int)
    requires guild in delays && user in delays[guild]
    requires CooldownLeft(delays, guild, user, delay, now) == 0
    requires later >= now
    ensures RecordJoin(delays, guild, user, later) == delays
    ensures CooldownLeft(RecordJoin(delays, guild, user, later), guild, user, delay, later) == 0
  {
  }

  datatype LeaveOutcome =
    | LeaveNotRegistered
    | LeaveNotALobby
    | NotQueued
    | LeaveDuringDraft
    /** Left; `remaining` players are still queued. */
    | Left(remaining: int)

  /** The decision of the `Leave` command. */
  function LeaveVerdict(lobbies: seq<Lobby>, q: seq<QueuedPlayer>, games: seq<Game>, registered: bool,
                        channel: Id, user: Id): LeaveOutcome
  {
    if !registered then LeaveNotRegistered
    else if LobbyIndex(lobbies, channel).None? then LeaveNotALobby
    else if !InQueue(q, channel, user) then NotQueued
    else if IsPicking(games, channel) then LeaveDuringDraft
    else Left(|ChannelQueue(q, channel)| - 1)
  }

  /** Leaving right after an admitted join gives back the queue table as it was. */
  lemma {:induction false} LeaveUndoesJoin(lobbies: seq<Lobby>, comps: seq<Competition>, bans: seq<Ban>, q: seq<QueuedPlayer>,
                                           games: seq<Game>, delays: Delays, registration: Option<Player>,
                                           channel: Id, user: Id, now: int)
    requires Admitted(JoinVerdict(lobbies, comps, bans, q, games, delays, registration, channel, user, now))
    ensures LobbyIndex(lobbies, channel).Some?
    ensures var q' := q + [JoinRow(lobbies[LobbyIndex(lobbies, channel).value], user, now)];
            && LeaveVerdict(lobbies, q', games, true, channel, user) == Left(|ChannelQueue(q, channel)|)
            && WithoutEntry(q', channel, user) == q
  {
    AdmittedIffEveryCheckPasses(lobbies, comps, bans, q, games, delays, registration, channel, user, now);
    var lobby := lobbies[LobbyIndex(lobbies, channel).value];
    var row := JoinRow(lobby, user, now);
    var q' := q + [row];
    assert InQueue(q', channel, user) by {
      assert q'[|q|] == row;
    }
    ChannelQueueSnoc(q, row, channel);
    WithoutEntrySnoc(q, channel, user, now, lobby.guildId);
  }

  /** The guild of a channel that is a lobby. */
  function LobbyGuild(lobbies: seq<Lobby>, channel: Id): Id
    requires LobbyIndex(lobbies, channel).Some?
  {
    lobbies[LobbyIndex(lobbies, channel).value].guildId
  }

  /** The queue commands, with the requeue-cooldown dictionary they share. */
  class QueueManagement {
    var queueDelays: Delays

    constructor ()
      ensures queueDelays == map[]
    {
      queueDelays := map[];
    }

    /** `Join`: the caller asks for a place in the queue of the lobby `channel`. */
    method Join(db: Database, registration: Option<Player>, channel: Id, user: Id, now: int) returns (outcome: JoinOutcome)
      requires db.Valid()
      modifies db`queued, this`queueDelays
      ensures db.Valid()
      ensures outcome == JoinVerdict(db.lobbies, db.competitions, db.bans, old(db.queued), db.games, old(queueDelays),
                                     registration, channel, user, now)
      ensures Admitted(outcome) ==>
                LobbyIndex(db.lobbies, channel).Some? &&
                db.queued == old(db.queued) + [JoinRow(db.lobbies[LobbyIndex(db.lobbies, channel).value], user, now)] &&
                queueDelays == if CompetitionOf(db.competitions, LobbyGuild(db.lobbies, channel)).requeueDelay.Some?
                               then RecordJoin(old(queueDelays), LobbyGuild(db.lobbies, channel), user, now)
                               else old(queueDelays)
      ensures !Admitted(outcome) ==> db.queued == old(db.queued) && queueDelays == old(queueDelays)
    {
      var lobbies, q := db.lobbies, db.queued;
      ghost var verdict := JoinVerdict(lobbies, db.competitions, db.bans, q, db.games, queueDelays,
                                       registration, channel, user, now);
      if registration.None? {
        return NotRegistered;
      }
      var li := LobbyIndex(lobbies, channel);
      if li.None? {
        return NotALobby;
      }
      var lobby := lobbies[li.value];
      if ActiveBan(db.bans, lobby.guildId, user, now) {
        return Banned;
      }
      var queue := ChannelQueue(q, channel);
      if |queue| >= Capacity(lobby) {
        return QueueFull;
      }
      var comp := CompetitionOf(db.competitions, lobby.guildId);
      var others := OtherQueues(q, lobby.guildId, channel, user);
      if !comp.allowMultiQueueing && |others| > 0 {
        return MultiQueueDisallowed(Channels(others));
      }
      if lobby.minimumPoints.Some? && registration.value.points < lobby.minimumPoints.value {
        return BelowMinimum(lobby.minimumPoints.value);
      }
      if IsPicking(db.games, channel) {
        return DraftInProgress;
      }
      if InQueue(q, channel, user) {
        return AlreadyQueued;
      }
      if comp.requeueDelay.Some? {
        var left := CooldownLeft(queueDelays, lobby.guildId, user, comp.requeueDelay.value, now);
        if left > 0 {
          return CooldownActive(left);
        }
        queueDelays := RecordJoin(queueDelays, lobby.guildId, user, now);
      }
      AppendKeepsQueueKeysUnique(q, JoinRow(lobby, user, now));
      db.queued := q + [JoinRow(lobby, user, now)];
      if |queue| + 1 >= Capacity(lobby) {
        outcome := LobbyFull;
      } else {
        outcome := Joined(|queue| + 1, Capacity(lobby));
      }
      assert outcome == verdict;
    }

    /** `Leave`: the caller leaves the queue of the lobby `channel`. */
    method Leave(db: Database, registered: bool, channel: Id, user: Id) returns (outcome: LeaveOutcome)
      requires db.Valid()
      modifies db`queued
      ensures db.Valid()
      ensures outcome == LeaveVerdict(db.lobbies, old(db.queued), db.games, registered, channel, user)
      ensures db.queued == if outcome.Left? then WithoutEntry(old(db.queued), channel, user) else old(db.queued)
    {
      if !registered {
        return LeaveNotRegistered;
      }
      if LobbyIndex(db.lobbies, channel).None? {
        return LeaveNotALobby;
      }
      var queue := ChannelQueue(db.queued, channel);
      if !InQueue(db.queued, channel, user) {
        return NotQueued;
      }
      if IsPicking(db.games, channel) {
        return LeaveDuringDraft;
      }
      FilterKeepsQueueKeysUnique(db.queued, OtherThan(channel, user));
      db.queued := WithoutEntry(db.queued, channel, user);
      outcome := Left(|queue| - 1);
    }
  }

  /** A successful leave takes exactly the caller's row out of the lobby's queue. */
  lemma {:induction false} LeaveRemovesOneRow(lobbies: seq<Lobby>, q: seq<QueuedPlayer>, games: seq<Game>,
                                              channel: Id, user: Id)
    requires QueueKeysUnique(q)
    requires LeaveVerdict(lobbies, q, games, true, channel, user).Left?
    ensures |WithoutEntry(q, channel, user)| == |q| - 1
    ensures !InQueue(WithoutEntry(q, channel, user), channel, user)
  {
    WithoutEntryRemovesOneRow(q, channel, user);
  }
}
