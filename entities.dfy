/**
 * Records and tables of the matchmaking bot: the rows its database holds and the
 * lookups the command modules and background jobs share.
 *
 * Conventions of the whole model:
 *  - Discord snowflakes (user, guild, channel, role ids) are natural numbers.
 *  - Time is an integer count of seconds; every `DateTime.UtcNow` becomes a `now`
 *    parameter and every `TimeSpan` a number of seconds.
 *  - A channel belongs to exactly one guild, so queue, team and captain rows are
 *    selected by channel; rows the commands insert carry the lobby's guild.
 */
module Entities {

  /** A Discord snowflake. */
  type Id = nat

  datatype Option<T> = None | Some(value: T)

  const SecondsPerMinute: int := 60
  const SecondsPerDay: int := 86400

  /* ------------------------------------------------------------------ */
  /* C# `int` arithmetic                                                 */
  /* ------------------------------------------------------------------ */

  const Int32Modulus: int := 0x1_0000_0000

  predicate IsInt32(x: int) {
    -0x8000_0000 <= x < 0x8000_0000
  }

  /** Two's-complement wrap-around of an unchecked C# `int` operation. */
  function WrapInt32(x: int): (r: int)
    ensures IsInt32(r)
    ensures (x - r) % Int32Modulus == 0
    ensures IsInt32(x) ==> r == x
  {
    (x + 0x8000_0000) % Int32Modulus - 0x8000_0000
  }

  /* ------------------------------------------------------------------ */
  /* Rows                                                                */
  /* ------------------------------------------------------------------ */

  datatype GameState = Undecided | Draw | Decided | Picking | Canceled

  datatype CaptainPickOrder = PickOne | PickTwo

  /** A user waiting in a lobby's queue; the key is (channelId, userId). */
  datatype QueuedPlayer = QueuedPlayer(guildId: Id, channelId: Id, userId: Id, queuedAt: int)

  /** A game of a lobby; `lobbyId` is the lobby's channel id. */
  datatype Game = Game(gameId: int, lobbyId: Id, guildId: Id, state: GameState,
                       pickOrder: CaptainPickOrder, picks: int)

  datatype TeamPlayer = TeamPlayer(guildId: Id, channelId: Id, gameNumber: int, userId: Id, teamNumber: int)

  datatype TeamCaptain = TeamCaptain(guildId: Id, channelId: Id, gameNumber: int, teamNumber: int, userId: Id)

  /** A registration; the key is (guildId, userId). Counters are C# `int`s. */
  datatype Player = Player(guildId: Id, userId: Id, points: int, wins: int, losses: int,
                           draws: int, kills: int, deaths: int)

  /** A rank is keyed by its role id alone. */
  datatype Rank = Rank(roleId: Id, guildId: Id, points: int, winModifier: Option<int>, lossModifier: Option<int>)

  datatype Ban = Ban(userId: Id, guildId: Id, timeOfBan: int, length: int, manuallyDisabled: bool)

  /**
   * A lobby, keyed by its channel. The two floating-point settings (score
   * multiplier and high-limit reduction) are not part of this model; pick and
   * host modes are kept as the enum's numeric value.
   */
  datatype Lobby = Lobby(
    guildId: Id,
    channelId: Id,
    playersPerTeam: int,
    teamPickMode: nat,
    captainPickOrder: CaptainPickOrder,
    minimumPoints: Option<int>,
    hideQueue: bool,
    dmUsersOnGameReady: bool,
    mentionUsersInReadyAnnouncement: bool,
    multiplyLossValue: bool,
    highLimit: Option<int>,
    hostSelectionMode: nat,
    gameReadyAnnouncementChannel: Option<Id>,
    gameResultAnnouncementChannel: Option<Id>,
    description: Option<string>)

  /** Per-guild settings; delays and timeouts are in seconds. */
  datatype Competition = Competition(
    guildId: Id,
    allowMultiQueueing: bool,
    requeueDelay: Option<int>,
    queueTimeout: Option<int>,
    defaultRegisterScore: int,
    defaultWinModifier: int,
    defaultLossModifier: int,
    legacyPremiumExpiry: Option<int>)

  datatype MapEntry = MapEntry(channelId: Id, mapName: string)

  /** Queue capacity of a lobby: two full teams. */
  function Capacity(lobby: Lobby): int {
    lobby.playersPerTeam * 2
  }

  /**
   * The competition row a guild gets when none is stored yet. Its initialisers
   * are not part of this model: nothing optional is set and numbers are zero.
   */
  function BlankCompetition(guild: Id): (c: Competition)
    ensures c.guildId == guild && c.requeueDelay.None? && c.queueTimeout.None?
  {
    Competition(guild, false, None, None, 0, 0, 0, None)
  }

  /* ------------------------------------------------------------------ */
  /* Generic sequence helpers                                            */
  /* ------------------------------------------------------------------ */

  /** The elements of `s` that satisfy `keep`, in order (LINQ `Where`). */
  function Filter<T(!new)>(s: seq<T>, keep: T -> bool): (r: seq<T>)
    ensures |r| <= |s|
    ensures forall x :: x in r <==> x in s && keep(x)
    ensures (forall i :: 0 <= i < |s| ==> keep(s[i])) ==> r == s
  {
    if s == [] then [] else (if keep(s[0]) then [s[0]] else []) + Filter(s[1..], keep)
  }

  /** Filtering distributes over concatenation, so a loop can filter a prefix at a time. */
  lemma {:induction false} FilterAppend<T(!new)>(a: seq<T>, b: seq<T>, keep: T -> bool)
    ensures Filter(a + b, keep) == Filter(a, keep) + Filter(b, keep)
  {
    if a == [] {
      assert a + b == b;
    } else {
      assert (a + b)[1..] == a[1..] + b;
      FilterAppend(a[1..], b, keep);
    }
  }

  /** Position of the first element satisfying `p` (LINQ `FirstOrDefault`). */
  function FirstIndex<T>(s: seq<T>, p: T -> bool): (r: Option<nat>)
    ensures r.Some? ==> r.value < |s| && p(s[r.value]) && forall j :: 0 <= j < r.value ==> !p(s[j])
    ensures r.None? ==> forall j :: 0 <= j < |s| ==> !p(s[j])
  {
    if s == [] then None
    else if p(s[0]) then Some(0)
    else match FirstIndex(s[1..], p)
      case None => None
      case Some(i) => Some(i + 1)
  }

  /** Two sequences whose elements pass and fail a selection alike have the same first match. */
  lemma {:induction false} FirstIndexSameSelection<T>(s: seq<T>, t: seq<T>, p: T -> bool)
    requires |s| == |t| && forall i :: 0 <= i < |s| ==> p(s[i]) == p(t[i])
    ensures FirstIndex(s, p) == FirstIndex(t, p)
  {
    if s != [] {
      FirstIndexSameSelection(s[1..], t[1..], p);
    }
  }

  /** If no element of `s` matches, the first match in `s + [x]` is `x`. */
  lemma FirstIndexAppend<T>(s: seq<T>, x: T, p: T -> bool)
    requires forall j :: 0 <= j < |s| ==> !p(s[j])
    requires p(x)
    ensures FirstIndex(s + [x], p) == Some(|s|)
  {
    var r := FirstIndex(s + [x], p);
    assert (s + [x])[|s|] == x;
    assert forall j :: 0 <= j < |s| ==> (s + [x])[j] == s[j];
  }

  /** Elements either pass a selection or pass its complement. */
  lemma {:induction false} FilterSplitsLength<T(!new)>(s: seq<T>, keep: T -> bool, drop: T -> bool)
    requires forall x :: drop(x) == !keep(x)
    ensures |Filter(s, keep)| + |Filter(s, drop)| == |s|
  {
    if s != [] {
      FilterSplitsLength(s[1..], keep, drop);
    }
  }

  predicate Distinct<T(==)>(s: seq<T>) {
    forall i, j :: 0 <= i < j < |s| ==> s[i] != s[j]
  }

  /* ------------------------------------------------------------------ */
  /* Table keys                                                          */
  /* ------------------------------------------------------------------ */

  /** One queue row per (channel, user). */
  predicate QueueKeysUnique(q: seq<QueuedPlayer>) {
    forall i, j :: 0 <= i < j < |q| && q[i].channelId == q[j].channelId ==> q[i].userId != q[j].userId
  }

  predicate LobbyKeysUnique(lobbies: seq<Lobby>) {
    forall i, j :: 0 <= i < j < |lobbies| ==> lobbies[i].channelId != lobbies[j].channelId
  }

  predicate CompetitionKeysUnique(comps: seq<Competition>) {
    forall i, j :: 0 <= i < j < |comps| ==> comps[i].guildId != comps[j].guildId
  }

  predicate RankKeysUnique(ranks: seq<Rank>) {
    forall i, j :: 0 <= i < j < |ranks| ==> ranks[i].roleId != ranks[j].roleId
  }

  predicate PlayerKeysUnique(players: seq<Player>) {
    forall i, j :: 0 <= i < j < |players| && players[i].guildId == players[j].guildId ==>
      players[i].userId != players[j].userId
  }

  /** Removing rows from the queue cannot create a duplicate key. */
  lemma {:induction false} FilterKeepsQueueKeysUnique(q: seq<QueuedPlayer>, keep: QueuedPlayer -> bool)
    requires QueueKeysUnique(q)
    ensures QueueKeysUnique(Filter(q, keep))
  {
    if q != [] {
      FilterKeepsQueueKeysUnique(q[1..], keep);
      var rest := Filter(q[1..], keep);
      forall j | 0 <= j < |rest| ensures !(rest[j].channelId == q[0].channelId && rest[j].userId == q[0].userId) {
        assert rest[j] in q[1..];
        var k :| 0 <= k < |q[1..]| && q[1..][k] == rest[j];
        assert q[k + 1] == rest[j];
      }
    }
  }

  /* ------------------------------------------------------------------ */
  /* Lookups                                                             */
  /* ------------------------------------------------------------------ */

  /** The lobby row of a channel (`Lobbies.FirstOrDefault(x => x.ChannelId == ...)`). */
  function LobbyIndex(lobbies: seq<Lobby>, channel: Id): (r: Option<nat>)
    ensures r.Some? ==> r.value < |lobbies| && lobbies[r.value].channelId == channel
    ensures r.None? ==> forall j :: 0 <= j < |lobbies| ==> lobbies[j].channelId != channel
  {
    FirstIndex(lobbies, (l: Lobby) => l.channelId == channel)
  }

  function CompetitionIndex(comps: seq<Competition>, guild: Id): (r: Option<nat>)
    ensures r.Some? ==> r.value < |comps| && comps[r.value].guildId == guild
    ensures r.None? ==> forall j :: 0 <= j < |comps| ==> comps[j].guildId != guild
  {
    FirstIndex(comps, (c: Competition) => c.guildId == guild)
  }

  /** `GetOrCreateCompetition` as far as reading goes: the stored row, or a blank one. */
  function CompetitionOf(comps: seq<Competition>, guild: Id): (c: Competition)
    ensures c.guildId == guild
    ensures c in comps || c == BlankCompetition(guild)
  {
    match CompetitionIndex(comps, guild)
    case Some(i) => comps[i]
    case None => BlankCompetition(guild)
  }

  /** Selects the rows of one lobby's queue. */
  function OfChannel(channel: Id): QueuedPlayer -> bool {
    (x: QueuedPlayer) => x.channelId == channel
  }

  /** Selects every row except the one keyed (channel, user). */
  function OtherThan(channel: Id, user: Id): QueuedPlayer -> bool {
    (x: QueuedPlayer) => !(x.channelId == channel && x.userId == user)
  }

  /** Selects the rows of every lobby but one. */
  function NotOfChannel(channel: Id): QueuedPlayer -> bool {
    (x: QueuedPlayer) => x.channelId != channel
  }

  /** The queue of one lobby, in table order. */
  function ChannelQueue(q: seq<QueuedPlayer>, channel: Id): (r: seq<QueuedPlayer>)
    ensures forall x :: x in r <==> x in q && x.channelId == channel
  {
    Filter(q, OfChannel(channel))
  }

  predicate InQueue(q: seq<QueuedPlayer>, channel: Id, user: Id) {
    exists i :: 0 <= i < |q| && q[i].channelId == channel && q[i].userId == user
  }

  /** The queue without the row keyed (channel, user). */
  function WithoutEntry(q: seq<QueuedPlayer>, channel: Id, user: Id): (r: seq<QueuedPlayer>)
    ensures forall x :: x in r <==> x in q && !(x.channelId == channel && x.userId == user)
    ensures !InQueue(q, channel, user) ==> r == q
  {
    Filter(q, OtherThan(channel, user))
  }

  /** The queue without any row of the channel. */
  function WithoutChannel(q: seq<QueuedPlayer>, channel: Id): (r: seq<QueuedPlayer>)
    ensures forall x :: x in r <==> x in q && x.channelId != channel
  {
    Filter(q, NotOfChannel(channel))
  }

  /** A row appended to the table joins its lobby's queue at the end. */
  lemma ChannelQueueSnoc(q: seq<QueuedPlayer>, row: QueuedPlayer, channel: Id)
    ensures ChannelQueue(q + [row], channel) == ChannelQueue(q, channel) + if row.channelId == channel then [row] else []
  {
    FilterAppend(q, [row], OfChannel(channel));
  }

  /** Removing the key of a row just appended takes the table back to what it was. */
  lemma WithoutEntrySnoc(q: seq<QueuedPlayer>, channel: Id, user: Id, now: int, guild: Id)
    requires !InQueue(q, channel, user)
    ensures WithoutEntry(q + [QueuedPlayer(guild, channel, user, now)], channel, user) == q
  {
    FilterAppend(q, [QueuedPlayer(guild, channel, user, now)], OtherThan(channel, user));
  }

  /** Appending a row whose key is new keeps keys unique. */
  lemma AppendKeepsQueueKeysUnique(q: seq<QueuedPlayer>, row: QueuedPlayer)
    requires QueueKeysUnique(q) && !InQueue(q, row.channelId, row.userId)
    ensures QueueKeysUnique(q + [row])
  {
  }

  /** On a table with unique keys, removing a present key removes exactly one row. */
  lemma {:induction false} WithoutEntryRemovesOneRow(q: seq<QueuedPlayer>, channel: Id, user: Id)
    requires QueueKeysUnique(q)
    ensures |WithoutEntry(q, channel, user)| == if InQueue(q, channel, user) then |q| - 1 else |q|
  {
    if q != [] {
      var keep := OtherThan(channel, user);
      assert WithoutEntry(q, channel, user) == (if keep(q[0]) then [q[0]] else []) + WithoutEntry(q[1..], channel, user);
      WithoutEntryRemovesOneRow(q[1..], channel, user);
      if !keep(q[0]) {
        assert !InQueue(q[1..], channel, user) by {
          forall i | 0 <= i < |q[1..]| ensures !(q[1..][i].channelId == channel && q[1..][i].userId == user) {
            assert q[1..][i] == q[i + 1];
          }
        }
      } else {
        assert InQueue(q, channel, user) <==> InQueue(q[1..], channel, user) by {
          if InQueue(q, channel, user) {
            var i :| 0 <= i < |q| && q[i].channelId == channel && q[i].userId == user;
            assert i > 0 && q[1..][i - 1] == q[i];
          }
          if InQueue(q[1..], channel, user) {
            var i :| 0 <= i < |q[1..]| && q[1..][i].channelId == channel && q[1..][i].userId == user;
            assert q[i + 1] == q[1..][i];
          }
        }
      }
    }
  }

  /** Removing a present key shortens that lobby's queue by one. */
  lemma {:induction false} WithoutEntryShortensQueue(q: seq<QueuedPlayer>, channel: Id, user: Id)
    requires QueueKeysUnique(q) && InQueue(q, channel, user)
    ensures |ChannelQueue(WithoutEntry(q, channel, user), channel)| == |ChannelQueue(q, channel)| - 1
  {
    var h, t := q[0], q[1..];
    assert QueueKeysUnique(t) by {
      forall i, j | 0 <= i < j < |t| && t[i].channelId == t[j].channelId ensures t[i].userId != t[j].userId {
        assert t[i] == q[i + 1] && t[j] == q[j + 1];
      }
    }
    assert ChannelQueue(q, channel) == (if h.channelId == channel then [h] else []) + ChannelQueue(t, channel);
    if h.channelId == channel && h.userId == user {
      assert !InQueue(t, channel, user) by {
        forall i | 0 <= i < |t| ensures !(t[i].channelId == channel && t[i].userId == user) {
          assert t[i] == q[i + 1];
        }
      }
      assert WithoutEntry(q, channel, user) == WithoutEntry(t, channel, user) == t;
    } else {
      assert InQueue(t, channel, user) by {
        var i :| 0 <= i < |q| && q[i].channelId == channel && q[i].userId == user;
        assert i > 0 && t[i - 1] == q[i];
      }
      WithoutEntryShortensQueue(t, channel, user);
      var w := WithoutEntry(t, channel, user);
      assert WithoutEntry(q, channel, user) == [h] + w;
      assert ([h] + w)[0] == h && ([h] + w)[1..] == w;
      assert ChannelQueue([h] + w, channel) == (if h.channelId == channel then [h] else []) + ChannelQueue(w, channel);
    }
  }

  /**
   * The latest game of a lobby: the one with the highest game id
   * (`OrderByDescending(x => x.GameId).FirstOrDefault()`); among equal ids the first.
   */
  function LatestGameIndex(games: seq<Game>, lobby: Id): (r: Option<nat>)
    ensures r.Some? ==> r.value < |games| && games[r.value].lobbyId == lobby
    ensures r.Some? ==> forall j :: 0 <= j < |games| && games[j].lobbyId == lobby ==> games[j].gameId <= games[r.value].gameId
    ensures r.None? <==> forall j :: 0 <= j < |games| ==> games[j].lobbyId != lobby
    decreases |games|
  {
    if games == [] then None
    else
      var n := |games| - 1;
      var prior := LatestGameIndex(games[..n], lobby);
      if games[n].lobbyId != lobby then prior
      else if prior.Some? && games[prior.value].gameId >= games[n].gameId then prior
      else Some(n)
  }

  /** The lobby's latest game exists and is still drafting teams. */
  predicate IsPicking(games: seq<Game>, lobby: Id) {
    match LatestGameIndex(games, lobby)
    case Some(i) => games[i].state == Picking
    case None => false
  }

  /** Changing a game's state or pick count leaves every lobby's latest game where it was. */
  lemma LatestGameIgnoresProgress(games: seq<Game>, i: nat, g: Game, lobby: Id)
    requires i < |games| && g.gameId == games[i].gameId && g.lobbyId == games[i].lobbyId
    ensures LatestGameIndex(games[i := g], lobby) == LatestGameIndex(games, lobby)
  {
    LatestGameFollowsKeys(games[i := g], games, lobby);
  }

  /** The latest game depends on the games' lobbies and numbers only. */
  lemma {:induction false} LatestGameFollowsKeys(a: seq<Game>, b: seq<Game>, lobby: Id)
    requires |a| == |b|
    requires forall j :: 0 <= j < |a| ==> a[j].lobbyId == b[j].lobbyId && a[j].gameId == b[j].gameId
    ensures LatestGameIndex(a, lobby) == LatestGameIndex(b, lobby)
    decreases |a|
  {
    if a != [] {
      var n := |a| - 1;
      LatestGameFollowsKeys(a[..n], b[..n], lobby);
    }
  }

  /** Filtering by a finer selection after a coarser one is filtering by the finer one alone. */
  lemma {:induction false} FilterOfFilter<T(!new)>(s: seq<T>, coarse: T -> bool, fine: T -> bool)
    requires forall x :: fine(x) ==> coarse(x)
    ensures Filter(Filter(s, coarse), fine) == Filter(s, fine)
  {
    if s != [] {
      var rest := Filter(s[1..], coarse);
      FilterOfFilter(s[1..], coarse, fine);
      if coarse(s[0]) {
        var c := [s[0]] + rest;
        assert Filter(s, coarse) == c;
        assert c[0] == s[0] && c[1..] == rest;
      } else {
        assert Filter(s, coarse) == rest;
      }
    }
  }

  /** Nothing passes a selection that no element satisfies. */
  lemma {:induction false} FilterNone<T(!new)>(s: seq<T>, keep: T -> bool)
    requires forall i :: 0 <= i < |s| ==> !keep(s[i])
    ensures Filter(s, keep) == []
  {
    if s != [] {
      FilterNone(s[1..], keep);
    }
  }

  /** Two selections that agree on every element of `s` keep the same elements. */
  lemma {:induction false} FilterSameSelection<T(!new)>(s: seq<T>, keep: T -> bool, keep': T -> bool)
    requires forall i :: 0 <= i < |s| ==> keep(s[i]) == keep'(s[i])
    ensures Filter(s, keep) == Filter(s, keep')
  {
    if s != [] {
      FilterSameSelection(s[1..], keep, keep');
    }
  }

  /** Emptying one lobby's queue leaves the queues of the other lobbies as they were. */
  lemma WithoutChannelQueues(q: seq<QueuedPlayer>, channel: Id, other: Id)
    ensures ChannelQueue(WithoutChannel(q, channel), channel) == []
    ensures other != channel ==> ChannelQueue(WithoutChannel(q, channel), other) == ChannelQueue(q, other)
  {
    var w := WithoutChannel(q, channel);
    assert forall i :: 0 <= i < |w| ==> w[i] in w;
    FilterNone(w, OfChannel(channel));
    if other != channel {
      FilterOfFilter(q, NotOfChannel(channel), OfChannel(other));
    }
  }

  /** `s` without its `i`-th element. */
  function RemoveAt<T>(s: seq<T>, i: nat): (r: seq<T>)
    requires i < |s|
    ensures |r| == |s| - 1
    ensures forall j :: 0 <= j < i ==> r[j] == s[j]
    ensures forall j :: i <= j < |r| ==> r[j] == s[j + 1]
  {
    s[..i] + s[i + 1..]
  }

  /* ------------------------------------------------------------------ */
  /* The database                                                        */
  /* ------------------------------------------------------------------ */

  /**
   * The tables one command sees. A command's changes become visible at its one
   * `SaveChanges`, which the model writes as a single assignment per table; a
   * command that returns (or throws) before it leaves every table as it was.
   */
  class Database {
    var lobbies: seq<Lobby>
    var competitions: seq<Competition>
    var queued: seq<QueuedPlayer>
    var games: seq<Game>
    var teamPlayers: seq<TeamPlayer>
    var captains: seq<TeamCaptain>
    var players: seq<Player>
    var ranks: seq<Rank>
    var bans: seq<Ban>
    var maps: seq<MapEntry>
    /** Legacy premium tokens and the days each one grants. */
    var legacyTokens: map<string, int>

    /** The primary keys the store enforces. */
    ghost predicate Valid()
      reads this
    {
      && QueueKeysUnique(queued)
      && LobbyKeysUnique(lobbies)
      && CompetitionKeysUnique(competitions)
      && RankKeysUnique(ranks)
      && PlayerKeysUnique(players)
    }
  }
}
