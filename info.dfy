/**
 * Read-only views of a guild's standings: the paged leaderboard for the
 * integer sort modes, the profile's rank, and the rank list with its
 * effective win and loss modifiers.
 */
module Info {
  import opened Entities

  /* ------------------------------------------------------------------ */
  /* Ordering                                                            */
  /* ------------------------------------------------------------------ */

  /** Descending by `key`: no element has a smaller key than one after it. */
  predicate SortedDesc<T>(s: seq<T>, key: T -> int) {
    forall i, j :: 0 <= i < j < |s| ==> key(s[i]) >= key(s[j])
  }

  /** `x` placed into a sequence before the first element whose key is not larger. */
  function InsertDesc<T>(x: T, s: seq<T>, key: T -> int): seq<T> {
    if s == [] || key(s[0]) <= key(x) then [x] + s
    else [s[0]] + InsertDesc(x, s[1..], key)
  }

  /** Inserting adds exactly `x`. */
  lemma {:induction false} InsertDescPermutes<T>(x: T, s: seq<T>, key: T -> int)
    ensures |InsertDesc(x, s, key)| == |s| + 1
    ensures multiset(InsertDesc(x, s, key)) == multiset(s) + multiset{x}
  {
    if !(s == [] || key(s[0]) <= key(x)) {
      InsertDescPermutes(x, s[1..], key);
      assert s == [s[0]] + s[1..];
    }
  }

  /** A bound on every key survives inserting an element within it. */
  lemma {:induction false} InsertDescBounded<T>(x: T, s: seq<T>, key: T -> int, bound: int)
    requires key(x) <= bound
    requires forall i :: 0 <= i < |s| ==> key(s[i]) <= bound
    ensures forall i :: 0 <= i < |InsertDesc(x, s, key)| ==> key(InsertDesc(x, s, key)[i]) <= bound
  {
    if !(s == [] || key(s[0]) <= key(x)) {
      InsertDescBounded(x, s[1..], key, bound);
    }
  }

  /** Inserting into a descending sequence keeps it descending. */
  lemma {:induction false} InsertDescSorts<T>(x: T, s: seq<T>, key: T -> int)
    requires SortedDesc(s, key)
    ensures SortedDesc(InsertDesc(x, s, key), key)
  {
    if s == [] || key(s[0]) <= key(x) {
      forall k | 0 < k < |s| ensures key(s[k]) <= key(x) {
        assert key(s[0]) >= key(s[k]);
      }
    } else {
      InsertDescSorts(x, s[1..], key);
      InsertDescBounded(x, s[1..], key, key(s[0]));
    }
  }

  /**
   * `OrderByDescending(key)`: an insertion sort. The query leaves the order of
   * equal keys to the database; this model fixes one, the table order.
   */
  function SortDesc<T>(s: seq<T>, key: T -> int): seq<T> {
    if s == [] then []
    else InsertDesc(s[0], SortDesc(s[1..], key), key)
  }

  /** Sorting keeps exactly the elements of its input. */
  lemma {:induction false} SortDescPermutes<T>(s: seq<T>, key: T -> int)
    ensures multiset(SortDesc(s, key)) == multiset(s)
    ensures |SortDesc(s, key)| == |s|
  {
    if s != [] {
      SortDescPermutes(s[1..], key);
      InsertDescPermutes(s[0], SortDesc(s[1..], key), key);
      assert s == [s[0]] + s[1..];
    }
  }

  /** Sorting yields a descending sequence. */
  lemma {:induction false} SortDescSorts<T>(s: seq<T>, key: T -> int)
    ensures SortedDesc(SortDesc(s, key), key)
  {
    if s != [] {
      SortDescSorts(s[1..], key);
      InsertDescSorts(s[0], SortDesc(s[1..], key), key);
    }
  }

  /* ------------------------------------------------------------------ */
  /* Leaderboard                                                         */
  /* ------------------------------------------------------------------ */

  const PageSize: int := 20

  /**
   * The integer sort modes of the leaderboard. `Unlisted` stands for every
   * other value of the mode enum, which the command's switch has no case for.
   */
  datatype SortMode = Point | Wins | Losses | Games | Kills | Unlisted

  /** The sort key of a mode; `Games` is draws plus wins plus losses. */
  function Key(mode: SortMode): Player -> int {
    match mode
    case Point => (p: Player) => p.points
    case Wins => (p: Player) => p.wins
    case Losses => (p: Player) => p.losses
    case Games => (p: Player) => p.draws + p.wins + p.losses
    case Kills => (p: Player) => p.kills
    case Unlisted => (p: Player) => 0
  }

  /** The page actually shown: pages below 1 become 1, and only premium guilds get past page 1. */
  function NormalizePage(page: int, premium: bool): (r: int)
    ensures r >= 1
    ensures !premium ==> r == 1
    ensures page <= 0 ==> r == 1
    ensures premium && page >= 1 ==> r == page
    ensures page == 1 ==> r == 1
  {
    if page <= 0 then 1
    else if page > 1 && !premium then 1
    else page
  }

  /** The number of players before the page. */
  function SkipCount(page: int): int {
    (page - 1) * PageSize
  }

  /** `Skip(skip).Take(PageSize)`. */
  function Page<T>(sorted: seq<T>, skip: int): (r: seq<T>)
    requires skip >= 0
    ensures |r| <= PageSize
    ensures |r| == if skip >= |sorted| then 0 else if |sorted| - skip < PageSize then |sorted| - skip else PageSize
    ensures r == [] <==> skip >= |sorted|
    ensures forall i :: 0 <= i < |r| ==> skip + i < |sorted| && r[i] == sorted[skip + i]
  {
    if skip >= |sorted| then []
    else if skip + PageSize <= |sorted| then sorted[skip..skip + PageSize]
    else sorted[skip..]
  }

  /** Selects the players of a guild. */
  function InGuild(guild: Id): Player -> bool {
    (p: Player) => p.guildId == guild
  }

  function GuildPlayers(players: seq<Player>, guild: Id): (r: seq<Player>)
    ensures forall p :: p in r <==> p in players && p.guildId == guild
  {
    Filter(players, InGuild(guild))
  }

  /** One line of the leaderboard: a 1-based position, a user and the mode's value. */
  datatype BoardLine = BoardLine(position: int, userId: Id, value: int)

  /** The lines for players listed from position `start` on. */
  function NumberedLines(players: seq<Player>, start: int, mode: SortMode): (r: seq<BoardLine>)
    ensures |r| == |players|
    ensures forall i :: 0 <= i < |r| ==> r[i].position == start + i && r[i].userId == players[i].userId
    ensures forall i :: 0 <= i < |r| ==> r[i].value == Key(mode)(players[i])
  {
    seq(|players|, i requires 0 <= i < |players| => BoardLine(start + i, players[i].userId, Key(mode)(players[i])))
  }

  /**
   * `GetPlayerLines`: one line per player, numbered consecutively from
   * `startValue`, in the order given.
   */
  method GetPlayerLines(players: seq<Player>, startValue: int, mode: SortMode) returns (lines: seq<BoardLine>)
    ensures lines == NumberedLines(players, startValue, mode)
  {
    lines := [];
    var position := startValue;
    for i := 0 to |players|
      invariant position == startValue + i
      invariant |lines| == i
      invariant forall k :: 0 <= k < i ==> lines[k] == BoardLine(startValue + k, players[k].userId, Key(mode)(players[k]))
    {
      lines := lines + [BoardLine(position, players[i].userId, Key(mode)(players[i]))];
      position := position + 1;
    }
  }

  datatype LeaderboardReply =
    /** A mode the command has no case for: no reply. */
    | NoReply
    /** "There are no players to display for this page." */
    | EmptyPage(page: int)
    | Board(page: int, lines: seq<BoardLine>, count: nat)

  /** The players of the guild on a page, best first by the mode's key. */
  function PagePlayers(players: seq<Player>, guild: Id, mode: SortMode, page: int): seq<Player>
    requires page >= 1
  {
    Page(SortDesc(GuildPlayers(players, guild), Key(mode)), SkipCount(page))
  }

  /** The reply to a leaderboard request for a page that is already normalised. */
  function LeaderboardView(players: seq<Player>, guild: Id, mode: SortMode, page: int): LeaderboardReply
    requires page >= 1
  {
    if mode == Unlisted then NoReply
    else
      var onPage := PagePlayers(players, guild, mode, page);
      if onPage == [] then EmptyPage(page)
      else Board(page, NumberedLines(onPage, SkipCount(page) + 1, mode), |GuildPlayers(players, guild)|)
  }

  /**
   * The opening of `LeaderboardAsync`: pages below 1 become 1, and a guild
   * without premium asking past page 1 gets the premium notice and page 1.
   */
  method ChoosePage(page: int, premium: bool) returns (shown: int, notice: bool)
    ensures notice <==> page > 1 && !premium
    ensures shown == NormalizePage(page, premium)
  {
    shown := page;
    notice := false;
    if page <= 0 {
      shown := 1;
    } else if page > 1 {
      if !premium {
        notice := true;
        shown := 1;
      }
    }
  }

  /**
   * `LeaderboardAsync` for the integer sort modes. `premium` says whether the
   * guild is premium; `notice` says whether the premium notice was sent.
   */
  method Leaderboard(db: Database, guild: Id, mode: SortMode, page: int, premium: bool)
    returns (notice: bool, reply: LeaderboardReply)
    ensures notice <==> page > 1 && !premium
    ensures reply == LeaderboardView(db.players, guild, mode, NormalizePage(page, premium))
  {
    var shown;
    shown, notice := ChoosePage(page, premium);
    var all := db.players;
    var users := GuildPlayers(all, guild);
    var count := |users|;
    var skipCount := (shown - 1) * PageSize;
    assert skipCount == SkipCount(shown);
    if mode == Unlisted {
      return notice, NoReply;
    }
    var players := PagePlayers(all, guild, mode, shown);
    if |players| == 0 {
      return notice, EmptyPage(shown);
    }
    var lines := GetPlayerLines(players, skipCount + 1, mode);
    reply := Board(shown, lines, count);
  }

  /**
   * A page lists at most 20 players of the guild, ranked consecutively from
   * `(page - 1) * 20 + 1` in descending order of the mode's key.
   */
  lemma BoardIsRanked(players: seq<Player>, guild: Id, mode: SortMode, page: int)
    requires page >= 1
    ensures var onPage := PagePlayers(players, guild, mode, page);
            var lines := NumberedLines(onPage, SkipCount(page) + 1, mode);
            && |lines| <= PageSize
            && (forall i :: 0 <= i < |onPage| ==> onPage[i] in players && onPage[i].guildId == guild)
            && (forall i :: 0 <= i < |lines| ==> lines[i].position == SkipCount(page) + 1 + i)
            && (forall i, j :: 0 <= i < j < |lines| ==> lines[i].value >= lines[j].value)
  {
    var sorted := SortDesc(GuildPlayers(players, guild), Key(mode));
    SortDescSorts(GuildPlayers(players, guild), Key(mode));
    SortDescPermutes(GuildPlayers(players, guild), Key(mode));
    var onPage := PagePlayers(players, guild, mode, page);
    forall i | 0 <= i < |onPage| ensures onPage[i] in players && onPage[i].guildId == guild {
      assert onPage[i] in multiset(sorted);
    }
  }

  /** The first page starts with a best player of the guild by the mode's key. */
  lemma FirstPageStartsWithTheBest(players: seq<Player>, guild: Id, mode: SortMode)
    requires PagePlayers(players, guild, mode, 1) != []
    ensures forall p :: p in players && p.guildId == guild ==>
              Key(mode)(p) <= Key(mode)(PagePlayers(players, guild, mode, 1)[0])
  {
    var users := GuildPlayers(players, guild);
    var sorted := SortDesc(users, Key(mode));
    SortDescSorts(users, Key(mode));
    SortDescPermutes(users, Key(mode));
    assert PagePlayers(players, guild, mode, 1)[0] == sorted[0];
    forall p | p in players && p.guildId == guild ensures Key(mode)(p) <= Key(mode)(sorted[0]) {
      assert p in multiset(users);
      var k :| 0 <= k < |sorted| && sorted[k] == p;
    }
  }

  /* ------------------------------------------------------------------ */
  /* Profile rank                                                        */
  /* ------------------------------------------------------------------ */

  /** The rank shown on a profile: of the guild's ranks below the player's points, the highest; the first among equals. */
  function ProfileRank(ranks: seq<Rank>, guild: Id, points: int): (r: Option<Rank>)
    ensures r.Some? ==> r.value in ranks && r.value.guildId == guild && r.value.points < points
    ensures r.Some? ==> forall k :: 0 <= k < |ranks| && ranks[k].guildId == guild && ranks[k].points < points ==>
                          ranks[k].points <= r.value.points
    ensures r.None? <==> forall k :: 0 <= k < |ranks| ==> !(ranks[k].guildId == guild && ranks[k].points < points)
  {
    if ranks == [] then None
    else
      var rest := ProfileRank(ranks[1..], guild, points);
      assert forall k :: 1 <= k < |ranks| ==> ranks[k] == ranks[1..][k - 1];
      if !(ranks[0].guildId == guild && ranks[0].points < points) then rest
      else if rest.Some? && rest.value.points > ranks[0].points then rest
      else Some(ranks[0])
  }

  /** A rank whose threshold equals the player's points is not theirs yet: the comparison is strict. */
  lemma ProfileRankIsStrict(ranks: seq<Rank>, guild: Id, points: int)
    requires forall k :: 0 <= k < |ranks| && ranks[k].guildId == guild ==> ranks[k].points >= points
    ensures ProfileRank(ranks, guild, points) == None
  {
  }

  datatype ProfileReply =
    | YouAreNotRegistered
    | ThatUserIsNotRegistered
    /** The player's stats, their rank if any, and whether kills and deaths are shown. */
    | Stats(player: Player, rank: Option<Rank>, showsKills: bool)

  function PlayerIndex(players: seq<Player>, guild: Id, user: Id): (r: Option<nat>)
    ensures r.Some? ==> r.value < |players| && players[r.value].guildId == guild && players[r.value].userId == user
    ensures r.None? <==> forall k :: 0 <= k < |players| ==> !(players[k].guildId == guild && players[k].userId == user)
  {
    FirstIndex(players, (p: Player) => p.guildId == guild && p.userId == user)
  }

  /** `InfoAsync` (Profile): the registration of `user`, asked for by `caller`. */
  function Profile(players: seq<Player>, ranks: seq<Rank>, guild: Id, user: Id, caller: Id): (r: ProfileReply)
    ensures r.Stats? <==> PlayerIndex(players, guild, user).Some?
    ensures r.Stats? ==> r.player == players[PlayerIndex(players, guild, user).value]
    ensures r.Stats? ==> r.player.userId == user && r.player.guildId == guild &&
                         r.rank == ProfileRank(ranks, guild, r.player.points) &&
                         (r.showsKills <==> r.player.kills > 0 || r.player.deaths > 0)
    ensures r == YouAreNotRegistered ==> user == caller
    ensures !r.Stats? ==> (r == YouAreNotRegistered <==> user == caller)
  {
    match PlayerIndex(players, guild, user)
    case None => if user == caller then YouAreNotRegistered else ThatUserIsNotRegistered
    case Some(i) =>
      var player := players[i];
      Stats(player, ProfileRank(ranks, guild, player.points), player.kills > 0 || player.deaths > 0)
  }

  /* ------------------------------------------------------------------ */
  /* Rank list                                                           */
  /* ------------------------------------------------------------------ */

  /** One line of the rank list: role, threshold, and the effective modifiers. */
  datatype RankLine = RankLine(roleId: Id, points: int, winModifier: int, lossModifier: int)

  /** A rank's own modifiers, or the competition's defaults where it has none. */
  function RankLineOf(rank: Rank, comp: Competition): (r: RankLine)
    ensures rank.winModifier.Some? ==> r.winModifier == rank.winModifier.value
    ensures rank.winModifier.None? ==> r.winModifier == comp.defaultWinModifier
    ensures rank.lossModifier.Some? ==> r.lossModifier == rank.lossModifier.value
    ensures rank.lossModifier.None? ==> r.lossModifier == comp.defaultLossModifier
    ensures r.roleId == rank.roleId && r.points == rank.points
  {
    RankLine(rank.roleId, rank.points,
             if rank.winModifier.Some? then rank.winModifier.value else comp.defaultWinModifier,
             if rank.lossModifier.Some? then rank.lossModifier.value else comp.defaultLossModifier)
  }

  datatype RanksReply = NoRanks | RankList(lines: seq<RankLine>)

  function RankPoints(r: Rank): int {
    r.points
  }

  /** Selects the ranks of a guild. */
  function RankOfGuild(guild: Id): Rank -> bool {
    (k: Rank) => k.guildId == guild
  }

  /** `ShowRanksAsync`: the guild's ranks, highest threshold first. */
  function ShowRanks(ranks: seq<Rank>, comps: seq<Competition>, guild: Id): (r: RanksReply)
  {
    var own := Filter(ranks, RankOfGuild(guild));
    if own == [] then NoRanks
    else
      RankList(RankLines(SortDesc(own, RankPoints), CompetitionOf(comps, guild)))
  }

  function RankLines(sorted: seq<Rank>, comp: Competition): (r: seq<RankLine>)
    ensures |r| == |sorted|
    ensures forall i :: 0 <= i < |r| ==> r[i] == RankLineOf(sorted[i], comp)
  {
    seq(|sorted|, i requires 0 <= i < |sorted| => RankLineOf(sorted[i], comp))
  }

  /** The rank list is empty exactly when the guild has no ranks. */
  lemma NoRanksIffNoneOfTheGuild(ranks: seq<Rank>, comps: seq<Competition>, guild: Id)
    ensures ShowRanks(ranks, comps, guild) == NoRanks <==> forall k :: 0 <= k < |ranks| ==> ranks[k].guildId != guild
  {
    var own := Filter(ranks, RankOfGuild(guild));
    if own == [] {
      forall k | 0 <= k < |ranks| ensures ranks[k].guildId != guild {
        assert ranks[k] in ranks;
      }
    } else {
      assert own[0] in own;
    }
  }

  /** The rank list has one line per rank of the guild, highest threshold first. */
  lemma RankListCoversTheGuild(ranks: seq<Rank>, comps: seq<Competition>, guild: Id)
    requires ShowRanks(ranks, comps, guild).RankList?
    ensures var lines := ShowRanks(ranks, comps, guild).lines;
            && |lines| == |Filter(ranks, RankOfGuild(guild))|
            && (forall i, j :: 0 <= i < j < |lines| ==> lines[i].points >= lines[j].points)
            && (forall k :: 0 <= k < |ranks| && ranks[k].guildId == guild ==>
                  exists i :: 0 <= i < |lines| && lines[i].roleId == ranks[k].roleId)
  {
    var own := Filter(ranks, RankOfGuild(guild));
    var sorted := SortDesc(own, RankPoints);
    SortDescSorts(own, RankPoints);
    SortDescPermutes(own, RankPoints);
    var lines := ShowRanks(ranks, comps, guild).lines;
    forall k | 0 <= k < |ranks| && ranks[k].guildId == guild
      ensures exists i :: 0 <= i < |lines| && lines[i].roleId == ranks[k].roleId
    {
      assert ranks[k] in ranks;
      assert ranks[k] in own;
      assert ranks[k] in multiset(sorted);
      var i :| 0 <= i < |sorted| && sorted[i] == ranks[k];
      assert lines[i].roleId == ranks[k].roleId;
    }
  }
}
