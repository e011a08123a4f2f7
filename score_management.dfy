/**
 * Moderator score edits: setting or shifting one counter of the selected
 * players of a guild, and resetting a guild's leaderboard.
 */
module ScoreManagement {
  import opened Entities

  /** The counter a command edits: `Points`, `Wins`, `Losses`, `Draws`, `Kills` or `Deaths`. */
  datatype Counter = Points | Wins | Losses | Draws | Kills | Deaths

  /** How the amount applies; any other value of the enum is `Unrecognised`. */
  datatype ModifyState = Set | Modify | Unrecognised(code: int)

  datatype EditOutcome =
    | Edited
    /** `InvalidOperationException("Unknown modify state")`: nothing is saved. */
    | UnknownModifyState

  function CounterOf(p: Player, c: Counter): int {
    match c
    case Points => p.points
    case Wins => p.wins
    case Losses => p.losses
    case Draws => p.draws
    case Kills => p.kills
    case Deaths => p.deaths
  }

  /** The player with one counter replaced. */
  function WithCounter(p: Player, c: Counter, v: int): (r: Player)
    ensures CounterOf(r, c) == v
    ensures r.guildId == p.guildId && r.userId == p.userId
    ensures forall d :: d != c ==> CounterOf(r, d) == CounterOf(p, d)
  {
    match c
    case Points => p.(points := v)
    case Wins => p.(wins := v)
    case Losses => p.(losses := v)
    case Draws => p.(draws := v)
    case Kills => p.(kills := v)
    case Deaths => p.(deaths := v)
  }

  /** The counter's new value: `amount`, or the unchecked C# sum with `amount`. */
  function Adjusted(value: int, state: ModifyState, amount: int): int
    requires !state.Unrecognised?
  {
    if state.Set? then amount else WrapInt32(value + amount)
  }

  /** The player is one of the named users of the guild. */
  predicate Targeted(p: Player, guild: Id, ids: seq<Id>) {
    p.guildId == guild && p.userId in ids
  }

  /** The players table after a score edit that does not throw. */
  function EditedPlayers(players: seq<Player>, guild: Id, ids: seq<Id>, c: Counter, state: ModifyState, amount: int): seq<Player>
    requires !state.Unrecognised?
  {
    seq(|players|, i requires 0 <= i < |players| =>
      if Targeted(players[i], guild, ids) then WithCounter(players[i], c, Adjusted(CounterOf(players[i], c), state, amount))
      else players[i])
  }

  /**
   * `PointsAsync`, `WinsAsync`, `LossesAsync`, `DrawsAsync`, `KillsAsync` and
   * `DeathsAsync`: apply `state` and `amount` to counter `c` of every player of
   * the guild named in `ids`, in table order, and save.
   */
  method EditScores(db: Database, guild: Id, ids: seq<Id>, c: Counter, state: ModifyState, amount: int)
    returns (outcome: EditOutcome)
    requires db.Valid() && IsInt32(amount)
    modifies db`players
    ensures db.Valid()
    ensures outcome == UnknownModifyState <==>
              state.Unrecognised? && exists i :: 0 <= i < |old(db.players)| && Targeted(old(db.players)[i], guild, ids)
    ensures db.players == if state.Unrecognised? then old(db.players)
                          else EditedPlayers(old(db.players), guild, ids, c, state, amount)
  {
    var players := db.players;
    for i := 0 to |players|
      invariant |players| == |db.players|
      invariant forall j :: 0 <= j < i ==> !Targeted(db.players[j], guild, ids) || !state.Unrecognised?
      invariant forall j :: i <= j < |players| ==> players[j] == db.players[j]
      invariant !state.Unrecognised? ==> forall j :: 0 <= j < i ==> players[j] == EditedPlayers(db.players, guild, ids, c, state, amount)[j]
      invariant state.Unrecognised? ==> players == db.players
    {
      var player := players[i];
      if Targeted(player, guild, ids) {
        var original := CounterOf(player, c);
        if state.Set? {
          player := WithCounter(player, c, amount);
        } else if state.Modify? {
          player := WithCounter(player, c, WrapInt32(original + amount));
        } else {
          return UnknownModifyState;
        }
        players := players[i := player];
      }
    }
    if !state.Unrecognised? {
      SameKeysKeepPlayerKeysUnique(db.players, players);
    }
    db.players := players;
    outcome := Edited;
  }

  /** Rewriting counters keeps every player's (guild, user) key, so keys stay unique. */
  lemma SameKeysKeepPlayerKeysUnique(before: seq<Player>, after: seq<Player>)
    requires PlayerKeysUnique(before) && |after| == |before|
    requires forall i :: 0 <= i < |before| ==> after[i].guildId == before[i].guildId && after[i].userId == before[i].userId
    ensures PlayerKeysUnique(after)
  {
  }

  /* ------------------------------------------------------------------ */
  /* Properties of a score edit                                          */
  /* ------------------------------------------------------------------ */

  /**
   * A score edit changes only counter `c` of the targeted players: `Set`
   * makes it `amount`; every other counter, key and player is unchanged.
   */
  lemma EditTouchesOnlyTheCounter(players: seq<Player>, guild: Id, ids: seq<Id>, c: Counter, state: ModifyState, amount: int)
    requires !state.Unrecognised?
    ensures var r := EditedPlayers(players, guild, ids, c, state, amount);
            && |r| == |players|
            && (forall i :: 0 <= i < |r| && !Targeted(players[i], guild, ids) ==> r[i] == players[i])
            && (forall i, d :: 0 <= i < |r| && d != c ==> CounterOf(r[i], d) == CounterOf(players[i], d))
            && (forall i :: 0 <= i < |r| ==> r[i].guildId == players[i].guildId && r[i].userId == players[i].userId)
            && (state.Set? ==> forall i :: 0 <= i < |r| && Targeted(players[i], guild, ids) ==> CounterOf(r[i], c) == amount)
  {
  }

  /** An int32 value is the one wrap-around result that agrees with `y` modulo 2^32. */
  lemma WrapInt32Unique(y: int, s: int)
    requires IsInt32(s) && (y - s) % Int32Modulus == 0
    ensures WrapInt32(y) == s
  {
    var r := WrapInt32(y);
    var a := (y - r) / Int32Modulus;
    var b := (y - s) / Int32Modulus;
    assert y - r == a * Int32Modulus;
    assert y - s == b * Int32Modulus;
    assert s - r == (a - b) * Int32Modulus;
  }

  /**
   * `Modify` adds `amount` with no clamping (points may go negative); only a
   * sum outside the C# `int` range wraps around.
   */
  lemma ModifyAdds(value: int, amount: int)
    requires IsInt32(value) && IsInt32(amount)
    ensures IsInt32(value + amount) ==> Adjusted(value, Modify, amount) == value + amount
    ensures !IsInt32(value + amount) && amount > 0 ==> Adjusted(value, Modify, amount) == value + amount - Int32Modulus
    ensures !IsInt32(value + amount) && amount < 0 ==> Adjusted(value, Modify, amount) == value + amount + Int32Modulus
  {
    if !IsInt32(value + amount) {
      if amount > 0 {
        WrapInt32Unique(value + amount, value + amount - Int32Modulus);
      } else {
        WrapInt32Unique(value + amount, value + amount + Int32Modulus);
      }
    }
  }

  /** A `Modify` by `-amount` undoes a `Modify` by `amount`, wrap-around included. */
  lemma ModifyIsUndone(value: int, amount: int)
    requires IsInt32(value)
    ensures Adjusted(Adjusted(value, Modify, amount), Modify, -amount) == value
  {
    var once := WrapInt32(value + amount);
    var k := (value + amount - once) / Int32Modulus;
    assert value + amount - once == k * Int32Modulus;
    assert (once - amount) - value == -k * Int32Modulus;
    WrapInt32Unique(once - amount, value);
  }

  /** Editing with `Set` twice is editing once. */
  lemma {:induction false} SetIsIdempotent(players: seq<Player>, guild: Id, ids: seq<Id>, c: Counter, amount: int)
    ensures var once := EditedPlayers(players, guild, ids, c, Set, amount);
            EditedPlayers(once, guild, ids, c, Set, amount) == once
  {
    var once := EditedPlayers(players, guild, ids, c, Set, amount);
    var twice := EditedPlayers(once, guild, ids, c, Set, amount);
    forall i | 0 <= i < |players| ensures twice[i] == once[i] {
      if Targeted(players[i], guild, ids) {
        assert Targeted(once[i], guild, ids);
        WithCounterTwice(players[i], c, amount, amount);
      }
    }
  }

  /** Replacing a counter twice keeps the second value. */
  lemma WithCounterTwice(p: Player, c: Counter, v: int, w: int)
    ensures WithCounter(WithCounter(p, c, v), c, w) == WithCounter(p, c, w)
  {
  }

  /* ------------------------------------------------------------------ */
  /* ResetLeaderboard                                                    */
  /* ------------------------------------------------------------------ */

  /** A player starting over: the default register score and no games. */
  function Restarted(p: Player, score: int): Player {
    p.(points := score, wins := 0, losses := 0, draws := 0, kills := 0, deaths := 0)
  }

  /** The players table after a leaderboard reset of the guild. */
  function ResetPlayers(players: seq<Player>, guild: Id, score: int): seq<Player> {
    seq(|players|, i requires 0 <= i < |players| => if players[i].guildId == guild then Restarted(players[i], score) else players[i])
  }

  /** `ResetLeaderboard`: every player of the guild starts over at the competition's register score. */
  method ResetLeaderboard(db: Database, guild: Id)
    requires db.Valid()
    modifies db`players
    ensures db.Valid()
    ensures db.players == ResetPlayers(old(db.players), guild, CompetitionOf(db.competitions, guild).defaultRegisterScore)
  {
    var score := CompetitionOf(db.competitions, guild).defaultRegisterScore;
    var players := db.players;
    for i := 0 to |players|
      invariant |players| == |db.players|
      invariant forall j :: 0 <= j < i ==> players[j] == ResetPlayers(db.players, guild, score)[j]
      invariant forall j :: i <= j < |players| ==> players[j] == db.players[j]
    {
      if players[i].guildId == guild {
        players := players[i := Restarted(players[i], score)];
      }
    }
    SameKeysKeepPlayerKeysUnique(db.players, players);
    db.players := players;
  }

  /**
   * After a reset every player of the guild has the register score and no
   * wins, losses, draws, kills or deaths; other guilds are untouched; and a
   * second reset changes nothing.
   */
  lemma {:induction false} ResetClearsTheGuild(players: seq<Player>, guild: Id, score: int)
    ensures var r := ResetPlayers(players, guild, score);
            && |r| == |players|
            && (forall i :: 0 <= i < |r| && players[i].guildId == guild ==>
                  r[i].points == score && r[i].wins == 0 && r[i].losses == 0 && r[i].draws == 0 &&
                  r[i].kills == 0 && r[i].deaths == 0 && r[i].userId == players[i].userId)
            && (forall i :: 0 <= i < |r| && players[i].guildId != guild ==> r[i] == players[i])
            && ResetPlayers(r, guild, score) == r
  {
    var r := ResetPlayers(players, guild, score);
    var rr := ResetPlayers(r, guild, score);
    assert forall i :: 0 <= i < |r| ==> rr[i] == r[i];
  }
}
