/**
 * The older queue-timeout sweep. It walks the queue guild by guild with no
 * check on the lobby's draft, and a notification that throws ends the run
 * before anything is saved.
 */
module LegacyEloJobs {
  import opened Entities
  import EloJobs

  /** The guilds of the queue's rows, each once, in order of first appearance (`GroupBy`). */
  function GuildOrder(q: seq<QueuedPlayer>): (r: seq<Id>)
    ensures Distinct(r)
    ensures forall g :: g in r <==> exists i :: 0 <= i < |q| && q[i].guildId == g
  {
    if q == [] then []
    else
      var rest := GuildOrder(q[..|q| - 1]);
      var g := q[|q| - 1].guildId;
      assert forall i :: 0 <= i < |q| - 1 ==> q[..|q| - 1][i] == q[i];
      if g in rest then rest else rest + [g]
  }

  /** The row outstayed the queue timeout of its guild's competition (none: never). */
  predicate Overdue(comps: seq<Competition>, row: QueuedPlayer, now: int) {
    var timeout := CompetitionOf(comps, row.guildId).queueTimeout;
    timeout.Some? && EloJobs.Expired(row, timeout.value, now)
  }

  /** Selects the rows the old sweep keeps. */
  function NotOverdue(comps: seq<Competition>, now: int): QueuedPlayer -> bool {
    (x: QueuedPlayer) => !Overdue(comps, x, now)
  }

  /** The queue after an old sweep that runs to its save. */
  function LegacySwept(q: seq<QueuedPlayer>, comps: seq<Competition>, now: int): (r: seq<QueuedPlayer>)
    ensures forall x :: x in r <==> x in q && !Overdue(comps, x, now)
  {
    Filter(q, NotOverdue(comps, now))
  }

  /** The run throws before saving: the notification of some overdue row fails. */
  predicate Aborts(q: seq<QueuedPlayer>, comps: seq<Competition>, now: int, sendFails: QueuedPlayer -> bool) {
    exists i :: 0 <= i < |q| && Overdue(comps, q[i], now) && sendFails(q[i])
  }

  /**
   * `RunQueueChecks` of the older sweep. `sendFails(row)` says whether the
   * notification of the row's eviction throws. The method answers whether
   * the run reached its save.
   */
  method RunQueueChecks(db: Database, now: int, sendFails: QueuedPlayer -> bool) returns (saved: bool)
    requires db.Valid()
    modifies db`queued
    ensures db.Valid()
    ensures saved <==> !Aborts(old(db.queued), db.competitions, now, sendFails)
    ensures db.queued == if saved then LegacySwept(old(db.queued), db.competitions, now) else old(db.queued)
  {
    var q := db.queued;
    var guilds := GuildOrder(q);
    var doomed: set<QueuedPlayer> := {};
    for gi := 0 to |guilds|
      invariant db.queued == q
      invariant forall x :: x in doomed <==> x in q && x.guildId in guilds[..gi] && Overdue(db.competitions, x, now)
      invariant forall i :: 0 <= i < |q| && q[i].guildId in guilds[..gi] && Overdue(db.competitions, q[i], now) ==>
                  !sendFails(q[i])
    {
      var guild := guilds[gi];
      var comp := CompetitionOf(db.competitions, guild);
      if comp.queueTimeout.None? {
        assert guilds[..gi + 1] == guilds[..gi] + [guild];
        continue;
      }
      var failed;
      doomed, failed := SweepGuild(q, db.competitions, guild, comp.queueTimeout.value, now, sendFails, doomed);
      if failed {
        return false;
      }
      assert guilds[..gi + 1] == guilds[..gi] + [guild];
    }
    assert guilds[..|guilds|] == guilds;
    FilterSameSelection(q, EloJobs.Spared(doomed), NotOverdue(db.competitions, now));
    FilterKeepsQueueKeysUnique(q, EloJobs.Spared(doomed));
    db.queued := Filter(q, EloJobs.Spared(doomed));
    saved := true;
  }

  /**
   * The inner loop of the older sweep over one guild's rows: marks each
   * overdue row and notifies its user. `failed` says that a notification threw.
   */
  method SweepGuild(q: seq<QueuedPlayer>, comps: seq<Competition>, guild: Id, timeout: int, now: int,
                    sendFails: QueuedPlayer -> bool, doomed0: set<QueuedPlayer>)
    returns (doomed: set<QueuedPlayer>, failed: bool)
    requires CompetitionOf(comps, guild).queueTimeout == Some(timeout)
    ensures failed ==> Aborts(q, comps, now, sendFails)
    ensures !failed ==> forall x :: x in doomed <==> x in doomed0 || (x in q && x.guildId == guild && Overdue(comps, x, now))
    ensures !failed ==> forall i :: 0 <= i < |q| && q[i].guildId == guild && Overdue(comps, q[i], now) ==> !sendFails(q[i])
  {
    doomed, failed := doomed0, false;
    for j := 0 to |q|
      invariant forall x :: x in doomed <==> x in doomed0 || (x in q[..j] && x.guildId == guild && Overdue(comps, x, now))
      invariant forall i :: 0 <= i < j && q[i].guildId == guild && Overdue(comps, q[i], now) ==> !sendFails(q[i])
    {
      var player := q[j];
      if player.guildId == guild && EloJobs.Expired(player, timeout, now) {
        doomed := doomed + {player};
        // The notification is not guarded: a failure ends the run unsaved.
        if sendFails(player) {
          return doomed, true;
        }
      }
      assert q[..j + 1] == q[..j] + [player];
    }
    assert q[..|q|] == q;
  }

  /* ------------------------------------------------------------------ */
  /* The two sweeps compared                                             */
  /* ------------------------------------------------------------------ */

  /**
   * With one competition per guild, the newer sweep removes a subset of what
   * a completed older sweep removes: everything the older one keeps, the
   * newer one keeps too. The two differ only on drafting lobbies.
   */
  lemma NewSweepRemovesNoMore(q: seq<QueuedPlayer>, comps: seq<Competition>, games: seq<Game>, now: int)
    requires CompetitionKeysUnique(comps)
    ensures forall x :: x in LegacySwept(q, comps, now) ==> x in EloJobs.Swept(q, comps, games, now)
    ensures forall x :: x in q && !IsPicking(games, x.channelId) ==>
              (x in LegacySwept(q, comps, now) <==> x in EloJobs.Swept(q, comps, games, now))
  {
    forall x | x in q
      ensures Overdue(comps, x, now) <==> EloJobs.TimedOut(comps, x, now)
    {
      if EloJobs.TimedOut(comps, x, now) {
        var k :| 0 <= k < |comps| && comps[k].guildId == x.guildId && comps[k].queueTimeout.Some? &&
                 EloJobs.Expired(x, comps[k].queueTimeout.value, now);
        var i := CompetitionIndex(comps, x.guildId).value;
        assert i == k;
      }
    }
  }

  /**
   * The older sweep evicts from a drafting lobby: every overdue player of a
   * lobby whose latest game is picking is removed by the older sweep and kept
   * by the newer.
   */
  lemma OldSweepEvictsDuringDraft(q: seq<QueuedPlayer>, comps: seq<Competition>, games: seq<Game>, now: int,
                                  row: QueuedPlayer)
    requires row in q && Overdue(comps, row, now) && IsPicking(games, row.channelId)
    ensures row !in LegacySwept(q, comps, now)
    ensures row in EloJobs.Swept(q, comps, games, now)
  {
  }

  /** Such a player exists: one overdue row of a drafting lobby is enough. */
  lemma DraftEvictionCanHappen()
    ensures var comps := [Competition(1, false, None, Some(600), 0, 0, 0, None)];
            var games := [Game(1, 7, 1, Picking, PickOne, 0)];
            var row := QueuedPlayer(1, 7, 42, 0);
            Overdue(comps, row, 601) && IsPicking(games, row.channelId)
  {
    var games := [Game(1, 7, 1, Picking, PickOne, 0)];
    assert LatestGameIndex(games, 7) == Some(0);
  }
}
