/**
 * The periodic queue-timeout sweep: every queued user who has waited longer
 * than their guild's queue timeout is taken out of the queue, except in
 * lobbies whose latest game is still drafting teams.
 */
module EloJobs {
  import opened Entities

  /** The row has waited longer than `timeout`; a row exactly at the limit stays. */
  predicate Expired(row: QueuedPlayer, timeout: int, now: int) {
    row.queuedAt + timeout < now
  }

  /** Some competition of the row's guild has a queue timeout the row has outstayed. */
  predicate TimedOut(comps: seq<Competition>, row: QueuedPlayer, now: int) {
    exists k :: 0 <= k < |comps| && comps[k].guildId == row.guildId && comps[k].queueTimeout.Some? &&
      Expired(row, comps[k].queueTimeout.value, now)
  }

  /** The sweep removes the row: it timed out and its lobby is not drafting. */
  predicate Evicted(comps: seq<Competition>, games: seq<Game>, row: QueuedPlayer, now: int) {
    TimedOut(comps, row, now) && !IsPicking(games, row.channelId)
  }

  /** Selects the rows the sweep keeps. */
  function Survives(comps: seq<Competition>, games: seq<Game>, now: int): QueuedPlayer -> bool {
    (x: QueuedPlayer) => !Evicted(comps, games, x, now)
  }

  /** The queue after a sweep at time `now`. */
  function Swept(q: seq<QueuedPlayer>, comps: seq<Competition>, games: seq<Game>, now: int): (r: seq<QueuedPlayer>)
    ensures forall x :: x in r <==> x in q && !Evicted(comps, games, x, now)
  {
    Filter(q, Survives(comps, games, now))
  }

  /** Selects the rows not marked for removal. */
  function Spared(doomed: set<QueuedPlayer>): QueuedPlayer -> bool {
    (x: QueuedPlayer) => x !in doomed
  }

  /**
   * `RunQueueChecks`: for each competition with a queue timeout, for each
   * queued row of its guild whose lobby is not drafting, marks the row for
   * removal once it has outstayed the timeout; then saves once. A failed
   * notification is swallowed, so it changes nothing here.
   */
  method RunQueueChecks(db: Database, now: int)
    requires db.Valid()
    modifies db`queued
    ensures db.Valid()
    ensures db.queued == Swept(old(db.queued), db.competitions, db.games, now)
  {
    var q := db.queued;
    var comps := db.competitions;
    var doomed: set<QueuedPlayer> := {};
    for k := 0 to |comps|
      invariant forall x :: x in doomed <==>
        x in q && !IsPicking(db.games, x.channelId) &&
        exists k' :: 0 <= k' < k && comps[k'].guildId == x.guildId && comps[k'].queueTimeout.Some? &&
          Expired(x, comps[k'].queueTimeout.value, now)
    {
      var competition := comps[k];
      if competition.queueTimeout.None? {
        continue;
      }
      var timeout := competition.queueTimeout.value;
      ghost var before := doomed;
      for j := 0 to |q|
        invariant forall x :: x in doomed <==>
          x in before ||
          (x in q[..j] && x.guildId == competition.guildId && !IsPicking(db.games, x.channelId) && Expired(x, timeout, now))
      {
        var member := q[j];
        // Players of a drafting lobby stay queued while the teams are picked.
        if member.guildId == competition.guildId && !IsPicking(db.games, member.channelId) && Expired(member, timeout, now) {
          doomed := doomed + {member};
        }
        assert q[..j + 1] == q[..j] + [member];
      }
      assert q[..|q|] == q;
    }
    FilterSameSelection(q, Spared(doomed), Survives(comps, db.games, now));
    FilterKeepsQueueKeysUnique(q, Spared(doomed));
    db.queued := Filter(q, Spared(doomed));
  }

  /* ------------------------------------------------------------------ */
  /* Properties of the sweep                                             */
  /* ------------------------------------------------------------------ */

  /**
   * A lobby whose latest game is drafting loses no one, and neither does a
   * lobby of a guild whose competitions set no queue timeout.
   */
  lemma SweepSparesDraftsAndUntimedGuilds(q: seq<QueuedPlayer>, comps: seq<Competition>, games: seq<Game>,
                                          now: int, channel: Id, guild: Id)
    ensures IsPicking(games, channel) ==> ChannelQueue(Swept(q, comps, games, now), channel) == ChannelQueue(q, channel)
    ensures (forall k :: 0 <= k < |comps| && comps[k].guildId == guild ==> comps[k].queueTimeout.None?) ==>
              forall x :: x in q && x.guildId == guild ==> x in Swept(q, comps, games, now)
  {
    if IsPicking(games, channel) {
      FilterOfFilter(q, Survives(comps, games, now), OfChannel(channel));
    }
  }

  /**
   * Sweeping twice at the same moment removes no more than sweeping once, and
   * a sweep only ever removes rows.
   */
  lemma {:induction false} SweepIsIdempotent(q: seq<QueuedPlayer>, comps: seq<Competition>, games: seq<Game>, now: int)
    ensures Swept(Swept(q, comps, games, now), comps, games, now) == Swept(q, comps, games, now)
    ensures |Swept(q, comps, games, now)| <= |q|
  {
    FilterOfFilter(q, Survives(comps, games, now), Survives(comps, games, now));
  }

  /** The queue timeout is strict: a row queued exactly `timeout` ago stays. */
  lemma BoundaryRowStays(comps: seq<Competition>, games: seq<Game>, row: QueuedPlayer, now: int)
    requires forall k :: 0 <= k < |comps| && comps[k].guildId == row.guildId && comps[k].queueTimeout.Some? ==>
               row.queuedAt + comps[k].queueTimeout.value == now
    ensures !Evicted(comps, games, row, now)
  {
  }

  /** A lobby with no game yet is swept like any other. */
  lemma LobbyWithoutGameIsSwept(comps: seq<Competition>, games: seq<Game>, row: QueuedPlayer, now: int)
    requires forall j :: 0 <= j < |games| ==> games[j].lobbyId != row.channelId
    ensures Evicted(comps, games, row, now) <==> TimedOut(comps, row, now)
  {
  }
}
