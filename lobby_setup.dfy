/**
 * Administrator commands that configure lobbies: creating, deleting and
 * purging lobbies, the lobby's map list, and the setters of a lobby's own
 * fields.
 */
module LobbySetup {
  import opened Entities

  /* ------------------------------------------------------------------ */
  /* CreateLobby                                                         */
  /* ------------------------------------------------------------------ */

  datatype CreateOutcome = AlreadyALobby | LobbyLimitReached | Created

  datatype CreateResult = CreateResult(outcome: CreateOutcome, lobbies: seq<Lobby>)

  /** Selects the lobbies of a guild. */
  function LobbyOfGuild(guild: Id): Lobby -> bool {
    (l: Lobby) => l.guildId == guild
  }

  function GuildLobbyCount(lobbies: seq<Lobby>, guild: Id): nat {
    |Filter(lobbies, LobbyOfGuild(guild))|
  }

  /**
   * The lobby `CreateLobbyAsync` builds. Only the four fields the command sets
   * come from it; the entity's initialisers for the rest are not part of this
   * model, so they take their type's empty value.
   */
  function NewLobby(guild: Id, channel: Id, playersPerTeam: int, pickMode: nat): (l: Lobby)
    ensures l.guildId == guild && l.channelId == channel
    ensures l.playersPerTeam == playersPerTeam && l.teamPickMode == pickMode
  {
    Lobby(guild, channel, playersPerTeam, pickMode, PickOne, None, false, false, false, false, None, 0, None, None, None)
  }

  /**
   * `CreateLobbyAsync`: a channel that is already a lobby is refused; then a
   * guild at or above the lobby limit is refused unless it is premium;
   * otherwise one lobby is added. `lobbyLimit` is the premium configuration's
   * limit and `premium` the premium service's verdict for the guild.
   */
  function CreateStep(lobbies: seq<Lobby>, guild: Id, channel: Id, playersPerTeam: int, pickMode: nat,
                      lobbyLimit: int, premium: bool): (r: CreateResult)
    ensures r.outcome == AlreadyALobby <==> LobbyIndex(lobbies, channel).Some?
    ensures r.outcome == LobbyLimitReached <==>
              LobbyIndex(lobbies, channel).None? && GuildLobbyCount(lobbies, guild) >= lobbyLimit && !premium
    ensures r.outcome != Created ==> r.lobbies == lobbies
  {
    if LobbyIndex(lobbies, channel).Some? then CreateResult(AlreadyALobby, lobbies)
    else if GuildLobbyCount(lobbies, guild) >= lobbyLimit && !premium then CreateResult(LobbyLimitReached, lobbies)
    else CreateResult(Created, lobbies + [NewLobby(guild, channel, playersPerTeam, pickMode)])
  }

  /**
   * A created lobby is the one found for the channel from then on, with the
   * requested team size and pick mode; the guild has exactly one lobby more,
   * every lobby key is still unique, and a guild that was not premium never
   * goes past the limit.
   */
  lemma CreatedLobbyIsTheChannels(lobbies: seq<Lobby>, guild: Id, channel: Id, playersPerTeam: int, pickMode: nat,
                                  lobbyLimit: int, premium: bool)
    requires LobbyKeysUnique(lobbies)
    ensures var r := CreateStep(lobbies, guild, channel, playersPerTeam, pickMode, lobbyLimit, premium);
            && LobbyKeysUnique(r.lobbies)
            && (r.outcome == Created ==>
                  && LobbyIndex(r.lobbies, channel) == Some(|lobbies|)
                  && r.lobbies[|lobbies|].guildId == guild
                  && r.lobbies[|lobbies|].playersPerTeam == playersPerTeam
                  && r.lobbies[|lobbies|].teamPickMode == pickMode
                  && GuildLobbyCount(r.lobbies, guild) == GuildLobbyCount(lobbies, guild) + 1)
            && (!premium && GuildLobbyCount(lobbies, guild) <= lobbyLimit ==> GuildLobbyCount(r.lobbies, guild) <= lobbyLimit)
  {
    var r := CreateStep(lobbies, guild, channel, playersPerTeam, pickMode, lobbyLimit, premium);
    if r.outcome == Created {
      var l := NewLobby(guild, channel, playersPerTeam, pickMode);
      FilterAppend(lobbies, [l], LobbyOfGuild(guild));
      assert Filter([l], LobbyOfGuild(guild)) == [l];
      FirstIndexAppend(lobbies, l, (x: Lobby) => x.channelId == channel);
    }
  }

  /* ------------------------------------------------------------------ */
  /* DeleteLobby and PurgeLobbies                                        */
  /* ------------------------------------------------------------------ */

  datatype DeleteOutcome = DeleteNotALobby | LobbyDeleted

  datatype DeleteResult = DeleteResult(outcome: DeleteOutcome, lobbies: seq<Lobby>)

  /** `DeleteLobbyAsync(lobbyId)`: the lobby stored under the channel id is removed. */
  function DeleteStep(lobbies: seq<Lobby>, lobbyId: Id): (r: DeleteResult)
    ensures r.outcome == DeleteNotALobby <==> LobbyIndex(lobbies, lobbyId).None?
    ensures r.outcome == DeleteNotALobby ==> r.lobbies == lobbies
  {
    match LobbyIndex(lobbies, lobbyId)
    case None => DeleteResult(DeleteNotALobby, lobbies)
    case Some(i) => DeleteResult(LobbyDeleted, RemoveAt(lobbies, i))
  }

  /** After a deletion the channel is no longer a lobby and every other lobby is still there. */
  lemma DeleteRemovesOnlyThatLobby(lobbies: seq<Lobby>, lobbyId: Id)
    requires LobbyKeysUnique(lobbies)
    ensures var r := DeleteStep(lobbies, lobbyId);
            && LobbyKeysUnique(r.lobbies)
            && LobbyIndex(r.lobbies, lobbyId).None?
            && forall l :: l in r.lobbies <==> l in lobbies && l.channelId != lobbyId
  {
    var r := DeleteStep(lobbies, lobbyId);
    if r.outcome == LobbyDeleted {
      var i := LobbyIndex(lobbies, lobbyId).value;
      forall l ensures l in r.lobbies <==> l in lobbies && l.channelId != lobbyId {
        if l in lobbies && l.channelId != lobbyId {
          var k :| 0 <= k < |lobbies| && lobbies[k] == l;
          if k < i {
            assert r.lobbies[k] == l;
          } else {
            assert k != i;
            assert r.lobbies[k - 1] == l;
          }
        }
      }
    }
  }

  datatype PurgeOutcome = NoLobbiesToRemove | LobbiesPurged(count: nat)

  datatype PurgeResult = PurgeResult(outcome: PurgeOutcome, lobbies: seq<Lobby>)

  /** Selects the guild's lobbies whose channel no longer exists. */
  function Orphaned(guild: Id, channels: set<Id>): Lobby -> bool {
    (l: Lobby) => l.guildId == guild && l.channelId !in channels
  }

  function NotOrphaned(guild: Id, channels: set<Id>): Lobby -> bool {
    (l: Lobby) => !(l.guildId == guild && l.channelId !in channels)
  }

  /**
   * `PurgeLobbiesAsynnc`: removes the guild's lobbies whose channel is not
   * among the guild's `channels`, or reports that there are none.
   */
  function PurgeStep(lobbies: seq<Lobby>, guild: Id, channels: set<Id>): (r: PurgeResult)
    ensures r.outcome == NoLobbiesToRemove ==> r.lobbies == lobbies
    ensures forall l :: l in r.lobbies <==> l in lobbies && !(l.guildId == guild && l.channelId !in channels)
  {
    var doomed := Filter(lobbies, Orphaned(guild, channels));
    if |doomed| == 0 then
      assert forall j :: 0 <= j < |lobbies| ==> !Orphaned(guild, channels)(lobbies[j]) by {
        forall j | 0 <= j < |lobbies| ensures !Orphaned(guild, channels)(lobbies[j]) {
          assert lobbies[j] in lobbies;
        }
      }
      PurgeResult(NoLobbiesToRemove, lobbies)
    else
      PurgeResult(LobbiesPurged(|doomed|), Filter(lobbies, NotOrphaned(guild, channels)))
  }

  /** The count reported is the number of lobbies that went. */
  lemma PurgeCountsTheRemovedLobbies(lobbies: seq<Lobby>, guild: Id, channels: set<Id>)
    ensures var r := PurgeStep(lobbies, guild, channels);
            r.outcome.LobbiesPurged? ==> r.outcome.count == |lobbies| - |r.lobbies| > 0
  {
    FilterSplitsLength(lobbies, Orphaned(guild, channels), NotOrphaned(guild, channels));
  }

  /* ------------------------------------------------------------------ */
  /* Lobby fields                                                        */
  /* ------------------------------------------------------------------ */

  /**
   * The lobby field setters, one per command. The commands that take an
   * optional value (`HideQueue`, `MentionUsersInReadyAnnouncement`,
   * `LobbyMultiplierLoss`) only show the current setting when given none,
   * and the announcement commands refuse a missing destination.
   */
  datatype Setting =
    | PlayerCount(playersPerTeam: int)
    | PickModeOf(pickMode: nat)
    | PickOrderOf(order: CaptainPickOrder)
    | ReadyChannel(destination: Option<Id>)
    | ResultChannel(destination: Option<Id>)
    | MinimumPoints(points: int)
    | ResetMinimumPoints
    | ToggleDms
    | Description(text: string)
    | HideQueue(hide: Option<bool>)
    | MentionUsers(mention: Option<bool>)
    | MultiplyLoss(multiply: Option<bool>)
    | HighLimit(limit: Option<int>)
    | HostMode(mode: nat)

  /** A command that was given no value and only shows the current setting. */
  predicate OnlyShows(s: Setting) {
    || (s.HideQueue? && s.hide.None?)
    || (s.MentionUsers? && s.mention.None?)
    || (s.MultiplyLoss? && s.multiply.None?)
  }

  /** The lobby after a setter: one field changes, and no other. */
  function Apply(lobby: Lobby, s: Setting): (r: Lobby)
    requires !OnlyShows(s)
    requires !(s.ReadyChannel? && s.destination.None?) && !(s.ResultChannel? && s.destination.None?)
    ensures r.guildId == lobby.guildId && r.channelId == lobby.channelId
    ensures s.ToggleDms? ==> r.dmUsersOnGameReady != lobby.dmUsersOnGameReady
    ensures match s
            case PlayerCount(n) => r == lobby.(playersPerTeam := n)
            case PickModeOf(m) => r == lobby.(teamPickMode := m)
            case PickOrderOf(o) => r == lobby.(captainPickOrder := o)
            case ReadyChannel(d) => r == lobby.(gameReadyAnnouncementChannel := d)
            case ResultChannel(d) => r == lobby.(gameResultAnnouncementChannel := d)
            case MinimumPoints(p) => r == lobby.(minimumPoints := Some(p))
            case ResetMinimumPoints => r == lobby.(minimumPoints := None)
            case ToggleDms => r.(dmUsersOnGameReady := lobby.dmUsersOnGameReady) == lobby
            case Description(t) => r == lobby.(description := Some(t))
            case HideQueue(h) => r == lobby.(hideQueue := h.value)
            case MentionUsers(m) => r == lobby.(mentionUsersInReadyAnnouncement := m.value)
            case MultiplyLoss(v) => r == lobby.(multiplyLossValue := v.value)
            case HighLimit(h) => r == lobby.(highLimit := h)
            case HostMode(m) => r == lobby.(hostSelectionMode := m)
  {
    match s
    case PlayerCount(n) => lobby.(playersPerTeam := n)
    case PickModeOf(m) => lobby.(teamPickMode := m)
    case PickOrderOf(o) => lobby.(captainPickOrder := o)
    case ReadyChannel(d) => lobby.(gameReadyAnnouncementChannel := d)
    case ResultChannel(d) => lobby.(gameResultAnnouncementChannel := d)
    case MinimumPoints(p) => lobby.(minimumPoints := Some(p))
    case ResetMinimumPoints => lobby.(minimumPoints := None)
    case ToggleDms => lobby.(dmUsersOnGameReady := !lobby.dmUsersOnGameReady)
    case Description(t) => lobby.(description := Some(t))
    case HideQueue(h) => lobby.(hideQueue := h.value)
    case MentionUsers(m) => lobby.(mentionUsersInReadyAnnouncement := m.value)
    case MultiplyLoss(v) => lobby.(multiplyLossValue := v.value)
    case HighLimit(h) => lobby.(highLimit := h)
    case HostMode(m) => lobby.(hostSelectionMode := m)
  }

  datatype SetOutcome =
    /** "You need to specify a channel for the announcements to be sent to." */
    | NoDestination
    /** "You cannot send announcements to the current channel ..." */
    | CurrentChannel
    | SetNotALobby
    /** The lobby as it is, for a command given no value. */
    | Shown(lobby: Lobby)
    /** The lobby as it was saved. */
    | Updated(lobby: Lobby)

  datatype SetResult = SetResult(outcome: SetOutcome, lobbies: seq<Lobby>)

  /**
   * One setter run in `channel`. The announcement commands check their
   * destination before they look up the lobby.
   */
  function SetStep(lobbies: seq<Lobby>, channel: Id, s: Setting): (r: SetResult)
    ensures !r.outcome.Updated? ==> r.lobbies == lobbies
    ensures r.outcome.Updated? <==>
              && LobbyIndex(lobbies, channel).Some? && !OnlyShows(s)
              && !((s.ReadyChannel? || s.ResultChannel?) && (s.destination.None? || s.destination == Some(channel)))
    ensures r.outcome.Updated? ==>
              var i := LobbyIndex(lobbies, channel).value;
              r.outcome.lobby == Apply(lobbies[i], s) && r.lobbies == lobbies[i := r.outcome.lobby]
  {
    if (s.ReadyChannel? || s.ResultChannel?) && s.destination.None? then SetResult(NoDestination, lobbies)
    else if (s.ReadyChannel? || s.ResultChannel?) && s.destination == Some(channel) then SetResult(CurrentChannel, lobbies)
    else match LobbyIndex(lobbies, channel)
      case None => SetResult(SetNotALobby, lobbies)
      case Some(i) =>
        if OnlyShows(s) then SetResult(Shown(lobbies[i]), lobbies)
        else
          var updated := Apply(lobbies[i], s);
          SetResult(Updated(updated), lobbies[i := updated])
  }

  /**
   * A lobby never announces into its own channel: after any setter, a lobby
   * whose announcement channel was not its own still has one that is not.
   */
  lemma AnnouncementsStayElsewhere(lobbies: seq<Lobby>, channel: Id, s: Setting)
    requires forall k :: 0 <= k < |lobbies| ==>
               lobbies[k].gameReadyAnnouncementChannel != Some(lobbies[k].channelId) &&
               lobbies[k].gameResultAnnouncementChannel != Some(lobbies[k].channelId)
    ensures var r := SetStep(lobbies, channel, s).lobbies;
            forall k :: 0 <= k < |r| ==>
              r[k].gameReadyAnnouncementChannel != Some(r[k].channelId) &&
              r[k].gameResultAnnouncementChannel != Some(r[k].channelId)
  {
  }

  /** Setters keep every lobby's key, so lobby keys stay unique. */
  lemma SetKeepsLobbyKeysUnique(lobbies: seq<Lobby>, channel: Id, s: Setting)
    requires LobbyKeysUnique(lobbies)
    ensures LobbyKeysUnique(SetStep(lobbies, channel, s).lobbies)
    ensures |SetStep(lobbies, channel, s).lobbies| == |lobbies|
  {
  }

  /**
   * A saved setting is what the lobby reads back, every other lobby is kept,
   * and running the same setter again, the toggle apart, changes nothing more.
   */
  lemma SettingReadsBack(lobbies: seq<Lobby>, channel: Id, s: Setting)
    requires SetStep(lobbies, channel, s).outcome.Updated?
    ensures var r := SetStep(lobbies, channel, s);
            var i := LobbyIndex(lobbies, channel).value;
            && LobbyIndex(r.lobbies, channel) == Some(i)
            && r.lobbies[i] == r.outcome.lobby
            && (forall k :: 0 <= k < |lobbies| && k != i ==> r.lobbies[k] == lobbies[k])
            && (!s.ToggleDms? ==> SetStep(r.lobbies, channel, s) == SetResult(Updated(r.outcome.lobby), r.lobbies))
  {
    var r := SetStep(lobbies, channel, s);
    var i := LobbyIndex(lobbies, channel).value;
    FirstIndexSameSelection(lobbies, r.lobbies, (l: Lobby) => l.channelId == channel);
    assert LobbyIndex(r.lobbies, channel) == Some(i);
  }

  /** Toggling direct messages twice leaves the lobbies as they were. */
  lemma ToggleDmsTwiceRestores(lobbies: seq<Lobby>, channel: Id)
    ensures var once := SetStep(lobbies, channel, ToggleDms);
            && (once.outcome.Updated? <==> LobbyIndex(lobbies, channel).Some?)
            && SetStep(once.lobbies, channel, ToggleDms).lobbies == lobbies
  {
    var once := SetStep(lobbies, channel, ToggleDms);
    if once.outcome.Updated? {
      var i := LobbyIndex(lobbies, channel).value;
      FirstIndexSameSelection(lobbies, once.lobbies, (l: Lobby) => l.channelId == channel);
      assert LobbyIndex(once.lobbies, channel) == Some(i);
    }
  }

  /* ------------------------------------------------------------------ */
  /* Map names                                                           */
  /* ------------------------------------------------------------------ */

  /** ASCII lower case; other characters are left as they are. */
  function Lower(c: char): char {
    if 'A' <= c <= 'Z' then (c as int - 'A' as int + 'a' as int) as char else c
  }

  function Folded(s: string): string {
    seq(|s|, i requires 0 <= i < |s| => Lower(s[i]))
  }

  /** `Equals(..., OrdinalIgnoreCase)` on ASCII names. */
  predicate SameName(a: string, b: string) {
    Folded(a) == Folded(b)
  }

  /** A name is the same name as its lower-case form. */
  lemma FoldingIsIdempotent(s: string)
    ensures Folded(Folded(s)) == Folded(s)
    ensures SameName(s, Folded(s))
  {
    assert forall i :: 0 <= i < |s| ==> Lower(Lower(s[i])) == Lower(s[i]);
  }

  /** The names in lower case. */
  function Folds(names: seq<string>): (r: seq<string>)
    ensures |r| == |names|
  {
    seq(|names|, i requires 0 <= i < |names| => Folded(names[i]))
  }

  /** Some name in `names` is the same as `n`, ignoring case. */
  predicate AnySame(names: seq<string>, n: string) {
    Folded(n) in Folds(names)
  }

  /** No two names in `names` are the same, ignoring case. */
  predicate NamesDistinct(names: seq<string>) {
    Distinct(Folds(names))
  }

  /** Two sequences without repeats and without common elements make one without repeats. */
  lemma DistinctConcat<T>(a: seq<T>, b: seq<T>)
    requires Distinct(a) && Distinct(b)
    requires forall j :: 0 <= j < |b| ==> b[j] !in a
    ensures Distinct(a + b)
  {
    forall i, j | 0 <= i < j < |a + b| ensures (a + b)[i] != (a + b)[j] {
      if i < |a| && j >= |a| {
        assert (a + b)[j] == b[j - |a|];
      }
    }
  }

  /* ------------------------------------------------------------------ */
  /* Splitting the argument of AddMaps                                   */
  /* ------------------------------------------------------------------ */

  /** `string.Split(sep)`: the pieces between separators, empty ones included. */
  function Split(s: string, sep: char): (r: seq<string>)
    ensures |r| >= 1
    ensures forall i :: 0 <= i < |r| ==> sep !in r[i]
  {
    if s == [] then [""]
    else
      var rest := Split(s[1..], sep);
      if s[0] == sep then [""] + rest
      else [[s[0]] + rest[0]] + rest[1..]
  }

  /** `string.Join(sep, parts)`. */
  function Join(parts: seq<string>, sep: char): string
    requires |parts| >= 1
  {
    if |parts| == 1 then parts[0] else parts[0] + [sep] + Join(parts[1..], sep)
  }

  /** Prefixing the first piece with a character prefixes the joined text with it. */
  lemma JoinConsHead(c: char, parts: seq<string>, sep: char)
    requires |parts| >= 1
    ensures Join([[c] + parts[0]] + parts[1..], sep) == [c] + Join(parts, sep)
  {
    var r := [[c] + parts[0]] + parts[1..];
    assert r[1..] == parts[1..];
    if |parts| > 1 {
      assert Join(r, sep) == [c] + parts[0] + [sep] + Join(parts[1..], sep);
    }
  }

  /** Joining the pieces of a split gives the original text back. */
  lemma {:induction false} JoinSplit(s: string, sep: char)
    ensures Join(Split(s, sep), sep) == s
  {
    if s != [] {
      var rest := Split(s[1..], sep);
      JoinSplit(s[1..], sep);
      if s[0] == sep {
        assert ([""] + rest)[1..] == rest;
      } else {
        JoinConsHead(s[0], rest, sep);
      }
      assert s == [s[0]] + s[1..];
    }
  }

  /** Splitting pieces that hold no separator, once joined, gives the pieces back. */
  lemma {:induction false} SplitJoin(parts: seq<string>, sep: char)
    requires |parts| >= 1
    requires forall i :: 0 <= i < |parts| ==> sep !in parts[i]
    ensures Split(Join(parts, sep), sep) == parts
  {
    if |parts| == 1 {
      SplitPiece(parts[0], [], sep);
      assert parts[0] + [] == parts[0];
      assert parts == [parts[0]];
    } else {
      SplitJoin(parts[1..], sep);
      var tail := Join(parts[1..], sep);
      var marked := [sep] + tail;
      assert marked[0] == sep && marked[1..] == tail;
      assert Split(marked, sep) == [""] + parts[1..];
      SplitPiece(parts[0], marked, sep);
      assert Join(parts, sep) == parts[0] + marked;
      assert parts[0] + "" == parts[0];
      assert parts == [parts[0]] + parts[1..];
    }
  }

  /** A piece without separators is glued onto the first piece of what follows it. */
  lemma {:induction false} SplitPiece(piece: string, rest: string, sep: char)
    requires sep !in piece
    ensures Split(piece + rest, sep) == [piece + Split(rest, sep)[0]] + Split(rest, sep)[1..]
  {
    var t := Split(rest, sep);
    if piece != [] {
      SplitPiece(piece[1..], rest, sep);
      assert (piece + rest)[1..] == piece[1..] + rest;
      assert (piece + rest)[0] == piece[0];
      assert [piece[0]] + (piece[1..] + t[0]) == piece + t[0];
    } else {
      assert piece + rest == rest;
      assert piece + t[0] == t[0];
      assert t == [t[0]] + t[1..];
    }
  }

  /* ------------------------------------------------------------------ */
  /* The map list                                                        */
  /* ------------------------------------------------------------------ */

  /** Selects the maps of a lobby. */
  function MapOfChannel(channel: Id): MapEntry -> bool {
    (m: MapEntry) => m.channelId == channel
  }

  function NotMapOfChannel(channel: Id): MapEntry -> bool {
    (m: MapEntry) => m.channelId != channel
  }

  function ChannelMaps(maps: seq<MapEntry>, channel: Id): (r: seq<MapEntry>)
    ensures forall m :: m in r <==> m in maps && m.channelId == channel
  {
    Filter(maps, MapOfChannel(channel))
  }

  function Names(rows: seq<MapEntry>): (r: seq<string>)
    ensures |r| == |rows|
  {
    seq(|rows|, i requires 0 <= i < |rows| => rows[i].mapName)
  }

  /** The rows `AddMapsAsync` inserts for the accepted names. */
  function MapRows(channel: Id, names: seq<string>): (r: seq<MapEntry>)
    ensures |r| == |names|
  {
    seq(|names|, i requires 0 <= i < |names| => MapEntry(channel, names[i]))
  }

  /** One name of `AddMapsAsync`'s loop: it is added unless the lobby or the call already has it. */
  function Accept(existing: seq<string>, added: seq<string>, name: string): seq<string> {
    if AnySame(existing, name) || AnySame(added, name) then added else added + [name]
  }

  /**
   * The names `AddMapsAsync` inserts, in order: a name is accepted unless it
   * matches a map the lobby already has, or a name accepted earlier in the
   * same call, ignoring case.
   */
  function Accepted(existing: seq<string>, names: seq<string>): seq<string>
    decreases |names|
  {
    if names == [] then []
    else Accept(existing, Accepted(existing, names[..|names| - 1]), names[|names| - 1])
  }

  /**
   * Every accepted name was given and is new to the lobby, no two accepted
   * names are the same ignoring case, and every name given is either one the
   * lobby had or one that was accepted, ignoring case.
   */
  lemma {:induction false} AcceptedIsDistinctAndComplete(existing: seq<string>, names: seq<string>)
    ensures var r := Accepted(existing, names);
            && (forall i :: 0 <= i < |r| ==> r[i] in names && !AnySame(existing, r[i]))
            && NamesDistinct(r)
            && (forall n :: n in names ==> AnySame(existing, n) || AnySame(r, n))
    decreases |names|
  {
    if names != [] {
      var init := names[..|names| - 1];
      var name := names[|names| - 1];
      AcceptedIsDistinctAndComplete(existing, init);
      assert names == init + [name];
      var prev := Accepted(existing, init);
      if !(AnySame(existing, name) || AnySame(prev, name)) {
        assert Folds(prev + [name]) == Folds(prev) + [Folded(name)];
        DistinctConcat(Folds(prev), [Folded(name)]);
      }
    }
  }

  /** How the accepted and failed names grow by one given name. */
  lemma NextName(existing: seq<string>, names: seq<string>, i: nat)
    requires i < |names|
    ensures Accepted(existing, names[..i + 1]) == Accept(existing, Accepted(existing, names[..i]), names[i])
    ensures Rejected(existing, names[..i + 1]) ==
            Rejected(existing, names[..i]) + (if AnySame(existing, names[i]) then {names[i]} else {})
  {
    assert names[..i + 1][..i] == names[..i];
  }

  /** The names `AddMapsAsync` reports as failed: those matching a map the lobby already has. */
  function Rejected(existing: seq<string>, names: seq<string>): set<string>
    decreases |names|
  {
    if names == [] then {}
    else
      var name := names[|names| - 1];
      Rejected(existing, names[..|names| - 1]) + (if AnySame(existing, name) then {name} else {})
  }

  /** The failed names are exactly the given names the lobby already had, ignoring case. */
  lemma {:induction false} RejectedAreTheExisting(existing: seq<string>, names: seq<string>)
    ensures forall n :: n in Rejected(existing, names) <==> n in names && AnySame(existing, n)
    decreases |names|
  {
    if names != [] {
      var init := names[..|names| - 1];
      RejectedAreTheExisting(existing, init);
      assert names == init + [names[|names| - 1]];
    }
  }

  datatype AddMapsOutcome =
    | AddMapsNotALobby
    /** The names added, and the set of names refused because the lobby already had them. */
    | MapsAdded(added: seq<string>, rejected: set<string>)

  datatype MapsResult<O> = MapsResult(outcome: O, maps: seq<MapEntry>)

  /**
   * `AddMapsAsync`: the comma-separated names are added to the lobby's maps,
   * skipping those the lobby has and repeats within the call, ignoring case.
   */
  function AddMapsStep(lobbies: seq<Lobby>, maps: seq<MapEntry>, channel: Id, text: string): MapsResult<AddMapsOutcome> {
    if LobbyIndex(lobbies, channel).None? then MapsResult(AddMapsNotALobby, maps)
    else
      var names := Split(text, ',');
      var existing := Names(ChannelMaps(maps, channel));
      var added := Accepted(existing, names);
      MapsResult(MapsAdded(added, Rejected(existing, names)), maps + MapRows(channel, added))
  }

  /**
   * After `AddMapsAsync` no two maps of the lobby are the same name ignoring
   * case, if none were before; every name given is now among the lobby's
   * maps up to case; and other lobbies' maps are untouched.
   */
  lemma AddMapsKeepsNamesDistinct(lobbies: seq<Lobby>, maps: seq<MapEntry>, channel: Id, text: string, other: Id)
    requires NamesDistinct(Names(ChannelMaps(maps, channel)))
    ensures var r := AddMapsStep(lobbies, maps, channel, text);
            && NamesDistinct(Names(ChannelMaps(r.maps, channel)))
            && (r.outcome.MapsAdded? ==>
                  forall n :: n in Split(text, ',') ==> AnySame(Names(ChannelMaps(r.maps, channel)), n))
            && (other != channel ==> ChannelMaps(r.maps, other) == ChannelMaps(maps, other))
  {
    var r := AddMapsStep(lobbies, maps, channel, text);
    if r.outcome.MapsAdded? {
      var names := Split(text, ',');
      var existing := Names(ChannelMaps(maps, channel));
      var added := Accepted(existing, names);
      AcceptedIsDistinctAndComplete(existing, names);
      MapRowsJoinTheChannel(maps, channel, added, other);
      var all := Names(ChannelMaps(r.maps, channel));
      FoldsAppend(existing, added);
      DistinctConcat(Folds(existing), Folds(added));
    }
  }

  /** New rows of a lobby extend its map names and leave other lobbies' maps alone. */
  lemma MapRowsJoinTheChannel(maps: seq<MapEntry>, channel: Id, added: seq<string>, other: Id)
    ensures Names(ChannelMaps(maps + MapRows(channel, added), channel)) == Names(ChannelMaps(maps, channel)) + added
    ensures other != channel ==> ChannelMaps(maps + MapRows(channel, added), other) == ChannelMaps(maps, other)
  {
    var rows := MapRows(channel, added);
    FilterAppend(maps, rows, MapOfChannel(channel));
    assert forall i :: 0 <= i < |rows| ==> MapOfChannel(channel)(rows[i]);
    assert Filter(rows, MapOfChannel(channel)) == rows;
    NamesAppend(ChannelMaps(maps, channel), rows);
    assert Names(rows) == added;
    if other != channel {
      FilterAppend(maps, rows, MapOfChannel(other));
      FilterNone(rows, MapOfChannel(other));
      assert ChannelMaps(maps, other) + [] == ChannelMaps(maps, other);
    }
  }

  lemma FoldsAppend(a: seq<string>, b: seq<string>)
    ensures Folds(a + b) == Folds(a) + Folds(b)
  {
  }

  lemma NamesAppend(a: seq<MapEntry>, b: seq<MapEntry>)
    ensures Names(a + b) == Names(a) + Names(b)
  {
  }

  datatype DelMapOutcome =
    | DelMapNotALobby
    /** "There are no maps to remove." */
    | NoMapsToRemove
    /** "There was no map matching that name found." */
    | NoMatchingMap
    | MapRemoved
    /** `SingleOrDefault` throws when more than one map matches: nothing is saved. */
    | AmbiguousName

  /** Selects the maps of a lobby with the given name, ignoring case. */
  function MatchOf(channel: Id, name: string): MapEntry -> bool {
    (m: MapEntry) => m.channelId == channel && SameName(m.mapName, name)
  }

  /** `RemoveMapAsync` (`DelMap`): removes the one map of the lobby with the name, ignoring case. */
  function DelMapStep(lobbies: seq<Lobby>, maps: seq<MapEntry>, channel: Id, name: string): (r: MapsResult<DelMapOutcome>)
    ensures r.outcome == DelMapNotALobby <==> LobbyIndex(lobbies, channel).None?
    ensures r.outcome == MapRemoved <==>
              LobbyIndex(lobbies, channel).Some? && |Filter(ChannelMaps(maps, channel), MatchOf(channel, name))| == 1
    ensures r.outcome == AmbiguousName <==>
              LobbyIndex(lobbies, channel).Some? && |Filter(ChannelMaps(maps, channel), MatchOf(channel, name))| > 1
    ensures r.outcome != MapRemoved ==> r.maps == maps
  {
    if LobbyIndex(lobbies, channel).None? then MapsResult(DelMapNotALobby, maps)
    else
      var own := ChannelMaps(maps, channel);
      if own == [] then MapsResult(NoMapsToRemove, maps)
      else
        var matches := Filter(own, MatchOf(channel, name));
        if |matches| == 0 then MapsResult(NoMatchingMap, maps)
        else if |matches| > 1 then MapsResult(AmbiguousName, maps)
        else
          assert matches[0] in maps;
          var i := FirstIndex(maps, MatchOf(channel, name)).value;
          MapsResult(MapRemoved, RemoveAt(maps, i))
  }

  /**
   * A removal takes out exactly one map, the one that matched; no map of the
   * lobby matches the name afterwards, and every other map is kept.
   */
  lemma DelMapRemovesTheMatch(lobbies: seq<Lobby>, maps: seq<MapEntry>, channel: Id, name: string)
    ensures var r := DelMapStep(lobbies, maps, channel, name);
            r.outcome == MapRemoved ==>
              && |r.maps| == |maps| - 1
              && (forall m :: m in r.maps ==> m in maps && !MatchOf(channel, name)(m))
              && (forall m :: m in maps && !MatchOf(channel, name)(m) ==> m in r.maps)
  {
    var r := DelMapStep(lobbies, maps, channel, name);
    if r.outcome == MapRemoved {
      var own := ChannelMaps(maps, channel);
      var p := MatchOf(channel, name);
      FilterOfFilter(maps, MapOfChannel(channel), p);
      var matches := Filter(maps, p);
      assert matches[0] in maps;
      var i := FirstIndex(maps, p).value;
      assert |matches| == 1;
      forall k | 0 <= k < |maps| && p(maps[k]) ensures k == i {
        if i < k {
          TwoMatches(maps, p, i, k);
        }
      }
      RemoveTheOnlyMatch(maps, p, i);
    }
  }

  /** Removing the one element that matches leaves exactly the elements that do not. */
  lemma RemoveTheOnlyMatch<T>(s: seq<T>, p: T -> bool, i: nat)
    requires i < |s| && p(s[i])
    requires forall k :: 0 <= k < |s| && p(s[k]) ==> k == i
    ensures forall x :: x in RemoveAt(s, i) <==> x in s && !p(x)
  {
    var r := RemoveAt(s, i);
    forall x | x in r ensures x in s && !p(x) {
      var k :| 0 <= k < |r| && r[k] == x;
      if k < i {
        assert r[k] == s[k];
      } else {
        assert r[k] == s[k + 1];
      }
    }
    forall x | x in s && !p(x) ensures x in r {
      var k :| 0 <= k < |s| && s[k] == x;
      if k < i {
        assert r[k] == x;
      } else {
        assert r[k - 1] == x;
      }
    }
  }

  /** Two matching positions make two matches. */
  lemma {:induction false} TwoMatches<T(!new)>(s: seq<T>, p: T -> bool, i: nat, k: nat)
    requires i < k < |s| && p(s[i]) && p(s[k])
    ensures |Filter(s, p)| >= 2
  {
    if i == 0 {
      assert s[k] == s[1..][k - 1];
      assert s[k] in Filter(s[1..], p);
    } else {
      TwoMatches(s[1..], p, i - 1, k - 1);
    }
  }

  datatype ClearMapsOutcome = ClearMapsNotALobby | MapsCleared

  /** `MapClear` (`ClearMaps`): every map of the lobby is removed. */
  function ClearMapsStep(lobbies: seq<Lobby>, maps: seq<MapEntry>, channel: Id): (r: MapsResult<ClearMapsOutcome>)
    ensures r.outcome == ClearMapsNotALobby <==> LobbyIndex(lobbies, channel).None?
    ensures r.outcome == ClearMapsNotALobby ==> r.maps == maps
  {
    if LobbyIndex(lobbies, channel).None? then MapsResult(ClearMapsNotALobby, maps)
    else MapsResult(MapsCleared, Filter(maps, NotMapOfChannel(channel)))
  }

  /** Clearing leaves the lobby without maps and every other lobby's maps as they were. */
  lemma ClearMapsRemovesOnlyTheLobbys(lobbies: seq<Lobby>, maps: seq<MapEntry>, channel: Id, other: Id)
    requires LobbyIndex(lobbies, channel).Some?
    ensures var r := ClearMapsStep(lobbies, maps, channel).maps;
            && ChannelMaps(r, channel) == []
            && (other != channel ==> ChannelMaps(r, other) == ChannelMaps(maps, other))
  {
    var r := ClearMapsStep(lobbies, maps, channel).maps;
    assert forall i :: 0 <= i < |r| ==> r[i] in r;
    FilterNone(r, MapOfChannel(channel));
    if other != channel {
      FilterOfFilter(maps, NotMapOfChannel(channel), MapOfChannel(other));
    }
  }

  /* ------------------------------------------------------------------ */
  /* The commands                                                        */
  /* ------------------------------------------------------------------ */

  /**
   * The lobby commands of one guild's administrators. Each reads the tables
   * of `db`, and saves its changes at the end or not at all.
   */

  /** `CreateLobbyAsync`. */
  method CreateLobby(db: Database, guild: Id, channel: Id, playersPerTeam: int, pickMode: nat,
                     lobbyLimit: int, premium: bool) returns (outcome: CreateOutcome)
    requires db.Valid()
    modifies db`lobbies
    ensures db.Valid()
    ensures CreateResult(outcome, db.lobbies) ==
            CreateStep(old(db.lobbies), guild, channel, playersPerTeam, pickMode, lobbyLimit, premium)
  {
    CreatedLobbyIsTheChannels(db.lobbies, guild, channel, playersPerTeam, pickMode, lobbyLimit, premium);
    var lobby := LobbyIndex(db.lobbies, channel);
    if lobby.Some? {
      return AlreadyALobby;
    }
    var allLobbies := Filter(db.lobbies, LobbyOfGuild(guild));
    if |allLobbies| >= lobbyLimit {
      if !premium {
        return LobbyLimitReached;
      }
    }
    db.lobbies := db.lobbies + [NewLobby(guild, channel, playersPerTeam, pickMode)];
    outcome := Created;
  }

  /** `DeleteLobbyAsync(lobbyId)`. */
  method DeleteLobby(db: Database, lobbyId: Id) returns (outcome: DeleteOutcome)
    requires db.Valid()
    modifies db`lobbies
    ensures db.Valid()
    ensures DeleteResult(outcome, db.lobbies) == DeleteStep(old(db.lobbies), lobbyId)
  {
    DeleteRemovesOnlyThatLobby(db.lobbies, lobbyId);
    var lobby := LobbyIndex(db.lobbies, lobbyId);
    if lobby.None? {
      return DeleteNotALobby;
    }
    db.lobbies := RemoveAt(db.lobbies, lobby.value);
    outcome := LobbyDeleted;
  }

  /** `PurgeLobbiesAsynnc`; `channels` are the ids of the guild's channels. */
  method PurgeLobbies(db: Database, guild: Id, channels: set<Id>) returns (outcome: PurgeOutcome)
    requires db.Valid()
    modifies db`lobbies
    ensures db.Valid()
    ensures PurgeResult(outcome, db.lobbies) == PurgeStep(old(db.lobbies), guild, channels)
  {
    var lobbies := Filter(db.lobbies, Orphaned(guild, channels));
    if |lobbies| == 0 {
      return NoLobbiesToRemove;
    }
    FilterKeepsLobbyKeysUnique(db.lobbies, NotOrphaned(guild, channels));
    db.lobbies := Filter(db.lobbies, NotOrphaned(guild, channels));
    outcome := LobbiesPurged(|lobbies|);
  }

  /** Removing lobbies cannot create a duplicate key. */
  lemma {:induction false} FilterKeepsLobbyKeysUnique(lobbies: seq<Lobby>, keep: Lobby -> bool)
    requires LobbyKeysUnique(lobbies)
    ensures LobbyKeysUnique(Filter(lobbies, keep))
  {
    if lobbies != [] {
      FilterKeepsLobbyKeysUnique(lobbies[1..], keep);
      var rest := Filter(lobbies[1..], keep);
      forall j | 0 <= j < |rest| ensures rest[j].channelId != lobbies[0].channelId {
        assert rest[j] in lobbies[1..];
        var k :| 0 <= k < |lobbies[1..]| && lobbies[1..][k] == rest[j];
        assert lobbies[k + 1] == rest[j];
      }
    }
  }

  /** Every field setter of the lobby in `channel`. */
  method SetLobbyField(db: Database, channel: Id, s: Setting) returns (outcome: SetOutcome)
    requires db.Valid()
    modifies db`lobbies
    ensures db.Valid()
    ensures SetResult(outcome, db.lobbies) == SetStep(old(db.lobbies), channel, s)
  {
    SetKeepsLobbyKeysUnique(db.lobbies, channel, s);
    if s.ReadyChannel? || s.ResultChannel? {
      if s.destination.None? {
        return NoDestination;
      }
      if s.destination.value == channel {
        return CurrentChannel;
      }
    }
    var lobby := LobbyIndex(db.lobbies, channel);
    if lobby.None? {
      return SetNotALobby;
    }
    var i := lobby.value;
    if OnlyShows(s) {
      return Shown(db.lobbies[i]);
    }
    var updated := Apply(db.lobbies[i], s);
    db.lobbies := db.lobbies[i := updated];
    outcome := Updated(updated);
  }

  /** `AddMapsAsync`. */
  method AddMaps(db: Database, channel: Id, commaSeparatedMapNames: string) returns (outcome: AddMapsOutcome)
    requires db.Valid()
    modifies db`maps
    ensures db.Valid()
    ensures MapsResult(outcome, db.maps) == AddMapsStep(db.lobbies, old(db.maps), channel, commaSeparatedMapNames)
  {
    // `Split` always yields at least one piece, so `AddMapsAsync`'s check for no names never fires.
    var mapNames := Split(commaSeparatedMapNames, ',');
    if LobbyIndex(db.lobbies, channel).None? {
      return AddMapsNotALobby;
    }
    var maps := db.maps;
    var currentMaps := Names(ChannelMaps(maps, channel));
    var mapViolations: set<string> := {};
    var addedMaps: seq<string> := [];
    for i := 0 to |mapNames|
      invariant addedMaps == Accepted(currentMaps, mapNames[..i])
      invariant mapViolations == Rejected(currentMaps, mapNames[..i])
    {
      var name := mapNames[i];
      NextName(currentMaps, mapNames, i);
      if AnySame(currentMaps, name) {
        mapViolations := mapViolations + {name};
        continue;
      }
      if !AnySame(addedMaps, name) {
        addedMaps := addedMaps + [name];
      }
    }
    assert mapNames[..|mapNames|] == mapNames;
    db.maps := maps + MapRows(channel, addedMaps);
    outcome := MapsAdded(addedMaps, mapViolations);
  }

  /** `RemoveMapAsync` (`DelMap`). */
  method DelMap(db: Database, channel: Id, mapName: string) returns (outcome: DelMapOutcome)
    requires db.Valid()
    modifies db`maps
    ensures db.Valid()
    ensures MapsResult(outcome, db.maps) == DelMapStep(db.lobbies, old(db.maps), channel, mapName)
  {
    if LobbyIndex(db.lobbies, channel).None? {
      return DelMapNotALobby;
    }
    var maps := ChannelMaps(db.maps, channel);
    if |maps| == 0 {
      return NoMapsToRemove;
    }
    var matches := Filter(maps, MatchOf(channel, mapName));
    if |matches| > 1 {
      return AmbiguousName;
    }
    if |matches| == 0 {
      return NoMatchingMap;
    }
    assert matches[0] in db.maps;
    var found := FirstIndex(db.maps, MatchOf(channel, mapName)).value;
    db.maps := RemoveAt(db.maps, found);
    outcome := MapRemoved;
  }

  /** `MapClear` (`ClearMaps`). */
  method ClearMaps(db: Database, channel: Id) returns (outcome: ClearMapsOutcome)
    requires db.Valid()
    modifies db`maps
    ensures db.Valid()
    ensures MapsResult(outcome, db.maps) == ClearMapsStep(db.lobbies, old(db.maps), channel)
  {
    if LobbyIndex(db.lobbies, channel).None? {
      return ClearMapsNotALobby;
    }
    db.maps := Filter(db.maps, NotMapOfChannel(channel));
    outcome := MapsCleared;
  }
}
