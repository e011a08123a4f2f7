# ELO bot core, modelled in Dafny

ELO is a Discord bot that runs ranked pick-up games for a guild (a Discord
server). Players register with a guild's competition and join the queue of a
lobby (a text channel). When the queue holds two full teams a game is set up,
and captains may draft the players in turns. Moderators can clear the queue,
force users in or out, and substitute players. The guild's administrators
configure lobbies, maps, ranks and competition settings, and edit or reset
scores. A background job evicts players who have waited longer than the
guild's queue timeout. Everything lives in database tables that a command reads
and then saves once at its end, or not at all.

The project models these commands over those tables. There is one Dafny module
per source file:

| module | file | source |
|---|---|---|
| `Entities` | `entities.dfy` | records, the tables as `seq` fields of `class Database`, key-uniqueness invariants, lookups |
| `Queueing` | `queue_management.dfy` | `src/Modules/QueueManagement.cs`: `Join`, `Leave`, the shared requeue-cooldown dictionary |
| `LobbyManagement` | `lobby_management.dfy` | `src/Modules/LobbyManagement.cs`: `ClearQueue`, `ForceJoin`, `ForceRemove`, `Sub`, `Pick` |
| `EloJobs` | `elo_jobs.dfy` | `src/Services/ELOJobs.cs`: the queue-timeout sweep |
| `LegacyEloJobs` | `legacy_elo_jobs.dfy` | `Services/ELOJobs.cs`: the older queue-timeout sweep |
| `ScoreManagement` | `score_management.dfy` | `src/Modules/ScoreManagement.cs`: score edits, leaderboard reset |
| `Info` | `info.dfy` | `src/Modules/Info.cs`: leaderboard, profile, rank list |
| `LobbySetup` | `lobby_setup.dfy` | `src/Modules/LobbySetup.cs`: lobby creation and deletion, lobby settings, maps |
| `CompetitionSetup` | `competition_setup.dfy` | `src/Modules/CompetitionSetup.cs`: legacy tokens, ranks, competition settings, purges |

Each command has two parts:

- a pure function (`JoinVerdict`, `SubStep`, `PickStep`, `AddRankStep`, …). It
  gives the command's outcome and the tables after it, with the checks in the
  command's own order;
- a method that changes the `Database` fields it names in `modifies`. Its
  `ensures` ties the outcome and the new tables to that function and keeps the
  key invariants (`Database.Valid`).

Lemmas beside each function state what the command promises: round trips,
invariants it keeps, idempotence, and "nothing else changes". Time is a number
of seconds passed in as `now`.

Where the code and its documentation disagree, the model follows the code:

- A successful `Join` does not refresh the user's cooldown stamp. Only the first
  join of a user in a guild stamps it (QueueManagement.cs:170 assigns a local only).
- A profile shows the highest rank strictly below the player's points, not at or
  below them (Info.cs:221).

## Model

| member | source | states |
|---|---|---|
| Entities.WrapInt32 | src/Modules/ScoreManagement.cs:55-58 | the result is a 32-bit signed value congruent to the exact sum modulo 2^32, and equals it when it is in range |
| Entities.LobbyIndex | src/Modules/QueueManagement.cs:47-52 | the lobby found for a channel is stored under that channel; no lobby is found only when none is |
| Entities.CompetitionOf | src/Modules/QueueManagement.cs:89 | the competition read for a guild belongs to that guild and is either its stored row or a blank one |
| Entities.LatestGameIndex | src/Modules/LobbyManagement.cs:140-150 | the latest game of a lobby belongs to it and has the highest game number of its games; there is none only when the lobby has no game |
| Entities.LatestGameIgnoresProgress | src/Modules/LobbyManagement.cs:510-513 | changing a game's state or pick count never changes which game is a lobby's latest |
| Entities.ChannelQueue | src/Modules/QueueManagement.cs:75-87 | a lobby's queue is exactly the table rows of its channel |
| Entities.WithoutEntryRemovesOneRow | src/Modules/QueueManagement.cs:277 | with one row per (channel, user), removing a queued user removes exactly one row, and removing an absent one removes none |
| Entities.WithoutChannelQueues | src/Modules/LobbyManagement.cs:54-61 | emptying one lobby's queue leaves it empty and every other lobby's queue as it was |
| Entities.FilterKeepsQueueKeysUnique | src/Modules/LobbyManagement.cs:54-61 | removing queue rows never creates two rows for one (channel, user) |
| Queueing.OtherQueues | src/Modules/QueueManagement.cs:89-106 | the user's rows in the guild's other lobbies are exactly those rows of the table |
| Queueing.Channels | src/Modules/QueueManagement.cs:89-106 | the channels reported for a multi-queue refusal are those of the rows, in order |
| Queueing.AdmittedIffEveryCheckPasses | src/Modules/QueueManagement.cs:37-196 | a join is admitted if and only if the user is registered, the channel is a lobby, no ban is in force, the queue has room, multi-queueing is allowed or the user is in no other lobby of the guild, the minimum points are met, no draft is running, the user is not queued there yet, and no requeue cooldown is left |
| Queueing.AdmissionFillsOnePlace | src/Modules/QueueManagement.cs:185-196 | an admitted join adds one row to the lobby's queue, never takes it past two full teams, keeps keys unique, and reports the lobby full exactly when it took the last place |
| Queueing.SecondJoinIsRefused | src/Modules/QueueManagement.cs:135-147 | joining again right after an admitted join is refused, as already queued or as a full queue |
| Queueing.FirstJoinStartsCooldown | src/Modules/QueueManagement.cs:149-183 | a user's first join in a guild starts the requeue cooldown, which refuses them until the delay has passed |
| Queueing.ExpiredCooldownIsNotRenewed | src/Modules/QueueManagement.cs:165-183 | once a user's cooldown stamp exists, later joins leave it as it was, so an expired cooldown never applies again |
| Queueing.LeaveUndoesJoin | src/Modules/QueueManagement.cs:235-277 | leaving right after an admitted join succeeds, reports the earlier queue length, and gives back the queue table as it was |
| Queueing.LeaveRemovesOneRow | src/Modules/QueueManagement.cs:277 | a successful leave removes exactly the caller's row |
| Queueing.QueueManagement.constructor | src/Modules/QueueManagement.cs:18 | the shared cooldown dictionary starts empty |
| Queueing.QueueManagement.Join | src/Modules/QueueManagement.cs:37-227 | the outcome is the join verdict; an admitted join appends the user's row and records the cooldown stamp; a refused one changes nothing |
| Queueing.QueueManagement.Leave | src/Modules/QueueManagement.cs:235-304 | the outcome is the leave verdict; only a successful leave removes the caller's row |
| LobbyManagement.ClearQueueEndsQueueAndDraft | src/Modules/LobbyManagement.cs:43-73 | after a clear the lobby has no queue and no draft running; every other lobby keeps its queue and its draft, if any |
| LobbyManagement.ClearQueue | src/Modules/LobbyManagement.cs:43-73 | a lobby's queue is emptied and a drafting latest game is canceled; a channel that is not a lobby changes nothing |
| LobbyManagement.Candidates | src/Modules/LobbyManagement.cs:88-89 | the users a forced join considers are among those named |
| LobbyManagement.CandidatesDistinct | src/Modules/LobbyManagement.cs:88-100 | with one registration per guild and user, every candidate appears once |
| LobbyManagement.AdmitSoundAndComplete | src/Modules/LobbyManagement.cs:100-123 | a forced join admits only candidates not already queued, each once, never fills the queue past two teams, and turns away an unqueued candidate only once the queue is full |
| LobbyManagement.JoinRows | src/Modules/LobbyManagement.cs:115-121 | one queue row of the lobby per admitted user, stamped with the current time |
| LobbyManagement.JoinRowsKeepKeysUnique | src/Modules/LobbyManagement.cs:100-123 | rows for distinct users not yet queued keep one row per (channel, user) |
| LobbyManagement.QueuedUsers | src/Modules/LobbyManagement.cs:100-123 | the users of a lobby's queue are exactly those with a row in it |
| LobbyManagement.AddCandidates | src/Modules/LobbyManagement.cs:100-123 | the loop appends rows for exactly the users the forced-join rule admits, in order |
| LobbyManagement.ForceJoin | src/Modules/LobbyManagement.cs:78-135 | no lobby or a running draft changes nothing; otherwise the admitted candidates are appended and a full queue is reported |
| LobbyManagement.ForceRemove | src/Modules/LobbyManagement.cs:374-405 | the outcome follows the lobby, draft and queue checks in order; only a removal takes out the user's one row |
| LobbyManagement.GameIndex | src/Modules/LobbyManagement.cs:166-171 | the game found has the requested number and belongs to the lobby |
| LobbyManagement.TeamRowIndex | src/Modules/LobbyManagement.cs:243-247 | the row found is the user's row in that team of that game; none is found only when the user has no such row |
| LobbyManagement.CaptainIndex | src/Modules/LobbyManagement.cs:444-445 | the captain row found is the first of that team of that game; none is found only when there is none |
| LobbyManagement.CaptainIndexAfterRename | src/Modules/LobbyManagement.cs:267-350 | handing a captaincy to another user leaves every team's captain row where it was |
| LobbyManagement.OnTeamAfterSwap | src/Modules/LobbyManagement.cs:243-263 | after a team row is handed to the replacement, team membership changes only for the user and the replacement |
| LobbyManagement.SwapKeepsSeatsDistinct | src/Modules/LobbyManagement.cs:243-263 | handing a seat to a user outside the game keeps every seat held by a different user |
| LobbyManagement.TeamSwapKeepsOneSeatEach | src/Modules/LobbyManagement.cs:243-263 | replacing the user's team row takes the user out of the game, seats the replacement, and keeps seats distinct |
| LobbyManagement.CaptainSwapKeepsOneSeatEach | src/Modules/LobbyManagement.cs:267-350 | handing the captaincy takes the user out of the game, makes the replacement captain, and keeps seats distinct |
| LobbyManagement.SubInTeamHandsOverTheSeat | src/Modules/LobbyManagement.cs:243-263 | substituting a team player seats the replacement in the user's team and keeps one seat per user |
| LobbyManagement.SubCaptainHandsOverTheSeat | src/Modules/LobbyManagement.cs:267-350 | a captain substitution that goes through makes the replacement captain of the same team and keeps one seat per user |
| LobbyManagement.SubSeatsThroughTeamOrCaptaincy | src/Modules/LobbyManagement.cs:243-350 | a substitution that seats the replacement went through the team branch or the captain branch |
| LobbyManagement.CaptainSubDuringDraftNeedsPoolPlace | src/Modules/LobbyManagement.cs:277-282 | during a draft, substituting a captain with no queue row reports "not in the game" and saves nothing, although the captaincy was found |
| LobbyManagement.SwapQueuedKeepsQueue | src/Modules/LobbyManagement.cs:202-240 | handing a queued user's place to an unqueued one keeps the queue's length and its unique keys |
| LobbyManagement.SubSwapsPoolPlace | src/Modules/LobbyManagement.cs:202-240 | a pool substitution hands over the place and keeps the lobby's queue length and keys |
| LobbyManagement.DecideSub | src/Modules/LobbyManagement.cs:155-359 | the checks and edits of a substitution give the substitution rule's result; a refusal changes nothing, and keys stay unique |
| LobbyManagement.Sub | src/Modules/LobbyManagement.cs:155-359 | the outcome and the queue, team and captain tables are those of the substitution rule |
| LobbyManagement.SubLatest | src/Modules/LobbyManagement.cs:140-150 | with no game nothing happens; otherwise the substitution applies to the lobby's latest game |
| LobbyManagement.CaptainUser | src/Modules/LobbyManagement.cs:447-464 | a team's captain is known exactly when its captain row exists, and is that row's user |
| LobbyManagement.DropCaptain | src/Modules/LobbyManagement.cs:447-464 | the pool after dropping a captain holds only users who were queued and are not that captain |
| LobbyManagement.DropCaptainKeepsQueueKeysUnique | src/Modules/LobbyManagement.cs:447-464 | dropping the captains' rows keeps one row per (channel, user) |
| LobbyManagement.SelectsCaptainOnlyFaults | src/Modules/LobbyManagement.cs:481-487 | for users none of whom is a captain, the captain check never reports one; it faults exactly when a user is named and a captain row is missing |
| LobbyManagement.PickRows | src/Modules/LobbyManagement.cs:489-508 | one team row per picked user, on the team whose turn it is |
| LobbyManagement.UserIds | src/Modules/LobbyManagement.cs:467-487 | the user ids of the pool's rows, in order |
| LobbyManagement.PickRefusal | src/Modules/LobbyManagement.cs:467-508 | a pick goes ahead if and only if every user is in the pool, none is on a team yet, none is a captain and the turn rules name a team; a user outside the pool is refused first, then a user already on a team |
| LobbyManagement.PickNeverSelectsCaptain | src/Modules/LobbyManagement.cs:481-487 | the captain check of a pick never fires once every picked user is in the pool; it faults only when a captain row is missing |
| LobbyManagement.AssignedUsersHoldSeats | src/Modules/LobbyManagement.cs:514 | the users counted as placed are exactly those with a seat in the game |
| LobbyManagement.PickRowsSeatUsers | src/Modules/LobbyManagement.cs:489-508 | the picked users join the team whose turn it was, and everyone seated before keeps their place |
| LobbyManagement.AutofillBalancesTeams | src/Modules/LobbyManagement.cs:515-544 | the last undrafted user goes to the smaller team, team 1 on a tie |
| LobbyManagement.CountPickAdvancesGame | src/Modules/LobbyManagement.cs:510-551 | a pick adds one to the game's pick count, keeps it the lobby's latest game, changes no other game, and ends the draft exactly when the readiness flag it is given is set |
| LobbyManagement.PickCommitPlacesTheLast | src/Modules/LobbyManagement.cs:510-546 | when exactly one pool user is unplaced, that user gets a row on the smaller team and no other row is added; the game starts if and only if the placed users, counted after that row, fill both teams |
| LobbyManagement.PickCommitAdvancesDraft | src/Modules/LobbyManagement.cs:510-592 | a committed pick counts one more pick; when exactly one pool user is unplaced, that user is added to the smaller team (team 1 on a tie) and otherwise no row is added; the game starts if and only if the placed users fill both teams, and then the lobby's queue is empty; otherwise the queue is kept and the unplaced users are reported |
| LobbyManagement.PickInDraftCommits | src/Modules/LobbyManagement.cs:441-508 | a pick goes ahead only for users all in the pool with the captains removed, none on a team and none a captain, on a captain's turn, and then commits their rows on that captain's team |
| LobbyManagement.PickInDraftSeatsUsers | src/Modules/LobbyManagement.cs:467-592 | a pick that passes its checks puts every picked user on the team whose turn it was |
| LobbyManagement.PickDraftsUsers | src/Modules/LobbyManagement.cs:410-592 | a successful pick named distinct users, all in the pool and none on a team; it seats them on the turn's team, counts one more pick on the latest game, adds the last unplaced pool user to the smaller team, and starts the game with the queue emptied if and only if the placed users fill both teams, otherwise reporting the unplaced users |
| LobbyManagement.DecidePick | src/Modules/LobbyManagement.cs:410-592 | the checks and edits of a pick give the pick rule's result; a refusal changes nothing, and keys stay unique |
| LobbyManagement.CommitPick | src/Modules/LobbyManagement.cs:510-592 | the saved part of a pick is the pick rule's commit and keeps queue keys unique |
| LobbyManagement.Pick | src/Modules/LobbyManagement.cs:410-592 | the outcome and the queue, team and game tables are those of the pick rule |
| EloJobs.Swept | src/Services/ELOJobs.cs:33-55 | a row survives the sweep exactly when it has not outstayed its guild's timeout or its lobby is drafting |
| EloJobs.RunQueueChecks | src/Services/ELOJobs.cs:25-77 | the queue after the job is the sweep of the queue before it; a failed notification changes nothing |
| EloJobs.SweepSparesDraftsAndUntimedGuilds | src/Services/ELOJobs.cs:41-47 | a drafting lobby loses no one, and neither does a guild with no queue timeout |
| EloJobs.SweepIsIdempotent | src/Services/ELOJobs.cs:33-74 | sweeping twice at one moment removes no more than sweeping once, and a sweep only removes rows |
| EloJobs.BoundaryRowStays | src/Services/ELOJobs.cs:52 | a row queued exactly the timeout ago stays |
| EloJobs.LobbyWithoutGameIsSwept | src/Services/ELOJobs.cs:41-44 | a lobby with no game yet is swept on timeout alone |
| LegacyEloJobs.GuildOrder | Services/ELOJobs.cs:32 | the guilds of the queue's rows, each once |
| LegacyEloJobs.LegacySwept | Services/ELOJobs.cs:36-44 | a row survives the older sweep exactly when it has not outstayed its guild's timeout |
| LegacyEloJobs.RunQueueChecks | Services/ELOJobs.cs:23-57 | the run saves exactly when no notification of an evicted row fails; then the queue is the older sweep's result, otherwise it is unchanged |
| LegacyEloJobs.NewSweepRemovesNoMore | Services/ELOJobs.cs:36-44 | with one competition per guild the newer sweep removes a subset of what the older one removes, and they agree outside drafting lobbies |
| LegacyEloJobs.SweepGuild | Services/ELOJobs.cs:38-51 | the inner loop over one guild's rows marks exactly that guild's overdue rows and reports a failure only when a notification of an overdue row throws |
| LegacyEloJobs.OldSweepEvictsDuringDraft | Services/ELOJobs.cs:38-44 | every overdue player of a lobby whose latest game is picking is removed by the older sweep and kept by the newer one |
| LegacyEloJobs.DraftEvictionCanHappen | Services/ELOJobs.cs:38-44 | an overdue player of a drafting lobby exists, so the older sweep's draft eviction can occur |
| ScoreManagement.WithCounter | src/Modules/ScoreManagement.cs:49-62 | replacing one counter sets it and leaves the key and every other counter alone |
| ScoreManagement.EditScores | src/Modules/ScoreManagement.cs:39-72 | an unknown modify state throws exactly when some named player of the guild is registered, and then nothing is saved; otherwise the edited players are saved |
| ScoreManagement.EditTouchesOnlyTheCounter | src/Modules/ScoreManagement.cs:43-62 | an edit changes only the chosen counter of the named players of the guild; `Set` makes it the amount; keys and other players are unchanged |
| ScoreManagement.ModifyAdds | src/Modules/ScoreManagement.cs:55-58 | `Modify` adds the amount without clamping; only a sum outside the 32-bit range wraps around |
| ScoreManagement.ModifyIsUndone | src/Modules/ScoreManagement.cs:55-58 | modifying by the negated amount undoes a modify, wrap-around included |
| ScoreManagement.SetIsIdempotent | src/Modules/ScoreManagement.cs:51-54 | setting a counter twice is setting it once |
| ScoreManagement.ResetLeaderboard | src/Modules/ScoreManagement.cs:281-300 | every player of the guild is reset with the competition's register score |
| ScoreManagement.ResetClearsTheGuild | src/Modules/ScoreManagement.cs:288-296 | after a reset the guild's players have the register score and no wins, losses, draws, kills or deaths; other guilds are untouched; a second reset changes nothing |
| Info.InsertDescPermutes | src/Modules/Info.cs:301 | inserting into the ranking adds exactly the new player |
| Info.InsertDescSorts | src/Modules/Info.cs:301 | inserting into a descending ranking keeps it descending |
| Info.SortDescPermutes | src/Modules/Info.cs:298-325 | ordering by descending key keeps exactly the same players |
| Info.SortDescSorts | src/Modules/Info.cs:298-325 | ordering by descending key gives a descending sequence |
| Info.NormalizePage | src/Modules/Info.cs:273-286 | the page shown is at least 1, is 1 for a guild without premium, is 1 for a page of 0 or below, and is the requested page when the guild is premium and the page is at least 1 |
| Info.Page | src/Modules/Info.cs:291-301 | a page holds the 20 players after the skipped ones, or all that remain when fewer are left, taken in order; it is empty exactly when all are skipped |
| Info.GuildPlayers | src/Modules/Info.cs:291 | the players listed are exactly the guild's registrations |
| Info.NumberedLines | src/Modules/Info.cs:348-392 | one line per player, numbered consecutively from the start value, showing the player's user and the mode's statistic |
| Info.GetPlayerLines | src/Modules/Info.cs:348-392 | the loop builds exactly the numbered lines |
| Info.ChoosePage | src/Modules/Info.cs:273-286 | the premium notice is sent exactly when a guild without premium asks past page 1; the page shown is the normalised one |
| Info.Leaderboard | src/Modules/Info.cs:271-345 | the reply is the board of the normalised page, empty-page notice or no reply, and the notice is sent as above |
| Info.BoardIsRanked | src/Modules/Info.cs:291-341 | a page lists at most 20 players of the guild, numbered from (page - 1) * 20 + 1, in descending order of the mode's key |
| Info.FirstPageStartsWithTheBest | src/Modules/Info.cs:298-341 | the first page starts with a best player of the guild by the mode's key |
| Info.ProfileRank | src/Modules/Info.cs:220-226 | the rank shown is a guild rank strictly below the player's points, and no such rank is higher; there is none only when no rank is below |
| Info.ProfileRankIsStrict | src/Modules/Info.cs:221 | a rank whose threshold equals the player's points is not shown |
| Info.PlayerIndex | src/Modules/Info.cs:206 | the registration found is the user's in the guild; none only when there is none |
| Info.Profile | src/Modules/Info.cs:197-253 | a registered user's stats are the stored registration's own, come with their rank, and kills and deaths are shown exactly when either is positive; an unregistered user gets "you are not registered" if and only if they asked about themselves, and "that user is not registered" otherwise |
| Info.RankLineOf | src/Modules/Info.cs:188 | a rank's line uses its own modifiers, or the competition defaults where it has none |
| Info.RankLines | src/Modules/Info.cs:188 | one line per rank, in order |
| Info.NoRanksIffNoneOfTheGuild | src/Modules/Info.cs:182-186 | the "no ranks" reply comes exactly when the guild has no ranks |
| Info.RankListCoversTheGuild | src/Modules/Info.cs:176-191 | the rank list has one line per guild rank, in descending order of threshold |
| LobbySetup.NewLobby | src/Modules/LobbySetup.cs:53-61 | a new lobby has the guild, channel, team size and pick mode given |
| LobbySetup.CreateStep | src/Modules/LobbySetup.cs:29-67 | an existing lobby is refused first, then a guild at the lobby limit without premium; only creation changes the table |
| LobbySetup.CreatedLobbyIsTheChannels | src/Modules/LobbySetup.cs:35-61 | a created lobby is the channel's lobby from then on, with the requested settings; the guild has one lobby more, keys stay unique, and a non-premium guild never passes the limit |
| LobbySetup.DeleteStep | src/Modules/LobbySetup.cs:492-507 | deleting a channel that is not a lobby is refused and changes nothing |
| LobbySetup.DeleteRemovesOnlyThatLobby | src/Modules/LobbySetup.cs:496-504 | after a deletion the channel is no longer a lobby and every other lobby is still there |
| LobbySetup.PurgeStep | src/Modules/LobbySetup.cs:519-535 | exactly the guild's lobbies whose channel is gone are removed |
| LobbySetup.PurgeCountsTheRemovedLobbies | src/Modules/LobbySetup.cs:524-533 | the count reported is the number of lobbies removed, and is positive |
| LobbySetup.Apply | src/Modules/LobbySetup.cs:447-700 | each of the fourteen setters gives the lobby with exactly its one field changed: team size, pick mode, pick order, either announcement channel, minimum points set or reset, the direct-message toggle, description, hide-queue, mention-users, loss multiplying, high limit and host mode |
| LobbySetup.SettingReadsBack | src/Modules/LobbySetup.cs:447-700 | a saved setting is what the lobby reads back, other lobbies are kept, and repeating a setter other than the toggle saves the same lobby again |
| LobbySetup.SetStep | src/Modules/LobbySetup.cs:72-274 | a setter updates the lobby exactly when the channel is a lobby, a value was given, and an announcement destination is given and is not the lobby's own channel; only then does the table change |
| LobbySetup.AnnouncementsStayElsewhere | src/Modules/LobbySetup.cs:175-234 | no setter makes a lobby announce into its own channel |
| LobbySetup.SetKeepsLobbyKeysUnique | src/Modules/LobbySetup.cs:72-700 | setters keep every lobby's key and the number of lobbies |
| LobbySetup.ToggleDmsTwiceRestores | src/Modules/LobbySetup.cs:447-462 | toggling direct messages twice leaves the lobbies as they were |
| LobbySetup.SetLobbyField | src/Modules/LobbySetup.cs:72-700 | the outcome and the lobbies table are those of the setter rule |
| LobbySetup.FoldingIsIdempotent | src/Modules/LobbySetup.cs:424-441 | a name is the same name as its lower-case form |
| LobbySetup.Split | src/Modules/LobbySetup.cs:362 | the pieces of a split contain no separator |
| LobbySetup.JoinSplit | src/Modules/LobbySetup.cs:362 | joining the pieces of a split gives the text back |
| LobbySetup.SplitJoin | src/Modules/LobbySetup.cs:362 | splitting joined pieces that hold no separator gives the pieces back |
| LobbySetup.ChannelMaps | src/Modules/LobbySetup.cs:374 | a lobby's maps are exactly the map rows of its channel |
| LobbySetup.MapRows | src/Modules/LobbySetup.cs:386-394 | one map row of the lobby per accepted name |
| LobbySetup.AcceptedIsDistinctAndComplete | src/Modules/LobbySetup.cs:378-395 | every accepted name was given and is new to the lobby; no two accepted names match ignoring case; every name given is one the lobby had or one accepted |
| LobbySetup.RejectedAreTheExisting | src/Modules/LobbySetup.cs:378-395 | the names reported as failed are exactly the names given that the lobby already had, ignoring case |
| LobbySetup.AddMapsKeepsNamesDistinct | src/Modules/LobbySetup.cs:360-409 | after adding maps no two of the lobby's maps match ignoring case, if none did before; every name given is among its maps; other lobbies' maps are untouched |
| LobbySetup.MapRowsJoinTheChannel | src/Modules/LobbySetup.cs:385-395 | new rows extend the lobby's map names and leave other lobbies' maps alone |
| LobbySetup.AddMaps | src/Modules/LobbySetup.cs:360-409 | the outcome and the maps table are those of the add-maps rule |
| LobbySetup.DelMapStep | src/Modules/LobbySetup.cs:413-443 | a map is removed if and only if the channel is a lobby with exactly one map matching the name ignoring case; more than one match is refused as ambiguous; a missing lobby is reported first; every outcome other than a removal changes nothing |
| LobbySetup.DelMapRemovesTheMatch | src/Modules/LobbySetup.cs:424-441 | a removal takes out exactly the one matching map; no map of the lobby matches afterwards and every other map is kept |
| LobbySetup.DelMap | src/Modules/LobbySetup.cs:413-443 | the outcome and the maps table are those of the delete-map rule |
| LobbySetup.ClearMapsStep | src/Modules/LobbySetup.cs:338-354 | clearing a channel that is not a lobby changes nothing |
| LobbySetup.ClearMapsRemovesOnlyTheLobbys | src/Modules/LobbySetup.cs:349-351 | clearing leaves the lobby without maps and every other lobby's maps as they were |
| LobbySetup.ClearMaps | src/Modules/LobbySetup.cs:338-354 | the outcome and the maps table are those of the clear rule |
| LobbySetup.CreateLobby | src/Modules/LobbySetup.cs:29-67 | the outcome and the lobbies table are those of the creation rule |
| LobbySetup.DeleteLobby | src/Modules/LobbySetup.cs:492-507 | the outcome and the lobbies table are those of the deletion rule |
| LobbySetup.PurgeLobbies | src/Modules/LobbySetup.cs:519-535 | the outcome and the lobbies table are those of the purge rule |
| LobbySetup.FilterKeepsLobbyKeysUnique | src/Modules/LobbySetup.cs:524-533 | removing lobbies never creates a duplicate key |
| CompetitionSetup.StoreReadsBack | src/Modules/CompetitionSetup.cs:146-164 | a saved competition is what its guild reads back, every other guild reads what it read before, and keys stay unique |
| CompetitionSetup.LegacyExpiry | src/Modules/CompetitionSetup.cs:147-160 | a missing or past expiry becomes exactly the token's days after now; a running expiry is extended by the days; the result is never before now plus the days |
| CompetitionSetup.RedeemStep | src/Modules/CompetitionSetup.cs:129-168 | an unknown token is refused; only a redeemed token changes the tables, using the token up and storing the extended expiry |
| CompetitionSetup.RedeemingExtendsPremium | src/Modules/CompetitionSetup.cs:139-164 | a redeemed token is gone, the guild's expiry is at least the token's days after now, and no other guild changes |
| CompetitionSetup.TokenRedeemsOnce | src/Modules/CompetitionSetup.cs:139-162 | the same token cannot be redeemed twice |
| CompetitionSetup.RedeemLegacyToken | src/Modules/CompetitionSetup.cs:127-168 | the outcome, competitions and tokens are those of the redeem rule |
| CompetitionSetup.RankIndex | src/Modules/CompetitionSetup.cs:447-463 | the rank found is the role's; none only when the role has no rank |
| CompetitionSetup.AddRankStep | src/Modules/CompetitionSetup.cs:440-516 | a role with a rank is updated in place; otherwise one rank is added |
| CompetitionSetup.AddRankUpserts | src/Modules/CompetitionSetup.cs:440-516 | after adding, the role has exactly one rank with the given points (and modifiers), and every other rank is kept |
| CompetitionSetup.RemoveRankStep | src/Modules/CompetitionSetup.cs:533-559 | removing a role without a rank is refused and changes nothing |
| CompetitionSetup.RemoveRankRemovesOnlyThatRank | src/Modules/CompetitionSetup.cs:540-548 | a removal takes out the role's rank and keeps every other rank |
| CompetitionSetup.RankModifierStep | src/Modules/CompetitionSetup.cs:726-782 | a role without a rank is refused; otherwise only that rank's win or loss modifier changes |
| CompetitionSetup.PurgeRanksStep | src/Modules/CompetitionSetup.cs:518-531 | exactly the guild's ranks whose role is gone are removed |
| CompetitionSetup.PurgeRanksIsIdempotent | src/Modules/CompetitionSetup.cs:518-531 | purging keeps rank keys unique, and purging twice is purging once |
| CompetitionSetup.FilterKeepsRankKeysUnique | src/Modules/CompetitionSetup.cs:524-528 | removing ranks never creates a duplicate key |
| CompetitionSetup.SetTimeoutStep | src/Modules/CompetitionSetup.cs:874-904 | a timeout under ten minutes is refused first, then a guild without premium; only a set timeout changes the table |
| CompetitionSetup.StoreKeepsTimeoutsValid | src/Modules/CompetitionSetup.cs:874-904 | saving a competition with a valid timeout keeps every stored timeout at least ten minutes |
| CompetitionSetup.TimeoutIsAtLeastTenMinutes | src/Modules/CompetitionSetup.cs:874-904 | a set timeout is the guild's from then on, and no stored timeout is ever under ten minutes; every other guild reads back what it read before |
| CompetitionSetup.ApplySetting | src/Modules/CompetitionSetup.cs:581-599 | each setter changes exactly its own field: multi-queueing, requeue delay, default win and loss modifiers are set to the given value, each reset clears only its own field, and the guild is kept |
| CompetitionSetup.SettingStep | src/Modules/CompetitionSetup.cs:684-724 | given no value a setting is only shown and nothing changes; otherwise the competition with the setting applied is saved |
| CompetitionSetup.SettingIsReadBack | src/Modules/CompetitionSetup.cs:838-919 | a saved setting is what the guild reads back; every other guild reads back what it read before; keys stay unique and timeouts stay valid |
| CompetitionSetup.PurgeRegistrationsStep | src/Modules/CompetitionSetup.cs:660-682 | without the confirmation code nothing happens; otherwise exactly the guild's registrations of users no longer in it are removed |
| CompetitionSetup.PurgeRegistrationsCounts | src/Modules/CompetitionSetup.cs:664-681 | the count reported is the number removed, and the code is accepted in any case |
| CompetitionSetup.FilterKeepsPlayerKeysUnique | src/Modules/CompetitionSetup.cs:674-677 | removing registrations never creates a duplicate key |
| CompetitionSetup.AddRank | src/Modules/CompetitionSetup.cs:440-516 | the outcome and ranks table are those of the add-rank rule |
| CompetitionSetup.RemoveRank | src/Modules/CompetitionSetup.cs:533-559 | the outcome and ranks table are those of the remove-rank rule |
| CompetitionSetup.SetRankModifier | src/Modules/CompetitionSetup.cs:726-782 | the outcome and ranks table are those of the rank-modifier rule |
| CompetitionSetup.PurgeRanks | src/Modules/CompetitionSetup.cs:518-531 | the ranks table is the purge rule's result |
| CompetitionSetup.SetQueueTimeout | src/Modules/CompetitionSetup.cs:874-904 | the outcome and competitions table are those of the timeout rule |
| CompetitionSetup.SetCompetitionField | src/Modules/CompetitionSetup.cs:581-919 | the outcome and competitions table are those of the setting rule |
| CompetitionSetup.PurgeRegistrations | src/Modules/CompetitionSetup.cs:660-682 | the outcome and players table are those of the purge rule |

## Left out

- Discord I/O: messages, embeds, direct messages, nickname updates (`UserService.UpdateUserAsync`), role and channel lookups. Guild members, channels and roles are parameters (`members`, `channels`, `roles`).
- External services are parameters:
  - the premium check (`premium`) and the premium lobby limit (`lobbyLimit`);
  - the registration check (`registered`, `registration`);
  - the pick-one and pick-two turn rules (`turn`);
  - whether a timeout notification throws (`sendFails`).
- Game setup once a lobby is full (`LobbyFullAsync`) is outside this model. `Join` and `ForceJoin` only report a full lobby.
- The random map choice of the `Map` command (QueueManagement.cs:309-341) is left out because it is random.
- Concurrency is left out: commands run one at a time, and each sweep runs as one step.
- Floating-point values are left out:
  - the win/loss and kill/death ratio leaderboard modes;
  - the kill/death ratio on a profile;
  - the `SetMultiplier` and `SetHighLimitMultiplier` doubles.
- Rows that reads create are not modelled. Reading a competition uses the stored row or a blank one, and the row that `GetOrCreateCompetition` adds on a read is not stored. Writes do store it.
- Entity initialisers are not modelled. `NewLobby` and `BlankCompetition` give the fields no command sets their type's empty value.
- Case folding covers ASCII only; other characters compare as they are.
- `Info.Leaderboard` does not model 32-bit overflow of the skip count for huge page numbers.
- `Info.Leaderboard`'s sort-mode enum is not part of this model: which enum values reach which case of the command's switch is outside the model. The command's default is written `points` (Info.cs:263, 271) and its case `point` (Info.cs:300, 357); whether these name the same value cannot be read from the modelled files. A value with no case, `Unlisted` here, gets no reply (Info.cs:328-329).
- A lookup by key that finds duplicate rows is not modelled. The queue, lobby, competition, rank and player tables keep unique keys (`Database.Valid`). The `TeamPlayers` and `TeamCaptains` tables carry no such invariant: where `Sub` looks a row up with `SingleOrDefault` (LobbyManagement.cs:243-247), the model takes the first matching row instead of throwing.
- `GetTeamFull` is not part of this model. `PickCommit` takes a team's full roster to be its captain plus its team rows (`AssignedUsers`).
- `Info.SortDesc` fixes the order of equal keys to the table order; the database query leaves it unspecified.
- CountPickAdvancesGame: states the games table for a given readiness flag; the flag's tie to the placed count is stated by `PickCommitAdvancesDraft` and `PickDraftsUsers`.
- The command display lists `PickModes`, `PickOrders`, `HostModes` and `ModifyStates` only show text and are left out.
- These competition flags are not modelled, because no modelled command reads them: `AllowNegativeScore`, `AllowReRegister`, `AllowSelfRename`, `DisplayErrors`, `UpdateNicknames`, `AllowVoting`, and the registration message, role and nickname settings.
- `LegacyExpiration` only displays the expiry and is left out.
- `DeleteLobby` removes only the lobby row. Database cascades to the lobby's games and queue are not part of this model.
- The registration cache cleared by `PurgeRegistrations` is not modelled.
- The empty-names check of `AddMaps` (LobbySetup.cs:363) can never fire after `Split`, so it is left out.
- The map-mode commands are commented out in LobbySetup.cs (lines 277-335) and are not modelled.
- The `QueuedPlayer` entity is not part of this model. `Join`, `ForceJoin` and `Sub` do not set a row's queued time, so a new row is taken to be stamped with `now` by the entity's initialiser.
- Time is whole seconds, and delays and timeouts are seconds. `TimeSpan` precision is not modelled.
