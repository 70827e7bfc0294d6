# ccteam: crash, concurrency and round-trip proofs

Dafny models of the parts of ccteam whose comments promise something about whole runs: file
protocols that may be cut short and run again, small concurrent protocols, parsers with a
printer beside them, and loops that keep accounts. `dafny verify dfyconfig.toml` checks
everything.

| part | files | repository |
|---|---|---|
| home migration | `HomeTree`, `Json`, `HomeMigration`, `HomeRelocation`, `HomeFate`, `HomeGateway`, `HomeScript` | `scripts/migrate_ccteam_home.py` |
| log tail and follower | `Octets`, `Text`, `Lines`, `LogFollow`, `LogLosses`, `LogLines`, `LogFollower` | `crates/ccteam-cli/src/daemon_cli.rs` |
| skill library | `SkillIds`, `InodeFs`, `Disk`, `LibraryWriter`, `LibraryNoClobber` | `crates/ccteam-core/src/admin_actions.rs` |
| tools line of an agent | `Frontmatter`, `FrontmatterLaws`, `FrontmatterText`, `FrontmatterNoOp` | `crates/ccteam-core/src/admin_actions.rs` |
| binary swap | `InstallBinary` (on `InodeFs`, `Disk`) | `crates/ccteam-cli/src/update.rs` |
| flow ledger bridge | `LedgerRows`, `LedgerBridge` | `crates/ccteam-cli/src/flow_bridge.rs`, `crates/ccteam-cli/src/flow.rs` |
| project skill migration | `SkillMigration`, `SkillMigrationLaws`, `SkillMover` | `crates/ccteam-cli/src/commands.rs` |
| job directory sweep | `JobGc`, `JobGcLaws` | `crates/ccteam-core/src/claude_job.rs` |
| launch command line | `LauncherArgv`, `LauncherLaws` | `crates/ccteam-cli/src/daemon_cli.rs`, `crates/ccteam-cli/src/main.rs` |
| restart after an update | `RestartContract`, `RestartMachine` | `crates/ccteam-cli/src/update.rs`, `crates/ccteam-core/src/daemon.rs` |
| start gate | `StartGate` | `crates/ccteam-cli/src/main.rs`, `crates/ccteam-web/src/lib.rs` |
| schedules | `CronRuns` | `crates/ccteam-core/src/cron.rs` |
| fix loop | `AutoLoop` | `crates/ccteam-core/src/auto_loop.rs` |

Code that works in place is a class or a loop with invariants, proved against a function; the
theorems are about that function or about the machine its steps make. Files at crash points are
sequences of states ("trails") that the methods are proved to go through, so a theorem about
every state of a trail is a theorem about every crash.

## Where the code and what it says of itself part

Each of these is a lemma, with the exact condition under which the promise holds.

- The home script says re-running is safe. It is, after a cut at any step and even inside a write,
  unless the cut left `gateway-state.json` half rewritten (`RerunIsSafe`; a concrete home in
  `TornRewriteExample`).
- The script keeps config, tenants, IM credentials and tokens, it says. Every entry ends where
  `WhereItGoes` puts it, and an entry that should not be deleted is lost exactly in one case: the
  old IM credentials, when new ones are there already and differ (`LostIff`, `CredentialsIff`; a
  concrete home in `CredentialsLostExample`).
- `split_tenants` describes `tenants.json` as one array. A bare array is unlinked and no tenant
  file is written (`BareArrayIsDropped`). A listed tenant is in its own file exactly when the
  document is an object, the tenant has a truthy id, and the last tenant whose id names the same
  file is that same tenant (`TenantSurvivesIff`); all others are gone with `tenants.json`.
- The library writer says an unforced write never clobbers. That needs that no temporary
  name is a second name of a library file (`UnclobberableIff`). A call whose two removals both fail, or that is
  killed between the link and the removal, breaks it, and the next plain unforced call is refused
  and yet replaces the bytes (`LeakLetsARefusedWriteThrough`).
- Adding a tool is called idempotent. It is for an ordinary tool (`OrdinaryToolIsStable`), and for
  every tool and document exactly under the condition of `StableIff`; a tool that holds a line
  break, or a comma beside any other text, is added again each time.
- `already_present` is said to mean a file untouched apart from an idempotent rewrite. It speaks of
  the last flat `tools:` line alone. The rewrite is all that happens exactly when the last tools
  line has its value on the line and every such line lists the tool (`NoOpIff`, `PresentIff`);
  otherwise another list changes (`PresentYetChanged`) or a line is added (`PresentYetAdded`).
- The binary swap is atomic exactly when removing a stale `.ccteam.new` works, or it shares its
  inode with neither end, or the files are too small to tear (`AtomicIff`).
- The migration of project skills can be resumed unless a name in the entity is a link to nothing,
  which `exists` does not see, beside a skill that can move; the outcome then depends on the order
  in which the directory is read (`ResumesIff`).
- The sweep's terminal states are said to mirror the probe's. An old job in state `killed` without
  an end mark is running to the probe and is removed by the sweep (`RemovesRunningIff`). A failed
  removal does not end the sweep, whose comment says it does (`JobsDir.Gc`).
- The other way round, a job the probe calls finished is never removed, however old, exactly when
  its document cannot be read, when it has an end mark beside the state `working` or an unknown one,
  or when no time of its end is known (`FinishedYetKeptIff`).
- `Restarted` need not speak of the daemon the updater started. A daemon that binds removes what is
  at the socket's path first, so it takes over from the one serving, and one that shuts down removes
  the path whoever serves there. In every run, whatever binds, removes the path or exits in between
  and whichever probes go unanswered, the daemon whose version was taken for the new one is the
  updater's child, with the replayed command line and on record, if and only if no daemon serving
  when the stop was over kept the socket, and none but the child took it for good
  (`RestartedIsOurs`, `RunRestartsOurs`). It fails for a daemon that the start finds serving
  (`RestartedIsNotOurs`), for one that binds once the start has found the socket free, when the
  recorded child is called started and does not serve (`StartedIsNotServing`), and for one that
  takes over from the child before the last probe (`TakenOver`).
- A restart that fails after the stop is reported as an error, never as a refusal (`LeftDownIff`, on
  the verdicts). On the host the stopped daemon is then gone; nobody serves exactly when nobody was
  left serving who kept the socket and neither the child nor another daemon took it for good; the
  child can serve only when the wait for it ran out of time (`ErrorLeaves`, `ErrorYetServed`).
- The log follower shows every byte once across rotations. Up to the file it holds, it loses bytes
  exactly when something is written to a file it has left or drained for the last time, or a file
  with something in it comes and goes between two of its looks at the path (`LossesIff`,
  `ReopeningSkips`, `SecondRotationLosesBytes`). A third case shows nothing more of the log: the
  path names no file when the follower goes to reopen it, which ends it with an error and is the
  only way it ends (`EndsIff`, `FailedReopening`). A follower that has not ended, with a file at the
  path, is five undisturbed calls from the end of the log, and has then shown the whole of it
  exactly when nothing was lost before and the reopening still ahead, if any, skips nothing
  (`ShowsWholeLogIff`).
- What it shows are not always the log's lines: they are exactly when no read starts inside a line
  (`ShownIff`, `LogShownByLinesIff`); a line written in two parts may be shown as two
  (`LineShownAsTwo`).
- The tail drops the first line of its window as a partial one; it is a whole one when the byte
  before the window ends a line (`DroppedLineIsWholeIff`).
- The fix loop's prompt is re-fed verbatim exactly when it neither starts nor ends with white space
  (`VerbatimIff`); otherwise it comes back trimmed (`RoundTrip`).

## Assumed of code outside the model

Libraries appear as values with a `Lawful` predicate: JSON (`HomeMigration.Lawful`: a relabelled
document reads back, no proper prefix of its text parses), YAML (`AutoLoop.Lawful`), socket
addresses (`LauncherArgv.Lawful`), the cron library (`CronRuns.Lawful`), time stamps (a parse
function). Clocks, directory order, failures of system calls, answers of the daemon and the
verdicts of stopping and starting it are parameters. The command-line parser is modelled from the
flag declarations: a value may not look like an option, a path may not be empty, a flag comes
once. `Notify` holds one permit.

## Model

| member | source | states |
|---|---|---|
| HomeMigration.RerunIsSafe | scripts/migrate_ccteam_home.py:137-153 | for every home and every cut, between or inside steps, a full rerun ends as the uncut run if and only if the cut did not tear the rewrite of gateway-state.json |
| HomeMigration.PastIsSettled | scripts/migrate_ccteam_home.py:137-153 | when a run reaches a unit, every earlier unit has nothing left to do |
| HomeMigration.LaterKeepsSettled | scripts/migrate_ccteam_home.py:38-49 | whatever a later unit does, even partly, gives no earlier unit new work |
| HomeMigration.NamesApart | scripts/migrate_ccteam_home.py:38-49 | no unit creates an earlier unit's source or removes an earlier unit's target, and deletes come after the moves |
| HomeMigration.ResumeWork | scripts/migrate_ccteam_home.py:56-94 | a unit cut anywhere in its steps ends, rerun, in the tree of the uncut unit; tenant files are rewritten because their source goes last |
| HomeMigration.RelabelSettles | scripts/migrate_ccteam_home.py:123-134 | a relabelled document has no web owner left, so relabelling is idempotent |
| HomeMigration.TornRewriteIsKept | scripts/migrate_ccteam_home.py:118-134 | a torn rewrite is never repaired: no rerun reaches the intended home |
| HomeRelocation.SecondRunIsIdle | scripts/migrate_ccteam_home.py:137-153 | after a completed run a second one changes nothing |
| HomeRelocation.Relocated | scripts/migrate_ccteam_home.py:38-67 | for a free target, every entry below a moved name is at its new place with its contents at the end, and gone from the old one |
| HomeFate.WhereItGoes | scripts/migrate_ccteam_home.py:4-18 | for every entry of a well-formed home, free target or not: moved ones are at the new place only, ones below a deleted name are gone, all others are where they were, with their contents but for owners in the gateway state |
| HomeFate.LostIff | scripts/migrate_ccteam_home.py:4-6 | an entry is nowhere in the end exactly below a deleted name, the old IM credentials among them exactly when new and different ones were there |
| HomeFate.CredentialsIff | scripts/migrate_ccteam_home.py:40 | the credentials leave their old place, and their text is at the new one exactly when it was free or held the same |
| HomeFate.CredentialsLostExample | scripts/migrate_ccteam_home.py:60-62 | a concrete home whose old credentials are deleted |
| HomeFate.GatewayEnds | scripts/migrate_ccteam_home.py:108-134 | the gateway state ends as the moved or present text, rewritten with relabelled owners exactly when a session was web-owned |
| HomeGateway.GatewayDocument | scripts/migrate_ccteam_home.py:108-134 | told from the documents parsed before and after: the same fields in the same order with the same values outside `sessions`, the same sessions in the same order, each as it was or, if web-owned, changed from web to user in its owner's channel and nowhere else; without a web owner the text is untouched |
| HomeGateway.Layout | scripts/migrate_ccteam_home.py:8-16 | each name of the old layout, literally, ends with all that is below it at the documented new name when that is free |
| HomeGateway.Leftovers | scripts/migrate_ccteam_home.py:17-18 | the documented leftovers are gone and config.yaml, hooks and run are as they were |
| HomeGateway.TenantsListed | scripts/migrate_ccteam_home.py:83 | which tenants a tenants.json lists, and what there makes the script fail |
| HomeGateway.SessionsHeld | scripts/migrate_ccteam_home.py:121-122 | which sessions a gateway state holds, and what there makes the script fail |
| HomeGateway.TenantFileIsNamed | scripts/migrate_ccteam_home.py:91 | a tenant's file is secrets/users/<id>.json, so different ids have different files |
| HomeRelocation.TenantKept | scripts/migrate_ccteam_home.py:70-94 | at the end the last tenant of each id is in its own file and the array file is gone |
| HomeRelocation.TenantFile | scripts/migrate_ccteam_home.py:70-94 | every path below secrets/users ends with the text of the last tenant written there, or as it was |
| HomeRelocation.TenantSurvivesIff | scripts/migrate_ccteam_home.py:70-94 | a listed tenant is in its own file if and only if the document is an object, it has a truthy id, and the last tenant of that file is the same one |
| HomeRelocation.BareArrayIsDropped | scripts/migrate_ccteam_home.py:83-94 | a bare array loses all its tenants |
| HomeRelocation.RelabelIsLocal | scripts/migrate_ccteam_home.py:126-130 | relabelling changes the owner's channel from web to user and no other field of the session |
| HomeRelocation.TornRewriteExample | scripts/migrate_ccteam_home.py:131-134 | a concrete home on which a cut rewrite survives the rerun |
| HomeScript.TrailIsSafe | scripts/migrate_ccteam_home.py:137-153 | every tree on the way through a unit is a safe place to stop |
| HomeScript.RelabelItems | scripts/migrate_ccteam_home.py:125-130 | the loop relabels the owners in place and counts exactly the web-owned ones |
| HomeScript.Home.SplitTenants | scripts/migrate_ccteam_home.py:70-94 | splitting in place carries out the planned steps and stops where one fails |
| HomeScript.Home.Move | scripts/migrate_ccteam_home.py:56-67 | moving in place carries out the planned steps |
| HomeScript.Home.Migrate | scripts/migrate_ccteam_home.py:137-153 | the script ends as the plan says, and every tree it passes through is one from which a rerun ends the same |
| Lines.FirstLine | crates/ccteam-cli/src/daemon_cli.rs:842-843 | what stands before a newline is a line, without a carriage return before it |
| Lines.LastLine | crates/ccteam-cli/src/daemon_cli.rs:842-843 | what follows the last newline is a line if there is anything |
| Lines.TailIsEndOfLog | crates/ccteam-cli/src/daemon_cli.rs:830-848 | the tail is a suffix of the file's lines, at most n of them, none partial, and as many as there are up to n when the file has at most 1048576 bytes |
| Lines.TailShowsWindow | crates/ccteam-cli/src/daemon_cli.rs:843-847 | of a longer file the last n of the lines that reach into the last 1048576 bytes show, but never the first of those |
| Lines.DroppedLineIsWholeIff | crates/ccteam-cli/src/daemon_cli.rs:836-846 | the window's first line, dropped as partial, is a whole line of the log if and only if the byte before the window is a newline; the log then has that one line more than what precedes the window and what the tail can show |
| Lines.LinesAfterCut | crates/ccteam-cli/src/daemon_cli.rs:841-846 | dropping a byte prefix damages at most the first remaining line |
| Lines.CutAtLineEnd | crates/ccteam-cli/src/daemon_cli.rs:806-814 | printing two chunks by lines shows the lines of the whole if and only if the cut is at a line end |
| LogFollow.StepKeepsValid | crates/ccteam-cli/src/daemon_cli.rs:778-802 | every step of follower, writers and rotation keeps: what was printed is one stretch per file from its start, in order, without repeats |
| LogFollow.ExactlyOnceIff | crates/ccteam-cli/src/daemon_cli.rs:778-802 | in any run at all, the output is the log exactly once if and only if no file was left with unread bytes |
| LogFollow.FollowsExactlyOnce | crates/ccteam-cli/src/daemon_cli.rs:774-803 | across any number of rotations, one between two looks, every byte after the start is printed once and in order |
| LogFollow.CatchesUp | crates/ccteam-cli/src/daemon_cli.rs:778-802 | left alone, one round of the loop reaches the end of the file at the path, rotated or not |
| LogLosses.LossesIff | crates/ccteam-cli/src/daemon_cli.rs:778-802 | in every run the output is the log exactly once up to the place reached in the file held if and only if no act writes to a file left or drained for good and no reopening skips a file with something in it |
| LogLosses.FollowerLosesIff | crates/ccteam-cli/src/daemon_cli.rs:774-803 | the same, up to the file held, from the opening of the file on |
| LogLosses.WholeShownIff | crates/ccteam-cli/src/daemon_cli.rs:778-802 | in any state of any run, ended ones too, all there is in the log has been printed if and only if the files left and the one held were read to their ends and every later one is empty |
| LogLosses.EndsIff | crates/ccteam-cli/src/daemon_cli.rs:792-793 | the follower ends with an error exactly when it goes to reopen the path and no file is there, and prints nothing after |
| LogLosses.FailedReopening | crates/ccteam-cli/src/daemon_cli.rs:791-793 | a concrete run in which no act loses bytes and yet what the next daemon writes is never printed |
| LogLosses.CatchesUpFrom | crates/ccteam-cli/src/daemon_cli.rs:778-802 | from any point of the loop at most five undisturbed system calls reach the end of the file at the path |
| LogLosses.ShowsWholeLogIff | crates/ccteam-cli/src/daemon_cli.rs:774-803 | after any run that has not ended and has a file at the path, at most five more calls reach the end of the log, and all of it has been printed exactly once if and only if no act of the run lost bytes and the state it reached has no reopening ahead that skips any |
| LogLines.ShownIff | crates/ccteam-cli/src/daemon_cli.rs:805-814 | in every run the lines printed are the lines of what was read, file by file, if and only if no read started inside a line already shown in part |
| LogLines.LogShownByLinesIff | crates/ccteam-cli/src/daemon_cli.rs:774-814 | a run that printed all of the log printed exactly its lines under the same condition |
| LogLines.LineShownAsTwo | crates/ccteam-cli/src/daemon_cli.rs:805-814 | a concrete run that shows one line as two |
| LogFollow.ReopeningSkips | crates/ccteam-cli/src/daemon_cli.rs:785-795 | reopening loses nothing if and only if every file that came and went in between is empty |
| LogFollow.SecondRotationLosesBytes | crates/ccteam-cli/src/daemon_cli.rs:785-795 | a concrete run with two rotations between polls that loses a byte |
| LogFollower.PollIsRun | crates/ccteam-cli/src/daemon_cli.rs:779-802 | a round of the loop is the run in which the round's events happen in order with the loop's system calls in the gaps, as many of them as the log decides |
| LogFollower.PollReaches | crates/ccteam-cli/src/daemon_cli.rs:779-802 | told from the log at a round's four system calls: nothing without a file at the path; on the file held, its bytes up to the end at the read; on another, the held file to its end, then an error or the file at the path from its start |
| LogFollower.QuietRound | crates/ccteam-cli/src/daemon_cli.rs:779-802 | a round with nothing in between ends at the end of the file at the path, rotated or not |
| LogFollower.FollowIsRun | crates/ccteam-cli/src/daemon_cli.rs:774-803 | any number of rounds is the run of their events and calls, round after round, ending early only with an error |
| LogFollower.LogFollower.Poll | crates/ccteam-cli/src/daemon_cli.rs:779-802 | the imperative round updates file, offset and output as the machine does, whatever happens to the log between its system calls |
| LogFollower.LogFollower.Follow | crates/ccteam-cli/src/daemon_cli.rs:774-803 | the whole loop in place, over any number of rounds, ends in the state of the machine's run |
| LogFollower.LogFollower.PrintAppended | crates/ccteam-cli/src/daemon_cli.rs:805-814 | prints everything past the offset and returns the new end |
| SkillIds.ValidIdIff | crates/ccteam-core/src/admin_actions.rs:159-188 | character by character, which ids are accepted |
| SkillIds.ValidRelpathIff | crates/ccteam-core/src/admin_actions.rs:265-290 | character by character, which relative paths are accepted |
| SkillIds.SanitizingIsSound | crates/ccteam-core/src/admin_actions.rs:190-221 | sanitizing succeeds exactly on inputs with an ASCII letter or digit; the result is a valid id with the same letters and digits, a fixed point, the input itself if valid, else one segment |
| SkillIds.RunsCollapse | crates/ccteam-core/src/admin_actions.rs:190-212 | every run of other characters becomes one dash, none after a dash, and every word is only lower-cased |
| SkillIds.WordsJoin | crates/ccteam-core/src/admin_actions.rs:192-195 | two words of letters and digits with anything invalid between them become one lower-case segment with one dash |
| SkillIds.StemShape | crates/ccteam-core/src/admin_actions.rs:201-219 | collapsing and both trims keep the letters and digits; the stem is empty or a valid segment |
| SkillIds.StemSides | crates/ccteam-core/src/admin_actions.rs:212-216 | what is taken off the collapsed text is leading dashes and underscores and trailing dashes |
| SkillIds.ValidIdHasEssence | crates/ccteam-core/src/admin_actions.rs:159-188 | a valid id has a letter or digit |
| SkillIds.Sanitize | crates/ccteam-core/src/admin_actions.rs:196-221 | the loop with its dash flag computes the sanitized id |
| SkillIds.Collapsed | crates/ccteam-core/src/admin_actions.rs:203-212 | the loop collapses every run of other characters into one dash |
| LibraryWriter.ValidatedPathsArePublishable | crates/ccteam-core/src/admin_actions.rs:235-290 | paths the validators let through have no hidden segment and are never a temporary name |
| LibraryWriter.PathsAreTexts | crates/ccteam-core/src/admin_actions.rs:223-258 | a skill's file is <id>/SKILL.md, another file of it <id>/<relpath> |
| LibraryWriter.SkillsApart | crates/ccteam-core/src/admin_actions.rs:223-229 | different ids have different files |
| LibraryWriter.TmpIsText | crates/ccteam-core/src/admin_actions.rs:301-305 | the temporary name is hidden and beside the file |
| LibraryWriter.TmpNamesApart | crates/ccteam-core/src/admin_actions.rs:301-305 | different files have different temporary names |
| LibraryWriter.AtomicWrite | crates/ccteam-core/src/admin_actions.rs:292-338 | the writer goes through exactly the states of its trail, with every error path, and reports success exactly as the trail says |
| LibraryWriter.WriteLibrarySkill | crates/ccteam-core/src/admin_actions.rs:231-243 | a bad id or blank content touches nothing; otherwise the writer runs on SKILL.md |
| LibraryWriter.WriteLibrarySkillFile | crates/ccteam-core/src/admin_actions.rs:245-260 | a bad id or relative path touches nothing; otherwise the writer runs on that file |
| LibraryNoClobber.CallRefines | crates/ccteam-core/src/admin_actions.rs:292-338 | however far a call gets and whatever fails, readers see the old library or the one with its bytes, and the temporary name is private again if and only if the call does not leak |
| LibraryNoClobber.RunRefines | crates/ccteam-core/src/admin_actions.rs:292-338 | any run of returned or killed calls without a leak means exactly the map its landed calls write |
| LibraryNoClobber.NoClobber | crates/ccteam-core/src/admin_actions.rs:292-294 | in such a run a file keeps its bytes unless a call is forced at that very path |
| LibraryNoClobber.CallersChangeOneFile | crates/ccteam-core/src/admin_actions.rs:231-258 | from a clean disk an accepted call, however far it gets, changes at most the library file of its id and path, to its bytes, and does when it lands |
| LibraryNoClobber.NeverPartial | crates/ccteam-core/src/admin_actions.rs:292-338 | at every intermediate state readers see the old library or the complete new file |
| LibraryNoClobber.TmpLeftIff | crates/ccteam-core/src/admin_actions.rs:295-338 | exactly when a returning call leaves its temporary file behind |
| LibraryNoClobber.VerdictIsRight | crates/ccteam-core/src/admin_actions.rs:308-338 | success means published and cleaned up; an error with the bytes published happens exactly when the removal after the link failed |
| LibraryNoClobber.UnclobberableIff | crates/ccteam-core/src/admin_actions.rs:305-337 | no unforced call can change any file if and only if no temporary name aliases a library file |
| LibraryNoClobber.LeakLetsARefusedWriteThrough | crates/ccteam-core/src/admin_actions.rs:306-320 | after any leak a plain unforced call is refused and its bytes are in the file |
| InstallBinary.AtomicIff | crates/ccteam-cli/src/update.rs:897-920 | the destination is the old binary or the complete source at every state under all other faults if and only if the stale copy can be removed, or it shares its inode with neither end, or the files are too small to tear |
| InstallBinary.SwapIsAtomic | crates/ccteam-cli/src/update.rs:897-920 | with a stale copy removed or apart, at every state of a call the destination is whole and nothing apart from the temporary file changed |
| InstallBinary.NeverPartial | crates/ccteam-cli/src/update.rs:897-920 | after any sequence of failed, killed and complete attempts the destination is its first content or some attempt's whole source, each attempt removing a stale copy or finding it apart |
| InstallBinary.ApartIsSafe | crates/ccteam-cli/src/update.rs:902-905 | a temporary name apart from destination and sources before the first attempt is enough for that |
| InstallBinary.RemovingIsSafe | crates/ccteam-cli/src/update.rs:903 | and so are removals that work, whatever the name is linked to |
| InstallBinary.VerdictIsRight | crates/ccteam-cli/src/update.rs:899-920 | the destination is the source exactly when the call succeeds |
| InstallBinary.LastAttemptCounts | crates/ccteam-cli/src/update.rs:899-920 | after any attempts, one that is not killed leaves its source when it succeeds and what was there otherwise |
| InstallBinary.TemporaryLeftIff | crates/ccteam-cli/src/update.rs:899-920 | exactly when a returning call leaves `.ccteam.new` behind |
| InstallBinary.AliasTears | crates/ccteam-cli/src/update.rs:902-905 | with an alias and something to tear, some state of an otherwise good call is partial |
| InstallBinary.AliasEmptiesTheBinary | crates/ccteam-cli/src/update.rs:902-905 | with the binary itself behind the name, opening the copy empties it |
| InstallBinary.Install | crates/ccteam-cli/src/update.rs:899-920 | the call goes through exactly the states of its trail, on every error path |
| Frontmatter.AppendTool | crates/ccteam-core/src/admin_actions.rs:499-569 | the loops over lines, with their flags, compute the edit |
| Frontmatter.Persona.AddTool | crates/ccteam-core/src/admin_actions.rs:405-439 | an empty descriptor, a missing file or bad front matter is refused and leaves the file; otherwise the file is the edit with the trimmed tool |
| FrontmatterText.ParsedIff | crates/ccteam-core/src/admin_actions.rs:500-514 | which documents are refused and why, and where the others are cut |
| FrontmatterText.FlatIff | crates/ccteam-core/src/admin_actions.rs:521-535 | character by character, which lines are rewritten |
| FrontmatterText.FoundIff | crates/ccteam-core/src/admin_actions.rs:521-557 | a line is added unless the last tools line has its value on it |
| FrontmatterText.PresentFrom | crates/ccteam-core/src/admin_actions.rs:536-543 | what counts as listed already is what the last flat line lists |
| FrontmatterText.ReportedIsWritten | crates/ccteam-core/src/admin_actions.rs:549-556 | the list reported is what stands on the last tools line written |
| FrontmatterText.WrittenOut | crates/ccteam-core/src/admin_actions.rs:558-575 | one edit in full, as text |
| FrontmatterLaws.StableIff | crates/ccteam-core/src/admin_actions.rs:405-412 | adding a tool twice equals once if and only if it holds no line break, is read back as itself or nothing, and the last tools line still reads as a value |
| FrontmatterLaws.OrdinaryToolIsStable | crates/ccteam-core/src/admin_actions.rs:405-412 | without commas, breaks and block marks the second call changes nothing, renders the same list and says already present |
| FrontmatterLaws.EditIsLocal | crates/ccteam-core/src/admin_actions.rs:488-569 | the output parses to the same lines, closing fence and rest; only flat tools lines differ, keeping their items in order with the tool last; at most one line is new |
| FrontmatterNoOp.NoOpIff | crates/ccteam-core/src/admin_actions.rs:399-412 | for every document and tool the call only rewrites the lists that are there if and only if the last tools line is flat and every flat line lists the tool |
| FrontmatterNoOp.PresentIff | crates/ccteam-core/src/admin_actions.rs:399-402 | already present with a line added, and already present without being the no-op, each with its exact condition |
| FrontmatterNoOp.PresentYetChanged | crates/ccteam-core/src/admin_actions.rs:534-550 | a concrete document whose first list grows although the tool is reported present |
| FrontmatterNoOp.PresentYetAdded | crates/ccteam-core/src/admin_actions.rs:526-557 | a concrete document that gains a line although the tool is reported present |
| FrontmatterLaws.ParseOfRender | crates/ccteam-core/src/admin_actions.rs:500-514 | printing then parsing gives the document back |
| FrontmatterLaws.LineAgain | crates/ccteam-core/src/admin_actions.rs:521-550 | an edited line is a fixed point exactly for a plain tool or a line that now reads as a block |
| FrontmatterLaws.LineBreakGrows | crates/ccteam-core/src/admin_actions.rs:543-553 | a tool with a line break adds lines on every call |
| LedgerRows.EventHasItsRow | crates/ccteam-cli/src/flow_bridge.rs:164-225 | event by event and in order the ledger gets a row with the event's own fields, a finished run's with the reason of the last brake before it or none if there was none, and nothing for narration |
| LedgerRows.LatestBrakeIsLast | crates/ccteam-cli/src/flow_bridge.rs:188-215 | the remembered brake is the last one tripped, none exactly when none was |
| LedgerRows.RowsCount | crates/ccteam-cli/src/flow_bridge.rs:218-224 | nothing but the envelope events puts rows on the ledger |
| LedgerRows.Sink.Report | crates/ccteam-cli/src/flow_bridge.rs:141-162 | the sink's remembered brake and sent rows stay those of the events so far |
| LedgerBridge.PostsInOrder | crates/ccteam-cli/src/flow_bridge.rs:262-327 | in every interleaving the posts are a prefix of the rows in order, at most one finds the daemon unreachable and it is last, and without one an ended worker has posted every row once |
| LedgerBridge.RunKeepsValid | crates/ccteam-cli/src/flow_bridge.rs:93-236 | every step keeps: handled rows then queued rows are the rows of the events, and a worker ends only after the last sender |
| LedgerBridge.SendsReachTheWorker | crates/ccteam-cli/src/flow_bridge.rs:158-160 | a send never finds the worker gone |
| LedgerBridge.SubmitLoop | crates/ccteam-cli/src/flow_bridge.rs:288-326 | the loop posts each row in order to the first unreachable answer, discards the rest, and is an allowed run of the machine's worker steps |
| LedgerBridge.ShutdownTerminates | crates/ccteam-cli/src/flow_bridge.rs:227-236 | once the last sender is gone every run is bounded by queue length and worker state |
| LedgerBridge.ShutdownNeverStops | crates/ccteam-cli/src/flow_bridge.rs:227-236 | and some step is possible until the join has completed |
| LedgerBridge.JoinBlocksIff | crates/ccteam-cli/src/flow_bridge.rs:227-236 | the join waits on others if and only if a sink is still held, the queue is empty and the worker waits for a row |
| LedgerBridge.FlowRunFlushes | crates/ccteam-cli/src/flow.rs:120-173 | on every return path and in every interleaving the process gets past the bridge's drop with every row dealt with |
| LedgerBridge.OrdinaryRun | crates/ccteam-cli/src/flow_bridge.rs:93-236 | a run that reports, posts and ends in good order is allowed, and where it ends |
| SkillMigrationLaws.MigrationConserves | crates/ccteam-cli/src/commands.rs:3134-3205 | wherever the migration stops, no skill is lost, changed or written over, and nothing else in either directory changes |
| SkillMigrationLaws.RefusalMovesNothing | crates/ccteam-cli/src/commands.rs:3149-3188 | a refusal leaves the face untouched and at most creates the entity |
| SkillMigrationLaws.RefusedWith | crates/ccteam-cli/src/commands.rs:3082-3188 | which refusal each command reports for each thing in the way |
| SkillMigrationLaws.PreflightFinds | crates/ccteam-cli/src/commands.rs:3165-3188 | for a directory it is that of the first entry read that is no skill or whose name is taken |
| SkillMigrationLaws.MigrateSucceedsIff | crates/ccteam-cli/src/commands.rs:3136-3205 | success is decided by the project alone: every legacy entry a skill with a free name, in any reading order |
| SkillMigrationLaws.MergeableIsMigrated | crates/ccteam-cli/src/commands.rs:3188-3205 | such a project ends with both directories' skills in the entity and the link in place |
| SkillMigrationLaws.ResumesIff | crates/ccteam-cli/src/commands.rs:3136-3205 | stopping anywhere and rerunning in any order ends as one run if and only if no dangling name stands beside a movable skill |
| SkillMigrationLaws.MigratedIsSettled | crates/ccteam-cli/src/commands.rs:3082-3160 | a migrated project is a fixed point of both commands, which succeed |
| SkillMigrationLaws.EnsureIsSafe | crates/ccteam-cli/src/commands.rs:3082-3132 | ensure-project never touches a skill and succeeds exactly when nothing is left to migrate |
| SkillMover.Directories.MigrateProject | crates/ccteam-cli/src/commands.rs:3136-3205 | the command in place, with a failure at any point, carries out the plan up to there |
| SkillMover.MethodStopsWhereProven | crates/ccteam-cli/src/commands.rs:3136-3205 | what the command in place leaves is a state the theorems speak of |
| JobGc.AccountsBalance | crates/ccteam-core/src/claude_job.rs:369-390 | directories seen are removed plus the four kept counts; the count after is the count before less those really removed |
| JobGc.JobsDir.Gc | crates/ccteam-core/src/claude_job.rs:405-519 | the loop's counters tally its entries even when removals fail, none underflows, and only reading the directory can end it early |
| JobGc.JobsDir.Visit | crates/ccteam-core/src/claude_job.rs:440-516 | one directory's counters, bumped and taken back, agree with its final disposition |
| JobGcLaws.ClassifiedIff | crates/ccteam-core/src/claude_job.rs:525-566 | on the fields of the document and the directory's time: exactly which jobs are removable, working, unknown, recent or corrupt |
| JobGcLaws.WorkingIsKept | crates/ccteam-core/src/claude_job.rs:536-544 | a job whose `state`, or else `status`, says working, or that has neither, is left alone by every sweep |
| JobGcLaws.ReportedAs | crates/ccteam-core/src/claude_job.rs:487-508 | what each job is finally reported as, when its removal worked, failed or was not tried |
| JobGcLaws.ProbedIff | crates/ccteam-core/src/claude_job.rs:145-192 | on the fields of the document, what the probe says |
| JobGcLaws.EntriesInOrder | crates/ccteam-core/src/claude_job.rs:426-516 | the report lists the jobs read, once each and in the order they were read |
| JobGcLaws.DryRunForetells | crates/ccteam-core/src/claude_job.rs:405-519 | without failures a real run in any order removes exactly what the dry run at the same cutoff lists |
| JobGcLaws.DryRunChangesNothing | crates/ccteam-core/src/claude_job.rs:447-452 | a dry run changes nothing |
| JobGcLaws.SecondRunIsIdle | crates/ccteam-core/src/claude_job.rs:405-519 | after a sweep without failures a second at the same cutoff removes nothing |
| JobGcLaws.SecondRunFindsResidueOnly | crates/ccteam-core/src/claude_job.rs:487-508 | with failures a second sweep removes exactly the residues that still read as old terminal jobs |
| JobGcLaws.LongerRetentionRemovesLess | crates/ccteam-core/src/claude_job.rs:423 | a longer retention removes a subset, whatever fails |
| JobGcLaws.OthersAreKept | crates/ccteam-core/src/claude_job.rs:313-325 | jobs not classified removable are never touched |
| JobGcLaws.RemovesRunningIff | crates/ccteam-core/src/claude_job.rs:145-192 | a job the probe calls running is removed exactly when it is old, says killed and has no end mark |
| JobGcLaws.FinishedYetKeptIff | crates/ccteam-core/src/claude_job.rs:145-192 | a job the probe calls finished is kept at every cutoff if and only if its document cannot be read, or it has an end mark and a state that is not terminal, or its state is terminal, its end time unknown, and it is not killed without an end mark |
| LauncherLaws.ArgvIsSpelled | crates/ccteam-cli/src/daemon_cli.rs:125-151 | the command line, word by word |
| LauncherLaws.BareCommand | crates/ccteam-cli/src/main.rs:86-133 | what a command line without flags means, and which companions mean none |
| LauncherLaws.ValueIff | crates/ccteam-cli/src/main.rs:86-133 | a value is anything but a dash followed by something |
| LauncherLaws.RoundTripIff | crates/ccteam-cli/src/main.rs:86-133 | the daemon reads its command line back as its flags with the companion filled in if and only if no value looks like an option and the token path is not empty |
| LauncherLaws.ReplayNeverDrifts | crates/ccteam-cli/src/daemon_cli.rs:121-151 | after any number of replays the command line is the first one |
| LauncherLaws.CompanionIsNextPort | crates/ccteam-cli/src/daemon_cli.rs:182-202 | a derived companion reads back as port 0 beside 0, the next port otherwise, and fails after 65535 |
| LauncherLaws.CompanionBlamed | crates/ccteam-cli/src/daemon_cli.rs:163-202 | when there is no effective companion, and which bind is blamed |
| LauncherLaws.EffectiveIsStable | crates/ccteam-cli/src/daemon_cli.rs:163-180 | an effective companion is its own effective companion and survives as an argument |
| LauncherLaws.ReportedIff | crates/ccteam-cli/src/daemon_cli.rs:459-506 | a reported bind is a string under its key |
| LauncherLaws.ReplayIsFaithful | crates/ccteam-cli/src/daemon_cli.rs:459-506 | a replay is the record, or reads back as exactly the reported binds, off for an unreported companion, and no other flag |
| LauncherLaws.ReplayRefusedIff | crates/ccteam-cli/src/daemon_cli.rs:459-506 | a replay is refused exactly without a record and a reported bind, or with a companion nobody can bind |
| LauncherArgv.DaemonRunArgv | crates/ccteam-cli/src/daemon_cli.rs:125-151 | pushing the flags one by one gives the printed command line |
| RestartContract.StatusIff | crates/ccteam-cli/src/update.rs:215-264 | which status is said, on the answers of the outside, each both ways |
| RestartContract.OutcomeIs | crates/ccteam-cli/src/daemon_cli.rs:536-557 | what the restart reports and of whom |
| RestartContract.EffectsIff | crates/ccteam-cli/src/update.rs:215-264 | which effects there are: the drain, the signal, the exit, the start and who is said to serve |
| RestartContract.RefusalTouchesNothing | crates/ccteam-cli/src/update.rs:215-247 | down or refused, no process was signalled or started; down, not even the drain ran |
| RestartContract.DrainComesFirst | crates/ccteam-cli/src/update.rs:211-235 | at most one signal then one start of the replayed command line, both after the first probe and the drain unless skipped |
| RestartContract.RestartedIff | crates/ccteam-cli/src/update.rs:248-263 | Restarted is said exactly when a daemon serves and a probe after that, the last thing done, reports the expected version |
| RestartContract.RestartedByAnotherIff | crates/ccteam-cli/src/daemon_cli.rs:549-556 | Restarted is said with nothing started exactly when a stop that left nothing in the way is followed by an instance found serving and a probe with the expected version |
| RestartContract.RestartedByAnother | crates/ccteam-cli/src/daemon_cli.rs:549-556 | a witness of that case |
| RestartMachine.RunMeetsContract | crates/ccteam-cli/src/update.rs:205-264 | in every interleaving with daemons that appear, bind, remove the socket and exit, and with probes that go unanswered, a run that ends has the status the contract gives its answers |
| RestartMachine.RefusalLeavesTheHost | crates/ccteam-cli/src/update.rs:236-242 | a refused run, or one that found no daemon, has signalled nobody and the same daemons live and serve as without it |
| RestartMachine.RestartedSaw | crates/ccteam-cli/src/update.rs:248-256 | a run that says Restarted saw a serving daemon of the expected version that is not the one it stopped, which is gone |
| RestartMachine.ServesIff | crates/ccteam-cli/src/main.rs:2128-2150 | in every run after the stop, with daemons that take over a served socket, remove its path and exit, the child (or another daemon) serves at the end if and only if it served at the start and kept the socket or took it, free or not, and kept it |
| RestartMachine.RestartedIsOurs | crates/ccteam-core/src/daemon.rs:723-887 | the daemon the last probe saw is the updater's child, with the replayed command line and on record, if and only if no other daemon left serving kept the socket and none took it, free or from the child, for good since the stop |
| RestartMachine.RunRestartsOurs | crates/ccteam-cli/src/update.rs:215-264 | the same of every run from the beginning that says Restarted |
| RestartMachine.NobodyServes | crates/ccteam-cli/src/update.rs:218-220 | on a host where nobody serves the run is over at once |
| RestartMachine.NothingToReplay | crates/ccteam-cli/src/daemon_cli.rs:527-533 | with a daemon serving and nothing to replay it is refused with the host as it was |
| RestartMachine.NotManaged | crates/ccteam-core/src/daemon.rs:940-961 | with no live process on record it is refused, the record swept and nobody signalled |
| RestartMachine.Managed | crates/ccteam-core/src/daemon.rs:923-930 | else the process on record is asked to end, and its exit leads to the start |
| RestartMachine.FoundServing | crates/ccteam-core/src/daemon.rs:728-735 | the start takes another daemon found serving as it is |
| RestartMachine.ChildServes | crates/ccteam-core/src/daemon.rs:795-865 | else it starts a child with the replayed command line, on record, that the last probe sees once it binds |
| RestartMachine.ChildAwaited | crates/ccteam-core/src/daemon.rs:857-876 | the wait goes on while the child lives and ends in an error with the record swept when it is gone |
| RestartMachine.ProbedTooSlow | crates/ccteam-core/src/daemon.rs:474-492 | what an unanswered probe of a serving daemon leads to at each point |
| RestartMachine.FailedAt | crates/ccteam-cli/src/daemon_cli.rs:534-549 | a failing step is an error that leaves the host alone |
| RestartMachine.RestartedIsNotOurs | crates/ccteam-core/src/daemon.rs:728-735 | a run in which another daemon is found serving by the start and Restarted is said of it, nothing having been started |
| RestartMachine.StartedIsNotServing | crates/ccteam-core/src/daemon.rs:857-865 | a run in which another daemon binds after the start found the socket free: the recorded child is called started, and Restarted is said of the other |
| RestartMachine.TakenOver | crates/ccteam-cli/src/main.rs:2138-2140 | a run in which another daemon takes the socket over from the child after it was found ready, and Restarted is said of the other |
| RestartMachine.ErrorLeaves | crates/ccteam-cli/src/daemon_cli.rs:536-549 | in every run that got past the stop and ends in an error the stopped daemon is gone, nobody serves if and only if none left serving kept the socket and nobody took it for good, and the child serves only if waiting for it timed out |
| RestartMachine.ErrorYetServed | crates/ccteam-cli/src/daemon_cli.rs:548 | a run that ends in an error after the stop while another daemon serves |
| RestartContract.LeftDownIff | crates/ccteam-cli/src/daemon_cli.rs:536-549 | of what the verdicts say of daemons the last is the old one's exit, exactly when the stop succeeded and finding or starting the program failed; the status is then an error, never a refusal |
| RestartContract.Updater.RunContract | crates/ccteam-cli/src/update.rs:215-264 | the contract's status and effects, in order, for every answer of the outside |
| RestartContract.Updater.RestartManaged | crates/ccteam-cli/src/daemon_cli.rs:519-557 | the restart's outcome and effects for every verdict of stop and start |
| StartGate.OrdinaryStart | crates/ccteam-cli/src/main.rs:1811-1846 | the ordinary start: the bind wakes the waiting socket task |
| StartGate.ServesOnlyWhenOpen | crates/ccteam-cli/src/main.rs:1811-1846 | in every interleaving the socket serves only after the web listener was bound or the web task ended, or without a web task |
| StartGate.NoLostWakeUp | crates/ccteam-cli/src/main.rs:1939-1947 | once the gate is open, whenever the signal came, the socket task reaches serving by its own steps |
| StartGate.BlockedOnlyByWeb | crates/ccteam-cli/src/main.rs:2358-2368 | the gate waits only on a web task that neither binds nor ends, and its abort releases it |
| StartGate.WithoutAPermitItIsLost | crates/ccteam-web/src/lib.rs:385-387 | with a notification that keeps no permit, a listener bound before the socket waits leaves it closed in every run while the web task lives |
| StartGate.RunKeepsValid | crates/ccteam-cli/src/main.rs:1811-1846 | a task past the gate found it open, and an open gate holds a permit for a task still to come |
| CronRuns.FiresIff | crates/ccteam-core/src/cron.rs:15-20 | a later tick fires exactly when a slot lies after the tick before it, up to itself |
| CronRuns.RecordedIsFire | crates/ccteam-core/src/cron.rs:89-101 | what is recorded is the last tick that fired, or the first tick |
| CronRuns.NothingOwed | crates/ccteam-core/src/cron.rs:89-101 | after each tick no slot lies between the recorded fire and the tick |
| CronRuns.SlotIsCoveredOnce | crates/ccteam-core/src/cron.rs:15-20 | every slot after the first tick is covered by exactly one tick, which fires |
| CronRuns.FiresInjectIntoSlots | crates/ccteam-core/src/cron.rs:15-20 | fires correspond one to one, in order, to slots of their own; no backlog is replayed |
| CronRuns.Scheduler.Tick | crates/ccteam-core/src/cron.rs:81-101 | the state in place follows the run of ticks |
| AutoLoop.RoundTrip | crates/ccteam-core/src/auto_loop.rs:61-89 | what is written is read back with its prompt trimmed, whatever the prompt holds |
| AutoLoop.VerbatimIff | crates/ccteam-core/src/auto_loop.rs:5-8 | what is written is read back exactly as it was if and only if the prompt has no white space around it |
| AutoLoop.ParsedIff | crates/ccteam-core/src/auto_loop.rs:61-81 | which texts are refused and why, and where the others are cut |
| AutoLoop.DecidedIff | crates/ccteam-core/src/auto_loop.rs:98-123 | one decision: success with the signal, failure at the cap, else the same prompt with the next iteration |
| AutoLoop.FirstFence | crates/ccteam-core/src/auto_loop.rs:70-73 | the first closing fence of a written file is the one after its front matter |
| AutoLoop.LoopEnds | crates/ccteam-core/src/auto_loop.rs:98-123 | the loop retries to the first text with the signal or the cap, and succeeds exactly when the signal came no later than the cap |
| AutoLoop.FileLoopIsLoop | crates/ccteam-core/src/auto_loop.rs:5-8 | through any number of rewrites of the file the prompt re-fed is the trimmed original and the loop runs the same course |
| AutoLoop.StateFile.Stop | crates/ccteam-core/src/auto_loop.rs:98-109 | one stop reads, decides, and rewrites the file only on a retry |

## Left out

- Home script: `--dry-run`, file modes (`harden_secrets`) and messages; a missing home is the empty
  tree; the home holds no symbolic links and lies on one file system, so a move is one rename;
  tenant ids hold no `/`; writes go byte by byte but a directory is removed entry by entry in one
  fixed order.
- Log follower: truncation in place, reuse of an inode number after a file is gone, a failing
  `fstat`, seek or read, undecodable bytes, and the gap between the tail and the follower's open.
- LogFollow.FollowsExactlyOnce: assumes that only the file at the path is written to and that the
  file found on reopening is the next one; without either, `LossesIff` says exactly which runs
  lose bytes, and `ShowsWholeLogIff` which show the whole log.
- Library writer: two calls at once on one path (they share a temporary name), directories in the
  way (a failure like any other), and `write_skill`, `write_role`, `change_persona`.
- InstallBinary.NeverPartial: asks of each attempt that it removes a stale copy or finds it apart
  from the destination and the sources; `AtomicIff` says what happens otherwise. File modes are
  left out.
- Frontmatter: the validation of bot names and the temporary file under the rewrite.
- Ledger bridge: identity fields and times in rows, a poisoned brake lock, a worker that panics,
  and runners that keep a copy of the progress callback after returning.
- Skill migration: several processes at once, the creation of `.claude`, and a `.claude` that is
  itself a symbolic link.
- Job sweep: a retention so long that the date arithmetic overflows, and the cost fields of the
  probe.
- Launch command line: the `--flag=value` form and the global `--home`, which the printer never
  writes, and paths that are not Unicode.
- LauncherLaws.ReplayNeverDrifts: asks for forwardable flags, since for others `RoundTripIff` says
  the daemon does not start.
- HomeFate.LostIff: leaves `tenants.json` and the files the split writes to `TenantSurvivesIff` and
  `TenantFile`.
- HomeRelocation.TenantSurvivesIff: asks that no file was at the tenant's place before, and that
  different tenants print differently; `TenantFile` needs neither.
- Restart: legacy takeover, the installer itself, other launchers (the operation lock keeps them
  out), and reuse of a process id.
- CronRuns.FiresIff: asks for ticks that do not go back in time.
- Cron expressions, and the fix loop's slug and times, are opaque.
- Skill sources, text rendering, HTTP, sockets, processes and signals beyond the outcomes named
  above.
