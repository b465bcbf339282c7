# Verified models of the wiki's mirror and editors

This project models, in Dafny, the parts of the wiki where a mistake loses work: the mirror that keeps
a folder of Markdown files equal to a workspace, the service that keeps the mirror alive, the outline
and notes editors, the recipe importer, and the log ring buffer. Each loop or state-changing operation
is a method proved against a function of its inputs or of the state before it, and the promises the
system makes are lemmas about those functions: over every input, every run, every interleaving and
every place a process can die.

`dafny verify dfyconfig.toml` checks everything.

## What is modelled

**The mirror** (`Slugs`, `Forest`, `PathInjectivity`, `Attachments`, `Projection`, `Projector`,
`Reconciliation`, `Convergence`, `CrashSafety`, `MirrorRuns`, `ShortcutLimits`, `ViewRuns`, `FrozenRuns`,
`StrayFiles`, `Mirror`, `AssetLinks`, `Deltas`, `DeltaCrashes`; `Options` holds the optional values all modules use).
A workspace's history folds into a forest of pages. A page's file path is made of the slugs of its
ancestors, with siblings that slug alike told apart by a short id, folder pages as `index.md`, archived
pages in one flat directory, and optionally only one subtree mirrored. `MarkdownDiskProjector` brings a
folder to a fold through a persisted manifest; `Projection` says what each of its operations does as a
function of manifest and disk, and the class is proved to do it, file operation by file operation. On
top stand exact reconciliation, no churn, freezing of pages whose place the fold cannot tell,
convergence, what a crash between any two file operations can leave, and the incremental path against the
whole rebuild. Over whole runs of commits, boots, reconciles, crashes, edits from outside and checkouts that put
back an earlier manifest: the soundness of the already-current shortcut and exactly how far it goes, also when each
boot sees other page types, attachments or another subtree, freezing, and which files can be stranded.

**The service** (`ServerProbe`, `PaceRuns`, `RestartThrottle`, `Supervisor`). The probe follows how far
each tail lags behind the stream host; the throttle defers restarts and never drops one; the supervisor
retries a failed emitter and must not leak a subscription, even from a start that lands after it was
given up. Each is a step function over every interleaving, with the class proved to take those steps.

**The editors** (`Outline`, `OutlineMoves`, `Trimming`, `NoteDiff`, `NoteReplay`, `NoteDocument`,
`NoteRoundTrip`). A flat list of depths encodes a tree; the index arithmetic on it is shown to mean the
right thing on the tree, from the studio's button to the commands' effect. A list of notes is edited as
one document; the commands the diff emits are replayed on the stored notes, and splitting and joining
are shown to undo each other.

**The importer and the log** (`Recipe`, `RecipeLines`, `NoteOrder`, `LostLines`, `Logs`, `LogTails`). Every line of
a recipe file ends in exactly one place, and which of them reach neither the page nor the report is told exactly;
notes are ordered by date, stably, in their runs. The log's ring buffer numbers its records without a gap, and
readers and tails miss nothing they are not told of.

## Conventions

- SHA-256 is injective: the digest of a content stands for that content.
- A path is the sequence of its segments; the text joins them with slashes.
- File operations are atomic: each one happens or the process has died.
- Line patterns of the importer, dates and titles are marks on a line; a line is known by its number.
- Clocks, timers, downloads and answers of the host are parameters of the steps that observe them.

## Where the code falls short of its promises

Each is proved: a case that fails, and exactly when the code keeps the promise.

- Two pages can share a file: a leaf titled `Index` under another page, or a sibling whose plain slug
  spells another's disambiguated one (`PathInjectivity.LeafNamedIndexCase`, `PathInjectivity.PlainMeetsSuffixedCase`,
  `PathInjectivity.MintedPathsDifferExactly`). With ids of other shapes than the engine's, two disambiguated slugs
  or two archived names can also come out the same (`PathInjectivity.PathsDifferExactly`).
- Two pages that change places, or any page that takes another's old path: when the process dies between the two
  writes the mirror holds the other page neither where it was nor where it belongs (`CrashSafety.SwappedPagesCase`, `CrashSafety.NoPageIsLostExactly`).
- A boot with page types missing applies the head as it sees it and claims it. The comment on `rebuild` promises
  that a later rebuild converges; the already-current exit puts that off until the next commit
  (`ShortcutLimits.UnknownTypeCase`, `ShortcutLimits.LaterFoldExactly`).
- An attachment that could not be downloaded is to be picked up on a later reconcile; the same exit puts that off
  until the next commit too (`ShortcutLimits.MissedDownloadCase`, `ShortcutLimits.LateDownloadExactly`).
- A manifest that claims the head is believed: one that lists nothing takes the exit over an empty folder
  (`ShortcutLimits.EmptyManifestExits`, `ShortcutLimits.SafeManifestExactly`).
- A reconcile that dies strands what it has written, untracked, and nothing removes it until a page is expected
  at its path or refers to it (`StrayFiles.CrashStrandsExactly`, `StrayFiles.StraysStayInRuns`).
- A delta that writes a page at a path it also removes deletes the new file and keeps it tracked
  (`Deltas.DeltaAgreesExactly`), until the next boot notices it (`DeltaCrashes.SavedDeltaHealsExactly`). This is a
  failure of the public method: the callers in this repository send commits that create, move or archive pages to
  a whole rebuild.
- A note typed before all the others is appended at the end, although the comment on `diffNotes` says the
  document always comes out right (`NoteReplay.ReplayReadsExactly`); the next save of the same document puts it
  right (`NoteRoundTrip.SecondSaveMends`).
- The pace tracker can forgive two moves of the offset for one reconcile, so that a tail dead since is never
  reported; from a level round it always is (`PaceRuns.SecondMoveIsForgiven`, `PaceRuns.EveryAlarmExactly`).
- `retryNow` in the middle of an attempt leaks a subscription (`Supervisor.RetryNowKeepsExactly`). This too is a
  failure of the public method, which nothing in this repository but a test calls.
- The description of `moveSection` says a move never leaves a skipped heading level; clamping the block does not
  help the section behind it (`OutlineMoves.SkippedLevelCase`, `OutlineMoves.RelocationKeepsExactly`).
- The importer promises that nothing is ever dropped; a label with nothing after it that takes it reaches neither
  the page nor the report (`LostLines.TrailingLabelCase`, `LostLines.LostExactly`).
- A filtered live tail filters its backlog only (`LogTails.FilterHonouredExactly`).
- The comment on `restart` says a restart too soon after the last is dropped; the code defers it, and the
  model follows the code (`RestartThrottle.NothingDropped`).

## Model

| member | source | states |
|---|---|---|
| Slugs.SlugifyFixesSlugs | wiki-mirror/src/markdown-projection.ts:95-103 | slugging is stable: a slug is its own slug, so re-slugging a path segment changes nothing |
| Slugs.SlugifyLowered | wiki-mirror/src/markdown-projection.ts:95-103 | a title that is a slug up to letter case keeps its spelling |
| Slugs.ShortIdIsLocalPart | wiki-mirror/src/markdown-projection.ts:105-108 | the short id of an id is its local part, dashes and all, if and only if the local part is a slug |
| Slugs.EvenDashesSplit | wiki-mirror/src/markdown-projection.ts:140-151 | a disambiguated slug splits in one way only into a slug and a short id with a given number of dashes |
| Slugs.ArchivedNamesDiffer | wiki-mirror/src/markdown-projection.ts:219-221 | two ids of file-name characters around one colon, with equally many dashes behind it, never share an archived file |
| Slugs.StampedIsMinted | wiki/src/core/structure.ts:240 | a page type, a colon and a time, counter and random number in base 36, joined by dashes, are an id the engine makes |
| Slugs.MintedIsSafe | wiki/src/core/wiki.ts:116-125 | such an id is safe for file names, its local part is its short id, and that holds exactly two dashes |
| Slugs.MintedArchivedNamesDiffer | wiki-mirror/src/markdown-projection.ts:219-221 | so two pages with ids the engine makes never share an archived file |
| Forest.EffectivelyArchived | wiki-mirror/src/markdown-projection.ts:120-132 | the walk upward says exactly whether the workspace, the page or an ancestor on its line is archived, on any parent relation, cyclic or broken |
| Forest.HasReliablePath | wiki-mirror/src/markdown-projection.ts:162-174 | true exactly when the page's path is keyed by id or its chain of ancestors is whole |
| Forest.InSubtree | wiki-mirror/src/markdown-projection.ts:252-264 | membership in the subtree, and unknown exactly when the chain breaks before the root is met |
| Forest.SlugsUpward | wiki-mirror/src/markdown-projection.ts:234-244 | the walk collects the slugs of the ancestors below the subtree root, outermost first, and ends on every parent relation |
| Forest.PageRelPath | wiki-mirror/src/markdown-projection.ts:231-246 | the page's path: archive area, subtree index, folder index or leaf |
| Forest.PathsStayUnderRoot | wiki-mirror/src/markdown-projection.ts:219-246 | whatever titles and ids are, no segment of a folded page's path is empty, a dot entry or holds a slash |
| PathInjectivity.SiblingSlugsDiffer | wiki-mirror/src/markdown-projection.ts:134-151 | siblings with distinct short ids of equally many dashes can only share a slug as a plain one spelling a suffixed one |
| PathInjectivity.PathsDifferExactly | wiki-mirror/src/markdown-projection.ts:134-151 | on an acyclic fold with any ids, mirrored pages have distinct paths if and only if none of four families occurs: a leaf that slugs to index under a mirrored page, a plain slug that spells a sibling's disambiguated one, two disambiguated slugs that run together, two archived names that do |
| PathInjectivity.MintedRulesOut | wiki-mirror/src/markdown-projection.ts:140-151 | ids the engine makes rule out the last two |
| PathInjectivity.MintedPathsDifferExactly | wiki-mirror/src/markdown-projection.ts:134-151 | with ids the engine makes, mirrored pages have distinct paths if and only if no leaf slugs to index under a mirrored page and no plain slug spells a sibling's disambiguated one |
| PathInjectivity.LiveOutsideArchive | wiki-mirror/src/markdown-projection.ts:223-246 | live pages never land in the archive or asset directory |
| PathInjectivity.LeafNamedIndexCase | wiki-mirror/src/markdown-projection.ts:231-246 | two pages with ids the engine makes, one titled Index under the other, that share one file |
| PathInjectivity.PlainMeetsSuffixedCase | wiki-mirror/src/markdown-projection.ts:140-151 | three siblings at the top with ids the engine makes, two on one slug and a third whose slug is that slug and the second's short id: the last two share one file |
| PathInjectivity.ThreeTitles | wiki-mirror/src/markdown-projection.ts:140-151 | any three pages with distinct minted ids make such a workspace |
| PathInjectivity.SuffixedMeetCase | wiki-mirror/src/markdown-projection.ts:140-151 | four siblings, two on one slug and two on that slug and a word, share a file when one short id is another behind that word |
| PathInjectivity.UnevenIds | wiki-mirror/src/markdown-projection.ts:105-108 | ids with local parts of uneven shape have such short ids |
| PathInjectivity.ArchivedMeetCase | wiki-mirror/src/markdown-projection.ts:219-221 | two ids, of which one has dashes in its type and the other in its local part, with one archived name |
| PathInjectivity.IndexSlug | wiki-mirror/src/markdown-projection.ts:95-103 | the title of the first case: Index slugs to index |
| PathInjectivity.SpelledOutTitles | wiki-mirror/src/markdown-projection.ts:95-103 | titles of the three siblings: a slug, the same in capitals, and the slug with the short id spelled out |
| Attachments.AssetPathsDiffer | wiki-mirror/src/markdown-projection.ts:674-679 | distinct digests have distinct asset files |
| Attachments.RelativeLeadsBack | wiki-mirror/src/markdown-projection.ts:655-690 | a relative link followed from its own directory leads back to its target |
| Projection.ExpectedAreMirrored | wiki-mirror/src/markdown-projection.ts:486-505 | nothing but mirrored pages is expected, each at its own path with its own body |
| Projection.DownloadsExactly | wiki-mirror/src/markdown-projection.ts:632-693 | a rebuild downloads exactly the digests its pages refer to that are served and not tracked yet |
| Projection.ExpectedOutsideAssets | wiki-mirror/src/markdown-projection.ts:223-246 | page paths and asset paths never meet |
| Projector.MarkdownDiskProjector.Init | wiki-mirror/src/markdown-projection.ts:329-374 | a loaded manifest keeps exactly the entries the disk bears out, and its version only when all of them are and layout and scope match |
| Projector.MarkdownDiskProjector.WriteIfChanged | wiki-mirror/src/markdown-projection.ts:596-619 | writes and records a content exactly when its digest is not the recorded one |
| Projector.MarkdownDiskProjector.RemoveFiles | wiki-mirror/src/markdown-projection.ts:696-703 | every given file is gone from the disk, no other file and no manifest touched, whatever the order |
| Projector.MarkdownDiskProjector.Sort | wiki-mirror/src/markdown-projection.ts:486-505 | the expected files and the frozen pages of a fold, in the fold's order |
| Projector.MarkdownDiskProjector.MaterializeAssets | wiki-mirror/src/markdown-projection.ts:632-693 | downloads each fresh digest once, tracks it, and links every reference that can be resolved |
| Projector.MarkdownDiskProjector.Reconcile | wiki-mirror/src/markdown-projection.ts:480-574 | folder and manifest become what `Projection` computes; its operations are the writes, then the removal of every orphan, then the save of the new manifest exactly when more than its version changed |
| Projector.MarkdownDiskProjector.Rebuild | wiki-mirror/src/markdown-projection.ts:467-574 | a whole reconcile; when the subtree root is gone it refuses and touches nothing |
| Projector.MarkdownDiskProjector.ApplyDelta | wiki-mirror/src/markdown-projection.ts:403-442 | the delta's documents written, the removed pages' files removed, manifest and disk as the incremental function says; its operations are those writes, those removals, then the save of the new manifest exactly when something was written or removed |
| Reconciliation.RebuildIsExact | wiki-mirror/src/markdown-projection.ts:467-574 | from any manifest that agrees with the disk: it agrees again, expected files are in place, other tracked files are gone, and untracked files elsewhere are untouched |
| Reconciliation.TrackedExactly | wiki-mirror/src/markdown-projection.ts:521-553 | what is tracked afterwards, path by path: expected pages, the assets they refer to, and what frozen pages keep |
| Reconciliation.ReconcilesExactly | wiki-mirror/src/markdown-projection.ts:467-574 | with distinct paths every mirrored page ends at its own path with its own body and entry |
| Reconciliation.FrozenPagesStay | wiki-mirror/src/markdown-projection.ts:162-174 | a frozen page whose path no reliable page claims keeps its entry, file and assets byte for byte |
| Reconciliation.DisplacedIsForgotten | wiki-mirror/src/markdown-projection.ts:529-547 | a frozen page whose path a reliable page claims loses its entry and its assets |
| Reconciliation.NothingStranded | wiki-mirror/src/markdown-projection.ts:521-553 | no previously tracked file is left both on disk and untracked |
| Convergence.RepeatIsQuiet | wiki-mirror/src/markdown-projection.ts:555-573 | repeating a rebuild downloads, writes, removes and records nothing |
| Convergence.FullRebuildIsImage | wiki-mirror/src/markdown-projection.ts:467-574 | with nothing frozen and every attachment served the next manifest depends on the expected pages alone |
| Convergence.RebuildStaysHonest | wiki-mirror/src/markdown-projection.ts:632-693 | a tracked asset always carries the digest of the bytes served for it |
| Convergence.RoundTripRestoresTheTree | wiki-mirror/src/markdown-projection.ts:486-553 | full, then any other rebuild, partial or with pages archived, then full again gives the same owned tree as full alone |
| CrashSafety.RebuildWritesReplay | wiki-mirror/src/markdown-projection.ts:507-534 | the recorded writes, replayed, are the disk the rebuild computes |
| CrashSafety.RebuildWritesLand | wiki-mirror/src/markdown-projection.ts:507-534 | nothing a rebuild writes is written over later in it |
| CrashSafety.CrashWhileWriting | wiki-mirror/src/markdown-projection.ts:507-553 | dying among the writes, nothing is gone, and every path is as before or as it will be |
| CrashSafety.CrashWhileRemoving | wiki-mirror/src/markdown-projection.ts:541-574 | dying among the removals, every write has landed and only doomed files are gone |
| CrashSafety.OldFileGivesWayToNew | wiki-mirror/src/markdown-projection.ts:521-574 | whenever the process dies, an expected page is on disk with its new body, or its old file is untouched or holds what the rebuild put there |
| CrashSafety.NoPageIsLostExactly | wiki-mirror/src/markdown-projection.ts:521-574 | wherever the process dies every expected page that had a file has its new body in place or its old file untouched, if and only if no page written earlier takes, with another content, the old path of a page that still has to move |
| CrashSafety.SwappedPagesCase | wiki-mirror/src/markdown-projection.ts:521-527 | two pages change places: after the first write no path holds the second page's body |
| MirrorRuns.RunKeeps | wiki-mirror/src/mirror.ts:137-160 | over every run of commits of any folds, boots, reconciles, crashes, stops, outside edits and checkouts of earlier manifests, a manifest that claims a version tracks each of its served pages with the final content, and its whole image when that version folds whole |
| MirrorRuns.ShortcutIsSound | wiki-mirror/src/mirror.ts:137-145 | in every run, whenever the already-current exit is taken and the head folds whole, its image is on disk byte for byte and nothing outside it is tracked |
| MirrorRuns.ShortcutPages | wiki-mirror/src/mirror.ts:137-145 | in every run, whatever is frozen or missing elsewhere, when the exit is taken each mirrored page whose own attachments are served is at its path with its final body |
| MirrorRuns.BootAndReconcileHeal | wiki-mirror/src/markdown-projection.ts:329-374 | from any state a run can reach, one boot and one reconcile bring every served page of the head to disk, and the whole image when the head folds whole |
| ShortcutLimits.SafeManifestExactly | wiki-mirror/src/markdown-projection.ts:329-374 | for a head that folds whole: a persisted manifest is safe over every state of the files if and only if it is foreign, claims less than the head, or tracks the head's image |
| ShortcutLimits.SafePageExactly | wiki-mirror/src/markdown-projection.ts:329-374 | for any head: a served page is brought back over every state of the files if and only if the manifest is foreign, claims less than the head, or records that page's final content |
| ShortcutLimits.EmptyManifestExits | wiki-mirror/src/mirror.ts:137-145 | an edited manifest that lists nothing and claims the head takes the exit over an empty folder |
| ShortcutLimits.LaterFoldExactly | wiki-mirror/src/markdown-projection.ts:451-455 | after a rebuild of the head with types missing, the next boot and reconcile leave a page right if and only if, before that rebuild, the fold it saw expected a page at that path with the same final content, or the file was right already and untracked or kept by a page it froze |
| ShortcutLimits.UnknownTypeCase | wiki-mirror/src/markdown-projection.ts:451-455 | one page, its type missing at the first boot: the folder stays empty at the second |
| ShortcutLimits.LateDownloadExactly | wiki-mirror/src/markdown-projection.ts:655-678 | after a rebuild that missed downloads, the next boot and reconcile leave a page right if and only if each of its attachments was tracked or served at that rebuild |
| ShortcutLimits.MissedDownloadCase | wiki-mirror/src/markdown-projection.ts:663-671 | one page, its attachment unserved at the first boot: the bare reference stays at the second |
| ViewRuns.ViewsKeep | wiki-mirror/src/mirror.ts:137-160 | over every run in which each boot may fold the history with other page types, serve other attachments or mirror another subtree: a manifest that claims a version shows it as some process so far saw it, and its assets are genuine |
| ViewRuns.ExitShowsSomeView | wiki-mirror/src/mirror.ts:137-145 | in every such run, what is tracked and on disk when the exit is taken is the head as some process so far saw it |
| ViewRuns.ExitPageExactly | wiki-mirror/src/mirror.ts:137-145 | so a page is right then if and only if that process saw the same final content for its path, wherever it saw a page it could serve whole |
| ViewRuns.RebuildShowsThisView | wiki-mirror/src/markdown-projection.ts:451-455 | a reconcile that does rebuild shows the head as the present process sees it: the next commit mends what the exit put off |
| FrozenRuns.FrozenPagesStayInRuns | wiki-mirror/src/markdown-projection.ts:529-547 | over whole runs with crashes anywhere, a page every rebuilt fold freezes keeps its entry, its file and its assets byte for byte, unless a reliable page is expected at their paths |
| StrayFiles.RunStaysSynced | wiki-mirror/src/markdown-projection.ts:329-374 | in every run the process tracks exactly what a boot would load |
| StrayFiles.RebuiltStrayExactly | wiki-mirror/src/markdown-projection.ts:521-553 | after a rebuild an untracked file is on disk exactly where there was one that no page of the head is at or refers to |
| StrayFiles.CrashStrandsExactly | wiki-mirror/src/markdown-projection.ts:521-573 | any write of a reconcile can be its last, and then strands its file if and only if the saved manifest does not record that content |
| StrayFiles.StraysComeFromCrashes | wiki-mirror/src/markdown-projection.ts:521-573 | over whole runs without outside edits, an untracked file was there from the start or was written by a reconcile that died |
| StrayFiles.StraysStayInRuns | wiki-mirror/src/markdown-projection.ts:548-554 | and such a file stays as it is until a page is expected at its path or refers to it |
| Mirror.WorkspaceMirror.ReconcileOnce | wiki-mirror/src/mirror.ts:137-161 | one pass is the reconcile step of the runs: empty history, already current, title fold, or a rebuild to the head |
| Mirror.WorkspaceMirror.Reconcile | wiki-mirror/src/mirror.ts:126-135 | the pass with its time recorded when it went well and its error when it did not |
| Mirror.WorkspaceMirror.Kick | wiki-mirror/src/mirror.ts:120-123 | the live trigger does nothing once stopped |
| AssetLinks.LinksLeadToAssets | wiki-mirror/src/markdown-projection.ts:507-519 | in a written page every resolvable reference is a link that leads from the page's directory to the tracked asset, and every other token is as rendered |
| AssetLinks.AssetSurvivesExactly | wiki-mirror/src/markdown-projection.ts:515-553 | a tracked asset survives the sweep if and only if a written page refers to it or a kept frozen page lists it |
| Deltas.DeltaAgreesExactly | wiki-mirror/src/markdown-projection.ts:403-442 | a delta keeps manifest and disk in step if and only if it writes no page where it removes one |
| Deltas.RecreatedPageIsDeleted | wiki-mirror/src/markdown-projection.ts:410-437 | a page born at the path of a page removed in the same delta is written, deleted and still tracked |
| Deltas.DeltaRefinesRebuild | wiki-mirror/src/markdown-projection.ts:403-442 | for a content commit the incremental path ends with the same files, entries and disk as the whole rebuild |
| DeltaCrashes.DyingInDelta | wiki-mirror/src/markdown-projection.ts:410-441 | wherever the process dies in a delta: before the last write every path holds what it held or the body of a document that lies there; then all is written and only removed pages' files are gone |
| DeltaCrashes.SavedDeltaHealsExactly | wiki-mirror/src/markdown-projection.ts:329-374 | after a saved delta the next boot and reconcile leave a served page right if and only if the manifest is foreign or behind the head, the delta deleted a file it had written, or the page's final content is recorded or lies there untracked |
| ServerProbe.PerWorkspace | wiki-mirror/src/server-probe.ts:269-287 | one summary a workspace: connected if any entry is, and as current as its least recently reconciled connected entry |
| ServerProbe.SummaryIsOrderFree | wiki-mirror/src/server-probe.ts:264-287 | the summary does not depend on the order of the entries |
| ServerProbe.Probe.TrackPace | wiki-mirror/src/server-probe.ts:177-203 | the workspace's next entry and the alarm it raises |
| ServerProbe.Probe.Record | wiki-mirror/src/server-probe.ts:205-218 | the host's state after a round, and recovered exactly on the way back to health |
| ServerProbe.Probe.TrackAll | wiki-mirror/src/server-probe.ts:163-174 | every workspace takes its own step, no other entry changes, and the last failure is the round's verdict |
| ServerProbe.Probe.Round | wiki-mirror/src/server-probe.ts:152-175 | a whole round: entries, alarms, verdict, and the catalog's answer when nothing is configured |
| PaceRuns.NoFalseAlarm | wiki-mirror/src/server-probe.ts:177-203 | if round gap, snapshot, HEAD and reconcile delay together fit the threshold, a tail that keeps pace is never called wedged |
| PaceRuns.AlarmExactly | wiki-mirror/src/server-probe.ts:186-202 | over rounds with one move of the offset, a round the threshold after the anchor raises the alarm and reports the workspace stuck if and only if no round so far shows a reconcile stamped since the anchor |
| PaceRuns.StillTailAlarmExactly | wiki-mirror/src/server-probe.ts:186-202 | for a tail whose stamp stands still the snapshot of the move decides |
| PaceRuns.EveryAlarmExactly | wiki-mirror/src/server-probe.ts:177-203 | in every run: a round raises the alarm if and only if some move, blamed at least the threshold ago with healthy rounds since, is unanswered so far |
| PaceRuns.WedgeIsDetected | wiki-mirror/src/server-probe.ts:186-202 | once the offset moved past a tail that does not reconcile, every later round the threshold after the anchor raises the alarm |
| ServerProbe.Probe.Reset | wiki-mirror/src/server-probe.ts:113-115 | forgets every workspace |
| ServerProbe.Probe.Workspace | wiki-mirror/src/server-probe.ts:140-149 | stuck exactly when a blame has stood for the threshold |
| PaceRuns.LevelRoundDetects | wiki-mirror/src/server-probe.ts:140-203 | from a level round without a later reconcile the alarm is due within the threshold, and the workspace reported stuck from then on |
| PaceRuns.SecondMoveIsForgiven | wiki-mirror/src/server-probe.ts:188-198 | without the level round the alarm may never come: one reconcile answers for two moves of a tail that had reconciled before |
| RestartThrottle.RunKeeps | wiki-mirror/src/main.ts:163-189 | over every interleaving at most one restart is in flight, and it is the one recorded |
| RestartThrottle.StartsAreSpaced | wiki-mirror/src/main.ts:166-188 | any two restarts start at least the minimum interval apart |
| RestartThrottle.NothingDropped | wiki-mirror/src/main.ts:163-189 | until close, a request is absorbed by the restart in flight, or one has started since, or the timer stands armed |
| RestartThrottle.DueTimerStarts | wiki-mirror/src/main.ts:171-181 | a timer firing when due finds or starts a restart, unless another began since it was armed |
| RestartThrottle.ClosedLeavesNothing | wiki-mirror/src/main.ts:191-220 | once close has resolved no supervisor is listed or going, no engine open, no timer armed, no restart in flight |
| RestartThrottle.EmittersListed | wiki-mirror/src/main.ts:163-223 | over every interleaving in which nothing a restart waits for throws, a serving service with no restart under way lists the supervisors made last, one for each emitter, with its engine open, every earlier engine shut and every earlier supervisor stopped |
| RestartThrottle.MirrorService.Restart | wiki-mirror/src/main.ts:163-189 | the request's effect on the service |
| RestartThrottle.MirrorService.DeferredFires | wiki-mirror/src/main.ts:174-178 | the deferred timer's effect |
| RestartThrottle.MirrorService.DoRestart | wiki-mirror/src/main.ts:204-223 | a restart resumed after each of its waits, well or badly ended, and stopped by close |
| RestartThrottle.MirrorService.TearDown | wiki-mirror/src/main.ts:191-202 | close waits for the restart in flight before it stops the emitters |
| RestartThrottle.MirrorService.CloseEngine | wiki-mirror/src/main.ts:191-202 | close ends by closing the engine |
| Supervisor.RunKeeps | wiki-mirror/src/supervisor.ts:109-195 | unless stopped, exactly one of running, attempt in flight, timer armed holds; the k-th failure in a row waits the k-th delay, the last for ever after |
| Supervisor.StoppedHoldsNothing | wiki-mirror/src/supervisor.ts:109-165 | after stop, with no attempt under way, no mirror holds a subscription, nor will one that lands late |
| Supervisor.RetryNowKeepsExactly | wiki-mirror/src/supervisor.ts:119-127 | retryNow keeps the supervisor whole if and only if it was stopped or had no attempt under way |
| Supervisor.ImpatientRetryLeaks | wiki-mirror/src/supervisor.ts:119-165 | from any moment an attempt waits for its start, an early retryNow can end stopped with a subscription held |
| Supervisor.EmitterSupervisor.Resume | wiki-mirror/src/supervisor.ts:137-172 | an attempt resumed after each of its waits |
| Supervisor.EmitterSupervisor.ScheduleRetry | wiki-mirror/src/supervisor.ts:187-195 | the next wait, or none once stopped |
| Supervisor.EmitterSupervisor.RetryNow | wiki-mirror/src/supervisor.ts:119-127 | drops the pending timer and attempts at once; nothing while running or stopped |
| Supervisor.EmitterSupervisor.Stop | wiki-mirror/src/supervisor.ts:109-117 | cancels the timer and stops the running mirror |
| Supervisor.EmitterSupervisor.StartLands | wiki-mirror/src/mirror.ts:68-80 | a start that lands on a stopped mirror hands its subscription straight back |
| Outline.SubtreeRange | wiki-ui/lib/outline.ts:24-32 | the range holds exactly the section and everything under it |
| Outline.SubtreeIds | wiki-ui/lib/outline.ts:35-38 | the ids of that range |
| Outline.AncestorIds | wiki-ui/lib/outline.ts:41-51 | on any outline, the sections met by climbing from the section to the nearest one a level up, and so on; on a well-formed one the chain of parents, outermost first |
| Outline.ClimbIsUnique | wiki-ui/lib/outline.ts:41-51 | there is only one such climb |
| Outline.ChainIsAncestors | wiki-ui/lib/outline.ts:24-51 | in a well-formed outline that chain is exactly the sections whose subtree strictly contains this one, at depths 0, 1, 2 and so on |
| Outline.HiddenByCollapse | wiki-ui/lib/outline.ts:76-87 | a section is hidden if and only if some ancestor of it is collapsed |
| Outline.IndentKeepsExactly | wiki-ui/lib/outline.ts:62-66 | for a section no slot pins, indenting its subtree skips no level if and only if canIndent says so |
| Outline.OutdentKeeps | wiki-ui/lib/outline.ts:68-70 | outdenting a subtree never skips a level |
| Outline.OutdentUndoesIndent | wiki-ui/lib/outline.ts:62-70 | outdenting undoes an indent |
| Outline.SiblingMoveTarget | wiki-ui/lib/outline.ts:96-123 | no target exactly when there is no sibling that way; otherwise lifting the subtree and putting it there swaps two adjacent siblings' subtrees |
| OutlineMoves.MoveKeepsSections | wiki-ui/lib/outline.ts:89-123 | a sibling move loses, adds and changes no section |
| OutlineMoves.MoveKeepsUniqueIds | wiki-ui/lib/outline.ts:89-123 | ids stay unique |
| OutlineMoves.MoveKeepsWellFormed | wiki-ui/lib/outline.ts:89-123 | a sibling move skips no heading level |
| OutlineMoves.MoveKeepsAncestry | wiki-ui/lib/outline.ts:89-123 | every section keeps exactly the ancestors it had |
| OutlineMoves.UpUndoesDown | wiki-ui/lib/outline.ts:89-123 | down then up is the identity, and up is possible |
| OutlineMoves.DownUndoesUp | wiki-ui/lib/outline.ts:89-123 | up then down is the identity |
| OutlineMoves.SiblingMoveIsNotClamped | wiki-models/src/spec-restatement/spec-restatement.ts:849-857 | a sibling move never has its depth clamped |
| OutlineMoves.RelocationKeepsExactly | wiki-models/src/spec-restatement/spec-restatement.ts:841-857 | a move to any place skips no heading level if and only if the section behind the landing is at most one deeper than the block's last section after clamping |
| OutlineMoves.SkippedLevelCase | wiki-models/src/spec-restatement/spec-restatement.ts:831-836 | levels 0, 1, 2, 0, the last moved before the third: a level is skipped |
| OutlineMoves.MoveSection | wiki-models/src/spec-restatement/spec-restatement.ts:841-857 | the command refuses a place past the last; otherwise its element moves give the order of the clamped block move, and every section of the block lands risen by the same number of levels, the one it returns |
| OutlineMoves.MoveSubtreeOps | wiki-models/src/spec-restatement/spec-restatement.ts:262-274 | the element moves, performed in order, are the block move, to the clamped target |
| OutlineMoves.MoveSibling | wiki-ui/components/RestateStudio.tsx:1738-1745 | from the studio's target to the commands' effect: the section's block changes places with its sibling's |
| NoteDiff.DiffNotes | wiki-ui/lib/article-notes.ts:95-131 | the loops compute the planned edits: head and tail matched, the middle revised, then added or removed |
| NoteReplay.ReplayReadsExactly | wiki-ui/lib/article-notes.ts:80-131 | the commands all succeed and what comes out reads as the document, with the matched ends unchanged, if and only if no single new note was put before all the stored ones |
| NoteReplay.PrependedGoesLast | wiki-ui/lib/article-notes.ts:121-127 | in that case the new first note ends up last |
| NoteReplay.QuietExactlyWhenUnchanged | wiki-ui/lib/article-notes.ts:95-131 | nothing is sent if and only if nothing changed |
| NoteReplay.EachNoteOnce | wiki-ui/lib/article-notes.ts:113-130 | each stored note is revised or removed at most once, and nothing else is |
| NoteReplay.PerformAt | wiki-models/src/article/article-notes.ts:113-178 | what revise, anchored add and remove do to the note they name |
| NoteDocument.CutUndoesJoin | wiki-ui/lib/article-notes.ts:47-70 | cutting at blank lines undoes joining solid blocks with one |
| NoteDocument.BreakStaysInside | wiki-ui/lib/article-notes.ts:59-64 | a blank line that starts in a trimmed block ends in it, whatever follows |
| NoteRoundTrip.SplitNoteDocument | wiki-ui/lib/article-notes.ts:59-77 | the loop groups the document's blocks into notes |
| NoteRoundTrip.SplitIsNormal | wiki-ui/lib/article-notes.ts:59-77 | whatever is split comes out normal: solid blocks, only list items and quotes hung on a predecessor |
| NoteRoundTrip.SplitUndoesJoin | wiki-ui/lib/article-notes.ts:47-77 | splitting undoes joining on every normal list |
| NoteRoundTrip.SplitTwice | wiki-ui/lib/article-notes.ts:47-77 | splitting, joining and splitting again gives what splitting once gave |
| NoteRoundTrip.SecondSaveIsQuiet | wiki-ui/lib/article-notes.ts:47-131 | after a replayed diff, saving the same document, or the one the stored notes make, emits no edits |
| NoteRoundTrip.SecondSaveMends | wiki-ui/lib/article-notes.ts:47-131 | for every document, a note put in front included: the second save of it always leaves notes that read as the document, and the third sends nothing |
| Recipe.BlocksOf | scripts/import-recipes.ts:208-222 | the loop cuts the lines into blocks |
| Recipe.CutAtSeparatorsOnly | scripts/import-recipes.ts:208-222 | blocks are cut at separators and nowhere else |
| Recipe.BlocksKeepLines | scripts/import-recipes.ts:208-222 | the blocks hold every line but the separators, in order |
| Recipe.ParseRecipe | scripts/import-recipes.ts:472-603 | the block loop computes the parse |
| Recipe.ParseBlock | scripts/import-recipes.ts:473-603 | one block: metadata out, then notes, labels, ingredients, commentary or steps |
| RecipeLines.FileLineConservation | scripts/import-recipes.ts:436-626 | every kept line stands in exactly one place, label, block, note, reference, url or yield, the label still pending at the end included, and nothing else stands anywhere |
| LostLines.EveryLineAccounted | scripts/import-recipes.ts:540-687 | every kept line is on the page, or in the report alone as a label thrown out or the heading of a blank note, or it is the label still pending, as often as it stands in the file |
| LostLines.PendingExactly | scripts/import-recipes.ts:540-603 | a label is pending at the end if and only if its block has nothing that takes it and every later block passes it by |
| LostLines.LostExactly | scripts/import-recipes.ts:22-25 | a line that stands once in the file reaches neither the page nor the report if and only if it is such a label |
| LostLines.TrailingLabelCase | scripts/import-recipes.ts:22-25 | a file that is a label with nothing behind it: the label is lost |
| RecipeLines.EverythingFits | scripts/import-recipes.ts:472-603 | links, embeds, yields, labels and headings stand only where they belong, and no step stands without ingredients |
| RecipeLines.NotesAreFinal | scripts/import-recipes.ts:502-516 | once notes began, nothing but notes is added |
| RecipeLines.NoUnnamedNote | scripts/import-recipes.ts:518-535 | notes that start at a heading never need the unnamed fallback note |
| RecipeLines.StepBodies | scripts/import-recipes.ts:636-642 | the bodies are the block's lines in order, one a line when all are finished sentences and one in all otherwise |
| NoteOrder.OrderNotes | scripts/import-recipes.ts:650-687 | the loops compute the ordered notes without the blank ones, and the attached references |
| NoteOrder.NotesInOrder | scripts/import-recipes.ts:644-671 | a stable date-sorted permutation; undated notes stay behind the dated one they followed, and those before the first date in front |
| NoteOrder.ReorderedExactly | scripts/import-recipes.ts:661-671 | the order changes if and only if dates were out of order, and once ordered it stays |
| Logs.TruncatedExactly | wiki-server/src/logger.ts:225-227 | truncated holds if and only if a record past since was evicted |
| Logs.UntruncatedReadIsWhole | wiki-server/src/logger.ts:217-234 | an untruncated read without limit returns every matching record ever logged, in order |
| Logs.LimitSkipsExactly | wiki-server/src/logger.ts:228-232 | a limited read and the one chained to it return everything if and only if no more matched than the limit, or the limit is 0 |
| Logs.ChainedReadsAreGapFree | wiki-server/src/logger.ts:217-234 | a reader chaining since := next receives every matching record once, in order, unless told truncated |
| LogTails.Logger.Emit | wiki-server/src/logger.ts:162-194 | the next sequence number, the buffer an unbroken end of everything logged, one eviction exactly when full, and every tail fed: each open tail has written its backlog and then exactly the live records since it was opened |
| LogTails.Logger.ReadHistory | wiki-server/src/logger.ts:217-234 | the history read of the spec |
| LogTails.Logger.TailLogs | wiki-server/src/control.ts:234-258 | subscribes, then flushes the backlog; the tail it opens joins those that every later emit keeps complete |
| LogTails.TailIsGapFree | wiki-server/src/control.ts:244-258 | an unfiltered tail delivers backlog and live records exactly once in increasing order |
| LogTails.TailWrites | wiki-server/src/control.ts:246-258 | what any tail writes: its filtered backlog, then every live record past since |
| LogTails.FilterHonouredExactly | wiki-server/src/control.ts:246-258 | a filtered tail keeps to its filter if and only if every live record past since happens to match |

## Left out

- The wiki engine (folding, rendering, registry, workspace handles): folds, rendered bodies and histories are inputs.
- Real file systems, HTTP, event streams, timers and launch agents: only their effect, as steps and parameters.
- Letter case beyond ASCII in slugs, and collisions of SHA-256.
- Several workspaces mirrored into one root, and two projectors racing on one root.
- A file operation that fails while the process lives on: operations succeed or the process dies.
- Edits to the mirrored folder while the process is up, temporary files, pruning of empty directories.
- MirrorRuns.ShortcutIsSound: the image of a head that folds whole; of other heads `MirrorRuns.ShortcutPages` promises each served page, since what is frozen or missing depends on the past.
- Served attachments that change while one process runs: they change at boots (`ViewRuns`); bytes served for a digest never change.
- An attachment whose extension changes between two downloads: a digest has one extension.
- A Markdown body and an attachment with the very same bytes: they count as different contents.
- Sections are named by an index of the list, as the studio calls the outline functions.
- The text of a rendered body: it is a sequence of characters, attachment references and links.
- The queue that serializes passes of one mirror and of one root: each pass is one step.
- Deltas.DeltaRefinesRebuild: stated for bodies without attachments and for commits that move no untouched page, the case the incremental path is for.
- Probe rounds that overlap, the probe's timer, and delivery of events to several listeners.
- A service closed while it is still starting: the throttle begins once started.
- A restart that throws: nothing a restart waits for does, and a rejection would end the process.
- A retry delay list that is empty; the clock running backwards is allowed.
- NoteReplay.ReplayReadsExactly: stated for notes that are already trimmed, which is what splitting produces.
- The regular expressions of the importer, the text of titles, quantities and units: marks on a line.
- Bullet and number marks taken off step and note lines; a step body is the lines it is made of.
- The text of the import report, and the batch of commands a parsed recipe becomes.
- Subscribers that throw, console output, and the fields bag of a log record.
- Status pages, catalog cache, configuration and flags, the React studios and the summary and source readers.
