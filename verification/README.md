# infer_stack: a verified model

infer_stack serves language models from a catalog of endpoints. This project models the parts of it that keep state
or make decisions, and proves what they promise over every input, every run and every reachable state.

* **The log pane.** A container's raw output is cut into lines with at most one redraw shown per interval
  (`log_splitter.dfy`); registered LiteLLM tracebacks are reduced to what they say (`log_filter.dfy`), and every step
  of that is restated on the lines themselves (`log_filter_steps.dfy`); worker threads and the UI thread share a
  queue, a bounded backlog and a stream generation (`log_pump.dfy`).
* **The dashboard's tables.** An incremental fill patches a table against a cache of the last rows, while selection
  clicks repaint the marker column behind the cache's back (`row_table.dfy`).
* **KubeAI.** A render decides which deployment gets which Model and profile (`kube_profiles.dfy`, `kube_render.dfy`;
  on the fields of what goes in and comes out, `kube_render_fields.dfy`), converge writes it to two files, apply sends
  it to the cluster and prunes (`kube_apply.dfy`), and an eviction chooser decides what may be stopped for a blocked
  Model (`kube_reclaim.dfy`).
* **Documents.** The `.env` rewriter (`env_file.dfy`; character by character, `env_file_lines.dfy`), the recursive
  merge (`config_merge.dfy`), refresh selection and manifest additions (`catalog_refresh.dfy`, `quant_suffix.dfy`), and
  the command a TUI action logs against the editor that would run it (`endpoint_command.dfy`, `catalog_names.dfy`;
  option by option, `endpoint_command_fields.dfy`).
* **The demo game.** Characters, what its engines share, trades and fights (`characters.dfy`, `game.dfy`, `trade.dfy`,
  `combat.dfy`; a round at a time, `combat_rounds.dfy`).

Regular expressions, Unicode tables, YAML, JSON, shell words, number parsing, the clock, kubectl's failures, the
gateway's answers, dice and the choices of players are parameters: the theorems hold for every one of them. Where the
source is imperative, a method with loops or a class with the source's fields is proved equal to a function of its
inputs or old state, and the theorems are about that function. The theorems whose names end in `Exactly` or `Meaning`
say what a decision comes to on the data it reads, without the functions that take it; `string_meaning.dfy` does this
for the string operations they share. Nothing was executed.

## What the proofs found

* `deep_merge` is not associative in general; `ConfigMerge.AssociativeExactly` says exactly where it is.
* Collapsing the log pane (`_terminate_logs`) does not clear the backlog: the next tick still draws it, exactly when
  it is not empty (`LogPump.TerminatedBacklogIsDrawn`; `LogPump.TerminatedBacklogExample` is a run in which it happens).
* A finished release or eviction clears the selection set without repainting, and the next fill of unchanged rows
  leaves the tick mark on a row nobody selected (`RowTable.StaleMarkExample`); `RowTable.MarkersAfterFill` says
  exactly when a fill leaves the markers right.
* The manifest and the sidecar are two files. A crash between the two writes makes the next apply delete the Model it
  has just applied (`KubeApply.TornRenderDeletesItsOwnModel`); `KubeApply.ExactlyTheRender` says exactly when an apply
  leaves the render.
* A write to an `.env` file that ends in two blank lines and already has every key drops one of them each time it is
  repeated (`EnvFile.SecondWriteExactly`, `EnvFile.SecondWriteExample`), and a value with white space at its end does
  not come back (`EnvFile.ValuesSurviveExactly`, `EnvFile.LastSpaceIsLost`).
* Replaying a logged `catalog endpoint add` is "unchanged" only when the stored entry names its engine; the default
  engine left unsaid is a refusal naming `engine` (`EndpointCommand.UnnamedEngineRefused`), for an entry with only a
  model already (`EndpointCommand.UnnamedEngineExample`).
* A logged command can be one the parser refuses. Extra arguments such as `['--dtype=half']` are printed as a word of
  their own after `--extra_args`, which the parser reads as another option (`EndpointCommand.DashedExtraIsRefused`,
  `EndpointCommand.DashedExtraExample`); `EndpointCommand.ReplayFailsExactly` says exactly when this happens.
* Runtime text that is not YAML, such as `@x`, makes printing the command raise, so nothing is logged
  (`EndpointCommand.UnreadableTextIsNotLogged`).
* The trade engine's last check, that the dealer can complete the trade, can never fail
  (`Trade.OfferedTradesComplete`).
* The flag that says the bandit was spared is set as soon as he yields, also when he is then killed
  (`Combat.KilledBanditIsSpared`), exactly then for a flag not set otherwise (`Combat.BanditSparedExactly`).

## Model

| member | source | states |
|---|---|---|
| LogFilter.StreamIsReference | infer_stack/log_filter.py:274-344 | for every line sequence the three-mode machine outputs what a whole-input cut into idle lines, complete, interrupted, oversize and unfinished segments gives, reducing only known complete ones |
| LogFilter.CutIsUnique | infer_stack/log_filter.py:287-344 | any list of well-shaped segments that covers the input is that cut, and only it |
| LogFilter.AfterAgrees | infer_stack/log_filter.py:287-340 | after any prefix, what was yielded and what the mode still owes make up the reference for any continuation |
| LogFilter.EveryLineAccounted | infer_stack/log_filter.py:233-239 | after each consumed line, consumed lines are the emitted, the dropped and the buffered ones, and only header, blank or indented lines of a LiteLLM service are dropped |
| LogFilter.BufferIsBounded | infer_stack/log_filter.py:217-222 | at most 512 lines and 256 KiB are held after each line, a lone header aside, and line counts balance |
| LogFilter.ByteBoundExactly | infer_stack/log_filter.py:296-298 | the byte bound is exceeded exactly while one oversize header is all that is held |
| LogFilter.OtherLinesUnchanged | infer_stack/log_filter.py:303-331 | any selection of lines that cannot be scaffolding, another service's for one, comes out as it went in |
| LogFilter.OutputIsSubsequence | infer_stack/log_filter.py:274-344 | the output is the input with lines left out, never reordered or invented |
| LogFilter.RegistryOnlyRemoves | infer_stack/log_filter.py:266-271 | a registry that recognises more follows the same trajectory of modes and only removes more lines, from what was yielded so far and from the whole output |
| LogFilter.MorePatternsOnlyRemove | infer_stack/log_filter.py:266-271 | registering more patterns, before or after the others, only removes lines from the whole output |
| LogFilter.EmptyRegistryIsIdentity | infer_stack/log_filter.py:266-271 | with nothing registered the filter is the identity |
| LogFilter.CompactTracebacks | infer_stack/log_filter.py:274-344 | the loop over a pending buffer and a passthrough service yields the whole-input reference |
| LogFilter.HoldLine | infer_stack/log_filter.py:303-340 | the body run while a segment is pending takes the same step as the machine, in the buffer object |
| LogFilter.TracebackBuffer.constructor | infer_stack/log_filter.py:207-210 | a buffer opens with its header line and that line's bytes |
| LogFilter.TracebackBuffer.Add | infer_stack/log_filter.py:212-215 | one entry at the end, its bytes added |
| LogFilter.BufferMeaning | infer_stack/log_filter.py:217-239 | the buffer's size test, text, raw lines and compacted lines are those of the raw lines it holds |
| LogFilter.MatchPattern | infer_stack/log_filter.py:52-57 | a pattern is found exactly when some registered one fits both the terminal line and all fragments, and the one found fits |
| LogFilterSteps.NearMissIsReplayed | infer_stack/log_filter.py:52-57 | a complete segment is yielded as it came when every registered pattern refuses its terminal message or asks for a fragment that stands nowhere in its messages |
| LogFilterSteps.KnownIsReduced | infer_stack/log_filter.py:233-239 | when one registered pattern accepts the terminal message and finds all its fragments, exactly the header, blank and indented lines of the service are gone |
| LogFilterSteps.TerminalStep | infer_stack/log_filter.py:324-337 | after any input, a terminal line ends the held segment, and which of the two happens is decided by the patterns alone |
| LogFilterSteps.BufferStep | infer_stack/log_filter.py:303-340 | a line that ends nothing is held up to 512 lines and 262144 bytes, and the line that goes past either yields all that was held |
| LogFilterSteps.HeaderStep | infer_stack/log_filter.py:308-315 | a second header yields what was held and is held itself |
| LogFilterSteps.IdleStep | infer_stack/log_filter.py:296-301 | while idle, exactly a traceback header of a service whose lower-case name has litellm in it is held |
| LogFilterSteps.PassingStep | infer_stack/log_filter.py:288-294 | an oversize tail passes whole, and its first terminal-looking line ends it |
| LogFilterSteps.ParseMeaning | infer_stack/log_filter.py:242-259 | a line is a record exactly when a bar follows a service in it; one space after the bar is dropped |
| LogFilterSteps.TextIsTranscript | infer_stack/log_filter.py:224-227 | the text patterns look at is the messages of the lines that have one, joined by newlines |
| LogSplitter.ReadsCutAsOne | infer_stack/log_filter.py:374-395 | for any chunking, the buffer scan cuts what one character-by-character pass over the arrivals cuts; a read boundary can only part a CR from its LF |
| LogSplitter.UnlimitedIsWholeText | infer_stack/log_filter.py:374-399 | with a non-positive interval and a monotone clock, all that is shown is the non-blank LF and CR fields of the whole text, for any chunking |
| LogSplitter.LineEndsAlwaysShown | infer_stack/log_filter.py:382-395 | for any interval and clock, every non-blank LF-ended field is shown, and every CRLF line met in one buffer |
| LogSplitter.OnlyRedrawsLimited | infer_stack/log_filter.py:386-394 | the limit never touches a piece that does not end in a bare CR |
| LogSplitter.ShownInOrder | infer_stack/log_filter.py:382-395 | nothing blank is shown, and nothing twice or out of order |
| LogSplitter.RedrawsSpaced | infer_stack/log_filter.py:389-393 | each shown redraw is dated by the clock and comes at least one interval after the last |
| LogSplitter.RedrawRate | infer_stack/log_filter.py:389-393 | whatever pieces arrive, when k of those shown end in a bare CR, the clock readings of the first and the last of them are at least k - 1 intervals apart |
| LogSplitter.PiecesAreFields | infer_stack/log_filter.py:374-399 | blank lines aside, the pieces and the rest are the fields of the text, wherever its reads ended |
| LogSplitter.NextPieceExactly | infer_stack/log_filter.py:382-394 | after any pieces, the next non-blank one is left out exactly when it ends in a bare CR and a redraw was shown less than an interval before the clock reading taken for it; a shown redraw is dated by the reading after that |
| LogSplitter.ScanExactly | infer_stack/log_filter.py:376-390 | a buffer is cut after its first LF, CRLF or bare CR, and nowhere without one |
| LogSplitter.LineSplitter.Feed | infer_stack/log_filter.py:374-395 | the loop returns the shown lines of the scan of the old buffer and the new text, keeps its rest and moves the limiter accordingly |
| LogSplitter.LineSplitter.Flush | infer_stack/log_filter.py:397-399 | the rest is emitted unless blank, and forgotten |
| LogSplitter.Pump | infer_stack/leasing/instances.py:278-296 | a container's chunks through one splitter show the whole-input reference |
| LogPump.EveryRunIsGood | infer_stack/tui.py:2330-2460 | over every interleaving of appends from any generation, ticks, restarts and terminations: while a stream is current its lines are the drawn ones with each notice expanded, then the backlog, then its pending lines; the pane holds the newest 2000 to 4000 |
| LogPump.NoStaleLineDrawn | infer_stack/tui.py:2330-2345 | every line drawn since a restart is a line of the stream that restart began, at its own position |
| LogPump.TickIsBounded | infer_stack/tui.py:2442-2460 | a tick draws at most 200 lines and one notice |
| LogPump.TenQuietTicksShowAll | infer_stack/tui.py:2442-2460 | ten ticks after a current stream's last line, every one of its lines has been drawn or counted in a notice |
| LogPump.TerminatedBacklogIsDrawn | infer_stack/tui.py:2388-2393 | the tick after a termination draws exactly when the backlog was not empty |
| LogPump.TerminatedBacklogExample | infer_stack/tui.py:2388-2393 | 201 lines, a tick and a termination: the next tick draws the terminated stream's last line |
| LogPump.DrainAccounts | infer_stack/tui.py:2442-2460 | what a tick draws, with lost lines counted in, and what it leaves are what was waiting |
| LogPump.CollectedAppend | infer_stack/tui.py:2445-2451 | emptying the queue in two goes keeps and counts the same lines as in one |
| LogPump.TickExactly | infer_stack/tui.py:2442-2460 | after any run, a tick gives up the waiting lines beyond the newest 2000 and counts them in one notice, draws the next 200 oldest first and leaves the rest; the pane is cut to 2000 lines once past 4000 |
| StringMeaning.DecimalSpells | infer_stack/tui.py:2456-2456 | the number in the notice is written in its decimal digits |
| LogPump.Pump.Drain | infer_stack/tui.py:2442-2460 | with workers appending while it empties the queue, a tick leaves the state and draws the batch that the lines it saw call for |
| LogPump.Pump.Restart | infer_stack/tui.py:2330-2345 | a new generation, an empty backlog, count and pane; the queue is left to be sifted |
| LogPump.Pump.Resume | infer_stack/tui.py:2350-2358 | a restart that writes the newest 2000 lines of the pane again |
| LogPump.Pump.Terminate | infer_stack/tui.py:2388-2393 | only the generation moves |
| LogPump.Pump.WriteLines | infer_stack/tui.py:2431-2434 | the pane's lines, cut back to the newest 2000 once past 4000 |
| RowTable.FillShows | infer_stack/tui.py:2020-2055 | columns in step with the cache show the new rows after any fill; with all columns in step the fill is a clear-and-rebuild |
| RowTable.FirstFillRebuilds | infer_stack/tui.py:2037-2054 | over rows whose ids all differ from the cached ones, the loading placeholder for one, a fill rebuilds |
| RowTable.CellsAlwaysFresh | infer_stack/tui.py:2057-2096 | over every interleaving of fills, clicks and forgotten selections, every cell but the marker shows the last fill's items |
| RowTable.MarkersAfterFill | infer_stack/tui.py:2057-2072 | the markers are right after a fill exactly when the ids changed or no row's mark was stale |
| RowTable.ClicksAndFillsRebuild | infer_stack/tui.py:2711-2750 | without forgotten selections the table is the rebuilt one, cell for cell, after any clicks and fills |
| RowTable.MountedRuns | infer_stack/tui.py:2057-2096 | from the mounted leases and deployments tables on, every run shows the last fill's items, and without forgotten selections is the rebuilt table |
| RowTable.FillsOverLoading | infer_stack/tui.py:1326-1338 | over a loading note, the table shows the last poll's rows once a first poll is in, an empty one included |
| RowTable.StaleMarkExample | infer_stack/tui.py:3863-3900 | a concrete run in which a forgotten selection leaves its mark on screen |
| RowTable.ClickExactly | infer_stack/tui.py:2723-2750 | a plain click clears the selection, a ctrl click toggles its row, a shift click adds the rows from the anchor to its row without a gap; the anchor moves with the first two only; a row that is not there changes nothing |
| RowTable.RefillKeeps | infer_stack/tui.py:2057-2060 | a fill keeps exactly the selected ids that are still listed |
| RowTable.DiffFill | infer_stack/tui.py:2020-2055 | the in-place fill of the table object has the effect of the fill on (cells, cache), including which cells are left as they are |
| RowTable.PatchRow | infer_stack/tui.py:2043-2047 | exactly the cells that differ from the cache are redrawn |
| RowTable.RepaintMarks | infer_stack/tui.py:2711-2721 | only column 0 changes, and it shows the selection on the rows there are |
| KubeProfiles.SizesMeaning | infer_stack/backends/kubeai.py:262-287 | a profile has a size exactly when it names labels that some reporting node carries, and the size is the smallest such memory |
| KubeProfiles.PickIsSmallest | infer_stack/backends/kubeai.py:290-319 | the profile chosen by size is the smallest that fits, then the first by name, and one is chosen exactly when one fits |
| KubeProfiles.ChosenNodesAreLargeEnough | infer_stack/backends/kubeai.py:262-319 | every reporting node the chosen profile selects has at least the requested memory |
| KubeProfiles.LargerRequestLargerProfile | infer_stack/backends/kubeai.py:290-319 | raising the request never chooses a smaller profile and never turns a miss into a hit |
| KubeProfiles.PickForgetsOrder | infer_stack/backends/kubeai.py:306-319 | the order the sizes were read in does not matter |
| KubeProfiles.SizedProfiles | infer_stack/backends/kubeai.py:262-287 | the loops compute the sizes of the profiles in name order |
| KubeRender.RenderOfPermutation | infer_stack/backends/kubeai.py:341-419 | the render is the same for every order of the deployments |
| KubeRender.RenderIsExact | infer_stack/backends/kubeai.py:341-419 | deployments split exactly into those with one Model each and those with one error each; names are unique, and a contested name is the oldest eligible deployment's |
| KubeRender.YoungerOnlyExtends | infer_stack/backends/kubeai.py:357-419 | adding a younger deployment only extends the documents, the name map, the errors and the unrenderable |
| KubeRender.RequestsGoToYoungest | infer_stack/backends/kubeai.py:416-419 | an endpoint's request name is that of the youngest rendered deployment serving it |
| KubeRender.SkippedSizingIsHarmless | infer_stack/backends/kubeai.py:930-960 | when nothing asks for sizing, rendering without sizes equals rendering with any |
| KubeRender.TranslationKeepsProfile | infer_stack/leasing/launch.py:100-117 | translating a recipe never takes away or changes the profile a runtime names |
| KubeRenderFields.ModelCarries | infer_stack/backends/kubeai.py:290-319 | a rendered Model carries the profile its runtime names; with none named and memory asked for, that of a least size that suffices if there is one; else the default |
| KubeRenderFields.ModelsLandOnLargeNodes | infer_stack/backends/kubeai.py:262-319 | from nodes to manifest: a Model sized by memory can only land on reporting nodes with at least that memory |
| KubeRenderFields.DocsExactly | infer_stack/backends/kubeai.py:341-419 | the documents are those of the deployments that can be served and are the oldest of all that can be under their name, each with its fields |
| KubeRenderFields.RefusalsExactly | infer_stack/backends/kubeai.py:360-407 | every error names a deployment and the reason it was refused for, and a deployment has an error exactly when it has no document |
| KubeRenderFields.RequestsExactly | infer_stack/backends/kubeai.py:416-419 | an endpoint is routed to the Model of the youngest deployment that has one and serves it |
| KubeRenderFields.ReasonsExactly | infer_stack/backends/kubeai.py:313-319 | the rule that chose is noted for exactly the deployments that can be served, name taken or not |
| KubeRenderFields.TranslationExactly | infer_stack/leasing/launch.py:100-117 | key by key: what the runtime sets wins over the recipe, and the cache flag is added to an environment that lacks it |
| KubeRenderFields.SizesExactly | infer_stack/backends/kubeai.py:262-287 | a profile has a size exactly when it names labels, and then the least memory a node with all of them reports |
| KubeRenderFields.SizingNeededExactly | infer_stack/backends/kubeai.py:930-937 | the cluster is read exactly when a deployment asks for memory and its runtime names no profile |
| KubeRender.RenderModels | infer_stack/backends/kubeai.py:341-419 | the loop over a bookkeeping object computes the render |
| KubeRender.RenderOne | infer_stack/backends/kubeai.py:359-418 | one turn of the loop refuses or accepts the deployment as judged |
| KubeApply.ConvergeThenApply | infer_stack/backends/kubeai.py:993-1150 | over any state, an approved converge and an apply that ran leave exactly the render's names, and `observe` is the desired deployments minus the unrenderable |
| KubeApply.EveryApplyLeavesTheRender | infer_stack/backends/kubeai.py:993-1150 | over every history of converges, applies, teardowns and outside changes, an apply that ran leaves exactly the Models last rendered, each with its deployment |
| KubeApply.ExactlyTheRender | infer_stack/backends/kubeai.py:1105-1150 | an apply that ran leaves exactly the manifest's Models if and only if the sidecar names them all and names no other managed Model |
| KubeApply.RanLeaves | infer_stack/backends/kubeai.py:1116-1150 | the managed Models left are the sidecar's names that were there or were rendered |
| KubeApply.DeletionsAreSafe | infer_stack/backends/kubeai.py:1135-1147 | however an apply ends, it deletes only managed Models the sidecar does not name, and behind a gateway only after their routes were retired |
| KubeApply.WantedSurvive | infer_stack/backends/kubeai.py:1105-1150 | however an apply ends, a managed Model the sidecar names is still managed |
| KubeApply.ForeignModelsUntouched | infer_stack/backends/kubeai.py:692-716 | a Model without the managed label that the manifest does not name is never changed |
| KubeApply.RefusalDeletesNothing | infer_stack/backends/kubeai.py:1137-1142 | when the gateway refuses to let routes go, nothing is deleted and every rendered Model is on the cluster |
| KubeApply.SecondApplyDeletesNothing | infer_stack/backends/kubeai.py:1105-1150 | a second apply finds nothing to delete and leaves the cluster as it is |
| KubeApply.DiskStaysConsistent | infer_stack/backends/kubeai.py:993-1042 | over any history the manifest and the sidecar stay of one render |
| KubeApply.ObservedDeployments | infer_stack/backends/kubeai.py:1292-1298 | a cluster with exactly the rendered Models is observed as exactly the renderable deployments |
| KubeApply.TornRenderDeletesItsOwnModel | infer_stack/backends/kubeai.py:1020-1027 | with the manifest written and the sidecar not, an apply deletes what it has just applied |
| KubeApply.ApplyExactly | infer_stack/backends/kubeai.py:1105-1150 | how an apply ends for each way the world lets it: when it raises, when it reports a refusal, which Models are then gone, and that otherwise its result is the gateway's |
| KubeApply.StaleExactly | infer_stack/backends/kubeai.py:1135-1143 | the Models to delete are the managed ones on the cluster that the sidecar does not name, each once, by name |
| KubeApply.TearDownExactly | infer_stack/backends/kubeai.py:1391-1399 | a teardown deletes the managed Models by name as far as it gets, and the gateway goes down when all are gone |
| KubeApply.KubeaiBackend.Converge | infer_stack/backends/kubeai.py:993-1042 | both files are the new render's when approved and then the gateway converges; nothing changes when not approved, and the cluster never does |
| KubeApply.KubeaiBackend.ApplyRender | infer_stack/backends/kubeai.py:1105-1150 | the steps over cluster, routes and events have the effect and the result the failures of that apply call for |
| KubeApply.KubeaiBackend.Down | infer_stack/backends/kubeai.py:1391-1399 | when no call fails, no managed Model is left, every other one stays and the gateway goes down last; a failing listing changes nothing, and a failing delete leaves the rest and the gateway |
| KubeReclaim.CandidatesExactly | infer_stack/backends/kubeai.py:1235-1279 | an idle deployment is a candidate exactly when it has a pod on an eligible node requesting a short resource |
| KubeReclaim.CandidatesForgetPodOrder | infer_stack/backends/kubeai.py:1235-1279 | the order and repetition of the listed pods never change the answer, unknown eligibility included |
| KubeReclaim.NobodyHelps | infer_stack/backends/kubeai.py:1256-1273 | once eligibility is unknown for any blocked pod short of capacity, or nothing is short or eligible, no one is stopped |
| KubeReclaim.LooserSpecFitsMore | infer_stack/backends/kubeai.py:487-549 | more tolerations and fewer selector labels never make a node ineligible |
| KubeReclaim.TaintsOnlyShrink | infer_stack/backends/kubeai.py:487-549 | a further taint keeps a node eligible exactly when tolerated, and one that does not block changes nothing |
| KubeReclaim.EligibleExactly | infer_stack/backends/kubeai.py:487-549 | eligibility is unknown exactly under another scheduler, a required affinity or a forbidding spread; else a node is eligible exactly when schedulable, labelled as asked, and each NoSchedule or NoExecute taint has a toleration whose effect is unset or equal and that exists for its key or any, or equals its key and value |
| KubeReclaim.CandidatesOnFields | infer_stack/backends/kubeai.py:1235-1279 | the candidates are, in order, the idle deployments with a pod that requests what an Unschedulable, False condition calls short on a node that can host such a pod; none when such a pod's eligibility is unknown |
| KubeReclaim.EligibleNodes | infer_stack/backends/kubeai.py:502-549 | the loop finds the nodes a pod could run on, or says it cannot know |
| KubeReclaim.ReclaimCandidates | infer_stack/backends/kubeai.py:1235-1279 | the loops return the candidates in idle order, and nothing when the cluster cannot be read |
| KubeReclaim.ReadPod | infer_stack/backends/kubeai.py:1258-1271 | one blocked pod's conditions add its shortage and its eligible nodes, or make eligibility unknown for good |
| EnvFile.ValuesSurviveExactly | infer_stack/env_utils.py:7-107 | every written value is read back exactly when each is one line without white space at its end |
| EnvFile.WriteThenRead | infer_stack/env_utils.py:7-107 | what is read after a write is the old data with the written values laid over it, ends stripped, duplicate lines included |
| EnvFile.UnmanagedLinesStay | infer_stack/env_utils.py:65-107 | every line that assigns no written key is still there, in its place |
| EnvFile.RewriteIsIdempotent | infer_stack/env_utils.py:65-107 | rewriting the lines with the same values changes nothing |
| EnvFile.SecondWriteExactly | infer_stack/env_utils.py:65-107 | a second write leaves the text alone unless the file ended in two blank lines and already had every key |
| EnvFile.SecondWriteExample | infer_stack/env_utils.py:65-107 | `A=1` and two blank lines: the second write of `A` shortens the text |
| EnvFile.LastSpaceIsLost | infer_stack/env_utils.py:7-107 | every one-line value that ends in a space comes back without it |
| EnvFile.RemoveUndoesAppend | infer_stack/env_utils.py:65-126 | removing keys a write appended gives back the old lines, less one trailing blank |
| EnvFileLines.CommentsSayNothing | infer_stack/env_utils.py:16-18 | exactly the lines that are blank, start with a hash or have no equals sign, white space aside, are read as nothing, and none is taken for an assignment |
| EnvFileLines.CommentsStay | infer_stack/env_utils.py:65-87 | every such line is still in its place after a write |
| EnvFileLines.EntryExactly | infer_stack/env_utils.py:16-21 | a line reads as the key before its first equals sign, stripped, and all that follows it |
| EnvFileLines.ReadLineExactly | infer_stack/env_utils.py:51-62 | the rewriter takes a line for an assignment when the reader does and the key is not empty and has no white space in it |
| EnvFileLines.RewriteExactly | infer_stack/env_utils.py:78-90 | a write puts key=value in place of every line that reads as one of its keys, leaves all others, and appends the keys no line had, in order |
| EnvFileLines.RemovedExactly | infer_stack/env_utils.py:110-118 | removing keys takes the assignments to them and no other line |
| EnvFileLines.TextExactly | infer_stack/env_utils.py:92-94 | the text is each line followed by a newline, a blank last one left out |
| EnvFileLines.SplitExactly | infer_stack/env_utils.py:51-51 | a text is split after its first line break, a carriage return and newline counting as one |
| EnvFile.TextRoundTrip | infer_stack/env_utils.py:41-107 | lines joined and split again are the lines less one trailing blank |
| EnvFile.ParseEnvFile | infer_stack/env_utils.py:7-22 | the loop reads the file's assignments, later ones winning |
| EnvFile.WriteEnvFile | infer_stack/env_utils.py:65-107 | the loops write the rewritten lines followed by the keys not seen |
| EnvFile.RemoveEnvKeys | infer_stack/env_utils.py:110-126 | the loop drops exactly the assignments of the keys, and leaves a missing file alone |
| ConfigMerge.AssociativeExactly | infer_stack/config.py:237-244 | the merge of three trees is associative exactly when, wherever a mapping of the first meets a leaf of the second and then a mapping of the third, the third decides all of the first's mapping |
| ConfigMerge.AgreeingTreesAssociate | infer_stack/config.py:237-244 | trees whose shared paths agree on mapping against leaf associate, at any depth |
| ConfigMerge.NotAssociative | infer_stack/config.py:237-244 | a mapping, a leaf and a mapping for which the two orders differ |
| ConfigMerge.EmptyIsIdentity | infer_stack/config.py:237-244 | the empty mapping is the identity on both sides |
| ConfigMerge.MergeAbsorbs | infer_stack/config.py:237-244 | laying the same document over again changes nothing |
| ConfigMerge.MergeIsRightExactly | infer_stack/config.py:237-244 | the right side wins outright exactly when it covers the left |
| ConfigMerge.MergeAt | infer_stack/config.py:237-244 | path by path and at any depth: the right side decides every path it has or cuts off, all others lead where they led, and two mappings give one with the keys of both |
| ConfigMerge.DeepMerge | infer_stack/config.py:237-244 | the loop over the right side's keys, assigning into a copy, computes the merge and terminates |
| QuantSuffix.StripIsFixpoint | infer_stack/experimental/model_catalog_discover.py:260-271 | no known token is left at the end, whatever the order or repetition of the tokens, and stripping again changes nothing |
| QuantSuffix.StripKeepsPrefix | infer_stack/experimental/model_catalog_discover.py:260-271 | only a suffix is ever taken |
| QuantSuffix.StripExactly | infer_stack/experimental/model_catalog_discover.py:260-271 | a dot, underscore or dash and a known token come off the end, whatever their case, and nothing else does |
| QuantSuffix.StripKnownQuantSuffix | infer_stack/experimental/model_catalog_discover.py:260-271 | the loop that restarts after each removal reaches that fixpoint |
| CatalogRefresh.SelectionIsSound | infer_stack/experimental/model_catalog_discover.py:517-606 | the selected repositories are distinct, none is in the manifest or rejected, and no author, family and quantization exceeds the cap |
| CatalogRefresh.LanesAreBest | infer_stack/experimental/model_catalog_discover.py:582-606 | whoever is left out ranks after everyone taken in its lane, and only when the lane is full |
| CatalogRefresh.LaneOfSelected | infer_stack/experimental/model_catalog_discover.py:582-606 | each lane of the selection is the first `limit` of that lane in global rank order |
| CatalogRefresh.LeftOutIsNoBetter | infer_stack/experimental/model_catalog_discover.py:582-606 | a candidate left out of a lane has no more bucket hits than one taken; with as many, no higher score; then no more downloads, no more likes, no later creation date |
| CatalogRefresh.SelectionExactly | infer_stack/experimental/model_catalog_discover.py:582-606 | the unquantized come first, each lane is as long as the limit and the accepted allow and sorted best first; without a limit all accepted are |
| CatalogRefresh.OfferExactly | infer_stack/experimental/model_catalog_discover.py:562-580 | the next hit of any refresh is skipped, rejected, merged with its score raised, capped by its siblings, or accepted |
| CatalogRefresh.HitsActExactly | infer_stack/experimental/model_catalog_discover.py:531-580 | every state a refresh reaches is one that this holds of |
| CatalogRefresh.MergedHitsExactly | infer_stack/experimental/model_catalog_discover.py:510-514 | merged hits are the first one's, then what is new of the second's, in order |
| CatalogRefresh.PickRefreshCandidates | infer_stack/experimental/model_catalog_discover.py:517-606 | the nested loops over searches and hits collect, merge and select accordingly |
| CatalogRefresh.Picker.Consider | infer_stack/experimental/model_catalog_discover.py:562-580 | one hit is rejected, merged into an earlier one, capped or accepted |
| CatalogRefresh.AddIsIdempotent | infer_stack/experimental/model_catalog_discover.py:898-940 | repeating an applied add changes nothing |
| CatalogRefresh.AddOnlyExtends | infer_stack/experimental/model_catalog_discover.py:898-940 | existing entries are never altered and every repository asked for is then present |
| CatalogRefresh.AddExactly | infer_stack/experimental/model_catalog_discover.py:308-320 | one more repository is skipped exactly when its key or its model is in the manifest |
| CatalogRefresh.RunAdd | infer_stack/experimental/model_catalog_discover.py:898-940 | the manifest is replaced only when something was added and it was confirmed |
| EndpointCommand.SurvivesExactly | infer_stack/cli_equivalent.py:39-75 | printing an entry as options and rebuilding it gives the entry back, default engine named, exactly when everything it holds has an option of its form, every printed word is taken for an argument, and every printed value reads back as itself |
| EndpointCommand.ReplayUnchangedExactly | infer_stack/cli/commands_catalog.py:84-114 | for every stored entry, replaying its logged command without force is "unchanged" exactly when the entry is expressible, names its engine and has a name the parser takes for an argument |
| EndpointCommand.ReplayFailsExactly | infer_stack/cli_equivalent.py:48-69 | for an entry of the options' forms whose values read back, the logged command is a usage error exactly when one of its words, or the name, is no argument |
| EndpointCommand.DashedExtraIsRefused | infer_stack/cli_equivalent.py:62-65 | an entry with one extra argument that is no argument to the parser is logged as a usage error |
| EndpointCommand.DashedExtraExample | infer_stack/cli_equivalent.py:62-65 | the entry with extra_args `['--dtype=half']` |
| EndpointCommand.UnreadableTextIsNotLogged | infer_stack/cli_equivalent.py:27-31 | an entry with runtime text that YAML cannot read is not printed at all |
| EndpointCommand.UnnamedEngineRefused | infer_stack/cli/commands_catalog.py:84-114 | an expressible entry without an engine is refused, and the engine is the only key named |
| EndpointCommand.UnnamedEngineExample | infer_stack/cli/commands_catalog.py:84-114 | an entry with only a model is refused on replay, whenever the parser takes its model and its name for arguments |
| EndpointCommand.AddKeepsStored | infer_stack/cli/commands_catalog.py:697-756 | without force no stored entry is ever replaced, and a name derived from the model is one not in use |
| EndpointCommand.KvWordsRead | infer_stack/cli/commands_catalog.py:169-177 | pairs printed under plain keys parse back key by key, each value as YAML reads its text, and fail exactly when YAML raises on one |
| EndpointCommandFields.PrintedExactly | infer_stack/cli_equivalent.py:46-67 | which options an entry is printed with, and with which words |
| EndpointCommandFields.PrintFailsExactly | infer_stack/cli_equivalent.py:27-67 | printing raises exactly on a section that is no mapping, GPUs that are no list, extra arguments that are not all text, or runtime text YAML cannot read |
| EndpointCommandFields.ParsedExactly | infer_stack/cli/commands_catalog.py:627-690 | a line parses to options exactly when it says them and no word is refused, off its choices or unreadable |
| EndpointCommandFields.BuiltExactly | infer_stack/cli/commands_catalog.py:711-740 | the fields of the entry that options build |
| EndpointCommandFields.RuntimeExactly | infer_stack/cli/commands_catalog.py:718-728 | its runtime, key by key: options of their own win over pairs, and the last pair with a key over earlier ones |
| EndpointCommandFields.BuildFailsExactly | infer_stack/cli/commands_catalog.py:169-177 | nothing is built exactly when a pair sets nothing YAML can read or the extra arguments do not split |
| EndpointCommandFields.AttemptExactly | infer_stack/cli/commands_catalog.py:84-114 | when an add is a usage error, added, unchanged or refused, and which keys a refusal names |
| EndpointCommand.EndpointAdd | infer_stack/cli_equivalent.py:46-67 | the source's chain of tests, option after option, yields the line the entry calls for, or fails where printing raises |
| EndpointCommand.BuildEntry | infer_stack/cli/commands_catalog.py:711-740 | the entry filled step by step, runtime conveniences included, is the one the options describe, or fails where a pair or the extra arguments cannot be read |
| EndpointCommand.ReadPairs | infer_stack/cli/commands_catalog.py:169-177 | the loop reads the pairs, later ones winning, and fails exactly when one has no equals sign or a value YAML cannot read |
| EndpointCommand.Catalog.Add | infer_stack/cli/commands_catalog.py:697-756 | the stored endpoints change only when the verdict is "added", and then only under the given or derived name |
| CatalogNames.FreeIsFirst | infer_stack/leasing/catalog_edit.py:84-89 | the index found is free, every smaller one is taken, and it is at most one past the number of names |
| CatalogNames.DerivedNameExactly | infer_stack/leasing/catalog_edit.py:84-89 | a derived name is the base, a dash and the least number from 1 on that no endpoint has |
| CatalogNames.NextIndexedName | infer_stack/leasing/catalog_edit.py:84-89 | the loop finds that name, and ends |
| Characters.RemovedKeeps | dev/demo-textual.py:954-961 | removing takes one copy, moves no gold or health, and takes the item off wherever it was worn |
| Characters.RemovedAllTakesThem | dev/demo-textual.py:963-968 | removing owned items one by one removes exactly that multiset |
| Characters.OperationsKeepWearsOwn | dev/demo-textual.py:954-1064 | no operation leaves a character wearing what it no longer carries |
| Characters.HitsExactly | dev/demo-textual.py:982-998 | a hit costs what is left of it after the wearer's own defence and that of all worn gear, one at least, and health stops at zero |
| Characters.DefenceLowersHits | dev/demo-textual.py:982-998 | putting on an item lowers every hit by the item's defence, down to one |
| Characters.RemoveExactly | dev/demo-textual.py:954-961 | the first copy goes, and whatever is worn of that name, in every slot |
| Characters.Character.RemoveItem | dev/demo-textual.py:954-961 | inventory and equipment after removing one copy, and whether there was one |
| Characters.Character.RemoveItems | dev/demo-textual.py:963-968 | all or nothing |
| Characters.Character.TakeDamage | dev/demo-textual.py:995-998 | a hit costs at least one and never takes health below zero |
| Characters.Character.UseConsumable | dev/demo-textual.py:1054-1064 | an owned healing item is used up and heals up to the maximum; anything else changes nothing |
| Characters.Character.Equip | dev/demo-textual.py:1030-1041 | an owned, equippable item replaces what its slot held and health is clamped; anything else changes nothing |
| Characters.Character.Unequip | dev/demo-textual.py:1043-1052 | a filled slot is emptied and health is clamped; an empty one changes nothing |
| Trade.EveryRunConserves | dev/demo-textual.py:2528-2600 | over every run of visits to any dealers and changes of equipment, all gold and every item are conserved, purses stay non-negative and nobody wears what they gave away |
| Trade.TradeMovesExactly | dev/demo-textual.py:2588-2596 | one trade moves exactly the offer's gold and items, each way |
| Trade.OfferKeepsPursesExactly | dev/demo-textual.py:2571-2591 | everyone who trades an offer keeps a non-negative purse, on both sides, exactly when its amounts are non-negative or equal, or its flags rule it out for good |
| Trade.OneTimeOffersOnce | dev/demo-textual.py:1199-1213 | a one-time offer is taken at most once in any run, and is marked exactly when it has been |
| Trade.OfferedTradesComplete | dev/demo-textual.py:2571-2586 | a trade that was offered is never one the dealer cannot complete |
| Trade.VisitExactly | dev/demo-textual.py:2528-2586 | the picked offer is traded exactly when the player has the gold and the items it wants, gold looked at first; a choice past the open offers goes back |
| Trade.OpenMeaning | dev/demo-textual.py:1199-1213 | an offer is listed exactly when it is not used up, no required flag is missing, no blocked one is set, and the dealer has what it gives |
| Trade.RunTrade | dev/demo-textual.py:2528-2600 | the engine moves gold, items, flags and the mark as the visit decides, and nothing when no trade is made |
| GameState.Game.GivePlayerItems | dev/demo-textual.py:2944-2952 | items are appended, and their pickup flags and the world's own are set |
| GameState.PickupFlagsExactly | dev/demo-textual.py:2944-2952 | exactly the flags of the picked items are set, and the crystal's own |
| Trade.Npc.AvailableOffers | dev/demo-textual.py:1199-1213 | the offers listed are exactly those open, unblocked and in stock, in order |
| Combat.HitsAreBounded | dev/demo-textual.py:2650-2743 | in any fight, whatever is chosen and rolled, each side is hit at most as often as its health and the healing it carries add up to |
| Combat.BoundIsReached | dev/demo-textual.py:2735-2743 | the bound is reached by a player without healing, hit once for every point of health |
| Combat.StrikingEndsFights | dev/demo-textual.py:2650-2690 | a fight is over once the player has struck more often than the enemy can stand |
| Combat.FightsSettle | dev/demo-textual.py:2641-2748 | in any fight gold changes hands only as an accepting enemy's theft and comes in only as the reward for a slain one; the player loses only healing items it used and at most one taken item, that out of an empty purse; bounty and flags record the defeat; an enemy's own surrender effect applies once |
| Combat.PursesAfterFights | dev/demo-textual.py:1269-1321 | without such an effect the two purses together change by the reward alone, the player's only shrinks when it gave up, and a theft never overdraws it |
| Combat.KilledBanditIsSpared | dev/demo-textual.py:2679-2684 | a concrete fight in which the bandit is killed and recorded as spared |
| Combat.BanditSparedExactly | dev/demo-textual.py:2679-2691 | a fight leaves the bandit dead and newly recorded as spared exactly when he yielded and was killed |
| Combat.EndsAreTrue | dev/demo-textual.py:2641-2748 | how a fight ended says who is standing |
| CombatRounds.StrikeExactly | dev/demo-textual.py:2671-2691 | what a strike leads to: half against a braced enemy, then a surrender spared or killed, a kill with its fine and reward, or the fight going on |
| CombatRounds.GiveUpExactly | dev/demo-textual.py:1260-1296 | which enemies let the player go, and that an aggressive one takes half the purse, five at least, or one item from an empty one |
| CombatRounds.AnswerExactly | dev/demo-textual.py:2719-2743 | what the enemy's answer does, and that a player without health is then defeated |
| CombatRounds.RoundExactly | dev/demo-textual.py:2663-2718 | who acts in a round |
| Combat.CombatEngine.Run | dev/demo-textual.py:2650-2743 | the round loop plays the script as far as it gets, settlement included |
| Combat.CombatEngine.PlayerStrikes | dev/demo-textual.py:2671-2677 | the enemy is hurt by the blow, halved and its brace spent when it was braced |
| Combat.CombatEngine.ResolveStrike | dev/demo-textual.py:2679-2691 | a struck enemy yields and is spared or killed, falls, or fights on |
| Combat.CombatEngine.OnDefeat | dev/demo-textual.py:1298-1321 | a first defeat fines the player by what the enemy was, and gives items, gold and flags; a second does nothing |
| Combat.CombatEngine.Release | dev/demo-textual.py:1269-1296 | an accepted surrender runs the enemy's own effect, or takes gold, or takes one item from a player without gold |
| Combat.Enemy.MaybeSurrender | dev/demo-textual.py:1245-1258 | an enemy yields exactly when it is alive, has not yielded and its share of health is at its threshold; it is then willing to trade and makes its surrender offers |

## Left out

- Regular expressions, ANSI and timestamp stripping, Unicode case and white-space tables: parameters of the log filter.
- YAML, JSON, shell quoting, number formatting and the test that tells an argument from an option are parameters of the endpoint command, readers that raise included; where one fails for a value, the entry that holds it is not expressible. An argument vector is taken as already cut into options, each given once; a word that is no argument is a usage error, also after the two options that take any number of words, where the parser may read it as an option of its own instead.
- EndpointCommand.SurvivesExactly: a number is its value, so the spelling of an index as `0` or `0.0`, which Python compares as equal and `--gpu` tells apart, is the codec's to choose and not a property of the entry.
- The `catalog edit` hint, `--force` in the printed text, the external endpoint form and dry runs.
- kubectl, docker, the gateway and the file system: kubectl is a map update, files are values that appear whole, and each failure is a parameter.
- `dns_slug`, `vllm_args`, the Model document beyond its name and deployment label, `_enrich_min_vram`, and reading labels and memory out of a node object.
- Whether the compaction is idempotent or independent of interleaving: it is neither, since an interrupted segment can match on a second pass and sideband lines count toward the limits.
- Cursor and scroll position when a table is rebuilt, the processes behind the log streams, and the status lines a restart writes straight into the log widget.
- The `$` of the suffix pattern, which also matches before a final newline: a model name has none.
- `_expand_family_variants`, candidate scoring, hub access and the printed diffs; a candidate is a value, so the sharing of one object between lists is not captured.
- The `gpu_indices` that are no list: printing raises on some and prints nothing on others.
- Changes of screen and of place, dialogue, riddles and looting; an enemy's own surrender effect sees and changes the two characters, the flags and the bounty, and nothing else.
- The range of a roll: any roll is allowed, so the bounds hold for those the dice can show.
- Items missing from the game's item table, on which the game would raise.
- Health above the maximum after a worn item is traded away: nothing clamps it, and nothing here says it cannot happen.
- Trade.EveryRunConserves: purses are claimed to stay non-negative only for offers whose amounts are not negative, which `Trade.OfferKeepsPursesExactly` shows is what an offer needs unless both amounts are equal.
