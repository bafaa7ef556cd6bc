# Home SOC: what its hard parts promise, and when

Home SOC watches a home network and scores its security. This project models the parts of it that are
hardest to get right and proves what they promise, for all inputs, all runs and all interleavings:

- **Lens pairing** (`homesoc/db.py`): phones pair by a single-use code and then hold a token. Codes, tokens and
  the lock around them are modelled as a protocol: any number of processes, any number of threads in each, every
  SQL statement and every clock reading a step of its own. A process's threads share one re-entrant lock; another
  process has its own. The same operations are also a class, `LensStore.Store`, method for method.
- **Claim rate limit** (`homesoc/db.py`): the counter rows that slow down guessing of codes, with lockout and purge.
- **Job scheduler** (`homesoc/scheduler.py`): the queue protocol of callers, workers and watchdog as a state
  machine, and the timetable as a class.
- **Incremental renderer** (`video/render.py`): which clips of the film are rendered again.
- **Narration and subtitles** (`video/narrate.py`, `video/render.py`): reading beat marks, finding the speech and
  joining it with exact beats, splitting and setting cues, printing SRT and reading it back.
- **The two state planners** (`video/capture.py`, `video/compose.py`): they must find the same states.
- **Compositor arithmetic** (`video/compose.py`): free spans, idle drift, scroll strips, the slide wave, bursts.
- **Score and wrap** (`homesoc/cli.py`): the fallback score formula and the greedy line breaker.

Code that updates state step by step is a class or a method with loops, tied by its `ensures` to a function that
is then reasoned about in lemmas; protocols with several actors are state machines over their steps.

Times are integers (seconds, microseconds, milliseconds or samples) or reals; the time stamps of the database are
fixed-width UTC text, so comparing the text is comparing the integers (section 5.1 of RFC 3339). SHA-256 is an
injective constructor, random tokens are fresh row numbers, random codes are new names. The clock does not go back.

## Where the code does not do what it says

Each of these is a lemma with a concrete run or an exact condition; the model follows the code.

- The rate limit of `L` a window is in truth at most `2L - 1` in any stretch of a window's length, and no better
  (`ClaimLimit.RateBound`, `ClaimLimit.RateBoundIsReached`).
- `retry_after` is too short for most refusals made during a lockout: the fraction of a second is cut off, so trying
  again exactly then is refused again unless the refusal fell on a whole second or in the lockout's last one. It is
  also too short when the window began in the very second that locked: that try is refused and locks out again.
  `ClaimLimit.RetryExactly` has the exact condition for every refusal.
- Purging lists stale rows first and deletes them later without looking again; an attempt in between is forgotten
  (`ClaimLimit.DeleteInvisibleExactly`, `ClaimLimit.AttemptRevives`). Purging with an age of less than the window
  changes verdicts (`ClaimLimit.PurgingRunsExactly`).
- A code can be spent without a token. Of the processes that mint or pair, that never happens exactly when there are
  not two of them, whatever other processes issue, spend or revoke (`LensAcrossProcesses.NeverWastedExactly`); for any
  two of them there is a run (`LensAcrossProcesses.CodeWasted`).
- A revoked token can be verified once more by a call that has read its live row already
  (`LensAcrossProcesses.RevokedMidFlight`); without such a call, and only then, revoking is final
  (`LensSafety.NeverAgainExactly`). An expired token is never verified again, whatever is under way
  (`LensSafety.ExpiredForGood`).
- A code guessed before it is issued can be accepted although it had expired at the clock the call read
  (`LensAcrossProcesses.ExpiredYetAccepted`). A code presented only after it was stored never is, for any number of
  processes (`LensSafety.CodeSpentOnce`); and no code ever is, guessed or not, exactly when there are not two processes
  among those that issue, spend or pair (`LensAcrossProcesses.AcceptsFreshExactly`).
- A request taken from the queue while its job is at work is dropped: with two workers a job accepted twice may be
  executed once (`SchedulerProtocol.RequestDropped`, exactly when: `SchedulerProtocol.TakenRunsExactly`). With the one
  worker there is, that never happens (`SchedulerProtocol.LoneWorkerDropsNothing`).
- The render fingerprint leaves out the later frames of a burst, their interval, the scroller, the path of a state
  and the encoder settings. Changing only those leaves the old clip standing: histories of films always end clean
  exactly when no two scenes or settings ever used differ only there (`RenderCache.CleanExactly`).
- The compositor's keys join fields with `|`, and it does not normalise paths; a bar inside a pair's state or a
  path without its slash makes the planners disagree (`PlannersExactly.BarInStateDisagrees`,
  `PlannersExactly.SlashlessPathDisagrees`). Every scene made of given shots agrees exactly when the two planners
  tell the same pairs of them apart (`PlannersExactly.VocabularyExactly`).
- The score formula alone does not promise that a milder finding scores no lower: on an arbitrary falling curve that
  holds exactly up to sixty-four copies (`ScoreChanges.LighterExactly`). What is left is too small to matter to the
  program's own curve, which by its formula falls by less than 1.16 a unit: the penalty grows by at most the lighter weight
  times 2^-64 (`ScoreChanges.UnsafeIsSlight`), so rounding could cost one point at the very most
  (`ScoreChanges.AtMostOnePoint`).
- A scroll up can end on a picture that is not its destination shot, a scroll down can begin on one that is not its
  source, if the two shots disagree where they overlap and nothing is pinned there (`ScrollStrip.EndsExactly`,
  `ScrollStrip.PinnedEnds`).
- The comment on `wrap_cue` says every cue fits. A sentence is cut by counting its stops apart, but a cue is set with
  them glued on: it fails exactly when some piece has no place left for a line to end
  (`Cues.SetSentence`). That is so for every word over 42 characters, and also for sentences of short words with a
  stop standing alone after a full line (`Cues.CommaBetweenLines`).
- The break of a long sentence is said to be nearest its middle. The space between the halves is counted with the
  first, and of two breaks that come out equal the earlier is taken; then the later one leaves the halves two
  characters nearer (`CueBreaks.NearerIsMissed`), and it does so in no other case (`CueBreaks.NearestExactly`).
- `lens_revoke_all_tokens` says it returns how many phones were still active; it counts expired ones too
  (`LensTables.RevokeCountExactly`).
- The test that would leave a hold without drift can never fire (`IdleDrift.DriftShows`), and neither can the warning
  that a beat is not as long as designed (`Narration.NoWarning`).

## Model

| member | source | states |
|---|---|---|
| LensTables.PairNeverWastes | homesoc/db.py:957-983 | Run alone, a pairing call changes nothing exactly when the rows that can authenticate are as many as the limit; with a code that is blank, missing or stale it adds no token; else it takes the code and adds exactly one token. It never takes a code without adding one |
| LensTables.CountIsRows | homesoc/db.py:827-834 | The count the INSERT compares with the limit is the number of rows that are neither revoked nor expired |
| LensTables.CountLater | homesoc/db.py:775-783 | As time passes no token becomes active again, so the count taken by the ceiling check can only fall |
| LensTables.RevokedAll | homesoc/db.py:891-901 | After `lens_revoke_all_tokens` every row is still there and none can authenticate at any time |
| LensTables.RevokeCountExactly | homesoc/db.py:891-901 | The number it returns is how many could still authenticate exactly when none of the unrevoked ones has expired |
| LensStore.Store.MintToken | homesoc/db.py:794-845 | A row is added at the end just when fewer than `max_tokens` rows (or than one) can authenticate; it is unrevoked and expires `ttl` days after the first clock reading, or never; otherwise nothing changes |
| LensStore.Store.VerifyToken | homesoc/db.py:848-874 | Accepts a token exactly when its row exists, is not revoked, and never expires or expires later than the clock |
| LensStore.Store.RevokeToken | homesoc/db.py:877-888 | Only that row changes and only to revoked; after it the token is active at no clock; it says whether the row changed |
| LensStore.Store.RevokeAllTokens | homesoc/db.py:891-901 | No row can authenticate any more; it returns how many were not revoked before |
| LensStore.Store.ConsumeCode | homesoc/db.py:928-954 | The loop over listed rows leaves exactly the unexpired codes but the one asked for, with their expiry, and accepts that one exactly if its row is there and unexpired; a blank code changes nothing |
| LensStore.Store.PairWithCode | homesoc/db.py:957-983 | Refused with nothing changed exactly at the ceiling of `max_tokens` live rows (or one); past it, a token with its expiry is added and the code gone exactly when the code is there and unexpired; never a code spent for nothing |
| LensStore.Store.NewPairingCode | homesoc/db.py:907-920 | One caller leaves exactly one code, with at least a second to live |
| LensSafety.OneInside | homesoc/db.py:824-845 | At every point of every run from an initial state at most one thread of a process is inside its lock |
| LensSafety.LockStep | homesoc/db.py:794-983 | Every step of every thread keeps the lock's owner and depth in agreement with where the threads stand |
| LensSafety.TokenCeiling | homesoc/db.py:794-845 | In every interleaving of processes and threads, with clocks read before the lock is had, the rows that can authenticate are never more than `max_tokens`, or than one where that is less |
| LensSafety.CodeSpentOnce | homesoc/db.py:907-954 | In every interleaving of any number of processes no code is accepted twice, an accepted code is gone, and one never presented before it was issued had not expired at the clock its call read |
| LensSafety.NeverAgainExactly | homesoc/db.py:848-901 | A revoked or expired token is verified in no continuation of any kind exactly when no call under way holds a live copy of its row |
| LensSafety.AllDead | homesoc/db.py:891-901 | The step of `lens_revoke_all_tokens` leaves every token that was there dead, at that clock and any other |
| LensSafety.DeadForGood | homesoc/db.py:848-901 | It also stays dead for as long as the system runs |
| LensSafety.ExpiredForGood | homesoc/db.py:848-874 | From an initial state on, an expired token is never verified again, whatever calls are under way |
| LensAtomicity.PairIsAtomic | homesoc/db.py:957-983 | If one process does all the writing, whatever its threads do and whoever verifies elsewhere, a pairing call ends with the tables as if it had run alone, never wastes its code, and no accepted code had expired |
| LensAlone.AloneLikeStore | homesoc/db.py:794-983 | Each call of the protocol that no other step interrupts does to the tables exactly what its method does alone |
| LensAcrossProcesses.NeverWastedExactly | homesoc/db.py:957-983 | For every set of processes: no run that mints and pairs only there ever spends a code without a token, exactly when no two are in the set |
| LensAcrossProcesses.WasteNeedsAnotherMint | homesoc/db.py:957-983 | A code is spent without a token only if rows were inserted since the call counted and a thread of another process called for one |
| LensAcrossProcesses.CodeWasted | homesoc/db.py:957-983 | For any two processes that both mint or pair, a run in which a code is spent without a token |
| LensAcrossProcesses.AcceptsFreshExactly | homesoc/db.py:907-954 | For every set of processes: no run that issues, spends and pairs only there ever accepts a code expired at the clock read, exactly when no two are in the set |
| LensAcrossProcesses.ExpiredYetAccepted | homesoc/db.py:928-954 | For any two such processes, a run in which a code guessed before it is issued, and stored between SELECT and DELETE, is accepted although it had expired at the clock read |
| LensAcrossProcesses.RevokedMidFlight | homesoc/db.py:848-888 | A run in which a token is verified after it was revoked |
| ClaimLimit.RateBound | homesoc/db.py:1020-1061 | In any stretch of `window_seconds` of any run, whatever other sources do, one source is allowed at most `2 * limit - 1` attempts, and at most one if the limit is below one |
| ClaimLimit.RateBoundIsReached | homesoc/db.py:1020-1061 | For every limit and window of at least a second there is a run that is allowed just that many |
| ClaimLimit.CountIsAllowed | homesoc/db.py:1020-1061 | The attempts the bound counts are those of that source whose verdict is allowed |
| ClaimLimit.VerdictAt | homesoc/db.py:1020-1061 | An attempt gets the verdict its row gives it as the attempts before it have left the row |
| ClaimLimit.WindowVerdicts | homesoc/db.py:1036-1061 | Inside one window attempt `k` from a row of count `n` is allowed exactly when `n + k` is below the limit, or below one where the limit is less |
| ClaimLimit.NewWindowVerdicts | homesoc/db.py:1036-1061 | From a source with no row, or one whose window is over and which is not blocked, attempt `k` of the next window is allowed exactly when `k` is below the limit, and the first always |
| ClaimLimit.NoneWhileBlocked | homesoc/db.py:1036-1061 | While a lockout is in force nothing is allowed and the row does not change, so retrying does not extend it |
| ClaimLimit.LockoutBegins | homesoc/db.py:1036-1061 | The attempt after the last allowed one locks the source out for a whole window from then |
| ClaimLimit.LockoutEnds | homesoc/db.py:1036-1061 | A retry a whole window of seconds or more after the one that locked is allowed exactly if it is later than the end of the lockout or the window began before the second that locked |
| ClaimLimit.RetryExactly | homesoc/db.py:1020-1061 | For every refusal: a retry exactly `retry_after` seconds later is allowed just when that wait reaches the end of the lockout (always from the refusal that locks; during a lockout only from a whole second or its last second) and the window began before the second that locked |
| ClaimLimit.PurgeInvisibleExactly | homesoc/db.py:1069-1079 | Purged and unpurged tables give the same verdicts for ever, for all tables, exactly when the purge's age is at least the window |
| ClaimLimit.PurgingRunsExactly | homesoc/db.py:1020-1079 | Runs that mix attempts, resets and purges give the verdicts of the run that never purges, for all tables and runs, exactly when the purges' age is at least the window |
| ClaimLimit.DeleteInvisibleExactly | homesoc/db.py:1069-1079 | Deleting one row is invisible exactly when the row no longer matters at that moment |
| ClaimLimit.AttemptRevives | homesoc/db.py:1020-1079 | After any attempt a row that no longer mattered matters again until its window is over |
| ClaimLimit.WindowInSeconds | homesoc/db.py:1082-1086 | The test on truncated seconds is the test whether more than a window's seconds have passed; a reading's second is its microseconds over a million, cut off |
| ClaimLimit.Counters.Attempted | homesoc/db.py:1020-1061 | The row and the verdict are the ones the rules give; other sources' rows are untouched; an allowed attempt leaves a count of at most the limit, of one where the limit is below one, and no lockout |
| ClaimLimit.ResetForgives | homesoc/db.py:1064-1066 | After a reset, lockout or not, attempt `k` within a window of the next one is allowed exactly when `k` is below the limit, and the first always |
| ClaimLimit.ResetSparesOthers | homesoc/db.py:1064-1066 | Tables that differ only in one source's row give every other source the same verdicts for ever |
| ClaimLimit.Counters.Purge | homesoc/db.py:1069-1079 | The loop keeps exactly the rows whose window start or lockout end is no older than the age, and returns how many went |
| SchedulerProtocol.QueueConserved | homesoc/scheduler.py:137-164 | In every interleaving of callers, workers, stop and start the queue has no duplicate, `queued` is set exactly for what it holds, and requests accepted are those dispatched followed by those waiting, in order |
| SchedulerProtocol.NeverStacked | homesoc/scheduler.py:137-164 | Of one job at most one accepted request is waiting |
| SchedulerProtocol.AcceptedExactly | homesoc/scheduler.py:137-164 | In every interleaving a request is accepted exactly when no accepted one for the job is waiting and no thread is running it; it goes last |
| SchedulerProtocol.NoOverlap | homesoc/scheduler.py:276-309 | Two executions of one job never overlap, and while one runs no request for it is accepted |
| SchedulerProtocol.TakenRunsExactly | homesoc/scheduler.py:276-309 | A job taken from queue or timetable is executed exactly when no other thread is at work on it as its lock is tried |
| SchedulerProtocol.RequestDropped | homesoc/scheduler.py:137-309 | For every job a run of two workers in which two accepted requests are taken, one execution comes of them, and nothing is queued or under way any more |
| SchedulerProtocol.LoneWorkerDropsNothing | homesoc/scheduler.py:137-309 | With one worker everything taken is executed, in every interleaving with callers |
| Timetable.NextLocalHourIsNext | homesoc/scheduler.py:367-374 | The result is the first instant after now that is that hour, within a day |
| Timetable.StrictlyLater | homesoc/scheduler.py:359-364 | A job that finished is next due strictly later, or never if it only runs by hand |
| Timetable.DueWhen | homesoc/scheduler.py:351-374 | An interval job is due exactly its interval in seconds after it finished, and first at once or an interval after the start; an hourly one within a day as the local clock shows that hour; a manual one never |
| Timetable.OnlyThoseAhead | homesoc/scheduler.py:254-274 | While a due job waits, the timetable starts only jobs that were ahead of it, none twice |
| Timetable.BoundedWaiting | homesoc/scheduler.py:254-274 | So it starts at most `n - 1` of them before the waiting one |
| Timetable.Scheduler.Start | homesoc/scheduler.py:104-117 | Every job gets its first run time |
| Timetable.Scheduler.RunNow | homesoc/scheduler.py:137-164 | Accepted just when the job exists, does not run and is not queued; then it is last in the queue, or executed on the spot when no worker is alive |
| Timetable.Scheduler.NextJob | homesoc/scheduler.py:254-274 | The queue's head goes first; else the soonest due job, first in the list among equals; none exactly when nothing is queued or due |
| Timetable.Scheduler.Execute | homesoc/scheduler.py:276-309 | Skipped, changing nothing, exactly when the job's lock is held; otherwise it runs once more, is rescheduled and not due, its report is cleared and its lock is free again |
| Timetable.Scheduler.Round | homesoc/scheduler.py:243-309 | One round of the worker's loop is one round of the timetable the waiting bound is proved about: the queue's head or the soonest due job, run once and rescheduled |
| Timetable.Scheduler.Finish | homesoc/scheduler.py:276-309 | Only that job is rescheduled, and is not due at once |
| Timetable.Scheduler.CheckOverruns | homesoc/scheduler.py:214-233 | Names each overrunning job exactly once until it runs again |
| Timetable.OverrunExactly | homesoc/scheduler.py:214-233 | With the elapsed time rounded to a tenth, a job overruns just when it is more than 0.05 seconds past its budget |
| RenderCache.Studio.ComposeAll | video/render.py:613-732 | The loop leaves the files of the run function; forced, it renders every scene; else it skips exactly the scenes whose files, as they were before the run, are all there with the hash of the film so far |
| RenderCache.CleanIsChained | video/render.py:613-699 | A clean build renders scene `k` after the last frame of scene `k - 1`, the first after none, with the cursor at the start or where the last move of the last earlier scene with moves left it |
| RenderCache.HashTells | video/render.py:400-429 | Equal chain hashes mean equal hashed inputs in every scene of the film so far |
| RenderCache.HashFixesClip | video/render.py:400-429 | If nothing outside the hash changes alone, equal chain hashes mean equal clean renders, predecessor frames included |
| RenderCache.RunIsClean | video/render.py:613-732 | From honest files, a run leaves each scene the clip and last frame of a clean build |
| RenderCache.ForcedIsClean | video/render.py:613-732 | A forced run leaves every scene the clip and last frame of a clean build, whatever lay on the disk before |
| RenderCache.HistoryIsHonest | video/render.py:613-732 | After any history of full runs and lost files every file is honest about its stamp |
| RenderCache.IncrementalIsClean | video/render.py:613-732 | After any such history, with any edits the hash sees, the last run equals a clean build |
| RenderCache.RerunChangesNothing | video/render.py:613-732 | The same film run again reuses every scene and changes no file |
| RenderCache.CleanExactly | video/render.py:400-429 | For any set of scenes and settings: every history of runs over films of any length made of them, with files lost in between, ends clean for every renderer exactly when the hash tells them all apart |
| RenderCache.StaleExactly | video/render.py:400-429 | For a film of one scene: one edit is always rendered, whatever the renderer, just when the hash sees it or nothing changed at all |
| BeatMarks.MarkReads | video/narrate.py:102-104 | Every text of the beat pattern is read as the mark it is, with its time, whatever follows it |
| BeatMarks.MarkRead | video/narrate.py:102-104 | Nothing else is read as a mark |
| BeatMarks.FractionIsWhole | video/narrate.py:102-104 | Digits after the point are worth the number they name divided by ten for each |
| BeatMarks.CutIsLeftmost | video/narrate.py:506-519 | The marks found are each the first in what is left of the text, and none is passed over |
| BeatMarks.CutIsOnly | video/narrate.py:506-519 | There is only one such way to cut a text |
| BeatMarks.UnmarkedWords | video/narrate.py:489-493 | Taking the marks out leaves the words between them in order and never joins two |
| Beats.ParseBeats | video/narrate.py:496-532 | From characters: segments are the narration's words in order; gap `i` is exactly the time of the marks with `i` segments before them, for the opening, inner and closing gaps alike, so all gaps add up to all that is marked; inner ones are real beats; each error exactly when its cause is there |
| Beats.MarkedIsRow | video/narrate.py:506-519 | The marks with `i` segments before them stand in a row, and the time of that gap is their beats added up |
| Beats.DesignedAdds | video/narrate.py:510-517 | The time marked adds up over marks |
| Beats.SpokenCounts | video/narrate.py:506-522 | There are as many segments as stretches between marks that hold words |
| Beats.SpokenAt | video/narrate.py:506-522 | Such a stretch is the segment numbered by how many of them stand before it |
| Beats.BadExactly | video/narrate.py:510-516 | A beat is refused exactly when it names a time outside 0.05 to 4 seconds |
| Narration.LoudWindows | video/narrate.py:770-792 | A whole 10 ms window is loud just when its mean square is over -50 dB of full scale; a last short one is not looked at |
| Narration.EnergyAdds | video/narrate.py:770-780 | The level of a window counts every sample once, by its square |
| Narration.SpeechBounds | video/narrate.py:770-796 | From the samples: from the first loud window to the last, or all of it when nothing is loud, and always inside the segment |
| Narration.AssembleScene | video/narrate.py:888-989 | Every segment's speech sits unchanged where it is recorded to be; every inner gap is its beat or the edges kept, silent between those; before the first kept head and after the last kept tail every sample is zero; lead, close and pauses are exact |
| Narration.PausesAre | video/narrate.py:921-977 | The pauses are the opening beat, if there is one, then one for each inner gap, from where speech ends to where it begins again, with its design in whole milliseconds |
| Narration.LastingNear | video/narrate.py:857-860 | A gap lasts what was designed, to half a sample, unless the edges kept are longer |
| Narration.BeatsAreExact | video/narrate.py:496-532 | No inner beat is short, none is over by more than 40 ms, and one as long as the kept edges is exact to half a sample |
| Narration.NoWarning | video/narrate.py:1425-1431 | No pause of a scene, first and last included, is ever as far from its design as the run warns about |
| Words.SplitJoin | video/narrate.py:1037-1041 | Splitting what single spaces joined gives the words back |
| Cues.TwoLines | video/narrate.py:1033-1045 | Finds two lines whenever there are two, with the longer one as short as can be, the earliest such |
| Cues.ClausesAreGroups | video/narrate.py:1030-1068 | Splitting at clause marks cuts only between words |
| Cues.BestBreak | video/narrate.py:1072-1086 | The break chosen has the least cost, the first of those |
| CueBreaks.CostIsUneven | video/narrate.py:1072-1086 | The cost of a break is how unequal in characters it makes the halves, the space between counted with the first; between words with 1000 from the middle more after some words and 14 less before others |
| CueBreaks.ClauseBreak | video/narrate.py:1058-1090 | A sentence of several clauses that does not fit is broken first where the halves are least unequal, the earliest such, and then each half |
| CueBreaks.WordBreak | video/narrate.py:1058-1090 | A sentence of one clause is broken first between words where that and the word preferences weigh least |
| CueBreaks.NearestExactly | video/narrate.py:1067-1086 | Without that space the break is the one that leaves the halves nearest in length exactly when no later break was as good; it is never off by more than two characters |
| Cues.SplitLong | video/narrate.py:1058-1090 | It ends; its pieces are non-empty runs of the sentence's words and rejoin to it; all fit exactly when no word is over 42 |
| Cues.WrapCue | video/narrate.py:1093-1098 | Fails exactly when the words do not fit; else shows them all in one line if they fit it, or in the two that fit with the longer as short as can be |
| Marks.TightenIsGlue | video/narrate.py:489-493 | Taking out the spaces before stops, character by character, is gluing the words that begin with a stop to those before |
| Marks.StrippedWords | video/narrate.py:489-493 | So the words of a stripped text are its words, without beat marks and glued |
| Cues.SettableExactly | video/narrate.py:1033-1045 | Words counted apart fit once their stops are glued on just when they fit one line or a line can end before a word that is no stop |
| Cues.SetCue | video/narrate.py:1238-1248 | Fails exactly when the stripped words do not fit, else shows them on one line, or on the two with the longer as short as can be |
| Cues.SetSentence | video/narrate.py:1058-1098 | Setting every piece succeeds exactly when each still fits with its stops glued on; never with an overlong word, always without one if no word begins with a stop; and shows all words in order |
| Cues.CommaBetweenLines | video/narrate.py:1058-1098 | A stop standing alone after a full line: such sentences of short words are never split and cannot be set |
| Srt.ReadStamp | video/render.py:487-499 | A printed time under a hundred hours reads back as itself, clipped at zero |
| Srt.StampLayout | video/narrate.py:1228-1235 | A time is printed as two digits each of hours, minutes and seconds and three of milliseconds |
| Srt.ReadText | video/render.py:487-515 | The reader finds in a printed text exactly the cues printed |
| Srt.JoinedText | video/narrate.py:1238-1248 | The joined blocks are the text the reader is proved on |
| Srt.DigitsName | video/narrate.py:1238-1248 | A number is printed as the decimal text that names it, without a leading zero |
| Srt.BlockNumbers | video/narrate.py:1238-1248 | There is a block for each cue, and block `k` of those numbered from `n` begins with a line of the decimal text of `n + k` |
| Srt.PrintSrt | video/narrate.py:1238-1248 | Prints all scenes' set cues as one list of blocks numbered from one, and they read back |
| Subtitles.BuildSrt | video/narrate.py:1238-1248 | From cues as spoken: fails exactly when a stripped cue does not fit; else prints every cue with its own times and its stripped words, and the text reads back |
| Subtitles.SpokenIsShown | video/narrate.py:489-532 | The stripped narration shows exactly the words of the segments that are spoken, in order |
| Srt.WrappedCueIsSet | video/narrate.py:1093-1098 | What `wrap_cue` makes is a body the reader takes whole |
| Retime.MoveCues | video/render.py:517-545 | Each cue is moved by its own scene's shift |
| Retime.RetimeSrt | video/render.py:502-545 | Gives up exactly when the file has no cues or not as many as the scenes; else reprints them moved, as blocks numbered from one |
| Retime.RecutScenes | video/render.py:517-545 | Cutting the read cues by counts is cutting them by scenes |
| Retime.EachIsMoved | video/render.py:517-545 | Every cue of every scene has both its times moved by that scene's shift and keeps its words, wherever it stands in the whole |
| Retime.ClippedPrintsTheSame | video/narrate.py:1228-1248 | Clipping a time at zero before printing changes no character |
| Retime.PrintThenRetime | video/render.py:502-545 | Retiming a built text moves every scene's cues by its shift, and with no shifts reproduces it |
| Retime.RetimedReadsBack | video/render.py:502-545 | A retimed text reads back |
| Sorting.SortByIsStable | video/capture.py:1891-1905 | Entries with one time keep their order |
| Sorting.SortMapped | video/compose.py:2146-2160 | Renaming entries, times apart, does not change their order |
| Scenes.EntriesFromShots | video/capture.py:1880-1905 | What holds of every shot written in a scene holds of every state it declares |
| Declarations.EntriesAreDeclared | video/capture.py:1880-1905 | The entries both planners read are just what the script declares: each later member at its time, each scroll of either kind, each click or tap with a next shot is the source of exactly one, with that time, payload and kind; and nothing else is |
| Planners.PlanStates | video/capture.py:1860-1938 | The loops compute the capture plan, with the same error for the same scene |
| Planners.PlanTransitions | video/compose.py:2132-2182 | The loops compute the compositor's plan |
| PlansComplete.StatesAreDeclared | video/capture.py:1906-1938 | The plan opens with the first shot; every entry has a state that is what it asks for, up at its time or at most a tenth before; every other state was made by an entry at its time; the states' declarations are the entries', one for one, in order |
| PlansComplete.ChangesAreDeclared | video/compose.py:2132-2182 | The same of the compositor's changes, once the opening it leaves out is put back |
| PlansComplete.EndsOnLast | video/capture.py:1906-1938 | The last state is what the last entry asks for, a shot or a scroll |
| PlannersAgree.KeysTellApart | video/compose.py:2098-2129 | Two plain targets have one key just when they are one target |
| PlannersAgree.AcceptedExactly | video/capture.py:1827-1852 | A single shot is accepted exactly with a name, with a path, or with one of the four screens; a pair always |
| PlannersAgree.ShotsTellApart | video/compose.py:2098-2129 | Neither planner takes two different normalised shots written out in full for one: all they say is in the target and in the key |
| PlannersAgree.TargetHasKey | video/compose.py:2098-2129 | For a normalised shot the compositor's key is the key of the capture's target |
| PlannersAgree.PlannersAgree | video/compose.py:2132-2182 | For every scene accepted and normalised: one change fewer than states, and change `k` has the time, target, declarations and scroll of state `k + 1` |
| PlannersAgree.StatesInOrder | video/capture.py:1906-1938 | Neighbouring states differ or are more than the merge window apart, times do not go back, and a shot declared last is on screen last |
| PlannersExactly.VocabularyExactly | video/compose.py:2098-2182 | For any set of accepted shots: every scene made of them has one change fewer than states, at the same times, exactly when the planners tell the same pairs of them apart, scrolling aside |
| PlannersExactly.NormalisedToldAlike | video/compose.py:2098-2129 | Any two normalised shots are told apart by both planners or by neither |
| PlannersExactly.SlashlessPathDisagrees | video/capture.py:1827-1852 | A scene with one path spelled with and without its slash: one state, two changes |
| PlannersExactly.BarInStateDisagrees | video/compose.py:2098-2129 | A scene with a bar in a pair's state: two states, no change |
| FreeSpans.FreeSpans | video/compose.py:2623-2639 | The nested loops cut every busy interval out in order and drop slivers |
| FreeSpans.UncutIsExact | video/compose.py:2623-2638 | Before slivers go, an instant is in a span just when it is in the hold and nothing is busy |
| FreeSpans.FreeIsFree | video/compose.py:2623-2639 | The spans are ordered, disjoint and inside the hold, hold no busy instant, and miss only slivers |
| IdleDrift.DriftThrough | video/compose.py:2455-2494 | The loops lay exactly the drift of the hold |
| IdleDrift.CycleLength | video/compose.py:2479-2484 | A cycle lasts from 2.5 to 9 seconds, the cycles add up to the span, and there are no more than it takes |
| IdleDrift.DriftShows | video/compose.py:2485-2488 | Every such cycle moves enough to be kept, stays under one per cent, and moves at the rate |
| IdleDrift.SwaysTile | video/compose.py:2488-2494 | The cycles of a span tile it end to end, out and back in equal halves |
| IdleDrift.DriftIsSafeAndComplete | video/compose.py:2455-2494 | No drift runs under a Zoom, beside another or outside the hold; where nothing moves, a Zoom is on or the free stretch is too short |
| Easing.EaseIsGentle | video/compose.py:336-341 | The cubic runs from 0 to 1, never back, and never over three times the clock |
| Easing.EaseIsCubic | video/compose.py:336-341 | Up to the half, half the time is an eighth of the way |
| Easing.EaseIsMirrored | video/compose.py:336-341 | The second half mirrors the first |
| Easing.EaseLags | video/compose.py:336-341 | So it starts slowly, behind the clock until half-way |
| ScrollStrip.Stack | video/compose.py:3087-3094 | The two in-place writes leave the upper shot's first rows and then all of the lower |
| ScrollStrip.ScrollTall | video/compose.py:3056-3096 | The destination when nothing moves, no strip when the shots do not overlap, else the strip |
| ScrollStrip.ApplyFixed | video/compose.py:3099-3102 | In place, and whatever the rectangles: where one of them lies the source shows, and nothing else changes |
| ScrollStrip.PageAt | video/compose.py:3380-3411 | The page shown is that frame of the scroll under the destination's fixed parts, or a dissolve |
| ScrollStrip.OffsetsInOrder | video/compose.py:3396-3398 | A scroll goes one way only and no faster than its easing allows, give or take a row |
| ScrollStrip.OffsetFollows | video/compose.py:3396-3398 | A scroll is, to half a row, as far on its way as its easing; a scroll up counts from its end |
| ScrollStrip.RowsNear | video/compose.py:3056-3070 | A scroll's rows are its pixels at the shot's scale, to half a row |
| ScrollStrip.FramesAreViews | video/compose.py:3056-3096 | Between views of one document every frame, up or down, is a view of it, from source to destination |
| ScrollStrip.EndsExactly | video/compose.py:3087-3094 | For any two shots: down always ends on the destination, up always starts on the source, the other end is right just when the overlap agrees |
| ScrollStrip.PinnedEnds | video/compose.py:3380-3411 | The same with fixed parts: down always ends on the destination; up does just when the overlap agrees outside them; a beginning also needs the shots to agree inside them |
| ScrollStrip.Band | video/compose.py:1536-1572 | The band that moves is inside the screen and at least forty rows, or the whole screen |
| ScrollStrip.BlendBetween | video/compose.py:1640-1646 | A pixel under the mask is, to half a level, that part of the way between the two pictures; one or the other at the ends and nothing outside the two between |
| ScrollStrip.ScreenAt | video/compose.py:1574-1650 | Only the band moves, by that frame of the scroll seen through the mask; cut exactly when nothing moves or nothing overlaps |
| Motion.TriangleIsLeast | video/compose.py:2946-2951 | The folded walk is at most the peak and at most the distance to any end of a cycle |
| Motion.TriangleIsReached | video/compose.py:2946-2951 | And it is the distance to one of them, so to the nearest |
| Motion.WaveNeverJumps | video/compose.py:2946-2951 | The scale stays between base and peak and never changes faster than its rate over a whole run |
| Motion.WaveIsDistance | video/compose.py:2946-2951 | From its start until it holds, a slide stands as far from its base as what it has walked is from the nearest end of a cycle; before, at its base; after, where it stopped |
| Motion.BurstStepsByOne | video/compose.py:1509-1514 | The frame index is in range and every step moves to a neighbour |
| Motion.FrameShownExactly | video/compose.py:1511-1514 | A frame is shown exactly where the sweep out and the sweep back pass it |
| Motion.StepCounts | video/compose.py:1509-1514 | The step of a burst is how many whole intervals have passed |
| Motion.BurstNeverJumps | video/compose.py:1511-1514 | Film frames no further apart than the burst's interval show one frame or neighbours |
| Discount.UnderTwice | homesoc/cli.py:809-811 | The decaying sum of a falling list stays under twice its largest weight |
| Discount.DiscountedFront | homesoc/cli.py:809-811 | A weight put first counts whole and halves all behind it |
| Discount.InsertAdds | homesoc/cli.py:809-811 | One weight more makes it strictly larger |
| Discount.InsertInOrder | homesoc/cli.py:809-811 | A larger weight for a smaller makes it no smaller |
| Discount.InsertBehind | homesoc/cli.py:809-811 | A weight that goes behind `p` larger ones adds at most its worth in that place |
| Scoring.TallyIsUnique | homesoc/cli.py:796-811 | The counts of findings fix the sorted list of weights |
| Scoring.ListedTallies | homesoc/cli.py:796-811 | The list of a type holds, largest first, as many weights of each severity and status as there are findings, up to sixty-four |
| Scoring.OneTypeIsBounded | homesoc/cli.py:780-811 | One finding type costs less than twice its largest weight, however many copies |
| Scoring.PenaltyFollows | homesoc/cli.py:808-811 | If one type's cost changes and no other's, the penalty changes by just as much |
| Scoring.ScoreUnderCeiling | homesoc/cli.py:813-820 | The score is within 0 to 100 and under the ceiling of what is open |
| ScoreMeans.LoneFinding | homesoc/cli.py:780-811 | One finding costs 30, 12, 5, 1.5 or nothing by its severity, a quarter of it acknowledged; none costs nothing |
| ScoreMeans.CopiesPenalty | homesoc/cli.py:796-811 | `n` findings alike cost `w (2 - 2^(1-n))`, `w` the weight of one, and from the sixty-fifth on no more |
| ScoreMeans.OpenCounts | homesoc/cli.py:804-807 | The open ones are counted, each once |
| ScoreMeans.ScoreIs | homesoc/cli.py:812-820 | The score is the curve's value rounded, held between 0 and 100, 79, 34 or 20 by what is open, and just that where the curve is outside |
| FallbackScore.FallbackScore | homesoc/cli.py:787-820 | The loops over rows and groups give the score of the findings, whatever the order of the rows |
| FallbackScore.GroupIsListed | homesoc/cli.py:796-811 | A group gathered from counted rows and sorted is the list the findings themselves give |
| FallbackScore.OpenRowsExact | homesoc/cli.py:804-807 | The rows' counters count the open findings |
| ScoreChanges.AddedPenalty | homesoc/cli.py:796-811 | A finding raises the penalty just when it weighs something and is not past the sixty-fourth of its kind |
| ScoreChanges.AddingNeverRaises | homesoc/cli.py:787-820 | Adding an open or acknowledged finding never raises the score |
| ScoreChanges.RemovingNeverLowers | homesoc/cli.py:787-820 | Removing one, wherever it stands, never lowers it |
| ScoreChanges.AcknowledgingExactly | homesoc/cli.py:787-820 | Acknowledging lowers the score on no falling curve, however steep, exactly when at most 64 such are open, 64 are acknowledged already, or it weighs nothing |
| ScoreChanges.LighterExactly | homesoc/cli.py:787-820 | So for any change of a finding into a lighter bucket of its type, open only if it was open: safe on every falling curve exactly when the old bucket holds at most 64, the new one holds 64, or it then weighs nothing |
| ScoreChanges.DowngradingExactly | homesoc/cli.py:780-820 | So for any milder severity of the five, each of which weighs less than the one before |
| ScoreChanges.UnsafeIsSlight | homesoc/cli.py:796-811 | Where it is not safe the penalty grows, by at most the new weight over 2^64 |
| ScoreChanges.AtMostOnePoint | homesoc/cli.py:787-820 | On a falling curve no steeper than two a unit, making a finding lighter never costs more than one point, and none when safe |
| Wrap.GreedyBreaks | homesoc/cli.py:1833-1845 | Lines keep the words in order, and only a line of one word may be too wide |
| Wrap.GreedyLeads | homesoc/cli.py:1833-1845 | No such breaking has fewer lines, and none with as many has a shorter last line |
| Wrap.WrapText | homesoc/cli.py:1833-1845 | The loop gives such lines, the fewest of any, and one empty line for no words |

## Left out

- Events written beside token operations, exceptions from SQLite, and failures half-way through a call.
- "At most one live pairing code" among concurrent callers: the clearing and the storing are two lock acquisitions,
  so it holds only for one caller at a time, as stated in `LensStore.Store.NewPairingCode`.
- Scopes of tokens, the text form of codes and addresses, timing-safe comparison, changing limits within a run,
  malformed settings rows and clocks that go back.
- The scheduler's thread start and stop apart from their effect on the queue, its history rows, daylight-saving
  changes (the offset is fixed) and waiting with a timeout.
- `--only` runs and crashes half-way in the render cache, and what ffmpeg and the compositor draw: the renderer is
  any function of scene, previous frame, cursor and settings.
- SHA-256 collisions: the hash is an injective constructor over the fields the fingerprint writes.
- Beats.ParseBeats: digits are ASCII, and seconds are exact instead of binary floating point.
- Cues.SetSentence: takes sentences with nothing left in brackets, which is what parsing leaves
  (`Subtitles.SegmentIsBare`); the splitting of a segment into sentences is not modelled.
- Word boundaries of speech, snapping to pauses, the timing of cues, and the synthesis and caching of segments.
- Cues.SplitLong: the two lists of words a break avoids or prefers are any two predicates on words; lengths are doubled
  instead of halving the middle.
- Srt.ReadText: the pattern is modelled as a reader from left to right, with ASCII digits and whitespace.
- Planners.PlanStates: shots are the script's own kinds, without attributes under other names or phone shots inside a pair;
  lower case and stripping are for ASCII.
- Finding the fixed parts of a page and the rows two phone screens share, the shape of the mask, the canvas around a
  phone's screen, and caches of strips.
- The camera's pushes other than idle drift and the slide wave, and the drawing of every frame.
- Rounding of binary floating point: reals are exact, and rounding is modelled where the code rounds on purpose.
- Scoring.ScoreUnderCeiling: the halving curve is any function that never rises with the penalty, so nothing is said about
  its values; `ScoreChanges.AtMostOnePoint` adds that it falls by at most two a unit.
- Codes shown to a caller before their row is stored: a code is given out when `lens_new_pairing_code` returns, and
  presenting it earlier is a guess.
- The letter grade, the breakdown lines and the findings module that normally replaces the fallback score.
- Everything else: Flask pages, TLS, DNS filtering, scanning, topology, notifications, logging and the capture rig.
