# Verification of tiller's protocols, parsers and folds

Tiller dispatches work to agents, tracks it in a run directory or in PostgreSQL, guards an interactive session with a
command classifier, and keeps a ledger of ambient tasks. This project models the parts whose behaviour is hardest to see
from the code and proves what they are for:

- **Claims and leases** (`Dispatches`, `ClaimSteps`, `Stores`, `WholeCalls`, `Pool`). `ClaimSteps` runs any number of
  claim, renew, release and expire calls as interleaved single file operations under a monotone clock; its theorems hold of
  every reachable state. `Stores` has the two stores as classes and proves that no sequence of whole calls tells them apart.
  `WholeCalls` joins the two: the single steps of one call, run without interruption, are the whole call. `Pool` runs one
  worker on the store.
- **Commands** (`ShellLexer`, `ShellWords`, `CommandClass`, `ShellRules`, `CommandForms`). The reference lexer is the one
  documented at the head of `cmdclass.go`, defined position by position; the splitter and the tokeniser are loops proved
  against it. `ShellRules` states the documented rules of texts: what is refused, and what quotes and backslashes hide.
- **Tee store** (`TeeStore`, `DispatchMirror`). `TeeStore` runs any interleaving of callers and the mirror's goroutine over
  two arbitrary stores, each with a clock of its own, and says when the mirror keeps up; `DispatchMirror` proves it of the
  two dispatch stores of `Stores`, and what their clocks leave different.
- **Tail reader** (`TailReader`), **ambient ledger** (`AmbientLedger`, `AmbientRecords`, `AgentRuns`), **descriptor folding**
  (`StatusFold`, `StatusOrders`), **ids and tree** (`Decimals`, `DispatchIds`, `DispatchTree`), **configuration texts**
  (`TomlEdit`, `CodexConfig`, `Tier`, `ModelsToml`, `ModelsLines`), on three small modules: `Order` (Go's string order),
  `Text` (string operations) and `LineScanner` (the line scanner with its bounded buffer).

Where a method is proved against a function of the model, further lemmas say what that function's result is, in fields,
texts or positions and without the function's own definitions.

`dafny verify dfyconfig.toml` checks everything.

## What may surprise a reader of the code

Some of these contradict a comment. Each is proved, with the exact condition where there is one.

- A command that ends inside a double quotation with a backslash as its last byte is accepted by the splitter, although an
  unterminated quotation is documented as rejected (`CommandClass.OpenQuoteAccepted`), and can be called read-only
  (`CommandClass.OpenQuoteReadOnly`).
- A transcript line over the scanner's buffer ends the scan; the comment says that it is skipped and scanning continues.
  That is so exactly if no line that fits stands behind an overlong one (`LineScanner.ScannedFitting`); the lines
  `xxxxx`, `a` and a buffer of 4 show that it is not always (`LineScanner.OverlongStops`).
- The tail reader's comment promises complete lines. Its oldest line can have lost its beginning: exactly if reading
  stopped inside a line, with just the wanted count of newlines behind it and a newline at the end of the file
  (`TailReader.WindowIsTail`), as in the file `ab` read from its second byte (`TailReader.CutLine`).
- The lease renewer is refused as soon as the worker has written `running`, because renewing demands `claimed`: a running
  dispatch's lease is not kept alive (`Pool.ExecuteDispatch`).
- The second step of a renewal can write the sentinel back after an expiry removed it. The dispatch is then pending and
  never claimable again (`ClaimSteps.OrphanReachable`, `ClaimSteps.OrphanForever`); `ClaimSteps.OrphanMadeBy` lists every
  step that can do this.
- A worker that writes `running` over a record it read before its lease ran out takes the next holder's lease away
  (`ClaimSteps.LeaseOverwritten`); `ClaimSteps.StaleWriteLease` says exactly when.
- Nothing holds a caller's write and its enqueue together, so of two concurrent callers the later write can reach the
  mirror first, and the mirror ends with the older record although nothing was dropped (`TeeStore.OvertakenMirror`). The
  order is kept exactly if no offer overtakes an earlier one (`TeeStore.InOrderIff`).
- The mirror is no exact copy even when nothing is dropped or overtaken: deadlines and end times are those of its own clock,
  at the moment it runs the write (`DispatchMirror.ClaimMoments`, `DispatchMirror.ReleaseMoments`); an allocated id has a
  row before it has a record; and a sweep that requeues anything is not mirrored at all (`DispatchMirror.SweepUnmirrored`).
- Listings sort ids by name, which is allocation order up to 99 dispatches and no further (`DispatchIds.ListedInOrder`).
  Once directories have been removed, allocation by counting them fails or hands out an old id, never a new one
  (`DispatchIds.AllocAfterRemovals`).
- Folding descriptors depends on the order of the ledger exactly in a slot that holds both a blank descriptor reference and
  a named one, with a result that says something new (`StatusFold.OrderShowsIff`, `StatusFold.OrderShows`); the hook never
  writes a blank one (`AmbientLedger.PlayedRuns`). That is for ledgers in which time and id tell events apart; where they
  do not, `StatusOrders.OrderShowsExactly` says exactly when the order shows.
- Two commands that are each refused for a lone `&` at the seam are accepted when `&&` is put between them, since the splitter
  pairs `&` from the left (`CommandClass.LoneAmpsMeet`).
- The descriptor hook's check for an existing event never finds one: a repeated hook is a new attempt
  (`AmbientLedger.DescribedNumbered`).
- An agent that has completed may be reported running again, and its record then has both (`AgentRuns.EndStays`).
- In a `models.toml` file an ambient section cannot list the models of a tier whose name begins with `detector` or
  `govern_tiers`: such a line is taken for the other key, and is an error (`ModelsLines.AmbientLineIs`).
- `tiller uninstall;` is recognised as the bare command, although any separator is documented to be refused: a separator
  is let through exactly if the text on one side of it has no segment (`CommandForms.NoChaining`,
  `CommandForms.SemicolonAccepted`).

## Model

| member | source | states |
|---|---|---|
| ClaimSteps.InitInv | internal/scratch/fsstore/claims.go:44-211 | a store with unclaimed records and no calls in progress, whatever stray sentinels it has, satisfies the protocol invariant |
| ClaimSteps.NextInv | internal/scratch/fsstore/claims.go:44-211 | every step of every interleaving keeps the invariant: a held record has its sentinel, and at most one call is between the two files of a dispatch |
| ClaimSteps.AnyoneMay | internal/scratch/fsstore/claims.go:44-211 | what runs contain: at any point time may pass, a call begin or die, and a holder write its record again, running or at an end |
| ClaimSteps.FailureGoesOn | internal/scratch/fsstore/claims.go:64-75 | a failing file operation ends a call, except that a claim takes its sentinel back and a sweep goes on |
| ClaimSteps.MutualExclusion | internal/scratch/fsstore/claims.go:44-211 | in every reachable state a claimed or leased record has its sentinel, and at most one claimer or remover is in the middle of handing it over, never while it is held |
| ClaimSteps.NoDoubleWin | internal/scratch/fsstore/claims.go:44-92 | between two won claims of one dispatch there is a release or a requeue of it |
| ClaimSteps.ClaimsConserved | internal/scratch/fsstore/claims.go:82-202 | claims won = releases + lease requeues + one if held now, for each dispatch in every run |
| ClaimSteps.FinishedForever | internal/scratch/fsstore/claims.go:123-148 | a finished record stays as it is for ever: no claim, renewal, requeue or holder write reaches it |
| ClaimSteps.ReleasedForever | internal/scratch/fsstore/claims.go:123-148 | from a logged release on the dispatch is finished, its record never changes and nothing more happens to it |
| ClaimSteps.LeaseHonoured | internal/scratch/fsstore/claims.go:94-211 | a holder with deadline D holds the dispatch at every instant up to D unless it releases it or shortens the lease itself, although sweeps act on an older clock |
| ClaimSteps.RequeueOnlyExpired | internal/scratch/fsstore/claims.go:178-199 | a requeue happens only to a claimed or running record with a lease already over, so a record without a lease is never requeued |
| ClaimSteps.OrphanForever | internal/scratch/fsstore/claims.go:57-63 | a pending record behind a sentinel that no call owns stays pending for ever, whoever tries to claim it |
| ClaimSteps.OrphanReachable | internal/scratch/fsstore/claims.go:112-119 | such a state is reached by a renewal that writes its file after a sweep has requeued the dispatch |
| ClaimSteps.OrphanMadeBy | internal/scratch/fsstore/claims.go:44-211 | a step leads there if and only if it is a late renewal's file write, a death or failed removal by the owner of a pending record's sentinel, or a new record behind a stray sentinel |
| ClaimSteps.StaleWrite | internal/pool/pool.go:374-376 | rewriting an earlier read of a held record keeps the invariant if and only if the record is still held at the write, and is a step that LeaseHonoured allows if and only if holder and lease are still the ones read |
| ClaimSteps.StaleWriteLease | internal/pool/pool.go:374-376 | it takes no lease away if and only if it names the holder and a deadline no earlier than the record's |
| ClaimSteps.LeaseOverwritten | internal/pool/pool.go:356-376 | a run in which such a write takes a lease that has time left from its holder, with the invariant intact |
| Stores.FsStore.ClaimDispatch | internal/scratch/fsstore/claims.go:44-78 | the claim is won exactly on a pending readable record without a sentinel; a refused update rolls the new sentinel back |
| Stores.FsStore.UpdateDispatchClaimed | internal/scratch/fsstore/claims.go:82-92 | the locked update records the claim on a pending record and otherwise changes no record |
| Stores.FsStore.RenewLease | internal/scratch/fsstore/claims.go:95-120 | only the holder of a claimed record moves its deadline, and its sentinel is (re)written |
| Stores.FsStore.ReleaseDispatch | internal/scratch/fsstore/claims.go:123-148 | only the holder ends the dispatch, with a terminal status; record and sentinel after it |
| Stores.FsStore.RequeueExpired | internal/scratch/fsstore/claims.go:182-199 | under the lock the expiry is tested again: requeued exactly if claimed or running with a lease that has ended, and then without sentinel |
| Stores.FsStore.ExpireLeases | internal/scratch/fsstore/claims.go:154-211 | the scan requeues exactly the expired claimed or running records and returns their ids, sorted |
| Stores.FsStore.ListPendingDispatches | internal/scratch/fsstore/claims.go:216-241 | the listing is exactly the pending dispatches, in id order |
| Stores.PgStore.ClaimDispatch | internal/scratch/pgstore/claims.go:20-38 | the row update wins exactly on a pending row |
| Stores.PgStore.RenewLease | internal/scratch/pgstore/claims.go:41-60 | the row update moves the deadline exactly of a row claimed by this executor |
| Stores.PgStore.ReleaseDispatch | internal/scratch/pgstore/claims.go:64-90 | the row update ends exactly a row claimed by this executor, with a terminal status |
| Stores.PgStore.ExpireLeases | internal/scratch/pgstore/claims.go:95-126 | one statement requeues exactly the expired rows and returns their ids |
| Stores.PgStore.ListPendingDispatches | internal/scratch/pgstore/claims.go:129-153 | the listing is exactly the pending rows, in id order |
| Stores.FsClaims | internal/scratch/fsstore/claims.go:44-92 | field by field: a claim wins if and only if the record is pending without a sentinel, and changes status, holder and lease of that record alone |
| Stores.FsRenews | internal/scratch/fsstore/claims.go:95-120 | a renewal succeeds if and only if this executor holds the record as claimed, and moves its deadline alone |
| Stores.FsReleases | internal/scratch/fsstore/claims.go:123-148 | a release succeeds if and only if this executor holds the record and the status is one of the five terminal ones |
| Stores.FsSwept | internal/scratch/fsstore/claims.go:154-211 | after a sweep every claimed or running record whose lease had ended is pending, nobody's, without lease and sentinel, and returned; every other record and sentinel is as before and its id not returned |
| Stores.FsSweptClaimed | internal/scratch/fsstore/claims.go:178-199 | and the next claim of a returned dispatch wins, whoever makes it |
| Stores.PgClaims | internal/scratch/pgstore/claims.go:20-38 | the row claimed if and only if it was pending |
| Stores.PgRenews | internal/scratch/pgstore/claims.go:41-60 | the row renewed if and only if this executor has claimed it |
| Stores.PgReleases | internal/scratch/pgstore/claims.go:64-90 | the row released if and only if this executor holds it and the status is terminal |
| Stores.PgSwept | internal/scratch/pgstore/claims.go:95-126 | the rows requeued and returned are exactly the claimed or running ones whose lease has ended; every other row is as before |
| Stores.PgSweptClaimed | internal/scratch/pgstore/claims.go:95-126 | and the next claim of a returned row wins |
| Stores.FsLists | internal/scratch/fsstore/claims.go:216-241 | an id is listed if and only if its record is pending |
| Stores.PgLists | internal/scratch/pgstore/claims.go:129-153 | an id is listed if and only if its row is pending |
| Stores.CallRefines | internal/scratch/fsstore/claims.go:44-241 | from coupled stores each whole call gives the same answer on both and leaves them coupled |
| Stores.StoresAgree | internal/scratch/pgstore/claims.go:20-153 | no sequence of whole calls tells the file store from the row store |
| Stores.StraySentinelBlocks | internal/scratch/fsstore/claims.go:54-60 | without the coupling a claim agrees with the row store if and only if the dispatch is not pending behind a stray sentinel |
| WholeCalls.ClaimDriven | internal/scratch/fsstore/claims.go:44-78 | the single steps of a claim, uninterrupted, are the whole call, won exactly if the log gained a win |
| WholeCalls.RenewDriven | internal/scratch/fsstore/claims.go:95-120 | the steps of a renewal, uninterrupted, are the whole call, accepted exactly if the log gained a renewal |
| WholeCalls.ReleaseDriven | internal/scratch/fsstore/claims.go:123-148 | the steps of a release, uninterrupted, are the whole call, accepted exactly if the log gained a release |
| WholeCalls.SweepDriven | internal/scratch/fsstore/claims.go:154-211 | a sweep over a directory of any size, uninterrupted, is the whole expiry call, with one requeue logged per id returned |
| Pool.ExecuteDispatch | internal/pool/pool.go:305-445 | for every outcome of gate, registry, materialise, prepare and run a won claim meets exactly one release by the same executor, ending terminal, unclaimed and without sentinel (or still held, if the adapter's status is not terminal); a denial keeps its reason, a supervisor's usage survives, and a renewal tick is accepted if and only if the record says `claimed` at that tick, before and after any supervisor's write |
| Pool.Deliver | internal/pool/pool.go:333-445 | a worker that has won a claim reports an error exactly where delivery broke off or the run failed, and leaves exactly the record described below |
| Pool.RunAdapter | internal/pool/pool.go:390-445 | the worker's report, the store and the renewer's answers, for any interleaving of ticks and supervisor's writes |
| Pool.DenialRecorded | internal/pool/pool.go:339-353 | what a denial leaves of a dispatch that could be claimed: denied, ended, nobody's, with the gate's reason if it could be written and else the old one |
| Pool.DeliveryFailed | internal/pool/pool.go:333-424 | after a gate error, an unreadable record, an unknown adapter, a failed materialisation or a failed preparation the dispatch is failed and ended, and the worker reports an error |
| Pool.RunRecorded | internal/pool/pool.go:419-445 | after a run it has the adapter's status, failed if that is missing or empty, and the last usage a supervisor wrote; a status that is not terminal leaves it held |
| Pool.TicksAnswered | internal/pool/pool.go:390-405 | without a supervisor every renewal is refused once `running` is written, and none otherwise |
| Pool.RefusedAfterReport | internal/pool/pool.go:390-415 | a tick after the supervisor's terminal record is refused although the record never said running |
| Pool.SupervisorStatusSurvives | internal/pool/pool.go:419-436 | in the record that ExecuteDispatch leaves, the usage of a supervisor's last write always stands; its status stands if and only if the adapter reports that status, or one that is not terminal, with which the dispatch stays held |
| ShellLexer.SplitSegments | internal/hook/cmdclass.go:91-254 | a command is accepted exactly when the reference lexer accepts it, and the segments are the trimmed non-empty pieces between unquoted separators |
| ShellRules.PlainUnquoted | internal/hook/cmdclass.go:17-20 | a text without quotes and backslashes ends unquoted, so the rules below apply behind it |
| ShellRules.SubstitutionRefused | internal/hook/cmdclass.go:24-26 | whatever comes before and behind, `$(` or a backtick unquoted or inside double quotes makes a command refused and not read-only for any table |
| ShellRules.PlainSubstitution | internal/hook/cmdclass.go:183-186 | so it is behind any text without quotes and backslashes |
| ShellRules.RedirectionRefused | internal/hook/cmdclass.go:188-208 | so is an unquoted `<`, and an unquoted `>` unless it stands between a pending `2` and `&1` |
| ShellRules.AmpersandRefused | internal/hook/cmdclass.go:225-232 | so is an unquoted `&` with no `&` beside it and no `>` before it |
| ShellRules.OpenRefused | internal/hook/cmdclass.go:28-28 | so is a quotation left open without backslashes in it |
| ShellRules.QuotationKept | internal/hook/cmdclass.go:120-167 | behind a text that ends unquoted, a quotation without expansions changes nothing of the verdict, finishes no segment, and is kept with its quotes |
| ShellRules.QuotationAlone | internal/hook/cmdclass.go:120-167 | on its own it is accepted and the one segment |
| ShellRules.EscapeKept | internal/hook/cmdclass.go:114-127 | a backslash outside single quotes makes any byte an ordinary one: kept without the backslash, neither dangerous nor separating |
| ShellRules.DuplicationKept | internal/hook/cmdclass.go:188-202 | `2>&1` behind a text that ends unquoted leaves verdict and segments as they were |
| ShellRules.EscapedQuoteRefused | internal/hook/cmdclass.go:362-370 | a command that is accepted and not read-only for any table, because its segment does not tokenise |
| ShellWords.ShellFields | internal/hook/cmdclass.go:282-358 | tokenising succeeds exactly when the text ends unquoted, with the reference words |
| ShellWords.UnquoteQuote | internal/hook/cmdclass.go:282-358 | single-quoting words and joining them by blanks is undone by the tokeniser, which drops exactly the empty words |
| ShellWords.UnescapeEscape | internal/hook/cmdclass.go:282-358 | a backslash before every byte of arbitrary words is undone as well |
| ShellWords.UnquoteDouble | internal/hook/cmdclass.go:282-358 | so is double-quoting with a backslash before every quote and backslash |
| ShellWords.WordsApart | internal/hook/cmdclass.go:282-358 | at an unquoted blank of any of the four kinds the words are those of the two sides |
| ShellWords.OrdinaryWord | internal/hook/cmdclass.go:282-358 | bytes other than those blanks, quotes and backslashes make one word |
| ShellWords.NonEmptyExact | internal/hook/cmdclass.go:282-358 | the list comes back unchanged if and only if it has no empty word |
| CommandClass.CheckVarAssignment | internal/hook/cmdclass.go:259-276 | recognises exactly an identifier followed by `=` |
| CommandClass.AssignmentIs | internal/hook/cmdclass.go:259-276 | said of texts: a name of letters, digits and underscores that does not begin with a digit, `=`, and anything |
| CommandClass.ClassifySegment | internal/hook/cmdclass.go:362-376 | a segment is harmless exactly if it tokenises, assigns no variable first and its argument list is allowed |
| CommandClass.ClassifyCommand | internal/hook/cmdclass.go:59-77 | a command is read-only exactly if it is accepted and every segment is harmless |
| CommandClass.SplitSequenced | internal/hook/cmdclass.go:91-254 | for a first command that ends unquoted, splitting `a;b` (or a newline or pipe) gives the segments of a and then of b, and is refused exactly if one of them is |
| CommandClass.SplitAnd | internal/hook/cmdclass.go:225-232 | the same of `a&&b`, for a first command that ends unquoted and not in an unpaired `&` |
| CommandClass.LoneAmpsMeet | internal/hook/cmdclass.go:225-232 | that condition is needed: `x&` and `&y`, each refused, are accepted with `&&` between them |
| CommandClass.SplitOr | internal/hook/cmdclass.go:210-215 | the same of the doubled pipe, for any first command that ends unquoted |
| CommandClass.ReadOnlySequenced | internal/hook/cmdclass.go:59-77 | such a sequence of non-empty commands is read-only if and only if both are |
| CommandClass.ReadOnlyAnd | internal/hook/cmdclass.go:59-77 | and so is `a&&b` |
| CommandClass.SegmentsTokenise | internal/hook/cmdclass.go:362-370 | every segment of an accepted command without backslashes tokenises |
| CommandClass.OpenQuoteAccepted | internal/hook/cmdclass.go:28-28 | a command left inside a quotation is accepted if and only if nothing in it is dangerous and it ends in a backslash inside double quotes |
| CommandClass.OpenQuoteReadOnly | internal/hook/cmdclass.go:247-253 | one such command is read-only whatever the table of allowed commands says |
| CommandClass.QuotedCommand | internal/hook/cmdclass.go:91-254 | single-quoted arguments form one segment that tokenises to the non-empty arguments, and the verdict is that of the table on them |
| CommandForms.AcceptArgs | internal/hook/cmdclass.go:755-790 | the option loop accepts exactly the arguments that ArgsLanguage characterises |
| CommandForms.BaseIs | internal/hook/cmdclass.go:745-750 | the base name of a path is what stands behind its last slash, slashes at the end left out |
| CommandForms.OptionsOnce | internal/hook/cmdclass.go:755-790 | as texts: every accepted argument is one of five options or a known backend's name behind `--backend`, and none comes twice |
| CommandForms.OptionsAnyOrder | internal/hook/cmdclass.go:755-790 | as texts: any of them, in any order, are accepted |
| CommandForms.ArgsLanguage | internal/hook/cmdclass.go:707-717 | the options accepted are exactly the spellings of lists with each option at most once, in any order, and a known backend |
| CommandForms.IsSelfUninstall | internal/hook/cmdclass.go:721-791 | recognises exactly a single segment that runs `tiller uninstall` with such options |
| CommandForms.NotUninstall | internal/hook/cmdclass.go:732-745 | what the splitter refuses, what is not one segment and what does not tokenise is never recognised |
| CommandForms.NoChaining | internal/hook/cmdclass.go:719-730 | a sequence of complete commands is recognised if and only if one of them is and the other is accepted and has no segment |
| CommandForms.PlainUninstall | internal/hook/cmdclass.go:721-791 | plain words with single blanks between them are recognised if and only if they have the form |
| CommandForms.TrailingSeparator | internal/hook/cmdclass.go:719-730 | and just so with a separator behind them |
| CommandForms.SemicolonAccepted | internal/hook/cmdclass.go:719-730 | `tiller uninstall;` is recognised |
| CommandForms.QuotedUninstall | internal/hook/cmdclass.go:732-791 | a single-quoted argument list is recognised if and only if its arguments have the form |
| TailReader.WindowIsTail | internal/adapter/claudecode/detect.go:103-179 | wherever backward reading stops, the window is the tail of the file's lines; it is exactly the last lines if and only if reading did not stop inside a line with just the wanted count of newlines behind it and a newline at the end of the file |
| TailReader.CutLine | internal/adapter/claudecode/detect.go:89-103 | a file whose last line comes back without its beginning |
| TailReader.WindowLines | internal/adapter/claudecode/detect.go:103-179 | line by line: all but the oldest line of the window are lines of the file as they stand, and only something in front of that one can be missing |
| TailReader.ShortParts | internal/adapter/claudecode/detect.go:169-178 | a line is dropped exactly if it is over the limit, wherever it stands |
| TailReader.ReadBackward | internal/adapter/claudecode/detect.go:120-142 | for every chunk size, the chunks assemble to a suffix of the file with enough newlines, or to all of it |
| TailReader.TailLines | internal/adapter/codex/detect.go:58-134 | the result is the short lines of that window, which is the last lines of the file if and only if no line was cut |
| LineScanner.ScannedAll | internal/adapter/claudecode/detect.go:68-89 | the scanner reports the leading lines that fit; it reports every line if and only if every line fits its buffer |
| LineScanner.ScannedFitting | internal/adapter/claudecode/detect.go:68-87 | it reports the lines that fit, as if it skipped the others, if and only if none of them stands behind an overlong one |
| LineScanner.OverlongStops | internal/adapter/claudecode/detect.go:68-87 | a file where a line that fits is not reported |
| TailReader.DetectModel | internal/adapter/claudecode/detect.go:205-262 | newest line of the tail first, then the whole file; under a discerning test and lines that fit the result is what the line says behind which no line qualifies, and nothing if and only if none does |
| TailReader.DetectsLatest | internal/adapter/claudecode/detect.go:205-262 | tail-then-fallback picks the last qualifying line, by its position, for any test that says of a proper suffix of a line nothing but what it says of the line, for every window |
| TailReader.LatestIs | internal/adapter/claudecode/detect.go:225-255 | reading to the end or back from it, the answer is that of the last line that qualifies, by position, and none if and only if none does |
| TeeStore.TeeStore.AnswerCall | internal/scratch/teestore.go:90-399 | a caller's first step: the authoritative store's answer, and the mirror write it still has to offer |
| TeeStore.MirroredIs | internal/scratch/teestore.go:90-399 | call by call: which answers of which calls are mirrored, and as what |
| TeeStore.TeeStore.Enqueue | internal/scratch/teestore.go:65-71 | its second step never waits; the queue never exceeds 512, and only a full one loses the write |
| TeeStore.TeeStore.Invoke | internal/scratch/teestore.go:109-122 | a caller nobody comes between gets the authoritative answer, and its write is queued unless the queue is full |
| TeeStore.TeeStore.Receive | internal/scratch/teestore.go:56-61 | the goroutine takes the oldest queued write |
| TeeStore.TeeStore.Run | internal/scratch/teestore.go:56-61 | and runs it on the mirror, at a moment of the mirror's own clock, leaving the authoritative store and the queue alone |
| TeeStore.TeeStore.Close | internal/scratch/teestore.go:75-86 | the mirror has run everything the queue took, in the order it was offered |
| TeeStore.RunSchedule | internal/scratch/teestore.go:37-86 | under every interleaving of callers' two steps and the goroutine's, answers are those of the authoritative store alone; the mirror ran the offered writes, in order, without one for each offer that met a full queue |
| TeeStore.PlayNumbered | internal/scratch/teestore.go:90-399 | in every interleaving each mirror write is waiting at its caller or offered, only once, and each caller's in its own order |
| TeeStore.AllOffered | internal/scratch/teestore.go:65-71 | once every caller has returned, the offered writes are a permutation of the writes answered |
| TeeStore.InOrderIff | internal/scratch/teestore.go:65-71 | which is the order of the authoritative answers if and only if no offer overtook one that was waiting |
| TeeStore.MirrorFollows | internal/scratch/teestore.go:90-399 | for two stores with behaviours and clocks of their own, and any way of comparing them that one call and its mirror write keep at whatever moments the two run: a mirror that ran the writes in the order of the answers still compares |
| TeeStore.OrderlyFollows | internal/scratch/teestore.go:37-86 | so an interleaving without overtaking and without drops ends with a mirror that compares |
| TeeStore.RunOrderly | internal/scratch/teestore.go:37-86 | and so does the tee itself on such a schedule, whenever its goroutine gets to run |
| TeeStore.OvertakenMirror | internal/scratch/teestore.go:145-157 | two callers, nothing dropped, equal stores that each write keeps equal: the mirror ends with the older record, whenever it ran the writes |
| DispatchMirror.StepsAreCalls | internal/scratch/pgstore/claims.go:20-90 | the steps from which both behaviours are made are the calls that `Stores` proves of its two classes |
| DispatchMirror.SweepIsCall | internal/scratch/fsstore/claims.go:154-211 | and the sweep's is the expiry call, answered with exactly the expired ids |
| DispatchMirror.ViewMeans | internal/scratch/pgstore/pgstore.go:197-226 | what the two are compared in: every record has a row that agrees in each field but for the two moments, and every other row is an allocation's placeholder |
| DispatchMirror.FsAllocates | internal/run/store.go:88-125 | allocation on the files makes the directory, or fails and changes nothing |
| DispatchMirror.PgAllocates | internal/scratch/pgstore/pgstore.go:197-226 | allocation on the rows takes the counter's id, moves the counter on and reserves the id unless its row is there |
| DispatchMirror.CallViewed | internal/scratch/teestore.go:356-392 | records that agree but for their moments still do after a claim, renewal or release that succeeded on the files at one moment and runs on the rows at another, where it succeeds too; a refused one needs no mirror write |
| DispatchMirror.CallFollows | internal/scratch/teestore.go:90-392 | every call of the interface but a sweep keeps the two stores' dispatches agreeing but for moments and placeholder rows, whenever the mirror runs its write |
| DispatchMirror.DispatchesFollow | internal/scratch/teestore.go:37-86 | so they agree after every interleaving of any number of callers without overtaking, drops and sweeps |
| DispatchMirror.SweepUnmirrored | internal/scratch/teestore.go:393-395 | after a sweep they still agree if and only if it had nothing to requeue |
| DispatchMirror.ClaimMoments | internal/scratch/fsstore/claims.go:44-78 | a claim won at one moment and mirrored at another leaves each store the deadline of its own clock, equal if and only if the moments are |
| DispatchMirror.ReleaseMoments | internal/scratch/pgstore/claims.go:64-90 | a release likewise leaves two end times, and records that agree in everything else |
| Decimals.DecimalInjective | internal/hook/ambient_event.go:134-147 | two numbers print alike only if they are equal |
| Decimals.DecimalLength | internal/hook/ambient_event.go:138-146 | a number has at most k digits if and only if it is below the k-th power of ten |
| AmbientLedger.IntFingerprint | internal/hook/ambient_event.go:134-147 | every machine integer from zero on prints as its decimal digits within the twenty-byte buffer, and a negative one as nothing |
| AmbientLedger.AttemptsDiffer | internal/hook/ambient_event.go:130-132 | attempt ids tell descriptor and ordinal apart, for a hash without collisions |
| AmbientLedger.AmbientAttemptId | internal/hook/ambient_event.go:102-128 | the attempt a hook works on: for a result the latest recorded one, else the count of attempts or the first; for a descriptor one more than the count |
| AmbientRecords.AttemptIs | internal/hook/ambient_event.go:102-132 | its text: the last attempt named in the ledger by position, else by count, in decimal digits |
| AmbientRecords.DescriptorTells | internal/hook/ambient_descriptor.go:18-47 | two calls are attempts of one task if and only if backend, tool, agent type and objective agree, for a hash without collisions |
| AmbientRecords.AttemptKeys | internal/hook/ambient_reconcile.go:343-345 | descriptor events and checkpoint candidates share an id if and only if they are of the same attempt |
| AmbientRecords.ResultKey | internal/hook/ambient_reconcile.go:339-341 | results share an id if and only if attempt, tool, status and text agree |
| AmbientRecords.DistillationKey | internal/hook/ambient_reconcile.go:395-397 | distillations share an id if and only if attempt and text agree |
| AmbientRecords.RefsAre | internal/hook/ambient_event.go:149-176 | which references an event has, each with its field; empty fields have none |
| AmbientRecords.DescriptorRecorded | internal/hook/ambient_descriptor.go:18-47 | a descriptor hook records exactly the calls that start a task, as requested, field by field |
| AmbientRecords.ResultSays | internal/hook/ambient_reconcile.go:318-333 | a result's status, agent and summary, for every backend and tool |
| AmbientRecords.ResultRecorded | internal/hook/ambient_reconcile.go:87-107 | the ledger after a result hook: the result and then the distillation, each unless its id is there |
| AmbientRecords.DistillationSays | internal/hook/ambient_reconcile.go:369-393 | a distillation's fields; completed if and only if the result says completed or closed |
| AmbientRecords.CandidateRecorded | internal/hook/ambient_reconcile.go:343-367 | a candidate is made exactly of a report that asks for one and whose attempt has none, field by field |
| AmbientRecords.ReportMade | internal/hook/ambient_reconcile.go:76-85 | the report a result makes, and on which agent |
| AmbientLedger.RefsName | internal/hook/ambient_event.go:149-176 | the references of an event always yield its own descriptor and attempt, whatever its other fields contain |
| AmbientLedger.AmbientHooks.AppendAmbientTaskDescriptor | internal/hook/ambient_descriptor.go:18-47 | the ledger after a descriptor hook: the numbering DescribedNumbered is about |
| AmbientLedger.AmbientHooks.ReconcileAmbientTaskResult | internal/hook/ambient_reconcile.go:65-112 | what a result hook leaves: one report on the agent, and at most one event, candidate and distillation, each unless its id is there |
| AmbientLedger.AmbientHooks.UpsertAmbientAgentRun | internal/hook/ambient_reconcile.go:399-448 | the agent's record with the report worked in; no other agent's changes |
| AmbientLedger.AmbientHooks.AppendAmbientCheckpointCandidate | internal/hook/ambient_reconcile.go:343-367 | a candidate is added unless its id is there |
| AmbientLedger.DescribedNumbered | internal/hook/ambient_descriptor.go:18-47 | every descriptor hook appends exactly one event, with the ordinal after those of its descriptor |
| AmbientLedger.StaleDescriptor | internal/hook/ambient_descriptor.go:18-47 | a hook that read the ledger earlier keeps the numbering if and only if no attempt of its descriptor was appended since |
| AmbientLedger.PlayNumbered | internal/hook/ambient_event.go:102-132 | over every run of hooks and foreign events, the k-th descriptor event of a descriptor carries ordinal k |
| AmbientLedger.PlayedRuns | internal/hook/ambient_event.go:102-132 | on every such ledger attempt ids are pairwise distinct, and no slot of the descriptor folding is sensitive to the order of events |
| AmbientLedger.ResultAttaches | internal/hook/ambient_reconcile.go:65-99 | a result names the attempt with the highest ordinal, or the first if none has begun, and is in the ledger afterwards |
| AmbientLedger.Redelivered | internal/hook/ambient_reconcile.go:87-107 | delivering a result again, after anything that starts no new attempt of its task, leaves events and candidates as they are, and is one more report on the same agent |
| AmbientLedger.ResultIdTellsAttempt | internal/hook/ambient_reconcile.go:339-341 | results of different attempts have different event ids |
| AmbientLedger.AttemptAgents | internal/hook/ambient_reconcile.go:335-337 | without agent ids from the backend, two results share an agent record if and only if they are of the same attempt |
| AmbientLedger.PlayAgents | internal/hook/ambient_reconcile.go:65-112 | over every run of hooks an agent's record is what the reports on that agent, in order, add up to |
| AgentRuns.UniqueReportValues | internal/hook/ambient_reconcile.go:304-316 | the list ValuesMeaning is about |
| AgentRuns.ValuesMeaning | internal/hook/ambient_reconcile.go:304-316 | exactly the non-blank values, trimmed, without repetition |
| AgentRuns.ValuesPrefix | internal/hook/ambient_reconcile.go:304-316 | in the order in which they first occur |
| AgentRuns.Upserted | internal/hook/ambient_reconcile.go:399-448 | the record field by field after one report: what the lemmas on whole histories are about |
| AgentRuns.LastWords | internal/hook/ambient_reconcile.go:429-446 | after any reports, summary, files, verification and caveats are those of the last report that has them, and the end that of the last ending one |
| AgentRuns.FirstWords | internal/hook/ambient_reconcile.go:399-425 | start, agent id, role and tier are those of the first report that has them |
| AgentRuns.TiersAre | internal/hook/codex_lifecycle.go:206-221 | the role and tier of every agent type |
| AgentRuns.HistoryRefs | internal/hook/ambient_reconcile.go:399-427 | the first report's references are kept as they came; from the second report on the record has the non-blank ones of all reports, trimmed and each once |
| AgentRuns.LastStatus | internal/hook/ambient_reconcile.go:426-434 | status and report time are those of the last report |
| AgentRuns.EndStays | internal/hook/ambient_reconcile.go:426-432 | an end is on record if and only if some report was of an end, whatever the status now |
| AgentRuns.EndsAre | internal/hook/ambient_reconcile.go:430-432 | the three statuses that end an agent |
| AgentRuns.ReportedTwice | internal/hook/ambient_reconcile.go:399-448 | the same report once more changes times only, on a record that was there before |
| StatusFold.UniqueStrings | internal/scratch/status.go:761-772 | the list of first occurrences, in order |
| StatusFold.UniqueKeeps | internal/scratch/status.go:761-772 | which are the same set of strings, without repetition |
| StatusFold.EffectiveDescriptorGroups | internal/scratch/status.go:440-461 | the groups in the map are the fold whose meaning GroupIsLatest and GroupRefs give, whatever the events |
| StatusFold.GroupIsLatest | internal/scratch/status.go:440-461 | one group for every descriptor that occurs, holding an event that is last by (time, id) |
| StatusFold.GroupNewest | internal/scratch/status.go:440-461 | by its fields: none of the group's events has a greater time, or the same time and a greater id |
| StatusFold.GroupRefs | internal/scratch/status.go:446-454 | a group's references are the union of its events' references, each once |
| StatusFold.CollectResults | internal/scratch/status.go:409-422 | the results in the map are the fold whose meaning ResultIsLatest gives; results without a descriptor are passed over |
| StatusFold.ResultIsLatest | internal/scratch/status.go:409-422 | the result kept for a descriptor is the last of its result events by (time, id) |
| StatusFold.ResultNewest | internal/scratch/status.go:409-422 | by its fields: none of the descriptor's results has a greater time, or the same time and a greater id |
| StatusFold.EffectiveTaskDescriptorEvents | internal/scratch/status.go:407-438 | one output per descriptor, each its group with the latest result laid over |
| StatusFold.EffectiveNewest | internal/scratch/status.go:407-438 | the output of a descriptor has identity and time of its newest descriptor event, and status and agent of its newest result, each unless that is empty |
| StatusFold.EffectiveMeaning | internal/scratch/status.go:407-438 | whatever the references: the result is laid over the group if and only if the first descriptor reference of its first event names the group; identity and time are the group's, status and agent the result's where it has them, references the union of both |
| StatusFold.OrderIndependent | internal/scratch/status.go:407-461 | when (time, id) tells events apart, ledgers with the same events in any order agree on every slot, up to the order of references, that does not hold both a blank descriptor reference and a named one; events without a reference are included |
| StatusFold.OrderShowsIff | internal/scratch/status.go:407-461 | some order of the same events gives another outcome in a slot if and only if the slot holds both kinds and its result says something its group does not |
| StatusFold.OrderShows | internal/scratch/status.go:440-461 | such a slot: two orders of three events give different statuses |
| StatusOrders.ChoiceMade | internal/scratch/status.go:407-461 | in any ledger, whether time and id tell its events apart or not, a slot's outcome is that of one of its latest descriptor events, one of its descriptor references and one of its latest results |
| StatusOrders.ChoiceOrdered | internal/scratch/status.go:407-461 | and every admissible choice of them is the outcome of some order of the same events |
| StatusOrders.OrderShowsExactly | internal/scratch/status.go:407-461 | so no order of the same events changes a slot if and only if all its choices come out alike |
| StatusOrders.TiesShow | internal/scratch/status.go:440-461 | in a slot without a result, some order shows if and only if two of the latest events differ in more than their references |
| DispatchIds.DispatchIdInjective | internal/run/ids.go:23-27 | ids of different ordinals differ, at every width |
| DispatchIds.IsNumericDispatchId | internal/run/ids.go:43-53 | recognises exactly `d` followed by one or more digits |
| DispatchIds.DispatchDir.NextDispatchIdFromDirs | internal/run/ids.go:59-75 | the id after the number of numeric directories |
| DispatchIds.DispatchDir.AllocDispatch | internal/run/store.go:88-125 | makes that directory, or fails and changes nothing if the name is taken or the parent missing |
| DispatchIds.DispatchSeq.AllocDispatch | internal/scratch/pgstore/pgstore.go:197-226 | returns the counter's ordinal and moves it on by one |
| DispatchIds.AllocDense | internal/run/store.go:88-125 | from a directory with exactly the first n ids, whatever else is in it, allocation succeeds with the next and keeps it so |
| DispatchIds.AllocateBoth | internal/scratch/pgstore/pgstore.go:197-226 | from an empty run both allocators give the same pairwise distinct ids without a gap, any number of times |
| DispatchIds.AllocAfterRemovals | internal/run/ids.go:59-75 | whichever of the first n directories are left, allocation fails if and only if the ordinal after their number is among them, and hands out a new id if and only if none was removed |
| DispatchIds.RemovedDirectory | internal/run/ids.go:59-75 | after one of n directories is removed, allocation works if and only if it was the last |
| DispatchIds.ListedInOrder | internal/run/ids.go:23-27 | a listing sorted by name is in allocation order if and only if there are at most 99 ids |
| DispatchTree.SortNodes | internal/run/tree.go:64-70 | the insertion sort returns the same nodes, in order |
| DispatchTree.Forest.constructor | internal/scratch/fsstore/fsstore.go:781-806 | root and child lists hold exactly who belongs there, ascending, whatever order the map yields |
| DispatchTree.ShapeUnique | internal/scratch/fsstore/fsstore.go:787-806 | those lists are determined by the recorded parents alone |
| DispatchTree.ParentsOfDistinct | internal/scratch/fsstore/fsstore.go:782-785 | with distinct ids the recorded parents do not depend on the order of the list |
| DispatchTree.Conserved | internal/run/tree.go:18-61 | the tree contains each dispatch whose parent chain reaches a root exactly once, and no other |
| DispatchTree.WholeRecorded | internal/scratch/fsstore/fsstore.go:787-815 | every node stands under its recorded parent, after siblings with smaller ids |
| DispatchTree.WholeTop | internal/scratch/fsstore/fsstore.go:808-815 | the top is the one dispatch without a parent in the run, or a nameless node over all of them, ascending |
| DispatchTree.NothingLost | internal/run/tree.go:30-43 | every dispatch is in the tree if and only if following parents never comes back to a dispatch it started from |
| DispatchTree.AcyclicReaches | internal/run/tree.go:30-43 | without such a cycle every chain of parents ends at a root |
| DispatchTree.CycleUnreached | internal/run/tree.go:30-43 | a dispatch on a cycle is not in the tree |
| DispatchTree.BuildDispatchTree | internal/scratch/fsstore/fsstore.go:781-815 | building from a flat list gives a tree with all of that |
| TomlEdit.FindTomlSection | internal/cli/install.go:1720-1738 | the first header of the section and the next line that opens a bracket |
| TomlEdit.SetKeyLine | internal/cli/install.go:1675-1695 | the first assignment of the key in its section is rewritten in place; without one the assignment goes to the section's end, without a section behind a new header |
| TomlEdit.RemoveKeyLine | internal/cli/install.go:1697-1711 | the lines without the first exact assignment in the section |
| TomlEdit.LineKeyIs | internal/cli/install.go:1740-1750 | which lines assign a key, as texts |
| TomlEdit.SetInSection | internal/cli/install.go:1687-1694 | by positions: the first assignment of the key between the section's header and its end is rewritten, and without one the assignment goes to that end |
| TomlEdit.RemoveInSection | internal/cli/install.go:1703-1710 | by positions: exactly the first line there that is this very assignment goes |
| TomlEdit.SetLookups | internal/cli/install.go:1675-1695 | after setting a key its lookup finds the new value and every other lookup finds what it found before |
| TomlEdit.NewSectionSeparated | internal/cli/install.go:1679-1685 | a new section stands behind all earlier lines, set off by one blank line if needed, header before key |
| TomlEdit.SetSections | internal/cli/install.go:1679-1685 | setting a key makes its section and no other |
| TomlEdit.RemoveFound | internal/cli/install.go:1697-1711 | a removal takes out what the lookup finds, when that is the exact assignment |
| TomlEdit.RemoveFrame | internal/cli/install.go:1703-1708 | taking out a line changes no lookup of another key |
| CodexConfig.SetTomlKey | internal/cli/install.go:1675-1695 | a text's lines are split, edited and joined with exactly one final newline |
| CodexConfig.RemoveTomlKeyValue | internal/cli/install.go:1697-1711 | the text without the first exact assignment and whether there was one; otherwise the text, with a final newline |
| CodexConfig.ReadBack | internal/cli/install.go:1713-1718 | writing lines out and splitting them again loses exactly the empty lines at the end |
| CodexConfig.MergeLookups | internal/cli/install.go:1632-1637 | after a merge the three managed keys have their values, and every other lookup is unchanged |
| CodexConfig.MergeIdempotent | internal/cli/install.go:1632-1637 | merging twice gives the text of merging once |
| CodexConfig.MergedFromNothing | internal/cli/install.go:1632-1637 | the lines written into an empty file |
| CodexConfig.DefaultsRestored | internal/cli/install.go:1669-1673 | removing the managed defaults gives back the text with only the features setting if and only if the agents section was there without either key |
| Tier.PrintThenParse | internal/tier/tier.go:46-48 | a candidate reads back from its print if and only if its parts are non-empty and its separators cannot be confused |
| Tier.ParseThenPrint | internal/tier/toml.go:363-388 | whatever text is read as a candidate is the candidate's print |
| Tier.ParseStringArray | internal/tier/toml.go:269-302 | the loop reads exactly the arrays, and finds exactly the errors, that ArrayRoundTrip is about |
| Tier.ArrayRoundTrip | internal/tier/toml.go:269-302 | printing an array and reading the line gives the array back if and only if no string has a quote in it |
| ModelsLines.TokensStep | internal/tier/toml.go:286-300 | which insides of an array are read, and as what: a quoted string, white space with at most one comma, and the rest |
| ModelsLines.ArrayInsideIs | internal/tier/toml.go:269-285 | which lines hold an array for a key, as texts |
| ModelsLines.StringValueIs | internal/tier/toml.go:246-263 | which lines hold a string for a key, and which string |
| ModelsToml.Parse | internal/tier/toml.go:38-248 | an error on any line, an overlong line or an incomplete section makes the whole file an error; otherwise the configuration FileRoundTrip and ParsedSound are about |
| ModelsLines.AmbientLineIs | internal/tier/toml.go:171-222 | what a line of an ambient section can be: a non-empty detector, a non-empty list of governed tiers, or the non-empty models of a tier whose key is not taken for one of these |
| ModelsLines.ReadLineIs | internal/tier/toml.go:59-226 | the forms a line can have, as texts, in each kind of section; every other line is an error |
| ModelsLines.ParsedIs | internal/tier/toml.go:38-248 | a file is accepted if and only if every line fits the scanner and has such a form where it stands, and no section lacks what it must have |
| ModelsToml.FileRoundTrip | internal/tier/toml.go:38-248 | the text of a file written section by section (tiers, adapters, ambient backends; no line breaks in names and values) reads back as what was written, later sections replacing earlier ones, if and only if every line fits the scanner |
| ModelsToml.ParsedSound | internal/tier/toml.go:229-245 | in whatever file parses, no tier is empty, no ambient entry incomplete, and every candidate survives printing and parsing |
| ModelsToml.Load | internal/tier/tier.go:178-204 | defaults with the project's entries over them are again without empty tiers; an error in either file is an error |
| ModelsToml.Resolve | internal/tier/tier.go:163-173 | for every integer bucket the candidate at the bucket's residue, never out of range |

## Left out

- The table of read-only argument lists (`git`, `go`, `curl`, `sed`, `ss`, `canopy`, `hypha` and the rest) is the parameter `allowed`; the recognisers for ambient control, `codex exec` and checkpoint commits are not modelled.
- Bytes are ASCII: blanks are the six ASCII ones, and quoting and trimming of other Unicode spaces is not modelled.
- The locked update of `meta.json` is one atomic step, a directory listing is one atomic read, and short reads, fsync, JSON, SQL and lock files are not modelled; the sentinel's content (executor and deadline, written for inspection) is reduced to its presence.
- PostgreSQL's collation: listings of the row store are in byte order.
- Stores.FsStore.ClaimDispatch: does not tell a lost race from an error; both are "not won", and so are they in the pool's outcome.
- Pool.ExecuteDispatch: runs on a store that only the worker, its lease renewer and a supervisor use, whose reads and writes are single steps; missing delivery parameters, the enforcement and sandbox fields, audit lines and cost figures are not modelled.
- ClaimSteps.NextInv: the holder's own rewrite of its record is one step taken while it holds the record; ClaimSteps.StaleWrite and StaleWriteLease say what happens otherwise.
- The pool's delivery loop and the timing of its sweeper; a sweep is any `ExpireLeases` call at any moment of ClaimSteps.
- The arbiter, its policies and journal, the gate's evaluation (an arbitrary verdict with a reason), supervisor processes and signals.
- TailReader.DetectModel: whether a line qualifies and what model it names is the parameter `q`, which does not see a carriage return at the end of a line.
- TeeStore.RunSchedule: one operation of the authoritative store is one step, and so is one of the mirror; callers return before `Close`.
- DispatchMirror.DispatchesFollow: excludes `ExpireLeases`, which is not mirrored (DispatchMirror.SweepUnmirrored says when that matters), and compares dispatch records only: runs, agents, documents and notes, whose file names carry each store's clock, are not part of the comparison.
- Hashes are a function parameter; where distinctness needs it, absence of collisions is a hypothesis, and so is that outputs are plain text.
- AmbientLedger.PlayNumbered: each hook is one step, although hooks are processes of their own that read the ledger and then append to it; AmbientLedger.StaleDescriptor says when that matters.
- AmbientLedger.AmbientHooks.ReconcileAmbientTaskResult: report parsing (its findings are fields of the response), normalisation of tool names and fields, and a ledger that cannot be read are not modelled.
- StatusFold.EffectiveTaskDescriptorEvents: returns outputs in some order, as the source does; the order of references within one is not compared.
- DispatchTree.Forest.constructor: nodes are known by their ids, and a child list is a field of the forest under its node's id instead of a field of a node on the heap.
- CodexConfig.SetTomlKey: keys and values are as the callers pass them, without line breaks, `=` in keys or blanks at their ends, where the lemmas need it.
- ModelsToml.Parse: one error value for all error messages.
- Hook lists in JSON settings, agent files, doctors, install prompts, status rendering, budget figures, run ids and dispatch counts by status.
