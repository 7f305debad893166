# ChannelTerm: verified model

ChannelTerm lets several clients share one serial or SSH terminal. This project models the parts
that decide who may write, move binary files through a shell, and decorate a byte stream without
corrupting it, and proves what each of them keeps on every input, every interleaving and every run.

`dafny verify dfyconfig.toml` checks the whole project.

## What is modelled

**Lease coordinator** (`Lease`, `LeaseSafety`, `LeaseProperties`, `LeaseCoordinator`, `LeaseRuns`).
`Lease` is the protocol of one Session as atomic steps: each step is one stretch of code under the
coordinator mutex, and a thread that gives the mutex up (to publish an expiry, to write, to wait on a
channel) keeps a program counter. `LeaseSafety` proves an invariant over every interleaving.
`LeaseCoordinator` is the object with its maps keyed by Session; every critical section is proved to
be exactly one step for its own Session and nothing but a tick of the clock and the shared counters
for the others, so that the invariant holds for all Sessions at once (`LeaseRuns`).

**File transfer** (`Search`, `Markers`, `RemoteBoard`, `ShellExit`, `TerminalIO`, `FileProtocol`,
`FileTransfer`, `TransferShell`, `Naming`). The board is an abstract machine in place of the shell
scripts: a child shell is started inside the user's shell, answers a command with a marker, moves a raw
block piece by piece, reports, and ends, told to or by its own watchdog, whereupon its parent prints the
exit bytes. It may print any noise that does not contain the transfer's random prefix or look like that
exit. Every read returns any number of bytes, and any read or write may fail. The client code is proved
against this machine: the choice of a free path, block by block, whole file by whole file, through the
target-side shell and under the lease.

**Terminal presentation** (`Vt`, `Matches`, `Sorting`, `Presentation`, `Highlight`, `PromptTimestamp`).
A rendered stream is a sequence of cells: board bytes, stamp bytes, style openings and resets. Erasing
what this program inserted gives back the board's bytes, and a style opens only where the text before
it has left no escape sequence, attribute or alternate screen open.

**Hidden output** (`HiddenRanges`, `PresentationGate`, `PresentationRepair`, `HiddenIntervals`,
`AttachPresentation`). The gate that hides transfer and command traffic, driven by events that are
replayed in suffixes.

**Smaller machines**: the debug event log and lifecycle (`DebugEvents`, `DebugLifecycle`), the
installer transaction with its PATH block (`PathBlock`, `Install`), and the escape controller
(`EscapeController`).

## What the proofs found

- A terminal or debug lease that ends, by release or by expiry, while a completed and unanswered
  transfer confirmation is retained closes that confirmation's channels a second time, which panics.
  The removal of a registration guards this case (internal/core/app/lease.go:685), release and expiry
  (internal/core/app/lease.go:273-297 and 346-352) do not. `LeaseSafety.DoubleCloseIffEndsRetained`
  proves that this is exactly when a run closes a channel twice, and
  `LeaseSafety.ReleaseAfterCompletedTransferClosesTwice` gives the five steps. Everything else about
  leases is proved on all runs without such a step; transfers alone never take it.
- Removing a registration while somebody waits for a confirmed cancellation gives that caller an empty
  result and no error, because the result is never written
  (`LeaseProperties.ConfirmedStaysConfirmed`; `LeaseProperties.RemovalLeavesNoResult` is a run of four
  steps).
- The clean-up after an expired write or debug lease removes without naming the registration
  (internal/core/app/application.go:518-521), so it is not fenced against a registration that took its
  place after somebody else had closed the Session (`LeaseProperties.RemovalIsFenced`;
  `LeaseProperties.UnnamedRemovalEndsAReplacement` is a run of five steps).
- Answering a stale request can withdraw another request whose own deadline has passed
  (`LeaseProperties.DeadRequestsDoNothing`); it does nothing else.
- The gate is refreshed with suffixes of its event log, which is harmless, but events are also handled
  one by one behind the refreshes (internal/cli/command/attach_file_presentation.go:519-545), so that an
  event can be handled again out of the middle. `PresentationGate.HandledAgainIff` says exactly when
  that changes nothing, and `PresentationGate.HiddenAfterHandledAgain` which positions it reveals and
  which it hides; `MiddleReplayReveals` and `MiddleReplayConceals` are logs for both directions. A
  refresh that reaches back to the event repairs the gate (`PresentationRepair.RefreshRepairs`); a later
  one need not, and `PresentationRepair.RefreshRepairsIff` says exactly when it does.
- A lease is free before its release is logged (internal/core/app/application.go:420-432), and an
  acquisition samples its cursor before it is granted (355-388), so that a release can be logged behind
  the next acquisition. All results about whole logs assume ordered and bracketed ones;
  `PresentationGate.ReleaseLoggedLate` says what the gate hides of two leases that are logged otherwise.
- A PATH block that was written by a replacement that then failed to sync is left behind: the editor
  reports no change, so rollback skips it (internal/install/path_unix.go:70-73
  and 174-176). A block that is added again is not always undone: if only its last newline was
  missing, removal takes the older copy; a file the installer once created and the user has since
  blanked, with any Unicode white space, is deleted; and a startup file that is a symbolic link
  becomes a regular file. `Install.Install` states rollback as an if-and-only-if.
- The transition to `stopped` at the end of a debug start overwrites what the records made of the
  state. `DebugLifecycle.DebugRun.Start` states that an exit is lost exactly if one of the records that
  arrived during the start was an exit; `DebugLifecycle.ExitDuringStart` is such an arrival.
- A timestamp can land inside an escape sequence. A run does so exactly if it stamps a line while what
  was handed on before has left the tracker inside a sequence (`PromptTimestamp.OpsIff`,
  `PromptTimestamp.TimestampRenderer.Run`). An unfinished title sequence that a newline cuts off is
  enough (`PromptTimestamp.StampBehindOpenTitle`), and so is any open sequence behind a flush
  (`PromptTimestamp.StampBehindFlush`). Styles are not affected: they are safe with respect to
  everything the local terminal receives, stamps included.
- A transfer that fails because output was lost, a read failed, or a chunk's command line was not
  accepted runs no block recovery. The exit line can then be typed into the raw block, and only then
  (`TransferShell.WithFileTransferShell`), where it can become part of the remote file
  (`ShellExit.TypedLineBecomesFile` is the run from a prompt).
- In the same situation a receive can release its lease while the child shell is still there and its block
  still open: the two bytes that are taken for the exit can be bytes of the file. Once there is a child
  shell, they are printed if and only if it has gone or they begin in what the open block has dumped
  since (`ShellExit.ExitPrintedIff`); `ShellExit.ReceivedBlockLooksLikeExit` is the run, for every file
  that contains them. Before the bootstrap has been read, any program of the user can print them
  (`ShellExit.ParentMayLookGone`). `TransferShell.WithFileTransferLease` proves that with the child
  shell still there a lease is released in no other case than these two, and behind a send only in the
  latter.

## Model

| member | source | states |
|---|---|---|
| LeaseSafety.StepKeeps | internal/core/app/lease.go:176-353 | Every step of every operation keeps the whole invariant: lease and fence exclude each other, exactly one timer for the live lease's owner and deadline, gate holder, open channels, waiters; the one exception closes a channel twice. |
| LeaseSafety.RunsAreSafe | internal/core/app/lease.go:176-705 | The invariant holds in every state of every run in which no lease ends while a completed confirmation is retained. |
| LeaseSafety.DoubleCloseIffEndsRetained | internal/core/app/lease.go:273-297 | A run closes some channel twice if and only if some lease ends while a completed, unanswered confirmation is retained. |
| LeaseSafety.FirstDoubleClose | internal/core/app/lease.go:346-352 | The first lease that ends in that situation does close a channel twice. |
| LeaseSafety.TransfersNeverEndRetained | internal/core/app/lease.go:289-296 | With file-transfer leases alone the situation cannot arise. |
| LeaseSafety.ReleaseAfterCompletedTransferClosesTwice | internal/core/app/lease.go:285-297 | A concrete five-step run that closes a channel twice. |
| LeaseProperties.WritesExclude | internal/core/app/lease.go:607-655 | At most one write is in flight; an unleased one with no lease and no fence, a leased one under its own lease or its fence. |
| LeaseProperties.NothingIntervenes | internal/core/app/lease.go:607-655 | While a write is in flight nothing is granted or started, and its lease can only turn into a fence. |
| LeaseProperties.FenceAdmitsNothing | internal/core/app/lease.go:335-345 | A fenced Session admits no write and no lease until removal or the closing path clears the fence. |
| LeaseProperties.NoEarlyExpiry | internal/core/app/lease.go:315-325 | A live lease changes only by its owner's renewal or release, by removal, or when its deadline has passed. |
| LeaseProperties.ExpiryFences | internal/core/app/lease.go:335-345 | Expiry leaves a fence exactly for transfers, debug leases and leases with a write in flight. |
| LeaseProperties.TimerEndsItsLease | internal/core/app/lease.go:301-325 | The armed timer, when due, ends the lease it was armed for. |
| LeaseProperties.RemovalIsFenced | internal/core/app/lease.go:663-692 | A removal that names its registration leaves another registration's lease and fence alone; an unnamed one removes everything. |
| LeaseProperties.UnnamedRemovalEndsAReplacement | internal/core/app/lease.go:657-692 | A five-step run in which the unnamed removal ends the live lease of a later registration. |
| LeaseProperties.WaiterIsWoken | internal/core/app/lease.go:477-525 | No wakeup is lost: once the state a waiter captured is gone, its channel is closed and the canceller's result is written. |
| LeaseProperties.EveryStepMoves | internal/core/app/lease.go:372-526 | A step moves a confirmation in one of eight ways only: unchanged, withdrawn, asked, answered, kept for its answer, dropped, consumed, replaced. |
| LeaseProperties.DroppedControlsAreClosed | internal/core/app/lease.go:346-352 | A control that is dropped or replaced has had both channels closed. |
| LeaseProperties.ConfirmedStaysConfirmed | internal/core/app/lease.go:277-285 | A confirmed cancellation stays confirmed until its control is dropped, and what its canceller then reads. |
| LeaseProperties.RemovalLeavesNoResult | internal/core/app/lease.go:681-690 | A four-step run after which the canceller returns with a result that was never written. |
| LeaseProperties.ConfirmedForever | internal/core/app/lease.go:474-482 | On a whole run a confirmed cancellation never goes back to running. |
| LeaseProperties.DeadStaysDead | internal/core/app/lease.go:401-424 | Withdrawn, answered and superseded request IDs stay dead. |
| LeaseProperties.DeadForever | internal/core/app/lease.go:385-397 | On a whole run a dead request ID never comes back. |
| LeaseProperties.DeadRequestsDoNothing | internal/core/app/lease.go:447-466 | An answer to a dead request changes nothing but an overdue other request; its late timer changes nothing. |
| LeaseProperties.ConfirmingEndsByAnswerOrDeadline | internal/core/app/lease.go:426-435 | A pending request ends by its own timely answer, by its own deadline, or with its lease. |
| LeaseProperties.ContinueMeansOwned | internal/core/app/lease.go:492-526 | A checkpoint continues only while the caller holds the same unexpired transfer and no cancellation stands. |
| LeaseProperties.WaitingKeepsTheTransfer | internal/core/app/lease.go:496-524 | A waiting checkpoint captures the open channel and the transfer it began with. |
| LeaseCoordinator.LeaseCoordinator.Acquire | internal/core/app/lease.go:176-218 | One acquire step on the maps; granted exactly when there is neither lease nor fence; other Sessions untouched. |
| LeaseCoordinator.LeaseCoordinator.AfterNotify | internal/core/app/lease.go:199-217 | What the thread does when it has published an expiry: grant, write, or return. |
| LeaseCoordinator.LeaseCoordinator.Renew | internal/core/app/lease.go:220-242 | Renewal succeeds exactly for the owner before the deadline and moves deadline and timer. |
| LeaseCoordinator.LeaseCoordinator.Release | internal/core/app/lease.go:244-299 | Release by the owner, the expired-transfer case, and what it reports as cancelled. |
| LeaseCoordinator.LeaseCoordinator.ExpireTimer | internal/core/app/lease.go:315-325 | The timer callback acts only on the owner and deadline it was armed for. |
| LeaseCoordinator.LeaseCoordinator.ExpireLocked | internal/core/app/lease.go:331-355 | Removal of an overdue lease: fence, result, closed channels. |
| LeaseCoordinator.LeaseCoordinator.BeginFileTransferCancel | internal/core/app/lease.go:372-399 | A request gets a fresh ID and a deadline, or is refused because one is pending. |
| LeaseCoordinator.LeaseCoordinator.ExpireFileTransferConfirmation | internal/core/app/lease.go:404-421 | The confirmation timer is fenced by control, request ID, phase and deadline. |
| LeaseCoordinator.LeaseCoordinator.ExpireConfirmation | internal/core/app/lease.go:426-435 | Only an overdue unanswered request is withdrawn, waking its waiters. |
| LeaseCoordinator.LeaseCoordinator.ResolveFileTransferCancel | internal/core/app/lease.go:447-490 | The answer to a request, including the retained completed one. |
| LeaseCoordinator.LeaseCoordinator.CancellerAwakes | internal/core/app/lease.go:484-490 | The canceller reads the result once its channel has been closed. |
| LeaseCoordinator.LeaseCoordinator.CheckpointRound | internal/core/app/lease.go:492-526 | One round of a checkpoint gives the specified verdict. |
| LeaseCoordinator.LeaseCoordinator.Status | internal/core/app/lease.go:591-605 | Status reports only an unexpired lease and expires an overdue one. |
| LeaseCoordinator.LeaseCoordinator.WriteBegins | internal/core/app/lease.go:607-655 | Whether a write may start, under a lease or without. |
| LeaseCoordinator.LeaseCoordinator.WriteEnds | internal/core/app/lease.go:637-646 | The end of a write gives back count and gate. |
| LeaseCoordinator.LeaseCoordinator.RemoveRegistration | internal/core/app/lease.go:663-692 | Removal is fenced by the registration reference and closes only open channels. |
| LeaseCoordinator.LeaseCoordinator.FinishFileTransferExpiry | internal/core/app/lease.go:696-705 | Only the expired transfer's own fence is cleared. |
| LeaseRuns.SectionKeeps | internal/core/app/lease.go:142-170 | A critical section of one Session keeps the invariant of every Session. |
| LeaseRuns.RunCoordinator | internal/core/app/lease.go:160-705 | From its construction, any sections of any Sessions in any order keep the invariant of all of them, up to one that ends a lease while a completed confirmation is retained. |
| Markers.FoundStable | internal/core/app/file_transfer.go:519-558 | The first complete marker line found in a stream is the one found in any longer stream: scanning does not depend on how output was cut. |
| Markers.ScanMarker | internal/core/app/file_transfer.go:519-540 | Noise followed by a marker line yields exactly that marker's fields, whatever part of the noise has already been dropped. |
| TerminalIO.ScanIsSound | internal/core/app/file_transfer.go:521-547 | Scanning the pending bytes finds the stream's first marker line, or drops only what can never be part of one and leaves no complete line behind. |
| TerminalIO.MarkerReader.NextMarker | internal/core/app/file_transfer.go:519-558 | The reader returns the first marker line at or after its position and stops right behind it; a failure loses no marker and overlooked none that had arrived. |
| TerminalIO.MarkerReader.ReadExact | internal/core/app/file_transfer.go:562-582 | Exactly the next n bytes, even if they look like a marker, or as many as arrived. |
| TerminalIO.Terminal.WaitFor | internal/core/app/file_transfer_shell.go:152-172 | The wait succeeds if and only if the marker's bytes lie in what was read since the cursor. |
| RemoteBoard.StepKeeps | internal/core/app/file_transfer.go:755-777 | The abstract board keeps its reply well formed, only extends its output, acknowledges only blocks that were moved completely, creates a file only where nothing exists, and prints the exit bytes only when the child shell ends or as part of a block. |
| RemoteBoard.NextIsFirst | internal/core/app/file_transfer.go:763-777 | What a reader finds while it awaits the first marker is the first marker. |
| RemoteBoard.NextIsSecond | internal/core/app/file_transfer.go:763-777 | What it finds behind the announced bytes is the report, also when a read error cut the block short. |
| FileProtocol.ShellSession.Heartbeat | internal/core/app/file_transfer_shell.go:228-240 | A keep-alive line is typed only when the child shell is at its prompt or has gone, so never into a raw block. |
| FileProtocol.ShellSession.WritePayload | internal/core/app/file_transfer.go:673-702 | All of the data is delivered, or the count tells exactly which prefix was, for every pattern of short writes. |
| FileProtocol.ShellSession.WriteCommand | internal/core/app/file_transfer_shell.go:242-260 | A command begins with the shell busy; once closed, failed or unrecovered, nothing more is typed. |
| FileProtocol.ShellSession.RecoveryError | internal/core/app/file_transfer_shell.go:333-353 | A failed recovery is latched as unconfirmed and every later one joins it. |
| FileProtocol.FileProtocol.ExpectPhase | internal/core/app/file_transfer.go:519-558 | The marker seen is the board's next one, and it is classified as awaited, error or violation; a terminal marker makes the shell idle; nothing is ever heard from a shell that has gone. |
| FileProtocol.FileProtocol.Expect | internal/core/app/file_transfer.go:500-513 | The same with the marker's argument checked. |
| FileProtocol.FileProtocol.FinishPendingMarker | internal/core/app/file_transfer.go:630-635 | Either the awaited report was consumed or the error says unconfirmed. |
| FileProtocol.FileProtocol.FinishSendChunk | internal/core/app/file_transfer.go:605-615 | Padding completes the block to exactly its announced size and the report is consumed, or unconfirmed. |
| FileProtocol.FileProtocol.FinishReceiveChunk | internal/core/app/file_transfer.go:620-628 | The rest of the block is drained and the report consumed, or unconfirmed. |
| FileProtocol.FileProtocol.FinishUnconfirmedSendChunk | internal/core/app/file_transfer.go:586-591 | The same when READY itself is still awaited. |
| FileProtocol.FileProtocol.FinishUnconfirmedReceiveChunk | internal/core/app/file_transfer.go:595-600 | The same when DATA itself is still awaited. |
| FileProtocol.FileProtocol.RecoveryError | internal/core/app/file_transfer.go:642-665 | Only a read or write error of a completed peer command passes through; everything else becomes unconfirmed. |
| FileTransfer.SendBlock | internal/core/app/file_transfer.go:183-202 | Success appends the block; an interrupted wait or any failed payload write ends unconfirmed, or with exactly the announced bytes delivered and the board at its prompt; a raw block stays open only if recovery is unconfirmed or the block was abandoned. |
| FileTransfer.ReceiveBlock | internal/core/app/file_transfer.go:371-387 | Success yields the file's block; an interruption ends unconfirmed, or with the block drained and the board at its prompt; a raw block stays open only as for sending. |
| FileTransfer.SelectAvailableRemotePath | internal/core/app/file_transfer.go:253-279 | The rounds of questions end; the answer is the requested path if nothing exists there, otherwise the sibling with the least free number, and nothing on the board has changed. |
| FileTransfer.SendFile | internal/core/app/file_transfer.go:118-247 | Success means that the file at the returned path is the source, for every size, chunking and short write, without relying on the digests; the path is the requested one or its first free sibling, and nothing else has come into existence, whether the send succeeds or fails. |
| FileTransfer.ReceiveFile | internal/core/app/file_transfer.go:309-432 | What has been written is always a prefix of the remote file, and all of it on success. |
| FileTransfer.DescribeFile | internal/core/app/file_transfer.go:731-746 | The size that is read back is the remote file's size. |
| ShellExit.ExitPrintedIff | internal/core/app/file_transfer_shell.go:147-172 | Once there is a child shell: behind any tail the exit bytes are printed if and only if the child has gone since, or they begin in what an open receive block has dumped since. |
| ShellExit.BootingExitIff | internal/core/app/file_transfer_shell.go:123-137 | While the child shell starts: an exit is seen if and only if it has happened, or was to be seen before the bootstrap was read. |
| ShellExit.ReceivedBlockLooksLikeExit | internal/core/app/file_transfer.go:371-384 | From every prompt, for every block that contains the exit bytes: asking for it leads to a board that has dumped it behind a tail, looks exited and has its child shell. |
| ShellExit.ParentMayLookGone | internal/core/app/file_transfer_shell.go:106-116 | A program of the user can print the exit bytes behind the tail, before the bootstrap is read. |
| ShellExit.NothingSeenAtTheTail | internal/core/app/file_transfer_shell.go:107-116 | What earlier transfers printed is no evidence: at the tail nothing counts as seen. |
| ShellExit.OpenBlockTakesTheLine | internal/core/app/file_transfer.go:763-764 | A line typed into an open raw block can be acknowledged as part of the remote file. |
| ShellExit.TypedLineBecomesFile | internal/core/app/file_transfer.go:763-764 | From every prompt a block can be opened that takes the next line typed and appends exactly it to the remote file. |
| TransferShell.Start | internal/core/app/file_transfer_shell.go:106-145 | Success means that bootstrap and helpers were typed, and that behind the output tail at the start the echo was seen to go off and the child reported ready; if the shell is not started, nothing was typed, or there is no child shell, or recovery is latched as unconfirmed, unless an exit had been printed between the tail and the bootstrap. |
| TransferShell.Close | internal/core/app/file_transfer_shell.go:174-212 | No error with a shell to leave means that the exit line was typed once and the child shell has gone, or that a receive block was open and what it has dumped since contains the exit bytes; every error is unconfirmed; nothing is typed after a failed recovery, and only an open raw block can take the exit line. |
| TransferShell.WithFileTransferShell | internal/core/app/file_transfer_shell.go:28-51 | Once anything was typed: the child shell has gone, or unconfirmed, or it looked gone in one of two stated ways. Success also means that the file arrived. The exit line goes into a raw block only behind an abandoned one. |
| TransferShell.WithFileTransferLease | internal/cli/command/file.go:541-579 | The lease is released only if nothing was typed or the child shell has gone, or if a program of the user had printed an exit before the bootstrap, or behind an abandoned receive whose dump contained the exit bytes; never after a failed renewal. |
| Naming.PartsRecompose | internal/core/app/file_transfer.go:281-295 | Directory, stem and extension put together are the path. |
| Naming.CandidatesDiffer | internal/core/app/file_transfer.go:281-285 | Different numbers give different names. |
| Naming.FirstFreeExists | internal/core/app/file_transfer.go:253-279 | For every finite set of names there is a first free candidate, at most as far out as there are names. |
| Naming.NextAvailableLocalPath | internal/cli/command/file.go:1009-1031 | The same locally; a directory under the requested name is an error. |
| Naming.NextAvailableLocalDirectory | internal/cli/command/file.go:1033-1056 | The same for directories, which keep no extension, on the cleaned path; it fails if cleaning leaves no component. |
| Naming.CleanNames | internal/cli/command/file.go:1034-1037 | A cleaned path names an entry if and only if a component is left, and is called by the last one. |
| Vt.CoreRunConcat | internal/cli/highlight/vt.go:59-155 | The tracker's state does not depend on how bytes were cut. |
| Vt.CoreDependsOnBytesOnly | internal/cli/highlight/vt.go:59-155 | Neither the line nor the size-probe bookkeeping changes what is believed open. |
| Vt.PlainTextStaysNeutral | internal/cli/highlight/vt.go:80-87 | Text without escapes leaves a neutral tracker neutral. |
| Vt.SgrSequence | internal/cli/highlight/vt.go:157-224 | A whole SGR sequence has exactly the effect its parameters spell. |
| Vt.SgrResetClears | internal/cli/highlight/vt.go:192-224 | SGR 0 and empty SGR clear every attribute. |
| Vt.OscSequence | internal/cli/highlight/vt.go:130-143 | An operating-system command ends where its terminator is and leaves the rest alone. |
| Vt.VtTracker.FeedByte | internal/cli/highlight/vt.go:59-155 | One byte on the tracker's fields is the specified step, with the same safe-point report. |
| Vt.VtTracker.FinishCsiSequence | internal/cli/highlight/vt.go:157-190 | Private modes: last alternate mode wins, boundary only for neutral modes. |
| Vt.VtTracker.ApplySgrParameters | internal/cli/highlight/vt.go:192-224 | The loop over parameters, with extended colours skipped, is the specified fold. |
| Vt.VtTracker.SetSgrCode | internal/cli/highlight/vt.go:240-295 | The code table as sets switched on and off. |
| Matches.UncoveredMatchFragments | internal/cli/highlight/highlight.go:374-399 | The fragments cover exactly the candidate's bytes that no selected match covers, once each. |
| Matches.RenderMatches | internal/cli/highlight/highlight.go:335-372 | Erased, the line is unchanged; every byte shows the style of a foremost covering match or none; styles are closed and safe. |
| Sorting.SortSlice | internal/cli/highlight/highlight.go:339-347 | A rearrangement of the input that is in order. |
| Highlight.NeutralOutsidePassthrough | internal/cli/highlight/highlight.go:75-148 | Outside passthrough no sequence, attribute or alternate screen is open, on every run. |
| Highlight.StepAllConcat | internal/cli/highlight/highlight.go:75-124 | Passthrough and tracker depend on the bytes, not on Write boundaries. |
| Highlight.Renderer.Write | internal/cli/highlight/highlight.go:75-124 | Received bytes are output or pending, in order; the mode is the byte-wise one; plain text is drained by the stated plan. |
| Highlight.Renderer.WriteVtPassthrough | internal/cli/highlight/highlight.go:126-148 | Raw forwarding stops right behind the first byte after which styles are safe again. |
| Highlight.Renderer.WriteLine | internal/cli/highlight/highlight.go:233-245 | Raw for echo, unsafe and prompt lines, otherwise decorated; the text is kept. |
| Highlight.Renderer.Drain | internal/cli/highlight/highlight.go:187-231 | Complete lines go out, an undecided suffix stays, exactly as the plan says; the loop ends. |
| Highlight.Renderer.Flush | internal/cli/highlight/highlight.go:153-167 | Everything pending goes out unchanged and a new prompt boundary begins. |
| Highlight.Renderer.ReleasePending | internal/cli/highlight/highlight.go:173-185 | An undecided prompt goes out unchanged and its echo stays raw. |
| Highlight.ContainsScreenControl | internal/cli/highlight/highlight.go:263-289 | The scan finds a screen control if and only if some position holds one. |
| PromptTimestamp.PromptVisibleText | internal/cli/command/prompt_timestamp.go:168-198 | The scan of a candidate is the specified one. |
| PromptTimestamp.CompleteCandidateEndsOutsideSequences | internal/cli/command/prompt_timestamp.go:168-198 | A complete, safe candidate never ends inside a sequence of its own and never switches screens. |
| PromptTimestamp.TimestampRenderer.Write | internal/cli/command/prompt_timestamp.go:65-132 | Board bytes pass unchanged, and what is held and handed on is the specified function of the input, round by round; disabled, everything is forwarded as it is. |
| PromptTimestamp.TimestampRenderer.DecideCandidate | internal/cli/command/prompt_timestamp.go:88-128 | An incomplete line is kept, released raw, or stamped, as it is judged; a stamp lands inside a sequence exactly if the line is stamped while the tracker is inside one. |
| PromptTimestamp.TimestampRenderer.Run | internal/cli/command/prompt_timestamp.go:54-163 | For every sequence of writes, toggles, flushes and releases the erased output plus both pending buffers is the input, every style was safe, and a stamp has landed inside a sequence if and only if a line was stamped behind an open one. |
| PromptTimestamp.OpsIff | internal/cli/command/prompt_timestamp.go:54-163 | The same condition on the run as a function of operations, detectors and clock. |
| PromptTimestamp.StampAdds | internal/cli/command/prompt_timestamp.go:116-126 | A stamp is inside a sequence if and only if it begins there. |
| PromptTimestamp.StampBehindOpenTitle | internal/cli/command/prompt_timestamp.go:75-128 | Two writes, without flush or toggle, that put a stamp inside a title sequence. |
| PromptTimestamp.StampBehindFlush | internal/cli/command/prompt_timestamp.go:134-163 | A flush while any sequence is open, and then a prompt, do so too. |
| HiddenRanges.MergeHides | internal/cli/command/attach_file_presentation.go:269-284 | Merging keeps the list canonical and hides exactly the old positions and the new ones. |
| HiddenRanges.CanonicalIsUnique | internal/cli/command/attach_file_presentation.go:269-284 | The list is determined by the set of hidden positions. |
| HiddenIntervals.HiddenIffInside | internal/cli/command/attach_file_presentation.go:97-136 | After any well-bracketed ordered log a byte is hidden if and only if the log puts it inside a lease or command interval. |
| HiddenIntervals.InsideIsOpenOrClosed | internal/cli/command/attach_file_presentation.go:97-136 | Intervals read off the log are the open one and the closed ones. |
| PresentationGate.ReplayIsIdempotent | internal/cli/command/attach_file_presentation.go:552-563 | Replaying any retained suffix of the processed log changes nothing. |
| PresentationGate.AnyReplays | internal/cli/command/attach_file_presentation.go:552-563 | Nor do any number of such replays. |
| PresentationGate.RefreshCatchesUp | internal/cli/command/attach_file_presentation.go:552-563 | A refresh of a log that has grown takes the gate where the whole log takes it. |
| PresentationGate.AllRefreshes | internal/cli/command/attach_file_presentation.go:552-563 | So do any refreshes, each beginning within what has been processed. |
| HiddenIntervals.HiddenAfterRefreshes | internal/cli/command/attach_file_presentation.go:552-563 | After any refreshes a byte is hidden if and only if the processed log puts it inside an interval. |
| PresentationGate.HandledAgainIff | internal/cli/command/attach_file_presentation.go:519-545 | Handling an event of the processed log once more changes nothing if and only if it is settled. |
| PresentationGate.HiddenAfterHandledAgain | internal/cli/command/attach_file_presentation.go:519-545 | Exactly which positions that reveals and which it hides. |
| PresentationRepair.RefreshRepairsIff | internal/cli/command/attach_file_presentation.go:519-563 | When an event has been handled again, a refresh takes the gate back to where the log takes it if and only if its window repairs it: the condition on window and hidden ranges is stated for each kind of event. |
| PresentationRepair.RefreshRepairs | internal/cli/command/attach_file_presentation.go:552-563 | A refresh that reaches back to the event always does. |
| PresentationRepair.LaterWindowConceals | internal/cli/command/attach_file_presentation.go:519-563 | A log on which a later window leaves visible output hidden for good. |
| PresentationGate.ReleaseLoggedLate | internal/core/app/application.go:420-432 | Of two leases, the first of which is logged as released behind the acquisition of the second, the gate hides exactly what lies between those two cursors, whatever they are. |
| PresentationGate.MiddleReplayConceals | internal/cli/command/attach_file_presentation.go:519-545 | A concrete log on which handling an acquisition again hides visible output. |
| PresentationGate.MiddleReplayReveals | internal/cli/command/attach_file_presentation.go:519-545 | A replay from the middle that stops early can reveal hidden output: a concrete log. |
| AttachPresentation.FileTransferPresentation.HandleEvent | internal/cli/command/attach_file_presentation.go:81-175 | One event on the gate's fields is the specified step. |
| AttachPresentation.FileTransferPresentation.AddHiddenRange | internal/cli/command/attach_file_presentation.go:269-284 | The loop merges exactly as specified. |
| AttachPresentation.FileTransferPresentation.CloseTerminalCommandRange | internal/cli/command/attach_file_presentation.go:290-300 | The command interval is closed for its own command only. |
| AttachPresentation.FileTransferPresentation.VisibleParts | internal/cli/command/attach_file_presentation.go:477-514 | The parts are the maximal visible stretches of the data, in order. |
| AttachPresentation.FileTransferPresentation.Refresh | internal/cli/command/attach_file_presentation.go:552-563 | A refresh handles every retained event in order. |
| DebugEvents.EventLog.Append | internal/core/app/debug.go:226-239 | Sequence numbers stay contiguous, the byte count is the sum of what is retained, and eviction takes the oldest and no more than needed. |
| DebugEvents.EventLog.ReadPage | internal/core/app/debug.go:436-466 | A page is the next records in order, or the cursor is reported lost. |
| DebugEvents.ExactlyOnce | internal/core/app/debug.go:436-466 | A reader that follows its cursor across appends and evictions sees each event once, in order, or is told that it lost its place. |
| DebugEvents.LostIffOutside | internal/core/app/debug.go:447-450 | A cursor is lost if and only if it lies outside what is retained. |
| DebugLifecycle.DebugRun.OnRecord | internal/core/app/debug.go:240-255 | Records move the state only between starting, running, stopped and exited. |
| DebugLifecycle.DebugRun.Fail | internal/core/app/debug.go:492-505 | Failing happens once, and a touched terminal loses its Session. |
| DebugLifecycle.DebugRun.Start | internal/core/app/debug.go:184-208 | A start fails, or ends stopped with the terminal touched and a lease that was granted; the records that arrived made the state what replaying them makes it, and the closing transition loses an exit if and only if one was recorded. |
| DebugLifecycle.ExitedIffRecorded | internal/core/app/debug.go:240-255 | A starting operation reaches exited if and only if an exit was recorded. |
| DebugLifecycle.ExitDuringStart | internal/core/app/debug.go:198-206 | Two records during a start that make its closing transition lose an exit. |
| DebugLifecycle.DebugRun.Stop | internal/core/app/debug_linux.go:352-449 | Closed is reached only behind letting the inferior go, footer, bridge shutdown, shell probe and a successful release, in this order; a lease that is still held is given back, one that has expired meanwhile is gone and its Session is closed by the coordinator; every failure removes the Session. |
| DebugLifecycle.DebugRun.WaitStopped | internal/core/app/debug_linux.go:450-465 | Success means stopped or exited. |
| DebugLifecycle.DebugRun.StopDebug | internal/core/app/debug.go:471-490 | Stopping is idempotent once the operation has ended. |
| DebugLifecycle.DebugRun.DebugCommand | internal/core/app/debug.go:354-403 | A request ID is executed at most once; repeated, it gets the remembered answer; an uncertain outcome fails the operation. |
| DebugLifecycle.DebugRun.Run | internal/core/app/debug.go:261-403 | On every run closed and failed are absorbing, and `finished` is closed once exactly when the operation has ended. |
| DebugLifecycle.Live | internal/core/app/debug.go:141-403 | The same from the request through the start to any operations; closed means all evidence and no lease held, and failed after touching the terminal means that the Session is gone. |
| PathBlock.FreshOccursOnce | internal/install/path_unix.go:49-74 | A fresh block occurs only where it was appended, whatever text it abuts. |
| PathBlock.FreshRestores | internal/install/path_unix.go:49-119 | Removing a fresh block restores the startup file byte for byte, or its absence. |
| PathBlock.AddedAgainOccurs | internal/install/path_unix.go:29-47 | A block that is added again occurs earlier if and only if just its last newline was missing. |
| PathBlock.RepairRestores | internal/install/path_unix.go:29-119 | Exactly when removing a block that was added again restores the file. |
| PathBlock.AlmostPresentIsLost | internal/install/path_unix.go:85-119 | In the exceptional case the older copy is taken out instead. |
| Install.Disk.Ensure | internal/install/path_unix.go:27-83 | The block is appended where it was missing, or nothing changes because the directory is in PATH or the recorded block is there, or it was written although the call failed. |
| Install.Disk.RemoveBlock | internal/install/path_unix.go:85-119 | The single block is taken out; a modified one is refused. |
| Install.Disk.Restore | internal/install/install.go:702-719 | A snapshotted path gets back its presence, kind and contents. |
| Install.UndoneIff | internal/install/path_unix.go:85-119 | After adding and taking out, the startup file is what it was if and only if the stated condition holds. |
| Install.Rollback | internal/install/install.go:258-297 | If every restoration succeeds, binary, alias and manifest are exactly what they were, and the startup file if and only if its change was undoable. |
| Install.Install | internal/install/install.go:237-362 | A failed installation whose rollback succeeds leaves the disk as it was if and only if the PATH step did not fail late and its block was undoable; a successful one has put every file in place, and the startup file ends in its block or needed none. |
| EscapeController.EffectsConcat | internal/cli/interactive/controller.go:85-130 | What typed bytes mean does not depend on where reads were cut. |
| EscapeController.QuotedArrives | internal/cli/interactive/controller.go:85-130 | With every escape byte quoted, the remote receives exactly the typed bytes. |
| EscapeController.Controller.Process | internal/cli/interactive/controller.go:85-130 | The actions of one read flatten to the specified effects, without empty writes. |

## Assumptions

- Time within one critical section does not go back. A write reports exactly how many bytes it
  delivered; a count above the data means all of it.
- Output counts as printed when the Session has received it; the tail is all of it at that moment.
- The tokens are fresh: nothing that the board prints as noise contains the transfer's prefix, also not
  together with a following prefix, and marker lines are printable ASCII. No noise falls between an
  announced block and the end of its bytes. From the bootstrap on, until the child shell has ended, no
  noise contains the exit bytes, also not across a boundary; before and afterwards it may, and so may the
  file's own bytes.
- The child shell ends only at its prompt or while it is starting: its watchdog is disarmed while a command
  runs. Nothing but the transfer itself creates files beside the chosen path or changes the remote file.
- Digests are uninterpreted. The file theorems do not use them.
- Regular expressions, prompt detectors and colour themes are arbitrary functions whose matches lie
  within the line.
- A startup file is seen as decoded text.
- PATH entries of a recorded block are single-line, as the startup file's own syntax requires.
- A failing atomic replacement changes nothing or has replaced the file completely.

## Left out

- LeaseCoordinator.LeaseCoordinator.Acquire: owner trimming and the errors for an empty owner or an invalid type, which return before any state is read.
- LeaseCoordinator.LeaseCoordinator.Release: a second close panics in the program; the model counts closings and goes on, which is why the safety theorems exclude such runs.
- TerminalIO.Terminal.WaitFor: how long a wait may take; a context ends after an arbitrary number of reads.
- FileTransfer.SendFile: directories (archive, staging, commit), shell command texts and path quoting; the board model stands for them.
- FileTransfer.DescribeFile: blanks around the size and a sign in front of it, neither of which the board prints.
- Naming.NextAvailableLocalDirectory: path cleaning as on Windows, with volume names and backslashes.
- FileTransfer.SelectAvailableRemotePath: what the shell counts as existing; a path exists or not.
- TransferShell.WithFileTransferShell: nested use of an active shell, and the request that closes the Session after a failed recovery, whose outcome changes nothing here.
- PresentationGate.HiddenAfterHandledAgain: several events that are handled again before the next refresh; the results are about one.
- DebugLifecycle.DebugRun.Stop: GDB, the RSP bridge, pidfd checks and the shell probe are arbitrary outcomes.
- Install.Install: configuration creation, target preflight, manifest encoding and uninstall; parent directories that are created stay.
- Highlight.Renderer.Write: failing or short writes of the local terminal, which leave the renderer unusable by contract of its caller.
- AttachPresentation.FileTransferPresentation.HandleEvent: the text printed about progress, and Hosts that send no cursor beyond hiding everything while a transfer is active.
- The Session Manager, ring buffers, transports, MCP and HTTP adapters, command-line parsing, terminal modes, diagnostics and SSH: plumbing around the modelled code.
- Closing a Session after an expired write (internal/core/app/application.go) runs asynchronously; it appears as removal and fence-clearing steps that may happen at any time.
