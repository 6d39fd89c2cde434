# Verified core of qcg

A Dafny model of the parts of qcg whose correctness depends on whole runs, whole
streams or whole documents, with proofs that every run, stream and document has
the promised properties. `dafny verify dfyconfig.toml` checks everything.

- **Event streams** (`Sse*.dfy`). The TypeScript decoder as a character machine and
  as a class, a batch definition of the same format, `parseSseFrames`, and the Python
  reader as a class that normalises line breaks piece by piece. The machine is the
  batch definition under every cut; the two readers agree on every cut of the bytes;
  the Python size limit over all cuts; decoding can be resumed.
- **Host cgroups** (`Cgroup*.dfy`). The durable binding record, the directory tree, and
  bind, reconcile and retire as one transition system with a crash between any two
  durable steps, reboots and other processes; then as a class whose methods are runs of
  that system. Safety, meaning of the record, progress to Cleaned, and exactly which
  records can never be cleaned.
- **Container sessions** (`Container*.dfy`). Ownership guards, detached cleanups,
  counters, retained children and the shutdown join as one interleaved transition system
  against a daemon; the two teardowns and their tracking file; the reading of the
  daemon's diagnostics.
- **Skill documents** (`Skill*.dfy`). The reader of `SKILL.md` as loops and cursors
  against definitions, and round trips from scalars up to whole documents.
- **Source references** (`Sources*.dfy`). The bounded stack scan of a tool result against
  a recursive walk.
- **Redirects** (`Redirects.dfy`, `CliHttp.dfy`). Whole chains of the TypeScript client
  and of the command line.

`Common.dfy` and `Text.dfy` hold the string operations the components share.

Where code and comments disagree the model follows the code:

- `clients/ts/client.ts:149` says that a 303 keeps HEAD; the code makes it a GET.
- `crates/container/src/session.rs:407-409` says that an existing-name report about a
  device, a pool or another name proves nothing; the code only asks that the name and an
  existence phrase both occur somewhere in the text.

Assumptions, each of them a hypothesis or an enabling condition in the model:

- An incremental UTF-8 decoder emits nothing only while a character is unfinished, and
  next emits that character or its replacement; this is proved for well-formed UTF-8 and
  assumed of replaced bytes.
- The container daemon is synchronous and truthful: a command that ended or was killed
  has no later effect, a successful delete or a proved absence means that the instance is
  gone, and generated names are fresh.
- Nobody removes or reuses a run's cgroup path within the boot that made it, and nonces
  are fresh.
- The shutdown join begins when no guard is armed and no command outside a counted
  cleanup runs.

## Model

| member | source | states |
|---|---|---|
| `SseBatch.DecoderIsBatch` | clients/ts/client.ts:469-504 | For every text and every way of cutting it into pieces, the decoder throws exactly when some block of the whole text (its open last block included) has more than 16 Mi characters, and otherwise delivers exactly the frames of a batch definition that never mentions the machine: drop one leading mark, cut lines at CRLF, CR or LF, group by blank lines, join data values by LF, carry the last id without NUL, take the last event |
| `SseBatch.UnterminatedTailIsSilent` | clients/ts/client.ts:469-504 | Text after the last line break adds no frame |
| `SseBatch.FieldByName` | clients/ts/client.ts:489-497 | Recognising a field through its first colon is recognising it by its name and an optional space |
| `SseParser.FeedConcat` | clients/ts/client.ts:469-504 | Feeding is compositional: state, frames and overflow do not depend on where a text is cut |
| `SseParser.PushAllIsFeed` | clients/ts/client.ts:469-504 | Pushing pieces one after the other is feeding their concatenation |
| `SseParser.Parser.Push` | clients/ts/client.ts:469-504 | The loop over a piece updates the private fields and returns frames exactly as feeding its characters does, and throws exactly on overflow |
| `SseParser.Parser.Accept` | clients/ts/client.ts:472-501 | One character: start and mark, the LF of a split CRLF, line break, or one more character and the size limit |
| `SseParser.Parser.FinishLine` | clients/ts/client.ts:480-498 | A completed line dispatches the block when blank, and otherwise sets one field |
| `SseResume.ParseSseFrames` | clients/ts/client.ts:508-521 | The frames of the buffer and the rest after its last complete blank line |
| `SseResume.FindRest` | clients/ts/client.ts:511-519 | The index loop with its two flags finds the end of the last blank line, a CRLF counting as one break |
| `SseResume.Resumable` | clients/ts/client.ts:508-521 | For every buffer and continuation whose blocks are within the size limit: nothing is thrown, and data of the whole is data of the buffer followed by data of rest and continuation, if and only if the rest is the whole buffer or does not start with a mark that hides a data line |
| `SseResume.DeliveredBefore` | clients/ts/client.ts:508-521 | The data of buffer and continuation is the data of the buffer followed by what the machine that stopped in front of the rest delivers for rest and continuation; that machine holds nothing but the last id |
| `SsePython.SseFrameData` | clients/python/qcg_client.py:87-112 | The loop over the lines of a frame gives the data values joined by LF, and nothing when there is no data line |
| `SsePython.ReplaceIsNormal` | clients/python/qcg_client.py:354-356 | Replacing CRLF and then CR is line-break normalisation |
| `SsePython.PieceIsNormal` | clients/python/qcg_client.py:345-358 | Swallowing an LF, setting a last CR aside and putting it back as LF normalises each piece as part of the whole text |
| `SsePython.Reader.Read` | clients/python/qcg_client.py:336-377 | One decoded piece changes buffer, pending CR and mark flag, yields data values and raises the size error exactly as the step function says |
| `SsePython.Reader.DrainBuffer` | clients/python/qcg_client.py:364-377 | The inner loop yields the data of every complete frame in order, keeps the unfinished rest, and raises when a frame or the rest is over the limit |
| `SsePython.Reader.Finish` | clients/python/qcg_client.py:385-408 | At the end of the stream the last decoded text is added and the complete frames are yielded |
| `SseAgreement.GapsAreExtraBreaks` | clients/python/qcg_client.py:345-358 | For every sequence of pieces, the buffered text is the normalisation of the stream with exactly one extra LF at each gap, a gap being an LF that an empty piece separates from its CR; so it is right if and only if there is no gap |
| `SseAgreement.FramesAreBlocks` | clients/python/qcg_client.py:364-375 | On normalised text, splitting at blank lines yields the data of the blocks of the line-based definition, under a limit at least as strict |
| `SseCuts.NoCutIsRefused` | clients/python/qcg_client.py:364-377 | The size limit over all cuts of a text into pieces that are not empty: no cut is refused if and only if every frame of the text is shorter than 16 Mi characters and its unfinished rest is not longer |
| `SseCuts.SomeCutIsAccepted` | clients/python/qcg_client.py:364-377 | Some cut is accepted if and only if no frame and no rest is longer than 16 Mi characters |
| `SseCuts.BoundaryFrame` | clients/python/qcg_client.py:364-377 | The two differ: a frame of exactly the limit is accepted whole and refused when the text is cut inside its blank line |
| `SseCuts.FittingNeverRaises` | clients/python/qcg_client.py:364-377 | On a text that fits every cut, no sequence of pieces without a gap raises, empty pieces included |
| `SseCuts.ReadersAgree` | clients/python/qcg_client.py:313-408 | For every stream whose text fits, up to its end and for every cut without a gap: the Python reader does not raise, the TypeScript decoder does not throw, and both deliver the data values of the batch definition |
| `SseCuts.DecodedHasNoGap` | clients/python/qcg_client.py:336-348 | Pieces of which none that follows an empty one starts with LF, as an incremental UTF-8 decoder returns them, have no gap |
| `SseCuts.ChunksDecoded` | clients/python/qcg_client.py:329-336 | Whatever is emitted byte by byte under that condition satisfies it for every cut of the bytes into chunks that are not empty |
| `SseCuts.Utf8IsDecoded` | clients/python/qcg_client.py:314-314 | The bytes of well-formed UTF-8 are emitted in that way, because an LF is a single byte |
| `SseCuts.ReadersAgreeOnBytes` | clients/python/qcg_client.py:313-408 | For every emitted stream that fits, replaced characters included, and every cut of its bytes, with the decoder flushed at the end, both readers deliver the data values of the decoded text |
| `SseCuts.ReadersAgreeOnUtf8` | clients/python/qcg_client.py:313-408 | In particular for every text that fits and every cut of its UTF-8 bytes into chunks that are not empty |
| `SseAgreement.EmptyPieceSplitsEvent` | clients/python/qcg_client.py:345-358 | Why the loop relies on its decoder: for any two data lines an empty piece inside the CRLF between them, which the decoder never returns, would make two events of one |
| `CgroupRecord.SanitizeRunComponent` | crates/policy/src/host_cgroup.rs:154-170 | A run id becomes one path component of plain characters, never empty; plain characters are kept in place and every other one becomes an underscore |
| `CgroupRecord.RootIsChildOfParent` | crates/engine/src/host_cgroup.rs:497-537 | A valid record names exactly one new component below its delegated parent, whatever the run id is |
| `CgroupRecord.RootsDiffer` | crates/policy/src/host_cgroup.rs:173-175 | Valid records of different executions never name the same directory |
| `CgroupTree.CollectedIsRemovalOrder` | crates/engine/src/host_cgroup.rs:671-707 | For every finite tree, listing and sorting by depth gives every nested cgroup exactly once, children before parents, all strictly inside the root |
| `CgroupTree.SweptOnceAndChildless` | crates/engine/src/host_cgroup.rs:650-666 | Whatever was listed and whatever the tree is by then, the removal loop removes only listed cgroups, each once and without a child at that moment; it fails only at a listed one that has a child |
| `CgroupTree.SweptIffCovered` | crates/engine/src/host_cgroup.rs:645-668 | Deepest first, the loop gets to its end if and only if everything below a listed cgroup that is there was listed too |
| `CgroupTree.SweptClean` | crates/engine/src/host_cgroup.rs:645-668 | Sweeping a whole listing leaves nothing if and only if everything was listed; then exactly what was there is removed |
| `CgroupSafety.NoForeignRootIsTouched` | crates/engine/src/host_cgroup.rs:540-618 | In every run of bind, reconcile and retire with crashes, reboots and foreign directories, every kill and every removal hits a root that the acting execution itself made, and nothing is removed before emptiness was durably recorded |
| `CgroupSafety.RecordMeansWhatItSays` | crates/engine/src/host_cgroup.rs:497-519 | In every reachable state the record is valid; a Bound root of this boot exists and is its own; Cleaned means removed after being seen empty, or never made |
| `CgroupSafety.PhasesMoveForward` | crates/engine/src/host_cgroup.rs:295-355 | Over every run the record of one execution keeps its identity and its phase only moves forward |
| `CgroupSafety.StepPhase` | crates/engine/src/host_cgroup.rs:314-355 | One step changes a record along Prepared, Bound, EmptyConfirmed, Cleaned (or Prepared to Cleaned), or replaces a cleaned record by a fresh intent |
| `CgroupSafety.RunKeeps` | crates/engine/src/host_cgroup.rs:277-575 | The invariant behind these holds after every run |
| `CgroupSafety.ReusedRootWouldBeKilled` | crates/engine/src/host_cgroup.rs:540-575 | Why paths must not be reused: from every start without a record there is a run of bind and of a retirement that stops before its last record, after which a foreign directory made at the removed root would be killed by the next reconciliation |
| `CgroupLiveness.RetireStepProgresses` | crates/engine/src/host_cgroup.rs:540-575 | Every retirement step decreases a lexicographic measure of phase, directories and steps; a crash loses only the progress within the call |
| `CgroupLiveness.Completes` | crates/engine/src/host_cgroup.rs:540-575 | A retirement in progress can always be finished by its own steps and a kernel that honours the kill |
| `CgroupLiveness.ReconcileReachesCleaned` | crates/engine/src/host_cgroup.rs:397-428 | From every crash point of every run, in the same boot, reconciliation can run to Cleaned when the root was published; when only the intent was recorded, it proceeds exactly when nothing exists at the intended path |
| `CgroupLiveness.CleanedUnlessStuck` | crates/engine/src/host_cgroup.rs:277-575 | In every reachable state with an uncleaned record, some run cleans that record if and only if it is of this boot and no root was made for it that no call is still about to publish |
| `CgroupLiveness.StuckForGood` | crates/engine/src/host_cgroup.rs:397-575 | From every state with such a stuck record no run ever changes the record, kills or removes anything, or binds another run |
| `CgroupLiveness.StuckIsReached` | crates/engine/src/host_cgroup.rs:314-355 | Stuck records occur: by a crash between making the root and publishing it, and by a reboot |
| `CgroupLiveness.CleanedIsFinal` | crates/engine/src/host_cgroup.rs:397-428 | Until the next bind no run changes a cleaned record or destroys anything, and reconciliation answers AlreadyCleaned under every boot and configured parent |
| `CgroupHost.Host.Bind` | crates/engine/src/host_cgroup.rs:277-365 | Refuses over an uncleaned record; writes the intent, makes the directory, looks, tries the kill file, looks again, publishes; an existing directory or an occupied new one stops it with the intent on record and the directory left alone; every durable change is a run of the transition system |
| `CgroupHost.Host.MakeRoot` | crates/engine/src/host_cgroup.rs:312-355 | The steps after the intent, with both occupancy refusals |
| `CgroupHost.Host.KillAndConfirm` | crates/engine/src/host_cgroup.rs:594-634 | The polls read a given sequence of occupancies: success if and only if one of them says empty and every earlier one could be read; nothing but the occupancy of the root changes |
| `CgroupHost.Host.RemoveNestedCgroups` | crates/engine/src/host_cgroup.rs:645-668 | For any listing, stale or not, the loop is the sweep described above, and every removal is a legal step |
| `CgroupHost.Host.RemoveAll` | crates/engine/src/host_cgroup.rs:567-569 | Listing and removal: the root goes if and only if everything below it was listed; otherwise it stays, with fewer cgroups below it; each removal is of a listed path strictly inside the root, once and without a child at that moment |
| `CgroupHost.Host.RetireBinding` | crates/engine/src/host_cgroup.rs:540-575 | Succeeds if and only if the binding can be retired, whatever the tree has become since the listing; then the record is cleaned and the root gone; stopped at the kill only the occupancy has changed, stopped at the removal emptiness is on record |
| `CgroupHost.Host.Reconcile` | crates/engine/src/host_cgroup.rs:397-428 | Not bound, already cleaned, refused or retired exactly as the record, the boot and the configured parent say |
| `CgroupHost.Host.RetireScope` | crates/engine/src/host_cgroup.rs:431-449 | Retires exactly the scope that the record still authorises |
| `ContainerSafety.NothingIsLostSilently` | crates/container/src/session.rs:124-236 | In every reachable state, under every interleaving and cancellation, an instance this process made and the daemon still has is guarded, live, covered by a counted cleanup, or among the recorded failures, provided refusals are honest |
| `ContainerSafety.NothingIsLostIffHonest` | crates/container/src/session.rs:382-389 | That condition is exact over runs: no state of a run has lost an instance silently if and only if every existing-name refusal in it came from a create command that made nothing |
| `ContainerSafety.RefusedIsLeftAlone` | crates/container/src/session.rs:382-389 | After a name was refused as taken, no stop or delete for it is ever sent, whatever else happens |
| `ContainerSafety.CounterIsExact` | crates/container/src/session.rs:133-167 | In every reachable state the outstanding counter is the number of cleanups under way, on either path, equals started minus finished, and can always be decremented by a cleanup that is over |
| `ContainerSafety.CountedOnce` | crates/container/src/session.rs:133-167 | Over every run each name is counted at most once, and uncounted once, by the thread or inline but never both, exactly when its cleanup is over |
| `ContainerSafety.CleanJoinIsSound` | crates/container/src/session.rs:96-118 | A join that reports nothing outstanding is right under every interleaving: every cleanup has ended, every killed child is reaped, and what is left of ours is live or a recorded failure |
| `ContainerSafety.ReadingChildrenFirstIsUnsound` | crates/container/src/session.rs:98-105 | Reading the retained children before the counter is unsound: from every start there is a run in which both are found empty while the last cleanup, whose delete timed out, leaves a killed child behind in between |
| `ContainerSafety.JoinCompletes` | crates/container/src/session.rs:96-118 | A join whose cleanups are over and whose children exited reports a clean stop at its next poll, expired or not |
| `ContainerSafety.CleanupsEnd` | crates/container/src/session.rs:133-167 | Every step of a cleanup, however its commands end, strictly decreases its remaining steps, and nothing else moves it |
| `ContainerSafety.CleanupCanStep` | crates/container/src/session.rs:133-167 | A cleanup that is not over can always take its next step |
| `ContainerSafety.RunKeepsBooks` | crates/container/src/session.rs:96-236 | Counters, children, refusals and the join invariant hold after every run |
| `ContainerSafety.RunKeepsOwners` | crates/container/src/session.rs:271-405 | The ownership invariant holds after every run with honest refusals |
| `ContainerReport.AbsenceLineIsGrammar` | crates/container/src/session.rs:547-606 | For every lower-case alphanumeric name the recogniser accepts exactly the lines of a declarative grammar (prefix at a word start, optional colon, the name bare or quoted, suffix, closing punctuation) |
| `ContainerReport.OneInstancePerLine` | crates/container/src/session.rs:520-606 | No line is accepted as proof of absence for two different lower-case alphanumeric names of one length (generated names have 35 characters, ids 64) |
| `ContainerReport.AcceptedName` | crates/container/src/session.rs:547-606 | The accepted name is a function of the line and the length alone |
| `ContainerReport.ExistsReportNamesBoth` | crates/container/src/session.rs:407-418 | The report of a taken name has no such property: a report about one name is one about another if and only if it mentions that name anywhere, and it always is one about a name inside the reported name |
| `ContainerReport.ExistsReportNamesMany` | crates/container/src/session.rs:407-418 | For any two names there is such a text, whatever else it says |
| `ContainerStderr.CaptureIsEnd` | crates/container/src/session.rs:871-889 | After any sequence of pushes the buffer is the last min(n, 16384) of all n bytes, and truncated if and only if n is larger |
| `ContainerStderr.TeardownStderr.Push` | crates/container/src/session.rs:881-889 | One push, in place, and what the buffer then holds |
| `ContainerStderr.TeardownStderr.Collect` | crates/container/src/session.rs:910-929 | The read loop drains everything up to the end or an error, and is complete exactly when the end was reached |
| `ContainerStderr.Conclude` | crates/container/src/session.rs:891-896 | Absence is concluded if and only if the stream was read to its end, fits, decodes, and is as a whole an absence report |
| `ContainerTeardown.RunTimed` | crates/container/src/session.rs:782-865 | Success, proved absence, or failure, from how a command ended and its complete diagnostics |
| `ContainerTeardown.Session.Teardown` | crates/container/src/session.rs:444-510 | Verdict, commands sent and tracking file of the awaited teardown, for every pair of responses |
| `ContainerTeardown.Session.TeardownSync` | crates/container/src/session.rs:612-673 | The stage loop of the blocking teardown has the same specification, with a fallback per command |
| `ContainerTeardown.TeardownsAgree` | crates/container/src/session.rs:444-673 | On the same responses both give the same verdict and leave the same tracking file |
| `ContainerTeardown.FallbackOnlyFails` | crates/container/src/session.rs:1158-1226 | Without diagnostics success implies the same success with them; the two differ if and only if an absence was proved, and then nothing was changed |
| `ContainerTeardown.Drive` | crates/container/src/session.rs:444-673 | A container session driven through any mix of awaited and blocking teardowns with any outcomes and fallbacks: up to the first attempt that removes the container or proves it absent and unlinks the file, the id stays on file and every attempt fails after asking about it; from then on the file is gone and every attempt succeeds without asking |
| `SkillScalar.StripComment` | crates/contract/src/skill.rs:702-709 | Everything up to the first number sign that starts the text or follows whitespace |
| `SkillScalar.UnescapeDoubleQuoted` | crates/contract/src/skill.rs:711-751 | The escape loop against a recursive definition, with its four errors |
| `SkillScalar.ParseScalar` | crates/contract/src/skill.rs:682-700 | Comment, trimming, quoting style and errors in the order of the source |
| `SkillQuoting.QuotedRoundTrip` | crates/contract/src/skill.rs:682-751 | For every string and every style of quoting (double with backslash and quote escaped, number sign and control characters escaped or not; single with quotes doubled), the string is returned unchanged if and only if no number sign is written directly after whitespace, so always when it is escaped; otherwise double quotes give an error, and single quotes an error or a proper prefix |
| `SkillQuoting.PlainRoundTrip` | crates/contract/src/skill.rs:682-709 | A string written without quotes is returned unchanged if and only if it is trimmed, contains no comment and does not start with a quote |
| `SkillQuoting.CutValue` | crates/contract/src/skill.rs:682-700 | What a value that was cut off by a comment is read as |
| `SkillBlock.CountLeadingSpaces` | crates/contract/src/skill.rs:670-680 | Leading spaces, or none when a tab comes first |
| `SkillBlock.ReadBlockScalar` | crates/contract/src/skill.rs:485-564 | The whole reader of a block scalar: found or given indentation, content, folding, chomping, and its errors |
| `SkillBlock.ReadContent` | crates/contract/src/skill.rs:526-543 | The content loop, with the cursor between start and end |
| `SkillBlock.FoldLines` | crates/contract/src/skill.rs:566-582 | The folding loop against its recursive definition |
| `SkillBlockTrip.ExplicitBlock` | crates/contract/src/skill.rs:485-564 | Lines indented by n and read with indentation n come back exactly, under every style and chomping, and the block ends after them (whitespace-only lines and tabs in leading whitespace excluded) |
| `SkillBlockTrip.FoundBlock` | crates/contract/src/skill.rs:494-564 | With the indentation found from the lines, a literal block read with keep returns the lines joined by LF plus a final LF if and only if its first line with text does not start with a space |
| `SkillBlockTrip.FoldingIsParagraphs` | crates/contract/src/skill.rs:566-582 | Folding is: cut the lines into paragraphs at empty lines, join each by spaces, join the paragraphs by LF |
| `SkillBlockTrip.ChompingDiffers` | crates/contract/src/skill.rs:545-563 | Of a block whose last line has text: strip leaves the lines, clip and keep one LF after them |
| `SkillFront.SkipIndentedBlock` | crates/contract/src/skill.rs:375-396 | The skip loop with its probe, against its definition |
| `SkillFront.SkippedLines` | crates/contract/src/skill.rs:375-396 | Only blank and indented lines are skipped, the last of them indented, and the skip stops only where no further indented line follows |
| `SkillFront.ReadPlainContinuation` | crates/contract/src/skill.rs:398-430 | The continued text is the first line with the folded continuation lines, a run of blank lines counting as one empty line |
| `SkillFields.ReadMetadataMap` | crates/contract/src/skill.rs:584-668 | The metadata loop enters the pairs of its lines in order, a later one winning, and ends at the first line indented less |
| `SkillFields.BlockIndicator` | crates/contract/src/skill.rs:459-483 | The head of a block scalar: style, last chomping mark, last digit, or an unexpected character |
| `SkillFields.ReadKey` | crates/contract/src/skill.rs:334-370 | One key: block, metadata, quoted or empty, or plain with continuation |
| `SkillFields.ParseFrontMatter` | crates/contract/src/skill.rs:296-373 | The main loop against the items of the front matter and the fold of their assignments; the index strictly increases |
| `SkillLines.EveryLineTakenOnce` | crates/contract/src/skill.rs:296-373 | In every accepted front matter every line is taken by exactly one item, in one role: blank or comment, key, block content, metadata, continuation or skipped; it is such a line, and the line after the item is not one its last consumer would take |
| `SkillFields.ItemsTile` | crates/contract/src/skill.rs:296-373 | The items are consecutive, not empty, and cover all lines |
| `SkillFields.LaterWins` | crates/contract/src/skill.rs:432-457 | Every field has the text of the last item with its key |
| `SkillDoc.ParseSkillDoc` | crates/contract/src/skill.rs:84-154 | A whole document: mark, line breaks, fences, front matter, required fields, instructions, and every refusal |
| `SkillDoc.SplitAtFence` | crates/contract/src/skill.rs:98-114 | Front matter up to the first closing fence, body after it |
| `SkillRender.HeadBack` | crates/contract/src/skill.rs:459-483 | Every style, chomping and indentation digit written as the head of a block scalar is read back |
| `SkillRender.BlockItem` | crates/contract/src/skill.rs:334-346 | A key with a block scalar under it is one item that takes exactly the key line and the lines of the block, with the text that style and chomping make of them |
| `SkillRender.FrontRoundTrip` | crates/contract/src/skill.rs:296-373 | A front matter written from fields and metadata pairs reads back as exactly those |
| `SkillRender.DocRoundTrip` | crates/contract/src/skill.rs:84-154 | A document written from any texts for its fields, any metadata and any body reads back as those: last text of each field, last value of each key, body with CRLF as LF and trimmed |
| `SourcesScan.Scan` | crates/engine/src/sources.rs:19-89 | The loop follows a step function on stack and node count, ends on every tree, and in every turn visited nodes plus stack stay within 8192; on every tree each explicit reference it finds is one of the recursive walk and each other one is mentioned in a text of the tree or a head of one; within the limits of nodes, depth and bytes it finds, in order, exactly the references of that walk, with their titles |
| `SourcesScan.VisitObject` | crates/engine/src/sources.rs:31-53 | An object pushes its fields so that they are visited in order, takes explicit references from the last field on, and drops exactly those first fields for which there is no room |
| `SourcesScan.VisitText` | crates/engine/src/sources.rs:65-86 | A text is scanned as far as bytes are left, and the references are collected in order |
| `SourcesScan.Utf8Head` | crates/engine/src/sources.rs:129-138 | The boundary loop gives the longest head of whole characters that fits |
| `SourcesScan.LimitNotReached` | crates/engine/src/sources.rs:43-50 | With at most 64 distinct URLs the bounded collection is the first title of every URL |
| `SourcesScan.LimitKept` | crates/engine/src/sources.rs:43-50 | A collection never holds more than 64 URLs |
| `SourcesScan.Merge` | crates/engine/src/sources.rs:90-101 | The result is the first 64 of the explicit references in their order followed by the mentioned ones that are not explicit in theirs, each with its title |
| `SourcesScan.ReportIsBounded` | crates/engine/src/sources.rs:90-101 | Such a result has at most 64 references and no URL twice |
| `SourcesOrder.WalkIsPreorder` | crates/engine/src/sources.rs:31-64 | Taking the references of an object from its last field on makes no difference: the collection is that of a plain recursive preorder walk, because they share one title |
| `SourcesOrder.ToolCallSources` | crates/engine/src/sources.rs:19-102 | For every tree at most 64 distinct URLs, each with its title an explicit reference of the plain preorder walk or mentioned in a text of the tree or a head of one (a text cut at the byte limit can mention a shorter URL); for a tree within the node, depth and byte limits and with at most 64 URLs of each kind, exactly that report of the preorder walk, each URL with its first title |
| `SourcesScan.RoomForTop` | crates/engine/src/sources.rs:25-64 | Within the limits nothing on the stack is dropped and every node has room for its children |
| `Redirects.RedirectsAreBounded` | clients/ts/client.ts:97-166 | Over every chain of replies: at most six requests; no URL again once another request came in between; Authorization on request k if and only if the first had it and every hop kept origin and https, and then all of them have one origin; method and body as given until a redirect rewrites them |
| `Redirects.NeverBack` | clients/ts/client.ts:138-141 | No later request goes to a URL visited before the request in front of it |
| `Redirects.CarriedAlong` | clients/ts/client.ts:142-163 | What request k carries, exactly, from any point of a chain |
| `Redirects.PostIsKept` | clients/ts/client.ts:149-159 | Request k of a POST is still a POST if and only if every hop before it was 307 or 308 |
| `Redirects.HeadIsKept` | clients/ts/client.ts:149-159 | Request k of a HEAD is still a HEAD if and only if no reply before it was a 303 |
| `CliHttp.FollowedIsSafe` | crates/cli/src/http.rs:3-13 | A chain of URLs is followed if and only if it has at most four, all with the host and userinfo of the first, all redirect targets http or https, and no http after any https |
| `CliHttp.Get` | crates/cli/src/http.rs:28-42 | The body is returned if and only if the announced length and all bytes together fit; it is then all the bytes; otherwise the first chunk that broke or went over the limit decides |

## Left out

- Power loss between writing and syncing the binding record: replacing the record is one atomic durable step.
- File-system canonicalisation, symbolic-link refusal, cgroup file probing and `fstatfs` checks of `host_cgroup.rs`: any of their failures is a step that stops the call.
- CgroupLiveness.StuckForGood: nobody edits or deletes the binding record by hand.
- Late effects of a daemon command after its client timed out; the code does not fence them either.
- ContainerSafety.CleanJoinIsSound: the daemon may still have instances that are live when the join begins; the source joins cleanups, not sessions.
- Lower-casing, UTF-8 validation and decoding: the diagnostics come decoded and in lower case, through a parameter.
- Docker-family provisioning: only the tracking file it leaves behind is modelled, not the run command.
- Provisioning stages after creation (mounts, security, start, readiness) are one step that succeeds, fails or is cancelled.
- Timeouts, polling intervals and process spawning: a command ends in one of the ways the code distinguishes.
- SseResume.Resumable: about texts whose blocks are within the size limit; beyond it the decoder throws.
- SseCuts.ReadersAgree: about the raw data values of the frames; the Python reader delivers no ids and event names, and its public iterator skips the empty value and parses the others as JSON.
- JSON decoding of event data, UTF-8 decoding, HTTP transport and generated client methods.
- Diagnostics of the skill reader (duplicate and unknown keys, ignored metadata lines): they do not influence the result.
- Line numbers in the skill reader's errors are positions within the front matter, not within the file.
- SkillRender.DocRoundTrip: metadata keys are those that can be written unquoted (no colon, line break or surrounding whitespace, no leading number sign) and metadata values are not empty, because the reader drops others.
- `validate_skill_doc` and `skill_metadata_value`: bounded checks and a straight-line conversion.
- SourcesOrder.ToolCallSources: URL recognition, URL normalisation and the key order of the collections are parameters; nothing may be recognised in an empty text.
- URL parsing in both redirect policies: a URL is its parts, and resolving a location is a parameter.
- Redirect headers other than Authorization, and discarding of intermediate bodies.
- Journal, graph, expressions, manifests, gateways, artifacts, API and the command line's commands: not part of this model.
