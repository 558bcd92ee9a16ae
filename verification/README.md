# A verified model of the security agent and its console

The repository pairs a Go agent that runs on monitored hosts with a Python console. This project
models the parts whose correctness rests on an argument rather than on plumbing, and proves what
their comments and documentation promise, or exactly when they keep that promise.

`dafny verify dfyconfig.toml` checks everything.

## What is modelled

**Command signing.** The console signs `type|ts|json`, where `json` is Python's sorted rendering of
the payload. The agent decodes the payload it received and prints it again with its own recursive
printer before checking the signature. `JsonSyntax` has concrete syntax trees for JSON text (with
white space), a printer and a parser; `CanonicalJson` has both languages' printers and decoders,
`CanonicalMeaning` what their texts mean, `JsonReading` the escapes and digits as they are written,
and `PrinterAgreement` where the two printers write the same text;
`CanonicalPrinter` is the agent's printer as a growing buffer with loops; `SigningChannel` is
signing and checking. Signatures are symbolic. Floats are the real numbers of binary64 (`Floats`);
number texts are read and laid out as both languages do (`Decimals`, `NumberTexts`), given a rounding
to the nearest float and the digits chosen for a float, which are the same on both sides.

**Versions and rules.** `VersionOrder` is the agent's dpkg-like comparator with its cursor loops,
`PaddedOrder` the order on token lists that it computes, `DebianOrder` the order of section 5.6.12
of the Debian Policy Manual, and `Matcher` the rule matcher. `VersionReading` says which of two
versions is the lower from their texts alone, without the functions that cut and compare them.

**Scan runs.** `ScanRun` has the events of the branching run of one scan command: pause,
cancellation, collection failure, throttling, nuclei. `ScanContexts` has the contexts of all runs, the
registry in which a cancellation looks them up, and the signals that arrive between two points of a
run. `NucleiStream` is the goroutine that reads nuclei's lines. `ScanEngine` puts them together, with
the fallback by recursion, and holds the source's control flow over the real registry.

**Upgrades.** `BinaryUpgrade` is the agent's file system with renames that may fail and crashes at any
point. `UpgradeProtocol` adds the console's status record and a channel that loses, repeats and
reorders messages. Each handler call on the status record is one step.

**Client and queue.** `OfflineQueue` interleaves sending, queueing, replaying, reconnecting and
crashing. `Heartbeat` interleaves the mutex and channel steps of a change of the heartbeat interval.

**Sigma rules.** `Sigma` is the evaluator with Python's equality and ordering, `SigmaParser` the
compiler from a rule's text, with a reading of the text that does not go through the compiled form.
`SigmaReading` says from the text of a rule and the values of an event what each operator, pattern,
path and captured field means.

**Two transformations.** `Consolidation` merges duplicate vulnerability records; `IndexRebuild`
replaces a search index behind its alias.

`KeyOrder`, `Sorting`, `Numerals` and `Options` are shared. Where the source updates an object, runs a loop or
moves a cursor, the model has a class or a method with the same steps, proved against a function;
the lemmas are about that function.

## Where the code and its promises part

Each of these is a lemma that says for which inputs the promise is kept.

- `verify.go:126-127` says `1.0` and `1` stay distinct in the agent's text. They do not: a float is
  printed like an integer exactly when it is an integer of 64 bits (`IntegerBranch`, `FloatsCollapse`),
  and its command is signed and then refused (`IntegralFloatRefused`). `FloatAccepted` is exact: of the
  floats, those with a fraction below a million and the integral ones outside 64 bits are accepted, and
  `1234567.5` is refused like `1.0`, as Go turns to an exponent at 10^6 and Python at 10^16. An integer
  is accepted if and only if it is a float64 of 64 bits (`IntAgrees`); where the conversion to int64
  saturates, as on arm64, 2^63 - 1 is accepted too, and 2^63 as a float is not. The two printers also
  differ on some control characters and on DEL; `PrintersAgree` is exact, and `PlainAccepted` is the case
  the console is in without floats.
- The comparator calls itself dpkg-compatible. Letters and punctuation are ordered by ASCII, so it
  follows the Debian order on exactly the alphabets in which no letter comes after a non-letter
  (`AgreesWithDebian`, `LegalAlphabets`). A pre-release suffix with a hyphen makes a version that has
  a revision newer, not older (`PreReleaseExactly`).
- `engine.go:238-240` says that the final result lists what was actually completed. A nuclei run lists
  nuclei whenever it was launched and not cancelled (`NucleiClaimedExactly`), also when the process
  was killed at the time limit or failed (`TimedOutStillClaims`), and when it completed but the reader
  dropped its last finding because the limit passed first or the line was too long
  (`DroppedLineStillClaims`). The claim is earned if and only if the process wrote all it would find,
  no finding stands at or after a line at which the reader stops, and the goroutine that waits for
  the process drained nothing (`NucleiEarnedIff`).
- A scan_cancel is honoured if and only if it hits the context of the run that is under way and a look
  at that context follows (`StoppedExactly`). One that arrives before the fallback to the matcher hits
  a context that is then replaced, and is forgotten; a shutdown of the agent is not
  (`FallbackForgetsCancel`, `ForgottenCancel`).
- After a failed rollback of an agent upgrade the only copy of the binary is the backup, and the next
  upgrade command deletes it before it notices (`NothingLostIffInstalled`). A failed installation of
  nuclei where none was installed can bring a stale or damaged backup forward
  (`InstallErrorKeepsIff`).
- The queue is there so that nothing is lost while disconnected. With every write, insert and decode
  working, a run loses something if and only if it sends or replays on a connection whose read has
  timed out, or `PopAll` deletes rows that its iterator did not reach, or the process ends during a
  replay (`LossExactly`, and `NothingLostIff` without any luck); `TimeoutLosesMessage` and
  `UnreadRowLost` are runs that do.
- The reconnect after a read timeout leaves the old heartbeat loop running, and with two loops a
  change of interval can be lost (`LossIffTwoLoops`, `TimeoutLosesUpdate`). A loop that is busy when
  the connection fails can survive too (`BusyLoopSurvives`).
- A Sigma rule whose first selected block is empty never hits (`ParsingKeepsMeaning`,
  `OneOfKeepsMeaningIff`, `EmptyBlockSilences`), so under `all of them` the order of blocks matters in
  exactly that case (`BlockOrder`). Under `selection` with several named blocks all but the first are
  dropped, so the rule hits too much exactly where a later block fails (`LaterBlocksIgnored`).
- `rebuild_manifest` promises that the old index goes on serving after any failure. If only the
  deletion of the old index fails, the call raises although the new one serves
  (`FailureKeepsAlias`); and if the reply to the alias update is lost, the clean-up deletes the index
  that serves (`ServesUnlessStranded`).
- In the consolidation the survivor of a key is the latest scan if and only if every detection time of
  the key parses (`LatestSurvivesIff`): records without a time, or with one that does not parse,
  outlive every dated record (`DatedLostIff`, `UndatedSurvives`).

## Model

| member | source | states |
|---|---|---|
| JsonSyntax.ParseShow | agent/internal/crypto/verify.go:137-200 | a parser reads back the syntax tree of every JSON value that is printed, at any depth, with white space anywhere it may stand |
| JsonSyntax.RenderInjective | agent/internal/crypto/verify.go:137-200 | two well-formed trees with the same text are the same tree |
| KeyOrder.SortAnyOrder | agent/internal/crypto/verify.go:139-145 | sorting the keys of an object forgets the order in which the map yielded them |
| KeyOrder.LessExactly | agent/internal/crypto/verify.go:145 | keys are ordered by the first character in which they differ, a prefix before its continuations |
| CanonicalMeaning.KeysAscend | agent/internal/crypto/verify.go:139-158 | the agent prints the keys of an object in that order, each once and none besides |
| CanonicalMeaning.GoPieceSays | agent/internal/crypto/verify.go:153-174 | every character the agent quotes, however it escapes it, reads back as that character |
| JsonReading.ConstantTexts | agent/internal/crypto/verify.go:175-196 | null, true and false as they are written |
| JsonReading.GoEscapes | agent/internal/crypto/verify.go:153-174 | the named escapes of the agent as they are written |
| JsonReading.GoNumericEscapes | agent/internal/crypto/verify.go:153-174 | what cannot be printed and has no letter is written by its code in two, four or eight digits |
| JsonReading.HexPlaces | agent/internal/crypto/verify.go:153-174 | each hexadecimal digit is the one of its place |
| JsonReading.PyNumericEscapes | src/agents/signing.py:120 | json.dumps without ASCII escapes only control characters |
| JsonReading.LastMemberCounts | agent/internal/crypto/verify.go:99-103 | of members with one key the value that is written last counts |
| JsonReading.SurrogatePair | agent/internal/crypto/verify.go:99-103 | a pair of surrogate escapes is the one character it encodes |
| CanonicalMeaning.CanonicalRoundTrip | agent/internal/crypto/verify.go:131-200 | parsing the agent's canonical text gives back the value it was printed from, given only that numbers are rounded to a nearest float and that the digits of a float are rounded to it |
| CanonicalMeaning.CanonicalInjective | agent/internal/crypto/verify.go:131-200 | equal canonical texts come from equal values, numbers of every kind included |
| CanonicalMeaning.UnmarshalRender | agent/internal/crypto/verify.go:99-103 | decoding any rendering allowed by RFC 8259 gives the value of its syntax tree, whatever the white space and the form of its numbers, and fails only on a number out of range |
| CanonicalMeaning.StyleValue | src/agents/signing.py:117-123 | the console's renderings, sorted or not and spaced in any way, all mean the same value, and can be decoded exactly when no integer is out of range |
| CanonicalMeaning.CrossInjective | agent/internal/crypto/verify.go:113-118 | a text written by both printers stands for one value |
| Decimals.SplitText | agent/internal/crypto/verify.go:187-191 | the parts of a number text, and with them its value, can be read off it; texts of different parts differ |
| NumberTexts.GoNumberRead | agent/internal/crypto/verify.go:187-191 | what the agent prints for a float is a JSON number that is read as that float |
| NumberTexts.IntegerBranch | agent/internal/crypto/verify.go:187-191 | the test `x == float64(int64(x))` succeeds exactly for the integers of 64 bits, and for 2^63 where the conversion saturates |
| NumberTexts.IntAgrees | agent/internal/crypto/verify.go:182-191 | the agent prints what it reads for an integer as the console has, if and only if the integer is a float64 and has 64 bits, or is 2^63 - 1 and the conversion saturates |
| NumberTexts.FloatAgrees | agent/internal/crypto/verify.go:182-191 | the two sides print a float alike if and only if it has a fraction and is below a million in magnitude, or has none and fails the agent's test |
| PrinterAgreement.PrintersAgree | src/agents/signing.py:117-123 | the two printers write the same text for exactly the payloads whose strings and keys hold portable characters and whose integers and floats satisfy the two conditions above |
| PrinterAgreement.PlainPortable | agent/internal/crypto/verify.go:183-191 | without floats, integers up to 2^53 are portable, whatever the libraries print for floats |
| CanonicalPrinter.CollectKeys | agent/internal/crypto/verify.go:141-144 | the keys collected are all keys of the map, each once, in whatever order |
| CanonicalPrinter.AppendCanonical | agent/internal/crypto/verify.go:137-200 | the recursive printer appends exactly the canonical text to its buffer |
| CanonicalPrinter.AppendNumber | agent/internal/crypto/verify.go:182-191 | the case of a float64 appends the canonical text of the number |
| CanonicalPrinter.AppendFields | agent/internal/crypto/verify.go:139-158 | the loop over the sorted keys prints the object |
| CanonicalPrinter.AppendItems | agent/internal/crypto/verify.go:159-172 | the loop over the items prints the array |
| SigningChannel.Verify | agent/internal/crypto/verify.go:63-120 | the verdict on a message, with the source's order of checks and every error case |
| SigningChannel.SameKinds | agent/internal/crypto/verify.go:18-33 | the kinds for which the agent demands a signature are the nine that the console signs |
| SigningChannel.VerdictExactly | agent/internal/crypto/verify.go:63-120 | a message of another kind passes unread; one of these is accepted exactly if it carries the signature, by the configured key, of its kind, its time stamp within 15 minutes, and the agent's text of its payload; a missing signature and a bad time are reported as such |
| SigningChannel.PayloadExactly | agent/internal/crypto/verify.go:99-103 | a payload is an object, and null an empty one |
| SigningChannel.Outgoing.Sign | src/agents/signing.py:103-134 | only a sensitive message is signed, and only with a key; it keeps its time stamp or gets one, and is then verified by that key and no other |
| SigningChannel.ServerMessageAccepted | agent/internal/crypto/verify.go:63-120 | a signed message, decoded from any rendering, is accepted if and only if it is within 15 minutes, the keys match and the payload is portable |
| SigningChannel.WireDecodes | src/agents/signing.py:117-123 | what the console puts on the wire decodes to the payload it signed, unless that holds an integer out of range |
| SigningChannel.FrameInjective | agent/internal/crypto/verify.go:113-114 | the framed text determines type, time stamp and payload text |
| SigningChannel.AcceptedWasSigned | agent/internal/crypto/verify.go:63-120 | whatever the agent accepts was signed by the key's holder with the same type, time stamp and payload |
| SigningChannel.ServerCheckExact | src/agents/signing.py:137-165 | the console's own check accepts another message under a signature exactly when key, type, time stamp and sorted rendering agree, and then the payloads are the same value |
| SigningChannel.SentAccepted | agent/internal/crypto/verify.go:63-120 | what the console signs and sends is accepted if and only if it is fresh, the keys match and the payload is portable; no range of numbers is presupposed |
| SigningChannel.PlainAccepted | src/agents/signing.py:103-134 | without floats, integers beyond 2^53 and unportable characters, it is accepted if and only if it is fresh and the keys match |
| SigningChannel.FloatAccepted | agent/internal/crypto/verify.go:187-191 | a command that carries a float is accepted exactly if, besides, the float is portable |
| SigningChannel.FloatsCollapse | agent/internal/crypto/verify.go:126-127 | the agent's text for a float is the console's for an integer if and only if the float is printed as an integer and is that integer |
| SigningChannel.IntegralFloatRefused | agent/internal/crypto/verify.go:126-127 | so the command of every integral float of 64 bits is signed and refused |
| PaddedOrder.CompareTransitive | agent/internal/scan/matcher.go:279-343 | padded lexicographic comparison by a preorder is transitive |
| PaddedOrder.CompareZero | agent/internal/scan/matcher.go:279-343 | padded lists compare equal exactly when they agree at every position |
| PaddedOrder.FirstDifference | agent/internal/scan/matcher.go:279-343 | the first position at which the lists differ decides |
| PaddedOrder.StripEqual | agent/internal/scan/matcher.go:279-343 | lists agree at every padded position exactly when they are equal without their final fillers |
| VersionOrder.NonDigitPrefix | agent/internal/scan/matcher.go:302-308 | finds the leading run of non-digits: no digit in it, and a digit or the end after it |
| VersionOrder.DigitPrefix | agent/internal/scan/matcher.go:310-316 | finds the leading run of digits: digits only, and another character or the end after it |
| VersionOrder.CompareNonDigit | agent/internal/scan/matcher.go:320-343 | the loop computes the padded order of two runs, with `~` before the end of a run |
| VersionOrder.CompareVersionParts | agent/internal/scan/matcher.go:279-300 | the loop over two cursors terminates and computes the padded order of the two token lists |
| VersionReading.TokensExactly | agent/internal/scan/matcher.go:279-318 | the tokens are the only way to cut the text into maximal runs of non-digits and of digits in turn |
| VersionReading.CharSigns | agent/internal/scan/matcher.go:345-353 | `~` is before the end of a run, and that before every other character by its code |
| VersionReading.PartSignExactly | agent/internal/scan/matcher.go:279-343 | the loop computes exactly this order: at the first token that differs the lower run, or with the same run the lower number up to the largest int64 |
| VersionReading.NumbersCompare | agent/internal/scan/matcher.go:286-295 | digits compare as numbers whatever their length, so 1.10 is after 1.9, up to the largest int64 |
| VersionReading.NumberOfDecimal | agent/internal/scan/matcher.go:286-287 | the number of the digits of n is n |
| VersionReading.SplitExactly | agent/internal/scan/matcher.go:262-273 | the epoch is what stands before the first colon, the revision what follows the last hyphen after it |
| VersionReading.EpochTexts | agent/internal/scan/matcher.go:264-266 | an epoch is read with its sign and clamped to 64 bits |
| VersionReading.CompareExactly | agent/internal/scan/matcher.go:245-258 | of two versions with these parts the lower epoch is lower, then the lower upstream version, then the lower revision |
| VersionOrder.PartZero | agent/internal/scan/matcher.go:279-343 | the result is 0 exactly when the token lists are equal after dropping trailing empty tokens |
| VersionOrder.VersionPreorder | agent/internal/scan/matcher.go:245-353 | the comparator is reflexive, antisymmetric in sign and transitive on all strings |
| VersionOrder.EqualVersionsCongruent | agent/internal/scan/matcher.go:245-258 | versions that compare equal compare alike with every other |
| DebianOrder.AgreesWithDebian | agent/internal/scan/matcher.go:245-353 | over a run alphabet the comparator is the Debian order if and only if no letter comes after a non-letter |
| DebianOrder.LegalAlphabets | agent/internal/scan/matcher.go:345-353 | of the legal characters, that is all letters and `~`, or all punctuation and `~` |
| DebianOrder.PreReleaseExactly | agent/internal/scan/matcher.go:239-273 | a version followed by `~` and a suffix, unless that brings the first colon, is older, and newer in exactly one case: the suffix has a hyphen and the version a revision |
| DebianOrder.PreReleaseIsOlder | agent/internal/scan/matcher.go:239-258 | every version followed by `~` and a suffix without separators is older than the version |
| Matcher.Match | agent/internal/scan/matcher.go:20-54 | one finding, that of the first item hit, for each rule that some item satisfies, in the order of the rules, and no other |
| Matcher.PackageRuleHits | agent/internal/scan/matcher.go:56-72 | a package rule hits exactly the packages of its module with its name and a version in the relation that its operator, by its spelling, states; an unknown operator never |
| Matcher.KernelRuleHits | agent/internal/scan/matcher.go:84-99 | a kernel rule hits exactly the kernels of its module with such a version in which its name, if any but `kernel`, occurs |
| Matcher.OtherRulesAndReports | agent/internal/scan/matcher.go:38-112 | a rule of another kind hits nothing; a finding has the rule's own fields and the version as evidence |
| Matcher.OperatorsConsistent | agent/internal/scan/matcher.go:215-237 | the six operators are the six relations of one order |
| Matcher.LowerVersionHits | agent/internal/scan/matcher.go:56-82 | a package rule bounded from above that hits an item hits it at every lower version |
| Matcher.LoweringKeepsFindings | agent/internal/scan/matcher.go:20-82 | lowering the version of one item never silences such a rule |
| ScanRun.MatcherRunReports | agent/internal/scan/engine.go:219-332 | a matcher run numbers its batches 1 to n, ends with its one final result, and covers exactly the requested, collected categories with rules, each backed by its batch; it reports a cancellation exactly if it sees one, and then covers none |
| ScanRun.MatcherRunSends | agent/internal/scan/engine.go:256-332 | the batches hold what the matcher finds among the packages, filed under sys_vuln, and among the baseline items, filed under baseline: all of it if no cancellation is seen, otherwise what was reached |
| ScanRun.MatcherRunSteps | agent/internal/scan/engine.go:256-332 | the steps that an uncancelled run announces, in order, with how each collection ended |
| ScanRun.StreamReports | agent/internal/scan/engine.go:374-394 | the findings that arrive are numbered batches up to the one final result, which names nuclei unless a cancellation was seen |
| ScanRun.StreamSends | agent/internal/scan/engine.go:374-394 | one batch for each finding that arrives before the first sight of a cancellation, holding it, and an empty final result |
| ScanEngine.EveryRunReports | agent/internal/scan/engine.go:168-398 | every run emits exactly one final result, as its last event, after batches 1 to n; it reports a cancellation exactly if the deciding run sees one; the categories of a matcher run are requested, collected, matched and backed by their batches |
| ScanEngine.EveryRunSends | agent/internal/scan/engine.go:168-398 | every run sends exactly its findings, the matcher's or those of nuclei, and a paused run none |
| ScanEngine.AcksExactly | agent/internal/scan/engine.go:193-212 | every run is acknowledged once, and a second time with the reason if it is put off; a fallback acknowledges again |
| ScanContexts.DoneExactly | agent/internal/scan/engine.go:171-191 | a context is cancelled at a point exactly when a signal has hit it or the root by then, a scan_cancel hitting what its task is registered for at that moment |
| ScanEngine.StoppedExactly | agent/internal/scan/engine.go:203-398 | a run is stopped if and only if a signal hits the context of the run under way, or its parent, and a look at it follows |
| ScanEngine.NucleiClaimedExactly | agent/internal/scan/engine.go:364-394 | a final result names nuclei if and only if it was launched by a run that was not paused and no cancellation was found |
| NucleiStream.ReadLines | agent/internal/scan/nuclei/runner.go:190-230 | the reader passes on the findings of the lines before the first that is too long or at which its context is done |
| NucleiStream.ReceivedExactly | agent/internal/scan/nuclei/runner.go:157-187 | the engine receives the findings of a whole scan if all are written, none stands at or after a line at which the reader stops and none is drained, and fewer otherwise |
| ScanEngine.NucleiEarnedIff | agent/internal/scan/nuclei/runner.go:157-230 | a run that names nuclei has reported every finding of a whole scan if and only if those three conditions hold; that the process completed is not enough |
| ScanEngine.TimedOutStillClaims | agent/internal/scan/engine.go:364-394 | a process killed at its time limit, or failing, before it wrote anything is reported like a scan that found nothing |
| ScanEngine.DroppedLineStillClaims | agent/internal/scan/nuclei/runner.go:199-208 | a completed process whose last finding the reader drops is reported as covered, without that finding |
| ScanEngine.FallbackForgetsCancel | agent/internal/scan/engine.go:341-351 | of the signals before a fallback only a cancellation of the root stops the run: exactly which signals do |
| ScanEngine.ForgottenCancel | agent/internal/scan/engine.go:341-351 | a scan_cancel before the fallback cancels the registered context, and the run goes on to its end |
| ScanEngine.Engine.CancelScan | agent/internal/scan/engine.go:483-492 | cancels exactly the context registered for the task, and nothing for an unknown task |
| ScanEngine.Engine.Execute | agent/internal/scan/engine.go:168-335 | emits the specified events, in numbered batches that hold the findings of the run and end with the one final result; on return the task is no longer registered and its context is cancelled |
| ScanEngine.Engine.RunNuclei | agent/internal/scan/engine.go:341-398 | the nuclei branch, or the fallback by recursion, emits the specified events under whatever signals arrive |
| ScanEngine.Engine.ReadFindings | agent/internal/scan/engine.go:374-394 | the loop over the findings channel emits the specified stream |
| ScanEngine.Engine.RunMatcher | agent/internal/scan/engine.go:219-332 | the matcher branch with its early returns and its looks at the registry emits the phases of the specification |
| BinaryUpgrade.Disk.HandleUpgrade | agent/internal/updater/upgrade.go:76-191 | in every state it adds the prior binary is kept and only it or a verified download is installed; success, failure and failed rollback each leave the stated disk |
| BinaryUpgrade.Disk.RollbackBinary | agent/internal/updater/upgrade.go:240-253 | the backup is kept in every state it adds, and success puts it back |
| BinaryUpgrade.Disk.InstallStaged | agent/internal/updater/upgrade.go:391-405 | what was there is kept in every state it adds, also while an old backup is being removed; success replaces it, and an error leaves it in exactly the stated cases |
| BinaryUpgrade.UpgradeIsSafe | agent/internal/updater/upgrade.go:148-178 | at every point the prior binary is at its path or at the backup path, and the executable path holds it or a verified download |
| BinaryUpgrade.UpgradeOutcome | agent/internal/updater/upgrade.go:148-191 | success leaves the verified download installed and the prior binary behind it; an error leaves the executable path unchanged unless the rollback rename failed |
| BinaryUpgrade.UpgradeSucceedsIff | agent/internal/updater/upgrade.go:76-178 | an upgrade is ok exactly when each of its steps works, its rollback fails exactly when installing and the way back both fail, and before everything is validated only the staged file is touched |
| BinaryUpgrade.RollbackUndoes | agent/internal/updater/upgrade.go:196-253 | an upgrade and a successful rollback are together the identity on the executable path |
| BinaryUpgrade.RollbackRestores | agent/internal/updater/upgrade.go:240-253 | a rollback never loses the backup, and succeeds with it in place exactly when its two steps work |
| BinaryUpgrade.NothingLostIffInstalled | agent/internal/updater/upgrade.go:165-171 | no command loses the last binary if and only if one is at the executable path |
| BinaryUpgrade.InstallKeepsPrior | agent/internal/updater/upgrade.go:548-562 | the swap of nuclei or its templates keeps the prior one at every point, and succeeds with the new one in its place |
| BinaryUpgrade.InstallErrorKeepsIff | agent/internal/updater/upgrade.go:391-405 | when an error leaves the target as it was |
| UpgradeProtocol.StatusRecord.Dispatch | src/api/routers/agents.py:709-718 | keeps the record what the events make it; afterwards the target is the new one and neither restarting nor confirmed can be said |
| UpgradeProtocol.StatusRecord.RecordUpgradeAck | src/agents/upgrade.py:171-185 | keeps the record what the events make it: an ack of the target makes it restarting or failed and never confirms, any other changes nothing |
| UpgradeProtocol.StatusRecord.ConfirmUpgradeFromHeartbeat | src/agents/upgrade.py:188-199 | keeps the record what the events make it: it says confirmed if and only if an ok ack of the target has been followed by a heartbeat of that version |
| UpgradeProtocol.ConfirmedExactly | src/agents/upgrade.py:171-199 | confirmed if and only if an ok ack of the current target was followed by a heartbeat of that version, with no dispatch, expiry or further ack of the target since |
| UpgradeProtocol.StateExactly | src/agents/upgrade.py:171-199 | which of failed, restarting, confirmed, sent and nothing the record says, from the events alone |
| UpgradeProtocol.ConfirmedShowsTarget | src/agents/upgrade.py:188-199 | once it is confirmed the version shown is the target |
| UpgradeProtocol.OtherVersionsNeverConfirm | agent/cmd/agent/main.go:277-289 | without a heartbeat of the target after its last ok ack, as after a rollback, nothing confirms |
| UpgradeProtocol.RunsGenuine | agent/internal/updater/upgrade.go:148-178 | in every run, with crashes anywhere, only verified binaries are ever executed |
| UpgradeProtocol.OriginsOfRuns | agent/cmd/agent/main.go:271-276 | every ok ack in flight was sent with a verified download at the executable path, and every heartbeat by a process of that version |
| UpgradeProtocol.ConfirmedMeansUpgraded | agent/cmd/agent/main.go:257-290 | in every run of both ends, confirmed means that the ack and then the heartbeat of the target arrived, that a verified download had been installed for it, and that a verified binary of that version had been running |
| OfflineQueue.ExactlyOnePlace | agent/internal/comm/client.go:508-541 | in every reachable state each message is, as often as it was sent, in exactly one place; ephemeral messages never enter the outbox or a replay |
| OfflineQueue.MessagesConserved | agent/internal/comm/client.go:508-541 | conservation and separation hold along every run from a state in which they hold |
| OfflineQueue.NothingLostIff | agent/internal/comm/client.go:508-541 | a run loses nothing if and only if every step is harmless: messages are sent and replayed only when they can be written or queued, the table is read to its end, and no replay is cut short |
| OfflineQueue.LossExactly | agent/internal/queue/queue.go:90-129 | with every write, insert and decode working, messages are lost exactly through a dead connection, a half-read table or a crash during a replay |
| OfflineQueue.TimeoutLosesMessage | agent/internal/comm/client.go:281-292 | a reachable run that loses a message after a read timeout |
| OfflineQueue.UnreadRowLost | agent/internal/queue/queue.go:105-121 | a reachable run in which a row is deleted unread |
| OfflineQueue.BrokenLosesEverySend | agent/internal/comm/client.go:281-292 | after a read timeout, until the connection changes, everything sent is lost to a write error |
| OfflineQueue.ProcessRuns | agent/internal/comm/client.go:717-733 | processQueue on its own is a run of the modelled steps, whatever fails |
| OfflineQueue.ReplayInOrder | agent/internal/comm/client.go:717-733 | if nothing fails the outbox is written in the order it was queued, or, offline, put back as it was |
| OfflineQueue.Client.Push | agent/internal/queue/queue.go:76-87 | the row goes in last, or not at all; the table stays first in, first out |
| OfflineQueue.Client.PopRows | agent/internal/queue/queue.go:90-129 | the rows returned are the first to leave the table, in the order they entered; the table is emptied when it returns any |
| OfflineQueue.Client.Transmit | agent/internal/comm/client.go:508-541 | the message ends up in exactly one place, and is lost exactly when it can neither be written nor queued |
| OfflineQueue.Client.SendMessage | agent/internal/comm/client.go:508-541 | keeps every message accounted for; this one is lost exactly when it can neither be written nor queued |
| OfflineQueue.Client.SendMetrics | agent/internal/comm/client.go:674-687 | keeps every message accounted for; the sample is written or dropped and never queued |
| OfflineQueue.Client.ProcessQueue | agent/internal/comm/client.go:717-733 | pops and replays as specified, and keeps every message accounted for whatever fails |
| OfflineQueue.Client.Reconnect | agent/internal/comm/client.go:233-251 | a new connection replays the queue: if nothing fails it is written in its order and left empty; every message stays accounted for whatever does |
| OfflineQueue.Client.Disconnect | agent/internal/comm/client.go:272-306 | after the read loop a send is safe exactly if the end was no timeout and the queue takes it |
| OfflineQueue.Client.Restart | agent/internal/queue/queue.go:49-73 | a new process finds the outbox as it was; exactly what awaited replay is lost |
| Heartbeat.NoLostUpdate | agent/internal/comm/client.go:311-338 | while loops do not overlap, in every interleaving, whenever no update or re-read is under way and the channel is empty the ticker has the last interval requested |
| Heartbeat.Settles | agent/internal/comm/client.go:148-160 | from every such state the steps under way lead to a quiet state with the interval in force |
| Heartbeat.LossIffTwoLoops | agent/internal/comm/client.go:148-160 | some interleaving loses an update if and only if more than one loop is running |
| Heartbeat.TimeoutLosesUpdate | agent/internal/comm/client.go:281-292 | a run in which the reconnect after a read timeout leaves two loops |
| Heartbeat.BusyLoopSurvives | agent/internal/comm/client.go:300-306 | a run without timeouts in which a busy loop outlives its connection |
| Heartbeat.Client.ApplyHeartbeatInterval | agent/internal/comm/client.go:148-160 | a positive interval is stored and posted, any other ignored; a single loop stays up to date or has a post to read |
| Heartbeat.Client.HandleReset | agent/internal/comm/client.go:329-338 | the ticker gets the interval that is current when the loop reads it; a single loop is up to date afterwards |
| Sigma.EventGet | src/detection/sigma.py:111-119 | the cursor loop finds the value at a dotted path |
| SigmaReading.GetExactly | src/detection/sigma.py:111-119 | a name is looked up in the event and a path goes on from its value, unless there is none |
| SigmaReading.LookupExactly | src/detection/sigma.py:111-119 | a key finds its own value |
| Sigma.BlockMatches | src/detection/sigma.py:158-167 | a block matches if and only if every predicate holds, and captures the event's values |
| Sigma.FindBlock | src/detection/sigma.py:192-197 | `1 of`: some block holds, and the first that does is captured |
| Sigma.MergeBlocks | src/detection/sigma.py:198-205 | `all`: every block holds, and all their fields are captured |
| Sigma.FinishMatch | src/detection/sigma.py:213-218 | adds the rule's fields that the event has |
| Sigma.Matches | src/detection/sigma.py:170-210 | hits exactly when the first block is not empty, the logsource fits and the condition holds; every captured value is the event's own at its path |
| SigmaReading.ReportedExactly | src/detection/sigma.py:158-218 | a hit captures the fields of the blocks that made it, under `1 of` of the first that holds, and those of the rule's own fields that the event has, and no others |
| SigmaReading.LogsourceExactly | src/detection/sigma.py:178-190 | a stated product or service misses exactly the events that declare another one |
| Sigma.HitsAreMonotone | src/detection/sigma.py:158-210 | extending an event without changing its logsource or the values the rule found keeps every hit, and outside `1 of` every capture |
| Sigma.NewKeysKeepHits | src/detection/sigma.py:158-210 | adding keys to an event keeps every hit |
| Sigma.BlockOrder | src/detection/sigma.py:198-205 | the order of blocks changes no capture, and a hit only if exactly one of the two orders begins with an empty block |
| SigmaParser.FromYamlReads | src/detection/sigma.py:64-71 | a key is the field before its first bar and the operator after it |
| SigmaReading.OrderTests | src/detection/sigma.py:98-143 | from the text to the hit: `field|gt: y` hits exactly the events whose value at the field is a number above y, and gte, lt and lte accordingly; texts and booleans count as the numbers they are read as |
| SigmaReading.OtherOrders | src/detection/sigma.py:98-143 | texts that are no numbers are ordered as texts, and not against numbers or mappings |
| SigmaReading.EqualityTests | src/detection/sigma.py:122-128 | eq, neq and unknown operators hit exactly on the same, or another, number or text that is there |
| SigmaReading.PlainTest | src/detection/sigma.py:64-71 | a key without a bar is such a test for equality |
| SigmaReading.TextTests | src/detection/sigma.py:144-155 | contains and startswith hit exactly if the expected text, in lower case, occurs in the actual one or begins it, and exists if there is a value |
| SigmaReading.ChosenExactly | src/detection/sigma.py:264-274 | `1 of them` chooses every block and `1 of prefix*` those whose name begins with the prefix |
| SigmaReading.DetectionExactly | src/detection/sigma.py:245-258 | where selection and condition stand, what they default to and when they are refused |
| SigmaReading.OwnFieldsExactly | src/detection/sigma.py:283-297 | the rule's own fields are those that its text lists |
| SigmaParser.ChosenMeaning | src/detection/sigma.py:264-279 | some block chosen by a `1 of` pattern holds exactly when some named block that fits the pattern does |
| SigmaParser.ParsingKeepsMeaning | src/detection/sigma.py:228-301 | a parsed rule hits exactly the events its text describes, provided the first block selected has a test |
| SigmaParser.OneOfKeepsMeaningIff | src/detection/sigma.py:264-279 | under `1 of` this holds for all events if and only if the first block selected has a test |
| SigmaParser.EmptyBlockSilences | src/detection/sigma.py:259-263 | under `all of them` an empty first block silences the tests of the second |
| SigmaParser.LaterBlocksIgnored | src/detection/sigma.py:280-282 | under `selection` only the first of several named blocks counts: against the reading that all must hold, the rule hits too much exactly where the first fits and a later one fails |
| SigmaParser.Accepts | src/detection/sigma.py:245-301 | which rules are accepted |
| Consolidation.MergedHistoryExact | scripts/migrations/vulnscan_consolidate_20260731.py:86-93 | the merged history is ascending, without duplicates, and holds the record's own history and the detection times of the deleted records, and nothing else |
| Consolidation.GroupSorted | scripts/migrations/vulnscan_consolidate_20260731.py:80-85 | the head of the sorted group is its greatest record and the rest are the other ones |
| Consolidation.GroupDocs | scripts/migrations/vulnscan_consolidate_20260731.py:58-70 | the loop puts each document in a group with exactly its duplicates, in order |
| Consolidation.SameKeyExactly | scripts/migrations/vulnscan_consolidate_20260731.py:69-70 | duplicates are the records with the same agent, name and CVE number, a missing number reading as an empty one |
| Consolidation.CollectTimes | scripts/migrations/vulnscan_consolidate_20260731.py:86-90 | the loop appends the detection times that are present |
| Consolidation.MergeGroup | scripts/migrations/vulnscan_consolidate_20260731.py:80-95 | the update and the deletions for one group, or Python's error for times that cannot be ordered |
| Consolidation.Plan | scripts/migrations/vulnscan_consolidate_20260731.py:72-141 | there is a plan if and only if every group can be sorted, and carrying it out leaves of every key the greatest record with the merged history |
| Consolidation.OneIsLeft | scripts/migrations/vulnscan_consolidate_20260731.py:72-95 | of the records with one agent, name and CVE number the greatest by (detected_sort_key, finding_id) is left, with nothing but its history changed |
| Consolidation.NoTwinsAreLeft | scripts/migrations/vulnscan_consolidate_20260731.py:72-95 | no two records that are left agree in agent, name and CVE number |
| Consolidation.DistinctRecordStays | scripts/migrations/vulnscan_consolidate_20260731.py:72-75 | a record that differs from every other one in agent, name or CVE number is left as it was |
| Consolidation.DeletedForDuplicate | scripts/migrations/vulnscan_consolidate_20260731.py:72-95 | a record is deleted only in favour of a greater one with its agent, name and CVE number |
| Consolidation.ClashFails | scripts/migrations/vulnscan_consolidate_20260731.py:80-92 | there is no plan if two duplicates have times of which only one has an offset |
| Consolidation.UniformPlans | scripts/migrations/vulnscan_consolidate_20260731.py:80-92 | there is a plan if all times that parse have an offset, or none has |
| Consolidation.SecondRunChangesNothing | scripts/migrations/vulnscan_consolidate_20260731.py:72-95 | running the migration again leaves the index as it is |
| Consolidation.SecondRunHasAPlan | scripts/migrations/vulnscan_consolidate_20260731.py:72-95 | and cannot fail |
| Consolidation.KeyLessWeak | src/agents/store.py:20-37 | the sort keys are weakly ordered, empty values last |
| Consolidation.SortKeyExactly | src/agents/store.py:20-37 | how the key of a time is read from its text |
| Consolidation.BelowExactly | src/agents/store.py:20-37 | parsed times by time, then texts in their order, then nothing; ties by finding id |
| Consolidation.LatestSurvives | src/agents/store.py:20-37 | of two dated records of a key the later survives |
| Consolidation.LatestSurvivesIff | src/agents/store.py:20-37 | the survivor of a key is dated, and the latest, if and only if every detection time of the key parses |
| Consolidation.DatedLostIff | src/agents/store.py:20-37 | a dated record is deleted in favour of one without a date exactly when the key has both |
| Consolidation.UndatedSurvives | src/agents/store.py:20-37 | a record without a time outlives one with any text for it, and one whose text does not parse outlives a dated one |
| IndexRebuild.Elastic.RebuildManifest | src/agents/nuclei_templates.py:142-188 | returns exactly if nothing fails or there is nothing to load; then the new index holds a document for every item and stands in place of the one read, which is gone; raising leaves the alias alone except in the two stated cases; in every state it adds an existing alias serves, if and only if it is not stranded |
| IndexRebuild.ServesUnlessStranded | src/agents/nuclei_templates.py:142-188 | at every step, failure and crash an existing alias resolves, and only to complete indices, if and only if the alias update is not applied without a reply and then cleaned up after |
| IndexRebuild.LoadedExactly | src/agents/nuclei_templates.py:158-162 | the new index is complete: a document for every path of an item and no other, that of the last such item |
| IndexRebuild.RebuildServesIff | src/agents/nuclei_templates.py:142-188 | the same for a cluster with a history |
| IndexRebuild.SuccessLeavesNew | src/agents/nuclei_templates.py:171-188 | a call that returns leaves exactly the new index behind the alias if and only if the alias read was accurate |
| IndexRebuild.FailureKeepsAlias | src/agents/nuclei_templates.py:158-188 | when a call that raises leaves the alias where it was |
| IndexRebuild.CleanUp | src/agents/nuclei_templates.py:158-185 | the half-built index is gone after a failure exactly when the clean-up took effect, and no other index is touched |

## Left out

- Floats in signed payloads: the rounding may be any to a nearest float, so that a tie may go either way; the digits of a float are any that are rounded to it, of which it is only required that both sides choose the same. NaN, infinities and Python's `-0.0` are not modelled, nor processors on which an int64 conversion out of range gives anything but the smallest integer or saturation.
- Unicode: which characters above ASCII Go prints as they are is a parameter; lone surrogates in Python strings and invalid UTF-8 in Go strings are not modelled.
- Ed25519, base64, hex keys and RFC 3339: signatures are terms that only the key's holder can make, and the readers of keys and times are parameters.
- JSON nesting limits of the two libraries, and non-string keys of Python dicts.
- SigningChannel.Verify: the `AGENT_DEBUG` log line is not modelled.
- Matcher.Match: `config_check` rules read files and use regular expressions; their outcome for a rule and an item is a parameter.
- ScanEngine: message texts, host names and the nuclei request are not modelled; the callbacks are always set, as `main.go` sets them. A collector that heeds its context does so at one point; lines of nuclei that are not JSON are not among its findings.
- BinaryUpgrade: download, unpacking and the look-up of the executable are one choice each; Windows' replacement script and `restorecon` are not modelled; a directory is one entry, whose removal may leave it damaged on the way.
- UpgradeProtocol.StatusRecord.Dispatch: the states `sent` and `queued_for_delivery` are one state, as no handler tells them apart.
- UpgradeProtocol: the get and the set of `_redis_update` are one step, although the code does not make them atomic; the time to live of the record is a step that may happen at any time.
- UpgradeProtocol: an upgrade and a rollback of one agent do not overlap, although the rollback has its own goroutine and a reconnect starts a second handler; interleaved swaps, which could delete the only backup, are not modelled.
- OfflineQueue: a write that reports success counts as written, whether or not it arrives. The order of replayed against fresh messages is open, as in the code.
- Heartbeat: the cancellation of the root context, which ends every loop, is not a step; the interval at the start is positive, as the configuration makes it.
- Sigma: the number that `_coerce` reads in a string, `str`, `lower` and white space are parameters; NaN, infinities and dates of YAML are not values; levels, tags and titles are not modelled, and keys are strings.
- Consolidation: the mapping request, the backup file, `--dry-run` and a bulk request that is applied in part are not modelled; `strip` and `fromisoformat` are parameters, and every record has a finding id, which is also its document id.
- IndexRebuild: two rebuilds at once, which the sync lock is meant to prevent, and the search that reads the alias.
- The remaining parsing and policy around upgrades (`prepare_upgrade`, `_version_key`, nuclei version checks), the web gateway, the detection pipeline, the Kafka consumer and the user interface: they would add plumbing, or facts read off one body.
