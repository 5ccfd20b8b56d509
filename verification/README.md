# A Dafny model of omg_cli

The command-line tool `omg_cli` keeps plans, goals and installs in files that survive crashes. This
project models the parts of it whose correctness is hard to see from any one function, and proves
what they promise. `dafny verify dfyconfig.toml` checks everything (Dafny 4.11).

Each part has a specification in functions and lemmas, and, where the program changes things step by
step, the same steps as a class or a method with loops, proved to compute the specification.

| part | files | main results |
|---|---|---|
| YAML subset | Yaml, YamlScalars, YamlShape, YamlRoundTrip, YamlLost, YamlReads, YamlDocument, YamlLimits, YamlComments, YamlCommented, YamlPrinted, YamlForms, YamlCode | the parser undoes the printer, exactly when; comments and forms written by hand |
| Goal ledger | StoryGraph, GoalLedger, GoalModel, GoalReplay, GoalRuns, GoalTheorems, GoalBlockers, GoalHash, GoalExamples, GoalAcceptance, GoalWork, GoalDetails, GoalCode | the hash chain pins history; replay rebuilds the snapshot on every run; repair, exactly when; any valid goal can be worked to its end |
| Antigravity journal | AgyRegistry, AgyReading, AgyMachine, AgyGate, AgyRollback, AgyInstall, AgyWindows, AgyUninstall, AgyUndo, AgyCommands, AgyRefusals, AgyCode | rollback and uninstall survive kills; undo of a commit; where a killed one is refused |
| Autopilot | Autopilot, AutopilotRuns, AutopilotStamps, AutopilotGates, AutopilotOpens, AutopilotEntries, AutopilotExamples, AutopilotCode | what stands behind an acceptance on every run, and exactly when it is current |
| SHA-256 | Sha256Constants, Sha256, Sha256Vector | the loop is FIPS 180-4, its own example included |
| Civil time | CivilTime, Timestamps | timestamps compare as instants |
| Wrapper peeling | EnvSplit, EnvForms, WrapperPeel, WrapperLayers, WrapperTables | splicing terminates; the splitter undoes a quoting; peeling undoes wrapping |
| History merge | HistoryMerge | a bounded merge equals sorting everything |
| Display text | TextLayout, TextGreedy, TextBroken, TextLayoutCode | wrapping drops nothing, fits and is greedy |
| Managed block | Guidance, GuidanceCode | the splice is idempotent and reversible |

Text and Options hold the string operations and the option type used by several parts.

## Ways in which the code differs from its intent

Each is a lemma; one marked as exact says, over all inputs or runs, when the code does what is meant.

- A confirmed repair of a damaged ledger leaves a ledger that no longer scans if the kept history
  holds a checkpoint. The rebuild appends evidence to lists it shares with the first event, and that
  event is then written back under its old hash (`GoalExamples.CheckpointedGoalIsLost`, exact:
  `GoalTheorems.RepairWorksIffNoCheckpoint`).
- Two stories blocked in turn, the second resumed: the first cannot be resumed
  (`GoalBlockers.SecondBlockerStrandsFirst`) until another story is blocked, because the goal keeps one
  blocker and a resume needs some blocker on record (exact: `GoalBlockers.ResumeExactly`). With no
  story ready or in progress it is lost for good (exact: `GoalBlockers.StrandedRecoversExactly`).
- Review and QA stamps are written without the execution lease, so they can fall between the
  invalidations and the phase save of a transition and open qa and acceptance although older than the
  entry (`AutopilotGates.StampsInsideOpenAcceptance`, exact: `AutopilotStamps.ReviewIsYoungerExactly`
  and `AutopilotStamps.QaIsYoungerExactly`).
- The acceptance gate reads the QA stamp only: acceptance can be entered with the review invalidated
  (`AutopilotGates.KilledReworkSkipsReview`, exact: `AutopilotStamps.ReviewStandsExactly` and
  `AutopilotStamps.ReviewStandsUnlessLost`).
- The first ralplan entry invalidates nothing, from wherever it comes (exact:
  `AutopilotGates.RalplanEntryInvalidates`).
- A YAML document does not come back if `~` stands for a string, a first key is quoted, a key holds a
  colon, a string holds a carriage return, a block line ends in spaces, or a blank line stands in a
  dictionary inside a list or ends the document (exact: `YamlDocument.RoundTripExactly`). Behind a blank
  line in a dictionary inside a list the parse fails, or the rest of the string is dropped (exact:
  `YamlLimits.ItemFailsExactly`). The printer refuses an empty key, except in a dictionary that is itself
  a list item (`YamlDocument.EmptyKeyOnlyInLists`). A negative number alone reads as a malformed list, and a
  string alone with a line break does not come back (exact: `YamlDocument.ScalarExactly`).
- A killed rollback is refused in three windows: unsealed, after its phase mark
  (`AgyWindows.UnsealedMarkIsRefused`, exact: `AgyWindows.UnsealedWindow`); a refresh right after the
  uninstall (`AgyWindows.RefreshGapIsRefused`, exact: `AgyWindows.RefreshWindow`); and an install with
  its receipt written and not sealed while the listed row is not as expected (exact:
  `AgyInstall.SealedInstallGoesAhead`). For any record, any stage: `AgyWindows.KilledRollbackAgain`.
- The undo of a committed uninstall, killed once the import row is put back, is refused by every further
  run, which leaves the machine half restored (exact: `AgyUndo.UndoWindow`).
- A comment behind a printed document changes what is read: the blank lines at its end are then kept
  (`YamlPrinted.CommentKeepsBlankLine`, exact: `YamlPrinted.CommentBehindExactly`).
- `\c` within quotes ends the text of `env -S`, and the quote that is left open is no error
  (`EnvForms.StopInQuotes`).
- An indent that leaves one column lets a wide character over the limit (`TextLayout.OneColumnIsTooFew`),
  and one wider than the limit stands on a line of its own (`TextLayout.TooWideIndent`); an indent that
  leaves no column at all does no harm (exact: `TextLayout.WrappingFitsExactly`).

## Model

| member | source | states |
|---|---|---|
| YamlDocument.RoundTripExactly | omg_cli/catalog_yaml.py:19-409 | For every dictionary or list, of any depth, whose keys stand on one line: it is printed and parsing what was printed gives it back if and only if the printer accepts it (no empty key, except in a dictionary that is itself a list item), it has no carriage return, no colon in a key and only plain first keys, no string is `~`, no block line has trailing spaces, no dictionary inside a list has a blank line, and the document does not end in one (a last string of one newline excepted). |
| YamlDocument.EmptyKeyOnlyInLists | omg_cli/catalog_yaml.py:58-115 | A later empty key is refused although the text would read back; the same dictionary as a list item is printed and comes back. |
| YamlDocument.ParseOfDump | omg_cli/catalog_yaml.py:19-409 | For every dictionary or list of the class, printing and parsing succeeds if and only if the printer accepts it and no dictionary inside a list has a blank line followed by a line that is neither blank nor a comment; it then yields the value with `~` as null, trailing spaces of block lines gone, dictionaries inside lists cut at their first blank line, and the blank lines at the end of the document gone. |
| YamlDocument.BackIff | omg_cli/catalog_yaml.py:183-197 | What comes back of a value that loses d lines at its end is the value itself exactly when it has no `~`, no trailing spaces in block lines, only tight dictionaries inside lists, and d is 0 or only a string of one newline is lost. |
| YamlDocument.CutBlockIff | omg_cli/catalog_yaml.py:339-358 | A block string that loses d lines comes back as it was exactly when d is 0 or it is one newline, and its lines have no trailing spaces. |
| YamlDocument.LostDocument | omg_cli/catalog_yaml.py:225-231 | A value with a quoted first key in any of its dictionaries, at any depth, does not come back. |
| YamlLost.LostNode | omg_cli/catalog_yaml.py:208-231 | Where a dictionary or list with a quoted first key somewhere inside is printed, anywhere in a document, the parser reads something else or fails. |
| YamlReads.ParsedIsReadable | omg_cli/catalog_yaml.py:26-409 | Whatever the text, a value that is read holds no carriage return and no key with a colon. |
| YamlDocument.DumpInjective | omg_cli/catalog_yaml.py:19-24 | Two values that come back and are printed alike are equal. |
| YamlDocument.ScalarExactly | omg_cli/catalog_yaml.py:19-48 | Every scalar document comes back if and only if it is not `~`, no negative number and no string with a line break. |
| YamlDocument.BrokenScalar | omg_cli/catalog_yaml.py:19-48 | A scalar string with a line break, which is printed as it is, does not come back, plain or quoted: only its first row is read, or its quote is left open. |
| YamlDocument.ScalarDocument | omg_cli/catalog_yaml.py:26-48 | What a scalar without line breaks reads as: itself, null for `~`, and an error for a negative number, which looks like a list item. |
| YamlDocument.QuotedIsNoMap | omg_cli/catalog_yaml.py:225-231 | A text that starts with a double quote is never read as a dictionary, whatever follows. |
| YamlDocument.QuotedFirstKeyIsLost | omg_cli/catalog_yaml.py:225-231 | A dictionary whose first key is not plain never comes back from its own printed text. |
| YamlDocument.TopLevelMapExactly | omg_cli/catalog_yaml.py:225-280 | A top-level dictionary whose fields are of the class comes back if and only if the printer accepts it, its first key is plain, and strings, blank lines and the end of the document are as in the exact condition. |
| YamlLimits.EmptyRowBreaksItem | omg_cli/catalog_yaml.py:316-335 | In any rows: an empty row inside a dictionary inside a list ends the item, and a deeper row behind it, blank rows and comments aside, makes the whole list parse fail. |
| YamlLimits.ItemFailsExactly | omg_cli/catalog_yaml.py:282-337 | A printed dictionary of any number of fields inside a list fails if and only if an empty row of it is followed by a row of it that is neither blank nor a comment; otherwise the list goes on behind it with what stands before its first empty row. |
| YamlLimits.OutermostDecides | omg_cli/catalog_yaml.py:316-328 | Of dictionaries nested inside lists the lines of the outermost one decide whether it parses. |
| YamlLimits.BlankBeforeFieldFails | omg_cli/catalog_yaml.py:107-155 | A blank line in a field of a dictionary in a list, with another field behind it: the printed document does not parse. |
| YamlLimits.BlankLineInListFails | omg_cli/catalog_yaml.py:107-155 | A block string with a blank line followed by text, in a dictionary in a list: the printed document does not parse. |
| YamlCommented.LeadingComment | omg_cli/catalog_yaml.py:26-51 | A comment in front of any text, indented or not, changes nothing in how the text is read. |
| YamlCommented.CommentBetween | omg_cli/catalog_yaml.py:233-241 | A comment between two lines, the second without indent, changes nothing, whatever stands before and behind. |
| YamlCommented.CommentAtEnd | omg_cli/catalog_yaml.py:26-51 | With a comment behind it a text is read with all its lines, trailing blank ones included. |
| YamlCommented.TrailingComment | omg_cli/catalog_yaml.py:26-51 | Behind a line with text a comment at the end of any text changes nothing. |
| YamlComments.CommentRows | omg_cli/catalog_yaml.py:208-337 | A comment row without indent, put in among any rows in front of a row without indent, leaves the parse what it was, blocks and nested dictionaries included. |
| YamlPrinted.CommentBetweenFields | omg_cli/catalog_yaml.py:233-280 | A comment between any two fields of a printed dictionary changes nothing. |
| YamlPrinted.CommentedFields | omg_cli/catalog_yaml.py:19-280 | Printed fields with a comment in between read as the whole dictionary exactly where that comes back from its own text. |
| YamlPrinted.CommentBetweenItems | omg_cli/catalog_yaml.py:282-337 | A comment between any two items of a printed list changes nothing. |
| YamlPrinted.CommentedItems | omg_cli/catalog_yaml.py:19-337 | Printed items with a comment in between read as the whole list exactly where that comes back from its own text. |
| YamlPrinted.CommentBehind | omg_cli/catalog_yaml.py:19-51 | A printed value of the class with a comment behind it is read without losing the blank lines at its end. |
| YamlPrinted.CommentBehindExactly | omg_cli/catalog_yaml.py:19-358 | Behind a printed value a comment changes nothing if and only if the value does not end in blank lines, or its last block is one line, or it ends inside a dictionary in a list. |
| YamlPrinted.CommentKeepsBlankLine | omg_cli/catalog_yaml.py:19-358 | A value that is lost without the comment and comes back with it. |
| YamlForms.QuotedForms | omg_cli/catalog_yaml.py:371-409 | Any text comes back from single quotes, its own doubled, and from double quotes with their three escapes. |
| YamlForms.BadEscapes | omg_cli/catalog_yaml.py:390-409 | Any other escape, and a backslash at the end, is refused wherever it stands. |
| YamlForms.BareForms | omg_cli/catalog_yaml.py:371-388 | The words with a meaning of their own, and that every other bare text is itself. |
| YamlForms.KeyForms | omg_cli/catalog_yaml.py:360-368 | Keys: an empty one is refused, a quoted one is its text, any other is itself. |
| YamlForms.MapLooksExactly | omg_cli/catalog_yaml.py:225-231 | A line begins a dictionary exactly if it has a colon and neither a quote nor a bar in front. |
| YamlForms.NodeForms | omg_cli/catalog_yaml.py:208-223 | What a node is, by its first line. |
| YamlForms.ListTurn | omg_cli/catalog_yaml.py:282-337 | One turn of the list loop, with the characters of the line written out. |
| YamlForms.LineEndsDoNotMatter | omg_cli/catalog_yaml.py:26-33 | Which of the three line ends a text has makes no difference. |
| YamlForms.TrailingSpace | omg_cli/catalog_yaml.py:26-40 | White space at the end of any line makes no difference. |
| YamlForms.BlankEnds | omg_cli/catalog_yaml.py:26-40 | Nor does a blank line at the end. |
| YamlForms.PlainExactly | omg_cli/catalog_yaml.py:183-197 | A text is printed as it stands exactly if none of its characters and words could be read otherwise, all of them listed. |
| YamlForms.BlockExactly | omg_cli/catalog_yaml.py:95-165 | A string is printed as a block exactly if it has a line break or more than 120 characters, with a bare bar exactly if it ends in a newline. |
| YamlScalars.ScalarRoundTrip | omg_cli/catalog_yaml.py:167-388 | Every scalar that is not in block form is read back from its printed text, `~` as null. |
| YamlScalars.QuoteFacts | omg_cli/catalog_yaml.py:199-409 | Unescaping undoes quoting for every string, and a quoted string adds neither line breaks nor a colon. |
| YamlRoundTrip.BlockValue | omg_cli/catalog_yaml.py:339-358 | The rows of an indented block, blank ones included, give back its lines, right-stripped, but for d lines missing at the end of the rows. |
| YamlRoundTrip.NodeParse | omg_cli/catalog_yaml.py:208-223 | The rows of a printed dictionary or list, standing anywhere in a document and perhaps short of its last blank or comment lines, parse to what is left of it and end exactly behind them, or fail exactly when a dictionary inside a list is broken. |
| YamlRoundTrip.EntriesParse | omg_cli/catalog_yaml.py:233-280 | The map loop reads printed fields back in order, behind any fields already read, or fails at the broken one. |
| YamlRoundTrip.ItemsParse | omg_cli/catalog_yaml.py:282-337 | The list loop reads printed items back in order, or fails at the broken one. |
| YamlRoundTrip.DashParse | omg_cli/catalog_yaml.py:308-334 | A dictionary in a list: its rows up to the first blank one are copied with the dash removed and parsed as a dictionary; what is left is skipped, or is too deep for the list and fails. |
| YamlShape.EntriesHead | omg_cli/catalog_yaml.py:58-155 | Before the lines of the block that ends a dictionary stands a line that is neither blank nor a comment: only that block can be cut without failing. |
| YamlShape.ItemShape | omg_cli/catalog_yaml.py:107-155 | A dictionary in a list is printed as the same dictionary one level deeper, its first line starting with a dash. |
| YamlCode.Printer.AppendBlock | omg_cli/catalog_yaml.py:95-103 | Appends the lines of a block string at the given depth and nothing else. |
| YamlCode.Printer.Dump | omg_cli/catalog_yaml.py:58-78 | Refuses exactly the values with an empty key where the code asks, and otherwise appends exactly the specified lines. |
| YamlCode.Printer.DumpField | omg_cli/catalog_yaml.py:80-105 | Appends the line of a field and what stands below it. |
| YamlCode.Printer.DumpDashed | omg_cli/catalog_yaml.py:107-155 | Appends a dictionary inside a list, the dash on its first field only. |
| YamlCode.Printer.DumpListItem | omg_cli/catalog_yaml.py:107-155 | Appends a list item of any kind, or refuses it exactly when it cannot be printed. |
| YamlCode.DumpDocument | omg_cli/catalog_yaml.py:19-24 | The printer as a whole computes the specified text, or refuses exactly the values that cannot be printed. |
| YamlCode.ParseBlockCode | omg_cli/catalog_yaml.py:339-358 | The block loop returns the specified text and end row. |
| YamlCode.ParseMapCode | omg_cli/catalog_yaml.py:233-280 | The map loop over `index` and `out` equals the recursive parser, errors included; comments in it are `YamlComments.CommentRows`, a turn of it `YamlComments.MapTurn`. |
| YamlCode.ParseListCode | omg_cli/catalog_yaml.py:282-337 | The list loop, with its rewritten nested rows, equals the recursive parser and terminates because the non-space characters left go down; comments in it are `YamlComments.CommentRows`, a turn of it `YamlForms.ListTurn`. |
| YamlCode.ParseNodeCode | omg_cli/catalog_yaml.py:208-223 | The node dispatch equals the recursive parser. |
| YamlCode.ParseDocument | omg_cli/catalog_yaml.py:26-48 | The whole parser: line cleaning, node, and the check for trailing content; comments in front, between and behind are the lemmas of `YamlCommented`. |
| Yaml.NestedInk | omg_cli/catalog_yaml.py:316-328 | The rewritten rows of a dictionary in a list hold fewer non-space characters than the rows they replace: the termination measure. |
| StoryGraph.WorklistOrder | omg_cli/goals.py:164-181 | The worklist ends and lists each story at most once, in an order of dependencies; it lists all of them if and only if a topological order exists. |
| StoryGraph.StuckSetIsEmpty | omg_cli/goals.py:164-181 | A set of stories that each wait for a member of the set shares nothing with any dependency order. |
| StoryGraph.CollectStories | omg_cli/goals.py:133-163 | The first loop accepts exactly lists of well-formed stories with distinct trimmed ids and stores them under those ids; otherwise the error is that of the first story at fault. |
| StoryGraph.ValidateStoryGraph | omg_cli/goals.py:133-188 | Accepts a list if and only if its stories are well-formed, ids are distinct, dependencies are known and a topological order exists, and stores them trimmed; otherwise says which of these failed first. |
| GoalLedger.ScanLedgerCode | omg_cli/goals.py:250-388 | The scan loop with `prev_hash` and `expected_seq` computes the specified scan. |
| GoalLedger.ScanExactly | omg_cli/goals.py:250-388 | The scan accepts a file if and only if its lines are a hash chain, and reports a damaged last line exactly for a chain followed by one blank line or line of invalid JSON. |
| GoalLedger.TailHashPinsHistory | omg_cli/goals.py:126-130 | With an injective hash, two chains that end in the same hash are equal event by event, without looking at their lengths. |
| GoalLedger.TailHashPinsFile | omg_cli/goals.py:341-384 | Two files that scan as valid and end in the same hash have equal lines. |
| GoalModel.RefreshCode | omg_cli/goals.py:191-202 | The loop that updates ready stories in place: exactly the pending stories whose dependencies are all complete become ready. |
| GoalModel.RebuildCode | omg_cli/goals.py:1156-1265 | The replay loop computes the rebuilt snapshot, or raises exactly where it is undefined. |
| GoalModel.PayloadEvidence | omg_cli/goals.py:1156-1265 | Replaying an event adds evidence only for a checkpoint and only to its own story. |
| GoalReplay.LiveKeepsInv | omg_cli/goals.py:547-911 | Every committed operation keeps the goal invariant. |
| GoalReplay.ReplayKeepsUp | omg_cli/goals.py:1156-1265 | Replaying the event an operation wrote gives a snapshot that agrees with the live one, up to revision and evidence times. |
| GoalReplay.RefreshNoOp | omg_cli/goals.py:583-613 | In a good state the ready update at the start of a story changes nothing. |
| GoalReplay.InvMeaning | omg_cli/goals.py:191-202 | Stories past pending have all dependencies complete; a goal is finished exactly when all stories are; without blocked stories an unfinished goal has a ready or started one. |
| GoalReplay.CompleteStays | omg_cli/goals.py:583-911 | No operation takes a complete story back. |
| GoalBlockers.SecondBlockerStrandsFirst | omg_cli/goals.py:722-749 | Two stories blocked in turn and the second resumed: the goal is active, the first is still blocked with no blocker on record, and resuming it is refused. |
| GoalBlockers.ResumeExactly | omg_cli/goals.py:722-749 | In a good state a blocked story is resumed if and only if a blocker is on record, of whichever story, that is, if and only if the goal is blocked. |
| GoalBlockers.ResumeOnRuns | omg_cli/goals.py:722-749 | In every reachable state that loads, resuming a blocked story sets it in progress if the goal is blocked and changes nothing otherwise. |
| GoalBlockers.BlockingFrees | omg_cli/goals.py:675-749 | The way out: blocking another story puts a blocker on record, and the stranded story resumes. |
| GoalBlockers.StrandedStays | omg_cli/goals.py:547-911 | No operation but blocking another story gets a stranded story out. |
| GoalBlockers.StrandedRecoversExactly | omg_cli/goals.py:675-749 | Some operations get a stranded story going again if and only if some story is ready or in progress; elsewhere it is lost for good. |
| GoalReplay.CreatedInv | omg_cli/goals.py:482-545 | A goal made of a valid list of stories starts in the invariant. |
| GoalTheorems.RunInv | omg_cli/goals.py:456-1153 | Every state of every run of operations, kills after the append, torn or damaged last lines, lost newlines and repairs satisfies the state invariant. |
| GoalTheorems.ReplayRebuildsSnapshot | omg_cli/goals.py:1156-1265 | In every reachable state that loads, replaying the ledger rebuilds the live snapshot up to revision and evidence times, if and only if the ledger begins with the creation of the goal and its title is not blank. |
| GoalTheorems.StoryInvariants | omg_cli/goals.py:583-911 | In every reachable state that loads: dependencies of started stories are complete, a finished goal has no unfinished story, and an unblocked unfinished goal can move on. |
| GoalTheorems.RepairWorksIffNoCheckpoint | omg_cli/goals.py:1009-1265 | Confirmed repair of a damaged last line with a non-empty history keeps a backup and leaves the history plus one repair event that loads, replays and is not repaired again, if and only if the history holds no checkpoint. |
| GoalExamples.CheckpointedGoalIsLost | omg_cli/goals.py:1009-1153 | For every injective hash there is a run of creation, start, checkpoint, torn append and confirmed repair after which the goal no longer loads. |
| GoalExamples.SomeGoalIsLost | omg_cli/goals.py:1009-1153 | The same with a hash in hand. |
| GoalHash.InjectiveHashExists | omg_cli/goals.py:126-130 | An injective hash of events exists: writing an event out so that every field can be told apart again. |
| GoalTheorems.AliasChangesIff | omg_cli/goals.py:1166-1215 | The rebuild writes into the first event it was given if and only if there is a checkpoint to replay, because both hold the same evidence lists. |
| GoalTheorems.RefusedRepairKeepsLedger | omg_cli/goals.py:1009-1060 | A ledger damaged before its last line is left as it is, confirmed or not, and no backup is made. |
| GoalTheorems.EmptyRepair | omg_cli/goals.py:1060-1153 | A repair with nothing left of the history keeps a backup and leaves a ledger that loads again, in a state that satisfies the invariant. |
| GoalTheorems.OrphanRebuild | omg_cli/goals.py:1156-1165 | A ledger that does not begin with the creation of the goal cannot be replayed. |
| GoalTheorems.CompleteStaysOnRuns | omg_cli/goals.py:583-911 | Across the operations of a run a complete story stays complete. |
| GoalAcceptance.StartExactly | omg_cli/goals.py:583-613 | In every good state a story is started if and only if it is ready, and nothing else changes. |
| GoalAcceptance.CheckpointExactly | omg_cli/goals.py:616-672 | A checkpoint is taken if and only if the story is in progress and the message is not blank. |
| GoalAcceptance.BlockExactly | omg_cli/goals.py:675-719 | A story is blocked, and its goal with it, if and only if it is ready or in progress and the reason is not blank. |
| GoalAcceptance.ResumesExactly | omg_cli/goals.py:722-749 | A story is resumed if and only if it and its goal are blocked; the blocker goes if it names the story. |
| GoalAcceptance.CompleteExactly | omg_cli/goals.py:752-784 | A story completes if and only if it is in progress with at least one checkpoint; each waiting story is then ready exactly if all it depends on now is complete, and the goal complete exactly if every story is. |
| GoalAcceptance.LinkExactly | omg_cli/goals.py:547-573 | A run is linked if and only if its id is well-formed and it is not linked yet. |
| GoalAcceptance.VerifyExactly | omg_cli/goals.py:837-911 | A goal is verified if and only if it is complete, not verified yet, and the run is linked. |
| GoalAcceptance.AcceptedOnRuns | omg_cli/goals.py:456-480 | On every run an operation on a goal that loads appends exactly one event and saves the new snapshot if it is accepted, and writes nothing otherwise. |
| GoalAcceptance.CompletesOnRuns | omg_cli/goals.py:752-784 | In every reachable state that loads, completing changes anything if and only if the story is in progress with a checkpoint; it is then complete, and each other pending story ready exactly if all it depends on now is. |
| GoalWork.WorkVerifies | omg_cli/goals.py:482-911 | From any valid list of stories, in any order of their dependencies: starting, one checkpoint and completing each, then linking a run and verifying, is a run on which every step is accepted, and the goal ends verified. |
| GoalDetails.IdentifierExactly | omg_cli/evidence.py:71-80 | An identifier is 1 to 128 letters, digits, dots, underscores and dashes with a letter or digit in front. |
| GoalDetails.StoredExactly | omg_cli/goals.py:147-163 | How a story is stored: trimmed, named by its id where untitled, ready exactly if it depends on nothing. |
| GoalDetails.InitExactly | omg_cli/goals.py:482-545 | The one event and the snapshot of a new goal. |
| GoalDetails.ScanStopsAt | omg_cli/goals.py:250-388 | Why a scan gives up at a line behind a chain, and that nothing behind that line matters. |
| GoalDetails.LoadsExactly | omg_cli/goals.py:391-427 | A goal loads exactly if its ledger is a chain and its snapshot carries the number and hash of the last event. |
| GoalDetails.NextExactly | omg_cli/goals.py:429-453 | The next event is one number on and hashed over the last hash. |
| GoalDetails.AppendExactly | omg_cli/goals.py:456-470 | An event is a line of its own, unless the last line has no newline: that line then takes it in. |
| GoalDetails.ReplayRaisesExactly | omg_cli/goals.py:1156-1265 | Replay raises exactly on an event of a story that is not there, and on a resume without a blocker. |
| GoalDetails.RepairExactly | omg_cli/goals.py:1009-1153 | What each outcome of a repair comes of and what it leaves. |
| GoalCode.GoalStore.LoadConsistent | omg_cli/goals.py:412-427 | Loads exactly the events of a valid ledger that its snapshot matches. |
| GoalCode.GoalStore.AppendEventAndSnapshot | omg_cli/goals.py:456-480 | A goal that loads goes on loading, with the next event behind the others, if its file ends in a newline, and otherwise no longer loads. |
| GoalCode.GoalStore.StartStoryCode | omg_cli/goals.py:583-613 | The store after the call is that of the specified operation, refused or committed. |
| GoalCode.GoalStore.CheckpointCode | omg_cli/goals.py:616-672 | The same for a checkpoint. |
| GoalCode.GoalStore.BlockStoryCode | omg_cli/goals.py:675-719 | The same for blocking a story. |
| GoalCode.GoalStore.ResumeStoryCode | omg_cli/goals.py:722-749 | The same for resuming, where a missing blocker is a refusal. |
| GoalCode.GoalStore.CompleteStoryCode | omg_cli/goals.py:752-784 | The same for completing; when it is accepted, and what it leaves of each story, is `GoalAcceptance.CompleteExactly`. |
| GoalCode.GoalStore.LinkRunCode | omg_cli/goals.py:547-573 | The same for linking a run, and the run is linked afterwards. |
| GoalCode.GoalStore.VerifyGoalCode | omg_cli/goals.py:837-911 | The first candidate run with an accepted result verifies the goal; otherwise nothing changes. |
| GoalCode.GoalStore.RepairCode | omg_cli/goals.py:1009-1153 | Backup, rebuild, write back and append, in place, give the specified state and answer. |
| GoalCode.SharedEvidence | omg_cli/goals.py:1166-1215 | On list objects: appending during the rebuild leaves the first event with exactly the evidence the aliasing specification says. |
| AgyRegistry.RestoreRegistryFacts | omg_cli/antigravity_install.py:906-968 | Restoring one registry without error leaves everything but the owned row as it was, makes the match check true wherever the record holds that row once, and done twice equals done once. |
| AgyRegistry.PutRowFacts | omg_cli/antigravity_install.py:935-951 | Putting a row in leaves the rest alone, the row is the one found afterwards, and twice is once. |
| AgyRegistry.EmptiedObject | omg_cli/antigravity_install.py:952-967 | A registry left with nothing but an empty section stands for no file. |
| AgyRollback.RollbackSurvivesKills | omg_cli/antigravity_install.py:1095-1358 | For a sealed first-time install: however often the rollback is killed after whichever of its stages, with edits of others in between, the run that is not killed restores target, identities and owned rows and leaves the rest alone. |
| AgyRollback.RollbackOnce | omg_cli/antigravity_install.py:1095-1358 | One rollback of a sealed first-time install is either killed, then marked and still restorable, or returns success with everything restored. |
| AgyRollback.RunKeeps | omg_cli/antigravity_install.py:1318-1347 | From every stage on, the remaining stages keep each piece as before or as sealed, and finish restored. |
| AgyRollback.WellFormedRestores | omg_cli/antigravity_install.py:906-968 | Restoring a recorded registry over a well-formed one succeeds and brings back the recorded row. |
| AgyRollback.MarkedGoesAhead | omg_cli/antigravity_install.py:1283-1322 | After its phase mark a rollback of a sealed install is let in again. |
| AgyWindows.RollbackExactly | omg_cli/antigravity_install.py:1095-1358 | Any rollback of a whole record, first-time or refresh, sealed or not, also the undoing of a commit: not killed, it answers true if and only if digest, rows and files are as before or are pieces it may write, all written out, and then they are as before; refused, nothing is changed; a committed journal is left alone unless it is to be undone. |
| AgyGate.GateExactly | omg_cli/antigravity_install.py:1232-1316 | What a rollback is let in on, told piece by piece: for an undo exactly the sealed digest, rows and four files; otherwise a seal, a mark, an install half done or a write-ahead row. |
| AgyUndo.UndoExactly | omg_cli/antigravity_install.py:1095-1358 | Undoing a commit, killed or not: it goes ahead if and only if nothing is left to do or digest, both rows and all four files are those of the last seal, and otherwise changes nothing. |
| AgyUndo.KilledUndoAgain | omg_cli/antigravity_install.py:1095-1358 | An undo that was killed answers true when run again exactly if nothing is left to do or nothing was done yet. |
| AgyUndo.UndoWindow | omg_cli/antigravity_install.py:1300-1347 | The undo of a committed uninstall killed after its import row was put back: every further run refuses and leaves the machine half restored; killed before, the next run restores it. |
| AgyUndo.UndoOfUninstall | omg_cli/antigravity_install.py:1095-1358 | From any machine with the plugin: uninstall through any kills, anything done to the machine afterwards, then undo: it succeeds, and the machine is back, exactly if directory and files are as the commit left them or it is back already. |
| AgyUndo.ForeignPackageStays | omg_cli/antigravity_install.py:1300-1316 | A foreign package put in place of the removed one is left alone. |
| AgyCommands.FailingCommand | omg_cli/antigravity_install.py:1323-1358 | A rollback whose command fails restores the machine all the same exactly if it does not need the command; otherwise it answers false and writes nothing after it. |
| AgyCommands.ForeignReceiptStays | omg_cli/antigravity_install.py:906-968 | Over an unreadable receipt that is not the recorded one a rollback restores the rows, leaves the receipt and answers false. |
| AgyReading.ListedExactly | omg_cli/antigravity_install.py:306-335 | The listed row of a registry text: the first with the plugin name, an error where the text has no list of objects. |
| AgyReading.McpExactly | omg_cli/antigravity_install.py:75-92 | The row of the server: an error unless the text has an object of servers and the row, if any, is an object. |
| AgyReading.OwnedExactly | omg_cli/antigravity_install.py:855-876 | The owned row of the config and of the servers. |
| AgyReading.OwnedImportExactly | omg_cli/antigravity_install.py:855-876 | Two rows with the name of the plugin among the imports are an error, one is its row. |
| AgyReading.ReceiptExactly | omg_cli/antigravity_install.py:942-966 | When a receipt may be replaced by the recorded one. |
| AgyWindows.KilledRollbackAgain | omg_cli/antigravity_install.py:1283-1358 | Let in and killed after any of its stages, a rollback is let in again if and only if the package is gone or has the digest of before or of the seal, and import and MCP row are those of before or of the seal, an unsealed record standing for an empty seal; the package counts only while it is still there, each row only until it is restored. |
| AgyWindows.MarkedExactly | omg_cli/antigravity_install.py:1283-1322 | After its phase mark a rollback, sealed or not, is let in exactly on those pieces. |
| AgyWindows.UnsealedWindow | omg_cli/antigravity_install.py:1283-1322 | The killed rollback of an unsealed first-time install is let in again if and only if the package was already gone, and its MCP row restored or not the new one. |
| AgyWindows.RefreshWindow | omg_cli/antigravity_install.py:1283-1305 | The killed rollback of a sealed refresh is let in again unless the kill fell between the uninstall and the restored import row. |
| AgyWindows.UnsealedInstallGoesAhead | omg_cli/antigravity_install.py:575-640 | An install killed before its first seal: with no command run there is nothing to do, and afterwards its rollback is let in if and only if the listed row is what the write-ahead check asks for. |
| AgyWindows.UnsealedMarkIsRefused | omg_cli/antigravity_install.py:1318-1322 | Without a seal, a rollback killed after its phase mark refuses for good while a whole package is in place. |
| AgyWindows.RefreshGapIsRefused | omg_cli/antigravity_install.py:1283-1305 | A refresh rollback killed right after the uninstall refuses, because the missing row is neither the old nor the sealed one. |
| AgyInstall.SealedInstallGoesAhead | omg_cli/antigravity_install.py:575-670 | From the first seal on, every kill of a first-time install leaves a state whose rollback is let in; with the receipt written and not yet sealed, exactly when the listed row is what the write-ahead check asks for. |
| AgyInstall.InstallRollsBack | omg_cli/antigravity_install.py:575-670 | Kill the install anywhere from its first seal on, then the rollback as often as you like: what is let in ends in the state of before. |
| AgyInstall.ContractsCanBeMet | omg_cli/antigravity_install.py:277-300 | The contracts assumed of the `agy` commands can be met by one set of commands. |
| AgyUninstall.NeverCommitsEarly | omg_cli/antigravity_install.py:1369-1512 | Whatever the commands do, a committed journal stands beside a machine without target, registry row, MCP row and receipt, and success is answered exactly on commit. |
| AgyUninstall.UninstallSurvivesKills | omg_cli/antigravity_install.py:1369-1512 | However often an uninstall with a durable journal is killed, running it again with the same identities commits on a clean machine; a further run only confirms. |
| AgyUninstall.LeavingRun | omg_cli/antigravity_install.py:1430-1512 | From every step on: with enough budget the uninstall commits, with less it is killed in a state that can be resumed. |
| AgyUninstall.RollbackNeverCommits | omg_cli/antigravity_install.py:1095-1358 | No rollback, with any commands, changes the committed mark. |
| AgyUninstall.FirstRunLeaves | omg_cli/antigravity_install.py:1409-1433 | A first run that gets past its identity checks is in a resumable state. |
| AgyRefusals.SettledExactly | omg_cli/antigravity_install.py:1380-1408 | A committed journal is only confirmed, and one of other identities only refused; neither writes anything. |
| AgyRefusals.FirstRunExactly | omg_cli/antigravity_install.py:1409-1433 | A first run begins exactly on a machine with the package, both rows and the receipt of these identities. |
| AgyRefusals.UninstallExactly | omg_cli/antigravity_install.py:1369-1512 | An uninstall that is not killed, from any machine: it commits exactly where server, package and receipt are each the expected ones or gone and no other directory is left; what it answers and leaves otherwise, case by case. |
| AgyRefusals.FailedServer | omg_cli/antigravity_install.py:1437-1450 | Where the row of the server cannot be removed, the rollback runs and the uninstall answers false. |
| AgyRefusals.FailedPackage | omg_cli/antigravity_install.py:1452-1485 | Where the package is not removed, the rollback runs on what is left and the uninstall answers false. |
| AgyUninstall.CommandsCanWork | omg_cli/antigravity_install.py:1452-1485 | The contracts assumed of the removing commands can be met. |
| AgyCode.Host.RestoreRow | omg_cli/antigravity_install.py:916-967 | Editing the registry dictionary in place equals the specified restore, and raises exactly where it is undefined. |
| AgyCode.Host.RestoreOwnedRows | omg_cli/antigravity_install.py:906-968 | The loop over the registries and the receipt makes the specified stages in order, stopping at the first that raises. |
| AgyCode.Host.RestoreRecoverySnapshot | omg_cli/antigravity_install.py:1095-1358 | The rollback on the files themselves equals the specified one, answer included; what it is let in on, undo included, is `AgyWindows.RollbackExactly` and `AgyUndo.UndoExactly`. |
| AgyCode.Host.SealPostState | omg_cli/antigravity_install.py:1046-1076 | Seals what is there: the machine is then let into a rollback, also into undoing a commit, and with removal demanded nothing of the plugin is left; or raises with the journal as it was. |
| AgyCode.Host.UninstallOwnedPlugin | omg_cli/antigravity_install.py:1369-1512 | The uninstall on the files themselves equals the specified one, answer included. |
| AutopilotRuns.AcceptanceIsBacked | omg_cli/autopilot.py:658-898 | On every run with stamp writers, edits and crashes between any two writes: entering acceptance, or verified, implies a review and a QA stamp, each the one on disk and clean for the workspace when the last transition into qa, and into acceptance, began, last written and not invalidated before it, and written after the invalidations of every earlier entry into implement, rework or review, each of which has made both. |
| AutopilotRuns.RunInv | omg_cli/autopilot.py:745-857 | The invariant behind it: pending code entries have invalidated what they no longer list, clean stamps on disk have no invalidation after them, and each phase is backed by the stamps that opened it. |
| AutopilotRuns.EntriesInvalidateStep | omg_cli/autopilot.py:784-831 | A code phase is saved only after both stamps were invalidated in the same transition. |
| AutopilotStamps.ReviewIsYoungerExactly | omg_cli/autopilot.py:348-365 | On every run that enters acceptance, the review behind it is younger than every entry into implement, rework or review if and only if it was not written between the invalidation of the review and the phase save of such an entry. |
| AutopilotStamps.QaIsYoungerExactly | omg_cli/autopilot.py:348-365 | The same for the QA stamp. |
| AutopilotStamps.OneReviewOpened | omg_cli/autopilot.py:752-783 | The last gate of qa and the review that opened it are unique. |
| AutopilotStamps.OneQaOpened | omg_cli/autopilot.py:752-783 | So are the last gate of acceptance and the QA stamp that opened it. |
| AutopilotStamps.AcceptedStampsAreYounger | omg_cli/autopilot.py:348-365 | Where no stamp at all is written inside such an entry, both stamps behind an acceptance are younger than the last one. |
| AutopilotStamps.ReviewStandsExactly | omg_cli/autopilot.py:752-760 | On every run that enters acceptance, the review on disk is still the stamp that opened qa if and only if that stamp, or the very same one written again, was followed by no invalidation and no other review. |
| AutopilotStamps.ReviewStandsUntouched | omg_cli/autopilot.py:752-760 | Where the same stamp is not written again: if and only if nothing touched the review after the gate of qa opened. |
| AutopilotStamps.ReviewStandsUnlessLost | omg_cli/autopilot.py:752-857 | With no review written since, it still stands if and only if no transition was killed between its invalidation of the review and its phase save. |
| AutopilotStamps.ReviewStandsWithoutKills | omg_cli/autopilot.py:752-857 | Where no transition was killed there, only another review replaces the one that opened qa. |
| AutopilotGates.StampsInsideOpenAcceptance | omg_cli/autopilot.py:846-857 | From any run in rework: stamps written inside the transition into review, which take no lease, open qa and acceptance although they are older than that entry. |
| AutopilotGates.KilledReworkSkipsReview | omg_cli/autopilot.py:752-760 | From any run in qa with a review stamp: a rework killed after its invalidations and one clean QA run reach acceptance with the review invalidated on disk. |
| AutopilotExamples.AcceptedWithInvalidatedReview | omg_cli/autopilot.py:752-760 | A run from the start of Autopilot that enters acceptance with the review invalidated on disk. |
| AutopilotExamples.AcceptedOnOlderStamps | omg_cli/autopilot.py:846-857 | A run from the start that begins acceptance on a review and a QA stamp written before the last entry into review, inside it. |
| AutopilotGates.RalplanEntryInvalidates | omg_cli/autopilot.py:813-845 | A ralplan entry invalidates review, QA and consensus if and only if the run started in ralplan or entered it before. |
| AutopilotGates.CountsOnRun | omg_cli/autopilot.py:813-845 | On every run the epoch counts the ralplan entries, and the ralplan cycles are one less. |
| AutopilotEntries.ReviewNeedsWork | omg_cli/autopilot.py:292-345 | On every run: without break-glass evidence a review begins from implement or blocked only if the workspace is another one than when the last saved implement entry began, or a receipt of exactly this workspace was stamped after it. |
| AutopilotEntries.ReviewOpensExactly | omg_cli/autopilot.py:292-345 | When a review may begin on a run, in both directions and for any evidence. |
| AutopilotEntries.SideOnRun | omg_cli/autopilot.py:784-857 | On every run the side file is what the events say: history, cycles, the fingerprint of the workspace when the last implement entry began, and the receipt bound last. |
| AutopilotEntries.ImplementDropsReceipt | omg_cli/autopilot.py:784-831 | An implement entry leaves no live receipt and no binding. |
| AutopilotEntries.StatusOnRun | omg_cli/autopilot.py:846-857 | Where the status file carries the nonce of the side file it names its phase. |
| AutopilotOpens.OpensExactly | omg_cli/autopilot.py:704-783 | From where, and on what stamps, receipts and evidence, each phase may be entered. |
| AutopilotOpens.ManualExactly | omg_cli/autopilot.py:39-56 | The table of transitions, read by their destination. |
| AutopilotOpens.ReviewCleanExactly | omg_cli/autopilot.py:90-141 | A clean review: of the writer of this run, passed, in both lanes if it has any, for this very workspace. |
| AutopilotOpens.QaCleanExactly | omg_cli/autopilot.py:144-216 | A clean QA stamp. |
| AutopilotOpens.OthersOpenExactly | omg_cli/autopilot.py:945-1010 | When a receipt may be stamped, and when the completion may begin. |
| AutopilotOpens.InvalidationsClose | omg_cli/autopilot.py:348-365 | An invalidated stamp closes its gate for every workspace. |
| AutopilotGates.CompletionNeedsBothWrites | omg_cli/autopilot.py:497-570 | Completion begins only where the last phase saved is acceptance and the status write of that same transition was made. |
| AutopilotGates.TransitionAlone | omg_cli/autopilot.py:658-898 | Nothing in between: the steps of a run that make up a transition end in exactly the files the transition leaves. |
| AutopilotCode.RunFiles.Transition | omg_cli/autopilot.py:658-898 | Refused with nothing changed exactly when a gate is closed, otherwise all writes of the transition are made in order; which gates are open is `AutopilotOpens.OpensExactly`, what is written `AutopilotEntries.SideOnRun`. |
| AutopilotCode.RunFiles.CheckGates | omg_cli/autopilot.py:704-783 | Evidence without break-glass changes nothing, and the gates of qa, acceptance and the rest read none; full evidence with break-glass opens ralplan, implement and review wherever the transition is listed and the run is open. |
| AutopilotCode.RunFiles.Prepare | omg_cli/autopilot.py:784-862 | The invalidations on disk and the new side file built beside them are those of the specification, for every nonce; what the entry fingerprint is on a run is `AutopilotEntries.SideOnRun`. |
| AutopilotCode.RunFiles.InvalidateQualityStages | omg_cli/autopilot.py:348-365 | Afterwards neither stamp is clean for any workspace, so qa and acceptance are closed on any evidence; a missing stamp stays missing. |
| AutopilotCode.RunFiles.NormalizeEpoch | omg_cli/autopilot.py:393-456 | An epoch on record stands; a missing one becomes zero if and only if nothing on disk comes from behind the interview: no such phase in the history, no cycle, no consensus or live receipt, no clean stamp. At zero, and only there, the next ralplan entry invalidates nothing. |
| AutopilotCode.RunFiles.StampReceipt | omg_cli/implementation.py:94-176 | In implement only: afterwards the receipt on disk unlocks this workspace for its lease, and review opens on no evidence at all. |
| AutopilotCode.RunFiles.CompleteWithAcceptance | omg_cli/autopilot.py:945-1115 | Completion leaves phase, authority and status at verified under one nonce, and nothing follows: no transition is allowed and no second completion. |
| Sha256.StandaloneSha256Hex | omg_cli/deny.py:2899-2959 | The loops over padding, blocks, words and rounds compute the digest of section 6.2.2 of FIPS 180-4, or raise exactly when the bit length needs more than 64 bits. |
| Sha256.ExtendWords | omg_cli/deny.py:2921-2930 | The growing word list is the message schedule. |
| Sha256.RunRounds | omg_cli/deny.py:2931-2948 | The parallel assignment of the eight variables makes the 64 rounds. |
| Sha256.PadMessage | omg_cli/deny.py:2902-2907 | The padding loop ends with the message padded as in section 5.1.1. |
| Sha256.PaddedIsWhole | omg_cli/deny.py:2902-2907 | A padded message is a whole number of 64-byte blocks, the fewest that hold message, mark and length. |
| Sha256.PaddingIsInjective | omg_cli/deny.py:2902-2907 | No two messages below 2^61 bytes are padded alike. |
| Sha256.PaddedExactly | omg_cli/deny.py:2902-2907 | The message, the byte 0x80, zeros, and the bit length in the last eight bytes. |
| Sha256.DigestExists | omg_cli/deny.py:2899-2907 | There is a digest exactly for messages below 2^61 bytes. |
| Sha256Vector.DigestOfAbc | omg_cli/deny.py:2899-2959 | The digest of "abc" is the one the standard gives, worked out over all 64 rounds. |
| Sha256Vector.OneMoreBlock | omg_cli/deny.py:2908-2957 | Each further block is worked into the digest of those before it. |
| Sha256.BigEndianBack | omg_cli/deny.py:2907-2907 | The eight length bytes give the length back. |
| Sha256.Masked5Adds | omg_cli/deny.py:2935-2935 | The unbounded sum of five words under the mask is addition modulo 2^32; likewise for two and four. |
| Sha256.Rotation | omg_cli/deny.py:2895-2896 | Shifting without bounds and masking is the 32-bit rotation. |
| Sha256Constants.ConstantsAreRoots | omg_cli/deny.py:2827-2919 | The 64 round constants are the leading fraction bits of the cube roots, and the initial hash those of the square roots, of the listed primes. |
| CivilTime.DayAfterDay | omg_cli/deny.py:2972-2979 | The day count rises by exactly one from each calendar day to the next and is 0 at 1970-01-01. |
| CivilTime.FormulaCounts | omg_cli/deny.py:2972-2979 | From year 1 on the closed formula equals counting days year by year and month by month. |
| CivilTime.MarchToMarch | omg_cli/deny.py:2972-2979 | From one March to the next the count rises by the length of the year between. |
| Timestamps.AcceptedCompareAsInstants | omg_cli/deny.py:2982-3020 | Two accepted timestamps compare, as pairs, exactly as their instants in UTC, computed from the local clock and the signs, hours and minutes of their offsets, and are equal exactly when the instants are. |
| Timestamps.NanosecondsAreFraction | omg_cli/deny.py:3004-3005 | Padding the fraction to nine digits gives its exact value in nanoseconds. |
| Timestamps.PairIsInstant | omg_cli/deny.py:2982-3020 | The pair of an accepted timestamp is its instant in UTC, cut into seconds and nanoseconds. |
| Timestamps.OffsetMovesInstant | omg_cli/deny.py:3006-3018 | The same clock reading with an offset east of Greenwich is that many seconds before the one in UTC, west of it that many after. |
| Timestamps.NoonInTheEast | omg_cli/deny.py:2982-3020 | Noon at +02:00 and eleven in UTC on one day, as the numbers they are. |
| Timestamps.ShownIsAccepted | omg_cli/deny.py:2786-3020 | Every stamp in the form of RFC 3339 is accepted, as itself, if and only if its numbers are a calendar day, a time and an offset in the ranges written out. |
| Timestamps.ShownIsMatched | omg_cli/deny.py:2786-2790 | Every stamp that fits the pattern is matched as itself. |
| Timestamps.MatchedIsShown | omg_cli/deny.py:2786-2790 | Whatever is matched is what its numbers are written as: no other text is accepted. |
| EnvSplit.SplitIsBounded | omg_cli/deny.py:1943-2019 | An accepted split yields at most 16 tokens, whose lengths plus one each sum to at most the string length plus one. |
| EnvSplit.SplitUndoesQuoting | omg_cli/deny.py:1943-2019 | Every list of up to 16 words, of any characters, comes back from one quoting of it that fits 512 characters. |
| EnvSplit.ParseEnvSplitString | omg_cli/deny.py:1943-2019 | The loop with `buf`, `quote` and `started` equals the specified scan. |
| EnvForms.WrittenIsRead | omg_cli/deny.py:1943-2019 | However a list of words is written, in bare, escaped and quoted parts, with gaps of five kinds, a comment or `\c` at the end: it is read back, unless it has `${`, more than 512 characters or more than 16 words. |
| EnvForms.RefusedBare | omg_cli/deny.py:1943-2019 | Behind any words, a lone dollar, other white space, another escape or a last backslash refuses the whole text. |
| EnvForms.RefusedQuoted | omg_cli/deny.py:1943-2019 | So does a quoted text that is not closed, or holds another escape. |
| EnvForms.StopInQuotes | omg_cli/deny.py:1978-1981 | `\c` within quotes ends the scan, and the open quoted text counts as a word. |
| WrapperPeel.PeelShrinks | omg_cli/deny.py:2022-2166 | Every peeled wrapper lowers the sum of word length plus one, although a split may put up to 16 new words in. |
| WrapperPeel.ChainEndsOnAHead | omg_cli/deny.py:2169-2178 | The chain ends with no more than it began with, and never on a leftover option. |
| WrapperPeel.OtherWrappersLeaveASuffix | omg_cli/deny.py:2100-2166 | Wrappers other than env never exceed the budget, and leave the end of their own words. |
| WrapperPeel.PeelOneWrapper | omg_cli/deny.py:2022-2166 | The loop with its in-place splice equals the specified peel and terminates. |
| WrapperPeel.PeelWrapperChain | omg_cli/deny.py:2169-2178 | The outer loop and the residue loop equal the specified chain and terminate. |
| WrapperLayers.PeelUndoesLayers | omg_cli/deny.py:2169-2178 | For any stack of wrappers, each with any of the options it takes and perhaps `--`, around a command: peeling yields exactly that command. |
| WrapperLayers.PeelUndoesLayer | omg_cli/deny.py:2022-2166 | One wrapper with its options comes off and nothing of what it wraps, for each wrapper and every option it takes. |
| WrapperLayers.SplitIsHandingOver | omg_cli/deny.py:2052-2081 | Words handed to env through a quoted `-S` are peeled as if handed over directly, with no second split allowed. |
| WrapperTables.VerdictExactly | omg_cli/deny.py:2040-2166 | What the loop does with a word follows from tables of spellings alone, which do not overlap: in both directions, for every wrapper and word. |
| WrapperTables.PeelExactly | omg_cli/deny.py:2022-2166 | Behind any options a wrapper takes the peel is decided by the next word: end, `--`, discovery, a split without text, or what is left. |
| WrapperTables.PeelSplitExactly | omg_cli/deny.py:2052-2081 | `env` with a text to split: it raises where the text cannot be split or a second split follows, and otherwise goes on with its words in place. |
| WrapperTables.WrappersExactly | omg_cli/deny.py:31-33 | Only eight names are wrappers. |
| WrapperTables.BasenameExactly | omg_cli/deny.py:1889-1890 | The base name is what follows the last slash, its capitals made small. |
| WrapperTables.ResidueExactly | omg_cli/deny.py:2231-2243 | Where no wrapper is left the words with a dash in front go, and nothing else does. |
| HistoryMerge.MergeIsTopOfEverything | omg_cli/ag_history.py:645-832 | For any number of sources and rows: cutting each source to its newest n, sorting stably and cutting to n gives the first n of the same sort over every canonical row of the accepted sources. |
| HistoryMerge.SortIsStable | omg_cli/ag_history.py:828-831 | The sort keeps the rows, orders them newest first and leaves rows of one time in their order. |
| HistoryMerge.StableSortIsUnique | omg_cli/ag_history.py:828-831 | Nothing else does: two orderings with those properties are equal. |
| HistoryMerge.ImportIsCut | omg_cli/ag_history.py:645-704 | An accepted import is the newest n of all canonical rows of its index. |
| HistoryMerge.ImportExactly | omg_cli/ag_history.py:645-704 | When an index is refused, and which rows are taken of one that is accepted. |
| HistoryMerge.EverythingInOrder | omg_cli/ag_history.py:729-832 | Of rows of one time those of earlier sources come first: everything is put together in the order of the sources. |
| HistoryMerge.AllCanonical | omg_cli/ag_history.py:645-704 | With canonical times everywhere no source is left out. |
| HistoryMerge.ImportSummary | omg_cli/ag_history.py:645-704 | The fetch loop with its skip counter equals the specified import, its refusal included. |
| HistoryMerge.InspectHistory | omg_cli/ag_history.py:729-832 | The merge returns the first 200 of the stable sort of everything accepted. |
| TextLayout.WrappingKeepsInk | omg_cli/agent_policy_ux.py:158-218 | For any positive width and blank indent, the lines hold exactly the non-space characters of the text, in order. |
| TextLayout.WrappingFitsExactly | omg_cli/agent_policy_ux.py:158-218 | Where some character is wide: every text behind an indent of n blanks stays within the limit if and only if the limit is two or more and each of the two indents, the own and that of the lines after the first, is no wider than the limit and does not leave exactly one column. |
| TextLayout.WrappingFits | omg_cli/agent_policy_ux.py:158-218 | For any text: where the limit is two or more and both indents leave no column or at least two, no line is wider than the limit. |
| TextLayout.TooWideIndent | omg_cli/agent_policy_ux.py:200-216 | A continuation indent wider than the limit stands on a line of its own as soon as a word is broken, whatever its characters. |
| TextLayout.FourBlanksOfThree | omg_cli/agent_policy_ux.py:200-225 | On lines of three columns, with four blanks as indent, a narrow word of four characters behind one blank leaves a line of four blanks. |
| TextLayout.OneColumnIsTooFew | omg_cli/agent_policy_ux.py:158-218 | Behind an indent that leaves one column a wide character goes over the limit, for every limit. |
| TextLayout.TruncatedFits | omg_cli/agent_policy_ux.py:106-123 | Truncated text is never too wide and keeps as many characters as leave room for the ellipsis. |
| TextLayout.PaddedFills | omg_cli/agent_policy_ux.py:101-103 | Padded text fills its columns exactly. |
| TextLayout.FitLenIsLongest | omg_cli/agent_policy_ux.py:126-142 | The front that is taken fits and one more character would not. |
| TextLayout.PiecesKeep | omg_cli/agent_policy_ux.py:145-155 | The pieces of unbroken text join to the text, and fit any width of two or more. |
| TextBroken.TruncatedExactly | omg_cli/agent_policy_ux.py:106-123 | What truncation gives in every case, for an ellipsis of either width. |
| TextBroken.PaddedExactly | omg_cli/agent_policy_ux.py:101-103 | Padding puts spaces behind the truncated text and nothing else. |
| TextBroken.PiecesExactly | omg_cli/agent_policy_ux.py:145-155 | The pieces of unbroken text join to it, each fits or is one character, and none could have taken the first character of the next. |
| TextBroken.OneCut | omg_cli/agent_policy_ux.py:145-155 | There is only one way to cut a text so. |
| TextBroken.BlankWrapped | omg_cli/agent_policy_ux.py:158-176 | A text without words is cut as it is, and a limit below one gives one empty line. |
| TextBroken.BrokenExactly | omg_cli/agent_policy_ux.py:200-216 | A word that is cut over lines: its pieces join to it, and each fills the room its indent leaves. |
| TextBroken.LongWord | omg_cli/agent_policy_ux.py:190-218 | A word too long for a line of its own stands alone: the words before it keep their lines and those behind it begin a new one. |
| TextGreedy.WrappingIsGreedy | omg_cli/agent_policy_ux.py:158-218 | If every word fits behind both indents, the lines are the words in order, none broken, joined by one space behind their indents, and no line could have taken the first word of the next. |
| TextLayoutCode.TruncateDisplay | omg_cli/agent_policy_ux.py:106-123 | The loop computes the specified truncation. |
| TextLayoutCode.PadDisplay | omg_cli/agent_policy_ux.py:101-103 | The result is exactly as wide as asked, and a text that fits stands unchanged in front of spaces. |
| TextLayoutCode.FitChars | omg_cli/agent_policy_ux.py:126-142 | Splits the text at the specified place; nothing is lost between head and rest. |
| TextLayoutCode.WrapUnbroken | omg_cli/agent_policy_ux.py:145-155 | The loop computes the specified pieces and terminates. |
| TextLayoutCode.WrapDisplay | omg_cli/agent_policy_ux.py:158-218 | The token loop with `prefix`, `parts` and the inner loop computes the specified lines and terminates. |
| TextLayoutCode.BreakToken | omg_cli/agent_policy_ux.py:200-216 | The inner loop breaks a token as specified. |
| Guidance.InstallTwice | omg_cli/guidance.py:135-155 | Installing the same block again changes nothing, whatever the file was before. |
| Guidance.InstallKeepsTheRest | omg_cli/guidance.py:135-155 | After an install the file holds the block once, and the text before and after it is that of before up to newlines at its ends. |
| Guidance.UninstallUndoesInstall | omg_cli/guidance.py:195-221 | Uninstalling what was installed into a file without markers gives that file stripped plus one newline, or removes it if it was blank. |
| Guidance.FramedIsBlock | omg_cli/guidance.py:98-118 | Any text without markers, framed by them, is a block in the sense of the other properties. |
| Guidance.AroundIsMarkerFree | omg_cli/guidance.py:98-118 | What stands before and after a found block holds neither marker. |
| Guidance.NoBlockIsMarkerFree | omg_cli/guidance.py:98-118 | No block is found without error exactly in a text without markers. |
| Guidance.CountOne | omg_cli/guidance.py:98-118 | For a marker that cannot overlap itself a count of one means a single place. |
| Guidance.ExtractExactly | omg_cli/guidance.py:98-118 | Where a block is found, and exactly which texts are corrupt. |
| Guidance.ReconcileExactly | omg_cli/guidance.py:135-155 | Which texts are refused, created, appended to or spliced. |
| Guidance.JoinExactly | omg_cli/guidance.py:121-132 | Of regions of nothing but newlines one newline is left; any other is a line of its own without those. |
| Guidance.UninstallExactly | omg_cli/guidance.py:195-221 | When the file is left alone, refused, removed or kept. |
| GuidanceCode.JoinParts | omg_cli/guidance.py:121-132 | The loop joins the non-empty stripped regions as specified. |
| GuidanceCode.ReconcileRulesText | omg_cli/guidance.py:135-155 | Raises exactly on corrupt markers in a file that is not blank; otherwise the new text holds the given block, and reconciling again changes nothing. |
| GuidanceCode.RulesFile.InstallGlobalRules | omg_cli/guidance.py:179-192 | File, backup and action after an install: untouched on error or no change, otherwise the old file is kept beside the new one. |
| GuidanceCode.RulesFile.UninstallGlobalRules | omg_cli/guidance.py:195-221 | File and answer after an uninstall: left alone, removed, or kept without the block. |
| GuidanceCode.InstallThenUninstall | omg_cli/guidance.py:179-221 | On the file itself, an install and an uninstall leave the user text stripped plus one newline. |

## Left out

- YamlDocument.RoundTripExactly: about dictionaries and lists whose keys hold no line break; the printer writes a line break in a key as it is. A document that is a single scalar is YamlDocument.ScalarExactly.
- YamlCode.ParseDocument: line numbers and message texts of errors are left out; each error is a kind. Digits are those of ASCII where Python's `isdigit` knows more, and letters are lowered as in ASCII.
- GoalLedger.TailHashPinsHistory: the hash is an injective function of the previous hash and the body; JSON bytes, times and event ids are abstract values.
- GoalBlockers.StrandedRecoversExactly: about sequences of operations on the snapshot, without kills or repairs between them.
- GoalTheorems.RunInv: runs begin with the creation of a goal from a valid list of stories and hold every operation of the ledger; locks are atomic steps, and a crash falls between the append and the snapshot.
- GoalTheorems.RepairWorksIffNoCheckpoint: about a history that still begins with the creation of the goal; what a repair of an empty history leaves is GoalTheorems.EmptyRepair.
- GoalCode.GoalStore.VerifyGoalCode: which runs carry an accepted result is a parameter. Setting the host handoff, listing goals, the status report and the file checks of a proposal import are left out; the import itself is an operation of the model.
- GoalCode.GoalStore.ResumeStoryCode: the exception raised on a missing blocker is a refusal with nothing written.
- AgyInstall.InstallRollsBack: the `agy` commands succeed and keep contracts: they change the target and their own rows and leave others' rows alone. The install is a first-time one that meets no failure of its own; the live probe and the plugin validation are left out.
- AgyRollback.RollbackSurvivesKills: about a first-time install whose post-state was sealed; refreshes and unsealed installs are in AgyWindows, where a killed rollback may be refused. Edits of others come after the phase mark, keep the registries well-formed and leave this plugin's rows alone.
- AgyUninstall.UninstallSurvivesKills: the removal of the committed journal directory and its finalisation are left out; a kill inside the first writing of the journal is not modelled.
- AgyCode.Host.UninstallOwnedPlugin: keeps the committed journal, as with `retain_committed`.
- AgyRegistry.RestoreRegistryFacts: file modes, symbolic links and no-follow opens are left out; bytes are a JSON value in some layout. A registry row stands for its own hash, so identities compare rows.
- AutopilotRuns.AcceptanceIsBacked: the workspace is two hashes, read without error; a run's files are those the program writes, so hand-edited files are left out, as is a writer that lost its lease and still invalidates.
- AutopilotCode.RunFiles.CompleteWithAcceptance: the acceptance run is taken to pass; running it, the process-local token and the interview and consensus contents are left out, as are the two writes inside the consensus invalidation, taken as one.
- AutopilotCode.RunFiles.NormalizeEpoch: a history that is no list, or an epoch that is no number, is left out.
- Sha256.StandaloneSha256Hex: the digest text is modelled; receipts and their canonical JSON are left out. That the listed numbers are the first 64 primes is taken as data.
- Timestamps.AcceptedCompareAsInstants: digits are those of ASCII; Python's pattern also matches other decimal digits. Reading the clock is left out.
- WrapperPeel.PeelOneWrapper: digits, word characters and lower case are those of ASCII. Decoding shell words, the head patterns and the deny decisions are left out.
- HistoryMerge.InspectHistory: SQLite is a list of rows in index order; reading cells, workspace fingerprints, diagnostics and versions are left out, and canonical texts are taken to order as their times.
- TextLayout.WrappingKeepsInk: about blank continuation indents, which is how the program calls it; for a width below one the code returns one empty line. Which characters are wide is a parameter. The branch for an empty head is dead code and left out.
- GuidanceCode.RulesFile.InstallGlobalRules: rendering the block, the template hash, versions and the status report are left out; atomic replace is one step.
- Policy tables, doctor, fan-out, prompts, leases, review and QA internals, and everything that launches processes are left out; most of it would add case analysis only.
