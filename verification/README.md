# Graphium: a verified model of the editor core

Graphium is a text editor. This project models the part of it that draws no windows: the undo journal and
the notion of "Saved", case-insensitive search, reading and writing bytes, planned edits, print
pagination, and the two asynchronous controllers for crash recovery and file monitoring. It states what
that code promises and proves it with Dafny 4.11. `dafny verify dfyconfig.toml` checks everything.

Texts are `seq<char>` with offsets in code points. Where the code updates objects in place, a class does
the same, and each of its methods is proved to take the step of a function on values; the theorems about
runs are stated on those functions. Where the code computes with a loop, a method has that loop and is
proved against a specification that does not mention it.

## How the parts fit

**Editing and saving.** `Edits` has operations, their inverses and the buffer's transaction. `EditHistory`
and `DeltaJournal` have the journal of deltas: coalescing, two memory limits, branches, checkpoints.
`DocumentSessionModel` compares state IDs and profiles and never looks at text. `EditorRun` puts buffer,
journal, session and saves in flight into one machine whose steps may fail and roll back; a map from state
IDs to texts is its ghost. `EditorSafety` proves that Saved is exact over every run, `EditorGuards` that
behind the window's guards no run shows an over-wide line, wherever these guards read the whole line
(`WindowGuards`), `SavedState` how long the saved state stays within reach of Undo and Redo and how it is
reached, and `TypingRuns` what one Undo takes back of typing. `NativeEditor` and `DeltaHistoryClass` are the
classes. The writer of a save is an oracle: it reports the loaded state of the bytes it wrote as the new
baseline, or nothing.

**Bytes.** `Codec` encodes and decodes UTF-8 (section 3 of RFC 3629), UTF-16 (section 2 of RFC 2781) and
UTF-32 (section 3.10 of the Unicode Standard). `DocumentBytes` and `DocumentRoundTrip` add byte order
marks, line endings and the two directions of the round trip.

**Search.** `FoldedLines` has the sparse table that translates offsets between a line and its fold;
`TextSearch`, `FindInText` and `SearchCommands` go from one folded line to the search commands. The fold
is any function from characters to non-empty strings that keeps LF and CR to their own folds (toCasefold
in section 3.13 of the Unicode Standard). The specification is a naive search over all spans of the text.

**Planned edits.** `Patches` and `EditPlans` treat every plan as an ordered set of replacements: its
final text, its operations from the last to the first, and its caret map. `SearchReplace`,
`TextTransform`, `DuplicateLines` and `TrimTrailing` are the planners; `Lines` and `LineMoves` say what
moving lines means by offsets, and `MovePlans` when the opposite move restores everything.
`PlannedEdits` hands a plan to the editor machine. `Renderability` has the width budget.

**Pages.** `Pagination` proves the flat and the incremental paginator equal; `LayoutChunks` splits the
text. Heights are real numbers.

**Asynchronous controllers.** `RecoveryMachine` and `MonitorMachine` are step relations in which
callbacks of the main thread and steps of the worker interleave freely. `RecoverySafety`, `RecoveryRuns`
and `MonitorSafety` have their invariants and what follows for all runs, including that draining the
worker and letting the timers run ends well. The classes in `RecoveryControllerClass` and `MonitorClass`
keep these invariants in every callback and tell their callers what they can rely on.

## Where the code does less than one might expect

- A case-sensitive search with wrap does not report an occurrence that straddles the start offset
  (`SearchCommands.ExactWrapMissesStraddling`).
- The buffer clamps an insertion past the end, the journal does not, so Undo cannot take it back
  (`EditorGuards.UndoTakesBackExactlyInRange`, `EditorGuards.OutOfRangeEditIsLostToUndo`).
- Moving lines up and down again restores the text unless an empty line was left at the end of a text
  without final LF, and then the selection unless one endpoint stood at the end of the block's text above
  a last line without LF (`LineMoves.OppositeMove`; witnesses `MovePlans.OppositeMoveCanFail` and
  `MovePlans.SelectionCanBeOffByOne`). For a region that ends in LF it always does.
- A caret strictly inside a match that already reads like the replacement leaves that match in Replace All,
  although nothing there is edited (`Patches.MapFollowsTheEdit`, `SearchReplace.CaretLeavesUnchangedMatch`).
- A text that starts with U+FEFF under a profile without byte order mark does not survive saving and
  reopening (`DocumentRoundTrip.SerializeThenLoad`, `DocumentRoundTrip.LoneBomIsSwallowed`), and a text with
  CR in the buffer may not be written the same way again (`DocumentRoundTrip.ReserializeExact`,
  `DocumentRoundTrip.CrBeforeLfIsNotReproducible`).
- The window measures lines of the buffer, which end at CR, CR LF and U+2029 as well; the width budget is about
  lines that end at LF. Where one of those characters hides a part of the LF line, the guards let over-wide
  results pass (`WindowGuards.InsertVerdict` and `WindowGuards.DeleteVerdict` say exactly where; witnesses
  `WindowGuards.GuardOverlooksParagraph` and `EditorGuards.ParagraphBreaksBudget`).
- At a line end the window's guard measures up to the end of the next line and can refuse an insertion that
  would fit (`WindowGuards.InsertVerdict`, `WindowGuards.GuardRefusesWhatFits`).
- When the scheduler fails to cancel a recovery timer, its callback can start a second write beside the one
  under way (`RecoverySafety.StaleCallbackExact`, `RecoveryRuns.StaleCallbackStartsSecondWrite`); locks and
  artifacts stay in order (`RecoverySafety.StaleCallbackKeepsRest`). After an invalidation it can take the
  forgotten document up again (`RecoverySafety.StaleCallbackRevives`).

## Model

| member | source | states |
|---|---|---|
| EditorSafety.SavedIsExact | graphium/application/document_session.py:46-60 | over every run, with no group open and the session not modified, the live text is the text the saved state ID has stood for since it was issued, and serializing it again gives the bytes of the accepted baseline wherever that baseline is exact (DocumentRoundTrip.ReserializeExact says when) |
| EditorSafety.CommitMarksCapturedState | graphium/application/document_session.py:340-369 | a save marks the state it captured, whatever was edited while it was in flight, takes over the path written, the baseline and its profile, and leaves the document not Modified exactly when it still is that state under that profile; a plain Save is then captured exactly to that path, over a baseline, for a current text that serializes |
| EditorSafety.SavesToCommittedPath | graphium/application/document_save_service.py:45-55 | after a commit a plain Save is captured to the path committed and to no other, and only over a reported baseline |
| EditorSafety.SavedAfterSave | graphium/application/document_save_service.py:32-127 | a save writes the buffer serialized under the current profile, or nothing, and with nothing in between leaves the document Saved under the path written |
| EditorSafety.ChoiceModifies | graphium/application/document_session.py:300-322 | a chosen profile makes the document Modified exactly when it then differs from the saved profile, at the saved state |
| EditorSafety.SavedExactlyAtSavedState | graphium/application/document_session.py:46-53 | over every run the document is not Modified exactly at the saved state ID under the saved profile |
| EditorSafety.BackAtSavedIsSaved | graphium/application/native_editor.py:264-285 | over every run Undo or Redo makes the document Saved exactly when it comes back to the saved state under the saved profile, and then shows the saved text |
| EditorSafety.RecoveredStartsModified | graphium/application/native_editor.py:155-219 | over every run recovered text starts Modified, over a fresh saved ID that stands for the text and the profile of its file, or over no saved state at all |
| EditorSafety.NewStarts | graphium/application/native_editor.py:105-128 | over every run a new document starts without path, in UTF-8 with LF, and Modified unless it is declared clean |
| EditorSafety.UndoRevisits | graphium/application/native_editor.py:264-285 | in every reachable state Undo and Redo show exactly the text their target state first had, and each takes the other back exactly, through coalescing, branching and eviction |
| EditorSafety.ReplayShowsTarget | graphium/application/native_editor.py:264-285 | a replay meets no delete mismatch and no broken state chain |
| EditorSafety.FailedEditLeavesNoTrace | graphium/application/native_editor.py:335-380 | a programmatic edit that fails in the buffer, at the history commit or in the listener leaves text, stacks, current ID and session as before; the next ID moves by one exactly when one had been issued |
| EditorSafety.OpenStartsSaved | graphium/application/native_editor.py:130-153 | opening a file starts not modified, with empty stacks, under an ID never used before, and remembers its bytes as its baseline, with its path, profile and text in the session |
| EditorSafety.StepKeeps | graphium/application/native_editor.py:221-380 | each step (native groups, replay, programmatic edits, opening, recovery, profile choice, capture and commit of a save, and their failures) keeps the invariant and every ID's text |
| EditorSafety.RunKeeps | graphium/application/native_editor.py:221-380 | the invariant holds in every state of every run, and state IDs keep their texts and are never issued twice along it |
| EditorSafety.RunIsBounded | graphium/domain/edit_history.py:271-276 | over every run both stacks together hold at most 1,000 groups, and 16,000,000 characters or a single group |
| EditorGuards.UndoTakesBackExactlyInRange | graphium/adapters/gtk/editor_buffer.py:69-71 | the next Undo takes a committed programmatic edit back exactly when its insertions were in range (the buffer clamps others) and it did not join the group before it; an edit that joined goes back together with that group |
| EditorGuards.OutOfRangeEditIsLostToUndo | graphium/adapters/gtk/editor_buffer.py:69-82 | witness: an insertion past the end is applied but cannot be undone |
| EditorGuards.TypedIsReached | graphium/application/native_editor.py:221-252 | a run that opens a new document and closes one group of typing leads to the state the next witness starts from |
| EditorGuards.JoinedEditGoesBackWithTyping | graphium/domain/edit_history.py:215-226 | witness: a planned b right behind a typed a joins its group, and one Undo takes both back |
| TypingRuns.UndoTakesBackLastRun | graphium/domain/edit_history.py:196-269 | whatever has been typed character by character since a group was begun, one Undo takes back exactly the last maximal run of line breaks, of tabs, of other blanks or of other characters, and puts the caret where it began |
| TypingRuns.TypingLeavesLastRun | graphium/domain/edit_history.py:271-305 | that run is the group on top of the stack, however many groups have been evicted below it |
| TypingRuns.BlankEndsTheWord | graphium/domain/edit_history.py:196-239 | instance: after a letter, a blank and a letter Undo shows the first two |
| EditorGuards.RunStaysRenderable | graphium/adapters/gtk/window.py:519-549 | with the window's guards before typing and erasing where they read the whole LF line (WindowGuards.InsertVerdict, WindowGuards.DeleteVerdict), checked openings and plans that replay, no run shows an over-wide line, Undo and Redo included |
| EditorGuards.StepWidth | graphium/adapters/gtk/window.py:519-549 | one step that passes such a guard keeps the live text and every text on the stacks within the width budget |
| EditorGuards.ParagraphBreaksBudget | graphium/adapters/gtk/window.py:519-536 | witness: a file of one U+2029 is opened and a full line typed behind it; every guard passes, and the LF line is one character over the budget |
| WindowGuards.InsertVerdict | graphium/adapters/gtk/window.py:519-536 | for every text within budget, position and limit, two if-and-only-ifs: only harmless insertions pass exactly when the window reads the whole LF line around the position (no CR or U+2029 hides a part of it, or the suffix measured lets nothing pass), and all harmless insertions pass exactly when it does not start to measure at an LF |
| WindowGuards.WindowStartIs | graphium/adapters/gtk/window.py:521-523 | the window's line start is the start of the LF line exactly when no line of the buffer starts in between, behind a CR or U+2029 |
| WindowGuards.ForwardBehind | graphium/adapters/gtk/window.py:524-527 | the window's line end reaches the end of the LF line exactly when no CR and no U+2029 stands between the position and it |
| WindowGuards.ForwardWithin | graphium/adapters/gtk/window.py:524-527 | and it stays within the LF line exactly when the position is not at an LF, alone or behind its CR |
| WindowGuards.PairsAreOneDelimiter | graphium/adapters/gtk/window.py:521-527 | instance: a CR and the LF that came with it are one delimiter, otherwise two, and LF CR always |
| WindowGuards.OrdinaryReads | graphium/adapters/gtk/window.py:519-549 | an LF line free of CR and U+2029 is always read whole |
| WindowGuards.GuardOverlooksParagraph | graphium/adapters/gtk/window.py:519-536 | witness for every limit: behind a U+2029 a full line passes and the LF line is over the limit |
| WindowGuards.DeleteVerdict | graphium/adapters/gtk/window.py:538-549 | a harmful deletion passes exactly when it removes an LF and the limit lies between the width the window measures and that of the joined LF line; none does where both ends are read whole |
| WindowGuards.GuardRefusesWhatFits | graphium/adapters/gtk/window.py:524-527 | witness: at a line end the guard measures to the end of the next line and refuses an insertion that would fit |
| SavedState.SavedLeavesReachOnlyBy | graphium/domain/edit_history.py:222-226 | over a run the saved state goes out of reach of Undo and Redo only with another document, with a group closed while it lies ahead, or with a group that takes the stack over its limits |
| SavedState.StepKeepsReach | graphium/domain/edit_history.py:271-343 | every other step of the editor keeps it in reach |
| SavedState.CommitKeepsReach | graphium/domain/edit_history.py:278-305 | a group that fits the limits, merged or pushed, keeps every state behind it in reach |
| SavedState.InReachIsShown | graphium/application/native_editor.py:264-285 | exactly the states in reach are shown, with the text recorded for them, after some number of Undo or of Redo steps, at most as many as there are groups |
| Edits.InverseExact | graphium/application/native_editor.py:286-292 | the reversed inverse list restores the source exactly when every insertion was in range |
| Edits.FlipExact | graphium/adapters/gtk/editor_buffer.py:83-86 | one inverse operation restores the text exactly unless an insertion was clamped |
| Edits.TransactionIsAtomic | graphium/adapters/gtk/editor_buffer.py:94-123 | a transaction applies all operations, or restores the text exactly when its insertions were in range |
| Edits.TextBuffer.ApplyOperation | graphium/adapters/gtk/editor_buffer.py:69-92 | the in-place operation computes the clamped insertion or the checked deletion, and changes nothing on a mismatch |
| Edits.TextBuffer.Unwind | graphium/adapters/gtk/editor_buffer.py:108-119 | undoes the applied operations, last one first |
| Edits.TextBuffer.ApplyOperations | graphium/adapters/gtk/editor_buffer.py:94-123 | the loop with its `applied` list performs the transaction: all operations, or the inverse of those applied |
| EditHistory.MergeReplays | graphium/domain/edit_history.py:215-269 | a merged delta does to every text what the two deltas do one after the other |
| EditHistory.MergesExactly | graphium/domain/edit_history.py:227-262 | an edit joins the one before it exactly when it is a single character of the same sort (line break, tab, other blank, other) that goes on where that one stopped, in its direction; the texts are then put together in the order of the document |
| EditHistory.MergedGroupEquivalent | graphium/domain/edit_history.py:215-269 | redoing and undoing a merged group is redoing and undoing its two groups in sequence, and it keeps the state and caret before the first and behind the second |
| DeltaJournal.DropOverPayloadIsLongest | graphium/domain/edit_history.py:271-276 | dropping from the front stops at the longest tail within the payload budget |
| DeltaJournal.TrimKeepsLongestTail | graphium/domain/edit_history.py:271-276 | trimming keeps the longest tail of the undo stack that fits both limits |
| DeltaJournal.BoundKept | graphium/domain/edit_history.py:271-343 | no operation lets both stacks together exceed max_groups, or the payload budget with more than one group |
| DeltaJournal.UndoRedoInverse | graphium/domain/edit_history.py:320-343 | the trim inside redo evicts nothing: undo then redo, and redo then undo, restore the whole journal |
| DeltaJournal.CoalescingKeepsSaved | graphium/domain/edit_history.py:222-226 | coalescing never removes the saved state from the undo chain |
| DeltaJournal.EndGroupSound | graphium/domain/edit_history.py:278-305 | a committed group leads from the text of its before-ID to the text of its after-ID, merged or not |
| DeltaJournal.ReplaySound | graphium/domain/edit_history.py:307-343 | in a sound journal undo and redo find their group and its operations lead from the current text to the target text |
| DeltaJournal.IdsOnlyGrow | graphium/domain/edit_history.py:130-141 | IDs are issued in increasing order and a checkpoint restore never takes one back |
| DeltaHistoryClass.DeltaHistory.FreshStateId | graphium/domain/edit_history.py:130-133 | issues the next ID |
| DeltaHistoryClass.DeltaHistory.Reset | graphium/domain/edit_history.py:135-142 | empties both stacks under a fresh ID |
| DeltaHistoryClass.DeltaHistory.BeginGroup | graphium/domain/edit_history.py:165-174 | opens a group, or reports why not |
| DeltaHistoryClass.DeltaHistory.RecordInsert | graphium/domain/edit_history.py:176-179 | appends an insertion to the open group |
| DeltaHistoryClass.DeltaHistory.RecordDelete | graphium/domain/edit_history.py:181-190 | appends a deletion with its direction |
| DeltaHistoryClass.DeltaHistory.AbortGroup | graphium/domain/edit_history.py:192-195 | drops the open group |
| DeltaHistoryClass.DeltaHistory.Trim | graphium/domain/edit_history.py:271-276 | both eviction loops leave the trimmed stack |
| DeltaHistoryClass.DeltaHistory.TrimCount | graphium/domain/edit_history.py:271-273 | the count loop leaves at most max_groups |
| DeltaHistoryClass.DeltaHistory.TrimPayload | graphium/domain/edit_history.py:274-276 | the payload loop leaves the longest tail within budget |
| DeltaHistoryClass.DeltaHistory.Push | graphium/domain/edit_history.py:286-300 | merges with the top group or pushes |
| DeltaHistoryClass.DeltaHistory.EndGroup | graphium/domain/edit_history.py:278-305 | the whole new journal after a commit, coalescing, redo clearing and trim included |
| DeltaHistoryClass.DeltaHistory.Undo | graphium/domain/edit_history.py:320-330 | the popped group's inverse operations and the new stacks, or the broken-chain report |
| DeltaHistoryClass.DeltaHistory.Redo | graphium/domain/edit_history.py:332-343 | the group's operations and the new stacks, trim included |
| DeltaHistoryClass.DeltaHistory.RestoreCheckpoint | graphium/domain/edit_history.py:356-366 | stacks and current ID of the checkpoint, next ID never smaller |
| DocumentSessionModel.DocumentSession.EstablishNew | graphium/application/document_session.py:151-163 | a new document, clean or not |
| DocumentSessionModel.DocumentSession.EstablishOpen | graphium/application/document_session.py:165-183 | an opened file is its own saved state |
| DocumentSessionModel.DocumentSession.EstablishRecoveredNamed | graphium/application/document_session.py:185-213 | recovered text over a saved baseline of another ID (EditorSafety.RecoveredStartsModified says what that means) |
| DocumentSessionModel.DocumentSession.EstablishRecoveredUnbound | graphium/application/document_session.py:215-234 | recovered text without a file |
| DocumentSessionModel.DocumentSession.AdvanceEditorState | graphium/application/document_session.py:272-283 | moves the current ID, keeps the saved one |
| DocumentSessionModel.DocumentSession.SynchronizeCurrentText | graphium/application/document_session.py:285-298 | binds the text to the current ID |
| DocumentSessionModel.DocumentSession.SelectRepresentation | graphium/application/document_session.py:300-322 | changes the profile, or nothing if refused, and reports whether anything changed |
| DocumentSessionModel.DocumentSession.AcceptCommittedSave | graphium/application/document_session.py:340-369 | the captured ID and profile become the saved ones, and the path written the path of the document (EditorSafety.CommitMarksCapturedState says what that means) |
| DocumentSessionModel.DocumentSession.RestoreCheckpoint | graphium/application/document_session.py:377-389 | all fields of the snapshot |
| NativeEditor.NativeEditorController.BeginNativeGroup | graphium/application/native_editor.py:221-225 | takes the step of the editor machine and keeps its invariant; fails exactly with an open group or before any document |
| NativeEditor.NativeEditorController.NativeInsert | graphium/application/native_editor.py:227-230 | same for typed text |
| NativeEditor.NativeEditorController.NativeDelete | graphium/application/native_editor.py:232-241 | same for erased text |
| NativeEditor.NativeEditorController.EndNativeGroup | graphium/application/native_editor.py:243-252 | same; commits the group, advances the session and returns its ID, or reports that there was no group |
| NativeEditor.NativeEditorController.PrepareForSave | graphium/application/native_editor.py:254-262 | succeeds exactly with a document and no open group; then the session's text is the buffer's |
| NativeEditor.NativeEditorController.ReplayOne | graphium/application/native_editor.py:264-284 | a replay, or its rollback by checkpoints; returns the journal's plan exactly when the buffer took it |
| NativeEditor.NativeEditorController.Undo | graphium/application/native_editor.py:382-383 | takes the undo step; returns the plan of the group on top, whose operations led to the text recorded for its target, or nothing when there is no group or one is open |
| NativeEditor.NativeEditorController.Redo | graphium/application/native_editor.py:385-386 | the same for redo |
| NativeEditor.NativeEditorController.Refuses | graphium/application/native_editor.py:313-333 | accepts exactly the admissible edits |
| NativeEditor.NativeEditorController.PerformRecorded | graphium/application/native_editor.py:352-380 | buffer, history, session and listener in turn, each failure rolled back |
| NativeEditor.NativeEditorController.ApplyProgrammaticGroup | graphium/application/native_editor.py:294-380 | the whole programmatic transaction is the step of the machine; returns the new ID exactly for an admissible edit that the buffer, the history and the listener took |
| NativeEditor.NativeEditorController.InitializeNewText | graphium/application/native_editor.py:105-128 | replacement by new text, or rolled back exactly when a group is open or a later stage fails |
| NativeEditor.NativeEditorController.InitializeOpen | graphium/application/native_editor.py:130-153 | the same for a loaded file |
| NativeEditor.NativeEditorController.InitializeRecoveredNamed | graphium/application/native_editor.py:155-190 | recovered text over its named baseline; refused as well when it is too wide |
| NativeEditor.NativeEditorController.InitializeRecoveredUnbound | graphium/application/native_editor.py:192-219 | recovered text without a file; refused as well when it is too wide |
| NativeEditor.DocumentSaveService.Capture | graphium/application/document_save_service.py:32-60 | captures one stable state, serialized before anything is written, or refuses |
| NativeEditor.DocumentSaveService.Accept | graphium/application/document_save_service.py:103-127 | after the writer's answer the session takes over exactly the captured state |
| Codec.EncodedOfHead | graphium/infrastructure/document_loader.py:28-50 | decoding accepts only the one encoding of each scalar value |
| Codec.HeadOfEncoded | graphium/infrastructure/document_loader.py:28-50 | the encoding of a scalar value decodes to it, followed by anything |
| Codec.DecodeEncode | graphium/domain/document_serialization.py:141-150 | decoding undoes encoding, in all five encodings |
| Codec.EncodeDecode | graphium/infrastructure/document_loader.py:28-50 | every byte string that decodes is the encoding of its text |
| Codec.Utf8InOrder | graphium/domain/document_serialization.py:141-150 | UTF-8 byte strings sort like the characters they encode (section 1 of RFC 3629) |
| Codec.Utf8Boundaries | graphium/domain/document_serialization.py:141-150 | the first byte of a character is no continuation byte and all others are |
| Codec.Utf16InOrder | graphium/domain/document_serialization.py:141-150 | characters beyond the basic plane take two units, and big-endian units sort like the characters |
| Codec.Utf32InOrder | graphium/domain/document_serialization.py:141-150 | big-endian UTF-32 sorts like the characters |
| Codec.ReferenceExamples | graphium/domain/document_serialization.py:141-150 | the examples of section 7 of RFC 3629 and of RFC 2781, and one character in both orders of UTF-32 |
| DocumentBytes.BomIsEncodedMark | graphium/domain/document_serialization.py:109-118 | each byte order mark is U+FEFF in the encoding it announces |
| DocumentBytes.DecodeBytesLoop | graphium/infrastructure/document_loader.py:27-49 | the BOM loop picks the encoding the sniffing order gives and decodes the rest |
| DocumentBytes.EolProfileMeaning | graphium/infrastructure/document_loader.py:52-82 | the dominant ending occurs and none beats it by count, then by first position; mixed means at least two kinds |
| DocumentBytes.LineEndingProfileLoop | graphium/infrastructure/document_loader.py:52-82 | the counting loop computes that profile |
| DocumentBytes.NormalizeIsOnePass | graphium/infrastructure/document_loader.py:108 | the two replacements are one left-to-right normalization |
| DocumentBytes.LocalizeNormalized | graphium/domain/document_serialization.py:137-140 | normalizing and writing back an unmixed text is the identity |
| DocumentBytes.NormalizeLocalized | graphium/infrastructure/document_loader.py:108 | normalizing what was written gives the text back when it is free of CR |
| DocumentRoundTrip.BomOfSerialized | graphium/infrastructure/document_loader.py:28-43 | the BOM found is the BOM written; without NUL, UTF-16-LE is never taken for UTF-32-LE |
| DocumentRoundTrip.ContentNeutral | graphium/domain/document_serialization.py:76-150 | opening and saving unchanged is the identity on bytes for every file the loader accepts unmixed |
| DocumentRoundTrip.SerializeThenLoad | graphium/domain/document_serialization.py:120-150 | text, encoding and BOM survive exactly for CR-free text that does not fake a BOM; the line ending exactly when the text shows it or it is LF |
| DocumentRoundTrip.ReserializeExact | graphium/domain/document_serialization.py:76-150 | for every text: after a save whose bytes are the new baseline, its profile writes the same bytes again exactly when no leading U+FEFF was lost and every LF is spelled as before, and mixed endings are confirmed |
| DocumentRoundTrip.CleanIsReproducible | graphium/domain/document_serialization.py:76-150 | a text that survives saving and reopening is reproducible and its baseline is not mixed |
| DocumentRoundTrip.LoneBomIsSwallowed | graphium/infrastructure/document_loader.py:27-45 | witness: U+FEFF alone, saved without byte order mark, is read back as an empty text with one |
| DocumentRoundTrip.CrBeforeLfIsNotReproducible | graphium/infrastructure/document_loader.py:52-83 | witness: CR LF in the buffer, saved with LF, is read back as one CRLF and not written the same again |
| DocumentRoundTrip.ProfilesStaySupported | graphium/domain/document_serialization.py:48-68 | loaded and chosen profiles stay among the six encoding and BOM pairs |
| DocumentRoundTrip.ChoiceSurvivesSaving | graphium/domain/document_serialization.py:48-67 | a chosen encoding or line ending is what the saved file is read back with, neither touches the other, and exactly the pairs and endings that exist are accepted |
| FoldedLines.FoldLine | graphium/domain/text_search.py:129-154 | the loop lists exactly the characters whose fold changes the offset map |
| FoldedLines.FoldedBoundaryExact | graphium/domain/text_search.py:81-91 | source offsets translate by the dense prefix-length map |
| FoldedLines.SourceBoundaryExact | graphium/domain/text_search.py:65-79 | folded offsets translate back exactly where that map hits them, and to nothing elsewhere |
| TextSearch.MatchInLine | graphium/domain/text_search.py:192-239 | a match never contains a line break, so line-bounded scans miss nothing |
| TextSearch.QueriesAccepted | graphium/domain/text_search.py:94-101 | exactly the non-empty queries without line break are accepted, and the empty one is told apart |
| TextSearch.MatchIsOccurrence | graphium/domain/text_search.py:157-189 | the matches of a line are the aligned occurrences of the folded query |
| TextSearch.FoldedFindForward | graphium/domain/text_search.py:157-171 | the scan over folded hits returns the first match at or after the offset |
| TextSearch.FoldedFindBackward | graphium/domain/text_search.py:174-189 | the backward scan returns the last match that ends by the offset |
| FindInText.LineBounds | graphium/domain/text_search.py:192-198 | the bounds are those of the logical line |
| FindInText.CasefoldFindNextNoWrap | graphium/domain/text_search.py:201-219 | least start at or after the offset among all spans of the whole text whose fold is the query's |
| FindInText.CasefoldFindPreviousNoWrap | graphium/domain/text_search.py:222-239 | greatest start among those that end by the offset |
| FindInText.GreedyNext | graphium/domain/text_search.py:242-274 | the enumeration is find-next iterated from each match end |
| FindInText.GreedyIsDisjoint | graphium/domain/text_search.py:242-274 | its matches are ascending and disjoint |
| FindInText.GreedyIsLargest | graphium/domain/text_search.py:242-274 | no larger disjoint set of matches exists |
| SearchCommands.LineMatches | graphium/domain/text_search.py:253-273 | the inner loop adds the matches of one line under the cap |
| SearchCommands.CasefoldMatches | graphium/domain/text_search.py:242-274 | all matches, or the cap error exactly when there are more than the cap |
| SearchCommands.ExactMatches | graphium/domain/text_search.py:289-300 | the same for the case-sensitive branch |
| SearchCommands.FindAll | graphium/domain/text_search.py:277-301 | validation and choice of branch |
| SearchCommands.FindNext | graphium/domain/text_search.py:325-355 | the next match, the wrapped one, or none, as specified over all spans |
| SearchCommands.FindPrevious | graphium/domain/text_search.py:358-388 | the previous match, the wrapped one, or none |
| SearchCommands.NextIsNearest | graphium/domain/text_search.py:325-355 | Find Next reports the match nearest ahead, going round the end only if allowed and needed, and the flag tells whether it did |
| SearchCommands.PreviousIsNearest | graphium/domain/text_search.py:358-388 | Find Previous reports the last match that ends by the offset, else the last one of all, and the flag tells which |
| SearchCommands.FoldedWrapIsComplete | graphium/domain/text_search.py:344-355 | with wrap the folded search finds nothing exactly when no match exists |
| SearchCommands.ExactWrapMissesStraddling | graphium/domain/text_search.py:342 | with wrap the case-sensitive search finds nothing exactly when every match straddles the offset |
| SearchCommands.ExactWrapIsIncomplete | graphium/domain/text_search.py:342 | witness of such a miss |
| SearchCommands.SelectionTestIsMatch | graphium/domain/text_search.py:304-322 | the selection test accepts exactly the matches, a selection reaching behind the text by its part in the text |
| Renderability.EnsureTextRenderable | graphium/application/renderability.py:38-68 | accepts exactly the texts without an over-wide line and names the first offender |
| Renderability.EnsureInsertRenderable | graphium/application/renderability.py:71-109 | the piecewise loop decides whether prefix, pieces and suffix fit |
| Renderability.InsertGuardExact | graphium/application/renderability.py:71-109 | where the text before the position and behind the line is within budget, the insert guard decides what the global check would say of the result |
| Renderability.JoinGuardExact | graphium/application/renderability.py:112-124 | the same for a deletion that joins two line edges |
| Renderability.NarrowParts | graphium/application/renderability.py:38-68 | a stretch of a text within budget is within budget, and so is the text without a stretch of one line |
| Patches.DescendingReplays | graphium/application/search.py:98-111 | operations from the last span to the first meet no mismatch, stay in range and end in the final text |
| Patches.PatchesRoundTrip | graphium/application/search.py:79-111 | operations and final text agree, and the reversed inverse list gives the source back |
| Patches.ChangedBuildsTheSame | graphium/application/search.py:90-95 | leaving out unchanged matches does not change the final text |
| Patches.MapFollowsTheEdit | graphium/application/search.py:63-111 | a character that no operation removes has its place in the final text, and the caret map sends a caret before it there exactly when it is not strictly inside a match that already read like the replacement |
| Patches.MapStaysInOrder | graphium/application/search.py:63-76 | the caret map is monotone and stays in the final text |
| Patches.MapSplits | graphium/application/search.py:63-76 | what stands before a caret's new place is the patched text of what stood before the old one, a span around the caret counting with its whole replacement |
| Patches.UnchangedMovesInside | graphium/application/search.py:63-95 | mapping through all matches and mapping through the changed ones differ exactly for offsets strictly inside an unchanged match |
| EditPlans.PlanForIsGood | graphium/application/search.py:213-221 | every plan built from ordered patches replays, can be taken back and has no empty operation |
| EditPlans.CountsChanges | graphium/application/search.py:187-221 | the count of a plan is the number of its patches that read differently |
| EditPlans.PatchSizeIsOpsSize | graphium/application/search.py:198-206 | the payload computed from the matches is that of the operations |
| SearchReplace.MatchesAreOrdered | graphium/application/search.py:181-186 | enumerated matches can be patched |
| SearchReplace.ChangedMatchesAreChanged | graphium/application/search.py:90-95 | the filter keeps exactly the matches that read differently |
| SearchReplace.MappedOffset | graphium/application/search.py:63-76 | the loop with its running delta computes the caret map |
| SearchReplace.BuildFinalText | graphium/application/search.py:79-87 | the loop over pieces builds the patched text |
| SearchReplace.OperationsDescending | graphium/application/search.py:98-111 | the reversed loop lists the operations of the changed matches |
| SearchReplace.PlanReplaceAll | graphium/application/search.py:187-221 | no-op, payload error, width error or plan, in this order |
| SearchReplace.SearchController.Configure | graphium/application/search.py:128-140 | validated fields; a refused one leaves it and the later ones unchanged |
| SearchReplace.SearchController.BuildReplaceAllPlan | graphium/application/search.py:160-221 | Replace All over all matches of the whole text, with its cap |
| SearchReplace.SearchController.ChooseMatch | graphium/application/search.py:234-243 | the selection if it is a match, otherwise the next match from it |
| SearchReplace.SearchController.ReplaceMatch | graphium/application/search.py:245-296 | the plan for one match and where the selection goes |
| SearchReplace.SearchController.BuildReplaceOnePlan | graphium/application/search.py:223-296 | Replace One as a whole |
| SearchReplace.ReplaceAllPlanIsGood | graphium/application/search.py:160-221 | a Replace All plan replays, can be undone, fits both limits, and its caret stays in the text |
| SearchReplace.ReplaceAllDecides | graphium/application/search.py:181-221 | fails exactly with more than 50,000 matches, with operations over 16,000,000 characters, or with a line too wide in the result, in that order; plans nothing exactly when nothing reads differently; otherwise final text, operations and carets |
| SearchReplace.ReplaceOneChooses | graphium/application/search.py:234-296 | replaces the selection if it is a match, else the match nearest ahead of it or of the caret, and then selects the match nearest ahead of the replacement, or leaves the caret behind it |
| SearchReplace.ReplaceOneFindsNone | graphium/application/search.py:234-243 | plans nothing only where neither the selection nor anything ahead is a match, and with case folded only where no match exists |
| SearchReplace.CaretLeavesUnchangedMatch | graphium/application/search.py:202-205 | witness: in AB ab, where the enumeration for ab regardless of case yields both, replaced by AB, a caret inside the first AB jumps behind it although no operation touches it |
| SearchReplace.ReplaceOnePlanIsGood | graphium/application/search.py:223-296 | a Replace plan replays, can be undone and fits the width budget, and its target selection stays in the final text |
| SearchReplace.ExactShortcutIsNoOp | graphium/application/search.py:169-180 | the shortcut for query equal to replacement gives what enumeration would have found out |
| PlannedEdits.PlanTakesEffect | graphium/application/native_editor.py:294-380 | a good plan handed over on its own source state is admitted and produces exactly its final text |
| PlannedEdits.PlanIsUndone | graphium/application/native_editor.py:294-380 | and Undo gives its source text back, unless the edit joined the group before it |
| Lines.RealLines | graphium/application/text_transform.py:169-184 | the scan lists the real lines, in order and without gaps |
| Lines.LineIndexForChar | graphium/application/text_transform.py:187-195 | the index of the line around the offset |
| Lines.PiecesJoin | graphium/application/text_transform.py:371-374 | joining with LF joins the lists of pieces |
| Lines.PiecesDecideWidth | graphium/application/renderability.py:38-68 | the width check speaks about the LF-separated pieces |
| LineMoves.MovePermutesLines | graphium/application/text_transform.py:371-394 | a move takes the pieces of one stretch past those of the other; length and pieces are conserved |
| LineMoves.MovePassesOneLine | graphium/application/text_transform.py:356-369 | exactly one line is passed |
| LineMoves.MoveKeepsWidth | graphium/application/text_transform.py:106-113 | a move never makes a text too wide, nor narrow enough |
| LineMoves.OppositeMove | graphium/application/text_transform.py:345-394 | the opposite move restores the text exactly when the line left last is a line of its own, and then the selection exactly unless an endpoint was off by one |
| LineMoves.SwapBack | graphium/application/text_transform.py:371-394 | exchanging back gives the text back |
| TextTransform.ReplacePlan | graphium/application/text_transform.py:116-140 | one replaced region: no-op, limits or plan |
| TextTransform.PlanCase | graphium/application/text_transform.py:143-166 | upper and lower case of the selection, for any case mapping, with the checks and limits in the order of the source |
| TextTransform.CasePlanIsGood | graphium/application/text_transform.py:143-166 | the plan replays and inverts; it converts the selection alone, keeps it selected and stays in the text |
| TextTransform.LineIndexForCaret | graphium/application/text_transform.py:198-205 | the caret's line, or none behind a final LF |
| TextTransform.SelectedLineScope | graphium/application/text_transform.py:208-218 | first and last line the selection touches |
| TextTransform.JoinBlock | graphium/application/text_transform.py:371-372 | joined contents of consecutive lines are the stretch they cover |
| TextTransform.PlaceLines | graphium/application/text_transform.py:313-319 | the loop gives every line of the new order its start |
| TextTransform.LineIdentityForEndpoint | graphium/application/text_transform.py:279-290 | an endpoint inside the block has a line and a column |
| TextTransform.NewStarts | graphium/application/text_transform.py:313-323 | the assertion that the region is filled never fails and the block is shifted as a whole |
| TextTransform.MovedTargetView | graphium/application/text_transform.py:293-342 | the endpoints follow their lines |
| TextTransform.PlanMove | graphium/application/text_transform.py:345-394 | the index-based planner does the move specified by offsets |
| MovePlans.MovePlanIsGood | graphium/application/text_transform.py:345-394 | a move plan replays, can be undone, keeps the length and the lines, and its selection stays in the text |
| MovePlans.MovePlanFails | graphium/application/text_transform.py:106-113 | it fails on a limit exactly for a region over budget or a text too wide already |
| MovePlans.OppositePlanRestores | graphium/application/text_transform.py:345-394 | the opposite plan exists and restores text and selection under the exact conditions |
| MovePlans.OppositePlanOfEndedRegion | graphium/application/text_transform.py:345-394 | for a region that ends in LF the opposite plan restores both |
| MovePlans.OppositeMoveCanFail | graphium/application/text_transform.py:371-374 | witness: an empty line moved below a last line without LF stays there |
| MovePlans.SelectionCanBeOffByOne | graphium/application/text_transform.py:293-342 | witness: the first line of two, selected, moved down and up again, comes back with another selection |
| DuplicateLines.PlanDuplicate | graphium/application/text_transform.py:221-276 | selection, terminal empty line, ended line, last line and empty document, each with its target |
| DuplicateLines.CaretDuplicatesPiece | graphium/application/text_transform.py:237-270 | all caret cases insert the same thing: a line feed and the piece once more |
| DuplicateLines.RepeatedPieces | graphium/application/text_transform.py:237-270 | the piece of the caret is there twice, all others once |
| DuplicateLines.SecondCopy | graphium/application/text_transform.py:252-271 | the caret lands in the copy, in its old column |
| DuplicateLines.DuplicatePlanIsGood | graphium/application/text_transform.py:221-276 | the plan replays; the selected text is there twice and its copy is selected from the same side, or the caret is in the copied line, in its old column |
| TrimTrailing.TrailingRunForLine | graphium/application/text_transform.py:411-418 | the loop finds the trailing blanks of one line |
| TrimTrailing.CollectRuns | graphium/application/text_transform.py:446-455 | the runs in scope, or the cap error exactly when there are more |
| TrimTrailing.MapOffsetThroughDeletions | graphium/application/text_transform.py:421-430 | the loop computes the caret map |
| TrimTrailing.DeletionsDescending | graphium/application/text_transform.py:460-463 | the deletions from the last run to the first |
| TrimTrailing.CutOut | graphium/application/text_transform.py:465-471 | the linear materialization is the patched text |
| TrimTrailing.PlanTrimTrailingSpaces | graphium/application/text_transform.py:433-480 | scope, cap, no-op, limits or plan |
| TrimTrailing.BuildIsTrimmed | graphium/application/text_transform.py:465-471 | cutting out the runs is stripping the lines |
| TrimTrailing.StrippedMeaning | graphium/application/text_transform.py:411-418 | stripping keeps exactly the text up to the last character that is no blank and no tab |
| TrimTrailing.TrimPlanIsGood | graphium/application/text_transform.py:433-480 | the plan replays; pieces in scope lose exactly their trailing blanks, all others are as before |
| TrimTrailing.TrimDecides | graphium/application/text_transform.py:433-480 | for all inputs the outcome: the text whose pieces in scope (all, or those the selection touches, by line number) are stripped; an error exactly over 50,000 changed pieces, over 16,000,000 removed characters, or where a text too wide already stays too wide |
| TrimTrailing.TrimKeepsWidth | graphium/application/text_transform.py:433-480 | trimming keeps a text within the width budget |
| Pagination.FlatPagesAreGreedy | graphium/adapters/gtk/print_pagination.py:144-172 | every line is on one page, in order; a page overflows only if it is a single line, and ends as late as it can |
| Pagination.GreedyPagesAreFlat | graphium/adapters/gtk/print_pagination.py:144-172 | those properties determine the pagination |
| Pagination.NoLinesTakeOnePage | graphium/adapters/gtk/print_pagination.py:148-149 | no lines are one page, as one line is |
| Pagination.PaginateVisualLineHeights | graphium/adapters/gtk/print_pagination.py:144-172 | the loop computes it, with its errors and its page for no lines |
| Pagination.IncrementalVisualPaginator.CommitPage | graphium/adapters/gtk/print_pagination.py:69-73 | closes the page being filled, if it has lines |
| Pagination.IncrementalVisualPaginator.AddVisualLine | graphium/adapters/gtk/print_pagination.py:84-101 | one line: page break, then a longer or a new span |
| Pagination.IncrementalVisualPaginator.AddChunk | graphium/adapters/gtk/print_pagination.py:75-101 | after any chunks the state is that of the flat algorithm on all heights so far |
| Pagination.IncrementalVisualPaginator.Finish | graphium/adapters/gtk/print_pagination.py:103-107 | the pages show exactly the lines of the flat pagination of the concatenated heights |
| Pagination.AddOneTracks | graphium/adapters/gtk/print_pagination.py:84-101 | one line keeps the incremental state equal to the flat one |
| Pagination.ChunkingDoesNotMatter | graphium/adapters/gtk/print_pagination.py:46-107 | two finished paginators that were fed the same heights, in any chunks, break pages at the same places |
| Pagination.PagesHoldEveryLine | graphium/adapters/gtk/print_pagination.py:84-107 | the finished pages hold every visual line once, in order |
| LayoutChunks.LogicalLineChunkEnd | graphium/adapters/gtk/print_pagination.py:110-141 | a chunk holds whole lines, at least one, within both budgets, and ends no earlier than they demand |
| LayoutChunks.ChunkEndsLast | graphium/adapters/gtk/print_pagination.py:96-133 | the end is the last line end within both budgets, or the end of the only line, with lines counted by their line feeds |
| LayoutChunks.TextChunks | graphium/adapters/gtk/printing.py:177-191 | repeated chunk ends terminate and partition the text at line boundaries |
| RecoverySafety.DocChangedKeeps | graphium/application/recovery.py:247-264 | a document change keeps the invariant of controller, worker and store |
| RecoverySafety.CaptureDueKeeps | graphium/application/recovery.py:292-374 | the timer callback keeps it, submission included; no write is under way when the timer fires |
| RecoverySafety.CaptureCallbackKeeps | graphium/application/recovery.py:292-374 | the callback itself keeps it whenever no write is under way, whichever timer it belongs to |
| RecoverySafety.StaleCallbackExact | graphium/application/recovery.py:157-164 | a callback whose cancellation failed breaks the rule of one write at a time exactly when a write is under way and it gets to submit another |
| RecoverySafety.StaleCallbackKeepsRest | graphium/application/recovery.py:157-164 | whatever such a callback does, locks stay conserved, generations fenced from each other and artifacts contained; a write of the newest change stays one of the current generation unless the callback replaces that |
| RecoverySafety.StaleCallbackRevives | graphium/application/recovery.py:292-310 | such a callback takes up a document that was to be forgotten exactly when there is one to recover and a lock can be had |
| RecoverySafety.HandedOver | graphium/application/recovery.py:166-191 | whatever is handed over for cleanup has its lock released and its artifact removed, now or by the worker, or left where a closed worker cannot reach it |
| RecoverySafety.MovedKeeps | graphium/application/recovery.py:292-303 | the session may move before the controller is told, if that makes no new change |
| RecoverySafety.CompletedKeeps | graphium/application/recovery.py:352-368 | the completion callback keeps it |
| RecoverySafety.InstallKeeps | graphium/application/recovery.py:376-412 | adopting an orphan keeps it, also when the installer fails |
| RecoverySafety.InvalidateKeeps | graphium/application/recovery.py:206-211 | invalidation keeps it |
| RecoverySafety.CloseKeeps | graphium/application/recovery.py:414-428 | closing keeps it |
| RecoverySafety.DropSafe | graphium/application/recovery.py:166-204 | a generation given up hands its artifact and its lock to one cleanup job |
| RecoverySafety.SettleSafe | graphium/application/recovery.py:336-350 | the publish check under the lock publishes nothing for a stale generation and keeps locks, fences and artifacts in order |
| RecoverySafety.WorkerKeeps | graphium/infrastructure/recovery_worker.py:27-49 | every step of the worker keeps the invariant |
| RecoveryRuns.RunKeeps | graphium/application/recovery.py:53-428 | the invariant holds after every interleaving of callbacks and worker steps |
| RecoveryRuns.SavedDocumentIsNotWritten | graphium/application/recovery.py:297-300 | a document saved while its timer runs, the controller not yet told, is not written: the timer gives its artifact up to removal |
| RecoveryRuns.StaleCallbackStartsSecondWrite | graphium/application/recovery.py:157-164 | witness: two edits under different bindings and a cancellation that failed lead to two writes at once |
| RecoveryRuns.TimerXorWrite | graphium/application/recovery.py:236-245 | a timer and a write are never outstanding together, and never two writes |
| RecoveryRuns.ModifiedIsRecoverable | graphium/application/recovery.py:247-374 | with no write under way, a modified document has a timer, a record of its newest change, or a just-adopted artifact, unless a call that this very change depends on failed; a failed write of an older change does not count |
| RecoveryRuns.StepWorks | graphium/infrastructure/recovery_worker.py:27-49 | each worker step brings the queue closer to empty and touches no field of the controller |
| RecoveryRuns.DrainFinishes | graphium/infrastructure/recovery_worker.py:51-59 | enough worker steps empty the queue whatever the ports answer |
| RecoveryRuns.DrainedLeavesNothingBehind | graphium/application/recovery.py:166-204 | once the worker has drained only the current artifact can exist, if no removal failed, and every lock but the held one is released |
| RecoveryRuns.InvalidatedLeavesNothingBehind | graphium/application/recovery.py:206-211 | after invalidation and drain no artifact exists and every lock is released |
| RecoveryRuns.SuppressedHoldsNothing | graphium/application/recovery.py:206-226 | after every run a suppressed controller has no name, no lock and no timer |
| RecoveryRuns.CompletedHushed | graphium/application/recovery.py:352-368 | the return of a write starts nothing while the controller is suppressed |
| RecoveryRuns.ForgottenStaysForgotten | graphium/application/recovery.py:206-226 | after an invalidation no events but a change or a recovery, the return of a write under way included, leave an artifact, a lock or a timer once the worker has drained |
| RecoveryRuns.ClosedLeavesNothingBehind | graphium/application/recovery.py:414-428 | the same after closing |
| RecoveryRuns.LocksReleasedOnce | graphium/application/recovery.py:174-191 | no lock is released twice, nor while the controller holds it |
| RecoveryControllerClass.RecoveryController.QueueOldGenerationCleanup | graphium/application/recovery.py:166-191 | the cleanup job, or the direct release when the worker is closed |
| RecoveryControllerClass.RecoveryController.InvalidateCurrentGeneration | graphium/application/recovery.py:193-204 | forgets the generation and hands its artifact and lock over |
| RecoveryControllerClass.RecoveryController.InvalidateRecovery | graphium/application/recovery.py:206-211 | keeps the invariant; afterwards no timer, no name and no lock |
| RecoveryControllerClass.RecoveryController.StartNewGeneration | graphium/application/recovery.py:213-226 | a new generation with its name and lock, or the warning path |
| RecoveryControllerClass.RecoveryController.EnsureCurrentGeneration | graphium/application/recovery.py:228-234 | keeps, replaces or starts a generation |
| RecoveryControllerClass.RecoveryController.Schedule | graphium/application/recovery.py:236-245 | sets the timer unless closed, one is set or a write is under way; a failed call is noted |
| RecoveryControllerClass.RecoveryController.SessionMoves | graphium/application/recovery.py:297-300 | keeps the invariant while the controller has not been told |
| RecoveryControllerClass.RecoveryController.ObserveChange | graphium/application/recovery.py:247-264 | keeps the invariant; a change then has a timer or a write that will follow it up, and an unmodified document has neither name nor timer |
| RecoveryControllerClass.RecoveryController.RunCapture | graphium/application/recovery.py:292-374 | the callback, whichever timer it belongs to: from a sound state locks, fences and artifacts stay in order, and one write at a time does too unless it submits beside a write under way |
| RecoveryControllerClass.RecoveryController.CaptureIsDue | graphium/application/recovery.py:292-374 | keeps the invariant; a write it starts is that of the newest change under the current name |
| RecoveryControllerClass.RecoveryController.CaptureText | graphium/application/recovery.py:310-332 | disturbed capture, failed record or submission |
| RecoveryControllerClass.RecoveryController.SubmitRecord | graphium/application/recovery.py:333-374 | a queued write with generation, name and token |
| RecoveryControllerClass.RecoveryController.WriteCompleted | graphium/application/recovery.py:352-368 | keeps the invariant; no write is left, a change that is left has a timer or its record, and while suppressed nothing is held and nothing starts |
| RecoveryControllerClass.RecoveryController.InstallRecoveredDocument | graphium/application/recovery.py:376-412 | keeps the invariant; an adopted document has its record |
| RecoveryControllerClass.RecoveryController.CloseController | graphium/application/recovery.py:414-428 | keeps the invariant; afterwards no timer, no name, no lock, and a closed worker |
| RecoveryControllerClass.RecoveryController.PublishOrDiscard | graphium/application/recovery.py:336-350 | publishes a record that is still current, discards any other |
| RecoveryControllerClass.RecoveryController.WorkerTurn | graphium/application/recovery.py:334-350 | a step of the worker keeps the invariant |
| RecoveryControllerClass.ChangePromises | graphium/application/recovery.py:247-264 | after a change that no failed call spoilt there is a timer, or a write under way with a mark; without modification no name and no timer |
| RecoveryControllerClass.TimerIsKept | graphium/application/recovery.py:234-264 | a timer that runs for the present generation is kept for the next change |
| RecoveryControllerClass.SuppressedReturns | graphium/application/recovery.py:352-368 | a write of a document to be forgotten returns to a controller that holds nothing and starts nothing |
| RecoveryControllerClass.CapturePromises | graphium/application/recovery.py:292-374 | a write that the timer starts carries the newest change, the current generation and the current name |
| RecoveryControllerClass.CompletedCatchesUp | graphium/application/recovery.py:352-368 | once a write has returned, a change that is left has a timer or its record |
| RecoveryControllerClass.AdoptRecords | graphium/application/recovery.py:376-412 | an adopted document counts as recorded under the name it was found with, and no earlier failure or mark is left |
| MonitorSafety.NextKeeps | graphium/adapters/gtk/external_monitor.py:95-289 | every event keeps the invariant of the monitor |
| MonitorSafety.OneObservation | graphium/adapters/gtk/external_monitor.py:209-246 | at most one observation is in flight, none beside a set debounce timer |
| MonitorSafety.NoInterruptIsLost | graphium/adapters/gtk/external_monitor.py:194-246 | an uncovered interrupt of the current generation has a debounce timer or a pending mark |
| MonitorSafety.TimersAreSet | graphium/adapters/gtk/external_monitor.py:203-221 | over every run a relevant change waits for the debounce time or for a timer set already, the check after binding waits one millisecond whatever timer is set, both only leave a mark during an observation, and a mark served waits for the debounce time |
| MonitorSafety.IdleInterrupts | graphium/adapters/gtk/external_monitor.py:194-201 | an interrupt changes nothing exactly when it is irrelevant, of another generation, or comes after closing |
| MonitorSafety.BindingStartsOver | graphium/adapters/gtk/external_monitor.py:101-140 | binding and suspending start a new generation without timers and marks; bound and about to check exactly with an accepted file and its monitor |
| MonitorSafety.BindingIsKept | graphium/adapters/gtk/external_monitor.py:194-289 | no other event touches generation, binding or closing, and none but the check itself drops the check to come |
| MonitorSafety.ClosedStaysSilent | graphium/adapters/gtk/external_monitor.py:95-112 | once closed, whatever comes later, no timer, no mark, and nothing shown |
| MonitorSafety.StartsAreCounted | graphium/adapters/gtk/external_monitor.py:223-246 | the counter of observations moves by one with each start and with nothing else |
| MonitorSafety.OnlyTheseDrop | graphium/adapters/gtk/external_monitor.py:101-141 | only suspending, binding, closing, or a start without an accepted file drops interrupts; otherwise an observation covers them |
| MonitorSafety.ShownExactlyWhenCurrent | graphium/adapters/gtk/external_monitor.py:266-289 | a result is shown exactly when its generation is current, no newer interrupt came and the accepted state is unchanged |
| MonitorSafety.OutstandingInterruptIsAnswered | graphium/adapters/gtk/external_monitor.py:209-289 | left alone, timer and observation run until a result that covers every interrupt is shown |
| MonitorClass.StrongExternalFileMonitor.SuspendMonitor | graphium/adapters/gtk/external_monitor.py:101-112 | keeps the invariant; a new generation without timers or marks |
| MonitorClass.StrongExternalFileMonitor.CloseMonitor | graphium/adapters/gtk/external_monitor.py:95-99 | keeps the invariant; closed, without timers or marks |
| MonitorClass.StrongExternalFileMonitor.BindCurrentDocument | graphium/adapters/gtk/external_monitor.py:114-141 | keeps the invariant; binds with the initial timer, or reports that it did not |
| MonitorClass.StrongExternalFileMonitor.Schedule | graphium/adapters/gtk/external_monitor.py:209-221 | mark, keep, shorten or set the timer |
| MonitorClass.StrongExternalFileMonitor.Changed | graphium/adapters/gtk/external_monitor.py:194-201 | keeps the invariant; a relevant interrupt of the current generation then has a timer or a mark |
| MonitorClass.StrongExternalFileMonitor.CheckInitially | graphium/adapters/gtk/external_monitor.py:203-207 | keeps the invariant; the immediate check |
| MonitorClass.StrongExternalFileMonitor.StartObserving | graphium/adapters/gtk/external_monitor.py:223-231 | keeps the invariant; an observation only starts when there is none, and covers every interrupt so far |
| MonitorClass.StrongExternalFileMonitor.Launch | graphium/adapters/gtk/external_monitor.py:232-246 | the ticket, the slot and the counters |
| MonitorClass.StrongExternalFileMonitor.WorkerTurn | graphium/adapters/gtk/external_monitor.py:247-265 | keeps the invariant; the observing thread leaves the counter, then posts its result |
| MonitorClass.StrongExternalFileMonitor.PassOn | graphium/adapters/gtk/external_monitor.py:266-289 | frees the slot, shows the result or serves the pending mark |
| MonitorClass.StrongExternalFileMonitor.Deliver | graphium/adapters/gtk/external_monitor.py:266-289 | keeps the invariant; shows a result exactly when it covers every interrupt and the session is the one it was compared with, and otherwise serves the mark |
| MonitorClass.DeliveryPromises | graphium/adapters/gtk/external_monitor.py:266-289 | delivery frees the slot, shows exactly the up-to-date results, and turns a pending mark into a timer |
| MonitorClass.LaunchPromises | graphium/adapters/gtk/external_monitor.py:223-246 | an observation starts only when there is none and covers every interrupt up to its start |

## Left out

- Characters are Unicode scalar values; strings with lone surrogates, which Python can hold, are not modelled.
- Case folding is a function per character; the contents of the Unicode tables are not part of the model, apart from white space in coalescing, which is spelled out.
- NativeEditor.NativeEditorController.ReplayOne: does not model a document-state listener that fails after a replay changed the buffer; there the code leaves the buffer changed.
- NativeEditor.DocumentSaveService.Accept: the writer is an oracle; its operating-system calls and its own checks of the target file are not modelled.
- EditorGuards.RunStaysRenderable: assumes of typed edits that the guard reads the whole LF line, because elsewhere it is false (EditorGuards.ParagraphBreaksBudget). Whether a CR and the LF behind it are one delimiter of the buffer depends on how they came into it; the verdicts hold for either.
- EditorSafety.UndoRevisits: speaks of groups; a single typed or planned character that coalesces with earlier typing shares its group (EditorGuards.UndoTakesBackExactlyInRange).
- The session's phases, its headless path (`observe_uncommitted_text`, `reconcile_with_history`, `commit_history_state`), `accept_saved_state` and `invalidate_saved_relation`: not used by the composed editor.
- Carets in the live buffer: plans and undo groups carry views, but the widget's own caret is not part of the editor machine.
- Replay offsets and selection offsets are natural numbers; the code's clamping of negative offsets is not modelled there.
- RecoveryRuns.RunKeeps: a session that becomes modified tells the controller in the same callback, while other moves of it may be told later; callbacks of the main thread are taken as atomic between steps of the worker, staging, publishing and removing are single steps, and artifact names are fresh; the content of a record is its change serial.
- RecoveryControllerClass.RecoveryController.CaptureIsDue: cancelling a timer is taken to succeed; what a callback does whose cancellation failed is said by RunCapture, RecoverySafety.StaleCallbackExact and RecoverySafety.StaleCallbackKeepsRest, and runs do not contain it.
- RecoveryRuns.ModifiedIsRecoverable: says nothing after a failed call that the newest change depends on, until the next change, because the code does not retry.
- Delays of timers other than the monitor's debounce, warnings and their wording: no effect on state.
- MonitorClass.StrongExternalFileMonitor.Changed: the filter on event kinds and paths is one flag.
- TextTransform.PlanCase: the case mapping is any function on strings.
- Pagination.IncrementalVisualPaginator.AddChunk: chunk indices are natural numbers and heights are reals, so rejecting a negative index and rounding are not modelled.
- Windows, dialogs, drawing of pages, spelling, recent files, view settings, statistics, the recovery file format and the writer: user interface, input and output, or easy members.
