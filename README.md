# Text typer: the verified core

The text typer is a desktop auto-typer. The user pastes or edits a text, and
after a delay the program replays the text as synthetic key presses through
the AWT `Robot`. This project models the sequential logic behind that in
Dafny and proves the properties the code relies on.

- **Bounded stack** (`fixed_stack.dfy`, module `FixedStacks`). This is
  `util/FixedStack.kt`: a LIFO stack that evicts its *oldest* entry when a
  push arrives at capacity. The class keeps the Kotlin `ArrayDeque` as a
  `seq` field, oldest first. Each method is specified by a pure function
  (`Pushed`, `Top`, `Popped`).
- **Undo/redo history** (`undo_redo.dfy`, module `UndoRedo`). This is
  `ui/UndoRedoManager.kt`: two stacks of capacity 100, a `current` snapshot
  that is in neither stack, and the two flags `hasUndo`/`hasRedo`. Each
  method is proved against a pure step function on `History`. The class
  invariant holds the flag/stack agreement and the capacity bound.
- **Key-event resolution** (`key_typer.dfy`, module `KeyTyping`). This is
  `RobotKeyTyper.kt`: the `shiftChars` set, the `keyMap` table, letter
  normalisation, the fallback to `KeyEvent.getExtendedKeyCodeForChar`, and
  the press/release order. The robot is an append-only event log.
  `TypeText` echoes the dispatch loop of `ui/App.kt`, which types
  characters until the run's active flag reads false.
- **Whitespace clean-up** (`kotlin_text.dfy` and `text_field_utils.dfy`,
  modules `KotlinText` and `TextFieldUtils`). This is
  `util/TextFieldUtils.kt`. It rests on explicit definitions of Kotlin's
  `lines()`, `joinToString("\n")`, `trim`/`trimStart`/`trimEnd`,
  `Char.isWhitespace` and `isBlank`. It also defines the three regular
  expression replacements (`" {2,}"`, `"\\s{2,}"`, `"\\r\\n?|\\n"`) and
  the tab replacement.
- **Visual transformation** (`visual_transformation.dfy`, module
  `VisualTransformation`). This is `filter` from
  `util/WhitespaceAndUnicodeVisualTransformation.kt`. Its loop builds the
  displayed text and the two offset tables, and is proved equal to
  closed-form reference definitions (`ExpandTabs`, `Starts`, `Owners`). The
  clamped `OffsetMapping` lookups come with the round trip
  original → displayed → original.

`wrappers.dfy` holds the `Option` type, `sequences.dfy` a generic fact about
concatenation, and `text_field_value.dfy` the
`TextFieldValue` record that the history stores.

## Model

| member | source | states |
|---|---|---|
| FixedStacks.Pushed | src/main/kotlin/util/FixedStack.kt:6-11 | A push keeps the size within `maxSize`, puts `x` on top, appends without eviction below capacity, and at capacity drops exactly the oldest element, keeping the rest in order |
| FixedStacks.Top | src/main/kotlin/util/FixedStack.kt:13-15 | The top is absent exactly when the stack is empty; otherwise it is the most recently added element |
| FixedStacks.Popped | src/main/kotlin/util/FixedStack.kt:13 | Popping an empty stack leaves it empty; otherwise popping removes exactly the top element |
| FixedStacks.PushThenPop | src/main/kotlin/util/FixedStack.kt:6-13 | LIFO: after pushing `x` the top is `x`, and popping it gives back the old contents, minus the evicted oldest element when the stack was full |
| FixedStacks.FixedStack.constructor | src/main/kotlin/util/FixedStack.kt:3-4 | A new stack is empty and has the given capacity |
| FixedStacks.FixedStack.Push | src/main/kotlin/util/FixedStack.kt:6-11 | The new contents are `Pushed(old contents)`, and the size bound is preserved. Needs `maxSize >= 1` because the source's `removeFirst` throws on an empty deque |
| FixedStacks.FixedStack.Pop | src/main/kotlin/util/FixedStack.kt:13 | Returns the old top (none when empty), and the new contents are `Popped(old contents)` |
| FixedStacks.FixedStack.Peek | src/main/kotlin/util/FixedStack.kt:15 | Returns the top (none when empty); it is a function, so it cannot change the stack |
| FixedStacks.FixedStack.Clear | src/main/kotlin/util/FixedStack.kt:17 | Afterwards the stack is empty, `isEmpty` holds and `size` is 0 |
| FixedStacks.FixedStack.IsNotEmpty | src/main/kotlin/util/FixedStack.kt:19 | True exactly when there is a top element |
| FixedStacks.FixedStack.IsEmpty | src/main/kotlin/util/FixedStack.kt:20 | The negation of `isNotEmpty`, and true exactly when there is no top element |
| FixedStacks.FixedStack.Size | src/main/kotlin/util/FixedStack.kt:21 | Never exceeds the capacity, and is 0 exactly when the stack is empty |
| UndoRedo.PushEdit | src/main/kotlin/ui/UndoRedoManager.kt:23-30 | A snapshot with the current text changes nothing. Otherwise the old current goes on top of the undo stack, the new value becomes current and redo is emptied. Both stacks stay within 100 |
| UndoRedo.UndoStep | src/main/kotlin/ui/UndoRedoManager.kt:32-40 | With no undo entry: returns none and changes nothing. Otherwise: returns the popped entry, makes it current, and puts the old current on top of the redo stack. Both stacks stay within 100 |
| UndoRedo.RedoStep | src/main/kotlin/ui/UndoRedoManager.kt:42-50 | The mirror image of `UndoStep`, with the two stacks swapped |
| UndoRedo.UndoThenRedo | src/main/kotlin/ui/UndoRedoManager.kt:32-50 | A successful undo followed by a redo returns the original current and restores both the current snapshot and the undo stack, and also the redo stack when it was not full |
| UndoRedo.RedoThenUndo | src/main/kotlin/ui/UndoRedoManager.kt:32-50 | A successful redo followed by an undo restores the current snapshot and the redo stack, and also the undo stack when it was not full |
| UndoRedo.NoRedoAfterEdit | src/main/kotlin/ui/UndoRedoManager.kt:23-30 | Right after an edit that changes the text, redo returns none and changes nothing |
| UndoRedo.UndoRedoManager.constructor | src/main/kotlin/ui/UndoRedoManager.kt:8-16 | Both stacks start empty with capacity 100, `current` is the initial value, and both flags are false |
| UndoRedo.UndoRedoManager.GetCurrent | src/main/kotlin/ui/UndoRedoManager.kt:21 | Returns the current snapshot of the abstract history |
| UndoRedo.UndoRedoManager.Push | src/main/kotlin/ui/UndoRedoManager.kt:23-30 | The new history is `PushEdit(old history, v)`. The flags keep matching the stacks, and the flags do not change when the text is unchanged |
| UndoRedo.UndoRedoManager.Undo | src/main/kotlin/ui/UndoRedoManager.kt:32-40 | The returned entry and the new history are `UndoStep(old history)`, and the flags keep matching the stacks |
| UndoRedo.UndoRedoManager.Redo | src/main/kotlin/ui/UndoRedoManager.kt:42-50 | The returned entry and the new history are `RedoStep(old history)`, and the flags keep matching the stacks |
| UndoRedo.UndoRedoManager.UpdateStates | src/main/kotlin/ui/UndoRedoManager.kt:52-55 | `hasUndo`/`hasRedo` become exactly "the undo/redo stack is non-empty" |
| KeyTyping.IsShiftChar | src/main/kotlin/RobotKeyTyper.kt:32-35 | Definition of `shiftChars` (the 21 symbols). Its properties are in `ShiftCharsInTable` and `ShiftSymbolResolution` |
| KeyTyping.KeyMapGet | src/main/kotlin/RobotKeyTyper.kt:37-76 | Definition of the `keyMap` lookup: the 34 entries, and no entry for any other character. Its properties are in `ShiftCharsInTable`, the `Shifted*` lemmas and `SpaceAndNewline` |
| KeyTyping.NeedsShift | src/main/kotlin/RobotKeyTyper.kt:27-29 | Definition of `needsShift`: upper case or a shift symbol. Used by `Resolve`, whose contract states it |
| KeyTyping.Normalize | src/main/kotlin/RobotKeyTyper.kt:14 | Definition of the letter normalisation. `KeyCodeFor` and `LetterCase` state its effect |
| KeyTyping.KeyCodeFor | src/main/kotlin/RobotKeyTyper.kt:14-15 | Letters are looked up in upper case. A `keyMap` entry wins, and the platform lookup is consulted only for characters absent from the table |
| KeyTyping.Resolve | src/main/kotlin/RobotKeyTyper.kt:13-29 | There is no keystroke exactly when the key code is `VK_UNDEFINED`. Otherwise the keystroke has that key, and shift is held iff the character is upper case or a shift symbol |
| KeyTyping.StrokeEvents | src/main/kotlin/RobotKeyTyper.kt:18-21 | The robot calls for a keystroke are key down then key up, wrapped in shift down/shift up exactly when shift is needed |
| KeyTyping.Keystrokes | src/main/kotlin/RobotKeyTyper.kt:13-21 | Definition of the robot calls made by `typeChar`: none for an unresolved character, `StrokeEvents` otherwise. `TypeChar` is proved against it, and `KeystrokesRelease` states its effect |
| KeyTyping.TextKeystrokes | src/main/kotlin/ui/App.kt:36-41 | Definition of the calls for a whole text, character by character. `TypeText` is proved against it, and `TextKeystrokesRelease` states its effect |
| KeyTyping.StrokeReleases | src/main/kotlin/RobotKeyTyper.kt:18-21 | Striking a keystroke from a state with no key held leaves no key held, shift included |
| KeyTyping.KeystrokesRelease | src/main/kotlin/RobotKeyTyper.kt:11-25 | Typing any character from a state with no key held leaves no key held |
| KeyTyping.TextKeystrokesRelease | src/main/kotlin/RobotKeyTyper.kt:11-25 | Typing a whole text leaves no key held down |
| KeyTyping.ShiftCharsInTable | src/main/kotlin/RobotKeyTyper.kt:32-76 | Every character of `shiftChars` has its own `keyMap` entry, and no entry is `VK_UNDEFINED` |
| KeyTyping.ShiftedSymbolsShareKeys | src/main/kotlin/RobotKeyTyper.kt:39-67 | Tilde, underscore, plus and vertical bar map to the same keys as backquote, minus, equals and backslash |
| KeyTyping.ShiftedBracketsShareKeys | src/main/kotlin/RobotKeyTyper.kt:52-69 | `{ } : "` map to the same keys as `[ ] ; '` |
| KeyTyping.ShiftedPunctuationShareKeys | src/main/kotlin/RobotKeyTyper.kt:57-72 | `< > ?` map to the same keys as `, . /` |
| KeyTyping.ShiftedDigits | src/main/kotlin/RobotKeyTyper.kt:40-49 | `! @ # $ % ^ & * ( )` map to the digit keys 1 to 9 and 0 |
| KeyTyping.ShiftSymbolResolution | src/main/kotlin/RobotKeyTyper.kt:13-35 | A shift symbol resolves to its own table key, struck with shift held |
| KeyTyping.LetterCase | src/main/kotlin/RobotKeyTyper.kt:13-15 | A lower-case ASCII letter and its capital resolve to the same key code, which comes from the platform lookup of the capital; only the capital takes shift |
| KeyTyping.SpaceAndNewline | src/main/kotlin/RobotKeyTyper.kt:74-75 | Space and newline resolve to `VK_SPACE` and `VK_ENTER` without shift, whatever the platform lookup says |
| KeyTyping.StopIndex | src/main/kotlin/ui/App.kt:36-41 | The index of the first false flag reading: every earlier reading is true |
| KeyTyping.RobotKeyTyper.constructor | src/main/kotlin/RobotKeyTyper.kt:4-9 | A new typer has sent no key events |
| KeyTyping.RobotKeyTyper.TypeChar | src/main/kotlin/RobotKeyTyper.kt:11-25 | Appends exactly the keystrokes of the resolved character to the event log: nothing when the code is `VK_UNDEFINED`, otherwise `StrokeEvents(Resolve(c))` |
| KeyTyping.RobotKeyTyper.TypeText | src/main/kotlin/ui/App.kt:36-41 | Types the characters before the first false flag reading, in order, and returns how many were typed |
| KotlinText.IsWhitespace | src/main/kotlin/util/TextFieldUtils.kt:8-29 | Definition of JVM `Char.isWhitespace`: the Unicode space separators, TAB to CR, and U+001C to U+001F. `TrimStart`, `TrimEnd` and `TrimResult` are stated with it |
| KotlinText.IsBlank | src/main/kotlin/util/TextFieldUtils.kt:46-52 | Definition of `isBlank`: every character is whitespace. Used by `NonBlankLines` and `TrimResult` |
| KotlinText.TrimStart | src/main/kotlin/util/TextFieldUtils.kt:24-29 | `trimStart` returns a suffix of its input that is empty or does not start with whitespace |
| KotlinText.TrimEnd | src/main/kotlin/util/TextFieldUtils.kt:16-21 | `trimEnd` returns a prefix of its input that is empty or does not end with whitespace |
| KotlinText.TrimStartDropsWhitespace | src/main/kotlin/util/TextFieldUtils.kt:24-29 | `trimStart` removes only whitespace |
| KotlinText.TrimEndDropsWhitespace | src/main/kotlin/util/TextFieldUtils.kt:16-21 | `trimEnd` removes only whitespace |
| KotlinText.Trim | src/main/kotlin/util/TextFieldUtils.kt:8-13 | Definition of `trim` as `trimEnd` after `trimStart`. Its properties are in `TrimResult` |
| KotlinText.TrimResult | src/main/kotlin/util/TextFieldUtils.kt:8-13 | `trim` yields a string that neither starts nor ends with whitespace, is empty exactly when the input is blank, and stays a single line |
| KotlinText.TrimEndsKeepLine | src/main/kotlin/util/TextFieldUtils.kt:16-29 | Trimming either end of a line leaves a line |
| KotlinText.Lines | src/main/kotlin/util/TextFieldUtils.kt:8-13 | `lines()` always returns at least one line |
| KotlinText.JoinLines | src/main/kotlin/util/TextFieldUtils.kt:8-13 | Definition of `joinToString("\n")`. Its properties are in `LinesOfJoin`, `JoinLinesNoCr` and `JoinOfLines` |
| KotlinText.LinesAreLines | src/main/kotlin/util/TextFieldUtils.kt:8-13 | No line produced by `lines()` contains a CR or LF |
| KotlinText.JoinLinesNoCr | src/main/kotlin/util/TextFieldUtils.kt:8-13 | Joining CR-free lines with LF gives CR-free text |
| KotlinText.LinesOfJoin | src/main/kotlin/util/TextFieldUtils.kt:8-13 | Splitting lines joined with LF gives the same lines back |
| TextFieldUtils.NormalizeLineEndings | src/main/kotlin/util/TextFieldUtils.kt:62-66 | The result contains no CR |
| TextFieldUtils.NormalizeWithoutCr | src/main/kotlin/util/TextFieldUtils.kt:62-66 | Text without CR is left unchanged |
| TextFieldUtils.NormalizeIdempotent | src/main/kotlin/util/TextFieldUtils.kt:62-66 | Normalising twice is the same as normalising once |
| TextFieldUtils.JoinOfLines | src/main/kotlin/util/TextFieldUtils.kt:62-66 | Splitting with `lines()` and joining with LF is exactly line-ending normalisation |
| TextFieldUtils.TrimEachKeepsLines | src/main/kotlin/util/TextFieldUtils.kt:8-29 | Trimming each line of a list of lines, at one or both ends, leaves lines |
| TextFieldUtils.TrimLines | src/main/kotlin/util/TextFieldUtils.kt:8-13 | Definition of `trimLines` on the text. Its properties are in `TrimLinesLines` and `TrimLinesLineEnds` |
| TextFieldUtils.TrimLinesLines | src/main/kotlin/util/TextFieldUtils.kt:8-13 | The lines of the `trimLines` result are the input's lines, each trimmed, in order and just as many |
| TextFieldUtils.TrimLinesLineEnds | src/main/kotlin/util/TextFieldUtils.kt:8-13 | No line of the `trimLines` result starts or ends with whitespace, and a line becomes empty exactly when the input line was blank |
| TextFieldUtils.RemoveTrailingSpaces | src/main/kotlin/util/TextFieldUtils.kt:16-21 | Definition of `removeTrailingSpaces` on the text. Its properties are in `RemoveTrailingSpacesLines` and `RemoveTrailingSpacesLineEnds` |
| TextFieldUtils.RemoveTrailingSpacesLines | src/main/kotlin/util/TextFieldUtils.kt:16-21 | The lines of the result are the input's lines with their ends trimmed, in order and just as many |
| TextFieldUtils.RemoveTrailingSpacesLineEnds | src/main/kotlin/util/TextFieldUtils.kt:16-21 | No line of the result ends with whitespace |
| TextFieldUtils.RemoveLeadingSpaces | src/main/kotlin/util/TextFieldUtils.kt:24-29 | Definition of `removeLeadingSpaces` on the text. Its properties are in `RemoveLeadingSpacesLines` and `RemoveLeadingSpacesLineStarts` |
| TextFieldUtils.RemoveLeadingSpacesLines | src/main/kotlin/util/TextFieldUtils.kt:24-29 | The lines of the result are the input's lines with their starts trimmed, in order and just as many |
| TextFieldUtils.RemoveLeadingSpacesLineStarts | src/main/kotlin/util/TextFieldUtils.kt:24-29 | No line of the result starts with whitespace |
| TextFieldUtils.RunLength | src/main/kotlin/util/TextFieldUtils.kt:32-43 | The run of class characters at the start is maximal |
| TextFieldUtils.CollapseRuns | src/main/kotlin/util/TextFieldUtils.kt:32-43 | The result has no two adjacent class characters. It is empty exactly when the input is. It starts with a class character iff the input does. Every character in it is a space or comes from the input |
| TextFieldUtils.CollapseRunOfClass | src/main/kotlin/util/TextFieldUtils.kt:32-43 | A whole run of two or more class characters becomes exactly one space, and a single class character is kept |
| TextFieldUtils.CollapseSingle | src/main/kotlin/util/TextFieldUtils.kt:32-43 | Any single character, of the class or not, is kept as it is |
| TextFieldUtils.RunLengthAppend | src/main/kotlin/util/TextFieldUtils.kt:32-43 | When `a` and `b` do not meet in a run, the run at the start of `a + b` lies inside `a` |
| TextFieldUtils.CollapseRunsAppend | src/main/kotlin/util/TextFieldUtils.kt:32-43 | The replacement works in place, run by run: for texts that do not meet in a run, collapsing the concatenation is collapsing each part. With `CollapseRunOfClass` and `CollapseSingle` this pins the output down on every input |
| TextFieldUtils.StripCollapse | src/main/kotlin/util/TextFieldUtils.kt:32-43 | Deleting all class characters from the input and from the output gives the same text |
| TextFieldUtils.CollapseWithoutRuns | src/main/kotlin/util/TextFieldUtils.kt:32-43 | Text with no two adjacent class characters is left unchanged |
| TextFieldUtils.CollapseIdempotent | src/main/kotlin/util/TextFieldUtils.kt:32-43 | Collapsing twice is the same as collapsing once |
| TextFieldUtils.CollapseSpaces | src/main/kotlin/util/TextFieldUtils.kt:32-36 | The output never contains two consecutive spaces. `CollapseRuns` with the class `Spaces`, so `CollapseRunOfClass`, `CollapseSingle` and `CollapseRunsAppend` state that each run of two or more spaces becomes one space in place |
| TextFieldUtils.CollapseSpacesFacts | src/main/kotlin/util/TextFieldUtils.kt:32-36 | Deleting all spaces from input and output gives equal strings, and `collapseSpaces` is idempotent |
| TextFieldUtils.CollapseAllWhitespace | src/main/kotlin/util/TextFieldUtils.kt:39-43 | The output never contains two adjacent `\s` characters. `CollapseRuns` with the class `RegexWhitespace`, so `CollapseRunOfClass`, `CollapseSingle` and `CollapseRunsAppend` state that each run of two or more becomes one space in place |
| TextFieldUtils.CollapseAllWhitespaceFacts | src/main/kotlin/util/TextFieldUtils.kt:39-43 | Deleting all `\s` characters from input and output gives equal strings, and `collapseAllWhitespace` is idempotent |
| TextFieldUtils.NonBlankLines | src/main/kotlin/util/TextFieldUtils.kt:46-52 | The filter keeps only non-blank lines, each taken from the input, and never more lines than there were |
| TextFieldUtils.NonBlankLinesAppend | src/main/kotlin/util/TextFieldUtils.kt:46-52 | The filter keeps the order: filtering a concatenation concatenates the filtered parts |
| TextFieldUtils.NonBlankLinesAll | src/main/kotlin/util/TextFieldUtils.kt:46-52 | With no blank line, every line is kept |
| TextFieldUtils.RemoveEmptyLines | src/main/kotlin/util/TextFieldUtils.kt:46-52 | Definition of `removeEmptyLines` on the text. Its properties are in `RemoveEmptyLinesLines` |
| TextFieldUtils.RemoveEmptyLinesLines | src/main/kotlin/util/TextFieldUtils.kt:46-52 | The result's lines are exactly the input's non-blank lines, in order. With none, the result is the empty text |
| TextFieldUtils.Blanks | src/main/kotlin/util/TextFieldUtils.kt:55-59 | `" ".repeat(n)` is `n` spaces |
| TextFieldUtils.Expansion | src/main/kotlin/util/TextFieldUtils.kt:55-59 | A tab becomes `tabSize` characters and any other character stays one. No tab is produced, and no CR unless the character was one |
| TextFieldUtils.ExpandTabs | src/main/kotlin/util/TextFieldUtils.kt:55-59 | Definition of `expandTabs`, character by character. Its properties are in `ExpandTabsClean`, `ExpandTabsLength` and `ExpandTabsAppend` |
| TextFieldUtils.ExpandTabsClean | src/main/kotlin/util/TextFieldUtils.kt:55-59 | No tab remains after `expandTabs`, and it introduces no CR |
| TextFieldUtils.ExpandTabsLength | src/main/kotlin/util/TextFieldUtils.kt:55-59 | The length grows by `tabSize - 1` per tab |
| TextFieldUtils.ExpandTabsAppend | src/main/kotlin/util/TextFieldUtils.kt:55-59 | The replacement works character by character: it distributes over concatenation |
| TextFieldUtils.IndexOfFirstNonBlank | src/main/kotlin/util/TextFieldUtils.kt:71 | Returns -1 when every line is blank. Otherwise returns a non-blank line with only blank lines before it |
| TextFieldUtils.IndexOfLastNonBlank | src/main/kotlin/util/TextFieldUtils.kt:72 | Returns -1 when every line is blank. Otherwise returns a non-blank line with only blank lines after it |
| TextFieldUtils.DropBlankEnds | src/main/kotlin/util/TextFieldUtils.kt:70-73 | Definition of the `subList` between the fallback indices. Its properties are in `DropBlankEndsSome` and `TrimEmptyLinesAllBlank` |
| TextFieldUtils.TrimEmptyLines | src/main/kotlin/util/TextFieldUtils.kt:69-75 | Definition of `trimEmptyLines` on the text. Its properties are in `TrimEmptyLinesSome` and `TrimEmptyLinesAllBlank` |
| TextFieldUtils.DropBlankEndsSome | src/main/kotlin/util/TextFieldUtils.kt:69-75 | With some non-blank line, the kept lines are exactly those from the first non-blank line to the last |
| TextFieldUtils.TrimEmptyLinesSome | src/main/kotlin/util/TextFieldUtils.kt:69-75 | With some non-blank line, the result's lines run exactly from the first non-blank line to the last |
| TextFieldUtils.KeptLinesRoundTrip | src/main/kotlin/util/TextFieldUtils.kt:69-75 | Joining the kept lines and splitting them again gives back exactly the kept lines |
| TextFieldUtils.TrimEmptyLinesAllBlank | src/main/kotlin/util/TextFieldUtils.kt:69-75 | With only blank lines, every line is kept: the result is the input with normalised line endings |
| TextFieldUtils.FullClean | src/main/kotlin/util/TextFieldUtils.kt:78-85 | The fully cleaned text contains neither CR nor tab |
| TextFieldUtils.FullCleanNoCr | src/main/kotlin/util/TextFieldUtils.kt:78-84 | No CR is left after the first four steps of `fullClean` |
| VisualTransformation.Starts | src/main/kotlin/util/WhitespaceAndUnicodeVisualTransformation.kt:22-48 | The original-to-displayed table has one entry per original character |
| VisualTransformation.Owners | src/main/kotlin/util/WhitespaceAndUnicodeVisualTransformation.kt:22-48 | Every entry of the displayed-to-original table is an index into the original text |
| VisualTransformation.Repeated | src/main/kotlin/util/WhitespaceAndUnicodeVisualTransformation.kt:28-30 | `n` copies of one index |
| VisualTransformation.MappingFor | src/main/kotlin/util/WhitespaceAndUnicodeVisualTransformation.kt:69-81 | Definition of the mapping `filter` builds from the reference tables `Starts` and `Owners`. Its properties are in `MappingForValid` and `RoundTrip` |
| VisualTransformation.NonAsciiSpans | src/main/kotlin/util/WhitespaceAndUnicodeVisualTransformation.kt:52-67 | Definition of the spans `buildAnnotatedString` produces. Its properties are in `SpansMarkNonAscii` and `SpansWidthOne` |
| VisualTransformation.OriginalToTransformed | src/main/kotlin/util/WhitespaceAndUnicodeVisualTransformation.kt:70-74 | Clamps: offsets at or below 0 give 0, offsets at or past the table's end give the displayed length, and others are looked up. The result lies in `[0, displayed length]` for a valid mapping |
| VisualTransformation.TransformedToOriginal | src/main/kotlin/util/WhitespaceAndUnicodeVisualTransformation.kt:76-80 | Clamps the same way. The result lies in `[0, original length]` for a valid mapping |
| VisualTransformation.StartsClosedForm | src/main/kotlin/util/WhitespaceAndUnicodeVisualTransformation.kt:22-48 | Entry `i` of the original-to-displayed table is `i + (tabSize - 1) * (tabs before i)`, and the table never decreases |
| VisualTransformation.ExpandedAt | src/main/kotlin/util/WhitespaceAndUnicodeVisualTransformation.kt:23-49 | The displayed text holds each original character's expansion at its start: `tabSize` spaces for a tab, the character itself otherwise |
| VisualTransformation.OwnersLength | src/main/kotlin/util/WhitespaceAndUnicodeVisualTransformation.kt:22-48 | The displayed-to-original table has one entry per displayed character |
| VisualTransformation.OwnersAt | src/main/kotlin/util/WhitespaceAndUnicodeVisualTransformation.kt:22-48 | Every displayed position inside character `i`'s expansion maps back to `i` |
| VisualTransformation.StartsInRange | src/main/kotlin/util/WhitespaceAndUnicodeVisualTransformation.kt:22-48 | Every original-to-displayed entry is an offset into the displayed text |
| VisualTransformation.MappingForValid | src/main/kotlin/util/WhitespaceAndUnicodeVisualTransformation.kt:69-81 | Both tables of the mapping point inside the text on the other side |
| VisualTransformation.ExpandTabsGrows | src/main/kotlin/util/WhitespaceAndUnicodeVisualTransformation.kt:25-33 | With `tabSize >= 1` the displayed text is never shorter than the original |
| VisualTransformation.RoundTripInside | src/main/kotlin/util/WhitespaceAndUnicodeVisualTransformation.kt:69-81 | The round trip holds for offsets strictly inside the text |
| VisualTransformation.RoundTripEnd | src/main/kotlin/util/WhitespaceAndUnicodeVisualTransformation.kt:69-81 | The round trip holds for the end offset of a non-empty text |
| VisualTransformation.RoundTrip | src/main/kotlin/util/WhitespaceAndUnicodeVisualTransformation.kt:69-81 | With `tabSize >= 1`, `transformedToOriginal(originalToTransformed(k)) == k` for every `0 <= k <= original length` |
| VisualTransformation.SpansMarkNonAscii | src/main/kotlin/util/WhitespaceAndUnicodeVisualTransformation.kt:52-67 | The style spans start exactly at the displayed characters with code above 127 |
| VisualTransformation.SpansWidthOne | src/main/kotlin/util/WhitespaceAndUnicodeVisualTransformation.kt:56-62 | Each style span covers exactly one character |
| VisualTransformation.Filter | src/main/kotlin/util/WhitespaceAndUnicodeVisualTransformation.kt:16-84 | The styled text is the displayed text with one span per non-ASCII character. The mapping is built from the two reference tables, has one entry per character on each side, and is valid |
| VisualTransformation.BuildTables | src/main/kotlin/util/WhitespaceAndUnicodeVisualTransformation.kt:22-50 | The loop builds exactly the displayed text (each tab as `tabSize` spaces, every other character copied) and the two reference tables |
| VisualTransformation.AppendRepeated | src/main/kotlin/util/WhitespaceAndUnicodeVisualTransformation.kt:28-30 | `repeat(n) { add(x) }` appends exactly `n` copies of `x` |
| VisualTransformation.BuildStyled | src/main/kotlin/util/WhitespaceAndUnicodeVisualTransformation.kt:52-67 | The `buildAnnotatedString` loop yields the displayed text and exactly the non-ASCII spans |

## Left out

- The AWT `Robot`, its `autoDelay`, and the click sound: the robot is an event log, and the delay and sound have no logical effect.
- The `try`/`catch` around `typeChar`: the event log assumes every robot call succeeds. So `KeystrokesRelease` and `TextKeystrokesRelease` hold only for calls that succeed. In the source, a `keyPress` that throws after the shift press (for example, an upper-case non-ASCII letter whose extended key code the robot rejects) is swallowed by the `catch`, and shift stays down.
- `Char.isLetter`, `Char.isUpperCase` and `Char.uppercaseChar` are parameters (`CharClasses`), because the Unicode tables are not encoded. The lemmas about letters require only the ASCII facts (`AsciiCasing`).
- `KeyEvent.getExtendedKeyCodeForChar` is an uninterpreted parameter, because it is a JDK table.
- Characters are Dafny `char`s (Unicode scalar values), not UTF-16 code units. Offsets and the `> 127` test are counted per character, so surrogate pairs are not modelled.
- The dispatch loops of `App.kt` and `ui/App.kt` are coroutines with a start delay, an `AtomicBoolean` and job cancellation. Only their sequential content is kept (`TypeText`).
- KeyTyping.RobotKeyTyper.TypeText: the flag readings are a sequence given in advance, because concurrent writes to the flag are not modelled.
- All Compose UI (layout, focus, buttons, countdown, debouncing).
- The selection and composition fields of `TextFieldValue`. The clean-up functions are modelled on the text alone, and Compose's clamping of the selection in `copy` is not modelled.
- The colours and decorations of the span style: a span is just a range.
- FixedStacks.FixedStack.Push: requires `maxSize >= 1`, because with capacity 0 the source's `removeFirst` throws on the empty deque.
- TextFieldUtils.ExpandTabs: `tabSize` is a natural number, because `" ".repeat(n)` throws for a negative `n`.
- VisualTransformation.Filter: `tabSize` is a natural number too. In the source, `repeat` runs only in the tab branches, so a negative `tabSize` on text without tabs does not throw; that case is not modelled. Callers use the default of 4.
- VisualTransformation.RoundTrip: requires `tabSize >= 1`. With `tabSize == 0` a tab takes no displayed column, and the round trip does not hold.
- TextFieldUtils.CollapseAllWhitespace follows the regular expression. Java's `\s` is ASCII-only (`[ \t\n\x0B\f\r]`), although the function's doc comment mentions NBSP.
- Integer width: indices and key codes are unbounded integers. The source's 32-bit `Int` cannot overflow for texts that fit in memory.
