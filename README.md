# BlobTracker configuration and camera pipeline, modelled in Dafny

BlobTracker runs a multi-camera blob-tracking pipeline on top of an OpenCV tracking engine.
This project models the logic around that engine and proves properties of it:

- **Configuration (`Config.cpp`).**
  - The schema table `Map` has 21 entries. The parameter record is the class `Config.ConfigInput`, one slot per entry.
  - `ParameterNameToMapIndex` and `InitParams` are modelled.
  - `ParseContent` is the two-stage parser:
    - Stage one tokenizes in place. It runs on an `array<char>`, writes NUL over delimiters and records item starts.
    - Stage two reads the items as `name = value` triples.
  - `Configure` handles `-h`, `-d file` and the `-p` groups. Each group is rewritten into a buffer, with every '=' widened to " = ", and fed to the same parser.
- **Module-parameter directives (`OpenCvUtilities.cpp`).**
  - `Utils::SetParameters` scans `prefix:key=value;` clauses. It cuts each clause in place at its ';' and hands matching names to a module, modelled as the class `OpenCvUtils.VSModule`. The module keeps a log of `SetParamStr` calls and counts `ParamUpdate` calls.
  - `Utils::GetRectangleCenter` is modelled with the cast to int truncating toward zero.
- **The camera (`Camera.cpp`, `Camera.h`).** The class `Tracker.Camera` covers:
  - the module tables and their case-sensitive nickname lookups;
  - the constructor's initial state, the setters and the `Enable*` methods;
  - `Initialize`: module creation, the "None" short-cut, the parameter prefixes and the tracker parameters;
  - the frame loop of `Process`: the frame range, ESC and the single-step key;
  - the blob record line written by `SaveBlobRecord`.
- **The program (`main.cpp`).**
  - `strtok` splits the video and camera-ID lists.
  - `atoi` gives each camera its ID.
  - A flag is enabled only when its configured value is exactly 1.
  - Every camera is set up in list order, then processed in list order, with the computed end frame.

Video capture, the keyboard and the tracking engine are inputs:

- `grabs`: the results of successive `grab()` calls.
- `keys`: the results of successive `cvWaitKey` calls.
- `blobsOf`: the blobs the tracker reports for each frame, with integer coordinates.
- `Devices`: which files and videos open.
- `paramsOf`: the parameter names each engine module lists.
- A map from file names to contents stands in for the file system.

`AbortError` and a failed `ASSERT_TRUE` end the program; the model returns them as the outcome `Aborted`.

## Behaviour worth noting

The model keeps these behaviours of the code as they are:

- **Frame count.** With `Number_Of_Frames = N > 0`, `endFrameIndex` is `start + N`. The loop bound `frameNum <= endFrameIndex` then processes frames `start` to `start + N` inclusive, which is N + 1 frames. `BlobTracker.CountedFrames` proves this (main.cpp:32-40, Camera.cpp:443-446).
- **Unknown module name.** The lookup does not fail on its own. It stops on the terminator row, whose `create` is NULL, and the source then calls that NULL `create`. The model returns this as the outcome `NullFactoryCalled` (Camera.cpp:287-297).
- **Post-processor parameters.** The post-processor is configured with the analysis parameter text (Camera.cpp:363). `Blob_PostProc_Params` is never read.
- **Saving.** `m_saveIntermediateResult` starts as the address of the literal `""`, which is never NULL, so saving is always on whatever `Save_Intermediate_Result` holds (Camera.cpp:85).

## Model

| member | source | states |
|---|---|---|
| CText.StrCaseEqIff | Config.cpp:60 | `strcasecmp` equality, computed character by character, holds exactly when the two strings are equal after C-locale lower-casing |
| CText.Decimal | Camera.cpp:633-645 | `operator<<` on an `int` prints at least one character, each a digit except a leading '-' |
| CText.ScanInt | Config.cpp:252-257 | `sscanf("%d")` reads a number from a text that starts with a digit, and that number is not negative |
| CText.ScanIntNeedsDigit | Config.cpp:252-257 | `sscanf("%d")` reads a number only when the text holds a digit |
| CText.Atoi | main.cpp:79 | `atoi` of a text without a digit is 0 |
| CText.AtoiOfDecimal | main.cpp:79 | `atoi` reads back the number that `operator<<` printed |
| CText.Tokens | main.cpp:66-72 | the pieces successive `strtok` calls return; pieces are separated by at least one delimiter, so there are at most half as many as characters, rounded up |
| CText.FieldsOneLine | Camera.cpp:633-648 | fields followed by separators, of which only the last is the newline, form exactly one line |
| CText.ScanIntOfDecimal | Config.cpp:252-257 | `sscanf("%d")` reads back the number that `operator<<` printed, whatever non-digit text follows it |
| CText.TokensArePieces | main.cpp:66-72 | every piece `strtok` returns is non-empty and holds no delimiter; pieces of NUL-free text are NUL-free |
| CText.TokensOfJoin | main.cpp:66-72 | `strtok` on pieces joined by a delimiter returns exactly those pieces, in order |
| CText.TokensOfFields | Camera.cpp:633-648 | `strtok` on fields, each followed by a delimiter, returns the fields |
| CText.TokensCons | main.cpp:66-72 | a piece followed by a delimiter is the first piece `strtok` returns, and the rest are the pieces of what follows |
| CText.TokensSingle | main.cpp:66-72 | a text that is one piece gives exactly that piece |
| CText.DigitsValueOfDigits | Camera.cpp:633-645 | the decimal digits `operator<<` prints for a number read back as that number |
| CText.CStringBuffer | Camera.cpp:296 | a text copied with `strcpy` is a terminated C string in the buffer, equal to the text's part before any NUL |
| Config.FirstNameMatchIsFirst | Config.cpp:55-65 | the name lookup returns the first entry whose name equals the token ignoring case, and -1 exactly when no entry matches |
| Config.MapIndexOf | Config.cpp:55-65 | the selected entry is -1 or an index of `Map` |
| Config.ParameterNameToMapIndex | Config.cpp:55-65 | the scan of `Map` with `strcasecmp` returns `MapIndexOf(s)`, the index that `FirstNameMatchIsFirst` characterises |
| Config.InitParams | Config.cpp:74-89 | the record becomes the defaults; the result is always -1 |
| Config.DefaultValues | Config.cpp:16-39 | after `InitParams`, FG_Train_Frames is 2, every other int field is 0 and every text field is empty |
| Config.StoreKeepsTyped | Config.cpp:257-261 | storing a value of the entry's type keeps every field's type as `Map` says |
| Config.ConfigInput.constructor | Config.cpp:412 | the record starts with every int 0 and every text empty (`memset`) |
| ConfigParse.LineEnd | Config.cpp:187-188 | the comment skip stops at the first newline, or at the end of the content |
| ConfigParse.ScanStep | Config.cpp:180-227 | one turn of the scan advances `p`, writes at most one NUL (at `p`) and records at most one item start, at `p` or `p + 1` |
| ConfigParse.Scan | Config.cpp:178-228 | the whole scan changes the buffer only by writing NUL inside the content, and records starts inside the content |
| ConfigParse.CutComment | Config.cpp:185-191 | '#' is overwritten with NUL and the scan moves to the end of the line |
| ConfigParse.ScanTurn | Config.cpp:180-227 | the switch on the current character does exactly what `ScanStep` says, to the buffer, `p`, both flags and the item list |
| ConfigParse.SplitItems | Config.cpp:178-228 | the in-place scan leaves the buffer and the item starts that `Scan` describes |
| ConfigParse.StepKeep | Config.cpp:182-184 | a '\r', a blank inside quotes, or a character inside an item joins every open token |
| ConfigParse.StepComment | Config.cpp:185-191 | '#' ends every open token; the text up to the newline gives no token |
| ConfigParse.StepClose | Config.cpp:192-216 | a newline, a blank outside quotes, or a closing quote ends every open token and clears both flags |
| ConfigParse.StepQuote | Config.cpp:208-214 | an opening quote ends every open token and starts a token after the quote |
| ConfigParse.StepStart | Config.cpp:220-226 | any other character outside an item starts a token |
| ConfigParse.StepCorr | Config.cpp:180-227 | one turn of the in-place scan and one step of the reference lexer `Lex` keep the buffer and the token texts related |
| ConfigParse.ScanLex | Config.cpp:178-228 | from related states, the C strings at the recorded starts are the lexer's tokens, in order |
| ConfigParse.Lex | Config.cpp:178-228 | the reference lexer for stage one: a text gives at most one token per character |
| ConfigParse.ItemsSpellTokens | Config.cpp:178-228 | after the scan of a NUL-terminated content, the C string at the k-th recorded start is the k-th token of `Lex` of the content |
| ConfigParse.Stored | Config.cpp:261 | `strncpy` into a field keeps a prefix of at most 1000 characters, and the whole value when it fits |
| ConfigParse.Convert | Config.cpp:249-263 | an int field takes the `sscanf("%d")` number, and fails exactly when there is none; a text field takes the stored prefix |
| ConfigParse.TripleEffect | Config.cpp:234-263 | a triple with an unknown name has no effect; a known name assigns its own entry a value of that entry's type |
| ConfigParse.Interpret | Config.cpp:230-279 | stage two returns 0 or -1 and keeps the record's size |
| ConfigParse.InterpretKeepsTyped | Config.cpp:249-263 | stage two stores ints into int fields and texts into text fields |
| ConfigParse.ReadTriple | Config.cpp:234-263 | the lookup, the "=" check and the conversion of one triple give `TripleEffect` |
| ConfigParse.StoreItems | Config.cpp:230-279 | the triple loop over the scanned buffer returns the status and leaves the record that `Interpret` gives on the items' texts |
| ConfigParse.ParseContent | Config.cpp:162-280 | the parser's status and record are `Interpret` of `Lex` of the content; the buffer is left as the scan writes it |
| ConfigFormat.TripleCountIff | Config.cpp:230-232 | triple m is read exactly when its start has a token after it, so one trailing token is ignored |
| ConfigFormat.EffectsAt | Config.cpp:232 | effect m belongs to the triple that starts at token 3m |
| ConfigFormat.InterpretIsApply | Config.cpp:232-277 | stage two is the fold of the triples' effects, in order |
| ConfigFormat.ApplyFailsIff | Config.cpp:241-256 | the fold fails exactly when some effect rejects |
| ConfigFormat.ApplyKeeps | Config.cpp:232-277 | a field that no effect assigns keeps its value, even when the fold fails |
| ConfigFormat.ApplyLastWins | Config.cpp:257-261 | when the fold succeeds, a field holds the value of the last effect that assigns it |
| ConfigFormat.InterpretFailsIff | Config.cpp:241-256 | stage two returns -1 exactly when some triple it reads has a known name and no "=", or a bad int |
| ConfigFormat.InterpretStatusIgnoresRecord | Config.cpp:232-279 | whether stage two succeeds does not depend on the record it starts from |
| ConfigFormat.UnnamedFieldKept | Config.cpp:232-277 | a field that no triple names keeps its value, whether or not stage two succeeds |
| ConfigFormat.LastSettingWins | Config.cpp:257-261 | when stage two succeeds, a field named by some triple holds the converted value of the last triple that names it |
| ConfigFormat.Word | Config.cpp:220-226 | a bare word outside quotes becomes one token |
| ConfigFormat.Quoted | Config.cpp:208-218 | a quoted value, blanks included, becomes one token |
| ConfigFormat.Closes | Config.cpp:192-206 | a blank or newline outside quotes closes the open token |
| ConfigFormat.LexValue | Config.cpp:192-226 | a quoted or bare value followed by a newline adds exactly that value |
| ConfigFormat.LexNameEquals | Config.cpp:197-226 | `name = ` adds the tokens name and "=" |
| ConfigFormat.LexSetting | Config.cpp:178-228 | a line `name = value` adds exactly the three tokens name, "=" and value |
| ConfigFormat.LexComment | Config.cpp:185-196 | a comment line adds no token |
| ConfigFormat.LexLine | Config.cpp:178-228 | a well-formed line adds its own tokens and leaves the lexer between tokens |
| ConfigFormat.LexLines | Config.cpp:178-228 | well-formed lines, one after the other, give their tokens in order |
| ConfigFormat.LexRender | Config.cpp:178-228 | a file of well-formed setting, comment and empty lines tokenizes to exactly name, "=", value for each setting, in order |
| ConfigArgs.ParseText | Config.cpp:446 | `ParseContent` on a text returns 0 or -1 and keeps the record's size |
| ConfigArgs.GroupEnd | Config.cpp:474 | a `-p` group runs up to the first later argument that begins with '-' |
| ConfigArgs.ExpandArgLength | Config.cpp:495-499 | a copied argument gains two characters per '=' |
| ConfigArgs.ExpandArg | Config.cpp:490-502 | the copy of one `-p` argument is at least as long as the argument |
| ConfigArgs.Expand | Config.cpp:484-504 | the copy of a `-p` group of one argument is that argument's copy |
| ConfigArgs.ExpandArgAppend | Config.cpp:495-499 | the character-by-character copy of two texts run together is the copy of the first followed by the copy of the second |
| ConfigArgs.ExpandLength | Config.cpp:488-504 | a copied group is as long as its arguments plus two characters per '=' |
| ConfigArgs.ExpandAppend | Config.cpp:488-504 | a group's copy is the copies of its arguments one after the other, with no separator |
| ConfigArgs.ExpandArgPlain | Config.cpp:495-499 | an argument without '=' is copied unchanged |
| ConfigArgs.ExpandSetting | Config.cpp:495-499 | `name=value` is copied as `name = value`, one triple for the parser |
| ConfigArgs.GroupArgumentsRunTogether | Config.cpp:488-504 | `-p A=1 B=2` is copied as `A = 1B = 2`: the arguments are not separated |
| ConfigArgs.SourceBufferOverflows | Config.cpp:474-476 | the buffer size the source computes is one character short for an argument of 500 '=' |
| ConfigArgs.GroupBufferFits | Config.cpp:474-476 | the corrected buffer size holds the copied group and its NUL |
| ConfigArgs.FileContentEnd | Config.cpp:141-142 | `strlen` of the file buffer is the length of the file data up to its first NUL |
| ConfigArgs.GroupSize | Config.cpp:470-476 | the sizing loop stops at the group's end and returns the corrected buffer size |
| ConfigArgs.PutPiece | Config.cpp:495-499 | '=' is written as " = ", any other character as itself |
| ConfigArgs.CopyArg | Config.cpp:490-502 | one argument is appended at the end of the buffer, each '=' widened, and NUL-terminated |
| ConfigArgs.CopyArgs | Config.cpp:484-504 | the buffer holds the group's arguments, widened, one after the other, NUL-terminated |
| ConfigArgs.CopyGroup | Config.cpp:469-504 | a fresh buffer holds the copied group up to its first dashed argument |
| ConfigArgs.ParseGroups | Config.cpp:456-520 | `-h` stops with -1; `-p` parses its group, and a failure stops with -1; any other argument stops with -1; otherwise the result is 0; this is `ArgsFrom` |
| ConfigArgs.ArgsFrom | Config.cpp:456-520 | the argument loop returns 0 or -1 and keeps the record's size; it returns 0 only when the argument at `cl` is `-p` or there is none (anything else gives -1), and every argument from `cl` on that begins with '-' begins with `-p` |
| ConfigArgs.Configured | Config.cpp:406-526 | `Configure` returns 0 or -1 and keeps the record's size; it returns 0 only when the first option after the file choice is `-p` or there is none, and every later option that begins with '-' begins with `-p` |
| ConfigArgs.LexArgSetting | Config.cpp:495-499 | for a name and a value that are bare words without '=', the copy `name = value` of `-p name=value` lexes to exactly the triple name, "=", value |
| ConfigArgs.SettingGroupText | Config.cpp:464-511 | one `-p name=value` group is parsable and does to the record what its setting does: nothing for an unknown name, -1 for an int value `sscanf` cannot read, otherwise the converted value stored in the named field |
| ConfigArgs.ArgsFromSettings | Config.cpp:456-520 | over one-setting `-p` groups the argument loop is the fold of the settings' effects on the record, in argument order |
| ConfigArgs.ArgsFromFailsIff | Config.cpp:456-520 | over one-setting groups the loop returns -1 exactly when some setting is `Rejected`: it names a known field and gives an int field a value that cannot be read |
| ConfigArgs.ArgsFromLastWins | Config.cpp:456-520 | when no setting is rejected, the loop returns 0, and a field named by some setting holds the converted value of the last setting that names it |
| ConfigArgs.ArgsFromKeeps | Config.cpp:456-520 | a field that no setting names keeps the value it had before the loop |
| ConfigArgs.ConfiguredFileFirst | Config.cpp:417-456 | when `Configure` returns 0, `av[1]` is not `-h`, the file (`av[2]` after `-d`, otherwise config.cfg) exists and parses with 0, and the argument loop starts after the file choice from the record the file left |
| ConfigArgs.ConfiguredLastWins | Config.cpp:406-520 | when `Configure` returns 0 over one-setting `-p` groups, a field named on the command line holds the converted value of its last setting, whatever the file said |
| ConfigArgs.ConfiguredKeepsFile | Config.cpp:406-520 | when `Configure` returns 0 over one-setting `-p` groups, a field not named on the command line holds the value the file parse left in it |
| ConfigArgs.Configure | Config.cpp:406-526 | defaults; `-h` returns -1; `-d` selects `av[2]`, otherwise config.cfg; an unreadable or oversized file returns -1; the file is parsed, then the `-p` groups in order; status and record are `Configured` |
| OpenCvUtils.VSModule.SetParamStr | OpenCvUtilities.cpp:224 | the module logs one more (name, value) assignment |
| OpenCvUtils.VSModule.ParamUpdate | OpenCvUtilities.cpp:229 | the module counts one more update |
| OpenCvUtils.VSModule.constructor | OpenCvUtilities.cpp:198-206 | a module starts with the parameter names that `GetParamName` lists until NULL, no assignment and no update |
| OpenCvUtils.PrefixEnd | OpenCvUtilities.cpp:167 | a matched prefix lies inside the C string being scanned |
| OpenCvUtils.Find | OpenCvUtilities.cpp:181-187 | `strchr` returns the first occurrence before the string ends, or -1 when there is none |
| OpenCvUtils.NameTurn | OpenCvUtilities.cpp:200-224 | one name's turn moves `cmd` forward inside the clause text and leaves a C string there |
| OpenCvUtils.ScanTurn | OpenCvUtilities.cpp:160-196 | one turn of the scan keeps the buffer's size and, unless it stops, moves forward to a C string |
| OpenCvUtils.Directives | OpenCvUtilities.cpp:160-227 | the whole scan keeps the buffer's size |
| OpenCvUtils.ClauseCut | OpenCvUtilities.cpp:187-191 | writing NUL over the clause's ';' ends the clause text there and leaves a C string after it |
| OpenCvUtils.DirectivesSkip | OpenCvUtilities.cpp:167-178 | a position without the prefix and ':' is stepped over by one character |
| OpenCvUtils.SkipToClause | OpenCvUtilities.cpp:167-178 | positions that start no clause are stepped over one at a time, so a clause is found at any offset |
| OpenCvUtils.ScanTurnCut | OpenCvUtilities.cpp:173-196 | a clause ended by ';' is cut there, its names are tried with the key length, and the scan resumes after the cut |
| OpenCvUtils.DirectivesStep | OpenCvUtilities.cpp:160-227 | the scan is one turn followed by the scan of the rest, and it stops at a clause without ';' |
| OpenCvUtils.DirectivesOnlyCut | OpenCvUtilities.cpp:190 | the scan changes the buffer only by overwriting ';' with NUL |
| OpenCvUtils.DirectivesSetsClean | OpenCvUtilities.cpp:198-224 | every assignment names one of the module's parameters and has a value without ';' |
| OpenCvUtils.NoSemicolonNoSets | OpenCvUtilities.cpp:193-196 | without a ';' nothing is applied and the buffer is unchanged |
| OpenCvUtils.NameSetsNoEq | OpenCvUtilities.cpp:181-185 | a clause without '=' applies nothing |
| OpenCvUtils.NameTurnMiss | OpenCvUtilities.cpp:208-215 | a name that differs from the key in length or ignoring case sets nothing and leaves `cmd` where it is |
| OpenCvUtils.NameTurnHit | OpenCvUtilities.cpp:217-224 | the key's own name moves `cmd` past the '=' and hands over the text up to the cut |
| OpenCvUtils.PrefixIsKey | OpenCvUtilities.cpp:208-215 | a name of the key's length that matches at `cmd` ignoring case is the key ignoring case |
| OpenCvUtils.KeyValueHit | OpenCvUtilities.cpp:198-224 | from the first name that is the key ignoring case, the loop sets that name to the value and nothing else |
| OpenCvUtils.KeyValueNames | OpenCvUtilities.cpp:198-226 | for `key=value` with a value without '=', the first name equal to the key ignoring case gets the value, and nothing else is set |
| OpenCvUtils.OneClause | OpenCvUtilities.cpp:160-229 | text without a clause, then `pre:key=value;`, sets exactly the first matching name to the value and cuts the ';' |
| OpenCvUtils.LaterNameReadsValue | OpenCvUtilities.cpp:217-224 | `cmd` is not reset between names: in `fg:a=b=1;` name a gets "b=1", then name b gets "1" |
| OpenCvUtils.LaterNameSets | OpenCvUtilities.cpp:198-224 | on `fg:a=b=1` after the cut, the names a and b get "b=1" and "1" |
| OpenCvUtils.ClauseInsideValue | OpenCvUtilities.cpp:167-178 | a clause is found inside another module's value: `bta:x=bt:y=1;` sets y=1 for prefix bt |
| OpenCvUtils.SetParameters | OpenCvUtilities.cpp:153-230 | the buffer and the module's assignments are what `Directives` says, and `ParamUpdate` is called exactly once |
| OpenCvUtils.ScanClause | OpenCvUtilities.cpp:160-196 | one pass of the scan loop does what `ScanTurn` says |
| OpenCvUtils.ApplyClause | OpenCvUtilities.cpp:173-226 | at a clause start: cut at ';' and run the name loop, or stop when there is no ';' |
| OpenCvUtils.CutAndApply | OpenCvUtilities.cpp:190-226 | the ';' becomes NUL, then the name loop runs on the clause text |
| OpenCvUtils.ApplyNames | OpenCvUtilities.cpp:198-226 | the name loop over the module's parameter names makes the `NameSets` assignments |
| OpenCvUtils.ApplyName | OpenCvUtilities.cpp:200-224 | one name's turn makes the `NameTurn` assignment and moves `cmd` as it says |
| OpenCvUtils.HalfTowardZero | OpenCvUtilities.cpp:128-129 | half of n, truncated toward zero |
| OpenCvUtils.GetRectangleCenter | OpenCvUtilities.cpp:124-132 | each coordinate is x + width / 2 truncated toward zero |
| OpenCvUtils.CenterOfNonNegative | OpenCvUtilities.cpp:128-129 | with no negative coordinate or size, the center is (x + width div 2, y + height div 2) |
| OpenCvUtils.CenterTruncatesTowardZero | OpenCvUtilities.cpp:128-129 | the rectangle at (-1, -1) of size 1 x 1 has center (0, 0): the cast truncates, it does not floor |
| Tracker.ModuleIndexFrom | Camera.cpp:287-293 | the lookup stops at the first row whose nickname equals the name, or at the terminator |
| Tracker.FactoryOf | Camera.cpp:287-293 | a name that no row carries yields the NULL factory; any other factory is the `create` of a row with that nickname |
| Tracker.FindModule | Camera.cpp:287-293 | the loop over a table stops at `ModuleIndex`, a row of the table, so it is never NULL |
| Tracker.ModuleIndexFound | Camera.cpp:301-307 | the lookup lands on a real row exactly when some nickname equals the name, compared case-sensitively |
| Tracker.LookupExamples | Camera.cpp:12-59 | "FG_0" finds its detector and "fg_0" finds nothing; "None" is a row with a NULL factory in the analyser and post-processor tables |
| Tracker.TextReadsBack | Camera.cpp:633-645 | every number written to the record reads back as itself |
| Tracker.RecordTokens | Camera.cpp:633-648 | the seven numbers of a record line, split at blanks, tabs and newlines, come back as written |
| Tracker.RecordLineReadsBack | Camera.cpp:627-651 | a record line holds exactly seven fields: the frame, X, Y, W, H (each clamped at 0 and doubled when downscaled), the id and 0 |
| Tracker.RecordLine | Camera.cpp:627-651 | the record of one blob is exactly one line: it ends with a newline, and no other character is a newline |
| Tracker.FrameLines | Camera.cpp:483-491 | a processed frame writes one line per blob |
| Tracker.FrameLinesReversed | Camera.cpp:483-491 | a processed frame writes one line per blob, from the last blob to the first |
| Tracker.LoopStep | Camera.cpp:443-471 | one iteration of the frame loop: the wait delay, whether the frame is processed, and the single-step switch |
| Tracker.Loop | Camera.cpp:443-471 | the frame loop's trace: no more frames handed to the tracker than keys read, and no more keys read than successful grabs |
| Tracker.ProcessedFrames | Camera.cpp:443-449 | processed frames are consecutive, at least 1 and `start`, and at most `end` when `end` is not negative |
| Tracker.RestStartsNext | Camera.cpp:443-449 | from a frame at or above `start`, the next processed frame is the next frame |
| Tracker.FullRun | Camera.cpp:443-449 | with every grab succeeding and no ESC, the loop processes the frames from `start` (or 1) to `end`, both included |
| Tracker.OpenEndedRun | Camera.cpp:443-449 | with a negative `end`, every grab succeeding and no ESC, every frame of the video from `start` on is processed |
| Tracker.NothingAfterStop | Camera.cpp:443-446 | a frame is processed only if every grab before and at it succeeded and no key read up to it was ESC |
| Tracker.SingleStep | Camera.cpp:468-471 | after a processed frame with a key other than -1, the next wait is 1 when the key was 'r', otherwise 0 |
| Tracker.UnsetModulesFail | Camera.cpp:287-295 | a camera whose module names were never set reaches a NULL factory |
| Tracker.NoneIsOptional | Camera.cpp:337-368 | "None" for the analyser and post-processor creates nothing, and initialization succeeds |
| Tracker.InitOutcome | Camera.cpp:257-419 | `Initialize` succeeds exactly when the video and record file open, every module can be created and, when saving, the output videos open; it reaches a NULL factory exactly when the files open and some module cannot be created |
| Tracker.CopyParams | Camera.cpp:296 | the parameter text is copied with its NUL into a fresh buffer |
| Tracker.CreateModule | Camera.cpp:287-297 | NULL exactly when the lookup yields a NULL factory; otherwise a fresh module that has received the directives for its prefix and one update |
| Tracker.CreateRequired | Camera.cpp:286-325 | the detector, blob detector and tracker are created in order with the prefixes "fg", "bd" and "bt"; this succeeds exactly when all three are found |
| Tracker.CreateOptional | Camera.cpp:328-368 | the analyser and post-processor are each skipped for "None", otherwise created with prefixes "bta" and "btpp"; both receive the analysis text |
| Tracker.CreateModules | Camera.cpp:286-368 | every module is created exactly when all the configured names can be created |
| Tracker.Camera.constructor | Camera.cpp:78-112 | not initialized, 5 training frames, display and downscale off, saving on, no module, an empty record |
| Tracker.Camera.SetCameraId | Camera.h:44 | only the camera id changes |
| Tracker.Camera.SetVideoOutputDirectory | Camera.h:45 | only the output directory changes, to the text before its first NUL |
| Tracker.Camera.SetFGTrainFrame | Camera.h:46 | only the training frame count changes |
| Tracker.Camera.SetFgDetectionModule | Camera.h:47 | only the detector name changes |
| Tracker.Camera.SetBlobDetectionModule | Camera.h:48 | only the blob detector name changes |
| Tracker.Camera.SetBlobTrackerModule | Camera.h:49 | only the tracker name changes |
| Tracker.Camera.SetBlobAnalysisModule | Camera.h:50 | only the analyser name changes |
| Tracker.Camera.SetBlobProcessingModule | Camera.h:51 | only the post-processor name changes |
| Tracker.Camera.EnableDisplayIntermediateResult | Camera.h:54 | only the display flag changes, to true |
| Tracker.Camera.EnableSaveIntermediateResult | Camera.h:55 | nothing changes: saving is on from construction |
| Tracker.Camera.EnableOriginalImageDownScale | Camera.h:56 | only the downscale flag changes, to true |
| Tracker.Camera.OpenRecord | Camera.cpp:275-280 | the record file is open and empty |
| Tracker.Camera.Install | Camera.cpp:295-365 | only the five module handles change |
| Tracker.Camera.CreateTracker | Camera.cpp:404-418 | the tracker is created from the training frames and the five handles, with post-processing data off; then the camera is initialized |
| Tracker.Camera.Initialize | Camera.cpp:257-419 | the outcome is `InitOutcome`: video, record file, then the modules, then the output videos; on success the handles are stored, the tracker created and the camera marked initialized; on failure the initialized flag and the tracker keep their values, so a new camera stays uninitialized with no tracker, and the handles are then unstated |
| Tracker.Camera.SaveBlobRecord | Camera.cpp:627-651 | appends exactly one line, `RecordLine`, and changes nothing else |
| Tracker.Camera.SaveFrameBlobs | Camera.cpp:483-491 | appends the frame's lines from the last blob to the first |
| Tracker.Camera.WaitKey | Camera.cpp:445 | one more delay is recorded and nothing else changes |
| Tracker.Camera.HandToTracker | Camera.cpp:474 | one more frame number is handed to the tracker and nothing else changes |
| Tracker.Camera.Iterate | Camera.cpp:449-491 | a frame at or above `start` is handed to the tracker and its blobs recorded, and a key other than -1 switches single-step mode; below `start` nothing happens |
| Tracker.Camera.Turn | Camera.cpp:443-491 | one loop iteration plus the rest of the loop is the loop from this frame |
| Tracker.Camera.Process | Camera.cpp:433-568 | aborts unless initialized with a tracker; otherwise the record, the wait delays and the processed frames grow by what `Loop` from frame 1 gives |
| BlobTracker.NextPiece | main.cpp:66-71 | one `strtok` call; the pieces still to come are exactly `Tokens` of the rest |
| BlobTracker.SkipDelimiters | main.cpp:66 | skipping leading commas leaves the pieces still to come unchanged |
| BlobTracker.PieceEnd | main.cpp:66 | a piece runs to the next comma or the end |
| BlobTracker.PreparedFlags | main.cpp:88-101 | display and downscale are on exactly when their fields hold 1; saving is on whatever its field holds |
| BlobTracker.CameraOutcome | main.cpp:75-114 | a camera without an ID aborts; a camera that succeeds has its video and record file open |
| BlobTracker.FirstFailure | main.cpp:84-115 | a failure of the set-up loop is the outcome of one of the cameras it ran |
| BlobTracker.SetupOutcome | main.cpp:59-116 | the set-up succeeds only with an ID for every video; with enough IDs, a failure is some camera's own outcome |
| BlobTracker.FirstFailureDone | main.cpp:84-115 | the set-up loop ends normally exactly when every camera's set-up does |
| BlobTracker.SetupSucceeds | main.cpp:75-115 | the set-up succeeds exactly when there is an ID for every video and every camera initializes; extra IDs are ignored |
| BlobTracker.ApplyFlags | main.cpp:88-101 | each flag is enabled only when its field is 1 and is never switched off |
| BlobTracker.ApplySettings | main.cpp:86-108 | the output directory, the flags, the training frames and the five module names are set from the record |
| BlobTracker.CreateCameras | main.cpp:65-72 | one new, distinct camera per non-empty piece of the video list, in order, reading from the input directory |
| BlobTracker.AddCamera | main.cpp:69-70 | one more camera, for the next piece |
| BlobTracker.AssignIds | main.cpp:75-81 | succeeds exactly when there are at least as many ID pieces as cameras; camera i gets `atoi` of the i-th piece |
| BlobTracker.AssignNext | main.cpp:78-80 | camera i gets the i-th ID and no other camera changes |
| BlobTracker.SetUpCamera | main.cpp:86-114 | the camera is set up from the record and `Initialize` gives `CameraOutcome` |
| BlobTracker.SetUpNext | main.cpp:84-115 | one round of the set-up loop; on success the cameras up to i are ready and the others untouched |
| BlobTracker.SetUpCameras | main.cpp:84-115 | the set-up loop's outcome is the first failure in list order; on success every camera is ready |
| BlobTracker.InitializeInputOutputSettings | main.cpp:59-116 | one camera per video, named and directed as listed; the outcome is `SetupOutcome`; on success every camera is ready with its ID |
| BlobTracker.CountedFrames | main.cpp:32-44 | with a positive frame count N and no early stop, frames `start` to `start + N` are processed: N + 1 frames from `start >= 1` |
| BlobTracker.UncountedFrames | main.cpp:37-40 | with no positive frame count, every frame from `start` on is processed |
| BlobTracker.ProcessCamera | main.cpp:43-44 | an initialized camera with nothing recorded ends with the trace of `Loop` from frame 1 |
| BlobTracker.ProcessNext | main.cpp:28-45 | one round of the processing loop runs camera i and changes no other camera |
| BlobTracker.ProcessAll | main.cpp:28-45 | cameras are processed in list order; each ends with its own `Loop` trace |
| BlobTracker.EndFrameIndex | main.cpp:32-40 | a positive frame count N gives a last frame N after `start`; any other count gives a negative last frame, which means no limit |
| BlobTracker.RunCameras | main.cpp:21-45 | set-up first, then processing; on success every camera's trace is its `Loop` with the configured start, end frame and downscale flag |
| BlobTracker.RunProgram | main.cpp:8-56 | a non-zero `Configure` result aborts; otherwise the outcome is the set-up's, and every camera runs its frame loop |

## Left out

- Video capture, display windows, the `VideoWriter` outputs and drawing are left out (Camera.cpp:197-249, 372-401, 493-562). They are I/O. Capture is replaced by the sequence of `grab()` results and the keyboard by the sequence of `cvWaitKey` results. The output videos appear only as whether they open.
- The tracking engine is an input. The factories are named by their function, the parameter names a module lists come from `paramsOf`, and the blobs per frame come from `blobsOf`.
- Floating point is left out:
  - the blob coordinates, which arrive already rounded, so `cvRound` is not modelled;
  - the `%lf` branch of the parser, because no schema entry has type 2;
  - `getNumber`, `CalculateEuclideanDistance`, and the `%g` print in `SetParameters`.
- `CreateHistogram`, `CropImage`, `CalculateColorHistogram`, `HistogramEqualize`, `SaveBlobAsPngImage` and the `BlobTrackGen` table are left out. They are OpenCV wrappers or code the pipeline never calls.
- Printing and logging are left out: `Usage`, `DisplayParams`, `printf`, the log file that `main` opens, and the `LOG` macros. `ChompStr` is never called by the core and is also left out.
- `CheckParams` always returns 0, so `Configure` ends with 0 in the model.
- `GetConfigFileContent` is the map `files`. An absent file or one over 60000 characters gives -1. The `fseek` and `malloc` failures are not modelled. Neither is the text-mode shortening of `fread`.
- The destructor's release calls and the `try`/`catch` around `main` are left out. They are foreign calls.
- The first frame that `Initialize` reads and discards is left out (Camera.cpp:372). The frames it shows or writes are too.
- `strtok` writes NUL into the list fields of the record. The model reads the pieces as values and does not rewrite those fields.
- Int arithmetic is unbounded: `frameNum` and `start + N` do not wrap.
- CText.ScanInt and CText.Atoi read numbers of any size. The source's `sscanf("%d")` (Config.cpp:252-257) and `atoi` (main.cpp:79) produce a 32-bit `int`, and a number out of that range is undefined behaviour there. So the int settings the parser stores and the camera IDs are unbounded in the model. The round trips `ScanIntOfDecimal` and `AtoiOfDecimal` hold in the source only for numbers in the `int` range.
- ConfigParse.ParseContent: requires at most 10000 tokens and no read past the last token (`Parsable`). The source overruns `items` or reads an unset item in those cases.
- ConfigArgs.Configure: requires every content it reaches to be `Parsable`, for the same reason. The record is a parameter, not the global `g_configInput`.
- ConfigParse.Stored: a text of 1000 or more characters fills the field without a terminator in the source, so the field's C string runs into the next field. The model stores the first 1000 characters.
- Tracker.Camera.Initialize: when a later step fails, the source keeps the handles it has already created. The model leaves the handles on failure unstated. The source copies each parameter text into a 1000-character buffer with `strcpy`. The model copies into a buffer of the text's own size, so a longer text does not overflow. Tracker creation (`cvCreateBlobTrackerAuto1`) is taken to succeed.
- Tracker.Camera.SaveBlobRecord: the record is a sequence of lines, not a stream. The `ASSERT_TRUE(pBlob != NULL)` cannot fail, because blobs are values.
- ConfigArgs.ArgsFromSettings: the effect of the argument loop on the record is stated for `-p` groups of one `name=value` argument whose name and value are bare words without '='. A group of several arguments runs them together (`GroupArgumentsRunTogether`), and its effect is what the parser makes of that text.
- ConfigArgs.GroupSize: this returns the corrected buffer size. The source's size is `SourceBufferSize` (see Findings).

## Findings

| source | as written | input that shows it | evidently intended | confidence | as-written member | corrected member |
|---|---|---|---|---|---|---|
| Config.cpp:474-476 | the `-p` buffer is the total length of the group's arguments plus 1000, but the copy writes three characters for each '=' | `-p` followed by one argument of 500 '=' characters: the copy needs 1501 characters with its NUL, and the buffer has 1500 | add two characters per '=' to the size, so the widened copy and its NUL always fit | high; not executed | ConfigArgs.SourceBufferOverflows | ConfigArgs.GroupBufferFits |
