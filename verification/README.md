# timescaledb-tune in Dafny

timescaledb-tune reads a `postgresql.conf`, works out settings for the machine, and rewrites the file
in place: the `shared_preload_libraries` line, the tuned parameters, and two parameters of its own.
This project models that rewriting and proves what it leaves in the file.

The program relies on things that nothing in it checks. The index of parameter lines is built once,
when the file is scanned, and never refreshed while lines are replaced and appended through it. Its
maps are iterated in random order. Its regular expressions are not all anchored. Quiet mode decides
whether to ask by counting writes to a stream. The theorems say when this is sound, and for what is
not, exactly where it stops being so.

## How it is built

Patterns. `Regex` is a small backtracking matcher with lazy and greedy repetition and capture
positions. `TuneSettings` and `SharedPreloadLibs` write the three patterns of the program in it and
resolve them: `TuneSettings.ParsePlain` and `ParseQuoted` give a parse by positions, and
`LineGrammar` and `SharedPreloadLibs` turn that into grammars, proved in both directions.

Values. `PgBytes` and `PgTime` are the formatter and the parsers of amounts and durations; `PgTune`
has the recommenders, settings groups and number parsers; `Recommendations`, `Amounts` and
`Decisions` are about what they produce.

Runs. `Tuning` specifies a run as a function of the lines, the system, the profile, the flags, the
input and what lies outside the program. Two invariants go through every step of every run.
`Acceptance.Wrote` says what is on which line: the settings of the accepted groups on the lines the
index gave them, or appended, and nothing else changed. `StaleIndex.Tracks` says that this is right:
each parameter not yet rewritten is found by a fresh scan exactly where the old index says, and each
rewritten one reads back as active with its new value. `Settling`, `Finishing` and `Runs` carry them
through the phases, and `Theorems` states the results. `Prompting` and `Answers` are about the
questions, `Closeness` about what counts as close enough, `FreshFile` about files without settings,
`SharedPlacement` about lines where the shared-library update goes wrong, `Libraries` about what is in
the list, and `Room` takes the second run from lines to texts.

Objects. `ConfigFile` and `Tuner` are the objects of the program: line objects with a `remove` mark,
processors that hold the line object they matched last, the file state whose lines are replaced and
appended, the tuner with its input and counting writer. Their methods are proved to compute the
functions of `Tuning`; the loops over maps take an arbitrary element each time, so what they compute
is the same for every iteration order. `Tuner.Run` goes from the text of the file to the text written
and equals `Tuning.RunText`, the specified run on the scanned lines.

## Hypotheses

- `Lines.AllClean`: no scanned line ends in a carriage return; for reading a written file again, also
  `Lines.AllFit`. `Lines.ScanWrittenIff` shows that these are exactly the lines that scan back unchanged.
  `Room.RoomIsEnough` derives the second from lines that leave some room in the scanner's buffer.
- `SharedPreloadLibs.WellPlaced`, for the selected shared-library line only: the match is preceded by
  white space only. `SharedPlacement.UpdateTakesEffectIff` gives the exact condition for the update
  itself, on any line. What a run touches, and that quiet mode tells the truth, need no such hypothesis.
- `Tuning.AllSafe`: no recommendation asked for panics. `Amounts.NoPanicIff` says for which
  configurations that holds.
- `Finishing.GoodClock`: the time stamp is not empty and has no quote and no line feed.
- `Decisions.ReadsNumbers`, in `Decisions` only: what is used of the standard number parser, on numerals
  of at most 20 characters.

A run is accepted (`Theorems.AcceptedRun`) if it completes, every available group passes its check, and
every group with something to show is accepted.

## False of the code

- The check of a setting can stop the run with an error. `Decisions.RunWritesIff` gives the exact
  condition: a present line holds a number where the recommendation is `off`, `lz4`, or an amount
  under the Promscale profile. The comment at pkg/tstune/tuner.go:428-433 has a commented setting
  shown; a commented line is still compared, and can still stop the run, as `#jit = 1` does
  (`Decisions.NumericJitStopsRun`).
- A completed run does not always load the extension: a library whose name contains its name passes
  for it. `Theorems.ExtensionIsListedIff` gives the exact condition, `Libraries.ToolkitPasses` a line.
- A line of 64 kB or more, and everything after it, is lost without an error (`Lines.ScanStopsAt`).
- Printing an amount, parsing it and printing again can lose more (`PgBytes.StableIff` says when).
- `work_mem` can drop when memory grows. `Amounts.WorkMemIsMonotoneIff` says on which ranges of memory
  and for how many CPUs it does not.
- A `checkpoint_timeout` of the recommended duration is not always left alone, because the
  recommendation `900` is compared as milliseconds. `Decisions.RecommendedTimeoutKeptIff`: exactly
  those written without a unit are.
- A shared-library line with text before the match may stay commented after the update
  (`SharedPlacement.TwoMarksFail`).

## Model

| member | source | states |
|---|---|---|
| `Theorems.SecondRunChangesNothing` | pkg/tstune/tuner.go:241-328 | On the lines an accepted run wrote, which are what the file is scanned into exactly when each fits, a run with the same system, profile and clock writes the same lines; it can be kept from writing only by a refusal, never in quiet mode, with --yes, or with enough yeses in the input |
| `Room.SecondTextIsTheSame` | pkg/tstune/tuner.go:241-328 | For a file whose lines leave 64 characters of the scanner's buffer, the same on texts: running on the text that was written writes that text again |
| `Room.RoomIsEnough` | pkg/tstune/config_file.go:204-230 | For an accepted configuration, lines that leave that much room are written as lines that fit |
| `Prompting.ModesAgree` | pkg/tstune/tuner.go:298-313 | With --yes, quiet and interactive runs have the same outcome on any lines and whatever the input |
| `Theorems.EffectiveValue` | pkg/tstune/tuner.go:562-574 | After any completed run, a fresh scan finds for every recommended parameter of every available group that was accepted, or had nothing to show, a last line that is active and holds the recommendation or a value within 5% of it |
| `Closeness.EffectiveAmount` | pkg/tstune/tuner.go:462-477 | For a recommended amount: the value on that line reads as a size between 19/20 and 21/20 of the one printed |
| `Theorems.SharedLineInOrder` | pkg/tstune/tuner.go:395-426 | After any completed run, a fresh scan selects an active shared-library line whose list is the one selected before, extended only if it did not contain the text of the extension's name |
| `Theorems.ExtensionIsListedIff` | pkg/tstune/shared_preload_libs.go:26-37 | The extension is then an element of the list exactly when it was one, when its name was nowhere in the text of the list, or when there was no list |
| `Theorems.OwnParametersOnce` | pkg/tstune/tuner.go:315-319 | The output of any completed run has exactly one line of each of our parameters, its fresh stamp |
| `Theorems.Frame` | pkg/tstune/tuner.go:562-574 | The output of any completed run on any lines is the input with only the selected shared-library line, the last lines of settings shown with a recommendation in accepted groups, and our own lines altered or removed, plus appended lines of those three kinds; every such setting with a line has exactly the recommendation printed on it, its tail kept |
| `Theorems.QuietTellsTheTruth` | pkg/tstune/tuner.go:667-712 | In quiet mode, on any lines, the count of writes is the number of lines changed or appended so far, so nothing is asked exactly when no line changed |
| `Theorems.RunKeeps` | pkg/tstune/tuner.go:298-313 | Every run on any lines, whatever the answers, keeps the invariants of the index for exactly the settings it writes, and in quiet mode writes are changes |
| `Theorems.WritesIff` | pkg/tstune/tuner.go:482-580 | The settings a run writes are exactly those shown with a recommendation in the accepted groups, with the recommended values |
| `Theorems.WillingRun` | pkg/tstune/tuner.go:343-356 | A completed run counts as accepted if it was quiet, had --yes, or read no line that was an answer other than yes; lines it did not read do not matter |
| `Theorems.ReadyRunIsAccepted` | pkg/tstune/tuner.go:343-356 | So does one whose input has a yes for every possible question before any other answer |
| `Theorems.IndexIsInjective` | pkg/tstune/config_file.go:167-187 | The index never gives one line to two parameters, nor the shared-library line to a parameter |
| `Theorems.AcceptedSettles` | pkg/tstune/tuner.go:434-480 | On the lines an accepted run wrote, the check keeps every recommended setting of every available group |
| `Theorems.NothingToDo` | pkg/tstune/tuner.go:482-580 | On settled lines any run writes the same lines or is refused by the user |
| `Theorems.UntunedFileIsTuned` | pkg/tstune/tuner.go:444-450 | On a file without a line of any tuned parameter, a run with --yes always gets to writing and is accepted |
| `FreshFile.UntunedFileGets` | pkg/tstune/tuner.go:584-609 | What it writes, exactly: the recommendations of the available groups, in the order of the groups and of their parameters, after the shared-library phase |
| `FreshFile.EmptyFileGets` | pkg/tstune/tuner.go:241-328 | For an empty file, the whole output: the shared-library line, those lines, and the two stamps |
| `Finishing.FreshStamps` | pkg/tstune/tune_settings.go:12-34 | On lines without our parameters the two stamps are appended, in order, as written out |
| `Theorems.SharedPhase` | pkg/tstune/tuner.go:395-426 | After the shared-library phase the selected line is in order, and every parameter is found where it was |
| `StaleIndex.SetKeyTracks` | pkg/tstune/tuner.go:562-574 | Rewriting one more parameter through the old index hits that parameter's line or appends one, and leaves the index right for all others and for the shared-library line |
| `StaleIndex.RewrittenLine` | pkg/tstune/tuner.go:568 | A rewritten line reads back as its parameter with the new value and the old tail, and as nothing else |
| `StaleIndex.MatchesOne` | pkg/tstune/config_file.go:177-183 | A line is a line of at most one parameter |
| `Acceptance.ShownDiffers` | pkg/tstune/tuner.go:444-477 | What is shown with a recommendation differs from the text of the line that is there |
| `Acceptance.SetKeysKeep` | pkg/tstune/tuner.go:562-574 | Rewriting the shown settings of a group through the old index keeps the invariants: each is on its line or appended, nothing else changed, each is one change, and all read back |
| `Acceptance.GroupKeeps` | pkg/tstune/tuner.go:482-580 | One group, whatever the answer: its proposals are written if it is accepted and nothing otherwise, and quiet writes are the settings written |
| `Settling.TunablesKeep` | pkg/tstune/tuner.go:584-609 | All groups in turn through the old index: exactly the settings of the accepted groups are written |
| `Settling.SettingsIff` | pkg/tstune/tuner.go:502-513 | A parameter is written exactly when an accepted group proposes it, with that group's recommendation |
| `Settling.PassedSettles` | pkg/tstune/tuner.go:434-480 | Every recommended setting of a group that was accepted, or had nothing to show, is kept by a fresh check of the lines left |
| `Settling.SettledUnchanged` | pkg/tstune/tuner.go:584-609 | On settled lines the groups change no line, count no write, and stop only when the user says so |
| `Runs.GroupsAreGood` | pkg/pgtune/tune.go:102-116 | The groups of any configuration, with version- and system-dependent keys, share no parameter |
| `Runs.GroupsCoverTable` | pkg/pgtune/parallel.go:88-93 | Every parameter is in some group, except max_parallel_workers on 9.6 and effective_io_concurrency off Linux |
| `Runs.SharedAppended` | pkg/tstune/tuner.go:379-391 | The appended shared-library line is selected by the next scan, is in order, and moves no parameter |
| `Runs.SharedReplaced` | pkg/tstune/tuner.go:395-426 | The updated shared-library line is selected by the next scan, is in order, and moves no parameter |
| `Runs.SharedTouches` | pkg/tstune/tuner.go:395-426 | On any lines the shared-library phase changes at most the selected line, or appends one, and never the line of a parameter |
| `Runs.PlainLineIsShared` | pkg/tstune/tuner.go:681-683 | The line that quiet mode parses for the appended one is always recognised, so its result is never nil |
| `Prompting.PromptAnswers` | pkg/tstune/tuner.go:343-356 | Over any input the prompt loop returns the verdict of the first decisive line and leaves the rest unread, or reports the end of the input |
| `Prompting.InputSplits` | pkg/tstune/tuner.go:346-349 | Every finite input is a sequence of complete lines and a tail without a line feed |
| `Answers.AnswerIff` | pkg/tstune/tuner.go:346-353 | For every line: it is a yes exactly if it is y or yes in any case with any of the six white-space characters around it, and likewise for no, for skip and for no answer, by kind of question |
| `Answers.UsualYes` | pkg/tstune/checker.go:41-67 | A y and a line feed, and YES between a space and a carriage return, are a yes to both kinds of question |
| `Answers.UsualNo` | pkg/tstune/checker.go:41-67 | n, s and Quit, each with a line feed, refuse, skip and refuse |
| `Answers.NoAnswer` | pkg/tstune/checker.go:41-67 | An empty line and maybe are no answers |
| `Prompting.Words` | pkg/tstune/checker.go:41-67 | Both checkers accept exactly the same words, the skip checker refuses more of them, and only it can skip |
| `Prompting.OnlyAcceptanceWrites` | pkg/tstune/tuner.go:549-560 | Interactively, lines change in a group only when the first decisive response accepts |
| `Prompting.NoYesNothingTuned` | pkg/tstune/tuner.go:298-313 | Without any yes in the input, an interactive run writes nothing but the old lines with our own parameters brought up to date, and that only if the shared-library line needed no update |
| `Answers.QuietAnswer` | pkg/tstune/tuner.go:698-706 | A quiet run without --yes has the outcome of the one with --yes if that stops or changes nothing; otherwise its only question decides: a yes gives that outcome, a refusal and the end of the input stop it with their reasons |
| `Answers.SharedLineAnswer` | pkg/tstune/tuner.go:417-420 | An interactive run that has to update the shared-library line stops with the reason of the answer unless it is a yes |
| `Answers.TuneAnswer` | pkg/tstune/tuner.go:306-323 | Refusing to tune is no error: the lines left by the shared-library phase are stamped and written; the end of the input stops the run |
| `Answers.GroupAnswer` | pkg/tstune/tuner.go:549-574 | What each of the four answers does to a group with something to show |
| `Answers.SkippingIsNoError` | pkg/tstune/tuner.go:552-555 | Skipping every group completes the run with no setting written |
| `Answers.QuittingStops` | pkg/tstune/tuner.go:555-557 | Quitting at the first group, and the end of the input, stop the run with their reasons |
| `Prompting.ReadyRun` | pkg/tstune/tuner.go:241-328 | With a yes for every possible question, between lines that are no answers, a run writes exactly when no setting fails the check |
| `Finishing.OneStampEach` | pkg/tstune/tuner.go:613-652 | From any lines, the output has exactly one line of each of our parameters, its fresh stamp, and only lines of our parameters are marked for removal |
| `Finishing.StampsAreLast` | pkg/tstune/tuner.go:636-651 | After stamping, the last line of each of our parameters is its fresh stamp |
| `Finishing.StampedAt` | pkg/tstune/tuner.go:636-642 | A stamped position held a line of the parameter stamped there; all other lines keep their text |
| `Finishing.FinishTwice` | pkg/tstune/tuner.go:317-319 | Stamping and removing duplicates twice with one clock is doing it once |
| `Finishing.FinishKeepsKeys` | pkg/tstune/tuner.go:317-319 | Every tuned parameter reads the same, but for its position, after the end of the run |
| `Finishing.FinishKeepsShared` | pkg/tstune/tuner.go:317-319 | The selected shared-library line, if in order, is still selected after the end of the run |
| `Finishing.StampLine` | pkg/tstune/tune_settings.go:23-34 | A stamp is read as its own parameter and as no other kind of line |
| `Finishing.StampsAreRead` | pkg/tstune/tune_settings.go:23-34 | Read back, the stamps are the time of the run and the version of the program |
| `LineGrammar.PlainGrammar` | pkg/tstune/tune_settings.go:36-44 | The unquoted pattern accepts exactly the lines `lead key = value tail`, with the shortest value that leaves a tail |
| `LineGrammar.QuotedGrammar` | pkg/tstune/tune_settings.go:36-44 | The quoted pattern accepts exactly the lines `lead key = 'value' tail`, with the shortest value |
| `LineGrammar.TunableRoundTrip` | pkg/tstune/tuner.go:568 | For any value that is not empty and has no white space and no #, printing key, value and tail and parsing the line gives back exactly those, uncommented |
| `LineGrammar.LeadRoundTrip` | pkg/tstune/tune_settings.go:65-97 | The same behind a comment mark, which is all that is read differently |
| `LineGrammar.ParamRoundTrip` | pkg/tstune/tune_settings.go:23-34 | Printing one of our parameters and parsing the line gives back exactly its name and value |
| `LineGrammar.PatternsDisjoint` | pkg/tstune/tune_settings.go:65-97 | No line is read as two parameters, quoted or not, even when one name is a prefix of the other |
| `LineGrammar.ParsedShape` | pkg/tstune/tune_settings.go:82-97 | A parsed line ends in its value and then its tail, which is white space and at most a comment |
| `LineGrammar.WhiteSpaceIs` | pkg/tstune/tune_settings.go:36-44 | The characters the classes of the patterns stand for |
| `TuneSettings.ParsePlain` | pkg/tstune/tune_settings.go:65-97 | Backtracking over the unquoted pattern, resolved: where the marker, the name, the value and the tail are |
| `TuneSettings.ParseQuoted` | pkg/tstune/tune_settings.go:65-97 | The same for the quoted pattern |
| `Regex.FirstChoice` | pkg/tstune/tune_settings.go:41-44 | A lazy repetition takes the first length after which the rest of the pattern matches |
| `Regex.SkipRun` | pkg/tstune/tune_settings.go:41-44 | A repetition that nothing inside its run can follow takes the whole run, lazy or greedy |
| `LineKinds.TunableNotShared` | pkg/tstune/config_file.go:171-176 | Rewriting a parameter line never turns it into a shared-library line |
| `LineKinds.ParamNotShared` | pkg/tstune/tuner.go:636-651 | Our own lines are never shared-library lines |
| `LineKinds.SharedNotParam` | pkg/tstune/tuner.go:626-634 | An indented shared-library line is never a line of a parameter of ours |
| `Recommendations.RecommendationIsGood` | pkg/tstune/tuner.go:562-568 | Every recommendation is empty or a value that can be printed unquoted and read back |
| `Recommendations.NamesAreKeyLike` | pkg/tstune/tune_settings.go:49-61 | No parameter name holds a character that delimits names, so the grammar results apply to all of them |
| `Recommendations.NamesDiffer` | pkg/tstune/tune_settings.go:49-61 | All parameter names are different |
| `Recommendations.Spelling` | pkg/pgtune/misc.go:97-109 | The names of the parameters of each group, in order, and our own |
| `Recommendations.OwnNamesDiffer` | pkg/tstune/tune_settings.go:12-19 | Our own parameters are not among the tuned ones |
| `SharedPreloadLibs.SharedIff` | pkg/tstune/shared_preload_libs.go:10 | A line is a shared-library line exactly when the name with its opening quote and a closing quote occur anywhere in it |
| `SharedPreloadLibs.ParseAt` | pkg/tstune/shared_preload_libs.go:26-37 | The parse result, from the first position where a match can start |
| `SharedPreloadLibs.SharedSound` | pkg/tstune/shared_preload_libs.go:26-37 | Every recognised line comes apart into the text before, the marker, the list and the rest that its result says |
| `SharedPreloadLibs.SharedComplete` | pkg/tstune/shared_preload_libs.go:26-37 | An indented line written from those parts is parsed into exactly them |
| `SharedPreloadLibs.UpdateLibraries` | pkg/tstune/shared_preload_libs.go:41-59 | On an indented line the update keeps indentation and tail, extends the list, and gives an active line with the extension, on which it changes nothing more |
| `SharedPreloadLibs.UpdateIsIdentityIff` | pkg/tstune/tuner.go:402-404 | An indented line is reported as correct exactly when it is active and its list contains the text of the name |
| `Libraries.ListsExtensionIff` | pkg/tstune/shared_preload_libs.go:26-59 | After the update the extension is an element of the list exactly when it was one or its name was nowhere in the text, and the elements before stay in place |
| `Libraries.ToolkitPasses` | pkg/tstune/shared_preload_libs.go:26-37 | An active line that lists only timescaledb_toolkit is left as it is, and does not list the extension |
| `SharedPlacement.UpdateTakesEffectIff` | pkg/tstune/shared_preload_libs.go:41-59 | For any line: the update changes only marker and list, and yields an active line with the extension, exactly when no mark ends the text before the match and the marker and the list first occur in the match |
| `SharedPlacement.IndentedIsUpdatable` | pkg/tstune/shared_preload_libs.go:41-59 | Indented lines meet that condition |
| `SharedPlacement.TwoMarksFail` | pkg/tstune/shared_preload_libs.go:41-59 | A line with two separated comment marks does not, whatever its libraries |
| `SharedPlacement.UpdatedIsActiveIff` | pkg/tstune/shared_preload_libs.go:26-37 | With marker gone and list extended, the line is read as active exactly when no mark ends the text before the name |
| `Lines.ScanWrittenIff` | pkg/tstune/config_file.go:204-230 | Written lines scan back to themselves exactly when none holds a line feed, ends in a carriage return, or exceeds the scanner's buffer |
| `Lines.ScanStopsAt` | pkg/tstune/config_file.go:166-187 | What is scanned are the lines before the first one of 65536 characters or more; that one and all after it are lost without an error |
| `Lines.OneUnmarked` | pkg/tstune/config_file.go:218-228 | If every line of a kind but its last is marked, one line of the kind is written |
| `Changes.ChangedZeroIff` | pkg/tstune/tuner.go:693-709 | No line is counted as changed exactly when the lines are the same |
| `ConfigFile.GetConfigFileState` | pkg/tstune/config_file.go:160-189 | The scan loop, which a line too long for the scanner ends silently, builds distinct unmarked line objects for the lines scanned, the last shared-library line, and the last line of every parameter |
| `ConfigFile.ConfigFileState.IndexLine` | pkg/tstune/config_file.go:177-183 | Trying the patterns on a line in any order leaves the same index |
| `ConfigFile.RemoveDuplicatesProcessor.Process` | pkg/tstune/config_file.go:128-136 | A match marks the line held before and holds the new one; otherwise nothing changes |
| `ConfigFile.ConfigFileState.ProcessOne` | pkg/tstune/config_file.go:128-136 | Among distinct line objects, a processor marks exactly the line that stops being its last match |
| `ConfigFile.ConfigFileState.ProcessLine` | pkg/tstune/config_file.go:193-197 | The processors in turn mark exactly the lines one of them is made to let go of |
| `ConfigFile.ConfigFileState.ProcessLines` | pkg/tstune/config_file.go:191-202 | After all lines, the marked ones are those that match some pattern and are not its last match |
| `ConfigFile.GetRemoveDuplicatesProcessors` | pkg/tstune/config_file.go:141-147 | Distinct fresh processors, one for each name, in order |
| `ConfigFile.MarkedIsSuperseded` | pkg/tstune/tuner.go:319 | With the processors of our parameters, the marked lines are our lines that are not the last of their parameter |
| `ConfigFile.ConfigFileState.WriteTo` | pkg/tstune/config_file.go:204-230 | The text of the unmarked lines, each ended by a line feed |
| `Tuner.Run` | pkg/tstune/tuner.go:241-328 | From the text of a file to the text written or the reason for stopping, equal to the run the theorems are about |
| `Tuner.FinishRun` | pkg/tstune/tuner.go:315-323 | Stamping, marking and writing produce the text of the finished lines |
| `Tuner.CheckIfShouldShowSetting` | pkg/tstune/tuner.go:434-480 | The loop returns exactly the keys to show, or fails exactly when some key does |
| `Tuner.Tuner.ForcePromptUntilValidInput` | pkg/tstune/tuner.go:343-356 | The loop gives the answer and the unread input of the specification |
| `Tuner.Tuner.PromptUntilValidInput` | pkg/tstune/tuner.go:333-338 | The same, or acceptance without reading when --yes is given |
| `Tuner.Tuner.ProcessNoSharedLibLine` | pkg/tstune/tuner.go:379-391 | Acceptance appends the plain line; anything else changes no line and stops |
| `Tuner.Tuner.ProcessSharedLibLine` | pkg/tstune/tuner.go:395-426 | The selected line is replaced by its update after acceptance; a line in order asks nothing |
| `Tuner.Tuner.ProcessSettingsGroup` | pkg/tstune/tuner.go:482-580 | One group: check, count of writes, question and rewriting through the index, as specified |
| `Tuner.Tuner.PrintRecommendations` | pkg/tstune/tuner.go:539-547 | One counted write for each setting that will be rewritten |
| `Tuner.Tuner.WriteRecommendations` | pkg/tstune/tuner.go:562-574 | The loop over the shown keys replaces or appends exactly the recommended lines, each by a new line object |
| `Tuner.Tuner.ProcessTunables` | pkg/tstune/tuner.go:584-609 | The available groups in order, stopping at the first error |
| `Tuner.Tuner.FindOurParams` | pkg/tstune/tuner.go:614-634 | The backward search that stops early and deletes patterns while iterating over them finds the greatest matching line of each parameter |
| `Tuner.Tuner.StampFound` | pkg/tstune/tuner.go:636-642 | The found lines are stamped, the same for every order |
| `Tuner.Tuner.ProcessOurParams` | pkg/tstune/tuner.go:613-652 | Found parameters are stamped in place and missing ones appended in order |
| `Tuner.Tuner.ProcessSharedLibLineQuietly` | pkg/tstune/tuner.go:680-691 | Quiet mode puts the shared-library line in order and writes once exactly when a line changes |
| `Tuner.Tuner.ConfirmQuietly` | pkg/tstune/tuner.go:698-706 | The single question of quiet mode |
| `Tuner.Tuner.ProcessQuiet` | pkg/tstune/tuner.go:667-712 | Quiet mode as specified, the counting writer put away at the end |
| `Tuner.Tuner.ProcessInteractively` | pkg/tstune/tuner.go:302-313 | The interactive branch as specified: a refusal to tune skips the settings and is no error |
| `Tuner.CounterWriter.Write` | pkg/tstune/tuner.go:661-664 | Each write counts one |
| `Decisions.FailsExactly` | pkg/tstune/tuner.go:455-472 | The check of a setting fails exactly when its line holds a number that is not kept and its recommendation is `off`, `lz4`, or an amount under the Promscale profile |
| `Closeness.AmountKeptIff` | pkg/pgtune/float_parser.go:21-24 | For every recommender whose amounts are read as bytes: a present amount is kept exactly when it is active and its digits times its unit are between 19/20 and 21/20 of what the recommendation reads as |
| `Closeness.AmountInEffectIff` | pkg/tstune/utils.go:65-67 | The same, in terms of the parsed size |
| `Closeness.SharedBuffersExamples` | pkg/tstune/tuner.go:462-477 | With 8 GB of memory, 128kB of shared_buffers are not kept and 2000MB are |
| `Closeness.NumberKeptIff` | pkg/tstune/utils.go:65-67 | A present number is kept exactly when it is active and is the recommendation or between 19/20 and 21/20 of it; nothing but the text itself is close to zero |
| `Closeness.NoNumberIsShown` | pkg/tstune/tuner.go:462-467 | An active value that is no finite number, and is not the recommendation, is shown |
| `Decisions.RunWritesIff` | pkg/tstune/tuner.go:241-328 | For every accepted configuration, with enough yeses, a run writes its lines exactly when no present line is of that kind |
| `Decisions.NumericJitStopsRun` | pkg/pgtune/misc.go:130-174 | On the file `jit = 1`, and on the commented `#jit = 1`, every run with enough yeses stops with the parsing problem, for every version for which `off` is recommended |
| `Decisions.NumericAmountStopsRun` | pkg/pgtune/float_parser.go:61-76 | So does every run under the Promscale profile on the file `work_mem = 4096` |
| `Decisions.NumberStopsRun` | pkg/tstune/tuner.go:455-472 | The same for any one line, commented or not, that gives a number to a parameter whose recommendation is none |
| `Decisions.AmountReadable` | pkg/pgtune/float_parser.go:61-76 | A group's parser reads the amounts its recommender prints, except under the Promscale memory recommender |
| `Decisions.TimeoutWithinHalfUnit` | pkg/pgtune/wal.go:179-198 | A checkpoint timeout in milliseconds is within half of the returned unit of the written duration, and equal to it when the number is integral |
| `Decisions.RecommendedTimeoutKeptIff` | pkg/pgtune/wal.go:179-198 | Of the active checkpoint_timeout values that mean the recommended 900 seconds, whatever their unit and however written, exactly those without a unit are kept |
| `Decisions.TimeoutKeptIff` | pkg/tstune/utils.go:65-67 | For any active value, what the 5% comes to against the recommendation `900`: the text itself, or 855 to 945 of the milliseconds the program reads |
| `Decisions.WholeTimeout` | pkg/pgtune/wal.go:184-193 | Every integral number of every unit is read as exactly that many milliseconds, up to the range of float64 |
| `Decisions.SameTimeoutIsShown` | pkg/pgtune/wal.go:142-157 | So 15min is shown, and 900ms is kept, though 900 means as many seconds |
| `Decisions.CompressionKeptIff` | pkg/pgtune/float_parser.go:34-58 | An active wal_compression is kept exactly when it is on in any of the ways to say so, whatever its case and the quotes around it, and never fails the check |
| `Decisions.GroupsInWidth` | pkg/pgtune/tune.go:83-116 | Everything an accepted configuration has formatted is a number of 64 bits |
| `PgBytes.FormatThenParse` | internal/parse/parse.go:144-195 | Below 2^53, what is printed always parses, to the printed count times its unit |
| `PgBytes.PrintedIsParsed` | internal/parse/parse.go:144-195 | What is printed for any 64-bit amount can be parsed |
| `PgBytes.PGFormatToBytesIff` | internal/parse/parse.go:170-195 | Exactly digits and a unit, in quotes, all but the digits optional, are read, as long as the number is an int64; the product wraps around as a uint64 |
| `PgBytes.LossAtMostAThousandth` | internal/parse/parse.go:144-166 | From 1 MB up, printing and parsing gains nothing and loses at most a thousandth |
| `PgBytes.NearestKilobyte` | internal/parse/parse.go:144-166 | From 1 kB to 1 MB the error is at most 512 bytes |
| `PgBytes.ReparsedMonotone` | internal/parse/parse.go:144-195 | Printing and parsing never reverses the order of two amounts, across all units |
| `PgBytes.StableIff` | internal/parse/parse.go:144-195 | A second round changes nothing exactly unless the printed count is 1 modulo 1024 in the lowered unit |
| `PgBytes.StableAfterTwo` | internal/parse/parse.go:144-195 | A third round never changes anything |
| `PgBytes.OnceIsNotEnough` | internal/parse/parse.go:144-166 | 1 MB and 1600 bytes print as 1025kB, and that prints as 1MB |
| `PgTime.TimeWithinHalfUnit` | internal/parse/parse.go:237-311 | For every string, default unit and variable type: accepted exactly when read and in the range of float64; a whole number of the unit written, or of the next smaller one for a fraction unless an integer variable has it in its own unit; within half of that unit, and exact for an integral number |
| `PgTime.ReadTimeIff` | internal/parse/parse.go:110 | What is read: exactly digits, a fraction, white space and a unit, in quotes, all but the digits optional, with the number and the unit as written |
| `PgTime.IntegralTimeIsRead` | internal/parse/parse.go:110 | In particular a printed number, white space and a unit are read as that number and unit |
| `PgTime.NextSmallerIsNext` | internal/parse/parse.go:197-231 | The next smaller unit is smaller, with no unit in between |
| `PgTime.ConversionExact` | internal/parse/parse.go:197-235 | Moving to the next smaller unit keeps the duration |
| `PgTune.GetValueForVersion` | pkg/pgtune/misc.go:68-75 | The loop decides by membership among the old versions |
| `PgTune.MaxLocks` | pkg/pgtune/misc.go:130-174 | The search down the table gives the step function of memory it documents |
| `Amounts.NoPanicIff` | pkg/tstune/tuner.go:597-606 | For every accepted configuration, no recommendation asked for panics exactly when none of three amounts is zero |
| `Amounts.NoReachablePanic` | pkg/pgtune/tune.go:83-98 | So nothing panics from 134 bytes of memory up to 2^53 and with no disk size or one from 2 bytes to the overflow bound |
| `Amounts.SmallestMemory` | pkg/pgtune/wal.go:60-66 | The bound of 134 bytes comes from wal_buffers |
| `Amounts.SharedBuffersBelowCache` | pkg/pgtune/memory.go:57-69 | As printed and parsed, shared_buffers never exceeds effective_cache_size, in both profiles |
| `Amounts.Ceilings` | pkg/pgtune/wal.go:58-73 | As printed and parsed, maintenance_work_mem is at most 2047 MB and wal_buffers at most 16 MB |
| `Amounts.SizesAreMonotone` | pkg/pgtune/memory.go:57-69 | As printed and parsed, the memory-derived sizes other than work_mem never shrink as memory grows, also across the 2 GB threshold of wal_buffers |
| `Amounts.MaxWalIsLeast` | pkg/pgtune/wal.go:79-95 | Without overflow, in both profiles, the maximum is the least whole number of 16 MB segments that covers 60% of the disk, and at most the disk from 40 MB up |
| `Amounts.WalSizesAreExact` | pkg/pgtune/wal.go:58-73 | Under 1 TB both printed WAL sizes parse back exactly, the minimum half of the maximum |
| `Amounts.MinBelowMax` | pkg/pgtune/wal.go:58-73 | As printed and parsed, min_wal_size never exceeds max_wal_size |
| `Amounts.ProfilesAgree` | pkg/pgtune/wal.go:159-175 | On a nonzero disk the two copies of the computation make both profiles print the same WAL sizes |
| `Amounts.ProfilesDiffer` | pkg/pgtune/wal.go:142-175 | As printed and parsed, the Promscale profile doubles shared_buffers to half of memory, and the WAL sizes without a disk size are those of 4 GB instead of 1 GB |
| `Amounts.OnlyPromscale` | pkg/pgtune/background_writer.go:49-54 | Only the Promscale profile has recommendations for bgwriter_flush_after, checkpoint_timeout and wal_compression: 0, 900 and 1 |
| `Amounts.WorkMemBudget` | pkg/pgtune/memory.go:70-77 | From 1 MB up, the printed work_mem on all connections and half the CPUs is at most 25/64 of memory |
| `Amounts.PrintedWorkMemBudget` | pkg/pgtune/memory.go:42-48 | The same across groups, as printed for one configuration: work_mem read back against the printed max_connections, and never below 64 kB |
| `Amounts.ConnectionsAgree` | pkg/pgtune/memory.go:42-48 | The connections work_mem is divided by are the ones printed as max_connections: those configured, or the default for the memory |
| `Amounts.WorkersOf` | pkg/pgtune/parallel.go:46-75 | The parallel group is available from two CPUs; as printed, parallel workers are the CPUs, background workers the configured ones, and worker processes 3 more than both |
| `Amounts.WorkersAddUp` | pkg/pgtune/parallel.go:52-75 | For any counts: that sum is printed exactly as long as the int does not overflow, and workers per gather are half the CPUs rounded up |
| `Amounts.Availability` | pkg/pgtune/parallel.go:46-59 | Only the parallel recommender is ever unavailable, on one CPU, and it panics on one CPU or fewer than 16 background workers |
| `Amounts.LocksDouble` | pkg/pgtune/misc.go:86-91 | 128 locks, doubled at 8, 16 and 32 GB of memory |
| `Amounts.MiscSettings` | pkg/pgtune/misc.go:130-174 | The miscellaneous recommendations, and the versions at which three of them change |
| `Amounts.DefaultConnections` | pkg/pgtune/misc.go:55-66 | The four default numbers of connections and the memory they are for |
| `Amounts.NewConfigIsAccepted` | pkg/pgtune/tune.go:83-98 | A configuration is refused only for too few connections or background workers, and otherwise meets the hypotheses on configurations |
| `Amounts.WorkMemFloor` | pkg/pgtune/memory.go:70-77 | The printed work_mem is never below 64 kB |
| `Amounts.WorkMemMonotone` | pkg/pgtune/memory.go:70-77 | For a fixed number of connections the printed work_mem never shrinks as memory grows |
| `Amounts.FormulasPerGigabyte` | pkg/pgtune/wal.go:58-66 | The formulas for maintenance_work_mem and wal_buffers, in gigabytes over the reals and truncated, are the amounts modelled, up to 2047 MB and below 2 GB of memory; beyond, 2047 MB and 16 MB |
| `Amounts.WorkMemFormula` | pkg/pgtune/memory.go:70-77 | The same for the formula of work_mem, in gigabytes, connections and half the CPUs rounded, with 64 kB at least |
| `Amounts.WorkMemIsMonotoneIff` | pkg/pgtune/misc.go:55-66 | On a range of memory sizes the printed work_mem with default connections never drops exactly when none of the three steps of the default lies in the range, or there are more than 508 pairs of CPUs |
| `Amounts.PrintedWorkMemDropsIff` | pkg/pgtune/memory.go:70-77 | From one byte of memory to the next it drops exactly at those steps and up to that many CPUs |
| `Amounts.WorkMemDropsIff` | pkg/pgtune/memory.go:70-77 | In bytes, before printing, it drops exactly at those steps below 512 pairs of CPUs |
| `Amounts.WorkMemDrops` | pkg/pgtune/misc.go:55-66 | With one or two CPUs it drops from 32 MB to 16 MB, under 22 MB and 24 MB at the three steps |

## Left out

- Finding, opening, backing up and restoring files, file prompts with numbered lists, `--dry-run`, and the creation of the output: a file is its text.
- Running pg_config, parsing its version, and measuring CPUs, memory and disk: a system configuration is given.
- The text, colour and order of what is printed; only the number of counted writes is kept.
- The clock and the operating system are parameters of a run; what quiet mode prints with the clock is not modelled, so the clock is read once, for the stamp.
- The standard number parser is a parameter; infinities and NaN are one value that is close to nothing.
- Regular expressions in general: the matcher has the constructs the three line patterns use; the patterns of amounts and durations are written directly.
- Rounding of float64: amounts are naturals, exact below 2^53 for the power-of-two divisors; work_mem, times and the 5% comparison are computed without rounding.
- Amounts and counts of 2^53 or more, where printing and halving go through a float64 that does not hold them.
- Encodings: a character stands for a byte, so the length of a line is its length in bytes.
- Double quotes around an element of the library list, and library paths: an element is the text between commas.
- Lower-casing and trimming of answers and switches cover ASCII only.
- Profile names and their parsing, the errors of NewSystemConfig as text, and an unknown group label, which panics.
- Processors and writers that return errors: neither the duplicate remover nor a string writer does.
- Whole-run theorems for a selected shared-library line with text before the match: the update is characterised on such lines, but a run on them may also overwrite the line as another kind.
