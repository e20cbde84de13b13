# libgpiod: line configurations, requests, tools and daemon

This project models the parts of libgpiod that decide what happens to GPIO lines, and proves
what they promise.

- **The line-config compiler** (`lib/line-config.c`). A line config maps line offsets to
  settings, in order. It is stored as slots that point into a reference-counted list of settings
  nodes (`SettingsList`, `LineConfig`), it behaves as an ordered map (`OrderedMap`), and it is
  compiled (`UapiCompiler`) into the configuration language of the kernel's character device
  (`Uapi`): default flags and at most ten attributes, each with a mask of lines, of which the
  first match counts. `Compiler` defines the result on values and proves that the kernel reads
  back each line's own settings; `CompilerTheorems` proves the attribute budget, the masks,
  how good the grouping is, and what the compiler rejects without need; `Grouping` is the shape
  that both grouping loops share.
- **Requested lines** (`LineRequest`, `LineInfo`): mask-based reading and writing, reconfiguring,
  and decoding what the kernel reports.
- **The Python front end** (`PythonFrontEnd`): dictionaries of names and offsets become
  positions, and positions stay aligned down to the compiled configuration.
- **The tools** (`Resolver`, `Gather`, `Gpioset`, `Shell`, `ShellBuffer`, `Interactive`,
  `Period`): finding lines by name or offset, moving values between the resolver and the
  requests, the interactive shell's printer, word splitter, parser and `set` command, toggling,
  and periods in text.
- **The manager daemon** (`IdTree`, `Daemon`): tables of chips, lines and requests, and the
  allocator of request ids.

`Limits` holds concrete inputs at which the code does not do what one would expect; each comes
with a theorem that says exactly when that happens.

## Reading guide

*Words.* A 64-bit word (mask, flags, line values) is written as the set of the positions of its
1 bits. `LineMask` justifies this: there a word is a number below 2^64, the bitwise operators
work digit by digit, every mask helper of `lib/internal.c` does to the number what the set
operation does to the set, and equal sets come from equal words.

*Heap.* `LineConfig.Valid` is the heap invariant: the nodes form a well-formed doubly linked
list without repetition, every reference count is the number of slots that point at the node
and at least 1, unused slots are empty, and every node ever allocated is either in the list or
freed, never both. Every method keeps it; in between, while settings are added, only the new
node may have no reference. The history only grows: no call forgets a node that was allocated or
freed, and `LineConfig.Release`, which stands for `free()`, can only be called with a node that
has been allocated and not been freed.

*Kernel.* The kernel is replaced by the rule in the documentation of
`struct gpio_v2_line_config` (`Uapi.FirstMatch` and the three `Effective` functions) and, for each
request, by the flags, the debounce period and the level of every line (`LineRequest.LineHandle`).
A reconfiguration leaves a line alone unless it is explicitly made an input or an output: this is
what `NEWS:33-34` calls the kernel's requirement, and what the Python tests rely on
(`bindings/python/tests/tests_line_request.py:552-584`). What the kernel decides by itself, such as
whether it grants lines and their initial levels, comes in as a parameter.

*Debounce periods.* A setting holds an `unsigned long`, the attribute field is 32 bits wide. The
store is modelled with its truncation. The meaning, the round trip and the optimality of the
debounce grouping are therefore stated with the exact condition under which they hold.

*Reconfiguring from Python.* The documentation of `LineRequest.reconfigure_lines`
(`bindings/python/gpiod/line_request.py:168-169`) says that a line without an entry, or with None
as its settings, is not changed. The code (lines 185-187) gives such lines default settings, which
ask for no direction, so that the kernel leaves them alone: the promise holds
(`PythonFrontEnd.ReconfigureLinesOf`). By the same rule a line with an entry is left alone when its
settings ask for no direction; `PythonFrontEnd.KeptIff` says that these are the only two cases.

*Grouping.* `settings_equal` compares settings and not the flags made from them. A line that
asks for edges becomes an input whether or not its direction says so, so two such lines can have
equal flags and still take two attributes. `CompilerTheorems.FlagGroupingIsOptimalIff` says that
this is the only way in which the flag grouping misses the minimum, and
`CompilerTheorems.DebounceGroupingIsOptimalIff` that truncation is the only way for debounce
periods. Without such lines the compiler rejects exactly what no ten attributes can express
(`CompilerTheorems.RejectsOnlyInexpressible`).

*Words of a command.* The interactive shell compares the first word of a line without looking at
the number of words (`tools/gpioset.c:777-783`). For a line of white space only there is none, and
the word it compares was never stored. The model answers `NoWord` there and says no more;
`Interactive.NoWordIff` states for which lines this happens.

*Exits.* Where a tool exits with an error, the model returns a value that says why.

## Model

| member | source | states |
|---|---|---|
| LineMask.MaskZero | lib/internal.c:137-140 | the zero word has no 1 bits |
| LineMask.MaskTestBit | lib/internal.c:142-145 | testing a bit answers whether the position is in the word's set of bits |
| LineMask.MaskSetBit | lib/internal.c:147-150 | setting a bit adds that position and no other, and stays within 64 bits |
| LineMask.MaskAssignBit | lib/internal.c:152-158 | assigning a bit adds or removes that position and no other, and stays within 64 bits |
| LineMask.BitsAreFaithful | lib/internal.c:137-158 | two words are equal exactly when they have the same set of bits |
| LineMask.WordRange | lib/internal.c:137-158 | a word is a number below 2^64 |
| LineSettings.LineSettings.constructor | lib/line-settings.c:23-34 | new settings are the documented defaults |
| LineSettings.LineSettings.Copy | lib/line-settings.c:55-69 | a copy has all settings of the original |
| LineSettings.LineSettings.Reset | lib/line-settings.c:41-53 | resetting gives the settings of a new object |
| LineSettings.LineSettings.SetDirection | lib/line-settings.c:71-90 | a legal direction is stored; any other number is refused and leaves the default; nothing else changes |
| LineSettings.LineSettings.SetEdgeDetection | lib/line-settings.c:100-120 | the same for edge detection |
| LineSettings.LineSettings.SetBias | lib/line-settings.c:130-149 | the same for bias, "unknown" being refused |
| LineSettings.LineSettings.SetDrive | lib/line-settings.c:159-178 | the same for drive |
| LineSettings.LineSettings.SetActiveLow | lib/line-settings.c:188-195 | only the active-low setting changes |
| LineSettings.LineSettings.SetDebouncePeriodUs | lib/line-settings.c:205-212 | only the debounce period changes, to any unsigned long |
| LineSettings.LineSettings.SetEventClock | lib/line-settings.c:222-241 | a legal clock is stored; any other number is refused and leaves the default; nothing else changes |
| LineSettings.LineSettings.SetOutputValue | lib/line-settings.c:251-258 | a legal value is stored; any other number is refused and leaves inactive; nothing else changes |
| Uapi.OnlyMatch | lib/uapi/gpio.h:161-165 | where no line meets the same kind of attribute twice, any attribute that covers a line is the one that counts |
| Uapi.ReorderingKeepsMeaning | lib/uapi/gpio.h:161-165 | in such a list the order carries no meaning |
| Uapi.DebounceLowerBound | lib/uapi/gpio.h:153-173 | any configuration needs a debounce attribute per distinct nonzero period it gives to lines |
| Uapi.FlagsLowerBound | lib/uapi/gpio.h:153-173 | any configuration needs a flags attribute per distinct flags word it gives to lines, less one for the default |
| Compiler.FlagMembers | lib/line-config.c:382-455 | for each kernel flag, exactly which settings set it; "used" is never set |
| Compiler.FlagBits | lib/uapi/gpio.h:73-87 | the flags word of any settings has exactly the bits that they ask for, numbered as in the kernel's header, and no other bit |
| Compiler.MeaningPreserved | lib/line-config.c:285-566 | whenever compiling succeeds, the kernel's first-match reading gives every configured line its own flags, its own period up to 32 bits, and for outputs the value that the library reports |
| Compiler.CompiledBits | lib/line-config.c:487-544 | whenever compiling succeeds, the flags that the kernel reads for a line have exactly the bits that its settings ask for |
| Compiler.DebouncePreservedIff | lib/line-config.c:334-380 | a line's period survives compilation exactly when it is below 2^32 |
| CompilerTheorems.ClassesAreSettingsEqual | lib/line-config.c:457-485 | settings_equal ignores the debounce period and the output value and compares all else |
| CompilerTheorems.BudgetIsExact | lib/line-config.c:317-566 | compiling fails exactly when one for outputs, plus the distinct nonzero periods, plus the classes of settings less one exceed ten; otherwise that is the number of attributes |
| CompilerTheorems.MasksPartitionLines | lib/line-config.c:334-544 | masks of one kind are disjoint; debounce masks cover exactly the lines with a period; flag masks cover exactly the lines unlike line 0 |
| CompilerTheorems.ReorderedMeansTheSame | lib/line-config.c:317-566 | any reordering of the emitted attributes means the same for every line |
| CompilerTheorems.FlagsTellSettingsApart | lib/line-config.c:382-485 | two settings make the same flags exactly when settings_equal holds or they differ only in an input direction that edge detection implies |
| CompilerTheorems.DebounceGroupingIsOptimalIff | lib/line-config.c:334-380 | no configuration with the same effect has fewer debounce attributes, exactly when no two periods coincide and none vanishes in 32 bits; for every config, whether or not it fits ten attributes |
| CompilerTheorems.FlagGroupingIsOptimalIff | lib/line-config.c:487-544 | no configuration with the same effect has fewer flags attributes, exactly when no two lines differ only in an implied input direction; for every config, whether or not it fits ten attributes |
| CompilerTheorems.FewestIsNeeded | lib/uapi/gpio.h:153-173 | any configuration that means what a config asks for has at least one attribute for outputs, one per period and one per flags word beyond the first that the kernel can tell apart |
| CompilerTheorems.FewestIsEnough | lib/uapi/gpio.h:153-173 | a configuration with just these attributes means what the config asks for |
| CompilerTheorems.RejectsOnlyInexpressible | lib/line-config.c:317-566 | E2BIG is returned for exactly the configs that no ten attributes can express, as long as periods stay apart and no input direction is merely implied; in general it is unneeded exactly when the attributes exceed ten only because of such lines |
| OrderedMap.RunIsOrderedMap | include/gpiod.h:807-810 | over any run of add, set-values and reset the offsets are duplicate-free in first-assigned order and each has the settings last given to it |
| OrderedMap.AssignFresh | lib/line-config.c:133-149 | offsets that have no slot yet take the next slots in order |
| SettingsList.SettingsNode.constructor | lib/line-config.c:113-126 | a new node holds its own copy of the settings and has no references |
| SettingsList.Prepend | lib/line-config.c:126-131 | the new node becomes the head of a list that is still well linked |
| SettingsList.MoveReference | lib/line-config.c:136-141 | after a slot is redirected every count is again the number of slots pointing at the node, and only the node it left can have dropped to zero |
| SettingsList.Unlink | lib/line-config.c:142-147 | taking out a node other than the head leaves the rest of the list well linked |
| LineConfig.LineConfig.constructor | lib/line-config.c:34-46 | a new config is empty and satisfies the heap invariant |
| LineConfig.LineConfig.Release | lib/line-config.c:48-58 | free() is called only with a node that has been allocated and not been freed |
| LineConfig.LineConfig.FreeRefs | lib/line-config.c:48-58 | afterwards every node ever allocated is freed, those freed before included |
| LineConfig.LineConfig.Free | lib/line-config.c:60-67 | freeing a config leaves no node unfreed that was ever allocated |
| LineConfig.LineConfig.Reset | lib/line-config.c:69-75 | a reset config is empty, all its nodes are freed, and the invariant holds |
| LineConfig.LineConfig.FindConfig | lib/line-config.c:77-91 | the offset's slot if it has one, else a newly claimed slot at the end |
| LineConfig.LineConfig.AddLineSettings | lib/line-config.c:93-152 | EINVAL for no offsets, E2BIG beyond 64 lines and success otherwise; on success the content becomes that of the ordered map and exactly one node is allocated, on failure nothing changes; no earlier allocation or release is forgotten; the heap invariant is kept for any offsets, repeated ones included |
| LineConfig.LineConfig.AssignSlot | lib/line-config.c:133-149 | one offset of a call: the map gets the assignment and the invariant is back, whatever slot was taken over |
| LineConfig.LineConfig.Drop | lib/line-config.c:141-148 | a node dropped inside add is not the head, was not freed before, and leaves the list |
| LineConfig.LineConfig.GetLineSettings | lib/line-config.c:154-194 | null exactly for an offset without a slot; otherwise a fresh copy of the settings last given, with the slot's global output value if there is one |
| LineConfig.LineConfig.SetOutputValues | lib/line-config.c:196-223 | accepted exactly for 1 to 64 legal values; an illegal value clears the global values |
| LineConfig.LineConfig.GetConfiguredOffsets | lib/line-config.c:233-251 | the first offsets in slot order, as many as fit |
| UapiCompiler.DebounceClass | lib/line-config.c:366-373 | the inner loop's mask is the rest of the line's class of equal periods |
| UapiCompiler.FlagClass | lib/line-config.c:511-537 | the inner loop's mask is the rest of the line's class under settings_equal |
| UapiCompiler.SetDebounceOf | lib/line-config.c:344-376 | one turn of the outer loop appends an attribute exactly for the first line of a class with a period, and fails exactly when there is no room |
| UapiCompiler.SetDebouncePeriods | lib/line-config.c:334-380 | appends the specified debounce attributes behind what is there; fails exactly when they do not all fit |
| UapiCompiler.SetFlagsOf | lib/line-config.c:499-541 | one turn of the outer loop makes line 0's class the default and any other first line of a class an attribute; fails exactly when there is no room |
| UapiCompiler.SetFlags | lib/line-config.c:487-544 | sets the default flags and appends the specified flag attributes; fails exactly when they do not all fit |
| UapiCompiler.HasOutputDirection | lib/line-config.c:264-276 | true exactly when some line is an output |
| UapiCompiler.KernelOutputValues | lib/line-config.c:285-315 | the mask covers the output lines and the global values' positions; a global value takes precedence |
| UapiCompiler.SetOutputValues | lib/line-config.c:317-332 | one attribute exactly when some line is an output |
| UapiCompiler.SetOffsets | lib/line-config.c:253-262 | the buffer lists the configured offsets in slot order |
| UapiCompiler.ToUapi | lib/line-config.c:546-566 | the in-place compiler computes exactly the specified configuration, or fails exactly when there is none; read from the buffer, every line's flags have exactly the bits that its settings ask for; all writes stay inside the buffer |
| LineInfo.LineInfoFromUapi | lib/line-info.c:137-211 | what each field says in terms of the kernel's flag bits and attributes alone: used exactly for bit 0, which of pull-up, pull-down and disabled and which drive goes first, edges and clocks, and the period of the last debounce attribute |
| LineInfo.FlagsReadBack | lib/line-info.c:152-192 | decoding the flags made from settings gives the settings back, as-is direction read as input and as-is bias as unknown |
| LineInfo.IdleLineIsUnused | lib/line-info.c:153 | without the used bit a line reads back as unused and otherwise as before |
| LineInfo.RoundTrip | lib/line-info.c:137-211 | compiling a whole config and decoding any line gives its settings back, exactly when its period fits 32 bits |
| LineRequest.ReadAfterWrite | lib/line-request.c:123-223 | after a write every named line reads the value last paired with it, every other line reads as before |
| LineRequest.ReadsItsBit | lib/line-request.c:123-169 | the line at position k reads as bit k |
| LineRequest.WrittenLevel | lib/line-request.c:188-223 | after a write the last value given for an offset is its line's level, and lines that are not named keep theirs |
| LineRequest.InitialState | lib/chip.c:210-251 | line k of a request starts with exactly the flag bits and the period, up to 32 bits, that its own settings ask for |
| LineRequest.LineRequest.OffsetToBit | lib/line-request.c:108-121 | the first index of the offset, -1 when it was not requested |
| LineRequest.LineRequest.GetValuesSubset | lib/line-request.c:123-169 | fails exactly for an offset that was not requested, leaving the caller's array alone; otherwise 1 or 0 as the bit of each line says, in the order asked for |
| LineRequest.LineRequest.SetValuesSubset | lib/line-request.c:188-223 | fails exactly for an offset that was not requested, changing nothing; otherwise each named line takes the value last paired with it |
| LineRequest.LineRequest.SetAllValues | lib/line-request.c:225-232 | value k drives requested line k |
| LineRequest.LineRequest.ReconfigureLines | lib/line-request.c:250-281 | succeeds exactly for a config that compiles and lists the request's offsets in the request's order; then every line that the config directs takes its new flags, period and level; otherwise nothing changes |
| LineRequest.LineRequest.OffsetsEqual | lib/line-request.c:234-248 | true exactly for the same offsets in the same order |
| LineRequest.RequestLines | lib/chip.c:210-251 | a granted request has the config's offsets in slot order, each line is configured as its own settings ask, and outputs start at their values |
| LineRequest.RequestFromUapi | lib/line-request.c:21-45 | the request lists exactly the offsets of the kernel's buffer |
| LineRequest.RunKeepsIndexMap | lib/line-request.c:188-281 | over any run of writes and reconfigurations, accepted or not, bit k stands for offset k: its level is the value last assigned to that offset |
| LineRequest.ReconfiguredLevel | lib/line-request.c:250-281 | an accepted reconfiguration drives each output to the value reported for its offset and leaves other lines alone |
| LineRequest.ReconfiguredState | lib/line-request.c:250-281 | an accepted reconfiguration gives a line the flags and period of its new settings, or leaves it alone when these ask for no direction and no edges |
| LineRequest.IgnoredIff | lib/line-config.c:382-455 | settings leave a line alone whatever it was configured to, exactly when they have direction as-is and no edges |
| LineRequest.RunKeepsConfiguration | lib/line-request.c:188-281 | over any run of writes and reconfigurations a line is configured as the last accepted one that directed its offset says |
| PythonFrontEnd.FindName | lib/chip.c:178-208 | the first line with the name, none exactly when no line has it |
| PythonFrontEnd.OffsetStandsFor | bindings/python/gpiod/chip.py:121-158 | an integer below the number of lines stands for itself, a name that a line has for the first such line, any other string for the number it spells; nothing else resolves |
| PythonFrontEnd.EntryPosition | bindings/python/gpiod/chip.py:301-326 | where the identifiers of an entry come in the flat list, and with which settings |
| PythonFrontEnd.BuildableIff | bindings/python/gpiod/chip.py:270-326 | arguments are accepted exactly when their identifiers stand for different lines, 64 at most, no entry is empty and every output value is for something |
| PythonFrontEnd.LastOutputCounts | bindings/python/gpiod/chip.py:290-317 | of several output values for the same line the last one counts |
| PythonFrontEnd.EntryGoesLast | bindings/python/gpiod/chip.py:301-326 | because no offset repeats, an entry's lines take the next slots in order |
| PythonFrontEnd.AddEntry | bindings/python/gpiod/chip.py:324-326 | an entry is added exactly when it names a line, none of its offsets is negative and it fits 64 lines |
| PythonFrontEnd.AddEntries | bindings/python/gpiod/chip.py:301-326 | the loop yields the lines of the dictionary in order and, when output values are given, one value per line in the same order |
| PythonFrontEnd.BuildConfig | bindings/python/gpiod/chip.py:270-329 | exactly which arguments are accepted, and the config they build |
| PythonFrontEnd.RequestLinesOfChip | bindings/python/gpiod/chip.py:239-345 | exactly when a request comes about; then line k is the one that identifier k of the dictionary stands for, configured as its settings ask, an output starts at the value asked for it and every other line at the level it had, and the offset of every name is kept |
| PythonFrontEnd.OutputsArePositional | bindings/python/gpiod/chip.py:311-329 | each output line is compiled with the value mapped to its own offset, inactive if absent, or its settings' value when none are given |
| PythonFrontEnd.StartingLevel | bindings/python/gpiod/chip.py:311-345 | a line starts active exactly when it is an output whose asked value is active, or not an output and at an active level before |
| PythonFrontEnd.NamesMeanTheSame | bindings/python/gpiod/chip.py:320-322 | the names kept with a request resolve every key of the request's dictionary to the same line as the chip did |
| PythonFrontEnd.ReconfiguringWithSameDictionary | bindings/python/gpiod/line_request.py:175-187 | with the names kept by a request, its own dictionary is accepted and gives every line the settings that it was requested with |
| PythonFrontEnd.LastEntryCounts | bindings/python/gpiod/line_request.py:177-183 | of several entries that name an offset, as an integer or by a kept name, the last one counts |
| PythonFrontEnd.NamesKnownIff | bindings/python/gpiod/line_request.py:95-103 | identifiers are known exactly when the request keeps every name among them |
| PythonFrontEnd.EnterAll | bindings/python/gpiod/line_request.py:177-183 | fails exactly for an unknown name; otherwise each offset maps to the settings of the last entry that names it |
| PythonFrontEnd.BuildInOrder | bindings/python/gpiod/line_request.py:185-187 | the config lists exactly the request's offsets in order |
| PythonFrontEnd.KeptIff | bindings/python/gpiod/line_request.py:168-187 | a line keeps its configuration, whatever that is, exactly when no settings are given for it or settings with direction as-is and no edges |
| PythonFrontEnd.ReconfigureLinesOf | bindings/python/gpiod/line_request.py:156-189 | only an unknown name or the attribute budget can make it fail, and then no line changes; otherwise each line takes its last entry's settings, and a line without an entry, or with None, keeps its flags, period and level |
| IdTree.LeastFreeIsSmall | dbus/manager/helpers.c:31-42 | a new id is at most the number of live ids |
| IdTree.CompareIsOrder | dbus/manager/helpers.c:6-18 | ids are compared as numbers, and only equal ids compare equal |
| IdTree.IdTree.FindLowest | dbus/manager/helpers.c:20-29 | one ascending pass finds the least non-negative id that is not live |
| IdTree.IdTree.Alloc | dbus/manager/helpers.c:31-42 | the new id is the least one that was not live, and is live afterwards |
| IdTree.IdTree.Free | dbus/manager/helpers.c:44-47 | exactly that id is given back |
| Daemon.PathsAreDistinct | dbus/manager/daemon.c:553-605 | different ids have different object paths |
| Daemon.ManagedExactlyByRequest | dbus/manager/daemon.c:139-171 | under the invariant a line is managed with path p exactly when live request p lists it, and unmanaged exactly when none does |
| Daemon.SetManaged | dbus/manager/daemon.c:139-171 | exactly the request's lines change |
| Daemon.Daemon.constructor | dbus/manager/daemon.c:194-210 | the empty tables satisfy the invariant |
| Daemon.Daemon.ExportChip | dbus/manager/daemon.c:677-745 | adds one chip with unmanaged lines and keeps the invariant |
| Daemon.Daemon.RequestLines | dbus/manager/daemon.c:553-675 | files one request under the least free id, whose path, ending in that number, was not in use, as the source asserts; marks exactly its lines, and keeps the invariant |
| Daemon.Daemon.ReleaseLines | dbus/manager/daemon.c:321-345 | removes that request and releases exactly its lines; an unknown path changes nothing |
| Daemon.Daemon.RemoveRequest | dbus/manager/daemon.c:173-192 | removing a request returns its id and unmarks exactly its lines |
| Daemon.Daemon.FreeChip | dbus/manager/daemon.c:87-119 | removes all requests on the chip and no other, in whatever order, and returns their ids |
| Daemon.Daemon.UnexportChip | dbus/manager/daemon.c:747-758 | the chip and all and only its requests disappear, other chips' lines are left alone, and the invariant is kept |
| Period.ParsePeriod | tools/tools-common.c:115-156 | the parser accepts exactly the units and products that the definition of a period gives, wrapping at 2^64 |
| Period.NumberAndUnit | tools/tools-common.c:115-156 | a number and a unit are read as their product exactly when that is at most LLONG_MAX |
| Period.KnownUnits | tools/tools-common.c:115-156 | what each unit counts, no unit standing for milliseconds and a single u for minutes; the product is returned exactly when it is at most LLONG_MAX |
| Period.UnknownUnit | tools/tools-common.c:133-147 | a number with anything else after it is an error |
| Period.CoarsestUnit | tools/tools-common.c:332-348 | a period is printed in the coarsest unit that divides it |
| Period.PrintedPeriodParses | tools/tools-common.c:332-348 | parsing what print_debounce prints gives the period back, or an error exactly above LLONG_MAX |
| Period.WrappedPeriod | tools/tools-common.c:151-153 | an input whose product passes 2^64 and is accepted as a small period |
| Decimal.ValueOfPrint | tools/tools-common.c:347 | the digits that "%lu" prints have the number as their value |
| Decimal.PrintedDigits | tools/tools-common.c:347 | the usual digits, the least significant one last |
| Decimal.StrtoullOfPrint | tools/tools-common.c:120 | strtoull reads a printed number back, or its largest value beyond, and stops before what follows |
| Decimal.StrtoullOfNumeral | tools/tools-common.c:120 | white space, a sign and digits are read as their value, saturating, a minus sign negating modulo 2^64 |
| Decimal.StrtoullConsumes | tools/tools-common.c:120 | only such numerals are consumed |
| Resolver.ParseUintOfPrint | tools/tools-common.c:178-188 | a printed number is an offset exactly when nothing follows it and it is at most INT_MAX |
| Resolver.ParseUintOfNumeral | tools/tools-common.c:178-188 | what a signed or padded numeral stands for |
| Resolver.ParsedUintIsNumeral | tools/tools-common.c:178-188 | no other text is an offset, except the empty one, which counts as 0 |
| Resolver.VisitKeepsProgress | tools/tools-common.c:513-550 | one visited line against one requested id keeps all that the scan has settled, counts a line found exactly once, and reports an ambiguity only where there is one |
| Resolver.AnswerIsUnique | tools/tools-common.c:616-688 | the promise of a search leaves only one answer, so stopping early gives the same one as a full scan |
| Resolver.CountInfoFull | tools/tools-common.c:578-582 | the count reaches the number of ids exactly when every id has been found |
| Resolver.WhenFeasible | tools/tools-common.c:637-656 | a device that may not be opened is passed over unless it is named; one that fails, or a named one that does not open, stops a search that has something left to find |
| Resolver.LineResolver.constructor | tools/tools-common.c:584-614 | a new resolver has found nothing |
| Resolver.LineResolver.ResolveLine | tools/tools-common.c:513-550 | one visited line against all ids: progress and the count are kept, a hit means that a line now sits on the visited chip, without one nothing changes, and lines found before stay where they are |
| Resolver.LineResolver.ResolveLinesByOffset | tools/tools-common.c:558-576 | exactly the ids that are offsets in range are placed on the first chip |
| Resolver.LineResolver.ScanLines | tools/tools-common.c:658-672 | the scan of a chip ends at its last line or as soon as all is found; a chip counts as used exactly when a line has been found on it |
| Resolver.LineResolver.RecordDevice | tools/tools-common.c:676-683 | a chip is recorded exactly when a line has been found on it, and every found line still refers to the chip it was found on |
| Resolver.LineResolver.Search | tools/tools-common.c:637-684 | the search gets through exactly when, in strict mode, no id is ambiguous and no chip in its way cannot be opened; then every id is settled as promised and every recorded chip has a line; when it is given up, there is a reason |
| Resolver.ResolveLines | tools/tools-common.c:616-688 | which command lines get through; each id then resolves to the first line with that name in chip order then offset order, or to its offset on the chosen chip, in strict mode only if nothing else matches; there the text of a number n below the number of lines lands on offset n; unresolved exactly when nothing matches; exactly the chips with a line are recorded |
| Gather.ValidateResolution | tools/tools-common.c:690-721 | passes exactly when every id was found and no two are the same line |
| Gather.ValidatedIdsAreDistinct | tools/tools-common.c:690-721 | after that the ids themselves are all different |
| Gather.ValidatedIff | tools/tools-common.c:690-721 | what validation decides by looking at chips and offsets found is that every id stands for a line of some device and no two ids for the same line |
| Gather.GetLineOffsetsAndValues | tools/tools-common.c:742-761 | a chip's offsets and values in resolver order |
| Gather.SetLineValues | tools/tools-common.c:785-796 | replaces exactly the values of the chip's lines, in the same order |
| Gather.GatheredAtRank | tools/tools-common.c:742-761 | a line's offset and value sit at the same place, the number of earlier lines on its chip |
| Gather.GatheredOffsetsAreDistinct | tools/tools-common.c:690-761 | no offset is gathered twice for a chip |
| Gather.CountsAddUp | tools/tools-common.c:742-761 | the per-chip counts sum to the number of lines |
| Gather.GatheredOnDevice | tools/tools-common.c:742-761 | a recorded chip gathers as many lines as there are ids that stand for lines of its device |
| Gather.ChipsGrantedIff | tools/gpioset.c:931-956 | all recorded chips are granted and within the limit exactly when all devices that some id stands for a line of are |
| Gather.ScatterUndoesGather | tools/tools-common.c:742-796 | putting gathered values back changes nothing |
| Gather.GatherUndoesScatter | tools/tools-common.c:742-796 | gathering gives back what was put in, and other chips are not affected |
| Gpioset.ApplyValues | tools/gpioset.c:351-363 | every line of the resolver ends up at its value, because requests are in gather order |
| Gpioset.RequestChip | tools/gpioset.c:931-956 | a request comes about exactly when the kernel grants it and the chip has 1 to 64 lines; it lists them in gather order and drives them to their values from the start |
| Gpioset.RequestAll | tools/gpioset.c:931-958 | all chips are requested exactly when each is granted and has 1 to 64 lines; then every line is already at its value and the requests fit apply_values |
| Gpioset.FindLines | tools/gpioset.c:916-920 | the lines are found and validated exactly when the search can get through, every id stands for a line and no two for the same line, all of it a matter of ids and devices; whenever the search gets through, the returned resolver is the finished search |
| Gpioset.DriveLines | tools/gpioset.c:916-958 | from ids and values to driven lines, in terms of the ids, the devices and the kernel's answers alone: it gets through exactly when the search can, every id stands for a line, no two for the same line, and every device with such a line is granted and has at most 64 of them; then each id was found as promised and is at the value given for it, and the requests are ready for the shell; whenever the search gets through, the returned resolver is the finished search |
| Shell.PrintAllLineValues | tools/gpioset.c:453-465 | one line of text with an item per line, separated by single spaces |
| Shell.PrintedQuoted | tools/gpioset.c:453-465 | the printed text with quotes, in full |
| Shell.PrintedUnquoted | tools/gpioset.c:453-465 | the printed text without quotes, in full |
| Shell.ValueWords | tools/gpioset.c:230-251 | the four words for active and the four for inactive, and no other |
| Shell.TypedParses | tools/gpioset.c:261-307 | what is typed for an id that reads back is parsed as that id and the value of the text |
| Shell.OneLineReadsBackIff | tools/gpioset.c:230-307 | exactly for which ids a printed item splits off as one word and parses back to its id and value, in either format |
| Shell.QuoteFreeReadsBack | tools/gpioset.c:565-566 | ids without quotes are among them in the quoted format, white space and equals signs included |
| Shell.JoinedWords | tools/gpioset.c:453-602 | a printed line splits into exactly its items |
| ShellBuffer.SplitWords | tools/gpioset.c:568-602 | the in-place splitter counts all words, stores the first ones, and leaves each in the buffer as a terminated string |
| ShellBuffer.ParseInPlace | tools/gpioset.c:267-304 | one word is parsed as specified, its id is left in the buffer as a terminated string, and nothing outside the word changes |
| ShellBuffer.ParseLineValues | tools/gpioset.c:261-307 | succeeds exactly when every word parses, with every id and value in place |
| Interactive.SetSubsetMeaning | tools/gpioset.c:437-451 | among distinct ids each line takes the value last given for it or keeps its own |
| Interactive.SetLineValuesSubset | tools/gpioset.c:437-451 | each id in turn gives its value to the first line that has it |
| Interactive.ValidLines | tools/gpioset.c:516-539 | true exactly when every id belongs to a line |
| Interactive.Trim | tools/gpioset.c:773-774 | white space at the end of the entered line is cut off, the first character never |
| Interactive.NoWordIff | tools/gpioset.c:773-783 | the shell is left without a first word to compare exactly by a line of white space only |
| Interactive.SetCommand | tools/gpioset.c:767-804 | the reply to any line, also an empty one and one without a word; `set` changes exactly the named lines and drives all of them, and with any other reply nothing has changed; setting one line sets it to 1 for 1, active, on and true, to 0 for 0, inactive, off and false, and is refused for any other text without white space |
| Interactive.SetOneLine | tools/gpioset.c:230-307 | the same of the text of the line, with or without quotes, for every id that reads back |
| Interactive.PrintedLineRestoresValues | tools/gpioset.c:437-602 | when the ids are distinct and each printed item reads back by itself, as Shell.OneLineReadsBackIff characterises, entering `set` and a line printed earlier restores every value that it shows, whatever the values are now, exactly when no id contains a newline; otherwise the part that readline delivers is refused and nothing changes |
| Interactive.ToggleAllLines | tools/gpioset.c:366-372 | every value is negated and nothing else changes |
| Interactive.ToggledParity | tools/gpioset.c:366-372 | n toggles in a row make every value alternate: active exactly when it was active and n is even, or inactive and n is odd |
| Interactive.PeriodIndexIsRemainder | tools/gpioset.c:390-401 | turn t sleeps period t modulo the number of periods |
| Interactive.ToggleSequence | tools/gpioset.c:379-402 | for any number of turns, which periods were slept and what the lines show; the sequence ends exactly with a last period of zero, one toggle short of the number of periods |
| Limits.LongPeriodIsCut | lib/line-config.c:363 | a period of 2^32 + 5 microseconds takes effect as 5 |
| Limits.CutPeriodsAreNotShared | lib/line-config.c:366-373 | two periods equal in 32 bits take two attributes where one would do |
| Limits.ImpliedInputsAreNotShared | lib/line-config.c:457-485 | two lines with equal flags take an attribute more than needed |
| Limits.UndirectedEntryIsIgnored | bindings/python/gpiod/line_request.py:185-187 | a line named with nothing but active-low set keeps its configuration |
| Limits.BlankLineHasNoWord | tools/gpioset.c:773-783 | a line of one blank survives trimming and has no word |
| Limits.OddOffsets | tools/tools-common.c:178-188 | no text at all is offset 0, and minus 2^64 - 1 is offset 1 |

## Left out

- Failure of malloc and of ioctl calls other than a refused request: allocation succeeds, and a granted request's calls succeed.
- The device file itself: opening, sysfs checks, polling, and chip and line info objects beyond the fields above.
- Edge events, info events and their buffers.
- The copy of the settings in a node is a value, so a later change to the caller's object cannot reach it; that it is held by reference is not modelled.
- Offsets are natural numbers, not 32-bit ones; only equality of offsets matters here.
- Names and consumer strings of lines in line info objects, and the debug name of a chip.
- Daemon.Daemon.ExportChip: the path on which exporting a chip or its lines fails is not modelled.
- Daemon.Daemon.RequestLines: that the kernel grants only existing, free lines, each once, is a precondition; refused and malformed requests leave the tables alone.
- D-Bus transport, GObject reference counting, udev and signals: each handler is one step on the tables.
- The balanced tree of request ids is its in-order sequence of keys, and ids are not bounded by 2^31.
- Resolver.ResolveLines: the list of chip devices is a parameter; a chip named on the command line stands for exactly one device, and an error while reading a single line's info is not modelled.
- Interactive.SetCommand: what the program does after comparing a word that it has not stored is not modelled, nor are history, completion and the commands `get` and `toggle` with ids, `sleep`, `help` and `exit`.
- LineRequest.LineRequest.ReconfigureLines: a line that is made an input keeps its last level, because what drives it from outside is not modelled.
- Interactive.ToggleSequence: the endless case is modelled by its first turns, any number of them.
- Character classes are those of the C locale, and a character is one unit of the buffer.
- The other tools, option parsing, help texts and time formatting; the C++, GLib and Rust bindings, and the Python extension module.
- PythonFrontEnd.RequestLinesOfChip: keys of the dictionary are single identifiers or tuples of them; the consumer and the event buffer size are passed through in the source and absent here; what int() makes of a string is a parameter.
