# Cloud command framework — a Dafny model of its core

Cloud is a Java command framework. A `CommandManager` takes command
registrations through a lifecycle (before registration, registering, after
registration). It checks permissions built from nodes, predicates and and/or
combinations. It runs commands through preprocessors and an execution
coordinator, and keeps settings, exception handlers and capabilities.
Argument parsers turn the tokens the sender typed into values. The Brigadier
bridge turns Cloud's suggestions into Brigadier (Minecraft) suggestions.

This project models those pieces and proves what they promise. Each source
file has its own module.

| module | file | models |
|---|---|---|
| `Permissions` | permissions.dfy | `CommandManager.testPermission`/`hasPermission`, `PermissionResult`, the legacy `Permission` node |
| `Manager` | command_manager.dfy | the `CommandManager` class: lifecycle, registration, settings, exception handlers, capabilities, root-command deletion |
| `Execution` | execution.dfy | `executeCommand`, `preprocessContext`, `postprocessContext` |
| `ShortArgument` | short_argument.dfy | `ShortParser`, its range and its builder |
| `EnumParser` | enum_parser.dfy | `EnumParser`, `EnumParseable`, `EnumParseException` |
| `CommandComponents` | command_component.dfy | `CommandComponent` and its builder |
| `MappedArgumentParser` | mapped_parser.dfy | a parser whose results go through a mapper |
| `Tuples` | pair.dfy | `Pair` |
| `BrigadierSuggestions` | suggestion_factory.dfy | `BrigadierSuggestionFactory.buildSuggestions` |
| `Input` | input_queue.dfy | the token queue (`CommandInput`) that parsers read from |
| `JavaLang` | java_lang.dfy | the Java library behaviour the core relies on: 32-bit hash codes, ASCII case folding, decimal parsing, `indexOf`, `split` |
| `Wrappers` | wrappers.dfy | `Option`, `Result` |

Modelling choices:

- **Senders and permission checks.** A sender is modelled as the set of
  permission nodes it holds plus the predicate permissions that accept it.
  The platform's own `hasPermission(sender, node)` becomes "the node is in
  that set".
- **Mutable state.** The manager, a command component, both builders and the
  token queue are classes. Their methods state the whole new state.
  Everything else is values and functions.
- **Outside services.** The command tree, the service pipeline, the execution
  coordinator and Cloud's suggestion provider are not part of this model.
  They appear as parameters: each is a boolean verdict, a list of detached
  commands, or a function giving either a result or an exception.
- **Exceptions.** An exception the core throws becomes an error value that is
  returned (`Option`, `Result`, or a dedicated datatype).

## Model

| member | source | states |
|---|---|---|
| `Permissions.TestPermissionMeansHolds` | cloud-core/src/main/java/cloud/commandframework/CommandManager.java:422-455 | `testPermission` succeeds exactly when the permission holds: an empty permission always holds; a node holds when granted; a predicate holds when it accepts the sender; an or holds when one of its children holds; an and holds when all of them hold |
| `Permissions.TestPermission` | cloud-core/src/main/java/cloud/commandframework/CommandManager.java:425-455 | an empty permission gives a succeeded result for itself, with no lookup; a non-empty node succeeds exactly when it is granted, and a predicate exactly when it accepts the sender, each with itself as origin |
| `Permissions.FirstSucceeding` | cloud-core/src/main/java/cloud/commandframework/CommandManager.java:437-444 | the or loop fails only with FALSE for the or permission itself; its successes are its first succeeding child's result (`FirstSucceedingFrom`) |
| `Permissions.FirstFailing` | cloud-core/src/main/java/cloud/commandframework/CommandManager.java:445-452 | the and loop succeeds only with TRUE for the and permission itself; its failures are its first failing child's result (`FirstFailingFrom`) |
| `Permissions.IsEmpty` | cloud-core/src/main/java/cloud/commandframework/CommandManager.java:429 | the emptiness test `testPermission` starts with; it has no contract of its own, and `EmptyAlwaysSucceeds` and `EmptyHolds` state its use |
| `Permissions.Holds` | cloud-core/src/main/java/cloud/commandframework/CommandManager.java:425-455 | the meaning of a permission independent of evaluation order: the reference definition that `TestPermissionMeansHolds` and `HasPermission` connect the evaluator to; no contract of its own |
| `Permissions.HasPermission` | cloud-core/src/main/java/cloud/commandframework/CommandManager.java:407-412 | `hasPermission` is true exactly when the permission holds |
| `Permissions.EmptyAlwaysSucceeds` | cloud-core/src/main/java/cloud/commandframework/CommandManager.java:429-430 | an empty permission succeeds for every sender, with no lookup |
| `Permissions.EmptyHolds` | cloud-core/src/main/java/cloud/commandframework/CommandManager.java:398-401 | an empty permission holds for every sender |
| `Permissions.FirstSucceedingMeansSome` | cloud-core/src/main/java/cloud/commandframework/CommandManager.java:437-444 | the or loop succeeds exactly when a child from the current index on succeeds |
| `Permissions.FirstFailingMeansAll` | cloud-core/src/main/java/cloud/commandframework/CommandManager.java:445-452 | the and loop succeeds exactly when every child from the current index on succeeds |
| `Permissions.FirstSucceedingFrom` | cloud-core/src/main/java/cloud/commandframework/CommandManager.java:438-441 | the or loop returns the result of the first child that succeeds |
| `Permissions.NoneSucceedingFrom` | cloud-core/src/main/java/cloud/commandframework/CommandManager.java:444 | the or loop returns FALSE when no remaining child succeeds |
| `Permissions.FirstFailingFrom` | cloud-core/src/main/java/cloud/commandframework/CommandManager.java:446-449 | the and loop returns the result of the first child that fails |
| `Permissions.NoneFailingFrom` | cloud-core/src/main/java/cloud/commandframework/CommandManager.java:452 | the and loop returns TRUE when no remaining child fails |
| `Permissions.OrReturnsFirstSuccess` | cloud-core/src/main/java/cloud/commandframework/CommandManager.java:437-441 | a non-empty or permission short-circuits to its first succeeding child's own result |
| `Permissions.OrWithoutSuccessFails` | cloud-core/src/main/java/cloud/commandframework/CommandManager.java:444 | a non-empty or permission with no succeeding child fails |
| `Permissions.AndReturnsFirstFailure` | cloud-core/src/main/java/cloud/commandframework/CommandManager.java:445-449 | a non-empty and permission short-circuits to its first failing child's own result |
| `Permissions.AndWithoutFailureSucceeds` | cloud-core/src/main/java/cloud/commandframework/CommandManager.java:452 | an and permission whose children all succeed succeeds |
| `Permissions.AndOfOrExample` | cloud-core/src/main/java/cloud/commandframework/CommandManager.java:437-452 | and(a, or(b, c)) holds for a sender granted {a, b} or {a, c}, and not for one granted {b, c} |
| `Permissions.Of` | cloud-core/src/main/java/cloud/commandframework/permission/PermissionResult.java:73-75 | `of(result, permission)` records both; `failed()` is the negation of `succeeded()` |
| `Permissions.SucceededFor` | cloud-core/src/main/java/cloud/commandframework/permission/PermissionResult.java:83-85 | a succeeded result for that permission |
| `Permissions.FailedFor` | cloud-core/src/main/java/cloud/commandframework/permission/PermissionResult.java:93-95 | a failed result for that permission |
| `Permissions.FactoriesAgree` | cloud-core/src/main/java/cloud/commandframework/permission/PermissionResult.java:48-95 | `succeeded(p)` is `of(true, p)`; `failed(p)` is `of(false, p)`; every result either failed or succeeded |
| `Permissions.Empty` | cloud-core/src/main/java/com/intellectualsites/commands/permission/Permission.java:39-55 | `empty()` is the shared node with the empty string |
| `Permissions.OfNode` | cloud-core/src/main/java/com/intellectualsites/commands/permission/Permission.java:64-93 | `of(s)` gives a node whose `getPermission()` and `toString()` are s |
| `Permissions.GetPermission` | cloud-core/src/main/java/com/intellectualsites/commands/permission/Permission.java:74-76 | the node string; `OfNode` and `LeafEqualityIsValueEquality` state its round trip; no contract of its own |
| `Permissions.Equals` | cloud-core/src/main/java/com/intellectualsites/commands/permission/Permission.java:95-105 | nodes compare by their strings; `LeafEqualityIsValueEquality` states that this is value equality |
| `Permissions.HashCode` | cloud-core/src/main/java/com/intellectualsites/commands/permission/Permission.java:107-110 | `Objects.hash` of the node string; `LeafEqualityIsValueEquality` states that equal nodes hash alike |
| `Permissions.GetPermissions` | cloud-core/src/main/java/com/intellectualsites/commands/permission/Permission.java:79-82 | a node's permission collection is the node alone |
| `Permissions.LeafEqualityIsValueEquality` | cloud-core/src/main/java/com/intellectualsites/commands/permission/Permission.java:95-110 | two nodes are equal exactly when their strings are; equal nodes hash alike; a node copied through its string is equal to it |
| `Manager.RemoveFirst` | cloud-core/src/main/java/cloud/commandframework/CommandManager.java:538 | `LinkedList.remove(Object)`: a command that is not registered leaves the list unchanged; otherwise exactly its first occurrence goes and the other commands keep their order |
| `Manager.FirstIndex` | cloud-core/src/main/java/cloud/commandframework/CommandManager.java:538 | where `LinkedList.remove(Object)` removes: an occurrence of the command with none before it |
| `Manager.RemoveFirstMultiset` | cloud-core/src/main/java/cloud/commandframework/CommandManager.java:105 | removing a command from the registered list takes exactly one occurrence of it out |
| `Manager.RemoveEach` | cloud-core/src/main/java/cloud/commandframework/CommandManager.java:538 | one removal per detached command, in the order they are detached; no contract of its own, `RemoveEachMultiset` states its effect |
| `Manager.RemoveEachMultiset` | cloud-core/src/main/java/cloud/commandframework/CommandManager.java:537-538 | removing every detached command takes exactly the detached commands out |
| `Manager.CommandManager.constructor` | cloud-core/src/main/java/cloud/commandframework/CommandManager.java:98-143 | a new manager is before registration, enforces intermediary permissions only, and has no handlers, capabilities or commands |
| `Manager.CommandManager.TransitionIfPossible` | cloud-core/src/main/java/cloud/commandframework/CommandManager.java:1114-1117 | compare-and-set from `in` to `out`; true when the state was `in` or was already `out` |
| `Manager.CommandManager.RegistrationStateNow` | cloud-core/src/main/java/cloud/commandframework/CommandManager.java:1159-1161 | reads the current state; no contract of its own |
| `Manager.CommandManager.TransitionOrThrow` | cloud-core/src/main/java/cloud/commandframework/CommandManager.java:1098-1104 | the same transition, throwing (naming the actual and the expected states) when neither holds |
| `Manager.CommandManager.RequireState` | cloud-core/src/main/java/cloud/commandframework/CommandManager.java:1126-1131 | throws exactly when the state is not the expected one |
| `Manager.CommandManager.LockRegistration` | cloud-core/src/main/java/cloud/commandframework/CommandManager.java:1141-1148 | from every state, ends after registration without an error |
| `Manager.CommandManager.IsCommandRegistrationAllowed` | cloud-core/src/main/java/cloud/commandframework/CommandManager.java:1172-1175 | allowed exactly when unsafe registration is on or registration is not locked |
| `Manager.CommandManager.Command` | cloud-core/src/main/java/cloud/commandframework/CommandManager.java:233-243 | refused exactly when locked without unsafe registration; otherwise the first registration starts the registering state and an accepted command is appended; the state never moves back |
| `Manager.CommandManager.SetRegistrationHandler` | cloud-core/src/main/java/cloud/commandframework/CommandManager.java:355-359 | the handler is replaced only before registration; otherwise it fails as `requireState` does |
| `Manager.CommandManager.GetRegistrationHandler` | cloud-core/src/main/java/cloud/commandframework/CommandManager.java:351-353 | reads the current registration handler; no contract of its own, `SetRegistrationHandler` states how it changes |
| `Manager.CommandManager.GetSetting` | cloud-core/src/main/java/cloud/commandframework/CommandManager.java:1055-1057 | a setting is on exactly when it is in the setting set |
| `Manager.CommandManager.SetSetting` | cloud-core/src/main/java/cloud/commandframework/CommandManager.java:1068-1077 | the setting takes the value; every other setting is unchanged |
| `Manager.CommandManager.RegisterExceptionHandler` | cloud-core/src/main/java/cloud/commandframework/CommandManager.java:975-980 | the handler for that class is replaced; other classes keep theirs |
| `Manager.CommandManager.GetExceptionHandler` | cloud-core/src/main/java/cloud/commandframework/CommandManager.java:944-951 | the handler registered for exactly that class, or none |
| `Manager.CommandManager.HandleException` | cloud-core/src/main/java/cloud/commandframework/CommandManager.java:993-1000 | the registered handler receives the exception, else the default one |
| `Manager.CommandManager.RegisterCapability` | cloud-core/src/main/java/cloud/commandframework/CommandManager.java:370-372 | the capability is added to the set |
| `Manager.CommandManager.HasCapability` | cloud-core/src/main/java/cloud/commandframework/CommandManager.java:383-385 | true exactly for registered capabilities |
| `Manager.CommandManager.Capabilities` | cloud-core/src/main/java/cloud/commandframework/CommandManager.java:395-397 | the snapshot holds exactly the registered capabilities |
| `Manager.CommandManager.DeleteRootCommand` | cloud-core/src/main/java/cloud/commandframework/CommandManager.java:522-540 | without the deletion capability it throws and changes nothing; when no node is found nothing changes; otherwise each detached command is removed once |
| `Manager.TwoRegistrations` | cloud-core/src/main/java/cloud/commandframework/CommandManager.java:233-243 | two registrations from a new manager both return without an error, leave it registering and keep both commands in order |
| `Manager.LockedRegistration` | cloud-core/src/main/java/cloud/commandframework/CommandManager.java:233-243 | after locking, a registration is refused; once unsafe registration is on it goes through and the state stays locked |
| `Execution.Verdict` | cloud-core/src/main/java/cloud/commandframework/CommandManager.java:853-855 | accepted exactly when the indicator key holds a non-empty string |
| `Execution.PreprocessContext` | cloud-core/src/main/java/cloud/commandframework/CommandManager.java:844-856 | the preprocessors receive the context and the input queue; their exception propagates; otherwise the verdict is read off the context they leave behind |
| `Execution.PostprocessContext` | cloud-core/src/main/java/cloud/commandframework/CommandManager.java:865-877 | the same, with the postprocessors and their own key |
| `Execution.NewContext` | cloud-core/src/main/java/cloud/commandframework/CommandManager.java:181-188 | a new context holds the sender and the raw input, and is rejected by both verdicts until a processor marks it |
| `Execution.ExecuteCommand` | cloud-core/src/main/java/cloud/commandframework/CommandManager.java:177-200 | every path is pinned: a preprocessor exception completes exceptionally with it; a rejected context completes with null; an accepted one gives the coordinator its context and the input the preprocessors left, and yields exactly the future the coordinator returns, or completes exceptionally with the exception it raises |
| `Execution.RejectionIgnoresCoordinator` | cloud-core/src/main/java/cloud/commandframework/CommandManager.java:190-199 | a rejected command completes with null whatever the coordinator would do |
| `Execution.ExceptionsCompleteExceptionally` | cloud-core/src/main/java/cloud/commandframework/CommandManager.java:193-197 | an exception from the preprocessors or from the coordinator completes the future exceptionally with that exception |
| `Execution.UntouchedContextIsRejected` | cloud-core/src/main/java/cloud/commandframework/CommandManager.java:849-855 | with processors that mark nothing, a command completes with null |
| `Execution.AcceptedReachesCoordinator` | cloud-core/src/main/java/cloud/commandframework/CommandManager.java:190-191 | a preprocessor that sets the indicator lets the coordinator's future through |
| `Execution.ConsumedInputReachesCoordinator` | cloud-core/src/main/java/cloud/commandframework/CommandManager.java:186-191 | a token a preprocessor consumes is gone from the input the coordinator receives, while the context keeps the whole raw input |
| `Execution.IndicatorsAreIndependent` | cloud-core/src/main/java/cloud/commandframework/CommandManager.java:853-876 | marking the preprocessing indicator accepts preprocessing without accepting postprocessing |
| `ShortArgument.ShortParser.IsContextFree` | cloud-core/src/main/java/cloud/commandframework/arguments/standard/ShortArgument.java:214-217 | the parser is context free |
| `ShortArgument.ShortParser.HasMin` | cloud-core/src/main/java/cloud/commandframework/arguments/standard/ShortArgument.java:265-267 | true exactly when the minimum is not the default; `Builder.Build` states it for a built parser, with no contract of its own |
| `ShortArgument.ShortParser.HasMax` | cloud-core/src/main/java/cloud/commandframework/arguments/standard/ShortArgument.java:253-255 | true exactly when the maximum is not the default; `Builder.Build` states it for a built parser, with no contract of its own |
| `ShortArgument.ParseShortNumber` | cloud-core/src/main/java/cloud/commandframework/arguments/standard/ShortArgument.java:202-203 | `Short.parseShort` succeeds exactly for a decimal within -32768..32767, giving its value |
| `ShortArgument.Parse` | cloud-core/src/main/java/cloud/commandframework/arguments/standard/ShortArgument.java:194-212 | no input fails with "no input provided"; otherwise succeeds exactly for a short within [min, max] and consumes it; any failure names the token and the range and consumes nothing |
| `ShortArgument.ParseQueue` | cloud-core/src/main/java/cloud/commandframework/arguments/standard/ShortArgument.java:194-212 | parsing from a token queue returns the result and leaves the queue as `Parse` says |
| `ShortArgument.ParseRoundTrip` | cloud-core/src/main/java/cloud/commandframework/arguments/standard/ShortArgument.java:201-208 | a short within range, written in decimal, parses back to itself and consumes one token |
| `ShortArgument.EmptyRangeRejects` | cloud-core/src/main/java/cloud/commandframework/arguments/standard/ShortArgument.java:204-205 | a parser with min above max rejects every input |
| `ShortArgument.DefaultRangeIsShortParse` | cloud-core/src/main/java/cloud/commandframework/arguments/standard/ShortArgument.java:169-177 | with the default range, exactly the strings `Short.parseShort` accepts parse |
| `ShortArgument.ParseExamples` | cloud-core/src/main/java/cloud/commandframework/arguments/standard/ShortArgument.java:194-212 | "3" parses and leaves the rest; "40000" is out of range; "abc" and "-1" fail against [0, 10] |
| `ShortArgument.Builder.constructor` | cloud-core/src/main/java/cloud/commandframework/arguments/standard/ShortArgument.java:120-127 | a builder starts with the default range |
| `ShortArgument.Builder.WithMin` | cloud-core/src/main/java/cloud/commandframework/arguments/standard/ShortArgument.java:135-138 | sets the minimum only |
| `ShortArgument.Builder.WithMax` | cloud-core/src/main/java/cloud/commandframework/arguments/standard/ShortArgument.java:146-149 | sets the maximum only |
| `ShortArgument.Builder.Build` | cloud-core/src/main/java/cloud/commandframework/arguments/standard/ShortArgument.java:152-155 | the argument parses with the builder's range; `hasMin`/`hasMax` are true exactly off the defaults |
| `ShortArgument.BuildDefault` | cloud-core/src/main/java/cloud/commandframework/arguments/standard/ShortArgument.java:96-98 | `of(name)` has the full short range, with neither bound set |
| `EnumParser.ParseableOf` | cloud-core/src/main/java/org/incendo/cloud/parser/standard/EnumParser.java:228-267 | a constant that implements `EnumParseable` is used as it is; any other is wrapped, with its lower-cased name as display name; both give back the constant |
| `EnumParser.StringSuggestions` | cloud-core/src/main/java/org/incendo/cloud/parser/standard/EnumParser.java:125-133 | one suggestion per constant, in declaration order, each its display name |
| `EnumParser.DisplayNames` | cloud-core/src/main/java/org/incendo/cloud/parser/standard/EnumParser.java:166-171 | one display name per constant, in declaration order |
| `EnumParser.SuggestionsIgnoreInput` | cloud-core/src/main/java/org/incendo/cloud/parser/standard/EnumParser.java:125-133 | the suggestions do not depend on what was typed |
| `EnumParser.JoinAppend` | cloud-core/src/main/java/org/incendo/cloud/parser/standard/EnumParser.java:166-172 | joining one more name appends the separator and the name |
| `EnumParser.Join` | cloud-core/src/main/java/org/incendo/cloud/parser/standard/EnumParser.java:171 | `Collectors.joining(sep)`; no contract of its own, `JoinAppend` states how one more part is joined |
| `EnumParser.EnumParseException.AcceptableValues` | cloud-core/src/main/java/org/incendo/cloud/parser/standard/EnumParser.java:159-172 | the display names of all constants joined with ", "; `ColourRejectsPurple` works one out; no contract of its own |
| `EnumParser.EnumParseException.CaptionVariables` | cloud-core/src/main/java/org/incendo/cloud/parser/standard/EnumParser.java:158-159 | the failure carries two caption variables, in order: "input" with the rejected token, then "acceptableValues"; `ColourRejectsPurple` works out both values |
| `EnumParser.EnumParseException.Equals` | cloud-core/src/main/java/org/incendo/cloud/parser/standard/EnumParser.java:193-202 | the input and the enum class decide; `ExceptionEqualityIsEquivalence` states that it is an equivalence |
| `EnumParser.ExceptionEqualityIsEquivalence` | cloud-core/src/main/java/org/incendo/cloud/parser/standard/EnumParser.java:192-202 | exception equality is an equivalence, and compares exactly the input and the enum class |
| `EnumParser.FirstMatchFrom` | cloud-core/src/main/java/org/incendo/cloud/parser/standard/EnumParser.java:115-120 | the first constant, from the given index on, whose display name equals the token ignoring case, or none |
| `EnumParser.Parse` | cloud-core/src/main/java/org/incendo/cloud/parser/standard/EnumParser.java:109-123 | reads one token; succeeds exactly when some constant matches it, with the first such constant; otherwise fails with an exception naming the token |
| `EnumParser.ParseInput` | cloud-core/src/main/java/org/incendo/cloud/parser/standard/EnumParser.java:109-123 | the loop over the constants computes what `Parse` states, and consumes the token |
| `EnumParser.SuggestionsParse` | cloud-core/src/main/java/org/incendo/cloud/parser/standard/EnumParser.java:109-133 | every suggestion, typed back as a token, parses successfully and consumes exactly that token |
| `EnumParser.NameParsesInAnyCase` | cloud-core/src/main/java/org/incendo/cloud/parser/standard/EnumParser.java:115-120 | the name of a plain constant parses in any letter case |
| `EnumParser.ColourNames` | cloud-core/src/main/java/org/incendo/cloud/parser/standard/EnumParser.java:260-262 | the enum RED, GREEN, BLUE has display names red, green, blue |
| `EnumParser.ColourRed` | cloud-core/src/main/java/org/incendo/cloud/parser/standard/EnumParser.java:115-120 | any casing of "red" parses to RED |
| `EnumParser.ColourParsesInAnyCase` | cloud-core/src/main/java/org/incendo/cloud/parser/standard/EnumParser.java:115-120 | "RED", "red" and "Red" all parse to RED |
| `EnumParser.RedSpellings` | cloud-core/src/main/java/org/incendo/cloud/parser/standard/EnumParser.java:117 | "red" and "Red" each equal "RED" ignoring case (a step of `ColourParsesInAnyCase`) |
| `EnumParser.ColourRejectsPurple` | cloud-core/src/main/java/org/incendo/cloud/parser/standard/EnumParser.java:122-172 | "purple" fails naming itself; the acceptable values read "red, green, blue", and the caption variables are input "purple" and acceptableValues "red, green, blue" |
| `CommandComponents.CheckArgumentsAsWritten` | src/main/java/com/intellectualsites/commands/components/CommandComponent.java:64-72 | the constructor's checks as written, in order: a null name fails with its null-pointer error, a name with no alphanumeric character anywhere with "Name must be alphanumeric", then a null parser with its null-pointer error; otherwise there is no error |
| `CommandComponents.CheckArguments` | src/main/java/com/intellectualsites/commands/components/CommandComponent.java:64-72 | the name is non-null and wholly alphanumeric, and the parser is non-null, each failure with its own exception |
| `CommandComponents.NameCheckAcceptsNonAlphanumeric` | src/main/java/com/intellectualsites/commands/components/CommandComponent.java:41-70 | the check as written accepts "a-b" and rejects "--" |
| `CommandComponents.CorrectedCheckIsStricter` | src/main/java/com/intellectualsites/commands/components/CommandComponent.java:41-70 | every component the corrected check accepts is also accepted as written, and the two agree on alphanumeric names |
| `CommandComponents.CommandComponent.constructor` | src/main/java/com/intellectualsites/commands/components/CommandComponent.java:41-72 | a component, once its name has passed the check as written, keeps its required flag, name and parser, and has no owning command yet |
| `CommandComponents.CommandComponent.GetOwningCommand` | src/main/java/com/intellectualsites/commands/components/CommandComponent.java:122-124 | the owning command, none until it is set; `OwnerIsWriteOnce` states its value after two attempts; no contract of its own |
| `CommandComponents.CommandComponent.Equals` | src/main/java/com/intellectualsites/commands/components/CommandComponent.java:139-149 | the required flag and the name decide; `ComponentEqualityIsConsistent` states that it is an equivalence |
| `CommandComponents.CommandComponent.HashCode` | src/main/java/com/intellectualsites/commands/components/CommandComponent.java:151-153 | Guava's `Objects.hashCode(required, name)`; `ComponentEqualityIsConsistent` states that equal components hash alike |
| `CommandComponents.CommandComponent.SetOwningCommand` | src/main/java/com/intellectualsites/commands/components/CommandComponent.java:131-136 | the owning command can be set once; a second attempt throws and keeps the first |
| `CommandComponents.ComponentEqualityIsConsistent` | src/main/java/com/intellectualsites/commands/components/CommandComponent.java:138-153 | equality compares the required flag and the name; it is an equivalence, and equal components hash alike |
| `CommandComponents.OwnerIsWriteOnce` | src/main/java/com/intellectualsites/commands/components/CommandComponent.java:131-136 | after two `setOwningCommand` calls, the first owner remains |
| `CommandComponents.Builder.constructor` | src/main/java/com/intellectualsites/commands/components/CommandComponent.java:156-164 | a builder starts with no name, required, and no parser |
| `CommandComponents.Builder.Named` | src/main/java/com/intellectualsites/commands/components/CommandComponent.java:171-174 | sets the name |
| `CommandComponents.Builder.AsRequired` | src/main/java/com/intellectualsites/commands/components/CommandComponent.java:185-188 | marks the component required |
| `CommandComponents.Builder.AsOptional` | src/main/java/com/intellectualsites/commands/components/CommandComponent.java:199-202 | marks the component optional |
| `CommandComponents.Builder.WithParser` | src/main/java/com/intellectualsites/commands/components/CommandComponent.java:210-213 | sets the parser; a null parser is refused |
| `CommandComponents.Builder.Build` | src/main/java/com/intellectualsites/commands/components/CommandComponent.java:220-222 | fails exactly when the constructor's checks as written fail, with their exception; otherwise a component with the builder's fields and no owner |
| `CommandComponents.BuildAcceptsNonAlphanumericName` | src/main/java/com/intellectualsites/commands/components/CommandComponent.java:41-72 | the builder builds a component named "a-b", which the corrected check would refuse |
| `MappedArgumentParser.ThenCompose` | cloud-core/src/main/java/cloud/commandframework/arguments/parser/MappedArgumentParser.java:71-72 | a failed future stays failed; a completed one continues with its value |
| `MappedArgumentParser.GetBaseParser` | cloud-core/src/main/java/cloud/commandframework/arguments/parser/MappedArgumentParser.java:62-64 | the base parser; `Map` keeps it; no contract of its own |
| `MappedArgumentParser.Suggestions` | cloud-core/src/main/java/cloud/commandframework/arguments/parser/MappedArgumentParser.java:76-81 | the base parser's suggestions; `MapKeepsDelegates` states the delegation; no contract of its own |
| `MappedArgumentParser.IsContextFree` | cloud-core/src/main/java/cloud/commandframework/arguments/parser/MappedArgumentParser.java:94-96 | the base parser's answer; `MapKeepsDelegates` states the delegation; no contract of its own |
| `MappedArgumentParser.GetRequestedArgumentCount` | cloud-core/src/main/java/cloud/commandframework/arguments/parser/MappedArgumentParser.java:99-101 | the base parser's count; `MapKeepsDelegates` states the delegation; no contract of its own |
| `MappedArgumentParser.ParseFuture` | cloud-core/src/main/java/cloud/commandframework/arguments/parser/MappedArgumentParser.java:66-73 | the base parser's failure propagates; its value goes through the mapper; the input is consumed as the base parser consumes it |
| `MappedArgumentParser.Map` | cloud-core/src/main/java/cloud/commandframework/arguments/parser/MappedArgumentParser.java:83-91 | mapping again keeps the same base parser |
| `MappedArgumentParser.AsParser` | cloud-core/src/main/java/cloud/commandframework/arguments/parser/MappedArgumentParser.java:93-101 | seen as a parser, it is context free exactly when the base parser is, and requests as many arguments as the base parser does |
| `MappedArgumentParser.BaseFailureIgnoresMapper` | cloud-core/src/main/java/cloud/commandframework/arguments/parser/MappedArgumentParser.java:71-72 | when the base parser fails, no mapper changes the result |
| `MappedArgumentParser.MapComposes` | cloud-core/src/main/java/cloud/commandframework/arguments/parser/MappedArgumentParser.java:83-91 | parsing with a re-mapped parser is parsing with the old one and then applying the new mapper |
| `MappedArgumentParser.MapKeepsDelegates` | cloud-core/src/main/java/cloud/commandframework/arguments/parser/MappedArgumentParser.java:75-101 | suggestions, context freedom and requested argument count are the base parser's, before and after mapping |
| `Tuples.Of` | cloud-core/src/main/java/com/intellectualsites/commands/types/tuples/Pair.java:59-82 | `of(u, v)` gives back u as first and v as second |
| `Tuples.GetFirst` | cloud-core/src/main/java/com/intellectualsites/commands/types/tuples/Pair.java:70-72 | the first component; `Of` states it; no contract of its own |
| `Tuples.GetSecond` | cloud-core/src/main/java/com/intellectualsites/commands/types/tuples/Pair.java:80-82 | the second component; `Of` states it; no contract of its own |
| `Tuples.Equals` | cloud-core/src/main/java/com/intellectualsites/commands/types/tuples/Pair.java:85-95 | both components equal; `PairEquality` states that this is value equality |
| `Tuples.HashCode` | cloud-core/src/main/java/com/intellectualsites/commands/types/tuples/Pair.java:98-100 | Guava's `Objects.hashCode(first, second)`; `PairEquality` states that equal pairs hash alike |
| `Tuples.ToString` | cloud-core/src/main/java/com/intellectualsites/commands/types/tuples/Pair.java:102-105 | "(first, second)" |
| `Tuples.PairEquality` | cloud-core/src/main/java/com/intellectualsites/commands/types/tuples/Pair.java:84-100 | pairs are equal exactly when both elements are; equal pairs hash alike; rebuilding a pair from its getters gives an equal pair |
| `BrigadierSuggestions.SuggestionsBuilder.Suggest` | cloud-minecraft/cloud-brigadier/src/main/java/cloud/commandframework/brigadier/BrigadierSuggestionFactory.java:129 | adds a suggestion over the rest of the input with the tooltip, unless it is what is already typed |
| `BrigadierSuggestions.SuggestionsBuilder.CreateOffset` | cloud-minecraft/cloud-brigadier/src/main/java/cloud/commandframework/brigadier/BrigadierSuggestionFactory.java:117 | a fresh builder over the same input from the new start |
| `BrigadierSuggestions.StripSlash` | cloud-minecraft/cloud-brigadier/src/main/java/cloud/commandframework/brigadier/BrigadierSuggestionFactory.java:81-83 | one leading '/' is dropped, and nothing else changes |
| `BrigadierSuggestions.CommandLine` | cloud-minecraft/cloud-brigadier/src/main/java/cloud/commandframework/brigadier/BrigadierSuggestionFactory.java:78-92 | without a mapped sender, the input less its slash; with one, the input from the first parsed node on, failing when that start lies past the end |
| `BrigadierSuggestions.FirstWord` | cloud-minecraft/cloud-brigadier/src/main/java/cloud/commandframework/brigadier/BrigadierSuggestionFactory.java:95 | the prefix before the first space |
| `BrigadierSuggestions.StripNamespace` | cloud-minecraft/cloud-brigadier/src/main/java/cloud/commandframework/brigadier/BrigadierSuggestionFactory.java:94-98 | when the first word contains ':', the command after its first ':'; otherwise the command unchanged |
| `BrigadierSuggestions.StripNamespaceAsWritten` | cloud-minecraft/cloud-brigadier/src/main/java/cloud/commandframework/brigadier/BrigadierSuggestionFactory.java:94-98 | the code as written throws `ArrayIndexOutOfBoundsException` exactly when the command is all spaces or its first word is all colons |
| `BrigadierSuggestions.StripNamespaceAgrees` | cloud-minecraft/cloud-brigadier/src/main/java/cloud/commandframework/brigadier/BrigadierSuggestionFactory.java:94-98 | whenever the code as written does not throw, it gives the intended result |
| `BrigadierSuggestions.StripNamespaceCrashes` | cloud-minecraft/cloud-brigadier/src/main/java/cloud/commandframework/brigadier/BrigadierSuggestionFactory.java:79-98 | "/ " leaves " ", and " " and ":" make the code as written throw, while the intended removal gives " " and "" |
| `BrigadierSuggestions.StripNamespaceExamples` | cloud-minecraft/cloud-brigadier/src/main/java/cloud/commandframework/brigadier/BrigadierSuggestionFactory.java:94-98 | "mc:tp x" becomes "tp x"; "give a:b" is kept |
| `BrigadierSuggestions.NamespacedExample` | cloud-minecraft/cloud-brigadier/src/main/java/cloud/commandframework/brigadier/BrigadierSuggestionFactory.java:94-98 | "mc:tp x" becomes "tp x" (a step of `StripNamespaceExamples`) |
| `BrigadierSuggestions.PlainExample` | cloud-minecraft/cloud-brigadier/src/main/java/cloud/commandframework/brigadier/BrigadierSuggestionFactory.java:94-98 | "give a:b", whose first word has no colon, is kept (a step of `StripNamespaceExamples`) |
| `BrigadierSuggestions.FirstColonOfPrefix` | cloud-minecraft/cloud-brigadier/src/main/java/cloud/commandframework/brigadier/BrigadierSuggestionFactory.java:96-97 | the first ':' of a prefix holding one is the first ':' of the whole command, so cutting after it agrees with the code |
| `BrigadierSuggestions.IndexOfIs` | cloud-minecraft/cloud-brigadier/src/main/java/cloud/commandframework/brigadier/BrigadierSuggestionFactory.java:96-97 | a position holding c with no c before it is `indexOf(c)` |
| `BrigadierSuggestions.LastIndexOfIs` | cloud-minecraft/cloud-brigadier/src/main/java/cloud/commandframework/brigadier/BrigadierSuggestionFactory.java:115 | a position holding c with no c after it is `lastIndexOf(c)` |
| `BrigadierSuggestions.SiblingLiterals` | cloud-minecraft/cloud-brigadier/src/main/java/cloud/commandframework/brigadier/BrigadierSuggestionFactory.java:104-108 | exactly the aliases of the parent's children |
| `BrigadierSuggestions.RemoveIf` | cloud-minecraft/cloud-brigadier/src/main/java/cloud/commandframework/brigadier/BrigadierSuggestionFactory.java:110 | `removeIf`: keeps exactly the listed entries that are not in the removed set, never lengthening the list |
| `BrigadierSuggestions.RemoveIfCounts` | cloud-minecraft/cloud-brigadier/src/main/java/cloud/commandframework/brigadier/BrigadierSuggestionFactory.java:110 | every kept entry keeps all its occurrences and every removed one loses all of them |
| `BrigadierSuggestions.RemoveIfOne` | cloud-minecraft/cloud-brigadier/src/main/java/cloud/commandframework/brigadier/BrigadierSuggestionFactory.java:110 | a one-entry list is kept or emptied |
| `BrigadierSuggestions.RemoveIfSnoc` | cloud-minecraft/cloud-brigadier/src/main/java/cloud/commandframework/brigadier/BrigadierSuggestionFactory.java:110 | removing from a list with one more entry at the end is removing from the list, then keeping or dropping that entry |
| `BrigadierSuggestions.RemoveIfConcat` | cloud-minecraft/cloud-brigadier/src/main/java/cloud/commandframework/brigadier/BrigadierSuggestionFactory.java:110 | removing from two lists joined is removing from each and joining the results: the kept entries stay in their order |
| `BrigadierSuggestions.RemoveIfNothing` | cloud-minecraft/cloud-brigadier/src/main/java/cloud/commandframework/brigadier/BrigadierSuggestionFactory.java:110 | removing nothing keeps the list, order included |
| `BrigadierSuggestions.FilterSiblings` | cloud-minecraft/cloud-brigadier/src/main/java/cloud/commandframework/brigadier/BrigadierSuggestionFactory.java:101-111 | at the root every suggestion is kept; under a parent, exactly those that are not a sibling's alias, each with all its occurrences |
| `BrigadierSuggestions.FilterSiblingsConcat` | cloud-minecraft/cloud-brigadier/src/main/java/cloud/commandframework/brigadier/BrigadierSuggestionFactory.java:101-111 | filtering two lists joined is filtering each and joining the results, so the order of the kept suggestions is kept |
| `BrigadierSuggestions.FilterSiblingsOne` | cloud-minecraft/cloud-brigadier/src/main/java/cloud/commandframework/brigadier/BrigadierSuggestionFactory.java:101-111 | a single suggestion is kept exactly when there is no parent or it is not a sibling's alias |
| `BrigadierSuggestions.OffsetBuilder` | cloud-minecraft/cloud-brigadier/src/main/java/cloud/commandframework/brigadier/BrigadierSuggestionFactory.java:113-118 | the suggestions replace only the last word: the new remaining text has no space; an offset starts just past a space |
| `BrigadierSuggestions.Tooltip` | cloud-minecraft/cloud-brigadier/src/main/java/cloud/commandframework/brigadier/BrigadierSuggestionFactory.java:121-128 | a literal is named bare; a required argument as <name>, an optional one as [name] |
| `BrigadierSuggestions.Added` | cloud-minecraft/cloud-brigadier/src/main/java/cloud/commandframework/brigadier/BrigadierSuggestionFactory.java:120-130 | at most one suggestion per text, each for a given text that is not what is already typed |
| `BrigadierSuggestions.Texts` | cloud-minecraft/cloud-brigadier/src/main/java/cloud/commandframework/brigadier/BrigadierSuggestionFactory.java:129 | the texts of the suggestions, one per suggestion and in order |
| `BrigadierSuggestions.AddedMeaning` | cloud-minecraft/cloud-brigadier/src/main/java/cloud/commandframework/brigadier/BrigadierSuggestionFactory.java:120-130 | the suggestions added are the texts in order without the one already typed, each replacing the rest of the input and carrying the tooltip |
| `BrigadierSuggestions.SuggestAll` | cloud-minecraft/cloud-brigadier/src/main/java/cloud/commandframework/brigadier/BrigadierSuggestionFactory.java:120-130 | the loop of `suggest` calls adds exactly those suggestions to the builder |
| `BrigadierSuggestions.BuildSuggestions` | cloud-minecraft/cloud-brigadier/src/main/java/cloud/commandframework/brigadier/BrigadierSuggestionFactory.java:71-134 | fails only when the start of the first node lies past the input; otherwise the offset builder receives the filtered suggestions for the command without its namespace |
| `BrigadierSuggestions.BuildExample` | cloud-minecraft/cloud-brigadier/src/main/java/cloud/commandframework/brigadier/BrigadierSuggestionFactory.java:71-134 | for "give @p ite", the sibling literal "item" is dropped and "iter" replaces "ite" with tooltip "<item>" |
| `BrigadierSuggestions.ExampleOffset` | cloud-minecraft/cloud-brigadier/src/main/java/cloud/commandframework/brigadier/BrigadierSuggestionFactory.java:113-118 | for "give @p ite" the offset builder starts after the last space, at "ite" (a step of `BuildExample`) |
| `BrigadierSuggestions.ExampleFilter` | cloud-minecraft/cloud-brigadier/src/main/java/cloud/commandframework/brigadier/BrigadierSuggestionFactory.java:101-111 | the sibling literal "item" is filtered out and "iter" kept (a step of `BuildExample`) |
| `BrigadierSuggestions.ExampleAdded` | cloud-minecraft/cloud-brigadier/src/main/java/cloud/commandframework/brigadier/BrigadierSuggestionFactory.java:120-130 | "iter" is added over "ite" with tooltip "<item>" (a step of `BuildExample`) |
| `Input.TokenQueue.ReadString` | cloud-core/src/main/java/org/incendo/cloud/parser/standard/EnumParser.java:113 | reads and removes the next token; an empty queue gives "" |
| `Input.TokenQueue.Peek` | cloud-core/src/main/java/cloud/commandframework/arguments/standard/ShortArgument.java:198 | the head token of a non-empty queue; "" stands for null on an empty one |
| `Input.TokenQueue.Remove` | cloud-core/src/main/java/cloud/commandframework/arguments/standard/ShortArgument.java:207 | drops exactly the head token |
| `JavaLang.ParseDecimalRoundTrip` | cloud-core/src/main/java/cloud/commandframework/arguments/standard/ShortArgument.java:202 | every integer written in decimal parses back to itself |
| `JavaLang.Wrap` | cloud-core/src/main/java/com/intellectualsites/commands/types/tuples/Pair.java:99 | 32-bit `int` wrap-around: the result is the argument modulo 2^32 in the signed range, and an in-range value is kept |
| `JavaLang.BooleanHash` | src/main/java/com/intellectualsites/commands/components/CommandComponent.java:152 | `Boolean.hashCode`: 1231 for true and 1237 for false; no contract of its own |
| `JavaLang.StringHash` | cloud-core/src/main/java/com/intellectualsites/commands/permission/Permission.java:109 | `String.hashCode`, h = 31 * h + c with wrap-around, over Unicode scalar values (see Left out); no contract of its own |
| `JavaLang.HashAll` | cloud-core/src/main/java/com/intellectualsites/commands/types/tuples/Pair.java:99 | `Arrays.hashCode` of the element hashes, which `Objects.hash` and Guava's `Objects.hashCode` compute; no contract of its own |
| `JavaLang.ToLowerChar` | cloud-core/src/main/java/org/incendo/cloud/parser/standard/EnumParser.java:261 | `Character.toLowerCase` on ASCII: an upper-case letter moves down by 32, any other character is kept, and no upper-case letter remains |
| `JavaLang.ToLowerCase` | cloud-core/src/main/java/org/incendo/cloud/parser/standard/EnumParser.java:261 | `toLowerCase(Locale.ROOT)` on ASCII: the same length, lowered character by character |
| `JavaLang.EqualsIgnoreCase` | cloud-core/src/main/java/org/incendo/cloud/parser/standard/EnumParser.java:117 | `equalsIgnoreCase` on ASCII: the lowered strings are equal; `EqualsIgnoreCaseLowered` states its use; no contract of its own |
| `JavaLang.ParseDecimal` | cloud-core/src/main/java/cloud/commandframework/arguments/standard/ShortArgument.java:202 | the decimal reading behind `Short.parseShort`: defined exactly for an optional sign followed by at least one ASCII digit; `ParseDecimalRoundTrip` states its value |
| `JavaLang.NatToString` | cloud-core/src/main/java/cloud/commandframework/arguments/standard/ShortArgument.java:202 | the decimal writing of a natural number: non-empty and all digits |
| `JavaLang.IntToString` | cloud-core/src/main/java/cloud/commandframework/arguments/standard/ShortArgument.java:202 | the decimal writing of an integer, never empty; `ParseDecimalRoundTrip` states that it reads back |
| `JavaLang.DigitsOfNat` | cloud-core/src/main/java/cloud/commandframework/arguments/standard/ShortArgument.java:202 | the digits written for n have value n |
| `JavaLang.IndexOf` | cloud-minecraft/cloud-brigadier/src/main/java/cloud/commandframework/brigadier/BrigadierSuggestionFactory.java:96-97 | `indexOf(c)`: -1 exactly when c is absent, else the position of the first c |
| `JavaLang.Contains` | cloud-minecraft/cloud-brigadier/src/main/java/cloud/commandframework/brigadier/BrigadierSuggestionFactory.java:96 | `contains(c)`: some position of the string holds c; `IndexOf` is -1 exactly when it does not |
| `JavaLang.LastIndexOf` | cloud-minecraft/cloud-brigadier/src/main/java/cloud/commandframework/brigadier/BrigadierSuggestionFactory.java:115 | `lastIndexOf(c)`: -1 exactly when c is absent, else the position of the last c |
| `JavaLang.SplitFirst` | cloud-minecraft/cloud-brigadier/src/main/java/cloud/commandframework/brigadier/BrigadierSuggestionFactory.java:95-97 | element 0 of a one-character split: the prefix before the first separator; missing exactly for a string of separators only |
| `JavaLang.EqualsIgnoreCaseLowered` | cloud-core/src/main/java/org/incendo/cloud/parser/standard/EnumParser.java:117-261 | a lower-cased name equals the name ignoring case, both ways round |
| `JavaLang.EqualsIgnoreCaseReflexive` | cloud-core/src/main/java/org/incendo/cloud/parser/standard/EnumParser.java:117 | every string equals itself ignoring case |

## Left out

- The command tree (`CommandTree`: insertion, lookup, recursive deletion, re-verification) is not part of this model. `Command` receives the tree's verdict on insertion as a parameter; `DeleteRootCommand` receives whether a root node was found, and the commands the recursive deletion detaches.
- The platform registration handler's `unregisterRootCommand` callback has no effect on the modelled state, so it is left out.
- The service pipeline is opaque: its running of pre- and postprocessors (in LIFO order) is one function parameter, and processor registration is not modelled.
- The execution coordinator is a function parameter. Its threading and the asynchronous completion of futures (`CompletableFuture`) are left out.
- `AcceptingCommandPreprocessor` and `AcceptingCommandPostprocessor` are not part of this model. Their indicator keys are given distinct placeholder values, and only their being distinct is used.
- Concurrency: the manager's state is an `AtomicReference`. The model is sequential, so "exactly one thread performs the transition" becomes what `Manager.CommandManager.TransitionIfPossible` states: once the state is already REGISTERING, a further call leaves it unchanged.
- Captions other than `EnumParseException`'s two caption variables (the caption keys and their values, the caption registry), the parser and injector registries, suggestion processors, syntax formatting and the `command(...)` overloads that take builders and factories only forward to other classes, so they are left out.
- Permissions of any type other than node, predicate, or and and are not modelled: the permission datatype has exactly those four cases, so the `IllegalArgumentException("Unknown permission type …")` that `testPermission` throws for another `CommandPermission` implementation has no counterpart.
- `CommandPermission.isEmpty` is not part of this model. A node is taken to be empty when its string is empty, a predicate permission never to be empty, and an and/or permission to be empty when all of its children are.
- `PermissionResult.TRUE`, `FALSE` and the one-argument `of(boolean)` used by `testPermission` are not part of this model. They are taken to carry the permission under test as their origin.
- `CommandInput` is not part of this model. `readString` is taken to return and remove the next whitespace-free token, and to give "" when none is left.
- `Short.parseShort` is narrowed to an optional sign followed by ASCII digits; non-ASCII Unicode digits are not accepted. `toLowerCase(Locale.ROOT)` and `equalsIgnoreCase` are modelled on ASCII letters only.
- `ShortParser.suggestions` delegates to `IntegerArgument`, which is not part of this model.
- `ShortParseException.equals`/`hashCode` compare parser object identity, which the value model does not have.
- `EnumParseException.hashCode` hashes a `Class` object's identity hash. `MappedArgumentParser.equals`, `hashCode` and `toString` depend on the identity of the mapper lambda. All of these are left out.
- `CommandComponent.toString` is a fixed format of the name; it is not modelled.
- `getNodes` in the Brigadier bridge reflects into Brigadier's classes. Its result appears only as the start offset of the first parsed node.
- Brigadier's `SuggestionsBuilder` is not part of this model. It is modelled as the input, the start and the list of suggestions added: `suggest` appends a suggestion unless its text is the remaining input, and `createOffset` starts a new builder.
- `suggestFuture` is a function parameter giving the suggestion texts; the failure of its future is left out.
- `BrigadierSuggestions.BuildSuggestions` uses the corrected namespace removal (see Findings), so it does not throw where the code as written does.
- BrigadierSuggestions.BuildSuggestions: stops at the builder's list of suggestions. `buildFuture()` and Brigadier's `Suggestions.create`, which widen the suggestions to a common range, drop duplicates and sort them ignoring case, are not part of this model, so the order and duplicates the client finally sees are not promised.
- JavaLang.StringHash: hashes Unicode scalar values, because Dafny's `char` is one. Java hashes UTF-16 code units, so the two differ for strings with characters outside the Basic Multilingual Plane; the hashes of component names, pairs and nodes inherit this.

## Findings

| source | as written | input that shows it | evidently intended | confidence | as-written member | corrected member |
|---|---|---|---|---|---|---|
| src/main/java/com/intellectualsites/commands/components/CommandComponent.java:41-70 | `NAME_PATTERN.asPredicate()` succeeds when some substring matches `[A-Za-z0-9]+` | a component named "a-b" is accepted | the error message says the name must be alphanumeric: the whole name should match | not executed | `CommandComponents.NameCheckAcceptsNonAlphanumeric` | `CommandComponents.CheckArguments` |
| cloud-minecraft/cloud-brigadier/src/main/java/cloud/commandframework/brigadier/BrigadierSuggestionFactory.java:95-97 | `command.split(" ")[0]` and `leading.split(":")[0]` index arrays that `split` leaves empty when the string consists of separators only | chat input "/ " (command " "), or a first word ":" | no namespace to remove, so the command is kept; for ":" the empty namespace and its colon are dropped | not executed | `BrigadierSuggestions.StripNamespaceCrashes` | `BrigadierSuggestions.StripNamespaceAgrees` |
