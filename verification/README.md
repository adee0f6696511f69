# Qore: a Dafny model of its hard parts

Qore is a programming language with a C++ runtime.  This project models six parts of that runtime in Dafny and
proves what they are for:

- **Overload resolution** (`Overload.dfy`, `ParseTime.dfy`, `Signatures.dfy`): the scored search for the variant of a function that a
  call means, at parse time from argument types and at run time from values; the rejection of duplicate signatures
  and the lookup by exact signature.
- **Connection pool and transaction lock** (`DatasourcePool.dfy`, `ManagedDatasource.dfy`): two protocols around a
  mutex and a condition variable, as step systems over an unbounded set of threads.  A thread blocked on the
  condition variable is either sleeping or notified; spurious wake-ups, timeouts and barging threads are steps.
  The classes `Pool.DatasourcePool` and `Managed.ManagedDatasource` hold the source's fields, and each of their
  methods is proved to perform exactly one step.
- **Datasource strings** (`Text.dfy`, `DatasourceParser.dfy`, `DatasourcePrinter.dfy`, `DatasourceGrammar.dfy`): the parser and the printer of
  `driver:user/pass@db(encoding)%host:port{options}`, and the pool's extension of the printer.
- **Module loading** (`ModuleLoading.dfy`, `Versions.dfy`): the load map that lets the global mutex be dropped while a
  module is parsed or initialised, with nested loads, and the version requirements.
- **Constants** (`Constants.dfy`): depth-first initialisation with detection of recursive references.
- **In-place data structures** (`Contexts.dfy`, `Binary.dfy`, `Exceptions.dfy`): row lists that are filtered, sorted
  and grouped; byte buffers; linked lists of exceptions with a counter for the thread.

Where the source changes state, the model does too: loops are loops with invariants, objects are classes, and
`ensures` clauses tie each method to a specification function.  What the repository promises is then proved about
the specification.  A run is a sequence of states, each the result of a step of some thread in the one before, so
that a statement about `states[i]` of a run holds in every interleaving.

`dafny verify dfyconfig.toml` checks the whole project.

## What the proofs found

The model follows the code where the code and what is expected of it differ.  Each difference has a lemma.

- Run-time resolution skips a variant whose typed parameters cannot reach the best score so far
  (`lib/Function.cpp:1058-1061`), but parameters of type `any` score without being counted.  For variants without
  such parameters the skipping changes nothing (`PruningIsSafe`); any variant with one can be skipped although it
  would win (`PruningCanMissTheBest`).
- At parse time `pvariant` is never set: it is assigned a variable that is still null (`PvariantIsNeverSet`), and
  `max_score` is never updated.
- When two variants tie, parse time and run time may choose differently (`TiedChoiceCanDiffer`); they agree exactly
  when the choice of parse time also wins the ties of run time (`ParseTimeChoice`).
- Which variant parse time settles on depends on how many variants tie at the end of the declarations: with an odd
  number it is the last of them, with an even number it is none (`WhenParseTimeSettles`).
- Exact lookup does not tell `untyped` from `any`.  `f(untyped, any, T)` and `f(any, untyped, T)` can be declared in
  either order, and the lookup differs (`LookupDependsOnOrder`).  Over all orders in which given variants can be
  declared, the lookup is the same if and only if one of the matches has to come last (`WhenOrderMatters`), as with
  `f(untyped, T)` and `f(any, T)`, of which one order is rejected (`UntypedThenAny`).
- `in_list()` adds a row to the first group whose value is *not* equal (`lib/Context.cpp:58`), while the documentation
  (`doxygen/lang/195_statements.dox.tmpl:368`) promises one group for each value.  The groups partition the rows in
  any case (`SummaryPartitions`), but they are groups by value if and only if there is at most one row
  (`SummaryIsByValue`).
- A version requirement is always met if both version lists are empty (`CheckModuleVersion`); lists that were read
  from a text have at least one component (`AcceptedTexts`), so this takes a list that was never set.
- Looking up a constant drops the error of its initialisation (`lib/ConstantList.cpp:351-364`).  A recursive reference
  is reported if and only if there is a cycle, but the error of the lookup itself does not reach the result of the
  initialisation: `const a = a` yields success (`SelfReference`).  A value that is in error by itself shows if and only
  if the loop comes to its constant before it comes to one that leads to it (`ParseInitAll`).
- Rethrowing copies an exception with all that follow it, but inserts it as one: the tail is no longer the end of the
  list, the count is too small, and the next exception cuts off the rest (`RethrownChainIsCut`).  Apart from that only
  assimilating a non-empty sink of the other kind (externally managed or not) makes counts wrong; a run stays in order
  if and only if it does neither (`RunKeepsOrder`).
- Threads whose modules request one another block for ever (`CircularRequestsBlock`); a waiting thread can never go on
  if and only if the threads it waits for close a cycle (`StuckForever`).
- POSIX allows a timed wait to use up a signal and still report a timeout.  The pool and the transaction lock then
  return without passing the signal on, and a thread may sleep beside a free connection or a free lock
  (`WakeupCanBeLost` for each).  Both keep every wake-up, in all runs, if and only if no timeout is set
  (`WhenWakeupsAreKept` for each).  With one, no more connections are left lying than signals were swallowed
  (`LostConnections`), and the lock is left free beside a sleeper only if a signal was swallowed since it was last held
  (`LostMeansSwallowed`).
- `getConfigString()` of an open datasource without a database name parses back to an empty name, while
  `getConfigHash()` has no name (`PrintThenParse`).
- A configuration hash with only `max`, below three, or only `min`, above ten, gives a pool whose minimum exceeds its
  maximum (`LimitsInOrder`).  It then opens connections behind the end of its arrays, unless one of the first `max + 1`
  cannot be opened (`OpenAll`, `SmallMaximum`).

## Model

| member | source | states |
|---|---|---|
| `RuntimeResolution.FindIsBestMatch` | lib/Function.cpp:1011-1125 | For every list of counted variants and every argument list the variant found has the highest score of all applicable ones, then the fewest parameters, then the earliest declaration; nothing is found only if nothing is applicable. The early exit for calls without arguments is covered. |
| `RuntimeResolution.PruningIsSafe` | lib/Function.cpp:1058-1061 | Skipping variants that cannot reach the best score never changes the search, step by step, if no parameter scores without being counted. |
| `RuntimeResolution.PruningCanMissTheBest` | lib/Function.cpp:1058-1097 | Every variant with an `any` parameter occurs in a function that can be declared, and a call of it, where the pruned and the unpruned search differ. |
| `RuntimeResolution.UncountedScore` | lib/Function.cpp:1093-1096 | Under perfect matches an `any` parameter lifts the score strictly above the bound used for skipping. |
| `RuntimeResolution.ScanKnows` | lib/Function.cpp:1011-1125 | After any number of variants the unpruned search holds the best of them, with its score and length. |
| `RuntimeResolution.FindVariant` | lib/Function.cpp:969-1130 | The loop with its score, length, skip and early exit computes the specified search. |
| `RuntimeResolution.FindInHierarchy` | lib/Function.cpp:969-1130 | Over the inheritance list: the variant found in the first function that has one, not beyond one that stops the search; none only if no function searched has one. |
| `RuntimeResolution.ScoreParams` | lib/Function.cpp:1063-1097 | The loop over parameters accepts and scores exactly as the specification; a rejecting parameter rejects the call whatever follows. |
| `RuntimeResolution.FindVariantByTypes` | lib/Function.cpp:1218-1315 | Among the variants with as many parameters as argument types that match, the earliest with the highest score; none only if none matches. |
| `RuntimeResolution.WhenTypesMatch` | lib/Function.cpp:1286-1299 | A variant matches if and only if every parameter matches its argument type; its score is made of the matches. |
| `RuntimeResolution.FoundMayBeCalled` | lib/Function.cpp:1012-1034 | For all variants: what is found is the program's own if only those are asked for, is no variant to be ignored, and takes the arguments beyond its parameters. |
| `Variants.CountedBound` | lib/Function.cpp:1058-1061 | Without `any` parameters no score exceeds the number of typed parameters times a perfect match. |
| `Variants.NoArgsNoScore` | lib/Function.cpp:1087-1090 | Without arguments every applicable variant scores zero, so that the early exit loses nothing. |
| `Variants.WhenAccepted` | lib/Function.cpp:1072-1091 | A call is accepted if and only if every parameter takes its default value, the argument being missing or NOTHING, or accepts its argument. |
| `Variants.ScoreGrows` | lib/Function.cpp:1087-1096 | Each argument passed to a parameter with type information adds what the table gives; missing ones and those replaced by a default value add nothing. |
| `ParseResolution.ParseTimeChoice` | lib/Function.cpp:1482-1717 | For plain variants and exact argument types a variant settled on at parse time has the highest run-time score of all applicable variants, and run time selects the same one if and only if it wins the ties. |
| `ParseResolution.UntiedChoiceIsFinal` | lib/Function.cpp:1482-1717 | If no other applicable variant ties, run time returns the variant parse time settled on. |
| `ParseResolution.TiedChoiceCanDiffer` | lib/Function.cpp:1669-1697 | A function of three variants that can be declared, and an argument, for which the two searches choose different variants with the same score. |
| `ParseResolution.MatchIsScore` | lib/Function.cpp:1568-1645 | For typed parameters without defaults the parse-time loop accepts the same calls as run time and computes the same score. |
| `ParseResolution.ExtraArgsAgree` | lib/Function.cpp:897-906 | The parse-time test of extra arguments agrees with the run-time test of their values. |
| `ParseResolution.ScanKnows` | lib/Function.cpp:1530-1717 | After any number of variants: a settled variant has the top score among them, and the score kept bounds all of them. |
| `ParseResolution.PvariantIsNeverSet` | lib/Function.cpp:1661-1667 | On no input does the search ever hold an only possible variant. |
| `ParseResolution.NoopsAreIgnored` | lib/Function.cpp:1543-1546 | A variant to be ignored is never settled on. |
| `ParseResolution.MatchVariant` | lib/Function.cpp:1568-1645 | The loop over one variant computes the specified match, including its early stop. |
| `ParseResolution.FindVariant` | lib/Function.cpp:1482-1790 | The search over the variants of one function computes the specified choice. |
| `ParseSettling.WhenParseTimeSettles` | lib/Function.cpp:1669-1697 | For plain variants and exact types, exactly when the search settles on a variant: no variant that would be chosen has fewer parameters than the one weighed before it, and the last variant weighed ranks highest, by score and then by perfect matches, an odd number of variants at the end sharing its rank. Variants whose parameters are too few for the best score are not weighed. |
| `ParseSettling.CallWithoutArguments` | lib/Function.cpp:1557-1561 | A call without arguments settles on the variant without parameters, unless one before it would be chosen with fewer parameters than the one before. |
| `ParseSettling.OnlyVariant` | lib/Function.cpp:1669-1697 | A call with arguments that one variant alone can take settles on it. |
| `ParseSettling.LastAndBest` | lib/Function.cpp:1669-1697 | Among variants with equally many parameters the last applicable one is settled on if it scores more than all applicable ones before it. |
| `ParseSettling.MatchPerfect` | lib/Function.cpp:1603-1618 | The number of perfect matches counted at parse time is that of the parameters that match perfectly at run time. |
| `ParseSettling.MatchOutcome` | lib/Function.cpp:1572-1636 | For all parameters and arguments: a variant is rejected if and only if the loop gets to a parameter that rejects its argument, and left to run time if and only if it gets to one that only run time can tell. |
| `ParseSettling.MatchGrows` | lib/Function.cpp:1585-1635 | For all parameters: what each adds to the number of matches, the score and the number of perfect matches, default values included. |
| `ParseSettling.LeftToRunTime` | lib/Function.cpp:1638-1645 | A variant that is left to run time leaves the whole call to run time. |
| `ParseSettling.DeclaredHasOneEmpty` | lib/Function.cpp:2151-2253 | What can be declared has at most one variant without parameters. |
| `Signatures.QoreFunction.CheckDuplicateSignature` | lib/Function.cpp:2151-2253 | A variant is a duplicate if and only if it clashes with an existing one. |
| `Signatures.QoreFunction.AddPendingVariant` | lib/Function.cpp:2294-2320 | Succeeds if and only if variants may still be added and none clashes; appends the variant or changes no list; resets the flags as the source does. |
| `Signatures.SignaturesAreDistinct` | lib/Function.cpp:2151-2253 | However variants were added, no two have the same list of parameter types. |
| `Signatures.LongerClashes` | lib/Function.cpp:2151-2253 | A variant and one with one more typed parameter clash, in either order, if and only if that parameter has a default value. |
| `Signatures.UnaryClash` | lib/Function.cpp:2151-2253 | Two variants with one typed parameter clash if and only if the types accept the same input. |
| `Signatures.FindExactVariant` | lib/Function.cpp:1391-1479 | The lookup loop computes the specified search: the last match, or the first empty signature for no arguments. |
| `Signatures.FindExactSpec` | lib/Function.cpp:1423-1473 | Where blurred signatures differ, the lookup finds a variant if and only if it is there, considered, and matches. |
| `Signatures.ExactMatchIsUnique` | lib/Function.cpp:1423-1473 | From any point of the search on there is at most one variant left to find. |
| `Signatures.ExactLookupIgnoresOrder` | lib/Function.cpp:1423-1473 | The result is the same for every order of declaration. |
| `Signatures.TypedFunctionsTellApart` | lib/Function.cpp:2151-2253 | Every function built with typed parameters only is of that kind. |
| `Signatures.WhenOrderMatters` | lib/Function.cpp:1423-1473 | For all variants that can be declared and all argument types: the lookup is the same in every order in which they can be declared, if and only if nothing matches or one of the matches is forced, by a chain of clashes, to come after all the others. |
| `Signatures.LookupDependsOnOrder` | lib/Function.cpp:1464-1472 | f(untyped, any, T) and f(any, untyped, T): both orders can be declared, and the lookup finds the one declared last. |
| `Signatures.Reordered` | lib/Function.cpp:2151-2253 | Moving a variant, and what is forced to follow it, to the end gives an order that can be declared too. |
| `Signatures.ChainIsOrdered` | lib/Function.cpp:2151-2253 | In whatever order variants were declared, each comes before those it is forced to precede. |
| `Signatures.UntypedThenAny` | lib/Function.cpp:2151-2253 | Such a pair can be declared in one order and is rejected in the other. |
| `PoolInvariant.StepInv` | lib/DatasourcePool.cpp:278-299 | Every step of every thread keeps the invariant of the pool: ownership of connections, positions of threads, wait count, and no more lost wake-ups than signals swallowed. |
| `PoolInvariant.StepsAreDefined` | lib/DatasourcePool.cpp:379-481 | In every reachable state each step finds its array subscripts in range and its map entries present. |
| `PoolTheorems.RunInv` | lib/DatasourcePool.cpp:150-212 | The invariant holds in every state of every run, including those with timeouts that swallow signals. |
| `PoolTheorems.ConnectionsArePartitioned` | lib/DatasourcePool.cpp:183-212 | In every state the indices below `cmax <= max` are split exactly between the free list, without repeats, and the values of `tmap`, which is injective; `tid_list` names each owner. |
| `PoolTheorems.RegisteredIffHolding` | lib/DatasourcePool.cpp:278-299 | Between calls a thread is a registered resource holder exactly when it holds a connection. |
| `PoolTheorems.ConnectionAfterCall` | lib/DatasourcePool.cpp:36-46 | When a call ends its connection goes back if and only if the transaction ended, the connection broke, or it was taken for this call only; otherwise the thread stays registered. |
| `PoolTheorems.NewMeansHadNone` | lib/DatasourcePool.cpp:391-400 | In every run: a thread inside a call has a new connection if and only if it had none when it made the request of that call. |
| `PoolTheorems.ConnectionIsKept` | lib/DatasourcePool.cpp:36-46 | A thread that keeps its connection after a call has the same one in all later calls, until one of them ends with a release or an abort, or the thread exits. |
| `PoolTheorems.ConnectionGoesBack` | lib/DatasourcePool.cpp:301-339 | A connection that could not be opened, or whose thread exits, is no longer registered and goes back to the free list. |
| `PoolTheorems.OthersUntouched` | lib/DatasourcePool.cpp:278-299 | No step changes the connection, registration or position of another thread. |
| `PoolTheorems.WhatCanHappen` | lib/DatasourcePool.cpp:379-481 | In every reachable state, what each thread can do next: a thread asleep needs a signal, a spurious wake-up or a timeout, any other can go on. |
| `PoolTheorems.FreeListIsAQueue` | lib/DatasourcePool.cpp:407-409 | Free connections are handed out in the order in which they came back. |
| `PoolTheorems.RequestsAreCounted` | lib/DatasourcePool.cpp:388-389 | The number of requests counted is the number of requests made. |
| `PoolTheorems.SignalsAreNeverLost` | lib/DatasourcePool.cpp:405-467 | If no signal was swallowed: while a thread sleeps unsignalled there are no more free connections than notified waiters, and a notified waiter gets a free connection as soon as it runs. |
| `PoolTheorems.LostConnections` | lib/DatasourcePool.cpp:440-467 | In every run: while a thread sleeps unsignalled, the free connections exceed the notified waiters by no more than the signals that timed waits have swallowed. |
| `PoolTheorems.WithoutTimeout` | lib/DatasourcePool.cpp:442 | In every run of a pool without a timeout there are no more free connections than notified waiters while a thread sleeps. |
| `PoolTheorems.WakeupCanBeLost` | lib/DatasourcePool.cpp:440-462 | Every pool with a timeout, whatever its size, can reach a state with a connection free that no signalled waiter will take, and a thread asleep unsignalled. |
| `PoolTheorems.WhenWakeupsAreKept` | lib/DatasourcePool.cpp:440-462 | From every initial state: no run ever loses a wake-up, if and only if no timeout is set. |
| `PoolTheorems.AllBusy` | lib/DatasourcePool.cpp:405-436 | As many threads as the pool may have connections can hold one each at the same time. |
| `PoolTheorems.SleepsOnlyWhenAllHeld` | lib/DatasourcePool.cpp:405-441 | A thread goes to sleep only when all `max` connections are held. |
| `PoolTheorems.CmaxIsPeakDemand` | lib/DatasourcePool.cpp:405-436 | `cmax` is the larger of its initial value and the largest number of connections ever held at once. |
| `PoolTheorems.StatisticsCountWaits` | lib/DatasourcePool.cpp:386-470 | Requests minus hits is the number of requests that entered a wait. |
| `Pool.DatasourcePool.constructor` | lib/DatasourcePool.cpp:150-181 | Valid if and only if every one of the first connections could be opened, and then the initial state of a run if the minimum does not exceed the maximum; otherwise the connections opened so far are all free. |
| `Pool.DatasourcePool.OpenAll` | lib/DatasourcePool.cpp:150-181 | Opens the first connection and then up to the minimum; stops at exactly the first that fails. All are inside the arrays if and only if the minimum does not exceed the maximum or one of the first `max + 1` fails. |
| `Pool.LimitsInOrder` | lib/QC_DatasourcePool.qpp:88-132 | The limits accepted are in order if and only if a maximum given alone is at least the default minimum, and a minimum given alone at most the default maximum. |
| `Pool.LimitsAccepted` | lib/QC_DatasourcePool.qpp:88-132 | Which limits are rejected, and that those given are taken as they are. |
| `Pool.SmallMaximum` | lib/QC_DatasourcePool.qpp:88-132 | A maximum of two given alone: the third connection is outside the arrays. |
| `Pool.DatasourcePool.TakeOrSleep` | lib/DatasourcePool.cpp:405-441 | One pass of the allocation loop: the first free connection, or a new one, or a wait. |
| `Pool.DatasourcePool.GetDS` | lib/DatasourcePool.cpp:379-404 | A request up to its first wait is exactly the request step. |
| `Pool.DatasourcePool.WaitReturned` | lib/DatasourcePool.cpp:440-467 | The return from a wait is exactly the step of a wake-up or a timeout. |
| `Pool.DatasourcePool.GiveBack` | lib/DatasourcePool.cpp:278-299 | Giving a connection back is exactly the step of the specification, with a signal if somebody waits. |
| `LockTheorems.StepInv` | lib/ManagedDatasource.cpp:102-147 | Every action step of every thread keeps the invariant of the lock. |
| `LockTheorems.RunInv` | lib/ManagedDatasource.cpp:102-147 | The invariant holds in every state of every run of select, exec, begin, commit, rollback and thread exit. |
| `LockTheorems.MutualExclusion` | lib/ManagedDatasource.cpp:169-189 | Two threads are never inside an action at the same time, and the one inside owns the lock. |
| `LockTheorems.OwnsIffRegistered` | lib/ManagedDatasource.cpp:191-209 | Between actions a thread owns the lock exactly when it is registered as a thread resource. |
| `LockTheorems.OthersUntouched` | lib/ManagedDatasource.cpp:250-325 | No step changes another thread's ownership, registration or position. |
| `LockTheorems.OwnershipAfterAction` | lib/ManagedDatasource.cpp:38-59 | After an action the thread owns the lock if and only if the connection was not lost and the action, its transaction state and the lock setting say so; otherwise nobody does. |
| `LockTheorems.LockAfterAction` | lib/ManagedDatasource.cpp:250-325 | In every run, by the action that was started and whether the thread owned the lock then: commit and rollback free it, exec and begin acquire it for a transaction, a select leaves it as it was unless it started a transaction that keeps it, autocommit makes every action like a select, and a lost connection frees it. |
| `LockTheorems.ActionInProgress` | lib/ManagedDatasource.cpp:169-189 | An action in progress, through any waits, is the one that the thread started last, with the command of that action. |
| `LockTheorems.ActionStarts` | lib/ManagedDatasource.cpp:169-189 | An action starts at once if the lock is free or the own one; if opening fails the lock is as it was; otherwise the thread waits. |
| `LockTheorems.WhatCanHappen` | lib/ManagedDatasource.cpp:102-147 | In every reachable state, what each thread can do next. |
| `LockTheorems.LockGoesBack` | lib/ManagedDatasource.cpp:61-72 | A thread that exits is no longer registered, and its lock is freed. |
| `LockTheorems.SignalsAreNeverLost` | lib/ManagedDatasource.cpp:102-147 | If no signal was swallowed since the lock was last held: when the lock is free while a thread sleeps, a notified waiter can run and gets the lock. |
| `LockTheorems.LostMeansSwallowed` | lib/ManagedDatasource.cpp:110-117 | In every run: if the lock is free, a thread sleeps and no waiter is notified, a signal was swallowed since the lock was last held. |
| `LockTheorems.WithoutTimeout` | lib/ManagedDatasource.cpp:108-122 | In every run without a timeout there is a notified waiter when the lock is free while a thread sleeps. |
| `LockTheorems.WhenWakeupsAreKept` | lib/ManagedDatasource.cpp:108-122 | No run ever loses a wake-up, if and only if no timeout is set. |
| `LockTheorems.WakeupCanBeLost` | lib/ManagedDatasource.cpp:110-117 | A run of three threads, with a timeout, that ends with the lock free and a thread asleep unsignalled. |
| `Managed.ManagedDatasource.StartDBAction` | lib/ManagedDatasource.cpp:169-189 | The start of an action is exactly the start step: lock taken, already owned, or waited for; released again if opening fails. |
| `Managed.ManagedDatasource.WaitReturns` | lib/ManagedDatasource.cpp:102-147 | The return from the wait is exactly the step of a wake-up or a timeout. |
| `Managed.ManagedDatasource.EndDBAction` | lib/ManagedDatasource.cpp:191-209 | The end of an action is exactly the end step. |
| `Managed.ManagedDatasource.ReleaseLockIntern` | lib/ManagedDatasource.cpp:142-147 | Clears the owner and signals one waiter if there is any. |
| `DatasourceRoundTrip.PrintThenParse` | lib/Datasource.cpp:143-222 | For all fields for which the grammar is unambiguous: printing and parsing gives back every field and every option, as in the configuration hash, with the database name set even if empty; it equals the hash if and only if the name is not empty. |
| `DatasourceRoundTrip.ConfigStringIsInjective` | lib/Datasource.cpp:143-222 | Datasources with the same string have the same configuration. |
| `DatasourceRoundTrip.OptionsRoundTrip` | lib/DBI.cpp:684-731 | Parsing the printed options adds exactly those options to any others. |
| `DatasourceRoundTrip.LocationRoundTrip` | lib/DBI.cpp:793-864 | Database, encoding, host and port come back from their text, each present or absent. |
| `DatasourceRoundTrip.LoginRoundTrip` | lib/DBI.cpp:751-791 | User and password come back, with or without a password, including paths as database names. |
| `DatasourceRoundTrip.BodyRoundTrip` | lib/DBI.cpp:737-864 | Everything before the option block comes back. |
| `DatasourceRoundTrip.SettingsRoundTrip` | lib/DBI.cpp:671-735 | The text followed by any admissible option block comes back with exactly these options. |
| `DatasourceRoundTrip.PoolStringForm` | lib/DatasourcePool.cpp:681-699 | The pool's string is the connection's string with two more settings, with or without an option block of its own. |
| `DatasourceRoundTrip.PoolPrintThenParse` | lib/DatasourcePool.cpp:681-699 | The pool's string parses to the connection's configuration plus exactly `min` and `max`, the database name set even if empty. |
| `DatasourceParser.ParseDatasource` | lib/DBI.cpp:655-867 | The parser with its option block, error exits and stages computes the specified result on every text. |
| `DatasourceParser.ParseOptionText` | lib/DBI.cpp:684-731 | The option loop terminates, its position advancing in every turn, and computes the specified options or error. |
| `DatasourceParser.ParseOption` | lib/DBI.cpp:688-727 | One turn of the loop: a flag, a key with a value, or an error for a missing name or a repeated key. |
| `DatasourceParser.CheckDatasourceChars` | lib/DBI.cpp:631-648 | Finds the first delimiter, a colon counting only before a digit. |
| `DatasourceGrammar.DriverFound` | lib/DBI.cpp:737-749 | For all texts: a driver is found if and only if the text starts with a name without any of `:@/%` and a colon. |
| `DatasourceGrammar.NoDriverFound` | lib/DBI.cpp:737-749 | For all texts: there is no driver if and only if every colon comes after one of `@/%`. |
| `DatasourceGrammar.WithoutDriver` | lib/DBI.cpp:737-749 | A text without a driver comes back with all its fields and options. |
| `DatasourceGrammar.UserFound` | lib/DBI.cpp:751-774 | For all texts: a user before a slash is found if and only if the slash starts no path and is not inside braces. |
| `DatasourceGrammar.LoginWithPassword` | lib/DBI.cpp:767-791 | The last `@` separates a password from the location. |
| `DatasourceGrammar.LoginWithoutPassword` | lib/DBI.cpp:776-791 | The last `@` separates the user from the location. |
| `DatasourceGrammar.LoginWithoutLocation` | lib/DBI.cpp:777-781 | Without an `@` after the user the database name is missing. |
| `DatasourceGrammar.LocationWithEncoding` | lib/DBI.cpp:793-807 | The encoding is what is between the first `(` and the next `)`, which must be there. |
| `DatasourceGrammar.LocationWithoutEncoding` | lib/DBI.cpp:809-818 | Without an encoding the database name ends at the first delimiter. |
| `DatasourceGrammar.WhatEndsAName` | lib/DBI.cpp:631-648 | For all texts: a name ends at a colon only if a digit follows, and a database name also at a percent sign. |
| `DatasourceGrammar.TailForms` | lib/DBI.cpp:809-857 | A host follows the first `%`, a port the first colon before a digit; the port is a number and nothing else. |
| `DatasourceGrammar.HostForms` | lib/DBI.cpp:820-857 | The host name must not be empty and ends at the first colon before a digit. |
| `DatasourceGrammar.OptionBlockForms` | lib/DBI.cpp:671-678 | What is an option block and what is not. |
| `DatasourceGrammar.FlagOption` | lib/DBI.cpp:688-703 | An option without `=` is a flag. |
| `DatasourceGrammar.ValueOption` | lib/DBI.cpp:704-727 | An option with `=` has a trimmed name and a trimmed value; a repeated name is an error. |
| `DatasourceGrammar.NamelessOption` | lib/DBI.cpp:706-710 | An option that starts with `=` is an error. |
| `DatasourceGrammar.BadOptions` | lib/DBI.cpp:671-735 | A bad option block makes the text invalid, whatever precedes it. |
| `DatasourceGrammar.SpaceAround` | lib/DBI.cpp:658-669 | White space around the text does not matter; an empty text is an error, and a text of white space has no database name. |
| `DatasourcePrinter.GetConfigString` | lib/Datasource.cpp:143-222 | The printer computes the specified text. |
| `DatasourcePrinter.PrintLocation` | lib/Datasource.cpp:154-187 | The part from the database name to the port is printed as specified. |
| `DatasourcePrinter.PrintOptions` | lib/Datasource.cpp:189-219 | The loop prints exactly the options that are set, in order, with commas between them and braces around them, or nothing. |
| `DatasourcePrinter.CurrentOptionHash` | lib/Datasource.cpp:60-89 | The loop collects exactly the options that are set; if there are none, there is a hash only if one is asked for. |
| `DatasourcePrinter.OptionsThatAreSet` | lib/Datasource.cpp:72-81 | An option that is NOTHING or false is left out, one that is true is a flag, and any other has its text. |
| `Text.AtoiOfRender` | lib/DBI.cpp:842-857 | A number an int can hold is read back from its decimal text. |
| `Text.TrimIs` | lib/DBI.cpp:667-669 | Trimming takes off exactly the white space at both ends. |
| `Versions.CheckModuleVersion` | lib/ModuleManager.cpp:687-703 | Accepts if and only if the relation holds in the lexicographic order of the zero-padded lists, or both lists are empty. |
| `Versions.TrailingZeros` | lib/ModuleManager.cpp:687-703 | Trailing zeros never matter. |
| `Versions.OrderIsTotal` | lib/ModuleManager.cpp:638-655 | The order on versions is antisymmetric, total and transitive. |
| `Versions.OrderByFirstDifference` | lib/ModuleManager.cpp:687-703 | One version is older than another if and only if its first differing component is smaller, missing ones being zero; they are the same if and only if none differs. |
| `Versions.CheckComplement` | lib/ModuleManager.cpp:638-655 | A module meets `<` or `>=`, never both; likewise `>` and `<=`; `=` is both `<=` and `>=`. |
| `Versions.SetVersion` | lib/ModuleManager.cpp:2026-2049 | The loop over the trimmed text computes the specified list or the first offending character. |
| `Versions.VersionRoundTrip` | lib/ModuleManager.cpp:2026-2049 | A list of int-sized numbers printed with dots is read back. |
| `Versions.AcceptedTexts` | lib/ModuleManager.cpp:2034-2045 | Exactly the texts of digits and dots are accepted, and at least one component results; otherwise the first other character is reported. |
| `LoadTheorems.StepInv` | lib/ModuleManager.cpp:2051-2069 | Every step of every thread keeps the invariant of the load map. |
| `LoadTheorems.RunInv` | lib/ModuleManager.cpp:800-823 | The invariant holds in every state of every run, with nested loads. |
| `LoadTheorems.OneLoaderPerFeature` | lib/ModuleManager.cpp:2051-2069 | Each feature is being loaded by at most one thread, at one depth, and the load map names that thread. |
| `LoadTheorems.LoadsAreNew` | lib/ModuleManager.cpp:2051-2057 | A feature newly in the load map was not registered, and no feature passes from one thread to another. That the assertion holds at each entry, also before the initialisation, is proved at the calls of `EnterLoad`. |
| `LoadTheorems.RegistrationsAreNew` | lib/ModuleManager.cpp:1250-1371 | A feature is registered only by the thread that was loading it, once it has left the load map, and was not registered before. |
| `LoadTheorems.LoadOutcome` | lib/ModuleManager.cpp:1330-1371 | In every run: a load that succeeds registers its feature, as the last one; one that fails leaves it neither registered nor being loaded; a parsed module with something to initialise is being initialised by the same thread. |
| `LoadTheorems.ModulesGrow` | lib/ModuleManager.cpp:1364-1368 | What is registered stays registered. |
| `LoadTheorems.RegisteredIsThere` | lib/ModuleManager.cpp:820-823 | A registered feature is neither waited for nor loaded again. |
| `LoadTheorems.RequestOutcome` | lib/ModuleManager.cpp:800-823 | Any other feature is waited for if and only if another thread is loading it; if nobody is and it can be loaded, the thread starts to parse it. |
| `LoadTheorems.NeverRegisteredTwice` | lib/ModuleManager.cpp:1250-1371 | No feature is registered twice, although the mutex is dropped during parse and initialisation. |
| `LoadTheorems.SleepersWaitForALoad` | lib/ModuleManager.cpp:814-817 | The feature an unsignalled sleeper waits for is being loaded by another thread. |
| `LoadTheorems.LoadEndWakesAll` | lib/ModuleManager.cpp:2059-2069 | The end of a load leaves nobody asleep. |
| `LoadDeadlocks.StuckForever` | lib/ModuleManager.cpp:800-818 | In every reachable state a waiting thread stays blocked whatever all the threads do from then on, if and only if the threads it waits for close a cycle. |
| `LoadDeadlocks.StuckOrEnds` | lib/ModuleManager.cpp:800-818 | The threads that a thread waits for, one after the other, come to one that does not wait, or close a cycle, and not both. |
| `LoadDeadlocks.DeadlockIsForever` | lib/ModuleManager.cpp:800-818 | Threads that wait for one another in a cycle still do after any steps of any threads, wake-ups included. |
| `LoadDeadlocks.Unblock` | lib/ModuleManager.cpp:2059-2069 | If there is no cycle, the threads waited for can end their loads one after the other until the waiting thread goes on. |
| `LoadDeadlocks.CircularRequestsBlock` | lib/ModuleManager.cpp:800-818 | Two threads loading modules that request each other reach such a cycle. |
| `Manager.QoreModuleManager.TryLoad` | lib/ModuleManager.cpp:800-823 | From the test of the load map: waits for another thread, returns for its own load, or starts to load, exactly as specified. |
| `Manager.QoreModuleManager.WaitReturned` | lib/ModuleManager.cpp:814-818 | The return from the wait is exactly the wake-up step. |
| `Manager.QoreModuleManager.EnterLoad` | lib/ModuleManager.cpp:2051-2057 | Enters the feature for the thread; every caller, before the parse and before the initialisation, is proved to find it not entered. |
| `Manager.QoreModuleManager.LeaveLoad` | lib/ModuleManager.cpp:2059-2069 | Removes the feature and wakes all waiters. |
| `Manager.QoreModuleManager.ParseEnded` | lib/ModuleManager.cpp:1438-1449 | The end of a parse is exactly its step: failure, initialisation, or registration. |
| `Manager.QoreModuleManager.InitEnded` | lib/ModuleManager.cpp:1330-1371 | The end of the initialisation is exactly its step. |
| `Constants.ConstantList.ParseInitAll` | lib/ConstantList.cpp:451-462 | Terminates with every constant initialised, each that was not exactly once; reports a recursive reference if and only if the constants not initialised before have a cycle among them; without one they are completed in dependency order. The result tells of a constant whose value is in error if and only if the loop comes to it before it comes to one that leads to it; the error of a recursive lookup is dropped. |
| `Constants.ConstantList.ParseInit` | lib/ConstantList.cpp:114-177 | From any point of the walk: the entry ends up initialised or is on the stack, and then a recursive reference is reported; an error is returned exactly for an entry in progress or one newly initialised whose own value is in error; marks are consistent with the walk so far. |
| `Constants.ConstantList.ResolveReferences` | lib/ConstantList.cpp:137-157 | Looks up each constant the value refers to; all of them are completed or in progress afterwards, and completed if nothing was reported. Errors of the lookups are not passed on. |
| `Constants.ConstantList.Find` | lib/ConstantList.cpp:351-369 | Initialises the constant, whose result is dropped; everything newly completed is reached from the constant that refers to it. |
| `Constants.SelfReference` | lib/ConstantList.cpp:114-126 | A constant that refers to itself is reported, and the result is success. |
| `Constants.GraphEdges` | lib/ConstantList.cpp:130-153 | A constant leads to another if and only if its value is a parse node, not builtin, that refers to it. |
| `ConstantGraph.LoopReaches` | lib/ConstantList.cpp:453-460 | The loop initialises a constant itself exactly if no earlier one leads to it. |
| `Constants.ConstantList.BeginInit` | include/qore/intern/ConstantList.h:210-215 | Marks the entry as in progress and nothing else. |
| `Constants.ConstantList.EndInit` | include/qore/intern/ConstantList.h:217-221 | Marks the entry as done, no longer in progress. |
| `ConstantGraph.OrderedMeansAcyclic` | lib/ConstantList.cpp:114-177 | If all constants were completed in order, each once, there is no cycle. |
| `ConstantGraph.AgainConsistent` | lib/ConstantList.cpp:123-126 | A constant met again while in progress closes a cycle. |
| `ConstantGraph.LeaveConsistent` | lib/ConstantList.cpp:119-132 | Completing the entry on top of the stack keeps the walk consistent. |
| `Contexts.Context.constructor` | lib/Context.cpp:101-212 | A context over a query or a subcontext, whatever the clause and the sort: its rows are distinct, exactly those in the range of the query or of the parent that satisfy the clause, and ordered as asked; without a sort in their old order. |
| `Contexts.SelectAndSort` | lib/Context.cpp:161-210 | The clause and the sort applied in place to any list of distinct rows give that result. |
| `Contexts.StartRows` | lib/Context.cpp:101-147 | A copy of the parent's rows, or all rows of the query in order. |
| `Contexts.SortStage` | lib/Context.cpp:396-440 | Evaluates the key of every row and sorts: a permutation, ordered by the keys of the rows. |
| `ContextSpec.SortedRowsAreOrdered` | lib/Context.cpp:420-437 | However the keys and rows were moved together, each row still has its own key, so the rows are in the order of their keys, NOTHING last; reversed when descending. |
| `ContextSpec.FilterSelects` | lib/Context.cpp:161-204 | Filtering keeps exactly the rows that satisfy the clause, and keeps them distinct. |
| `ContextSpec.FilterIsStable` | lib/Context.cpp:161-204 | Filtering keeps the order of the rows. |
| `ContextSpec.SortPutsNothingLast` | lib/Context.cpp:382-394 | After the sort rows without a value come last, and no row precedes one with a smaller value. |
| `ContextSpec.SortPermutes` | lib/Context.cpp:396-440 | The sorted row list is a permutation of the rows, in either direction. |
| `ContextSpec.LessIsStrictWeakOrder` | lib/Context.cpp:382-394 | The comparison is a strict weak ordering, as std::sort requires, whenever the less-than operator is one. |
| `ContextSpec.SortExists` | lib/Context.cpp:420-421 | Then there is a sort that gives, for every list, what is taken for granted of std::sort. |
| `ContextSpec.SummaryPartitions` | lib/Context.cpp:214-271 | Whatever the test for equality is, the groups partition the rows, each in order. |
| `ContextSpec.SummaryForm` | lib/Context.cpp:54-76 | With a true equality the first group holds the first row and all rows with other values, and each further row with the first value has a group of its own. |
| `ContextSpec.SummaryIsByValue` | lib/Context.cpp:54-76 | The groups are by value if and only if there is at most one row. |
| `Contexts.MarkRows` | lib/Context.cpp:169-182 | Marks exactly the rows that satisfy the clause. |
| `Contexts.FilterRows` | lib/Context.cpp:161-204 | The compaction in place leaves the filtered rows in front and touches nothing behind them. |
| `Contexts.SortRows` | lib/Context.cpp:396-440 | Writes the sorted rows back, reversed when descending: a permutation of what was there. |
| `Contexts.GroupRows.Add` | lib/Context.cpp:61-71 | Appends a row, growing the array if it is full; every write is inside it. |
| `Contexts.InList` | lib/Context.cpp:54-76 | Adds the row to the first group whose value is not equal, and to no other, or reports that there is none. |
| `Contexts.PlaceRow` | lib/Context.cpp:226-259 | Adds the row to that group or to a new one, within the allocated size. |
| `Contexts.Summarize` | lib/Context.cpp:214-271 | The loop over the rows computes the specified groups. |
| `BinarySpec.SpliceBack` | lib/BinaryNode.cpp:271-313 | Splicing the extracted bytes back over the inserted ones restores the buffer and extracts what was inserted, for all offsets and lengths. |
| `BinarySpec.SpliceConserves` | lib/BinaryNode.cpp:271-313 | What remains and what was extracted is what was there and what was inserted. |
| `BinarySpec.SpliceInTwoSteps` | lib/BinaryNode.cpp:244-313 | A splice with data is a splice without data followed by an insertion. |
| `BinarySpec.RangeByPosition` | lib/BinaryNode.cpp:221-242 | The range of every offset and length inside the buffer, negative offsets counting from the end and negative lengths leaving that many bytes. |
| `BinarySpec.RangeOutside` | lib/BinaryNode.cpp:221-242 | Offsets and lengths that point outside stop at the ends of the buffer. |
| `Binary.BinaryNode.CheckOffset` | lib/BinaryNode.cpp:221-231 | A position inside the buffer for every offset, negative ones counting from the end. |
| `Binary.BinaryNode.CheckRange` | lib/BinaryNode.cpp:233-242 | The range of every offset and length, once it is cut at the end of the buffer. |
| `Binary.BinaryNode.Remove` | lib/BinaryNode.cpp:244-269 | The buffer without the range, in place; the extracted bytes appended to the other buffer. Same specification as a splice with no data. |
| `Binary.BinaryNode.Splice` | lib/BinaryNode.cpp:271-313 | Prefix, data and suffix, whether the buffer grows or shrinks; the extracted bytes appended to the other buffer. |
| `Binary.BinaryNode.Substr` | lib/BinaryNode.cpp:315-324 | Appends the bytes to the end that a splice would extract; fails exactly at the end of the buffer. |
| `Binary.BinaryNode.SubstrRange` | lib/BinaryNode.cpp:326-339 | Appends the bytes of the range that a splice would extract. |
| `Binary.BinaryNode.Append` | lib/BinaryNode.cpp:110-119 | The old bytes followed by the data. |
| `Binary.BinaryNode.Prepend` | lib/BinaryNode.cpp:129-136 | The data followed by the old bytes. |
| `Binary.SpliceAndUndo` | lib/BinaryNode.cpp:271-313 | A splice followed by a splice of what it extracted leaves the object as it was. |
| `SinkSpec.CounterIsTotal` | lib/ExceptionSink.cpp:38-188 | After any sequence of operations the thread's counter is the sum of all sinks' counts. |
| `SinkSpec.RunKeepsOrder` | lib/ExceptionSink.cpp:38-188 | In a run with rethrows all lists stay well-formed and all counts right, if and only if every rethrow is of a single exception and every assimilation between sinks of the same kind or of an empty one. |
| `SinkSpec.StepKeepsOrder` | lib/ExceptionSink.cpp:38-188 | The same for one operation. |
| `SinkSpec.InsertKeeps` | lib/ExceptionSink.cpp:67-81 | Inserting keeps the list well-formed if and only if nothing follows the exception, and the count right if and only if nothing follows it or nothing is counted. |
| `SinkSpec.NothingIsLost` | lib/ExceptionSink.cpp:43-52 | An insertion or an assimilation loses no exception if and only if the list was well-formed. |
| `SinkSpec.RethrownChainIsCut` | include/qore/intern/QoreException.h:285-288 | A run in which two exceptions are raised, caught together and rethrown: they are counted once, and the second is lost when another is raised. |
| `SinkSpec.AssimilationKeepsCounts` | lib/ExceptionSink.cpp:54-60 | Assimilation keeps the counts right if and only if there is nothing to take over or both sinks are of the same kind. |
| `SinkSpec.OperationsKeepCounts` | lib/ExceptionSink.cpp:126-188 | Catching, clearing and marking keep list and count in order. |
| `SinkSpec.ClearedIsNew` | lib/ExceptionSink.cpp:179-188 | Clearing leaves a sink as if it were new, apart from who manages it; catching keeps the request for the end of the thread. |
| `SinkSpec.ExitIsKept` | lib/ExceptionSink.cpp:38-42 | A request for the end of the thread is there, in one sink or another, if and only if it was there or was raised, until a sink is cleared. |
| `SinkSpec.StepKeepsExit` | lib/ExceptionSink.cpp:38-42 | The same for one operation. |
| `ExceptionSinks.ExceptionSink.Insert` | lib/ExceptionSink.cpp:67-81 | Appends an exception, whatever follows it, to an acyclic linked list, cutting off what followed the tail; sink and thread count one more unless externally managed. |
| `ExceptionSinks.CopyChain` | include/qore/intern/QoreException.h:123-125 | Copies an exception and all that follow it into a chain of new ones of the same length. |
| `ExceptionSinks.ExceptionSink.Assimilate` | lib/ExceptionSink.cpp:38-65 | Concatenates the two lists in order and empties the source; both remain well-formed acyclic lists. |
| `ExceptionSinks.ExceptionSink.CatchException` | lib/ExceptionSink.cpp:126-135 | Hands over the whole list in order and takes its count off the counter. |
| `ExceptionSinks.ExceptionSink.Clear` | lib/ExceptionSink.cpp:179-188 | Empties the sink and takes its count off the counter. |
| `ExceptionSinks.ExceptionSink.RaiseThreadExit` | lib/ExceptionSink.cpp:93-95 | Marks the sink and nothing else. |
| `ExceptionSinks.ExceptionSink.MarkExternallyManaged` | lib/ExceptionSink.cpp:157-165 | Marks the sink once, taking its count off the counter and keeping its list. |
| `ThreadSinks.Thread.Raise` | lib/ExceptionSink.cpp:67-81 | With any number of sinks: a new exception is exactly the step of the specification, no list sharing an exception with another. |
| `ThreadSinks.Thread.Rethrow` | include/qore/intern/QoreException.h:285-288 | Rethrowing any chain that was caught is exactly the step of the specification. |
| `ThreadSinks.Thread.Assimilate` | lib/ExceptionSink.cpp:38-65 | Exactly the step of the specification; third sinks are untouched. |
| `ThreadSinks.Thread.Catch` | lib/ExceptionSink.cpp:126-135 | Exactly the step of the specification, returning the whole list, which can be rethrown. |
| `ThreadSinks.Thread.Clear` | lib/ExceptionSink.cpp:179-188 | Exactly the step of the specification. |
| `ThreadSinks.Thread.RaiseThreadExit` | lib/ExceptionSink.cpp:93-95 | Exactly the step of the specification. |
| `ThreadSinks.Thread.MarkExternallyManaged` | lib/ExceptionSink.cpp:157-165 | Exactly the step of the specification. |

## Left out

- Types themselves: match scores, identity of types and whether a type accepts NOTHING are parameters, as `QoreTypeInfo` is not part of this model.
- RuntimeResolution.FindVariant: leaves out the check of functional domains and the error message after the search; RuntimeResolution.FindInHierarchy adds the inheritance list, access checks and abstract methods being filters on its levels.
- RuntimeResolution.FindVariantByTypes: searches one function; the inheritance list is searched as in RuntimeResolution.FindInHierarchy.
- ParseResolution.ParseTimeChoice: is about typed parameters without defaults and variants that are no no-ops, because the two searches score the others differently on purpose.
- ParseResolution.FindVariant: does not model the inheritance list, nor the error messages and warnings after the search.
- Signatures.QoreFunction.CheckDuplicateSignature: leaves out types that are not yet resolved, and the second check once they are.
- Database drivers, SQL, and commit and rollback inside a connection; whether opening succeeds and whether a connection broke are inputs of the steps.
- The pool's warning callback, total waiting times, event queues and destruction, and the failure of the wait when the pool becomes invalid.
- Changing the timeout of a pool or a managed datasource in the middle of a run.
- Managed datasources: close, reset, the destructor and actions that need no connection, which handle the lock by their own rules.
- PoolTheorems.SignalsAreNeverLost: says that a notified waiter can run and succeeds when it does; that it is eventually scheduled is left to the system.
- DatasourceRoundTrip.PrintThenParse: leaves out a datasource that is not open and has no database name, because its string has no `@`; and negative ports.
- DatasourceParser.ParseDatasource: the source's error for characters after the port cannot occur, and the model has no such case; it works on characters, without encodings or embedded NULs.
- Module reload, reinjection, injected and private modules, binary modules, path search and file access.
- LoadDeadlocks.Unblock: shows that a thread can go on, by loads that fail; that it does is left to the system.
- LoadTheorems.NeverRegisteredTwice: is about plain user modules; private modules are renamed before they are registered.
- Values of constants, their types and the delayed evaluation; a constant is its name, the names its value refers to, and whether its value is in error for another reason.
- Constants.ConstantList.ParseInitAll: whether a value is in error by itself is given, although a value around a recursive lookup, which yields NOTHING, may come to be in error for that; and it is about the constants of one list that refer to one another.
- Contexts.SortRows: takes the result of `std::sort` as given, a permutation in which no element is less than an earlier one; ContextSpec.SortExists shows that this can be met.
- Exceptions raised while a context is built, running out of memory, and iteration over rows and groups.
- Binary.BinaryNode.Splice: offsets and lengths are unbounded numbers; sums that overflow 64 bits are not modelled, nor is a buffer that is spliced into itself.
- Binary.BinaryNode.Append: takes the bytes as a value, so the source's case of a buffer appended to itself needs no care.
- Freeing exceptions, the text and location of an exception, and the mark that a sink was rethrown into.
- Command line, operators, statements, casts, compression, encryption, HTTP, directories and date handling.
