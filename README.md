# cpg-neo4j ingestion, modelled in Dafny

cpg-neo4j loads the code property graph of an analysed program into a Neo4j
database. `Application.call` does three things in order:

- it checks the paths to analyse;
- it reads an optional include file into the translation configuration;
- after the analysis, `pushToNeo4j` connects to the database with a bounded retry loop (`connect`), purges it, saves every node of every distinct translation unit inside one transaction (`pushNodes`), commits, and closes the session (`close`).

The model has four modules:

- `Wrappers` holds the `Option` and `Result` types.
- `Connection` is the retry loop of `connect`. What each attempt observes is an input: `outcome(i)` is the outcome of the i-th attempt, which is an opened session, a ConnectionException or an AuthenticationException. The `Connect` method is proved equal to the recursive specification `RetryFrom`. The lemmas about `RetryFrom` state the loop's promises.
- `Ingest` covers `pushNodes`, `close` and `pushToNeo4j`. The session, its transaction and its factory are a `Database` object. Each call on them appends one event to its `trace`. A fixed set `rejects` holds the nodes whose save throws. The HashSet's iteration order is any order that lists each distinct unit once (`Enumerate`). `SubgraphWalker.flattenAST` is a function parameter.
- `Cli` covers the path-validation loop of `call`, which fills a `filePaths` array and `topLevel`, and the include-file loop. `String.strip` uses Java's `Character.isWhitespace` set. Path joining is a function parameter. A file is the record of what `java.io.File` reports about it.

The model follows the code wherever other descriptions of the system say otherwise:

- `session.save(child)` is called once per node, with no depth argument. There is no single bulk save with a depth limit.
- The purge runs before the transaction and outside it. `PURGE_DB` is the constant `true`.
- There is no `finally` block. When a save throws, the `use` block closes the transaction, but nothing is committed and `close` is never called. Release does not happen on every exit path.
- The KDoc of `connect` (Application.kt:77-78) promises a Pair of empty Optionals when no connection is possible. The code throws ConnectException("Unable to connect to localhost:7687") at line 113, and so does the model (`Connection.AllTransientExhausts`).
- The KDoc of `call` (Application.kt:148-150) promises an IllegalArgumentException when no argument is given or a path is a directory. The code accepts an existing directory and makes it the top level (line 165, `Cli.DirectoryAccepted`). An empty list of paths fails with a NullPointerException at `topLevel!!` (line 179, `Cli.NoPathsNullPointer`).

## Model

| member | source | states |
|---|---|---|
| Connection.RetryFrom | src/main/java/de/fraunhofer/aisec/cpg/ptn4j/Application.kt:84-116 | The loop never lets `fails` exceed MAX_COUNT_OF_FAILS (10). Exactly one sleep follows every failure. One attempt is made per failure, plus the deciding attempt unless the budget ran out. A ConnectException is thrown only when all 10 failures were used. |
| Connection.Connect | src/main/java/de/fraunhofer/aisec/cpg/ptn4j/Application.kt:84-116 | The while loop over `fails`, `session` and `sessionFactory` computes the same result, failure count, sleeps and attempts as `RetryFrom` from 0. `fails` stays at most 10. |
| Connection.SkipTransients | src/main/java/de/fraunhofer/aisec/cpg/ptn4j/Application.kt:98-105 | Each ConnectionException only moves the loop on by one failure and lets it try again while `fails < 10`. |
| Connection.RetryDecidedByFirstNonTransient | src/main/java/de/fraunhofer/aisec/cpg/ptn4j/Application.kt:88-115 | Every attempt before the final `fails` was a ConnectionException. The run throws ConnectException exactly when `fails` reached 10. It connects exactly when the attempt at `fails` opened a session, and it returns that very session and factory. It exits exactly when that attempt raised an AuthenticationException. |
| Connection.AllTransientExhausts | src/main/java/de/fraunhofer/aisec/cpg/ptn4j/Application.kt:23 | When every attempt fails transiently, there are exactly 10 attempts and 10 sleeps of 2000 ms (20 seconds in all), and ConnectException("Unable to connect to localhost:7687") is thrown. The test at src/test/java/de/fraunhofer/aisec/cpg/ptn4j/ApplicationTest.kt:31 expects this message. |
| Connection.TransientsThenOpened | src/main/java/de/fraunhofer/aisec/cpg/ptn4j/Application.kt:96-97 | After k < 10 transient failures followed by an opened session, `connect` returns that session and its factory after k failures and k sleeps. |
| Connection.TransientsThenAuthExits | src/main/java/de/fraunhofer/aisec/cpg/ptn4j/Application.kt:106-108 | An AuthenticationException ends the run at once with exit status 1. No further attempt is made, and `fails` still counts only the earlier transient failures. |
| Ingest.Database.Save | src/main/java/de/fraunhofer/aisec/cpg/ptn4j/Application.kt:131 | A save either is accepted and logs exactly that node, or throws and logs nothing. It throws exactly for the nodes the database refuses. |
| Ingest.Enumerate | src/main/java/de/fraunhofer/aisec/cpg/ptn4j/Application.kt:128-129 | Iterating the HashSet yields every distinct unit exactly once and nothing else. |
| Ingest.EnumerationLength | src/main/java/de/fraunhofer/aisec/cpg/ptn4j/Application.kt:128 | Any such iteration is exactly as long as the set of distinct units. |
| Ingest.EnumerationLengthOfSet | src/main/java/de/fraunhofer/aisec/cpg/ptn4j/Application.kt:128-129 | A repetition-free listing of exactly a set's members is as long as the set. |
| Ingest.FlattenAllMembers | src/main/java/de/fraunhofer/aisec/cpg/ptn4j/Application.kt:129-130 | A node is among the flattened nodes exactly when it lies in the flattened AST of some distinct unit. |
| Ingest.FlattenAllOfUnits | src/main/java/de/fraunhofer/aisec/cpg/ptn4j/Application.kt:128-130 | Over any HashSet order, a node is flattened exactly when it lies in the flattened AST of one of the input units. |
| Ingest.SavedNodesIndependentOfOrder | src/main/java/de/fraunhofer/aisec/cpg/ptn4j/Application.kt:128-131 | Two HashSet iteration orders of the same units flatten, and so save, the same set of nodes. |
| Ingest.FirstRejected | src/main/java/de/fraunhofer/aisec/cpg/ptn4j/Application.kt:131 | Locates the first refused save: every node before it is accepted, and the node at it is refused unless none is. |
| Ingest.FlattenAllAppend | src/main/java/de/fraunhofer/aisec/cpg/ptn4j/Application.kt:129-133 | Flattening two runs of units in sequence gives the nodes of the first run followed by those of the second. |
| Ingest.FlattenAllSplit | src/main/java/de/fraunhofer/aisec/cpg/ptn4j/Application.kt:129-133 | Cutting the unit order at any point cuts the flattened node sequence between the two parts. |
| Ingest.FlattenAllAround | src/main/java/de/fraunhofer/aisec/cpg/ptn4j/Application.kt:129-133 | The nodes of unit i sit between the nodes of the units before it and those after it. |
| Ingest.FlattenAllStep | src/main/java/de/fraunhofer/aisec/cpg/ptn4j/Application.kt:129-133 | One more outer iteration appends exactly the flattened AST of its unit. |
| Ingest.SavesAppend | src/main/java/de/fraunhofer/aisec/cpg/ptn4j/Application.kt:130-131 | The save log of two runs of nodes is the log of the first followed by the log of the second. |
| Ingest.FirstRejectedAt | src/main/java/de/fraunhofer/aisec/cpg/ptn4j/Application.kt:131 | A refused node preceded only by accepted nodes is the first refused one. |
| Ingest.PushNodesRejected | src/main/java/de/fraunhofer/aisec/cpg/ptn4j/Application.kt:129-133 | When child j of unit i is refused after every earlier save succeeded, it is the first refused node of the whole flattened sequence, and the log holds exactly the saves before it. |
| Ingest.PushNodes | src/main/java/de/fraunhofer/aisec/cpg/ptn4j/Application.kt:124-134 | Each distinct unit is flattened once, in HashSet order. The save log is the concatenation of their flattened ASTs, up to the first refused save, which throws. The run completes exactly when no node is refused. On completion there are exactly as many traversals as distinct units, not as input units. |
| Ingest.Close | src/main/java/de/fraunhofer/aisec/cpg/ptn4j/Application.kt:142-145 | The session is cleared, then the factory is closed, and nothing else happens. |
| Ingest.PushToNeo4j | src/main/java/de/fraunhofer/aisec/cpg/ptn4j/Application.kt:62-72 | A ConnectException or an exit from `connect` touches no database. After a connection, the run either pushes every node with the complete trace, or fails on the first refused save with the failed trace. |
| Ingest.PushSession | src/main/java/de/fraunhofer/aisec/cpg/ptn4j/Application.kt:66-71 | With an open session, the run completes exactly when no save is refused. Its log is then purge, begin, every save, commit, transaction end, clear, factory close. Otherwise its log is purge, begin, the accepted saves, and the transaction end. |
| Ingest.NormalTraceOrder | src/main/java/de/fraunhofer/aisec/cpg/ptn4j/Application.kt:64-71 | In a completed run the purge happens once and first, before the transaction begins. Every save lies inside the transaction. The one commit comes after the last save. Then the transaction ends, the session is cleared, and the factory is closed, in that order. |
| Ingest.FailedTraceOrder | src/main/java/de/fraunhofer/aisec/cpg/ptn4j/Application.kt:67-71 | In a run with a refused save, the transaction is closed without a commit, and `close` never runs, so nothing is cleared or closed. |
| Ingest.DuplicateUnitFlattenedOnce | src/main/java/de/fraunhofer/aisec/cpg/ptn4j/Application.kt:126-128 | Three units of which two are equal are iterated as exactly the two distinct units, so two subgraphs are flattened, each once. |
| Cli.FirstRejectedFile | src/main/java/de/fraunhofer/aisec/cpg/ptn4j/Application.kt:160-168 | Locates the first file the loop rejects: every file before it passes its checks, and the file at it fails them unless none does. |
| Cli.RejectedAt | src/main/java/de/fraunhofer/aisec/cpg/ptn4j/Application.kt:163-167 | The exception of the first rejected file is the exception of the whole validation. |
| Cli.Unwrapped | src/main/java/de/fraunhofer/aisec/cpg/ptn4j/Application.kt:169-179 | Once every slot of `filePaths` is filled, its values are the files in slot order. |
| Cli.UnwrappedFilled | src/main/java/de/fraunhofer/aisec/cpg/ptn4j/Application.kt:169 | Slots filled with the given files unwrap to exactly those files. |
| Cli.AcceptedAt | src/main/java/de/fraunhofer/aisec/cpg/ptn4j/Application.kt:164-169 | An accepted file moves the first rejection past it. It sets `topLevel` only when `topLevel` was still null. |
| Cli.AcceptedAll | src/main/java/de/fraunhofer/aisec/cpg/ptn4j/Application.kt:170-179 | After a loop that accepted every file, `topLevel!!` throws exactly when no file set a top level. |
| Cli.ValidatePaths | src/main/java/de/fraunhofer/aisec/cpg/ptn4j/Application.kt:157-179 | The loop that fills the `filePaths` array and `topLevel`, followed by `topLevel!!`, ends as the validation specification says: the first rejected file's exception, the NullPointerException, or the files with their top level. |
| Cli.ValidationAccepts | src/main/java/de/fraunhofer/aisec/cpg/ptn4j/Application.kt:160-170 | Validation succeeds if and only if every path exists and is not hidden, every file checked after `topLevel` was set has it as its parent, and some file set `topLevel`. On success, `filePaths[i]` is the i-th file. |
| Cli.TopLevelFixedByFirstFile | src/main/java/de/fraunhofer/aisec/cpg/ptn4j/Application.kt:164-165 | When the first file is a directory or has a parent, it fixes `topLevel`, and no later file changes it. |
| Cli.ValidatedSameTopLevel | src/main/java/de/fraunhofer/aisec/cpg/ptn4j/Application.kt:164-168 | When the first file is a directory or has a parent, then on success the top level is the first file if it is a directory, otherwise its parent, and every later file's parent equals it. |
| Cli.UnusablePathRejected | src/main/java/de/fraunhofer/aisec/cpg/ptn4j/Application.kt:163 | A missing or hidden path reached by the loop throws IllegalArgumentException("Please use a correct path. It was: " + path). |
| Cli.MismatchedParentRejected | src/main/java/de/fraunhofer/aisec/cpg/ptn4j/Application.kt:167 | A usable later file whose parent differs from the top level set before it throws IllegalArgumentException("All files should have the same top level path."), unless an earlier file was rejected first. |
| Cli.MissingParentRejected | src/main/java/de/fraunhofer/aisec/cpg/ptn4j/Application.kt:167 | A usable later file without a parent throws a NullPointerException in the comparison with the top level, unless an earlier file was rejected first. |
| Cli.DirectoryAccepted | src/main/java/de/fraunhofer/aisec/cpg/ptn4j/Application.kt:163-165 | An existing, visible directory is accepted and is itself the top level. |
| Cli.NoPathsNullPointer | src/main/java/de/fraunhofer/aisec/cpg/ptn4j/Application.kt:179 | With no paths, `topLevel!!` throws a NullPointerException. |
| Cli.StripLeading | src/main/java/de/fraunhofer/aisec/cpg/ptn4j/Application.kt:194 | Removing leading whitespace never lengthens the line. |
| Cli.StripTrailing | src/main/java/de/fraunhofer/aisec/cpg/ptn4j/Application.kt:194 | Removing trailing whitespace never lengthens the line. |
| Cli.StripLeadingRemovesWhitespace | src/main/java/de/fraunhofer/aisec/cpg/ptn4j/Application.kt:194 | The front part removed is all whitespace, and what remains is a suffix of the line that does not start with whitespace. |
| Cli.StripTrailingRemovesWhitespace | src/main/java/de/fraunhofer/aisec/cpg/ptn4j/Application.kt:194 | The back part removed is all whitespace, and what remains is a prefix of the line that does not end with whitespace. |
| Cli.StripInfix | src/main/java/de/fraunhofer/aisec/cpg/ptn4j/Application.kt:193-196 | `strip()` returns the contiguous part of the line that starts right after its leading whitespace. |
| Cli.StripEnds | src/main/java/de/fraunhofer/aisec/cpg/ptn4j/Application.kt:193-196 | What `strip()` returns neither starts nor ends with whitespace. |
| Cli.StripIdempotent | src/main/java/de/fraunhofer/aisec/cpg/ptn4j/Application.kt:193-196 | Stripping twice is stripping once. |
| Cli.StripIgnoresLeadingWhitespace | src/main/java/de/fraunhofer/aisec/cpg/ptn4j/Application.kt:196 | Whitespace in front of a path does not change what `strip()` returns. |
| Cli.ResolveIncludeLine | src/main/java/de/fraunhofer/aisec/cpg/ptn4j/Application.kt:193-197 | A line fails, on `it[0]`, exactly when it is empty. |
| Cli.AbsoluteLineStaysAbsolute | src/main/java/de/fraunhofer/aisec/cpg/ptn4j/Application.kt:193-194 | A line starting with `/` adds its stripped self, which still starts with `/`, without the base directory. |
| Cli.IndentedAbsoluteLineIsJoined | src/main/java/de/fraunhofer/aisec/cpg/ptn4j/Application.kt:193-196 | The test reads the unstripped first character, so whitespace followed by an absolute path is joined to the base directory as a relative line would be. |
| Cli.BaseDir | src/main/java/de/fraunhofer/aisec/cpg/ptn4j/Application.kt:186-189 | The base directory is the include file's parent, or "" when it has none. |
| Cli.FirstEmptyLine | src/main/java/de/fraunhofer/aisec/cpg/ptn4j/Application.kt:191-193 | Locates the first empty line: every line before it is non-empty, and the line at it is empty unless none is. |
| Cli.IncludePathsStep | src/main/java/de/fraunhofer/aisec/cpg/ptn4j/Application.kt:191-198 | One more line adds exactly its own resolved include path at the end. |
| Cli.ConfigurationBuilder.IncludePath | src/main/java/de/fraunhofer/aisec/cpg/ptn4j/Application.kt:193-196 | `includePath` appends one include path to the configuration and changes nothing else. |
| Cli.LoadIncludesFile | src/main/java/de/fraunhofer/aisec/cpg/ptn4j/Application.kt:184-198 | A missing include file, or a directory, throws before anything is added. Otherwise every line before the first empty one adds its resolved path, in file order. The block throws IndexOutOfBounds exactly when an empty line exists. |

## Left out

- The Neo4j OGM and driver (`Configuration.Builder`, `SessionFactory`, `Session`) are not modelled. Attempt outcomes are inputs, and the session calls are events in a log.
- Failures of the purge, the commit or the transaction's close are not modelled. Only a refused save throws.
- `SubgraphWalker.flattenAST`, `TranslationManager.analyze` and `Node` equality live in the cpg library. Flattening is a function parameter, and node equality is Dafny's value equality. The model claims nothing about object identity or hash codes.
- The HashSet's concrete iteration order is not modelled. Every order that lists each distinct unit once is allowed.
- `Thread.sleep` is a counted event, not a delay. The InterruptedException that it, and so `connect` and `pushToNeo4j`, can throw (Application.kt:57-58, 79-80) is not modelled: no attempt outcome stands for an interrupt. `exitProcess` is a terminal result. Messages printed to stdout and stderr are left out, because they change no state.
- `Paths.get(...).toAbsolutePath().normalize()` is not modelled. The paths given to the validation loop are already absolute and normalised, and `File` facts are inputs. `Paths.get(baseDir, line)` is the function parameter `join`.
- Reading the include file's lines is not modelled. The lines are an input, and only opening a missing file or a directory is modelled, as FileNotFound.
- The `START_DOCKER` branch and `DockerUtils` are external process I/O, and the branch is switched off by a constant.
- picocli option parsing and `main` are not modelled. `Pair` is the `Connected(session, factory)` result.
- Cli.ResolveIncludeLine: its contract states only when a line fails. The resolved path of each kind of line is stated by Cli.AbsoluteLineStaysAbsolute and Cli.IndentedAbsoluteLineIsJoined, and by Cli.LoadIncludesFile through IncludePaths.
- Cli.StripInfix: states that the result is the infix right after the leading whitespace. It does not state where the infix ends; Cli.StripTrailingRemovesWhitespace states that.
- Ingest.Database.Save: a refused save is a fixed property of the node (the set `rejects`), not of the moment of the call. A node whose save once succeeded can never fail on a later save. A failure that depends on when it happens, such as the connection dropping in the middle of the push, is only captured when it falls on a node that was not saved before.
