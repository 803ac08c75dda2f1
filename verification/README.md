# A verified model of go-bootstrap's stateful protocols and generators

This project models, in Dafny 4.11, the parts of go-bootstrap whose correctness spans several
statements, processes or functions, and proves what they keep. `dafny verify dfyconfig.toml`
checks it all.

## What is modelled

**The sign-in throttle** (`Throttle`, `ThrottleRequests`, `ThrottleMails`,
`ThrottleOutcomes`). The attempts table is swept on every
recording; it is measured against the full, unswept history of statements since a key's last reset.
The handlers around it are a timed step machine in which any number of requests stand between their
check and their recording. A window is the half-open stretch (lo, lo + 15 minutes], because the
counting query is strict. Times are microseconds of the database clock, which never goes backwards.

**Password generations, sessions and reset tokens** (`Accounts`, `Credentials`, `Sessions`,
`ResetConfirm`, `ResetMail`). Users, token rows, session blobs, mail jobs and the outbox, changed by single
statements in any interleaving, at Read Committed (section 13.2.1 of the PostgreSQL documentation):
the liveness SELECT locks nothing, an UPDATE of a user waits for that row's lock, and the row counts
of both UPDATEs are discarded. Assumed: every argon2 hash has a salt not used before; SHA-256 is
injective; a session cookie names one blob; a token's 32 random bytes were not minted before. The
expiry of a token comes from the application clock and is compared with the database clock, so it
is an arbitrary parameter of the mint.

**The test template** (`TestTemplate`, `TemplateSweep`). Runs of `bin/testdb` rebuild in scratch
databases, sweep orphans, stamp, drop and rename, at any time killed or failing, while others rebuild, packages clone
and migration files are edited. Each command is one step, except that migrating lists the directory
when it begins and then reads and applies one file a step, as goose does; a listed file that is gone
by then fails the run. A directory is a sequence of distinctly named files in the order of their
names. Live processes have distinct identifiers; a digest of digests is injective; a drop of the
template waits for copies of it.

**The port registry and its lock** (`Ports`, `PortLock`). First-fit allocation over the registry
file; then the mkdir lock with its fifty attempts, its stale-lock removal and an exit trap that is
installed before the lock is taken. The pool's step is positive, and start and step stay fixed.

**Agent-config sync** (`AgentConfig`, `AgentSources`, `AgentContent`, `AgentTexts`, `AgentFrontmatter`,
`AgentSync`, `AgentEffects`, `AgentExamples`). The rule sources as written; the plan computed from a
file tree, what its files say, its application and its check. Results hold for any `Wording` whose notice opens like an HTML comment;
`WORDING` is the script's own.

**The generators** (`ModelGen`, `RowMaps`, `ConnVariant`, `ConnGen`, `ConnConvention`). Column names
to field names with a decoder; the rendered struct and row map, given the meaning of scanning a row and mapping it back;
the conn variant of a `*Tx` function, given Go's meaning of binding parameters, variadic calls and
name hiding; and the choice, order and refusal of variants over a package.

**Logging** (`LogSettings`, `LogText`, `LogManager`). The settings language, also as text, and the
registry of live loggers. Each method is one atomic step (`Logger` in fact writes its maps under a read lock).

**Hash slots** (`HashSlots`). The channel that caps concurrent argon2 work.

`Wrappers`, `Sets` and `Text` hold what the others share. Strings are sequences of characters; Go's byte
strings and JavaScript's UTF-16 strings are both modelled so.

## Where the code and its documentation part

The model follows the code. Each of these has a lemma that names a failing input, as a run from the
start where the input is a run, and a condition that says exactly when the promise holds, where one
exists.

- `auth/reset.go:4` calls tokens single-use. From the start, one token can reset a password twice
  (`Accounts.OneTokenResetsTwice`): two resets that both read it live both commit. Resets by one token
  that both commit always overlap so (`Accounts.OneTokenTwoResetsOverlap`).
- `auth/reset.go:5` says a reset retires every outstanding token. One minted between the retiring
  UPDATE and the commit stays live (`Accounts.LateMintFromTheStart`); `Accounts.LiveExactly` says which
  tokens are live.
- `web/throttle.go:20` limits a window to five. With c requests between check and recording it is
  4 + c (`ThrottleRequests.AttemptsPerWindow`), and that is attained for every c
  (`ThrottleRequests.BoundIsAttained`).
- `bin/testdb:30` says the check catches edits. A file edited after it was applied and before the stamp
  passes the check (`TestTemplate.EditMissed`), and so does one edited after the listing, applied, and
  put back before the stamp (`TestTemplate.UndoneEditMissed`). A passing check is right exactly when the
  build listed the stamped names and read each file as stamped (`TestTemplate.CheckIsRightExactly`).
- `bin/port-allocate:48` releases the lock on every exit, so a process that gives up removes another's
  lock and two worktrees can get one port (`PortLock.TwoWorktreesGetOnePort`). A step lets a newcomer in
  beside a holder exactly when it removes the lock from under one, and a run keeps every newcomer out
  exactly when no step of it does that (`PortLock.NewcomerEntersExactly`, `PortLock.ExclusionExactly`).
- A sync is not always a fixed point. It is exactly when the run leaves its own sources as they were
  (`AgentSync.SourcesKept`): a `CLAUDE.md` in `ai/rules`, one in `ai/common` whose translation is not
  there yet, and an orphaned generated `AGENTS.md` in either place all break it, each shown by a tree of
  one file (`AgentExamples.FourTreesThatDrift`).
- `cmd/modelgen/main.go:245` derives field names; `i_d` and `id` meet, and so do `a_1` and `a1`
  (`ModelGen.FieldNamesThatMeet`). Columns of lower-case letters and digits meet exactly when their
  canonical parts agree (`ModelGen.FieldNamesCollideExactly`).
- `cmd/conngen/main.go:3` promises a variant that supplies the pool. It does exactly when no remaining
  name hides the pool or the function, none is blank, and there is a result to return
  (`ConnVariant.VariantCallsTxExactly`, `ConnVariant.HiddenPoolExample`).
- `logging/logging.go:36` says `MyClass:debug` sets a logger to debug. Levels on names take no effect;
  the documentation holds exactly of settings whose levels on names repeat the default they put in force
  (`LogSettings.LevelsAreHonouredExactly`, `LogSettings.LevelExample`).

## Model

| member | source | states |
|---|---|---|
| `Throttle.PrunedTableRefinesLog` | web/throttle.go:24-58 | after any statements with a nondecreasing clock, the swept table blocks a key exactly when the unswept history since its last reset holds at least 5 attempts newer than now minus the window |
| `Throttle.TableCountsLog` | web/throttle.go:26-58 | the table counts what the history counts, for every cutoff no older than the window before now |
| `Throttle.ApplyCount` | web/throttle.go:45-68 | one statement moves the swept table's count and the unswept reference alike |
| `Throttle.OtherKeysDoNotMatter` | web/throttle.go:45-68 | no statement on another key, and no sweep, moves a key's verdict |
| `Throttle.BlockedKeyFreesItself` | web/throttle.go:26-40 | a key is free one window after its last recorded attempt, whatever else happens |
| `Throttle.AttemptTable.ThrottleBlockedTx` | web/throttle.go:26-40 | the verdict of the table is that of the full history |
| `Throttle.AttemptTable.ThrottleFailTx` | web/throttle.go:45-58 | sweeps every key and records one attempt, keeping the table the image of the history |
| `Throttle.AttemptTable.ThrottleResetTx` | web/throttle.go:61-68 | clears one key, keeping the table the image of the history |
| `ThrottleRequests.KeysAreInjective` | web/handlers_auth.go:34-90 | purpose, address and email each give a budget of their own |
| `ThrottleRequests.StepKeepsBound` | web/handlers_auth.go:34-59 | once an open window is full, attempts and requests in flight only trade places |
| `ThrottleRequests.AttemptsPerWindow` | web/handlers_auth.go:34-59 | with at most c requests on a key between check and recording, no window without a reset of the key holds more than 4 + c of its attempts, in any interleaving |
| `ThrottleRequests.MailsPerWindow` | web/handlers_auth.go:90-115 | reset keys are never cleared, so over a whole run no more than 4 + c mails come of the attempts recorded in one window |
| `ThrottleMails.MailsPerRealWindow` | web/handlers_auth.go:90-115 | dated by when they are enqueued, no window's mails exceed 4 + c and the requests that stood between recording and enqueueing when it opened |
| `ThrottleRequests.BoundIsAttained` | web/handlers_auth.go:34-50 | for every c there is a run with at most c in flight whose window holds exactly 4 + c attempts |
| `ThrottleOutcomes.CheckExactly` | web/handlers_auth.go:34-42 | after any run, a request passes its check exactly when its key's history since the last reset holds fewer than five attempts of the last fifteen minutes |
| `ThrottleOutcomes.WaitingFrees` | web/throttle.go:26-40 | after any run, a quarter of an hour without statements lets every client pass |
| `ThrottleOutcomes.RightPasswordClears` | web/handlers_auth.go:44-59 | after any run, a sign-in past its check that has the right password records nothing and, whatever others do before the clearing, leaves its key free with no attempt remembered |
| `ThrottleOutcomes.EveryWrongPasswordCounts` | web/handlers_auth.go:44-51 | over any run, the attempts on a sign-in key, the requests still to record and those that broke off are together its wrong passwords |
| `ThrottleOutcomes.RecordedMailsOnce` | web/handlers_auth.go:100-115 | a reset request that recorded enqueues one mail on its key, whatever others do before, and no second one |
| `ThrottleOutcomes.ResetMailsOnce` | web/handlers_auth.go:91-115 | left alone, a reset request past its check records one attempt and enqueues one mail |
| `ThrottleOutcomes.EveryRecordedResetMails` | web/handlers_auth.go:91-115 | over any run, the attempts on a reset key are its mails, the requests still to enqueue and those that went without |
| `Accounts.StepKeepsGenerations` | auth/users.go:147-180 | a user's stored hash is the last one a committed creation or reset gave |
| `Accounts.StepKeepsRowsAreMints` | auth/reset.go:53-54 | token rows and committed mints of existing users correspond |
| `Accounts.StepKeepsRetiringHolds` | auth/reset.go:96-98 | the rows a running reset retired stay unused, and its user's, until it commits |
| `Accounts.RunKeepsInv` | auth/reset.go:74-104 | every interleaving keeps locks, generations, fresh salts, and the agreement of rows with history |
| `Accounts.LiveExactly` | auth/reset.go:106-121 | a token is found live exactly when it was minted for an existing user, has not expired, and no committed reset of that user ran its retiring UPDATE after the mint |
| `Accounts.EveryResetHadALiveToken` | auth/reset.go:74-104 | every committed reset read a token of its own user that was live when it looked |
| `Accounts.OneTokenTwoResetsOverlap` | auth/reset.go:74-104 | of two committed resets by one token, the later had read it before the earlier committed |
| `Accounts.OverlappingResetsBothCommit` | auth/reset.go:84-104 | two resets that both read a token live do both commit |
| `Accounts.OneTokenResetsTwice` | auth/reset.go:74-104 | a run from the start in which one token resets its user's password twice |
| `Accounts.UsedAtIsWrittenOnce` | auth/reset.go:96-98 | a row once used never changes again, short of its user's deletion |
| `Accounts.ResetIsAtomic` | auth/reset.go:89-103 | only the commit of a reset touches the tables; it installs the hash and retires exactly its user's open tokens minted before it looked, and leaves others alone |
| `Accounts.LateMintSurvives` | auth/reset.go:96-98 | a token minted between retiring and commit is live after the commit |
| `Accounts.LateMintFromTheStart` | auth/reset.go:96-98 | a run from the start in which that happens |
| `Accounts.StepKeepsEmails` | auth/users.go:147-180 | a user keeps the address of its creation |
| `Accounts.SameHashMeansNoReset` | auth/users.go:126-134 | between two moments at which a user's hash is the same, no password of that user was set |
| `Credentials.PolicyExactly` | auth/users.go:225-236 | which passwords are refused, and with which error, told from the number of characters and of bytes |
| `Credentials.StoredCredentials` | auth/users.go:147-180 | after any run no stored hash is of a password the policy refuses, no address belongs to two users, and no token was used in the future |
| `Credentials.CreationExactly` | auth/users.go:147-180 | a creation stores the address and a hash of the given password exactly where the policy admits it and the address is free |
| `Credentials.DeletionExactly` | migrations/005_create_password_reset_tokens.sql:4 | a deletion takes the user and exactly its tokens, unless a running reset has the user's row |
| `Credentials.RollbackForgets` | db/tx.go:18-24 | a rollback forgets the transaction and its lock, and nothing else |
| `Sessions.StepKeepsStored` | web/handlers_auth.go:61-68 | both halves of a stored blob come from one successful sign-in, whatever concurrent requests overwrite |
| `Sessions.RunKeepsInv` | web/auth.go:25-58 | every interleaving of sign-ins, loads, sign-outs, resets and deletions keeps what blobs and requests may rely on |
| `Sessions.ServedOnlyOnCurrentPassword` | web/auth.go:25-58 | a user is attached only on a session whose own (user, epoch) pair was written by a sign-in that gave the password of the very hash LoadUser found, with no password set between the two reads |
| `Sessions.LoadUserExactly` | web/auth.go:25-58 | after any run, LoadUser serves a request as its own sign-in's user exactly when its session has both halves, that user exists, and none of its passwords was set since the sign-in read it; every other request as nobody |
| `Sessions.ServingMeansAttached` | web/auth.go:25-58 | after any run, a request stands as served as a user only because LoadUser attached that user to it, on the session it has, which held at that step |
| `Sessions.StrangersAreNobody` | web/auth.go:29-32 | a request without a stored session is served as nobody |
| `Sessions.ResetSignsOutEarlierSessions` | web/auth.go:44-52 | after a reset commits, every session served as its user was signed in on a later read |
| `Sessions.CompareExactly` | auth/users.go:197-203 | a compare accepts exactly the password the hash was made from |
| `Sessions.SigninStoresSession` | web/handlers_auth.go:62-68 | a sign-in left alone stores, under a fresh identifier, a session with both halves, and its old one is gone |
| `Sessions.StoredSessionIsServed` | web/auth.go:25-58 | whoever comes with a stored session of the current password is served as its user |
| `Sessions.DestroyedIsGone` | web/auth.go:44-52 | signing out, or a stale epoch, removes the session, and ending the request does not bring it back |
| `Sessions.VanishedUserIsRemoved` | web/auth.go:35-39 | a vanished user is taken out of the stored session |
| `Sessions.OthersGoOn` | web/auth.go:25-58 | a request that breaks off stores nothing, and any account statement may come between two steps |
| `Sessions.HistoryIsNotRead` | web/auth.go:25-58 | no step depends on which sign-in a blob is recorded to come from |
| `ResetConfirm.ResetMeans` | auth/reset.go:70-104 | a reset sets the password, retires every open token of the user, and touches no other user, token or already used row |
| `ResetConfirm.Transaction.ResetPasswordTx` | auth/reset.go:70-104 | which failure arises when, a failing SELECT, either UPDATE or the reading back among them; that success is a reset; and which failures leave a write behind in the transaction |
| `ResetConfirm.Connection.PasswordResetConfirm` | web/handlers_auth.go:148-160 | success is a whole reset; every error leaves the committed state as it was, except a commit of unknown outcome, which leaves the whole reset or nothing |
| `ResetConfirm.UninterruptedResetRefines` | auth/reset.go:74-104 | the interleaved transaction, left alone from reading its token to its commit, commits the reset the sequential one does, and nothing where that fails |
| `ResetMail.StepKeepsApart` | jobs/password_reset_email.go:30-36 | no minted token is in two places, or twice in one |
| `ResetMail.RunKeeps` | jobs/password_reset_email.go:32-53 | every interleaving keeps rows before links, tokens apart, and every token somewhere |
| `ResetMail.MailFollowsItsRow` | jobs/password_reset_email.go:32-53 | a link leaves only after its token's row was committed, to the address the row's user was created with, and no two messages carry one token |
| `ResetMail.MintedTokensAreConserved` | jobs/password_reset_email.go:15-54 | of attempts, messages and tokens lost with a failed attempt, a minted cleartext is in exactly one, and only a minted one is in any |
| `ResetMail.AttemptMails` | jobs/password_reset_email.go:32-53 | an attempt left alone mints a token of its own for the user of the address and mails it there, live until it expires |
| `ResetMail.SendDelivers` | jobs/password_reset_email.go:42-53 | a held token that is sent ends in one message more; one whose sending fails ends lost |
| `ResetMail.NobodyToMail` | jobs/password_reset_email.go:32-37 | for an address without a user nothing is minted and nothing sent |
| `ResetMail.VanishedUserEndsAttempt` | jobs/password_reset_email.go:32-37 | nor for a user that vanishes before the mint |
| `TestTemplate.StepKeepsSeen` | bin/testdb:61-85 | a step leaves as template or test database only copies of completed builds |
| `TestTemplate.ExecuteKeepsInv` | bin/testdb:61-85 | any runs, kills, failures, edits and clones keep what each run relies on |
| `TestTemplate.OnlyCompletedBuildsAreSeen` | bin/testdb:15-85 | the template is absent or a completed build, fully migrated and stamped, and each test database copies one |
| `TestTemplate.CheckIsRightExactly` | bin/testdb:41-59 | when the check passes, the template has the directory's migrations exactly if its build listed the stamped names and read each file as stamped; always if nothing was edited from listing to stamp |
| `TestTemplate.EditDuringBuildPassesCheck` | bin/testdb:71-84 | an edit between migrating and stamping yields a template that passes the check and lacks the edit |
| `TestTemplate.EditMissed` | bin/testdb:71-84 | a run from the start in which that happens |
| `TestTemplate.UndoneEditMissed` | cmd/migrate/main.go:77-79 | a run from the start in which a file is edited, applied and put back, and the check passes over the edited schema |
| `TestTemplate.CopyIsMade` | bin/testdb:82-84 | a copy that is begun ends as the template stood, a completed build, whatever others do meanwhile |
| `TestTemplate.CloneTemplate` | webtest/webtest.go:116-133 | the retry loop: the first of 21 tries that clones ends it, else the last failure is reported |
| `TestTemplate.CreateTestDB` | webtest/webtest.go:98-134 | after any run from the start, with others acting before each try and during the copy, it has a copy of one completed build within 21 tries exactly if one of them finds the template and is not rejected |
| `TemplateSweep.SweepIsThorough` | bin/testdb:64-71 | when a run creates its scratch database, none from before its start is left, unless its owner created it anew meanwhile |
| `TemplateSweep.EndedRunLeavesNone` | bin/testdb:61-86 | a run that ends, by its swap or by any failure short of a kill, leaves no scratch database of its own |
| `TemplateSweep.FailureEndsRun` | bin/testdb:61-86 | a failing command ends the run, drops its scratch database and changes nothing else |
| `TemplateSweep.MigratingScratchStays` | bin/testdb:61-71 | while a run migrates, no other drops or changes its scratch database |
| `TemplateSweep.DropsExactly` | bin/testdb:82-84 | dropping the template waits for its copies |
| `TemplateSweep.VerdictExactly` | bin/testdb:41-59 | the check says missing, current or stale exactly by the template's stamp and the directory |
| `TemplateSweep.BuildInstalls` | bin/testdb:61-85 | with no other run, a build of any directory over any orphans ends with the template migrated and stamped, every orphan gone and every test database as it was |
| `TemplateSweep.OrphanIsSwept` | bin/testdb:64-69 | a run from the start in which a killed run's scratch database is gone after the next build |
| `Ports.FreeSlot` | bin/port-allocate:64-69 | the search ends, at the first slot not in use |
| `Ports.SearchFreePort` | bin/port-allocate:64-69 | finds that port, the first of start + k step that no row has, in at most one probe more than there are rows |
| `Ports.FreePortIsLeast` | bin/port-allocate:64-69 | the port found is exactly start + k step for the one k whose port no row has while every lower one some row has; in an empty registry, start |
| `Ports.AllocateKeepsWellFormed` | bin/port-allocate:57-71 | appending keeps ports distinct, of the pool, and one row a worktree |
| `Ports.ReleaseKeepsWellFormed` | bin/port-deallocate:43-45 | filtering keeps the same and removes exactly one worktree's rows |
| `Ports.BlocksAreDisjoint` | bin/port-allocate:10-17 | a port lies in the block of one worktree only |
| `Ports.Registry.Allocate` | bin/port-allocate:55-72 | idempotent for a worktree that has a port; else appends the least free one |
| `Ports.Registry.Deallocate` | bin/port-deallocate:43-45 | removes the worktree's rows and no others |
| `PortLock.ExclusiveExactly` | bin/port-allocate:27-53 | the lock stays with the one process inside exactly when the step does not remove it from under that process |
| `PortLock.NewcomerEntersExactly` | bin/port-allocate:27-53 | after a step, a process that starts and tries is inside beside another exactly when the step removed the lock from under a holder |
| `PortLock.ExclusionExactly` | bin/port-allocate:27-53 | at no point of a run would a newcomer be inside beside another, exactly when the run robs no holder |
| `PortLock.StepKeepsReadsHold` | bin/port-allocate:55-71 | what a process read under the lock still holds when it writes |
| `PortLock.OneAtATimeIsWellFormed` | bin/port-deallocate:41-45 | updates made one at a time keep the registry well formed |
| `PortLock.UpdatesLinearize` | bin/port-allocate:27-72 | when nobody is robbed, at most one process is inside; the registry, and the port each job came to, lookups included, are what the jobs give one at a time in the order they took effect; and only such ports are printed |
| `PortLock.JobAlone` | bin/port-allocate:27-72 | with the lock free and nobody in the way, a job does its update, prints what it came to and frees the lock |
| `PortLock.JobMeans` | bin/port-allocate:57-71 | which is the known worktree's port, or the first free one appended; after a release, the other worktrees' rows |
| `PortLock.GivesUpExactly` | bin/port-allocate:27-46 | a waiter gives up, or takes the lock for stale, at its fiftieth attempt alone |
| `PortLock.LeavingFrees` | bin/port-allocate:48-49 | a holder that exits at any point frees the lock and changes no row |
| `PortLock.PatientRunsRobNobody` | bin/port-allocate:27-48 | runs in which no process stands at its last attempt while the lock is held, and none is interrupted before it has the lock, rob nobody, even when holders are interrupted or die |
| `PortLock.GivingUpDuplicatesAPort` | bin/port-allocate:40-48 | the exit trap of a process that gives up lets two processes choose one port |
| `PortLock.TwoWorktreesGetOnePort` | bin/port-allocate:27-72 | a run from the start, with an empty registry, that ends with one port in the rows of two worktrees |
| `AgentContent.RootsSayTheirSources` | bin/sync-agent-config:124-141 | AGENTS.md has the notice, every common section and every rule in the order of the files' names; the root CLAUDE.md has the notice, the sections and the footer |
| `AgentContent.SectionsAndRules` | bin/sync-agent-config:124-130 | the inlined rules are joined as the sections are |
| `AgentSources.SourceIsRead` | bin/sync-agent-config:54-122 | a rule source with a title, paths and claudePaths, each there or not and bare or quoted, is read as those, claudePaths before paths and the file's name for no title; without a path it is no rule |
| `AgentTexts.TranslationExactly` | bin/sync-agent-config:155-183 | a translation is the notice and the source, trimmed and rewritten line by line |
| `AgentTexts.LineExactly` | bin/sync-agent-config:155-159 | exactly the lines that start with @ and go on are rewritten |
| `AgentTexts.TargetExactly` | bin/sync-agent-config:155-159 | an included CLAUDE.md becomes the AGENTS.md beside it, any other target stays |
| `AgentTexts.RootTexts` | bin/sync-agent-config:124-141 | both roots letter for letter, over two sections and two rules, and over none |
| `AgentTexts.RuleFileText` | bin/sync-agent-config:143-153 | a rule file with two paths, letter for letter |
| `AgentContent.RuleFileSaysItsRule` | bin/sync-agent-config:143-195 | the file a plan holds for a rule is rendered from that rule's own source |
| `AgentContent.ClaudeRuleSays` | bin/sync-agent-config:143-153 | it has every path, escaped and in order, then the notice, the title and the body |
| `AgentContent.EscapeRoundTrip` | bin/sync-agent-config:147 | parsing an escaped path gives the path back |
| `AgentContent.NormalizedExactly` | bin/sync-agent-config:54-56 | a body never keeps three line ends in a row, and is just trimmed exactly when it had none |
| `AgentContent.IncludesRewrittenExactly` | bin/sync-agent-config:155-159 | a translation has no include line left, and equals its source exactly when that had none |
| `AgentFrontmatter.ClosingFound` | bin/sync-agent-config:58-64 | the parser finds the end of the frontmatter where its lines end |
| `AgentFrontmatter.ItemsAreRead` | bin/sync-agent-config:68-81 | list items are read in order, without their quotes; an item with a line separator stops the parser |
| `AgentFrontmatter.FrontmatterRoundTrip` | bin/sync-agent-config:58-153 | a rendered rule parses back to its paths as escaped and the text below, and fails to parse exactly when a path has a line separator |
| `AgentFrontmatter.LoadedRuleRoundTrips` | bin/sync-agent-config:58-153 | which no loaded rule's path has, so each loaded rule's file parses back |
| `AgentSync.PlanKeys` | bin/sync-agent-config:186-199 | which files a plan holds |
| `AgentSync.PlannedIsGenerated` | bin/sync-agent-config:124-153 | every planned file carries the notice it is recognised by |
| `AgentSync.Checkout.WriteFile` | bin/sync-agent-config:232-237 | writes exactly where nothing, a generated file or the root CLAUDE.md stands |
| `AgentSync.Checkout.WritePlan` | bin/sync-agent-config:269-272 | stops at the first refused file, with those before it written |
| `AgentSync.Checkout.RemoveStale` | bin/sync-agent-config:274-276 | removes exactly the orphans |
| `AgentSync.Checkout.Apply` | bin/sync-agent-config:269-276 | the outcome does not depend on the order in which the plan lists its files |
| `AgentSync.Untouched` | bin/sync-agent-config:205-230 | outside the root and .claude nothing but AGENTS.md files changes |
| `AgentEffects.PlannedExactly` | bin/sync-agent-config:171-199 | the paths of a plan, told from the tree |
| `AgentEffects.RunFailsExactly` | bin/sync-agent-config:232-237 | a run with a plan fails exactly when a planned path other than the root CLAUDE.md holds a file without the notice |
| `AgentEffects.OutcomeExactly` | bin/sync-agent-config:205-276 | after a run each planned path has its text, each generated file in a rule's or an AGENTS.md's place that is not planned is gone, every other path is as it was |
| `AgentEffects.CheckExactly` | bin/sync-agent-config:239-253 | the check passes exactly when each planned path has its text and no such file is left |
| `AgentEffects.IgnoredStays` | bin/sync-agent-config:161-169 | nothing in the other ignored directories is touched |
| `AgentSync.AgentsAfterSync` | bin/sync-agent-config:171-184 | a nested AGENTS.md is its CLAUDE.md's translation, or goes if it was generated |
| `AgentSync.AgentsSectionExactly` | bin/sync-agent-config:96-100 | the common section read from a generated AGENTS.md stays exactly when the common sources do |
| `AgentSync.ChangedSectionDrifts` | bin/sync-agent-config:96-100 | where it does not, the plan changes and the check fails |
| `AgentSync.TranslatedRuleStopsThePlan` | bin/sync-agent-config:102-114 | a CLAUDE.md among the rules becomes a rule without paths, and no plan can be built |
| `AgentSync.RemovedRuleLeavesAnOrphan` | bin/sync-agent-config:205-216 | a generated AGENTS.md among the rules goes, and leaves its rule file an orphan |
| `AgentSync.SecondRunIsIdle` | bin/sync-agent-config:255-276 | when the plan is unchanged the check passes and a second run changes nothing |
| `AgentSync.PlanIsFixedExactly` | bin/sync-agent-config:186-276 | after a successful run the recomputed plan is the applied one exactly when the run kept its own sources |
| `AgentSync.CheckPassesExactly` | bin/sync-agent-config:239-276 | and exactly then the check finds no drift or orphan, and a second run changes nothing |
| `AgentExamples.FourTreesThatDrift` | bin/sync-agent-config:186-276 | four trees of one file, written out, on which the run succeeds and the check that follows fails, under any wording that opens a comment, as the script's does |
| `AgentExamples.RuleSourceParses` | bin/sync-agent-config:102-121 | the rule sources among them are accepted as rules |
| `ModelGen.CapitalizeParts` | cmd/modelgen/main.go:250-257 | rewrites the parts in place; panics exactly on an empty part |
| `ModelGen.ComputeFieldName` | cmd/modelgen/main.go:245-260 | the loop's field name |
| `ModelGen.DecodeWritten` | cmd/modelgen/main.go:245-260 | decoding a field name gives back the column's canonical parts |
| `ModelGen.FieldNamesCollideExactly` | cmd/modelgen/main.go:245-260 | two columns of lower-case letters and digits share a field name exactly when their canonical parts agree |
| `ModelGen.FieldNameRoundTripExactly` | cmd/modelgen/main.go:245-260 | the decoder recovers the column exactly when no part "i" stands before a part "d" and no digit leads a part but the first |
| `ModelGen.FieldNameIsInjective` | cmd/modelgen/main.go:245-260 | such columns never share a field name |
| `ModelGen.FieldNamesThatMeet` | cmd/modelgen/main.go:245-260 | the provisos are needed |
| `RowMaps.TypeOf` | cmd/modelgen/main.go:195-243 | a nullable column that is no primary key has a type that can hold null |
| `RowMaps.TypeHasRoom` | cmd/modelgen/main.go:195-243 | a column has a type exactly when its values are known, with room for all of them, a pointer exactly where null has no other place, and 64 bits for keys of 32 and more |
| `RowMaps.Render` | cmd/modelgen/main.go:139-193 | one field per column in order, and the row map's entries and defaulted list; else the first column without a type, or a name, stops it |
| `RowMaps.RenderRowMap` | cmd/modelgen/main.go:168-184 | the loop's entries and defaulted columns |
| `RowMaps.StructFieldsAreDistinctExactly` | cmd/modelgen/main.go:149-160 | struct fields never collide exactly when canonical names do not |
| `RowMaps.RowMap.FilterUnset` | db/rowmap.go:9-22 | drops exactly the listed columns that are unset |
| `RowMaps.UnsetIsZero` | db/rowmap.go:17-19 | a value is unset exactly when it is nil or its type's zero; a pointer to a zero and an empty slice are set |
| `RowMaps.ScanFills` | cmd/modelgen/main.go:149-160 | scanned into distinct fields, every column's value is in its own field |
| `RowMaps.RowMapRoundTrip` | cmd/modelgen/main.go:164-190 | a row scanned into the struct and mapped back carries each column's own value, without primary keys and without unset columns that have a default |
| `ConnVariant.ImportPath` | cmd/conngen/main.go:193-208 | the first import of that local name |
| `ConnVariant.QueryableField` | cmd/conngen/main.go:158-170 | the first Queryable field if it has exactly one name, else none |
| `ConnVariant.PrintFields` | cmd/conngen/main.go:291-313 | all parameter fields but the Queryable one, in order |
| `ConnVariant.PrintResults` | cmd/conngen/main.go:315-338 | the result types, one for each result of a grouped field |
| `ConnVariant.PrintTypeParams` | cmd/conngen/main.go:340-363 | the type parameters, and their names as type arguments |
| `ConnVariant.CallArgs` | cmd/conngen/main.go:365-387 | the names in order with the pool at the Queryable field |
| `ConnVariant.Render` | cmd/conngen/main.go:210-240 | the whole variant |
| `ConnVariant.OnlyTheLastSpreads` | cmd/conngen/main.go:374-383 | only a variadic last parameter is spread |
| `ConnVariant.FaithfulRuns` | cmd/conngen/main.go:210-240 | a faithful variant's call binds the same type arguments and values as the direct call |
| `ConnVariant.RunningBody` | cmd/conngen/main.go:235-239 | a variant whose body is valid returns something, names no blank, and does not hide its function |
| `ConnVariant.HiddenPool` | cmd/conngen/main.go:248-255 | where a name hides the pool, something else is passed in its place |
| `ConnVariant.VariantCallsTxExactly` | cmd/conngen/main.go:210-255 | for all type arguments and arguments, the variant's call is the Tx call with the pool inserted exactly when the signature is faithful |
| `ConnVariant.DirectInsertsThePool` | cmd/conngen/main.go:365-387 | for every signature, variadic or not, that call hands over what the other parameters would hold, in order, with the pool between |
| `ConnVariant.HiddenPoolExample` | cmd/conngen/main.go:248-255 | a parameter called db defeats it |
| `ConnGen.DeclaresTopLevel` | cmd/conngen/main.go:257-289 | true exactly for names hand-written at top level, the generated file apart |
| `ConnGen.Generate` | cmd/conngen/main.go:78-140 | refuses exactly when a function's bare name is hand-written, naming such a one; else removes, or writes the variants ordered by function name |
| `ConnGen.OneOrder` | cmd/conngen/main.go:117 | differently named choices have one order |
| `ConnGen.OutputIgnoresOrder` | cmd/conngen/main.go:78-140 | the output depends on the set of hand-written declarations only, not on files or order |
| `ConnGen.RerunProducesTheSame` | cmd/conngen/main.go:81-85 | a generated file changes nothing, so a second run gives the same |
| `ConnGen.EmittedNamesAreNew` | cmd/conngen/main.go:93-118 | emitted names are non-empty, distinct, not hand-written, and in order |
| `ConnGen.EveryChoiceIsEmitted` | cmd/conngen/main.go:87-108 | every function that follows the convention has its variant |
| `ConnConvention.QueryableExactly` | cmd/conngen/main.go:172-208 | a parameter is Queryable exactly if it names db's own type, or one selected off the first import of that local name with a path ending in /db |
| `ConnConvention.DeclaredExactly` | cmd/conngen/main.go:257-289 | a name is taken exactly if a file other than conn.gen.go declares it as a function that is no method, or among its constants, variables or types |
| `ConnConvention.RefusesExactly` | cmd/conngen/main.go:210-247 | a run refuses exactly when a function that follows the convention has a hand-written bare name, and names such a one |
| `ConnConvention.RemovesExactly` | cmd/conngen/main.go:110-115 | it removes the generated file exactly when no function follows |
| `ConnConvention.WritesExactly` | cmd/conngen/main.go:87-140 | it writes a variant exactly for each function that follows, of its name without Tx, with the package's own Conn where it has one |
| `LogSettings.NewConfig` | logging/config.go:23-87 | the loop's configuration, or a rejection |
| `LogSettings.FoldMeans` | logging/config.go:42-86 | what is rejected, included, excluded and the default, each told from the tags alone |
| `LogSettings.EnabledExactly` | logging/config.go:89-101 | a name is enabled exactly when some tag includes it or all, and none excludes it |
| `LogText.SettingsAreRead` | logging/config.go:42-86 | settings written as name, -name or _all, with a level or not and space around, joined by commas, are read as those tags |
| `LogText.WrittenSettings` | logging/config.go:42-101 | such settings are rejected exactly when a colon is followed by no level; else a name is enabled exactly when a tag names it, or all, and none has it after a dash |
| `LogText.LevelExactly` | logging/config.go:111-126 | a level is read exactly where its name is written, each letter in either case |
| `LogText.ExclusionExample` | logging/config.go:76-80 | _all,-db leaves every logger on but db |
| `LogSettings.TagOrderDoesNotMatter` | logging/config.go:44-101 | neither acceptance nor what is enabled depends on the order of tags |
| `LogSettings.EveryNameHasTheDefault` | logging/config.go:57-68 | every logger's level is that of the last _all that has one, or else the default |
| `LogSettings.LevelsAreHonouredExactly` | logging/config.go:103-109 | the documented levels hold exactly of settings in which each level on a name repeats the last level on _all, or else the given default |
| `LogSettings.LevelExample` | logging/config.go:103-109 | db:debug leaves db at the default |
| `LogManager.Manager.Configure` | logging/logger_manager.go:34-52 | rejected settings change nothing; accepted ones reach every handler |
| `LogManager.Manager.LoggerFor` | logging/logger_manager.go:54-80 | the logger already there, or a new one set up for its name |
| `LogManager.Manager.HandedOutFollows` | logging/logger_manager.go:34-92 | every logger ever handed out has the output and level the last accepted settings give its name |
| `LogManager.Manager.OneLoggerPerName` | logging/logger_manager.go:58-77 | one logger for a name and one name for a logger |
| `LogManager.NewManager` | logging/logger_manager.go:23-32 | an empty registry under the given settings, or under none if they are rejected |
| `HashSlots.EntriesAreWorkers` | auth/users.go:57-89 | in every interleaving the entries in the channel are the calls at work, within the capacity |
| `HashSlots.CallsGoOn` | auth/users.go:57-89 | a new call can always come, a waiting one give up without an entry, and a working one return its entry with what came of it |
| `HashSlots.EveryEntryComesBack` | auth/users.go:59-89 | when all calls are over, by success, error or cancellation, every entry is back |
| `HashSlots.ReturnNeverBlocks` | auth/users.go:62-62 | the deferred receive never blocks |
| `HashSlots.WaiterProceeds` | auth/users.go:60-65 | a waiter can take an entry unless all are at work, and then after any one returns |

## Left out

- argon2, SHA-256, random bytes and base64 are constructors; timing, and with it the decoy compare, is not modelled.
- SQL text, pgx, pgsql builders, River, scs, SES and goose keep only their effect on tables, blobs, jobs and databases.
- Statement errors and lost connections other than the ones named: in the machines a request may be abandoned at any point.
- Deadlocks and serialization failures, which these transactions cannot meet at Read Committed with one row lock each.
- Email addresses are taken trimmed and lower-cased; a client address holds no bar and is not the word reset.
- `sameOriginPost`, `safeRedirectPath`, `RequireUser`, `RequirePolicy` and the flash texts: each is settled by its own branches.
- `bin/port-deallocate`'s early exit without a registry file, a registry with foreign ports or a changed pool, and TSV quoting.
- ResetMail.MintedTokensAreConserved: does not search users, token rows and job arguments for cleartexts, because none has a place for one in the model: a row holds a digest and a job an address.
- PortLock.PatientRunsRobNobody: does not model the age of a lock, so any waiter out of attempts may find it stale, which allows more runs than the scripts do.
- Shell signals beyond a trapped interrupt and an untrapped kill; pipes and psqlrc output.
- A file where the sync expects a directory, or the reverse; symbolic links; `bin/link-skills`.
- A sync that throws half way: `Checkout.WritePlan` says what was written, the fixed-point results are about runs that finish.
- Field names of columns with non-ASCII first letters, and receivers that are Go keywords or `rm`.
- Column comments, import resolution and formatting of generated text, apart from the nameless variant of a function called Tx.
- The import aliases of a `*Tx` function's file, which the generated file does not share, and Go's type checking of the variant.
- Exported names are ASCII; the library sort is an insertion sort; conngen renders after the sort, which has no effect on the outcome.
- Non-ASCII letters whose upper case is ASCII, in level names; the trace wrapper around handlers.
- Concurrent `Logger` calls: two may race on the maps under the read lock, which one atomic step per call does not show.
- `partition/`, `fixture/`, `web/forms.go`, `analyzers/`, `env/`, `telemetry/`, `mailer/`, `views/`: easy members, or plumbing.
