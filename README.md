# DeltaBot in Dafny

DeltaBot is a Discord bot that exists twice: an older Python bot (message commands with the
prefixes "\" and "/", plus dialogs driven by an NLU service) and a newer Kotlin bot (slash
commands, buttons and the same kind of dialogs). This project models the logic of both that does
not depend on Discord itself, and proves properties of that model:

- **Dialogs.** A dialog is a growable list of steps and a cursor. `proceed` runs steps until one
  waits for input, and otherwise resets the dialog. One engine (`DialogEngine`) serves the Python
  dialog class and both Kotlin generations. The Choose, QnA, QnAAnswer, Cleanup, Shutdown and
  News dialogs are built on it.
- **Routing.** The per-user router (`Routing`) picks a dialog for each message: the suspended
  dialog first, then "not understood", then QnA, then the intent table. It keeps a stack of
  suspended dialogs. The Python bot decides which messages reach the router at all.
- **Scheduling and persisted records.** The Python list scheduler and the Kotlin priority-queue
  scheduler (`Schedulers`). The persisted stores (`Stores`, `BotBases`, `SummonCommands`,
  `LegacySummon`, `Summons`). The day countdown of the summon messages.
- **Votes.** The Kotlin poll maps and their inverse (`Polls`), the summon one-vote-per-user map
  (`Summons`), and the tallies that the Python summon commands keep in the message text and read
  back (`SummonCommands`, `LegacySummon`).
- **Text codecs.**
  - The role-mapping message and its parser (`Roles`, `KotlinRoles`).
  - The poll admin-area header (`KotlinPollAdmin`).
  - The two `#`-template translators (`KotlinTranslate`) and Emojify (`KotlinEmojify`).
  - Command cropping and number parameters (`Helpers`, `CommandDispatch`).
  - Button rows (`Buttons`), hidden messages (`KotlinHiddenMessages`).
- **Settings and permissions.** The configuration toggles (`Configs`), the guild managers
  (`LegacyGuild`), the language settings and their precedence (`KotlinLanguage`), and the
  slash-command permission gate and command diff (`KotlinCommandHandler`).
- **The team commands.** `RoundRobin` and `KotlinTeams`.

Discord, the NLU and time services, RSS feeds, files and the database are inputs or recorded
effects. Time is an `int` and NLU scores are `real`. Random choices are input indices or
permutations.

Where the source does something its authors evidently did not intend, the model keeps the code as
written next to the corrected behaviour. The rest of the model uses the corrected behaviour (see
"## Findings").

## Model

| member | source | states |
|---|---|---|
| DialogEngine.LoopUnfold | dialog_management.py:59-66 | a step that neither waits nor raises is run, its added steps appended, the cursor advanced, and the loop goes on |
| DialogEngine.LoopStopsHere | dialog_management.py:59-66 | the loop stops at the end of the list, after a waiting step with the cursor past it, or at a raising step with the cursor on it |
| DialogEngine.LoopExtends | src/main/kotlin/org/fuchss/deltabot/cognitive/dialogmanagement/Dialog.kt:38-47 | the loop only appends steps and keeps the cursor within the list; running off means the cursor is at the end |
| DialogEngine.LoopRunsInOrder | dialog_management.py:59-66 | the steps run are exactly those from the old cursor to the new one (plus the raising one), in index order, including steps added during the call |
| DialogEngine.LoopStopsAtFirstWait | src/main/kotlin/org/fuchss/deltabot/cognitive/dialogmanagement/Dialog.kt:38-45 | every step but the last returned something other than WAIT_FOR_INPUT; the loop stopped waiting iff the last step waited, aborted iff it raised |
| DialogEngine.LoopKeeps | dialog_management.py:59-66 | a property every step keeps holds when the loop ends |
| DialogEngine.ProceedKeeps | dialog_management.py:49-85 | a property kept by every step and by reset holds after every proceed, whatever the steps return or raise |
| DialogEngine.LoopNeverAborts | dialog_management.py:59-66 | when no step raises on the input in a state with a kept property, the loop never aborts |
| DialogEngine.ProceedNeverFails | dialog_management.py:49-69 | when no step raises on the input in a state with a kept property, proceed never fails |
| DialogEngine.LoopWaitsWithPending | dialog_management.py:59-66 | if waiting steps add their follow-up, the loop never stops waiting with no step left |
| DialogEngine.SuspendedHasPendingStep | dialog_management.py:59-69 | if waiting steps add their follow-up, a suspended dialog always has a step left to run |
| DialogEngine.CursorInBounds | dialog_management.py:59-85 | after any proceed the cursor is within [0, len(steps)] |
| DialogEngine.ProceedWaitsIffStepWaited | dialog_management.py:59-85 | WAIT_FOR_INPUT is returned iff the last step run returned it, with the cursor just past it; NEXT iff the loop ran off the end, and then the steps are the initial ones with the cursor at 0 |
| DialogEngine.RaisingStepKeepsCursor | dialog_management.py:60-64 | a raising step leaves the cursor on itself, because the increment comes after the call |
| DialogEngine.ResetRunsInitialSteps | src/main/kotlin/org/fuchss/deltabot/cognitive/dialog/Dialog.kt:18-34 | after a reset the next proceed runs the initial steps from index 0 in order |
| DialogEngine.Dialog.constructor | dialog_management.py:27-41 | construction loads the initial steps with the cursor at 0 |
| DialogEngine.Dialog.AddStep | dialog_management.py:71-77 | one step is appended; cursor and fields unchanged |
| DialogEngine.Dialog.Reset | dialog_management.py:79-85 | the steps are the initial ones, the cursor is 0 and the dialog's own fields are reset as the dialog defines |
| DialogEngine.Dialog.Proceed | dialog_management.py:49-69 | the while loop, which re-reads the list length, computes ProceedSpec: result and new state |
| DialogEngine.EnhanceReplacesPlaceholders | dialog_management.py:87-102 | every "#USER" of the response becomes the author's name, and then every "#CHANNEL" becomes "@" with the author's name in a direct message and the channel's name otherwise |
| DialogEngine.EnhanceByFirstOccurrence | dialog_management.py:96-102 | a response without placeholders is unchanged; the first "#USER" is replaced by the author's name with the text before it kept |
| Routing.LookupDialog | deltabot.py:52-53 | the position of the first loaded dialog with the chosen id, none before it having that id; None exactly when no id was chosen or no loaded dialog has it |
| Routing.PyTableTargetsLoaded | deltabot.py:40-50 | every dialog id in the intent table names a loaded dialog |
| Routing.PyRoutingPrecedence | deltabot.py:58-72 | a suspended dialog wins over any intent; then no intents or a score at or below the threshold give NotUnderstanding; then the "QnA" prefix gives QnA; then the table decides, and a lookup fails only for a name missing from it |
| Routing.PyChoiceAgreesOnLowerCase | deltabot.py:67 | on a lower-case intent name the exact lookup and the lower-cased one choose the same dialog |
| Routing.PyCapitalisedIntentIsNotFound | deltabot.py:67 | the intent "Clock" with a high score finds no dialog as written, and the Clock dialog once lower-cased |
| Routing.BotInstance.constructor | deltabot.py:18-25 | a new instance has no suspended dialog |
| Routing.BotInstance.HasActiveDialog | deltabot.py:83-84 | true exactly when a dialog is suspended |
| Routing.BotInstance.Handle | deltabot.py:55-81 | pops the suspended dialog first, runs the chosen dialog or reports it missing, and suspends it again only when it waits for input |
| Routing.DeltaBot.constructor | deltabot.py:90-94 | no author has an instance yet |
| Routing.DeltaBot.GetBotInstance | deltabot.py:157-163 | the author's instance is created on the author's first message and the same object is returned afterwards; no other instance changes |
| Routing.DeltaBot.OnMessage | deltabot.py:102-131 | own messages, then system commands, then user commands take the message; otherwise the author gets an instance, and the message reaches it exactly for a direct message, a mention or respond-all in a configured channel, or a suspended dialog; the route's outcome and the author's new stack are those of handle, and every other author's instance and stack are unchanged |
| Routing.KtCapitalisedIntentIsNotUnderstood | src/main/kotlin/org/fuchss/deltabot/cognitive/dialogmanagement/UserBotInstance.kt:48 | the intent "Clock" goes to NotUnderstanding as written, and to the Clock dialog once lower-cased |
| Routing.KtChoiceAgreesOnLowerCase | src/main/kotlin/org/fuchss/deltabot/cognitive/dialog/UserBotInstance.kt:37 | on a lower-case intent name the exact lookup and the lower-cased one choose the same |
| Routing.KtRoutingPrecedence | src/main/kotlin/org/fuchss/deltabot/cognitive/dialogmanagement/UserBotInstance.kt:40-60 | the suspended dialog, then no intents or a low score, then "QnA-Tasks" for the help reply, then the "QnA" prefix, then the table; a chosen dialog is one that is loaded |
| Routing.UserBotInstance.constructor | src/main/kotlin/org/fuchss/deltabot/cognitive/dialogmanagement/UserBotInstance.kt:20-30 | a new instance has no suspended dialog |
| Routing.UserBotInstance.Handle | src/main/kotlin/org/fuchss/deltabot/cognitive/dialogmanagement/UserBotInstance.kt:35-66 | help for "QnA-Tasks" leaves the stack alone; otherwise the chosen dialog, or InternalErrorDialog when it is not loaded, runs after the pop, and is pushed back only when it waits for input |
| Routing.KtOlderRoutersChooseBuiltIns | src/main/kotlin/org/fuchss/deltabot/cognitive/UserBotInstance.kt:33-56 | without a suspended dialog the older routers answer with the help text or run NotUnderstanding or QnA, so the `!!` lookup always finds a dialog |
| ChooseDialog.Shuffled | dialogs/choose_dialog.py:95 | the shuffle is a rearrangement of the values |
| ChooseDialog.ChooseTerminates | dialogs/choose_dialog.py:24-107 | every non-waiting step appends steps of smaller weight, so proceed terminates |
| ChooseDialog.AddedLight | dialogs/choose_dialog.py:24-91 | a step that lets the loop go on adds nothing, or one light step in place of a heavier one |
| ChooseDialog.ChooseWaitsAddFollowUp | dialogs/choose_dialog.py:33-72 | every step that waits for input first appends the step that reads the answer |
| ChooseDialog.InvInitially | dialogs/choose_dialog.py:16-22 | the fresh dialog (no values, count -1, only the first step) satisfies the invariant |
| ChooseDialog.InvStep | dialogs/choose_dialog.py:24-107 | every step keeps the invariant (the count is -1 with one step pending before the count is read, or at least 1), and under it a step raises exactly when it answers the reuse question without intents |
| ChooseDialog.InvKept | dialogs/choose_dialog.py:13-107 | the steps keep the invariant, never raise under it when the NLU reported intents, and reset (not overridden) keeps it |
| ChooseDialog.CheckStateOffersOldValues | dialogs/choose_dialog.py:24-31 | the first step continues with NEXT, offering the old values exactly when there are some and asking for new ones otherwise |
| ChooseDialog.OldValuesReusedOnlyOnYes | dialogs/choose_dialog.py:40-47 | the old values are dealt again iff the top intent is "yes"; without intents `len(None)` raises |
| ChooseDialog.UpdateElementsReadsTokens | dialogs/choose_dialog.py:55-65 | the new values are the whitespace-separated tokens of the message: non-empty, space-free, together its non-space characters; the count is kept |
| ChooseDialog.GroupCountChecked | dialogs/choose_dialog.py:74-91 | an answer that is not an integer of at least 1 asks again and changes nothing; otherwise the count becomes that integer and dealing follows |
| ChooseDialog.GenerateDealsEveryValueOnce | dialogs/choose_dialog.py:93-107 | with a count of at least 1 there are that many groups and together they hold every value exactly once |
| ChooseDialog.GeneratePlacesByPosition | dialogs/choose_dialog.py:101-104 | the value at shuffled position p goes to group p mod count as its (p div count)-th member |
| ChooseDialog.GenerateBalanced | dialogs/choose_dialog.py:97-104 | any two groups differ in size by at most one |
| ChooseDialog.NewChoose | dialogs/choose_dialog.py:16-22 | a fresh dialog with its first step loaded, no values, count -1, and a reset that keeps the fields |
| ChooseDialog.ProceedChoose | dialogs/choose_dialog.py:13-107 | one proceed follows the engine's specification, never raises when the NLU reported intents, keeps the invariant, waits only with a step pending, and after NEXT holds only the first step |
| RoundRobin.Partition | user_commands/commands.py:62-73 | the partition has one group for each of the n teams |
| RoundRobin.GroupSize | user_commands/commands.py:66-73 | group g holds len(s) / n elements, plus one when g is below len(s) % n |
| RoundRobin.Balanced | user_commands/commands.py:66-73 | any two groups differ in size by at most one |
| RoundRobin.GroupAt | dialogs/choose_dialog.py:101-104 | the element at position p is element p / n of group p % n |
| RoundRobin.PartitionSnoc | dialogs/choose_dialog.py:101-104 | one more element at the end of the list is appended to group len(s) % n only |
| RoundRobin.PartitionIsPermutation | dialogs/choose_dialog.py:97-104 | every element lands in exactly one group: the groups together are a permutation of the list |
| RoundRobin.Distribute | dialogs/choose_dialog.py:97-104 | the loop with the cycling index (i + 1) % n builds exactly the partition |
| QnADialogs.AnswerFileDropsPrefix | dialogs/qna.py:33-34 | the intent "QnA-" and a name is answered from the file "QnA/" name ".json" |
| QnADialogs.QnATerminates | dialogs/qna.py:28-46 | the QnA dialog's single step never adds steps |
| QnADialogs.QnAAnswersFromFile | dialogs/qna.py:31-46 | QnA never waits: without intents it raises, a missing file is reported by name, an empty one raises, and otherwise one of the file's answers, filled in, is sent; it returns NEXT |
| QnADialogs.AnswerTerminates | dialogs/qna.py:58-114 | no step of QnAAnswer that does not wait adds steps |
| QnADialogs.AnswerWaitsAddOneFollowUp | dialogs/qna.py:61-95 | each waiting step of the admin path adds exactly one next step |
| QnADialogs.NonAdminIsRefused | dialogs/qna.py:61-65 | a non-admin is refused: the dialog ends with NEXT and adds no step |
| QnADialogs.UnknownNameEnds | dialogs/qna.py:77-82 | an unknown QnA name ends the dialog without choosing a file |
| QnADialogs.StoresOnlyOnYes | dialogs/qna.py:97-114 | a file is written only on "yes", with the new text first and the old answers after it in order; any other answer changes nothing, and an answer without intents raises |
| QnADialogs.AnswerInvStep | dialogs/qna.py:77-114 | every step keeps the invariant tying the chosen file and text to the steps reached |
| QnADialogs.AnswerInvKept | dialogs/qna.py:58-119 | the initial state, every step and the reset keep the invariant |
| QnADialogs.StoreFailsOnlyForVanishedFile | dialogs/qna.py:97-111 | in a reachable state the last step fails exactly for an answer without intents or a "yes" whose chosen file has vanished from the QnA directory |
| QnADialogs.AnswerEndForgetsChoice | dialogs/qna.py:116-119 | after a proceed that ends the dialog, the chosen file and text are forgotten and the steps are back at the first |
| AdminDialogs.ShutdownEndsAtOnce | dialogs/admin_dialogs.py:17-25 | one proceed finishes with NEXT and reloads the single step; the shutdown is requested exactly when the author is an admin |
| AdminDialogs.Deletions | dialogs/admin_dialogs.py:62-66 | at most one deletion per message of the channel history |
| AdminDialogs.DeletionsExactly | dialogs/admin_dialogs.py:62-66 | an id is deleted iff a history message with it is by the original author or the bot and is neither the original nor the current message; those two are never deleted |
| AdminDialogs.DeleteMatching | dialogs/admin_dialogs.py:63-66 | the history loop deletes exactly Deletions, in history order |
| AdminDialogs.CleanupTerminates | dialogs/admin_dialogs.py:35-68 | every non-waiting Cleanup step appends steps of smaller weight, so proceed terminates |
| AdminDialogs.FirstProceedAsks | dialogs/admin_dialogs.py:43-47 | the first proceed stores the triggering message and suspends at the confirmation step |
| AdminDialogs.ConfirmationRunsCleanup | dialogs/admin_dialogs.py:39-68 | an answer without intents raises and leaves the dialog at the confirmation; otherwise a "yes" top intent appends the cleanup step, which runs in the same proceed and deletes Deletions for an admin outside a DM, any other answer deletes nothing, and the dialog ends with NEXT and the stored message forgotten |
| AdminDialogs.CleanupRefused | dialogs/admin_dialogs.py:57-60 | a non-admin, or a cleanup asked in a DM, is refused: the step returns None and deletes nothing |
| News.NewsCategories | dialogs/news_dialog.py:69-70 | the categories are the names of the message's "news" entities, and no more |
| News.NewsCategoriesExactly | dialogs/news_dialog.py:69-70 | a name is a category exactly when some "news" entity of the message has it |
| News.PyCategoryNamesAreTheKeys | dialogs/news_dialog.py:27-32 | the question lists exactly the categories that have providers |
| News.Recent | dialogs/news_dialog.py:80 | the entries kept are exactly those published less than a day before now |
| News.HeadlinesAreNewestOfTheDay | dialogs/news_dialog.py:80-86 | the listed entries are at most ten of the last day, newest first, and no unlisted entry of the day is newer than a listed one |
| News.PyNewsSortsByTimeOfDay | dialogs/news_dialog.py:82 | as written, an entry from 23:00 yesterday is listed before one from 09:00 today, while newest first lists them the other way round |
| News.UrlRewrite | dialogs/news_dialog.py:87-89 | a leading "www." of an https or http URL is dropped, and a URL without either prefix is unchanged |
| News.ListNews | dialogs/news_dialog.py:84-91 | the loop stops at index ten and gives the provider's block of the listed entries; it raises exactly when a listed entry lacks "id" or "title" |
| News.ProvidersRunFails | dialogs/news_dialog.py:78-91 | the run over providers raises exactly when some provider's feed has an undated entry or lists an entry without "id" or "title" |
| News.ProvidersRunNews | dialogs/news_dialog.py:78-95 | without a raise every provider sends its block, and there was news exactly when some feed has an entry of the last day |
| News.ProvidersRunStops | dialogs/news_dialog.py:78-95 | after a raise the loop sends nothing more |
| News.CategoriesRunStops | dialogs/news_dialog.py:77-95 | after a raise the outer loop sends nothing more |
| News.CategoriesRunStep | dialogs/news_dialog.py:77-95 | a category adds its providers' blocks; an unknown category raises |
| News.NewsLoop | dialogs/news_dialog.py:76-95 | the loops over the categories and their providers give CategoriesRun |
| News.ProvidersLoop | dialogs/news_dialog.py:78-95 | the loop over one category's providers gives ProvidersRun |
| News.PyNewsTerminates | dialogs/news_dialog.py:54-99 | no step that does not wait adds steps without end |
| News.PyNewsAtOnce | dialogs/news_dialog.py:54-99 | with categories in the first message, the news step runs at once and ends the dialog with NEXT and the listings, "Keine neuen Nachrichten." when there were none, or raises; it never waits |
| News.PyNewsAsks | dialogs/news_dialog.py:62-65 | without categories the dialog asks for them, adds the news step and waits |
| News.PyNewsFollowUpWithoutCategory | dialogs/news_dialog.py:67-74 | a follow-up with entities but no category ends the dialog with NEXT and an apology |
| News.PyNewsWithoutEntities | dialogs/news_dialog.py:54-70 | without entities both steps raise on the filter over None, and the dialog stays where it was |
| News.KtRecent | src/main/kotlin/org/fuchss/deltabot/cognitive/dialogmanagement/dialog/News.kt:56-57 | the items kept are exactly the dated ones not older than a day |
| News.ReadFeedNewestOfTheDay | src/main/kotlin/org/fuchss/deltabot/cognitive/dialogmanagement/dialog/News.kt:50-64 | a reader error gives no items; otherwise at most ten items of the last day, newest first, with no unlisted item of the day newer than a listed one |
| News.KtProvidersRunExactly | src/main/kotlin/org/fuchss/deltabot/cognitive/dialogmanagement/dialog/News.kt:34-46 | without a throw the messages are exactly those of the listed providers whose feeds have news |
| News.KtCategoriesRunExactly | src/main/kotlin/org/fuchss/deltabot/cognitive/dialogmanagement/dialog/News.kt:31-48 | without a throw the messages are exactly those of providers of known categories named in the message whose feeds have news |
| News.KtProvidersRunStops | src/main/kotlin/org/fuchss/deltabot/cognitive/dialogmanagement/dialog/News.kt:34-46 | after a throw the inner loop makes no more messages |
| News.KtCategoriesRunStops | src/main/kotlin/org/fuchss/deltabot/cognitive/dialogmanagement/dialog/News.kt:31-48 | after a throw the outer loop makes no more messages |
| News.Describe | src/main/kotlin/org/fuchss/deltabot/cognitive/dialogmanagement/dialog/News.kt:37-39 | the description is built exactly when every item has a title and a guid, and is then the list of their lines |
| News.CreateNewsMessage | src/main/kotlin/org/fuchss/deltabot/cognitive/dialogmanagement/dialog/News.kt:31-48 | the loops over categories and providers give KtCategoriesRun, skipping unknown categories |
| News.ProvidersMessages | src/main/kotlin/org/fuchss/deltabot/cognitive/dialogmanagement/dialog/News.kt:34-46 | the loop over one category's providers gives KtProvidersRun |
| News.KtNewsTerminates | src/main/kotlin/org/fuchss/deltabot/cognitive/dialogmanagement/dialog/News.kt:67-105 | no step that does not wait adds steps without end |
| News.KtNewsAtOnce | src/main/kotlin/org/fuchss/deltabot/cognitive/dialogmanagement/dialog/News.kt:71-105 | with categories in the first message, newsStep runs at once and ends the dialog, sending the messages or "No new news"; it never waits |
| News.KtNewsAsks | src/main/kotlin/org/fuchss/deltabot/cognitive/dialogmanagement/dialog/News.kt:71-86 | without categories selectNews asks for them, adds newsStep and waits |
| News.KtNewsFollowUpWithoutCategory | src/main/kotlin/org/fuchss/deltabot/cognitive/dialogmanagement/dialog/News.kt:88-96 | a follow-up without categories ends the dialog with NEXT and a reply |
| Schedulers.DueOrWaiting | scheduler.py:49-51 | a task is due exactly when it has no timestamp or the timestamp is not after the time read; the others wait |
| Schedulers.RemoveDueOfPrefix | scheduler.py:57-58 | removing the completed tasks one first occurrence at a time removes exactly them and keeps the rest in order |
| Schedulers.SweepWithoutThrow | scheduler.py:48-55 | when no due task raises, the loop calls and completes every due task, in queue order |
| Schedulers.SweepUpToThrow | scheduler.py:48-55 | when the due task at j raises first, the loop completes exactly the due tasks before it and calls it last |
| Schedulers.TickWithoutThrow | scheduler.py:43-58 | a run in which no due task raises calls every due task once, in queue order, and removes exactly those |
| Schedulers.TickStopsAtThrow | scheduler.py:43-58 | when a due task raises, only the due tasks before it are removed; it and every later task stay queued |
| Schedulers.RaisingTaskBlocksLaterOnes | scheduler.py:48-55 | a task that always raises is called on every run and the due task after it is never called |
| Schedulers.RemoveDoneOfPrefix | scheduler.py:57-58 | removing the completed tasks one first occurrence at a time removes exactly them and keeps the rest in order |
| Schedulers.TickEachRunsEveryDueTask | scheduler.py:43-58 | with the try around each call, a run calls every due task once in queue order and keeps queued exactly the waiting tasks and those that raised |
| Schedulers.RaisingTaskNoLongerBlocks | scheduler.py:48-55 | with the try around each call, the due task after a raising one is called and removed |
| Schedulers.BotScheduler.constructor | scheduler.py:8-15 | no tasks and no thread |
| Schedulers.BotScheduler.Queue | scheduler.py:17-19 | one pair is appended at the end and nothing else changes |
| Schedulers.BotScheduler.StartScheduler | scheduler.py:21-28 | a thread is started only when none is set |
| Schedulers.BotScheduler.StopScheduler | scheduler.py:30-31 | the thread is unset and the queue is kept |
| Schedulers.BotScheduler.SchedulerTurn | scheduler.py:33-37 | a turn ends the loop once the thread is unset, and otherwise makes one corrected run when there are tasks |
| Schedulers.BotScheduler.RunTasks | scheduler.py:43-58 | the queue left and the calls made are those of one corrected run over the tasks at the time read |
| Schedulers.SweepLoop | scheduler.py:48-55 | the loop calls every due task in queue order and completes exactly the due tasks whose call returns |
| Schedulers.Scheduler.constructor | src/main/kotlin/org/fuchss/deltabot/utils/Scheduler.kt:14-17 | an empty queue and no thread |
| Schedulers.Scheduler.Queue | src/main/kotlin/org/fuchss/deltabot/utils/Scheduler.kt:62-66 | one element is added to the queue and nothing else changes |
| Schedulers.Scheduler.Start | src/main/kotlin/org/fuchss/deltabot/utils/Scheduler.kt:20-26 | a new thread is started on every call, with no guard |
| Schedulers.Scheduler.Stop | src/main/kotlin/org/fuchss/deltabot/utils/Scheduler.kt:28-31 | the thread is unset and the queue is kept |
| Schedulers.Scheduler.LoopTurn | src/main/kotlin/org/fuchss/deltabot/utils/Scheduler.kt:33-40 | a turn ends the loop once the thread is unset, and otherwise executes when the queue is not empty |
| Schedulers.Scheduler.Execute | src/main/kotlin/org/fuchss/deltabot/utils/Scheduler.kt:43-60 | every due element runs once, in timestamp order, whether or not it throws; exactly the elements not yet due stay queued |
| Schedulers.Drain | src/main/kotlin/org/fuchss/deltabot/utils/Scheduler.kt:45-57 | polling the least element until one is not yet due runs exactly the due elements in timestamp order and leaves the others |
| Schedulers.DrainStep | src/main/kotlin/org/fuchss/deltabot/utils/Scheduler.kt:45-57 | running the least element when it is due keeps the loop's invariant and shrinks the queue |
| Schedulers.DrainedEnd | src/main/kotlin/org/fuchss/deltabot/utils/Scheduler.kt:45-57 | when no element left is due, the elements run are exactly the due ones in order and the queue keeps the later ones |
| Schedulers.LeastExists | src/main/kotlin/org/fuchss/deltabot/utils/Scheduler.kt:47 | a non-empty priority queue has an element with the least timestamp, so poll always finds one |
| Stores.CopyAttrs | legacy/loadable.py:39-41 | the copy keeps the object's attribute names |
| Stores.LoadCopiesOnlyOwnAttributes | legacy/loadable.py:38-43 | loading keeps the attribute names, never sets a "__" attribute, and gives every other attribute the file holds the file's value |
| Stores.LoadOfOwnSnapshot | legacy/loadable.py:28-48 | reading back a file that holds the object's own attributes and version changes nothing |
| Stores.LoadTwice | legacy/loadable.py:38-43 | loading the same file twice gives what loading it once gives |
| Stores.Loadable.constructor | legacy/loadable.py:13-18 | the object's attributes and version, nothing written and no migration |
| Stores.Loadable.Store | legacy/loadable.py:20-26 | the current attributes are what the file holds afterwards |
| Stores.Loadable.Load | legacy/loadable.py:28-48 | a matching version copies the file's attributes and writes back; another version only calls the migration; a missing or unreadable file is overwritten with the current state |
| Stores.Loadable.Migrate | legacy/loadable.py:50-56 | the default migration changes nothing |
| Stores.DictStoreReadsItsRecords | legacy/loadable.py:64-67 | a version-1 file with a list of records gives those records back |
| Stores.DictStore.constructor | legacy/loadable.py:64-67 | the records of the file, written back unless the file has another version |
| Stores.DictStore.AddData | legacy/loadable.py:69-76 | the record is appended and the state written |
| Stores.DictStore.RemoveData | legacy/loadable.py:78-86 | the first equal record is removed and the state written; an absent record changes nothing and nothing is written |
| BotBases.CommandName | bot_base.py:30-38 | a command has a documented name exactly when a name is given or the method name starts with "__" (otherwise the assertion fails) |
| BotBases.CommandNameOfMethod | bot_base.py:30-38 | without a given name or parameters the name is the method name less "__": same length, "_" turned into "-" position by position, no "_" left |
| BotBases.NameOfMethod | bot_base.py:30-38 | without a given name or parameters the name is the method name less "__" with every "_" replaced by "-" |
| BotBases.NameWithoutParams | bot_base.py:30-38 | without parameters the documented name is the derived name followed by a space, stripped |
| BotBases.CommandNameWithParams | bot_base.py:30-38 | with parameters the name is the given name, a space and the parameters joined by spaces |
| BotBases.PutRegistry | bot_base.py:39-40 | registering a command and its subcommands keeps both tables maps in which every command has its subcommand entry |
| BotBases.CommandRegistry.constructor | bot_base.py:12-15 | both registries start empty |
| BotBases.CommandRegistry.RegisterCommand | bot_base.py:18-40 | a derivable name is registered with the stripped help text and its subcommands (overwriting an earlier entry); an underivable one registers nothing |
| BotBases.CommandRegistry.CommandMeta | bot_base.py:43-66 | a command without help text is not registered; one with help text is found under its derived name and kind with the stripped text |
| BotBases.CommandRegistry.GenMessageForCommands | bot_base.py:260-269 | the help message is CommandsMessage of the current registries |
| BotBases.RenderCommands | bot_base.py:260-269 | the loop over the sorted keys builds CommandsMessage: the header and the block of each command of the wanted kind |
| BotBases.RenderBlock | bot_base.py:264-268 | one command's block: the bold name after the symbol, the help text, one "→" line per subcommand and an empty line, and nothing for a command of the other kind |
| BotBases.OfKind | bot_base.py:262-263 | keeps exactly the keys of the wanted kind |
| BotBases.ListedCommandsExactly | bot_base.py:262-263 | the help text lists exactly the registered commands of the kind, each once, by name in ascending order |
| BotBases.MessageOfListed | bot_base.py:260-269 | the help text is the header followed by the blocks of the listed commands only |
| BotBases.BlocksOfKind | bot_base.py:263 | commands of the other kind contribute no text |
| BotBases.RegisteredIsListed | bot_base.py:260-263 | a command just registered appears in the help text of its kind, whatever was registered before |
| BotBases.DeletionState.constructor | bot_base.py:118-121 | the state holds the records its file held and has written nothing |
| BotBases.DeletionState.AddDeletion | bot_base.py:123-130 | the record is appended and the state written |
| BotBases.DeletionState.RemoveDeletion | bot_base.py:132-139 | a held record loses its first copy and the state is written; an absent one raises and nothing changes |
| BotBases.QueuedAtEntries | bot_base.py:197-200 | the i-th queued deletion runs task base+i at the record's own timestamp |
| BotBases.BotBase.constructor | bot_base.py:169-200 | the NLU service is not built yet and every persisted deletion is queued once, in order, at its timestamp |
| BotBases.BotBase.InitDeletions | bot_base.py:197-200 | every persisted record is queued once, in order, at its own timestamp; nothing else changes |
| BotBases.BotBase.QueueDeletion | bot_base.py:248 | one scheduler entry at the record's timestamp is added for the record |
| BotBases.BotBase.Delete | bot_base.py:223-248 | a DM is left alone; without a delay the message is deleted now if it still exists; with one the record ts = now + delay is written and queued at ts and nothing is deleted yet |
| BotBases.BotBase.ExecuteDeletion | bot_base.py:154-163 | the record is removed and written, then the message deleted if it still exists (NotFound swallowed); an absent record raises before any deletion |
| BotBases.BotBase.Nlu | bot_base.py:173-182 | the first read builds the service and stores it; later reads return it without building |
| BotBases.NluReadTwice | bot_base.py:177-182 | two reads give the same service and the factory runs at most once |
| BotBases.DeleteLaterThenRun | bot_base.py:154-248 | a delayed delete whose task then runs leaves the records as before and deletes the message if it still exists |
| CommandDispatch.FirstMatch | system_commands.py:219-222 | the command found starts the message, and none is found exactly when no command's word starts it |
| CommandDispatch.FindCommand | system_commands.py:219-222 | the loop over the sorted list returns the first command whose word starts the message |
| CommandDispatch.FirstMatchLongest | system_commands.py:211-222 | in a list sorted longest name first, the command found has the longest name of all that match |
| CommandDispatch.FirstMatchOfOnly | system_commands.py:219-222 | when exactly one command matches, the search finds it whatever the order of the list |
| CommandDispatch.DashedOne | system_commands.py:220 | replacing "_" by "-" in a name with one underscore puts the dash in its place |
| CommandDispatch.WordOfPlain | system_commands.py:220 | a handler named "__" and a word without underscores is typed as that word |
| CommandDispatch.CallStateOf | system_commands.py:188-203 | a non-admin gets NoAdmin anywhere; an admin gets DirectMessage exactly in a private channel |
| CommandDispatch.SysWords | system_commands.py:211-220 | the word typed for each system command is the one derived from its function name |
| CommandDispatch.SysCommandsOrder | system_commands.py:211-212 | the system commands are tried longest name first and each registered command exactly once |
| CommandDispatch.SysCommandsHold | system_commands.py:211 | every system command is in the sorted list |
| CommandDispatch.SysInitialsName | system_commands.py:211-220 | the first two letters of a system command's word determine the command |
| CommandDispatch.SysPrefixesDisjoint | system_commands.py:183-186 | a message that starts with one system command's prefix starts with no other |
| CommandDispatch.SysOthersExcluded | system_commands.py:183-186 | a message accepted by one system command template is refused by all the others |
| CommandDispatch.SysSelectedIsOnlyMatch | system_commands.py:219-224 | a system command is selected exactly when its prefix starts the message, so the order of the list does not matter |
| CommandDispatch.Unbracketed | system_commands.py:93 | the echo text holds no '<' or '>' and only characters of the message |
| CommandDispatch.RemovedChar | system_commands.py:93 | replacing a character by nothing leaves no occurrence of it and adds no character |
| CommandDispatch.SysConfigAfter | system_commands.py:30-170 | a non-admin or an unknown command leaves the configuration alone; each toggle flips only its own switch; listen appends the channel only outside private channels; admin appends the mentions |
| CommandDispatch.ErasedOthers | system_commands.py:147-150 | erase deletes every message of the history except the command message, and nothing else |
| CommandDispatch.SysDirectDeletesNothing | system_commands.py:196-201 | an admin writing in a private channel never has a message deleted |
| CommandDispatch.SysCommandMessageDeleted | system_commands.py:188-208 | outside private channels and unless debug mode is on afterwards, the command message is deleted as the last effect |
| CommandDispatch.DebugOnKeepsItsMessage | system_commands.py:160-168 | switching debug mode on in a guild keeps the command message that the template would otherwise delete |
| CommandDispatch.RunSystem | system_commands.py:25-174 | running a handler changes the configuration as SysConfigAfter says, writes the file exactly when SysWrites says (every respond-all, keep and debug toggle, a listen in a guild, and an admin change by an admin or while there are none), and has the effects SysRun lists |
| CommandDispatch.HandleSystem | system_commands.py:215-225 | handled exactly when the cleaned, stripped text starts with "\"; the selected handler runs in the author's call state, and nothing runs when no template accepts the raw text |
| CommandDispatch.UserWords | user_commands/commands.py:121-150 | the word typed for each user command is the one derived from its function name |
| CommandDispatch.UserCommandsOrder | user_commands/commands.py:121-125 | the user commands are tried longest name first and each registered command exactly once |
| CommandDispatch.UserCommandsHold | user_commands/commands.py:121 | every user command is in the sorted list |
| CommandDispatch.UserInitialsName | user_commands/commands.py:121-150 | the first two letters of a user command's word determine the command |
| CommandDispatch.UserPrefixesDisjoint | user_commands/commands.py:109-111 | a message that starts with one user command's prefix starts with no other |
| CommandDispatch.UserOthersExcluded | user_commands/commands.py:109-111 | a message accepted by one user command template is refused by all the others |
| CommandDispatch.UserSelectedIsOnlyMatch | user_commands/commands.py:149-154 | a user command is selected exactly when its prefix starts the message |
| CommandDispatch.RollOf | user_commands/commands.py:35 | the roll lies between 1 and the number of sides |
| CommandDispatch.RollCovers | user_commands/commands.py:35 | every side of the die can come up |
| CommandDispatch.UserEffectsBounds | user_commands/commands.py:26-79 | a roll lies between 1 and the number read (default 6); the teams are as many as the number read (default 2) and hold every member of the voice channel once |
| CommandDispatch.RunUser | user_commands/commands.py:66-73 | the loop deals the members round-robin, giving the effects UserRun specifies |
| CommandDispatch.HandleUser | user_commands/commands.py:138-155 | handled exactly when the cleaned, stripped text starts with "/"; the selected handler runs and its effects are those of UserEffects |
| Helpers.CropCommand | user_commands/helpers.py:11-15 | a text without a space crops to ""; otherwise to the rest after the first space, stripped, so never padded |
| Helpers.CropOfCommand | user_commands/helpers.py:11-15 | a command word without spaces, a space and any argument crop to the stripped argument, and so an unpadded argument to itself |
| Helpers.ReadNumberParam | user_commands/helpers.py:18-28 | the result is the default unless the stripped text splits into exactly two words whose second is an integer of at least 1, which is then the result; it is at least 1 when the default is |
| Helpers.ReadNumberOfCommand | user_commands/helpers.py:18-28 | a command word, a space and a positive number read as that number |
| Helpers.ReadNumberOfSplit | user_commands/helpers.py:18-28 | a text splitting into a word and a positive integer reads as that integer |
| Helpers.SplitCommandWord | user_commands/helpers.py:20 | a command word, a space and digits are already stripped and split into those two words |
| Helpers.FirstAlt | user_commands/helpers.py:46 | the alternative matching at a position is the first of the pattern's alternatives that matches there, between word boundaries |
| Helpers.Finditer | user_commands/helpers.py:46 | the spans found are ordered, do not overlap, lie in the text and each is a match of one alternative |
| Helpers.FinditerEmpty | user_commands/helpers.py:46 | where no alternative matches from a position on, nothing is found |
| Helpers.MinStart | user_commands/helpers.py:50 | the smallest start of the spans, attained by one of them |
| Helpers.MaxEnd | user_commands/helpers.py:51 | the largest end of the spans, attained by one of them |
| Helpers.FirstDay | user_commands/helpers.py:45-48 | the entry chosen is the first of DAYS with a match; none exactly when no entry matches |
| Helpers.FindDay | user_commands/helpers.py:44-54 | no day exactly when no entry of DAYS matches; otherwise the first matching entry's offset, the smallest start and largest end of its matches, and its name, with the offset between 0 and 2 |
| Helpers.NoHeuteInUebermorgen | user_commands/helpers.py:44-54 | "übermorgen" holds no match of the entry for today |
| Helpers.NoMorgenInUebermorgen | user_commands/helpers.py:44-54 | "übermorgen" holds no match of the entry for tomorrow, the word boundary failing inside the longer word |
| Helpers.UebermorgenIsNotMorgen | user_commands/helpers.py:44-54 | "übermorgen" is found as the day after tomorrow, spanning the whole word |
| Helpers.UebermorgenMatches | user_commands/helpers.py:46 | the whole word "übermorgen" is the one match of its own entry |
| Configs.Ints | configuration.py:90-92 | a list of ids is written as the JSON list of those integers |
| Configs.IntsOf | configuration.py:100-105 | a JSON list read back as ids is the list the ids write |
| Configs.IntsRoundTrip | configuration.py:90-105 | a written list of ids reads back as itself |
| Configs.DecodeEncode | configuration.py:90-105 | the five modelled attributes written to the file read back as themselves, whatever the state read into |
| Configs.LoadConfigOfStored | configuration.py:94-105 | a file this configuration wrote loads as the configuration that wrote it, from any state, and is not written again |
| Configs.CopyOfStored | configuration.py:102-105 | copying the file's non-dunder attributes that the object has gives exactly the written attributes |
| Configs.EncodedNamesPlain | configuration.py:24-104 | the attributes written are the same five names whatever the state, none starting with "__" |
| Configs.LoadConfigFallbacks | configuration.py:94-119 | a missing or unreadable file keeps the defaults and writes them; a file of another version changes nothing and writes nothing |
| Configs.Configuration.constructor | configuration.py:13-31 | the defaults, then the file loaded as LoadConfig says, written back when it says so |
| Configs.Configuration.Store | configuration.py:90-92 | the file holds the current state, which does not change |
| Configs.Configuration.IsAdmin | configuration.py:33-45 | everyone is an admin while the admin list is empty; otherwise exactly the listed ids are |
| Configs.Configuration.AddAdmins | configuration.py:62-69 | an admin appends every mentioned id in order, duplicates included, and writes; for anyone else nothing changes; the other settings never change |
| Configs.Configuration.AddChannel | configuration.py:71-73 | one id is appended and written; nothing else changes |
| Configs.Configuration.ToggleDebug | configuration.py:75-78 | the switch flips, is written and returned; nothing else changes |
| Configs.Configuration.ToggleRespondAll | configuration.py:80-83 | the switch flips, is written and returned; nothing else changes |
| Configs.Configuration.ToggleKeepMessages | configuration.py:85-88 | the switch flips, is written and returned; nothing else changes |
| Configs.ToggleTwice | configuration.py:75-78 | two toggles give the state back |
| LegacyGuild.GuildKeyInjective | legacy/user_commands/guild.py:22-24 | different guild ids are written under different string keys |
| LegacyGuild.ManagerNeedsEntry | legacy/user_commands/guild.py:33-36 | no guild or no entry for the guild means no manager; otherwise a manager is exactly an id in the guild's list |
| LegacyGuild.AsWrittenLosesManagers | legacy/user_commands/guild.py:20-31 | as written, the int id is never a key of the string-keyed dictionary, so adding a manager replaces the guild's list by the new id and removing one changes and writes nothing |
| LegacyGuild.AsWrittenExample | legacy/user_commands/guild.py:20-31 | with manager 1 in guild 5, adding 2 leaves only 2 and removing 1 keeps 1 |
| LegacyGuild.Added | legacy/user_commands/guild.py:20-24 | with the key tested as a string, the id is appended to the guild's list or starts it; other guilds keep their lists and every key stays a string |
| LegacyGuild.Removed | legacy/user_commands/guild.py:28-31 | with the key tested as a string, the first copy of the id leaves the guild's list, an id the list does not hold is the ValueError, and a guild without an entry is left alone |
| LegacyGuild.AddThenRemove | legacy/user_commands/guild.py:20-31 | adding a new manager and removing it again gives the state back |
| LegacyGuild.ToggledFlips | legacy/user_commands/guild.py:71-76 | one toggle flips that user's status in the guild and nothing else, keeping lists free of repeats |
| LegacyGuild.ToggledAllFlips | legacy/user_commands/guild.py:71-76 | toggling distinct mentions flips the status of exactly the mentioned users in the guild and leaves other guilds alone |
| LegacyGuild.Fetched | legacy/user_commands/guild.py:38-46 | the users found are those of the list the bot can fetch, in order, and no more |
| LegacyGuild.GuildState.constructor | legacy/user_commands/guild.py:15-18 | the loaded file becomes the dictionary, keyed by strings, and nothing is written |
| LegacyGuild.GuildState.AddGuildManager | legacy/user_commands/guild.py:20-26 | the dictionary becomes Added of the old one and is written |
| LegacyGuild.GuildState.RemoveGuildManager | legacy/user_commands/guild.py:28-31 | the dictionary becomes Removed of the old one, failing on an id the list does not hold without changing anything; it is written only when the guild had an entry |
| LegacyGuild.GuildState.GuildManagers | legacy/user_commands/guild.py:38-46 | the loop returns Fetched of the guild's list, or nothing when the guild has no entry |
| LegacyGuild.GuildState.ManagerCommand | legacy/user_commands/guild.py:53-82 | no guild, no mentions, or an author who is neither admin nor manager leaves the managers alone with the matching reply; otherwise every mention is toggled, the file is written with the new managers, and the current managers are shown; the early returns write nothing |
| LegacyGuild.GuildState.ShowManagers | legacy/user_commands/guild.py:85-101 | the same checks, and the current managers that can be fetched when they pass |
| Roles.MappingToMessage | user_commands/roles.py:130-138 | the loop gives the text MappingText specifies: one line per entry, in order, inside the header and the hint |
| Roles.LoadMappings | user_commands/roles.py:115-127 | the loop over the message's lines gives the mapping ParseMappings reads |
| Roles.PlainLine | user_commands/roles.py:122-125 | a line without an arrow leaves the mapping as it was |
| Roles.EntryLineReads | user_commands/roles.py:122-125 | the line written for a clean entry reads back as exactly that entry |
| Roles.ReadEntryLines | user_commands/roles.py:122-125 | reading the lines of clean entries with new emojis appends them in order |
| Roles.FramedLines | user_commands/roles.py:130-138 | the text of a non-empty mapping is the header, a blank line, the entries, a blank line and the hint |
| Roles.ReadBackFramed | user_commands/roles.py:115-138 | reading back a framed text gives the mapping it was written for |
| Roles.ReadBack | user_commands/roles.py:115-138 | the text written for a clean mapping reads back as that mapping |
| Roles.InitialTextEmpty | user_commands/roles.py:141-148 | a new role message holds no entries |
| Roles.ParsedClean | user_commands/roles.py:122-125 | every mapping read from a message is clean, so what add and del write for it reads back as written |
| Roles.RolesState.constructor | user_commands/roles.py:17-20 | the state as the stored file left it, and nothing written |
| Roles.RolesState.GetRoleMessage | user_commands/roles.py:36-38 | some pair exactly when the guild has a non-empty entry, and then that entry |
| Roles.RolesState.IsGuildMessage | user_commands/roles.py:40-43 | when true, the guild has a role message and it is this channel and message |
| Roles.RolesState.AddRoleMessage | user_commands/roles.py:22-24 | the guild's entry is replaced by the new pair and stored, and only that pair is the guild's message |
| Roles.RolesState.RemoveRoleMessage | user_commands/roles.py:26-28 | a guild without an entry raises KeyError before anything is stored; otherwise the entry goes and the state is stored |
| Roles.RolesSubcommand | user_commands/roles.py:59-86 | a sub-command is found only when the text after the command word is not empty |
| Roles.SubcommandOfWord | user_commands/roles.py:60-84 | "/roles add ..." and the others select the sub-command of the word after the command word |
| Roles.RolesCommand | user_commands/roles.py:59-86 | a sub-command runs only for admins and guild managers, and for them exactly the one the text names |
| Roles.EnsureGuildMessage | user_commands/roles.py:93-112 | no guild, a missing message that must exist, or an existing one that must not are each refused with their reply; otherwise the guild |
| Roles.RoleChooserInit | user_commands/roles.py:141-148 | posts the initial text and records the new message unless the guild already has one, changing nothing then |
| Roles.RoleChooserAdd | user_commands/roles.py:151-187 | refused without exactly one role and one emoji or for an emoji already mapped; otherwise the mapping with the new entry at the end is written back |
| Roles.AddedReadsBack | user_commands/roles.py:151-187 | adding a clean entry with a new emoji to a parsed mapping reads back as that mapping with the entry at the end |
| Roles.RoleChooserDel | user_commands/roles.py:190-217 | refused without exactly one emoji or for an emoji not mapped; otherwise the mapping without it is written back |
| Roles.RemovedReadsBack | user_commands/roles.py:190-217 | removing an emoji from a parsed mapping reads back as the mapping without it |
| Roles.RoleChooserReset | user_commands/roles.py:220-231 | forgets the guild's role message when it has one, and changes nothing otherwise |
| Roles.IdInMention | user_commands/roles.py:255-256 | a role's id occurs in its own mention |
| Roles.RolesIn | user_commands/roles.py:255-256 | the roles found are exactly the guild's roles whose id occurs in the mention |
| Roles.Toggle | user_commands/roles.py:263-268 | the member loses the role when holding it and gains it otherwise, and keeps all other roles |
| Roles.ToggleTwice | user_commands/roles.py:263-268 | a second click on the same role undoes the first |
| Roles.HandleRoleReaction | user_commands/roles.py:234-277 | only the guild's role message is handled; an unmapped emoji is answered; a role that is not exactly one of the guild's is ignored; otherwise the role is toggled unless Discord refuses |
| KotlinRoles.RolesState.constructor | src/main/kotlin/org/fuchss/deltabot/command/user/Roles.kt:232-234 | the state starts as the stored map of guilds to role messages, and nothing is written |
| KotlinRoles.RolesState.GetGuildState | src/main/kotlin/org/fuchss/deltabot/command/user/Roles.kt:247 | a guild's state is found exactly when it has a role message, and is the stored one |
| KotlinRoles.RolesState.IsGuildMessage | src/main/kotlin/org/fuchss/deltabot/command/user/Roles.kt:249-254 | true exactly when the guild has a role message with these channel and message ids |
| KotlinRoles.RolesState.Store | src/main/kotlin/org/fuchss/deltabot/command/user/Roles.kt:134 | the state is written as it is and not changed |
| KotlinRoles.RolesState.AddRoleMessage | src/main/kotlin/org/fuchss/deltabot/command/user/Roles.kt:236-239 | a fresh guild state with an empty mapping replaces any old one, is the guild's role message, and the state is written |
| KotlinRoles.RolesState.RemoveRoleMessage | src/main/kotlin/org/fuchss/deltabot/command/user/Roles.kt:241-244 | the guild loses its role message, other guilds keep theirs, and the state is written |
| KotlinRoles.EntryLines | src/main/kotlin/org/fuchss/deltabot/command/user/Roles.kt:209-211 | one line per entry of the mapping, in order |
| KotlinRoles.GuildButtons | src/main/kotlin/org/fuchss/deltabot/command/user/Roles.kt:214 | one button per emoji, in the mapping's order, and none exactly for an empty mapping |
| KotlinRoles.EmptyGuildLines | src/main/kotlin/org/fuchss/deltabot/command/user/Roles.kt:204 | the message of an empty mapping is the two lines header and "no roles" |
| KotlinRoles.GuildTextLines | src/main/kotlin/org/fuchss/deltabot/command/user/Roles.kt:207-213 | for a non-empty mapping, the message is the header, a blank line, one line per entry in order, a blank line and the hint |
| KotlinRoles.FramedSplit | src/main/kotlin/org/fuchss/deltabot/command/user/Roles.kt:208-213 | a header, a blank line, one-line entries, a blank line and a hint split back into those lines |
| KotlinRoles.RoleIdOf | src/main/kotlin/org/fuchss/deltabot/command/user/Roles.kt:185 | the role id is the mention less its first three and its last character, and empty when the mention is too short |
| KotlinRoles.RoleIdOfMention | src/main/kotlin/org/fuchss/deltabot/command/user/Roles.kt:185 | a role mention "<@&ID>" yields ID |
| KotlinRoles.AddKeepsWellFormed | src/main/kotlin/org/fuchss/deltabot/command/user/Roles.kt:117-133 | an entry with a new emoji and a new role keeps emojis and roles distinct |
| KotlinRoles.RemoveKeepsInjective | src/main/kotlin/org/fuchss/deltabot/command/user/Roles.kt:167 | removing an emoji's entry keeps the roles distinct |
| KotlinRoles.HandleInit | src/main/kotlin/org/fuchss/deltabot/command/user/Roles.kt:73-84 | refused exactly when the guild has a role message, changing nothing; otherwise the initial text is posted and becomes the guild's role message with an empty mapping |
| KotlinRoles.HandlePurge | src/main/kotlin/org/fuchss/deltabot/command/user/Roles.kt:86-100 | refused exactly without a role message; otherwise the guild's role message is forgotten and its ids are those deleted |
| KotlinRoles.HandleAdd | src/main/kotlin/org/fuchss/deltabot/command/user/Roles.kt:102-138 | each refusal holds exactly when its check fails, in the source's order, changing nothing; when all pass the emoji and role are appended, the state is written and the message rendered from the new mapping |
| KotlinRoles.HandleDel | src/main/kotlin/org/fuchss/deltabot/command/user/Roles.kt:141-172 | each refusal holds exactly when its check fails, changing nothing; otherwise the emoji's entry goes, no other emoji's role changes, the state is written and the message re-rendered |
| KotlinRoles.HandleRolesClick | src/main/kotlin/org/fuchss/deltabot/command/user/Roles.kt:174-201 | an emoji without a role is refused; a role Discord refuses or the guild lacks is not allowed; otherwise the member loses the role if they have it and gains it if not |
| KotlinRoles.OnEvent | src/main/kotlin/org/fuchss/deltabot/command/user/Roles.kt:53-60 | only a button click on the guild's role message is handled, a click outside a guild being looked up under the empty id |
| KotlinRoles.AddedRoleIsClicked | src/main/kotlin/org/fuchss/deltabot/command/user/Roles.kt:133-185 | the role added for a new emoji is the one a click on that emoji's button toggles |
| SummonCommands.UpdateState.constructor | user_commands/summon.py:19-22 | the records the state file held, nothing written yet |
| SummonCommands.UpdateState.AddUpdate | user_commands/summon.py:24-31 | the record is appended and the list written |
| SummonCommands.UpdateState.RemoveUpdate | user_commands/summon.py:33-40 | an absent record raises and changes nothing; otherwise its first occurrence is removed and the list written |
| SummonCommands.NewDayValue | user_commands/summon.py:119-121 | the bold DAYS entry of the new offset, or 'damals (am/um)' once the offset is negative |
| SummonCommands.ReplaceDay | user_commands/summon.py:123 | when the old day text occurs once, the text around it is kept and the new day text takes its place |
| SummonCommands.CountdownLength | user_commands/summon.py:119-127 | a chain started at offset o makes o + 1 updates and then stops; none for an offset of -1 or below |
| SummonCommands.CountdownFromUebermorgen | user_commands/summon.py:119-127 | a summon for the day after tomorrow reads "morgen", then "heute", then 'damals (am/um)', and schedules nothing more |
| SummonCommands.Summoner.constructor | user_commands/summon.py:263-270 | every persisted record is queued at its own timestamp, in order |
| SummonCommands.Summoner.AddToScheduler | user_commands/summon.py:70-92 | nothing for an offset of -1 or below; otherwise the record for the next midnight is persisted and then queued |
| SummonCommands.Summoner.ExecuteUpdate | user_commands/summon.py:95-127 | the record is removed first, so an absent one raises; a message that is gone ends the update; otherwise the day text is replaced and the chain goes on one offset lower, and an offset beyond DAYS raises |
| SummonCommands.Mentions | user_commands/summon.py:203-205 | the stripped pieces that are not empty, in order |
| SummonCommands.LineVotes | user_commands/summon.py:193-206 | a blank line, one without ':' or one not starting with an allowed reaction says nothing; otherwise its reaction and the mentions after the first ':' |
| SummonCommands.AppendMentions | user_commands/summon.py:203-206 | the inner loop appends exactly the non-empty stripped pieces to the reaction's list |
| SummonCommands.ReadReactions | user_commands/summon.py:181-208 | the loop over the lines gives the tally the line-by-line reading specifies, with every allowed reaction starting empty |
| SummonCommands.Toggle | user_commands/summon.py:239-242 | a user already listed is removed once, otherwise appended at the end |
| SummonCommands.ToggleFlips | user_commands/summon.py:239-242 | in a list without duplicates a reaction flips exactly the reacting user's vote and keeps the others |
| SummonCommands.ToggleTwice | user_commands/summon.py:239-242 | reacting twice gives the votes back |
| SummonCommands.VoteLineReads | user_commands/summon.py:247-251 | a summary line reads back as its reaction and its voters |
| SummonCommands.TallyOfVoteLines | user_commands/summon.py:247-251 | the summary lines of the reactions read back as their votes |
| SummonCommands.RenderShape | user_commands/summon.py:244-256 | a rendered message is the first line, the summary if any reaction has votes, and the request to vote |
| SummonCommands.ReadRendered | user_commands/summon.py:181-256 | reading a rendered message gives back the votes it was rendered from, whatever its one-line head |
| SummonCommands.TallyLinesValid | user_commands/summon.py:193-206 | whatever the text, the votes read from it are ones a text can hold |
| SummonCommands.Voted | user_commands/summon.py:239-242 | the votes after a reaction: only the reacted list is toggled |
| SummonCommands.MentionEndIff | user_commands/summon.py:64-65 | the scanner finds exactly the mentions the pattern matches |
| SummonCommands.OpensWithMentionIff | user_commands/summon.py:64 | the first pattern matches exactly a mention at the start followed by ": Wer wäre" |
| SummonCommands.ClosesIff | user_commands/summon.py:65 | the second pattern matches exactly a line ending in "(", a mention and ")" |
| SummonCommands.FirstTemplateIsSummon | user_commands/summon.py:57 | a message made from the first template is recognised as a summon |
| SummonCommands.OtherTemplatesAreSummons | user_commands/summon.py:58-60 | messages made from the other templates are recognised as summons |
| SummonCommands.PlainLineIsNoSummon | user_commands/summon.py:220-227 | a first line that neither starts with "<" nor ends with ")" is no summon |
| SummonCommands.HeadLine | user_commands/summon.py:224 | the first line, stripped, has no newline and no surrounding whitespace |
| SummonCommands.ReactionIndex | user_commands/summon.py:233 | a reaction is found exactly when it is one of the allowed ones, at its position |
| SummonCommands.RenderVotes | user_commands/summon.py:244-256 | the summary loop builds exactly the rendered text of the votes |
| SummonCommands.HandleReaction | user_commands/summon.py:211-260 | only the bot's own summon messages are handled; a handled reaction is always removed; only an allowed one edits the message, toggling the user's vote |
| SummonCommands.SummonHead | user_commands/summon.py:220-227 | the message is a summon exactly when the bot wrote it and its first line matches a pattern |
| SummonCommands.ReactTo | user_commands/summon.py:237-256 | the new text is the rendered votes with the user's vote toggled |
| SummonCommands.RenderKeepsHead | user_commands/summon.py:244 | the first line of a rendered message is the head it was rendered with |
| SummonCommands.VoteRoundTrip | user_commands/summon.py:237-256 | a reaction keeps the first line, and the text written reads back as the votes read before with the user's vote toggled |
| SummonCommands.ReactOnRendered | user_commands/summon.py:237-256 | on a message the bot rendered, a reaction renders the toggled votes under the same head |
| SummonCommands.ReactTwice | user_commands/summon.py:237-256 | reacting twice in the same way shows the votes held before |
| SummonCommands.EmptyTally | user_commands/summon.py:189-191 | the tally starts with an empty list for every allowed reaction |
| SummonCommands.AsciiLineSaysNothing | user_commands/summon.py:199 | a line that starts with an ASCII character names no allowed reaction and says nothing |
| SummonCommands.ReadTally | user_commands/summon.py:181-208 | one list of voters per allowed reaction |
| SummonCommands.VotedTwice | user_commands/summon.py:239-242 | a second vote of the same user for the same reaction takes the first one back |
| LegacySummon.EmojiIds | legacy/user_commands/summon.py:47-51 | one id per reaction, in order: a plain emoji itself, a custom one its name |
| LegacySummon.FirstPrefix | legacy/user_commands/summon.py:212-214 | the id found is the first the line starts with; none is found exactly when no id is a prefix of the line |
| LegacySummon.MentionTypeIsLongest | legacy/user_commands/summon.py:210-215 | the reaction found for a line is the longest id the line starts with, and none exactly when no id is a prefix |
| LegacySummon.FirstPrefixIsLongest | legacy/user_commands/summon.py:211-214 | in ids sorted longest first, the first prefix of the line is a longest one |
| LegacySummon.CleanPlain | legacy/user_commands/summon.py:229-233 | with plain emojis only, the message text is read as it is |
| LegacySummon.LegacyLineVotes | legacy/user_commands/summon.py:239-252 | a line votes only when it is not blank, holds ':' and starts with a reaction id; its votes are the mentions after the first ':', split at commas |
| LegacySummon.LegacyTally | legacy/user_commands/summon.py:236-254 | one list of votes per reaction |
| LegacySummon.ReadTextReactions | legacy/user_commands/summon.py:218-254 | the loop over the lines gives the tally of the lines of the cleaned text |
| LegacySummon.TallySnoc | legacy/user_commands/summon.py:239-252 | a line adds its votes to its reaction's list and changes no other, and a line that votes for nothing changes nothing |
| LegacySummon.NoLinesNoVotes | legacy/user_commands/summon.py:236-237 | every reaction starts without votes |
| LegacySummon.LineAddsToItsReaction | legacy/user_commands/summon.py:239-252 | a vote line adds its mentions, in order, to the list of the reaction it starts with, and to no other |
| LegacySummon.AdjustVotes | legacy/user_commands/summon.py:316-327 | the pressed reaction's list is toggled for the user and every other list loses the user |
| LegacySummon.OneVotePerUser | legacy/user_commands/summon.py:316-327 | a user who voted at most once per reaction holds afterwards at most the pressed reaction, exactly when they had not voted for it |
| LegacySummon.LegacySummaryEmpty | legacy/user_commands/summon.py:332-338 | the summary is empty exactly when no reaction has a vote |
| LegacySummon.UpdateMessage | legacy/user_commands/summon.py:303-344 | the message is edited to its first line and the summary of the tally read from its text, adjusted for the click |
| LegacySummon.RenderLegacyVotes | legacy/user_commands/summon.py:329-343 | the new text is the first line, the summary when there is one, and the request to vote |
| LegacySummon.SummaryLines | legacy/user_commands/summon.py:332-338 | the loop gives a newline and a vote line for each reaction with votes, in the reactions' order |
| LegacySummon.SummaryStep | legacy/user_commands/summon.py:332-338 | a reaction without votes adds no line; one with votes adds its line |
| LegacySummon.Record | legacy/user_commands/summon.py:120-127 | an update is stored as a dictionary with exactly the six keys |
| LegacySummon.RecordRoundTrip | legacy/user_commands/summon.py:120-127 | a stored update reads back as itself, and a dictionary that reads as an update is that update's dictionary |
| LegacySummon.FindRecord | legacy/user_commands/summon.py:441-446 | the record found is the first with the message's and channel's ids; none exactly when no record has them |
| LegacySummon.TerminatedRewritesRequest | legacy/user_commands/summon.py:132-143 | a terminated poll's text has the note that the poll is over where the request to vote was |
| LegacySummon.LegacySummoner.constructor | legacy/user_commands/summon.py:463-470 | the stored updates are loaded, written back as the store's constructor writes them, and each is queued at its timestamp; nothing is sent |
| LegacySummon.LegacySummoner.AddToScheduler | legacy/user_commands/summon.py:103-129 | nothing for an offset of -1 or below; otherwise the update for the next midnight is stored and queued |
| LegacySummon.LegacySummoner.ExecuteUpdate | legacy/user_commands/summon.py:146-179 | the record goes first; a deleted message ends the chain; a negative new offset terminates the poll; otherwise the day text is replaced and the next update is stored and queued one offset lower; the store is written after the removal of an existing record, and again with the next update |
| LegacySummon.LegacySummoner.CheckEnd | legacy/user_commands/summon.py:257-300 | cancel and finish are handled whoever pressed them, but only the initiator removes the record and deletes or terminates the poll; anyone else is refused |
| LegacySummon.LegacySummoner.HandleButton | legacy/user_commands/summon.py:427-460 | handled exactly for a bot message with a record of this message and channel, which then does what Pressed says; otherwise nothing changes |
| LegacySummon.LegacySummoner.Press | legacy/user_commands/summon.py:448-460 | cancel and finish end the poll, a guild reaction is a vote that edits the message, and any other button changes nothing |
| LegacySummon.LegacySummoner.Vote | legacy/user_commands/summon.py:459 | the message is edited to the text UpdateMessage gives |
| Summons.FindSummon | src/main/kotlin/org/fuchss/deltabot/command/user/Summon.kt:208-210 | the index of the first record of the message, or none when no record has that message id |
| Summons.RemoveFound | src/main/kotlin/org/fuchss/deltabot/command/user/Summon.kt:217-220 | removing the found record by equality removes exactly that record |
| Summons.ToggleVote | src/main/kotlin/org/fuchss/deltabot/command/user/Summon.kt:108-113 | each user holds at most one answer: the same answer again withdraws it, another answer replaces it, and the other users' answers stay |
| Summons.ToggleTwice | src/main/kotlin/org/fuchss/deltabot/command/user/Summon.kt:108-113 | clicking the same answer twice restores the answers, unless the user had another one |
| Summons.ToggleReplaces | src/main/kotlin/org/fuchss/deltabot/command/user/Summon.kt:108-113 | a click on an answer other than the user's current one leaves that answer |
| Summons.SummonState.constructor | src/main/kotlin/org/fuchss/deltabot/command/user/Summon.kt:204-206 | the records as loaded, nothing written yet |
| Summons.SummonState.Store | src/main/kotlin/org/fuchss/deltabot/command/user/Summon.kt:114 | the records are written unchanged |
| Summons.SummonState.Add | src/main/kotlin/org/fuchss/deltabot/command/user/Summon.kt:212-215 | the record is appended and the list written |
| Summons.SummonState.Remove | src/main/kotlin/org/fuchss/deltabot/command/user/Summon.kt:217-220 | the first equal record is removed and the list written |
| Summons.TerminationsOf | src/main/kotlin/org/fuchss/deltabot/command/user/Summon.kt:57-60 | one termination per record, in list order, at the record's time |
| Summons.Summon.constructor | src/main/kotlin/org/fuchss/deltabot/command/user/Summon.kt:28-47 | the loaded records, an empty queue and no terminations |
| Summons.Summon.RegisterJda | src/main/kotlin/org/fuchss/deltabot/command/user/Summon.kt:52-60 | the termination of every loaded record is queued at its time, in list order |
| Summons.Summon.HandleButton | src/main/kotlin/org/fuchss/deltabot/command/user/Summon.kt:62-117 | a message without a record is ignored; finish and delete remove the record for whoever clicks; any other button toggles the clicker's answer and writes the list |
| Summons.Summon.CreateSummon | src/main/kotlin/org/fuchss/deltabot/command/user/Summon.kt:137-159 | a time in the past is refused and nothing is recorded; otherwise the record is added with no answers and its termination queued at its time |
| Summons.Summon.TerminateSummon | src/main/kotlin/org/fuchss/deltabot/command/user/Summon.kt:161-170 | the first record of the message is removed if there is one, and nothing changes otherwise |
| Schedulers.Scheduler.QueueAll | src/main/kotlin/org/fuchss/deltabot/utils/Scheduler.kt:62-66 | queuing a list of elements one by one adds exactly those elements |
| Polls.Added | src/main/kotlin/org/fuchss/deltabot/command/user/polls/Poll.kt:92-106 | the key gets a list and exactly the pair (key, value) is added to the votes |
| Polls.AddedNoDup | src/main/kotlin/org/fuchss/deltabot/command/user/polls/Poll.kt:92-106 | adding a value not listed yet keeps every list free of repeats |
| Polls.Removed | src/main/kotlin/org/fuchss/deltabot/command/user/polls/Poll.kt:108-127 | the key keeps a list, possibly empty, and no vote is added |
| Polls.RemovedExactly | src/main/kotlin/org/fuchss/deltabot/command/user/polls/Poll.kt:108-127 | without repeats, exactly the pair (key, value) leaves the votes |
| Polls.Cleaned | src/main/kotlin/org/fuchss/deltabot/command/user/polls/Poll.kt:83-90 | the keys with an empty list go, and every other key keeps its list |
| Polls.CleanedVotes | src/main/kotlin/org/fuchss/deltabot/command/user/polls/Poll.kt:83-90 | cleaning keeps every vote, leaves no empty list and keeps lists free of repeats |
| Polls.Poll.constructor | src/main/kotlin/org/fuchss/deltabot/command/user/polls/Poll.kt:52-71 | a new poll has no votes and its serialised fields agree with its maps |
| Polls.Poll.Sync | src/main/kotlin/org/fuchss/deltabot/command/user/polls/Poll.kt:141-144 | the serialised fields are brought in line with the maps, which do not change |
| Polls.Poll.AddReact2User | src/main/kotlin/org/fuchss/deltabot/command/user/polls/Poll.kt:92-98 | the user is added to the option's list, the other map unchanged and the fields in line |
| Polls.Poll.AddUser2React | src/main/kotlin/org/fuchss/deltabot/command/user/polls/Poll.kt:100-106 | the option is added to the user's list, the other map unchanged and the fields in line |
| Polls.Poll.RemoveReact2User | src/main/kotlin/org/fuchss/deltabot/command/user/polls/Poll.kt:108-114 | one copy of the user leaves the option's list, the other map unchanged |
| Polls.Poll.RemoveUser | src/main/kotlin/org/fuchss/deltabot/command/user/polls/Poll.kt:116-119 | the user's key goes from the user map, the other map unchanged |
| Polls.Poll.RemoveUser2React | src/main/kotlin/org/fuchss/deltabot/command/user/polls/Poll.kt:121-127 | one copy of the option leaves the user's list, the other map unchanged |
| Polls.Poll.SetUser2React | src/main/kotlin/org/fuchss/deltabot/command/user/polls/Poll.kt:129-135 | the user's list is replaced, the other map unchanged |
| Polls.Poll.Cleanup | src/main/kotlin/org/fuchss/deltabot/command/user/polls/Poll.kt:83-90 | both maps lose their empty lists and nothing else |
| Polls.SingleOptionClick | src/main/kotlin/org/fuchss/deltabot/command/user/polls/PollBase.kt:119-127 | with one option allowed a user holds at most one vote after a click, clicking the current vote withdraws it, and clicking another option makes it the only vote |
| Polls.MultiOptionClick | src/main/kotlin/org/fuchss/deltabot/command/user/polls/PollBase.kt:128-139 | with several options allowed a click flips exactly the clicked option of the clicking user |
| Polls.UpdateUser | src/main/kotlin/org/fuchss/deltabot/command/user/polls/PollBase.kt:116-141 | the user's votes change by the click as Clicked says, both maps stay consistent and free of repeats, and no list is left empty |
| Polls.ClickOnlyOption | src/main/kotlin/org/fuchss/deltabot/command/user/polls/PollBase.kt:119-127 | every vote of the user goes from both maps, and unless the clicked option was among them it becomes the user's only vote |
| Polls.ClickOneOfMany | src/main/kotlin/org/fuchss/deltabot/command/user/polls/PollBase.kt:128-139 | the pair of user and option goes from both maps when the user had voted it, and is added to both otherwise |
| Polls.PollBase.constructor | src/main/kotlin/org/fuchss/deltabot/command/user/polls/PollBase.kt:228-238 | no poll is kept or stored yet |
| Polls.PollBase.PersistPoll | src/main/kotlin/org/fuchss/deltabot/command/user/polls/PollBase.kt:228-231 | the poll is kept and stored |
| Polls.PollBase.RemovePoll | src/main/kotlin/org/fuchss/deltabot/command/user/polls/PollBase.kt:233-238 | null changes nothing; a poll leaves the kept and the stored ones |
| Polls.PollBase.HandleButtonEvent | src/main/kotlin/org/fuchss/deltabot/command/user/polls/PollBase.kt:87-114 | finish and delete act only for the owner, removing the poll, and change nothing for anyone else; any other button is a vote that changes the votes as Clicked says and stores the poll |
| Polls.GetOptions | src/main/kotlin/org/fuchss/deltabot/command/user/polls/PollBase.kt:181-199 | one emoji per option, in order, none of them the finish or delete emoji and no two the same |
| Polls.NewEmojiStep | src/main/kotlin/org/fuchss/deltabot/command/user/polls/PollBase.kt:184-188 | an emoji not used yet keeps the emojis apart from finish, delete and each other |
| KotlinPollAdmin.ValueAfter | src/main/kotlin/org/fuchss/deltabot/command/user/polls/PollAdmin.kt:36-37 | a line without the prefix gives "", and a value read is trimmed |
| KotlinPollAdmin.ParseAdmin | src/main/kotlin/org/fuchss/deltabot/command/user/polls/PollAdmin.kt:32-37 | nothing is read exactly when the message has fewer than two lines |
| KotlinPollAdmin.LinesAfterLine | src/main/kotlin/org/fuchss/deltabot/command/user/polls/PollAdmin.kt:32 | a line without line breaks followed by a newline is the first of the lines |
| KotlinPollAdmin.PrefixedLine | src/main/kotlin/org/fuchss/deltabot/command/user/polls/PollAdmin.kt:36-37 | a prefix and a trimmed one-line value make a line that reads back as the value |
| KotlinPollAdmin.AdminTextRoundTrip | src/main/kotlin/org/fuchss/deltabot/command/user/polls/PollAdmin.kt:58-62 | the admin area written for a trimmed one-line type and id reads back as that type and id, whatever the note |
| KotlinPollAdmin.PollAdmin.constructor | src/main/kotlin/org/fuchss/deltabot/command/user/polls/PollAdmin.kt:21 | no poll type has a manager yet |
| KotlinPollAdmin.PollAdmin.Register | src/main/kotlin/org/fuchss/deltabot/command/user/polls/PollAdmin.kt:72-74 | the type gets the new manager, even when it had one, and other types keep theirs |
| KotlinPollAdmin.PollAdmin.Action | src/main/kotlin/org/fuchss/deltabot/command/user/polls/PollAdmin.kt:23-56 | another author's message is ignored; a registered type whose manager denies ownership gives "not owner" exactly then; "not found" exactly when a finish, delete or refresh click reads an empty type or id or an unregistered type; each action exactly for its button when the owner clicks on a registered type, reaching that type's manager with the poll id |
| KotlinPollAdmin.PollAdmin.ClickReachesManager | src/main/kotlin/org/fuchss/deltabot/command/user/polls/PollAdmin.kt:23-62 | the owner's click on an admin area written for a registered type reaches the type's manager with the poll id and the action of the button |
| KotlinHiddenMessages.HiddenMessage.constructor | src/main/kotlin/org/fuchss/deltabot/utils/extensions/HiddenMessagesExtensions.kt:78-83 | the new record holds the message's place, id and raw text, and is expanded |
| KotlinHiddenMessages.RecordMatches | src/main/kotlin/org/fuchss/deltabot/utils/extensions/HiddenMessagesExtensions.kt:129-138 | a record is found again for the message it was made for |
| KotlinHiddenMessages.FindRecord | src/main/kotlin/org/fuchss/deltabot/utils/extensions/HiddenMessagesExtensions.kt:129-138 | the record found is in the list and matches the message's place and id; none is found exactly when no record matches |
| KotlinHiddenMessages.FindAppended | src/main/kotlin/org/fuchss/deltabot/utils/extensions/HiddenMessagesExtensions.kt:129-138 | a record appended after no match is the one found |
| KotlinHiddenMessages.FindKept | src/main/kotlin/org/fuchss/deltabot/utils/extensions/HiddenMessagesExtensions.kt:129-138 | an appended record does not change what an earlier match finds |
| KotlinHiddenMessages.SplitHeadIsPrefix | src/main/kotlin/org/fuchss/deltabot/utils/extensions/HiddenMessagesExtensions.kt:95 | the first line of a text is its prefix up to the first line break |
| KotlinHiddenMessages.Preview | src/main/kotlin/org/fuchss/deltabot/utils/extensions/HiddenMessagesExtensions.kt:95-96 | the collapsed text is a prefix of the displayed text of at most 24 characters without a line break, followed by "..."; a first line longer than 24 characters is cut to exactly its first 24, and a short first line is kept whole |
| KotlinHiddenMessages.HideMessage | src/main/kotlin/org/fuchss/deltabot/utils/extensions/HiddenMessagesExtensions.kt:91-101 | a collapsed record is left alone; otherwise the message is edited to its preview and the record is collapsed, persisting only in an initialised manager |
| KotlinHiddenMessages.UnhideMessage | src/main/kotlin/org/fuchss/deltabot/utils/extensions/HiddenMessagesExtensions.kt:104-112 | an expanded record is left alone; otherwise the message gets back the kept text, the record is expanded and, with a scheduler, a collapse is queued |
| KotlinHiddenMessages.Click | src/main/kotlin/org/fuchss/deltabot/utils/extensions/HiddenMessagesExtensions.kt:169-175 | a click flips the record: a collapsed message is expanded to its kept text with a collapse queued, an expanded one is collapsed to its preview |
| KotlinHiddenMessages.HiddenMessageManager.constructor | src/main/kotlin/org/fuchss/deltabot/utils/extensions/HiddenMessagesExtensions.kt:114-117 | a new manager is uninitialised and holds no records |
| KotlinHiddenMessages.HiddenMessageManager.Init | src/main/kotlin/org/fuchss/deltabot/utils/extensions/HiddenMessagesExtensions.kt:28-32 | a second initialisation is an error that changes nothing; the first adds the stored records |
| KotlinHiddenMessages.HiddenMessageManager.AddHM | src/main/kotlin/org/fuchss/deltabot/utils/extensions/HiddenMessagesExtensions.kt:199-204 | the record is appended in an initialised manager, and nothing changes otherwise |
| KotlinHiddenMessages.HiddenMessageManager.RemoveHM | src/main/kotlin/org/fuchss/deltabot/utils/extensions/HiddenMessagesExtensions.kt:206-211 | the first copy of the record leaves the list in an initialised manager, and nothing changes otherwise |
| KotlinHiddenMessages.HiddenMessageManager.Hide | src/main/kotlin/org/fuchss/deltabot/utils/extensions/HiddenMessagesExtensions.kt:45-64 | refused with buttons or before initialisation; otherwise the message has a record afterwards, a new one holding its raw text, and with directHide it is collapsed to its preview; no other record changes |
| KotlinHiddenMessages.HiddenMessageManager.Unhide | src/main/kotlin/org/fuchss/deltabot/utils/extensions/HiddenMessagesExtensions.kt:67-76 | refused before initialisation and a no-op without a record; otherwise the record is expanded, giving back the kept text if it was collapsed, and dropped |
| KotlinHiddenMessages.HiddenMessageManager.OnDelete | src/main/kotlin/org/fuchss/deltabot/utils/extensions/HiddenMessagesExtensions.kt:150-155 | the deleted message's record, when it has one, leaves the list |
| KotlinHiddenMessages.HiddenMessageManager.OnButton | src/main/kotlin/org/fuchss/deltabot/utils/extensions/HiddenMessagesExtensions.kt:162-166 | only the hide button on a message with a record acts, flipping that record alone; the message becomes the kept text when it was collapsed and the preview otherwise |
| KotlinHiddenMessages.HiddenMessageManager.OnReaction | src/main/kotlin/org/fuchss/deltabot/utils/extensions/HiddenMessagesExtensions.kt:177-197 | the hide reaction on the bot's own message in an initialised manager expands and drops an existing record, editing the message back to its content only when it was hidden; a message with buttons and no record is left alone; otherwise a new hidden record is appended and the message is edited to its preview; the other records keep their flags in every case |
| KotlinCommandHandler.UndescribedSubs | src/main/kotlin/org/fuchss/deltabot/command/CommandHandler.kt:156-157 | each subcommand keeps its name and options and loses its description |
| KotlinCommandHandler.SameIsEqualButDescriptions | src/main/kotlin/org/fuchss/deltabot/command/CommandHandler.kt:148-202 | a registered command matches the bot's exactly when the two are equal once the command and subcommand descriptions are ignored: names, options (all five fields) and subcommands by name and options must agree |
| KotlinCommandHandler.FirstSame | src/main/kotlin/org/fuchss/deltabot/command/CommandHandler.kt:148-165 | a found command is registered and matches; None iff no registered command matches |
| KotlinCommandHandler.FindCommand | src/main/kotlin/org/fuchss/deltabot/command/CommandHandler.kt:148-165 | the loop returns the first matching registered command, or null |
| KotlinCommandHandler.Fresh | src/main/kotlin/org/fuchss/deltabot/command/CommandHandler.kt:125-136 | a command is new iff it is in the scope and no registered command matches it |
| KotlinCommandHandler.Matched | src/main/kotlin/org/fuchss/deltabot/command/CommandHandler.kt:125-132 | a registered command is kept iff it is the match of some command in the scope |
| KotlinCommandHandler.Unmatched | src/main/kotlin/org/fuchss/deltabot/command/CommandHandler.kt:139 | the registered commands that are not kept |
| KotlinCommandHandler.OldOrNew | src/main/kotlin/org/fuchss/deltabot/command/CommandHandler.kt:125-136 | every command in the scope is either new or has its match kept; a command of the other scope is never new |
| KotlinCommandHandler.FindNewAndOld | src/main/kotlin/org/fuchss/deltabot/command/CommandHandler.kt:121-145 | the loop returns the new commands of the scope, and deletes exactly the registered commands that no command in the scope matched |
| KotlinCommandHandler.GuildAdmins | src/main/kotlin/org/fuchss/deltabot/Configuration.kt:70-84 | the guild's admins are its owner and the configured admins who are members |
| KotlinCommandHandler.HandleSlash | src/main/kotlin/org/fuchss/deltabot/command/CommandHandler.kt:167-196 | an unknown name runs UnknownCommand; the command is refused iff it is an ADMIN command and the caller is neither the guild owner nor a configured admin, or a GUILD_ADMIN command in a guild and the caller is not among the guild's admins |
| KotlinCommandHandler.SlashPermissions | src/main/kotlin/org/fuchss/deltabot/command/CommandHandler.kt:171-186 | an ADMIN command runs iff the caller owns the guild or is a configured admin; a GUILD_ADMIN command always runs in a DM and in a guild runs iff the caller is the owner or a configured admin who is a member; an ALL command always runs |
| KotlinCommandHandler.ByName | src/main/kotlin/org/fuchss/deltabot/command/CommandHandler.kt:51 | the map has exactly the commands' names, each mapped to a command of that name from the list |
| KotlinCommandHandler.ByNameKeepsLast | src/main/kotlin/org/fuchss/deltabot/command/CommandHandler.kt:51 | of several commands with one name, the map keeps the last in the list, as `associateBy` does |
| KotlinCommandHandler.FirstInitialAdmin | src/main/kotlin/org/fuchss/deltabot/command/CommandHandler.kt:55 | the first initial-admin command, or None iff there is none |
| KotlinCommandHandler.CommandHandler.constructor | src/main/kotlin/org/fuchss/deltabot/command/CommandHandler.kt:26-52 | the bot's commands, with the initial-admin command appended exactly when no admin is configured, and the table by name |
| KotlinCommandHandler.CommandHandler.InitialUser | src/main/kotlin/org/fuchss/deltabot/command/CommandHandler.kt:54-58 | without an initial-admin command nothing changes; otherwise it leaves the list (first copy) and its name leaves the table |
| KotlinLanguage.Without | src/main/kotlin/org/fuchss/deltabot/db/settings/LanguageSettings.kt:62 | the kept entries are exactly those of another key, and unique keys stay unique |
| KotlinLanguage.LastOf | src/main/kotlin/org/fuchss/deltabot/db/settings/LanguageSettings.kt:101-103 | the language found belongs to an entry of the key, and none is found exactly when no entry has the key |
| KotlinLanguage.LastOfUnique | src/main/kotlin/org/fuchss/deltabot/db/settings/LanguageSettings.kt:101-103 | with unique keys an entry's key finds that entry's language |
| KotlinLanguage.UniqueSnoc | src/main/kotlin/org/fuchss/deltabot/db/settings/LanguageSettings.kt:56 | appending an entry of an absent key keeps the keys unique |
| KotlinLanguage.WithoutKeepsOthers | src/main/kotlin/org/fuchss/deltabot/db/settings/LanguageSettings.kt:62 | removing one key's entries leaves every other key's lookup as it was |
| KotlinLanguage.LastOfSnoc | src/main/kotlin/org/fuchss/deltabot/db/settings/LanguageSettings.kt:56 | an entry of another key at the end changes no lookup |
| KotlinLanguage.Lookup | src/main/kotlin/org/fuchss/deltabot/db/settings/LanguageSettings.kt:37-49 | a language is found only for a user and guild with database rows and an entry of the key; with rows and no entry nothing is found |
| KotlinLanguage.LanguageOf | src/main/kotlin/org/fuchss/deltabot/utils/extensions/LanguageExtensions.kt:23-39 | the result is the default or the language of an entry concerning that user in that guild, the guild, or the user |
| KotlinLanguage.LanguagePrecedence | src/main/kotlin/org/fuchss/deltabot/utils/extensions/LanguageExtensions.kt:23-39 | a user's language in a guild wins there; then the guild's language; then the user's global language; then the default |
| KotlinLanguage.RemovedClears | src/main/kotlin/org/fuchss/deltabot/db/settings/LanguageSettings.kt:60-71 | a removal keeps the settings valid and leaves its key without a language |
| KotlinLanguage.RemovedLookups | src/main/kotlin/org/fuchss/deltabot/db/settings/LanguageSettings.kt:87-91 | a removal changes no other key's lookup |
| KotlinLanguage.AssignedReads | src/main/kotlin/org/fuchss/deltabot/db/settings/LanguageSettings.kt:52-58 | setting keeps the settings valid, at most one entry per key, and the key reads the new language |
| KotlinLanguage.AssignedLookups | src/main/kotlin/org/fuchss/deltabot/db/settings/LanguageSettings.kt:73-80 | setting changes no other key's lookup, though it may create user and guild rows |
| KotlinLanguage.LanguageSettings.constructor | src/main/kotlin/org/fuchss/deltabot/utils/extensions/LanguageExtensions.kt:15-17 | the default settings: English and no entries |
| KotlinLanguage.LanguageSettings.RemoveKey | src/main/kotlin/org/fuchss/deltabot/db/settings/LanguageSettings.kt:60-71 | the settings become Removed of the old ones, staying valid |
| KotlinLanguage.LanguageSettings.SetKey | src/main/kotlin/org/fuchss/deltabot/db/settings/LanguageSettings.kt:52-58 | the settings become Assigned of the old ones, staying valid |
| KotlinLanguage.SetUserLanguage | src/main/kotlin/org/fuchss/deltabot/utils/extensions/LanguageExtensions.kt:54-59 | null removes the user's global language, a language sets it |
| KotlinLanguage.SetUserGuildLanguage | src/main/kotlin/org/fuchss/deltabot/utils/extensions/LanguageExtensions.kt:64-69 | null removes the user's language in the guild, a language sets it |
| KotlinLanguage.SetGuildLanguage | src/main/kotlin/org/fuchss/deltabot/utils/extensions/LanguageExtensions.kt:79-84 | null removes the guild's language, a language sets it |
| KotlinLanguage.SetLanguageIsRead | src/main/kotlin/org/fuchss/deltabot/utils/extensions/LanguageExtensions.kt:23-84 | a user's global language is then read outside guilds, or the default after removal; a user's guild language is read there; a guild's language is read by every user with no override there |
| KotlinTranslate.Resolved | src/main/kotlin/org/fuchss/deltabot/utils/extensions/Translate.kt:42-58 | English is its own translation; any other language gives the table's entry, or the marker when the entry is missing or blank |
| KotlinTranslate.WovenPast | src/main/kotlin/org/fuchss/deltabot/utils/extensions/Translate.kt:62-69 | rounds after both lists ran out add nothing |
| KotlinTranslate.WovenCons | src/main/kotlin/org/fuchss/deltabot/utils/extensions/Translate.kt:62-69 | each round adds the next piece, then the next attribute |
| KotlinTranslate.Translations.Table | src/main/kotlin/org/fuchss/deltabot/utils/extensions/Translate.kt:45-52 | a language's table is loaded on first use and kept from then on |
| KotlinTranslate.Translations.Translate | src/main/kotlin/org/fuchss/deltabot/utils/extensions/Translate.kt:38-72 | the resolved text is split at every '#' and the pieces are interleaved with the attributes |
| KotlinTranslate.Translations.TranslateByReplace | src/main/kotlin/org/fuchss/deltabot/utils/extensions/TranslationExtensions.kt:22-46 | the same lookup; then each attribute in turn replaces the first '#' left |
| KotlinTranslate.VersionsAgree | src/main/kotlin/org/fuchss/deltabot/utils/extensions/Translate.kt:60-69 | when the attributes match the placeholders in number and hold no '#', the two versions give the same text |
| KotlinTranslate.FirstPlaceholder | src/main/kotlin/org/fuchss/deltabot/utils/extensions/Translate.kt:60-69 | the first attribute goes right after the text before the first '#' |
| KotlinTranslate.SplitFacts | src/main/kotlin/org/fuchss/deltabot/utils/extensions/Translate.kt:60 | a text splits into one piece exactly when it has no '#' |
| KotlinTranslate.WeaveAlone | src/main/kotlin/org/fuchss/deltabot/utils/extensions/Translate.kt:62-69 | without attributes the pieces are joined up again |
| KotlinTranslate.UnmatchedPlaceholdersVanish | src/main/kotlin/org/fuchss/deltabot/utils/extensions/Translate.kt:60-69 | without attributes every '#' is dropped |
| KotlinTranslate.EnglishPlainUnchanged | src/main/kotlin/org/fuchss/deltabot/utils/extensions/Translate.kt:44-69 | an English text without placeholders and without attributes comes back unchanged, in both versions |
| KotlinTranslate.ExtraAttributesAppended | src/main/kotlin/org/fuchss/deltabot/utils/extensions/Translate.kt:62-69 | attributes beyond the placeholders are appended at the end, in order |
| KotlinTranslate.MissingTranslationMarked | src/main/kotlin/org/fuchss/deltabot/utils/extensions/Translate.kt:53-57 | a missing or blank translation shows the marker naming the language and the text |
| KotlinTranslate.VersionsDiffer | src/main/kotlin/org/fuchss/deltabot/utils/extensions/Translate.kt:60-69 | with an attribute that holds a '#', the splitting version leaves it alone and the replacing version fills it |
| KotlinEmojify.Kept | src/main/kotlin/org/fuchss/deltabot/command/user/Emojify.kt:26 | the filtered text is no longer than the input, holds only letters, digits and ' ', '!', '?', and keeps every such character |
| KotlinEmojify.KeptConcat | src/main/kotlin/org/fuchss/deltabot/command/user/Emojify.kt:26 | filtering two halves of a text and joining them is filtering the text |
| KotlinEmojify.KeptAllowed | src/main/kotlin/org/fuchss/deltabot/command/user/Emojify.kt:26 | a text of allowed characters passes the filter unchanged |
| KotlinEmojify.KeptFrom | src/main/kotlin/org/fuchss/deltabot/command/user/Emojify.kt:26 | every character of the filtered text comes from the input |
| KotlinEmojify.UpperKept | src/main/kotlin/org/fuchss/deltabot/command/user/Emojify.kt:25-26 | an upper-case letter is kept as its lower-case letter |
| KotlinEmojify.EmojiShape | src/main/kotlin/org/fuchss/deltabot/command/user/Emojify.kt:37-52 | only the space maps to a blank code; every other code is a ":name:" code without spaces, and a letter's names the letter |
| KotlinEmojify.LetterCodesAreTheirOwn | src/main/kotlin/org/fuchss/deltabot/command/user/Emojify.kt:37-52 | no digit, space, '!' or '?' has a letter's code |
| KotlinEmojify.LetterCodesDiffer | src/main/kotlin/org/fuchss/deltabot/command/user/Emojify.kt:51 | two different letters have different codes |
| KotlinEmojify.EmojisConcat | src/main/kotlin/org/fuchss/deltabot/command/user/Emojify.kt:33 | the codes of two joined texts are the codes of each, joined |
| KotlinEmojify.EmojisBlank | src/main/kotlin/org/fuchss/deltabot/command/user/Emojify.kt:28-33 | the codes are blank exactly when the filtered text is |
| KotlinEmojify.Handle | src/main/kotlin/org/fuchss/deltabot/command/user/Emojify.kt:24-35 | a missing option counts as the empty text; the reply is the refusal exactly when the filtered text is blank, otherwise "> " and the codes of the filtered text, which are not blank |
| KotlinEmojify.BlankMeansNoLetter | src/main/kotlin/org/fuchss/deltabot/command/user/Emojify.kt:25-28 | the filtered text is blank exactly when the input holds no letter, digit, '!' or '?' once lower-cased |
| KotlinTeams.LongToInt | src/main/kotlin/org/fuchss/deltabot/command/user/Teams.kt:41 | Long.toInt() keeps the value when it fits in 32 bits and otherwise wraps it into the signed 32-bit range |
| KotlinTeams.RemoveAt | src/main/kotlin/org/fuchss/deltabot/command/user/Teams.kt:50 | removing one position leaves the other members, one fewer |
| KotlinTeams.Drawn | src/main/kotlin/org/fuchss/deltabot/command/user/Teams.kt:49-50 | the draws take every member out exactly once |
| KotlinTeams.TeamsAsWritten | src/main/kotlin/org/fuchss/deltabot/command/user/Teams.kt:47-53 | as written, the loop puts every drawn member into the first team |
| KotlinTeams.Deal | src/main/kotlin/org/fuchss/deltabot/command/user/Teams.kt:47-53 | with the index advanced, the loop deals the drawn members round-robin |
| KotlinTeams.SecondTeamEmptyAsWritten | src/main/kotlin/org/fuchss/deltabot/command/user/Teams.kt:47-53 | with two members and two teams, the second team stays empty as written, while the intended deal fills it |
| KotlinTeams.DealProperties | src/main/kotlin/org/fuchss/deltabot/command/user/Teams.kt:47-53 | the intended teams hold every member once, and their sizes differ by at most one |
| KotlinTeams.Handle | src/main/kotlin/org/fuchss/deltabot/command/user/Teams.kt:28-61 | no voice channel, fewer than two members and fewer than two teams are refused, each exactly in its case and in that order; otherwise the reply lists the teams dealt from the drawn members |
| Buttons.LargestDivisor | utils.py:183-186 | the largest width in 3..hi dividing n, and None exactly when no width in that range divides n |
| Buttons.LargestRowWidth | src/main/kotlin/org/fuchss/deltabot/utils/extensions/JDAExtensions.kt:126-131 | the count-down loop takes the largest width in 3..hi dividing n, and keeps hi when none does |
| Buttons.RowsOf | src/main/kotlin/org/fuchss/deltabot/utils/extensions/JDAExtensions.kt:134-147 | for a width w >= 1 the rows concatenate to the items, each holds 1 to w items and all but the last are full; a width below 1 gives an empty first row and then one row per item; no items give no rows |
| Buttons.Clamp | src/main/kotlin/org/fuchss/deltabot/utils/extensions/JDAExtensions.kt:124 | maxInRow brought into 1..5 |
| Buttons.ActionRowWidth | src/main/kotlin/org/fuchss/deltabot/utils/extensions/JDAExtensions.kt:124-132 | the width is in 1..the clamped maximum; with tryModZero and a maximum above 3 it divides the item count whenever a width from 3 up does, and is the largest such; otherwise it is the clamped maximum |
| Buttons.ToActionRows | src/main/kotlin/org/fuchss/deltabot/utils/extensions/JDAExtensions.kt:123-148 | the rows are the items, in order, in rows of ActionRowWidth, all but the last full |
| Buttons.DefaultWidths | src/main/kotlin/org/fuchss/deltabot/utils/extensions/JDAExtensions.kt:123-132 | with the defaults five items make width 5, six make width 3 and seven keep width 5 |
| Buttons.GridWidth | utils.py:181-186 | max_in_row is not bounded; with try_mod_zero the width is the largest from 3 to max_in_row dividing the count, if any; a width below 1 is kept |
| Buttons.CreateButtonGrid | utils.py:172-197 | the rows are the buttons, in order, in rows of GridWidth with all but the last full; a width below 1 gives an empty first row and then one row per button |
| Buttons.GetButtonsAppend | utils.py:154-169 | the walk is left to right: the buttons of two component lists are those of the first followed by those of the second |
| Buttons.ButtonsOfGrid | utils.py:154-197 | reading the buttons back from a grid of rows gives the rows' buttons one after another |
| Collections.RemoveFirst | src/main/kotlin/org/fuchss/deltabot/utils/extensions/CommonExtensions.kt:139-143 | without the element the list is unchanged; with it the list loses exactly one element and gains none |
| Collections.RemoveFirstMultiset | src/main/kotlin/org/fuchss/deltabot/utils/extensions/CommonExtensions.kt:139-143 | exactly one copy of the element leaves the multiset of elements |
| Collections.RemoveFirstAt | src/main/kotlin/org/fuchss/deltabot/utils/extensions/CommonExtensions.kt:139-143 | removal cuts the list at the element's first occurrence |
| Collections.RemoveFirstDistinct | src/main/kotlin/org/fuchss/deltabot/utils/extensions/CommonExtensions.kt:139-143 | in a list without duplicates, removal drops every occurrence and keeps the list duplicate-free |
| Collections.RemoveAppended | src/main/kotlin/org/fuchss/deltabot/utils/extensions/CommonExtensions.kt:139-143 | removing an element just appended, that was not there before, gives the list back |
| Collections.WithFirst | src/main/kotlin/org/fuchss/deltabot/utils/extensions/CommonExtensions.kt:128-132 | the element, then the whole list |
| Collections.WithFirstThenWithout | src/main/kotlin/org/fuchss/deltabot/utils/extensions/CommonExtensions.kt:128-143 | `without` undoes `withFirst` |
| Collections.Values | src/main/kotlin/org/fuchss/deltabot/utils/extensions/CommonExtensions.kt:121 | every value of the map once, and nothing else |
| Collections.ReverseMap | src/main/kotlin/org/fuchss/deltabot/utils/extensions/CommonExtensions.kt:121 | one group per value, in first-appearance order, holding the keys with that value in entry order |
| Collections.KeysWithValueExactly | src/main/kotlin/org/fuchss/deltabot/utils/extensions/CommonExtensions.kt:121 | a key is in the group of v iff its entry maps it to v |
| Collections.ReverseMapValues | src/main/kotlin/org/fuchss/deltabot/utils/extensions/CommonExtensions.kt:121 | the reversed map's keys are distinct and are exactly the original values |
| Collections.ReverseMapKeys | src/main/kotlin/org/fuchss/deltabot/utils/extensions/CommonExtensions.kt:121 | a key is listed under v iff it maps to v, and no group is empty |
| Sorting.SortDescProps | src/main/kotlin/org/fuchss/deltabot/cognitive/dialogmanagement/dialog/News.kt:58 | the newest first, every entry kept exactly once |
| Sorting.TakeKeepsLargest | src/main/kotlin/org/fuchss/deltabot/cognitive/dialogmanagement/dialog/News.kt:59 | the first n of a descending list are the n largest |
| Sorting.TopByKey | src/main/kotlin/org/fuchss/deltabot/cognitive/dialogmanagement/dialog/News.kt:58-59 | at most n entries, each one of the input, newest first, none left out newer than one kept |
| Sorting.SortAscProps | bot_base.py:263 | the names in ascending order, each kept exactly once |
| Sorting.StrLeTotal | bot_base.py:263 | any two names compare one way or the other |
| Sorting.StrLeTrans | bot_base.py:263 | the name order is transitive |

## Left out

- Discord transport:
  - sending, editing, pinning, fetching and deleting messages;
  - the channel history, reactions and button components;
  - command upserts and `fixCommandPermissions`.

  Each of these is an input, or a recorded effect such as an edit log, a deletion log or a reply field.
- NLU, Duckling and the time-parsing clients (cognitive.py, RasaService.kt, datefinder). The model takes the intents, entities and parsed times as inputs.
- RSS fetching and feed parsing. The feeds are inputs of the news turn.
- JSON decoding and encoding, file I/O, SQLite and the database session. A store holds decoded values, and writing is recorded in a `saved` copy. Floats in JSON are not modelled.
- Threads, sleeping, locks and wall-clock reads of both schedulers, and `run_coroutine_threadsafe`. A tick is one sequential call with `now` as a parameter. `start`/`stop` only set the running flag.
- Text-to-speech, voice, and the third-party emoji libraries. A chosen emoji is an input.
- Unicode case mapping and whitespace beyond ASCII:
  - `lower()`/`lowercase()` are modelled on ASCII letters;
  - whitespace is the ASCII whitespace that Python's `isspace` and Kotlin's `isWhitespace` share;
  - `int()` accepts ASCII digits only, without underscores.
- Iteration order of hash-based Kotlin sets. A collection whose order is observable is an ordered association list.
- The configuration's NLU settings, paths and time-to-live, which no modelled operation reads.
- The guild owner caching of the Kotlin permission checks, `fetch_user` and `get_date_representation`. The users that can be fetched and the date texts are inputs.
- `unhideAll` in HiddenMessagesExtensions.kt: it runs on its own thread over all records, and the model has the per-record Unhide it repeats.
- src/main/kotlin/org/fuchss/deltabot/command/user/polls/Summon.kt and the single-step reply dialogs (Clock, NotUnderstanding, QnA.kt, InternalErrorDialog, generic and misc dialogs). Their only logic is to reply and return NEXT.
- Earlier copies of modelled files (loadable.py, user_command_summon.py, handler.py, dialogs.py, utils/Extensions.kt and the like). They are not part of this model.
- The state constructors write nothing back:
  - `Roles.RolesState.constructor`, `SummonCommands.UpdateState.constructor`, `BotBases.DeletionState.constructor`, `Summons.SummonState.constructor` and the other state classes start from the records their file held, with nothing written;
  - `_load` writes the file back after a missing file, an unreadable one or a matching version, but not after a version mismatch. That write-back is modelled only in `Stores.Loadable.Load`, `Stores.DictStore.constructor` and `LegacySummon.LegacySummoner.constructor`.
- Schedulers.BotScheduler.RunTasks and Schedulers.BotScheduler.SchedulerTurn: they use the corrected per-task `try` (see Findings); SchedulerTurn runs the tasks through RunTasks. The as-written sweep is kept as `Schedulers.SweepTasks`/`Schedulers.Tick`.
- KotlinTeams.Handle: it deals the drawn members round-robin, as evidently intended, rather than as written (see Findings).
- Routing.PyRoute: it looks the intent name up in lower case, as evidently intended, rather than case-sensitively as deltabot.py:67 does (see Findings; the as-written choice is `Routing.PyChooseAsWritten`).
- Routing.BotInstance.Handle: it chooses through the same lower-cased lookup as `Routing.PyRoute`, not the case-sensitive one of deltabot.py:67.
- Routing.KtChoose: it looks the intent name up in lower case, rather than case-sensitively as UserBotInstance.kt:48 does (see Findings; the as-written consequence is `Routing.KtCapitalisedIntentIsNotUnderstood`).
- Routing.UserBotInstance.Handle: it chooses through the same lower-cased lookup as `Routing.KtChoose`.
- Routing.DeltaBot.OnMessage: it does not model `delete(message)` or `self.log(message)` (deltabot.py:128-129) before the message is handed to the instance. The deletion is modelled on its own as `BotBases.BotBase.Delete`, and logging only prints.
- News.ProvidersLoop: it lists each feed newest first by the full publication time, as evidently intended, rather than by the time of day as news_dialog.py:82 sorts (see Findings; the as-written order is `News.HeadlinesAsWritten`).
- News.NewsLoop: it lists through `News.ProvidersLoop`, so it uses the same corrected order.
- News.PyNewsAtOnce: the listings it states are those of the corrected order, through `News.CategoriesRun`.
- LegacyGuild.GuildState.AddGuildManager: it looks the guild up by its string key, as evidently intended, rather than by the int id that legacy/user_commands/guild.py:20-24 uses (see Findings; the as-written behaviour is `LegacyGuild.AsWrittenLosesManagers`).
- LegacyGuild.GuildState.RemoveGuildManager: it uses the same corrected string-key lookup.
- LegacyGuild.GuildState.ManagerCommand: it toggles managers through the corrected add and remove.
- KotlinHiddenMessages.Preview: it counts Unicode scalar values. Kotlin's `length` and `substring` count UTF-16 units, so a first line with characters outside the Basic Multilingual Plane would be cut at a different place.
- KotlinRoles.HandleInit, KotlinRoles.HandlePurge, KotlinRoles.HandleAdd and KotlinRoles.HandleDel: their replies are kinds of the `Reply` datatype, not texts. The English texts and their `.translate(event)` are not part of the model; translation is modelled on its own as `KotlinTranslate.Translations.Translate`.
- KotlinRoles.GuildText: the header, the "no roles" line and the hint of the role message are the English texts. `.translate(guild.internalLanguage())` (Roles.kt:204-213) is not applied; translation is modelled on its own as `KotlinTranslate.Translations.Translate`.
- KotlinRoles.EmptyGuildLines: the two lines it states are the untranslated English header and "no roles" line.
- KotlinRoles.GuildTextLines: the header and the hint it states are the untranslated English texts.
- KotlinRoles.HandleRolesClick: its replies are kinds of the `ClickReply` datatype, not texts, and their `.translate(event)` (Roles.kt:192-199) is not applied.
- News.KtNewsAsks: the question is the English text with the untranslated category names. `.translate(context.language)` (News.kt:80-81) is not applied.
- News.KtNewsFollowUpWithoutCategory: the apology is the English text, without `.translate(context.language)`.
- News.KtNewsAtOnce: the "No new news" reply is the English text, without `.translate(context.language)`.
- Sorting.SortDescProps and Sorting.SortAscProps: they state sortedness and permutation, but not stability. Python's `sorted` and Kotlin's `sortedByDescending` keep entries with equal keys in input order; the model does not promise how ties are ordered.
- Configs.Decode: a key whose JSON value has another type than expected keeps the old value (`Configs.ListOr`, `Configs.BoolOr`). configuration.py:103-104 `setattr`s whatever the file holds, and the typed state cannot hold a value of another type.

## Findings

| source | as written | input that shows it | evidently intended | confidence | as-written member | corrected member |
|---|---|---|---|---|---|---|
| scheduler.py:48-58 | one `try` wraps the whole sweep over the tasks, so the first task that raises ends the tick; it and every later task stay queued and run again on the next tick | tasks [a, b], both due, where a always raises: b is never called | each task's call guarded on its own, so a raising task is kept and the others still run and are removed | not executed | Schedulers.RaisingTaskBlocksLaterOnes | Schedulers.RaisingTaskNoLongerBlocks |
| src/main/kotlin/org/fuchss/deltabot/command/user/Teams.kt:52 | `idx %= teams.size` never advances the index, so every member goes into team 1 | two members and two teams: team 2 stays empty | `idx = (idx + 1) % teams.size`, dealing the members round-robin | not executed | KotlinTeams.SecondTeamEmptyAsWritten | KotlinTeams.Deal |
| legacy/user_commands/guild.py:20-31 | the guild id (an int) is looked up among the dictionary's string keys and is never found | manager 1 in guild 5, then adding manager 2: only 2 is left; removing 1 keeps 1 | keys compared as the strings they are stored as | not executed | LegacyGuild.AsWrittenExample | LegacyGuild.ToggledAllFlips |
| deltabot.py:67 | the intent name is looked up with its own case in a table whose keys are lower case | intent "Clock" with a high score: "Dialog nicht gefunden" | the lower-cased name looked up | not executed | Routing.PyCapitalisedIntentIsNotFound | Routing.PyChoiceAgreesOnLowerCase |
| src/main/kotlin/org/fuchss/deltabot/cognitive/dialogmanagement/UserBotInstance.kt:48 | the intent name is looked up with its own case in `Intent2Dialog`, whose keys are lower case, and a miss falls back to NotUnderstanding | intent "Clock" with a high score: NotUnderstanding runs | the lower-cased name looked up | not executed | Routing.KtCapitalisedIntentIsNotUnderstood | Routing.KtRoutingPrecedence |
| dialogs/news_dialog.py:82 | the entries of the last day are sorted by their time of day only | an entry from 23:00 yesterday is listed before one from 09:00 today | newest first, by the full timestamp | not executed | News.PyNewsSortsByTimeOfDay | News.HeadlinesAreNewestOfTheDay |
