# FamilyQuest: a verified model

This project models the stateful core of FamilyQuest, a family application with arithmetic training, a
reward ledger, shared plans, Telegram notifications, manual payments and single sign-on, and proves what the
parts promise together. Everything is stated for all inputs and all runs. `dafny verify dfyconfig.toml`
checks the project.

The model follows six groups of code.

1. **Column arithmetic.** `MathWork` computes the carries, borrows, partial products and long-division steps
   that the server expects, with the server's own loops, for operands of any size. `ColumnLayout` draws the
   same work as digit cells, `ColumnWork` reads the cells back and rebuilds the payload. `WorkTheorems`,
   `PageTheorems` and `ColumnWork` prove that the written work is correct, that the page is well drawn, and that
   page and server agree. `WorkLaws` and `PageLaws` say what that comes to for a reader of the numbers and of the
   page. `Decimal` holds the digit arithmetic: `High` and `Low` split a number at a digit.
2. **Training sessions, ledger and backups.** `MathSession` and `SessionTheorems` model one session, `Store` the
   family's tables and the transactions on them, `Backup` and `BackupCheck` what an import accepts.
   `LedgerTheorems`, `BackupTheorems`, `BackupRuns` and `BudgetTheorems` prove that every run of requests leads
   to tables whose export is accepted again, and what a day can pay. `SessionLaws`, `BackupLaws` and `StoreLaws`
   state the rules of the family in terms of the rows alone.
3. **Family entries.** `Family` and `FamilyRewards` model commands, edits and rewards, `FamilyTheorems` the whole
   history of an entry, `FamilyProtocol` any number of devices that read, work and save interleaved. `FamilyRuns`
   joins the two groups: backups stay acceptable while such requests are in flight among all others. `FamilyLaws`
   says who may do what, when it takes effect and what it pays.
4. **Notifications.** `Outbox` and `OutboxTheorems` model consent, leases, settlement and restore, `Dispatch` the
   workers and consent requests that share one mutex, `OutboxCycle` the loop over all families. `OutboxLaws` says
   when a row may be taken and what each transaction does to every row and recipient.
5. **Payments.** `Payments` and `AccessTheorems` relate the payments table to the access projection; `PaymentLaws`
   says which entries are taken and what a refund leaves.
6. **Single sign-on.** `SsoSessions` and `SsoTheorems` model the session registry with its file; `SsoLaws` says who
   gets a session, for how long, and who loses it.

The modules named after laws restate what matters in digits, columns, rows, names and times, apart from the
functions that the methods are proved against.

Days are numbers in order, day 0 being 1 January 2000; other times are integers. Clocks, random draws,
generated ids, lost replies and failing saves are parameters or choices of the environment.

## Where the code does less than it promises

Each case has a concrete input that shows it and the exact condition under which the promise holds.

- A columnar product with a zero multiplier cannot be answered on the page (`SessionTheorems.ZeroMultiplierRefused`,
  exact in `ColumnWork.PageRefinesServer`), and a product above 1 000 000 is refused by the server
  (`SessionTheorems.LargeProductRefused`, exact in `SessionTheorems.Answerable`). Only imported sessions can hold such
  questions: `SessionTheorems.NewMathSession` ensures that every drawn question can be answered.
- A ledger row names its answer by a text, and the backup check reads `1` and `01` as the same index but as different
  keys. An accepted backup can therefore pay one answer twice (`BackupLaws.PaidTwice`); by `BackupLaws.LedgerExactIff` the
  ledger of a day equals its answers if and only if no answer with stars is named by two rows.
- `now()` is fixed when a transaction starts, but the family's lock comes later. A refund that started before a new
  payment and waited for it does not see that payment. It can close the access just bought
  (`AccessTheorems.OverlapClosesPaidAccess`, exact in `AccessTheorems.RefundAgreesIff`) or leave an earlier child limit
  (`AccessTheorems.OverlapShrinksLimit`, exact in `AccessTheorems.RefundLimitIff`). A payment that waited for a later
  one of the same end overwrites its limit (`AccessTheorems.OverlapRecordsOlderLimit`), and one recorded after such a
  refund, even in turn, can open access for less than is paid (`AccessTheorems.ClosedAccessRecorded`);
  `AccessTheorems.RecordAgreesIff` and `AccessTheorems.RecordLimitIff` are exact for a payment in any state.
  `AccessTheorems.PromisedIff` composes them: over any run the promise holds in a state if and only if the family's last
  change before it saw what it had to see.
- A consent request whose reply is lost releases the mutex while Core or the Portal may still carry it out. A
  revocation carried out between a delivery's last check and its send comes too late for that send
  (`Dispatch.LateRevocationMissed`); `Dispatch.SendsOnlyWithConsent` is exact, and by
  `Dispatch.AnsweredOptOutHolds` an opt-out answered with success always holds.
- A revocation whose file cannot be written panics after memory has changed. Until the next restart it holds
  (`SsoTheorems.HoldsUntilRestart`). After it the revoked session can be back (`SsoTheorems.FailedSaveResurrects`), or,
  the record being lost, the revoked subject can be let in anew (`SsoTheorems.FailedSaveLosesRecord`);
  `SsoTheorems.FailedSaveIff` says exactly when neither can happen.
- At capacity a revocation ends all sessions and records nothing, so that the subject can be let in again once other
  records have run out (`SsoTheorems.CapacityLosesRecord`). `SsoTheorems.RevocationKeepsIff` states, for capacity and
  failed saves together, exactly when a revocation keeps its promise for sixty days over every later run.
- A deletion whose file cannot be written is undone by a restart (`SsoTheorems.FailedDeleteResurrects`, exact in
  `SsoTheorems.DeletionKeepsIff`).

## Model

| member | source | states |
|---|---|---|
| MathWork.Work | backend/internal/domain/math.go:208-274 | the loops produce exactly the fields of the method of work, in order, and for each the true carry, borrow, partial product, brought digit, product, remainder or answer |
| MathWork.ColumnLoop | backend/internal/domain/math.go:218-235 | the carry of column i is the carry or borrow out of the low i+1 digits of the whole operands |
| MathWork.RowLoop | backend/internal/domain/math.go:236-248 | one row per multiplier digit, none for zero; mulcarry i j is the low j+1 digits of the operand times digit i, divided by 10^(j+1) |
| MathWork.DivisionLoop | backend/internal/domain/math.go:249-269 | one step per quotient digit, none when the quotient is zero, with digit, product and remainder of each |
| MathWork.CarryColumn | backend/internal/domain/math.go:221-224 | every sum column: its carry is 0 or 1, the next carry and the digit left behind follow from the two digits and the carry in, and that digit is the sum's |
| MathWork.BorrowColumn | backend/internal/domain/math.go:224-226 | every difference column: the loop's test gives the borrow out, and for a difference that is not negative the digit left is the difference's |
| MathWork.MulCarryColumn | backend/internal/domain/math.go:241-243 | every column of a digit product: the carry is one digit, the next one follows, and the digit left is the product's |
| MathWork.BringDown | backend/internal/domain/math.go:252-264 | bringing one digit down adds exactly one quotient digit below ten and gives the remainder of the longer prefix |
| MathWork.StepIndex | backend/internal/domain/math.go:252-267 | steps done so far are counted by the digits of the quotient so far |
| WorkTheorems.LastCarry | backend/internal/domain/math.go:217-235 | the last carry of a sum is 1 exactly when the sum is one digit longer than its operands |
| WorkTheorems.LastBorrow | backend/internal/domain/math.go:217-235 | the last borrow is 0 exactly when the difference is not negative |
| WorkTheorems.LastMulCarry | backend/internal/domain/math.go:241-246 | the last carry of a row is the leading digit of its partial product, and a partial product has at most one digit more than the operand |
| WorkTheorems.PartialsAddUp | backend/internal/domain/math.go:236-248 | the partial products, each shifted to its row, add up to the product |
| WorkTheorems.LongDivision | backend/internal/domain/math.go:249-272 | for dividends of any size not below the divisor: as many steps as the quotient has digits, those digits in order, remainders below the divisor, the last one being the remainder of the division |
| WorkTheorems.DivisionChain | backend/internal/domain/math.go:252-266 | each step: ten times the remainder above plus the brought digit, less the product, is the remainder below |
| WorkTheorems.DivisionValuesFit | backend/internal/domain/math.go:258-265 | every division value is natural and fits the width of its field |
| WorkTheorems.FieldKeys | backend/internal/domain/math.go:211-274 | no field is asked for twice and the keys are exactly those of the method of work |
| WorkLaws.SumColumns | backend/internal/domain/math.go:217-235 | every column of a sum: the two digits and the carry expected of the column before make the digit of the sum and ten times the carry expected here, every carry 0 or 1 |
| WorkLaws.DifferenceColumns | backend/internal/domain/math.go:217-235 | every column of a difference: upper digit less the borrow coming in, plus ten if it borrows, is the lower digit and the digit of the difference; nothing is borrowed beyond the last column |
| WorkLaws.ProductColumns | backend/internal/domain/math.go:236-248 | every column of every row: digit times digit and the carry coming in make a digit of the partial product and ten times the carry expected, a single digit |
| WorkLaws.ProductRows | backend/internal/domain/math.go:244-248 | the partial products expected, each shifted to its row, add up to the answer expected |
| WorkLaws.DivisionSteps | backend/internal/domain/math.go:249-272 | the steps expected: leading part, then ten times the remainder above and the digit brought; each product is a digit times the divisor, each remainder below the divisor, the last that of the division, and the digits spell the answer |
| WorkLaws.ValuesFit | backend/internal/domain/math.go:208-274 | every expected value fits the width asked for, and only partial products are shifted, each to its row |
| Decimal.SplitUnique | backend/internal/domain/math.go:229-234 | cutting a number at a digit is the only way to write it with a low part below that power of ten |
| Decimal.NumDigitsBound | backend/internal/domain/math.go:207 | a number has at most k digits exactly when it is below 10^k |
| Decimal.NumDigitsProduct | frontend/src/features/learning/columnLayout.ts:18 | a product has at most as many digits as its factors together |
| ColumnLayout.Page.Build | frontend/src/features/learning/columnLayout.ts:8-102 | the drawing loops leave exactly the cells, widths, visiting order and row count of the notebook page |
| ColumnLayout.Page.AddField | frontend/src/features/learning/columnLayout.ts:20-29 | a field that is asked for gets its cells, width and visits; one that is not asked for changes nothing |
| ColumnLayout.Page.BuildArithmetic | frontend/src/features/learning/columnLayout.ts:31-40 | sums and differences: carries above, answer below, the answer visited right to left |
| ColumnLayout.Page.BuildProduct | frontend/src/features/learning/columnLayout.ts:41-70 | products: each row's digits and carries interleaved in the order, then the sum with its memo dots |
| ColumnLayout.Page.BuildDivision | frontend/src/features/learning/columnLayout.ts:71-99 | divisions: quotient digit, product and remainder of every step under its dividend digit |
| PageTheorems.Drawn | frontend/src/features/learning/columnLayout.ts:31-99 | every field is drawn at most once, and exactly which fields are drawn |
| PageTheorems.InsideGrid | frontend/src/features/learning/columnLayout.ts:18-100 | every cell of every page lies inside the computed grid |
| PageTheorems.NoTwoCellsMeet | frontend/src/features/learning/columnLayout.ts:18-100 | no two cells share a row and a column |
| PageTheorems.VisitedExactlyOnce | frontend/src/features/learning/columnLayout.ts:27-98 | the visiting order passes every cell to be typed into exactly once and stops nowhere else |
| PageLaws.SumAligned | frontend/src/features/learning/columnLayout.ts:31-40 | on the page of a sum or difference every digit and every carry stands in the column of its decimal place, a carry above the place it is carried into |
| PageLaws.ProductAligned | frontend/src/features/learning/columnLayout.ts:41-70 | on the page of a product the digit of weight k of row i stands in the column of weight i + k, and each carry in the column it is carried into |
| PageLaws.DivisionAligned | frontend/src/features/learning/columnLayout.ts:71-99 | on the page of a division the digit brought down and the last digits of product and remainder stand under the digit of the dividend that the step brings down, the quotient left to right beside the dividend |
| PageLaws.CellKinds | frontend/src/features/learning/columnLayout.ts:20-67 | exactly the carries may be left blank, and exactly those of sums and the memo marks are dots |
| PageLaws.VisitedInTurn | frontend/src/features/learning/columnLayout.ts:27-98 | answers of sums, differences and products, partial products, products and remainders are typed from right to left, carries of a row between its digits, the steps of a division in turn |
| ColumnWork.Submit | frontend/src/features/learning/ColumnWork.tsx:33-49 | a page with an empty cell is sent back to the first such cell in visiting order, blank carries aside; a filled one sends the read numbers with the last row carries and the one-row answer rebuilt |
| ColumnWork.LastCarryDrawn | frontend/src/features/learning/columnLayout.ts:34-37 | the carry left undrawn, if any, is zero |
| ColumnWork.UndrawnIsSent | frontend/src/features/learning/ColumnWork.tsx:37-47 | a field that is asked for but not drawn is rebuilt right once the drawn ones are |
| ColumnWork.PageRefinesServer | frontend/src/features/learning/ColumnWork.tsx:32-49 | a filled page sends exactly what the server expects if and only if the question is solvable on the page and every drawn digit is the true one, blank carries counting as zero |
| ColumnWork.TrueEntriesAccepted | frontend/src/features/learning/ColumnWork.tsx:32-49 | for every solvable question the true digits, with zero carries left blank, are sent as the server expects |
| ColumnWork.ZeroMultiplierUnanswerable | frontend/src/features/learning/ColumnWork.tsx:40-47 | with a zero multiplier the answer the server expects is never sent |
| SessionTheorems.NewMathSession | backend/internal/domain/math.go:131-185 | whatever is drawn, a new session passes validation, is open and has no answers, and every question in it can be answered: within the accepted numbers, solvable on the page when columnar, wrong options near the right one |
| SessionTheorems.DrawOptions | backend/internal/domain/math.go:168-181 | four different options, the right one among them, all within eight of it and none negative unless allowed |
| SessionTheorems.FreshCandidate | backend/internal/domain/math.go:171-179 | as long as options are missing there is a candidate not yet taken |
| MathSession.Session.Submit | backend/internal/domain/math.go:275-314 | the whole new session and error of a submission: repeats change nothing, order and closing are enforced, work is judged against the expected values |
| MathSession.Session.AwardAnswer | backend/internal/domain/math.go:389-403 | a new answer's stars are cut to what is left of the day's budget under its reward version |
| MathSession.Validate | backend/internal/domain/math.go:342-385 | the replay accepts a stored session if and only if header, questions and every answer are what a replay could have produced |
| SessionTheorems.SessionLife | backend/internal/domain/math.go:275-314 | whatever is submitted, in any order, the session stays valid, its answers only grow, and an answered index is answered for good |
| SessionTheorems.Answerable | backend/internal/domain/math.go:288-300 | a valid question can be answered correctly if and only if it is not a product above one million |
| SessionTheorems.LargeProductRefused | backend/internal/domain/math.go:293-300 | a valid session with a product above one million, whose right answer is refused as invalid |
| SessionTheorems.ZeroMultiplierRefused | backend/internal/domain/math.go:275-300 | a valid session with a zero multiplier: whatever is filled in on its page, the server refuses it as invalid |
| SessionTheorems.PageJudged | backend/internal/domain/math.go:275-314 | page and judge together: a filled page is accepted as correct if and only if the question is solvable, every digit right and every number within the limits |
| SessionLaws.PaysAsPublished | backend/internal/domain/math.go:80-129 | new trainings pay the table that FamilyQuest publishes, the previous scale one star less, the first one by level alone |
| SessionLaws.ReplayedIff | backend/internal/domain/math.go:342-385 | the stored trainings a replay accepts, spelled out: scale, id, settings, number of questions, operand ranges, remainders, options, and each answer with its numbers, verdict, day and stars |
| SessionLaws.Submitted | backend/internal/domain/math.go:275-314 | what becomes of any submission: outside, repeated, closed or out of order, incomplete, or judged by the expected values and paid |
| Store.FindSession | backend/internal/store/learning.go:95 | finds a session of this id and owner whenever there is one |
| Store.FindActive | backend/internal/store/learning.go:31 | finds the newest session of the child with questions left, whenever there is one |
| Store.FindReward | backend/internal/store/reading.go:31-36 | finds the ledger row of a key exactly when the key is taken |
| Store.Tables.InsertActivityReward | backend/internal/store/learning.go:12-15 | a row is added exactly for an active parent or child and only if its key is free |
| Store.Tables.CreateMathSession | backend/internal/store/learning.go:16-59 | a child with an unfinished session gets that one back; otherwise the drawn one is stored if the policy allows it |
| Store.Tables.AnswerMath | backend/internal/store/learning.go:80-128 | submission, daily cut and ledger row in one transaction; errors and repeats leave the tables alone |
| Store.Tables.FinishMath | backend/internal/store/learning.go:146-158 | closes the child's session or reports that it is not there |
| Store.Tables.CompleteReading | backend/internal/store/reading.go:11-65 | a paid lesson returns its row or a conflict; a new one is paid what is left of 30 stars and its start is removed |
| Store.Tables.StartReading | backend/internal/store/reading.go:69-112 | repeated starts, conflicts, the policy, the limit of 20 starts in 24 hours, each with its error and state |
| Store.Tables.SaveLearningProfile | backend/internal/store/profile.go:19-31 | an acceptable profile is saved for an active child, anything else is refused and changes nothing |
| Store.Tables.SaveFamilyEntry | backend/internal/store/family.go:60-95 | a save applies to the version it was read from or reports a conflict, and pays exactly the new version's candidates |
| SessionLaws.AnswerPays | backend/internal/store/learning.go:80-128 | an answer is judged, paid what is left of 40 or 30 stars of the day, and gets one ledger row if and only if it is paid anything |
| SessionLaws.DayBudgets | backend/internal/store/learning.go:105-118 | over any run, in every state the same three bounds hold for the stored answers and ledger |
| SessionLaws.FinishedForGood | backend/internal/store/learning.go:146-158 | finishing closes that training and no other, and in every later state of any run it is as it was then |
| SessionLaws.ClosedForGood | backend/internal/domain/math.go:282-284 | a closed training never changes again, in any run |
| SessionLaws.StartsAfresh | backend/internal/store/learning.go:16-59 | a child with something unfinished gets that back; otherwise the drawn training is stored if and only if that is allowed and its id new |
| SessionLaws.LessonPays | backend/internal/domain/reading.go:23-42 | a lesson pays 6, 9 or 12 stars, cut to what is left of 30 that day, and its start is used up |
| SessionLaws.LessonBegun | backend/internal/store/reading.go:69-112 | a lesson is begun if and only if that is allowed and fewer than twenty were begun in the last 24 hours; older starts are forgotten, and a repeat changes nothing |
| StoreLaws.SavesIff | backend/internal/store/family.go:60-95 | a save takes effect if and only if the version read is the one stored; version counted up, author and creation kept, other rows as they were, and every new reward of an active member in the ledger once |
| StoreLaws.SaveFindsNothing | backend/internal/store/family.go:68-71 | a save under an id that no entry has finds nothing and changes nothing |
| StoreLaws.ProfileSavesIff | backend/internal/store/profile.go:19-28 | a profile is saved if and only if it is acceptable and the child active, and changes nobody else |
| BackupCheck.ValidateFamily | backend/internal/application/family_backup.go:5-36 | accepts if and only if every entry is valid, its id unique and everyone it names known |
| BackupCheck.ValidateSessions | backend/internal/application/learning_backup.go:14-37 | accepts if and only if sessions are valid, of children, of allowed reward versions, with distinct ids and one unfinished per child |
| BackupCheck.ValidateReward | backend/internal/application/learning_backup.go:49-96 | accepts a ledger row if and only if its source's rule holds |
| BackupCheck.ValidateLedger | backend/internal/application/learning_backup.go:38-97 | accepts if and only if every row is valid and no key occurs twice |
| BackupCheck.ValidatePaid | backend/internal/application/learning_backup.go:98-104 | accepts if and only if every answer with stars has its ledger row |
| BackupCheck.ValidateMathBudget | backend/internal/application/learning_backup.go:105-125 | stopping at the first broken running total accepts if and only if no child's day exceeds 40 stars, or 30 on the previous scale |
| BackupCheck.ValidateReadingBudget | backend/internal/application/learning_backup.go:126-136 | accepts if and only if no participant's day exceeds 30 reading stars |
| BackupCheck.ValidateLearning | backend/internal/application/learning_backup.go:10-138 | the whole check decides exactly the conjunction of its rules |
| BackupCheck.Validate | backend/internal/application/backup.go:102-131 | accepts if and only if version, names, roles, PINs, learning profiles, an active parent, family and learning rules are all in order |
| BackupCheck.ValidatePin | backend/internal/domain/domain.go:26-36 | accepts exactly six digits |
| LedgerTheorems.LedgerCovers | backend/internal/application/learning_backup.go:50-63 | in any accepted backup the ledger's math stars of a day are at least the stars of the day's answers, though rows may spell an index differently |
| LedgerTheorems.KeyedOne | backend/internal/application/learning_backup.go:44-48 | distinct keys make one key select one row's stars |
| BackupLaws.EveryRow | backend/internal/application/learning_backup.go:43-97 | every ledger row of an accepted backup: a parent or child, a day, and what its source pays: an answer its own stars and day, lessons at most 6, 9 or 12 stars of a child, sport 10 or 30 stars and 2 smiles, habits 5 and 1, plans 20 or 40 and 3 |
| BackupLaws.NothingTwice | backend/internal/application/learning_backup.go:43-48 | no two rows of an accepted backup stand for the same sport of a day, check-in of a day, lesson or share of a plan |
| BackupLaws.SmilesTotal | backend/internal/application/learning_backup.go:49-96 | in an accepted backup the smiles of everyone are two per sport, one per check-in and three per share of a plan |
| BackupLaws.Accepted | backend/internal/application/learning_backup.go:10-37 | people, versions and trainings of an accepted backup: what each version may hold, children only, and one unfinished training per child |
| BackupLaws.EveryoneKnown | backend/internal/application/family_backup.go:5-36 | everyone whom an entry of an accepted backup mentions is in the backup |
| BackupLaws.EarnedAnswers | backend/internal/domain/math.go:342-385 | an answer of an accepted backup has stars only if it holds the expected values, and at most those its training pays |
| BackupLaws.BudgetsKept | backend/internal/application/learning_backup.go:105-136 | in an accepted backup no day holds more than 40 stars of the answers of a participant, the first scale aside, nor more than 30 of the previous scale, nor more than 30 of reading |
| BackupLaws.LedgerExactIff | backend/internal/application/learning_backup.go:50-63 | the math stars of a day in an accepted ledger are at least those of its answers, and equal if and only if no answer with stars is named by two rows |
| BackupLaws.LedgerExact | backend/internal/application/learning_backup.go:50-63 | with keys as the server writes them the ledger of a day is exactly its answers |
| BackupLaws.PaidTwice | backend/internal/application/learning_backup.go:50-63 | an accepted backup whose ledger pays one answer twice, under two spellings of its index |
| BackupTheorems.OlderAccepted | backend/internal/application/backup.go:102-131 | contents accepted at an older version are accepted at the current one |
| BackupTheorems.AnswerRecorded | backend/internal/store/learning.go:105-114 | a recorded answer appends one judged answer whose stars, with what the ledger already holds, stay within the budget of its version |
| BackupTheorems.AnsweredBudget | backend/internal/store/learning.go:109-114 | recording an answer keeps both daily budgets over all sessions of the child |
| BackupTheorems.AnsweredMathKeeps | backend/internal/store/learning.go:80-128 | answering keeps the tables acceptable |
| BackupTheorems.StartedMathKeeps | backend/internal/store/learning.go:16-59 | starting keeps the tables acceptable, in particular one unfinished session per child |
| BackupTheorems.FinishedMathKeeps | backend/internal/store/learning.go:146-158 | finishing keeps the tables acceptable |
| BackupRuns.CompletedReadingKeeps | backend/internal/store/reading.go:11-65 | completing a lesson keeps the tables acceptable |
| BackupRuns.CandidateValid | backend/internal/domain/activity_reward.go:21-72 | every candidate of a save, paid to someone on the roster, is a row the backup check accepts |
| BackupRuns.StepKeepsHealthy | backend/internal/store/learning.go:16-158 | any one request, of math, reading, family entries or people, keeps the tables acceptable |
| BackupRuns.BackupClosure | backend/internal/application/learning_backup.go:10-138 | from any accepted backup, every run of requests leads to tables whose export is accepted |
| FamilyRuns.InterleavedClosure | backend/internal/application/backup.go:102-131 | from any accepted backup, with requests in flight, the same: devices read, work on and save entries while other requests run, profiles change and people join and leave, and in every state the tables export to a backup that the whole check accepts, learning profiles included, on any day up to which the clock has come |
| BackupRuns.ProfilesAlong | backend/internal/application/backup.go:108-110 | along every run, profiles saved by parents included, learning profiles stay acceptable on every day up to which the clock has come |
| BackupRuns.FirstState | backend/internal/store/platform.go:195-199 | a new family's tables are acceptable |
| BudgetTheorems.BudgetsHold | backend/internal/domain/math.go:389-403 | over any run a child's day never exceeds 40 stars of budgeted answers, 30 on the previous scale, 30 of reading |
| BudgetTheorems.DayTotal | backend/internal/store/learning.go:105-118 | when all sessions use the current scale and the day starts empty, the day's math total is the smaller of 40 and the nominal stars of its correct answers, in any order |
| BudgetTheorems.EmptyDayExact | backend/internal/store/learning.go:105-118 | a day on which the child has neither ledger rows nor answers is such a start |
| BudgetTheorems.AnsweredForGood | backend/internal/domain/math.go:279-281 | an answer once recorded never changes, and sending it again at any later time changes neither sessions nor ledger |
| BudgetTheorems.LessonPaidOnce | backend/internal/store/reading.go:28-37 | a paid lesson completed again on any later day returns the same row and pays nothing, or conflicts when its title differs |
| BudgetTheorems.LessonsUnderWay | backend/internal/store/reading.go:98-110 | over any run no child has more than twenty lessons under way |
| BudgetTheorems.PaidLessonWasStarted | backend/internal/store/reading.go:41-64 | in a hosted family a lesson is newly paid only to the child who started it at that level, and the start is used up |
| BudgetTheorems.PaidLessonHasStart | backend/internal/store/reading.go:41-112 | over any run, every lesson newly paid in a hosted family was begun by an earlier allowed request of the same child at the same level, unless it was under way when the run began |
| Family.LiveEntry.Apply | backend/internal/domain/family.go:196-287 | the whole new entry and error of a command |
| Family.LiveEntry.Edit | backend/internal/application/family.go:76-119 | the edited entry and error; begun plans keep their steps, a child's edit withdraws approval |
| Family.CheckPlan | backend/internal/application/family.go:25-51 | accepts if and only if the entry is valid, not a sport of the future, and everyone named is an active member |
| Family.Validate | backend/internal/domain/family.go:78-165 | the loops accept if and only if every rule of an entry holds |
| FamilyRewards.FamilyRewardCandidates | backend/internal/domain/activity_reward.go:21-72 | the loops collect exactly the sport, habit and completion rewards new in this save |
| FamilyTheorems.ProgressFollows | backend/internal/domain/family.go:232-286 | an event is recorded only if it may follow: the next stage, a new day, a new step, a first repeat |
| FamilyTheorems.AppliedShape | backend/internal/domain/family.go:196-287 | a command keeps the entry valid, adds at most one event and otherwise only switches flags |
| FamilyTheorems.SaveExtends | backend/internal/store/family.go:60-95 | one save of any valid entry, imported ones included: valid again, at most one event more, steps fixed once begun, version one higher, identity kept |
| FamilyTheorems.ChainKeeps | backend/internal/store/family.go:60-95 | along any chain of saves from any valid row the versions are valid, count up from it and only extend one another's events |
| FamilyTheorems.HistoryKeeps | backend/internal/domain/family.go:229-286 | over a whole history: every version valid, each actor's stages 1,2,... up to 4, no progress recorded twice, events only extended, steps fixed once begun, versions numbered in order |
| FamilyTheorems.EarnedStays | backend/internal/domain/activity_reward.go:43-54 | what has been reached stays reached, through archive, restore, edit and approval |
| FamilyTheorems.SaveEarnsNew | backend/internal/domain/activity_reward.go:26-71 | the rewards of a save are distinct and stand for things first reached in it |
| FamilyTheorems.RewardsFireOnce | backend/internal/domain/activity_reward.go:21-72 | no two saves of an entry ever earn the same reward, also for entries that a backup brought |
| FamilyTheorems.CompletionPays | backend/internal/domain/activity_reward.go:54-70 | the save that completes a plan is open and approved and pays its recipients |
| FamilyTheorems.PaidByExactlyOneSave | backend/internal/domain/activity_reward.go:54-70 | a plan completed here was paid by exactly one save of its history; one that a backup brought completed is not paid again |
| FamilyLaws.RecordedIff | backend/internal/domain/family.go:220-287 | a progress command at the right version is recorded, under its actor, if and only if the actor belongs, the entry is open, the day valid and not after today, there is room, the actor named if anyone is and assigned if the step is, and it is not recorded yet; otherwise nothing changes |
| FamilyLaws.AgainAccepted | backend/internal/domain/family.go:241-281 | repeating a check-in, a step or a repeat is accepted and changes nothing |
| FamilyLaws.Refused | backend/internal/domain/family.go:197-235 | which refusal a command gets, first things first |
| FamilyLaws.SwitchedIff | backend/internal/domain/family.go:203-219 | archive and restore take effect if and only if the entry is the actor's to edit, approval if and only if a parent approves an open proposal |
| FamilyLaws.EventsRightful | backend/internal/domain/family.go:229-287 | over any history, every event was added in a save at which its actor was named, if anyone was, and had the step assigned, if it was assigned |
| FamilyLaws.EditedIff | backend/internal/application/family.go:76-119 | an edit is accepted if and only if the entry is the editor's, open and at that version, begun steps stay, a child's sport stays its own and the plan may be stored; it replaces the plan and takes back approval of a child's edit |
| FamilyLaws.CreatedIff | backend/internal/application/family.go:52-75 | a new entry is accepted if and only if its plan may be stored; a child's adventure becomes a proposal |
| FamilyLaws.StoredIff | backend/internal/application/family.go:25-51 | a plan may be stored if and only if it is valid, no sport of the future, and all it names are active in the family |
| FamilyLaws.ValidIff | backend/internal/domain/family.go:78-165 | the rules of an entry, spelled out: lengths, days, distinct participants and weekdays, steps, events |
| FamilyLaws.Trimmed | backend/internal/domain/family.go:232 | trimming takes white space at both ends and nothing else |
| FamilyLaws.HabitPays | backend/internal/domain/activity_reward.go:32-42 | a habit pays exactly for each new check-in on one of its weekdays and not before its first day, five stars and a smile |
| FamilyLaws.WeekdaysTurn | backend/internal/domain/activity_reward.go:35-36 | weekdays follow one another in sevens |
| FamilyLaws.PlanPays | backend/internal/domain/activity_reward.go:43-70 | a plan pays exactly in the open and approved save that takes its last step, forty stars and three smiles to those named or else to all who took a step, dated by the latest step |
| FamilyLaws.SportPays | backend/internal/domain/activity_reward.go:29-31 | a sport pays thirty stars and two smiles to its one participant when first saved, and never again |
| FamilyLaws.OthersPayNothing | backend/internal/domain/activity_reward.go:26-71 | entries of any other kind pay nothing |
| FamilyProtocol.SaveIsOnNewest | backend/internal/store/family.go:67-93 | an accepted save was computed from the version in the table, whatever was saved in between, and pays what that step newly earns |
| FamilyProtocol.VersionNames | backend/internal/store/family.go:72-74 | a version number names one version of an entry, from whatever version its history here begins |
| FamilyProtocol.NothingLost | backend/internal/application/family.go:76-141 | for any devices and any interleaving, from any accepted backup, the saved versions form one chain, each the accepted outcome of one change on the version before, with all earlier events kept, ending in the stored row; disciplined too when the entry was first saved here |
| FamilyProtocol.SavedForGood | backend/internal/store/family.go:60-95 | what has been saved by one moment is a prefix of what has been saved by any later one, changes included |
| FamilyProtocol.AcceptedStays | backend/internal/store/family.go:67-94 | an accepted save comes right after all versions saved before it and stays there for good |
| FamilyProtocol.RestoredSane | backend/internal/application/family_backup.go:5-36 | these results may start from any accepted backup |
| Outbox.FirstClaimable | backend/internal/store/notifications.go:72-74 | the row taken is pending, due and not leased, and every other such row comes after it by due time, creation and id; none only if every pending row is not due or leased |
| Outbox.Outbox.SetNotificationRecipient | backend/internal/store/notifications.go:11-53 | the table of recipients and all rows after an opt-in or opt-out |
| Outbox.Outbox.RevokeNotificationRecipient | backend/internal/store/notifications.go:56-69 | the recipient disabled and all its pending rows cancelled |
| Outbox.Outbox.ClaimNotification | backend/internal/store/notifications.go:70-84 | the row taken was pending, due and not leased and the first such by due time, creation and id; it alone changes: leased for 60 seconds under the new token, its tries counted up to the largest number |
| Outbox.Outbox.SettleNotification | backend/internal/store/notifications.go:93-131 | only the current lease settles; the outcome, the retry time, and for a denial the end of that generation alone |
| Outbox.Outbox.CompleteTask | backend/internal/store/store.go:685-716 | an open task of this participant becomes completed and each enabled recipient with an active parent gets one pending row, together; any other task is not found and nothing changes |
| Outbox.Outbox.ImportBackup | backend/internal/store/backup.go:131-137 | pending rows cancelled, settled rows kept, all consent forgotten, tasks those of the backup |
| OutboxTheorems.PendingHasConsent | backend/internal/store/notifications.go:34-48 | over any run every pending row matches an enabled recipient in reference, subscription, binding, issuer, subject and parent |
| OutboxTheorems.NewConsentStartsClean | backend/internal/store/notifications.go:34-48 | after an opt-in a row of that reference is pending if and only if it was pending and the same person renewed the same consent |
| OutboxTheorems.SettledIsFinal | backend/internal/store/notifications.go:93-131 | delivered, cancelled and failed rows never change again, restores included, and no row changes its addressee |
| OutboxTheorems.OneHolder | backend/internal/store/notifications.go:70-84 | at any time at most one token settles a row and a token settles at most one row |
| OutboxTheorems.LostLeaseNeverSettles | backend/internal/store/notifications.go:99-106 | a token whose lease expired or was replaced is refused at every later time and changes nothing |
| OutboxTheorems.DelayDoubles | backend/internal/domain/notification.go:28-40 | for every number of tries the delay is the smaller of an hour and five seconds doubled once per try after the first |
| OutboxTheorems.RetriesSlowDown | backend/internal/store/notifications.go:120-129 | of two settled retries of one row the later never waits less, each by the formula |
| OutboxLaws.RetryWaits | backend/internal/store/notifications.go:72-129 | over any run, after a settled retry every later claim of that row comes at least the smaller of an hour and five seconds doubled once per earlier try later |
| OutboxLaws.LeaseLastsAMinute | backend/internal/store/notifications.go:72-76 | over any run a claimed row is claimed again a minute later at the earliest unless its holder settled it in between |
| OutboxLaws.TriesCounted | backend/internal/store/notifications.go:75 | over any run the tries of a row are the times it was claimed, up to the largest number of the column |
| OutboxLaws.SettlesIff | backend/internal/store/notifications.go:93-131 | a settlement succeeds if and only if its token holds a lease alive on a pending row; state, time, code and id of that row afterwards |
| OutboxLaws.SettlesAlone | backend/internal/store/notifications.go:107-119 | what a settlement does to every recipient and every other row: a denial or revocation ends that consent and its pending rows, anything else touches nothing |
| OutboxLaws.OptsInIff | backend/internal/store/notifications.go:17-48 | an opt-in succeeds if and only if the family has access, the parent is active and the binding well formed; which consent continues and which rows end |
| OutboxLaws.OptOutEnds | backend/internal/store/notifications.go:39-48 | an opt-out ends the consent it names and the rows under no current consent, and touches nobody else |
| OutboxLaws.RevocationEnds | backend/internal/store/notifications.go:56-69 | a revocation ends whatever consent the reference has and all its pending rows, and touches nobody else |
| OutboxLaws.EveryParentTold | backend/internal/store/store.go:705-711 | a completed task makes exactly one row, due at once, for every enabled recipient with an active parent and no other row |
| OutboxLaws.RestoreStops | backend/internal/store/backup.go:131-137 | a restore forgets all consent, stops every pending row and keeps every other |
| OutboxLaws.AllowedIff | backend/internal/store/notifications.go:85-92 | a send is allowed if and only if lease, current consent of the same person and binding, active parent and access all hold |
| Dispatch.DispatchNotification | backend/internal/access/telegram_outbox.go:67-143 | the Portal is asked to send only after family, table and Portal consent agreed; which answers deliver, retry, cancel or give up, each with its code, and which end the consent |
| Dispatch.StagesSettle | backend/internal/access/telegram_outbox.go:72-128 | the worker's stages end in the settlement of one delivery |
| Dispatch.StepExclusive | backend/internal/access/telegram_notifications.go:56-57 | exactly the actor between lock and unlock holds the mutex |
| Dispatch.EndedStaysEnded | backend/internal/store/notifications.go:34-39 | no operation makes an ended consent generation current again |
| Dispatch.StepSafe | backend/internal/access/telegram_outbox.go:67-134 | every step of workers, consent requests and the environment keeps what the main result needs |
| Dispatch.SendsOnlyWithConsent | backend/internal/access/telegram_outbox.go:67-134 | in every interleaving a send is asked for under the mutex and for no generation that a consent request has ended under the mutex; the table has lost that consent if and only if since its check a restore, or a request carried out after its caller gave up, cut it off, and the Portal's last word is no if and only if since its answer such a request has opted out there |
| Dispatch.EndedForGood | backend/internal/access/telegram_notifications.go:87-93 | a generation ended by a consent request, in time or late, is never current in any later state |
| Dispatch.OptOutHolds | backend/internal/access/telegram_notifications.go:91-94 | once an opt-out is carried out in the table, nothing is sent to that reference before someone opts it in there, except by a delivery already past its check when the opt-out was carried out late |
| Dispatch.PortalOptOutHolds | backend/internal/access/telegram_notifications.go:95-99 | the same for an opt-out carried out at the Portal |
| Dispatch.AnsweredOptOutHolds | backend/internal/access/telegram_notifications.go:87-122 | after an opt-out answered with success nothing is sent to its reference before someone opts it in again at the Portal and, if a family was selected, in the table |
| Dispatch.LateRevocationMissed | backend/internal/access/telegram_notifications.go:93-99 | a run in which a revocation given up by its request is carried out between the check and the send, which is asked for an ended generation |
| Dispatch.FreshIsSafe | backend/internal/access/telegram_outbox.go:144-161 | a process that has just started satisfies the invariant, over any outbox and whatever an earlier process left in flight |
| OutboxCycle.Turn | backend/internal/access/telegram_outbox.go:162-187 | one turn visits exactly the next page in order and moves cursor and error as the loop does |
| OutboxCycle.CycleVisitsAll | backend/internal/access/telegram_outbox.go:144-191 | while the catalog stays the same, a cycle visits every family beyond its start exactly once and in order, returns to the start, and reports an error exactly when one happened since the last cycle |
| OutboxCycle.ActiveIsVisited | backend/internal/access/telegram_outbox.go:144-191 | while families come and go between turns and turns fail, a family active throughout a cycle is visited in exactly one turn and once in it, and an error is reported if and only if some turn had one |
| OutboxCycle.WholeCatalog | backend/internal/access/telegram_outbox.go:162-187 | a cycle that starts at the beginning of an unchanging list leaves nobody out |
| OutboxCycle.DispatchBatch | backend/internal/access/telegram_outbox.go:44-66 | dispatches until nothing is left, something fails or the batch is full, and tells which |
| Payments.Ledger.Provision | backend/internal/store/platform.go:201-214 | a new family starts without access and room for three children, a claimed one without an end |
| Payments.Ledger.RecordPayment | backend/internal/store/platform.go:393-447 | the books and error of recording: validation, repeats, conflicts, payment and projection together |
| Payments.Ledger.RefundPayment | backend/internal/store/platform.go:577-617 | the payment marked refunded and the projection moved to a latest payment covering the transaction's start, or closed |
| Payments.FindLatest | backend/internal/store/platform.go:603 | finds a covering payment with the latest end and creation, or none only if none covers |
| AccessTheorems.AccessIsPaid | backend/internal/store/access.go:19-35 | for a new family, after any payments, repeats and refunds of its own in turn, whatever other families do meanwhile, and at every later moment, access is open if and only if a payment covers the moment, with the child limit of the latest payment not refunded |
| AccessTheorems.RunProjects | backend/internal/store/platform.go:393-447 | a family's own transactions in turn keep its projection that of its payments, transactions of other families overlapping them freely |
| AccessTheorems.RepeatsChangeNothing | backend/internal/store/platform.go:411-421 | a repeat of a payment succeeds, another entry under its reference conflicts, a second refund succeeds, and none changes anything, at any later time |
| AccessTheorems.RecordAgrees | backend/internal/store/platform.go:422-439 | a payment never breaks an agreement of access and payments that it finds, however long its transaction waited |
| AccessTheorems.RecordAgreesIff | backend/internal/store/platform.go:422-439 | in whatever state a payment finds the books, it leaves access and payments in agreement if and only if no running payment outlasts it |
| AccessTheorems.RefundAgreesIff | backend/internal/store/platform.go:594-612 | a refund keeps access and payments in agreement if and only if no running payment that starts after its transaction began outlasts all it can fall back to |
| AccessTheorems.RefundLimitIff | backend/internal/store/platform.go:594-612 | a refund that leaves access open leaves the right child limit if and only if it overlooked no payment later, by end and creation, than all it can fall back to, or the latest overlooked one has the same end and limit |
| AccessTheorems.RecordLimitIff | backend/internal/store/platform.go:434-439 | in whatever state a payment finds the books, it leaves the child limit of the latest payment if and only if it will be the latest itself, by end and creation, or the latest is there already with its end and limit |
| AccessTheorems.PromisedIff | backend/internal/store/platform.go:393-617 | over any run, overlapping or not, access equals payment with the latest payment's limit from a state on if and only if the family's last change before it saw what it had to see |
| AccessTheorems.AlwaysPromisedIff | backend/internal/store/platform.go:393-617 | the promise holds in every state of a run if and only if every change of the family saw what it had to see |
| AccessTheorems.NewIsPromised | backend/internal/store/platform.go:201-214 | a family as provisioned is a start of such runs |
| AccessTheorems.OverlapClosesPaidAccess | backend/internal/store/platform.go:594-612 | a refund overlapping a payment closes access that is paid |
| AccessTheorems.OverlapShrinksLimit | backend/internal/store/platform.go:594-612 | a refund overlapping a payment leaves three children where five are paid |
| AccessTheorems.OverlapRecordsOlderLimit | backend/internal/store/platform.go:434-439 | a payment that waited for a later one overwrites its limit |
| AccessTheorems.ClosedAccessRecorded | backend/internal/store/platform.go:422-439 | after an overlapping refund a payment recorded in turn opens access for less than is paid |
| PaymentLaws.TakenIff | backend/internal/store/platform.go:393-439 | a new payment is taken if and only if it is sound and running, has room for the children there are and does not shorten access; what is recorded, and which refusal comes first |
| PaymentLaws.PaymentsStaySound | backend/internal/store/platform.go:393-617 | over any run every payment is sound, was running when recorded, and never changes but by one refund |
| PaymentLaws.FallsBack | backend/internal/store/platform.go:577-617 | a refund marks that payment and leaves the family the running payment that ends last and was recorded last, or no access; other families keep theirs |
| SsoSessions.Sessions.AddFor | backend/internal/identity/sessions.go:44-65 | the registry and answer of adding: limits, revocations and a failed save |
| SsoSessions.Sessions.Get | backend/internal/identity/sessions.go:66-75 | a living session is found, anything else forgotten |
| SsoSessions.Sessions.Delete | backend/internal/identity/sessions.go:76-81 | the session gone from memory, and from the file unless that cannot be written |
| SsoSessions.Sessions.Revoke | backend/internal/identity/sessions.go:82-104 | matching sessions gone and the key held for sixty days, or at capacity all sessions gone |
| SsoSessions.Sessions.Persistent | backend/internal/identity/sessions.go:108-132 | a new process holds the swept content of the file |
| SsoTheorems.RevocationHolds | backend/internal/identity/sessions.go:82-104 | after a saved revocation with room no lookup of the next sixty days returns a matching session, through any additions, deletions, revocations, restarts and failed saves |
| SsoTheorems.KeepsIff | backend/internal/identity/sessions.go:44-65 | the promise of a revocation is kept over every run from a state if and only if in memory and in the file no matching session is alive and none can be added in time |
| SsoTheorems.RevocationKeepsIff | backend/internal/identity/sessions.go:82-104 | a revocation keeps its promise for sixty days over every later run if and only if there was room, or the records already block all additions that long, and the file was written or already as shut |
| SsoTheorems.HoldsUntilRestart | backend/internal/identity/sessions.go:82-104 | until the process restarts a revocation with room holds although no save succeeds |
| SsoTheorems.NothingOutlivesRecord | backend/internal/identity/sessions.go:49 | no session alive in memory or file at a revocation expires after its record |
| SsoTheorems.RestartInvisible | backend/internal/identity/sessions.go:108-132 | as long as every panic was followed by a written file or a restart, one more restart put into a run changes no answer of any later call, whatever follows, further restarts and failing saves included |
| SsoTheorems.RestartUnseenIff | backend/internal/identity/sessions.go:108-132 | from any state, no later lookup sees a restart if and only if the file held exactly the living sessions |
| SsoTheorems.FailedSaveIff | backend/internal/identity/sessions.go:162-166 | in any run, a revocation with room whose save failed keeps its promise beyond the next restart if and only if a call in between wrote the file, or the file was already shut to the subject for the sixty days |
| SsoTheorems.FailedSaveResurrects | backend/internal/identity/sessions.go:162-166 | a revoked session that is found again after a restart |
| SsoTheorems.FailedSaveLosesRecord | backend/internal/identity/sessions.go:162-166 | from an empty registry: revoked while the file cannot be written, restarted, and the subject is let in again |
| SsoTheorems.CapacityLosesRecord | backend/internal/identity/sessions.go:88-93 | a full registry: a saved revocation is not recorded and the subject is let in once other records have run out |
| SsoTheorems.DeletionKeepsIff | backend/internal/identity/sessions.go:76-81 | a deleted session is never found again, unless added anew, if and only if the file was written or no longer held it alive |
| SsoTheorems.FailedDeleteResurrects | backend/internal/identity/sessions.go:76-81 | a deleted session that a restart brings back |
| SsoLaws.GivenIff | backend/internal/identity/sessions.go:44-65 | a session is given if and only if its time is positive and at most sixty days, both ids are there, there is room, neither id is revoked and the file can be written; what memory and file hold then |
| SsoLaws.SessionLasts | backend/internal/identity/sessions.go:44-75 | over any run a given session is found, for its owner and scope, until exactly its time has passed, through restarts and failed saves, unless it is deleted, its owner revoked or the registry cleared |
| SsoLaws.RevokesExactly | backend/internal/identity/sessions.go:82-104 | a revocation removes exactly the sessions of that issuer with the provider session it names, or with the user id if it names none, and holds the key for sixty days |

## Left out

- Printed digits, signs and lines of the notebook page, texts, key handling and styling: they carry no state.
- `MathSession.View`, leaderboards, week plans, task generation and rating: aggregates over the modelled rows.
- Machine integer widths: operands are at most 2000 and sums far below 2^31, so integers are unbounded here.
- SessionTheorems.DrawOptions: says nothing about how many draws the loop needs; the model draws among the candidates not yet taken.
- Subscription gates, roles of the caller, agent grants and whether a task is the reporter's own: parameters that say whether a request is allowed.
- Unicode white space and normalisation: trimming knows space, tab and line ends.
- Photos, audio, reminder clock times and sport figures of an entry: each is a flag that says whether it was judged valid.
- The text of ledger keys: keys are structured, and a number tells apart different spellings of the same answer index.
- Chores, assignments, tasks and shop rewards of a backup: its check does not read them. The text of a birth date and of the two levels of a profile is read into a day and a flag before the check.
- Learning policies derived from a profile's age: a parameter of the requests they allow or refuse.
- Restore as a step of a run of requests: it replaces the tables by contents that were accepted, which is where runs start.
- PostgreSQL, JSON and connections: each transaction is one atomic step over maps and sequences, and a primary key clash is an error that changes nothing.
- Outbox.Outbox.ClaimNotification: does not model rows skipped because another transaction holds them, because transactions are atomic; the run theorems allow any due row to be claimed.
- Dispatch: several Access processes at once are not modelled, the code allows only one. A send counts when it is asked for; when the Portal carries out one that its worker gave up is not modelled.
- Dispatch.SendsOnlyWithConsent: that the Portal does not report a reference as eligible while its last word there from the consent route is no is an assumption about the Portal (`Dispatch.Enabled`); the result shows that the mutex keeps such an answer true until the send. Opt-outs that a person makes at the Portal itself, outside the consent route, may happen at any time and are not counted.
- Heartbeats, readiness files, operator scripts and the Telegram session handling: not part of this model.
- Payments.Ledger.RefundPayment: leaves open which of several payments with the same end and creation time is chosen, as the query does.
- AccessTheorems.AccessIsPaid: holds for transactions of the family that do not overlap each other; what overlap does is stated by PromisedIff.
- Suspension, audit rows, plan names and accounts of a family: they do not enter the projection.
- The registry without a file: a restart forgets sessions and revocations alike.
- OpenID Connect token checks: section 2.7 of OpenID Connect Back-Channel Logout 1.0 is modelled from the point where the logout token has been accepted.
