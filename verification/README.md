# A verified model of the billing daemon

This project models a VoIP billing daemon and proves properties of the model: the write-behind
pipeline from call records to counters and database, the counters themselves, prepaid
allowances, price and prefix lookup, call routing, and the RADIUS library with its MD5.

Money is `real`, times are seconds since the epoch. Database tables are maps and sequences, a
transaction happens or does not, and writing a counter row replaces the row with its key.

## Layout

| files | what they model |
|---|---|
| `Models`, `Ledger`, `BillingState` | records; which record a leg charges and what a record must show; the pipeline as a step system in which fetcher, calculator, saver, lookups and restarts interleave |
| `LegSequence`, `BillingInvariant`, `BillingSafety`, `BillingTheorems` | leg numbering and recovery; the invariant, why every step keeps it, and what it means for the database, memory and ids |
| `Restarts`, `CutRun` | a crash can come at any moment; the shortest run that loses a leg |
| `AccountPostings`, `Allowances` | account rows and prepaid allowances over whole runs |
| `BillingContainer`, `Calculation` | the managers and the container as classes, every locked section one step of the system; the calculation that asks the container for records |
| `AccountCounters`, `CentralSync` | the rolling account sums; their copy in the central database |
| `Calendar`, `StatsWindows`, `WindowsOfRuns` | month and day windows; one record for every moment, over whole runs |
| `Tariff`, `NationalMinutes` | billed length, allowances and cost; minutes of package tariffs |
| `SortedIndex`, `RouteTable`, `TrunkOrder`, `MegaTrunk` | nested binary searches; route tables; order of trunks; transfer between regions |
| `Octets`, `Md5Compression`, `Md5` | bytes; the compression step and the stream of RFC 1321 |
| `RadiusWire`, `RadiusPacket` | what packet bytes mean (RFC 2865) and the classes that write them in place |

`dafny verify dfyconfig.toml` checks everything.

## What does not hold, and when it does

- A save that begins between the two additions of one CDR and finds a single partition stores one leg of
  the pair, and a restart from there loses the other for good (`BillingTheorems.SaveCutsPairIff`,
  `CutRun.CutLosesSecondLeg`, `CutRun.SecondLegStaysLost`); recovery is exact precisely when the stored count is even (`LegSequence.RestartReplaysIff`).
- Records that began more than sixty days before the last stored call are not read back: a package without
  monthly periods then gets its allowance again (`StatsWindows.FoundAfterRestartIff`, `StatsWindows.AllowanceIsGivenTwice`).
- Of an account that has a package tariff twice the seconds used are read from one record and charged to another
  (`NationalMinutes.ReadIsChargedIff`, `NationalMinutes.TwiceIsNeverDeducted`).
- A package whose id is one is taken for the marker of free minutes, and packages of trunk services are not deducted at
  all: a record is deducted exactly for ids above one and services of numbers (`StatsWindows.PackageIsDeductedIff`).
- A call one second longer than the paid minimum can be billed less than it, exactly when free seconds exceed a minimum above zero
  or lengths are rounded to the nearest interval and the minimum lies in the lower half of one (`Tariff.MinimumIsKeptIff`).
- Marks for the central database are not stored, nor are a pending clearing and reloaded sums: a restart keeps the central
  rows right for certain exactly when nothing is marked, unsaved, reloaded or in a batch and no clearing is pending
  (`CentralSync.RestartIsSafeIff`, `CentralSync.RecountIsForgotten`). An empty batch does not clear
  (`CentralSync.ClearingIsExactIff`).
- The server of a call stays changed when a nested route table decides nothing: it is that of the last known table
  entered (`RouteTable.TablesMeanTheirFlattening`, `RouteTable.ServerStaysIff`).
- A call to a destination region that is not a known server is sent on again (`MegaTrunk.NoPingPongIff`,
  `MegaTrunk.SentOnForEver`).
- The search by time misses valid rows unless the rows of every number's key bisect (`SortedIndex.FindAgreesIff`); validities that
  end in order do (`SortedIndex.EndsInOrderBisect`), nested ones may not (`SortedIndex.OverlapIsMissed`).
- Strings of more than 253 octets do not read back from a packet (`RadiusWire.AppendedReadsBackIff`).
- The empty password is hidden by whatever stood in the packet (`RadiusWire.EmptyPasswordReadsBackIff`).
- Clearing the MD5 context clears the size of a pointer, not of the context: eight bytes on a 64-bit machine;
  half the digest and the last block stay (`Md5.MD5Context.Final`).

## Model

| member | source | states |
|---|---|---|
| BillingSafety.RunKeepsInv | src-bill/data/DataBillingContainer.cpp:95-176 | every state of every run — fetching, calculating, counting, the six prepare sections, commit or failure, restart, in any interleaving — satisfies the pipeline invariant |
| BillingSafety.StepKeepsInv | src-bill/data/DataBillingContainer.cpp:95-272 | each locked section and each transaction preserves it |
| BillingTheorems.StoredCountersTally | src-bill/classes/StatsPackageManager.cpp:114-249 | at every moment a stored record's seconds, credit, first and last leg are those of exactly the stored legs that name it; no stored leg names a missing record |
| Allowances.NeverOverdrawnIff | src-bill/classes/StatsPackageManager.cpp:114-249 | no free-minute or package record is overdrawn at any moment of a run, in memory, queued or stored, restarts included, exactly when every leg, as it is counted, finds the seconds it takes |
| Allowances.StoredAllowancesHold | src-bill/classes/StatsPackageManager.cpp:140-168 | so no stored allowance is overdrawn after such a run from the empty database |
| Calculation.CalcCdr | src-bill/classes/Billing.cpp:361-394 | asking getCurrent for the records and taking from them gives a pair of legs the pipeline takes over, naming known records, when no usable package has the id one; the seconds taken are there when the tariff's free minutes were not raised since the month's record was opened |
| Calculation.CalcPrepaid | src-bill/classes/BillingCall.cpp:1091-1219 | free minutes, else packages asked for in order up to the first that covers the leg: package time lies between zero and the billed time and within the record getCurrent returned, the chosen package gives as many seconds as any, the price is split exactly |
| Calculation.TakenIsAffordable | src-bill/classes/BillingCall.cpp:1122-1137 | a leg that took from records in use names known records, and what it takes is there when the tariff has no more free seconds than the record was opened with |
| Calculation.FreeSecondsAreThereIff | src-bill/classes/BillingCall.cpp:1104-1137 | whatever is billed, what a local call takes is there exactly when the tariff has no more free seconds than its record was opened with, or they are used up |
| Calculation.RowsStayWhileCalculating | src-bill/data/DataBillingContainer.cpp:95-176 | whatever other threads ask, fetch and save between the lookup and the counting, the record looked up stays as it was and the leg affordable |
| AccountPostings.StoredAccountsArePosted | src-bill/classes/StatsAccountManager.cpp:150-239 | at every moment of every run the stored account rows are those of exactly the accounts with counted stored legs, each the posting of all of them in order; the rows in memory are the same for all legs so far |
| AccountPostings.StoredAccountShows | src-bill/classes/StatsAccountManager.cpp:193-239 | so a stored row holds the day, month and international sums of the latest day and month of the account's stored legs and their cost since the invoice |
| BillingTheorems.MemoryIsOverlay | src-bill/classes/StatsPackageManager.cpp:87-134 | a record in memory is its database row with the queued partitions written over it; all managers queue equally many partitions; every partition but the last holds legs |
| BillingTheorems.QueueIsNumbered | src-bill/classes/CallsManager.cpp:25-34 | queued legs carry exactly the ids from the last stored one plus one to the last given out |
| BillingTheorems.FreshIdsAreFresh | src-bill/classes/StatsPackageManager.cpp:187-232 | the id a new record gets is in no table, no partition, and no leg names it |
| BillingTheorems.FrozenWhilePreparing | src-bill/data/DataBillingContainer.cpp:111-176 | from the start of a save to its end partition 0 of calls, accounts and counters stays what it was, whatever is counted meanwhile |
| BillingTheorems.CommitStoresSnapshotOfBegin | src-bill/data/DataBillingContainer.cpp:111-176 | what a commit writes is the state of the moment the save began, for calls, accounts and all four kinds of counters |
| BillingTheorems.NothingIsLost | src-bill/data/DataBillingContainer.cpp:95-176 | without a restart, stored and queued legs together only grow, through failed saves as well |
| BillingTheorems.SavesDrainTheQueue | src-bill/data/DataBillingContainer.cpp:111-176 | as many undisturbed saves as there are partitions store everything that was queued |
| BillingTheorems.SaveRoundRuns | src-bill/data/DataBillingContainer.cpp:111-176 | an undisturbed save passes through all its sections, keeps every leg and leaves the partitions after the first |
| BillingTheorems.UncutRunsAreComplete | src-bill/classes/Billing.cpp:318-408 | the queue is the fetched CDRs not yet processed; as long as no restart found the stored legs cut within a pair, the legs are exactly those of the processed CDRs, in table order, each pair naming the other, across restarts |
| BillingTheorems.SaveCutsPairIff | src-bill/classes/Billing.cpp:393-394 | a save first cuts between the two legs of a CDR exactly when it begins between the two additions and has to close the open partition |
| LegSequence.RestartReplaysIff | src-bill/data/DataBillingContainer.cpp:192-207 | resuming after the highest stored CDR and leg id reproduces the uninterrupted run's legs exactly when the number of stored legs is even |
| LegSequence.SplitPairIsLost | src-bill/classes/Billing.cpp:390-405 | after a stop with one leg of a CDR stored, the other leg is never produced, however many CDRs follow |
| CutRun.CutLosesSecondLeg | src-bill/data/DataBillingContainer.cpp:111-176 | a run from the empty database: a CDR arrives, is fetched and calculated, its first leg is added, a save begins and commits, the process restarts; the CDR counts as processed and one of its two legs is stored |
| CutRun.SecondLegStaysLost | src-bill/data/DataBillingContainer.cpp:192-207 | after any continuation of that run the first leg is the only one of the CDR |
| LegSequence.SelectIsSlice | src-bill/classes/CdrManager.cpp:24-94 | paging by key reads the next slice of the table, without gap or repetition |
| LegSequence.EvenCutIsAtACdr | src-bill/data/DataBillingContainer.cpp:192-207 | an even number of stored legs is all legs of the CDRs up to the highest stored CDR id |
| BillingSafety.ClosedPartIsEven | src-bill/classes/CallsManager.cpp:316-324 | a partition closed for its size holds whole pairs |
| BillingSafety.FetchKeepsQueue | src-bill/classes/CdrManager.cpp:24-94 | the processed CDRs followed by the queue stay a duplicate-free prefix of the CDR table |
| BillingSafety.RestartKeepsInv | src-bill/data/DataBillingContainer.cpp:8-30 | loading from the database after a crash at any moment restores the invariant |
| Restarts.RestartIsPossible | src-bill/data/DataBillingContainer.cpp:8-30 | in every good state the database can answer the queries of a starting process, so a crash can come at any moment |
| BillingContainer.CallsManager.PrepareSaveQueries | src-bill/classes/CallsManager.cpp:245-291 | the groups hold the legs of partition 0 by month, in order, and each month is announced once |
| BillingContainer.GroupsHoldEachLegOnce | src-bill/classes/CallsManager.cpp:245-291 | a leg is in the group of its own month as often as it is queued and in no other group |
| BillingContainer.StorageMonthOf | src-bill/classes/CallsManager.cpp:245-291 | the month computed for storage is the month window's start for the connect time in UTC |
| BillingContainer.CdrManager.LoadPart | src-bill/classes/CdrManager.cpp:24-94 | the queue grows by the next page of the table |
| BillingContainer.CdrManager.RemoveFirstCdr | src-bill/classes/CdrManager.cpp:131-135 | the head leaves the queue |
| BillingContainer.CallsManager.Add | src-bill/classes/CallsManager.cpp:25-34 | the leg joins the last partition and its id becomes the last one given out |
| BillingContainer.StatsManager.GetCurrent | src-bill/classes/StatsTrunkSettingsManager.cpp:86-111 | the first listed record that matches, or a new one with the next id, written to the open partition |
| BillingContainer.StatsManager.GetUsedSeconds | src-bill/classes/StatsNNPPackageMinuteManager.cpp:302-323 | the seconds used of the first listed record that matches, none when there is none; nothing is opened |
| BillingContainer.StatsManager.Add | src-bill/classes/StatsPackageManager.cpp:114-134 | the named record is charged in memory and in the open partition, nothing else changes |
| BillingContainer.StatsAccountManager.Add | src-bill/classes/StatsAccountManager.cpp:193-239 | the account's row is posted in memory and in the open partition |
| BillingContainer.DataBillingContainer.AddOrig | src-bill/data/DataBillingContainer.cpp:95-109 | adding a leg to calls, accounts and all counters is one step of the pipeline and keeps its invariant |
| BillingContainer.DataBillingContainer.SaveBegin | src-bill/data/DataBillingContainer.cpp:111-125 | the first section of a save is one step: a partition is opened when only one is there and it has legs |
| BillingContainer.DataBillingContainer.PrepareRows | src-bill/data/DataBillingContainer.cpp:111-176 | a prepare section reads partition 0 as it is at that moment |
| BillingContainer.DataBillingContainer.Commit | src-bill/data/DataBillingContainer.cpp:140-176 | the transaction writes all prepared queries or none |
| BillingContainer.DataBillingContainer.RemovePartitionAfterSave | src-bill/data/DataBillingContainer.cpp:264-272 | partition 0 of every manager is dropped together after the commit |
| BillingContainer.DataBillingContainer.LoadAll | src-bill/data/DataBillingContainer.cpp:8-30 | start-up reads the last ids and the counters back and starts with one empty partition |
| Calendar.GmtimeOfTimegm | src-bill/common.cpp:141-192 | breaking a time down and putting a valid date together are inverse, for all years |
| Calendar.MonthHoldsTime | src-bill/common.cpp:158-192 | a moment lies in its own month window, which has 28 to 31 days |
| Calendar.MonthWindowIsShared | src-bill/common.cpp:158-192 | every moment of a month window has that same window |
| Calendar.MonthsTile | src-bill/common.cpp:158-192 | the second after a month window starts the next one |
| Calendar.DayHoldsTime | src-bill/common.cpp:141-152 | a moment lies in its own day, which starts at midnight of the zone |
| StatsWindows.OpenedForCall | src-bill/classes/StatsPackageManager.cpp:187-232 | a record opened for an active package counts at the call's time; its prorated allowance is at most the tariff's, and all of it when the package is active the whole month |
| StatsWindows.TrunkWindowsTile | src-bill/classes/StatsTrunkSettingsManager.cpp:180-203 | with a fixed zone two moments have the same window or windows that do not meet |
| StatsWindows.PackageWindowsTile | src-bill/classes/StatsPackageManager.cpp:187-214 | the same for packages, monthly or not, cut to their active time |
| StatsWindows.GetCurrentIsUnique | src-bill/classes/StatsTrunkSettingsManager.cpp:86-111 | getCurrent returns the one record of the owner whose window holds the call |
| StatsWindows.OneRecordHoldsEveryMoment | src-bill/classes/StatsPackageManager.cpp:87-134 | after any sequence of questions and counts, for any owners, that still is so |
| WindowsOfRuns.OneRecordInEveryRun | src-bill/classes/StatsPackageManager.cpp:9-134 | the same for the manager in every state a run of the whole pipeline reaches, restarts included: what a restart did not read back began too early ever to be read back |
| StatsWindows.FoundAfterRestartIff | src-bill/classes/StatsPackageManager.cpp:9-46 | after a restart the record in use, of any of the four kinds, is found again exactly when it began within sixty days of the last stored call; otherwise a fresh, unused one is opened |
| StatsWindows.AllowanceIsGivenTwice | src-bill/classes/StatsPackageManager.cpp:9-46 | a package of 600 seconds that are used up gives 600 more after a restart a hundred days later |
| StatsWindows.SecondsOverRun | src-bill/classes/StatsPackageManager.cpp:114-134 | over any run of questions and counts a record gains exactly the seconds of the legs that are charged to it |
| StatsWindows.PackageIsDeductedIff | src-bill/classes/StatsPackageManager.cpp:116-123 | over any run, with legs of free minutes under the same record number, the seconds legs took from a package record are deducted from it exactly when the package id is above one and the package is one of a number; otherwise its record never changes |
| StatsWindows.PackageOneIsNeverDeducted | src-bill/classes/StatsFreeminManager.cpp:111-119 | the seconds taken from a package with the id one are charged to the free-minute record with the same number, besides the free minutes taken from that one |
| AccountCounters.PostAllShows | src-bill/classes/StatsAccountManager.cpp:193-239 | after any counted legs the day, month and international sums are those of the latest day and month seen, and the sum is the total since the invoice date |
| AccountCounters.OrderDoesNotMatter | src-bill/classes/StatsAccountManager.cpp:193-239 | counting the same legs in any other order gives the same row |
| AccountCounters.FreshAccountShows | src-bill/classes/StatsAccountManager.cpp:202-231 | the same sums for an account that had no row |
| AccountCounters.FreshOrderDoesNotMatter | src-bill/classes/StatsAccountManager.cpp:202-231 | the same independence of order for an account that had no row |
| CentralSync.NoUpdateIsLost | src-bill/classes/StatsAccountManager.cpp:92-349 | under any interleaving of counting, reloaded sums, saves, batches, failures, recounts and restarts that lose nothing, a live account that is neither marked nor in a batch, with no clearing pending, has its live row in the central table |
| CentralSync.StepKeepsInv | src-bill/classes/StatsAccountManager.cpp:277-349 | every such step keeps what that needs |
| CentralSync.RestartIsSafeIff | src-bill/classes/StatsAccountManager.cpp:10-35 | for given marks, pending clearing, batch, unsaved and reloaded rows, every state they can stand in survives the loading of the table exactly when no account is marked, unsaved or reloaded, no clearing is pending and no batch with rows is under way |
| CentralSync.RecountIsForgotten | src-bill/tasks/TaskRecalc.cpp:101-126 | a stop right after a recount, with nothing marked, forgets the clearing, and the centre never gets the row |
| CentralSync.StatsAccountSync.ReloadSum | src-bill/classes/StatsAccountManager.cpp:126-135 | reloaded sums replace those in memory and mark their accounts, and go to no partition |
| CentralSync.ClearingIsExactIff | src-bill/classes/StatsAccountManager.cpp:302-346 | a clearing batch leaves exactly the live rows, unless there are none: then the old rows stay |
| CentralSync.StatsAccountSync.GetChanges | src-bill/classes/StatsAccountManager.cpp:277-291 | takes everything or the marked rows and forgets the marks |
| CentralSync.StatsAccountSync.AddChanges | src-bill/classes/StatsAccountManager.cpp:293-300 | a failed batch is marked again, and the clearing with it |
| Md5Compression.Advance | libs/ace-radius/md5.cpp:166-174 | one unrolled statement, with its optimized selection and its two shifts, is one operation of section 3.4 of RFC 1321 |
| Md5Compression.Transform | libs/ace-radius/md5.cpp:181-262 | the 64 unrolled statements compute the compression of the block with the given registers |
| Md5.MD5Context.Update | libs/ace-radius/md5.cpp:74-116 | data of any size extends the stream: registers, waiting bytes and bit counter stand for the longer stream |
| Md5.CarryCounts | libs/ace-radius/md5.cpp:78-83 | the wrap test and the carry make the two 32-bit words count the bits modulo 2^64 |
| Md5.MD5Context.Final | libs/ace-radius/md5.cpp:122-161 | the digest of the stream by sections 3.1 to 3.5 of RFC 1321; afterwards half of it and the last padded block are still in the context |
| Md5.ZerosBring56 | libs/ace-radius/md5.cpp:135-150 | the padding is the shortest that brings the length to 56 modulo 64 |
| Md5.EncodeIsInjective | libs/ace-radius/md5.cpp:155-158 | different registers give different digests: each word is read back from its four bytes |
| Md5.Calc | libs/ace-radius/md5.cpp:268-274 | the digest of a buffer |
| Md5.CalcInPieces | libs/ace-radius/md5.cpp:59-161 | however a message is cut into pieces, the digest is that of the whole |
| RadiusWire.WalkReadsBack | libs/ace-radius/RadiusPacket.cpp:358-388 | the walk over a packet enumerates exactly the attributes that were put in, in order |
| RadiusPacket.RadiusPacket.ReadAll | libs/ace-radius/RadiusPacket.cpp:321-327 | the walk ends on any bytes whose length field stays within the buffer and visits what the walk's definition says |
| RadiusPacket.RadiusPacket.FindAttribute | libs/ace-radius/RadiusPacket.cpp:394-403 | stops at the first visited attribute of the type, on any such bytes |
| RadiusWire.FirstOfFinds | libs/ace-radius/RadiusPacket.cpp:394-403 | in a well-formed packet that is the first attribute of the type in its list, if there is one |
| RadiusPacket.AddString | libs/ace-radius/RadiusAttribute.cpp:682-708 | adding and setting a string appends the attribute or, when the packet would exceed 4096 octets, leaves what it holds; identifier and authenticator stay |
| RadiusPacket.AddVendorString | libs/ace-radius/RadiusAttribute.cpp:1502-1530 | the same for a vendor attribute, with vendor number, type and inner length in place |
| RadiusPacket.AddNumber | libs/ace-radius/RadiusAttribute.cpp:598-616 | the same for a number, in network byte order |
| RadiusPacket.WriteAndRead | libs/ace-radius/RadiusPacket.cpp:409-421 | a list of attributes added to a new packet up to the first that finds no room is what the walk reads: the whole list exactly when it fits into 4096 octets |
| RadiusPacket.RadiusAttribute.SetNumber | libs/ace-radius/RadiusAttribute.cpp:598-616 | the number is appended in network byte order, or the packet is untouched |
| RadiusWire.LongReadsBack | libs/ace-radius/RadiusAttribute.cpp:584-592 | a number stored in network byte order is read back |
| RadiusWire.AppendedReadsBackIff | libs/ace-radius/RadiusAttribute.cpp:682-708 | a value reads back exactly when it has at most 253 octets; the length octet of a longer one wraps |
| RadiusPacket.RadiusPacket.AddAttribute | libs/ace-radius/RadiusPacket.cpp:409-421 | points at the free space and counts for nothing until a value is set |
| RadiusPacket.RadiusPacket.AdjustLength | libs/ace-radius/RadiusPacket.cpp:436-444 | the length never exceeds 4096 |
| RadiusPacket.RadiusAttribute.SetUserPassword | libs/ace-radius/RadiusAttribute.cpp:811-852 | the attribute holds the hidden password, padded to the next multiple of 16, or nothing changed; for the empty password 16 octets are reserved and left as they were |
| RadiusPacket.RadiusAttribute.GetUserPassword | libs/ace-radius/RadiusAttribute.cpp:942-1037 | decodes with the given secret or the packet's, else gives the packet's own copy |
| RadiusWire.PasswordRoundTrip | libs/ace-radius/RadiusAttribute.cpp:862-1037 | for every hash, secret and authenticator, decoding gives the password without trailing nulls, which is the password exactly when it ends in none |
| RadiusWire.SetPasswordReadsBack | libs/ace-radius/RadiusAttribute.cpp:811-1037 | the same through the bytes of a packet, with the encoded length, for a password that is not empty |
| RadiusWire.EmptyPasswordReadsBackIff | libs/ace-radius/RadiusAttribute.cpp:825-842 | the empty password is read back as empty exactly when the octets that stood in the packet are the digest of secret and authenticator |
| RadiusPacket.RadiusPacket.ResponseAuthenticator | libs/ace-radius/RadiusPacket.cpp:450-482 | signs the packet; the appended secret fits the buffer |
| RadiusPacket.RadiusPacket.VerifyResponse | libs/ace-radius/RadiusPacket.cpp:545-583 | accepts by section 3 of RFC 2865 under the old password if there is one, else the secret, and leaves the response as it was up to its length |
| RadiusWire.SignedIsAccepted | libs/ace-radius/RadiusPacket.cpp:450-583 | a response that kept the request's identifier and authenticator is accepted once signed, and holds the same attributes |
| RadiusWire.AcceptedIffSigned | libs/ace-radius/RadiusPacket.cpp:545-583 | verification accepts exactly what signing produces |
| RadiusPacket.SignAndVerify | libs/ace-radius/RadiusPacket.cpp:450-583 | building, signing and verifying end to end |
| SortedIndex.EqualRange | src-bill/lists/PricelistPriceList.h:52-73 | the loop with its two bounds computes where the bisection ends |
| SortedIndex.EqualAtIsExact | src-bill/lists/PricelistPriceList.h:52-73 | that is exactly the elements neither below nor above the key when both orders hold |
| SortedIndex.EqualAtIsSound | src-bill/lists/PricelistPriceList.h:52-73 | when only the upper order holds, it is empty or starts with such an element |
| SortedIndex.FindExact | src-bill/lists/PricelistPriceList.h:52-73 | the three nested searches; whatever they find matches list, prefix and time |
| SortedIndex.TimesAreFoundIff | src-bill/lists/PricelistPriceList.h:63-72 | among the rows of one key the search by time finds what a scan finds at all times exactly when they bisect: wherever the search can turn right, every row passed over has ended |
| SortedIndex.KeyIsFoundIff | src-bill/lists/PricelistPriceList.h:52-73 | the same for the three searches in a whole list and one list id and prefix |
| SortedIndex.Find | src-bill/lists/PricelistPriceList.h:76-106 | whatever is found answers for the number at the time; when every key that is the text of a number can be searched, a row is found exactly when some row answers, and it is the first with the longest prefix |
| SortedIndex.FindAgreesIff | src-bill/lists/PricelistPriceList.h:76-106 | the lookup agrees with a scan for every list, every number of 63 bits and every time exactly when the rows of every key that is the text of such a number bisect |
| SortedIndex.EndsInOrderBisect | src-bill/lists/PricelistPriceList.h:43-50 | rows whose validities end in order bisect |
| SortedIndex.LongestIsUnique | src-bill/lists/NetworkPrefixList.h:75-105 | there is one such row, so search and scan agree |
| SortedIndex.OverlapIsMissed | src-bill/lists/PricelistPriceList.h:43-50 | of three nested validities the lookup misses the outer one |
| SortedIndex.FindPrefix | src-bill/lists/PrefixlistPrefixList.h:38-82 | finds a row exactly when some non-empty prefix in the list is a prefix of the number, and a longest one |
| TrunkOrder.OrderTrunks | src-bill/classes/Repository.cpp:313-374 | the output is a permutation of the candidates, ordered by priority, then unmet minimums first, then rouble price |
| TrunkOrder.LessIsCheaper | src-bill/classes/Repository.cpp:724-753 | comparing candidates in mixed currencies is comparing rouble values, known prices before unknown |
| TrunkOrder.LessIsStrictWeak | src-bill/classes/Repository.cpp:724-753 | the comparison is a strict weak order, as sorting requires |
| TrunkOrder.PriceLessThanIsRoubles | src-bill/classes/Repository.cpp:703-712 | the price list comparison is the comparison of rouble values |
| TrunkOrder.StableSortByPriority | src-bill/classes/Repository.cpp:372-372 | candidates of one priority keep their order |
| RouteTable.RadiusAuthProcessor.FilterByNumber | src-bill/classes/RadiusAuthProcessor.cpp:727-768 | a number passes when some list of the set has a prefix of it; missing sets and lists are errors when reached |
| RouteTable.RadiusAuthProcessor.ProcessRouteTable | src-bill/classes/RadiusAuthProcessor.cpp:217-274 | terminates on acyclic tables with the decision, the error and the server the definition gives |
| RouteTable.TablesMeanTheirFlattening | src-bill/classes/RadiusAuthProcessor.cpp:217-274 | a table decides what the first applicable rule of its depth-first flattening says, with all enclosing filters and the phase guard, or zero, and leaves the call in the server of the last known table entered before it |
| RouteTable.ServerStaysIff | src-bill/classes/RadiusAuthProcessor.cpp:225-232 | the server is where it was exactly when no table of a known server was entered before the deciding rule, or the last one entered belongs to it, whether or not that table decided anything |
| RouteTable.ServerOfLastTableEntered | src-bill/classes/RadiusAuthProcessor.cpp:225-232 | a call decided by a table of one server is left in the server of a nested table that decided nothing |
| MegaTrunk.StateMegaTrunk.PhaseCalc | src-bill/classes/StateMegaTrunk.cpp:36-128 | sets the phase, destination and flags the first matching trunk service calls for; never both phases |
| MegaTrunk.NoPingPongIff | src-bill/classes/StateMegaTrunk.cpp:36-128 | a call sent on to a region is not sent on from there, from any source trunk, exactly when that region is a known server |
| MegaTrunk.SentOnForEver | src-bill/classes/StateMegaTrunk.cpp:36-128 | an account whose trunk is on a server that is not known: the call is sent there from anywhere, and from there to there again |
| MegaTrunk.FirstTakingIsFirst | src-bill/classes/StateMegaTrunk.cpp:44-93 | the deciding service is the first active one that takes the number's calls |
| Tariff.GetCallLength | src-bill/classes/BillingCall.cpp:653-677 | zero exactly within the free seconds; else the shortest billable length that is long enough |
| Tariff.IntervalsAreKept | src-bill/classes/BillingCall_nnp.cpp:204-228 | beyond the minimum whole intervals are billed: the least that suffices, or the nearest for type 1 |
| Tariff.MinimumIsKeptIff | src-bill/classes/BillingCall_nnp.cpp:204-228 | calls longer than the minimum are all billed at least the minimum exactly when the free seconds are not more than a minimum above zero, and lengths are rounded up or the minimum does not lie in the lower half of an interval |
| Tariff.SplitsExactlyIff | src-bill/classes/BillingCall.cpp:956-972 | cost and package credit make up the whole price exactly when no more than the billed seconds came from the package, up to free and unbilled legs |
| Tariff.BillingCall.SetupCost | src-bill/classes/BillingCall.cpp:956-972 | the price of the billed seconds is split exactly, with the sign of the leg |
| Tariff.BillingCall.SetupFreemin | src-bill/classes/BillingCall.cpp:1091-1137 | local calls take what is left of the tariff's free seconds, up to their length |
| Tariff.BillingCall.SetupPackagePrepaid | src-bill/classes/BillingCall.cpp:1144-1219 | the first package that gives as many of the leg's seconds as any is used, and no package is used when none has seconds left |
| Tariff.PickMinutes | src-bill/classes/BillingCall_nnp.cpp:240-297 | the first package of minutes that serves the destination with seconds left and is cheapest by the minute, among equals the one with least left; none exactly when none serves |
| Tariff.BillingCall.CalcNnpMinutes | src-bill/classes/BillingCall_nnp.cpp:79-136 | the leg takes what is left in that package, up to its length; the price is split exactly |
| NationalMinutes.CalcByMinutes | src-bill/classes/BillingCall_nnp.cpp:79-136 | the leg takes what is left in the picked package and names the record of the account's first tariff of the kind; if the account has that tariff once, the seconds were left in that record |
| NationalMinutes.ReadIsChargedIff | src-bill/classes/BillingCall_nnp.cpp:111-122 | the tariff whose record is charged is the one whose record was read exactly when the account has it once |
| NationalMinutes.TwiceIsNeverDeducted | src-bill/classes/BillingCall_nnp.cpp:251-266 | with the tariff twice the record that is read is never charged: over any run it shows the same seconds |
| Tariff.BillingCall.CalcTollFree | src-bill/classes/BillingCall.cpp:370-397 | the receiver of a toll-free call pays the whole price |
| Tariff.PaidWithinPrepaid | src-bill/classes/StatsPackageManager.cpp:193-208 | a prorated allowance is between zero and the month's, and the month's for the whole month |
| Tariff.SharedMonthAddsUp | src-bill/classes/StatsPackageManager.cpp:193-208 | two packages that share a month give what one gives, to within a second |

## Left out

- Reading and writing of SQL, sockets, files and configuration; health checks, logging, trace output.
- Rounding of floating-point sums and of stored decimals: money is `real`.
- Wrap-around of the daemon's 32-bit counters of seconds and ids; MD5 and RADIUS widths are modelled.
- Concurrent savers or calculators: one of each, as the source's locks ensure. A lookup returns the id of a
  record, not a pointer into the map; between lookup and use the source holds on to the pointer.
- The initial database is empty. CDRs arrive with growing ids, and whether a CDR is technical is the same after a restart.
- A restart reads the tables with the last stored time of the calls; `recalc` of counters from stored calls is not modelled.
- `StatsAccountManager::reloadSum` as a step of the pipeline: it rewrites rows in memory without a partition. `CentralSync`
  has it as a step.
- The table of free-minute records does not store the tariff's allowance; `Row.paid` keeps that of the tariff under which
  the record was opened, to say what it is to be overdrawn.
- Calculation.CalcCdr: no usable package has the id one. A leg that took from it names the free-minute record of the same
  number, which the pipeline has only by chance; `StatsWindows.PackageOneIsNeverDeducted` says what becomes of its seconds.
- WindowsOfRuns.OneRecordInEveryRun: stored legs have connect times after the epoch.
- Tariff.BillingCall.CalcNnpMinutes: the seconds used are given with each package; `NationalMinutes.CalcByMinutes` reads them
  from the records. What the global counter and the counter of current calls add is given, and the choice of the price is
  not modelled.
- Old-Password and CHAP attributes, addresses, accounting request authenticators, retransmission.
- RadiusPacket.RadiusAttribute.SetUserPassword: passwords of at most 128 octets, the size of the buffer for the copy.
- RadiusPacket.RadiusAttribute.GetUserPassword: with a secret, a length octet of at least 2 whose blocks lie within the buffer;
  below 2 the source's 16-bit length wraps to 65534 or 65535 and its loop reads beyond the 4352 octets. The
  loop that drops nulls is modelled with its two tests exchanged; the source reads one byte before the buffer when all are null.
- RadiusPacket.RadiusPacket.ReadAll: length fields below 4352, the size of the buffer; with a larger one the walk reads beyond it.
- A secret has 1 to 256 octets; the library leaves the caller's variables unset for an empty one.
- MD5 on big-endian machines; the buffers are read low byte first.
- SortedIndex.Find: numbers whose text has fewer than 20 characters, the size of the source's buffer; agreement with the scan
  is stated of numbers that are not negative.
- TrunkOrder.OrderTrunks: the counters of the candidates are given with them; the library's two sorts are modelled by insertion
  sorts and used only through their contracts.
- RouteTable.RadiusAuthProcessor.ProcessRouteTable: tables that lead back to themselves, on which the source may not return.
- The choice of tariff, price list and package price list for a leg, and whether a tariff matches its destination.
- The other questions asked of the mega-trunk state (forced authorization, skipped tariffs).
- Processing of outcomes after the table, the three trunks named in the answer, and authorization by balance.
- MegaTrunk.StateMegaTrunk.PhaseCalc: the clock is read once.
- StatsWindows.OneRecordHoldsEveryMoment: free-minute records are matched by their month alone and need no window; the zone of an
  account is fixed.
- Watermarks of the copies of other counters in the central database, `ClientLockCounter`, prefix trees and one-level lists.
