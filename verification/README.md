# KFinans: verified models of its services

KFinans keeps a household's portfolio, spending and budget. This project models six parts of its
backend, and one helper of its web client, in Dafny and proves what they promise over every input,
every run and every interleaving. `dafny verify dfyconfig.toml` checks it.

| part | modules |
|---|---|
| Single-flight cache with a time to live: callers, shared futures, cancellation, invalidation | `SingleFlight` (step system), `AsyncTtlCache` (the object) |
| Live portfolio row: full, section and wallet refreshes that interleave at every await | `LivePayload`, `SectionRefresh`, `WalletRefresh`, `StoredRows` (what each kind of write must leave), `LiveTasks` (step system), `SequentialRefreshes` (its sequential runs), `LiveCacheStore` (the object) |
| Historical rates and conversion: a table filled from a publisher, windowed scans, rounding | `RateTable`, `RateStore`, `Conversion`, `ConversionService`, `Forecast`, `Money` |
| Periodic definitions and the budget planner's two reports | `Recurrence`, `Actuals`, `BudgetPlanner`, `MonthlyBuckets`, `Totals` |
| Credit ledger: row locks, idempotency keys, commit and rollback | `CreditLedger` (step system), `CreditSession` (the object) |
| Numeric and codec kernels | `LatencyStats`, `PortfolioWeights`, `Base64Url` |

How the modules are built:

- Code that suspends is a step system: one step is what runs between two suspension points, and the
  theorems quantify over every run. The class beside it holds the fields the source updates; each of
  its methods is proved to do to them what the step says.
- A loop of the source is a method with a loop. It is proved against a function, and the theorems
  are lemmas about that function.
- Decimals are exact reals. Money that has been rounded is an integer number of cents.
  `Money.HalfUp` is ROUND_HALF_UP, `Money.HalfEven` the default rounding of `quantize` and `round`.
- What another system answers (the publisher of rates, the compute functions of a refresh, a factory,
  a failing write) is a parameter or is chosen by the step.
- Dictionary iteration order is left open: loops over a dictionary or set take its elements in any order.

## Where the code does less than its comments say

Each of these is a property that fails on a concrete input, given by a lemma, with the exact condition under which it holds.

- Cancelling one waiter of a shared factory call cancels the future, so waiters that were never
  cancelled raise too (`SingleFlight.CancelledWaiterPoisonsOthers`). Waiters share the result exactly
  when the future is still pending as the factory returns (`SingleFlight.WaiterSharesExactlyWhenPending`).
- Refreshing the sections one at a time stores the payload and total of a full refresh, but not always
  its notes: a full refresh also derives notes from the placeholder of a crashed commodities or manual
  section (`SectionRefresh.CrashedCommoditiesTellThemApart`). The notes agree exactly when it derives none
  (`SectionRefresh.OneByOneMatchesFull`).
- A record's value may depend on the other records of its batch even when a rate was published within
  seven days (`Conversion.RecentPublicationIsNotEnough`), because only the record's own day is fetched.
  It is independent exactly when no publication displaces its rate (`Conversion.BatchIndependenceExactly`).
- A recovered wallet's `wallet_errors` entry goes away, its keys in `errors` do not
  (`WalletRefresh.RecoveryKeepsErrorKey`): a key stays exactly when it was there or is written again
  (`WalletRefresh.WalletRefreshFrames`).
- Two addresses with the same first ten characters share a key of `errors`, so the order of two wallet
  refreshes can show (`WalletRefresh.SharedPrefixDoesNotCommute`). They commute on `errors` exactly when they
  write no common key with different messages (`WalletRefresh.WalletRefreshesCommute`).
- A section or wallet refresh saves over the row it has read: what another task has stored since is lost, for the
  other sections too (`SequentialRefreshes.StaleCopyIsSaved`, for every other task and every interleaving).
- A final save that fails leaves the row `refreshing` with no task running (`LiveTasks.FailedSaveSticks`).
  After any run over a row that was not refreshing it is so exactly when the last write that has reached the database is a status
  write (`LiveTasks.RefreshingExactly`).
- A text with leftover bits re-encodes to another text (`Base64Url.LeftoverBitsAreLost`). Re-encoding a decoded
  text gives it back exactly for canonical texts (`Base64Url.EncodeOfDecodeExactly`).

## Model

| member | source | states |
|---|---|---|
| SingleFlight.SingleFactoryPerKey | backend/app/core/cache.py:45-86 | In every interleaving of calls, cancellations and invalidations at most one factory runs per key |
| SingleFlight.NoWaiterIsLost | backend/app/core/cache.py:62-86 | A suspended waiter can resume, or the owner of its future is suspended in the factory of the same key; none waits on a dead future |
| SingleFlight.OwnerPopsItsOwnEntry | backend/app/core/cache.py:67-86 | When a factory exits, the entry popped is the owner's own, no other key is touched, and every waiter on it can resume |
| SingleFlight.ServedValuesAreProduced | backend/app/core/cache.py:53-55 | Every returned value came from a factory of that key, and a hit is younger than the time to live; errors are never cached |
| SingleFlight.FreshValueIsServed | backend/app/core/cache.py:50-86 | Over runs: after a factory of a key has returned, until another value of the key is stored or it is invalidated, a call returns that value and starts nothing if and only if less than the time to live has passed |
| SingleFlight.InvalidatedValueIsNotServed | backend/app/core/cache.py:88-98 | Over runs: after all keys or this key are invalidated, no call returns a cached value until a factory of the key has returned |
| SingleFlight.MissJoinsOrStarts | backend/app/core/cache.py:56-63 | After any run, a call that is not served awaits the future of the factory that runs for its key, and starts a factory of its own when none runs |
| SingleFlight.FailureIsNotCached | backend/app/core/cache.py:67-72 | A factory that raises makes its owner raise the same, leaves the cache alone, and the next call for the key is served from it or starts afresh |
| SingleFlight.WaiterRaisesToo | backend/app/core/cache.py:67-71 | Whenever a waiter nobody cancelled resumes, it raises what its factory raised, or the cancellation that had settled the future before |
| SingleFlight.ExitsDrain | backend/app/core/cache.py:62-86 | No deadlock: while anyone is suspended some exit is enabled, and each exit frees exactly one caller |
| SingleFlight.WaiterSharesExactlyWhenPending | backend/app/core/cache.py:70-78 | Whenever a waiter resumes, and whatever others do until then, it receives its factory's value if and only if no cancelled waiter had settled the future before the factory returned |
| SingleFlight.UncancelledWaitersShare | backend/app/core/cache.py:62-78 | When no waiter was cancelled before the factory returned, every waiter returns what its owner's factory returned, whenever it resumes |
| SingleFlight.CancelledWaiterPoisonsOthers | backend/app/core/cache.py:62-63 | A run in which a waiter nobody cancelled raises a cancellation while the owner returns a value |
| SingleFlight.StepKeepsInv | backend/app/core/cache.py:45-98 | Every step keeps: each table entry names a future whose owner is suspended in the factory for it, each pending future is in the table, cache and results hold produced values only |
| AsyncTtlCache.AsyncTTLCache.Begin | backend/app/core/cache.py:50-63 | A fresh value of the key is returned and changes nothing, a running factory's future is joined and changes nothing, else a new pending future is entered; this is the call step, and the lock is free at its end, so taking it never suspends |
| AsyncTtlCache.AsyncTTLCache.Complete | backend/app/core/cache.py:65-86 | After the factory: value stored only on success, a done future untouched, the entry popped on every path, lock free again |
| AsyncTtlCache.AsyncTTLCache.Drop | backend/app/core/cache.py:88-98 | Invalidation removes cached values and leaves futures in flight alone |
| LiveTasks.TotalFitsPayload | backend/app/services/live_cache.py:72-132 | In every interleaving, with lost updates, failed writes and aborted tasks: the payload is empty and there is no total, or the total is the rounded sum of the payload's positions |
| LiveTasks.OneTaskPerKind | backend/app/services/live_cache.py:456-469 | At most one full refresh, one refresh per section and one per wallet runs for a user |
| LiveTasks.QuietRowIsNotRefreshing | backend/app/services/live_cache.py:354-433 | When final saves succeed and tasks are not aborted, a row no task is working on is ok or error, never refreshing |
| LiveTasks.RefreshingExactly | backend/app/services/live_cache.py:72-132 | After any run, with failed writes and aborted tasks, the row is refreshing if and only if the last write that reached the database is a status write (or nothing was saved over a row that was refreshing before) |
| LiveTasks.CompletedRunIsNotMarked | backend/app/services/live_cache.py:545-594 | A run whose final saves succeed and whose tasks are all through does not end with a status write |
| LiveTasks.FailedSaveSticks | backend/app/services/live_cache.py:399-412 | An input at which the row is left refreshing: one full refresh whose final save fails, and nothing running |
| LiveTasks.StepKeepsCovered | backend/app/services/live_cache.py:545-594 | Every step but a failed final save keeps a refreshing row covered by a task that has yet to save |
| LiveTasks.StepKeepsCoherent | backend/app/services/live_cache.py:654-734 | Every step keeps the row and every copy a suspended task holds with a total that fits its payload |
| LivePayload.SumSectionsTotal | backend/app/services/live_cache.py:243-255 | The accumulated total is the rounded sum over all sections, missing and malformed values left out, whatever the order of sections |
| LivePayload.SumOfOne | backend/app/services/live_cache.py:243-255 | A position with a number counts for that number, one without or with a malformed value for nothing |
| LivePayload.DeriveSectionNotes | backend/app/services/live_cache.py:307-351 | The notes are those of the four sources, each a function of its section's data, in this order |
| LivePayload.CommodityHealthNotes | backend/app/services/live_cache.py:344-349 | Gold without a price is always noted, silver only where there are commodities to value, in that order |
| LivePayload.NotesOfOne | backend/app/services/live_cache.py:318-342 | A fund is noted exactly when its price is known to be missing, a stock exactly when its price is stale |
| LivePayload.NotesOfBoth | backend/app/services/live_cache.py:318-342 | The notes of a longer list are those of its parts in order, so each position is noted on its own |
| LivePayload.ManualCryptoNotes | backend/app/services/live_cache.py:274-304 | The dictionary of prices is built once, and each linked holding gets one note: linked price if the dictionary has a positive one for it, else no price |
| LivePayload.PricesByKey | backend/app/services/live_cache.py:276 | The dictionary keyed by exchange and symbol answers like a search for the last matching position |
| LivePayload.LastMatchDecides | backend/app/services/live_cache.py:276-280 | A holding's price is that of the matching position with no later match, and zero without a match |
| SectionRefresh.DerivedNotesAreLocal | backend/app/services/live_cache.py:307-351 | The notes with source `s` depend on section `s` alone |
| SectionRefresh.SectionRefreshFrames | backend/app/services/live_cache.py:564-592 | A section refresh replaces its body and its notes; the other five sections and the notes of every other source stay; the total fits |
| SectionRefresh.EachSectionSettles | backend/app/services/live_cache.py:531-594 | After any sequence of section refreshes each refreshed section is stored with its result and its notes |
| SectionRefresh.OneByOneMatchesFull | backend/app/services/live_cache.py:138-209 | Refreshing every section one at a time, in any order, gives payload and total of one full refresh; the same multiset of notes if and only if the full refresh derives none from a placeholder |
| SectionRefresh.CrashedCommoditiesTellThemApart | backend/app/services/live_cache.py:387-398 | An input at which the notes differ: only the commodities crash |
| SectionRefresh.FullNotesBySource | backend/app/services/live_cache.py:387-398 | The notes of a full refresh, source by source: the failure note of a crashed section, then those derived from its body unless everything has crashed |
| WalletRefresh.PatchWalletsSection | backend/app/services/live_cache.py:696-717 | The patched section: others' positions in order then the new ones, new error keys overwritten, the wallet's own entry replaced |
| WalletRefresh.WalletRefreshFrames | backend/app/services/live_cache.py:689-734 | Every other wallet keeps its positions in order and its error entry, its own are replaced, other sections stay, old `errors` keys stay |
| WalletRefresh.WalletRefreshIsIdempotent | backend/app/services/live_cache.py:689-734 | Refreshing again later with the same result stores what the later refresh alone stores |
| WalletRefresh.WalletRefreshesCommute | backend/app/services/live_cache.py:689-734 | Refreshes of two wallets commute up to the order of positions, with equal totals and entries; the `errors` maps agree if and only if the results do on common keys |
| WalletRefresh.SharedPrefixDoesNotCommute | backend/app/services/live_cache.py:703-710 | An input at which the order shows: two wallets whose addresses share ten characters and whose messages differ |
| WalletRefresh.RecoveryKeepsErrorKey | backend/app/services/live_cache.py:703-717 | An input at which a recovered wallet keeps its key in `errors` and loses its entry in `wallet_errors` |
| StoredRows.FullRowStores | backend/app/services/live_cache.py:387-410 | With one section computed the row is ok, has no error and a new `refreshed_at`; with all crashed it is an error with the outage text and the old `refreshed_at`; in both it holds every section's body or placeholder, the rates and a total that fits |
| StoredRows.SectionRowStores | backend/app/services/live_cache.py:564-592 | The row is ok and freshly dated, its section is the result or the placeholder, and rates and the other five sections are those read |
| StoredRows.WalletRowStores | backend/app/services/live_cache.py:693-732 | The row is ok and freshly dated, rates and all sections but that of the wallets are those read |
| StoredRows.OtherRowsStore | backend/app/services/live_cache.py:72-132 | An error mark keeps payload, rates, notes and total read and the row's `refreshed_at`; an unchanged save does so at ok; a status write changes the status alone |
| SequentialRefreshes.SectionRunMatchesFullRun | backend/app/services/live_cache.py:531-594 | From any idle world, in any order: the run that refreshes every section alone and the run of one full refresh end with the same payload and total, and with the same notes if and only if the full refresh derives none from a placeholder |
| SequentialRefreshes.EachIsARun | backend/app/services/live_cache.py:541-592 | Section refreshes one after the other (trigger, status write, read, save) are a run of the step system that leaves the row of their composition |
| SequentialRefreshes.FullRun | backend/app/services/live_cache.py:354-412 | From any idle world a full refresh alone is a run, and at its end the row is ok, dated and complete as soon as one section is there, or the outage error over the old date when none is |
| SequentialRefreshes.FailedFullRun | backend/app/services/live_cache.py:378-385 | A full refresh that fails or times out keeps payload, rates, notes, total and date of the row and marks the error |
| SequentialRefreshes.FailedWalletRun | backend/app/services/live_cache.py:664-687 | A wallet refresh that raises leaves every column as it was, at ok |
| SequentialRefreshes.UnmarkedFullRun | backend/app/services/live_cache.py:356-361 | A full refresh whose status write fails gives up and leaves the row alone |
| SequentialRefreshes.UnmarkedSectionRun | backend/app/services/live_cache.py:544-592 | A section refresh whose status write fails stores its section all the same |
| SequentialRefreshes.UnmarkedWalletRun | backend/app/services/live_cache.py:654-672 | A wallet refresh whose status write fails and whose compute raises leaves no row where there was none |
| SequentialRefreshes.StaleCopyIsSaved | backend/app/services/live_cache.py:564-592 | Whatever other tasks do between the read and the save of a section refresh, the save stores the rates and other sections of the row read |
| SequentialRefreshes.WalletRunsCommute | backend/app/services/live_cache.py:654-734 | The runs that refresh two wallets in either order end with the same positions, entries and total |
| LiveCacheStore.LiveCache.TriggerRefresh | backend/app/services/live_cache.py:597-618 | A task starts if and only if the dictionary names no running one, and is then the one it names |
| LiveCacheStore.LiveCache.OnDone | backend/app/services/live_cache.py:614-618 | The done callback removes the entry only if it still names this task |
| LiveCacheStore.LiveCache.SetStatusRefreshing | backend/app/services/live_cache.py:72-87 | Every column but the status of an existing row is kept; a new row is empty, without total, error or date |
| LiveCacheStore.LiveCache.SaveResult | backend/app/services/live_cache.py:90-132 | Every column is replaced, `refreshed_at` only when asked to |
| LiveCacheStore.LiveCache.GatherSections | backend/app/services/live_cache.py:176-209 | Results or placeholders for all six sections, their total, and one failure note per crashed section in section order |
| LiveCacheStore.LiveCache.SaveFullRefresh | backend/app/services/live_cache.py:387-410 | With a section computed: ok, no error, dated now. With all crashed: the outage error and the date before. Either way all six bodies or placeholders, the rates, and a total that fits |
| LiveCacheStore.LiveCache.SaveSectionRefresh | backend/app/services/live_cache.py:564-592 | Its section is the result or the placeholder, the other sections and the rates are those read; ok and dated now even when it has crashed |
| LiveCacheStore.LiveCache.SaveWalletRefresh | backend/app/services/live_cache.py:693-732 | The wallets section is patched, the other sections and the rates are those read; ok and dated now |
| LiveCacheStore.LiveCache.SaveUnchanged | backend/app/services/live_cache.py:669-687 | Payload, rates, notes, total and date stay, with status ok and no error |
| LiveCacheStore.LiveCache.MarkError | backend/app/services/live_cache.py:415-433 | Payload, rates, notes and total read and the row's date stay, with status error and the message; nothing read means an empty payload |
| RateTable.TableStaysFaithful | backend/app/services/historical_rates.py:71-116 | Over any sequence of calls every stored row is a positive publication that is not TRY, a stored day is stored whole, and no row is removed or changed |
| RateTable.BulkAgreesWithSingle | backend/app/services/historical_rates.py:230-265 | A rate the bulk call returns is the one the single lookup returns on the same table; a date it leaves out has no rate in the window |
| RateTable.RepeatedRateIsStable | backend/app/services/historical_rates.py:136-172 | Asking again for the same rate gives the same answer and stores nothing more |
| RateTable.HistoricalRateMeans | backend/app/services/historical_rates.py:136-172 | The answer without its loop: the newest stored rate however old; with none, the newest publication of the last seven days and the day itself is stored whole and decides even when it lacks the currency; else no rate and nothing stored |
| RateTable.UpsertedRows | backend/app/services/historical_rates.py:71-100 | After an upsert a row is there exactly if it was before or is a positive rate other than TRY of an upserted day, and its value is then the day's |
| RateTable.EnsuredRows | backend/app/services/historical_rates.py:103-116 | A caching pass adds exactly the positive rates other than TRY of those days that had no row at all, and changes no row |
| RateTable.BulkMeans | backend/app/services/historical_rates.py:230-265 | The bulk call without its loops: exactly the dates that no stored rate covers are fetched and stored whole, and a date is answered, by the newest stored rate, exactly when it is covered then |
| RateTable.WindowAgrees | backend/app/services/historical_rates.py:119-133 | A lookup in a window that finds a rate finds the one the unbounded lookup finds |
| RateTable.ScanFindsLookup | backend/app/services/historical_rates.py:216-227 | The last entry not after a date in the ascending list of a window is the newest stored rate of the window |
| RateTable.LatestOnOrBefore | backend/app/services/display_currency.py:104-112 | The scan that stops at the first later entry returns the last entry not after the date |
| RateStore.Store.UpsertRates | backend/app/services/historical_rates.py:71-100 | A row is there exactly if it was or is a positive rate other than TRY of the day, whose rate it then holds; every other row stays |
| RateStore.Store.EnsureDateCached | backend/app/services/historical_rates.py:103-116 | A day with any row is left alone, any other gets its publication |
| RateStore.Store.GetHistoricalRate | backend/app/services/historical_rates.py:136-172 | The newest stored rate however old, else that of the first publication within seven days back, which is stored; no rate if that lacks the currency |
| RateStore.Store.ForwardFillDates | backend/app/services/historical_rates.py:175-194 | Exactly the dates with an earlier or equal publication are filled, each with the newest |
| RateStore.Store.GetHistoricalRatesBulk | backend/app/services/historical_rates.py:230-265 | One window for all dates; missing dates are fetched and stored, then every date is filled again |
| RateStore.Store.BackfillDates | backend/app/services/historical_rates.py:268-297 | Stores the days without rows and returns how many of them had a publication |
| ConversionService.HistoricalRateMatrix | backend/app/services/display_currency.py:56-101 | Every date is cached once, and the matrix holds exactly the rates a lookup in the window finds; nothing is fetched without dates or currencies |
| ConversionService.CollectNeeded | backend/app/services/display_currency.py:195-209 | Dates: those of records neither in the display currency nor of a recorded lira amount shown in lira. Currencies: theirs and the display currency, lira left out |
| ConversionService.NoMiss | backend/app/services/display_currency.py:122-166 | What was prefetched is what is looked up: no record misses a rate the table has |
| ConversionService.ConvertRealized | backend/app/services/display_currency.py:169-216 | The total is, rounded half up once, a sum of worths at the newest rates stored back to seven days before the first date that needs one: a worth times the display rate is the amount times the record's rate, a record in the display currency or of a recorded lira amount needs no rate, a missing rate gives zero; exactly the needed days are cached |
| Conversion.WorthExactly | backend/app/services/display_currency.py:122-160 | The value of a record is the one number that is its worth at two rates, present or missing |
| Conversion.ConvertedMeans | backend/app/services/display_currency.py:169-216 | The definition behind the batch has that meaning for every table, publisher and batch, also where nothing needs a rate |
| Conversion.GroupedTotalIsSum | backend/app/services/display_currency.py:237-243 | The grouped total is the sum of the groups' values, one for each key that occurs |
| ConversionService.GroupRows | backend/app/services/display_currency.py:230-236 | Each key's records are kept in the order of their rows, keys in the order of their first row |
| ConversionService.ConvertRealizedGrouped | backend/app/services/display_currency.py:219-243 | One batch per key, each on the table the one before has left, and the sum of the results |
| Conversion.BatchIndependenceExactly | backend/app/services/display_currency.py:73-101 | The rate a record finds is the same in every batch that contains its date if and only if no publication displaces it |
| Conversion.RecentPublicationIsNotEnough | backend/app/services/display_currency.py:73-80 | A publication one day before does not suffice: alone the record finds no rate, beside a record of that day it does |
| Conversion.PublishedDayIsStable | backend/app/services/historical_rates.py:103-116 | A publication on the record's own day makes its rate independent of the batch |
| Conversion.CoveredDayIsStable | backend/app/services/display_currency.py:77-80 | A rate stored within seven days, with nothing published for the currency since, makes the day's rate independent of the batch: an ordinary weekend |
| Conversion.StableBatch | backend/app/services/display_currency.py:195-216 | A batch of stable records is the rounded sum of the records' own values, whatever the table has grown to |
| Conversion.GroupsPartition | backend/app/services/display_currency.py:230-242 | Grouping loses and repeats no record: the groups' values add up to all records' values |
| Conversion.GroupsRoundOnce | backend/app/services/display_currency.py:239-242 | Each group is converted as it would be alone, and all roundings together move at most half a cent per group |
| Conversion.GroupingErrorBound | backend/app/services/display_currency.py:219-243 | With k keys the grouped total differs from the ungrouped conversion by at most floor((k + 1) / 2) cents |
| Forecast.ForecastToTryIsConvertToTl | backend/app/services/display_currency.py:246-285 | A forecast shown in lira equals `convert_to_tl` on every amount, currency and rate table |
| Forecast.LiraForecastIsTlToDisplay | backend/app/services/display_currency.py:288-302 | A lira forecast and a lira total are shown alike, fallback included |
| Forecast.ForecastMeans | backend/app/services/display_currency.py:246-285 | What is shown, before rounding half up: times the display rate it is the amount times the currency's rate, or the dollar's where that is missing; lira without a display rate; zero without either |
| Forecast.CompleteRates | backend/app/services/currency.py:52-74 | With fallback and a dollar rate every supported currency gets a positive rate, its own where it had one; without either only TRY changes |
| Money.HalfUpExact | backend/app/services/display_currency.py:45-47 | The rounding is exactly ROUND_HALF_UP to cents: within half a cent, ties away from zero |
| Money.HalfEvenExact | backend/app/services/live_cache.py:243-255 | The rounding of `quantize` and `round` is exactly half to even: within half a unit, the even neighbour at a tie |
| Recurrence.IterDuePeriods | backend/app/services/recurrence.py:55-70 | The loop with carry yields exactly the calendar's periods, ascending: months from the start on that do not begin after the end, all, every third, sixth or twelfth, the listed ones or the start alone by rule, on the day of the month or a shorter month's last day, once that day has come |
| Recurrence.EnumerationIsExact | backend/app/services/recurrence.py:16-70 | Over all time, a period is yielded if and only if the definition applies in its month and its clamped day is not after today |
| Recurrence.DueExactly | backend/app/services/recurrence.py:16-52 | The definition that enumerates is the calendar's: due by its tests if and only if by distance in months, end month, rule and day |
| Recurrence.MonthLengths | backend/app/services/recurrence.py:18-20 | Thirty days hath September, and February 28, or 29 in the leap years of the Gregorian calendar |
| Recurrence.EnumerationAscends | backend/app/services/recurrence.py:55-70 | Periods come in strictly increasing order, without duplicates, and so do their dates |
| Recurrence.EarlierIsPrefix | backend/app/services/recurrence.py:55-70 | What is due today is a prefix of what is due on any later day |
| Recurrence.RulesNest | backend/app/services/recurrence.py:32-39 | Yearly implies biannual implies quarterly implies monthly |
| Recurrence.OccurrencesPerYear | backend/app/services/recurrence.py:27-42 | After its start year an open-ended definition occurs 12, 4, 2 or 1 times a year, a custom one once per distinct valid month, any other never |
| Recurrence.WeightsAddUp | backend/app/services/budget_planner.py:258-259 | Twelve monthly weights are within six cents of the year's load |
| Actuals.MonthIsPartOfYear | backend/app/services/budget_planner.py:113-176 | A category's rows of the month query are its rows of the year query that fall in the month |
| Actuals.OneMoreExpense | backend/app/services/budget_planner.py:113-162 | One more row enters the year's and the month's query exactly when its date lies there and it is not a card expense that has been paid |
| Actuals.OneMoreAmount | backend/app/services/budget_planner.py:117-131 | In lira it adds its recorded lira amount |
| Actuals.ExpenseIsWorth | backend/app/services/budget_planner.py:139-151 | In another currency it goes into the conversion with its amount, currency, date and recorded lira amount |
| Actuals.NextDayIsOneLater | backend/app/services/budget_planner.py:161-162 | Dates are numbered without gaps over month ends and leap days, so that ranges of dates are ranges of days |
| Actuals.KeyRoundTrip | backend/app/services/budget_planner.py:150-155 | Splitting a key at its last bar gives back category and month, also for categories with bars |
| Actuals.LiraEntriesAgree | backend/app/services/budget_planner.py:117-176 | In lira the year table's entry for a month is the month table's entry |
| Actuals.DisplayEntriesAgree | backend/app/services/budget_planner.py:139-189 | In another currency the entries agree too, when every needed rate is stable on a table from which both reports' tables have grown, in either order |
| Actuals.MonthTableAddsUp | backend/app/services/budget_planner.py:163-176 | The month table adds up to the month's counted expenses |
| BudgetPlanner.ResolveCategoryBuckets | backend/app/services/budget_planner.py:81-88 | Defaults, overridden exactly where an override names a bucket |
| BudgetPlanner.FillRow | backend/app/services/budget_planner.py:291-327 | One category's row shows its twelve cells and their sums, and adds each cell to its month's column |
| BudgetPlanner.BuildGrid | backend/app/services/budget_planner.py:267-337 | One row for every category of the lists, the lines and the actuals, showing its bucket, its twelve planned and actual cells and their sums; columns and rows give the same grand totals for planned and actual |
| BudgetPlanner.RowsAndColumnsAgree | backend/app/services/budget_planner.py:285-327 | Adding up by rows or by columns gives the same total, for any cells |
| BudgetPlanner.NoLineIsLost | backend/app/services/budget_planner.py:272-304 | The planned total is the sum of all budget lines of the year |
| BudgetPlanner.NoExpenseIsLost | backend/app/services/budget_planner.py:278-307 | In lira the actual total is the sum of the year's counted expenses |
| MonthlyBuckets.BuildView | backend/app/services/budget_planner.py:370-442 | Each category is shown in the one bucket it belongs to, with exactly one row of its plan and actual there unless it is an empty savings row, then the weights of the bucket in order; the buckets' actuals add up to all expenses |
| MonthlyBuckets.AddWeighted | backend/app/services/budget_planner.py:397-412 | Weights raise only the budget of their bucket, and their rows follow the categories' rows in order |
| MonthlyBuckets.HomesPartition | backend/app/services/budget_planner.py:372-394 | Each category is at home in exactly one bucket: the buckets' sums are the sum over all categories |
| MonthlyBuckets.BudgetsAddUp | backend/app/services/budget_planner.py:372-412 | The buckets' budgets together are all plans and all weights |
| MonthlyBuckets.WeightedPeriodicForYear | backend/app/services/budget_planner.py:226-261 | One weight for each periodic plan that occurs in the year |
| MonthlyBuckets.WeightOfPlan | backend/app/services/budget_planner.py:253-260 | What an open-ended plan adds in a later year: nothing if it happens monthly or once, else a twelfth of its occurrences times its forecast |
| MonthlyBuckets.TwelveWeightsAreTheLoad | backend/app/services/budget_planner.py:253-261 | Twelve months of all weights are the year's load within six cents per row |
| MonthlyBuckets.LiraViewsAgree | backend/app/services/budget_planner.py:278-414 | In lira, for every expense table: the grid's column of a month is the monthly view's expense total, and both are the month's counted expenses |
| MonthlyBuckets.PlannedByCategory | backend/app/services/budget_planner.py:350-363 | The month's planned dictionary holds exactly the categories with a line and shows the forecast of it |
| MonthlyBuckets.PlannedViewsAgree | backend/app/services/budget_planner.py:295-363 | For all lines: the grid's planned column of a month is the sum of the monthly view's plans, whatever categories either lists |
| MonthlyBuckets.DisplayViewsAgree | backend/app/services/budget_planner.py:278-433 | In another currency the two agree when every needed rate is stable on a table from which both reports' tables have grown, whichever report comes first |
| CreditLedger.BalanceIsLedgerSum | backend/app/core/credits.py:21-99 | In any interleaving a committed balance is the opening balance plus the user's committed rows, and never negative |
| CreditLedger.BalanceMovesWithLedger | backend/app/core/credits.py:21-99 | Over any further run a balance moves by exactly the sum of the rows committed meanwhile, and the ledger only grows |
| CreditLedger.OnlyCommitsReachTables | backend/app/core/credits.py:21-99 | Every step but a commit leaves committed balances, ledger and advices unchanged; a rollback also ends its transaction |
| CreditLedger.LedgerIsWhatWasCommitted | backend/app/core/credits.py:21-99 | Over any run the ledger is the old one followed by the rows of exactly the committed transactions, in commit order; without a commit nothing changes |
| CreditLedger.RolledBackRunLeavesNothing | backend/app/api/v1/advice.py:101-129 | Whatever was deducted, added or flushed, a rollback after a run without commits leaves the books of its start |
| CreditLedger.FailedOnlyRollsBack | backend/app/api/v1/advice.py:101-129 | A transaction that has failed can only be rolled back |
| CreditLedger.KeyCreditedOnce | backend/app/core/credits.py:78-98 | An idempotency key is committed at most once, also when two adds pass the pre-check together |
| CreditLedger.LosingAddIsRefused | backend/app/core/credits.py:78-98 | The add that lost that race waits for the winner's insert and is refused once the winner has committed |
| CreditLedger.AdviceChargedOnce | backend/app/api/v1/advice.py:93-129 | A committed advice has exactly one debit, of its user and its cost; no committed row refers to an advice that is not committed |
| CreditLedger.AskedExactly | backend/app/api/v1/advice.py:64-68 | A request passes the check before the model exactly when the committed balance covers the cost, and fails otherwise |
| CreditLedger.RowLockIsExclusive | backend/app/core/credits.py:38 | Two open transactions never hold the same user row |
| CreditLedger.StepKeepsInv | backend/app/core/credits.py:21-99 | Every step keeps books, keys, charges and locks consistent, for committed tables and open transactions |
| CreditLedger.AdviceRun | backend/app/api/v1/advice.py:64-129 | One request's steps in sequence are a run that charges one advice |
| CreditSession.Session.DeductCredits | backend/app/core/credits.py:21-57 | Refuses an amount that is not positive, an unknown user and a balance that is too small without a ledger row; else balance and row move together |
| CreditSession.Session.AddCredits | backend/app/core/credits.py:60-99 | A known key changes nothing and returns the balance; else balance and row move together |
| CreditSession.Session.GenerateAdvice | backend/app/api/v1/advice.py:64-129 | Check, ask the model, charge, with others committing in between: charged exactly when the balance suffices at the check, the model answers, and it still suffices at the deduction |
| CreditSession.Session.ChargeAdvice | backend/app/api/v1/advice.py:93-129 | Flush, deduct, commit: advice, ledger row and balance move together, or a late refusal leaves nothing but the used id |
| CreditSession.ChargingIsARun | backend/app/api/v1/advice.py:93-129 | Charged or refused, those steps are a run of the step system that ends in the same tables |
| LatencyStats.PercentileMonotone | backend/app/core/perf_metrics.py:35-50 | The interpolated percentile is nondecreasing in the percentage |
| LatencyStats.PercentileInRange | backend/app/core/perf_metrics.py:35-50 | It lies between minimum and maximum and reaches them at 0 and 100 |
| LatencyStats.PercentileIsQuantile | backend/app/core/perf_metrics.py:35-50 | At a whole rank the percentile is the measurement of that rank, between two it lies between them in proportion |
| LatencyStats.SortedIsUnique | backend/app/core/perf_metrics.py:69-69 | There is one sorted arrangement of a buffer, so the statistics depend on its measurements alone |
| LatencyStats.StatsDescribe | backend/app/core/perf_metrics.py:69-77 | The reported numbers are count, median, 95th and 99th percentile and maximum of the buffer, rounded half to even, beside the counter of slow ones |
| LatencyStats.ReportedInOrder | backend/app/core/perf_metrics.py:69-77 | Whatever was measured, the reported p50 <= p95 <= p99 <= max, and the count is the buffer's |
| LatencyStats.Tracker.Record | backend/app/core/perf_metrics.py:53-59 | After any sequence of measurements each route's buffer holds exactly its last min(n, 1000) durations and its counter all slow ones |
| LatencyStats.Tracker.Snapshot | backend/app/core/perf_metrics.py:62-78 | Exactly the measured routes are reported, each with count, quantiles and maximum of its last thousand durations and its number of slow ones |
| LatencyStats.Tracker.Reset | backend/app/core/perf_metrics.py:81-85 | A reset forgets every measurement |
| PortfolioWeights.SumAssetTotal | backend/app/services/live_cache.py:925-932 | The accumulated total is the exact sum of the positions' values, and its rounding |
| PortfolioWeights.QuantitiesCountAlike | backend/app/services/aggregator.py:342-349 | Liquid, staked and pending quantities count at one price, the lira price or else the dollar price times the rate |
| PortfolioWeights.WeightExactly | backend/app/services/aggregator.py:350-364 | A weight is the percentage of the total, rounded half to even, and zero without a total |
| PortfolioWeights.WeightsFollowTheSum | backend/app/services/aggregator.py:342-366 | For any positive total, n rounded weights are within 0.005 n of the sum's own share |
| PortfolioWeights.WeightsSumToHundred | backend/app/services/snapshot.py:836-867 | With the unrounded total the weights sum to 100 within 0.005 n |
| PortfolioWeights.WeightsSumNearHundred | backend/app/services/live_cache.py:1030-1045 | With the rounded total T they sum to 100 within 0.005 n + 0.5 / T |
| Base64Url.ArrayBufferToBase64Url | frontend/lib/push-utils.ts:30-38 | No buffer encodes to the empty text, any other to the unpadded URL-safe text of its bytes |
| Base64Url.UrlBase64ToUint8Array | frontend/lib/push-utils.ts:12-24 | A new array with the decoded bytes, or none where the decoder rejects the text |
| Base64Url.DecodeOfEncode | frontend/lib/push-utils.ts:12-38 | Decoding the encoding of any bytes gives the bytes back |
| Base64Url.AlphabetTable | frontend/lib/push-utils.ts:30-38 | The characters of section 4 of RFC 4648 in the order of their values |
| Base64Url.UrlAlphabetTable | frontend/lib/push-utils.ts:30-38 | The characters of an encoding are those of section 5 of RFC 4648 in the order of their values |
| Base64Url.GroupIsOneNumber | frontend/lib/push-utils.ts:30-38 | Three bytes and their four sextets are the same number |
| Base64Url.ShortGroupsAreNumbers | frontend/lib/push-utils.ts:30-38 | A last byte becomes two sextets with four zero bits, two last bytes three with two zero bits |
| Base64Url.TextLength | frontend/lib/push-utils.ts:30-38 | n bytes take the ceiling of 4n / 3 characters: no padding |
| Base64Url.DecodeRejectsExactly | frontend/lib/push-utils.ts:12-24 | A text without white space and padding is rejected if and only if it has a stray character or leaves one character over |
| Base64Url.LeftoverBitsAreLost | frontend/lib/push-utils.ts:12-38 | An input that does not come back: `AB` decodes to one zero byte |
| Base64Url.EncodeOfDecodeExactly | frontend/lib/push-utils.ts:12-38 | Re-encoding a decoded text gives it back if and only if it is canonical: unpadded, of the URL-safe alphabet of section 5 of RFC 4648, with no leftover bits |

## Left out

- Network, XML, spreadsheets, mail, push delivery, chain and exchange clients, and the language model: their answers are arbitrary inputs.
- SQL and ORM mechanics beyond tables with unique keys, upserts, row locks, commit and rollback. A query returns rows in table order. `SELECT ... FOR UPDATE` reads the committed row, as its docstring intends; an object the session has loaded before and reuses is not modelled.
- Binary floats, 28-digit decimal contexts, NaN and infinities: exact reals. Ratios shown as floats (`pct_used`, `actual_ratio`, `target_ratio`) are not modelled.
- Upper-casing of currency codes and the empty code's default: codes are taken as normalized.
- `is_stale` and the triggers that skip a fresh row; the login trigger; timeouts, which are failures the step chooses.
- JSON fields the refresh code never reads, message texts and levels of notes (functions of the modelled fields), and fields of the row that are only copied. An absent `errors` or `wallet_errors` object is the empty one.
- Reads of the row that fail inside a task, other than as an aborted task.
- The sort order of categories in the two reports, a bucket's own difference of budget and actual, and the user filter of the queries: the rows given are one user's.
- `normalize_display`, `get_settings_resolved` and `_income_total_month`: one-branch lookups; income is an input.
- Calendar years outside 1 to 9999, where the source's dates raise.
- The holdings a snapshot collects, its replacement of the same day's snapshot and its preview; weights and total are proved for any list of positions.
- The TEFAS fallback, `gather_bounded`, authentication, encryption, migrations, schemas and the user interface.
- CreditLedger.LosingAddIsRefused: the unique index refuses the second insert; the error the client sees is not modelled.
- LatencyStats.Tracker.Record: the tracker's lock is not modelled, since no method suspends while holding it.
- Conversion.GroupingErrorBound: for rows whose rates are stable; without stability the groups may see different rates, as `Conversion.RecentPublicationIsNotEnough` shows.
- MonthlyBuckets.DisplayViewsAgree: for stable rates, for the same reason.
