# Energy dashboard: consumption, cost and source attribution in Dafny

This project models the computational core of an energy dashboard for a house
with a per-circuit eGauge meter, a time-of-use (TOU) electricity tariff and,
optionally, solar panels with a home battery reported through Home Assistant.

The meter reports **cumulative** register readings, one CSV row per timestamp.
The program does the following with them:

* differences adjacent readings into hourly consumption per circuit, taking the
  absolute difference because the counters may count down;
* labels every hour with a TOU period (peak 16–20 h, part-peak 15 h and
  21–23 h, off-peak otherwise) and prices it from a winter or summer rate table;
* aggregates per register and per day;
* for the dashboard, builds one day's per-hour and per-circuit costs. For today
  this includes a partial current hour, from one extra minute-resolution reading;
* ranks "shift to off-peak" opportunities;
* computes the live mix of supply sources;
* with solar data, spreads the cumulative solar, grid and battery counters of
  Home Assistant into hour buckets. The time between two readings is
  interpolated across hour boundaries;
* attributes each circuit's consumption to solar, grid and battery in
  proportion to each hour's supply, in two passes: battery economics first,
  then per-circuit costs;
* keeps a small TTL cache of results.

Modules, one per concern:

| module | file | models |
|---|---|---|
| `Util` | util.dfy | Option/Result, sums over maps and sequences, the stable sort the program's `sort`/`sorted` calls become |
| `Calendar` | calendar.dfy | timestamps as seconds, date/hour/hour-slot, the civil month |
| `Config` | config.py → config.dfy | TOU periods, seasonal rate tables, excluded registers |
| `Readings` | egauge_weekly_analysis.py → readings.dfy | CSV rows to readings, differencing labelled with the later reading |
| `Aggregates` | egauge_weekly_analysis.py → aggregates.dfy | `analyze_data`, `calculate_daily_totals` |
| `DeviceAnalysis` | device_analysis.py → device_analysis.dfy | the library's own differencing copy, per-register statistics, optimal cost, savings scenarios, before/after analysis |
| `SolarBuckets` | solar_integration.py → solar_buckets.dfy | `build_hourly_solar_data` with its in-place `hourly` dictionary (a class) |
| `SolarBlend` | solar_integration.py → solar_blend.dfy | `_compute_battery_charge_source`, `blend_egauge_with_solar` |
| `Dashboard` | app.py → dashboard.dfy | `DataCache` (a class), `fetch_egauge_today`, the opportunities block, the live source mix |

Timestamps are integer seconds. Local time is taken as UTC, so a date is
`t / 86400` (a day number, ordered like the program's `YYYY-MM-DD` strings),
an hour is `(t % 86400) / 3600` and an hour slot is `t / 3600`. Energies and
money are `real`. A CSV row arrives already split into cells: the timestamp is
`Option<int>` (None when `int()` would raise) and each cell is `Option<real>`
(None when `float()` would raise, read as 0.0). An exception that aborts a
computation is an `Err`/`None` result. A `KeyError` that the data's shape
rules out (every row of one CSV response shares its header, and the
dashboard's hourly and minute responses are taken to have the same columns)
is a precondition, `CanDiff`/`Differenceable`. `SameColumnsDifferenceable` and
`PreparedRowsDifferenceable` prove that parsed responses always meet it.

Points where the copies of one computation, or the code and its own
comments, differ:

* The batch copies label an hourly slot with the *later* reading's date,
  hour and TOU period (egauge_weekly_analysis.py:115-120,
  device_analysis.py:69-74). The dashboard copy labels it with the *earlier*
  reading's (app.py:262-268). Both are modelled, as `Readings.LaterLabelled`
  and `Dashboard.EarlierLabelled`. `Dashboard.LabellingAcrossCopies` relates
  them: the same kWh, with labels one hour apart.
* Fewer than two readings give an empty hourly list, not an error.
* Solar data is `None` only when solar is not configured, or when the solar
  or grid-import history is missing or empty. A counter with fewer than two
  samples contributes nothing (solar_integration.py:163-165, 213-214).
* The difference loop reads `prev[key]` for every circuit key of `curr`,
  which would raise a `KeyError` on a key missing from `prev`. This is the
  precondition `CanDiff`.

## Model

| member | source | states |
|---|---|---|
| Config.TouPeriod | config.py:61-73 | peak iff 16 ≤ hour < 21, part-peak iff hour is 15 or 21..23, off-peak for every other hour (the mapping is total) |
| Config.TouHourSets | config.py:61-73 | over a clock day, peak is exactly {16..20}, part-peak exactly {15, 21, 22, 23}, off-peak exactly {0..14} |
| Config.Rate | config.py:79-82 | the summer table when the month is June–September, the winter table otherwise; every rate is positive |
| Config.RateTablesOrdered | config.py:43-55 | both tables are ordered peak ≥ part-peak ≥ off-peak > 0, and off-peak is the same in both seasons |
| Config.RateRange | config.py:44-55 | every rate of the year lies between the off-peak rate (the same in both seasons) and the summer peak rate |
| Config.PeakAboveOffPeak | config.py:79-82 | on every date the peak rate is strictly above the off-peak rate, which is positive |
| Calendar.HourOf | egauge_weekly_analysis.py:78-84 | the hour of a timestamp lies in 0..23 |
| Calendar.NextHour | egauge_weekly_analysis.py:78-86 | one hour later the hour label advances by one modulo 24, and the date advances exactly when the hour was 23 |
| Calendar.SlotOfTimestamp | solar_integration.py:229-230 | the (date, hour) key of a timestamp and its hour slot agree, so consumption hours join solar buckets by slot |
| Calendar.HourEnd | solar_integration.py:246 | the next hour boundary is after t, at most an hour later, and starts the next hour slot |
| Calendar.MonthOf | config.py:75-77 | the civil month of a day number is in 1..12 |
| Readings.ParseRow | egauge_weekly_analysis.py:77-95 | a row's labels are those of its timestamp; every non-timestamp column is kept, an unparsable cell reads 0.0 and the others keep their value |
| Readings.ParseCsvData | egauge_weekly_analysis.py:67-101 | fails iff some timestamp does not parse, naming the first such row; otherwise the parsed rows, stably sorted oldest first, a permutation of the input, every one well labelled |
| Readings.Delta | egauge_weekly_analysis.py:123-127 | one entry per circuit register of the later reading (energy key, not excluded), each the non-negative absolute difference |
| Readings.DiffRegisters | egauge_weekly_analysis.py:123-127 | the inner key loop computes exactly Delta |
| Readings.LaterLabelled | egauge_weekly_analysis.py:115-120 | the hour takes the later reading's timestamp, date, hour and TOU period, and the usage Delta |
| Readings.CalculateHourlyConsumption | egauge_weekly_analysis.py:103-131 | n readings give max(0, n − 1) records, record i being the later-labelled difference of readings i and i+1 |
| Readings.HourlyUsageIsCircuits | egauge_weekly_analysis.py:124-127 | every emitted usage is non-negative and keyed by a non-excluded "[kWh]" register |
| Readings.SameColumnsDifferenceable | egauge_weekly_analysis.py:72-100 | rows of one response, parsed and rearranged, can always be differenced |
| Aggregates.AddUsageConsistent | egauge_weekly_analysis.py:161-166 | one usage update keeps total kWh and cost equal to their TOU sums and the by-day kWh summing to the total |
| Aggregates.AccumulateConsistent | egauge_weekly_analysis.py:154-166 | after any hours, every register's totals equal the sums of its TOU breakdown and of its by-day kWh |
| Aggregates.AccumulateCostBounds | egauge_weekly_analysis.py:157-163 | with non-negative usage, 0.29780 × kWh ≤ cost ≤ 0.64639 × kWh |
| Aggregates.AccumulateUnseen | egauge_weekly_analysis.py:142-151 | a register no hour carries keeps the all-zero initial statistics |
| Aggregates.Finalize | egauge_weekly_analysis.py:169-176 | totals unchanged; percent × total = period kWh × 100 when the total is positive, percents untouched otherwise; averages × days = totals |
| Aggregates.FinalPercents | egauge_weekly_analysis.py:169-173 | the finalised percents add up to 100 when the total is positive and are all 0 otherwise |
| Aggregates.AccumulateHour | egauge_weekly_analysis.py:159-166 | one hour of the loop keeps the map equal to the accumulation of every register seen so far |
| Aggregates.AnalyzeData | egauge_weekly_analysis.py:137-178 | an error exactly when the day count is 0 and some hour carries an energy register (the `total / days` division); otherwise one entry per energy register seen, each the finalised accumulation of that register over all hours (none for a day count of 0 without registers) |
| Aggregates.AddToDayConsistent | egauge_weekly_analysis.py:199-206 | one register update keeps a day's total equal to its TOU sum and to its per-register sum |
| Aggregates.DayAfterHourConsistent | egauge_weekly_analysis.py:199-206 | a whole hour keeps the day consistent and its date unchanged |
| Aggregates.AddHourToDayCommutes | egauge_weekly_analysis.py:199-206 | the order in which an hour's registers are added does not change the day |
| Aggregates.DayMapKeys | egauge_weekly_analysis.py:194-206 | a date gets an entry exactly when one of its hours carries an energy register |
| Aggregates.DayMapConsistent | egauge_weekly_analysis.py:194-206 | every date's entry is keyed by its own date and is consistent |
| Aggregates.AddHourToDays | egauge_weekly_analysis.py:199-206 | the inner loop creates or updates the hour's date entry only when the hour has an energy register |
| Aggregates.AccumulateDays | egauge_weekly_analysis.py:194-206 | the loop builds exactly the per-date accumulation |
| Aggregates.InDateOrder | egauge_weekly_analysis.py:208-222 | the entries in strictly ascending date order, exactly the map's dates, each its date's entry |
| Aggregates.CalculateDailyTotals | egauge_weekly_analysis.py:180-224 | one entry per date with consumption, strictly ascending, each that date's accumulation |
| Aggregates.DailyTotalsConsistent | egauge_weekly_analysis.py:199-206 | each date's total kWh is its peak + part-peak + off-peak kWh and the sum of its register totals |
| DeviceAnalysis.ParseAndCalculateHourly | device_analysis.py:35-83 | fails iff a timestamp does not parse; otherwise n rows give max(0, n − 1) later-labelled records of the sorted readings |
| DeviceAnalysis.AppendAt | device_analysis.py:129 | appending to a group extends that group by the value and leaves the others alone |
| DeviceAnalysis.SumsAppendAt | device_analysis.py:129 | appending a value adds exactly that value to the sum of all groups |
| DeviceAnalysis.Mean | device_analysis.py:145 | mean × count = sum for a non-empty list, 0 for an empty one |
| DeviceAnalysis.ByHourTotal | device_analysis.py:117-129 | no hour group is empty, and the groups add up to the register's total kWh |
| DeviceAnalysis.DeviceFinalize | device_analysis.py:131-140 | as Finalize, but the averages are 0 when days ≤ 0 |
| DeviceAnalysis.GetRegisterStats | device_analysis.py:86-147 | the statistics are the finalised accumulation, the by-hour lists are the grouping, each hourly average is its list's mean |
| DeviceAnalysis.HourlyAveragesAddUp | device_analysis.py:142-145 | each hourly average × its count is that hour's sum, and the sums add up to the total kWh |
| DeviceAnalysis.CalculateOptimalCost | device_analysis.py:150-170 | the loop prices kWh × share at each period's rate, winter rates by default |
| DeviceAnalysis.DailyCostBounds | device_analysis.py:166-170 | with a proper distribution the cost lies between kWh × off-peak and kWh × peak |
| DeviceAnalysis.DailyCostMonotone | device_analysis.py:166-170 | the cost is monotone and additive in the kWh |
| DeviceAnalysis.GetTouDistribution | device_analysis.py:217-227 | (0.333, 0.333, 0.334) for a zero total, otherwise share × total = period kWh |
| DeviceAnalysis.DistributionSumsToOne | device_analysis.py:217-227 | the shares sum to 1 and, with non-negative usage, are non-negative |
| DeviceAnalysis.MakeScenario | device_analysis.py:199-212 | savings + target cost = current cost, excess + target = current kWh, week/month/year are 7/30/365 days |
| DeviceAnalysis.CalculateSavingsScenarios | device_analysis.py:173-214 | exactly three scenarios: low, midpoint, high |
| DeviceAnalysis.ScenarioSavingsOrdered | device_analysis.py:191-208 | a lower target never saves less |
| DeviceAnalysis.WrapAroundIsComplement | device_analysis.py:261-268 | a wrap-around filter keeps exactly the hours the swapped plain filter drops |
| DeviceAnalysis.BeforeAfterConservation | device_analysis.py:251-277 | each side's daily totals add up to its selected usage, and the two sides together to all selected usage |
| DeviceAnalysis.Summarize | device_analysis.py:276-292 | per-date sums, day count and mean of the daily totals (0 with no days) |
| DeviceAnalysis.PercentChange | device_analysis.py:295 | change × base = difference × 100 for a positive base, 0 otherwise |
| DeviceAnalysis.AnalyzeBeforeAfter | device_analysis.py:230-296 | both sides summarised from the filtered, split groups; difference and percent change as defined |
| SolarBuckets.Bucket.Add | solar_integration.py:234 | adds to one field and leaves the other four alone |
| SolarBuckets.Samples | solar_integration.py:201-211 | only entries with a numeric state and a timestamp, each taken from the history |
| SolarBuckets.AddAt | solar_integration.py:170-180 | creates the slot's zero bucket if missing, adds to it, changes no other slot |
| SolarBuckets.NextCut | solar_integration.py:245-248 | the cut is the end of t's hour or the current reading's time, whichever is sooner, and stays in t's hour |
| SolarBuckets.ApplyPairCases | solar_integration.py:224-257 | a drop or no change adds nothing; a rise within one hour goes wholly to it; a rise across hours is walked |
| SolarBuckets.OrderedPairNeverEmpty | solar_integration.py:236-239 | for time-ordered readings the `total_seconds <= 0` guard never fires: readings in different hour slots are strictly apart, so a rise goes to its one hour or to the walk |
| SolarBuckets.HourlySolar.constructor | solar_integration.py:168 | starts with no buckets |
| SolarBuckets.HourlySolar.EnsureBucket | solar_integration.py:170-180 | adds a zero bucket only if the slot has none |
| SolarBuckets.HourlySolar.Credit | solar_integration.py:233-234 | the dictionary becomes AddAt of the old one |
| SolarBuckets.HourlySolar.ProcessCumulative | solar_integration.py:193-259 | the buckets become Spread of the old ones; with fewer than two valid readings nothing changes |
| SolarBuckets.HourlySolar.Step | solar_integration.py:220-257 | one pair of readings updates the buckets as ApplyPair says |
| SolarBuckets.HourlySolar.WalkHours | solar_integration.py:241-257 | the hour walk updates the buckets as Walk says |
| SolarBuckets.ValidReadings | solar_integration.py:202-211 | the filtering loop yields exactly Samples |
| SolarBuckets.BuildHourlySolarData | solar_integration.py:132-267 | None iff not configured or the solar or grid-import history is missing or empty; otherwise the five counters spread in turn into one bucket map |
| SolarBuckets.AddAtTotals | solar_integration.py:253-254 | crediting x raises that field's total over all buckets by x and no other field's |
| SolarBuckets.PortionsAdd | solar_integration.py:250-251 | the portions of adjacent intervals add up |
| SolarBuckets.PortionWhole | solar_integration.py:237-251 | the portion of the whole interval is the whole delta |
| SolarBuckets.WalkTotals | solar_integration.py:241-257 | the walk credits exactly the interval's portion of the delta |
| SolarBuckets.PairTotals | solar_integration.py:220-257 | a pair of readings credits its field exactly the counter's rise, or nothing for a drop |
| SolarBuckets.ApplyAllTotals | solar_integration.py:217-257 | over sorted readings the field grows by exactly the sum of rises |
| SolarBuckets.SpreadTotals | solar_integration.py:193-257 | process_cumulative credits its field with exactly the sum of rises and no other field |
| SolarBuckets.BuildTotals | solar_integration.py:261-265 | every bucket field holds exactly the rises of its own counter |
| SolarBuckets.WalkGrows | solar_integration.py:241-257 | the walk only increases its field and only in the slots between the two readings |
| SolarBuckets.PairGrows | solar_integration.py:220-257 | one step only increases its field and touches only the slots it spans |
| SolarBuckets.ApplyAllGrows | solar_integration.py:220-257 | processing a counter never decreases any field and never changes another field |
| SolarBuckets.BuildNonNegative | solar_integration.py:261-265 | buckets built from nothing never hold a negative amount |
| SolarBuckets.SpreadNonNegative | solar_integration.py:193-257 | spreading keeps non-negative buckets non-negative |
| SolarBlend.ExportCredit | solar_integration.py:56-64 | the summer credit table in summer, the winter one otherwise, each at its default values |
| SolarBlend.ExportCreditBelowRate | solar_integration.py:35-41 | with the default credit tables, an exported kWh earns less than an imported one costs, and credits are ordered by period |
| SolarBlend.ChargeSource | solar_integration.py:280-310 | nothing without charging; otherwise solar and grid parts are non-negative, add up to the charge, and solar gives at most what was kept on site |
| SolarBlend.NoSolarMeansGridCharging | solar_integration.py:294-308 | with no solar kept on site, all charge is from the grid |
| SolarBlend.SolarOnlyHour | solar_integration.py:300-308 | with no import and no discharge, solar charges min(local solar, charge) and the grid the rest |
| SolarBlend.SourceMixShares | solar_integration.py:453-485 | an unmatched hour is all grid; zero supply gives all zeros; otherwise each share × supply = that source and the shares add up to 1 |
| SolarBlend.MixIsFractional | solar_integration.py:454-462 | with non-negative buckets every share is in [0, 1] |
| SolarBlend.ChargeConservation | solar_integration.py:336-365 | pass 1 attributes every kWh charged to exactly one of solar and grid; all totals non-negative |
| SolarBlend.EconomizeRatios | solar_integration.py:367-379 | cost per kWh × discharge = grid charge cost, efficiency × charge = discharge, solar % × charge = solar-charged × 100, each 0 when its divisor is not positive |
| SolarBlend.EconomicsBounds | solar_integration.py:367-379 | the solar percentage is in [0, 100] and the discharge cost is non-negative |
| SolarBlend.AddShares | solar_integration.py:504-522 | a split adds its kWh to the total and to its period and leaves the other periods alone |
| SolarBlend.AddSharesBalanced | solar_integration.py:504-522 | one split keeps a register's books balanced |
| SolarBlend.RegisterBlendBalanced | solar_integration.py:488-522 | actual cost = grid + battery cost, solar savings = full-rate − actual, and every total is the sum of its TOU breakdown |
| SolarBlend.RegisterBlendUnseen | solar_integration.py:386-401 | a register no hour carries keeps the zero statistics |
| SolarBlend.SourcesPartitionConsumption | solar_integration.py:453-502 | when every hour is unmatched or had supply, grid + solar + battery kWh = total kWh |
| SolarBlend.ZeroSupplyHourIsUnattributed | solar_integration.py:455-462 | a matched hour with zero supply adds consumption that no source is credited with |
| SolarBlend.GridCostAtMostFullRate | solar_integration.py:497-502 | with non-negative data the grid cost lies between 0 and the full-rate cost |
| SolarBlend.ActualCostCanExceedFullRate | solar_integration.py:499-513 | an hour supplied by a battery dearer than the rate costs more than the full rate (solar savings negative) |
| SolarBlend.SystemFoldBalanced | solar_integration.py:464-483 | every system total is the sum of its TOU breakdown |
| SolarBlend.ChargeFoldDischarge | solar_integration.py:355-356 | pass 1's discharge total is the sum over matched hours |
| SolarBlend.SystemFoldBatteryCost | solar_integration.py:470-474 | pass 2's battery cost is that discharge sum × the cost per kWh |
| SolarBlend.BatteryChargeCostPassedOn | solar_integration.py:370-373 | whenever the battery discharged, pass 2 charges exactly the grid-charging cost of pass 1, otherwise nothing |
| SolarBlend.ConsumptionStep | solar_integration.py:524-525 | adding kWh to one register adds it to the consumption columns |
| SolarBlend.ColumnsBalance | solar_integration.py:524-525 | the total consumption column is the sum of the three period columns |
| SolarBlend.BlendRegisters | solar_integration.py:489-525 | one hour's register loop keeps every register equal to its blend over the hours so far, and the consumption columns equal to their sums |
| SolarBlend.BlendEgaugeWithSolar | solar_integration.py:313-532 | None iff there is no solar data; otherwise pass 1 economics, pass 2 system totals at that discharge cost, per-register blends, consumption columns and net cost = grid + battery − export credit |
| SolarBlend.ConsumptionByPeriod | solar_integration.py:524-525 | the system's consumption is the sum of its TOU breakdown |
| Dashboard.DataCache.constructor | app.py:52-54 | an empty cache |
| Dashboard.DataCache.Get | app.py:56-60 | a value iff the key was stored and now − stamp < ttl, and then the stored value |
| Dashboard.DataCache.Set | app.py:62-64 | stores value and stamp for the key, is then fresh for any positive TTL, and changes no other key's answer |
| Dashboard.CacheExpiry | app.py:56-60 | a stored entry is returned exactly while its age is below the TTL |
| Dashboard.RowsCoverTargetDay | app.py:190-206 | the rows requested (one fewer delivered) reach back before the target day's first hour: one reading before 00:00 for today, the whole day for a past date |
| Dashboard.NameOfRegister | app.py:275 | stripping " [kWh]" from a register key gives back the circuit name |
| Dashboard.AppendPartialKeepsOrder | app.py:249-256 | the partial reading is appended iff it is today and it is strictly newer than the last row; the rows stay in time order and otherwise unchanged |
| Dashboard.EntryCircuits | app.py:262-278 | the entry takes the earlier reading's labels; one circuit per non-excluded energy register; kwh = absolute difference, cost = kwh × the rate of the earlier reading's date and TOU; both non-negative |
| Dashboard.EntryTotalsNonNegative | app.py:271-280 | an entry's total kWh and cost are non-negative |
| Dashboard.DiffEntry | app.py:263-281 | the key loop builds exactly the earlier-labelled entry, with totals the column sums of its circuits |
| Dashboard.DiffsShape | app.py:261-281 | n rows give max(0, n − 1) entries, entry i being the earlier-labelled difference of rows i and i+1 |
| Dashboard.DiffHours | app.py:261-281 | the diff loop builds exactly those entries |
| Dashboard.LabellingAcrossCopies | app.py:264-268 | for readings an hour apart, the dashboard and batch copies give the same kWh per circuit, labelled one hour apart (the next date after 23 h) |
| Dashboard.OnDate | app.py:283-284 | exactly the entries labelled with the target date |
| Dashboard.DiffsConsistent | app.py:279-284 | every kept entry is on the target date and its totals are the sums of its circuits |
| Dashboard.Rank | app.py:319-322 | one row per circuit, each carrying its own totals, sorted by cost descending |
| Dashboard.Shown | app.py:295 | exactly the circuits above 0.001 kWh |
| Dashboard.ViewHours | app.py:291-307 | one view per entry with its labels and totals, its shown circuits ranked by cost, and the partial flag iff today, hour = now's hour and date = target |
| Dashboard.MergeInto | app.py:310-312 | the circuit loop adds every circuit of an entry to its running total, starting from zero |
| Dashboard.AddUpDay | app.py:308-312 | the running day totals and circuit totals over all of the day's entries |
| Dashboard.SummarizeDay | app.py:286-323 | the report has the target date, one view per entry, the day totals, and the circuit totals ranked by cost |
| Dashboard.MergeSums | app.py:310-312 | merging an entry's circuits adds their column sums to the totals' sums |
| Dashboard.DayTotalsAgree | app.py:308-312 | the day's kWh and cost equal the sums of the per-circuit totals |
| Dashboard.PreparedRowsDifferenceable | app.py:246-256 | the sorted rows plus the partial reading can always be differenced |
| Dashboard.FetchEgaugeToday | app.py:172-325 | fails iff an hourly timestamp does not parse; otherwise the report on the target date's earlier-labelled entries of the sorted rows plus the partial reading |
| Dashboard.CandidatesExact | app.py:389-405 | a circuit yields an opportunity exactly when its peak share exceeds 20 % and its peak cost exceeds 1.0 |
| Dashboard.SavingsBounds | app.py:395-397 | shifting a positive peak cost saves more than 0 and less than the peak cost |
| Dashboard.SavingsShare | app.py:395-397 | shifting the peak usage saves between 40 % and 60 % of the peak cost in either season |
| Dashboard.RoundedSavingsBounds | app.py:393-401 | for a peak cost above 1.0 the saving rounded to cents is still positive and below the peak cost |
| Dashboard.OpportunitiesQualify | app.py:389-405 | every opportunity passes both thresholds; its saving is in whole cents, within half a cent of the exact saving, and strictly between 0 and its peak cost |
| Dashboard.RankOpportunities | app.py:389-406 | the candidates, each with its saving rounded to cents, stably sorted by that rounded saving descending: sorted and a permutation of them |
| Dashboard.RoundedTiesKeepListOrder | app.py:401-406 | savings are compared in whole cents: two circuits whose exact savings differ but round to the same cent keep their list order |
| Util.RoundCentsNearest | app.py:401 | `round(x, 2)` gives a whole number of cents at most half a cent from x |
| Dashboard.Supply | app.py:656-658 | a negative flow (charging battery, exporting grid) supplies 0, a positive one itself |
| Dashboard.LiveSourceMixShares | app.py:656-667 | with positive supply each percentage × total supply = 100 × its supply and they add up to 100; all 0 otherwise; each in [0, 100] |
| Dashboard.OutflowsAreNotSources | app.py:656-667 | solar alone while the battery charges and the grid exports is 100 % solar |

## Left out

- Fetching is not modelled: HTTP requests, retries and back-off, `asyncio`, subprocess calls, Home Assistant history and live XML. Their results are parameters (CSV rows, history entries, `Option` for a failed fetch).
- CSV splitting, `int()`/`float()` and ISO timestamp parsing are not modelled. A parse is an `Option` per cell or timestamp.
- Time zones and daylight saving are not modelled. Local time is taken as UTC.
- `round(...)` is modelled only where the program compares rounded values: the opportunities' savings are rounded to cents (`Util.RoundCents`, ties to the even cent on exact values, where Python rounds the binary float) before they are sorted, and the circuit figures the thresholds read arrive rounded (see `Dashboard.RankOpportunities`). Rounding for display elsewhere is not modelled; those values stay unrounded.
- The model uses real arithmetic, not floating point.
- Reports, email, charts, SQLite storage, scripts, the FastAPI/WebSocket server, `.env` loading and `print` diagnostics are not part of this model. The matched/unmatched hour counters are left out because they only feed a `print`.
- Dictionary and column order are not modelled, since maps are unordered. So the order among equal costs in the ranked lists is not stated.
- `Dashboard.DiffEntry`: circuits are keyed by register, not by stripped name, so two registers that strip to the same name do not overwrite each other as they would in the program. `NameOfRegister` proves that stripping recovers the name.
- `Dashboard.DiffEntry`: the total cost is proved to be the sum of the circuit costs. That it also equals total kWh × the hour's rate is not proved.
- `Dashboard.DataCache.Get`: the program's callers treat a falsy cached value as a miss. That check is the callers' and is left out. The clock is a parameter.
- `Dashboard.FetchEgaugeToday`: the cache lookup and store around it, the HTTP status check and the "return None after three failed attempts" path are left out. The partial reading is skipped when any of its rows has an unparsable timestamp, as the program's `try` does.
- `Dashboard.RankOpportunities`: the `circuits` list it reads is taken as input. The program builds it from `analyze_data`, sorted by total cost with names stripped, and rounds each period's cost to 2 decimals and its percent to 1 (app.py:357-373). So the `> 20` and `> 1.0` thresholds and the savings act on those rounded figures: a peak share of 20.04 % rounds to 20.0 and yields no opportunity. That rounding happens before the list is passed in. The opportunity's `peak_pct` and `peak_cost` are rounded again in the program, which changes nothing for figures already rounded, and are kept as given. `datetime.now()` is the date parameter.
- `SolarBuckets.HourlySolar.ProcessCumulative`: the unused `remaining` variable is left out. The `total_seconds <= 0` branch is modelled, in `ApplyPair`; `OrderedPairNeverEmpty` proves it is unreachable once the readings are sorted.
- `SolarBlend.ExportCredit`: the credit tables are the defaults of solar_integration.py:35-41 (0.16/0.14/0.12 in both seasons). A table configured under `solar.export_credits` is not modelled, so `ExportCreditBelowRate` holds for the default tables only.
- `SolarBlend.BlendEgaugeWithSolar`: the configured battery efficiency is the default 0.90 constant. The returned system dict rounds the battery solar percentage, the solar- and grid-charge kWh, the grid-charge cost, the measured efficiency and the energy lost (solar_integration.py:416-422); `Economize` keeps them unrounded. The system's consumption columns are kept beside the system totals rather than inside them.
