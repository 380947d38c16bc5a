# InfraCheck agent: a verified model

InfraCheck is a network appliance: it probes a site, stores what it finds, judges the site's
health, and reports. This project models the parts of its container agent that hold state, write
bytes or do arithmetic, and proves what they promise. `dafny verify dfyconfig.toml` checks
everything.

| files | what they model |
|---|---|
| `Text`, `SortedText`, `CleanList`, `Permutations`, `Wrappers` | decimal text, bytewise string order, sorting, cleaned lists, reorderings, options |
| `TimeText`, `TimeRead` | RFC 3339 time texts with trimmed fractions, how far their order strays from time, and that they read back |
| `AlertStore`, `AlertRuns`, `AlertClearing` | the `alert_records` table, every run of its operations, and clearing beyond the query's limit |
| `AlertDedupe`, `AlertKeys` | one alert shown for each group, and the table of topics that make the groups |
| `PdfFile`, `PdfReader`, `PdfProof`, `PdfString`, `PdfWriter` | the report writer, and an independent reader after ISO 32000-1:2008 that gets back what was written |
| `TextLayout`, `WrapWords` | wrapping, truncating and paging, and that words stay whole |
| `Averages`, `Downsample`, `Baseline` | chart points and the robust baseline |
| `EchoSession`, `EchoRuns`, `IperfServer`, `IperfRuns` | the two session managers under every interleaving, and what they do over a run, told from the events alone |
| `RuntimeConfig`, `RuntimeEffects` | configuration checked over defaults and applied over YAML, and what each request changes |
| `Discovery`, `Inventory` | merging observations, and the device tables with their event log |
| `Classifier`, `ClassifierRules`, `ServiceColumn`, `Reclassify`, `ScanRuns` | device classification as a table of rules, the services column as JSON that reads back, and classification fed back through stored services |
| `Latest`, `Verdicts`, `HealthStages`, `HealthProof`, `HealthMeaning`, `HealthPipeline`, `HealthScores`, `HealthVerdicts`, `HealthOrder` | the health pipeline, its scores and its verdicts told from the measurements |
| `SwitchTable`, `SwitchExact`, `SwitchWalk` | SNMP tables and the places of learned MAC addresses, for well-formed and any other text |

Loops of the program that update variables are methods with invariants, proved against functions;
objects whose methods change their fields are classes; the properties are lemmas about those
functions. Goroutines are transition systems whose steps the class methods implement. A map's
iteration order is a free choice: in the methods every order is possible, and the theorems hold
for all of them. Clock readings, random tokens, network results and the success of starting or
killing a process are parameters.

Where the code does less than one might expect, the exact condition is proved:

* Time texts of one second can sort against time: `TimeText.FormatOrder` says exactly when.
* A closed alert becomes active again when it is reported at the instant 9999-12-31T23:59:59 and at
  no other (`AlertRuns.HeldForever`, `AlertRuns.ClosedStep`).
* Clearing by absence is exact up to a thousand visible alerts; beyond that exactly when each visible
  alert that is not mentioned has fewer than a thousand others that do not sort after it
  (`AlertClearing.ReconcileExactWhen`). An old alert can starve behind a thousand newer ones for as
  long as these are reported (`AlertClearing.StarvedForGood`, and from an empty table
  `AlertClearing.OldAlertStarves`).
* The program reads the clock once to store a batch and again to query. A reported inactive alert whose
  suppression ends between the two stays inactive (`AlertRuns.ReconcileExactRead`).
* Retention compares texts, so within the second of its cutoff it can err in both directions
  (`AlertRuns.RetentionExact`).
* An empty batch clears suppressed alerts, a non-empty one does not (`AlertRuns.SuppressedRows`).
* Saving the configuration as read changes nothing but the CIDR list, and that exactly when the list
  was not clean or was emptied against a non-empty YAML list (`RuntimeConfig.PutBack`,
  `RuntimeConfig.ClearedCidrsReturn`).
* Clearing the CIDR list while a runtime setting is stored is accepted and has no effect when the YAML
  file lists any (`RuntimeConfig.DiscoveryTakesEffect`).
* In discovery an IP can be lost in a source order other than the program's
  (`Discovery.PromotionLoses`); in the program's order a swept IP is covered exactly under the
  condition of `Discovery.SweptCovered`, and `Discovery.SweptMissing` is one that is not.
* The gateway score can rise when the gateway gets worse: `HealthScores.GatewayRises` says exactly when,
  and `HealthScores.GatewayNotMonotone` shows 70 become 85.
* A wrapped line cuts a word only if the word is too long to be moved to the next line as a whole
  (`WrapWords.WordsWhole`).
* The WAN score can rise when a target goes down: `HealthProof.WanRises` says exactly when.
* A critical status does not by itself lower the overall score: `HealthPipeline.OverallMeans` says
  exactly when it is capped, and `HealthPipeline.CriticalYetHigh` shows a critical status at 94.
* The cap of the WAN score at 20 never takes effect (`HealthProof.WanCapIdle`).

## Model

| member | source | states |
|---|---|---|
| TimeText.CivilOf | agent/internal/storage/storage.go:549 | the calendar fields of every instant of the years 0 to 9999 are valid and denote that instant |
| TimeText.CivilUnique | agent/internal/storage/storage.go:549 | each valid calendar time is the time of exactly one instant |
| TimeText.SecondOrder | agent/internal/storage/storage.go:549 | calendar order of whole seconds is time order, leap years included |
| TimeText.SuffixOrder | agent/internal/storage/storage.go:806-810 | within a second texts follow time except when the kept digits of the earlier fraction begin those of the later |
| TimeText.FormatOrder | agent/internal/storage/storage.go:549-550 | for every two instants, exactly when the bytewise comparison of their texts agrees with time |
| TimeText.SecondsNeverMisordered | agent/internal/storage/storage.go:1348 | no comparison of stored times misorders instants of different seconds, or a second or more apart |
| TimeText.FormatInjective | agent/internal/storage/storage.go:1244 | texts are equal exactly for equal instants, to the nanosecond |
| TimeText.WholeSecondSortsLate | agent/internal/storage/storage.go:1265 | the misordering is real: every whole second sorts after each of its own fractions |
| TimeRead.DaysCounted | agent/internal/storage/storage.go:549 | the days before each year are those of the Gregorian calendar, counted in closed form |
| TimeRead.MonthsAlternate | agent/internal/storage/storage.go:549 | so are the lengths of the months |
| TimeRead.FormatReads | agent/internal/storage/storage.go:549 | every time text reads back, field by field and to the nanosecond, as section 5.6 of RFC 3339 lays it out |
| AlertStore.Store.constructor | agent/internal/storage/storage.go:302-321 | the table starts empty |
| AlertStore.Query | agent/internal/storage/storage.go:1340-1368 | an ORDER BY and LIMIT query lists distinct chosen rows, none left out that sorts before one listed, and as many as the limit allows |
| AlertStore.Store.AlertRecords | agent/internal/storage/storage.go:1340-1368 | the alerts asked for, unacknowledged and newest first, with the limit's default and cap |
| AlertStore.ListedAlerts | agent/internal/storage/storage.go:1340-1368 | which alerts are listed, told from the rows: those asked for, unacknowledged first, newest first, up to the limit or 200, and none left out before one listed |
| AlertStore.Store.UpsertAlertRecords | agent/internal/storage/storage.go:1243-1289 | the new table is one the reconciliation allows: reports stored, then absent alerts on one page of the query cleared, or all active ones for an empty batch |
| AlertStore.Store.AcknowledgeAlert | agent/internal/storage/storage.go:1291-1305 | sets the mark and its time on that alert only, and reports whether it exists |
| AlertStore.Store.SuppressAlert | agent/internal/storage/storage.go:1307-1321 | sets the suppression of that alert only, also over a closing |
| AlertStore.Store.CloseAlert | agent/internal/storage/storage.go:1323-1338 | clears that alert only and suppresses it until the end of 9999 |
| AlertStore.Store.DeleteClosedAlertsBefore | agent/internal/storage/storage.go:548-556 | the table without the rows closed before the cutoff text, and their number |
| AlertRuns.RunSound | agent/internal/storage/storage.go:1243-1338 | over every run an alert is active exactly when it has no clearing time and acknowledged exactly when it has an acknowledgement time |
| AlertRuns.UpsertAllSettles | agent/internal/storage/storage.go:1248-1267 | after a batch its alerts hold their last reports and are settled; suppression times and other rows are untouched |
| AlertRuns.VisibleAfter | agent/internal/storage/storage.go:1269-1289 | for any two clock readings, what is visible after a batch: the mentioned alerts the stored batch left visible, and those the clearing page missed |
| AlertRuns.FullPage | agent/internal/storage/storage.go:1340-1368 | a page holds every chosen row when they are no more than the limit |
| AlertRuns.ReconcileExact | agent/internal/storage/storage.go:1243-1289 | with at most 1000 visible rows and one clock reading, the visible alerts are exactly the reported ones not suppressed |
| AlertRuns.ReconcileExactRead | agent/internal/storage/storage.go:1243-1289 | for the two clock readings the program takes and at most 1000 visible rows, exactly which reported alerts show at the second, told from the table before the call |
| AlertClearing.ReconcileExactWhen | agent/internal/storage/storage.go:1277-1286 | for any table, batch and two clock readings every outcome is exact if and only if each visible alert not mentioned has fewer than 1000 others that do not sort after it |
| AlertClearing.ClearedOrMissed | agent/internal/storage/storage.go:1277-1286 | one such alert is cleared by every outcome when fewer than 1000 others do not sort after it, and by none when 1000 sort before it |
| AlertClearing.SomePageWithout | agent/internal/storage/storage.go:1340-1368 | when 1000 others may come first, the limited query has an outcome that leaves the alert out |
| AlertClearing.OutcomeExists | agent/internal/storage/storage.go:1243-1289 | every table, batch and clock readings have an outcome |
| AlertClearing.RepeatWithinReach | agent/internal/storage/storage.go:1243-1289 | within that reach the same batch at the same clock reading changes nothing the second time |
| AlertClearing.StarvedForGood | agent/internal/storage/storage.go:1277-1286 | over every run of batches in which 1000 newer unacknowledged alerts stay reported, an alert no longer reported stays active and untouched |
| AlertClearing.ExactOnce | agent/internal/storage/storage.go:1277-1286 | with one clock reading exact means: the visible alerts are the reported ones not suppressed |
| AlertClearing.OldAlertMissed | agent/internal/storage/storage.go:1277-1286 | a table and a batch on which clearing fails, whatever the query returns |
| AlertClearing.CrowdBuilt | agent/internal/storage/storage.go:1243-1289 | every outcome of reporting those thousand alerts after the old one is that table |
| AlertClearing.OldAlertStarves | agent/internal/storage/storage.go:1243-1289 | every run from an empty table that reports the old alert once and then only the thousand keeps the old one active |
| AlertRuns.SuppressedRows | agent/internal/storage/storage.go:1272-1277 | an empty batch clears suppressed alerts too, a non-empty one leaves those it does not mention as they were |
| AlertRuns.RepeatChangesNothing | agent/internal/storage/storage.go:1243-1289 | with at most 1000 visible rows after storing, the same batch at the same clock reading changes nothing the second time |
| AlertRuns.HeldForever | agent/internal/storage/storage.go:1323-1338 | the closing text is above every stored time but one, the last whole second of 9999 |
| AlertRuns.CloseCloses | agent/internal/storage/storage.go:1323-1338 | closing makes the alert inactive and held, with the time of closing or of its earlier clearing |
| AlertRuns.UpsertKeepsClosed | agent/internal/storage/storage.go:1254-1267 | a held row that is reported stays inactive with its clearing time, takes the reported text and loses its acknowledgement |
| AlertRuns.ClosedStep | agent/internal/storage/storage.go:1243-1338 | exactly which operations end a closing |
| AlertRuns.ClosedForGood | agent/internal/storage/storage.go:1243-1338 | over every run without such an operation a closed alert stays inactive with its clearing time |
| AlertRuns.AckStep | agent/internal/storage/storage.go:1263-1267 | an acknowledgement time survives an operation exactly when it is neither a report that finds the alert inactive nor its deletion |
| AlertRuns.AckForGood | agent/internal/storage/storage.go:1263-1305 | over a run the acknowledgement keeps its original time until such an operation |
| AlertRuns.AckSets | agent/internal/storage/storage.go:1291-1338 | acknowledging, suppressing and closing set the mark with the time of the first such operation and leave every other column but those the latter two are for, and every other alert, as it was |
| AlertRuns.AckedExactly | agent/internal/storage/storage.go:1263-1338 | over every run from an empty table an alert is acknowledged exactly when some operation acknowledged it since its last reset, and shows the time of the first that did |
| AlertRuns.UpsertNew | agent/internal/storage/storage.go:1248-1253 | an alert a batch brings in is stored with its last report, active, first and last seen at the batch, without marks |
| AlertRuns.UpsertKnown | agent/internal/storage/storage.go:1254-1267 | what a batch leaves of an alert it mentions, column by column from the row before it |
| AlertRuns.UnmentionedStep | agent/internal/storage/storage.go:1272-1286 | an alert a batch does not mention stays as it is or, if active, is cleared at the time of the batch |
| AlertRuns.HistoryShown | agent/internal/storage/storage.go:1243-1338 | over every run from an empty table an alert shows as first seen the time of the batch that brought it in and as suppressed what the latest suppression or closing since then says |
| AlertRuns.RunTimed | agent/internal/storage/storage.go:1243-1338 | over every run each clearing time is the text of an instant |
| AlertRuns.RetentionExact | agent/internal/storage/storage.go:548-556 | exactly which alerts retention deletes: inactive ones cleared before the cutoff, except within one second where the texts are misordered |
| AlertRuns.RetentionOverRuns | agent/internal/storage/storage.go:548-556 | the same for every retention run from an empty table |
| AlertDedupe.Better | agent/internal/agent/alerts_api.go:271-290 | the second alert wins exactly when it ranks higher by own source, evidence count, text length |
| AlertDedupe.DedupeAlertRecords | agent/internal/agent/alerts_api.go:248-269 | the loop over map and order list computes the groups' winners in order of first occurrence |
| AlertDedupe.FingerprintAlone | agent/internal/agent/alerts_api.go:252-255 | an alert without a key shares its group only with alerts of the same fingerprint |
| AlertDedupe.WinnerFirstBest | agent/internal/agent/alerts_api.go:256-262 | each winner is the first of its group with the highest rank |
| AlertDedupe.FirstBestUnique | agent/internal/agent/alerts_api.go:271-290 | that description fits one alert of a group only |
| AlertDedupe.ShownAlerts | agent/internal/agent/alerts_api.go:248-269 | one alert for each group that occurs, in first-occurrence order, each the first of highest rank |
| AlertDedupe.DedupeTwice | agent/internal/agent/alerts_api.go:248-269 | deduplicating again changes nothing |
| AlertDedupe.OrderBreaksTiesOnly | agent/internal/agent/alerts_api.go:248-290 | reordering the input keeps the groups and changes a winner only among exact ties of rank |
| AlertKeys.NormalizedWords | agent/internal/agent/alerts_api.go:327-332 | a normalized text is the longest runs of letters and digits in lower case, one blank apart |
| AlertKeys.FirstTokenWord | agent/internal/agent/alerts_api.go:334-344 | the first token is the first of these words, or unknown |
| AlertKeys.KeyExactly | agent/internal/agent/alerts_api.go:292-323 | the group of an alert is that of the first topic in a table whose phrases it holds, else its category and title, else its fingerprint |
| AlertKeys.RankExactly | agent/internal/agent/alerts_api.go:271-290 | of two alerts the internal one is shown, then the one with more evidence, then the one that says more, then the first |
| TextLayout.WrapLines | agent/internal/report/report.go:2163-2182 | the loop that consumes each line computes the wrapped lines |
| TextLayout.WrapAllFits | agent/internal/report/report.go:2163-2182 | every wrapped line fits the width and together they carry the same non-blank text in order |
| TextLayout.Paginate | agent/internal/report/report.go:2184-2198 | the loop computes the pages |
| TextLayout.PagesTile | agent/internal/report/report.go:2184-2198 | the pages are the lines in order, all but the last full, none empty |
| WrapWords.NoLines | agent/internal/report/report.go:2194-2196 | without lines there is one page with the placeholder |
| WrapWords.TrimExactly | agent/internal/report/report.go:2177 | trimming takes exactly the white space at both ends |
| WrapWords.CutExactly | agent/internal/report/report.go:2171-2175 | a line is cut at its last blank within the width, unless that leaves less than the least length |
| WrapWords.WordsWhole | agent/internal/report/report.go:2171-2179 | where no word is too long to be moved whole, the wrapped lines have the words of the line, in order |
| WrapWords.AllWordsWhole | agent/internal/report/report.go:2163-2182 | so has the whole wrapped text |
| TextLayout.CollapseKeeps | agent/internal/report/report.go:270 | joining the fields with single blanks keeps the text and never lengthens it |
| TextLayout.TruncateFits | agent/internal/report/report.go:269-275 | for every text and limit: the result fits exactly when the limit is above 3 or the collapsed text fits already, is not empty unless the text is blank, and is the whole text or a beginning of it and an ellipsis |
| TextLayout.WrapCell | agent/internal/report/report.go:2023-2045 | the loop computes the lines of a cell |
| TextLayout.CellFits | agent/internal/report/report.go:2023-2045 | one to maxLines non-empty lines within max(width, 8), telling the whole text or ending in an ellipsis |
| PdfFile.EntryWidth | agent/internal/report/report.go:2118-2121 | a cross-reference row has 20 bytes exactly while the offset is below 10^10 (section 7.5.4 of ISO 32000-1) |
| PdfWriter.BuildObjects | agent/internal/report/report.go:2092-2112 | the loops build the catalog, the page tree, the pages with their contents, and the fonts |
| PdfWriter.Serialize | agent/internal/report/report.go:2113-2127 | the writer that remembers offsets produces the file whose table holds the true offsets |
| PdfProof.StartXrefFound | agent/internal/report/report.go:2124-2126 | startxref leads to the cross-reference table (section 7.5.5) |
| PdfProof.TableFound | agent/internal/report/report.go:2116-2123 | the table found there is read back completely, with its size and offsets |
| PdfProof.RootFound | agent/internal/report/report.go:2122-2124 | the trailer's root is the catalog's number |
| PdfProof.ObjectFound | agent/internal/report/report.go:2113-2121 | row i leads exactly to the bytes of object i |
| PdfProof.StreamReads | agent/internal/report/report.go:2104-2108 | Length is the number of bytes of the stream, whatever they are (section 7.3.8) |
| PdfProof.PageReads | agent/internal/report/report.go:2096-2112 | a page's parent, fonts and contents references name the objects actually at those numbers |
| PdfProof.PagesRead | agent/internal/report/report.go:2096-2112 | the kids, in order, are the written pages |
| PdfProof.FileReadsBack | agent/internal/report/report.go:2092-2127 | a reader that follows startxref, table, root, kids, references, counts and lengths gets exactly the written pages with their fonts |
| PdfString.AsciiPdf | agent/internal/report/report.go:2218-2228 | the loop keeps printable ASCII, tab and line ends, and writes a question mark for every other rune |
| PdfString.AsciiExactly | agent/internal/report/report.go:2218-2228 | which characters are kept, and that every other becomes a question mark in its place |
| PdfString.CharRead | agent/internal/report/report.go:2212-2216 | each escaped character is read as itself |
| PdfString.EscapeReads | agent/internal/report/report.go:2212-2228 | a literal-string reader (section 7.3.4.2) stops exactly at the closing parenthesis and sees the text, unprintable runes as ?, tabs as blanks, CR and CR LF as LF |
| PdfString.StreamFramed | agent/internal/report/report.go:2200-2210 | the stream is one text object that selects the page's first font and ends after the lines |
| PdfString.PdfTextStream | agent/internal/report/report.go:2200-2210 | the loop writes one shown string for each line |
| PdfString.TextStreamReads | agent/internal/report/report.go:2200-2216 | reading the stream gives back the lines as shown |
| PdfWriter.PdfRenderer.constructor | agent/internal/report/report.go:574-582 | a renderer starts without pages |
| PdfWriter.PdfRenderer.FinishPage | agent/internal/report/report.go:625-631 | a non-empty buffer becomes the last page, an empty one nothing |
| PdfWriter.PdfRenderer.NewPage | agent/internal/report/report.go:617-623 | the page so far is kept |
| PdfWriter.PdfRenderer.Bytes | agent/internal/report/report.go:2092-2127 | nothing drawn is lost: the returned file reads back to every page drawn on |
| PdfWriter.RenderedReadsBack | agent/internal/report/report.go:2092-2127 | the same for any pages with the renderer's two fonts |
| PdfWriter.SimplePdf | agent/internal/report/report.go:2129-2161 | the plain report is the file of its wrapped and paged lines |
| PdfWriter.SimpleReadsBack | agent/internal/report/report.go:2129-2210 | a reader of the plain report recovers, page by page, the wrapped lines as shown |
| Downsample.DownsampleValues | agent/internal/report/report.go:372-393 | the nested loops compute the bucket means; both guards are dead |
| Downsample.StartsApart | agent/internal/report/report.go:378-385 | buckets are non-empty, of n/m or n/m + 1 values, and end within the input |
| Downsample.WeightConserved | agent/internal/report/report.go:377-391 | the buckets tile the input: the points times their bucket sizes add up to the input's sum |
| Downsample.PointsInRange | agent/internal/report/report.go:372-393 | as many points as asked for, each between the input's least and greatest value |
| Baseline.AverageFloat | agent/internal/agent/thresholds.go:249-255 | the mean, and zero for no values |
| Baseline.TrimmedAverage | agent/internal/agent/thresholds.go:230-247 | the loop computes the mean of the values up to three times the mean |
| Baseline.BaselineOf | agent/internal/agent/thresholds.go:206-228 | there is a baseline exactly from five usable samples on, between their least and their mean |
| Baseline.Robust | agent/internal/agent/thresholds.go:230-247 | fewer than a third of five or more positive values are discarded, so the empty case cannot happen, and the result is at most the mean |
| Baseline.TrimmedAbove | agent/internal/agent/thresholds.go:230-247 | the result is at least every lower bound of the values |
| Baseline.BaselineForgets | agent/internal/agent/thresholds.go:230-247 | the order of the values does not matter |
| Baseline.SamplesExactly | agent/internal/agent/thresholds.go:206-216 | the samples are exactly the positive amounts of other successful results of the same target since the cutoff, each as often as measured |
| Baseline.TrimmedExactly | agent/internal/agent/thresholds.go:230-247 | the baseline is the mean of the samples that are at most three times the mean of all |
| EchoSession.Manager.constructor | agent/internal/agent/field_api.go:34 | no session at first |
| EchoSession.Manager.Start | agent/internal/agent/field_api.go:36-61 | one Start step: the old socket closed, then a failure or a new session with token and bounded expiry |
| EchoSession.Manager.Stop | agent/internal/agent/field_api.go:95-104 | one Stop step |
| EchoSession.Manager.ArmDeadline | agent/internal/agent/field_api.go:67-71 | one turn's deadline, never after the expiry |
| EchoSession.Manager.AfterRead | agent/internal/agent/field_api.go:72-84 | what follows a read: the end, another turn, or an echo of what carried the token |
| EchoSession.Manager.WriteEcho | agent/internal/agent/field_api.go:83 | an echo is sent only while the socket is open |
| EchoSession.Manager.EndServe | agent/internal/agent/field_api.go:86-92 | the guarded end of a goroutine |
| EchoSession.StepSafe | agent/internal/agent/field_api.go:36-104 | every step keeps the invariant |
| EchoSession.SessionsSafe | agent/internal/agent/field_api.go:36-104 | under every interleaving at most one socket is open and it is the current one, a handle has a goroutine still to end, and only datagrams with the session's token read before its expiry were echoed |
| EchoSession.StaleHarmless | agent/internal/agent/field_api.go:86-92 | a goroutine touches no session but its own |
| EchoSession.ExpiredSessionEnds | agent/internal/agent/field_api.go:72-92 | past its expiry a goroutine can always step, each step brings it nearer its end, and the end releases the handle |
| EchoSession.ExpiredSessionBounded | agent/internal/agent/field_api.go:72-92 | under every interleaving a goroutine past its expiry takes at most four more steps of its own, and has then released the handle and its socket |
| EchoRuns.EchoedExactly | agent/internal/agent/field_api.go:36-104 | under every interleaving what was echoed is exactly, in order, what the events say: each datagram with the token of its socket, once, if written while the socket was in use; and the socket in use, its token and its expiry are those the events say |
| EchoRuns.ReadAnswered | agent/internal/agent/field_api.go:82-84 | a datagram with the token is answered by the next step of its goroutine, one without never |
| EchoRuns.SessionGoesOn | agent/internal/agent/field_api.go:72-81 | a session in use goes on until its expiry or the shutdown |
| EchoRuns.ReadsWake | agent/internal/agent/field_api.go:66-71 | each read waits until a second after the deadline was set, or the expiry if that is earlier |
| EchoRuns.StepsPossible | agent/internal/agent/field_api.go:62-93 | exactly which steps each goroutine can take, told from its last one |
| IperfServer.Manager.constructor | agent/internal/iperf/manager.go:31-36 | no process at first |
| IperfServer.Manager.StartServer | agent/internal/iperf/manager.go:60-98 | one Start step, with every early return, and the status it reports |
| IperfServer.Manager.StopServer | agent/internal/iperf/manager.go:100-122 | one Stop step, a failing kill included, and the status it reports |
| IperfServer.Manager.Waited | agent/internal/iperf/manager.go:85-96 | the waiter's guarded end |
| IperfServer.StepSafe | agent/internal/iperf/manager.go:60-122 | every step keeps the invariant |
| IperfServer.ProcessesSafe | agent/internal/iperf/manager.go:60-122 | under every interleaving at most one started process is neither killed nor ended, and it is the current one |
| IperfServer.StaleWaiterHarmless | agent/internal/iperf/manager.go:85-96 | an overtaken waiter changes neither the handle nor the error |
| IperfServer.StopThenStart | agent/internal/iperf/manager.go:60-122 | after a successful Stop nothing runs unattended and Start is not refused |
| IperfRuns.ManagerExactly | agent/internal/iperf/manager.go:60-122 | over every run the process named, its start, the error shown and what became of each process are what the events say |
| IperfRuns.EndsOnce | agent/internal/iperf/manager.go:85-96 | each process ends once and is waited for once |
| RuntimeConfig.NormalizeCidrs | agent/internal/agent/config_api.go:347-362 | the loop keeps the trimmed, non-empty first occurrences |
| CleanList.CleanedTwice | agent/internal/agent/config_api.go:347-362 | normalizing again changes nothing |
| RuntimeConfig.Api.UpdateDiscoveryConfig | agent/internal/agent/config_api.go:54-85 | one request to the first endpoint, refused or stored in both places |
| RuntimeConfig.Api.UpdateRuntimeConfig | agent/internal/agent/config_api.go:103-142 | one request to the second endpoint, its two body shapes included |
| RuntimeConfig.TestsValid | agent/internal/agent/config_api.go:223-246 | intervals acceptable over the defaults are acceptable over any acceptable YAML |
| RuntimeConfig.OverlayValid | agent/internal/agent/config_api.go:161-207 | a request Validate accepts over the defaults gives an accepted configuration over any valid YAML |
| RuntimeConfig.AlwaysValid | agent/internal/agent/config_api.go:54-207 | from any valid YAML configuration every sequence of requests leaves an effective configuration Validate accepts |
| RuntimeConfig.EffectiveAccepted | agent/internal/agent/config_api.go:103-155 | an effective configuration is accepted when sent back |
| RuntimeConfig.PutBack | agent/internal/agent/config_api.go:103-207 | sending back what was read changes at most the CIDR list, and exactly when |
| RuntimeConfig.DiscoveryTakesEffect | agent/internal/agent/config_api.go:54-207 | an accepted CIDR request takes effect exactly when no runtime setting is stored, the cleaned list is not empty, or the YAML list is; otherwise the YAML list stays |
| RuntimeConfig.ClearedCidrsReturn | agent/internal/agent/config_api.go:54-207 | an emptied CIDR list comes back with the next save |
| RuntimeEffects.DurationMeans | agent/internal/config/config.go:427-438 | an interval lasts its seconds, else minutes, else hours, modulo 2^64 nanoseconds |
| RuntimeEffects.AcceptedExactly | agent/internal/agent/config_api.go:103-142 | exactly which requests are accepted, condition by condition |
| RuntimeEffects.ValidExactly | agent/internal/config/config.go:315-421 | exactly which YAML configurations are accepted |
| RuntimeEffects.MeantExactly | agent/internal/agent/config_api.go:114-124 | which request a body means, a former response included |
| RuntimeEffects.RuntimeTakesEffect | agent/internal/agent/config_api.go:161-246 | an accepted request takes effect group by group: targets and limits as given, each interval that lasts, reports with the YAML path where none is given |
| RuntimeEffects.DiscoveryChangesOnly | agent/internal/agent/config_api.go:54-85 | a CIDR request changes nothing else |
| RuntimeEffects.LastTakesEffect | agent/internal/agent/config_api.go:54-207 | after any requests the last accepted runtime request is in effect, the CIDRs apart |
| Discovery.Merger.constructor | agent/internal/runner/discovery.go:23 | an empty map |
| Discovery.Merger.MergeDevice | agent/internal/runner/discovery.go:280-303 | one call, for every order in which the map can be walked |
| Discovery.Merger.MergeAll | agent/internal/runner/discovery.go:24-35 | a pass over all observations |
| Discovery.MergeSound | agent/internal/runner/discovery.go:280-325 | for any observations in any order each key is the MAC or else the IP, every observed MAC has exactly one entry, no IP has both kinds of entry, and entries name only what was observed |
| Discovery.SeenAgain | agent/internal/runner/discovery.go:297-325 | what seeing a device again adds to its entry, field by field, and that no other entry changes |
| Discovery.MacPhase | agent/internal/runner/discovery.go:24-32 | after the sources with MACs each entry has the site and first sighting of its first observation, the first IP, the first vendor and host name that are not empty, the sources in order and the latest time |
| Discovery.ChoiceFree | agent/internal/runner/discovery.go:286-291 | the order of map iteration never changes the entries, their IPs or their MACs |
| Discovery.SweepPhase | agent/internal/runner/discovery.go:21-45 | exactly which entries a pass in the program's order ends with |
| Discovery.SweptCovered | agent/internal/runner/discovery.go:24-35 | a swept IP is some entry's IP exactly when it is the first IP of some MAC or not itself the text of an observed MAC |
| Discovery.SweptMissing | agent/internal/runner/discovery.go:297-302 | a swept IP that is also the text of a MAC seen elsewhere is no entry's IP |
| Discovery.PromotionLoses | agent/internal/runner/discovery.go:292-295 | in another order a promotion overwrites an entry and loses its IP, whichever it is |
| Inventory.Store.constructor | agent/internal/storage/storage.go:323-381 | the three tables start empty |
| Inventory.Store.UpsertDevices | agent/internal/storage/storage.go:588-639 | the batch stored one observation after another; the count returned is the rows added |
| Inventory.Store.MarkDeviceKnown | agent/internal/storage/storage.go:708-728 | marks one device of the site, or reports that there is none |
| Inventory.Store.MarkAllNewDevicesKnown | agent/internal/storage/storage.go:730-742 | marks the site's unknown devices and returns their number |
| Inventory.Store.UpdateDeviceIntelligence | agent/internal/storage/storage.go:913-947 | ports, services and classification stored, with an event for each change of ports or category |
| Inventory.OneDevice | agent/internal/storage/storage.go:686-728 | marking or editing a device sets just those columns of just that row, and nothing for another site |
| Inventory.ManyDevices | agent/internal/storage/storage.go:730-783 | what marking all, opening the database, identifying by IP and classifying leave of any row |
| Inventory.KnownExactly | agent/internal/storage/storage.go:439-742 | over every run from an empty database a device shows exactly the mark the operations gave it, and is unknown exactly when none of them occurred since its row appeared |
| Inventory.SeenConserved | agent/internal/storage/storage.go:588-639 | the sum of seen_count rises by the number of observations not skipped |
| Inventory.UpsertContents | agent/internal/storage/storage.go:588-639 | the whole row of a device after a batch: IP, time and source of its last observation, the first vendor and host name that are not empty, one more count for each observation, when it was first observed, and the rest unchanged |
| Inventory.BatchStored | agent/internal/storage/storage.go:588-639 | a batch changes the device rows as its observations say, one more count for each, and neither classifications nor the log |
| Inventory.HistoryKept | agent/internal/storage/storage.go:588-783 | over any run (site, mac) stays unique, first_seen never changes, counts never fall, a known device stays known, the log only grows |
| Inventory.Store.Migrate | agent/internal/storage/storage.go:439 | opening the database makes each unknown device known since its first sighting |
| Inventory.StepReplays | agent/internal/storage/storage.go:941-946 | the events of one operation replay from what the tables said of a device's ports or category before it to what they say after it |
| Inventory.LogReplays | agent/internal/storage/storage.go:913-955 | in every reachable state each device's port events chain from empty to its current ports, and nothing is logged of a device before its row or of its category before its first |
| Inventory.ChangesLogged | agent/internal/storage/storage.go:913-955 | between any two moments of any run the events logged replay a device's ports, and its category once it has one, from the value at the first to the value at the second |
| Inventory.LoggedFromFirst | agent/internal/storage/storage.go:913-955 | from the step that gives a device its row or its first category the whole log replays from the value given there to the current one |
| Classifier.ServiceNames | agent/internal/agent/device_intelligence.go:126-138 | the loop gives the sorted names of the ports' services, each once |
| Classifier.MergeStored | agent/internal/agent/device_intelligence.go:140-159 | the loop keeps the trimmed first occurrences of stored and observed services, sorted |
| ClassifierRules.CategoryExactly | agent/internal/agent/device_intelligence.go:73-109 | the category is that of the first rule of a table that applies, else by open ports, else by how the device was seen |
| ClassifierRules.OpenExactly | agent/internal/agent/device_intelligence.go:26-32 | category and evidence of a scan come from the listed ports from 1 to 65535 |
| ClassifierRules.EvidenceExactly | agent/internal/agent/device_intelligence.go:54-109 | the evidence is what that rule lists, in order |
| ClassifierRules.TermLine | agent/internal/agent/device_intelligence.go:64-71 | one line names the first listed term that occurs |
| ClassifierRules.PortLine | agent/internal/agent/device_intelligence.go:53-63 | one line lists the open ports among those named, in that order |
| ClassifierRules.ConfidenceExactly | agent/internal/agent/device_intelligence.go:110-115 | two lines of evidence are high confidence, one is medium unless it only tells how the device was seen or who made it |
| ClassifierRules.FoundExactly | agent/internal/agent/device_intelligence.go:116-138 | services and risks are those two tables give the ports, sorted |
| ServiceColumn.CharWritten | agent/internal/agent/device_intelligence.go:157-158 | how each character is written in the column: short escapes, code points for other control characters and those that matter in HTML |
| ServiceColumn.ColumnReads | agent/internal/agent/device_intelligence.go:140-159 | the services column reads back, by a JSON reader after RFC 8259, as the list written |
| Reclassify.Around | agent/internal/agent/device_intelligence.go:46-53 | a term without a separator lies wholly on one side of it |
| Reclassify.ServicesSay | agent/internal/agent/device_intelligence.go:35 | a term occurs in the stored column exactly when it occurs in one listed service |
| Reclassify.PrinterNames | agent/internal/agent/device_intelligence.go:76 | of the derived names only ipp has a printer term |
| Reclassify.CameraNames | agent/internal/agent/device_intelligence.go:80 | only rtsp and rtsp-alt have a camera term |
| Reclassify.MediaNames | agent/internal/agent/device_intelligence.go:85 | none has a media term |
| Reclassify.ServerNames | agent/internal/agent/device_intelligence.go:92 | only smb and nfs have a server term |
| Reclassify.ClientNames | agent/internal/agent/device_intelligence.go:97 | only rdp has a workstation term |
| Reclassify.MergeClean | agent/internal/agent/device_intelligence.go:140-159 | whatever was stored, what is written back is sorted, trimmed and without repetitions |
| Reclassify.MergeElements | agent/internal/agent/device_intelligence.go:140-159 | merging keeps every service, stored or observed, and adds none |
| Reclassify.MergeSettles | agent/internal/agent/device_intelligence.go:140-159 | merging the same services again changes nothing |
| Reclassify.SameCategory | agent/internal/agent/device_intelligence.go:74-109 | storing a scan's services and classifying again with the same ports gives the same category |
| Reclassify.FixedPoint | agent/internal/agent/device_intelligence.go:140-172 | from the second pass on the stored device is a fixed point |
| ScanRuns.RiskFlags | agent/internal/agent/device_intelligence.go:116-122 | in whatever order the map of risks is walked the sorted flags are the same |
| ScanRuns.OrderFree | agent/internal/agent/device_intelligence.go:26-138 | category, confidence, risks and services depend on the set of valid ports alone, not on their order nor on the walk of the risk map |
| ScanRuns.LaterScansQuiet | agent/internal/agent/device_intelligence.go:161-172 | of any number of scans that find the same ports only the first can log events, and the rows stay as it left them |
| ScanRuns.SecondScanSettles | agent/internal/agent/device_intelligence.go:161-172 | from the second scan on the whole stored classification repeats, its clock readings apart |
| ScanRuns.ScanStores | agent/internal/agent/device_intelligence.go:161-172 | a scan stores what it concludes, the version and both times, and writes only ports and services of the device |
| SortedText.SortForgets | agent/internal/agent/device_intelligence.go:122 | sorting lists of the same distinct texts gives the same list |
| Latest.CollectLatest | agent/internal/verdict/verdict.go:348-393 | the two loops list the newest result of each key, in whatever order the map is walked |
| Latest.LatestKeyed | agent/internal/verdict/verdict.go:348-393 | each key that occurs has a result of its own, none of the key newer |
| Latest.LatestFirst | agent/internal/verdict/verdict.go:348-354 | among results of the same time the first to arrive is kept |
| Latest.LatestForgets | agent/internal/agent/thresholds.go:257-303 | with distinct times for each key the newest results do not depend on the order of arrival |
| Latest.ListingsAgree | agent/internal/verdict/verdict.go:356-361 | two listings of one map are permutations of each other |
| Verdicts.Summarize | agent/internal/verdict/verdict.go:117-172 | the loops compute the ratios, maxima and least days to expiry |
| Verdicts.RuleVerdicts | agent/internal/verdict/verdict.go:174-283 | the rules' verdicts, then each service's, and the healthy verdict only when there is none |
| Verdicts.StatusOf | agent/internal/verdict/verdict.go:65-74 | the loop with its break computes the worst severity |
| Verdicts.CapWan | agent/internal/verdict/verdict.go:315-319 | the loop lowers the WAN score exactly when some WAN verdict is critical |
| Verdicts.Evaluate | agent/internal/verdict/verdict.go:58-93 | the first stage, for some listing of the newest results |
| HealthStages.RemoveHealthyVerdict | agent/internal/agent/agent.go:1177-1185 | the filter drops the healthy verdict |
| HealthStages.Record.constructor | agent/internal/verdict/verdict.go:81-92 | the record starts as evaluated |
| HealthStages.Record.ApplyDeviceInventoryHealth | agent/internal/agent/agent.go:1078-1123 | the inventory stage on the record |
| HealthStages.Record.ApplyThresholdHealth | agent/internal/agent/thresholds.go:28-48 | the threshold stage on the record, its loop with break included |
| HealthStages.Record.ApplyAdvancedHealth | agent/internal/agent/advanced_health.go:37-54 | the advanced stage on the record, its loop with break included |
| HealthStages.ThresholdVerdicts | agent/internal/agent/thresholds.go:50-145 | the loops append what each newest result gives |
| HealthStages.AdvancedVerdicts | agent/internal/agent/advanced_health.go:18-36 | the loop appends one verdict for each active result that is a warning or critical |
| HealthMeaning.StatusMeans | agent/internal/verdict/verdict.go:58-93 | after the first stage exactly which measurements make the status critical, and which leave it healthy |
| HealthMeaning.WanMeans | agent/internal/verdict/verdict.go:287-292 | the WAN score is full exactly when every target is up without loss |
| HealthMeaning.DnsMeans | agent/internal/verdict/verdict.go:303-305 | the DNS score is full exactly when every lookup succeeded |
| HealthMeaning.LimitsMean | agent/internal/agent/thresholds.go:147-158 | the first key with an override decides the limits, however many follow |
| HealthVerdicts.MergedExactly | agent/internal/agent/thresholds.go:160-204 | an override decides each limit for which it gives a value that is not zero |
| HealthProof.EvaluateHealth | agent/internal/agent/agent.go:1048-1076 | all stages in order, for some listings of the seven maps |
| HealthProof.HealthSound | agent/internal/agent/agent.go:1048-1123 | the final status is the worst severity among the verdicts, the healthy verdict stands alone, all scores are in 0..100, a critical addition caps the overall score at 60 and any threshold addition at 80 |
| HealthPipeline.HealthMeans | agent/internal/agent/agent.go:1048-1123 | over all stages exactly which newest measurements, missing devices and advanced results make the final status critical, and which leave it healthy |
| HealthPipeline.OverallMeans | agent/internal/agent/agent.go:1048-1123 | the overall score is the average of the five scores under a cap of 60, 80 or none, and exactly when which |
| HealthPipeline.AdvancedCaps | agent/internal/agent/advanced_health.go:42-52 | where the limits are silent an advanced warning caps the overall score exactly when it alone ends the healthy status |
| HealthPipeline.FailedLookupReported | agent/internal/agent/thresholds.go:85-95 | every lookup that failed when last tried is among the final verdicts, ends the healthy status and caps the overall score at 80 |
| HealthPipeline.CriticalYetHigh | agent/internal/agent/thresholds.go:28-46 | a slow gateway alone gives a critical status with an overall score of 94 |
| HealthScores.WanScoreMeans | agent/internal/verdict/verdict.go:287-292 | the final WAN score from the targets up and the greatest loss, rounding included |
| HealthScores.DnsScoreMeans | agent/internal/verdict/verdict.go:303-305 | the final DNS score from the shares of system and public lookups that succeed |
| HealthScores.GatewayMeans | agent/internal/verdict/verdict.go:293-302 | the final gateway score: 0 when down, exactly when 100 and when 70, otherwise thirty points less for each percent of loss |
| HealthScores.GatewayRises | agent/internal/verdict/verdict.go:293-302 | a gateway that is no better scores higher exactly when the other was slow without loss and it loses less than one percent |
| HealthScores.GatewayNotMonotone | agent/internal/verdict/verdict.go:293-302 | a slow gateway scores 70, and 85 once it also loses half a percent |
| HealthScores.ServiceMeans | agent/internal/verdict/verdict.go:306-314 | the final service score from the percentage up, with the caps for slow services and ending certificates |
| HealthScores.InventoryMeans | agent/internal/agent/agent.go:1078-1123 | 90 with new devices, 70 with a missing one |
| HealthScores.OverallIs | agent/internal/agent/agent.go:1048-1123 | the overall score is a fifth of the five, or the cap if that is less |
| HealthVerdicts.VerdictsExactly | agent/internal/agent/agent.go:1048-1123 | the final record holds exactly the verdicts the measurements call for, and the healthy one when they call for none |
| HealthVerdicts.NewestExactly | agent/internal/verdict/verdict.go:348-393 | with distinct times a listing holds exactly the results no other of their key is newer than |
| HealthVerdicts.KeysApart | agent/internal/agent/thresholds.go:257-307 | two results compete exactly when all parts of their keys are the same, where names hold no bar |
| HealthVerdicts.WithHostExactly | agent/internal/agent/thresholds.go:257-273 | the thresholds skip exactly the pings with a blank host |
| HealthVerdicts.PingAboveExactly | agent/internal/agent/thresholds.go:50-83 | when a ping is above its baseline, told from the earlier pings of its target |
| HealthVerdicts.HttpAboveExactly | agent/internal/agent/thresholds.go:105-145 | when a request is above its baseline, told from the earlier requests of its target |
| HealthProof.WanCapIdle | agent/internal/verdict/verdict.go:285-319 | the cap at 20 never changes the WAN score |
| HealthProof.WanRises | agent/internal/verdict/verdict.go:287-292 | for any results: when one target goes down the WAN score rises exactly when there are others, all were up, and some loss cost more than the limit for their number |
| HealthProof.WanNotMonotone | agent/internal/verdict/verdict.go:288-290 | two targets with ten percent loss score 0, and 40 once one is down |
| HealthOrder.SummaryForgets | agent/internal/verdict/verdict.go:117-172 | the summary depends on the results only up to order |
| HealthOrder.EvaluatedForgets | agent/internal/verdict/verdict.go:58-93 | so do status, scores and verdicts of the first stage |
| HealthOrder.HealthForgets | agent/internal/agent/agent.go:1048-1123 | final status and scores are the same, and the verdicts up to order, for every order of map iteration and every permutation of results with distinct times for each key |
| SwitchTable.ParseSnmpTable | agent/internal/runner/field.go:412-434 | the loop with its skips builds the table of the lines |
| SwitchTable.DecodeFails | agent/internal/runner/field.go:376-393 | a key gives no place exactly when it has fewer than seven parts or one of its last six is no number from 0 to 255 |
| SwitchTable.LocateRow | agent/internal/runner/field.go:375-398 | the loop body with its flag gives the row's place, and nothing exactly for those keys |
| SwitchTable.BuildSwitchPortLocations | agent/internal/runner/field.go:373-401 | for every order of map iteration, as many equal locations as rows that give it and no others, sorted by MAC |
| SwitchExact.AtoiExactly | agent/internal/runner/field.go:384-388 | a signed decimal number is read as its value when that fits 64 bits |
| SwitchExact.AtoiNothing | agent/internal/runner/field.go:384-388 | no other text is a number |
| SwitchExact.FirstNumberExactly | agent/internal/runner/field.go:403-410 | the first field that is a number, or the trimmed text |
| SwitchExact.LineExactly | agent/internal/runner/field.go:415-431 | what any line of a walk gives, well formed or not |
| SwitchExact.LastLineDecides | agent/internal/runner/field.go:412-434 | the last line that gives a key decides its value |
| SwitchExact.DecodeExactly | agent/internal/runner/field.go:375-394 | a key is its id and six octets, whose address has two hexadecimal digits for each |
| SwitchExact.PlaceExactly | agent/internal/runner/field.go:395-397 | the place of a row, with empty texts for what a table lacks |
| SwitchWalk.IndexDecodes | agent/internal/runner/field.go:375-394 | a printed index of dot1qTpFdbTable (section 5 of RFC 4363) decodes to its id and MAC |
| SwitchWalk.MacTextDiffers | agent/internal/runner/field.go:389-397 | no two MAC addresses have the same text |
| SwitchWalk.IndexesDiffer | agent/internal/runner/field.go:375-397 | different entries give different places |
| SwitchWalk.LineReads | agent/internal/runner/field.go:415-431 | a printed row, quoted or not, reads back |
| SwitchWalk.WalkReads | agent/internal/runner/field.go:412-434 | the text of a walk reads back as exactly its rows |
| SwitchWalk.FirstNumberKeeps | agent/internal/runner/field.go:403-410 | a number keeps its text |
| SwitchWalk.WalkLocates | agent/internal/runner/field.go:356-397 | from the text of three walks to the place of a learned address |

## Left out

- HTTP handlers, tokens, metrics, the web interface, mDNS and the probes themselves: their results
  are inputs.
- The SQL engine and the JSON and YAML libraries: tables are maps and sequences, a stored setting is
  read back as written, database calls succeed and each storage call is atomic.
- AlertRecordsSince and the reports table.
- Text is ASCII, one char per byte: other white space, case folding and UTF-8 are not modelled.
- Time texts of years outside 0 to 9999, which a suppression far in the future could have.
- Floating point: measurements are reals, so rounding, NaN and overflow of int() are not modelled.
- The branch of mergeServices for a services column that is not JSON: the program writes only JSON
  there.
- Hostname lookup and the sort by IP after a discovery pass, and the sort of services by name before
  their verdicts: theorems about verdicts hold up to their order.
- Drawing positions and charts, wording of verdicts and recommendations, their metrics and evidence; the
  texts of complaints about a configuration, of which only whether there is one is stated.
- activeAdvancedChecks: the set of active checks is an input.
- A missing per-target threshold map is not told apart from an empty one.
- SHA-1 fingerprints are opaque texts.
- Baseline.BaselineOf: models pingBaseline and httpBaseline as one method on the fields they share.
- SwitchTable.BuildSwitchPortLocations: leaves the order of equal MAC addresses open, as the unstable
  sort does.
