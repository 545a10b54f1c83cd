# URL latency checker: a Dafny model

The program reads a file of URLs, one per line, and probes each one. It
prints the average name-lookup time of the sites that answered, how many
sites answered, and how many could not be reached. Any line that does not
start with `http` aborts the whole run with "Illegal url detected". The work
runs in one of three modes:

- serially, in one process;
- in `n` worker processes that send their partial records to the parent
  through a pipe (`-f`);
- in `n` worker processes meant to share one memory-mapped record. As
  written, this mode never maps a region and its workers' records never reach
  the parent (see "## Findings").

Worker `w` of `n` handles the lines whose number leaves remainder `w`
modulo `n`.

The model has nine modules:

- `UrlCheck`: the `strncmp` prefix test of `check_url` and the sentinel
  encoding of its result. A real result is either a latency, `URL_UNKNOWN`
  (-1) or `URL_ERROR` (-2). The network probe is a parameter.
- `Aggregates`: the `ResultStruct` record (`sum`, `amount`, `unknown`), its
  field-wise addition, and the fold of many records.
- `Partition`: the modulo ownership of line numbers.
- `Checkers`: the loop of the serial checker and the loop of a worker. Both
  are methods proved against the specification function `Tally`. This
  module also holds the central theorem: the workers' records add up to the
  serial record, and some worker aborts exactly when the serial run aborts.
- `Reports`: the final line.
- `Coordinator`: the parent of the pipe mode, with its read-and-fold loop.
  It also holds the mmap mode as it was meant to work, with a shared-region
  class whose `Merge` adds a worker's record into the region.
- `Arguments`: `atoi` and `main`'s choice of mode.
- `Program`: `main` as a whole.
- `AsWritten`: the three defects, modelled as the code is written.

Everywhere except `AsWritten`, the model uses the corrected behaviour.

## Model

| member | source | states |
|---|---|---|
| UrlCheck.StrnEqual | Processes_Multiprocessing_IPC.c:50 | the `strncmp` comparison of the first `k` characters, reading past the end as NUL: comparing zero characters always succeeds, a differing first character fails, and a string always equals itself |
| UrlCheck.CheckUrl | Processes_Multiprocessing_IPC.c:43-71 | `check_url` as written: for a valid probe it returns `URL_ERROR` exactly when the `strncmp` prefix test fails; with the prefix, `URL_UNKNOWN` exactly when the probe failed; otherwise a non-negative time |
| UrlCheck.StrnEqualIsPrefix | Processes_Multiprocessing_IPC.c:50 | `strncmp(url, "http", 4) == 0` holds exactly when `"http"` is a prefix of the C string `url` |
| UrlCheck.Classify | Processes_Multiprocessing_IPC.c:43-71 | the result is an illegal URL exactly when the URL lacks the `http` prefix; a valid probe gives a valid classification |
| UrlCheck.CheckUrlEncodesClassify | Processes_Multiprocessing_IPC.c:43-71 | `check_url`'s real result is the sentinel encoding of its classification: `URL_ERROR` without the prefix, `URL_UNKNOWN` when the probe fails, the lookup time otherwise |
| UrlCheck.NoProbeWithoutPrefix | Processes_Multiprocessing_IPC.c:50-52 | without the prefix the result is `URL_ERROR` whatever the probe would have returned, so no probe outcome is used |
| UrlCheck.Decode | Processes_Multiprocessing_IPC.c:106-116 | callers read `URL_UNKNOWN` as unknown, `URL_ERROR` as illegal, and anything else as a latency equal to the result |
| UrlCheck.DecodeEncode | Processes_Multiprocessing_IPC.c:24-26 | decoding the sentinel encoding gives back every valid classification |
| UrlCheck.CallersRecoverClassification | Processes_Multiprocessing_IPC.c:106-110 | the callers' decoding of `check_url`'s result gives exactly the URL's classification |
| Aggregates.MergeAllAppend | Processes_Multiprocessing_IPC.c:318-324 | folding two runs of records one after the other equals adding their separate folds |
| Aggregates.MergeAllPermutation | Processes_Multiprocessing_IPC.c:318-324 | the fold gives the same total for any order in which the records arrive |
| Partition.UnionOwnedBelow | Processes_Multiprocessing_IPC.c:175 | workers `0..k-1` together own exactly the line numbers whose remainder modulo `n` is below `k` |
| Partition.OwnershipIsPartition | Processes_Multiprocessing_IPC.c:175 | the `n` workers' line sets cover every line, are pairwise disjoint, and line `i` belongs to worker `i % n` |
| Checkers.Step | Processes_Multiprocessing_IPC.c:106-116 | an illegal URL aborts; an unknown URL increments only `unknown`; a latency adds to `sum` and increments only `amount`; otherwise `amount + unknown` grows by one |
| Checkers.TallyClosedForm | Processes_Multiprocessing_IPC.c:101-117 | the loop aborts exactly when some line is illegal; otherwise its record is the field-wise total of the lines |
| Checkers.TallyAbortIsFinal | Processes_Multiprocessing_IPC.c:108-111 | once a prefix of the input aborts, every longer input aborts too |
| Checkers.TallyCountsLines | Processes_Multiprocessing_IPC.c:101-117 | a finished loop has `amount + unknown` equal to the number of lines processed |
| Checkers.TallyNonNegative | Processes_Multiprocessing_IPC.c:101-117 | when every probe reports a non-negative time, all three fields of a finished record are non-negative |
| Checkers.TallyMonotone | Processes_Multiprocessing_IPC.c:101-117 | both counters only grow as more lines are processed |
| Checkers.SerialChecker | Processes_Multiprocessing_IPC.c:101-117 | the serial loop's outcome is the specification `Tally` of all the lines |
| Checkers.OwnedPrefix | Processes_Multiprocessing_IPC.c:174-190 | the lines a worker owns in a prefix of the input come first among the lines it owns in the whole input |
| Checkers.OwnedMembers | Processes_Multiprocessing_IPC.c:174-190 | a worker's lines come from the input, and every line whose number leaves remainder `w` is among them |
| Checkers.OwnedPositions | Processes_Multiprocessing_IPC.c:174-190 | position by position, worker `w`'s `j`-th line is input line `w + j * n`, and the next line it would own lies beyond the input |
| Checkers.OwnedCount | Processes_Multiprocessing_IPC.c:174-190 | a worker handles as many lines as it owns line numbers |
| Checkers.WorkerChecker | Processes_Multiprocessing_IPC.c:174-190 | the worker loop's outcome is `Tally` of exactly the lines whose number modulo `n` equals its id |
| Checkers.SingleWorkerOwnsAll | Processes_Multiprocessing_IPC.c:175 | with one worker, that worker handles every line |
| Checkers.WorkersSumToTotal | Processes_Multiprocessing_IPC.c:318-324 | the field-wise sum of the `n` workers' records equals the serial record |
| Checkers.WorkersMeetEveryInvalid | Processes_Multiprocessing_IPC.c:178-181 | some worker meets an illegal URL exactly when the input holds one |
| Checkers.ParallelAgreesWithSerial | Processes_Multiprocessing_IPC.c:174-190 | every worker finishes exactly when the serial run finishes; then each worker's record is its share, and the shares add up to the serial record |
| Reports.MakeReport | Processes_Multiprocessing_IPC.c:330-338 | the average is printed exactly when `amount > 0`, so there is never a division by zero; it times `amount` gives `sum`; the unknown count is the record's |
| Coordinator.FoldRecords | Processes_Multiprocessing_IPC.c:318-324 | the parent's read loop leaves the fold of all the records it read |
| Coordinator.ParallelPipeChecker | Processes_Multiprocessing_IPC.c:297-324 | with a count of at least one, the pipe mode has the serial outcome; with a count below one, it reports a zeroed record |
| Coordinator.SharedRegion.constructor | Processes_Multiprocessing_IPC.c:85-92 | the region the mmap mode was meant to share starts at zero, mapped and zeroed as `serial_checker` does at these lines; `parallel_mmap_checker` itself never maps one |
| Coordinator.SharedRegion.Merge | Processes_Multiprocessing_IPC.c:321-323 | a worker's record is added field by field into the shared record |
| Coordinator.ParallelMmapChecker | Processes_Multiprocessing_IPC.c:207-247 | with the merge in place, the mmap mode has the serial outcome for every count of at least one, and a zeroed record otherwise |
| Arguments.Atoi | Processes_Multiprocessing_IPC.c:352 | `atoi` after leading white space: a minus sign gives a count of at most zero, otherwise the count is at least zero, and text that starts with neither a sign nor a digit reads as 0 |
| Arguments.AtoiDecimal | Processes_Multiprocessing_IPC.c:352 | `atoi` reads back every count written in decimal |
| Arguments.AtoiNegativeDecimal | Processes_Multiprocessing_IPC.c:352 | `atoi` reads a minus sign followed by decimal digits as the negated count |
| Arguments.Dispatch | Processes_Multiprocessing_IPC.c:344-365 | usage error exactly when there are neither two arguments nor three ending in `-f`; serial exactly when the arguments are well formed and the count reads as 1; pipe exactly with `-f` and another count; mmap exactly with two arguments and another count; the file name is the first argument |
| Program.RunProgram | Processes_Multiprocessing_IPC.c:344-365 | every mode with a count of at least one shows what the serial checker shows: the illegal-URL message or the report of `Tally`; a count below one reports no data and zero unknowns |
| AsWritten.PipeWorkerAsWritten | Processes_Multiprocessing_IPC.c:270-285 | the pipe worker as written, with its counter stuck at 0: worker 0 tallies every line and every other worker none |
| AsWritten.PipeWorkerMisassigns | Processes_Multiprocessing_IPC.c:272 | with two or more workers and lines, line 1 belongs to worker 1, and worker 0 does not own every line |
| AsWritten.PipeWorkerWritesRecord | Processes_Multiprocessing_IPC.c:270-289 | without an illegal URL, worker `w` as written writes record `w` of the as-written records: the total of every line for worker 0, a zeroed record for the others |
| AsWritten.PipeRecordsAsWrittenSumToTotal | Processes_Multiprocessing_IPC.c:318-324 | the as-written records still fold to the serial record, so the printed total is unaffected |
| AsWritten.ParallelMmapAsWritten | Processes_Multiprocessing_IPC.c:207-247 | the mmap mode as written drops every worker's record and reports the parent's zeroed record; in this one-after-another model an illegal URL aborts before the report |
| AsWritten.MmapReportLosesResults | Processes_Multiprocessing_IPC.c:239-247 | for one reachable site the correct report is its average, but the zeroed record reports no data |
| AsWritten.SerialReportAsWritten | Processes_Multiprocessing_IPC.c:124-132 | the serial report as written: the averaged branch agrees with `MakeReport`, and the no-data branch prints the unknown count of the unused local record |
| AsWritten.SerialReportDropsUnknowns | Processes_Multiprocessing_IPC.c:131 | for a file with one unknown URL, the serial report as written prints 0 unknowns where 1 is intended |

## Left out

- Processes and their synchronisation are not modelled: `fork`, `wait`, `kill(0, SIGKILL)`, the named semaphore, `msync` and the byte transfer through the pipe. Workers run one after another, and an illegal URL met by any worker aborts the run. The abort happens exactly when some line is illegal, whatever the order.
- Coordinator.ParallelMmapChecker: does not model the extra `fork` at line 231. That fork makes both the parent and a child print the report, and the parent does not wait for the workers before printing. The model prints one report after all workers are done.
- `curl` is not modelled. The outcome of the HEAD request is a `Probe` parameter: failure, or a completed request with its name-lookup time. That covers a failed `curl_easy_init`, a failed request and a timeout. The HTTP status is not inspected, and the source does not inspect it either.
- File input is not modelled: `fopen`, `getline` and `fclose`. Each line is given directly as the classification `check_url` returns for it. The newline stripping and the source's buffer bugs are not modelled either: `getline(NULL, ...)` in the mmap worker, the pipe worker's file that is never opened, and `fclose(filename)`.
- Latencies are exact `real` numbers, with no IEEE rounding. The report holds the exact average rather than its `%.4f` rendering.
- AsWritten.ParallelMmapAsWritten: does not model the process races of the mmap mode as written. At lines 231-247 the parent and the extra child both print the zeroed report without waiting for the workers, so an illegal URL does not reliably suppress that report: the `kill(0, SIGKILL)` may come before or after it. The model runs the workers first, so an abort always ends the run before any report. It also does not model the region that is never mapped: `mmappedData` is uninitialised (line 208) and `&mmappedData`, a pointer to that pointer, is what the workers receive (line 223).
- Checkers.Step: `amount` and `unknown` are unbounded integers, so the 32-bit `int` overflow of the C counters is not modelled.
- Arguments.Atoi: out-of-range input, which is undefined in C, is not modelled.
- Program.RunProgram: does not model the exit status. The serial mode exits with status 0 on an illegal URL, the parallel modes end by signal, and `usage()` exits with failure. The model does not tell the serial mode's status-0 exit after an illegal URL apart from a successful run.
- `MAX_PROCESSES` is defined but never used, so it is not modelled.

## Findings

| source | as written | input that shows it | evidently intended | confidence | as-written member | corrected member |
|---|---|---|---|---|---|---|
| Processes_Multiprocessing_IPC.c:270-285 | the pipe worker never increments `line_number`, so `line_number % n == worker_id` is always `0 == worker_id` | 2 workers, a file of 2 lines: worker 0 handles both lines and worker 1 none, although line 1 is worker 1's | increment the counter after each line, as the mmap worker does at line 189 | high, not executed | AsWritten.PipeWorkerAsWritten | Checkers.WorkerChecker |
| Processes_Multiprocessing_IPC.c:193-196 | the mmap worker only `msync`s its own stack record; the parent never maps a region (`mmappedData` is left uninitialised at line 208 and its address is passed at 223), nothing carries a worker's record to the parent, and the parent prints its own zeroed `results` | 2 workers or more (a count of 1 runs `serial_checker`, line 352), one line `http://a` that answers in 0.25 s: the intended report is an average of 0.25 from 1 site, but the program prints "No Average ... 0 Unknown" | the parent maps a zeroed region, each worker adds its record into it under the semaphore, and the parent waits for the workers and reports the region | high, not executed | AsWritten.ParallelMmapAsWritten | Coordinator.ParallelMmapChecker |
| Processes_Multiprocessing_IPC.c:131 | the serial no-data message prints `results.unknown`, a local record the loop never updates | a file with one unreachable `http` URL: the loop counts 1 unknown, but 0 is printed | print the shared record's `unknown`, as the averaged branch does | high, not executed | AsWritten.SerialReportAsWritten | Reports.MakeReport |
