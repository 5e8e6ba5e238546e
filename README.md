# pguard: the supervision engine, modelled in Dafny

pguard is a small process supervisor. A configuration file lists processes by name,
working directory, command line and an auto-run flag. For each entry, a `ProcessGuard`
tracks the PIDs it believes are alive and a `guarding` flag. The main loop calls
`guard()` on every entry in order, forever. One call does three things:

1. It erases, in place, every tracked PID for which `kill(pid, 0)` fails.
2. If nothing is left, it runs `pidof <name>` and reads the positive PIDs from the first
   line of its output. A non-empty result is adopted, and the entry is enrolled for
   guarding even if auto-run was off.
3. If nothing is found and the entry is guarded, it launches the command line as a
   doubly forked, detached `sh -c` daemon.

In the model:

- The liveness probe is a parameter `isAlive: int -> bool`.
- What `pidof` prints is a parameter of type `PidofOutput` (`PopenFailed` or
  `Output(text)`).
- The guard's field `log` records, as `Effect`s, the `pidof` lookups and the launches of
  the command. The `kill(pid, 0)` probes, which every call makes on every tracked PID,
  are the input `isAlive` and are not logged.

The files:

- `seqs.dfy`: an order-preserving `Filter` and what it keeps. Pruning dead PIDs is a
  filter.
- `libc.dfy`: the C library behaviour the parser depends on, written as functions:
  - `fgets` into a 128-byte buffer (at most 127 characters, first line only);
  - the end of a C string at its first NUL;
  - `strtok` with delimiter `" "`;
  - `atoi`, modelled as glibc's and bionic's `(int) strtol(s, NULL, 10)` on LP64. It
    skips C white space and takes an optional sign and the longest run of digits.
    Saturation happens at 64-bit `long`, then the value is truncated to 32-bit `int`.
    A token with no leading digits gives 0, and the newline on the last token is
    ignored.
- `pid_scan.dfy`: the parsing loop of `getPidsByName`, as a method with loops proved
  against `PidsOfTokens(Tokens(...))`. It also shows that reading back what `pidof`
  prints returns the PIDs, provided the line fits the buffer.
- `process_guard.dfy`: the class `ProcessGuard`, with fields `name`, `cwd`, `cmdline`,
  `guarding`, `pids` and `log`, and its methods. `Check` is the specification function
  of one `guard()` call. The file also holds lemmas for each transition, and lemmas
  over successive calls (`Run`).
- `supervisor.dfy`: the scan-interval coercion, the construction of the guards from the
  configured entries, and one sweep of the main loop.

Two consequences of the code are worth stating up front:

- `guard()` adopts the PIDs that `pidof` reports without probing them. So
  `Guard.CheckTracksValidPids` promises a passed probe only for the PIDs the prune kept.
- `fgets` reads at most 127 characters of `pidof`'s line. When the line is longer and the
  cut falls after the first digit of a PID, that digit becomes a PID of its own.
  `PidScan.CutLineEndsInPidOne` shows one case: discovery then ends with PID 1.

## Model

| member | source | states |
|---|---|---|
| `Guard.ProcessGuard.constructor` | main.cpp:182-188 | a new guard has the configured name, directory and command, tracks no PID, has logged no effect, and `guarding` equals the auto-run flag |
| `Guard.ProcessGuard.PruneDead` | main.cpp:192-201 | the in-place erase loop leaves in `pids` exactly `Filter(old(pids), isAlive)`: the PIDs whose probe succeeded, in their original order, duplicates kept |
| `Guard.ProcessGuard.GetPidsByName` | main.cpp:78-102 | records one `pidof` lookup for the name and returns exactly the PIDs `Discovered` gives for that output |
| `Guard.ProcessGuard.StartProcess` | main.cpp:105-179 | records exactly one launch of the entry's command line in its working directory, and changes nothing else |
| `Guard.Check` | main.cpp:190-228 | one `guard()` call: it runs no `pidof` and launches nothing exactly when a tracked PID survives the prune; otherwise its first effect is the `pidof` lookup for the entry, and it has at most two effects |
| `Guard.ProcessGuard.Guard` | main.cpp:190-228 | the new `pids` and `guarding` and the effects appended to `log` are those of `Check` on the old state; the only-valid-PIDs invariant is kept |
| `Guard.TrackingIsQuiet` | main.cpp:204-227 | if a tracked PID survives the prune, the call does no lookup and no launch, tracks the survivors and leaves `guarding` unchanged |
| `Guard.NoRelaunchWhileAlive` | main.cpp:193-204 | a tracked PID that is still alive stays tracked, and the call logs no lookup and no launch |
| `Guard.DiscoveryAdopts` | main.cpp:204-214 | if the prune empties the list and pidof finds PIDs, those PIDs are adopted exactly, `guarding` becomes true, and the only effect is the lookup (no launch) |
| `Guard.RestartWhenGone` | main.cpp:204-221 | if the prune empties the list, discovery is empty and the entry is guarded, there is exactly one launch, after the lookup, and the list stays empty |
| `Guard.DormantStays` | main.cpp:204-221 | if the entry is unguarded and nothing is found, the state stays no PIDs and not guarding, and nothing is launched |
| `Guard.LaunchExactlyWhen` | main.cpp:204-221 | a call launches at most once, and it launches if and only if nothing survives the prune, nothing is found and the entry is guarded |
| `Guard.GuardingMonotone` | main.cpp:184-211 | `guarding` never goes from true to false; after a call it is true if and only if it was true before or discovery adopted PIDs |
| `Guard.CheckTracksValidPids` | main.cpp:192-207 | only PIDs in 1..2^31-1 are ever tracked; when pruning leaves PIDs, every tracked PID passed the probe |
| `Guard.CheckIdempotent` | main.cpp:190-228 | when pidof reports only live PIDs and nothing changes, a second call tracks the same PIDs with the same flag as the first |
| `Guard.Run` | main.cpp:292-299 | successive `guard()` calls on one entry, one per sweep: no more than two logged effects and no more than one launch per sweep |
| `Guard.RunKeepsGuarding` | main.cpp:291-296 | over any number of sweeps, a guarded entry stays guarded |
| `Guard.RunRestartsEverySweep` | main.cpp:217-221 | a guarded entry that tracks nothing and whose process is never found is launched exactly once per sweep and keeps tracking nothing |
| `Guard.RunNeverLaunchesDormant` | main.cpp:210-221 | an unguarded entry whose process is never found is never launched and never enrolled, over any number of sweeps |
| `Guard.EchoServiceScenario` | main.cpp:190-228 | an auto-run entry starts with nothing tracked and empty discovery, and is launched once with its command and directory; when pidof then prints `4242`, PID 4242 is adopted with no launch; once 4242 dies, the entry is launched again |
| `Seqs.Filter` | main.cpp:193-201 | the kept elements all satisfy the predicate, are elements of the input, and are no more numerous than the input |
| `Seqs.FilterPositions` | main.cpp:193-201 | the filter is the input read at exactly the positions whose element satisfies the predicate, in increasing order |
| `Seqs.FilterCount` | main.cpp:193-201 | every value is kept as many times as it occurs if it passes, and dropped entirely if it fails (duplicates kept) |
| `Seqs.FilterAppend` | main.cpp:193-201 | filtering a concatenation is concatenating the filtered parts, so relative order is kept |
| `Seqs.FilterUnchanged` | main.cpp:193-201 | the prune removes nothing if and only if every PID passes the probe |
| `Seqs.FilterIdempotent` | main.cpp:193-201 | pruning twice with the same probe is pruning once |
| `Seqs.FilterKeeps` | main.cpp:193-201 | a PID that is in the list and passes the probe survives the prune |
| `LibC.LineLength` | main.cpp:89 | fgets stores at most 127 characters, and never more than the stream holds; it stops after the first newline; it is cut short of 127 only at end of stream or after a newline |
| `LibC.Fgets` | main.cpp:89 | at end of stream nothing is read; otherwise the line read is a non-empty prefix of the stream, at most 127 characters long, with a newline (if any) only as its last character |
| `LibC.CString` | main.cpp:90 | the buffer strtok sees ends just before the first NUL, and holds no NUL |
| `LibC.RunLength` | main.cpp:90-96 | the length of the leading run of non-space characters, ending at a space or at the end |
| `LibC.Tokens` | main.cpp:90-96 | the tokens successive `strtok(..., " ")` calls return: maximal runs of non-space characters, so runs of spaces never yield empty tokens (its properties are the lemmas below) |
| `LibC.TokensOfLastWord` | main.cpp:90-96 | a word written after a space is the last token, whatever precedes it |
| `LibC.TokensOfJoinedWords` | main.cpp:90-96 | splitting non-empty, space-free words joined by single spaces gives those words back |
| `LibC.TokensAreWords` | main.cpp:90-96 | every token strtok returns is non-empty and contains no space |
| `LibC.TokensOfJoin` | main.cpp:90-96 | splitting words joined by single spaces gives those words back; a space-free tail stays attached to the last word, as the newline does in pidof's output |
| `LibC.Strtol` | main.cpp:92 | the converted value always lies in the 64-bit `long` range; the value itself is pinned by `StrtolExact`, `StrtolSaturates` and `AtoiNoDigits` |
| `LibC.NumeralParts` | main.cpp:92 | for white space, an optional `+` or `-` and a digit run not followed by a digit, strtol's sign is the sign written and its magnitude is the value of exactly that digit run |
| `LibC.StrtolExact` | main.cpp:92 | white space, an optional sign and digits whose value fits a `long` convert to exactly that value, negated after a minus sign, whatever non-digit follows |
| `LibC.StrtolSaturates` | main.cpp:92 | white space, an optional sign and digits whose value exceeds LONG_MAX convert to LONG_MAX, or to LONG_MIN after a minus sign |
| `LibC.ToInt` | main.cpp:92 | the `long`-to-`int` conversion lands in the 32-bit range, is congruent to its input modulo 2^32, and is the identity on values already in range |
| `LibC.Atoi` | main.cpp:92 | `atoi` yields a 32-bit `int`; its value is pinned by `Strtol`'s lemmas and `ToInt` |
| `LibC.AtoiNoDigits` | main.cpp:92-93 | a token that, after white space and an optional sign, does not start with a digit converts to 0 (so it is never kept as a PID) |
| `LibC.AtoiWraps` | main.cpp:92 | an unsigned or `+`-signed numeral whose value fits a `long` but not an `int` is narrowed to its two's-complement remainder, which differs from it (on LP64) |
| `PidScan.PidsOfTokens` | main.cpp:91-97 | the positive `atoi` values of the tokens, kept in order by `Seqs.Filter`: every PID produced is in 1..2^31-1, and there are no more PIDs than tokens |
| `PidScan.PidsOfTokensAppend` | main.cpp:91-97 | the PIDs of consecutive token runs are consecutive, so PIDs appear in token order |
| `PidScan.PidsOfTokensSnoc` | main.cpp:92-95 | one more token adds its `atoi` value at the end exactly when that value is positive |
| `PidScan.PidsOfLine` | main.cpp:90-97 | the PIDs parsed from the buffer fgets filled are all in 1..2^31-1 |
| `PidScan.Discovered` | main.cpp:83-101 | discovery yields only positive PIDs, and yields none when popen fails or pidof prints nothing |
| `PidScan.SkipDelimiters` | main.cpp:90-96 | skipping spaces stops at a non-space character or at the end, and loses no token |
| `PidScan.TokenEnd` | main.cpp:90-96 | the token that starts at a non-space character runs to the next space or the end, and is the next token strtok returns |
| `PidScan.ParseTokens` | main.cpp:90-97 | the strtok loop returns exactly `PidsOfTokens(Tokens(text))` |
| `PidScan.ParseLine` | main.cpp:89-97 | parsing the buffer returns exactly the PIDs of the C string it holds |
| `PidScan.ReadPids` | main.cpp:83-101 | reading one pidof output returns exactly `Discovered` of it |
| `PidScan.AtoiOfDecimal` | main.cpp:92 | `atoi` reads back a decimal `int` followed by a non-digit or by nothing (such as the trailing newline) |
| `PidScan.StrtolOfLargeDecimal` | main.cpp:92 | a decimal numeral beyond LONG_MAX reads as LONG_MAX, and after a minus sign as LONG_MIN |
| `PidScan.AtoiOfNegativeDecimal` | main.cpp:92-93 | `atoi` reads a minus sign followed by a decimal `int` magnitude as the negative number, so such a token is not kept |
| `PidScan.PidofRoundTrip` | main.cpp:83-101 | parsing what pidof prints for PIDs in 1..2^31-1 returns exactly those PIDs in order, when the line fits in 127 characters |
| `PidScan.FgetsCutsLongLine` | main.cpp:89 | a line with no newline in its first 127 characters is cut after exactly 127 characters |
| `PidScan.CutLineEndsInPidOne` | main.cpp:89-97 | when pidof's line is longer than the buffer and characters 125 and 126 are a space and `1`, the last PID discovered is 1 |
| `Supervisor.ScanInterval` | main.cpp:249-261 | the interval is at least 1; a configured value of at least 1 is kept; an absent, unconvertible or smaller value gives 1 |
| `Supervisor.CreateGuards` | main.cpp:272-281 | one new, distinct guard per configured process, in order, each with its configuration, no PIDs, and `guarding` equal to its auto-run flag |
| `Supervisor.Sweep` | main.cpp:291-296 | one sweep moves every entry by exactly one `Check` against what it observes, and keeps every guard's invariant |

## Left out

- `startProcess` internals (fork, setsid, the second fork, closing descriptors, `/dev/null` redirection, chdir, umask, `execl`, `waitpid`): OS process plumbing. The model records only the launch request `Launch(cmdline, cwd)`. A fork or exec failure changes no state the supervisor keeps, so the next sweep retries in either case.
- `popen`/`pclose` of `pidof`: the text pidof prints is an input. A failed popen is `PopenFailed`, and a read error from fgets is treated like an empty stream. `PidofText` describes pidof's own output format, which is outside pguard and is assumed.
- `kill(pid, 0)`: an OS oracle, taken as the predicate `isAlive`. It is assumed stable during one `guard()` call, so a PID listed twice gets the same answer both times.
- JSON loading and nlohmann's conversions (main.cpp:234-270): a foreign library plus file I/O. `ScanInterval` takes the outcome of `get<int>()` as its input, and `CreateGuards` takes the already converted entries. The fallback from a `processes` key to a bare top-level array is left out, and so are the exit code 1 paths.
- Logging macros and the `anyDead` flag: side-effect-only output. `anyDead` only chooses a log message.
- The endless loop and its `sleep(5)`, `usleep(5000)` and `sleep(scan_interval)`: timing and non-termination. One sweep is `Sweep`, and single-entry histories are `Run`. Each guard keeps its own `log`, so the interleaving of effects across entries within a sweep is not one observable sequence in the model.
- `LibC.Strtol`: only the "C" locale's white space and base 10 are modelled.
- `LibC.Atoi`, `LibC.AtoiWraps`: `long` is modelled as 64 bits (LP64). On 32-bit (ILP32) builds, such as 32-bit Android (main.cpp:15-41), `long` is 32 bits: strtol saturates at INT_MAX and INT_MIN there and `AtoiWraps` does not hold. PIDs are far below 2^31, so discovery of real PIDs is the same on both.
