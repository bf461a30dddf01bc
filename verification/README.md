# tinylb, verified

A Dafny model of the parts of tinylb that hold state or arithmetic, and proofs of what they promise
over whole runs. `dafny verify dfyconfig.toml` checks everything.

## What is modelled

**Registry and requests** (`src/backends.rs`, and the order of calls in `src/main.rs`, `src/http_proxy.rs`,
`src/proxy.rs`). `Hosts` is host parsing and routing, with a specification by dot-separated labels.
`Selection` is least-connections selection on snapshots. `Registry` is the reload as a function on a value:
every backend and group object ever made keeps its index, so an index is an identity. `Backends` holds the
classes with their loops and in-place stores; each method is proved equal to the function of `Selection`,
`Hosts` or `Registry`, with ghost indices tying heap identity to the model's. `Requests` is the concurrent
machine: any number of requests, each atomic load of the scan one step, the guard taken in a later step, and
health flips and the single stores of reloads in between. `CapTightness` shows the bound proved there is
reached. `ReloadSteps` shows that a reload is a particular sequence of those stores and that its outcome is
the same however requests are mixed in.

**Error throttle** (`src/throttle.rs`). `Throttle` is the class; `ThrottleMachine` runs any number of threads,
one atomic operation a step, with stale clock readings and the window changing at any point.

**Rotating log** (`src/logfile.rs`). `LogFile`, over a file system whose calls may fail one by one.

**Accept key** (`src/main.rs`). `Sha1` against RFC 3174 sections 4 and 6.1, `Base64` against RFC 4648
section 4, `AcceptKey` against RFC 6455 section 4.2.2. `KnownAnswers` works the examples of RFC 3174 section 7.3 and
RFC 6455 section 1.3 through, round by round.

**Stats** (`src/stats.rs`). `Stats` is the rings and the JSON printer; `Json` a strict reader of RFC 8259
sections 2 to 7; `StatsJson` connects the two; `Sampler` is the sampling loop beside requests and reloads.

**Rolling updates** (`examples/rolling-update`). `Rolling` and `RollingRuns` are the protocol both scripts
follow, for any notion of target: what a run does is a sequence of effects, an abort anywhere leaves a
prefix of it, and tinylb may load the file on its own between any two of them. `RollingAnswers` says how far a run
gets with what docker answers. `Containers` says which container
a backend's URL reaches. `RollingUpdate` and `SimpleScript` are `simple.py`, `RollingRestart` and `RestartScript` the
library. `DrainSafety` connects them with the registry: what draining a URL does to later requests.

## What turned out not to hold

- README.md:110 calls `max_connections` a hard cap. With selection and counting being separate steps it is one
  exactly when at most one request at a time is between them (`CapTightness.HardCapExactlyWhenSerialized`).
  In general the bound is m - 1 + k, and it is reached.
- README.md:120 bounds the log's disk use. One write is sure to keep the bound exactly when the live file can be
  moved out of the way, or the write fails, or the file can be opened neither in the rotation nor after it
  (`LogFile.KeepsBoundsExactly`). Over all runs with a given set of possible faults the bound holds exactly when
  each of them is of that kind and the set does not hold both faults that leave the live file in place with the
  log closed, so that its size is forgotten, and faults under which a write to a closed log succeeds
  (`LogFile.RunsBoundedExactly`). `LogFile.StuckLiveFileGrows` is a log that outgrows every limit.
- `to_json` does not escape control characters, so its output is JSON exactly when no URL holds one
  (`StatsJson.ToJsonRoundTrip`).
- A service may take traffic while it is restarted. What reaches it is decided by the host in a backend's URL,
  whatever the scheme and port, and by the drain flags that tinylb has loaded, not those in the file. A target found
  drained in the file is restarted without a new signal, so tinylb may be behind the file on the first target, and
  on no other. `simple.py` keeps traffic away from every target until it is healthy exactly when every other URL with
  its host is drained all along and the first target, unless tinylb is sure to have loaded the file, is quiet in what
  tinylb has loaded (`RollingUpdate.TrafficQuietExactly`); with plain URLs the first part is one target URL per
  service (`RollingUpdate.OneUrlTrafficExactly`). The library, which drains one route only, does so exactly when what
  reaches a service is that one backend, or drained all along, with the same exception for the first backend
  (`RollingRestart.RouteTrafficExactly`).
- That exception is reached. `RollingRuns.StrandedDrain` is a run that starts with tinylb up to date and stops
  between a write and its signal, and the next run restarts the target while tinylb still sends it traffic, unless
  tinylb's own poll of the file comes first (`RollingRuns.LoadedDrainedExactly`). Of the runs that start with tinylb
  up to date only those that stop there do so (`RollingRuns.UnsafeExactlyBeforeSignal`,
  `RollingUpdate.StoppedTrafficExactly`).

## Premises

- Counters of errors, samples and suppressed lines do not overflow; connection counters wrap as in the source
  and are proved never to, for up to `USIZE_MAX` requests at once.
- Where stated, hosts are distinct and the URLs of a route are distinct (the code takes the first match).
- A backend removed and added again is a new object; counter claims are per object.
- Atomic operations interleave one at a time. Locks are not modelled: the machine allows more interleavings
  than the locks of the registry do, so what it never does, tinylb never does.
- Traffic sent to a container means requests that select a backend there; those under way when it is drained are given
  the scripts' waiting time and no more.
- A write of one log line happens entirely or not at all; so does a write of `lb.toml`, which nobody else edits.

## Model

| member | source | states |
|---|---|---|
| Hosts.SuffixIsLabels | src/backends.rs:241-243 | a wildcard suffix matches by bytes exactly when its labels are the host's last ones and at least one more label, possibly empty, is left over |
| Hosts.LongerMeansMoreLabels | src/backends.rs:239-247 | of two wildcards that match one host, the longer in bytes is the one with more labels |
| Hosts.FindGroupByLabels | src/backends.rs:221-248 | find_group returns a route exactly when some route matches; it is an exact match if there is one, otherwise the wildcard sharing the most labels |
| Hosts.BestMatchUnique | src/backends.rs:239-247 | the best match is unique among routes that differ by more than case |
| Hosts.RouteOrderIrrelevant | src/backends.rs:221-248 | permuting the routes does not change the match |
| Hosts.CaseAndPortIgnored | src/backends.rs:222-226 | the result ignores ASCII case and everything from the first colon on |
| Hosts.BeforeColon | src/backends.rs:222-226 | the longest prefix without a colon |
| Hosts.RoutesByHost | src/backends.rs:221-248 | for a name with or without a port a route is found if and only if some configured host is that name up to case or a star whose tail the name ends in; a plain host goes before a star and a longer star before a shorter |
| Hosts.ParseRejectsExactly | src/backends.rs:82-104 | rejected are exactly the hosts with a star anywhere but in a leading "*.", and "*." itself |
| Hosts.ParseErrors | src/backends.rs:82-104 | which of the three errors is returned |
| Hosts.ParseUpToCase | src/backends.rs:82-104 | hosts that differ in case only parse alike |
| Selection.Select | src/backends.rs:133-160 | the result is the first eligible backend with the fewest connections, or none is eligible; the usize::MAX sentinel hides none |
| Selection.SelectIsLeastLoaded | src/backends.rs:133-160 | both directions: a backend is selected if and only if it is the first least loaded eligible one |
| Selection.SelectionInFields | src/backends.rs:138-157 | the same in the fields: not draining, healthy, below the cap, fewest connections, first of those |
| Selection.ArrivalsKeepBalance | src/backends.rs:133-160 | sequential arrivals keep loads within one of each other wherever there is room, and within capacity |
| Selection.AdmittedAreActive | src/backends.rs:133-160 | admitted requests equal live connections equal min(k, total capacity) |
| Selection.SequentialArrivals | src/main.rs:359-369 | of k sequential requests on idle backends exactly min(k, total capacity of the eligible ones) are admitted, balanced to within one |
| Registry.ApplyConfigsApplies | src/backends.rs:163-200 | applying backends keeps old objects and their run-time fields, touches no object outside the group and gives each place the first object with its URL or a new one |
| Registry.LastConfigWins | src/backends.rs:168-188 | a URL configured more than once in a route shares an object, and the last of its configs stands |
| Registry.ApplyBackendsChanges | src/backends.rs:163-200 | reloading one group keeps the registry well formed and changes nothing of any other group |
| Registry.NewGroupChanges | src/backends.rs:117-130 | a new group gets the configured backends, all new, and changes nothing else |
| Registry.ApplyRoutesReloads | src/backends.rs:260-271 | after the routes, each one's group is the old group of its host or a new one, configured from what it held |
| Registry.ReloadIsAllOrNothing | src/backends.rs:251-281 | one host that does not parse and nothing changes; otherwise, with distinct hosts and URLs, the table equals the config in order with URLs, caps and drain flags |
| Registry.SurvivorsKeepTheirObjects | src/backends.rs:169-174 | a host and URL that were listed and still are keep their object, with its connections, health and errors |
| Registry.ReloadPreservesObjects | src/backends.rs:163-200 | no object, listed or removed, loses its URL, connections, health or error count, and new ones start unused |
| Registry.ReapplyingIsIdentity | src/backends.rs:251-281 | applying the same config again changes nothing |
| Backends.Backend.constructor | src/backends.rs:27-39 | a new backend has the config's URL, cap and drain flag, is healthy and has no connections and errors |
| Backends.ConnectionGuard.constructor | src/backends.rs:289-297 | taking a guard adds one connection and changes nothing else |
| Backends.ConnectionGuard.Drop | src/backends.rs:301-312 | dropping it takes one off and changes nothing else |
| Backends.GuardRoundTrip | src/backends.rs:289-312 | a guard taken and dropped leaves the backend as it was, at every count |
| Backends.BackendGroup.SelectBackend | src/backends.rs:133-160 | the scan with best and best_count returns what Select determines |
| Backends.BackendGroup.ApplyBackends | src/backends.rs:163-200 | the new list and every object are those of Registry.ApplyConfigs |
| Backends.BuildBackends | src/backends.rs:168-188 | the loop over the configs stores into existing objects and makes new ones, as the value model does |
| Backends.NewBackendGroup | src/backends.rs:117-130 | fails exactly when the host does not parse, else the group of the route with new backends |
| Backends.NewRegistry | src/backends.rs:209-217 | succeeds exactly when every host parses, with the registry that a reload makes of an empty one; else the first bad host's error |
| Backends.BackendRegistry.FindGroup | src/backends.rs:221-248 | the two searches return a listed group that matches the host best, by labels and by the configured host strings, or none and no listed group matches; of equal matches the one that Hosts.FindGroup determines |
| Backends.FirstBadHost | src/backends.rs:253-255 | the validation finds the first host that does not parse, or there is none |
| Backends.BackendRegistry.ApplyConfig | src/backends.rs:251-281 | the registry afterwards is Registry.ApplyConfig of the one before, Ok exactly when all hosts parse, and an error changes nothing |
| Backends.BackendRegistry.ApplyAll | src/backends.rs:257-271 | the loop over the routes against the old table |
| Backends.BackendRegistry.ApplyOneRoute | src/backends.rs:261-271 | one route: its group updated in place or added |
| Backends.BackendRegistry.UpdateGroup | src/backends.rs:261-264 | updating one group in place leaves all other objects alone |
| Backends.BackendRegistry.AddGroup | src/backends.rs:265-270 | the unwrap of a validated route never fails |
| Requests.CountersEqualLiveGuards | src/backends.rs:289-312 | in every interleaving each object's counter, removed objects included, equals its live guards |
| Requests.CountersNeverWrap | src/backends.rs:289-312 | no decrement finds zero and no increment finds usize::MAX |
| Requests.GuardTakenAndDropped | src/backends.rs:289-312 | taking a guard counts one more connection on the chosen object and changes nothing else, and dropping it gives it back |
| Requests.RouteByLabels | src/backends.rs:221-248 | an arriving request goes to the group that matches its host best by labels, and is turned away only if none matches |
| Requests.RouteByHost | src/backends.rs:221-248 | the same by configured hosts, for a name with or without a port |
| Requests.ScanStepWindow | src/backends.rs:146-156 | a scan step makes a request one that may take a guard only by loading a count below the cap |
| Requests.ConnectionBound | src/main.rs:359-429 | with caps up to m and at most k requests at once between loading the count and taking the guard or giving up, connections never exceed m - 1 + k, in every interleaving with reloads and health flips |
| Requests.DrainedIsNeverSelected | src/backends.rs:139-141 | while an object stays drained no scan that has not yet passed its drain flag returns it |
| Requests.ScannedIsSelected | src/backends.rs:133-160 | best and best_count after i backends are the selection among those |
| Requests.SoloScanSelects | src/backends.rs:133-160 | a scan that nothing disturbs chooses what Select returns and changes nothing else |
| CapTightness.BoundIsReached | src/main.rs:359-429 | for every m and k some run from a quiet registry reaches m - 1 + k connections |
| CapTightness.HardCapExactlyWhenSerialized | README.md:110 | max_connections is a hard cap if and only if at most one request at a time is between load and guard |
| ReloadSteps.ReloadStepsApply | src/backends.rs:163-281 | the single stores of a reload, in order and undisturbed, are apply_config |
| ReloadSteps.ReloadAmidTraffic | src/backends.rs:251-281 | however requests, guard drops and health flips are mixed into a reload, the table afterwards shows the config |
| Throttle.ErrorThrottle.constructor | src/throttle.rs:42-48 | a throttle starts never logged |
| Throttle.ErrorThrottle.CompareExchangeLast | src/throttle.rs:78-81 | stores exactly when the expected value is found |
| Throttle.ErrorOutcomeMeans | src/throttle.rs:71-88 | an error is let through if and only if none was before or now is at least a window after the last stamp, with the swallowed count and the stamp stored; any other is counted and nothing else changes |
| Throttle.ErrorThrottle.OnErrorAt | src/throttle.rs:71-88 | Some(suppressed) with now stored if and only if the last stamp is 0 or now is at least a window after it; others are counted; window 0 lets all through |
| Throttle.ErrorThrottle.OnSuccess | src/throttle.rs:59-69 | the first success after an error reports recovery with the swallowed count, others nothing |
| ThrottleMachine.SwallowedErrorsAreConserved | src/throttle.rs:59-88 | in every interleaving and under any windows, errors swallowed equal the counts handed out plus the counter |
| ThrottleMachine.AccountedAlways | src/throttle.rs:59-88 | every call, admission and recovery is accounted for at every step |
| ThrottleMachine.RecoveriesNeverExceedAdmissions | src/throttle.rs:59-84 | recoveries never outnumber the errors admitted for logging |
| ThrottleMachine.EveryErrorLoggedOrSwallowed | src/throttle.rs:71-88 | once all threads are idle each error was logged or counted, never both |
| ThrottleMachine.RecoveriesAlternateWithStores | src/throttle.rs:59-84 | between two recoveries in_error was stored again |
| ThrottleMachine.StampsRiseByWindow | src/throttle.rs:76-81 | if every call uses a window of at least w, successive winning stamps rise by at least w, stale clocks included |
| ThrottleMachine.WindowsFollowConfig | src/throttle.rs:22-24 | calls use windows that were configured |
| ThrottleMachine.AtMostOneErrorPerWindow | src/throttle.rs:71-88 | at most (T - 1) / w + 1 errors are let through with stamps in 1..T |
| ThrottleMachine.AtMostOneErrorPerConfiguredWindow | src/throttle.rs:22-24 | the same bound in configured seconds |
| ThrottleMachine.SwallowedWithinWindow | src/throttle.rs:71-88 | in every interleaving a swallowed error had loaded a stamp less than its window before its clock reading, or another thread's error was admitted between its load and its compare_exchange |
| ThrottleMachine.SoloErrorRefines | src/throttle.rs:53-88 | a call that runs alone does what OnErrorAt does |
| ThrottleMachine.SoloSuccessRefines | src/throttle.rs:59-69 | likewise for OnSuccess |
| LogFile.Inner.Rotate | src/logfile.rs:38-56 | the rename cascade and reopening, under any failures, compute Rotated |
| LogFile.Inner.WriteLine | src/logfile.rs:58-74 | a write, under any failures, computes Written |
| LogFile.NewRotatingFile | src/logfile.rs:82-97 | a log opens with the live file's length as its size, or fails |
| LogFile.CleanShift | src/logfile.rs:44-47 | a clean cascade moves every file up by one, gaps included |
| LogFile.CleanRotation | src/logfile.rs:38-56 | a clean rotation cuts off exactly the oldest file and empties the live one, for max_files 0 as well |
| LogFile.CleanWrite | src/logfile.rs:58-74 | a clean write appends its line to the chain and cuts at most one whole file |
| LogFile.RetainsSuffix | src/logfile.rs:38-74 | over failure-free runs the files read in order are the start's and all lines written, minus whole files cut off the old end; size equals the live file's length |
| LogFile.DiskUseBounded | src/logfile.rs:38-97 | in those runs every file stays within the limit, the longest write and its size at the start, and disk use within (max_files + 1) times that |
| LogFile.NeverRotatesEarly | src/logfile.rs:58-61 | from an empty chain each rotated file and its successor together exceed max_size |
| LogFile.FaultyWrite | src/logfile.rs:38-74 | one write under any failures retains a subsequence of what was there and the line |
| LogFile.LineLandsExactly | src/logfile.rs:58-74 | under any failures a line is in the live file, and last in the chain, if and only if the log is open for it, from before, from the rotation or from reopening, and the write succeeds |
| LogFile.RetainsSubsequence | src/logfile.rs:38-74 | over runs with any failures the retained lines are an in-order subsequence of those written |
| LogFile.ContainedWrite | src/logfile.rs:38-74 | a write under faults of a harmless set keeps every file within the bound; removing, opening and all other renames may fail |
| LogFile.KeepsBoundsExactly | README.md:120 | from every state with the live file's size right, one write keeps the bound on all files if and only if the live file can be moved away, the write fails, or both attempts to open fail |
| LogFile.DiskUseBoundedUnderFaults | src/logfile.rs:38-74 | over every run with faults from a harmless set each file stays within the bound and disk use within (max_files + 1) times it |
| LogFile.RunsBoundedExactly | README.md:120 | over all runs of a log as opened, with faults from a given set, the bound holds if and only if each fault pattern keeps it in one write and the set has no pattern that closes the log over a stuck live file together with one under which a write to a closed log succeeds |
| LogFile.StuckLiveFileGrows | README.md:120 | when moving the live file fails every time it keeps every line, so the disk bound does not hold |
| Sha1.PaddingIsUnique | src/main.rs:493-500 | the padding of RFC 3174 section 4 exists, is unique and is the one computed |
| Sha1.PaddingIsReversible | src/main.rs:493-500 | below 2^61 bytes the message can be read back from its padding, whose length is a multiple of 64 |
| Sha1.ChoosesByB | src/main.rs:531 | in the first 20 rounds f takes each bit from c or d as b says |
| Sha1.IsParity | src/main.rs:532-534 | in rounds 20 to 39 and 60 to 79 f is the third word wherever two agree |
| Sha1.IsMajority | src/main.rs:533 | in rounds 40 to 59 f is what two words agree on |
| Sha1.ConstantsAreRoots | src/main.rs:530-535 | k is the square root of 2, 3, 5 or 10 times 2^30, rounded down |
| Sha1.RotationsDouble | src/main.rs:524-545 | rotating left by one doubles with the carry brought back in, and the other rotations are repetitions of that |
| Sha1.WordsAreBigEndian | src/main.rs:515-523 | a word is the big-endian number of its bytes |
| Sha1.WordRoundTrip | src/main.rs:506-510 | the bytes of a word read back as the word |
| Sha1.RoundUndone | src/main.rs:529-547 | the inverse of one round undoes it, in each of the four ranges of f and k |
| Sha1.RoundsAreABijection | src/main.rs:513-548 | for every block the 80 rounds are a bijection on the state, undone by an explicit inverse |
| Sha1.Sha1.constructor | src/main.rs:480-486 | starts from the initial words with nothing collected |
| Sha1.Sha1.Update | src/main.rs:488-491 | appends the data |
| Sha1.Sha1.Pad | src/main.rs:493-500 | the padding loop terminates with the padding of RFC 3174 section 4 |
| Sha1.Schedule | src/main.rs:514-526 | the 80 words are the W of RFC 3174 section 6.1 |
| Sha1.Sha1.ProcessBlock | src/main.rs:513-555 | one block updates the state by 80 rounds and the additions |
| Sha1.Sha1.Output | src/main.rs:506-510 | the digest is the five words, big-endian |
| Sha1.Sha1.Finalize | src/main.rs:493-511 | the digest of RFC 3174 section 6.1 over all data collected |
| Sha1.HashPieces | src/main.rs:463-468 | splitting a message over update calls in any way gives the same digest |
| KnownAnswers.DigestOfAbc | src/main.rs:493-555 | the digest of "abc" is that of RFC 3174 section 7.3 |
| Base64.ValueOfCharOf | src/main.rs:558-582 | each six-bit value has its own character of the RFC 4648 alphabet |
| Base64.AlphabetIs | src/main.rs:559 | the 64 characters are those of RFC 4648 table 1, in order |
| Base64.SextetsAreDigits | src/main.rs:563-566 | the four six-bit values are the base 64 digits of the 24-bit number |
| Base64.TripleGroup | src/main.rs:563-578 | shifting a padded 24-bit triple gives the group's characters |
| Base64.Base64Encode | src/main.rs:558-582 | the loop computes the encoding of RFC 4648 section 4 |
| Base64.EncodedDecodes | src/main.rs:558-582 | decoding an encoding gives back every byte string |
| Base64.DecodedEncodes | src/main.rs:558-582 | what decodes is the encoding of its value |
| Base64.DecodesExactlyItsEncodings | src/main.rs:558-582 | a string decodes to x if and only if it is x's encoding |
| Base64.EncodedShape | src/main.rs:558-582 | the length is 4 times the ceiling of n/3, with '=' exactly at the padding places |
| AcceptKey.ComputeAcceptKey | src/main.rs:463-470 | the key of RFC 6455 section 4.2.2 |
| AcceptKey.AcceptKeyShape | src/main.rs:463-470 | it always has 28 characters, only the last of which is '=', and the digest can be read back from it |
| KnownAnswers.AcceptKeyOfExample | src/main.rs:463-470 | the accept key of the example of RFC 6455 section 1.3 is the one given there |
| Stats.Stats.Record | src/stats.rs:31-46 | appends to the URL's ring, dropping the oldest of 1440, and leaves other rings alone |
| Stats.Stats.ToJson | src/stats.rs:48-82 | the nested loops with their first flags print the text of the map in iteration order |
| Stats.WriteEntry | src/stats.rs:53-79 | one URL and its samples |
| Stats.WriteEscaped | src/stats.rs:53-67 | the escaping loop |
| Stats.WriteSamples | src/stats.rs:67-79 | the loop over samples |
| StatsJson.DecimalRoundTrip | src/stats.rs:67-79 | a printed number reads back as itself |
| StatsJson.UrlReads | src/stats.rs:53-67 | an escaped URL reads back as itself, or not at all if it holds a control character |
| StatsJson.TextReads | src/stats.rs:48-82 | the text is JSON by RFC 8259 exactly when all URLs are clean, and is then the object printed |
| StatsJson.EntriesRoundTrip | src/stats.rs:163-167 | reading the object gives back the URLs and sample sequences |
| StatsJson.ToJsonRoundTrip | src/stats.rs:48-82 | for any map and iteration order, parsing the output returns exactly the map's URLs and samples if and only if no URL holds a character below U+0020 |
| Sampler.ErrorsAreConserved | src/stats.rs:95-106 | in every interleaving with errors and reloads, errors counted for a URL equal those in all samples pushed, those swapped and not yet recorded and those still in counters, removed backends included |
| Sampler.VisitsInOrder | src/stats.rs:88-106 | in every interleaving the groups read are those of the table at each tick, in order, and the URLs pushed those of all objects of the lists read, in order, up to what is still ahead |
| Sampler.ToursAreComplete | src/stats.rs:88-106 | whenever the sampler rests, every listed object of every group of its tours has been sampled, once per place |
| Sampler.TourSamplesEveryPlace | src/stats.rs:88-106 | a tick and undisturbed steps come back to rest with exactly one sample pushed for each place of each listed group, in table order |
| Sampler.VisitSamples | src/stats.rs:101-105 | one visit loads the connections, swaps the errors for 0 and records both under the object's URL with the time |
| Sampler.CounterIsSinceSwap | src/stats.rs:103 | in every interleaving an object's error counter is what was counted since its last swap |
| Sampler.RecordedIsLastN | src/stats.rs:31-46 | recording keeps exactly the last 1440 |
| Sampler.RingIsLastSamples | src/stats.rs:31-46 | a URL's ring is exactly its last min(n, 1440) samples in order |
| Rolling.OrderIsPermutation | examples/rolling-update/simple.py:195-200 | each target has exactly one place in the restart order |
| Rolling.OrderPlaces | examples/rolling-update/simple.py:195-200 | the drained targets come first |
| Rolling.OrderIsStable | examples/rolling-update/simple.py:195-200 | drained targets keep their order among themselves, and so do active ones |
| Rolling.StageBounded | examples/rolling-update/simple.py:236-269 | while k targets are done and the next is worked on, at most the initially drained number, or one, are drained |
| Rolling.StoppedComesFirst | examples/rolling-update/simple.py:195-200 | if a run stops at a target, the next order starts with it |
| Rolling.DrainedToCome | examples/rolling-update/simple.py:195-200 | which drained targets have their turn after a given one |
| RollingRuns.CutIsStage | examples/rolling-update/simple.py:236-269 | wherever a run is aborted, the drained targets are those of such a stage |
| RollingRuns.DrainedTargetsBounded | examples/rolling-update/simple.py:214-275 | at every abort point at most max(initially drained, 1) targets are drained in the file |
| RollingRuns.LoadedTargetsBounded | examples/rolling-update/simple.py:214-275 | at every abort point and with any loads of its own, tinylb has at most that many drained, or as many as when the run started |
| RollingRuns.RerunsBounded | examples/rolling-update/simple.py:214-275 | both bounds over any number of aborted runs and re-runs, with what tinylb has loaded carried along |
| RollingRuns.RestartedWhileDrained | examples/rolling-update/simple.py:242-253 | a target is restarted only while drained in the file |
| RollingRuns.RestartAt | examples/rolling-update/simple.py:236-269 | every target has its restart, at which the earlier ones are back in rotation |
| RollingRuns.StoppedTargetRecoversFirst | examples/rolling-update/simple.py:255-261 | after a health failure the target stays drained and comes first on the next run |
| RollingRuns.FullRunFinishes | examples/rolling-update/simple.py:236-275 | a run that gets through restarts each target exactly once and leaves none drained, in the file and in tinylb |
| RollingRuns.LoadedDrainedExactly | examples/rolling-update/simple.py:242-253 | tinylb itself has every target drained at its restart if and only if it is not behind the file on the first target of the order or loads the file by its poll before the run |
| RollingRuns.StrandedDrain | examples/rolling-update/simple.py:106-108 | a run stopped after its first write, before the signal, leaves tinylb with the old config, and the next run's first effect is to restart the target that tinylb still has active |
| RollingRuns.UnsafeExactlyBeforeSignal | examples/rolling-update/simple.py:242-253 | after a run that started with tinylb up to date and stopped anywhere, and without loads of tinylb's own, the next run restarts a target not drained in tinylb if and only if the stop was between writing a drain and signalling it |
| RollingRuns.DrainedAtRestart | examples/rolling-update/simple.py:195-253 | the other targets drained at a restart are those drained from the start that come later, if the restarted one was drained from the start too |
| RollingRuns.HoldsExactly | examples/rolling-update/simple.py:242-261 | a condition on what tinylb has loaded holds from each restart until the target is healthy if and only if it holds of the file then, except for a first target found drained, for which, without a poll, it has to hold of what was loaded at the start |
| RollingRuns.HoldsFromFile | examples/rolling-update/simple.py:242-261 | for a run that starts with tinylb up to date it holds of what tinylb has loaded if and only if it holds of the file |
| RollingRuns.RerunsKeep | examples/rolling-update/simple.py:100-107 | what setting drain flags cannot change stays in the file and in tinylb over any number of aborted runs |
| RollingAnswers.WaitHealthy | examples/rolling-update/simple.py:183-192 | true exactly when some status until the timeout is "healthy" |
| RollingAnswers.CompletesExactly | examples/rolling-update/simple.py:236-269 | a run gets through if and only if every signal needed, every restart and every health wait succeeds |
| RollingAnswers.FailureStopsRun | examples/rolling-update/simple.py:253-261 | a target whose restart fails or that is not healthy in time is where the run ends: its restart is the last effect, it stays drained in the file, and the next run starts with it |
| RollingAnswers.UndrainsAfterHealth | examples/rolling-update/simple.py:256-266 | a write that undrains a target comes only after its restart succeeded and it was healthy, all answers before having been good |
| RollingAnswers.RunIsPrefix | examples/rolling-update/simple.py:236-269 | the run under any answers is a prefix of the full run |
| RollingUpdate.SetDrainDrains | examples/rolling-update/simple.py:100-124 | setting drain on a URL makes is_drained true, clearing makes it false, and no other URL is affected |
| RollingUpdate.ServiceOfIs | examples/rolling-update/simple.py:81-86 | the service of an http or https URL is what stands before the first ':' or '/' after the scheme |
| RollingUpdate.ServiceOfMeans | examples/rolling-update/simple.py:81-86 | and only such URLs have one |
| RollingUpdate.CollectIsTargets | examples/rolling-update/simple.py:89-97 | the URLs collected are those of target services, each once; collecting fails exactly when some URL cannot be parsed |
| RollingUpdate.CollectGrows | examples/rolling-update/simple.py:89-97 | they come in order of first occurrence |
| RollingUpdate.SetDrainKeepsUrls | examples/rolling-update/simple.py:100-107 | drain flags do not change what a re-run collects |
| Containers.Until | examples/rolling-update/simple.py:81-86 | the service name is the longest prefix without ':' and '/' |
| Containers.HostOfUrl | src/http_proxy.rs:83-105 | for every scheme, with or without user information, port and path, traffic goes to the host between them, a name or an address |
| Containers.HostOfAuthority | src/proxy.rs:42-54 | likewise for a URL that is only an authority |
| RollingUpdate.CollectedStarts | examples/rolling-update/simple.py:214-222 | the collected targets meet the premises of the protocol's results |
| RollingUpdate.RestartsIsolatedExactly | examples/rolling-update/simple.py:242-253 | the step in the file: every container is recreated with all backends that reach it drained in lb.toml if and only if every other URL with its host is drained from the start and, if a target, has its turn later than a restarted target that was drained too |
| RollingUpdate.OneUrlPerServiceExactly | examples/rolling-update/simple.py:242-253 | in the file, with URLs whose host is the service name, that holds if and only if no two target URLs share a service |
| RollingUpdate.TrafficQuietExactly | examples/rolling-update/simple.py:242-261 | tinylb, whatever it had loaded and whenever it polls, sends no traffic to any container from its restart until it is healthy if and only if every other URL with a target's host is drained from the start and, if a target, has its turn later than a restarted one that was drained too; for a first target found drained, with no poll before the run, what was loaded at the start has to be quiet instead, or as well if a poll falls into its restart |
| RollingUpdate.TrafficQuietFromFile | examples/rolling-update/simple.py:242-261 | started with tinylb up to date, traffic is kept away if and only if the restarts are isolated in the file |
| RollingUpdate.OneUrlTrafficExactly | examples/rolling-update/simple.py:242-261 | with URLs whose host is the service name traffic is kept away if and only if no two target URLs share a service and a first target found drained, with no poll before the run, is quiet in what tinylb had loaded |
| RollingUpdate.RerunTrafficExactly | examples/rolling-update/simple.py:214-275 | after any number of aborted runs and polls the next run finds the same targets and keeps traffic away if and only if no two of them share a service and tinylb is not behind the file on the first, or polls before the run |
| RollingUpdate.StoppedTrafficExactly | examples/rolling-update/simple.py:106-111 | after a run that started with tinylb up to date and stopped anywhere the next one, without polls, keeps traffic away if and only if no two target URLs share a service and the stop was not between writing a drain and signalling it |
| RollingUpdate.CompletedUpdate | examples/rolling-update/simple.py:236-275 | a completed update restarts each target once and leaves the config as it was with the targets' drain flags cleared |
| SimpleScript.CollectBackendUrls | examples/rolling-update/simple.py:89-97 | the nested loops compute Collect |
| SimpleScript.CollectRoute | examples/rolling-update/simple.py:93-96 | the inner loop, continuing from what was collected before |
| SimpleScript.CountsDrained | examples/rolling-update/simple.py:114-124 | comparing the two counters decides whether every occurrence is drained and there is one |
| SimpleScript.EditDrain | examples/rolling-update/simple.py:100-107 | the loops set the flag on every occurrence and nothing else, and count the occurrences |
| SimpleScript.BuildRestartOrder | examples/rolling-update/simple.py:195-200 | the two lists appended to make the recovery order |
| SimpleScript.Script.SetDrainEverywhere | examples/rolling-update/simple.py:100-111 | edits, writes the file and signals tinylb, if the signal succeeds |
| SimpleScript.Script.RollOne | examples/rolling-update/simple.py:236-269 | one round does the effects that docker's answers allow; it completes if and only if all are good, and is unhealthy if and only if the target was signalled and restarted and no status was healthy |
| SimpleScript.Script.RollingUpdate | examples/rolling-update/simple.py:214-275 | a run is the one that docker's answers give, complete if and only if it is the full run, unhealthy if and only if a failed health wait ended it, right after that target's restart; a bad URL, no target or a failed build and it does nothing |
| RollingRestart.FirstRoute | examples/rolling-update/rolling_update_lib.py:69-74 | the first route with the host |
| RollingRestart.ServiceWithPortIs | examples/rolling-update/rolling_update_lib.py:58-66 | the service is what stands between the scheme and the first ':', which a digit follows |
| RollingRestart.ServiceWithPortMeans | examples/rolling-update/rolling_update_lib.py:58-66 | and only such URLs have one |
| RollingRestart.ByPlaceIsLawful | examples/rolling-update/rolling_update_lib.py:77-84 | setting one backend's flag sets it and no other |
| RollingRestart.FileAfterIsClearedAt | examples/rolling-update/rolling_update_lib.py:149-198 | along a run the config is the original with the flags cleared of the backends that are done |
| RollingRestart.CompletedRestart | examples/rolling-update/rolling_update_lib.py:149-198 | a completed run restarts each backend of the route once and leaves the config as it was with that route's drain flags cleared |
| RollingRestart.RestartsQuietExactly | examples/rolling-update/rolling_update_lib.py:160-188 | the step in the file: at every restart that happens, the run ending at a URL that does not parse, all backends that reach the service, of any route and URL form, are drained in lb.toml if and only if every other backend with its host is drained from the start and, in the route itself, comes later than a restarted one that was drained too |
| RollingRestart.RouteTrafficExactly | examples/rolling-update/rolling_update_lib.py:160-188 | tinylb, whatever it had loaded and whenever it polls, sends no traffic to any service from its restart until it is healthy if and only if every other backend with the host of a restarted one is drained from the start and, in the route itself, comes later than a restarted one that was drained too; for a first backend found drained, with no poll before the run, what was loaded at the start has to be quiet instead, or as well if a poll falls into its restart |
| RollingRestart.RouteTrafficFromFile | examples/rolling-update/rolling_update_lib.py:160-188 | started with tinylb up to date, traffic is kept away if and only if the restarts are quiet in the file |
| RollingRestart.RerunRouteTrafficExactly | examples/rolling-update/rolling_update_lib.py:131-198 | if each backend of the route alone has its host, then after any number of aborted runs and polls the next run keeps traffic away if and only if tinylb is not behind the file on the first backend, or polls before the run |
| RollingRestart.FlagsAtRestart | examples/rolling-update/rolling_update_lib.py:149-188 | which drain flags of the route are set at each restart |
| RestartScript.GetBackends | examples/rolling-update/rolling_update_lib.py:69-74 | finds the first route with the host or reports that there is none |
| RestartScript.BuildRestartOrder | examples/rolling-update/rolling_update_lib.py:115-128 | appending places to two lists makes the recovery order |
| RestartScript.FlagStillCurrent | examples/rolling-update/rolling_update_lib.py:150-162 | the drain flag read at the start is still the file's when a backend's turn comes |
| RestartScript.TurnComes | examples/rolling-update/rolling_update_lib.py:150-153 | a run gets to a backend's part if its URL parses, and has done all it will ever do when it comes to one that does not |
| RestartScript.Script.SetDrain | examples/rolling-update/rolling_update_lib.py:77-84 | sets one flag, writes the file and signals tinylb, if the signal succeeds |
| RestartScript.Script.RestartOne | examples/rolling-update/rolling_update_lib.py:149-198 | one round does the effects that docker's answers allow, none if the URL does not parse; completion and an unhealthy end are decided by the answers as in simple.py |
| RestartScript.Script.RollingRestart | examples/rolling-update/rolling_update_lib.py:131-205 | a run is the one that docker's answers give on the places before the first URL that does not parse; that URL or completion ends it if and only if all answers were good, and a failed health wait right after that backend's restart; no such route or no backends and it does nothing |
| DrainSafety.LoadedDrains | src/backends.rs:163-281 | loading a config with a URL drained wherever it occurs undrains no object of it and drains every listed one, in any registry and with hosts and URLs repeated or not |
| DrainSafety.ShownDrains | src/backends.rs:169-174 | a config shown by the table does the same |
| DrainSafety.DrainedUrlIsNeverChosen | src/backends.rs:139-141 | while no object of the URL is undrained, a request not yet on its way there never gets there |
| DrainSafety.TrafficKeepsDrainedRun | src/backends.rs:139-159 | requests, guard drops and health flips leave every drain flag and the table alone |
| DrainSafety.DrainTakesEffect | src/backends.rs:251-281 | after a drain is loaded amid traffic no request that arrives later, or was routed to a group still listed and has not begun its selection, uses the URL until it is undrained, whatever the registry and with hosts and URLs repeated or not |
| DrainSafety.RestartGetsNoNewRequests | examples/rolling-update/simple.py:242-253 | before a target's restart, once tinylb has loaded what it was told to and was not behind at the start, no request that selects a backend from then on uses the target until its undrain |
| DrainSafety.ContainerGetsNoNewRequests | examples/rolling-update/simple.py:242-253 | and if the update keeps traffic away, none uses any URL that reaches the target's container |

## Left out

- Sockets, hyper, tokio, rustls, tungstenite and WebSocket frames: only where a guard starts and ends and where errors are counted.
- Certificate loading, TOML parsing, header rewriting, URI building, log formatting and the dashboard: library calls or filters that one reading settles.
- Health probes: steps that set the flag at any time; their HTTP, timeouts and cooldown are not part of this model.
- The reload triggers (mtime poll and SIGHUP) of `src/main.rs`: a reload may start at any time. In the rolling update tinylb loads the file at each signal and, by its poll, at any other times given.
- Memory ordering weaker than interleaving.
- DrainSafety.DrainTakesEffect: not of a request that had been routed to a group which the reload dropped from the table; the backends of such a group are no longer updated, and it may still be sent to the URL.
- Requests.ConnectionBound: locks are not modelled, so interleavings are included that the group's lock excludes; the bound is about all of them.
- CapTightness.BoundIsReached: m - 1 + k stays within `USIZE_MAX`.
- Sampler: what a sample reads for connections and time is arbitrary; one sampling task runs, as in the source.
- Stats.Stats.ToJson: the iteration order of the HashMap is a parameter; the text after the current position is a ghost argument of the helper methods.
- StatsJson.ToJsonRoundTrip: numbers are read exactly; a reader that keeps numbers as doubles rounds above 2^53.
- LogFile: torn writes, failing metadata calls, leftover backups above max_files and the Windows rule on open files.
- Sha1.Sha1.Finalize: takes the padding loop and the output loop out into methods of their own; a message of 2^61 bytes or more overflows the source's length field, here its length is taken modulo 2^64.
- Containers.HostOfUrl: URLs that tinylb refuses to parse count as reaching the host in them, although no traffic gets there; names are compared without regard to case, and other names or addresses of a container are not known.
- RollingRestart.FirstRoute: the config is that of tinylb, with a URL on every backend and drain false when absent; entries tinylb itself would refuse to load are not modelled.
- RollingRestart.RestartsQuietExactly: `\d` in the URL pattern also admits digits outside ASCII in Python; here it is the ten ASCII digits.
- Docker, subprocess, sleeping and queue polling: the answers of docker are given to a run for each target, and the statuses of a health wait as the list of those polled in time; a restart command that fails counts as a restart.
- Concurrent edits of `lb.toml` and writes of it that are cut short.
