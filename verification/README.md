# pipeOS web core: model and proofs

A Dafny model of the four stdlib-only Python components of pipeOS that carry its algorithms, and
proofs of what they promise. `dafny verify dfyconfig.toml` checks all of it.

**The usage ledger** (`ledger.py`). Transcripts are byte files that are appended to at any moment and
read from a byte offset; a ring of 256 message ids keeps a line that repeats from being counted
again. `Paths`, `Lines`, `Dedupe` and `Ingest` model one pass, `Transcript` and `LateRepeat` many
passes over one growing file, `Crash` passes that stop between their writes, `Kept` what pruning leaves
over such runs, `Blocking` lines on which a pass raises, `Costs` counts too large to price. `Calendar`, `Totals` and `Coverage` are
the spend figures and why three month files are enough for them; `Rates` prices a model id and
`PeersMonth` adds up the other members. `Pause`, `Caps` and `CapsRun` are the three caps, the messages
and the gate; `Spend` goes from the ledger's rows to the jobs it stops.

**The mDNS codec and discovery** (`lanid.py`, `mdnsd.py`). `Names`, `Packet` and `Response` read and
write the message format of section 4.1 of RFC 1035, SRV of RFC 2782 and TXT of section 6 of RFC 6763;
`Discovery` goes from one Machine's identity through the bytes to another's table; `PeerTable` is that
table and the roster over time.

**The cluster** (`cluster.py`). `Rolling` is the question "may I update now", `RollingRun` a cluster of
members each asking it of rows that may be arbitrarily old, `RollingProgress` what every run of it comes
to. `Membership` is one Machine's member list, `MembersHash` the text it is compared by, `Cluster` the
list over runs of edits, pushes and additions.

**The scheduler** (`cronspec.py`, `schedtick.py`, `schedctl.py`). `Cron` reads a schedule, `NextRun`
finds when it next fires, `Tick` fires it, `JobTable` edits the table, and `Gate` puts the tick and the
caps together. `Base`, `Text`, `Order` and `Jobs` are shared.

What comes from outside is a parameter or a value: the JSON parser, the actor lookup and the prices
(`Ingest.Env`), the certificate tools (`Membership.Certs`), the paths and installed programs
(`JobTable.Env`), clocks, new cluster ids, and the files. Code that loops and updates is a method or a
class proved against a function of its inputs; the lemmas are about that function. Money is exact:
micro-dollars in the ledger's sums, ten-thousandths of a dollar where the caps compare. A minute is a
number of minutes from midnight of the calendar's day 0. Octets are integers below 256.

Where the code does not keep a promise, the exact condition under which it does is proved:

- incremental ingest equals batch while repeats fall in the ring and no line raises (`Transcript.EveryScheduleIsBatchIff`, `LateRepeat.LateRepeatShows`);
- given session maps that could be read, a line ingest cannot read for an id, or a new call whose row cannot be made or priced, stops ingest, and for good while it stays so (`Crash.WholePassRaisesIff`, `Blocking.BlocksForGood`); a price raises on a count past the largest float (`Costs.CostRaisesIff`);
- a transcript rewritten in place below its offset loses calls (`Crash.SurvivesIffCovered`);
- month files dated ahead push current ones out (`Coverage.ReadSurvivesIff`), and the unpriced counter also counts rows dated later in the month (`Coverage.UnpricedIsWholeIff`);
- `rolling_ok` without a target may clear two members (`Rolling.EmptyTargetExcludesIff`), and a member that cannot say what it runs is never cleared (`RollingProgress.CanFinishIff`);
- `add` overwrites a member whose id the target shares (`Cluster.AddKeepsOldIff`);
- a roster that cannot be read is replaced by what is live (`PeerTable.TickRemembersIff`);
- a TXT field is cut at 255 octets with its key (`Discovery.ArrivesWholeIff`), and labels must have 1 to 63 characters (`Names.NameRoundTripIff`);
- a schedule such as `70/2 * * * *` is accepted and its next run raises (`Cron.EmptyTimeIff`, `NextRun.Search`);
- a clock that leaves a minute and comes back, or a state file that cannot be read, lets the tick fire twice in it (`Tick.AtMostOnceIff`, `Tick.ForwardOnceIff`);
- comparing two member lists looks up a missing id when one list's text spells the other's and the names agree up to that id, which takes a newline in an id (`Membership.CompareIs`, `Membership.RaisesIffNewline`, `Membership.NewlineRaises`).

## Model

| member | source | states |
|---|---|---|
| Paths.KeyIdempotent | overlay/usr/local/share/pipeos/web/ledger.py:229-242 | a cursor key is already a key, so loading a migrated cursor renames nothing |
| Paths.KeyIgnoresMount | overlay/usr/local/share/pipeos/web/ledger.py:229-242 | a transcript's key is its project and file name wherever its volume is mounted, so a cursor written under one mount is read back under another |
| Paths.KeysOfTranscriptsDiffer | overlay/usr/local/share/pipeos/web/ledger.py:229-242 | two transcripts under one directory never share a key |
| Lines.ConsumedIsComplete | overlay/usr/local/share/pipeos/web/ledger.py:312-318 | the complete lines take exactly the bytes up to and including the last newline, so the offset cannot overshoot a torn tail |
| Lines.CompleteAtBoundary | overlay/usr/local/share/pipeos/web/ledger.py:312-318 | cutting a file at a line boundary cuts its list of complete lines at the same place |
| Dedupe.RingSuffices | overlay/usr/local/share/pipeos/web/ledger.py:331-333 | a pass that remembers only the last 256 ids emits what a pass remembering all would, when every repeat comes within 256 newer first appearances |
| Dedupe.LateRepeatIsEmittedTwice | overlay/usr/local/share/pipeos/web/ledger.py:331-352 | a repeat the ring has forgotten is emitted twice by two passes cut just before it |
| Dedupe.IncrementalIsBatchIffInWindow | overlay/usr/local/share/pipeos/web/ledger.py:288-364 | incremental passes emit the batch result for every way of cutting the calls if and only if every repeat falls in the 256-id window |
| Dedupe.FreshCovers | overlay/usr/local/share/pipeos/web/ledger.py:329-333 | deduplication loses no id: every call's id was remembered or is emitted |
| Ingest.Ledger.LoadCursor | overlay/usr/local/share/pipeos/web/ledger.py:244-270 | every transcript gets one cursor, read at least as far as any of its entries and never further than one of them says, with the newest ids of that entry's ring kept; an entry alone for its transcript is taken verbatim |
| Ingest.ScanLines | overlay/usr/local/share/pipeos/web/ledger.py:319-351 | the loop over lines raises exactly when a line cannot be read for an id (not an object, nested too deep, a message that is no object) or a call is new and its row cannot be made; else it emits the calls whose ids are new and remembers them in order |
| Ingest.ReadFiles | overlay/usr/local/share/pipeos/web/ledger.py:293-352 | the loop over transcripts equals the pass function file by file: a file that shrank or changed inode is read from its start with its ring kept, an unreadable one is left as it was |
| Ingest.GroupByMonth | overlay/usr/local/share/pipeos/web/ledger.py:348-351 | the rows of a pass are split by the month of their own timestamp, in order, months by first appearance |
| Ingest.Ledger.AppendRows | overlay/usr/local/share/pipeos/web/ledger.py:353-355 | each row goes to the end of the file its month names and nothing else changes |
| Ingest.Ledger.IngestLocked | overlay/usr/local/share/pipeos/web/ledger.py:288-364 | a whole pass: the month files are the old ones plus its rows, then the cursor is what the pass left, then only the newest 13 month files stay; a raise leaves both untouched |
| Ingest.Ledger.Prune | overlay/usr/local/share/pipeos/web/ledger.py:366-372 | exactly the 13 latest months stay, unchanged |
| Transcript.RunIsIncremental | overlay/usr/local/share/pipeos/web/ledger.py:288-364 | over any passes of a transcript that only grows, with any torn tails, the offset always ends on a line boundary, the chunks read make up the bytes passed, what is emitted is the incremental run over them, and no pass raises while no line stops it and every call emitted is sound |
| Transcript.IncrementalIngestIsBatch | overlay/usr/local/share/pipeos/web/ledger.py:288-364 | the rows emitted over all passes are the final complete lines' calls with duplicate ids removed, when one pass over the whole raises on nothing and repeats fall in the window |
| Transcript.EveryScheduleIsBatchIff | overlay/usr/local/share/pipeos/web/ledger.py:288-364 | for every bytes: every schedule of passes over them emits the batch result if and only if one pass over the whole raises on no line and every repeat falls in the window |
| Transcript.BadSchedule | overlay/usr/local/share/pipeos/web/ledger.py:331-352 | the two passes that double-count a late repeat, as actual cuts of the bytes |
| LateRepeat.LateRepeatShows | overlay/usr/local/share/pipeos/web/ledger.py:331-352 | a transcript of 257 calls and the first again: no line raises, and some passes over it do not emit its calls once each |
| Crash.StepKeepsSafe | overlay/usr/local/share/pipeos/web/ledger.py:331-359 | stopping between any two month-file appends or before the cursor rename, or a change to a transcript that its cursor entry covers, keeps every id in a ring or below an offset in the ledger |
| Crash.SavedCursorLoadsBack | overlay/usr/local/share/pipeos/web/ledger.py:244-270 | a cursor with relative keys is read back exactly as written |
| Crash.NewMachineIsSafe | overlay/usr/local/share/pipeos/web/ledger.py:244-249 | a Machine that has ingested nothing vouches for nothing, so runs may start from it |
| Crash.NothingIsOmitted | overlay/usr/local/share/pipeos/web/ledger.py:331-359 | over any run with any crashes, in which transcripts change only in ways their cursor entries cover, once a pass completes every call of every transcript it read through is in the ledger and stays there |
| Crash.SurvivesIffCovered | overlay/usr/local/share/pipeos/web/ledger.py:300-304 | an entry stays honest through a change to its transcript, in every ledger in which it was, if and only if the inode changes, the file is shorter than the offset, or the offset is on a line boundary and no id below it is new; a rewrite in place of the calls below the offset is none of these |
| Crash.BelowIsNotRead | overlay/usr/local/share/pipeos/web/ledger.py:302-317 | a call below the offset of such a file is in nothing a pass emits |
| Crash.PassRaisesIff | overlay/usr/local/share/pipeos/web/ledger.py:293-352 | given session maps that could be read, a pass writes nothing if and only if some transcript it opens has a new complete line it cannot read for an id, or a call that is new and whose row cannot be made or priced |
| Crash.WholePassRaisesIff | overlay/usr/local/share/pipeos/web/ledger.py:288-352 | a pass writes nothing if and only if a session file or the runs log cannot be decoded, or a transcript stops it as above |
| Blocking.OneLinePass | overlay/usr/local/share/pipeos/web/ledger.py:319-351 | a pass over one line raises exactly when the line cannot be read for an id, or its id is not remembered and its row cannot be made |
| Blocking.MessageOfText | overlay/usr/local/share/pipeos/web/ledger.py:326-329 | an object whose message is a text stops the pass |
| Blocking.CountOfText | overlay/usr/local/share/pipeos/web/ledger.py:331-346 | a usage count that is no number raises exactly while the id is new |
| Blocking.DirectoryOfNumber | overlay/usr/local/share/pipeos/web/ledger.py:195-211 | a directory that is no string raises, for a new id whose call can be priced, exactly when no job, listener or dashboard owns the session |
| Blocking.CountTooLarge | overlay/usr/local/share/pipeos/web/ledger.py:331-347 | a line with nothing else wrong raises, for a new id, exactly when its call cannot be priced |
| Costs.CostRaisesIff | overlay/usr/local/share/pipeos/web/ledger.py:151-157 | pricing raises if and only if the products before the first rate with a fraction add up past the largest float, or a later product or a count at a fraction is past it by itself |
| Costs.HugeCountRaises | overlay/usr/local/share/pipeos/web/ledger.py:151-157 | one count past the largest float at a rate that is not zero is enough, whatever the other counts and rates of the model |
| Costs.SoundLineRaisesIff | overlay/usr/local/share/pipeos/web/ledger.py:319-347 | a new line with nothing else wrong raises exactly when its model has a price and pricing it raises |
| Costs.HugeIsHopeless | overlay/usr/local/share/pipeos/web/ledger.py:151-157 | while a model has a price for input, no pass makes a row of its calls with an input count past the largest float, so such a line blocks ingest as `Blocking.BlocksForGood` says |
| Blocking.BlocksForGood | overlay/usr/local/share/pipeos/web/ledger.py:288-364 | in any run in which the transcript is only appended to and every pass fails on the call, such a line stays past every cursor, and every pass that opens it with something to read writes no month file and no cursor |
| Kept.StepKeepsWhole | overlay/usr/local/share/pipeos/web/ledger.py:353-372 | a pass or a pruning, either cut short anywhere, leaves each of the 13 latest months ever filed in on disk with every row ever filed in it |
| Kept.RecentOnDisk | overlay/usr/local/share/pipeos/web/ledger.py:366-372 | a month has 13 later files on disk exactly when 13 later months were ever filed in, however prunings were cut short |
| Kept.NothingKeptIsOmitted | overlay/usr/local/share/pipeos/web/ledger.py:288-372 | over any run of passes and prunings cut short anywhere, once a pass completes every call of every transcript it read through is on disk in its month for as long as fewer than 13 later month files are |
| Kept.PruneIsStep | overlay/usr/local/share/pipeos/web/ledger.py:366-372 | a whole pruning, as `Ingest.Ledger.Prune` does it, is a step of such a run |
| Calendar.MonthLength | overlay/usr/local/share/pipeos/web/ledger.py:393-394 | the calendar's month starts follow each other by the month's length across year ends and leap days |
| Calendar.MonthsReadCover | overlay/usr/local/share/pipeos/web/ledger.py:391-394 | the months of today, today minus 15 and today minus 31 days hold every date aged 0 to 29 days, in any Gregorian year |
| Totals.SumRows | overlay/usr/local/share/pipeos/web/ledger.py:404-445 | the loop's figures are the independent sums over today, 7, 30 days and the month, the two tables hold exactly the actors with rows there, each with its sum, and each daily figure is its day's |
| Totals.TablesAddUp | overlay/usr/local/share/pipeos/web/ledger.py:427-445 | per-actor sums add up to the 30-day total and per-actor month sums to the month, in dollars, calls and tokens |
| Totals.DaysAddUp | overlay/usr/local/share/pipeos/web/ledger.py:434-443 | the 30 daily figures add up to the 30-day total, the shorter windows lie inside the longer, and today's is the last daily figure |
| Coverage.IngestFilesWell | overlay/usr/local/share/pipeos/web/ledger.py:348-355 | ingest keeps every dated row in the file of its own month |
| Coverage.ReadTotals | overlay/usr/local/share/pipeos/web/ledger.py:376-445 | the totals are the sums over the rows of the three month files, read in month order |
| Coverage.TotalsLoseNothing | overlay/usr/local/share/pipeos/web/ledger.py:388-445 | every figure and table read from the three files is the whole ledger's |
| Coverage.UnpricedIsWholeIff | overlay/usr/local/share/pipeos/web/ledger.py:415-418 | the unpriced count is the whole ledger's if and only if no unpriced row is dated in a month after today's |
| Coverage.KeptIff | overlay/usr/local/share/pipeos/web/ledger.py:366-372 | a month file survives pruning if and only if fewer than 13 later ones exist |
| Coverage.ReadSurvivesIff | overlay/usr/local/share/pipeos/web/ledger.py:366-394 | what the totals read survives pruning if and only if each such file has fewer than 13 later ones |
| Coverage.PruningSparesTotals | overlay/usr/local/share/pipeos/web/ledger.py:366-394 | with no month file dated after today's month, pruning spares all the totals read |
| Rates.RateFor | overlay/usr/local/share/pipeos/web/ledger.py:133-149 | a model's price is its exact id's, else its undated id's, else the longest family's it begins with, and there is none exactly when no family fits |
| Rates.RateIsOne | overlay/usr/local/share/pipeos/web/ledger.py:146-149 | the price does not depend on the order the table is read in |
| Rates.DatedRelease | overlay/usr/local/share/pipeos/web/ledger.py:141-145 | a dated release of a priced id with no price of its own is priced as the id |
| PeersMonth.PeersMonthUsd | overlay/usr/local/share/pipeos/web/ledger.py:521-561 | the other members' spend is the sum of their notes of this month, and exactly the members with no figure or no note are listed as silent |
| PeersMonth.EveryMemberOnce | overlay/usr/local/share/pipeos/web/ledger.py:521-561 | every current member is counted, or spending in another month, or silent, and only one of these; nobody else is any |
| Pause.SentenceShape | overlay/usr/local/share/pipeos/web/ledger.py:706-720 | every pause sentence is non-blank, survives strip, and contains the words the readers match on |
| Caps.AgentCapsProper | overlay/usr/local/share/pipeos/web/ledger.py:563-574 | the capped agents are distinct, named, and have positive caps |
| Caps.Keeper.ScopeHit | overlay/usr/local/share/pipeos/web/ledger.py:650-674 | one scope's threshold machine: the entry exactly when the cap is reached, the markers and messages of the month, and whether the 80% marker is new |
| Caps.Keeper.AgentHits | overlay/usr/local/share/pipeos/web/ledger.py:632-641 | the loop over capped agents: each reached one's entry, name, marker and message |
| Caps.Keeper.WriteMarkers | overlay/usr/local/share/pipeos/web/ledger.py:676-703 | both files after the call, the kept entries, and whether what is paused changed |
| Caps.Keeper.EnforceCap | overlay/usr/local/share/pipeos/web/ledger.py:608-648 | one whole call's effect on files, markers, messages and the returned state |
| CapsRun.DocAfter | overlay/usr/local/share/pipeos/web/ledger.py:619-703 | the document a call leaves, cap by cap, from the earlier entry and today's figures alone |
| CapsRun.GateAgrees | overlay/usr/local/share/pipeos/web/ledger.py:608-789 | from any earlier paused state a job is stopped exactly when the cluster's, the box's or its own positive cap is reached, and reads that cap's sentence in that order; the plain marker exists exactly when box or cluster is reached |
| CapsRun.EntrySays | overlay/usr/local/share/pipeos/web/ledger.py:676-735 | from any earlier document an entry carries today's cap and its own sentence; spend, day and scope stay those of the moment the cap bit while the cap is unchanged, a changed cap takes today's spend and keeps the day |
| CapsRun.StaysWellScoped | overlay/usr/local/share/pipeos/web/ledger.py:619-703 | a document whose entries stand under their own scope stays so |
| CapsRun.EnforceTwice | overlay/usr/local/share/pipeos/web/ledger.py:608-703 | a second call on the same figures writes and removes no file, messages nobody and reports no change |
| CapsRun.MessagesOverRun | overlay/usr/local/share/pipeos/web/ledger.py:608-674 | over any run of calls with any caps, spends and days, a message goes out exactly once: at the first call of the month that finds its threshold crossed, if the marker was not there |
| CapsRun.OncePerMonth | overlay/usr/local/share/pipeos/web/ledger.py:608-674 | at most one message per cap, threshold and month; the 100% one exactly when some call that month finds the cap reached; agents are never warned at 80% |
| CapsRun.PauseKeeps | overlay/usr/local/share/pipeos/web/ledger.py:684-691 | over any run in which a cap stays the same and reached, its pause keeps the spend and day it began with |
| Gate.TickObeysCaps | overlay/usr/local/share/pipeos/web/schedtick.py:86-117 | after the caps are enforced a tick starts a name once exactly when it is due, has not fired this minute and no cap covering it is reached; otherwise a due name is marked and skipped |
| Spend.AgentCapIs | overlay/usr/local/share/pipeos/web/ledger.py:563-574 | a name's cap is the last positive one the job list gives it, against its own actor's spend |
| Spend.LedgerStops | overlay/usr/local/share/pipeos/web/ledger.py:374-648 | after the caps are enforced, from any earlier paused state, a job is stopped exactly when the month's rounded sum over all month files, with what the current members' notes of the month report, reaches the cluster's cap, or that sum reaches the box's, or the sum of the job's own calls reaches its own |
| Spend.LedgerStarts | overlay/usr/local/share/pipeos/web/schedtick.py:86-117 | a tick after that starts a name once exactly when a job of it is due, has not fired this minute, and the ledger leaves it room under all three caps |
| Spend.ReachedUnrounded | overlay/usr/local/share/pipeos/web/ledger.py:436-438 | rounding to four decimals moves the moment a cap bites by at most half a hundredth of a cent |
| Rolling.RollingOk | overlay/usr/local/share/pipeos/web/cluster.py:887-949 | the loop over the page gives the decision function's answer, with the reason it waits |
| Rolling.ClearMeans | overlay/usr/local/share/pipeos/web/cluster.py:914-949 | a member is clear exactly when every other is green, its own release is known, and no lower id still needs the release, nor anybody if it does not itself |
| Rolling.EmptyTargetExcludesIff | overlay/usr/local/share/pipeos/web/cluster.py:940-944 | asked without a target, all being well, at most one member is cleared if and only if all run the same release |
| Rolling.TwoClearedWithoutTarget | overlay/usr/local/share/pipeos/web/cluster.py:940-944 | two green members on two releases are both cleared without a target |
| RollingRun.SettledStays | overlay/usr/local/share/pipeos/web/cluster.py:887-949 | a member up on the release stays so for the rest of any run |
| RollingRun.AtMostOneOut | overlay/usr/local/share/pipeos/web/cluster.py:887-949 | over every run, with rows that are arbitrarily old moments of the others, at most one member is ever out for an update |
| RollingRun.StartsAscend | overlay/usr/local/share/pipeos/web/cluster.py:934-949 | members start in ascending id order |
| RollingRun.LeastIsCleared | overlay/usr/local/share/pipeos/web/cluster.py:914-949 | on an up-to-date page with all green, exactly the least id that needs the release is cleared |
| RollingRun.OneUpdate | overlay/usr/local/share/pipeos/web/cluster.py:914-949 | from an all-green state the next update can be completed: the cleared member starts, reboots, reports, and all are green with one fewer needing the release |
| RollingRun.Rollout | overlay/usr/local/share/pipeos/web/cluster.py:887-949 | from an all-green state the run can be completed in four steps for each member that needs the release |
| RollingProgress.EachStep | overlay/usr/local/share/pipeos/web/cluster.py:887-949 | at every step of every run the members that need the release only get fewer, by exactly one at a reboot into it |
| RollingProgress.NeedingOnlyDrops | overlay/usr/local/share/pipeos/web/cluster.py:887-949 | and so from any moment of any run to any later one |
| RollingProgress.StartsAtMost | overlay/usr/local/share/pipeos/web/cluster.py:887-949 | however a run is scheduled it has at most as many starts as members that needed the release at its beginning, and one more for each update that did not land |
| RollingProgress.MuteForGood | overlay/usr/local/share/pipeos/web/cluster.py:934-939 | a member that cannot say what it runs is never cleared, for the rest of any run |
| RollingProgress.CanFinishIff | overlay/usr/local/share/pipeos/web/cluster.py:887-949 | from any moment of any run, whoever is out and however the members are, the run can go on by updates alone to everybody on the release, if and only if every member that is up can say what it runs |
| Names.WriteName | overlay/usr/local/share/pipeos/web/lanid.py:178-183 | the writer's loop: outer dots dropped, for each label its length octet and its characters, `?` for one outside ASCII, and a closing zero; refused when a label passes 255 |
| Names.ReadName | overlay/usr/local/share/pipeos/web/lanid.py:186-217 | the reader's loop ends on every input, pointer cycles included, with the name, the offset after it, or malformed |
| Names.MaskTests | overlay/usr/local/share/pipeos/web/lanid.py:200-213 | the reader's bit masks, as comparisons of the octet |
| Names.ReadAdvances | overlay/usr/local/share/pipeos/web/lanid.py:186-217 | a name that reads has only whole labels and ends after its start and inside the packet |
| Names.ReadSurvivesMore | overlay/usr/local/share/pipeos/web/lanid.py:186-217 | a name that reads in a prefix reads the same in the whole packet, compressed or not |
| Names.LoopIsMalformed | overlay/usr/local/share/pipeos/web/lanid.py:200-212 | a label running into a pointer back to itself is ended by the hop limit |
| Names.NameRoundTripIff | overlay/usr/local/share/pipeos/web/lanid.py:178-217 | a written name reads back whole, ending where it ends, if and only if every label has 1 to 63 characters |
| Packet.ReadTxt | overlay/usr/local/share/pipeos/web/lanid.py:220-230 | the TXT loop: strings up to their length octets, pairs at the first `=`, later keys over earlier |
| Packet.ParsePacket | overlay/usr/local/share/pipeos/web/lanid.py:233-273 | the packet loops equal the recursive reading of the format: header, questions, then records up to the first that does not read |
| Packet.QuestionAdvances | overlay/usr/local/share/pipeos/web/lanid.py:244-255 | every question read moves forward inside the packet |
| Packet.RecordAdvances | overlay/usr/local/share/pipeos/web/lanid.py:256-271 | every record read moves forward by at least 11 octets inside the packet |
| Packet.QuestionsFit | overlay/usr/local/share/pipeos/web/lanid.py:244-255 | whatever the header's counts, the questions fit in the packet at five octets each |
| Packet.RecordsFit | overlay/usr/local/share/pipeos/web/lanid.py:256-271 | the records fit in the packet at eleven octets each |
| Packet.TruncationInventsNothing | overlay/usr/local/share/pipeos/web/lanid.py:186-273 | cutting any packet anywhere leaves questions and records that are prefixes of the whole packet's |
| Response.WriteTxt | overlay/usr/local/share/pipeos/web/lanid.py:293-298 | the TXT writer's loop: each pair cut at 255 octets behind its length |
| Response.RecordSurvives | overlay/usr/local/share/pipeos/web/lanid.py:276-298 | a well-formed A, PTR, SRV or TXT record reads back as itself wherever it stands in a packet |
| Response.ResponseRoundTrip | overlay/usr/local/share/pipeos/web/lanid.py:178-306 | a printed response parses to flags 0x8400, no questions, and exactly the names, types, TTLs and data of its records in order |
| Response.QueryRoundTrip | overlay/usr/local/share/pipeos/web/lanid.py:305-306 | a printed query parses back to its one question |
| Discovery.WebHostIsOurs | overlay/usr/local/share/pipeos/web/mdnsd.py:110-135 | the host the SRV record names is one the Machine answers for, in all three naming cases |
| Discovery.AnswerFor | overlay/usr/local/share/pipeos/web/mdnsd.py:151-169 | the loop over questions answers each with its own records, and nothing when none is ours |
| Discovery.ArrivesWholeIff | overlay/usr/local/share/pipeos/web/mdnsd.py:183-188 | a TXT field arrives whole if and only if key, `=` and value fit in 255 octets |
| Discovery.DiscoveryRoundTrip | overlay/usr/local/share/pipeos/web/mdnsd.py:138-225 | absorbing the parsed bytes of a Machine's announcement stores exactly its row under its id, a goodbye removes it, one's own packet changes nothing, and no other row is touched |
| Discovery.BrowseRoundTrip | overlay/usr/local/share/pipeos/web/mdnsd.py:151-225 | the answer to a browse teaches the same row as the announcement |
| PeerTable.Responder.AbsorbResponse | overlay/usr/local/share/pipeos/web/mdnsd.py:193-225 | the loop over service pointers changes the table as the absorb function says and reports whether it did |
| PeerTable.Responder.Prune | overlay/usr/local/share/pipeos/web/mdnsd.py:287-293 | exactly the peers seen within three intervals stay, and the answer says whether any went |
| PeerTable.Responder.RosterUpsert | overlay/usr/local/share/pipeos/web/mdnsd.py:254-284 | the roster file becomes the fold of every live peer, and is written only when that differs |
| PeerTable.NeverOwnPeer | overlay/usr/local/share/pipeos/web/mdnsd.py:193-225 | over all runs a Machine never appears in its own table and every row is filed under the id it carries |
| PeerTable.RosterNeverForgets | overlay/usr/local/share/pipeos/web/mdnsd.py:254-284 | over all runs in which no tick that cannot read the roster writes it, no roster id is dropped and no known MAC erased |
| PeerTable.TickRemembersIff | overlay/usr/local/share/pipeos/web/mdnsd.py:245-284 | a tick forgets something exactly when it cannot read the roster, writes it, some peer is live and the live ones do not cover it |
| PeerTable.TickLeavesFresh | overlay/usr/local/share/pipeos/web/mdnsd.py:254-293 | after a tick every peer was seen within three intervals and agrees with its roster row, which lags by under 60 seconds |
| MembersHash.TextDecides | overlay/usr/local/share/pipeos/web/cluster.py:237-244 | while no id has a newline in it, equal hashed texts mean the same ids with the same fingerprints |
| MembersHash.NewlineCollides | overlay/usr/local/share/pipeos/web/cluster.py:237-244 | two lists with one text: the second puts a line and an id of the first into one id |
| MembersHash.TextOfLess | overlay/usr/local/share/pipeos/web/cluster.py:237-244 | whatever the ids, a list whose ids are among another's and whose text is the same is the same list |
| Membership.HashDecides | overlay/usr/local/share/pipeos/web/cluster.py:237-244 | equal member hashes mean equal ids and fingerprints, for lists with no newline in an id |
| Membership.SameHashSameIff | overlay/usr/local/share/pipeos/web/cluster.py:237-244 | two valid lists with one hash are one id-to-fingerprint map if and only if the second has no id the first lacks, whatever the ids |
| Membership.SameHashRaisesIff | overlay/usr/local/share/pipeos/web/cluster.py:345-347 | two lists with one hash: the comparison looks up a missing id if and only if the new list has an id this one lacks and the names agree, in id order, before the first such id |
| Membership.CompareIs | overlay/usr/local/share/pipeos/web/cluster.py:345-347 | the comparison of any two valid lists: it looks up a missing id exactly when the lists share a hash without being one and the names agree up to the first id lacking here; says same exactly when ids, fingerprints and names agree; and takes every other list |
| Membership.RaisesIffNewline | overlay/usr/local/share/pipeos/web/cluster.py:345-347 | against a list with no newline in an id: it looks up a missing id if and only if the hashes are equal, the new list has a newline in an id, and the names agree up to the first id lacking here; with the names of all common ids agreeing, if and only if there is a newline; with none the lists are one |
| Membership.ReplaceRaisesIff | overlay/usr/local/share/pipeos/web/cluster.py:330-349 | taking a list raises if and only if the list is valid, of our cluster, with us in it, and deceives the comparison as above; nothing is written then |
| Membership.NewlineRaises | overlay/usr/local/share/pipeos/web/cluster.py:330-347 | a valid list with such an id on which it does index a missing key, and raises |
| Membership.Box.CompareLists | overlay/usr/local/share/pipeos/web/cluster.py:345-347 | the loop over the names gives the comparison's answer, the raise included |
| Membership.Box.InitList | overlay/usr/local/share/pipeos/web/cluster.py:254-268 | a cluster of one, refused when a list exists unless forced |
| Membership.Box.AddToList | overlay/usr/local/share/pipeos/web/cluster.py:280-288 | the list with the member put in, refused without a list or with no valid authority |
| Membership.Box.MemberId | overlay/usr/local/share/pipeos/web/cluster.py:294-315 | the id itself, or the first member in id order with that name; none exactly when no member is meant |
| Membership.Box.Drop | overlay/usr/local/share/pipeos/web/cluster.py:318-327 | exactly the meant member leaves, never the Machine itself |
| Membership.Box.ReplaceList | overlay/usr/local/share/pipeos/web/cluster.py:330-349 | taking a pushed list: other cluster, removed to a cluster of one, same, taken, or the raise of the comparison, and exactly when that is |
| Membership.Box.JoinList | overlay/usr/local/share/pipeos/web/cluster.py:352-369 | the list with ourselves put in; refused inside a cluster of more than one |
| Membership.Box.Reconcile | overlay/usr/local/share/pipeos/web/cluster.py:372-385 | exactly the members other than us announcing another cluster leave |
| Cluster.ReachableHasSelf | overlay/usr/local/share/pipeos/web/cluster.py:254-385 | every list reachable by any edits holds the Machine's own id and only valid authorities |
| Cluster.Push | overlay/usr/local/share/pipeos/web/cluster.py:554-574 | member after member but us: each reachable one takes the list by its own rule, the rest are error lines, nobody else changes |
| Cluster.TakesIt | overlay/usr/local/share/pipeos/web/cluster.py:330-349 | a member of the same cluster ends with the pushed list except exactly when the list deceives its comparison, which then raises and keeps its own; it says same exactly when it had the list |
| Cluster.HeldSaysSame | overlay/usr/local/share/pipeos/web/cluster.py:330-349 | a member that has the list says same and changes nothing, whatever the ids |
| Cluster.PushAgrees | overlay/usr/local/share/pipeos/web/cluster.py:330-349 | after a push each reachable member of the cluster holds an equal id-to-fingerprint-and-name map if and only if its comparison did not raise, which it does exactly on a list that deceives it; a second push answers same, or raises again at the same members, and changes nothing |
| Cluster.MembersAgree | overlay/usr/local/share/pipeos/web/cluster.py:554-574 | any two holders of the pushed list, the pusher among them, agree on ids, fingerprints, names and hash |
| Cluster.AddLeavesOneList | overlay/usr/local/share/pipeos/web/cluster.py:577-604 | a successful add leaves initiator and target with one hash and one list, the old one with the target put in |
| Cluster.AddKeepsOldIff | overlay/usr/local/share/pipeos/web/cluster.py:577-604 | every earlier member is kept as it was if and only if the target's id was not already in the list |
| Cluster.AddedSaysSame | overlay/usr/local/share/pipeos/web/cluster.py:577-604 | the push that follows an add finds the target in agreement |
| Cron.ReadField | overlay/usr/local/share/pipeos/web/cronspec.py:63-88 | the loop over list elements gives the union of what they allow, or refuses |
| Cron.ReadSpec | overlay/usr/local/share/pipeos/web/cronspec.py:91-116 | the whole parse with its loop over the fields |
| Cron.ParseInRange | overlay/usr/local/share/pipeos/web/cronspec.py:63-116 | every value of a parsed schedule is a minute, hour, day, month or weekday |
| Cron.ParseOwnText | overlay/usr/local/share/pipeos/web/cronspec.py:91-116 | the text a parsed schedule keeps parses to the same text and the same sets |
| Cron.EmptyTimeIff | overlay/usr/local/share/pipeos/web/cronspec.py:82-87 | an accepted schedule has no minute, or no hour, if and only if that field lists only numbers above its range with a step above one |
| Cron.SeventyByTwo | overlay/usr/local/share/pipeos/web/cronspec.py:82-87 | `70/2 * * * *` is accepted and has no minute |
| Cron.EveryMinuteSpec | overlay/usr/local/share/pipeos/web/cronspec.py:91-116 | `* * * * *` allows every minute, hour, day, month and weekday |
| Cron.ParseForJobKeeps | overlay/usr/local/share/pipeos/web/cronspec.py:119-127 | nothing typed makes a new job manual and is refused for an existing one; what is accepted reads back from its own text |
| NextRun.FirstOfDay | overlay/usr/local/share/pipeos/web/cronspec.py:167-174 | the two inner loops find the day's first matching minute at or after the start, or show there is none |
| NextRun.Search | overlay/usr/local/share/pipeos/web/cronspec.py:152-176 | the day-skipping search finds what a minute-by-minute scan of 367 days would, and raises exactly when a schedule that is not manual has no hour or no minute |
| NextRun.ScanMeans | overlay/usr/local/share/pipeos/web/cronspec.py:152-176 | the answer lies strictly after the instant, matches, and nothing between does; no answer means nothing matches in all those days |
| Tick.Ticker.Tick | overlay/usr/local/share/pipeos/web/schedtick.py:71-117 | the locked read-decide-write and the pause filter: the new last-fired state, the names run and the names skipped, in order |
| Tick.FireIs | overlay/usr/local/share/pipeos/web/schedtick.py:91-107 | one tick fires a name once when a job of that name is due and it has not fired this minute, else not at all, and moves no other entry |
| Tick.FiresInListOrder | overlay/usr/local/share/pipeos/web/schedtick.py:91-107 | names fire in the order of the job list |
| Tick.FiresOnce | overlay/usr/local/share/pipeos/web/schedtick.py:80-112 | over any run whose minute never goes backwards a name fires, in a minute in which no tick lost the state file, at most once, and exactly once when some tick of it finds an enabled due job of that name |
| Tick.ForwardOnceIff | overlay/usr/local/share/pipeos/web/schedtick.py:80-112 | while the clock does not go backwards a name fires twice in a minute if and only if a tick that cannot read the state file falls after a tick of it that is due and no later than another |
| Tick.ForgettingFiresTwice | overlay/usr/local/share/pipeos/web/schedtick.py:83-87 | two ticks in one minute, the second unable to read the state file, fire a job that runs every minute twice |
| Tick.AtMostOnceIff | overlay/usr/local/share/pipeos/web/schedtick.py:80-112 | on any clock and with any ticks that cannot read the state file, a name fires in a minute at most once if and only if it is not due in it, then the firing is forgotten (with the state file, or by being due in another minute), then due in it again; one that had fired in it before the run fires again exactly when that is forgotten and it is due in it then or later |
| Tick.BackwardsFiresTwice | overlay/usr/local/share/pipeos/web/schedtick.py:103-106 | a job that runs every minute fires twice in one minute on a clock that leaves the minute and comes back |
| Tick.ManualNeverDue | overlay/usr/local/share/pipeos/web/schedtick.py:95-102 | a manual or unreadable schedule never fires |
| Tick.GateSplits | overlay/usr/local/share/pipeos/web/schedtick.py:113-119 | what fired splits into what starts and what is skipped, by the gate alone |
| Tick.NextFiringIsNextRun | overlay/usr/local/share/pipeos/web/schedtick.py:71-112 | on a clock ticking every minute, whatever becomes of the state file, the job's next firing is once and in exactly the minute the dashboard's search shows, and there is none when it shows none |
| JobTable.ReadFlags | overlay/usr/local/share/pipeos/web/schedctl.py:95-107 | pairs of known flags, later ones over earlier, or a refusal |
| JobTable.Apply | overlay/usr/local/share/pipeos/web/schedctl.py:110-169 | the job with the flags in it, or a refusal of the whole |
| JobTable.ApplyFrames | overlay/usr/local/share/pipeos/web/schedctl.py:110-169 | only what the flags name changes, and never the name or whether it is enabled |
| JobTable.Table.AddOrSet | overlay/usr/local/share/pipeos/web/schedctl.py:204-230 | the table with the job appended or replaced in place; a refusal changes nothing |
| JobTable.Table.Rm | overlay/usr/local/share/pipeos/web/schedctl.py:244-257 | the table without the jobs of that name; a refusal when there is none |
| JobTable.Table.SetEnabled | overlay/usr/local/share/pipeos/web/schedctl.py:260-269 | only `enabled` of the first job of that name changes |
| JobTable.DoSound | overlay/usr/local/share/pipeos/web/schedctl.py:110-269 | every accepted command keeps unique good names, at most 32 jobs, readable schedules, prompts and caps in bounds, working dirs under the root |
| JobTable.ReachableIsSound | overlay/usr/local/share/pipeos/web/schedctl.py:110-269 | every reachable table keeps all that, so a tick skips none of its entries as bad |
| JobTable.EmptyIsSound | overlay/usr/local/share/pipeos/web/schedctl.py:58-65 | the table of a new Machine is sound |
| JobTable.OthersStay | overlay/usr/local/share/pipeos/web/schedctl.py:204-269 | a command touches no job but the one it names; the others stay in their order |
| JobTable.AddThenRemove | overlay/usr/local/share/pipeos/web/schedctl.py:204-257 | removing a job just added gives the table back |

## Left out

- JSON parsing, file locks, temporary files and file stats: files are values, a rename is one step, a lock is mutual exclusion. A transcript's inode and size come with the bytes read after them.
- Malformed values inside the documents the code itself writes (a cursor or paused entry that is no object, a roster row with a text `last_seen`): they have the shape their writers give them. Transcript lines may have any shape.
- Message ids that are no strings, two of which Python may call equal (`1` and `true`): an id is a string.
- Floating point: `%.2f`, `round` and percentages are exact, with halves rounded up in `Pause.Dollars`; sums are stated before rounding.
- `actor_for` (ledger.py:195-224) is a parameter of a pass, but for when it raises. `cost` is modelled for when it raises (`Costs`); the dollar figure it rounds to is a parameter.
- Which of the session files' bytes cannot be decoded (ledger.py:161-193): that they could be read is one flag of a pass.
- Model ids with a newline after their date, or a date in other than ASCII digits.
- Spend.LedgerStops: rounding to four decimals is any function within half a unit, so which way halves go is left open.
- `last_row_ts`, `last_ingest_ts`, the totals cache and the shape of the report: only the sums.
- Month files removed or rewritten by anything but pruning.
- Crash.NothingIsOmitted: is about runs in which transcripts change only as their cursor entries cover; the code cannot tell a file rewritten in place, with the same inode and not shorter than the offset, and loses the calls below it, as `Crash.SurvivesIffCovered` says.
- Blocking.BlocksForGood: is about passes told at least the size the cursor has passed, as a file that only grows shows; a broken directory field stops blocking once its session has an owner, a count too large once its model has no price.
- Several transcripts appended to while one pass runs: in `Crash` a pass meets each transcript as it is at that moment; growth during a read is in `Transcript`.
- The texts of the messages sent to the owner, and whether the transport took them: a message is a counted attempt.
- Decoding of label octets and TXT values as UTF-8 with replacement: names are characters of one octet each, TXT keys and values stay octets.
- Discovery.DiscoveryRoundTrip: for identities whose names are legal DNS names with dots only between labels, and whose id fits one TXT string; others cannot be printed or do not arrive whole (`Names.NameRoundTripIff`, `Discovery.ArrivesWholeIff`).
- Sockets, signals and the select loop of `mdnsd.py`, `query_a`, and the hardware reads of `lanid.py`.
- RollingRun.AtMostOneOut: for a common list and a common non-empty target, commits that only move to the target, and rows that are whole earlier moments of each member.
- TLS, certificates, HTTP, threads and the passwords and tokens of `add`: a call is delivered to a reachable, trusting member or is an error line. A fingerprint is an uninterpreted function of the text into hex digits, and two members hashes are equal when the texts hashed are.
- The order in which `replace` compares the names of a list: id order, as the list is written.
- The bundle, the status file and the listeners `write` also updates (cluster.py:173-230).
- Concurrent owner edits of the list on several members: the last one wins, and nothing more is promised.
- `pick_idlest`, `page`, `fanout` and the agent placement of `cluster.py`: they read rows and promise no invariant.
- Characters whose lower case is not an ASCII letter: `Text.Lowered` keeps them, and the readers here refuse them; digits other than 0 to 9 in `--cap` are refused too. `member_id` and `rm` could match a non-ASCII name in another case.
- Dates past year 9999 and before 32 days into year 1, where Python's dates end.
- Changes to the paused files between the names of one tick: the gate reads one state a tick.
- The secrets a job needs (`vault.parse_needs`), the save to flash, the runner and its logs.
- `webd.py`, `vault.py`, `lan.py`, `updates.py`, `nasctl.py`, the shell tools and the user interface.
