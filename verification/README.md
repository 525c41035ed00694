# A verified model of bunsen

bunsen runs coding agents: it orders them in a dependency graph, supervises each one, redacts secrets from its
transcript, decides what it may reach on the network, and keeps its commits in a pool until a session is closed.
This project models the parts of that machinery whose correctness is a statement about whole runs, and proves it.

| file | what it models |
|---|---|
| `redactor.dfy`, `encoder.dfy` | streaming secret redaction with a carried tail, and the transcript built on it |
| `scheduler.dfy`, `scheduler_labels.dfy`, `scheduler_slots.dfy` | the DAG scheduler, its labels, and its semaphore |
| `git_refs.dfy`, `branch_pool.dfy`, `pool_history.dfy` | commits and refs, the branch pool's verbs, and the pool over time |
| `session_world.dfy`, `session.dfy` | one session on disk with crashes between any two steps, and the handle's verbs |
| `dns_message.dfy`, `dns_grammar.dfy`, `dns_names.dfy`, `dns_refusal.dfy`, `egress.dfy` | DNS queries, refusals and the allowlist |
| `supervisor.dfy`, `aider_adapter.dfy`, `codex_adapter.dfy`, `pi_adapter.dfy`, `aider_history.dfy`, `codex_history.dfy`, `pi_history.dfy`, `supervised_aider.dfy`, `supervised_codex.dfy`, `supervised_pi.dfy` | the supervisor loop, the adapters it feeds, what they report read off the lines alone, and supervisor and adapter together |
| `control_loop.dfy` | line framing of the control channel between host and guest |
| `ulid.dfy`, `sandbox_net.dfy`, `drop_log.dfy`, `firewall.dfy`, `firewall_text.dfy` | run ids, the names and addresses derived from them, drop-log lines, CIDR covering |
| `oci_layers.dfy` | flattening container layers |
| `bits.dfy`, `sequences.dfy`, `text.dfy`, `wrappers.dfy` | shared arithmetic, sequence and text operations |

Code that works step by step (the redactor, the scheduler's loop, the parsers, the supervisor, the pool's and the
session's verbs) is a method or a class here, proved against a function or a transition system; the main results are
lemmas about those, for all inputs and all runs.

Some properties one would expect do not hold of the code as it is. For each the exact condition under which they do is
proved, and each has a concrete case:

- Chunking shows in the redactor's tokens, and for names without angle brackets in its output, exactly when some secret
  occurs inside another and ends before it does.
- The tasks labelled `unrunnable` are, for every outcome of every job, those that reach a cycle or an unknown id exactly
  when no task outside those waits for a task that itself waits; in a chain of three whose first task fails the third is
  labelled so.
- A layer is applied as its declarative reading says exactly when none of its whiteouts comes after something it hides;
  a stack of layers differs from its reading at a path exactly when such a whiteout there is not covered by a layer above.
- The check that a run's output names are free and the fetch that writes them are two steps. Some interleaving over a set
  of outputs rewrites a ref exactly when two of them share a target and one's head is a proper descendant of the other's;
  even then the ref only moves forward.
- A push that every rule allows, of existing refs to distinct targets on a host that stands still and without any
  failure, succeeds exactly when no temporary ref that an earlier call could not delete is in the way of fetching the
  host's tip, since that fetch is made without force. One that is in the way stays there, so every retry fails as well.
- A session with metadata can still be closed or discarded, wherever its verbs stopped, exactly when it already is, or
  the disk says open or failed to close and the pool still opens. So a crash while the disk says `closing` is for good,
  and the disk does not tell whether the push landed; so is a crash in a discard after the pool's `HEAD` is gone.
- A line that cannot be read as UTF-8 ends its stream for the supervisor; it takes the whole of a stream exactly when
  every line can be read, and with two lines of which only the second can be, it takes none.
- A DNS name is accepted exactly when it has at most 256 octets: the code bounds a name's labels by 255 without counting
  the root byte, one octet more than the 255 of section 2.3.4 of RFC 1035.

The comment in the ULID generator speaks of a 10-byte timestamp; the code packs 48 bits, and the model follows the code.

## Model

| member | source | states |
|---|---|---|
| Redaction.FindIterIsLeftmostLongest | bunsen-core/src/redactor.rs:41-44 | each match found is the leftmost occurrence of any secret and the longest there, and the search resumes at its end |
| Redaction.FindIterMissesNothing | bunsen-core/src/redactor.rs:68-72 | no match is reported only when no secret occurs anywhere |
| Redaction.EmitThenHeldIsScan | bunsen-core/src/redactor.rs:57-88 | what one call hands out followed by what it holds is the one-pass redaction |
| Redaction.ScanHasNoSecretGap | bunsen-core/src/redactor.rs:68-72 | no stretch between two matches of the one-pass redaction contains a complete secret |
| Redaction.HeldIsShort | bunsen-core/src/redactor.rs:75-79 | the carried tail is shorter than the longest secret |
| Redaction.StreamIsSound | bunsen-core/src/redactor.rs:57-88 | for every secret set, nested ones included, and every chunking: replacing marks by their secrets rebuilds the input, and no gap, even across chunks, contains a complete secret |
| Redaction.StreamIsScan | bunsen-core/src/redactor.rs:57-88 | when no secret occurs inside another and ends before it, any chunking gives the tokens of the one-pass redaction |
| Redaction.EarlyInnerShows | bunsen-core/src/redactor.rs:68-72 | any secret inside another that ends before it gives a chunking whose tokens differ |
| Redaction.ChunkingIsInvisibleExactlyWhen | bunsen-core/src/redactor.rs:57-88 | chunking never shows in the tokens iff no secret occurs inside another and ends strictly before it |
| Redaction.NestedSecretsShowTheSplit | bunsen-core/src/redactor.rs:68-79 | with `abcd` and `bc`, some chunking of `abcd` differs from one shot |
| Redaction.OneShotIsScan | bunsen-core/src/redactor.rs:57-88 | feeding everything at once and flushing is the one-pass redaction, for every secret set |
| Redaction.OutputIsSplitIndependentExactlyWhen | bunsen-core/src/redactor.rs:34-37 | for names without angle brackets the output bytes, too, are independent of the chunking iff no secret occurs early inside another |
| Redaction.MarkerReads | bunsen-core/src/redactor.rs:34-37 | a mark reads `<redacted:` followed by the secret's name and `>` |
| Redaction.EmitUpToMatch | bunsen-core/src/redactor.rs:68-72 | one turn of the matching loop: the gap before the match goes out raw, then the mark, and the rest is treated alike |
| Redaction.EmitWithoutMatch | bunsen-core/src/redactor.rs:74-79 | after the last match all but the last (longest secret - 1) bytes go out and those are carried |
| Redaction.Redactor.New | bunsen-core/src/redactor.rs:23-52 | an empty secret is refused, otherwise the redactor starts with nothing carried |
| Redaction.Redactor.Redact | bunsen-core/src/redactor.rs:57-82 | one call hands out and carries exactly what the specification says of tail and chunk together |
| Redaction.Redactor.Flush | bunsen-core/src/redactor.rs:86-88 | the carried tail comes out and nothing stays |
| Redaction.Redactor.RedactAll | bunsen-core/src/redactor.rs:57-88 | feeding chunks and flushing hands out the rendered tokens of the stream, so the results about streams are results about the class |
| Encoding.RedactThenFlushIsSanitised | bunsen-core/src/encoder.rs:39-46 | redacting a line and flushing at once is the one-pass redaction of that line |
| Encoding.RedactLine | bunsen-core/src/encoder.rs:39-46 | a line leaves nothing carried into the next, so no secret is lost or joined across lines |
| Encoding.Encoder.Emit | bunsen-core/src/encoder.rs:29-59 | events are numbered from zero in order and transcript and standard output receive the same sanitised line |
| Scheduler.RunDag | python/bunsen/harness/scheduler.py:132-201 | the loop ends for every task list, cycles and unknown ids included; what it does is a complete run of the transition system, with one result per distinct id in the list and the least fixpoint ok; ok means a non-empty commit, failed an empty one or an error with its message, skipped the blockers in declared order; exactly the tasks that ran have a spec that carries their dependencies' branches |
| Scheduler.LaunchAll | python/bunsen/harness/scheduler.py:134-148 | the launching pass over pending tasks starts and skips exactly the tasks whose dependencies were resolved when the pass began |
| Scheduler.CollectAll | python/bunsen/harness/scheduler.py:161-197 | the finished jobs, and no others, get a result: ok with the commit if it is not empty, else failed with the reason |
| Scheduler.Index | python/bunsen/harness/scheduler.py:98-102 | the keys are the ids of the list, and each holds the last task of the list with that id |
| Scheduler.LaunchKeepsInv | python/bunsen/harness/scheduler.py:134-148 | launching keeps every task in exactly one place with results explained by its dependencies |
| Scheduler.CompleteKeepsInv | python/bunsen/harness/scheduler.py:161-197 | so does collecting any set of finished jobs |
| Scheduler.TurnDecreasesMeasure | python/bunsen/harness/scheduler.py:133-197 | each turn of the loop lowers twice the pending plus the running tasks |
| Scheduler.RunSettles | python/bunsen/harness/scheduler.py:133-197 | a run ends with one result per distinct id, each explained by its dependencies, and never overwrites a result |
| Scheduler.RunIsDeterminedByOutcomes | python/bunsen/harness/scheduler.py:133-197 | the tasks that end ok are the least fixpoint of "all dependencies ended ok and the job succeeds", and a task runs iff all its dependencies are in it |
| Scheduler.ResultsTellOutcomes | python/bunsen/harness/scheduler.py:161-197 | in every complete run a task is ok only if its job left a non-empty commit, which the result carries, and failed only if it left none or raised, with that message |
| Scheduler.SkippedNamesBlockers | python/bunsen/harness/scheduler.py:143-148 | in every complete run a skipped task names exactly its dependencies that are not ok, in declared order |
| Scheduler.RunsAgree | python/bunsen/harness/scheduler.py:161-197 | two runs with the same outcomes agree on what ran and how it ended, whatever completed first |
| Scheduler.RunKeepsSpecs | python/bunsen/harness/scheduler.py:106-120 | a spec is built for exactly the tasks that ran, from refs resolved by the rule |
| Scheduler.SpecsCarryDependencies | python/bunsen/harness/scheduler.py:106-110 | in every complete run specs exist for exactly the tasks that ran, and base followed by imports are the dependencies' branches in order, or the given base when there are none |
| Scheduler.StuckMeansDeadWalk | python/bunsen/harness/scheduler.py:150-159 | the tasks that can never start are those from which a walk along dependencies reaches a cycle or an unknown id |
| Scheduler.CyclicOrUnknownIsUnrunnable | python/bunsen/harness/scheduler.py:150-159 | every task that reaches a cycle or an unknown id ends unrunnable in every run |
| SchedulerLabels.UnrunnableMeansStuckExactlyWhen | python/bunsen/harness/scheduler.py:135-159 | for given outcomes: in every run exactly the stuck tasks are labelled unrunnable iff no unstuck task waits for a task that is never started |
| SchedulerLabels.LabelIsExactForAnyOutcomeExactlyWhen | python/bunsen/harness/scheduler.py:135-159 | the labels are exact for all outcomes iff no unstuck task waits for a task that itself waits |
| SchedulerLabels.ChainOfThreeIsMislabelled | python/bunsen/harness/scheduler.py:135-159 | in the chain a, b, c with only a failing, c is labelled unrunnable |
| SchedulerLabels.LeastFixpointExists | python/bunsen/harness/scheduler.py:133-197 | every graph has a run, so the set that ends ok exists |
| SchedulerSlots.AtMostLimitInside | python/bunsen/harness/scheduler.py:104-114 | from the start of every run on, the semaphore's count and the jobs inside it add up to the limit, so never more than the limit are inside |
| SchedulerSlots.NeverWedged | python/bunsen/harness/scheduler.py:112-114 | while the loop waits some job can enter, leave or be collected |
| SchedulerSlots.FineRunIsRun | python/bunsen/harness/scheduler.py:104-133 | every run with slots is a run of the loop, so all results about runs hold with any limit |
| SchedulerSlots.SlotsAreInvisible | python/bunsen/harness/scheduler.py:104-201 | a run with slots that ends is a complete run of the loop |
| OciLayers.FlattenIsOverlay | bunsen-core/src/oci_cache.rs:162-178 | for layers whose whiteouts come first, applying them one after the other gives the declarative overlay |
| OciLayers.StackDisagreesExactlyWhen | bunsen-core/src/oci_cache.rs:162-178 | applying layers one after the other differs from their overlay at a path iff some layer has a late whiteout there and no layer above adds or hides the path |
| OciLayers.TopmostMentionDecides | bunsen-core/src/oci_cache.rs:162-178 | a path of the overlay holds what the topmost layer mentioning it added, unless that layer only hides it |
| OciLayers.LastTouchDecides | bunsen-core/src/oci_cache.rs:432-471 | after a layer a path is decided by the last entry that puts or hides it |
| OciLayers.DisagreesExactlyWhen | bunsen-core/src/oci_cache.rs:441-470 | a layer differs from its overlay on a path, for some tree below, iff it puts the path and a later entry hides it |
| OciLayers.LayerFollowsOverlayExactlyWhen | bunsen-core/src/oci_cache.rs:420-474 | a layer follows its overlay over every tree below iff no whiteout comes after something it hides |
| OciLayers.LateOpaqueRemovesSibling | bunsen-core/src/oci_cache.rs:442-457 | an opaque whiteout after a sibling removes the sibling its own layer added |
| OciLayers.NamedWhiteoutHides | bunsen-core/src/oci_cache.rs:458-467 | an entry `.wh.name` hides `name` beside it with everything below and nothing else, and puts nothing |
| OciLayers.OpaqueWhiteoutHides | bunsen-core/src/oci_cache.rs:442-457 | an opaque whiteout hides exactly what is strictly below its directory and puts nothing |
| OciLayers.NamelessWhiteoutHides | bunsen-core/src/oci_cache.rs:410-418 | a whiteout without a name hides its own directory |
| OciLayers.PlainEntryPuts | bunsen-core/src/oci_cache.rs:468-470 | any other entry puts its node at its own path and hides nothing |
| OciLayers.Rootfs.ClearDirectory | bunsen-core/src/oci_cache.rs:442-457 | everything strictly below the directory goes and nothing else |
| OciLayers.Rootfs.ApplyLayer | bunsen-core/src/oci_cache.rs:420-474 | entries act in archive order: at every path the last entry that hides or puts it decides, and a path none touches stays |
| OciLayers.Rootfs.PullAndFlatten | bunsen-core/src/oci_cache.rs:162-180 | layers are applied bottom first: of all their entries in that order the last to touch a path decides it |
| GitRefs.AncestorsCompose | bunsen-core/src/branch_pool.rs:432-439 | an ancestor of an ancestor is an ancestor |
| GitRefs.AncestorExactlyWhen | bunsen-core/src/branch_pool.rs:432-439 | a commit is an ancestor iff some walk from child to parent reaches it |
| GitRefs.PushedIs | bunsen-core/src/branch_pool.rs:285-297 | a push with distinct targets sets each to its commit and leaves every other ref |
| GitRefs.HostRepo.PushAtomic | bunsen-core/src/branch_pool.rs:285-297 | the push primitive: everything or nothing, fast-forward unless forced, no target twice |
| BranchPools.ValidateResolvedManifest | bunsen-core/src/branch_pool.rs:98-120 | succeeds iff every pair is forced, new or a fast-forward, and otherwise names the first that is not |
| BranchPools.ReservedNames | bunsen-core/src/branch_pool.rs:368-382 | reserved are exactly the names below `host/` and below `runs/` |
| BranchPools.KeptExactly | bunsen-core/src/branch_pool.rs:264-267 | of a manifest exactly the entries are kept whose pool ref is not below `runs/` |
| BranchPools.BranchPool.ValidateManifest | bunsen-core/src/branch_pool.rs:301-356 | on a host that stands still and without failures it accepts exactly the manifests whose pool refs exist, whose pairs are forced or fast-forwards, and whose temporary refs are not stale; a refusal names the first pair at fault, and every temporary ref is accounted for |
| BranchPools.BranchPool.PushManifest | bunsen-core/src/branch_pool.rs:259-299 | all or nothing: an error leaves the host alone, a success lands every entry of the manifest whose pool ref is not below `runs/`, forward only unless forced, and nothing else; without failures it succeeds exactly when the manifest is pushable and no stale temporary ref is in the way; a stale one stays, and a success leaves exactly the temporary refs that could not be deleted |
| BranchPools.StaleTempBlocksForcedPush | bunsen-core/src/branch_pool.rs:276-324 | one undeleted temporary ref and a rewritten host: a forced push that every rule allows is refused on a still host, and so is every retry |
| BranchPools.PushAcceptedExactlyWhen | bunsen-core/src/branch_pool.rs:285-297 | the assembled push is accepted iff host refs are distinct and every pair is forced or a fast-forward |
| BranchPools.PushLands | bunsen-core/src/branch_pool.rs:285-297 | an accepted push lands the manifest and nothing else |
| BranchPools.KeptAreNotRuns | bunsen-core/src/branch_pool.rs:264-267 | no audit ref is among the pairs kept for the push |
| BranchPools.BranchPool.DropTemps | bunsen-core/src/branch_pool.rs:276-278 | of the temporary refs taken, exactly those whose deletion fails stay |
| BranchPools.BranchPool.MirrorFromHost | bunsen-core/src/branch_pool.rs:154-169 | a success puts the host's tip of every branch at its `host/` name and changes nothing else; it needs every branch on the host |
| BranchPools.BranchPool.ValidateRunOutputTargets | bunsen-core/src/branch_pool.rs:177-193 | succeeds iff the audit ref is free and the output branch, if any, is free and below neither `host/` nor `runs/` |
| BranchPools.BranchPool.AcceptRunOutput | bunsen-core/src/branch_pool.rs:204-223 | writes audit ref and output branch at the same commit, changes no ref that was there, and success means both are there |
| BranchPools.AcceptWrites | bunsen-core/src/sandbox_fetch.rs:131-149 | the two explicit refspecs of a run's output create the audit ref and the output branch at most, both at the run's head, and change nothing that was there |
| PoolHistory.MirrorTouchesHostOnly | bunsen-core/src/branch_pool.rs:163-167 | a mirror, complete or cut short, leaves every ref outside `host/` alone |
| PoolHistory.FetchMovesForward | bunsen-core/src/sandbox_fetch.rs:317-342 | a fetch without force keeps every ref and moves it to a descendant at most |
| PoolHistory.OnlyForward | bunsen-core/src/sandbox_fetch.rs:317-342 | with checks and fetches of any number of runs interleaved, a ref outside `host/` is never lost and only moves to a descendant |
| PoolHistory.RefsCanBeRewrittenExactlyWhen | bunsen-core/src/sandbox_fetch.rs:317-342 | for every set of outputs: some interleaving of checks, fetches, accepts and mirrors over it rewrites a ref outside `host/` iff two of its outputs share a target and one's head is a proper descendant of the other's |
| PoolHistory.OutputCanBeDisplacedExactlyWhen | bunsen-core/src/sandbox_fetch.rs:317-342 | with checks and fetches interleaved: an output whose refs are at its head can lose one of them iff another of the outputs shares a target with it and has a head that is a proper descendant |
| PoolHistory.NeverRewritten | bunsen-core/src/branch_pool.rs:154-223 | while verbs run one at a time, a ref outside `host/` never changes once written |
| PoolHistory.AuditAndOutputAgree | bunsen-core/src/branch_pool.rs:210-221 | while verbs run one at a time, audit ref and output branch of a run taken in stay at its head |
| PoolHistory.RacingOutputsMoveTheBranch | bunsen-core/src/sandbox_fetch.rs:324-337 | two runs with one output branch, both checked before either is fetched: the second fetch moves the branch |
| SessionWorld.DiskTellsTheTruth | bunsen-core/src/session.rs:1038-1083 | in every state any verbs and crashes can lead to: open means never pushed, closed means one whole push landed, failed to close means none ever landed, the last left the host alone and its reason is stored, discarded means pool and runs are gone |
| SessionWorld.HostIsWrittenOnlyWhileClosing | bunsen-core/src/session.rs:1038-1062 | the only step that writes the host is a push that lands while the disk says closing |
| SessionWorld.DiskFollowsTheLifecycle | bunsen-core/src/session.rs:55-96 | every step moves the state on disk along the lifecycle or not at all |
| SessionWorld.RunKeepsInv | bunsen-core/src/session.rs:1117-1124 | the invariant behind these survives every step, the two of a metadata write included |
| SessionWorld.ClosingIsForGood | bunsen-core/src/session.rs:1038-1045 | a verb that stops while the disk says closing leaves it so in every later state, and nothing is pushed again |
| SessionWorld.ClosingDoesNotTell | bunsen-core/src/session.rs:1045-1053 | two reachable closing sessions have the same disk though one landed its push and the other did not |
| SessionWorld.StrandedIsForGood | bunsen-core/src/session.rs:436-451 | a session whose pool no longer opens is never changed again by any verb |
| SessionWorld.CanEndExactlyWhen | bunsen-core/src/session.rs:1038-1083 | a session at rest with metadata can be brought to closed or discarded by some course of events iff the disk already says so, or says open or failed to close over a pool that opens |
| SessionWorld.DiscardCanStrand | bunsen-core/src/session.rs:1072-1083 | a crashed discard can leave such a session reading as open |
| SessionWorld.WritingReaches | bunsen-core/src/session.rs:1117-1124 | temporary file and rename together put the new metadata in place |
| Sessions.Session.WriteMetaAtomic | bunsen-core/src/session.rs:1117-1124 | afterwards the metadata on disk is the old or the new, the new iff no step failed |
| Sessions.Session.OpenIn | bunsen-core/src/session.rs:395-428 | a new session's pool holds the host's tips of the branches asked for, or else of the default branch, at their `host/` names and nothing else; its metadata says open; it fails exactly without a branch, on a missing branch, or on a failing step |
| Sessions.Session.Attach | bunsen-core/src/session.rs:436-451 | attaching succeeds iff there is metadata that can be read, no tombstone, and a pool that opens, and gives a handle with the metadata on disk |
| Sessions.Session.Label | bunsen-core/src/session.rs:536-540 | a label is appended and written; state, runs and pool stay |
| Sessions.Session.Close | bunsen-core/src/session.rs:1038-1062 | closed exactly after a landed push of every entry whose pool ref is not below `runs/`, failed to close exactly after a refused one with the host untouched and the reason stored, all other metadata kept; without failures it succeeds exactly when the manifest is pushable and no stale temporary ref is in the way; refused outside open and failed-to-close; the handle can be used again unless a write failed; whatever it does is a run of the machine |
| Sessions.Session.Run | bunsen-core/src/session.rs:655-660 | a run is accepted only in open and failed-to-close and exactly when its names are free and its fetch succeeds; it keeps the session's metadata and every pool ref that was there and adds its own refs at most |
| Sessions.Session.Discard | bunsen-core/src/session.rs:1072-1083 | the tombstone, with the time and all other metadata kept, is written only after pool and runs are gone; stopping earlier leaves the old metadata |
| DnsMessage.ParseQname | bunsen-core/src/dns.rs:158-203 | the loop computes the recursive specification of a name, every read in bounds |
| DnsMessage.ParseDnsQuery | bunsen-core/src/dns.rs:119-153 | the loop computes the specification of a query, questions in order, every read in bounds |
| DnsMessage.ReservedExactlyFrom64 | bunsen-core/src/dns.rs:166-180 | the mask refuses exactly length bytes from 64 up, so the separate check for long labels never fires |
| DnsGrammar.NameIsAccepted | bunsen-core/src/dns.rs:158-203 | any encoded name of labels of 1 to 63 bytes within the code's bound is accepted and read to its end |
| DnsGrammar.AcceptedIsName | bunsen-core/src/dns.rs:158-203 | whatever is accepted as a name is the encoding of such labels |
| DnsGrammar.ExtendedAllIsDotted | bunsen-core/src/dns.rs:192-200 | the text built label by label is the lowered labels joined by dots |
| DnsGrammar.EncodeThenParse | bunsen-core/src/dns.rs:119-203 | encoding a header and questions and parsing with any bytes after them gives them back, with the section end at the encoding's length |
| DnsGrammar.ParsedExactlyWhenGrammar | bunsen-core/src/dns.rs:119-203 | a datagram parses to a result iff it begins with that result's encoding |
| DnsNames.EveryCutIsTruncated | bunsen-core/src/dns.rs:120-141 | a query cut anywhere before its section end is reported as cut: in the header or in a question |
| DnsNames.DottedIsInjective | bunsen-core/src/dns.rs:192-200 | for labels without dots the decoded name determines the labels up to case |
| DnsNames.HeaderStands | bunsen-core/src/dns.rs:119-141 | the header's six fields are the first twelve octets, two each and the high one first |
| DnsNames.QuestionStands | bunsen-core/src/dns.rs:141-153 | type and class are the four octets after the name, the high octet of each first |
| DnsNames.LabelIsLowered | bunsen-core/src/dns.rs:192-200 | a label's text is its octets with the ASCII capitals made small |
| DnsNames.RefusedDatagrams | bunsen-core/src/dns.rs:119-180 | a datagram shorter than a header, one without a question, and one whose first name has a pointer or reserved length byte are refused, each as such |
| DnsNames.AcceptedUpTo256Octets | bunsen-core/src/dns.rs:166-191 | an encoded name is accepted iff it has at most 256 octets, and else refused as too long |
| DnsNames.OneOctetTooManyExactlyWhen | bunsen-core/src/dns.rs:166-191 | an accepted name has more than 255 octets iff its labels with their length bytes fill 255 |
| DnsNames.NameOf256Octets | bunsen-core/src/dns.rs:166-191 | a name of 256 octets that is accepted |
| DnsRefusal.ReplyFlagBits | bunsen-core/src/dns.rs:242-244 | bit by bit: QR set, OPCODE and RD kept, AA, TC, RA and Z clear, RCODE 5 |
| DnsRefusal.ReplyFlagsAreStable | bunsen-core/src/dns.rs:242-244 | the reply's flags are their own reply flags |
| DnsRefusal.BuildRefusedResponse | bunsen-core/src/dns.rs:234-256 | a reply iff the query parses: its id, its questions octet for octet, no other records, the flags of a refusal; else the parser's error |
| DnsRefusal.RefusalParsesBack | bunsen-core/src/dns.rs:234-256 | a refusal parses: id, question count and questions are the query's, the other counts 0, the flags bit by bit those of a refusal, its section end its length; refusing it gives it back |
| DnsRefusal.EvaluateDnsQuery | bunsen-core/src/dns.rs:217-226 | allowed iff every question's name is on the allowlist |
| DnsRefusal.HandleDnsQuery | bunsen-core/src/dns.rs:427-464 | a denial is offered iff the datagram parses and some question is off the allowlist; it names the first such question, and the reply carries the query's id and questions and the flags of a refusal, so neither fallback is ever taken |
| Egress.EgressPolicy.Compose | bunsen-core/src/egress.rs:78-94 | the policy is the non-blank normalised entries, each once, in order of first mention, the adapter's first |
| Egress.EgressPolicy.Allows | bunsen-core/src/egress.rs:98-101 | the linear search answers membership of the normalised destination |
| Egress.AllowedIsTheUnion | bunsen-core/src/egress.rs:75-101 | a destination is allowed iff its normal form is non-blank and that of an adapter or user entry |
| Egress.NormIs | bunsen-core/src/egress.rs:98-101 | the normal form is what lies between the margins of white space, its ASCII capitals made small and nothing else changed |
| Egress.SameNormExactlyWhen | bunsen-core/src/egress.rs:98-101 | two destinations count as one iff they agree between their margins but for ASCII case |
| Egress.ComposedGrows | bunsen-core/src/egress.rs:78-94 | one more entry comes last in the policy, unless it is blank or was mentioned before |
| Supervision.Supervisor.Run | bunsen-core/src/sandbox_supervisor.rs:171-266 | the loop handles what it is handed in order until both readers are done, then reports queued denials, flushes the parser and ends the run |
| Supervision.Supervisor.Finish | bunsen-core/src/sandbox_supervisor.rs:243-266 | the events of the ending, in order |
| Supervision.EveryStateIsInv | bunsen-core/src/supervisor.rs:198-309 | under every interleaving of readers, denials and commands, the readable lines of each stream are accounted for in order |
| Supervision.BreaksWhenAllIsTaken | bunsen-core/src/supervisor.rs:263-268 | the loop breaks only after every line was taken that the readers could read of both streams |
| Supervision.ClosedIsNeverSeen | bunsen-core/src/supervisor.rs:269 | a closed output channel is never what ends the loop |
| Supervision.EveryRunAccountsForEverything | bunsen-core/src/sandbox_supervisor.rs:123-266 | in every run the parser's events are those of the parser run over the stdout lines before the first that cannot be read, followed by its flush; stderr likewise, line by line; the lines taken are the whole stream iff every line can be read; every denial that arrived is reported |
| Supervision.EveryRunEndsOnce | bunsen-core/src/supervisor.rs:271-338 | `run_ended` comes exactly once and last, its reason that of the last terminal command taken, or the agent's exit, or killed for a child without an exit code |
| Supervision.EveryCommandIsObeyed | bunsen-core/src/sandbox_supervisor.rs:201-233 | stop terminates, kill and timeout kill, pause suspends, resume continues, each in order; the last of the first three names the reason |
| Supervision.MachineFollowsLoop | bunsen-core/src/supervisor.rs:250-309 | the system's loop state is the one the class computes from the same picks |
| Supervision.NeverWedged | bunsen-core/src/supervisor.rs:199-221 | with the bounded channel, until the loop breaks a reader can send or a line can be taken |
| Supervision.QueueIsBounded | bunsen-core/src/supervisor.rs:194-221 | in every run the channel holds at most 256 lines, and a reader that has not finished can send iff it holds fewer |
| Supervision.EachStepLeavesLess | bunsen-core/src/supervisor.rs:199-221 | each such step leaves less to do and no other step adds any |
| Supervision.SomeRunBreaks | bunsen-core/src/supervisor.rs:198-309 | whatever the streams hold, some run of the loop ends |
| Supervision.UnreadableLineHidesTheNext | bunsen-core/src/supervisor.rs:199-208 | a run over a line that cannot be read followed by one that can: neither is taken and the parser only flushes |
| SupervisedAider.SupervisedTurnsAreBracketed | bunsen-core/src/supervisor.rs:198-338 | turns bracketed, token counts conserved and other lines shown in order, in whole supervised runs under every interleaving, over the stdout lines before the first that cannot be read |
| SupervisedCodex.SupervisedCallsAndResultsPair | bunsen-core/src/supervisor.rs:198-338 | the pairing of calls and results holds of whole supervised runs under every interleaving |
| SupervisedPi.SupervisedTotalsAreSums | bunsen-core/src/supervisor.rs:198-338 | in whole supervised runs under every interleaving the turn usages are those of the readable lines and every session usage is the sum of those before it |
| AiderAdapter.AiderParser.ParseLine | bunsen-core/src/aider_adapter.rs:96-168 | one line's events and next state, the pending usage lost to an unreadable cost included |
| AiderAdapter.AiderParser.FlushAll | bunsen-core/src/aider_adapter.rs:173-183 | the end of the stream brings out the pending usage and closes the open turn |
| AiderAdapter.TurnsAreBracketed | bunsen-core/src/aider_adapter.rs:96-200 | over any lines turns open and close without nesting, numbered from 1, one per prompt, none left open |
| AiderAdapter.TokenCountsAreConserved | bunsen-core/src/aider_adapter.rs:142-164 | each token line yields exactly one usage with its counts, in order, unless the next non-blank line is a cost that cannot be read |
| AiderAdapter.OtherLinesPassThrough | bunsen-core/src/aider_adapter.rs:118-168 | the raw outputs are exactly the lines that are not blank, not token lines and not costs that complete one, in order |
| AiderHistory.TranscriptIsReading | bunsen-core/src/aider_adapter.rs:96-200 | over any lines each line's events are what the lines before it call for: what ends comes before what begins, a turn's end names the model last named and comes before its usage, a line's text comes last |
| CodexAdapter.CodexParser.HandleItemStarted | bunsen-core/src/codex_adapter.rs:66-92 | a tool item is called iff its id was not called before |
| CodexAdapter.CodexParser.HandleItemCompleted | bunsen-core/src/codex_adapter.rs:94-131 | a completed tool item yields its result, preceded by the call if there was none |
| CodexAdapter.CallsAndResultsPair | bunsen-core/src/codex_adapter.rs:66-131 | over any lines calls are the tool items mentioned, once per id at first mention; results are the completed tool items in order, each after the call with its id |
| CodexHistory.TranscriptIsReading | bunsen-core/src/codex_adapter.rs:30-190 | over any lines each line's events are what the lines before it call for: turns numbered from one, the model last named, output and reasoning tokens summed, a call for an item not announced before, a result's output or else its text |
| PiAdapter.PiParser.ParseTurnEnd | bunsen-core/src/pi_adapter.rs:112-164 | a turn's usage is reported and added to the session's totals |
| PiAdapter.SessionTotalsAreSums | bunsen-core/src/pi_adapter.rs:112-179 | over any lines each session usage is, amount by amount, the sum of the turn usages reported before it |
| PiAdapter.UsagesAreReported | bunsen-core/src/pi_adapter.rs:112-164 | the turn usages reported are those of the lines, in order |
| PiHistory.TranscriptIsReading | bunsen-core/src/pi_adapter.rs:60-179 | over any lines each line's events are what the lines before it call for: turns numbered from one, calls and results as they come, a turn's usage, the session's sum so far |
| ControlLoop.LinesAreTheOnlySplit | bunsen-init/src/init_linux.rs:443-446 | cutting at newlines is the one way to read a text as complete lines and a remainder |
| ControlLoop.CuttingIsIncremental | bunsen-init/src/init_linux.rs:442-448 | cutting lines as chunks arrive gives the lines of the whole text |
| ControlLoop.Guest.Feed | bunsen-init/src/init_linux.rs:442-447 | a chunk dispatches exactly the lines it completes and keeps what follows the last newline |
| ControlLoop.Guest.Run | bunsen-init/src/init_linux.rs:434-451 | what is dispatched depends only on the text received, not on its chunks |
| ControlLoop.Guest.Dispatch | bunsen-init/src/init_linux.rs:453-474 | stop terminates and later kills, kill kills, pause suspends, resume continues, and any other line does nothing |
| ControlLoop.MarginsDoNotSignal | bunsen-init/src/init_linux.rs:443-447 | white space around a line changes nothing |
| ControlLoop.ReceivedEnds | bunsen-init/src/init_linux.rs:438-442 | a failed or empty read ends the text received; a chunk that is not UTF-8 adds nothing |
| ControlLoop.OpsReachTheGuest | bunsen-core/src/sandbox_supervisor.rs:271-276 | the host writes any ops, any number of the bytes arrives, split into reads in any way: a fresh guest signals exactly the ops whose messages arrived whole, in order, and after everything all of them, with an empty buffer |
| ControlLoop.LinesAreWholeMessages | bunsen-core/src/sandbox_supervisor.rs:271-276 | the lines cut from any prefix of the host's stream are exactly the messages that are whole in it |
| ControlLoop.HostWrites | bunsen-core/src/sandbox_supervisor.rs:271-276 | writing one message after the other puts exactly the ops written on the wire, in order |
| ControlLoop.EverySplitIsReceived | bunsen-init/src/init_linux.rs:438-442 | for ASCII bytes every split into non-empty reads delivers the same text |
| Ulid.Encode26 | bunsen-core/src/ulid.rs:24-35 | the loop writes the 26 base-32 digits of the 128-bit value |
| Ulid.Generate | bunsen-core/src/ulid.rs:14-21 | the id is that of 48 bits of time, 48 and then 32 random bits, the shifts' overflow included |
| Ulid.PartsStand | bunsen-core/src/ulid.rs:17-21 | the value of an id shows 48 bits of the time, 48 of the first random word and the high half of the second, each in its place |
| Ulid.SameDigitsExactlyWhen | bunsen-core/src/ulid.rs:30-33 | digits determine a value modulo their range and no more |
| Ulid.IdOrderIsValueOrder | bunsen-core/src/ulid.rs:24-35 | ids are in lexicographic order iff their values are in numeric order, and equal iff the values are |
| Ulid.SameEndExactlyWhen | bunsen-core/src/sandbox_net.rs:48-55 | two ids end alike iff their values agree in the corresponding low bits |
| Ulid.SameStartExactlyWhen | bunsen-core/src/ulid.rs:25-33 | two ids begin alike iff their values agree in the corresponding high bits |
| Ulid.TimeComesFirst | bunsen-core/src/ulid.rs:17-21 | the first ten characters show the low 48 bits of the time and nothing else, and later times give later ids |
| SandboxNet.TapsCollideExactlyWhen | bunsen-core/src/sandbox_net.rs:56-59 | two ids share a TAP name iff their values agree in the low 55 bits |
| SandboxNet.TapNameFits | bunsen-core/src/sandbox_net.rs:48-59 | a generated id's TAP name is `tap-` and its last 11 characters, 15 in all |
| SandboxNet.TableNameIs | bunsen-core/src/sandbox_nft.rs:31-38 | a generated id's table name is `bunsen-` and its first 16 characters |
| SandboxNet.TablesCollideExactlyWhen | bunsen-core/src/sandbox_nft.rs:31-38 | two ids share a table name iff their values agree above the low 50 bits |
| SandboxNet.SubnetIndex | bunsen-core/src/sandbox_net.rs:63-77 | the loop, its words never over 32 bits, gives the low 14 bits of the FNV-1a hash with 0 moved to 1, so an index between 1 and 16383 |
| SandboxNet.FnvOfA | bunsen-core/src/sandbox_net.rs:63-77 | the hash has the published FNV-1a value of the text `a` |
| SandboxNet.DeriveRunNetwork | bunsen-core/src/sandbox_net.rs:31-41 | no octet overflows; host and guest are at offsets 1 and 2 of the index-th /30 of the /16, never block 0, so different indices have disjoint blocks |
| DropLog.ParseDropLogLine | bunsen-core/src/sandbox_nft.rs:135-178 | marker, bracket, tolerated colon and the fields as read token by token |
| DropLog.ReadFields | bunsen-core/src/sandbox_nft.rs:150-158 | of each key the last token's value counts |
| DropLog.LoggedLineIsRead | bunsen-core/src/sandbox_nft.rs:46-49 | a line logged under a table's prefix, whatever precedes it, is read as that table with the fields that follow |
| DropLog.LoggedDropIsRead | bunsen-core/src/sandbox_nft.rs:135-178 | a drop logged under a table's prefix with words as its fields is read as that table's drop: the last address, the last port after a colon if there is one, the last protocol or `UNKNOWN` |
| DropLog.DescribedIs | bunsen-core/src/sandbox_nft.rs:150-178 | the event of any fields, and none without a destination |
| DropLog.PumpDropLogLines | bunsen-core/src/sandbox_nft.rs:205-235 | a run's own events are forwarded in order until the receiver is gone |
| DropLog.DropsReachTheirRun | bunsen-core/src/sandbox_nft.rs:187-201 | a drop logged for one run is forwarded by another's reader iff their ids agree above the low 50 bits |
| Firewall.ParseIpv4 | bunsen-core/src/firewall_check.rs:170-186 | accepted iff there are exactly four numbers of at most 255, with their value |
| FirewallText.UnsignedExactlyWhen | bunsen-core/src/firewall_check.rs:174-178 | a number is read from exactly the texts that write it in decimal, behind zeros and a plus sign or not, up to the maximum |
| FirewallText.ShownIsRead | bunsen-core/src/firewall_check.rs:174-178 | a decimal numeral is read as its number |
| FirewallText.SplitExactlyWhen | bunsen-core/src/firewall_check.rs:173-173 | splitting is the one way to read a text as parts without the separator |
| FirewallText.AddressExactlyWhen | bunsen-core/src/firewall_check.rs:170-186 | an address is read from exactly the texts that write four octets, the first highest |
| FirewallText.BlockExactlyWhen | bunsen-core/src/firewall_check.rs:128-148 | a block is read from exactly an address alone, with prefix 32, or an address, a slash and a prefix up to 32 |
| FirewallText.ShownBlockCoversExactlyWhen | bunsen-core/src/firewall_check.rs:123-148 | a block written in decimal covers 169.254.0.0/16 iff its prefix is at most 16 and 169.254.0.0 lies in it |
| Firewall.CoversExactlyWhen | bunsen-core/src/firewall_check.rs:123-127 | a block contains every address of 169.254.0.0/16 iff its prefix is at most 16 and it contains the first |
| Firewall.MasksCompareBlocks | bunsen-core/src/firewall_check.rs:145-147 | comparing masked addresses compares blocks, prefix 0 included |
| Firewall.SubnetCoversLinkLocal | bunsen-core/src/firewall_check.rs:128-148 | true iff the text is a well-formed block that contains every address of 169.254.0.0/16, and so every sandbox address |
| Firewall.ParseIptablesSave | bunsen-core/src/firewall_check.rs:68-107 | blocked iff the last INPUT policy is not ACCEPT and no accepting rule covers the range |

## Left out

- Redaction.Redactor.New: takes names and values in name order; the hash map and the sort that produce that order are not modelled, nor is the automaton behind the search.
- Encoding.Encoder.Emit: takes the serialised envelope as a function of the sequence number; JSON serialisation and write errors are not modelled, and no redactor is a redactor without secrets.
- Scheduler.RunDag: the renderer, the spec-building callback, task titles and asyncio scheduling are not modelled; a job's outcome is a function of its id and any non-empty set of jobs may end in a turn.
- OciLayers.Rootfs.ApplyLayer: tar, gzip, symbolic links, permissions, implicit parent directories, `..` paths and replacing a directory by a file are not modelled; registry pulls are not part of this model.
- BranchPools.BranchPool.PushManifest: git itself is a set of primitives (listing, fetch without force, ancestor check, atomic push) with faults; a fetch that fails, a temporary one included, may have written any of its allowed updates.
- BranchPools.BranchPool.AcceptRunOutput: the hardening flags, environment and user id of the sandbox fetch are not modelled, only its refspecs.
- Sessions.Session.OpenIn: a step that fails ends it without a handle; what it leaves on disk then is in the machine of `session_world.dfy`.
- Sessions.Session.Attach: reading metadata that is there may fail for any reason; which one is not modelled.
- Sessions.Session.Run: only what a run does to metadata and pool is modelled, not workspace, agent or history files.
- SessionWorld: one live handle at a time, attached anew for each verb; several stale handles on one session are not modelled. Purge appears as steps of the machine only.
- Which refs can still be read in a pool whose removal stopped halfway: the model allows any.
- DnsRefusal.HandleDnsQuery: a denial carries the query type instead of the sentence built from it; sockets, timeouts and the upstream resolver are a parameter.
- Supervision.Supervisor.Run: the encoder is taken to succeed; processes, the virtual machine and the copying of agent history are not modelled, and a timer is a command that may come at any time.
- Supervision.EveryRunAccountsForEverything: streams come cut into raw lines; the bytes of a line that cannot be read are lost as in the code.
- AiderAdapter.AiderParser.ParseLine: lines come classified and amounts exact; parsing the texts, floating point and the 32-bit turn counter are not modelled.
- CodexAdapter.CodexParser.ParseLine: JSON comes as typed values.
- PiAdapter.PiParser.ParseLine: JSON comes as typed values, costs are exact and totals unbounded.
- ControlLoop.Guest.Dispatch: the JSON reader is a parameter that understands what the host writes; process groups and the escalation timer are signals in a list.
- ControlLoop.EverySplitIsReceived: a multi-byte character split between two reads is dropped by the code; only ASCII streams are covered by this lemma.
- Firewall.ParseIptablesSave: lines come split into their tokens.
- SandboxNet.TapsCollideExactlyWhen: run ids other than generated ones, and slicing inside a multi-byte character, are not covered.
- DropLog.DropsReachTheirRun: is about lines with a destination in which no earlier text looks like the marker; the reader's own errors are not modelled.
- The egress proxy, Firecracker, vsock, nftables and iptables calls, kernel and image downloads: process and socket plumbing.
- Terminal rendering, command lines, run-spec name checks, environment merging, path discovery, the Python subprocess wrappers: easy or presentational.
