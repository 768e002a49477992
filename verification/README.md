# CAS Platform: verified model

CAS Platform watches satellites for close approaches, proposes avoidance maneuvers, alerts operators and
keeps several data sources in step. This project models its decision logic and its stateful protocols in
Dafny and proves what they keep over every input, every run and every reachable state.

`dafny verify dfyconfig.toml` checks everything.

| file | subject |
|---|---|
| `SlidingWindow.dfy` | request throttles (archive download, DISCOS sync) and the contact form limiter |
| `HealthLatch.dfy` | data-source health rows, problem and recovery mails, status at read time |
| `AlertGate.dfy` | pair keys and the re-notify gate of watchlist alerts |
| `CircuitBreaker.dfy` | CelesTrak proxy: cache, breaker, stale fallback |
| `EusstSync.dfy` | paginated fetch, upsert and watermark, over runs with server updates between any two steps, failures and crashes |
| `ArchiveResume.dfy` | weekly thinning, idempotent inserts, progress file, over runs cut off anywhere |
| `Sorting.dfy` | the stable sort the lists are ranked with |
| `ManeuverSearch.dfy` | the delta-v bisection, candidates, choice of lead time |
| `ManeuverRanking.dfy` | screening of the cheapest candidates and the recommendation |
| `Vectors.dfy`, `Propagation.dfy` | orbital elements, RK4 + J2, symmetries |
| `Conjunctions.dfy` | closest approach on a grid, batch analysis, catalogue screening |
| `Matrices.dfy`, `EncounterPlane.dfy`, `KelvinsCovariance.dfy` | RTN frames, covariances, projection, Mahalanobis miss |
| `OrbitalLifetime.dfy`, `LifetimeReversals.dfy` | drag lifetime and cloud clearing; inputs for which the hundred-year cap reverses their order |
| `StationKeeping.dfy` | continuous drag compensation |
| `DebrisMetrics.dfy`, `DebrisRanking.dfy` | CDM de-duplication, per-object metrics, removal priority |

Code that changes state is modelled by classes and methods whose new state is tied to a specification
function, usually of a ghost history; the promises are then proved of that function. Arithmetic is over the
reals. Square root, exponential, logarithm, the size power law, the collision probability (which may overflow) and
the decimal roundings are function parameters; a lemma that needs a property of one (a root squares back, the probability
never grows with the miss distance, rounding is monotone) requires it by name. Clock readings never decrease
and a sleep lasts at least as long as asked. A fetch, a mail, a screening or a crash is an argument chosen by
the environment.

## What the code does beyond its descriptions

- The throttle list is not always a suffix of the calls: its second filter reads the clock anew for every
  entry, so after a burst of calls and a sleep it can drop a younger call and keep an older one
  (`RereadingKeepsANonSuffix`); `SuffixExactly` says which readings leave a suffix. The spacing bound holds
  all the same, because the list answers every later freshness question as the full history would.
- "ok" is shown for two intervals and up to one more minute, since ages are cut to whole minutes; a source
  that falls silent after one or two failures stays at "warning" for ever.
- Two catalogue numbers that spell one value differently ("7" and "07") make the pair key depend on the order
  of the objects; every other pair of names has one key.
- The breaker's failure count is cleared only by a success, so after a policy stop every later failure
  reopens it at once, whatever its kind. A refusal whose body is not UTF-8 raises before its status is looked
  at and counts as one plain failure. The six hours run from the start of the request, not from its answer.
- The bisection never probes 0.001 m/s: it returns the least feasible grid point above it, which is the least
  of the whole grid exactly when 0.001 does not suffice. The fallback lead time of six hours is the dearest
  of those considered.
- The J2 term has the opposite sign of the usual oblateness term: at the equator the pull comes out below
  MU / r^2, by the bulge term (`AccelerationByLatitude`).
- The time of closest approach is moved to the vertex of a parabola; the miss reported with it stays that of the
  sample, which the parabola undercuts (`TcaIsLeast`).
- Without a catalogue every candidate is counted as safe although none was screened (`SafeCountReported`). Among
  unsafe candidates a cascade score of 1 comes before one of 0.7 when it saves at least 0.9 of the fuel spread
  (`SafetyWeighsThreefold`).
- Screening uses its coarse pass only; the described fine pass is empty, and the described 72 h and 300 s are
  48 h and 600 s in the signature. Two candidates are screened where a comment says five. A screening that
  raises counts as screened and safe. With at most two candidates nothing is scored, and indexing the empty list
  raises, if the clock jumps by more than 25 seconds between the two adjacent readings before the first screening;
  the 21 candidates the program generates never end so.
- The Bessel series is evaluated before the exponent guard, so the probability of a pair far enough apart
  overflows: at the default uncertainties beyond about 356 km. Such a pair is reported as an unknown error entry,
  not as green, and so is every farther one (`FarPairsAreErrors`); a search whose first trial overflows gives no
  delta-v at all (`SearchIsDefinedExactly`).
- A sync does not survive every server update that falls between two of its page requests. An update that
  moves an event to the end of the listing hides the event that slides onto a page already read
  (`MovingUpdateLosesAnEvent`); an update in place is overtaken when a later page shows a newer date
  (`StaleVersionIsLost`). Either way the watermark passes the lost event, and no later incremental sync stores
  it (`LostForGood`). Pages add up to the listing exactly when none has changed by the last request; completing
  a fetch is safe exactly when it has every event right that its watermark covers, and gives a full re-sync's
  table exactly when it has every event right. Two remedies hold: fetches whose listing fits on one page are always
  safe (`SmallListingsAreSafe`), and an undisturbed full sync repairs whatever was lost (`FullSyncRepairs`). An
  event dated within the watermark's own whole second is
  missed too (`RepeatedDateIsLost`).
- Beyond the hundred-year cap the order of lifetimes turns round when the shortened life overshoots the cap by
  more: at 1640 km a flux of 160 is reported to last longer than one of 150, and at 1898 km under a flux of 97
  half a debris cloud clears over forty days after all of it (`LifetimeReversals`). Loops that end in the same
  kilometre in the same way keep their order (`SameEndKeepsOrder`).
- Station-keeping simulates at least one minute for each requested sample, also over shorter horizons.
- A null fetch time reads "None", which sorts after every date: such a CDM neither replaces nor is replaced.

## Model

| member | source | states |
|---|---|---|
| SlidingWindow.Throttle.Archive | tle_archive_download.py:22-32 | the archive throttle starts empty with 120 calls an hour |
| SlidingWindow.Throttle.Discos | sync_discos_mass.py:34-49 | the DISCOS throttle starts empty with 90 calls a minute |
| SlidingWindow.Throttle.Call | tle_archive_download.py:33-43 | every call keeps any two calls `limit` apart at least a window apart, and sleeps exactly when `limit` calls of the whole history are still inside the window |
| SlidingWindow.Throttle.PurgeRereading | tle_archive_download.py:42 | the purge filters by one later, ordered clock reading for each entry, and loses nothing any later reading would still count |
| SlidingWindow.FullWindow | tle_archive_download.py:38 | the window is full exactly when the call `limit` places from the end is inside it |
| SlidingWindow.SpacedAppend | tle_archive_download.py:38-43 | appending a call while fewer than `limit` are fresh keeps the spacing |
| SlidingWindow.FreshIsSuffix | tle_archive_download.py:37 | with one clock reading the kept entries are exactly a suffix of the calls |
| SlidingWindow.FreshTwice | tle_archive_download.py:37-42 | purging early and again later keeps what one late purge keeps |
| SlidingWindow.RereadingKeepsANonSuffix | tle_archive_download.py:37-42 | after a burst that fills the list of any throttle, readings following the sleep for which the second filter keeps an older call and drops a younger one |
| SlidingWindow.SuffixExactly | tle_archive_download.py:42 | for distinct ordered calls the second filter leaves a suffix exactly when its readings make one cut |
| SlidingWindow.OneCutIsSuffix | tle_archive_download.py:42 | readings that make one cut leave a suffix of any list |
| SlidingWindow.SlowReadingsKeepASuffix | tle_archive_download.py:42 | a clock that moves between readings no further than the calls lie apart leaves a suffix |
| SlidingWindow.ContactLimiter.Check | cas_engine.py:614-621 | a submission is refused exactly when three accepted ones of its address lie in the last hour; other addresses are untouched |
| SlidingWindow.TracksPurged | cas_engine.py:616-619 | the stored list has fewer than three fresh entries exactly when the third-last accepted submission is an hour old |
| SlidingWindow.TracksAccepted | cas_engine.py:618-621 | accepting below the limit keeps any accepted submission and the third one after it an hour apart |
| HealthLatch.HealthTable.ReportSuccess | cas_api/core/data_health.py:256-282 | rows and mails stay what the report history with one more success prescribes |
| HealthLatch.HealthTable.ReportFailure | cas_api/core/data_health.py:284-325 | rows and mails stay what the report history with one more failure prescribes |
| HealthLatch.MailsAlternate | cas_api/core/data_health.py:261-325 | a source's mails alternate problem and recovery, a problem first, and one problem is open exactly while its last report is a failure |
| HealthLatch.TrailingFailuresIsARun | cas_api/core/data_health.py:290-293 | the failure counter is the length of the failure run that ends the reports |
| HealthLatch.StatusOnlyWorsens | cas_api/core/data_health.py:327-384 | without new reports the shown status moves only ok to stale or unknown to never-ran, and the component never improves |
| HealthLatch.OkIsShownExactly | cas_api/core/data_health.py:364-375 | "ok" is shown exactly when the last report is a success less than two intervals and a minute old |
| HealthLatch.ErrorIsShownExactly | cas_api/core/system_health.py:83-107 | the component is in error exactly when the last success, or the day a silent source was added, is overdue, or three failures in a row were reported |
| HealthLatch.SilentAfterFailureNeverEscalates | cas_api/core/data_health.py:373-375 | silence after one or two failures shows a warning at any later time |
| HealthLatch.FineIsShownExactly | cas_api/core/system_health.py:83-107 | the component is fine exactly while the last report is a success that is not overdue |
| HealthLatch.NeverOverdue | cas_api/core/data_health.py:367-369 | without a positive expected interval a source is never overdue |
| AlertGate.PairKeyIgnoresOrderExactly | cas_engine.py:342-347 | swapping the objects keeps the key except for two numeric identifiers of equal value and different spelling |
| AlertGate.LeadingZeroSplitsAPair | cas_engine.py:342-345 | 7 and 07 have two keys |
| AlertGate.NumericKeysAreUnambiguous | cas_engine.py:342-345 | two numeric pairs with one key are the same pair |
| AlertGate.AlertBound | cas_engine.py:268-276 | in a gated history each alert within 24 hours multiplies the probability by 1.5, and none follows an alert at probability 0 |
| AlertGate.GatedAppend | cas_engine.py:266-277 | an alert sent when due keeps the history gated |
| AlertGate.RecordKeepsFit | cas_engine.py:279-292 | after recording, every row describes exactly the last alert of its recipient and pair |
| AlertGate.Notifier.AlertsInADayAreBounded | cas_engine.py:254-292 | in every reachable state n alerts in a day starting at p satisfy p * 1.5^(n-1) <= 1, and n is 1 for p = 0 |
| AlertGate.Notifier.ShouldSend | cas_engine.py:254-277 | the answer is yes exactly for no alert yet, an escalation, or more than a day since the last |
| AlertGate.Notifier.RecordAlertSent | cas_engine.py:279-292 | the alert is appended and the table follows it |
| AlertGate.Notifier.NotifyOne | cas_engine.py:350-369 | an alert goes out exactly when due and delivered; an undelivered one leaves no record |
| AlertGate.Notifier.NotifyOwners | cas_engine.py:350-369 | every reachable owner ends up alerted since the start unless no alert was due then; only owners are alerted |
| AlertGate.Notifier.NotifyWatchlistOnly | cas_engine.py:322-369 | over a whole batch only RED conjunctions of watched objects alert, every reachable owner ends up informed about each, and the result counts the mails |
| AlertGate.InformedStays | cas_engine.py:350-369 | later alerts of the same batch leave nobody uninformed |
| AlertGate.TextKeysAreUnambiguous | cas_engine.py:346-347 | two pairs of names without the separator that share a key are the same pair |
| AlertGate.KeyKindsDiffer | cas_engine.py:342-347 | a key of numbers is never a key of names |
| AlertGate.KeyIsSorted | cas_engine.py:344-347 | a key joins the two objects, the smaller number or the earlier name first |
| AlertGate.IntOfDecimal | cas_engine.py:344 | the value sorted by is the number a decimal spelling stands for |
| AlertGate.BeforeExactly | cas_engine.py:347 | names are ordered by their first difference, a prefix first |
| AlertGate.NotDueExactly | cas_engine.py:266-277 | no alert is due exactly within 24 hours of one whose probability has not grown by half, or when either probability is zero |
| AlertGate.TargetsExactly | cas_engine.py:333-341 | the owners of either object, and no others, are mailed |
| AlertGate.AboutExactly | cas_engine.py:254-277 | the history consulted is exactly the alerts of that recipient and pair, in order |
| AlertGate.KeyOfConjunction | cas_engine.py:342-347 | a conjunction's key is made of its two numbers when both are numeric, else of its two names |
| AlertGate.MissingNumber | cas_engine.py:343-347 | a missing number makes a key of names |
| CircuitBreaker.Proxy.FetchTleGroup | cas_engine.py:1543-1643 | a request is made exactly for a known group with no data younger than two hours and six hours after the last opening; the newest good data of the group is returned whenever there is any |
| CircuitBreaker.Proxy.Ask | cas_engine.py:1603-1643 | one attempt appends one request and leaves cache and breaker as the history prescribes |
| CircuitBreaker.LegalIsDisciplined | cas_engine.py:1583-1601 | over every run no request of any group starts within six hours of an opening, nor within two hours of its group's last success |
| CircuitBreaker.DisciplineStep | cas_engine.py:1583-1601 | a request made with the breaker closed and the cache old keeps that discipline |
| CircuitBreaker.OpensOnPolicyOrThirdFailure | cas_engine.py:1626-1636 | a policy stop with a readable body, or a failure from the third in a row on, opens the breaker whatever came before |
| CircuitBreaker.UndecodableRefusalIsPlain | cas_engine.py:1612-1632 | a refusal whose body does not decode opens nothing by itself |
| CircuitBreaker.LastGoodIsNewest | cas_engine.py:1614-1624 | the data kept for a group is at least as new as every success of the group |
| CircuitBreaker.State.FitsAfter | cas_engine.py:1614-1636 | the update of cache, failure count and opening time follows the request history |
| CircuitBreaker.AnswersByStatus | cas_engine.py:1612-1628 | which status and body length make an answer good, a policy stop or a plain failure |
| CircuitBreaker.ThirdPlainFailureOpens | cas_engine.py:1622-1635 | after a success two plain failures open nothing and the third does |
| CircuitBreaker.StarlinkIsNeverAsked | cas_engine.py:1560-1582 | the Starlink group is never asked for, in any state |
| EusstSync.FetchAllEvents | eusst_sync.py:151-173 | under the given filter the fetch reads full pages up to the first short one and returns their concatenation, or nothing when a page fails |
| EusstSync.PagesCoverListing | eusst_sync.py:156-172 | the pages add up to the last listing, each event once, exactly when every earlier page still reads the same |
| EusstSync.AppendingKeepsPages | eusst_sync.py:156-172 | a listing that only grows at its end keeps its pages |
| EusstSync.UpsertedRows | eusst_sync.py:300-313 | an upsert stores the last row of each id and touches no other |
| EusstSync.MaxDateIsMax | eusst_sync.py:382-387 | the new watermark is the largest date among the rows and occurs there |
| EusstSync.StepKeepsSane | eusst_sync.py:343-398 | update, page request, failed fetch, crash on either side of the commit and completion all keep rows, filter and watermark consistent with the server |
| EusstSync.StepKeepsInv | eusst_sync.py:294-337 | each of these steps, a completion only with a clean fetch, keeps everything up to the watermark's second stored |
| EusstSync.RunKeepsInv | eusst_sync.py:343-398 | so does every run in which updates fall between any two steps and each completed fetch was clean |
| EusstSync.CompletingIsSafeExactly | eusst_sync.py:379-397 | completing keeps that invariant from every consistent table exactly when the fetch has right every event the new watermark covers |
| EusstSync.CompletingCatchesUpExactly | eusst_sync.py:379-397 | completing gives a full re-sync's table from every consistent table exactly when the fetch has every event right |
| EusstSync.UncleanFetchLoses | eusst_sync.py:379-397 | completing an unclean fetch loses an event from some consistent table |
| EusstSync.LateUpdatesAreHarmless | eusst_sync.py:379-397 | updates after the last page never make a clean fetch unclean |
| EusstSync.LostForGood | eusst_sync.py:347-397 | a lost event stays lost, and the table short of a full re-sync's, through every further incremental sync until it is updated again |
| EusstSync.StaleVersionIsLost | eusst_sync.py:156-172 | a run of 501 events in which two updates in place between two pages lose the new version of one |
| EusstSync.MovingUpdateLosesAnEvent | eusst_sync.py:156-172 | a run of 501 events in which one moving update between two pages loses another event |
| EusstSync.DisturbedSyncsNeverRecover | eusst_sync.py:343-398 | after such a run no incremental sync ever gives a full re-sync's table |
| EusstSync.RepeatedDateIsLost | eusst_sync.py:158-160 | an event dated in the watermark's own second is lost |
| EusstSync.StoringCatchesUp | eusst_sync.py:378-391 | upserting a complete listing, incremental or full, gives the table of a full re-sync |
| EusstSync.IncrementalSyncIsExact | eusst_sync.py:343-398 | from any stored state a complete incremental listing gives a full re-sync's table exactly when every event its filter skips is already stored as the server has it |
| EusstSync.ShortFetchIsCurrent | eusst_sync.py:156-171 | a fetch whose first page is short has every event right, whatever is stored |
| EusstSync.SmallListingsAreSafe | eusst_sync.py:156-171 | over runs in which every listing fits on one page all syncs are clean and nothing is ever lost, wherever updates, failures and crashes fall |
| EusstSync.FullListingIsEnough | eusst_sync.py:347-391 | upserting a complete unfiltered listing gives a full re-sync's table from any table |
| EusstSync.UndisturbedSyncIsComplete | eusst_sync.py:343-398 | a sync whose pages still agree at its last request gives a full re-sync's table, with updates anywhere before that: a full one from whatever is stored, one filtered by the stored watermark when everything up to that is stored |
| EusstSync.FullSyncRepairs | eusst_sync.py:343-398 | after any run at all, unclean syncs and lost events included, an undisturbed full sync gives that table |
| EusstSync.SyncedAfterEveryRun | eusst_sync.py:343-398 | so it does after any run of updates, failed fetches, crashes and clean syncs |
| EusstSync.SyncStore.UpsertEvents | eusst_sync.py:294-314 | all rows are committed or, when interrupted, none |
| EusstSync.SyncStore.UpdateSyncState | eusst_sync.py:326-337 | the status is set; an absent total or date leaves the stored one |
| EusstSync.SyncStore.StoreEvents | eusst_sync.py:362-397 | after the fetch the store moves by the model's completion, commit alone or abandoned fetch |
| EusstSync.SyncStore.SyncService | eusst_sync.py:343-398 | a sync derives its filter from its own watermark, moves the store by exactly the steps of the run model, reports them in the sync state, and when undisturbed leaves the table of a full re-sync |
| ArchiveResume.Thin | tle_archive_download.py:126-147 | the loop returns the thinned rows |
| ArchiveResume.KeptExactlyFirsts | tle_archive_download.py:126-134 | exactly the first usable record of each object and ISO week is kept, each week once |
| ArchiveResume.InsertedHolds | tle_archive_download.py:149-153 | an insert stores every row's key and changes no stored row |
| ArchiveResume.NothingNewToInsert | tle_archive_download.py:149-153 | inserting rows already held changes nothing |
| ArchiveResume.RerunChangesNothing | tle_archive_download.py:126-154 | running a fetched group again at any later point changes nothing |
| ArchiveResume.AccountedGrows | tle_archive_download.py:149-157 | what the progress file accounts for stays accounted for |
| ArchiveResume.Archive.SaveProgress | tle_archive_download.py:45-49 | the file holds the new set, or nothing readable after a crash while writing |
| ArchiveResume.Archive.Store | tle_archive_download.py:149-157 | rows are committed before their group enters the progress file; a crash at any point leaves the file accounted for |
| ArchiveResume.Archive.SkipRest | tle_archive_download.py:104-109 | groups are marked done unfetched only after two consecutive empty groups of the year in this run |
| ArchiveResume.Archive.OneGroup | tle_archive_download.py:110-157 | one group is fetched, with one retry, and stored or left for the next run |
| ArchiveResume.Archive.Year | tle_archive_download.py:96-163 | a completed year has every group done or unfetchable |
| ArchiveResume.Archive.Run | tle_archive_download.py:83-163 | every state a run can leave has each saved key committed or skipped for cause; done groups are not fetched again; a finished run covers all groups that could be fetched |
| ArchiveResume.PassedOverExactly | tle_archive_download.py:131-134 | a record is passed over exactly for a missing element line or an unreadable epoch |
| Sorting.SortFacts | cas_engine.py:3813 | sorting yields an ordered permutation |
| Sorting.SortStable | cas_engine.py:3813 | entries that tie keep their order |
| ManeuverSearch.Search | cas_engine.py:2007-2015 | the loop computes forty halvings of [0.001, 10], or nothing when a probability on the way overflows |
| ManeuverSearch.SearchIsDefinedExactly | cas_engine.py:2008-2015 | unless the first trial is refused, the search has a result exactly when that trial's probability can be computed |
| ManeuverSearch.SearchIsDefinedNearby | cas_engine.py:2008-2015 | it has one whenever the probability after the largest burn can be computed |
| ManeuverSearch.ComputeDv | cas_engine.py:2005-2016 | the reported delta-v is the rounded result of the search |
| ManeuverSearch.BisectFindsBoundary | cas_engine.py:2007-2015 | n halvings of 2^n cells, when they have a result, end on a grid point where feasibility starts |
| ManeuverSearch.BurnIsABoundary | cas_engine.py:2005-2016 | for any probability function a result is 10 or meets the target, and the grid point below it, unless 0.001, does not |
| ManeuverSearch.BurnIsLeast | cas_engine.py:2005-2016 | for an antitone probability a result is the least grid point above 0.001 that is not refused, or 10 |
| ManeuverSearch.WholeGridExactly | cas_engine.py:2005-2016 | it is the least such point of the whole grid exactly when 0.001 is refused |
| ManeuverSearch.LowerEndIsNeverReturned | cas_engine.py:2007-2016 | the result is above 0.001 even when every burn suffices |
| ManeuverSearch.DvNeverRises | cas_engine.py:2005-2016 | delta-v never rises with a larger miss or a longer lead time |
| ManeuverSearch.GenerateManeuverCandidates | cas_engine.py:3818-3860 | the candidates of all lead times and directions in the order of the two loops, or nothing |
| ManeuverSearch.TableFailsExactly | cas_engine.py:3830-3846 | nothing is generated exactly when some lead time and direction overflow |
| ManeuverSearch.TableKeys | cas_engine.py:3830-3832 | distinct lead times and directions give one candidate each, with distinct keys |
| ManeuverSearch.GeneratedKeysAreDistinct | cas_engine.py:3824-3832 | the generated list has 21 candidates with distinct keys |
| ManeuverSearch.CandidateMeetsTarget | cas_engine.py:3834-3847 | a candidate meets the target after its burn unless the search hit the 10 m/s ceiling |
| ManeuverSearch.LongerLeadIsCheaper | cas_engine.py:3830-3848 | in one direction more warning never costs more |
| ManeuverSearch.ChooseLead | cas_engine.py:4340-4348 | the first lead time below 0.5 m/s is offered, else six hours; nothing when a search on the way overflows |
| ManeuverSearch.FallbackIsTheDearest | cas_engine.py:4340-4348 | the six-hour fallback costs at least as much as every other lead time |
| ManeuverSearch.GridSpacing | cas_engine.py:2007-2009 | the search cuts 0.001 to 10 m/s into 2^40 equal cells |
| ManeuverSearch.CandidateMeans | cas_engine.py:3844-3857 | cost, fuel, miss and probability of a candidate in terms of its burn; the miss exceeds the current one by half of burn times lead |
| ManeuverSearch.TableCell | cas_engine.py:3830-3858 | the candidate of each lead time and direction stands at its place in the list |
| ManeuverSearch.GeneratedTriple | cas_engine.py:3824-3858 | for each of the seven lead times one prograde, one retrograde and one radial candidate with the same miss and probability, the radial one 1.4 times as dear before rounding |
| ManeuverSearch.OfferMeetsTarget | cas_engine.py:2005-2016 | after the burn offered the probability is at most one in a million unless that takes more than 10 m/s |
| ManeuverSearch.CandidateExists | cas_engine.py:3834-3847 | a candidate exists exactly when its search and the probability after its burn are computed |
| ManeuverSearch.GeneratedNearby | cas_engine.py:3818-3860 | all candidates are generated whenever the probability after 10 m/s two days ahead can be computed |
| ManeuverSearch.OfferNearby | cas_engine.py:4340-4348 | so is an offer for a risky pair |
| ManeuverRanking.ScoresInUnit | cas_engine.py:3931-3985 | every score of screened, unscreened and catalogue-free candidates lies in [0, 1] |
| ManeuverRanking.SelectOptimalManeuver | cas_engine.py:3914-4033 | the selection is the head of the ranked scored list with its alternatives and counts; shown screened and safe, it had a screening that raised or found no significant secondary above 1e-6 |
| ManeuverRanking.BestInClass | cas_engine.py:3987-3993 | the recommendation is screened and safe if any candidate is, else screened if any is, with the least combined score of its class |
| ManeuverRanking.UnscreenedAreAllButTheTop | cas_engine.py:3970-3985 | with distinct keys all but the two cheapest candidates stay unscreened, also after a timeout |
| ManeuverRanking.EvaluatedCount | cas_engine.py:3942-3985 | the evaluated count is the screened ones plus all but the two cheapest, and it is zero exactly when a catalogue, at most two candidates and a clock jump before the first screening meet |
| ManeuverRanking.GeneratedAreEvaluated | cas_engine.py:3942-3985 | of the 21 generated candidates at most two are screened and the other 19 always scored, so a recommendation exists |
| ManeuverRanking.ScreenedCountReported | cas_engine.py:4030 | the screened count reported is the number of screenings made |
| ManeuverRanking.AlternativesAreDistinct | cas_engine.py:3995-4012 | at most three alternatives, all from the list, with distinct keys |
| ManeuverRanking.AlternativesAreComplete | cas_engine.py:3995-4012 | with room left no key of the list is missing |
| ManeuverRanking.FailedScreeningLooksSafe | cas_engine.py:3909-3911 | a screening that raised ranks its candidate screened and safe |
| ManeuverRanking.FuelScoreIsPlace | cas_engine.py:3955 | the fuel score never falls with delta-v and is the place between the cheapest and the dearest |
| ManeuverRanking.CascadeGradesRisk | cas_engine.py:3893-3907 | the score is 0 exactly when no significant secondary lies above 1e-6, and reaches 0.3, 0.7 and 1 exactly when one lies above 1e-6, 1e-5 and 1e-4 |
| ManeuverRanking.CascadeNeverFalls | cas_engine.py:3896-3907 | the score never falls when probabilities grow or secondaries are added |
| ManeuverRanking.SignificantExactly | cas_engine.py:3893-3894 | significant are exactly the RED and YELLOW secondaries |
| ManeuverRanking.ShownRisks | cas_engine.py:3965-3967 | an entry shows the number of significant secondaries and the first five |
| ManeuverRanking.SafetyWeighsThreefold | cas_engine.py:3955-3958 | of two screened candidates the riskier comes first exactly when it saves more than three times the difference in risk |
| ManeuverRanking.UnscreenedScoresAsSafe | cas_engine.py:3928-3985 | an unscreened candidate scores as one screened without findings; what each kind of entry shows |
| ManeuverRanking.TopIsCheapest | cas_engine.py:3942-3943 | the two screened candidates are the cheapest, and every other costs at least as much |
| ManeuverRanking.ChoiceIsSound | cas_engine.py:3892-3990 | a recommendation shown screened and safe had a screening that raised or found no significant secondary above 1e-6 |
| ManeuverRanking.SafeCandidateWins | cas_engine.py:3987-3993 | a screened candidate without such a secondary is never passed over for another kind |
| ManeuverRanking.SafeCountReported | cas_engine.py:4031 | the safe count is all candidates without a catalogue, else those screened without findings |
| Vectors.SlopesIntegrateCubics | cas_engine.py:1924-1925 | a sixth of the step times the weighted slopes of any cubic in time is its exact integral over the step |
| Vectors.PositionFromAccelerations | cas_engine.py:1924 | the position after a step is p + h v + h^2/6 (a1 + a2 + a3), whatever the last acceleration |
| Propagation.Propagate | cas_engine.py:1928-1935 | the loop returns all states of the track, or fails when some step does |
| Propagation.AccelCommutes | cas_engine.py:1899-1911 | the acceleration commutes with polar rotations and the equatorial mirror |
| Propagation.Rk4Commutes | cas_engine.py:1913-1926 | so does one Runge-Kutta step |
| Propagation.TrackCommutes | cas_engine.py:1896-1935 | so does the whole track for any number of steps, failures included |
| Propagation.ToEciCommutes | cas_engine.py:1862-1892 | turning an orbit's node or negating its inclination moves its state by the same symmetry |
| Propagation.StepFromAccelerations | cas_engine.py:1913-1926 | a step as a function of its four accelerations alone, taken at the four positions of the method, for both position and velocity; it fails exactly when one of them does |
| Propagation.TrackFollowsSteps | cas_engine.py:1928-1935 | a track starts at the given state, and each further state is one step from the one before |
| Propagation.AccelerationIsAxial | cas_engine.py:1899-1911 | the acceleration has no part that turns about the pole |
| Propagation.AccelerationByLatitude | cas_engine.py:1899-1911 | the pull along the radius is MU/r plus the bulge term times 1 - 3 sin^2 of the latitude, hence weaker than MU/r^2 at the equator; across it acts as twice the bulge |
| Propagation.PerifocalIsTheConic | cas_engine.py:1868-1876 | position and velocity in the orbital plane satisfy the orbit equation, the area law and vis-viva, with the eccentricity vector along the first axis |
| Propagation.InPlaneIsTheOrbitalPlane | cas_engine.py:1878-1886 | the rotation keeps lengths, its normal is inclined and turned as the elements say, and the ascending node lies on the equator |
| Propagation.ToEciIsTheOrbit | cas_engine.py:1862-1892 | distance, speed and plane of the state are those of the elements |
| Propagation.AccelerationIsDefined | cas_engine.py:1899-1907 | an acceleration exists everywhere but at the centre |
| Propagation.ElementsFailExactly | cas_engine.py:1868-1876 | elements have no state exactly when the semi-latus rectum is not positive or the radius is infinite |
| Conjunctions.FirstMin | cas_engine.py:1947-1948 | the index found is the first minimum |
| Conjunctions.VertexWithinHalf | cas_engine.py:1949-1953 | at a minimum the parabola's vertex lies within half a step |
| Conjunctions.ClosestApproachIsSound | cas_engine.py:1946-1959 | the reported miss is the least sampled distance, first reached at the index; the time lies within half a step of it and inside the span |
| Conjunctions.AnalyzeBatch | cas_engine.py:4304-4394 | the loops compute the ranked results of all pairs of valid tracks, error entries included |
| Conjunctions.BatchIsRanked | cas_engine.py:4324-4394 | each pair of valid tracks gives one result, n(n-1)/2 in all, riskiest and then closest first |
| Conjunctions.PairsAreComplete | cas_engine.py:4324-4326 | the double loop visits exactly the pairs of an earlier with a later track |
| Conjunctions.PairCount | cas_engine.py:4324-4326 | the number of pairs visited |
| Conjunctions.CloserIsNoSafer | cas_engine.py:1997-2002 | with an antitone probability a closer pair is never judged safer, and one under a kilometre never green |
| Conjunctions.FarPairsAreErrors | cas_engine.py:1971-1976 | a pair whose probability overflows, and every farther one with its uncertainty, is an error entry |
| Conjunctions.PairUnchanged | cas_engine.py:4328-4338 | moving both tracks by one symmetry changes nothing in a pair's result |
| Conjunctions.BatchUnchanged | cas_engine.py:4304-4394 | turning every orbit about the pole, or mirroring all in the equator, leaves every time, distance, speed, risk, maneuver and the order unchanged |
| Conjunctions.ScreenConjunctions | cas_engine.py:3712-3814 | screening returns the sorted hits of the catalogue, or none when the primary track fails |
| Conjunctions.ScreenOne | cas_engine.py:3748-3808 | an object is reported exactly when its coarse minimum lies below the threshold and its probability can be computed |
| Conjunctions.Nearest | cas_engine.py:3756-3768 | the scan finds the first minimum of the sampled distances |
| Conjunctions.ScreeningIsExact | cas_engine.py:3748-3808 | the hits are exactly those objects, each as often as it occurs |
| Conjunctions.ScreeningIsSorted | cas_engine.py:3812-3814 | sorting by miss keeps every hit |
| Conjunctions.VertexOfParabola | cas_engine.py:1950-1953 | from three samples of any parabola above the curvature threshold the vertex is recovered |
| Conjunctions.TcaIsLeast | cas_engine.py:1949-1958 | the parabola through the sample and its neighbours is least at the reported time; at the ends and for a flat triple that is the sample's own time |
| Conjunctions.RiskByLimits | cas_engine.py:1997-2002 | the colours by their limits |
| Conjunctions.PairResultMeans | cas_engine.py:4328-4386 | what each field of a pair's result says of the two tracks, and exactly when it is an error entry |
| Conjunctions.BatchOrder | cas_engine.py:4391-4393 | RED before YELLOW before GREEN before errors, and within a colour the nearer first |
| Conjunctions.TracksByName | cas_engine.py:4310-4321 | one track for each name, in order of first appearance |
| Conjunctions.TracksAreLatest | cas_engine.py:4310-4321 | a repeated name keeps the track of its last satellite |
| Conjunctions.ReportMeans | cas_engine.py:3756-3805 | which catalogue entries are reported, and what distance, time, probability and colour a report gives |
| Matrices.SandwichForm | cas_api/services/conjunction_math.py:43 | the rotated covariance as a form is the original applied to rotated vectors |
| Matrices.SandwichKeepsPsd | cas_api/services/conjunction_math.py:43 | rotation keeps symmetric positive semidefiniteness |
| Matrices.SumKeepsPsd | cas_api/services/conjunction_math.py:43 | so does the sum of the two objects |
| EncounterPlane.RtnIsOrthonormal | cas_api/services/conjunction_math.py:28-34 | a frame exists exactly for non-collinear position and velocity, and its rows are orthonormal |
| EncounterPlane.HelperNeverVanishes | cas_api/services/conjunction_math.py:50-54 | the helper axis keeps a squared length of at least 0.19 in the plane, so the zero branch is never taken |
| EncounterPlane.AxesAreBasis | cas_api/services/conjunction_math.py:49-56 | the two axes built are an orthonormal basis of the encounter plane |
| EncounterPlane.AnyAxesAgree | cas_api/services/conjunction_math.py:56-68 | any orthonormal in-plane axes give one and the same, axis-free value |
| EncounterPlane.MahalanobisIsAxisFree | cas_api/services/conjunction_math.py:60-68 | the computed value is that axis-free value |
| EncounterPlane.MahalanobisIgnoresOrder | cas_api/services/conjunction_math.py:60-68 | swapping the two objects keeps the value |
| EncounterPlane.ProjectionUsesABasis | cas_api/services/conjunction_math.py:37-57 | the projection fails exactly for degenerate geometry and otherwise projects on such a basis, right-handed and with its first axis on the side of the helper axis |
| EncounterPlane.ProjectionKeepsPsd | cas_api/services/conjunction_math.py:43-57 | positive semidefinite covariances give a positive semidefinite projected one |
| EncounterPlane.ProjectedMissIsShorter | cas_api/services/conjunction_math.py:57 | the projected miss is the separation less its part along the normal, hence never longer |
| EncounterPlane.ProjectToBplaneIsSound | cas_api/services/conjunction_math.py:37-57 | what the projection returns for positive semidefinite covariances is a positive semidefinite 2x2 and a miss no longer than the separation |
| EncounterPlane.DefinedExactly | cas_api/services/conjunction_math.py:60-68 | for positive semidefinite covariances a value exists exactly when frames and relative velocity do, the projected covariance is regular and the projected miss is not zero |
| EncounterPlane.CopiesAgree | cas_api/mappers/ccsds_cdm.py:110-147 | the mapper's own copy agrees with the shared module and ignores the order too |
| EncounterPlane.MapperDefinedExactly | cas_api/mappers/ccsds_cdm.py:331-363 | the mapper has a value exactly for two complete records in regular geometry, the same in either order |
| EncounterPlane.FrameFollowsState | cas_api/services/conjunction_math.py:28-34 | in every frame the position is (r, 0, 0) and the velocity has no third and a positive second component, which fixes all three rows |
| EncounterPlane.RotatedEntries | cas_api/services/conjunction_math.py:43 | along the rows of the frame the rotated covariance has the entries given |
| EncounterPlane.CombinedEntries | cas_api/services/conjunction_math.py:43 | along each axis of the first body the combined covariance is that body's variance plus the second body's contribution |
| EncounterPlane.SolvedSolves | cas_api/services/conjunction_math.py:60-68 | the value under the root is the miss times the solution of the linear system |
| EncounterPlane.RoundUncertainty | cas_api/services/conjunction_math.py:60-68 | for direction-free uncertainties the value under the root is the squared projected miss over the summed variances |
| EncounterPlane.ProjectedMissExactly | cas_api/services/conjunction_math.py:44-57 | the squared projected miss, in metres, is that of the separation across the relative velocity |
| EncounterPlane.MahalanobisMeans | cas_api/services/conjunction_math.py:60-68 | a value returned is the positive root of the miss times the solution of the linear system |
| EncounterPlane.BodyOfExactly | cas_api/mappers/ccsds_cdm.py:331-363 | a complete record gives its own position, velocity and symmetric covariance; any missing part gives none |
| KelvinsCovariance.EntriesAreScaledCorrelations | cas_api/mappers/esa_kelvins.py:273-313 | entry (i, j) is the correlation times both sigmas, missing exactly when one of the three is |
| KelvinsCovariance.CovarianceForm | cas_api/mappers/esa_kelvins.py:282-313 | the covariance form at x is the correlation form at the scaled x |
| KelvinsCovariance.CovarianceIsPsd | cas_api/mappers/esa_kelvins.py:273-313 | a positive semidefinite correlation matrix gives a positive semidefinite 6x6 covariance |
| KelvinsCovariance.OnlyPsdCorrelationsWork | cas_api/mappers/esa_kelvins.py:273-313 | with nonzero sigmas nothing else does |
| KelvinsCovariance.PositionBlockIsPsd | cas_api/mappers/ccsds_cdm.py:331-341 | the position block is complete and positive semidefinite, as the encounter-plane computation needs |
| OrbitalLifetime.DensityNonNegative | vleo.py:90-122 | the density is never negative |
| OrbitalLifetime.SolarFactorMonotone | vleo.py:368-372 | the solar factor grows with the flux and is at least 0.3 |
| OrbitalLifetime.StepDown | vleo.py:364-395 | the loop computes the lifetime in at most as many steps as kilometres, rounded up, above the floor |
| OrbitalLifetime.EstimateOrbitalLifetime | vleo.py:334-395 | the same for the drag step times |
| OrbitalLifetime.LifetimeTelescopes | vleo.py:364-395 | clipped at a hundred years the loop equals the upward count of kilometres; below the cap without clipping |
| OrbitalLifetime.OneKilometreMore | vleo.py:364-395 | below the cap the lifetime one kilometre higher is longer by that kilometre's time |
| OrbitalLifetime.HigherLivesLonger | vleo.py:364-395 | a kilometre more never shortens the clipped lifetime |
| OrbitalLifetime.ShorterStepsShorterLife | vleo.py:364-395 | within a hundred years shorter steps never lengthen life |
| OrbitalLifetime.ExcessIsOvershoot | vleo.py:364-395 | a lifetime passes a hundred years by exactly what its last step has beyond the cap |
| OrbitalLifetime.OrderSurvivesExactly | vleo.py:364-395 | shorter steps give no longer life exactly when it stays within a hundred years or overshoots them by no more |
| OrbitalLifetime.SameEndKeepsOrder | vleo.py:364-395 | they give no longer life whenever both loops end in the same kilometre in the same way, also beyond the cap |
| LifetimeReversals.CapBreaksTheOrder | vleo.py:365-393 | at 1640 km and ballistic coefficient 50 the reported life under flux 160 is longer than under flux 150 |
| OrbitalLifetime.StepsRespond | vleo.py:365-388 | more flux or a smaller ballistic coefficient shortens every step |
| OrbitalLifetime.LifetimeResponds | vleo.py:334-395 | more flux or a smaller coefficient does not lengthen life exactly when it ends within a hundred years or overshoots them by no more |
| OrbitalLifetime.LifetimeIsProportional | vleo.py:377-388 | below the cap the lifetime is proportional to the ballistic coefficient |
| OrbitalLifetime.CloudClearing | vleo.py:1051-1078 | the milestones come from the rounded lifetimes of the smallest and the largest size class |
| OrbitalLifetime.BallisticOrder | vleo.py:993-1014 | larger fragments have a larger ballistic coefficient |
| OrbitalLifetime.ClearingIsOrdered | vleo.py:1051-1078 | the 50, 90 and 99 per cent milestones are ordered under every monotone rounding exactly when the smallest class clears within a hundred years or overshoots them by no more than the largest |
| OrbitalLifetime.SameEndKeepsMilestones | vleo.py:1051-1078 | they are ordered when both classes leave the loop in the same kilometre in the same way |
| OrbitalLifetime.BandHolds | vleo.py:112-119 | the band chosen from 100 km up is the one the altitude lies in: its base is not above, the next one is |
| OrbitalLifetime.DensityAtBase | vleo.py:112-122 | at every band's base the density is the tabulated one |
| OrbitalLifetime.DensityDecays | vleo.py:121-122 | within a band, and without end above 1000 km, the density falls exponentially with the band's scale height |
| OrbitalLifetime.DensityIsClamped | vleo.py:101-106 | below 100 km it stays at the value there, and is zero at and below the ground |
| OrbitalLifetime.SolarFactorByRange | vleo.py:368-372 | the factor on each range of the flux |
| OrbitalLifetime.PeriodIsKepler | vleo.py:374-375 | the period satisfies Kepler's third law |
| OrbitalLifetime.StepMeans | vleo.py:365-388 | a kilometre takes as many orbits as the loss per orbit goes into it; none below a loss of 1e-10 m |
| OrbitalLifetime.FragmentMeans | vleo.py:993-1014 | area to mass and ballistic coefficient of a fragment, with both limits |
| OrbitalLifetime.MilestonesMean | vleo.py:1068-1078 | unrounded, the milestones are the smallest class's life, the middle, and the largest class's life |
| LifetimeReversals.ClearingOrderCanFail | vleo.py:1051-1078 | at 1898 km under flux 97 the milestones, rounded to a tenth of a day, run backwards by over forty days |
| LifetimeReversals.StepsShrink | vleo.py:365-388 | above 1622 km every kilometre takes between 0.996274 and 0.996347 times the one above it |
| StationKeeping.NetDragIsRemainder | vleo.py:768-781 | at fraction k the net drag is (1 - k) times the drag |
| StationKeeping.FullCompensationIsTwoBody | vleo.py:852-873 | at full compensation every trajectory is the two-body one |
| StationKeeping.FullCompensationIgnoresBallistics | vleo.py:852-873 | and does not depend on the ballistic coefficient |
| StationKeeping.RunStaysEquatorial | vleo.py:784-801 | every reachable state of an equatorial start stays in the equatorial plane |
| StationKeeping.ImpulseMeans | vleo.py:860-861 | the delta-v of a step is the length of the held acceleration times the step |
| StationKeeping.DeltaVIsFractionOfDrag | vleo.py:857-861 | the delta-v spent is the compensated fraction of the drag's impulse along the same run |
| StationKeeping.SimulatedHorizon | vleo.py:829-843 | the simulated time misses the horizon by less than a minute, or is one minute a sample, or beyond 200000 steps and samples the samples' share of 200000 |
| StationKeeping.SimulateContinuousManeuver | vleo.py:804-873 | the loop ends in the state and with the delta-v of the run from the circular equatorial start |
| StationKeeping.StepFromAccelerations | vleo.py:852-873 | the same closed form of a step for the station-keeping integrator, with the held drag and thrust |
| StationKeeping.GravityIsCentral | vleo.py:187-206 | gravity points at the centre with magnitude MU / r^2 |
| StationKeeping.AirspeedIsRelative | vleo.py:163-167 | the airspeed is that over an atmosphere turning with the Earth |
| StationKeeping.DragOpposesAirspeed | vleo.py:145-184 | up to 1000 km drag opposes the airspeed with magnitude rho v^2 / (2 bc), elsewhere there is none |
| StationKeeping.StartIsCircular | vleo.py:825-827 | the starting speed makes gravity the centripetal acceleration of a circle |
| StationKeeping.AltitudeMeans | vleo.py:152-153 | distances are in metres, altitudes in kilometres above the equatorial radius |
| StationKeeping.NoGravityAtCentre | vleo.py:200-203 | within a millimetre of the centre there is no pull |
| DebrisMetrics.DedupKeepsLatest | rank_debris.py:208-216 | with fetch times present the record kept for an id is its latest, and every id is kept |
| DebrisMetrics.DedupIgnoresOrder | rank_debris.py:208-216 | with distinct fetch times the kept records do not depend on the input order |
| DebrisMetrics.BookFacts | rank_debris.py:229-255 | an object's row is the fold of exactly its own incidences |
| DebrisMetrics.CountsAddUp | rank_debris.py:229-245 | the counts add up to the debris incidences of the de-duplicated CDMs |
| DebrisMetrics.PcBounds | rank_debris.py:248-250 | max Pc <= cumulative Pc <= count * max Pc |
| DebrisMetrics.MaxIsAttained | rank_debris.py:248-249 | the maximum bounds every Pc of the object and is one of them |
| DebrisMetrics.MetricsIgnoreOrder | rank_debris.py:197-255 | with distinct fetch times no metric but the name depends on the input order |
| DebrisMetrics.NewCdmLowersNothing | rank_debris.py:208-255 | one more CDM with a new id lowers no metric |
| DebrisMetrics.IncidencesExactly | rank_debris.py:229-250 | a CDM counts once for each of its objects that is debris with a known number, against the other if that one is known |
| DebrisMetrics.NamedByLast | rank_debris.py:243 | an object goes by the name in its last CDM |
| DebrisMetrics.SumsCharacterised | rank_debris.py:244-250 | count, counterparties and cumulative probability are determined by what occurs |
| DebrisMetrics.DedupKeepsFirst | rank_debris.py:208-216 | of records with equal or missing fetch times the first is kept |
| DebrisRanking.PriorityFacts | rank_debris.py:117-188 | every priority lies in 0..100 and never falls when the metrics grow |
| DebrisRanking.NewCdmNeverLowersPriority | rank_debris.py:117-266 | one more CDM with a new id never lowers a priority while the name keeps its kind |
| DebrisRanking.ComputeRankings | rank_debris.py:197-293 | the loops compute the sorted entries of the book and their two band lists |
| DebrisRanking.OneEntryPerObject | rank_debris.py:260-282 | one entry per debris object, with that object's metrics |
| DebrisRanking.BandsAreSublists | rank_debris.py:287-292 | the band lists are ordered and hold exactly the entries of their band |
| DebrisRanking.AllIsSorted | rank_debris.py:284-285 | the whole list is ordered by priority and is a permutation of the entries |
| DebrisRanking.TermsWeigh | rank_debris.py:180-188 | the difference between two scores is 28, 24, 22, 16 and 10 points times the differences of the five terms |
| DebrisRanking.PersistenceByAltitude | rank_debris.py:157-168 | the persistence of each range of altitudes, from which the order of two objects follows |
| DebrisRanking.MassByName | rank_debris.py:171-177 | rocket bodies weigh most, then intact objects, then fragments, whatever the case of the name |
| DebrisRanking.ContainsExactly | rank_debris.py:171-175 | the mark is looked for anywhere in the name |
| DebrisRanking.ShareSaturates | rank_debris.py:136-141 | frequency and spread grow with the logarithm and are full from the saturation point on |
| DebrisRanking.SeverityMeans | rank_debris.py:145-151 | seven tenths peak probability between 1e-6 and 1 on a logarithmic scale, three tenths cumulative up to a half |
| DebrisRanking.BandListsByAltitude | rank_debris.py:65-73 | the lower list holds exactly the altitudes from 500 to 600 km, the middle one those from 1000 to 1200 km |

## Left out

- HTTP handlers, SMTP, SQL text and the clients of Space-Track, CelesTrak, DISCOS and EU SST: a table is a map, a mail an appended event, an answer an argument.
- Floating point: rounding of the arithmetic, overflow other than in the collision probability, NaN, and the float bisection's last bits; decimal rounding for display is an arbitrary, where needed monotone, function or is left off.
- The numeric bounds on the exponential and the power law under which the reversals of `LifetimeReversals` are shown: they are hypotheses, the square root and the sums are computed.
- The formulas of the collision probability, of the Pc integral over the encounter plane, of NRLMSIS density and of machine-learned risk; SGP4, Kepler's equation and TLE parsing.
- Alerts: an unreachable alert table (which lets every alert through), a mail session that fails after handing over, non-ASCII digits in catalogue numbers.
- Health rows: the last attempt, the last error, the time of the last mail, and an exception in the lookup.
- The breaker across a restart of the process, which closes it; races between threads on module-level state.
- EU SST: tokens, dry runs, `--limit`, null update dates, a database session outside UTC, listings longer than memory.
- Archive download: a catalogue that changes between runs and so regroups the objects, waits between requests, the retry that bypasses the throttle, parsing of epochs and numbers (given as record fields).
- The repeated attempts of one page in the DISCOS sync, which bypass its throttle.
- Batch results: orbit samples, positions at closest approach and preformatted strings; screening results: catalogue altitude.
- Ranking of maneuvers: the post-maneuver state and the altitude pre-filter of the catalogue; the outcome of screening is a function of the candidate.
- Station-keeping: the altitude profile, average thrust, policy notes and density tag; fragment counts of the breakup model.
- Debris ranking: the name pattern (any predicate), stripping and non-ASCII upper-casing of names, loading and writing of tables.
- Tier maps, risk labels, field-copy mappers and report scripts: tables and simple classifiers only.
