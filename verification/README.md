# Upstream scheduling and queueing of docsis-ns3, modelled and proved in Dafny

docsis-ns3 simulates a DOCSIS link: a cable modem (CM) that asks for upstream capacity and a termination
system (CMTS) whose scheduler grants it, one MAP message per MAP interval. This project models the
request/grant loop between the two, and the two queueing algorithms of the modem that make promises over
whole runs: queue protection (Annex P of CM-SP-MULPIv3.1) and the coupled dual queue with its
virtual-queue delay estimator (Annex O). Four questions are answered.

1. **What does one MAP interval do?** `Allocation` divides the minislots, `GrantPlacement` places them around
   the guaranteed (PGS) grants, `MapMessages` prints and parses the information elements, `PgsTiming` says
   when guaranteed grants are due, `PgsGrids` whether they fit their MAPs, and `UpstreamSchedulers` is the
   scheduler object that puts these together with the token buckets and the request backlog.
2. **What does it promise over a run?** `SchedulerRuns` (rate conformance, guaranteed service),
   `SchedulerStops` (exactly when the scheduler stops), `BacklogRuns` (which flow is granted what, and how fast a
   backlog drains), `FundedRuns` (tokens come in, and the rate is delivered) and `RequestGrantProtocol` (no request
   is lost or forgotten, with requests and MAPs in flight in any order).
3. **What does the modem do with its grants?** `CmPipelines`, `CableModemFlows` (staging, sending,
   fragmenting, requesting, with every packet in exactly one place and in arrival order), `RateShapers` (what
   may be requested), `FrameSplit` (grants to frames), `MapDelivery` (from the scheduler's MAP to the modem's
   frames), `GrantCalendars` (the jobs that MAPs schedule find what they need whenever they run), `MapDrain`
   (bytes promised to a MAP leave in that MAP, however the events interleave) and `ModemRuns` (both together:
   every report on the use of a MAP is right). `ClosedLoops` runs scheduler and modem against each other: what the
   modem sends keeps to the rate, and every byte granted is sent or refunded.
4. **What do the queues promise?** `QueueProtections` and `FlowIsolation` (one flow cannot raise the score of
   another), `DrrSelector` (bounded unfairness over runs of any length), `VirtualQueues` (the estimate
   against a fluid queue) and `DerandomisedCounters` (marks and drops against probabilities).

Code that works step by step is imperative here: objects are classes, loops have invariants, and each method
is tied to a specification function on values. The lemmas are about those functions, single steps first and
then arbitrary runs. `DocsisTypes` and `GrantLists` hold shared entities; a `std::map` of grants keyed by offset
is a sequence in key order, with an `Insert` that, like `std::map::insert`, does not overwrite.

## Where the code and its own assertions or comments disagree

- The strict assertion at `model/cmts-upstream-scheduler.cc:1018` is false for some inputs.
  `LowLatencyLimitedAssertFails` gives the exact condition, `LowLatencyLimitedAssertFailsOn1` an input. The
  division that is returned is still the fair one. The assertions at lines 989 and 1009 hold.
- A MAP interval without a single free minislot passes over a guaranteed grant that is due in it
  (`model/cmts-upstream-scheduler.cc:343`), and the next interval with a free minislot then fails the negative-offset
  assertion at line 376. `StopsOnStarvedMap` and `StarvedMapStopsTheScheduler` are two MAPs that do so;
  `StopsIffLeftBehind` and, for the whole scheduler, `SchedulerStopsIffLeftBehind` say exactly which runs fail, and
  `ServedIffNeverStarved` for which the guarantee is met.
- The fatal rate error at `model/cmts-upstream-scheduler.cc:930-936` is reachable, because a MAP grants the burst rounded
  up to whole minislots. `RateErrorFromStart` is a run from the start that ends in it; `RateErrorIff` says for one MAP, and
  `NoMapIsRefusedIff` for the configuration, exactly when it can come up.
- The assertions on grants rely on guaranteed grants that end inside their MAP, which `Start` does not check: a size
  beyond the frame can reach across the MAP's end (`LongGrantCrosses`). `NeverCrossesIff` says exactly with which settings
  no grant of a run does so. A crossing grant wraps the unsigned `space` at lines 1068 and 1074 around, so that all of the
  low-latency demand is appended to it (`CrossingGrantTakesAll`), and the modem then indexes past its last frame
  (`CrossingGrantOverruns`).
- If free minislots do not exceed the PGS size, due grants are planned with length 0 and are never
  sent (`CongestionEmptiesGrants`), although the comment at lines 363-365 says that congestion does not constrain PGS.
- The comment above `AlignVq` says that it drains the virtual queue. It does not: the next query does.
- Early drops and queue protection follow the code in every branch, including the order in which the drop
  accumulator grows before the exits that exempt short delays and short queues.

## Model

| member | source | states |
|---|---|---|
| DocsisTypes.Channel.MinislotCeilIsLeast | model/cmts-upstream-scheduler.cc:711-722 | The rounded-up minislots are the fewest that hold the bytes, and waste less than one minislot |
| DocsisTypes.BytesAtRateIsMost | model/cmts-upstream-scheduler.cc:866-873 | The bytes that a rate gives in a time are the most whole bytes of eight bits, at a thousand million nanoseconds a second |
| Allocation.ShareWithinBudget | model/cmts-upstream-scheduler.cc:978-993 | The assertion at line 989 holds: the weighted share is below the budget, so the classic share never wraps around |
| Allocation.SplitIsTheWeightedMaxMin | model/cmts-upstream-scheduler.cc:940-1026 | The division is the one and only weighted max-min division: all of the budget is used, nobody exceeds its demand, PGS is honoured, and a flow exceeds its share only if the other is satisfied |
| Allocation.AllocateGuarantees | model/cmts-upstream-scheduler.cc:940-1026 | Hands out exactly max(min(available, requested), pgs), at least pgs to low latency, to each flow at least the lesser of its demand and its weighted share |
| Allocation.WhoIsServed | model/cmts-upstream-scheduler.cc:940-1026 | Exactly when a flow gets something: classic, if it asks and supply exceeds PGS; low latency beyond PGS, if it asks for more and its weighted share, or what classic leaves, exceeds PGS |
| Allocation.LowLatencyIsServed | model/cmts-upstream-scheduler.cc:984-1021 | Supply for a whole low-latency minislot by weight serves low latency, whatever classic asks for |
| Allocation.ClassicLimitedAssertHolds | model/cmts-upstream-scheduler.cc:1005-1012 | The strict assertion of the classic-limited branch is never violated |
| Allocation.LowLatencyLimitedAssertFails | model/cmts-upstream-scheduler.cc:1014-1021 | The strict assertion of the low-latency-limited branch is violated if and only if there is no PGS, low latency has a demand, the classic demand is all that is available, and the weighted share rounds to zero |
| Allocation.LowLatencyLimitedAssertFailsOn1 | model/cmts-upstream-scheduler.cc:1014-1021 | Called with one free minislot, no PGS, one token and a byte for each flow, Allocate violates it, and still returns the fair division |
| GrantLists.InsertIsMapInsert | model/cmts-upstream-scheduler.cc:1143 | Insertion adds an entry for a new key only, and never replaces one |
| GrantLists.PlacedIsDisjoint | model/cmts-upstream-scheduler.cc:448-454 | What a well-formed grant list is: non-empty grants inside the interval, pairwise disjoint |
| GrantPlacement.ExtendedKeepsOrder | model/cmts-upstream-scheduler.cc:1056-1106 | Appending to PGS grants keeps them disjoint and inside the MAP, accounts for every extra minislot, and leaves some over only if every minislot from the first PGS grant on is taken |
| GrantPlacement.ExtendedIsEarliest | model/cmts-upstream-scheduler.cc:1056-1106 | Extra minislots go behind the first PGS grants: while there is room behind one, the later ones are not extended |
| GrantPlacement.ExtendedSurvives | model/cmts-upstream-scheduler.cc:1056-1106 | Every PGS grant keeps its offset and at least its length |
| GrantPlacement.AppendToPgs | model/cmts-upstream-scheduler.cc:1056-1106 | The loop over the PGS grants computes the extension and what is left over, with the space behind a grant in unsigned 32-bit arithmetic |
| GrantPlacement.CrossingGrantTakesAll | model/cmts-upstream-scheduler.cc:1062-1091 | A PGS grant that reaches across the end of the MAP, or into the next grant, is given all the extra minislots, and nothing is left over |
| GrantPlacement.FilledPlaces | model/cmts-upstream-scheduler.cc:1107-1234 | Filling fails if and only if the need exceeds the free minislots; the result is disjoint and inside the MAP |
| GrantPlacement.FilledAdds | model/cmts-upstream-scheduler.cc:1107-1234 | Exactly the needed minislots are added, to the right flow, and no grant is lost or changed |
| GrantPlacement.FilledIsEarliestFit | model/cmts-upstream-scheduler.cc:1107-1234 | New grants take the lowest free minislots |
| GrantPlacement.FillGaps | model/cmts-upstream-scheduler.cc:1107-1234 | The loops with an iterator into a container that they insert into compute the filling, also where a gap has length 0 and the insertion does nothing |
| GrantPlacement.ScheduleGrant | model/cmts-upstream-scheduler.cc:1028-1277 | The whole method computes the placement that the two lemmas below are about |
| GrantPlacement.ScheduledServes | model/cmts-upstream-scheduler.cc:1040-1235 | With PGS: aborts if and only if the demand exceeds the MAP; otherwise disjoint grants inside the MAP with exactly c classic and max(l, pgs) low-latency minislots, every PGS grant kept and extended first, then low latency and then classic in the lowest minislots left free |
| GrantPlacement.BackToBackServes | model/cmts-upstream-scheduler.cc:1236-1272 | Without PGS: the same for any start the random draw can give |
| GrantPlacement.BackToBackIsLlFirst | model/cmts-upstream-scheduler.cc:1236-1272 | Low latency has the minislots from the start on, classic those right behind it, and nobody any other |
| UpstreamSchedulers.StartIsAny | model/cmts-upstream-scheduler.cc:1240-1249 | The start is any minislot that leaves room for both grants |
| MapMessages.BuildMapMessage | model/cmts-upstream-scheduler.cc:541-616 | Prints a grant list, and stops if and only if grants overlap |
| MapMessages.ParseMap | model/cm-net-device.cc:674-710 | The parse loop computes the grants of each flow |
| MapMessages.ParsedIffDelimited | model/cm-net-device.cc:674-710 | A message is readable if and only if each grant element is followed by one that starts no earlier |
| MapMessages.ParsePrintRoundTrip | model/cm-net-device.cc:674-710 | Parsing what was printed gives back the grants, per flow and in order |
| MapMessages.PrintedAscends | model/cmts-upstream-scheduler.cc:541-616 | No printed element is empty: each one starts behind the one before, the first at 0, and the last one marks the end of the grants |
| MapMessages.BytesSurviveTheMap | model/cmts-upstream-scheduler.cc:456-471 | Per flow, the modem finds exactly the minislots that the scheduler charges |
| PgsTiming.GuaranteedRateIsMet | model/cmts-upstream-scheduler.cc:222-268 | PGS grants are whole frames apart, and one holds what the guaranteed rate, scaled for MAC headers, gives until the next, in the fewest minislots |
| PgsTiming.NoPgsIff | model/cmts-upstream-scheduler.cc:239-255 | Start-up stops if and only if the interval is shorter than a frame, or the scaled rate is less than a byte a second |
| PgsTiming.FramedRateCoversHeaders | model/cmts-upstream-scheduler.cc:223-231 | The scaled rate is the guaranteed one times mean packet size with MAC header over mean packet size, rounded down |
| PgsTiming.IntervalInWholeFrames | model/cmts-upstream-scheduler.cc:232-243 | The frames between two grants are as many as fit the configured interval, or the MAP interval if none is configured |
| PgsTiming.DueTimesAreArithmetic | model/cmts-upstream-scheduler.cc:342-345 | The times of the PGS loop are last + I, last + 2I, ... up to the end of the MAP |
| PgsTiming.DueTimesConcat | model/cmts-upstream-scheduler.cc:342-348 | Looking one MAP ahead at a time finds the times of the whole run, none skipped or repeated |
| PgsTiming.GrantsAtWellFormed | model/cmts-upstream-scheduler.cc:342-375 | PGS grants of a MAP are disjoint and inside the MAP if and only if they are no longer than the interval (when there are several) and the last one due ends inside the MAP |
| PgsTiming.GrantsAtSum | model/cmts-upstream-scheduler.cc:349-354 | They add up to what is counted as PGS minislots |
| PgsTiming.CongestionEmptiesGrants | model/cmts-upstream-scheduler.cc:340-378 | One grant for each due time, of the full size if there are more free minislots than that, else empty; without a free minislot none, and the due times are kept |
| PgsTiming.LongGrantCrosses | model/cmts-upstream-scheduler.cc:215-287 | A size beyond the frame, due in the last frame, reaches across the end of the MAP |
| PgsGrids.OneFrameNeverCrosses | model/cmts-upstream-scheduler.cc:269-284 | Grants of at most a frame, at frame starts, never do |
| PgsGrids.GridIsKept | model/cmts-upstream-scheduler.cc:342-378 | Grants that recur at one place of a grid which divides interval and MAP are well formed in every MAP of the run |
| PgsGrids.NeverCrossesIff | model/cmts-upstream-scheduler.cc:342-378 | Every MAP of a run that is not starved has its PGS grants disjoint and inside the MAP if and only if their place modulo the greatest common divisor of interval and MAP leaves room for their size |
| PgsTiming.ServedIffNeverStarved | model/cmts-upstream-scheduler.cc:328-380 | Over a run, the grant times are exactly those due if and only if every MAP with a grant due has more free minislots than its size |
| PgsTiming.BehindServesNothing | model/cmts-upstream-scheduler.cc:375-376 | Once a due time is left behind, nothing is served any more |
| PgsTiming.BehindFails | model/cmts-upstream-scheduler.cc:375-376 | Once a due time is left behind, the run fails if and only if a later MAP has a free minislot |
| PgsTiming.StopsIffLeftBehind | model/cmts-upstream-scheduler.cc:342-376 | Over a run, the negative-offset assertion fails if and only if a MAP with a grant due has no free minislot and a later MAP has one |
| PgsTiming.StopsOnStarvedMap | model/cmts-upstream-scheduler.cc:375-376 | Two MAPs, with 0 and 1 free minislots, in which it fails |
| UpstreamSchedulers.UpstreamScheduler.constructor | model/cmts-upstream-scheduler.cc:215-287 | Accepts any PGS size: the first PGS grant falls into the first MAP, at the configured frame, buckets and clocks start as provisioned, and the invariant holds from here on if and only if no PGS grant will ever cross the end of its MAP |
| UpstreamSchedulers.UpstreamScheduler.ReceiveRequest | model/cmts-upstream-scheduler.cc:173-194 | A request adds to the backlog of its flow and no other |
| UpstreamSchedulers.UpstreamScheduler.ReceiveUnusedGrantUpdate | model/cmts-upstream-scheduler.cc:196-213 | Unused bytes go back to the sustained-rate bucket |
| UpstreamSchedulers.UpstreamScheduler.LayOutPgsGrants | model/cmts-upstream-scheduler.cc:328-380 | The PGS loop computes the plan, and stops on a negative offset |
| UpstreamSchedulers.UpstreamScheduler.IncrementTokenBucketCounters | model/cmts-upstream-scheduler.cc:834-886 | Both buckets gain the whole bytes that their rates give in the time since the last increment, a whole MAP interval the first time, up to their burst sizes; what that gives over runs is in FundedRuns |
| UpstreamSchedulers.UpstreamScheduler.DecrementTokenBucketCounters | model/cmts-upstream-scheduler.cc:888-938 | Both buckets are charged and stop at zero; the fatal error is exactly a grant beyond what the sustained rate gives since the last drain plus the burst, and never on the first drain |
| UpstreamSchedulers.UpstreamScheduler.AllocateBestEffort | model/cmts-upstream-scheduler.cc:397-446 | Backlogs are served, with bytes that exceed the lesser bucket by less than a minislot or are no more than the PGS grants |
| UpstreamSchedulers.UpstreamScheduler.DecrementBacklog | model/cmts-upstream-scheduler.cc:471-503 | A backlog falls by the granted bytes, but not below zero |
| UpstreamSchedulers.UpstreamScheduler.ChargeGrants | model/cmts-upstream-scheduler.cc:456-503 | A schedule is charged to the buckets and to both backlogs |
| UpstreamSchedulers.DrainIsRecorded | model/cmts-upstream-scheduler.cc:453-471 | A MAP records the time of its increment, and that of a drain exactly if something is scheduled or a PGS grant was due |
| UpstreamSchedulers.UpstreamScheduler.SendMap | model/cmts-upstream-scheduler.cc:513-538 | The MAP is printed with the start time and acknowledgement time of this interval, and the next interval starts where this one ends |
| UpstreamSchedulers.UpstreamScheduler.GenerateMap | model/cmts-upstream-scheduler.cc:300-539 | One interval of the object is one step of the state machine, and keeps the object valid |
| UpstreamSchedulers.PlanIsWellFormed | model/cmts-upstream-scheduler.cc:328-380 | In every reachable state the PGS plan is a legal input of the placement, and stays so for the next MAP |
| UpstreamSchedulers.AllocatedFits | model/cmts-upstream-scheduler.cc:397-446 | The allocation plus PGS fits the MAP |
| UpstreamSchedulers.AllocatedWithinTokens | model/cmts-upstream-scheduler.cc:397-446 | It exceeds the lesser bucket by less than a minislot, or is no more than the PGS grants |
| UpstreamSchedulers.MapStepGuarantees | model/cmts-upstream-scheduler.cc:300-539 | From any valid state, the placement aborts and the overlap error are unreachable; grants are disjoint, keep PGS, are read back by the modem as charged, and reduce each backlog by their bytes |
| UpstreamSchedulers.NegativeOffsetIffLeftBehind | model/cmts-upstream-scheduler.cc:375-376 | The negative-offset assertion fails if and only if a due grant lies before the MAP and there is a free minislot |
| UpstreamSchedulers.RateIsNotExceeded | model/cmts-upstream-scheduler.cc:926-936 | With or without PGS, the fatal rate error cannot happen if a minislot less one byte of tokens arrives between drains and the PGS grants alone are within the rate |
| UpstreamSchedulers.MostWithinRate | model/cmts-upstream-scheduler.cc:926-936 | A MAP whose PGS plan exists is generated, whatever tokens and backlogs there are, if the rate since the last drain and the burst cover the most minislots that it can grant |
| UpstreamSchedulers.RateErrorIff | model/cmts-upstream-scheduler.cc:926-936 | For a MAP and the time since the last drain, some tokens and backlogs lead to the fatal rate error if and only if the most that the MAP can grant exceeds that rate and the burst |
| UpstreamSchedulers.StarvedMapStopsTheScheduler | model/cmts-upstream-scheduler.cc:300-376 | Two MAPs of the whole scheduler, with 0 and 1 free minislots: the first is generated, the second fails on a negative offset |
| SchedulerRuns.TokensPayForTheMap | model/cmts-upstream-scheduler.cc:397-471 | A MAP costs both buckets what it grants, less an overshoot of one minislot or its PGS grants |
| SchedulerRuns.RateConformance | model/cmts-upstream-scheduler.cc:834-938 | Over any run, granted less refunded bytes stay within initial tokens, increments and overshoot, for both buckets, and the sustained-rate bucket never goes negative |
| SchedulerRuns.RateConformanceWithoutPgs | model/cmts-upstream-scheduler.cc:834-938 | Without PGS the overshoot is n times (capacity - 1) after n MAPs |
| SchedulerRuns.TokensWithinRate | model/cmts-upstream-scheduler.cc:834-886 | All increments of a run together are at most the rate times the time they are for, however often they are rounded down |
| SchedulerRuns.ElapsedIsTime | model/cmts-upstream-scheduler.cc:856-865 | That time is at most the time that passes, and a MAP interval for each MAP generated before an increment was recorded; it is exactly the time that passes once one was recorded |
| SchedulerRuns.UnrecordedOnce | model/cmts-upstream-scheduler.cc:856-865 | After time 0 there is at most one such MAP, the first one of a start at time 0 |
| SchedulerRuns.RateConformanceOverTime | model/cmts-upstream-scheduler.cc:834-938 | From any start, also one at time 0: granted less refunded bytes are at most the tokens at the start, the sustained rate times the time that passed, and a minislot less one byte per MAP; granted bytes likewise with the peak rate; a start at time 0 counts a MAP interval more |
| SchedulerRuns.GuaranteedService | model/cmts-upstream-scheduler.cc:300-539 | From any start that the constructor gives: if free minislots always exceed the PGS size, each of first, first + I, first + 2I, ... is granted at that minislot, with at least its size, in the MAP that contains it, whatever requests arrive |
| SchedulerStops.PacedMapConforms | model/cmts-upstream-scheduler.cc:926-936 | With a rate and burst that cover the most that a MAP can grant, no MAP is refused that comes an interval after the last drain, or before any drain |
| SchedulerStops.NoMapIsRefusedIff | model/cmts-upstream-scheduler.cc:926-936 | Without PGS: no MAP an interval after the last one is refused, in any state, if and only if the rate per interval and the burst cover the smaller burst size rounded up to minislots, or, if less, a full MAP |
| SchedulerStops.RateErrorFromStart | model/cmts-upstream-scheduler.cc:926-936 | Two MAPs from the start of a scheduler, an interval apart and with unused bytes reported in between, of which the second ends in the fatal rate error |
| SchedulerStops.SchedulerStopsIffLeftBehind | model/cmts-upstream-scheduler.cc:300-539 | With such a rate and MAPs an interval apart, the first one at any time: the scheduler runs for ever without PGS; with PGS it stops, on a negative offset, if and only if a MAP with a grant due has no free minislot and a later MAP has one |
| SchedulerStops.GuaranteeIsKept | model/cmts-upstream-scheduler.cc:300-539 | If free minislots also always exceed the PGS size, every MAP of the run is generated and every due time is granted in the MAP that contains it |
| BacklogRuns.WhoIsGranted | model/cmts-upstream-scheduler.cc:397-446 | Exactly when a MAP has minislots for classic, and for low latency beyond its PGS grants |
| BacklogRuns.BacklogFalls | model/cmts-upstream-scheduler.cc:471-503 | A MAP with something for a flow grants it something if it has a backlog, and takes a minislot's bytes off |
| BacklogRuns.BacklogDrains | model/cmts-upstream-scheduler.cc:471-503 | n such MAPs take n minislots' bytes off a backlog, whatever the other flow asks for meanwhile |
| FundedRuns.TokensComeIn | model/cmts-upstream-scheduler.cc:834-938 | Tokens are not lost: over any run with MAPs at least an interval apart, what is left in a bucket and what was granted are at least what was there and n times the whole bytes of the rate per interval, or else the burst; for both buckets |
| FundedRuns.IdleMapsFillTheBuckets | model/cmts-upstream-scheduler.cc:834-886 | While nothing is granted, n MAPs exactly an interval apart raise either bucket by exactly n times the whole bytes per interval, up to its burst |
| FundedRuns.PacedRunIsFunded | model/cmts-upstream-scheduler.cc:397-446 | The configuration decides: with MAPs at least an interval apart, rates and bursts that give enough tokens per interval, and free minislots, every MAP has something for the flow |
| FundedRuns.PacedBacklogDrains | model/cmts-upstream-scheduler.cc:397-503 | Then n MAPs take n minislots' bytes off the flow's backlog, whatever the other flow asks for |
| FundedRuns.NothingStopsWithoutPgs | model/cmts-upstream-scheduler.cc:926-936 | Without PGS and with a rate that is never exceeded, all MAPs of such a run are generated |
| FundedRuns.RateIsDelivered | model/cmts-upstream-scheduler.cc:397-503 | The rate is delivered: while both backlogs together and the free minislots could take them, every MAP grants at least the tokens of an interval, the lesser of both rates' and both bursts |
| CmPipelines.RemovedTakesFromTheFront | model/cm-net-device.cc:156-178 | Removing takes exactly the bytes asked for, earliest deadlines first |
| CmPipelines.CmPipeline.GetEligible | model/cm-net-device.cc:93-105 | The bytes whose time has come |
| CmPipelines.CmPipeline.GetTotal | model/cm-net-device.cc:113-122 | All bytes in the pipeline |
| CmPipelines.CmPipeline.Add | model/cm-net-device.cc:130-135 | Appends one item |
| CmPipelines.CmPipeline.Pop | model/cm-net-device.cc:146-153 | Takes the first item |
| CmPipelines.CmPipeline.Remove | model/cm-net-device.cc:156-178 | The trimming loop removes bytes from the front; the accounting error is exactly that there are too few |
| CmPipelines.CmPipeline.Clear | model/cm-net-device.cc:180-185 | Empties the pipeline |
| CableModemFlows.StagedIsLeast | model/cm-net-device.cc:1424-1452 | Staging stops at the end of the queue or as soon as the burst is covered, not one packet later |
| CableModemFlows.FramedIsPadded | model/docsis-queue-disc-item.cc:116-123 | A packet is padded to 64 bytes on the wire, and has 18 bytes besides its payload otherwise, and the MAC header |
| CableModemFlows.CableModemFlow.constructor | model/cm-net-device.h:466-486 | An empty device is consistent |
| CableModemFlows.CableModemFlow.ScheduleGrants | model/cm-net-device.cc:783-817 | Non-empty grants enter the grant pipeline with the time of their first frame, and their bytes are counted |
| CableModemFlows.CableModemFlow.Admit | model/cm-net-device.cc:578-585 | An admitted packet is behind all earlier ones |
| CableModemFlows.CableModemFlow.StageFor | model/cm-net-device.cc:1421-1452 | The staging loop moves the least number of packets and loses no byte |
| CableModemFlows.CableModemFlow.PrepareBurst | model/cm-net-device.cc:1392-1474 | A burst is promised exactly min(grant, unpromised bytes), and the transmit pipeline never exceeds the device bytes |
| CableModemFlows.CableModemFlow.SendFrame | model/cm-net-device.cc:1666-1750 | Exactly min(minislots times capacity, eligible) bytes leave device and pipeline, the rest is unused, packets stay in order, and no accounting error comes up |
| CableModemFlows.CableModemFlow.SendFragment | model/cm-net-device.cc:1678-1703 | The fragment in progress is finished, or takes all the bytes |
| CableModemFlows.CableModemFlow.SendStaged | model/cm-net-device.cc:1718-1747 | Staged packets use up all bytes, the last packet possibly in part |
| CableModemFlows.CableModemFlow.FinishFragment | model/cm-net-device.cc:1553-1598 | The fragmented packet is handed over once and whole |
| CableModemFlows.CableModemFlow.SendOut | model/cm-net-device.cc:1056-1156 | A packet goes whole if it fits and becomes the fragment otherwise |
| CableModemFlows.CableModemFlow.LoadMapState | model/cm-net-device.cc:1845-1858 | The bytes of a MAP become current when it starts |
| CableModemFlows.CableModemFlow.DumpGrant | model/cm-net-device.cc:1861-1896 | Used plus unused is what was granted |
| CableModemFlows.CableModemFlow.MakeRequest | model/cm-net-device.cc:1971-2055 | A request is made if and only if the bytes in device and queue exceed those requested and those of the next grant; it is for the difference, as the rate shaper cuts it down; unshaped, every queued byte is covered afterwards |
| CableModemFlows.CableModemFlow.HandleGrants | model/cm-net-device.cc:721-736 | Granted bytes answer outstanding requests, oldest first, down to none |
| RateShapers.RateShaper.constructor | model/cm-net-device.cc:1898-1910 | The bucket starts with the configured burst and no peak tokens |
| RateShapers.RateShaper.UpdateTokenBucket | model/cm-net-device.cc:1912-1943 | Sustained-rate tokens accumulate up to the burst, 3044 bytes by default; peak-rate tokens are those of the last interval only |
| RateShapers.RateShaper.ShapeRequest | model/cm-net-device.cc:1945-1965 | A request is cut down to the tokens, which it takes |
| RateShapers.RequestsWithinRate | model/cm-net-device.cc:1912-1965 | Over any run, requested bytes and the tokens left are at most the first tokens and the sustained rate times the time |
| RateShapers.TokensAreKept | model/cm-net-device.cc:1912-1965 | Over any run of requests at least a gap apart, the bytes requested and the tokens left are at least the first tokens and n times the whole bytes of the rate per gap, or else the burst |
| RateShapers.ModestRequestsAreNotCut | model/cm-net-device.cc:1945-1965 | Requests of no more than both rates give in the gap, and the burst, are never cut down |
| RateShapers.RequestWithinPeak | model/cm-net-device.cc:1945-1965 | No request exceeds the burst, or what the peak rate gives since the one before |
| FrameSplit.OverlapIsDifference | model/cm-net-device.cc:817-871 | A grant's minislots in a frame are those above its start less those above its end |
| FrameSplit.SpreadFromStart | model/cm-net-device.cc:817-871 | The per-frame portions add to each frame exactly the intersection of grant and frame |
| FrameSplit.AddGrant | model/cm-net-device.cc:817-871 | The loop over the frames of a grant does that, and indexes past the last frame if and only if the grant ends behind the MAP |
| FrameSplit.SplitOverFrames | model/cm-net-device.cc:769-881 | For any grants: each frame gets the intersections with all grants, unless one is not inside the MAP; the first such grant aborts if it starts behind the MAP, and indexes past the last frame otherwise |
| FrameSplit.FitsIffInside | model/cm-net-device.cc:817-871 | The split succeeds if and only if every grant starts and ends inside the MAP |
| FrameSplit.ShareFitsFrame | model/cm-net-device.cc:1838-1843 | Disjoint grants never exceed the minislots of a frame |
| FrameSplit.SharesConserve | model/cm-net-device.cc:769-881 | The frames together get every granted minislot |
| MapDelivery.MapFitsTheFrames | model/cm-net-device.cc:648-881 | Every MAP that the scheduler sends can be split: no abort, both flows together fit each frame, and a flow's frames add up to what was charged |
| MapDelivery.CrossingGrantOverruns | model/cm-net-device.cc:817-871 | A grant that reaches across the end of the MAP is printed, read back, and makes its flow index past the last frame |
| GrantCalendars.ScheduleLast | model/cm-net-device.cc:822-837 | A job scheduled behind all of its kind is the last of them, and leaves the other kinds alone |
| GrantCalendars.BurstsOfMap | model/cm-net-device.cc:783-852 | A MAP schedules one burst for each item that it adds to the grant pipeline, in the same order |
| GrantCalendars.SendsOfMap | model/cm-net-device.cc:882-907 | Its frames are in order, before the end of the MAP, and reported before the next MAP can be loaded |
| GrantCalendars.CalendarOfMap | model/cm-net-device.cc:769-908 | The bursts and frames of a MAP come behind those of the MAPs before, and no burst behind its frame |
| GrantCalendars.NextIsProper | model/cm-net-device.cc:1416-1423 | In every reachable state the next job meets its assertions, which are the requires of PrepareBurst and MakeRequest: a burst finds its own grant, of its size and time, at the front of the grant pipeline; a request finds no overdue grant there |
| GrantCalendars.StepKeepsInv | model/cm-net-device.cc:769-908 | MAP arrivals, requests at any time and jobs keep the calendar and the grant pipeline in step |
| GrantCalendars.EveryJobIsProper | model/cm-net-device.cc:1980-1985 | Over any run these assertions and the aborts on the grant pipeline are unreachable, frames come after the bursts of the grants that have started, and a MAP is loaded only after the one before was reported |
| MapDrain.ExecKeepsInv | model/cm-net-device.cc:872-908 | Over any interleaving of preparation and frames, each promised byte was used or is eligible, and is covered by minislots to come |
| MapDrain.AtBoundary | model/cm-net-device.cc:1861-1896 | At a MAP boundary used is promised, and used plus unused is granted |
| MapDrain.PreparedBytesLeave | model/cm-net-device.cc:1861-1896 | No eligible byte is left in the transmit pipeline at a MAP boundary, whatever the interleaving |
| MapDrain.MapReport | model/cm-net-device.cc:1861-1896 | The report of an interval: used is what its bursts were promised, and used plus unused is what it granted |
| MapDrain.ShareOfShifted | model/cm-net-device.cc:769-881 | The allocation per frame of one MAP is that of the corresponding frames of the run |
| ModemRuns.GrantsMayCome | model/cm-net-device.cc:769-881 | A new MAP's grants keep the account of what was promised |
| ModemRuns.ReportAtEnd | model/cm-net-device.cc:1861-1896 | At a MAP's end the bytes used are those promised to its own bursts, and used plus unused is what it granted |
| ModemRuns.MapMayBeForgotten | model/cm-net-device.cc:1882-1893 | After the report, with its counters reset, the account holds for the MAPs behind |
| ModemRuns.ActionKeepsDevice | model/cm-net-device.cc:769-908 | Arrivals, requests and jobs keep calendar, grant pipeline, transmit pipeline and MAP counters in step |
| ModemRuns.EveryReportIsRight | model/cm-net-device.cc:1861-1896 | From any state in the invariant, over any run of MAP arrivals, requests and jobs in the simulator's order, with bursts promised any bytes within their grants: each report's used bytes, granted less unused as the source computes it, are exactly those promised to the bursts of its own MAP and those that the modem sent for it, and no byte eligible in its last frame is left |
| ModemRuns.EveryReportFromStart | model/cm-net-device.cc:1861-1896 | The same for every run of a modem that starts idle |
| ClosedLoops.StepKeepsInv | model/cmts-upstream-scheduler.cc:196-213 | Requests, MAPs, their delivery, and the jobs of both flows keep scheduler and modem in step: every byte granted is reported as used, refunded, or still to be reported, and the tokens pay for what is granted and not refunded |
| ClosedLoops.SentWithinRate | model/cmts-upstream-scheduler.cc:834-938 | Over any run of scheduler and modem: the bytes that the modem sends, both flows together, are at most the tokens at the start, the sustained rate times the time that passed, and what rounding and PGS add |
| ClosedLoops.SentWithinRateWithoutPgs | model/cmts-upstream-scheduler.cc:834-938 | Without PGS that is a minislot less one byte per MAP |
| ClosedLoops.BytesAreConserved | model/cm-net-device.cc:1861-1896 | Bytes reported and refunded never exceed those granted, and once every MAP is reported, bytes sent are bytes reported as used, and with the refunds they are exactly the bytes granted |
| RequestGrantProtocol.RequestStepKeepsCover | model/cmts-upstream-scheduler.cc:173-194 | Making a request, its arrival and refunds keep outstanding bytes covered |
| RequestGrantProtocol.GenerateKeepsCover | model/cmts-upstream-scheduler.cc:471-503 | A MAP puts at least as many bytes into flight as it takes off the backlog |
| RequestGrantProtocol.MapArrivalKeepsCover | model/cm-net-device.cc:721-736 | The arrival of a MAP takes from the outstanding bytes what it takes from flight |
| RequestGrantProtocol.StepKeepsInv | model/cm-net-device.cc:1971-2055 | Every step of the protocol keeps the invariant |
| RequestGrantProtocol.NoRequestIsLost | model/cm-net-device.cc:721-736 | After any run, outstanding bytes are at most backlog plus requests in flight plus grants in flight, per flow |
| RequestGrantProtocol.AskedIsOutstandingOrGranted | model/cm-net-device.cc:721-736 | Nor forgotten by the modem: over any run, what a flow asked for is outstanding unless as many bytes of MAPs have arrived |
| RequestGrantProtocol.BacklogIsServed | model/cmts-upstream-scheduler.cc:397-471 | A MAP with something for a flow carries bytes for that flow if it has a backlog |
| RequestGrantProtocol.OutstandingRequestsAreServed | model/cmts-upstream-scheduler.cc:300-539 | Flow by flow: after any run with nothing left in flight, an outstanding request makes the next MAP with something for the flow carry bytes for it |
| RequestGrantProtocol.OutstandingRequestsAreServedNext | model/cmts-upstream-scheduler.cc:300-539 | The same with the configuration in place of the condition on the MAP: it is the next MAP that comes an interval after the last |
| RequestGrantProtocol.OutstandingRequestsDrain | model/cmts-upstream-scheduler.cc:471-503 | After any run, n MAPs with something for a flow leave nothing of a backlog that n minislots hold, whatever the other flow asks for |
| RequestGrantProtocol.OutstandingRequestsDrainByRate | model/cmts-upstream-scheduler.cc:300-539 | Without PGS, the configuration decides: as many MAPs an interval apart as hold the backlog leave nothing of it |
| QueueProtections.FlowIdsAreStable | model/queue-protection.cc:240-254 | A flow keeps its id for good, and no two flows share one |
| QueueProtections.ChooseFinds | model/queue-protection.cc:256-311 | Probing finds the flow's bucket if a probed one is its own, else a drained one if any, else the default |
| QueueProtections.ProbesAreTried | model/queue-protection.cc:260-283 | Attempt j takes bucket (hash / nbuckets^j) mod nbuckets, the j-th group of bits of the hash |
| QueueProtections.ChoiceIsPick | model/queue-protection.cc:256-306 | Of these, the first one that the flow owns; if it owns none, the first one that has drained; the default bucket if and only if each of them is live and another flow's |
| QueueProtections.WhenDedicated | model/queue-protection.cc:256-306 | A packet shares the default bucket if and only if every bucket tried is live and another flow's |
| QueueProtections.QueueProtection.FlowId | model/queue-protection.cc:240-254 | The id is the position among the flows seen |
| QueueProtections.QueueProtection.Search | model/queue-protection.cc:260-286 | The probe loop with its shifted hash makes that choice, in arithmetic on the hash |
| QueueProtections.QueueProtection.PickBucket | model/queue-protection.cc:224-311 | The bucket is the first own, else the first drained, else the default one of those that the hash gives; it is claimed, and emptied if drained; no other bucket changes |
| QueueProtections.CongestionScore | model/queue-protection.cc:314-329 | The score is the drain time of the packet's expected marked bytes, rounded down |
| QueueProtections.ScoreIsDrainTime | model/queue-protection.cc:314-329 | It is the time in which a bucket that drains 2^(exponent - 30) bytes per nanosecond drains them, in whole units of the resolution |
| QueueProtections.QueueProtection.FillBucket | model/queue-protection.cc:332-354 | The level rises by the packet's score, up to the maximum |
| QueueProtections.QueueProtection.QueueProtect | model/queue-protection.cc:356-418 | Switched on, a packet is sanctioned if and only if delay and delay times score exceed their limits; switched off, nothing happens |
| FlowIsolation.ProtectKeepsInv | model/queue-protection.cc:224-354 | Each flow owns at most one dedicated bucket, which lies in its probe set; ids stay distinct and levels bounded |
| FlowIsolation.RunKeepsInv | model/queue-protection.cc:224-354 | The same after any run |
| FlowIsolation.ExpiryIsDrainingLevel | model/queue-protection.cc:332-354 | Expiry times stand for levels between 0 and the maximum that all drain with time; one packet raises one level by its score, and only an empty bucket is recycled |
| FlowIsolation.OthersDoNotInterfere | model/queue-protection.cc:260-311 | A packet of another flow takes a flow's bucket only after that has drained |
| FlowIsolation.OwnPacketMatches | model/queue-protection.cc:332-354 | A flow's packet in a dedicated bucket scores what its private bucket would |
| FlowIsolation.IsolationFrom | model/queue-protection.cc:224-354 | Isolation, from any reachable table |
| FlowIsolation.Isolation | model/queue-protection.cc:224-354 | If each of its packets gets a dedicated bucket, a flow's scores are those of a private leaky bucket fed by it alone |
| FlowIsolation.NonInterference | model/queue-protection.cc:224-354 | Two runs with the same packets of a flow give it the same scores, whatever the other flows send |
| FlowIsolation.DefaultBucketInterferes | model/queue-protection.cc:290-306 | The condition is needed: flows in the default bucket are charged for each other |
| DrrSelector.DualQueue.constructor | model/dual-queue-coupled-aqm.cc:991-996 | The low-latency quantum is the weighted part of a positive classic quantum |
| DrrSelector.QuantaFollowWeight | model/dual-queue-coupled-aqm.cc:991-996 | That quantum is the whole part of quantum times weight over 256 |
| DrrSelector.DualQueue.SelectLlQueue | model/dual-queue-coupled-aqm.cc:1187-1278 | The loop terminates for a positive quantum and computes the selection |
| DrrSelector.DualQueue.Enqueue | model/dual-queue-coupled-aqm.cc:842-850 | A packet joins the end of its queue |
| DrrSelector.DualQueue.Dequeue | model/dual-queue-coupled-aqm.cc:1356-1367 | The oldest packet of the selected queue leaves; nothing does, and nothing changes, if both are empty |
| DrrSelector.SelectPicksNonEmpty | model/dual-queue-coupled-aqm.cc:1187-1278 | A non-empty queue is selected whenever there is one |
| DrrSelector.SelectsFirstThatPays | model/dual-queue-coupled-aqm.cc:1187-1278 | With both queues backlogged: the packet served is the first, round by round and low latency before classic, that its queue has the deficit for; the turns left follow from it |
| DrrSelector.SelectsLlAlone | model/dual-queue-coupled-aqm.cc:1204-1237 | With the classic queue empty: low latency is served at once, for the packet's size if it is tested and has the deficit, and for its whole deficit otherwise |
| DrrSelector.SelectsClassicAlone | model/dual-queue-coupled-aqm.cc:1239-1268 | With the low-latency queue empty: the same for classic |
| DrrSelector.SelectSettles | model/dual-queue-coupled-aqm.cc:1187-1278 | In every state of a run: the queue served pays in full, or cannot, and then the other queue is empty and its deficit becomes 0; the other deficit only gains its rounds |
| DrrSelector.SelectKeepsBounds | model/dual-queue-coupled-aqm.cc:1187-1278 | One selection keeps deficits below the largest packet plus a quantum |
| DrrSelector.RunKeepsBounds | model/dual-queue-coupled-aqm.cc:1187-1278 | So does any run of enqueues and dequeues, queues running empty or not |
| DrrSelector.RunSettles | model/dual-queue-coupled-aqm.cc:1187-1278 | Over any run, queues empty or not: exact account of deficits, rounds, bytes served, packets not paid for, and deficits lost for them, which are smaller; none of these while both queues are backlogged |
| DrrSelector.DeficitsStayBounded | model/dual-queue-coupled-aqm.cc:1187-1278 | In every state reachable from empty queues, low-latency deficit is below M + ql and classic deficit below M + q |
| DrrSelector.SelectConserves | model/dual-queue-coupled-aqm.cc:1187-1278 | Deficits change by a quantum per round and by the packet served, exactly |
| DrrSelector.RoundsAreFew | model/dual-queue-coupled-aqm.cc:1191-1276 | A selection starts no more rounds than the classic head needs to gather its deficit |
| DrrSelector.RunConserves | model/dual-queue-coupled-aqm.cc:1187-1278 | Conservation over a run in which no dequeue finds a queue empty |
| DrrSelector.Fairness | model/dual-queue-coupled-aqm.cc:1187-1278 | Over any enqueues and dequeues with both queues backlogged, weighted bytes served differ by less than q(M + ql) + ql(M + q), however long the run |
| DrrSelector.EveryPeriodIsFair | model/dual-queue-coupled-aqm.cc:1187-1278 | Whatever went before it since the queues were empty, every period in which both queues stay backlogged meets that bound |
| DrrSelector.FairnessByWeight | model/dual-queue-coupled-aqm.cc:991-996 | In terms of the weight: low latency gets weight/256 of what classic gets, up to a constant, and less than a byte for each classic quantum served |
| VirtualQueues.VirtualQueue.QDelayCoupledV | model/dual-queue-coupled-aqm.cc:474-492 | The estimate drains by the elapsed time, not below zero, and takes in the packet |
| VirtualQueues.VirtualQueue.DecreaseVq | model/dual-queue-coupled-aqm.cc:895-903 | A packet's service time is taken out again |
| VirtualQueues.ServiceTimeIsMost | model/dual-queue-coupled-aqm.cc:895-903 | The service time is the most whole nanoseconds in which the rate sends no more than the bytes |
| VirtualQueues.Alignment.Smoothed | model/dual-queue-coupled-aqm.cc:524-537 | The smoothed queue length moves towards the actual one and never past it |
| VirtualQueues.SmoothedIsMixed | model/dual-queue-coupled-aqm.cc:524-537 | One step is (1 - alpha) times the average plus alpha times the actual length, rounded down |
| VirtualQueues.SmoothingTracksMean | model/dual-queue-coupled-aqm.cc:524-537 | Over any run, rounding never takes the average more than 1/alpha below the moving average that is not rounded, nor above it |
| VirtualQueues.AllowedIsWholeBytes | model/dual-queue-coupled-aqm.cc:540-564 | The allowed length is what the rate beyond the guaranteed one sends in the loop delay, and a multiple of what the guaranteed rate sends between two grants |
| VirtualQueues.QuietQueueNeverRaises | model/dual-queue-coupled-aqm.cc:535-577 | An actual queue that stays within the allowed length never raises the estimate |
| VirtualQueues.LongQueueRaises | model/dual-queue-coupled-aqm.cc:535-577 | One that stays above it raises the estimate, each time, to at least the delay of the excess |
| VirtualQueues.VirtualQueue.AlignVq | model/dual-queue-coupled-aqm.cc:519-581 | The queue length is smoothed, and the estimate raised to the delay of what exceeds the allowed length, never lowered |
| VirtualQueues.VirtualQueue.Arrive | model/dual-queue-coupled-aqm.cc:746-874 | A packet is admitted if and only if it is not sanctioned, there is room, and the drained level plus its service time is below the limit; if not, it leaves the drained level |
| VirtualQueues.OneMoreEvent | model/dual-queue-coupled-aqm.cc:746-874 | Over any run, the packets admitted are exactly the arrivals for which this holds |
| VirtualQueues.SanctionedLeaveNoTrace | model/dual-queue-coupled-aqm.cc:793-814 | Sanctioned packets, and those without room, have over a whole run the effect of queries at their times |
| VirtualQueues.VirtualQueueBoundsFluid | model/dual-queue-coupled-aqm.cc:474-492 | Over any events, the estimate is never below the fluid backlog of the admitted packets alone, and equals it unless an alignment raised it |
| VirtualQueues.TracksFluidIffNeverRaised | model/dual-queue-coupled-aqm.cc:566-577 | It equals the fluid backlog throughout if and only if no alignment raises it |
| VirtualQueues.AdmittedWithinLimit | model/dual-queue-coupled-aqm.cc:818-835 | An admitted packet finds the fluid backlog, itself included, below the buffer limit |
| VirtualQueues.FluidIsLongestBusyPeriod | model/dual-queue-coupled-aqm.cc:474-492 | The fluid backlog in closed form: the longest busy period that ends now |
| DerandomisedCounters.Marker.Recur | model/dual-queue-coupled-aqm.cc:878-893 | A packet is marked if and only if counter and likelihood together exceed one, and the counter keeps the rest |
| DerandomisedCounters.MarksTrackLikelihoods | model/dual-queue-coupled-aqm.cc:878-893 | Over any run, marks and the sum of likelihoods differ by at most one |
| DerandomisedCounters.PieDropper.DropEarly | model/dual-queue-coupled-aqm.cc:1491-1562 | A packet that is not let pass is dropped at the high threshold, never below the low one, and in between if and only if the draw is at most the lesser of the low threshold and its scaled drop probability; the new accumulator, burst state and allowance in every branch |
| DerandomisedCounters.DropDecision | model/dual-queue-coupled-aqm.cc:1525-1556 | The decision, on input and state; a packet that is not dropped leaves the accumulator below the high threshold |
| DerandomisedCounters.DropsArePaidFor | model/dual-queue-coupled-aqm.cc:1502-1562 | Over any run, drops times the low threshold plus the accumulator are at most the scaled drop probabilities |
| DerandomisedCounters.DropsKeepUp | model/dual-queue-coupled-aqm.cc:1502-1562 | Over any run, drops keep up: drops times both thresholds exceed the accumulated drop probability, less what was cleared, what packets that were let pass added, and the high threshold |
| DerandomisedCounters.ProtectedUntilUpdate | model/dual-queue-coupled-aqm.cc:1557-1562 | The drop that starts the protection of a burst is the last one until the allowance is updated |

## Left out

- Integer width: bytes, minislots, hashes and times are unbounded, so the wrap-around of 32-bit sequence numbers and counters is not modelled, except for the space behind a PGS grant.
- UpstreamSchedulers.UpstreamScheduler.constructor: takes PGS size and interval as PgsTiming.PgsFor computes them; the check that the first grant time is not negative is left out.
- Runs of the whole scheduler with PGS grants that cross the end of a MAP (not NeverCrosses): what follows from the first such grant is only described step by step, by CrossingGrantTakesAll and CrossingGrantOverruns.
- Free minislots and the random start are inputs of each interval; the congestion model is left out. A start outside its range is cut to it.
- The clock is an input that the run lemmas assume not to run backwards, as the source asserts; rates times times are exact and rounded down, not floating point.
- Service flow provisioning: the scheduler always has both flows. A single classic flow is one without low-latency requests.
- UpstreamSchedulers.UpstreamScheduler.DecrementBacklog: does not distinguish a missing entry of the request map from one of zero bytes, because nothing reads the difference.
- GrantPlacement.FillGaps: one method for the two loops of the source, which differ only in how they compare an exactly fitting gap and are otherwise the same; the comparison depends on the flow.
- MapMessages.ParseMap: returns None where the source reads past the last element or would wrap an unsigned length, so what happens then is not modelled; ParsedIffDelimited says exactly when that is.
- MAP fields that nothing reads, such as the number of elements, which is never set.
- CableModemFlows.CableModemFlow.PrepareBurst: requires its grant at the front of the grant pipeline, the predicate BurstReady, which the source asserts and GrantCalendars.EveryJobIsProper proves for every run; the classic and the low-latency version are one method.
- CableModemFlows.CableModemFlow.SendOut: the channel accepts every packet, as the channel of this repository does; packet contents, headers and traces are left out, as are the point-to-point mode and the disabled emulation code.
- MapDrain.MapReport: speaks of the bytes used and unused between two boundaries of a run; the report job itself, and the reset of the counters, are in ModemRuns.EveryReportIsRight.
- ModemRuns.EveryReportIsRight: MAPs start on the frame grid, as MAPs that are sent at MAP intervals do; how many bytes a burst is promised is any number within its grant, because that depends on the queues, which CableModemFlows models; a burst that would have to be prepared before its MAP arrives stops the source and is not a step.
- ClosedLoops.SentWithinRate: requests are arbitrary, so the bound covers whatever the modem asks for; MAPs arrive in order and before their first burst is prepared, with any delay otherwise.
- QueueProtections.QueueProtection.QueueProtect: the hash of a flow is arbitrary; the times are in units of the resolution.
- VirtualQueues.VirtualQueue.QDelayCoupledV: a maximum rate of zero, for which the source returns 0 and divides by zero elsewhere, is left out.
- DrrSelector.Fairness: packets drop out of the queues in no other way than by being served.
- DerandomisedCounters.DropsArePaidFor: drop probabilities are arbitrary non-negative reals, because the PIE control law, its square root and floating-point rounding are left out.
- The downstream direction, point-to-point devices, topology helpers, examples, tracing and logging.
