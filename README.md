# Thesis monitoring and SEC-filing research engine, modelled in Dafny

This project models the deterministic core of a research pipeline. The
pipeline maintains investment theses on listed companies, watches their SEC
filings and earnings events, and writes intelligence reports. Every module
mirrors one source file (or a small family of them), and Python's
conventions are written out explicitly: `round` rounds half to even, `int()`
truncates, `a or b` and truthiness apply to optional numbers, dictionaries
keep insertion order and `sort` is stable. The model covers:

- **Financial model** (`FinancialModel`, `ModelClaims`, `ModelExpectations`).
  The `EPModel` accessors turn a sparse parameter map into revenue, operating
  cash flow, funding gap, breakeven and coverage ratios, and a missing input
  stays missing. The module also covers the derived-claims writer, the
  quarterly expectation ranges, the scoring of actuals into
  confirms/challenges/breaks/neutral, and the kill-criterion operators.
- **Monitoring** (`ResearchDb`, `GuidanceRevisions`, `Monitor`, `PostEvent`).
  The database tables are classes whose row sequences the methods update in
  place. The module covers the guidance supersession chain with its 2 % noise
  floor and 15 % alert, one-shot kill criteria, and management-scorecard
  settlement under the two files' different single-bound rules. It also
  covers hypothesis updates and the post-earnings scoring flow.
- **Thesis lifecycle** (`ThesisGeneration`, `ThesisApproval`). This covers the
  standalone derived-claims computation, saving a new thesis so that exactly
  one bull thesis is active, and approval of a draft with its
  probability-sum warning.
- **Report decisions** (`Synthesis`, `SynthesisValidation`, `Differential`).
  This covers report-mode selection from the earnings calendar, the
  reported-quarter label, consensus strength, the additive urgency score with
  its dampeners, and materiality. It also covers validation of the numbers in
  a synthesis against the evidence, metric diffing between filings, and the
  pairing of comparable filings.
- **External data** (`ExternalData`). This covers NYMEX futures tickers, the
  trapezoid-weighted strip averages over a futures curve, date normalisation,
  earnings-calendar selection and the nested value parser.
- **Filings** (`FilingDownload`, `SecFilings`, `FilingProcessing`). This
  covers the strategic subset of filings, archive URLs and local paths, the
  26 × 30-day window filter over EDGAR's parallel arrays, and the per-form
  summary. It also covers section slicing given the heading positions, and
  the greedy token-bounded chunking with per-section chunk numbering.
- **Small helpers** (`JsonExtract`, `Router`, `ReportView`, `Delivery`,
  `PreEvent`, `PaperBatch`). These cover brace-matching JSON extraction from
  model replies, the router's confidence gate, word wrapping for the report
  viewer, and the delivery subject line and urgency partition. They also
  cover the pre-earnings rationale merge and consensus matching, and the
  paper-batch routing, truncation, chunking, de-duplication and batching.
- **Shared** (`Wrappers`, `PyNum`, `Numerals`, `Text`, `Sorting`,
  `Calendar`). These are the Python semantics the modules rely on.

The database, the language models, HTTP, the clock, token counters and
regular-expression matchers become parameters or inputs. Each stateful
operation is a method proved equal to a specification function, and the
lemmas state what the source promises about that function.

Four places where the program's own text promises more than its code does;
the model follows the code:

- the reply prompt at `monitor.py:383` asks for a 0-100 confidence that must
  move by at least 5 points to justify a status change, but `monitor.py:573-583`
  writes the status and confidence exactly as the reply gives them, with no
  clamp and no minimum change;
- the comment at `generate_thesis.py:374-376` says the breakeven price is
  computed only when not already provided, and the guard on line 376 holds
  for that claim alone: the funding gap, capex increase and hedge coverage
  (`generate_thesis.py:325-370`) overwrite keys that are already present;
- `financial_model.py:517` gives the threshold operator a default of `'>'`,
  but only when the key is missing: a criterion whose operator column is NULL
  looks up `None` in the operator table at `financial_model.py:523` and never
  triggers;
- the docstring of `validate_signal_map` (`synthesize_intelligence.py:957`)
  promises a cross-reference against `numbers_that_matter`; the function
  builds a table of their consensus numbers (lines 963-970) and never reads
  it, so no signal is checked against those numbers.

## Model

| member | source | states |
|---|---|---|
| FinancialModel.CapexMid | research/indomitable/scripts/financial_model.py:51-56 | the midpoint of the capex range when both ends exist, otherwise whichever end exists, None only when neither does |
| FinancialModel.Revenue | research/indomitable/scripts/financial_model.py:62-69 | revenue exists exactly when production and realized price do, and lies within $0.5M of their product, a whole number of $M |
| FinancialModel.HedgedRevenue | research/indomitable/scripts/financial_model.py:71-77 | hedged revenue exists exactly when hedge volume and price do, within $0.5M of their product |
| FinancialModel.UnhedgedVolume | research/indomitable/scripts/financial_model.py:79-85 | unhedged volume exists exactly when production and hedge volume do, within 0.05 Bcf of their difference |
| FinancialModel.UnhedgedRevenue | research/indomitable/scripts/financial_model.py:87-96 | the unhedged volume is valued at a truthy price argument first, then the forward curve, within $0.5M |
| FinancialModel.UnhedgedRevenueFallsBackToRealized | research/indomitable/scripts/financial_model.py:87-96 | with neither a truthy price argument nor a truthy forward curve, the volume is valued at the realized price, within $0.5M |
| FinancialModel.OperatingCashFlow | research/indomitable/scripts/financial_model.py:98-110 | a reported OCF is returned as is; otherwise OCF exists exactly when production, price and unit cost all do (absence never becomes 0) and is within $1M of production times margin |
| FinancialModel.FundingGap | research/indomitable/scripts/financial_model.py:112-125 | the gap exists exactly when OCF and low capex do; its ends are the rounded capex-low and capex-upper shortfalls, ordered low <= high |
| FinancialModel.FundingGapFollowsGuidance | research/indomitable/scripts/financial_model.py:112-125 | with ordered guidance the low end of the gap comes from low capex and the high end from high capex |
| FinancialModel.FundingGapAntitoneInOcf | research/indomitable/scripts/financial_model.py:112-125 | more operating cash flow never widens the gap's high end |
| FinancialModel.FreeCashFlow | research/indomitable/scripts/financial_model.py:246-255 | free cash flow is the funding gap negated with its ends swapped, so it stays ordered |
| FinancialModel.BreakevenPrice | research/indomitable/scripts/financial_model.py:127-135 | breakeven exists exactly when the capex midpoint and realized price are truthy and OCF is positive, and is within 0.005 of midpoint times price over OCF |
| FinancialModel.BreakevenScalesOcfToCapexMid | research/indomitable/scripts/financial_model.py:127-135 | at the unrounded breakeven, OCF scaled in proportion to price equals the capex midpoint |
| FinancialModel.HedgeCoveragePct | research/indomitable/scripts/financial_model.py:137-143 | defined exactly for positive production, within 0.05 of the hedged share in percent |
| FinancialModel.CapexChangePct | research/indomitable/scripts/financial_model.py:145-151 | defined exactly for a capex midpoint and a positive prior capex, within 0.05 of the percentage change |
| FinancialModel.ProductionChangePct | research/indomitable/scripts/financial_model.py:153-159 | defined exactly for a positive prior production, within 0.05 of the percentage change |
| FinancialModel.ForwardCurveUpside | research/indomitable/scripts/financial_model.py:161-168 | defined exactly when curve price, realized price and unhedged volume exist; the price spread times unhedged volume to $0.5M |
| FinancialModel.NetDebtToOcf | research/indomitable/scripts/financial_model.py:170-176 | defined exactly for positive OCF, within 0.05 turns of net debt over OCF |
| FinancialModel.InterestCoverage | research/indomitable/scripts/financial_model.py:178-184 | defined exactly for positive interest expense, within 0.05 of OCF over interest |
| FinancialModel.MaintenanceCapex | research/indomitable/scripts/financial_model.py:186-201 | the reported maintenance capex, else 40 % of the capex midpoint, else None |
| FinancialModel.DebtServiceCapacity | research/indomitable/scripts/financial_model.py:186-201 | defined exactly for positive interest and a maintenance capex figure, within 0.05 of (OCF - maintenance) over interest |
| FinancialModel.ImpliedInterestRatePct | research/indomitable/scripts/financial_model.py:224-229 | a rate exists exactly when interest and a positive total debt are known, and it is within 0.05 of interest / debt x 100 |
| FinancialModel.FundingGapCoverage | research/indomitable/scripts/financial_model.py:203-236 | present exactly for a positive gap high end; carries the gap, the facility share of the gap to within 0.05 (when a facility is known), the interest, the implied rate (only for positive debt) within 0.05 of interest / debt x 100, and the next maturity |
| FinancialModel.OcfCoveragePct | research/indomitable/scripts/financial_model.py:238-244 | defined exactly for a positive capex midpoint, within 0.05 of OCF over the midpoint in percent |
| ModelClaims.DerivedClaim | research/indomitable/scripts/financial_model.py:266-346 | a derived claim is only ever produced under one of the nine derived keys and is tagged with source 'derived' |
| ModelClaims.DerivedClaims | research/indomitable/scripts/financial_model.py:257-347 | an empty claims map comes back unchanged; otherwise no key is removed and every new key is a derived key |
| ModelClaims.DerivedClaimsOnlyWritesDerived | research/indomitable/scripts/financial_model.py:257-347 | each entry afterwards is either the untouched original or a derived claim under a derived key |
| ModelClaims.DerivedClaimsKeepBreakeven | research/indomitable/scripts/financial_model.py:294-301 | an existing breakeven_price is never replaced |
| ModelClaims.DerivedClaimsOverwrite | research/indomitable/scripts/financial_model.py:266-346 | every other derived key the model can compute is written, replacing any earlier value |
| ModelClaims.DerivedClaimsIdempotent | research/indomitable/scripts/financial_model.py:257-347 | deriving twice gives the same map as deriving once |
| ModelClaims.ComputeDerivedClaims | research/indomitable/scripts/financial_model.py:257-347 | the in-place update returns the same dictionary, whose entries become the derived claims map of the old entries |
| ModelClaims.FirstPresent | research/indomitable/scripts/financial_model.py:603-609 | the index of the first futures key present, with none of the earlier keys present; None only when no key is present |
| ModelClaims.ParamsFromClaims | research/indomitable/scripts/financial_model.py:561-618 | an empty claims map gives no parameters; otherwise both units are set (with their defaults); no context means no forward prices; OCF only comes from a stored claim |
| ModelClaims.CapexSingleValueIsBothEnds | research/indomitable/scripts/financial_model.py:579-580 | a single capex value with no truthy range becomes both the low and the high end |
| ModelClaims.ForwardPricePreference | research/indomitable/scripts/financial_model.py:593-616 | the forward price prefers a truthy 12-month strip, then the first futures key present with a truthy price, then the spot quote; the seasonal strips come only with the 12-month strip |
| ModelExpectations.HighPrice | research/indomitable/scripts/financial_model.py:366 | the high revenue price is never below the realized price (forward curve when above it, else realized plus 10 %) |
| ModelExpectations.ExpectationsOrderAndPresence | research/indomitable/scripts/financial_model.py:349-441 | expectations come as revenue, OCF, capex, production, funding gap, each present exactly when its inputs exist |
| ModelExpectations.ExpectationsMembers | research/indomitable/scripts/financial_model.py:349-441 | every expectation is the result of one of the five builders |
| ModelExpectations.RevenueExpectationOrdered | research/indomitable/scripts/financial_model.py:358-377 | for non-negative production and price the quarterly revenue range is ordered low <= mid <= high |
| ModelExpectations.OcfBandOrdered | research/indomitable/scripts/financial_model.py:383-385 | the 0.9x/1.1x band around a non-negative quarterly OCF is ordered |
| ModelExpectations.OcfExpectationOrdered | research/indomitable/scripts/financial_model.py:379-393 | for non-negative OCF the OCF expectation is ordered |
| ModelExpectations.CapexExpectationOrdered | research/indomitable/scripts/financial_model.py:395-409 | with capex guidance low <= high the capex expectation is ordered |
| ModelExpectations.ProductionBandOrdered | research/indomitable/scripts/financial_model.py:413-415 | the -3 %/+3 % band around non-negative quarterly production is ordered |
| ModelExpectations.ProductionExpectationOrdered | research/indomitable/scripts/financial_model.py:411-424 | for non-negative production the production expectation is ordered |
| ModelExpectations.GapExpectationOrdered | research/indomitable/scripts/financial_model.py:426-439 | the funding-gap expectation is always ordered, because the gap's ends are |
| ModelExpectations.ExpectationsOrdered | research/indomitable/scripts/financial_model.py:349-441 | for non-negative inputs and ordered capex guidance every generated expectation satisfies low <= mid <= high |
| ModelExpectations.OcfBandInvertsForNegativeOcf | research/indomitable/scripts/financial_model.py:383-385 | with negative annual OCF (-400) the fixed band comes out inverted, low above high |
| ModelExpectations.VsExpectedPct | research/indomitable/scripts/financial_model.py:463-465 | the percentage distance exists exactly when the midpoint is truthy and is within 0.005 of (actual - mid) / abs(mid) x 100 |
| ModelExpectations.ImpactOf | research/indomitable/scripts/financial_model.py:473-481 | confirms iff within range; otherwise breaks iff beyond 25 %, challenges iff beyond 5 % up to 25 %, neutral otherwise |
| ModelExpectations.ScoreOne | research/indomitable/scripts/financial_model.py:453-492 | the result carries the metric and the actual; within range iff both bounds exist and enclose the actual; no distance iff a falsy midpoint |
| ModelExpectations.WithActuals | research/indomitable/scripts/financial_model.py:453-457 | only expectations that have an actual are kept, never more than given |
| ModelExpectations.ScoredMatchesWithActuals | research/indomitable/scripts/financial_model.py:443-494 | the scored results are, position by position, the expectations that have an actual scored against that actual |
| ModelExpectations.ScoreActuals | research/indomitable/scripts/financial_model.py:443-494 | the loop computes exactly the scored-results specification |
| ModelExpectations.Compare | research/indomitable/scripts/financial_model.py:504-511 | an operator is applied exactly when it is one of the six known ones |
| ModelExpectations.CheckOne | research/indomitable/scripts/financial_model.py:514-534 | the result echoes the criterion; triggered only with an actual, a threshold and a known operator; a missing operator means 'greater than' |
| ModelExpectations.CheckKillCriteria | research/indomitable/scripts/financial_model.py:496-536 | exactly one result per criterion, in input order, each the single-criterion check |
| ResearchDb.SerialAppend | research/indomitable/scripts/monitor.py:163-174 | inserting under the next serial id keeps the table's ids positive and strictly increasing |
| ResearchDb.Supersede | research/indomitable/scripts/monitor.py:180-184 | only the row with the target id gets its superseded_by link; every other row and the row count are unchanged |
| ResearchDb.SupersedeKeepsIds | research/indomitable/scripts/monitor.py:180-184 | linking a superseded record changes no id |
| ResearchDb.GuidanceHistory.Insert | research/indomitable/scripts/monitor.py:165-174 | the record is appended under the next serial id, which then advances by one |
| ResearchDb.GuidanceHistory.SetSupersededBy | research/indomitable/scripts/monitor.py:180-184 | the table becomes the superseded-link update of the old table |
| ResearchDb.MarkTriggered | research/indomitable/scripts/monitor.py:253-262 | only the target criterion becomes triggered, with today's date and the evidence; all other rows are unchanged |
| ResearchDb.Untriggered | research/indomitable/scripts/monitor.py:47-57 | exactly the thesis's criteria that are not yet triggered |
| ResearchDb.KillCriteria.Trigger | research/indomitable/scripts/monitor.py:253-262 | the table becomes the triggered update of the old table |
| ResearchDb.MarkTriggeredMonotone | research/indomitable/scripts/monitor.py:253-262 | a triggered criterion stays triggered |
| ResearchDb.MarkedNotUntriggered | research/indomitable/scripts/monitor.py:47-57 | once marked, a criterion is no longer loaded as untriggered |
| ResearchDb.RecordResult | research/indomitable/scripts/monitor.py:265-290 | only the target scorecard entry receives the actual, assessment and dates |
| ResearchDb.Pending | research/indomitable/scripts/monitor.py:73-83 | exactly the company's scorecard entries still assessed 'pending' |
| ResearchDb.EntryById | research/indomitable/scripts/monitor.py:270-271 | the entry found has the requested id, and none is found only when no entry has it |
| ResearchDb.Scorecard.SetResult | research/indomitable/scripts/monitor.py:265-290 | the table becomes the recorded-result update of the old table |
| ResearchDb.SetStatus | research/indomitable/scripts/monitor.py:304-313 | only the target hypothesis gets the new status, confidence and update time |
| ResearchDb.WithStatus | research/indomitable/scripts/monitor.py:60-70 | exactly the thesis's hypotheses whose status is in the requested set |
| ResearchDb.Hypotheses.UpdateStatus | research/indomitable/scripts/monitor.py:304-313 | the table becomes the status update of the old table; the evidence log is untouched |
| ResearchDb.Hypotheses.LogEvidence | research/indomitable/scripts/monitor.py:292-301 | the evidence row is appended; hypotheses are untouched |
| ResearchDb.DecisionLog.Log | research/indomitable/scripts/monitor.py:316-327 | the decision is appended to the log |
| ResearchDb.Touch | research/indomitable/scripts/monitor.py:592-597 | only the target thesis gets the new update time |
| ResearchDb.InvestmentTheses.Stamp | research/indomitable/scripts/monitor.py:592-597 | the table becomes the touched update of the old table |
| ResearchDb.ExpectationResults.Insert | research/indomitable/scripts/post_event.py:165-169 | the result row is appended and no other row changes |
| GuidanceRevisions.NormalizeCategory | research/indomitable/scripts/monitor.py:123 | the normalised category keeps the category's length and contains no space; a missing category reads as empty |
| GuidanceRevisions.ExactLookup | research/indomitable/scripts/monitor.py:124 | an exact key of the table is found with its value; None only when no key equals the category |
| GuidanceRevisions.FirstKeyIn | research/indomitable/scripts/monitor.py:125-130 | the value of a table key occurring inside the category; None only when no key occurs in it |
| GuidanceRevisions.MapCategory | research/indomitable/scripts/monitor.py:123-130 | a metric is found exactly when some table key occurs in the category, and it is one of the table's values |
| GuidanceRevisions.CategoryTableValues | research/indomitable/scripts/monitor.py:110-118 | every value of the category table is a guidance metric name |
| GuidanceRevisions.MetricFor | research/indomitable/scripts/monitor.py:110-132 | a statement maps to a guidance metric exactly when one of the table keys occurs in its normalised category |
| GuidanceRevisions.MetricForCapex | research/indomitable/scripts/monitor.py:110-124 | 'Capex' is lower-cased to an exact key and maps to capex guidance |
| GuidanceRevisions.MetricForRigCount | research/indomitable/scripts/monitor.py:110-124 | 'Rig Count' is lower-cased, its space becomes an underscore, and it maps to rig-count guidance |
| GuidanceRevisions.LatestGuidanceIsLatest | research/indomitable/scripts/monitor.py:86-99 | each selected record is a non-superseded record of the company under its metric; every metric with such a record is selected, and none of its records is dated later than the selected one |
| GuidanceRevisions.PriorMidOf | research/indomitable/scripts/monitor.py:149-152 | the prior midpoint is low, or (low + high) / 2 when high is truthy; a truthy high with no low is the error float(None) raises |
| GuidanceRevisions.RevisionPct | research/indomitable/scripts/monitor.py:155-156 | the revision exists exactly for a positive prior midpoint and is within 0.005 of the percentage change |
| GuidanceRevisions.Revise | research/indomitable/scripts/monitor.py:121-193 | a statement is skipped without a metric or value; small revisions write nothing; a recorded one carries the value as both bounds, links the prior record, has no revision for first guidance, and alerts exactly when the revision exceeds 15 % |
| GuidanceRevisions.ReviseMeasuresAgainstSnapshot | research/indomitable/scripts/monitor.py:145-161 | a recorded revision is measured against the current record's midpoint |
| GuidanceRevisions.SmallRevisionIsSuppressed | research/indomitable/scripts/monitor.py:155-159 | with a positive prior midpoint, a revision under 2 % writes nothing |
| GuidanceRevisions.RunFromRaised | research/indomitable/scripts/monitor.py:149-150 | once the error has been raised no later statement has any effect |
| GuidanceRevisions.ApplyExtends | research/indomitable/scripts/monitor.py:163-184 | one decision keeps the ids serial and only appends records, alerts and forward links |
| GuidanceRevisions.RunFromExtends | research/indomitable/scripts/monitor.py:121-193 | a batch never removes a record or rewrites one beyond linking it forward to a newer record |
| GuidanceRevisions.ReviseStatement | research/indomitable/scripts/monitor.py:121-193 | the body of the statement loop applies exactly the decision for that statement to the table |
| GuidanceRevisions.WriteRevision | research/indomitable/scripts/monitor.py:165-184 | the revision is inserted under the next id, and the superseded entry, when there is one, is linked forward to it |
| GuidanceRevisions.CheckGuidanceRevisions | research/indomitable/scripts/monitor.py:102-197 | the whole batch, each statement decided against the records current at call start, leaves the table and alerts of the specified run |
| Monitor.ReportedActuals | research/indomitable/scripts/monitor.py:483-487 | the actuals hold exactly the metric names reported with a value, and never a missing value |
| Monitor.FilingActuals | research/indomitable/scripts/monitor.py:236-246 | every metric of the filing is present; a zero value is read as None |
| Monitor.LaterFilingWins | research/indomitable/scripts/monitor.py:493-497 | a metric reported by the last filing that has it takes that filing's value |
| Monitor.BuildActuals | research/indomitable/scripts/monitor.py:483-497 | the two actuals loops compute the merged actuals, later filings overriding earlier ones |
| Monitor.AsCriterion | research/indomitable/scripts/monitor.py:507-509 | a stored criterion keeps its id, metric and threshold, and always has an operator column |
| Monitor.CriteriaOf | research/indomitable/scripts/monitor.py:507-509 | one model criterion per stored criterion, in order |
| Monitor.NullOperatorNeverTriggers | research/indomitable/scripts/monitor.py:507-509 | a stored criterion whose operator is NULL never triggers |
| Monitor.KillAlerts | research/indomitable/scripts/monitor.py:510-516 | every kill alert names one of the checked criteria |
| Monitor.MarkFired | research/indomitable/scripts/monitor.py:518-519 | marking the triggering criteria keeps the table size |
| Monitor.MarkFiredMonotone | research/indomitable/scripts/monitor.py:518-519 | marking never clears a trigger |
| Monitor.DisarmedStaysDisarmed | research/indomitable/scripts/monitor.py:253-262 | a triggered criterion stays triggered under later updates |
| Monitor.MarkTriggeredDisarms | research/indomitable/scripts/monitor.py:253-262 | the update leaves the target criterion triggered |
| Monitor.FiredAreDisarmed | research/indomitable/scripts/monitor.py:510-521 | every criterion that raised an alert is marked as triggered |
| Monitor.KillOneShot | research/indomitable/scripts/monitor.py:47-57 | kill triggering is one-shot: a criterion that alerts was untriggered before and is marked after, so a later run never alerts on it again whatever the new actuals |
| Monitor.CheckKills | research/indomitable/scripts/monitor.py:506-521 | the kill step alerts, marks and logs a 'kill_triggered' decision for each untriggered criterion that triggers, in order |
| Monitor.FireKill | research/indomitable/scripts/monitor.py:513-521 | a triggering result is alerted, marked with its evidence and logged; any other result changes nothing |
| Monitor.FireKills | research/indomitable/scripts/monitor.py:512-521 | acting on the check results in order gives exactly the specified kill alerts and marked table, with one 'kill_triggered' decision per alert |
| Monitor.AssessmentName | research/indomitable/scripts/monitor.py:412-422 | an assessment is never recorded as 'pending' |
| Monitor.Assess | research/indomitable/scripts/monitor.py:412-422 | two bounds: delivered inside, exceeded above, missed below; a low bound alone: delivered iff reached, never exceeded; no low bound: delivered |
| Monitor.MatchEntry | research/indomitable/scripts/monitor.py:405-430 | an entry is matched exactly when its metric is among the actuals; the match carries the entry's id, text, unit and the actual, assessed on truthy bounds; a missing actual against a low bound is the comparison error |
| Monitor.CheckAllSelects | research/indomitable/scripts/monitor.py:402-431 | exactly the entries whose metric is among the actuals are matched, in order |
| Monitor.CheckAllComplete | research/indomitable/scripts/monitor.py:402-431 | every entry whose metric is among the actuals is matched |
| Monitor.CheckAllSound | research/indomitable/scripts/monitor.py:402-431 | every match names an entry whose metric is among the actuals |
| Monitor.CheckScorecardAgainstActuals | research/indomitable/scripts/monitor.py:402-431 | the loop computes the specified matches, or reports the error |
| Monitor.MatchScorecardEntry | research/indomitable/scripts/monitor.py:405-430 | one pass of the loop skips, matches or raises exactly as the per-entry specification says |
| Monitor.MonitorDelta | research/indomitable/scripts/monitor.py:265-280 | the delta exists exactly when the actual and both stored bounds are truthy and the midpoint is positive |
| Monitor.MonitorDeltaNear | research/indomitable/scripts/monitor.py:265-280 | a recorded delta is within 0.005 of the actual's percentage distance from the midpoint of the promised range |
| Monitor.UpdateScorecard | research/indomitable/scripts/monitor.py:265-290 | the entry receives the actual, unit, filing, assessment and the delta computed from its stored bounds |
| Monitor.ScorecardAlerts | research/indomitable/scripts/monitor.py:527-533 | one scorecard alert per match, in order |
| Monitor.RecordMatchesSettles | research/indomitable/scripts/monitor.py:523-530 | a matched promise is no longer pending afterwards, so the next run does not assess it again |
| Monitor.ScorecardStep | research/indomitable/scripts/monitor.py:523-534 | the scorecard step records each match of the pending entries and alerts once per match; a raise leaves the table untouched |
| Monitor.RecordAll | research/indomitable/scripts/monitor.py:527-532 | after the loop the scorecard equals the matches recorded in order, each delta taken from the entry as it then stands, and there is exactly one alert per match, in match order |
| Monitor.GuidanceFilingsExtends | research/indomitable/scripts/monitor.py:536-558 | across all filings the guidance history only grows: earlier records change only in a forward link to a record added in this run, and ids stay serial |
| Monitor.LogDecisions | research/indomitable/scripts/monitor.py:557-558 | one 'guidance_revision' decision is appended per alert |
| Monitor.GuidanceFilingStep | research/indomitable/scripts/monitor.py:538-558 | one filing's statements are checked against the current guidance, with one decision logged per alert |
| Monitor.GuidanceStep | research/indomitable/scripts/monitor.py:536-558 | the guidance step runs the filings in order and logs one decision per alert of each completed filing |
| Monitor.EvidenceLog | research/indomitable/scripts/monitor.py:565-579 | at most one evidence row per update, only for updates naming a hypothesis |
| Monitor.StatusRows | research/indomitable/scripts/monitor.py:581-583 | the hypothesis table keeps its size |
| Monitor.HypothesisAlerts | research/indomitable/scripts/monitor.py:582-586 | a hypothesis alert is raised only for a status other than 'active' |
| Monitor.StatusRowsEffect | research/indomitable/scripts/monitor.py:565-589 | a hypothesis no update moves off 'active' keeps its row; one that is moved takes the status and confidence of the last such update, as given |
| Monitor.StatusRowsKeepIds | research/indomitable/scripts/monitor.py:581-583 | status updates never change a hypothesis id |
| Monitor.ApplyHypothesisUpdates | research/indomitable/scripts/monitor.py:565-589 | the loop appends exactly the evidence log, applies exactly the status updates and raises exactly the hypothesis alerts |
| Monitor.ApplyHypothesisUpdate | research/indomitable/scripts/monitor.py:566-587 | an update without a hypothesis id changes nothing; any other logs one evidence row, and only a status other than 'active' rewrites the row and raises an alert |
| Monitor.HypothesisStep | research/indomitable/scripts/monitor.py:560-589 | updates apply only while the thesis has an active hypothesis; otherwise nothing changes |
| Monitor.MonitorRest | research/indomitable/scripts/monitor.py:523-597 | the scorecard takes its step's rows; a scorecard raise leaves guidance, log and hypotheses untouched; otherwise guidance becomes the run over the new filings with only 'guidance_revision' decisions appended; without a raise the hypotheses take their step's rows and evidence, the alerts are scorecard, guidance and hypothesis alerts in that order, no kill alert is added, and the thesis is stamped |
| Monitor.GuidanceThenHypotheses | research/indomitable/scripts/monitor.py:536-597 | guidance becomes the run over the new filings and a raise there stops the run with hypotheses and thesis untouched; otherwise the hypotheses take their step's rows and evidence, one decision is logged per guidance alert and the thesis is stamped |
| Monitor.MonitorThesis | research/indomitable/scripts/monitor.py:434-599 | silent and unchanged with nothing new; otherwise the kill step runs first on the merged actuals and logs one 'kill_triggered' per alert, then scorecard, guidance and hypotheses take the new state their steps specify on those actuals, the alerts are kill, scorecard, guidance and hypothesis alerts in that order, triggers are never cleared, every kill alert is one-shot, and the thesis is stamped unless an error was raised |
| Monitor.KillSafeAppend | research/indomitable/scripts/monitor.py:523-597 | non-kill alerts appended later keep every kill alert one-shot |
| Monitor.GuidanceAlertsOf | research/indomitable/scripts/monitor.py:554-556 | one guidance alert per revision, in order |
| Monitor.KillFacts | research/indomitable/scripts/monitor.py:506-521 | the kill step leaves every alert's criterion armed before and marked after, keeps the table size and never clears a trigger |
| PostEvent.ApplyAliases | research/indomitable/scripts/post_event.py:131-134 | the alias pass keeps every reported metric name |
| PostEvent.AliasesNeverOverwrite | research/indomitable/scripts/post_event.py:131-134 | a reported value is never overwritten by an alias, and values stay present |
| PostEvent.AliasFills | research/indomitable/scripts/post_event.py:131-134 | an alternate name that was reported fills its canonical name when that name was not reported |
| PostEvent.AliasesAreNotCanonical | research/indomitable/scripts/post_event.py:118-130 | no canonical name is itself an alternate, so the pass reads only reported values |
| PostEvent.BuildActualsFromMetrics | research/indomitable/scripts/post_event.py:109-136 | the actuals are the reported values with the aliases applied, and every value is present (None values dropped) |
| PostEvent.ToModel | research/indomitable/scripts/post_event.py:141-149 | each stored bound is read by truthiness, so a stored 0 becomes None |
| PostEvent.ModelList | research/indomitable/scripts/post_event.py:140-150 | one model expectation per stored expectation, in order |
| PostEvent.ZeroBoundNeverWithin | research/indomitable/scripts/post_event.py:141-149 | an expectation with a stored zero low or high bound is never within range |
| PostEvent.ScoreExpectations | research/indomitable/scripts/post_event.py:139-150 | the stored expectations, read by truthiness, scored by the model |
| PostEvent.ResultsMap | research/indomitable/scripts/post_event.py:158 | the lookup holds exactly the metrics that have a result |
| PostEvent.ScoredFrom | research/indomitable/scripts/post_event.py:160-163 | every scored result comes from an expectation whose metric has an actual |
| PostEvent.ScoredCovers | research/indomitable/scripts/post_event.py:160-163 | every expectation whose metric has an actual is scored |
| PostEvent.Matched | research/indomitable/scripts/post_event.py:160-163 | only expectations whose metric has an actual are matched |
| PostEvent.SavedRowsFollowMatched | research/indomitable/scripts/post_event.py:160-178 | one inserted row per expectation with a result, in expectation order |
| PostEvent.OneRowPerMatchedExpectation | research/indomitable/scripts/post_event.py:153-181 | after scoring, exactly one row per expectation whose metric has an actual is saved, in order, and none for the others |
| PostEvent.SaveResults | research/indomitable/scripts/post_event.py:153-181 | the results table gains exactly the specified rows |
| PostEvent.MarkKills | research/indomitable/scripts/post_event.py:431-440 | every untriggered criterion is checked, and each one that triggers is marked with 'Post-event: actual' evidence |
| PostEvent.CriteriaChecks | research/indomitable/scripts/post_event.py:431-432 | one check per criterion, in order |
| PostEvent.PostEventAssess | research/indomitable/scripts/post_event.py:449-461 | with both bounds it assesses like the monitor, with a delta when the midpoint is positive; with a bound missing it is delivered with no delta |
| PostEvent.LowOnlyRulesDiffer | research/indomitable/scripts/post_event.py:449-461 | on a promise with only a low bound the monitor reports a miss where post-event reports a delivery |
| PostEvent.SettlePromises | research/indomitable/scripts/post_event.py:444-472 | settling keeps the scorecard size |
| PostEvent.PromiseResults | research/indomitable/scripts/post_event.py:444-472 | at most one result per pending entry |
| PostEvent.SettledNotPending | research/indomitable/scripts/post_event.py:444-466 | every matched pending entry is assessed afterwards, so it is never settled twice |
| PostEvent.AssessPromise | research/indomitable/scripts/post_event.py:449-461 | the loop body computes exactly the post-event assessment and delta |
| PostEvent.SettleScorecard | research/indomitable/scripts/post_event.py:442-472 | the loop updates exactly the matched pending entries and returns their results |
| PostEvent.OpenHypotheses | research/indomitable/scripts/post_event.py:83-93 | exactly the thesis's active, strengthened and weakened hypotheses; a disproved one is never offered |
| PostEvent.AppliedRows | research/indomitable/scripts/post_event.py:490-503 | applying updates keeps the table size |
| PostEvent.ActiveUpdateAppliedOnlyHere | research/indomitable/scripts/post_event.py:490-503 | post-event applies an update that keeps 'active' (taking its confidence, 50 by default) where the monitor leaves the row untouched |
| PostEvent.ApplyUpdates | research/indomitable/scripts/post_event.py:489-514 | every update naming a hypothesis is applied with defaults and logged as evidence citing the filing |
| PostEvent.ApplyUpdate | research/indomitable/scripts/post_event.py:494-514 | an update without a hypothesis id changes nothing; any other rewrites its hypothesis with the defaulted status and confidence and logs one evidence row citing the filing |
| PostEvent.IconFor | research/indomitable/scripts/post_event.py:291 | a check iff within range; a warning iff outside with a non-zero gap of at most 15 %; a cross otherwise |
| PostEvent.IconAgreesWithImpact | research/indomitable/scripts/post_event.py:291 | a result within range never shows a cross; one outside with a zero gap always does |
| PostEvent.ScoreFiling | research/indomitable/scripts/post_event.py:397-535 | with no published expectations, or with no actuals, nothing changes; otherwise results are scored, kills marked, promises settled, result rows saved and one 'post_event_scored' decision logged; with an interpretation every hypothesis update is applied and its evidence logged, without one the hypothesis table is untouched; the report carries the kill checks of the untriggered criteria and the results of the pending promises |
| ThesisGeneration.NumOf | research/indomitable/scripts/generate_thesis.py:329-331 | a numeric field is read exactly when the key holds a number |
| ThesisGeneration.InputsAreNotDerived | research/indomitable/scripts/generate_thesis.py:326-383 | no key the derivation reads is one it writes |
| ThesisGeneration.CapexMid | research/indomitable/scripts/generate_thesis.py:347-349 | the single capex value when truthy; otherwise the mean of low and high (high defaulting to 0) when low is truthy, else None; a non-numeric stored high makes the addition raise |
| ThesisGeneration.GapEnds | research/indomitable/scripts/generate_thesis.py:328-341 | the gap exists exactly when both entries are non-empty, OCF has a value and capex a low or single value; its ends are the rounded shortfalls of the low and high capex, ordered |
| ThesisGeneration.CapexIncrease | research/indomitable/scripts/generate_thesis.py:343-357 | raises exactly when the midpoint raises; a written percentage needs a positive prior (value or high) and a truthy midpoint and is within 0.05 of the change |
| ThesisGeneration.HedgeCoverage | research/indomitable/scripts/generate_thesis.py:359-371 | defined exactly for non-empty entries with truthy volumes and positive production, within 0.05 of the hedged share in percent |
| ThesisGeneration.Breakeven | research/indomitable/scripts/generate_thesis.py:373-394 | nothing is computed when a breakeven exists; otherwise it needs truthy inputs with positive production and price, is within 0.005 of capex midpoint times price over OCF, and does not check the sign of OCF |
| ThesisGeneration.NegativeOcfGivesNegativeBreakeven | research/indomitable/scripts/generate_thesis.py:384-388 | with no OCF guard a negative operating cash flow produces a negative breakeven price |
| ThesisGeneration.WritesWithinChain | research/indomitable/scripts/generate_thesis.py:325-394 | changes confined to two key sets compose into changes confined to their union |
| ThesisGeneration.GapStep | research/indomitable/scripts/generate_thesis.py:325-341 | the gap step writes only the funding_gap key, and writes it whenever the gap exists |
| ThesisGeneration.IncreaseStep | research/indomitable/scripts/generate_thesis.py:343-357 | the increase step completes unless the midpoint raises, writing only capex_increase_pct |
| ThesisGeneration.HedgeStep | research/indomitable/scripts/generate_thesis.py:359-371 | the hedge step writes only hedge_coverage_pct |
| ThesisGeneration.BreakevenStep | research/indomitable/scripts/generate_thesis.py:373-394 | the breakeven step leaves a map with a breakeven unchanged and otherwise writes only breakeven_price |
| ThesisGeneration.SameInputs | research/indomitable/scripts/generate_thesis.py:325-383 | writing only derived keys leaves every input the later steps read unchanged |
| ThesisGeneration.DeriveOnlyWritesDerived | research/indomitable/scripts/generate_thesis.py:322-396 | the derivation only adds or overwrites derived keys, deletes nothing and keeps an existing breakeven |
| ThesisGeneration.DerivedGapOrdered | research/indomitable/scripts/generate_thesis.py:335-341 | the funding gap written has low <= high |
| ThesisGeneration.GapEntryReads | research/indomitable/scripts/generate_thesis.py:335-341 | the written gap entry reads back its low and high ends |
| ThesisGeneration.DeriveIdempotent | research/indomitable/scripts/generate_thesis.py:322-396 | running the derivation on its own result changes nothing |
| ThesisGeneration.FundingGap | research/indomitable/scripts/generate_thesis.py:325-341 | the in-place gap step leaves exactly the specified map |
| ThesisGeneration.CapexIncreasePct | research/indomitable/scripts/generate_thesis.py:343-357 | the in-place increase step leaves exactly the specified map, or reports the raise |
| ThesisGeneration.HedgeCoveragePct | research/indomitable/scripts/generate_thesis.py:359-371 | the in-place hedge step leaves exactly the specified map |
| ThesisGeneration.BreakevenPrice | research/indomitable/scripts/generate_thesis.py:373-394 | the in-place breakeven step leaves exactly the specified map, or reports the raise |
| ThesisGeneration.ComputeDerivedClaims | research/indomitable/scripts/generate_thesis.py:322-396 | raises exactly when the specification does; otherwise the dictionary becomes the specified derivation (an empty one unchanged) |
| ThesisGeneration.PruneInactive | research/indomitable/scripts/generate_thesis.py:404-407 | exactly the company's inactive bull theses are deleted |
| ThesisGeneration.DeactivateBull | research/indomitable/scripts/generate_thesis.py:408-411 | exactly the company's active bull theses are deactivated and stamped; every other row is unchanged |
| ThesisGeneration.PruneKeepsSerial | research/indomitable/scripts/generate_thesis.py:404-407 | deleting rows keeps the ids serial |
| ThesisGeneration.CompanyTheses.SaveThesis | research/indomitable/scripts/generate_thesis.py:399-438 | prune, deactivate, then append the new active bull thesis under the next id, expiring a year later |
| ThesisGeneration.SaveLeavesOneActiveBull | research/indomitable/scripts/generate_thesis.py:399-438 | after saving, the new thesis is the company's only active bull thesis, and theses of other companies or types are untouched |
| ThesisApproval.OrZero | research/archives/indomitable-2026-02-14-backup/scripts/approve_thesis.py:121 | a missing probability counts as 0, a stored (fractional) percentage as itself |
| ThesisApproval.ProbabilityWarningBand | research/archives/indomitable-2026-02-14-backup/scripts/approve_thesis.py:121-123 | the review is silent exactly when the three probabilities sum to a value from 99 to 101, ends included, fractional totals such as 99.9 among them |
| ThesisApproval.MissingProbabilitiesCountAsZero | research/archives/indomitable-2026-02-14-backup/scripts/approve_thesis.py:121-123 | a lone bull probability of 100 or bull and base of 50 each pass; 60 and 30 warn; three of 33.3 and the defaults 50, 30, 20 pass |
| ThesisApproval.FindThesis | research/archives/indomitable-2026-02-14-backup/scripts/approve_thesis.py:177-182 | the first row with the requested id, or None only when no row has it |
| ThesisApproval.ApproveRows | research/archives/indomitable-2026-02-14-backup/scripts/approve_thesis.py:187-200 | each row is transformed by the two updates independently and the table keeps its size |
| ThesisApproval.ApprovalLeavesOneActive | research/archives/indomitable-2026-02-14-backup/scripts/approve_thesis.py:172-215 | the approved thesis becomes the only active thesis of its company, approved and no longer a draft; other companies' theses are untouched |
| ThesisApproval.ApprovalIdempotent | research/archives/indomitable-2026-02-14-backup/scripts/approve_thesis.py:187-200 | approving the same thesis again at the same time changes nothing |
| ThesisApproval.ApproveThesis | research/archives/indomitable-2026-02-14-backup/scripts/approve_thesis.py:172-215 | an unknown id changes nothing and returns false; otherwise the transition is applied and one 'thesis_approved' decision is logged |
| ThesisApproval.Review | research/archives/indomitable-2026-02-14-backup/scripts/approve_thesis.py:218-267 | the drafts are listed iff list mode or no (or a zero) id is given; approval happens only for a found draft the operator confirms; an already-approved thesis is refused; anything but approval changes nothing |
| Synthesis.ModeReportType | research/indomitable/scripts/synthesize_intelligence.py:27-56 | no mode's vocabulary assigns a contrarian alert |
| Synthesis.DetermineMode | research/indomitable/scripts/synthesize_intelligence.py:66-129 | with a calendar: earnings review iff the last release is at most 7 days ago and the filing at most 7 days old; pre-earnings iff not in that window and the next release is 0..14 days ahead; without one: review iff the filing is at most 7 days old, pre-earnings iff over 60 |
| Synthesis.EarningsReviewNeedsFreshFiling | research/indomitable/scripts/synthesize_intelligence.py:110-125 | an earnings review is only ever chosen for a filing at most a week old |
| Synthesis.ReviewWindowHasPriority | research/indomitable/scripts/synthesize_intelligence.py:110-119 | a release at most a week ago never yields pre-earnings, whatever the next date is |
| Synthesis.ReportedQuarterIsPrevious | research/indomitable/scripts/synthesize_intelligence.py:140-147 | the reported quarter is the calendar quarter before the release's own; January to March give Q4 of the previous year |
| Synthesis.ReportedQuarterExamples | research/indomitable/scripts/synthesize_intelligence.py:137-147 | releases in February, April and October report Q4 of the prior year, Q1 and Q3 |
| Synthesis.DetermineReportMode | research/indomitable/scripts/synthesize_intelligence.py:66-177 | the record carries the chosen mode and the quarter labels of the next and last releases, with the fallback labels when a date is missing, the days to the next release and since the last one (present exactly when that date is), and the filing age |
| Synthesis.ConsensusStrength | research/indomitable/scripts/synthesize_intelligence.py:713-738 | no recommendations or a zero total gives 0 |
| Synthesis.WeightBounds | research/indomitable/scripts/synthesize_intelligence.py:733-737 | a mean weight in [-2, 2] maps into [0, 1] |
| Synthesis.ConsensusInUnitInterval | research/indomitable/scripts/synthesize_intelligence.py:713-738 | with non-negative counts the strength lies in [0, 1] |
| Synthesis.ConsensusUnanimousBuy | research/indomitable/scripts/synthesize_intelligence.py:713-738 | unanimous strong buys give 1 |
| Synthesis.ConsensusUnanimousSell | research/indomitable/scripts/synthesize_intelligence.py:713-738 | unanimous strong sells give 0 |
| Synthesis.Band | research/indomitable/scripts/synthesize_intelligence.py:854-860 | immediate iff the score is at least 50, daily digest iff 25 to 49, weekly rollup otherwise |
| Synthesis.BandMonotone | research/indomitable/scripts/synthesize_intelligence.py:854-860 | a higher score never lands in a lower band |
| Synthesis.Phase1 | research/indomitable/scripts/synthesize_intelligence.py:765-788 | the phase-1 score is a sum of present signals' points, between 0 and 65 |
| Synthesis.AgeDampener | research/indomitable/scripts/synthesize_intelligence.py:824-845 | the age dampener lies in [0.2, 1], and is 1 around earnings and for filings at most two weeks old |
| Synthesis.Dampen | research/indomitable/scripts/synthesize_intelligence.py:843-845 | truncating a non-negative score dampened by a factor in [0, 1] keeps it between 0 and the score |
| Synthesis.ConsensusDampener | research/indomitable/scripts/synthesize_intelligence.py:847-851 | the consensus dampener lies in [0.5, 1] for a strength of at most 1 |
| Synthesis.DampenersNeverRaise | research/indomitable/scripts/synthesize_intelligence.py:824-852 | with non-negative recommendation counts no dampener raises the score, and the score never goes negative |
| Synthesis.AgeIgnoredAroundEarnings | research/indomitable/scripts/synthesize_intelligence.py:824-828 | around earnings the filing's age does not affect the score |
| Synthesis.ModeReportTypeOr | research/indomitable/scripts/synthesize_intelligence.py:799-800 | the mode's report type or a non-alert fallback is never a contrarian alert |
| Synthesis.ValidatedReportType | research/indomitable/scripts/synthesize_intelligence.py:798-822 | the report type is a contrarian alert exactly when the briefing has a contrarian thesis |
| Synthesis.ReportType | research/indomitable/scripts/synthesize_intelligence.py:798-836 | a contrarian alert always has a contrarian thesis, and a contrarian thesis keeps its alert around earnings or for filings at most 60 days old |
| Synthesis.StaleContrarianDowngraded | research/indomitable/scripts/synthesize_intelligence.py:829-836 | outside earnings, a contrarian alert on a filing over 60 days old becomes 'update' in update mode and 'earnings_briefing' without a mode |
| Synthesis.ScorePhase1 | research/indomitable/scripts/synthesize_intelligence.py:765-788 | the additions compute exactly the phase-1 score |
| Synthesis.ChooseReportType | research/indomitable/scripts/synthesize_intelligence.py:798-822 | the reassignments compute exactly the validated report type |
| Synthesis.ApplyAge | research/indomitable/scripts/synthesize_intelligence.py:824-845 | the age step downgrades a stale alert outside earnings and applies the age dampener only there and only past two weeks |
| Synthesis.ComputeUrgency | research/indomitable/scripts/synthesize_intelligence.py:741-865 | returns the phase-1 score, the dampened phase-2 score, the final report type and the band of the phase-2 score |
| Synthesis.ComputeMateriality | research/indomitable/scripts/synthesize_intelligence.py:941-949 | high iff a material change or contrarian signal is flagged; low iff neither and fewer than three key numbers |
| Synthesis.ContrarianThesisIsMaterial | research/indomitable/scripts/synthesize_intelligence.py:941-949 | a briefing with a contrarian thesis is always highly material |
| SynthesisValidation.ValidateEntry | research/indomitable/scripts/synthesize_intelligence.py:975-1003 | a bare string becomes an unverified entry with empty evidence and source 'unknown'; a dictionary keeps its fields and is verified iff its signal quotes no number missing from a non-empty set of evidence numbers |
| SynthesisValidation.EntryNotes | research/indomitable/scripts/synthesize_intelligence.py:976-1000 | an entry adds at most one log line, and none exactly when it ends verified |
| SynthesisValidation.ValidatedEntries | research/indomitable/scripts/synthesize_intelligence.py:974-1003 | one validated entry per entry, in order |
| SynthesisValidation.OneNotePerUnverifiedEntry | research/indomitable/scripts/synthesize_intelligence.py:975-1003 | the log has exactly one line per entry of the category that ends unverified |
| SynthesisValidation.EvidenceWithoutNumbersVerifies | research/indomitable/scripts/synthesize_intelligence.py:992-1000 | evidence that quotes no number cannot contradict its signal |
| SynthesisValidation.QuotedSignalVerifies | research/indomitable/scripts/synthesize_intelligence.py:988-1000 | a signal whose every number appears in its evidence is verified |
| SynthesisValidation.RevalidationOfLegacyEntry | research/indomitable/scripts/synthesize_intelligence.py:976-1000 | a converted legacy string has empty evidence, so a second pass marks it verified |
| SynthesisValidation.RevalidationOfStructuredEntry | research/indomitable/scripts/synthesize_intelligence.py:984-1003 | validating a dictionary entry twice gives the same entry as once |
| SynthesisValidation.LaterCategoryUntouched | research/indomitable/scripts/synthesize_intelligence.py:972-1005 | a category not yet reached still holds its original entries |
| SynthesisValidation.ValidatedMapContents | research/indomitable/scripts/synthesize_intelligence.py:961-1008 | afterwards the three categories hold their validated entries (an absent one becomes present and empty), and every other key is unchanged |
| SynthesisValidation.ValidateCategory | research/indomitable/scripts/synthesize_intelligence.py:973-1005 | the loop over one category computes its validated entries and its log lines |
| SynthesisValidation.ValidateSignalEntry | research/indomitable/scripts/synthesize_intelligence.py:976-1003 | one entry becomes its validated form and logs exactly the line the specification assigns it: a legacy line for a bare string, a mismatch line when the signal quotes a number its evidence lacks while the evidence quotes numbers, nothing otherwise |
| SynthesisValidation.FieldsToCheck | research/indomitable/scripts/synthesize_intelligence.py:1040-1043 | why_it_matters is always checked; the two thresholds exactly outside an earnings review |
| SynthesisValidation.CloseIsRatio | research/indomitable/scripts/synthesize_intelligence.py:1057 | the division-free closeness test holds exactly when the ratio of the larger to the smaller of two positive numbers is above 1 and at most 1.25 |
| SynthesisValidation.TokensCloseSymmetric | research/indomitable/scripts/synthesize_intelligence.py:1054-1058 | closeness of two number tokens does not depend on their order |
| SynthesisValidation.TokensCloseExamples | research/indomitable/scripts/synthesize_intelligence.py:1051-1064 | an estimate of 29.5 flags a field quoting 32 but not one quoting 40, nor 29.5 itself |
| SynthesisValidation.AgainstEstimatesEmpty | research/indomitable/scripts/synthesize_intelligence.py:1054-1066 | a field token adds no line exactly when it is close to none of the estimate tokens |
| SynthesisValidation.TokenNotesEmpty | research/indomitable/scripts/synthesize_intelligence.py:1051-1066 | a field token adds no line exactly when it is not flagged (quoted verbatim, or close to no estimate token) |
| SynthesisValidation.FieldTokensNotesEmpty | research/indomitable/scripts/synthesize_intelligence.py:1051-1066 | a field's tokens add no line exactly when none of them is flagged |
| SynthesisValidation.FieldNotesEmpty | research/indomitable/scripts/synthesize_intelligence.py:1046-1066 | a field adds no line exactly when it is not flagged; empty fields are skipped |
| SynthesisValidation.FieldsNotesEmpty | research/indomitable/scripts/synthesize_intelligence.py:1045-1066 | the checked fields add no line exactly when none is flagged |
| SynthesisValidation.UnverifiedIffFlagged | research/indomitable/scripts/synthesize_intelligence.py:1028-1068 | an entry ends unverified exactly when one of its checked fields quotes a number close to but different from an estimate number |
| SynthesisValidation.EstimateWithoutNumbersVerifies | research/indomitable/scripts/synthesize_intelligence.py:1033-1036 | an estimate that quotes no number leaves the entry verified |
| SynthesisValidation.VerbatimNumbersVerify | research/indomitable/scripts/synthesize_intelligence.py:1051-1053 | fields that quote only the estimate's own numbers are verified |
| SynthesisValidation.EarningsReviewIgnoresThresholds | research/indomitable/scripts/synthesize_intelligence.py:1040-1041 | in an earnings review two entries agreeing on the estimate and why_it_matters get the same verdict, whatever their thresholds |
| SynthesisValidation.ValidatedNumbers | research/indomitable/scripts/synthesize_intelligence.py:1028-1068 | one validated entry per entry, in order |
| SynthesisValidation.NumbersStep | research/indomitable/scripts/synthesize_intelligence.py:1028-1068 | one more entry adds its validated entry and its log lines at the end |
| SynthesisValidation.CheckToken | research/indomitable/scripts/synthesize_intelligence.py:1051-1066 | the inner loop computes exactly one token's log lines |
| SynthesisValidation.CheckField | research/indomitable/scripts/synthesize_intelligence.py:1045-1066 | the field loop computes exactly one field's log lines |
| SynthesisValidation.CheckNumberEntry | research/indomitable/scripts/synthesize_intelligence.py:1029-1068 | one entry's log lines are computed, and it is verified iff there are none |
| SynthesisValidation.ValidateNumberEntry | research/indomitable/scripts/synthesize_intelligence.py:1028-1068 | one loop pass returns the entry with its flag set and its log lines |
| SynthesisValidation.ValidateNumberList | research/indomitable/scripts/synthesize_intelligence.py:1028-1068 | the entry loop returns every validated entry and the whole log |
| SynthesisValidation.SynthesisRecord.ValidateSignalMap | research/indomitable/scripts/synthesize_intelligence.py:952-1008 | the signal map is rewritten in place to the validated map, the log is returned, and the numbers are untouched |
| SynthesisValidation.SynthesisRecord.ValidateNumbers | research/indomitable/scripts/synthesize_intelligence.py:1011-1071 | each number entry gets its flag in place, the log is returned, and the signal map is untouched |
| ExternalData.MonthCodeInjective | research/indomitable/scripts/external_data.py:25-28 | different months have different futures month codes |
| ExternalData.TargetMonth | research/indomitable/scripts/external_data.py:33-36 | the target month stays in 1..12 and the month count advances by exactly the horizon |
| ExternalData.YearSuffixInjective | research/indomitable/scripts/external_data.py:37 | within one century the two-digit year suffix determines the year |
| ExternalData.DistinctHorizonsDistinctTickers | research/indomitable/scripts/external_data.py:31-38 | two different horizons whose contracts expire this century get different tickers |
| ExternalData.NymexTickerExamples | research/indomitable/scripts/external_data.py:31-38 | three months after October 2026 is NGF27.NYM, two months after is NGZ26.NYM |
| ExternalData.QuotedPoints | research/indomitable/scripts/external_data.py:123-127 | exactly the quotes with a truthy price become points, never more than given |
| ExternalData.PointLeTotal | research/indomitable/scripts/external_data.py:132 | the tuple order the curve is sorted by is a total preorder |
| ExternalData.Within | research/indomitable/scripts/external_data.py:136 | exactly the curve points at most the horizon out, in curve order |
| ExternalData.WithinSorted | research/indomitable/scripts/external_data.py:136 | filtering a sorted curve keeps it sorted |
| ExternalData.PartialWeight | research/indomitable/scripts/external_data.py:145-153 | the first weights add up to the midpoint of the last two months less the first month |
| ExternalData.WeightsSpanCurve | research/indomitable/scripts/external_data.py:145-153 | the trapezoid weights telescope to the span from the first to the last month |
| ExternalData.WeightNonNegative | research/indomitable/scripts/external_data.py:145-151 | on a curve ordered by month every weight is non-negative |
| ExternalData.ValueBetween | research/indomitable/scripts/external_data.py:145-153 | the accumulated value lies between the lowest and highest price times the accumulated weight |
| ExternalData.ValueStep | research/indomitable/scripts/external_data.py:152-153 | one accumulation step keeps the value between those bounds |
| ExternalData.WeightedMeanWithinPrices | research/indomitable/scripts/external_data.py:135-153 | on a curve sorted by month the weighted mean lies between the lowest and the highest price |
| ExternalData.DistinctMonthsGiveAverage | research/indomitable/scripts/external_data.py:135-153 | on a sorted curve with distinct months, two or more points within the horizon always give an average |
| ExternalData.WeightedAverage | research/indomitable/scripts/external_data.py:135-153 | the trapezoid loop computes exactly the specified weighted average |
| ExternalData.TrapezoidWeight | research/indomitable/scripts/external_data.py:145-150 | a point's weight is half the gap to its neighbour at either end and half the gap between its two neighbours inside |
| ExternalData.TrapezoidSums | research/indomitable/scripts/external_data.py:141-152 | the loop accumulates exactly the specified total weight and total weighted value over every filtered point |
| ExternalData.ContractMonth | research/indomitable/scripts/external_data.py:170 | the contract month lies in 1..12 |
| ExternalData.SeasonPrices | research/indomitable/scripts/external_data.py:168-174 | a season never has more prices than the curve has points |
| ExternalData.SeasonsPartition | research/indomitable/scripts/external_data.py:168-174 | every curve point lands in exactly one of the winter and summer lists |
| ExternalData.Prices | research/indomitable/scripts/external_data.py:163 | the prices of the curve, one per point, in order |
| ExternalData.StripAverage | research/indomitable/scripts/external_data.py:118-182 | the result is empty exactly when no quote has a truthy price |
| ExternalData.CurveSortedPermutation | research/indomitable/scripts/external_data.py:129-159 | the curve points are sorted and hold exactly the quoted points |
| ExternalData.SomeSeasonPresent | research/indomitable/scripts/external_data.py:176-179 | a non-empty result always has at least one season strip |
| ExternalData.SplitSeasons | research/indomitable/scripts/external_data.py:166-174 | the season loop computes exactly the winter and summer price lists |
| ExternalData.CollectPoints | research/indomitable/scripts/external_data.py:123-127 | the collecting loop computes exactly the quoted points |
| ExternalData.ComputeStripAverage | research/indomitable/scripts/external_data.py:118-182 | the whole computation returns exactly the specified summary |
| ExternalData.NormalizeDataDate | research/indomitable/scripts/external_data.py:220-222 | a seven-character date gets '-01' appended; any other date is kept |
| ExternalData.NormalizeDataDateIdempotent | research/indomitable/scripts/external_data.py:220-222 | normalising a date twice is the same as once |
| ExternalData.Earliest | research/indomitable/scripts/external_data.py:465 | the minimum is one of the dates and no date is before it |
| ExternalData.Latest | research/indomitable/scripts/external_data.py:467 | the maximum is one of the dates and no date is after it |
| ExternalData.DatesOnSide | research/indomitable/scripts/external_data.py:450-461 | exactly the parsed dates strictly after today, or on or before it |
| ExternalData.EarningsCalendar | research/indomitable/scripts/external_data.py:446-473 | no calendar exactly when no date parses; otherwise at least one of next and last is present |
| ExternalData.EarningsCalendarChoice | research/indomitable/scripts/external_data.py:463-467 | next is the earliest parsed date after today and last the latest on or before today, each absent only when no such date exists |
| ExternalData.SplitDates | research/indomitable/scripts/external_data.py:450-461 | the parsing loop splits the parsed dates into exactly the past and future lists |
| ExternalData.SelectEarningsDates | research/indomitable/scripts/external_data.py:446-473 | the selection step computes exactly the specified calendar |
| ExternalData.TranscriptQuarter | research/indomitable/scripts/external_data.py:701-707 | the transcript quarter lies in 1..4 |
| ExternalData.TranscriptQuarterIsReportedQuarter | research/indomitable/scripts/external_data.py:701-707 | the transcript lookup targets the quarter the synthesis stage labels as reported (Q4 of last year in January to March) |
| ExternalData.PlaceholderScalesToNothing | research/indomitable/scripts/external_data.py:1186-1202 | a placeholder text is not a number either, so it parses to nothing after cleaning too |
| ExternalData.NotAvailableIsNotANumber | research/indomitable/scripts/external_data.py:1186-1202 | 'N/A' is not a number |
| ExternalData.DoubleDashIsNotANumber | research/indomitable/scripts/external_data.py:1186-1202 | '--' is not a number |
| ExternalData.PlaceholderIsClean | research/indomitable/scripts/external_data.py:1186-1188 | placeholders contain no dollar sign, comma or surrounding space |
| ExternalData.CleanCellIdempotent | research/indomitable/scripts/external_data.py:1188 | cleaning a cell twice is the same as once |
| ExternalData.ParseValIgnoresCurrencyFormatting | research/indomitable/scripts/external_data.py:1185-1202 | parsing a cell and parsing its cleaned text agree on every input |
| ExternalData.ParseValExamples | research/indomitable/scripts/external_data.py:1185-1202 | 'N/A' parses to nothing and '12B' to twelve billion |
| Differential.ByName | research/indomitable/scripts/differential_analysis.py:147-148 | one entry per metric name, each holding a row of that name |
| Differential.ByNameLastWins | research/indomitable/scripts/differential_analysis.py:147-148 | of several rows with the same name the dictionary keeps the last |
| Differential.NameOrder | research/indomitable/scripts/differential_analysis.py:159 | the dictionary's keys, each once, in first-occurrence order |
| Differential.PctChangeSign | research/indomitable/scripts/differential_analysis.py:168-169 | the percentage change is positive exactly when the value rose and negative exactly when it fell |
| Differential.MakeChange | research/indomitable/scripts/differential_analysis.py:171-178 | a changed entry carries the name, both values and the unit; a difference exactly when both values are truthy |
| Differential.ChangeFigures | research/indomitable/scripts/differential_analysis.py:166-178 | the difference is non-zero and points the way the value moved; the percentage is present exactly for a truthy previous value, within 0.005 of the change relative to the previous magnitude, with the sign of the move |
| Differential.AnyRaisesStep | research/indomitable/scripts/differential_analysis.py:159-181 | a name that does not raise keeps the scan free of the error |
| Differential.AnyRaisesAt | research/indomitable/scripts/differential_analysis.py:159-181 | one raising name makes the whole scan raise |
| Differential.AnalyzeMetricChanges | research/indomitable/scripts/differential_analysis.py:143-187 | the two loops compute exactly the specified buckets, or the error |
| Differential.CollectCurrent | research/indomitable/scripts/differential_analysis.py:159-181 | the first loop fills new, changed and unchanged exactly as specified, stopping at the error |
| Differential.CollectRemoved | research/indomitable/scripts/differential_analysis.py:183-185 | the second loop collects exactly the previous metrics the current filing lacks |
| Differential.NewMetricsMembers | research/indomitable/scripts/differential_analysis.py:160-161 | a metric is new exactly when the current filing has it and the previous does not |
| Differential.ChangedMetricsMembers | research/indomitable/scripts/differential_analysis.py:166-178 | a metric is changed exactly when both filings have it and its values differ |
| Differential.UnchangedMetricsMembers | research/indomitable/scripts/differential_analysis.py:179-181 | a metric is unchanged exactly when both have it with equal values |
| Differential.RemovedMetricsMembers | research/indomitable/scripts/differential_analysis.py:183-185 | a metric is removed exactly when the previous filing has it and the current does not |
| Differential.BucketSizes | research/indomitable/scripts/differential_analysis.py:159-181 | new, changed and unchanged together hold one entry per current name |
| Differential.MetricChangesPartition | research/indomitable/scripts/differential_analysis.py:143-187 | a completed comparison puts every current metric in exactly one of new, changed and unchanged, and lists as removed exactly the previous names absent from current |
| Differential.RaisedHasWitness | research/indomitable/scripts/differential_analysis.py:166-169 | a raised comparison has a metric whose truthy previous value has no current value |
| Differential.WitnessRaises | research/indomitable/scripts/differential_analysis.py:166-169 | such a metric makes the comparison raise |
| Differential.RaisesIffMissingCurrent | research/indomitable/scripts/differential_analysis.py:166-169 | the comparison raises exactly when some metric in both filings has a truthy previous value and no current value |
| Differential.Consecutive | research/indomitable/scripts/differential_analysis.py:73-80 | n filings give n - 1 pairs, each filing paired with the next one |
| Differential.PairUp | research/indomitable/scripts/differential_analysis.py:73-80 | the pairing loop computes exactly the consecutive pairs |
| Differential.QuarterOrder | research/indomitable/scripts/differential_analysis.py:83-89 | each quarter once, exactly the quarters present, in first-seen order |
| Differential.Group | research/indomitable/scripts/differential_analysis.py:83-89 | exactly the filings of one quarter, in their original order |
| Differential.YearDescPreorder | research/indomitable/scripts/differential_analysis.py:92 | sorting by year descending is by a total preorder |
| Differential.GetComparablePairs | research/indomitable/scripts/differential_analysis.py:72-99 | the pairing computes the annual consecutive pairs followed by each quarter's pairs |
| Differential.PairQuarters | research/indomitable/scripts/differential_analysis.py:91-99 | each quarter's group is sorted newest year first and then paired |
| Differential.GroupByQuarter | research/indomitable/scripts/differential_analysis.py:82-89 | the dictionary holds exactly the present quarters in first-seen order, each with its filings in order |
| Differential.NoGroupYet | research/indomitable/scripts/differential_analysis.py:83-89 | a quarter not yet seen has no filings |
| Differential.QuarterSetMembers | research/indomitable/scripts/differential_analysis.py:83-89 | every filing's quarter is among the grouped quarters |
| Differential.QuarterPairsSameQuarter | research/indomitable/scripts/differential_analysis.py:91-99 | every quarterly pair compares two filings of the same quarter, the current one from the same or a later year |
| Differential.MaterialityLevel | research/indomitable/scripts/differential_analysis.py:363 | high for a score of 7 or more, medium for 4 to 7, low below 4; a missing score counts as 5 |
| FilingProcessing.Put | research/archives/indomitable-2026-02-14-backup/scripts/process_filings.py:116 | the dictionary maps the key to the new text and keeps every other entry |
| FilingProcessing.PutValid | research/archives/indomitable-2026-02-14-backup/scripts/process_filings.py:116 | assigning into the sections dictionary keeps its keys distinct and each key mapped |
| FilingProcessing.StartsBeforePreorder | research/archives/indomitable-2026-02-14-backup/scripts/process_filings.py:102 | sorting the headings by position is by a total preorder |
| FilingProcessing.Candidates | research/archives/indomitable-2026-02-14-backup/scripts/process_filings.py:105-113 | one candidate per heading: its section name and the stripped text up to the next heading or the end |
| FilingProcessing.CollectStep | research/archives/indomitable-2026-02-14-backup/scripts/process_filings.py:105-117 | one step of the loop adds a candidate of more than 100 characters and skips a shorter one |
| FilingProcessing.CollectValid | research/archives/indomitable-2026-02-14-backup/scripts/process_filings.py:105-117 | the collected sections form a dictionary with distinct names |
| FilingProcessing.ExtractSectionsValid | research/archives/indomitable-2026-02-14-backup/scripts/process_filings.py:83-122 | what extract_sections returns is a dictionary: distinct names, each with its text |
| FilingProcessing.ExtractSectionsLoop | research/archives/indomitable-2026-02-14-backup/scripts/process_filings.py:83-122 | the loop computes exactly the specified sections, including the "Full Document" fallbacks |
| FilingProcessing.CollectHolds | research/archives/indomitable-2026-02-14-backup/scripts/process_filings.py:105-117 | a name is kept exactly when some candidate of that name has more than 100 characters, and it holds the last such text |
| FilingProcessing.SectionsAreLongSpans | research/archives/indomitable-2026-02-14-backup/scripts/process_filings.py:102-117 | every section of a typed filing that did not fall back is the stripped text between a heading and the next and has more than 100 characters |
| FilingProcessing.SpansWithinText | research/archives/indomitable-2026-02-14-backup/scripts/process_filings.py:102-112 | once sorted, each section's span starts no later than it ends and ends within the text |
| FilingProcessing.ClosedKeeps | research/archives/indomitable-2026-02-14-backup/scripts/process_filings.py:172-173 | closing the last chunk keeps every chunk within budget and loses no piece |
| FilingProcessing.AddPieceKeeps | research/archives/indomitable-2026-02-14-backup/scripts/process_filings.py:149-170 | placing a paragraph or sentence keeps every chunk within budget and appends exactly that piece |
| FilingProcessing.AddPiecesKeeps | research/archives/indomitable-2026-02-14-backup/scripts/process_filings.py:149-159 | placing the sentences of an oversized paragraph keeps every chunk within budget and appends them in order |
| FilingProcessing.FeedKeeps | research/archives/indomitable-2026-02-14-backup/scripts/process_filings.py:136-170 | one paragraph keeps every chunk within budget and contributes the paragraph, or its sentences when it is oversized |
| FilingProcessing.FeedAllKeeps | research/archives/indomitable-2026-02-14-backup/scripts/process_filings.py:130-173 | the whole paragraph loop keeps the invariant and holds exactly the pieces in order |
| FilingProcessing.ChunkPiecesCorrect | research/archives/indomitable-2026-02-14-backup/scripts/process_filings.py:124-175 | laid end to end the chunks are exactly the paragraphs in order, oversized ones replaced by their sentences; every chunk is non-empty and within the token budget unless it is a single oversized piece |
| FilingProcessing.ParagraphsRebuildText | research/archives/indomitable-2026-02-14-backup/scripts/process_filings.py:130 | the paragraphs cut at blank lines join back into the text |
| FilingProcessing.PlacePiece | research/archives/indomitable-2026-02-14-backup/scripts/process_filings.py:149-170 | the loop body keeps the Python variables in step with the chunker state after one piece |
| FilingProcessing.PlaceSentences | research/archives/indomitable-2026-02-14-backup/scripts/process_filings.py:149-159 | the sentence loop keeps the Python variables in step with the chunker state |
| FilingProcessing.ChunkTextLoop | research/archives/indomitable-2026-02-14-backup/scripts/process_filings.py:124-175 | chunk_text's loops compute exactly the specified chunks |
| FilingProcessing.PlaceParagraph | research/archives/indomitable-2026-02-14-backup/scripts/process_filings.py:137-169 | one paragraph moves the loop variables exactly as the chunker state moves: an oversized paragraph first closes the current chunk, then its sentences are placed one by one |
| FilingProcessing.Numbered | research/archives/indomitable-2026-02-14-backup/scripts/process_filings.py:219-228 | one record per chunk, numbered from 0 in order, with the chunk's token count |
| FilingProcessing.SectionLists | research/archives/indomitable-2026-02-14-backup/scripts/process_filings.py:205-217 | one chunk list per section, in dictionary order |
| FilingProcessing.ProcessSections | research/archives/indomitable-2026-02-14-backup/scripts/process_filings.py:177-229 | the section loop of process_filing builds exactly the specified records |
| FilingProcessing.ChunkSection | research/archives/indomitable-2026-02-14-backup/scripts/process_filings.py:206-216 | a section over 8000 tokens is split by chunk_text at that limit, and any other section stays one chunk |
| FilingProcessing.NumberChunks | research/archives/indomitable-2026-02-14-backup/scripts/process_filings.py:219-228 | the enumerate loop builds exactly the numbered records |
| FilingProcessing.CountInAppend | research/archives/indomitable-2026-02-14-backup/scripts/process_filings.py:219-228 | counting records of a section distributes over concatenation |
| FilingProcessing.CountInNumbered | research/archives/indomitable-2026-02-14-backup/scripts/process_filings.py:219-228 | the first i records of a section's chunks are i records of that section |
| FilingProcessing.RecordsSections | research/archives/indomitable-2026-02-14-backup/scripts/process_filings.py:205-228 | every record belongs to one of the sections |
| FilingProcessing.ChunkIndexCounts | research/archives/indomitable-2026-02-14-backup/scripts/process_filings.py:205-228 | with distinct section names, each record's chunk index is the number of earlier records of its section |
| FilingProcessing.FilingChunkIndexCounts | research/archives/indomitable-2026-02-14-backup/scripts/process_filings.py:205-228 | the chunks of a filing are numbered from 0 within each section |
| FilingProcessing.SmallSectionOneChunk | research/archives/indomitable-2026-02-14-backup/scripts/process_filings.py:210-213 | a section of at most 8000 tokens is stored as one chunk holding the whole section |
| FilingDownload.EarlierPreorder | research/indomitable/scripts/download_filings.py:88 | sorting by filing date ascending is by a total preorder |
| FilingDownload.LaterPreorder | research/indomitable/scripts/download_filings.py:84 | sorting by filing date descending is by a total preorder |
| FilingDownload.Periodic | research/indomitable/scripts/download_filings.py:77-80 | exactly the 10-Ks and 10-Qs of the input |
| FilingDownload.EightKs | research/indomitable/scripts/download_filings.py:83 | exactly the 8-Ks of the input |
| FilingDownload.FilterStrategicFilings | research/indomitable/scripts/download_filings.py:73-96 | the appends, the extend and the in-place sorts compute exactly the specified selection |
| FilingDownload.StrategicSelection | research/indomitable/scripts/download_filings.py:73-96 | the selection is sorted by date, is the 10-Ks and 10-Qs plus the ten newest 8-Ks as a multiset, holds every 10-K and 10-Q, nothing of another form, and min(10, number of 8-Ks) 8-Ks |
| FilingDownload.DroppedEightKsAreOlder | research/indomitable/scripts/download_filings.py:83-85 | the 8-Ks left out, with those kept, are all the 8-Ks, and none is newer than any kept |
| FilingDownload.FilingUrl | research/indomitable/scripts/download_filings.py:98-106 | the URL is the SEC archive base, the CIK, the accession number with its hyphens removed and the primary document, joined by '/': it starts with the base and the CIK, ends with the primary document, and the accession part between them holds no hyphen |
| FilingDownload.FilingUrlParts | research/indomitable/scripts/download_filings.py:98-106 | the URL is the SEC archive base followed by the CIK, the hyphen-free accession number and the document, separated by '/' |
| FilingDownload.FilingUrlIgnoresHyphens | research/indomitable/scripts/download_filings.py:101 | an accession number with or without hyphens gives the same URL |
| FilingDownload.LocalPath | research/indomitable/scripts/download_filings.py:217-218 | the stored path ends in ".html" |
| FilingDownload.LocalPathNormalises | research/indomitable/scripts/download_filings.py:217-218 | the ticker's case and the accession number's hyphens do not change the stored path |
| SecFilings.InWindowByDay | research/indomitable/scripts/fetch_eqt_filings.py:23-24 | counted in whole days, today's filings are in the window and the first day of the 780-day window only when the clock reads exactly midnight |
| SecFilings.Kept | research/archives/indomitable-2026-02-14-backup/scripts/fetch_filings.py:72-74 | exactly the indices whose date is in the window, in ascending order |
| SecFilings.RecordsAt | research/archives/indomitable-2026-02-14-backup/scripts/fetch_filings.py:75-81 | one record per kept index, built from that index of every array |
| SecFilings.FilterFilingsLoop | research/archives/indomitable-2026-02-14-backup/scripts/fetch_filings.py:61-84 | the loop computes exactly the specified filtered list, or the IndexError |
| SecFilings.RaisesAt | research/archives/indomitable-2026-02-14-backup/scripts/fetch_filings.py:75-79 | an in-window date whose index another array lacks makes the filter raise |
| SecFilings.FilterFilingsKeepsWindow | research/archives/indomitable-2026-02-14-backup/scripts/fetch_filings.py:61-84 | the filter succeeds exactly when every in-window index exists in the arrays read without a default, and then keeps exactly the in-window filings in source order, a missing description reading as '' |
| SecFilings.KeptIffInWindow | research/indomitable/scripts/fetch_eqt_filings.py:68-70 | an index is kept exactly when its date is in the window |
| SecFilings.BumpFacts | research/archives/indomitable-2026-02-14-backup/scripts/fetch_filings.py:121 | counting one more filing of a form keeps names distinct, adds one to that form's count and to the total, and leaves the other counts unchanged |
| SecFilings.TallyCounts | research/indomitable/scripts/fetch_eqt_filings.py:117 | the counter names each form once with its number of occurrences, and the counts sum to the number of filings |
| SecFilings.CountForms | research/indomitable/scripts/fetch_eqt_filings.py:117 | the counting loop computes exactly the specified tally |
| SecFilings.BumpLoop | research/archives/indomitable-2026-02-14-backup/scripts/fetch_filings.py:121 | the dictionary update computes exactly the specified increment |
| SecFilings.ByCountThenFormPreorder | research/indomitable/scripts/fetch_eqt_filings.py:135 | the summary order, count descending then form name, is a total preorder |
| SecFilings.SummaryOrdered | research/archives/indomitable-2026-02-14-backup/scripts/fetch_filings.py:117-135 | the summary lists every form once with its count, by descending count then name, and the counts sum to the total number of filings |
| SecFilings.PaddedCik | research/archives/indomitable-2026-02-14-backup/scripts/fetch_filings.py:39 | the padded CIK has ten characters, or the CIK's own length when it is longer |
| SecFilings.PaddedCikValue | research/archives/indomitable-2026-02-14-backup/scripts/fetch_filings.py:39 | a digit-only CIK keeps its digits at the end and its numeric value |
| SecFilings.OutputPathIgnoresCase | research/archives/indomitable-2026-02-14-backup/scripts/fetch_filings.py:109 | the ticker's case does not change the output file |
| JsonExtract.DepthAppend | research/indomitable/scripts/config.py:66-72 | the brace count of joined texts is the sum of their counts |
| JsonExtract.SecondPiece | research/indomitable/scripts/config.py:50 | for text that opens with a fence, the second piece of the split is the text up to the next fence, and it holds no fence |
| JsonExtract.StripMarkdownJsonSegment | research/indomitable/scripts/config.py:46-54 | unfenced text is only stripped; fenced text gives the stripped segment between the first two fences, less a leading "json", and that segment holds no fence |
| JsonExtract.FirstClose | research/indomitable/scripts/config.py:66-72 | the first '}' that brings the running count back to 0, and none before it |
| JsonExtract.BraceSpan | research/indomitable/scripts/config.py:63-76 | the fallback's span starts before it ends and lies within the text |
| JsonExtract.ParseClaudeJsonLoop | research/indomitable/scripts/config.py:57-81 | the loop computes exactly the specified parse: the whole cleaned reply, else the first brace span, else nothing |
| JsonExtract.ParseClaudeJsonDirect | research/indomitable/scripts/config.py:59-61 | a reply that parses whole is returned as parsed |
| JsonExtract.NoBraceNoFallback | research/indomitable/scripts/config.py:63-81 | without a '{' only the whole reply can parse |
| JsonExtract.MatchFrom | router.py:65-73 | the first position where the count from the opening brace returns to 0 on a '}', and none before it |
| JsonExtract.DepthStep | router.py:66-70 | one more character changes the count by one at a brace and not otherwise |
| JsonExtract.MatchedSpanBalanced | router.py:65-73 | the span from a '{' to the brace that closes it is balanced and every proper prefix has more '{' than '}' |
| JsonExtract.BraceSpanIsMatchedObject | research/indomitable/scripts/config.py:63-76 | when no '}' precedes the first '{', the fallback's span is exactly the balanced object that opens there |
| JsonExtract.AfterFirstLine | router.py:60 | the rest after the first line holds only characters of the input |
| JsonExtract.BeforeLastFence | router.py:60 | the part before the last fence holds only characters of the input |
| JsonExtract.Fragment | router.py:55-60 | the fragment searched holds only characters of the reply |
| JsonExtract.MatchBraces | router.py:65-73 | the scan ends just after the brace that balances the first, or at the first brace when none does |
| JsonExtract.ParseJsonFromLoop | router.py:46-78 | the token loop computes exactly the specified result: the whole reply, else the first token whose slice parses, else the empty dict |
| JsonExtract.TryTokenSteps | router.py:55-77 | one pass finds the token, unfences, matches braces and parses exactly as specified |
| JsonExtract.NoBraceGivesEmpty | router.py:46-78 | a reply without '{' that does not parse whole gives the empty dict |
| JsonExtract.ObjectSliceBalanced | router.py:62-75 | every non-empty slice the router parses opens with '{', closes with '}', is balanced and has every proper prefix unbalanced |
| Router.Clamp | router.py:100 | the score lies between 1 and 10, unchanged inside that range and moved to the nearer bound outside it |
| Router.EvaluateConfidence | router.py:83-100 | a non-numeric score raises; otherwise the score is 1 to 10, 1 when absent, and the reasoning defaults to the first 300 characters of the reply |
| Router.RouteTask | router.py:138-194 | the phases fill the result exactly as specified, returning early at each gate |
| Router.RouteGate | router.py:166-194 | a score under 7 falls back with no solution; validation passes exactly when the score is at least 7, the attempt answered and the validator said pass, and then a solution exists and no fallback is needed |
| Router.FallbackCauses | router.py:154-188 | a fallback is needed exactly when the confidence call fails, the score is under 7 or the attempt fails; a failed validation call is neither a pass nor a fallback |
| Router.RecordedScoreInRange | router.py:97-100 | an evaluated score recorded in the result lies between 1 and 10 |
| ReportView.Group | research/indomitable/scripts/view_reports.py:172-185 | the grouping has no line exactly when there are no words, and every line has a word |
| ReportView.WrapLoop | research/indomitable/scripts/view_reports.py:172-185 | the loop over the words computes exactly the specified lines |
| ReportView.GroupStep | research/indomitable/scripts/view_reports.py:177-182 | one more word either joins the last line, when it fits with its space, or opens a new one |
| ReportView.GroupKeepsWords | research/indomitable/scripts/view_reports.py:174-184 | the words of the lines, read in order, are the words of the text |
| ReportView.GroupFitsGreedily | research/indomitable/scripts/view_reports.py:177-182 | no line is longer than the width unless it is a single word, and each later line starts with a word that did not fit on the line before |
| ReportView.JoinFlatten | research/indomitable/scripts/view_reports.py:174-184 | joining the lines with spaces equals joining all their words with spaces |
| ReportView.JoinConcat | research/indomitable/scripts/view_reports.py:181 | joining two non-empty word lists puts one space between them |
| ReportView.WrapKeepsWords | research/indomitable/scripts/view_reports.py:172-185 | there is a single empty line exactly when the text has no words; otherwise the lines joined with single spaces give the text's words joined with single spaces |
| ReportView.SectionData | research/indomitable/scripts/view_reports.py:139-152 | a section prints only truthy data; missing, '', '{}' and unparseable text print nothing, and a decoded value prints exactly when truthy |
| Delivery.BucketOf | research/archives/indomitable-2026-02-14-backup/scripts/deliver_reports.py:71-74 | a report is immediate, daily or weekly exactly when its urgency is that text; anything else, NULL included, is unclassified |
| Delivery.Rank | research/archives/indomitable-2026-02-14-backup/scripts/deliver_reports.py:32-37 | the query's urgency rank is 1 to 4 |
| Delivery.SubjectLineShape | research/archives/indomitable-2026-02-14-backup/scripts/deliver_reports.py:45-61 | the subject opens with a bracketed tag exactly for the five alerting report types and otherwise with ticker, filing type and dash; it ends with at most the first 60 characters of the summary, all of it when shorter |
| Delivery.InBucket | research/archives/indomitable-2026-02-14-backup/scripts/deliver_reports.py:71-74 | a class holds exactly the reports of the list that belong to it, and is no longer than the list |
| Delivery.Undelivered | research/archives/indomitable-2026-02-14-backup/scripts/deliver_reports.py:30 | exactly the reports not yet delivered |
| Delivery.DeliveredBeforePreorder | research/archives/indomitable-2026-02-14-backup/scripts/deliver_reports.py:31-38 | the query's order, urgency rank then filing date descending, is a total preorder |
| Delivery.PendingOrder | research/archives/indomitable-2026-02-14-backup/scripts/deliver_reports.py:19-42 | the pending list holds exactly the undelivered reports, each once, ordered immediate, daily, weekly, other, and newest filing first within a class |
| Delivery.BucketsPartition | research/archives/indomitable-2026-02-14-backup/scripts/deliver_reports.py:71-74 | the four classes put back together are the list, and their sizes add up to its length |
| Delivery.BucketsSnoc | research/archives/indomitable-2026-02-14-backup/scripts/deliver_reports.py:71-74 | one more report joins exactly one class |
| Delivery.InBucketSorted | research/archives/indomitable-2026-02-14-backup/scripts/deliver_reports.py:71-74 | a class taken from a sorted list is still sorted |
| Delivery.BucketNewestFirst | research/archives/indomitable-2026-02-14-backup/scripts/deliver_reports.py:87-106 | within each group of the summary the newest filing comes first |
| Delivery.Subjects | research/archives/indomitable-2026-02-14-backup/scripts/deliver_reports.py:89-91 | one subject line per immediate report, in order |
| Delivery.DeliverySummaryCounts | research/archives/indomitable-2026-02-14-backup/scripts/deliver_reports.py:64-106 | an empty list shows only the no-pending message; otherwise the four counts add up to the total, the immediate group is exactly the immediate reports, the unclassified group exactly those with another urgency, and one subject line is composed per immediate report |
| PreEvent.BriefHypotheses | research/archives/indomitable-2026-02-14-backup/scripts/pre_event.py:36-48 | exactly the thesis's hypotheses whose status is active or strengthened; none weakened or disproved |
| PreEvent.Normalised | research/archives/indomitable-2026-02-14-backup/scripts/pre_event.py:336 | the normalised period holds no space |
| PreEvent.LastMatch | research/archives/indomitable-2026-02-14-backup/scripts/pre_event.py:334-349 | the position of the last estimate matching the period, or none when none matches |
| PreEvent.RecordMatches | research/archives/indomitable-2026-02-14-backup/scripts/pre_event.py:334-340 | the estimate loop computes exactly the specified map update |
| PreEvent.BuildConsensusMap | research/archives/indomitable-2026-02-14-backup/scripts/pre_event.py:329-349 | the revenue loop then the EPS loop compute exactly the specified consensus map |
| PreEvent.ConsensusFromLastMatch | research/archives/indomitable-2026-02-14-backup/scripts/pre_event.py:329-349 | only 'revenue' and 'eps' are filled, each exactly when one of its estimates matches the period, from the last match, with StockAnalysis as the source |
| PreEvent.PeriodMatchesItself | research/archives/indomitable-2026-02-14-backup/scripts/pre_event.py:336 | an estimate labelled with the requested period matches it |
| PreEvent.RationaleMapLastWins | research/archives/indomitable-2026-02-14-backup/scripts/pre_event.py:183 | the map holds exactly the named metrics, each with the last entry of that name |
| PreEvent.AddRationaleInPlace | research/archives/indomitable-2026-02-14-backup/scripts/pre_event.py:118-192 | updating the expectations where they stand gives exactly the specified result and list |
| PreEvent.RationaleKeepsExpectations | research/archives/indomitable-2026-02-14-backup/scripts/pre_event.py:118-192 | the merge keeps the number, order and figures of the expectations; an empty list comes back bare; an exception, a falsy reply or an unnamed entry gives the list untouched with nothing tested or in play |
| PreEvent.RationaleFields | research/archives/indomitable-2026-02-14-backup/scripts/pre_event.py:181-188 | an expectation's basis is the entry's when supplied and its own or '' otherwise; its consensus remark is the entry's, or '' when absent; the tested hypotheses are the reply's |
| PreEvent.StreetOf | research/archives/indomitable-2026-02-14-backup/scripts/pre_event.py:215-216 | the street column is N/A exactly for a missing entry, a NULL or a zero value, and shows the value otherwise |
| PreEvent.StreetNotAvailable | research/archives/indomitable-2026-02-14-backup/scripts/pre_event.py:215-216 | the brief reads "Street: N/A" exactly when the metric has no consensus value that Python counts as true |
| PaperBatch.RouteOf | research/indomitable-v2/papers/analyze_mauboussin_batch.py:529-535 | a paper under 20 pages gets the short analysis, 20 to 50 pages the medium one, more than 50 the large one |
| PaperBatch.CatalogueRoutes | research/indomitable-v2/papers/analyze_mauboussin_batch.py:24-70 | each list of the catalogue holds only papers its page counts route to it, and the catalogue has 37 papers |
| PaperBatch.TruncatedShape | research/indomitable-v2/papers/analyze_mauboussin_batch.py:213-215 | a text within 30000 characters is kept whole; a longer one keeps exactly its first 30000 characters followed by the truncation marker |
| PaperBatch.PiecesCover | research/indomitable-v2/papers/analyze_mauboussin_batch.py:266 | the slices put back together give the text; each is non-empty and at most the chunk size, all but the last exactly that size, and there are ceil(n / size) of them |
| PaperBatch.PiecesConcat | research/indomitable-v2/papers/analyze_mauboussin_batch.py:266 | the slices put back together give the sequence |
| PaperBatch.PiecesSizes | research/indomitable-v2/papers/analyze_mauboussin_batch.py:266 | every slice is non-empty and at most the size, all but the last exactly the size |
| PaperBatch.PiecesCount | research/indomitable-v2/papers/analyze_mauboussin_batch.py:266 | the slices number the least k with k times the size at least the length |
| PaperBatch.CeilOf | research/indomitable-v2/papers/analyze_mauboussin_batch.py:571 | the batch-count formula is the ceiling of the length over the batch size |
| PaperBatch.PiecesPrefix | research/indomitable-v2/papers/analyze_mauboussin_batch.py:266-269 | the first k slices cover exactly the first k times size elements, or all of them |
| PaperBatch.AnalysedChunksCover | research/indomitable-v2/papers/analyze_mauboussin_batch.py:265-269 | at most six chunks are analysed and together they are exactly the first 120000 characters of the text, or all of it |
| PaperBatch.FirstWithKey | research/indomitable-v2/papers/analyze_mauboussin_batch.py:313-319 | the first named metric with the key, and none before it |
| PaperBatch.TextSet | research/indomitable-v2/papers/analyze_mauboussin_batch.py:326-328 | the de-duplicated list holds exactly the strings of the original |
| PaperBatch.KeptStep | research/indomitable-v2/papers/analyze_mauboussin_batch.py:315-319 | one more metric adds its key to the seen set when named, and is kept exactly when named and not seen before |
| PaperBatch.KeptFirstPerKey | research/indomitable-v2/papers/analyze_mauboussin_batch.py:313-319 | the kept metrics are each the first metric of their key, in first-seen order, with pairwise different keys, one for every named key |
| PaperBatch.SeenIffFirst | research/indomitable-v2/papers/analyze_mauboussin_batch.py:313-319 | a key has been seen exactly when some named metric carries it |
| PaperBatch.KeptAreFirst | research/indomitable-v2/papers/analyze_mauboussin_batch.py:313-319 | every kept metric is named and is the first metric of its key |
| PaperBatch.KeptOrdered | research/indomitable-v2/papers/analyze_mauboussin_batch.py:313-319 | kept metrics appear in first-seen order with pairwise different keys |
| PaperBatch.KeptCount | research/indomitable-v2/papers/analyze_mauboussin_batch.py:313-319 | one metric is kept per distinct key seen |
| PaperBatch.KeptCoversSeen | research/indomitable-v2/papers/analyze_mauboussin_batch.py:313-319 | every seen key belongs to a kept metric |
| PaperBatch.FirstWithKeyStep | research/indomitable-v2/papers/analyze_mauboussin_batch.py:313-319 | appending a metric changes the first position of no key already present |
| PaperBatch.CombineShape | research/indomitable-v2/papers/analyze_mauboussin_batch.py:303-331 | the title is the first analysis's, 'Unknown' when there is none or it has no title; total_metrics counts the kept metrics, one per distinct key; the de-duplicated lists hold exactly the strings of all analyses |
| PaperBatch.CombineRaises | research/indomitable-v2/papers/analyze_mauboussin_batch.py:326 | an object among the frameworks makes set() raise |
| PaperBatch.CombineAnalyses | research/indomitable-v2/papers/analyze_mauboussin_batch.py:303-331 | the loops compute exactly the specified combination, or the error |
| PaperBatch.WalkMetrics | research/indomitable-v2/papers/analyze_mauboussin_batch.py:315-319 | the inner loop keeps the kept list and seen set exactly as specified |
| PaperBatch.PassOf | research/indomitable-v2/papers/analyze_mauboussin_batch.py:529-535 | a paper gets a single prompt exactly when it routes to the short analysis |
| PaperBatch.ProcessBatch | research/indomitable-v2/papers/analyze_mauboussin_batch.py:508-540 | process_batch appends exactly the specified per-paper results to all_results, in order |
| PaperBatch.BatchResultsAppend | research/indomitable-v2/papers/analyze_mauboussin_batch.py:568-571 | processing two runs of papers gives the results of the first followed by those of the second |
| PaperBatch.SkipsAndReuses | research/indomitable-v2/papers/analyze_mauboussin_batch.py:511-526 | a missing PDF adds nothing; an already processed paper adds its saved result and is never analysed again; each paper adds at most one result |
| PaperBatch.RunBatches | research/indomitable-v2/papers/analyze_mauboussin_batch.py:568-571 | the batches are the consecutive slices of the catalogue, ceil(n / size) of them, and together give the same results as one pass over all papers |
| PaperBatch.RunBatch | research/indomitable-v2/papers/analyze_mauboussin_batch.py:568-571 | one pass takes the next size papers or what is left, moving forward, and keeps the batches equal to the first pieces of the catalogue and the results equal to those of the papers covered |
| PaperBatch.CatalogueBatches | research/indomitable-v2/papers/analyze_mauboussin_batch.py:20 | with the batch size of one, every paper of the catalogue is its own batch |
| PyNum.RoundAccuracy | research/indomitable/scripts/differential_analysis.py:177 | round(x, n) lies within half a unit of the last kept decimal place |
| PyNum.RoundHalfEvenTie | research/indomitable/scripts/differential_analysis.py:177 | on an exact tie round picks the even neighbour |
| PyNum.RoundMonotone | research/indomitable/scripts/differential_analysis.py:177 | rounding to n places never reverses the order of two numbers |
| Numerals.TokensCoverNumberChars | research/indomitable/scripts/synthesize_intelligence.py:968 | the matches of [\d,.]+ laid end to end are exactly the text's digits, commas and dots, in order |
| Numerals.NoTokensIffNoNumberChars | research/indomitable/scripts/synthesize_intelligence.py:968-970 | the pattern finds nothing exactly when the text has no digit, comma or dot |
| Numerals.ParseDecimal | research/indomitable/scripts/synthesize_intelligence.py:1057 | a token that float() accepts after removing commas reads as a non-negative number |
| Numerals.LoneDotIsNotANumber | research/indomitable/scripts/synthesize_intelligence.py:1055-1059 | tokens such as ".", ",.," and "1.2.3" are rejected by float() |
| Calendar.EpochIsZero | research/indomitable/scripts/synthesize_intelligence.py:97-102 | day numbers count from 1970-01-01 |
| Calendar.NextDayIsOneLater | research/indomitable/scripts/synthesize_intelligence.py:97-102 | the following calendar day is one day later |
| Calendar.BeforeIffSmallerDayNumber | research/indomitable/scripts/synthesize_intelligence.py:97-102 | day numbers order valid dates exactly as Python compares them |
| Sorting.InsertSorted | research/indomitable/scripts/download_filings.py:84-88 | inserting into a sorted list by a total preorder keeps it sorted |
| Sorting.SortBySorted | research/indomitable/scripts/download_filings.py:84-88 | sorting by a total preorder yields a sorted permutation of the input |
| Text.SplitJoin | research/indomitable/scripts/download_filings.py:101 | splitting at a non-empty separator and joining back gives the text |
| Text.StripIdempotent | research/indomitable/scripts/config.py:48 | stripping twice is stripping once |
| Text.UpperOfLower | research/indomitable/scripts/download_filings.py:217 | upper-casing after lower-casing is upper-casing |
| Text.Words | research/indomitable/scripts/view_reports.py:174 | split() yields non-empty words free of whitespace, in order |

## Left out

- SQL and psycopg2 plumbing: each query is a filter over the table's row sequence, and connections, cursors and commits are not modelled.
- SQL `ORDER BY` on rows the model keeps in table order: `ResearchDb.Pending` ignores the promise-date order, `ResearchDb.WithStatus` and `ResearchDb.Untriggered` return table order, and `GuidanceRevisions.LatestGuidance` lets an earlier row win a tie on the date where the `DISTINCT ON` query in `monitor.py:86-99` fixes no winner, so ties and order within a result are not modelled.
- NULL filing dates: the SQL ordering of NULLs is not modelled; dates are always present in the model.
- Language-model calls (Anthropic and Ollama), with their prompts and token limits, are parameters. Only the parsed reply is modelled.
- `json.loads` is a parameter. Non-string JSON values that the source turns into text (`str()` of numbers and periods) are given as strings.
- HTTP requests, scraping of EDGAR, StockAnalysis and futures pages, HTML cleaning with BeautifulSoup, and reading PDFs are not modelled.
- The section-heading regular expressions are not modelled: `FilingProcessing` takes the heading matches and the sentence splitter as inputs.
- The tiktoken token counter is a parameter.
- File I/O is not modelled: saving JSON, caches, result files and the directory listing in `find_filings_json`.
- Console and file printing, progress messages and `time.sleep` delays are not modelled. That includes the printed layout of `display_report`, `generate_summary` and `generate_processing_summary`.
- Markdown, HTML and prompt assembly are not modelled: report templates, `generate_markdown` and the brief layout beyond the street column.
- The clock is a parameter: a day number, or seconds since 1970-01-01.
- `datetime.strptime` failures are not modelled: dates arrive as day numbers or valid dates.
- Floating point: numbers are exact reals. `round` is exact half-to-even, so binary representation artefacts are not modelled.
- `Text.Lower` and `Text.Upper` cover ASCII letters only, and `Numerals` treats only ASCII digits as `\d`.
- `Text.IsSpace` covers the ASCII whitespace only. Python's `strip` and `split` also treat `\xa0`, `\x1c` to `\x1f`, `\x85`, `\u2000` to `\u200a`, `\u3000` and other Unicode spaces as whitespace. Texts that contain them are stripped, split and measured differently in the model: the more-than-100-character section test, `Words` and the wrapping built on it, and the stripping inside `ExternalData.PyFloat`.
- `ExternalData.PyFloat` accepts an optional sign, digits and at most one dot. Python's `float` also accepts exponents (`1e6`), `inf`, `nan` and underscores between digits (`1_000`); the model reads those cells as not a number.
- `Monitor.StatusOf`, `Monitor.ConfidenceOf`, `Monitor.ApplyHypothesisUpdate`: an explicit JSON `null` in the reply is read as a missing key, so the default applies. In the source, `get` returns `None` for a key that is present with a null value: a null `new_status` passes the `!= 'active'` test, writes NULL and then raises `AttributeError` on `.upper()`, while the model treats it as 'active'.
- `PostEvent.ApplyUpdate`, `PostEvent.ApplyUpdates`: an explicit JSON `null` status or confidence is read as missing, so the model writes 'active' or 50 where the source writes NULL.
- `PreEvent.MergeOne`, `PreEvent.AllNamed`: an explicit JSON `null` is read as a missing key. A null `assumption_basis` or `our_vs_consensus` is stored as `None` in the source, while the model keeps the old basis or ''. A null `metric_name` becomes a `None` key in the source and the merge goes ahead, while the model returns the list untouched, as for a missing name.
- `ModelClaims.ParamsFromClaims` reads a unit given as an explicit JSON `null` as missing, so the default 'Bcfe' or '$/Mcfe' applies. In the source, `get` returns `None` for the present key and the unit stays `None` (`financial_model.py:575` and `:577`).
- `Differential.MaterialityLevel` takes the materiality score as a number, or as missing. The `int(...)` at `differential_analysis.py:363` raises `TypeError` on an explicit JSON `null` and `ValueError` on a string that is not an integer, such as "7.5"; the model reads null as the default 5 and does not model string scores.
- `Router.EvaluateConfidence` reads an explicit JSON `null` "reasoning" as missing and uses the first 300 characters of the reply. In the source, `get` returns `None`, and each fallback path of `route_task` then appends to it with `+=` (`router.py:169-192`), which raises `TypeError`; that raise is not modelled.
- `SynthesisValidation.ValidatedNumbers`, `SynthesisValidation.SynthesisRecord.ValidateNumbers`: the consensus estimate and the threshold fields are modelled as text. A numeric or null `consensus_estimate` (`synthesize_intelligence.py:1032`), or a numeric truthy threshold field (`synthesize_intelligence.py:1048`), makes `re.findall` raise `TypeError` in the source; the model does not model these raises.
- `SynthesisValidation.SynthesisRecord.ValidateSignalMap` does not model the raises of the table it builds first from `numbers_that_matter` (`synthesize_intelligence.py:963-970`). That loop raises `AttributeError` on an entry that is not a dictionary, or on a null or non-string `metric` whose estimate quotes a number. It raises `TypeError` on a null `numbers_that_matter`. Nothing catches these raises (line 1547), so the run stops before any signal is validated. The model takes the numbers as well-formed entries and always completes.
- The medium paper's first and third model passes (structure detection and synthesis) are not modelled. Only the chunks they analyse are.
- `check_ollama`, `extract_text_from_pdf` and `call_ollama` are not modelled.
- CLI argument parsing, environment variables and `main` entry points are not modelled, except where `main` holds core logic: the scorecard and batch loops and the consensus map.
- `ThesisGeneration`: string values in numeric claim positions count as absent. The free-text baseline of `capex_increase_pct` is not modelled.
- `ResearchDb.DecisionLog.Log`: the free-text rationale and snapshot columns are not modelled.
- `ReportView.SectionData`: states which data a section prints, not the printed lines of dicts and lists.
- `Sorting.SortBySorted`: states sortedness and permutation. Stability is built into the definition of `SortBy` but is not stated as a lemma.
- `FilingProcessing.ChunkTextLoop`: the unused `overlap_tokens` argument is left out.
