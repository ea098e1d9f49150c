# Verified model of the evaluation pipeline

The scripts of this repository evaluate an extraction and answering system for small shops. They build a reference by
letting several extraction runs vote, compare a ledger of extracted facts with it, put a frozen set of questions to the
running service and report on every planned turn, pay for a strictly bounded number of diagnostic calls, record human
review decisions as an append-only log, and open held-out material only under a pre-registered campaign. This project
models these parts in Dafny and proves what each of them is relied on for. `dafny verify dfyconfig.toml` checks all of it.

## What is modelled

- **The consensus vote.** `FactKeys` normalises cells and texts into keys. `Consensus` says what a vote is: for every
  row and key the set of supporting runs, and one pass per run in priority order over what is agreed, contested and
  present. `ConsensusVote` is the vote as it is carried out, with its two indices, its accepted text and its
  overwritable dictionary of identities. `ConsensusLaws` holds what every vote guarantees, `ConsensusFollowers` which
  records it accepts of which run, `ConsensusBars` which supported facts every vote keeps, and `Numerals` what
  normalising does to numbers. `KeyForms` writes keys and searched texts out by letter and place, and `ConsensusSupport`
  reads support off the facts.
- **The comparison.** `RowLinks` links a ledger fact to a reference row: exact name and variant, unique name, unique
  containment, footnotes. `ReferenceComparison` counts recall and collects conflicts in the loops of the script,
  `ComparisonLaws` and `ComparisonCounts` say what the counts and conflicts mean, `ComparisonReport` puts the report
  together, `NumberSearch` and `NumberTexts` say when a number is found in a text. `RowNames` spells out names and
  variants. `SelfComparison` compares a reference with itself, by the exact conditions under which a fact reproduces its
  own key: `OwnKeys`, with `Spelling` for what normalising does to single characters and `Temperatures` for what erasing
  HOT and ICE does to a category. `PlainFacts` holds small facts.
- **The call budget.** `CallReservation` is the campaign row, its calls and its result files as an object.
  `CallInterleavings` runs any number of invocations step by step, with crashes anywhere.
- **Run and report.** `OperationsRun` asks the scripted turns with both early stops. `OperationsReport` labels every
  planned turn, on a comparable baseline and a review of the same run file, and `OperationsLabels` reads the report off
  the records and the list of judgments. The server is any function from case and turn to an answer.
- **The review log.** `ReviewLog` records a decision, names and publishes the revision file. `ReviewProtocol` lets any
  number of reviewers read, decide and publish at once, and `ReviewCapacity` says how far the log can grow.
- **The holdout campaign.** `EvaluationCampaign` claims a slot, opens the truth, runs, and enforces the budgets.
  `CampaignConditions` writes its conditions out on the log and the plan. `CampaignInterleavings` lets any number of
  evaluations do so at once over one folder, with crashes anywhere, and `CampaignProspects` says when a further slot can
  still be claimed.
- **Scripts, sessions, costs, tokens, latencies, facts.** `Transcript`, `TranscriptForms` and `TranscriptRoundTrip` (the
  script parser), `PinnedSession` and `SessionLogs` (one pinned connection per outermost transaction), `CostSpans`
  (which case a call is charged to), `TokenAccounting`, `NearestRank`, and `EvaluationFacts` (freezing, narrowing and
  mapping evaluation facts).

A dictionary that a loop fills is a map (or, where its order shows in the result, a sequence) that a method reassigns;
objects whose fields change are classes; hash functions are parameters, and wherever a result needs them to tell two
inputs apart, the lemma says so. A missing text field is the empty string.

## Where the code and its own description differ

- A supported fact can disappear from the vote. The code searches the text of a row as one joined text, so a needle that
  contains the separator `|` may be found across two records. Under the registered key function, for any number of runs from
  two on and any quorum they can meet, a fact is kept by every vote that supports it if and only if its needle has no bar
  (`ConsensusBars.KeptExactly`).
- "The representative run" is the first run that brings a supported fact, which need not be the first in priority
  (`ConsensusLaws.RepresentsExactly`, `ConsensusLaws.FirstNotRepresentative`).
- A unit glued to its number gives the key of number and unit written apart only when the number is already canonical and
  the unit can be read back off its end: no digits, no commas, no leading point (`Numerals.GluedUnitKey`).
- Closing the call campaign is not final. A closed campaign can be reopened exactly when a reconcile has read its results
  before, whatever is filed afterwards, or when all results on file are in-limit responses and there is one or an
  invocation under way may still file one (`CallInterleavings.CloseThenReconcile`). A reconcile that read before a halting
  probe filed its own result clears that halt too. A call that is aborted before its usage was looked at never halts.
- The review log reads at most revision 10000, so revision 10001 can be published but never read: the log is then locked,
  and only then. File names would sort wrongly only from a million on.
- A report accounts for all planned turns exactly when no executed turn was planned twice
  (`OperationsReport.EveryTurnLabelled`; `OperationsReport.RepeatedCaseUncounted` is a plan for which it does not).
- A campaign slot whose evaluation finds no store, cannot create or announce its run row, cannot close the row of a failed
  run, fails while reporting, or is killed, keeps no terminal event, and no later slot can ever be claimed. When the start
  could not be announced or the row not closed, the row stays RUNNING.
- Repeated case ids leave the calls of all but the last such case charged to nobody.
- A reference does not always recall all of itself (`SelfComparison.ReferenceAgainstItself`). A fact that no other fact of
  its row repeats is recalled exactly when it keeps its row and says its own key (`OwnKeys.OwnKeyExactly`). It is lost when
  an earlier fact of its name and variant has another row, when it is a footnote whose name leads to a menu row, or when
  its row is neither a menu row nor the footnotes. Steps, cells and categories are also lost when nothing but brackets,
  spaces, slashes and middle dots is left of their key, and otherwise, unless the rest of the fact says the key again,
  - a cell when a comma stands inside its value: the key drops commas, the text of the fact keeps them;
  - a category when HOT or ICE stands between other characters, or leaves letters that are not next to these: the key is
    closed up, the text is not;
  - any of them when a spelling correction reads across the end of the value and changes its last character.
- A diagnostic challenge is built without checking the hash of its source.

## Model

| member | source | states |
|---|---|---|
| Strings.JoinedSearchExact | api/scripts/build_consensus_reference.py:176-196 | searching the bar-joined text of any parts finds what searching the parts finds, if and only if the needle has no bar |
| Numerals.ValuePreservesNumber | api/scripts/build_consensus_reference.py:65-69 | normalising a written decimal, with any separators in it, keeps it a decimal of the same number |
| Numerals.ValueIdempotent | api/scripts/build_consensus_reference.py:65-69 | normalising twice is normalising once, for every text |
| Numerals.ValueCanonical | api/scripts/build_consensus_reference.py:65-69 | two decimals without leading zeros get one text if and only if they are one number |
| Numerals.GluedUnitKey | api/scripts/build_consensus_reference.py:94-114 | a glued unit gives the key of value and unit apart if and only if there is no unit, or number and unit are canonical enough to be read back |
| KeyForms.SqueezeExactly | api/scripts/build_consensus_reference.py:56-57 | squeezing drops exactly the blanks, slashes and middle dots, one by one, and keeps the rest in its place |
| KeyForms.ValueExactly | api/scripts/build_consensus_reference.py:65-69 | a whole number with a fraction loses the zeros at its end, and the point if nothing stays behind it; any other value stays as it is, squeezed and without commas |
| KeyForms.UnitExactly | api/scripts/build_consensus_reference.py:53-62 | which unit a spelling stands for: one of six, or itself in small letters |
| KeyForms.ColumnExactly | api/scripts/build_consensus_reference.py:72-79 | an attribute belongs to the blender if it mentions one in either spelling, else to the one of eight heads it begins with, else to the rest |
| KeyForms.KeyExactly | api/scripts/build_consensus_reference.py:94-114 | a fact has a key if and only if its attribute, polarity, value, unit and step say so, kind by kind; a missing unit is what stands glued behind the number, split as late as possible |
| KeyForms.NeedleExactly | api/scripts/build_consensus_reference.py:182-189 | what is searched for each kind of key |
| KeyForms.PartsRead | api/scripts/build_consensus_reference.py:133-137 | whatever is read in one part of a fact is read in its text, unless the part begins or ends as a word to be corrected goes on |
| KeyForms.TextExactly | api/scripts/build_consensus_reference.py:133-137 | where no part does so the text is the normalised value, unit, item, assertion, conditions and exceptions, one after the other |
| ConsensusSupport.SupporterExactly | api/scripts/build_consensus_reference.py:171-196 | a run supports a key with a bar-free needle if and only if one of its facts of the row has the key or reads the needle |
| ConsensusSupport.SupporterOfAny | api/scripts/build_consensus_reference.py:171-196 | any key: if and only if a fact of the row has it, or the joined text of the row reads its needle |
| ConsensusSupport.SupportedExactly | api/scripts/build_consensus_reference.py:209-210 | a key is supported if and only if the runs that say it are at least the quorum |
| ConsensusSupport.RowTexts | api/scripts/build_consensus_reference.py:176-180 | the texts joined for a run and row are those of its facts of that row, one each, in order |
| ConsensusSupport.EntryTexts | api/scripts/build_consensus_reference.py:225-227 | the accepted texts of a row are those of its accepted records, one each, in order |
| ConsensusVote.Index | api/scripts/build_consensus_reference.py:171-196 | the key index and the text index over all runs yield exactly the runs that report the key or read its needle in the row |
| ConsensusVote.Decide | api/scripts/build_consensus_reference.py:204-225 | one fact of a run is contested, skipped, subsumed or accepted as the vote prescribes, and no accepted entry is overwritten; which it is, ConsensusFollowers.AcceptedExactly says |
| ConsensusVote.Accumulate | api/scripts/build_consensus_reference.py:226-228 | after a run the accepted text of every row is the joined text of everything agreed so far |
| ConsensusVote.Vote | api/scripts/build_consensus_reference.py:161-229 | the indexed, dictionary-based vote has the outcome of the vote by supporter sets, under distinct identities |
| ConsensusFollowers.AcceptedExactly | api/scripts/build_consensus_reference.py:204-228 | a record is accepted if and only if its key is supported and, when some run ranked earlier brings a supported fact, no earlier run and no earlier record of its run reports the key in the row, and its needle is empty or not in the joined text accepted of the row from earlier runs |
| ConsensusLaws.NothingSupportedIsLost | api/scripts/build_consensus_reference.py:171-228 | a keyed fact is contested for want of votes, or accepted under its key, or subsumed; with a bar-free needle one accepted record of the row says it |
| ConsensusBars.KeptExactly | api/scripts/build_consensus_reference.py:171-228 | under the registered key function, for any number of runs from two on and any quorum they can meet, every vote that supports a fact keeps it, under its key or in one accepted record of its row, if and only if its needle has no bar |
| ConsensusBars.StraddlingFactLost | api/scripts/build_consensus_reference.py:222-224 | for every such number of runs and quorum, the vote that drops a supported fact whose needle is two normalised texts with a bar between them |
| ConsensusBars.BarredFactLost | api/scripts/build_consensus_reference.py:222-224 | for every fact whose needle has a bar there is such a vote of that size and quorum |
| ConsensusBars.BarredFactExists | api/scripts/build_consensus_reference.py:94-114 | any plain value with a bar in it gives such a fact |
| ConsensusBars.NormalBar | api/scripts/build_consensus_reference.py:127-130 | normalising a text normalises what is before and behind a bar, and keeps the bar |
| ConsensusLaws.VoteWellFormed | api/scripts/build_consensus_reference.py:198-228 | entries show their full support of at least the quorum, agreed and contested keys are disjoint, entries are distinct records in order, one run represents a key of a row, disputes are exact and not repeated |
| ConsensusLaws.RankedOrder | api/scripts/build_consensus_reference.py:210-225 | supporters are listed in priority order |
| ConsensusLaws.RankedLength | api/scripts/build_consensus_reference.py:210-225 | the list of supporters is complete |
| ConsensusLaws.ContestedExactly | api/scripts/build_consensus_reference.py:207-213 | a row and key are contested if and only if some run reports them and fewer than the quorum support them |
| ConsensusLaws.AssertionsExactly | api/scripts/build_consensus_reference.py:207-215 | a dispute quotes exactly the runs that report the key in the row |
| ConsensusLaws.QuorumMonotone | api/scripts/build_consensus_reference.py:207-213 | raising the quorum only adds contested keys |
| ConsensusLaws.SupportMonotone | api/scripts/build_consensus_reference.py:191-196 | adding, repeating or reordering facts never removes a supporter of a bar-free needle |
| ConsensusLaws.SupportGrows | api/scripts/build_consensus_reference.py:191-196 | appending facts to runs never removes a supporter of any needle |
| ConsensusLaws.ContestedByContent | api/scripts/build_consensus_reference.py:171-213 | with the same facts per run, in any order, the same bar-free keys have the same supporters and are contested |
| ConsensusLaws.NoneBeforeLeader | api/scripts/build_consensus_reference.py:200-203 | nothing is agreed before the first run that brings a supported fact |
| ConsensusLaws.RepresentativeKeepsAll | api/scripts/build_consensus_reference.py:203-219 | that run keeps every supported fact with its multiplicity, first and in order, and the rest comes from later runs |
| ConsensusLaws.RepresentsExactly | api/scripts/build_consensus_reference.py:200-219 | the first accepted record is of a given run if and only if that run, and none before it in priority, brings a supported fact |
| ConsensusLaws.FirstNotRepresentative | api/scripts/build_consensus_reference.py:200-219 | a vote of three runs in which the first in priority does not represent |
| RowLinks.RowTables | api/scripts/compare_reference.py:64-76 | the tables hold the first row per name and variant and all rows per name, for menu facts and footnotes |
| RowLinks.FindMenuRow | api/scripts/compare_reference.py:86-100 | the loop over all names finds the row that the name lookup, or the union over related names, determines |
| RowLinks.FindRow | api/scripts/compare_reference.py:79-83 | the menu row, or else the footnotes |
| RowLinks.LinkedByExactName | api/scripts/compare_reference.py:73-90 | a fact with the name and variant of menu facts goes to the row of the first of them |
| RowLinks.LinkedByUniqueName | api/scripts/compare_reference.py:91-93 | a known name in an unknown variant leads to a menu row if and only if that is the only row of the name |
| RowLinks.LinkedByContainment | api/scripts/compare_reference.py:94-100 | an unknown name leads to a menu row if and only if that row, and no other, is reachable through a name related by containment of at least two characters |
| RowLinks.LinkedToFootnotes | api/scripts/compare_reference.py:79-83 | a fact goes to the footnotes if and only if it has no menu row and a footnote bears its name or a related one |
| RowLinks.RelatedSymmetric | api/scripts/compare_reference.py:96-99 | relatedness of names does not depend on their order, though ties in length are broken by it |
| RowNames.RelatedExactly | api/scripts/compare_reference.py:96-99 | two names are related if and only if both have at least two characters and one stands in the other |
| RowNames.NameAndVariant | api/scripts/compare_reference.py:31-42 | the name is the squeezed subject without HOT and ICE in any case, taken from the left; the variant is the given one in capitals, or else the first HOT or ICE of the subject |
| RowNames.UpperExactly | api/scripts/compare_reference.py:36-42 | capitals, letter by letter |
| RowNames.ErasedFirst | api/scripts/build_consensus_reference.py:104-105 | a category lacks the first HOT or ICE in capitals, and then its rest lacks them too |
| ComparisonCounts.BearsExactly | api/scripts/compare_reference.py:64-76 | which reference facts bear a name, or a related one, in the menu and in the footnotes |
| ReferenceComparison.GroupLedger | api/scripts/compare_reference.py:121-130 | every ledger fact is either in the list of its row or counted once under its unlinked name |
| ReferenceComparison.CountRecall | api/scripts/compare_reference.py:132-153 | the counters per kind and scope are the numbers of keyed and of recalled reference facts, with the row sets and the missed facts |
| ReferenceComparison.ReferenceNumbers | api/scripts/compare_reference.py:159-164 | the numbers of every cell of the reference, in order |
| ReferenceComparison.RowConflicts | api/scripts/compare_reference.py:167-175 | the conflicts of one row, in order |
| ReferenceComparison.FindConflicts | api/scripts/compare_reference.py:165-175 | the conflicts of all rows, row by row |
| ComparisonLaws.CountsConserved | api/scripts/compare_reference.py:132-156 | totals and recalled counts add up over the kinds and over the scopes to those of all keyed reference facts |
| ComparisonLaws.RecalledOrMissed | api/scripts/compare_reference.py:148-153 | recalled plus missed is the total |
| ComparisonLaws.TouchedAmongAll | api/scripts/compare_reference.py:146-151 | touched rows are among the rows with keyed facts |
| ComparisonLaws.RecalledExactly | api/scripts/compare_reference.py:103-115 | a reference fact is recalled if and only if some ledger fact linked to its row reproduces its key |
| ComparisonCounts.RecallsExactly | api/scripts/compare_reference.py:45-115 | kind by kind: a denial is recalled by a denial of the column, a price or number by the same key or by reading it alone, a step or text by reading it |
| ComparisonCounts.CountedExactly | api/scripts/compare_reference.py:132-153 | every count by kind and by scope counts exactly the reference facts with such a key or of such a row, and of them exactly those that a ledger fact linked to their row reproduces |
| ComparisonCounts.MissedInOrder | api/scripts/compare_reference.py:148-153 | the missed facts are exactly the keyed ones that nothing recalls, in the order of the reference |
| ComparisonCounts.RowsExactly | api/scripts/compare_reference.py:146-151 | the menu rows are those of keyed facts, and the touched rows those of recalled ones |
| ComparisonCounts.UnlinkedExactly | api/scripts/compare_reference.py:121-130 | a name is counted as often as ledger facts of it belong to no row |
| ComparisonCounts.UngroupedExactly | api/scripts/compare_reference.py:45-47 | commas between digits are dropped from the searched text, and nothing else |
| ComparisonLaws.RecallMonotone | api/scripts/compare_reference.py:103-151 | a ledger with more facts, in any order, loses no hit in any group and no touched row |
| ComparisonLaws.ConflictExactly | api/scripts/compare_reference.py:165-172 | a numeric fact of a row is a conflict if and only if the reference has numbers for the same row, column and unit and none equals it |
| ComparisonLaws.ConflictNames | api/scripts/compare_reference.py:173-175 | the conflict names the row, the value and exactly the reference values of the cell |
| ComparisonLaws.ConflictsAreNumbers | api/scripts/compare_reference.py:165-171 | nothing else is ever a conflict |
| ComparisonLaws.AllConflictsMembers | api/scripts/compare_reference.py:165-175 | the conflicts are those of the single ledger facts |
| ComparisonCounts.ConflictsInOrder | api/scripts/compare_reference.py:165-175 | the conflicts are, in the order of the ledger, those of exactly the facts that have one |
| ComparisonLaws.GroupingKeepsConflicts | api/scripts/compare_reference.py:165-175 | going row by row neither loses nor repeats a conflict |
| ComparisonReport.Compare | api/scripts/compare_reference.py:118-192 | every count of the report is the number it stands for, parts add up, mapped plus unmapped is the ledger, conflicts are those of the single facts |
| NumberSearch.GroupedPriceRecalled | api/scripts/compare_reference.py:45-58 | a price that stands alone in the text of a ledger fact is recalled however its thousands are grouped |
| NumberTexts.FoundExactly | api/scripts/compare_reference.py:45-48 | in any text of numbers, grouped or with fractions, and what stands between them, a number with its unit is found if and only if it is one of them, whole, its separators dropped, with the unit behind it |
| NumberTexts.PriceRecalledExactly | api/scripts/compare_reference.py:103-115 | a fact with another key recalls a price if and only if the price is one of the numbers in its text |
| NumberTexts.NumberRecalledExactly | api/scripts/compare_reference.py:103-115 | a fact with another key recalls a number with its unit if and only if its text has that number with that unit |
| NumberTexts.NotInLonger | api/scripts/compare_reference.py:45-48 | a longer number never shows a shorter one, on either side |
| Spelling.NormalExactly | api/scripts/build_consensus_reference.py:127-130 | normalising a text squeezes it, corrects each misspelt character in place, and erases brackets |
| Spelling.FrontChanged | api/scripts/build_consensus_reference.py:127-137 | a correction that reads across the end of a text changes exactly its last character |
| Temperatures.ShorterByWords | api/scripts/build_consensus_reference.py:104-105 | erasing HOT and ICE keeps the length, brackets apart, if and only if neither occurs, and then changes nothing |
| Temperatures.CategoryExactly | api/scripts/build_consensus_reference.py:104-105 | a category without HOT and ICE is read in the category if and only if neither stands between other characters and the letters they leave at the edges are next to these; a category of the letters of HOT and ICE alone is searched as it is |
| OwnKeys.KeyTextOf | api/scripts/build_consensus_reference.py:94-114 | the text of a step, cell or category key is the squeezed value, for cells without commas, for categories without HOT and ICE |
| OwnKeys.InsideLost | api/scripts/build_consensus_reference.py:65-69 | with a comma between other characters of a value, its comma-free form is not read in it |
| OwnKeys.OutsideKept | api/scripts/build_consensus_reference.py:65-69 | without one it is |
| OwnKeys.OwnKeyExactly | api/scripts/compare_reference.py:103-115 | denials, prices and numbers always reproduce their own key; a step, cell or category does if and only if its key has more than brackets, and either its value reads the key and no correction across the end changes the value, or the key is read at a place that reaches into what follows the value |
| OwnKeys.BareKeyExactly | api/scripts/compare_reference.py:103-115 | with nothing beside its value, a step needs more than brackets, a cell also no comma inside, a category also HOT and ICE at its edges |
| SelfComparison.OwnRowExactly | api/scripts/compare_reference.py:64-100 | a reference fact is linked to its own row if and only if it is a menu fact and the first of its name and variant is of that row, or a footnote whose name, and name with variant, lead to no menu row |
| SelfComparison.ElsewhereLost | api/scripts/compare_reference.py:71-76 | a fact in neither a menu row nor the footnotes is never recalled, by any ledger |
| SelfComparison.SelfHit | api/scripts/compare_reference.py:118-157 | compared with itself, a reference recalls a keyed fact if and only if that keeps its row and says its key, or another fact linked to its row reproduces the key |
| SelfComparison.ReferenceAgainstItself | api/scripts/compare_reference.py:118-157 | it recalls all of itself if and only if this holds of every keyed fact |
| SelfComparison.CommaLost | api/scripts/build_consensus_reference.py:65-69 | a reference of one cell of letters with a comma is lost if the comma stands inside, and recalled if it stands at the end |
| SelfComparison.BracketsLost | api/scripts/build_consensus_reference.py:127-130 | a reference of one step with nothing but brackets and ignored characters is lost |
| SelfComparison.TemperatureInsideLost | api/scripts/build_consensus_reference.py:104-105 | a reference of one category with HOT between two lower-case words is lost |
| SelfComparison.CorrectionAcrossLost | api/scripts/build_consensus_reference.py:127-137 | a reference of one step whose value and unit read together as a word to be corrected is lost |
| CallReservation.Campaign.ReserveCall | api/scripts/probe_r_gemini_contract.py:112-116 | a call is reserved if and only if not halted, below eight, and label and request are new; then exactly one reservation is added |
| CallReservation.Campaign.WriteResult | api/scripts/probe_r_gemini_contract.py:31-32 | a result file is created once and never replaced |
| CallReservation.Campaign.Probe | api/scripts/probe_r_gemini_contract.py:112-150 | a whole probe keeps its reservation, files its own result and halts exactly when the answer, once looked at, is not known to be within the limits, or the call failed other than with a 400; a result already on file stays, with the halt |
| CallReservation.Campaign.Reconcile | api/scripts/probe_r_gemini_contract.py:83-95 | the halt is cleared if and only if there are results and all are responses of known usage within 16000 prompt and 4000 output tokens; nothing else changes |
| CallReservation.Campaign.Close | api/scripts/probe_r_gemini_contract.py:78-82 | closing halts and changes nothing else |
| CallReservation.LimitsExactly | api/app/learn/general_provider.py:18-32 | usage is within the limits if and only if prompt and candidates are stated, thoughts are stated or the total leaves no room for them, the prompt is at most 16000 and candidates with thoughts are at most 4000 |
| CallReservation.JudgedExactly | api/scripts/probe_r_gemini_contract.py:126-150 | what a probe files of every way a call can end, and when it halts |
| CallInterleavings.EveryRunSound | api/scripts/probe_r_gemini_contract.py:57-150 | over every interleaving with crashes the ledger, the invocations under way and the log stay consistent |
| CallInterleavings.StepMonotone | api/scripts/probe_r_gemini_contract.py:112-116 | reservations never decrease or exceed eight, results never change, and a reservation needs an open campaign and a new label and request |
| CallInterleavings.RunMonotone | api/scripts/probe_r_gemini_contract.py:112-150 | the same over whole runs |
| CallInterleavings.OneCallPerReservation | api/scripts/probe_r_gemini_contract.py:112-133 | in every run each provider call follows its own reservation, which is on the books, and no label or request is called twice |
| CallInterleavings.HaltClearedOnlyByReconcile | api/scripts/probe_r_gemini_contract.py:83-95 | in every run a halted campaign is open again only after a reconcile, on the results that the same invocation had read at an earlier step, all in-limit responses that still stand |
| CallInterleavings.CostBound | api/scripts/probe_r_gemini_contract.py:60-67 | an in-limit answer costs 3000 per million of the prompt and 15000 per million of candidates with thoughts, at most 108 KRW, and exactly that at both limits |
| CallInterleavings.TotalCostExactly | api/scripts/probe_r_gemini_contract.py:60-67 | every provider call counts once and adds the cost of its in-limit answer, and nothing else does |
| CallInterleavings.CostWithinReservation | api/scripts/probe_r_gemini_contract.py:60-67 | in every run there are no more provider calls than reservations, and all in-limit answers, also those lost in a crash or never recorded, cost at most 108 KRW per call and 864 KRW in all |
| CallInterleavings.CloseThenReconcile | api/scripts/probe_r_gemini_contract.py:78-95 | some continuation reopens a closed campaign if and only if a reconcile has read before, or all results on file are in-limit responses and there is one or an invocation under way may still file one |
| CallInterleavings.ReopenedOnWhatItRead | api/scripts/probe_r_gemini_contract.py:86-92 | a reconcile reopens a reconcilable campaign if and only if what was filed since it read is in-limit too |
| CallInterleavings.StaleReconcileReopens | api/scripts/probe_r_gemini_contract.py:83-95 | a run in which a reconcile clears the halt of a probe that ended after it read |
| CallInterleavings.WhatHalts | api/scripts/probe_r_gemini_contract.py:112-150 | a whole probe leaves an open campaign halted, and so without further reservations, if and only if its answer was looked at and is not known, count by count, to be within the limits, or its failure is not a 400 |
| CallInterleavings.AbortNeverHalts | api/scripts/probe_r_gemini_contract.py:126-150 | after an abort before the usage was looked at, no further step of the invocation sets the halt, whatever happens around it |
| OperationsRun.CollectCase | api/scripts/run_r_operations_http.py:89-124 | one case asks its turns until a scripted choice is missing or the error limit is reached |
| OperationsRun.Collect | api/scripts/run_r_operations_http.py:44-134 | the run over all cases, and the three ways it ends |
| OperationsRun.ValidTurnExactly | api/scripts/run_r_operations_http.py:137-148 | a turn is valid if and only if it has at most ten aliases, no two alike, each inked and of at most 1000 characters, none without a scripted option, and an option that is inked and not among them |
| OperationsRun.ValidScriptsExactly | api/scripts/run_r_operations_http.py:137-148 | scripts are valid if and only if every turn of every case is |
| OperationsRun.OfferedExactly | api/scripts/run_r_operations_http.py:151-162 | a choice is found if and only if the previous answer is a 200 that asks for a case in a context at a revision from one on, and exactly one position of its options holds the option or an alias; it is the option there |
| OperationsRun.QuestionExactly | api/scripts/run_r_operations_http.py:92-107 | a turn asks its question, or the option offered for it, and nothing exactly when none is |
| OperationsRun.RunIsPrefix | api/scripts/run_r_operations_http.py:89-133 | a prefix of the cases is recorded with a prefix of each script, each row asked as its turn or the one option offered for it prescribes and answered by the server, short only where nothing is offered or at the stop |
| OperationsRun.StopsAtFirstWindow | api/scripts/run_r_operations_http.py:121-133 | the run stops if and only if its rows end in the limit of consecutive failures, across cases, and at the first such window |
| OperationsReport.LabelCase | api/scripts/report_r_operations_live_v2.py:60-77 | the labels and citation counts of one case, or none if a judgment is inadmissible |
| OperationsReport.AddCase | api/scripts/report_r_operations_live_v2.py:60-88 | one case adds its labels to the counts and itself to the resolved if it is resolved |
| OperationsReport.RenderCases | api/scripts/report_r_operations_live_v2.py:58-88 | the cases are summed up if and only if none is empty and all judgments of planned turns are admissible |
| OperationsReport.Render | api/scripts/report_r_operations_live_v2.py:36-99 | a report is drawn if and only if the baseline is comparable, the review is of this run file, judgments are unique, of executed turns and admissible, and no case is empty; it is the summary of all planned turns |
| OperationsReport.ComparableExactly | api/scripts/report_r_operations_live_v2.py:34-40 | campaigns on raw documents compare with each other, all others with those of the same format on the same frozen input |
| OperationsLabels.ReportableExactly | api/scripts/report_r_operations_live_v2.py:44-73 | on the records of a run over distinct cases, judgments and cases make a report if and only if no case is empty, no turn is judged twice, and every judgment is usable for the recorded answer of its turn |
| OperationsLabels.LabelExactly | api/scripts/report_r_operations_live_v2.py:60-73 | a planned turn has the label it earns: not run without a record, an error without a 200 or judged one, unreviewed with a 200 and no judgment, else what its judgment says |
| OperationsLabels.CountsExactly | api/scripts/report_r_operations_live_v2.py:60-77 | the report counts under each label exactly the planned turns that earn it |
| OperationsLabels.CitationsExactly | api/scripts/report_r_operations_live_v2.py:74-76 | it counts as reviewed exactly the judgments that speak of the citations, and as correct those that find them correct |
| OperationsLabels.ResolvedInOrder | api/scripts/report_r_operations_live_v2.py:86-88 | it names exactly the resolved scenarios, in the order of the plan |
| OperationsReport.CitationsJudged | api/scripts/report_r_operations_live_v2.py:74-76 | citations are judged on executed turns only, and the correct ones are among the judged |
| OperationsReport.EveryTurnLabelled | api/scripts/report_r_operations_live_v2.py:54-99 | every planned turn has one label; not run plus executed never exceeds the plan, and equals it if and only if no executed turn is planned twice |
| OperationsReport.RepeatedCaseUncounted | api/scripts/report_r_operations_live_v2.py:54-99 | a plan of two cases with one id, run and reported in full: two turns planned and answered, one executed, none not run |
| OperationsReport.DenominatorConserved | api/scripts/report_r_operations_live_v2.py:54-99 | on the records of any run over distinct cases, not run is planned minus executed |
| OperationsReport.ResolvedExactly | api/scripts/report_r_operations_live_v2.py:86-88 | a scenario is resolved if and only if every scripted turn was executed with HTTP 200 and judged appropriate, the last as complete |
| OperationsReport.ResolvedWasRun | api/scripts/report_r_operations_live_v2.py:86-88 | a resolved scenario was recorded by the run with all its turns, each answered with HTTP 200 |
| ReviewLog.NamesOrdered | api/scripts/record_r_review.py:16-18 | below a million the names of revision files sort as the revisions do |
| ReviewLog.NamesDisorderedBeyondMillion | api/scripts/record_r_review.py:16-18 | at a million they do not |
| ReviewLog.NameExactly | api/scripts/record_r_review.py:16-18 | a file is named by the decimal digits of its revision, at least six, with leading zeros only to make up six |
| ReviewLog.LatestExactly | api/app/team/review_intake.py:55-84 | the decision on a question is that of the last event about it |
| ReviewLog.ReplayExactly | api/app/team/review_intake.py:68-81 | events can be replayed if and only if each continues the state before it, with the next number, the hash of its decision, a selected question and a new request, and they lead to the state they describe |
| ReviewLog.CheckedExactly | api/app/team/review_intake.py:55-84 | a state can be read if and only if it is what its events, at most 10000, lead to |
| ReviewLog.RecordExactly | api/app/team/review_intake.py:87-108 | a decision is accepted if and only if the state can be read, the question is selected, the request has 8 to 80 characters, and the same decision is on file under it, which changes nothing, or none is and the hash of the state is named, which adds it |
| ReviewLog.ReviewDirectory.Latest | api/scripts/record_r_review.py:71-73 | the file whose name sorts last, if there is one |
| ReviewLog.ReviewDirectory.SaveRevision | api/scripts/record_r_review.py:16-36 | a revision is linked without overwriting, and accepted if and only if the published state is the very same |
| ReviewLog.ReviewDirectory.Review | api/scripts/record_r_review.py:69-88 | one undisturbed read, decide, publish cycle |
| ReviewProtocol.EveryRunSound | api/scripts/record_r_review.py:69-88 | over every interleaving with crashes the directory holds one replayable history and every reviewer holds a publishable state |
| ReviewProtocol.PublishedForever | api/scripts/record_r_review.py:29-33 | a published revision never changes and never disappears |
| ReviewProtocol.HistoryNeverForks | api/scripts/record_r_review.py:69-88 | revisions have no gap from 1 upward, and each history is the exact beginning of every later one |
| ReviewProtocol.DecisionsSurvive | api/scripts/record_r_review.py:69-88 | a published decision stays at its place in every later revision |
| ReviewProtocol.OneSuccessor | api/scripts/record_r_review.py:29-33 | of two different states of one revision at most one is ever published |
| ReviewProtocol.LatestIsHighest | api/scripts/record_r_review.py:71-73 | in every reachable directory the last name belongs to the highest revision and to no other |
| ReviewProtocol.DecisionOnExpectedState | api/app/team/review_intake.py:87-108 | a new decision is recorded only on the very state whose hash the reviewer names |
| ReviewProtocol.RetryIsIdempotent | api/app/team/review_intake.py:95-99 | retrying a filed decision returns the state unchanged, whatever is expected |
| ReviewProtocol.ReadableExactly | api/app/team/review_intake.py:55-84 | a new revision can be read again if and only if it is at most 10000 |
| ReviewProtocol.LockedLog | api/app/team/review_intake.py:66-67 | once revision 10001 is published nobody can read the log |
| ReviewCapacity.ReadableUnlessFull | api/app/team/review_intake.py:55-84 | the latest state of a reachable log can be read if and only if revision 10001 has not been published |
| ReviewCapacity.RevisionsReachable | api/scripts/record_r_review.py:69-88 | a revision after the start can be published if and only if it is at most 10001 and the queue has a question |
| Transcript.ParseScript | api/scripts/set_transcript.py:32-71 | the transcript and the count, or the text itself when it is no script |
| TranscriptForms.CueExactly | api/scripts/set_transcript.py:26-28 | a line is a cue if and only if it is a time, a dash, a time, a marker and any label, with the blanks the pattern allows; it starts at the first time |
| TranscriptForms.OpenedExactly | api/scripts/set_transcript.py:29 | a line opens a quote if and only if a straight or curly one is its first character that is not blank |
| TranscriptForms.ClosesExactly | api/scripts/set_transcript.py:50-63 | a text closes a quote if and only if it ends in a straight or curly one |
| TranscriptForms.StripExactly | api/scripts/set_transcript.py:45 | lines are stripped of blanks at both ends, and of nothing else |
| TranscriptForms.OutsideExactly | api/scripts/set_transcript.py:57-67 | between quotes a cue sets the time, a quote after a cue begins an utterance and may end it, and everything else is ignored |
| TranscriptForms.InsideExactly | api/scripts/set_transcript.py:47-55 | within a quote remarks are ignored, and any other line is said, up to the one that ends in a quotation mark |
| TranscriptForms.NoScript | api/scripts/set_transcript.py:69-71 | a text without a cue is no script, and whatever is none comes back stripped |
| TranscriptRoundTrip.JoinSpokenExactly | api/scripts/set_transcript.py:53 | the pieces of an utterance are joined by single spaces, empty ones left out |
| TranscriptRoundTrip.CueRead | api/scripts/set_transcript.py:26-28 | every printed cue line is recognised, with its starting time |
| TranscriptRoundTrip.LinesOfJoin | api/scripts/set_transcript.py:39 | lines come back from either line ending |
| TranscriptRoundTrip.FeedBlock | api/scripts/set_transcript.py:44-67 | a closed block, with ignorable lines around its cue and remarks inside its quotes, adds exactly its utterance |
| TranscriptRoundTrip.FeedEnding | api/scripts/set_transcript.py:44-67 | trailing lines and an unclosed final quote add nothing |
| TranscriptRoundTrip.RoundTrip | api/scripts/set_transcript.py:32-71 | printing utterances as a script and parsing it gives back exactly the utterances, in order, and their number |
| TranscriptRoundTrip.CountIsLines | api/scripts/set_transcript.py:69-71 | for every text with a positive count, the count is the number of lines of the result |
| EvaluationCampaign.TotalLess | api/app/team/eval_campaign.py:258-267 | what terminal events spent together does not depend on the order of summation |
| EvaluationCampaign.Campaign.ReadTerminals | api/app/team/eval_campaign.py:240-253 | the last terminal event of every slot |
| EvaluationCampaign.Campaign.Sum | api/app/team/eval_campaign.py:256-267 | the sum of what the slots spent, unless one is unknown |
| EvaluationCampaign.Campaign.Claim | api/app/team/eval_campaign.py:216-287 | a slot is claimed if and only if the folder is this campaign's, all earlier slots have ended with known spending below both budgets, and the slot is free |
| EvaluationCampaign.Campaign.EnforceBudget | api/app/team/eval_campaign.py:290-331 | a run passes if and only if its spending is known and fits its own limit and, with all other slots, the limits of the campaign |
| CampaignConditions.TerminalsExactly | api/app/team/eval_campaign.py:240-253 | a slot has ended with an event if and only if it is the last succeeded or failed one of the slot |
| CampaignConditions.TotalExactly | api/app/team/eval_campaign.py:258-267 | what slots spent together is the attempts and the costs on record, added up |
| CampaignConditions.InTurnExactly | api/app/team/eval_campaign.py:254-267 | a slot is in turn if and only if every slot before it has ended, with known spending, together below both budgets |
| CampaignConditions.MayClaimExactly | api/app/team/eval_campaign.py:216-287 | a slot may be claimed if and only if the folder is of no campaign yet or of this one, the slot is in turn, and nobody has claimed it |
| CampaignConditions.WithinBudgetExactly | api/app/team/eval_campaign.py:290-331 | a run is within budget if and only if its attempts and cost are on record, its attempts at most those of a run, and what all other ended slots are known to have spent, with it, at most what the campaign may |
| CampaignConditions.HistoryExactly | api/app/team/eval_campaign.py:240-253 | the history of a slot is the states of its events, one each, in the order of the log |
| CampaignConditions.LifecycleExactly | api/scripts/run_extract_eval.py:621-797 | a slot is opened, started, succeeded, in this order, or failed at any point, which ends it |
| EvaluationCampaign.ObservedExactly | api/scripts/run_extract_eval.py:766-770 | what an execution is observed to have spent: its attempts and cost as rolled up, unknown without either |
| EvaluationCampaign.NextAfter | api/app/team/eval_campaign.py:240-287 | after a slot in turn has ended the next is in turn if and only if what was logged as spent by it is known and, with the earlier slots, below both budgets |
| EvaluationCampaign.Campaign.OpenTruth | api/scripts/run_extract_eval.py:621-665 | the truth is opened if and only if sources and truth are as registered and well formed, and every failure before that is logged as the end of the slot |
| CampaignConditions.OpensExactly | api/scripts/run_extract_eval.py:621-665 | the truth is opened if and only if the sources are as registered and it can be read, is well formed and, for a campaign, is the registered one |
| CampaignConditions.CompletesExactly | api/scripts/run_extract_eval.py:723-770 | a run completes if and only if its start is logged where there is a campaign, its execution raises nothing, and a campaign run is within budget |
| CampaignConditions.LostExactly | api/scripts/run_extract_eval.py:621-797 | a claimed slot gets its terminal event if and only if its truth was not opened, or the store was found, the start logged, and a completed run reported or a failed one closed |
| CampaignConditions.SpentExactly | api/scripts/run_extract_eval.py:621-797 | what its terminal event says was spent |
| EvaluationCampaign.Campaign.RunRow | api/scripts/run_extract_eval.py:723-787 | a run is executed if and only if its start was logged where it must be, nothing was raised and its budget was kept; the log says what became of it and what it spent: what was observed of an execution, unknown if it raised early; its row is left running if and only if the start could not be logged or the failure not written |
| EvaluationCampaign.Campaign.Proceed | api/scripts/run_extract_eval.py:621-795 | exactly when the truth is read and the run executed, what its row shows, and what its terminal event says was spent: nothing unless the truth was opened; the events of a claimed slot form a lifecycle, ended if and only if the outcome was not lost |
| EvaluationCampaign.Campaign.Evaluate | api/scripts/run_extract_eval.py:567-795 | any invocation: the truth is read only after the guard and, in a campaign, under a slot claimed by this evaluation; the terminal event of the slot says what was spent, and the next slot can then be claimed if and only if nobody has and that spending leaves something of both budgets; without the claim nothing is logged and no row is made, and outside a campaign nothing is claimed or logged |
| CampaignInterleavings.EveryRunSound | api/scripts/run_extract_eval.py:567-795 | over every interleaving with crashes the folder, the evaluations under way, the readers of truths and the run rows stay consistent |
| CampaignInterleavings.OneSlotAtATime | api/app/team/eval_campaign.py:236-287 | slots are claimed in order, one at a time, all but the last have ended, and each goes through opened, started, then at most one of failed or succeeded |
| CampaignInterleavings.TruthReadOncePerSlot | api/scripts/run_extract_eval.py:567-665 | a held-out truth is read only with permission and under a claimed slot, at most once per slot |
| CampaignInterleavings.OverrunOnlyByFailure | api/app/team/eval_campaign.py:254-331 | before the last slot the budgets were not used up, and a last slot that succeeded kept within them with all before it |
| CampaignInterleavings.RowsClosed | api/scripts/run_extract_eval.py:750-768 | a run that the log shows as failed or succeeded has a row that says so, and a failing execution closes its row before it is logged |
| CampaignInterleavings.ClosedRowStays | api/scripts/run_extract_eval.py:755-763 | a closed row never changes again |
| CampaignProspects.OverForGood | api/app/team/eval_campaign.py:236-271 | when nobody holds a slot and no next slot is scheduled and in turn, no slot is ever claimed again and nothing more is logged |
| CampaignProspects.CrashEndsCampaign | api/app/team/eval_campaign.py:254-257 | an evaluation that dies holding its slot ends the campaign |
| CampaignProspects.GoesOn | api/app/team/eval_campaign.py:216-287 | a next slot that is scheduled and in turn can be claimed |
| CampaignProspects.EndedInTurn | api/app/team/eval_campaign.py:254-271 | after a slot has ended the next is in turn if and only if what the slot spent is known and leaves something of both budgets |
| CampaignProspects.SlotRecords | api/scripts/run_extract_eval.py:766-797 | in every reachable campaign an execution that is settled and ends is logged with what was observed of its spending |
| CampaignProspects.ClaimsAgainExactly | api/app/team/eval_campaign.py:216-287 | some continuation claims a further slot if and only if nobody holds a slot and the next is scheduled and in turn, or one more slot is scheduled and the holder of the last has not settled its spending yet or has settled it, known and below what the budgets leave |
| PinnedSession.Session.Execute | api/app/db_session.py:10-11 | a statement runs on the pinned connection, or on one borrowed and returned |
| PinnedSession.Session.Within | api/app/db_session.py:14-25 | a transaction on the pinned connection begins and ends around its body, however the body ends |
| PinnedSession.Session.Outermost | api/app/db_session.py:19-25 | the outermost transaction pins a connection first, and clears the pin before releasing it, on every exit |
| PinnedSession.Session.Run | api/app/db_session.py:5-25 | for every program and every failure the session ends as it began, what happened is exactly what the program prescribes, and the log keeps the discipline |
| PinnedSession.OneConnectionThroughout | api/app/db_session.py:14-25 | between pinning and clearing nothing is acquired or released and everything runs on the pinned connection |
| PinnedSession.ReleasedUnpinned | api/app/db_session.py:19-25 | a connection is released only unpinned and with no transaction open |
| SessionLogs.LeadsExactly | api/app/db_session.py:5-25 | which connection is out, which is pinned and how many transactions are open, read off the log |
| SessionLogs.DisciplineExactly | api/app/db_session.py:10-25 | a log keeps the discipline if and only if each event may follow those before it: acquired when none is out, pinned once, transactions on the pinned connection, statements on the one that is out and pinned exactly inside a transaction, released without a pin |
| SessionLogs.EverythingFinished | api/app/db_session.py:14-25 | whatever a program does and wherever it raises, transactions begun are finished, pins cleared, connections released, and inside a transaction nothing is acquired |
| SessionLogs.HappensExactly | api/app/db_session.py:10-25 | what statements and transactions do, pinned or not, with every fault |
| SessionLogs.CompletesExactly | api/app/db_session.py:14-25 | when they end without an exception |
| SessionLogs.Grouping | api/app/db_session.py:5-25 | how a sequence of steps is grouped does not matter |
| SessionLogs.Raising | api/app/db_session.py:14-25 | nothing happens after a raise, and a swallowed one leaves no trace |
| CostSpans.MemorySink.Finalize | api/scripts/run_intake_classifier_eval.py:36-38 | finalising an attempt changes its own row only |
| CostSpans.MemorySink.RunCases | api/scripts/run_intake_classifier_eval.py:76-107 | all calls of all cases are recorded in order, and each id gets the span of its last case, at the place of its first |
| CostSpans.ReceiptsExactly | api/scripts/run_intake_classifier_eval.py:76-107 | the calls of the cases stand one after the other, each as finalised, or open under its model |
| CostSpans.OrderExactly | api/scripts/run_intake_classifier_eval.py:85-107 | the ids stand in the order of the first cases that have them |
| CostSpans.MemorySink.Rows | api/scripts/run_intake_classifier_eval.py:40-54 | a row is charged to the last id in order whose span covers it, or to nobody |
| CostSpans.OwnerOfDisjoint | api/scripts/run_intake_classifier_eval.py:40-54 | where spans do not overlap that is the one id whose span covers the row |
| CostSpans.SpansDisjoint | api/scripts/run_intake_classifier_eval.py:85-107 | spans never overlap, whether ids repeat or not |
| CostSpans.ChargedExactly | api/scripts/run_intake_classifier_eval.py:40-54 | a call is charged to the id of its case if and only if no later case has the same id |
| CostSpans.AllCharged | api/scripts/run_intake_classifier_eval.py:40-54 | every call is charged if and only if no case that made calls is followed by one with the same id |
| CostSpans.BillsAddUp | api/scripts/run_intake_classifier_eval.py:57-66 | when rows are charged to distinct ids, the bills of the ids add up to the summary |
| CostSpans.BillExactly | api/scripts/run_intake_classifier_eval.py:57-66 | the bill of a case is the number of its calls, the sum of the costs there are and the sum of the known amounts there are |
| CostSpans.Evaluate | api/scripts/run_intake_classifier_eval.py:40-107 | with distinct case ids every call has exactly one owner, its case, and the bills of the cases add up |
| TokenAccounting.ListCalls | api/scripts/run_observation.py:184-209 | the calls of a run, by message or by equal shares |
| TokenAccounting.Measure | api/scripts/run_observation.py:221-225 | raw input and input above the baseline, call by call |
| TokenAccounting.MessagesExactly | api/scripts/run_observation.py:186-195 | the calls by message are exactly the first messages of their ids, in order, with the input and output they report |
| TokenAccounting.TotalsExactly | api/scripts/run_observation.py:196-207 | every completed turn adds its input and output, every action one call, and nothing else adds anything |
| TokenAccounting.OneCallPerId | api/scripts/run_observation.py:186-195 | there are as many calls as message ids |
| TokenAccounting.RepetitionIgnored | api/scripts/run_observation.py:189-190 | a repeated message changes nothing, whatever it reports and wherever it comes |
| TokenAccounting.SharesExact | api/scripts/run_observation.py:196-209 | the equal shares add up to the turn totals, and the pure input is what the total has above all baselines together, or zero |
| TokenAccounting.PureBounds | api/scripts/run_observation.py:223-225 | the pure input lies between raw input less one baseline per call and raw input, and equals the former if and only if every call reaches the baseline |
| NearestRank.Percentile | api/scripts/probe_ingest_capacity.py:19-20 | an element that at least the fraction of all do not exceed and less than the fraction lie below |
| NearestRank.PercentileUnique | api/scripts/probe_ingest_capacity.py:19-20 | there is only one such element, whatever the order of the values |
| EvaluationFacts.Validate | api/scripts/r_fact_evaluation.py:54-66 | a challenge passes if and only if format and hash are right, ids distinct, fixtures faithful and required ids known |
| EvaluationFacts.ValidExactly | api/scripts/r_fact_evaluation.py:54-66 | valid challenges field by field: format, hash, distinct ids, a fixture under the id and with the assertion of its fact, required ids among the facts |
| EvaluationFacts.Freeze | api/scripts/r_fact_evaluation.py:37-51 | a challenge can be frozen if and only if its hash is right, its ids distinct and its required ids known, and the result is valid |
| EvaluationFacts.FixturesKeep | api/scripts/r_fact_evaluation.py:43-47 | freezing keeps every fact id, in order, with its assertion, and gives it a faithful fixture |
| EvaluationFacts.FreezeTwice | api/scripts/r_fact_evaluation.py:37-51 | freezing a frozen challenge changes no fact |
| EvaluationFacts.ApplyFactPatch | api/scripts/build_r_diagnostic_challenge.py:29-48 | a patch applies if and only if all its ids are known |
| EvaluationFacts.PatchKeeps | api/scripts/build_r_diagnostic_challenge.py:39-48 | a patch keeps every fact id, in order, with its assertion and fixture but for conditions and exceptions |
| EvaluationFacts.PatchFills | api/scripts/build_r_diagnostic_challenge.py:39-48 | a patched fact has the conditions and exceptions that the patch names for it, and otherwise its own |
| EvaluationFacts.NotesJoined | api/scripts/build_r_diagnostic_challenge.py:51-64 | notes are joined by a bar, an empty one leaving no trace |
| EvaluationFacts.Provenance | api/scripts/build_r_diagnostic_challenge.py:51-64 | what frozen challenges and diagnostics say of their origin, beside the facts |
| EvaluationFacts.Build | api/scripts/build_r_diagnostic_challenge.py:51-64 | a diagnostic is built if and only if the source is in fact format with distinct, faithful facts, and patch and cases name known ids; the result is valid |
| EvaluationFacts.FrozenThenBuilt | api/scripts/build_r_diagnostic_challenge.py:51-64 | any selection of the cases of a frozen challenge makes a valid diagnostic |
| EvaluationFacts.MapFact | api/scripts/r_fact_evaluation.py:88-100 | a fact is mapped if and only if it matches exactly one revision and that one is published |
| EvaluationFacts.PlacesExactly | api/scripts/r_fact_evaluation.py:84-100 | a place is one of a revision if and only if a block of a card there states it |
| EvaluationFacts.MapsExactly | api/scripts/r_fact_evaluation.py:84-100 | a fact is mapped to a revision if and only if that one, and no other, has its subject, attribute and assertion and is published, with all its places |
| EvaluationFacts.MapFacts | api/scripts/r_fact_evaluation.py:84-102 | the facts are mapped if and only if each can be and no revision is left over |
| EvaluationFacts.SharedExactly | api/scripts/r_fact_evaluation.py:90-92 | two facts share a revision if and only if subject, attribute and assertion agree |
| EvaluationFacts.FrozenOneToOne | api/scripts/r_fact_evaluation.py:84-102 | a mapped frozen challenge has one revision for each fact and one fact for each revision |
| EvaluationFacts.CitedExactly | api/scripts/r_fact_evaluation.py:108-117 | a fact is cited, or a candidate, exactly where a citation or a candidate block is at one of its places |
| EvaluationFacts.CitedAmongCandidates | api/scripts/r_fact_evaluation.py:108-117 | citations of candidate blocks cite candidate facts only |

## Left out

- Strings beyond what the properties need: digits are ASCII, lower and upper case fold ASCII letters and the dotless i only, and JSON numbers or booleans standing in text fields are not modelled.
- `core_key` and `names`: defined but called by nothing. `row_maps`, `clean`, `build_facts`, `mark_splits` and `fix_tokens`: they number rows before the vote, and drop fields, label, sort or rewrite the agreed facts after it, so that no property of a vote or a comparison depends on them.
- In the vote, records are identified by run and position, not by object identity.
- ComparisonReport.Compare: does not model the rounded recall ratio, nor the sorting and cutting of the missed facts (first 30) and of the unlinked names (20 most common), because they only present the counts.
- In the call campaign, the token count before the call, the request and wire files and the usage ledger of the service; an attempt that fails on them is one that raised without an answer.
- In the runner, receipts, citations and histories read back after each turn; a failure there raises and produces no run.
- In the report, latencies, costs and HTML.
- In the review log, the temporary file and its synchronisation; publication is the atomic link (the link() entry of POSIX.1-2017 System Interfaces).
- Also in the review log, the import of external proposals, and the fields of a decision other than its question.
- In the holdout campaign, validation of the campaign file itself; a validated run is a slot of the schedule under the content hash, and what a content hash stands for is fixed.
- In an evaluation, extraction, scoring and the report itself; the finer states of a completed run row are one state.
- In the pinned session, several tasks sharing one session at once.
- In the cost rows, model names, latencies and token columns beside the costs.
- In the token accounting, outputs, times, prices and rounding; shares are exact rationals.
- NearestRank.Percentile: does not model the scaling to milliseconds and the rounding of the result, and takes the fraction as an exact rational; with a binary fraction the product may round up past a whole number and the rank be one higher. The 95th percentile of the operations report is the same rank of the sorted latencies.
- Around the fact mapping, seeding, publication and the index that yields the snapshot; revision ids are taken to be distinct, as database keys are.
- In challenges, fields of a challenge that no step reads, such as its execution record.
- Databases, networks, model calls, clocks, argument parsing and file formats are outcomes of steps or parameters.
