# Dispatch console rules, modelled in Dafny

The repository is a mocked emergency-dispatch console built from React
components. This project models the deterministic rules inside those
components:

- the keyword classifier that picks an incident category and severity;
- the field extractor that pulls address, patient count and caller details out of the transcript with regular expressions, and the record it maintains;
- the live transcript: chunk accumulation, keyword highlighting, word count;
- the first-aid protocol stepper and the views derived from it (progress tracker, instruction card, protocol selector);
- the dispatch panel on the call screen and the dispatch status card;
- the ambulance selection table and the ambulance dispatch page;
- the workflow progress bar, the quick-action panel and the demo tour.

Each source component is one Dafny module. Pure rules are functions. State
a component keeps and updates is a class whose methods are the handlers.
Each timer or interval firing is its own method. Confidences and percentages are `real`
(exact rationals), integers are unbounded, and strings are `seq<char>`.
Lower-casing is ASCII. White space, for `\s` and for `parseInt`, is JavaScript's set: the ASCII blanks, the no-break and Unicode spaces, the line and paragraph separators and the byte-order mark. The modules are:

| module | models |
|---|---|
| `Text` | shared string helpers: ASCII lower-casing, substring search, decimal rendering, `parseInt` |
| `Lists` | `Array.prototype.filter` and its partition lemmas |
| `Classification`, `ClassificationFixture` | `IncidentClassification.jsx`, and the page's mock keywords |
| `Patterns`, `Extraction` | the regular expressions and the record of `ExtractedInformation.jsx` |
| `Transcription` | `LiveTranscription.jsx` |
| `FirstAid` | `first-aid-guidance/index.jsx` |
| `ProgressTracker`, `InstructionCard`, `ProtocolSelector` | the first-aid components of those names |
| `EmergencyActions`, `DispatchStatus` | the call-screen components of those names |
| `AmbulanceTable`, `AmbulanceDispatch` | `AmbulanceSelectionTable.jsx` and `ambulance-dispatch/index.jsx` |
| `WorkflowProgress`, `QuickActions`, `Demo` | `WorkflowProgressIndicator.jsx`, `QuickActionPanel.jsx`, `Demo.tsx` |

Where the written description of the system and the code disagree, the
model follows the code:

- A transcript saying "0 people" gives a patient count of 0. The description says the count is never 0. The code stores `parseInt` of the digits as they are. Only the edit input's `|| 1` turns 0 into 1.
- The description has the dispatch status of the ambulance page moving only forward. The code does not guarantee this (see "## Findings").

## Model

| member | source | states |
|---|---|---|
| Classification.MatchingKeywords | src/pages/emergency-call-interface/components/IncidentClassification.jsx:59-63 | the matching keywords are drawn from the detected list, never more of them, and a keyword is kept exactly when it mentions a category phrase |
| Classification.MatchingIsFilter | src/pages/emergency-call-interface/components/IncidentClassification.jsx:59-63 | a keyword counts for a category iff its lowered word contains one of the category's lowered phrases as a substring |
| Classification.BestUpToIsRunningMaximum | src/pages/emergency-call-interface/components/IncidentClassification.jsx:55-72 | after n categories the loop holds a score no smaller than any of theirs, strictly larger than every earlier one, and it is the score of the index it holds |
| Classification.BestIsEarliestBest | src/pages/emergency-call-interface/components/IncidentClassification.jsx:58-72 | the loop's winner is exactly the earliest category whose positive score no other category beats |
| Classification.TieGoesToEarlierCategory | src/pages/emergency-call-interface/components/IncidentClassification.jsx:67-70 | of two categories with equal scores the later one is never chosen (strict `>`) |
| Classification.SumConfidenceBounds | src/pages/emergency-call-interface/components/IncidentClassification.jsx:66 | the sum of n confidences in [0,1] lies in [0,n] |
| Classification.ScoreInUnitRange | src/pages/emergency-call-interface/components/IncidentClassification.jsx:66 | a category's mean score lies in [0,1] when every confidence does |
| Classification.EmptyKeywordsCommitNothing | src/pages/emergency-call-interface/components/IncidentClassification.jsx:53 | an empty keyword list commits nothing (early return, no reset) |
| Classification.CommittedOutcome | src/pages/emergency-call-interface/components/IncidentClassification.jsx:74-76 | a committed category is the earliest best one, its confidence is its score and above 0.7, and at most 1 when confidences lie in [0,1] |
| Classification.NoCommitBelowThreshold | src/pages/emergency-call-interface/components/IncidentClassification.jsx:74 | when no category scores above 0.7 nothing is committed |
| Classification.CommitAboveThreshold | src/pages/emergency-call-interface/components/IncidentClassification.jsx:74 | when some category scores above 0.7 a category is committed |
| Classification.SeverityRule | src/pages/emergency-call-interface/components/IncidentClassification.jsx:79-92 | critical iff any detected word has a critical phrase or the score is above 0.95; moderate iff neither and the score is above 0.85; stable otherwise |
| Classification.SeverityMonotoneInScore | src/pages/emergency-call-interface/components/IncidentClassification.jsx:86-92 | a higher score never yields a lower severity |
| Classification.IncidentClassifier.constructor | src/pages/emergency-call-interface/components/IncidentClassification.jsx:6-8 | no category, severity moderate, confidence 0 |
| Classification.IncidentClassifier.AutoClassify | src/pages/emergency-call-interface/components/IncidentClassification.jsx:52-94 | the loop commits the classification the specification function gives, or leaves all three fields unchanged |
| Classification.IncidentClassifier.SelectCategory | src/pages/emergency-call-interface/components/IncidentClassification.jsx:106-109 | a manual pick sets the category and confidence 1.0 and keeps the severity |
| Classification.IncidentClassifier.SelectSeverity | src/pages/emergency-call-interface/components/IncidentClassification.jsx:201 | the severity buttons set the severity and nothing else |
| ClassificationFixture.CallKeywordsClassifyAsCriticalCardiac | src/pages/emergency-call-interface/index.jsx:26-31 | the page's four mock keywords classify as cardiac, confidence 0.98, severity critical |
| Patterns.RunEndIsLongest | src/pages/emergency-call-interface/components/ExtractedInformation.jsx:40 | a greedy `+` run ends no earlier than any other run from the same start |
| Patterns.AddressMatchSpec | src/pages/emergency-call-interface/components/ExtractedInformation.jsx:40 | the address pattern matches iff some substring has its shape; the match starts leftmost and its street suffix starts as late as possible, taking the first alternative written |
| Patterns.AddressAtSound | src/pages/emergency-call-interface/components/ExtractedInformation.jsx:40 | what the matcher finds at a position has the pattern's shape |
| Patterns.AddressAtComplete | src/pages/emergency-call-interface/components/ExtractedInformation.jsx:40 | any match of the pattern's shape at that position has its suffix no later than the one found |
| Patterns.UnitMatchSpec | src/pages/emergency-call-interface/components/ExtractedInformation.jsx:41 | the apartment pattern matches iff some substring has its shape; the match starts leftmost and ends at a word's end |
| Patterns.PatientMatchSpec | src/pages/emergency-call-interface/components/ExtractedInformation.jsx:58 | the patient pattern matches iff some substring has its shape; its group is the whole digit run of the leftmost start |
| Patterns.PatientMatchAcrossNoBreakSpace | src/pages/emergency-call-interface/components/ExtractedInformation.jsx:58 | "2" followed by a no-break space and "people" gives the count group "2", since `\s` takes JavaScript's white space |
| Patterns.NameMatchSpec | src/pages/emergency-call-interface/components/ExtractedInformation.jsx:71-75 | the name pattern matches iff some substring has its shape; the reported group is the two words after the lead-in at the leftmost start |
| Patterns.RelationMatchSpec | src/pages/emergency-call-interface/components/ExtractedInformation.jsx:72-82 | a relation is found iff some `my ` is followed by a listed relation, and it is such a word |
| Extraction.EmptyTranscriptChangesNothing | src/pages/emergency-call-interface/components/ExtractedInformation.jsx:35 | an empty transcript leaves the record unchanged |
| Extraction.ExtractIdempotent | src/pages/emergency-call-interface/components/ExtractedInformation.jsx:34-87 | running extraction twice on the same text gives the record of running it once |
| Extraction.ExtractedLocation | src/pages/emergency-call-interface/components/ExtractedInformation.jsx:43-55 | on an address match the address is the match plus `", "` and the apartment match if any, with the mock coordinates and 0.92; `verified` is kept; no match leaves the section alone |
| Extraction.VerifiedLocationNotFrozen | src/pages/emergency-call-interface/components/ExtractedInformation.jsx:46-54 | a saved location is still overwritten by a later match, its confidence back at 0.92 |
| Extraction.ExtractedPatientCount | src/pages/emergency-call-interface/components/ExtractedInformation.jsx:58-68 | on a match the section is replaced whole: count is `parseInt` of the digit group, confidence 0.88, details "N person(s) involved"; otherwise unchanged |
| Extraction.InitialCountSurvivesNoMatch | src/pages/emergency-call-interface/components/ExtractedInformation.jsx:14-18 | with no patient phrase the count stays at its initial 1 |
| Extraction.ExtractedCaller | src/pages/emergency-call-interface/components/ExtractedInformation.jsx:71-86 | only a name match changes the caller section: name, mock phone, 0.85, and the relation word or "caller" |
| Extraction.ExtractedTextIsLower | src/pages/emergency-call-interface/components/ExtractedInformation.jsx:37 | any extracted address or name has no upper-case letter |
| Extraction.VerifyTouchesOneSection | src/pages/emergency-call-interface/components/ExtractedInformation.jsx:109-116 | saving marks only its own section verified with confidence 1.0, keeps its values and the other sections, and is idempotent |
| Extraction.SetFlag | src/pages/emergency-call-interface/components/ExtractedInformation.jsx:96-106 | setting one section's edit flag leaves the other two flags as they were |
| Extraction.CountInput | src/pages/emergency-call-interface/components/ExtractedInformation.jsx:266 | the count typed into the input is never 0 |
| Extraction.CountInputRoundTrip | src/pages/emergency-call-interface/components/ExtractedInformation.jsx:266 | a typed non-zero count reads back as itself; a typed 0 becomes 1 |
| Extraction.CountInputOfNonNumber | src/pages/emergency-call-interface/components/ExtractedInformation.jsx:266 | input that does not parse (NaN) becomes 1 |
| Extraction.ConfidenceBandMonotone | src/pages/emergency-call-interface/components/ExtractedInformation.jsx:149-153 | a higher confidence never gets a worse colour band |
| Extraction.ConfidenceBandsOfConstants | src/pages/emergency-call-interface/components/ExtractedInformation.jsx:149-153 | saved (1.0) and address (0.92) confidences show success; 0.88 and 0.85 show warning; 0 shows error |
| Extraction.InformationPanel.constructor | src/pages/emergency-call-interface/components/ExtractedInformation.jsx:7-31 | the initial record and no section being edited |
| Extraction.InformationPanel.OnTranscript | src/pages/emergency-call-interface/components/ExtractedInformation.jsx:34-87 | the effect leaves the record the extraction function gives and the edit flags unchanged |
| Extraction.InformationPanel.UpdateLocation | src/pages/emergency-call-interface/components/ExtractedInformation.jsx:43-55 | the address step changes only the location section |
| Extraction.InformationPanel.UpdatePatientCount | src/pages/emergency-call-interface/components/ExtractedInformation.jsx:59-68 | the count step changes only the patient-count section |
| Extraction.InformationPanel.UpdateCallerDetails | src/pages/emergency-call-interface/components/ExtractedInformation.jsx:74-86 | the caller step changes only the caller section |
| Extraction.InformationPanel.Edit | src/pages/emergency-call-interface/components/ExtractedInformation.jsx:95-100 | toggles only that section's edit flag; the record is unchanged |
| Extraction.InformationPanel.Save | src/pages/emergency-call-interface/components/ExtractedInformation.jsx:102-117 | clears that section's edit flag and verifies that section only |
| Extraction.InformationPanel.ChangeLocation | src/pages/emergency-call-interface/components/ExtractedInformation.jsx:119-127 | sets one location field only |
| Extraction.InformationPanel.ChangePatientCount | src/pages/emergency-call-interface/components/ExtractedInformation.jsx:266 | the count becomes the parsed input, or 1 |
| Extraction.InformationPanel.ChangePatientDetails | src/pages/emergency-call-interface/components/ExtractedInformation.jsx:129-137 | sets the details only |
| Extraction.InformationPanel.ChangeCaller | src/pages/emergency-call-interface/components/ExtractedInformation.jsx:139-147 | sets one caller field only |
| Transcription.Append | src/pages/emergency-call-interface/components/LiveTranscription.jsx:42-45 | the old text is a prefix of the new one, which is longer by the chunk plus a blank line when the old text is non-empty |
| Transcription.JoinedIsJoinWithBlankLines | src/pages/emergency-call-interface/components/LiveTranscription.jsx:42-45 | repeated appends equal the chunks joined by blank lines |
| Transcription.JoinedStep | src/pages/emergency-call-interface/components/LiveTranscription.jsx:40-47 | one more chunk shown is one more append |
| Transcription.TicksShowPrefixOfChunks | src/pages/emergency-call-interface/components/LiveTranscription.jsx:38-51 | after n ticks from activation the text is the first n chunks in order, joined by blank lines |
| Transcription.LiveTranscript.constructor | src/pages/emergency-call-interface/components/LiveTranscription.jsx:6-36 | starts empty |
| Transcription.LiveTranscript.SetCallActive | src/pages/emergency-call-interface/components/LiveTranscription.jsx:32-54 | going inactive clears the text; going active restarts the counter; an unchanged flag changes nothing |
| Transcription.LiveTranscript.Tick | src/pages/emergency-call-interface/components/LiveTranscription.jsx:39-51 | while active and chunks remain, appends the next chunk; otherwise nothing; the old text stays a prefix |
| Transcription.LiveTranscript.Clear | src/pages/emergency-call-interface/components/LiveTranscription.jsx:75-77 | the text becomes empty |
| Transcription.HighlightKeywords | src/pages/emergency-call-interface/components/LiveTranscription.jsx:62-73 | empty input is returned unchanged; otherwise the loop's result is every keyword wrapped in turn |
| Transcription.LeftmostOccurrenceWrapped | src/pages/emergency-call-interface/components/LiveTranscription.jsx:67-69 | the leftmost case-insensitive occurrence is wrapped in the tag with its own casing, and the rest is replaced the same way |
| Transcription.ReplaceAllUnmarks | src/pages/emergency-call-interface/components/LiveTranscription.jsx:67-69 | removing the tags after one keyword's replace-all gives back its input |
| Transcription.HighlightRoundTrip | src/pages/emergency-call-interface/components/LiveTranscription.jsx:62-73 | removing the inserted `<mark …>`/`</mark>` tags from the highlighted text gives back the input |
| Transcription.SplitOnSpaceJoins | src/pages/emergency-call-interface/components/LiveTranscription.jsx:187 | `split(' ')` pieces contain no space and join back with spaces to the text |
| Transcription.WordCountIsWordStarts | src/pages/emergency-call-interface/components/LiveTranscription.jsx:187 | the word count equals the number of non-space characters at the start or after a space, so newlines do not separate words |
| Transcription.TextWithoutSpacesIsOneWord | src/pages/emergency-call-interface/components/LiveTranscription.jsx:187 | a non-empty text without spaces counts as one word |
| FirstAid.ProtocolSteps | src/pages/first-aid-guidance/index.jsx:37-161 | only `cpr` has steps; any other id gives the empty list |
| FirstAid.FindStep | src/pages/first-aid-guidance/index.jsx:162 | a found step is in the list with that number; none is found when no step has it |
| FirstAid.FindNumberedStep | src/pages/first-aid-guidance/index.jsx:162 | in a list numbered 1..n step k is found iff 1 ≤ k ≤ n, and it is the k-th |
| FirstAid.CprStepsNumberedInOrder | src/pages/first-aid-guidance/index.jsx:38-158 | the CPR steps are numbered 1..5 in order |
| FirstAid.UnknownProtocolHasNoStep | src/pages/first-aid-guidance/index.jsx:161-162 | an unknown protocol has no steps and no current step data |
| FirstAid.CprLastStep | src/pages/first-aid-guidance/index.jsx:156 | among the CPR steps only step 5 is marked last |
| FirstAid.ResetIsStepping | src/pages/first-aid-guidance/index.jsx:164-169 | the reset state satisfies the stepping invariant |
| FirstAid.NextKeepsStepping | src/pages/first-aid-guidance/index.jsx:175-184 | Next keeps the invariant; below the last step it appends the current step; at the last it changes nothing and navigates |
| FirstAid.PreviousKeepsStepping | src/pages/first-aid-guidance/index.jsx:186-192 | Previous keeps the invariant, is a no-op at step 1, and otherwise steps back and drops the new current step from the completed list |
| FirstAid.PreviousUndoesNext | src/pages/first-aid-guidance/index.jsx:175-192 | Previous after a Next that moved returns to the earlier state, with the confirmation cleared |
| FirstAid.LastStepNeverCompleted | src/pages/first-aid-guidance/index.jsx:176-183 | the last step is never among the completed steps |
| FirstAid.PressesKeepStepping | src/pages/first-aid-guidance/index.jsx:175-192 | any sequence of Next/Previous presses keeps 1 ≤ current ≤ n and completed == [1..current-1] |
| FirstAid.Guidance.constructor | src/pages/first-aid-guidance/index.jsx:18-25 | opens on CPR in the reset state |
| FirstAid.Guidance.ChangeProtocol | src/pages/first-aid-guidance/index.jsx:164-173 | changing protocol resets step 1, no completed steps, unconfirmed; the same protocol changes nothing |
| FirstAid.Guidance.Next | src/pages/first-aid-guidance/index.jsx:175-184 | new state and navigation as the stepping function gives |
| FirstAid.Guidance.Previous | src/pages/first-aid-guidance/index.jsx:186-192 | new state as the stepping function gives |
| FirstAid.Guidance.VoicePlay | src/pages/first-aid-guidance/index.jsx:199-206 | audio is playing; nothing else changes |
| FirstAid.Guidance.StopAudio | src/pages/first-aid-guidance/index.jsx:256-258 | audio stops; nothing else changes |
| FirstAid.Guidance.PlayInstruction | src/pages/first-aid-guidance/index.jsx:250-254 | audio starts only when there is current step data |
| FirstAid.Guidance.ToggleVoiceListening | src/pages/first-aid-guidance/index.jsx:246-248 | flips the listening flag only |
| FirstAid.Guidance.SetCallerConfirmed | src/pages/first-aid-guidance/index.jsx:385-394 | sets the confirmation only |
| FirstAid.Guidance.VoiceCommand | src/pages/first-aid-guidance/index.jsx:208-234 | next and previous act as the buttons, play and stop set the audio flag, any other command changes nothing |
| ProgressTracker.ProgressPercentage | src/pages/first-aid-guidance/components/ProgressTracker.jsx:12 | undefined (NaN) exactly for zero steps; otherwise within [0,100] when no more steps are completed than exist |
| ProgressTracker.PercentageUnderStepping | src/pages/first-aid-guidance/components/ProgressTracker.jsx:12 | under the stepping invariant the percentage is (current-1)/total·100, below 100 |
| ProgressTracker.RemainingUnderStepping | src/pages/first-aid-guidance/components/ProgressTracker.jsx:97 | remaining = total − current lies in [0, total−1] and is 0 exactly on the last step |
| ProgressTracker.Timeline | src/pages/first-aid-guidance/components/ProgressTracker.jsx:139-142 | exactly `total` entries numbered 1..total, each Done iff its number is completed |
| ProgressTracker.TimelineUnderStepping | src/pages/first-aid-guidance/components/ProgressTracker.jsx:139-168 | under the invariant entries before the current step are Done, the current one Active, later ones Pending |
| ProgressTracker.OneActiveEntry | src/pages/first-aid-guidance/components/ProgressTracker.jsx:141-142 | at most one entry is Active |
| ProgressTracker.ResponsivenessIgnoresCase | src/pages/first-aid-guidance/components/ProgressTracker.jsx:14-27 | the lookup gives the same style for a level and its lower-cased form |
| ProgressTracker.PageResponsivenessIsGood | src/pages/first-aid-guidance/components/ProgressTracker.jsx:14-27 | "Good" maps to the good style |
| InstructionCard.IconAgreesWithStatus | src/pages/first-aid-guidance/components/InstructionCard.jsx:39-49 | icon and style follow the same precedence: check mark iff success, the step's own icon iff primary, circle when muted |
| InstructionCard.Playback.Play | src/pages/first-aid-guidance/components/InstructionCard.jsx:30-31 | playing starts and the counter keeps its value |
| InstructionCard.Playback.Tick | src/pages/first-aid-guidance/components/InstructionCard.jsx:18-23 | while playing the counter grows by one per tick, otherwise it is unchanged, and it stays 0 when not playing |
| InstructionCard.Playback.Finish | src/pages/first-aid-guidance/components/InstructionCard.jsx:24-36 | playing stops and the counter returns to 0 |
| InstructionCard.TimerRoundTrip | src/pages/first-aid-guidance/components/InstructionCard.jsx:193 | parsing the `m:ss` display gives back the elapsed seconds |
| InstructionCard.SecondsField | src/pages/first-aid-guidance/components/InstructionCard.jsx:193 | the padded seconds field is two digits reading as the seconds |
| InstructionCard.ButtonsMatchStepping | src/pages/first-aid-guidance/components/InstructionCard.jsx:208-233 | on CPR, Previous is disabled iff pressing it changes nothing, and the label is "Complete Protocol" iff Next navigates |
| InstructionCard.PlaybackPercent | src/pages/first-aid-guidance/components/InstructionCard.jsx:244 | non-negative, uses 30 s when the duration is 0, and at most 100 while the counter is within the duration |
| ProtocolSelector.RecommendedProtocols | src/pages/first-aid-guidance/components/ProtocolSelector.jsx:76-92 | the recommendation is never empty and drawn from the table |
| ProtocolSelector.FilterNeverEmpty | src/pages/first-aid-guidance/components/ProtocolSelector.jsx:77-91 | every incident type passes at least one protocol, so the first-three fallback is never taken |
| ProtocolSelector.RecommendedForKnownType | src/pages/first-aid-guidance/components/ProtocolSelector.jsx:78-86 | a known lower-cased type recommends exactly the protocols with its listed ids |
| ProtocolSelector.RecommendedForOtherType | src/pages/first-aid-guidance/components/ProtocolSelector.jsx:87-88 | any other or missing type recommends exactly the CRITICAL protocols |
| ProtocolSelector.RecommendedAndOtherPartition | src/pages/first-aid-guidance/components/ProtocolSelector.jsx:94-95 | each table protocol is in exactly one of recommended and other |
| ProtocolSelector.OtherProtocolsFromTable | src/pages/first-aid-guidance/components/ProtocolSelector.jsx:95 | other protocols are table protocols not recommended |
| ProtocolSelector.PageRecommendsCpr | src/pages/first-aid-guidance/components/ProtocolSelector.jsx:220 | for the page's "Cardiac" incident, reset selects `cpr` |
| ProtocolSelector.PulseMarksDefaultRecommendation | src/pages/first-aid-guidance/components/ProtocolSelector.jsx:63-74 | a badge pulses iff its priority is CRITICAL, which is exactly the default recommendation |
| EmergencyActions.NoClassificationRecommendsFirstTwo | src/pages/emergency-call-interface/components/EmergencyActions.jsx:116 | with no classification, `cpr` and `bleeding` are offered |
| EmergencyActions.RecommendedForClassification | src/pages/emergency-call-interface/components/EmergencyActions.jsx:118-120 | a protocol is offered iff its category is the classified one or `other`; choking is always offered |
| EmergencyActions.PriorityFromScore | src/pages/emergency-call-interface/components/EmergencyActions.jsx:123-134 | with the classifier's severity, priority is emergency for a critical phrase or score above 0.95, urgent above 0.85, standard otherwise |
| EmergencyActions.EtaLabelTellsPriority | src/pages/emergency-call-interface/components/EmergencyActions.jsx:165-166 | distinct priorities show distinct ETA labels |
| EmergencyActions.PageKeywordsMeanEmergency | src/pages/emergency-call-interface/components/EmergencyActions.jsx:123-166 | the page's keywords lead to an emergency dispatch labelled 4-6 min |
| EmergencyActions.OfferedQuestions | src/pages/emergency-call-interface/components/EmergencyActions.jsx:256 | exactly the first 4 of the 6 questions |
| EmergencyActions.DispatchPanel.Dispatch | src/pages/emergency-call-interface/components/EmergencyActions.jsx:58-79 | starts iff both classification and information exist (a null category passes); the payload carries them unchanged |
| EmergencyActions.DispatchPanel.Resolve | src/pages/emergency-call-interface/components/EmergencyActions.jsx:70-178 | the pending payload is handed over, status is dispatched and the button disabled |
| AmbulanceTable.EtaRoundTrip | src/pages/ambulance-dispatch/components/AmbulanceSelectionTable.jsx:28-33 | reading `formatETA` back gives the minutes, so hours·60 + minutes is the input |
| AmbulanceTable.SelectableIffAvailableBadge | src/pages/ambulance-dispatch/components/AmbulanceSelectionTable.jsx:93-264 | the radio and Contact button are enabled iff the unit wears the AVAILABLE badge |
| AmbulanceTable.StatusBadgesDistinct | src/pages/ambulance-dispatch/components/AmbulanceSelectionTable.jsx:8-21 | the default badge is used exactly for statuses other than the four known ones |
| AmbulanceTable.EquipmentViewOf | src/pages/ambulance-dispatch/components/AmbulanceSelectionTable.jsx:233-245 | at most 3 items shown, a prefix of the list, "+N more" iff there are more than 3, and shown + N = all |
| AmbulanceTable.CrewContact.Contact | src/pages/ambulance-dispatch/components/AmbulanceSelectionTable.jsx:23-24 | the unit being contacted is recorded |
| AmbulanceTable.CrewContact.ContactTimeout | src/pages/ambulance-dispatch/components/AmbulanceSelectionTable.jsx:25 | the indicator clears |
| AmbulanceDispatch.FirstRecommended | src/pages/ambulance-dispatch/index.jsx:139 | a found unit is the first recommended one in list order; none is found when no unit is recommended |
| AmbulanceDispatch.RecommendedUnitIsAvailable | src/pages/ambulance-dispatch/index.jsx:43-139 | the auto-selected unit is amb-001 and it is AVAILABLE |
| AmbulanceDispatch.ConfirmAsWrittenGoesBackwards | src/pages/ambulance-dispatch/index.jsx:109-110 | as written, confirming after `dispatched` moves the status back to `dispatching` |
| AmbulanceDispatch.Confirm | src/pages/ambulance-dispatch/index.jsx:109-110 | corrected confirm never moves the status back and starts dispatching only from selecting |
| AmbulanceDispatch.RunNeverGoesBack | src/pages/ambulance-dispatch/index.jsx:20-120 | any sequence of confirmations and timer firings only moves the status forward |
| AmbulanceDispatch.DispatchPage.SelectAmbulance | src/pages/ambulance-dispatch/index.jsx:105-107 | stores the id as given, with no availability check; the status is unchanged |
| AmbulanceDispatch.DispatchPage.AutoSelectTick | src/pages/ambulance-dispatch/index.jsx:135-147 | with no selection picks amb-001; a selection is left alone |
| AmbulanceDispatch.DispatchPage.ConfirmDispatch | src/pages/ambulance-dispatch/index.jsx:109-111 | status as the corrected confirm gives, never backwards; the selected ambulance is unchanged |
| AmbulanceDispatch.DispatchPage.DispatchTimer | src/pages/ambulance-dispatch/index.jsx:113-115 | status becomes dispatched; the selection is unchanged |
| DispatchStatus.StageOf | src/pages/emergency-call-interface/components/DispatchStatus.jsx:10-35 | a stage is found iff the status is a table key, and it is the stage of that key |
| DispatchStatus.IndexOf | src/pages/emergency-call-interface/components/DispatchStatus.jsx:99 | the key's position, or −1 exactly for a status not in the table |
| DispatchStatus.StatusStyleOfKnownStages | src/pages/emergency-call-interface/components/DispatchStatus.jsx:56-68 | muted exactly for standby and unknown statuses; the other stages get distinct colours |
| DispatchStatus.Timeline | src/pages/emergency-call-interface/components/DispatchStatus.jsx:98-100 | one entry per stage; completed iff at or before the current stage, active iff it is the current one |
| DispatchStatus.OneActiveStage | src/pages/emergency-call-interface/components/DispatchStatus.jsx:99-113 | exactly one entry is active and it is completed; check marks are exactly the stages before it |
| DispatchStatus.UnknownStatusTimeline | src/pages/emergency-call-interface/components/DispatchStatus.jsx:99-100 | a status outside the table shows nothing completed or active |
| DispatchStatus.MinutesLeft | src/pages/emergency-call-interface/components/DispatchStatus.jsx:73 | clamped to 0 once the arrival has passed; otherwise the whole minutes left |
| DispatchStatus.EtaTextShowsMinutes | src/pages/emergency-call-interface/components/DispatchStatus.jsx:70-75 | the text reads back as the clamped minute count followed by " min" |
| DispatchStatus.FreshArrivalShowsSixMinutes | src/pages/emergency-call-interface/components/DispatchStatus.jsx:40-73 | right after the effect the card shows 6 min |
| DispatchStatus.OverrideIffButtonsEnabled | src/pages/emergency-call-interface/components/DispatchStatus.jsx:193-210 | the buttons are disabled iff standby, and the override shows iff they are enabled |
| DispatchStatus.StatusCard.constructor | src/pages/emergency-call-interface/components/DispatchStatus.jsx:6-8 | starts on standby with no arrival and no units |
| DispatchStatus.StatusCard.OnDispatchData | src/pages/emergency-call-interface/components/DispatchStatus.jsx:37-54 | with dispatch data on an active call: dispatched, arrival six minutes ahead, the mock unit; otherwise unchanged |
| DispatchStatus.StandbyUntilDispatch | src/pages/emergency-call-interface/components/DispatchStatus.jsx:6-40 | the card stays on standby iff no effect run had dispatch data on an active call |
| WorkflowProgress.FindPath | src/components/ui/WorkflowProgressIndicator.jsx:33 | the first step with that path, or none when no step has it |
| WorkflowProgress.CurrentStepIndexInRange | src/components/ui/WorkflowProgressIndicator.jsx:32-35 | the index is in [0,3): the route's own step, or 0 for any other route |
| WorkflowProgress.PagesFindTheirSteps | src/components/ui/WorkflowProgressIndicator.jsx:8-30 | the three workflow pages are steps 0, 1, 2 |
| WorkflowProgress.OneActiveStep | src/components/ui/WorkflowProgressIndicator.jsx:39-43 | completed iff before, active iff equal to, pending iff after the current step |
| WorkflowProgress.ConnectorFollowsCompletion | src/components/ui/WorkflowProgressIndicator.jsx:127 | a connector is highlighted iff the step before it is completed |
| WorkflowProgress.ProgressFraction | src/components/ui/WorkflowProgressIndicator.jsx:182 | the fraction lies in (0,1] and is 1 exactly on the last step |
| QuickActions.ContextualActions | src/components/ui/QuickActionPanel.jsx:10-125 | an unknown path gets the single `emergency` action |
| QuickActions.UrgentAndRegularPartition | src/components/ui/QuickActionPanel.jsx:127-129 | urgent and regular actions split the list with nothing lost or repeated |
| QuickActions.OneUrgentActionPerRoute | src/components/ui/QuickActionPanel.jsx:13-129 | on every route the first action is the only urgent one and the rest are regular, in order |
| QuickActions.MobileRegularActions | src/components/ui/QuickActionPanel.jsx:271 | at most 3 regular actions, a prefix of them |
| QuickActions.MobileShowsEveryAction | src/components/ui/QuickActionPanel.jsx:271 | no route has more than 3 regular actions, so mobile hides none |
| QuickActions.DesktopPanel.Toggle | src/components/ui/QuickActionPanel.jsx:144 | flips the expanded flag |
| QuickActions.DesktopPanel.Close | src/components/ui/QuickActionPanel.jsx:161 | collapses the panel |
| QuickActions.DesktopPanel.ClickAction | src/components/ui/QuickActionPanel.jsx:178-206 | clicking an action collapses the panel |
| Demo.PreviousStep | src/pages/Demo.tsx:174 | never below 0, one step back from any positive step |
| Demo.NextStep | src/pages/Demo.tsx:181 | never past the last step, one step on below it |
| Demo.DisabledIffNoMove | src/pages/Demo.tsx:175-182 | each button is disabled iff pressing it would not move |
| Demo.NextAndPreviousUndo | src/pages/Demo.tsx:174-181 | Next undoes Previous away from the first step, Previous undoes Next away from the last |
| Demo.ProgressFraction | src/pages/Demo.tsx:160-165 | the fraction lies in (0,1] and is 1 exactly on the last step |
| Demo.PressesStayInRange | src/pages/Demo.tsx:174-181 | any sequence of presses keeps 0 ≤ step < 4 |
| Demo.Tour.Start | src/pages/Demo.tsx:78 | the step returns to 0 |
| Demo.Tour.SelectStep | src/pages/Demo.tsx:98 | the clicked card's step becomes current |
| Demo.Tour.Previous | src/pages/Demo.tsx:174 | the step the clamped function gives, kept in range |
| Demo.Tour.Next | src/pages/Demo.tsx:181 | the step the clamped function gives, kept in range |

## Left out

- Timers, intervals, `navigate`, `alert`, `console.log`, the clipboard and scrolling. Each handler is one method call and each timer firing is its own method. React effect ordering and batching are not modelled.
- Random numbers: the transcript's random confidence and every `Math.random` panel.
- Floating point: confidences, percentages and fractions are exact rationals, and the countdown uses integer milliseconds.
- `toLowerCase` lowers ASCII letters only.
- Styles, class strings, colours and icons as visuals. Only the decision that picks them is kept.
- The `emergencyKeywords` prop of the transcript is never read. Highlighting uses the component's own keyword table.
- Protocols other than CPR have no steps in the source. The model has none either.
- Transcription.HighlightRoundTrip: requires that the text contains no `<` and that no keyword occurs inside the tag text. The second condition is not discharged for the concrete keyword table, because evaluating the long tag literals is too costly for the verifier.
- EmergencyActions.DispatchPanel.Dispatch: models the two-second simulated call as a separate `Resolve` step holding one pending payload. A second click while dispatching, and the error branch of the simulated call, are not modelled.
- AmbulanceDispatch.DispatchPage.ConfirmDispatch: uses the corrected confirm (see "## Findings"). The code as written is `AmbulanceDispatch.ConfirmAsWritten`.
- The mobile quick-action buttons call the parent's `onToggle`. That state lives outside the component and is not modelled.
- `IncidentClassification`'s colour lookup, the landing-page sections, the network and ML code, and the wiring page: none of them is part of this model.

## Findings

| source | as written | input that shows it | evidently intended | confidence | as-written member | corrected member |
|---|---|---|---|---|---|---|
| src/pages/ambulance-dispatch/index.jsx:109-120 | `handleDispatchConfirm` sets `dispatching` whatever the status, and the confirm button is never disabled | confirm, let the 3 s timer set `dispatched`, then confirm again within the 2 s before navigation: the status goes back to `dispatching` and a second dispatch timer starts | the status moves only selecting → dispatching → dispatched | medium, not executed | AmbulanceDispatch.ConfirmAsWrittenGoesBackwards | AmbulanceDispatch.RunNeverGoesBack |
