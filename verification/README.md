# Verified models of the Apstra Go SDK

The SDK is mostly REST calls; what is modelled here are its algorithms and its concurrent
protocols, and what is proved about them holds for every input, every run or every interleaving.
The server is a state with a stated contract, never HTTP.

* **Connectivity templates** (`CtAttributes`, `ConnectivityTemplate`, `TemplateIds`,
  `TemplateParser`, `TemplateTermination`, `TemplateObjects`, `TemplateLayout`). A tree of primitives
  is compiled to a flat list of policies linked by IDs and rebuilt by following the IDs.
  `ConnectivityTemplate` has both directions as functions on values and the round trip between them;
  `TemplateIds` fills in missing IDs from a finite supply of UUIDs; `TemplateObjects` has the same
  operations as they run, on records reached through pointers and written in place, shared or not;
  `TemplateParser` has the loops that read an export; `TemplateTermination` says when reading ends;
  `TemplateLayout` places primitives on the canvas.
* **The task monitor** (`TaskMonitor`, `TaskMonitorProtocol`). The first has the pending tasks and
  one round of checks; the second is the protocol: submitters, the select loop, the timer, check
  goroutines under the lock, and shutdown, one statement to a step.
* **Locks** (`BlueprintMutex`, `BlueprintMutexProtocol`, `BlueprintMutexSafety`, `KeyedLocks`,
  `PolicyRules`, `PolicyEditing`). A blueprint mutex is a tag with a unique label on the server. A
  client's keyed mutexes guard the read-modify-write of policy rules. Both are proved over all
  interleavings; the protocols use the decision functions that the methods are proved against.
* **Data** (`DecimalText`, `PortRanges`, `ApplicationPoints`, `RackTypes`, `QueryValues`,
  `QueryBuilder`, `IntPools`, `ConfigTemplateAssignments`, `NameFilters`, `PortSpeed`).

Where a loop or an update in place matters, the operation is a method or a class, proved against a
function on values; the properties are lemmas about that function.

The functions on values are themselves tied to statements that do not go through them: to the words
and fields on the wire, to relations on trees and places in trees, to binary digits, or to lists of
cases with the source's own constants.

Some natural expectations are not met by the code. Each of these has an exact condition and, after
the semicolon, an example:

* `SetUserData` draws top-level primitives over each other unless they widen from left to right
  (`TopApartIffWidening`; `ThreeLeavesOverlap`).
* Rebuilding a template from an export that leads in a circle does not end (`EndsIff`,
  `PolishEndsIff`; `SecondChildCircle`, `CircularExportExists`).
* A task submitted again while it is pending leaves the first submitter waiting for ever
  (`UnansweredExactly`; `RepeatStrands`).
* `Unlock` means to accept "not found", but `deleteTag` does not convert its error, so the error is
  reported and the mutex stays marked (`UnlockClearsIff`). After a deletion whose reply was lost, two
  mutexes can therefore look locked, and the first does so for ever (`BothLookLockedOnlyIf`;
  `BothLookLocked`, `LostDeletionSticks`).
* The port-range text is sorted before reversed ranges are turned round (`AscendingIff`;
  `ReversedIsOutOfOrder`).
* `fillMap`'s first count is documented as the number of points filled; it also counts visits to a
  point that stays empty (`CountsFilled`, `NoIdleVisitsIff`; `UnfilledPointIsCounted`). The map by template
  is documented to have one key per point; it has none for a point that lacks the template
  (`AnswerByCt`; `OtherTemplateLeavesEmptyEntry`).
* `AddPolicyRule` answers with another rule's ID when one ahead has the same label
  (`AddAnswersItsOwnId`; `SameLabelAnswersOther`).
* A backwards integer range counts as overlapping although it has no integer
  (`OverlapMeansShare`; `BackwardsIsRefused`).
* Listing template users fails on a system without a template, so whether an update can be repeated
  depends on how the server lists cleared systems (`SecondUpdate`; `ClearingCanBlock`).
* Port speeds under 10 Mbps, and those that overflow 64 bits, are not kept to within a unit
  (`TruncatedIff`; `FiveMegabits`, `SpeedWrapsAround`).

`dafny verify dfyconfig.toml` checks the project.

## Model

| member | source | states |
|---|---|---|
| CtAttributes.AttributesRoundTrip | apstra/two_stage_l3_clos_connectivity_template_primitive_attributes.go:34-934 | each of the ten kinds of attributes is refused only for a logical link's VLAN out of range, and otherwise is read back without its own label, with a nil list of networks made empty and with the bits past the prefix of each network cleared |
| CtAttributes.MaskedIff | apstra/two_stage_l3_clos_connectivity_template_primitive_attributes.go:698-716 | a network is read back as itself exactly when it has no bits past its prefix, and always from the second time on |
| CtAttributes.ReadAsPrefix | apstra/two_stage_l3_clos_connectivity_template_primitive_attributes.go:698-716 | of the 32 or 128 binary digits of a network's address the first ones, as many as the prefix is long, are kept when its text is read, and the others cleared |
| CtAttributes.ClearedRoundsDown | apstra/two_stage_l3_clos_connectivity_template_primitive_attributes.go:698-716 | that is, the address is rounded down to a multiple of a power of two |
| CtAttributes.HostBitsAreCleared | apstra/two_stage_l3_clos_connectivity_template_primitive_attributes.go:698-716 | 10.1.2.3/24 is read as 10.1.2.0/24 |
| CtAttributes.WordsSent | apstra/two_stage_l3_clos_connectivity_template_primitive_attributes.go:34-430 | the words that yes-or-no fields are sent as |
| CtAttributes.WordsRead | apstra/two_stage_l3_clos_connectivity_template_primitive_attributes.go:624-860 | the words that are read for them and what each means; any other word is refused |
| CtAttributes.ReadBackSameIff | apstra/two_stage_l3_clos_connectivity_template_primitive_attributes.go:34-934 | attributes are read back the same, but for their label, exactly when the list of tagged networks is not nil and no network has a digit set past its prefix |
| CtAttributes.CanonicalIsFixed | apstra/two_stage_l3_clos_connectivity_template_primitive_attributes.go:34-934 | attributes that have been read back once are read back as themselves |
| ConnectivityTemplate.ExportRoundTrip | apstra/two_stage_l3_clos_connectivity_template.go:172-242 | several compiled templates with distinct IDs, concatenated and in any order: the visible policies are exactly the templates' roots, and each is rebuilt whole, whatever the others are |
| ConnectivityTemplate.PolishFrom | apstra/two_stage_l3_clos_connectivity_template.go:192-242 | a template is rebuilt from any list that contains its policies and repeats no ID |
| ConnectivityTemplate.ParseFlattened | apstra/two_stage_l3_clos_connectivity_template.go:508-581 | a compiled primitive tree is rebuilt with its IDs, labels, attributes and order of children from any map that holds its policies |
| ConnectivityTemplate.RootsOfFlattened | apstra/two_stage_l3_clos_connectivity_template.go:172-182 | of compiled templates only the roots are visible, in order |
| ConnectivityTemplate.MapOfDistinct | apstra/two_stage_l3_clos_connectivity_template.go:184-190 | without repeated IDs the policy map holds every policy of the list, so the order of the list does not matter |
| ConnectivityTemplate.MoreFuelAgrees | apstra/two_stage_l3_clos_connectivity_template.go:508-581 | the depth bound of the model only decides whether there is an answer, not which |
| ConnectivityTemplate.TemplateOnWire | apstra/two_stage_l3_clos_connectivity_template.go:78-119 | a compiled template is its root, which comes first, is visible and lists the pipelines of the top primitives in order, and for each primitive on any level the policies that stand for it, and nothing else |
| ConnectivityTemplate.NodeOnWire | apstra/two_stage_l3_clos_connectivity_template.go:288-349 | the three policies of a primitive, field by field: the pipeline leads to the primitive and to its batch, the batch lists the pipelines of those below, and a leaf has no batch |
| ConnectivityTemplate.RebuiltIff | apstra/two_stage_l3_clos_connectivity_template.go:508-581 | from any export, a pipeline is rebuilt as a tree exactly when the export describes that tree, primitive by primitive; a batch that is missing counts as none |
| ConnectivityTemplate.PolishedIff | apstra/two_stage_l3_clos_connectivity_template.go:192-242 | from any export, a template is polished exactly when the last policy of its ID is a batch with user data and the others describe what it lists |
| ConnectivityTemplate.LastWins | apstra/two_stage_l3_clos_connectivity_template.go:184-190 | of several policies with one ID the last is in the policy map |
| ConnectivityTemplate.RebuiltSameIff | apstra/two_stage_l3_clos_connectivity_template.go:192-242 | a compiled template is rebuilt just as it was exactly when it has tags and user data, no leaf has a batch ID, and all attributes are read back as themselves |
| TemplateTermination.EndsIff | apstra/two_stage_l3_clos_connectivity_template.go:508-581 | for any export, rebuilding from a pipeline ends exactly when no way of visiting pipelines from there comes back to one it has passed; a depth of one more than there are policies is then enough |
| TemplateTermination.ParsesIff | apstra/two_stage_l3_clos_connectivity_template.go:508-581 | and it ends with a tree exactly when everything the pipeline leads to is well-formed and nothing leads back to itself |
| TemplateTermination.WellFormedEndsIff | apstra/two_stage_l3_clos_connectivity_template.go:557-563 | where all that a pipeline leads to is well-formed, rebuilding ends exactly when no path comes back to a pipeline it has passed |
| TemplateTermination.PolishEndsIff | apstra/two_stage_l3_clos_connectivity_template.go:192-242 | polishing a template ends exactly when it refuses the root or when no subpolicy that it gets to leads back into what was passed on the way |
| TemplateTermination.SecondChildCircle | apstra/two_stage_l3_clos_connectivity_template.go:557-563 | a pipeline whose batch lists a leaf and then the pipeline itself is never rebuilt |
| TemplateTermination.CircularExportExists | apstra/two_stage_l3_clos_connectivity_template.go:557-563 | nor is one whose batch lists only itself |
| TemplateIds.FillingExtends | apstra/two_stage_l3_clos_connectivity_template.go:351-384 | filling alters no ID already set and nothing else, even when it stops half way; it succeeds exactly when the generator can supply every missing ID, and then every needed ID is set |
| TemplateIds.FillingIsIdempotent | apstra/two_stage_l3_clos_connectivity_template.go:351-384 | filling a filled tree changes nothing and asks for no ID |
| TemplateIds.FillingConserves | apstra/two_stage_l3_clos_connectivity_template.go:351-384 | the IDs in the tree and those still to be handed out are together the same before and after, each as often |
| TemplateIds.SendableFlattens | apstra/two_stage_l3_clos_connectivity_template.go:288-349 | a filled primitive can be compiled exactly when all attributes below it can be sent |
| TemplateIds.FlatIds | apstra/two_stage_l3_clos_connectivity_template.go:288-349 | the compiled list names each ID as often as the tree does |
| TemplateIds.CompiledIds | apstra/two_stage_l3_clos_connectivity_template.go:78-119 | a compiled template's policies have its own IDs and those issued to it, and no others |
| TemplateIds.TemplateRoundTrip | apstra/two_stage_l3_clos_connectivity_template.go:78-119 | filling, compiling and rebuilding gives back the template with its missing IDs filled, when its IDs and those issued are all different |
| TemplateParser.PolicyMapOf | apstra/two_stage_l3_clos_connectivity_template.go:184-190 | the loop builds the map in which a later policy replaces an earlier one of the same ID |
| TemplateParser.RootBatchIds | apstra/two_stage_l3_clos_connectivity_template.go:172-182 | the loop lists the IDs of the visible policies in order |
| TemplateParser.ParseTree | apstra/two_stage_l3_clos_connectivity_template.go:508-581 | the recursive loops compute the function that the round trip is proved about, errors included |
| TemplateParser.PolishTemplate | apstra/two_stage_l3_clos_connectivity_template.go:192-242 | likewise for a template, with each of the refusals before its subpolicies are looked at |
| TemplateParser.AllTemplates | apstra/two_stage_l3_clos_connectivity_template.go:668-690 | every visible root is rebuilt, in order, or the first failure is reported |
| TemplateParser.ListingRecoversAll | apstra/two_stage_l3_clos_connectivity_template.go:668-690 | listing an export of compiled templates yields each of them as it was compiled and nothing else |
| TemplateObjects.PrimitiveNode.SetIds | apstra/two_stage_l3_clos_connectivity_template.go:351-384 | the walk through pointers, which may share records, leaves in all records the IDs that filling gives, and takes from the generator what filling takes, also when it fails |
| TemplateObjects.FillStoreExtends | apstra/two_stage_l3_clos_connectivity_template.go:351-384 | filling, even stopped half way, changes no ID that is set and no record that cannot be reached; when it succeeds every record reached has the IDs it needs |
| TemplateObjects.FilledIsLeftAlone | apstra/two_stage_l3_clos_connectivity_template.go:351-384 | records that have their IDs are left alone and no ID is asked for |
| TemplateObjects.TreeFillsAsValue | apstra/two_stage_l3_clos_connectivity_template.go:351-384 | where no record is shared, filling the records is filling the tree of values |
| TemplateObjects.SetAllIds | apstra/two_stage_l3_clos_connectivity_template.go:376-381 | so does the loop over subpolicies |
| TemplateObjects.PrimitiveNode.RawPipeline | apstra/two_stage_l3_clos_connectivity_template.go:288-349 | fills what is below and compiles the tree then seen; filling again on the way down changes nothing |
| TemplateObjects.RawBatchOf | apstra/two_stage_l3_clos_connectivity_template.go:461-490 | compiles each subpolicy in turn, filled or not, and lists the IDs of their pipelines |
| TemplateObjects.CompileFilled | apstra/two_stage_l3_clos_connectivity_template.go:461-490 | filled records are compiled without any being written to, as the tree of values is |
| TemplateObjects.TemplateNode.SetIds | apstra/two_stage_l3_clos_connectivity_template.go:124-141 | fills the template's own ID first and then what is below |
| TemplateObjects.TemplateNode.Raw | apstra/two_stage_l3_clos_connectivity_template.go:78-119 | what is sent is the compiled form of the template that the caller sees afterwards, all its IDs filled; nil tags become an empty list only if compiling succeeded |
| TemplateObjects.TemplateFillsAsValue | apstra/two_stage_l3_clos_connectivity_template.go:124-141 | where no record is shared, the template seen after filling is the one that filling the values gives |
| TemplateLayout.PositionsOf | apstra/two_stage_l3_clos_connectivity_template.go:260-282 | the recursive merging of maps computes the layout function, or fails on a missing ID |
| TemplateLayout.LayoutOfTree | apstra/two_stage_l3_clos_connectivity_template.go:260-282 | one tree with distinct IDs: exactly its IDs are placed, no two in one place, in as many columns as it has leaves |
| TemplateLayout.InColumns | apstra/two_stage_l3_clos_connectivity_template.go:268-276 | each primitive is within the columns of its tree and below its root |
| TemplateLayout.PlacedApart | apstra/two_stage_l3_clos_connectivity_template.go:260-282 | two primitives of a tree differ in column or in row |
| TemplateLayout.PlacedByPath | apstra/two_stage_l3_clos_connectivity_template.go:260-282 | every primitive of a tree is 200 to the right for each leaf to its left and 70 lower for each level |
| TemplateLayout.TopPlacedByPath | apstra/two_stage_l3_clos_connectivity_template.go:145-166 | in the user data likewise, from 290 and 80 on, each top-level tree beginning past the columns that the guard on widths has added up |
| TemplateLayout.SetUserData | apstra/two_stage_l3_clos_connectivity_template.go:145-166 | the top-level loop computes the layout that goes into the user data, or reports the first failure |
| TemplateLayout.TopApartIffWidening | apstra/two_stage_l3_clos_connectivity_template.go:151-163 | at the top level primitives are kept apart exactly when each but the last is wider than all to its left, which is the guard of the branch that advances |
| TemplateLayout.ThreeLeavesOverlap | apstra/two_stage_l3_clos_connectivity_template.go:159-162 | three leaves side by side are drawn over each other |
| TaskMonitor.PendingTaskData.Add | apstra/task_monitor.go:120-126 | the map afterwards is the one with this task's channel set |
| TaskMonitor.PendingTaskData.Del | apstra/task_monitor.go:128-140 | the map afterwards lacks this task, and its blueprint when that was the last |
| TaskMonitor.Added | apstra/task_monitor.go:120-126 | adding changes this task only, and leaves no blueprint without tasks |
| TaskMonitor.Deleted | apstra/task_monitor.go:128-140 | deleting changes this task only, and leaves no blueprint without tasks |
| TaskMonitor.EmptyHoldsNothing | apstra/task_monitor.go:146-148 | counting blueprints tells whether any task is pending |
| TaskMonitor.Monitor.CheckTasksInBlueprint | apstra/task_monitor.go:282-326 | in whatever order the tasks come: those the server has a verdict on are gone and their submitters, nobody else, are each sent that verdict once; the others stay |
| TaskMonitor.PlaySettles | apstra/task_monitor.go:282-326 | the same for the tasks seen so far in any order, other blueprints untouched |
| TaskMonitor.Monitor.CheckBlueprints | apstra/task_monitor.go:256-268 | a round over all blueprints settles exactly the tasks with a verdict; a blueprint the server will not talk about is skipped |
| TaskMonitor.Monitor.Check | apstra/task_monitor.go:332-340 | and sets the timer exactly when something is still pending |
| TaskMonitor.SettledFurther | apstra/task_monitor.go:256-268 | settling some tasks and then others settles both, nobody being told twice |
| TaskMonitor.ConclusiveRoundEmpties | apstra/task_monitor.go:332-340 | a round empties the monitor exactly when the server has a verdict on every task |
| TaskMonitor.RoundOutcome | apstra/task_monitor.go:256-326 | what a round does for a pending task, status by status: init and in_progress leave it; failed, succeeded and timeout send its details and remove it; any other status, and a task that the server does not list, send an error and remove it; a blueprint that the server will not talk about leaves it |
| TaskMonitorProtocol.RunKeepsInv | apstra/task_monitor.go:196-340 | every state of every interleaving of submitters, loop, timer, checks and shutdown keeps the lock discipline and the accounts of requests |
| TaskMonitorProtocol.AnsweredAtMostOnce | apstra/task_monitor.go:282-326 | at every moment each accepted request is in exactly one place, no submitter is answered twice, and no answer goes to a channel that is closed or used |
| TaskMonitorProtocol.StopsOnlyWhenAllAnswered | apstra/task_monitor.go:196-225 | the loop ends only after shutdown was asked for and with every request that was not overwritten answered |
| TaskMonitorProtocol.UnansweredExactly | apstra/task_monitor.go:120-126 | when the loop has ended, a submitter has no answer exactly when a request for the same task was added while its own was pending |
| TaskMonitorProtocol.NoLostWakeUp | apstra/task_monitor.go:196-242 | while tasks are pending the timer is set, or its event waits, or a check has yet to decide, or the loop is between stopping and starting the timer |
| TaskMonitorProtocol.DifferentTasksAreAllKept | apstra/task_monitor.go:418-434 | nobody is dropped when no task is submitted twice |
| TaskMonitorProtocol.RepeatStrands | apstra/task_monitor.go:120-126 | once a task has been submitted again while it was pending, nothing that happens later answers the first submitter |
| TaskMonitorProtocol.NeverStuck | apstra/task_monitor.go:196-219 | while anything is pending or being added, the monitor can take a step by itself that brings it closer to having answered everybody |
| TaskMonitorProtocol.AllCanBeAnswered | apstra/task_monitor.go:196-340 | from every state a finite run of the monitor's own steps leaves nothing pending and everybody answered whose request was not overwritten |
| BlueprintMutex.Mutex.SetMessage | apstra/two_stage_l3_clos_mutex.go:34-45 | the message changes exactly when the mutex is neither read-only nor marked as locked |
| BlueprintMutex.Mutex.Lock | apstra/two_stage_l3_clos_mutex.go:70-169 | for every series of answers: the mutex is marked exactly on success, with the tag it created, and only a refused TryLock that found the tag is given a read-only copy |
| BlueprintMutex.Mutex.Unlock | apstra/two_stage_l3_clos_mutex.go:172-190 | the mark goes exactly when the server says the tag is gone; not-found and every other failure are reported and keep it |
| BlueprintMutex.UnlockClearsIff | apstra/api_design_tags.go:176-181 | as deleteTag hands its error on, only a reported removal takes the mark away; not-found is the only answer on which converting the error would make a difference |
| BlueprintMutex.LockNameInjective | apstra/two_stage_l3_clos_mutex.go:16-19 | two blueprints never share a lock name |
| BlueprintMutex.TryLockDoesNotWait | apstra/two_stage_l3_clos_mutex.go:89-166 | TryLock decides on the first answers, except that it asks again when the tag it collided with cannot be looked up |
| BlueprintMutex.TryLockReads | apstra/two_stage_l3_clos_mutex.go:91-114 | TryLock goes on exactly when its one reading says unlocked or names the caller, and otherwise hands back that reading's user and status, or the server's failure |
| BlueprintMutex.CreationDecided | apstra/two_stage_l3_clos_mutex.go:116-169 | the first attempt that is not followed by another decides, blocking or not: the created tag's ID, the tag collided with, or the server's failure |
| BlueprintMutex.LockSucceedsIff | apstra/two_stage_l3_clos_mutex.go:70-169 | a mutex is taken exactly when it is neither a copy nor marked, its blueprint's ID has at most 47 characters, the readings let the caller through, and a tag is then created after nothing but collisions |
| BlueprintMutex.LockWaitsForUnlocked | apstra/two_stage_l3_clos_mutex.go:89-114 | a blocking Lock first asks for the lock status exactly until it is unlocked or its own, or the server fails |
| BlueprintMutex.LockWaitsForRelease | apstra/two_stage_l3_clos_mutex.go:121-166 | Lock goes on exactly until the tag is created or the server fails |
| BlueprintMutexProtocol.RunKeepsInv | apstra/two_stage_l3_clos_mutex.go:70-190 | every interleaving of any number of clients, mutexes and calls keeps the invariant that the following rest on |
| BlueprintMutexSafety.MutualExclusion | apstra/two_stage_l3_clos_mutex.go:70-169 | at most one mutex of a blueprint is held, by the only tag of that name on the server |
| BlueprintMutexSafety.OnlyItsMutexRemoves | apstra/two_stage_l3_clos_mutex.go:172-190 | a lock tag is only ever removed by Unlock of the mutex that made it, never through a read-only copy with the same ID |
| BlueprintMutexSafety.CopiesNeverChange | apstra/two_stage_l3_clos_mutex.go:146-155 | a read-only copy stays as it was handed out |
| BlueprintMutexSafety.BothLookLockedOnlyIf | apstra/two_stage_l3_clos_mutex.go:172-190 | two mutexes of a blueprint are both marked only while the tag of one is gone, and a marked mutex's tag is gone exactly when it is at the end of Unlock or the reply to its deletion was lost |
| BlueprintMutexSafety.BothLookLocked | apstra/two_stage_l3_clos_mutex.go:172-190 | a run that ends, with no call under way, in two marked mutexes of one blueprint |
| BlueprintMutexSafety.LostDeletionSticks | apstra/two_stage_l3_clos_mutex.go:172-190 | a mutex whose tag is gone unnoticed stays marked whatever happens: no later Unlock takes the mark away, so it can never lock again |
| BlueprintMutexSafety.NothingStranded | apstra/two_stage_l3_clos_mutex.go:70-190 | with one call at a time on a mutex, every lock tag whose creation was reported can be removed by its mutex, and describes it, so a refused caller reads the holder's message |
| BlueprintMutexSafety.OverlappingCallsStrand | apstra/two_stage_l3_clos_mutex.go:172-190 | a Lock that overlaps an Unlock of the same mutex can leave a tag that nobody will remove |
| KeyedLocks.LockMap.Enter | apstra/client.go:400-413 | the map part of lock(): a known key keeps its mutex and the caller waits; a new key gets a new mutex that is locked before it can be seen |
| KeyedLocks.LockMap.Unlock | apstra/client.go:416-425 | frees the key's mutex and no other, or panics for an unknown key or a mutex that is not locked |
| KeyedLocks.BuildLockId | apstra/two_stage_l3_clos_client.go:82-89 | the loop writes the blueprint and the IDs with separators |
| KeyedLocks.PolicyLocksApart | apstra/two_stage_l3_clos_client.go:82-89 | two policies of a blueprint never share a lock |
| PolicyRules.InsertRule | apstra/two_stage_l3_clos_policy_rules.go:221-241 | all four branches put the rule where the position says, negative and large positions at the end, and keep the order of the others |
| PolicyRules.InsertedWhere | apstra/two_stage_l3_clos_policy_rules.go:221-241 | a position at or past the end, or a negative one, means the end; any other is where the rule goes, those from there on moving up by one |
| PolicyRules.DeleteRule | apstra/two_stage_l3_clos_policy_rules.go:263-279 | the first rule of that ID goes, or not-found is reported |
| PolicyRules.FindIdByLabel | apstra/two_stage_l3_clos_policy_rules.go:193-208 | the policy is read up to eleven times: the ID of the first rule with the label in the first reading that has one, or the first failed reading, or that it never appeared |
| PolicyRules.FirstAppearanceAnswers | apstra/two_stage_l3_clos_policy_rules.go:193-208 | readings without the label do not matter, so readings that all give the same rules are as good as one |
| PolicyRules.SearchGivesUp | apstra/two_stage_l3_clos_policy_rules.go:193-208 | a reading that fails ends the search with its error, and eleven without the label end it with not-found |
| PolicyRules.DeleteUndoesAdd | apstra/two_stage_l3_clos_policy_rules.go:210-280 | deleting an added rule by its ID restores the list, wherever it was put |
| PolicyRules.AddUndoesDelete | apstra/two_stage_l3_clos_policy_rules.go:210-280 | adding a deleted rule at its place restores the list |
| PolicyRules.AddAnswersItsOwnId | apstra/two_stage_l3_clos_policy_rules.go:193-208 | the ID answered is the new rule's exactly when no rule ahead of it has its label |
| PolicyRules.SameLabelAnswersOther | apstra/two_stage_l3_clos_policy_rules.go:193-208 | a rule added behind one of the same label is answered with the other's ID |
| PolicyEditing.RunKeepsInv | apstra/client.go:400-425 | every interleaving of the steps of lock(), unlock() and rule edits keeps the invariant that the following rest on |
| PolicyEditing.OneHolderPerKey | apstra/client.go:400-413 | one goroutine at a time is past lock() and not through unlock() for a key |
| PolicyEditing.KeyKeepsItsMutex | apstra/client.go:402-412 | a key's mutex is never replaced |
| PolicyEditing.UnlockNeverPanics | apstra/client.go:416-425 | whoever locked a key finds it known and locked when unlocking |
| PolicyEditing.NeverWaitsUnderSync | apstra/client.go:401-412 | the holder of the map's lock can always take its next step |
| PolicyEditing.NeverStuck | apstra/client.go:400-425 | while any goroutine is under way, some goroutine can take a step |
| PolicyEditing.EditsAreSerial | apstra/two_stage_l3_clos_policy_rules.go:210-280 | the policies are what the edits give one after another, each seeing the one before |
| PolicyEditing.NoLostAdds | apstra/two_stage_l3_clos_policy_rules.go:210-249 | an added rule is in its policy until its own ID is deleted |
| PolicyEditing.DeletedStaysDeleted | apstra/two_stage_l3_clos_policy_rules.go:252-280 | a deleted rule does not come back by anybody's stale list |
| PolicyEditing.AnswerIsOwnRule | apstra/two_stage_l3_clos_policy_rules.go:193-208 | while AddRule looks up its answer the policy is as it left it, so the answer is its own rule's ID exactly when no rule ahead has the label |
| DecimalText.ParseUint | apstra/two_stage_l3_clos_policy_rules.go:53-72 | reading digits one by one gives the number or the first error |
| DecimalText.AcceptsExactly | apstra/two_stage_l3_clos_policy_rules.go:53-72 | a number is accepted exactly when it is digits that denote at most the limit |
| DecimalText.JoinOfSplit | apstra/two_stage_l3_clos_policy_rules.go:48-53 | splitting loses nothing |
| DecimalText.SplitOfJoin | apstra/two_stage_l3_clos_policy_rules.go:48-53 | splitting what was joined gives the parts back when none has the separator |
| PortRanges.ParsePortRanges | apstra/two_stage_l3_clos_policy_rules.go:43-82 | the loop gives all ranges or the first error; a reversed range is accepted as it stands |
| PortRanges.PrintPortRanges | apstra/two_stage_l3_clos_policy_rules.go:86-104 | the caller's slice is left sorted by First, in some order of equals, and its ranges are printed in that order |
| PortRanges.PrintThenParse | apstra/two_stage_l3_clos_policy_rules.go:43-104 | what is printed is parsed as the same ranges in the printed order, each with its lower end first; only the empty list is printed as any |
| PortRanges.OnlyAnyIsEmpty | apstra/two_stage_l3_clos_policy_rules.go:43-46 | only any is parsed as no ranges |
| PortRanges.ReadIff | apstra/two_stage_l3_clos_policy_rules.go:43-82 | a text is read as a list of ranges exactly when it spells them: a port up to 65535, or two with a hyphen, with commas between; every other text but "any" is refused |
| PortRanges.ForwardRangesRoundTrip | apstra/two_stage_l3_clos_policy_rules.go:43-104 | ranges with First not above Last come back as a permutation of themselves sorted by First |
| PortRanges.PortsArePreserved | apstra/two_stage_l3_clos_policy_rules.go:30-104 | the ports permitted are kept, whichever way round the ranges were |
| PortRanges.AscendingIff | apstra/two_stage_l3_clos_policy_rules.go:86-98 | the text lists ranges in ascending order, however the sort breaks ties, exactly when no range reaches below one whose First is not larger |
| PortRanges.ReversedIsOutOfOrder | apstra/two_stage_l3_clos_policy_rules.go:30-104 | a reversed range is printed out of order |
| ApplicationPoints.FillMap | apstra/two_stage_l3_clos_connectivity_template_assignment.go:280-338 | the walk down the tree, writing into the caller's map, is the left fold over the tree's points in preorder, counts and errors included |
| ApplicationPoints.FillChildren | apstra/two_stage_l3_clos_connectivity_template_assignment.go:354-367 | so is the loop over a page's trees |
| ApplicationPoints.PreorderVisits | apstra/two_stage_l3_clos_connectivity_template_assignment.go:280-338 | the walk comes to every point of the trees, on every level, each place once, a point ahead of what is below it and siblings in order |
| ApplicationPoints.FoldAppend | apstra/two_stage_l3_clos_connectivity_template_assignment.go:354-367 | filling one list of points and then another is filling both |
| ApplicationPoints.FoldMeans | apstra/two_stage_l3_clos_connectivity_template_assignment.go:289-328 | which points are in the map afterwards, and that each has been told, in order, all that the tree says about it |
| ApplicationPoints.LastMentionWins | apstra/two_stage_l3_clos_connectivity_template_assignment.go:307-323 | of a template mentioned several times the last mention counts |
| ApplicationPoints.FailsExactly | apstra/two_stage_l3_clos_connectivity_template_assignment.go:307-315 | a filling fails exactly when a wanted point has a policy in an unknown state |
| ApplicationPoints.FailureNames | apstra/two_stage_l3_clos_connectivity_template_assignment.go:280-338 | the error names a policy in an unknown state, its point and the state |
| ApplicationPoints.LastMentionInForest | apstra/two_stage_l3_clos_connectivity_template_assignment.go:280-338 | what an entry is told about a policy is the state at the last place in the trees that mentions it for the point |
| ApplicationPoints.UnforcedKeepsPoints | apstra/two_stage_l3_clos_connectivity_template_assignment.go:292-300 | without force no point enters or leaves the map, even on failure |
| ApplicationPoints.CountsCandidates | apstra/two_stage_l3_clos_connectivity_template_assignment.go:289-290 | n is the number of points with policies |
| ApplicationPoints.CountsFilled | apstra/two_stage_l3_clos_connectivity_template_assignment.go:300-305 | m is the number of points newly filled, and besides that the visits without policies to a point still empty |
| ApplicationPoints.NoIdleVisitsIff | apstra/two_stage_l3_clos_connectivity_template_assignment.go:300-305 | there are no such visits exactly when each wanted empty point is given policies before it is met without any |
| ApplicationPoints.UnfilledPointIsCounted | apstra/two_stage_l3_clos_connectivity_template_assignment.go:300-305 | a point asked for to which the tree gives no policies is counted although it is not filled |
| ApplicationPoints.ForcedCountsPoints | apstra/two_stage_l3_clos_connectivity_template_assignment.go:280-338 | forced into an empty map, m is the number of points in the map and n the number of tree nodes with policies |
| ApplicationPoints.ReadPages | apstra/two_stage_l3_clos_connectivity_template_assignment.go:494-519 | the paging loop reads into one map up to the first page with fewer candidates than the page size, or to the first failure |
| ApplicationPoints.PagesComeTogether | apstra/two_stage_l3_clos_connectivity_template_assignment.go:494-519 | full pages and then a short one are read to the end and no further and come to the same as one tree |
| ApplicationPoints.GetByPoints | apstra/two_stage_l3_clos_connectivity_template_assignment.go:386-432 | the map starts with the points asked for and is filled from the pages without force |
| ApplicationPoints.AnswerByPoints | apstra/two_stage_l3_clos_connectivity_template_assignment.go:386-432 | exactly the points asked for are answered, each with every template the pages mention for it as last mentioned |
| ApplicationPoints.PointsAreTold | apstra/two_stage_l3_clos_connectivity_template_assignment.go:386-432 | a point asked for, wherever in the pages' trees it is, is told of exactly the policies mentioned for it there, by the last mention |
| ApplicationPoints.CollectKeepsPoints | apstra/two_stage_l3_clos_connectivity_template_assignment.go:440-454 | the point asked for is always in the answer, so not-found is never reported |
| ApplicationPoints.GetForPoint | apstra/two_stage_l3_clos_connectivity_template_assignment.go:440-454 | one point's entry of that answer |
| ApplicationPoints.GetByCt | apstra/two_stage_l3_clos_connectivity_template_assignment.go:480-537 | the forced filling of the pages, with the templates not asked for deleted |
| ApplicationPoints.DeleteOthers | apstra/two_stage_l3_clos_connectivity_template_assignment.go:521-534 | the nested loops leave in each entry the one template if it was there, and keep every point |
| ApplicationPoints.AnswerByCt | apstra/two_stage_l3_clos_connectivity_template_assignment.go:480-537 | every point the pages give policies to is answered, with just the template when it is among them and with nothing when it is not |
| ApplicationPoints.TemplateIsTold | apstra/two_stage_l3_clos_connectivity_template_assignment.go:480-537 | every point with policies at some place in the trees is answered, with what the last mention of the template says, or with nothing |
| ApplicationPoints.OtherTemplateLeavesEmptyEntry | apstra/two_stage_l3_clos_connectivity_template_assignment.go:521-534 | a point with another template only is answered with an empty entry |
| RackTypes.Gathering.LabelOf | apstra/api_design_rack_types.go:1027-1039 | a tag is asked for only when it is not cached |
| RackTypes.Gathering.RawOneLeaf | apstra/api_design_rack_types.go:1041-1059 | once a leaf's tags are cached its conversion cannot miss one |
| RackTypes.Gathering.RawOneSystem | apstra/api_design_rack_types.go:1061-1089 | nor can that of an access switch or generic system, links included |
| RackTypes.GatherMeans | apstra/api_design_rack_types.go:1027-1039 | gathering succeeds exactly when the server has every tag mentioned, caches just those, and asks for none twice |
| RackTypes.Raw | apstra/api_design_rack_types.go:1004-1152 | succeeds exactly when the server has every tag and device mentioned; asks once for each tag; otherwise reports one that is missing; sends the labels, and the tags and devices themselves, of everything mentioned |
| RackTypes.PolishMeans | apstra/api_design_rack_types.go:1195-1240 | the lookups of reading back succeed exactly when the rack carries every tag and device it mentions, and each name is then replaced by what it is looked up as |
| RackTypes.LookUpTag | apstra/api_design_rack_types.go:1251-1258 | a label is looked up as the first tag listed with it |
| RackTypes.RawIsClosed | apstra/api_design_rack_types.go:1004-1152 | reading back what a request sends never fails a lookup |
| RackTypes.RequestResolvesIff | apstra/api_design_rack_types.go:1195-1258 | what is read back has, for each tag and device the request names, that very one in the same place, exactly when no two different tags named share a label, whatever the order of map iteration |
| RackTypes.RequestResolves | apstra/api_design_rack_types.go:1004-1258 | with a server that keeps labels unique, every request that can be sent is read back with the very tags and devices it names, in the same places |
| RackTypes.MapsToItself | apstra/api_design_rack_types.go:1004-1152 | replacing each tag and device by itself gives the same rack: the replacing that the theorems speak of loses nothing |
| QueryValues.CallOrder | apstra/query_engine.go:217-423 | after any calls on any number of queries, each has the elements, where clauses, operations and held queries that were added to it, each kind in call order, also those added after it was itself put into another; it is optional exactly when some match took it as optional |
| QueryValues.MatchText | apstra/query_engine.go:375-407 | a match's text is made of the texts that the queries it holds have in the end, in the order in which they were put in |
| QueryValues.DepthIsImmaterial | apstra/query_engine.go:375-407 | a query's text does not depend on how deep the model looks |
| QueryValues.ValuesSpelled | apstra/query_engine.go:114-166 | the text of a string, a truth value, a number, and of none or not none |
| QueryValues.ComparisonsSpelled | apstra/query_engine.go:135-157 | the texts of the four comparisons |
| QueryValues.ListsSpelled | apstra/query_engine.go:96-112 | the text of a list: empty brackets, or the texts in quotes with commas between |
| QueryValues.ElementsSpelled | apstra/query_engine.go:55-94 | an element is its kind and, in brackets, key=value for each attribute |
| QueryValues.PathSpelled | apstra/query_engine.go:217-239 | a path has a dot before each element but the first |
| QueryValues.MatchSpelled | apstra/query_engine.go:375-407 | a match has its queries in brackets and each operation after a dot |
| QueryValues.ClausesSpelled | apstra/query_engine.go:217-239 | each where clause comes after a dot and in brackets, and an optional query is wrapped |
| QueryBuilder.Element.GetLast | apstra/query_engine.go:69-77 | the walk ends at the last element of the chain |
| QueryBuilder.PathQuery.AddElement | apstra/query_engine.go:246-257 | the chain grows by one element at its end, which alone is written to, and stays without cycles |
| QueryBuilder.PathQuery.String | apstra/query_engine.go:217-239 | the text of the elements joined by dots, with the where clauses, wrapped when optional |
| QueryBuilder.CallOn | apstra/query_engine.go:241-423 | one call, also on a query that others hold, changes that query as the call says and leaves the fields of all others |
| QueryBuilder.CallOptional | apstra/query_engine.go:419-423 | the query given becomes optional wherever it is held, and is matched |
| QueryBuilder.Build | apstra/query_engine.go:241-423 | any calls in any order, on queries that may be shared and changed after they were put into others, leave chains that end and queries that are as the calls say |
| QueryBuilder.StringOf | apstra/query_engine.go:217-423 | the text of any query that does not hold itself, held queries included, as its definition gives it |
| QueryBuilder.MatchString | apstra/query_engine.go:375-407 | the text of the queries held, then operations and where clauses, wrapped when optional |
| QueryBuilder.MatchQuery.Distinct | apstra/query_engine.go:319-335 | so does the chain of a match's operations |
| IntPools.OverlapMeansShare | apstra/int_pool.go:422-436 | comparing ends finds every shared integer, and finds one where there is none exactly when a backwards range has an end inside a proper one |
| IntPools.IndexOf | apstra/int_pool.go:80-88 | the first place of the range, or none |
| IntPools.Overlaps | apstra/int_pool.go:90-97 | true exactly when some range of the list overlaps |
| IntPools.Pool.CreateRange | apstra/int_pool.go:341-387 | the range is appended, or refused as existing or overlapping, or the server's refusal changes nothing |
| IntPools.Pool.DeleteRange | apstra/int_pool.go:389-420 | the first such range goes and the others keep their order, or nothing changes |
| IntPools.CreateKeepsDisjoint | apstra/int_pool.go:341-387 | disjoint ranges stay disjoint whatever range is added, and the integers covered grow by exactly its size |
| IntPools.CreatesExactly | apstra/int_pool.go:354-370 | among proper ranges one is added exactly when it shares no integer with any |
| IntPools.SizesAddUp | apstra/int_pool.go:341-387 | the sizes of disjoint ranges add up to the integers covered |
| IntPools.DeleteUndoesCreate | apstra/int_pool.go:389-420 | deleting an added range restores the list |
| IntPools.DeleteKeepsDisjoint | apstra/int_pool.go:389-420 | deleting keeps ranges disjoint and takes out one range |
| IntPools.BackwardsIsRefused | apstra/int_pool.go:422-436 | a backwards range without integers is refused as overlapping |
| ConfigTemplateAssignments.GetUsers | apstra/freeform_config_template_assignment.go:35-48 | the systems with the template, each once, in some order; a listed system without a template makes the call fail |
| ConfigTemplateAssignments.FormRequest | apstra/freeform_config_template_assignment.go:80-104 | the three loops put in the request exactly the systems in one of the two lists and not the other |
| ConfigTemplateAssignments.Blueprint.UpdateByTemplate | apstra/freeform_config_template_assignment.go:69-117 | the computed patch is sent unless it is empty; on any failure nothing changes |
| ConfigTemplateAssignments.PatchIsExact | apstra/freeform_config_template_assignment.go:69-117 | afterwards exactly the requested systems use the template and every other system has what it had |
| ConfigTemplateAssignments.PatchIsMinimal | apstra/freeform_config_template_assignment.go:82-104 | every entry changes which systems use the template, and no patch with that effect can leave one out |
| ConfigTemplateAssignments.SecondUpdate | apstra/freeform_config_template_assignment.go:69-117 | a second update has nothing to do, and can be made exactly when the server forgets cleared systems or none was cleared |
| ConfigTemplateAssignments.ClearingCanBlock | apstra/freeform_config_template_assignment.go:35-48 | where the server lists cleared systems, clearing one makes the next update fail |
| NameFilters.FilterForward | apstra/api_blueprints.go:467-478 | scanning from the front leaves exactly the wanted elements, each as often as before |
| NameFilters.FilterBackward | apstra/api_resources_ip.go:189-196 | so does scanning from the back |
| NameFilters.DigestsOf | apstra/api_design_interface_map_digests.go:99-146 | the three digest loops leave exactly the digests of the device, the profile, or both |
| NameFilters.DeleteAt | apstra/api_blueprints.go:469-473 | overwriting with the last and cutting off takes out one element and moves one |
| NameFilters.StatusByName | apstra/api_blueprints.go:481-501 | the one match, or not-found for none, or multiple-match for several |
| NameFilters.PoolByName | apstra/api_resources_ip.go:200-219 | the same for pools |
| NameFilters.KeptAreCounted | apstra/api_blueprints.go:481-501 | the slice left is as long as the list has matches |
| NameFilters.LookupIsUnique | apstra/api_blueprints.go:481-501 | the answer depends neither on the order of the list nor on the direction of the scan |
| PortSpeed.NormalRoundTrip | apstra/api_design_logical_devices.go:227-291 | a normalised speed's text is read back as that speed |
| PortSpeed.NormalisingIsIdempotent | apstra/api_design_logical_devices.go:227-291 | re-reading the normalised speed of any non-empty text gives it again, also when the product wraps around |
| PortSpeed.TruncatedIff | apstra/api_design_logical_devices.go:227-302 | a speed is understated by less than one unit exactly when it says at least 10 Mbps and no more than 64 bits hold |
| PortSpeed.RawOfDigits | apstra/api_design_logical_devices.go:227-274 | what a number with a unit is normalised to |
| PortSpeed.NumbersWithUnits | apstra/api_design_logical_devices.go:227-274 | a number, perhaps with M, G or T, perhaps with bps or b/s, in capitals or not and with spaces around: what it is read as, up to 64 bits |
| PortSpeed.FiveMegabits | apstra/api_design_logical_devices.go:259-273 | 5M is taken for 1G |
| PortSpeed.SpeedWrapsAround | apstra/api_design_logical_devices.go:227-274 | 18446744074G wraps around and is taken for 290M |
| PortSpeed.EqualIff | apstra/api_design_logical_devices.go:280-282 | speeds are equal in bits per second exactly when they are normalised alike |

## Left out

- JSON text: a policy's attributes, a template's user data and each request are typed records. Attributes of a primitive in another kind's shape are an error; of a batch or pipeline, absent fields read as empty. A malformed JSON text is only modelled for user data.
- Descriptions of the ten kinds of primitive, and the other tables of enumerated texts, are named and not spelled out; so are errors' messages.
- CtAttributes.AttributesRoundTrip: how addresses and networks are spelled is library behaviour; a network's text is what it spells, masks are runs of ones, and addresses without a prefix are opaque texts.
- Templates whose pointers lead in a circle, on which the code does not return, and nil subpolicies, on which it panics.
- QueryBuilder.StringOf: a query that holds itself, directly or through others, has no text, and String does not return on it.
- Layout coordinates are integers; the code's float64 values are exact at that size.
- Clocks, tickers, poll intervals, retry counts and context deadlines are nondeterministic events or the end of the given answers.
- TaskMonitorProtocol.RunKeepsInv: the emptiness test of the loop is one step, although the code reads the map there without the lock; sending an error to the caller's error channel does not block.
- The restart of a stopped monitor, and the status list's check for empty fields, are not modelled; a failed status request stands for the latter.
- BlueprintMutexSafety.MutualExclusion: outsiders create tags but remove and relabel none, and the server never reuses a tag ID; with outside removal it would not hold.
- PolicyEditing.EditsAreSerial: rules are changed only by AddPolicyRule and DeletePolicyRuleById through one client. A whole-policy update takes no lock in the code, and neither do other clients.
- KeyedLocks.LockMap.Enter: the waiting that follows in lock() is a step of PolicyEditing, since a method cannot block.
- Several policy rule fields other than ID and label are one opaque content; enumerations in rules are not parsed.
- ApplicationPoints.GetForPoint: the branch that reports not-found is left out, as it cannot be reached.
- RackTypes: fields other than labels, tags, links and device IDs are one opaque content; enumerations are not parsed. A leaf's, switch's or system's fields that both directions copy are not told apart.
- RackTypes.PolishMeans: failures other than those of the lookups, in parsing enumerations or a device's own content.
- RackTypes.RawIsClosed: the server answers a request for a logical device with the device of that ID.
- PortRanges.ParsePortRanges: the later comparison with 65535 is left out, as the 16-bit parse has refused such numbers before.
- IntPools: the texts of a pool's totals, whose parsing can fail before a range is added or deleted.
- BlueprintMutexSafety.NothingStranded: calls that are refused at once change nothing and are not steps.
- QueryBuilder: client, blueprint and context settings of a query, and running it, are I/O.
- Concurrent updates of one integer pool, which the code disclaims.
- NameFilters.FilterForward: which of the wanted elements comes first is not stated, since callers may not rely on it.
- PortSpeed: upper-case letters outside ASCII are left as they are; none of them is part of a number or unit. The bits per second of an empty speed is a nil dereference.
- Port-role flags, device profiles and other field-by-field conversions: easy members only.
- The connectivity-template status, list and delete calls, and the interface queries of the assignment file: one request each.
- Batch application of assignments (SetApplicationPointsConnectivityTemplates): it copies a map to a list.
