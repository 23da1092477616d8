# Verification of the AXIAM Go SDK's stateful cores

This project models, in Dafny, the parts of the SDK whose correctness is spread over several calls, and proves
what they promise.

- **The network reconciler.** `Plan` and `Apply` of a manifest's `network` section, against a server whose writes
  are conditional on versions and whose profile reads are clamped to a cap. The server is a value with a step
  function. Every run meets a *tape*: before each write other administrators may write anything, and the write may
  be served, refused for a reason outside the model, or served with its answer lost. A statement about every tape is
  a statement about every such server. A tape is *quiet* when nobody else writes.
- **The manifest.** Its well-formedness check, the parents-first order, and the fluent builder.
- **The decision memo and the session.** A bounded, expiring cache judged against the log of the operations made on
  it, and the credentials (session cookie, device token, a grant's token) and acting-tenant gate that every handle of
  a client shares, over every run of calls; and the memo again while checks and credential changes overlap.
- **Smaller loops.** The pagination walk, which the reconciler's own reads use, the read-modify-write of an event
  stream, and the splitting of a token.

Code that works by changing things is modelled so: the reconciler's tables, the memo, the session, the handles and
the builder are classes with the source's fields, and each loop of the source is a loop with invariants. Each such
method is proved against a function of the old state, and the properties are lemmas about those functions. The main
results are also said in words of the inputs alone, without those functions: `NetworkAsStated` of the stored rows,
`SessionHistory` of the calls made, `ManifestFaults` and `TopologicalOrder.OrdersResources` of the specs.

## What was found

- **Rule 6 of section 27.6 of `CONTRACT.md` (`Apply` then `Plan` shows no change) does not always hold.** A profile
  stated at the value it is clamped to is left alone; if the same `Apply` raises the cap, the next read is not
  clamped to it any more and the next plan shows an update. A profile stated above a cap the same `Apply` lowers is
  stranded likewise. `NetworkConvergence.ApplyThenPlan` gives the exact condition, which a caller can read off the
  manifest and the first plan's own reads; `NetworkConvergence.TwoAppliesSuffice` shows that a second complete
  `Apply` always converges, and `NetworkClampExamples` holds one concrete tenant of each kind.
- **An `Apply` may need help to complete.** `NetworkCompletion.ServedApplyCompletes` says exactly when one that nobody
  disturbs does: every profile it writes has its timeout within the final cap, and its idle timeout within that. A
  profile whose timeout the manifest lowers below an idle timeout it does not state is refused, because the idle
  timeout is carried from the read.
- **A profile's version does not survive removal.** A profile that is removed and made again starts at version 1, so
  a replacement planned on the first one can be admitted over the second: `NetworkRecreationExample` is a complete
  `Apply` that overwrites one unseen. `NetworkInterference.NoLostUpdate` shows that this is the only way: unless an
  admitted write removed the profile since it was read, the row overwritten is the row read; if one did, the row
  overwritten was made since.
- **Two credential changes keep the decision memo**, although rule 9 of section 17.1 of `CONTRACT.md` asks any of them
  to clear it. Adopting a grant's token does (`oidc.go:645-657`, `oidc_device.go:398-406`, `oidc_ciba.go:726-730`,
  `oidc_native.go:199-206`): adopted over a device token, it is served the device's decisions
  (`Sessions.AdoptionKeepsTheMemo`, for each of the four grants). And so does an SSO completion whose answer stored its
  session cookie and then could not be read (`oidc.go:885-909`): the new session is served the old one's decisions, and
  the acting-tenant gate still describes the old principal (`Sessions.UnreadSsoKeepsTheMemo`).
  `Sessions.HitIsOfTheCurrentCredential` says on every run exactly when a hit was answered to the credential requests
  act for, and `Sessions.GatesPrincipalActs` when they act for the principal the gate describes.
- **A grant's token outlives sign-ins, SSO completions and logouts, and acts again when they are over.** They drop a
  device token, and not the token of a grant. While the jar holds a session cookie the server reads that first, so the
  token is sent and not read (`Sessions.LoginActsOverAToken`, `Sessions.TokenIsReadWithoutACookie`); when a logout
  empties the jar, requests act for the token adopted before the login (`Sessions.LogoutKeepsTheToken`).
- **Overlapping checks can outlive a credential change.** Only the memo is locked, not the check or the login. An
  answer given to the old credential may be memoized after a login cleared the memo, whether its check was waiting
  when the login began (`InFlightChecks.LateAnswerOutlivesTheChange`) or was made between the clear and the new
  credential (`InFlightChecks.EarlyAnswerOutlivesTheChange`). `InFlightChecks.HitWasAnswered` says which hits these are.
  If every replacement has been followed by a clear, only the first kind is left
  (`InFlightChecks.ClearingLastLeavesWaitingRequests`); of the calls that replace the credential only an SSO completion
  ends so, and only where no device token was held: else the token is dropped after the clear
  (`InFlightChecks.WhichCallsClearLast`).
- **A memo key can be forged by unclean fields.** An optional field equal to the absent marker makes the key of the
  question without it (`DecisionMemo.MarkerCollides`), and a separator moves what follows it into the next field
  (`DecisionMemo.SeparatorCollides`), although the comment on the separator says no combination of values can collide.
  The acting tenant is the text of a UUID and can hold neither; what those two lemmas say of it is about the key alone.
  `MemoKeyCollisions.SharedExactlyByInnerSeparators` says exactly which questions share their key with another: a
  separator that begins the subject or ends the scope does no harm, any other does.
- Two documents disagree about a segment's name: the Go spec says it is unique within its site and kind, the API
  record within its site. The model refuses a second segment with the same site, kind and name; a stricter server is
  one that refuses more.

## Model

| member | source | states |
|---|---|---|
| Nullables.ResolvedMemberSettles | management_manifest_network.go:264-276 | a stated member is judged to differ exactly when writing the resolved member would change it, and once that is stored nothing differs |
| Keys.DuplicateKeys | management_manifest.go:652-662 | one problem for each repeated occurrence, none exactly when the keys are distinct |
| Keys.RepeatsAreRepeated | management_manifest.go:652-662 | a key is reported exactly when it stands at two places of the list |
| NetworkManifest.ValidateNetwork | management_manifest_network.go:135-180 | every problem of the section in the code's order, and none exactly when segment keys and natural keys are distinct, no Filter-Id repeats, and each profile names a declared segment that no other profile names |
| NetworkManifest.ValidateSegments | management_manifest_network.go:136-162 | the segment loop reports a shared natural key against its first holder, and every repeated Filter-Id |
| NetworkManifest.ValidateProfiles | management_manifest_network.go:164-178 | the profile loop reports a dangling profile or a repeated one, never both |
| NetworkManifest.NoNetworkProblems | management_manifest_network.go:131-134 | nothing is reported exactly when the section is valid |
| NetworkPlan.SameSet | management_manifest_network.go:244-262 | comparing the two maps by size and one inclusion decides equality of the two lists as sets of strings |
| NetworkPlan.FirstSegmentIsFound | management_manifest_network.go:310-318 | of several listed rows with a spec's site, kind and name the first is planned on |
| NetworkPlan.FirstProfileIsFound | management_manifest_network.go:344-351 | of several listed profiles of a segment the first is planned on |
| NetworkPlan.NetworkSegmentDrifted | management_manifest_network.go:400-414 | the code's sequence of tests is drift in some stated member |
| NetworkPlan.PlanSegmentSteps | management_manifest_network.go:307-332 | the segment loop plans each spec on the first row with its natural key and leaves the tables holding the id and version of each row found |
| NetworkPlan.PlanProfileSteps | management_manifest_network.go:334-371 | the profile loop plans in segment order and is refused at the first guess |
| NetworkPlan.RunPlanNetwork | management_manifest_network.go:282-373 | planNetwork with its tables updated in place is the plan function, refusals included |
| NetworkGuarantees.DriftIsWhatAReplacementWouldChange | management_manifest_network.go:398-414 | a segment is judged drifted exactly when the replacement would change its row, Filter-Ids compared as sets of strings |
| NetworkGuarantees.ProfileDriftIsWhatAReplacementWouldChange | management_manifest_network.go:416-428 | a profile is judged drifted exactly when the replacement would change what is read |
| NetworkGuarantees.PlanShape | CONTRACT.md:9206-9221 | exactly one action per spec: policy, segments, then profiles in segment order, each stated profile once; a create when no row was read, an update exactly when a replacement would change it |
| NetworkGuarantees.EveryProfileOnce | management_manifest_network.go:334-343 | the profiles planned are the stated ones, none twice |
| NetworkGuarantees.PlanRefusesExactlyAGuess | management_manifest_network.go:375-392 | whatever was read, planning is refused exactly when a profile to be replaced was read with a termination action other than default and radius_request, or a service type other than framed_user, that the manifest does not state; and the refusal names the first such segment and its value |
| NetworkAsStated.PlanIsRefusedExactlyWhen | CONTRACT.md:9266-9282 | the same of the stored rows, with no other writer |
| NetworkAsStated.KnownIsNeverRefused | management_manifest_network.go:375-396 | over profiles that hold known values only, whatever the manifest states, no plan is refused |
| NetworkAsStated.ApplyLeavesKnown | management_manifest_network.go:498-528 | a complete Apply that states known values only, or leaves the members at their defaults, leaves known values only |
| NetworkGuarantees.UnknownEnumIsNeverResent | CONTRACT.md:9266-9282 | whoever else writes, every profile replacement an accepted plan sends, on a new api or a used one, carries only open-enum values known to the SDK or stated by the manifest for that very profile |
| NetworkGuarantees.PlanIgnoresListingOrder | CONTRACT.md:9065-9067 | two plans over unchanged state are equal, whatever order the server lists in, and planning on the lists readNetwork chose equals planning on the full state |
| NetworkApply.ReadNetwork | management_manifest_network.go:192-221 | only the reads the section needs, ended by the first that fails; each row is one the server had when its page was read, and while nobody else writes the lists are whole |
| NetworkApply.NetworkApi.ListAll | management_network.go:75-82 | a list walked page by page while others write: every item was listed when its page was read, the first failing read ends the walk, and while nobody else writes the whole list comes back |
| NetworkReads.ListSettles | management_manifest_network.go:189-191 | once nobody writes any more, every further page is a page of one list |
| NetworkReads.ReadingOf | management_manifest_network.go:192-221 | a policy and two walked lists make one reading, each row with the state it was read in and what was written since |
| NetworkApply.RunNetwork | management_manifest_network.go:451-531 | one step sends exactly one write, with the version Plan read and the table's segment version, and teaches the tables what its answer said |
| NetworkApply.ExecuteSteps | management_reconcile_apply.go:12-83 | the loop with its stop flag is the fold of the steps, for every server and every other writer |
| NetworkApply.Plan | management_reconcile.go:195-215 | no write is ever sent; an invalid section is refused before any request, then a failing read, then a refused plan; otherwise the actions of the plan on what was read |
| NetworkApply.Apply | management_reconcile.go:221-238 | the same errors, none after a write; otherwise exactly the steps Plan would report are run on the state the reads left |
| NetworkApply.WhyUnplanned | management_reconcile.go:195-215 | an invalid section is reported with its problems before a failed read, that before a refused plan, and a plan is made exactly when there is none of them |
| NetworkApply.ExecuteAppends | management_reconcile_apply.go:15-81 | running two stretches of steps is running one after the other |
| NetworkApply.NetworkApi.SendWrite | management_network.go:144-150 | a write meets the server as others left it just before, and is answered by the server, turned away, or done with its answer lost, as its fate says; one more exchange is recorded and no read is made |
| NetworkServer.AfterKeepsWellFormed | management_models.go:2214-2248 | every write keeps ids, natural keys, profile ownership and idle timeouts in order |
| NetworkServer.PlayEvolves | management_models.go:3138-3198 | whatever others write, a policy or segment version that still stands means the row still stands, and an id once gone names nothing again |
| NetworkServer.PlayLetsProfileStand | management_models.go:3161-3170 | a profile no admitted write removed keeps its row as long as its version stands |
| NetworkServer.PresentIsKeptOrMade | management_models.go:2246-2247 | a profile that is there after any writes was either there before and never removed, or made by one of them, and never both |
| NetworkRun.QuietSend | CONTRACT.md:9253-9265 | with no other writer a write meets exactly the state the last one left |
| NetworkRun.UpdateEffect | management_manifest_network.go:477-496 | a segment replacement is admitted and leaves the read row with the stated members replaced, and touches no other row |
| NetworkRun.CreateEffect | management_manifest_network.go:460-475 | a segment create is admitted and adds the stated row with the defaults, and touches no other |
| NetworkRun.ProfileUpdateEffect | management_manifest_network.go:512-528 | an admitted profile replacement is within the cap and leaves the read profile with the stated members replaced |
| NetworkRun.ProfileCreateEffect | management_manifest_network.go:498-510 | an admitted profile create is within the cap and adds the stated profile with the defaults |
| NetworkRun.SegmentStep | management_manifest_network.go:447-496 | a segment step of a quiet run settles its row, keeps the table on its current version, sends only a current write and touches nothing else |
| NetworkRun.SegmentPhase | management_manifest_network.go:307-332 | the segment steps do so for every spec, up to their first failure |
| NetworkRun.ProfileStep | management_manifest_network.go:498-528 | a profile step of a quiet run finds its segment resolved, sends only a current write and touches no other profile |
| NetworkRun.ProfilePhase | management_manifest_network.go:334-371 | the profile steps do so for every spec, up to their first failure |
| NetworkRun.QuietApply | management_reconcile.go:217-238 | a whole quiet Apply, complete or not: every write current, nothing the manifest does not name touched, and every stated row settled if it completed |
| NetworkRun.FilledTable | management_manifest_network.go:323-324 | after planning, a segment key is in the tables exactly when its row was read, with that row's id and version |
| NetworkGuarantees.QuietWritesAreNeverStale | CONTRACT.md:9292-9297 | with no other writer no write an Apply adds is stale, names a missing row or makes an existing one; the server can only object to a value |
| NetworkGuarantees.ReplacementIsMerge | CONTRACT.md:9256-9265 | after a complete Apply every stated row is the read row with the stated members replaced, null clearing and absent keeping, and the rows not named are as they were |
| NetworkConvergence.ConvergedMeansReadAsStated | management_plan.go:108-112 | a plan changes nothing exactly when every stated row was read and no stated member differs |
| NetworkAsStated.NoChangeMeansHeldAsStated | CONTRACT.md:9228-9255 | with no other writer a plan changes nothing if and only if the server holds the stated cap, for each segment spec a row of its site, kind and name with the stated VLAN, rank, set of Filter-Ids and enablement, and for each profile spec one that reads under the cap as stated |
| NetworkAsStated.CompleteApplyLeaves | CONTRACT.md:9256-9265 | after a complete quiet Apply the cap is the stated one, each segment spec's row has the stated members and the rest as before or at the defaults, and each profile is untouched where it read as stated and otherwise has the stated members and the rest as read or at the defaults |
| NetworkConvergence.UnwrittenProfileUnderNewCap | CONTRACT.md:9234-9246 | a profile left alone still reads as stated under another cap exactly when that cap admits the stated timeout and does not un-clamp it |
| NetworkConvergence.ApplyThenPlan | CONTRACT.md:9055-9057 | after a complete quiet Apply a fresh plan changes nothing if and only if the stated cap suits every profile the Apply left alone |
| NetworkConvergence.ConvergedIsWithinTheCap | CONTRACT.md:9234-9246 | a converged manifest states no profile above the cap |
| NetworkConvergence.TwoAppliesSuffice | CONTRACT.md:9055-9057 | two complete quiet Applies are always followed by a plan of no changes |
| NetworkConvergence.ConvergedApplyIsSilent | management_reconcile_apply.go:22-27 | applying a converged manifest sends no write and reports every step unchanged, whatever others do |
| NetworkCompletion.ServedApplyCompletes | management_manifest_network.go:498-528 | with no other writer and every write served, an Apply completes if and only if every profile it writes has its timeout within the final cap and its idle timeout, stated or carried, within that timeout |
| NetworkCompletion.ServedApplyConverges | CONTRACT.md:9055-9057 | such an Apply completes and is followed by a plan of no changes if and only if every profile it writes fits and the cap suits those it leaves alone |
| NetworkCompletion.ProfileStepIsServed | CONTRACT.md:9234-9246 | a profile step of a quiet, served run fails exactly when the profile would be written and does not fit the cap then in force |
| NetworkCompletion.SegmentsAreServed | management_manifest_network.go:307-332 | the segment steps of such a run never fail |
| NetworkClampExamples.RaisingTheCapUnclamps | CONTRACT.md:9234-9246 | one tenant, its reads and its whole Apply: raising the cap leaves the next plan with a change |
| NetworkClampExamples.LoweringTheCapStrands | CONTRACT.md:9234-9246 | one tenant, its reads and its whole Apply: lowering the cap leaves the next plan with a change |
| NetworkInterference.NoLostUpdate | CONTRACT.md:9299-9307 | whoever writes between the reads, the pages and the steps, on a new api or a used one, a replacement the server admits overwrites exactly the row Plan read; a profile unless an admitted write removed it since, and then, and only then, the row overwritten was made since |
| NetworkGuarantees.StepsArePlannedFor | management_manifest_network.go:223-240 | every step of a plan is of a spec of the manifest and, for a replacement, of the row its reads returned for that spec: a segment by its natural key, a profile through the tables |
| NetworkEffects.ChangedStepsTookEffect | management_reconcile_apply.go:29-81 | whoever else writes, each step reported created or updated was admitted by its own request, and at that moment left exactly what it asks for and no other change: the policy or segment as read with the stated members replaced, a new segment, or the stated profile of the segment with the natural key its key stands for |
| NetworkEffects.RunKeepsNames | management_manifest_network.go:467-473 | whoever else writes, the tables only ever name ids of segments with the natural key of their manifest key |
| NetworkEffects.AdmittedTookEffect | management_manifest_network.go:451-531 | an admitted write of a planned step changes one row, the one planned for, into what the step asks for, whatever was written since the reads |
| NetworkInterference.RunIsTraced | management_manifest_network.go:447-450 | every state a run meets is its start played forward by exactly the writes that reached the server, its own and the others' |
| NetworkRecreationExample.RecreatedProfileIsOverwritten | management_models.go:2246-2247 | the exception is real: a complete Apply whose one replacement is admitted over a profile Plan never read, and loses what it stated |
| ManagementPlan.Changes | management_plan.go:98-106 | the steps that change something, none exactly when no action does |
| ManagementPlan.ChangesAreInOrder | management_plan.go:98-106 | the changes of a plan are those of its parts, in the same order |
| ManagementPlan.CountsAdd | management_plan.go:204-212 | the count of a report is the sum of the counts of its parts |
| ManagementPlan.Failure | management_plan.go:172-181 | the first failed step, or that there is none |
| ManagementPlan.ChangedCount | management_plan.go:204-212 | the number of steps that created or updated |
| ManagementPlan.ApplyStopsAtFirstFailure | CONTRACT.md:9059-9063 | the report is the plan up to its first failure: each step before was done, each changing one sent one request, and nothing after was attempted |
| ManagementPlan.CompleteApplyDoesItsPlan | management_plan.go:203-212 | a complete Apply changed, and sent, as many things as its plan listed |
| ManagementPlan.PlansAreHonest | management_manifest_network.go:294-371 | every step of a plan does what its action says: nothing, a create or an update |
| ManifestValidation.ValidateManifest | management_manifest.go:505-642 | what is reported ails the manifest, everything that ails it is reported and not just the first, a cycle is reported exactly when there is one, and nothing is reported exactly when the manifest is well formed |
| ManifestFaults.AilsIsFault | management_manifest.go:505-642 | each kind of problem, and the specs it names, in words of the manifest alone: what ails a manifest is exactly what is at fault in it |
| ManifestFaults.WellFormedIsFaultless | management_manifest.go:505-642 | a manifest is well formed if and only if nothing in it is at fault |
| ManifestFaults.NetworkProblemsAreFaults | management_manifest_network.go:131-180 | validateNetwork reports exactly: a segment that shares its site, kind and name with the first holder named, a Filter-Id stated twice in one segment, a key declared twice, a profile of no declared segment, and a second profile of a declared one |
| ManifestValidation.NothingAilsTheWellFormed | management_manifest.go:497-504 | the list of possible complaints covers well-formedness exactly |
| ManifestValidation.CheckBindings | management_manifest.go:589-610 | for one subject: the complaints about each binding, and one for each role bound twice, whatever resource each binding names |
| ManifestValidation.CheckRole | management_manifest.go:562-575 | every undeclared permission and scope of a role's grants, and nothing else |
| ManifestValidation.CheckParents | management_manifest.go:556-561 | every undeclared parent, and nothing else |
| ManifestValidation.CheckUser | management_manifest.go:615-623 | a user's binding complaints and every undeclared group, and nothing else |
| ManifestValidation.GatherResources | management_manifest.go:514-522 | the nested loop lists and tables exactly the resource and scope keys |
| ManifestValidation.GatherRoles | management_manifest.go:529-535 | the loop tables exactly the roles, and exactly the keys some global role declares |
| TopologicalOrder.Order | management_manifest.go:670-702 | an error exactly when declared resources form a ring, each beneath the next and the last beneath the first (one alone beneath itself included), and then of a key on one; otherwise every key once and after its own parent, nothing but declared keys and named parents; resources listed parents first keep their order |
| TopologicalOrder.CycleIsARing | management_manifest.go:681-693 | a key is on a cycle of the parents map if and only if declared resources form a ring through it; of resources that share a key the last counts |
| TopologicalOrder.ParentsFirstOfResources | management_manifest.go:696-702 | an order that is parents first has every declared resource after its own parent |
| TopologicalOrder.WalkUp | management_manifest.go:681-693 | the climb ends, at the top or something placed, or at a key on a cycle |
| TopologicalOrder.PlaceChain | management_manifest.go:694-699 | placing a chain from its top end keeps parents first and places every key of it |
| TopologicalOrder.RootedIsNotOnCycle | management_manifest.go:664-669 | a key from which the top is reached is on no cycle |
| TopologicalOrder.OrderedMeansAcyclic | management_manifest.go:664-669 | a parents-first order of all keys exists only for an acyclic hierarchy |
| TopologicalOrder.OrderIsPermutation | management_manifest.go:664-669 | for distinct non-empty keys and declared parents the order is a permutation of the keys |
| TopologicalOrder.ReorderedStaysInOrder | management_manifest.go:678-680 | resources listed in the order found for them are parents first, so ordering them again changes nothing |
| ManifestBuilder.ReplayRebuilds | management_manifest.go:284-475 | the builder calls of any manifest with distinct keys and no network section rebuild that manifest with no recorded problem |
| ManifestBuilder.RecordsWhatIsUndeclared | management_manifest.go:309-475 | on every run of calls the builder records, in order, exactly the refining calls whose key no call before them declared; so it records none if and only if every refinement follows its declaration |
| ManifestBuilder.GroupBindsEachRole | management_manifest.go:367-379 | a group with role keys is the group without and then each role bound to it, at no resource and inherited |
| ManifestBuilder.ResourceBuilt | management_manifest.go:293-322 | one resource's calls append exactly that resource, scopes and metadata included |
| ManifestBuilder.ChangeLast | management_manifest.go:309-321 | a refining call changes the first declaration of its key and no other |
| ManifestBuilder.FluentBuilder.AddResource | management_manifest.go:293-298 | appends a root resource and nothing else changes |
| ManifestBuilder.FluentBuilder.AddChildResource | management_manifest.go:301-306 | appends a resource beneath its parent |
| ManifestBuilder.FluentBuilder.AddScope | management_manifest.go:309-321 | extends the first resource of the key, or records one problem and leaves the manifest alone |
| ManifestBuilder.FluentBuilder.SetResourceMetadata | management_manifest.go:452-462 | replaces the metadata of the first resource of the key, or records one problem |
| ManifestBuilder.FluentBuilder.AddPermission | management_manifest.go:324-329 | appends a permission |
| ManifestBuilder.FluentBuilder.AddRole | management_manifest.go:332-335 | appends a role that is not global |
| ManifestBuilder.FluentBuilder.AddGlobalRole | management_manifest.go:338-343 | appends a global role |
| ManifestBuilder.FluentBuilder.AddGrant | management_manifest.go:349-361 | extends the first role of the key, or records one problem |
| ManifestBuilder.FluentBuilder.AddGroup | management_manifest.go:367-376 | appends a group with plain bindings, in the order of the keys |
| ManifestBuilder.FluentBuilder.AddGroupRole | management_manifest.go:381-391 | extends the first group of the key, or records one problem |
| ManifestBuilder.FluentBuilder.AddUser | management_manifest.go:395-400 | appends a user |
| ManifestBuilder.FluentBuilder.AddUserRole | management_manifest.go:405-422 | extends the roles of the first user of the key, or records one problem |
| ManifestBuilder.FluentBuilder.AddUserToGroup | management_manifest.go:465-475 | extends the groups of the first user of the key, or records one problem |
| ManifestBuilder.FluentBuilder.AddServiceAccount | management_manifest.go:426-431 | appends a service account |
| ManifestBuilder.FluentBuilder.AddServiceAccountRole | management_manifest.go:435-445 | extends the first service account of the key, or records one problem |
| ManifestBuilder.FluentBuilder.Build | management_manifest.go:482-491 | succeeds exactly when no call was recorded as a problem and the manifest is well formed, and returns that manifest |
| ManifestBuilder.BuildByCalls | management_manifest.go:284-491 | a manifest made call by call on the builder and built comes back exactly when its literal form is well formed |
| DecisionMemo.MemoKeyIsInjective | decision_memo.go:64-82 | clean questions share a key exactly when they are the same check for the same acting tenant |
| DecisionMemo.SeparatorFreeKeysAgreeUpToTheMarker | decision_memo.go:64-82 | without separators, questions share a key exactly when they agree up to the absent marker in an optional field |
| DecisionMemo.MarkerCollides | decision_memo.go:48-51 | the marker as scope or subject makes the key of the question without it, and would as tenant |
| DecisionMemo.SeparatorCollides | decision_memo.go:44-47 | for each pair of neighbouring fields, a separator in one makes the key of a question whose next field begins with what followed it |
| MemoKeyCollisions.SharedExactlyByInnerSeparators | decision_memo.go:43-82 | among questions without the marker, one shares its key with another if and only if its resource or action holds a separator, or its subject one after the first character, or its scope one before the last |
| MemoKeyCollisions.SharedAmongAll | decision_memo.go:43-82 | among all questions, one shares its key with another if and only if that, or an optional field is absent or the marker |
| MemoKeyCollisions.KeyIsItsOwn | decision_memo.go:75-82 | a key without such a separator is the key of one question alone |
| DecisionMemo.UncleanFieldsCollide | decision_memo.go:43-52 | two pairs of different checks with one key, by a separator and by the marker |
| DecisionMemo.RunReflects | decision_memo.go:98-104 | on every log, map and list stay in bijection within 1024 entries, the list in the order of the last sets, and a missing key has a reason: never set, asked for after it expired, or pushed out by 1024 other keys |
| DecisionMemo.HitIsTheLastSet | decision_memo.go:122-144 | a hit is the last result set for the key since the last clear, less than the ttl ago |
| DecisionMemo.HitStands | decision_memo.go:122-144 | a hit was set at some point of the log, has not been set again nor cleared since, and is younger than the ttl |
| DecisionMemo.FreshSetHits | decision_memo.go:146-173 | a fresh set that stands always hits unless 1024 other keys were set after it |
| DecisionMemo.JustSetHits | decision_memo.go:151-173 | what was set last is found while it is fresh |
| DecisionMemo.AskingTooLateDrops | decision_memo.go:135-139 | a key asked for when it has expired is dropped, and no other |
| DecisionMemo.DisabledHoldsNothing | decision_memo.go:120-154 | with a zero ttl nothing is ever memoized |
| DecisionMemo.ClampedTtl | decision_memo.go:106-111 | the ttl kept lies between zero and five seconds, is the one asked for when that does, and is zero exactly when none above zero was asked for |
| DecisionMemo.EvictionMirrors | decision_memo.go:165-172 | evicting the front of an overfull list drops the key whose last set is oldest |
| DecisionMemo.DroppedKeepsTheRest | decision_memo.go:135-139 | dropping a key removes its one entry and keeps the others in order |
| DecisionMemo.DecisionCache.constructor | decision_memo.go:106-118 | an empty memo whose ttl is the requested one kept between zero and five seconds |
| DecisionMemo.DecisionCache.Lookup | decision_memo.go:123-144 | the fields stay what the log makes them; a hit is the last result set, younger than the ttl |
| DecisionMemo.DecisionCache.Store | decision_memo.go:151-173 | the fields stay what the log makes them, within the bound |
| DecisionMemo.DecisionCache.Clear | decision_memo.go:180-188 | nothing is memoized any more |
| Sessions.MemoFollowsTheCalls | authz.go:171-201 | the session's memo is the memo of the operations its calls made |
| Sessions.MemoizedAnswerWasServed | CONTRACT.md:3888-3904 | on every run over any handles, an answer from the memo was served to the same check for the same acting tenant, less than the ttl ago, and no sign-in, SSO completion, refresh, logout, device login or close came since |
| Sessions.AdoptionKeepsTheMemo | oidc.go:645-657 | for every grant a run in which a device token's answer is served to the token adopted over it |
| Sessions.UnreadSsoKeepsTheMemo | oidc.go:885-909 | a run in which an SSO completion stores its cookie and cannot be read: the old session's answer is served to the new one, and the gate keeps the old principal |
| Sessions.HitIsOfTheCurrentCredential | CONTRACT.md:3901-3904 | on every run, a hit was answered to the credential requests now act for if and only if, since it was stored, no token was adopted over a device token, the jar was last left with the same cookie, or with none and the same grant's token adopted last |
| Sessions.DeviceTokenIsHeldUntilReplaced | client.go:639-667 | a held device token was adopted by a device login nothing has replaced since; the gate is then unknown and no other token held |
| Sessions.KnownScopeIsTheLastSignIns | client.go:549-592 | what the gate knows is the organization level and the reachable tenants of the last sign-in that completed, and nothing has ended that principal since |
| SessionHistory.KnownIsWhatStands | login.go:374-379 | on every run the session knows exactly what the sign-in that stands said, and nothing if none does: one that completed, left its cookie and told a principal, with no sign-in, logout, completed SSO completion, device login or adoption since |
| SessionHistory.GateOnEveryRun | client.go:498-547 | on every run an acting tenant is granted if and only if nothing closed the session and the sign-in that stands, if one does, was of an organization-level principal who reaches every tenant or that one |
| SessionHistory.DeviceTokenIsWhatStands | client.go:639-667 | on every run the device token is that of the device login that stands, and there is none if none does |
| SessionHistory.GrantTokenIsWhatStands | oidc_wire.go:400-410 | on every run the grant's token is the one adopted last, unless a device login dropped it since |
| SessionHistory.CookieIsWhatStands | client.go:897-921 | on every run the session cookie is the one the jar was left with last; a refresh and a logout touch it only if it held one |
| SessionHistory.RequestCarries | client.go:776-921 | to another origin or an OAuth2 endpoint a request carries nothing that is held; else the caller's own header before a token, and a cookie only where no device token is held |
| SessionHistory.RequestOfADevice | client.go:897-921 | on every run a plain request carries the token of the device login that stands and no cookie |
| SessionHistory.RequestWithoutADevice | client.go:836-842 | if none stands, it carries the grant's token that stands beside the cookie that does |
| SessionHistory.HitOnEveryRun | CONTRACT.md:3868-3904 | on every run, whatever ttl was asked for, an answer from the memo is the server's to the same check for the same acting tenant, less than five seconds old, on a session nothing closed, and no sign-in, refresh, logout, completed SSO completion or device login came since |
| SessionHistory.AnswerIsServedAgain | authz.go:171-201 | on every run of an open session what the server answered is served to the same check again while it is fresh |
| SessionHistory.FailureIsNotStored | CONTRACT.md:3892-3895 | a check the server did not answer adds nothing to the memo |
| SessionHistory.NothingAfterAClose | client.go:608-617 | a closed session answers nothing |
| SessionHistory.ClosedByAClose | client.go:608-633 | a session is closed if and only if it was closed by a call |
| Sessions.OneTokenAtMost | client.go:831-836 | at most one adopted token is ever held, so the order of the two is never a choice |
| Sessions.BearerIsTheLastAdopted | client.go:836-839 | the adopted token held is the last one adopted |
| Sessions.RequestsCarryTheLastToken | client.go:826-842 | a request leaves with a header its caller did not set exactly when it goes to the own origin, not to an OAuth2 endpoint, and a token is held, and then with the last one adopted |
| Sessions.ActingOnEveryRun | CONTRACT.md:909-915 | on every run requests act for the device while its token is held, else for the session whose cookie the jar was left last, else for the token adopted last |
| Sessions.CookieIsTheLastSet | client.go:899-921 | the session cookie is the one the last call that touched the jar left |
| Sessions.PlainRequestsAreReadAsActing | client.go:897-921 | what the server reads of the cookie and header a plain request carries is the acting credential |
| Sessions.TokenIsReadWithoutACookie | device_auth.go:66-72 | a grant's token held is the one requests act for if and only if the jar holds no session cookie |
| Sessions.GatesPrincipalActs | client.go:549-592 | while the gate knows a principal, requests act for it if and only if the jar has been left with a cookie of that principal since, or with none over an adopted token of it |
| Sessions.LoginActsOverAToken | login.go:335-380 | for every grant a run in which a login over an adopted token acts by its cookie while the token stays held |
| Sessions.GrantTokenOutlivesThePrincipal | login.go:547-553 | after any sign-in, SSO completion or logout a grant's token is held as before, and requests act for it if and only if the jar is left without a session cookie |
| Sessions.LogoutKeepsTheToken | login.go:547-591 | for every grant a run in which the logout of a login over the adopted token empties the jar, and requests act for the token again |
| Sessions.CallMovesCredentials | login.go:335-341 | which calls move the device token, the gate, the adopted token and the session cookie, and to what |
| Sessions.ClientSession.constructor | client.go:391-401 | a new session holds nothing and its memo's ttl is clamped to five seconds |
| Sessions.Client.ActingTenant | client.go:498-547 | a new handle on the same session exactly when the session is open and what it knows of the principal reaches the tenant |
| Sessions.Client.ClearActingTenant | client.go:514-518 | a handle on the same session with no acting tenant |
| Sessions.Client.Check | authz.go:171-201 | the memo's answer, or else the server's, which alone is stored; a closed session answers nothing |
| Sessions.Client.SignIn | login.go:335-380 | everything of the previous principal goes but its cookie, whether or not the call completes; the jar takes the answer's; a completed one records the new principal's reach, a WebAuthn authentication none |
| Sessions.Client.FinishSso | oidc.go:873-917 | the jar takes the answer's cookie; unless the answer is read and a cookie is there nothing else changes; then memo, gate and device token go, even on a closed client |
| Sessions.Client.RefreshSession | login.go:477-521 | the memo goes, and without a session cookie no request is sent; device token, adopted token and gate stay |
| Sessions.Client.LogOut | login.go:547-591 | memo, gate and device token go; the jar is touched only if it held a session cookie |
| Sessions.Client.DeviceLogin | device_auth.go:97-136 | nothing changes without a token; with one, everything held before is gone and it alone is held |
| Sessions.Client.AdoptCredentials | oidc.go:612-659 | the gate and the device token go, the token is held, the memo stays; of the four grants only the backchannel one refuses a closed client |
| Sessions.Client.Decorate | client.go:776-921 | the Authorization header and the session cookie a request leaves with, and the acting tenant it names |
| Sessions.Client.CloseSession | client.go:608-617 | the session is closed and its memo empty |
| InFlightChecks.HitWasAnswered | authz.go:176-200 | however asking, sending, answering, clearing and replacing interleave, a hit was the server's answer to a check of that key, younger than the ttl and with no clear since; it was given to another credential than the one now held exactly when a replacement fell between its request and the hit |
| InFlightChecks.CredentialChangesWhenReplaced | login.go:335-380 | the credential a request was sent with is the one now held exactly when none replaced it since |
| InFlightChecks.ClearingLastLeavesWaitingRequests | authz.go:176-200 | if every replacement has been followed by a clear, a hit is stale exactly when a replacement fell while its request was waiting |
| InFlightChecks.WhichCallsClearLast | oidc.go:900-909 | of the calls that change the credential, an SSO completion that finds no device token held is the only one that replaces it and leaves every replacement followed by a clear |
| InFlightChecks.LateAnswerOutlivesTheChange | login.go:335-367 | a run: a login, or any other change of two moments, falls within a check, and the old credential's answer is served to the new one |
| InFlightChecks.EarlyAnswerOutlivesTheChange | oidc.go:900-909 | a run: a check falls within a change that clears first, such as a login or an SSO completion over a device token, between its clear and its new credential, and does the same |
| InFlightChecks.MemoFollowsTheEvents | authz.go:176-200 | the memo under interleaved checks is the memo of the operations they made |
| InFlightChecks.OnlyMissesGoOn | authz.go:176-184 | a check goes on to ask the server if and only if the memo did not answer it |
| InFlightChecks.WaitsForItsAnswer | authz.go:184-200 | a request waits from its sending, by a check that missed, to its answer |
| Joined.SplitJwt | login.go:271-282 | the parts rejoin to the token, hold no dot, and are one more than its dots |
| Joined.SplitThenJoin | login.go:271-282 | joining what was split returns the string |
| Joined.JoinThenSplit | login.go:271-282 | splitting a join of separator-free parts returns them |
| Joined.JoinIsInjective | decision_memo.go:75-81 | separator-free parts are told apart by their join |
| Pages.CollectPages | management_page.go:114-137 | the walk goes on after exactly the pages that hold something and end below their Total, with one limit and one search term, and ends within one request more than there are items once the list has settled; over a fixed list it returns a prefix of what remains, all of it if no Total is too small |
| Pages.PageAdds | management_page.go:126-130 | one page keeps what was collected a beginning of the list, and ends the list if it was last and its Total not too small |
| Pages.NormalizeSearchTrims | management_page.go:107 | trimming takes off blanks at the beginning and at the end, and no more |
| Pages.BlanksAreWhiteSpace | management_page.go:107 | a blank is one of the code points of Unicode's White_Space property |
| Pages.BlankTermIsNoSearch | management_page.go:103-107 | a term searches for nothing exactly when it is all blanks |
| SsfStreams.ToInputWith | management_checks.go:175-219 | the step-by-step form gives the body the changes stand for over the read |
| SsfStreams.CutEvents | management_checks.go:202-213 | the filter loop is the cut |
| SsfStreams.NoChangesIsToInput | management_checks.go:112-114 | changing nothing re-states the stream |
| SsfStreams.CutIsAnOrderedFilter | management_checks.go:165-169 | the cut keeps exactly the events the ceiling holds, in their order |
| SsfStreams.CutFitsTheCeiling | management_checks.go:165-169 | after the cut nothing outside the ceiling is asked for, and a list within it is not cut |
| SsfStreams.ReplaceChangesOnlyWhatIsNamed | management_checks.go:159-173 | for all changes, with nobody else writing, the update lands exactly when the events asked for fit the ceiling and a stated version is the stored one, and then only what the changes name is different, apart from the cut |
| SsfStreams.HeaderStaysUnlessStated | management_checks.go:124-130 | the stored authorization header stays unless the changes state one or that it be cleared |
| SsfStreams.ReplaceMeetsTheVersionItNames | management_checks.go:144-148 | over somebody else's write it lands exactly when the version is cleared, or none was read, or the one stated is the one now stored |

## Left out

- The non-network namespaces of `Plan` and `Apply` (`computeSteps`, the rebind and restore of role bindings, created service accounts): a manifest here holds a network section alone when it is planned or applied; validation and the builder cover the other sections.
- Server rules beyond versions, natural keys, the cap, idle timeouts and the clamp (permissions, VLAN and rank rules, stranded profiles, limits): any of them is a refusal a tape may hold.
- NetworkApply.NetworkApi.ListAll: asks that the others stop writing at some read, because a list that grows with every page keeps the source's walk going for ever, and that a page holds something while anything remains.
- NetworkConvergence.ApplyThenPlan: speaks of quiet runs, because a plan made while others write can differ for their sake.
- ManifestValidation.ValidateManifest: does not state in which order problems are listed, how often one is repeated, or their wording; of several cycles one key is named.
- ManifestBuilder.ReplayRebuilds: asks for distinct keys, because a refining call cannot reach a second declaration of a key, and for no network section, because the builder has no call for one.
- Pages.CollectPages: asks for a server whose list settles, and which then echoes the offset and sends something while anything remains; a server that does not echo it can keep the walk going for ever.
- Sessions.Client.SignIn: one method for the six sign-ins, whose session updates are the same; a call that is refused before it changes anything is no call.
- Sessions.Client.ReceiveAnswer: a cookie is its session's whatever its path or domain, and its expiry is a call of its own that empties the jar.
- NetworkCompletion.ServedApplyCompletes: of the server's own rules knows the versions, the natural keys, the cap and the idle timeout; a refusal for any other is not a served write.
- Sessions.MemoizedAnswerWasServed: needs clean fields, because dirty ones collide, and treats a call as one step; `InFlightChecks` takes checks and credential changes apart.
- InFlightChecks.HitWasAnswered: keys are taken as they are, so what it says of a key holds of a check for clean fields; a replacement is one moment.
- SsfStreams.ReplaceChangesOnlyWhatIsNamed: lets the server refuse only a version and events outside the ceiling.
- SsfStreams.HeaderStaysUnlessStated: leaves out changes that state a header and clear it, which the server refuses, and an endpoint moved to another origin, for which it asks for the header again.
- The retry loop, the refresh guard, cookies other than the session cookie, CSRF tokens, redirects, host rules and JSON: a call is a step of the server, and what it answered is a parameter.
- Summaries, error classes and message texts, time stamps, authors and tenant ids of network rows: they decide nothing that is modelled.
- 64-bit widths of versions and timeouts: integers are unbounded, so a version never wraps.
- A UUID is a number, its nil value zero, and an acting tenant its text; how a UUID is written is not modelled.
- Clocks are parameters: the memo's properties hold for any times, its freshness for times no later than now.
- Generated namespace wrappers and data records other than the network and stream ones: one request each.
