# Verified model of the deployment guard and four neighbouring cores

The guard in `scripts/deploy_change_guard.py` decides whether an ECS deployment may run without
a human: it reads a CloudFormation change set, the live template and the proposed template, and
answers deploy, no-op or refusal. Its documentation claims that an accepted plan differs from the
live stack only by the web and the worker image tag. Most of this project models that guard and
proves the claim, says exactly when an accepted plan keeps it, gives an accepted pair of
templates that breaks it when keys are ambiguous, and carries it over every history of
submissions.

The other modules model a stateful allocator (Tag primary keys and the guard that keeps them
above frozen historical ids), the multi-part upload protocol, the S3 key builders with the
recogniser of snapshot keys, and the redacting summary and version parser of the SDK preflight.

## How the modules fit together

| module | what it holds |
|---|---|
| `Text`, `Decimal`, `Maximum` | strings as Python compares and sorts them, decimal printing, maxima |
| `Json` | parsed JSON with dict insertion order; `SameTree` is equality up to that order with bool, int and float kept apart |
| `TreeDiff`, `DiffTheorems` | the recursive diff with rendered paths, the same diff with structured paths, and what a diff is worth as a patch |
| `Strings` | the list of string leaves, its order-free multiset, conservation under a diff |
| `ImageTags` | the image URI grammar and "only the tag changed" |
| `DiffRules` | each kind of difference and the order of the report, written out |
| `ImageRules` | the image grammars and tests in the words of their patterns |
| `Roles`, `RoleRules` | discovery of the four reviewed resources; the same with the CDK paths and types written out |
| `Attribution` | from rendered path back to role, and when that is right |
| `ChangeSet`, `ChangeSetTheorems` | page joining, no-op status, the checks on one resource change |
| `ReviewRules` | the review of one resource change as a table of fields and the values they may hold |
| `PageRules` | when pages may be joined, in terms of their fields |
| `Guard` | the decision as a condition, and the methods that compute it |
| `Verdicts` | the no-op status and the three verdicts in terms of the texts and fields of the plan |
| `FieldLaws`, `PlanLaws` | one field of one change decides: what any other value in it does to the change and to the plan |
| `GuardTheorems`, `SoundnessExact`, `DeployExact` | soundness of a deploy, when exactly it holds, and its converse |
| `OrderTheorems`, `DeploymentRuns` | order independence, whole histories |
| `Scenarios`, `SampleTemplates` | the image-update change set; templates of the reviewed shape and what the diff reports of them |
| `Plans`, `LiveCounts` | concrete plans: an ordinary one, one refused for its dotted id, one that moves other text of the tasks, one that breaks the claim under ambiguous keys, and the live references of the last |
| `TagSequence`, `TagRules` | the allocator, on the PostgreSQL and the SQLite kind of sequence; its outcomes written out |
| `Upload`, `UploadHistory` | the upload state machine; the effect of one request written out, and what a history must have seen |
| `S3Keys` | builders and recogniser |
| `Summary`, `Version` | the redacting summary and the version parser |

A raise of the guard is one verdict, `Reject`. What the standard library decides and the guard
does not define is a parameter: `json.loads` and the Unicode digits of `\d` (`Python`),
`str.lower`, and `str.isdigit` with the value `int` gives a digit.

Where the source loops and fills a list or a dict, or updates a record, the model has a method or
a class whose contract equates the result, or the new state, with a specification function or a
condition; the theorems are about that function. The modules named `…Rules`, `Verdicts` and
`UploadHistory` state the same conditions a second time without those functions, from the texts,
field names and numbers themselves, and prove both forms equivalent.

## Where code and documentation disagree

- The docstring of the guard promises that accepted templates differ only by the image tags.
  A top-level template key such as `Resources.W` is written down exactly like a place inside the
  resource `W`, and then an accepted plan can leave the web task alone and move another string
  (`Plans.ImpostorIsAccepted`). An accepted plan keeps the promise exactly when both templates
  agree under every confusable key, that is an empty root key, a root key that starts with
  `Resources.`, and a dotted logical id (`SoundnessExact.DeploySoundIff`). Attribution is right
  for all places exactly when the keys are unambiguous (`Attribution.AttributionExact`), and then
  the promise always holds (`GuardTheorems.DeploySound`).
- The docstring speaks of the image of the task definitions. The guard asks that one string in each
  task is an image reference whose tag moves, and not where in the task it stands: in
  `Plans.ElsewhereIsAccepted` both container images stay and an environment variable moves. "Image
  tag" means the tag of such a string in everything below.
- The guard is meant to let an image update through. Of the plans that move exactly the two image
  tags, ask for a tag other than `dev` and come with an allowed change set, it refuses those with a
  dotted task id and no others (`DeployExact.PlanAcceptedIff`); `Plans.DottedIsRefused` is one.
- A deploy is meant to be followed by a no-op. Under confusable keys a task can gain no live
  reference (`LiveCounts.ImpostorAddsNoLive`); each task gains exactly one if and only if nothing
  changes under a confusable key (`DeployExact.DeployAddsOneLiveEachIff`).
- The snapshot key recogniser is documented to accept the exact key pattern only. `\d` also matches
  decimal digits outside ASCII, so it accepts keys that no builder makes
  (`S3Keys.WideDigitKeyIsNotBuilt`); of ASCII texts it accepts exactly the built keys
  (`S3Keys.RecognisedIsBuiltIff`).
- The part endpoints call a failed upload terminal. It is final as long as they serve the document;
  a document of one part leaves them at finalize, and the single-file endpoint can then revive it
  (`Upload.FailureIsNotFinal`, `Upload.FailedIsFinalIff`).
- Finalize saves the expected count of an incremental draft before its last checks. If it stops
  there on a draft of one part, nothing can complete that upload any more
  (`Upload.InterruptedFinalizeRecoversIff`, and the run `Upload.OnePartIsStranded`).
- The allocator guard re-raises, so a wrapped sequence reset can end before the sequence moved; the
  key generator is past the historical ids after it exactly when the guard's insert, and on
  PostgreSQL its reset statement, went through (`TagSequence.WrappedResetSafeIff`). In
  `TagSequence.StuckResetReusesHistory` the next automatic key is a historical id.

## Model

| member | source | states |
|---|---|---|
| TreeDiff.RenderedDiff | scripts/deploy_change_guard.py:715-739 | the program's diff, with its dotted and bracketed text paths, is the diff with structured paths written down entry by entry |
| TreeDiff.DiffIsExact | scripts/deploy_change_guard.py:715-739 | an entry is reported if and only if the simultaneous walk of both trees reaches its path and the two nodes there differ locally in exactly that way |
| TreeDiff.RootDiff | scripts/deploy_change_guard.py:715-739 | the same characterisation for a comparison of whole trees |
| TreeDiff.BranchesAreDown | scripts/deploy_change_guard.py:726-735 | the children the diff visits are exactly the pairs both trees have one step down, each visited once |
| DiffTheorems.NoDifferencesIffSameTree | scripts/deploy_change_guard.py:715-739 | the diff is empty if and only if the trees are equal up to dict order, for the program's diff and the structured one |
| DiffTheorems.DiffIsPatch | scripts/deploy_change_guard.py:715-739 | if all entries are value changes, replacing the values at their paths in the old tree gives the new tree |
| DiffTheorems.DiffPathsDistinct | scripts/deploy_change_guard.py:715-739 | no two entries have the same structured path |
| DiffTheorems.DiffSwaps | scripts/deploy_change_guard.py:715-739 | diffing in the other direction swaps old and new in every entry and nothing else |
| DiffTheorems.DiffForgetsOrder | scripts/deploy_change_guard.py:726-735 | reordering dict keys changes neither paths nor kinds nor the order of the entries |
| DiffTheorems.DiffRestricts | scripts/deploy_change_guard.py:726-735 | the entries below a place are the diff of the two subtrees there |
| DiffRules.LocalWritten | scripts/deploy_change_guard.py:715-739 | for any pair of nodes: nothing is reported if and only if both are the same scalar or containers of the same shape; otherwise the entry is of the kind, and holds the two sides, that the nodes call for, with removed and added keys each listed once in code-point order |
| DiffRules.LeqIsLexicographic | scripts/deploy_change_guard.py:720-728 | the order of keys is the lexicographic order of code points |
| DiffRules.PlacesWritten | scripts/deploy_change_guard.py:715-739 | the whole tree is written `$`, any other place as its first key followed by `.key` and `[index]` |
| DiffRules.DiffInOrder | scripts/deploy_change_guard.py:715-739 | every place is reported before the places below it, children of a dict in code-point order, items of a list by position |
| Strings.StringsAreTheBag | scripts/deploy_change_guard.py:374-387 | the collected list of strings is, up to order, the multiset of all string leaves, whatever the dict orders |
| Strings.DiffConservesStrings | scripts/deploy_change_guard.py:374-387 | under a value-only diff, new strings plus strings taken out equal old strings plus strings put in, with multiplicity |
| Strings.SameTreeSameBag | scripts/deploy_change_guard.py:374-387 | equal trees have the same strings with multiplicity |
| ImageTags.ParseImageUriIsGrammar | scripts/deploy_change_guard.py:304-312 | the URI is accepted with a tag if and only if it splits into account, region, the expected repository and that tag as IMAGE_URI_RE describes |
| ImageTags.ImageChangeIff | scripts/deploy_change_guard.py:754-771 | the test accepts exactly the pairs `P + oldtag`, `P + tag` with `P` ending in `/{repo}:`, a grammatical old tag and a non-empty tag; `P` and the old tag are unique |
| ImageTags.ReferenceIsUnique | scripts/deploy_change_guard.py:754-771 | a string is an image reference with a grammatical tag in at most one way |
| ImageTags.SameImageSymmetric | scripts/deploy_change_guard.py:754-771 | the relation "same image up to the tag" is symmetric |
| ImageTags.SameImageTransitive | scripts/deploy_change_guard.py:754-771 | the relation "same image up to the tag" is transitive |
| ImageTags.LiveIffReference | scripts/deploy_change_guard.py:362-366 | the suffix test of the live-image check accepts exactly the references with the expected repository and tag |
| ImageTags.ExpectedChangeMakesLive | scripts/deploy_change_guard.py:351-371 | after an expected change the string is a live reference, and it was one before only if nothing changed |
| ImageRules.UriWritten | scripts/deploy_change_guard.py:33-37 | the URI is accepted with a tag if and only if it is twelve digits, `.dkr.ecr.`, a region, `.amazonaws.com/`, the expected repository, `:` and the tag, each of the characters the pattern lists |
| ImageRules.LiveWritten | scripts/deploy_change_guard.py:362-366 | a string is a live reference if and only if it ends in `/{repo}:{tag}` |
| ImageRules.ChangeWritten | scripts/deploy_change_guard.py:754-771 | a pair of values is an expected image change if and only if both are one text, then `/{repo}:`, then a grammatical old tag in the one and the expected tag in the other |
| Roles.FindRoles | scripts/deploy_change_guard.py:410-443 | the discovery loop succeeds exactly when all resources are objects and each role is claimed by exactly one resource of the right type, and returns those claims |
| Roles.RolePathsDistinct | scripts/deploy_change_guard.py:400-407 | for every legal stack name the four CDK paths are pairwise distinct and the table maps each back to its role |
| Roles.RolesAreABijection | scripts/deploy_change_guard.py:197-204 | discovered roles are a bijection with the four expected ones and `logical_by_role` is its inverse on both sides |
| Roles.RolesIgnoreOrder | scripts/deploy_change_guard.py:410-443 | discovery does not depend on the order of any dict's keys |
| RoleRules.RolesWritten | scripts/deploy_change_guard.py:390-443 | in the stack `{p}-app-v2` discovery finds certain roles if and only if each resource with the path `{p}-app-v2/{p}-web-td/Resource`, `-worker-td/Resource`, `-web-svc/Service` or `-worker-svc/Service` holds that role, has its type, and each role is held once |
| RoleRules.ClaimIff | scripts/deploy_change_guard.py:400-426 | a resource claims a role if and only if its `aws:cdk:path` is that role's path, written out |
| RoleRules.OtherStacksRefused | scripts/deploy_change_guard.py:390-397 | a stack name that is not something before `-app-v2` finds nothing |
| Attribution.AttributionExact | scripts/deploy_change_guard.py:742-751 | rendering a path and splitting the text finds the role the structured path goes into, for every possible place, if and only if the keys are unambiguous |
| Attribution.UnambiguousAttributes | scripts/deploy_change_guard.py:742-751 | with unambiguous keys a rendered path is attributed to a role if and only if it goes through `Resources` and that role's logical id |
| Attribution.RootKeyMisattributed | scripts/deploy_change_guard.py:727-751 | a root key that reads like a path into a role's resource yields a misattributed place |
| Attribution.DottedIdMisattributed | scripts/deploy_change_guard.py:742-751 | a dotted logical id that holds a role or starts with one yields a misattributed place |
| Attribution.EmptyKeyMisattributed | scripts/deploy_change_guard.py:727-751 | an empty root key yields a misattributed place |
| ChangeSet.MergeChangeSetPages | scripts/deploy_change_guard.py:105-142 | pages are joined if and only if all are objects, agree on the four headers, have list changes, a token on all but the last and none on the last; the result is the first page without its token, with all change lists in order |
| ChangeSetTheorems.MergeUndoesPaginate | scripts/deploy_change_guard.py:105-142 | cutting a change set into pages anywhere and joining them gives the whole change set back |
| ChangeSetTheorems.ChangedRoleIgnoresOrder | scripts/deploy_change_guard.py:446-712 | whether a resource change is allowed, and for which role, does not depend on key order |
| ChangeSetTheorems.ChangedRoleIgnoresDetailOrder | scripts/deploy_change_guard.py:535-620 | permuting the details of a resource change changes nothing |
| PageRules.PyEqIsNormal | scripts/deploy_change_guard.py:117-121 | Python calls two JSON values equal if and only if they are the same but for dict order and the type of numbers |
| PageRules.MergesIff | scripts/deploy_change_guard.py:105-142 | pages are joined if and only if there is one, each is an object whose `Changes` is a list or missing, all agree on `Status`, `ExecutionStatus`, `StatusReason` and `ChangeSetName`, every page but the last has a non-empty text as `NextToken`, and that of the last is falsy |
| PageRules.FrontPartRefused | scripts/tests/test_deploy_change_guard.py:598-604 | a paging of a change set that is cut short, anywhere, is never joined |
| PageRules.MergedDocument | scripts/deploy_change_guard.py:139-142 | the joined document is well formed, has no token, lists the changes of all pages and has the other fields of the first page |
| ReviewRules.ReviewIff | scripts/deploy_change_guard.py:446-712 | a resource change is allowed for a role if and only if every field of the change, of its resource change, of each detail and of each target holds a value that the written table lists for that role, no dict has another field, it names a physical resource and the logical id of the role, and a task's details state nothing but the tag change |
| ReviewRules.ValuesOfTarget | scripts/deploy_change_guard.py:623-675 | the before and after values of a task's detail are allowed if and only if both are missing, or they are an image change under an image path, or without path two JSON texts whose trees differ at one place by one image tag |
| ReviewRules.OneTagMovedIsPatch | scripts/deploy_change_guard.py:656-675 | two such trees are one tree but for that tag |
| FieldLaws.FieldLaw | scripts/deploy_change_guard.py:446-712 | put any value into any field of any dict of an allowed change: it stays allowed if and only if the field is a known one and its rule, if it has one, lists the value |
| FieldLaws.ValuesLaw | scripts/deploy_change_guard.py:535-568 | put any path, before value and after value into a detail of an allowed task change: it stays allowed if and only if they state nothing but the tag change |
| FieldLaws.IdLaw | scripts/deploy_change_guard.py:480-510 | put any value into the two ids of an allowed change: it stays allowed for its role if and only if the physical id is a non-empty text and the logical id is the one that holds the role |
| Guard.RequireLiveImage | scripts/deploy_change_guard.py:351-371 | the loop accepts exactly when both task resources hold exactly one live reference |
| Guard.CheckChanges | scripts/deploy_change_guard.py:206-226 | the loop with `seen_roles` accepts exactly four allowed changes that cover all four roles |
| Guard.CheckDifferences | scripts/deploy_change_guard.py:228-250 | the loop with `image_diffs_by_role` accepts exactly when every difference is an image difference of a task and each task has one |
| Guard.ReviewDeploy | scripts/deploy_change_guard.py:191-251 | the deploy branch accepts exactly when the change set is executable, both templates show the same roles, and changes and differences pass |
| Guard.ValidateAppChange | scripts/deploy_change_guard.py:154-251 | the program's control flow computes the decision stated as one condition, no-op branch and early refusals included |
| Verdicts.NoopIff | scripts/deploy_change_guard.py:315-336 | a change set is a no-op if and only if its `Status` is `FAILED`, its `StatusReason` starts with one of the two written texts and `Changes` is missing, None or empty; it goes on to the review if and only if it is not `FAILED` and its reason is a text or falsy |
| Verdicts.EmptyUpdate | scripts/tests/test_deploy_change_guard.py:205-215 | the change set of an update without changes is a no-op, and with another reason or with a change in its list it is refused |
| Verdicts.DifferencesIff | scripts/deploy_change_guard.py:228-250 | the difference check accepts exactly two value changes, each by the expected tag, one written `Resources.{web task}`, the other `Resources.{worker task}`, or below by a key |
| Verdicts.DeployWritten | scripts/deploy_change_guard.py:154-251 | for all inputs: the verdict is deploy if and only if the plan reads like this: the URI has a tag other than `dev`, no continuation token, `CREATE_COMPLETE` and `AVAILABLE`, the written roles in both templates, four changes that the table allows, one per role, and exactly the two images moved |
| Verdicts.NoopWritten | scripts/deploy_change_guard.py:154-189 | for all inputs: the verdict is no-op if and only if the tag is not `dev`, there is no token, the change set is a no-op as above, the proposed template, if given, is the live one up to dict order, and each task holds exactly one text that ends in `/{repo}:{tag}` |
| Verdicts.FailedIsRefused | scripts/tests/test_deploy_change_guard.py:485-490 | a failed change set with any other reason, or with a non-empty list of changes, is refused whatever else the plan says |
| PlanLaws.PlanFieldLaw | scripts/deploy_change_guard.py:206-226 | put any value into any field of any change of an accepted plan: the plan is still accepted if and only if the field is a known one and its rule, if it has one, lists the value; otherwise it is refused |
| PlanLaws.PlanValuesLaw | scripts/deploy_change_guard.py:535-568 | put any path and values into a task's detail of an accepted plan: the plan is still accepted if and only if they state nothing but the tag change |
| GuardTheorems.EachRoleChangedOnce | scripts/deploy_change_guard.py:206-226 | in an accepted change set the changed logical ids are pairwise distinct and correspond one to one with the four roles |
| GuardTheorems.ServicesFollowTheirTasks | scripts/deploy_change_guard.py:571-620 | in an accepted change set each service is named by exactly one change, which lists at least one detail, and every detail is a TaskDefinition reference caused by that service's own task |
| GuardTheorems.DeploySound | scripts/deploy_change_guard.py:197-251 | with unambiguous keys, an accepted proposal is the live template with exactly two strings replaced, one in each task definition, each from `P + oldtag` to `P + tag` |
| SoundnessExact.BookedRight | scripts/deploy_change_guard.py:742-751 | a difference outside confusable keys is booked on the role it belongs to |
| SoundnessExact.TaskIdUndotted | scripts/deploy_change_guard.py:228-250 | an accepted plan that changes exactly the two task images has no dotted task id |
| SoundnessExact.DeploySoundIff | scripts/deploy_change_guard.py:197-251 | for every accepted plan: it changes exactly the two image tags if and only if both templates agree under every confusable key |
| SoundnessExact.UnambiguousIsQuiet | scripts/deploy_change_guard.py:197-251 | with unambiguous keys no accepted plan changes anything under a confusable key |
| SoundnessExact.DeployLeavesTheRest | scripts/deploy_change_guard.py:11-15 | after an accepted deploy without confusable changes every other resource, both services included, and every other top-level section is the same tree |
| DeployExact.TwoTagsPassIff | scripts/deploy_change_guard.py:228-250 | templates that differ by exactly the two image tags pass the difference check if and only if neither task's logical id is dotted |
| DeployExact.PlanAcceptedIff | scripts/deploy_change_guard.py:154-251 | of the image-update plans (a tag other than `dev`, the allowed change set, the same roles, exactly the two image tags moved) the guard accepts exactly those without a dotted task id |
| DeployExact.DeployIff | scripts/deploy_change_guard.py:154-251 | for all inputs: the guard accepts and nothing changes under a confusable key, if and only if the plan is an image-update plan and no task id is dotted |
| DeployExact.UnambiguousDeployIff | scripts/deploy_change_guard.py:154-251 | with unambiguous keys the guard accepts exactly the image-update plans |
| DeployExact.DeployAddsOneLiveEachIff | scripts/deploy_change_guard.py:351-371 | an accepted deploy raises the number of live references in each task resource by exactly one if and only if it changes nothing under a confusable key; otherwise the number of some task stays what it was |
| DeployExact.ReviewAgainIff | scripts/deploy_change_guard.py:175-189 | after any accepted deploy, reviewing the deployed template again with an empty change set answers no-op if and only if each task then holds exactly one live reference |
| DeployExact.DeployThenNoop | scripts/deploy_change_guard.py:175-189 | after an accepted deploy that changes nothing under a confusable key, that second review answers no-op if and only if neither task held a live reference before the deploy |
| DeployExact.FreshDeployThenNoopIff | scripts/deploy_change_guard.py:175-189 | after an accepted deploy before which neither task held a live reference, the second review answers no-op if and only if the deploy changed nothing under a confusable key |
| OrderTheorems.VerdictIgnoresKeyOrder | scripts/deploy_change_guard.py:154-251 | reordering the keys of any dict in the change set or the templates does not change the decision |
| OrderTheorems.VerdictIgnoresChangeOrder | scripts/deploy_change_guard.py:206-226 | permuting `Changes` does not change the decision |
| OrderTheorems.VerdictIgnoresDetailOrder | scripts/deploy_change_guard.py:535-620 | permuting the `Details` of every change does not change the decision |
| OrderTheorems.PagingIsInvisible | scripts/deploy_change_guard.py:105-142 | two accepted pagings with the same status headers and the same changes overall lead to the same decision |
| DeploymentRuns.AcceptedStepIff | scripts/deploy_change_guard.py:197-251 | an accepted deploy moves nothing but image tags inside the two task definitions if and only if it changes nothing under a confusable key |
| DeploymentRuns.MovedTransitive | scripts/deploy_change_guard.py:754-771 | the per-place relation "nothing moved but image tags of these resources" composes |
| DeploymentRuns.RolesStay | scripts/deploy_change_guard.py:197-203 | over any history the same resources hold the roles |
| DeploymentRuns.RunSafeIff | scripts/deploy_change_guard.py:11-15 | over any history, every step moves nothing but image tags of the two tasks if and only if no accepted step changes anything under a confusable key |
| DeploymentRuns.RunSafety | scripts/deploy_change_guard.py:11-15 | over any such history the live template keeps its shape, its roles and every scalar, except image tags in the two task definitions, which keep their prefix up to `/{repo}:` and never become `dev` |
| DeploymentRuns.RunKeepsTheRest | scripts/deploy_change_guard.py:11-15 | over any such history every other resource and every other top-level section stays the same tree |
| DeploymentRuns.UnambiguousRunsAreQuiet | scripts/deploy_change_guard.py:11-15 | whatever is submitted to a template with unambiguous keys, no accepted step changes anything under a confusable key, and the keys stay unambiguous |
| Scenarios.ImageUpdateOk | scripts/deploy_change_guard.py:513-620 | the change set of an image update, both tasks modified directly at the path of their container image and both services by reference, passes every change-set check, with Static as with Dynamic evaluation |
| Scenarios.ImageUpdateDeploysIff | scripts/tests/test_deploy_change_guard.py:229-235 | for templates that differ by the two image tags, that change set is accepted if and only if no task id is dotted |
| PlanLaws.ImageUpdateFieldLaw | scripts/deploy_change_guard.py:446-712 | the same for each field of each of the four changes of the image update |
| PlanLaws.ServiceReplacementLaw | scripts/tests/test_deploy_change_guard.py:430-435 | the image update with any other value as the web service's `Replacement` deploys only with the text `False` |
| SampleTemplates.TemplateReports | scripts/deploy_change_guard.py:715-739 | for templates of the reviewed shape, with an image and an environment value in each task and one more top-level string, the diff reports exactly the strings that moved, each at its place |
| Plans.OrdinaryIsAcceptedIff | scripts/deploy_change_guard.py:154-251 | for every legal stack name, repository, pair of tags and web task id, moving both container images is an image-update plan, accepted if and only if the id has no dot |
| Plans.OrdinaryIsAccepted | scripts/tests/test_deploy_change_guard.py:229-235 | an ordinary plan with unambiguous keys that the guard accepts |
| Plans.DottedIsRefused | scripts/deploy_change_guard.py:742-751 | the same plan with web task id `W.1`, which the guard refuses |
| Plans.ElsewhereIsAccepted | scripts/deploy_change_guard.py:228-251 | an accepted plan with unambiguous keys in which both container images stay and an environment value moves in each task |
| Plans.ImpostorIsAccepted | scripts/deploy_change_guard.py:228-251 | the guard accepts a plan that leaves the web task definition unchanged and moves an unrelated string instead; its keys are ambiguous |
| LiveCounts.LiveTask | scripts/deploy_change_guard.py:361-366 | of all strings of such a task definition only the image and the environment value can be live references; type, CDK path and registry parts never are |
| LiveCounts.ImpostorAddsNoLive | scripts/deploy_change_guard.py:175-189 | that plan with a web task already on the requested tag: accepted, the web task's count stays one, and the second review is a no-op although a live reference was there before |
| TagSequence.FirstFree | app/backend/documents/tag_pk_sequence_support.py:74-76 | the sentinel loop ends at the first key from the start on that is not occupied |
| TagSequence.NothingAboveMax | app/backend/documents/tag_pk_sequence_support.py:71-76 | the sentinel lies above every row and every frozen id, so it never replaces a row |
| TagSequence.TagTable.EnsurePastHistoricalIds | app/backend/documents/tag_pk_sequence_support.py:44-98 | insert, sequence reset and cleanup in `finally` have the specified effect and outcome for every combination of failing calls; a cleanup failure never hides an earlier exception |
| TagSequence.GuardKeepsRows | app/backend/documents/tag_pk_sequence_support.py:81-98 | on every exit the rows are those before the call, unless the sentinel was created and its cleanup failed, and then it is the only extra row |
| TagSequence.AdvancedIsSafe | app/backend/documents/tag_pk_sequence_support.py:49-62 | once the guard got past the sequence step, the next key exceeds the sentinel, every frozen id and every row, on both back ends |
| TagSequence.TransactionTestCase.Install | app/backend/conftest.py:51-72 | installing wraps the reset once and is a no-op on a marked reset |
| TagSequence.TransactionTestCase.ResetSequences | app/backend/conftest.py:57-69 | the wrapped reset runs Django's own, then the guard on the Tag database and nothing on others |
| TagSequence.WrappedResetSafeIff | app/backend/conftest.py:57-69 | after a wrapped reset the key generator is past the frozen ids if and only if the guard's insert, and on PostgreSQL its reset, went through |
| TagSequence.StuckResetReusesHistory | app/backend/conftest.py:57-69 | a wrapped reset whose guard fails at its insert: the next automatic insert is given a historical id, on both back ends |
| TagSequence.StepKeepsSafe | app/backend/documents/tag_pk_sequence_support.py:49-62 | every insert, delete, guard call, failing or not, and advanced reset keeps the generator past the frozen ids |
| TagSequence.RunSafeIff | app/backend/documents/tag_pk_sequence_support.py:49-62 | over every run from a safe state the key generator is past the frozen ids at every moment if and only if the guard of every reset of the Tag database got past its sequence step |
| TagSequence.AutoKeysAvoidHistory | app/backend/documents/tag_pk_sequence_support.py:49-62 | over every such run every automatically assigned key exceeds all frozen ids and was free, on both back ends |
| TagSequence.AutoKeysNeverCollide | app/backend/documents/tag_pk_sequence_support.py:49-62 | over every such run without explicit inserts and doubly failing guards, an automatic insert fails only for a taken name, never for its key |
| TagRules.GuardWritten | app/backend/documents/tag_pk_sequence_support.py:44-98 | for every table and every combination of failing calls: which exception ends the guard, the insert's first, the reset's next, the cleanup's last, and the rows and the counter it leaves, for a sentinel one past all frozen ids and rows |
| TagRules.InsertWritten | app/backend/documents/tag_pk_sequence_support.py:49-62 | an automatic insert is refused only for a taken key or name; PostgreSQL uses the key up either way, SQLite only with the row |
| TagRules.ExplicitWritten | app/backend/documents/tag_pk_sequence_support.py:49-62 | an insert with an explicit key is refused only for a taken key or name; PostgreSQL's sequence does not notice it, SQLite's next key is past it |
| TagRules.ResetWritten | app/backend/documents/tag_pk_sequence_support.py:49-62 | the sequence reset continues after the last row on PostgreSQL, with 1 in an empty table, and does nothing on SQLite |
| TagRules.OriginalResetRewinds | app/backend/conftest.py:57-69 | the unwrapped reset rewinds: the next key is 1 on PostgreSQL, on SQLite the one after the last row; for another database nothing happens |
| S3Keys.BuiltKeyRecognised | app/backend/documents/s3.py:79-102 | every built snapshot key is recognised, unchanged by strip, with its three numbers as groups |
| S3Keys.RecognisedIsBuiltIff | app/backend/documents/s3.py:14-17 | after strip a key is the build of some positive triple if and only if it is recognised and its text is ASCII, and then of exactly one triple |
| S3Keys.SnapshotKeyInjective | app/backend/documents/s3.py:79-94 | different triples of ids have different keys |
| S3Keys.WideDigitKeyIsNotBuilt | app/backend/documents/s3.py:14-17 | a key with an Arabic-Indic digit is recognised and is the build of no triple |
| S3Keys.SourceFileKeyInjective | app/backend/documents/s3.py:38-44 | source-file keys are injective in document, order index and extension, for any extension text |
| S3Keys.OtherKeysRefused | app/backend/documents/s3.py:38-76 | no source-file, thumbnail or photo key is recognised as a snapshot key |
| S3Keys.KeysWritten | app/backend/documents/s3.py:38-94 | the text of every built key |
| S3Keys.StripWritten | app/backend/documents/s3.py:97-102 | stripping takes space characters from the ends only, and leaves none there |
| Upload.DocumentUpload.Incremental | app/backend/documents/views.py:1193-1211 | an incremental upload starts without parts and without an expected count |
| Upload.DocumentUpload.Batch | app/backend/documents/views.py:1282-1315 | a batch upload starts with one pending row per file under its own key |
| Upload.DocumentUpload.AddPart | app/backend/documents/views.py:1668-1736 | adding a part refuses, errs or appends a pending row at the next order index, as specified |
| Upload.DocumentUpload.PartCompleted | app/backend/documents/views.py:1740-1899 | completing a part marks that row, and a reported failure also fails the document; every early exit leaves the state alone |
| Upload.DocumentUpload.AllExpectedUploaded | app/backend/documents/services/source_files.py:174-198 | the loop answers whether a multi-image document has every row below its count uploaded |
| Upload.DocumentUpload.IncrementalReady | app/backend/documents/services/source_files.py:80-118 | the loop answers whether the rows run 0, 1, 2, … and are all uploaded with a key |
| Upload.DocumentUpload.Finalized | app/backend/documents/views.py:1903-2000 | finalize has the specified effect on every path, the early exits after the expected count is saved included |
| Upload.DocumentUpload.Completed | app/backend/documents/views.py:1478-1623 | the single-file endpoint has the specified effect on every path |
| Upload.StepKeepsInvariant | app/backend/documents/views.py:1668-2000 | every request keeps the invariant of documents started through these endpoints |
| Upload.UploadedMeansComplete | app/backend/documents/services/source_files.py:174-198 | over every run an uploaded document has a positive expected count and every part below it uploaded |
| Upload.KeysStayDistinct | app/backend/documents/views.py:1712-1728 | over every run no two rows of a document share an S3 key |
| Upload.UnuploadingFailsTheDocument | app/backend/documents/views.py:1878-1890 | the only request that takes a part out of the uploaded state is its own reported failure, and it fails the document |
| Upload.RepeatedFinalizeChangesNothing | app/backend/documents/views.py:1939-1986 | a successful finalize publishes the first part's file and touches no part; a document not uploaded yet is in PROCESSING afterwards, any other keeps its processing state; repeating it changes nothing |
| Upload.CanStillFinishIff | app/backend/documents/views.py:1668-2000 | some further requests complete the upload if and only if it has not failed under the part endpoints and has not left them without a file |
| Upload.FailedIsFinalIff | app/backend/documents/views.py:1762-1763 | a failed document stays failed whatever requests follow if and only if the part endpoints serve it or it has no file key |
| Upload.FailureIsNotFinal | app/backend/documents/views.py:1500-1590 | a concrete run of one part: finished, reported failed through the single-file endpoint, then uploaded again |
| Upload.InterruptedFinalizeRecoversIff | app/backend/documents/views.py:1939-1966 | after a finalize that stopped at the missing bucket the upload can still be completed if and only if the draft had two parts or more |
| Upload.OnePartIsStranded | app/backend/documents/views.py:1939-1966 | a concrete run of one part whose finalize stops at the missing bucket, after which no requests complete the upload |
| UploadHistory.StepWritten | app/backend/documents/views.py:1478-2000 | the whole effect of any request on any document, written out with its numbers: which row is added, confirmed or failed, when the count is fixed, when the document is published or fails, and that nothing else changes |
| UploadHistory.ReplyWritten | app/backend/documents/views.py:1478-2000 | exactly when a request is answered with success, with a server error, or with a refusal |
| UploadHistory.UploadingSeesTheFile | app/backend/documents/views.py:1837-1863 | a part becomes uploaded only by a request for that part, or for the single file, that passed the metadata check and found the bucket and the object |
| UploadHistory.UploadedPartsWereSeen | app/backend/documents/views.py:1837-1863 | over every history each uploaded part was found in S3 by some request, and stayed uploaded from then on |
| UploadHistory.PublishedFilesWereSeen | app/backend/documents/views.py:1478-2000 | over every history a published document has a positive count, a request that published it, and for every part below the count a request that found its file |
| Summary.SummaryWritten | scripts/dev/gemini_interactions_sdk_preflight.py:273-301 | what the summary of any value is: type only below the depth, type and length of an ordinary text, `[redacted]` under a hidden name, the first 40 keys, the first 20 items |
| Summary.NamesWritten | scripts/dev/gemini_interactions_sdk_preflight.py:201-203 | a name is hidden if and only if its lower case is one of the written names or contains `api_key` |
| Summary.SummaryRevealsExactly | scripts/dev/gemini_interactions_sdk_preflight.py:273-301 | two JSON values have equal summaries if and only if they agree on everything the summary is meant to show: redacted values, text of ordinary strings, content past the limits never matter, and everything else does |
| Summary.SummaryIsBounded | scripts/dev/gemini_interactions_sdk_preflight.py:273-301 | a summary has at most `Bound(depth)` nodes, however large the value |
| Summary.BoundClosedForm | scripts/dev/gemini_interactions_sdk_preflight.py:121-123 | that bound is `(79 * 40^(depth+1) - 1) / 39` |
| Version.LeadingDigits | scripts/dev/gemini_interactions_sdk_preflight.py:162-167 | the inner loop collects the longest front part made of digits |
| Version.ParseVersion | scripts/dev/gemini_interactions_sdk_preflight.py:159-177 | the loops compute the specified parse: at most three components, padded with zeros, none, or the ValueError of `int` |
| Version.VersionRoundTrip | scripts/dev/gemini_interactions_sdk_preflight.py:159-177 | parsing a printed `a.b.c` with any suffix that does not go on with a digit gives `(a, b, c)` |
| Version.OneNumber | scripts/dev/gemini_interactions_sdk_preflight.py:159-177 | a printed number, with nothing behind it that reads as another, is that major version with zeros for minor and patch |
| Version.TwoNumbers | scripts/dev/gemini_interactions_sdk_preflight.py:159-177 | two printed numbers likewise are major and minor with zero for the patch |
| Version.ParseOutcome | scripts/dev/gemini_interactions_sdk_preflight.py:159-177 | for every text: the ValueError of `int` occurs if and only if one of the first three tokens, each before it starting with a digit, has a refused digit at its front; and there is no version if and only if the text does not start with a digit |
| Version.VersionIffLeadingDigit | scripts/dev/gemini_interactions_sdk_preflight.py:159-177 | text without refused digits, ASCII text in particular, never raises and gives a version if and only if it starts with a digit |

## Left out

- Guard.ValidateAppChange: every raise is one Reject, so the model does not tell a GuardRejection from the TypeError of an unhashable PolicyAction or Evaluation or the AttributeError of a template that is no dict.
- TagSequence.AutoKeysAvoidHistory: assumes that the guard inside each reset of the Tag database got past its sequence step; `TagSequence.RunSafeIff` says that this is exactly what is needed.
- Summary.SummaryRevealsExactly: covers JSON values; the Enum and SDK-object branches are reflection and are not modelled, nor is the merging of keys that are no strings.
- Scenarios.ImageUpdateDeploysIff: the change set has one detail per change, without the optional before and after values.
- Plans.OrdinaryIsAcceptedIff: the sample templates leave out the family and container names, strings that do not move.
- NaN and the infinities (which `json.loads` makes of 1e999), the difference between 0.0 and -0.0, lone surrogates and Python's recursion limit.
- Version.ParseVersion: CPython's default limit of 4300 digits, above which `int` raises ValueError, is not modelled.
- Version.VersionRoundTrip, Version.VersionIffLeadingDigit, Version.ParseOutcome: hold for numbers within that limit.
- Reading files, parsing JSON text, command-line handling and the wording of error messages of the guard.
- `validate_dependency_change_set`: one call of the no-op test.
- The order in which the guard's checks fail: only the decision is modelled. Service and task details are checked by conditions instead of loops, since those loops keep no variable.
- The literal table of historical tag ids (any non-empty set), the validity check of the sentinel name, other models than Tag in `reset_pk_sequence`, and routing between databases beyond "this is the Tag database". Tag keys are natural numbers.
- MIME type to extension tables: the builders take the extension.
- Upload requests are atomic steps on one document. Separate saves inside one request and crashes between them, parallel requests, login and payload checks, mirrored MIME type and size, error texts, thumbnails and the worker's own state changes are not modelled; valid metadata, a bucket, the object in S3 and what enqueueing did are part of the request.
- Rows with invalid metadata met during an incremental finalize: they lead to the same state as any other refusal, but which answer is sent when another row is also pending is not modelled.
- Display-only pages of a document.
