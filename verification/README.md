# Verified model of the Kubernetes Deployment Orchestrator (kdo)

kdo installs charts that may depend on each other, keeps a record of every installed chart in the
cluster, and reports progress while it works. This project models the parts of it that carry state or
recursion, and proves what they are for. `dafny verify dfyconfig.toml` checks all of it.

## What is modelled

**Charts that use each other** (`Faults`, `References`, `Store`, `Counting`, `Charts`, `Ledgers`,
`Deletion`, `Installation`, `Sessions`, `Reversal`). Each installed chart has a config map; each chart that depends
on it leaves a `kdo-usedby-` annotation there. Applying a chart finds or installs its dependencies,
deleting one is refused while somebody uses it, and a recursive delete takes unused dependencies along.
The cluster is a class that holds the config maps; every API call and every opaque step (loading a
chart, its own objects, its secret) ends as a script says: done, failed without effect, lost (done, but
reported as failed), and after the last entry the process is dead. So a theorem about all scripts is a
theorem about all failures and about a crash before any call. A ledger notes which calls of a run ended
well, and whose own objects and secrets are in the cluster. Within a run the order in which
dependencies and sub-charts are visited is arbitrary. The main results:

* In every history of runs, each step from one state to the next is what its run may do, and in every
  state the objects of a recorded chart are in the cluster and all its dependencies are recorded, each naming
  it as a user (`Sessions.Session`).
* Wherever a run stops, its calls were made in order: no record without objects, no objects without those of
  the sub-charts and without dependencies that were found, checked or installed, registered and given their
  properties; nothing is deleted whose references were not counted, own objects go after those of sub-charts,
  and references last. A success rests on all these calls having ended well (`Ledgers.AllApplied`,
  `Ledgers.NothingLeft`).
* A delete whose calls do not fail takes away exactly the least closed set around the chart, which does
  not depend on the order of iteration; with failures it never leaves that set, and nothing that is used
  from outside of it ever goes. Deleting ends within a number of calls that is known beforehand, on every
  graph, cyclic ones included.
* An apply whose calls do not fail records exactly the least set that was needed, installs each
  dependency at most once, and closes the recorded set under dependency. It comes to an end if and only
  if what the chart needs, sub-charts and dependencies that are not recorded, does not go round in
  circles, and then within a number of calls that is known beforehand. Whatever fails on the way, success
  is only ever reported if nothing goes round in circles, and then no reference of the chart is missing. A
  dependency that is recorded cuts a circle.
* Over any mix of adding, removing and re-applying, the users of a chart are those added and not removed
  since (`Counting.AddedAndNotRemoved`).
* A recursive delete right after an apply restores the old state if and only if the apply entered no
  recorded chart, every dependency that was already there had some user, and none of the charts just
  applied had left a reference on it before (`Reversal.ApplyThenDelete`). A dependency that somebody
  installed directly, without a user, is deleted along.

**Progress** (`ProgressTrees`, `Progress`, `ProgressRuns`, `ChartProgress`, `Kubectl`). Every sub-chart
gets a clone of its parent's client, whose callback writes into a slot of the parent; every node shows
an average rounded down to a multiple of five. The heap of nodes is proved to show a recursive function
of all local progress after every run, with a bound on the error against the exact average of the objects handled, a range, and at most
eighteen climbing notifications at the root. `ChartProgress` applies a whole tree of charts on such a heap: 100 is shown
if the apply succeeds, and unless a dependency is installed, what the caller hears goes up in steps of
five, comes to the rounded average of what was handled, and ends with 100 exactly if the apply succeeds. The
first dependency that is installed
announces 100 on behalf of the chart; so 100 is heard without success exactly if that one is installed
and something later fails. `Kubectl` is the source of local progress:
the stream of objects is drained and counted before anything is sent in the order of kinds and names,
and kubectl's output, in whatever pieces it comes, leads to the calls progress(1, n), progress(2, n),
and so on.

**Properties** (`PropertyTrees`, `PropertyReplay`, `Properties`, `ChartValues`). Setting a dict on a
struct is a deep merge; the classes of the source are proved to compute a function on trees, whatever
the order of the items, and that function is characterised path by path. A chart keeps raw values next to
its declared properties and its sub-charts, which are charts again: it takes any name, and reads out only
properties and sub-charts. So the settings of a dependency, handed over to the chart that it turns out to
be, read back if and only if each of them is not falsy, and has the name of a property that it survives or
of a sub-chart that keeps it in turn; and a fresh copy of a chart that is given what the chart reads out
reads the same if and only if no property, at any depth of sub-charts, loses anything. The chart as an
object, with its loops, is modelled without sub-charts. Settings on top of a values
file are proved to be laid over it level by level.

**The directory cache** (`DirCache`). Committed metadata always names a directory that is there and
holds what was loaded, over any history of failing loads and crashes between any two file operations.
It is stated exactly, by the number of file operations, when an open succeeds and when it leaves metadata
that cannot be read; every successful open agrees with the origin. Over a whole history, failing loads
included, there are only two generations throughout if and only if each removal of a replaced generation
came to its end, as long as metadata can be read; and the committed directory is exact throughout, whether an
open loads or confirms what is there, if and only if no new version found files of another one in its
directory.

**The controller** (`Reconciler`). Between any two of its calls, users and other controllers may create
and delete the object and change its status and their finalizers. Nothing is ever installed without an
object that carries the controller's finalizer, no work is forgotten by the queue, and all that the controller
ever changes is its own finalizer and the status, in every state of every history; what it asks for comes in a
fixed order; and a turn of the queue whose calls do not fail applies a live chart, and deletes one that
only waits for this controller.

**YAML streams** (`Yaml`). The separator machine is independent of how its input is cut, idempotent,
and emits nothing or one separator followed by a suffix of the input. Writers on top of writers make
nested concatenation equal to flat concatenation.

## Findings

Things that do not hold of the code as one would expect; each is stated exactly in the model.

* A list item at the start of a YAML stream loses its dash: `- a` becomes `---` and ` a`
  (`Yaml.ListItemLosesItsDash`). Content is lost exactly if the first line with content starts with dashes and is
  not a complete separator (`Yaml.FaithfulIff`).
* A setting of a dependency under a name that its chart has for neither a property nor a sub-chart is accepted
  and never read again (`ChartValues.UndeclaredIsLost`, `ChartValues.HandOverReadsBack`).
* A falsy value set over a default that is not falsy does not survive being read out and set again
  (`PropertyReplay.SwitchedOffIsLost`, `PropertyReplay.ReplayRestoresDefaults`, `ChartValues.CopyReadsTheSame`).
* If the operation that fills the new metadata file of a cache entry is not reached or fails, the file
  cannot be parsed, and the entry cannot be opened until somebody removes it: `DirCache.TornForGood` is
  such a run, and `DirCache.Entry.Open` says exactly when it happens.
* A loader that confirms the empty etag of an entry that never was makes the cache return a directory
  that does not exist: `DirCache.MissingDirectory` is such a run.
* An apply whose call to write its own record fails still reports success. After a success the record is
  missing exactly if that call had no effect (`Installation.Record`, `Sessions.RunApply`); the references of
  the chart are there after every success.
* The caller can hear 100 although the apply fails later: a dependency that is installed reports 100 on the
  node of the chart that needs it. This happens for every chart whose first dependency is installed and that
  fails afterwards; if that dependency and the sub-charts install no dependencies themselves, it happens for no
  other chart (`ChartProgress.ApplyChart`).
* With a dependency to install, progress can exceed 100, because the clone for a dependency gets a slot that no
  child was declared for. A chart without sub-charts and with one dependency shows the sum of both shares, up
  to 180, and so goes beyond 100 exactly if they come to at least 105 (`ChartProgress.OneDependency`,
  `ChartProgress.DependencyOvershoots`). Before its first object the chart shows 100.
* Objects of kind `Namespace` are sent after those of all listed kinds, because the list spells it
  `namespace` (`Kubectl.NamespacesComeLast`).
* Two charts that depend on each other and are not recorded are never applied with success. If no call fails,
  the run goes on until it dies (`Sessions.CircleNeverSucceeds`).
* Whether a delete gets through its sub-charts can depend on the order of iteration: a chart with two
  sub-charts of which one uses the other is deleted, or refused, by one and the same delete
  (`Sessions.OrderMatters`).
* `Write` returns fewer bytes than it was given whenever it skips some, without an error
  (`Yaml.YamlWriter.Write`); a caller that compares the two sees a short write.

## Model

| member | source | states |
|---|---|---|
| References.FixLabelValue | pkg/k8s/k8s.go:350-355 | every character that a label may not have is replaced, all others and the length stay |
| References.GenusDeterminesKey | pkg/kdo/chart.go:642-643 | an annotation that counts as a reference is rebuilt from the genus it names |
| References.KeyOfGenus | pkg/kdo/chart.go:650-652 | the annotation of a genus is one that counts, and reading it gives the genus back |
| References.ReferencesAreDistinct | pkg/kdo/chart_init.go:116 | two charts of one namespace leave the same annotation only if they are the same chart |
| References.UserIffAnnotated | pkg/kdo/chart.go:650-652 | a chart is a user exactly if its annotation is there |
| References.AddingAUser | pkg/kdo/chart.go:654-655 | adding the annotation adds exactly this user |
| References.RemovingAUser | pkg/kdo/chart.go:663-664 | removing the annotation removes exactly this user |
| References.RemainingReferences | pkg/kdo/chart.go:637-648 | the loop counts all annotations with the prefix, whoever wrote them; if AddUsedBy wrote all of them, these are the users, each once |
| References.ReferencesAreUsers | pkg/kdo/chart.go:642-644 | there are as many references as users if AddUsedBy wrote all of them |
| Store.RemoveFromView | pkg/kdo/chart.go:663-664 | on the set of users, the remove patch is set difference |
| Store.AddToView | pkg/kdo/chart.go:654-655 | on the set of users, the add patch is set union, hence idempotent |
| Store.Cluster.List | pkg/kdo/repo.go:253-288 | finds a chart exactly if it is recorded, and changes nothing |
| Store.Cluster.CountReferences | pkg/kdo/chart.go:542-547 | the number of users of a recorded chart, 0 for one that is not |
| Store.Cluster.CreateOrUpdate | pkg/k8s/k8s.go:462-487 | creates a record without users, or leaves the users of an existing record alone; has its effect exactly if the call is not lost to a failure |
| Store.Cluster.DeleteByName | pkg/k8s/k8s.go:489-501 | after success the record is gone, a missing one included; otherwise it may be |
| Store.Cluster.AddUsedBy | pkg/kdo/chart.go:654-661 | adds exactly this user if and only if the call has an effect; fails on a chart that is not recorded |
| Store.Cluster.RemoveUsedBy | pkg/kdo/chart.go:663-670 | removes exactly this user if the call has an effect, and the count is exact if it was there; 0 on errors and for an absent reference |
| Counting.AddedAndNotRemoved | pkg/kdo/chart.go:654-670 | over any mix of operations, failed ones included, the users are those added and not removed since, and those there at first and never removed |
| Counting.RunAll | pkg/k8s/k8s.go:441-487 | running the operations against the store gives that fold on this record, leaves all other records alone, and each removal of a reference that is there reports how many remain |
| Charts.DoomedIsUnique | pkg/kdo/dependency.go:138-161 | what a delete is meant to take away does not depend on the order of iteration |
| Charts.AllUsersGone | pkg/kdo/dependency.go:152-156 | a chart that survives all its users has no reference left |
| Charts.DeletedIsDoomed | pkg/kdo/dependency.go:138-161 | what a delete without failures took away is closed, hence the least closed set |
| Charts.WithinNested | pkg/kdo/chart.go:565-573 | a nested delete of an unused dependency or of a sub-chart stays inside the least closed set of the outer one, even after earlier changes |
| Charts.StillClosed | pkg/kdo/dependency.go:152-156 | a set that is closed before a partial delete is closed after it |
| Charts.DeletingNested | pkg/kdo/chart.go:565-573 | between two dependencies the delete is exact so far: what is gone, which references are gone, nothing unused is left over |
| Charts.DeletingFinished | pkg/kdo/chart.go:565-575 | once all dependencies are done, the delete is complete |
| Charts.OrphanedTwice | pkg/kdo/dependency.go:152-156 | a chart left without users by a nested delete had none before it |
| Charts.NeededIsUnique | pkg/kdo/dependency.go:96-136 | what an apply is meant to install does not depend on the order of iteration |
| Charts.ApplyWithinNested | pkg/kdo/dependency.go:119-130 | a nested apply stays inside the least set the outer one needs |
| Charts.ApplyingNested | pkg/kdo/chart.go:497-505 | between two dependencies the apply is exact so far |
| Charts.ApplyingFinished | pkg/kdo/chart.go:506-511 | with its own record written, the apply is complete and exactly its set is recorded and registered |
| Charts.RecordingIsSound | pkg/kdo/chart.go:497-511 | recording an unrecorded chart keeps integrity if and only if all its references are there, the order the code has |
| Charts.HeightFalls | pkg/kdo/dependency.go:119-130 | what a chart needs is lower than the chart, if nothing goes round in circles |
| Charts.FoundedFromBelow | pkg/kdo/chart.go:497-508 | a chart that only needs charts that can be installed can be installed |
| Charts.FoundedIffNotCircular | pkg/kdo/dependency.go:106-130 | a chart is founded if and only if it is in no set of charts each of which needs another one of the set |
| Charts.DepCallsPick | pkg/kdo/chart.go:497-505 | the bound on the calls for a set of dependencies is the same whichever is visited first |
| Charts.SubCallsPick | pkg/kdo/chart.go:299-303 | the bound on the calls for a set of sub-charts is the same whichever is visited first |
| Charts.SubDeletesPick | pkg/kdo/chart.go:437-441 | the bound on the calls to delete a set of sub-charts is the same whichever is visited first |
| Charts.ReleasesPick | pkg/kdo/chart.go:565-573 | the bound on the calls to release a set of dependencies is the same whichever is visited first |
| Ledgers.OneMoreTask | pkg/kdo/chart.go:488-578 | a call made when all that must come before it has ended well keeps the calls of a run in order |
| Ledgers.Built | pkg/kdo/chart.go:290-308 | each call of an apply keeps the calls in order, the objects of recorded charts in place, and no objects applied before their chart has its properties |
| Ledgers.AllApplied | pkg/kdo/chart.go:497-509 | if the objects of a chart were applied, so were those of all sub-charts in it, and each of their dependencies was found, registered and given its properties |
| Ledgers.PutIsAdded | pkg/kdo/chart.go:506-520 | after an apply without failures exactly the objects and secrets of the charts entered are new |
| Ledgers.Cleared | pkg/kdo/chart.go:552-575 | each call of a delete keeps the calls in order, and the objects of recorded charts in place |
| Ledgers.ObjectsCleared | pkg/kdo/chart.go:437-446 | the own objects of a chart go once those of its sub-charts are gone |
| Ledgers.GoneAtLast | pkg/kdo/chart.go:560-573 | a chart is gone once its sub-charts are, its objects are deleted and all its references are released |
| Ledgers.DroppedIsGone | pkg/kdo/chart.go:552-563 | after a delete without failures exactly the objects and secrets of the charts taken away are gone |
| Ledgers.NothingLeft | pkg/kdo/chart.go:541-575 | of a chart that is gone and of any sub-chart in it nothing is left, no record, no reference of its own, no objects and no secret, and its references were counted first |
| Deletion.RecordRemoved | pkg/kdo/chart.go:552-558 | removing the record of an unused chart, before its references, keeps integrity |
| Deletion.UserReleased | pkg/kdo/dependency.go:152 | removing the references of a chart that is no longer recorded keeps integrity |
| Deletion.UnsharedBelow | pkg/kdo/chart.go:541-551 | the reference check never stops the delete of a sub-chart if no sub-chart in reach has a user, and the same holds below it |
| Deletion.UnsharedShrunk | pkg/kdo/chart.go:437-444 | deleting part of it leaves no sub-chart in reach with a user |
| Deletion.StepDependency | pkg/kdo/chart.go:565-573 | one more dependency keeps what holds all along a delete |
| Deletion.StepSubChart | pkg/kdo/chart.go:437-444 | one more sub-chart keeps what holds all along a delete |
| Deletion.Delete | pkg/kdo/chart.go:525-578 | refused without any change while there are users; after success nothing is left of the chart and its sub-charts and all calls for that ended well; otherwise takes away only the least closed set, and exactly that, objects and secrets included, if no call fails; integrity and order of calls after every failure; no more calls than a bound that holds on every graph |
| Deletion.DeleteUnused | pkg/kdo/chart.go:552-575 | the record goes first, then the secret, the references last, so that integrity holds after every failure in between; after success nothing is left of the chart and of any sub-chart in it |
| Deletion.DropRecordAndSecret | pkg/kdo/chart.go:552-558 | the config map and then the secret; success only if both calls end well |
| Deletion.TakeDown | pkg/kdo/chart.go:560-575 | sub-charts, own objects and references in this order, each of them ending well before a success; exact if no call fails |
| Deletion.DeleteSubCharts | pkg/kdo/chart.go:437-444 | all sub-charts, stopping at the first error, with integrity throughout |
| Deletion.DeleteDependencies | pkg/kdo/chart.go:565-573 | all dependencies in any order, stopping at the first error, with integrity throughout; after success each was looked for, and each recorded one released |
| Deletion.Release | pkg/kdo/dependency.go:138-161 | a dependency that is not recorded is skipped, a recorded one is released, and deleted exactly if it is left without users |
| Deletion.ReleaseFound | pkg/kdo/dependency.go:151-159 | the reply of the patch alone decides, whatever becomes of the nested delete; a patch that fails counts as no references, so the nested delete is tried |
| Deletion.GiveUp | pkg/kdo/chart.go:663-670 | the patch removes the reference exactly if it has an effect, and reports none if the chart is left unused or the patch fails |
| Installation.UserRegistered | pkg/kdo/chart.go:654-661 | registering a user on a recorded dependency keeps integrity |
| Installation.Apply | pkg/kdo/chart.go:290-308 | integrity and order of calls after every failure; success, whatever failed on the way, is only reported if the chart is founded, its own objects were applied and all its references are there; only the least needed set is touched and, if no call fails, exactly that set is recorded, with its objects and secrets; each dependency is installed at most once and the number of calls is bounded if the chart is founded; after a success the record is missing exactly if the call that writes it had no effect |
| Installation.Record | pkg/kdo/chart.go:510-520 | the objects come first, and unless they were applied nothing is written and no success reported; once the record was tried success is reported, the record is missing exactly if the call had no effect, and the secret is written exactly if the record was and its own call has an effect |
| Installation.WriteDown | pkg/kdo/chart.go:510-520 | errors of the two calls for record and secret are dropped; what is there afterwards, exactly |
| Installation.SecuredIsFounded | pkg/kdo/chart.go:497-511 | a chart whose references are all there and whose sub-charts are founded is founded |
| Installation.Require | pkg/kdo/dependency.go:96-136 | a recorded dependency is not applied again, one that is not recorded is; after success the reference is there |
| Installation.Use | pkg/kdo/dependency.go:109-118 | a recorded dependency only gains the reference, after its version was checked, and is then given its properties |
| Installation.AddUser | pkg/kdo/dependency.go:131 | the reference is added exactly if the dependency is recorded and the call has an effect |
| Installation.Install | pkg/kdo/dependency.go:119-135 | a new dependency is loaded, given its properties and applied before the reference is added to it |
| Installation.LoadAndApply | pkg/kdo/dependency.go:119-130 | loaded, then given its properties, then applied; success only if all of it ends well |
| Installation.UsedAfterInstall | pkg/kdo/dependency.go:127-134 | a dependency just installed was not recorded before and is in the log once |
| Installation.LogsJoin | pkg/kdo/dependency.go:106-118 | what one dependency installed, the next one finds: nothing is installed twice, even under diamonds |
| Installation.ExplainedTogether | pkg/kdo/dependency.go:119-127 | whatever is entered was asked for, installed on demand, or is a sub-chart of such a chart |
| Installation.ApplyDependencies | pkg/kdo/chart.go:497-505 | after success every declared dependency names the chart as its user |
| Installation.ApplySubCharts | pkg/kdo/chart.go:299-306 | all sub-charts are applied and no reference of the chart is lost on the way |
| Sessions.Session | cmd/apply.go:36-47 | every state of a history and the next one are related as the run between them says, and in every state, failures and crashes anywhere, a recorded chart has its objects in the cluster and all dependencies recorded and naming it |
| Sessions.RunDelete | cmd/delete.go:33-44 | one delete run as a whole: refusal leaves the state alone; after success no record, reference, object or secret of the chart and of any sub-chart in it is left; whatever fails, calls are made in order, nothing outside the unique least closed set is touched and nothing used from outside is gone; no success while the chart or a sub-chart in it is used from outside; with enough calls that do not fail, and no user on a sub-chart in reach, exactly the least closed set is gone, with its objects and secrets; it never dies for want of more calls than the bound |
| Sessions.RunApply | cmd/apply.go:36-47 | one apply run as a whole: with enough calls that do not fail exactly the unique least set is recorded, with its objects and secrets; without failures it comes to an end if and only if the chart is founded; with any failures, calls are made in order, every new record comes after the objects of its chart, and success means that the chart is founded, its references and the objects of all sub-charts are there; after a success the record is missing exactly if the call that writes it had no effect |
| Sessions.CircleNeverSucceeds | pkg/kdo/dependency.go:119-130 | two unrecorded charts that depend on each other: no run succeeds, and one whose calls do not fail goes on until it dies |
| Sessions.RecordCutsCircle | pkg/kdo/dependency.go:109-118 | a chart whose dependency is recorded is founded, even if that depends on it |
| Sessions.OrderMatters | pkg/kdo/chart.go:475-486 | one delete of a chart with two sub-charts, one using the other: with the used one first it is refused, with the user first all three are gone |
| Reversal.CollectedAgain | pkg/kdo/dependency.go:152-156 | whatever the apply entered, the recursive delete collects |
| Reversal.StillUsed | pkg/kdo/chart.go:546-549 | a dependency that was used before is still used after the delete of the new users |
| Reversal.NothingElseCollected | pkg/kdo/dependency.go:152-156 | the recursive delete collects nothing but what the apply installed |
| Reversal.DeleteUndoesApply | pkg/kdo/dependency.go:96-161 | the recursive delete restores the state before the apply if and only if the apply entered no recorded chart, all dependencies found had users and no reference of the applied charts was left over |
| Reversal.NobodyUsesTheTop | pkg/kdo/chart.go:546-549 | right after its first apply a chart has no users, so its delete is not refused |
| Reversal.ApplyThenDelete | cmd/delete.go:33-44 | the two runs one after the other, without failures: each comes to an end if its script is long enough, then both succeed, and the records are restored under exactly that condition; objects and secrets then are as well exactly if no earlier run had left any of those applied |
| ProgressTrees.Round5 | pkg/k8s/k8s.go:176 | the multiple of five next to the value towards zero, for both signs |
| ProgressTrees.DivMonotone | pkg/k8s/k8s.go:296 | division as in Go is monotone, also across zero |
| ProgressTrees.AverageMonotone | pkg/k8s/k8s.go:291-297 | more progress below never shows less |
| ProgressTrees.AverageBounds | pkg/k8s/k8s.go:291-297 | with no more slots than declared, the average stays in 0..90 |
| ProgressTrees.ShareGrows | pkg/k8s/k8s.go:271-277 | more objects handled never show less, and never more than 90 |
| ProgressTrees.ShareIsExact | pkg/k8s/k8s.go:275 | the share is the largest integer up to 90 times the fraction of objects handled |
| ProgressTrees.PartIsClose | pkg/k8s/k8s.go:271-277 | it lies in 0..90 and less than one below that fraction |
| ProgressTrees.ErrorBound | pkg/k8s/k8s.go:173-183 | what a tree shows is at most the exact average of averages of the objects handled, and less than five per level below it, all three roundings included |
| ProgressTrees.RoundedQuotient | pkg/k8s/k8s.go:176 | rounding the share, the quotient and then to a multiple of five is rounding once |
| ProgressTrees.RoundedAverage | pkg/k8s/k8s.go:291-297 | one level adds less than five to the error of its slots |
| ProgressTrees.ClimbsOn | pkg/k8s/k8s.go:176-181 | a notification that is higher than the last keeps the record of notifications climbing |
| ProgressTrees.FewNotifications | pkg/k8s/k8s.go:176-181 | climbing notifications are at most one per five, so at most eighteen up to 90 |
| Progress.K8s.Total | pkg/k8s/k8s.go:292-295 | the loop adds up the local progress and all slots |
| Progress.K8s.ReportProgress | pkg/k8s/k8s.go:291-297 | restores that every node shows its aggregate and every slot shows its child, up to the root |
| Progress.K8s.Publish | pkg/k8s/k8s.go:173-183 | a new value is rounded, remembered and passed on; an old one is not; nothing below changes |
| Progress.K8s.Show | pkg/k8s/k8s.go:179-182 | a root tells its caller the new value once; every ancestor is brought up to date, and no value falls if this one rose |
| Progress.K8s.Announce | pkg/k8s/k8s.go:180-181 | the subscriber hears the value: the root's caller, or the slot of the parent |
| Progress.K8s.ChildReported | pkg/k8s/k8s.go:305-308 | the slot of this child, and no other, takes the value; all ancestors follow |
| Progress.K8s.ProgressCb | pkg/k8s/k8s.go:271-277 | local progress is the largest integer up to 90 times the fraction handled, out-of-range reports are ignored; the forest is consistent again, only this node and those above it change, and nothing falls if the report did not |
| Progress.K8s.Progress | pkg/k8s/k8s.go:173-183 | an explicit value is shown rounded, whatever the slots say; the ancestors, and no other nodes, follow |
| Progress.K8s.ForSubChart | pkg/k8s/k8s.go:321-328 | a clone gets an empty slot of its own, which changes no value that is shown; without a subscription there is no slot |
| Progress.K8s.AddProgressSubscription | pkg/k8s/k8s.go:299-309 | the callback gets the next free slot, filled with 0 |
| Progress.ShowsTree | pkg/k8s/k8s.go:271-309 | in a consistent forest every node shows the recursive function of its tree |
| Progress.SlotsShowTrees | pkg/k8s/k8s.go:302-308 | each slot shows the tree of the clone behind it |
| Progress.InRange | pkg/k8s/k8s.go:271-297 | nodes with no more slots than declared show multiples of five in 0..90; 100 needs an explicit call |
| ProgressRuns.Run | pkg/k8s/k8s.go:271-328 | after any run of registrations and reports the nodes are those registered, in their places, and all of them show their trees of objects handled; a steady run notifies the root at most eighteen times |
| ProgressRuns.Meaning | pkg/k8s/k8s.go:271-328 | what tracking a run means for every node and for the root |
| ProgressRuns.Register | pkg/k8s/k8s.go:321-328 | registering a sub-chart keeps the forest tracking the run |
| ProgressRuns.Tell | pkg/k8s/k8s.go:271-277 | a report keeps the forest tracking the run |
| ProgressRuns.Force | pkg/k8s/k8s.go:173-183 | an explicit value is shown rounded and keeps the forest tracking the run |
| ProgressRuns.ShownIsClose | pkg/k8s/k8s.go:173-183 | the error bound for what is actually shown by the nodes, against the objects handled |
| ChartProgress.HandledGrows | pkg/k8s/k8s.go:271-277 | one more object handled never lowers the local progress; reports beyond the number of objects change nothing |
| ChartProgress.TreeIsClose | pkg/k8s/k8s.go:271-297 | what an apply without dependencies comes to show is at most the exact average of the objects handled, and less than five per level below it |
| ChartProgress.WrapApply | pkg/kdo/chart_init.go:173-190 | applying a tree of charts, up to the first failure, adds exactly one slot to the parent and keeps the forest consistent; if the first dependency is installed, a root whose only child this is has announced 100; unless it is, no node has more slots than its sub-charts and the root has only climbed |
| ChartProgress.Clone | pkg/kdo/chart_init.go:182-185 | the clone declares its sub-charts and keeps the forest consistent |
| ChartProgress.Apply | pkg/kdo/chart.go:488-523 | dependencies first, then sub-charts, then the chart's own objects; succeeds exactly if all of them do |
| ChartProgress.ApplyMain | pkg/kdo/chart.go:298-308 | sub-charts in order up to the first that fails, then the own objects; the node comes to show exactly their rounded average |
| ChartProgress.ApplySubCharts | pkg/kdo/chart.go:299-303 | the slots hold, in order, what each sub-chart tried has come to show |
| ChartProgress.ApplyDependency | pkg/kdo/dependency.go:127-130 | a dependency is applied on a clone of the chart's own node and then reports 100 on that node, which a root with this only child announces |
| ChartProgress.SameAsChild | pkg/k8s/k8s.go:291-297 | a root without own progress and with one child that shows 100 shows 100 |
| ChartProgress.ApplyLocal | pkg/kdo/chart.go:322-335 | the reports of one stream end at the share of the objects handled |
| ChartProgress.ApplyChart | pkg/kdo/chart.go:290-297 | for any chart: success exactly if everything succeeds; 100 is announced if it succeeds or if its first dependency is installed; if that dependency and the sub-charts install none themselves, 100 without success is heard exactly if the first dependency succeeds and the chart does not, and unless it succeeds the caller hears at most nineteen values, each a multiple of five and higher than the one before, at most 90 until 100 comes last, and 100 comes exactly if the apply succeeds; without dependencies the last value before that is the rounded average of all that was handled |
| ChartProgress.OneDependency | pkg/kdo/dependency.go:127-130 | a chart without sub-charts and one dependency that needs nothing else, any numbers of objects: 100 before the first object of the chart, then the sum of both shares |
| ChartProgress.DependencyOvershoots | pkg/kdo/dependency.go:127 | that is beyond 100 exactly if the chart has handled an object and the shares come to at least 105, and 180 once all is handled |
| ChartProgress.HeardSoFar | pkg/k8s/k8s.go:173-183 | unless a dependency was installed, the caller has heard at most eighteen values up to 90 before the end |
| ChartProgress.StepsOfFive | pkg/k8s/k8s.go:176-181 | everything the root has announced is a multiple of five |
| Kubectl.SplitIsExact | pkg/k8s/k8s.go:764-775 | the lines and the rest make up the text again, and no end of a line is inside a line |
| Kubectl.SplitIsUnique | pkg/k8s/k8s.go:764-775 | there is no other way to split the text like that |
| Kubectl.LinesAppend | pkg/k8s/k8s.go:765-773 | one more byte ends the current line or extends it |
| Kubectl.MatchesIff | pkg/k8s/k8s.go:712-720 | a line counts if and only if it ends with configured, unchanged, created or deleted |
| Kubectl.LocalAfterCalls | pkg/k8s/k8s.go:271-277 | the calls leave the progress of the smaller of matches and objects |
| Kubectl.ProgressGrows | pkg/k8s/k8s.go:712-723 | the progress of a node only grows while one stream is handled, ends at 90 once all objects are matched, and stays there |
| Kubectl.ObjectsAreOrdered | pkg/k8s/k8s.go:751-757 | comparing kinds and then names is a total order up to the content |
| Kubectl.KindsInOrder | pkg/k8s/object.go:87-158 | the listed kinds in their order, and all others after them |
| Kubectl.NamesCompare | pkg/k8s/k8s.go:756 | names are ordered as in a dictionary |
| Kubectl.ObjectsCompare | pkg/k8s/k8s.go:751-757 | an object comes before another one by kind, or by name within a kind |
| Kubectl.NamespacesComeLast | pkg/k8s/object.go:87-90 | every object of a listed kind comes before a Namespace |
| Kubectl.Sort | pkg/k8s/object_stream.go:39-65 | in either direction the objects are permuted and none is lost; forwards they are in order of kind and name |
| Kubectl.Kubectl.Line | pkg/k8s/k8s.go:717-723 | a line that matches leads to the next numbered call, another one to none |
| Kubectl.Kubectl.Write | pkg/k8s/k8s.go:764-775 | the calls made are those of all text so far, whatever the pieces |
| Kubectl.Kubectl.Drain | pkg/k8s/k8s.go:724-728 | all objects are mapped in order and counted before the first is passed on |
| Kubectl.Kubectl.Encode | pkg/k8s/object_stream.go:69-77 | each object is sent in two writes, while output may come at any time after the first |
| Kubectl.Kubectl.Run | pkg/k8s/k8s.go:669-728 | the calls are progress(1, n), progress(2, n), and so on, one per complete matching line, n the number of all objects; the objects are sent in order when applied; a stream that fails sends nothing; an unsuccessful kubectl is forgiven only if it got nothing |
| PropertyTrees.MergeByPath | pkg/kdo/struct_property.go:89-149 | after setting, a path that the dict writes reads the dict's value, every other path reads as before |
| PropertyTrees.NothingCreated | pkg/kdo/struct_property.go:136-142 | a field made on demand holds nothing by itself |
| PropertyTrees.SettableByPath | pkg/kdo/struct_property.go:89-149 | a value is accepted if and only if at no path a struct meets something that is not a dict or a name that it neither declares nor may add |
| PropertyTrees.FalsyIff | pkg/kdo/struct_property.go:114 | the falsy values are None, False, 0, and the empty string, list and dict |
| PropertyTrees.ReadOutByPath | pkg/kdo/struct_property.go:110-127 | a dict that is read out has each leaf that is not falsy at its path, its default if that is asked for and it was not set |
| PropertyTrees.NothingElseRead | pkg/kdo/struct_property.go:110-127 | it has nothing at a path that is not declared |
| PropertyTrees.MergeTwice | pkg/kdo/struct_property.go:89-149 | setting the same value again is possible and changes nothing |
| PropertyReplay.NotSetYet | pkg/kdo/property.go:38-40 | declared properties are grown from themselves |
| PropertyReplay.MergeKeepsDeclaration | pkg/kdo/struct_property.go:130-148 | setting never changes declarations and defaults, and adds fields only where allowed |
| PropertyReplay.CreatedReadsPruned | pkg/kdo/struct_property.go:110-149 | a dict set in an undeclared field reads back as the dict pruned at every level |
| PropertyReplay.DynamicKeptIff | pkg/kdo/struct_property.go:110-127 | a field made on demand survives pruning exactly if nothing falsy hides in a dict it stores whole |
| PropertyReplay.ReplaySettable | pkg/kdo/struct_property.go:89-127 | what was read from a struct can always be set on a fresh copy of its declaration |
| PropertyReplay.ReplayedField | pkg/kdo/struct_property.go:130-148 | a replay is a replay field by field; falsy undeclared fields do not come back |
| PropertyReplay.ReplayRestoresValue | pkg/kdo/struct_property.go:89-127 | replaying on a struct restores the values if and only if undeclared dicts hide nothing falsy |
| PropertyReplay.ReplayRestoresDefaults | pkg/kdo/struct_property.go:89-127 | replaying on a struct restores the values with defaults if and only if, in addition, no falsy value covers a default that is not falsy |
| PropertyReplay.SolidValuesSurvive | pkg/kdo/struct_property.go:110-127 | values that are truthy at every level always survive |
| PropertyReplay.SwitchedOffIsLost | pkg/kdo/struct_property.go:114-116 | a concrete value that does not survive: false over a default of true |
| PropertyReplay.ValuesReadBack | pkg/kdo/chart_init.go:41-58 | the properties made from a values file read back that file without its falsy entries, and nothing counts as set |
| PropertyReplay.SettingsWin | pkg/kdo/struct_property.go:89-127 | with settings on top of a values file, dicts are laid over each other at every level, the setting wins entry by entry, and None falls back to the file |
| PropertyReplay.SettableOverValues | pkg/kdo/struct_property.go:94-97 | settings fit a values file if and only if at no level a dict of the file is covered by something that is not a dict |
| Properties.ToProperty | pkg/kdo/chart_init.go:41-58 | the recursion builds a tree of new objects that declares the values as defaults, whatever the order of the keys |
| Properties.StructProperty.SetValue | pkg/kdo/struct_property.go:89-108 | succeeds exactly if the value fits; the tree becomes the merge, whatever the order of the items; fields not named are untouched even on errors |
| Properties.StructProperty.SetField | pkg/kdo/struct_property.go:129-149 | fails only on unknown fields or misfits; an unknown field becomes a struct or a leaf by the shape of the value |
| Properties.StructProperty.ReadOut | pkg/kdo/struct_property.go:110-127 | the loop yields the pruned dict of all fields, with or without defaults |
| Properties.Merged | pkg/kdo/struct_property.go:98-106 | field-wise merging in any order is the merge |
| Properties.ReadInFull | pkg/kdo/struct_property.go:110-119 | reading all fields in any order is the read-out |
| ChartValues.ReadsBackIff | pkg/kdo/struct_property.go:89-127 | a value set on a property that nobody has set reads back if and only if nothing falsy goes into a struct and undeclared fields get nothing falsy at any level |
| ChartValues.HandOverReadsBack | pkg/kdo/dependency.go:87-94 | values handed over to a chart, sub-charts included, read back if and only if each is not falsy and has the name of a property that it survives or of a sub-chart that keeps it in turn |
| ChartValues.UndeclaredIsLost | pkg/kdo/chart.go:242-261 | a value under a name that is neither a property nor a sub-chart is accepted and not read out |
| ChartValues.CopyReadsTheSame | pkg/kdo/chart.go:593-635 | what a chart reads out, sub-charts included, can always be set on a fresh copy, which then reads the same, without or with defaults, if and only if no property at any depth loses anything |
| ChartValues.Chart.SetField | pkg/kdo/chart.go:242-261 | for a chart without sub-charts: only a declared property can refuse its value and is merged into; any other name just holds the value |
| ChartValues.Chart.SetValue | pkg/kdo/chart.go:615-635 | succeeds exactly if all declared properties accept their entries, and then has set all entries, whatever their order |
| ChartValues.Chart.ReadOut | pkg/kdo/chart.go:593-613 | for a chart without sub-charts: reads out the declared properties and nothing else |
| ChartValues.Chart.Resolve | pkg/kdo/dependency.go:87-94 | the chart gets the pruned values of the dependency; refused exactly if a declared property refuses its entry |
| DirCache.Next | pkg/kdo/dir_cache.go:62 | generations wrap around at 32 bits and the next one always differs |
| DirCache.WrittenTwice | pkg/kdo/dir_cache.go:71 | a load leaves its files in a directory whatever was there before |
| DirCache.WrittenInTurn | pkg/kdo/dir_cache.go:71 | a load that goes on writing extends what it wrote |
| DirCache.Entry.RunLoad | pkg/kdo/dir_cache.go:58-74 | completes exactly if its operations do; touches only the next generation, and nothing before it asks for a directory |
| DirCache.Entry.RemoveAll | pkg/kdo/dir_cache.go:86 | removes files of one generation only; all of it is gone exactly if all its operations complete; dies exactly if the operations run out |
| DirCache.Entry.Commit | pkg/kdo/yaml.go:29-44 | succeeds exactly if both operations do; the file is unreadable exactly if only the first does |
| DirCache.Entry.Refresh | pkg/kdo/dir_cache.go:71-87 | when the open succeeds once metadata was read, when it leaves unreadable metadata and when it commits, exactly; what is in each directory then, and whether the old one is gone |
| DirCache.Entry.Replace | pkg/kdo/dir_cache.go:81-87 | commits a new etag before the old directory goes, which is gone exactly if all operations that remove it complete |
| DirCache.Entry.Open | pkg/kdo/dir_cache.go:36-88 | succeeds exactly if metadata is readable and the operations of reading, loading and committing end well; leaves unreadable metadata exactly if the one that fills the file does not; committed metadata always names a complete directory; which directory is returned, and exactly when it is missing |
| DirCache.OpenOrigin | pkg/kdo/repo.go:316-338 | with a conditional loader, exactly when an open succeeds, commits a new version or leaves unreadable metadata; the directory returned is the one the metadata names, and has every file of the origin under its name with its data; without a new version nothing but the next generation is touched; with one, that holds the version on top of what was left in it, and the old one is gone exactly if its removal completes |
| DirCache.History | pkg/kdo/dir_cache.go:36-88 | every state of a history and the next one are related as the open between them says, and in every state committed metadata names a directory that holds the version of its etag |
| DirCache.TidyThroughout | pkg/kdo/dir_cache.go:53-88 | over any history, failing loads and dying processes included: as long as metadata can be read, only the current and the next generation ever exist if and only if every removal of a replaced generation completes |
| DirCache.TidyStep | pkg/kdo/dir_cache.go:81-87 | one open loses tidiness exactly by a removal that does not complete |
| DirCache.ExactStep | pkg/kdo/dir_cache.go:58-81 | one open keeps the committed directory exact if and only if it commits nothing or finds no foreign file in the next one |
| DirCache.ExactThroughout | pkg/kdo/dir_cache.go:53-88 | over any history the committed directory holds the version of its etag and nothing else throughout if and only if every new version found its directory without foreign files |
| DirCache.OpenedIsCurrent | pkg/kdo/repo.go:316-338 | a successful open, whether it loads or confirms, returns a directory with every file of the origin under its name with its data, and nothing else if and only if the entry is exact |
| DirCache.WrittenOver | pkg/kdo/dir_cache.go:71 | what a load writes is laid over what was in the directory |
| DirCache.ContentIsListing | pkg/kdo/repo.go:422-463 | unpacking a version leaves each name that is listed with the data listed last for it, and no other name |
| DirCache.ListingIsContent | pkg/kdo/repo.go:422-463 | a directory holds a listing, or is exactly a listing, if and only if it holds, or is, what unpacking leaves |
| DirCache.TornForGood | pkg/kdo/yaml.go:29-44 | a run that dies between creating and filling the metadata file, after which no open succeeds |
| DirCache.MissingDirectory | pkg/kdo/dir_cache.go:75-77 | a run that returns a directory that does not exist |
| Reconciler.ContainsString | controllers/kdo_chart_controller.go:209-216 | found exactly if it is in the list |
| Reconciler.RemoveString | controllers/kdo_chart_controller.go:218-226 | everything else stays, in order |
| Reconciler.FilteredMembers | controllers/kdo_chart_controller.go:218-226 | the result contains everything that was in the list but the string |
| Reconciler.World.Store | controllers/kdo_chart_controller.go:188-201 | a change queues the key exactly if the finalizer is missing or a delete is requested; a deleted object without finalizers is gone |
| Reconciler.World.Interfere | controllers/kdo_chart_controller.go:177-206 | whatever others do, new objects, new work and requests to delete are noticed, and the finalizer stays |
| Reconciler.World.Act | controllers/kdo_chart_controller.go:188-201 | exactly what one step of others does, in particular that a change of the status alone does not queue a live chart with its finalizer |
| Reconciler.World.Get | controllers/kdo_chart_controller.go:73-76 | the object as it is, or that there is none |
| Reconciler.World.Update | controllers/kdo_chart_controller.go:78-82 | refused without effect unless the version is the one that was read; exactly the list given is stored on top of that version; after success the finalizer is there, or the object without finalizers is gone |
| Reconciler.World.UpdateStatus | controllers/kdo_chart_controller.go:83-86 | refused for an outdated copy; exactly the status is changed, and what is known about the object stays true or is recognised as outdated |
| Reconciler.World.Apply | controllers/kdo_chart_controller.go:88-97 | only called with the finalizer in place, which stays whatever happens meanwhile |
| Reconciler.World.Delete | controllers/kdo_chart_controller.go:105-114 | nothing is installed any more exactly if it succeeds |
| Reconciler.World.AddFinalizer | controllers/kdo_chart_controller.go:78-86 | the finalizer is added behind those of others, and then the status is set to applying |
| Reconciler.World.ReconcileLive | controllers/kdo_chart_controller.go:77-99 | takes hold of the object if need be, applies the chart, and reports a failure, in this order and with these statuses |
| Reconciler.World.ReconcileDeleted | controllers/kdo_chart_controller.go:100-120 | sets the status, deletes the chart, and then lets the object go or reports a failure, in this order and with these statuses |
| Reconciler.World.Reconcile | controllers/kdo_chart_controller.go:67-124 | never leaks an installation; only lawful changes, and requests in the order of the protocol, none of them left out before a success; success leaves no work that is not queued; no apply once a delete is requested; a live chart is applied, a chart waiting for this controller is deleted; errors only come from calls that failed |
| Reconciler.World.Process | controllers/kdo_chart_controller.go:67-124 | one turn of the queue: others act, then the object as it is now is reconciled, and the key is given back as the reply says; keeps both invariants |
| Reconciler.World.Turn | controllers/kdo_chart_controller.go:67-124 | what the reconcile found is applied or deleted unless a call failed, at most one apply and none once a delete is requested; after an error the key is taken back, after a crash it is found again |
| Reconciler.Run | controllers/kdo_chart_controller.go:67-206 | every state of a history and the next one are related as the step between them says, so a processed key whose calls do not fail ends with the chart applied or deleted; in every state nothing is installed without the finalizer, work is on the queue, and all that the controller has ever changed is its own finalizer, behind those of others, and the status |
| Yaml.StateAppend | pkg/kdo/renderer/yaml_writer.go:16-48 | the state after two writes is that after one |
| Yaml.KeptAppend | pkg/kdo/renderer/yaml_writer.go:16-48 | what two writes keep is what one write keeps |
| Yaml.AllKeptAfterSeparator | pkg/kdo/renderer/yaml_writer.go:29-39 | once a separator came, in whatever state, everything is kept |
| Yaml.NothingOrOneDocument | pkg/kdo/renderer/yaml_writer.go:40-43 | the output is empty, or one separator and a non-empty suffix of the input |
| Yaml.Idempotent | pkg/kdo/renderer/yaml_writer.go:16-48 | normalising twice is normalising once |
| Yaml.WhatIsKept | pkg/kdo/renderer/yaml_writer.go:19-39 | independently of the machine: blanks, then all dashes, then the end of that line are dropped, nothing else |
| Yaml.FaithfulIff | pkg/kdo/renderer/yaml_writer.go:19-39 | only blanks and one complete separator are dropped if and only if the first content does not start with dashes or starts with a complete separator |
| Yaml.ListItemLosesItsDash | pkg/kdo/renderer/yaml_writer.go:29-36 | the dash of a leading list item is dropped |
| Yaml.YamlWriter.Write | pkg/kdo/renderer/yaml_writer.go:16-48 | for every way of cutting the input, the target has received the normal form of all input; the result is the number of bytes kept |
| Yaml.DocumentFound | pkg/kdo/renderer/yaml_writer.go:40-43 | the byte that leads to the normal state is the first one kept |
| Yaml.MoreOfADocument | pkg/kdo/renderer/yaml_writer.go:47 | in the normal state the output grows by the data |
| Yaml.WriteDocument | pkg/kdo/renderer/yaml_writer.go:41-42 | a separator and data reach the target, which keeps all of the data even if it is a normalising writer in any state |
| Yaml.RenderedInTurn | pkg/k8s/stream.go:64-70 | rendering two lists of streams in turn is rendering their concatenation, errors included |
| Yaml.TriedInOrder | pkg/k8s/stream.go:61-73 | the output is what the streams wrote, each normalised by itself, in order up to the first that fails; complete if and only if none fails |
| Yaml.ConcatIsNormal | pkg/k8s/stream.go:61-73 | what a concatenation writes is in normal form already |
| Yaml.ConcatIsFlat | pkg/k8s/stream.go:61-73 | nested concatenation writes the same and fails the same as the flat one |
| Yaml.Render | pkg/k8s/stream.go:44-58 | on any target a stream adds exactly its rendering, whatever its pieces |
| Yaml.YamlConcat | pkg/k8s/stream.go:61-73 | the loop adds exactly the rendering of the list and stops at the first error |

## Left out

The dependency protocol:

- User-written `apply`, `delete` and `init` functions, helm, ytt and templates: opaque steps that may fail and do not touch records.
- Runs at the same time: the check for references and the delete are separate calls, so two runs can overtake each other.
- `force`, `skipChart` and read-only charts, and namespaces other than "default": a chart read from its record forgets its namespace (pkg/kdo/repo.go:249-250).
- Charts loaded from an archive in the spec: their genus is empty, so their references coincide.
- Version constraints: the check is an opaque step that may fail (pkg/kdo/dependency.go:110).
- Version labels after an upgrade: the old metadata stays (pkg/k8s/k8s.go:474).
- Deletion.Delete: that everything doomed goes is for the case that no sub-chart in reach has a user. A sub-chart used from outside the doomed set makes every delete fail (`Sessions.RunDelete`); one that is only used from inside is deleted or stops the delete, depending on the order of iteration (`Sessions.OrderMatters`), so nothing is said about that case but integrity and the upper bound.
- Sessions.RunDelete: the same.
- Reversal.ApplyThenDelete: for a chart that was not recorded before, and under the condition that makes the delete exact.
- Store.Cluster.RemoveUsedBy: follows the API server's client, where a missing annotation is no error and reported as 0; the in-memory store reports an error instead.
- Lists with several records for one genus cannot occur in one namespace and are left out.
- What the objects and the secret of a chart contain, and objects applied or deleted in part: a call has its effect or not.

Progress:

- Progress.InRange: needs no more slots than declared children; a chart that applies a sub-chart twice, calls `for_config`, or installs a dependency gets more.
- ChartProgress.ApplyChart: for charts with the default `apply`, each with one stream of objects; the climb is only claimed as long as no dependency is installed; after that it can end (`ChartProgress.DependencyOvershoots`), and for which charts it does is only stated for one dependency and no sub-charts.
- ProgressRuns.Run: the bound of eighteen is for runs in which no node falls behind its own earlier report; a second stream on the same node starts again from below.
- ProgressTrees.ErrorBound: needs the same bound on slots, one more than the declared children.
- The call `Progress(100)` that a dependency's apply makes on its parent is the explicit event of `ProgressRuns.Force`.
- Kubectl.Sort: the order used for deletes, whose comparison is not a strict order.
- Kubectl.Kubectl.Run: kubectl prints nothing before it gets its first object; encoding errors and a broken pipe are not modelled, nor that kubectl is not waited for when the stream fails.
- The output of kapp: it names both numbers itself.

Properties:

- Dict keys that are not strings are ignored by the code and not modelled, as are properties inside of dicts.
- Dicts are values: a dict stored in a leaf is not changed through another reference to it.
- ChartValues.Chart.SetField: the object form has no sub-charts, which `ChartValues.HandOverReadsBack` and the other results on values have, and secrets and assigning a property to a name are left out.
- ChartValues.Chart.ReadOut: the same.
- A dependency among the values of a chart takes and reads out its settings like a declared struct until it is resolved, and like a sub-chart afterwards; that it changes from one into the other is left out.
- Properties.StructProperty.SetValue: after an error the fields named by the dict may have been set or not, depending on the order of its items.

The directory cache:

- Opens of the same entry at the same time, and the name stored in the metadata.
- DirCache.Entry.Commit: one write of the metadata is taken to be atomic; a write that stops half-way could leave a prefix that parses.
- Distinct names are taken to have distinct directories (MD5).
- DirCache.OpenOrigin: a loader with empty etags is excluded (`DirCache.MissingDirectory`).
- A file operation either takes effect or reports an error, not both: `Lost` counts as `Failed` here, so creating the metadata file does not empty it when it reports an error (DirCache.Entry.Commit).
- `WrapReader`, which is a loader with one file.

The controller:

- Specs that change, and the version of the object seen by caches: reads are linearizable here.
- Reconciler.World.Apply: what the apply of the chart does is opaque, and any attempt counts as installed until a delete succeeds. An attempt that ends in a panic, as for charts given by URL (pkg/kdo/repo.go:215-218), is a failure or a crash.
- Reconciler.Run: that the queue hands out its keys eventually, and after which delay.
- Reconciler.World.Interfere: users and other controllers do not add or remove this controller's finalizer on an existing object.
- Events that are recorded, logs, and timeouts.

Streams:

- Yaml.YamlWriter.Write: targets never fail to write; the code ignores errors of the separator.
- A stream that stops because a write returned fewer bytes than it was given.
- `Filter`, `GroupBy` and `Decode`, which add nothing to the order of events.
- Starlark, REST, HTTP, archives, credentials, certificates, prompts, flags and the service broker.
