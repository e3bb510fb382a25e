# A verified model of the NFS load-balancing CSI driver

This project models two parts of the driver in Dafny and proves what they promise.

**The load balancer.** The controller gives every node that mounts the share one of the configured
NFS server IPs and remembers it as an annotation on the node object. It keeps a table of how many
nodes use each IP, and gives a new node an IP with the smallest count. The table is a cache of the
annotations. It is kept up to date by requests that interleave, that decide from node copies read
from a lagging lister outside the mutex, and whose writes the API server refuses when the copy is
out of date.

**Volume and snapshot identifiers.** A volume's identifier is printed from its fields and parsed
again when the volume is deleted, cloned or snapshotted. Directories and the action on deletion are
derived from what the identifier preserves. Subdirectories are templates, expanded one placeholder
after the other in the order a map happens to be traversed, once on creation and again on the node.

## How the model is laid out

| file | contents |
|---|---|
| `Loads.dfy` | the arithmetic of least-loaded selection on a table of counts |
| `Protocol.dfy` | node objects, and the state machine: requests, API server, lister, restarts |
| `Invariant.dfy` | what every step keeps |
| `Locks.dfy` | the volume locks over all interleavings |
| `Sticky.dfy` | a node keeps the IP it was given |
| `Guarantees.dfy` | statements about whole runs |
| `Answers.dfy` | whether an answered IP is on the node |
| `Sequential.dfy` | one request without interference, and its place among the runs |
| `Serial.dfy` | every critical section has the effect of a request without interference |
| `Controller.dfy` | the controller's classes |
| `Strings.dfy` | split, join, trim, letter case; path cleaning by components |
| `Placeholders.dfy` | sequential against simultaneous substitution |
| `Volumes.dfy` | volume identifiers, directories, delete policies |
| `Provision.dfy` | volumes and snapshots built from request parameters |

The state machine (`Protocol`) takes one action at a time. An RPC acquires its volume lock, reads the
lister, takes the mutex, consults the table, writes the node object, changes one count, and releases
its lock; each of these is a separate action, so any number of RPCs interleave between them. The API
server keeps every state it went through, and a node's resource version is the position at which the
node was last written. The lister shows each node as it was at a position of its own that only moves
forward. `Reachable` means reachable from any set of nodes with any annotations by any actions.
`Sequential.Alone` says what one RPC does when nobody interferes. The class methods in `Controller`
are proved to do exactly that, and `Serial.Serialised` proves that every critical section of the state
machine does it too, however it is interleaved. That a publish and an unpublish succeed exactly when
the branches of the code say so, and that repeating either changes nothing once the lister has caught
up, are remarks beside it (`Sequential.SucceedsExactlyWhen`, `Sequential.PublishTwice`,
`Sequential.UnpublishTwice`).

Modelling choices:

- Only the controller writes the assigned-IP annotation; other clients write nodes without touching it
  (`Touch`), create nodes without it (`Create`) and delete nodes (`Delete`).
- A write that is reported as failed did not take effect.
- A new process fills its lister from the API server's present state; events may arrive before the
  table is built, and the lister may lag again from then on. The IP list may change at a restart.
- A restart ends every request of the old process, also one whose write is under way: that write has
  been accepted before the new process fills its lister, or never is.
- Deleting an annotated node leaves its count behind. These leaks are read off the history
  (`Protocol.Lost`): the deletions of nodes annotated with an IP, after the position at which the lister
  showed the node when the table was built.
- A request's context, the network and the lister's failures appear as actions of the state machine
  and as parameters of the methods (`reachable`, `look`).

Where the code and its documentation disagree, the model follows the code:

- README.md:14 says that an IP is unassigned once all pods on the node are gone. The code counts no
  volumes: one unpublish takes the IP away however many volumes were published on the node
  (`Sequential.UnpublishUndoes`).
- README.md:31 says that the table is changed before the annotation. The code writes the annotation
  first and changes the table only if that succeeded.
- `--default-ondelete-policy` is accepted but never reaches the driver (pkg/nfs/nfs.go:95-106). With
  the default unset every policy survives the identifier; with another default an explicit "delete"
  would not (`Volumes.ActionSurvives`, `Volumes.ActionLost`).

Three properties one might expect are false as they stand. Each has a lemma that shows where it fails
and one that says exactly when it holds:

- An IP that a publish answers need not be on the node any more (`Sequential.Overtaken`; exactly when:
  `Answers.AnswerIsAnnotated` for an answer from the copy, `Serial.WrittenIsAnnotated` for one it wrote).
- The directories used on creation and on deletion differ without a working directory for a name with
  a leading slash (`Provision.DirectoriesDiffer`, `Provision.CreateAndDeleteAgree`).
- A subdirectory given in two spellings may be created under one and mounted under the other
  (`Provision.MountedElsewhere`, `Provision.MountedExactly`).

A fourth would be false of a driver that sets a default policy: an explicit "delete" would then be lost
(`Volumes.ActionLost`, `Volumes.ActionSurvives`). As the driver is, it holds
(`Volumes.ActionSurvivesUnset`).

## Model

| member | source | states |
|---|---|---|
| `Guarantees.Accounting` | pkg/lbcontroller/lbcontroller.go:83-190 | in every reachable state the table has exactly the configured IPs, at least one, no negative count, and each count plus what the mutex holder still owes equals the nodes annotated with the IP plus the deletions of nodes annotated with it since they were counted |
| `Guarantees.CountedOnce` | pkg/lbcontroller/lbcontroller.go:110-190 | with the mutex free all counts together are the number of nodes carrying a configured IP plus those deletions: no node is counted twice, also not for several volumes published at once |
| `Guarantees.AnswersAreConfigured` | pkg/lbcontroller/lbcontroller.go:119-152 | every IP a publish answers is a configured one, and only a publish answers an IP |
| `Invariant.UnseenDeletions` | pkg/lbcontroller/lbcontroller.go:83-108 | what a lagging lister shows too much when the table is built are exactly the nodes whose deletion it has not shown yet, each deleted once after the position it is shown at |
| `Guarantees.LeaksAreDeletions` | pkg/lbcontroller/lbcontroller.go:155-163 | until the process ends the deletions its table does not know of grow by exactly the nodes deleted while annotated, and before the table is built by at most those |
| `Guarantees.LeaksSinceStart` | pkg/lbcontroller/lbcontroller.go:67-163 | in every reachable state each leaked count is at most the number of annotated nodes deleted since the process started, and exactly that if the lister stood still until the table was built |
| `Guarantees.RecountAgrees` | pkg/lbcontroller/lbcontroller.go:83-108 | with the mutex free, recounting the nodes in any order over the configured list, duplicates included, gives the incrementally kept table less the leaks, and the same table exactly when nothing leaked |
| `Guarantees.RestartForgetsLeaks` | pkg/lbcontroller/lbcontroller.go:67-81 | restarting with the same IPs between requests gives the old table less the leaks |
| `Guarantees.StartsServing` | pkg/lbcontroller/lbcontroller.go:72-81 | a process that has not built its table can always build it |
| `Guarantees.RunsAreGreedy` | pkg/lbcontroller/lbcontroller.go:127-150 | in any run without a restart the table changes only by single increments and decrements, and every increment falls on an IP least loaded at that moment, although it was chosen before the write |
| `Guarantees.ImbalanceOfRuns` | pkg/lbcontroller/lbcontroller.go:110-190 | the gap between the largest and the smallest count never exceeds the larger of one and the starting gap, plus one for each unpublish that took effect |
| `Guarantees.RunsAreOptimal` | pkg/lbcontroller/lbcontroller.go:127-150 | without effective unpublishes the largest count is exactly the larger of the starting one and the average rounded up, and no other placement of as many nodes has a smaller one |
| `Guarantees.SchedulesAgree` | pkg/lbcontroller/lbcontroller.go:128-135 | two runs from equally loaded tables that place as many nodes leave equally many IPs at every count, however they interleave and break ties |
| `Guarantees.RoundsOfRuns` | test/e2e-lb/testsuites/basic.go:229-352 | from equal counts one placement per IP reaches each IP exactly once and leaves equal counts, and taking one node off each IP in any order restores the table |
| `Guarantees.RecoveryOfRuns` | pkg/lbcontroller/lbcontroller.go:127-150 | after removals have left the counts uneven, they are within one of each other exactly when the initial deficit has been placed |
| `Guarantees.EvenlySpread` | README.md:10 | starting from even counts without leaks, after any interleaving of publishes every configured IP serves the average number of annotated nodes, rounded down or up |
| `Invariant.SameVersion` | pkg/lbcontroller/lbcontroller.go:137-145 | two versions of a node with the same resource version are the same object, so the version check is a check on the content decided from |
| `Invariant.Preserved` | pkg/lbcontroller/lbcontroller.go:83-190 | every action keeps the invariant: genuine copies, an exclusive critical section, plans that fit the table, counts, and a complete lister while starting |
| `Invariant.PreservedByRuns` | pkg/lbcontroller/lbcontroller.go:83-190 | every run keeps the invariant |
| `Sticky.NoSecondWrite` | pkg/lbcontroller/lbcontroller.go:119-148 | while a node carries a configured IP no publish's write to it can be accepted |
| `Sticky.KeepsItsIP` | pkg/lbcontroller/lbcontroller.go:110-153 | once a publish wrote an IP, and until it is erased or the node deleted, through any number of restarts with lists that have the IP: the node keeps it, every later-started publish answers it or fails however far the lister lags, none writes again, and no publish for the node increments a count a second time |
| `LockDiscipline.LocksAreInFlight` | pkg/nfs/controllerserver.go:293-297 | in every reachable state the lock set is the set of keys of the requests in flight, no two of which share one |
| `LockDiscipline.KeyCollisions` | pkg/nfs/controllerserver.go:293 | two node-volume pairs have the same key exactly when they are equal or a part of a node name after a slash has moved to the volume |
| `LockDiscipline.AdmittedExactly` | pkg/nfs/controllerserver.go:293-297 | a serving process admits a request of either kind, whatever else is in flight, exactly when no request in flight has its key |
| `LockDiscipline.RefusedOnlyByItself` | pkg/nfs/controllerserver.go:294-296 | for node names without a slash a request is refused exactly when one for the same node and volume is in flight |
| `LockDiscipline.ReleasesItsOwn` | pkg/nfs/controllerserver.go:320-324 | finishing releases the request's own key and leaves every other request's key locked |
| `Sequential.EffectIsCounted` | pkg/lbcontroller/lbcontroller.go:145-187 | a request changes the count of every configured IP by as much as it changes the number of nodes carrying it |
| `Sequential.Reassigned` | pkg/lbcontroller/lbcontroller.go:119-150 | after a restart with a list that lacks a node's IP, a publish may give the node another one |
| `Answers.CausesOfChange` | pkg/lbcontroller/lbcontroller.go:137-190 | along every run each lapse of an annotation is an accepted unpublish of that run or a deletion of the node, and each new IP an accepted publish of that run that chose it |
| `Answers.ReachableSteady` | pkg/lbcontroller/lbcontroller.go:119-123 | within the life of a process a configured IP on a node is never replaced by another without lapsing first |
| `Answers.AnswerIsAnnotated` | pkg/lbcontroller/lbcontroller.go:119-123 | the IP a publish answers from its copy is on the node exactly when since the copy's version no unpublish for the node was accepted and it was not deleted, or the same IP was written again after the last time that happened |
| `Answers.FreshCopyIsRight` | pkg/lbcontroller/lbcontroller.go:111-123 | a copy with the present version is the present object, so its IP is on the node |
| `Serial.WrittenIsAnnotated` | pkg/lbcontroller/lbcontroller.go:145-152 | the IP a publish wrote and is about to answer is on the node exactly when the node was not deleted since |
| `Sequential.Overtaken` | pkg/lbcontroller/lbcontroller.go:111-123 | from a fresh cluster of one annotated node, a run in which a publish overtaken by an unpublish of another volume answers the IP that was just erased |
| `Sequential.PublishesRace` | pkg/lbcontroller/lbcontroller.go:110-153 | from a fresh cluster, a run in which two publishes of different volumes on one node both read it unannotated; one writes, the other is refused, and the node is counted once |
| `Sequential.ListerCatchesUp` | pkg/lbcontroller/lbcontroller.go:111 | the lister can show a node as it was at any later position, and nothing else changes with that |
| `Sequential.CaughtUpPublish` | pkg/lbcontroller/lbcontroller.go:119-123 | from every reachable state with a free mutex, once the lister has caught up, a publish on a node with a configured IP can answer it and leave table and nodes alone |
| `Sequential.TouchRefuses` | pkg/lbcontroller/lbcontroller.go:145-148 | a write by another client gets the write of a request that has read the node refused |
| `Sequential.NodesComeAndGo` | pkg/lbcontroller/lbcontroller.go:155-163 | at any time the cluster can come to have any names, the nodes that stay untouched and the new ones unannotated |
| `Sequential.UnpublishUndoes` | pkg/lbcontroller/lbcontroller.go:155-190 | one unpublish undoes any sequence of publishes on a node, at least one of which reached the API server: table as before, node without annotation |
| `Serial.Serialised` | pkg/lbcontroller/lbcontroller.go:116-190 | serialisability: however a critical section is interleaved, its outcome, the table and its write are those of an uninterrupted request on the table it found and the nodes its write met |
| `Sequential.AloneIsARun` | pkg/lbcontroller/lbcontroller.go:110-190 | from every state with a free mutex a request can run uninterrupted, with exactly the effect proved of the methods |
| `Sequential.EveryRequestCanFinish` | pkg/lbcontroller/lbcontroller.go:116-117 | no deadlock: from every reachable state every request in flight can be carried to its end by requests alone |
| `Controller.ApiServer.Update` | pkg/lbcontroller/lbcontroller.go:145 | a write is accepted exactly when it arrives and is based on the present version, and then gets a new version |
| `Controller.SortByCount` | pkg/lbcontroller/lbcontroller.go:132-134 | a permutation of the IPs in order of their counts |
| `Controller.LBController.constructor` | pkg/lbcontroller/lbcontroller.go:72-80 | a new controller's table is the recount of the listed nodes |
| `Controller.LBController.ResyncIPMap` | pkg/lbcontroller/lbcontroller.go:83-108 | the two loops compute the recount |
| `Controller.LBController.SelectIP` | pkg/lbcontroller/lbcontroller.go:128-135 | the head of the sorted list of IPs is least loaded |
| `Controller.LBController.AssignIPToNode` | pkg/lbcontroller/lbcontroller.go:110-153 | the outcome, the table and the nodes are those of an uninterrupted publish with a least-loaded choice |
| `Controller.LBController.RemoveIPFromNode` | pkg/lbcontroller/lbcontroller.go:155-190 | the outcome, the table and the nodes are those of an uninterrupted unpublish |
| `Controller.VolumeLocks.constructor` | pkg/nfs/utils.go:133-137 | nothing is locked at first |
| `Controller.VolumeLocks.TryAcquire` | pkg/nfs/utils.go:139-147 | succeeds exactly when the key was free, and the key is locked afterwards |
| `Controller.VolumeLocks.Release` | pkg/nfs/utils.go:149-153 | frees the key and no other |
| `Controller.ControllerServer.ControllerPublishVolume` | pkg/nfs/controllerserver.go:279-307 | when each error code is returned, that refused requests change nothing, the effect otherwise, and that every way out leaves the lock set as it was |
| `Controller.ControllerServer.ControllerUnpublishVolume` | pkg/nfs/controllerserver.go:309-332 | the same for unpublish |
| `Cluster.CountIsLoad` | pkg/lbcontroller/lbcontroller.go:97-104 | the annotations counted in any listing of the nodes are as many as the nodes carrying the IP |
| `Loads.BoundedImbalance` | pkg/lbcontroller/lbcontroller.go:127-150 | only decrements widen the gap between the counts beyond one, each by at most one |
| `Loads.GreedyMax` | pkg/lbcontroller/lbcontroller.go:127-150 | the exact largest count after n greedy increments |
| `Loads.GreedyIsOptimal` | pkg/lbcontroller/lbcontroller.go:127-150 | no placement of n nodes has a smaller largest count |
| `Loads.Flat` | pkg/lbcontroller/lbcontroller.go:127-150 | counts within one of each other are all the average rounded down or up |
| `Loads.FullRound` | pkg/lbcontroller/lbcontroller.go:127-150 | from equal counts as many increments as IPs hit each IP once |
| `Loads.BatchUndone` | pkg/lbcontroller/lbcontroller.go:150-187 | such a round followed by one decrement of each IP changes nothing |
| `Loads.TieBreakingIrrelevant` | pkg/lbcontroller/lbcontroller.go:128-135 | ties do not influence how many IPs end up at each count |
| `Loads.Recovery` | pkg/lbcontroller/lbcontroller.go:127-150 | the number of increments needed for even counts is exactly the deficit below the largest one |
| `Strings.SplitJoin` | pkg/nfs/controllerserver.go:761-784 | splitting undoes joining exactly when no part contains the separator |
| `Strings.TrimIsBare` | pkg/nfs/controllerserver.go:753-755 | trimming leaves nothing to trim, and what it took off the ends is nothing but the trimmed character |
| `Strings.EqualFoldIs` | pkg/nfs/utils.go:47-55 | strings are equal without regard to case exactly when they agree letter by letter up to capitals |
| `Paths.CleanTwice` | pkg/nfs/controllerserver.go:736-747 | a cleaned path is clean |
| `Paths.JoinBelow` | pkg/nfs/controllerserver.go:736-747 | joining a path that leads down to a clean directory puts it below that directory, and the result is clean |
| `Paths.JoinParent` | pkg/nfs/controllerserver.go:736-747 | going up once from a child leads back |
| `Paths.JoinTrimmed` | pkg/nfs/controllerserver.go:736-747 | under a non-empty directory a path and its trimmed form are the same place |
| `Paths.CleanTrimmed` | pkg/nfs/controllerserver.go:736 | without a directory they are the same exactly when there is no leading slash |
| `Placeholders.ReplaceWithMap` | pkg/nfs/nfs.go:194-201 | the loop replaces the placeholders one by one in some order of the map |
| `Placeholders.Confluent` | pkg/nfs/nfs.go:194-201 | if dollar signs in the template only start placeholders and no value has one, every order gives the simultaneous substitution |
| `Placeholders.ExpandOnce` | pkg/nfs/nfs.go:194-201 | the result has a dollar sign left exactly when a placeholder used has no entry, and otherwise expanding again with any entries changes nothing |
| `Placeholders.ExpandAgain` | pkg/nfs/nodeserver.go:126-128 | expanding again with entries for the same placeholders never changes anything, whatever the entries |
| `Placeholders.ValuesMatter` | pkg/nfs/nfs.go:195-198 | a value that is a placeholder makes the result depend on the order |
| `Placeholders.TemplatesMatter` | pkg/nfs/nfs.go:195-198 | a stray dollar sign in the template does so too |
| `Volumes.IdIs` | pkg/nfs/controllerserver.go:751-762 | the text of an identifier |
| `Volumes.ParsedParts` | pkg/nfs/controllerserver.go:796-806 | identifiers of three, four and five parts give server, base directory, subdirectory, uuid and policy in this order |
| `Volumes.RoundTrip` | pkg/nfs/controllerserver.go:751-816 | parsing a volume's identifier gives back its trimmed server and directories, its uuid and its policy if that is to retain or archive, exactly when no field contains the separator |
| `Volumes.ReEncode` | pkg/nfs/controllerserver.go:751-762 | the decoded volume has the same identifier |
| `Volumes.SameId` | pkg/nfs/controllerserver.go:751-762 | two volumes share an identifier exactly when they agree on all it preserves |
| `Volumes.LegacyExact` | pkg/nfs/controllerserver.go:788-795 | the older form is parsed exactly into the only server, base directory and subdirectory that match the pattern |
| `Volumes.ParsedOlder` | pkg/nfs/controllerserver.go:784-795 | an identifier of the older form gives the server, base directory and subdirectory it matches, without uuid and policy |
| `Volumes.ParseFails` | pkg/nfs/controllerserver.go:782-806 | parsing fails exactly for identifiers with at most one separator that do not match the older form |
| `Volumes.ShareAgrees` | pkg/nfs/controllerserver.go:504 | the share to mount is the same for a volume and its decoded identifier |
| `Volumes.Directories` | pkg/nfs/controllerserver.go:728-748 | the mount point is named by the uuid or else the subdirectory below the working directory, and the volume is its subdirectory below the mount point |
| `Volumes.PathsAgree` | pkg/nfs/controllerserver.go:728-748 | exactly when the mount and volume directories of a volume and of its decoded identifier agree |
| `Volumes.Actions` | pkg/nfs/controllerserver.go:234-271 | in any letter case retain keeps, archive moves aside, and delete or no policy removes |
| `Volumes.ActionSurvives` | pkg/nfs/controllerserver.go:230-274 | the action taken on deletion is the volume's policy exactly when that is recorded or the default is to delete |
| `Volumes.ActionSurvivesUnset` | pkg/nfs/nfs.go:95-106 | with the default unset, as the driver leaves it, every policy survives |
| `Volumes.ActionLost` | pkg/nfs/controllerserver.go:230-232 | with a default of retain an explicit delete becomes retain |
| `Volumes.ValidateOnDelete` | pkg/nfs/utils.go:47-55 | accepts exactly the empty policy and, in any letter case, delete, retain and archive |
| `Provision.ReadParams` | pkg/nfs/controllerserver.go:672-693 | the loop over the parameters finds each by its name in any letter case; of several spellings the one visited last counts, and any may be last |
| `Provision.OrderIrrelevant` | pkg/nfs/controllerserver.go:675-693 | the order of visiting the parameters does not matter exactly when no two spellings of a recognised one have different values |
| `Provision.ParamNames` | pkg/nfs/controllerserver.go:675-693 | which parameter names give the server, share, subdirectory, policy and the values of the placeholders |
| `Provision.BuildSucceeds` | pkg/nfs/controllerserver.go:695-716 | a volume is built exactly when a server is named and the requested policy is none or one of the three; a missing server is reported first |
| `Provision.NewNFSVolume` | pkg/nfs/controllerserver.go:671-725 | the errors, and otherwise the volume the parameters describe, for some order of visiting them and some order of expanding its subdirectory |
| `Provision.SameBuiltId` | pkg/nfs/controllerserver.go:699-762 | two built volumes share an identifier exactly when trimmed server and share and the recorded policy agree, and either both have no subdirectory and names equal up to slashes, or both have one, with the same name and expansions equal up to slashes |
| `Provision.NamesMakeIdsUnique` | pkg/nfs/controllerserver.go:699-723 | different names without slashes give different identifiers whatever the other parameters |
| `Provision.SlashedNamesCollide` | pkg/nfs/controllerserver.go:755 | names that differ in a trailing slash share one |
| `Provision.CreateAndDeleteAgree` | pkg/nfs/controllerserver.go:671-816 | deletion finds the requested server and share, keeps, moves aside or removes as the request asked or else as the default says, and finds the created directories exactly when there is a working directory, a requested subdirectory, or a name without a leading slash |
| `Provision.DirectoriesDiffer` | pkg/nfs/controllerserver.go:728-748 | without a working directory and without a subdirectory the name /a gives different mount directories on creation and on deletion |
| `Provision.SetKeyValueInMap` | pkg/nfs/utils.go:194-205 | overwrites the parameter under the spelling it has, or else adds it, and does nothing to a missing map |
| `Provision.SetParam` | pkg/nfs/utils.go:192-205 | the parameter is then read with the value in every order exactly when its other spellings already have that value |
| `Provision.OthersKept` | pkg/nfs/utils.go:192-205 | every other parameter is read with a value it could be read with before |
| `Provision.MountedIsCreated` | pkg/nfs/controllerserver.go:193-198 | the subdirectory the node mounts after expanding again is the one that was created, and that is the simultaneous substitution, if the subdirectory has one spelling |
| `Provision.MountedExactly` | pkg/nfs/controllerserver.go:193-198 | the node mounts what was created, in every order of reading and expanding, exactly when every other spelling of the subdirectory expands to it |
| `Provision.MountedElsewhere` | pkg/nfs/nodeserver.go:84-93 | with subdir a and subDir b creation makes a and the node may mount b |
| `Snapshots.ParseFails` | pkg/nfs/controllerserver.go:822-835 | a snapshot identifier is refused exactly when it does not have four separators |
| `Snapshots.SnapshotIs` | pkg/nfs/controllerserver.go:765-773 | the text of a snapshot's identifier, and that its archive lies in a directory named by the snapshot below a mount point of that name |
| `Snapshots.BuildSucceeds` | pkg/nfs/controllerserver.go:649-664 | a snapshot is built exactly when a server is known and the volume has a name; a missing server is reported first |
| `Snapshots.RoundTrip` | pkg/nfs/controllerserver.go:765-835 | parsing gives the snapshot back, trimmed, exactly when no field contains the separator |
| `Snapshots.ArchiveIsFound` | pkg/nfs/controllerserver.go:869-877 | the archive is looked for on restore where it was put on creation |
| `Snapshots.NewNFSSnapshot` | pkg/nfs/controllerserver.go:635-668 | only server and share can be overridden, in any letter case and order; the errors and the snapshot otherwise |
| `Snapshots.RestoreFindsArchive` | pkg/nfs/controllerserver.go:571 | a snapshot built from a volume is found again through its identifier: at the same archive path, on the server and in the share it was built with, under its name and with the volume's name as source |
| `Snapshots.ArchivesTellVolumesApart` | pkg/nfs/controllerserver.go:851-865 | snapshots of two volumes have the same archive name exactly when the volumes have the same name |

## Left out

- The Kubernetes client, informer set-up and signals: the lister and the API server are modelled, their construction is not.
- Annotations edited by hand, and writes that are reported as failed but took effect.
- A write of a process that has ended which the API server accepts only after the next process has filled its lister; its node would be missing from the new table.
- A lister that a new process fills from a stale API server cache.
- CreateVolume, DeleteVolume, CreateSnapshot, DeleteSnapshot and the copies: the file system, tar, cp and mount calls around the modelled functions.
- The node server: mounts, permissions, read-ahead and its lock keys; its option filters would only add easy members.
- Letter case beyond ASCII.
- The error texts, the logging, and the parameters that only CreateVolume checks (mount permissions and unknown names).
- The gRPC server, the identity server, versions, flags and charts.
