# Replica backup lifecycle and meta-server leader tracking

This project models two small sequential decision cores of a Pegasus/rDSN
replica server and proves properties about them in Dafny.

1. **Replica backup manager.** `replica_backup_manager` holds the state of a
   replica's current backup attempt. That state is the status (`backup_status`),
   the backup id, the last checkpoint error, the last upload error, the map from
   file name to its outstanding upload task and the uploaded-byte counter. The
   lifecycle diagram in the header gives the allowed moves:
   Invalid → Checkpoint → Checkpointed → Uploading → Succeed → async clear →
   Invalid. Each of the three middle phases also has an Error/Cancel arrow to
   the async clear.
   - `BackupLifecycle` states the diagram twice. `Transition` gives each arrow an
     event label. `Edge` is the independent relation between statuses. The
     module proves that the two agree, and it proves facts about every run of
     statuses that follows the diagram.
   - `ReplicaBackup.ReplicaBackupManager` is a class with the header's fields and
     its inline accessors. It has one method per arrow. The object invariant
     `Valid()` keeps a ghost history of statuses that is a run of the diagram.
   - `DecimalStrings` models `std::to_string`, and `Paths` models `path_combine`.
     Together they build the local checkpoint directory `<backup_dir>/<backup_id>`.
2. **Replication failure detector.** `replication_failure_detector` tracks which
   meta server leads.
   - `GroupAddress` models the meta-server group as a list of members plus a
     leader.
   - `ReplicationFailureDetector.PingDecision` is the case split of `end_ping`.
     It decides, from one beacon ack, whether to do nothing, call
     `switch_master(from, to)` or make the responder the leader.
   - The class `FailureDetector` applies that decision. It records its calls
     out (`switch_master` and the stub's connected/disconnected hooks) as a
     sequence of notices.

Inputs from outside are parameters:
- the app's backup directory;
- the random pick of `random_member` and `next` (`choice`);
- error codes and beacon acks.

The lifecycle arrows are guarded methods. Each returns whether it fired, and
leaves everything unchanged when the current status has no such arrow. The
bodies that choose which arrow to take (`on_backup` and its helpers) are only
declared in the header. So the model states what each arrow does, not when the
request handler takes it.

Some behaviour is not shown in the header. The model takes it from the
documented lifecycle:
- Starting an attempt resets both errors, the task map and the byte counter.
- Both ways back to Invalid hand the attempt's id to the background clear of
  its checkpoint directory (`clearRequests`). They then reset every field to
  the constructor's values. A redundant clear of a record that is already
  Invalid records a clear request for id 0; deleting a directory that does not
  exist is harmless, so this is recorded and not prevented.
- Uploading → Succeed fires only when no per-file upload task is outstanding.

## Model

| member | source | states |
|---|---|---|
| ReplicaBackup.ReplicaBackupManager.constructor | src/rdsn/src/replica/backup/replica_backup_manager.h:137-146 | A fresh manager is UNINITIALIZED with backup id 0, both errors ERR_OK, no upload task and an uploaded-byte counter of 0; its history is the one-status run [Invalid] |
| ReplicaBackup.ReplicaBackupManager.GetLocalCheckpointDir | src/rdsn/src/replica/backup/replica_backup_manager.h:102-108 | Returns the backup directory combined with the decimal text of the current backup id; the result extends the backup directory and changes nothing |
| ReplicaBackup.DistinctIdsDistinctDirs | src/rdsn/src/replica/backup/replica_backup_manager.h:102-108 | For one backup directory, two attempts with different ids get different local checkpoint directories |
| ReplicaBackup.ReplicaBackupManager.GetBackupStatus | src/rdsn/src/replica/backup/replica_backup_manager.h:110-114 | Returns the current status and changes nothing |
| ReplicaBackup.ReplicaBackupManager.SetCheckpointErr | src/rdsn/src/replica/backup/replica_backup_manager.h:116-120 | The checkpoint error becomes `ec`; its frame allows no other field to change |
| ReplicaBackup.ReplicaBackupManager.SetUploadErr | src/rdsn/src/replica/backup/replica_backup_manager.h:122-126 | The upload error becomes `ec`; its frame allows no other field to change |
| ReplicaBackup.ReplicaBackupManager.StartCheckpointing | src/rdsn/src/replica/backup/replica_backup_manager.h:35-38 | Fires exactly from Invalid: the attempt for `id` enters Checkpoint with errors, task map and byte counter cleared; otherwise nothing changes |
| ReplicaBackup.ReplicaBackupManager.CheckpointCompleted | src/rdsn/src/replica/backup/replica_backup_manager.h:38-41 | Fires exactly from Checkpoint and moves to Checkpointed; otherwise nothing changes |
| ReplicaBackup.ReplicaBackupManager.StartUploading | src/rdsn/src/replica/backup/replica_backup_manager.h:41-44 | Fires exactly from Checkpointed and moves to Uploading; otherwise nothing changes |
| ReplicaBackup.ReplicaBackupManager.AddUploadTask | src/rdsn/src/replica/backup/replica_backup_manager.h:144-145 | While Uploading, maps the file name to its task, so the key set grows by that name only and a file never has two tasks; in any other phase nothing changes |
| ReplicaBackup.ReplicaBackupManager.FileUploadCompleted | src/rdsn/src/replica/backup/replica_backup_manager.h:144-146 | While Uploading and the file has a task: that entry leaves the map (one fewer outstanding task) and the file size is added to the 64-bit counter modulo 2^64; otherwise nothing changes |
| ReplicaBackup.ReplicaBackupManager.UploadCompleted | src/rdsn/src/replica/backup/replica_backup_manager.h:44-47 | Fires exactly from Uploading with no outstanding file task and moves to Succeed; otherwise nothing changes |
| ReplicaBackup.ReplicaBackupManager.ClearContext | src/rdsn/src/replica/backup/replica_backup_manager.h:95-96 | Callable in any phase, so a redundant clear is safe: requests the background clear of the current id's checkpoint, resets the record to its initial values and keeps it valid; the history gains an Invalid step only when the record was not already Invalid |
| ReplicaBackup.ReplicaBackupManager.FailOrCancel | src/rdsn/src/replica/backup/replica_backup_manager.h:37-50 | Fires exactly from Checkpoint, Checkpointed or Uploading: the attempt's checkpoint goes to the async clear and the record returns to Invalid in its initial state; otherwise nothing changes |
| ReplicaBackup.ReplicaBackupManager.ClearSucceeded | src/rdsn/src/replica/backup/replica_backup_manager.h:46-50 | Fires exactly from Succeed: the checkpoint goes to the async clear and the record returns to Invalid in its initial state; otherwise nothing changes |
| ReplicaBackup.UploadingImpliesCheckpointed | src/rdsn/src/replica/backup/replica_backup_manager.h:35-44 | A manager in Uploading got there through exactly Invalid, Checkpoint, Checkpointed |
| BackupLifecycle.Transition | src/rdsn/src/replica/backup/replica_backup_manager.h:35-50 | The diagram's arrows labelled by event (Start, CheckpointDone, UploadStart, UploadDone, Error/Cancel, Clear), None where the diagram has no arrow. Its contract: every transition it gives is an arrow of the diagram, and every move into a phase other than Invalid advances one step on the forward path |
| BackupLifecycle.EdgeIffTransition | src/rdsn/src/replica/backup/replica_backup_manager.h:35-50 | The diagram's arrows between statuses are exactly the event-labelled transitions |
| BackupLifecycle.ReturnsToInvalid | src/rdsn/src/replica/backup/replica_backup_manager.h:37-50 | A transition leads back to Invalid exactly on Error/Cancel from a middle phase or on the clear after Succeed; Succeed and Invalid have no Error/Cancel arrow |
| BackupLifecycle.EnteredOnlyFromPredecessor | src/rdsn/src/replica/backup/replica_backup_manager.h:35-47 | Every phase other than Invalid is entered only from the phase before it on the forward path |
| BackupLifecycle.RunExtends | src/rdsn/src/replica/backup/replica_backup_manager.h:35-50 | Taking any arrow from the last status of a run gives a longer run |
| BackupLifecycle.NoPhaseSkipped | src/rdsn/src/replica/backup/replica_backup_manager.h:35-47 | In any run, the statuses leading to a phase are exactly the forward path Invalid → … → that phase; no phase is skipped |
| BackupLifecycle.UploadingAfterCheckpointed | src/rdsn/src/replica/backup/replica_backup_manager.h:35-44 | In any run, Uploading is immediately preceded by Checkpointed, Checkpoint and Invalid |
| DecimalStrings.NatDigits | src/rdsn/src/replica/backup/replica_backup_manager.h:107 | The decimal text of a natural number is non-empty, consists of digits only and has no leading zero unless the number is 0 |
| DecimalStrings.Decimal | src/rdsn/src/replica/backup/replica_backup_manager.h:107 | `std::to_string` of a signed integer: '-' followed by the digits of the magnitude for a negative number, otherwise the digits. Its contract: the text is never empty (round trip and injectivity are the lemmas below) |
| DecimalStrings.NatDigitsRoundTrip | src/rdsn/src/replica/backup/replica_backup_manager.h:107 | Reading back the digits of `n` gives `n` |
| DecimalStrings.DecimalRoundTrip | src/rdsn/src/replica/backup/replica_backup_manager.h:107 | Reading back the text `std::to_string` gives for any integer, negative ones included, yields that integer |
| DecimalStrings.DecimalInjective | src/rdsn/src/replica/backup/replica_backup_manager.h:107 | Different integers have different decimal texts |
| Paths.PathCombine | src/rdsn/src/replica/backup/replica_backup_manager.h:106-107 | `path_combine` (not part of this model; see Left out): the directory, one '/' and the name, or the name alone for an empty directory. Its contract: the result is at least as long as directory and name together (the inverse and injectivity are the lemmas below) |
| Paths.PathCombineRoundTrip | src/rdsn/src/replica/backup/replica_backup_manager.h:106-107 | The name can be recovered from a combined path given its directory |
| Paths.PathCombineInjective | src/rdsn/src/replica/backup/replica_backup_manager.h:106-107 | For a fixed directory, different names give different combined paths |
| GroupAddress.Add | src/apps/replication/lib/replication_failure_detector.cpp:37-38 | Adding keeps the old members in order and makes the address a member, adding it at most once; the leader and validity are preserved |
| GroupAddress.SetLeader | src/apps/replication/lib/replication_failure_detector.cpp:87 | A valid address becomes the leader and is a member afterwards; an invalid one unsets the leader; old members stay in order and validity is preserved |
| GroupAddress.RandomMember | src/apps/replication/lib/replication_failure_detector.cpp:39 | Picks a member of a non-empty group and the invalid address from an empty one |
| GroupAddress.Next | src/apps/replication/lib/replication_failure_detector.cpp:57 | `rpc_group_address::next` (that class is not part of this model; its behaviour is described under Left out): the member after `current` in list order, wrapping to the first; a random member for an invalid or non-member `current`; invalid for an empty group. Its contract: the result is a member of a non-empty group and the invalid address for an empty one |
| GroupAddress.NextIsSelfIffSingleton | src/apps/replication/lib/replication_failure_detector.cpp:57-61 | For a member of a valid group, the next server is that member itself exactly when the group has one member |
| GroupAddress.NextFollowsListOrder | src/apps/replication/lib/replication_failure_detector.cpp:57 | The next server after a member that is not last in the list is the member after it in the list |
| ReplicationFailureDetector.PingDecision | src/apps/replication/lib/replication_failure_detector.cpp:53-89 | The case split of `end_ping` on leader or not, error or not, master claim and valid primary, giving no action, `switch_master(from, to)` or `set_leader(node)`. Its contract: every action concerns the responder (it is the switch's origin or the new leader), and a failed ping acts only when it came from the leader; each case is one of the lemmas below |
| ReplicationFailureDetector.LeaderFailureSwitchesToNext | src/apps/replication/lib/replication_failure_detector.cpp:53-62 | A failed ping of the leader switches from the leader to the next server exactly when that differs from the leader, and otherwise does nothing |
| ReplicationFailureDetector.NonMasterRedirectsToPrimary | src/apps/replication/lib/replication_failure_detector.cpp:63-84 | A successful ack claiming not to be master switches from the responder to its named primary if that is valid, and does nothing otherwise, from the leader or not |
| ReplicationFailureDetector.NonLeaderFailureIgnored | src/apps/replication/lib/replication_failure_detector.cpp:74-77 | A failed ping of a non-leader does nothing |
| ReplicationFailureDetector.LeaderConfirmationIgnored | src/apps/replication/lib/replication_failure_detector.cpp:53-70 | A successful ack from the leader claiming to be master does nothing |
| ReplicationFailureDetector.LeaderChangesOnlyOnMasterClaim | src/apps/replication/lib/replication_failure_detector.cpp:85-88 | The decision sets a leader exactly when a non-leader answers successfully that it is master, and the new leader is that responder |
| ReplicationFailureDetector.SwitchLeavesResponder | src/apps/replication/lib/replication_failure_detector.cpp:53-84 | Every switch starts at the responder and targets a valid address; after a failed ping it never targets the responder itself |
| ReplicationFailureDetector.FailureDetector.constructor | src/apps/replication/lib/replication_failure_detector.cpp:32-40 | The member list is the given meta servers in the order given, each kept at its first occurrence (exactly the given list when it has no repeats), so `next` walks them in configuration order; the leader is one of them, or unset when none is given; nothing has been notified |
| GroupAddress.FirstOccurrencesOfDistinct | src/apps/replication/lib/replication_failure_detector.cpp:37-38 | Adding the servers of a list without repeats one by one yields that very list |
| ReplicationFailureDetector.FailureDetector.EndPing | src/apps/replication/lib/replication_failure_detector.cpp:47-90 | Applies the decision: a switch is recorded and leaves the group alone; making a leader updates only the group; otherwise nothing changes. The leader changes only to a responder that answered successfully as master, and no member is lost |
| ReplicationFailureDetector.FailureDetector.OnMasterDisconnected | src/apps/replication/lib/replication_failure_detector.cpp:93-110 | Notifies the stub exactly once if the leader is among the disconnected nodes and not at all otherwise; the group is not modified |
| ReplicationFailureDetector.FailureDetector.OnMasterConnected | src/apps/replication/lib/replication_failure_detector.cpp:112-125 | Notifies the stub exactly when the connected node is the leader; the group is not modified |

## Left out

- `on_backup`, `try_to_checkpoint`, `try_to_upload`, `start_checkpointing`, `report_checkpointing`, `start_uploading`, `report_uploading`, `upload_completed` and `fill_response_unlock` are only declared in the header. The request handling they do is not modelled: comparing request ids, rejecting stale requests, preempting an older attempt and filling the response. Each lifecycle arrow is a method of its own, and these request paths would choose between them.
- `generate_checkpoint` and `set_backup_metadata_unlock`: the storage engine's checkpoint and the metadata (`_backup_metadata`) are foreign I/O, so the metadata field is not modelled.
- `upload_checkpoint`, `upload_file`, `upload_file_completed` and `write_file_to_blockfs` write to block storage, which is foreign I/O. Their only effect on the record is modelled: a task per file enters the map, and on completion it leaves the map and its size is credited to the counter.
- `calc_upload_progress` is only declared, so its arithmetic is not modelled.
- `background_clear_backup_checkpoint` and `clear_backup_checkpoint` delete directories. The model records only the request, in `clearRequests`. `clear_context` is only declared; the model resets to the constructor's values.
- `cleanup_backup_task`, `tracker()`, `_checkpointing_task` and `_uploading_task` concern task scheduling, cancellation and draining. These are concurrency, so a task is only a handle in the per-file map.
- The locks (`zauto_read_lock`, `zauto_write_lock`, `zauto_lock`) are left out. Each accessor is one atomic sequential method.
- The errors recorded by `SetCheckpointErr` and `SetUploadErr` are not tied to the Error/Cancel arrow. The policy that reads them lives in the declared-only request handling.
- Base-class `failure_detector::end_ping` is not part of this model. Neither are the internals of `switch_master` or the stub's `on_meta_server_disconnected` / `on_meta_server_connected`. All of these calls are recorded as notices.
- `rpc_group_address` is not part of this model. The model takes its behaviour from rDSN:
  - `add` ignores an existing member;
  - `set_leader` of an invalid address unsets the leader;
  - `set_leader` of a non-member appends it to the group;
  - `next` is the cyclic successor, and is random for an invalid or non-member address;
  - `random_member` is any member, and invalid for an empty group.
  The random picks are the `choice` parameter. The assertion that an added address is IPv4 is not modelled.
- `utils::filesystem::path_combine` is not part of this model. It is modelled as the directory, one `/` and the name, or the name alone for an empty directory. Path normalisation is not modelled.
- `pegasus/client_test.go` is a concurrent integration test of the network client, so it is not modelled.
