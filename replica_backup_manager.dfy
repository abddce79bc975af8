/**
 * The state record of one replica's backup attempt (`replica_backup_manager`)
 * and one method per arrow of the lifecycle diagram.
 */
module ReplicaBackup {
  import opened ErrorCodes
  import opened BackupLifecycle
  import opened DecimalStrings
  import opened Paths

  newtype int64 = x: int | -0x8000_0000_0000_0000 <= x < 0x8000_0000_0000_0000
  newtype uint64 = x: int | 0 <= x < 0x1_0000_0000_0000_0000

  /** An outstanding asynchronous task (`task_ptr`), known only by a handle. */
  type TaskHandle = nat

  /** The local checkpoint directory `<backup_dir>/<backup_id>`. */
  function CheckpointDirOf(backupDir: string, backupId: int64): string {
    PathCombine(backupDir, Decimal(backupId as int))
  }

  /** Two attempts with different ids never share a local checkpoint directory. */
  lemma DistinctIdsDistinctDirs(backupDir: string, a: int64, b: int64)
    requires a != b
    ensures CheckpointDirOf(backupDir, a) != CheckpointDirOf(backupDir, b)
  {
    DecimalInjective(a as int, b as int);
    PathCombineInjective(backupDir, Decimal(a as int), Decimal(b as int));
  }

  class ReplicaBackupManager {
    /** The owning app's backup directory, `_replica->_app->backup_dir()`. */
    const backupDir: string

    var status: BackupStatus
    var backupId: int64
    var checkpointErr: ErrorCode
    var uploadErr: ErrorCode
    /** file name -> outstanding upload task: at most one task per file. */
    var uploadFilesTask: map<string, TaskHandle>
    /** The atomic counter of uploaded bytes. */
    var uploadFileSize: uint64
    /** Ids handed to the background clear of their checkpoint directory, oldest first. */
    var clearRequests: seq<int64>
    /** The statuses this attempt record has gone through. */
    ghost var history: seq<BackupStatus>

    ghost predicate Valid()
      reads this
    {
      && IsRun(history)
      && history[|history| - 1] == status
      && (status != Uploading ==> uploadFilesTask == map[])
      && (status == Uninitialized ==> backupId == 0)
    }

    /** The record as the constructor leaves it, and as every return to Invalid leaves it. */
    predicate IsInitial()
      reads this
    {
      && status == Uninitialized
      && backupId == 0
      && checkpointErr == ErrOk
      && uploadErr == ErrOk
      && uploadFilesTask == map[]
      && uploadFileSize == 0
    }

    constructor (backupDir: string)
      ensures Valid() && IsInitial()
      ensures this.backupDir == backupDir
      ensures clearRequests == [] && history == [Uninitialized]
    {
      this.backupDir := backupDir;
      status := Uninitialized;
      backupId := 0;
      checkpointErr := ErrOk;
      uploadErr := ErrOk;
      uploadFilesTask := map[];
      uploadFileSize := 0;
      clearRequests := [];
      history := [Uninitialized];
    }

    method GetLocalCheckpointDir() returns (dir: string)
      ensures dir == CheckpointDirOf(backupDir, backupId)
      ensures |dir| > |backupDir|
      ensures dir[..|backupDir|] == backupDir
    {
      dir := CheckpointDirOf(backupDir, backupId);
    }

    method GetBackupStatus() returns (s: BackupStatus)
      ensures s == status
    {
      s := status;
    }

    method SetCheckpointErr(ec: ErrorCode)
      requires Valid()
      modifies this`checkpointErr
      ensures Valid()
      ensures checkpointErr == ec
    {
      checkpointErr := ec;
    }

    method SetUploadErr(ec: ErrorCode)
      requires Valid()
      modifies this`uploadErr
      ensures Valid()
      ensures uploadErr == ec
    {
      uploadErr := ec;
    }

    /** Invalid -> Checkpoint: a new attempt for `id` starts from a clean record. */
    method StartCheckpointing(id: int64) returns (fired: bool)
      requires Valid()
      modifies this
      ensures Valid()
      ensures fired <==> Transition(old(status), Start).Some?
      ensures fired ==> && status == Checkpointing && backupId == id
                        && checkpointErr == ErrOk && uploadErr == ErrOk
                        && uploadFilesTask == map[] && uploadFileSize == 0
                        && history == old(history) + [Checkpointing]
      ensures !fired ==> && status == old(status) && backupId == old(backupId)
                         && checkpointErr == old(checkpointErr) && uploadErr == old(uploadErr)
                         && uploadFilesTask == old(uploadFilesTask) && uploadFileSize == old(uploadFileSize)
                         && history == old(history)
      ensures clearRequests == old(clearRequests)
    {
      fired := status == Uninitialized;
      if fired {
        RunExtends(history, Start);
        status, backupId := Checkpointing, id;
        checkpointErr, uploadErr := ErrOk, ErrOk;
        uploadFilesTask, uploadFileSize := map[], 0;
        history := history + [Checkpointing];
      }
    }

    /** Checkpoint -> Checkpointed. */
    method CheckpointCompleted() returns (fired: bool)
      requires Valid()
      modifies this`status, this`history
      ensures Valid()
      ensures fired <==> Transition(old(status), CheckpointDone).Some?
      ensures status == (if fired then Checkpointed else old(status))
      ensures history == (if fired then old(history) + [Checkpointed] else old(history))
    {
      fired := status == Checkpointing;
      if fired {
        RunExtends(history, CheckpointDone);
        status := Checkpointed;
        history := history + [Checkpointed];
      }
    }

    /** Checkpointed -> Uploading. */
    method StartUploading() returns (fired: bool)
      requires Valid()
      modifies this`status, this`history
      ensures Valid()
      ensures fired <==> Transition(old(status), UploadStart).Some?
      ensures status == (if fired then Uploading else old(status))
      ensures history == (if fired then old(history) + [Uploading] else old(history))
    {
      fired := status == Checkpointed;
      if fired {
        RunExtends(history, UploadStart);
        status := Uploading;
        history := history + [Uploading];
      }
    }

    /** Records the upload task of one file while Uploading; a file keeps at most one task. */
    method AddUploadTask(file: string, task: TaskHandle) returns (added: bool)
      requires Valid()
      modifies this`uploadFilesTask
      ensures Valid()
      ensures added <==> old(status) == Uploading
      ensures added ==> uploadFilesTask == old(uploadFilesTask)[file := task]
      ensures added ==> uploadFilesTask.Keys == old(uploadFilesTask).Keys + {file}
      ensures !added ==> uploadFilesTask == old(uploadFilesTask)
    {
      added := status == Uploading;
      if added {
        uploadFilesTask := uploadFilesTask[file := task];
      }
    }

    /**
     * One file's upload finished while Uploading: its task leaves the map and its
     * size is credited to the 64-bit counter (which wraps like `std::atomic<uint64_t>`).
     */
    method FileUploadCompleted(file: string, size: uint64) returns (completed: bool)
      requires Valid()
      modifies this`uploadFilesTask, this`uploadFileSize
      ensures Valid()
      ensures completed <==> old(status) == Uploading && file in old(uploadFilesTask)
      ensures completed ==> uploadFilesTask == old(uploadFilesTask) - {file}
      ensures completed ==> |uploadFilesTask| == |old(uploadFilesTask)| - 1
      ensures completed ==> uploadFileSize as int
                              == (old(uploadFileSize) as int + size as int) % 0x1_0000_0000_0000_0000
      ensures !completed ==> uploadFilesTask == old(uploadFilesTask) && uploadFileSize == old(uploadFileSize)
    {
      completed := status == Uploading && file in uploadFilesTask;
      if completed {
        uploadFilesTask := uploadFilesTask - {file};
        uploadFileSize := ((uploadFileSize as int + size as int) % 0x1_0000_0000_0000_0000) as uint64;
      }
    }

    /** Uploading -> Succeed, once no file upload is outstanding. */
    method UploadCompleted() returns (fired: bool)
      requires Valid()
      modifies this`status, this`history
      ensures Valid()
      ensures fired <==> Transition(old(status), UploadDone).Some? && old(uploadFilesTask) == map[]
      ensures status == (if fired then Succeed else old(status))
      ensures history == (if fired then old(history) + [Succeed] else old(history))
    {
      fired := status == Uploading && uploadFilesTask == map[];
      if fired {
        RunExtends(history, UploadDone);
        status := Succeed;
        history := history + [Succeed];
      }
    }

    /**
     * Hands the current checkpoint to the background clear and resets the record.
     * Safe to call again on a record that is already Invalid: the clear of a
     * directory that is gone is harmless, and the status stays Invalid.
     */
    method ClearContext()
      requires Valid()
      modifies this
      ensures Valid() && IsInitial()
      ensures clearRequests == old(clearRequests) + [old(backupId)]
      ensures history == if old(status) == Uninitialized then old(history) else old(history) + [Uninitialized]
    {
      clearRequests := clearRequests + [backupId];
      if status != Uninitialized {
        assert Edge(status, Uninitialized);
        history := history + [Uninitialized];
      }
      status, backupId := Uninitialized, 0;
      checkpointErr, uploadErr := ErrOk, ErrOk;
      uploadFilesTask, uploadFileSize := map[], 0;
    }

    /** Error/Cancel in Checkpoint, Checkpointed or Uploading: async clear, then Invalid. */
    method FailOrCancel() returns (fired: bool)
      requires Valid()
      modifies this
      ensures Valid()
      ensures fired <==> Transition(old(status), Event.Abort).Some?
      ensures fired ==> IsInitial() && clearRequests == old(clearRequests) + [old(backupId)]
                        && history == old(history) + [Uninitialized]
      ensures !fired ==> && status == old(status) && backupId == old(backupId)
                         && checkpointErr == old(checkpointErr) && uploadErr == old(uploadErr)
                         && uploadFilesTask == old(uploadFilesTask) && uploadFileSize == old(uploadFileSize)
                         && clearRequests == old(clearRequests) && history == old(history)
    {
      fired := InProgress(status);
      if fired {
        ClearContext();
      }
    }

    /** Succeed: async clear, then Invalid. */
    method ClearSucceeded() returns (fired: bool)
      requires Valid()
      modifies this
      ensures Valid()
      ensures fired <==> Transition(old(status), Clear).Some?
      ensures fired ==> IsInitial() && clearRequests == old(clearRequests) + [old(backupId)]
                        && history == old(history) + [Uninitialized]
      ensures !fired ==> && status == old(status) && backupId == old(backupId)
                         && checkpointErr == old(checkpointErr) && uploadErr == old(uploadErr)
                         && uploadFilesTask == old(uploadFilesTask) && uploadFileSize == old(uploadFileSize)
                         && clearRequests == old(clearRequests) && history == old(history)
    {
      fired := status == Succeed;
      if fired {
        ClearContext();
      }
    }
  }

  /** A record in the Uploading phase has passed Checkpoint and Checkpointed to get there. */
  lemma UploadingImpliesCheckpointed(m: ReplicaBackupManager)
    requires m.Valid() && m.status == Uploading
    ensures |m.history| >= 4
    ensures m.history[|m.history| - 4..] == [Uninitialized, Checkpointing, Checkpointed, Uploading]
  {
    var k := |m.history| - 1;
    UploadingAfterCheckpointed(m.history, k);
  }
}
