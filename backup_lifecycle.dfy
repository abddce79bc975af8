/**
 * The replica backup lifecycle: the five values of `backup_status` and the
 * arrows of the lifecycle diagram, first as an event-labelled transition
 * function and then as a plain relation between statuses.
 */
module BackupLifecycle {

  /** The result of a transition: None when the diagram has no such arrow. */
  datatype Option<+T> = None | Some(value: T)

  datatype BackupStatus = Uninitialized | Checkpointing | Checkpointed | Uploading | Succeed

  /** The labels on the diagram's arrows. */
  datatype Event =
    | Start           // Invalid -> Checkpoint
    | CheckpointDone  // Checkpoint -> Checkpointed
    | UploadStart     // Checkpointed -> Uploading
    | UploadDone      // Uploading -> Succeed
    | Abort           // Error/Cancel: a middle phase -> async clear -> Invalid
    | Clear           // Succeed -> async clear -> Invalid

  /** The phases that have an Error/Cancel arrow. */
  predicate InProgress(s: BackupStatus) {
    s == Checkpointing || s == Checkpointed || s == Uploading
  }

  /** The status an event leads to, or None when the diagram has no such arrow. */
  function Transition(s: BackupStatus, e: Event): (r: Option<BackupStatus>)
    ensures r.Some? ==> Edge(s, r.value)
    ensures r.Some? && r.value != Uninitialized ==> Rank(r.value) == Rank(s) + 1
  {
    match e
    case Start => if s == Uninitialized then Some(Checkpointing) else None
    case CheckpointDone => if s == Checkpointing then Some(Checkpointed) else None
    case UploadStart => if s == Checkpointed then Some(Uploading) else None
    case UploadDone => if s == Uploading then Some(Succeed) else None
    case Abort => if InProgress(s) then Some(Uninitialized) else None
    case Clear => if s == Succeed then Some(Uninitialized) else None
  }

  /** The diagram read as a relation: `b` is drawn directly below or beside `a`. */
  predicate Edge(a: BackupStatus, b: BackupStatus) {
    match a
    case Uninitialized => b == Checkpointing
    case Checkpointing => b == Checkpointed || b == Uninitialized
    case Checkpointed => b == Uploading || b == Uninitialized
    case Uploading => b == Succeed || b == Uninitialized
    case Succeed => b == Uninitialized
  }

  /** The one forward path, Invalid -> Checkpoint -> Checkpointed -> Uploading -> Succeed. */
  const ForwardPath: seq<BackupStatus> := [Uninitialized, Checkpointing, Checkpointed, Uploading, Succeed]

  /** Position of a status on the forward path. */
  function Rank(s: BackupStatus): (r: nat)
    ensures r < |ForwardPath| && ForwardPath[r] == s
  {
    match s
    case Uninitialized => 0
    case Checkpointing => 1
    case Checkpointed => 2
    case Uploading => 3
    case Succeed => 4
  }

  /** A history of statuses that starts at Invalid and follows the diagram's arrows. */
  ghost predicate IsRun(h: seq<BackupStatus>) {
    && |h| > 0
    && h[0] == Uninitialized
    && forall i :: 0 < i < |h| ==> Edge(h[i - 1], h[i])
  }

  /** Every arrow carries some event label, and every labelled transition is an arrow. */
  lemma EdgeIffTransition(a: BackupStatus, b: BackupStatus)
    ensures Edge(a, b) <==> exists e :: Transition(a, e) == Some(b)
  {
    if Edge(a, b) {
      match a
      case Uninitialized => assert Transition(a, Start) == Some(b);
      case Checkpointing =>
        if b == Checkpointed { assert Transition(a, CheckpointDone) == Some(b); }
        else { assert Transition(a, Abort) == Some(b); }
      case Checkpointed =>
        if b == Uploading { assert Transition(a, UploadStart) == Some(b); }
        else { assert Transition(a, Abort) == Some(b); }
      case Uploading =>
        if b == Succeed { assert Transition(a, UploadDone) == Some(b); }
        else { assert Transition(a, Abort) == Some(b); }
      case Succeed => assert Transition(a, Clear) == Some(b);
    }
  }

  /**
   * Error/Cancel leads back to Invalid exactly from the three middle phases;
   * Succeed has no error arrow and leaves only through the clear step.
   */
  lemma ReturnsToInvalid(s: BackupStatus, e: Event)
    ensures Transition(s, e) == Some(Uninitialized) <==>
              (e == Abort && InProgress(s)) || (e == Clear && s == Succeed)
  {
  }

  /** Each phase other than Invalid is entered from its predecessor on the forward path only. */
  lemma EnteredOnlyFromPredecessor(a: BackupStatus, b: BackupStatus)
    requires Edge(a, b) && b != Uninitialized
    ensures Rank(b) == Rank(a) + 1
  {
  }

  /** Appending the target of an arrow keeps a run a run. */
  lemma RunExtends(h: seq<BackupStatus>, e: Event)
    requires IsRun(h)
    requires Transition(h[|h| - 1], e).Some?
    ensures IsRun(h + [Transition(h[|h| - 1], e).value])
  {
    var b := Transition(h[|h| - 1], e).value;
    EdgeIffTransition(h[|h| - 1], b);
  }

  /**
   * No phase can be skipped: whenever a run is in a phase other than Invalid,
   * the statuses just before it are exactly the forward path up to that phase.
   */
  lemma {:induction false} NoPhaseSkipped(h: seq<BackupStatus>, k: nat)
    requires IsRun(h)
    requires k < |h|
    ensures Rank(h[k]) <= k
    ensures h[k - Rank(h[k])..k + 1] == ForwardPath[..Rank(h[k]) + 1]
    decreases k
  {
    if h[k] != Uninitialized {
      assert k > 0;
      EnteredOnlyFromPredecessor(h[k - 1], h[k]);
      NoPhaseSkipped(h, k - 1);
      assert h[k - Rank(h[k])..k + 1] == h[k - 1 - Rank(h[k - 1])..k] + [h[k]];
      assert ForwardPath[..Rank(h[k]) + 1] == ForwardPath[..Rank(h[k - 1]) + 1] + [h[k]];
    }
  }

  /** In particular, Uploading is never reached without passing Checkpointed. */
  lemma UploadingAfterCheckpointed(h: seq<BackupStatus>, k: nat)
    requires IsRun(h)
    requires k < |h| && h[k] == Uploading
    ensures k >= 3 && h[k - 1] == Checkpointed && h[k - 2] == Checkpointing && h[k - 3] == Uninitialized
  {
    NoPhaseSkipped(h, k);
    assert h[k - 3..k + 1] == ForwardPath[..4];
  }
}
