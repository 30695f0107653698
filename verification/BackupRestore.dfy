/** The backup and restore part of ReinitializeDevice (Clauses 16.4 and 19.1). */
module BackupRestore {
  import opened Prelude

  datatype BackupState = Idle | PreparingForBackup | PreparingForRestore | PerformingABackup | PerformingARestore

  datatype DeviceStatus =
    | Operational | OperationalReadOnly | DownloadRequired | DownloadInProgress | NonOperational | BackupInProgress

  datatype Request =
    | Coldstart | Warmstart | StartBackup | EndBackup | StartRestore | EndRestore | AbortRestore | ActivateChanges

  datatype Refusal = PasswordFailure | InvalidState

  /** A request with the password it carries. */
  datatype Message = Message(request: Request, password: Option<string>)

  datatype Device = Device(status: DeviceStatus, backup: BackupState, restoredAt: Option<int>)

  predicate PasswordAccepted(configured: Option<string>, given: Option<string>) {
    configured == given
  }

  predicate Concerns(r: Request) {
    r == StartBackup || r == EndBackup || r == StartRestore || r == EndRestore || r == AbortRestore
  }

  predicate Enabled(b: BackupState, r: Request) {
    match r
    case StartBackup => b == Idle
    case EndBackup => b == PreparingForBackup || b == PerformingABackup
    case StartRestore => b == Idle
    case EndRestore => b == PreparingForRestore || b == PerformingARestore
    case AbortRestore => b == PreparingForRestore || b == PerformingARestore
    case _ => true
  }

  function Apply(d: Device, r: Request): Device {
    match r
    case StartBackup => d.(status := BackupInProgress, backup := PreparingForBackup)
    case EndBackup => d.(status := Operational, backup := Idle)
    case StartRestore => d.(status := DownloadInProgress, backup := PreparingForRestore)
    case EndRestore => Device(Operational, Idle, Some(0))
    case AbortRestore => d.(status := Operational, backup := Idle)
    case _ => d
  }

  predicate Accepts(configured: Option<string>, d: Device, m: Message) {
    PasswordAccepted(configured, m.password) && Enabled(d.backup, m.request)
  }

  class DeviceObject {
    const password: Option<string>
    var systemStatus: DeviceStatus
    var backupAndRestoreState: Option<BackupState>
    var lastRestoreTime: Option<int>

    ghost function Value(): Device
      reads this
    {
      Device(systemStatus, if backupAndRestoreState.Some? then backupAndRestoreState.value else Idle, lastRestoreTime)
    }

    constructor (configured: Option<string>)
      ensures password == configured && Value() == Device(Operational, Idle, None)
    {
      password := configured;
      systemStatus, backupAndRestoreState, lastRestoreTime := Operational, None, None;
    }

    /** Without a configured password a request must not carry one; otherwise they must be equal. */
    method ValidatePassword(given: Option<string>) returns (accepted: bool)
      ensures accepted <==>
              if password.Some? then given.Some? && given.value == password.value else given.None?
    {
      if password.Some? {
        if given.None? || given.value != password.value {
          return false;
        }
      } else if given.Some? {
        return false;
      }
      return true;
    }

    method HandleReinitializeDevice(m: Message) returns (outcome: Outcome<(), Refusal>)
      modifies this
      ensures outcome.Ok? <==> Accepts(password, old(Value()), m)
      ensures outcome == Failed(PasswordFailure) <==> m.password != password
      ensures outcome == Failed(InvalidState) <==> m.password == password && !Enabled(old(Value()).backup, m.request)
      ensures Value() == if outcome.Ok? then Apply(old(Value()), m.request) else old(Value())
    {
      var accepted := ValidatePassword(m.password);
      if !accepted {
        return Failed(PasswordFailure);
      }
      var brState := if backupAndRestoreState.Some? then backupAndRestoreState.value else Idle;
      if m.request == StartBackup {
        if brState != Idle {
          return Failed(InvalidState);
        }
        systemStatus := BackupInProgress;
        backupAndRestoreState := Some(PreparingForBackup);
      } else if m.request == EndBackup {
        if brState != PreparingForBackup && brState != PerformingABackup {
          return Failed(InvalidState);
        }
        systemStatus := Operational;
        backupAndRestoreState := Some(Idle);
      } else if m.request == StartRestore {
        if brState != Idle {
          return Failed(InvalidState);
        }
        systemStatus := DownloadInProgress;
        backupAndRestoreState := Some(PreparingForRestore);
      } else if m.request == EndRestore {
        if brState != PreparingForRestore && brState != PerformingARestore {
          return Failed(InvalidState);
        }
        systemStatus := Operational;
        backupAndRestoreState := Some(Idle);
        lastRestoreTime := Some(0);
      } else if m.request == AbortRestore {
        if brState != PreparingForRestore && brState != PerformingARestore {
          return Failed(InvalidState);
        }
        systemStatus := Operational;
        backupAndRestoreState := Some(Idle);
      }
      return Ok(());
    }
  }

  /** The states in which a request is out of place: a start needs IDLE, an end what it ends. */
  ghost predicate OutOfPlace(b: BackupState, r: Request) {
    || ((r.StartBackup? || r.StartRestore?) && !b.Idle?)
    || (r.EndBackup? && !b.PreparingForBackup? && !b.PerformingABackup?)
    || ((r.EndRestore? || r.AbortRestore?) && !b.PreparingForRestore? && !b.PerformingARestore?)
  }

  /** What a request that is accepted leaves, whatever the state it finds. */
  ghost predicate Leaves(d: Device, r: Request, d': Device) {
    && (d'.restoredAt == if r.EndRestore? then Some(0) else d.restoredAt)
    && (r.StartBackup? ==> d'.status.BackupInProgress? && d'.backup.PreparingForBackup?)
    && (r.StartRestore? ==> d'.status.DownloadInProgress? && d'.backup.PreparingForRestore?)
    && (r.EndBackup? || r.EndRestore? || r.AbortRestore? ==> d'.status.Operational? && d'.backup.Idle?)
    && (r.Coldstart? || r.Warmstart? || r.ActivateChanges? ==> d' == d)
  }

  /** A request is accepted with the right password and in its place, in all five states, and does what it should. */
  lemma RequestsExactly(configured: Option<string>, d: Device, m: Message)
    ensures Accepts(configured, d, m) <==> m.password == configured && !OutOfPlace(d.backup, m.request)
    ensures Enabled(d.backup, m.request) <==> !OutOfPlace(d.backup, m.request)
    ensures Leaves(d, m.request, Apply(d, m.request))
  {
  }

  // ---------------------------------------------------------------------
  // Runs of requests.
  // ---------------------------------------------------------------------

  function Run(configured: Option<string>, d: Device, ms: seq<Message>): Device
    decreases |ms|
  {
    if ms == [] then d
    else Run(configured, if Accepts(configured, d, ms[0]) then Apply(d, ms[0].request) else d, ms[1..])
  }

  /** The accepted backup and restore requests of a run, in order. */
  function Accepted(configured: Option<string>, d: Device, ms: seq<Message>): seq<Request>
    decreases |ms|
  {
    if ms == [] then []
    else if !Accepts(configured, d, ms[0]) then Accepted(configured, d, ms[1..])
    else (if Concerns(ms[0].request) then [ms[0].request] else [])
         + Accepted(configured, Apply(d, ms[0].request), ms[1..])
  }

  /** The prefixes of (START_BACKUP END_BACKUP | START_RESTORE (END_RESTORE | ABORT_RESTORE))*. */
  predicate Protocol(w: seq<Request>) {
    if |w| == 0 then true
    else if |w| == 1 then w[0] == StartBackup || w[0] == StartRestore
    else && ((w[0] == StartBackup && w[1] == EndBackup)
             || (w[0] == StartRestore && (w[1] == EndRestore || w[1] == AbortRestore)))
         && Protocol(w[2..])
  }

  ghost predicate StatusMatches(d: Device) {
    match d.backup
    case Idle => d.status == Operational
    case PreparingForBackup => d.status == BackupInProgress
    case PreparingForRestore => d.status == DownloadInProgress
    case _ => false
  }

  /** The word a device in the middle of a procedure still owes before it is a protocol word again. */
  ghost function Opening(d: Device): seq<Request> {
    if d.backup == PreparingForBackup then [StartBackup]
    else if d.backup == PreparingForRestore then [StartRestore]
    else []
  }

  /** An accepted backup or restore request takes the protocol one letter further. */
  lemma OneLetter(d: Device, r: Request, rest: seq<Request>)
    requires StatusMatches(d) && Enabled(d.backup, r) && Concerns(r)
    requires Protocol(Opening(Apply(d, r)) + rest)
    ensures StatusMatches(Apply(d, r))
    ensures Protocol(Opening(d) + ([r] + rest))
  {
    var word := Opening(d) + ([r] + rest);
    if d.backup == Idle {
      assert word == Opening(Apply(d, r)) + rest;
    } else {
      assert Opening(Apply(d, r)) + rest == rest;
      assert word[2..] == rest;
    }
  }

  lemma {:induction false} RunFollowsFrom(configured: Option<string>, d: Device, ms: seq<Message>)
    requires StatusMatches(d)
    ensures Protocol(Opening(d) + Accepted(configured, d, ms))
    ensures StatusMatches(Run(configured, d, ms))
    decreases |ms|
  {
    if ms == [] {
      assert Opening(d) + [] == Opening(d);
    } else if !Accepts(configured, d, ms[0]) {
      RunFollowsFrom(configured, d, ms[1..]);
    } else {
      var r, next := ms[0].request, Apply(d, ms[0].request);
      var rest := Accepted(configured, next, ms[1..]);
      if Concerns(r) {
        assert StatusMatches(next);
        RunFollowsFrom(configured, next, ms[1..]);
        OneLetter(d, r, rest);
      } else {
        RunFollowsFrom(configured, d, ms[1..]);
        assert Accepted(configured, d, ms) == [] + rest == rest;
      }
    }
  }

  /**
   * From IDLE, whatever requests arrive, the accepted ones form a protocol word and the system
   * status matches the backup state: OPERATIONAL exactly when IDLE.
   */
  lemma {:induction false} EveryRunFollowsProtocol(configured: Option<string>, d: Device, ms: seq<Message>)
    requires d.backup == Idle && d.status == Operational
    ensures Protocol(Accepted(configured, d, ms))
    ensures StatusMatches(Run(configured, d, ms))
    ensures Run(configured, d, ms).status == Operational <==> Run(configured, d, ms).backup == Idle
  {
    RunFollowsFrom(configured, d, ms);
    assert Opening(d) + Accepted(configured, d, ms) == Accepted(configured, d, ms);
  }

  ghost function WithPassword(configured: Option<string>, w: seq<Request>): seq<Message> {
    if w == [] then [] else [Message(w[0], configured)] + WithPassword(configured, w[1..])
  }

  /** A request that is allowed is accepted, with the right password, ahead of what follows it. */
  lemma AcceptedFirst(configured: Option<string>, d: Device, r: Request, w: seq<Request>)
    requires Enabled(d.backup, r) && Concerns(r)
    ensures Accepted(configured, d, WithPassword(configured, [r] + w)) ==
            [r] + Accepted(configured, Apply(d, r), WithPassword(configured, w))
  {
    assert ([r] + w)[1..] == w;
    var ms := WithPassword(configured, [r] + w);
    assert ms[1..] == WithPassword(configured, w);
  }

  /** Conversely every protocol word, sent with the right password, is accepted in full. */
  lemma {:induction false} EveryProtocolWordIsAccepted(configured: Option<string>, d: Device, w: seq<Request>)
    requires d.backup == Idle && Protocol(w)
    ensures Accepted(configured, d, WithPassword(configured, w)) == w
    decreases |w|
  {
    if w == [] {
    } else {
      assert w == [w[0]] + w[1..];
      AcceptedFirst(configured, d, w[0], w[1..]);
      if |w| >= 2 {
        var d1 := Apply(d, w[0]);
        assert w[1..] == [w[1]] + w[2..];
        AcceptedFirst(configured, d1, w[1], w[2..]);
        EveryProtocolWordIsAccepted(configured, Apply(d1, w[1]), w[2..]);
      }
    }
  }
}
