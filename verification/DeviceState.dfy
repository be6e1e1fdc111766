/** The device journal document: every field a transition can read or change. */
module DeviceState {
  import opened Bytes

  type Path = string
  type Key = nat
  type Epoch = nat

  /** A content digest. Equal digests mean equal contents: SHA-256 is treated as injective. */
  datatype Hash = Sha256(content: bytes)

  /** The lowercased, normalized identity of a path; the rules are the host's. */
  type Identity = Path -> Path

  datatype Precondition = Absent | Match(epoch: Epoch, rev: nat)

  datatype Action =
    | Put
    | Delete(dependsOn: Option<Key>)
    | Rename(to: Path, sourceHash: Option<Hash>)

  datatype OperationState = Queued | Sent | Resolved

  /** One durable mutation. Its payload reference is derived from its key. */
  datatype Operation = Operation(
    key: Key,
    action: Action,
    path: Path,
    precondition: Precondition,
    payloadHash: Hash,
    attempts: nat,
    retryAt: Option<nat>,
    state: OperationState)

  /** The last confirmed server revision of a path. */
  datatype Base = Live(rev: nat, hash: Hash) | Tombstone(rev: nat)

  datatype Change =
    | PutChange(sequence: nat, path: Path, epoch: Epoch, rev: nat, hash: Hash)
    | DeleteChange(sequence: nat, path: Path, epoch: Epoch, rev: nat)
    | RenameChange(sequence: nat, fromPath: Path, fromRev: nat, path: Path, epoch: Epoch, rev: nat, hash: Hash)

  datatype ApplyStep = Prepared | Named | Copied

  /** A durably named version that must be preserved under `path` before `source` may lose it. */
  datatype ConflictCopy = ConflictCopy(path: Path, source: Path, remote: bool, hash: Hash)

  datatype PendingApply = PendingApply(change: Change, step: ApplyStep, copies: seq<ConflictCopy>)

  datatype Attention = Attention(path: Path, reason: string, operation: Option<Operation>)

  /** An owner decision awaited for one observed local delete or rename. */
  datatype Confirmation = Confirmation(
    id: Key, path: Path, to: Option<Path>, epoch: Option<Epoch>, base: Option<Base>, staleReason: Option<string>)

  datatype State = State(
    epoch: Option<Epoch>,
    cursor: Option<nat>,
    pendingOps: seq<Operation>,
    base: map<Path, Base>,
    stale: set<Path>,
    pendingApply: Option<PendingApply>,
    expectedWrites: map<Path, Hash>,
    attention: seq<Attention>,
    confirmations: seq<Confirmation>)

  function FreshState(): State {
    State(None, None, [], map[], {}, None, map[], [], [])
  }

  /** The path identities an operation touches. */
  function Touches(id: Identity, op: Operation): set<Path> {
    {id(op.path)} + if op.action.Rename? then {id(op.action.to)} else {}
  }

  /** Two operations conflict when they touch a common path identity, at either end of a rename. */
  predicate Conflict(id: Identity, left: Operation, right: Operation) {
    Touches(id, left) * Touches(id, right) != {}
  }


  function RevOf(base: map<Path, Base>, path: Path): nat {
    if path in base then base[path].rev else 0
  }
}
