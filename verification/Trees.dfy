/** Trees on disk, what a snapshot records of them, and the archive's failure codes. */
module Trees {
  import opened Texts
  import opened TreeOrder

  type Bytes = seq<nat>

  datatype Identity = Identity(device: nat, inode: nat)

  /** What lstat reports; directory is the file type of the mode. */
  datatype Fact = Fact(id: Identity, directory: bool, mode: nat, uid: nat, gid: nat,
                       size: nat, mtime: int, ctime: int, links: nat)

  datatype Node = Node(fact: Fact, content: Bytes)

  type Tree = map<Path, Node>

  type Inventory = map<Path, Fact>

  function Snapshot(tree: Tree): Inventory {
    map p | p in tree :: tree[p].fact
  }

  /** Digest of every regular file. SHA-256 is taken to be injective, so a digest
      is the content itself. */
  function Hashes(tree: Tree): map<Path, Bytes> {
    map p | p in tree && !tree[p].fact.directory :: tree[p].content
  }

  /** The inventory up to the root's ctime, which a rename of the root changes. */
  function UpToRootTime(inventory: Inventory): Inventory {
    if [] in inventory then inventory[[] := inventory[[]].(ctime := 0)] else inventory
  }

  datatype Failure =
    | SourceDrift
    | TargetConflict
    | StagingConflict
    | CopyContentMismatch
    | TargetContentMismatch
    | TargetReceiptInvalid
    | DataReserveInsufficient
    | ProtectedBundle
    | ActiveHandle
    | HealthGateFailed
    | RetirementConflict
    | RetirementExtraEntry
    | RetirementDrift
    | SourceReappeared
    | OperationFailed
    | Killed

  datatype Outcome = Pass | Fail(error: Failure) {
    predicate IsFailure() {
      Fail?
    }

    function PropagateFailure(): Outcome
      requires Fail?
    {
      this
    }
  }
}
