/** The identities and values every other module speaks: layer, branch and producer ids, PIDs, cells,
    records and events (crates/borg-core/src/{ids,pid,cell,value}.rs). */
module Core {
  datatype Option<+T> = None | Some(value: T)

  datatype Result<+T, +E> = Ok(value: T) | Err(error: E)

  type u32 = x: int | 0 <= x < 0x1_0000_0000
  type u64 = x: int | 0 <= x < 0x1_0000_0000_0000_0000
  type Byte = x: int | 0 <= x < 256

  // Layer ids are registry-unique and monotonic; 0 means "no layer yet".
  type LayerId = nat
  type BranchId = nat
  type EventId = nat
  type ProducerId = nat
  type RepoId = nat

  // A def-version names the def layer that produced it.
  type DefVersion = nat

  // The version of a cell no declaration governs.
  const UNVERSIONED: DefVersion := 0

  datatype PidKind =
    | Object | List | Any | AnyObject | AnyArray | AnyNumber
    | String | Binary | BigInt

  datatype Pid =
    | Allocated(kind: PidKind, branch: u64, allocator: u32, counter: u64)
    | Content(kind: PidKind, hash: seq<Byte>)

  datatype BufferId =
    | ObjectBuffer(name: string)
    | ObjectProp(name: string, field: string)
    | ListBuffer(name: string)
    | ListElem(name: string)
    | AnyObjectBuffer
    | AnyArrayBuffer

  datatype CellKey =
    | Whole(pid: Pid)
    | Elem(pid: Pid, index: u64)

  datatype CellRef = CellRef(buffer: BufferId, key: CellKey) {
    function Pid(): Pid {
      key.pid
    }
  }

  // A record key: a cell at one def-version.
  datatype CellAt = CellAt(cell: CellRef, version: DefVersion)

  datatype Value =
    | Int(n: int)
    | Bool(b: bool)
    | Ref(pid: Pid)
    | Tombstone

  // The existence cell implied by a property cell; every other cell stands for itself.
  function ExistenceOf(cell: CellRef): CellRef {
    if cell.buffer.ObjectProp? then CellRef(ObjectBuffer(cell.buffer.name), Whole(cell.Pid())) else cell
  }

  // The cell that says whether the object of another exists, by what the two are made of.
  predicate IsObjectOf(entity: CellRef, cell: CellRef) {
    if cell.buffer.ObjectProp? then entity.buffer == ObjectBuffer(cell.buffer.name) && entity.key == Whole(cell.Pid())
    else entity == cell
  }

  datatype Author =
    | Source
    | Derived(producer: ProducerId, reflects: LayerId)

  datatype Derivation = Derivation(producer: ProducerId, freshAsOf: LayerId, readSet: seq<CellAt>)

  datatype Event = Event(
    id: EventId,
    at: CellAt,
    value: Value,
    derivation: Option<Derivation>,
    authored: LayerId)

  function Max(a: nat, b: nat): nat {
    if a < b then b else a
  }

  lemma Fewer(a: set<nat>, b: set<nat>)
    requires a <= b
    ensures |a| <= |b|
  {
    assert b == a + (b - a);
  }
}
