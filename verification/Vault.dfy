/** The local vault: a map kept in one encrypted file.  A ciphertext is the pair
    of the key it was made under and the map, so only that key reads it back;
    one write is atomic. */
module Vault {
  import opened Prelude

  /** Key derivation is injective: a digest names what it was taken of. */
  datatype FernetKey = Derived(masterKey: string)

  datatype File<+V> = NoFile | EmptyFile | Sealed(key: FernetKey, data: map<string, V>)

  datatype ReadResult<+T> = Ok(value: T) | VaultError

  /** The file, and the key that the running process reads it with. */
  datatype Disk<+V> = Disk(file: File<V>, key: FernetKey)

  datatype Op<+V> = Set(name: string, value: V) | Delete(name: string) | RotateMasterKey(masterKey: string)

  function Read<V>(d: Disk<V>): ReadResult<map<string, V>> {
    if !d.file.Sealed? then Ok(map[])
    else if d.file.key != d.key then VaultError
    else Ok(d.file.data)
  }

  function Write<V>(d: Disk<V>, data: map<string, V>): Disk<V> {
    d.(file := Sealed(d.key, data))
  }

  /** An operation that cannot read the file raises and changes nothing. */
  function Apply<V>(d: Disk<V>, op: Op<V>): Disk<V> {
    match Read(d)
    case VaultError => d
    case Ok(data) =>
      match op
      case Set(name, value) => Write(d, data[name := value])
      case Delete(name) => if name in data then Write(d, data - {name}) else d
      case RotateMasterKey(masterKey) => Write(d.(key := Derived(masterKey)), data)
  }

  class LocalVault<V> {
    var disk: Disk<V>

    ghost predicate Readable()
      reads this
    {
      Read(disk).Ok?
    }

    /** The map a reader sees. */
    ghost function Contents(): map<string, V>
      reads this
      requires Readable()
    {
      Read(disk).value
    }

    /** Opening creates the file when there is none, and never reads or writes one
        that exists, be it empty. */
    constructor (file: File<V>, masterKey: string)
      ensures file.NoFile? ==> disk == Write(Disk(NoFile, Derived(masterKey)), map[])
      ensures !file.NoFile? ==> disk == Disk(file, Derived(masterKey))
      ensures !file.Sealed? ==> Readable() && Contents() == map[]
      ensures file.Sealed? ==> (Readable() <==> file.key == Derived(masterKey))
    {
      disk := Disk(file, Derived(masterKey));
      if file.NoFile? {
        disk := Write(Disk(file, Derived(masterKey)), map[]);
      }
    }

    method Get(name: string) returns (r: ReadResult<Option<V>>)
      ensures !Readable() ==> r == VaultError
      ensures Readable() ==> r == Ok(if name in Contents() then Some(Contents()[name]) else None)
    {
      match Read(disk)
      case VaultError => r := VaultError;
      case Ok(data) => r := Ok(if name in data then Some(data[name]) else None);
    }

    method Set(name: string, value: V) returns (r: ReadResult<()>)
      modifies this
      ensures disk == Apply(old(disk), Op.Set(name, value))
      ensures r.Ok? <==> old(Readable())
      ensures r.Ok? ==> Readable() && Contents() == old(if Readable() then Contents() else map[])[name := value]
    {
      match Read(disk)
      case VaultError => r := VaultError;
      case Ok(data) =>
        data := data[name := value];
        disk := Write(disk, data);
        r := Ok(());
    }

    method Delete(name: string) returns (r: ReadResult<()>)
      modifies this
      ensures disk == Apply(old(disk), Op.Delete(name))
      ensures r.Ok? <==> old(Readable())
      ensures r.Ok? ==> Readable() && Contents() == old(if Readable() then Contents() else map[]) - {name}
    {
      match Read(disk)
      case VaultError => r := VaultError;
      case Ok(data) =>
        if name in data {
          data := data - {name};
          disk := Write(disk, data);
        }
        r := Ok(());
    }

    method RotateMasterKey(masterKey: string) returns (r: ReadResult<()>)
      modifies this
      ensures disk == Apply(old(disk), Op.RotateMasterKey(masterKey))
      ensures r.Ok? <==> old(Readable())
      ensures r.Ok? ==> Readable() && Contents() == old(if Readable() then Contents() else map[])
    {
      match Read(disk)
      case VaultError => r := VaultError;
      case Ok(data) =>
        disk := disk.(key := Derived(masterKey));
        disk := Write(disk, data);
        r := Ok(());
    }
  }

  // ---- A run of operations reads back as a plain map ----

  function ApplyAll<V>(d: Disk<V>, ops: seq<Op<V>>): Disk<V> {
    if ops == [] then d else Apply(ApplyAll(d, ops[..|ops|-1]), ops[|ops|-1])
  }

  /** What a plain dictionary would hold. */
  function PlainAll<V>(m: map<string, V>, ops: seq<Op<V>>): map<string, V> {
    if ops == [] then m
    else
      var earlier := PlainAll(m, ops[..|ops|-1]);
      match ops[|ops|-1]
      case Set(name, value) => earlier[name := value]
      case Delete(name) => earlier - {name}
      case RotateMasterKey(_) => earlier
  }

  /** Everything writes the file, except deleting a name that is not there. */
  predicate Writes<V>(m: map<string, V>, ops: seq<Op<V>>) {
    ops != [] &&
    var earlier, op := ops[..|ops|-1], ops[|ops|-1];
    Writes(m, earlier) || (op.Delete? ==> op.name in PlainAll(m, earlier))
  }

  function LastMasterKey<V>(initial: string, ops: seq<Op<V>>): string {
    if ops == [] then initial
    else if ops[|ops|-1].RotateMasterKey? then ops[|ops|-1].masterKey
    else LastMasterKey(initial, ops[..|ops|-1])
  }

  /** Any run of sets, deletes and master-key rotations on a file that can be read
      reads back as a plain map would.  A process that opens the file afterwards
      can read it exactly when it is given the last master key -- or any, while
      nothing has ever been written to an empty file. */
  lemma {:induction false} VaultIsPlainMap<V>(file: File<V>, masterKey: string, ops: seq<Op<V>>, reopened: string)
    requires Read(Disk(file, Derived(masterKey))).Ok?
    ensures var d0 := Disk(file, Derived(masterKey));
            var d := ApplyAll(d0, ops);
            && d.key == Derived(LastMasterKey(masterKey, ops))
            && Read(d) == Ok(PlainAll(Read(d0).value, ops))
            && (d.file.Sealed? <==> file.Sealed? || Writes(Read(d0).value, ops))
            && (Read(d.(key := Derived(reopened))).Ok? <==>
                  d.file.Sealed? ==> reopened == LastMasterKey(masterKey, ops))
  {
    if ops != [] {
      VaultIsPlainMap(file, masterKey, ops[..|ops|-1], reopened);
      var earlier := PlainAll(Read(Disk(file, Derived(masterKey))).value, ops[..|ops|-1]);
      var op := ops[|ops|-1];
      if op.Delete? && op.name !in earlier { assert earlier - {op.name} == earlier; }
    }
  }

  /** A file under another key is never changed, whatever is attempted. */
  lemma {:induction false} UnreadableIsLeftAlone<V>(d: Disk<V>, ops: seq<Op<V>>)
    requires Read(d) == VaultError
    ensures ApplyAll(d, ops) == d
  {
    if ops != [] {
      UnreadableIsLeftAlone(d, ops[..|ops|-1]);
    }
  }
}
