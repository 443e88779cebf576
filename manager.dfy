/**
 * AurieConfigManager: the live entry list, opening and closing files, the
 * flush-everything teardown, and the sixteen typed accessors that dereference
 * a handle into the list.
 *
 * The directory GetConfigDirectory resolves is an argument of Create and
 * OpenConfig (EmptyPath when resolution failed); the joining of that
 * directory with a file name is the function `join`, fixed at construction.
 */
module Manager {
  import opened Json
  import opened Files
  import opened Entries
  import opened Accessors

  type Filename = string

  /** Create: the manager can start exactly when the configuration directory resolves. */
  function Create(configDirectory: Path): (status: Status)
    ensures status == Success <==> configDirectory != EmptyPath
    ensures status != Success ==> status == AccessDenied
  {
    if configDirectory == EmptyPath then AccessDenied else Success
  }

  class ConfigManager {
    /** m_ConfigEntries, in insertion order. */
    var entries: seq<Node>
    /** The handle the next opened entry receives. */
    var nextHandle: Handle
    /** The files the manager reads on open and writes on close and destroy. */
    var disk: FileSystem
    /** image_path / Filename. */
    const join: (Path, Filename) -> Path
    const casts: NumericCasts

    ghost predicate Valid()
      reads this
    {
      NullHandle < nextHandle && HandlesValid(entries, nextHandle)
    }

    constructor (disk: FileSystem, join: (Path, Filename) -> Path, casts: NumericCasts)
      ensures Valid()
      ensures entries == [] && this.disk == disk && this.join == join && this.casts == casts
    {
      entries := [];
      nextHandle := 1;
      this.disk := disk;
      this.join := join;
      this.casts := casts;
    }

    /** The handle addresses an entry still in the list. */
    predicate Live(config: Handle)
      reads this
    {
      IndexOf(entries, config).Some?
    }

    function Slot(config: Handle): nat
      reads this
      requires Live(config)
    {
      IndexOf(entries, config).value
    }

    function Document(config: Handle): Json
      reads this
      requires Live(config)
    {
      entries[Slot(config)].entry.doc
    }

    function FilePath(config: Handle): Path
      reads this
      requires Live(config)
    {
      entries[Slot(config)].entry.path
    }

    // -------------------------------------------------------------------
    // Lifecycle.
    // -------------------------------------------------------------------

    /**
     * OpenConfig: resolve the path, create the file if it is missing, parse it
     * (null when that fails), and append a new entry; the handle addresses it.
     */
    method OpenConfig(configDirectory: Path, filename: Filename, prior: Handle) returns (status: Status, config: Handle)
      requires Valid()
      modifies this
      ensures Valid()
      ensures status == Success <==> configDirectory != EmptyPath && join(configDirectory, filename) !in old(disk).unprobeable
      ensures status != Success ==> status == if configDirectory == EmptyPath then ModuleInternalError else AccessDenied
      ensures status != Success ==>
        config == prior && entries == old(entries) && disk == old(disk) && nextHandle == old(nextHandle)
      ensures status == Success ==>
        var path := join(configDirectory, filename);
        && disk == Touch(old(disk), path)
        && config == old(nextHandle) && nextHandle == config + 1
        && entries == old(entries) + [Node(config, Entry(path, Load(disk, path)))]
        && Live(config) && FilePath(config) == path && Document(config) == Load(disk, path)
      ensures forall h :: old(Live(h)) ==>
        Live(h) && Document(h) == old(Document(h)) && FilePath(h) == old(FilePath(h))
    {
      if configDirectory == EmptyPath {
        return ModuleInternalError, prior;
      }
      var path := join(configDirectory, filename);
      if path in disk.unprobeable {
        return AccessDenied, prior;
      }
      disk := Touch(disk, path);
      var entry := Entry(path, Load(disk, path));
      config := nextHandle;
      ghost var before := entries;
      entries := entries + [Node(config, entry)];
      nextHandle := nextHandle + 1;
      status := Success;
      forall h ensures IndexOf(entries, h) ==
        if IndexOf(before, h).Some? then IndexOf(before, h) else if h == config then Some(|before|) else None
      {
        IndexOfAppend(before, Node(config, entry), h);
      }
    }

    /**
     * CloseConfig: write the handle's document to its path, then erase every
     * entry with that path, the other handles to it included.
     */
    method CloseConfig(config: Handle) returns (status: Status)
      requires Valid()
      requires config == NullHandle || Live(config)
      modifies this
      ensures Valid()
      ensures status == if config == NullHandle then InvalidParameter else Success
      ensures config == NullHandle ==> entries == old(entries) && disk == old(disk) && nextHandle == old(nextHandle)
      ensures config != NullHandle ==>
        && disk == Save(old(disk), old(FilePath(config)), old(Document(config)))
        && entries == EraseEqual(old(entries), old(entries[Slot(config)].entry))
        && nextHandle == old(nextHandle)
      ensures config != NullHandle ==>
        forall h :: Live(h) <==> old(Live(h)) && old(FilePath(h)) != old(FilePath(config))
      ensures forall h :: Live(h) ==>
        old(Live(h)) && Document(h) == old(Document(h)) && FilePath(h) == old(FilePath(h))
    {
      if config == NullHandle {
        return InvalidParameter;
      }
      var entry := entries[Slot(config)].entry;
      disk := Save(disk, entry.path, entry.doc);
      ghost var before := entries;
      entries := EraseEqual(entries, entry);
      EraseKeepsHandlesValid(before, entry, nextHandle);
      forall h ensures
        && (IndexOf(entries, h).Some? <==> IndexOf(before, h).Some? && !SameEntry(before[IndexOf(before, h).value].entry, entry))
        && (IndexOf(entries, h).Some? ==> entries[IndexOf(entries, h).value] == before[IndexOf(before, h).value])
      {
        EraseKeepsLookup(before, entry, nextHandle, h);
      }
      status := Success;
    }

    /** Destroy: save every entry in list order, then empty the list. */
    method Destroy()
      requires Valid()
      modifies this
      ensures Valid()
      ensures disk == SaveAll(old(disk), old(entries))
      ensures entries == [] && nextHandle == old(nextHandle)
    {
      var i := 0;
      while i < |entries|
        invariant 0 <= i <= |entries|
        invariant entries == old(entries) && nextHandle == old(nextHandle)
        invariant disk == SaveAll(old(disk), entries[..i])
      {
        assert entries[..i + 1][..i] == entries[..i];
        disk := Save(disk, entries[i].entry.path, entries[i].entry.doc);
        i := i + 1;
      }
      assert entries[..i] == entries;
      entries := [];
    }

    // -------------------------------------------------------------------
    // Typed reads: a null handle is rejected; otherwise the document-level
    // read decides the status, and the out-parameter changes only on success.
    // -------------------------------------------------------------------

    method ReadInteger(config: Handle, valueName: Key, prior: int64) returns (status: Status, value: int64)
      requires config == NullHandle || Live(config)
      ensures config == NullHandle ==> status == InvalidParameter && value == prior
      ensures config != NullHandle ==> (status, value) == Deliver(Accessors.ReadInteger(Document(config), valueName), prior)
      ensures status != Success ==> value == prior
    {
      if config == NullHandle {
        return InvalidParameter, prior;
      }
      var out := Deliver(Accessors.ReadInteger(Document(config), valueName), prior);
      status, value := out.0, out.1;
    }

    method ReadNumber(config: Handle, valueName: Key, prior: Float) returns (status: Status, value: Float)
      requires config == NullHandle || Live(config)
      ensures config == NullHandle ==> status == InvalidParameter && value == prior
      ensures config != NullHandle ==> (status, value) == Deliver(Accessors.ReadNumber(casts, Document(config), valueName), prior)
      ensures status != Success ==> value == prior
    {
      if config == NullHandle {
        return InvalidParameter, prior;
      }
      var out := Deliver(Accessors.ReadNumber(casts, Document(config), valueName), prior);
      status, value := out.0, out.1;
    }

    method ReadString(config: Handle, valueName: Key, prior: string) returns (status: Status, value: string)
      requires config == NullHandle || Live(config)
      ensures config == NullHandle ==> status == InvalidParameter && value == prior
      ensures config != NullHandle ==> (status, value) == Deliver(Accessors.ReadString(Document(config), valueName), prior)
      ensures status != Success ==> value == prior
    {
      if config == NullHandle {
        return InvalidParameter, prior;
      }
      var out := Deliver(Accessors.ReadString(Document(config), valueName), prior);
      status, value := out.0, out.1;
    }

    method ReadBoolean(config: Handle, valueName: Key, prior: bool) returns (status: Status, value: bool)
      requires config == NullHandle || Live(config)
      ensures config == NullHandle ==> status == InvalidParameter && value == prior
      ensures config != NullHandle ==> (status, value) == Deliver(Accessors.ReadBoolean(Document(config), valueName), prior)
      ensures status != Success ==> value == prior
    {
      if config == NullHandle {
        return InvalidParameter, prior;
      }
      var out := Deliver(Accessors.ReadBoolean(Document(config), valueName), prior);
      status, value := out.0, out.1;
    }

    method ReadIntegerArray(config: Handle, valueName: Key, prior: seq<int64>) returns (status: Status, value: seq<int64>)
      requires config == NullHandle || Live(config)
      ensures config == NullHandle ==> status == InvalidParameter && value == prior
      ensures config != NullHandle ==> (status, value) == Deliver(Accessors.ReadIntegerArray(casts, Document(config), valueName), prior)
      ensures status != Success ==> value == prior
    {
      if config == NullHandle {
        return InvalidParameter, prior;
      }
      var out := Deliver(Accessors.ReadIntegerArray(casts, Document(config), valueName), prior);
      status, value := out.0, out.1;
    }

    method ReadNumberArray(config: Handle, valueName: Key, prior: seq<Float>) returns (status: Status, value: seq<Float>)
      requires config == NullHandle || Live(config)
      ensures config == NullHandle ==> status == InvalidParameter && value == prior
      ensures config != NullHandle ==> (status, value) == Deliver(Accessors.ReadNumberArray(casts, Document(config), valueName), prior)
      ensures status != Success ==> value == prior
    {
      if config == NullHandle {
        return InvalidParameter, prior;
      }
      var out := Deliver(Accessors.ReadNumberArray(casts, Document(config), valueName), prior);
      status, value := out.0, out.1;
    }

    method ReadStringArray(config: Handle, valueName: Key, prior: seq<string>) returns (status: Status, value: seq<string>)
      requires config == NullHandle || Live(config)
      ensures config == NullHandle ==> status == InvalidParameter && value == prior
      ensures config != NullHandle ==> (status, value) == Deliver(Accessors.ReadStringArray(Document(config), valueName), prior)
      ensures status != Success ==> value == prior
    {
      if config == NullHandle {
        return InvalidParameter, prior;
      }
      var out := Deliver(Accessors.ReadStringArray(Document(config), valueName), prior);
      status, value := out.0, out.1;
    }

    method ReadBooleanArray(config: Handle, valueName: Key, prior: seq<bool>) returns (status: Status, value: seq<bool>)
      requires config == NullHandle || Live(config)
      ensures config == NullHandle ==> status == InvalidParameter && value == prior
      ensures config != NullHandle ==> (status, value) == Deliver(Accessors.ReadBooleanArray(Document(config), valueName), prior)
      ensures status != Success ==> value == prior
    {
      if config == NullHandle {
        return InvalidParameter, prior;
      }
      var out := Deliver(Accessors.ReadBooleanArray(Document(config), valueName), prior);
      status, value := out.0, out.1;
    }

    // -------------------------------------------------------------------
    // Typed writes: a null handle is rejected; otherwise the key is set in
    // place in the handle's document, whatever it held before, and nothing
    // reaches the disk.
    // -------------------------------------------------------------------

    /** m_JsonObject[ValueName] = Value, shared by the eight writes. */
    method Assign(config: Handle, valueName: Key, value: Json) returns (status: Status)
      requires Valid()
      requires config == NullHandle || (Live(config) && Writable(Document(config)))
      modifies this
      ensures Valid()
      ensures status == if config == NullHandle then InvalidParameter else Success
      ensures disk == old(disk) && nextHandle == old(nextHandle)
      ensures config == NullHandle ==> entries == old(entries)
      ensures config != NullHandle ==>
        entries == WithDocument(old(entries), old(Slot(config)), Put(old(Document(config)), valueName, value))
    {
      if config == NullHandle {
        return InvalidParameter;
      }
      entries := WithDocument(entries, Slot(config), Put(Document(config), valueName, value));
      status := Success;
    }

    method WriteInteger(config: Handle, valueName: Key, value: int64) returns (status: Status)
      requires Valid()
      requires config == NullHandle || (Live(config) && Writable(Document(config)))
      modifies this
      ensures Valid()
      ensures status == if config == NullHandle then InvalidParameter else Success
      ensures disk == old(disk) && nextHandle == old(nextHandle)
      ensures config == NullHandle ==> entries == old(entries)
      ensures config != NullHandle ==>
        entries == WithDocument(old(entries), old(Slot(config)), Put(old(Document(config)), valueName, Int(value)))
    {
      status := Assign(config, valueName, Int(value));
    }

    method WriteNumber(config: Handle, valueName: Key, value: Float) returns (status: Status)
      requires Valid()
      requires config == NullHandle || (Live(config) && Writable(Document(config)))
      modifies this
      ensures Valid()
      ensures status == if config == NullHandle then InvalidParameter else Success
      ensures disk == old(disk) && nextHandle == old(nextHandle)
      ensures config == NullHandle ==> entries == old(entries)
      ensures config != NullHandle ==>
        entries == WithDocument(old(entries), old(Slot(config)), Put(old(Document(config)), valueName, Real(value)))
    {
      status := Assign(config, valueName, Real(value));
    }

    method WriteString(config: Handle, valueName: Key, value: string) returns (status: Status)
      requires Valid()
      requires config == NullHandle || (Live(config) && Writable(Document(config)))
      modifies this
      ensures Valid()
      ensures status == if config == NullHandle then InvalidParameter else Success
      ensures disk == old(disk) && nextHandle == old(nextHandle)
      ensures config == NullHandle ==> entries == old(entries)
      ensures config != NullHandle ==>
        entries == WithDocument(old(entries), old(Slot(config)), Put(old(Document(config)), valueName, Str(value)))
    {
      status := Assign(config, valueName, Str(value));
    }

    method WriteBoolean(config: Handle, valueName: Key, value: bool) returns (status: Status)
      requires Valid()
      requires config == NullHandle || (Live(config) && Writable(Document(config)))
      modifies this
      ensures Valid()
      ensures status == if config == NullHandle then InvalidParameter else Success
      ensures disk == old(disk) && nextHandle == old(nextHandle)
      ensures config == NullHandle ==> entries == old(entries)
      ensures config != NullHandle ==>
        entries == WithDocument(old(entries), old(Slot(config)), Put(old(Document(config)), valueName, Bool(value)))
    {
      status := Assign(config, valueName, Bool(value));
    }

    method WriteIntegerArray(config: Handle, valueName: Key, value: seq<int64>) returns (status: Status)
      requires Valid()
      requires config == NullHandle || (Live(config) && Writable(Document(config)))
      modifies this
      ensures Valid()
      ensures status == if config == NullHandle then InvalidParameter else Success
      ensures disk == old(disk) && nextHandle == old(nextHandle)
      ensures config == NullHandle ==> entries == old(entries)
      ensures config != NullHandle ==>
        entries == WithDocument(old(entries), old(Slot(config)), Put(old(Document(config)), valueName, IntegerArrayJson(value)))
    {
      status := Assign(config, valueName, IntegerArrayJson(value));
    }

    method WriteNumberArray(config: Handle, valueName: Key, value: seq<Float>) returns (status: Status)
      requires Valid()
      requires config == NullHandle || (Live(config) && Writable(Document(config)))
      modifies this
      ensures Valid()
      ensures status == if config == NullHandle then InvalidParameter else Success
      ensures disk == old(disk) && nextHandle == old(nextHandle)
      ensures config == NullHandle ==> entries == old(entries)
      ensures config != NullHandle ==>
        entries == WithDocument(old(entries), old(Slot(config)), Put(old(Document(config)), valueName, NumberArrayJson(value)))
    {
      status := Assign(config, valueName, NumberArrayJson(value));
    }

    method WriteStringArray(config: Handle, valueName: Key, value: seq<string>) returns (status: Status)
      requires Valid()
      requires config == NullHandle || (Live(config) && Writable(Document(config)))
      modifies this
      ensures Valid()
      ensures status == if config == NullHandle then InvalidParameter else Success
      ensures disk == old(disk) && nextHandle == old(nextHandle)
      ensures config == NullHandle ==> entries == old(entries)
      ensures config != NullHandle ==>
        entries == WithDocument(old(entries), old(Slot(config)), Put(old(Document(config)), valueName, StringArrayJson(value)))
    {
      status := Assign(config, valueName, StringArrayJson(value));
    }

    /** WriteBooleanArray takes a vector of strings, and stores an array of strings. */
    method WriteBooleanArray(config: Handle, valueName: Key, value: seq<string>) returns (status: Status)
      requires Valid()
      requires config == NullHandle || (Live(config) && Writable(Document(config)))
      modifies this
      ensures Valid()
      ensures status == if config == NullHandle then InvalidParameter else Success
      ensures disk == old(disk) && nextHandle == old(nextHandle)
      ensures config == NullHandle ==> entries == old(entries)
      ensures config != NullHandle ==>
        entries == WithDocument(old(entries), old(Slot(config)), Put(old(Document(config)), valueName, StringArrayJson(value)))
    {
      status := Assign(config, valueName, StringArrayJson(value));
    }
  }
}
