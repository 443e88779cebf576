/**
 * The manager's list of live configuration entries (a std::list), the
 * path-only equality of entries, and the three ways the list changes:
 * append on open, erase of every equal entry on close, save-all-then-clear
 * on destroy.
 *
 * A handle is the address of a list node. Here every node carries the
 * number it was issued under; a std::list never moves a surviving node, so
 * a handle is found again by that number.
 */
module Entries {
  import opened Json
  import opened Files

  type Handle = nat

  const NullHandle: Handle := 0

  /** AurieConfigEntry: the file's path and its in-memory document. */
  datatype Entry = Entry(path: Path, doc: Json)

  /** AurieConfigEntry::operator==: entries are equal when their paths are; documents are not compared. */
  predicate SameEntry(a: Entry, b: Entry) {
    a.path == b.path
  }

  /** A list node: the handle that addresses it and the entry it stores. */
  datatype Node = Node(handle: Handle, entry: Entry)

  /** Handles are non-null, below the next one to be issued, and increase along the list. */
  ghost predicate HandlesValid(nodes: seq<Node>, next: Handle) {
    && (forall i :: 0 <= i < |nodes| ==> NullHandle < nodes[i].handle < next)
    && (forall i, j :: 0 <= i < j < |nodes| ==> nodes[i].handle < nodes[j].handle)
  }

  // ---------------------------------------------------------------------
  // Entry equality.
  // ---------------------------------------------------------------------

  /** Equality of entries is an equivalence relation. */
  lemma SameEntryIsEquivalence()
    ensures forall a :: SameEntry(a, a)
    ensures forall a, b :: SameEntry(a, b) ==> SameEntry(b, a)
    ensures forall a, b, c :: SameEntry(a, b) && SameEntry(b, c) ==> SameEntry(a, c)
  {
  }

  /** Two entries for one path are equal, whatever their documents hold. */
  lemma SameEntryIgnoresDocument(path: Path, doc1: Json, doc2: Json)
    ensures SameEntry(Entry(path, doc1), Entry(path, doc2))
  {
  }

  // ---------------------------------------------------------------------
  // Finding a node by its handle.
  // ---------------------------------------------------------------------

  /** The position of the node a handle addresses, if that node is in the list. */
  function IndexOf(nodes: seq<Node>, h: Handle): (r: Option<nat>)
    ensures r.Some? ==> r.value < |nodes| && nodes[r.value].handle == h
    ensures r.None? ==> forall i :: 0 <= i < |nodes| ==> nodes[i].handle != h
  {
    if nodes == [] then None
    else if nodes[0].handle == h then Some(0)
    else match IndexOf(nodes[1..], h)
      case None => None
      case Some(k) => Some(k + 1)
  }

  /** Handles are unique, so a node's handle leads back to that node. */
  lemma IndexOfUnique(nodes: seq<Node>, next: Handle, i: nat)
    requires HandlesValid(nodes, next) && i < |nodes|
    ensures IndexOf(nodes, nodes[i].handle) == Some(i)
  {
  }

  /** Appending a node does not move the nodes already in the list. */
  lemma {:induction false} IndexOfAppend(nodes: seq<Node>, n: Node, h: Handle)
    ensures IndexOf(nodes + [n], h) ==
      if IndexOf(nodes, h).Some? then IndexOf(nodes, h)
      else if n.handle == h then Some(|nodes|)
      else None
  {
    if nodes != [] && nodes[0].handle != h {
      assert (nodes + [n])[1..] == nodes[1..] + [n];
      IndexOfAppend(nodes[1..], n, h);
    }
  }

  /** Lookup by handle sees only the handles, not what the nodes store. */
  lemma {:induction false} IndexOfSameHandles(nodes: seq<Node>, other: seq<Node>, h: Handle)
    requires |nodes| == |other|
    requires forall i :: 0 <= i < |nodes| ==> nodes[i].handle == other[i].handle
    ensures IndexOf(nodes, h) == IndexOf(other, h)
  {
    if nodes != [] {
      IndexOfSameHandles(nodes[1..], other[1..], h);
    }
  }

  // ---------------------------------------------------------------------
  // Writing a document in place.
  // ---------------------------------------------------------------------

  /** The list after the entry at position k has its document replaced; the node stays where it is. */
  function WithDocument(nodes: seq<Node>, k: nat, doc: Json): (r: seq<Node>)
    requires k < |nodes|
    ensures |r| == |nodes|
    ensures r[k] == Node(nodes[k].handle, Entry(nodes[k].entry.path, doc))
    ensures forall i :: 0 <= i < |nodes| && i != k ==> r[i] == nodes[i]
    ensures forall h :: IndexOf(r, h) == IndexOf(nodes, h)
    ensures forall next :: HandlesValid(nodes, next) ==> HandlesValid(r, next)
  {
    var r := nodes[k := Node(nodes[k].handle, Entry(nodes[k].entry.path, doc))];
    forall h ensures IndexOf(r, h) == IndexOf(nodes, h) {
      IndexOfSameHandles(r, nodes, h);
    }
    r
  }

  // ---------------------------------------------------------------------
  // Erasing on close: std::erase(list, entry) drops every equal entry.
  // ---------------------------------------------------------------------

  /** The list without every entry equal to e, the survivors in their order. */
  function EraseEqual(nodes: seq<Node>, e: Entry): (r: seq<Node>)
    ensures forall n :: n in r <==> n in nodes && !SameEntry(n.entry, e)
    ensures |r| <= |nodes|
  {
    if nodes == [] then []
    else if SameEntry(nodes[0].entry, e) then EraseEqual(nodes[1..], e)
    else [nodes[0]] + EraseEqual(nodes[1..], e)
  }

  /** Erasing keeps the handle invariant: survivors keep their handles and their order. */
  lemma {:induction false} EraseKeepsHandlesValid(nodes: seq<Node>, e: Entry, next: Handle)
    requires HandlesValid(nodes, next)
    ensures HandlesValid(EraseEqual(nodes, e), next)
  {
    if nodes != [] {
      EraseKeepsHandlesValid(nodes[1..], e, next);
      var rest := EraseEqual(nodes[1..], e);
      forall n | n in rest ensures nodes[0].handle < n.handle {
        var j :| 0 <= j < |nodes[1..]| && nodes[1..][j] == n;
        assert nodes[j + 1] == n;
      }
    }
  }

  /**
   * After erasing, a handle still addresses a node exactly when its node's
   * entry differs from e, and then it addresses the very same node.
   */
  lemma EraseKeepsLookup(nodes: seq<Node>, e: Entry, next: Handle, h: Handle)
    requires HandlesValid(nodes, next)
    ensures var r := EraseEqual(nodes, e);
      && (IndexOf(r, h).Some? <==> IndexOf(nodes, h).Some? && !SameEntry(nodes[IndexOf(nodes, h).value].entry, e))
      && (IndexOf(r, h).Some? ==> r[IndexOf(r, h).value] == nodes[IndexOf(nodes, h).value])
  {
  }

  // ---------------------------------------------------------------------
  // Saving on destroy: every entry in list order.
  // ---------------------------------------------------------------------

  /** The disk after saving every entry of the list, first to last. */
  function SaveAll(fs: FileSystem, nodes: seq<Node>): (r: FileSystem)
    ensures r.unprobeable == fs.unprobeable && r.unreadable == fs.unreadable && r.unwritable == fs.unwritable
    ensures forall q :: q in fs.unwritable || (forall i :: 0 <= i < |nodes| ==> nodes[i].entry.path != q) ==>
      FileAt(r, q) == FileAt(fs, q)
    ensures forall i :: 0 <= i < |nodes| && nodes[i].entry.path !in fs.unwritable ==>
      FileAt(r, nodes[i].entry.path).Some? && FileAt(r, nodes[i].entry.path).value.Document?
    decreases |nodes|
  {
    if nodes == [] then fs
    else
      var last := nodes[|nodes| - 1];
      Save(SaveAll(fs, nodes[..|nodes| - 1]), last.entry.path, last.entry.doc)
  }

  /** The document of the last entry in the list with the given path. */
  function LastDocument(nodes: seq<Node>, path: Path): Option<Json>
    decreases |nodes|
  {
    if nodes == [] then None
    else if nodes[|nodes| - 1].entry.path == path then Some(nodes[|nodes| - 1].entry.doc)
    else LastDocument(nodes[..|nodes| - 1], path)
  }

  /**
   * After saving the whole list, each writable path holds the document of the
   * last entry with that path; paths no entry has, or that cannot be written,
   * are as they were.
   */
  lemma {:induction false} SaveAllLastWins(fs: FileSystem, nodes: seq<Node>, path: Path)
    ensures SaveAll(fs, nodes).unprobeable == fs.unprobeable
    ensures SaveAll(fs, nodes).unreadable == fs.unreadable
    ensures SaveAll(fs, nodes).unwritable == fs.unwritable
    ensures path !in fs.unwritable && LastDocument(nodes, path).Some? ==>
      FileAt(SaveAll(fs, nodes), path) == Some(Document(LastDocument(nodes, path).value))
    ensures path in fs.unwritable || LastDocument(nodes, path).None? ==>
      FileAt(SaveAll(fs, nodes), path) == FileAt(fs, path)
    decreases |nodes|
  {
    if nodes != [] {
      SaveAllLastWins(fs, nodes[..|nodes| - 1], path);
    }
  }
}
