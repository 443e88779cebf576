/**
 * The filesystem as the configuration manager uses it, with the JSON text
 * format abstracted away: a file holds either a document or text that the
 * parser rejects (an empty file is such text).
 *
 * Three environment facts decide the error paths: the paths whose existence
 * check throws (fs::exists), the paths for which an input stream fails to
 * open, which std::ifstream reports to nobody, and the paths for which an
 * output stream fails to open, which std::ofstream reports to nobody.
 */
module Files {
  import opened Json

  type Path = string

  /** What GetConfigDirectory returns when it cannot resolve the directory. */
  const EmptyPath: Path := ""

  datatype FileContent = Unparsable | Document(doc: Json)

  datatype FileSystem = FileSystem(
    files: map<Path, FileContent>,
    unprobeable: set<Path>,   // fs::exists throws on these
    unreadable: set<Path>,    // std::ifstream fails to open these, silently
    unwritable: set<Path>)    // std::ofstream fails to open these, silently

  function FileAt(fs: FileSystem, path: Path): Option<FileContent> {
    if path in fs.files then Some(fs.files[path]) else None
  }

  /** Creating an empty file where none exists (the stream is opened and closed at once). */
  function Touch(fs: FileSystem, path: Path): (r: FileSystem)
    ensures r.unprobeable == fs.unprobeable && r.unreadable == fs.unreadable && r.unwritable == fs.unwritable
    ensures FileAt(r, path) ==
      if FileAt(fs, path).None? && path !in fs.unwritable then Some(Unparsable) else FileAt(fs, path)
    ensures forall q :: q != path ==> FileAt(r, q) == FileAt(fs, q)
  {
    if path in fs.files || path in fs.unwritable then fs
    else fs.(files := fs.files[path := Unparsable])
  }

  /**
   * Parsing the file; a missing file, an empty one, malformed text, or a
   * stream that failed to open (the parser then sees no input) all give null.
   */
  function Load(fs: FileSystem, path: Path): (doc: Json)
    ensures path !in fs.unreadable && FileAt(fs, path).Some? && FileAt(fs, path).value.Document? ==>
      doc == FileAt(fs, path).value.doc
    ensures !(path !in fs.unreadable && FileAt(fs, path).Some? && FileAt(fs, path).value.Document?) ==>
      doc == Null
  {
    if path in fs.unreadable then Null
    else match FileAt(fs, path)
      case Some(Document(d)) => d
      case _ => Null
  }

  /** SaveToFile: truncate and write the document; on an unwritable path nothing happens and nothing is reported. */
  function Save(fs: FileSystem, path: Path, doc: Json): (r: FileSystem)
    ensures r.unprobeable == fs.unprobeable && r.unreadable == fs.unreadable && r.unwritable == fs.unwritable
    ensures path !in fs.unwritable ==> FileAt(r, path) == Some(Document(doc))
    ensures path in fs.unwritable ==> r == fs
    ensures forall q :: q != path ==> FileAt(r, q) == FileAt(fs, q)
  {
    if path in fs.unwritable then fs
    else fs.(files := fs.files[path := Document(doc)])
  }

  /** A file that does not exist yet is created empty and opens as a null document. */
  lemma OpenMissingFile(fs: FileSystem, path: Path)
    requires FileAt(fs, path).None?
    ensures Load(Touch(fs, path), path) == Null
    ensures path !in fs.unwritable ==> FileAt(Touch(fs, path), path) == Some(Unparsable)
  {
  }

  /** Saving a document and opening the same path again gives back that document, where both streams open. */
  lemma SaveThenLoad(fs: FileSystem, path: Path, doc: Json)
    requires path !in fs.unwritable && path !in fs.unreadable
    ensures Load(Touch(Save(fs, path, doc), path), path) == doc
  {
  }
}
