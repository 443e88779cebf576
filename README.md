# AurieConfigs configuration manager, in Dafny

This project models `AurieConfigManager`, the store of open JSON configuration
files that AurieConfigs offers to modules of the Aurie framework. The manager
keeps a `std::list` of live entries. Each entry is a file path plus an
in-memory JSON document. The manager offers these operations:

- `OpenConfig` resolves `<config directory>/<filename>`. It creates the file if it is missing, parses it, and appends an entry. It returns a handle, which is the address of that list node.
- `CloseConfig` saves the handle's document to its file. It then erases every entry whose path is equal, because entry equality compares only paths.
- `Destroy` saves every entry in list order and then clears the list.
- Sixteen typed accessors read or write one top-level key of a handle's document. Each returns `INVALID_PARAMETER`, `OBJECT_NOT_FOUND`, `NOT_IMPLEMENTED` or `SUCCESS`.

Modules:

- `Json` (json.dfy): the document kinds that the code relies on. It also has `contains`, `at`, `operator[]` assignment (`Put`), the per-element conversions of `get<T>` and the all-or-nothing extraction `get<std::vector<T>>`. Doubles are opaque 64-bit tokens. The integer/double casts are uninterpreted functions in a `NumericCasts` value.
- `Accessors` (accessors.dfy): the status codes and the eight reads as functions over a document. It also holds the values that the eight writes store, and the lemmas relating writes to reads.
- `Files` (files.dfy): the disk, with the text format abstracted away. A file holds either a document or text that does not parse (an empty file is such text). `Load`, `Save` and `Touch` model parsing, `SaveToFile` and creating an empty file. The disk also records the paths whose existence check throws, whose input stream fails to open, and whose output stream fails to open.
- `Entries` (entries.dfy): `AurieConfigEntry` and its path-only `operator==`. It also has list nodes tagged with their handle, lookup by handle, `std::erase` of equal entries, and save-all-in-order.
- `Manager` (manager.dfy): the `ConfigManager` class. Its fields are `entries` (m_ConfigEntries), the disk, the next handle number, the path-join function and `casts`, the uninterpreted integer/double conversions. It has `Create` and the lifecycle and accessor methods.
- `Scenario` (scenario.dfy): a client run. It opens a new file, writes two keys, closes it, reopens it and reads the keys back.

Behaviour of the code that a reader of the interface alone might not expect, and that the model keeps:

- `ReadNumber` accepts integer values (`is_number()`, Interface.cpp:182), so an integer written by `WriteInteger` reads back as a number with `SUCCESS`.
- `WriteBooleanArray` takes and stores a vector of strings. So it round-trips through `ReadStringArray`. `ReadBooleanArray` fails on what it stores, unless the vector is empty.
- `CloseConfig` erases every entry whose path equals the closed one (`std::erase` at Interface.cpp:137 with the path-only `operator==` of Interface.hpp:12-15). This includes entries opened through other handles.
- An unparsable or new file gives a JSON `null` document, not an empty object. The reads treat both alike: `contains` is false on each. A write turns `null` into an object.
- Only an exception from `fs::exists` gives `ACCESS_DENIED`. Failing to open an input or output stream is silent. An existing file whose input stream does not open (Interface.cpp:108) parses as no input, so it opens with a `null` document, and a later `CloseConfig` on a writable path overwrites what the file held. Creating a file may therefore fail unreported, and the entry is then opened with a `null` document. Saving may also fail unreported, and `CloseConfig` still reports `SUCCESS`.

## Model

| member | source | states |
|---|---|---|
| `Json.Put` | AurieConfigs/source/Interface/Interface.cpp:311 | `doc[key] = v` on a null or object document gives an object where `key` holds `v` and every other key is present and equal exactly as before |
| `Json.ToInt64` | AurieConfigs/source/Interface/Interface.cpp:163 | an unsigned value read through `get<int64_t>` is congruent to it modulo 2^64, and unchanged below 2^63 |
| `Json.ExtractAll` | AurieConfigs/source/Interface/Interface.cpp:229-236 | `get<std::vector<T>>` succeeds exactly when every element converts, and then yields each element's conversion in order and with the same length |
| `Accessors.ReadInteger` | AurieConfigs/source/Interface/Interface.cpp:156-164 | an absent key gives `OBJECT_NOT_FOUND`; a present key succeeds exactly when its value is a signed or unsigned integer, and otherwise gives `NOT_IMPLEMENTED`; the value delivered is the stored integer (an unsigned one converted to int64) |
| `Accessors.ReadNumber` | AurieConfigs/source/Interface/Interface.cpp:178-186 | an absent key gives `OBJECT_NOT_FOUND`; a present key succeeds exactly when its value is a number of any kind, integers included, and otherwise gives `NOT_IMPLEMENTED`; the value delivered is the stored number as a double |
| `Accessors.ReadString` | AurieConfigs/source/Interface/Interface.cpp:200-208 | an absent key gives `OBJECT_NOT_FOUND`; a present key succeeds exactly when its value is a string, which is delivered, and otherwise gives `NOT_IMPLEMENTED` |
| `Accessors.ReadBoolean` | AurieConfigs/source/Interface/Interface.cpp:402-410 | an absent key gives `OBJECT_NOT_FOUND`; a present key succeeds exactly when its value is a boolean, which is delivered, and otherwise gives `NOT_IMPLEMENTED` |
| `Accessors.ReadArray` | AurieConfigs/source/Interface/Interface.cpp:222-238 | an absent key gives `OBJECT_NOT_FOUND` and a non-array gives `NOT_IMPLEMENTED`; an array read succeeds exactly when every element converts, delivering exactly the element-wise extraction of the stored array, and otherwise gives `NOT_IMPLEMENTED` |
| `Accessors.ReadIntegerArray` | AurieConfigs/source/Interface/Interface.cpp:211-239 | an absent key gives `OBJECT_NOT_FOUND`; a present key succeeds exactly when its value is an array of numbers only, and then delivers each element converted to int64 in order |
| `Accessors.ReadNumberArray` | AurieConfigs/source/Interface/Interface.cpp:241-269 | an absent key gives `OBJECT_NOT_FOUND`; a present key succeeds exactly when its value is an array of numbers only, and then delivers each element converted to a double in order |
| `Accessors.ReadStringArray` | AurieConfigs/source/Interface/Interface.cpp:271-299 | an absent key gives `OBJECT_NOT_FOUND`; a present key succeeds exactly when its value is an array of strings only, and then delivers those strings in order |
| `Accessors.ReadBooleanArray` | AurieConfigs/source/Interface/Interface.cpp:413-441 | an absent key gives `OBJECT_NOT_FOUND`; a present key succeeds exactly when its value is an array of booleans only, and then delivers those booleans in order |
| `Accessors.AbsentKeyNotFound` | AurieConfigs/source/Interface/Interface.cpp:156-157 | all eight reads of a key the document lacks give `OBJECT_NOT_FOUND` |
| `Accessors.ScalarReadsCheckKind` | AurieConfigs/source/Interface/Interface.cpp:160-161 | for a present key, `ReadInteger` succeeds iff the value is a signed or unsigned integer, `ReadNumber` iff it is any number, `ReadString` iff a string, and `ReadBoolean` iff a boolean; otherwise each gives `NOT_IMPLEMENTED` |
| `Accessors.ReadIntegerOfUnsigned` | AurieConfigs/source/Interface/Interface.cpp:160-163 | an unsigned integer is accepted by `ReadInteger` and delivered modulo 2^64 |
| `Accessors.ArrayReadAllOrNothing` | AurieConfigs/source/Interface/Interface.cpp:226-238 | for a present key, an array read succeeds iff the value is an array whose every element converts, and then delivers all converted elements in order; otherwise it gives `NOT_IMPLEMENTED` |
| `Accessors.WriteReadInteger` | AurieConfigs/source/Interface/Interface.cpp:311 | `WriteInteger` then `ReadInteger` on the same key returns the value written |
| `Accessors.WriteReadNumber` | AurieConfigs/source/Interface/Interface.cpp:326 | `WriteNumber` then `ReadNumber` returns the double written |
| `Accessors.WriteReadString` | AurieConfigs/source/Interface/Interface.cpp:341 | `WriteString` then `ReadString` returns the string written |
| `Accessors.WriteReadBoolean` | AurieConfigs/source/Interface/Interface.cpp:453 | `WriteBoolean` then `ReadBoolean` returns the boolean written |
| `Accessors.WriteIntegerReadNumber` | AurieConfigs/source/Interface/Interface.cpp:182-185 | an integer written is read by `ReadNumber` with success, as the library's conversion of it to a double |
| `Accessors.WriteNumberReadInteger` | AurieConfigs/source/Interface/Interface.cpp:160-161 | a double written is refused by `ReadInteger` with `NOT_IMPLEMENTED` |
| `Accessors.WriteReadIntegerArray` | AurieConfigs/source/Interface/Interface.cpp:356 | `WriteIntegerArray` then `ReadIntegerArray` returns the vector written |
| `Accessors.WriteReadNumberArray` | AurieConfigs/source/Interface/Interface.cpp:371 | `WriteNumberArray` then `ReadNumberArray` returns the vector written |
| `Accessors.WriteReadStringArray` | AurieConfigs/source/Interface/Interface.cpp:386 | `WriteStringArray` then `ReadStringArray` returns the vector written |
| `Accessors.WriteBooleanArrayReads` | AurieConfigs/source/Interface/Interface.cpp:458-471 | what `WriteBooleanArray` stores reads back through `ReadStringArray` as the strings written; `ReadBooleanArray` on it succeeds only for the empty vector and otherwise gives `NOT_IMPLEMENTED` |
| `Files.Touch` | AurieConfigs/source/Interface/Interface.cpp:95-100 | a missing file on a writable path becomes an empty (unparsable) file; an existing file, an unwritable path and every other path are left alone |
| `Files.Load` | AurieConfigs/source/Interface/Interface.cpp:108-118 | a readable file holding a document loads as exactly that document; a missing file, one that does not parse, or one whose input stream does not open loads as null |
| `Files.Save` | AurieConfigs/source/Interface/Interface.cpp:37-43 | saving makes the file hold the document, changes no other file, and on an unwritable path changes nothing at all |
| `Files.OpenMissingFile` | AurieConfigs/source/Interface/Interface.cpp:95-118 | a file that does not exist opens as a null document, and is created empty where the path is writable |
| `Files.SaveThenLoad` | AurieConfigs/source/Interface/Interface.cpp:108-135 | a document saved to a path that is both writable and readable is the document the next open of that path loads |
| `Entries.SameEntryIsEquivalence` | AurieConfigs/source/Interface/Interface.hpp:12-15 | entry equality is reflexive, symmetric and transitive |
| `Entries.SameEntry` | AurieConfigs/source/Interface/Interface.hpp:12-15 | two entries are equal exactly when their paths are equal; their documents are not compared |
| `Entries.SameEntryIgnoresDocument` | AurieConfigs/source/Interface/Interface.hpp:12-15 | two entries with one path are equal, whatever their documents |
| `Entries.IndexOf` | AurieConfigs/source/Interface/Interface.cpp:132 | the position found for a handle holds that handle, and no position is found only when no node has it |
| `Entries.IndexOfUnique` | AurieConfigs/source/Interface/Interface.hpp:21 | under the handle invariant a node's handle leads back to exactly that node |
| `Entries.IndexOfAppend` | AurieConfigs/source/Interface/Interface.cpp:120 | appending a node leaves the position of every existing handle unchanged, and the new handle is found at the end |
| `Entries.WithDocument` | AurieConfigs/source/Interface/Interface.cpp:311 | writing a document in place changes that node's document only: the same length, handles, paths and lookup results, and the other nodes are unchanged |
| `Entries.EraseEqual` | AurieConfigs/source/Interface/Interface.cpp:137-140 | a node survives the erase exactly when it was in the list and its path differs from the erased entry's |
| `Entries.EraseKeepsHandlesValid` | AurieConfigs/source/Interface/Interface.cpp:137-140 | erasing keeps handles non-null, below the next one, and increasing along the list |
| `Entries.EraseKeepsLookup` | AurieConfigs/source/Interface/Interface.hpp:21 | after erasing, a handle still finds a node exactly when its entry's path differed from the erased path, and it finds the very same node |
| `Entries.SaveAll` | AurieConfigs/source/Interface/Interface.cpp:57-61 | saving the list first to last changes none of the environment sets, leaves every unwritable path and every path no entry has untouched, and leaves each writable entry path holding a document |
| `Entries.SaveAllLastWins` | AurieConfigs/source/Interface/Interface.cpp:57-61 | after saving the list in order, each writable path holds the document of the last entry with that path; other paths are untouched |
| `Manager.Create` | AurieConfigs/source/Interface/Interface.cpp:45-51 | `SUCCESS` exactly when the configuration directory resolved (is non-empty), `ACCESS_DENIED` otherwise |
| `Manager.ConfigManager.constructor` | AurieConfigs/source/Interface/Interface.hpp:21 | a new manager has an empty entry list and the given disk |
| `Manager.ConfigManager.OpenConfig` | AurieConfigs/source/Interface/Interface.cpp:77-123 | an empty directory gives `MODULE_INTERNAL_ERROR` and an existence check that throws gives `ACCESS_DENIED`, both with nothing changed and the out-handle untouched; otherwise the file is created if missing, exactly one entry with the loaded (or null) document is appended, the handle addresses it, and every earlier handle keeps its entry |
| `Manager.ConfigManager.CloseConfig` | AurieConfigs/source/Interface/Interface.cpp:125-143 | a null handle gives `INVALID_PARAMETER` and changes nothing; otherwise the document is saved to its path, every entry with that path is erased, exactly the handles with other paths stay live with unchanged entries, and the status is `SUCCESS` |
| `Manager.ConfigManager.Destroy` | AurieConfigs/source/Interface/Interface.cpp:53-64 | the disk becomes the result of saving every entry in list order, and the list becomes empty |
| `Manager.ConfigManager.ReadInteger` | AurieConfigs/source/Interface/Interface.cpp:145-165 | a null handle gives `INVALID_PARAMETER`; otherwise status and value are the document-level read's, and the out-value changes only on success; nothing else changes |
| `Manager.ConfigManager.ReadNumber` | AurieConfigs/source/Interface/Interface.cpp:167-187 | as `ReadInteger`, over the number read |
| `Manager.ConfigManager.ReadString` | AurieConfigs/source/Interface/Interface.cpp:189-209 | as `ReadInteger`, over the string read |
| `Manager.ConfigManager.ReadIntegerArray` | AurieConfigs/source/Interface/Interface.cpp:211-239 | as `ReadInteger`, over the all-or-nothing integer array read |
| `Manager.ConfigManager.ReadNumberArray` | AurieConfigs/source/Interface/Interface.cpp:241-269 | as `ReadInteger`, over the all-or-nothing number array read |
| `Manager.ConfigManager.ReadStringArray` | AurieConfigs/source/Interface/Interface.cpp:271-299 | as `ReadInteger`, over the all-or-nothing string array read |
| `Manager.ConfigManager.ReadBoolean` | AurieConfigs/source/Interface/Interface.cpp:391-411 | as `ReadInteger`, over the boolean read |
| `Manager.ConfigManager.ReadBooleanArray` | AurieConfigs/source/Interface/Interface.cpp:413-441 | as `ReadInteger`, over the all-or-nothing boolean array read |
| `Manager.ConfigManager.Assign` | AurieConfigs/source/Interface/Interface.cpp:307-313 | a null handle gives `INVALID_PARAMETER` and changes nothing; otherwise `SUCCESS`, the handle's document becomes `Put` of the value at the key, and the other entries, the disk and the handle counter are unchanged |
| `Manager.ConfigManager.WriteInteger` | AurieConfigs/source/Interface/Interface.cpp:301-314 | as `Assign`, storing a signed integer |
| `Manager.ConfigManager.WriteNumber` | AurieConfigs/source/Interface/Interface.cpp:316-329 | as `Assign`, storing a double |
| `Manager.ConfigManager.WriteString` | AurieConfigs/source/Interface/Interface.cpp:331-344 | as `Assign`, storing a string |
| `Manager.ConfigManager.WriteIntegerArray` | AurieConfigs/source/Interface/Interface.cpp:346-359 | as `Assign`, storing an array of signed integers |
| `Manager.ConfigManager.WriteNumberArray` | AurieConfigs/source/Interface/Interface.cpp:361-374 | as `Assign`, storing an array of doubles |
| `Manager.ConfigManager.WriteStringArray` | AurieConfigs/source/Interface/Interface.cpp:376-389 | as `Assign`, storing an array of strings |
| `Manager.ConfigManager.WriteBoolean` | AurieConfigs/source/Interface/Interface.cpp:443-456 | as `Assign`, storing a boolean |
| `Manager.ConfigManager.WriteBooleanArray` | AurieConfigs/source/Interface/Interface.cpp:458-471 | as `Assign`, storing an array of strings, since the parameter is a vector of strings |
| `Scenario.SettingsRoundTrip` | AurieConfigs/source/Interface/Interface.cpp:77-187 | opening a new file, writing `retries` = 3 and `tags` = ["a", "b"], closing, reopening and reading gives back 3 and ["a", "b"], and `ReadNumber` of `retries` succeeds |

## Left out

- `GetConfigDirectory` (Interface.cpp:5-35) probes and creates `<image folder>/mods/Configs` through the host's `MdpGetImageFolder`. The model takes its result as an argument of `Create` and `OpenConfig`, and the empty path stands for failure.
- Path joining (`image_path / Filename`) is the constructor argument `join`, an arbitrary function. So two file names that resolve to one path are covered.
- The JSON text format is not modelled. This covers `SaveToFile`'s four-space pretty print and newline, and `nlohmann::json::parse`. A file holds a document or unparsable text.
- Files.SaveThenLoad: promises more than the program in two cases, because the text format is not modelled. The real parser reads a non-negative signed integer back as an unsigned one; `ReadInteger` accepts both kinds, so the reads are unaffected. The serializer writes a NaN or infinite double as `null`, so `WriteNumber` of such a value, then `CloseConfig`, `OpenConfig` and `ReadNumber`, gives `NOT_IMPLEMENTED` in the program but `SUCCESS` in the model.
- Files.Save: the disk is a map from path values to files, so two unequal paths that name one file share nothing in the model. Examples are paths differing only in letter case on Windows, or `dir/./x.json` against `dir/x.json`. In the program they give two separate entries, because `operator==` (Interface.hpp:12-15) compares `fs::path` values. They still share one file, so closing one overwrites what the other reopens. File-system aliasing of paths is not modelled.
- Serialising a string that is not valid UTF-8 throws in the library. The model's strings are sequences of characters, so that failure does not arise.
- Doubles are opaque tokens. The library's integer-to-double conversion and `static_cast<int64_t>` of a double are uninterpreted functions. The undefined behaviour of casting an out-of-range double is not modelled.
- `get<T>` converts array elements with rules that live in the library. The model uses these rules: any number converts to `int64_t` or `double`, and strings and booleans convert only from their own kind.
- JSON binary and discarded values are not modelled. The code never produces them.
- Using a handle after its entry was erased is undefined behaviour in the code, and this includes erasure by a same-path close. `Live(config)` is therefore a precondition of every accessor and of `CloseConfig`. A handle is a number that is never reused, whereas the code uses a node address that may be reused.
- Writing to a document that is neither null nor an object makes `operator[]` throw, and nothing catches it. `Writable(Document(config))` is therefore a write precondition.
- `QueryVersion` and the version constants 1.1.0 (Shared.hpp:6-16) are left out because they hold no logic.
- The boolean accessors are missing from the class declaration in Interface.hpp. That is a build concern only.
- Concurrency is left out. The code has no locking, and the model is sequential.
