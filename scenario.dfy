/**
 * A client of the manager: a settings file is created, written, closed,
 * opened again and read back, using only the manager's contracts.
 */
module Scenario {
  import opened Json
  import opened Files
  import opened Entries
  import opened Accessors
  import opened Manager

  /**
   * Open a new "settings.json", write "retries" = 3 and "tags" = ["a", "b"],
   * close it, open it again, and read both keys back, and "retries" once
   * more as a number: integers are numbers to ReadNumber.
   */
  method SettingsRoundTrip(casts: NumericCasts) returns (retries: int64, tags: seq<string>, numberStatus: Status)
    ensures retries == 3 && tags == ["a", "b"]
    ensures numberStatus == Success
  {
    var directory := "Game/mods/Configs";
    var m := new ConfigManager(FileSystem(map[], {}, {}, {}), (d: Path, f: Filename) => d + "/" + f, casts);
    var path := m.join(directory, "settings.json");

    var status, config := m.OpenConfig(directory, "settings.json", NullHandle);
    assert status == Success;
    OpenMissingFile(FileSystem(map[], {}, {}, {}), path);
    assert m.Document(config) == Null;

    status := m.WriteInteger(config, "retries", 3);
    IndexOfUnique(m.entries, m.nextHandle, |m.entries| - 1);
    status := m.WriteStringArray(config, "tags", ["a", "b"]);
    IndexOfUnique(m.entries, m.nextHandle, |m.entries| - 1);
    var saved := Put(Put(Null, "retries", Int(3)), "tags", StringArrayJson(["a", "b"]));
    assert m.Document(config) == saved;

    status := m.CloseConfig(config);
    assert !m.Live(config);
    status, config := m.OpenConfig(directory, "settings.json", NullHandle);
    assert status == Success;
    SaveThenLoad(FileSystem(map[path := Unparsable], {}, {}, {}), path, saved);
    assert m.Document(config) == saved;

    status, retries := m.ReadInteger(config, "retries", 0);
    status, tags := m.ReadStringArray(config, "tags", []);
    WriteReadStringArray(Put(Null, "retries", Int(3)), "tags", ["a", "b"]);
    var number;
    numberStatus, number := m.ReadNumber(config, "retries", Float(0));
  }
}
