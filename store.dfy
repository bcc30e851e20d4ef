/**
 * The flash file system the settings live in (SPIFFS on the device), as a
 * map from paths to file contents.  Whether mounting, formatting, opening
 * for reading and opening for writing succeed is fixed when the store is
 * made: the hardware, not the program, decides it.
 */
module FileStore {
  import opened ArduinoText

  class Store {
    var files: map<string, string>
    /** The file system on the flash mounts as it is. */
    const mountable: bool
    /** When it does not, formatting the flash succeeds. */
    const formattable: bool
    /** Opening an existing file for reading succeeds. */
    const readOk: bool
    /** Opening a file for writing succeeds. */
    const writeOk: bool

    constructor (files: map<string, string>, mountable: bool, formattable: bool, readOk: bool, writeOk: bool)
      ensures this.files == files && this.mountable == mountable && this.formattable == formattable
      ensures this.readOk == readOk && this.writeOk == writeOk
    {
      this.files := files;
      this.mountable := mountable;
      this.formattable := formattable;
      this.readOk := readOk;
      this.writeOk := writeOk;
    }

    /** The files seen once mounting succeeds: a formatted flash is empty. */
    function AfterMount(before: map<string, string>): map<string, string> {
      if mountable then before else map[]
    }

    /** `SPIFFS.begin(true)`: mount, formatting the flash when mounting fails. */
    method Mount() returns (ok: bool)
      modifies this
      ensures ok == (mountable || formattable)
      ensures files == if ok then AfterMount(old(files)) else old(files)
    {
      ok := mountable || formattable;
      if !mountable && formattable {
        files := map[];
      }
    }

    /** `SPIFFS.exists(path)`. */
    method Exists(path: string) returns (b: bool)
      ensures b == (path in files)
    {
      b := path in files;
    }

    /** Opening `path` for reading and reading it whole; `None` when the open
        fails, as it does for a missing file. */
    method Read(path: string) returns (r: Option<string>)
      ensures r.Some? <==> readOk && path in files
      ensures r.Some? ==> r.value == files[path]
    {
      if readOk && path in files {
        r := Some(files[path]);
      } else {
        r := None;
      }
    }

    /** Opening `path` for writing, which truncates it, and printing `text`
        into it; nothing changes when the open fails. */
    method Write(path: string, text: string) returns (ok: bool)
      modifies this
      ensures ok == writeOk
      ensures files == if ok then old(files)[path := text] else old(files)
    {
      ok := writeOk;
      if ok {
        files := files[path := text];
      }
    }
  }
}
