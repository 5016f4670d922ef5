/** The log drill-down, `tail_file` (paloversion-gui.py:97-118), and the start-up
    purge of old logs, `cleanup` (paloversion-gui.py:145-153). */
module Logs {
  import opened Text
  import opened Files
  import opened Patterns

  const BATCH_GUIDANCE :=
    ".\nCheck that firewalls are reachable and MAC address is in filter.\n" +
    "Ensure the number of hosts is less than BATCH_MAX in paloversion.sh"

  /** The message for an unreadable device log. */
  function ReadError(serial: string, reason: string): string {
    "Error reading log file for serial " + serial + " with exception " + reason
  }

  /** The text shown for the selected log `serial`; `read` is the outcome of reading
      the file `serial` in the working directory `/home/pi/Desktop/`, which
      happens only when a serial is selected. */
  function TailFile(serial: string, read: Read<string>): (text: string)
    ensures serial == "" ==> text == ""
    ensures serial != "" && read.Ok? ==> text == read.value
    ensures serial != "" && read.Failed? ==>
              IsPrefix(ReadError(serial, read.reason), text) &&
              (text == ReadError(serial, read.reason) <==> serial != BATCH_LOG)
    ensures serial == BATCH_LOG && read.Failed? ==>
              text[|ReadError(serial, read.reason)|..] == BATCH_GUIDANCE
  {
    if serial == "" then ""
    else match read
      case Ok(contents) => contents
      case Failed(e) =>
        if serial == BATCH_LOG then ReadError(serial, e) + BATCH_GUIDANCE
        else ReadError(serial, e)
  }

  /** A file under the working directory, and whether `os.remove` succeeds on it. */
  datatype StoredFile = StoredFile(name: string, removable: bool)

  /** `cleanup`: removes every log-pattern file, the batch log included; a file
      whose removal fails stays, and the walk goes on. */
  method Cleanup(files: seq<StoredFile>) returns (remaining: seq<StoredFile>)
    ensures forall f | f in remaining :: f in files && !(IsLogName(f.name) && f.removable)
    ensures forall f | f in files && !(IsLogName(f.name) && f.removable) :: f in remaining
    ensures |remaining| <= |files|
  {
    remaining := [];
    var i := 0;
    while i < |files|
      invariant 0 <= i <= |files|
      invariant |remaining| <= i
      invariant forall f | f in remaining :: f in files[..i] && !(IsLogName(f.name) && f.removable)
      invariant forall f | f in files[..i] && !(IsLogName(f.name) && f.removable) :: f in remaining
    {
      var file := files[i];
      if !(IsLogName(file.name) && file.removable) {
        remaining := remaining + [file];
      }
      assert files[..i + 1] == files[..i] + [file];
      i := i + 1;
    }
    assert files[..i] == files;
  }
}
