/** The status poller: `monitor_files` (paloversion-gui.py:76-94), which turns the
    working directory's device logs into coloured rows, and the aggregate colour of
    the batch row computed by `Panel2.refresher` (paloversion-gui.py:320-349). */
module Status {
  import opened Text
  import opened Files
  import opened Patterns

  /** Yellow: in progress; green: finished; red: failed. */
  datatype Colour = Yellow | Green | Red

  datatype DeviceStatus = DeviceStatus(serial: string, colour: Colour)

  /** One button of the status screen. */
  datatype Row = Row(text: string, colour: Colour)

  const FAILED_MARK := "---FAILED---"
  const FINISHED_MARK := "---FINISHED---"
  const HINT := "Tap a serial number to view the detailed upgrade logs"
  const FINISHED_WITH_ERRORS := "Upgrades finished with errors"
  const FINISHED_WITHOUT_ERRORS := "Upgrades finished without errors"

  /** A per-device log: a log-pattern name other than the batch log. */
  predicate IsDeviceLog(name: string) {
    IsLogName(name) && name != BATCH_LOG
  }

  /** The colour of one device log, or None when the file is empty (not started). */
  function Classify(read: Read<string>): (c: Option<Colour>)
    ensures c == None <==> read == Ok("")
    ensures c == Some(Red) <==> read.Failed? || Contains(read.value, FAILED_MARK)
    ensures c == Some(Green) <==>
              read.Ok? && !Contains(read.value, FAILED_MARK) && Contains(read.value, FINISHED_MARK)
    ensures c == Some(Yellow) <==>
              read.Ok? && read.value != "" &&
              !Contains(read.value, FAILED_MARK) && !Contains(read.value, FINISHED_MARK)
  {
    match read
    case Failed(_) => Some(Red)
    case Ok(text) =>
      if text == "" then None
      else if Contains(text, FAILED_MARK) then Some(Red)
      else if Contains(text, FINISHED_MARK) then Some(Green)
      else Some(Yellow)
  }

  /** The rows one walk entry contributes. */
  function StatusOf(e: Entry<string>): seq<DeviceStatus> {
    if !IsDeviceLog(e.name) then []
    else match Classify(e.read)
      case None => []
      case Some(c) => [DeviceStatus(e.name, c)]
  }

  /** What `monitor_files` returns on a walk, as a function of the walk. */
  function DeviceStatuses(entries: seq<Entry<string>>): (statuses: seq<DeviceStatus>)
    ensures |statuses| <= |entries|
  {
    if entries == [] then []
    else StatusOf(entries[0]) + DeviceStatuses(entries[1..])
  }

  /** Every row is a device log of the walk in the colour its contents give, and
      every non-empty or unreadable device log of the walk has its row. */
  lemma {:induction false} DeviceStatusesSpec(entries: seq<Entry<string>>)
    ensures forall st | st in DeviceStatuses(entries) ::
              IsDeviceLog(st.serial) &&
              exists e | e in entries :: e.name == st.serial && Classify(e.read) == Some(st.colour)
    ensures forall e | e in entries && IsDeviceLog(e.name) && Classify(e.read).Some? ::
              DeviceStatus(e.name, Classify(e.read).value) in DeviceStatuses(entries)
  {
    if entries != [] {
      DeviceStatusesSpec(entries[1..]);
      assert forall e | e in entries[1..] :: e in entries;
      assert forall e | e in entries :: e == entries[0] || e in entries[1..];
    }
  }

  /** Walk order is kept: the rows of a walk are the rows of its parts, in order. */
  lemma {:induction false} DeviceStatusesAppend(a: seq<Entry<string>>, b: seq<Entry<string>>)
    ensures DeviceStatuses(a + b) == DeviceStatuses(a) + DeviceStatuses(b)
    decreases |a|
  {
    if a != [] {
      assert (a + b)[1..] == a[1..] + b;
      DeviceStatusesAppend(a[1..], b);
    } else {
      assert a + b == b;
    }
  }

  /** One more entry adds its own rows at the end. */
  lemma DeviceStatusesSnoc(a: seq<Entry<string>>, e: Entry<string>)
    ensures DeviceStatuses(a + [e]) == DeviceStatuses(a) + StatusOf(e)
  {
    DeviceStatusesAppend(a, [e]);
    assert DeviceStatuses([e]) == StatusOf(e) + DeviceStatuses([]);
  }

  /** An empty file is left out of the list as if it were not there. */
  lemma EmptyLogOmitted(a: seq<Entry<string>>, name: string, b: seq<Entry<string>>)
    ensures DeviceStatuses(a + [Entry(name, Ok(""))] + b) == DeviceStatuses(a + b)
  {
    DeviceStatusesAppend(a + [Entry(name, Ok(""))], b);
    DeviceStatusesAppend(a, [Entry(name, Ok(""))]);
    DeviceStatusesAppend(a, b);
  }

  /** A hexadecimal serial's log is not polled at all, whatever it holds. */
  lemma HexSerialNotPolled()
    ensures DeviceStatuses([Entry("001122AABBCC.log", Ok(FINISHED_MARK))]) == []
  {
    HexSerialIsNotLogName();
  }

  /** `monitor_files`: walks the entries and collects a coloured row for every
      non-empty or unreadable device log, in walk order. */
  method MonitorFiles(entries: seq<Entry<string>>) returns (matches: seq<DeviceStatus>)
    ensures matches == DeviceStatuses(entries)
  {
    matches := [];
    var i := 0;
    while i < |entries|
      invariant 0 <= i <= |entries|
      invariant matches == DeviceStatuses(entries[..i])
    {
      var file := entries[i];
      ghost var before := matches;
      if IsLogName(file.name) && file.name != BATCH_LOG {
        match file.read
        case Failed(_) =>
          matches := matches + [DeviceStatus(file.name, Red)];
        case Ok(contents) =>
          if contents != "" {
            var colour := Yellow;
            if Contains(contents, FAILED_MARK) {
              colour := Red;
            } else if Contains(contents, FINISHED_MARK) {
              colour := Green;
            }
            assert Classify(file.read) == Some(colour);
            matches := matches + [DeviceStatus(file.name, colour)];
          }
      }
      assert matches == before + StatusOf(file);
      assert entries[..i + 1] == entries[..i] + [file];
      DeviceStatusesSnoc(entries[..i], file);
      i := i + 1;
    }
    assert entries[..i] == entries;
  }

  /** The colour of the batch row: red beats yellow, and yellow (or an empty list)
      beats green. */
  function BatchColour(statuses: seq<DeviceStatus>): (c: Colour)
    ensures c == Red <==> exists k | 0 <= k < |statuses| :: statuses[k].colour == Red
    ensures c == Yellow <==>
              (forall k | 0 <= k < |statuses| :: statuses[k].colour != Red) &&
              (statuses == [] || exists k | 0 <= k < |statuses| :: statuses[k].colour == Yellow)
    ensures c == Green <==>
              statuses != [] && forall k | 0 <= k < |statuses| :: statuses[k].colour == Green
  {
    if exists k | 0 <= k < |statuses| :: statuses[k].colour == Red then Red
    else if exists k | 0 <= k < |statuses| :: statuses[k].colour == Yellow then Yellow
    else if statuses == [] then Yellow
    else Green
  }

  /** The buttons `Panel2.refresher` lays out: the hint, the batch row in the
      aggregate colour, a "finished" banner only when that colour is not yellow,
      then one row per device in the poller's order. */
  function RefreshRows(statuses: seq<DeviceStatus>): (rows: seq<Row>)
    ensures |rows| == |statuses| + (if BatchColour(statuses) == Yellow then 2 else 3)
    ensures rows[0] == Row(HINT, Yellow)
    ensures rows[1] == Row(BATCH_LOG, BatchColour(statuses))
    ensures BatchColour(statuses) == Red ==> rows[2] == Row(FINISHED_WITH_ERRORS, Red)
    ensures BatchColour(statuses) == Green ==> rows[2] == Row(FINISHED_WITHOUT_ERRORS, Green)
    ensures forall k | 0 <= k < |statuses| ::
              rows[|rows| - |statuses| + k] == Row(statuses[k].serial, statuses[k].colour)
  {
    var main := BatchColour(statuses);
    var banner :=
      if main == Red then [Row(FINISHED_WITH_ERRORS, Red)]
      else if main == Green then [Row(FINISHED_WITHOUT_ERRORS, Green)]
      else [];
    [Row(HINT, Yellow), Row(BATCH_LOG, main)] + banner +
    seq(|statuses|, k requires 0 <= k < |statuses| => Row(statuses[k].serial, statuses[k].colour))
  }
}
