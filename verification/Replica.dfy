/** The user interface's replica of the traffic: it replays the worker's messages, one frame at a time. */
module Replica {
  import opened Core
  import opened Text
  import opened Domain
  import opened Runtime
  import Filter
  import Ja4Baselines
  import SessionTimer

  const MAX_RUNTIME_EVENTS_PER_FRAME: nat := 1024

  /** The state that messages and user actions change. */
  datatype Screen = Screen(
    processes: seq<Process>, events: seq<Row>, selectedPid: Option<u32>, selectedEvent: Option<u64>,
    processTab: Filter.ProcessTab, filter: string, httpsOnly: bool, showJa4Differences: bool,
    recording: bool, timer: SessionTimer.Timer, captureError: Option<string>,
    baselines: map<string, string>, icons: set<u32>)

  // ----- Rows -----

  predicate UniqueRows(rows: seq<Row>) {
    forall i, j | 0 <= i < j < |rows| :: rows[i].id != rows[j].id
  }

  /** The first position that shows `id`, or the number of rows. */
  function FindRow(rows: seq<Row>, id: u64): (i: nat)
    ensures i <= |rows| && (i < |rows| ==> rows[i].id == id)
    ensures forall j | 0 <= j < i :: rows[j].id != id
  {
    if rows == [] || rows[0].id == id then 0
    else
      assert forall j | 1 <= j < |rows| :: rows[j] == rows[1..][j - 1];
      1 + FindRow(rows[1..], id)
  }

  function Upsert(rows: seq<Row>, row: Row): seq<Row> {
    var i := FindRow(rows, row.id);
    if i < |rows| then rows[i := row] else rows + [row]
  }

  /** The rows whose id is not `id`, in order. */
  function Without(rows: seq<Row>, id: u64): seq<Row> {
    if rows == [] then []
    else (if rows[0].id != id then [rows[0]] else []) + Without(rows[1..], id)
  }

  // ----- Processes -----

  function FindApplication(processes: seq<Process>, name: string): Option<Process> {
    if processes == [] then None
    else if processes[0].application && EqualsIgnoringCase(processes[0].name, name) then Some(processes[0])
    else FindApplication(processes[1..], name)
  }

  /** The selection after the process list is replaced: the same pid, else another instance of the application. */
  function Reselected(s: Screen, processes: seq<Process>): Option<u32> {
    if s.selectedPid.None? then None
    else
      var known := Filter.FindProcess(s.processes, s.selectedPid.value);
      var kept := Filter.FindProcess(processes, s.selectedPid.value);
      var instance :=
        if s.processTab == Filter.Applications && known.Some?
        then FindApplication(processes, known.value.name) else None;
      if kept.Some? then Some(kept.value.pid)
      else if instance.Some? then Some(instance.value.pid)
      else None
  }

  predicate IsListed(processes: seq<Process>, pid: u32) {
    exists i | 0 <= i < |processes| :: processes[i].pid == pid
  }

  /** A listed process keeps the icon it had, or gets the first one the new list offers for its pid. */
  function IconsAfter(icons: set<u32>, processes: seq<Process>): set<u32> {
    (set pid | pid in icons && IsListed(processes, pid))
    + (set i | 0 <= i < |processes| && processes[i].hasIcon :: processes[i].pid)
  }

  function WithProcesses(s: Screen, processes: seq<Process>): Screen {
    var selected := Reselected(s, processes);
    s.(processes := processes,
       selectedPid := selected,
       selectedEvent := if s.selectedPid.Some? && selected.None? then None else s.selectedEvent,
       icons := IconsAfter(s.icons, processes))
  }

  // ----- Messages -----

  function AfterMessage(s: Screen, e: RuntimeEvent): Screen {
    match e
    case Connection(row) =>
      if s.recording then
        s.(baselines := Ja4Baselines.BaselinesWith(s.baselines, row),
           events := Upsert(s.events, Ja4Baselines.Classified(s.baselines, row)))
      else s
    case Closed(id) => s.(events := Without(s.events, id))
    case Processes(processes) => WithProcesses(s, processes)
    case Warning(_) => s
    case Error(message) => s.(captureError := Some(message))
  }

  function AfterMessages(s: Screen, messages: seq<RuntimeEvent>): Screen {
    if messages == [] then s
    else AfterMessage(AfterMessages(s, messages[..|messages| - 1]), messages[|messages| - 1])
  }

  class AppState {
    var processes: seq<Process>
    var events: seq<Row>
    var selectedPid: Option<u32>
    var selectedEvent: Option<u64>
    var processTab: Filter.ProcessTab
    var filter: string
    var httpsOnly: bool
    var showJa4Differences: bool
    var recording: bool
    var sessionSeconds: u64
    var lastTick: Time
    var captureError: Option<string>
    var ja4Baselines: map<string, string>

    function Fields(icons: set<u32>): Screen
      reads this
    {
      Screen(processes, events, selectedPid, selectedEvent, processTab, filter, httpsOnly, showJa4Differences,
             recording, SessionTimer.Timer(sessionSeconds, lastTick), captureError, ja4Baselines, icons)
    }

    constructor (processes: seq<Process>, now: Time)
      ensures forall icons :: Fields(icons) ==
                Screen(processes, [], None, None, Filter.Applications, "", false, true, true,
                       SessionTimer.Timer(0, now), None, map[], icons)
    {
      this.processes, events, selectedPid, selectedEvent := processes, [], None, None;
      processTab, filter, httpsOnly, showJa4Differences := Filter.Applications, "", false, true;
      recording, sessionSeconds, lastTick, captureError, ja4Baselines := true, 0, now, None, map[];
    }

    /** The rows to draw, in order: selected, matching a valid filter, and hidden by neither switch. */
    function VisibleEventIndices(): (visible: seq<nat>)
      reads this
      ensures forall i, j | 0 <= i < j < |visible| :: visible[i] < visible[j]
      ensures forall n: nat :: n in visible <==>
                && n < |events| && Filter.ValidateFilter(filter).Valid? && Filter.MatchesFilter(events[n], filter)
                && Filter.IsSelected(events[n], selectedPid, processTab, processes)
                && (httpsOnly ==> events[n].kind == Https)
                && (events[n].ja4Outlier ==> showJa4Differences)
    {
      Filter.VisibleIsExact(
        Filter.View(events, processes, selectedPid, processTab, httpsOnly, showJa4Differences), filter);
      Filter.VisibleEventIndices(
        Filter.View(events, processes, selectedPid, processTab, httpsOnly, showJa4Differences), filter)
    }

    method ClassifyJa4(row: Row) returns (classified: Row)
      modifies this`ja4Baselines
      ensures ja4Baselines == Ja4Baselines.BaselinesWith(old(ja4Baselines), row)
      ensures classified == Ja4Baselines.Classified(old(ja4Baselines), row)
    {
      classified := row;
      if row.ja4.None? || EqualsIgnoringCase(row.process, UNKNOWN_PROCESS) {
        return;
      }
      var name := Lower(row.process);
      if name !in ja4Baselines {
        ja4Baselines := ja4Baselines[name := row.ja4.value];
      }
      classified := row.(ja4Outlier := ja4Baselines[name] != row.ja4.value);
    }

    method Tick(measured: Time, reset: Time)
      modifies this`sessionSeconds, this`lastTick
      ensures SessionTimer.Timer(sessionSeconds, lastTick)
           == SessionTimer.Ticked(old(SessionTimer.Timer(sessionSeconds, lastTick)),
                                  SessionTimer.Tick(recording, measured, reset))
    {
      if recording {
        var elapsed := SessionTimer.WholeSeconds(lastTick, measured);
        if elapsed > 0 {
          sessionSeconds := SaturatingAdd(sessionSeconds, elapsed);
          lastTick := reset;
        }
      } else {
        lastTick := reset;
      }
    }
  }

  class AppWatch {
    const state: AppState
    var processIcons: set<u32>

    /** The messages sent by the worker and not yet received. */
    var channel: seq<RuntimeEvent>

    function Current(): Screen
      reads this, state
    {
      state.Fields(processIcons)
    }

    constructor (state: AppState)
      ensures this.state == state && channel == []
      ensures processIcons == set i | 0 <= i < |state.processes| && state.processes[i].hasIcon :: state.processes[i].pid
    {
      this.state := state;
      channel := [];
      processIcons := set i | 0 <= i < |state.processes| && state.processes[i].hasIcon :: state.processes[i].pid;
    }

    /** One frame: at most 1024 messages, and another repaint is requested when the limit is reached. */
    method ReceiveRuntimeEvents() returns (repaint: bool)
      modifies this, state
      ensures var n := if |old(channel)| < 1024 then |old(channel)| else 1024;
              && channel == old(channel)[n..]
              && Current() == AfterMessages(old(Current()), old(channel)[..n])
              && repaint == (n == 1024)
    {
      repaint := false;
      var index := 0;
      while index < MAX_RUNTIME_EVENTS_PER_FRAME && channel != []
        invariant 0 <= index <= MAX_RUNTIME_EVENTS_PER_FRAME && index <= |old(channel)|
        invariant channel == old(channel)[index..]
        invariant Current() == AfterMessages(old(Current()), old(channel)[..index])
        invariant repaint == (index == MAX_RUNTIME_EVENTS_PER_FRAME)
      {
        var message := channel[0];
        channel := channel[1..];
        Receive(message);
        assert old(channel)[..index + 1][..index] == old(channel)[..index];
        if index + 1 == MAX_RUNTIME_EVENTS_PER_FRAME {
          repaint := true;
        }
        index := index + 1;
      }
    }

    method Receive(message: RuntimeEvent)
      modifies this`processIcons, state
      ensures Current() == AfterMessage(old(Current()), message)
    {
      match message {
        case Connection(row) =>
          if state.recording {
            var classified := state.ClassifyJa4(row);
            var i := FindRow(state.events, classified.id);
            if i < |state.events| {
              state.events := state.events[i := classified];
            } else {
              state.events := state.events + [classified];
            }
          }
        case Closed(id) =>
          state.events := Without(state.events, id);
        case Processes(processes) =>
          ReplaceProcesses(processes);
        case Warning(_) =>
        case Error(message) =>
          state.captureError := Some(message);
      }
    }

    method ReplaceProcesses(processes: seq<Process>)
      modifies this`processIcons, state
      ensures Current() == WithProcesses(old(Current()), processes)
    {
      var selectedName: Option<string> := None;
      if state.processTab == Filter.Applications && state.selectedPid.Some? {
        var known := Filter.FindProcess(state.processes, state.selectedPid.value);
        if known.Some? {
          selectedName := Some(known.value.name);
        }
      }
      if state.selectedPid.Some? {
        var found := Filter.FindProcess(processes, state.selectedPid.value);
        if found.None? && selectedName.Some? {
          found := FindApplication(processes, selectedName.value);
        }
        state.selectedPid := if found.Some? then Some(found.value.pid) else None;
        if state.selectedPid.None? {
          state.selectedEvent := None;
        }
      }

      ReplaceIcons(processes);
      state.processes := processes;
    }

    method ReplaceIcons(processes: seq<Process>)
      modifies this`processIcons
      ensures processIcons == IconsAfter(old(processIcons), processes)
    {
      processIcons := set pid | pid in processIcons && IsListed(processes, pid);
      ghost var kept := processIcons;
      for n := 0 to |processes|
        invariant processIcons == kept + set i | 0 <= i < n && processes[i].hasIcon :: processes[i].pid
      {
        if processes[n].pid !in processIcons && processes[n].hasIcon {
          processIcons := processIcons + {processes[n].pid};
        }
      }
    }

    method Clear()
      modifies state`events, state`selectedEvent
      ensures Current() == old(Current()).(events := [], selectedEvent := None)
    {
      state.events := [];
      state.selectedEvent := None;
    }

    method ToggleRecording()
      modifies state`recording
      ensures Current() == old(Current()).(recording := !old(state.recording))
    {
      state.recording := !state.recording;
    }

    /** Selects a process and the earliest row of it; without such a row no event is selected. */
    method SelectProcess(pid: u32)
      modifies state`selectedPid, state`selectedEvent
      ensures Current() == old(Current()).(selectedPid := Some(pid), selectedEvent := state.selectedEvent)
      ensures state.selectedEvent.Some? <==> exists i :: IsFirstOf(state.events, pid, i)
      ensures forall i | IsFirstOf(state.events, pid, i) :: state.selectedEvent == Some(state.events[i].id)
    {
      state.selectedPid := Some(pid);
      state.selectedEvent := FirstOf(state.events, pid);
    }
  }

  /** Row `i` belongs to the process, and no earlier row does. */
  predicate IsFirstOf(rows: seq<Row>, pid: u32, i: int) {
    0 <= i < |rows| && rows[i].pid == Some(pid) && forall j | 0 <= j < i :: rows[j].pid != Some(pid)
  }

  /** The id of the first row of a process; None exactly when it has no row. */
  function FirstOf(rows: seq<Row>, pid: u32): (id: Option<u64>)
    ensures id.Some? <==> exists i :: IsFirstOf(rows, pid, i)
    ensures forall i | IsFirstOf(rows, pid, i) :: id == Some(rows[i].id)
    ensures id.None? <==> forall i | 0 <= i < |rows| :: rows[i].pid != Some(pid)
  {
    if rows == [] then None
    else if rows[0].pid == Some(pid) then
      assert IsFirstOf(rows, pid, 0);
      Some(rows[0].id)
    else
      FirstShifts(rows, pid);
      FirstOf(rows[1..], pid)
  }

  lemma FirstShifts(rows: seq<Row>, pid: u32)
    requires rows != [] && rows[0].pid != Some(pid)
    ensures forall i :: IsFirstOf(rows, pid, i) <==> IsFirstOf(rows[1..], pid, i - 1)
    ensures forall i :: IsFirstOf(rows[1..], pid, i) <==> IsFirstOf(rows, pid, i + 1)
  {
    assert forall i | 1 <= i < |rows| :: rows[i] == rows[1..][i - 1];
  }

  function WithSelection(s: Screen, pid: u32): Screen {
    s.(selectedPid := Some(pid), selectedEvent := FirstOf(s.events, pid))
  }
}
