/** What the rows on screen mean under any interleaving of messages, user actions and clock ticks. */
module ScreenLaws {
  import opened Core
  import opened Domain
  import opened Runtime
  import opened Replica
  import Filter
  import Ja4Baselines
  import SessionTimer
  import Text

  /** What happens to the screen: a message is received, or the user or the clock acts. */
  datatype UiAction =
    | ReceiveMessage(message: RuntimeEvent)
    | Clear
    | ToggleRecording
    | SelectAll
    | SelectProcess(pid: u32)
    | SelectEvent(id: Option<u64>)
    | SetTab(tab: Filter.ProcessTab)
    | SetFilter(text: string)
    | SetHttpsOnly(httpsOnly: bool)
    | SetJa4Differences(show: bool)
    | TickTimer(measured: Time, reset: Time)

  function Act(s: Screen, action: UiAction): Screen {
    match action
    case ReceiveMessage(message) => AfterMessage(s, message)
    case Clear => s.(events := [], selectedEvent := None)
    case ToggleRecording => s.(recording := !s.recording)
    case SelectAll => s.(selectedPid := None, selectedEvent := None)
    case SelectProcess(pid) => WithSelection(s, pid)
    case SelectEvent(id) => s.(selectedEvent := id)
    case SetTab(tab) => s.(processTab := tab)
    case SetFilter(text) => s.(filter := text)
    case SetHttpsOnly(httpsOnly) => s.(httpsOnly := httpsOnly, selectedEvent := None)
    case SetJa4Differences(show) => s.(showJa4Differences := show, selectedEvent := None)
    case TickTimer(measured, reset) =>
      s.(timer := SessionTimer.Ticked(s.timer, SessionTimer.Tick(s.recording, measured, reset)))
  }

  function ScreenAfter(s: Screen, actions: seq<UiAction>): Screen {
    if actions == [] then s
    else Act(ScreenAfter(s, actions[..|actions| - 1]), actions[|actions| - 1])
  }

  /** The messages received in the course of some actions. */
  function Delivered(actions: seq<UiAction>): seq<RuntimeEvent> {
    if actions == [] then []
    else
      var action := actions[|actions| - 1];
      Delivered(actions[..|actions| - 1]) + if action.ReceiveMessage? then [action.message] else []
  }

  // ----- The meaning of a message stream -----

  function Plain(row: Row): Row {
    row.(ja4Outlier := false)
  }

  function RowsWith(rows: map<u64, Row>, message: RuntimeEvent): map<u64, Row> {
    match message
    case Connection(row) => rows[row.id := Plain(row)]
    case Closed(id) => rows - {id}
    case _ => rows
  }

  /** The rows that are open after some messages: the latest of each id, unless it was closed since. */
  function RowsOf(messages: seq<RuntimeEvent>): map<u64, Row> {
    if messages == [] then map[]
    else RowsWith(RowsOf(messages[..|messages| - 1]), messages[|messages| - 1])
  }

  // ----- The screen against the message stream -----

  /** Every row on screen is open. */
  ghost predicate NoGhosts(rows: seq<Row>, open: map<u64, Row>) {
    forall row | row in rows :: row.id in open
  }

  /** The rows on screen are the open ones, up to their fingerprint flag. */
  ghost predicate ShowsExactly(rows: seq<Row>, open: map<u64, Row>) {
    && (forall row | row in rows :: row.id in open && Plain(row) == open[row.id])
    && (forall id | id in open :: exists row :: row in rows && row.id == id)
  }

  lemma {:induction false} UpsertIsUpdate(rows: seq<Row>, row: Row)
    requires UniqueRows(rows)
    ensures UniqueRows(Upsert(rows, row))
    ensures forall r :: r in Upsert(rows, row) <==> r == row || (r in rows && r.id != row.id)
  {
    var after, i := Upsert(rows, row), FindRow(rows, row.id);
    assert after[i] == row;
    forall r | r in rows && r.id != row.id ensures r in after {
      var j :| 0 <= j < |rows| && rows[j] == r;
      assert after[j] == r;
    }
    forall r | r in after && r != row ensures r in rows && r.id != row.id {
      var j :| 0 <= j < |after| && after[j] == r;
      assert rows[j] == r;
    }
  }

  lemma {:induction false} WithoutIsRemoval(rows: seq<Row>, id: u64)
    requires UniqueRows(rows)
    ensures UniqueRows(Without(rows, id))
    ensures forall r :: r in Without(rows, id) <==> r in rows && r.id != id
  {
    if rows != [] {
      WithoutIsRemoval(rows[1..], id);
      assert rows == [rows[0]] + rows[1..];
      forall r | r in rows[1..] ensures r.id != rows[0].id {
        var j :| 1 <= j < |rows| && rows[j] == r;
      }
    }
  }

  /** The ids on screen, from the top. */
  function Ids(rows: seq<Row>): seq<u64> {
    seq(|rows|, i requires 0 <= i < |rows| => rows[i].id)
  }

  /** A row keeps its place when it is replaced, and a new one comes last. */
  lemma OrderIsKept(rows: seq<Row>, row: Row)
    ensures Ids(Upsert(rows, row)) == if row.id in Ids(rows) then Ids(rows) else Ids(rows) + [row.id]
  {
    var i := FindRow(rows, row.id);
    if i < |rows| { assert Ids(rows)[i] == row.id; }
  }

  /** Closing takes the one row out of the middle, and the others keep their order. */
  lemma {:induction false} WithoutOnly(before: seq<Row>, row: Row, after: seq<Row>)
    requires forall r | r in before || r in after :: r.id != row.id
    ensures Without(before + [row] + after, row.id) == before + after
  {
    var rows := before + [row] + after;
    if before == [] {
      assert rows[1..] == after;
      WithoutNone(after, row.id);
    } else {
      assert rows[1..] == before[1..] + [row] + after;
      WithoutOnly(before[1..], row, after);
      assert before + after == [before[0]] + (before[1..] + after);
    }
  }

  lemma {:induction false} WithoutNone(rows: seq<Row>, id: u64)
    requires forall r | r in rows :: r.id != id
    ensures Without(rows, id) == rows
  {
    if rows != [] {
      WithoutNone(rows[1..], id);
    }
  }

  lemma MessageKeepsRows(s: Screen, message: RuntimeEvent, open: map<u64, Row>)
    requires UniqueRows(s.events) && NoGhosts(s.events, open)
    ensures var after := AfterMessage(s, message);
            && UniqueRows(after.events) && NoGhosts(after.events, RowsWith(open, message))
            && (s.recording && ShowsExactly(s.events, open) ==> ShowsExactly(after.events, RowsWith(open, message)))
            && after.recording == s.recording
  {
    hide Upsert, Without, UniqueRows, Ja4Baselines.BaselinesWith, WithProcesses;
    match message
    case Connection(row) =>
      var classified := Ja4Baselines.Classified(s.baselines, row);
      assert Plain(classified) == Plain(row) && classified.id == row.id;
      hide Ja4Baselines.Classified;
      UpsertIsUpdate(s.events, classified);
      assert s.recording ==> classified in Upsert(s.events, classified);
    case Closed(id) =>
      WithoutIsRemoval(s.events, id);
    case Processes(processes) =>
      ProcessesKeepRows(s, processes);
    case _ =>
  }

  lemma ProcessesKeepRows(s: Screen, processes: seq<Process>)
    ensures WithProcesses(s, processes).events == s.events
    ensures WithProcesses(s, processes).recording == s.recording
  {
  }

  /**
   Under any interleaving of messages with recording toggles, Clear, selections, filters and ticks, row ids
   stay distinct and no row outlives its connection, because closing is applied even when not recording.
   */
  lemma {:induction false} NoGhostRows(s: Screen, actions: seq<UiAction>)
    requires s.events == []
    ensures UniqueRows(ScreenAfter(s, actions).events)
    ensures NoGhosts(ScreenAfter(s, actions).events, RowsOf(Delivered(actions)))
  {
    hide Act, UniqueRows, NoGhosts, RowsWith;
    if actions == [] {
      NothingShown();
    } else {
      var before, action := actions[..|actions| - 1], actions[|actions| - 1];
      NoGhostRows(s, before);
      if action.ReceiveMessage? {
        ReceiveIsMessage(ScreenAfter(s, before), action);
        RowsOfSnoc(Delivered(before), action.message);
        MessageKeepsRows(ScreenAfter(s, before), action.message, RowsOf(Delivered(before)));
      } else {
        assert Delivered(actions) == Delivered(before);
        NothingShown();
        ActKeepsRows(ScreenAfter(s, before), action);
      }
    }
  }

  lemma ReceiveIsMessage(s: Screen, action: UiAction)
    requires action.ReceiveMessage?
    ensures Act(s, action) == AfterMessage(s, action.message)
  {
  }

  /** Apart from messages only Clear touches the rows, and only the toggle the recording. */
  lemma ActKeepsRows(s: Screen, action: UiAction)
    requires !action.ReceiveMessage?
    ensures Act(s, action).events == if action.Clear? then [] else s.events
    ensures Act(s, action).recording == if action.ToggleRecording? then !s.recording else s.recording
  {
  }

  lemma NothingShown()
    ensures UniqueRows([]) && ShowsExactly([], map[]) && forall open :: NoGhosts([], open)
  {
  }

  lemma RowsOfSnoc(messages: seq<RuntimeEvent>, message: RuntimeEvent)
    ensures RowsOf(messages + [message]) == RowsWith(RowsOf(messages), message)
  {
    assert (messages + [message])[..|messages|] == messages;
  }

  /** The action neither clears the rows nor stops the recording. */
  predicate IsPassive(action: UiAction) {
    !action.Clear? && !action.ToggleRecording?
  }

  /** While recording and without Clear, the rows on screen are exactly the open ones after every action. */
  lemma {:induction false} RecordingShowsAll(s: Screen, actions: seq<UiAction>)
    requires s.events == [] && s.recording && forall i | 0 <= i < |actions| :: IsPassive(actions[i])
    ensures ScreenAfter(s, actions).recording
    ensures ShowsExactly(ScreenAfter(s, actions).events, RowsOf(Delivered(actions)))
  {
    hide Act, UniqueRows, NoGhosts, ShowsExactly, RowsWith;
    if actions == [] {
      NothingShown();
    } else {
      var before, action := actions[..|actions| - 1], actions[|actions| - 1];
      RecordingShowsAll(s, before);
      NoGhostRows(s, before);
      if action.ReceiveMessage? {
        ReceiveIsMessage(ScreenAfter(s, before), action);
        RowsOfSnoc(Delivered(before), action.message);
        MessageKeepsRows(ScreenAfter(s, before), action.message, RowsOf(Delivered(before)));
      } else {
        assert Delivered(actions) == Delivered(before);
        assert IsPassive(action);
        ActKeepsRows(ScreenAfter(s, before), action);
      }
    }
  }

  // ----- Fingerprint flags on screen -----

  /** The rows received while recording, in order. */
  function Recorded(s: Screen, actions: seq<UiAction>): seq<Row> {
    if actions == [] then []
    else
      var before, action := actions[..|actions| - 1], actions[|actions| - 1];
      Recorded(s, before)
      + if action.ReceiveMessage? && action.message.Connection? && ScreenAfter(s, before).recording
        then [action.message.row] else []
  }

  /** The row is entry `n` of the history, classified against the entries before it. */
  predicate IsClassifiedAt(row: Row, history: seq<Row>, n: int) {
    0 <= n < |history| && row == Ja4Baselines.Classified(Ja4Baselines.BaselinesAfter(history[..n]), history[n])
  }

  /** The baselines follow the history, and every row on screen carries the flag it got when recorded. */
  ghost predicate FlagsAgree(s: Screen, history: seq<Row>) {
    && s.baselines == Ja4Baselines.BaselinesAfter(history)
    && forall row | row in s.events :: exists n :: IsClassifiedAt(row, history, n)
  }

  /** Neither Clear nor closing changes a baseline: baselines and flags follow the recorded rows alone. */
  lemma {:induction false} FlagsFollowRecordedRows(s: Screen, actions: seq<UiAction>)
    requires s.events == [] && s.baselines == map[]
    ensures FlagsAgree(ScreenAfter(s, actions), Recorded(s, actions))
  {
    hide AfterMessage, FlagsAgree, UniqueRows, NoGhosts;
    if actions == [] {
      NothingFlagged(s);
    } else {
      var before, action := actions[..|actions| - 1], actions[|actions| - 1];
      FlagsFollowRecordedRows(s, before);
      NoGhostRows(s, before);
      if action.ReceiveMessage? {
        MessageKeepsFlags(ScreenAfter(s, before), action.message, Recorded(s, before));
      } else {
        ActionKeepsFlags(ScreenAfter(s, before), action, Recorded(s, before));
      }
      assert Recorded(s, before) + [] == Recorded(s, before);
    }
  }

  lemma NothingFlagged(s: Screen)
    requires s.events == [] && s.baselines == map[]
    ensures FlagsAgree(s, [])
  {
  }

  lemma ActionKeepsFlags(s: Screen, action: UiAction, history: seq<Row>)
    requires FlagsAgree(s, history) && !action.ReceiveMessage?
    ensures FlagsAgree(Act(s, action), history)
  {
    hide IsClassifiedAt, Ja4Baselines.BaselinesAfter;
  }

  lemma MessageKeepsFlags(s: Screen, message: RuntimeEvent, history: seq<Row>)
    requires FlagsAgree(s, history) && UniqueRows(s.events)
    ensures FlagsAgree(AfterMessage(s, message),
                       if message.Connection? && s.recording then history + [message.row] else history)
  {
    hide Ja4Baselines.Classified, Ja4Baselines.BaselinesWith;
    hide WithProcesses, Upsert, Without, IsClassifiedAt, UniqueRows;
    match message
    case Connection(row) =>
      if s.recording {
        RecordedSnoc(history, row);
        UpsertIsUpdate(s.events, Ja4Baselines.Classified(s.baselines, row));
        forall r | r in AfterMessage(s, message).events ensures exists n :: IsClassifiedAt(r, history + [row], n) {
          if r in s.events {
            var n :| IsClassifiedAt(r, history, n);
            assert IsClassifiedAt(r, history + [row], n);
          }
        }
      }
    case Closed(id) => WithoutIsRemoval(s.events, id);
    case Processes(processes) => ProcessesKeepBaselines(s, processes);
    case _ =>
  }

  lemma ProcessesKeepBaselines(s: Screen, processes: seq<Process>)
    ensures WithProcesses(s, processes).events == s.events
    ensures WithProcesses(s, processes).baselines == s.baselines
  {
  }

  lemma RecordedSnoc(history: seq<Row>, row: Row)
    ensures Ja4Baselines.BaselinesAfter(history + [row])
         == Ja4Baselines.BaselinesWith(Ja4Baselines.BaselinesAfter(history), row)
    ensures var classified := Ja4Baselines.Classified(Ja4Baselines.BaselinesAfter(history), row);
            IsClassifiedAt(classified, history + [row], |history|)
    ensures forall r, n | IsClassifiedAt(r, history, n) :: IsClassifiedAt(r, history + [row], n)
  {
    assert (history + [row])[..|history|] == history;
    forall r, n | IsClassifiedAt(r, history, n) ensures IsClassifiedAt(r, history + [row], n) {
      assert (history + [row])[..n] == history[..n];
    }
  }

  lemma {:induction false} RecordedWasDelivered(s: Screen, actions: seq<UiAction>)
    ensures forall row | row in Recorded(s, actions) :: Connection(row) in Delivered(actions)
  {
    if actions != [] { RecordedWasDelivered(s, actions[..|actions| - 1]); }
  }

  // ----- The rows on screen, exactly -----

  /** The action delivers a snapshot of row `id` while the screen records. */
  predicate Records(t: Screen, action: UiAction, id: u64) {
    action.ReceiveMessage? && action.message.Connection? && action.message.row.id == id && t.recording
  }

  /** The action takes row `id` off the screen, recording or not. */
  predicate Removes(action: UiAction, id: u64) {
    action.Clear? || action == ReceiveMessage(Closed(id))
  }

  /**
   Action `n` recorded this row, with the flag it deserved then, and no later action records its id again,
   closes it or clears the screen.
   */
  ghost predicate IsShowing(s: Screen, actions: seq<UiAction>, n: int, row: Row) {
    && 0 <= n < |actions| && Records(ScreenAfter(s, actions[..n]), actions[n], row.id)
    && row == Ja4Baselines.Classified(Ja4Baselines.BaselinesAfter(Recorded(s, actions[..n])), actions[n].message.row)
    && forall m | n < m < |actions| ::
         !Records(ScreenAfter(s, actions[..m]), actions[m], row.id) && !Removes(actions[m], row.id)
  }

  /**
   Under any interleaving the rows on screen are exactly the last snapshots received while recording, since
   the last Clear and not closed since.
   */
  lemma {:induction false} RowsAreLastRecorded(s: Screen, actions: seq<UiAction>)
    requires s.events == [] && s.baselines == map[]
    ensures forall row :: row in ScreenAfter(s, actions).events <==> exists n :: IsShowing(s, actions, n, row)
  {
    hide Act, UniqueRows, NoGhosts, FlagsAgree, Recorded;
    if actions != [] {
      var n := |actions| - 1;
      var before, action := actions[..n], actions[n];
      var t := ScreenAfter(s, before);
      RowsAreLastRecorded(s, before);
      NoGhostRows(s, before);
      BaselinesFollowRecorded(s, before);
      forall row ensures row in ScreenAfter(s, actions).events <==> exists n :: IsShowing(s, actions, n, row) {
        ActChangesRows(t, action, row);
        ShowingSnoc(s, before, action, row);
        assert actions == before + [action];
      }
    }
  }

  lemma BaselinesFollowRecorded(s: Screen, actions: seq<UiAction>)
    requires s.events == [] && s.baselines == map[]
    ensures ScreenAfter(s, actions).baselines == Ja4Baselines.BaselinesAfter(Recorded(s, actions))
  {
    hide ScreenAfter, Recorded, IsClassifiedAt, Ja4Baselines.BaselinesAfter;
    FlagsFollowRecordedRows(s, actions);
  }

  /** A row is on screen after an action if the action records it, or neither replaces nor removes it. */
  lemma ActChangesRows(t: Screen, action: UiAction, row: Row)
    requires UniqueRows(t.events)
    ensures row in Act(t, action).events
       <==> if Records(t, action, row.id)
            then row == Ja4Baselines.Classified(t.baselines, action.message.row)
            else row in t.events && !Removes(action, row.id)
  {
    hide Upsert, Without, UniqueRows, Ja4Baselines.BaselinesWith, WithProcesses, Ja4Baselines.BaselinesAfter;
    if action.ReceiveMessage? {
      match action.message
      case Connection(r) =>
        assert Ja4Baselines.Classified(t.baselines, r).id == r.id;
        UpsertIsUpdate(t.events, Ja4Baselines.Classified(t.baselines, r));
      case Closed(id) => WithoutIsRemoval(t.events, id);
      case Processes(processes) => ProcessesKeepRows(t, processes);
      case _ =>
    } else {
      ActKeepsRows(t, action);
    }
  }

  lemma ShowingSnoc(s: Screen, before: seq<UiAction>, action: UiAction, row: Row)
    ensures (exists n :: IsShowing(s, before + [action], n, row))
       <==> var t := ScreenAfter(s, before);
            if Records(t, action, row.id)
            then row == Ja4Baselines.Classified(Ja4Baselines.BaselinesAfter(Recorded(s, before)), action.message.row)
            else (exists n :: IsShowing(s, before, n, row)) && !Removes(action, row.id)
  {
    hide ScreenAfter, Recorded, Removes, Ja4Baselines.Classified, Ja4Baselines.BaselinesAfter;
    var actions, last := before + [action], |before|;
    forall n | 0 <= n < last ensures actions[..n] == before[..n] && actions[n] == before[n] {}
    assert actions[..last] == before;
    if Records(ScreenAfter(s, before), action, row.id) {
      assert forall n | 0 <= n < last :: !IsShowing(s, actions, n, row);
      if row == Ja4Baselines.Classified(Ja4Baselines.BaselinesAfter(Recorded(s, before)), action.message.row) {
        assert IsShowing(s, actions, last, row);
      }
    } else {
      if n :| IsShowing(s, actions, n, row) { assert IsShowing(s, before, n, row); }
      if !Removes(action, row.id) {
        if n :| IsShowing(s, before, n, row) { assert IsShowing(s, actions, n, row); }
      }
    }
  }

  // ----- The timer on screen -----

  /** The ticks among the actions, each with the recording state it finds. */
  function TicksOf(s: Screen, actions: seq<UiAction>): seq<SessionTimer.Tick> {
    if actions == [] then []
    else
      var before, action := actions[..|actions| - 1], actions[|actions| - 1];
      TicksOf(s, before)
      + if action.TickTimer? then [SessionTimer.Tick(ScreenAfter(s, before).recording, action.measured, action.reset)]
        else []
  }

  /** Only ticks move the timer, so its bounds hold for the screen whatever else happens. */
  lemma {:induction false} OnlyTicksMoveTimer(s: Screen, actions: seq<UiAction>)
    ensures ScreenAfter(s, actions).timer == SessionTimer.TimerAfter(s.timer, TicksOf(s, actions))
  {
    hide Act, SessionTimer.Ticked;
    if actions != [] {
      var before, action := actions[..|actions| - 1], actions[|actions| - 1];
      OnlyTicksMoveTimer(s, before);
      ActMovesTimer(ScreenAfter(s, before), action);
      var ticks := TicksOf(s, actions);
      if action.TickTimer? {
        assert ticks[..|ticks| - 1] == TicksOf(s, before);
      } else {
        assert ticks == TicksOf(s, before);
      }
    }
  }

  lemma ActMovesTimer(s: Screen, action: UiAction)
    ensures Act(s, action).timer ==
            if action.TickTimer?
            then SessionTimer.Ticked(s.timer, SessionTimer.Tick(s.recording, action.measured, action.reset))
            else s.timer
  {
    hide SessionTimer.Ticked, Reselected, IconsAfter, Upsert, Without;
  }

  // ----- Everything else on screen -----

  /** The process is listed, and had its icon before or is listed with one. */
  predicate HasIcon(icons: set<u32>, processes: seq<Process>, pid: u32) {
    exists i | 0 <= i < |processes| :: processes[i].pid == pid && (pid in icons || processes[i].hasIcon)
  }

  lemma IconsAreThoseListed(icons: set<u32>, processes: seq<Process>, pid: u32)
    ensures pid in IconsAfter(icons, processes) <==> HasIcon(icons, processes, pid)
  {
  }

  /** Every setting follows the one action made for it, and only a replaced list changes processes and icons. */
  lemma SettingsFollowTheirActions(s: Screen, action: UiAction)
    ensures var after := Act(s, action);
            && after.filter == (if action.SetFilter? then action.text else s.filter)
            && after.processTab == (if action.SetTab? then action.tab else s.processTab)
            && after.httpsOnly == (if action.SetHttpsOnly? then action.httpsOnly else s.httpsOnly)
            && after.showJa4Differences == (if action.SetJa4Differences? then action.show else s.showJa4Differences)
            && after.recording == (if action.ToggleRecording? then !s.recording else s.recording)
            && after.processes == (if action.ReceiveMessage? && action.message.Processes?
                                   then action.message.processes else s.processes)
            && forall pid :: pid in after.icons <==>
                 if action.ReceiveMessage? && action.message.Processes?
                 then HasIcon(s.icons, action.message.processes, pid) else pid in s.icons
  {
    hide SessionTimer.Ticked, Reselected, IconsAfter, Upsert, Without, HasIcon;
    if action.ReceiveMessage? && action.message.Processes? {
      forall pid { IconsAreThoseListed(s.icons, action.message.processes, pid); }
    }
  }

  /** Action `n` delivers the last error message. */
  predicate IsLastError(actions: seq<UiAction>, n: int) {
    && 0 <= n < |actions| && actions[n].ReceiveMessage? && actions[n].message.Error?
    && forall m | n < m < |actions| :: !(actions[m].ReceiveMessage? && actions[m].message.Error?)
  }

  /** The screen shows the last capture error, whatever happened since; warnings never replace it. */
  lemma {:induction false} LastErrorIsShown(s: Screen, actions: seq<UiAction>)
    ensures forall n | IsLastError(actions, n) ::
              ScreenAfter(s, actions).captureError == Some(actions[n].message.message)
    ensures (forall n :: !IsLastError(actions, n)) ==> ScreenAfter(s, actions).captureError == s.captureError
  {
    hide Act;
    if actions != [] {
      var n := |actions| - 1;
      var before, action := actions[..n], actions[n];
      LastErrorIsShown(s, before);
      ActSetsError(ScreenAfter(s, before), action);
      if action.ReceiveMessage? && action.message.Error? {
        assert IsLastError(actions, n);
      } else {
        forall m ensures IsLastError(actions, m) <==> IsLastError(before, m) {}
      }
    }
  }

  lemma ActSetsError(s: Screen, action: UiAction)
    ensures Act(s, action).captureError ==
            if action.ReceiveMessage? && action.message.Error? then Some(action.message.message) else s.captureError
  {
    hide SessionTimer.Ticked, Reselected, IconsAfter, Upsert, Without;
  }

  /**
   The selected event is dropped by Clear, by showing all processes, and by the two switches that hide rows;
   apart from selecting and replacing processes nothing else touches it, or the selected process.
   */
  lemma SelectionFollowsActions(s: Screen, action: UiAction)
    requires !action.SelectProcess? && !(action.ReceiveMessage? && action.message.Processes?)
    ensures var after := Act(s, action);
            && after.selectedPid == (if action.SelectAll? then None else s.selectedPid)
            && (action.SelectEvent? ==> after.selectedEvent == action.id)
            && (action.Clear? || action.SelectAll? || action.SetHttpsOnly? || action.SetJa4Differences? ==>
                  after.selectedEvent == None)
            && ((action.ReceiveMessage? || action.ToggleRecording? || action.SetTab? || action.SetFilter?
                 || action.TickTimer?) ==> after.selectedEvent == s.selectedEvent)
  {
    hide SessionTimer.Ticked, Reselected, IconsAfter, Upsert, Without;
  }

  // ----- Selecting a process -----

  function ViewOf(s: Screen): Filter.View {
    Filter.View(s.events, s.processes, s.selectedPid, s.processTab, s.httpsOnly, s.showJa4Differences)
  }

  /**
   Selecting a process selects an event exactly when the process has a row; the event is then the earliest
   such row, and it passes the process test on either tab.
   */
  lemma SelectedEventIsEarliestRow(s: Screen, pid: u32)
    ensures var after := WithSelection(s, pid);
            && (after.selectedEvent.Some? <==> exists row :: row in s.events && row.pid == Some(pid))
            && (after.selectedEvent.Some? ==>
                  exists i :: IsFirstOf(s.events, pid, i) && after.selectedEvent == Some(s.events[i].id)
                              && Filter.MatchesSelectedProcess(ViewOf(after), s.events[i]))
  {
    var id := FirstOf(s.events, pid);
    if id.Some? {
      var i :| IsFirstOf(s.events, pid, i);
      assert s.events[i] in s.events;
    }
  }

  // ----- Replacing the process list -----

  /**
   A replaced process list keeps the selected pid if it is still listed. If it is not, the selection moves on
   the Applications tab to the first application of the same name, and otherwise is dropped with its event.
   */
  lemma SelectionSurvivesReplacement(s: Screen, processes: seq<Process>)
    ensures var after := WithProcesses(s, processes);
            && after.processes == processes
            && (s.selectedPid.None? ==> after.selectedPid.None? && after.selectedEvent == s.selectedEvent)
            && (s.selectedPid.Some? && IsListed(processes, s.selectedPid.value) ==> after.selectedPid == s.selectedPid)
            && (after.selectedPid.Some? ==>
                  IsListed(processes, after.selectedPid.value) && after.selectedEvent == s.selectedEvent)
            && (s.selectedPid.Some? && !IsListed(processes, s.selectedPid.value) && after.selectedPid.Some? ==>
                  && s.processTab == Filter.Applications
                  && var known := Filter.FindProcess(s.processes, s.selectedPid.value);
                     known.Some? && exists i :: IsFirstInstance(processes, known.value.name, i)
                                                && processes[i].pid == after.selectedPid.value)
            && (s.selectedPid.Some? && after.selectedPid.None? ==>
                  && after.selectedEvent.None?
                  && forall known, candidate | known in s.processes && candidate in processes
                       && Filter.FindProcess(s.processes, s.selectedPid.value) == Some(known)
                       && s.processTab == Filter.Applications :: !IsInstance(candidate, known.name))
  {
    if s.selectedPid.Some? {
      FindIsListed(processes, s.selectedPid.value);
      var known := Filter.FindProcess(s.processes, s.selectedPid.value);
      if known.Some? { FindApplicationIsExact(processes, known.value.name); }
    }
  }

  /** The process is an open application of this name, in any case. */
  predicate IsInstance(process: Process, name: string) {
    process.application && Text.EqualsIgnoringCase(process.name, name)
  }

  /** Process `i` is an open application of this name, and no earlier one is. */
  predicate IsFirstInstance(processes: seq<Process>, name: string, i: int) {
    0 <= i < |processes| && IsInstance(processes[i], name) && forall j | 0 <= j < i :: !IsInstance(processes[j], name)
  }

  lemma {:induction false} FindIsListed(processes: seq<Process>, pid: u32)
    ensures var found := Filter.FindProcess(processes, pid);
            && (found.Some? <==> IsListed(processes, pid))
            && (found.Some? ==> found.value.pid == pid)
  {
    if processes != [] {
      FindIsListed(processes[1..], pid);
      assert forall i | 1 <= i < |processes| :: processes[i] == processes[1..][i - 1];
      if processes[0].pid == pid {
        assert IsListed(processes, pid);
      } else if IsListed(processes[1..], pid) {
        var i :| 0 <= i < |processes[1..]| && processes[1..][i].pid == pid;
        assert processes[i + 1].pid == pid;
      }
    }
  }

  lemma {:induction false} FindApplicationIsExact(processes: seq<Process>, name: string)
    ensures var found := FindApplication(processes, name);
            && (found.Some? ==>
                  exists i :: IsFirstInstance(processes, name, i) && processes[i] == found.value)
            && (found.None? ==> forall p | p in processes :: !IsInstance(p, name))
  {
    hide Text.EqualsIgnoringCase;
    if processes != [] {
      FindApplicationIsExact(processes[1..], name);
      assert processes == [processes[0]] + processes[1..];
      var found := FindApplication(processes, name);
      if IsInstance(processes[0], name) {
        assert IsFirstInstance(processes, name, 0);
      } else if found.Some? {
        var i :| IsFirstInstance(processes[1..], name, i) && processes[1..][i] == found.value;
        assert forall j | 1 <= j <= i + 1 :: processes[j] == processes[1..][j - 1];
        assert IsFirstInstance(processes, name, i + 1);
      }
    }
  }
}
