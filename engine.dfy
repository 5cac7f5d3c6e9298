/**
 * The interval-debt reconciliation engine. The live snapshot
 * {level, lastUpdate, logs}, the count of windows still owed and whether the
 * backlog form is shown are fields of a `Tracker`; each of its handlers is
 * specified by a function from the state before to the state after, and the
 * lemmas below state what those functions promise.
 */
module Engine {
  import opened Reports
  import opened Timing

  datatype Option<T> = None | Some(value: T)

  /** The engine's whole state as a value. */
  datatype Game = Game(
    level: int,
    lastUpdate: int,
    logs: seq<Entry>,
    pendingHours: int,  // windows still owed, as last computed
    modalOpen: bool     // the backlog form is shown
  )

  /** A snapshot as read back from storage; an older snapshot may lack `logs`. */
  datatype Stored = Stored(level: int, lastUpdate: int, logs: Option<seq<Entry>>)

  /** The state the program starts from before anything is loaded. */
  function Initial(now: int): (g: Game)
    ensures g.level == 1 && g.lastUpdate == now && g.logs == []
  {
    Game(1, now, [], 0, false)
  }

  /** A missing `logs` field reads as an empty log; a present one is kept as it is. */
  function DefaultLogs(logs: Option<seq<Entry>>): (r: seq<Entry>)
    ensures logs.None? ==> r == []
    ensures logs.Some? ==> r == logs.value
  {
    match logs
    case None => []
    case Some(l) => l
  }

  /**
   * `loadState`: a stored snapshot replaces level, lastUpdate and logs; with
   * nothing stored, the clock restarts at `now`.
   */
  function Loaded(g: Game, saved: Option<Stored>, now: int): (r: Game)
    ensures r.pendingHours == g.pendingHours && r.modalOpen == g.modalOpen
    ensures saved.None? ==> r == g.(lastUpdate := now)
  {
    match saved
    case None => g.(lastUpdate := now)
    case Some(s) => g.(level := s.level, lastUpdate := s.lastUpdate, logs := DefaultLogs(s.logs))
  }

  /** `checkPendingUpdates`: recompute the debt and show the form exactly when something is owed. */
  function Checked(g: Game, now: int): (r: Game)
    ensures r.pendingHours * ONE_HOUR_MS <= now - g.lastUpdate < (r.pendingHours + 1) * ONE_HOUR_MS
    ensures r.modalOpen <==> now - g.lastUpdate >= ONE_HOUR_MS
    ensures r.level == g.level && r.lastUpdate == g.lastUpdate && r.logs == g.logs
  {
    var n := PendingCount(now, g.lastUpdate);
    BacklogIffWindowElapsed(now, g.lastUpdate);
    g.(pendingHours := n, modalOpen := n > 0)
  }

  /**
   * One owed window paid with accepted answers: the window is logged,
   * backdated to its own end, and `lastUpdate` moves past it. Paying the last
   * window raises the level once, restarts the clock at `now` and hides the form.
   */
  function WindowPaid(g: Game, answers: Answers, now: int): (r: Game)
    ensures r.logs == g.logs + [Entry(Recovery, g.lastUpdate + ONE_HOUR_MS, answers)]
    ensures r.pendingHours == g.pendingHours - 1
    ensures g.pendingHours > 1 ==>
      r.level == g.level && r.lastUpdate == g.lastUpdate + ONE_HOUR_MS && r.modalOpen == g.modalOpen
    ensures g.pendingHours <= 1 ==> r.level == g.level + 1 && r.lastUpdate == now && !r.modalOpen
  {
    var paid := g.(logs := g.logs + [Entry(Recovery, g.lastUpdate + ONE_HOUR_MS, answers)],
                   lastUpdate := g.lastUpdate + ONE_HOUR_MS,
                   pendingHours := g.pendingHours - 1);
    if paid.pendingHours > 0 then paid
    else paid.(level := paid.level + 1, lastUpdate := now, modalOpen := false)
  }

  /** The backlog form's submit handler: a refused form changes nothing, an accepted one pays a window. */
  function PendingSubmitted(g: Game, form: Form, now: int): (r: Game)
    ensures !ValidateInputs(form) ==> r == g
    ensures ValidateInputs(form) ==> r.logs == g.logs + [Entry(Recovery, g.lastUpdate + ONE_HOUR_MS, GetInputValues(form))]
  {
    if !ValidateInputs(form) then g else WindowPaid(g, GetInputValues(form), now)
  }

  /**
   * The main submit handler: an accepted form is logged at `now`, raises the
   * level by one and restarts the clock, however much time has passed.
   */
  function OnTimeSubmitted(g: Game, form: Form, now: int): (r: Game)
    ensures !ValidateInputs(form) ==> r == g
    ensures ValidateInputs(form) ==>
      r.logs == g.logs + [Entry(Regular, now, GetInputValues(form))]
      && r.level == g.level + 1 && r.lastUpdate == now
      && r.pendingHours == g.pendingHours && r.modalOpen == g.modalOpen
  {
    if !ValidateInputs(form) then g
    else g.(logs := g.logs + [Entry(Regular, now, GetInputValues(form))], level := g.level + 1, lastUpdate := now)
  }

  /**
   * The reset handler (already confirmed): log the failure, put the level back
   * to 1 and restart the clock. History is kept; the owed count and the form's
   * visibility are left as they were.
   */
  function LevelReset(g: Game, now: int): (r: Game)
    ensures |r.logs| == |g.logs| + 1 && r.logs[..|g.logs|] == g.logs
    ensures r.logs[|g.logs|] == Entry(Reset, now, RESET_ANSWERS)
    ensures r.level == 1 && r.lastUpdate == now
    ensures r.pendingHours == g.pendingHours && r.modalOpen == g.modalOpen
  {
    g.(logs := g.logs + [Entry(Reset, now, RESET_ANSWERS)], level := 1, lastUpdate := now)
  }

  /** The once-a-second timer: when due and the form is hidden, re-run the backlog check. */
  function Ticked(g: Game, now: int): (r: Game)
    ensures r.level == g.level && r.lastUpdate == g.lastUpdate && r.logs == g.logs
    ensures TimeLeft(g.lastUpdate, now) > 0 || g.modalOpen ==> r == g
  {
    if TimeLeft(g.lastUpdate, now) <= 0 && !g.modalOpen then Checked(g, now) else g
  }

  /** The text the timer shows for a state at `now`. */
  function TimerText(g: Game, now: int): (text: string)
    ensures text == "¡AHORA!" <==> TimeLeft(g.lastUpdate, now) <= 0
  {
    CountdownText(CountdownOf(g.lastUpdate, now))
  }

  /** A state just checked at `now`: its owed count is the count of whole windows since `lastUpdate`. */
  ghost predicate DebtCurrent(g: Game, now: int)
  {
    g.pendingHours == PendingCount(now, g.lastUpdate)
  }

  /** The engine as a mutable object: the persisted snapshot plus the owed count and the form's visibility. */
  class Tracker {
    var level: int
    var lastUpdate: int
    var logs: seq<Entry>
    var pendingHours: int
    var modalOpen: bool

    function State(): Game
      reads this
    {
      Game(level, lastUpdate, logs, pendingHours, modalOpen)
    }

    constructor (now: int)
      ensures State() == Initial(now)
    {
      level, lastUpdate, logs := 1, now, [];
      pendingHours, modalOpen := 0, false;
    }

    method Load(saved: Option<Stored>, now: int)
      modifies this
      ensures State() == Loaded(old(State()), saved, now)
    {
      match saved {
        case None =>
          lastUpdate := now;
        case Some(s) =>
          level, lastUpdate := s.level, s.lastUpdate;
          logs := DefaultLogs(s.logs);
      }
    }

    method CheckPendingUpdates(now: int)
      modifies this
      ensures State() == Checked(old(State()), now)
    {
      pendingHours := PendingCount(now, lastUpdate);
      if pendingHours > 0 {
        modalOpen := true;
      } else {
        modalOpen := false;
      }
    }

    /** Start-up: load the stored snapshot, then check for owed windows. */
    method Start(saved: Option<Stored>, now: int)
      modifies this
      ensures State() == Checked(Loaded(old(State()), saved, now), now)
    {
      Load(saved, now);
      CheckPendingUpdates(now);
    }

    method SubmitPending(form: Form, now: int) returns (accepted: bool)
      modifies this
      ensures accepted == ValidateInputs(form)
      ensures State() == PendingSubmitted(old(State()), form, now)
    {
      if !ValidateInputs(form) {
        return false;
      }
      var logTimestamp := lastUpdate + ONE_HOUR_MS;
      logs := logs + [Entry(Recovery, logTimestamp, GetInputValues(form))];
      lastUpdate := lastUpdate + ONE_HOUR_MS;
      pendingHours := pendingHours - 1;
      if pendingHours <= 0 {
        level := level + 1;
        lastUpdate := now;
        modalOpen := false;
      }
      return true;
    }

    method SubmitOnTime(form: Form, now: int) returns (accepted: bool)
      modifies this
      ensures accepted == ValidateInputs(form)
      ensures State() == OnTimeSubmitted(old(State()), form, now)
    {
      if !ValidateInputs(form) {
        return false;
      }
      logs := logs + [Entry(Regular, now, GetInputValues(form))];
      level := level + 1;
      lastUpdate := now;
      return true;
    }

    method ResetLevel(now: int)
      modifies this
      ensures State() == LevelReset(old(State()), now)
    {
      logs := logs + [Entry(Reset, now, RESET_ANSWERS)];
      level := 1;
      lastUpdate := now;
    }

    method Tick(now: int) returns (text: string)
      modifies this
      ensures text == TimerText(old(State()), now)
      ensures State() == Ticked(old(State()), now)
    {
      var timeLeft := lastUpdate + ONE_HOUR_MS - now;
      text := CountdownText(CountdownOf(lastUpdate, now));
      if timeLeft <= 0 && !modalOpen {
        CheckPendingUpdates(now);
      }
    }
  }
}
