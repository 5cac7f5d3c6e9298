/**
 * What the reconciliation engine promises across calls: paying a backlog one
 * window at a time, the single level step when it is cleared, the timeline
 * the recovery entries form, and that no run of handlers rewrites history.
 */
module EngineProperties {
  import opened Reports
  import opened Timing
  import opened Engine

  /** Paying a window that is not the last keeps the level, moves `lastUpdate` one window on and keeps the count exact. */
  lemma BacklogWindowPaid(g: Game, form: Form, now: int)
    requires ValidateInputs(form)
    requires DebtCurrent(g, now) && g.pendingHours > 1
    ensures var r := PendingSubmitted(g, form, now);
      r.level == g.level && r.lastUpdate == g.lastUpdate + ONE_HOUR_MS
      && r.pendingHours == g.pendingHours - 1 && r.modalOpen == g.modalOpen
      && DebtCurrent(r, now)
  {
    PendingCountAfterOneWindow(now, g.lastUpdate);
  }

  /** Paying the last window raises the level by one, restarts the clock at `now` and hides the form. */
  lemma FinalWindowPaid(g: Game, form: Form, now: int)
    requires ValidateInputs(form) && g.pendingHours == 1
    ensures var r := PendingSubmitted(g, form, now);
      r.level == g.level + 1 && r.lastUpdate == now && r.pendingHours == 0 && !r.modalOpen
  {
  }

  /** Accepted answers paid for owed windows, oldest first, at one instant. */
  function PayAll(g: Game, answers: seq<Answers>, now: int): Game
    decreases answers
  {
    if answers == [] then g else PayAll(WindowPaid(g, answers[0], now), answers[1..], now)
  }

  /** The recovery entries that paying the windows after `lastUpdate` with `answers` writes. */
  function Recoveries(lastUpdate: int, answers: seq<Answers>): seq<Entry>
    decreases answers
  {
    if answers == [] then []
    else [Entry(Recovery, lastUpdate + ONE_HOUR_MS, answers[0])] + Recoveries(lastUpdate + ONE_HOUR_MS, answers[1..])
  }

  /** The i-th recovery entry is stamped at the end of the i-th owed window and carries the i-th answers. */
  lemma {:induction false} RecoveriesAt(lastUpdate: int, answers: seq<Answers>)
    ensures |Recoveries(lastUpdate, answers)| == |answers|
    ensures forall i :: 0 <= i < |answers| ==>
      Recoveries(lastUpdate, answers)[i] == Entry(Recovery, lastUpdate + (i + 1) * ONE_HOUR_MS, answers[i])
    decreases answers
  {
    if answers != [] {
      var rest := Recoveries(lastUpdate + ONE_HOUR_MS, answers[1..]);
      RecoveriesAt(lastUpdate + ONE_HOUR_MS, answers[1..]);
      forall i | 1 <= i < |answers|
        ensures Recoveries(lastUpdate, answers)[i] == Entry(Recovery, lastUpdate + (i + 1) * ONE_HOUR_MS, answers[i])
      {
        assert Recoveries(lastUpdate, answers)[i] == rest[i - 1];
        assert answers[1..][i - 1] == answers[i];
      }
    }
  }

  /**
   * Clearing a backlog of n windows with n accepted answers writes n recovery
   * entries after the existing log, raises the level once (not once per
   * window), sets `lastUpdate` to `now` and hides the form.
   */
  lemma {:induction false} ClearBacklog(g: Game, answers: seq<Answers>, now: int)
    requires |answers| >= 1 && g.pendingHours == |answers|
    ensures var r := PayAll(g, answers, now);
      r.logs == g.logs + Recoveries(g.lastUpdate, answers) && r.level == g.level + 1
      && r.lastUpdate == now && r.pendingHours == 0 && !r.modalOpen
    decreases answers
  {
    var e := Entry(Recovery, g.lastUpdate + ONE_HOUR_MS, answers[0]);
    var rest := answers[1..];
    var g1 := WindowPaid(g, answers[0], now);
    assert PayAll(g, answers, now) == PayAll(g1, rest, now);
    assert Recoveries(g.lastUpdate, answers) == [e] + Recoveries(g.lastUpdate + ONE_HOUR_MS, rest);
    if rest == [] {
      assert Recoveries(g.lastUpdate + ONE_HOUR_MS, rest) == [];
    } else {
      ClearBacklog(g1, rest, now);
      AppendAssociates(g.logs, e, Recoveries(g1.lastUpdate, rest));
    }
  }

  lemma AppendAssociates(a: seq<Entry>, e: Entry, b: seq<Entry>)
    ensures (a + [e]) + b == a + ([e] + b)
  {
  }

  /** The backlog form submitted once per form, in order, at one instant. */
  function SubmitAll(g: Game, forms: seq<Form>, now: int): Game
    decreases forms
  {
    if forms == [] then g else SubmitAll(PendingSubmitted(g, forms[0], now), forms[1..], now)
  }

  /** The answers the forms carry, in order. */
  function AnswersOf(forms: seq<Form>): (r: seq<Answers>)
    ensures |r| == |forms| && forall i :: 0 <= i < |forms| ==> r[i] == GetInputValues(forms[i])
    decreases forms
  {
    if forms == [] then [] else [GetInputValues(forms[0])] + AnswersOf(forms[1..])
  }

  /** When every form is accepted, submitting them pays one window per form with its answers. */
  lemma {:induction false} AcceptedFormsPayWindows(g: Game, forms: seq<Form>, now: int)
    requires forall i :: 0 <= i < |forms| ==> ValidateInputs(forms[i])
    ensures SubmitAll(g, forms, now) == PayAll(g, AnswersOf(forms), now)
    decreases forms
  {
    if forms != [] {
      var g1 := PendingSubmitted(g, forms[0], now);
      assert g1 == WindowPaid(g, GetInputValues(forms[0]), now);
      assert AnswersOf(forms)[1..] == AnswersOf(forms[1..]);
      AcceptedFormsPayWindows(g1, forms[1..], now);
    }
  }

  /**
   * From start-up at `now` with n >= 1 owed windows, answering the form n
   * times: the log gains exactly the n recovery entries after what it held,
   * the level is one higher, `lastUpdate` is `now`, the form is hidden and a
   * fresh check at `now` finds nothing owed.
   */
  lemma CatchUpFromCheck(g: Game, forms: seq<Form>, now: int)
    requires |forms| >= 1 && PendingCount(now, g.lastUpdate) == |forms|
    requires forall i :: 0 <= i < |forms| ==> ValidateInputs(forms[i])
    ensures var r := SubmitAll(Checked(g, now), forms, now);
      r.level == g.level + 1 && r.lastUpdate == now && !r.modalOpen
      && r.logs == g.logs + Recoveries(g.lastUpdate, AnswersOf(forms))
      && Checked(r, now).pendingHours == 0 && !Checked(r, now).modalOpen
  {
    var c := Checked(g, now);
    assert c.pendingHours == |forms| && c.logs == g.logs && c.level == g.level && c.lastUpdate == g.lastUpdate;
    AcceptedFormsPayWindows(c, forms, now);
    ClearBacklog(c, AnswersOf(forms), now);
  }

  /**
   * The recovery entries written while clearing n owed windows are stamped
   * lastUpdate + H, ..., lastUpdate + nH, in that order, and none of them lies
   * after the instant they are written.
   */
  lemma RecoveryTimeline(lastUpdate: int, answers: seq<Answers>, now: int)
    requires |answers| <= PendingCount(now, lastUpdate)
    ensures var recs := Recoveries(lastUpdate, answers);
      |recs| == |answers|
      && forall i :: 0 <= i < |answers| ==>
           recs[i] == Entry(Recovery, lastUpdate + (i + 1) * ONE_HOUR_MS, answers[i])
           && recs[i].timestamp <= now
  {
    RecoveriesAt(lastUpdate, answers);
    var recs := Recoveries(lastUpdate, answers);
    forall i | 0 <= i < |answers|
      ensures recs[i].timestamp <= now
    {
      OwedWindowsHaveEnded(now, lastUpdate, i + 1);
    }
  }

  /** After an on-time report, nothing is owed until a full window has passed. */
  lemma OnTimeRestartsWindow(g: Game, form: Form, now: int, later: int)
    requires ValidateInputs(form) && now <= later < now + ONE_HOUR_MS
    ensures var c := Checked(OnTimeSubmitted(g, form, now), later);
      c.pendingHours == 0 && !c.modalOpen
  {
  }

  /** When the timer finds the deadline passed with the form hidden, the form opens with the exact count owed. */
  lemma TickOpensBacklog(g: Game, now: int)
    requires !g.modalOpen && TimeLeft(g.lastUpdate, now) <= 0
    ensures var r := Ticked(g, now);
      r.modalOpen && r.pendingHours >= 1 && DebtCurrent(r, now)
  {
  }

  /**
   * A reset leaves a stale owed count in place. If windows were still owed,
   * the next accepted backlog form is stamped one window after the reset,
   * later than the instant it is written.
   */
  lemma RecoveryAfterResetIsFutureDated(g: Game, form: Form, now: int)
    requires ValidateInputs(form) && g.pendingHours > 1
    ensures var r := PendingSubmitted(LevelReset(g, now), form, now);
      r.logs[|r.logs| - 1].timestamp == now + ONE_HOUR_MS && r.level == 1 && r.modalOpen == g.modalOpen
  {
  }

  /** One user or timer action, with the instant it happens. */
  datatype Event =
    | Check(at: int)
    | SubmitBacklog(form: Form, at: int)
    | SubmitRegular(form: Form, at: int)
    | ResetLevel(at: int)
    | Tick(at: int)

  function Step(g: Game, e: Event): Game
  {
    match e
    case Check(at) => Checked(g, at)
    case SubmitBacklog(form, at) => PendingSubmitted(g, form, at)
    case SubmitRegular(form, at) => OnTimeSubmitted(g, form, at)
    case ResetLevel(at) => LevelReset(g, at)
    case Tick(at) => Ticked(g, at)
  }

  function Run(g: Game, events: seq<Event>): Game
    decreases events
  {
    if events == [] then g else Run(Step(g, events[0]), events[1..])
  }

  /**
   * No sequence of actions reorders or deletes a log entry: each action adds
   * at most one entry at the end, and a level of at least 1 stays at least 1.
   */
  lemma {:induction false} RunKeepsHistory(g: Game, events: seq<Event>)
    ensures var r := Run(g, events);
      |g.logs| <= |r.logs| <= |g.logs| + |events| && r.logs[..|g.logs|] == g.logs
      && (g.level >= 1 ==> r.level >= 1)
    decreases events
  {
    if events != [] {
      var g1 := Step(g, events[0]);
      assert |g.logs| <= |g1.logs| <= |g.logs| + 1 && g1.logs[..|g.logs|] == g.logs;
      RunKeepsHistory(g1, events[1..]);
      var r := Run(g, events);
      assert r.logs[..|g1.logs|] == g1.logs;
      assert r.logs[..|g.logs|] == g1.logs[..|g.logs|];
    }
  }
}
