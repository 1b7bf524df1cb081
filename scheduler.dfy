/**
 * The auto-refresh scheduler of src/renderer/app.js: `startAutoUpdate`
 * (idempotent start, the periodic tick and the correction pass run at
 * start), `stopAutoUpdate` and `toggleAutoUpdate`.
 *
 * The step functions below say what each operation does to the scheduler's
 * variables and which names it sends to `updateNickname`; the class
 * AutoUpdater holds the same variables as fields and its methods are proved
 * to follow the step functions. The timer is the `running` flag, and the
 * ticks it would fire are explicit calls. A tick is split at its
 * `await updateNickname(...)`, and the correction pass at its `get-me` call:
 * the rest of each is a later call, so a stop, a toggle or another tick can
 * come in between.
 */
module Scheduler {
  import opened Wrappers
  import opened Strings
  import opened Nickname
  import opened Config

  /** A tick publishes only this many milliseconds after the last recorded publish. */
  const MIN_GAP: int := 55000

  /** `updateInterval` (as `running`), `lastUpdateTime`, `lastNickname` and `isUpdating`. */
  datatype Sched = Sched(running: bool, lastUpdateTime: int, lastNickname: string, isUpdating: bool)

  /** The variables as the module initialises them and as stopping leaves them. */
  const STOPPED: Sched := Sched(false, 0, "", false)

  /** What the scheduler reads and writes: its variables, the settings and the profile's display name. */
  datatype View = View(sched: Sched, settings: Settings, displayName: string)

  /** The view after an operation, and the names it sent to `updateNickname`, in order. */
  datatype Step = Step(next: View, writes: seq<string>)

  /** The name `formatNickname` produces at instant `now`. */
  function Target(v: View, now: int): (name: string) {
    FormatNickname(v.settings.originalNickname, v.displayName, v.settings.timezone, now)
  }

  /** `startAutoUpdate` up to the correction pass's first await. */
  function Start(v: View): (r: View)
    ensures r.sched.running && r.settings == v.settings && r.displayName == v.displayName
    ensures !v.sched.running ==> r.sched.isUpdating
    ensures r.sched.lastNickname == v.sched.lastNickname && r.sched.lastUpdateTime == v.sched.lastUpdateTime
  {
    if v.sched.running then v
    else v.(sched := v.sched.(running := true, isUpdating := true))
  }

  /**
   * One firing of the interval, up to its `await updateNickname(...)`: the
   * name it sends, if any, and the in-flight flag it leaves set.
   */
  function TickStep(v: View, now: int): (r: Step)
    ensures |r.writes| <= 1
    ensures r.writes != [] ==> !v.sched.isUpdating && r.next.sched.isUpdating
    ensures r.next.sched.running == v.sched.running
    ensures r.next.settings == v.settings && r.next.displayName == v.displayName
  {
    var s := v.sched;
    if s.isUpdating then Step(v, [])
    else if now - s.lastUpdateTime < MIN_GAP then Step(v, [])
    else
      var name := Target(v, now);
      if name == s.lastNickname then Step(v, [])
      else Step(v.(sched := s.(isUpdating := true)), [name])
  }

  /**
   * The rest of a tick that sent `name` at `now`, once `updateNickname`
   * returned (`ok` when it resolved): the name and instant are recorded if
   * it resolved, and the in-flight flag is cleared either way, whatever
   * happened to the scheduler meanwhile.
   */
  function TickFinish(v: View, name: string, now: int, ok: bool): (r: View)
    ensures !r.sched.isUpdating && r.sched.running == v.sched.running
    ensures r.settings == v.settings && r.displayName == v.displayName
    ensures ok ==> r.sched.lastNickname == name && r.sched.lastUpdateTime == now
    ensures !ok ==> r.sched.lastNickname == v.sched.lastNickname && r.sched.lastUpdateTime == v.sched.lastUpdateTime
  {
    var s := v.sched.(isUpdating := false);
    if ok then v.(sched := s.(lastNickname := name, lastUpdateTime := now)) else v.(sched := s)
  }

  /**
   * The rest of the correction pass. `current` is the first name `get-me`
   * reported (None when the call failed or the name is missing), the target
   * is formatted at `formatNow`, and `doneNow` is the clock once the write
   * (if any) returned.
   */
  function CorrectionStep(v: View, current: Option<string>, formatNow: int, doneNow: int, ok: bool): (r: Step)
    ensures |r.writes| <= 1 && !r.next.sched.isUpdating
    ensures r.next.sched.running == v.sched.running
    ensures r.next.settings == v.settings && r.next.displayName == v.displayName
  {
    var target := Target(v, formatNow);
    var s := v.sched.(isUpdating := false);
    var recorded := v.(sched := s.(lastNickname := target, lastUpdateTime := doneNow));
    if current != Some(target) then
      if ok then Step(recorded, [target]) else Step(v.(sched := s), [target])
    else Step(recorded, [])
  }

  /** `stopAutoUpdate`. */
  function Stop(v: View): (r: View)
    ensures !r.sched.running && r.settings == v.settings && r.displayName == v.displayName
    ensures v.sched.running ==> r.sched == STOPPED
  {
    if v.sched.running then v.(sched := STOPPED) else v
  }

  /**
   * `toggleAutoUpdate`. Enabling records the base recovered from the
   * display name, then stops and starts the scheduler; disabling stops it and
   * sends the recorded base, if it is non-empty, to `updateNickname`.
   */
  function Toggle(v: View): (r: Step)
    ensures r.next.settings.autoUpdate == !v.settings.autoUpdate
    ensures r.next.sched.running == r.next.settings.autoUpdate
    ensures r.next.displayName == v.displayName
    ensures |r.writes| <= 1 && (r.writes != [] ==> v.settings.autoUpdate)
  {
    if !v.settings.autoUpdate then
      var enabled := v.(settings := v.settings.(autoUpdate := true, originalNickname := Some(BaseOf(v.displayName))));
      Step(Start(Stop(enabled)), [])
    else
      var disabled := Stop(v.(settings := v.settings.(autoUpdate := false)));
      Step(disabled, if Truthy(v.settings.originalNickname) then [v.settings.originalNickname.value] else [])
  }

  /** What can happen while the scheduler runs. */
  datatype Event =
    | Tick(now: int)
    | TickReturns(name: string, sentAt: int, ok: bool)
    | Correction(current: Option<string>, formatNow: int, doneNow: int, ok: bool)

  function Apply(v: View, e: Event): (r: Step) {
    match e
    case Tick(now) => TickStep(v, now)
    case TickReturns(name, sentAt, ok) => Step(TickFinish(v, name, sentAt, ok), [])
    case Correction(current, formatNow, doneNow, ok) => CorrectionStep(v, current, formatNow, doneNow, ok)
  }

  /** A run of events, with every name they sent, in order. */
  function Run(v: View, events: seq<Event>): (r: Step)
    decreases |events|
  {
    if events == [] then Step(v, [])
    else
      var first := Apply(v, events[0]);
      var rest := Run(first.next, events[1..]);
      Step(rest.next, first.writes + rest.writes)
  }

  /** Only firings of the interval, none of them returning. */
  predicate OnlyTicks(events: seq<Event>) {
    forall k :: 0 <= k < |events| ==> events[k].Tick?
  }

  // ---------------------------------------------------------------------------
  // Single calls

  /** Starting a running scheduler changes nothing; starting twice is starting once. */
  lemma StartIdempotent(v: View)
    ensures v.sched.running ==> Start(v) == v
    ensures Start(Start(v)) == Start(v)
    ensures Start(v).sched.running
  {
  }

  /**
   * A tick sends nothing and changes nothing exactly when `isUpdating` is
   * set, less than MIN_GAP has passed, or the name equals the last one.
   */
  lemma TickSkips(v: View, now: int)
    ensures var skip := v.sched.isUpdating || now - v.sched.lastUpdateTime < MIN_GAP
                        || Target(v, now) == v.sched.lastNickname;
            (TickStep(v, now).writes == [] <==> skip) && (skip ==> TickStep(v, now).next == v)
  {
  }

  /**
   * A tick that sends sends the freshly formatted name and, until its write
   * returns, only sets the in-flight flag.
   */
  lemma TickPublishes(v: View, now: int)
    requires TickStep(v, now).writes != []
    ensures TickStep(v, now).writes == [Target(v, now)]
    ensures TickStep(v, now).next == v.(sched := v.sched.(isUpdating := true))
  {
  }

  /**
   * A tick whose write returns before anything else happens: if the write
   * resolved, the name and the tick's instant are recorded; otherwise the
   * scheduler is as it was before the tick.
   */
  lemma TickCompletes(v: View, now: int, ok: bool)
    requires TickStep(v, now).writes != []
    ensures var done := TickFinish(TickStep(v, now).next, Target(v, now), now, ok);
            && (ok ==> done == v.(sched := v.sched.(lastNickname := Target(v, now), lastUpdateTime := now)))
            && (!ok ==> done == v)
  {
  }

  /**
   * A tick whose write returns only after auto-refresh was disabled and
   * enabled again: disabling reset the variables, and the returning tick
   * still records its name and instant over that reset, and clears the
   * in-flight flag that the new correction pass had set, while that pass is
   * still under way.
   */
  lemma StaleTickAfterRestart(v: View, now: int, ok: bool)
    requires v.settings.autoUpdate && v.sched.running && TickStep(v, now).writes != []
    ensures var name := Target(v, now);
            var off := Toggle(TickStep(v, now).next).next;
            var on := Toggle(off).next;
            var late := TickFinish(on, name, now, ok);
            && off.sched == STOPPED
            && on.sched.running && on.sched.isUpdating
            && late.sched.running && !late.sched.isUpdating
            && (ok ==> late.sched.lastNickname == name && late.sched.lastUpdateTime == now)
  {
  }

  /**
   * The correction pass writes exactly when the reported first name differs
   * from the target; it records the target and the time unless the write
   * failed, and always clears the in-flight flag.
   */
  lemma CorrectionWritesOnlyOnDifference(v: View, current: Option<string>, formatNow: int, doneNow: int, ok: bool)
    ensures var s := CorrectionStep(v, current, formatNow, doneNow, ok);
            var target := Target(v, formatNow);
            && (s.writes == [] <==> current == Some(target))
            && (s.writes != [] ==> s.writes == [target])
            && !s.next.sched.isUpdating
            && s.next.sched.running == v.sched.running
            && s.next.settings == v.settings && s.next.displayName == v.displayName
            && (current == Some(target) || ok ==> s.next.sched.lastNickname == target && s.next.sched.lastUpdateTime == doneNow)
            && (current != Some(target) && !ok ==> s.next.sched == v.sched.(isUpdating := false))
  {
  }

  /** Stopping a running scheduler clears every variable; stopping a stopped one changes nothing. */
  lemma StopResets(v: View)
    ensures v.sched.running ==> Stop(v) == v.(sched := STOPPED)
    ensures !v.sched.running ==> Stop(v) == v
    ensures Stop(Stop(v)) == Stop(v)
  {
  }

  /**
   * Disabling stops the scheduler and then sends the recorded base, whenever
   * it is non-empty and wherever it came from (config.json, the base
   * recovered at startup, or an earlier enable); only the setting changes.
   */
  lemma ToggleOff(v: View)
    requires v.settings.autoUpdate
    ensures Toggle(v).writes == (if Truthy(v.settings.originalNickname) then [v.settings.originalNickname.value] else [])
    ensures Toggle(v).next == Stop(v.(settings := v.settings.(autoUpdate := false)))
  {
  }

  /**
   * Enabling records a base free of " | " and restarts the scheduler, sending
   * nothing. The variables are fresh when it was running; when it was not,
   * whatever a late correction pass recorded is kept.
   */
  lemma ToggleOn(v: View)
    requires !v.settings.autoUpdate
    ensures var s := Toggle(v);
            && s.writes == []
            && s.next.settings == v.settings.(autoUpdate := true, originalNickname := Some(BaseOf(v.displayName)))
            && s.next.sched == (if v.sched.running then STOPPED else v.sched).(running := true, isUpdating := true)
            && !Includes(s.next.settings.originalNickname.value, SEPARATOR)
  {
  }

  // ---------------------------------------------------------------------------
  // Runs of events

  /** Ticks and correction passes leave the settings, the display name and the timer alone. */
  lemma {:induction false} RunKeeps(v: View, events: seq<Event>)
    ensures var s := Run(v, events);
            s.next.settings == v.settings && s.next.displayName == v.displayName
            && s.next.sched.running == v.sched.running
    decreases |events|
  {
    if events != [] {
      var first := Apply(v, events[0]);
      RunKeeps(first.next, events[1..]);
    }
  }

  /** While `isUpdating` is set, any number of ticks sends nothing and changes nothing. */
  lemma {:induction false} SingleFlight(v: View, events: seq<Event>)
    requires v.sched.isUpdating && OnlyTicks(events)
    ensures Run(v, events) == Step(v, [])
    decreases |events|
  {
    if events != [] {
      assert events[0].Tick?;
      SingleFlight(v, events[1..]);
    }
  }

  /** Ticks that all fire within MIN_GAP of the last recorded publish send nothing and change nothing. */
  lemma {:induction false} QuietWithinGap(v: View, events: seq<Event>)
    requires OnlyTicks(events)
    requires forall k :: 0 <= k < |events| ==> events[k].now < v.sched.lastUpdateTime + MIN_GAP
    ensures Run(v, events) == Step(v, [])
    decreases |events|
  {
    if events != [] {
      assert events[0].Tick?;
      QuietWithinGap(v, events[1..]);
    }
  }

  /**
   * Debounce: after a tick sends at `t` and its write resolves, ticks before
   * `t + MIN_GAP` publish nothing more.
   */
  lemma Debounce(v: View, t: int, events: seq<Event>)
    requires TickStep(v, t).writes != []
    requires OnlyTicks(events)
    requires forall k :: 0 <= k < |events| ==> events[k].now < t + MIN_GAP
    ensures var done := TickFinish(TickStep(v, t).next, Target(v, t), t, true);
            Run(done, events) == Step(done, [])
  {
    QuietWithinGap(TickFinish(TickStep(v, t).next, Target(v, t), t, true), events);
  }

  /** One event sends at most the formatted name at one instant, and keeps what the formatter reads. */
  lemma ApplySendsTarget(v: View, e: Event)
    ensures forall k :: 0 <= k < |Apply(v, e).writes| ==> exists t :: Apply(v, e).writes[k] == Target(v, t)
    ensures forall t :: Target(Apply(v, e).next, t) == Target(v, t)
  {
    match e
    case Tick(now) =>
      assert forall k :: 0 <= k < |Apply(v, e).writes| ==> Apply(v, e).writes[k] == Target(v, now);
    case TickReturns(_, _, _) =>
      assert Apply(v, e).writes == [];
    case Correction(_, formatNow, _, _) =>
      assert forall k :: 0 <= k < |Apply(v, e).writes| ==> Apply(v, e).writes[k] == Target(v, formatNow);
  }

  /** Every name a run sends is a formatted name on the current base. */
  lemma {:induction false} RunSendsFormattedNames(v: View, events: seq<Event>)
    ensures forall k :: 0 <= k < |Run(v, events).writes| ==>
              exists t :: Run(v, events).writes[k] == Target(v, t)
    decreases |events|
  {
    if events != [] {
      var first := Apply(v, events[0]);
      var rest := Run(first.next, events[1..]);
      ApplySendsTarget(v, events[0]);
      RunSendsFormattedNames(first.next, events[1..]);
      var all := first.writes + rest.writes;
      assert Run(v, events).writes == all;
      forall k | 0 <= k < |all| ensures exists t :: all[k] == Target(v, t) {
        if k < |first.writes| {
          assert all[k] == first.writes[k];
        } else {
          var t :| rest.writes[k - |first.writes|] == Target(first.next, t);
          assert all[k] == Target(v, t);
        }
      }
    } else {
      assert Run(v, events).writes == [];
    }
  }

  /**
   * Enabling, then any ticks and correction passes, then disabling: the
   * scheduler ends stopped with fresh variables, the settings differ from the
   * start only in the recorded base, every name sent in between is that base
   * formatted (the whole display name when the base is empty, which `||`
   * treats as absent), and the last thing sent is the base itself when it is
   * non-empty.
   */
  lemma ToggleRoundTrip(v: View, events: seq<Event>)
    requires !v.settings.autoUpdate
    ensures var on := Toggle(v);
            var mid := Run(on.next, events);
            var off := Toggle(mid.next);
            var base := BaseOf(v.displayName);
            var used := if base != "" then base else v.displayName;
            && on.writes == []
            && (forall k :: 0 <= k < |mid.writes| ==> exists t :: mid.writes[k] == Format(used, v.settings.timezone, t))
            && off.writes == (if base != "" then [base] else [])
            && off.next.sched == STOPPED
            && off.next.settings == v.settings.(originalNickname := Some(base))
            && off.next.displayName == v.displayName
  {
    var on := Toggle(v);
    RunKeeps(on.next, events);
    RunSendsFormattedNames(on.next, events);
    var base := BaseOf(v.displayName);
    var used := if base != "" then base else v.displayName;
    assert forall t :: Target(on.next, t) == Format(used, v.settings.timezone, t);
  }

  /**
   * Disabling does not cancel the correction pass that enabling started: if
   * that pass returns from `get-me` only after the disable, it sends the
   * formatted name after the restore of the base, so the last name sent
   * carries the clock suffix although auto-refresh is off.
   */
  lemma LateCorrectionAfterRestore(v: View, formatNow: int, doneNow: int, ok: bool)
    requires !v.settings.autoUpdate
    ensures var on := Toggle(v);
            var off := Toggle(on.next);
            var late := CorrectionStep(off.next, None, formatNow, doneNow, ok);
            var base := BaseOf(v.displayName);
            var used := if base != "" then base else v.displayName;
            && on.next.sched.isUpdating
            && off.writes == (if base != "" then [base] else [])
            && late.writes == [Format(used, v.settings.timezone, formatNow)]
            && Includes(late.writes[0], SEPARATOR) && !Includes(base, SEPARATOR)
            && !late.next.settings.autoUpdate && !late.next.sched.running
            && (ok ==> late.next.sched.lastNickname == late.writes[0])
  {
    var base := BaseOf(v.displayName);
    var used := if base != "" then base else v.displayName;
    FormatIncludesSeparator(used, v.settings.timezone, formatNow);
  }

  /**
   * `isUpdating` is one flag shared by every pass: enable, disable, enable
   * starts two correction passes, and when the first one finishes it clears
   * the flag while the second is still under way, so a tick is no longer
   * held back by it.
   */
  lemma FlagClearedWhilePassPending(v: View, current: Option<string>, formatNow: int, doneNow: int, ok: bool, now: int)
    requires !v.settings.autoUpdate && !v.sched.running
    ensures var on1 := Toggle(v).next;
            var off := Toggle(on1).next;
            var on2 := Toggle(off).next;
            var first := CorrectionStep(on2, current, formatNow, doneNow, ok).next;
            && on1.sched.isUpdating && on2.sched.isUpdating
            && first.sched.running && !first.sched.isUpdating
            && (TickStep(first, now).writes != [] <==>
                  now - first.sched.lastUpdateTime >= MIN_GAP && Target(first, now) != first.sched.lastNickname)
  {
  }

  // ---------------------------------------------------------------------------
  // The module-level variables as an object

  class AutoUpdater {
    var running: bool
    var lastUpdateTime: int
    var lastNickname: string
    var isUpdating: bool
    var settings: Settings
    var displayName: string
    /** Every name sent to `updateNickname`, in order. */
    ghost var writes: seq<string>
    /** Correction passes started and not yet finished. */
    ghost var pendingCorrections: nat
    /** Ticks waiting on their write: the name each sent and the instant it fired. */
    ghost var pendingTicks: multiset<(string, int)>

    function Model(): View
      reads this
    {
      View(Sched(running, lastUpdateTime, lastNickname, isUpdating), settings, displayName)
    }

    /** The in-flight flag is set only while some tick or correction pass is under way. */
    ghost predicate Valid()
      reads this
    {
      isUpdating ==> pendingCorrections > 0 || |pendingTicks| > 0
    }

    constructor (settings: Settings, displayName: string)
      ensures Valid() && Model() == View(STOPPED, settings, displayName)
      ensures writes == [] && pendingCorrections == 0 && pendingTicks == multiset{}
    {
      running, lastUpdateTime, lastNickname, isUpdating := false, 0, "", false;
      this.settings := settings;
      this.displayName := displayName;
      writes, pendingCorrections, pendingTicks := [], 0, multiset{};
    }

    method StartAutoUpdate()
      requires Valid()
      modifies this
      ensures Valid() && Model() == Start(old(Model())) && writes == old(writes)
      ensures pendingCorrections == old(pendingCorrections) + (if old(running) then 0 else 1)
      ensures pendingTicks == old(pendingTicks)
    {
      if running {
        return;
      }
      running := true;
      isUpdating := true;
      pendingCorrections := pendingCorrections + 1;
    }

    /** The interval fires: the tick up to its `await`, which it leaves pending if it sent a name. */
    method Tick(now: int)
      requires Valid() && running
      modifies this
      ensures var s := TickStep(old(Model()), now);
              && Valid() && Model() == s.next && writes == old(writes) + s.writes
              && pendingTicks == old(pendingTicks) + (if s.writes == [] then multiset{} else multiset{(s.writes[0], now)})
      ensures pendingCorrections == old(pendingCorrections)
    {
      if isUpdating {
        return;
      }
      if now - lastUpdateTime < MIN_GAP {
        return;
      }
      isUpdating := true;
      var nickname := FormatNickname(settings.originalNickname, displayName, settings.timezone, now);
      if nickname == lastNickname {
        isUpdating := false;
        return;
      }
      writes := writes + [nickname];
      pendingTicks := pendingTicks + multiset{(nickname, now)};
    }

    /** A pending tick's write returns (`writeSucceeds` when it resolved), whether or not the scheduler still runs. */
    method FinishTick(name: string, sentAt: int, writeSucceeds: bool)
      requires Valid() && (name, sentAt) in pendingTicks
      modifies this
      ensures Valid() && Model() == TickFinish(old(Model()), name, sentAt, writeSucceeds) && writes == old(writes)
      ensures pendingTicks == old(pendingTicks) - multiset{(name, sentAt)}
      ensures pendingCorrections == old(pendingCorrections)
    {
      if writeSucceeds {
        lastNickname := name;
        lastUpdateTime := sentAt;
      }
      isUpdating := false;
      pendingTicks := pendingTicks - multiset{(name, sentAt)};
    }

    method CompleteCorrection(current: Option<string>, formatNow: int, doneNow: int, writeSucceeds: bool)
      requires Valid() && pendingCorrections > 0
      modifies this
      ensures var s := CorrectionStep(old(Model()), current, formatNow, doneNow, writeSucceeds);
              Valid() && Model() == s.next && writes == old(writes) + s.writes
      ensures pendingCorrections == old(pendingCorrections) - 1
      ensures pendingTicks == old(pendingTicks)
    {
      var newNickname := FormatNickname(settings.originalNickname, displayName, settings.timezone, formatNow);
      if current != Some(newNickname) {
        writes := writes + [newNickname];
        if writeSucceeds {
          lastNickname := newNickname;
          lastUpdateTime := doneNow;
        }
      } else {
        lastNickname := newNickname;
        lastUpdateTime := doneNow;
      }
      isUpdating := false;
      pendingCorrections := pendingCorrections - 1;
    }

    method StopAutoUpdate()
      requires Valid()
      modifies this
      ensures Valid() && Model() == Stop(old(Model())) && writes == old(writes)
      ensures pendingCorrections == old(pendingCorrections) && pendingTicks == old(pendingTicks)
    {
      if running {
        running := false;
        lastUpdateTime := 0;
        lastNickname := "";
        isUpdating := false;
      }
    }

    method ToggleAutoUpdate()
      requires Valid()
      modifies this
      ensures var s := Toggle(old(Model()));
              Valid() && Model() == s.next && writes == old(writes) + s.writes
      ensures pendingCorrections == old(pendingCorrections) + (if old(settings.autoUpdate) then 0 else 1)
      ensures pendingTicks == old(pendingTicks)
    {
      var wasEnabled := settings.autoUpdate;
      settings := settings.(autoUpdate := !wasEnabled);
      if !wasEnabled {
        settings := settings.(originalNickname := Some(BaseOf(displayName)));
        StopAutoUpdate();
        StartAutoUpdate();
      } else {
        StopAutoUpdate();
        if Truthy(settings.originalNickname) {
          writes := writes + [settings.originalNickname.value];
        }
      }
    }
  }

  /**
   * Enabling with a suffixed display name, a tick while the correction pass
   * is under way, the pass itself and a tick too soon after it: only the
   * correction reaches `updateNickname`.
   */
  method ToggleScenario(settings: Settings)
    requires !settings.autoUpdate
  {
    var updater := new AutoUpdater(settings, "Alice | 09:00 | day");
    BaseOfExample();
    updater.ToggleAutoUpdate();
    assert updater.settings.originalNickname == Some("Alice");
    assert updater.running && updater.isUpdating;
    updater.Tick(60000);
    assert updater.writes == [];
    updater.CompleteCorrection(None, 61000, 62000, true);
    assert |updater.writes| == 1 && updater.lastUpdateTime == 62000;
    updater.Tick(116000);
    assert |updater.writes| == 1 && updater.pendingTicks == multiset{};
  }

  /**
   * Enabling and then disabling with a suffixed display name: disabling
   * sends the recovered base and leaves the variables reset; the correction
   * pass enabling started is still pending.
   */
  method RestoreScenario(settings: Settings)
    requires !settings.autoUpdate
  {
    var updater := new AutoUpdater(settings, "Alice | 09:00 | day");
    BaseOfExample();
    updater.ToggleAutoUpdate();
    assert updater.settings.originalNickname == Some("Alice");
    updater.ToggleAutoUpdate();
    assert updater.writes == ["Alice"];
    assert !updater.running && updater.lastNickname == "" && updater.lastUpdateTime == 0;
    assert updater.pendingCorrections == 1;
  }

  /**
   * Enable, disable, enable: two correction passes are under way. The first
   * fails and clears `isUpdating` while the second is still pending, and a
   * tick then sends a name beside it.
   */
  method OverlapScenario(settings: Settings)
    requires !settings.autoUpdate
  {
    var updater := new AutoUpdater(settings, "Alice");
    updater.ToggleAutoUpdate();
    updater.ToggleAutoUpdate();
    updater.ToggleAutoUpdate();
    assert updater.pendingCorrections == 2 && updater.isUpdating;
    updater.CompleteCorrection(None, 1000, 2000, false);
    assert updater.pendingCorrections == 1 && !updater.isUpdating;
    assert updater.lastNickname == "" && updater.lastUpdateTime == 0;
    var before := |updater.writes|;
    updater.Tick(120000);
    assert |updater.writes| == before + 1 && updater.pendingCorrections == 1;
  }
}
