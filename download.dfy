/**
 The run wrapper, `download_internal`: the download button is disabled, the
 plan is computed, a fresh hook is built for it, the engine downloads the
 links while calling the hook, a DownloadError from the engine is swallowed,
 and the button is enabled again. Any other exception (from a playlist
 enumeration, from the hook, or from the engine) leaves the function before
 the last line, so the button stays disabled.
 */
module Download {
  import opened Engine
  import opened Planner
  import opened Hook

  datatype ButtonState = Normal | Disabled

  /** How one call of `download_internal` ends. */
  datatype RunResult =
    | Completed(hook: State)        // returned; a DownloadError, if any, was swallowed
    | PlanningRaised(link: string)  // the enumeration of this playlist link raised
    | HookRaised(hook: State)       // the progress hook raised KeyError
    | EngineRaised(hook: State)     // the engine raised something other than DownloadError

  /** The whole call as a function of its inputs: the input text, the format
      string, the playlist enumerations, the per-item bar's maximum before the
      call, and what the engine does. */
  function RunSpec(text: string, quality: string, enumerate: string -> Enumeration,
                   perMaximum: int, run: EngineRun): RunResult
  {
    match Plan(text, quality, enumerate)
    case Err(l) => PlanningRaised(l)
    case Ok(total) =>
      var t := Run(Initial(perMaximum, total), run.events);
      if !t.ok then HookRaised(t.state)
      else if run.outcome == OtherError then EngineRaised(t.state)
      else Completed(t.state)
  }

  /** The button is enabled again exactly when planning and every hook call
      succeed and the engine either returns or raises DownloadError; a failed
      playlist enumeration leaves it disabled. */
  lemma ReenabledIff(text: string, quality: string, enumerate: string -> Enumeration,
                     perMaximum: int, run: EngineRun)
    ensures RunSpec(text, quality, enumerate, perMaximum, run).Completed? <==>
      && Plan(text, quality, enumerate).Ok?
      && Run(Initial(perMaximum, Plan(text, quality, enumerate).value), run.events).ok
      && run.outcome in {Returned, DownloadError}
    ensures Plan(text, quality, enumerate).Err? ==>
      RunSpec(text, quality, enumerate, perMaximum, run) == PlanningRaised(Plan(text, quality, enumerate).link)
  {
    match Plan(text, quality, enumerate)
    case Err(_) =>
    case Ok(total) =>
  }

  /** A DownloadError is indistinguishable from a normal return. */
  lemma DownloadErrorSwallowed(text: string, quality: string, enumerate: string -> Enumeration,
                               perMaximum: int, events: seq<Event>)
    ensures RunSpec(text, quality, enumerate, perMaximum, EngineRun(events, DownloadError)) ==
            RunSpec(text, quality, enumerate, perMaximum, EngineRun(events, Returned))
  {
    match Plan(text, quality, enumerate)
    case Err(_) =>
    case Ok(total) =>
  }

  /** After a completed call the aggregate bar's maximum is the plan and its
      value, like `done`, is the number of "finished" events. */
  lemma CompletedCounts(text: string, quality: string, enumerate: string -> Enumeration,
                        perMaximum: int, run: EngineRun)
    requires RunSpec(text, quality, enumerate, perMaximum, run).Completed?
    ensures var h := RunSpec(text, quality, enumerate, perMaximum, run).hook;
      && Plan(text, quality, enumerate).Ok?
      && h.allMaximum == Plan(text, quality, enumerate).value
      && h.done == CountFinished(run.events)
      && h.allValue == h.done
  {
    FreshHookCountsFinished(perMaximum, Plan(text, quality, enumerate).value, run.events);
  }

  /** One more hook call of the engine's run: it either extends the run or
      is the call that raises and ends it. */
  lemma RunExtend(start: State, events: seq<Event>, i: nat, s: State)
    requires i < |events| && Run(start, events[..i]) == Trace(s, true, i)
    ensures var h := Step(s, events[i]);
      if h.ok then Run(start, events[..i + 1]) == Trace(h.state, true, i + 1)
      else Run(start, events) == Trace(h.state, false, i)
  {
    RunAppend(start, events[..i], [events[i]]);
    assert events[..i] + [events[i]] == events[..i + 1];
    assert [events[i]][1..] == [];
    RunAppend(start, events[..i + 1], events[i + 1..]);
    assert events[..i + 1] + events[i + 1..] == events;
  }

  /** The engine's side of `ydl.download(list_links)` as the hook sees it: the
      hook is called once per event, in order, and an exception it raises
      ends the engine call. */
  method FeedEvents(hook: HookClass, events: seq<Event>) returns (ok: bool)
    modifies hook
    ensures var t := Run(old(hook.Snapshot()), events); ok == t.ok && hook.Snapshot() == t.state
  {
    ghost var start := hook.Snapshot();
    for i := 0 to |events|
      invariant Run(start, events[..i]) == Trace(hook.Snapshot(), true, i)
    {
      ghost var before := hook.Snapshot();
      var handled := hook.HookFunction(events[i]);
      RunExtend(start, events, i, before);
      if !handled {
        return false;
      }
    }
    assert events[..|events|] == events;
    return true;
  }

  /** The download window: the part of it the core drives is the state of
      the download button. */
  class Window {
    var button: ButtonState
    /** Every state the button was configured to, in order. */
    ghost var configured: seq<ButtonState>

    /** `download_internal`. `FeedEvents` stands for the engine calling the
        progress hook while `ydl.download(list_links)` runs. */
    method DownloadInternal(text: string, quality: string, enumerate: string -> Enumeration,
                            perMaximum: int, run: EngineRun) returns (result: RunResult)
      modifies this
      ensures result == RunSpec(text, quality, enumerate, perMaximum, run)
      ensures configured == old(configured) + [Disabled] + (if result.Completed? then [Normal] else [])
      ensures button == (if result.Completed? then Normal else Disabled)
    {
      button := Disabled;
      configured := configured + [Disabled];

      var planned := PlanUnits(text, quality, enumerate);
      if planned.Err? {
        return PlanningRaised(planned.link);
      }
      var hook := new HookClass(perMaximum, planned.value);
      var ok := FeedEvents(hook, run.events);
      if !ok {
        return HookRaised(hook.Snapshot());
      }
      if run.outcome == OtherError {
        return EngineRaised(hook.Snapshot());
      }
      // Returned, or DownloadError caught and ignored
      button := Normal;
      configured := configured + [Normal];
      return Completed(hook.Snapshot());
    }
  }
}
