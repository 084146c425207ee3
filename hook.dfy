/**
 The progress hook (`HookClass`): the object whose `hook_function` the engine
 calls with every progress dictionary. It drives two progress bars, modelled
 as plain integers: the per-item bar (maximum and value) and the aggregate bar
 (maximum and value), and keeps the `get_size` flag and the `done` counter.

 `Step` and `Run` are the pure specification of one call and of a sequence of
 calls; the class is the object itself, proved against `Step`.
 */
module Hook {
  import opened Engine

  /** The hook's whole state: the object's own fields and the two bars. */
  datatype State = State(
    getSize: bool,
    done: nat,
    total: int,
    perMaximum: int,
    perValue: int,
    allMaximum: int,
    allValue: int)

  /** The result of one hook call: the state it leaves and whether it
      returned (`ok`) or raised a KeyError on a missing dictionary key. */
  datatype Handled = Handled(state: State, ok: bool)

  /** What construction establishes and every call keeps: the aggregate bar
      shows `done` out of `total`. */
  predicate Valid(s: State) {
    s.allValue == s.done && s.allMaximum == s.total
  }

  /** The state right after `HookClass(per_bar, all_bar, total_value)`; the
      per-item bar keeps the maximum it had before. */
  function Initial(perMaximum: int, totalValue: int): (s: State)
    ensures Valid(s) && s.getSize && s.done == 0
    ensures s.total == totalValue && s.allMaximum == totalValue && s.allValue == 0
    ensures s.perMaximum == perMaximum && s.perValue == 0
  {
    State(getSize := true, done := 0, total := totalValue,
          perMaximum := perMaximum, perValue := 0,
          allMaximum := totalValue, allValue := 0)
  }

  /** One call of `hook_function(dictionary)`. */
  function Step(s: State, e: Event): (r: Handled)
    // the aggregate bar keeps showing done / total
    ensures Valid(s) ==> Valid(r.state)
    ensures r.state.total == s.total && r.state.allMaximum == s.allMaximum
    // done grows by exactly one on a completed "finished" event, else stays
    ensures r.state.done == s.done + (if r.ok && e.status == "finished" then 1 else 0)
    // size capture happens on any event while get_size is set, and only then
    ensures s.getSize && e.totalBytes.Some? ==> r.state.perMaximum == e.totalBytes.value
    ensures !s.getSize ==> r.state.perMaximum == s.perMaximum
    ensures s.getSize && e.totalBytes.None? ==> r == Handled(s, false)
    // "downloading" moves the per-item bar and nothing else
    ensures e.status == "downloading" && r.ok ==>
      e.downloadedBytes.Some? && r.state.perValue == e.downloadedBytes.value && !r.state.getSize
    ensures e.status != "downloading" ==> r.state.perValue == s.perValue
    // a missing "downloaded_bytes" raises after the size capture, before the value is set
    ensures e.status == "downloading" && e.downloadedBytes.None? && !(s.getSize && e.totalBytes.None?) ==>
      !r.ok && r.state.perValue == s.perValue && !r.state.getSize
    // "finished" re-arms the size capture and moves the aggregate bar to done
    ensures e.status == "finished" && r.ok ==> r.state.getSize && r.state.allValue == r.state.done
    ensures e.status != "finished" ==> r.state.allValue == s.allValue
    ensures e.status != "finished" && r.ok ==> !r.state.getSize
    // only a missing "total_bytes" or "downloaded_bytes" raises
    ensures !r.ok <==>
      (s.getSize && e.totalBytes.None?) || (e.status == "downloading" && e.downloadedBytes.None?)
  {
    if s.getSize && e.totalBytes.None? then Handled(s, false)
    else
      var sized := if s.getSize then s.(perMaximum := e.totalBytes.value, getSize := false) else s;
      if e.status == "downloading" then
        if e.downloadedBytes.None? then Handled(sized, false)
        else Handled(sized.(perValue := e.downloadedBytes.value), true)
      else if e.status == "finished" then
        Handled(sized.(getSize := true, done := sized.done + 1, allValue := sized.done + 1), true)
      else Handled(sized, true)
  }

  /** A sequence of hook calls: the engine stops calling the hook once a call
      raises. `handled` is the number of calls that returned. */
  datatype Trace = Trace(state: State, ok: bool, handled: nat)

  function Run(s: State, events: seq<Event>): (t: Trace)
    ensures t.handled <= |events|
    ensures t.ok ==> t.handled == |events|
    decreases |events|
  {
    if events == [] then Trace(s, true, 0)
    else
      var h := Step(s, events[0]);
      if !h.ok then Trace(h.state, false, 0)
      else
        var t := Run(h.state, events[1..]);
        Trace(t.state, t.ok, t.handled + 1)
  }

  /** Number of "finished" events. */
  function CountFinished(events: seq<Event>): nat {
    if events == [] then 0
    else (if events[0].status == "finished" then 1 else 0) + CountFinished(events[1..])
  }

  /** Over any run, `done` grows by the number of "finished" events among the
      calls that returned, so it never decreases; a call that raised is the
      event right after them; the aggregate bar invariant is kept. */
  lemma {:induction false} RunMeaning(s: State, events: seq<Event>)
    ensures var t := Run(s, events);
      && t.state.done == s.done + CountFinished(events[..t.handled])
      && t.state.done >= s.done
      && (!t.ok ==> t.handled < |events| && !Step(Run(s, events[..t.handled]).state, events[t.handled]).ok)
      && t.state.total == s.total && t.state.allMaximum == s.allMaximum
      && (Valid(s) ==> Valid(t.state))
    decreases |events|
  {
    if events != [] {
      var h := Step(s, events[0]);
      assert events[..0] == [];
      if h.ok {
        var rest := events[1..];
        RunMeaning(h.state, rest);
        var t := Run(h.state, rest);
        assert events[..t.handled + 1] == [events[0]] + rest[..t.handled];
        assert [events[0]] + rest[..t.handled] == events[..t.handled + 1];
        assert ([events[0]] + rest[..t.handled])[1..] == rest[..t.handled];
        if !t.ok {
          assert events[..t.handled + 1][1..] == rest[..t.handled];
        }
      }
    }
  }

  /** Running two batches of events one after the other is running their
      concatenation. */
  lemma {:induction false} RunAppend(s: State, a: seq<Event>, b: seq<Event>)
    ensures Run(s, a + b) ==
      var ta := Run(s, a);
      if !ta.ok then ta
      else var tb := Run(ta.state, b); Trace(tb.state, tb.ok, ta.handled + tb.handled)
    decreases |a|
  {
    if a == [] {
      assert a + b == b;
    } else {
      assert (a + b)[0] == a[0] && (a + b)[1..] == a[1..] + b;
      var h := Step(s, a[0]);
      if h.ok {
        RunAppend(h.state, a[1..], b);
      }
    }
  }

  /** A fresh hook that sees a whole run without raising has `done` equal to
      the number of "finished" events, however the "downloading" events were
      interleaved, and its aggregate bar shows that count out of the plan. */
  lemma FreshHookCountsFinished(perMaximum: int, totalValue: int, events: seq<Event>)
    requires Run(Initial(perMaximum, totalValue), events).ok
    ensures var t := Run(Initial(perMaximum, totalValue), events);
      t.state.done == CountFinished(events) &&
      t.state.allValue == CountFinished(events) && t.state.allMaximum == totalValue
  {
    RunMeaning(Initial(perMaximum, totalValue), events);
    assert events[..|events|] == events;
  }

  /** The four dictionaries of one small item, each seen by a fresh hook
      planned for three units whose per-item bar had maximum 1000. */
  lemma OneItemTrace()
    ensures
      var e0 := Event("downloading", Some(100), Some(0));
      var e1 := Event("downloading", Some(100), Some(50));
      var e2 := Event("downloading", Some(100), Some(100));
      var e3 := Event("finished", Some(100), None);
      var s0 := Initial(1000, 3);
      var s1 := Step(s0, e0).state;
      var s2 := Step(s1, e1).state;
      var s3 := Step(s2, e2).state;
      var s4 := Step(s3, e3).state;
      && s1 == State(false, 0, 3, 100, 0, 3, 0)
      && s2 == s1.(perValue := 50)
      && s3 == s1.(perValue := 100)
      && s4 == State(true, 1, 3, 100, 100, 3, 1)
      && Run(s0, [e0, e1, e2, e3]) == Trace(s4, true, 4)
  {
    var e0 := Event("downloading", Some(100), Some(0));
    var e1 := Event("downloading", Some(100), Some(50));
    var e2 := Event("downloading", Some(100), Some(100));
    var e3 := Event("finished", Some(100), None);
    var s0 := Initial(1000, 3);
    var s1 := Step(s0, e0).state;
    var s2 := Step(s1, e1).state;
    var s3 := Step(s2, e2).state;
    var s4 := Step(s3, e3).state;
    assert [e3][1..] == [];
    assert Run(s3, [e3]) == Trace(s4, true, 1);
    assert [e2, e3][1..] == [e3];
    assert Run(s2, [e2, e3]) == Trace(s4, true, 2);
    assert [e1, e2, e3][1..] == [e2, e3];
    assert Run(s1, [e1, e2, e3]) == Trace(s4, true, 3);
    assert [e0, e1, e2, e3][1..] == [e1, e2, e3];
  }

  /** HookClass: `hook_function` updates the fields in place. */
  class HookClass {
    var getSize: bool
    var done: nat
    var total: int
    var perMaximum: int
    var perValue: int
    var allMaximum: int
    var allValue: int

    function Snapshot(): State
      reads this
    {
      State(getSize, done, total, perMaximum, perValue, allMaximum, allValue)
    }

    /** `__init__`: both bar values are reset, the aggregate maximum is the
        planned total; the per-item maximum is whatever the bar had. */
    constructor (perMaximum0: int, totalValue: int)
      ensures Snapshot() == Initial(perMaximum0, totalValue)
      ensures Valid(Snapshot())
      ensures getSize && done == 0 && perValue == 0 && allValue == 0
      ensures allMaximum == totalValue && perMaximum == perMaximum0
    {
      perMaximum := perMaximum0;
      total := totalValue;
      allValue := 0;
      perValue := 0;
      allMaximum := total;
      getSize := true;
      done := 0;
    }

    /** `hook_function(dictionary)`; `ok` is false when a missing key raised
        KeyError, in which case the fields keep what was set before the
        failing lookup. */
    method HookFunction(dictionary: Event) returns (ok: bool)
      modifies this
      ensures Handled(Snapshot(), ok) == Step(old(Snapshot()), dictionary)
      ensures done >= old(done)
      ensures Valid(old(Snapshot())) ==> Valid(Snapshot())
    {
      if getSize {
        if dictionary.totalBytes.None? {
          return false;
        }
        perMaximum := dictionary.totalBytes.value;
        getSize := false;
      }
      if dictionary.status == "downloading" {
        if dictionary.downloadedBytes.None? {
          return false;
        }
        perValue := dictionary.downloadedBytes.value;
      } else if dictionary.status == "finished" {
        getSize := true;
        done := done + 1;
        allValue := done;
      }
      return true;
    }
  }
}
