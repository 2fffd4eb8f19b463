/** Runs of one entry, and of the whole system, put together from steps that can be taken. */
module OutboxRuns {
  import opened Outbox

  predicate Steps(phase: Phase, e: Entry, actions: seq<Action>, last: Entry, moments: seq<Entry>) {
    && |moments| == |actions| + 1 && moments[0] == e && moments[|actions|] == last
    && forall i :: 0 <= i < |actions| ==>
         Enabled(actions[i], phase, moments[i]) && moments[i + 1] == Apply(actions[i], moments[i])
  }

  /** The actions can be taken one after the other from `e`, and end in `last`. */
  ghost predicate Does(phase: Phase, e: Entry, actions: seq<Action>, last: Entry) {
    exists moments: seq<Entry> :: Steps(phase, e, actions, last, moments)
  }

  lemma {:induction false} DoesNothing(phase: Phase, e: Entry)
    ensures Does(phase, e, [], e)
  {
    assert Steps(phase, e, [], e, [e]);
  }

  lemma {:induction false} Then(phase: Phase, e: Entry, actions: seq<Action>, mid: Entry, a: Action)
    returns (actions': seq<Action>, last: Entry)
    requires Does(phase, e, actions, mid) && Enabled(a, phase, mid)
    ensures actions' == actions + [a] && last == Apply(a, mid) && Does(phase, e, actions', last)
  {
    hide Enabled, Apply;
    actions', last := actions + [a], Apply(a, mid);
    var moments: seq<Entry> :| Steps(phase, e, actions, mid, moments);
    assert Steps(phase, e, actions', last, moments + [last]);
  }

  lemma {:induction false} DoesBoth(phase: Phase, e: Entry, first: seq<Action>, mid: Entry, second: seq<Action>,
                                    last: Entry)
    requires Does(phase, e, first, mid) && Does(phase, mid, second, last)
    ensures Does(phase, e, first + second, last)
    decreases |second|
  {
    hide Enabled, Apply;
    var moments: seq<Entry> :| Steps(phase, mid, second, last, moments);
    if second == [] {
      assert first + second == first;
    } else {
      var n := |second| - 1;
      assert Steps(phase, mid, second[..n], moments[n], moments[..n + 1]);
      DoesBoth(phase, e, first, mid, second[..n], moments[n]);
      var actions, end := Then(phase, e, first + second[..n], moments[n], second[n]);
      assert actions == first + second;
    }
  }

  // ---- The whole system ---------------------------------------------------

  ghost predicate Through(s: State, events: seq<Event>, s': State, states: seq<State>) {
    Run(states, events) && states[0] == s && states[|events|] == s'
  }

  /** The events can happen one after the other from `s`, and end in `s'`. */
  ghost predicate Leads(s: State, events: seq<Event>, s': State) {
    exists states: seq<State> :: Through(s, events, s', states)
  }

  lemma {:induction false} LeadsNowhere(s: State)
    ensures Leads(s, [], s)
  {
    assert Through(s, [], s, [s]);
  }

  lemma {:induction false} LeadsAtOnce(s: State, ev: Event, s': State)
    requires Happens(ev, s, s')
    ensures Leads(s, [ev], s')
  {
    hide Happens;
    assert Through(s, [ev], s', [s, s']);
  }

  lemma {:induction false} LeadsOn(s: State, first: seq<Event>, mid: State, second: seq<Event>, s': State)
    requires Leads(s, first, mid) && Leads(mid, second, s')
    ensures Leads(s, first + second, s')
  {
    hide Happens;
    var one :| Through(s, first, mid, one);
    var other :| Through(mid, second, s', other);
    var states, events := one[..|first|] + other, first + second;
    forall i | 0 <= i < |events|
      ensures Happens(events[i], states[i], states[i + 1])
    {
      if i < |first| {
        assert states[i + 1] == one[i + 1];
      }
    }
    assert Through(s, events, s', states);
  }

  function ActsOn(path: string, actions: seq<Action>): seq<Event> {
    seq(|actions|, i requires 0 <= i < |actions| => Act(path, actions[i]))
  }

  function With(s: State, path: string, e: Entry): State { s.(entries := s.entries[path := e]) }

  /** What one entry can do, it can do in the whole system, while the others do nothing. */
  lemma {:induction false} DoesInSystem(s: State, path: string, actions: seq<Action>, last: Entry)
    requires path in s.entries && Does(s.phase, s.entries[path], actions, last)
    ensures Leads(s, ActsOn(path, actions), With(s, path, last))
  {
    hide Enabled, Apply;
    var moments :| Steps(s.phase, s.entries[path], actions, last, moments);
    var states := seq(|moments|, i requires 0 <= i < |moments| => With(s, path, moments[i]));
    var events := ActsOn(path, actions);
    assert states[0] == s;
    forall i | 0 <= i < |events|
      ensures Happens(events[i], states[i], states[i + 1])
    {
      assert states[i].entries[path] == moments[i];
      assert states[i + 1].entries == states[i].entries[path := moments[i + 1]];
    }
    assert Through(s, events, With(s, path, last), states);
  }

  lemma {:induction false} LeadsKeeps(s: State, events: seq<Event>, s': State)
    requires Inv(s) && Leads(s, events, s')
    ensures Inv(s')
  {
    hide Inv, Run;
    var states :| Through(s, events, s', states);
    RunKeeps(states, events, |events|);
  }
}
