// The semaphore around argon2 work in auth/users.go: a channel whose entries
// are taken before a hash or a compare and given back by a deferred receive.
module HashSlots {
  import opened Wrappers

  datatype Phase = Waiting | Working | Cancelled | Finished(failed: bool)

  // The entries in the channel, and the calls by identity.
  datatype State = State(entries: nat, calls: map<nat, Phase>)

  // The select takes either branch when both are ready; a call at work is not
  // interrupted, and gives its entry back whether the work failed or not.
  datatype Action = Call(id: nat) | Take(id: nat) | GiveUp(id: nat) | Return(id: nat, failed: bool)

  predicate InPhase(s: State, id: nat, p: Phase) {
    id in s.calls && s.calls[id] == p
  }

  // None where the action cannot happen: a send blocks on a full channel, a
  // receive on an empty one.
  function Step(capacity: nat, s: State, a: Action): Option<State> {
    match a
    case Call(id) => if id in s.calls then None else Some(s.(calls := s.calls[id := Waiting]))
    case Take(id) =>
      if !InPhase(s, id, Waiting) || s.entries >= capacity then None
      else Some(State(s.entries + 1, s.calls[id := Working]))
    case GiveUp(id) => if !InPhase(s, id, Waiting) then None else Some(s.(calls := s.calls[id := Cancelled]))
    case Return(id, failed) =>
      if !InPhase(s, id, Working) || s.entries == 0 then None
      else Some(State(s.entries - 1, s.calls[id := Finished(failed)]))
  }

  function Run(capacity: nat, s: State, actions: seq<Action>): Option<State>
    decreases |actions|
  {
    if actions == [] then Some(s) else
      var next := Step(capacity, s, actions[0]);
      if next.None? then None else Run(capacity, next.value, actions[1..])
  }

  const START := State(0, map[])

  function Workers(s: State): set<nat> {
    set id | id in s.calls && s.calls[id].Working?
  }

  predicate Inv(capacity: nat, s: State) {
    s.entries == |Workers(s)| && s.entries <= capacity
  }

  lemma WorkersStep(capacity: nat, s: State, a: Action)
    requires Step(capacity, s, a).Some?
    ensures var t := Step(capacity, s, a).value;
            Workers(t) == if a.Take? then Workers(s) + {a.id} else if a.Return? then Workers(s) - {a.id} else Workers(s)
    ensures a.Take? ==> a.id !in Workers(s)
    ensures a.Return? ==> a.id in Workers(s)
  {
  }

  lemma StepKeepsInv(capacity: nat, s: State, a: Action)
    requires Inv(capacity, s) && Step(capacity, s, a).Some?
    ensures Inv(capacity, Step(capacity, s, a).value)
  {
    WorkersStep(capacity, s, a);
  }

  // In every run the entries in the channel are the calls at work, and never
  // more than the capacity.
  lemma {:induction false} EntriesAreWorkers(capacity: nat, s: State, actions: seq<Action>)
    requires Inv(capacity, s) && Run(capacity, s, actions).Some?
    ensures Inv(capacity, Run(capacity, s, actions).value)
    decreases |actions|
  {
    if actions != [] {
      StepKeepsInv(capacity, s, actions[0]);
      EntriesAreWorkers(capacity, Step(capacity, s, actions[0]).value, actions[1..]);
    }
  }

  predicate AllOver(s: State) {
    forall id :: id in s.calls ==> s.calls[id].Cancelled? || s.calls[id].Finished?
  }

  // However the calls end, by success, error or cancellation, all entries are back.
  lemma EveryEntryComesBack(capacity: nat, actions: seq<Action>)
    requires Run(capacity, START, actions).Some? && AllOver(Run(capacity, START, actions).value)
    ensures Run(capacity, START, actions).value.entries == 0
  {
    var s := Run(capacity, START, actions).value;
    assert Workers(START) == {};
    EntriesAreWorkers(capacity, START, actions);
    assert Workers(s) == {};
  }

  // The deferred receive never blocks.
  lemma ReturnNeverBlocks(capacity: nat, actions: seq<Action>, id: nat, failed: bool)
    requires Run(capacity, START, actions).Some? && InPhase(Run(capacity, START, actions).value, id, Working)
    ensures Step(capacity, Run(capacity, START, actions).value, Return(id, failed)).Some?
  {
    var s := Run(capacity, START, actions).value;
    assert Workers(START) == {};
    EntriesAreWorkers(capacity, START, actions);
    assert id in Workers(s);
  }

  // A waiter can take an entry at once, or after any one call at work returns;
  // and some call is at work if it cannot do so at once.
  lemma WaiterProceeds(capacity: nat, actions: seq<Action>, id: nat)
    requires capacity > 0
    requires Run(capacity, START, actions).Some? && InPhase(Run(capacity, START, actions).value, id, Waiting)
    ensures var s := Run(capacity, START, actions).value;
            Step(capacity, s, Take(id)).None? <==> |Workers(s)| == capacity
    ensures var s := Run(capacity, START, actions).value;
            |Workers(s)| == capacity ==>
              Workers(s) != {} && forall other, failed :: other in Workers(s) ==> Freed(capacity, s, other, failed, id)
  {
    var s := Run(capacity, START, actions).value;
    assert Workers(START) == {};
    EntriesAreWorkers(capacity, START, actions);
    if |Workers(s)| == capacity {
      assert Workers(s) != {};
      forall other, failed | other in Workers(s) ensures Freed(capacity, s, other, failed, id) {
        assert InPhase(s, other, Working);
      }
    }
  }

  // What a call may always do: start anew, give up waiting without touching the
  // channel, and return what came of its work.
  lemma CallsGoOn(capacity: nat, actions: seq<Action>, id: nat, failed: bool)
    requires Run(capacity, START, actions).Some?
    ensures var s := Run(capacity, START, actions).value;
            && (id !in s.calls ==>
                  Step(capacity, s, Call(id)) == Some(s.(calls := s.calls[id := Waiting])))
            && (InPhase(s, id, Waiting) ==>
                  Step(capacity, s, GiveUp(id)) == Some(s.(calls := s.calls[id := Cancelled])))
            && (InPhase(s, id, Working) ==>
                  s.entries > 0 && s.entries == |Workers(s)| &&
                  Step(capacity, s, Return(id, failed)) ==
                  Some(State(s.entries - 1, s.calls[id := Finished(failed)])))
  {
    var s := Run(capacity, START, actions).value;
    assert Workers(START) == {};
    EntriesAreWorkers(capacity, START, actions);
    if InPhase(s, id, Working) {
      assert id in Workers(s);
    }
  }

  // The return of one call lets another take its entry.
  predicate Freed(capacity: nat, s: State, other: nat, failed: bool, id: nat) {
    var t := Step(capacity, s, Return(other, failed));
    t.Some? && Step(capacity, t.value, Take(id)).Some?
  }
}
