/** The operations on mocks, as runs of the expectation steps. */
module Mocks {
  import opened Words
  import opened Expectation
  import opened ExpectationInvariant
  import opened ExpectationTheorems

  class Mocks {
    var rules: seq<Rule>
    var sequences: seq<Sequence>
    var mocks: seq<Mock>
    var calls: map<Thread, Call>

    function View(): World
      reads this
    {
      World(rules, sequences, mocks, calls)
    }
    ghost predicate Valid()
      reads this
    {
      Invariant(View())
    }

    constructor ()
      ensures Valid() && View() == EMPTY
    {
      rules, sequences, mocks, calls := [], [], [], map[];
      new;
      EmptyInvariant();
    }

    /** Draws the next ticket of a sequence. */
    method Draw(q: nat, id: nat) returns (r: Result<Ticket>)
      requires q < |sequences|
      modifies this`sequences
      ensures r.Ok? <==> old(sequences[q].next) + 1 < W64
      ensures r.Ok? ==> r.value == Ticket(q, old(sequences[q].next)) && sequences == Reserve(old(sequences), q, id)
      ensures r.Err? ==> sequences == old(sequences)
    {
      var progress := sequences[q];
      if progress.next + 1 >= W64 {
        return Err(Error.Expectation);
      }
      sequences := sequences[q := progress.(next := progress.next + 1, owners := progress.owners + [id])];
      r := Ok(Ticket(q, progress.next));
    }

    /** Adds a rule to an active mock, or changes nothing. */
    method AddRule(m: nat, config: Config, once: bool) returns (r: Result<nat>)
      requires Valid() && Free(View(), m) && (config.sequence.Some? ==> config.sequence.value < |sequences|)
      modifies this
      ensures Valid()
      ensures r.Ok? <==> && old(mocks[m].active) && Permitted(config, once)
                         && (config.sequence.Some? ==> old(sequences)[config.sequence.value].next + 1 < W64)
      ensures r.Ok? ==> r.value == old(|rules|) && old(Enabled(View(), Add(m, config, once)))
                        && View() == Next(old(View()), Add(m, config, once))
      ensures r.Ok? ==> Made(old(View()), View(), m, config, once, r.value)
      ensures r.Err? ==> View() == old(View())
    {
      ghost var before := View();
      hide Invariant, Accepted, Permitted, Wanted, Allows;
      AcceptedIs(config, once);
      var count :- Accepted(config, once);
      if !mocks[m].active {
        return Err(Error.Expectation);
      }
      var id := |rules|;
      var ticket: Option<Ticket> := None;
      if config.sequence.Some? {
        var drawn :- Draw(config.sequence.value, id);
        ticket := Some(drawn);
      }
      InvariantKept(before, Add(m, config, once));
      rules := rules + [Rule(m, count, ticket, once, 0, false, 0)];
      mocks := mocks[m := mocks[m].(rules := mocks[m].rules + [id])];
      r := Ok(id);
    }

    /** One rule's answer to a call that matches it. */
    method ClaimRule(id: nat) returns (r: Claim)
      requires id < |rules|
      modifies this`rules, this`sequences
      ensures r == ClaimOf(old(rules[id]), old(sequences))
      ensures r.Taken? ==> && rules == old(rules)[id := old(rules[id]).(calls := old(rules[id]).calls + 1)]
                           && sequences == Advanced(old(rules[id]), id, old(sequences))
      ensures r.Exhausted? ==> rules == old(rules) && sequences == old(sequences)
      ensures r.Refused? ==> rules == old(rules)[id := old(rules[id]).(failed := true)] && sequences == old(sequences)
    {
      var rule := rules[id];
      if rule.count.max == Some(0) {
        rules := rules[id := rule.(failed := true)];
        return Refused;
      }
      if rule.count.max.Some? && rule.calls >= rule.count.max.value {
        return Exhausted;
      }
      var calls := rule.calls + 1;
      if calls >= W64 {
        rules := rules[id := rule.(failed := true)];
        return Refused;
      }
      if rule.ticket.Some? && rule.ticket.value.sequence < |sequences| {
        var q := rule.ticket.value.sequence;
        var progress := sequences[q];
        if progress.cursor != rule.ticket.value.index {
          rules := rules[id := rule.(failed := true)];
          return Refused;
        }
        var step := if rule.count.max == Some(calls) then 1 else 0;
        sequences := sequences[q := progress.(cursor := progress.cursor + step, log := progress.log + [id])];
      }
      rules := rules[id := rule.(calls := calls)];
      r := Taken;
    }

    /** Selects the response for a call. Alone, it is the atomic selection; `None` means that the call panics. */
    method Select(t: Thread, m: nat, wants: set<nat>) returns (r: Option<nat>, ghost trace: seq<Step>)
      requires Valid() && Free(View(), m) && t !in calls
      modifies this
      ensures Valid() && Run(old(View()), trace) == Some(View())
      ensures r == old(Selected(View(), m, wants))
      ensures r.Some? ==> calls == old(calls)[t := Chosen(m, r.value)]
      ensures r.None? ==> calls == old(calls) && m < |mocks| && mocks[m].failed
    {
      hide Invariant, Run, Enabled, Next, Selected;
      ghost var before := View();
      BeginFrame(before, t, m, wants);
      RunNone(before);
      Took(before, [], before, Begin(t, m, wants));
      trace := [] + [Begin(t, m, wants)];
      if !mocks[m].active {
        SelectedNone(before, m, wants);
        mocks := Denied(Begun(mocks, m), m);
        calls := calls[t := Rejecting(m)];
      } else {
        SelectedBegun(before, m, wants);
        mocks := Begun(mocks, m);
        calls := calls[t := Searching(m, wants, mocks[m].rules, 0, mocks[m].cleared)];
        r, trace := Search(t, before, trace);
        if r.Some? {
          return;
        }
      }
      r := None;
      trace := Fail(t, m, before, trace);
    }
    /** Looks through the list until a rule takes or refuses the call, or none is left. */
    method Search(t: Thread, ghost before: World, ghost trace: seq<Step>)
      returns (r: Option<nat>, ghost more: seq<Step>)
      requires Valid() && Run(before, trace) == Some(View()) && Fresh(View(), t)
      modifies this
      ensures Valid() && Run(before, more) == Some(View())
      ensures r == old(Selected(View(), calls[t].mock, calls[t].wants))
      ensures var m := old(calls[t].mock);
              calls == old(calls)[t := if r.Some? then Chosen(m, r.value) else Rejecting(m)]
      ensures |mocks| == |old(mocks)| && mocks[old(calls[t].mock)].checking == old(mocks[calls[t].mock].checking)
    {
      hide Invariant, Run, Enabled, Next, ClaimOf, FirstOpen, Visited, Selected;
      ghost var start := View();
      var call := calls[t];
      more := trace;
      for k := 0 to |call.snapshot|
        invariant Valid() && Run(before, more) == Some(View())
        invariant View() == start.(calls := calls) && calls == old(calls)[t := call.(at := k)]
      {
        ghost var now := View();
        SearchFacts(now, t);
        ghost var step := if call.snapshot[k] in call.wants then Try(t) else Skip(t);
        VisitFrame(now, t);
        VisitedIs(now, t);
        Took(before, more, now, step);
        more := more + [step];
        var claim := Visit(t);
        if !claim.Exhausted? {
          SelectedIs(start, now, t);
          return if claim.Taken? then Some(call.snapshot[k]) else None, more;
        }
      }
      ghost var now := View();
      GiveUpFrame(now, t);
      GivesUpExhausted(now, t);
      SelectedNone(start, call.mock, call.wants);
      Took(before, more, now, GiveUp(t));
      more := more + [GiveUp(t)];
      mocks := Denied(mocks, call.mock);
      calls := calls[t := Rejecting(call.mock)];
      r := None;
    }
    /** Looks at one rule of the list: passes it, takes it or is refused by it. */
    method Visit(t: Thread) returns (claim: Claim)
      requires AtRule(View(), t) && calls[t].mock < |mocks|
      modifies this
      ensures claim == if old(Current(View(), t) in calls[t].wants)
                       then old(ClaimOf(rules[Current(View(), t)], sequences))
                       else Exhausted
      ensures View() == old(Visited(View(), t))
    {
      var call := calls[t];
      var id := call.snapshot[call.at];
      if id !in call.wants {
        calls := calls[t := call.(at := call.at + 1)];
        return Exhausted;
      }
      claim := ClaimRule(id);
      match claim {
        case Taken =>
          mocks := mocks[call.mock := mocks[call.mock].(taken := mocks[call.mock].taken + 1)];
          calls := calls[t := Chosen(call.mock, id)];
        case Refused =>
          mocks := Denied(mocks, call.mock);
          calls := calls[t := Rejecting(call.mock)];
        case Exhausted =>
          calls := calls[t := call.(at := call.at + 1)];
      }
    }
    /** Records that a call was turned down, and ends it. */
    method Fail(t: Thread, m: nat, ghost before: World, ghost trace: seq<Step>) returns (ghost more: seq<Step>)
      requires Valid() && t in calls && calls[t] == Rejecting(m) && Free(View(), m)
               && Run(before, trace) == Some(View())
      modifies this`mocks, this`calls
      ensures Valid() && Run(before, more) == Some(View())
      ensures calls == old(calls) - {t} && |mocks| == |old(mocks)| && mocks[m].failed
    {
      hide Invariant, Run, Enabled, Next;
      RejectFrame(View(), t);
      Took(before, trace, View(), Reject(t));
      more := trace + [Reject(t)];
      mocks := mocks[m := mocks[m].(failed := true, rejected := mocks[m].rejected + 1)];
      calls := calls - {t};
    }

    // Verification

    /** Checks a mock under its lock: no recorded failure, and every listed rule satisfied. */
    method Check(m: nat, clear: bool) returns (ok: bool, ghost trace: seq<Step>)
      requires Valid() && Free(View(), m) && (clear ==> mocks[m].active)
      modifies this`mocks
      ensures Valid() && Run(old(View()), trace) == Some(View())
      ensures ok <==> !old(mocks[m].failed) && AllGood(rules, old(mocks[m].rules))
      ensures mocks == old(mocks)[m := if ok && clear then Cleared(old(mocks[m])) else old(mocks[m])]
    {
      hide Invariant, Run, Enabled, Next, Satisfied;
      ghost var before := View();
      trace := [];
      RunNone(before);
      var mock := mocks[m];
      if mock.failed {
        return false, trace;
      }
      CheckBeginFrame(before, m);
      Took(before, trace, before, CheckBegin(m));
      trace := trace + [CheckBegin(m)];
      mocks := mocks[m := mock.(checking := Some(0))];
      for k := 0 to |mock.rules|
        invariant Valid() && Run(before, trace) == Some(View())
        invariant mocks == old(mocks)[m := mock.(checking := Some(k))]
        invariant AllGood(rules, mock.rules[..k])
      {
        ghost var now := View();
        CheckFacts(now, m);
        assert now.mocks[m] == mock.(checking := Some(k)) && now.mocks[m].rules[k] == mock.rules[k];
        var good := Satisfied(rules[mock.rules[k]]);
        GoodIs(now, mock.rules[k]);
        assert mock.rules[..k + 1] == mock.rules[..k] + [mock.rules[k]];
        CheckFrame(now, m);
        ghost var step := if good then CheckNext(m) else CheckFail(m);
        Took(before, trace, now, step);
        trace := trace + [step];
        mocks := mocks[m := mock.(checking := if good then Some(k + 1) else None)];
        if !good {
          return false, trace;
        }
      }
      CheckEndFrame(View(), m, clear);
      Took(before, trace, View(), CheckEnd(m, clear));
      trace := trace + [CheckEnd(m, clear)];
      mocks := mocks[m := if clear then mock.(rules := [], cleared := mock.cleared + 1) else mock];
      ok := true;
    }
    /** Drops the rules of an active mock once they are all satisfied. */
    method Checkpoint(m: nat) returns (r: Result<()>, ghost trace: seq<Step>)
      requires Valid() && Free(View(), m)
      modifies this`mocks
      ensures Valid() && Run(old(View()), trace) == Some(View())
      ensures r.Ok? <==> old(mocks[m].active && !mocks[m].failed) && AllGood(rules, old(mocks[m].rules))
      ensures r.Ok? ==> && m < |mocks| && mocks[m].rules == []
                        && mocks[m].active && mocks[m].rejected == 0
                        && (forall id | 0 <= id < |rules| && rules[id].mock == m ::
                              Allows(rules[id].count, rules[id].calls))
      ensures r.Err? ==> mocks == old(mocks)
    {
      hide Run, Enabled, Next;
      if !mocks[m].active {
        RunNone(View());
        return Err(Error.Expectation), [];
      }
      var ok;
      ok, trace := Check(m, true);
      if ok {
        ClearedIs(View(), m);
        hide Invariant;
        return Ok(()), trace;
      }
      hide Invariant;
      r := Err(Error.Expectation);
    }
    /** Ends a mock. Later calls are rejected. */
    method Stop(m: nat)
      requires Valid() && Free(View(), m)
      modifies this`mocks
      ensures Valid() && old(Enabled(View(), Deactivate(m))) && View() == Next(old(View()), Deactivate(m))
      ensures m < |mocks| && !mocks[m].active && mocks[m].rules == []
    {
      hide Invariant, Enabled, Next;
      StopFrame(View(), m);
      InvariantKept(View(), Deactivate(m));
      mocks := mocks[m := mocks[m].(active := false, rules := [], cleared := mocks[m].cleared + 1)];
    }
    /** Uses the chosen response. A one-shot response is there to be taken. */
    method TakeResponse(t: Thread) returns (present: bool)
      requires Valid() && t in calls && calls[t].Chosen?
      modifies this
      ensures Valid() && present && old(Enabled(View(), Respond(t))) && View() == Next(old(View()), Respond(t))
    {
      hide Invariant, Enabled, Next;
      ChosenFacts(View(), t);
      InvariantKept(View(), Respond(t));
      var id := calls[t].rule;
      present := !rules[id].once || rules[id].used == 0;
      rules := rules[id := rules[id].(used := rules[id].used + 1)];
      calls := calls - {t};
    }
  }
  /** The rule has refused no call, and has had an allowed number of them. */
  predicate Good(rule: Rule) {
    !rule.failed && rule.count.min <= rule.calls && (rule.count.max.Some? ==> rule.calls <= rule.count.max.value)
  }
  predicate AllGood(rules: seq<Rule>, list: seq<nat>) {
    forall k | 0 <= k < |list| :: list[k] < |rules| && Good(rules[list[k]])
  }
  lemma GoodIs(w: World, id: nat)
    requires Invariant(w) && id < |w.rules|
    ensures Satisfied(w.rules[id]) <==> Good(w.rules[id])
  {
    hide Searches, Checks, Tallied, Responded, Sequences, KnownCall, KnownList, Accounted, Followed, Blamed;
    assert SoundRule(w.rules[id], |w.mocks|, |w.sequences|);
  }
  /** One new rule, at the end of its mock's list and of the sequence it was drawn for. */
  ghost predicate Made(before: World, after: World, m: nat, config: Config, once: bool, id: nat)
    requires m < |before.mocks|
  {
    && id == |before.rules| && |after.rules| == id + 1 && after.rules[..id] == before.rules
    && var rule := after.rules[id];
    && rule.mock == m && rule.once == once && rule.calls == rule.used == 0 && !rule.failed
    && (forall n: nat :: Allows(rule.count, n) <==> Wanted(config, once, n))
    && after.mocks == before.mocks[m := before.mocks[m].(rules := before.mocks[m].rules + [id])]
    && match config.sequence
       case None => rule.ticket.None? && after.sequences == before.sequences
       case Some(q) =>
         && q < |before.sequences| && rule.ticket == Some(Ticket(q, before.sequences[q].next))
         && after.sequences == before.sequences[q := before.sequences[q].(
              next := before.sequences[q].next + 1, owners := before.sequences[q].owners + [id])]
  }
  lemma StopFrame(w: World, m: nat)
    requires Free(w, m)
    ensures Enabled(w, Deactivate(m))
    ensures Next(w, Deactivate(m)) ==
            w.(mocks := w.mocks[m := w.mocks[m].(active := false, rules := [], cleared := w.mocks[m].cleared + 1)])
  {
  }
  lemma ChosenFacts(w: World, t: Thread)
    requires Invariant(w) && t in w.calls && w.calls[t].Chosen?
    ensures w.calls[t].rule < |w.rules|
    ensures Enabled(w, Respond(t)) && (w.rules[w.calls[t].rule].once ==> w.rules[w.calls[t].rule].used == 0)
    ensures var id := w.calls[t].rule;
            Next(w, Respond(t))
              == w.(rules := w.rules[id := w.rules[id].(used := w.rules[id].used + 1)], calls := w.calls - {t})
  {
    hide Searches, Checks, Tallied, Responded, Sequences, SoundRule, KnownList;
    assert KnownCall(w.rules, |w.mocks|, w.calls[t]);
    if w.rules[w.calls[t].rule].once {
      UsedOnce(w, t);
    }
  }
  lemma CheckBeginFrame(w: World, m: nat)
    requires Free(w, m) && !w.mocks[m].failed
    ensures Enabled(w, CheckBegin(m))
            && Next(w, CheckBegin(m)) == w.(mocks := w.mocks[m := w.mocks[m].(checking := Some(0))])
  {
  }
  lemma CheckFacts(w: World, m: nat)
    requires Invariant(w) && m < |w.mocks|
    ensures forall k | 0 <= k < |w.mocks[m].rules| :: w.mocks[m].rules[k] < |w.rules|
  {
    hide Searches, Checks, Tallied, Responded, Sequences, SoundRule;
    forall k | 0 <= k < |w.mocks[m].rules| ensures w.mocks[m].rules[k] < |w.rules| {
      Listed(w.rules, m, w.mocks[m].rules, k);
    }
  }
  lemma CheckFrame(w: World, m: nat)
    requires AtCheck(w, m)
    ensures var mock := w.mocks[m];
            var good := Satisfied(w.rules[mock.rules[mock.checking.value]]);
            var step := if good then CheckNext(m) else CheckFail(m);
            var next := if good then Some(mock.checking.value + 1) else None;
            Enabled(w, step) && Next(w, step) == w.(mocks := w.mocks[m := mock.(checking := next)])
  {
  }
  lemma CheckEndFrame(w: World, m: nat, clear: bool)
    requires m < |w.mocks| && w.mocks[m].checking == Some(|w.mocks[m].rules|) && (clear ==> w.mocks[m].active)
    ensures var mock := w.mocks[m];
            && Enabled(w, CheckEnd(m, clear))
            && Next(w, CheckEnd(m, clear)) ==
               w.(mocks := w.mocks[m := if clear then mock.(checking := None, rules := [], cleared := mock.cleared + 1)
                                        else mock.(checking := None)])
  {
  }
  /** After a checkpoint all rules of the mock so far are satisfied. */
  lemma ClearedIs(w: World, m: nat)
    requires Invariant(w) && m < |w.mocks| && w.mocks[m].active && !w.mocks[m].failed && w.mocks[m].rules == []
    ensures w.mocks[m].rejected == 0
    ensures forall id | 0 <= id < |w.rules| && w.rules[id].mock == m :: Allows(w.rules[id].count, w.rules[id].calls)
  {
    hide Searches, Responded, Sequences, KnownCall, KnownList;
    assert Covered(w.rules, m, w.mocks[m]) && Recorded(w.mocks[m]);
    forall id | 0 <= id < |w.rules| && w.rules[id].mock == m ensures Allows(w.rules[id].count, w.rules[id].calls) {
      assert KnownRule(w.rules, m, id);
      assert SoundRule(w.rules[id], |w.mocks|, |w.sequences|);
    }
  }
  /** A call has just begun on an active mock. */
  predicate Fresh(w: World, t: Thread) {
    && t in w.calls && w.calls[t].Searching? && w.calls[t].at == 0 && w.calls[t].mock < |w.mocks|
    && var mock := w.mocks[w.calls[t].mock];
    mock.active && w.calls[t].snapshot == mock.rules && w.calls[t].cleared == mock.cleared
  }
  lemma SelectedBegun(w: World, m: nat, wants: set<nat>)
    requires m < |w.mocks|
    ensures forall calls :: Selected(w.(mocks := Begun(w.mocks, m), calls := calls), m, wants) == Selected(w, m, wants)
  {
    hide FirstOpen, ClaimOf;
  }
  lemma Took(start: World, trace: seq<Step>, w: World, step: Step)
    requires Run(start, trace) == Some(w) && Invariant(w) && Enabled(w, step)
    ensures Run(start, trace + [step]) == Some(Next(w, step)) && Invariant(Next(w, step))
  {
    hide Run, Enabled, Next, Invariant;
    RunMore(start, trace, step);
    InvariantKept(w, step);
  }
  lemma RunNone(w: World)
    ensures Run(w, []) == Some(w)
  {
  }
  lemma BeginFrame(w: World, t: Thread, m: nat, wants: set<nat>)
    requires Free(w, m) && t !in w.calls
    ensures Enabled(w, Begin(t, m, wants))
    ensures Next(w, Begin(t, m, wants)) ==
            if w.mocks[m].active then
              w.(mocks := Begun(w.mocks, m),
                 calls := w.calls[t := Searching(m, wants, w.mocks[m].rules, 0, w.mocks[m].cleared)])
            else w.(mocks := Denied(Begun(w.mocks, m), m), calls := w.calls[t := Rejecting(m)])
  {
  }
  lemma SearchFacts(w: World, t: Thread)
    requires Invariant(w) && t in w.calls && w.calls[t].Searching?
    ensures forall k | 0 <= k < |w.calls[t].snapshot| :: w.calls[t].snapshot[k] < |w.rules|
  {
    hide Searches, Checks, Tallied, Responded, Sequences, SoundRule;
    assert KnownCall(w.rules, |w.mocks|, w.calls[t]);
    forall k | 0 <= k < |w.calls[t].snapshot| ensures w.calls[t].snapshot[k] < |w.rules| {
      Listed(w.rules, w.calls[t].mock, w.calls[t].snapshot, k);
    }
  }
  function Visited(w: World, t: Thread): World
    requires AtRule(w, t)
  {
    if Current(w, t) in w.calls[t].wants then Tried(w, t)
    else w.(calls := w.calls[t := w.calls[t].(at := w.calls[t].at + 1)])
  }
  lemma SelectedNone(w: World, m: nat, wants: set<nat>)
    requires m < |w.mocks|
    ensures !w.mocks[m].active || FirstOpen(w.rules, w.mocks[m].rules, wants).None? ==> Selected(w, m, wants) == None
  {
  }
  lemma VisitedIs(w: World, t: Thread)
    requires AtRule(w, t) && w.calls[t].mock < |w.mocks|
    ensures var n, call := Visited(w, t), w.calls[t];
            var claim := if Current(w, t) in call.wants then ClaimOf(w.rules[Current(w, t)], w.sequences)
                         else Exhausted;
            && (claim.Exhausted? ==> n == w.(calls := w.calls[t := call.(at := call.at + 1)]))
            && |n.mocks| == |w.mocks| && n.mocks[call.mock].checking == w.mocks[call.mock].checking
            && (claim.Taken? ==> n.calls == w.calls[t := Chosen(call.mock, Current(w, t))])
            && (claim.Refused? ==>
                  n.calls == w.calls[t := Rejecting(call.mock)] && n.mocks == Denied(w.mocks, call.mock))
  {
    hide ClaimOf;
  }
  lemma VisitFrame(w: World, t: Thread)
    requires AtRule(w, t)
    ensures var step := if Current(w, t) in w.calls[t].wants then Try(t) else Skip(t);
            Enabled(w, step) && Next(w, step) == Visited(w, t)
  {
  }
  /** A search that nothing interrupted decides as the atomic selection at its start would have. */
  lemma SelectedIs(before: World, w: World, t: Thread)
    requires Invariant(w) && AtRule(w, t) && Current(w, t) in w.calls[t].wants && w == before.(calls := w.calls)
    requires var m := w.calls[t].mock; m < |w.mocks| && w.mocks[m].active && w.calls[t].cleared == w.mocks[m].cleared
    requires !ClaimOf(w.rules[Current(w, t)], w.sequences).Exhausted?
    ensures Selected(before, w.calls[t].mock, w.calls[t].wants) ==
            if ClaimOf(w.rules[Current(w, t)], w.sequences).Taken? then Some(Current(w, t)) else None
  {
    hide Invariant, ClaimOf;
    VisitFrame(w, t);
    SelectsFirst(w, t);
  }
  lemma GiveUpFrame(w: World, t: Thread)
    requires t in w.calls && w.calls[t].Searching? && w.calls[t].at == |w.calls[t].snapshot|
    ensures Enabled(w, GiveUp(t))
            && Next(w, GiveUp(t))
                 == w.(mocks := Denied(w.mocks, w.calls[t].mock), calls := w.calls[t := Rejecting(w.calls[t].mock)])
  {
  }
  lemma RejectFrame(w: World, t: Thread)
    requires t in w.calls && w.calls[t].Rejecting? && Free(w, w.calls[t].mock)
    ensures var m := w.calls[t].mock;
            && Enabled(w, Reject(t))
            && Next(w, Reject(t))
                 == w.(mocks := w.mocks[m := w.mocks[m].(failed := true, rejected := w.mocks[m].rejected + 1)],
                                        calls := w.calls - {t})
  {
  }
}
