/** What every step of every thread keeps. */
module ExpectationInvariant {
  import opened Words
  import opened Expectation

  // Rules only gain calls

  ghost predicate Grows(before: seq<Rule>, after: seq<Rule>) {
    && |before| <= |after|
    && forall id | 0 <= id < |before| ::
         && after[id].mock == before[id].mock && after[id].count == before[id].count
         && after[id].ticket == before[id].ticket && after[id].once == before[id].once
         && before[id].calls <= after[id].calls
  }
  lemma StepGrows(w: World, step: Step)
    requires Enabled(w, step)
    ensures Grows(w.rules, Next(w, step).rules)
  {
    hide Accepted, Advanced, InTurn;
  }

  // Types of references

  ghost predicate KnownRule(rules: seq<Rule>, m: nat, id: nat) {
    id < |rules| && rules[id].mock == m
  }
  ghost predicate KnownList(rules: seq<Rule>, m: nat, list: seq<nat>) {
    && (forall k | 0 <= k < |list| :: KnownRule(rules, m, list[k]))
    && (forall j, k | 0 <= j < k < |list| :: list[j] != list[k])
  }
  ghost predicate KnownCall(rules: seq<Rule>, mocks: nat, call: Call) {
    && call.mock < mocks
    && (call.Searching? ==> call.at <= |call.snapshot| && KnownList(rules, call.mock, call.snapshot))
    && (call.Chosen? ==> KnownRule(rules, call.mock, call.rule))
  }
  ghost predicate SoundRule(rule: Rule, mocks: nat, sequences: nat) {
    && rule.mock < mocks && Allows(rule.count, rule.count.min)
    && (rule.ticket.Some? ==>
          && rule.ticket.value.sequence < sequences
          && 0 < rule.count.min && rule.count.max == Some(rule.count.min))
    && (rule.once ==> rule.count.max.Some? && rule.count.max.value <= 1)
    && (rule.count.max.Some? ==> rule.calls <= rule.count.max.value) && rule.calls < W64
  }
  ghost predicate Typed(w: World) {
    && (forall id | 0 <= id < |w.rules| :: SoundRule(w.rules[id], |w.mocks|, |w.sequences|))
    && (forall m | 0 <= m < |w.mocks| :: KnownList(w.rules, m, w.mocks[m].rules))
    && (forall t | t in w.calls :: KnownCall(w.rules, |w.mocks|, w.calls[t]))
  }
  lemma ListKept(before: seq<Rule>, after: seq<Rule>, m: nat, list: seq<nat>)
    requires Grows(before, after) && KnownList(before, m, list)
    ensures KnownList(after, m, list)
  {
    forall k | 0 <= k < |list| ensures KnownRule(after, m, list[k]) {
      assert KnownRule(before, m, list[k]);
    }
  }
  lemma RulesSound(w: World, step: Step, id: nat)
    requires Typed(w) && Enabled(w, step) && id < |Next(w, step).rules|
    ensures SoundRule(Next(w, step).rules[id], |Next(w, step).mocks|, |Next(w, step).sequences|)
  {
    if step.Add? {
      AcceptedIs(step.config, step.once);
    }
    hide Accepted, Advanced, InTurn, KnownList, KnownCall, Allows;
  }
  lemma ListsKnown(w: World, step: Step, m: nat)
    requires Typed(w) && Enabled(w, step) && m < |Next(w, step).mocks|
    ensures KnownList(Next(w, step).rules, m, Next(w, step).mocks[m].rules)
  {
    hide Enabled, Next, KnownCall, SoundRule, Grows, KnownList;
    var n := Next(w, step);
    StepGrows(w, step);
    RulesAdded(w, step);
    ListMoves(w, step, m);
    NoList(n.rules, m);
    if m < |w.mocks| {
      ListKept(w.rules, n.rules, m, w.mocks[m].rules);
      if n.mocks[m].rules == w.mocks[m].rules + [|w.rules|] {
        ListMore(w.rules, n.rules, m, w.mocks[m].rules);
      }
    }
  }
  lemma NoList(rules: seq<Rule>, m: nat)
    ensures KnownList(rules, m, [])
  {
  }
  lemma ListMoves(w: World, step: Step, m: nat)
    requires Enabled(w, step) && m < |Next(w, step).mocks|
    ensures var list := Next(w, step).mocks[m].rules;
            || list == []
            || (m < |w.mocks| && list == w.mocks[m].rules)
            || (step.Add? && step.m == m < |w.mocks| && list == w.mocks[m].rules + [|w.rules|])
  {
    hide Accepted, Advanced, InTurn, ClaimOf;
  }
  lemma ListMore(before: seq<Rule>, after: seq<Rule>, m: nat, list: seq<nat>)
    requires KnownList(before, m, list) && KnownList(after, m, list) && KnownRule(after, m, |before|)
    ensures KnownList(after, m, list + [|before|])
  {
    forall k | 0 <= k < |list| ensures list[k] != |before| {
      assert KnownRule(before, m, list[k]);
    }
  }
  lemma CallsKnown(w: World, step: Step, t: Thread)
    requires Typed(w) && Enabled(w, step) && t in Next(w, step).calls
    ensures KnownCall(Next(w, step).rules, |Next(w, step).mocks|, Next(w, step).calls[t])
  {
    StepGrows(w, step);
    hide Accepted, Advanced, InTurn, SoundRule, Grows, KnownList;
    if t in w.calls {
      assert KnownCall(w.rules, |w.mocks|, w.calls[t]);
      if w.calls[t].Searching? {
        ListKept(w.rules, Next(w, step).rules, w.calls[t].mock, w.calls[t].snapshot);
      }
      if AtRule(w, t) {
        Listed(w.rules, w.calls[t].mock, w.calls[t].snapshot, w.calls[t].at);
      }
      if w.calls[t].Chosen? {
        RuleKept(w.rules, Next(w, step).rules, w.calls[t].mock, w.calls[t].rule);
      }
    }
  }
  lemma Listed(rules: seq<Rule>, m: nat, list: seq<nat>, k: nat)
    requires KnownList(rules, m, list) && k < |list|
    ensures KnownRule(rules, m, list[k])
  {
  }
  lemma RuleKept(before: seq<Rule>, after: seq<Rule>, m: nat, id: nat)
    requires Grows(before, after) && KnownRule(before, m, id)
    ensures KnownRule(after, m, id)
  {
  }
  lemma TypedKept(w: World, step: Step)
    requires Typed(w) && Enabled(w, step)
    ensures Typed(Next(w, step))
  {
    hide Enabled, Next, SoundRule, KnownList, KnownCall;
    var n := Next(w, step);
    forall id | 0 <= id < |n.rules| ensures SoundRule(n.rules[id], |n.mocks|, |n.sequences|) {
      RulesSound(w, step, id);
    }
    forall m | 0 <= m < |n.mocks| ensures KnownList(n.rules, m, n.mocks[m].rules) {
      ListsKnown(w, step, m);
    }
    forall t | t in n.calls ensures KnownCall(n.rules, |n.mocks|, n.calls[t]) {
      CallsKnown(w, step, t);
    }
  }

  // Searches

  /** The rules that a search has passed do not match, or are used up for good. */
  ghost predicate Passed(rules: seq<Rule>, call: Call) {
    call.Searching? ==>
      forall j | 0 <= j < call.at <= |call.snapshot| && call.snapshot[j] in call.wants ::
        call.snapshot[j] < |rules| && IsExhausted(rules[call.snapshot[j]])
  }
  /** Until the list is cleared, it only grows behind what a search saw. */
  ghost predicate Recent(mocks: seq<Mock>, call: Call) {
    call.Searching? && call.mock < |mocks| ==>
      && call.cleared <= mocks[call.mock].cleared
      && (call.cleared == mocks[call.mock].cleared ==> call.snapshot <= mocks[call.mock].rules)
  }
  ghost predicate Searches(w: World) {
    forall t | t in w.calls :: Passed(w.rules, w.calls[t]) && Recent(w.mocks, w.calls[t])
  }
  lemma PassedKept(before: seq<Rule>, after: seq<Rule>, call: Call)
    requires Grows(before, after) && Passed(before, call)
    ensures Passed(after, call)
  {
  }
  lemma ClearedGrows(w: World, step: Step, m: nat)
    requires Enabled(w, step) && m < |w.mocks|
    ensures m < |Next(w, step).mocks| && w.mocks[m].cleared <= Next(w, step).mocks[m].cleared
    ensures Next(w, step).mocks[m].cleared == w.mocks[m].cleared ==> w.mocks[m].rules <= Next(w, step).mocks[m].rules
  {
    hide Accepted, Advanced, InTurn, ClaimOf;
  }
  lemma SearchesKept(w: World, step: Step)
    requires Typed(w) && Searches(w) && Enabled(w, step)
    ensures Searches(Next(w, step))
  {
    hide Enabled, Next, Grows, Passed, Recent;
    var n := Next(w, step);
    forall t | t in n.calls ensures Passed(n.rules, n.calls[t]) && Recent(n.mocks, n.calls[t]) {
      SearchKept(w, step, t);
    }
  }
  lemma SearchKept(w: World, step: Step, t: Thread)
    requires Typed(w) && Searches(w) && Enabled(w, step) && t in Next(w, step).calls
    ensures Passed(Next(w, step).rules, Next(w, step).calls[t]) && Recent(Next(w, step).mocks, Next(w, step).calls[t])
  {
    hide Enabled, Next, Grows, IsExhausted, KnownList, SoundRule;
    var n := Next(w, step);
    StepGrows(w, step);
    if t !in w.calls {
      NewSearch(w, step, t);
    } else if n.calls[t].Searching? {
      assert KnownCall(w.rules, |w.mocks|, w.calls[t]);
      CallMoves(w, step, t);
      ClearedGrows(w, step, w.calls[t].mock);
      PassedKept(w.rules, n.rules, w.calls[t]);
    }
  }
  lemma NewSearch(w: World, step: Step, t: Thread)
    requires Enabled(w, step) && t !in w.calls && t in Next(w, step).calls
    ensures Passed(Next(w, step).rules, Next(w, step).calls[t]) && Recent(Next(w, step).mocks, Next(w, step).calls[t])
  {
    hide Accepted, Advanced, InTurn, ClaimOf;
  }
  /** A search stays as it was, or passes one rule. */
  lemma CallMoves(w: World, step: Step, t: Thread)
    requires Enabled(w, step) && t in w.calls && t in Next(w, step).calls && Next(w, step).calls[t].Searching?
    ensures w.calls[t].Searching?
    ensures var call, after := w.calls[t], Next(w, step).calls[t];
            || after == call
            || (&& AtRule(w, t) && after == call.(at := call.at + 1)
                && (Current(w, t) in call.wants ==>
                      IsExhausted(w.rules[Current(w, t)]) && Next(w, step).rules == w.rules))
  {
    hide Accepted, Advanced, InTurn;
  }

  // Verification

  ghost predicate Enough(rules: seq<Rule>, id: nat) {
    id < |rules| && rules[id].calls >= rules[id].count.min
  }
  /** The rules that a verification has seen had calls enough. */
  ghost predicate Seen(rules: seq<Rule>, mock: Mock) {
    mock.checking.Some? ==>
      && !mock.failed && mock.checking.value <= |mock.rules|
      && forall j | 0 <= j < mock.checking.value :: Enough(rules, mock.rules[j])
  }
  /** A rule of an active mock is listed or had calls enough when a checkpoint dropped it. */
  ghost predicate Covered(rules: seq<Rule>, m: nat, mock: Mock) {
    mock.active ==> forall id: nat | KnownRule(rules, m, id) :: id in mock.rules || Enough(rules, id)
  }
  ghost predicate Recorded(mock: Mock) {
    mock.failed <==> mock.rejected > 0
  }
  ghost predicate Checks(w: World) {
    forall m | 0 <= m < |w.mocks| ::
      Seen(w.rules, w.mocks[m]) && Covered(w.rules, m, w.mocks[m]) && Recorded(w.mocks[m])
  }
  lemma ChecksKept(w: World, step: Step)
    requires Typed(w) && Checks(w) && Enabled(w, step)
    ensures Checks(Next(w, step))
  {
    hide Enabled, Next, Seen, Covered, Recorded;
    var n := Next(w, step);
    forall m | 0 <= m < |n.mocks|
      ensures Seen(n.rules, n.mocks[m]) && Covered(n.rules, m, n.mocks[m]) && Recorded(n.mocks[m])
    {
      CheckKept(w, step, m);
    }
  }
  function Cleared(mock: Mock): Mock {
    mock.(rules := [], cleared := mock.cleared + 1)
  }
  /** What a step may do to a mock. */
  ghost predicate Moves(step: Step, m: nat, ids: nat, before: Mock, after: Mock) {
    || after == before.(begun := after.begun, taken := after.taken, denied := after.denied)
    || (step.Add? && step.m == m && before.checking.None? && after == before.(rules := before.rules + [ids]))
    || (step.Reject? && before.checking.None? && after == before.(failed := true, rejected := before.rejected + 1))
    || (step.CheckBegin? && !before.failed && after == before.(checking := Some(0)))
    || (step.CheckNext? && before.checking.Some? && after == before.(checking := Some(before.checking.value + 1)))
    || (step.CheckFail? && after == before.(checking := None))
    || (step.CheckEnd? && before.checking == Some(|before.rules|)
        && (after == before.(checking := None) || after == Cleared(before.(checking := None))))
    || (step.Deactivate? && before.checking.None? && after == Cleared(before.(active := false)))
  }
  lemma MockMoves(w: World, step: Step, m: nat)
    requires Enabled(w, step) && m < |w.mocks|
    ensures m < |Next(w, step).mocks| && Moves(step, m, |w.rules|, w.mocks[m], Next(w, step).mocks[m])
    ensures step.Add? && step.m != m ==> Next(w, step).mocks[m].rules == w.mocks[m].rules
    ensures step.Add? && step.m == m ==> Next(w, step).mocks[m].rules == w.mocks[m].rules + [|w.rules|]
    ensures step.CheckNext? && Next(w, step).mocks[m] != w.mocks[m] ==>
              && w.mocks[m].checking.value < |w.mocks[m].rules|
              && Enough(w.rules, w.mocks[m].rules[w.mocks[m].checking.value]) && Next(w, step).rules == w.rules
  {
    hide Accepted, Advanced, InTurn, ClaimOf;
  }
  lemma CheckKept(w: World, step: Step, m: nat)
    requires Typed(w) && Checks(w) && Enabled(w, step) && m < |Next(w, step).mocks|
    ensures var n := Next(w, step);
            Seen(n.rules, n.mocks[m]) && Covered(n.rules, m, n.mocks[m]) && Recorded(n.mocks[m])
  {
    hide Enabled, Next, Grows, KnownCall, KnownList, SoundRule, KnownRule, Covered;
    var n := Next(w, step);
    StepGrows(w, step);
    RulesAdded(w, step);
    if m < |w.mocks| {
      MockMoves(w, step, m);
      SeenKept(w.rules, n.rules, w.mocks[m]);
      CoveredKept(w, step, m);
    } else {
      FreshMock(w, step, m);
    }
  }
  lemma CoveredKept(w: World, step: Step, m: nat)
    requires Typed(w) && Checks(w) && Enabled(w, step) && m < |w.mocks|
    ensures m < |Next(w, step).mocks| && Covered(Next(w, step).rules, m, Next(w, step).mocks[m])
  {
    hide Enabled, Next, KnownCall, KnownList, SoundRule;
    var n := Next(w, step);
    StepGrows(w, step);
    RulesAdded(w, step);
    MockMoves(w, step, m);
    assert Covered(w.rules, m, w.mocks[m]) && Seen(w.rules, w.mocks[m]);
    forall id: nat | n.mocks[m].active && KnownRule(n.rules, m, id)
      ensures id in n.mocks[m].rules || Enough(n.rules, id)
    {
      if id < |w.rules| {
        assert KnownRule(w.rules, m, id);
      }
    }
  }
  lemma FreshMock(w: World, step: Step, m: nat)
    requires Typed(w) && Enabled(w, step) && |w.mocks| <= m < |Next(w, step).mocks|
    ensures var n := Next(w, step);
            Seen(n.rules, n.mocks[m]) && Covered(n.rules, m, n.mocks[m]) && Recorded(n.mocks[m])
  {
    hide Accepted, Advanced, InTurn, ClaimOf, KnownCall, KnownList, Allows;
  }
  lemma SeenKept(before: seq<Rule>, after: seq<Rule>, mock: Mock)
    requires Grows(before, after) && Seen(before, mock)
    ensures Seen(after, mock)
  {
  }
  lemma RulesAdded(w: World, step: Step)
    requires Enabled(w, step)
    ensures |Next(w, step).rules| == |w.rules| + if step.Add? then 1 else 0
    ensures step.Add? ==> Next(w, step).rules[|w.rules|].mock == step.m
  {
    hide Accepted, Advanced, InTurn;
  }

  // Conservation of calls

  ghost function SumCalls(rules: seq<Rule>, m: nat): nat {
    if rules == [] then 0
    else
      var last := rules[|rules| - 1];
      SumCalls(rules[..|rules| - 1], m) + if last.mock == m then last.calls else 0
  }
  lemma {:induction false} SumChanged(rules: seq<Rule>, id: nat, rule: Rule, m: nat)
    requires id < |rules| && rule.mock == rules[id].mock
    ensures SumCalls(rules[id := rule], m) == SumCalls(rules, m)
              + if rule.mock == m then rule.calls - rules[id].calls else 0
  {
    var n := |rules| - 1;
    if id == n {
      assert rules[id := rule][..n] == rules[..n];
    } else {
      assert rules[id := rule][..n] == rules[..n][id := rule];
      SumChanged(rules[..n], id, rule, m);
    }
  }
  lemma SumMore(rules: seq<Rule>, rule: Rule, m: nat)
    requires rule.calls == 0
    ensures SumCalls(rules + [rule], m) == SumCalls(rules, m)
  {
    assert (rules + [rule])[..|rules|] == rules;
  }
  lemma {:induction false} SumNone(rules: seq<Rule>, m: nat)
    requires forall id | 0 <= id < |rules| :: rules[id].mock != m
    ensures SumCalls(rules, m) == 0
  {
    if rules != [] {
      SumNone(rules[..|rules| - 1], m);
    }
  }
  /** Every call that got a response is counted by exactly one rule of its mock. */
  ghost predicate Tallied(w: World) {
    forall m | 0 <= m < |w.mocks| :: w.mocks[m].taken == SumCalls(w.rules, m)
  }
  predicate Takes(w: World, step: Step) {
    step.Try? && AtRule(w, step.t) && ClaimOf(w.rules[Current(w, step.t)], w.sequences).Taken?
  }
  lemma TakenKept(w: World, step: Step, m: nat)
    requires Enabled(w, step) && m < |w.mocks|
    ensures m < |Next(w, step).mocks|
    ensures Next(w, step).mocks[m].taken
            == w.mocks[m].taken + if Takes(w, step) && w.calls[step.t].mock == m then 1 else 0
  {
    hide Accepted, Advanced, InTurn, ClaimOf;
  }
  /** The rules after a step: one more, or one changed. */
  lemma RulesChanged(w: World, step: Step) returns (id: nat)
    requires Enabled(w, step)
    ensures var n := Next(w, step);
            || (!Takes(w, step) && n.rules == w.rules)
            || (&& step.Add? && id == |w.rules| && |n.rules| == id + 1
                && n.rules[..id] == w.rules && n.rules[id].calls == 0)
            || (&& id < |w.rules| && |n.rules| == |w.rules| && n.rules == w.rules[id := n.rules[id]]
                && n.rules[id].mock == w.rules[id].mock
                && n.rules[id].calls == w.rules[id].calls + if Takes(w, step) then 1 else 0)
    ensures Takes(w, step) ==> id == Current(w, step.t)
  {
    hide Accepted, Advanced, InTurn;
    id := if step.Try? then Current(w, step.t) else if step.Respond? then w.calls[step.t].rule else |w.rules|;
  }
  lemma SumKept(w: World, step: Step, m: nat)
    requires Typed(w) && Enabled(w, step)
    ensures SumCalls(Next(w, step).rules, m)
            == SumCalls(w.rules, m) + if Takes(w, step) && w.calls[step.t].mock == m then 1 else 0
  {
    hide Enabled, Next, SumCalls, ClaimOf, SoundRule, KnownList;
    var n := Next(w, step);
    var id := RulesChanged(w, step);
    if Takes(w, step) {
      assert KnownCall(w.rules, |w.mocks|, w.calls[step.t]);
      Listed(w.rules, w.calls[step.t].mock, w.calls[step.t].snapshot, w.calls[step.t].at);
    }
    if n.rules != w.rules {
      if id < |w.rules| {
        SumChanged(w.rules, id, n.rules[id], m);
      } else {
        SumMore(w.rules, n.rules[id], m);
        assert n.rules == w.rules + [n.rules[id]];
      }
    }
  }
  lemma TalliedKept(w: World, step: Step)
    requires Typed(w) && Tallied(w) && Enabled(w, step)
    ensures Tallied(Next(w, step))
  {
    var n := Next(w, step);
    MocksAdded(w, step);
    hide Enabled, Next, SumCalls, ClaimOf, KnownList, KnownCall;
    forall m | 0 <= m < |n.mocks| ensures n.mocks[m].taken == SumCalls(n.rules, m) {
      SumKept(w, step, m);
      if m < |w.mocks| {
        TakenKept(w, step, m);
      } else {
        SumNone(w.rules, m);
        TakerKnown(w, step);
      }
    }
  }
  lemma TakerKnown(w: World, step: Step)
    requires Typed(w) && Enabled(w, step)
    ensures Takes(w, step) ==> w.calls[step.t].mock < |w.mocks|
  {
    hide Enabled, ClaimOf;
    if Takes(w, step) {
      assert KnownCall(w.rules, |w.mocks|, w.calls[step.t]);
    }
  }
  lemma MocksAdded(w: World, step: Step)
    requires Enabled(w, step)
    ensures |w.mocks| <= |Next(w, step).mocks|
    ensures forall m | |w.mocks| <= m < |Next(w, step).mocks| ::
              && Next(w, step).mocks[m].taken == Next(w, step).mocks[m].denied == Next(w, step).mocks[m].rejected == 0
              && Next(w, step).mocks[m].begun == 0
  {
    hide Accepted, Advanced, InTurn, ClaimOf;
  }

  // Responses

  ghost function Pending(calls: map<Thread, Call>, id: nat): set<Thread> {
    set t | t in calls && calls[t].Chosen? && calls[t].rule == id
  }
  ghost predicate Responded(w: World) {
    forall id | 0 <= id < |w.rules| :: w.rules[id].used + |Pending(w.calls, id)| == w.rules[id].calls
  }
  predicate Responds(w: World, step: Step, id: nat) {
    step.Respond? && step.t in w.calls && w.calls[step.t].Chosen? && w.calls[step.t].rule == id
  }
  predicate TakesOf(w: World, step: Step, id: nat) {
    Takes(w, step) && Current(w, step.t) == id
  }
  lemma PendingKept(w: World, step: Step, id: nat)
    requires Enabled(w, step)
    ensures var before, after := Pending(w.calls, id), Pending(Next(w, step).calls, id);
            if TakesOf(w, step, id) then after == before + {step.t} && step.t !in before
            else if Responds(w, step, id) then after == before - {step.t} && step.t in before
            else after == before
  {
    hide Accepted, Advanced, InTurn;
  }
  lemma UsedKept(w: World, step: Step, id: nat)
    requires Enabled(w, step) && id < |w.rules|
    ensures id < |Next(w, step).rules|
    ensures Next(w, step).rules[id].used == w.rules[id].used + if Responds(w, step, id) then 1 else 0
    ensures Next(w, step).rules[id].calls == w.rules[id].calls + if TakesOf(w, step, id) then 1 else 0
  {
    hide Accepted, Advanced, InTurn;
  }
  lemma RespondedKept(w: World, step: Step)
    requires Typed(w) && Responded(w) && Enabled(w, step)
    ensures Responded(Next(w, step))
  {
    hide Enabled, Next, Pending, KnownList, SoundRule, ClaimOf;
    var n := Next(w, step);
    RulesAdded(w, step);
    forall id | 0 <= id < |n.rules| ensures n.rules[id].used + |Pending(n.calls, id)| == n.rules[id].calls {
      PendingKept(w, step, id);
      if id < |w.rules| {
        UsedKept(w, step, id);
      } else {
        NewRule(w, step);
      }
    }
  }
  lemma NewRule(w: World, step: Step)
    requires Typed(w) && Enabled(w, step) && step.Add?
    ensures var id := |w.rules|;
            && |Next(w, step).rules| == id + 1 && Next(w, step).rules[id].calls == 0 == Next(w, step).rules[id].used
            && Pending(w.calls, id) == {}
  {
    hide Accepted, KnownList, SoundRule;
    forall t | t in w.calls && w.calls[t].Chosen? ensures w.calls[t].rule != |w.rules| {
      assert KnownCall(w.rules, |w.mocks|, w.calls[t]);
    }
  }

  // Calls that were turned down

  ghost function Unrecorded(calls: map<Thread, Call>, m: nat): set<Thread> {
    set t | t in calls && calls[t] == Rejecting(m)
  }
  /** Every call that was turned down has recorded it or is about to. */
  ghost predicate Accounted(w: World) {
    forall m | 0 <= m < |w.mocks| :: w.mocks[m].denied == w.mocks[m].rejected + |Unrecorded(w.calls, m)|
  }
  predicate Denies(w: World, step: Step, m: nat) {
    || (step.Begin? && step.m == m && m < |w.mocks| && !w.mocks[m].active)
    || (&& step.Try? && AtRule(w, step.t) && w.calls[step.t].mock == m
        && ClaimOf(w.rules[Current(w, step.t)], w.sequences).Refused?)
    || (step.GiveUp? && step.t in w.calls && w.calls[step.t].mock == m)
  }
  predicate Records(w: World, step: Step, m: nat) {
    step.Reject? && step.t in w.calls && w.calls[step.t].mock == m
  }
  lemma CountersKept(w: World, step: Step, m: nat)
    requires Enabled(w, step) && m < |w.mocks|
    ensures m < |Next(w, step).mocks|
    ensures Next(w, step).mocks[m].denied == w.mocks[m].denied + if Denies(w, step, m) then 1 else 0
    ensures Next(w, step).mocks[m].rejected == w.mocks[m].rejected + if Records(w, step, m) then 1 else 0
  {
    hide Accepted, Advanced, InTurn, ClaimOf;
  }
  lemma UnrecordedKept(w: World, step: Step, m: nat)
    requires Enabled(w, step)
    ensures var before, after := Unrecorded(w.calls, m), Unrecorded(Next(w, step).calls, m);
            if Denies(w, step, m) then after == before + {step.t} && step.t !in before
            else if Records(w, step, m) then after == before - {step.t} && step.t in before
            else after == before
  {
    hide Accepted, Advanced, InTurn, ClaimOf, Denied;
  }
  lemma AccountedKept(w: World, step: Step)
    requires Typed(w) && Accounted(w) && Enabled(w, step)
    ensures Accounted(Next(w, step))
  {
    hide Enabled, Next, Unrecorded, ClaimOf, KnownList, SoundRule;
    var n := Next(w, step);
    MocksAdded(w, step);
    forall m | 0 <= m < |n.mocks| ensures n.mocks[m].denied == n.mocks[m].rejected + |Unrecorded(n.calls, m)| {
      if m < |w.mocks| {
        UnrecordedKept(w, step, m);
        CountersKept(w, step, m);
      } else {
        NoneUnrecorded(w, step, m);
      }
    }
  }
  lemma NoneUnrecorded(w: World, step: Step, m: nat)
    requires Typed(w) && Enabled(w, step) && |w.mocks| <= m < |Next(w, step).mocks|
    ensures Unrecorded(Next(w, step).calls, m) == {}
  {
    TypedKept(w, step);
    hide Accepted, Advanced, InTurn, ClaimOf, KnownList, SoundRule;
    forall t | t in w.calls ensures w.calls[t] != Rejecting(m) {
      assert KnownCall(w.rules, |w.mocks|, w.calls[t]);
    }
  }

  /** A rule that refused a call had it turned down. */
  ghost predicate Blamed(w: World) {
    forall id | 0 <= id < |w.rules| && w.rules[id].failed ::
      w.rules[id].mock < |w.mocks| && w.mocks[w.rules[id].mock].denied > 0
  }
  lemma RefusesFor(w: World, step: Step, id: nat)
    requires Enabled(w, step) && id < |Next(w, step).rules| && Next(w, step).rules[id].failed
    ensures id < |w.rules| && Next(w, step).rules[id].mock == w.rules[id].mock
    ensures w.rules[id].failed || (&& step.Try? && AtRule(w, step.t) && Current(w, step.t) == id
                                   && ClaimOf(w.rules[id], w.sequences).Refused?)
  {
    hide Accepted, Advanced, InTurn, ClaimOf;
  }
  lemma BlamedKept(w: World, step: Step)
    requires Typed(w) && Blamed(w) && Enabled(w, step)
    ensures Blamed(Next(w, step))
  {
    hide Enabled, Next, ClaimOf, SoundRule;
    var n := Next(w, step);
    forall id | 0 <= id < |n.rules| && n.rules[id].failed
      ensures n.rules[id].mock < |n.mocks| && n.mocks[n.rules[id].mock].denied > 0
    {
      RefusesFor(w, step, id);
      var m := w.rules[id].mock;
      if !w.rules[id].failed {
        var call := w.calls[step.t];
        assert KnownCall(w.rules, |w.mocks|, call);
        Listed(w.rules, call.mock, call.snapshot, call.at);
      }
      CountersKept(w, step, m);
    }
  }

  // Calls that began

  ghost function Looking(calls: map<Thread, Call>, m: nat): set<Thread> {
    set t | t in calls && calls[t].Searching? && calls[t].mock == m
  }
  /** Every call that began was answered, turned down, or is still looking for its rule. */
  ghost predicate Followed(w: World) {
    forall m | 0 <= m < |w.mocks| ::
      w.mocks[m].begun == w.mocks[m].taken + w.mocks[m].denied + |Looking(w.calls, m)|
  }
  predicate Starts(step: Step, m: nat) {
    step.Begin? && step.m == m
  }
  predicate TakesFor(w: World, step: Step, m: nat) {
    Takes(w, step) && w.calls[step.t].mock == m
  }
  lemma BegunKept(w: World, step: Step, m: nat)
    requires Enabled(w, step) && m < |w.mocks|
    ensures m < |Next(w, step).mocks|
    ensures Next(w, step).mocks[m].begun == w.mocks[m].begun + if Starts(step, m) then 1 else 0
  {
    hide Accepted, Advanced, InTurn, ClaimOf;
  }
  lemma LookingKept(w: World, step: Step, m: nat)
    requires Enabled(w, step)
    ensures var before, after := Looking(w.calls, m), Looking(Next(w, step).calls, m);
            if Starts(step, m) && !Denies(w, step, m) then after == before + {step.t} && step.t !in before
            else if !Starts(step, m) && (Denies(w, step, m) || TakesFor(w, step, m)) then
              after == before - {step.t} && step.t in before
            else after == before
  {
    hide Accepted, Advanced, InTurn, ClaimOf, Denied, Begun;
  }
  lemma FollowedKept(w: World, step: Step)
    requires Typed(w) && Followed(w) && Enabled(w, step)
    ensures Followed(Next(w, step))
  {
    hide Enabled, Next, Looking, ClaimOf, KnownList, SoundRule;
    var n := Next(w, step);
    MocksAdded(w, step);
    forall m | 0 <= m < |n.mocks|
      ensures n.mocks[m].begun == n.mocks[m].taken + n.mocks[m].denied + |Looking(n.calls, m)|
    {
      if m < |w.mocks| {
        LookingKept(w, step, m);
        BegunKept(w, step, m);
        CountersKept(w, step, m);
        TakenKept(w, step, m);
      } else {
        NoneLooking(w, step, m);
      }
    }
  }
  lemma NoneLooking(w: World, step: Step, m: nat)
    requires Typed(w) && Enabled(w, step) && |w.mocks| <= m < |Next(w, step).mocks|
    ensures Looking(Next(w, step).calls, m) == {}
  {
    hide Accepted, Advanced, InTurn, ClaimOf, KnownList, SoundRule;
    forall t | t in w.calls ensures w.calls[t].mock != m {
      assert KnownCall(w.rules, |w.mocks|, w.calls[t]);
    }
  }

  // Sequences

  function Repeat(x: nat, n: nat): seq<nat> {
    seq(n, i => x)
  }
  /** The order that a sequence promises: each rule as often as it wants, in ticket order. */
  ghost function Promised(owners: seq<nat>, rules: seq<Rule>, n: nat): seq<nat> {
    if n == 0 || n > |owners| || owners[n - 1] >= |rules| then []
    else Promised(owners, rules, n - 1) + Repeat(owners[n - 1], rules[owners[n - 1]].count.min)
  }
  ghost predicate Owned(rules: seq<Rule>, q: nat, s: Sequence) {
    && |s.owners| == s.next < W64 && s.cursor <= s.next
    && forall i | 0 <= i < s.next ::
         s.owners[i] < |rules| && rules[s.owners[i]].ticket == Some(Ticket(q, i)) && 0 < rules[s.owners[i]].count.min
  }
  /** Tickets before the cursor are complete, later ones untouched. */
  ghost predicate Ordered(rules: seq<Rule>, q: nat, s: Sequence)
    requires Owned(rules, q, s)
  {
    && (forall i | 0 <= i < s.cursor :: rules[s.owners[i]].calls == rules[s.owners[i]].count.min)
    && (forall i | s.cursor < i < s.next :: rules[s.owners[i]].calls == 0)
    && (s.cursor < s.next ==> rules[s.owners[s.cursor]].calls < rules[s.owners[s.cursor]].count.min)
  }
  ghost predicate Logged(rules: seq<Rule>, q: nat, s: Sequence)
    requires Owned(rules, q, s)
  {
    s.log == Promised(s.owners, rules, s.cursor)
             + if s.cursor < s.next then Repeat(s.owners[s.cursor], rules[s.owners[s.cursor]].calls) else []
  }
  ghost predicate Sequenced(rules: seq<Rule>, q: nat, s: Sequence) {
    Owned(rules, q, s) && Ordered(rules, q, s) && Logged(rules, q, s)
  }
  ghost predicate Ticketed(sequences: seq<Sequence>, id: nat, rule: Rule) {
    rule.ticket.Some? ==>
      var Ticket(q, i) := rule.ticket.value;
      q < |sequences| && i < |sequences[q].owners| && sequences[q].owners[i] == id
  }
  ghost predicate Sequences(w: World) {
    && (forall q | 0 <= q < |w.sequences| :: Sequenced(w.rules, q, w.sequences[q]))
    && (forall id | 0 <= id < |w.rules| :: Ticketed(w.sequences, id, w.rules[id]))
  }

  /** Rules that keep their counts and calls keep the sequence. */
  ghost predicate SameRules(before: seq<Rule>, after: seq<Rule>, owners: seq<nat>) {
    && |before| <= |after|
    && forall i | 0 <= i < |owners| && owners[i] < |before| ::
         && after[owners[i]].ticket == before[owners[i]].ticket && after[owners[i]].count == before[owners[i]].count
         && after[owners[i]].calls == before[owners[i]].calls
  }
  lemma {:induction false} PromisedKept(owners: seq<nat>, more: seq<nat>, before: seq<Rule>, after: seq<Rule>, n: nat)
    requires n <= |owners| && owners <= more && |before| <= |after|
    requires forall i | 0 <= i < |owners| :: owners[i] < |before| && after[owners[i]].count == before[owners[i]].count
    ensures Promised(more, after, n) == Promised(owners, before, n)
  {
    if n > 0 {
      PromisedKept(owners, more, before, after, n - 1);
      assert more[n - 1] == owners[n - 1];
    }
  }
  lemma SequencedKept(before: seq<Rule>, after: seq<Rule>, q: nat, s: Sequence)
    requires Sequenced(before, q, s) && SameRules(before, after, s.owners)
    ensures Sequenced(after, q, s)
  {
    hide Promised, Repeat;
    PromisedKept(s.owners, s.owners, before, after, s.cursor);
  }
  /** A new ticket waits behind all others. */
  lemma TicketAdded(before: seq<Rule>, rule: Rule, q: nat, s: Sequence)
    requires Sequenced(before, q, s) && s.next + 1 < W64
    requires rule.ticket == Some(Ticket(q, s.next)) && rule.calls == 0 < rule.count.min
    ensures Sequenced(before + [rule], q, s.(next := s.next + 1, owners := s.owners + [|before|]))
  {
    hide Promised;
    var after, more := before + [rule], s.owners + [|before|];
    PromisedKept(s.owners, more, before, after, s.cursor);
    assert Repeat(|before|, 0) == [];
  }
  /** Each ticket belongs to a rule of its own. */
  lemma Distinct(rules: seq<Rule>, q: nat, s: Sequence, i: nat, j: nat)
    requires Owned(rules, q, s) && i < s.next && j < s.next && i != j
    ensures s.owners[i] != s.owners[j]
  {
    assert rules[s.owners[i]].ticket == Some(Ticket(q, i)) && rules[s.owners[j]].ticket == Some(Ticket(q, j));
  }
  ghost function Turned(s: Sequence, id: nat, rule: Rule): Sequence {
    s.(cursor := s.cursor + (if rule.count.max == Some(rule.calls + 1) then 1 else 0), log := s.log + [id])
  }
  lemma TurnOrdered(before: seq<Rule>, q: nat, s: Sequence, after: seq<Rule>, id: nat)
    requires Sequenced(before, q, s) && s.cursor < s.next && s.owners[s.cursor] == id
    requires before[id].count.max == Some(before[id].count.min)
    requires after == before[id := before[id].(calls := before[id].calls + 1)]
    ensures Owned(after, q, Turned(s, id, before[id])) && Ordered(after, q, Turned(s, id, before[id]))
  {
    hide Logged;
    forall i | 0 <= i < s.next && i != s.cursor ensures s.owners[i] != id {
      Distinct(before, q, s, i, s.cursor);
    }
  }
  /** A call in turn extends the promised order. */
  lemma TurnTaken(before: seq<Rule>, q: nat, s: Sequence, after: seq<Rule>, id: nat)
    requires Sequenced(before, q, s) && s.cursor < s.next && s.owners[s.cursor] == id
    requires before[id].count.max == Some(before[id].count.min)
    requires after == before[id := before[id].(calls := before[id].calls + 1)]
    ensures Sequenced(after, q, Turned(s, id, before[id]))
  {
    hide Repeat, Ordered;
    var calls, now := before[id].calls, Turned(s, id, before[id]);
    TurnOrdered(before, q, s, after, id);
    PromisedKept(s.owners, s.owners, before, after, s.cursor);
    RepeatMore(id, calls);
    var promised := Promised(s.owners, before, s.cursor);
    assert now.log == promised + (Repeat(id, calls) + [id]);
    if now.cursor > s.cursor {
      assert Promised(s.owners, after, now.cursor) == promised + Repeat(id, calls + 1);
      if now.cursor < s.next {
        NextUntouched(before, q, s);
        RepeatNone(s.owners[now.cursor]);
      }
    }
  }
  lemma NextUntouched(rules: seq<Rule>, q: nat, s: Sequence)
    requires Owned(rules, q, s) && Ordered(rules, q, s) && s.cursor + 1 < s.next
    ensures rules[s.owners[s.cursor + 1]].calls == 0 && s.owners[s.cursor + 1] != s.owners[s.cursor]
  {
    Distinct(rules, q, s, s.cursor, s.cursor + 1);
  }
  lemma RepeatMore(x: nat, n: nat)
    ensures Repeat(x, n) + [x] == Repeat(x, n + 1)
  {
  }
  lemma RepeatNone(x: nat)
    ensures Repeat(x, 0) == []
  {
  }

  lemma SequencesKept(w: World, step: Step)
    requires Typed(w) && Sequences(w) && Enabled(w, step)
    ensures Sequences(Next(w, step))
  {
    hide Enabled, Next, Sequenced, Ticketed;
    var n := Next(w, step);
    forall q | 0 <= q < |n.sequences| ensures Sequenced(n.rules, q, n.sequences[q]) {
      SequenceKept(w, step, q);
    }
    forall id | 0 <= id < |n.rules| ensures Ticketed(n.sequences, id, n.rules[id]) {
      TicketKept(w, step, id);
    }
  }
  lemma OwnersGrow(w: World, step: Step, q: nat)
    requires Enabled(w, step) && q < |w.sequences|
    ensures q < |Next(w, step).sequences| && w.sequences[q].owners <= Next(w, step).sequences[q].owners
  {
    hide Accepted, InTurn, ClaimOf;
  }
  lemma TicketKept(w: World, step: Step, id: nat)
    requires Typed(w) && Sequences(w) && Enabled(w, step) && id < |Next(w, step).rules|
    ensures Ticketed(Next(w, step).sequences, id, Next(w, step).rules[id])
  {
    StepGrows(w, step);
    if id < |w.rules| {
      assert Ticketed(w.sequences, id, w.rules[id]);
      if w.rules[id].ticket.Some? {
        OwnersGrow(w, step, w.rules[id].ticket.value.sequence);
      }
      hide Enabled, Next, Sequenced;
    } else {
      RulesAdded(w, step);
      TicketNew(w, step);
    }
  }
  lemma TicketNew(w: World, step: Step)
    requires Typed(w) && Sequences(w) && Enabled(w, step) && step.Add?
    ensures var id := |w.rules|;
            && id < |Next(w, step).rules|
            && Ticketed(Next(w, step).sequences, id, Next(w, step).rules[id])
  {
    hide Accepted, Typed, Ordered, Logged;
    if step.config.sequence.Some? {
      assert Sequenced(w.rules, step.config.sequence.value, w.sequences[step.config.sequence.value]);
    }
  }
  predicate Turns(w: World, step: Step, q: nat) {
    Takes(w, step) && w.rules[Current(w, step.t)].ticket.Some? && w.rules[Current(w, step.t)].ticket.value.sequence == q
  }
  predicate Enlists(step: Step, q: nat) {
    step.Add? && step.config.sequence == Some(q)
  }
  lemma SequenceFrame(w: World, step: Step, q: nat)
    requires Enabled(w, step) && q < |w.sequences|
    ensures var n := Next(w, step);
            && q < |n.sequences|
            && (Turns(w, step, q) ==>
                  var id := Current(w, step.t);
                  && n.rules == w.rules[id := w.rules[id].(calls := w.rules[id].calls + 1)]
                  && n.sequences[q] == Turned(w.sequences[q], id, w.rules[id])
                  && w.sequences[q].cursor == w.rules[id].ticket.value.index)
            && (!Turns(w, step, q) && !Enlists(step, q) ==> n.sequences[q] == w.sequences[q])
  {
    hide Accepted;
  }
  lemma EnlistFrame(w: World, step: Step, q: nat)
    requires Enabled(w, step) && Enlists(step, q)
    ensures q < |w.sequences| && q < |Next(w, step).sequences| && |Next(w, step).rules| == |w.rules| + 1
    ensures var n, s := Next(w, step), w.sequences[q];
            var rule := n.rules[|w.rules|];
            && n.rules == w.rules + [rule] && rule.ticket == Some(Ticket(q, s.next)) && rule.calls == 0 < rule.count.min
            && s.next + 1 < W64 && n.sequences[q] == s.(next := s.next + 1, owners := s.owners + [|w.rules|])
  {
    AcceptedIs(step.config, step.once);
    hide Accepted, Allows;
  }
  lemma OthersSame(w: World, step: Step, q: nat)
    requires Typed(w) && Sequences(w) && Enabled(w, step) && q < |w.sequences| && !Turns(w, step, q)
    ensures SameRules(w.rules, Next(w, step).rules, w.sequences[q].owners)
  {
    StepGrows(w, step);
    hide Enabled, Next, Takes, Ordered, Logged, Typed;
    assert Sequenced(w.rules, q, w.sequences[q]);
    var owners := w.sequences[q].owners;
    forall i | 0 <= i < |owners| ensures Next(w, step).rules[owners[i]].calls == w.rules[owners[i]].calls {
      UsedKept(w, step, owners[i]);
    }
  }
  lemma SequenceKept(w: World, step: Step, q: nat)
    requires Typed(w) && Sequences(w) && Enabled(w, step) && q < |Next(w, step).sequences|
    ensures Sequenced(Next(w, step).rules, q, Next(w, step).sequences[q])
  {
    hide Enabled, Next, Sequenced, Takes, Ticketed, KnownList, KnownCall, SameRules, Turned;
    var n := Next(w, step);
    if q >= |w.sequences| {
      FreshSequence(w, step, q);
    } else {
      assert Sequenced(w.rules, q, w.sequences[q]);
      SequenceFrame(w, step, q);
      if Turns(w, step, q) {
        TurnKept(w, step, q);
      } else if Enlists(step, q) {
        EnlistFrame(w, step, q);
        TicketAdded(w.rules, n.rules[|w.rules|], q, w.sequences[q]);
      } else {
        OthersSame(w, step, q);
        SequencedKept(w.rules, n.rules, q, w.sequences[q]);
      }
    }
  }
  lemma TurnKept(w: World, step: Step, q: nat)
    requires Typed(w) && Sequences(w) && Enabled(w, step) && q < |w.sequences| && Turns(w, step, q)
    ensures q < |Next(w, step).sequences| && Sequenced(Next(w, step).rules, q, Next(w, step).sequences[q])
  {
    SequenceFrame(w, step, q);
    hide Enabled, Next, Ordered, Logged, KnownList, KnownCall, Turned, ClaimOf;
    var id := Current(w, step.t);
    assert SoundRule(w.rules[id], |w.mocks|, |w.sequences|);
    assert Ticketed(w.sequences, id, w.rules[id]);
    assert Sequenced(w.rules, q, w.sequences[q]);
    TurnTaken(w.rules, q, w.sequences[q], Next(w, step).rules, id);
  }
  lemma FreshSequence(w: World, step: Step, q: nat)
    requires Enabled(w, step) && |w.sequences| <= q < |Next(w, step).sequences|
    ensures Sequenced(Next(w, step).rules, q, Next(w, step).sequences[q])
  {
    hide Accepted, InTurn, ClaimOf;
  }

  // Every run

  ghost predicate Invariant(w: World) {
    Typed(w) && Searches(w) && Checks(w) && Tallied(w) && Responded(w) && Accounted(w) && Followed(w)
    && Sequences(w) && Blamed(w)
  }
  const EMPTY := World([], [], [], map[])

  lemma EmptyInvariant()
    ensures Invariant(EMPTY)
  {
  }
  lemma InvariantKept(w: World, step: Step)
    requires Invariant(w) && Enabled(w, step)
    ensures Invariant(Next(w, step))
  {
    hide Enabled, Next, Typed, Searches, Checks, Tallied, Responded, Accounted, Followed, Sequences, Blamed;
    BlamedKept(w, step);
    TypedKept(w, step);
    SearchesKept(w, step);
    ChecksKept(w, step);
    TalliedKept(w, step);
    RespondedKept(w, step);
    AccountedKept(w, step);
    FollowedKept(w, step);
    SequencesKept(w, step);
  }
  ghost function Run(w: World, steps: seq<Step>): Option<World>
    decreases |steps|
  {
    if steps == [] then Some(w)
    else if Enabled(w, steps[0]) then Run(Next(w, steps[0]), steps[1..])
    else None
  }
  lemma {:induction false} RunKeeps(w: World, steps: seq<Step>)
    requires Invariant(w) && Run(w, steps).Some?
    ensures Invariant(Run(w, steps).value)
    decreases |steps|
  {
    hide Enabled, Next, Invariant;
    if steps != [] {
      InvariantKept(w, steps[0]);
      RunKeeps(Next(w, steps[0]), steps[1..]);
    }
  }
  lemma {:induction false} RunMore(w: World, steps: seq<Step>, step: Step)
    requires Run(w, steps).Some? && Enabled(Run(w, steps).value, step)
    ensures Run(w, steps + [step]) == Some(Next(Run(w, steps).value, step))
    decreases |steps|
  {
    hide Enabled, Next;
    if steps == [] {
      assert Run(Next(w, step), []) == Some(Next(w, step));
    } else {
      assert (steps + [step])[1..] == steps[1..] + [step];
      RunMore(Next(w, steps[0]), steps[1..], step);
    }
  }
}
