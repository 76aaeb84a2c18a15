/** What users of expectations rely on, in every reachable state. */
module ExpectationTheorems {
  import opened Words
  import opened Expectation
  import opened ExpectationInvariant

  // Selection

  /** The rule that an atomic selection would take: the first that matches and is not used up. */
  function FirstOpen(rules: seq<Rule>, list: seq<nat>, wants: set<nat>): Option<nat> {
    if list == [] then None
    else if list[0] in wants && list[0] < |rules| && !IsExhausted(rules[list[0]]) then Some(list[0])
    else FirstOpen(rules, list[1..], wants)
  }
  /** What an atomic selection on the current list gives. */
  function Selected(w: World, m: nat, wants: set<nat>): Option<nat>
    requires m < |w.mocks|
  {
    var first := FirstOpen(w.rules, w.mocks[m].rules, wants);
    if && w.mocks[m].active && first.Some? && first.value < |w.rules|
       && ClaimOf(w.rules[first.value], w.sequences).Taken?
    then first
    else None
  }
  lemma {:induction false} FirstIs(rules: seq<Rule>, list: seq<nat>, wants: set<nat>, at: nat)
    requires at < |list| && list[at] in wants && list[at] < |rules| && !IsExhausted(rules[list[at]])
    requires forall j | 0 <= j < at && list[j] in wants :: list[j] < |rules| && IsExhausted(rules[list[j]])
    ensures FirstOpen(rules, list, wants) == Some(list[at])
  {
    hide IsExhausted;
    if at > 0 {
      FirstIs(rules, list[1..], wants, at - 1);
    }
  }
  lemma {:induction false} NoneOpen(rules: seq<Rule>, list: seq<nat>, wants: set<nat>)
    requires forall j | 0 <= j < |list| && list[j] in wants :: list[j] < |rules| && IsExhausted(rules[list[j]])
    ensures FirstOpen(rules, list, wants) == None
  {
    hide IsExhausted;
    if list != [] {
      NoneOpen(rules, list[1..], wants);
    }
  }
  /** A call is answered, or refused, by the first open rule at that very moment, both in the list it
      saw and, unless a checkpoint came between, in the list as it is. */
  lemma SelectsFirst(w: World, t: Thread)
    requires Invariant(w) && Enabled(w, Try(t)) && !ClaimOf(w.rules[Current(w, t)], w.sequences).Exhausted?
    ensures var call := w.calls[t];
            && call.mock < |w.mocks|
            && FirstOpen(w.rules, call.snapshot, call.wants) == Some(Current(w, t))
            && (call.cleared == w.mocks[call.mock].cleared ==>
                  FirstOpen(w.rules, w.mocks[call.mock].rules, call.wants) == Some(Current(w, t)))
  {
    hide Checks, Tallied, Responded, Sequences, InTurn;
    var call := w.calls[t];
    assert KnownCall(w.rules, |w.mocks|, call);
    assert Passed(w.rules, call) && Recent(w.mocks, call);
    FirstIs(w.rules, call.snapshot, call.wants, call.at);
    if call.cleared == w.mocks[call.mock].cleared {
      var list := w.mocks[call.mock].rules;
      assert forall j | 0 <= j <= call.at :: list[j] == call.snapshot[j];
      FirstIs(w.rules, list, call.wants, call.at);
    }
  }
  /** A call that finds nothing saw every matching rule at its maximum. */
  lemma GivesUpExhausted(w: World, t: Thread)
    requires Invariant(w) && Enabled(w, GiveUp(t))
    ensures var call := w.calls[t];
            && FirstOpen(w.rules, call.snapshot, call.wants) == None
            && (forall j | 0 <= j < |call.snapshot| && call.snapshot[j] in call.wants ::
                  && call.snapshot[j] < |w.rules|
                  && w.rules[call.snapshot[j]].count.max == Some(w.rules[call.snapshot[j]].calls))
  {
    hide Checks, Tallied, Responded, Sequences, KnownCall, KnownList;
    var call := w.calls[t];
    assert Passed(w.rules, call);
    NoneOpen(w.rules, call.snapshot, call.wants);
    forall j | 0 <= j < |call.snapshot| && call.snapshot[j] in call.wants
      ensures call.snapshot[j] < |w.rules|
              && w.rules[call.snapshot[j]].count.max == Some(w.rules[call.snapshot[j]].calls)
    {
      assert IsExhausted(w.rules[call.snapshot[j]]);
      assert SoundRule(w.rules[call.snapshot[j]], |w.mocks|, |w.sequences|);
    }
  }

  /** The rule has had all its calls. */
  predicate UsedUp(rule: Rule) {
    rule.count.max.Some? && 0 < rule.count.max.value <= rule.calls
  }
  /** Calls to it are not forbidden, its number of calls fits a word, and it is its turn in its sequence. */
  predicate Ready(rule: Rule, sequences: seq<Sequence>) {
    && rule.count.max != Some(0) && rule.calls < W64 - 1
    && (rule.ticket.Some? && rule.ticket.value.sequence < |sequences| ==>
          sequences[rule.ticket.value.sequence].cursor == rule.ticket.value.index)
  }
  /** The first rule that matches and is not used up stands at `at`. */
  ghost predicate Leading(rules: seq<Rule>, list: seq<nat>, wants: set<nat>, at: nat) {
    && at < |list| && list[at] in wants && list[at] < |rules| && !UsedUp(rules[list[at]])
    && forall j | 0 <= j < at && list[j] in wants :: list[j] < |rules| && UsedUp(rules[list[j]])
  }
  lemma {:induction false} LeadingIs(rules: seq<Rule>, list: seq<nat>, wants: set<nat>)
    requires forall j | 0 <= j < |list| :: list[j] < |rules|
    ensures FirstOpen(rules, list, wants).Some? ==>
              exists at: nat :: Leading(rules, list, wants, at) && list[at] == FirstOpen(rules, list, wants).value
  {
    if list != [] && !(list[0] in wants && !IsExhausted(rules[list[0]])) {
      var rest := list[1..];
      LeadingIs(rules, rest, wants);
      if FirstOpen(rules, rest, wants).Some? {
        var at: nat :| Leading(rules, rest, wants, at) && rest[at] == FirstOpen(rules, rest, wants).value;
        assert forall j | 0 < j < |list| :: list[j] == rest[j - 1];
        assert Leading(rules, list, wants, at + 1);
      }
    } else if list != [] {
      assert Leading(rules, list, wants, 0);
    }
  }
  /** A selection takes exactly the first rule that matches and is not used up, provided that rule is ready. */
  lemma SelectedExactly(w: World, m: nat, wants: set<nat>, id: nat)
    requires Invariant(w) && m < |w.mocks|
    ensures Selected(w, m, wants) == Some(id) <==>
            && w.mocks[m].active && id < |w.rules| && Ready(w.rules[id], w.sequences)
            && exists at: nat :: Leading(w.rules, w.mocks[m].rules, wants, at) && w.mocks[m].rules[at] == id
  {
    hide Searches, Checks, Tallied, Responded, Sequences, SoundRule, KnownCall, Accounted, Followed, Blamed;
    var list := w.mocks[m].rules;
    forall j | 0 <= j < |list| ensures list[j] < |w.rules| {
      Listed(w.rules, m, list, j);
    }
    hide Invariant;
    LeadingIs(w.rules, list, wants);
    forall at: nat | Leading(w.rules, list, wants, at) ensures FirstOpen(w.rules, list, wants) == Some(list[at]) {
      FirstIs(w.rules, list, wants, at);
    }
  }

  // Verification

  ghost predicate InFlight(w: World, m: nat) {
    exists t :: t in w.calls && w.calls[t] == Rejecting(m)
  }
  /** A verification that succeeds on an active mock: each rule ever added has an allowed number of calls,
      these add up to the calls that got a response, and no finished call was rejected. No call at all was
      turned down, up to that moment, exactly when none is on its way to record it. */
  lemma VerifiedIs(w: World, m: nat, clear: bool)
    requires Invariant(w) && Enabled(w, CheckEnd(m, clear))
    ensures w.mocks[m].rejected == 0
    ensures w.mocks[m].denied == 0 <==> !InFlight(w, m)
    ensures w.mocks[m].taken == SumCalls(w.rules, m)
    ensures w.mocks[m].active ==>
              forall id | 0 <= id < |w.rules| && w.rules[id].mock == m :: Allows(w.rules[id].count, w.rules[id].calls)
  {
    hide Searches, Responded, Sequences, KnownCall, KnownList;
    var mock := w.mocks[m];
    assert Seen(w.rules, mock) && Covered(w.rules, m, mock) && Recorded(mock);
    forall id | mock.active && 0 <= id < |w.rules| && w.rules[id].mock == m
      ensures Allows(w.rules[id].count, w.rules[id].calls)
    {
      assert KnownRule(w.rules, m, id);
      assert SoundRule(w.rules[id], |w.mocks|, |w.sequences|);
    }
    DeniedInFlight(w, m);
  }
  /** Conversely, a mock that never turned a call down, and whose listed rules have allowed numbers of calls, has
      nothing for a verification to find. */
  lemma VerifiesWhen(w: World, m: nat)
    requires Invariant(w) && m < |w.mocks| && w.mocks[m].denied == 0
    requires forall k | 0 <= k < |w.mocks[m].rules| ::
               var id := w.mocks[m].rules[k]; id < |w.rules| && Allows(w.rules[id].count, w.rules[id].calls)
    ensures !w.mocks[m].failed
    ensures forall k | 0 <= k < |w.mocks[m].rules| :: Satisfied(w.rules[w.mocks[m].rules[k]])
  {
    hide Searches, Responded, Sequences, KnownCall, SoundRule, Followed;
    assert Recorded(w.mocks[m]);
    forall k | 0 <= k < |w.mocks[m].rules| ensures Satisfied(w.rules[w.mocks[m].rules[k]]) {
      Listed(w.rules, m, w.mocks[m].rules, k);
    }
  }
  lemma DeniedInFlight(w: World, m: nat)
    requires Accounted(w) && m < |w.mocks| && w.mocks[m].rejected == 0
    ensures w.mocks[m].denied == 0 <==> !InFlight(w, m)
  {
    var unrecorded := Unrecorded(w.calls, m);
    if InFlight(w, m) {
      var t :| t in w.calls && w.calls[t] == Rejecting(m);
      assert unrecorded == {t} + (unrecorded - {t});
    } else {
      assert unrecorded == {};
    }
  }
  /** No call of the mock is in progress. */
  ghost predicate Idle(w: World, m: nat) {
    forall t | t in w.calls :: w.calls[t].mock != m
  }
  lemma IdleKept(w: World, step: Step, m: nat)
    requires Idle(w, m) && Enabled(w, step) && !Starts(step, m)
    ensures Idle(Next(w, step), m)
  {
    hide Accepted, Advanced, InTurn, ClaimOf, Denied, Begun;
  }
  lemma {:induction false} IdleRun(w: World, steps: seq<Step>, m: nat)
    requires Idle(w, m) && Run(w, steps).Some? && forall k | 0 <= k < |steps| :: !Starts(steps[k], m)
    ensures Idle(Run(w, steps).value, m)
    decreases |steps|
  {
    hide Enabled, Next, Idle;
    if steps != [] {
      IdleKept(w, steps[0], m);
      IdleRun(Next(w, steps[0]), steps[1..], m);
    }
  }
  lemma IdleCounts(w: World, m: nat)
    requires Invariant(w) && m < |w.mocks| && Idle(w, m)
    ensures w.mocks[m].denied == w.mocks[m].rejected && w.mocks[m].begun == w.mocks[m].taken + w.mocks[m].denied
  {
    hide Typed, Searches, Checks, Tallied, Responded, Sequences;
    assert Unrecorded(w.calls, m) == {} && Looking(w.calls, m) == {};
  }
  /** A verification that starts while no call of the mock is in progress, and succeeds before another
      begins, proves that every call that ever began was answered: none was turned down, and the counts of
      the rules add up to all of them. */
  lemma IdleVerified(w: World, steps: seq<Step>, m: nat, clear: bool)
    requires Invariant(w) && Enabled(w, CheckBegin(m)) && Idle(w, m)
    requires Run(Next(w, CheckBegin(m)), steps).Some? && (forall k | 0 <= k < |steps| :: !Starts(steps[k], m))
    requires Enabled(Run(Next(w, CheckBegin(m)), steps).value, CheckEnd(m, clear))
    ensures var end := Run(Next(w, CheckBegin(m)), steps).value;
            && end.mocks[m].denied == 0
            && end.mocks[m].begun == end.mocks[m].taken == SumCalls(end.rules, m)
            && (end.mocks[m].active ==> forall id | 0 <= id < |end.rules| && end.rules[id].mock == m ::
                  Allows(end.rules[id].count, end.rules[id].calls))
  {
    hide Next, Invariant, Idle, SumCalls, InFlight;
    InvariantKept(w, CheckBegin(m));
    IdleKept(w, CheckBegin(m), m);
    var locked := Next(w, CheckBegin(m));
    RunKeeps(locked, steps);
    IdleRun(locked, steps, m);
    var end := Run(locked, steps).value;
    VerifiedIs(end, m, clear);
    IdleCounts(end, m);
  }
  const NEW := Mock(true, [], false, None, 0, 0, 0, 0, 0)
  const TURNED := NEW.(begun := 1, denied := 1)

  lemma WindowSteps()
    ensures var a := World([], [], [NEW], map[]);
            var b := World([], [], [NEW.(begun := 1)], map[0 := Searching(0, {}, [], 0, 0)]);
            && Enabled(EMPTY, NewMock) && Next(EMPTY, NewMock) == a
            && Enabled(a, Begin(0, 0, {})) && Next(a, Begin(0, 0, {})) == b
            && Enabled(b, GiveUp(0)) && Next(b, GiveUp(0)) == World([], [], [TURNED], map[0 := Rejecting(0)])
  {
  }
  lemma WindowCheck()
    ensures var c := World([], [], [TURNED], map[0 := Rejecting(0)]);
            var d := World([], [], [TURNED.(checking := Some(0))], map[0 := Rejecting(0)]);
            && Enabled(c, CheckBegin(0)) && Next(c, CheckBegin(0)) == d
            && Enabled(d, CheckEnd(0, false))
  {
  }
  /** A verification can succeed while a call that was turned down has yet to record it. */
  lemma VerifiedInFlight()
    ensures var w := Run(EMPTY, [NewMock, Begin(0, 0, {}), GiveUp(0), CheckBegin(0)]);
            && w.Some? && Invariant(w.value) && Enabled(w.value, CheckEnd(0, false))
            && |w.value.mocks| == 1 && w.value.mocks[0].denied == 1
  {
    WindowSteps();
    WindowCheck();
    EmptyInvariant();
    hide Next, Enabled, Invariant;
    assert Run(EMPTY, []) == Some(EMPTY);
    hide Run;
    RunMore(EMPTY, [], NewMock);
    assert [] + [NewMock] == [NewMock];
    RunMore(EMPTY, [NewMock], Begin(0, 0, {}));
    assert [NewMock] + [Begin(0, 0, {})] == [NewMock, Begin(0, 0, {})];
    RunMore(EMPTY, [NewMock, Begin(0, 0, {})], GiveUp(0));
    assert [NewMock, Begin(0, 0, {})] + [GiveUp(0)] == [NewMock, Begin(0, 0, {}), GiveUp(0)];
    RunMore(EMPTY, [NewMock, Begin(0, 0, {}), GiveUp(0)], CheckBegin(0));
    assert [NewMock, Begin(0, 0, {}), GiveUp(0)] + [CheckBegin(0)]
             == [NewMock, Begin(0, 0, {}), GiveUp(0), CheckBegin(0)];
    RunKeeps(EMPTY, [NewMock, Begin(0, 0, {}), GiveUp(0), CheckBegin(0)]);
  }
  /** A recorded rejection is never forgotten, so every later verification fails. */
  lemma {:induction false} FailureSticks(w: World, steps: seq<Step>, m: nat)
    requires m < |w.mocks| && w.mocks[m].failed && Run(w, steps).Some?
    ensures m < |Run(w, steps).value.mocks| && Run(w, steps).value.mocks[m].failed
    ensures !Enabled(Run(w, steps).value, CheckBegin(m))
    decreases |steps|
  {
    if steps != [] {
      MockMoves(w, steps[0], m);
      FailureSticks(Next(w, steps[0]), steps[1..], m);
    }
  }

  /** A mock that was ended stays so, and answers no call. */
  lemma {:induction false} EndedStays(w: World, steps: seq<Step>, m: nat, wants: set<nat>)
    requires m < |w.mocks| && !w.mocks[m].active && Run(w, steps).Some?
    ensures m < |Run(w, steps).value.mocks| && !Run(w, steps).value.mocks[m].active
    ensures Selected(Run(w, steps).value, m, wants) == None
    decreases |steps|
  {
    hide Enabled, Next, FirstOpen, ClaimOf;
    if steps != [] {
      MockMoves(w, steps[0], m);
      EndedStays(Next(w, steps[0]), steps[1..], m, wants);
    }
  }

  // Sequences

  lemma {:induction false} PromisedPrefix(owners: seq<nat>, rules: seq<Rule>, n: nat, more: nat)
    requires n <= more <= |owners| && forall i | 0 <= i < |owners| :: owners[i] < |rules|
    ensures Promised(owners, rules, n) <= Promised(owners, rules, more)
    decreases more
  {
    if n < more {
      PromisedPrefix(owners, rules, n, more - 1);
    }
  }
  /** Calls that share a sequence, across mocks and threads, follow the order of its tickets. */
  lemma CallsInOrder(w: World, q: nat)
    requires Invariant(w) && q < |w.sequences|
    ensures var s := w.sequences[q];
            && s.cursor <= s.next == |s.owners| && s.next < W64
            && s.log <= Promised(s.owners, w.rules, s.next)
            && (forall i | 0 <= i < s.next :: s.owners[i] < |w.rules|)
            && (forall i | 0 <= i < s.cursor :: w.rules[s.owners[i]].count.max == Some(w.rules[s.owners[i]].calls))
            && (forall i | s.cursor < i < s.next :: w.rules[s.owners[i]].calls == 0)
  {
    hide Searches, Checks, Tallied, Responded, Promised, KnownList, KnownCall;
    var s := w.sequences[q];
    assert Sequenced(w.rules, q, s);
    forall i | 0 <= i < s.cursor ensures w.rules[s.owners[i]].count.max == Some(w.rules[s.owners[i]].calls) {
      assert SoundRule(w.rules[s.owners[i]], |w.mocks|, |w.sequences|);
    }
    PromisedPrefix(s.owners, w.rules, s.cursor, s.next);
    if s.cursor < s.next {
      PromisedPrefix(s.owners, w.rules, s.cursor + 1, s.next);
      TurnInside(w.rules, q, s);
    }
  }
  lemma TurnInside(rules: seq<Rule>, q: nat, s: Sequence)
    requires Sequenced(rules, q, s) && s.cursor < s.next
    ensures s.log <= Promised(s.owners, rules, s.cursor + 1)
  {
    var id := s.owners[s.cursor];
    var rest := rules[id].count.min - rules[id].calls;
    assert Repeat(id, rules[id].count.min) == Repeat(id, rules[id].calls) + Repeat(id, rest);
    hide Repeat, Ordered;
    var promised := Promised(s.owners, rules, s.cursor);
    assert Promised(s.owners, rules, s.cursor + 1) == promised + Repeat(id, rules[id].count.min);
    assert promised + Repeat(id, rules[id].count.min) == s.log + Repeat(id, rest);
  }

  // One-shot responses

  /** When a call comes to take a one-shot response, nobody has taken it before. */
  lemma UsedOnce(w: World, t: Thread)
    requires Enabled(w, Respond(t)) && w.rules[w.calls[t].rule].once && Invariant(w)
    ensures w.rules[w.calls[t].rule].used == 0 && w.rules[w.calls[t].rule].calls == 1
  {
    hide Searches, Checks, Tallied, Sequences, KnownList;
    var id := w.calls[t].rule;
    assert SoundRule(w.rules[id], |w.mocks|, |w.sequences|);
    var pending := Pending(w.calls, id);
    assert t in pending && |pending| >= 1 by {
      assert pending == {t} + (pending - {t});
    }
  }
}
