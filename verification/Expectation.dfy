/** Call counts, ordered sequences and the selection of a response, as steps of interleaved threads. */
module Expectation {
  import opened Words

  type Thread = nat

  // Call counts

  datatype Count = Count(min: nat, max: Option<nat>)
  /** The arguments that `times` takes. */
  datatype Range =
    | Exactly(n: nat)
    | HalfOpen(start: nat, end: nat)
    | Closed(start: nat, last: nat)
    | From(start: nat)
    | To(end: nat)
    | ToClosed(last: nat)
    | Full

  predicate InRange(range: Range, n: nat) {
    match range
    case Exactly(k) => n == k
    case HalfOpen(start, end) => start <= n < end
    case Closed(start, last) => start <= n <= last
    case From(start) => start <= n
    case To(end) => n < end
    case ToClosed(last) => n <= last
    case Full => true
  }
  function HalfOpenCount(start: nat, end: nat): Count {
    if end == 0 then Count(1, Some(0)) else Count(start, Some(end - 1))
  }
  function CountOf(range: Range): Count {
    match range
    case Exactly(k) => Count(k, Some(k))
    case HalfOpen(start, end) => HalfOpenCount(start, end)
    case Closed(start, last) => Count(start, Some(last))
    case From(start) => Count(start, None)
    case To(end) => HalfOpenCount(0, end)
    case ToClosed(last) => Count(0, Some(last))
    case Full => Count(0, None)
  }
  predicate Allows(count: Count, n: nat) {
    count.min <= n && (count.max.Some? ==> n <= count.max.value)
  }
  function Validate(count: Count): Result<Count> {
    if count.max.Some? && count.min > count.max.value then Err(Error.Expectation) else Ok(count)
  }
  /** A count allows exactly the numbers of its range, and is rejected exactly when there are none. */
  lemma CountIsRange(range: Range, n: nat)
    ensures Allows(CountOf(range), n) <==> InRange(range, n)
    ensures Validate(CountOf(range)).Ok? <==> exists k: nat :: InRange(range, k)
  {
    if Validate(CountOf(range)).Ok? {
      assert InRange(range, CountOf(range).min);
    }
  }

  datatype Config = Config(count: Option<Count>, sequence: Option<nat>)

  function ForOnce(config: Config): Result<Config> {
    var count :- Validate(config.count.GetOr(CountOf(Exactly(1))));
    if count.max.None? || count.max.value > 1 then Err(Error.Expectation) else Ok(config.(count := Some(count)))
  }
  function Checked(config: Config): Result<Count> {
    var count :- Validate(config.count.GetOr(CountOf(Full)));
    if config.sequence.Some? && (count.min == 0 || count.max != Some(count.min)) then Err(Error.Expectation)
    else Ok(count)
  }
  /** What a rule is made with: a one-shot response is checked first. */
  function Accepted(config: Config, once: bool): Result<Count> {
    if once then
      var capped :- ForOnce(config);
      Checked(capped)
    else Checked(config)
  }
  /** A given count must allow some number, in a sequence exactly one that is not zero, and at most one call for a
      one-shot response. Without a count a one-shot response is used once; any number of calls has no place in a
      sequence. */
  predicate Permitted(config: Config, once: bool) {
    match config.count
    case None => once || config.sequence.None?
    case Some(count) =>
      && (count.max.Some? ==> count.min <= count.max.value)
      && (config.sequence.Some? ==> count.min > 0 && count.max == Some(count.min))
      && (once ==> count.max.Some? && count.max.value <= 1)
  }
  predicate Wanted(config: Config, once: bool, n: nat) {
    match config.count
    case None => once ==> n == 1
    case Some(count) => count.min <= n && (count.max.Some? ==> n <= count.max.value)
  }
  /** A rule is accepted exactly when its configuration is permitted, and then allows exactly the calls it asks for. */
  lemma AcceptedIs(config: Config, once: bool)
    ensures Accepted(config, once).Ok? <==> Permitted(config, once)
    ensures Accepted(config, once).Ok? ==>
              forall n: nat :: Allows(Accepted(config, once).value, n) <==> Wanted(config, once, n)
    ensures Accepted(config, once).Ok? && config.count.Some? ==> Accepted(config, once).value == config.count.value
    ensures Accepted(config, once).Ok? ==>
              var count := Accepted(config, once).value;
              && Allows(count, count.min)
              && (config.sequence.Some? ==> count.min > 0 && count.max == Some(count.min))
              && (once ==> count.max.Some? && count.max.value <= 1)
  {
  }
  /** A count given as a range is permitted only when the range holds a number. */
  lemma PermittedRange(range: Range, sequence: Option<nat>, once: bool)
    requires Permitted(Config(Some(CountOf(range)), sequence), once)
    ensures exists n: nat :: InRange(range, n) && Wanted(Config(Some(CountOf(range)), sequence), once, n)
  {
    CountIsRange(range, CountOf(range).min);
    assert InRange(range, CountOf(range).min);
  }

  // The world

  datatype Ticket = Ticket(sequence: nat, index: nat)
  datatype Rule = Rule(mock: nat, count: Count, ticket: Option<Ticket>, once: bool, calls: nat, failed: bool, used: nat)
  /** `owners` are the rules in ticket order, `log` the rules of the calls taken so far. */
  datatype Sequence = Sequence(next: nat, cursor: nat, owners: seq<nat>, log: seq<nat>)
  /** `checking` is how far a verification that holds the lock has come. The counters are history: checkpoints,
      calls that began, calls answered, calls turned down, and those of the latter that recorded it. */
  datatype Mock = Mock(active: bool, rules: seq<nat>, failed: bool, checking: Option<nat>,
                       cleared: nat, begun: nat, taken: nat, denied: nat, rejected: nat)
  datatype Call =
    | Searching(mock: nat, wants: set<nat>, snapshot: seq<nat>, at: nat, cleared: nat)
    | Chosen(mock: nat, rule: nat)
    | Rejecting(mock: nat)
  datatype World = World(rules: seq<Rule>, sequences: seq<Sequence>, mocks: seq<Mock>, calls: map<Thread, Call>)

  datatype Claim = Taken | Exhausted | Refused

  predicate IsExhausted(rule: Rule) {
    rule.count.max.Some? && 0 < rule.count.max.value <= rule.calls
  }
  predicate InTurn(rule: Rule, sequences: seq<Sequence>) {
    rule.ticket.Some? && rule.ticket.value.sequence < |sequences| ==>
      sequences[rule.ticket.value.sequence].cursor == rule.ticket.value.index
  }
  /** What a rule answers to a call that matches it. */
  function ClaimOf(rule: Rule, sequences: seq<Sequence>): Claim {
    if rule.count.max == Some(0) then Refused
    else if rule.count.max.Some? && rule.calls >= rule.count.max.value then Exhausted
    else if rule.calls + 1 >= W64 then Refused
    else if !InTurn(rule, sequences) then Refused
    else Taken
  }
  /** The last call that a ticket allows lets the next ticket have its turn. */
  function Advanced(rule: Rule, id: nat, sequences: seq<Sequence>): (r: seq<Sequence>)
    ensures |r| == |sequences|
  {
    if rule.ticket.Some? && rule.ticket.value.sequence < |sequences| then
      var q := rule.ticket.value.sequence;
      var step := if rule.count.max == Some(rule.calls + 1) then 1 else 0;
      sequences[q := sequences[q].(cursor := sequences[q].cursor + step, log := sequences[q].log + [id])]
    else sequences
  }

  datatype Step =
    | NewMock
    | NewSequence
    | Add(m: nat, config: Config, once: bool)
    | Begin(t: Thread, m: nat, wants: set<nat>)
    | Skip(t: Thread)
    | Try(t: Thread)
    | GiveUp(t: Thread)
    | Reject(t: Thread)
    | Respond(t: Thread)
    | CheckBegin(m: nat)
    | CheckNext(m: nat)
    | CheckFail(m: nat)
    | CheckEnd(m: nat, clear: bool)
    | Deactivate(m: nat)

  /** The mock exists and nobody holds its lock. */
  predicate Free(w: World, m: nat) {
    m < |w.mocks| && w.mocks[m].checking.None?
  }
  predicate AtRule(w: World, t: Thread) {
    && t in w.calls && w.calls[t].Searching? && w.calls[t].at < |w.calls[t].snapshot|
    && w.calls[t].snapshot[w.calls[t].at] < |w.rules|
  }
  function Current(w: World, t: Thread): nat
    requires AtRule(w, t)
  {
    w.calls[t].snapshot[w.calls[t].at]
  }
  predicate Satisfied(rule: Rule) {
    !rule.failed && rule.calls >= rule.count.min
  }
  predicate AtCheck(w: World, m: nat) {
    && m < |w.mocks| && w.mocks[m].checking.Some? && w.mocks[m].checking.value < |w.mocks[m].rules|
    && w.mocks[m].rules[w.mocks[m].checking.value] < |w.rules|
  }
  predicate Enabled(w: World, step: Step) {
    match step
    case NewMock => true
    case NewSequence => true
    case Add(m, config, once) =>
      && Free(w, m) && w.mocks[m].active && Accepted(config, once).Ok?
      && (config.sequence.Some? ==>
            config.sequence.value < |w.sequences| && w.sequences[config.sequence.value].next + 1 < W64)
    case Begin(t, m, _) => Free(w, m) && t !in w.calls
    case Skip(t) => AtRule(w, t) && Current(w, t) !in w.calls[t].wants
    case Try(t) => AtRule(w, t) && Current(w, t) in w.calls[t].wants
    case GiveUp(t) => t in w.calls && w.calls[t].Searching? && w.calls[t].at == |w.calls[t].snapshot|
    case Reject(t) => t in w.calls && w.calls[t].Rejecting? && Free(w, w.calls[t].mock)
    case Respond(t) => t in w.calls && w.calls[t].Chosen? && w.calls[t].rule < |w.rules|
    case CheckBegin(m) => Free(w, m) && !w.mocks[m].failed
    case CheckNext(m) => AtCheck(w, m) && Satisfied(w.rules[w.mocks[m].rules[w.mocks[m].checking.value]])
    case CheckFail(m) => AtCheck(w, m) && !Satisfied(w.rules[w.mocks[m].rules[w.mocks[m].checking.value]])
    case CheckEnd(m, clear) =>
      && m < |w.mocks| && w.mocks[m].checking == Some(|w.mocks[m].rules|) && (clear ==> w.mocks[m].active)
    case Deactivate(m) => Free(w, m)
  }

  function Reserve(sequences: seq<Sequence>, q: nat, id: nat): seq<Sequence>
    requires q < |sequences|
  {
    sequences[q := sequences[q].(next := sequences[q].next + 1, owners := sequences[q].owners + [id])]
  }
  function Begun(mocks: seq<Mock>, m: nat): (r: seq<Mock>)
    ensures |r| == |mocks|
  {
    if m < |mocks| then mocks[m := mocks[m].(begun := mocks[m].begun + 1)] else mocks
  }
  function Answered(mocks: seq<Mock>, m: nat): (r: seq<Mock>)
    ensures |r| == |mocks|
  {
    if m < |mocks| then mocks[m := mocks[m].(taken := mocks[m].taken + 1)] else mocks
  }
  function Denied(mocks: seq<Mock>, m: nat): (r: seq<Mock>)
    ensures |r| == |mocks|
  {
    if m < |mocks| then mocks[m := mocks[m].(denied := mocks[m].denied + 1)] else mocks
  }
  /** A claim on a rule by the call of a thread. */
  function Tried(w: World, t: Thread): World
    requires AtRule(w, t)
  {
    var id := Current(w, t);
    var rule, call := w.rules[id], w.calls[t];
    match ClaimOf(rule, w.sequences)
    case Exhausted => w.(calls := w.calls[t := call.(at := call.at + 1)])
    case Refused =>
      w.(rules := w.rules[id := rule.(failed := true)], mocks := Denied(w.mocks, call.mock),
         calls := w.calls[t := Rejecting(call.mock)])
    case Taken =>
      w.(rules := w.rules[id := rule.(calls := rule.calls + 1)],
         sequences := Advanced(rule, id, w.sequences),
         mocks := Answered(w.mocks, call.mock),
         calls := w.calls[t := Chosen(call.mock, id)])
  }
  function Next(w: World, step: Step): World
    requires Enabled(w, step)
  {
    match step
    case NewMock => w.(mocks := w.mocks + [Mock(true, [], false, None, 0, 0, 0, 0, 0)])
    case NewSequence => w.(sequences := w.sequences + [Sequence(0, 0, [], [])])
    case Add(m, config, once) =>
      var ticket := if config.sequence.None? then None
                    else Some(Ticket(config.sequence.value, w.sequences[config.sequence.value].next));
      w.(rules := w.rules + [Rule(m, Accepted(config, once).value, ticket, once, 0, false, 0)],
         sequences := if config.sequence.None? then w.sequences
                      else Reserve(w.sequences, config.sequence.value, |w.rules|),
         mocks := w.mocks[m := w.mocks[m].(rules := w.mocks[m].rules + [|w.rules|])])
    case Begin(t, m, wants) =>
      if w.mocks[m].active then
        w.(mocks := Begun(w.mocks, m),
           calls := w.calls[t := Searching(m, wants, w.mocks[m].rules, 0, w.mocks[m].cleared)])
      else w.(mocks := Denied(Begun(w.mocks, m), m), calls := w.calls[t := Rejecting(m)])
    case Skip(t) => w.(calls := w.calls[t := w.calls[t].(at := w.calls[t].at + 1)])
    case Try(t) => Tried(w, t)
    case GiveUp(t) =>
      w.(mocks := Denied(w.mocks, w.calls[t].mock), calls := w.calls[t := Rejecting(w.calls[t].mock)])
    case Reject(t) =>
      var m := w.calls[t].mock;
      w.(mocks := w.mocks[m := w.mocks[m].(failed := true, rejected := w.mocks[m].rejected + 1)],
         calls := w.calls - {t})
    case Respond(t) =>
      var id := w.calls[t].rule;
      w.(rules := w.rules[id := w.rules[id].(used := w.rules[id].used + 1)], calls := w.calls - {t})
    case CheckBegin(m) => w.(mocks := w.mocks[m := w.mocks[m].(checking := Some(0))])
    case CheckNext(m) => w.(mocks := w.mocks[m := w.mocks[m].(checking := Some(w.mocks[m].checking.value + 1))])
    case CheckFail(m) => w.(mocks := w.mocks[m := w.mocks[m].(checking := None)])
    case CheckEnd(m, clear) =>
      var mock := w.mocks[m];
      w.(mocks := w.mocks[m := if clear then mock.(checking := None, rules := [], cleared := mock.cleared + 1)
                               else mock.(checking := None)])
    case Deactivate(m) =>
      w.(mocks := w.mocks[m := w.mocks[m].(active := false, rules := [], cleared := w.mocks[m].cleared + 1)])
  }
}
