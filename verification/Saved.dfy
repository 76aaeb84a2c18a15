/** The page behind a routing entry: the saved original at its start and the relay to the dispatcher after it. */
module Saved {
  import opened Words
  import opened Executable
  import Arm64
  import Arm64Meaning
  import Arm64Plan
  import X86Decode
  import X86Layout
  import X86Meaning
  import X86Plan
  import X86Relocate

  const RELAY: int := 512
  const MAX_PREFIX: nat := 32

  datatype Target = X86 | Arm64

  /** The bytes that `trampoline` makes of a prefix on each processor. */
  function Relocated(cpu: Target, source: Address, destination: Address, original: seq<Byte>): Result<seq<Byte>> {
    match cpu
    case X86 => X86Relocate.Relocated(source, destination, original)
    case Arm64 =>
      if |original| % 4 != 0 then Err(InvalidRange)
      else
        var words :- Arm64.Relocated(source, destination, Arm64Plan.Chunks(original));
        Ok(Arm64Plan.Pack(words))
  }
  function Jump(cpu: Target, source: Address, target: Address): Result<seq<Byte>> {
    match cpu
    case X86 => X86Plan.JumpBytes(source, target)
    case Arm64 =>
      var words :- Arm64.Jump(source, target);
      Ok(Arm64Plan.Pack(words))
  }
  /** The landing pad that stays in place. */
  function PadLength(cpu: Target, bytes: seq<Byte>): nat {
    if (if cpu.X86? then X86Relocate.ENDBR64 <= bytes else Arm64Plan.StartsWithPad(bytes)) then 4 else 0
  }
  ghost predicate Plannable(cpu: Target, source: Address, target: Address, bytes: seq<Byte>) {
    match cpu
    case X86 => X86Plan.Plannable(source, target, bytes)
    case Arm64 => Arm64Plan.Plannable(source, target, bytes)
  }
  /** A plan replaces bytes of the function, as many as it saves, by a jump to the target. */
  ghost predicate Shaped(cpu: Target, source: Address, target: Address, bytes: seq<Byte>, plan: Plan) {
    && source + plan.offset < W64 && plan.offset == PadLength(cpu, bytes)
    && plan.offset + |plan.original| <= |bytes|
    && plan.original == bytes[plan.offset..plan.offset + |plan.original|]
    && |plan.original| == |plan.replacement| > 0
    && Jump(cpu, source + plan.offset, target).Ok?
    && Jump(cpu, source + plan.offset, target).value <= plan.replacement
    && (cpu.X86? ==> |plan.original| < 14 + X86Decode.LIMIT && X86Plan.Tiled(plan.original, 0, |plan.original|))
    && (cpu.Arm64? ==> |plan.original| in {4, 16} && plan.replacement == Jump(cpu, source + plan.offset, target).value)
  }
  /** What it saves are whole instructions of one function, and no more than the jump needs. */
  ghost predicate Fits(cpu: Target, source: Address, target: Address, bytes: seq<Byte>, plan: Plan) {
    && Shaped(cpu, source, target, bytes, plan)
    && match cpu
       case X86 =>
         && X86Plan.Displaceable(plan.original, X86Plan.JumpLength(source + plan.offset, target))
         && X86Plan.Padded(Jump(cpu, source + plan.offset, target).value, plan.replacement)
       case Arm64 => Arm64Plan.Movable(Arm64Plan.Chunks(plan.original))
  }
  method MakePlan(cpu: Target, source: Address, target: Address, bytes: seq<Byte>) returns (r: Result<Plan>)
    ensures r.Ok? <==> Plannable(cpu, source, target, bytes)
    ensures r.Ok? ==> Fits(cpu, source, target, bytes, r.value)
  {
    hide Fits, X86Plan.PlanFor, X86Plan.Plannable, Arm64Plan.Plannable, X86Plan.Displaceable;
    match cpu
    case X86 =>
      r := X86Plan.MakePlan(source, target, bytes);
      if r.Ok? {
        PlanFits(source, target, bytes);
      }
    case Arm64 =>
      r := MakeArm64Plan(source, target, bytes);
  }
  /** What is read of a function decides whether it can be planned, however long the function is. */
  lemma ReadSuffices(cpu: Target, source: Address, target: Address, bytes: seq<Byte>)
    requires |bytes| >= MAX_PREFIX
    ensures Plannable(cpu, source, target, bytes[..MAX_PREFIX]) <==> Plannable(cpu, source, target, bytes)
  {
    hide X86Plan.PlanFor, X86Plan.Plannable, Arm64Plan.Plannable, X86Plan.Displaceable;
    match cpu
    case X86 =>
      X86Plan.WindowSuffices(source, target, bytes);
      X86Plan.PlanExactly(source, target, bytes);
      X86Plan.PlanExactly(source, target, bytes[..MAX_PREFIX]);
    case Arm64 =>
      Arm64Plan.WindowSuffices(source, target, bytes);
  }
  method MakeArm64Plan(source: Address, target: Address, bytes: seq<Byte>) returns (r: Result<Plan>)
    ensures r.Ok? <==> Arm64Plan.Plannable(source, target, bytes)
    ensures r.Ok? ==> Fits(Arm64, source, target, bytes, r.value)
  {
    hide Arm64.Jump, Arm64Plan.Movable, Arm64Plan.StartsWithPad, Arm64.Aligned, X86Plan.JumpBytes;
    r := Arm64Plan.MakePlan(source, target, bytes);
  }
  lemma PlanFits(source: Address, target: Address, bytes: seq<Byte>)
    requires X86Plan.PlanFor(source, target, bytes).Ok?
    ensures Fits(X86, source, target, bytes, X86Plan.PlanFor(source, target, bytes).value)
  {
    hide X86Plan.PlanFor, X86Plan.JumpBytes, Arm64.Jump, X86Plan.Displaceable, X86Plan.Plannable, X86Plan.Padded,
         X86Plan.Tiled;
    X86Plan.PlanCovers(source, target, bytes);
    X86Plan.PlanExactly(source, target, bytes);
    PaddedStarts(source, target, bytes);
  }
  lemma PaddedStarts(source: Address, target: Address, bytes: seq<Byte>)
    requires X86Plan.PlanFor(source, target, bytes).Ok?
    ensures var p := X86Plan.PlanFor(source, target, bytes).value;
            && source + p.offset < W64 && X86Plan.JumpBytes(source + p.offset, target).Ok?
            && X86Plan.JumpBytes(source + p.offset, target).value <= p.replacement
  {
    hide X86Plan.PlanFor, X86Plan.JumpBytes, X86Plan.Tiled;
    X86Plan.PlanCovers(source, target, bytes);
  }
  /** The relocated prefix of any plan leaves room for the relay. */
  lemma RelocatedFits(cpu: Target, source: Address, target: Address, bytes: seq<Byte>, plan: Plan, destination: Address)
    requires Shaped(cpu, source, target, bytes, plan)
    requires Relocated(cpu, source + plan.offset, destination, plan.original).Ok?
    ensures |Relocated(cpu, source + plan.offset, destination, plan.original).value| < RELAY
  {
    hide X86Relocate.Relocated, Arm64.Relocated, Shaped;
    ShapedSize(cpu, source, target, bytes, plan);
    match cpu
    case X86 => X86RelocatedFits(source + plan.offset, destination, plan.original);
    case Arm64 => Arm64RelocatedFits(source + plan.offset, destination, plan.original);
  }
  lemma ShapedSize(cpu: Target, source: Address, target: Address, bytes: seq<Byte>, plan: Plan)
    requires Shaped(cpu, source, target, bytes, plan)
    ensures source + plan.offset < W64
    ensures if cpu.X86? then |plan.original| < 14 + X86Decode.LIMIT else |plan.original| in {4, 16}
  {
    hide Jump, X86Plan.Tiled, PadLength;
  }
  lemma X86RelocatedFits(address: Address, destination: Address, original: seq<Byte>)
    requires X86Relocate.Relocated(address, destination, original).Ok? && |original| < 14 + X86Decode.LIMIT
    ensures |X86Relocate.Relocated(address, destination, original).value| < RELAY
  {
    hide X86Relocate.Relocated;
    var out := X86Relocate.Relocated(address, destination, original).value;
    var p, units, body := X86Meaning.Decompose(address, destination, original, out);
    X86Plan.RelocationSize(address, destination, original, p, units, body, out);
  }
  lemma Arm64RelocatedFits(address: Address, destination: Address, original: seq<Byte>)
    requires Relocated(Arm64, address, destination, original).Ok? && |original| in {4, 16}
    ensures |Relocated(Arm64, address, destination, original).value| < RELAY
  {
    hide Arm64.Relocated;
    Arm64Plan.RelocationSize(address, destination, Arm64Plan.Chunks(original));
  }
  function Resize(bytes: seq<Byte>, n: nat, fill: Byte): (r: seq<Byte>)
    ensures |r| == n
  {
    if n <= |bytes| then bytes[..n] else bytes + seq(n - |bytes|, i => fill)
  }

  // A finished entry

  /** The patch leads to the relay on the page, the page starts with the relocated prefix, and its relay
      leads to the dispatcher. `bridge` tells whether the prefix ends in a call. */
  ghost predicate Built(cpu: Target, address: int, original: seq<Byte>, replacement: seq<Byte>,
                        page: int, saved: seq<Byte>, dispatcher: int, bridge: bool)
  {
    && 0 <= address < W64 && 0 <= page < W64 - CAPACITY && 0 <= dispatcher < W64
    && Leads(cpu, address, replacement, page + RELAY)
    && Keeps(cpu, address, original, page, saved)
    && RELAY <= |saved| <= CAPACITY && Leads(cpu, page + RELAY, saved[RELAY..], dispatcher)
    && bridge == (cpu.X86? && X86Plan.HasCall(original, 0))
  }
  /** Code at an address starts with the jump to a target, and has nothing else but padding. */
  ghost predicate Leads(cpu: Target, address: int, code: seq<Byte>, target: int) {
    && 0 <= address < W64 && 0 <= target < W64
    && Jump(cpu, address, target).Ok? && Jump(cpu, address, target).value <= code
    && (cpu.Arm64? ==> code == Jump(cpu, address, target).value)
  }
  /** A page starts with the relocation of a prefix. */
  ghost predicate Keeps(cpu: Target, address: int, original: seq<Byte>, page: int, saved: seq<Byte>) {
    && 0 <= address < W64 && 0 <= page < W64
    && Relocated(cpu, address, page, original).Ok? && Relocated(cpu, address, page, original).value <= saved
    && |Relocated(cpu, address, page, original).value| < RELAY
  }

  /** The prefix can be moved to the page, the dispatcher be jumped to, and a call is bridged only where no
      shadow stack is in use. */
  ghost predicate Buildable(cpu: Target, address: Address, page: Address, original: seq<Byte>, dispatcher: Address,
                            shadowStack: Result<bool>)
    requires page + RELAY < W64
  {
    && Relocated(cpu, address, page, original).Ok? && Jump(cpu, page + RELAY, dispatcher).Ok?
    && (cpu.X86? && X86Plan.HasCall(original, 0) ==> shadowStack == Ok(false))
  }

  /** Between the saved original and the relay stand breakpoints. */
  predicate Filled(contents: seq<Byte>, length: nat) {
    |contents| >= RELAY && forall i | length <= i < RELAY :: contents[i] == 0xcc
  }

  /** Builds the contents of the page. Nothing of the saved original is cut off, the relay jumps to the
      dispatcher, and a prefix with a call is only taken where no shadow stack is in use. */
  method Build(cpu: Target, ghost source: Address, ghost bytes: seq<Byte>, address: Address, page: Address,
               plan: Plan, dispatcher: Address, shadowStack: Result<bool>)
    returns (r: Result<(seq<Byte>, bool)>)
    requires page < W64 - CAPACITY && Shaped(cpu, source, page + RELAY, bytes, plan) && address == source + plan.offset
    ensures r.Ok? ==> Built(cpu, address, plan.original, plan.replacement, page, r.value.0, dispatcher, r.value.1)
    ensures r.Ok? <==> Buildable(cpu, address, page, plan.original, dispatcher, shadowStack)
    ensures r.Ok? ==> Filled(r.value.0, |Relocated(cpu, address, page, plan.original).value|)
  {
    hide X86Relocate.Relocated, Arm64.Relocated, X86Plan.JumpBytes, Arm64.Jump, X86Plan.HasCall, X86Plan.Tiled;
    var saved: seq<Byte>;
    var bridge := false;
    match cpu {
      case X86 =>
        saved :- X86Layout.Trampoline(address, page, plan.original);
        bridge :- CheckBridge(plan.original, shadowStack);
      case Arm64 =>
        saved :- Arm64Plan.TrampolineBytes(address, page, plan.original);
    }
    RelocatedFits(cpu, source, page + RELAY, bytes, plan, page);
    var jump :- Jump(cpu, page + RELAY, dispatcher);
    JumpSize(cpu, page + RELAY, dispatcher);
    var contents := Resize(saved, RELAY, 0xcc) + jump;
    assert contents[RELAY..] == jump && saved <= contents;
    r := Ok((contents, bridge));
  }
  /** A call can be bridged only without a shadow stack. */
  method CheckBridge(original: seq<Byte>, shadowStack: Result<bool>) returns (r: Result<bool>)
    ensures r.Ok? && X86Plan.Tiled(original, 0, |original|) ==> r.value == X86Plan.HasCall(original, 0)
    ensures r.Ok? && r.value ==> shadowStack == Ok(false)
    ensures X86Plan.Tiled(original, 0, |original|) ==>
              (r.Ok? <==> (X86Plan.HasCall(original, 0) ==> shadowStack == Ok(false)))
  {
    hide X86Plan.HasCall, X86Plan.Tiled;
    var bridge :- X86Plan.NeedsCallBridge(original);
    if bridge {
      var enabled :- shadowStack;
      if enabled {
        return Err(ShadowStack);
      }
    }
    r := Ok(bridge);
  }
  lemma JumpSize(cpu: Target, source: Address, target: Address)
    requires Jump(cpu, source, target).Ok?
    ensures |Jump(cpu, source, target).value| in {4, 5, 14, 16}
  {
    hide Arm64Plan.Pack, X86Plan.JumpBytes;
  }

  // Short forms

  function Reach(cpu: Target): int {
    if cpu.X86? then X86_REACH else ARM64_REACH
  }
  /** The entry jump and the way back take the short form. */
  ghost predicate Short(cpu: Target, address: Address, original: seq<Byte>, page: Address)
    requires page + RELAY < W64 && Jump(cpu, address, page + RELAY).Ok?
  {
    && |Jump(cpu, address, page + RELAY).value| == (if cpu.X86? then 5 else 4)
    && (cpu.Arm64? ==> ReturnsNear(address, page, Arm64Plan.Chunks(original)))
  }
  /** Relocated words get back without x16. */
  ghost predicate ReturnsNear(address: Address, page: Address, ws: seq<Word>) {
    && address + 4 * |ws| < W64 && Arm64.FirstPass(address, page, ws, |ws|).Ok?
    && Arm64Meaning.Place(address, page, ws, |ws|) < W64
    && !Arm64Meaning.Far(Arm64Meaning.Place(address, page, ws, |ws|), address + 4 * |ws|)
  }
  /** So it is on every page that a near search returns. */
  lemma NearIsShort(cpu: Target, source: Address, bytes: seq<Byte>, plan: Plan, page: Address)
    requires page + RELAY < W64 && Shaped(cpu, source, page + RELAY, bytes, plan)
    requires Distance(page, source) <= Reach(cpu) && page % 4 == 0
    requires Relocated(cpu, source + plan.offset, page, plan.original).Ok?
    ensures Short(cpu, source + plan.offset, plan.original, page)
  {
    hide X86Plan.Tiled, Arm64.FirstPass, Arm64.Relocated, Arm64Plan.Pack, X86Relocate.Relocated;
    match cpu
    case X86 =>
      X86Plan.NearJumpsAreShort(source, page, plan.offset, |plan.original|, 0);
    case Arm64 =>
      NearWords(source, plan.offset, page, Arm64Plan.Chunks(plan.original));
  }
  lemma NearWords(source: Address, offset: nat, page: Address, ws: seq<Word>)
    requires offset in {0, 4} && source + offset < W64 && page + RELAY < W64 && |ws| <= 4
    requires Arm64.Relocated(source + offset, page, ws).Ok? && Distance(page, source) <= ARM64_REACH
    ensures ReturnsNear(source + offset, page, ws) && !Arm64Meaning.Far(source + offset, page + RELAY)
  {
    hide Arm64.FirstPass, Arm64.SecondPass, Arm64.Relative, Arm64.Relocated, Arm64.Jump, Distance;
    var address := source + offset;
    var body := Arm64Meaning.Unpack(address, page, ws, Arm64.Relocated(address, page, ws).value);
    Arm64Plan.RelocationSize(address, page, ws);
    Arm64Plan.NearJumpsAreShort(source, page, offset, 4 * |ws|, 4 * |body|);
  }
}
