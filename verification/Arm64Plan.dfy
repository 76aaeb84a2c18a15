/** Choice of the A64 prefix to displace, on bytes, and the size of its relocation. */
module Arm64Plan {
  import opened Words
  import opened Bytes
  import opened Arm64
  import Encoding = Arm64Encoding
  import Executable

  // Little-endian packing

  function Pack(ws: seq<Word>): (bs: seq<Byte>)
    ensures |bs| == 4 * |ws|
  {
    if ws == [] then [] else Le32(ws[0]) + Pack(ws[1..])
  }
  /** `chunks_exact(4)`, each chunk read as a word. */
  function Chunks(bs: seq<Byte>): (ws: seq<Word>)
    ensures |ws| == |bs| / 4
  {
    if |bs| < 4 then [] else [Word32(bs, 0)] + Chunks(bs[4..])
  }

  /** Words survive being stored as bytes, and so do whole words of bytes. */
  lemma {:induction false} PackRoundTrip(ws: seq<Word>)
    ensures Chunks(Pack(ws)) == ws
  {
    hide Word32, Le32;
    if ws != [] {
      var bs := Pack(ws);
      assert bs[..4] == Le32(ws[0]) && bs[4..] == Pack(ws[1..]);
      Word32Slice(bs, 0, ws[0]);
      PackRoundTrip(ws[1..]);
    }
  }
  lemma {:induction false} ChunksRoundTrip(bs: seq<Byte>)
    requires |bs| % 4 == 0
    ensures Pack(Chunks(bs)) == bs
  {
    hide Join, Le32;
    if bs != [] {
      Word32RoundTrip(bs[0], bs[1], bs[2], bs[3]);
      assert bs[..4] == [bs[0], bs[1], bs[2], bs[3]];
      ChunksRoundTrip(bs[4..]);
      assert bs == bs[..4] + bs[4..];
    }
  }

  /** Packed words at the front of some bytes are what those bytes hold. */
  lemma {:induction false} PackPrefix(ws: seq<Word>, bs: seq<Byte>)
    requires Pack(ws) <= bs
    ensures ws <= Chunks(bs)
  {
    hide Word32, Le32;
    if ws != [] {
      var packed := Pack(ws);
      assert packed[..4] == Le32(ws[0]) && packed[4..] == Pack(ws[1..]);
      assert bs[..4] == packed[..4] && packed[4..] == bs[4..|packed|] == bs[4..][..|packed| - 4];
      Word32Slice(bs, 0, ws[0]);
      PackPrefix(ws[1..], bs[4..]);
    }
  }

  /** The relocator on bytes, as it is called: only whole words are taken. */
  method TrampolineBytes(source: Address, destination: Address, original: seq<Byte>) returns (r: Result<seq<Byte>>)
    ensures r.Ok? <==> |original| % 4 == 0 && Relocated(source, destination, Chunks(original)).Ok?
    ensures r.Ok? ==> r.value == Pack(Relocated(source, destination, Chunks(original)).value)
    ensures Aligned(source).Ok? && Aligned(destination).Ok? && (original == [] || |original| % 4 != 0) ==>
              r == Err(InvalidRange)
    ensures r.Err? && |original| % 4 == 0 ==> r.error == Relocated(source, destination, Chunks(original)).error
  {
    hide FirstPass, SecondPass;
    var _ :- Aligned(source);
    var _ :- Aligned(destination);
    if original == [] || |original| % 4 != 0 {
      return Err(InvalidRange);
    }
    var words :- Trampoline(source, destination, Chunks(original));
    r := Ok(Pack(words));
  }

  // The plan

  predicate IsLandingPad(w: Word) {
    w / 256 == 0xd50324 && w % 32 == 0x1f
  }
  /** The landing pad that the patch must leave in place. */
  function PadLength(bytes: seq<Byte>): nat
    requires |bytes| >= 4
  {
    if IsLandingPad(Word32(bytes, 0)) then 4 else 0
  }

  /** Every word may be an instruction, and none but the last is a branch away, a return or a breakpoint. */
  ghost predicate Movable(ws: seq<Word>) {
    && (forall i | 0 <= i < |ws| :: !Encoding.Unallocated(ws[i]))
    && (forall i | 0 <= i < |ws| - 1 :: !Encoding.EndsFunction(ws[i]))
  }
  /** The jump to a target takes one word within the reach of a branch, else four. */
  function JumpLength(address: int, target: int): nat {
    if -0x800_0000 <= target - address < 0x800_0000 then 4 else 16
  }
  /** BTI, as the bytes of its word: the patch must leave it in place. */
  predicate StartsWithPad(bytes: seq<Byte>) {
    |bytes| >= 4 && bytes[0] % 32 == 31 && bytes[1..4] == [0x24, 0x03, 0xd5]
  }
  /** What the bytes at `source` must hold: behind a landing pad that stays, words to displace. */
  ghost predicate Plannable(source: Address, target: Address, bytes: seq<Byte>) {
    && source != 0 && source % 4 == 0 && target != 0 && target % 4 == 0 && source != target
    && var offset := if StartsWithPad(bytes) then 4 else 0;
    && source + offset < W64
    && offset + JumpLength(source + offset, target) <= |bytes|
    && Movable(Chunks(bytes[offset..][..JumpLength(source + offset, target)]))
  }
  lemma PadIs(bytes: seq<Byte>)
    requires |bytes| >= 4
    ensures PadLength(bytes) == if StartsWithPad(bytes) then 4 else 0
  {
    var low, high := bytes[0], bytes[1] as int + bytes[2] as int * 256 + bytes[3] as int * 65536;
    var w := Word32(bytes, 0);
    Divides(w, 256, high, low);
    Divides(w, 32, 8 * high + low / 32, low % 32);
    if high == 0xd50324 {
      Divides(high, 256, bytes[2] as int + bytes[3] as int * 256, bytes[1]);
      Divides(bytes[2] as int + bytes[3] as int * 256, 256, bytes[3], bytes[2]);
    }
    assert bytes[1..4] == [bytes[1], bytes[2], bytes[3]];
  }
  lemma JumpSize(address: Address, target: Address)
    requires address != 0 && address % 4 == 0 && target != 0 && target % 4 == 0
    ensures Jump(address, target).Ok? && 4 * |Jump(address, target).value| == JumpLength(address, target)
  {
  }
  lemma PlannableJump(source: Address, target: Address, bytes: seq<Byte>)
    ensures Plannable(source, target, bytes) ==> Jump(source + if StartsWithPad(bytes) then 4 else 0, target).Ok?
  {
  }
  /** The loop over the words to displace. */
  method CheckWords(ws: seq<Word>) returns (r: Result<()>)
    ensures r.Ok? <==> Movable(ws)
    ensures r == Err(InvalidInstruction) ==> exists i :: 0 <= i < |ws| && Encoding.Unallocated(ws[i])
    ensures r.Err? ==> r.error in {InvalidInstruction, InsufficientSpace}
  {
    hide Encoding.Unallocated, Encoding.EndsFunction, Valid, Terminal;
    for index := 0 to |ws|
      invariant forall i | 0 <= i < index :: !Encoding.Unallocated(ws[i])
      invariant forall i | 0 <= i < index && i < |ws| - 1 :: !Encoding.EndsFunction(ws[i])
    {
      Encoding.ValidIs(ws[index]);
      Encoding.TerminalIs(ws[index]);
      if !Valid(ws[index]) {
        return Err(InvalidInstruction);
      }
      if Terminal(ws[index]) && index + 1 < |ws| {
        return Err(InsufficientSpace);
      }
    }
    r := Ok(());
  }

  /** A plan exists exactly for such bytes. It then covers exactly the jump. */
  method MakePlan(source: Address, target: Address, bytes: seq<Byte>) returns (r: Result<Plan>)
    ensures r.Ok? <==> Plannable(source, target, bytes)
    ensures r.Ok? ==>
              && r.value.offset == (if StartsWithPad(bytes) then 4 else 0)
              && Jump(source + r.value.offset, target).Ok?
              && r.value.replacement == Pack(Jump(source + r.value.offset, target).value)
              && |r.value.replacement| in {4, 16}
              && r.value.offset + |r.value.replacement| <= |bytes|
              && r.value.original == bytes[r.value.offset..][..|r.value.replacement|]
              && Movable(Chunks(r.value.original))
    ensures source == 0 || (source % 4 == 0 && target == 0) ==> r == Err(InvalidAddress)
    ensures source == target != 0 && source % 4 == 0 ==> r == Err(SameAddress)
  {
    hide Jump, StartsWithPad, PadLength, Movable;
    PlannableJump(source, target, bytes);
    var _ :- Aligned(source);
    var _ :- Aligned(target);
    if source == target {
      return Err(SameAddress);
    }
    if |bytes| < 4 {
      return Err(InsufficientSpace);
    }
    PadIs(bytes);
    var offset := PadLength(bytes);
    var address :- Sum(source, offset);
    var jump :- Jump(address, target);
    JumpSize(address, target);
    var size := 4 * |jump|;
    if offset + size > |bytes| {
      return Err(InsufficientSpace);
    }
    var prefix := bytes[offset..][..size];
    var _ :- CheckWords(Chunks(prefix));
    r := Ok(Plan(offset, prefix, Pack(jump)));
  }

  /** The first thirty-two bytes of a function decide its plan, whatever follows them. */
  lemma WindowSuffices(source: Address, target: Address, bytes: seq<Byte>)
    requires |bytes| >= 32
    ensures Plannable(source, target, bytes[..32]) <==> Plannable(source, target, bytes)
  {
    hide Movable;
    var window := bytes[..32];
    assert window[1..4] == bytes[1..4];
    var offset := if StartsWithPad(bytes) then 4 else 0;
    var size := JumpLength(source + offset, target);
    assert window[offset..][..size] == bytes[offset..][..size];
  }

  // Size

  lemma {:induction false} PassSize(source: Address, destination: Address, ws: seq<Word>, i: nat)
    requires i <= |ws| && source + 4 * |ws| < W64 && FirstPass(source, destination, ws, i).Ok?
    ensures |FirstPass(source, destination, ws, i).value.output| <= 1 + 5 * i
  {
    hide Expand;
    if i > 0 {
      PassSize(source, destination, ws, i - 1);
    }
  }

  /** The relocation of a planned prefix stays clear of the relay at byte 512. */
  lemma RelocationSize(source: Address, destination: Address, ws: seq<Word>)
    requires Relocated(source, destination, ws).Ok?
    ensures |Relocated(source, destination, ws).value| <= 5 + 5 * |ws|
    ensures |ws| <= 4 ==> 4 * |Relocated(source, destination, ws).value| < 512
  {
    hide FirstPass, SecondPass, Relative;
    PassSize(source, destination, ws, |ws|);
  }

  /** On a page that either near search returns, the entry jump
      to the relay and the return jump both take the one-word form. */
  lemma NearJumpsAreShort(source: Address, page: Address, offset: int, prefix: nat, used: nat)
    requires source % 4 == 0 && page % 4 == 0 && offset in {0, 4} && prefix % 4 == 0 && used % 4 == 0
    requires prefix <= 16 && used < 512
    requires Executable.Distance(page, source) <= Executable.ARM64_REACH
    ensures Relative(source + offset, page + 512, S26).Ok?
    ensures Relative(page + used, source + offset + prefix, S26).Ok?
  {
  }
}
