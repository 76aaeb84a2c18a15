/** Where the two passes of the A64 relocator put each instruction. */
module Arm64Layout {
  import opened Words
  import opened Arm64

  /** Output word at which instruction `j` starts, or the return jump when `j` is the length. */
  ghost function Position(source: Address, destination: Address, ws: seq<Word>, j: nat): nat
    requires j <= |ws| && source + 4 * |ws| < W64
    requires FirstPass(source, destination, ws, j).Ok?
  {
    |FirstPass(source, destination, ws, j).value.output|
  }

  ghost function DraftAt(source: Address, destination: Address, ws: seq<Word>, j: nat): Draft
    requires j < |ws| && source + 4 * |ws| < W64
    requires FirstPass(source, destination, ws, j + 1).Ok?
  {
    Expand(source, destination, |ws|, j, ws[j], Position(source, destination, ws, j)).value
  }

  /** The first pass only appends. */
  lemma {:induction false} Grows(source: Address, destination: Address, ws: seq<Word>, j: nat, i: nat)
    requires j <= i <= |ws| && source + 4 * |ws| < W64
    requires FirstPass(source, destination, ws, i).Ok?
    ensures FirstPass(source, destination, ws, j).Ok?
    ensures var p, q := FirstPass(source, destination, ws, j).value, FirstPass(source, destination, ws, i).value;
            && p.output <= q.output && p.positions <= q.positions && p.branches <= q.branches
            && (forall k | |p.branches| <= k < |q.branches| :: |p.output| <= q.branches[k].0)
    decreases i
  {
    hide Expand;
    if j < i {
      Grows(source, destination, ws, j, i - 1);
    }
  }

  /** Branch slots are resolved in increasing order, so no slot is patched twice. */
  lemma {:induction false} SlotsIncrease(source: Address, destination: Address, ws: seq<Word>, i: nat)
    requires i <= |ws| && source + 4 * |ws| < W64
    requires FirstPass(source, destination, ws, i).Ok?
    ensures var p := FirstPass(source, destination, ws, i).value;
            forall a, b | 0 <= a < b < |p.branches| :: p.branches[a].0 < p.branches[b].0
  {
    hide Expand;
    if i > 0 {
      SlotsIncrease(source, destination, ws, i - 1);
    }
  }

  /** The second pass writes exactly the listed slots. */
  lemma {:induction false} Patched(source: Address, destination: Address, p: Pass, k: nat)
    requires k <= |p.branches|
    requires forall j | 0 <= j < |p.branches| :: p.branches[j].0 < |p.output|
    requires forall a, b | 0 <= a < b < |p.branches| :: p.branches[a].0 < p.branches[b].0
    requires SecondPass(source, destination, p, k).Ok?
    ensures var out := SecondPass(source, destination, p, k).value;
            && (forall a | 0 <= a < k ::
                  Resolve(source, destination, |p.positions|, p.positions, p.branches[a])
                  == Ok(out[p.branches[a].0]))
            && (forall q | 0 <= q < |out| && (forall a | 0 <= a < k :: p.branches[a].0 != q) ::
                  out[q] == p.output[q])
  {
    hide Resolve;
    if k > 0 {
      Patched(source, destination, p, k - 1);
    }
  }

  /** Word `q` of the block that replaces instruction `j`. */
  ghost function BlockWord(source: Address, destination: Address, ws: seq<Word>, j: nat, q: nat): Result<Word>
    requires j < |ws| && source + 4 * |ws| < W64
    requires FirstPass(source, destination, ws, |ws|).Ok?
    requires FirstPass(source, destination, ws, j + 1).Ok?
    requires q < |DraftAt(source, destination, ws, j).words|
  {
    var d := DraftAt(source, destination, ws, j);
    if d.slot.Some? && d.slot.value.0 == q then
      Resolve(source, destination, |ws|, FirstPass(source, destination, ws, |ws|).value.positions,
              (Position(source, destination, ws, j) + q, d.slot.value.1))
    else Ok(d.words[q])
  }

  /** A block that the first pass appended, after the second pass. */
  lemma PatchedBlock(source: Address, destination: Address, p: Pass, before: Pass, d: Draft, out: seq<Word>, q: nat)
    requires forall a | 0 <= a < |p.branches| :: p.branches[a].0 < |p.output|
    requires forall a, b | 0 <= a < b < |p.branches| :: p.branches[a].0 < p.branches[b].0
    requires SecondPass(source, destination, p, |p.branches|) == Ok(out)
    requires forall a | 0 <= a < |before.branches| :: before.branches[a].0 < |before.output|
    requires Append(before, d).output <= p.output && Append(before, d).branches <= p.branches
    requires forall a | |Append(before, d).branches| <= a < |p.branches| ::
               |Append(before, d).output| <= p.branches[a].0
    requires q < |d.words|
    ensures |before.output| + q < |out| == |p.output|
    ensures if d.slot.Some? && d.slot.value.0 == q
            then Resolve(source, destination, |p.positions|, p.positions, (|before.output| + q, d.slot.value.1))
                 == Ok(out[|before.output| + q])
            else out[|before.output| + q] == d.words[q]
  {
    hide Resolve;
    var after := Append(before, d);
    Patched(source, destination, p, |p.branches|);
    var at := |before.output|;
    assert p.output[at + q] == after.output[at + q] == d.words[q];
    if d.slot.Some? && d.slot.value.0 == q {
      assert p.branches[|before.branches|] == after.branches[|before.branches|];
    } else {
      forall a | 0 <= a < |p.branches| ensures p.branches[a].0 != at + q {
        if a < |after.branches| {
          assert p.branches[a] == after.branches[a];
        }
      }
    }
  }

  /** The second pass leaves one resolved block per instruction. */
  lemma BlockLaid(source: Address, destination: Address, ws: seq<Word>, j: nat, q: nat, out: seq<Word>)
    requires j < |ws| && source + 4 * |ws| < W64
    requires FirstPass(source, destination, ws, |ws|).Ok?
    requires FirstPass(source, destination, ws, j + 1).Ok?
    requires q < |DraftAt(source, destination, ws, j).words|
    requires var p := FirstPass(source, destination, ws, |ws|).value;
             SecondPass(source, destination, p, |p.branches|) == Ok(out)
    ensures var at := Position(source, destination, ws, j);
            && at + q < Position(source, destination, ws, |ws|) == |out|
            && BlockWord(source, destination, ws, j, q) == Ok(out[at + q])
  {
    hide Expand, Resolve, SecondPass;
    var p := FirstPass(source, destination, ws, |ws|).value;
    Grows(source, destination, ws, j, |ws|);
    Grows(source, destination, ws, j + 1, |ws|);
    SlotsIncrease(source, destination, ws, |ws|);
    PatchedBlock(source, destination, p, FirstPass(source, destination, ws, j).value,
                 DraftAt(source, destination, ws, j), out, q);
  }
}
