/**
 tools/gen_rsa_adx16.py, redc: the emitter's loops, over a window list that rotates, append
 exactly the code AdxRedc proves right.
 */
module AdxEmit {
  import opened AdxMachine
  import opened AdxRows
  import opened AdxReduce

  /** The ring turns: the dead register is the next one to take a word. */
  method Turn(win: seq<nat>, top: nat, ghost ring: seq<nat>) returns (win': seq<nat>, top': nat)
    requires |win| == 8 && ring == win + [top]
    ensures |win'| == 8 && win' + [top'] == Rotate(ring)
  {
    var dead := win[0];
    win' := win[1..] + [top];
    top' := dead;
    assert ring[1..] + [ring[0]] == win' + [top'];
  }

  method EmitLowRows(l: seq<Instr>, win0: seq<nat>, top0: nat, b: nat) returns (r: seq<Instr>, win: seq<nat>, top: nat)
    requires |win0| == 8
    ensures |win| == 8 && win + [top] == RotN(win0 + [top0], 8)
    ensures r == l + Rows(win0 + [top0], b, 8)
  {
    win, top := win0, top0;
    var code := [];
    for i := 0 to 8
      invariant |win| == 8 && win + [top] == RotN(win0 + [top0], i)
      invariant code == Rows(win0 + [top0], b, i)
    {
      var k := 8 * b + i;
      var row := EmitRow([MovR(win[0], RDX), ImulN0, StoreT(RDX, k)], win + [top], 0);
      code := code + (row + Slide(top, k + 8));
      win, top := Turn(win, top, RotN(win0 + [top0], i));
    }
    r := l + code;
  }

  lemma RowIndex(c: nat, i: nat)
    requires i < 8
    ensures (8 * c + i) / 8 == c && (8 * c + i) % 8 == i
  {
  }

  lemma NextRow(ring: seq<nat>, b: nat, c: nat, i: nat)
    requires |ring| == 9 && 1 <= c && i < 8
    ensures var r := RotN(ring, 8 * c + i);
      && RotN(ring, 8 * c + i + 1) == Rotate(r)
      && Rows(ring, b, 8 * c + i + 1) == Rows(ring, b, 8 * c + i)
           + ([LoadT(8 * b + i, RDX)] + Row(r, 8 * c) + [StoreT(r[0], 8 * (b + c) + i)] + Slide(r[8], 8 * (b + c) + i + 8))
  {
    hide Row, Slide, Rotate;
    var j := 8 * c + i;
    RowIndex(c, i);
    assert j >= 8 && j / 8 == c && j % 8 == i;
    RowsNext(ring, b, j);
    hide Rows, RotN;
    HighRowAt(ring, b, j);
  }

  lemma RowsNext(ring: seq<nat>, b: nat, j: nat)
    requires |ring| == 9
    ensures RotN(ring, j + 1) == Rotate(RotN(ring, j)) && Rows(ring, b, j + 1) == Rows(ring, b, j) + RowAt(ring, b, j)
  {
  }

  lemma HighRowAt(ring: seq<nat>, b: nat, j: nat)
    requires |ring| == 9 && j >= 8
    ensures RowAt(ring, b, j) == HighRow(RotN(ring, j), 8 * b + j % 8, 8 * b + j, 8 * (j / 8))
  {
    hide HighRow, LowRow;
  }

  method EmitHighRows(win0: seq<nat>, top0: nat, b: nat, B: nat, code0: seq<Instr>, ghost ring: seq<nat>)
    returns (code: seq<Instr>, win: seq<nat>, top: nat)
    requires |win0| == 8 && |ring| == 9 && win0 + [top0] == RotN(ring, 8) && code0 == Rows(ring, b, 8) && B > 0
    ensures |win| == 8 && win + [top] == RotN(ring, 8 * B)
    ensures code == Rows(ring, b, 8 * B)
  {
    hide Rows, RotN;
    code, win, top := code0, win0, top0;
    for c := 1 to B
      invariant |win| == 8 && win + [top] == RotN(ring, 8 * c)
      invariant code == Rows(ring, b, 8 * c)
    {
      for i := 0 to 8
        invariant |win| == 8 && win + [top] == RotN(ring, 8 * c + i)
        invariant code == Rows(ring, b, 8 * c + i)
      {
        code, win, top := EmitHighRow(code, win, top, b, c, i, ring);
      }
    }
  }

  method EmitHighRow(l: seq<Instr>, win0: seq<nat>, top0: nat, b: nat, c: nat, i: nat, ghost ring: seq<nat>)
    returns (code: seq<Instr>, win: seq<nat>, top: nat)
    requires |win0| == 8 && |ring| == 9 && win0 + [top0] == RotN(ring, 8 * c + i) && 1 <= c && i < 8
    requires l == Rows(ring, b, 8 * c + i)
    ensures |win| == 8 && win + [top] == RotN(ring, 8 * c + i + 1)
    ensures code == Rows(ring, b, 8 * c + i + 1)
  {
    hide Rows, RotN, Row, Slide;
    var k, col0 := 8 * b + i, 8 * (b + c) + i;
    var row := EmitRow([LoadT(k, RDX)], win0 + [top0], 8 * c);
    NextRow(ring, b, c, i);
    code := l + (row + [StoreT(win0[0], col0)] + Slide(top0, col0 + 8));
    win, top := Turn(win0, top0, RotN(ring, 8 * c + i));
  }

  /** The carry chain above a block: one add into the top word when no column lies between. */
  method EmitCarry(top: nat, n: nat) returns (code: seq<Instr>)
    requires top + 8 <= 2 * n
    ensures code == [AddT(CB, top + 8)] + Carries(top + 9, 2 * n + 1)
  {
    if top + 8 < 2 * n {
      var chain := [];
      for col := top + 9 to 2 * n
        invariant chain == Carries(top + 9, col)
      {
        chain := chain + [AdcT0(col)];
      }
      code := [AddT(CB, top + 8)] + (chain + [AdcT0(2 * n)]);
    } else {
      code := [AddT(CB, 2 * n)];
    }
  }

  method EmitBlock(b: nat, B: nat, regs: seq<nat>, top0: nat) returns (code: seq<Instr>, win: seq<nat>, top: nat)
    requires |regs| == 8 && b < B
    ensures code == Block(regs + [top0], b, B)
    ensures |win| == 8 && win + [top] == RotN(regs + [top0], 8 * B)
  {
    hide RotN, Rows;
    ghost var ring := regs + [top0];
    var loads := [];
    for j := 0 to 8
      invariant loads == Loads(ring, b, j)
    {
      loads := loads + [LoadT(8 * b + j, regs[j])];
    }
    var rows;
    rows, win, top := EmitLowRows([], regs, top0, b);
    rows, win, top := EmitHighRows(win, top, b, B, rows, ring);
    var stores := [];
    for j := 0 to 8
      invariant stores == Stores(RotN(ring, 8 * B), 8 * (b + B), j)
    {
      assert win[j] == (win + [top])[j];
      stores := stores + [StoreT(win[j], 8 * (b + B) + j)];
    }
    var carry := EmitCarry(8 * (b + B), 8 * B);
    code := loads + [XorR(CB)] + rows + stores + carry;
    assert code == Block(ring, b, B) by {
      hide Loads, Rows, Stores, RotN, Carries;
      assert 2 * (8 * B) + 1 == 16 * B + 1;
      assert code == loads + [XorR(CB)] + rows + stores + ([AddT(CB, 8 * (b + B) + 8)] + Carries(8 * (b + B) + 9, 16 * B + 1));
    }
  }

  lemma FirstBlock(B: nat)
    ensures BlockRing(0, B) == RING && Blocks(0, B) == []
  {
  }

  lemma AnotherBlock(b: nat, B: nat)
    ensures BlockRing(b + 1, B) == RotN(BlockRing(b, B), 8 * B)
    ensures Blocks(b + 1, B) == Blocks(b, B) + Block(BlockRing(b, B), b, B)
  {
    hide RotN, Block, IsRing;
  }

  lemma RedcIs(B: nat)
    ensures Redc(B) == [LoadPtr(PM, SRC), ZeroT(2 * (8 * B))] + Blocks(B, B)
  {
    hide Blocks;
    assert 2 * (8 * B) == 16 * B;
  }

  /** redc(e, n) for n = 8B appends Redc(B) to what has been emitted. */
  method EmitRedc(l: seq<Instr>, B: nat) returns (r: seq<Instr>)
    ensures r == l + Redc(B)
  {
    var regs: seq<nat>, top: nat := [0, 1, 2, 3, 4, 5, 6, 7], T0;
    hide *;
    var blocks := [];
    FirstBlock(B);
    assert regs + [top] == RING;
    for b := 0 to B
      invariant |regs| == 8 && regs + [top] == BlockRing(b, B)
      invariant blocks == Blocks(b, B)
    {
      var code, win, top' := EmitBlock(b, B, regs, top);
      AnotherBlock(b, B);
      blocks := blocks + code;
      regs, top := win, top';
    }
    RedcIs(B);
    r := l + ([LoadPtr(PM, SRC), ZeroT(2 * (8 * B))] + blocks);
  }
}
