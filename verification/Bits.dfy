/** Rows of bits packed eight to a byte, lowest bit first, as visibility rows and area rows are. */
module Bits {

  function Mask(k: nat): (r: bv8)
    requires k < 8
  {
    match k
    case 0 => 0x01
    case 1 => 0x02
    case 2 => 0x04
    case 3 => 0x08
    case 4 => 0x10
    case 5 => 0x20
    case 6 => 0x40
    case _ => 0x80
  }

  predicate InRow(row: seq<bv8>, i: nat)
    requires i / 8 < |row|
  {
    row[i / 8] & Mask(i % 8) != 0
  }

  lemma MaskOr(b: bv8, k: nat, j: nat)
    requires k < 8 && j < 8
    ensures (b | Mask(k)) & Mask(j) != 0 <==> j == k || b & Mask(j) != 0
  {
  }

  lemma EveryBit(k: nat)
    requires k < 8
    ensures (0xff as bv8) & Mask(k) != 0 && (0 as bv8) & Mask(k) == 0
  {
  }

  /** Setting a bit changes that bit and no other. */
  lemma SetBit(row: seq<bv8>, i: nat, j: nat)
    requires i / 8 < |row| && j / 8 < |row|
    ensures InRow(row[i / 8 := row[i / 8] | Mask(i % 8)], j) <==> i == j || InRow(row, j)
  {
    MaskOr(row[i / 8], i % 8, j % 8);
  }

  lemma SetBits(row: seq<bv8>, i: nat)
    requires i / 8 < |row|
    ensures var r := row[i / 8 := row[i / 8] | Mask(i % 8)];
      forall j {:trigger InRow(r, j)} :: 0 <= j < 8 * |row| ==> (InRow(r, j) <==> i == j || InRow(row, j))
  {
    hide InRow, Mask;
    var r := row[i / 8 := row[i / 8] | Mask(i % 8)];
    forall j | 0 <= j < 8 * |row|
      ensures InRow(r, j) <==> i == j || InRow(row, j)
    {
      SetBit(row, i, j);
    }
  }
}
