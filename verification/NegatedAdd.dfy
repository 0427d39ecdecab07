/** Where fetch_sub is a fetch_add of the negated operand, and when that is a subtraction. */
module NegatedAdd {
  import opened Words

  /**
   The operand's type after the integer promotions. An unsigned one negates modulo its own
   range; a signed one negates exactly.
   */
  datatype OperandType = Signed | Unsigned(width: nat)

  function Negate(v: int, ty: OperandType): int {
    match ty
    case Signed => 0 - v
    case Unsigned(width) => Wrap(0 - v, width)
  }

  /** fetch_add of the negated operand to a cell of `width` bits. */
  function SubByNegatedAdd(cell: nat, v: int, ty: OperandType, width: nat): nat {
    Wrap(cell + Negate(v, ty), width)
  }

  /**
   It subtracts, whatever the cell holds, exactly when the operand is 0, or signed, or of a type at
   least as wide as the cell: a narrower unsigned operand is negated in its own range and
   then widened with zeros.
   */
  lemma NegatedAddSubtracts(cell: nat, v: int, ty: OperandType, width: nat)
    requires ty.Unsigned? ==> 0 <= v < Pow2(ty.width)
    ensures SubByNegatedAdd(cell, v, ty, width) == Wrap(cell - v, width)
       <==> v == 0 || ty.Signed? || ty.width >= width
  {
    if ty.Unsigned? && v > 0 {
      var m: int := Pow2(ty.width);
      assert 0 - v == m * (-1) + (m - v);
      DivModUnique(-1, m - v, m);
      assert Negate(v, ty) == m - v;
      WrapEqual(cell + Negate(v, ty), cell - v, width);
      PowDivides(width, ty.width);
    } else if ty.Unsigned? {
      DivModUnique(0, 0, Pow2(ty.width));
    }
  }

  /** A 64-bit counter at 10 from which a 32-bit unsigned 1 is subtracted ends above 2^32. */
  lemma NarrowOperandAdds()
    ensures SubByNegatedAdd(10, 1, Unsigned(32), 64) == 10 + 0xFFFF_FFFF
    ensures SubByNegatedAdd(10, 1, Unsigned(32), 64) != Wrap(10 - 1, 64)
  {
    NamedPowers();
    var m: int := Pow2(32);
    DivModUnique(-1, m - 1, m);
    assert Negate(1, Unsigned(32)) == m - 1 by {
      assert 0 - 1 == m * (-1) + (m - 1);
    }
    DivModUnique(0, 10 + (m - 1), Pow2(64));
    DivModUnique(0, 9, Pow2(64));
  }
}
