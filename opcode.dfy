/** The 32 opcodes of the Dog VM; their declaration order is the serialized ordinal. */
module OpCodes {
  import opened Wrappers

  datatype OpCode =
    | CONST_INT | CONST_LONG | CONST_DOUBLE | CONST_BIGINT | CONST_STR | CONST_BOOL | CONST_NIL
    | CONST_FUNC | CALL_VALUE | RETURN
    | ARRAY_NEW | ARRAY_GET | ARRAY_SET
    | ADD | SUB | MUL | DIV
    | NOT
    | EQ | NEQ
    | LT | GT | LE | GE
    | LOAD | STORE
    | IMPORT | CALL
    | PRINT | POP
    | JUMP
    | JUMP_IF_FALSE

  /** The number of opcodes, OpCode.values().length. */
  const COUNT := 32

  /** Enum.ordinal(): the position of the constant in the declaration. */
  function Ordinal(op: OpCode): (n: nat)
    ensures n < COUNT
  {
    match op
    case CONST_INT => 0
    case CONST_LONG => 1
    case CONST_DOUBLE => 2
    case CONST_BIGINT => 3
    case CONST_STR => 4
    case CONST_BOOL => 5
    case CONST_NIL => 6
    case CONST_FUNC => 7
    case CALL_VALUE => 8
    case RETURN => 9
    case ARRAY_NEW => 10
    case ARRAY_GET => 11
    case ARRAY_SET => 12
    case ADD => 13
    case SUB => 14
    case MUL => 15
    case DIV => 16
    case NOT => 17
    case EQ => 18
    case NEQ => 19
    case LT => 20
    case GT => 21
    case LE => 22
    case GE => 23
    case LOAD => 24
    case STORE => 25
    case IMPORT => 26
    case CALL => 27
    case PRINT => 28
    case POP => 29
    case JUMP => 30
    case JUMP_IF_FALSE => 31
  }

  /** Ordinals are distinct, so they identify the opcode. */
  lemma OrdinalInjective(a: OpCode, b: OpCode)
    ensures Ordinal(a) == Ordinal(b) ==> a == b
  {
    OrdinalRoundTrip(a);
    OrdinalRoundTrip(b);
  }

  /** The reader's opcode lookup: ordinals outside [0, 32) are rejected as corrupt. */
  function OpCodeByOrdinal(ord: int): (r: Option<OpCode>)
    ensures r.None? <==> ord < 0 || ord >= COUNT
    ensures r.Some? ==> Ordinal(r.value) == ord
  {
    if ord < 0 || ord >= COUNT then None
    else
      OrdinalOfNth(ord);
      Some(Nth(ord))
  }

  /** OpCode.values()[k]: the opcode declared k-th. */
  function Nth(k: int): OpCode
    requires 0 <= k < COUNT
  {
    if k < 16 then NthLow(k) else NthHigh(k)
  }

  function NthLow(k: int): OpCode
    requires 0 <= k < 16
  {
    match k
    case 0 => CONST_INT
    case 1 => CONST_LONG
    case 2 => CONST_DOUBLE
    case 3 => CONST_BIGINT
    case 4 => CONST_STR
    case 5 => CONST_BOOL
    case 6 => CONST_NIL
    case 7 => CONST_FUNC
    case 8 => CALL_VALUE
    case 9 => RETURN
    case 10 => ARRAY_NEW
    case 11 => ARRAY_GET
    case 12 => ARRAY_SET
    case 13 => ADD
    case 14 => SUB
    case _ => MUL
  }

  function NthHigh(k: int): OpCode
    requires 16 <= k < 32
  {
    match k
    case 16 => DIV
    case 17 => NOT
    case 18 => EQ
    case 19 => NEQ
    case 20 => LT
    case 21 => GT
    case 22 => LE
    case 23 => GE
    case 24 => LOAD
    case 25 => STORE
    case 26 => IMPORT
    case 27 => CALL
    case 28 => PRINT
    case 29 => POP
    case 30 => JUMP
    case _ => JUMP_IF_FALSE
  }

  lemma OrdinalOfNth(k: int)
    requires 0 <= k < COUNT
    ensures Ordinal(Nth(k)) == k
  {
    if k < 16 { OrdinalOfNthLow(k); } else { OrdinalOfNthHigh(k); }
  }

  lemma OrdinalOfNthLow(k: int)
    requires 0 <= k < 16
    ensures Ordinal(NthLow(k)) == k
  {
  }

  lemma OrdinalOfNthHigh(k: int)
    requires 16 <= k < 32
    ensures Ordinal(NthHigh(k)) == k
  {
  }

  /** Looking up the ordinal of an opcode gives the opcode back. */
  lemma OrdinalRoundTrip(op: OpCode)
    ensures OpCodeByOrdinal(Ordinal(op)) == Some(op)
  {
  }
}
