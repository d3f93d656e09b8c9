/** The five kinds of wire message and the tag byte each one carries in byte 0. */
module Flag {
  import opened JavaRuntime

  datatype Flag = SolicitaConexao | AceitaConexao | Dados | Relatorio | EncerraConexao

  /** The tag byte of a kind (`Flag.getByte`). */
  function GetByte(f: Flag): (b: Byte)
    ensures b < 5
  {
    match f
    case SolicitaConexao => 0
    case AceitaConexao => 1
    case Dados => 2
    case Relatorio => 3
    case EncerraConexao => 4
  }

  /** The kind whose tag is `b`, if any. */
  function FromByte(b: Byte): (r: Option<Flag>)
    ensures r.Some? <==> b < 5
    ensures r.Some? ==> GetByte(r.value) == b
  {
    if b == 0 then Some(SolicitaConexao)
    else if b == 1 then Some(AceitaConexao)
    else if b == 2 then Some(Dados)
    else if b == 3 then Some(Relatorio)
    else if b == 4 then Some(EncerraConexao)
    else None
  }

  /** Distinct kinds have distinct tags, so a tag identifies its kind. */
  lemma GetByteInjective(f: Flag, g: Flag)
    ensures GetByte(f) == GetByte(g) <==> f == g
  {
  }

  /** Every kind is recovered from its tag, and the tags are exactly 0 to 4. */
  lemma FromGetByte(f: Flag)
    ensures FromByte(GetByte(f)) == Some(f)
  {
  }
}
