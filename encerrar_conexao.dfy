/**
  The ConnectionEnd packet the receiver sends once the transfer is complete.
  Layout: tag (1 byte), connection id (4, big-endian).
 */
module EncerrarConexao {
  import opened JavaRuntime
  import opened Flag
  import opened Pacote

  /** EncerrarConexao.TAMANHO_MAX: tag plus one int. */
  const TAMANHO_MAX: int := 1 + INT_BYTES

  /** The 5-byte datagram: its byte 0 is recognised as a ConnectionEnd, bytes 1 to 4 carry the id. */
  function EncodeEnd(idConexao: int): (r: seq<Byte>)
    ensures |r| == TAMANHO_MAX
    ensures IsEncerarConexao(r) && KindOf(r) == Some(EncerraConexao)
    ensures GetInt(r[1..]) == Wrap32(idConexao)
  {
    GetIntAt([GetByte(EncerraConexao)], idConexao, []);
    assert [GetByte(EncerraConexao)] + PutInt(idConexao) + [] == [GetByte(EncerraConexao)] + PutInt(idConexao);
    [GetByte(EncerraConexao)] + PutInt(idConexao)
  }

  class EncerrarConexao {
    const HOSTNAME: Host
    const PORTA: int
    var tamanho: int
    var flag: Byte
    var idConexao: int

    constructor(hostname: Host, porta: int)
      ensures HOSTNAME == hostname && PORTA == porta
      ensures flag == GetByte(EncerraConexao)
      ensures tamanho == 0 && idConexao == 0
    {
      HOSTNAME, PORTA := hostname, porta;
      flag := GetByte(EncerraConexao);
      tamanho, idConexao := 0, 0;
    }

    /** `set(int)`: builds the datagram and records its length (5) and the id. */
    method Set(idConexao: int) returns (bytes: seq<Byte>)
      modifies this
      ensures bytes == EncodeEnd(idConexao)
      ensures tamanho == TAMANHO_MAX && this.idConexao == idConexao && flag == old(flag)
    {
      bytes := EncodeEnd(idConexao);
      this.tamanho := |bytes|;
      this.idConexao := idConexao;
    }
  }
}
