/**
  The ConnectionAccept packet the sender answers a request with.
  Layout: tag (1 byte), connection id (4, big-endian), expected packet count (4).
 */
module AceitarConexao {
  import opened JavaRuntime
  import opened Flag
  import opened Pacote

  /** AceitarConexao.TAMANHO_MAX: tag plus two ints. */
  const TAMANHO_MAX: int := 1 + 2 * INT_BYTES

  function EncodeAccept(idConexao: int, quantidadePacotesPrevistos: int): (r: seq<Byte>)
    ensures |r| == TAMANHO_MAX
    ensures r[0] == GetByte(AceitaConexao)
  {
    [GetByte(AceitaConexao)] + PutInt(idConexao) + PutInt(quantidadePacotesPrevistos)
  }

  /** What the decoder leaves in the object. */
  datatype AcceptFields = AcceptFields(flag: Byte, idConexao: int, quantidadePacotesPrevistos: int)

  /** The fields read from bytes 0 to 8 of the receive array (read whatever the datagram length). */
  function DecodeAcceptHeader(bytes: seq<Byte>): (f: AcceptFields)
    requires |bytes| >= TAMANHO_MAX
    ensures f.flag == bytes[0]
    ensures IsInt32(f.idConexao) && IsInt32(f.quantidadePacotesPrevistos)
  {
    AcceptFields(bytes[0], GetInt(bytes[1..]), GetInt(bytes[1 + INT_BYTES..]))
  }

  /**
    Decoding a received ConnectionAccept of `len` bytes: the header fields, and as
    the length the count of bytes after the header (0 for a well-formed datagram);
    a datagram shorter than the header fails on a negative array size.
   */
  function DecodeAccept(bytes: seq<Byte>, len: int): (r: Result<(AcceptFields, int)>)
    requires TAMANHO_MAX <= |bytes| && 0 <= len <= |bytes|
    ensures r.Ok? <==> len >= TAMANHO_MAX
    ensures r.Err? ==> r.fault == NegativeArraySize
    ensures r.Ok? ==> r.value.0 == DecodeAcceptHeader(bytes) && r.value.1 == len - TAMANHO_MAX
  {
    if len < TAMANHO_MAX then Err(NegativeArraySize)
    else Ok((DecodeAcceptHeader(bytes), len - TAMANHO_MAX))
  }

  /** Round trip: the accept datagram decodes to the same id and count, with nothing after the header. */
  lemma {:induction false} AcceptRoundTrip(idConexao: int, quantidadePacotesPrevistos: int)
    ensures var bytes := EncodeAccept(idConexao, quantidadePacotesPrevistos);
      DecodeAccept(bytes, |bytes|)
        == Ok((AcceptFields(GetByte(AceitaConexao), Wrap32(idConexao), Wrap32(quantidadePacotesPrevistos)), 0))
  {
    var bytes := EncodeAccept(idConexao, quantidadePacotesPrevistos);
    GetIntAt([GetByte(AceitaConexao)], idConexao, PutInt(quantidadePacotesPrevistos));
    assert [GetByte(AceitaConexao)] + PutInt(idConexao) + PutInt(quantidadePacotesPrevistos) + [] == bytes;
    GetIntAt([GetByte(AceitaConexao)] + PutInt(idConexao), quantidadePacotesPrevistos, []);
  }

  class AceitarConexao {
    const HOSTNAME: Host
    const PORTA: int
    var tamanho: int
    var flag: Byte
    var idConexao: int
    var quantidadePacotesPrevistos: int

    constructor(hostname: Host, porta: int)
      ensures HOSTNAME == hostname && PORTA == porta
      ensures flag == GetByte(AceitaConexao)
      ensures tamanho == 0 && idConexao == 0 && quantidadePacotesPrevistos == 0
    {
      HOSTNAME, PORTA := hostname, porta;
      flag := GetByte(AceitaConexao);
      tamanho, idConexao, quantidadePacotesPrevistos := 0, 0, 0;
    }

    /** `set(int, int)`: builds the 9-byte datagram and records id, count and length. */
    method Set(idConexao: int, quantidadePacotesPrevistos: int) returns (bytes: seq<Byte>)
      modifies this
      ensures bytes == EncodeAccept(idConexao, quantidadePacotesPrevistos)
      ensures tamanho == TAMANHO_MAX && flag == old(flag)
      ensures this.idConexao == idConexao && this.quantidadePacotesPrevistos == quantidadePacotesPrevistos
    {
      bytes := [GetByte(AceitaConexao)];
      bytes := bytes + PutInt(idConexao);
      bytes := bytes + PutInt(quantidadePacotesPrevistos);
      this.tamanho := |bytes|;
      this.idConexao := idConexao;
      this.quantidadePacotesPrevistos := quantidadePacotesPrevistos;
    }

    /**
      `set(byte[], int)`: tag, id and count are overwritten first; a datagram shorter
      than the header then fails (`ok` false) and leaves the length as it was.
     */
    method SetFromBytes(bytes: seq<Byte>, len: int) returns (ok: bool)
      requires TAMANHO_MAX <= |bytes| && 0 <= len <= |bytes|
      modifies this
      ensures ok == DecodeAccept(bytes, len).Ok?
      ensures AcceptFields(flag, idConexao, quantidadePacotesPrevistos) == DecodeAcceptHeader(bytes)
      ensures ok ==> tamanho == DecodeAccept(bytes, len).value.1
      ensures !ok ==> tamanho == old(tamanho)
    {
      var f := DecodeAcceptHeader(bytes);
      flag, idConexao, quantidadePacotesPrevistos := f.flag, f.idConexao, f.quantidadePacotesPrevistos;
      var bytesRestantes := len - TAMANHO_MAX;
      if bytesRestantes < 0 {
        return false;
      }
      tamanho := bytesRestantes;
      ok := true;
    }
  }
}
