/**
  The ConnectionRequest packet the receiver opens a transfer with.
  Layout: tag (1 byte), window count (4, big-endian), file name bytes (the rest of
  the datagram, no length prefix).
 */
module SolicitarConexao {
  import opened JavaRuntime
  import opened Flag
  import opened Pacote

  /** Size of the tag plus the window count. */
  const CABECALHO: int := 1 + INT_BYTES

  /** SolicitarConexao.TAMANHO_MAX: header plus a 500-byte name. */
  const TAMANHO_MAX: int := 1 + INT_BYTES + TAMANHO_MAX_DADOS

  function EncodeRequest(arquivo: seq<Byte>, quantidadeDeBuffers: int): (r: seq<Byte>)
    ensures |r| == CABECALHO + |arquivo|
    ensures r[0] == GetByte(SolicitaConexao) && r[CABECALHO..] == arquivo
  {
    [GetByte(SolicitaConexao)] + PutInt(quantidadeDeBuffers) + arquivo
  }

  /** What the decoder leaves in the object: tag, window count, name, and length. */
  datatype RequestFields = RequestFields(flag: Byte, quantidadeDeBuffers: int, arquivo: seq<Byte>, tamanho: int)

  /**
    Decoding a received request of `len` bytes: tag and window count from bytes 0 to
    4, the name from byte 5 to `len`, and the name's length as the packet length; a
    datagram shorter than the header fails on a negative array size.
   */
  function DecodeRequest(bytes: seq<Byte>, len: int): (r: Result<RequestFields>)
    requires CABECALHO <= |bytes| && 0 <= len <= |bytes|
    ensures r.Ok? <==> len >= CABECALHO
    ensures r.Err? ==> r.fault == NegativeArraySize
    ensures r.Ok? ==> r.value.flag == bytes[0] && r.value.quantidadeDeBuffers == GetInt(bytes[1..])
    ensures r.Ok? ==> r.value.arquivo == bytes[CABECALHO..len] && r.value.tamanho == |r.value.arquivo|
  {
    if len < CABECALHO then Err(NegativeArraySize)
    else Ok(RequestFields(bytes[0], GetInt(bytes[1..]), bytes[CABECALHO..len], len - CABECALHO))
  }

  /** Round trip: the request decodes to the same window count and the same name bytes. */
  lemma {:induction false} RequestRoundTrip(arquivo: seq<Byte>, quantidadeDeBuffers: int)
    ensures var bytes := EncodeRequest(arquivo, quantidadeDeBuffers);
      DecodeRequest(bytes, |bytes|)
        == Ok(RequestFields(GetByte(SolicitaConexao), Wrap32(quantidadeDeBuffers), arquivo, |arquivo|))
  {
    var bytes := EncodeRequest(arquivo, quantidadeDeBuffers);
    GetIntAt([GetByte(SolicitaConexao)], quantidadeDeBuffers, arquivo);
    assert bytes[CABECALHO..|bytes|] == arquivo;
  }

  class SolicitarConexao {
    const HOSTNAME: Host
    const PORTA: int
    var tamanho: int
    var flag: Byte
    var quantidadeDeBuffers: int
    var arquivo: seq<Byte>

    constructor(hostname: Host, porta: int)
      ensures HOSTNAME == hostname && PORTA == porta
      ensures flag == GetByte(SolicitaConexao)
      ensures tamanho == 0 && quantidadeDeBuffers == 0 && arquivo == []
    {
      HOSTNAME, PORTA := hostname, porta;
      flag := GetByte(SolicitaConexao);
      tamanho, quantidadeDeBuffers, arquivo := 0, 0, [];
    }

    /**
      `set(String, int)`: builds the datagram and records its full length; the name
      and window count fields are not touched.
     */
    method Set(arquivo: seq<Byte>, quantidadeDeBuffers: int) returns (bytes: seq<Byte>)
      modifies this
      ensures bytes == EncodeRequest(arquivo, quantidadeDeBuffers)
      ensures tamanho == |bytes| == CABECALHO + |arquivo|
      ensures flag == old(flag) && this.quantidadeDeBuffers == old(this.quantidadeDeBuffers)
      ensures this.arquivo == old(this.arquivo)
    {
      bytes := [GetByte(SolicitaConexao)] + PutInt(quantidadeDeBuffers);
      bytes := bytes + arquivo;
      this.tamanho := |bytes|;
    }

    /**
      `set(byte[], int)`: tag and window count are overwritten first; a datagram
      shorter than the header then fails (`ok` false), leaving name and length.
     */
    method SetFromBytes(bytes: seq<Byte>, len: int) returns (ok: bool)
      requires CABECALHO <= |bytes| && 0 <= len <= |bytes|
      modifies this
      ensures ok == DecodeRequest(bytes, len).Ok?
      ensures flag == bytes[0] && quantidadeDeBuffers == GetInt(bytes[1..])
      ensures ok ==> RequestFields(flag, quantidadeDeBuffers, arquivo, tamanho) == DecodeRequest(bytes, len).value
      ensures !ok ==> tamanho == old(tamanho) && arquivo == old(arquivo)
    {
      flag := bytes[0];
      quantidadeDeBuffers := GetInt(bytes[1..]);
      var bytesRestantes := len - CABECALHO;
      if bytesRestantes < 0 {
        return false;
      }
      var nome := bytes[CABECALHO..len];
      tamanho := |nome|;
      arquivo := nome;
      ok := true;
    }
  }
}
