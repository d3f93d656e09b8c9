/**
  The Data packet: one chunk of the file with its connection id and sequence number.
  Layout: tag (1 byte), connection id (4, big-endian), sequence number (4), chunk
  (the rest of the datagram, no length prefix).
 */
module Dados {
  import opened JavaRuntime
  import opened Flag
  import opened Pacote

  /** getTamanhoCabecalho(): tag plus two ints. */
  const TAMANHO_CABECALHO: int := 1 + 2 * INT_BYTES

  /** Dados.TAMANHO_MAX: the header plus the largest chunk. */
  const TAMANHO_MAX: int := 1 + 2 * INT_BYTES + TAMANHO_MAX_DADOS

  /**
    The state of a Dados object once it is set: the Pacote fields (peer, length,
    tag) and its own. Buffers and the send queue hold these values; the objects
    they stand for are never changed after their `set`.
   */
  datatype DataPacket = DataPacket(
    host: Host, porta: int, flag: Byte, tamanho: int,
    idConexao: int, sequencia: int, dados: seq<Byte>)

  /** The datagram a Data packet is sent as. */
  function EncodeData(flag: Byte, idConexao: int, sequencia: int, chunk: seq<Byte>): (r: seq<Byte>)
    ensures |r| == TAMANHO_CABECALHO + |chunk|
    ensures r[0] == flag && r[TAMANHO_CABECALHO..] == chunk
  {
    [flag] + PutInt(idConexao) + PutInt(sequencia) + chunk
  }

  /** The fields the decoder reads from bytes 0 to 8. */
  datatype DataHeader = DataHeader(flag: Byte, idConexao: int, sequencia: int)

  /**
    The header of a received datagram. The decoder wraps the whole receive array
    and then clears the buffer, which moves its limit to the array's end, so these
    bytes are read whatever the datagram's length.
   */
  function DecodeHeader(bytes: seq<Byte>): (h: DataHeader)
    requires |bytes| >= TAMANHO_CABECALHO
    ensures h.flag == bytes[0]
    ensures IsInt32(h.idConexao) && IsInt32(h.sequencia)
  {
    DataHeader(bytes[0], GetInt(bytes[1..]), GetInt(bytes[1 + INT_BYTES..]))
  }

  /** What `set(byte[], int)` leaves in the object: chunk and length, besides the header. */
  datatype DecodedData = DecodedData(header: DataHeader, dados: seq<Byte>, tamanho: int)

  /**
    Decoding a received datagram of `len` bytes held in the receive array `bytes`.
    The chunk is bytes 9 to len; a datagram shorter than the header makes the
    decoder allocate an array of negative size.
   */
  function DecodeData(bytes: seq<Byte>, len: int): (r: Result<DecodedData>)
    requires TAMANHO_CABECALHO <= |bytes| && 0 <= len <= |bytes|
    ensures r.Ok? <==> len >= TAMANHO_CABECALHO
    ensures r.Err? ==> r.fault == NegativeArraySize
    ensures r.Ok? ==> r.value.header == DecodeHeader(bytes)
    ensures r.Ok? ==> r.value.tamanho == len && r.value.dados == bytes[TAMANHO_CABECALHO..len]
    ensures r.Ok? ==> r.value.tamanho - TAMANHO_CABECALHO == |r.value.dados|
  {
    if len < TAMANHO_CABECALHO then Err(NegativeArraySize)
    else Ok(DecodedData(DecodeHeader(bytes), bytes[TAMANHO_CABECALHO..len], len))
  }

  /**
    Round trip: decoding the datagram of a packet set with (id, seq, chunk) gives the
    same id and sequence number (as Java ints), the same chunk, and a length that is
    the whole datagram's, 9 more than the chunk's.
   */
  lemma {:induction false} DataRoundTrip(flag: Byte, idConexao: int, sequencia: int, chunk: seq<Byte>)
    ensures var bytes := EncodeData(flag, idConexao, sequencia, chunk);
      DecodeData(bytes, |bytes|)
        == Ok(DecodedData(DataHeader(flag, Wrap32(idConexao), Wrap32(sequencia)), chunk, |chunk| + TAMANHO_CABECALHO))
  {
    var bytes := EncodeData(flag, idConexao, sequencia, chunk);
    GetIntAt([flag], idConexao, PutInt(sequencia) + chunk);
    assert [flag] + PutInt(idConexao) + (PutInt(sequencia) + chunk) == bytes;
    GetIntAt([flag] + PutInt(idConexao), sequencia, chunk);
    assert DecodeHeader(bytes) == DataHeader(flag, Wrap32(idConexao), Wrap32(sequencia));
    assert bytes[TAMANHO_CABECALHO..|bytes|] == chunk;
  }

  /** The payload a receiver writes out for a decoded packet is its whole chunk. */
  lemma WrittenIsChunk(bytes: seq<Byte>, len: int)
    requires TAMANHO_CABECALHO <= |bytes| && TAMANHO_CABECALHO <= len <= |bytes|
    ensures var d := DecodeData(bytes, len).value;
      d.dados[..d.tamanho - TAMANHO_CABECALHO] == bytes[TAMANHO_CABECALHO..len]
  {
  }

  class Dados {
    const HOSTNAME: Host
    const PORTA: int
    var tamanho: int
    var flag: Byte
    var idConexao: int
    var sequencia: int
    var dados: seq<Byte>

    /** A Data packet for a peer; the tag is DADOS until a decode overwrites it. */
    constructor(hostname: Host, porta: int)
      ensures HOSTNAME == hostname && PORTA == porta
      ensures flag == GetByte(Flag.Dados)
      ensures tamanho == 0 && idConexao == 0 && sequencia == 0 && dados == []
    {
      HOSTNAME, PORTA := hostname, porta;
      flag := GetByte(Flag.Dados);
      tamanho, idConexao, sequencia, dados := 0, 0, 0, [];
    }

    function Value(): DataPacket
      reads this
    {
      DataPacket(HOSTNAME, PORTA, flag, tamanho, idConexao, sequencia, dados)
    }

    /**
      The datagram of this packet (`get()`): exactly 9 + tamanho bytes, the stored
      tag, id and sequence number, then the first tamanho bytes of the chunk.
      `put(dados, 0, tamanho)` throws past the chunk's end, hence the precondition.
     */
    function Get(): (r: seq<Byte>)
      reads this
      requires 0 <= tamanho <= |dados|
      ensures |r| == TAMANHO_CABECALHO + tamanho
      ensures r[0] == flag && r[TAMANHO_CABECALHO..] == dados[..tamanho]
      ensures GetInt(r[1..]) == Wrap32(idConexao)
      ensures GetInt(r[1 + INT_BYTES..]) == Wrap32(sequencia)
    {
      DataRoundTrip(flag, idConexao, sequencia, dados[..tamanho]);
      EncodeData(flag, idConexao, sequencia, dados[..tamanho])
    }

    /**
      `set(int, int, byte[], int)`: records id and sequence number, takes the length
      of the chunk as tamanho, and keeps its own copy of the first `tamanhoDados`
      bytes of `data` (the caller reuses that array for the next read). The tag is
      left as it was.
     */
    method Set(idConexao: int, sequencia: int, data: array<Byte>, tamanhoDados: int)
      requires 0 <= tamanhoDados <= data.Length
      modifies this
      ensures Value() == DataPacket(HOSTNAME, PORTA, old(flag), tamanhoDados,
                                    idConexao, sequencia, data[..tamanhoDados])
    {
      this.tamanho := tamanhoDados;
      this.idConexao := idConexao;
      this.sequencia := sequencia;
      var copy: seq<Byte> := [];
      var i := 0;
      while i < tamanhoDados
        invariant 0 <= i <= tamanhoDados
        invariant copy == data[..i]
      {
        copy := copy + [data[i]];
        i := i + 1;
      }
      this.dados := copy;
    }

    /**
      `set(byte[], int)`: decodes a received datagram. Tag, id and sequence number
      are overwritten first; when the datagram is shorter than the header the
      allocation of the chunk fails after that (`ok` is false) and the chunk and
      length keep their old values.
     */
    method SetFromBytes(bytes: seq<Byte>, len: int) returns (ok: bool)
      requires TAMANHO_CABECALHO <= |bytes| && 0 <= len <= |bytes|
      modifies this
      ensures ok == DecodeData(bytes, len).Ok?
      ensures var h := DecodeHeader(bytes);
        flag == h.flag && idConexao == h.idConexao && sequencia == h.sequencia
      ensures ok ==> (tamanho == DecodeData(bytes, len).value.tamanho
                      && dados == DecodeData(bytes, len).value.dados)
      ensures !ok ==> tamanho == old(tamanho) && dados == old(dados)
    {
      var h := DecodeHeader(bytes);
      flag, idConexao, sequencia := h.flag, h.idConexao, h.sequencia;
      var bytesRestantes := len - TAMANHO_CABECALHO;
      if bytesRestantes < 0 {
        return false;
      }
      this.tamanho := len;
      this.dados := bytes[TAMANHO_CABECALHO..len];
      ok := true;
    }
  }
}
