/**
  What every packet kind shares: the maximum chunk size, the peer it came from or
  goes to, its length and its tag, and the tests that classify a raw datagram by
  its byte 0 before it is decoded.
 */
module Pacote {
  import opened JavaRuntime
  import opened Flag

  /** Pacote.TAMANHO_MAX_DADOS: the largest file chunk a Data packet carries. */
  const TAMANHO_MAX_DADOS: int := 500

  /** A peer's network address, reduced to an identity. */
  type Host = int

  predicate IsSolicitarConexao(d: seq<Byte>)
    requires |d| >= 1
  {
    d[0] == GetByte(SolicitaConexao)
  }

  predicate IsAceitarConexao(d: seq<Byte>)
    requires |d| >= 1
  {
    d[0] == GetByte(AceitaConexao)
  }

  predicate IsDados(d: seq<Byte>)
    requires |d| >= 1
  {
    d[0] == GetByte(Flag.Dados)
  }

  predicate IsRelatorio(d: seq<Byte>)
    requires |d| >= 1
  {
    d[0] == GetByte(Flag.Relatorio)
  }

  predicate IsEncerarConexao(d: seq<Byte>)
    requires |d| >= 1
  {
    d[0] == GetByte(EncerraConexao)
  }

  /** The kind a raw datagram announces, tied to the five predicates above. */
  function KindOf(d: seq<Byte>): (k: Option<Flag>)
    requires |d| >= 1
    ensures k == Some(SolicitaConexao) <==> IsSolicitarConexao(d)
    ensures k == Some(AceitaConexao) <==> IsAceitarConexao(d)
    ensures k == Some(Flag.Dados) <==> IsDados(d)
    ensures k == Some(Flag.Relatorio) <==> IsRelatorio(d)
    ensures k == Some(EncerraConexao) <==> IsEncerarConexao(d)
    ensures k == None <==> d[0] >= 5
  {
    FromByte(d[0])
  }

  /** Exactly one kind predicate holds when byte 0 is a tag, none otherwise. */
  lemma KindsExclusive(d: seq<Byte>)
    requires |d| >= 1
    ensures !(IsSolicitarConexao(d) && IsAceitarConexao(d))
    ensures !(IsSolicitarConexao(d) && IsDados(d))
    ensures !(IsSolicitarConexao(d) && IsRelatorio(d))
    ensures !(IsSolicitarConexao(d) && IsEncerarConexao(d))
    ensures !(IsAceitarConexao(d) && IsDados(d))
    ensures !(IsAceitarConexao(d) && IsRelatorio(d))
    ensures !(IsAceitarConexao(d) && IsEncerarConexao(d))
    ensures !(IsDados(d) && IsRelatorio(d))
    ensures !(IsDados(d) && IsEncerarConexao(d))
    ensures !(IsRelatorio(d) && IsEncerarConexao(d))
    ensures d[0] >= 5 <==>
      !(IsSolicitarConexao(d) || IsAceitarConexao(d) || IsDados(d) || IsRelatorio(d) || IsEncerarConexao(d))
  {
  }

  /** The classification looks at byte 0 only. */
  lemma KindsDependOnByteZero(d: seq<Byte>, e: seq<Byte>)
    requires |d| >= 1 && |e| >= 1 && d[0] == e[0]
    ensures IsSolicitarConexao(d) == IsSolicitarConexao(e)
    ensures IsAceitarConexao(d) == IsAceitarConexao(e)
    ensures IsDados(d) == IsDados(e)
    ensures IsRelatorio(d) == IsRelatorio(e)
    ensures IsEncerarConexao(d) == IsEncerarConexao(e)
  {
  }
}
