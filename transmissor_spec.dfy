/**
  The sender's queue logic (`Transmissor`) as functions on the value `TxState`:
  the queue of Data packets filled from the file's chunks with consecutive
  sequence numbers, the trimming of its front against the receiver's last ordered
  number, the queue of lost numbers and the resending it drives, and the handling
  of one reply from the receiver. The class in `Transmissor` is proved against
  these functions.
 */
module TransmissorSpec {
  import opened JavaRuntime
  import opened Pacote
  import opened Dados
  import Flag
  import Relatorio
  import ReceptorSpec
  import Aceitar = AceitarConexao

  /** The number of packets per window. */
  const TAMANHO_BUFFER: int := 500

  /** The longest file name `setConexao` accepts. */
  const TAMANHO_MAX_NOME: int := 250

  // ---------------------------------------------------------------------------
  // The file as chunks
  // ---------------------------------------------------------------------------

  /**
    The expected packet count the sender announces for a file of `tamanhoArquivo`
    bytes: the number of 500-byte chunks, the last one possibly short. The source
    takes the ceiling of a 32-bit float quotient; this exact ceiling agrees with it
    for files of at most 2^24 bytes.
   */
  function PacotesPrevistos(tamanhoArquivo: nat): nat {
    CeilDiv(tamanhoArquivo, TAMANHO_MAX_DADOS)
  }

  /** What a read of the file into a 500-byte array returns: between 1 and 500 bytes. */
  predicate Fonte(entrada: seq<seq<Byte>>) {
    forall i :: 0 <= i < |entrada| ==> 1 <= |entrada[i]| <= TAMANHO_MAX_DADOS
  }

  /** The file read 500 bytes at a time: full chunks, then what is left. */
  function Chunks(arquivo: seq<Byte>): (r: seq<seq<Byte>>)
    ensures Fonte(r)
    decreases |arquivo|
  {
    if arquivo == [] then []
    else if |arquivo| <= TAMANHO_MAX_DADOS then [arquivo]
    else [arquivo[..TAMANHO_MAX_DADOS]] + Chunks(arquivo[TAMANHO_MAX_DADOS..])
  }

  /**
    The file cut into chunks has as many chunks as the count the sender announces,
    and the chunks put back together are the file.
   */
  lemma {:induction false} ChunksCoverFile(arquivo: seq<Byte>)
    ensures |Chunks(arquivo)| == PacotesPrevistos(|arquivo|)
    ensures ReceptorSpec.Concat(Chunks(arquivo)) == arquivo
    decreases |arquivo|
  {
    if arquivo != [] && |arquivo| > TAMANHO_MAX_DADOS {
      var rest := arquivo[TAMANHO_MAX_DADOS..];
      ChunksCoverFile(rest);
      ReceptorSpec.ConcatAppend([arquivo[..TAMANHO_MAX_DADOS]], Chunks(rest));
      assert ReceptorSpec.Concat([arquivo[..TAMANHO_MAX_DADOS]]) == arquivo[..TAMANHO_MAX_DADOS] by {
        assert [arquivo[..TAMANHO_MAX_DADOS]][..0] == [];
      }
      assert arquivo == arquivo[..TAMANHO_MAX_DADOS] + rest;
    } else if arquivo != [] {
      assert [arquivo][..0] == [];
    }
  }

  /**
    The Accept datagram for a file of fewer than 2^31 chunks decodes, at the
    receiver, to the connection id and to exactly the number of Data packets the
    sender will read from that file.
   */
  lemma AcceptAnnouncesChunks(arquivo: seq<Byte>, idConexao: int)
    requires IsInt32(idConexao) && PacotesPrevistos(|arquivo|) <= INT_MAX
    ensures var bytes := Aceitar.EncodeAccept(idConexao, PacotesPrevistos(|arquivo|));
      var f := Aceitar.DecodeAccept(bytes, |bytes|);
      && f.Ok?
      && f.value.0.idConexao == idConexao
      && f.value.0.quantidadePacotesPrevistos == |Chunks(arquivo)|
  {
    Aceitar.AcceptRoundTrip(idConexao, PacotesPrevistos(|arquivo|));
    ChunksCoverFile(arquivo);
  }

  // ---------------------------------------------------------------------------
  // The sender's state
  // ---------------------------------------------------------------------------

  /**
    The fields of a `Transmissor` the queue logic reads and writes: the packet
    queue and its counter, the next sequence number, the queue bound, the unread
    chunks of the file, the end-of-file flag, the receiver's last ordered number,
    the lost-number queue and its flag, the sending flag, the resend count, the
    connection id and peer, and the datagrams sent so far.
   */
  datatype TxState = TxState(
    pacotes: seq<DataPacket>,
    quantidadePacotesNaLista: int,
    sequencia: int,
    tamanhoLista: int,
    entrada: seq<seq<Byte>>,
    fimArquivo: bool,
    ultimoPacoteOrdenado: int,
    pacotesPerdidos: seq<int>,
    houvePerdas: bool,
    enviando: bool,
    numeroDeReenvios: int,
    idConexao: int,
    host: Host,
    porta: int,
    enviados: seq<seq<Byte>>)

  /** The packet `preencherListaPacotes` builds for a chunk: a Data packet to the receiver, as `Dados.set` leaves it. */
  function NovoPacote(s: TxState, sequencia: int, chunk: seq<Byte>): DataPacket {
    DataPacket(s.host, s.porta, Flag.GetByte(Flag.Dados), |chunk|, s.idConexao, sequencia, chunk)
  }

  /** Every queued packet can be sent: its length is within its chunk. */
  predicate Enviaveis(pacotes: seq<DataPacket>) {
    forall i :: 0 <= i < |pacotes| ==> 0 <= pacotes[i].tamanho <= |pacotes[i].dados|
  }

  /**
    The queue invariant: the counter is the queue's length, the packets carry
    consecutive sequence numbers ending just before the next one to be used, and
    each can be sent.
   */
  predicate Inv(s: TxState) {
    && s.quantidadePacotesNaLista == |s.pacotes|
    && (forall i :: 0 <= i < |s.pacotes| ==> s.pacotes[i].sequencia == s.sequencia - |s.pacotes| + i)
    && Enviaveis(s.pacotes)
  }

  /** The datagram `pacote.get()` sends for a queued packet. */
  function Datagrama(p: DataPacket): (r: seq<Byte>)
    requires 0 <= p.tamanho <= |p.dados|
    ensures |r| == TAMANHO_CABECALHO + p.tamanho
  {
    EncodeData(p.flag, p.idConexao, p.sequencia, p.dados[..p.tamanho])
  }

  /** `n` copies of the datagram `d` (a `for` loop running `n` times, none when `n` <= 0). */
  function Repeat(d: seq<Byte>, n: int): (r: seq<seq<Byte>>)
    ensures |r| == Max0(n) && forall i :: 0 <= i < |r| ==> r[i] == d
  {
    seq(Max0(n), _ => d)
  }

  // ---------------------------------------------------------------------------
  // The packet queue
  // ---------------------------------------------------------------------------

  /** `addPacote`: append, then count it and move the next sequence number on. */
  function AddPacote(s: TxState, p: DataPacket): TxState {
    s.(pacotes := s.pacotes + [p],
       quantidadePacotesNaLista := s.quantidadePacotesNaLista + 1,
       sequencia := s.sequencia + 1)
  }

  /** `removePacote(0)`: drop the head and uncount it; nothing on an empty queue. */
  function RemovePacote(s: TxState): TxState {
    if s.pacotes == [] then s
    else s.(pacotes := s.pacotes[1..], quantidadePacotesNaLista := s.quantidadePacotesNaLista - 1)
  }

  /** Adding the packet for the next sequence number keeps the queue invariant. */
  lemma AddPacoteKeepsInv(s: TxState, chunk: seq<Byte>)
    requires Inv(s)
    ensures var r := AddPacote(s, NovoPacote(s, s.sequencia, chunk));
      Inv(r) && r.pacotes[..|s.pacotes|] == s.pacotes && r.pacotes[|s.pacotes|].dados == chunk
  {
    var r := AddPacote(s, NovoPacote(s, s.sequencia, chunk));
    assert forall i :: 0 <= i < |s.pacotes| ==> r.pacotes[i] == s.pacotes[i];
  }

  /** Removing keeps the queue invariant, and the counter agrees with the length by both operations. */
  lemma RemovePacoteKeepsInv(s: TxState)
    requires Inv(s)
    ensures var r := RemovePacote(s);
      Inv(r) && (s.pacotes != [] ==> r.pacotes == s.pacotes[1..]) && (s.pacotes == [] ==> r == s)
  {
    var r := RemovePacote(s);
    if s.pacotes != [] {
      assert forall i :: 0 <= i < |r.pacotes| ==> r.pacotes[i] == s.pacotes[i + 1];
    }
  }

  /** The packets for the next `k` chunks, numbered from the next sequence number. */
  function Novos(s: TxState, k: nat): (r: seq<DataPacket>)
    requires k <= |s.entrada|
    ensures |r| == k
  {
    seq(k, j requires 0 <= j < k => NovoPacote(s, s.sequencia + j, s.entrada[j]))
  }

  /**
    The loop of `preencherListaPacotes` from loop index `i`: while the index is
    below the queue bound, read a chunk and queue its packet; a read at the end of
    the file sets end-of-file and stops.
   */
  function Leitura(s: TxState, i: int): TxState
    decreases s.tamanhoLista - i
  {
    if i >= s.tamanhoLista then s
    else if s.entrada == [] then s.(fimArquivo := true)
    else Leitura(AddPacote(s, NovoPacote(s, s.sequencia, s.entrada[0])).(entrada := s.entrada[1..]), i + 1)
  }

  /** `preencherListaPacotes`: nothing once the end of the file was seen; otherwise the loop from the counter. */
  function Preencher(s: TxState): TxState {
    if s.fimArquivo then s else Leitura(s, s.quantidadePacotesNaLista)
  }

  /** What the loop does from index `i`: k = min(bound - i, chunks left) packets, end-of-file when the chunks ran out first. */
  function Lido(s: TxState, i: int): TxState {
    var room := Max0(s.tamanhoLista - i);
    var k := Min(room, |s.entrada|);
    s.(pacotes := s.pacotes + Novos(s, k),
       quantidadePacotesNaLista := s.quantidadePacotesNaLista + k,
       sequencia := s.sequencia + k,
       entrada := s.entrada[k..],
       fimArquivo := s.fimArquivo || |s.entrada| < room)
  }

  /** One turn of the loop: reading a chunk and queueing its packet takes `Lido` one index on. */
  lemma LidoStep(s: TxState, i: int)
    requires i < s.tamanhoLista && s.entrada != []
    ensures Lido(AddPacote(s, NovoPacote(s, s.sequencia, s.entrada[0])).(entrada := s.entrada[1..]), i + 1) == Lido(s, i)
  {
    var s' := AddPacote(s, NovoPacote(s, s.sequencia, s.entrada[0])).(entrada := s.entrada[1..]);
    var room := Max0(s.tamanhoLista - i);
    var k := Min(room, |s.entrada|);
    assert Max0(s'.tamanhoLista - (i + 1)) == room - 1;
    assert Min(room - 1, |s'.entrada|) == k - 1;
    var a, b := Novos(s', k - 1), Novos(s, k);
    forall j | 0 <= j < k - 1
      ensures a[j] == b[j + 1]
    {
    }
    assert s'.pacotes + a == s.pacotes + b;
    assert s'.entrada[k - 1..] == s.entrada[k..];
    var l', l := Lido(s', i + 1), Lido(s, i);
    assert l'.pacotes == l.pacotes;
    assert l'.entrada == l.entrada;
    assert l'.fimArquivo == l.fimArquivo;
  }

  lemma {:induction false} LeituraShape(s: TxState, i: int)
    ensures Leitura(s, i) == Lido(s, i)
    decreases s.tamanhoLista - i
  {
    if i < s.tamanhoLista && s.entrada != [] {
      var s' := AddPacote(s, NovoPacote(s, s.sequencia, s.entrada[0])).(entrada := s.entrada[1..]);
      LeituraShape(s', i + 1);
      LidoStep(s, i);
    } else if i < s.tamanhoLista {
      assert s.entrada[0..] == s.entrada;
      assert s.pacotes + Novos(s, 0) == s.pacotes;
    } else {
      assert s.entrada[0..] == s.entrada;
      assert s.pacotes + Novos(s, 0) == s.pacotes;
    }
  }

  /**
    One turn of the fill loop seen field by field: a state that has the packet for
    the next chunk appended, counted and numbered, and that chunk consumed, with
    every other field as before, continues the loop where `s` would, and keeps the
    queue invariant.
   */
  lemma LeituraAdvances(s: TxState, t: TxState, i: int)
    requires Inv(s) && Fonte(s.entrada) && i < s.tamanhoLista && s.entrada != []
    requires t.pacotes == s.pacotes + [NovoPacote(s, s.sequencia, s.entrada[0])]
    requires t.quantidadePacotesNaLista == s.quantidadePacotesNaLista + 1 && t.sequencia == s.sequencia + 1
    requires t.entrada == s.entrada[1..]
    requires t == s.(pacotes := t.pacotes, quantidadePacotesNaLista := t.quantidadePacotesNaLista,
                     sequencia := t.sequencia, entrada := t.entrada)
    ensures Leitura(t, i + 1) == Leitura(s, i)
    ensures Inv(t) && Fonte(t.entrada)
  {
    AddPacoteKeepsInv(s, s.entrada[0]);
  }

  /** The closed form appends the packets for the next k chunks, in order, numbered from the next sequence number. */
  lemma LidoAppends(s: TxState, i: int)
    ensures var k := Min(Max0(s.tamanhoLista - i), |s.entrada|);
      var r := Lido(s, i);
      && |r.pacotes| == |s.pacotes| + k
      && r.pacotes[..|s.pacotes|] == s.pacotes
      && (forall j :: 0 <= j < k ==>
            r.pacotes[|s.pacotes| + j] == NovoPacote(s, s.sequencia + j, s.entrada[j]))
  {
    var k := Min(Max0(s.tamanhoLista - i), |s.entrada|);
    var r := Lido(s, i);
    assert r.pacotes == s.pacotes + Novos(s, k);
    forall j | 0 <= j < k
      ensures r.pacotes[|s.pacotes| + j] == NovoPacote(s, s.sequencia + j, s.entrada[j])
    {
      assert r.pacotes[|s.pacotes| + j] == Novos(s, k)[j];
    }
  }

  /** Filling from the counter keeps the queue invariant. */
  lemma LidoKeepsInv(s: TxState)
    requires Inv(s)
    ensures Inv(Lido(s, s.quantidadePacotesNaLista))
  {
    LidoAppends(s, s.quantidadePacotesNaLista);
    var r := Lido(s, s.quantidadePacotesNaLista);
    forall i | 0 <= i < |r.pacotes|
      ensures r.pacotes[i].sequencia == r.sequencia - |r.pacotes| + i
      ensures 0 <= r.pacotes[i].tamanho <= |r.pacotes[i].dados|
    {
      if i < |s.pacotes| {
        assert r.pacotes[i] == r.pacotes[..|s.pacotes|][i] == s.pacotes[i];
      }
    }
  }

  /**
    `preencherListaPacotes` appends, in order, the packets for the next
    k = min(bound - count, chunks left) chunks, numbered consecutively from the
    next sequence number, consuming those chunks; it sets end-of-file exactly when
    the chunks ran out before the bound was reached. After end-of-file it does
    nothing. The queue invariant is kept.
   */
  lemma PreencherAppends(s: TxState)
    ensures s.fimArquivo ==> Preencher(s) == s
    ensures !s.fimArquivo ==>
      var room := Max0(s.tamanhoLista - s.quantidadePacotesNaLista);
      var k := Min(room, |s.entrada|);
      var r := Preencher(s);
      && |r.pacotes| == |s.pacotes| + k
      && r.pacotes[..|s.pacotes|] == s.pacotes
      && (forall j :: 0 <= j < k ==>
            r.pacotes[|s.pacotes| + j].sequencia == s.sequencia + j
            && r.pacotes[|s.pacotes| + j].dados == s.entrada[j])
      && r.entrada == s.entrada[k..]
      && r.sequencia == s.sequencia + k
      && (r.fimArquivo <==> |s.entrada| < room)
      && r == s.(pacotes := r.pacotes, quantidadePacotesNaLista := r.quantidadePacotesNaLista,
                 sequencia := r.sequencia, entrada := r.entrada, fimArquivo := r.fimArquivo)
    ensures Inv(s) ==> Inv(Preencher(s))
  {
    if !s.fimArquivo {
      LeituraShape(s, s.quantidadePacotesNaLista);
      LidoAppends(s, s.quantidadePacotesNaLista);
      if Inv(s) {
        LidoKeepsInv(s);
      }
    }
  }

  /** `removePacote(0)` `n` times (`n` <= 0: not at all). */
  function RemoveN(s: TxState, n: int): TxState
    decreases n
  {
    if n <= 0 then s else RemoveN(RemovePacote(s), n - 1)
  }

  lemma {:induction false} RemoveNShape(s: TxState, n: int)
    ensures var d := Min(|s.pacotes|, Max0(n));
      RemoveN(s, n) == s.(pacotes := s.pacotes[d..], quantidadePacotesNaLista := s.quantidadePacotesNaLista - d)
    decreases n
  {
    if n <= 0 {
      assert s.pacotes[0..] == s.pacotes;
    } else {
      RemoveNShape(RemovePacote(s), n - 1);
      if s.pacotes != [] {
        assert s.pacotes[1..][Min(|s.pacotes| - 1, Max0(n - 1))..] == s.pacotes[Min(|s.pacotes|, Max0(n))..];
      }
    }
  }

  /**
    `atualizarListaDePacotes`: removes from the front as many packets as the last
    ordered number is ahead of the head's sequence number, then refills. On an
    empty queue reading the head fails.
   */
  function Atualizar(s: TxState): (r: Result<TxState>)
    ensures r.Err? <==> s.pacotes == []
    ensures r.Err? ==> r.fault == IndexOutOfBounds
  {
    if s.pacotes == [] then Err(IndexOutOfBounds)
    else Ok(Preencher(RemoveN(s, s.ultimoPacoteOrdenado - s.pacotes[0].sequencia)))
  }

  /**
    With consecutive sequence numbers the trim removes exactly the packets numbered
    below the last ordered number: what stays is a suffix of the queue, every
    removed packet is below that number and every kept one is not.
   */
  lemma TrimKeepsFromLastOrdered(s: TxState)
    requires Inv(s) && s.pacotes != []
    ensures var t := RemoveN(s, s.ultimoPacoteOrdenado - s.pacotes[0].sequencia);
      var d := |s.pacotes| - |t.pacotes|;
      && Inv(t) && 0 <= d <= |s.pacotes|
      && t.pacotes == s.pacotes[d..]
      && (forall i :: 0 <= i < d ==> s.pacotes[i].sequencia < s.ultimoPacoteOrdenado)
      && (forall i :: d <= i < |s.pacotes| ==> s.pacotes[i].sequencia >= s.ultimoPacoteOrdenado)
      && t == s.(pacotes := t.pacotes, quantidadePacotesNaLista := t.quantidadePacotesNaLista)
  {
    var n := s.ultimoPacoteOrdenado - s.pacotes[0].sequencia;
    RemoveNShape(s, n);
    var t := RemoveN(s, n);
    var first := s.pacotes[0].sequencia;
    var d := Min(|s.pacotes|, Max0(n));
    assert t.pacotes == s.pacotes[d..];
    forall i | 0 <= i < |s.pacotes|
      ensures s.pacotes[i].sequencia == first + i
    {
    }
    forall i | 0 <= i < |t.pacotes|
      ensures t.pacotes[i].sequencia == t.sequencia - |t.pacotes| + i
      ensures 0 <= t.pacotes[i].tamanho <= |t.pacotes[i].dados|
    {
      assert t.pacotes[i] == s.pacotes[d + i];
    }
    assert Inv(t);
    forall i | 0 <= i < d
      ensures s.pacotes[i].sequencia < s.ultimoPacoteOrdenado
    {
    }
    forall i | d <= i < |s.pacotes|
      ensures s.pacotes[i].sequencia >= s.ultimoPacoteOrdenado
    {
    }
  }

  /** The refresh keeps the queue invariant; after it every packet left from before is numbered at least the last ordered number. */
  lemma AtualizarKeepsInv(s: TxState)
    requires Inv(s) && s.pacotes != []
    ensures var r := Atualizar(s).value;
      && Inv(r)
      && r == s.(pacotes := r.pacotes, quantidadePacotesNaLista := r.quantidadePacotesNaLista,
                 sequencia := r.sequencia, entrada := r.entrada, fimArquivo := r.fimArquivo)
      && forall i :: 0 <= i < |r.pacotes| && r.pacotes[i] in s.pacotes ==> r.pacotes[i].sequencia >= s.ultimoPacoteOrdenado
  {
    var t := RemoveN(s, s.ultimoPacoteOrdenado - s.pacotes[0].sequencia);
    TrimKeepsFromLastOrdered(s);
    PreencherAppends(t);
    var r := Atualizar(s).value;
    var d := |s.pacotes| - |t.pacotes|;
    forall i | 0 <= i < |r.pacotes| && r.pacotes[i] in s.pacotes
      ensures r.pacotes[i].sequencia >= s.ultimoPacoteOrdenado
    {
      var j :| 0 <= j < |s.pacotes| && s.pacotes[j] == r.pacotes[i];
      // Everything after the trim is numbered from the first kept packet on, so the
      // packet was not removed by the trim.
      assert r.pacotes[i].sequencia >= t.sequencia - |t.pacotes| == s.sequencia - |s.pacotes| + d;
      assert j >= d;
    }
  }

  // ---------------------------------------------------------------------------
  // Lost packets
  // ---------------------------------------------------------------------------

  /**
    What `reenviarPacotePerdido` sends for the lost number `perdido`: the packet at
    index `perdido - head` (a Java int difference), `numeroDeReenvios` times, or
    nothing when the queue is empty or the index is outside it.
   */
  function ReenvioDe(pacotes: seq<DataPacket>, numeroDeReenvios: int, perdido: int): seq<seq<Byte>>
    requires Enviaveis(pacotes)
  {
    if pacotes == [] then []
    else
      var indice := Wrap32(perdido - pacotes[0].sequencia);
      if 0 <= indice < |pacotes| then Repeat(Datagrama(pacotes[indice]), numeroDeReenvios) else []
  }

  /** `reenviarPacotePerdido`: the head of the lost queue always leaves it; its packet is resent if queued. */
  function ReenviarUm(s: TxState): TxState
    requires Enviaveis(s.pacotes)
  {
    if s.pacotesPerdidos == [] then s
    else s.(pacotesPerdidos := s.pacotesPerdidos[1..],
            enviados := s.enviados + ReenvioDe(s.pacotes, s.numeroDeReenvios, s.pacotesPerdidos[0]))
  }

  /**
    With consecutive numbers within Java's int range, a lost number inside the
    queue resends, `numeroDeReenvios` times, exactly the packet carrying that
    number; a number outside it resends nothing.
   */
  lemma ReenvioSendsTheLostPacket(s: TxState, perdido: int)
    requires Inv(s) && s.pacotes != []
    requires IsInt32(perdido - s.pacotes[0].sequencia)
    ensures var first := s.pacotes[0].sequencia;
      var reenvio := ReenvioDe(s.pacotes, s.numeroDeReenvios, perdido);
      && (first <= perdido < first + |s.pacotes| ==>
            && s.pacotes[perdido - first].sequencia == perdido
            && reenvio == Repeat(Datagrama(s.pacotes[perdido - first]), s.numeroDeReenvios))
      && (!(first <= perdido < first + |s.pacotes|) ==> reenvio == [])
  {
  }

  /** The resends for a list of lost numbers, in order. */
  function ReenviosDe(pacotes: seq<DataPacket>, numeroDeReenvios: int, perdidos: seq<int>): seq<seq<Byte>>
    requires Enviaveis(pacotes)
    decreases |perdidos|
  {
    if perdidos == [] then []
    else ReenvioDe(pacotes, numeroDeReenvios, perdidos[0]) + ReenviosDe(pacotes, numeroDeReenvios, perdidos[1..])
  }

  /** The `while (!pacotesPerdidos.isEmpty())` loop of `reenviarPacotesPerdidos`. */
  function Esvaziar(s: TxState): TxState
    requires Enviaveis(s.pacotes)
    decreases |s.pacotesPerdidos|
  {
    if s.pacotesPerdidos == [] then s else Esvaziar(ReenviarUm(s))
  }

  /** Draining resends, in order, for every lost number, empties the lost queue and changes nothing else. */
  lemma {:induction false} EsvaziarShape(s: TxState)
    requires Enviaveis(s.pacotes)
    ensures Esvaziar(s)
         == s.(pacotesPerdidos := [],
               enviados := s.enviados + ReenviosDe(s.pacotes, s.numeroDeReenvios, s.pacotesPerdidos))
    decreases |s.pacotesPerdidos|
  {
    if s.pacotesPerdidos != [] {
      var t := ReenviarUm(s);
      EsvaziarShape(t);
      var perdidos := s.pacotesPerdidos;
      assert s.enviados + ReenviosDe(s.pacotes, s.numeroDeReenvios, perdidos)
          == t.enviados + ReenviosDe(s.pacotes, s.numeroDeReenvios, perdidos[1..]);
    }
  }

  /**
    `reenviarPacotesPerdidos`: drain the lost queue, refresh the packet queue, and
    clear the loss flag. A refresh on an empty queue fails and leaves the flag set.
   */
  function ReenviarTodos(s: TxState): (TxState, Option<Fault>)
    requires Enviaveis(s.pacotes)
  {
    var t := Esvaziar(s);
    match Atualizar(t)
    case Err(f) => (t, Some(f))
    case Ok(u) => (u.(houvePerdas := false), None)
  }

  /**
    After resending everything the lost queue is empty and every lost number's
    resends went out in order; the loss flag is cleared unless the refresh failed
    (exactly when the packet queue is empty); the queue invariant is kept.
   */
  lemma ReenviarTodosEmpties(s: TxState)
    requires Inv(s)
    ensures var (r, falha) := ReenviarTodos(s);
      && r.pacotesPerdidos == []
      && r.enviados == s.enviados + ReenviosDe(s.pacotes, s.numeroDeReenvios, s.pacotesPerdidos)
      && (falha.Some? <==> s.pacotes == [])
      && (falha.None? ==> !r.houvePerdas)
      && (falha.Some? ==> r.houvePerdas == s.houvePerdas && r.pacotes == s.pacotes)
      && r.ultimoPacoteOrdenado == s.ultimoPacoteOrdenado
      && Inv(r)
  {
    EsvaziarShape(s);
    var t := Esvaziar(s);
    if t.pacotes != [] {
      AtualizarKeepsInv(t);
    }
  }

  // ---------------------------------------------------------------------------
  // Replies from the receiver
  // ---------------------------------------------------------------------------

  /**
    One turn of `receberRespostas`' loop on a reply of `len` bytes in the reused
    509-byte array. A ConnectionEnd stops sending. Anything else is decoded as a
    report (neither its tag nor its connection id is checked): a last ordered
    number above the current one is taken and the queue refreshed; then, unless
    the first entry is the "no losses" value -1, the entries join the lost queue
    and the loss flag is set. A failure (a refresh on an empty queue, a report
    without entries) ends the listener, the state being what it was then.
   */
  function ReceberResposta(s: TxState, bytes: seq<Byte>, len: int): (TxState, Option<Fault>)
    requires |bytes| == Relatorio.TAMANHO_MAX && 0 <= len <= |bytes|
  {
    if IsEncerarConexao(bytes) then (s.(enviando := false), None)
    else match Relatorio.DecodeReport(bytes, len)
      case Err(f) => (s, Some(f))
      case Ok(rel) =>
        var (t, falha) :=
          if rel.ultimoPacoteOrdenado > s.ultimoPacoteOrdenado then
            var s1 := s.(ultimoPacoteOrdenado := rel.ultimoPacoteOrdenado);
            match Atualizar(s1)
            case Err(f) => (s1, Some(f))
            case Ok(u) => (u, None)
          else (s, None);
        if falha.Some? then (t, falha)
        else if rel.pacotesPerdidos == [] then (t, Some(IndexOutOfBounds))
        else if rel.pacotesPerdidos[0] != Relatorio.SEM_PERDAS then
          (t.(pacotesPerdidos := t.pacotesPerdidos + rel.pacotesPerdidos, houvePerdas := true), None)
        else (t, None)
  }

  /** A ConnectionEnd reply stops sending and changes nothing else. */
  lemma EndStopsSending(s: TxState, bytes: seq<Byte>, len: int)
    requires |bytes| == Relatorio.TAMANHO_MAX && 0 <= len <= |bytes|
    requires bytes[0] == Flag.GetByte(Flag.EncerraConexao)
    ensures ReceberResposta(s, bytes, len) == (s.(enviando := false), None)
  {
  }

  /**
    The last ordered number never decreases: a report raises it to its own value
    when that is higher and leaves it otherwise (also when the listener fails).
    Lost numbers are only ever appended, and only from a report whose first entry
    is not -1, which also sets the loss flag; a report with no entries ends the
    listener.
   */
  lemma ReportHandling(s: TxState, bytes: seq<Byte>, len: int)
    requires Inv(s) && |bytes| == Relatorio.TAMANHO_MAX && 0 <= len <= |bytes|
    requires !IsEncerarConexao(bytes)
    ensures var (r, falha) := ReceberResposta(s, bytes, len);
      var rel := Relatorio.DecodeReport(bytes, len);
      && rel.Ok?
      && r.ultimoPacoteOrdenado
           == (if rel.value.ultimoPacoteOrdenado > s.ultimoPacoteOrdenado
               then rel.value.ultimoPacoteOrdenado else s.ultimoPacoteOrdenado)
      && (rel.value.pacotesPerdidos == [] ==> falha.Some?)
      && (falha.None? && rel.value.pacotesPerdidos[0] != Relatorio.SEM_PERDAS ==>
            r.pacotesPerdidos == s.pacotesPerdidos + rel.value.pacotesPerdidos && r.houvePerdas)
      && (falha.None? && rel.value.pacotesPerdidos[0] == Relatorio.SEM_PERDAS ==>
            r.pacotesPerdidos == s.pacotesPerdidos && r.houvePerdas == s.houvePerdas)
      && r.enviando == s.enviando && r.enviados == s.enviados
      && Inv(r)
  {
    Relatorio.ReportEntriesFromReceiveArray(bytes, len);
    var rel := Relatorio.DecodeReport(bytes, len).value;
    var t := s;
    if rel.ultimoPacoteOrdenado > s.ultimoPacoteOrdenado {
      var s1 := s.(ultimoPacoteOrdenado := rel.ultimoPacoteOrdenado);
      if s1.pacotes == [] {
        assert ReceberResposta(s, bytes, len) == (s1, Some(IndexOutOfBounds));
        return;
      }
      AtualizarKeepsInv(s1);
      t := Atualizar(s1).value;
    }
    assert Inv(t) && t.ultimoPacoteOrdenado >= s.ultimoPacoteOrdenado;
    assert t.pacotesPerdidos == s.pacotesPerdidos && t.houvePerdas == s.houvePerdas;
    assert t.enviando == s.enviando && t.enviados == s.enviados;
    if rel.pacotesPerdidos == [] {
      assert ReceberResposta(s, bytes, len) == (t, Some(IndexOutOfBounds));
    } else if rel.pacotesPerdidos[0] != Relatorio.SEM_PERDAS {
      assert ReceberResposta(s, bytes, len)
          == (t.(pacotesPerdidos := t.pacotesPerdidos + rel.pacotesPerdidos, houvePerdas := true), None);
    } else {
      assert ReceberResposta(s, bytes, len) == (t, None);
    }
  }

  // ---------------------------------------------------------------------------
  // The queue holds the file
  // ---------------------------------------------------------------------------

  /**
    The sender reads the file `chunks`: the unread chunks are those from the next
    sequence number on, none once end-of-file was seen, and each queued packet
    carries the chunk its number names.
   */
  predicate DoArquivo(s: TxState, chunks: seq<seq<Byte>>) {
    && Inv(s)
    && |s.pacotes| <= s.sequencia <= |chunks|
    && s.entrada == chunks[s.sequencia..]
    && (s.fimArquivo ==> s.entrada == [])
    && forall i :: 0 <= i < |s.pacotes| ==>
         s.pacotes[i] == NovoPacote(s, s.sequencia - |s.pacotes| + i, chunks[s.sequencia - |s.pacotes| + i])
  }

  /** Just after the file is opened: an empty queue, every chunk unread. */
  lemma DoArquivoInitially(s: TxState, chunks: seq<seq<Byte>>)
    requires s.pacotes == [] && s.quantidadePacotesNaLista == 0 && s.sequencia == 0
    requires s.entrada == chunks && !s.fimArquivo
    ensures DoArquivo(s, chunks)
  {
  }

  /** Filling keeps the queue tied to the file. */
  lemma PreencherKeepsFile(s: TxState, chunks: seq<seq<Byte>>)
    requires DoArquivo(s, chunks)
    ensures DoArquivo(Preencher(s), chunks)
  {
    if !s.fimArquivo {
      LeituraShape(s, s.quantidadePacotesNaLista);
      LidoKeepsFile(s, chunks);
    }
  }

  /** The loop reads the chunks that follow the queue and queues their packets. */
  lemma LidoKeepsFile(s: TxState, chunks: seq<seq<Byte>>)
    requires DoArquivo(s, chunks)
    ensures DoArquivo(Lido(s, s.quantidadePacotesNaLista), chunks)
  {
    LidoKeepsInv(s);
    var r := Lido(s, s.quantidadePacotesNaLista);
    var k := r.sequencia - s.sequencia;
    assert r.pacotes == s.pacotes + Novos(s, k);
    assert r.entrada == chunks[r.sequencia..];
    forall i | 0 <= i < |r.pacotes|
      ensures r.pacotes[i] == NovoPacote(r, r.sequencia - |r.pacotes| + i, chunks[r.sequencia - |r.pacotes| + i])
    {
      if i >= |s.pacotes| {
        var j := i - |s.pacotes|;
        assert r.pacotes[i] == NovoPacote(s, s.sequencia + j, s.entrada[j]);
        assert s.entrada[j] == chunks[s.sequencia + j];
      }
    }
  }

  /** Refreshing keeps the queue tied to the file. */
  lemma AtualizarKeepsFile(s: TxState, chunks: seq<seq<Byte>>)
    requires DoArquivo(s, chunks) && s.pacotes != []
    ensures DoArquivo(Atualizar(s).value, chunks)
  {
    var t := RemoveN(s, s.ultimoPacoteOrdenado - s.pacotes[0].sequencia);
    TrimKeepsFromLastOrdered(s);
    var d := |s.pacotes| - |t.pacotes|;
    forall i | 0 <= i < |t.pacotes|
      ensures t.pacotes[i] == NovoPacote(t, t.sequencia - |t.pacotes| + i, chunks[t.sequencia - |t.pacotes| + i])
    {
      assert t.pacotes[i] == s.pacotes[d + i];
      assert NovoPacote(t, s.sequencia - |s.pacotes| + d + i, chunks[s.sequencia - |s.pacotes| + d + i])
          == NovoPacote(s, s.sequencia - |s.pacotes| + d + i, chunks[s.sequencia - |s.pacotes| + d + i]);
    }
    assert DoArquivo(t, chunks);
    PreencherKeepsFile(t, chunks);
  }

  /** The file link depends only on the queue, the reading position and the connection fields packets carry. */
  lemma DoArquivoFrame(s: TxState, t: TxState, chunks: seq<seq<Byte>>)
    requires DoArquivo(s, chunks)
    requires t.pacotes == s.pacotes && t.quantidadePacotesNaLista == s.quantidadePacotesNaLista
    requires t.sequencia == s.sequencia && t.entrada == s.entrada && t.fimArquivo == s.fimArquivo
    requires t.host == s.host && t.porta == s.porta && t.idConexao == s.idConexao
    ensures DoArquivo(t, chunks)
  {
    forall i | 0 <= i < |t.pacotes|
      ensures t.pacotes[i] == NovoPacote(t, t.sequencia - |t.pacotes| + i, chunks[t.sequencia - |t.pacotes| + i])
    {
      var k := s.sequencia - |s.pacotes| + i;
      assert NovoPacote(t, k, chunks[k]) == NovoPacote(s, k, chunks[k]);
    }
  }

  /** A reply keeps the queue tied to the file. */
  lemma ReceberRespostaKeepsFile(s: TxState, bytes: seq<Byte>, len: int, chunks: seq<seq<Byte>>)
    requires DoArquivo(s, chunks) && |bytes| == Relatorio.TAMANHO_MAX && 0 <= len <= |bytes|
    ensures DoArquivo(ReceberResposta(s, bytes, len).0, chunks)
  {
    var r := ReceberResposta(s, bytes, len).0;
    if IsEncerarConexao(bytes) {
      DoArquivoFrame(s, r, chunks);
      return;
    }
    Relatorio.ReportEntriesFromReceiveArray(bytes, len);
    var rel := Relatorio.DecodeReport(bytes, len).value;
    var t := s;
    if rel.ultimoPacoteOrdenado > s.ultimoPacoteOrdenado {
      var s1 := s.(ultimoPacoteOrdenado := rel.ultimoPacoteOrdenado);
      DoArquivoFrame(s, s1, chunks);
      if s1.pacotes == [] {
        assert r == s1;
        return;
      }
      AtualizarKeepsFile(s1, chunks);
      t := Atualizar(s1).value;
    }
    assert DoArquivo(t, chunks);
    assert r == t || r == t.(pacotesPerdidos := t.pacotesPerdidos + rel.pacotesPerdidos, houvePerdas := true);
    DoArquivoFrame(t, r, chunks);
  }

  /** Resending keeps the queue tied to the file. */
  lemma ReenviarTodosKeepsFile(s: TxState, chunks: seq<seq<Byte>>)
    requires DoArquivo(s, chunks)
    ensures DoArquivo(ReenviarTodos(s).0, chunks)
  {
    EsvaziarShape(s);
    var t := Esvaziar(s);
    if t.pacotes != [] {
      AtualizarKeepsFile(t, chunks);
    }
  }

  /**
    End to end with the receiver: decoding the datagram sent for a queued packet,
    in the receiver's 509-byte array, gives a packet the receiver writes out as
    exactly the chunk of the file its sequence number names (`ReceptorSpec.Honest`),
    for files of fewer than 2^31 chunks.
   */
  lemma SentPacketIsHonest(s: TxState, chunks: seq<seq<Byte>>, i: int, recebido: seq<Byte>, host: Host, porta: int)
    requires DoArquivo(s, chunks) && Fonte(chunks) && |chunks| <= INT_MAX
    requires 0 <= i < |s.pacotes|
    requires |recebido| == TAMANHO_MAX && |Datagrama(s.pacotes[i])| <= |recebido|
    requires recebido[..|Datagrama(s.pacotes[i])|] == Datagrama(s.pacotes[i])
    ensures var len := |Datagrama(s.pacotes[i])|;
      && DecodeData(recebido, len).Ok?
      && DecodeData(recebido, len).value.header.sequencia == s.pacotes[i].sequencia
      && ReceptorSpec.Honest(ReceptorSpec.Received(DecodeData(recebido, len).value, host, porta), chunks)
  {
    var p := s.pacotes[i];
    var d := Datagrama(p);
    var chunk := chunks[p.sequencia];
    assert p.dados[..p.tamanho] == chunk;
    DataRoundTrip(p.flag, p.idConexao, p.sequencia, chunk);
    assert DecodeData(d, |d|).value.header.sequencia == p.sequencia;
    assert recebido[..|d|][..TAMANHO_CABECALHO] == recebido[..TAMANHO_CABECALHO];
    assert DecodeHeader(recebido) == DecodeHeader(d) by {
      assert recebido[1..][..INT_BYTES] == d[1..][..INT_BYTES];
      assert recebido[1 + INT_BYTES..][..INT_BYTES] == d[1 + INT_BYTES..][..INT_BYTES];
    }
    assert recebido[TAMANHO_CABECALHO..|d|] == d[TAMANHO_CABECALHO..|d|];
  }
}
