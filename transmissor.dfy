/**
  The sender (`Transmissor`): its settings, the queue of Data packets read from
  the file, the queue of lost sequence numbers reported by the receiver, and the
  datagrams it sends. Each queue operation is proved against the function of
  `TransmissorSpec` that specifies it, on the value `State()` the object stands for.
 */
module Transmissor {
  import opened JavaRuntime
  import opened Pacote
  import opened Dados
  import opened TransmissorSpec
  import Relatorio
  import Solicitar = SolicitarConexao
  import Aceitar = AceitarConexao

  /** The port a sender built without one uses. */
  const PORTA_PADRAO: int := 49500

  class Transmissor {
    var hostnameReceptor: Host
    var portaReceptor: int
    var idConexao: int
    var sequencia: int
    var pacotesPerdidos: seq<int>
    /** The queued packets, as the values their `Dados` objects hold. */
    var pacotes: seq<DataPacket>
    var quantidadePacotesNaLista: int
    var tamanhoLista: int
    var ultimoPacoteOrdenado: int
    var pacing: int
    var numeroDeReenvios: int
    var tentativasDaConexao: int
    var repositorio: string
    var arquivo: seq<Byte>
    /** The chunks of the file not read yet. */
    var entrada: seq<seq<Byte>>
    var fimArquivo: bool
    var enviando: bool
    var houvePerdas: bool
    /** The datagrams sent to the receiver so far, in order. */
    var enviados: seq<seq<Byte>>

    /** The queue invariant, and every unread chunk is what a read can return. */
    ghost predicate Valid()
      reads this
    {
      Inv(State()) && Fonte(entrada)
    }

    /** The value the sender stands for. */
    ghost function State(): TxState
      reads this
    {
      TxState(pacotes, quantidadePacotesNaLista, sequencia, tamanhoLista, entrada, fimArquivo,
              ultimoPacoteOrdenado, pacotesPerdidos, houvePerdas, enviando, numeroDeReenvios,
              idConexao, hostnameReceptor, portaReceptor, enviados)
    }

    /**
      `new Transmissor(repositorio, porta)`, with the connection id given: sequence
      0, pacing 7, one resend per lost packet, last ordered number -1, 5 attempts,
      both queues empty, no flag set.
     */
    constructor(repositorio: string, porta: int, idConexao: int)
      ensures Valid()
      ensures this.idConexao == idConexao && portaReceptor == porta && this.repositorio == repositorio
      ensures sequencia == 0 && pacing == 7 && numeroDeReenvios == 1 && tentativasDaConexao == 5
      ensures pacotes == [] && quantidadePacotesNaLista == 0 && pacotesPerdidos == []
      ensures ultimoPacoteOrdenado == -1 && !fimArquivo && !enviando && !houvePerdas
      ensures entrada == [] && enviados == []
    {
      this.idConexao := idConexao;
      portaReceptor := porta;
      sequencia := 0;
      pacing := 7;
      numeroDeReenvios := 1;
      pacotes := [];
      quantidadePacotesNaLista := 0;
      fimArquivo := false;
      enviando := false;
      pacotesPerdidos := [];
      houvePerdas := false;
      ultimoPacoteOrdenado := -1;
      tentativasDaConexao := 5;
      this.repositorio := repositorio;
      hostnameReceptor, tamanhoLista, arquivo, entrada, enviados := 0, 0, [], [], [];
    }

    // -------------------------------------------------------------------------
    // Settings
    // -------------------------------------------------------------------------

    /** `setPacing`: negative values are ignored. */
    method SetPacing(pacing: int)
      modifies this`pacing
      ensures this.pacing == if pacing >= 0 then pacing else old(this.pacing)
    {
      if pacing >= 0 {
        this.pacing := pacing;
      }
    }

    /** `setNumeroDeReenviosEmPacotesPerdidos`: only positive values are taken. */
    method SetNumeroDeReenviosEmPacotesPerdidos(reenvios: int)
      modifies this`numeroDeReenvios
      ensures numeroDeReenvios == if reenvios > 0 then reenvios else old(numeroDeReenvios)
    {
      if reenvios > 0 {
        numeroDeReenvios := reenvios;
      }
    }

    /** `setTentativasDaConexao`: only positive values are taken. */
    method SetTentativasDaConexao(tentativas: int)
      modifies this`tentativasDaConexao
      ensures tentativasDaConexao == if tentativas > 0 then tentativas else old(tentativasDaConexao)
    {
      if tentativas > 0 {
        tentativasDaConexao := tentativas;
      }
    }

    // -------------------------------------------------------------------------
    // Connection
    // -------------------------------------------------------------------------

    /**
      `setConexao`: a requested name longer than 250 is refused and nothing
      changes; otherwise the name is recorded, the queue bound becomes the
      requested window count times 500 (a Java int product) and the counter is
      reset.
     */
    method SetConexao(solicitacao: Solicitar.SolicitarConexao) returns (ok: bool)
      modifies this`arquivo, this`tamanhoLista, this`quantidadePacotesNaLista
      ensures ok <==> |solicitacao.arquivo| <= TAMANHO_MAX_NOME
      ensures ok ==> (&& arquivo == solicitacao.arquivo
                      && tamanhoLista == Wrap32(solicitacao.quantidadeDeBuffers * TAMANHO_BUFFER)
                      && quantidadePacotesNaLista == 0)
      ensures !ok ==> (&& arquivo == old(arquivo) && tamanhoLista == old(tamanhoLista)
                       && quantidadePacotesNaLista == old(quantidadePacotesNaLista))
      ensures old(Valid()) && pacotes == [] ==> Valid()
    {
      if |solicitacao.arquivo| > TAMANHO_MAX_NOME {
        return false;
      }
      arquivo := solicitacao.arquivo;
      tamanhoLista := Wrap32(solicitacao.quantidadeDeBuffers * TAMANHO_BUFFER);
      quantidadePacotesNaLista := 0;
      ok := true;
    }

    /**
      The accept loop of `criarConexao`: `tentativasDaConexao` times the Accept
      datagram carrying the connection id and the expected packet count of a file
      of `tamanhoArquivo` bytes.
     */
    method EnviarAceites(tamanhoArquivo: nat)
      modifies this`enviados
      ensures enviados == old(enviados)
        + Repeat(Aceitar.EncodeAccept(idConexao, PacotesPrevistos(tamanhoArquivo)), tentativasDaConexao)
    {
      var quantidadePacotesPrevistos := PacotesPrevistos(tamanhoArquivo);
      var aceitaConexao := new Aceitar.AceitarConexao(hostnameReceptor, portaReceptor);
      ghost var d := Aceitar.EncodeAccept(idConexao, quantidadePacotesPrevistos);
      var i := 0;
      while i < tentativasDaConexao
        invariant 0 <= i <= Max0(tentativasDaConexao)
        invariant enviados == old(enviados) + Repeat(d, i)
      {
        var datagrama := aceitaConexao.Set(idConexao, quantidadePacotesPrevistos);
        assert Repeat(d, i + 1) == Repeat(d, i) + [datagrama];
        enviados := enviados + [datagrama];
        i := i + 1;
      }
    }

    // -------------------------------------------------------------------------
    // The file
    // -------------------------------------------------------------------------

    /** Opening the file: its content, read 500 bytes at a time, is what is left to read. */
    method AbrirArquivo(conteudo: seq<Byte>)
      modifies this`entrada
      ensures entrada == Chunks(conteudo)
    {
      entrada := Chunks(conteudo);
    }

    /**
      `entrada.read(bytes)`: the next chunk is copied to the front of `bytes` and
      its length returned; -1 when nothing is left.
     */
    method Ler(bytes: array<Byte>) returns (n: int)
      requires Fonte(entrada) && bytes.Length == TAMANHO_MAX_DADOS
      modifies this`entrada, bytes
      ensures Fonte(entrada)
      ensures old(entrada) == [] ==> n == -1 && entrada == []
      ensures old(entrada) != [] ==>
        && n == |old(entrada)[0]|
        && bytes[..n] == old(entrada)[0]
        && entrada == old(entrada)[1..]
    {
      if entrada == [] {
        return -1;
      }
      var chunk := entrada[0];
      entrada := entrada[1..];
      n := |chunk|;
      var k := 0;
      while k < n
        invariant 0 <= k <= n
        invariant bytes[..k] == chunk[..k]
        modifies bytes
      {
        bytes[k] := chunk[k];
        k := k + 1;
      }
    }

    // -------------------------------------------------------------------------
    // The packet queue
    // -------------------------------------------------------------------------

    /** `addPacote`. */
    method AddPacote(pacote: DataPacket)
      modifies this`pacotes, this`quantidadePacotesNaLista, this`sequencia
      ensures State() == TransmissorSpec.AddPacote(old(State()), pacote)
    {
      pacotes := pacotes + [pacote];
      quantidadePacotesNaLista := quantidadePacotesNaLista + 1;
      sequencia := sequencia + 1;
    }

    /** `removePacote(0)`, the only index the sender removes at. */
    method RemovePacote()
      modifies this`pacotes, this`quantidadePacotesNaLista
      ensures State() == TransmissorSpec.RemovePacote(old(State()))
    {
      if pacotes != [] {
        pacotes := pacotes[1..];
        quantidadePacotesNaLista := quantidadePacotesNaLista - 1;
      }
    }

    /**
      `new Dados(hostnameReceptor, portaReceptor)` followed by
      `set(idConexao, sequencia, bytes, bytesLidos)`: the Data packet for the chunk
      just read, numbered with the next sequence number.
     */
    method CriarPacote(bytes: array<Byte>, bytesLidos: int) returns (pacote: DataPacket)
      requires 0 <= bytesLidos <= bytes.Length
      ensures pacote == NovoPacote(State(), sequencia, bytes[..bytesLidos])
    {
      var dados := new Dados(hostnameReceptor, portaReceptor);
      dados.Set(idConexao, sequencia, bytes, bytesLidos);
      pacote := dados.Value();
    }

    /**
      `preencherListaPacotes`: from the counter up to the bound, read a chunk into
      a 500-byte array and queue a new Data packet built from it with the next
      sequence number; a read at the end of the file sets end-of-file and stops.
     */
    method PreencherListaPacotes()
      requires Valid()
      modifies this`pacotes, this`quantidadePacotesNaLista, this`sequencia, this`entrada, this`fimArquivo
      ensures Valid()
      ensures State() == Preencher(old(State()))
    {
      PreencherAppends(State());
      if fimArquivo {
        return;
      }
      var bytes := new Byte[TAMANHO_MAX_DADOS];
      var i := quantidadePacotesNaLista;
      while i < tamanhoLista
        invariant Valid() && !fimArquivo
        invariant Leitura(State(), i) == Preencher(old(State()))
        decreases tamanhoLista - i
      {
        ghost var s := State();
        var bytesLidos := Ler(bytes);
        if bytesLidos == -1 {
          fimArquivo := true;
          break;
        }
        var pacote := CriarPacote(bytes, bytesLidos);
        AddPacote(pacote);
        LeituraAdvances(s, State(), i);
        i := i + 1;
      }
    }

    /**
      `atualizarListaDePacotes`: remove the head once for every number from the
      head's sequence number up to the last ordered one, then refill. Reading the
      head of an empty queue throws, which is returned as the fault.
     */
    method AtualizarListaDePacotes() returns (falha: Option<Fault>)
      requires Valid()
      modifies this`pacotes, this`quantidadePacotesNaLista, this`sequencia, this`entrada, this`fimArquivo
      ensures Valid()
      ensures match Atualizar(old(State()))
        case Err(f) => falha == Some(f) && State() == old(State())
        case Ok(u) => falha == None && State() == u
    {
      if pacotes == [] {
        return Some(IndexOutOfBounds);
      }
      ghost var n := ultimoPacoteOrdenado - pacotes[0].sequencia;
      var i := pacotes[0].sequencia;
      while i < ultimoPacoteOrdenado
        invariant Valid()
        invariant RemoveN(State(), ultimoPacoteOrdenado - i) == RemoveN(old(State()), n)
        modifies this`pacotes, this`quantidadePacotesNaLista
        decreases ultimoPacoteOrdenado - i
      {
        RemovePacoteKeepsInv(State());
        RemovePacote();
        i := i + 1;
      }
      PreencherListaPacotes();
      falha := None;
    }

    // -------------------------------------------------------------------------
    // Lost packets
    // -------------------------------------------------------------------------

    /** `addPacotePerdido`. */
    method AddPacotePerdido(numeroDeSequencia: int)
      modifies this`pacotesPerdidos
      ensures pacotesPerdidos == old(pacotesPerdidos) + [numeroDeSequencia]
    {
      pacotesPerdidos := pacotesPerdidos + [numeroDeSequencia];
    }

    /** `atualizarListaDePacotesPerdidos`: every number of `lista`, in order, joins the lost queue. */
    method AtualizarListaDePacotesPerdidos(lista: seq<int>)
      modifies this`pacotesPerdidos
      ensures pacotesPerdidos == old(pacotesPerdidos) + lista
    {
      var tamanho := |lista|;
      var i := 0;
      while i < tamanho
        invariant 0 <= i <= tamanho
        invariant pacotesPerdidos == old(pacotesPerdidos) + lista[..i]
      {
        AddPacotePerdido(lista[i]);
        assert lista[..i + 1] == lista[..i] + [lista[i]];
        i := i + 1;
      }
    }

    /**
      `reenviarPacotePerdido`: take the head of the lost queue and send the packet
      at index (that number minus the head's sequence number) `numeroDeReenvios`
      times; an empty queue or an index outside it throws, which is swallowed.
     */
    method ReenviarPacotePerdido()
      requires Valid()
      modifies this`pacotesPerdidos, this`enviados
      ensures Valid()
      ensures State() == ReenviarUm(old(State()))
    {
      if pacotesPerdidos == [] {
        return;
      }
      var pacotePerdido := pacotesPerdidos[0];
      pacotesPerdidos := pacotesPerdidos[1..];
      if pacotes == [] {
        return;
      }
      var indice := Wrap32(pacotePerdido - pacotes[0].sequencia);
      if !(0 <= indice < |pacotes|) {
        return;
      }
      var datagrama := Datagrama(pacotes[indice]);
      var i := numeroDeReenvios;
      while i > 0
        invariant if numeroDeReenvios > 0 then 0 <= i <= numeroDeReenvios else i == numeroDeReenvios
        invariant enviados == old(enviados) + Repeat(datagrama, numeroDeReenvios - i)
        modifies this`enviados
      {
        assert Repeat(datagrama, numeroDeReenvios - i + 1) == Repeat(datagrama, numeroDeReenvios - i) + [datagrama];
        enviados := enviados + [datagrama];
        i := i - 1;
      }
      assert Repeat(datagrama, numeroDeReenvios - i) == Repeat(datagrama, numeroDeReenvios);
      assert ReenvioDe(old(pacotes), old(numeroDeReenvios), pacotePerdido) == Repeat(datagrama, numeroDeReenvios);
    }

    /**
      `reenviarPacotesPerdidos`: resend for every lost number until the lost queue
      is empty, refresh the packet queue, and clear the loss flag; a failed refresh
      leaves the flag set.
     */
    method ReenviarPacotesPerdidos() returns (falha: Option<Fault>)
      requires Valid()
      modifies this`pacotesPerdidos, this`enviados, this`pacotes, this`quantidadePacotesNaLista,
               this`sequencia, this`entrada, this`fimArquivo, this`houvePerdas
      ensures Valid()
      ensures (State(), falha) == ReenviarTodos(old(State()))
    {
      while pacotesPerdidos != []
        invariant Valid()
        invariant Esvaziar(State()) == Esvaziar(old(State()))
        modifies this`pacotesPerdidos, this`enviados
        decreases |pacotesPerdidos|
      {
        ReenviarPacotePerdido();
      }
      falha := AtualizarListaDePacotes();
      if falha.Some? {
        return;
      }
      houvePerdas := false;
    }

    // -------------------------------------------------------------------------
    // Replies from the receiver
    // -------------------------------------------------------------------------

    /**
      One reply taken by `receberRespostas`' listener, `len` bytes in its 509-byte
      array, from `host`:`porta`. The fault, if any, is what ends the listener.
     */
    method ReceberResposta(bytes: seq<Byte>, len: int, host: Host, porta: int) returns (falha: Option<Fault>)
      requires Valid() && |bytes| == Relatorio.TAMANHO_MAX && 0 <= len <= |bytes|
      modifies this`enviando, this`ultimoPacoteOrdenado, this`pacotesPerdidos, this`houvePerdas,
               this`pacotes, this`quantidadePacotesNaLista, this`sequencia, this`entrada, this`fimArquivo
      ensures Valid()
      ensures (State(), falha) == TransmissorSpec.ReceberResposta(old(State()), bytes, len)
    {
      if IsEncerarConexao(bytes) {
        enviando := false;
        return None;
      }
      Relatorio.ReportEntriesFromReceiveArray(bytes, len);
      var relatorio := new Relatorio.Relatorio(host, porta);
      var ok := relatorio.Set(bytes, len);
      assert ok;
      var numeroSequencia := relatorio.ultimoPacoteOrdenado;
      if numeroSequencia > ultimoPacoteOrdenado {
        ultimoPacoteOrdenado := numeroSequencia;
        falha := AtualizarListaDePacotes();
        if falha.Some? {
          return;
        }
      }
      if relatorio.pacotesPerdidos == [] {
        return Some(IndexOutOfBounds);
      }
      if relatorio.pacotesPerdidos[0] != Relatorio.SEM_PERDAS {
        AtualizarListaDePacotesPerdidos(relatorio.pacotesPerdidos);
        houvePerdas := true;
      }
      falha := None;
    }
  }
}
