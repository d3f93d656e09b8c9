/**
  The receiver (`Receptor`): its settings, the windows it keeps in a map from
  window key to `Buffer` object, the file it writes and the datagrams it sends.
  Each operation is proved against the function of `ReceptorSpec` that specifies
  it, on the value `State()` the object stands for.
 */
module Receptor {
  import opened JavaRuntime
  import opened Pacote
  import opened Dados
  import opened Buffer
  import opened ReceptorRelatorio
  import opened ReceptorSpec
  import opened ReceptorArquivo
  import Relatorio
  import Flag
  import Encerrar = EncerrarConexao
  import Aceitar = AceitarConexao

  /** The port a receiver built with a host name only uses. */
  const PORTA_PADRAO: int := 49500

  class Receptor {
    const HOSTNAME: Host
    const PORTA: int
    var idConexao: int
    /** The windows being filled, by key, as the values their `Buffer` objects hold. */
    var buffers: map<int, BufferState>
    var quantidadeDeBuffers: int
    var bufferASerGravado: int
    var ultimoPacoteOrdenado: int
    var quantidadeTotalDePacotes: int
    var quantidadeDeBuffersEnviandoRelatorio: int
    var tentativasDaConexao: int
    var pacing: int
    var timeout: int
    var diretorio: string
    var arquivo: string
    var recebendo: bool
    /** The bytes written to the file so far. */
    var saida: seq<Byte>
    /** The datagrams sent to the sender so far, in order. */
    var enviados: seq<seq<Byte>>

    /** Every window's counter agrees with its slots, and it holds only writable packets. */
    ghost predicate Valid()
      reads this
    {
      StoredWindows(buffers)
    }

    /** The value the receiver stands for. */
    ghost function State(): RxState
      reads this
    {
      RxState(buffers,
              bufferASerGravado, ultimoPacoteOrdenado, quantidadeTotalDePacotes,
              quantidadeDeBuffersEnviandoRelatorio, tentativasDaConexao, timeout,
              idConexao, recebendo, saida, enviados)
    }

    /** `new Receptor(hostname, porta)`: no windows, 30 windows requested, 5 attempts, pacing 7, timeout 3000. */
    constructor(hostname: Host, porta: int)
      ensures Valid() && buffers == map[]
      ensures HOSTNAME == hostname && PORTA == porta
      ensures quantidadeDeBuffers == 30 && quantidadeDeBuffersEnviandoRelatorio == 30
      ensures bufferASerGravado == 0 && ultimoPacoteOrdenado == 0 && quantidadeTotalDePacotes == 0
      ensures tentativasDaConexao == 5 && pacing == 7 && timeout == 3000 && !recebendo
      ensures saida == [] && enviados == []
    {
      HOSTNAME, PORTA := hostname, porta;
      buffers := map[];
      quantidadeDeBuffers := 30;
      bufferASerGravado, ultimoPacoteOrdenado, quantidadeTotalDePacotes := 0, 0, 0;
      quantidadeDeBuffersEnviandoRelatorio := quantidadeDeBuffers;
      tentativasDaConexao, pacing, timeout := 5, 7, 3000;
      recebendo := false;
      idConexao, diretorio, arquivo := 0, "", "";
      saida, enviados := [], [];
    }

    // -------------------------------------------------------------------------
    // Settings
    // -------------------------------------------------------------------------

    /** `setQuantidadeBuffers`: values below 1 are ignored. */
    method SetQuantidadeBuffers(quantidade: int)
      modifies this`quantidadeDeBuffers
      ensures quantidadeDeBuffers == if quantidade < 1 then old(quantidadeDeBuffers) else quantidade
    {
      if quantidade < 1 {
        return;
      }
      quantidadeDeBuffers := quantidade;
    }

    /** `setTimeout`: negative values are ignored; windows created later take this timeout length. */
    method SetTimeout(timeout: int)
      modifies this`timeout
      ensures this.timeout == if timeout >= 0 then timeout else old(this.timeout)
    {
      if timeout >= 0 {
        this.timeout := timeout;
      }
    }

    /** `setTentativasDaConexao`: only positive values are taken. */
    method SetTentativasDaConexao(tentativasDaConexao: int)
      modifies this`tentativasDaConexao
      ensures this.tentativasDaConexao == if tentativasDaConexao > 0 then tentativasDaConexao else old(this.tentativasDaConexao)
    {
      if tentativasDaConexao > 0 {
        this.tentativasDaConexao := tentativasDaConexao;
      }
    }

    /**
      `setQuantidadeDeBuffersEnviandoRelatorio`: a positive value is taken; a
      negative one is ignored; 0, documented as "no limit", assigns the parameter
      instead of the field and so changes nothing either.
     */
    method SetQuantidadeDeBuffersEnviandoRelatorio(quantidadeDeBuffers: int)
      modifies this`quantidadeDeBuffersEnviandoRelatorio
      ensures quantidadeDeBuffersEnviandoRelatorio
           == if quantidadeDeBuffers > 0 then quantidadeDeBuffers else old(quantidadeDeBuffersEnviandoRelatorio)
    {
      var quantidade := quantidadeDeBuffers;
      if quantidade < 0 {
        return;
      }
      if quantidade == 0 {
        quantidade := this.quantidadeDeBuffers;
      } else {
        quantidadeDeBuffersEnviandoRelatorio := quantidade;
      }
    }

    /** `setPacing`: negative values are ignored. */
    method SetPacing(pacing: int)
      modifies this`pacing
      ensures this.pacing == if pacing >= 0 then pacing else old(this.pacing)
    {
      if pacing >= 0 {
        this.pacing := pacing;
      }
    }

    // -------------------------------------------------------------------------
    // Connection set-up
    // -------------------------------------------------------------------------

    /** The start of `receber`'s thread: record directory and file name and start receiving. */
    method IniciarRecebimento(arquivoASerRecebido: string, diretorioASerGravado: string)
      modifies this`diretorio, this`arquivo, this`recebendo
      ensures diretorio == diretorioASerGravado && arquivo == arquivoASerRecebido && recebendo
    {
      diretorio := diretorioASerGravado;
      arquivo := arquivoASerRecebido;
      recebendo := true;
    }

    /** The name of the file written while receiving. */
    function NomeTemporario(): (r: string)
      reads this
      ensures NovoNome(r) == (if |Trim(diretorio) + Trim(arquivo)| >= 1
                                 && forall i :: 0 <= i < |Trim(diretorio) + Trim(arquivo)| ==>
                                      !IsLineTerminator((Trim(diretorio) + Trim(arquivo))[i])
                              then Some(Trim(diretorio) + Trim(arquivo)) else None)
    {
      RenameUndoesTempName(diretorio, arquivo);
      TempName(diretorio, arquivo)
    }

    /**
      One reply in `criarConexao`'s loop, read into a 500-byte array: anything but
      an AcceptConnection datagram is skipped (false); an accept shorter than its
      header throws out of the set-up (an error); otherwise the connection id and
      the announced number of packets are taken from it (true).
     */
    method RegistrarAceite(bytes: seq<Byte>, len: int) returns (r: Result<bool>)
      requires |bytes| == TAMANHO_MAX_DADOS && 0 <= len <= |bytes|
      modifies this`idConexao, this`quantidadeTotalDePacotes
      ensures !IsAceitarConexao(bytes) ==> r == Ok(false)
      ensures IsAceitarConexao(bytes) && len < Aceitar.TAMANHO_MAX ==> r == Err(NegativeArraySize)
      ensures IsAceitarConexao(bytes) && len >= Aceitar.TAMANHO_MAX ==>
        && r == Ok(true)
        && idConexao == Aceitar.DecodeAcceptHeader(bytes).idConexao
        && quantidadeTotalDePacotes == Aceitar.DecodeAcceptHeader(bytes).quantidadePacotesPrevistos
      ensures r != Ok(true) ==>
        idConexao == old(idConexao) && quantidadeTotalDePacotes == old(quantidadeTotalDePacotes)
    {
      if !IsAceitarConexao(bytes) {
        return Ok(false);
      }
      var aceitou := new Aceitar.AceitarConexao(HOSTNAME, PORTA);
      var ok := aceitou.SetFromBytes(bytes, len);
      if !ok {
        return Err(NegativeArraySize);
      }
      idConexao := aceitou.idConexao;
      quantidadeTotalDePacotes := aceitou.quantidadePacotesPrevistos;
      r := Ok(true);
    }

    // -------------------------------------------------------------------------
    // Receiving
    // -------------------------------------------------------------------------

    /**
      `setPacoteNoBuffer`: the window the packet's number falls in takes it (or
      rejects it); a missing window is created first, with the configured timeout
      length and what is left of the total as capacity, unless it lies behind the
      flush pointer.
     */
    method SetPacoteNoBuffer(pacote: DataPacket, now: int)
      requires Valid() && Storable(pacote)
      modifies this`buffers
      ensures Valid()
      ensures State() == Ingest(old(State()), pacote, now)
    {
      ghost var s := State();
      IngestFields(s, pacote, now);
      var posicao := JavaRem(pacote.sequencia, TAMANHO_BUFFER);
      var key := pacote.sequencia - posicao;
      assert posicao == Posicao(pacote.sequencia) && key == Chave(pacote.sequencia);
      if key in buffers {
        PlaceKeepsConsistent(buffers[key], posicao, pacote, now);
        var (buffer, _) := Place(buffers[key], posicao, pacote, now);
        buffers := buffers[key := buffer];
      } else if key >= bufferASerGravado {
        var tamanho;
        if quantidadeTotalDePacotes - key < TAMANHO_BUFFER {
          tamanho := quantidadeTotalDePacotes - key;
        } else {
          tamanho := TAMANHO_BUFFER;
        }
        var novo := WithTimeoutLength(NewBuffer(tamanho), timeout);
        NewBufferIsEmpty(tamanho);
        PlaceKeepsConsistent(novo, posicao, pacote, now);
        var (buffer, _) := Place(novo, posicao, pacote, now);
        buffers := buffers[key := buffer];
      }
    }

    /**
      One turn of the receive loop on the reused 509-byte array holding a datagram
      of `len` bytes, against `Receive`.
     */
    method ReceberDatagrama(bytes: seq<Byte>, len: int, host: Host, porta: int, now: int) returns (r: Result<bool>)
      requires Valid() && |bytes| == TAMANHO_MAX && 0 <= len <= |bytes|
      modifies this`buffers
      ensures Valid()
      ensures (r, State()) == Receive(old(State()), bytes, len, host, porta, now)
    {
      ghost var s := State();
      if !IsDados(bytes) {
        return Ok(false);
      }
      var p := new Dados(host, porta);
      var ok := p.SetFromBytes(bytes, len);
      assert State() == s;
      if !ok {
        return Err(NegativeArraySize);
      }
      ghost var d := DecodeData(bytes, len).value;
      assert p.idConexao == d.header.idConexao;
      if p.idConexao != idConexao {
        return Ok(false);
      }
      assert p.Value() == Received(d, host, porta);
      assert Receive(s, bytes, len, host, porta, now) == (Ok(true), Ingest(s, p.Value(), now));
      SetPacoteNoBuffer(p.Value(), now);
      r := Ok(true);
    }

    // -------------------------------------------------------------------------
    // Replies
    // -------------------------------------------------------------------------

    /**
      `enviarRelatorio`: ceil(n / 500) datagrams, each taking up to 125 entries from
      the front of the list, all carrying the current last ordered number.
     */
    method EnviarRelatorio(pacotesPerdidos: seq<int>, idConexao: int)
      modifies this`enviados
      ensures enviados == old(enviados) + ReportDatagrams(pacotesPerdidos, idConexao, ultimoPacoteOrdenado)
    {
      var numeroDeRespostas := NumeroDeRespostas(|pacotesPerdidos|);
      var restantes := pacotesPerdidos;
      var ultimo := ultimoPacoteOrdenado;
      ghost var alvo := enviados + ReportDatagrams(pacotesPerdidos, idConexao, ultimo);
      var i := 0;
      while i < numeroDeRespostas
        invariant 0 <= i <= numeroDeRespostas
        invariant alvo == enviados + Chunked(restantes, numeroDeRespostas - i, idConexao, ultimo)
      {
        var quantidadeDados := if |restantes| >= Relatorio.MAX_ENTRADAS then Relatorio.MAX_ENTRADAS else |restantes|;
        ghost var inicio := restantes;
        var bb;
        bb, restantes := MontarRelatorio(restantes, quantidadeDados, idConexao, ultimo);
        assert QuantidadeDados(|inicio|) == quantidadeDados;
        ChunkedStep(inicio, numeroDeRespostas - i, idConexao, ultimo);
        ghost var resto := Chunked(restantes, numeroDeRespostas - i - 1, idConexao, ultimo);
        assert enviados + ([bb] + resto) == (enviados + [bb]) + resto;
        enviados := enviados + [bb];
        i := i + 1;
      }
    }

    /**
      The inner loop of `enviarRelatorio`: the header, then the first
      `quantidadeDados` numbers taken off the front of the list one by one.
     */
    static method MontarRelatorio(pacotesPerdidos: seq<int>, quantidadeDados: nat, idConexao: int, ultimoPacoteOrdenado: int)
      returns (bb: seq<Byte>, restantes: seq<int>)
      requires quantidadeDados <= |pacotesPerdidos|
      ensures bb == Relatorio.EncodeReport(idConexao, ultimoPacoteOrdenado, pacotesPerdidos[..quantidadeDados])
      ensures restantes == pacotesPerdidos[quantidadeDados..]
    {
      restantes := pacotesPerdidos;
      bb := [Flag.GetByte(Flag.Relatorio)] + PutInt(idConexao) + PutInt(ultimoPacoteOrdenado);
      var j := 0;
      while j < quantidadeDados
        invariant 0 <= j <= quantidadeDados
        invariant restantes == pacotesPerdidos[j..]
        invariant bb == [Flag.GetByte(Flag.Relatorio)] + PutInt(idConexao) + PutInt(ultimoPacoteOrdenado)
                        + Relatorio.PutInts(pacotesPerdidos[..j])
      {
        var item := restantes[0];
        restantes := restantes[1..];
        Relatorio.PutIntsAppend(pacotesPerdidos[..j], item);
        assert pacotesPerdidos[..j + 1] == pacotesPerdidos[..j] + [item];
        bb := bb + PutInt(item);
        j := j + 1;
      }
    }

    /**
      `encerrarConexao`: one ConnectionEnd datagram per connection attempt, then
      the last ordered number becomes the total and receiving stops.
     */
    method EncerrarConexao()
      requires Valid()
      modifies this`enviados, this`ultimoPacoteOrdenado, this`recebendo
      ensures Valid()
      ensures State() == Close(old(State()))
    {
      var encerrar := new Encerrar.EncerrarConexao(HOSTNAME, PORTA);
      var i := 0;
      while i < tentativasDaConexao
        invariant 0 <= i <= Max0(tentativasDaConexao)
        invariant enviados == old(enviados) + EndDatagrams(i, idConexao)
      {
        var bytes := encerrar.Set(idConexao);
        assert EndDatagrams(i + 1, idConexao) == EndDatagrams(i, idConexao) + [bytes];
        enviados := enviados + [bytes];
        i := i + 1;
      }
      ultimoPacoteOrdenado := quantidadeTotalDePacotes;
      recebendo := false;
      assert enviados == old(State()).enviados + EndDatagrams(tentativasDaConexao, idConexao);
    }

    /**
      Writing out the window due next: its chunks go to the file in slot order, it
      leaves the map, the "window complete" report goes out with the last ordered
      number from before the advance, and pointer and last ordered number move on.
     */
    method GravarBuffer(key: int, now: int)
      requires Valid() && key in buffers && key == bufferASerGravado && IsCheio(buffers[key])
      modifies this`saida, this`buffers, this`enviados, this`bufferASerGravado, this`ultimoPacoteOrdenado
      ensures Valid()
      ensures State() == Step(old(State()), key, now)
    {
      ghost var s := State();
      FlushStep(s, now);
      var buffer := buffers[key];
      FullIffAllFilled(buffer);
      var lista := buffer.slots;
      Gravar(lista);
      buffers := buffers - {key};
      EnviarRelatorio([Relatorio.SEM_PERDAS], buffer.idConexao);
      bufferASerGravado := bufferASerGravado + TAMANHO_BUFFER;
      ultimoPacoteOrdenado := bufferASerGravado;
    }

    /** The `for (Dados p : lista)` loop of the flush: each packet's payload is appended to the file. */
    method Gravar(lista: seq<Option<DataPacket>>)
      requires AllStorable(lista) && forall i :: 0 <= i < |lista| ==> lista[i].Some?
      modifies this`saida
      ensures saida == old(saida) + Payloads(lista)
    {
      var j := 0;
      while j < |lista|
        invariant 0 <= j <= |lista|
        invariant saida == old(saida) + Payloads(lista[..j])
      {
        assert lista[..j + 1][..j] == lista[..j];
        var p := lista[j].value;
        saida := saida + p.dados[..p.tamanho - TAMANHO_CABECALHO];
        j := j + 1;
      }
      assert lista[..j] == lista;
    }

    /**
      A timed-out window that is not written out: it reports its missing numbers
      when it lies within the reporting range, and its timer is restarted.
     */
    method TratarTimeout(key: int, now: int)
      requires Valid() && key in buffers
      requires !(IsCheio(buffers[key]) && key == bufferASerGravado) && IsTimeouted(buffers[key], now)
      modifies this`enviados, this`buffers
      ensures Valid()
      ensures State() == Step(old(State()), key, now)
    {
      var buffer := buffers[key];
      var pacotesPerdidos := Missing(buffer.slots, key);
      var bufferPodeEnviarRelatorio := key < Wrap32(bufferASerGravado + Wrap32(TAMANHO_BUFFER * quantidadeDeBuffersEnviandoRelatorio));
      if bufferPodeEnviarRelatorio {
        EnviarRelatorio(pacotesPerdidos, buffer.idConexao);
      }
      buffers := buffers[key := Rearm(buffer, now)];
    }

    /**
      One turn of `enviarRespostas`' loop at time `now`: the close check, then the
      pass over the windows, visited in the map's iteration order `order`.
     */
    method EnviarRespostasIteracao(order: seq<int>, now: int)
      requires Valid()
      modifies this`saida, this`buffers, this`enviados, this`bufferASerGravado,
               this`ultimoPacoteOrdenado, this`recebendo
      ensures Valid()
      ensures State() == Iteration(old(State()), order, now)
    {
      if bufferASerGravado > quantidadeTotalDePacotes {
        EncerrarConexao();
      }
      ghost var inicio := State();
      assert inicio == CloseStep(old(State()));
      var i := 0;
      while i < |order|
        invariant 0 <= i <= |order|
        invariant Valid()
        invariant State() == Steps(inicio, order[..i], now)
      {
        var key := order[i];
        assert order[..i + 1][..i] == order[..i];
        if key in buffers {
          var buffer := buffers[key];
          if IsCheio(buffer) && bufferASerGravado == key {
            GravarBuffer(key, now);
          } else if IsTimeouted(buffer, now) {
            TratarTimeout(key, now);
          }
        }
        i := i + 1;
      }
      assert order[..i] == order;
    }
  }
}
