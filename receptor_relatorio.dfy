/**
  How the receiver splits a list of sequence numbers into Report datagrams
  (`Receptor.enviarRelatorio`). The number of datagrams is the number of
  500-entry groups, while each datagram carries at most 125 entries (500 bytes of
  ints), so lists longer than 125 are only partly sent.
 */
module ReceptorRelatorio {
  import opened JavaRuntime
  import opened Pacote
  import opened Relatorio

  /** `numeroDeRespostas`: ceil(n / TAMANHO_MAX_DADOS), the number of 500-entry groups. */
  function NumeroDeRespostas(n: nat): nat {
    CeilDiv(n, TAMANHO_MAX_DADOS)
  }

  /** `quantidadeDados`: all the entries left, but at most MAX_ENTRADAS of them. */
  function QuantidadeDados(remaining: nat): nat {
    if remaining >= MAX_ENTRADAS then MAX_ENTRADAS else remaining
  }

  /** `k` report datagrams, each taking its entries from the front of what is left. */
  function Chunked(entries: seq<int>, k: nat, idConexao: int, ultimoPacoteOrdenado: int): (r: seq<seq<Byte>>)
    ensures |r| == k
    decreases k
  {
    if k == 0 then []
    else
      var q := QuantidadeDados(|entries|);
      [EncodeReport(idConexao, ultimoPacoteOrdenado, entries[..q])]
        + Chunked(entries[q..], k - 1, idConexao, ultimoPacoteOrdenado)
  }

  /** The first of `k` > 0 datagrams takes the first group; the rest split what is left. */
  lemma ChunkedStep(entries: seq<int>, k: nat, idConexao: int, ultimoPacoteOrdenado: int)
    requires k > 0
    ensures var q := QuantidadeDados(|entries|);
      Chunked(entries, k, idConexao, ultimoPacoteOrdenado)
        == [EncodeReport(idConexao, ultimoPacoteOrdenado, entries[..q])]
           + Chunked(entries[q..], k - 1, idConexao, ultimoPacoteOrdenado)
  {
  }

  /** Everything `enviarRelatorio(entries, idConexao)` sends while the last ordered number is `ultimoPacoteOrdenado`. */
  function ReportDatagrams(entries: seq<int>, idConexao: int, ultimoPacoteOrdenado: int): seq<seq<Byte>> {
    Chunked(entries, NumeroDeRespostas(|entries|), idConexao, ultimoPacoteOrdenado)
  }

  /**
    Datagram `i` of `k` carries the entries from position min(n, 125 i) to
    min(n, 125 (i + 1)): the list is cut in order into groups of 125, and a
    group past the list's end is empty.
   */
  lemma {:induction false} ChunkedAt(entries: seq<int>, k: nat, idConexao: int, ultimoPacoteOrdenado: int, i: nat)
    requires i < k
    ensures Chunked(entries, k, idConexao, ultimoPacoteOrdenado)[i]
         == EncodeReport(idConexao, ultimoPacoteOrdenado,
              entries[Min(|entries|, MAX_ENTRADAS * i)..Min(|entries|, MAX_ENTRADAS * (i + 1))])
    decreases k
  {
    var n := |entries|;
    var q := QuantidadeDados(n);
    var rest := entries[q..];
    var r := Chunked(entries, k, idConexao, ultimoPacoteOrdenado);
    if i == 0 {
      assert Min(n, MAX_ENTRADAS * 0) == 0 && Min(n, MAX_ENTRADAS * 1) == q;
      assert r[0] == EncodeReport(idConexao, ultimoPacoteOrdenado, entries[..q]);
    } else {
      ChunkedAt(rest, k - 1, idConexao, ultimoPacoteOrdenado, i - 1);
      assert r[i] == Chunked(rest, k - 1, idConexao, ultimoPacoteOrdenado)[i - 1];
      ChunkBounds(n, i);
      var lo := Min(|rest|, MAX_ENTRADAS * (i - 1));
      var hi := Min(|rest|, MAX_ENTRADAS * i);
      assert 0 <= lo <= hi <= |rest|;
      SliceOfSuffix(entries, q, lo, hi);
      var a, b := Min(n, MAX_ENTRADAS * i), Min(n, MAX_ENTRADAS * (i + 1));
      assert a == q + lo && b == q + hi;
      assert entries[a..b] == rest[lo..hi];
    }
  }

  /**
    The bounds of group `i` > 0 of a list of `n` entries are those of group i - 1
    of what is left after the first group, shifted by that group's size.
   */
  lemma ChunkBounds(n: nat, i: nat)
    requires i > 0
    ensures var q := QuantidadeDados(n);
      && Min(n, MAX_ENTRADAS * i) == q + Min(n - q, MAX_ENTRADAS * (i - 1))
      && Min(n, MAX_ENTRADAS * (i + 1)) == q + Min(n - q, MAX_ENTRADAS * i)
      && 0 <= MAX_ENTRADAS * (i - 1) <= MAX_ENTRADAS * i
  {
    assert MAX_ENTRADAS == 125;
    assert MAX_ENTRADAS * i == MAX_ENTRADAS + MAX_ENTRADAS * (i - 1);
    assert MAX_ENTRADAS * (i + 1) == MAX_ENTRADAS + MAX_ENTRADAS * i;
  }

  /** A slice of a suffix is a slice of the whole, shifted. */
  lemma SliceOfSuffix(s: seq<int>, q: nat, lo: nat, hi: nat)
    requires q <= |s| && lo <= hi <= |s| - q
    ensures s[q..][lo..hi] == s[q + lo..q + hi]
  {
  }

  /** The number of datagrams and the content of each one. */
  lemma ReportDatagramsAt(entries: seq<int>, idConexao: int, ultimoPacoteOrdenado: int, i: nat)
    requires i < NumeroDeRespostas(|entries|)
    ensures ReportDatagrams(entries, idConexao, ultimoPacoteOrdenado)[i]
         == EncodeReport(idConexao, ultimoPacoteOrdenado,
              entries[Min(|entries|, MAX_ENTRADAS * i)..Min(|entries|, MAX_ENTRADAS * (i + 1))])
  {
    ChunkedAt(entries, NumeroDeRespostas(|entries|), idConexao, ultimoPacoteOrdenado, i);
  }

  /** An empty list sends nothing. */
  lemma NoEntriesNoReport(idConexao: int, ultimoPacoteOrdenado: int)
    ensures ReportDatagrams([], idConexao, ultimoPacoteOrdenado) == []
  {
  }

  /**
    A list of 1 to 500 entries goes out as a single datagram holding its first
    min(n, 125) entries; in particular the one-entry "window complete" report
    `[-1]` is one datagram of 13 bytes.
   */
  lemma UpTo500EntriesOneReport(entries: seq<int>, idConexao: int, ultimoPacoteOrdenado: int)
    requires 0 < |entries| <= TAMANHO_MAX_DADOS
    ensures ReportDatagrams(entries, idConexao, ultimoPacoteOrdenado)
         == [EncodeReport(idConexao, ultimoPacoteOrdenado, entries[..Min(|entries|, MAX_ENTRADAS)])]
  {
    assert NumeroDeRespostas(|entries|) == 1;
    ReportDatagramsAt(entries, idConexao, ultimoPacoteOrdenado, 0);
  }

  /** More than 125 entries never all fit in the datagrams sent for them. */
  lemma LongListsAreCut(n: nat)
    requires n > MAX_ENTRADAS
    ensures MAX_ENTRADAS * NumeroDeRespostas(n) < n
  {
    var k := NumeroDeRespostas(n);
    if k >= 2 {
      assert MAX_ENTRADAS * k <= (k - 1) * TAMANHO_MAX_DADOS;
    }
  }

  /** Position `j` below 125 k lies in group j / 125, which is one of the first k. */
  lemma GroupOf(j: nat, k: nat)
    requires j < MAX_ENTRADAS * k
    ensures var i := j / MAX_ENTRADAS;
      MAX_ENTRADAS * i <= j < MAX_ENTRADAS * (i + 1) && i < k
  {
    assert MAX_ENTRADAS == 125;
  }

  /**
    An entry at a position `j` below 125 ceil(n / 500) is sent, in datagram
    j / 125, whose group of entries starts at 125 (j / 125) and holds position `j`.
   */
  lemma EntrySent(entries: seq<int>, idConexao: int, ultimoPacoteOrdenado: int, j: nat)
    requires j < |entries| && j < MAX_ENTRADAS * NumeroDeRespostas(|entries|)
    ensures var i := j / MAX_ENTRADAS;
      && i < NumeroDeRespostas(|entries|)
      && MAX_ENTRADAS * i <= j < MAX_ENTRADAS * (i + 1)
      && ReportDatagrams(entries, idConexao, ultimoPacoteOrdenado)[i]
         == EncodeReport(idConexao, ultimoPacoteOrdenado,
              entries[MAX_ENTRADAS * i..Min(|entries|, MAX_ENTRADAS * (i + 1))])
  {
    var i := j / MAX_ENTRADAS;
    GroupOf(j, NumeroDeRespostas(|entries|));
    ReportDatagramsAt(entries, idConexao, ultimoPacoteOrdenado, i);
    assert Min(|entries|, MAX_ENTRADAS * i) == MAX_ENTRADAS * i;
  }
}
