/**
  The Report packet the receiver sends to the sender.
  Layout: tag (1 byte), connection id (4, big-endian), last ordered sequence number
  (4), then zero or more 4-byte missing sequence numbers up to the datagram's end;
  the single entry -1 means "this window is complete".
 */
module Relatorio {
  import opened JavaRuntime
  import opened Flag
  import opened Pacote

  /** Tag plus the two header ints. */
  const CABECALHO: int := 1 + 2 * INT_BYTES

  /** Relatorio.TAMANHO_MAX: header plus 500 bytes of entries, the size of the sender's receive array. */
  const TAMANHO_MAX: int := 1 + 2 * INT_BYTES + TAMANHO_MAX_DADOS

  /** Entries that fit in one report: TAMANHO_MAX_DADOS / Integer.BYTES. */
  const MAX_ENTRADAS: int := TAMANHO_MAX_DADOS / INT_BYTES

  /** The entry that marks a complete window. */
  const SEM_PERDAS: int := -1

  /** The entries written one after the other, four big-endian bytes each. */
  function PutInts(entries: seq<int>): (r: seq<Byte>)
    ensures |r| == INT_BYTES * |entries|
  {
    if entries == [] then [] else PutInt(entries[0]) + PutInts(entries[1..])
  }

  lemma {:induction false} PutIntsAppend(entries: seq<int>, x: int)
    ensures PutInts(entries + [x]) == PutInts(entries) + PutInt(x)
  {
    if entries != [] {
      assert (entries + [x])[1..] == entries[1..] + [x];
      PutIntsAppend(entries[1..], x);
    } else {
      assert PutInts([x]) == PutInt(x) + PutInts([]);
    }
  }

  /** A report datagram as the receiver builds it (in `Receptor.enviarRelatorio`). */
  function EncodeReport(idConexao: int, ultimoPacoteOrdenado: int, entries: seq<int>): (r: seq<Byte>)
    ensures |r| == CABECALHO + INT_BYTES * |entries|
    ensures r[0] == GetByte(Flag.Relatorio)
  {
    [GetByte(Flag.Relatorio)] + PutInt(idConexao) + PutInt(ultimoPacoteOrdenado) + PutInts(entries)
  }

  /**
    The decoder's loop: one int per four bytes from `pos` while `pos` is short of
    `len`. The buffer's limit is the array's end, not `len`, so a last entry may run
    past the datagram; running past the array fails with an underflow.
   */
  function ReadEntries(bytes: seq<Byte>, pos: int, len: int, acc: seq<int>): (r: Result<seq<int>>)
    requires 0 <= pos
    decreases len - pos
  {
    if pos >= len then Ok(acc)
    else if pos + INT_BYTES > |bytes| then Err(BufferUnderflow)
    else ReadEntries(bytes, pos + INT_BYTES, len, acc + [GetInt(bytes[pos..])])
  }

  /** What the decoder leaves in the object. */
  datatype ReportFields = ReportFields(flag: Byte, idConexao: int, ultimoPacoteOrdenado: int, pacotesPerdidos: seq<int>)

  function DecodeReport(bytes: seq<Byte>, len: int): (r: Result<ReportFields>)
    requires CABECALHO <= |bytes| && 0 <= len <= |bytes|
    ensures r.Ok? ==> r.value.flag == bytes[0]
    ensures r.Ok? ==> r.value.idConexao == GetInt(bytes[1..])
    ensures r.Ok? ==> r.value.ultimoPacoteOrdenado == GetInt(bytes[1 + INT_BYTES..])
  {
    match ReadEntries(bytes, CABECALHO, len, [])
    case Err(f) => Err(f)
    case Ok(e) => Ok(ReportFields(bytes[0], GetInt(bytes[1..]), GetInt(bytes[1 + INT_BYTES..]), e))
  }

  /** How many entries the decoder reads: one per started group of four bytes after the header. */
  function EntryCount(pos: int, len: int): int {
    if len <= pos then 0 else (len - pos + INT_BYTES - 1) / INT_BYTES
  }

  /**
    When the array holds every group the loop starts, decoding succeeds and the
    entries are the ints at pos, pos + 4, ... in wire order, after what was read before.
   */
  lemma {:induction false} ReadEntriesShape(bytes: seq<Byte>, pos: int, len: int, acc: seq<int>)
    requires 0 <= pos
    requires pos + INT_BYTES * EntryCount(pos, len) <= |bytes|
    ensures var r := ReadEntries(bytes, pos, len, acc);
      && r.Ok?
      && |r.value| == |acc| + EntryCount(pos, len)
      && r.value[..|acc|] == acc
      && forall i :: 0 <= i < EntryCount(pos, len) ==>
           r.value[|acc| + i] == GetInt(bytes[pos + INT_BYTES * i..])
    decreases len - pos
  {
    if pos < len {
      var n := EntryCount(pos, len);
      EntryCountStep(pos, len);
      var next := acc + [GetInt(bytes[pos..])];
      ReadEntriesShape(bytes, pos + INT_BYTES, len, next);
      var r := ReadEntries(bytes, pos + INT_BYTES, len, next);
      assert ReadEntries(bytes, pos, len, acc) == r;
      assert r.value[..|acc|] == r.value[..|next|][..|acc|];
      forall i | 0 <= i < n
        ensures r.value[|acc| + i] == GetInt(bytes[pos + INT_BYTES * i..])
      {
        if i == 0 {
          assert r.value[|acc|] == r.value[..|next|][|acc|];
        } else {
          assert r.value[|next| + (i - 1)] == GetInt(bytes[pos + INT_BYTES + INT_BYTES * (i - 1)..]);
          assert pos + INT_BYTES + INT_BYTES * (i - 1) == pos + INT_BYTES * i;
        }
      }
    } else {
      assert acc[..|acc|] == acc;
    }
  }

  /** Reading one group leaves one group fewer to read. */
  lemma EntryCountStep(pos: int, len: int)
    requires pos < len
    ensures EntryCount(pos, len) >= 1
    ensures EntryCount(pos + INT_BYTES, len) == EntryCount(pos, len) - 1
  {
    assert INT_BYTES == 4;
  }

  /**
    In the sender's 509-byte receive array every datagram decodes: a datagram of
    9 + 4k bytes yields exactly k entries, in wire order, and one of at most 9 bytes
    yields none.
   */
  lemma ReportEntriesFromReceiveArray(bytes: seq<Byte>, len: int)
    requires |bytes| == TAMANHO_MAX && 0 <= len <= |bytes|
    ensures var r := DecodeReport(bytes, len);
      && r.Ok?
      && |r.value.pacotesPerdidos| == EntryCount(CABECALHO, len)
      && (len <= CABECALHO ==> r.value.pacotesPerdidos == [])
      && ((len - CABECALHO) % INT_BYTES == 0 ==> |r.value.pacotesPerdidos| * INT_BYTES == len - CABECALHO || len < CABECALHO)
      && forall i :: 0 <= i < |r.value.pacotesPerdidos| ==>
           r.value.pacotesPerdidos[i] == GetInt(bytes[CABECALHO + INT_BYTES * i..])
  {
    ReadEntriesShape(bytes, CABECALHO, len, []);
  }

  /** Reading back ints that were written one after the other. */
  lemma {:induction false} ReadPutInts(prefix: seq<Byte>, entries: seq<int>, acc: seq<int>)
    requires forall i :: 0 <= i < |entries| ==> IsInt32(entries[i])
    ensures ReadEntries(prefix + PutInts(entries), |prefix|, |prefix| + INT_BYTES * |entries|, acc) == Ok(acc + entries)
    decreases |entries|
  {
    if entries != [] {
      var x, rest := entries[0], entries[1..];
      var next := prefix + PutInt(x);
      ReadFirstPutInt(prefix, entries, acc);
      ReadPutInts(next, rest, acc + [x]);
      assert acc + [x] + rest == acc + entries;
    } else {
      assert acc + entries == acc;
    }
  }

  /** Reading the first of the ints written after `prefix` leaves the others to read. */
  lemma ReadFirstPutInt(prefix: seq<Byte>, entries: seq<int>, acc: seq<int>)
    requires entries != [] && IsInt32(entries[0])
    ensures var next := prefix + PutInt(entries[0]);
      && prefix + PutInts(entries) == next + PutInts(entries[1..])
      && ReadEntries(prefix + PutInts(entries), |prefix|, |prefix| + INT_BYTES * |entries|, acc)
         == ReadEntries(next + PutInts(entries[1..]), |next|, |next| + INT_BYTES * |entries[1..]|, acc + [entries[0]])
  {
    var x, rest := entries[0], entries[1..];
    var next := prefix + PutInt(x);
    var bytes := next + PutInts(rest);
    assert prefix + PutInts(entries) == bytes;
    GetIntAt(prefix, x, PutInts(rest));
    ReadOneEntry(bytes, |prefix|, |next| + INT_BYTES * |rest|, acc);
  }

  /** One turn of the decoder's loop: the int at `pos` joins the entries. */
  lemma ReadOneEntry(bytes: seq<Byte>, pos: nat, len: int, acc: seq<int>)
    requires pos < len && pos + INT_BYTES <= |bytes|
    ensures ReadEntries(bytes, pos, len, acc) == ReadEntries(bytes, pos + INT_BYTES, len, acc + [GetInt(bytes[pos..])])
  {
  }

  /** The header of a report reads back as the id and last ordered number it was written with. */
  lemma ReportHeader(idConexao: int, ultimoPacoteOrdenado: int, rest: seq<Byte>)
    ensures var bytes := [GetByte(Flag.Relatorio)] + PutInt(idConexao) + PutInt(ultimoPacoteOrdenado) + rest;
      && GetInt(bytes[1..]) == Wrap32(idConexao)
      && GetInt(bytes[1 + INT_BYTES..]) == Wrap32(ultimoPacoteOrdenado)
  {
    var t := [GetByte(Flag.Relatorio)];
    var bytes := t + PutInt(idConexao) + PutInt(ultimoPacoteOrdenado) + rest;
    GetIntAt(t, idConexao, PutInt(ultimoPacoteOrdenado) + rest);
    assert t + PutInt(idConexao) + (PutInt(ultimoPacoteOrdenado) + rest) == bytes;
    GetIntAt(t + PutInt(idConexao), ultimoPacoteOrdenado, rest);
  }

  /**
    Round trip with the receiver's encoder: a report decodes to the same connection
    id and last ordered number (as Java ints) and the same entries in the same order.
   */
  lemma ReportRoundTrip(idConexao: int, ultimoPacoteOrdenado: int, entries: seq<int>)
    requires forall i :: 0 <= i < |entries| ==> IsInt32(entries[i])
    ensures var bytes := EncodeReport(idConexao, ultimoPacoteOrdenado, entries);
      DecodeReport(bytes, |bytes|)
        == Ok(ReportFields(GetByte(Flag.Relatorio), Wrap32(idConexao), Wrap32(ultimoPacoteOrdenado), entries))
  {
    var header := [GetByte(Flag.Relatorio)] + PutInt(idConexao) + PutInt(ultimoPacoteOrdenado);
    var bytes := EncodeReport(idConexao, ultimoPacoteOrdenado, entries);
    assert |header| == CABECALHO;
    assert bytes == header + PutInts(entries);
    ReadPutInts(header, entries, []);
    assert [] + entries == entries;
    assert |bytes| == |header| + INT_BYTES * |entries|;
    assert ReadEntries(bytes, CABECALHO, |bytes|, []) == Ok(entries);
    ReportHeader(idConexao, ultimoPacoteOrdenado, PutInts(entries));
  }

  class Relatorio {
    const HOSTNAME: Host
    const PORTA: int
    var tamanho: int
    var flag: Byte
    var idConexao: int
    var ultimoPacoteOrdenado: int
    var pacotesPerdidos: seq<int>

    constructor(hostname: Host, porta: int)
      ensures HOSTNAME == hostname && PORTA == porta
      ensures flag == GetByte(Flag.Relatorio)
      ensures tamanho == 0 && idConexao == 0 && ultimoPacoteOrdenado == 0 && pacotesPerdidos == []
    {
      HOSTNAME, PORTA := hostname, porta;
      flag := GetByte(Flag.Relatorio);
      tamanho, idConexao, ultimoPacoteOrdenado, pacotesPerdidos := 0, 0, 0, [];
    }

    /**
      `set(byte[], int)`: overwrites the header fields, then reads entries while the
      position is short of `len`. `ok` is false when a read runs past the array.
     */
    method Set(bytes: seq<Byte>, len: int) returns (ok: bool)
      requires CABECALHO <= |bytes| && 0 <= len <= |bytes|
      modifies this
      ensures ok == DecodeReport(bytes, len).Ok?
      ensures ok ==> ReportFields(flag, idConexao, ultimoPacoteOrdenado, pacotesPerdidos) == DecodeReport(bytes, len).value
      ensures tamanho == old(tamanho)
    {
      flag := bytes[0];
      idConexao := GetInt(bytes[1..]);
      ultimoPacoteOrdenado := GetInt(bytes[1 + INT_BYTES..]);
      pacotesPerdidos := [];
      var position := CABECALHO;
      while position < len
        invariant CABECALHO <= position
        invariant tamanho == old(tamanho) && flag == bytes[0]
        invariant idConexao == GetInt(bytes[1..]) && ultimoPacoteOrdenado == GetInt(bytes[1 + INT_BYTES..])
        invariant ReadEntries(bytes, CABECALHO, len, []) == ReadEntries(bytes, position, len, pacotesPerdidos)
        decreases len - position
      {
        if position + INT_BYTES > |bytes| {
          assert ReadEntries(bytes, position, len, pacotesPerdidos) == Err(BufferUnderflow);
          return false;
        }
        pacotesPerdidos := pacotesPerdidos + [GetInt(bytes[position..])];
        position := position + INT_BYTES;
      }
      assert ReadEntries(bytes, position, len, pacotesPerdidos) == Ok(pacotesPerdidos);
      ok := true;
    }
  }
}
