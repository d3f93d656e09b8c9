# lstreamer in Dafny

lstreamer sends a file over UDP from a sender (`Transmissor`) to a receiver
(`Receptor`). Every datagram starts with a one-byte tag (`Flag`). The tag is
followed by big-endian 32-bit two's-complement ints and then raw bytes. There
are five kinds of datagram:

- ConnectionRequest (`SolicitarConexao`): the file name and the number of windows.
- ConnectionAccept (`AceitarConexao`): the connection id and the expected packet count.
- Data (`Dados`): the connection id, the sequence number and a chunk of at most 500 bytes.
- Report (`Relatorio`): the connection id, the receiver's last ordered number and a list of sequence numbers.
- ConnectionEnd (`EncerrarConexao`): the connection id.

The receiver places each Data packet in a window (`Buffer`) of 500 slots. The
window is keyed by `seq - seq % 500`. A housekeeping pass then does three things:

- It writes the window due next to the file once that window is full, and sends a "window complete" report `[-1]`.
- For a timed-out window, it reports the slots still missing.
- It closes the connection once its flush pointer passes the packet total.

The sender keeps a bounded queue of Data packets read from the file, with
consecutive sequence numbers. It trims the front of the queue as the receiver's
last ordered number advances. Lost numbers that the receiver reports are queued
and resent by offset into the packet queue.

## How the model is organised

- **Codec.** The wire codec (`Flag`, `Pacote`, `Dados`, `AceitarConexao`,
  `SolicitarConexao`, `Relatorio`, `EncerrarConexao`) is a set of pure
  encode/decode functions with round-trip lemmas. Each message class keeps its
  Java fields, and its mutating `set` methods are proved against those functions.
  Bytes are the unsigned values 0..255 of Java's signed bytes. Java's `int`
  arithmetic is written out with `Wrap32` (and its `long` arithmetic with
  `Wrap64`), and its truncating `%` with `JavaRem`
  (module `JavaRuntime`).
- **Window.** `Buffer` is a class over an array of optional packets. Its methods
  are proved against the value functions `Place`, `Removed`, `Missing` and
  `Rearm`. The clock is a `now` parameter.
- **Receiver.** `Receptor` is a class. Its bookkeeping is proved against the
  functions of `ReceptorSpec`:
  - `Ingest` routes one Data packet.
  - `Step`, `Steps` and `Iteration` make up one housekeeping pass.
  - `Close` ends the connection.

  The datagrams it sends are an appended log (`enviados`). The file it writes is
  a byte sequence (`saida`). Report chunking is in `ReceptorRelatorio`. The temp
  file name, the rename and the percentage are in `ReceptorArquivo`.
- **Sender.** `Transmissor` is a class. Its queue operations are proved against
  the functions of `TransmissorSpec`:
  - `Preencher` fills the queue.
  - `Atualizar` trims it against the last ordered number.
  - `ReenviarUm` and `ReenviarTodos` resend lost packets.
  - `ReceberResposta` handles one reply.

  The file is a sequence of chunks of 1 to 500 bytes.

## Proved end-to-end properties

The invariants connect the two sides of the transfer.

- **Receiver.** If every Data packet the receiver accepts carries the chunk its
  sequence number names (`Honest`), every pass keeps `FileInv`. This invariant
  says the file written so far is exactly the chunks before the flush pointer.
  So the file is complete, in order, once the pointer reaches the total.
- **Sender.** The sender keeps `DoArquivo`: each queued packet carries the chunk
  of the file its number names. For files of fewer than 2^31 chunks, decoding
  any datagram it sends yields an honest packet.
- **Closing.** The receiver closes after flushing the last window only when the
  total is not a multiple of 500. When it is a multiple, the strict test
  `bufferASerGravado > quantidadeTotalDePacotes` never holds
  (`NeverClosesOnMultipleOf500`).

## Model

| member | source | states |
|---|---|---|
| Flag.GetByte | src/lstreamer/Flag.java:19-34 | each of the five kinds has a tag byte below 5 |
| Flag.FromByte | src/lstreamer/Flag.java:19-34 | a byte names a kind exactly when it is below 5, and then that kind's tag is the byte |
| Flag.GetByteInjective | src/lstreamer/Flag.java:20-24 | distinct kinds have distinct tags |
| Flag.FromGetByte | src/lstreamer/Flag.java:32-34 | a kind is recovered from its tag |
| Pacote.KindOf | src/lstreamer/Pacote.java:52-70 | the kind read from byte 0 matches each `isX` predicate in both directions; no kind when byte 0 is 5 or more |
| Pacote.KindsExclusive | src/lstreamer/Pacote.java:52-70 | at most one `isX` holds; none holds exactly when byte 0 is not a tag |
| Pacote.KindsDependOnByteZero | src/lstreamer/Pacote.java:52-70 | two datagrams with the same byte 0 are classified alike |
| JavaRuntime.Wrap32 | src/lstreamer/Transmissor.java:310 | the Java int result of an int product: in range, congruent modulo 2^32, unchanged when already in range |
| JavaRuntime.Wrap64 | src/lstreamer/Buffer.java:90 | the Java long result of a long sum: in range, congruent modulo 2^64, unchanged when already in range |
| JavaRuntime.CeilDiv | src/lstreamer/Receptor.java:475 | `Math.ceil` of an exact quotient: the least k with k × d >= n |
| JavaRuntime.JavaRem | src/lstreamer/Receptor.java:374 | Java's `%` by a positive divisor: magnitude below the divisor, equal to the mathematical remainder for non-negative operands, never positive for negative ones |
| JavaRuntime.GetPutInt | src/lstreamer/Dados.java:64-65 | `getInt` after `putInt` gives back the value as a Java int |
| JavaRuntime.PutGetInt | src/lstreamer/Dados.java:99-100 | `putInt` of what `getInt` read reproduces the four bytes |
| JavaRuntime.GetPutInt32 | src/lstreamer/Dados.java:64-65 | for a value in int range, `getInt` after `putInt` is the identity |
| Dados.EncodeData | src/lstreamer/Dados.java:59-71 | the datagram is 9 + chunk length bytes, starting with the flag and ending with the chunk |
| Dados.DecodeHeader | src/lstreamer/Dados.java:98-100 | flag is byte 0; id and sequence are Java ints read from bytes 1..8 |
| Dados.DecodeData | src/lstreamer/Dados.java:94-108 | decoding succeeds exactly when len >= 9 (otherwise a negative array size); the payload is bytes[9..len); tamanho is len, the full datagram length, and tamanho - 9 is the payload length |
| Dados.DataRoundTrip | src/lstreamer/Dados.java:59-71 | decoding the encoder's output gives the same flag, id, sequence (as Java ints) and chunk, with tamanho = chunk length + 9 |
| Dados.WrittenIsChunk | src/lstreamer/Dados.java:102-107 | the bytes the receiver writes for a decoded packet are exactly the datagram's payload |
| Dados.Dados.constructor | src/lstreamer/Dados.java:31-33 | peer stored, tag DADOS, every other field zero or empty |
| Dados.Dados.Get | src/lstreamer/Dados.java:59-71 | 9 + tamanho bytes: the stored flag, id and sequence big-endian, then the first tamanho payload bytes |
| Dados.Dados.Set | src/lstreamer/Dados.java:73-92 | stores id, sequence and tamanho = n and a copy of exactly data[0..n); the flag and peer are kept |
| Dados.Dados.SetFromBytes | src/lstreamer/Dados.java:94-108 | the header fields are assigned even when len < 9, which fails with the payload and tamanho unchanged; otherwise the fields equal `DecodeData` |
| AceitarConexao.EncodeAccept | src/lstreamer/AceitarConexao.java:50-65 | 9 bytes starting with the ACEITA_CONEXAO tag |
| AceitarConexao.DecodeAcceptHeader | src/lstreamer/AceitarConexao.java:71-73 | flag is byte 0; id and expected count are Java ints read from bytes 1..8 |
| AceitarConexao.DecodeAccept | src/lstreamer/AceitarConexao.java:67-80 | succeeds exactly when len >= 9; tamanho is len - 9 |
| AceitarConexao.AcceptRoundTrip | src/lstreamer/AceitarConexao.java:50-80 | decoding the encoder's output gives the same id and expected count, and tamanho 0 |
| AceitarConexao.AceitarConexao.constructor | src/lstreamer/AceitarConexao.java:30-32 | peer stored, tag ACEITA_CONEXAO, other fields zero |
| AceitarConexao.AceitarConexao.Set | src/lstreamer/AceitarConexao.java:50-65 | returns the encoding and records id, expected count and tamanho = 9 |
| AceitarConexao.AceitarConexao.SetFromBytes | src/lstreamer/AceitarConexao.java:67-80 | the header fields always come from bytes 0..8; tamanho = len - 9 when len >= 9, unchanged (failure) otherwise |
| SolicitarConexao.EncodeRequest | src/lstreamer/SolicitarConexao.java:50-66 | 5 + name length bytes: the SOLICITA_CONEXAO tag, then the window count, then the name with no length prefix |
| SolicitarConexao.DecodeRequest | src/lstreamer/SolicitarConexao.java:68-81 | succeeds exactly when len >= 5; the window count is from bytes 1..4, the name is bytes[5..len), tamanho is the name's length |
| SolicitarConexao.RequestRoundTrip | src/lstreamer/SolicitarConexao.java:50-81 | decoding the encoder's output gives the same window count (as a Java int) and name bytes |
| SolicitarConexao.SolicitarConexao.constructor | src/lstreamer/SolicitarConexao.java:30-32 | peer stored, tag SOLICITA_CONEXAO, other fields zero or empty |
| SolicitarConexao.SolicitarConexao.Set | src/lstreamer/SolicitarConexao.java:50-66 | returns the encoding and sets tamanho to the full datagram length; the name and window count fields are not changed |
| SolicitarConexao.SolicitarConexao.SetFromBytes | src/lstreamer/SolicitarConexao.java:68-81 | flag and window count always come from bytes 0..4; name and tamanho as `DecodeRequest` on success, unchanged on failure |
| EncerrarConexao.EncodeEnd | src/lstreamer/EncerrarConexao.java:41-54 | 5 bytes, recognised as ConnectionEnd, carrying the id as a Java int |
| EncerrarConexao.EncerrarConexao.constructor | src/lstreamer/EncerrarConexao.java:29-31 | peer stored, tag ENCERA_CONEXAO, other fields zero |
| EncerrarConexao.EncerrarConexao.Set | src/lstreamer/EncerrarConexao.java:41-54 | returns the encoding and records tamanho = 5 and the id |
| Relatorio.PutInts | src/lstreamer/Receptor.java:490-493 | four bytes per entry |
| Relatorio.PutIntsAppend | src/lstreamer/Receptor.java:490-493 | putting one more entry appends its four bytes |
| Relatorio.EncodeReport | src/lstreamer/Receptor.java:485-493 | 9 + 4k bytes starting with the RELATORIO tag |
| Relatorio.DecodeReport | src/lstreamer/Relatorio.java:56-69 | flag, id and last ordered number from bytes 0..8 |
| Relatorio.ReadEntriesShape | src/lstreamer/Relatorio.java:64-68 | within the array, the loop reads ceil((len - 9) / 4) ints, entry i from offset 9 + 4i |
| Relatorio.ReportEntriesFromReceiveArray | src/lstreamer/Relatorio.java:56-69 | in the sender's 509-byte array decoding never fails; len <= 9 gives no entries; len = 9 + 4k gives exactly k, in wire order |
| Relatorio.ReadPutInts | src/lstreamer/Relatorio.java:64-68 | reading back ints written one after the other returns them in order |
| Relatorio.ReportHeader | src/lstreamer/Relatorio.java:60-62 | id and last ordered number read back from the report header |
| Relatorio.ReportRoundTrip | src/lstreamer/Relatorio.java:56-69 | decoding the receiver's report gives the same id, last ordered number and entries |
| Relatorio.Relatorio.constructor | src/lstreamer/Relatorio.java:32-34 | peer stored, tag RELATORIO, other fields zero or empty |
| Relatorio.Relatorio.Set | src/lstreamer/Relatorio.java:56-69 | the fields equal `DecodeReport` on success; tamanho is never set |
| Buffer.CountFilled | src/lstreamer/Buffer.java:97-120 | the number of occupied slots is at most the number of slots |
| Buffer.CountFilledUpdate | src/lstreamer/Buffer.java:117-118 | filling an empty slot adds one to the occupied count; clearing a full one removes one |
| Buffer.CountFilledAll | src/lstreamer/Buffer.java:97-99 | every slot is occupied exactly when the occupied count is the slot count |
| Buffer.MissingLength | src/lstreamer/Buffer.java:71-80 | the missing list has one entry per empty slot |
| Buffer.MissingMembers | src/lstreamer/Buffer.java:71-80 | x is listed exactly when it is key + i for an empty slot i |
| Buffer.MissingInWindow | src/lstreamer/Buffer.java:71-80 | each listed number names an empty slot of the window |
| Buffer.MissingAscending | src/lstreamer/Buffer.java:71-80 | the list is strictly ascending |
| Buffer.NewBufferIsEmpty | src/lstreamer/Buffer.java:36-45 | a new window has max(tamanho, 0) slots, all empty, count 0, and timeout length 3000 |
| Buffer.CountFilledNone | src/lstreamer/Buffer.java:42-44 | no occupied slot means an occupied count of 0 |
| Buffer.PlaceSucceedsIffFree | src/lstreamer/Buffer.java:101-108 | `set` succeeds exactly when the index is inside the capacity and the slot is empty; a rejection changes nothing |
| Buffer.PlaceKeepsConsistent | src/lstreamer/Buffer.java:110-120 | a success stores the packet, adds one to the count and leaves the other slots alone; the count stays the number of occupied slots, within the capacity |
| Buffer.PlaceArmsOnlyFirst | src/lstreamer/Buffer.java:110-115 | only a placement made with count 0 arms the deadline (now + timeout length as a wrapped Java long) and records the peer and connection id |
| Buffer.RearmDeadline | src/lstreamer/Buffer.java:89-95 | while now + timeout length fits a long the deadline is that sum, ahead of now for a positive length; when the sum overflows the window is timed out as soon as it is rearmed |
| Buffer.FullIffAllFilled | src/lstreamer/Buffer.java:97-99 | `isCheio` holds exactly when every slot is occupied |
| Buffer.MissingMatchesCount | src/lstreamer/Buffer.java:71-80 | the missing list has capacity - count entries |
| Buffer.RemoveOccupiedKeepsConsistent | src/lstreamer/Buffer.java:123-132 | clearing an occupied slot keeps the count equal to the occupied slots |
| Buffer.RemoveEmptyBreaksConsistency | src/lstreamer/Buffer.java:123-132 | clearing an empty slot still decrements the count, which then disagrees with the slots |
| Buffer.Buffer.constructor | src/lstreamer/Buffer.java:36-45 | a fresh slot array equal to the new-window value |
| Buffer.Buffer.GetPacotesPerdidos | src/lstreamer/Buffer.java:71-80 | returns the missing list of the window's slots, and changes nothing |
| Buffer.Buffer.SetTimeout | src/lstreamer/Buffer.java:82-87 | a negative length is ignored; otherwise it becomes the timeout length |
| Buffer.Buffer.IniciarTimeout | src/lstreamer/Buffer.java:89-91 | deadline = now + timeout length wrapped to a Java long, nothing else changes |
| Buffer.Buffer.IsTimeoutedAt | src/lstreamer/Buffer.java:93-95 | holds exactly when deadline <= now |
| Buffer.Buffer.IsCheioNow | src/lstreamer/Buffer.java:97-99 | holds exactly when count = capacity |
| Buffer.Buffer.Set | src/lstreamer/Buffer.java:101-121 | the object moves as `Place` says and returns its verdict; the counter invariant is kept |
| Buffer.Buffer.Remove | src/lstreamer/Buffer.java:123-132 | false on a window of no slots; an index error outside the slots; otherwise the slot is cleared and the count decremented with no check |
| ReceptorArquivo.TrimStartShape | src/lstreamer/Receptor.java:408 | leading trim drops exactly a prefix of characters up to U+0020 |
| ReceptorArquivo.TrimEndShape | src/lstreamer/Receptor.java:408 | trailing trim drops exactly a suffix of characters up to U+0020 |
| ReceptorArquivo.TrimShape | src/lstreamer/Receptor.java:408 | `trim()` keeps a contiguous piece that neither starts nor ends with such a character, everything around it being such characters |
| ReceptorArquivo.RenameUndoesTempName | src/lstreamer/Receptor.java:503-510 | the temp file is renamed to trimmed directory + trimmed name exactly when that is non-empty and has no line terminator |
| ReceptorArquivo.NovoNomeStripsSuffix | src/lstreamer/Receptor.java:503-510 | a renamed path is the old one minus its last five characters ".temp", with at least one character left |
| ReceptorArquivo.PorcentagemBounds | src/lstreamer/Receptor.java:132-142 | 0 while the total is 0; between 0 and 100 while the progress is within the total |
| ReceptorRelatorio.Chunked | src/lstreamer/Receptor.java:478-497 | k datagrams |
| ReceptorRelatorio.ChunkedAt | src/lstreamer/Receptor.java:478-494 | datagram i holds entries [min(n, 125i), min(n, 125(i+1))), so the list is cut in order |
| ReceptorRelatorio.ReportDatagramsAt | src/lstreamer/Receptor.java:474-501 | datagram i of `enviarRelatorio` holds the i-th group of 125 entries |
| ReceptorRelatorio.NoEntriesNoReport | src/lstreamer/Receptor.java:475-478 | an empty list sends nothing |
| ReceptorRelatorio.UpTo500EntriesOneReport | src/lstreamer/Receptor.java:475-494 | 1 to 500 entries give one datagram holding the first min(n, 125) of them |
| ReceptorRelatorio.LongListsAreCut | src/lstreamer/Receptor.java:475-481 | more than 125 entries never all fit in the datagrams sent for them |
| ReceptorRelatorio.EntrySent | src/lstreamer/Receptor.java:475-494 | an entry at position j below 125 ceil(n/500) is sent in datagram j / 125 |
| ReceptorSpec.Step | src/lstreamer/Receptor.java:419-454 | a pass step keeps every window's counter consistent and its packets writable |
| ReceptorSpec.Steps | src/lstreamer/Receptor.java:419-455 | the same for the pass over the map's iteration order |
| ReceptorSpec.EndDatagrams | src/lstreamer/Receptor.java:512-520 | `tentativasDaConexao` copies (none if not positive) of the ConnectionEnd datagram |
| ReceptorSpec.Ingest | src/lstreamer/Receptor.java:373-397 | routing a packet keeps every window's counter consistent |
| ReceptorSpec.PosicaoChave | src/lstreamer/Receptor.java:373-375 | the key is a multiple of 500; for seq >= 0 the slot is seq mod 500 and key <= seq < key + 500; for seq < 0 the slot is in (-500, 0] |
| ReceptorSpec.MultipleGap | src/lstreamer/Receptor.java:423 | distinct window keys lie at least 500 apart |
| ReceptorSpec.StepKeepsInv | src/lstreamer/Receptor.java:419-454 | a pass step keeps the window invariant (keys on the grid at or past the pointer, sizes from the total, slot i holding packet key + i) |
| ReceptorSpec.FlushKeepsInv | src/lstreamer/Receptor.java:423-440 | flushing leaves only windows past the new pointer |
| ReceptorSpec.RearmKeepsInv | src/lstreamer/Receptor.java:442-454 | rearming a timed-out window keeps the invariant |
| ReceptorSpec.StepsKeepInv | src/lstreamer/Receptor.java:419-455 | the pass keeps the invariant, whatever the iteration order |
| ReceptorSpec.IterationKeepsInv | src/lstreamer/Receptor.java:414-455 | close check and pass keep the invariant |
| ReceptorSpec.IngestKeepsInv | src/lstreamer/Receptor.java:373-397 | routing a writable packet keeps the invariant: it lands in the slot its number names |
| ReceptorSpec.NewWindowInv | src/lstreamer/Receptor.java:382-394 | a window created for a key not behind the pointer is empty, sized min(total - key, 500) |
| ReceptorSpec.PlaceKeepsWindowInv | src/lstreamer/Receptor.java:378-394 | placing the packet in its key's window and storing that window keeps the invariant |
| ReceptorSpec.FlushSendsCompletionReport | src/lstreamer/Receptor.java:423-440 | flushing appends the window's payloads, removes it, and sends the one report `[-1]` with the last ordered number from before the flush; then pointer and last ordered number both move 500 on |
| ReceptorSpec.TimeoutReportsMissing | src/lstreamer/Receptor.java:442-454 | a timed-out window not flushed reports, only when its key is below the int-wrapped pointer + 500 × reporting count, exactly its empty slots' numbers; its deadline is rearmed either way, as a wrapped long |
| ReceptorSpec.ReportRange | src/lstreamer/Receptor.java:445 | without overflow a window reports exactly when it is among the first `quantidadeDeBuffersEnviandoRelatorio` windows from the pointer; a count whose int product wraps to 0 or below (`Integer.MAX_VALUE` gives -500) silences every window |
| ReceptorSpec.PayloadsOfChunks | src/lstreamer/Receptor.java:426-430 | a window holding chunks key, key+1, ... writes exactly their concatenation |
| ReceptorSpec.FileInvInitially | src/lstreamer/Receptor.java:97-110 | the file invariant holds before any packet arrives |
| ReceptorSpec.PlaceKeepsChunks | src/lstreamer/Receptor.java:378-394 | placing an honest packet keeps the window holding its own chunks |
| ReceptorSpec.IngestKeepsFileInv | src/lstreamer/Receptor.java:373-397 | routing an honest packet keeps the file invariant |
| ReceptorSpec.ReplaceWindowKeepsFileInv | src/lstreamer/Receptor.java:378-394 | storing the updated window of an honest packet keeps the file invariant |
| ReceptorSpec.FlushKeepsFileInv | src/lstreamer/Receptor.java:423-440 | after a flush the file is still the chunks before the new pointer |
| ReceptorSpec.FullWindowWritesItsChunks | src/lstreamer/Receptor.java:426-430 | writing a full window extends the file by exactly that window's chunks |
| ReceptorSpec.StepKeepsFileInv | src/lstreamer/Receptor.java:419-454 | a pass step keeps the file invariant |
| ReceptorSpec.StepsKeepFileInv | src/lstreamer/Receptor.java:419-455 | the pass keeps the file invariant |
| ReceptorSpec.IterationKeepsFileInv | src/lstreamer/Receptor.java:414-455 | a whole iteration keeps the file invariant |
| ReceptorSpec.FileCompleteAtTotal | src/lstreamer/Receptor.java:415-440 | once the pointer reaches the total, the file is the whole source, in order |
| ReceptorSpec.NeverClosesOnMultipleOf500 | src/lstreamer/Receptor.java:415-417 | with a total that is a multiple of 500, the pointer never passes it and the close check never fires |
| ReceptorSpec.ClosesAfterLastWindow | src/lstreamer/Receptor.java:415-440 | otherwise flushing the last window leads to the close: receiving stops, the file is complete, last ordered = total, and the end datagrams were sent |
| Receptor.Receptor.constructor | src/lstreamer/Receptor.java:97-110 | 30 windows, 30 reporting windows, 5 attempts, pacing 7, timeout 3000, pointers 0, no windows, not receiving |
| Receptor.Receptor.SetQuantidadeBuffers | src/lstreamer/Receptor.java:159-165 | values below 1 are ignored |
| Receptor.Receptor.SetTimeout | src/lstreamer/Receptor.java:184-188 | negative values are ignored |
| Receptor.Receptor.SetTentativasDaConexao | src/lstreamer/Receptor.java:205-209 | values not positive are ignored |
| Receptor.Receptor.SetQuantidadeDeBuffersEnviandoRelatorio | src/lstreamer/Receptor.java:226-236 | only a positive value is taken: 0 assigns the parameter, so the field keeps its value |
| Receptor.Receptor.SetPacing | src/lstreamer/Receptor.java:255-259 | negative values are ignored |
| Receptor.Receptor.IniciarRecebimento | src/lstreamer/Receptor.java:280-282 | records directory and file name and starts receiving |
| Receptor.Receptor.NomeTemporario | src/lstreamer/Receptor.java:408 | the temp name renames back to trimmed directory + name exactly when that is non-empty and free of line terminators |
| Receptor.Receptor.RegistrarAceite | src/lstreamer/Receptor.java:351-358 | non-Accept replies are skipped; a short Accept fails; otherwise id and total come from the Accept header; nothing changes unless it succeeds |
| Receptor.Receptor.SetPacoteNoBuffer | src/lstreamer/Receptor.java:373-397 | the new state is `Ingest` of the old, and the invariant is kept |
| Receptor.Receptor.ReceberDatagrama | src/lstreamer/Receptor.java:303-316 | result and new state are `Receive`: non-Data and foreign-id datagrams are skipped, a short Data datagram is an error, anything else is ingested |
| Receptor.Receptor.EnviarRelatorio | src/lstreamer/Receptor.java:474-501 | appends exactly `ReportDatagrams` (ceil(n/500) datagrams of up to 125 entries) |
| Receptor.Receptor.MontarRelatorio | src/lstreamer/Receptor.java:485-494 | builds the report of the first `quantidadeDados` entries and returns the rest of the list |
| Receptor.Receptor.EncerrarConexao | src/lstreamer/Receptor.java:512-525 | the new state is `Close`: end datagrams appended, last ordered = total, receiving stopped |
| Receptor.Receptor.GravarBuffer | src/lstreamer/Receptor.java:423-440 | the new state is `Step` on a full window due next |
| Receptor.Receptor.Gravar | src/lstreamer/Receptor.java:427-430 | appends the payloads of the slots, in slot order |
| Receptor.Receptor.TratarTimeout | src/lstreamer/Receptor.java:442-454 | the new state is `Step` on a timed-out window, with the reporting test computed in Java int arithmetic |
| Receptor.Receptor.EnviarRespostasIteracao | src/lstreamer/Receptor.java:414-455 | the new state is `Iteration`: close check, then one step per key in the given order |
| TransmissorSpec.Chunks | src/lstreamer/Transmissor.java:321-326 | the file read 500 bytes at a time gives chunks of 1 to 500 bytes |
| TransmissorSpec.ChunksCoverFile | src/lstreamer/Transmissor.java:321-326 | there are ceil(length / 500) chunks (`CeilDiv`, which matches the announced count only for files of at most 2^24 bytes), and together they are the file |
| TransmissorSpec.AcceptAnnouncesChunks | src/lstreamer/Transmissor.java:279-284 | the receiver decodes from the Accept the id and exactly the number of chunks the sender will send |
| TransmissorSpec.Datagrama | src/lstreamer/Dados.java:59-71 | 9 + tamanho bytes |
| TransmissorSpec.Repeat | src/lstreamer/Transmissor.java:400-402 | n copies of the datagram, none when n <= 0 |
| TransmissorSpec.AddPacoteKeepsInv | src/lstreamer/Transmissor.java:427-431 | appending the next-numbered packet keeps the counter equal to the queue length and the numbers consecutive |
| TransmissorSpec.RemovePacoteKeepsInv | src/lstreamer/Transmissor.java:433-438 | removing keeps the invariant; an empty queue is left alone |
| TransmissorSpec.Novos | src/lstreamer/Transmissor.java:321-333 | k packets |
| TransmissorSpec.LidoStep | src/lstreamer/Transmissor.java:321-333 | one turn of the fill loop advances its closed form by one index |
| TransmissorSpec.LeituraShape | src/lstreamer/Transmissor.java:321-333 | the fill loop equals its closed form |
| TransmissorSpec.LeituraAdvances | src/lstreamer/Transmissor.java:321-333 | one turn, field by field, continues the loop and keeps the invariant |
| TransmissorSpec.LidoAppends | src/lstreamer/Transmissor.java:321-333 | the loop appends packets for the next min(bound - i, chunks left) chunks, numbered consecutively |
| TransmissorSpec.LidoKeepsInv | src/lstreamer/Transmissor.java:314-335 | filling from the counter keeps the queue invariant |
| TransmissorSpec.PreencherAppends | src/lstreamer/Transmissor.java:314-335 | nothing after end-of-file; otherwise appends the next k = min(bound - count, chunks left) packets and sets end-of-file exactly when the chunks ran out first |
| TransmissorSpec.RemoveNShape | src/lstreamer/Transmissor.java:408-410 | n removals drop min(length, max(n, 0)) packets from the front |
| TransmissorSpec.Atualizar | src/lstreamer/Transmissor.java:407-413 | fails (index out of bounds) exactly on an empty queue |
| TransmissorSpec.TrimKeepsFromLastOrdered | src/lstreamer/Transmissor.java:408-410 | with consecutive numbers the trim removes exactly the packets below the last ordered number |
| TransmissorSpec.AtualizarKeepsInv | src/lstreamer/Transmissor.java:407-413 | the refresh keeps the invariant, and every packet kept from before is numbered at least the last ordered number |
| TransmissorSpec.ReenvioSendsTheLostPacket | src/lstreamer/Transmissor.java:392-405 | a lost number inside the queue resends the packet carrying it, numeroDeReenvios times; one outside resends nothing |
| TransmissorSpec.EsvaziarShape | src/lstreamer/Transmissor.java:383-385 | draining resends for every lost number in order, then empties the lost queue |
| TransmissorSpec.ReenviarTodosEmpties | src/lstreamer/Transmissor.java:382-390 | the lost queue ends empty; the flag is cleared unless the refresh failed, which happens exactly on an empty queue; the invariant is kept |
| TransmissorSpec.EndStopsSending | src/lstreamer/Transmissor.java:349-352 | a ConnectionEnd reply only stops sending |
| TransmissorSpec.ReportHandling | src/lstreamer/Transmissor.java:354-365 | the last ordered number only rises to a higher reported value; entries are appended and the flag set only when the first entry is not -1; a report with no entries ends the listener |
| TransmissorSpec.DoArquivoInitially | src/lstreamer/Transmissor.java:217-218 | with an empty queue and every chunk unread, the queue is tied to the file |
| TransmissorSpec.PreencherKeepsFile | src/lstreamer/Transmissor.java:314-335 | filling keeps each packet carrying the chunk its number names |
| TransmissorSpec.LidoKeepsFile | src/lstreamer/Transmissor.java:321-333 | the fill loop reads the chunks that follow the queue |
| TransmissorSpec.AtualizarKeepsFile | src/lstreamer/Transmissor.java:407-413 | refreshing keeps the queue tied to the file |
| TransmissorSpec.DoArquivoFrame | src/lstreamer/Transmissor.java:349-366 | the file link depends only on the queue, the read position and the connection fields |
| TransmissorSpec.ReceberRespostaKeepsFile | src/lstreamer/Transmissor.java:349-366 | a reply keeps the queue tied to the file |
| TransmissorSpec.ReenviarTodosKeepsFile | src/lstreamer/Transmissor.java:382-390 | resending keeps the queue tied to the file |
| TransmissorSpec.SentPacketIsHonest | src/lstreamer/Transmissor.java:236 | decoding any sent datagram in the receiver's array gives a packet carrying the chunk its number names |
| Transmissor.Transmissor.constructor | src/lstreamer/Transmissor.java:106-121 | sequence 0, pacing 7, 1 resend, 5 attempts, last ordered -1, empty queues, flags false |
| Transmissor.Transmissor.SetPacing | src/lstreamer/Transmissor.java:140-144 | negative values are ignored |
| Transmissor.Transmissor.SetNumeroDeReenviosEmPacotesPerdidos | src/lstreamer/Transmissor.java:163-167 | values not positive are ignored |
| Transmissor.Transmissor.SetTentativasDaConexao | src/lstreamer/Transmissor.java:184-188 | values not positive are ignored |
| Transmissor.Transmissor.SetConexao | src/lstreamer/Transmissor.java:302-312 | a name longer than 250 is refused with nothing changed; otherwise name recorded, bound = windows * 500 as a Java int, counter 0 |
| Transmissor.Transmissor.EnviarAceites | src/lstreamer/Transmissor.java:279-287 | `tentativasDaConexao` Accepts carrying the id and ceil(length / 500) |
| Transmissor.Transmissor.AbrirArquivo | src/lstreamer/Transmissor.java:217 | the unread chunks are the file's 500-byte chunks |
| Transmissor.Transmissor.Ler | src/lstreamer/Transmissor.java:322 | -1 at the end; otherwise the next chunk is copied to the front of the array and its length returned |
| Transmissor.Transmissor.AddPacote | src/lstreamer/Transmissor.java:427-431 | the new state is `AddPacote`: appended, counted, next sequence + 1 |
| Transmissor.Transmissor.RemovePacote | src/lstreamer/Transmissor.java:433-438 | the new state is `RemovePacote`: head dropped and uncounted, nothing on an empty queue |
| Transmissor.Transmissor.CriarPacote | src/lstreamer/Transmissor.java:329-330 | the Data packet for the bytes read, numbered with the next sequence number |
| Transmissor.Transmissor.PreencherListaPacotes | src/lstreamer/Transmissor.java:314-335 | the new state is `Preencher` of the old; the invariant is kept |
| Transmissor.Transmissor.AtualizarListaDePacotes | src/lstreamer/Transmissor.java:407-413 | the new state is `Atualizar`; on an empty queue it fails and nothing changes |
| Transmissor.Transmissor.AddPacotePerdido | src/lstreamer/Transmissor.java:423-425 | the number is appended to the lost queue |
| Transmissor.Transmissor.AtualizarListaDePacotesPerdidos | src/lstreamer/Transmissor.java:415-421 | the list is appended in order |
| Transmissor.Transmissor.ReenviarPacotePerdido | src/lstreamer/Transmissor.java:392-405 | the new state is `ReenviarUm`: head of the lost queue removed, its packet resent if queued |
| Transmissor.Transmissor.ReenviarPacotesPerdidos | src/lstreamer/Transmissor.java:382-390 | state and failure are `ReenviarTodos` |
| Transmissor.Transmissor.ReceberResposta | src/lstreamer/Transmissor.java:347-366 | state and failure are `ReceberResposta` on the reply |

## Left out

- Sockets, sending and receiving are not modelled. Sent datagrams are appended to a log (`enviados`), and a received datagram is a parameter (its bytes, length and peer).
- `InetAddress` resolution is not modelled. A peer is an integer identity, and the sender's initially null `hostnameReceptor` is 0.
- Threads, `synchronized` and `volatile` are not modelled. Each operation, one housekeeping pass and one reply are sequential steps.
- The iteration order of the `ConcurrentHashMap` is a parameter of the pass, so a window added during a pass is not modelled.
- `TimeUnit.sleep` pacing is left out, because it has no effect on state.
- `System.currentTimeMillis` is the parameter `now`.
- `ReceptorSpec.Steps`, `ReceptorSpec.Iteration`, `ReceptorSpec.Step` and `Receptor.Receptor.EnviarRespostasIteracao` take one clock reading for a whole housekeeping pass. Java reads the clock again for every `isTimeouted` (Buffer.java:94) and every `iniciarTimeout` (Buffer.java:90) inside the loop of Receptor.java:419-454. So the model tests and rearms a window at the same instant, and every window of a pass sees that instant. A deadline the source sets a few milliseconds later is set earlier here, and a later pass can report a window the source would not yet report. `Receptor.Receptor.TratarTimeout` likewise tests and rearms at one `now`.
- The sender's connection id, a hash of the clock, is a constructor parameter.
- The handshake retry loops of both `criarConexao` methods are left out, because they are driven by blocking receives and timeouts. One accept reply (`RegistrarAceite`) and the accept burst (`EnviarAceites`) are modelled.
- The sender's transmit loop in `enviar` is left out, because it is a timing loop. Its gate `ultimoPacoteNaLista < ultimoPacoteOrdenado` is always true. What it sends for each queued packet is `Datagrama`.
- File streams are abstracted. The source file is a sequence of chunks of 1 to 500 bytes, and `AbrirArquivo` fixes them to full 500-byte reads. The output file is a byte sequence. `File.length` is the content's length, and `File.renameTo` is reduced to the name computation.
- `ReceptorArquivo.PorcentagemBounds`: the percentage is a real number, not a 32-bit float. Float rounding is not modelled.
- `Math.ceil` over a double quotient (Receptor.java:475) is integer ceiling division (`CeilDiv`). The double division of an int by 500 is close enough for the ceiling to be exact.
- `TransmissorSpec.PacotesPrevistos`: the float32 ceiling of Transmissor.java:279 is modelled as exact integer ceiling division. The two agree only for files of at most 2^24 bytes. Above that the float quotient can round down to an integer, and Java announces one packet fewer (20,000,001 bytes: 40000 in Java, 40001 here).
- `TransmissorSpec.AcceptAnnouncesChunks`: holds of the source only for files of at most 2^24 bytes, because it is stated of `PacotesPrevistos`. Above that Java can announce one chunk fewer than it sends, and the last chunk is never written.
- `Transmissor.Transmissor.EnviarAceites`: announces `PacotesPrevistos`, so it matches the source only for files of at most 2^24 bytes.
- `String.getBytes` and `new String` under the platform charset are not modelled. The requested file name is a byte sequence, and its length limit counts bytes, not chars.
- The receiver's windows (`ReceptorSpec.RxState.buffers`) and the sender's queue hold packet values, not references to `Buffer` and `Dados` objects. Aliasing of those objects is not captured. None of them is changed after it is stored, except through the map.
- `Transmissor.Transmissor.RemovePacote`: only index 0 is modelled, the only index the sender uses.
- Sequence numbers and counters are unbounded integers. The 32-bit wrap of `sequencia++` and of the loop counters is not modelled. The wrap is applied where a value crosses the wire, where it comes from a Java `int` product (the queue bound, the reporting range of Receptor.java:445), and to the `long` deadline sum of Buffer.java:90.
- Exceptions that end a thread become `Result`/`Option` faults: a negative array size, a buffer underflow, an index out of bounds. What happens afterwards (a dead listener thread) is not modelled.
- The `Transmissor()` and `Transmissor(repositorio)` overloads only supply defaults to the modelled constructor (port 49500). The `Receptor(hostname)` overload is left out for the same reason.
- Console and log output are left out.
- The inner loop of `enviarRelatorio` is the separate method `MontarRelatorio`, and the write loop of the flush is the separate method `Gravar`. These are modelled as written, in their own methods.
- `TransmissorSpec.ReenvioSendsTheLostPacket` assumes the offset `lost - first` fits a Java int. Otherwise the Java difference wraps, which `ReenvioDe` models but this lemma does not describe.
