/**
  A receive window: a fixed number of write-once slots for consecutive Data
  packets, a count of placed packets, a deadline after which the receiver reports
  what is missing, and the peer and connection id captured from the first packet.
 */
module Buffer {
  import opened JavaRuntime
  import opened Pacote
  import opened Dados

  /** The timeout length a new window starts with, in milliseconds. */
  const TEMPO_PARA_TIMEOUT_PADRAO: int := 3000

  /** The observable state of a window. `deadline` is the absolute time its timer expires. */
  datatype BufferState = BufferState(
    capacity: int,
    slots: seq<Option<DataPacket>>,
    count: int,
    deadline: int,
    timeoutLength: int,
    idConexao: int,
    host: Option<Host>,
    port: int)

  /** The number of occupied slots. */
  function CountFilled(slots: seq<Option<DataPacket>>): (n: nat)
    ensures n <= |slots|
  {
    if slots == [] then 0
    else CountFilled(slots[..|slots| - 1]) + (if slots[|slots| - 1].Some? then 1 else 0)
  }

  /** The sequence numbers `key + i` of the empty slots `i`, as the receiver reports them. */
  function Missing(slots: seq<Option<DataPacket>>, key: int): seq<int> {
    if slots == [] then []
    else Missing(slots[..|slots| - 1], key) + (if slots[|slots| - 1].None? then [key + |slots| - 1] else [])
  }

  /** The window's slot list has one entry per unit of capacity (none for a non-positive capacity). */
  predicate WellFormed(v: BufferState) {
    |v.slots| == Max0(v.capacity)
  }

  /** The counter agrees with the slots: the invariant `set` keeps. */
  predicate Consistent(v: BufferState) {
    WellFormed(v) && v.count == CountFilled(v.slots)
  }

  /** A window built by `new Buffer(tamanho)`. */
  function NewBuffer(tamanho: int): BufferState {
    BufferState(tamanho, seq(Max0(tamanho), _ => None), 0, 0, TEMPO_PARA_TIMEOUT_PADRAO, 0, None, 0)
  }

  /** `setTimeout`: a negative length is ignored. */
  function WithTimeoutLength(v: BufferState, t: int): BufferState {
    if t < 0 then v else v.(timeoutLength := t)
  }

  /** `iniciarTimeout`: the deadline becomes `now` plus the timeout length, a Java `long` sum. */
  function Rearm(v: BufferState, now: int): BufferState {
    v.(deadline := Wrap64(now + v.timeoutLength))
  }

  predicate IsTimeouted(v: BufferState, now: int) {
    v.deadline <= now
  }

  /**
    While the `long` sum stays in range the new deadline is `now` plus the timeout
    length, still ahead for a positive length. A length so large that the sum
    overflows (`setTimeout(Long.MAX_VALUE)`, say) wraps the deadline negative, and
    the window is timed out the moment it is rearmed.
   */
  lemma {:induction false} RearmDeadline(v: BufferState, now: int)
    requires IsInt64(now) && now > 0 && IsInt64(v.timeoutLength) && v.timeoutLength >= 0
    ensures IsInt64(now + v.timeoutLength) ==> Rearm(v, now).deadline == now + v.timeoutLength
    ensures IsInt64(now + v.timeoutLength) && v.timeoutLength > 0 ==> !IsTimeouted(Rearm(v, now), now)
    ensures !IsInt64(now + v.timeoutLength) ==> IsTimeouted(Rearm(v, now), now)
  {
    var x := now + v.timeoutLength;
    if !IsInt64(x) {
      assert LONG_MAX < x < TWO_64;
      assert x % TWO_64 == x;
    }
  }

  predicate IsCheio(v: BufferState) {
    v.count == v.capacity
  }

  /**
    `set(index, pacote)`: rejected when the window is full, the index is outside it
    or the slot is taken; otherwise the packet is stored and counted, and the first
    placement also arms the deadline and records the packet's peer and connection id.
   */
  function Place(v: BufferState, index: int, p: DataPacket, now: int): (BufferState, bool)
    requires WellFormed(v)
  {
    if v.count >= v.capacity || index >= v.capacity || index < 0 then (v, false)
    else if v.slots[index].Some? then (v, false)
    else
      var armed := if v.count == 0
        then Rearm(v, now).(idConexao := p.idConexao, host := Some(p.host), port := p.porta)
        else v;
      (armed.(slots := v.slots[index := Some(p)], count := v.count + 1), true)
  }

  /**
    `remove(index)`: nothing happens on a window without slots; otherwise the slot
    is cleared and the counter decremented, whether or not the slot held a packet.
    An index outside the slot list throws before anything changes.
   */
  function Removed(v: BufferState, index: int): Result<(BufferState, bool)>
    requires WellFormed(v)
  {
    if |v.slots| == 0 then Ok((v, false))
    else if index < 0 || index >= |v.slots| then Err(IndexOutOfBounds)
    else Ok((v.(slots := v.slots[index := None], count := v.count - 1), true))
  }

  // ---------------------------------------------------------------------------
  // Counting and the missing list
  // ---------------------------------------------------------------------------

  /** Overwriting one slot changes the number of occupied slots by what left and what arrived. */
  lemma {:induction false} CountFilledUpdate(slots: seq<Option<DataPacket>>, i: int, x: Option<DataPacket>)
    requires 0 <= i < |slots|
    ensures CountFilled(slots[i := x])
         == CountFilled(slots) - (if slots[i].Some? then 1 else 0) + (if x.Some? then 1 else 0)
    decreases |slots|
  {
    var last := |slots| - 1;
    assert slots[i := x][..last] == if i == last then slots[..last] else slots[..last][i := x];
    if i < last {
      CountFilledUpdate(slots[..last], i, x);
    }
  }

  /** All slots are occupied exactly when the count of occupied slots is the number of slots. */
  lemma {:induction false} CountFilledAll(slots: seq<Option<DataPacket>>)
    ensures CountFilled(slots) == |slots| <==> forall i :: 0 <= i < |slots| ==> slots[i].Some?
    decreases |slots|
  {
    if slots != [] {
      var last := |slots| - 1;
      CountFilledAll(slots[..last]);
      if CountFilled(slots) == |slots| {
        forall i | 0 <= i < |slots| ensures slots[i].Some? {
          if i < last { assert slots[..last][i] == slots[i]; }
        }
      }
      if forall i :: 0 <= i < |slots| ==> slots[i].Some? {
        assert forall i :: 0 <= i < last ==> slots[..last][i].Some?;
      }
    }
  }

  /** The missing list has one entry per empty slot. */
  lemma {:induction false} MissingLength(slots: seq<Option<DataPacket>>, key: int)
    ensures |Missing(slots, key)| == |slots| - CountFilled(slots)
    decreases |slots|
  {
    if slots != [] {
      MissingLength(slots[..|slots| - 1], key);
    }
  }

  /** `x` is reported missing exactly when it falls in the window and its slot is empty. */
  lemma {:induction false} MissingMembers(slots: seq<Option<DataPacket>>, key: int, x: int)
    ensures x in Missing(slots, key) <==> key <= x < key + |slots| && slots[x - key].None?
    decreases |slots|
  {
    if slots != [] {
      var last := |slots| - 1;
      MissingMembers(slots[..last], key, x);
      if key <= x < key + last {
        assert slots[..last][x - key] == slots[x - key];
      }
    }
  }

  /** Every reported number lies inside the window. */
  lemma {:induction false} MissingInWindow(slots: seq<Option<DataPacket>>, key: int)
    ensures forall j :: 0 <= j < |Missing(slots, key)| ==>
      key <= Missing(slots, key)[j] < key + |slots|
    decreases |slots|
  {
    if slots != [] {
      MissingInWindow(slots[..|slots| - 1], key);
    }
  }

  /** The missing list is strictly ascending. */
  lemma {:induction false} MissingAscending(slots: seq<Option<DataPacket>>, key: int)
    ensures forall j, k :: 0 <= j < k < |Missing(slots, key)| ==>
      Missing(slots, key)[j] < Missing(slots, key)[k]
    decreases |slots|
  {
    if slots != [] {
      var last := |slots| - 1;
      MissingAscending(slots[..last], key);
      MissingInWindow(slots[..last], key);
    }
  }

  // ---------------------------------------------------------------------------
  // Window operations
  // ---------------------------------------------------------------------------

  /** A new window has `tamanho` empty slots, count 0 and the default timeout length. */
  lemma NewBufferIsEmpty(tamanho: int)
    ensures var v := NewBuffer(tamanho);
      && Consistent(v)
      && |v.slots| == Max0(tamanho)
      && (forall i :: 0 <= i < |v.slots| ==> v.slots[i] == None)
      && v.count == 0 && v.timeoutLength == TEMPO_PARA_TIMEOUT_PADRAO
  {
    var v := NewBuffer(tamanho);
    CountFilledAll(v.slots);
    MissingLength(v.slots, 0);
    CountFilledNone(v.slots);
  }

  lemma {:induction false} CountFilledNone(slots: seq<Option<DataPacket>>)
    requires forall i :: 0 <= i < |slots| ==> slots[i].None?
    ensures CountFilled(slots) == 0
    decreases |slots|
  {
    if slots != [] {
      var last := |slots| - 1;
      assert forall i :: 0 <= i < last ==> slots[..last][i].None?;
      CountFilledNone(slots[..last]);
    }
  }

  /**
    On a consistent window `set` succeeds exactly when the index is inside the
    window and its slot is empty; a rejection changes nothing.
   */
  lemma PlaceSucceedsIffFree(v: BufferState, index: int, p: DataPacket, now: int)
    requires Consistent(v)
    ensures var (w, ok) := Place(v, index, p, now);
      && (ok <==> 0 <= index < v.capacity && v.slots[index].None?)
      && (!ok ==> w == v)
  {
    if 0 <= index < v.capacity && v.slots[index].None? {
      CountFilledAll(v.slots);
    }
  }

  /**
    A successful `set` stores the packet in its slot, adds exactly one to the
    count, leaves the other slots alone, and keeps the count equal to the number of
    occupied slots and within the capacity.
   */
  lemma PlaceKeepsConsistent(v: BufferState, index: int, p: DataPacket, now: int)
    requires Consistent(v)
    ensures var (w, ok) := Place(v, index, p, now);
      && Consistent(w)
      && 0 <= w.count <= Max0(v.capacity)
      && w.capacity == v.capacity
      && (ok ==> w.slots[index] == Some(p) && w.count == v.count + 1)
      && (ok ==> forall i :: 0 <= i < |v.slots| && i != index ==> w.slots[i] == v.slots[i])
  {
    var (w, ok) := Place(v, index, p, now);
    if ok {
      CountFilledUpdate(v.slots, index, Some(p));
    }
  }

  /**
    Only the placement into an empty window arms the deadline and records the peer
    and connection id; later placements keep them.
   */
  lemma PlaceArmsOnlyFirst(v: BufferState, index: int, p: DataPacket, now: int)
    requires WellFormed(v)
    ensures var (w, ok) := Place(v, index, p, now);
      && (ok && v.count == 0 ==>
            w.deadline == Wrap64(now + v.timeoutLength) && w.idConexao == p.idConexao
            && w.host == Some(p.host) && w.port == p.porta)
      && (!ok || v.count != 0 ==>
            w.deadline == v.deadline && w.idConexao == v.idConexao
            && w.host == v.host && w.port == v.port)
      && w.timeoutLength == v.timeoutLength
  {
  }

  /** On a consistent window `isCheio` holds exactly when every slot is occupied. */
  lemma FullIffAllFilled(v: BufferState)
    requires Consistent(v) && v.capacity >= 0
    ensures IsCheio(v) <==> forall i :: 0 <= i < |v.slots| ==> v.slots[i].Some?
  {
    CountFilledAll(v.slots);
  }

  /** The report of a consistent window lists capacity - count numbers, one per empty slot. */
  lemma MissingMatchesCount(v: BufferState, key: int)
    requires Consistent(v)
    ensures |Missing(v.slots, key)| == Max0(v.capacity) - v.count
  {
    MissingLength(v.slots, key);
  }

  /** `remove` keeps the counter consistent when it clears an occupied slot. */
  lemma RemoveOccupiedKeepsConsistent(v: BufferState, index: int)
    requires Consistent(v) && 0 <= index < |v.slots| && v.slots[index].Some?
    ensures var r := Removed(v, index);
      r.Ok? && r.value.1 && Consistent(r.value.0) && r.value.0.count == v.count - 1
  {
    CountFilledUpdate(v.slots, index, None);
  }

  /** `remove` on an empty slot still decrements the counter, which then disagrees with the slots. */
  lemma RemoveEmptyBreaksConsistency(v: BufferState, index: int)
    requires Consistent(v) && 0 <= index < |v.slots| && v.slots[index].None?
    ensures var r := Removed(v, index);
      r.Ok? && r.value.1 && !Consistent(r.value.0) && r.value.0.count == CountFilled(r.value.0.slots) - 1
  {
    assert v.slots[index := None] == v.slots;
  }

  class Buffer {
    const TAMANHO: int
    const pacotes: array<Option<DataPacket>>
    var quantidadePacotesNaLista: int
    var timeout: int
    var tempoParaTimeout: int
    var idConexao: int
    var hostname: Option<Host>
    var porta: int

    predicate Valid()
      reads this
    {
      pacotes.Length == Max0(TAMANHO)
    }

    function View(): BufferState
      reads this, pacotes
    {
      BufferState(TAMANHO, pacotes[..], quantidadePacotesNaLista, timeout, tempoParaTimeout,
                  idConexao, hostname, porta)
    }

    /** `new Buffer(tamanho)`: one empty slot per unit of capacity, added one at a time. */
    constructor(tamanho: int)
      ensures Valid() && fresh(pacotes)
      ensures View() == NewBuffer(tamanho)
    {
      TAMANHO := tamanho;
      quantidadePacotesNaLista := 0;
      tempoParaTimeout := TEMPO_PARA_TIMEOUT_PADRAO;
      timeout, idConexao, hostname, porta := 0, 0, None, 0;
      var slots := new Option<DataPacket>[Max0(tamanho)];
      var i := 0;
      while i < slots.Length
        invariant 0 <= i <= slots.Length
        invariant forall j :: 0 <= j < i ==> slots[j] == None
      {
        slots[i] := None;
        i := i + 1;
      }
      pacotes := slots;
    }

    /** `getPacotesPerdidos(key)`: the numbers of the empty slots, scanned from the first. */
    method GetPacotesPerdidos(key: int) returns (r: seq<int>)
      ensures r == Missing(pacotes[..], key)
    {
      r := [];
      var i := 0;
      while i < pacotes.Length
        invariant 0 <= i <= pacotes.Length
        invariant r == Missing(pacotes[..i], key)
      {
        assert pacotes[..i + 1][..i] == pacotes[..i];
        if pacotes[i] == None {
          r := r + [key + i];
        }
        i := i + 1;
      }
      assert pacotes[..i] == pacotes[..];
    }

    method SetTimeout(t: int)
      modifies this
      ensures View() == WithTimeoutLength(old(View()), t)
    {
      if t < 0 {
        return;
      }
      tempoParaTimeout := t;
    }

    method IniciarTimeout(now: int)
      modifies this
      ensures View() == Rearm(old(View()), now)
    {
      timeout := Wrap64(now + tempoParaTimeout);
    }

    function IsTimeoutedAt(now: int): (r: bool)
      reads this, pacotes
      ensures r <==> IsTimeouted(View(), now)
    {
      timeout <= now
    }

    function IsCheioNow(): (r: bool)
      reads this, pacotes
      ensures r <==> IsCheio(View())
    {
      quantidadePacotesNaLista == TAMANHO
    }

    /** `set(index, pacote)` against its specification `Place`. */
    method Set(index: int, p: DataPacket, now: int) returns (ok: bool)
      requires Valid()
      modifies this, pacotes
      ensures Valid()
      ensures (View(), ok) == Place(old(View()), index, p, now)
    {
      if quantidadePacotesNaLista >= TAMANHO || index >= TAMANHO || index < 0 {
        return false;
      }
      if pacotes[index] != None {
        return false;
      }
      if quantidadePacotesNaLista == 0 {
        IniciarTimeout(now);
        hostname := Some(p.host);
        porta := p.porta;
        idConexao := p.idConexao;
      }
      pacotes[index] := Some(p);
      quantidadePacotesNaLista := quantidadePacotesNaLista + 1;
      ok := true;
    }

    /** `remove(index)` against its specification `Removed`. */
    method Remove(index: int) returns (r: Result<bool>)
      requires Valid()
      modifies this, pacotes
      ensures Valid()
      ensures var spec := Removed(old(View()), index);
        if spec.Err? then r == Err(spec.fault) && View() == old(View())
        else r == Ok(spec.value.1) && View() == spec.value.0
    {
      if pacotes.Length == 0 {
        return Ok(false);
      }
      if index < 0 || index >= pacotes.Length {
        return Err(IndexOutOfBounds);
      }
      pacotes[index] := None;
      quantidadePacotesNaLista := quantidadePacotesNaLista - 1;
      r := Ok(true);
    }
  }
}
