/** One request from the keyboard to the printed answer, for a client that is alone: through the
    ring, the server and the response cell. */
module Exchange {
  import opened Common
  import opened HashTables
  import opened Rings
  import opened Wire
  import opened Decimal
  import opened Server

  /** The end of `respond`: the response goes into the cell of the request's slot. */
  method Deliver(cell: Message, response: Message)
    requires cell.Valid() && response.Valid() && cell != response
    requires {cell.key, cell.data} !! {response.key, response.data}
    modifies cell`success, cell`ready, cell`clientId, cell.key, cell.data
    ensures cell.ready && cell.clientId == response.clientId && cell.success == response.success
    ensures cell.key[..] == response.key[..] && cell.data[..] == response.data[..]
  {
    CopyBytes(cell.key, response.key);
    CopyBytes(cell.data, response.data);
    cell.success := response.success;
    cell.ready := true;
    cell.clientId := response.clientId;
  }

  /** The end of `sendMsg`: the client copies the response and frees the cell. */
  method TakeResponse(cell: Message) returns (ret: Message)
    requires cell.Valid()
    modifies cell`ready, cell`clientId
    ensures fresh(ret) && fresh(ret.key) && fresh(ret.data) && ret.Valid()
    ensures ret.mode == RESPONSE && ret.success == cell.success
    ensures ret.key[..] == cell.key[..] && ret.data[..] == cell.data[..]
    ensures Free(cell)
  {
    ret := new Message(DEFAULT);
    ret.mode := RESPONSE;
    ret.success := cell.success;
    CopyBytes(ret.key, cell.key);
    CopyBytes(ret.data, cell.data);
    cell.ready := false;
    cell.clientId := 0;
  }

  ghost predicate Free(cell: Message)
    reads cell
  {
    !cell.ready && cell.clientId == 0
  }

  /** Nobody uses the ring, and there is a cell for every slot. */
  ghost predicate AtRest(ring: CircularBuffer<Message?>, cells: seq<Message>)
    reads ring, ring.buffer
  {
    ring.Valid() && ring.Contents == [] && |cells| == ring.buffer.Length && ring.tailIdx < |cells|
  }

  /** How a request ends: with an exception, without a response, with one, or with the exit of
      the server. A request without a response has a segment removed. */
  datatype Sent = Thrown | Unanswered(unlinked: Str) | Answered | ServerGone

  /** A request through the empty ring: out comes what went in, with the slot it was put in. */
  method ThroughRing(ring: CircularBuffer<Message?>, msg: Message) returns (got: Message, sentTo: nat, gotFrom: nat)
    requires ring.Valid() && ring.Contents == [] && ring.buffer.Length > 0
    modifies ring, ring.buffer
    ensures ring.Valid() && ring.Contents == [] && ring.buffer == old(ring.buffer)
    ensures got == msg && sentTo == gotFrom == old(ring.tailIdx)
  {
    DivModUnique(ring.headIdx, ring.buffer.Length, 0, ring.headIdx);
    var idx := ring.PushBack(msg);
    var elem := ring.Pop();
    return elem.value.0, idx, elem.value.1;
  }

  /** The request as the server gets it out of the ring. */
  method Request(ring: CircularBuffer<Message?>, mode: Mode, clientId: int, key: Str, value: Str)
    returns (ok: bool, got: Message, slot: nat)
    requires ring.Valid() && ring.Contents == [] && ring.buffer.Length > 0
    requires Wire.Fits(key, KEY) && Wire.Fits(value, VAL) && (mode != INSERT ==> value == [])
    modifies ring, ring.buffer
    ensures ring.Valid() && ring.Contents == [] && ring.buffer == old(ring.buffer)
    ensures fresh(got) && fresh(got.key) && fresh(got.data) && Terminated(got)
    ensures ok <==> mode != DEFAULT && mode != RESPONSE
    ensures got.mode == (if ok && mode != EXIT then mode else DEFAULT) && got.clientId == clientId
    ensures ok && mode != EXIT ==> Cut(got.key[..]) == key && Cut(got.data[..]) == value
    ensures slot == old(ring.tailIdx)
  {
    slot := ring.tailIdx;
    ok, got := Prepare(mode, clientId, key, value);
    if ok {
      var sentTo, gotFrom;
      got, sentTo, gotFrom := ThroughRing(ring, got);
      slot := gotFrom;
    }
  }

  /** A response through a free cell. */
  method ThroughCell(cell: Message, response: Message) returns (ret: Message)
    requires cell.Valid() && response.Valid() && cell != response
    requires {cell.key, cell.data} !! {response.key, response.data}
    modifies cell`success, cell`ready, cell`clientId, cell.key, cell.data
    ensures fresh(ret) && ret.Valid() && Free(cell)
    ensures ret.mode == RESPONSE && ret.success == response.success
    ensures ret.key[..] == response.key[..] && ret.data[..] == response.data[..]
  {
    Deliver(cell, response);
    ret := TakeResponse(cell);
  }

  /** What `sendMsg` returns when it got no response. */
  ghost predicate Blank(ret: Message)
    reads ret, ret.key, ret.data
  {
    ret.mode == DEFAULT && !ret.success && ret.key[..] == Zeros(KEY) && ret.data[..] == Zeros(VAL)
  }

  /** What the server does with a request, and what its client gets back. */
  method Served(table: HashTable<Str, Str>, cell: Message, msg: Message)
    returns (sent: Sent, ret: Message, shm: array<byte>)
    requires Terminated(msg) && table.IsValid() && AllFit(table.Map()) && Addressable(table.Value())
    requires -0x8000_0000 <= msg.clientId < 0x8000_0000
    requires cell.Valid() && cell != msg && {cell.key, cell.data} !! {msg.key, msg.data} && Free(cell)
    modifies table, table.storage, cell, cell.key, cell.data
    ensures table.IsValid() && AllFit(table.Map()) && ret.Valid() && Free(cell)
    ensures msg.mode == GET || !OnKey(msg.mode) ==>
      table.storage == old(table.storage) && table.Value() == old(table.Value())
    ensures sent ==
      if OnKey(msg.mode) || (msg.mode == READ_BUCKET && NumberIn(old(msg.key[..])).Some?) then Answered
      else if msg.mode == CLOSE_SHM then Unanswered(old(Cut(msg.key[..]))) else ServerGone
    ensures if sent == Answered then ret.mode == RESPONSE else Blank(ret)
    ensures OnKey(msg.mode) ==>
      && ret.key[..] == old(msg.key[..])
      && KeyAnswer(old(table.Map()), table.Map(), msg.mode, old(Cut(msg.key[..])), old(Cut(msg.data[..])),
                   ret.success, ret.data[..])
      && KeyEffect(table.hash, table.resizable, old(table.Value()), table.Value(),
                   msg.mode, old(Cut(msg.key[..])), old(Cut(msg.data[..])))
    ensures msg.mode == READ_BUCKET && sent == Answered ==>
      BucketAnswer(table.Value(), old(Cut(msg.key[..])), NumberIn(old(msg.key[..])).value, msg.clientId,
                   ret.success, ret.key[..], ret.data[..], shm[..])
  {
    var outcome;
    outcome, ret, shm := Respond(table, msg);
    ghost var t, bytes, key, data := table.Value(), shm[..], ret.key[..], ret.data[..];
    if outcome == Replies {
      sent := Answered;
      ret := ThroughCell(cell, ret);
      assert ret.key[..] == key && ret.data[..] == data;
    } else {
      sent := if outcome.Silent? then Unanswered(outcome.unlinked) else ServerGone;
      ret := new Message(DEFAULT);
    }
    assert table.Value() == t && shm[..] == bytes;
  }

  /** `sendMsg` of a client that is alone, with the server's part in its place: the request goes
      through the ring, the response through the cell of the request's slot, and both are free
      again. `value` is empty unless mode is INSERT. */
  method SendMsg(
      table: HashTable<Str, Str>, ring: CircularBuffer<Message?>, cells: seq<Message>,
      mode: Mode, clientId: int, key: Str, value: Str)
    returns (sent: Sent, ret: Message, shm: array<byte>)
    requires AtRest(ring, cells) && cells[ring.tailIdx].Valid() && Free(cells[ring.tailIdx])
    requires clientId != 0 && -0x8000_0000 <= clientId < 0x8000_0000
    requires Wire.Fits(key, KEY) && Wire.Fits(value, VAL) && (mode != INSERT ==> value == [])
    requires table.IsValid() && AllFit(table.Map()) && Addressable(table.Value())
    modifies table, table.storage, ring, ring.buffer
    modifies cells[ring.tailIdx], cells[ring.tailIdx].key, cells[ring.tailIdx].data
    ensures ring.Valid() && ring.Contents == [] && ring.buffer == old(ring.buffer)
    ensures Free(cells[old(ring.tailIdx)])
    ensures table.IsValid() && AllFit(table.Map())
    ensures sent ==
      if mode == DEFAULT || mode == RESPONSE then Thrown
      else if OnKey(mode) || (mode == READ_BUCKET && Stoul(key).Some?) then Answered
      else if mode == CLOSE_SHM then Unanswered(key) else ServerGone
    ensures mode == GET || !OnKey(mode) ==>
      table.storage == old(table.storage) && table.Value() == old(table.Value())
    ensures ret.Valid() && (sent != Thrown ==> if sent == Answered then ret.mode == RESPONSE else Blank(ret))
    ensures OnKey(mode) ==>
      && Cut(ret.key[..]) == key
      && KeyAnswer(old(table.Map()), table.Map(), mode, key, value, ret.success, ret.data[..])
      && KeyEffect(table.hash, table.resizable, old(table.Value()), table.Value(), mode, key, value)
    ensures sent == Answered && mode == READ_BUCKET ==>
      BucketAnswer(table.Value(), key, Stoul(key).value, clientId, ret.success, ret.key[..], ret.data[..], shm[..])
  {
    var ok, msg, slot := Request(ring, mode, clientId, key, value);
    if ok {
      sent, ret, shm := Served(table, cells[slot], msg);
    } else {
      sent, ret, shm := Thrown, msg, new byte[0];
    }
  }

  /** The client's half of READ_BUCKET: map as many bytes as the response says, copy the records,
      print both fields of each. */
  method ShowBucket(ret: Message, shm: array<byte>) returns (length: Option<nat>, lines: seq<(Str, Str)>)
    requires ret.Valid() && Stops(shm[..])
    ensures length == NumberIn(ret.data[..])
    ensures lines == Printed(Decoded(shm[..]))
  {
    var text := FromBytes(ret.data);
    length := Stoul(text);
    var vec := DecodeBucket(shm);
    lines := [];
    for i := 0 to |vec|
      invariant lines == Printed(vec[..i])
    {
      var k, v := Cut(vec[i].0), Cut(vec[i].1);
      assert Printed(vec[..i + 1]) == Printed(vec[..i]) + [(k, v)];
      lines := lines + [(k, v)];
    }
    assert vec[..|vec|] == vec;
  }

  /** The client is done with the segment: CLOSE_SHM with its name. The server removes the
      segment of this name and does not answer. */
  method CloseSegment(table: HashTable<Str, Str>, ring: CircularBuffer<Message?>, clientId: int, name: Str)
    returns (outcome: Outcome)
    requires ring.Valid() && ring.Contents == [] && ring.buffer.Length > 0 && Wire.Fits(name, KEY)
    requires -0x8000_0000 <= clientId < 0x8000_0000
    requires table.IsValid() && AllFit(table.Map()) && Addressable(table.Value())
    modifies table, table.storage, ring, ring.buffer
    ensures outcome == Silent(name) && table.storage == old(table.storage) && table.Value() == old(table.Value())
    ensures ring.Valid() && ring.Contents == []
  {
    var _, msg, _ := Request(ring, CLOSE_SHM, clientId, name, []);
    var response, shm;
    outcome, response, shm := Respond(table, msg);
  }

  /** The command `read_bucket`: for a bucket of the table the client maps exactly the segment that
      the server made, has the server remove the segment of that name, and prints the pairs of the
      bucket in front of the first empty key; for another number it prints the number as it was typed. */
  method ReadBucketCommand(
      table: HashTable<Str, Str>, ring: CircularBuffer<Message?>, cells: seq<Message>, clientId: int, number: Str)
    returns (sent: Sent, success: bool, refused: Option<Str>,
             mapped: Option<nat>, made: nat, closed: Option<Str>, lines: seq<(Str, Str)>)
    requires AtRest(ring, cells) && cells[ring.tailIdx].Valid() && Free(cells[ring.tailIdx])
    requires clientId != 0 && -0x8000_0000 <= clientId < 0x8000_0000 && Wire.Fits(number, KEY)
    requires table.IsValid() && AllFit(table.Map()) && Addressable(table.Value())
    modifies table, table.storage, ring, ring.buffer
    modifies cells[ring.tailIdx], cells[ring.tailIdx].key, cells[ring.tailIdx].data
    ensures table.Value() == old(table.Value()) && ring.Valid() && ring.Contents == []
    ensures sent == (if Stoul(number).Some? then Answered else ServerGone)
    ensures sent == Answered ==> (success <==> Stoul(number).value < table.capacity)
    ensures closed == if success then Some(SegmentName(clientId)) else None
    ensures refused == if sent == Answered && !success then Some(number) else None
    ensures success ==>
      && sent == Answered && mapped == Some(made)
      && Stoul(number).value < |table.Value().buckets|
      && var bucket := table.Value().buckets[Stoul(number).value];
         lines == Readable(bucket) && (lines == bucket <==> forall p :: p in bucket ==> p.0 != [])
  {
    var ret, shm;
    success, refused, mapped, made, closed, lines := false, None, None, 0, None, [];
    sent, ret, shm := SendMsg(table, ring, cells, READ_BUCKET, clientId, number, []);
    if sent == Answered {
      success := ret.success;
      if success {
        made := shm.Length;
        mapped, lines := ShowBucket(ret, shm);
        var name := FromBytes(ret.key);
        PidFits(clientId);
        var done := CloseSegment(table, ring, clientId, name);
        closed := Some(done.unlinked);
      } else {
        var shown := FromBytes(ret.key);
        refused := Some(shown);
      }
    }
  }
}
