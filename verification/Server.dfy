/** Requests and responses as the client fills them in and the server answers them. */
module Server {
  import opened Common
  import opened TableSpec
  import opened TableOps
  import opened HashTables
  import opened Wire
  import opened Decimal

  datatype Mode = DEFAULT | GET | INSERT | READ_BUCKET | CLOSE_SHM | DELETE | RESPONSE | EXIT

  class Message {
    var mode: Mode
    var success: bool
    var ready: bool
    var clientId: int
    const key: array<byte>
    const data: array<byte>

    ghost predicate Valid() {
      key.Length == KEY && data.Length == VAL && key != data
    }

    constructor (m: Mode)
      ensures Valid() && fresh(key) && fresh(data)
      ensures mode == m && !success && !ready && clientId == 0
      ensures key[..] == Zeros(KEY) && data[..] == Zeros(VAL)
    {
      mode, success, ready, clientId := m, false, false, 0;
      key := new byte[KEY](_ => 0);
      data := new byte[VAL](_ => 0);
    }

    /** The copy assignment: every field is overwritten, the arrays element by element. */
    method Assign(other: Message)
      requires Valid() && other.Valid() && key != other.data && data != other.key
      modifies this, key, data
      ensures mode == old(other.mode) && success == old(other.success)
      ensures ready == old(other.ready) && clientId == old(other.clientId)
      ensures key[..] == old(other.key[..]) && data[..] == old(other.data[..])
    {
      mode, success := other.mode, other.success;
      ready := if other.ready then true else false;
      clientId := other.clientId;
      for i := 0 to KEY
        modifies key
        invariant forall j :: 0 <= j < KEY ==> key[j] == if j < i then old(other.key[j]) else old(key[j])
        invariant forall j :: 0 <= j < VAL ==> data[j] == old(data[j])
      {
        key[i] := other.key[i];
      }
      for i := 0 to VAL
        modifies data
        invariant forall j :: 0 <= j < VAL ==> data[j] == if j < i then old(other.data[j]) else old(data[j])
        invariant forall j :: 0 <= j < KEY ==> key[j] == old(other.key[j])
      {
        data[i] := other.data[i];
      }
    }
  }

  /** Both texts are terminated inside their fields. */
  ghost predicate Terminated(msg: Message)
    reads msg.key, msg.data
  {
    msg.Valid() && 0 in msg.key[..] && 0 in msg.data[..]
  }

  /** The part of `sendMsg` that fills in a request; it throws for modes that are no requests.
      `value` is empty unless mode is INSERT. For EXIT the message stays empty. */
  method Prepare(mode: Mode, clientId: int, key: Str, value: Str) returns (ok: bool, msg: Message)
    requires Wire.Fits(key, KEY) && Wire.Fits(value, VAL)
    ensures fresh(msg) && fresh(msg.key) && fresh(msg.data) && Terminated(msg)
    ensures ok <==> mode != DEFAULT && mode != RESPONSE
    ensures msg.mode == (if ok && mode != EXIT then mode else DEFAULT) && msg.clientId == clientId
    ensures !msg.success && !msg.ready
    ensures Cut(msg.key[..]) == if ok && mode != EXIT then key else []
    ensures Cut(msg.data[..]) == if mode == INSERT then value else []
  {
    msg := new Message(DEFAULT);
    msg.clientId := clientId;
    assert msg.key[..][0] == 0 && msg.data[..][0] == 0;
    if mode == DEFAULT || mode == RESPONSE {
      return false, msg;
    }
    ok := true;
    if mode != EXIT {
      msg.mode := mode;
      WriteField(msg.key, key);
      if mode == INSERT {
        WriteField(msg.data, value);
      }
    }
  }

  /** Copies a string into a zeroed field. */
  method WriteField(field: array<byte>, s: Str)
    requires Wire.Fits(s, field.Length) && field[..] == Zeros(field.Length)
    modifies field
    ensures field[..] == Field(s, field.Length)
    ensures Cut(field[..]) == s && 0 in field[..]
  {
    assert field[0..] == field[..];
    Wire.CopyField(field, 0, s, field.Length);
    assert field[..] == Field(s, field.Length);
    FieldRoundTrip(s, field.Length);
    assert field[..][|s|] == 0;
  }

  /** All keys and values of the table fit their fields. */
  ghost predicate AllFit(m: map<Str, Str>) {
    forall k :: k in m ==> Wire.Fits(k, KEY) && Wire.Fits(m[k], VAL)
  }

  /** How the server goes on after a request: with a response, without one after it has removed a
      segment by its name, or not at all. */
  datatype Outcome = Replies | Silent(unlinked: Str) | Exits

  /** The number of a bucket or of bytes that a text field holds. */
  function NumberIn(field: Str): Option<nat> {
    Stoul(Cut(field))
  }

  function Ascii(text: string): Str
    requires forall i :: 0 <= i < |text| ==> 0 as char < text[i] < 128 as char
  {
    seq(|text|, i requires 0 <= i < |text| => text[i] as byte)
  }

  const OUT_OF_BOUNDS: Str := Ascii("Index out of bounds!")
  const SLASH: byte := 47

  /** The name of the segment for the client with this pid. */
  function SegmentName(pid: int): Str {
    [SLASH] + IntToText(pid)
  }

  /** Every client has a segment of its own. */
  lemma SegmentsDiffer(pid: int, pid': int)
    ensures SegmentName(pid) == SegmentName(pid') <==> pid == pid'
  {
    assert SegmentName(pid)[1..] == IntToText(pid) && SegmentName(pid')[1..] == IntToText(pid');
    IntTextInjective(pid, pid');
  }

  /** GET, INSERT and DELETE: the response says what a map would answer. */
  ghost predicate KeyAnswer(
      m: map<Str, Str>, m': map<Str, Str>, mode: Mode, k: Str, v: Str, success: bool, data: Str) {
    if mode == INSERT then
      && success == (k !in m)
      && data == [if k in m then 0 else 1] + Zeros(VAL - 1)
      && m' == if k in m then m else m[k := v]
    else
      && success == (k in m)
      && Cut(data) == (if k in m then m[k] else [])
      && m' == if mode == GET then m else m - {k}
  }

  /** GET leaves the table as it is; INSERT and DELETE make of it what the operation makes. */
  ghost predicate KeyEffect(
      h: Str -> nat, resizable: bool, t: Table<Str, Str>, t': Table<Str, Str>, mode: Mode, k: Str, v: Str)
    requires WellFormed(h, t)
  {
    && t' == (if mode == INSERT then Inserted(h, t, resizable, k, v)
              else if mode == DELETE then Removed(h, t, resizable, k)
              else t)
    && (!resizable ==> t'.cap == t.cap)
  }

  /** READ_BUCKET: an index out of bounds fails and repeats the number that was asked for, as it came;
      otherwise the response names the segment and gives its length, and a client that decodes the
      segment prints the pairs of the bucket in front of the first empty key, which are all of them if
      and only if no key is empty. */
  ghost predicate BucketAnswer(
      t: Table<Str, Str>, asked: Str, idx: nat, clientId: int, success: bool, key: Str, data: Str, shm: Str) {
    && (success <==> idx < t.cap)
    && if idx < t.cap then
         && idx < |t.buckets|
         && Cut(key) == SegmentName(clientId)
         && NumberIn(data) == Some(|shm|)
         && Stops(shm)
         && Printed(Decoded(shm)) == Readable(t.buckets[idx])
         && (Printed(Decoded(shm)) == t.buckets[idx] <==> forall p :: p in t.buckets[idx] ==> p.0 != [])
       else
         Cut(key) == asked && Cut(data) == OUT_OF_BOUNDS
  }

  /** A bucket's segment has a length that fits 64 bits. */
  ghost predicate Addressable(t: Table<Str, Str>) {
    forall i :: 0 <= i < |t.buckets| ==> |t.buckets[i]| * (KEY + VAL) + PADDING < ULONG_END
  }

  predicate OnKey(mode: Mode) {
    mode == GET || mode == INSERT || mode == DELETE
  }

  /** `respond` up to the response cell. CLOSE_SHM gets no response; a mode that is no request and
      a bucket number that is none end the server. The response names the client. */
  method Respond(table: HashTable<Str, Str>, msg: Message)
    returns (outcome: Outcome, response: Message, shm: array<byte>)
    requires Terminated(msg) && table.IsValid() && AllFit(table.Map()) && Addressable(table.Value())
    requires -0x8000_0000 <= msg.clientId < 0x8000_0000
    modifies table, table.storage
    ensures fresh(response) && fresh(response.key) && fresh(response.data) && response.Valid() && fresh(shm)
    ensures response.mode == RESPONSE && !response.ready && response.clientId == msg.clientId
    ensures table.IsValid() && AllFit(table.Map())
    ensures msg.mode == GET || !OnKey(msg.mode) ==>
      table.storage == old(table.storage) && table.Value() == old(table.Value())
    ensures outcome ==
      if OnKey(msg.mode) || (msg.mode == READ_BUCKET && NumberIn(old(msg.key[..])).Some?) then Replies
      else if msg.mode == CLOSE_SHM then Silent(old(Cut(msg.key[..]))) else Exits
    ensures OnKey(msg.mode) ==>
      && response.key[..] == old(msg.key[..])
      && KeyAnswer(old(table.Map()), table.Map(), msg.mode, old(Cut(msg.key[..])), old(Cut(msg.data[..])),
                   response.success, response.data[..])
      && KeyEffect(table.hash, table.resizable, old(table.Value()), table.Value(),
                   msg.mode, old(Cut(msg.key[..])), old(Cut(msg.data[..])))
    ensures msg.mode == READ_BUCKET && outcome == Replies ==>
      BucketAnswer(table.Value(), old(Cut(msg.key[..])), NumberIn(old(msg.key[..])).value, msg.clientId,
                   response.success, response.key[..], response.data[..], shm[..])
  {
    response := ResponseTo(msg);
    shm := new byte[0];
    CutNulFree(msg.key[..]);
    CutNulFree(msg.data[..]);
    var key := FromBytes(msg.key);
    if OnKey(msg.mode) {
      outcome := Replies;
      var value := FromBytes(msg.data);
      AnswerKey(table, msg.mode, key, value, response);
    } else if msg.mode == READ_BUCKET {
      var number := Stoul(key);
      if number == None {
        outcome := Exits;
      } else {
        outcome := Replies;
        shm := AnswerBucket(table, number.value, response);
      }
    } else {
      outcome := if msg.mode == CLOSE_SHM then Silent(key) else Exits;
    }
  }

  /** The response before it is filled in: it names the client and repeats the key. */
  method ResponseTo(msg: Message) returns (response: Message)
    requires msg.Valid()
    ensures fresh(response) && fresh(response.key) && fresh(response.data) && response.Valid()
    ensures response.mode == RESPONSE && !response.success && !response.ready && response.clientId == msg.clientId
    ensures response.key[..] == msg.key[..] && response.data[..] == Zeros(VAL)
  {
    response := new Message(DEFAULT);
    response.mode := RESPONSE;
    response.clientId := msg.clientId;
    CopyBytes(response.key, msg.key);
  }

  /** The cases of GET, INSERT and DELETE. */
  method AnswerKey(table: HashTable<Str, Str>, mode: Mode, key: Str, value: Str, response: Message)
    requires OnKey(mode) && Wire.Fits(key, KEY) && Wire.Fits(value, VAL)
    requires table.IsValid() && AllFit(table.Map()) && response.Valid() && response.data[..] == Zeros(VAL)
    modifies table, table.storage, response`success, response.data
    ensures table.IsValid() && AllFit(table.Map())
    ensures KeyAnswer(old(table.Map()), table.Map(), mode, key, value, response.success, response.data[..])
    ensures KeyEffect(table.hash, table.resizable, old(table.Value()), table.Value(), mode, key, value)
    ensures mode == GET ==> table.storage == old(table.storage)
  {
    var success, result := Execute(table, mode, key, value);
    if mode == INSERT {
      Acknowledge(response, success);
    } else {
      Answer(response, result);
    }
  }

  /** The case of READ_BUCKET. */
  method AnswerBucket(table: HashTable<Str, Str>, idx: nat, response: Message) returns (shm: array<byte>)
    requires table.IsValid() && AllFit(table.Map()) && Addressable(table.Value())
    requires response.Valid() && response.data[..] == Zeros(VAL)
    requires -0x8000_0000 <= response.clientId < 0x8000_0000
    modifies response`success, response.key, response.data
    ensures fresh(shm)
    ensures BucketAnswer(table.Value(), old(Cut(response.key[..])), idx, response.clientId,
                         response.success, response.key[..], response.data[..], shm[..])
  {
    var found;
    found, shm := ReadBucket(table, idx);
    if found {
      NameSegment(response, shm.Length);
    } else {
      WriteField(response.data, OUT_OF_BOUNDS);
    }
    response.success := found;
  }

  /** The name and the length of the segment, as text. */
  method NameSegment(response: Message, length: nat)
    requires response.Valid() && response.data[..] == Zeros(VAL)
    requires -0x8000_0000 <= response.clientId < 0x8000_0000 && length < ULONG_END
    modifies response.key, response.data
    ensures Cut(response.key[..]) == SegmentName(response.clientId)
    ensures NumberIn(response.data[..]) == Some(length)
  {
    PidFits(response.clientId);
    SizeFits(length);
    var name := SegmentName(response.clientId);
    CopyString(response.key, 0, name);
    CutTerminated(name, response.key[|name|..]);
    assert response.key[..] == name + response.key[|name|..];
    WriteField(response.data, ToText(length));
    StoulReadsText(length);
  }

  /** The operation on the table that the mode asks for. */
  method Execute(table: HashTable<Str, Str>, mode: Mode, key: Str, value: Str)
    returns (success: bool, result: Option<Str>)
    requires OnKey(mode)
    requires Wire.Fits(key, KEY) && Wire.Fits(value, VAL) && table.IsValid() && AllFit(table.Map())
    modifies table, table.storage
    ensures table.IsValid() && AllFit(table.Map())
    ensures var m := old(table.Map());
            if mode == INSERT then
              success == (key !in m) && table.Map() == if key in m then m else m[key := value]
            else
              result == (if key in m then Some(m[key]) else None) && table.Map() == if mode == GET then m else m - {key}
    ensures KeyEffect(table.hash, table.resizable, old(table.Value()), table.Value(), mode, key, value)
    ensures mode == GET ==> table.storage == old(table.storage)
  {
    success, result := false, None;
    if mode == GET {
      result := table.Get(key);
    } else if mode == INSERT {
      success := table.Insert(key, value);
    } else {
      result := table.Remove(key);
    }
  }

  /** Whether the key was added, as a byte and as a flag. */
  method Acknowledge(response: Message, success: bool)
    requires response.Valid() && response.data[..] == Zeros(VAL)
    modifies response`success, response.data
    ensures response.success == success
    ensures response.data[..] == [if success then 1 else 0] + Zeros(VAL - 1)
  {
    response.data[0] := if success then 1 else 0;
    response.success := success;
  }

  /** The value that was found, or failure. */
  method Answer(response: Message, result: Option<Str>)
    requires response.Valid() && response.data[..] == Zeros(VAL)
    requires result.Some? ==> Wire.Fits(result.value, VAL)
    modifies response`success, response.data
    ensures response.success == result.Some?
    ensures Cut(response.data[..]) == if result.Some? then result.value else []
  {
    if result.Some? {
      WriteField(response.data, result.value);
      response.success := true;
    } else {
      response.data[0] := 0;
      response.success := false;
    }
  }

  /** `response.key = msg.key`. */
  method CopyBytes(dst: array<byte>, src: array<byte>)
    requires dst.Length == src.Length && dst != src
    modifies dst
    ensures dst[..] == src[..]
  {
    for i := 0 to dst.Length
      invariant forall j :: 0 <= j < i ==> dst[j] == src[j]
    {
      dst[i] := src[i];
    }
  }

  /** READ_BUCKET: an index out of bounds fails; otherwise the segment carries the bucket, and a
      client that decodes it prints exactly the bucket's pairs if and only if no key is empty. */
  method ReadBucket(table: HashTable<Str, Str>, idx: nat) returns (success: bool, shm: array<byte>)
    requires table.IsValid() && AllFit(table.Map())
    ensures fresh(shm)
    ensures success <==> idx < table.capacity
    ensures success ==> idx < table.storage.Length && Stops(shm[..])
    ensures success ==> shm.Length == |table.storage[idx]| * (KEY + VAL) + PADDING
    ensures success ==> Printed(Decoded(shm[..])) == Readable(table.storage[idx])
    ensures success ==>
      (Printed(Decoded(shm[..])) == table.storage[idx] <==> forall p :: p in table.storage[idx] ==> p.0 != [])
  {
    if idx >= table.capacity {
      shm := new byte[0];
      return false, shm;
    }
    var result := table.GetBucket(idx);
    forall i | 0 <= i < |result| ensures Wire.Fits(result[i].0, KEY) && Wire.Fits(result[i].1, VAL) {
      assert result[i] in result;
    }
    SegmentReads(result);
    BucketRoundTrip(result);
    shm := EncodeBucket(result);
    success := true;
  }
}
