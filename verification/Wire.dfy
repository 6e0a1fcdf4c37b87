/** Strings in fixed-size byte fields, and the segment that carries a bucket to a client. */
module Wire {
  type byte = x: int | 0 <= x < 256

  type Str = seq<byte>

  const KEY: nat := 128
  const VAL: nat := 1024
  /** `sizeof(std::vector<...>)` on a 64-bit platform: the padding behind the records. */
  const PADDING: nat := 24

  function Zeros(n: nat): Str {
    seq(n, _ => 0)
  }

  /** A string that fits a field of `cap` bytes with its terminator. */
  predicate Fits(s: Str, cap: nat) {
    |s| < cap && 0 !in s
  }

  function Field(s: Str, cap: nat): Str
    requires |s| <= cap
  {
    s + Zeros(cap - |s|)
  }

  /** The bytes before the first NUL: `uint8_to_string`. */
  function Cut(a: Str): Str {
    if a == [] || a[0] == 0 then [] else [a[0]] + Cut(a[1..])
  }

  lemma {:induction false} CutTerminated(s: Str, rest: Str)
    requires 0 !in s && (rest == [] || rest[0] == 0)
    ensures Cut(s + rest) == s
  {
    if s == [] {
      assert s + rest == rest;
    } else {
      assert (s + rest)[1..] == s[1..] + rest;
      CutTerminated(s[1..], rest);
    }
  }

  lemma {:induction false} CutNulFree(a: Str)
    ensures 0 !in Cut(a) && |Cut(a)| <= |a| && (0 in a ==> |Cut(a)| < |a|)
  {
    if a == [] || a[0] == 0 {
    } else {
      CutNulFree(a[1..]);
    }
  }

  /** What is written into a field is read back from it. */
  lemma FieldRoundTrip(s: Str, cap: nat)
    requires Fits(s, cap)
    ensures Cut(Field(s, cap)) == s
  {
    CutTerminated(s, Zeros(cap - |s|));
  }

  method FromBytes(v: array<byte>) returns (s: Str)
    ensures s == Cut(v[..])
  {
    s := [];
    var i := 0;
    while i < v.Length && v[i] != 0
      invariant i <= v.Length
      invariant Cut(v[..]) == s + Cut(v[i..])
    {
      assert v[i..][1..] == v[i + 1..];
      s := s + [v[i]];
      i := i + 1;
    }
  }

  /** `memcpy` of a C string and its terminator to offset `at`. */
  method CopyString(dst: array<byte>, at: nat, s: Str)
    requires at + |s| + 1 <= dst.Length
    modifies dst
    ensures dst[..] == old(dst[..at]) + s + [0] + old(dst[at + |s| + 1..])
  {
    for i := 0 to |s|
      invariant forall j :: 0 <= j < dst.Length ==> dst[j] == if at <= j < at + i then s[j - at] else old(dst[j])
    {
      dst[at + i] := s[i];
    }
    dst[at + |s|] := 0;
  }

  /** Into zeroed memory the copy leaves the string in a zero-filled field. */
  lemma CopiedField(before: Str, at: nat, s: Str, cap: nat)
    requires |s| < cap && at + cap <= |before|
    requires before[at..] == Zeros(|before| - at)
    ensures before[..at] + s + [0] + before[at + |s| + 1..] == before[..at] + Field(s, cap) + Zeros(|before| - at - cap)
  {
    forall j | at <= j < |before| ensures before[j] == 0 {
      assert before[j] == before[at..][j - at];
    }
  }

  // ----- READ_BUCKET -----

  function Record(p: (Str, Str)): Str
    requires |p.0| <= KEY && |p.1| <= VAL
  {
    Field(p.0, KEY) + Field(p.1, VAL)
  }

  predicate Storable(pairs: seq<(Str, Str)>) {
    forall i :: 0 <= i < |pairs| ==> Fits(pairs[i].0, KEY) && Fits(pairs[i].1, VAL)
  }

  function Records(pairs: seq<(Str, Str)>): (r: Str)
    requires Storable(pairs)
    ensures |r| == |pairs| * (KEY + VAL)
  {
    if pairs == [] then [] else Record(pairs[0]) + Records(pairs[1..])
  }

  /** The shared memory segment: zero-filled, one record per pair, then the padding. */
  function Segment(pairs: seq<(Str, Str)>): Str
    requires Storable(pairs)
  {
    Records(pairs) + Zeros(PADDING)
  }

  /** Where everything lies: record after record, in each the key and then the value, and zeros in all
      other places. */
  lemma {:induction false} SegmentLayout(pairs: seq<(Str, Str)>, i: nat, j: nat)
    requires Storable(pairs) && i < |pairs| && j < KEY + VAL
    ensures |Segment(pairs)| == |pairs| * (KEY + VAL) + PADDING && i * (KEY + VAL) + j < |Segment(pairs)|
    ensures Segment(pairs)[i * (KEY + VAL) + j] ==
      if j < |pairs[i].0| then pairs[i].0[j]
      else if KEY <= j < KEY + |pairs[i].1| then pairs[i].1[j - KEY]
      else 0
  {
    var at := i * (KEY + VAL) + j;
    assert at < |Records(pairs)|;
    if i == 0 {
      assert Segment(pairs)[at] == Record(pairs[0])[j];
    } else {
      var rest := pairs[1..];
      SegmentLayout(rest, i - 1, j);
      assert rest[i - 1] == pairs[i];
      assert Segment(pairs)[at] == Segment(rest)[at - (KEY + VAL)];
    }
  }

  /** The 64-bit word at the start of a record is 0. */
  predicate Sentinel(seg: Str)
    requires |seg| >= 8
  {
    forall j :: 0 <= j < 8 ==> seg[j] == 0
  }

  /** Reading record by record meets the sentinel before the end of the segment. */
  ghost predicate Stops(seg: Str) {
    |seg| >= 8 && (!Sentinel(seg) ==> |seg| >= KEY + VAL && Stops(seg[KEY + VAL..]))
  }

  function Decoded(seg: Str): seq<(Str, Str)>
    requires Stops(seg)
  {
    if Sentinel(seg) then []
    else [(seg[..KEY], seg[KEY..KEY + VAL])] + Decoded(seg[KEY + VAL..])
  }

  /** What the client prints: both fields up to their terminators. */
  function Printed(recs: seq<(Str, Str)>): seq<(Str, Str)> {
    seq(|recs|, i requires 0 <= i < |recs| => (Cut(recs[i].0), Cut(recs[i].1)))
  }

  /** The pairs before the first empty key. */
  function Readable(pairs: seq<(Str, Str)>): seq<(Str, Str)> {
    if pairs == [] || pairs[0].0 == [] then [] else [pairs[0]] + Readable(pairs[1..])
  }

  /** For every bucket the client's loop stops inside the segment, and prints the pairs before
      the first empty key. */
  lemma {:induction false} SegmentReads(pairs: seq<(Str, Str)>)
    requires Storable(pairs)
    ensures Stops(Segment(pairs))
    ensures Printed(Decoded(Segment(pairs))) == Readable(pairs)
  {
    var seg := Segment(pairs);
    if pairs == [] {
      assert Sentinel(seg);
    } else {
      var p := pairs[0];
      FieldRoundTrip(p.0, KEY);
      FieldRoundTrip(p.1, VAL);
      assert seg[..KEY] == Field(p.0, KEY);
      assert seg[KEY..KEY + VAL] == Field(p.1, VAL);
      assert seg[KEY + VAL..] == Segment(pairs[1..]);
      SegmentReads(pairs[1..]);
      if p.0 == [] {
        assert forall j :: 0 <= j < 8 ==> seg[j] == seg[..KEY][j] == 0;
      } else {
        assert seg[0] == p.0[0] != 0;
        var rest := Decoded(seg[KEY + VAL..]);
        assert Decoded(seg) == [(seg[..KEY], seg[KEY..KEY + VAL])] + rest;
        assert Printed(Decoded(seg)) == [p] + Printed(rest);
      }
    }
  }

  lemma {:induction false} ReadableAll(pairs: seq<(Str, Str)>)
    ensures Readable(pairs) == pairs <==> forall i :: 0 <= i < |pairs| ==> pairs[i].0 != []
    ensures |Readable(pairs)| <= |pairs|
  {
    if pairs == [] {
    } else {
      ReadableAll(pairs[1..]);
      assert pairs == [pairs[0]] + pairs[1..];
      if pairs[0].0 != [] && Readable(pairs) == pairs {
        assert Readable(pairs)[1..] == Readable(pairs[1..]) == pairs[1..];
        forall i | 0 <= i < |pairs| ensures pairs[i].0 != [] {
          assert i > 0 ==> pairs[1..][i - 1] == pairs[i];
        }
      }
    }
  }

  /** Round trip: the client prints exactly the server's list if and only if no key is empty. */
  lemma BucketRoundTrip(pairs: seq<(Str, Str)>)
    requires Storable(pairs)
    ensures Stops(Segment(pairs))
    ensures Printed(Decoded(Segment(pairs))) == pairs <==> forall i :: 0 <= i < |pairs| ==> pairs[i].0 != []
  {
    SegmentReads(pairs);
    ReadableAll(pairs);
  }

  /** The server's side: size the segment, clear it, copy the records. */
  method EncodeBucket(pairs: seq<(Str, Str)>) returns (shm: array<byte>)
    requires Storable(pairs)
    ensures fresh(shm) && shm[..] == Segment(pairs)
  {
    var totalLength := 0;
    for i := 0 to |pairs|
      invariant totalLength == i * (KEY + VAL)
    {
      totalLength := totalLength + KEY + VAL;
    }
    totalLength := totalLength + PADDING;
    shm := new byte[totalLength](_ => 0);
    for i := 0 to |pairs|
      invariant Storable(pairs[..i])
      invariant shm[..] == Records(pairs[..i]) + Zeros(totalLength - i * (KEY + VAL))
    {
      CopyRecord(shm, i * (KEY + VAL), pairs[i]);
      RecordsAppend(pairs[..i], pairs[i]);
      assert pairs[..i + 1] == pairs[..i] + [pairs[i]];
    }
    assert pairs[..|pairs|] == pairs;
  }

  method CopyRecord(shm: array<byte>, at: nat, p: (Str, Str))
    requires Fits(p.0, KEY) && Fits(p.1, VAL)
    requires at + KEY + VAL <= shm.Length
    requires shm[at..] == Zeros(shm.Length - at)
    modifies shm
    ensures shm[..] == old(shm[..at]) + Record(p) + Zeros(shm.Length - at - KEY - VAL)
  {
    CopyField(shm, at, p.0, KEY);
    CopyField(shm, at + KEY, p.1, VAL);
  }

  /** Writes a string into a zeroed field in front of zeroed memory. */
  method CopyField(shm: array<byte>, at: nat, s: Str, cap: nat)
    requires Fits(s, cap) && at + cap <= shm.Length
    requires shm[at..] == Zeros(shm.Length - at)
    modifies shm
    ensures shm[..] == old(shm[..at]) + Field(s, cap) + Zeros(shm.Length - at - cap)
    ensures shm[..at + cap] == old(shm[..at]) + Field(s, cap)
    ensures shm[at + cap..] == Zeros(shm.Length - at - cap)
  {
    ghost var before := shm[..];
    assert before[at..] == shm[at..];
    CopyString(shm, at, s);
    CopiedField(before, at, s, cap);
  }

  lemma {:induction false} RecordsAppend(pairs: seq<(Str, Str)>, p: (Str, Str))
    requires Storable(pairs) && Fits(p.0, KEY) && Fits(p.1, VAL)
    ensures Storable(pairs + [p]) && Records(pairs + [p]) == Records(pairs) + Record(p)
  {
    if pairs == [] {
      assert [p][1..] == [];
    } else {
      RecordsAppend(pairs[1..], p);
      assert (pairs + [p])[1..] == pairs[1..] + [p];
    }
  }

  /** The client's side: copy records until the sentinel. */
  method DecodeBucket(shm: array<byte>) returns (vec: seq<(Str, Str)>)
    requires Stops(shm[..])
    ensures vec == Decoded(shm[..])
  {
    vec := [];
    var ptr := 0;
    ghost var seg := shm[..];
    assert seg[0..] == seg;
    while !Sentinel(shm[ptr..ptr + 8])
      invariant ptr + 8 <= shm.Length && Stops(seg[ptr..])
      invariant Decoded(seg) == vec + Decoded(seg[ptr..])
      decreases shm.Length - ptr
    {
      DecodeStep(seg, ptr);
      vec := vec + [(shm[ptr..ptr + KEY], shm[ptr + KEY..ptr + KEY + VAL])];
      ptr := ptr + KEY + VAL;
    }
    DecodeEnds(seg, ptr);
  }

  lemma DecodeEnds(seg: Str, ptr: nat)
    requires ptr + 8 <= |seg| && Stops(seg[ptr..]) && Sentinel(seg[ptr..ptr + 8])
    ensures Decoded(seg[ptr..]) == []
  {
    SentinelPrefix(seg[ptr..]);
    Slice(seg, ptr, 0, 8);
  }

  lemma DecodeStep(seg: Str, ptr: nat)
    requires ptr + 8 <= |seg| && Stops(seg[ptr..]) && !Sentinel(seg[ptr..ptr + 8])
    ensures ptr + KEY + VAL + 8 <= |seg| && Stops(seg[ptr + KEY + VAL..])
    ensures Decoded(seg[ptr..])
         == [(seg[ptr..ptr + KEY], seg[ptr + KEY..ptr + KEY + VAL])] + Decoded(seg[ptr + KEY + VAL..])
  {
    var rest := seg[ptr..];
    Slice(seg, ptr, 0, 8);
    SentinelPrefix(rest);
    assert Stops(rest[KEY + VAL..]);
    assert Decoded(rest) == [(rest[..KEY], rest[KEY..KEY + VAL])] + Decoded(rest[KEY + VAL..]);
    Slice(seg, ptr, 0, KEY);
    Slice(seg, ptr, KEY, KEY + VAL);
    Slice(seg, ptr, KEY + VAL, |rest|);
  }

  lemma Slice(seg: Str, at: nat, lo: nat, hi: nat)
    requires lo <= hi && at + hi <= |seg|
    ensures seg[at..][lo..hi] == seg[at + lo..at + hi]
    ensures at + hi == |seg| ==> seg[at..][lo..] == seg[at + lo..]
  {
  }

  lemma SentinelPrefix(seg: Str)
    requires |seg| >= 8
    ensures Sentinel(seg) <==> Sentinel(seg[..8])
  {
    forall j | 0 <= j < 8 ensures seg[..8][j] == seg[j] {
    }
  }
}
