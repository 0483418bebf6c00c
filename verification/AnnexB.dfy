/**
  The scanner that counts the NAL units of an H.264 byte stream, checked against an encoder of
  Annex B of ITU-T H.264 and, for arbitrary buffers, against the start codes it consumes.
 */
module AnnexB {
  import opened ByteStrings


  datatype NalStats = NalStats(sps: nat, pps: nat, idr: nat, other: nat) {
    function Total(): nat {
      sps + pps + idr + other
    }

    /** Counts one unit; `nal_unit_type` is the low five bits of the header (section 7.3.1). */
    function Count(header: Byte): NalStats {
      var nalType := header % 32;
      if nalType == 7 then this.(sps := sps + 1)
      else if nalType == 8 then this.(pps := pps + 1)
      else if nalType == 5 then this.(idr := idr + 1)
      else this.(other := other + 1)
    }
  }

  /** The histogram of the NAL unit types of a list of headers. */
  function Histogram(headers: seq<Byte>): NalStats {
    if headers == [] then NalStats(0, 0, 0, 0)
    else Histogram(headers[..|headers| - 1]).Count(headers[|headers| - 1])
  }

  function Occurrences(headers: seq<Byte>, nalType: nat): nat {
    if headers == [] then 0
    else Occurrences(headers[..|headers| - 1], nalType) + if headers[|headers| - 1] % 32 == nalType then 1 else 0
  }

  /** Types 7, 8 and 5 have their own counters and every other unit falls into the last one. */
  lemma {:induction false} HistogramCounts(headers: seq<Byte>)
    ensures var st := Histogram(headers);
            && st.sps == Occurrences(headers, 7) && st.pps == Occurrences(headers, 8)
            && st.idr == Occurrences(headers, 5) && st.Total() == |headers|
  {
    if headers != [] {
      HistogramCounts(headers[..|headers| - 1]);
    }
  }

  /** Reading a byte array; the byte after the last one is the array's terminating zero. */
  function At(buf: Bytes, k: nat): Byte {
    if k < |buf| then buf[k] else 0
  }

  predicate IsCode(buf: Bytes, c: nat) {
    At(buf, c) == 0 && At(buf, c + 1) == 0 && At(buf, c + 2) == 1
  }

  /** The length of the start code the scanner sees at `i`, or 0. */
  function StartCode(buf: Bytes, i: nat): (sc: nat)
    ensures sc == 0 || sc == 3 || sc == 4
  {
    if At(buf, i) == 0 && At(buf, i + 1) == 0 && At(buf, i + 2) == 0 && At(buf, i + 3) == 1 then 4
    else if IsCode(buf, i) then 3
    else 0
  }

  /** The headers the scan from position `i` looks at. */
  function Scan(buf: Bytes, i: nat): seq<Byte>
    decreases |buf| - i
  {
    if i + 3 >= |buf| then []
    else
      var sc := StartCode(buf, i);
      if sc == 0 then Scan(buf, i + 1) else [At(buf, i + sc)] + Scan(buf, i + sc + 1)
  }

  /** Whether the scan from position `i` looks at the byte after the end of the buffer. */
  predicate ReadsPast(buf: Bytes, i: nat)
    decreases |buf| - i
  {
    if i + 3 >= |buf| then false
    else
      var sc := StartCode(buf, i);
      if sc == 0 then ReadsPast(buf, i + 1) else i + sc >= |buf| || ReadsPast(buf, i + sc + 1)
  }

  method ScanNals(buf: Bytes) returns (st: NalStats, past: bool)
    ensures st == Histogram(Scan(buf, 0))
    ensures past == ReadsPast(buf, 0)
  {
    st, past := NalStats(0, 0, 0, 0), false;
    var i := 0;
    ghost var headers := [];
    while i + 3 < |buf|
      invariant st == Histogram(headers)
      invariant Scan(buf, 0) == headers + Scan(buf, i)
      invariant ReadsPast(buf, 0) == (past || ReadsPast(buf, i))
      decreases |buf| - i
    {
      var sc := StartCode(buf, i);
      if sc == 0 {
        i := i + 1;
      } else {
        ghost var before := headers;
        headers := headers + [At(buf, i + sc)];
        assert headers[..|before|] == before;
        st := st.Count(At(buf, i + sc));
        past := past || i + sc >= |buf|;
        i := i + sc + 1;
      }
    }
    assert headers + [] == headers;
  }

  // ---------- Framed streams ----------

  /** A NAL unit behind its start code: `zeros` counts the zero bytes before 00 00 01. */
  datatype Unit = Unit(zeros: nat, payload: Bytes)

  predicate CodeFree(s: Bytes) {
    forall i | 0 <= i < |s| - 2 :: !(s[i] == 0 && s[i + 1] == 0 && s[i + 2] == 1)
  }

  ghost predicate WellFormed(units: seq<Unit>) {
    forall u | u in units :: u.payload != [] && CodeFree(u.payload)
  }

  function Frame(units: seq<Unit>, trailing: nat): Bytes {
    if units == [] then Zeros(trailing)
    else Zeros(units[0].zeros) + [0, 0, 1] + units[0].payload + Frame(units[1..], trailing)
  }

  function Headers(units: seq<Unit>): seq<Byte>
    requires forall u | u in units :: u.payload != []
  {
    if units == [] then [] else [units[0].payload[0]] + Headers(units[1..])
  }

  /** A stretch of `gap` bytes without a start code, then a unit's code, then its header. */
  lemma {:induction false} ScanToCode(buf: Bytes, i: nat, c: nat)
    requires i <= c && c + 3 < |buf| && IsCode(buf, c)
    requires forall k | i <= k < c :: !IsCode(buf, k)
    ensures Scan(buf, i) == [buf[c + 3]] + Scan(buf, c + 4)
    ensures ReadsPast(buf, i) == ReadsPast(buf, c + 4)
    decreases c - i
  {
    if i < c {
      if StartCode(buf, i) == 0 {
        ScanToCode(buf, i + 1, c);
      } else {
        assert IsCode(buf, i + 1);
        assert i + 1 == c;
      }
    }
  }

  lemma {:induction false} ScanNothing(buf: Bytes, i: nat)
    requires forall k | i <= k < |buf| :: !IsCode(buf, k)
    ensures Scan(buf, i) == [] && !ReadsPast(buf, i)
    decreases |buf| - i
  {
    if i + 3 < |buf| {
      assert !IsCode(buf, i + 1);
      ScanNothing(buf, i + 1);
    }
  }

  /** Scanning from the middle of a framed stream: `head` ends with the previous unit's payload after its header. */
  lemma {:induction false} ScanFrame(head: Bytes, i: nat, units: seq<Unit>, trailing: nat)
    requires WellFormed(units) && i <= |head| && CodeFree(head[i..])
    ensures Scan(head + Frame(units, trailing), i) == Headers(units)
    ensures !ReadsPast(head + Frame(units, trailing), i)
    decreases |units|
  {
    hide Scan, ReadsPast, CodeFree, IsCode, WellFormed;
    var buf := head + Frame(units, trailing);
    if units == [] {
      forall k | i <= k < |buf|
        ensures !IsCode(buf, k)
      {
        TailHasNoCode(head, i, trailing, k);
      }
      ScanNothing(buf, i);
    } else {
      var u := units[0];
      var rest := Frame(units[1..], trailing);
      var c := |head| + u.zeros;
      FirstUnit(units);
      var head' := head + Zeros(u.zeros) + [0, 0, 1] + u.payload;
      assert buf == head' + rest;
      assert |head'| == c + 3 + |u.payload|;
      assert head'[c] == 0 && head'[c + 1] == 0 && head'[c + 2] == 1 && head'[c + 3] == u.payload[0];
      CodeAt(buf, c);
      forall k | i <= k < c
        ensures !IsCode(buf, k)
      {
        GapHasNoCode(head, i, u.zeros, buf, k);
      }
      ScanToCode(buf, i, c);
      assert head'[c + 4..] == u.payload[1..];
      ScanFrame(head', c + 4, units[1..], trailing);
    }
  }

  lemma CodeAt(buf: Bytes, c: nat)
    requires c + 2 < |buf| && buf[c] == 0 && buf[c + 1] == 0 && buf[c + 2] == 1
    ensures IsCode(buf, c)
  {
  }

  lemma FirstUnit(units: seq<Unit>)
    requires WellFormed(units) && units != []
    ensures units[0].payload != [] && CodeFree(units[0].payload[1..]) && WellFormed(units[1..])
  {
    var payload := units[0].payload;
    assert units[0] in units && CodeFree(payload);
    assert forall k | 0 <= k < |payload| - 1 :: payload[1..][k] == payload[k + 1];
  }

  lemma TailHasNoCode(head: Bytes, i: nat, trailing: nat, k: nat)
    requires i <= |head| && CodeFree(head[i..]) && i <= k
    ensures !IsCode(head + Zeros(trailing), k)
  {
    if k + 2 < |head| {
      assert head[i..][k - i] == head[k] && head[i..][k - i + 1] == head[k + 1] && head[i..][k - i + 2] == head[k + 2];
    }
  }

  lemma GapHasNoCode(head: Bytes, i: nat, zeros: nat, buf: Bytes, k: nat)
    requires i <= |head| && CodeFree(head[i..])
    requires head + Zeros(zeros) + [0, 0, 1] <= buf
    requires i <= k < |head| + zeros
    ensures !IsCode(buf, k)
  {
    var pre := head + Zeros(zeros) + [0, 0, 1];
    assert buf[k + 2] == pre[k + 2];
    if k + 2 < |head| {
      assert head[i..][k - i] == head[k] && head[i..][k - i + 1] == head[k + 1] && head[i..][k - i + 2] == head[k + 2];
      assert buf[k] == pre[k] && buf[k + 1] == pre[k + 1];
    }
  }

  /**
    Scanning inverts framing: any units with any number of zero bytes before their start codes (one
    for the four-byte form) and at the end give back exactly their headers in order, inside the buffer.
   */
  lemma ScanInvertsFraming(units: seq<Unit>, trailing: nat)
    requires WellFormed(units)
    ensures Scan(Frame(units, trailing), 0) == Headers(units) && !ReadsPast(Frame(units, trailing), 0)
  {
    assert [] + Frame(units, trailing) == Frame(units, trailing);
    ScanFrame([], 0, units, trailing);
  }

  // ---------- Arbitrary buffers ----------

  /** A code is consumed unless its first byte was taken as the header of a code consumed just before. */
  predicate Consumed(buf: Bytes, c: nat) {
    IsCode(buf, c) && !(c >= 3 && Consumed(buf, c - 3))
  }

  predicate IsHeader(buf: Bytes, i: nat) {
    i >= 3 && Consumed(buf, i - 3)
  }

  /** A code at the very end of the buffer is seen only through a zero byte before it that is not a header. */
  predicate Seen(buf: Bytes, c: nat) {
    c + 3 < |buf| || (c >= 1 && At(buf, c - 1) == 0 && !IsHeader(buf, c - 1))
  }

  /** The headers that follow consumed codes, from position `c` on. */
  function ConsumedHeaders(buf: Bytes, c: nat): seq<Byte>
    decreases |buf| - c
  {
    if c + 3 > |buf| then []
    else
      var rest := ConsumedHeaders(buf, c + 1);
      if Consumed(buf, c) && Seen(buf, c) then [At(buf, c + 3)] + rest else rest
  }

  /** The buffer ends in 00 00 00 01, and the first of these bytes is not a header. */
  predicate EndsInBareCode(buf: Bytes) {
    var n := |buf|;
    n >= 4 && buf[n - 4..] == [0, 0, 0, 1] && !IsHeader(buf, n - 4)
  }

  /** The scanner never stands inside a consumed code or on its header. */
  predicate Outside(buf: Bytes, i: nat) {
    && !(i >= 1 && Consumed(buf, i - 1))
    && !(i >= 2 && Consumed(buf, i - 2))
    && !IsHeader(buf, i)
    && !(i >= 1 && Consumed(buf, i) && At(buf, i - 1) == 0 && !IsHeader(buf, i - 1))
  }

  lemma {:induction false} ScanOutside(buf: Bytes, i: nat)
    requires Outside(buf, i)
    ensures Scan(buf, i) == ConsumedHeaders(buf, i)
    ensures ReadsPast(buf, i) <==> EndsInBareCode(buf) && i + 4 <= |buf|
    decreases |buf| - i
  {
    var n := |buf|;
    if i + 3 >= n {
      ShortTail(buf, i);
    } else {
      var sc := StartCode(buf, i);
      if sc == 0 {
        ScanOutside(buf, i + 1);
        NotAtEnd(buf, i);
      } else if sc == 3 {
        SkipCode(buf, i);
        ScanOutside(buf, i + 4);
        BareCodeIsNotInside(buf, i);
      } else {
        SkipCode(buf, i + 1);
        ScanOutside(buf, i + 5);
        BareCodeIsNotInside(buf, i + 1);
        LastFour(buf, i);
      }
    }
  }

  lemma ShortTail(buf: Bytes, i: nat)
    requires Outside(buf, i) && i + 3 >= |buf|
    ensures ConsumedHeaders(buf, i) == []
  {
    if i + 3 == |buf| {
      assert ConsumedHeaders(buf, i + 1) == [];
    }
  }

  lemma NotAtEnd(buf: Bytes, i: nat)
    requires StartCode(buf, i) == 0 && i + 3 < |buf|
    ensures !(EndsInBareCode(buf) && i + 4 == |buf|)
  {
    if i + 4 == |buf| {
      LastFour(buf, i);
    }
  }

  lemma LastFour(buf: Bytes, i: nat)
    requires i + 3 < |buf|
    ensures i + 4 == |buf| ==>
              (buf[|buf| - 4..] == [0, 0, 0, 1] <==>
               At(buf, i) == 0 && At(buf, i + 1) == 0 && At(buf, i + 2) == 0 && At(buf, i + 3) == 1)
  {
    if i + 4 == |buf| {
      assert buf[i..] == [buf[i], buf[i + 1], buf[i + 2], buf[i + 3]];
    }
  }

  /** Nothing is consumed between a consumed code and the byte after its header. */
  lemma SkipCode(buf: Bytes, c: nat)
    requires Consumed(buf, c)
    ensures c + 3 <= |buf| ==>
              ConsumedHeaders(buf, c) ==
              if Seen(buf, c) then [At(buf, c + 3)] + ConsumedHeaders(buf, c + 4) else ConsumedHeaders(buf, c + 4)
    ensures Outside(buf, c + 4)
  {
    assert !Consumed(buf, c + 1) && !Consumed(buf, c + 2) && !Consumed(buf, c + 3);
    assert ConsumedHeaders(buf, c + 1) == ConsumedHeaders(buf, c + 2);
    assert ConsumedHeaders(buf, c + 2) == ConsumedHeaders(buf, c + 3);
    assert ConsumedHeaders(buf, c + 3) == ConsumedHeaders(buf, c + 4);
  }

  lemma BareCodeIsNotInside(buf: Bytes, c: nat)
    requires Consumed(buf, c)
    ensures EndsInBareCode(buf) ==> |buf| - 4 < c || c + 4 <= |buf| - 4
  {
    var n := |buf|;
    if EndsInBareCode(buf) {
      assert buf[n - 4..][0] == buf[n - 4] && buf[n - 4..][1] == buf[n - 3] && buf[n - 4..][2] == buf[n - 2];
    }
  }

  /** On every buffer the scanner counts exactly the headers of the consumed codes it can see. */
  lemma ScanCountsConsumed(buf: Bytes)
    ensures Scan(buf, 0) == ConsumedHeaders(buf, 0)
  {
    ScanOutside(buf, 0);
  }

  /** The scanner looks past the end exactly when the buffer ends in a bare four-byte start code. */
  lemma ScanReadsPastIff(buf: Bytes)
    ensures ReadsPast(buf, 0) <==> EndsInBareCode(buf)
  {
    ScanOutside(buf, 0);
  }

  lemma ReadsPastExample()
    ensures Scan([0, 0, 0, 1], 0) == [0] && ReadsPast([0, 0, 0, 1], 0)
  {
    var buf: Bytes := [0, 0, 0, 1];
    assert Scan(buf, 5) == [];
  }
}
