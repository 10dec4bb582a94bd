/** The hard-capped byte capture of a process's output
    (commander-native-tool-v2-final-collect.ts). */
module Capture {
  import opened FileSystem

  /** A byte of the form 10xxxxxx (section 3 of RFC 3629). */
  predicate Continuation(b: Byte) {
    0x80 <= b < 0xc0
  }

  /** The length a lead byte announces; 1 for bytes that are no lead byte. */
  function LeadLength(b: Byte): nat
    requires b >= 0xc0
  {
    if b < 0xe0 then 2 else if b < 0xf0 then 3 else if b < 0xf8 then 4 else 1
  }

  /** Where the last code point of the first `k` bytes starts. */
  function LastStart(bytes: Bytes, k: nat): (start: nat)
    requires 0 < k <= |bytes|
    ensures start < k && (start > 0 ==> !Continuation(bytes[start]))
    ensures forall i | start < i < k :: Continuation(bytes[i])
  {
    if k == 1 || !Continuation(bytes[k - 1]) then k - 1 else LastStart(bytes, k - 1)
  }

  /** The cut for `cut` bytes: before the last code point when it is split. */
  function CutOf(bytes: Bytes, cut: nat): (r: nat)
    requires cut <= |bytes|
    ensures r <= cut
  {
    if cut == 0 then 0
    else
      var start := LastStart(bytes, cut);
      if bytes[start] < 0xc0 || start + LeadLength(bytes[start]) <= cut then cut else start
  }

  /** The scan back from the cut. */
  method BoundaryCut(bytes: Bytes, maxBytes: nat) returns (r: nat)
    ensures r == CutOf(bytes, if maxBytes < |bytes| then maxBytes else |bytes|)
  {
    var cut := if maxBytes < |bytes| then maxBytes else |bytes|;
    if cut == 0 { return 0; }
    var start: nat := cut - 1;
    while start > 0 && Continuation(bytes[start])
      invariant start < cut && LastStart(bytes, start + 1) == LastStart(bytes, cut)
    {
      start := start - 1;
    }
    var b := bytes[start];
    if b < 0xc0 { return cut; }
    return if start + LeadLength(b) <= cut then cut else start;
  }

  // -------------------------------------------------------------------------
  // Code points
  // -------------------------------------------------------------------------

  /** The length of the code point that starts with `b`; 0 if none does. */
  function PointLength(b: Byte): nat {
    if b < 0x80 then 1 else if Continuation(b) || b >= 0xf8 then 0 else LeadLength(b)
  }

  /** A sequence of code points, each a lead byte with its continuation bytes.
      Every valid UTF-8 stream is one. */
  predicate WellFormed(s: Bytes) {
    s == [] ||
      var n := PointLength(s[0]);
      0 < n <= |s| && (forall i | 1 <= i < n :: Continuation(s[i])) && WellFormed(s[n..])
  }

  /** `k` bytes are a whole number of code points. */
  predicate Boundary(s: Bytes, k: nat)
    requires WellFormed(s)
  {
    k == 0 || (s != [] && k >= PointLength(s[0]) && Boundary(s[PointLength(s[0])..], k - PointLength(s[0])))
  }

  lemma {:induction false} BoundaryWithin(s: Bytes, k: nat)
    requires WellFormed(s) && Boundary(s, k)
    ensures k <= |s| && (k < |s| ==> !Continuation(s[k]))
  {
    if k > 0 { BoundaryWithin(s[PointLength(s[0])..], k - PointLength(s[0])); }
  }

  /** Dropping whole code points at the front does not move the cut. */
  lemma {:induction false} LastStartDrop(s: Bytes, n: nat, k: nat)
    requires n < k <= |s| && !Continuation(s[n])
    ensures LastStart(s, k) == n + LastStart(s[n..], k - n)
  {
    if k > n + 1 && Continuation(s[k - 1]) { LastStartDrop(s, n, k - 1); }
  }

  lemma CutDrop(s: Bytes, n: nat, cap: nat)
    requires n < cap <= |s| && !Continuation(s[n])
    ensures CutOf(s, cap) == n + CutOf(s[n..], cap - n)
  {
    LastStartDrop(s, n, cap);
  }

  /** Within the first code point the cut is before or after all of it. */
  lemma {:induction false} CutFirst(s: Bytes, cap: nat)
    requires s != [] && WellFormed(s) && 0 < cap <= PointLength(s[0])
    ensures CutOf(s, cap) == if cap < PointLength(s[0]) then 0 else cap
  {
    var start := LastStart(s, cap);
    assert start == 0;
  }

  predicate GreatestBoundary(s: Bytes, cap: nat, r: nat)
    requires WellFormed(s)
  {
    && r <= cap && Boundary(s, r)
    && forall b: nat :: Boundary(s, b) && b <= cap ==> b <= r
  }

  /** On code points the cut is the greatest boundary not above the cap. */
  lemma {:induction false} CutIsGreatestBoundary(s: Bytes, cap: nat)
    requires WellFormed(s) && cap <= |s|
    ensures GreatestBoundary(s, cap, CutOf(s, cap))
  {
    if cap > 0 {
      var n := PointLength(s[0]);
      if cap <= n {
        CutFirst(s, cap);
        if cap == n { assert Boundary(s, n); }
      } else {
        var rest := s[n..];
        CutIsGreatestBoundary(rest, cap - n);
        assert WellFormed(rest) && rest[0] == s[n];
        CutDrop(s, n, cap);
        LaterBoundary(s, cap, CutOf(rest, cap - n));
      }
    }
  }

  /** Past the first code point the greatest boundary is that of the rest. */
  lemma {:induction false} LaterBoundary(s: Bytes, cap: nat, r: nat)
    requires s != [] && WellFormed(s) && PointLength(s[0]) < cap
    requires GreatestBoundary(s[PointLength(s[0])..], cap - PointLength(s[0]), r)
    ensures GreatestBoundary(s, cap, PointLength(s[0]) + r)
  {
    var n := PointLength(s[0]);
    var rest := s[n..];
    assert WellFormed(rest);
    hide WellFormed;
    forall b: nat | Boundary(s, b) && b <= cap ensures b <= n + r {
      if b > 0 { assert Boundary(rest, b - n); }
    }
  }

  // -------------------------------------------------------------------------
  // The capture
  // -------------------------------------------------------------------------

  /** What a capture with this cap keeps of a stream. */
  function Captured(maxBytes: nat, stream: Bytes): Bytes {
    if |stream| <= maxBytes then stream else stream[..CutOf(stream[..maxBytes], maxBytes)]
  }

  function Concat(chunks: seq<Bytes>): Bytes {
    if chunks == [] then [] else Concat(chunks[..|chunks| - 1]) + chunks[|chunks| - 1]
  }

  lemma {:induction false} ConcatMore(chunks: seq<Bytes>, chunk: Bytes)
    ensures Concat(chunks + [chunk]) == Concat(chunks) + chunk
  {
    assert (chunks + [chunk])[..|chunks|] == chunks;
  }

  /** What a longer stream keeps. */
  lemma CapturedMore(maxBytes: nat, stream: Bytes, raw: Bytes)
    ensures |stream| > maxBytes ==> Captured(maxBytes, stream + raw) == Captured(maxBytes, stream)
    ensures |stream| <= maxBytes ==> Captured(maxBytes, stream) == stream
    ensures |stream + raw| <= maxBytes ==> Captured(maxBytes, stream + raw) == stream + raw
    ensures |stream| <= maxBytes < |stream + raw| ==>
      var full := stream + raw[..maxBytes - |stream|];
      |full| == maxBytes && Captured(maxBytes, stream + raw) == full[..CutOf(full, maxBytes)]
  {
    hide CutOf;
    var more := stream + raw;
    if |stream| > maxBytes {
      assert more[..maxBytes] == stream[..maxBytes];
    } else if |more| > maxBytes {
      var full := stream + raw[..maxBytes - |stream|];
      assert more[..maxBytes] == full;
    }
  }

  lemma ConcatOne(chunk: Bytes)
    ensures Concat([]) == [] && Concat([chunk]) == chunk
  {
    ConcatMore([], chunk);
    assert [] + [chunk] == [chunk];
  }

  class CappedCapture {
    const maxBytes: nat
    var chunks: seq<Bytes>
    var storedBytes: nat
    var totalBytes: nat
    var overflowed: bool
    /** Everything appended so far. */
    ghost var stream: Bytes

    ghost predicate Valid()
      reads this
    {
      && totalBytes == |stream|
      && (overflowed <==> |stream| > maxBytes)
      && Concat(chunks) == Captured(maxBytes, stream)
      && storedBytes == |Concat(chunks)|
    }

    constructor (maxBytes: nat)
      ensures Valid() && this.maxBytes == maxBytes && stream == []
    {
      this.maxBytes := maxBytes;
      chunks, storedBytes, totalBytes, overflowed, stream := [], 0, 0, false, [];
    }

    /** Append raw bytes; those beyond the cap are counted but not stored.
        Whatever way a stream is split, what is kept depends on the stream. */
    method Append(raw: Bytes)
      requires Valid()
      modifies this
      ensures Valid() && stream == old(stream) + raw
      ensures old(overflowed) ==> overflowed && chunks == old(chunks) && storedBytes == old(storedBytes)
    {
      hide CutOf, Captured, Concat;
      CapturedMore(maxBytes, stream, raw);
      totalBytes := totalBytes + |raw|;
      stream := stream + raw;
      if |raw| == 0 {
        assert stream == old(stream);
        return;
      }
      if overflowed { return; }
      var room := maxBytes - storedBytes;
      if |raw| <= room {
        ConcatMore(chunks, raw);
        chunks := chunks + [raw];
        storedBytes := storedBytes + |raw|;
        return;
      }
      overflowed := true;
      var full := Concat(chunks) + raw[..room];
      var cut := BoundaryCut(full, |full|);
      ConcatOne(full[..cut]);
      chunks := if cut > 0 then [full[..cut]] else [];
      storedBytes := cut;
    }
  }

  /** Any way of splitting a stream over appends leaves the same capture. */
  method AppendAll(capture: CappedCapture, pieces: seq<Bytes>)
    requires capture.Valid() && capture.stream == []
    modifies capture
    ensures Concat(capture.chunks) == Captured(capture.maxBytes, Concat(pieces))
    ensures capture.totalBytes == |Concat(pieces)|
    ensures capture.overflowed <==> |Concat(pieces)| > capture.maxBytes
  {
    hide CappedCapture.Valid;
    assert pieces[..0] == [];
    for i := 0 to |pieces|
      invariant capture.Valid() && capture.stream == Concat(pieces[..i])
    {
      assert pieces[..i + 1] == pieces[..i] + [pieces[i]];
      ConcatMore(pieces[..i], pieces[i]);
      capture.Append(pieces[i]);
    }
    assert pieces[..|pieces|] == pieces;
    Kept(capture);
  }

  lemma Kept(capture: CappedCapture)
    requires capture.Valid()
    ensures Concat(capture.chunks) == Captured(capture.maxBytes, capture.stream)
    ensures capture.totalBytes == |capture.stream|
    ensures capture.overflowed <==> |capture.stream| > capture.maxBytes
  {
  }

  /** Whatever is captured of code points is code points, as many as fit. */
  lemma {:induction false} CapturedWhole(maxBytes: nat, stream: Bytes)
    requires WellFormed(stream)
    ensures |Captured(maxBytes, stream)| <= maxBytes
    ensures Captured(maxBytes, stream) == stream[..|Captured(maxBytes, stream)|]
    ensures GreatestBoundary(stream, maxBytes, |Captured(maxBytes, stream)|)
  {
    if |stream| <= maxBytes {
      AllIsBoundary(stream);
      forall b: nat | Boundary(stream, b) ensures b <= |stream| { BoundaryWithin(stream, b); }
    } else {
      CutPrefix(stream, maxBytes);
      CutIsGreatestBoundary(stream, maxBytes);
    }
  }

  lemma {:induction false} AllIsBoundary(s: Bytes)
    requires WellFormed(s)
    ensures Boundary(s, |s|)
  {
    if s != [] { AllIsBoundary(s[PointLength(s[0])..]); }
  }

  /** The cut looks at nothing beyond it. */
  lemma CutPrefix(s: Bytes, cap: nat)
    requires cap <= |s|
    ensures CutOf(s[..cap], cap) == CutOf(s, cap)
  {
    if cap > 0 {
      LastStartPrefix(s, cap, cap);
    }
  }

  lemma {:induction false} LastStartPrefix(s: Bytes, cap: nat, k: nat)
    requires 0 < k <= cap <= |s|
    ensures LastStart(s[..cap], k) == LastStart(s, k)
  {
    if k > 1 { LastStartPrefix(s, cap, k - 1); }
  }
}
