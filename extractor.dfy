/** The telemetry side of the polling task: collecting up to 36 bytes from the
    sensor port, splitting them over the packet layout, and reading each display
    channel's value out of its field. */
module Extractor {
  import opened Bytes
  import opened Config

  /** Number of one-byte reads the polling task makes per cycle. */
  const PollReads: nat := 36

  function Min(a: nat, b: nat): nat
  {
    if a <= b then a else b
  }

  /** Bytes before field k of a layout: the sum of the first k widths. */
  function Offset(layout: seq<Field>, k: nat): nat
    requires k <= |layout|
  {
    if k == 0 then 0 else Offset(layout, k - 1) + layout[k - 1].width
  }

  /** Bytes a whole layout occupies. */
  function TotalWidth(layout: seq<Field>): nat
  {
    Offset(layout, |layout|)
  }

  /** Offsets grow along the layout. */
  lemma {:induction false} OffsetMonotone(layout: seq<Field>, j: nat, k: nat)
    requires j <= k <= |layout|
    ensures Offset(layout, j) <= Offset(layout, k)
    decreases k
  {
    if j < k {
      OffsetMonotone(layout, j, k - 1);
    }
  }

  /** Dropping the first field shifts every offset by its width. */
  lemma {:induction false} OffsetOfTail(layout: seq<Field>, k: nat)
    requires 0 < |layout| && k < |layout|
    ensures Offset(layout, k + 1) == layout[0].width + Offset(layout[1..], k)
  {
    if k > 0 {
      OffsetOfTail(layout, k - 1);
    }
  }

  /** Position of the first field called name at or after position k, or |layout|
      when there is none: the dictionary lookup of a field by its key. */
  function IndexFrom(layout: seq<Field>, name: FieldName, k: nat): (i: nat)
    requires k <= |layout|
    ensures k <= i <= |layout|
    ensures i < |layout| ==> layout[i].name == name
    decreases |layout| - k
  {
    if k == |layout| then k
    else if layout[k].name == name then k
    else IndexFrom(layout, name, k + 1)
  }

  /** The search finds the first field called name at or after position k, and
      it reaches the end of the layout exactly when there is no such field. */
  lemma {:induction false} IndexFromFirst(layout: seq<Field>, name: FieldName, k: nat)
    requires k <= |layout|
    ensures forall j :: k <= j < IndexFrom(layout, name, k) ==> layout[j].name != name
    ensures IndexFrom(layout, name, k) == |layout| <==>
      forall j :: k <= j < |layout| ==> layout[j].name != name
    decreases |layout| - k
  {
    if k < |layout| && layout[k].name != name {
      IndexFromFirst(layout, name, k + 1);
    }
  }

  function IndexOf(layout: seq<Field>, name: FieldName): (i: nat)
  {
    IndexFrom(layout, name, 0)
  }

  /** What splitting a poll's bytes over the layout yields: the byte string of
      every field in layout order, or the IndexError of popping an exhausted list. */
  datatype Extraction = Fields(chunks: seq<seq<byte>>) | PopFromEmpty

  /** Prefix already-extracted chunks to the extraction of the rest. */
  function Prefixed(done: seq<seq<byte>>, rest: Extraction): Extraction
  {
    match rest
    case Fields(cs) => Fields(done + cs)
    case PopFromEmpty => PopFromEmpty
  }

  /** Chunks whose widths match the layout field by field. */
  predicate Fits(layout: seq<Field>, chunks: seq<seq<byte>>)
  {
    |chunks| == |layout| && forall k :: 0 <= k < |layout| ==> |chunks[k]| == layout[k].width
  }

  /** Reference definition of the split: each field in turn takes the next
      width bytes, and running out of bytes is an error. A successful split
      has one chunk per field. */
  function Split(layout: seq<Field>, raw: seq<byte>): (r: Extraction)
    ensures r.Fields? ==> |r.chunks| == |layout|
  {
    if layout == [] then Fields([])
    else if |raw| < layout[0].width then PopFromEmpty
    else Prefixed([raw[..layout[0].width]], Split(layout[1..], raw[layout[0].width..]))
  }

  /** The split succeeds exactly when the bytes cover the layout. */
  lemma {:induction false} SplitSucceedsIff(layout: seq<Field>, raw: seq<byte>)
    ensures Split(layout, raw).Fields? <==> |raw| >= TotalWidth(layout)
  {
    if layout != [] {
      var w := layout[0].width;
      OffsetOfTail(layout, |layout| - 1);
      assert TotalWidth(layout) == w + TotalWidth(layout[1..]);
      if |raw| >= w {
        SplitSucceedsIff(layout[1..], raw[w..]);
      }
    }
  }

  /** Field k of a successful split holds the bytes from Offset k up to Offset k+1. */
  lemma {:induction false} SplitChunk(layout: seq<Field>, raw: seq<byte>, k: nat)
    requires Split(layout, raw).Fields? && k < |layout|
    ensures |Split(layout, raw).chunks| == |layout|
    ensures Offset(layout, k) <= Offset(layout, k + 1) <= |raw|
    ensures Split(layout, raw).chunks[k] == raw[Offset(layout, k)..Offset(layout, k + 1)]
    decreases k
  {
    var w := layout[0].width;
    var tail := layout[1..];
    var rest := Split(tail, raw[w..]);
    assert Split(layout, raw) == Prefixed([raw[..w]], rest);
    if k > 0 {
      SplitChunk(tail, raw[w..], k - 1);
      OffsetOfTail(layout, k - 1);
      OffsetOfTail(layout, k);
      assert Split(layout, raw).chunks[k] == rest.chunks[k - 1];
    }
  }

  /** The bytes that field k of a layout occupies in a packet: from Offset k up
      to Offset k+1. */
  function FieldBytes(layout: seq<Field>, raw: seq<byte>, k: nat): (r: seq<byte>)
    requires TotalWidth(layout) <= |raw| && k < |layout|
    ensures |r| == layout[k].width
  {
    OffsetMonotone(layout, k + 1, |layout|);
    raw[Offset(layout, k)..Offset(layout, k + 1)]
  }

  /** The value read from field k, for a field known to start at s and end
      before e, is the value of bytes s up to e. */
  lemma FieldValueAt(layout: seq<Field>, raw: seq<byte>, k: nat, s: nat, e: nat, v: nat)
    requires TotalWidth(layout) <= |raw| && k < |layout|
    requires Offset(layout, k) == s && Offset(layout, k + 1) == e
    requires v == BeValue(FieldBytes(layout, raw, k))
    ensures s <= e <= |raw| && v == BeValue(raw[s..e])
  {
    OffsetMonotone(layout, k + 1, |layout|);
  }

  /** A split succeeds exactly when the bytes cover the layout, and then field k
      holds exactly its own bytes: bytes are consumed in arrival order and each
      field gets its width. */
  lemma SplitPositions(layout: seq<Field>, raw: seq<byte>)
    requires TotalWidth(layout) <= |raw|
    ensures Split(layout, raw).Fields?
    ensures |Split(layout, raw).chunks| == |layout|
    ensures forall k :: 0 <= k < |layout| ==> Split(layout, raw).chunks[k] == FieldBytes(layout, raw, k)
  {
    SplitSucceedsIff(layout, raw);
    forall k | 0 <= k < |layout|
      ensures Split(layout, raw).chunks[k] == FieldBytes(layout, raw, k)
    {
      SplitChunk(layout, raw, k);
    }
  }

  /** The bytes of a layout's fields written one after another. */
  function Join(chunks: seq<seq<byte>>): seq<byte>
  {
    if chunks == [] then [] else chunks[0] + Join(chunks[1..])
  }

  /** Round trip: writing fields that fit the layout one after another (followed by
      anything) and splitting the result gives back those fields. */
  lemma {:induction false} SplitJoin(layout: seq<Field>, chunks: seq<seq<byte>>, tail: seq<byte>)
    requires Fits(layout, chunks)
    ensures Split(layout, Join(chunks) + tail) == Fields(chunks)
  {
    if layout != [] {
      var w := layout[0].width;
      var raw := Join(chunks) + tail;
      assert Fits(layout[1..], chunks[1..]) by {
        forall k | 0 <= k < |layout| - 1
          ensures |chunks[1..][k]| == layout[1..][k].width
        {
          assert chunks[1..][k] == chunks[k + 1];
        }
      }
      SplitJoin(layout[1..], chunks[1..], tail);
      assert raw == chunks[0] + (Join(chunks[1..]) + tail);
      assert raw[..w] == chunks[0];
      assert raw[w..] == Join(chunks[1..]) + tail;
      assert [chunks[0]] + chunks[1..] == chunks;
    }
  }

  /** The list as reversed in place before popping: its last element is the
      first byte received. */
  function Reversed(s: seq<byte>): (r: seq<byte>)
    ensures |r| == |s|
  {
    if s == [] then [] else Reversed(s[1..]) + [s[0]]
  }

  /** Collecting one poll: PollReads reads of at most one byte each from the
      bytes waiting at the sensor port. */
  method Collect(waiting: seq<byte>) returns (raw: seq<byte>, unread: seq<byte>)
    ensures raw + unread == waiting
    ensures |raw| == Min(PollReads, |waiting|)
  {
    raw, unread := [], waiting;
    for i := 0 to PollReads
      invariant raw + unread == waiting
      invariant |raw| == Min(i, |waiting|)
    {
      if unread != [] {
        raw, unread := raw + [unread[0]], unread[1..];
      }
    }
  }

  /** Popping the reversed remainder of the bytes yields the next byte in
      arrival order and leaves the reversed rest. */
  lemma PopReversed(raw: seq<byte>, p: nat)
    requires p < |raw|
    ensures Reversed(raw[p..]) != []
    ensures Reversed(raw[p..])[|raw| - p - 1] == raw[p]
    ensures Reversed(raw[p..])[..|raw| - p - 1] == Reversed(raw[p + 1..])
  {
    assert raw[p..][1..] == raw[p + 1..];
  }

  /** One step of the reference split from field k and byte pos on. */
  lemma SplitStep(layout: seq<Field>, raw: seq<byte>, k: nat, pos: nat)
    requires k < |layout| && pos <= |raw|
    ensures pos + layout[k].width > |raw| ==> Split(layout[k..], raw[pos..]) == PopFromEmpty
    ensures pos + layout[k].width <= |raw| ==>
      Split(layout[k..], raw[pos..]) ==
      Prefixed([raw[pos..pos + layout[k].width]], Split(layout[k + 1..], raw[pos + layout[k].width..]))
  {
    var w := layout[k].width;
    assert layout[k..][0] == layout[k] && layout[k..][1..] == layout[k + 1..];
    if pos + w <= |raw| {
      assert raw[pos..][..w] == raw[pos..pos + w];
      assert raw[pos..][w..] == raw[pos + w..];
    }
  }

  lemma PrefixedTwice(a: seq<seq<byte>>, b: seq<seq<byte>>, rest: Extraction)
    ensures Prefixed(a, Prefixed(b, rest)) == Prefixed(a + b, rest)
  {
    if rest.Fields? {
      assert a + (b + rest.chunks) == (a + b) + rest.chunks;
    }
  }

  /** Popping the bytes of one field of width w off the end of the reversed
      remainder of the poll, which starts at byte pos; ok is false when the list
      runs out first. */
  method PopField(ghost raw: seq<byte>, ghost pos: nat, w: nat, stack: seq<byte>)
    returns (ok: bool, chunk: seq<byte>, rest: seq<byte>)
    requires pos <= |raw| && stack == Reversed(raw[pos..])
    ensures ok <==> pos + w <= |raw|
    ensures ok ==> chunk == raw[pos..pos + w] && rest == Reversed(raw[pos + w..])
  {
    chunk, rest := [], stack;
    for b := 0 to w
      invariant pos + b <= |raw| && rest == Reversed(raw[pos + b..])
      invariant chunk == raw[pos..pos + b]
    {
      if rest == [] {
        return false, chunk, rest;
      }
      PopReversed(raw, pos + b);
      chunk := chunk + [rest[|rest| - 1]];
      rest := rest[..|rest| - 1];
    }
    ok := true;
  }

  /** Splitting one poll's bytes the way the polling task does: reverse the
      list, then for each field in layout order pop width bytes off its end. */
  method Extract(layout: seq<Field>, raw: seq<byte>) returns (r: Extraction)
    ensures r == Split(layout, raw)
  {
    var stack := Reversed(raw);
    var fields: seq<seq<byte>> := [];
    ghost var pos: nat := 0;
    for k := 0 to |layout|
      invariant pos <= |raw| && stack == Reversed(raw[pos..])
      invariant Split(layout, raw) == Prefixed(fields, Split(layout[k..], raw[pos..]))
    {
      var w := layout[k].width;
      SplitStep(layout, raw, k, pos);
      var ok, chunk;
      ok, chunk, stack := PopField(raw, pos, w, stack);
      if !ok {
        return PopFromEmpty;
      }
      PrefixedTwice(fields, [chunk], Split(layout[k + 1..], raw[pos + w..]));
      fields := fields + [chunk];
      pos := pos + w;
    }
    assert fields + [] == fields;
    r := Fields(fields);
  }
}
