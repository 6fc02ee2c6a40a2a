/** The sensor's packet layout at work: where each display channel's field
    lies, what one polling cycle yields, and the values it appends. */
module Packet {
  import opened Bytes
  import opened Config
  import opened Extractor

  /** The layout fills exactly the bytes one poll collects. */
  lemma ProtocolFillsPoll()
    ensures TotalWidth(SignalProtocol) == PollReads
  {
    assert Offset(SignalProtocol, 5) == 7;
    assert Offset(SignalProtocol, 10) == 22;
    assert Offset(SignalProtocol, 14) == 32;
    assert Offset(SignalProtocol, 18) == 36;
  }

  /** Where the fields that hold display channels start. */
  lemma ProtocolOffsets()
    ensures Offset(SignalProtocol, 5) == 7 && Offset(SignalProtocol, 6) == 10
    ensures Offset(SignalProtocol, 7) == 13 && Offset(SignalProtocol, 8) == 16
    ensures Offset(SignalProtocol, 9) == 19 && Offset(SignalProtocol, 10) == 22
    ensures Offset(SignalProtocol, 11) == 25 && Offset(SignalProtocol, 12) == 28
    ensures Offset(SignalProtocol, 13) == 31 && Offset(SignalProtocol, 14) == 32
    ensures Offset(SignalProtocol, 15) == 33 && Offset(SignalProtocol, 16) == 34
    ensures Offset(SignalProtocol, 17) == 35
  {
    assert Offset(SignalProtocol, 5) == 7;
    assert Offset(SignalProtocol, 10) == 22;
    assert Offset(SignalProtocol, 14) == 32;
  }

  /** Position of each display channel's field in the layout, in channel order. */
  const ChannelIndex: seq<nat> := [7, 8, 9, 10, 5, 11, 12, 6, 14, 16]

  /** The position of a field in the layout, by the order the names are declared. */
  function Ordinal(name: FieldName): (k: nat)
    ensures k < 18
  {
    match name
    case Sync => 0
    case PLength => 1
    case SignalQuality => 2
    case AsicEegPowerInt => 3
    case VLength => 4
    case Delta => 5
    case Theta => 6
    case LowAlpha => 7
    case HighAlpha => 8
    case LowBeta => 9
    case HighBeta => 10
    case LowGamma => 11
    case MidGamma => 12
    case AttentionId => 13
    case Attention => 14
    case MeditationId => 15
    case Meditation => 16
    case Crc => 17
  }

  // The layout is checked a few fields at a time: each lemma below looks at only
  // four or five entries of the literal table, which keeps every proof small.

  /** The header fields come first, in declaration order. */
  lemma HeaderInOrder(k: nat)
    requires 0 <= k < 5
    ensures Ordinal(SignalProtocol[k].name) == k
  {
    if k == 0 {
      assert SignalProtocol[0].name == Sync;
    } else if k == 1 {
      assert SignalProtocol[1].name == PLength;
    } else if k == 2 {
      assert SignalProtocol[2].name == SignalQuality;
    } else if k == 3 {
      assert SignalProtocol[3].name == AsicEegPowerInt;
    } else {
      assert SignalProtocol[4].name == VLength;
    }
  }

  /** Delta, theta and the alpha fields follow, in declaration order. */
  lemma LowBandsInOrder(k: nat)
    requires 5 <= k < 9
    ensures Ordinal(SignalProtocol[k].name) == k
  {
    if k == 5 {
      assert SignalProtocol[5].name == Delta;
    } else if k == 6 {
      assert SignalProtocol[6].name == Theta;
    } else if k == 7 {
      assert SignalProtocol[7].name == LowAlpha;
    } else {
      assert SignalProtocol[8].name == HighAlpha;
    }
  }

  /** The beta and gamma fields follow, in declaration order. */
  lemma HighBandsInOrder(k: nat)
    requires 9 <= k < 13
    ensures Ordinal(SignalProtocol[k].name) == k
  {
    if k == 9 {
      assert SignalProtocol[9].name == LowBeta;
    } else if k == 10 {
      assert SignalProtocol[10].name == HighBeta;
    } else if k == 11 {
      assert SignalProtocol[11].name == LowGamma;
    } else {
      assert SignalProtocol[12].name == MidGamma;
    }
  }

  /** Attention, meditation, their codes and the checksum close the layout, in declaration order. */
  lemma TrailerInOrder(k: nat)
    requires 13 <= k < 18
    ensures Ordinal(SignalProtocol[k].name) == k
  {
    if k == 13 {
      assert SignalProtocol[13].name == AttentionId;
    } else if k == 14 {
      assert SignalProtocol[14].name == Attention;
    } else if k == 15 {
      assert SignalProtocol[15].name == MeditationId;
    } else if k == 16 {
      assert SignalProtocol[16].name == Meditation;
    } else {
      assert SignalProtocol[17].name == Crc;
    }
  }

  /** The layout lists every field name once, in declaration order. */
  lemma LayoutInOrder()
    ensures |SignalProtocol| == 18
    ensures forall k :: 0 <= k < |SignalProtocol| ==> Ordinal(SignalProtocol[k].name) == k
  {
    forall k | 0 <= k < |SignalProtocol|
      ensures Ordinal(SignalProtocol[k].name) == k
    {
      if k < 5 {
        HeaderInOrder(k);
      } else if k < 9 {
        LowBandsInOrder(k);
      } else if k < 13 {
        HighBandsInOrder(k);
      } else {
        TrailerInOrder(k);
      }
    }
  }

  /** In a layout that lists fields in declaration order, a search from any
      position not past a field finds it at its ordinal. */
  lemma {:induction false} SearchFindsOrdinal(layout: seq<Field>, name: FieldName, k: nat)
    requires forall j :: 0 <= j < |layout| ==> Ordinal(layout[j].name) == j
    requires k <= Ordinal(name) < |layout|
    ensures IndexFrom(layout, name, k) == Ordinal(name)
    decreases Ordinal(name) - k
  {
    if k < Ordinal(name) {
      assert layout[k].name != name;
      SearchFindsOrdinal(layout, name, k + 1);
    }
  }

  /** Every field name is a key of the layout, found at its ordinal. */
  lemma FieldPosition(name: FieldName)
    ensures IndexOf(SignalProtocol, name) == Ordinal(name)
  {
    LayoutInOrder();
    SearchFindsOrdinal(SignalProtocol, name, 0);
  }

  /** Where display channel i sits in the layout. */
  lemma ChannelPosition(i: nat)
    requires i < |Channels|
    ensures IndexOf(SignalProtocol, Channels[i]) == ChannelIndex[i]
  {
    FieldPosition(Channels[i]);
    assert Channels == [LowAlpha, HighAlpha, LowBeta, HighBeta, Delta, LowGamma, MidGamma, Theta, Attention, Meditation];
  }

  /** Every display channel is a key of the layout: looking a channel up among
      the extracted fields never misses. */
  lemma ChannelsAreLayoutKeys()
    ensures forall c :: c in Channels ==> IndexOf(SignalProtocol, c) < |SignalProtocol|
  {
    forall c | c in Channels
      ensures IndexOf(SignalProtocol, c) < |SignalProtocol|
    {
      FieldPosition(c);
    }
  }

  /** The value one poll appends for channel c: the big-endian value of the
      bytes extracted for c's field, looked up by the channel's key. */
  function ChannelValue(chunks: seq<seq<byte>>, c: FieldName): nat
    requires |chunks| == |SignalProtocol| && c in Channels
  {
    ChannelsAreLayoutKeys();
    BeValue(chunks[IndexOf(SignalProtocol, c)])
  }

  /** The values one successful poll appends, one per display channel, in channel order. */
  function Sample(chunks: seq<seq<byte>>): (s: seq<nat>)
    requires |chunks| == |SignalProtocol|
    ensures |s| == |Channels|
  {
    seq(|Channels|, i requires 0 <= i < |Channels| => ChannelValue(chunks, Channels[i]))
  }

  /** What one polling cycle does with the bytes it collected: nothing when there
      were none, dies on the IndexError of an exhausted list, or yields one value
      per channel. */
  datatype PollResult = NoData | Crashed | Sampled(values: seq<nat>)

  function PollOutcome(raw: seq<byte>): (r: PollResult)
    ensures r == NoData <==> raw == []
  {
    if raw == [] then NoData
    else
      match Split(SignalProtocol, raw)
      case PopFromEmpty => Crashed
      case Fields(cs) => Sampled(Sample(cs))
  }

  /** A poll collects at most PollReads bytes; its outcome depends only on how
      many: none, too few to fill the layout, or exactly enough. */
  lemma PollOutcomeByCount(raw: seq<byte>)
    requires |raw| <= PollReads
    ensures PollOutcome(raw) == NoData <==> |raw| == 0
    ensures PollOutcome(raw) == Crashed <==> 0 < |raw| < PollReads
    ensures PollOutcome(raw).Sampled? <==> |raw| == PollReads
  {
    ProtocolFillsPoll();
    SplitSucceedsIff(SignalProtocol, raw);
  }

  /** First and one-past-last byte of each display channel's field in a packet,
      in channel order. */
  const ChannelStart: seq<nat> := [13, 16, 19, 22, 7, 25, 28, 10, 32, 34]
  const ChannelEnd: seq<nat> := [16, 19, 22, 25, 10, 28, 31, 13, 33, 35]

  /** The layout puts channel i's field at ChannelStart[i] up to ChannelEnd[i]. */
  lemma ChannelOffset(i: nat)
    requires i < |Channels|
    ensures Offset(SignalProtocol, ChannelIndex[i]) == ChannelStart[i]
    ensures Offset(SignalProtocol, ChannelIndex[i] + 1) == ChannelEnd[i]
  {
    ProtocolOffsets();
  }

  /** A full poll splits over the whole layout and samples every channel. */
  lemma FullPollSamples(raw: seq<byte>)
    requires |raw| == PollReads
    ensures Split(SignalProtocol, raw).Fields?
    ensures |Split(SignalProtocol, raw).chunks| == |SignalProtocol|
    ensures PollOutcome(raw) == Sampled(Sample(Split(SignalProtocol, raw).chunks))
  {
    ProtocolFillsPoll();
    SplitPositions(SignalProtocol, raw);
  }

  /** Channel i of a sample is read from the field at ChannelIndex[i]. */
  lemma SampleLookup(chunks: seq<seq<byte>>, i: nat)
    requires |chunks| == |SignalProtocol| && i < |Channels|
    ensures Sample(chunks)[i] == BeValue(chunks[ChannelIndex[i]])
  {
    ChannelPosition(i);
  }

  /** In a full poll, field k holds that field's own bytes. */
  lemma FieldChunk(raw: seq<byte>, k: nat)
    requires |raw| == PollReads && k < |SignalProtocol|
    ensures TotalWidth(SignalProtocol) <= |raw|
    ensures Split(SignalProtocol, raw).Fields?
    ensures |Split(SignalProtocol, raw).chunks| == |SignalProtocol|
    ensures Split(SignalProtocol, raw).chunks[k] == FieldBytes(SignalProtocol, raw, k)
  {
    ProtocolFillsPoll();
    SplitPositions(SignalProtocol, raw);
  }

  /** Every display channel's field lies inside the layout. */
  lemma ChannelIndexInLayout(i: nat)
    requires i < |Channels|
    ensures ChannelIndex[i] < |SignalProtocol|
  {
  }

  /** A full poll gives channel i the big-endian value of the bytes of its field. */
  lemma ChannelField(raw: seq<byte>, i: nat)
    requires |raw| == PollReads && i < |Channels|
    ensures TotalWidth(SignalProtocol) <= |raw|
    ensures PollOutcome(raw).Sampled? && |PollOutcome(raw).values| == |Channels|
    ensures PollOutcome(raw).values[i] == BeValue(FieldBytes(SignalProtocol, raw, ChannelIndex[i]))
  {
    ChannelIndexInLayout(i);
    FullPollSamples(raw);
    FieldChunk(raw, ChannelIndex[i]);
    SampleLookup(Split(SignalProtocol, raw).chunks, i);
  }

  /** A full poll gives channel i the big-endian value of bytes ChannelStart[i]
      up to ChannelEnd[i]. */
  lemma ChannelBytes(raw: seq<byte>, i: nat)
    requires |raw| == PollReads && i < |Channels|
    ensures PollOutcome(raw).Sampled? && |PollOutcome(raw).values| == |Channels|
    ensures ChannelStart[i] <= ChannelEnd[i] <= |raw|
    ensures PollOutcome(raw).values[i] == BeValue(raw[ChannelStart[i]..ChannelEnd[i]])
  {
    ChannelField(raw, i);
    ChannelOffset(i);
    FieldValueAt(SignalProtocol, raw, ChannelIndex[i], ChannelStart[i], ChannelEnd[i], PollOutcome(raw).values[i]);
  }

  /** A full poll gives every channel the big-endian value of its own bytes:
      the eight bands three bytes each, attention byte 32 and meditation byte 34. */
  lemma PacketSample(raw: seq<byte>)
    requires |raw| == PollReads
    ensures PollOutcome(raw).Sampled? && |PollOutcome(raw).values| == |Channels|
    ensures forall i :: 0 <= i < |Channels| ==>
      ChannelStart[i] <= ChannelEnd[i] <= |raw| &&
      PollOutcome(raw).values[i] == BeValue(raw[ChannelStart[i]..ChannelEnd[i]])
  {
    ChannelBytes(raw, 0);
    forall i | 0 <= i < |Channels|
      ensures ChannelStart[i] <= ChannelEnd[i] <= |raw| &&
        PollOutcome(raw).values[i] == BeValue(raw[ChannelStart[i]..ChannelEnd[i]])
    {
      ChannelBytes(raw, i);
    }
  }

  /** Attention is byte 32 and meditation byte 34, each read as one unsigned byte. */
  lemma AttentionBytes(raw: seq<byte>)
    requires |raw| == PollReads
    ensures PollOutcome(raw).Sampled?
    ensures PollOutcome(raw).values[8] == raw[32] && PollOutcome(raw).values[9] == raw[34]
  {
    PacketSample(raw);
    assert ChannelStart[8] == 32 && ChannelEnd[8] == 33 && ChannelStart[9] == 34 && ChannelEnd[9] == 35;
    assert raw[32..33] == [raw[32]] && raw[34..35] == [raw[34]];
    assert [raw[32]][..0] == [] && [raw[34]][..0] == [];
  }

  /** Each band's field is three bytes wide. */
  lemma BandWidth(i: nat)
    requires i < |EegOutput|
    ensures ChannelStart[i] + 3 == ChannelEnd[i]
  {
  }

  /** The bands stay below 2^24 and attention and meditation below 2^8. */
  lemma SampleBounds(raw: seq<byte>)
    requires |raw| == PollReads
    ensures PollOutcome(raw).Sampled?
    ensures forall i :: 0 <= i < |EegOutput| ==> PollOutcome(raw).values[i] < 0x100_0000
    ensures PollOutcome(raw).values[8] < 0x100 && PollOutcome(raw).values[9] < 0x100
  {
    AttentionBytes(raw);
    assert Pow256(3) == 0x100_0000;
    forall i | 0 <= i < |EegOutput|
      ensures PollOutcome(raw).values[i] < 0x100_0000
    {
      ChannelBytes(raw, i);
      BandWidth(i);
    }
  }

  /** The delta field bytes 00 01 2C read as 300. */
  lemma DeltaExample(raw: seq<byte>)
    requires |raw| == PollReads && raw[7..10] == [0x00, 0x01, 0x2C]
    ensures PollOutcome(raw).Sampled? && PollOutcome(raw).values[4] == 300
  {
    PacketSample(raw);
    assert ChannelStart[4] == 7 && ChannelEnd[4] == 10;
    var d: seq<byte> := [0x00, 0x01, 0x2C];
    assert d[..2] == [0x00, 0x01] && d[..2][..1] == [0x00] && [0x00][..0] == [];
    assert BeValue([0x00]) == 0;
    assert BeValue([0x00, 0x01]) == 1;
    assert BeValue(d) == 300;
  }
}
