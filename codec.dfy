/** The command that sets the signal generator's sixteen inputs, and the
    one-byte answer the generator sends back. */
module Codec {
  import opened Bytes
  import opened Config
  import opened Wrappers

  /** Odd positions of the input list are frequencies, even ones amplitudes. */
  predicate IsFrequency(k: nat)
  {
    k % 2 == 1
  }

  /** Bytes taken by input k: one for an amplitude, two for a frequency. */
  function FieldWidth(k: nat): nat
  {
    if IsFrequency(k) then 2 else 1
  }

  /** Whether value v can be packed as input k: an amplitude as one unsigned byte,
      a frequency (already multiplied by ten) as two. */
  predicate InRange(k: nat, v: int)
  {
    if IsFrequency(k) then 0 <= v < 0x1_0000 else 0 <= v < 0x100
  }

  /** The value input k carries in its bytes. */
  function FieldValue(k: nat, b: seq<byte>): nat
    requires |b| == FieldWidth(k)
  {
    if IsFrequency(k) then Le16Value(b[0], b[1]) else b[0]
  }

  /** The bytes of input k: int.to_bytes(1, 'little') for an amplitude,
      int.to_bytes(2, 'little') for a frequency. */
  function EncodeField(k: nat, v: int): (r: seq<byte>)
    requires InRange(k, v)
    ensures |r| == FieldWidth(k)
    ensures FieldValue(k, r) == v
  {
    if IsFrequency(k) then Le16(v) else [v]
  }

  /** Where input k starts in a command. */
  function FieldStart(k: nat): nat
  {
    k + k / 2
  }

  /** The length of a command carrying n inputs. */
  function CommandLength(n: nat): nat
  {
    FieldStart(n)
  }

  /** Inputs follow each other without gaps. */
  lemma FieldsAdjoin(k: nat)
    ensures FieldStart(k) + FieldWidth(k) == FieldStart(k + 1)
  {
  }

  /** A command, or the position of the first input whose value does not fit
      (to_bytes raising OverflowError). */
  datatype Encoding = Command(bytes: seq<byte>) | Overflow(index: nat)

  /** The command for the given inputs, built input by input in order; the first
      input out of range aborts it. */
  function Encode(values: seq<int>): (r: Encoding)
    ensures r.Command? ==> |r.bytes| == CommandLength(|values|)
  {
    if values == [] then Command([])
    else
      var k := |values| - 1;
      match Encode(values[..k])
      case Overflow(i) => Overflow(i)
      case Command(q) =>
        FieldsAdjoin(k);
        if InRange(k, values[k]) then Command(q + EncodeField(k, values[k])) else Overflow(k)
  }

  /** Appending one input to a list: the list's failure stands, otherwise the input
      either adds its bytes or is the one that fails. */
  lemma EncodeSnoc(p: seq<int>, v: int)
    ensures Encode(p + [v]) ==
      if Encode(p).Overflow? then Encode(p)
      else if InRange(|p|, v) then Command(Encode(p).bytes + EncodeField(|p|, v))
      else Overflow(|p|)
  {
    assert (p + [v])[..|p|] == p;
  }

  /** Encoding succeeds exactly when every input is in range, and then the command
      has one byte per amplitude and two per frequency; otherwise it stops at the
      first input out of range. */
  lemma {:induction false} EncodeOutcome(values: seq<int>)
    ensures Encode(values).Command? <==> forall k :: 0 <= k < |values| ==> InRange(k, values[k])
    ensures Encode(values).Overflow? ==>
      var i := Encode(values).index;
      i < |values| && !InRange(i, values[i]) &&
      forall k :: 0 <= k < i ==> InRange(k, values[k])
  {
    if values != [] {
      var k := |values| - 1;
      EncodeOutcome(values[..k]);
      OutcomeStep(values[..k], values[k]);
      LastSplit(values);
    }
  }

  /** The step of EncodeOutcome: what holds of a list carries over to the list
      with one more input. */
  lemma OutcomeStep(p: seq<int>, v: int)
    requires Encode(p).Command? <==> forall k :: 0 <= k < |p| ==> InRange(k, p[k])
    requires Encode(p).Overflow? ==>
      var i := Encode(p).index;
      i < |p| && !InRange(i, p[i]) && forall k :: 0 <= k < i ==> InRange(k, p[k])
    ensures var s := p + [v];
      (Encode(s).Command? <==> forall k :: 0 <= k < |s| ==> InRange(k, s[k])) &&
      (Encode(s).Overflow? ==>
        var i := Encode(s).index;
        i < |s| && !InRange(i, s[i]) && forall k :: 0 <= k < i ==> InRange(k, s[k]))
  {
    var s := p + [v];
    EncodeSnoc(p, v);
    assert forall j :: 0 <= j < |p| ==> s[j] == p[j];
    if Encode(p).Overflow? {
      assert !InRange(Encode(p).index, s[Encode(p).index]);
    }
  }

  /** Once a prefix of the inputs fails, the whole list fails at the same input. */
  lemma {:induction false} OverflowPersists(values: seq<int>, m: nat)
    requires m <= |values| && Encode(values[..m]).Overflow?
    ensures Encode(values) == Encode(values[..m])
  {
    if m < |values| {
      var k := |values| - 1;
      assert values[..k][..m] == values[..m];
      OverflowPersists(values[..k], m);
    } else {
      assert values[..m] == values;
    }
  }

  /** The inputs a command of n inputs carries, read back field by field. */
  function Decode(q: seq<byte>, n: nat): (r: seq<nat>)
    requires |q| == CommandLength(n)
    ensures |r| == n
  {
    seq(n, k requires 0 <= k < n =>
      FieldsAdjoin(k);
      FieldValue(k, q[FieldStart(k)..FieldStart(k) + FieldWidth(k)]))
  }

  /** Input k of a command sits at its own bytes: the bytes appended after a
      prefix of the command do not move it. */
  lemma DecodePrefix(q: seq<byte>, b: seq<byte>, n: nat)
    requires |q| == CommandLength(n) && |b| == FieldWidth(n)
    ensures |q + b| == CommandLength(n + 1)
    ensures Decode(q + b, n + 1) == Decode(q, n) + [FieldValue(n, b)]
  {
    FieldsAdjoin(n);
    var d := Decode(q + b, n + 1);
    forall k | 0 <= k < n
      ensures d[k] == Decode(q, n)[k]
    {
      FieldsAdjoin(k);
      FieldStartGrows(k + 1, n);
      assert (q + b)[FieldStart(k)..FieldStart(k) + FieldWidth(k)] ==
        q[FieldStart(k)..FieldStart(k) + FieldWidth(k)];
    }
    assert (q + b)[FieldStart(n)..FieldStart(n) + FieldWidth(n)] == b;
  }

  lemma FieldStartGrows(j: nat, k: nat)
    requires j <= k
    ensures FieldStart(j) <= FieldStart(k)
  {
  }

  /** Reading a command back gives the inputs it was built from. */
  lemma {:induction false} DecodeEncode(values: seq<int>)
    requires Encode(values).Command?
    ensures Decode(Encode(values).bytes, |values|) == values
  {
    if values != [] {
      var k := |values| - 1;
      var p := values[..k];
      EncodeLast(values);
      var q := Encode(p).bytes;
      var b := EncodeField(k, values[k]);
      DecodeEncode(p);
      DecodePrefix(q, b, k);
      calc {
        Decode(Encode(values).bytes, |values|);
        Decode(q + b, k + 1);
        Decode(q, k) + [FieldValue(k, b)];
        p + [values[k]];
        { LastSplit(values); }
        values;
      }
    }
  }

  lemma LastSplit(s: seq<int>)
    requires s != []
    ensures s[..|s| - 1] + [s[|s| - 1]] == s
  {
  }

  /** A successful command is the command of all inputs but the last, followed by
      the last input's bytes. */
  lemma EncodeLast(values: seq<int>)
    requires values != [] && Encode(values).Command?
    ensures Encode(values[..|values| - 1]).Command? && InRange(|values| - 1, values[|values| - 1])
    ensures Encode(values).bytes ==
      Encode(values[..|values| - 1]).bytes + EncodeField(|values| - 1, values[|values| - 1])
  {
  }

  /** The bytes of one input, read back and written again, are the same bytes. */
  lemma FieldRoundTrip(k: nat, b: seq<byte>)
    requires |b| == FieldWidth(k)
    ensures InRange(k, FieldValue(k, b)) && EncodeField(k, FieldValue(k, b)) == b
  {
    if IsFrequency(k) {
      assert b == [b[0], b[1]];
    } else {
      assert b == [b[0]];
    }
  }

  lemma ConcatSplit(q: seq<byte>, m: nat)
    requires m <= |q|
    ensures q[..m] + q[m..] == q
  {
  }

  /** Every byte string of the right length is the command of exactly the inputs
      it decodes to. */
  lemma {:induction false} EncodeDecode(q: seq<byte>, n: nat)
    requires |q| == CommandLength(n)
    ensures Encode(Decode(q, n)) == Command(q)
  {
    if n > 0 {
      var k := n - 1;
      FieldsAdjoin(k);
      var p := q[..CommandLength(k)];
      var b := q[CommandLength(k)..];
      ConcatSplit(q, CommandLength(k));
      EncodeDecode(p, k);
      DecodePrefix(p, b, k);
      FieldRoundTrip(k, b);
      EncodeSnoc(Decode(p, k), FieldValue(k, b));
    }
  }

  /** The command for all sixteen generator inputs has 24 bytes. */
  lemma FullCommandLength(values: seq<int>)
    requires |values| == |SignalInput| && Encode(values).Command?
    ensures |Encode(values).bytes| == 24
  {
  }

  /** An amplitude of 12 followed by a frequency of 3.4 (34 tenths) encodes as
      0C 22 00. */
  lemma EncodeExample()
    ensures Encode([12, 34]) == Command([0x0C, 0x22, 0x00])
  {
    var q: seq<byte> := [0x0C, 0x22, 0x00];
    EncodeDecode(q, 2);
    var d := Decode(q, 2);
    assert d[0] == 12;
    assert d[1] == 34 by {
      assert IsFrequency(1) && q[1..3] == [0x22, 0x00];
    }
    assert d == [12, 34];
  }

  /** Builds the command input by input, as the request loop does, stopping at
      the first input out of range. */
  method BuildCommand(values: seq<int>) returns (r: Encoding)
    ensures r == Encode(values)
  {
    var query: seq<byte> := [];
    for k := 0 to |values|
      invariant Encode(values[..k]) == Command(query)
    {
      assert values[..k + 1][..k] == values[..k];
      if !InRange(k, values[k]) {
        OverflowPersists(values, k + 1);
        return Overflow(k);
      }
      query := query + EncodeField(k, values[k]);
    }
    assert values[..|values|] == values;
    r := Command(query);
  }

  /** One lower-case hexadecimal digit. */
  function HexDigit(d: nat): (c: char)
    requires d < 16
  {
    if d < 10 then (48 + d) as char else (87 + d) as char
  }

  /** bytes.hex(): two lower-case hexadecimal digits per byte. */
  function Hex(s: seq<byte>): (r: string)
    ensures |r| == 2 * |s|
  {
    if s == [] then "" else Hex(s[..|s| - 1]) + [HexDigit(s[|s| - 1] / 16), HexDigit(s[|s| - 1] % 16)]
  }

  /** Different digits are written differently. */
  lemma HexDigitInjective(d: nat, e: nat)
    requires d < 16 && e < 16
    ensures HexDigit(d) == HexDigit(e) <==> d == e
  {
  }

  /** A single byte's hex spelling is "aa" exactly for 0xAA. */
  lemma HexAa(b: byte)
    ensures Hex([b]) == "aa" <==> b == 0xAA
  {
    assert [b][..0] == [];
    assert Hex([b]) == [HexDigit(b / 16), HexDigit(b % 16)];
    HexDigitInjective(b / 16, 10);
    HexDigitInjective(b % 16, 10);
    assert HexDigit(10) == 'a';
    assert "aa" == ['a', 'a'];
    assert b == 16 * (b / 16) + b % 16;
  }

  /** The answers the generator's reply is looked up in. */
  const ResponseSwitch: map<string, Outcome> := map["" := GenEmpty(), "aa" := GenAa()]

  /** The outcome for a reply spelled in hex; anything not in the table is an error. */
  function Respond(response: string): (o: Outcome)
    ensures o == GenEmpty() <==> response == ""
    ensures o == GenAa() <==> response == "aa"
    ensures o == GenErr() <==> response != "" && response != "aa"
  {
    if response in ResponseSwitch then ResponseSwitch[response] else GenErr()
  }

  /** A read of one byte from the generator: the first waiting byte, if any. */
  function ReadOne(waiting: seq<byte>): (r: seq<byte>)
    ensures |r| <= 1 && r <= waiting
    ensures r == [] <==> waiting == []
  {
    if waiting == [] then [] else [waiting[0]]
  }

  /** No answer is a warning, 0xAA a success and any other byte an error. */
  lemma AckOutcome(reply: seq<byte>)
    requires |reply| <= 1
    ensures Respond(Hex(reply)) == GenEmpty() <==> reply == []
    ensures Respond(Hex(reply)) == GenAa() <==> reply == [0xAA]
    ensures Respond(Hex(reply)) == GenErr() <==> |reply| == 1 && reply[0] != 0xAA
  {
    if reply != [] {
      HexAa(reply[0]);
      assert reply == [reply[0]];
    }
  }

  /** Sends the command for the sixteen generator inputs and reports the generator's
      answer. The command is built completely before anything is sent, so an input
      out of range sends nothing and reports nothing. */
  method SignalDefine(values: seq<int>, waiting: seq<byte>)
    returns (sent: seq<byte>, reported: Option<Outcome>)
    requires |values| == |SignalInput|
    ensures Encode(values).Overflow? ==> sent == [] && reported == None
    ensures Encode(values).Command? ==>
      sent == Encode(values).bytes && |sent| == 24 &&
      reported == Some(Respond(Hex(ReadOne(waiting))))
  {
    var command := BuildCommand(values);
    match command
    case Overflow(_) =>
      sent, reported := [], None;
    case Command(q) =>
      FullCommandLength(values);
      sent := q;
      var response := Hex(ReadOne(waiting));
      reported := Some(Respond(response));
  }
}
