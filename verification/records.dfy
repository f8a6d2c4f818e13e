/**
 * The byte format of a controller command table: a concatenation of records
 * `[opcode, payload length, payload...]`. Encode and Decode are inverse to each
 * other, and overwriting one payload byte of an encoded table leaves every
 * record's opcode, payload length and position unchanged.
 */
module CommandRecords {
  import opened Wrappers

  newtype Byte = b: int | 0 <= b < 256

  /** One controller command: its opcode and the payload bytes that follow it. */
  datatype Command = Command(opcode: Byte, payload: seq<Byte>)

  /** A payload must fit in the one length byte of its record. */
  predicate WellFormed(cs: seq<Command>) {
    forall i :: 0 <= i < |cs| ==> |cs[i].payload| < 256
  }

  /** One record: opcode, payload length, payload. */
  function RecordBytes(c: Command): (s: seq<Byte>)
    requires |c.payload| < 256
  {
    [c.opcode, |c.payload| as Byte] + c.payload
  }

  function Encode(cs: seq<Command>): (s: seq<Byte>)
    requires WellFormed(cs)
  {
    if cs == [] then [] else RecordBytes(cs[0]) + Encode(cs[1..])
  }

  function Decode(s: seq<Byte>): (r: Option<seq<Command>>)
    ensures r.Some? ==> WellFormed(r.value)
    decreases |s|
  {
    if s == [] then Some([])
    else if |s| < 2 || |s| < 2 + s[1] as int then None
    else
      var n := 2 + s[1] as int;
      match Decode(s[n..])
      case None => None
      case Some(rest) => Some([Command(s[0], s[2..n])] + rest)
  }

  lemma {:induction false} DecodeEncode(cs: seq<Command>)
    requires WellFormed(cs)
    ensures Decode(Encode(cs)) == Some(cs)
  {
    if cs != [] {
      var c := cs[0];
      var s := Encode(cs);
      var n := 2 + |c.payload|;
      assert s[1] as int == |c.payload|;
      assert s[2..n] == c.payload;
      assert s[n..] == Encode(cs[1..]);
      DecodeEncode(cs[1..]);
      assert [c] + cs[1..] == cs;
    }
  }

  lemma {:induction false} EncodeDecode(s: seq<Byte>)
    requires Decode(s).Some?
    ensures Encode(Decode(s).value) == s
    decreases |s|
  {
    if s != [] {
      var n := 2 + s[1] as int;
      var cs := Decode(s).value;
      EncodeDecode(s[n..]);
      assert cs[0] == Command(s[0], s[2..n]);
      assert cs[1..] == Decode(s[n..]).value;
      assert s == [s[0], s[1]] + s[2..n] + s[n..];
    }
  }

  /**
   * Where byte `i` of Encode(cs) lies: Some((k, j)) when it is byte `j` of the
   * payload of record `k`, None when it is an opcode, a length byte or past
   * the end.
   */
  function Locate(cs: seq<Command>, i: nat): (r: Option<(nat, nat)>)
    ensures r.Some? ==> r.value.0 < |cs| && r.value.1 < |cs[r.value.0].payload|
  {
    if cs == [] then None
    else
      var n := 2 + |cs[0].payload|;
      if i < 2 then None
      else if i < n then Some((0, i - 2))
      else match Locate(cs[1..], i - n)
        case None => None
        case Some((k, j)) => Some((k + 1, j))
  }

  /** The commands with byte `j` of the payload of record `k` replaced by `b`. */
  function SetPayloadByte(cs: seq<Command>, k: nat, j: nat, b: Byte): (ds: seq<Command>)
    requires k < |cs| && j < |cs[k].payload|
    ensures SameLayout(cs, ds)
    ensures ds[k].payload[j] == b
    ensures forall m :: 0 <= m < |cs| && m != k ==> ds[m] == cs[m]
    ensures forall p :: 0 <= p < |cs[k].payload| && p != j ==> ds[k].payload[p] == cs[k].payload[p]
  {
    cs[k := Command(cs[k].opcode, cs[k].payload[j := b])]
  }

  /** The opcodes of a command list, in order. */
  function Opcodes(cs: seq<Command>): (ops: seq<Byte>)
    ensures |ops| == |cs| && forall m :: 0 <= m < |cs| ==> ops[m] == cs[m].opcode
  {
    seq(|cs|, m requires 0 <= m < |cs| => cs[m].opcode)
  }

  lemma SameLayoutOpcodes(cs: seq<Command>, ds: seq<Command>)
    requires SameLayout(cs, ds)
    ensures Opcodes(cs) == Opcodes(ds)
  {
  }

  /** Same number of records, and the same opcode and payload length in each. */
  predicate SameLayout(cs: seq<Command>, ds: seq<Command>) {
    |cs| == |ds| &&
    forall m :: 0 <= m < |cs| ==> cs[m].opcode == ds[m].opcode && |cs[m].payload| == |ds[m].payload|
  }

  lemma {:induction false} EncodeSetPayloadByte(cs: seq<Command>, i: nat, b: Byte)
    requires WellFormed(cs) && Locate(cs, i).Some?
    ensures var (k, j) := Locate(cs, i).value;
            WellFormed(SetPayloadByte(cs, k, j, b)) &&
            i < |Encode(cs)| &&
            Encode(cs)[i := b] == Encode(SetPayloadByte(cs, k, j, b))
  {
    var (k, j) := Locate(cs, i).value;
    var ds := SetPayloadByte(cs, k, j, b);
    var c := cs[0];
    var n := 2 + |c.payload|;
    var header := [c.opcode, |c.payload| as Byte];
    assert Encode(cs) == header + c.payload + Encode(cs[1..]);
    if i < n {
      assert ds == [Command(c.opcode, c.payload[j := b])] + cs[1..];
      assert ds[1..] == cs[1..];
      assert Encode(ds) == header + c.payload[j := b] + Encode(cs[1..]);
      assert Encode(cs)[i := b] == header + c.payload[j := b] + Encode(cs[1..]);
    } else {
      var (k', j') := Locate(cs[1..], i - n).value;
      assert k == k' + 1 && j == j';
      EncodeSetPayloadByte(cs[1..], i - n, b);
      var rest := SetPayloadByte(cs[1..], k', j', b);
      assert ds == [c] + rest;
      assert ds[0] == c && ds[1..] == rest;
      assert Encode(ds) == header + c.payload + Encode(rest);
      assert Encode(cs)[i := b] == header + c.payload + Encode(cs[1..])[i - n := b];
    }
  }

  /**
   * Overwriting a payload byte of a well-formed table yields a well-formed
   * table with the same records, except for that one byte.
   */
  lemma PatchPayloadByte(s: seq<Byte>, i: nat, b: Byte)
    requires Decode(s).Some? && Locate(Decode(s).value, i).Some?
    ensures i < |s|
    ensures var (k, j) := Locate(Decode(s).value, i).value;
            Decode(s[i := b]) == Some(SetPayloadByte(Decode(s).value, k, j, b))
  {
    var cs := Decode(s).value;
    var (k, j) := Locate(cs, i).value;
    EncodeDecode(s);
    EncodeSetPayloadByte(cs, i, b);
    DecodeEncode(SetPayloadByte(cs, k, j, b));
  }

  /**
   * `starts` lists the offset at which each record of the encoding of `cs`
   * begins, followed by the length of the whole encoding.
   */
  predicate Layout(cs: seq<Command>, starts: seq<nat>) {
    |starts| == |cs| + 1 && starts[0] == 0 &&
    forall m :: 0 <= m < |cs| ==> NextStart(cs, starts, m)
  }

  /** Record m ends where record m + 1 starts. */
  predicate NextStart(cs: seq<Command>, starts: seq<nat>, m: nat) {
    m < |cs| && m + 1 < |starts| && starts[m + 1] == starts[m] + 2 + |cs[m].payload|
  }

  /** Record m of `cs` sits in `s` at starts[m]..starts[m + 1]. */
  predicate RecordAt(cs: seq<Command>, starts: seq<nat>, s: seq<Byte>, m: nat) {
    m < |cs| && m + 1 < |starts| && starts[m] <= starts[m + 1] <= |s| &&
    |cs[m].payload| < 256 && s[starts[m]..starts[m + 1]] == RecordBytes(cs[m])
  }

  /** A byte string that holds every record at its offset, and nothing more, is the encoding. */
  lemma EncodeByLayout(cs: seq<Command>, starts: seq<nat>, s: seq<Byte>)
    requires WellFormed(cs) && Layout(cs, starts) && |s| == starts[|cs|]
    requires forall m :: 0 <= m < |cs| ==> RecordAt(cs, starts, s, m)
    ensures Encode(cs) == s
  {
    EncodeSuffixByLayout(cs, starts, s, 0);
    assert cs[0..] == cs && s[0..] == s;
  }

  lemma {:induction false} EncodeSuffixByLayout(cs: seq<Command>, starts: seq<nat>, s: seq<Byte>, k: nat)
    requires WellFormed(cs) && Layout(cs, starts) && |s| == starts[|cs|] && k <= |cs|
    requires forall m :: 0 <= m < |cs| ==> RecordAt(cs, starts, s, m)
    ensures starts[k] <= |s| && Encode(cs[k..]) == s[starts[k]..]
    decreases |cs| - k
  {
    if k == |cs| {
      assert cs[k..] == [];
    } else {
      EncodeSuffixByLayout(cs, starts, s, k + 1);
      assert RecordAt(cs, starts, s, k);
      assert cs[k..][0] == cs[k] && cs[k..][1..] == cs[k + 1..];
      assert s[starts[k]..] == s[starts[k]..starts[k + 1]] + s[starts[k + 1]..];
    }
  }

  /** Payload byte j of record r lies at offset starts[r] + 2 + j. */
  lemma LocateByLayout(cs: seq<Command>, starts: seq<nat>, r: nat, j: nat)
    requires Layout(cs, starts) && r < |cs| && j < |cs[r].payload|
    ensures Locate(cs, starts[r] + 2 + j) == Some((r, j))
  {
    LocateSuffixByLayout(cs, starts, 0, r, j);
    assert cs[0..] == cs;
  }

  lemma {:induction false} LocateSuffixByLayout(cs: seq<Command>, starts: seq<nat>, k: nat, r: nat, j: nat)
    requires Layout(cs, starts) && k <= r < |cs| && j < |cs[r].payload|
    ensures starts[k] <= starts[r]
    ensures Locate(cs[k..], starts[r] - starts[k] + 2 + j) == Some((r - k, j))
    decreases r - k
  {
    assert cs[k..][0] == cs[k];
    if k < r {
      assert NextStart(cs, starts, k);
      LocateSuffixByLayout(cs, starts, k + 1, r, j);
      assert cs[k..][1..] == cs[k + 1..];
    }
  }

  /** Overwriting payload byte j of record r, found through a layout, keeps the layout. */
  lemma PatchAtLayout(s: seq<Byte>, cs: seq<Command>, starts: seq<nat>, r: nat, j: nat, b: Byte)
    requires Decode(s) == Some(cs) && Layout(cs, starts) && r < |cs| && j < |cs[r].payload|
    ensures starts[r] + 2 + j < |s|
    ensures Decode(s[starts[r] + 2 + j := b]) == Some(SetPayloadByte(cs, r, j, b))
    ensures Layout(SetPayloadByte(cs, r, j, b), starts)
  {
    LocateByLayout(cs, starts, r, j);
    PatchPayloadByte(s, starts[r] + 2 + j, b);
    var ds := SetPayloadByte(cs, r, j, b);
    forall m | 0 <= m < |ds| ensures NextStart(ds, starts, m) {
      assert NextStart(cs, starts, m);
    }
  }

  /** Records are laid out in order: a later record starts after an earlier one ends. */
  lemma {:induction false} LayoutIncreasing(cs: seq<Command>, starts: seq<nat>, a: nat, b: nat)
    requires Layout(cs, starts) && a < b <= |cs|
    ensures starts[a] + 2 + |cs[a].payload| <= starts[b]
    decreases b - a
  {
    assert NextStart(cs, starts, a);
    if a + 1 < b {
      LayoutIncreasing(cs, starts, a + 1, b);
    }
  }

  /**
   * Overwriting the payload bytes of two one-byte-payload records of a
   * decodable `s` gives a string that decodes to the same records, with just
   * those two payloads replaced.
   */
  lemma PatchTwoPayloads(s: seq<Byte>, cs: seq<Command>, starts: seq<nat>, r1: nat, r2: nat, b1: Byte, b2: Byte)
    requires Decode(s) == Some(cs) && Layout(cs, starts)
    requires r1 < r2 < |cs|
    requires |cs[r1].payload| == 1 && |cs[r2].payload| == 1
    ensures starts[r1] + 2 < starts[r2] + 2 < |s|
    ensures var r := Decode(s[starts[r1] + 2 := b1][starts[r2] + 2 := b2]);
            r.Some? && SameLayout(r.value, cs) &&
            r.value[r1].payload == [b1] && r.value[r2].payload == [b2] &&
            forall m :: 0 <= m < |cs| && m != r1 && m != r2 ==> r.value[m] == cs[m]
  {
    LayoutIncreasing(cs, starts, r1, r2);
    PatchAtLayout(s, cs, starts, r1, 0, b1);
    var cs1 := SetPayloadByte(cs, r1, 0, b1);
    PatchAtLayout(s[starts[r1] + 2 := b1], cs1, starts, r2, 0, b2);
    var cs2 := SetPayloadByte(cs1, r2, 0, b2);
    assert cs2[r1].payload == [b1] && cs2[r2].payload == [b2];
  }
}
