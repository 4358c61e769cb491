// A model of the Grid+ V2 fan-controller simulator: the recogniser that
// classifies each buffer read from the serial port by its length and, for
// one- and two-byte buffers, by its first byte, and the canned reply it sends.

module GridSimulator {

  // ---------------------------------------------------------------------
  // Wire constants
  // ---------------------------------------------------------------------

  /** Opcode of the one-byte "initialize grid" command. */
  const InitOpcode: bv8 := 0xC0
  /** Opcode of the two-byte "read fan rpm" command; the second byte is the fan id. */
  const ReadRpmOpcode: bv8 := 0x8A
  /** Opcode of the two-byte "read fan voltage" command; the second byte is the fan id. */
  const ReadVoltageOpcode: bv8 := 0x84
  /** Length of a "set fan voltage" command; none of its bytes is inspected. */
  const SetVoltageLength: nat := 7

  /** "Grid initialized". */
  const InitAck: seq<bv8> := [0x21]
  /** Dummy rpm reading: header C0 00 00, then 260 as a big-endian 16-bit value. */
  const RpmReply: seq<bv8> := [0xC0, 0x00, 0x00, 0x01, 0x04]
  /** Dummy voltage reading: header C0 00 00, then an opaque fixed byte pair. */
  const VoltageReply: seq<bv8> := [0xC0, 0x00, 0x00, 0x05, 0x05]
  /** "Success" acknowledgement of a set-voltage command. */
  const SetVoltageAck: seq<bv8> := [0x01]

  // ---------------------------------------------------------------------
  // Classification
  // ---------------------------------------------------------------------

  /** What the simulator recognised in one read buffer (one variant per
      message it logs). The fan id is kept only for the log. The empty
      buffer of a poll with nothing waiting is classified UnsupportedLength,
      but the simulator logs nothing for it: it never reaches the recogniser. */
  datatype Request =
    | InitializeGrid
    | ReadRpm(fan: bv8)
    | ReadVoltage(fan: bv8)
    | SetVoltage(fan: bv8)
    | UnsupportedByte
    | UnsupportedCommand
    | UnsupportedLength
  {
    /** True of the requests the simulator answers. */
    predicate Supported() {
      !(UnsupportedByte? || UnsupportedCommand? || UnsupportedLength?)
    }
  }

  /** The recogniser: the length of the buffer picks the case, and for
      lengths 1 and 2 the first byte picks the sub-case. */
  function Classify(frame: seq<bv8>): (req: Request)
    ensures req.UnsupportedLength? <==> |frame| !in {1, 2, SetVoltageLength}
    ensures req.InitializeGrid? || req.UnsupportedByte? <==> |frame| == 1
    ensures req.ReadRpm? || req.ReadVoltage? || req.UnsupportedCommand? <==> |frame| == 2
    ensures req.SetVoltage? <==> |frame| == SetVoltageLength
    ensures req.InitializeGrid? <==> frame == [InitOpcode]
    ensures req.ReadRpm? <==> |frame| == 2 && frame[0] == ReadRpmOpcode
    ensures req.ReadVoltage? <==> |frame| == 2 && frame[0] == ReadVoltageOpcode
    ensures req.ReadRpm? || req.ReadVoltage? || req.SetVoltage? ==> req.fan == frame[1]
  {
    if |frame| == 1 then
      if frame[0] == InitOpcode then InitializeGrid else UnsupportedByte
    else if |frame| == 2 then
      if frame[0] == ReadRpmOpcode then ReadRpm(frame[1])
      else if frame[0] == ReadVoltageOpcode then ReadVoltage(frame[1])
      else UnsupportedCommand
    else if |frame| == SetVoltageLength then
      SetVoltage(frame[1])
    else
      UnsupportedLength
  }

  /** The bytes written back for a recognised request; nothing otherwise. */
  function Reply(req: Request): (r: seq<bv8>)
    ensures r != [] <==> req.Supported()
  {
    match req
    case InitializeGrid => InitAck
    case ReadRpm(_) => RpmReply
    case ReadVoltage(_) => VoltageReply
    case SetVoltage(_) => SetVoltageAck
    case _ => []
  }

  /** The reply to one read buffer: each canned reply is sent for exactly
      one shape of request, and every other buffer gets nothing. */
  function Dispatch(frame: seq<bv8>): (r: seq<bv8>)
    ensures r == InitAck <==> frame == [InitOpcode]
    ensures r == RpmReply <==> |frame| == 2 && frame[0] == ReadRpmOpcode
    ensures r == VoltageReply <==> |frame| == 2 && frame[0] == ReadVoltageOpcode
    ensures r == SetVoltageAck <==> |frame| == SetVoltageLength
    ensures r == [] <==>
      !(frame == [InitOpcode]
        || (|frame| == 2 && (frame[0] == ReadRpmOpcode || frame[0] == ReadVoltageOpcode))
        || |frame| == SetVoltageLength)
  {
    Reply(Classify(frame))
  }

  // ---------------------------------------------------------------------
  // Properties of one dispatch
  // ---------------------------------------------------------------------

  /** A one-byte buffer is answered with InitAck if it is C0 and not at all otherwise. */
  lemma SingleByte(b: bv8)
    ensures Dispatch([b]) == (if b == InitOpcode then InitAck else [])
  {
  }

  /** A two-byte buffer is answered according to its opcode alone. */
  lemma TwoBytes(opcode: bv8, fan: bv8)
    ensures Dispatch([opcode, fan]) ==
      if opcode == ReadRpmOpcode then RpmReply
      else if opcode == ReadVoltageOpcode then VoltageReply
      else []
  {
  }

  /** The fan id never changes the reply to a two-byte command. */
  lemma FanIdIgnored(opcode: bv8, fan1: bv8, fan2: bv8)
    ensures Dispatch([opcode, fan1]) == Dispatch([opcode, fan2])
  {
  }

  /** Every seven-byte buffer is acknowledged, whatever its content. */
  lemma SetVoltageContentIgnored(frame: seq<bv8>)
    requires |frame| == SetVoltageLength
    ensures Dispatch(frame) == SetVoltageAck
  {
  }

  /** A buffer whose length is not 1, 2 or 7 (including an empty one) is not answered. */
  lemma OtherLengthsIgnored(frame: seq<bv8>)
    requires |frame| != 1 && |frame| != 2 && |frame| != SetVoltageLength
    ensures Dispatch(frame) == []
  {
  }

  /** The recognised request depends on the length and the first two bytes only. */
  lemma ClassifyReadsHeaderOnly(f: seq<bv8>, g: seq<bv8>)
    requires |f| == |g|
    requires |f| >= 1 ==> f[0] == g[0]
    requires |f| >= 2 ==> f[1] == g[1]
    ensures Classify(f) == Classify(g)
  {
  }

  /** The reply depends on the length and, for lengths 1 and 2, on the first byte only. */
  lemma ReplyDependsOnLengthAndOpcode(f: seq<bv8>, g: seq<bv8>)
    requires |f| == |g|
    requires |f| == 1 || |f| == 2 ==> f[0] == g[0]
    ensures Dispatch(f) == Dispatch(g)
  {
  }

  /** The value of two bytes read as a big-endian 16-bit integer. */
  function BigEndian16(high: bv8, low: bv8): (v: nat)
    ensures v < 0x1_0000
    ensures v / 256 == high as nat && v % 256 == low as nat
  {
    high as nat * 256 + low as nat
  }

  /** The dummy rpm reading is 260: 1 * 256 (high byte) + 4 (low byte). */
  lemma RpmReadingIs260()
    ensures |RpmReply| == 5
    ensures BigEndian16(RpmReply[3], RpmReply[4]) == 260
  {
  }

  /** Sample exchanges of the wire protocol. */
  lemma Exchanges()
    ensures Dispatch([0xC0]) == [0x21]
    ensures Dispatch([0x8A, 0x03]) == [0xC0, 0x00, 0x00, 0x01, 0x04]
    ensures Dispatch([0x84, 0x07]) == [0xC0, 0x00, 0x00, 0x05, 0x05]
    ensures Dispatch([0x10, 0x02, 0x00, 0x00, 0x00, 0x00, 0x00]) == [0x01]
    ensures Dispatch([0xFF]) == []
    ensures Dispatch([0xAA, 0xBB, 0xCC]) == []
  {
  }

  // ---------------------------------------------------------------------
  // The read loop
  // ---------------------------------------------------------------------

  /** The replies to a run of polls, one per poll; a poll that found no
      waiting bytes is an empty buffer. */
  function Replies(polls: seq<seq<bv8>>): (rs: seq<seq<bv8>>)
    ensures |rs| == |polls|
    ensures forall i :: 0 <= i < |polls| ==> rs[i] == Dispatch(polls[i])
  {
    if polls == [] then []
    else Replies(polls[..|polls| - 1]) + [Dispatch(polls[|polls| - 1])]
  }

  /** The bytes of several replies written one after the other. */
  function Flatten(rs: seq<seq<bv8>>): (out: seq<bv8>)
    ensures out == [] <==> forall i :: 0 <= i < |rs| ==> rs[i] == []
  {
    if rs == [] then [] else Flatten(rs[..|rs| - 1]) + rs[|rs| - 1]
  }

  /** Everything written to the port during a run of polls. */
  function Wire(polls: seq<seq<bv8>>): (out: seq<bv8>)
    ensures out == [] <==> forall i :: 0 <= i < |polls| ==> Dispatch(polls[i]) == []
  {
    Flatten(Replies(polls))
  }

  lemma {:induction false} FlattenAppend(a: seq<seq<bv8>>, b: seq<seq<bv8>>)
    ensures Flatten(a + b) == Flatten(a) + Flatten(b)
    decreases |b|
  {
    if b == [] {
      assert a + b == a;
    } else {
      var b' := b[..|b| - 1];
      assert (a + b)[..|a + b| - 1] == a + b';
      FlattenAppend(a, b');
    }
  }

  lemma RepliesAppend(a: seq<seq<bv8>>, b: seq<seq<bv8>>)
    ensures Replies(a + b) == Replies(a) + Replies(b)
  {
  }

  /** No buffering across reads: the bytes written for a run of polls are
      those written for its first part followed by those for the rest. */
  lemma NoStateAcrossReads(a: seq<seq<bv8>>, b: seq<seq<bv8>>)
    ensures Wire(a + b) == Wire(a) + Wire(b)
  {
    RepliesAppend(a, b);
    FlattenAppend(Replies(a), Replies(b));
  }

  /** The bytes written for a single poll are its own reply. */
  lemma WireOfOne(frame: seq<bv8>)
    ensures Wire([frame]) == Dispatch(frame)
  {
    assert Replies([frame]) == [Dispatch(frame)];
    assert [Dispatch(frame)][..0] == [];
    assert Flatten([Dispatch(frame)]) == Flatten([]) + Dispatch(frame);
  }

  /** A buffer gets the same reply wherever it occurs in a run of polls. */
  lemma ReplyIndependentOfHistory(before: seq<seq<bv8>>, frame: seq<bv8>, after: seq<seq<bv8>>)
    ensures Wire(before + [frame] + after) == Wire(before) + Dispatch(frame) + Wire(after)
  {
    NoStateAcrossReads(before + [frame], after);
    NoStateAcrossReads(before, [frame]);
    WireOfOne(frame);
  }

  /** A poll that finds nothing waiting writes nothing. */
  lemma IdlePollWritesNothing(before: seq<seq<bv8>>, after: seq<seq<bv8>>)
    ensures Wire(before + [[]] + after) == Wire(before + after)
  {
    ReplyIndependentOfHistory(before, [], after);
    NoStateAcrossReads(before, after);
  }

  /** A buffer that arrives split over two reads gets the replies to the
      two pieces, each dispatched on its own. */
  lemma SplitReads(frame: seq<bv8>, k: nat)
    requires k <= |frame|
    ensures Wire([frame[..k], frame[k..]]) == Dispatch(frame[..k]) + Dispatch(frame[k..])
  {
    assert [frame[..k], frame[k..]] == [frame[..k]] + [frame[k..]];
    NoStateAcrossReads([frame[..k]], [frame[k..]]);
    WireOfOne(frame[..k]);
    WireOfOne(frame[k..]);
  }

  /** Split over two reads, the rpm query 8A 03 is not answered at all,
      although it is when it arrives in one read. */
  lemma SplitCommandUnanswered()
    ensures Wire([[ReadRpmOpcode, 0x03]]) == RpmReply
    ensures Wire([[ReadRpmOpcode], [0x03]]) == []
  {
    WireOfOne([ReadRpmOpcode, 0x03]);
    SplitReads([ReadRpmOpcode, 0x03], 1);
    assert [ReadRpmOpcode, 0x03][..1] == [ReadRpmOpcode];
    assert [ReadRpmOpcode, 0x03][1..] == [0x03];
  }

  /** Split over two reads, a command can draw the reply meant for a
      different command: the rpm query for fan C0 is answered as an
      initialisation, and a seven-byte set-voltage command split after its
      second byte is answered as a voltage query. */
  lemma SplitCommandMisanswered()
    ensures Wire([[ReadRpmOpcode, 0xC0]]) == RpmReply
    ensures Wire([[ReadRpmOpcode], [0xC0]]) == InitAck
    ensures Wire([[ReadVoltageOpcode, 0x01, 0, 0, 0, 0, 0]]) == SetVoltageAck
    ensures Wire([[ReadVoltageOpcode, 0x01], [0, 0, 0, 0, 0]]) == VoltageReply
  {
    var rpm: seq<bv8> := [ReadRpmOpcode, 0xC0];
    WireOfOne(rpm);
    SplitReads(rpm, 1);
    assert rpm[..1] == [ReadRpmOpcode] && rpm[1..] == [0xC0];
    var setVoltage: seq<bv8> := [ReadVoltageOpcode, 0x01, 0, 0, 0, 0, 0];
    WireOfOne(setVoltage);
    SplitReads(setVoltage, 2);
    assert setVoltage[..2] == [ReadVoltageOpcode, 0x01] && setVoltage[2..] == [0, 0, 0, 0, 0];
  }

  /** Two answered commands arriving in one read are never answered. */
  lemma CoalescedCommandsUnanswered(a: seq<bv8>, b: seq<bv8>)
    requires Dispatch(a) != [] && Dispatch(b) != []
    ensures Wire([a, b]) == Dispatch(a) + Dispatch(b)
    ensures Wire([a + b]) == []
  {
    assert [a, b] == [a] + [b];
    NoStateAcrossReads([a], [b]);
    WireOfOne(a);
    WireOfOne(b);
    WireOfOne(a + b);
  }

  /** C0 then 8A 03 in two reads get 21 and the rpm reply; in one read, nothing. */
  lemma CoalescedExample()
    ensures Wire([[InitOpcode], [ReadRpmOpcode, 0x03]]) == InitAck + RpmReply
    ensures Wire([[InitOpcode, ReadRpmOpcode, 0x03]]) == []
  {
    CoalescedCommandsUnanswered([InitOpcode], [ReadRpmOpcode, 0x03]);
    assert [InitOpcode] + [ReadRpmOpcode, 0x03] == [InitOpcode, ReadRpmOpcode, 0x03];
  }

  /** The polling loop over a finite run of polls: a poll with bytes
      waiting is dispatched, one without is skipped, and every reply is
      written to the port. */
  method Serve(polls: seq<seq<bv8>>) returns (replies: seq<seq<bv8>>, written: seq<bv8>)
    ensures |replies| == |polls|
    ensures forall i :: 0 <= i < |polls| ==> replies[i] == Dispatch(polls[i])
    ensures written == Wire(polls)
  {
    replies, written := [], [];
    var i := 0;
    while i < |polls|
      invariant 0 <= i <= |polls|
      invariant replies == Replies(polls[..i])
      invariant written == Flatten(replies)
    {
      var waiting := |polls[i]|;
      var reply: seq<bv8> := [];
      if waiting > 0 {
        reply := Dispatch(polls[i]);
      }
      assert polls[..i + 1][..i] == polls[..i];
      replies := replies + [reply];
      written := written + reply;
      i := i + 1;
    }
    assert polls[..i] == polls;
  }
}
