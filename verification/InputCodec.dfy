// Packing a client's input batch and unpacking it on the server.
module InputCodec {
  import opened Angles
  import opened Numbers
  import opened Options
  import opened Wire
  import Q = Quantise

  const INPUT_BATCH: int := 2
  const HALF_STEP: real := 0.5 / Q.ANGLE_SCALE

  datatype Command = Command(seqNo: int, angle: real, boost: bool, dt: real)
  datatype Batch = Batch(commands: seq<Command>, clientTime: int)
  datatype Error = TooShort | WrongType | BadCount(count: int) | Cut

  // ---- The format ----------------------------------------------------------

  function SerCommand(c: Command): (b: seq<byte>)
    ensures |b| == 8
  {
    U32(c.seqNo) + (U16(Q.PackAngle(c.angle)) + (U8(if c.boost then 1 else 0) + U8(Q.PackPellet(c.dt))))
  }

  function SerBatch(batch: Batch): seq<byte> {
    U8(INPUT_BATCH) + (U8(|batch.commands|) + (U32(batch.clientTime) + SerList(batch.commands, SerCommand)))
  }

  // Headings past a half turn come back as negative angles.
  function UnpackHeading(n: int): real {
    var a := Q.UnpackAngle(n);
    if a > PI then a - TURN else a
  }

  function CommandAt(b: seq<byte>, at: nat): Command
    requires at + 8 <= |b|
  {
    Command(GetU32(b, at), UnpackHeading(GetU16(b, at + 4)), b[at + 6] == 1, b[at + 7] as real)
  }

  function Decoded(b: seq<byte>): Result<Batch, Error> {
    if |b| < 6 then Err(TooShort)
    else if b[0] != INPUT_BATCH then Err(WrongType)
    else
      var count: int := b[1];
      if count == 0 || count > 10 then Err(BadCount(count))
      else if |b| < 6 + count * 8 then Err(Cut)
      else Ok(Batch(seq(count, i requires 0 <= i < count => CommandAt(b, 6 + i * 8)), GetU32(b, 2)))
  }

  // ---- What survives -------------------------------------------------------

  // The same heading, up to whole turns and half a step.
  ghost predicate SameHeading(a: real, r: real) {
    -PI < r <= PI && exists k: int :: HeadingOff(a, r, k) <= HALF_STEP
  }

  function HeadingOff(a: real, r: real, k: int): real { Abs(r - a - TURN * k as real) }

  ghost predicate CommandFaithful(c: Command, r: Command) {
    r.seqNo == c.seqNo && r.boost == c.boost && SameHeading(c.angle, r.angle) && (c.dt <= 255.5 ==> Abs(r.dt - c.dt) <= 0.5)
  }

  lemma HeadingInRange(n: int)
    requires 0 <= n < WORD16
    ensures -PI < UnpackHeading(n) <= PI
  {
  }

  // Whatever the buffer, what is accepted is within the promised ranges.
  lemma AcceptedInRange(b: seq<byte>)
    requires Decoded(b).Ok?
    ensures var batch := Decoded(b).value;
            && 1 <= |batch.commands| <= 10 && 0 <= batch.clientTime < WORD32
            && forall i :: 0 <= i < |batch.commands| ==>
                 && 0 <= batch.commands[i].seqNo < WORD32 && 0.0 <= batch.commands[i].dt <= 255.0
                 && -PI < batch.commands[i].angle <= PI
  {
    var batch := Decoded(b).value;
    forall i | 0 <= i < |batch.commands| ensures -PI < batch.commands[i].angle <= PI {
      var at := 6 + i * 8;
      assert batch.commands[i] == CommandAt(b, at);
      HeadingInRange(GetU16(b, at + 4));
    }
  }

  lemma HeadingPacks(a: real)
    ensures SameHeading(a, UnpackHeading(Q.PackAngle(a)))
  {
    Q.AngleFits(a);
    var k := Q.NormaliseTurns(a);
    var n := Q.PackAngle(a);
    hide Q.PackAngle, Q.Normalise;
    HeadingInRange(n);
    var j := if Q.UnpackAngle(n) > PI then -k - 1 else -k;
    assert HeadingOff(a, UnpackHeading(n), j) <= HALF_STEP;
  }

  lemma CommandLayout(b: seq<byte>, at: nat, c: Command)
    requires Holds(b, at, SerCommand(c))
    ensures at + 8 <= |b| && GetU32(b, at) == c.seqNo % WORD32 && GetU16(b, at + 4) == Q.PackAngle(c.angle) % WORD16
    ensures b[at + 6] == (if c.boost then 1 else 0) && b[at + 7] == Q.PackPellet(c.dt) % 256
  {
    var n, dt := Q.PackAngle(c.angle), Q.PackPellet(c.dt);
    hide Q.PackAngle, Q.PackPellet, Holds, U8, U16, U32, GetU32, GetU16;
    HoldsParts(b, at, U32(c.seqNo), U16(n) + (U8(if c.boost then 1 else 0) + U8(dt)));
    HoldsParts(b, at + 4, U16(n), U8(if c.boost then 1 else 0) + U8(dt));
    HoldsParts(b, at + 6, U8(if c.boost then 1 else 0), U8(dt));
    ReadsU32(b, at, c.seqNo);
    ReadsU16(b, at + 4, n);
    ReadsU8(b, at + 6, if c.boost then 1 else 0);
    ReadsU8(b, at + 7, dt);
  }

  lemma CommandHeld(b: seq<byte>, at: nat, c: Command)
    requires Holds(b, at, SerCommand(c)) && 0 <= c.seqNo < WORD32 && c.dt >= 0.0
    ensures at + 8 <= |b| && CommandFaithful(c, CommandAt(b, at))
  {
    CommandLayout(b, at, c);
    FieldsFit(c);
    HeadingPacks(c.angle);
    hide Q.PackAngle, Q.PackPellet, SameHeading, UnpackHeading, Holds, SerCommand, GetU32, GetU16, Abs;
  }

  lemma FieldsFit(c: Command)
    requires 0 <= c.seqNo < WORD32 && c.dt >= 0.0
    ensures c.seqNo % WORD32 == c.seqNo && Q.PackAngle(c.angle) % WORD16 == Q.PackAngle(c.angle)
    ensures Q.PackPellet(c.dt) % 256 == Q.PackPellet(c.dt) && (c.dt <= 255.5 ==> Abs(Q.PackPellet(c.dt) as real - c.dt) <= 0.5)
  {
    Q.AngleFits(c.angle);
    Q.PelletClose(c.dt);
    hide Q.PackAngle, Q.PackPellet, Abs, Q.UnpackAngle, Q.Normalise;
  }

  lemma {:induction false} ListHeld(b: seq<byte>, at: nat, cs: seq<Command>)
    requires Holds(b, at, SerList(cs, SerCommand))
    ensures |SerList(cs, SerCommand)| == 8 * |cs|
    ensures forall i {:trigger cs[i]} :: 0 <= i < |cs| ==> Holds(b, at + i * 8, SerCommand(cs[i]))
    decreases |cs|
  {
    if cs != [] {
      var front, last := cs[..|cs| - 1], cs[|cs| - 1];
      HoldsParts(b, at, SerList(front, SerCommand), SerCommand(last));
      ListHeld(b, at, front);
      hide SerCommand, Holds, SerList;
      forall i | 0 <= i < |cs| ensures Holds(b, at + i * 8, SerCommand(cs[i])) {
        if i < |front| { assert front[i] == cs[i]; }
      }
    }
  }

  lemma BatchHeld(batch: Batch)
    ensures var b := SerBatch(batch);
            && |b| == 6 + 8 * |batch.commands| && b[0] == INPUT_BATCH && b[1] == |batch.commands| % 256
            && GetU32(b, 2) == batch.clientTime % WORD32
            && forall i {:trigger batch.commands[i]} :: 0 <= i < |batch.commands| ==> Holds(b, 6 + i * 8, SerCommand(batch.commands[i]))
  {
    var b, n, list := SerBatch(batch), |batch.commands|, SerList(batch.commands, SerCommand);
    assert Holds(b, 0, b);
    hide Holds, SerList, SerCommand;
    HoldsParts(b, 0, U8(INPUT_BATCH), U8(n) + (U32(batch.clientTime) + list));
    HoldsParts(b, 1, U8(n), U32(batch.clientTime) + list);
    HoldsParts(b, 2, U32(batch.clientTime), list);
    ReadsU8(b, 0, INPUT_BATCH);
    ReadsU8(b, 1, n);
    ReadsU32(b, 2, batch.clientTime);
    ListHeld(b, 6, batch.commands);
  }

  // An encoded batch is accepted exactly when its count byte is 1 to 10.
  lemma AcceptedIff(batch: Batch)
    ensures Decoded(SerBatch(batch)).Ok? <==> 1 <= |batch.commands| % 256 <= 10
  {
    BatchHeld(batch);
    hide SerBatch, Holds;
    assert |batch.commands| % 256 <= |batch.commands|;
  }

  lemma RoundTrip(batch: Batch)
    requires 1 <= |batch.commands| <= 10 && 0 <= batch.clientTime < WORD32
    requires forall i :: 0 <= i < |batch.commands| ==> 0 <= batch.commands[i].seqNo < WORD32 && batch.commands[i].dt >= 0.0
    ensures Decoded(SerBatch(batch)).Ok?
    ensures var r := Decoded(SerBatch(batch)).value;
            && r.clientTime == batch.clientTime && |r.commands| == |batch.commands|
            && forall i :: 0 <= i < |r.commands| ==> CommandFaithful(batch.commands[i], r.commands[i])
  {
    forall i: nat | i < |batch.commands| ensures Recovered(batch, i) { CommandBack(batch, i); }
    DecodedFields(batch);
    var r := Decoded(SerBatch(batch)).value;
    hide SerBatch, Decoded, CommandFaithful, CommandAt;
    forall i: nat | i < |r.commands| ensures CommandFaithful(batch.commands[i], r.commands[i]) {
      assert Recovered(batch, i);
    }
  }

  lemma DecodedFields(batch: Batch)
    requires 1 <= |batch.commands| <= 10 && 0 <= batch.clientTime < WORD32
    ensures var b := SerBatch(batch);
            && Decoded(b).Ok? && Decoded(b).value.clientTime == batch.clientTime
            && |Decoded(b).value.commands| == |batch.commands| && |b| == 6 + 8 * |batch.commands|
            && forall i :: 0 <= i < |batch.commands| ==> Decoded(b).value.commands[i] == CommandAt(b, 6 + i * 8)
  {
    BatchHeld(batch);
    hide SerBatch, Holds, SerCommand, CommandAt, GetU32;
  }

  ghost predicate Recovered(batch: Batch, i: nat)
    requires i < |batch.commands|
  {
    6 + i * 8 + 8 <= |SerBatch(batch)| && CommandFaithful(batch.commands[i], CommandAt(SerBatch(batch), 6 + i * 8))
  }

  lemma CommandBack(batch: Batch, i: nat)
    requires i < |batch.commands| && 0 <= batch.commands[i].seqNo < WORD32 && batch.commands[i].dt >= 0.0
    ensures Recovered(batch, i)
  {
    BatchHeld(batch);
    hide SerBatch, Holds, SerCommand, CommandFaithful, CommandAt;
    assert Holds(SerBatch(batch), 6 + i * 8, SerCommand(batch.commands[i]));
    CommandHeld(SerBatch(batch), 6 + i * 8, batch.commands[i]);
  }

  // ---- In place ------------------------------------------------------------

  method EncodeCommand(c: Command, buffer: array<byte>, at: nat)
    requires at + 8 <= buffer.Length
    modifies buffer
    ensures buffer[..at + 8] == old(buffer[..at]) + SerCommand(c)
  {
    hide U8, U16, U32, Q.PackAngle, Q.PackPellet;
    ghost var before := buffer[..at];
    PutU32(buffer, at, c.seqNo);
    PutU16(buffer, at + 4, Q.PackAngle(c.angle));
    PutU8(buffer, at + 6, if c.boost then 1 else 0);
    PutU8(buffer, at + 7, Q.PackPellet(c.dt));
    assert buffer[..at + 8] == before + U32(c.seqNo) + U16(Q.PackAngle(c.angle)) + U8(if c.boost then 1 else 0)
                               + U8(Q.PackPellet(c.dt));
    assert buffer[..at + 8] == before + SerCommand(c);
  }

  method EncodeCommands(commands: seq<Command>, buffer: array<byte>, at: nat)
    requires at + |commands| * 8 == buffer.Length
    modifies buffer
    ensures buffer[..] == old(buffer[..at]) + SerList(commands, SerCommand)
  {
    ghost var before := buffer[..at];
    assert commands[..0] == [] && SerList(commands[..0], SerCommand) == [];
    hide SerCommand, SerList;
    var offset := at;
    for i := 0 to |commands|
      invariant offset == at + i * 8
      invariant buffer[..offset] == before + SerList(commands[..i], SerCommand)
    {
      EncodeCommand(commands[i], buffer, offset);
      SerListNext(commands, i, SerCommand);
      Regroup(before, SerList(commands[..i], SerCommand), SerCommand(commands[i]));
      offset := offset + 8;
    }
    assert commands[..|commands|] == commands;
    assert buffer[..] == buffer[..offset];
  }

  method EncodeInputBatch(batch: Batch) returns (buffer: array<byte>)
    ensures fresh(buffer) && buffer[..] == SerBatch(batch)
  {
    hide U8, U32, SerList;
    var n := |batch.commands|;
    buffer := new byte[6 + n * 8];
    PutU8(buffer, 0, INPUT_BATCH);
    PutU8(buffer, 1, n);
    PutU32(buffer, 2, batch.clientTime);
    EncodeCommands(batch.commands, buffer, 6);
    var list := SerList(batch.commands, SerCommand);
    Regroup(U8(INPUT_BATCH) + U8(n), U32(batch.clientTime), list);
    Regroup(U8(INPUT_BATCH), U8(n), U32(batch.clientTime) + list);
  }

  // Every read is in bounds on any buffer.
  method DecodeInputBatch(buffer: array<byte>) returns (r: Result<Batch, Error>)
    ensures r == Decoded(buffer[..])
  {
    if buffer.Length < 6 { return Err(TooShort); }
    if buffer[0] != INPUT_BATCH { return Err(WrongType); }
    var count: int := buffer[1];
    if count == 0 || count > 10 { return Err(BadCount(count)); }
    if buffer.Length < 6 + count * 8 { return Err(Cut); }
    hide GetU16, GetU32, UnpackHeading;
    var commands: seq<Command> := [];
    var offset := 6;
    for i := 0 to count
      invariant offset == 6 + i * 8 && |commands| == i
      invariant forall k {:trigger commands[k]} :: 0 <= k < i ==> commands[k] == CommandAt(buffer[..], 6 + k * 8)
    {
      var heading := UnpackHeading(GetU16(buffer[..], offset + 4));
      commands := commands + [Command(GetU32(buffer[..], offset), heading, buffer[offset + 6] == 1, buffer[offset + 7] as real)];
      offset := offset + 8;
    }
    r := Ok(Batch(commands, GetU32(buffer[..], 2)));
    assert commands == Decoded(buffer[..]).value.commands;
  }
}
