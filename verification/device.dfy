/** The keyboard as a HID device: request frames written to it, 64-byte
    response frames read back, the pure decoding of those frames, and the
    chunked transfer of a configuration buffer.

    The HID transport is a scripted device: the frames the program writes
    are logged, and the replies the keyboard will give are a queue fixed in
    advance. A read with no reply left is a timeout, which transfers no
    bytes. */
module Device {
  import opened Bytes
  import opened Cursor
  import Consts

  // ---------------------------------------------------------------------
  // The transport

  /** The 64-byte report buffer after a read: the reply's bytes over the
      start of the buffer, the rest of the buffer as it was. */
  function Overlay(buf: seq<u8>, reply: seq<u8>): (r: seq<u8>)
    ensures |r| == |buf|
    ensures forall i :: 0 <= i < |buf| ==> r[i] == if i < |reply| then reply[i] else buf[i]
  {
    var n := Min(|reply|, |buf|);
    reply[..n] + buf[n..]
  }

  function Zeros(n: nat): (z: seq<u8>)
    ensures |z| == n && forall i :: 0 <= i < n ==> z[i] == 0
  {
    seq(n, _ => 0)
  }

  /** The frame the `k`-th read yields from a freshly zeroed buffer. */
  function FrameAt(replies: seq<seq<u8>>, k: nat): (f: seq<u8>)
    ensures |f| == Consts.MAX_PAYLOAD_SIZE
  {
    if k < |replies| then Overlay(Zeros(Consts.MAX_PAYLOAD_SIZE), replies[k])
    else Zeros(Consts.MAX_PAYLOAD_SIZE)
  }

  /** The replies left after `k` reads. */
  function Drop(replies: seq<seq<u8>>, k: nat): seq<seq<u8>> {
    if k < |replies| then replies[k..] else []
  }

  /** Reading `a` replies and then `b` more is reading `a + b`; the first
      reply left after `a` reads is the `a`-th one. */
  lemma DropDrop(replies: seq<seq<u8>>, a: nat, b: nat)
    ensures Drop(Drop(replies, a), b) == Drop(replies, a + b)
    ensures FrameAt(Drop(replies, a), b) == FrameAt(replies, a + b)
  {
    if a + b < |replies| {
      assert Drop(replies, a)[b] == replies[a + b];
    }
  }

  lemma AppendAssoc<T>(a: seq<T>, b: seq<T>, c: seq<T>)
    ensures a + (b + c) == (a + b) + c
  {
  }

  /** Reading no replies leaves them all. */
  lemma DropNone(replies: seq<seq<u8>>)
    ensures Drop(replies, 0) == replies
  {
    if |replies| > 0 {
      assert replies[0..] == replies;
    }
  }

  class HidDevice {
    var written: seq<seq<u8>>
    var replies: seq<seq<u8>>

    constructor (replies: seq<seq<u8>>)
      ensures written == [] && this.replies == replies
    {
      written := [];
      this.replies := replies;
    }

    method Write(frame: seq<u8>)
      modifies this
      ensures written == old(written) + [frame] && replies == old(replies)
    {
      written := written + [frame];
    }

    /** Copies the next reply over the start of `buf`; a timeout leaves
        `buf` untouched. */
    method ReadTimeout(buf: array<u8>)
      modifies this, buf
      ensures written == old(written) && replies == Drop(old(replies), 1)
      ensures buf[..] == if old(replies) == [] then old(buf[..]) else Overlay(old(buf[..]), old(replies)[0])
    {
      if replies != [] {
        var reply := replies[0];
        var n := Min(|reply|, buf.Length);
        forall i | 0 <= i < n {
          buf[i] := reply[i];
        }
        assert buf[..] == reply[..n] + old(buf[..])[n..];
        replies := replies[1..];
      }
    }
  }

  // ---------------------------------------------------------------------
  // Request frames

  /** `[0, command]` followed by the command's arguments. */
  function Request(command: Consts.UsbCommand, args: seq<u8>): seq<u8> {
    [0, command.ToByte()] + args
  }

  function ConfigSizesRequest(): seq<u8> {
    Request(Consts.GetProperty, [Consts.DevicePropertyIds.ConfigSizes.ToByte()])
  }

  function UptimeRequest(): seq<u8> {
    Request(Consts.GetProperty, [Consts.DevicePropertyIds.Uptime.ToByte()])
  }

  function VariableRequest(v: Consts.UsbVariables): seq<u8> {
    Request(Consts.GetVariable, [v.ToByte()])
  }

  function StateRequest(): seq<u8> {
    Request(Consts.GetDeviceState, [])
  }

  /** The bytes a configuration chunk is asked for with: the buffer id, the
      chunk size 63 and the offset, little-endian. */
  function ReadConfigRequest(buffer: Consts.ConfigBufferId, offset: u16): seq<u8> {
    Request(Consts.ReadConfig, [buffer.ToByte(), CHUNK_SIZE as u8] + Le16Bytes(offset))
  }

  /** A chunk request is six bytes: report id 0, the read-config opcode 4,
      the buffer id, the chunk size 63 on every round, and the offset that
      the little-endian bytes 4 and 5 give back. */
  lemma ReadConfigRequestLayout(buffer: Consts.ConfigBufferId, offset: u16)
    ensures var f := ReadConfigRequest(buffer, offset);
      && |f| == 6 && f[0] == 0 && f[1] == 0x04 && f[2] == buffer.ToByte() && f[3] == 63
      && Le16(f[4], f[5]) == offset
  {
  }

  // ---------------------------------------------------------------------
  // Decoding response frames

  /** The two configuration sizes, computed as the program does: the sum of
      two bytes shifted left by 8 (not a little-endian decode). */
  function ConfigSizes(buf: seq<u8>): (nat, nat)
    requires |buf| == Consts.MAX_PAYLOAD_SIZE
  {
    ((buf[1] as int + buf[2] as int) * 0x100, (buf[3] as int + buf[4] as int) * 0x100)
  }

  /** The size used for a buffer: the first size for the hardware buffer,
      the second for both user buffers, truncated to 16 bits. */
  function SelectSize(buffer: Consts.ConfigBufferId, sizes: (nat, nat)): u16 {
    (if buffer == Consts.HardwareConfig then sizes.0 else sizes.1) % 0x1_0000
  }

  /** Each size is a multiple of 256 no larger than 510 * 256, so a size of
      64 KiB or more wraps when it is narrowed; the hardware buffer reads
      bytes 1 and 2, the user buffers bytes 3 and 4. */
  lemma ConfigSizeSelection(buf: seq<u8>, buffer: Consts.ConfigBufferId)
    requires |buf| == Consts.MAX_PAYLOAD_SIZE
    ensures var s := ConfigSizes(buf);
      && s.0 % 0x100 == 0 && s.1 % 0x100 == 0
      && s.0 <= 510 * 0x100 && s.1 <= 510 * 0x100
      && SelectSize(buffer, s) % 0x100 == 0
      && (buffer == Consts.HardwareConfig ==>
            SelectSize(buffer, s) == var t := buf[1] as int + buf[2] as int;
            if t < 0x100 then t * 0x100 else (t - 0x100) * 0x100)
      && (buffer != Consts.HardwareConfig ==>
            SelectSize(buffer, s) == var t := buf[3] as int + buf[4] as int;
            if t < 0x100 then t * 0x100 else (t - 0x100) * 0x100)
  {
  }

  /** The uptime in milliseconds: bytes 1 to 4, little-endian. */
  function UptimeOf(buf: seq<u8>): u32
    requires |buf| == Consts.MAX_PAYLOAD_SIZE
  {
    Le32(buf[1], buf[2], buf[3], buf[4])
  }

  lemma UptimeBytes(buf: seq<u8>)
    requires |buf| == Consts.MAX_PAYLOAD_SIZE
    ensures Le32Bytes(UptimeOf(buf)) == buf[1..5]
  {
    Le32Injective(buf[1], buf[2], buf[3], buf[4]);
  }

  function VariableOf(buf: seq<u8>): u8
    requires |buf| == Consts.MAX_PAYLOAD_SIZE
  {
    buf[1]
  }

  datatype DeviceState = DeviceState(
    eepromBusy: bool,
    halvesMerged: bool,
    leftHalfConnected: bool,
    activeLayer: u8,
    activeLayerToggled: bool,
    leftHalfSlot: u8,
    leftModuleSlot: Consts.ModuleSlots,
    rightModuleSlot: Consts.ModuleSlots)

  /** The device state frame: three flags, the active layer in the low seven
      bits of byte 6 (masking a byte with 0x7f keeps its remainder by 0x80)
      with its toggle in the top bit, and the two module
      slots, which must be known slot numbers (the left one is checked
      first). */
  function DeviceStateOf(buf: seq<u8>): Result<DeviceState>
    requires |buf| == Consts.MAX_PAYLOAD_SIZE
  {
    var left := Consts.ModuleSlotsFrom(buf[4]);
    if left.None? then Err(UnknownModuleSlot(buf[4])) else
    var right := Consts.ModuleSlotsFrom(buf[5]);
    if right.None? then Err(UnknownModuleSlot(buf[5])) else
    Ok(DeviceState(
      buf[1] != 0,
      buf[2] != 0,
      buf[3] != 0,
      buf[6] % 0x80,
      HasBits(buf[6], 0x80),
      buf[3],
      left.value,
      right.value))
  }

  /** The state decodes exactly when both slot bytes are known slots, and
      then the layer and its toggle split byte 6 without loss. */
  lemma DeviceStateFields(buf: seq<u8>)
    requires |buf| == Consts.MAX_PAYLOAD_SIZE
    ensures var r := DeviceStateOf(buf);
      && (r.Ok? <==> buf[4] <= 5 && buf[5] <= 5)
      && (buf[4] > 5 ==> r == Err(UnknownModuleSlot(buf[4])))
      && (buf[4] <= 5 && buf[5] > 5 ==> r == Err(UnknownModuleSlot(buf[5])))
      && (r.Ok? ==>
            && r.value.activeLayer < 0x80
            && r.value.activeLayer + (if r.value.activeLayerToggled then 0x80 else 0) == buf[6]
            && r.value.leftModuleSlot.ToByte() == buf[4]
            && r.value.rightModuleSlot.ToByte() == buf[5]
            && r.value.leftHalfSlot == buf[3]
            && r.value.leftHalfConnected == (buf[3] != 0)
            && r.value.eepromBusy == (buf[1] != 0)
            && r.value.halvesMerged == (buf[2] != 0))
  {
    LayerSplit(buf[6]);
  }

  /** Testing 0x80 on a byte tells whether it is 0x80 or more, so the low
      seven bits and the top bit give the byte back. */
  lemma LayerSplit(x: u8)
    ensures x % 0x80 + (if HasBits(x, 0x80) then 0x80 else 0) == x
  {
    var b := x as bv8;
    assert HasBits(x, 0x80) <==> b & 0x80 != 0;
    if x < 0x80 {
      assert b & 0x80 == 0;
    } else {
      assert b & 0x80 != 0;
    }
  }

  // ---------------------------------------------------------------------
  // Chunked transfer of a configuration buffer

  const CHUNK_SIZE: nat := 63

  /** The bytes a round that starts at `offset` reads: a full chunk, or what
      is left of `size`. */
  function ChunkLength(size: nat, offset: nat): (n: nat)
    requires offset < size
    ensures 0 < n <= CHUNK_SIZE && offset + n <= size
    ensures n < CHUNK_SIZE ==> offset + n == size
  {
    Min(CHUNK_SIZE, size - offset)
  }

  /** The bytes the chunk loop appends from `offset` on: payload bytes `1..`
      of one reply per round, as many as that round reads. */
  function ChunksFrom(size: nat, offset: nat, replies: seq<seq<u8>>): (data: seq<u8>)
    requires offset <= size
    ensures |data| == size - offset
    decreases size - offset
  {
    if offset == size then []
    else
      var reading := ChunkLength(size, offset);
      FrameAt(replies, 0)[1..reading + 1] + ChunksFrom(size, offset + reading, Drop(replies, 1))
  }

  /** The number of rounds the chunk loop runs from `offset` on. */
  function RoundsFrom(size: nat, offset: nat): nat
    requires offset <= size
    decreases size - offset
  {
    if offset == size then 0 else 1 + RoundsFrom(size, offset + ChunkLength(size, offset))
  }

  /** The chunk requests the loop sends from `offset` on, one per round. */
  function RequestsFrom(buffer: Consts.ConfigBufferId, size: u16, offset: nat): seq<seq<u8>>
    requires offset <= size
    decreases size - offset
  {
    if offset == size then []
    else [ReadConfigRequest(buffer, offset as u16)] + RequestsFrom(buffer, size, offset + ChunkLength(size, offset))
  }

  /** One request is sent per round. */
  lemma {:induction false} RequestsCount(buffer: Consts.ConfigBufferId, size: u16, offset: nat)
    requires offset <= size
    ensures |RequestsFrom(buffer, size, offset)| == RoundsFrom(size, offset)
    decreases size - offset
  {
    if offset < size {
      RequestsCount(buffer, size, offset + ChunkLength(size, offset));
    }
  }

  /** The loop runs once per started chunk of 63 bytes: the size left,
      divided by 63 and rounded up. */
  lemma {:induction false} RoundsCount(size: nat, offset: nat)
    requires offset <= size
    ensures RoundsFrom(size, offset) == (size - offset + CHUNK_SIZE - 1) / CHUNK_SIZE
    decreases size - offset
  {
    if offset < size {
      var reading := ChunkLength(size, offset);
      RoundsCount(size, offset + reading);
      CeilStep(size - offset);
    }
  }

  /** Taking one chunk off a positive length takes one off its rounded-up
      chunk count. */
  lemma CeilStep(x: nat)
    requires x > 0
    ensures (x - Min(CHUNK_SIZE, x) + 62) / 63 + 1 == (x + 62) / 63
  {
    if x > 63 {
      assert x + 62 == (x - 63 + 62) + 63;
    }
  }

  /** Byte `m` of round `k` of what the loop appends is payload byte `m`
      (frame byte `m + 1`) of reply `k`, wherever the loop starts. */
  lemma {:induction false} ChunksContent(size: nat, offset: nat, replies: seq<seq<u8>>, k: nat, m: nat)
    requires offset <= size && m < CHUNK_SIZE && CHUNK_SIZE * k + m < size - offset
    ensures ChunksFrom(size, offset, replies)[CHUNK_SIZE * k + m] == FrameAt(replies, k)[m + 1]
    decreases k
  {
    var i := CHUNK_SIZE * k + m;
    ChunksSplit(size, offset, replies, i);
    if k > 0 {
      assert i - CHUNK_SIZE == CHUNK_SIZE * (k - 1) + m;
      ChunksContent(size, offset + CHUNK_SIZE, Drop(replies, 1), k - 1, m);
      DropDrop(replies, 1, k - 1);
    }
  }

  /** Byte `i` of what the loop appends lies in the first round's payload,
      or, past a full first chunk, in what the later rounds append. */
  lemma ChunksSplit(size: nat, offset: nat, replies: seq<seq<u8>>, i: nat)
    requires offset <= size && i < size - offset
    ensures i < CHUNK_SIZE ==> ChunksFrom(size, offset, replies)[i] == FrameAt(replies, 0)[i + 1]
    ensures i >= CHUNK_SIZE ==>
              && offset + CHUNK_SIZE <= size
              && ChunksFrom(size, offset, replies)[i]
                 == ChunksFrom(size, offset + CHUNK_SIZE, Drop(replies, 1))[i - CHUNK_SIZE]
  {
    var reading := ChunkLength(size, offset);
    var head := FrameAt(replies, 0)[1..reading + 1];
    var rest := ChunksFrom(size, offset + reading, Drop(replies, 1));
    assert ChunksFrom(size, offset, replies) == head + rest;
    if i < reading {
      assert (head + rest)[i] == head[i];
    } else {
      assert (head + rest)[i] == rest[i - reading];
    }
  }

  /** Round `k` asks for the chunk at offset `start + 63 * k`, which lies
      below `size`. */
  lemma {:induction false} RequestsContent(buffer: Consts.ConfigBufferId, size: u16, start: nat, k: nat)
    requires start <= size && k < |RequestsFrom(buffer, size, start)|
    ensures start + CHUNK_SIZE * k < size
    ensures RequestsFrom(buffer, size, start)[k] == ReadConfigRequest(buffer, (start + CHUNK_SIZE * k) as u16)
    decreases size - start
  {
    if k > 0 {
      var reading := ChunkLength(size, start);
      RequestsContent(buffer, size, start + reading, k - 1);
      assert reading == CHUNK_SIZE;
    }
  }

  /** 130 bytes take three rounds, of 63, 63 and 4 bytes, and the buffer is
      the payloads of the three replies cut to those lengths. */
  lemma ChunksOf130(replies: seq<seq<u8>>)
    ensures RoundsFrom(130, 0) == 3
    ensures ChunksFrom(130, 0, replies)
            == FrameAt(replies, 0)[1..64] + FrameAt(replies, 1)[1..64] + FrameAt(replies, 2)[1..5]
  {
    DropDrop(replies, 1, 0);
    DropDrop(replies, 1, 1);
    DropDrop(replies, 2, 0);
    assert ChunksFrom(130, 126, Drop(replies, 2)) == FrameAt(replies, 2)[1..5];
    assert ChunksFrom(130, 63, Drop(replies, 1)) == FrameAt(replies, 1)[1..64] + FrameAt(replies, 2)[1..5];
  }

  /** What one round of the chunk loop changes, in the terms of the loop's
      invariant: a round from `start` reads `reading` bytes and moves on to
      `offset`; the data gains the round's payload, the log its request,
      and one reply is consumed. */
  lemma ChunkRound(buffer: Consts.ConfigBufferId, size: u16, start: nat, reading: nat, offset: nat,
                   replies: seq<seq<u8>>, data: seq<u8>, written: seq<seq<u8>>)
    requires start < size && reading == ChunkLength(size, start) && offset == start + reading
    ensures data + ChunksFrom(size, start, replies)
            == (data + FrameAt(replies, 0)[1..reading + 1]) + ChunksFrom(size, offset, Drop(replies, 1))
    ensures written + RequestsFrom(buffer, size, start)
            == (written + [ReadConfigRequest(buffer, start as u16)]) + RequestsFrom(buffer, size, offset)
    ensures Drop(replies, RoundsFrom(size, start)) == Drop(Drop(replies, 1), RoundsFrom(size, offset))
  {
    ChunkRoundData(size, start, reading, offset, replies, data);
    ChunkRoundLog(buffer, size, start, offset, written);
    ChunkRoundReplies(size, start, offset, replies);
  }

  lemma ChunkRoundData(size: nat, start: nat, reading: nat, offset: nat, replies: seq<seq<u8>>, data: seq<u8>)
    requires start < size && reading == ChunkLength(size, start) && offset == start + reading
    ensures data + ChunksFrom(size, start, replies)
            == (data + FrameAt(replies, 0)[1..reading + 1]) + ChunksFrom(size, offset, Drop(replies, 1))
  {
    var chunk, rest := FrameAt(replies, 0)[1..reading + 1], ChunksFrom(size, offset, Drop(replies, 1));
    assert ChunksFrom(size, start, replies) == chunk + rest;
    AppendAssoc(data, chunk, rest);
  }

  lemma ChunkRoundLog(buffer: Consts.ConfigBufferId, size: u16, start: nat, offset: nat, written: seq<seq<u8>>)
    requires start < size && offset == start + ChunkLength(size, start)
    ensures written + RequestsFrom(buffer, size, start)
            == (written + [ReadConfigRequest(buffer, start as u16)]) + RequestsFrom(buffer, size, offset)
  {
    RequestsStep(buffer, size, start);
    AppendAssoc(written, [ReadConfigRequest(buffer, start as u16)], RequestsFrom(buffer, size, offset));
  }

  lemma RequestsStep(buffer: Consts.ConfigBufferId, size: u16, start: nat)
    requires start < size
    ensures RequestsFrom(buffer, size, start)
            == [ReadConfigRequest(buffer, start as u16)] + RequestsFrom(buffer, size, start + ChunkLength(size, start))
  {
  }

  lemma ChunkRoundReplies(size: nat, start: nat, offset: nat, replies: seq<seq<u8>>)
    requires start < size && offset == start + ChunkLength(size, start)
    ensures Drop(replies, RoundsFrom(size, start)) == Drop(Drop(replies, 1), RoundsFrom(size, offset))
  {
    var later := RoundsFrom(size, offset);
    assert RoundsFrom(size, start) == 1 + later;
    DropDrop(replies, 1, later);
  }

  class Device {
    const dev: HidDevice

    constructor (dev: HidDevice)
      ensures this.dev == dev
    {
      this.dev := dev;
    }

    /** A zeroed report buffer filled by the next read. */
    method Exchange(request: seq<u8>) returns (buf: seq<u8>)
      modifies dev
      ensures dev.written == old(dev.written) + [request]
      ensures dev.replies == Drop(old(dev.replies), 1)
      ensures buf == FrameAt(old(dev.replies), 0)
    {
      dev.Write(request);
      var frame := new u8[Consts.MAX_PAYLOAD_SIZE](_ => 0);
      assert frame[..] == Zeros(Consts.MAX_PAYLOAD_SIZE);
      dev.ReadTimeout(frame);
      buf := frame[..];
    }

    method GetConfigSize() returns (sizes: (nat, nat))
      modifies dev
      ensures dev.written == old(dev.written) + [ConfigSizesRequest()]
      ensures dev.replies == Drop(old(dev.replies), 1)
      ensures sizes == ConfigSizes(FrameAt(old(dev.replies), 0))
    {
      var buf := Exchange(ConfigSizesRequest());
      sizes := ((buf[1] as int + buf[2] as int) * 0x100, (buf[3] as int + buf[4] as int) * 0x100);
    }

    /** Milliseconds since the keyboard started. */
    method Uptime() returns (ms: u32)
      modifies dev
      ensures dev.written == old(dev.written) + [UptimeRequest()]
      ensures dev.replies == Drop(old(dev.replies), 1)
      ensures ms == UptimeOf(FrameAt(old(dev.replies), 0))
    {
      var buf := Exchange(UptimeRequest());
      ms := Le32(buf[1], buf[2], buf[3], buf[4]);
    }

    method GetVariable(v: Consts.UsbVariables) returns (value: u8)
      modifies dev
      ensures dev.written == old(dev.written) + [VariableRequest(v)]
      ensures dev.replies == Drop(old(dev.replies), 1)
      ensures value == VariableOf(FrameAt(old(dev.replies), 0))
    {
      var buf := Exchange(VariableRequest(v));
      value := buf[1];
    }

    method State() returns (r: Result<DeviceState>)
      modifies dev
      ensures dev.written == old(dev.written) + [StateRequest()]
      ensures dev.replies == Drop(old(dev.replies), 1)
      ensures r == DeviceStateOf(FrameAt(old(dev.replies), 0))
    {
      var buf := Exchange(StateRequest());
      var left := Consts.ModuleSlotsFrom(buf[4]);
      if left.None? {
        return Err(UnknownModuleSlot(buf[4]));
      }
      var right := Consts.ModuleSlotsFrom(buf[5]);
      if right.None? {
        return Err(UnknownModuleSlot(buf[5]));
      }
      r := Ok(DeviceState(
        buf[1] != 0,
        buf[2] != 0,
        buf[3] != 0,
        buf[6] % 0x80,
        HasBits(buf[6], 0x80),
        buf[3],
        left.value,
        right.value));
    }

    /** Reads a whole configuration buffer: asks for its size, then for
        63-byte chunks at increasing offsets until `size` bytes are in. */
    method LoadConfig(buffer: Consts.ConfigBufferId) returns (data: seq<u8>)
      modifies dev
      ensures var size := SelectSize(buffer, ConfigSizes(FrameAt(old(dev.replies), 0)));
        && |data| == size
        && data == ChunksFrom(size, 0, Drop(old(dev.replies), 1))
        && dev.written == old(dev.written) + [ConfigSizesRequest()] + RequestsFrom(buffer, size, 0)
        && dev.replies == Drop(Drop(old(dev.replies), 1), RoundsFrom(size, 0))
    {
      var sizes := GetConfigSize();
      var size := SelectSize(buffer, sizes);
      data := ReadChunks(buffer, size);
    }

    /** The `while offset < size` loop of `LoadConfig`. */
    method ReadChunks(buffer: Consts.ConfigBufferId, size: u16) returns (data: seq<u8>)
      modifies dev
      ensures data == ChunksFrom(size, 0, old(dev.replies))
      ensures dev.written == old(dev.written) + RequestsFrom(buffer, size, 0)
      ensures dev.replies == Drop(old(dev.replies), RoundsFrom(size, 0))
    {
      ghost var replies := dev.replies;
      ghost var written := dev.written;
      var offset: u16 := 0;
      data := [];
      while offset < size
        invariant offset <= size
        invariant data + ChunksFrom(size, offset, dev.replies) == ChunksFrom(size, 0, replies)
        invariant dev.written + RequestsFrom(buffer, size, offset) == written + RequestsFrom(buffer, size, 0)
        invariant Drop(dev.replies, RoundsFrom(size, offset)) == Drop(replies, RoundsFrom(size, 0))
        decreases size - offset
      {
        ghost var start, before, log, pending := offset, data, dev.written, dev.replies;
        var reading: u16 := ChunkLength(size as nat, offset as nat) as u16;
        ChunkRound(buffer, size, offset, reading, offset + reading, pending, before, log);
        var buf := Exchange(ReadConfigRequest(buffer, offset));
        data := data + buf[1..reading + 1];
        offset := offset + reading;
        assert data == before + FrameAt(pending, 0)[1..reading + 1];
        assert dev.written == log + [ReadConfigRequest(buffer, start as u16)];
        assert dev.replies == Drop(pending, 1);
        assert offset as nat == start + reading;
        assert data + ChunksFrom(size, offset, dev.replies) == before + ChunksFrom(size, start, pending);
        assert dev.written + RequestsFrom(buffer, size, offset) == log + RequestsFrom(buffer, size, start);
        assert Drop(dev.replies, RoundsFrom(size, offset)) == Drop(pending, RoundsFrom(size, start));
      }
      DropNone(dev.replies);
      assert data + [] == data && dev.written + [] == dev.written;
    }
  }
}
