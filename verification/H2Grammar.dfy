/**
 Which bytes are which frame (sections 4.1 and 6 of RFC 9113), written down as layouts: the fields of a frame
 one after the other, numbers by the places of their bytes. Reading accepts exactly these, whoever wrote them.
 */
module H2Grammar {
  import opened Common
  import opened Octets
  import opened H2Wire
  import opened H2Settings
  import opened H2Frames

  // ---- Numbers ----

  function Pow256(k: nat): nat {
    if k == 0 then 1 else 256 * Pow256(k - 1)
  }

  /** Bytes by their places, the first one counting most. */
  function Big(b: Bytes): nat {
    if b == [] then 0 else b[0] * Pow256(|b| - 1) + Big(b[1..])
  }

  lemma Big16(b: Bytes)
    requires |b| == 2
    ensures Num16(b) == Big(b) < U16
  {
    assert Pow256(1) == 256 && Pow256(0) == 1;
    assert b[1..][1..] == [];
  }

  lemma Big24(b: Bytes)
    requires |b| == 3
    ensures Num24(b) == Big(b) < U24
  {
    Big16(b[1..]);
    assert Pow256(2) == 0x1_0000;
  }

  lemma Big32(b: Bytes)
    requires |b| == 4
    ensures Num32(b) == Big(b) < U32
  {
    Big24(b[1..]);
    assert Pow256(3) == 256 * Pow256(2) && Pow256(2) == 0x1_0000;
  }

  /** The number in front of other bytes. */
  lemma Front32(b: Bytes)
    requires |b| >= 4
    ensures Num32(b) == Big(b[..4]) < U32
  {
    assert b == b[..4] + b[4..];
    NumPrefix(b[..4], b[4..]);
    Big32(b[..4]);
  }

  // ---- Contents of the payloads ----

  predicate Bit(flags: Flags, bit: Flags) {
    flags & bit != 0
  }

  lemma BitsMean(flags: Flags)
    ensures Has(flags, END_STREAM) == Bit(flags, 0x1) && Has(flags, ACK) == Bit(flags, 0x1)
    ensures Has(flags, END_HEADERS) == Bit(flags, 0x4) && Has(flags, PADDED) == Bit(flags, 0x8)
    ensures Has(flags, PRIORITIZED) == Bit(flags, 0x20)
  {
  }

  /** A length byte, the content, and as many bytes of padding as the length byte says; or the content alone. */
  ghost predicate Holds(flags: Flags, payload: Bytes, content: Bytes) {
    if Bit(flags, 0x8) then exists pad: Octet, tail: Bytes :: |tail| == pad && payload == [pad] + content + tail
    else payload == content
  }

  lemma UnpaddedMeans(flags: Flags, payload: Bytes, content: Bytes)
    ensures Unpadded(flags, payload) == Ok(content) <==> Holds(flags, payload, content)
  {
    BitsMean(flags);
    PaddingIsExact(payload, content);
  }

  /** Five bytes: the exclusive bit, 31 bits of stream, and the weight. */
  ghost predicate HoldsDependency(b: Bytes, d: Dependency) {
    |b| == 5 && d.stream < U31 && b[4] == d.weight && Big(b[..4]) == d.stream + if d.exclusive then U31 else 0
  }

  lemma DependencyMeans(b: Bytes, d: Dependency)
    requires |b| >= 5
    ensures ParseDependency(b) == d <==> HoldsDependency(b[..5], d)
  {
    assert b[..5][..4] == b[..4];
    Front32(b);
    assert Num32(b) == Num32(b[..4]);
    TopByte(b[..4]);
    Mod31(Num32(b));
  }

  /** Settings of six bytes each, a key of two and a value of four. */
  ghost predicate HoldsSettings(payload: Bytes, ss: seq<Setting>) {
    && |payload| == 6 * |ss|
    && forall i | 0 <= i < |ss| :: HoldsSetting(payload[6 * i..6 * i + 6], ss[i])
  }

  ghost predicate HoldsSetting(b: Bytes, s: Setting)
    requires |b| == 6
  {
    Big(b[..2]) == s.key && Big(b[2..]) == s.val
  }

  lemma SettingMeans(b: Bytes, s: Setting)
    requires |b| >= 6
    ensures Setting(Num16(b), Num32(b[2..])) == s <==> HoldsSetting(b[..6], s)
  {
    assert b == b[..2] + b[2..] && b[..6][..2] == b[..2] && b[..6][2..] == b[2..][..4];
    NumPrefix(b[..2], b[2..]);
    Big16(b[..2]);
    Front32(b[2..]);
  }

  lemma HoldsMore(payload: Bytes, s: Setting, ss: seq<Setting>)
    requires |payload| >= 6
    ensures HoldsSettings(payload, [s] + ss) <==> HoldsSetting(payload[..6], s) && HoldsSettings(payload[6..], ss)
  {
    var all, rest := [s] + ss, payload[6..];
    assert payload[0..6] == payload[..6];
    assert forall i | 0 <= i < |ss| && 6 * i + 6 <= |rest| ::
        rest[6 * i..6 * i + 6] == payload[6 * (i + 1)..6 * (i + 1) + 6];
    if HoldsSettings(payload, all) {
      assert HoldsSetting(payload[6 * 0..6 * 0 + 6], all[0]);
      forall i | 0 <= i < |ss|
        ensures HoldsSetting(rest[6 * i..6 * i + 6], ss[i])
      {
        assert HoldsSetting(payload[6 * (i + 1)..6 * (i + 1) + 6], all[i + 1]);
      }
    }
    if HoldsSetting(payload[..6], s) && HoldsSettings(rest, ss) {
      forall i | 0 <= i < |all|
        ensures HoldsSetting(payload[6 * i..6 * i + 6], all[i])
      {
        if i > 0 {
          assert HoldsSetting(rest[6 * (i - 1)..6 * (i - 1) + 6], ss[i - 1]);
        }
      }
    }
  }

  lemma {:induction false} SettingsMean(payload: Bytes, ss: seq<Setting>)
    requires |payload| % 6 == 0
    ensures SettingsOf(payload) == ss <==> HoldsSettings(payload, ss)
    decreases |payload|
  {
    if |payload| < 6 {
      assert payload == [];
    } else if ss == [] {
      assert |payload| != 6 * |ss|;
    } else {
      var first := Setting(Num16(payload), Num32(payload[2..]));
      SettingMeans(payload, ss[0]);
      SettingsMean(payload[6..], ss[1..]);
      assert ss == [ss[0]] + ss[1..];
      HoldsMore(payload, ss[0], ss[1..]);
      var later := SettingsOf(payload[6..]);
      assert SettingsOf(payload) == [first] + later;
      assert ([first] + later)[1..] == later;
    }
  }

  /** Section 6.5.2 of RFC 9113 and section 3 of RFC 8441. */
  predicate ValueAllowed(s: Setting) {
    && (s.key == 2 || s.key == 8 ==> s.val <= 1)
    && (s.key == 4 ==> s.val <= 0x7FFF_FFFF)
    && (s.key == 5 ==> 0x4000 <= s.val <= 0xFF_FFFF)
  }

  /** Every parameter has the last value given for it, or its initial one. */
  predicate Settled(p: Params, ss: seq<Setting>) {
    && p.tableSize == Last(ss, 1, 4096)
    && p.push == (Last(ss, 2, 0) == 1)
    && p.maxStreams == Last(ss, 3, 100)
    && p.windowSize == Last(ss, 4, 65535)
    && p.frameSize == Last(ss, 5, 16384)
    && p.headerSize == Last(ss, 6, 0)
    && p.connect == (Last(ss, 8, 0) == 1)
  }

  lemma ValueMeans(s: Setting)
    ensures ValueError(s.key, s.val).None? <==> ValueAllowed(s)
    ensures ValueError(s.key, s.val) == Some(FlowControlError) <==> !ValueAllowed(s) && s.key == 4
  {
  }

  lemma AppliedMeans(ss: seq<Setting>, p: Params)
    ensures ApplyAll(DEFAULTS, ss) == ReadResult(p, None)
            <==> (forall i | 0 <= i < |ss| :: ValueAllowed(ss[i])) && Settled(p, ss)
  {
    forall i | 0 <= i < |ss|
      ensures ValueError(ss[i].key, ss[i].val).None? <==> ValueAllowed(ss[i])
    {
      ValueMeans(ss[i]);
    }
    LastWins(DEFAULTS, ss);
    if ApplyAll(DEFAULTS, ss).err.None? {
      var q := ApplyAll(DEFAULTS, ss).params;
      assert Get(q, 1) == Last(ss, 1, Get(DEFAULTS, 1)) && Get(q, 2) == Last(ss, 2, Get(DEFAULTS, 2));
      assert Get(q, 3) == Last(ss, 3, Get(DEFAULTS, 3)) && Get(q, 4) == Last(ss, 4, Get(DEFAULTS, 4));
      assert Get(q, 5) == Last(ss, 5, Get(DEFAULTS, 5)) && Get(q, 6) == Last(ss, 6, Get(DEFAULTS, 6));
      assert Get(q, 8) == Last(ss, 8, Get(DEFAULTS, 8));
    }
  }

  // ---- Bodies ----

  ghost predicate IsData(flags: Flags, stream: Uint32, payload: Bytes, b: Body) {
    b.Data? && stream != 0 && b.endStream == Bit(flags, 0x1) && !b.padded && Holds(flags, payload, b.data)
  }

  /** After the padding is off: the dependency, if there is one, and the block. */
  ghost predicate HoldsBlock(flags: Flags, stream: Uint32, content: Bytes, b: Body)
    requires b.Headers?
  {
    if Bit(flags, 0x20) then
      && b.priority.Some? && b.priority.value.stream != stream
      && exists head: Bytes :: content == head + b.block && HoldsDependency(head, b.priority.value)
    else b.priority.None? && content == b.block
  }

  ghost predicate IsHeaders(flags: Flags, stream: Uint32, payload: Bytes, b: Body) {
    && b.Headers? && stream != 0 && b.endStream == Bit(flags, 0x1) && b.endHeaders == Bit(flags, 0x4) && !b.padded
    && exists content: Bytes :: Holds(flags, payload, content) && HoldsBlock(flags, stream, content, b)
  }

  ghost predicate IsPriority(stream: Uint32, payload: Bytes, b: Body) {
    b.Priority? && stream != 0 && HoldsDependency(payload, b.dependency) && b.dependency.stream != stream
  }

  predicate IsReset(stream: Uint32, payload: Bytes, b: Body) {
    b.RstStream? && stream != 0 && |payload| == 4 && Big(payload) == b.code
  }

  /** The payload holds allowed settings, and these are the parameters after them. */
  ghost predicate Sets(payload: Bytes, p: Params) {
    exists ss: seq<Setting> ::
      HoldsSettings(payload, ss) && (forall i | 0 <= i < |ss| :: ValueAllowed(ss[i])) && Settled(p, ss)
  }

  ghost predicate IsSettings(flags: Flags, stream: Uint32, payload: Bytes, b: Body) {
    && b.SettingsBody? && stream == 0 && b.ack == Bit(flags, 0x1) && (b.ack ==> payload == [])
    && Sets(payload, b.params)
  }

  ghost predicate IsPush(flags: Flags, stream: Uint32, payload: Bytes, b: Body) {
    && b.PushPromise? && stream != 0 && b.endHeaders == Bit(flags, 0x4)
    && exists id: Bytes :: |id| == 4 && Holds(flags, payload, id + b.block) && Big(id) % U31 == b.promised
  }

  predicate IsPing(flags: Flags, stream: Uint32, payload: Bytes, b: Body) {
    b.Ping? && stream == 0 && b.ack == Bit(flags, 0x1) && |payload| == 8 && payload == b.opaqueData
  }

  ghost predicate IsGoAway(stream: Uint32, payload: Bytes, b: Body) {
    && b.GoAway? && stream == 0
    && exists last: Bytes, code: Bytes ::
         && |last| == 4 && |code| == 4 && payload == last + code + b.debug
         && Big(last) % U31 == b.last && Big(code) == b.code
  }

  predicate IsWindow(payload: Bytes, b: Body) {
    b.WindowUpdate? && |payload| == 4 && 0 < b.increment && Big(payload) % U31 == b.increment
  }

  predicate IsContinuation(flags: Flags, stream: Uint32, payload: Bytes, b: Body) {
    b.Continuation? && stream != 0 && b.endHeaders == Bit(flags, 0x4) && payload == b.block
  }

  /** The frame with this header and payload says `b`. */
  ghost predicate Says(kind: Octet, flags: Flags, stream: Uint32, payload: Bytes, b: Body) {
    match kind
    case 0 => IsData(flags, stream, payload, b)
    case 1 => IsHeaders(flags, stream, payload, b)
    case 2 => IsPriority(stream, payload, b)
    case 3 => IsReset(stream, payload, b)
    case 4 => IsSettings(flags, stream, payload, b)
    case 5 => IsPush(flags, stream, payload, b)
    case 6 => IsPing(flags, stream, payload, b)
    case 7 => IsGoAway(stream, payload, b)
    case 8 => IsWindow(payload, b)
    case 9 => IsContinuation(flags, stream, payload, b)
    case _ => false
  }

  lemma DataMeans(flags: Flags, stream: Uint32, payload: Bytes, b: Body)
    ensures ParseData(flags, stream, payload) == Ok(b) <==> IsData(flags, stream, payload, b)
  {
    BitsMean(flags);
    if b.Data? {
      UnpaddedMeans(flags, payload, b.data);
    }
  }

  lemma BlockMeans(flags: Flags, stream: Uint32, content: Bytes, b: Body)
    requires b.Headers? && Bit(flags, 0x20)
    ensures HoldsBlock(flags, stream, content, b)
            <==> && |content| >= 5 && b.priority == Some(ParseDependency(content)) && content[5..] == b.block
                 && ParseDependency(content).stream != stream
  {
    if |content| >= 5 && b.priority.Some? {
      DependencyMeans(content, b.priority.value);
      assert content == content[..5] + content[5..];
    }
    if HoldsBlock(flags, stream, content, b) {
      var head: Bytes :| content == head + b.block && HoldsDependency(head, b.priority.value);
      assert content[..5] == head && content[5..] == b.block;
    }
  }

  lemma HeadersMean(flags: Flags, stream: Uint32, payload: Bytes, b: Body)
    ensures ParseHeaders(flags, stream, payload) == Ok(b) <==> IsHeaders(flags, stream, payload, b)
  {
    BitsMean(flags);
    var t := Unpadded(flags, payload);
    if t.Ok? && b.Headers? {
      UnpaddedMeans(flags, payload, t.value);
      if Bit(flags, 0x20) {
        BlockMeans(flags, stream, t.value, b);
      }
    }
    if IsHeaders(flags, stream, payload, b) {
      var content: Bytes :| Holds(flags, payload, content) && HoldsBlock(flags, stream, content, b);
      UnpaddedMeans(flags, payload, content);
    }
  }

  lemma PriorityMeans(stream: Uint32, payload: Bytes, b: Body)
    ensures ParsePriority(stream, payload) == Ok(b) <==> IsPriority(stream, payload, b)
  {
    if |payload| == 5 && b.Priority? {
      DependencyMeans(payload, b.dependency);
      assert payload[..5] == payload;
    }
  }

  lemma ResetMeans(stream: Uint32, payload: Bytes, b: Body)
    ensures ParseReset(stream, payload) == Ok(b) <==> IsReset(stream, payload, b)
  {
    if |payload| == 4 {
      Big32(payload);
    }
  }

  lemma OneList(payload: Bytes, ss: seq<Setting>, p: Params)
    requires forall listed: seq<Setting> :: HoldsSettings(payload, listed) <==> listed == ss
    ensures Sets(payload, p) <==> ApplyAll(DEFAULTS, ss) == ReadResult(p, None)
  {
    assert HoldsSettings(payload, ss);
    AppliedMeans(ss, p);
  }

  lemma SixTimes(n: nat)
    ensures 6 * n % 6 == 0
  {
  }

  lemma NoList(payload: Bytes, p: Params)
    ensures Sets(payload, p) ==> |payload| % 6 == 0
  {
    if ss: seq<Setting> :| HoldsSettings(payload, ss) {
      SixTimes(|ss|);
    }
  }

  lemma AllLists(payload: Bytes, ss: seq<Setting>)
    requires |payload| % 6 == 0 && ss == SettingsOf(payload)
    ensures forall listed: seq<Setting> :: HoldsSettings(payload, listed) <==> listed == ss
  {
    forall listed: seq<Setting>
      ensures HoldsSettings(payload, listed) <==> listed == ss
    {
      SettingsMean(payload, listed);
    }
  }

  lemma SetsMean(payload: Bytes, p: Params, ss: seq<Setting>)
    requires ss == SettingsOf(payload)
    ensures Sets(payload, p) <==> |payload| % 6 == 0 && ApplyAll(DEFAULTS, ss) == ReadResult(p, None)
  {
    NoList(payload, p);
    if |payload| % 6 == 0 {
      AllLists(payload, ss);
      OneList(payload, ss, p);
    }
  }

  lemma SettingsFrameMeans(flags: Flags, stream: Uint32, payload: Bytes, b: Body)
    ensures ParseSettings(flags, stream, payload) == Ok(b) <==> IsSettings(flags, stream, payload, b)
  {
    BitsMean(flags);
    if b.SettingsBody? {
      SetsMean(payload, b.params, SettingsOf(payload));
    }
  }

  lemma PushMeans(flags: Flags, stream: Uint32, payload: Bytes, b: Body)
    ensures ParsePush(flags, stream, payload) == Ok(b) <==> IsPush(flags, stream, payload, b)
  {
    BitsMean(flags);
    var t := Unpadded(flags, payload);
    if t.Ok? {
      UnpaddedMeans(flags, payload, t.value);
      if |t.value| >= 4 {
        Front32(t.value);
        assert t.value == t.value[..4] + t.value[4..];
      }
    }
    if IsPush(flags, stream, payload, b) {
      var id: Bytes :| |id| == 4 && Holds(flags, payload, id + b.block) && Big(id) % U31 == b.promised;
      UnpaddedMeans(flags, payload, id + b.block);
      assert (id + b.block)[..4] == id && (id + b.block)[4..] == b.block;
    }
  }

  lemma GoAwayMeans(stream: Uint32, payload: Bytes, b: Body)
    ensures ParseGoAway(stream, payload) == Ok(b) <==> IsGoAway(stream, payload, b)
  {
    if |payload| >= 8 {
      Front32(payload);
      Front32(payload[4..]);
      assert payload == payload[..4] + payload[4..][..4] + payload[8..];
    }
    if IsGoAway(stream, payload, b) {
      var last: Bytes, code: Bytes :| |last| == 4 && |code| == 4 && payload == last + code + b.debug
          && Big(last) % U31 == b.last && Big(code) == b.code;
      assert payload[..4] == last && payload[4..][..4] == code && payload[8..] == b.debug;
    }
  }

  lemma PlainMeans(flags: Flags, stream: Uint32, payload: Bytes, b: Body)
    ensures ParsePing(flags, stream, payload) == Ok(b) <==> IsPing(flags, stream, payload, b)
    ensures ParseWindow(stream, payload) == Ok(b) <==> IsWindow(payload, b)
    ensures ParseContinuation(flags, stream, payload) == Ok(b) <==> IsContinuation(flags, stream, payload, b)
  {
    BitsMean(flags);
    if |payload| == 4 {
      Big32(payload);
    }
  }

  /** Every payload of every known kind: it is accepted as `b` exactly if that is what its bytes say. */
  lemma ParseMeans(kind: Octet, flags: Flags, stream: Uint32, payload: Bytes, b: Body)
    requires kind <= 9
    ensures Parse(kind, flags, stream, payload) == Ok(b) <==> Says(kind, flags, stream, payload, b)
  {
    DataMeans(flags, stream, payload, b);
    HeadersMean(flags, stream, payload, b);
    PriorityMeans(stream, payload, b);
    ResetMeans(stream, payload, b);
    SettingsFrameMeans(flags, stream, payload, b);
    PushMeans(flags, stream, payload, b);
    GoAwayMeans(stream, payload, b);
    PlainMeans(flags, stream, payload, b);
  }

  // ---- Faults ----

  /** SETTINGS, PING and GOAWAY are about the connection, WINDOW_UPDATE about either, the others about a stream. */
  predicate WrongStream(kind: Octet, stream: Uint32) {
    if kind == 4 || kind == 6 || kind == 7 then stream != 0 else kind != 8 && stream == 0
  }

  predicate MayBePadded(kind: Octet) {
    kind == 0 || kind == 1 || kind == 5
  }

  ghost predicate BadPadding(kind: Octet, flags: Flags, payload: Bytes) {
    MayBePadded(kind) && !exists content: Bytes :: Holds(flags, payload, content)
  }

  ghost predicate Short(flags: Flags, payload: Bytes, n: nat) {
    exists content: Bytes :: Holds(flags, payload, content) && |content| < n
  }

  ghost predicate WrongSize(kind: Octet, flags: Flags, payload: Bytes) {
    match kind
    case 1 => Bit(flags, 0x20) && Short(flags, payload, 5)
    case 2 => |payload| != 5
    case 3 => |payload| != 4
    case 4 => |payload| % 6 != 0 || (Bit(flags, 0x1) && payload != [])
    case 5 => Short(flags, payload, 4)
    case 6 => |payload| != 8
    case 7 => |payload| < 8
    case 8 => |payload| != 4
    case _ => false
  }

  /** The stream that the first four bytes name. */
  predicate Names(content: Bytes, stream: Uint32) {
    |content| >= 4 && Big(content[..4]) % U31 == stream
  }

  ghost predicate DependsOnItself(kind: Octet, flags: Flags, stream: Uint32, payload: Bytes) {
    || (kind == 2 && Names(payload, stream))
    || (kind == 1 && Bit(flags, 0x20)
        && exists content: Bytes :: Holds(flags, payload, content) && Names(content, stream))
  }

  /** The first value that is not allowed is one for `key`. */
  ghost predicate FirstBad(ss: seq<Setting>, key: nat) {
    exists i ::
      0 <= i < |ss| && ss[i].key == key && !ValueAllowed(ss[i]) && forall j | 0 <= j < i :: ValueAllowed(ss[j])
  }

  /** Some value is not allowed; `flow`: the first such is one for the initial window. */
  ghost predicate BadList(ss: seq<Setting>, flow: bool) {
    exists key: nat :: FirstBad(ss, key) && flow == (key == 4)
  }

  ghost predicate BadSettings(payload: Bytes, e: FrameError) {
    && (e == FlowControl || e == Protocol)
    && exists ss: seq<Setting> :: HoldsSettings(payload, ss) && BadList(ss, e == FlowControl)
  }

  /** What is wrong with a frame, the first thing in this order. */
  ghost predicate Fault(kind: Octet, flags: Flags, stream: Uint32, payload: Bytes, e: FrameError) {
    if WrongStream(kind, stream) then e == Protocol
    else if BadPadding(kind, flags, payload) then e == if payload == [] then MissingBytes else Protocol
    else if WrongSize(kind, flags, payload) then e == FrameSize
    else if kind == 4 then BadSettings(payload, e)
    else if kind == 8 then Big(payload) % U31 == 0 && e == if stream == 0 then Protocol else StreamProtocol
    else DependsOnItself(kind, flags, stream, payload) && e == Protocol
  }

  lemma PaddingFault(kind: Octet, flags: Flags, payload: Bytes)
    requires MayBePadded(kind)
    ensures Unpadded(flags, payload).Ok? <==> !BadPadding(kind, flags, payload)
    ensures Unpadded(flags, payload).Err? ==>
              Unpadded(flags, payload) == Err(if payload == [] then MissingBytes else Protocol)
    ensures Unpadded(flags, payload).Ok? ==>
              forall c: Bytes :: Holds(flags, payload, c) <==> c == Unpadded(flags, payload).value
  {
    BitsMean(flags);
    forall c: Bytes
      ensures Holds(flags, payload, c) <==> Unpadded(flags, payload) == Ok(c)
    {
      UnpaddedMeans(flags, payload, c);
    }
  }

  lemma NamesMean(content: Bytes, stream: Uint32)
    requires |content| >= 5
    ensures Names(content, stream) <==> ParseDependency(content).stream == stream
  {
    Front32(content);
  }

  lemma DataFault(flags: Flags, stream: Uint32, payload: Bytes, e: FrameError)
    ensures ParseData(flags, stream, payload) == Err(e) <==> Fault(0, flags, stream, payload, e)
  {
    PaddingFault(0, flags, payload);
  }

  lemma HeadersFault(flags: Flags, stream: Uint32, payload: Bytes, e: FrameError)
    ensures ParseHeaders(flags, stream, payload) == Err(e) <==> Fault(1, flags, stream, payload, e)
  {
    BitsMean(flags);
    PaddingFault(1, flags, payload);
    var t := Unpadded(flags, payload);
    if t.Ok? {
      assert Holds(flags, payload, t.value);
      if |t.value| >= 5 {
        NamesMean(t.value, stream);
      }
    }
  }

  lemma PushFault(flags: Flags, stream: Uint32, payload: Bytes, e: FrameError)
    ensures ParsePush(flags, stream, payload) == Err(e) <==> Fault(5, flags, stream, payload, e)
  {
    PaddingFault(5, flags, payload);
    var t := Unpadded(flags, payload);
    if t.Ok? {
      assert Holds(flags, payload, t.value);
    }
  }

  lemma PlainFaults(flags: Flags, stream: Uint32, payload: Bytes, e: FrameError)
    ensures ParsePriority(stream, payload) == Err(e) <==> Fault(2, flags, stream, payload, e)
    ensures ParseReset(stream, payload) == Err(e) <==> Fault(3, flags, stream, payload, e)
    ensures ParsePing(flags, stream, payload) == Err(e) <==> Fault(6, flags, stream, payload, e)
    ensures ParseGoAway(stream, payload) == Err(e) <==> Fault(7, flags, stream, payload, e)
    ensures ParseWindow(stream, payload) == Err(e) <==> Fault(8, flags, stream, payload, e)
    ensures ParseContinuation(flags, stream, payload) == Err(e) <==> Fault(9, flags, stream, payload, e)
  {
    if |payload| == 5 {
      NamesMean(payload, stream);
    }
    if |payload| == 4 {
      Big32(payload);
    }
  }

  lemma {:induction false} FirstErrorMeans(p: Params, ss: seq<Setting>, e: SettingsError)
    ensures ApplyAll(p, ss).err == Some(e) <==> BadList(ss, e == FlowControlError)
    decreases |ss|
  {
    if ss != [] {
      ValueMeans(ss[0]);
      if ValueAllowed(ss[0]) {
        FirstErrorMeans(Apply(p, ss[0].key, ss[0].val), ss[1..], e);
        forall key: nat
          ensures FirstBad(ss, key) <==> FirstBad(ss[1..], key)
        {
          FirstBadLater(ss, key);
        }
      } else {
        assert FirstBad(ss, ss[0].key);
      }
    }
  }

  lemma FirstBadLater(ss: seq<Setting>, key: nat)
    requires ss != [] && ValueAllowed(ss[0])
    ensures FirstBad(ss, key) <==> FirstBad(ss[1..], key)
  {
    if i :| 0 <= i < |ss| && ss[i].key == key && !ValueAllowed(ss[i]) && forall j | 0 <= j < i :: ValueAllowed(ss[j]) {
      assert ss[1..][i - 1] == ss[i];
      assert forall j | 0 <= j < i - 1 :: ss[1..][j] == ss[j + 1];
    }
    if i :| 0 <= i < |ss[1..]| && ss[1..][i].key == key && !ValueAllowed(ss[1..][i])
            && forall j | 0 <= j < i :: ValueAllowed(ss[1..][j]) {
      assert ss[i + 1] == ss[1..][i];
      forall j | 0 <= j < i + 1
        ensures ValueAllowed(ss[j])
      {
        if j > 0 {
          assert ss[j] == ss[1..][j - 1];
        }
      }
    }
  }

  lemma BadSettingsMean(payload: Bytes, ss: seq<Setting>, e: FrameError)
    requires |payload| % 6 == 0 && SettingsOf(payload) == ss
    ensures BadSettings(payload, e) <==> (e == FlowControl || e == Protocol) && BadList(ss, e == FlowControl)
  {
    SettingsMean(payload, ss);
    if BadSettings(payload, e) {
      var listed: seq<Setting> :| HoldsSettings(payload, listed) && BadList(listed, e == FlowControl);
      SettingsMean(payload, listed);
    }
  }

  lemma SettingsFault(flags: Flags, stream: Uint32, payload: Bytes, e: FrameError)
    ensures ParseSettings(flags, stream, payload) == Err(e) <==> Fault(4, flags, stream, payload, e)
  {
    BitsMean(flags);
    if |payload| % 6 == 0 {
      var ss := SettingsOf(payload);
      BadSettingsMean(payload, ss, e);
      FirstErrorMeans(DEFAULTS, ss, FlowControlError);
      FirstErrorMeans(DEFAULTS, ss, ProtocolError);
      var err := ApplyAll(DEFAULTS, ss).err;
      assert BadList(ss, true) <==> err == Some(FlowControlError);
      assert BadList(ss, false) <==> err == Some(ProtocolError);
      assert BadList(ss, e == FlowControl) <==> if e == FlowControl then BadList(ss, true) else BadList(ss, false);
      assert err.Some? ==> err.value == FlowControlError || err.value == ProtocolError;
      assert BadSettings(payload, e)
          <==> err.Some? && e == if err == Some(FlowControlError) then FlowControl else Protocol;
    }
  }

  /** Every payload of every known kind: it is refused with `e` exactly if that is its first fault. */
  lemma FaultsMean(kind: Octet, flags: Flags, stream: Uint32, payload: Bytes, e: FrameError)
    requires kind <= 9
    ensures Parse(kind, flags, stream, payload) == Err(e) <==> Fault(kind, flags, stream, payload, e)
  {
    DataFault(flags, stream, payload, e);
    HeadersFault(flags, stream, payload, e);
    PushFault(flags, stream, payload, e);
    SettingsFault(flags, stream, payload, e);
    PlainFaults(flags, stream, payload, e);
  }

  // ---- Frames ----

  /** Nine bytes of header with the payload's length in front of it, and the bytes after the frame. */
  predicate FrameAt(rest: Bytes, f: Raw, after: Bytes) {
    |rest| >= 9 && Heads(rest[..9], f) && rest == rest[..9] + f.payload + after
  }

  predicate Heads(head: Bytes, f: Raw) {
    && |head| == 9 && Big(head[..3]) == |f.payload| && head[3] == f.kind && head[4] as bv8 == f.flags
    && Big(head[5..]) % U31 == f.stream
  }

  /** What is to be made of a frame: too long, unknown, what it says, or its fault. */
  ghost predicate TakenFor(f: Raw, maxLen: nat, o: Outcome) {
    if maxLen != 0 && |f.payload| > maxLen then o == Bad(PayloadExceeds)
    else if f.kind > 9 then o == Unknown(f.kind, f.flags, f.stream)
    else
      || (o.Frame? && o.stream == f.stream && o.flags == f.flags && Says(f.kind, f.flags, f.stream, f.payload, o.body))
      || (o.Bad? && Fault(f.kind, f.flags, f.stream, f.payload, o.error))
  }

  lemma JudgeMeans(f: Raw, maxLen: nat, o: Outcome)
    ensures Judge(f, maxLen) == o <==> TakenFor(f, maxLen, o)
  {
    if f.kind <= 9 {
      if o.Frame? {
        ParseMeans(f.kind, f.flags, f.stream, f.payload, o.body);
      } else if o.Bad? {
        FaultsMean(f.kind, f.flags, f.stream, f.payload, o.error);
      }
    }
  }

  lemma Front24(b: Bytes)
    requires |b| >= 3
    ensures Num24(b) == Big(b[..3])
  {
    assert b == b[..3] + b[3..];
    NumPrefix(b[..3], b[3..]);
    Big24(b[..3]);
  }

  lemma HeadMeans(head: Bytes, f: Raw, h: Head)
    requires |head| == 9 && h == ParseHead(head)
    ensures Heads(head, f) <==> h == Head(|f.payload|, f.kind, f.flags, f.stream)
  {
    Front24(head);
    Front32(head[5..]);
    assert head[5..][..4] == head[5..];
  }

  lemma HeadInFront(rest: Bytes)
    requires |rest| >= 9
    ensures ParseHead(rest) == ParseHead(rest[..9])
  {
  }

  /** The raw frame in front of `rest`, by its header. */
  function FirstRaw(rest: Bytes): Raw
    requires |rest| >= 9 && |rest| >= 9 + ParseHead(rest).length
  {
    var h := ParseHead(rest);
    Raw(h.kind, h.flags, h.stream, rest[9..9 + h.length])
  }

  /** Where the payload is and what comes after it follow from its length. */
  lemma Cut(rest: Bytes, payload: Bytes, after: Bytes, n: nat)
    requires |rest| >= 9 && |payload| == n
    ensures rest == rest[..9] + payload + after
            <==> |rest| >= 9 + n && payload == rest[9..9 + n] && after == rest[9 + n..]
  {
    if rest == rest[..9] + payload + after {
      assert rest[9..] == payload + after;
    }
  }

  lemma FirstFrame(rest: Bytes, f: Raw, after: Bytes)
    ensures FrameAt(rest, f, after)
            <==> && |rest| >= 9 && |rest| >= 9 + ParseHead(rest).length
                 && f == FirstRaw(rest) && after == rest[9 + ParseHead(rest).length..]
  {
    if |rest| >= 9 {
      HeadInFront(rest);
      HeadMeans(rest[..9], f, ParseHead(rest));
      Cut(rest, f.payload, after, |f.payload|);
    }
  }

  /** Reading takes the frame that is in front, whoever wrote it, and makes of it what its bytes say. */
  lemma ReadFrameMeans(rest: Bytes, maxLen: nat, o: Outcome, after: Bytes)
    ensures ReadFrame(rest, maxLen) == FrameRead(o, after)
            <==> exists f: Raw :: FrameAt(rest, f, after) && TakenFor(f, maxLen, o)
  {
    if ReadFrame(rest, maxLen) == FrameRead(o, after) {
      var f := FirstRaw(rest);
      assert rest[9..][..ParseHead(rest).length] == f.payload;
      assert rest[9..][ParseHead(rest).length..] == rest[9 + ParseHead(rest).length..];
      FirstFrame(rest, f, after);
      JudgeMeans(f, maxLen, o);
    }
    if f: Raw :| FrameAt(rest, f, after) && TakenFor(f, maxLen, o) {
      FirstFrame(rest, f, after);
      JudgeMeans(f, maxLen, o);
      assert rest[9..][..ParseHead(rest).length] == f.payload;
      assert rest[9..][ParseHead(rest).length..] == rest[9 + ParseHead(rest).length..];
    }
  }
}
