/** SETTINGS parameters (section 6.5 of RFC 9113): their encoding, and reading them with the last value winning. */
module H2Settings {
  import opened Common
  import opened Octets
  import opened H2Wire

  const HEADER_TABLE_SIZE := 0x1
  const ENABLE_PUSH := 0x2
  const MAX_CONCURRENT_STREAMS := 0x3
  const INITIAL_WINDOW_SIZE := 0x4
  const MAX_FRAME_SIZE := 0x5
  const MAX_HEADER_LIST_SIZE := 0x6
  const ENABLE_CONNECT_PROTOCOL := 0x8

  datatype Params = Params(tableSize: Uint32, push: bool, maxStreams: Uint32, windowSize: Uint32,
                           frameSize: Uint32, headerSize: Uint32, connect: bool)

  /** The values of Reset. */
  const DEFAULTS := Params(4096, false, 100, 65535, 16384, 0, false)

  datatype SettingsError = ProtocolError | FlowControlError

  /** Whether a value is allowed for a key; unknown keys take any. */
  function ValueError(key: nat, val: Uint32): Option<SettingsError> {
    if (key == ENABLE_PUSH || key == ENABLE_CONNECT_PROTOCOL) && val > 1 then Some(ProtocolError)
    else if key == INITIAL_WINDOW_SIZE && val >= U31 then Some(FlowControlError)
    else if key == MAX_FRAME_SIZE && !(16384 <= val < U24) then Some(ProtocolError)
    else None
  }

  /** applySetting, for an allowed value. */
  function Apply(p: Params, key: nat, val: Uint32): Params {
    if key == HEADER_TABLE_SIZE then p.(tableSize := val)
    else if key == ENABLE_PUSH then p.(push := val != 0)
    else if key == MAX_CONCURRENT_STREAMS then p.(maxStreams := val)
    else if key == INITIAL_WINDOW_SIZE then p.(windowSize := val)
    else if key == MAX_FRAME_SIZE then p.(frameSize := val)
    else if key == MAX_HEADER_LIST_SIZE then p.(headerSize := val)
    else if key == ENABLE_CONNECT_PROTOCOL then p.(connect := val == 1)
    else p
  }

  datatype Setting = Setting(key: nat, val: Uint32)

  /** The settings of a payload; bytes that do not fill one are ignored. */
  function SettingsOf(payload: Bytes): seq<Setting> {
    if |payload| < 6 then []
    else [Setting(Num16(payload), Num32(payload[2..]))] + SettingsOf(payload[6..])
  }

  datatype ReadResult = ReadResult(params: Params, err: Option<SettingsError>)

  /** One after the other, up to the first value that is not allowed. */
  function ApplyAll(p: Params, ss: seq<Setting>): ReadResult
    decreases |ss|
  {
    if ss == [] then ReadResult(p, None)
    else if ValueError(ss[0].key, ss[0].val).Some? then ReadResult(p, ValueError(ss[0].key, ss[0].val))
    else ApplyAll(Apply(p, ss[0].key, ss[0].val), ss[1..])
  }

  function WriteSetting(s: Setting): (b: Bytes)
    ensures |b| == 6
  {
    Bytes16(s.key) + Bytes32(s.val)
  }

  function WriteSettings(ss: seq<Setting>): Bytes {
    if ss == [] then [] else WriteSetting(ss[0]) + WriteSettings(ss[1..])
  }

  /** The settings that Encode writes: switches only when they are on. */
  function Listed(p: Params): seq<Setting> {
    [Setting(HEADER_TABLE_SIZE, p.tableSize)]
    + (if p.push then [Setting(ENABLE_PUSH, 1)] else [])
    + [Setting(MAX_CONCURRENT_STREAMS, p.maxStreams), Setting(INITIAL_WINDOW_SIZE, p.windowSize),
       Setting(MAX_FRAME_SIZE, p.frameSize), Setting(MAX_HEADER_LIST_SIZE, p.headerSize)]
    + (if p.connect then [Setting(ENABLE_CONNECT_PROTOCOL, 1)] else [])
  }

  class Settings {
    var p: Params
    var ack: bool
    var rawSettings: Bytes

    constructor ()
      ensures p == DEFAULTS && !ack && rawSettings == []
    {
      p, ack, rawSettings := DEFAULTS, false, [];
    }

    method ApplySetting(key: nat, val: Uint32) returns (err: Option<SettingsError>)
      modifies this`p
      ensures err == ValueError(key, val)
      ensures p == if err.Some? then old(p) else Apply(old(p), key, val)
    {
      err := ValueError(key, val);
      if err.None? {
        p := Apply(p, key, val);
      }
    }

    /** Read: the loop over six-byte settings. */
    method Read(payload: Bytes) returns (err: Option<SettingsError>)
      modifies this`p
      ensures ReadResult(p, err) == ApplyAll(old(p), SettingsOf(payload))
    {
      var i := 0;
      while i + 6 <= |payload|
        invariant i <= |payload|
        invariant ApplyAll(p, SettingsOf(payload[i..])) == ApplyAll(old(p), SettingsOf(payload))
      {
        ghost var rest := payload[i..];
        var key := Shift(payload[i], payload[i + 1]);
        var val := Num32(payload[i + 2..]);
        assert key == Num16(rest) && rest[2..] == payload[i + 2..] && rest[6..] == payload[i + 6..];
        assert SettingsOf(rest)[0] == Setting(key, val) && SettingsOf(rest)[1..] == SettingsOf(rest[6..]);
        err := ApplySetting(key, val);
        if err.Some? {
          return;
        }
        i := i + 6;
      }
      err := None;
    }

    method AppendSetting(key: nat, val: Uint32)
      modifies this`rawSettings
      ensures rawSettings == old(rawSettings) + WriteSetting(Setting(key, val))
    {
      rawSettings := rawSettings + (Bytes16(key) + Bytes32(val));
    }

    method Encode()
      modifies this`rawSettings
      ensures rawSettings == WriteSettings(Listed(p))
    {
      rawSettings := [];
      ghost var done: seq<Setting> := [];
      AppendSetting(HEADER_TABLE_SIZE, p.tableSize);
      Snoc(done, Setting(HEADER_TABLE_SIZE, p.tableSize));
      done := done + [Setting(HEADER_TABLE_SIZE, p.tableSize)];
      if p.push {
        AppendSetting(ENABLE_PUSH, 1);
        Snoc(done, Setting(ENABLE_PUSH, 1));
        done := done + [Setting(ENABLE_PUSH, 1)];
      }
      AppendSetting(MAX_CONCURRENT_STREAMS, p.maxStreams);
      Snoc(done, Setting(MAX_CONCURRENT_STREAMS, p.maxStreams));
      done := done + [Setting(MAX_CONCURRENT_STREAMS, p.maxStreams)];
      AppendSetting(INITIAL_WINDOW_SIZE, p.windowSize);
      Snoc(done, Setting(INITIAL_WINDOW_SIZE, p.windowSize));
      done := done + [Setting(INITIAL_WINDOW_SIZE, p.windowSize)];
      AppendSetting(MAX_FRAME_SIZE, p.frameSize);
      Snoc(done, Setting(MAX_FRAME_SIZE, p.frameSize));
      done := done + [Setting(MAX_FRAME_SIZE, p.frameSize)];
      AppendSetting(MAX_HEADER_LIST_SIZE, p.headerSize);
      Snoc(done, Setting(MAX_HEADER_LIST_SIZE, p.headerSize));
      done := done + [Setting(MAX_HEADER_LIST_SIZE, p.headerSize)];
      if p.connect {
        AppendSetting(ENABLE_CONNECT_PROTOCOL, 1);
        Snoc(done, Setting(ENABLE_CONNECT_PROTOCOL, 1));
        done := done + [Setting(ENABLE_CONNECT_PROTOCOL, 1)];
      }
      assert done == Listed(p);
    }
  }

  lemma {:induction false} Snoc(ss: seq<Setting>, s: Setting)
    ensures WriteSettings(ss + [s]) == WriteSettings(ss) + WriteSetting(s)
  {
    if ss == [] {
      assert ss + [s] == [s] && [s][1..] == [];
    } else {
      assert (ss + [s])[1..] == ss[1..] + [s];
      Snoc(ss[1..], s);
    }
  }

  // ---- Round trip ----

  lemma TwoNumbers(a: Bytes, b: Bytes, rest: Bytes)
    requires |a| == 2 && |b| == 4
    ensures var c := a + b + rest; Num16(c) == Num16(a) && Num32(c[2..]) == Num32(b) && c[6..] == rest
  {
    var c := a + b + rest;
    assert c[2..] == b + rest;
    NumPrefix(b, rest);
  }

  lemma SettingBytes(s: Setting, rest: Bytes)
    requires s.key < U16
    ensures var b := WriteSetting(s) + rest; Num16(b) == s.key && Num32(b[2..]) == s.val && b[6..] == rest
  {
    TwoNumbers(Bytes16(s.key), Bytes32(s.val), rest);
    RoundTrip16(s.key);
    RoundTrip32(s.val);
  }

  lemma {:induction false} WrittenSettings(ss: seq<Setting>)
    requires forall i | 0 <= i < |ss| :: ss[i].key < U16
    ensures SettingsOf(WriteSettings(ss)) == ss
    decreases |ss|
  {
    if ss != [] {
      SettingBytes(ss[0], WriteSettings(ss[1..]));
      WrittenSettings(ss[1..]);
    }
  }

  /** Parameters within the limits of section 6.5.2 of RFC 9113. */
  predicate Allowed(p: Params) {
    p.windowSize < U31 && 16384 <= p.frameSize < U24
  }

  lemma AppliedListed(p: Params)
    ensures ApplyAll(DEFAULTS, Listed(p)) == ReadResult(p, None) <==> Allowed(p)
  {
    var ss := Listed(p);
    var p1 := DEFAULTS.(tableSize := p.tableSize);
    assert ApplyAll(DEFAULTS, ss) == ApplyAll(p1, ss[1..]);
    var t := if p.push then ss[2..] else ss[1..];
    var p2 := p1.(push := p.push);
    assert ApplyAll(p1, ss[1..]) == ApplyAll(p2, t);
    var p3 := p2.(maxStreams := p.maxStreams);
    assert ApplyAll(p2, t) == ApplyAll(p3, t[1..]);
    if !Allowed(p) {
      if p.windowSize < U31 {
        assert t[1..][1..] == t[2..];
        assert ApplyAll(p3, t[1..]) == ApplyAll(p3.(windowSize := p.windowSize), t[2..]);
      }
    } else {
      var p4 := p3.(windowSize := p.windowSize, frameSize := p.frameSize);
      assert t[1..][1..] == t[2..] && t[2..][1..] == t[3..] && t[3..][1..] == t[4..];
      assert ApplyAll(p3, t[1..]) == ApplyAll(p4, t[3..]);
      var p5 := p4.(headerSize := p.headerSize);
      assert ApplyAll(p4, t[3..]) == ApplyAll(p5, t[4..]);
      assert t[4..] == if p.connect then [Setting(ENABLE_CONNECT_PROTOCOL, 1)] else [];
      assert ApplyAll(p5.(connect := p.connect), []) == ReadResult(p, None);
    }
  }

  /** Encoding parameters and reading them into reset ones restores them all, exactly when they are allowed. */
  lemma SettingsRoundTrip(p: Params)
    ensures ApplyAll(DEFAULTS, SettingsOf(WriteSettings(Listed(p)))) == ReadResult(p, None) <==> Allowed(p)
  {
    WrittenSettings(Listed(p));
    AppliedListed(p);
  }

  // ---- The last value wins ----

  function Get(p: Params, key: nat): nat {
    if key == HEADER_TABLE_SIZE then p.tableSize
    else if key == ENABLE_PUSH then (if p.push then 1 else 0)
    else if key == MAX_CONCURRENT_STREAMS then p.maxStreams
    else if key == INITIAL_WINDOW_SIZE then p.windowSize
    else if key == MAX_FRAME_SIZE then p.frameSize
    else if key == MAX_HEADER_LIST_SIZE then p.headerSize
    else if key == ENABLE_CONNECT_PROTOCOL then (if p.connect then 1 else 0)
    else 0
  }

  predicate Known(key: nat) {
    1 <= key <= 6 || key == 8
  }

  /** The value of the last setting with this key. */
  function Last(ss: seq<Setting>, key: nat, otherwise: nat): nat {
    if ss == [] then otherwise
    else if ss[|ss| - 1].key == key then ss[|ss| - 1].val
    else Last(ss[..|ss| - 1], key, otherwise)
  }

  lemma {:induction false} LastCons(s: Setting, ss: seq<Setting>, key: nat, otherwise: nat)
    ensures Last([s] + ss, key, otherwise) == Last(ss, key, if s.key == key then s.val else otherwise)
    decreases |ss|
  {
    if ss == [] {
      assert [s] + ss == [s] && [s][..0] == [];
    } else {
      assert ([s] + ss)[..|ss|] == [s] + ss[..|ss| - 1];
      LastCons(s, ss[..|ss| - 1], key, otherwise);
    }
  }

  /** Reading accepts exactly lists of allowed values, and then every parameter has the last value given for it. */
  lemma {:induction false} LastWins(p: Params, ss: seq<Setting>)
    ensures ApplyAll(p, ss).err.None? <==> forall i | 0 <= i < |ss| :: ValueError(ss[i].key, ss[i].val).None?
    ensures ApplyAll(p, ss).err.None? ==>
              forall key: nat | Known(key) :: Get(ApplyAll(p, ss).params, key) == Last(ss, key, Get(p, key))
    decreases |ss|
  {
    if ss != [] && ValueError(ss[0].key, ss[0].val).None? {
      var p' := Apply(p, ss[0].key, ss[0].val);
      LastWins(p', ss[1..]);
      assert ss == [ss[0]] + ss[1..];
      forall key: nat | Known(key)
        ensures Last(ss, key, Get(p, key)) == Last(ss[1..], key, Get(p', key))
      {
        LastCons(ss[0], ss[1..], key, Get(p, key));
      }
    }
  }
}
