/**
 What a header block says, told by its lines alone: which entries a parsed store holds, in which order, what
 looking up a name finds, and which offence is reported. Neither the slots of the store nor the parser is
 used to say it.
 */
module HeaderMeaning {
  import opened Common
  import opened Swar
  import opened HeaderStore
  import opened HeaderLines
  import opened HeaderParse
  import opened HeaderRefine
  import opened HeaderLookup

  // ---- Names ----

  /** The names that have a place of their own, in lower case. */
  const HOST_NAME: Str := [0x68, 0x6F, 0x73, 0x74] // host
  const CONNECTION_NAME: Str := [0x63, 0x6F, 0x6E, 0x6E, 0x65, 0x63, 0x74, 0x69, 0x6F, 0x6E] // connection
  const CONTENT_LENGTH_NAME: Str := // content-length
    [0x63, 0x6F, 0x6E, 0x74, 0x65, 0x6E, 0x74, 0x2D, 0x6C, 0x65, 0x6E, 0x67, 0x74, 0x68]
  const CONTENT_TYPE_NAME: Str := // content-type
    [0x63, 0x6F, 0x6E, 0x74, 0x65, 0x6E, 0x74, 0x2D, 0x74, 0x79, 0x70, 0x65]
  const USER_AGENT_NAME: Str := [0x75, 0x73, 0x65, 0x72, 0x2D, 0x61, 0x67, 0x65, 0x6E, 0x74] // user-agent
  const ACCEPT_NAME: Str := [0x61, 0x63, 0x63, 0x65, 0x70, 0x74] // accept

  /** `b` is `c`, or the capital of the letter `c`. */
  predicate SameLetter(b: Byte, c: Byte) {
    b == c || (0x61 <= c <= 0x7A && b == c - 0x20)
  }

  predicate Spells(key: Str, name: Str) {
    |key| == |name| && forall i | 0 <= i < |key| :: SameLetter(key[i], name[i])
  }

  predicate NoCapitals(s: Str) {
    forall i | 0 <= i < |s| :: !(0x41 <= s[i] <= 0x5A)
  }

  lemma LowerMeans(b: Byte, c: Byte)
    requires !(0x41 <= c <= 0x5A)
    ensures Lower(b) == c <==> SameLetter(b, c)
  {
  }

  lemma SpellsMeans(key: Str, target: Str, name: Str)
    requires Fold(target) == name && NoCapitals(name)
    ensures EqualFold(key, target) <==> Spells(key, name)
  {
    if |key| == |name| {
      forall i | 0 <= i < |key|
        ensures Fold(key)[i] == name[i] <==> SameLetter(key[i], name[i])
      {
        LowerMeans(key[i], name[i]);
      }
      assert Spells(key, name) ==> Fold(key) == name;
    }
  }

  lemma HostFold()
    ensures Fold(HOST) == HOST_NAME && NoCapitals(HOST_NAME)
  {
  }

  lemma ConnectionFold()
    ensures Fold(CONNECTION) == CONNECTION_NAME && NoCapitals(CONNECTION_NAME)
  {
  }

  lemma ContentLengthFold()
    ensures Fold(CONTENT_LENGTH) == CONTENT_LENGTH_NAME && NoCapitals(CONTENT_LENGTH_NAME)
  {
  }

  lemma ContentTypeFold()
    ensures Fold(CONTENT_TYPE) == CONTENT_TYPE_NAME && NoCapitals(CONTENT_TYPE_NAME)
  {
  }

  lemma UserAgentFold()
    ensures Fold(USER_AGENT) == USER_AGENT_NAME && NoCapitals(USER_AGENT_NAME)
  {
  }

  lemma AcceptFold()
    ensures Fold(ACCEPT) == ACCEPT_NAME && NoCapitals(ACCEPT_NAME)
  {
  }

  lemma HostMeans(key: Str)
    ensures EqualFold(key, HOST) <==> Spells(key, HOST_NAME)
  {
    HostFold();
    SpellsMeans(key, HOST, HOST_NAME);
  }

  lemma ConnectionMeans(key: Str)
    ensures EqualFold(key, CONNECTION) <==> Spells(key, CONNECTION_NAME)
  {
    ConnectionFold();
    SpellsMeans(key, CONNECTION, CONNECTION_NAME);
  }

  lemma ContentLengthMeans(key: Str)
    ensures EqualFold(key, CONTENT_LENGTH) <==> Spells(key, CONTENT_LENGTH_NAME)
  {
    ContentLengthFold();
    SpellsMeans(key, CONTENT_LENGTH, CONTENT_LENGTH_NAME);
  }

  lemma ContentTypeMeans(key: Str)
    ensures EqualFold(key, CONTENT_TYPE) <==> Spells(key, CONTENT_TYPE_NAME)
  {
    ContentTypeFold();
    SpellsMeans(key, CONTENT_TYPE, CONTENT_TYPE_NAME);
  }

  lemma UserAgentMeans(key: Str)
    ensures EqualFold(key, USER_AGENT) <==> Spells(key, USER_AGENT_NAME)
  {
    UserAgentFold();
    SpellsMeans(key, USER_AGENT, USER_AGENT_NAME);
  }

  lemma AcceptMeans(key: Str)
    ensures EqualFold(key, ACCEPT) <==> Spells(key, ACCEPT_NAME)
  {
    AcceptFold();
    SpellsMeans(key, ACCEPT, ACCEPT_NAME);
  }

  /** The six places, in the order of All(), and their names. */
  lemma SlotMeans(key: Str)
    ensures SlotOf(key) == Some(0) <==> Spells(key, HOST_NAME)
    ensures SlotOf(key) == Some(1) <==> Spells(key, CONNECTION_NAME)
    ensures SlotOf(key) == Some(2) <==> Spells(key, CONTENT_LENGTH_NAME)
    ensures SlotOf(key) == Some(3) <==> Spells(key, CONTENT_TYPE_NAME)
    ensures SlotOf(key) == Some(4) <==> Spells(key, USER_AGENT_NAME)
    ensures SlotOf(key) == Some(5) <==> Spells(key, ACCEPT_NAME)
  {
    HostMeans(key);
    ConnectionMeans(key);
    ContentLengthMeans(key);
    ContentTypeMeans(key);
    UserAgentMeans(key);
    AcceptMeans(key);
    ConnectionFold();
    UserAgentFold();
    assert CONNECTION_NAME[0] != USER_AGENT_NAME[0];
  }

  // ---- Lines and fields ----

  function Split(block: Str): (lines: seq<Str>)
    ensures lines != []
    decreases |block|
  {
    var j := IndexOf(block, LF);
    if j == |block| then [block] else [block[..j]] + Split(block[j + 1..])
  }

  function Join(lines: seq<Str>): Str
    requires lines != []
  {
    if |lines| == 1 then lines[0] else lines[0] + [LF] + Join(lines[1..])
  }

  /** The lines are what the line feeds separate. */
  lemma {:induction false} SplitMeans(block: Str)
    ensures Join(Split(block)) == block && forall i | 0 <= i < |Split(block)| :: LF !in Split(block)[i]
    decreases |block|
  {
    var j := IndexOf(block, LF);
    IndexMeans(block, LF);
    if j < |block| {
      var later := Split(block[j + 1..]);
      SplitMeans(block[j + 1..]);
      assert ([block[..j]] + later)[1..] == later;
      assert block == block[..j] + [LF] + block[j + 1..];
    }
  }

  /** The field of a line, if it has one: a colon, and a name before it that is not blank. */
  function FieldOf(line: Str): (r: seq<Entry>)
    ensures |r| <= 1
  {
    var c := IndexOf(line, COLON);
    if c == |line| || Trim(line[..c]) == [] then []
    else [Entry(Trim(line[..c]), Trim(StripCR(line[c + 1..])))]
  }

  function FieldsOf(lines: seq<Str>): seq<Entry> {
    if lines == [] then [] else FieldsOf(lines[..|lines| - 1]) + FieldOf(lines[|lines| - 1])
  }

  /** The first, and the last, field of a name. */
  function FirstOf(fs: seq<Entry>, name: Str): Option<Entry> {
    if fs == [] then None
    else if Spells(fs[0].key, name) then Some(fs[0])
    else FirstOf(fs[1..], name)
  }

  function LastOf(fs: seq<Entry>, name: Str): Option<Entry> {
    if fs == [] then None
    else if Spells(fs[|fs| - 1].key, name) then Some(fs[|fs| - 1])
    else LastOf(fs[..|fs| - 1], name)
  }

  predicate HasPlace(key: Str) {
    || Spells(key, HOST_NAME) || Spells(key, CONNECTION_NAME) || Spells(key, CONTENT_LENGTH_NAME)
    || Spells(key, CONTENT_TYPE_NAME) || Spells(key, USER_AGENT_NAME) || Spells(key, ACCEPT_NAME)
  }

  function Others(fs: seq<Entry>): seq<Entry> {
    if fs == [] then []
    else Others(fs[..|fs| - 1]) + if HasPlace(fs[|fs| - 1].key) then [] else [fs[|fs| - 1]]
  }

  /**
   What a store of these fields yields: the first Host, the last Connection, the first Content-Length, the last
   Content-Type, User-Agent and Accept, and then all other fields in order.
   */
  function Ordered(fs: seq<Entry>): seq<Entry> {
    Somes([FirstOf(fs, HOST_NAME), LastOf(fs, CONNECTION_NAME), FirstOf(fs, CONTENT_LENGTH_NAME),
           LastOf(fs, CONTENT_TYPE_NAME), LastOf(fs, USER_AGENT_NAME), LastOf(fs, ACCEPT_NAME)])
    + Others(fs)
  }

  /** What iteration yields after a parse of the block. */
  function Yields(block: Str): seq<Entry> {
    Ordered(FieldsOf(Split(block)))
  }

  // ---- Offences ----

  /** Space and tab. */
  predicate Blank(b: Byte) {
    b == 0x20 || b == 0x09
  }

  predicate AllBlank(s: Str) {
    forall i | 0 <= i < |s| :: Blank(s[i])
  }

  function When(c: bool, e: HeaderError): seq<HeaderError> {
    if c then [e] else []
  }

  /** Offences of a line as a field, before its bytes are looked at. */
  function FieldSyntax(line: Str): seq<HeaderError> {
    var c := IndexOf(line, COLON);
    var name := line[..c];
    if c == |line| then When(StripCR(line) != [], MalformedHeader)
    else
      NameOffences(name) + When(Trim(name) == [], MalformedHeader)
  }

  /** What is wrong with the text in front of the colon. */
  function NameOffences(name: Str): seq<HeaderError> {
    When(name == [], MalformedHeader) + When(name != [] && Blank(name[|name| - 1]), WhitespaceBeforeColon)
  }

  /** A line that continues the one before it. */
  function Folding(line: Str): seq<HeaderError> {
    When(line != [] && Blank(line[0]), ObsFold)
  }

  /** A second Host, and a Content-Length that is not the first one's. */
  function Repetition(fs: seq<Entry>, e: Entry): seq<HeaderError> {
    var length := FirstOf(fs, CONTENT_LENGTH_NAME);
    When(Spells(e.key, HOST_NAME) && FirstOf(fs, HOST_NAME).Some?, MultipleHostHeaders)
    + When(Spells(e.key, CONTENT_LENGTH_NAME) && length.Some? && length.value.value != e.value, DuplicateContentLength)
  }

  function Repetitions(fs: seq<Entry>, line: Str): seq<HeaderError> {
    if FieldOf(line) == [] then [] else Repetition(fs, FieldOf(line)[0])
  }

  /** Every NUL and every CR of a line. */
  function BadBytes(s: Str): seq<HeaderError> {
    if s == [] then []
    else When(s[0] == 0, MalformedHeader) + When(s[0] == 0x0D, BareCR) + BadBytes(s[1..])
  }

  function Offences(lines: seq<Str>): seq<HeaderError> {
    if lines == [] then []
    else
      var before, line := lines[..|lines| - 1], lines[|lines| - 1];
      Offences(before) + Folding(line) + FieldSyntax(line) + Repetitions(FieldsOf(before), line)
      + BadBytes(StripCR(line))
  }

  function First(es: seq<HeaderError>): Option<HeaderError> {
    if es == [] then None else Some(es[0])
  }

  /** The error that a parse of the block reports. */
  function Reports(block: Str): Option<HeaderError> {
    First(Offences(Split(block)))
  }

  /** A text without the blanks around it. */
  ghost predicate Trimmed(s: Str, t: Str) {
    && (t != [] ==> !Blank(t[0]) && !Blank(t[|t| - 1]))
    && exists pre: Str, post: Str :: s == pre + t + post && AllBlank(pre) && AllBlank(post)
  }

  lemma {:induction false} DropMeans(s: Str) returns (pre: Str)
    ensures s == pre + DropBlanks(s) && AllBlank(pre) && (DropBlanks(s) != [] ==> !Blank(DropBlanks(s)[0]))
  {
    if s != [] && Blank(s[0]) {
      var more := DropMeans(s[1..]);
      pre := [s[0]] + more;
    } else {
      pre := [];
    }
  }

  lemma {:induction false} DropEndMeans(s: Str) returns (post: Str)
    ensures s == DropBlanksEnd(s) + post && AllBlank(post)
    ensures DropBlanksEnd(s) != [] ==> !Blank(DropBlanksEnd(s)[|DropBlanksEnd(s)| - 1])
  {
    if s != [] && Blank(s[|s| - 1]) {
      var more := DropEndMeans(s[..|s| - 1]);
      post := more + [s[|s| - 1]];
    } else {
      post := [];
    }
  }

  lemma TrimMeans(s: Str)
    ensures Trimmed(s, Trim(s))
  {
    var t := DropBlanks(s);
    var pre := DropMeans(s);
    var post := DropEndMeans(t);
    assert s == pre + Trim(s) + post;
    assert Trim(s) != [] ==> Trim(s)[0] == t[0];
  }

  // ---- The list of a block's lines ----

  ghost predicate Places(l: Listed, fs: seq<Entry>) {
    && l.slots[0] == FirstOf(fs, HOST_NAME) && l.slots[1] == LastOf(fs, CONNECTION_NAME)
    && l.slots[2] == FirstOf(fs, CONTENT_LENGTH_NAME) && l.slots[3] == LastOf(fs, CONTENT_TYPE_NAME)
    && l.slots[4] == LastOf(fs, USER_AGENT_NAME) && l.slots[5] == LastOf(fs, ACCEPT_NAME)
    && l.rest == Others(fs)
  }

  lemma OffendMeans(l: Listed, es: seq<HeaderError>, c: bool, e: HeaderError)
    requires l.err == First(es)
    ensures OffendIf(l, c, e).err == First(es + When(c, e))
    ensures OffendIf(l, c, e) == l.(err := OffendIf(l, c, e).err)
  {
  }

  lemma {:induction false} FirstSnoc(fs: seq<Entry>, e: Entry, name: Str)
    ensures FirstOf(fs + [e], name)
            == if FirstOf(fs, name).Some? then FirstOf(fs, name) else if Spells(e.key, name) then Some(e) else None
  {
    if fs == [] {
      assert fs + [e] == [e];
    } else {
      assert (fs + [e])[1..] == fs[1..] + [e];
      FirstSnoc(fs[1..], e, name);
    }
  }

  lemma LastSnoc(fs: seq<Entry>, e: Entry, name: Str)
    ensures LastOf(fs + [e], name) == if Spells(e.key, name) then Some(e) else LastOf(fs, name)
    ensures Others(fs + [e]) == Others(fs) + if HasPlace(e.key) then [] else [e]
  {
    assert (fs + [e])[..|fs + [e]| - 1] == fs;
  }

  lemma PlaceMeans(l: Listed, fs: seq<Entry>, es: seq<HeaderError>, e: Entry)
    requires Places(l, fs) && l.err == First(es)
    ensures Places(PlaceEntry(l, e), fs + [e]) && PlaceEntry(l, e).err == First(es + Repetition(fs, e))
  {
    SlotMeans(e.key);
    FirstSnoc(fs, e, HOST_NAME);
    FirstSnoc(fs, e, CONTENT_LENGTH_NAME);
    LastSnoc(fs, e, CONNECTION_NAME);
    LastSnoc(fs, e, CONTENT_TYPE_NAME);
    LastSnoc(fs, e, USER_AGENT_NAME);
    LastSnoc(fs, e, ACCEPT_NAME);
  }

  lemma {:induction false} BadByteMeans(s: Str)
    ensures FirstBadByte(s) == First(BadBytes(s))
  {
    if s != [] {
      BadByteMeans(s[1..]);
    }
  }

  lemma ColonMeans(l: Listed, es: seq<HeaderError>, name: Str)
    requires l.err == First(es)
    ensures AtColonOf(l, name) == l.(err := AtColonOf(l, name).err)
    ensures AtColonOf(l, name).err == First(es + NameOffences(name))
  {
    OffendMeans(l, es, name == [], MalformedHeader);
  }

  /** A line with a colon, in parts: `early` are the offences of its name. */
  lemma ColonLine(l: Listed, fs: seq<Entry>, es: seq<HeaderError>, early: seq<HeaderError>, e: Entry)
    requires Places(l, fs) && l.err == First(es + early)
    ensures var r := AddField(l, e.key, e.value);
            if e.key == [] then Places(r, fs) && r.err == First(es + (early + [MalformedHeader]))
            else Places(r, fs + [e]) && r.err == First(es + early + Repetition(fs, e))
  {
    if e.key == [] {
      OffendMeans(l, es + early, true, MalformedHeader);
      assert es + early + [MalformedHeader] == es + (early + [MalformedHeader]);
    } else {
      PlaceMeans(l, fs, es + early, e);
    }
  }

  lemma Parts(l: Listed, fs: seq<Entry>, line: Str, c: nat) returns (e: Entry)
    requires c == IndexOf(line, COLON) && c < |line|
    ensures Field(l, line) == AddField(AtColonOf(l, line[..c]), e.key, e.value)
    ensures FieldSyntax(line) == NameOffences(line[..c]) + if e.key == [] then [MalformedHeader] else []
    ensures FieldOf(line) == if e.key == [] then [] else [e]
    ensures Repetitions(fs, line) == if e.key == [] then [] else Repetition(fs, e)
  {
    e := Entry(Trim(line[..c]), Trim(StripCR(line[c + 1..])));
  }

  lemma FieldMeans(l: Listed, fs: seq<Entry>, es: seq<HeaderError>, line: Str)
    requires Places(l, fs) && l.err == First(es)
    ensures Places(Field(l, line), fs + FieldOf(line))
    ensures Field(l, line).err == First(es + FieldSyntax(line) + Repetitions(fs, line))
  {
    var c := IndexOf(line, COLON);
    if c == |line| {
      OffendMeans(l, es, StripCR(line) != [], MalformedHeader);
      assert fs + [] == fs;
      assert es + FieldSyntax(line) + [] == es + FieldSyntax(line);
    } else {
      ColonMeans(l, es, line[..c]);
      var e := Parts(l, fs, line, c);
      Joined(AtColonOf(l, line[..c]), fs, es, NameOffences(line[..c]), e, FieldSyntax(line), FieldOf(line),
             Repetitions(fs, line));
    }
  }

  lemma Joined(l: Listed, fs: seq<Entry>, es: seq<HeaderError>, early: seq<HeaderError>, e: Entry,
               syntax: seq<HeaderError>, more: seq<Entry>, again: seq<HeaderError>)
    requires Places(l, fs) && l.err == First(es + early)
    requires syntax == early + if e.key == [] then [MalformedHeader] else []
    requires more == if e.key == [] then [] else [e]
    requires again == if e.key == [] then [] else Repetition(fs, e)
    ensures var r := AddField(l, e.key, e.value);
            Places(r, fs + more) && r.err == First(es + syntax + again)
  {
    ColonLine(l, fs, es, early, e);
    assert fs + [] == fs && early + [] == early && es + syntax + [] == es + syntax;
  }

  lemma OffendFirst(l: Listed, es: seq<HeaderError>, bad: seq<HeaderError>)
    requires l.err == First(es)
    ensures First(bad).Some? ==> Offend(l, First(bad).value).err == First(es + bad)
    ensures First(bad).None? ==> l.err == First(es + bad)
  {
    assert bad == [] ==> es + bad == es;
  }

  lemma BodyMeans(l: Listed, fs: seq<Entry>, es: seq<HeaderError>, line: Str)
    requires Places(l, fs) && l.err == First(es)
    ensures Places(Body(l, line), fs + FieldOf(line))
    ensures Body(l, line).err == First(es + FieldSyntax(line) + Repetitions(fs, line) + BadBytes(StripCR(line)))
  {
    FieldMeans(l, fs, es, line);
    BadByteMeans(StripCR(line));
    OffendFirst(Field(l, line), es + FieldSyntax(line) + Repetitions(fs, line), BadBytes(StripCR(line)));
  }

  lemma LineMeans(l: Listed, fs: seq<Entry>, es: seq<HeaderError>, line: Str)
    requires Places(l, fs) && l.err == First(es)
    ensures Places(Line(l, line), fs + FieldOf(line))
    ensures Line(l, line).err
            == First(es + Folding(line) + FieldSyntax(line) + Repetitions(fs, line) + BadBytes(StripCR(line)))
  {
    OffendMeans(l, es, line != [] && Blank(line[0]), ObsFold);
    BodyMeans(OffendIf(l, line != [] && Blank(line[0]), ObsFold), fs, es + Folding(line), line);
  }

  lemma LinesSnoc(lines: seq<Str>, line: Str)
    ensures FieldsOf(lines + [line]) == FieldsOf(lines) + FieldOf(line)
    ensures Offences(lines + [line])
            == Offences(lines) + Folding(line) + FieldSyntax(line) + Repetitions(FieldsOf(lines), line)
               + BadBytes(StripCR(line))
  {
    assert (lines + [line])[..|lines + [line]| - 1] == lines;
  }

  ghost predicate Says(l: Listed, lines: seq<Str>) {
    Places(l, FieldsOf(lines)) && l.err == First(Offences(lines))
  }

  lemma OneMoreLine(l: Listed, lines: seq<Str>, line: Str)
    requires Says(l, lines)
    ensures Says(Line(l, line), lines + [line])
  {
    LineMeans(l, FieldsOf(lines), Offences(lines), line);
    LinesSnoc(lines, line);
  }

  /** What every line carries on holds after all lines of a block. */
  lemma {:induction false} FoldCarries<T>(f: (T, Str) -> T, t: T, P: (T, seq<Str>) -> bool, before: seq<Str>,
                                          block: Str)
    requires P(t, before)
    requires forall m: T, ls: seq<Str>, line: Str | P(m, ls) :: P(f(m, line), ls + [line])
    ensures P(FoldLines(f, t, block), before + Split(block))
    decreases |block|
  {
    var j := IndexOf(block, LF);
    var line := if j == |block| then block else block[..j];
    if j < |block| {
      FoldCarries(f, f(t, line), P, before + [line], block[j + 1..]);
      assert before + Split(block) == (before + [line]) + Split(block[j + 1..]);
    }
  }

  ghost function Saying(): (Listed, seq<Str>) -> bool {
    (l: Listed, lines: seq<Str>) => Says(l, lines)
  }

  lemma LinesCarry()
    ensures forall m: Listed, ls: seq<Str>, line: Str | Saying()(m, ls) :: Saying()(Line(m, line), ls + [line])
  {
    forall m: Listed, ls: seq<Str>, line: Str | Saying()(m, ls)
      ensures Saying()(Line(m, line), ls + [line])
    {
      OneMoreLine(m, ls, line);
    }
  }

  lemma BlockSays(block: Str)
    ensures Says(Lines(block), Split(block))
  {
    assert Saying()(EmptyList, []);
    LinesCarry();
    FoldCarries(Line, EmptyList, Saying(), [], block);
    assert [] + Split(block) == Split(block);
  }

  lemma {:induction false} PresentMeans(os: seq<Option<Entry>>)
    ensures Present(os) == Somes(os)
  {
    if os != [] {
      var n := |os| - 1;
      PresentMeans(os[..n]);
      SomesSnoc(os[..n], os[n]);
      assert os == os[..n] + [os[n]];
    }
  }

  lemma FlatMeans(l: Listed, fs: seq<Entry>)
    requires Places(l, fs)
    ensures Flat(l) == Ordered(fs)
  {
    var s := l.slots;
    PresentMeans(s);
    assert s == [s[0], s[1], s[2], s[3], s[4], s[5]];
  }

  lemma Parsed(block: Str, h: Store) returns (l: Listed)
    requires |block| < FIELD && h == Parse(block)
    ensures StoreOk(block, h.packed, h.count) && View(block, h) == Flat(l) && h.err == l.err && l == Lines(block)
    ensures l == ListOf(block, h)
  {
    ParseMeansLines(block);
    ViewIsFlat(block, h);
    l := Lines(block);
  }

  lemma ListSays(block: Str, l: Listed) returns (lines: seq<Str>)
    requires l == Lines(block)
    ensures Says(l, lines) && lines == Split(block)
  {
    BlockSays(block);
    lines := Split(block);
  }

  lemma SaidBy(block: Str, h: Store, l: Listed, lines: seq<Str>)
    requires StoreOk(block, h.packed, h.count) && View(block, h) == Flat(l) && h.err == l.err && Says(l, lines)
    ensures View(block, h) == Ordered(FieldsOf(lines)) && h.err == First(Offences(lines))
  {
    FlatMeans(l, FieldsOf(lines));
  }

  /**
   What every block of at most 65535 bytes says: the parsed store yields its fields in this order, and its error
   is the first offence of the lines.
   */
  lemma BlockMeans(block: Str, h: Store) returns (lines: seq<Str>)
    requires |block| < FIELD && h == Parse(block)
    ensures lines == Split(block) && StoreOk(block, h.packed, h.count)
    ensures View(block, h) == Ordered(FieldsOf(lines)) && h.err == First(Offences(lines))
  {
    var l := Parsed(block, h);
    lines := ListSays(block, l);
    SaidBy(block, h, l, lines);
  }

  // ---- Lookup ----

  lemma PlaceByFold(a: Str, b: Str)
    requires EqualFold(a, b)
    ensures HasPlace(a) == HasPlace(b)
  {
    SlotMeans(a);
    SlotMeans(b);
    SlotByFold(a, b);
  }

  /** Among the fields without a place of their own a name is found as among all fields, if it has no place. */
  lemma {:induction false} OthersMatch(fs: seq<Entry>, key: Str)
    ensures FirstMatch(Others(fs), key) == if HasPlace(key) then None else FirstMatch(fs, key)
  {
    if fs != [] {
      var before, e := fs[..|fs| - 1], fs[|fs| - 1];
      OthersMatch(before, key);
      FirstMatchConcat(before, [e], key);
      FirstMatchConcat(Others(before), [e], key);
      assert fs == before + [e] && FirstMatch([e], key) == if EqualFold(e.key, key) then Some(e.value) else None;
      if EqualFold(e.key, key) {
        PlaceByFold(e.key, key);
      }
      assert Others(before) + [] == Others(before);
    }
  }

  function ValueIn(o: Option<Entry>): Str {
    if o.Some? then o.value.value else []
  }

  lemma LookupList(block: Str, h: Store, l: Listed, key: Str)
    requires StoreOk(block, h.packed, h.count) && l == ListOf(block, h)
    ensures SlotOf(key).Some? && FirstMatch(l.rest, key) == None ==>
              Lookup(block, h, key) == ValueIn(l.slots[SlotOf(key).value])
    ensures SlotOf(key).None? ==> Lookup(block, h, key) == ValueOr(FirstMatch(l.rest, key))
  {
    if SlotOf(key).Some? {
      assert l.slots[SlotOf(key).value] == Slot(block, h.packed[SlotOf(key).value]);
    }
  }

  /** What Get finds after a parse. */
  ghost predicate Finds(fs: seq<Entry>, key: Str, value: Str) {
    && (Spells(key, HOST_NAME) ==> value == ValueIn(FirstOf(fs, HOST_NAME)))
    && (Spells(key, CONNECTION_NAME) ==> value == ValueIn(LastOf(fs, CONNECTION_NAME)))
    && (Spells(key, CONTENT_LENGTH_NAME) ==> value == ValueIn(FirstOf(fs, CONTENT_LENGTH_NAME)))
    && (Spells(key, CONTENT_TYPE_NAME) ==> value == ValueIn(LastOf(fs, CONTENT_TYPE_NAME)))
    && (Spells(key, USER_AGENT_NAME) ==> value == ValueIn(LastOf(fs, USER_AGENT_NAME)))
    && (Spells(key, ACCEPT_NAME) ==> value == ValueIn(LastOf(fs, ACCEPT_NAME)))
    && (!HasPlace(key) ==> value == ValueOr(FirstMatch(fs, key)))
  }

  lemma FoundIn(block: Str, h: Store, l: Listed, fs: seq<Entry>, key: Str)
    requires StoreOk(block, h.packed, h.count) && l == ListOf(block, h) && Places(l, fs)
    ensures Finds(fs, key, Lookup(block, h, key))
  {
    SlotMeans(key);
    OthersMatch(fs, key);
    LookupList(block, h, l, key);
  }

  /** The value of a name, told by the block's lines: the first or the last of that name, as for iteration. */
  lemma GetMeans(block: Str, h: Store, key: Str) returns (lines: seq<Str>)
    requires |block| < FIELD && h == Parse(block)
    ensures lines == Split(block) && StoreOk(block, h.packed, h.count)
    ensures Finds(FieldsOf(lines), key, Lookup(block, h, key))
  {
    var l := Parsed(block, h);
    lines := ListSays(block, l);
    FoundIn(block, h, l, FieldsOf(lines), key);
  }

  // ---- Two lines of a name ----

  predicate IsFieldFor(line: Str, name: Str) {
    FieldOf(line) != [] && Spells(FieldOf(line)[0].key, name)
  }

  lemma FirstStays(fs: seq<Entry>, more: seq<Entry>, name: Str)
    requires |more| <= 1 && (FirstOf(fs, name).Some? || (more != [] && Spells(more[0].key, name)))
    ensures FirstOf(fs + more, name).Some?
  {
    if more == [] {
      assert fs + more == fs;
    } else {
      assert more == [more[0]];
      FirstSnoc(fs, more[0], name);
    }
  }

  lemma {:induction false} FieldIn(lines: seq<Str>, i: nat, name: Str, fs: seq<Entry>)
    requires i < |lines| && IsFieldFor(lines[i], name) && fs == FieldsOf(lines)
    ensures FirstOf(fs, name).Some?
    decreases |lines|
  {
    var before, line := lines[..|lines| - 1], lines[|lines| - 1];
    var early := FieldsOf(before);
    if i < |before| {
      FieldIn(before, i, name, early);
    }
    FirstStays(early, FieldOf(line), name);
  }

  lemma HostAgain(fs: seq<Entry>, line: Str)
    requires FirstOf(fs, HOST_NAME).Some? && IsFieldFor(line, HOST_NAME)
    ensures Repetitions(fs, line) != []
  {
  }

  lemma OffencesStay(lines: seq<Str>, line: Str)
    requires Offences(lines) != [] || Repetitions(FieldsOf(lines), line) != []
    ensures Offences(lines + [line]) != []
  {
    LinesSnoc(lines, line);
  }

  lemma SecondIsRepeated(before: seq<Str>, line: Str, i: nat)
    requires i < |before| && IsFieldFor(before[i], HOST_NAME) && IsFieldFor(line, HOST_NAME)
    ensures Repetitions(FieldsOf(before), line) != []
  {
    var fs := FieldsOf(before);
    FieldIn(before, i, HOST_NAME, fs);
    HostAgain(fs, line);
  }

  lemma {:induction false} TwoHosts(lines: seq<Str>, i: nat, j: nat)
    requires i < j < |lines| && IsFieldFor(lines[i], HOST_NAME) && IsFieldFor(lines[j], HOST_NAME)
    ensures Offences(lines) != []
    decreases |lines|
  {
    var before, line := lines[..|lines| - 1], lines[|lines| - 1];
    assert lines == before + [line];
    if j < |before| {
      TwoHosts(before, i, j);
    } else {
      SecondIsRepeated(before, line, i);
    }
    OffencesStay(before, line);
  }

  /** A block with two lines for Host has an error. */
  lemma SecondHost(block: Str, h: Store, i: nat, j: nat)
    requires |block| < FIELD && h == Parse(block) && i < j < |Split(block)|
    requires IsFieldFor(Split(block)[i], HOST_NAME) && IsFieldFor(Split(block)[j], HOST_NAME)
    ensures h.err.Some?
  {
    var lines := BlockMeans(block, h);
    TwoHosts(lines, i, j);
  }
}
