/**
 What a header block means: its lines, taken one by one, give entries to an ordered list
 with six named places, and the first offence against sections 2.2, 3.2, 5.1, 5.2 and 6.3
 of RFC 9112 is remembered.
 */
module HeaderLines {
  import opened Common
  import opened Swar
  import opened HeaderStore

  const CR: Byte := 0x0D

  predicate IsBlank(b: Byte) {
    b == 0x20 || b == 0x09
  }

  function DropBlanks(s: Str): Str {
    if s != [] && IsBlank(s[0]) then DropBlanks(s[1..]) else s
  }

  function DropBlanksEnd(s: Str): Str {
    if s != [] && IsBlank(s[|s| - 1]) then DropBlanksEnd(s[..|s| - 1]) else s
  }

  function Trim(s: Str): Str {
    DropBlanksEnd(DropBlanks(s))
  }

  function StripCR(line: Str): Str {
    if line != [] && line[|line| - 1] == CR then line[..|line| - 1] else line
  }

  /** The store as a list: `slots` for the six names, `rest` for the others. */
  type SixSlots = s: seq<Option<Entry>> | |s| == 6 witness [None, None, None, None, None, None]

  datatype Listed = Listed(slots: SixSlots, rest: seq<Entry>, err: Option<HeaderError>)

  const EmptyList := Listed([None, None, None, None, None, None], [], None)

  /** Only the first error is kept. */
  function Offend(l: Listed, e: HeaderError): Listed {
    if l.err.None? then l.(err := Some(e)) else l
  }

  /** A second Host is an error, a second Content-Length must agree, other names overwrite their place. */
  function PlaceEntry(l: Listed, e: Entry): Listed
  {
    match SlotOf(e.key)
    case None => l.(rest := l.rest + [e])
    case Some(i) =>
      if i == IDX_HOST && l.slots[i].Some? then Offend(l, MultipleHostHeaders)
      else if i == IDX_CONTENT_LENGTH && l.slots[i].Some? then
        if l.slots[i].value.value != e.value then Offend(l, DuplicateContentLength) else l
      else l.(slots := l.slots[i := Some(e)])
  }

  /** The first NUL or CR of a line. */
  function FirstBadByte(s: Str): Option<HeaderError> {
    if s == [] then None
    else if s[0] == 0 then Some(MalformedHeader)
    else if s[0] == CR then Some(BareCR)
    else FirstBadByte(s[1..])
  }

  function OffendIf(l: Listed, c: bool, e: HeaderError): Listed {
    if c then Offend(l, e) else l
  }

  /** Errors of a colon that ends an empty name or follows a blank. */
  function AtColonOf(l: Listed, name: Str): (r: Listed)
  {
    OffendIf(OffendIf(l, name == [], MalformedHeader), name != [] && IsBlank(name[|name| - 1]), WhitespaceBeforeColon)
  }

  function AddField(l: Listed, key: Str, value: Str): (r: Listed)
  {
    if key == [] then Offend(l, MalformedHeader) else PlaceEntry(l, Entry(key, value))
  }

  /** The field of a line, or the error of a line without a colon. */
  function Field(l: Listed, line: Str): (r: Listed)
  {
    var c := IndexOf(line, COLON);
    if c == |line| then OffendIf(l, StripCR(line) != [], MalformedHeader)
    else AddField(AtColonOf(l, line[..c]), Trim(line[..c]), Trim(StripCR(line[c + 1..])))
  }

  /** A field line, then its forbidden bytes. */
  function Body(l: Listed, line: Str): (r: Listed)
  {
    match FirstBadByte(StripCR(line))
    case None => Field(l, line)
    case Some(e) => Offend(Field(l, line), e)
  }

  /** One line, without its line feed; folded lines are an offence. */
  function Line(l: Listed, line: Str): (r: Listed)
  {
    Body(OffendIf(l, line != [] && IsBlank(line[0]), ObsFold), line)
  }

  /** The lines of a block taken in turn; the last one need not end in a line feed. */
  function FoldLines<T>(f: (T, Str) -> T, t: T, block: Str): T
    decreases |block|
  {
    var j := IndexOf(block, LF);
    if j == |block| then f(t, block) else FoldLines(f, f(t, block[..j]), block[j + 1..])
  }

  /** What a whole block says. */
  function Lines(block: Str): Listed {
    FoldLines(Line, EmptyList, block)
  }
}
