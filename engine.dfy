/**
  The listing engine as values: the module statics of asm/listing.c
  gathered into one record, and one function per entry point giving the
  record after the call. The rows the engine writes are kept in `out`, one
  string per physical line of the listing file, without the newline.
*/
module Engine {
  import opened Format

  const LIST_MAX_LEN: nat := 1024
  const LIST_INDENT: nat := 40
  const LIST_HEXBIT: nat := 18

  /** The severity bits of an `errflags` value. */
  const ERR_MASK: bv32 := 7
  /**
    The first severity written out at once. The fill palette has one
    character per severity, in the order listmsg, debug, info, warning,
    nonfatal, fatal, critical, panic; fatal is number 5.
  */
  const ERR_FATAL: nat := 5

  /** Fill characters of a diagnostic row, indexed by severity. */
  const FILLCHARS: string := " --***XX"

  /** The listing event kinds of listing.h. */
  datatype ListType = Read | Macro | MacroNolist | Include | IncBin | Times

  /** The output kinds list_output accepts; any other kind is a panic in the source. */
  datatype OutType = RawData | Reserve | ZeroData | Address | RelAddr | Segment

  /** `struct out_data`, reduced to the fields the listing reads. */
  datatype OutData = OutData(otype: OutType, offset: u64, size: u64, data: seq<byte>, toffset: i64)

  /** One `struct MacroInhibit`. */
  datatype Frame = Frame(level: int, inhibiting: bool)

  /** One entry of `list_errors`: the `errflags` and the formatted message. */
  datatype Diagnostic = Diagnostic(severity: bv32, text: string)

  /**
    The engine's state. `listp` is the session flag, `hasFile` says whether
    `listfp` is non-NULL, `line`/`linep` are `listline`/`listlinep`, `run` is
    the text in `listdata` and `offset` is `listoffset`; `stack` is `mistack`
    with its top first.
  */
  datatype State = State(
    listp: bool,
    hasFile: bool,
    line: string,
    linep: bool,
    run: string,
    offset: i32,
    lineno: int,
    level: int,
    levelE: int,
    suppress: bv2,
    stack: seq<Frame>,
    errors: seq<Diagnostic>,
    out: seq<string>)

  /** The statics as the program starts: all zero, no file, no stack. */
  function ProgramStart(): State
  {
    State(false, false, "", false, "", 0, 0, 0, 0, 0, [], [], [])
  }

  /** The preconditions list_output's assertions and its panic() place on its argument. */
  predicate WellFormed(d: OutData)
  {
    && (d.otype == RawData ==> |d.data| == d.size)
    && (d.otype in {Address, RelAddr} ==> d.size <= 8)
    && (d.otype == Segment ==> d.size <= 10)
  }

  /** Frame levels strictly decrease from the top down. */
  predicate Decreasing(stack: seq<Frame>)
  {
    forall i, j :: 0 <= i < j < |stack| ==> stack[i].level > stack[j].level
  }

  /** The inhibit stack's shape: ordered by level, and no frame deeper than the depth. */
  predicate StackOrdered(stack: seq<Frame>, level: int)
  {
    && Decreasing(stack)
    && (forall i :: 0 <= i < |stack| ==> stack[i].level <= level)
  }

  /** What every entry point preserves. */
  predicate Inv(s: State)
  {
    && |s.run| <= MAX_TOKEN
    && |s.line| <= LIST_MAX_LEN - 1
    && 0 <= s.lineno < 0x8000_0000
    && StackOrdered(s.stack, s.level)
  }

  // ---------------------------------------------------------------------
  // Row rendering (list_emit)

  /** `%6d` */
  function LineNumberField(n: int): string
  {
    PadLeft(Decimal(n), 6, ' ')
  }

  /** `%s<%d>`: the alignment space is decided by `listlevel`, the number is `listlevel_e`. */
  function DepthLabel(level: int, levelE: int): string
  {
    (if level < 10 then " " else "") + "<" + Decimal(levelE) + ">"
  }

  /** `%08X %-*s` of the offset and the run, or as many blanks. */
  function DataField(s: State): string
  {
    if s.run != "" then Hex8(s.offset % TWO32) + " " + PadRight(s.run, LIST_HEXBIT + 1)
    else Repeat(' ', LIST_HEXBIT + 10)
  }

  function DepthField(s: State): string
  {
    if s.levelE != 0 then DepthLabel(s.level, s.levelE)
    else if s.linep then "    " else ""
  }

  function TextField(s: State): string
  {
    if s.linep then " " + s.line else ""
  }

  /** The row for the pending line and byte run. */
  function RowText(s: State): string
  {
    LineNumberField(s.lineno) + " " + DataField(s) + DepthField(s) + TextField(s)
  }

  function SeverityIndex(severity: bv32): (k: nat)
    ensures k < |FILLCHARS|
  {
    (severity & ERR_MASK) as nat
  }

  function FillChar(severity: bv32): char
  {
    FILLCHARS[SeverityIndex(severity)]
  }

  /** The row for one queued diagnostic. */
  function ErrorRow(s: State, d: Diagnostic): string
  {
    LineNumberField(s.lineno) + Repeat(' ', 10)
    + Repeat(FillChar(d.severity), LIST_HEXBIT)
    + ErrorDepthField(s)
    + "  " + d.text
  }

  function ErrorDepthField(s: State): string
  {
    if s.levelE != 0 then " " + DepthLabel(s.level, s.levelE) else Repeat(' ', 5)
  }

  /** The diagnostic rows, in queue order. */
  function ErrorRows(s: State, errs: seq<Diagnostic>): (r: seq<string>)
    ensures |r| == |errs|
  {
    if errs == [] then [] else ErrorRows(s, errs[..|errs| - 1]) + [ErrorRow(s, errs[|errs| - 1])]
  }

  /** The row list_emit writes for the pending line and run, if either is pending. */
  function LineRow(s: State): seq<string>
  {
    if s.linep || s.run != "" then [RowText(s)] else []
  }

  /** The rows one list_emit writes. */
  function EmitRows(s: State): seq<string>
  {
    LineRow(s) + ErrorRows(s, s.errors)
  }

  // ---------------------------------------------------------------------
  // The entry points and their helpers

  /** list_emit */
  function ListEmit(s: State): State
  {
    s.(linep := false, run := "", errors := [], out := s.out + EmitRows(s))
  }

  /** list_out: split the run at LIST_HEXBIT characters, then append the token. */
  function ListOut(s: State, offset: int, tok: string): State
  {
    var s1 := if |s.run| + |tok| > LIST_HEXBIT then ListEmit(s.(run := s.run + "-")) else s;
    var s2 := if s1.run == "" then s1.(offset := Trunc32(offset)) else s1;
    s2.(run := s2.run + tok)
  }

  /** The byte loop of list_output: one `HEX` token per byte, at consecutive offsets. */
  function OutBytes(s: State, offset: int, bytes: seq<byte>): State
    decreases |bytes|
  {
    if bytes == [] then s else OutBytes(ListOut(s, offset, HexByte(bytes[0])), offset + 1, bytes[1..])
  }

  /** The OUT_RAWDATA arm of list_output, which OUT_ZERODATA of at most 16 bytes falls into. */
  function OutRaw(s: State, offset: int, size: nat, bytes: seq<byte>): State
  {
    var s1 := if size == 0 && s.run == "" then s.(offset := Trunc32(offset)) else s;
    OutBytes(s1, offset, bytes)
  }

  /** `n` bytes of `zero_buffer`. */
  function Zeros(n: nat): (z: seq<byte>)
    ensures |z| == n && forall i :: 0 <= i < n ==> z[i] == 0
  {
    seq(n, _ => 0)
  }

  /** list_output */
  function ListOutput(s: State, d: OutData, userNolist: bool): State
    requires WellFormed(d)
  {
    if !s.listp || s.suppress != 0 || userNolist then s
    else
      match d.otype
      case ZeroData =>
        if d.size > 16 then ListOut(s, d.offset, ZeroToken(d.size))
        else OutRaw(s, d.offset, d.size, Zeros(d.size))
      case RawData => OutRaw(s, d.offset, d.size, d.data)
      case Address => ListOut(s, d.offset, AddressToken('[', ']', d.toffset, d.size))
      case Segment => ListOut(s, d.offset, SegmentToken(d.size))
      case RelAddr => ListOut(s, d.offset, AddressToken('(', ')', d.toffset, d.size))
      case Reserve => ListOut(s, d.offset, ReserveToken(d.size))
  }

  /**
    The text strlcpy/memcpy leave in `listline`: at most 1020 characters of
    the line, and `...` after them once the line reaches 1020 characters.
  */
  function Truncated(line: string): (t: string)
    ensures |t| <= LIST_MAX_LEN - 1
    ensures |line| < LIST_MAX_LEN - 4 ==> t == line
    ensures |line| >= LIST_MAX_LEN - 4 ==>
      |t| == LIST_MAX_LEN - 1 && t[..LIST_MAX_LEN - 4] == line[..LIST_MAX_LEN - 4] && t[LIST_MAX_LEN - 4..] == "..."
  {
    if |line| < LIST_MAX_LEN - 4 then line else line[..LIST_MAX_LEN - 4] + "..."
  }

  predicate TopInhibits(s: State)
  {
    s.stack != [] && s.stack[0].inhibiting
  }

  /** list_line */
  function ListLine(s: State, ltype: ListType, lineno: i32, line: string, userNolist: bool): State
  {
    if !s.listp || userNolist then s
    else if TopInhibits(s) && ltype == Macro then s
    else
      var s1 := if TopInhibits(s) then s.(stack := s.stack[1..]) else s;
      var s2 := ListEmit(s1);
      s2.(lineno := if lineno >= 0 then lineno else s2.lineno,
          linep := true,
          line := Truncated(line),
          levelE := s2.level)
  }

  /** mistack_push */
  function Push(s: State, inhibiting: bool): State
  {
    s.(stack := [Frame(s.level, inhibiting)] + s.stack)
  }

  /** list_uplevel */
  function ListUplevel(s: State, ltype: ListType, size: i64): State
  {
    if !s.listp then s
    else
      match ltype
      case IncBin => ListOut(s.(suppress := s.suppress | 1), s.offset, BinToken(size))
      case Times => ListOut(s.(suppress := s.suppress | 2), s.offset, RepToken(size))
      case Include =>
        var s1 := s.(level := s.level + 1);
        if TopInhibits(s1) then Push(s1, false) else s1
      case MacroNolist => Push(s.(level := s.level + 1), true)
      case _ => s.(level := s.level + 1)
  }

  /** The pop loop of list_downlevel: drop top frames deeper than `level`. */
  function PopAbove(stack: seq<Frame>, level: int): seq<Frame>
  {
    if stack != [] && stack[0].level > level then PopAbove(stack[1..], level) else stack
  }

  /** list_downlevel */
  function ListDownlevel(s: State, ltype: ListType): State
  {
    if !s.listp then s
    else
      match ltype
      case IncBin => s.(suppress := s.suppress & !1)
      case Times => s.(suppress := s.suppress & !2)
      case _ =>
        var level := s.level - 1;
        s.(level := level, stack := PopAbove(s.stack, level))
  }

  /** list_error */
  function ListError(s: State, severity: bv32, text: string): State
  {
    if !s.hasFile then s
    else
      var s1 := s.(errors := s.errors + [Diagnostic(severity, text)]);
      if SeverityIndex(severity) >= ERR_FATAL then ListEmit(s1) else s1
  }

  /** list_set_offset */
  function ListSetOffset(s: State, offset: u64): State
  {
    s.(offset := Trunc32(offset))
  }

  /**
    list_init. An absent name and an empty name are both `""`; `openOk`
    says whether opening the listing file succeeded.
  */
  function ListInit(s: State, fname: string, openOk: bool): State
  {
    if fname == "" || !openOk then s.(hasFile := false)
    else
      s.(hasFile := true, line := "", lineno := 0, errors := [], listp := true,
         level := 0, suppress := 0, stack := [Frame(0, true)])
  }

  /** list_cleanup */
  function ListCleanup(s: State): State
  {
    if !s.listp then s else ListEmit(s.(stack := []))
  }

  // ---------------------------------------------------------------------
  // Sessions: sequences of calls through the entry points

  datatype Event =
    | OnInit(fname: string, openOk: bool)
    | OnCleanup
    | OnOutput(data: OutData, userNolist: bool)
    | OnLine(ltype: ListType, lineno: i32, line: string, userNolist: bool)
    | OnUplevel(ltype: ListType, size: i64)
    | OnDownlevel(ltype: ListType)
    | OnError(severity: bv32, text: string)
    | OnSetOffset(offset: u64)

  predicate EventOk(e: Event)
  {
    e.OnOutput? ==> WellFormed(e.data)
  }

  function Step(s: State, e: Event): State
    requires EventOk(e)
  {
    match e
    case OnInit(fname, openOk) => ListInit(s, fname, openOk)
    case OnCleanup => ListCleanup(s)
    case OnOutput(d, nolist) => ListOutput(s, d, nolist)
    case OnLine(t, n, line, nolist) => ListLine(s, t, n, line, nolist)
    case OnUplevel(t, size) => ListUplevel(s, t, size)
    case OnDownlevel(t) => ListDownlevel(s, t)
    case OnError(sev, text) => ListError(s, sev, text)
    case OnSetOffset(offset) => ListSetOffset(s, offset)
  }

  function Run(s: State, es: seq<Event>): State
    requires forall i :: 0 <= i < |es| ==> EventOk(es[i])
    decreases |es|
  {
    if es == [] then s else Run(Step(s, es[0]), es[1..])
  }
}
