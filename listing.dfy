/**
  The listing engine as asm/listing.c writes it: the module statics are
  the fields of one object, `listline` and `listdata` are the fixed-size
  character buffers (with the position of their terminating NUL kept
  beside them), and every entry point is a method that updates the fields
  in place. Each method is proved to leave the object in the state the
  value-level function of module Engine computes, and to keep the
  invariant `Valid()`.
*/
module Listing {
  import opened Format
  import opened Engine
  import opened Properties

  /** `listdata` holds 2 * LIST_INDENT characters. */
  const DATA_SIZE: nat := 2 * LIST_INDENT

  class ListingEngine {
    var listp: bool
    /** Whether `listfp` is non-NULL. */
    var hasFile: bool
    const listline: array<char>
    /** The position of the NUL in `listline`. */
    var lineLen: nat
    var listlinep: bool
    const listdata: array<char>
    /** The position of the NUL in `listdata`. */
    var dataLen: nat
    var listoffset: i32
    var listlineno: int
    var listlevel: int
    var listlevelE: int
    var suppress: bv2
    /** `mistack`, its top first. */
    var mistack: seq<Frame>
    var listErrors: seq<Diagnostic>
    /** The rows written to the listing file so far. */
    var out: seq<string>

    /** The buffers have their C sizes and each holds its NUL. */
    predicate Fits()
      reads this, listline, listdata
    {
      && listline.Length == LIST_MAX_LEN && listdata.Length == DATA_SIZE
      && lineLen < LIST_MAX_LEN && dataLen < DATA_SIZE
      && listline[lineLen] == '\0' && listdata[dataLen] == '\0'
      && listline != listdata
    }

    /** The statics as a value of Engine.State. */
    function Abs(): State
      reads this, listline, listdata
      requires Fits()
    {
      State(listp, hasFile, listline[..lineLen], listlinep, listdata[..dataLen], listoffset,
            listlineno, listlevel, listlevelE, suppress, mistack, listErrors, out)
    }

    predicate Valid()
      reads this, listline, listdata
    {
      Fits() && Inv(Abs())
    }

    /** The statics as the program starts. */
    constructor()
      ensures Valid() && Abs() == ProgramStart()
      ensures fresh(listline) && fresh(listdata)
    {
      listline := new char[LIST_MAX_LEN](_ => '\0');
      listdata := new char[DATA_SIZE](_ => '\0');
      listp, hasFile, lineLen, listlinep, dataLen := false, false, 0, false, 0;
      listoffset, listlineno, listlevel, listlevelE, suppress := 0, 0, 0, 0, 0;
      mistack, listErrors, out := [], [], [];
    }

    /** strcat(listdata, tok) */
    method Strcat(tok: string)
      requires Fits() && dataLen + |tok| < DATA_SIZE
      modifies this`dataLen, listdata
      ensures Fits() && Abs() == old(Abs()).(run := old(Abs()).run + tok)
    {
      var n := dataLen;
      var i := 0;
      while i < |tok|
        invariant 0 <= i <= |tok|
        invariant listdata[..n + i] == old(listdata[..dataLen]) + tok[..i]
      {
        listdata[n + i] := tok[i];
        i := i + 1;
      }
      listdata[n + i] := '\0';
      dataLen := n + i;
      assert tok[..i] == tok;
    }

    /** list_emit */
    method Emit()
      requires Fits()
      modifies this, listdata
      ensures Fits() && Abs() == ListEmit(old(Abs()))
    {
      ghost var s := Abs();
      EmitLine();
      EmitErrors(s);
      RowsAssoc(s.out, LineRow(s), ErrorRows(s, s.errors));
    }

    /** The line row of list_emit, written when a line or a run is pending. */
    method EmitLine()
      requires Fits()
      modifies this`listlinep, this`dataLen, this`out, listdata
      ensures Fits() && Abs() == old(Abs()).(linep := false, run := "", out := old(Abs()).out + LineRow(old(Abs())))
    {
      if listlinep || dataLen > 0 {
        var row := RowLine();
        FlushLine(row);
      }
    }

    /**
      The line row list_emit prints, one fprintf at a time: the line
      number, the offset and run (or blanks), the depth label (or blanks
      when a line is pending) and the text.
    */
    method RowLine() returns (row: string)
      requires Fits()
      ensures row == RowText(Abs())
    {
      ghost var s := Abs();
      var number := LineNumberField(listlineno) + " ";
      var data;
      if dataLen != 0 {
        data := Hex8(listoffset % TWO32) + " " + PadRight(listdata[..dataLen], LIST_HEXBIT + 1);
      } else {
        data := Repeat(' ', LIST_HEXBIT + 10);
      }
      var depth := "";
      if listlevelE != 0 {
        depth := DepthLabel(listlevel, listlevelE);
      } else if listlinep {
        depth := "    ";
      }
      var text := "";
      if listlinep {
        text := " " + listline[..lineLen];
      }
      assert number == LineNumberField(s.lineno) + " " && data == DataField(s);
      row := number + data + depth + text;
    }

    /** Writes the line row, then clears `listlinep` and `listdata`. */
    method FlushLine(row: string)
      requires Fits()
      modifies this`listlinep, this`dataLen, this`out, listdata
      ensures Fits() && Abs() == old(Abs()).(linep := false, run := "", out := old(Abs()).out + [row])
    {
      out := out + [row];
      listlinep := false;
      listdata[0] := '\0';
      dataLen := 0;
    }

    /** The diagnostic rows of list_emit, then strlist_free. */
    method EmitErrors(ghost s: State)
      requires s.lineno == listlineno && s.level == listlevel && s.levelE == listlevelE
      modifies this`listErrors, this`out
      ensures listErrors == [] && out == old(out) + ErrorRows(s, old(listErrors))
    {
      var rows := ErrorLines(listErrors, s);
      out := out + rows;
      listErrors := [];
    }

    /**
      The rows of the queued diagnostics, in queue order. `s` supplies the
      line number and depths the rows show.
    */
    method ErrorLines(errs: seq<Diagnostic>, ghost s: State) returns (rows: seq<string>)
      requires s.lineno == listlineno && s.level == listlevel && s.levelE == listlevelE
      ensures rows == ErrorRows(s, errs)
    {
      rows := [];
      var i := 0;
      while i < |errs|
        invariant 0 <= i <= |errs| && rows == ErrorRows(s, errs[..i])
      {
        var row := ErrorLine(errs[i], s);
        ErrorRowsSnoc(s, errs, i);
        rows := rows + [row];
        i := i + 1;
      }
      assert errs[..i] == errs;
    }

    /** One diagnostic row: the line number, the severity fill and the depth label. */
    method ErrorLine(d: Diagnostic, ghost s: State) returns (row: string)
      requires s.lineno == listlineno && s.level == listlevel && s.levelE == listlevelE
      ensures row == ErrorRow(s, d)
    {
      var fillchar := FillChar(d.severity);
      var fill := "";
      var j := 0;
      while j < LIST_HEXBIT
        invariant 0 <= j <= LIST_HEXBIT && fill == Repeat(fillchar, j)
      {
        fill := fill + [fillchar];
        j := j + 1;
      }
      var depth := if listlevelE != 0 then " " + DepthLabel(listlevel, listlevelE) else "     ";
      assert "     " == Repeat(' ', 5);
      row := LineNumberField(listlineno) + "          " + fill + depth + "  " + d.text;
      assert "          " == Repeat(' ', 10);
    }

    /** list_out */
    method ListOut(offset: int, tok: string)
      requires Valid() && |tok| <= MAX_TOKEN
      modifies this, listdata
      ensures Valid() && Abs() == Engine.ListOut(old(Abs()), offset, tok)
    {
      ghost var s := Abs();
      SplitRun(|tok|);
      MarkOffset(offset);
      Strcat(tok);
      OutKeeps(s, offset, tok);
    }

    /** The first step of list_out: a run that would overflow is closed with `-` and flushed. */
    method SplitRun(n: nat)
      requires Valid() && n <= MAX_TOKEN
      modifies this, listdata
      ensures Fits() && Abs() == (if |old(Abs()).run| + n > LIST_HEXBIT
        then ListEmit(old(Abs()).(run := old(Abs()).run + "-")) else old(Abs()))
      ensures dataLen + n <= LIST_HEXBIT || dataLen == 0
    {
      if dataLen + n > LIST_HEXBIT {
        Strcat("-");
        Emit();
      }
    }

    /** An empty run takes the offset of its first token. */
    method MarkOffset(offset: int)
      requires Fits()
      modifies this`listoffset
      ensures Fits() && Abs() == (if old(Abs()).run == "" then old(Abs()).(offset := Trunc32(offset)) else old(Abs()))
    {
      if dataLen == 0 {
        listoffset := Trunc32(offset);
      }
    }

    /** list_address: the bracketed little-endian digits of `addr`, as one token. */
    method ListAddress(offset: int, open: char, close: char, addr: int, size: nat)
      requires Valid() && size <= 8
      modifies this, listdata
      ensures Valid() && Abs() == Engine.ListOut(old(Abs()), offset, AddressToken(open, close, addr, size))
    {
      var q := AddressText(open, close, addr, size);
      ListOut(offset, q);
    }

    /** The text list_address builds in `q`: a `HEX` pair per byte, shifting `addr` right by 8. */
    static method AddressText(open: char, close: char, addr: int, size: nat) returns (q: string)
      requires size <= 8
      ensures q == AddressToken(open, close, addr, size)
    {
      ghost var target := [open] + AddressDigits(addr, size);
      q := [open];
      var a: int, n: nat := addr, size;
      while n > 0
        invariant n <= size
        invariant q + AddressDigits(a, n) == target
      {
        ghost var q0, a0, n0 := q, a, n;
        q := q + HexByte(a % 256);
        a := a / 256;
        n := n - 1;
        AddressStep(q0, a0, n0, q, a, n, target);
      }
      q := q + [close];
    }

    /** list_output */
    method Output(d: OutData, userNolist: bool)
      requires Valid() && WellFormed(d)
      modifies this, listdata
      ensures Valid() && Abs() == ListOutput(old(Abs()), d, userNolist)
    {
      if !listp || suppress != 0 || userNolist {
        return;
      }
      match d.otype
      case ZeroData =>
        if d.size > 16 {
          ListOut(d.offset, ZeroToken(d.size));
        } else {
          OutputBytes(d.offset, d.size, Zeros(d.size));
        }
      case RawData => OutputBytes(d.offset, d.size, d.data);
      case Address => ListAddress(d.offset, '[', ']', d.toffset, d.size);
      case Segment =>
        var q := SegmentText(d.size);
        ListOut(d.offset, q);
      case RelAddr => ListAddress(d.offset, '(', ')', d.toffset, d.size);
      case Reserve => ListOut(d.offset, ReserveToken(d.size));
    }

    /** The OUT_SEGMENT token: `[`, then memset of 2·size `s` characters, then `]`. */
    static method SegmentText(size: nat) returns (q: string)
      requires size <= 10
      ensures q == SegmentToken(size)
    {
      q := "[";
      var i := 0;
      while i < 2 * size
        invariant 0 <= i <= 2 * size && q == "[" + Repeat('s', i)
      {
        q := q + "s";
        i := i + 1;
      }
      q := q + "]";
    }

    /** The OUT_RAWDATA arm of list_output. */
    method OutputBytes(offset: int, size: nat, bytes: seq<byte>)
      requires Valid()
      modifies this, listdata
      ensures Valid() && Abs() == OutRaw(old(Abs()), offset, size, bytes)
    {
      MarkEmpty(size, offset);
      HexLoop(offset, bytes);
    }

    /** The byte loop of list_output: one `HEX` token per byte, advancing `p` and `offset`. */
    method HexLoop(offset: int, bytes: seq<byte>)
      requires Valid()
      modifies this, listdata
      ensures Valid() && Abs() == OutBytes(old(Abs()), offset, bytes)
    {
      ghost var s := Abs();
      var p, o := bytes, offset;
      while p != []
        invariant Valid() && OutBytes(Abs(), o, p) == OutBytes(s, offset, bytes)
        decreases |p|
      {
        ListOut(o, HexByte(p[0]));
        o, p := o + 1, p[1..];
      }
    }

    /** An empty block still sets the offset of an empty run. */
    method MarkEmpty(size: nat, offset: int)
      requires Valid()
      modifies this`listoffset
      ensures Valid()
      ensures Abs() == (if size == 0 && old(Abs()).run == "" then old(Abs()).(offset := Trunc32(offset)) else old(Abs()))
    {
      if size == 0 && dataLen == 0 {
        listoffset := Trunc32(offset);
      }
    }

    /** list_line */
    method Line(ltype: ListType, lineno: i32, line: string, userNolist: bool)
      requires Valid()
      modifies this, listline, listdata
      ensures Valid() && Abs() == ListLine(old(Abs()), ltype, lineno, line, userNolist)
    {
      if !listp || userNolist {
        return;
      }
      if mistack != [] && mistack[0].inhibiting && ltype == Macro {
        return;
      }
      AcceptLine(ltype, lineno, line);
    }

    /** The body of list_line once the line is to be listed. */
    method AcceptLine(ltype: ListType, lineno: i32, line: string)
      requires Valid() && listp && !(mistack != [] && mistack[0].inhibiting && ltype == Macro)
      modifies this, listline, listdata
      ensures Valid() && Abs() == ListLine(old(Abs()), ltype, lineno, line, false)
    {
      LineKeeps(Abs(), ltype, lineno, line, false);
      PopInhibitor();
      Emit();
      SetLine(lineno, line);
    }

    /** An inhibiting frame on top is popped by the first line listed under it. */
    method PopInhibitor()
      requires Fits()
      modifies this`mistack
      ensures Fits() && Abs() == (if TopInhibits(old(Abs())) then old(Abs()).(stack := old(Abs()).stack[1..]) else old(Abs()))
    {
      if mistack != [] && mistack[0].inhibiting {
        mistack := mistack[1..];
      }
    }

    /** The tail of list_line: the line number, the pending flag, the text and the depth it was read at. */
    method SetLine(lineno: i32, line: string)
      requires Fits()
      modifies this`listlineno, this`listlinep, this`lineLen, this`listlevelE, listline
      ensures Fits()
      ensures Abs() == old(Abs()).(lineno := if lineno >= 0 then lineno else old(Abs()).lineno,
        linep := true, line := Truncated(line), levelE := old(Abs()).level)
    {
      if lineno >= 0 {
        listlineno := lineno as int;
      }
      listlinep := true;
      StoreLine(line);
      listlevelE := listlevel;
    }

    /** strlcpy(listline, line, LIST_MAX_LEN - 3), then memcpy(listline + LIST_MAX_LEN - 4, "...", 4). */
    method StoreLine(line: string)
      requires Fits()
      modifies this`lineLen, listline
      ensures Fits() && Abs() == old(Abs()).(line := Truncated(line))
    {
      var n := CopyLine(line);
      ghost var head := listline[..n];
      ghost var before := listline[..LIST_MAX_LEN - 4];
      assert n < LIST_MAX_LEN - 4 ==> before[n] == '\0';
      Ellipsis();
      assert listline[..n] == listline[..LIST_MAX_LEN - 4][..n];
      if n < LIST_MAX_LEN - 4 {
        assert listline[n] == listline[..LIST_MAX_LEN - 4][n];
        lineLen := n;
      } else {
        lineLen := LIST_MAX_LEN - 1;
        assert listline[..LIST_MAX_LEN - 1] == listline[..LIST_MAX_LEN - 4] + listline[LIST_MAX_LEN - 4..LIST_MAX_LEN - 1];
      }
    }

    /** The memcpy of `...` and a NUL into the last four characters of `listline`. */
    method Ellipsis()
      requires listline.Length == LIST_MAX_LEN
      modifies listline
      ensures listline[..LIST_MAX_LEN - 4] == old(listline[..LIST_MAX_LEN - 4])
      ensures listline[LIST_MAX_LEN - 4..LIST_MAX_LEN - 1] == "..." && listline[LIST_MAX_LEN - 1] == '\0'
    {
      listline[LIST_MAX_LEN - 4] := '.';
      listline[LIST_MAX_LEN - 3] := '.';
      listline[LIST_MAX_LEN - 2] := '.';
      listline[LIST_MAX_LEN - 1] := '\0';
    }

    /** The strlcpy: at most LIST_MAX_LEN - 4 characters, then a NUL. */
    method CopyLine(line: string) returns (n: nat)
      requires listline.Length == LIST_MAX_LEN
      modifies listline
      ensures n == if |line| < LIST_MAX_LEN - 4 then |line| else LIST_MAX_LEN - 4
      ensures listline[..n] == line[..n] && listline[n] == '\0'
    {
      n := 0;
      while n < |line| && n < LIST_MAX_LEN - 4
        invariant n <= |line| && n <= LIST_MAX_LEN - 4
        invariant listline[..n] == line[..n]
      {
        listline[n] := line[n];
        n := n + 1;
      }
      listline[n] := '\0';
    }

    /** list_uplevel */
    method Uplevel(ltype: ListType, size: i64)
      requires Valid()
      modifies this, listdata
      ensures Valid() && Abs() == ListUplevel(old(Abs()), ltype, size)
    {
      if !listp {
        return;
      }
      if ltype == IncBin || ltype == Times {
        EnterBulk(ltype, size);
      } else {
        EnterScope(ltype, size);
      }
    }

    /** INCBIN and TIMES: set the suppress bit, then list the placeholder token at the current offset. */
    method EnterBulk(ltype: ListType, size: i64)
      requires Valid() && listp && ltype in {IncBin, Times}
      modifies this, listdata
      ensures Valid() && Abs() == ListUplevel(old(Abs()), ltype, size)
    {
      var bit: bv2 := if ltype == IncBin then 1 else 2;
      var tok := if ltype == IncBin then BinToken(size) else RepToken(size);
      suppress := suppress | bit;
      ListOut(listoffset, tok);
    }

    /** One level deeper; an included file under an inhibiting frame, or a .nolist macro, pushes a frame. */
    method EnterScope(ltype: ListType, size: i64)
      requires Valid() && listp && ltype !in {IncBin, Times}
      modifies this`listlevel, this`mistack
      ensures Valid() && Abs() == ListUplevel(old(Abs()), ltype, size)
    {
      DeeperKeeps(mistack, listlevel);
      listlevel := listlevel + 1;
      if ltype == Include {
        if mistack != [] && mistack[0].inhibiting {
          PushKeeps(mistack, listlevel - 1, false);
          MistackPush(false);
        }
      } else if ltype == MacroNolist {
        PushKeeps(mistack, listlevel - 1, true);
        MistackPush(true);
      }
    }

    /** mistack_push */
    method MistackPush(inhibiting: bool)
      requires Fits()
      modifies this`mistack
      ensures Fits() && Abs() == Push(old(Abs()), inhibiting)
    {
      mistack := [Frame(listlevel, inhibiting)] + mistack;
    }

    /** list_downlevel */
    method Downlevel(ltype: ListType)
      requires Valid()
      modifies this`suppress, this`listlevel, this`mistack
      ensures Valid() && Abs() == ListDownlevel(old(Abs()), ltype)
    {
      if !listp {
        return;
      }
      match ltype
      case IncBin => suppress := suppress & !1;
      case Times => suppress := suppress & !2;
      case _ => LeaveScope(ltype);
    }

    /** One level up, dropping the frames pushed deeper than the new level. */
    method LeaveScope(ltype: ListType)
      requires Valid() && listp && ltype !in {IncBin, Times}
      modifies this`listlevel, this`mistack
      ensures Valid() && Abs() == ListDownlevel(old(Abs()), ltype)
    {
      DownlevelKeeps(Abs(), ltype);
      listlevel := listlevel - 1;
      PopFrames();
    }

    /** The pop loop of list_downlevel. */
    method PopFrames()
      modifies this`mistack
      ensures mistack == PopAbove(old(mistack), listlevel)
    {
      while mistack != [] && mistack[0].level > listlevel
        invariant PopAbove(mistack, listlevel) == PopAbove(old(mistack), listlevel)
        decreases |mistack|
      {
        mistack := mistack[1..];
      }
    }

    /** list_error */
    method Error(severity: bv32, text: string)
      requires Valid()
      modifies this, listdata
      ensures Valid() && Abs() == ListError(old(Abs()), severity, text)
    {
      if !hasFile {
        return;
      }
      if SeverityIndex(severity) >= ERR_FATAL {
        QueueFatal(severity, text);
      } else {
        QueueError(severity, text);
      }
    }

    /** A fatal diagnostic is queued, then list_emit writes it at once. */
    method QueueFatal(severity: bv32, text: string)
      requires Valid()
      modifies this, listdata
      ensures Valid() && Abs() == ListEmit(old(Abs()).(errors := old(Abs()).errors + [Diagnostic(severity, text)]))
    {
      QueueError(severity, text);
      Emit();
    }

    /** The diagnostic is appended to `list_errors` with its severity. */
    method QueueError(severity: bv32, text: string)
      requires Valid()
      modifies this`listErrors
      ensures Valid() && Abs() == old(Abs()).(errors := old(Abs()).errors + [Diagnostic(severity, text)])
    {
      listErrors := listErrors + [Diagnostic(severity, text)];
    }

    /** list_set_offset */
    method SetOffset(offset: u64)
      requires Valid()
      modifies this`listoffset
      ensures Valid() && Abs() == ListSetOffset(old(Abs()), offset)
    {
      listoffset := Trunc32(offset);
    }

    /** list_init; `openOk` is whether nasm_open_write returned a file. */
    method Init(fname: string, openOk: bool)
      requires Valid()
      modifies this, listline
      ensures Valid() && Abs() == ListInit(old(Abs()), fname, openOk)
    {
      if fname == "" || !openOk {
        hasFile := false;
        return;
      }
      Open();
    }

    /** list_init once the listing file is open: reset the statics and push the inhibiting bottom frame. */
    method Open()
      requires Valid()
      modifies this, listline
      ensures Valid()
      ensures Abs() == old(Abs()).(hasFile := true, line := "", lineno := 0, errors := [], listp := true,
        level := 0, suppress := 0, stack := [Frame(0, true)])
    {
      ResetStatics();
      ClearLine();
    }

    /** The statics list_init resets, other than `listline`. */
    method ResetStatics()
      requires Valid()
      modifies this`hasFile, this`listlineno, this`listErrors, this`listp, this`listlevel, this`suppress, this`mistack
      ensures Valid()
      ensures Abs() == old(Abs()).(hasFile := true, lineno := 0, errors := [], listp := true,
        level := 0, suppress := 0, stack := [Frame(0, true)])
    {
      ResetCounters();
      ResetDepth();
    }

    /** The file, line-number and error statics. */
    method ResetCounters()
      requires Valid()
      modifies this`hasFile, this`listlineno, this`listErrors, this`listp
      ensures Valid() && Abs() == old(Abs()).(hasFile := true, lineno := 0, errors := [], listp := true)
    {
      hasFile, listlineno := true, 0;
      listErrors, listp := [], true;
    }

    /** Depth zero, nothing suppressed, and the inhibiting bottom frame. */
    method ResetDepth()
      requires Valid()
      modifies this`listlevel, this`suppress, this`mistack
      ensures Valid() && Abs() == old(Abs()).(level := 0, suppress := 0, stack := [Frame(0, true)])
    {
      listlevel, suppress, mistack := 0, 0, [Frame(0, true)];
    }

    /** `*listline = '\0'` */
    method ClearLine()
      requires Fits()
      modifies this`lineLen, listline
      ensures Fits() && Abs() == old(Abs()).(line := "")
    {
      listline[0] := '\0';
      lineLen := 0;
    }

    /** list_cleanup: free the inhibit stack, then flush what is pending. */
    method Cleanup()
      requires Valid()
      modifies this, listdata
      ensures Valid() && Abs() == ListCleanup(old(Abs()))
    {
      if !listp {
        return;
      }
      ClearStack();
      Emit();
    }

    /** The free loop of list_cleanup. */
    method ClearStack()
      modifies this`mistack
      ensures mistack == []
    {
      while mistack != []
        decreases |mistack|
      {
        mistack := mistack[1..];
      }
    }
  }

  /** One iteration of the digit loop of list_address. */
  lemma AddressStep(q: string, a: int, n: nat, q': string, a': int, n': nat, target: string)
    requires n > 0 && q + AddressDigits(a, n) == target
    requires q' == q + HexByte(a % 256) && a' == a / 256 && n' == n - 1
    ensures q' + AddressDigits(a', n') == target
  {
    calc {
      q' + AddressDigits(a', n');
      (q + HexByte(a % 256)) + AddressDigits(a / 256, n - 1);
      { Assoc(q, HexByte(a % 256), AddressDigits(a / 256, n - 1)); }
      q + (HexByte(a % 256) + AddressDigits(a / 256, n - 1));
      q + AddressDigits(a, n);
    }
  }

  /** One more diagnostic row at the end. */
  lemma ErrorRowsSnoc(s: State, errs: seq<Diagnostic>, i: nat)
    requires i < |errs|
    ensures ErrorRows(s, errs[..i + 1]) == ErrorRows(s, errs[..i]) + [ErrorRow(s, errs[i])]
  {
    assert errs[..i + 1][..i] == errs[..i];
  }
}
