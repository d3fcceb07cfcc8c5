/**
  What the listing engine guarantees, stated over the value-level model of
  module Engine: the run split, the token shapes in the run, suppression,
  the one-shot and depth-driven inhibit stack, the flush, and the
  invariant every entry point keeps.
*/
module Properties {
  import opened Format
  import opened Engine

  // ---------------------------------------------------------------------
  // list_emit

  /**
    list_emit writes one row when a line is pending or the run is
    non-empty, then one row per queued diagnostic in insertion order; it
    leaves nothing pending, so a second call writes nothing.
  */
  lemma EmitFlushes(s: State)
    ensures var h := if s.linep || s.run != "" then 1 else 0;
      && |ListEmit(s).out| == |s.out| + h + |s.errors|
      && ListEmit(s).out[..|s.out|] == s.out
      && (h == 1 ==> ListEmit(s).out[|s.out|] == RowText(s))
  {
    Appended(ListEmit(s).out, s.out, LineRow(s), ErrorRows(s, s.errors));
  }

  /**
    The diagnostic rows close what list_emit writes, in queue order: the
    k-th queued diagnostic is the k-th of the last |errors| rows.
  */
  lemma EmitErrorRows(s: State, k: nat)
    requires k < |s.errors|
    ensures |ListEmit(s).out| >= |s.out| + |s.errors|
    ensures ListEmit(s).out[|ListEmit(s).out| - |s.errors| + k] == ErrorRow(s, s.errors[k])
  {
    var t, x := ListEmit(s).out, ErrorRow(s, s.errors[k]);
    ErrorRowsAt(s, s.errors, k);
    EmitOut(s);
    RowAt(t, s.out, LineRow(s), ErrorRows(s, s.errors), x, |s.errors|, k);
  }

  /** What list_emit appends: the line row, if any, then the diagnostic rows. */
  lemma EmitOut(s: State)
    ensures ListEmit(s).out == s.out + (LineRow(s) + ErrorRows(s, s.errors))
  {
  }

  /** Positions in a three-part concatenation. */
  lemma Appended(t: seq<string>, a: seq<string>, b: seq<string>, c: seq<string>)
    requires t == a + (b + c)
    ensures |t| == |a| + |b| + |c| && t[..|a|] == a
    ensures |b| == 1 ==> t[|a|] == b[0]
  {
  }

  /** The k-th diagnostic row is the row of the k-th queued diagnostic. */
  lemma {:induction false} ErrorRowsAt(s: State, errs: seq<Diagnostic>, k: nat)
    requires k < |errs|
    ensures ErrorRows(s, errs)[k] == ErrorRow(s, errs[k])
    decreases |errs|
  {
    if k < |errs| - 1 {
      ErrorRowsAt(s, errs[..|errs| - 1], k);
    }
  }

  /** The k-th of the last m rows of a three-part concatenation is the k-th row of its last part. */
  lemma RowAt(t: seq<string>, a: seq<string>, b: seq<string>, c: seq<string>, x: string, m: nat, k: nat)
    requires t == a + (b + c) && m == |c| && k < m && c[k] == x
    ensures |t| >= |a| + m && t[|t| - m + k] == x
  {
  }

  /** After list_emit nothing is pending, so a second list_emit writes nothing. */
  lemma EmitClears(s: State)
    ensures !ListEmit(s).linep && ListEmit(s).run == "" && ListEmit(s).errors == []
    ensures ListEmit(ListEmit(s)) == ListEmit(s)
  {
    var e := ListEmit(s);
    assert EmitRows(e) == [];
    assert e.out + [] == e.out;
  }

  /**
    Column layout of a line row, part one: the source text starts at
    column 40 (LIST_INDENT), after a six-character line number, a blank,
    the 28-column data field and the four-column depth field.
  */
  lemma RowTextColumn(s: State)
    requires 0 <= s.lineno < 1000000 && |s.run| <= LIST_HEXBIT + 1 && s.linep
    requires s.levelE == 0 || (0 < s.levelE < 10 && s.level < 10) || (10 <= s.levelE < 100 && s.level >= 10)
    ensures |RowText(s)| == LIST_INDENT + |s.line| && RowText(s)[LIST_INDENT..] == s.line
  {
    var a, c, d, e := LineNumberField(s.lineno), DataField(s), DepthField(s), TextField(s);
    FieldWidths(s);
    assert e == " " + s.line && e[1..] == s.line;
    TailAfter(RowText(s), a, " ", c, d, e, LIST_INDENT - 1, s.line);
  }

  /** Column layout of a line row, part two: the line number fills columns 0-5. */
  lemma RowNumberColumn(s: State)
    requires 0 <= s.lineno < 1000000
    ensures |RowText(s)| >= 6 && RowText(s)[..6] == LineNumberField(s.lineno)
  {
    var a := LineNumberField(s.lineno);
    LineNumberWidth(s.lineno);
    Parts5(RowText(s), a, " ", DataField(s), DepthField(s), TextField(s));
  }

  /**
    Column layout of a line row, part three: a non-empty run shows its
    offset in eight hex digits in columns 7-14 and the run itself from
    column 16.
  */
  lemma RowRunColumns(s: State)
    requires 0 <= s.lineno < 1000000 && s.run != ""
    ensures |RowText(s)| >= 35
    ensures RowText(s)[7..15] == Hex8(s.offset % TWO32)
    ensures RowText(s)[16..16 + |s.run|] == s.run
  {
    RowWidthAtLeast(s);
    RowOffsetAt(s);
    RowRunAt(s);
    RunInDataField(s);
  }

  lemma RowWidthAtLeast(s: State)
    requires 0 <= s.lineno < 1000000 && s.run != ""
    ensures |RowText(s)| >= 35
  {
    DataFieldAt(s);
    RunInDataField(s);
  }

  lemma RowOffsetAt(s: State)
    requires 0 <= s.lineno < 1000000 && s.run != ""
    ensures |RowText(s)| >= 15 && RowText(s)[7..15] == DataField(s)[0..8]
  {
    LineNumberWidth(s.lineno);
    DataFieldWide(s);
    SliceOfField(RowText(s), LineNumberField(s.lineno), " ", DataField(s), DepthField(s), TextField(s), 0, 8, 7, 15);
  }

  lemma RowRunAt(s: State)
    requires 0 <= s.lineno < 1000000 && s.run != ""
    ensures |RowText(s)| >= 16 + |s.run| && RowText(s)[16..16 + |s.run|] == DataField(s)[9..9 + |s.run|]
  {
    LineNumberWidth(s.lineno);
    RunInDataField(s);
    SliceOfField(RowText(s), LineNumberField(s.lineno), " ", DataField(s), DepthField(s), TextField(s), 9, 9 + |s.run|, 16, 16 + |s.run|);
  }

  lemma DataFieldWide(s: State)
    ensures |DataField(s)| >= LIST_HEXBIT + 10
  {
  }

  /** A slice of the third part of a row whose first two parts are seven characters wide. */
  lemma SliceOfField(t: string, a: string, b: string, c: string, d: string, e: string, from: nat, to: nat, lo: nat, hi: nat)
    requires t == a + b + c + d + e && |a| == 6 && |b| == 1
    requires from <= to <= |c| && lo == 7 + from && hi == 7 + to
    ensures hi <= |t| && t[lo..hi] == c[from..to]
  {
    Parts5(t, a, b, c, d, e);
    SubSlice(t, 7, 7 + |c|, from, to);
  }

  /** The data field starts at column 7, after the six-column line number and a blank. */
  lemma DataFieldAt(s: State)
    requires 0 <= s.lineno < 1000000
    ensures |RowText(s)| >= 7 + |DataField(s)| && RowText(s)[7..7 + |DataField(s)|] == DataField(s)
  {
    LineNumberWidth(s.lineno);
    Parts5(RowText(s), LineNumberField(s.lineno), " ", DataField(s), DepthField(s), TextField(s));
  }

  lemma FieldWidths(s: State)
    requires 0 <= s.lineno < 1000000 && |s.run| <= LIST_HEXBIT + 1 && s.linep
    requires s.levelE == 0 || (0 < s.levelE < 10 && s.level < 10) || (10 <= s.levelE < 100 && s.level >= 10)
    ensures |LineNumberField(s.lineno)| == 6 && |DataField(s)| == LIST_HEXBIT + 10 && |DepthField(s)| == 4
  {
    LineNumberWidth(s.lineno);
    DataFieldLayout(s);
    DepthFieldWidth(s);
  }

  /** What follows the first character of the last part of a five-part concatenation. */
  lemma TailAfter(t: string, a: string, b: string, c: string, d: string, e: string, n: nat, x: string)
    requires t == a + b + c + d + e
    requires |a| + |b| + |c| + |d| == n && 1 <= |e| && e[1..] == x
    ensures |t| == n + |e| && t[n + 1..] == x
  {
    forall k | 0 <= k < |e| - 1
      ensures t[n + 1..][k] == x[k]
    {
      assert t[n + 1 + k] == e[1 + k];
    }
  }

  /** Where the parts of a five-part concatenation sit. */
  lemma Parts5(t: string, a: string, b: string, c: string, d: string, e: string)
    requires t == a + b + c + d + e
    ensures |t| == |a| + |b| + |c| + |d| + |e|
    ensures t[..|a|] == a
    ensures t[|a| + |b|..|a| + |b| + |c|] == c
    ensures t[|a| + |b| + |c| + |d|..] == e
  {
    Concat5(a, b, c, d, e);
  }

  /** Slices of a five-part concatenation. */
  lemma Concat5(a: string, b: string, c: string, d: string, e: string)
    ensures var t := a + b + c + d + e;
      && |t| == |a| + |b| + |c| + |d| + |e|
      && t[..|a|] == a
      && t[|a| + |b|..|a| + |b| + |c|] == c
      && t[|a| + |b| + |c| + |d|..] == e
  {
  }

  lemma Slices3(a: string, b: string, c: string)
    ensures (a + b + c)[..|a|] == a
    ensures (a + b + c)[|a|..|a| + |b|] == b
    ensures (a + b + c)[|a| + |b|..] == c
    ensures (a + b)[|a|..] == b
  {
  }

  lemma SubSlice(x: string, i: int, j: int, k: int, l: int)
    requires 0 <= i <= j <= |x| && 0 <= k <= l <= j - i
    ensures x[i..j][k..l] == x[i + k..i + l]
  {
    var y := x[i..j];
    forall n | 0 <= n < l - k
      ensures y[k..l][n] == x[i + k..i + l][n]
    {
      assert y[k..l][n] == y[k + n] == x[i + k + n];
    }
  }

  lemma DataFieldLayout(s: State)
    requires |s.run| <= LIST_HEXBIT + 1
    ensures |DataField(s)| == LIST_HEXBIT + 10
    ensures s.run != "" ==> DataField(s)[..8] == Hex8(s.offset % TWO32)
    ensures s.run != "" ==> DataField(s)[9..9 + |s.run|] == s.run
  {
    if s.run != "" {
      RunInDataField(s);
    }
  }

  /** A non-empty run of any length: the offset, a blank, then the run, padded to at least 19 columns. */
  lemma RunInDataField(s: State)
    requires s.run != ""
    ensures |DataField(s)| == 9 + Max(LIST_HEXBIT + 1, |s.run|)
    ensures |DataField(s)| >= LIST_HEXBIT + 10 && |DataField(s)| >= 9 + |s.run|
    ensures DataField(s)[..8] == Hex8(s.offset % TWO32)
    ensures DataField(s)[9..9 + |s.run|] == s.run
  {
    Hex8Width(s.offset % TWO32);
    HeadGapTail(DataField(s), Hex8(s.offset % TWO32), " ", PadRight(s.run, LIST_HEXBIT + 1), s.run);
  }

  /** An eight-element head, a one-element gap, then a tail that starts with `x`. */
  lemma HeadGapTail(t: string, a: string, b: string, c: string, x: string)
    requires t == a + b + c && |a| == 8 && |b| == 1
    requires |x| <= |c| && c[..|x|] == x
    ensures |t| == 9 + |c| && t[..8] == a && t[9..9 + |x|] == x
  {
    assert t[9..9 + |x|] == c[..|x|];
  }

  lemma DepthFieldWidth(s: State)
    requires s.linep
    requires s.levelE == 0 || (0 < s.levelE < 10 && s.level < 10) || (10 <= s.levelE < 100 && s.level >= 10)
    ensures |DepthField(s)| == 4
  {
    if s.levelE != 0 {
      DecimalWidth(s.levelE);
    }
  }

  lemma LineNumberWidth(n: int)
    requires 0 <= n < 1000000
    ensures |LineNumberField(n)| == 6
  {
    assert Pow(10, 6) == 1000000 by {
      assert Pow(10, 1) == 10;
      assert Pow(10, 2) == 100;
      assert Pow(10, 3) == 1000;
      assert Pow(10, 4) == 10000;
      assert Pow(10, 5) == 100000;
    }
    NumeralLength(n, 10, 6);
  }

  lemma Hex8Width(n: int)
    requires 0 <= n < TWO32
    ensures |Hex8(n)| == 8
  {
    assert Pow(16, 8) == TWO32 by {
      assert Pow(16, 2) == 0x100;
      assert Pow(16, 4) == 0x1_0000;
      assert Pow(16, 6) == 0x100_0000;
    }
    NumeralLength(n, 16, 8);
  }

  lemma DecimalWidth(n: int)
    requires 0 < n < 100
    ensures n < 10 ==> |Decimal(n)| == 1
    ensures n >= 10 ==> |Decimal(n)| == 2
  {
    assert Pow(10, 1) == 10;
    assert Pow(10, 2) == 100;
    NumeralLength(n, 10, 2);
    if n < 10 {
      NumeralLength(n, 10, 1);
    }
  }

  /**
    A diagnostic row: the line number, ten blanks, then 18 fill characters
    chosen by severity from " --***XX", and the message at the end.
  */
  lemma ErrorRowLayout(s: State, d: Diagnostic)
    requires 0 <= s.lineno < 1000000
    ensures |ErrorRow(s, d)| >= 16 + LIST_HEXBIT + 2 + |d.text|
    ensures ErrorRow(s, d)[..6] == LineNumberField(s.lineno)
    ensures ErrorRow(s, d)[16..16 + LIST_HEXBIT] == Repeat(FILLCHARS[(d.severity & ERR_MASK) as nat], LIST_HEXBIT)
    ensures ErrorRow(s, d)[|ErrorRow(s, d)| - |d.text|..] == d.text
  {
    LineNumberWidth(s.lineno);
    Parts6(ErrorRow(s, d), LineNumberField(s.lineno), Repeat(' ', 10), Repeat(FillChar(d.severity), LIST_HEXBIT),
      ErrorDepthField(s), "  ", d.text, 6, 16, 16 + LIST_HEXBIT);
  }

  /** Where the first, third and last parts of a six-part concatenation sit. */
  lemma Parts6(t: string, a: string, b: string, c: string, x: string, y: string, e: string, i: nat, j: nat, k: nat)
    requires t == a + b + c + x + y + e
    requires i == |a| && j == i + |b| && k == j + |c|
    ensures |t| == k + |x| + |y| + |e|
    ensures t[..i] == a && t[j..k] == c && t[|t| - |e|..] == e
  {
    var p := a + b + c + x + y;
    assert t == p + e;
    assert t[..i] == a by {
      assert forall n :: 0 <= n < i ==> t[n] == a[n];
    }
    assert t[j..k] == c by {
      assert forall n :: 0 <= n < |c| ==> t[j + n] == c[n];
    }
    assert t[|p|..] == e;
  }

  // ---------------------------------------------------------------------
  // list_out and the byte run

  /**
    list_out: when the run plus the token would pass 18 characters, the
    run is closed with `-` and flushed first; a token placed into an empty
    run sets the run's offset; afterwards the run is at most
    max(18, token length) long.
  */
  lemma OutSplit(s: State, offset: int, tok: string)
    ensures var r := ListOut(s, offset, tok);
      && (|s.run| + |tok| > LIST_HEXBIT ==>
            && r.out == s.out + EmitRows(s.(run := s.run + "-"))
            && r.run == tok && r.offset == Trunc32(offset) && r.errors == [] && !r.linep)
      && (|s.run| + |tok| <= LIST_HEXBIT ==>
            && r.out == s.out && r.run == s.run + tok
            && r.offset == (if s.run == "" then Trunc32(offset) else s.offset)
            && r.errors == s.errors && r.linep == s.linep)
      && |r.run| <= Max(LIST_HEXBIT, |tok|)
      && r.stack == s.stack && r.level == s.level && r.levelE == s.levelE
      && r.lineno == s.lineno && r.line == s.line && r.suppress == s.suppress
      && r.listp == s.listp && r.hasFile == s.hasFile
  {
  }

  /** An empty run and a token longer than 18 characters: a row whose run is only `-` is flushed. */
  lemma LongTokenOnEmptyRun(s: State, offset: int, tok: string)
    requires s.run == "" && |tok| > LIST_HEXBIT
    ensures ListOut(s, offset, tok).out == s.out + EmitRows(s.(run := "-"))
    ensures ListOut(s, offset, tok).run == tok
  {
    OutSplit(s, offset, tok);
    assert s.run + "-" == "-";
  }

  /**
    Bytes that fit the run are appended as their `HEX` pairs, with no
    separator and no row written; on an empty run the offset becomes that
    of the first byte.
  */
  lemma {:induction false} OutBytesFit(s: State, offset: int, bytes: seq<byte>)
    requires |s.run| + 2 * |bytes| <= LIST_HEXBIT
    ensures OutBytes(s, offset, bytes) ==
      s.(run := s.run + HexBytes(bytes),
         offset := if s.run == "" && bytes != [] then Trunc32(offset) else s.offset)
    decreases |bytes|
  {
    if bytes != [] {
      var h := HexByte(bytes[0]);
      var s1 := ListOut(s, offset, h);
      OutSplit(s, offset, h);
      assert s1 == s.(run := s.run + h, offset := if s.run == "" then Trunc32(offset) else s.offset);
      OutBytesFit(s1, offset + 1, bytes[1..]);
      Assoc(s.run, h, HexBytes(bytes[1..]));
    }
  }

  lemma Assoc(a: string, b: string, c: string)
    ensures (a + b) + c == a + (b + c)
  {
  }

  lemma RowsAssoc(a: seq<string>, b: seq<string>, c: seq<string>)
    ensures (a + b) + c == a + (b + c)
  {
  }

  /** The byte loop keeps the run within the token bound and leaves the inhibit stack alone. */
  lemma {:induction false} OutBytesKeeps(s: State, offset: int, bytes: seq<byte>)
    requires Inv(s)
    ensures Inv(OutBytes(s, offset, bytes))
    ensures var r := OutBytes(s, offset, bytes);
      r.stack == s.stack && r.level == s.level && r.suppress == s.suppress && r.listp == s.listp
    decreases |bytes|
  {
    if bytes != [] {
      OutSplit(s, offset, HexByte(bytes[0]));
      OutBytesKeeps(ListOut(s, offset, HexByte(bytes[0])), offset + 1, bytes[1..]);
    }
  }

  lemma {:induction false} HexBytesOfZeros(n: nat)
    ensures HexBytes(Zeros(n)) == Repeat('0', 2 * n)
    decreases n
  {
    if n > 0 {
      HexBytesOfZeros(n - 1);
      assert Zeros(n)[1..] == Zeros(n - 1);
      assert HexByte(0) == "00";
      assert Repeat('0', 2 * n) == "00" + Repeat('0', 2 * (n - 1));
    }
  }

  /**
    Zero-fill of more than 16 bytes is one `<zero %08X>` token; 16 bytes or
    fewer are listed exactly like that many zero bytes of raw data, each an
    `00` token.
  */
  lemma ZeroFill(s: State, d: OutData, nolist: bool)
    requires d.otype == ZeroData && s.listp && s.suppress == 0 && !nolist
    ensures d.size > 16 ==> ListOutput(s, d, nolist) == ListOut(s, d.offset, ZeroToken(d.size))
    ensures d.size <= 16 ==>
      ListOutput(s, d, nolist) == ListOutput(s, d.(otype := RawData, data := Zeros(d.size)), nolist)
    ensures d.size <= 16 ==> HexBytes(Zeros(d.size)) == Repeat('0', 2 * d.size)
  {
    HexBytesOfZeros(d.size);
  }

  /** A reservation is always a single `<res %X>` token, whatever its size. */
  lemma Reservation(s: State, d: OutData, nolist: bool)
    requires d.otype == Reserve && s.listp && s.suppress == 0 && !nolist
    ensures ListOutput(s, d, nolist) == ListOut(s, d.offset, ReserveToken(d.size))
  {
  }

  /** Raw data of size 0 lists nothing; on an empty run it only resets the offset. */
  lemma EmptyRawData(s: State, d: OutData, nolist: bool)
    requires d.otype == RawData && d.size == 0 && |d.data| == 0
    ensures ListOutput(s, d, nolist) ==
      if s.listp && s.suppress == 0 && !nolist && s.run == "" then s.(offset := Trunc32(d.offset)) else s
  {
  }

  /** list_output changes nothing while listing is off, suppressed, or turned off by the user. */
  lemma OutputGated(s: State, d: OutData, nolist: bool)
    requires WellFormed(d)
    requires !s.listp || s.suppress != 0 || nolist
    ensures ListOutput(s, d, nolist) == s
  {
  }

  // ---------------------------------------------------------------------
  // INCBIN and TIMES

  /**
    Entering INCBIN (TIMES) sets bit 1 (bit 2) of `suppress` and no other,
    appends one `<bin %X>` (`<rep %X>`) token at the current offset, and
    leaves the depth and the inhibit stack alone.
  */
  lemma BulkEnter(s: State, t: ListType, size: i64)
    requires Inv(s) && s.listp && t in {IncBin, Times}
    ensures var r := ListUplevel(s, t, size);
      var tok := if t == IncBin then BinToken(size) else RepToken(size);
      && r.suppress == s.suppress | (if t == IncBin then 1 else 2)
      && r.level == s.level && r.stack == s.stack && r.listp
      && r.offset == s.offset
      && |r.run| >= |tok| && r.run[|r.run| - |tok|..] == tok
  {
    var bit: bv2 := if t == IncBin then 1 else 2;
    var tok := if t == IncBin then BinToken(size) else RepToken(size);
    assert ListUplevel(s, t, size) == ListOut(s.(suppress := s.suppress | bit), s.offset, tok);
    BulkOut(s, bit, tok);
  }

  /** The placeholder token of INCBIN/TIMES, listed at the run's own offset under a new suppress bit. */
  lemma BulkOut(s: State, bit: bv2, tok: string)
    ensures var r := ListOut(s.(suppress := s.suppress | bit), s.offset, tok);
      && r.suppress == s.suppress | bit && r.level == s.level && r.stack == s.stack
      && r.listp == s.listp && r.offset == s.offset
      && |r.run| >= |tok| && r.run[|r.run| - |tok|..] == tok
  {
    var s0 := s.(suppress := s.suppress | bit);
    OutSplit(s0, s.offset, tok);
    Trunc32Fixed(s.offset);
    OutEndsWith(s0, s.offset, tok);
  }

  lemma Trunc32Fixed(x: i32)
    ensures Trunc32(x) == x
  {
  }

  /** list_out always leaves its token at the end of the run. */
  lemma OutEndsWith(s: State, offset: int, tok: string)
    ensures var r := ListOut(s, offset, tok).run; |r| >= |tok| && r[|r| - |tok|..] == tok
  {
    OutSplit(s, offset, tok);
    var r := ListOut(s, offset, tok).run;
    if |s.run| + |tok| <= LIST_HEXBIT {
      Slices3(s.run, tok, "");
    } else {
      assert r == tok;
    }
  }

  /** Leaving INCBIN (TIMES) clears bit 1 (bit 2) only, and touches nothing else. */
  lemma BulkLeave(s: State, t: ListType)
    requires s.listp && t in {IncBin, Times}
    ensures ListDownlevel(s, t) ==
      s.(suppress := if t == IncBin then s.suppress & 2 else s.suppress & 1)
  {
  }

  /** While INCBIN is active no data is listed: only the size token entered the run. */
  lemma IncbinHidesData(s: State, size: i64, d: OutData, nolist: bool)
    requires s.listp && WellFormed(d)
    ensures var r := ListUplevel(s, IncBin, size); ListOutput(r, d, nolist) == r
  {
    var s0 := s.(suppress := s.suppress | 1);
    assert ListUplevel(s, IncBin, size) == ListOut(s0, s.offset, BinToken(size));
    OutSplit(s0, s.offset, BinToken(size));
    SuppressBits(s.suppress);
  }

  lemma SuppressBits(x: bv2)
    ensures x | 1 != 0 && x | 2 != 0
  {
  }

  // ---------------------------------------------------------------------
  // list_line

  /** An inhibiting top drops a LIST_MACRO line entirely: no flush, no change. */
  lemma LineInhibited(s: State, lineno: i32, line: string, nolist: bool)
    requires TopInhibits(s)
    ensures ListLine(s, Macro, lineno, line, nolist) == s
  {
  }

  /**
    A line that is accepted: with an inhibiting top exactly one frame is
    popped first; the previous row is flushed; the line number changes
    only for a non-negative number; the text is stored truncated; the
    depth snapshot is the current depth.
  */
  lemma LineAccepted(s: State, t: ListType, lineno: i32, line: string)
    requires s.listp && !(TopInhibits(s) && t == Macro)
    ensures var r := ListLine(s, t, lineno, line, false);
      && r.stack == (if TopInhibits(s) then s.stack[1..] else s.stack)
      && r.out == s.out + EmitRows(s)
      && r.lineno == (if lineno >= 0 then lineno else s.lineno)
      && r.linep && r.line == Truncated(line) && r.levelE == s.level
      && r.run == "" && r.errors == []
      && r.level == s.level && r.offset == s.offset && r.suppress == s.suppress
  {
    var s1 := if TopInhibits(s) then s.(stack := s.stack[1..]) else s;
    assert EmitRows(s1) == EmitRows(s) by {
      assert RowText(s1) == RowText(s);
      ErrorRowsSameFrame(s, s1, s.errors);
    }
  }

  /** Diagnostic rows depend only on the line number and depths, not on the stack. */
  lemma {:induction false} ErrorRowsSameFrame(s: State, s1: State, errs: seq<Diagnostic>)
    requires s1.lineno == s.lineno && s1.level == s.level && s1.levelE == s.levelE
    ensures ErrorRows(s1, errs) == ErrorRows(s, errs)
    decreases |errs|
  {
    if errs != [] {
      ErrorRowsSameFrame(s, s1, errs[..|errs| - 1]);
    }
  }

  // ---------------------------------------------------------------------
  // The inhibit stack

  /**
    The pop loop of list_downlevel removes exactly the frames deeper than
    the new depth: what remains is a suffix of the stack, every removed
    frame is deeper, every kept frame is not.
  */
  lemma {:induction false} PopAboveExact(stack: seq<Frame>, level: int)
    requires Decreasing(stack)
    ensures var r := PopAbove(stack, level);
      && |r| <= |stack| && r == stack[|stack| - |r|..]
      && (forall i :: 0 <= i < |stack| - |r| ==> stack[i].level > level)
      && (forall i :: 0 <= i < |r| ==> r[i].level <= level)
    decreases |stack|
  {
    if stack != [] && stack[0].level > level {
      PopAboveExact(stack[1..], level);
    }
  }

  lemma PopAboveNothing(stack: seq<Frame>, level: int)
    requires forall i :: 0 <= i < |stack| ==> stack[i].level <= level
    ensures PopAbove(stack, level) == stack
  {
  }

  /**
    Leaving any scope but INCBIN and TIMES decrements the depth and pops
    exactly the frames whose level exceeds the new depth.
  */
  lemma DownlevelPops(s: State, t: ListType)
    requires Inv(s) && s.listp && t !in {IncBin, Times}
    ensures var r := ListDownlevel(s, t);
      && r.level == s.level - 1
      && |r.stack| <= |s.stack|
      && (forall f :: f in r.stack <==> f in s.stack && f.level <= r.level)
      && r.stack == s.stack[|s.stack| - |r.stack|..]
      && r == s.(level := r.level, stack := r.stack)
  {
    PopAboveExact(s.stack, s.level - 1);
    PopAboveMembers(s.stack, s.level - 1);
  }

  /** The frames the pop loop keeps are exactly those not deeper than `level`. */
  lemma PopAboveMembers(stack: seq<Frame>, level: int)
    requires Decreasing(stack)
    ensures forall f :: f in PopAbove(stack, level) <==> f in stack && f.level <= level
  {
    var r := PopAbove(stack, level);
    PopAboveExact(stack, level);
    forall f | f in stack && f.level <= level
      ensures f in r
    {
      var i :| 0 <= i < |stack| && stack[i] == f;
      var k := |stack| - |r|;
      assert i >= k;
      assert r[i - k] == f;
    }
  }

  /**
    Entering a scope other than INCBIN and TIMES and leaving it again
    restores the engine: the same depth and the same inhibit stack.
  */
  lemma UpDownRestores(s: State, t: ListType, size: i64)
    requires Inv(s) && s.listp && t !in {IncBin, Times}
    ensures ListDownlevel(ListUplevel(s, t, size), t) == s
  {
    var u := ListUplevel(s, t, size);
    assert u == s.(level := s.level + 1, stack := u.stack);
    assert ListDownlevel(u, t) == s.(stack := PopAbove(u.stack, s.level));
    PopAboveNothing(s.stack, s.level);
    if u.stack != s.stack {
      PopPushed(s.stack, s.level, t == MacroNolist);
    }
  }

  lemma PopPushed(stack: seq<Frame>, level: int, inhibiting: bool)
    ensures PopAbove([Frame(level + 1, inhibiting)] + stack, level) == PopAbove(stack, level)
  {
    assert ([Frame(level + 1, inhibiting)] + stack)[1..] == stack;
  }

  /**
    A nest of scopes as the assembler opens them: list_uplevel, the scopes
    nested inside in order, then list_downlevel of the same kind.
  */
  datatype Scope = Scope(ltype: ListType, size: i64, inner: seq<Scope>)

  function ScopeEvents(sc: Scope): (es: seq<Event>)
    ensures forall i :: 0 <= i < |es| ==> es[i].OnUplevel? || es[i].OnDownlevel?
    decreases sc
  {
    var body := ScopesEvents(sc.inner);
    var es := [OnUplevel(sc.ltype, sc.size)] + body + [OnDownlevel(sc.ltype)];
    assert forall i :: 1 <= i < |es| - 1 ==> es[i] == body[i - 1];
    es
  }

  function ScopesEvents(scs: seq<Scope>): (es: seq<Event>)
    ensures forall i :: 0 <= i < |es| ==> es[i].OnUplevel? || es[i].OnDownlevel?
    decreases scs
  {
    if scs == [] then []
    else
      var a, b := ScopeEvents(scs[0]), ScopesEvents(scs[1..]);
      assert forall i :: |a| <= i < |a| + |b| ==> (a + b)[i] == b[i - |a|];
      a + b
  }

  /**
    A balanced nest of list_uplevel and list_downlevel calls, INCBIN and
    TIMES included, leaves the depth and the inhibit stack as it found them.
  */
  lemma {:induction false} ScopeRestores(s: State, sc: Scope)
    requires Inv(s)
    ensures var r := Run(s, ScopeEvents(sc));
      r.level == s.level && r.stack == s.stack && r.listp == s.listp
    decreases sc
  {
    var u := ListUplevel(s, sc.ltype, sc.size);
    UplevelKeeps(s, sc.ltype, sc.size);
    ScopesRestore(u, sc.inner);
    RunSplit(s, OnUplevel(sc.ltype, sc.size), ScopesEvents(sc.inner), OnDownlevel(sc.ltype));
    DownAfterUp(s, sc.ltype, sc.size, Run(u, ScopesEvents(sc.inner)));
  }

  /**
    list_downlevel after list_uplevel of the same kind, with anything in
    between that leaves the depth, the stack and the session flag alone.
  */
  lemma DownAfterUp(s: State, t: ListType, size: i64, v: State)
    requires Inv(s)
    requires var u := ListUplevel(s, t, size); v.level == u.level && v.stack == u.stack && v.listp == u.listp
    ensures var r := ListDownlevel(v, t); r.level == s.level && r.stack == s.stack && r.listp == s.listp
  {
    if s.listp && t in {IncBin, Times} {
      BulkDownAfterUp(s, t, size, v);
    } else if s.listp {
      ScopeDownAfterUp(s, t, size, v);
    }
  }

  lemma BulkDownAfterUp(s: State, t: ListType, size: i64, v: State)
    requires Inv(s) && s.listp && t in {IncBin, Times}
    requires var u := ListUplevel(s, t, size); v.level == u.level && v.stack == u.stack && v.listp == u.listp
    ensures var r := ListDownlevel(v, t); r.level == s.level && r.stack == s.stack && r.listp
  {
    BulkEnter(s, t, size);
  }

  lemma ScopeDownAfterUp(s: State, t: ListType, size: i64, v: State)
    requires Inv(s) && s.listp && t !in {IncBin, Times}
    requires var u := ListUplevel(s, t, size); v.level == u.level && v.stack == u.stack && v.listp == u.listp
    ensures var r := ListDownlevel(v, t); r.level == s.level && r.stack == s.stack
  {
    var u := ListUplevel(s, t, size);
    UpDownRestores(s, t, size);
    assert ListDownlevel(v, t).stack == ListDownlevel(u, t).stack;
  }

  lemma {:induction false} ScopesRestore(s: State, scs: seq<Scope>)
    requires Inv(s)
    ensures var r := Run(s, ScopesEvents(scs));
      r.level == s.level && r.stack == s.stack && r.listp == s.listp
    decreases scs
  {
    if scs != [] {
      var a, b := ScopeEvents(scs[0]), ScopesEvents(scs[1..]);
      RunAppend(s, a, b);
      ScopeRestores(s, scs[0]);
      RunKeeps(s, a);
      ScopesRestore(Run(s, a), scs[1..]);
    }
  }

  /** Running two sessions back to back is running their concatenation. */
  lemma {:induction false} RunAppend(s: State, a: seq<Event>, b: seq<Event>)
    requires forall i :: 0 <= i < |a| ==> EventOk(a[i])
    requires forall i :: 0 <= i < |b| ==> EventOk(b[i])
    ensures forall i :: 0 <= i < |a + b| ==> EventOk((a + b)[i])
    ensures Run(s, a + b) == Run(Run(s, a), b)
    decreases |a|
  {
    assert forall i :: 0 <= i < |a + b| ==> (a + b)[i] == if i < |a| then a[i] else b[i - |a|];
    if a != [] {
      assert (a + b)[0] == a[0] && (a + b)[1..] == a[1..] + b;
      RunAppend(Step(s, a[0]), a[1..], b);
    } else {
      assert a + b == b;
    }
  }

  /** The three parts of one scope's session. */
  lemma RunSplit(s: State, up: Event, body: seq<Event>, down: Event)
    requires up.OnUplevel? && down.OnDownlevel?
    requires forall i :: 0 <= i < |body| ==> EventOk(body[i])
    ensures forall i :: 0 <= i < |[up] + body + [down]| ==> EventOk(([up] + body + [down])[i])
    ensures Run(s, [up] + body + [down]) == Step(Run(Step(s, up), body), down)
  {
    RunAppend(s, [up], body);
    RunAppend(s, [up] + body, [down]);
    assert Run(s, [up]) == Step(s, up) by {
      assert [up][1..] == [];
    }
    assert Run(Run(s, [up] + body), [down]) == Step(Run(s, [up] + body), down) by {
      assert [down][1..] == [];
    }
  }

  /** An include inside an inhibiting scope pushes a frame that does not inhibit. */
  lemma IncludeUnderInhibition(s: State, size: i64)
    requires s.listp && TopInhibits(s)
    ensures var r := ListUplevel(s, Include, size);
      r.level == s.level + 1 && r.stack == [Frame(s.level + 1, false)] + s.stack
  {
  }

  /** A do-not-list macro pushes an inhibiting frame, so its first LIST_MACRO line is dropped. */
  lemma NolistMacroDropsMacroLine(s: State, size: i64, lineno: i32, line: string, nolist: bool)
    requires s.listp
    ensures var r := ListUplevel(s, MacroNolist, size);
      && TopInhibits(r) && r.stack[0].level == s.level + 1
      && ListLine(r, Macro, lineno, line, nolist) == r
  {
  }

  // ---------------------------------------------------------------------
  // list_cleanup

  /**
    list_cleanup in any state of a session frees the inhibit stack and
    writes the pending row and then every queued diagnostic, in order,
    leaving nothing pending; outside a session it does nothing.
  */
  lemma CleanupFlushes(s: State)
    ensures !s.listp ==> ListCleanup(s) == s
    ensures s.listp ==> var r := ListCleanup(s);
      && r.out == s.out + EmitRows(s)
      && r.stack == [] && !r.linep && r.run == "" && r.errors == []
  {
    if s.listp {
      var s0 := s.(stack := []);
      assert RowText(s0) == RowText(s);
      ErrorRowsSameFrame(s, s0, s.errors);
    }
  }

  // ---------------------------------------------------------------------
  // list_error

  /**
    A diagnostic is dropped without a listing file; below fatal it is
    queued behind the others.
  */
  lemma ErrorQueue(s: State, severity: bv32, text: string)
    ensures !s.hasFile ==> ListError(s, severity, text) == s
    ensures s.hasFile && SeverityIndex(severity) < ERR_FATAL ==>
      ListError(s, severity, text) == s.(errors := s.errors + [Diagnostic(severity, text)])
  {
  }

  /** An ordinary error (severity 4, nonfatal) is queued, not written: the pending row stays open. */
  lemma NonfatalQueued(s: State, text: string)
    requires s.hasFile
    ensures ListError(s, 4, text) == s.(errors := s.errors + [Diagnostic(4, text)])
    ensures ListError(s, 4, text).out == s.out && ListError(s, 4, text).linep == s.linep
  {
    ErrorQueue(s, 4, text);
  }

  /**
    At fatal severity or above the pending row and every queued diagnostic
    are flushed at once, this one last, and a cleanup right after writes
    nothing more.
  */
  lemma FatalFlushes(s: State, severity: bv32, text: string)
    requires s.hasFile && SeverityIndex(severity) >= ERR_FATAL
    ensures var r := ListError(s, severity, text);
      && r.errors == [] && !r.linep && r.run == ""
      && |r.out| > |s.out| && r.out[..|s.out|] == s.out
      && EndsWith(r.out, ErrorRow(s, Diagnostic(severity, text)))
      && ListCleanup(r).out == r.out
  {
    var d := Diagnostic(severity, text);
    var s1 := s.(errors := s.errors + [d]);
    EmitLast(s1);
    assert ErrorRow(s1, d) == ErrorRow(s, d);
    EmitQuiet(ListError(s, severity, text).(stack := []));
  }

  /** The last element of `t` is `x`. */
  predicate EndsWith(t: seq<string>, x: string)
  {
    t != [] && t[|t| - 1] == x
  }

  /** The last row list_emit writes is that of the last queued diagnostic. */
  lemma EmitLast(s: State)
    requires s.errors != []
    ensures |ListEmit(s).out| > |s.out| && ListEmit(s).out[..|s.out|] == s.out
    ensures EndsWith(ListEmit(s).out, ErrorRow(s, s.errors[|s.errors| - 1]))
  {
    LastOfAppend(ListEmit(s).out, s.out, LineRow(s), ErrorRows(s, s.errors));
    LastErrorRow(s, s.errors);
  }

  lemma LastOfAppend(t: seq<string>, a: seq<string>, b: seq<string>, c: seq<string>)
    requires t == a + (b + c) && c != []
    ensures |t| > |a| && t[..|a|] == a && t[|t| - 1] == c[|c| - 1]
  {
  }

  lemma LastErrorRow(s: State, ds: seq<Diagnostic>)
    requires ds != []
    ensures ErrorRows(s, ds)[|ErrorRows(s, ds)| - 1] == ErrorRow(s, ds[|ds| - 1])
  {
  }

  /** With nothing pending, list_emit writes nothing. */
  lemma EmitQuiet(s: State)
    requires !s.linep && s.run == "" && s.errors == []
    ensures ListEmit(s).out == s.out
  {
    assert EmitRows(s) == [];
  }

  // ---------------------------------------------------------------------
  // The invariant

  lemma OutKeeps(s: State, offset: int, tok: string)
    requires Inv(s) && |tok| <= MAX_TOKEN
    ensures Inv(ListOut(s, offset, tok))
    ensures var r := ListOut(s, offset, tok);
      r.stack == s.stack && r.level == s.level && r.suppress == s.suppress && r.listp == s.listp
  {
    OutSplit(s, offset, tok);
  }

  lemma RawKeeps(s: State, offset: int, size: nat, bytes: seq<byte>)
    requires Inv(s)
    ensures Inv(OutRaw(s, offset, size, bytes))
    ensures var r := OutRaw(s, offset, size, bytes);
      r.stack == s.stack && r.level == s.level && r.suppress == s.suppress && r.listp == s.listp
  {
    var s1 := if size == 0 && s.run == "" then s.(offset := Trunc32(offset)) else s;
    OutBytesKeeps(s1, offset, bytes);
  }

  lemma OutputKeeps(s: State, d: OutData, nolist: bool)
    requires Inv(s) && WellFormed(d)
    ensures Inv(ListOutput(s, d, nolist))
    ensures var r := ListOutput(s, d, nolist);
      r.stack == s.stack && r.level == s.level && r.suppress == s.suppress && r.listp == s.listp
  {
    if s.listp && s.suppress == 0 && !nolist {
      match d.otype
      case ZeroData =>
        if d.size > 16 {
          OutKeeps(s, d.offset, ZeroToken(d.size));
        } else {
          RawKeeps(s, d.offset, d.size, Zeros(d.size));
        }
      case RawData => RawKeeps(s, d.offset, d.size, d.data);
      case Address => OutKeeps(s, d.offset, AddressToken('[', ']', d.toffset, d.size));
      case Segment => OutKeeps(s, d.offset, SegmentToken(d.size));
      case RelAddr => OutKeeps(s, d.offset, AddressToken('(', ')', d.toffset, d.size));
      case Reserve => OutKeeps(s, d.offset, ReserveToken(d.size));
    }
  }

  lemma LineKeeps(s: State, t: ListType, lineno: i32, line: string, nolist: bool)
    requires Inv(s)
    ensures Inv(ListLine(s, t, lineno, line, nolist))
  {
    if s.listp && !nolist && !(TopInhibits(s) && t == Macro) {
      var s1 := if TopInhibits(s) then s.(stack := s.stack[1..]) else s;
      if TopInhibits(s) {
        TailOrdered(s.stack, s.level);
      }
      var e := ListEmit(s1);
      assert ListLine(s, t, lineno, line, nolist)
        == e.(lineno := if lineno >= 0 then lineno else e.lineno, linep := true, line := Truncated(line), levelE := e.level);
    }
  }

  /** Popping the top frame keeps the stack ordered. */
  lemma TailOrdered(stack: seq<Frame>, level: int)
    requires StackOrdered(stack, level) && stack != []
    ensures StackOrdered(stack[1..], level)
  {
    var st := stack[1..];
    forall i, j | 0 <= i < j < |st| ensures st[i].level > st[j].level {
      assert st[i] == stack[i + 1] && st[j] == stack[j + 1];
    }
  }

  lemma UplevelKeeps(s: State, t: ListType, size: i64)
    requires Inv(s)
    ensures Inv(ListUplevel(s, t, size))
  {
    if s.listp && t in {IncBin, Times} {
      BulkKeeps(s, t, size);
    } else if s.listp {
      ScopeKeeps(s, t, size);
    }
  }

  lemma BulkKeeps(s: State, t: ListType, size: i64)
    requires Inv(s) && s.listp && t in {IncBin, Times}
    ensures Inv(ListUplevel(s, t, size))
  {
    var tok := if t == IncBin then BinToken(size) else RepToken(size);
    var s0 := s.(suppress := s.suppress | (if t == IncBin then 1 else 2));
    assert ListUplevel(s, t, size) == ListOut(s0, s.offset, tok);
    OutKeeps(s0, s.offset, tok);
  }

  lemma ScopeKeeps(s: State, t: ListType, size: i64)
    requires Inv(s) && s.listp && t !in {IncBin, Times}
    ensures Inv(ListUplevel(s, t, size))
  {
    var r := ListUplevel(s, t, size);
    assert r == s.(level := s.level + 1, stack := r.stack);
    DeeperKeeps(s.stack, s.level);
    if r.stack != s.stack {
      PushKeeps(s.stack, s.level, t == MacroNolist);
    }
  }

  /** A frame pushed one level deeper than every frame keeps the stack ordered. */
  lemma PushKeeps(stack: seq<Frame>, level: int, inhibiting: bool)
    requires StackOrdered(stack, level)
    ensures StackOrdered([Frame(level + 1, inhibiting)] + stack, level + 1)
  {
    var st := [Frame(level + 1, inhibiting)] + stack;
    forall i, j | 0 <= i < j < |st| ensures st[i].level > st[j].level {
      assert st[j] == stack[j - 1];
      if i > 0 {
        assert st[i] == stack[i - 1];
      }
    }
  }

  lemma DeeperKeeps(stack: seq<Frame>, level: int)
    requires StackOrdered(stack, level)
    ensures StackOrdered(stack, level + 1)
  {
  }

  lemma DownlevelKeeps(s: State, t: ListType)
    requires Inv(s)
    ensures Inv(ListDownlevel(s, t))
  {
    if s.listp && t !in {IncBin, Times} {
      DownlevelPops(s, t);
      var r := ListDownlevel(s, t);
      assert Decreasing(r.stack) by {
        var k := |s.stack| - |r.stack|;
        forall i, j | 0 <= i < j < |r.stack| ensures r.stack[i].level > r.stack[j].level {
          assert r.stack[i] == s.stack[k + i] && r.stack[j] == s.stack[k + j];
        }
      }
      PopAboveExact(s.stack, r.level);
    }
  }

  /** Every entry point keeps the invariant. */
  lemma StepKeeps(s: State, e: Event)
    requires Inv(s) && EventOk(e)
    ensures Inv(Step(s, e))
  {
    match e
    case OnInit(fname, openOk) =>
    case OnCleanup =>
    case OnOutput(d, nolist) => OutputKeeps(s, d, nolist);
    case OnLine(t, n, line, nolist) => LineKeeps(s, t, n, line, nolist);
    case OnUplevel(t, size) => UplevelKeeps(s, t, size);
    case OnDownlevel(t) => DownlevelKeeps(s, t);
    case OnError(sev, text) =>
    case OnSetOffset(offset) =>
  }

  /** The invariant holds through any session. */
  lemma {:induction false} RunKeeps(s: State, es: seq<Event>)
    requires Inv(s) && forall i :: 0 <= i < |es| ==> EventOk(es[i])
    ensures Inv(Run(s, es))
    decreases |es|
  {
    if es != [] {
      StepKeeps(s, es[0]);
      RunKeeps(Step(s, es[0]), es[1..]);
    }
  }

  // ---------------------------------------------------------------------
  // Sessions

  predicate OpensFile(e: Event)
  {
    e.OnInit? && e.fname != "" && e.openOk
  }

  /** With no session and no file, no call writes anything until a listing file is opened. */
  lemma {:induction false} DisabledIsSilent(s: State, es: seq<Event>)
    requires !s.listp && !s.hasFile
    requires forall i :: 0 <= i < |es| ==> EventOk(es[i]) && !OpensFile(es[i])
    ensures Run(s, es).out == s.out && !Run(s, es).listp && !Run(s, es).hasFile
    decreases |es|
  {
    if es != [] {
      var s1 := Step(s, es[0]);
      assert s1.out == s.out && !s1.listp && !s1.hasFile;
      DisabledIsSilent(s1, es[1..]);
    }
  }

  /** A run that starts with list_init and no file name produces no listing at all. */
  lemma NoListingFile(openOk: bool, es: seq<Event>)
    requires forall i :: 0 <= i < |es| ==> EventOk(es[i]) && !OpensFile(es[i])
    ensures Run(ProgramStart(), [OnInit("", openOk)] + es).out == []
  {
    var all := [OnInit("", openOk)] + es;
    assert all[1..] == es;
    DisabledIsSilent(ListInit(ProgramStart(), "", openOk), es);
  }

  /** The state after list_init("out.lst") and the first line of source. */
  lemma SessionFirstLine()
    ensures ListLine(ListInit(ProgramStart(), "out.lst", true), Read, 1, "mov eax, 1", false)
      == State(true, true, "mov eax, 1", true, "", 0, 1, 0, 0, 0, [], [], [])
  {
    var s0 := ListInit(ProgramStart(), "out.lst", true);
    assert TopInhibits(s0);
    var e := s0.(stack := []);
    assert EmitRows(e) == [];
  }

  /** The row `mov eax, 1` assembled at offset 0 on line 1 produces. */
  lemma MovEaxRow()
    ensures RowText(State(true, true, "mov eax, 1", true, "B801000000", 0, 1, 0, 0, 0, [], [], []))
      == "     1 00000000 B801000000              mov eax, 1"
  {
    LineNumberOne();
    MovEaxData();
    MovEaxJoin();
  }
  lemma LineNumberOne()
    ensures LineNumberField(1) == "     1"
  {
    assert Decimal(1) == "1";
    assert Repeat(' ', 5) == "     ";
  }
  lemma MovEaxData()
    ensures DataField(State(true, true, "mov eax, 1", true, "B801000000", 0, 1, 0, 0, 0, [], [], []))
      == "00000000 B801000000         "
  {
    Hex8Zero();
    PadRun();
    JoinOffset();
  }
  lemma JoinOffset()
    ensures "00000000" + " " + "B801000000         " == "00000000 B801000000         "
  {
    assert "00000000" + " " == "00000000 ";
  }
  lemma PadRun()
    ensures PadRight("B801000000", 19) == "B801000000         "
  {
    assert Repeat(' ', 9) == "         ";
  }
  lemma Hex8Zero()
    ensures Hex8(0) == "00000000"
  {
    assert Hex(0) == "0";
    assert Repeat('0', 7) == "0000000";
  }
  lemma MovEaxJoin()
    ensures "     1" + " " + "00000000 B801000000         " + "    " + " mov eax, 1"
      == "     1 00000000 B801000000              mov eax, 1"
  {
    assert "     1" + " " == "     1 ";
    JoinData();
    assert "     1 00000000 B801000000         " + "    " == "     1 00000000 B801000000             ";
  }
  lemma JoinData()
    ensures "     1 " + "00000000 B801000000         " == "     1 00000000 B801000000         "
  {
  }

  /**
    One line of five bytes: init, the line, the bytes, cleanup. The initial
    inhibiting frame is popped by the line, and one row results, with the
    bytes concatenated without separators.
  */
  lemma OneLineSession()
    ensures Run(ProgramStart(),
      [ OnInit("out.lst", true),
        OnLine(Read, 1, "mov eax, 1", false),
        OnOutput(OutData(RawData, 0, 5, [0xB8, 0x01, 0x00, 0x00, 0x00], 0), false),
        OnCleanup ]).out
      == ["     1 00000000 B801000000              mov eax, 1"]
  {
    var e0, e1 := OnInit("out.lst", true), OnLine(Read, 1, "mov eax, 1", false);
    var e2 := OnOutput(OutData(RawData, 0, 5, [0xB8, 0x01, 0x00, 0x00, 0x00], 0), false);
    var s1 := State(true, true, "mov eax, 1", true, "", 0, 1, 0, 0, 0, [], [], []);
    var s2 := State(true, true, "mov eax, 1", true, "B801000000", 0, 1, 0, 0, 0, [], [], []);
    RunFour(ProgramStart(), e0, e1, e2, OnCleanup);
    SessionFirstLine();
    assert Step(Step(ProgramStart(), e0), e1) == s1;
    SessionOutputStep();
    assert Step(s1, e2) == s2;
    SessionCleanupStep();
    assert Step(s2, OnCleanup).out == ["     1 00000000 B801000000              mov eax, 1"];
  }

  /** A session of four events is their four steps in order. */
  lemma RunFour(s: State, e0: Event, e1: Event, e2: Event, e3: Event)
    requires EventOk(e0) && EventOk(e1) && EventOk(e2) && EventOk(e3)
    ensures Run(s, [e0, e1, e2, e3]) == Step(Step(Step(Step(s, e0), e1), e2), e3)
  {
    var s1 := Step(s, e0);
    var s2 := Step(s1, e1);
    var s3 := Step(s2, e2);
    assert [e0, e1, e2, e3][1..] == [e1, e2, e3];
    assert [e1, e2, e3][1..] == [e2, e3];
    assert [e2, e3][1..] == [e3];
    assert Run(s3, [e3]) == Step(s3, e3);
    assert Run(s2, [e2, e3]) == Run(s3, [e3]);
    assert Run(s1, [e1, e2, e3]) == Run(s2, [e2, e3]);
  }

  /** The output step of the one-line session stores the five bytes' hex. */
  lemma SessionOutputStep()
    ensures ListOutput(State(true, true, "mov eax, 1", true, "", 0, 1, 0, 0, 0, [], [], []),
      OutData(RawData, 0, 5, [0xB8, 0x01, 0x00, 0x00, 0x00], 0), false)
      == State(true, true, "mov eax, 1", true, "B801000000", 0, 1, 0, 0, 0, [], [], [])
  {
    var s1 := State(true, true, "mov eax, 1", true, "", 0, 1, 0, 0, 0, [], [], []);
    MovEaxBytes();
    OutBytesFit(s1, 0, [0xB8, 0x01, 0x00, 0x00, 0x00]);
  }

  /** The cleanup step of the one-line session writes its one row. */
  lemma SessionCleanupStep()
    ensures ListCleanup(State(true, true, "mov eax, 1", true, "B801000000", 0, 1, 0, 0, 0, [], [], [])).out
      == ["     1 00000000 B801000000              mov eax, 1"]
  {
    MovEaxRow();
  }

  /** The five bytes of `mov eax, 1` in hex: B8 01 00 00 00. */
  lemma MovEaxBytes()
    ensures HexBytes([0xB8, 0x01, 0x00, 0x00, 0x00]) == "B801000000"
  {
    var bs: seq<byte> := [0xB8, 0x01, 0x00, 0x00, 0x00];
    HexPairs();
    ThreeZeroBytes();
    assert bs[1..][1..] == [0x00, 0x00, 0x00];
    assert HexBytes(bs[1..]) == "01" + "000000" == "01000000";
    assert HexBytes(bs) == "B8" + "01000000";
  }

  lemma HexPairs()
    ensures HexByte(0xB8) == "B8" && HexByte(0x01) == "01" && HexByte(0x00) == "00"
  {
  }

  lemma ThreeZeroBytes()
    ensures HexBytes([0x00, 0x00, 0x00]) == "000000"
  {
    var bs: seq<byte> := [0x00, 0x00, 0x00];
    assert HexByte(0x00) == "00";
    assert bs[1..][1..] == [0x00];
    assert HexBytes(bs[1..][1..]) == "00";
    assert HexBytes(bs[1..]) == "0000";
  }
}
