/**
  Sequences of list_out calls: how the byte run is cut into rows. A run
  that would pass LIST_HEXBIT characters is closed with `-` and flushed by
  list_emit; the flushed runs without their `-` marks, followed by the run
  still pending, spell the tokens in the order they were listed
  (SplitText); and each run is a block of consecutive whole tokens, shown
  at the offset of the token that opened it (SplitOffsets).
*/
module Splits {
  import opened Format
  import opened Engine
  import opened Properties

  /** list_out applied to each token in turn, the k-th at offset `offs[k]`. */
  function OutTokens(s: State, offs: seq<int>, toks: seq<string>): State
    requires |offs| == |toks|
    decreases |toks|
  {
    if toks == [] then s else OutTokens(ListOut(s, offs[0], toks[0]), offs[1..], toks[1..])
  }

  /** The states list_emit flushes during OutTokens, each with its run already closed by `-`. */
  function Flushed(s: State, offs: seq<int>, toks: seq<string>): seq<State>
    requires |offs| == |toks|
    decreases |toks|
  {
    if toks == [] then []
    else
      (if |s.run| + |toks[0]| > LIST_HEXBIT then [s.(run := s.run + "-")] else [])
      + Flushed(ListOut(s, offs[0], toks[0]), offs[1..], toks[1..])
  }

  /** The first call of the sequence, taken off the front of `Flushed`. */
  lemma FlushedStep(s: State, offs: seq<int>, toks: seq<string>)
    requires |offs| == |toks| && toks != []
    ensures |s.run| + |toks[0]| > LIST_HEXBIT ==>
              Flushed(s, offs, toks) == [s.(run := s.run + "-")] + Flushed(ListOut(s, offs[0], toks[0]), offs[1..], toks[1..])
    ensures |s.run| + |toks[0]| <= LIST_HEXBIT ==>
              Flushed(s, offs, toks) == Flushed(ListOut(s, offs[0], toks[0]), offs[1..], toks[1..])
  {
    var rest := Flushed(ListOut(s, offs[0], toks[0]), offs[1..], toks[1..]);
    assert [] + rest == rest;
  }

  /** The tokens' text, in order. */
  function Joined(toks: seq<string>): string
  {
    if toks == [] then "" else toks[0] + Joined(toks[1..])
  }

  /** A run without its closing `-`. */
  function Unmark(r: string): string
  {
    if r == "" then "" else r[..|r| - 1]
  }

  /** The flushed runs' text, without their closing `-` marks. */
  function Unmarked(fs: seq<State>): string
  {
    if fs == [] then "" else Unmark(fs[0].run) + Unmarked(fs[1..])
  }

  /** The rows the flushes write, in order. */
  function Written(fs: seq<State>): seq<string>
  {
    if fs == [] then [] else EmitRows(fs[0]) + Written(fs[1..])
  }

  // ---------------------------------------------------------------------
  // The rows written

  /** What a sequence of list_out calls writes is exactly the rows of its flushes. */
  lemma {:induction false} SplitRows(s: State, offs: seq<int>, toks: seq<string>)
    requires |offs| == |toks|
    ensures OutTokens(s, offs, toks).out == s.out + Written(Flushed(s, offs, toks))
    decreases |toks|
  {
    if toks != [] {
      var s1 := ListOut(s, offs[0], toks[0]);
      var rest := Flushed(s1, offs[1..], toks[1..]);
      OutSplit(s, offs[0], toks[0]);
      FlushedStep(s, offs, toks);
      SplitRows(s1, offs[1..], toks[1..]);
      if |s.run| + |toks[0]| > LIST_HEXBIT {
        var f0 := s.(run := s.run + "-");
        WrittenCons(f0, rest);
        RowsAssoc(s.out, EmitRows(f0), Written(rest));
      }
    }
  }

  lemma WrittenCons(f: State, fs: seq<State>)
    ensures Written([f] + fs) == EmitRows(f) + Written(fs)
  {
    assert ([f] + fs)[0] == f && ([f] + fs)[1..] == fs;
  }

  // ---------------------------------------------------------------------
  // The text of the runs

  /**
    No character is lost, duplicated or reordered: the flushed runs without
    their `-`, then the pending run, are the old run followed by the tokens;
    every flushed run ends with `-`.
  */
  lemma {:induction false} SplitText(s: State, offs: seq<int>, toks: seq<string>)
    requires |offs| == |toks|
    ensures Unmarked(Flushed(s, offs, toks)) + OutTokens(s, offs, toks).run == s.run + Joined(toks)
    ensures AllMarked(Flushed(s, offs, toks))
    decreases |toks|
  {
    if toks != [] {
      var s1 := ListOut(s, offs[0], toks[0]);
      var rest := Flushed(s1, offs[1..], toks[1..]);
      var last := OutTokens(s1, offs[1..], toks[1..]).run;
      OutSplit(s, offs[0], toks[0]);
      FlushedStep(s, offs, toks);
      SplitText(s1, offs[1..], toks[1..]);
      if |s.run| + |toks[0]| > LIST_HEXBIT {
        var f0 := s.(run := s.run + "-");
        UnmarkedCons(f0, rest);
        assert Unmark(f0.run) == s.run;
        Assoc(s.run, Unmarked(rest), last);
        Assoc(s.run, toks[0], Joined(toks[1..]));
        MarkedCons(f0, rest);
      } else {
        Assoc(s.run, toks[0], Joined(toks[1..]));
      }
    }
  }

  lemma UnmarkedCons(f: State, fs: seq<State>)
    ensures Unmarked([f] + fs) == Unmark(f.run) + Unmarked(fs)
  {
    assert ([f] + fs)[0] == f && ([f] + fs)[1..] == fs;
  }

  /** A flushed run: closed by `-`. */
  predicate Marked(f: State)
  {
    f.run != "" && f.run[|f.run| - 1] == '-'
  }

  predicate AllMarked(fs: seq<State>)
  {
    forall i :: 0 <= i < |fs| ==> Marked(fs[i])
  }

  lemma MarkedCons(f: State, fs: seq<State>)
    requires Marked(f) && AllMarked(fs)
    ensures AllMarked([f] + fs)
  {
    forall i | 0 < i < |[f] + fs|
      ensures ([f] + fs)[i] == fs[i - 1]
    {
    }
  }

  // ---------------------------------------------------------------------
  // Only the first flush carries the pending line and diagnostics

  /** A flush with nothing pending but its run: it writes one row, that run's. */
  predicate Quiet(f: State)
  {
    !f.linep && f.errors == [] && f.run != ""
  }

  lemma QuietWrites(f: State)
    requires Quiet(f)
    ensures EmitRows(f) == [RowText(f)]
  {
    assert LineRow(f) == [RowText(f)];
  }

  predicate AllQuiet(fs: seq<State>)
  {
    forall i :: 0 <= i < |fs| ==> Quiet(fs[i])
  }

  /** The line number, the depths and the line text of `s`, unchanged. */
  predicate SameLine(f: State, s: State)
  {
    f.lineno == s.lineno && f.level == s.level && f.levelE == s.levelE && f.line == s.line
  }

  predicate AllSameLine(fs: seq<State>, s: State)
  {
    forall i :: 0 <= i < |fs| ==> SameLine(fs[i], s)
  }

  /**
    The first flush writes the pending line row and the queued diagnostics;
    every later one has nothing pending but its run, so it writes a single
    row holding that run; all of them show the line number, depths and
    text of `s`.
  */
  lemma {:induction false} SplitQuiet(s: State, offs: seq<int>, toks: seq<string>)
    requires |offs| == |toks|
    ensures var fs := Flushed(s, offs, toks); fs != [] ==> AllQuiet(fs[1..])
    ensures AllSameLine(Flushed(s, offs, toks), s)
    decreases |toks|
  {
    if toks != [] {
      var s1 := ListOut(s, offs[0], toks[0]);
      var rest := Flushed(s1, offs[1..], toks[1..]);
      OutSplit(s, offs[0], toks[0]);
      FlushedStep(s, offs, toks);
      assert SameLine(s1, s);
      SplitQuiet(s1, offs[1..], toks[1..]);
      if |s.run| + |toks[0]| > LIST_HEXBIT {
        var f0 := s.(run := s.run + "-");
        QuietStays(s1, offs[1..], toks[1..]);
        assert ([f0] + rest)[1..] == rest;
        SameLineCons(f0, rest, s, s1);
      } else {
        SameLineTrans(rest, s, s1);
      }
    }
  }

  /** Once nothing but the run is pending, every flush writes its run's row alone. */
  lemma {:induction false} QuietStays(s: State, offs: seq<int>, toks: seq<string>)
    requires |offs| == |toks| && !s.linep && s.errors == []
    ensures AllQuiet(Flushed(s, offs, toks))
    decreases |toks|
  {
    if toks != [] {
      var s1 := ListOut(s, offs[0], toks[0]);
      var rest := Flushed(s1, offs[1..], toks[1..]);
      OutSplit(s, offs[0], toks[0]);
      FlushedStep(s, offs, toks);
      QuietStays(s1, offs[1..], toks[1..]);
      if |s.run| + |toks[0]| > LIST_HEXBIT {
        var f0 := s.(run := s.run + "-");
        QuietCons(f0, rest);
      }
    }
  }

  lemma QuietCons(f: State, fs: seq<State>)
    requires Quiet(f) && AllQuiet(fs)
    ensures AllQuiet([f] + fs)
  {
    forall i | 0 < i < |[f] + fs|
      ensures ([f] + fs)[i] == fs[i - 1]
    {
    }
  }

  lemma SameLineCons(f: State, fs: seq<State>, s: State, s1: State)
    requires SameLine(f, s) && SameLine(s1, s) && AllSameLine(fs, s1)
    ensures AllSameLine([f] + fs, s)
  {
    forall i | 0 < i < |[f] + fs|
      ensures ([f] + fs)[i] == fs[i - 1]
    {
    }
  }

  lemma SameLineTrans(fs: seq<State>, s: State, s1: State)
    requires SameLine(s1, s) && AllSameLine(fs, s1)
    ensures AllSameLine(fs, s)
  {
  }

  // ---------------------------------------------------------------------
  // Which tokens make up each run, and which offset it shows

  /**
    Where a run begins and ends. `closer` is the call whose token did not
    fit, so the run was flushed there. `opener` is the call whose offset the
    run shows: the last call at which the run was empty, since list_out
    records the offset whenever it appends to an empty run. An opener of -1
    means no call emptied the run: it is the run from before the calls, at
    the offset from before the calls.
  */
  datatype Span = Span(opener: int, closer: nat)

  /** The spans of the runs flushed by the calls from `p` on; `o` is the opener of the run pending at `p`. */
  function Spans(s: State, offs: seq<int>, toks: seq<string>, p: nat, o: int): seq<Span>
    requires |offs| == |toks| && p <= |toks|
    decreases |toks| - p
  {
    if p == |toks| then []
    else
      (if |s.run| + |toks[p]| > LIST_HEXBIT then [Span(o, p)] else [])
      + Spans(ListOut(s, offs[p], toks[p]), offs, toks, p + 1, NextOpener(s, toks[p], p, o))
  }

  /** The opener of the run left pending after the calls from `p` on. */
  function Opener(s: State, offs: seq<int>, toks: seq<string>, p: nat, o: int): int
    requires |offs| == |toks| && p <= |toks|
    decreases |toks| - p
  {
    if p == |toks| then o
    else Opener(ListOut(s, offs[p], toks[p]), offs, toks, p + 1, NextOpener(s, toks[p], p, o))
  }

  /** Call `p` opens a new run when it flushes the old one or finds the run empty. */
  function NextOpener(s: State, tok: string, p: nat, o: int): int
  {
    if |s.run| + |tok| > LIST_HEXBIT || s.run == "" then p else o
  }

  /** Call `p` becomes the last flush when its token does not fit. */
  function NextPrev(s: State, tok: string, p: nat, prev: int): int
  {
    if |s.run| + |tok| > LIST_HEXBIT then p else prev
  }

  /** The closer of the last span, or `prev` when there is none. */
  function LastCloser(sp: seq<Span>, prev: int): int
  {
    if sp == [] then prev else sp[|sp| - 1].closer
  }

  /**
    The text of a run opened at `o` that has reached call `c`: the whole
    tokens from the opener up to `c`; or, for opener -1, the run from
    before the calls followed by every token before `c`.
  */
  function SpanRun(s0: State, toks: seq<string>, o: int, c: nat): string
    requires -1 <= o <= c <= |toks|
    decreases c
  {
    if c == 0 || c == o then (if o < 0 then s0.run else "")
    else SpanRun(s0, toks, o, c - 1) + toks[c - 1]
  }

  /** A run's text is the tokens it was opened with, joined: `Joined(toks[o..c])`, after the old run for opener -1. */
  lemma {:induction false} SpanRunJoined(s0: State, toks: seq<string>, o: int, c: nat)
    requires -1 <= o <= c <= |toks|
    ensures o < 0 ==> SpanRun(s0, toks, o, c) == s0.run + Joined(toks[..c])
    ensures o >= 0 ==> SpanRun(s0, toks, o, c) == Joined(toks[o..c])
    decreases c
  {
    if c == 0 || c == o {
      assert toks[..0] == [] && toks[c..c] == [];
    } else {
      SpanRunJoined(s0, toks, o, c - 1);
      if o < 0 {
        JoinedPrefixSnoc(toks, c - 1);
        Assoc(s0.run, Joined(toks[..c - 1]), toks[c - 1]);
      } else {
        JoinedSplit(toks, o, c - 1, c);
        JoinedOne(toks, c - 1);
      }
    }
  }

  /** A run opened at `a` is, at `c`, its text at `b` followed by the tokens from `b` on. */
  lemma {:induction false} SpanRunSplit(s0: State, toks: seq<string>, a: int, b: nat, c: nat)
    requires -1 <= a <= b <= c <= |toks|
    ensures SpanRun(s0, toks, a, c) == SpanRun(s0, toks, a, b) + SpanRun(s0, toks, b, c)
    decreases c
  {
    if c > b {
      SpanRunSplit(s0, toks, a, b, c - 1);
      Assoc(SpanRun(s0, toks, a, b), SpanRun(s0, toks, b, c - 1), toks[c - 1]);
    }
  }

  /** The offset a run opened at `o` shows: the opener's, or the one from before the calls. */
  function SpanOffset(s0: State, offs: seq<int>, o: int): int
    requires o < |offs|
  {
    if o < 0 then s0.offset else Trunc32(offs[o])
  }

  /** `run` and `offset` are those of the run opened at `o`, at call `c`. */
  predicate Opened(run: string, offset: int, s0: State, offs: seq<int>, toks: seq<string>, o: int, c: nat)
    requires |offs| == |toks|
  {
    -1 <= o < c <= |toks| && run == SpanRun(s0, toks, o, c) && offset == SpanOffset(s0, offs, o)
  }

  /** After its opener the run was never empty again before call `c`. */
  predicate StaysOpen(s0: State, toks: seq<string>, o: int, c: nat)
  {
    && (o < 0 ==> c == 0 || s0.run != "")
    && (0 <= o && o + 1 < c <= |toks| ==> toks[o] != "")
  }

  /** The run was empty at its opener: the run begun by the flush at `prev` (-1: no flush yet) was still empty there. */
  predicate OpensEmpty(s0: State, toks: seq<string>, prev: int, o: int)
  {
    && (o < 0 ==> prev < 0)
    && (0 <= o <= |toks| ==> -1 <= prev <= o && SpanRun(s0, toks, prev, o) == "")
  }

  /** State `s` has made the calls before `p`; its run opened at `o`, after the last flush at `prev`. */
  predicate Reached(s: State, s0: State, offs: seq<int>, toks: seq<string>, o: int, p: nat, prev: int)
    requires |offs| == |toks|
  {
    Opened(s.run, s.offset, s0, offs, toks, o, p) && StaysOpen(s0, toks, o, p) && OpensEmpty(s0, toks, prev, o) && -1 <= prev < p
  }

  /** Flush `f` closes the span `sp`, which opened after the flush at `prev`. */
  predicate SpanOK(f: State, s0: State, offs: seq<int>, toks: seq<string>, sp: Span, prev: int)
    requires |offs| == |toks|
  {
    && sp.closer < |toks|
    && Opened(Unmark(f.run), f.offset, s0, offs, toks, sp.opener, sp.closer)
    && StaysOpen(s0, toks, sp.opener, sp.closer)
    && OpensEmpty(s0, toks, prev, sp.opener)
  }

  /**
    The flushes `fs` close the spans `sp` in order: the first closes `sp[0]`,
    opened after the flush at `prev`, and each later one opens after the
    closer of the one before.
  */
  predicate AllSpansOK(fs: seq<State>, sp: seq<Span>, s0: State, offs: seq<int>, toks: seq<string>, prev: int)
    requires |offs| == |toks|
    decreases |fs|
  {
    && |sp| == |fs|
    && (fs != [] ==> SpanOK(fs[0], s0, offs, toks, sp[0], prev) && AllSpansOK(fs[1..], sp[1..], s0, offs, toks, sp[0].closer))
  }

  /**
    Every run is made of whole tokens and shows the offset of the token that
    opened it. The flushed runs close the spans `Spans(s, offs, toks, 0, -1)`
    in order; each, without its `-`, is exactly the tokens from its span's
    opener up to its closer, at the opener's offset (or the run and
    offset from before the calls, for opener -1). The opener is the last
    call at which the run was empty, and nothing but empty tokens lies
    between one run's closer and the next run's opener. The same holds of
    the run left pending, up to the last token. So a run that is only `-`
    shows the offset recorded last, which is stale.
  */
  lemma SplitOffsets(s: State, offs: seq<int>, toks: seq<string>)
    requires |offs| == |toks|
    ensures AllSpansOK(Flushed(s, offs, toks), Spans(s, offs, toks, 0, -1), s, offs, toks, -1)
    ensures Reached(OutTokens(s, offs, toks), s, offs, toks, Opener(s, offs, toks, 0, -1), |toks|,
                    LastCloser(Spans(s, offs, toks, 0, -1), -1))
  {
    assert offs[0..] == offs && toks[0..] == toks;
    assert toks[..0] == [];
    SpansFrom(s, offs, toks, 0, s, -1, -1);
    PendingFrom(s, offs, toks, 0, s, -1, -1);
  }

  lemma {:induction false} SpansFrom(s0: State, offs: seq<int>, toks: seq<string>, p: nat, s: State, o: int, prev: int)
    requires |offs| == |toks| && p <= |toks| && Reached(s, s0, offs, toks, o, p, prev)
    ensures AllSpansOK(Flushed(s, offs[p..], toks[p..]), Spans(s, offs, toks, p, o), s0, offs, toks, prev)
    decreases |toks| - p
  {
    if p == |toks| {
      assert toks[p..] == [];
    } else {
      var s1 := ListOut(s, offs[p], toks[p]);
      var o1 := NextOpener(s, toks[p], p, o);
      ReachedStep(s0, offs, toks, p, s, o, prev);
      SpansFrom(s0, offs, toks, p + 1, s1, o1, NextPrev(s, toks[p], p, prev));
      SpansStep(s, offs, toks, p, o);
      if |s.run| + |toks[p]| > LIST_HEXBIT {
        var f := s.(run := s.run + "-");
        FlushSpan(s0, offs, toks, p, s, o, prev);
        SpansCons(f, Flushed(s1, offs[p + 1..], toks[p + 1..]), Span(o, p), Spans(s1, offs, toks, p + 1, o1), s0, offs, toks, prev);
      }
    }
  }

  lemma {:induction false} PendingFrom(s0: State, offs: seq<int>, toks: seq<string>, p: nat, s: State, o: int, prev: int)
    requires |offs| == |toks| && p <= |toks| && Reached(s, s0, offs, toks, o, p, prev)
    ensures Reached(OutTokens(s, offs[p..], toks[p..]), s0, offs, toks, Opener(s, offs, toks, p, o), |toks|,
                    LastCloser(Spans(s, offs, toks, p, o), prev))
    decreases |toks| - p
  {
    if p == |toks| {
      assert offs[p..] == [] && toks[p..] == [];
    } else {
      var s1 := ListOut(s, offs[p], toks[p]);
      var o1 := NextOpener(s, toks[p], p, o);
      ReachedStep(s0, offs, toks, p, s, o, prev);
      PendingFrom(s0, offs, toks, p + 1, s1, o1, NextPrev(s, toks[p], p, prev));
      SpansStep(s, offs, toks, p, o);
      if |s.run| + |toks[p]| > LIST_HEXBIT {
        LastCloserCons(Span(o, p), Spans(s1, offs, toks, p + 1, o1), prev);
      }
    }
  }

  /** The run pending at call `p`, flushed there, closes the span (o, p). */
  lemma FlushSpan(s0: State, offs: seq<int>, toks: seq<string>, p: nat, s: State, o: int, prev: int)
    requires |offs| == |toks| && p < |toks| && Reached(s, s0, offs, toks, o, p, prev)
    ensures SpanOK(s.(run := s.run + "-"), s0, offs, toks, Span(o, p), prev)
  {
    assert Unmark(s.run + "-") == s.run;
  }

  /** One call keeps `Reached`, with the opener and last flush it leaves. */
  lemma ReachedStep(s0: State, offs: seq<int>, toks: seq<string>, p: nat, s: State, o: int, prev: int)
    requires |offs| == |toks| && p < |toks| && Reached(s, s0, offs, toks, o, p, prev)
    ensures Reached(ListOut(s, offs[p], toks[p]), s0, offs, toks, NextOpener(s, toks[p], p, o), p + 1, NextPrev(s, toks[p], p, prev))
  {
    if |s.run| + |toks[p]| > LIST_HEXBIT {
      ReachedFlush(s0, offs, toks, p, s, o, prev);
    } else if s.run == "" {
      ReachedFirst(s0, offs, toks, p, s, o, prev);
    } else {
      ReachedGrow(s0, offs, toks, p, s, o, prev);
    }
  }

  /** One call of the sequence, taken off the front. */
  lemma SpansStep(s: State, offs: seq<int>, toks: seq<string>, p: nat, o: int)
    requires |offs| == |toks| && p < |toks|
    ensures var s1 := ListOut(s, offs[p], toks[p]);
            var o1 := NextOpener(s, toks[p], p, o);
            if |s.run| + |toks[p]| > LIST_HEXBIT then
              && Flushed(s, offs[p..], toks[p..]) == [s.(run := s.run + "-")] + Flushed(s1, offs[p + 1..], toks[p + 1..])
              && Spans(s, offs, toks, p, o) == [Span(o, p)] + Spans(s1, offs, toks, p + 1, o1)
            else
              && Flushed(s, offs[p..], toks[p..]) == Flushed(s1, offs[p + 1..], toks[p + 1..])
              && Spans(s, offs, toks, p, o) == Spans(s1, offs, toks, p + 1, o1)
    ensures OutTokens(s, offs[p..], toks[p..]) == OutTokens(ListOut(s, offs[p], toks[p]), offs[p + 1..], toks[p + 1..])
    ensures Opener(s, offs, toks, p, o) == Opener(ListOut(s, offs[p], toks[p]), offs, toks, p + 1, NextOpener(s, toks[p], p, o))
  {
    assert offs[p..][0] == offs[p] && offs[p..][1..] == offs[p + 1..];
    assert toks[p..][0] == toks[p] && toks[p..][1..] == toks[p + 1..];
    if |s.run| + |toks[p]| <= LIST_HEXBIT {
      var s1 := ListOut(s, offs[p], toks[p]);
      assert [] + Flushed(s1, offs[p + 1..], toks[p + 1..]) == Flushed(s1, offs[p + 1..], toks[p + 1..]);
      assert [] + Spans(s1, offs, toks, p + 1, NextOpener(s, toks[p], p, o)) == Spans(s1, offs, toks, p + 1, NextOpener(s, toks[p], p, o));
    }
  }

  /** A call whose token does not fit: the token alone opens the next run, at its own offset. */
  lemma ReachedFlush(s0: State, offs: seq<int>, toks: seq<string>, p: nat, s: State, o: int, prev: int)
    requires |offs| == |toks| && p < |toks| && Reached(s, s0, offs, toks, o, p, prev)
    requires |s.run| + |toks[p]| > LIST_HEXBIT
    ensures Reached(ListOut(s, offs[p], toks[p]), s0, offs, toks, p, p + 1, p)
  {
    OutSplit(s, offs[p], toks[p]);
    assert SpanRun(s0, toks, p, p + 1) == "" + toks[p];
  }

  /** A call on an empty run: the token opens it, at its own offset. */
  lemma ReachedFirst(s0: State, offs: seq<int>, toks: seq<string>, p: nat, s: State, o: int, prev: int)
    requires |offs| == |toks| && p < |toks| && Reached(s, s0, offs, toks, o, p, prev)
    requires |s.run| + |toks[p]| <= LIST_HEXBIT && s.run == ""
    ensures Reached(ListOut(s, offs[p], toks[p]), s0, offs, toks, p, p + 1, prev)
  {
    OutSplit(s, offs[p], toks[p]);
    assert SpanRun(s0, toks, p, p + 1) == "" + toks[p];
    if o >= 0 {
      SpanRunSplit(s0, toks, prev, o, p);
    }
  }

  /** A call on a non-empty run that fits: the token is appended, the opener stays. */
  lemma ReachedGrow(s0: State, offs: seq<int>, toks: seq<string>, p: nat, s: State, o: int, prev: int)
    requires |offs| == |toks| && p < |toks| && Reached(s, s0, offs, toks, o, p, prev)
    requires |s.run| + |toks[p]| <= LIST_HEXBIT && s.run != ""
    ensures Reached(ListOut(s, offs[p], toks[p]), s0, offs, toks, o, p + 1, prev)
  {
    OutSplit(s, offs[p], toks[p]);
    assert SpanRun(s0, toks, o, p + 1) == SpanRun(s0, toks, o, p) + toks[p];
    if 0 <= o && o + 1 == p {
      assert SpanRun(s0, toks, o, p) == "" + toks[o];
    }
  }

  lemma SpansCons(f: State, fs: seq<State>, sp0: Span, sps: seq<Span>, s0: State, offs: seq<int>, toks: seq<string>, prev: int)
    requires |offs| == |toks|
    requires SpanOK(f, s0, offs, toks, sp0, prev) && AllSpansOK(fs, sps, s0, offs, toks, sp0.closer)
    ensures AllSpansOK([f] + fs, [sp0] + sps, s0, offs, toks, prev)
  {
    assert ([f] + fs)[1..] == fs && ([sp0] + sps)[1..] == sps;
  }

  lemma LastCloserCons(sp0: Span, sps: seq<Span>, prev: int)
    ensures LastCloser([sp0] + sps, prev) == LastCloser(sps, sp0.closer)
  {
    if sps != [] {
      assert ([sp0] + sps)[|[sp0] + sps| - 1] == sps[|sps| - 1];
    }
  }

  // ---------------------------------------------------------------------
  // Joined over slices

  lemma {:induction false} JoinedAppend(a: seq<string>, b: seq<string>)
    ensures Joined(a + b) == Joined(a) + Joined(b)
    decreases |a|
  {
    if a == [] {
      assert a + b == b;
    } else {
      assert (a + b)[0] == a[0] && (a + b)[1..] == a[1..] + b;
      JoinedAppend(a[1..], b);
      Assoc(a[0], Joined(a[1..]), Joined(b));
    }
  }

  lemma JoinedOne(toks: seq<string>, p: nat)
    requires p < |toks|
    ensures Joined(toks[p..p + 1]) == toks[p]
  {
    assert toks[p..p + 1] == [toks[p]] && [toks[p]][1..] == [];
  }

  lemma JoinedSplit(toks: seq<string>, a: nat, b: nat, c: nat)
    requires a <= b <= c <= |toks|
    ensures Joined(toks[a..c]) == Joined(toks[a..b]) + Joined(toks[b..c])
  {
    assert toks[a..c] == toks[a..b] + toks[b..c];
    JoinedAppend(toks[a..b], toks[b..c]);
  }

  lemma JoinedPrefixSplit(toks: seq<string>, b: nat, c: nat)
    requires b <= c <= |toks|
    ensures Joined(toks[..c]) == Joined(toks[..b]) + Joined(toks[b..c])
  {
    assert toks[..c] == toks[..b] + toks[b..c];
    JoinedAppend(toks[..b], toks[b..c]);
  }

  lemma JoinedPrefixSnoc(toks: seq<string>, p: nat)
    requires p < |toks|
    ensures Joined(toks[..p + 1]) == Joined(toks[..p]) + toks[p]
  {
    JoinedPrefixSplit(toks, p, p + 1);
    JoinedOne(toks, p);
  }

  // ---------------------------------------------------------------------
  // The byte loop is a sequence of list_out calls

  /** The `HEX` token of each byte. */
  function HexTokens(bytes: seq<byte>): (toks: seq<string>)
    ensures |toks| == |bytes|
    ensures forall i :: 0 <= i < |bytes| ==> toks[i] == HexByte(bytes[i])
  {
    seq(|bytes|, i requires 0 <= i < |bytes| => HexByte(bytes[i]))
  }

  /** Consecutive offsets from `offset`. */
  function Offsets(offset: int, n: nat): (offs: seq<int>)
    ensures |offs| == n && forall i :: 0 <= i < n ==> offs[i] == offset + i
  {
    seq(n, i => offset + i)
  }

  /** The byte loop of list_output lists byte k as its `HEX` token at offset + k. */
  lemma {:induction false} BytesAreTokens(s: State, offset: int, bytes: seq<byte>)
    ensures OutBytes(s, offset, bytes) == OutTokens(s, Offsets(offset, |bytes|), HexTokens(bytes))
    decreases |bytes|
  {
    if bytes != [] {
      var offs, toks := Offsets(offset, |bytes|), HexTokens(bytes);
      assert offs[1..] == Offsets(offset + 1, |bytes| - 1);
      assert toks[1..] == HexTokens(bytes[1..]);
      BytesAreTokens(ListOut(s, offset, HexByte(bytes[0])), offset + 1, bytes[1..]);
    }
  }
}
