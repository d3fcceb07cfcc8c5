# NASM listing engine in Dafny

This project models the listing-file generator of the Netwide Assembler
(`asm/listing.c`) and proves properties of it. The generator is a small state
machine over module statics:

- the pending source line `listline` and its flag `listlinep`;
- the byte run `listdata` and its start offset `listoffset`;
- the line number `listlineno`;
- the nesting depth `listlevel` and its per-row snapshot `listlevel_e`;
- the INCBIN/TIMES suppression mask `suppress`;
- the macro-inhibit stack `mistack`;
- the queued diagnostics `list_errors`.

The assembler drives it through eight entry points: `list_init`, `list_output`,
`list_line`, `list_uplevel`, `list_downlevel`, `list_error`, `list_set_offset`
and `list_cleanup`. Each one updates the statics and may write rows to the
listing file.

The project has five modules:

- `format.dfy` (module `Format`): the pure renderers. These are the `HEX` macro,
  the `%X`, `%08X`, `%d` and `%6d` numerals, `%-*s` padding, the placeholder
  tokens (`<zero …>`, `<res …>`, `<bin …>`, `<rep …>`), the segment and address
  tokens, and the truncation of a 64-bit offset to the `int32_t` `listoffset`.
  Each renderer is specified by what its text reads back as.
- `engine.dfy` (module `Engine`): the statics as a value `State`, and one function
  per entry point and helper (`ListEmit`, `ListOut`, `ListOutput`, `ListLine`,
  `ListUplevel`, `ListDownlevel`, `ListError`, `ListSetOffset`, `ListInit`,
  `ListCleanup`). It also holds the invariant `Inv` and a session `Run` over a
  sequence of entry-point calls. The rows written to the listing file are the
  sequence `out`.
  Each row is one line of the file, without its newline.
- `properties.dfy` (module `Properties`): the lemmas about these functions:
  - how the run is split, and the token shapes;
  - suppression, one-shot inhibition and the accepted line;
  - the stack invariant and its preservation by every entry point;
  - flushing and the diagnostic rows;
  - the column layout of the rows;
  - a complete one-line session worked out to its exact text;
  - balanced nests of scopes and the cleanup flush.
- `splits.dfy` (module `Splits`): a sequence of `list_out` calls. It shows how
  the byte run is cut into rows, that no character is lost or reordered, and
  which offset each row shows.
- `listing.dfy` (module `Listing`): class `ListingEngine`.
  - The statics are its fields. `listline` (1024 characters) and `listdata`
    (80 characters) are arrays, with the position of their NUL kept beside them.
  - Each entry point is a method that updates the fields in place, using the
    C code's loops (`strcat`, `strlcpy`, the byte loop, the address loop, the
    fill loop, the pop loops).
  - Each entry-point method is proved to keep `Valid()` and to leave
    `Abs() == F(old(Abs()), …)`, where `F` is the function of module `Engine`.
    So every lemma about `F` also holds of the in-place engine. The helper
    methods below them have their own contracts on the arrays and fields.
  - `Fits()` says the arrays have their C sizes and that each holds its NUL at
    the recorded position (`listline[lineLen]`, `listdata[dataLen]`).

Conventions of the model:

- `listp` is the flag `listp`. `hasFile` says whether `listfp` is non-NULL.
- A diagnostic is its severity word together with its already formatted text.
- `user_nolist` is a parameter of `Output` and `Line`.
- The success of `nasm_open_write` is the parameter `openOk` of `Init`.
- A NULL file name and an empty file name are both `""`; `list_init` treats them alike.
- `ERR_MASK` is 7 and `ERR_FATAL` is 5. The fill palette `" --***XX"` has one
  character per severity, in the order listmsg, debug, info, warning, nonfatal,
  fatal, critical and panic, and fatal is number 5 of them. So a nonfatal error
  (4) is only queued, and fatal, critical and panic are written at once. The
  header that defines the severities is not part of this model.

## Model

| member | source | states |
|---|---|---|
| Format.HexByte | asm/listing.c:60-62 | the `HEX` pair of a byte is two hex digits whose value is the byte |
| Format.Numeral | asm/listing.c:215-218 | the `%X`/`%d` numeral is non-empty, all digits of the base, has no leading zero and reads back as the number |
| Format.Decimal | asm/listing.c:88 | `%d` of a negative number is `-` followed by the digits of its magnitude; otherwise it is digits that read back as the number; neither has a leading zero |
| Format.Hex8 | asm/listing.c:91 | `%08X` has at least eight hex digits and reads back as the number; a numeral longer than eight digits has no leading zero |
| Format.PadLeft | asm/listing.c:88 | right alignment: width max(w, \|s\|), `s` at the end, fill before it |
| Format.PadRight | asm/listing.c:91 | `%-*s`: width max(w, \|s\|), `s` first, blanks after it |
| Format.Repeat | asm/listing.c:94 | `n` copies of one character, as `%*s` of `""` and the fill loop print |
| Format.ZeroToken | asm/listing.c:215-219 | `<zero `, then at least eight hex digits reading back as the size (no leading zero beyond the eight), then `>`; at most 23 characters |
| Format.ReserveToken | asm/listing.c:250-254 | `<res ` + hex digits reading back as the size, with no leading zero, + `>`, fits `q[24]` |
| Format.BinToken | asm/listing.c:304-307 | `<bin ` + hex digits of the size as an unsigned 64-bit value, with no leading zero, + `>`, fits `q[24]` |
| Format.RepToken | asm/listing.c:310-313 | `<rep ` + hex digits of the size as an unsigned 64-bit value, with no leading zero, + `>`, fits `q[24]` |
| Format.TaggedToken | asm/listing.c:250-254 | a five-character tag, hex digits reading back as the number with no leading zero, then `>` |
| Format.SegmentToken | asm/listing.c:239-243 | `[`, then 2·size `s` characters, then `]` |
| Format.AddressToken | asm/listing.c:184-201 | the brackets around 2·size hex digits whose little-endian value is `addr` mod 256^size |
| Format.AddressDigits | asm/listing.c:193-197 | the address loop writes two hex digits per byte |
| Format.AddressRoundTrip | asm/listing.c:193-197 | reading the digits back least significant pair first gives `addr mod 256^size`; the shift is floor division |
| Format.Trunc32 | asm/listing.c:70 | the `int32_t` `listoffset` keeps the value modulo 2^32 |
| Format.NumeralLength | asm/listing.c:217 | a number below base^k has at most k digits, which is why the tokens fit `q[24]` |
| Format.ZeroFillValue | asm/listing.c:91 | the zero padding of `%08X` does not change the value read back |
| Engine.SeverityIndex | asm/listing.c:116 | the palette index `severity & ERR_MASK` is below 8 |
| Engine.ErrorRows | asm/listing.c:114-127 | one row per queued diagnostic |
| Engine.Truncated | asm/listing.c:282-283 | a line shorter than 1020 characters is stored unchanged; a longer one as its first 1020 characters and `...` (1023 characters) |
| Engine.Zeros | asm/listing.c:221 | `zero_buffer` gives `n` zero bytes |
| Properties.OutSplit | asm/listing.c:173-182 | a run that would pass 18 characters is closed with `-` and flushed, and the token starts a new run at its offset; otherwise the token is appended and an empty run takes the offset; the run never exceeds max(18, \|tok\|); nothing else changes |
| Properties.LongTokenOnEmptyRun | asm/listing.c:175-177 | a token over 18 characters on an empty run first flushes a row holding only `-` |
| Properties.OutEndsWith | asm/listing.c:181 | after `list_out` the run ends with the token |
| Properties.OutBytesFit | asm/listing.c:228-233 | bytes that fit the run are appended as `HEX` pairs with no separator; the first one sets the offset of an empty run |
| Properties.HexBytesOfZeros | asm/listing.c:221-233 | `n` zero bytes list as 2·n `0` characters |
| Properties.ZeroFill | asm/listing.c:215-222 | zero data over 16 bytes is one `<zero %08X>` token; 16 or fewer is the raw-data path over zero bytes |
| Properties.Reservation | asm/listing.c:250-254 | a reservation is one `<res %X>` token |
| Properties.EmptyRawData | asm/listing.c:224-227 | raw data of size 0 only sets the offset of an empty run |
| Properties.OutputGated | asm/listing.c:211-212 | `list_output` changes nothing when listing is off, suppressed or `user_nolist` |
| Properties.BulkEnter | asm/listing.c:303-314 | INCBIN/TIMES set only their own suppress bit, keep the depth and the stack, and end the run with the `<bin>`/`<rep>` token |
| Properties.BulkLeave | asm/listing.c:339-345 | leaving INCBIN/TIMES clears only its own suppress bit |
| Properties.IncbinHidesData | asm/listing.c:211-212 | after entering INCBIN every `list_output` is silent |
| Properties.LineInhibited | asm/listing.c:269-272 | a macro line under an inhibiting top changes nothing |
| Properties.LineAccepted | asm/listing.c:269-284 | an accepted line pops exactly one inhibiting top frame, flushes the previous row, updates the line number only if it is non-negative, stores the truncated text and snapshots the depth |
| Properties.EmitFlushes | asm/listing.c:87-108 | `list_emit` writes the line row exactly when a line is pending or the run is non-empty, then one row per diagnostic, after the earlier rows |
| Properties.EmitErrorRows | asm/listing.c:110-130 | the k-th diagnostic row is the row of the k-th queued diagnostic (insertion order) |
| Properties.EmitClears | asm/listing.c:106-107 | after `list_emit` no line is pending and the run and the queue are empty, so a second call changes nothing |
| Properties.EmitQuiet | asm/listing.c:87 | with nothing pending `list_emit` writes nothing |
| Properties.EmitLast | asm/listing.c:114-127 | the last row written is that of the last queued diagnostic |
| Properties.ErrorRowsAt | asm/listing.c:114-127 | the k-th error row renders the k-th diagnostic |
| Properties.ErrorRowLayout | asm/listing.c:115-126 | an error row has the line number in columns 0-5, 18 fill characters chosen by `severity & ERR_MASK` from `" --***XX"` in columns 16-33, and ends with the text |
| Properties.ErrorRowsSameFrame | asm/listing.c:115-122 | error rows depend only on the line number and the depths |
| Properties.RowTextColumn | asm/listing.c:87-104 | the source text starts at column 40 (`LIST_INDENT`) |
| Properties.RowNumberColumn | asm/listing.c:88 | a row starts with the six-column line number |
| Properties.RowRunColumns | asm/listing.c:90-92 | a non-empty run of any length shows its offset as `%08X` in columns 7-14 and the run from column 16; the row is at least 35 characters |
| Properties.DataFieldLayout | asm/listing.c:90-94 | the data field is 28 columns: offset, blank, the run padded to 19 |
| Properties.DepthFieldWidth | asm/listing.c:96-100 | the depth field is four columns; its alignment tests `listlevel`, not `listlevel_e` |
| Properties.ErrorQueue | asm/listing.c:358-375 | without a file `list_error` is ignored; a non-fatal diagnostic is only queued |
| Properties.NonfatalQueued | asm/listing.c:369-374 | a nonfatal error (severity 4) is only queued: nothing is written and the pending line stays pending |
| Properties.FatalFlushes | asm/listing.c:372-374 | a fatal diagnostic is written at once as the last row, and `list_cleanup` then adds nothing |
| Properties.DownlevelPops | asm/listing.c:347-353 | `list_downlevel` decrements the depth and pops exactly the frames deeper than the new depth, keeping the rest in order |
| Properties.PopAboveExact | asm/listing.c:349-353 | the pop loop removes a prefix of frames deeper than the level and leaves only frames at or above it |
| Properties.PopAboveMembers | asm/listing.c:349-353 | a frame survives the pop loop exactly when its level is at most the new depth |
| Properties.UpDownRestores | asm/listing.c:316-329 | an uplevel followed by a downlevel of the same non-INCBIN/TIMES kind restores the whole state |
| Properties.PopPushed | asm/listing.c:287-294 | the pop loop removes a frame pushed one level deeper |
| Properties.IncludeUnderInhibition | asm/listing.c:316-320 | an include entered under an inhibiting top pushes a non-inhibiting frame |
| Properties.NolistMacroDropsMacroLine | asm/listing.c:322-325 | a `.nolist` macro pushes an inhibiting frame, so its macro lines are dropped |
| Properties.PushKeeps | asm/listing.c:287-294 | pushing at the new depth keeps the stack ordered |
| Properties.TailOrdered | asm/listing.c:273-276 | popping the top keeps the stack ordered |
| Properties.OutKeeps | asm/listing.c:173-182 | `list_out` keeps the invariant, the stack, the depth, `suppress` and `listp` |
| Properties.RawKeeps | asm/listing.c:224-235 | the raw-data arm keeps the invariant and the scope statics |
| Properties.OutputKeeps | asm/listing.c:203-259 | `list_output` keeps the invariant and never touches the depth, stack, `suppress` or `listp` |
| Properties.LineKeeps | asm/listing.c:261-285 | `list_line` keeps the invariant |
| Properties.UplevelKeeps | asm/listing.c:296-331 | `list_uplevel` keeps the invariant |
| Properties.DownlevelKeeps | asm/listing.c:333-356 | `list_downlevel` keeps the invariant |
| Properties.StepKeeps | asm/listing.c:382-391 | every entry point keeps the invariant (stack ordered and bounded by the depth, run of at most 23 characters, line of at most 1023) |
| Properties.RunKeeps | asm/listing.c:382-391 | the invariant holds through any sequence of entry-point calls |
| Properties.DisabledIsSilent | asm/listing.c:133-171 | without a successful `list_init` no call writes a row |
| Properties.NoListingFile | asm/listing.c:135-138 | a session whose `list_init` gets no file name writes nothing |
| Properties.SessionFirstLine | asm/listing.c:146-155 | after `list_init`, a first source line pops the inhibiting bottom frame and is stored |
| Properties.SessionOutputStep | asm/listing.c:224-233 | five bytes list as the run `B801000000` at offset 0 |
| Properties.SessionCleanupStep | asm/listing.c:158-171 | `list_cleanup` writes the pending row |
| Properties.OneLineSession | asm/listing.c:82-285 | init, one line, five bytes and cleanup write exactly the row `     1 00000000 B801000000              mov eax, 1` |
| Properties.MovEaxRow | asm/listing.c:87-105 | the exact text of that row |
| Properties.CleanupFlushes | asm/listing.c:158-171 | outside a session `list_cleanup` changes nothing; in one it empties the stack and appends exactly the rows `list_emit` writes (the pending line row, then every queued diagnostic), leaving nothing pending |
| Properties.ScopeRestores | asm/listing.c:296-356 | a balanced nest of `list_uplevel`/`list_downlevel` calls of matching kinds, INCBIN and TIMES included, leaves the depth, the inhibit stack and `listp` as they were |
| Properties.ScopesRestore | asm/listing.c:296-356 | a sequence of balanced nests leaves the depth, the inhibit stack and `listp` as they were |
| Properties.RunAppend | asm/listing.c:382-391 | a session run in two parts ends where the whole session ends |
| Splits.SplitRows | asm/listing.c:173-182 | what a sequence of `list_out` calls writes is exactly the rows of the states it flushes, in order |
| Splits.SplitText | asm/listing.c:175-181 | the flushed runs without their closing `-`, followed by the run still pending, are the old run followed by every token in order; each flushed run ends with `-` |
| Splits.SplitQuiet | asm/listing.c:87-108 | only the first flush can carry the pending line and the diagnostics; every later one has nothing pending but its run; all show the line number, depths and text of the starting state |
| Splits.QuietStays | asm/listing.c:87-108 | once no line and no diagnostic are pending, every flush has a non-empty run and nothing else pending |
| Splits.QuietWrites | asm/listing.c:87-108 | such a flush writes exactly one row, its run's |
| Splits.SplitOffsets | asm/listing.c:173-181 | each flushed run closes a span (opener, closer): without its `-` it is exactly the whole tokens from the opener up to the closer, at the opener's offset truncated to 32 bits, where the closer is the call whose token did not fit and the opener is the last call that found the run empty (or, with no such call, the old run and old offset followed by the tokens); only empty tokens lie between one closer and the next opener; the run left pending is described the same way up to the last token |
| Splits.SpanRunJoined | asm/listing.c:178-181 | the text of a run opened at call `o` is, at call `c`, the tokens `o` to `c - 1` joined; with no opening call, the old run followed by every token before `c` |
| Splits.BytesAreTokens | asm/listing.c:228-233 | the byte loop of `list_output` is the sequence of `list_out` calls with byte k's `HEX` pair at offset + k |
| Listing.ListingEngine.constructor | asm/listing.c:64-80 | the statics start zeroed, with no file and an empty stack |
| Listing.ListingEngine.Strcat | asm/listing.c:181 | `strcat` into `listdata` appends the token |
| Listing.ListingEngine.Emit | asm/listing.c:82-131 | the in-place `list_emit` leaves the state `ListEmit` computes |
| Listing.ListingEngine.EmitLine | asm/listing.c:87-108 | the line row is written when a line or a run is pending, then both are cleared |
| Listing.ListingEngine.RowLine | asm/listing.c:88-103 | the row assembled from the four `fprintf` pieces (line number, data field or blanks, depth label or four blanks, text), reading the run from `listdata` up to its NUL and the text from `listline`, is the row `RowText` specifies |
| Listing.ListingEngine.FlushLine | asm/listing.c:105-107 | the row is written, `listlinep` cleared, `listdata` emptied |
| Listing.ListingEngine.EmitErrors | asm/listing.c:110-130 | the diagnostic rows are written in order and the queue is freed |
| Listing.ListingEngine.ErrorLines | asm/listing.c:114-127 | the loop over the queue builds the rows `ErrorRows` specifies |
| Listing.ListingEngine.ErrorLine | asm/listing.c:115-126 | one diagnostic row, with the 18-iteration fill loop |
| Listing.ListingEngine.ListOut | asm/listing.c:173-182 | the in-place `list_out` leaves the state `ListOut` computes |
| Listing.ListingEngine.SplitRun | asm/listing.c:175-178 | an overflowing run gets `-` and is flushed; afterwards the token fits or the run is empty |
| Listing.ListingEngine.MarkOffset | asm/listing.c:179-180 | an empty run takes the token's offset, truncated to 32 bits |
| Listing.ListingEngine.ListAddress | asm/listing.c:184-201 | lists the address token |
| Listing.ListingEngine.AddressText | asm/listing.c:187-199 | the address loop builds `AddressToken` |
| Listing.ListingEngine.Output | asm/listing.c:203-259 | the in-place `list_output` leaves the state `ListOutput` computes |
| Listing.ListingEngine.SegmentText | asm/listing.c:239-243 | the `memset` builds `SegmentToken` |
| Listing.ListingEngine.OutputBytes | asm/listing.c:224-235 | the raw-data arm leaves the state `OutRaw` computes |
| Listing.ListingEngine.HexLoop | asm/listing.c:228-233 | the byte loop lists one `HEX` pair per byte at consecutive offsets |
| Listing.ListingEngine.MarkEmpty | asm/listing.c:226-227 | a zero-size block sets the offset of an empty run |
| Listing.ListingEngine.Line | asm/listing.c:261-285 | the in-place `list_line` leaves the state `ListLine` computes |
| Listing.ListingEngine.AcceptLine | asm/listing.c:273-284 | the accepted-line path: pop, flush, store |
| Listing.ListingEngine.PopInhibitor | asm/listing.c:269-277 | an inhibiting top frame is popped |
| Listing.ListingEngine.SetLine | asm/listing.c:279-284 | line number (if non-negative), pending flag, text and depth snapshot |
| Listing.ListingEngine.StoreLine | asm/listing.c:282-283 | `strlcpy` and the `...` `memcpy` leave `Truncated(line)` in `listline` |
| Listing.ListingEngine.CopyLine | asm/listing.c:282 | `strlcpy` copies at most 1020 characters and terminates them |
| Listing.ListingEngine.Ellipsis | asm/listing.c:283 | the `memcpy` writes `...` at 1020-1022 and the NUL at 1023, and changes nothing before |
| Listing.ListingEngine.Uplevel | asm/listing.c:296-331 | the in-place `list_uplevel` leaves the state `ListUplevel` computes |
| Listing.ListingEngine.EnterBulk | asm/listing.c:303-314 | INCBIN/TIMES set their bit and list their token at `listoffset` |
| Listing.ListingEngine.EnterScope | asm/listing.c:316-329 | the depth grows; include and `.nolist` macro push their frames |
| Listing.ListingEngine.MistackPush | asm/listing.c:287-294 | `mistack_push` puts a frame at the current depth on top |
| Listing.ListingEngine.Downlevel | asm/listing.c:333-356 | the in-place `list_downlevel` leaves the state `ListDownlevel` computes |
| Listing.ListingEngine.LeaveScope | asm/listing.c:347-353 | the depth shrinks and deeper frames are popped |
| Listing.ListingEngine.PopFrames | asm/listing.c:349-353 | the pop loop leaves `PopAbove` of the stack |
| Listing.ListingEngine.Error | asm/listing.c:358-375 | the in-place `list_error` leaves the state `ListError` computes |
| Listing.ListingEngine.QueueError | asm/listing.c:364-370 | the diagnostic is appended to the queue |
| Listing.ListingEngine.QueueFatal | asm/listing.c:364-374 | a fatal diagnostic is appended and flushed |
| Listing.ListingEngine.SetOffset | asm/listing.c:377-380 | `listoffset` becomes the offset truncated to 32 bits |
| Listing.ListingEngine.Init | asm/listing.c:133-156 | the in-place `list_init` leaves the state `ListInit` computes |
| Listing.ListingEngine.Open | asm/listing.c:146-155 | the statics are reset and the inhibiting bottom frame pushed |
| Listing.ListingEngine.ResetStatics | asm/listing.c:147-155 | the statics other than `listline` are reset |
| Listing.ListingEngine.ResetCounters | asm/listing.c:147-150 | line number, queue and `listp` |
| Listing.ListingEngine.ResetDepth | asm/listing.c:151-155 | depth 0, no suppression, stack of one inhibiting frame at level 0 |
| Listing.ListingEngine.ClearLine | asm/listing.c:146 | `listline` becomes empty |
| Listing.ListingEngine.Cleanup | asm/listing.c:158-171 | the in-place `list_cleanup` leaves the state `ListCleanup` computes |
| Listing.ListingEngine.ClearStack | asm/listing.c:163-167 | the free loop empties the stack |

## Left out

- File output: `fprintf`, `putc` and `fclose`. The listing file is the sequence of rows `out`, and the newline after each row is implied.
- nasmlib/file.c is not part of this model. It holds file-system plumbing (`nasm_open_write` and the writers), and only whether the open succeeded matters here; that is the parameter `openOk`.
- `nasm_nonfatal` reports a failed open. The model does not record that message.
- `strlist` and the varargs formatting in `list_error`. A diagnostic arrives already formatted.
- `nasm_malloc` and `nasm_free`. The inhibit stack is a sequence, top first.
- `panic()` for an unknown output type and `nasm_assert(size <= 8)`. These become the precondition `WellFormed`; `size <= 10` for segments keeps the token inside `q[24]`.
- The `lfmt` table of function pointers is only wiring; `Engine.Step` dispatches on an event value in its place.
- `listlevel` and `listlevel_e` are unbounded integers, so an `int` overflow after 2^31 nested levels is not modelled. `list_downlevel` has no underflow check in the C code, and the model lets the depth go negative in the same way.
- Row text comes from C strings. A source line containing a NUL character would be cut there by `strlcpy`, but the model copies every character.
- Calls after `list_cleanup`, or after a failed second `list_init` that leaves `listp` set, go on appending rows. The C code would write to a closed or NULL `FILE`.
- EmitErrors: the rows are collected and then appended together, where `list_emit` prints them one at a time; the file content is the same.
- RowTextColumn: stated only for line numbers below 1,000,000, for a run of at most 19 characters (`LIST_HEXBIT + 1`) and for depth labels that fit the four-column field, because a wider value in any of them also shifts the text in the C output.
- A second successful `list_init` opens a new listing file; the model keeps appending to the same `out`, so the rows of both sessions form one sequence.
