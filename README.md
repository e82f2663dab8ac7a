# vcd2pwl core in Dafny

This project models the core of `verilog2pwl`, which turns a VCD trace into
SPICE piecewise-linear (PWL) voltage sources. It covers two pieces:

- **The signal and scope model, with the PWL emitter** (`dataflow/types.py`).
  - A `Register` keeps:
    - a fixed-width, MSB-first bit vector;
    - a timeline from tick to vector;
    - an export-safe flag.
  - A `Module` is a named dictionary from identifier to register.
  - `VCDModule` is the parsed document. It holds:
    - the top module and the side modules opened after it;
    - the list of all declarations;
    - the identifier-to-name map.
  - Registers, modules and the document are classes whose methods update their fields in place.
  - Each class has an abstraction to a value: `Register.Value()`, `Module.Abs()`, `VCDModule.Abs()`. Every method is proved to perform a transition on those values, and the transitions are functions in `Signals`, `Documents` and `Pwl`.
- **The token interpreter** (`dataflow/parser.py`).
  - `VCDParser._parse_group` is a loop that takes one token per turn and updates the time stamp, the scope name and the document.
  - `Parsers.Advance` states one turn and `Parsers.Fold` the whole loop.
  - `VCDParser.ParseGroup` is the loop itself, proved to end exactly as `Fold` says.
  - `Parse` adds the wrapper that turns a tokenizer assertion error into `None`.

The modules are:

| file | module | contents |
|---|---|---|
| `base.dfy` | `Base` | `Option`, `Result`, and the `Fault` values that stand for uncaught exceptions |
| `text.dfy` | `Text` | `str.split()`, `int()` on a signed decimal literal, decimal rendering |
| `bits.dfy` | `Bits` | `bit_length`, `>>`, `& 1`, MSB-first vectors |
| `timeline.dfy` | `Timelines` | the timeline as an association list in dictionary order |
| `timescale.dfy` | `TimeScales` | the unit table, `convert_to` over exact reals, and the reading of the `$timescale` text |
| `signal.dfy` | `Signals` | declarations, signals and scopes as values; `update` and `tag` on values |
| `pwl.dfy` | `Pwl` | the emitter as functions: segments, rendering, directive names, scope text |
| `register.dfy` | `Registers` | class `Register` |
| `document.dfy` | `Documents` | the document as a value and its transitions |
| `scope.dfy` | `Scopes` | classes `Module` and `VCDModule` |
| `parser.dfy` | `Parsers` | tokens, one turn of the loop, the fold, class `VCDParser` |

Uncaught Python exceptions and `sys.exit` stop the program. They are modelled as `Fault` values returned in `Err` or `Crashed`. An `AssertionError` from the tokenizer is modelled as a `Malformed` token, which ends the run as `Rejected`; `parse` then returns `None`.

Three behaviours of the code worth noting:

- The ramp form `'t' prev 't+rf' cur` is emitted when the chosen rise/fall value equals zero, and the step form otherwise, as coded at `dataflow/types.py:143-147`. The comment at `dataflow/types.py:138` only says that a change adds a `'t + trf'` clause, with no condition on the value; `Pwl.Transition` and `Registers.Register.Chunk` follow the code.
- `convert_to` ignores `base_num`: the factor depends on the units only (`dataflow/types.py:40`).
- A `#<time>` token read before any `$timescale` stops the program. The debug message on that line reads `top.timescale.base_unit`, and Python evaluates the f-string even when the message is not printed (`dataflow/parser.py:98`). The same holds for the `int(value)` inside the debug message at `dataflow/parser.py:108`.

## Model

| member | source | states |
|---|---|---|
| Text.Split | dataflow/parser.py:59 | every word of `str.split()` is non-empty and holds no whitespace |
| Text.SplitTwoWords | dataflow/parser.py:59 | splitting `"<a> <b>"` gives exactly the two words `[a, b]` |
| Text.ParseInt | dataflow/parser.py:108-109 | `int()` succeeds only on an optional sign followed by digits; a plain digit string reads as its decimal value; the result is negative only after a leading `-`, and never positive after one |
| Text.NatToDecimal | dataflow/types.py:122-123 | the decimal rendering of a bit index is a non-empty string of digits |
| Text.ParseDecimal | dataflow/parser.py:61 | `int()` reads back the decimal rendering of any natural number |
| Text.DecimalInjective | dataflow/types.py:122-123 | different numbers render as different decimal strings |
| Bits.BitLength | dataflow/types.py:86 | `bit_length` is 0 exactly for 0; otherwise it is the `r` with 2^(r-1) <= abs(v) < 2^r |
| Bits.ToBits | dataflow/types.py:89-91 | the vector has exactly `width` positions; what each holds is `Bits.ToBitsAt` |
| Bits.MagnitudeBitsBound | dataflow/types.py:86 | a magnitude has at most `w` bits exactly when it is below 2^w |
| Bits.ToBitsAt | dataflow/types.py:89-91 | position `w-1-i` of the vector is `(v >> i) & 1` |
| Bits.FromToBits | dataflow/types.py:89-91 | the MSB-first weighted sum of the vector is `v` modulo 2^w, which is two's complement for a negative `v` |
| Bits.RoundTrip | dataflow/types.py:82-93 | for a non-negative value that fits, the weighted sum gives the value back exactly |
| Timelines.Find | dataflow/types.py:53 | a lookup finds nothing exactly when the tick is not a key |
| Timelines.Put | dataflow/types.py:79 | an assignment keeps the key order; a new tick is appended at the end |
| Timelines.FindPut | dataflow/types.py:79 | after `timing[t] = bits`, tick `t` gives `bits` and every other tick keeps its vector |
| Timelines.PutInPlace | dataflow/types.py:79 | overwriting an existing tick replaces that entry at its own position |
| Timelines.PutWellFormed | dataflow/types.py:79 | writing a vector of the signal's width keeps keys unique and all vectors of that width |
| TimeScales.Factor | dataflow/types.py:40 | the factor between two known units is positive |
| TimeScales.ConvertTo | dataflow/types.py:39-42 | the conversion succeeds exactly when both units are in the table; the result is the tick count times the factor from the base unit to the target unit, and `base_num` plays no part |
| TimeScales.ConvertToOwnUnit | dataflow/types.py:39-42 | converting into the base unit returns the tick count |
| TimeScales.ConvertLinear | dataflow/types.py:39-42 | the conversion is linear in the tick count |
| TimeScales.FactorsCompose | dataflow/types.py:29-34 | going through an intermediate unit gives the same factor |
| TimeScales.UnitsPositive | dataflow/types.py:29-34 | every unit in the table has a positive count per second |
| TimeScales.ConvertBack | dataflow/types.py:39-42 | converting to a unit and back gives the original tick count |
| TimeScales.ParseTimescale | dataflow/parser.py:57-63 | a text that cannot be read stops the program with `BadTimescale` of that text; a text that can be read splits into exactly two words, the unit is the second word (non-empty, no whitespace) and the magnitude is `int()` of the first |
| TimeScales.ParseTimescaleWritten | dataflow/parser.py:57-63 | the text `"<n> <unit>"` gives the time base with magnitude `n` and that unit |
| TimeScales.ParseTimescaleNeedsTwoWords | dataflow/parser.py:59 | a text that does not split into exactly two words stops the program |
| Signals.Zeros | dataflow/types.py:52 | a new signal's vector has the declared width and is all zero |
| Signals.Encode | dataflow/types.py:82-93 | fails exactly when `bit_length` exceeds the width, with that error; otherwise gives `width` bits with bit `i` of the value at position `width-1-i` |
| Signals.Updated | dataflow/types.py:68-80 | fails exactly when the value is too wide; otherwise the entry for `t` and the last vector become the encoding, every other tick keeps its vector, a new tick goes after all existing ones while an existing tick keeps its place, the declaration and the flag are kept, and well-formedness is kept |
| Signals.Tagged | dataflow/types.py:56-57 | the flag becomes `not x_state`; the declaration, the vector and the timeline are kept, and so is well-formedness |
| Pwl.RiseFallName | dataflow/types.py:139 | `tcrf` is chosen exactly for `CLK`, and `trf` exactly for every other name |
| Pwl.Transition | dataflow/types.py:138-147 | a level change at tick `t` ends on the new level at `t`. It is a ramp from the previous level over the chosen parameter exactly when that parameter's value is 0, and a step otherwise; it is never an initial segment |
| Pwl.Segments | dataflow/types.py:129-152 | a bit has at most one segment per timeline entry |
| Pwl.PwlName | dataflow/types.py:119-125 | a scalar keeps its name. A bus bit's name is the signal name followed by a bracketed index, and `int()` reads that index as `width-1-m`, so position 0 is the most significant bit |
| Pwl.Directive | dataflow/types.py:127-153 | a directive starts with `V<n> <n> 0 pwl(` for its own name and ends with `)\n\n` |
| Pwl.Directives | dataflow/types.py:115-154 | the text of the first `k` positions is empty exactly when `k` is 0 |
| Pwl.DirectivesStep | dataflow/types.py:115-154 | one more vector position appends its directive to the text |
| Pwl.ScopeText | dataflow/types.py:184-196 | the text is empty exactly for a module without identifiers; otherwise it has at least one character per identifier and ends with a newline |
| Pwl.SignalText | dataflow/types.py:110-112 | a signal whose flag is false produces no text |
| Pwl.ScopeTextStep | dataflow/types.py:187-193 | the scope text grows by one signal's text and a newline per identifier, in dictionary order |
| Pwl.SegmentCount | dataflow/types.py:129-152 | a bit has one segment for the first entry plus one per level change, and none for an empty timeline |
| Pwl.SegmentsEnds | dataflow/types.py:129-137 | the first segment is the initial level of the first entry, and the last ends on the final cursor level |
| Pwl.SegmentsChange | dataflow/types.py:136-150 | every later segment is a real level change from the previous segment's level; it is a ramp over the chosen parameter exactly when that parameter's value is zero |
| Pwl.SegmentsFirst | dataflow/types.py:129-137 | a non-empty timeline has a first segment, and it is `Initial` with the first entry's level |
| Pwl.SegmentsLast | dataflow/types.py:129-151 | a non-empty timeline has a last segment, and it ends on the cursor's final level |
| Pwl.SegmentsSingle | dataflow/types.py:135-137 | a one-entry timeline gives only the `Initial` segment |
| Pwl.SegmentsUnfold | dataflow/types.py:130-151 | the last timeline entry contributes its segments after those of all earlier entries, judged against the cursor they left |
| Pwl.ChangePositions | dataflow/types.py:138 | the listed change positions lie after the first entry and inside the timeline, in strictly increasing order |
| Pwl.ChangePositionsComplete | dataflow/types.py:138 | a position after the first is listed exactly when its level differs from the one before it |
| Pwl.ChangePositionsCount | dataflow/types.py:138 | there are as many change positions as level changes |
| Pwl.SegmentTimes | dataflow/types.py:129-151 | segment `k` after the first belongs to the `k`-th level change: it carries that entry's tick and ends on that entry's level, which differs from the level before it; these entries come in increasing timeline order |
| Pwl.StampedKeep | dataflow/types.py:149-151 | an entry that keeps the level adds no segment, so the earlier segments keep their change positions |
| Pwl.StampedAdd | dataflow/types.py:138-147 | an entry that changes the level adds one segment carrying that entry's tick and level |
| Pwl.BusNamesDistinct | dataflow/types.py:119-123 | the directive names of a bus's bits are pairwise different |
| Pwl.ChunkRendersSegment | dataflow/types.py:136-150 | the text the loop appends for one entry is the rendering of that entry's segment |
| Pwl.DirectiveUpToStart | dataflow/types.py:127 | before any entry, the directive text is `V<n> <n> 0 pwl(` |
| Pwl.DirectiveUpToStep | dataflow/types.py:130-152 | walking one entry appends its segment's text and moves the cursor to its level |
| Pwl.DirectiveUpToEnd | dataflow/types.py:153 | the walked text followed by `)\n\n` is the whole directive |
| Registers.Register.constructor | dataflow/types.py:51-54 | a new register has the declared kind, name and width, dimension 0, an all-zero vector, an empty timeline and a true flag |
| Registers.Register.Int2BitArray | dataflow/types.py:82-93 | the loop fills the buffer with exactly `Signals.Encode(value, width)`, or fails when the value is too wide |
| Registers.Register.Update | dataflow/types.py:68-80 | fails exactly when the value is too wide, and then changes nothing; otherwise the register holds `Signals.Updated` of its old signal |
| Registers.Register.Tag | dataflow/types.py:56-57 | the flag becomes `not x_state`; nothing else changes |
| Registers.Register.GeneratePiecewiseLinear | dataflow/types.py:109-156 | the text is `Pwl.SignalText`: empty for an unsafe signal, otherwise one directive per vector position, most significant bit first |
| Registers.Register.DirectiveLine | dataflow/types.py:115-153 | the cursor walk over the timeline produces `Pwl.Directive` for position `m` |
| Registers.Register.Chunk | dataflow/types.py:134-152 | the text for one entry is the rendering of its segment: initial, ramp or step as coded, or nothing when the level is unchanged |
| Documents.UpdateModule | dataflow/types.py:222-232 | the first scope becomes the top scope, empty and named after it. A name other than the top's appends exactly one empty side scope, which becomes current. The top's own name leaves the document exactly as it was. The top never changes once set, and the declarations, the map and the time base are always kept |
| Documents.AddId | dataflow/types.py:181-182 | dictionary keys gain the identifier and stay duplicate-free |
| Documents.Declare | dataflow/types.py:214 | the signal goes under `id` in the top scope when no side scope exists, otherwise into the last side scope only; the current scope and every other field stay as they were |
| Documents.DeclareWf | dataflow/types.py:211-215 | declaring a well-formed signal keeps the document well formed |
| Documents.DeclareSide | dataflow/types.py:214 | with side scopes open, only the last one changes |
| Documents.AddSignal | dataflow/types.py:211-220 | fails exactly when no scope is open; otherwise the map sends `id` to the signal's name and the declaration is appended to the list |
| Documents.AddSignalWf | dataflow/types.py:211-220 | with a scope open, a declaration succeeds, keeps the document well formed and keeps the current scope |
| Documents.IsRegTopModule | dataflow/types.py:234-235 | in a well-formed top scope, true exactly when `id` is one of the scope's identifiers |
| Documents.Written | dataflow/types.py:250-256 | fails exactly when an integer is too wide; keeps the declaration and well-formedness |
| Documents.Assign | dataflow/types.py:250-256 | the write on the top-scope signal fails exactly when an integer is too wide for it |
| Documents.UpdateTiming | dataflow/types.py:237-257 | a success needs a top scope. It keeps every field except the top scope's signals, and keeps the top scope's name and identifier order. The document changes only for a top-scope identifier, and in full mode only a top-scope identifier succeeds. `NoScope` arises only without a top scope, and `NoTimescale` only without a time base. For a top-scope `id`, a missing time base gives exactly `NoTimescale`, and a unit outside the table gives exactly `UnknownUnit` of that unit. Conversely, with a top scope declaring `id` and a time base in a known unit, the update is exactly `Documents.Assign`: a string tags the signal, and an integer is written, failing only when it is too wide |
| Documents.UpdateTimingSkips | dataflow/types.py:239-240 | by default, a change for an identifier outside the top scope leaves the document unchanged |
| Documents.UpdateTimingFrame | dataflow/types.py:237-257 | a successful update changes only the top-scope signal `id`; every other field and signal is kept |
| Documents.UpdateTimingEffect | dataflow/types.py:250-256 | a string value clears the flag and adds no entry; an integer records its encoding at tick `t` |
| Documents.UpdateTimingKeepsUnsafe | dataflow/types.py:253 | an update never sets a cleared flag back to true |
| Documents.UpdateTimingWf | dataflow/types.py:237-257 | an update keeps the document well formed |
| Documents.UpdateTimingTooWide | dataflow/types.py:86-87 | a value too wide for its top-scope signal stops the program with that error |
| Scopes.Module.constructor | dataflow/types.py:176-179 | a new module is empty, with the given name |
| Scopes.Module.AddSignal | dataflow/types.py:181-182 | the register is stored under `id`, replacing any old one; a new identifier goes last; no register is held twice |
| Scopes.Module.ExportPwl | dataflow/types.py:184-196 | the loop produces `Pwl.ScopeText` of the module's value |
| Scopes.Module.Held | dataflow/types.py:187 | the register under `id` holds the signal that the scope value has there |
| Scopes.Write | dataflow/types.py:251-256 | a string tags the register, an integer updates it, exactly as `Documents.Written` says |
| Scopes.VCDModule.constructor | dataflow/types.py:198-209 | a new document has the empty value and owns only itself |
| Scopes.VCDModule.UpdateModule | dataflow/types.py:222-232 | performs `Documents.UpdateModule` and keeps the invariant, creating only new objects |
| Scopes.VCDModule.SetTop | dataflow/types.py:224-226 | the new module becomes the top and current module |
| Scopes.VCDModule.AddSide | dataflow/types.py:227-230 | the new module is appended to the side modules and becomes current |
| Scopes.VCDModule.AddReg | dataflow/types.py:211-220 | performs `Documents.AddSignal` on the document's value and keeps the invariant |
| Scopes.VCDModule.Record | dataflow/types.py:212-215 | the map and the declaration list gain the register |
| Scopes.VCDModule.DeclareCurrent | dataflow/types.py:214 | the current module gains the register, as `Documents.Declare` says |
| Scopes.VCDModule.AddToTop | dataflow/types.py:214 | the top module, when current, gains the register |
| Scopes.VCDModule.AddToSide | dataflow/types.py:214 | the last side module, when current, gains the declaration |
| Scopes.VCDModule.IsRegTopModule | dataflow/types.py:234-235 | whether the top module declares `id`; fails when there is no top module |
| Scopes.VCDModule.UpdateTimingAssignment | dataflow/types.py:237-257 | performs `Documents.UpdateTiming` on the register objects, including each error and the unchanged document on error |
| Scopes.VCDModule.Assign | dataflow/types.py:243-256 | writing through the register object performs `Documents.Assign` on the value |
| Scopes.VCDModule.ExportPwl | dataflow/types.py:259-262 | the text of the top module; fails when there is none |
| Parsers.ReadValue | dataflow/parser.py:100-109 | a string holding `x` or `z` is passed on unchanged as a string. Any other string is read by `int()`: it fails exactly when `int()` rejects it, and otherwise gives `int()`'s number. An integer payload is passed on as it is |
| Parsers.ReadDecimal | dataflow/parser.py:108-109 | a decimal payload is read as its number |
| Parsers.Advance | dataflow/parser.py:50-117 | a turn is rejected exactly on a tokenizer error. Only a `$timescale`, `$var`, `#<time>` or value-change token can stop the program. The scope cursor becomes the opened scope on `$scope`, becomes none on `$upscope`, and is kept otherwise |
| Parsers.Fold | dataflow/parser.py:48-120 | a run is rejected only if the tokens contain a tokenizer error, and stops the program only if they contain a token that can stop it |
| Parsers.Continue | dataflow/parser.py:48-117 | the same, for one token followed by the rest of the stream |
| Parsers.Parsed | dataflow/parser.py:24-30 | `parse` returns `None` only if the tokens contain a tokenizer error, and returns the empty document for no tokens |
| Parsers.FoldStep | dataflow/parser.py:48-49 | a run is its first turn followed by the run over the remaining tokens |
| Parsers.FoldAppend | dataflow/parser.py:48-117 | a run over two stretches is the run over the first, then the second if the first ended normally |
| Parsers.AdvanceWf | dataflow/parser.py:50-117 | a turn that ends normally keeps the document well formed |
| Parsers.FoldWf | dataflow/parser.py:48-120 | a run that ends normally leaves a well-formed document |
| Parsers.ParsedWf | dataflow/parser.py:24-30 | a document that `parse` returns is well formed |
| Parsers.AdvanceHeader | dataflow/parser.py:51-63 | only a `$date`, `$version`, `$timescale` or `#<time>` token changes its own field |
| Parsers.FoldHeader | dataflow/parser.py:45-97 | after a run, date, version and time base are those of the last token of each kind, and the time stamp is the last `#<time>` (0 if none) |
| Parsers.ChangeAtLatestTime | dataflow/parser.py:96-110 | a value change is applied at the time of the latest `#<time>` token before it |
| Parsers.TimescaleTokenSets | dataflow/parser.py:57-63 | `"<n> <unit>"` sets the time base to magnitude `n` and that unit |
| Parsers.AdvanceScopeFree | dataflow/parser.py:64-75 | the scope name never changes how a turn ends, or the document and time stamp it gives |
| Parsers.FoldScopeFree | dataflow/parser.py:64-75 | the scope name never changes how a run ends, or the document and time stamp it gives |
| Parsers.UpscopeIgnored | dataflow/parser.py:71-75 | removing an `$upscope` changes neither the outcome nor the document |
| Parsers.SkippedTokens | dataflow/parser.py:116-117 | removing a `$dumpvars` or an unhandled token changes nothing |
| Parsers.MalformedRejects | dataflow/parser.py:24-30 | a tokenizer error after a prefix that ends normally makes `parse` return `None`, whatever follows |
| Parsers.ChangeOutsideTopSkipped | dataflow/parser.py:100-110 | by default, a change for an identifier outside the top scope leaves the state exactly as it was |
| Parsers.VarAfterUpscope | dataflow/parser.py:64-94 | after `$scope a`, `$upscope`, a `reg` declaration lands in the current module. That module is `a`, except that reopening the top's name while side modules exist keeps the last side module current |
| Parsers.VCDParser.constructor | dataflow/parser.py:19-22 | a new parser has no rise/fall table and no tokens |
| Parsers.VCDParser.SetExpr | dataflow/parser.py:32-33 | stores the rise/fall table and leaves the tokens alone |
| Parsers.VCDParser.Parse | dataflow/parser.py:24-30 | returns a new, well-formed document whose value is `Parsed`'s, `null` for a tokenizer error, or the error that stops the program |
| Parsers.VCDParser.ParseGroup | dataflow/parser.py:35-120 | the loop ends as `Fold` from the start state over the tokens: the new document holding `Fold`'s value, rejection, or the same error |
| Parsers.VCDParser.Apply | dataflow/parser.py:50-117 | one turn performs `Advance` on the document, the time stamp and the scope name |
| Parsers.VCDParser.ApplyHeader | dataflow/parser.py:51-98 | the `$date`, `$version`, `$timescale`, `$upscope` and `#<time>` turns, and the turns that do nothing, perform `Advance` |
| Parsers.VCDParser.ApplyVar | dataflow/parser.py:77-94 | a `reg` or `wire` declaration adds a new register through `add_reg`, as `Advance` says; other types add nothing |
| Parsers.VCDParser.NewRegister | dataflow/parser.py:84-94 | a `reg` becomes a register and a `wire` a wire, each of the declared size, fresh and all zero |
| Parsers.VCDParser.ApplyChange | dataflow/parser.py:100-110 | a value change is read and passed to `update_timing_assignment`, as `Advance` says |

## Left out

- File input and output: the VCD file is replaced by a sequence of tokens, and the file write in `VCDModule.export_pwl` is replaced by the returned text.
- The pyvcd tokenizer is not part of this model. Its tokens are the `Token` datatype:
  - a `$timescale` token carries its printed text;
  - a tokenizer `AssertionError` is the `Malformed` token;
  - every kind the loop does not handle is `Other`.
- Logging, which has no effect on state. The exceptions are the two debug messages whose eager f-string evaluation can raise; those are modelled.
- `eval_expr` and the rounding in `convert_to`, because they use sympy and floats. The emitter takes a `Formatter` of two opaque functions for the text of a time and of a time plus a parameter. `convert_to` itself is modelled exactly over the reals, without `round`.
- The `_iter` field of `VCDParser`, which nothing reads.
- The `top` and `scope` parameters of `_parse_group`, which no caller passes: the loop always starts from a new document and no scope.
- The `expr` dictionary: it is the record `RiseFall(trf, tcrf)`, so a missing key, for which `.get` returns `None` and the step form is chosen, is not represented.
- `int()` is modelled on an optional sign followed by ASCII digits. Surrounding whitespace, underscores and non-ASCII digits, which Python also accepts, are not modelled.
- `sys.exit` for an unknown identifier in full mode is the fault `UnknownIdentifier`.
- The 2-D naming branch of `generate_piecewise_linear` (the parser never sets `dim`), the unreachable `Wire` branch of `Module.export_pwl`, the duplicate `CHANGE_TIME` branch of `_parse_group` and the unused `str2bit_array`.
- `__repr__` and `__str__`, which only feed log messages.
- `Wire` is the kind `Wire` of the same `Register` class, since its body is the same. `add_wire` is `AddReg`, whose body is the same as `add_reg`'s.
- Text.Split: only ASCII whitespace separates words. Python's `str.split()` also splits on `\x85`, `\xa0` and the other Unicode whitespace characters, which the model treats as word characters.
- Scopes.VCDModule.AddReg: requires that the register is not already held by the top module. The parser always passes a new one, so aliasing through a reused register object is not modelled.
- Scopes.VCDModule.ExportPwl: requires a well-formed document value, which `Parsers.ParsedWf` proves for every document `parse` returns.
- Registers.Register.GeneratePiecewiseLinear: requires the register's invariant (vector and timeline of the declared width), which every method keeps.
- The numeric type of a vector element (NumPy `int8` or `float`) is not modelled: bits are integers 0 and 1.
