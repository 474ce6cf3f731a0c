# Gerber (RS-274X) reader front end, modelled in Dafny

This project models the front end of a Gerber reader. It has four parts:

- **Tokenizer.** A character-at-a-time state machine with three fields: an
  "inside extended command" flag, an accumulating buffer and a line counter.
  It cuts a Gerber stream into raw commands. Outside `%...%` it cuts at `*`;
  a `%...%` block is one command. Newlines are counted and dropped.
- **Command model and dispatcher.** `Command.from_string` classifies one raw
  command through two code tables. Extended codes follow section 4.1 of the
  Gerber Layer Format Specification. The `MO` (unit) and `FS` (coordinate
  format) classes extract fields at fixed offsets. Every command prints back
  as the exact text it was built from.
- **Parser.** A `GerberParser` object holds the default graphics state. Its
  `parse` folds the token stream into an ordered list of commands.
- **Layer set.** An insertion-ordered map from layer name to a
  (base layer, extra layer) pair, updated when a Gerber file is read.

Modules:

- `Common` (common.dfy): `Option`/`Result` and the host language's string
  operations, namely clamping slices with negative indices, `startswith` and
  counting.
- `Commands` (commands.dfy): command classes, code tables, `Instantiate` (one
  class applied to a string) and `FromString`.
- `Tokens` (tokens.dfy): the tokenizer specification. `Step` is one loop
  iteration, `ScanFrom`/`Tokenize` a whole input. The invariant lemmas are
  here.
- `Parser` (parser.dfy): the `Tokenizer` class, whose `Iterate` loop updates
  its fields and is proved to compute `ScanFrom`, and the `GerberParser` class.
  `DispatchAll` specifies the fold in `Parse`.
- `LayerSets` (layerset.dfy): the functional `Update` with its lemmas, and the
  `LayerSet` class proved to perform it.

Python exceptions become `DispatchError`:

- `IndexError` comes from `s[0]` on an empty string.
- `KeyError(code)` comes from an unknown extended code.
- `AssertionError` comes from a rejected `FS` command.

Some behaviour of the code worth knowing, which the model keeps:

- The code does not validate aperture selects. Any non-`%` text whose three
  characters before the last are not a normal code becomes `SetAperture`.
- At end of input, a partial buffer or an unclosed `%...%` block is silently
  dropped. No error is raised.
- Newlines are removed from command text, so whitespace is not kept exactly.
- The code raises no error for an unknown normal code. It never checks that
  the unit or the coordinate format is set only once.

## Model

| member | source | states |
|---|---|---|
| `Commands.FromString` | regerberate/gerber/commands.py:18-33 | the empty string raises IndexError; every non-empty string not starting with `%` dispatches without error; only `%`-strings can fail; a built command prints as exactly the text it was built from |
| `Commands.Instantiate` | regerberate/gerber/commands.py:9-13 | applying a class to a string builds a command of that class whose text is the string; only the CoordinateFormat class can fail, with an assertion error, exactly when its acceptance test fails |
| `Commands.ExtendedDispatch` | regerberate/gerber/commands.py:20-24 | a `%`-string is built by the class its characters 1-2 map to in the extended table; a code outside the table (including a string too short to hold one) raises KeyError with that code |
| `Commands.NormalDispatch` | regerberate/gerber/commands.py:26-30 | a non-`%` string whose three characters before the last are a normal code is built by the class that code maps to, never as an aperture select |
| `Commands.SetApertureFallback` | regerberate/gerber/commands.py:31-33 | a string becomes a SetAperture command if and only if it is non-empty, does not start with `%`, and its three characters before the last are not a normal code |
| `Commands.UnitFields` | regerberate/gerber/commands.py:36-41 | a Unit command's text starts with `%MO` and its units are characters 3-4 of its text |
| `Commands.CoordinateFormatDispatch` | regerberate/gerber/commands.py:44-53 | a `%FS` string is accepted if and only if it starts with `%FSLAX` and characters 6-7 equal characters 9-10; the format is then characters 6-7, and otherwise construction fails with an assertion error |
| `Commands.DeprecatedDispatch` | regerberate/gerber/commands.py:56-67 | a dispatched command is deprecated if and only if it came through the extended code OF or IP |
| `Commands.TablesDistinct` | regerberate/gerber/commands.py:170-194 | each code table is injective, and no class is reachable from both tables |
| `Commands.SetApertureUntabled` | regerberate/gerber/commands.py:170-194 | neither table maps a code to the aperture-select class |
| `Commands.TableKeys` | regerberate/gerber/commands.py:170-194 | the extended table has exactly the keys MO, FS, OF, IP, LP, AM, AD; the normal table exactly D01-D03, G01-G03, G74, G75, G36, G37, G04, M02 |
| `Commands.KeyLengths` | regerberate/gerber/commands.py:170-194 | extended codes have two characters and normal codes three |
| `Commands.ExampleFormat` | regerberate/gerber/commands.py:44-53 | `%FSLAX24Y24*%` is built with format `24`; `%FSLAX24Y25*%` fails with an assertion error |
| `Commands.ExampleUnit` | regerberate/gerber/commands.py:36-41 | `%MOMM*%` is built as a Unit command with units `MM` |
| `Commands.ExampleUnknown` | regerberate/gerber/commands.py:20-24 | `%XY*%` raises KeyError with the code `XY` |
| `Commands.ExampleMove` | regerberate/gerber/commands.py:26-30 | `X0Y0D02*` is built as a move |
| `Commands.ExampleSelectAndEnd` | regerberate/gerber/commands.py:26-33 | `D10*` is an aperture select and `M02*` an end-of-file command |
| `Tokens.TokenizeInvariant` | regerberate/gerber/parser.py:11-35 | after any input, the yielded texts followed by the buffer equal the input without newlines. The line counter is 1 plus the newlines read, and the flag is set exactly after an odd number of `%`. Outside `%...%` the buffer holds no `%` or `*`; inside it holds exactly one `%`. Every yielded command is well formed and line numbers never decrease |
| `Tokens.JoinedIsStrippedPrefix` | regerberate/gerber/parser.py:17-35 | the yielded texts, concatenated, are a prefix of the input with its newlines removed, and what is missing is exactly the unflushed buffer dropped at end of input |
| `Tokens.JoinedWhenFlushed` | regerberate/gerber/parser.py:17-35 | when the input ends right after a flush, the yielded texts reproduce the input without its newlines |
| `Tokens.YieldedCommands` | regerberate/gerber/parser.py:15-35 | no yielded text holds a newline. Each text ends in its only `*` with no `%`, or ends in `%` holding exactly two. Line numbers lie between 1 and the line counter and never decrease |
| `Tokens.TokenizeAppend` | regerberate/gerber/parser.py:22-35 | one more character yields at most one command, keeping the earlier output. It yields exactly when it is a `%` closing an extended command or a `*` outside one. The command is the old buffer plus that character, on the line the character stands on, and the buffer is then empty. Each `%` toggles the flag and nothing else does |
| `Tokens.StepShape` | regerberate/gerber/parser.py:22-35 | one loop iteration raises the line counter exactly on a newline, and either yields the grown buffer and empties it, or keeps the grown buffer |
| `Tokens.NextKeepsText` | regerberate/gerber/parser.py:22-35 | one iteration keeps the output-plus-buffer account of the input and the two counters |
| `Tokens.NextKeepsJoined` | regerberate/gerber/parser.py:22-35 | one iteration keeps the yielded texts followed by the buffer equal to the input read so far without its newlines |
| `Tokens.NextKeepsLine` | regerberate/gerber/parser.py:22-23 | one iteration keeps the line counter at one more than the newlines read |
| `Tokens.NextKeepsFlag` | regerberate/gerber/parser.py:26-32 | one iteration keeps the flag set exactly after an odd number of `%` |
| `Tokens.NextKeepsBuffer` | regerberate/gerber/parser.py:22-32 | one iteration keeps the buffer free of newlines, of `%` and `*` outside an extended command, and with exactly one `%` inside |
| `Tokens.NextKeepsOutput` | regerberate/gerber/parser.py:27-35 | one iteration keeps every yielded command well formed and the line numbers sorted |
| `Parser.Tokenizer.constructor` | regerberate/gerber/parser.py:11-15 | a new tokenizer is outside any extended command, with an empty buffer, on line 1, at the start of its stream |
| `Parser.Tokenizer.Iterate` | regerberate/gerber/parser.py:17-35 | the loop reads the whole stream and its output and final fields are those of the specification scan from the starting fields |
| `Parser.DispatchAll` | regerberate/gerber/parser.py:64-67 | the fold builds at most one command per token, and builds one for every token exactly when no token fails |
| `Parser.DispatchAllMatches` | regerberate/gerber/parser.py:64-67 | command k is `from_string` of token k's text, in token order; a failure is the error of the token right after the last command built |
| `Parser.DispatchAt` | regerberate/gerber/parser.py:64-67 | a token reached without an earlier failure either builds the next command or raises the failure that ends the fold |
| `Parser.GerberParser.constructor` | regerberate/gerber/parser.py:39-60 | coordinate format, unit, current aperture, quadrant mode and interpolation mode start unset. The current point starts at (0, 0), step-and-repeat at (1, 1, 0, 0), level polarity `dark`, region mode `off`. The attribute map and command list start empty |
| `Parser.GerberParser.Parse` | regerberate/gerber/parser.py:62-67 | tokenizes the file text and appends one command per token in order. At the first token that raises, it stops, keeps the commands already appended and returns that error; no other field changes |
| `Parser.TokensDispatch` | regerberate/gerber/parser.py:64-65 | no token the tokenizer yields can raise IndexError; every token cut at a `*` dispatches without error |
| `LayerSets.LayerName` | regerberate/layerset.py:27 | the layer name is the file name without its last four characters, and empty for names shorter than four |
| `LayerSets.SizeMatchesOrder` | regerberate/layerset.py:14-15 | in a valid insertion-ordered table the number of entries equals the length of the order |
| `LayerSets.UpdateValid` | regerberate/layerset.py:24-33 | an update keeps every name once in the order and the order in step with the map |
| `LayerSets.UpdateExisting` | regerberate/layerset.py:29-31 | for a name already present, the base layer is replaced, the extra layer is kept, and the order and size are unchanged |
| `LayerSets.UpdateNew` | regerberate/layerset.py:32-33 | an absent name is appended at the end of the order with no extra layer, and the map grows by exactly one |
| `LayerSets.UpdateFrame` | regerberate/layerset.py:29-33 | every other name keeps its entry, and the earlier order is a prefix of the new one |
| `LayerSets.LayerSet.constructor` | regerberate/layerset.py:14-15 | a new layer set holds no layers |
| `LayerSets.LayerSet.UpdateFromGerber` | regerberate/layerset.py:24-33 | stores the given base layer under the file's layer name as `Update` specifies and keeps the table valid |
| `Common.Slice` | regerberate/gerber/commands.py:22 | the host slice never fails and is never longer than its string. In-range bounds give the plain subsequence; negative bounds count from the end, in any mix with non-negative ones; a stop past the end is clamped to the end, and a start or stop before the beginning to the beginning (so both clamped give the whole string); a stop that resolves at or before the start, a stop at or before `-len`, or a start past the end gives the empty string |

## Left out

- File opening, Python's universal-newline translation (`'rU'`) and the debug
  `print` in `GerberParser.parse`. `Parse` takes the file's text after newline
  translation.
- The tokenizer is eager: the whole output is produced at once. Python
  yields lazily and stops at the first dispatch error. Tokenizing has no
  other effect, so what `Parse` records is the same either way.
- `Command.__repr__`: debug formatting only.
- `GerberParser`'s `context` is kept as an opaque value. The context module
  is not part of this model.
- The types of the graphics-state settings (`Setting` holds a string). The
  code never assigns them after construction.
- `LayerSet.gerber_read`: it needs the unseen context module. Its result is
  the `newBase` parameter of `UpdateFromGerber`, a value of the opaque type
  `L`.
- `LayerSets.LayerSet.UpdateFromGerber` models only a successful read. In the
  code, a dispatch error raised inside `gerber_read` leaves
  `update_from_gerber` before the table changes, so the table stays as it
  was.
- `load_svg`, `write_svg`, `composite`, `gerber_write`: empty stubs or
  logging only.
- `render_gerbers`: it only calls the `composite` and `gerber_write` stubs
  and `os.path.join`.
- Logging calls throughout.
- The command-line wiring and packaging.
- Running Python with `-O`, which disables the `FS` assertions. The model
  treats them as always checked.
- Coordinate resolution, unit conversion, the aperture and macro registry,
  per-command graphics-state updates and polarity compositing. None of
  these exist in the code.
