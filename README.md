# fileloghelper in Dafny

A verified model of the Python package `fileloghelper` (version 1.3.0), a small
logger. A `Logger` builds one plain text line per logging call and keeps it in
an in-memory buffer (`lines`). When asked, it also prints a coloured variant to
the console. `save` writes the buffer to a file. The model covers:

- how the context prefix is normalised;
- how success, debug, warning, error and plain lines are composed, with and
  without the verbose tag;
- how exceptions are routed by their `Warning` ancestry;
- what `header` buffers and prints for each display mode;
- the lazily created progress renderer;
- `VariableObserver`, a value with change hooks and a history;
- `VarSet`, which renders its current values on one line.

Modules, one per concern:

- `Wrappers` (wrappers.dfy): `Option`.
- `Text` (text.dfy): Python's substring `in`, zero-padded and plain decimal
  rendering with their inverses, `sep.join`, `"".join`/`writelines`, and
  splitting a file back into lines.
- `Timestamps` (timestamps.dfy): `_timestamp_now_` as a formatter over an
  (hour, minute, second, microsecond) record, with a parser proved to be its
  exact inverse.
- `LineFormat` (line_format.dfy): the pure line composition. It covers context
  normalisation, tags, the buffered string and the console echo, a decoder for
  buffered lines, exception routing, the version banner, and the header's
  sequence of very-plain calls.
- `PyValues` (values.dfy): the Python values that `set_verbose` type-checks and
  that observers compare and print. It models Python `==`, where bool, int and
  float compare numerically, and Python `str`.
- `Logging` (logging.dfy): the `Logger` and `Progress` classes. Their methods
  change `lines`, `console`, `context`, `verbose` and `progress` in place.
- `Observers` (observers.dfy): the `VariableObserver` and `VarSet` classes.

The console is the `Logger.console` field: one string per `print` call of the
logging methods, newline included. The current instant is a `Clock` argument.
The platform answers and the formatted date are arguments of `Header`. Hook
calls are recorded in `VariableObserver.hooks`.

Where the code and its docstrings differ, the model follows the code. The
constructor's docstring (src/fileloghelper/__init__.py:22-30) shows a verbose
line as `[DEBUG] [context] [12:34:56] ...`, but the code writes the context
first, then the tag (src/fileloghelper/__init__.py:88-90). `Persisted` follows
the code.

Writing the buffer and reading the file back gives the same lines only when no
logged text contains a newline of its own. `SplitConcat` needs that, and
`SplitEmbeddedNewline` shows what goes wrong without it. Two header entries
always contain a newline of their own, so `save` followed by a read-back
splits them. The system-information block has several lines. The date ends
with a newline already (src/fileloghelper/__init__.py:192), so its entry is
the date followed by two newlines.

The public methods and `GetVersion` keep the source's default arguments as
Dafny default parameters. For example, `Success` and `Warning` print unless told otherwise,
and `Debug` and `Plain` do not. The clock argument `now` comes first, so the
defaults can follow it.

## Model

| member | source | states |
|---|---|---|
| `Text.SubstringAt` | src/fileloghelper/__init__.py:39 | Python's `t in s`, computed by recursive search, holds exactly when `t` occurs at some index of `s` |
| `Text.ValueOfDigits` | src/fileloghelper/__init__.py:69 | reading a zero-padded `%H`/`%M`/`%S`/`%f` field back gives the number |
| `Text.DigitsOfValue` | src/fileloghelper/__init__.py:69 | every digit string is the zero-padded rendering of its value, so rendering and reading are inverse |
| `Text.NatToString` | src/fileloghelper/__init__.py:352 | `str` of a non-negative int is a non-empty digit string with no leading zero |
| `Text.ValueOfNatToString` | src/fileloghelper/__init__.py:352 | the decimal text of a non-negative int reads back as that int |
| `Text.IntToString` | src/fileloghelper/__init__.py:352 | `str` of an int starts with `-` exactly for negatives; the rest is the canonical decimal text of the magnitude: all digits, no leading zero, reading back as the magnitude (so `str(7)` is `7`, by `CanonicalDecimal`) |
| `Text.CanonicalDecimal` | src/fileloghelper/__init__.py:352 | a digit string without a leading zero is the only decimal text of its value: it equals `NatToString` of that value |
| `Text.Digits` | src/fileloghelper/__init__.py:69-71 | a `%H`/`%M`/`%S` field is exactly 2 digits and `%f` exactly 6; `ValueOfDigits` and `DigitsOfValue` prove it a bijection onto digit strings |
| `Text.JoinSnoc` | src/fileloghelper/__init__.py:351-353 | joining one more item adds exactly one separator and the item at the end |
| `Text.Concat` | src/fileloghelper/__init__.py:58 | what `writelines` writes starts with the first line and is empty iff every line is empty |
| `Text.ConcatAppend` | src/fileloghelper/__init__.py:58 | writing two runs of lines writes the first run, then the second |
| `Text.SplitConcat` | src/fileloghelper/__init__.py:55-59 | the text `writelines` writes, split back into lines, gives the buffer, provided each entry is a single newline-terminated line |
| `Text.SplitEmbeddedNewline` | src/fileloghelper/__init__.py:55-59 | a buffered entry with its own newline reads back as two lines |
| `Timestamps.Format` | src/fileloghelper/__init__.py:67-73 | the timestamp is 10 characters, or 17 in the extra-long form, between `[` and `]` |
| `Timestamps.ParseFormat` | src/fileloghelper/__init__.py:67-73 | parsing a timestamp gives back the instant it shows (microseconds only in the long form) and which form it is |
| `Timestamps.FormatParse` | src/fileloghelper/__init__.py:67-73 | every string the parser accepts is exactly the timestamp of a valid instant |
| `Timestamps.FormatInjective` | src/fileloghelper/__init__.py:67-73 | two instants give the same timestamp iff they agree on every field that form shows |
| `LineFormat.GetVersion` | src/fileloghelper/__init__.py:61-65 | the short form (the default, `long=False`) is `1.3.0`; the long form is the banner built around the short form |
| `LineFormat.VersionBanner` | src/fileloghelper/__init__.py:63 | the long form is `This is fileloghelper on v1.3.0!` |
| `LineFormat.NormaliseContext` | src/fileloghelper/__init__.py:37-45 | the stored prefix is always normalised; input containing `[` or `] ` is kept verbatim; `" "` becomes `""`; any other input `c` becomes `"[" + c + "] "` |
| `LineFormat.NormaliseIdempotent` | src/fileloghelper/__init__.py:37-45 | normalising a stored prefix again leaves it unchanged |
| `LineFormat.NormaliseFixpoints` | src/fileloghelper/__init__.py:37-45 | an input is kept verbatim iff it is empty or contains `[` or `] ` |
| `LineFormat.NoCloseBracket` | src/fileloghelper/__init__.py:39 | text without `]` never contains `] ` |
| `LineFormat.NormaliseExamples` | src/fileloghelper/__init__.py:37-45 | `foo` becomes `[foo] `; `""` and `" "` become `""`; two spaces become `[  ] `; `[bar] extra` and `x] y` are kept |
| `LineFormat.Tag` | src/fileloghelper/__init__.py:75-109 | the tag is empty iff verbosity is off or the call is plain; a non-empty tag is bracketed and ends with `] ` |
| `LineFormat.Persisted` | src/fileloghelper/__init__.py:75-116 | a framed line starts with context + tag and ends with the text, with room for exactly one timestamp and a space; a very-plain line is the raw text |
| `LineFormat.Entry` | src/fileloghelper/__init__.py:117-165 | every buffered entry is the composed string plus one trailing newline |
| `LineFormat.DecodeEntryRoundTrip` | src/fileloghelper/__init__.py:75-116 | decoding a framed entry with its prefix gives back the exact text and the instant its timestamp shows |
| `LineFormat.PlainIsUntagged` | src/fileloghelper/__init__.py:111-115 | a plain line equals the line any severity writes with verbosity off, whatever the verbosity |
| `LineFormat.VerboseSeparatesSeverities` | src/fileloghelper/__init__.py:79-91 | with verbosity on, success and debug lines always differ |
| `LineFormat.Colour` | src/fileloghelper/__init__.py:77-105 | each severity's echo starts with a 5-character ANSI colour sequence `ESC[9nm` |
| `LineFormat.ColoursDistinct` | src/fileloghelper/__init__.py:77-105 | two severities share a colour iff they are the same severity (all warnings share one, all errors another) |
| `LineFormat.Detail` | src/fileloghelper/__init__.py:95-105 | warnings and errors print their `extra_context` followed by `": "`; the other kinds print nothing there |
| `LineFormat.Echo` | src/fileloghelper/__init__.py:75-115 | a severity's console text is exactly its colour, the context and short timestamp, the reset code and a space, then `extra_context + ": "` (warnings and errors) and the text; plain echoes its untagged line |
| `LineFormat.EchoShowsFrame` | src/fileloghelper/__init__.py:75-109 | the console echo contains the context followed by the timestamp |
| `LineFormat.PersistedShowsFrame` | src/fileloghelper/__init__.py:75-109 | the buffered line contains the same context and timestamp as the echo |
| `LineFormat.Route` | src/fileloghelper/__init__.py:149-154 | warnings, and only warnings, go the warning path; every exception is tagged with its class name |
| `LineFormat.SystemText` | src/fileloghelper/__init__.py:191 | the system-information block ends with a newline (its other lines are not stated) |
| `LineFormat.Echoed` | src/fileloghelper/__init__.py:193-248 | mode 0 prints no part, modes 1..3 print one, 4..6 two and 7 all three; any other value prints none |
| `LineFormat.EchoedDocstring` | src/fileloghelper/__init__.py:169-185 | each mode prints the parts the `header` docstring lists for it, e.g. mode 5 description and sys_stat |
| `LineFormat.EchoedComplement` | src/fileloghelper/__init__.py:193-248 | modes 4, 5 and 6 print exactly the parts modes 3, 2 and 1 leave out |
| `LineFormat.EchoedIsBijective` | src/fileloghelper/__init__.py:193-248 | the display modes 0..7 pick the 8 combinations of printed parts, each exactly once |
| `LineFormat.HeaderCalls` | src/fileloghelper/__init__.py:167-250 | the header makes one to four very-plain calls, and the last prints the banner iff `version` is set |
| `LineFormat.HeaderBufferContents` | src/fileloghelper/__init__.py:193-250 | for modes 0..7 the buffer gains the selected parts in the order system information, date, description (only if non-empty), then the banner |
| `LineFormat.HeaderBufferIgnoresDisplay` | src/fileloghelper/__init__.py:193-248 | any two modes in 0..7 buffer the same lines, whatever `version` is |
| `LineFormat.HeaderOutOfRange` | src/fileloghelper/__init__.py:193-250 | outside 0..7 only the banner is buffered |
| `LineFormat.HeaderOutOfRangeEchoes` | src/fileloghelper/__init__.py:193-250 | outside 0..7 the header prints the banner alone, and only when `version` is set |
| `LineFormat.HeaderEchoes` | src/fileloghelper/__init__.py:193-250 | a selected part is printed iff its column of the mode table is set; the banner is printed iff `version` |
| `LineFormat.EntriesAppend` | src/fileloghelper/__init__.py:193-250 | the lines buffered by two runs of very-plain calls are those of the first run, then those of the second |
| `LineFormat.EchoesAppend` | src/fileloghelper/__init__.py:193-250 | what two runs of very-plain calls print is what the first prints, then what the second prints |
| `PyValues.Equal` | src/fileloghelper/__init__.py:321 | Python `==`: bool, int and float compare by numeric value (`True == 1 == 1.0`); numbers equal only numbers; `None` equals only `None`, a string only the same string, an object only itself; identical values are equal |
| `PyValues.EqualAcrossNumbers` | src/fileloghelper/__init__.py:321 | a bool equals exactly the int 0 or 1 and the float 0.0 or 1.0 it stands for, and an int equals exactly the float of the same value |
| `PyValues.EqualIsEquivalence` | src/fileloghelper/__init__.py:321 | the `!=` gate of `set_value` uses an equivalence relation |
| `PyValues.EqualExamples` | src/fileloghelper/__init__.py:321 | `True == 1` and `5 == 5.0`; `5 != "5"` and `False != None` |
| `PyValues.IsIntOrFloat` | src/fileloghelper/__init__.py:315 | `type(v) == int or type(v) == float` holds exactly for numbers that are not bools |
| `PyValues.ToStr` | src/fileloghelper/__init__.py:352 | `str` of a string is the string itself, of `None` `None`, of a bool `True`/`False`; `str` of an int is its sign and then the canonical decimal digits of its magnitude, with no leading zero |
| `PyValues.IntToStrReadsBack` | src/fileloghelper/__init__.py:352 | `str` of every int reads back as that int: its sign from a leading `-`, its magnitude from the digits |
| `Logging.Progress.constructor` | src/fileloghelper/__init__.py:268-275 | a new renderer stands at `startx`, with the configuration it was given |
| `Logging.Progress.Update` | src/fileloghelper/__init__.py:277-283 | `update` moves the renderer to `x`; the configuration fields are constants |
| `Logging.Logger.constructor` | src/fileloghelper/__init__.py:21-35 | a new logger (by default on `log.txt`, with no context, verbose) has an empty buffer, no renderer, the normalised context and the given verbosity |
| `Logging.Logger.SetContext` | src/fileloghelper/__init__.py:37-45 | the stored context becomes the normalised input, and nothing else changes |
| `Logging.Logger.Log` | src/fileloghelper/__init__.py:117-139 | a logging call appends exactly one entry and keeps every earlier one; `display` only decides whether the echo is printed |
| `Logging.Logger.Success` | src/fileloghelper/__init__.py:117-120 | appends the success entry (`[SUCCESS] ` tag when verbose); prints the green echo iff `display`, which defaults to true |
| `Logging.Logger.Debug` | src/fileloghelper/__init__.py:122-125 | appends the debug entry (`[DEBUG] ` tag when verbose); prints the blue echo iff `display`, which defaults to false |
| `Logging.Logger.Warning` | src/fileloghelper/__init__.py:127-132 | appends the warning entry tagged `[extra_context] ` when verbose; prints the yellow echo iff `display`, which defaults to true |
| `Logging.Logger.Error` | src/fileloghelper/__init__.py:134-139 | appends the error entry tagged `[extra_context] ` when verbose; prints the red echo iff `display`, which defaults to true |
| `Logging.Logger.ShowWarning` | src/fileloghelper/__init__.py:141-143 | logs the warning's message on the warning path, tagged with its class name |
| `Logging.Logger.ShowError` | src/fileloghelper/__init__.py:145-147 | logs the error's message on the error path, tagged with its class name |
| `Logging.Logger.HandleException` | src/fileloghelper/__init__.py:149-154 | appends one entry on the path `Route` picks and always prints it |
| `Logging.Logger.Plain` | src/fileloghelper/__init__.py:156-165 | appends the untagged framed line, or the raw text when very plain, plus a newline; prints it iff `display`, which defaults to false |
| `Logging.Logger.SetVerbose` | src/fileloghelper/__init__.py:47-53 | a bool is stored; any other value appends one `TypeError` error entry (with the old verbosity), prints it, leaves the verbosity unchanged and raises |
| `Logging.Logger.Header` | src/fileloghelper/__init__.py:167-250 | the buffer and the console gain exactly the entries and echoes of the header's call sequence; the defaults are no system information, no date, no description, mode 0 and the banner shown |
| `Logging.Logger.PlainStep` | src/fileloghelper/__init__.py:195-250 | each very-plain call of the header extends the buffer and the console by that call's entry and echo |
| `Logging.Logger.Clear` | src/fileloghelper/__init__.py:252-254 | the buffer becomes empty |
| `Logging.Logger.Save` | src/fileloghelper/__init__.py:55-59 | the written text is the buffer's entries in order; the buffer is unchanged, and single-line entries read back as the buffer |
| `Logging.Logger.ShowProgress` | src/fileloghelper/__init__.py:256-262 | the first call creates a renderer at `startx` from the given configuration and ignores `x`; later calls only move the same renderer to `x`; a zero maximum raises and leaves no renderer; the defaults are the source's (`maxx` 100, mode `=`, scale 10) |
| `Observers.HookTraceAt` | src/fileloghelper/__init__.py:320-326 | for the k-th change, the pre-change hook sees the old value and the post-change hook the new one, in that order |
| `Observers.ExtendTrail` | src/fileloghelper/__init__.py:320-326 | a real change extends the value trail and adds one pre/post pair to the hook trace |
| `Observers.VariableObserver.constructor` | src/fileloghelper/__init__.py:311-318 | there is a history `[value]` iff the value's type is exactly int or float (not bool); no hook has run |
| `Observers.VariableObserver.SetValue` | src/fileloghelper/__init__.py:320-326 | an equal value changes nothing; otherwise the value is replaced, one pre/post hook pair is recorded and the history is extended iff kept; the invariant keeps the history's last element equal to the value |
| `Observers.VariableObserver.GetHistory` | src/fileloghelper/__init__.py:328-329 | returns the history iff it is kept, and its last element is the current value |
| `Observers.SuffixedIsJoin` | src/fileloghelper/__init__.py:350-353 | the loop's string, each value followed by `", "`, is the join plus one trailing separator |
| `Observers.MakeObservers` | src/fileloghelper/__init__.py:346-347 | one new observer per entry, in order, each as `VariableObserver(value)` leaves it, all distinct |
| `Observers.VarSet.constructor` | src/fileloghelper/__init__.py:344-347 | one fresh observer per dict entry, in insertion order, each in the state `VariableObserver(value)` leaves (that value, history `[value]` iff int or float, no hook calls), and no two entries share an observer |
| `Observers.VarSet.Current` | src/fileloghelper/__init__.py:351-352 | the i-th rendered value is `str` of the i-th variable's current value, in insertion order |
| `Observers.VarSet.PrintVariables` | src/fileloghelper/__init__.py:349-355 | the painted line is the current values joined by `", "` in insertion order, or empty for an empty set |

## Left out

- Console colours are modelled. The actual printing is not: the `\r`
  repaints, `flush=True` and `end=""`.
- Progress rendering: the `decimal` field, `_get_str`, `_hashtag`,
  `_equal_sign`, `_percent`, `_backline`, and the newline printed when the
  fraction reaches 1.0. These rely on float `round` and on `int()` truncating
  float products.
- Logging.Progress.Update: does not record the repainted bar.
- Logging.Progress.constructor: requires a non-zero maximum. The source raises
  `ZeroDivisionError` there, and `Logger.ShowProgress` models that error.
- Logging.Progress.constructor: `startx`, `x`, `maxx` and `scale` are ints.
  The source also accepts floats for them, and a float `maxx` of `0.0` raises
  `ZeroDivisionError` too.
- The clock. Each logging call gets one `Clock` value. The source reads the
  clock separately for the echo and for the buffered line, so the two stamps
  can differ by a tick.
- The `platform` queries and the locale-dependent `strftime` of the header
  date. Both are passed in as strings.
- Logging.Logger.Save: returns the text instead of opening, truncating and
  writing the file `filename`. File errors are not modelled.
- Logging.Logger.constructor: takes a bool `verbose`. With a non-bool the
  source fails before `_verbose` exists.
- The public attribute `verbose` is not modelled. The constructor assigns it
  the `None` that `set_verbose` returns, and nothing ever reads it.
- `str(text)` on the logged object. Texts are strings in the model, and so is
  the `text` of `plain(..., very_plain=True)`.
- Hooks are recorded as a trace of calls, not executed. A hook that raises or
  has side effects is not modelled.
- Float NaN and infinities are not modelled. Floats are reals, and their
  `str()` text is carried with the value.
- PyValues.Equal: compares every value outside None, bool, int, float and str
  by identity, as `Object`. In Python, lists, tuples, dicts, sets, `complex`,
  `Fraction`, `Decimal` and any class with its own `__eq__` compare by value
  (`[1] == [1]`, `(1+0j) == 1`). For such values, `set_value` at
  src/fileloghelper/__init__.py:321 skips a change that the model records. An
  object's `str()` text is carried with it, so a custom `__str__` is modelled.
- PyValues.ToStr: always returns text. Python 3.11 and later raise `ValueError`
  from `str()` of an int with more than 4300 digits (the default limit).
- Observers.VariableObserver.GetHistory: returns a copy of the history. The
  source returns the live list, so aliasing is not modelled.
- The `__bool__`, `__nonzero__` and `__repr__` methods of `VariableObserver`
  and `VarSet`.
- Logging.Logger.Header: takes an integer `display`. In the source any value
  equal to one of 0..7 takes that mode's branch: `True` and `1.0` act as mode
  1, and `False` and `0.0` as mode 0. Only values equal to none of 0..7 fall
  through every branch, like an out-of-range integer.
