/** The stateful half of the logger: the `Logger` object with its context,
    verbosity, buffer of lines and lazily created progress renderer, and the
    renderer's state. The console is modelled as the list of strings the logging
    methods print; the clock, the platform queries and the file are inputs or
    outputs of the methods. */
module Logging {
  import opened Wrappers
  import opened Text
  import opened Timestamps
  import opened LineFormat
  import opened PyValues

  /** Raised by the renderer's constructor when the maximum is zero. */
  const ZeroDivision: Exception := Exception("ZeroDivisionError", "division by zero", false)

  /** The progress renderer. Only `x` changes after construction; the
      configuration is fixed when the renderer is made. */
  class Progress {
    var x: int
    const description: string
    const maxx: int
    const mode: string
    const scale: int

    /** `Progress(description, startx, maxx, mode, scale)`; the source divides
        by `maxx` here, so a zero maximum never yields a renderer. */
    constructor (description: string, startx: int, maxx: int, mode: string, scale: int)
      requires maxx != 0
      ensures x == startx
      ensures this.description == description && this.maxx == maxx
      ensures this.mode == mode && this.scale == scale
    {
      this.x := startx;
      this.description := description;
      this.maxx := maxx;
      this.mode := mode;
      this.scale := scale;
    }

    /** `update(x)`: moves the bar to `x`. */
    method Update(x: int)
      modifies this
      ensures this.x == x
    {
      this.x := x;
    }
  }

  /** A buffered line ends with the newline the logging methods add. */
  predicate Terminated(l: string) {
    |l| > 0 && l[|l| - 1] == '\n'
  }

  class Logger {
    const filename: string
    var context: string
    var verbose: bool
    var lines: seq<string>
    var console: seq<string>
    var progress: Progress?

    /** The stored context is always normalised, every buffered line is
        newline-terminated, and a renderer exists only with a non-zero maximum. */
    ghost predicate Valid()
      reads this
    {
      Normalised(context)
      && (forall i :: 0 <= i < |lines| ==> Terminated(lines[i]))
      && (progress != null ==> progress.maxx != 0)
    }

    /** `Logger(filename="log.txt", context="", verbose=True)` for a boolean
        `verbose`. */
    constructor (filename: string := "log.txt", context: string := "", verbose: bool := true)
      ensures Valid()
      ensures this.filename == filename && this.context == NormaliseContext(context)
      ensures this.verbose == verbose && lines == [] && console == [] && progress == null
    {
      this.filename := filename;
      this.context := NormaliseContext(context);
      this.verbose := verbose;
      lines := [];
      console := [];
      progress := null;
    }

    /** `set_context(context)`. */
    method SetContext(context: string)
      requires Valid()
      modifies this`context
      ensures Valid()
      ensures this.context == NormaliseContext(context)
    {
      this.context := NormaliseContext(context);
    }

    /** One logging call: the composed line is buffered whatever `display`
        says, and `display` only decides whether its echo is printed. */
    method Log(now: Clock, kind: Kind, text: string, display: bool)
      requires Valid() && ValidClock(now)
      modifies this`lines, this`console
      ensures Valid()
      ensures lines == old(lines) + [Entry(context, verbose, kind, now, text)]
      ensures console == old(console) + if display then [Echo(context, kind, now, text) + "\n"] else []
    {
      var entry := Entry(context, verbose, kind, now, text);
      assert Terminated(entry);
      if display {
        console := console + [Echo(context, kind, now, text) + "\n"];
      }
      lines := lines + [entry];
    }

    /** `success(text, display=True)`. */
    method Success(now: Clock, text: string, display: bool := true)
      requires Valid() && ValidClock(now)
      modifies this`lines, this`console
      ensures Valid()
      ensures lines == old(lines) + [Entry(context, verbose, LineFormat.Success, now, text)]
      ensures console == old(console) + if display then [Echo(context, LineFormat.Success, now, text) + "\n"] else []
    {
      Log(now, LineFormat.Success, text, display);
    }

    /** `debug(text, display=False)`. */
    method Debug(now: Clock, text: string, display: bool := false)
      requires Valid() && ValidClock(now)
      modifies this`lines, this`console
      ensures Valid()
      ensures lines == old(lines) + [Entry(context, verbose, LineFormat.Debug, now, text)]
      ensures console == old(console) + if display then [Echo(context, LineFormat.Debug, now, text) + "\n"] else []
    {
      Log(now, LineFormat.Debug, text, display);
    }

    /** `warning(text, display=True, extra_context="")`. */
    method Warning(now: Clock, text: string, display: bool := true, extraContext: string := "")
      requires Valid() && ValidClock(now)
      modifies this`lines, this`console
      ensures Valid()
      ensures lines == old(lines) + [Entry(context, verbose, LineFormat.Warning(extraContext), now, text)]
      ensures console == old(console) + if display then [Echo(context, LineFormat.Warning(extraContext), now, text) + "\n"] else []
    {
      Log(now, LineFormat.Warning(extraContext), text, display);
    }

    /** `error(text, display=True, extra_context="")`. */
    method Error(now: Clock, text: string, display: bool := true, extraContext: string := "")
      requires Valid() && ValidClock(now)
      modifies this`lines, this`console
      ensures Valid()
      ensures lines == old(lines) + [Entry(context, verbose, LineFormat.Error(extraContext), now, text)]
      ensures console == old(console) + if display then [Echo(context, LineFormat.Error(extraContext), now, text) + "\n"] else []
    {
      Log(now, LineFormat.Error(extraContext), text, display);
    }

    /** `show_warning(warning, display=True)`: the warning path tagged with the
        class name. */
    method ShowWarning(now: Clock, w: Exception, display: bool := true)
      requires Valid() && ValidClock(now)
      modifies this`lines, this`console
      ensures Valid()
      ensures lines == old(lines) + [Entry(context, verbose, LineFormat.Warning(w.typeName), now, w.message)]
      ensures console == old(console) + if display then [Echo(context, LineFormat.Warning(w.typeName), now, w.message) + "\n"] else []
    {
      Warning(now, w.message, display, w.typeName);
    }

    /** `show_error(error, display=True)`: the error path tagged with the class
        name. */
    method ShowError(now: Clock, e: Exception, display: bool := true)
      requires Valid() && ValidClock(now)
      modifies this`lines, this`console
      ensures Valid()
      ensures lines == old(lines) + [Entry(context, verbose, LineFormat.Error(e.typeName), now, e.message)]
      ensures console == old(console) + if display then [Echo(context, LineFormat.Error(e.typeName), now, e.message) + "\n"] else []
    {
      Error(now, e.message, display, e.typeName);
    }

    /** `handle_exception(exception)`: warnings to the warning path, everything
        else to the error path; always displayed. */
    method HandleException(now: Clock, e: Exception)
      requires Valid() && ValidClock(now)
      modifies this`lines, this`console
      ensures Valid()
      ensures lines == old(lines) + [Entry(context, verbose, Route(e), now, e.message)]
      ensures console == old(console) + [Echo(context, Route(e), now, e.message) + "\n"]
    {
      if e.isWarning {
        ShowWarning(now, e);
      } else {
        ShowError(now, e);
      }
    }

    /** `plain(text, display=False, extra_long=False, very_plain=False)`. */
    method Plain(now: Clock, text: string, display: bool := false, extraLong: bool := false,
                 veryPlain: bool := false)
      requires Valid() && ValidClock(now)
      modifies this`lines, this`console
      ensures Valid()
      ensures var kind := if veryPlain then VeryPlain else LineFormat.Plain(extraLong);
        lines == old(lines) + [Entry(context, verbose, kind, now, text)]
        && console == old(console) + if display then [Echo(context, kind, now, text) + "\n"] else []
    {
      if !veryPlain {
        Log(now, LineFormat.Plain(extraLong), text, display);
      } else {
        Log(now, VeryPlain, text, display);
      }
    }

    /** `set_verbose(verbose)`: a bool is stored; anything else is logged as a
        `TypeError` on the error path (with the verbosity in force) and raised,
        leaving the verbosity as it was. */
    method SetVerbose(now: Clock, v: PyValue) returns (raised: Option<Exception>)
      requires Valid() && ValidClock(now)
      modifies this`verbose, this`lines, this`console
      ensures Valid()
      ensures v.Bool? ==> raised == None && verbose == v.b && lines == old(lines) && console == old(console)
      ensures !v.Bool? ==> (raised == Some(VerboseTypeError) && verbose == old(verbose)
        && lines == old(lines) + [Entry(context, verbose, LineFormat.Error("TypeError"), now, "verbose is of type bool")]
        && console == old(console) + [Echo(context, LineFormat.Error("TypeError"), now, "verbose is of type bool") + "\n"])
    {
      if v.Bool? {
        verbose := v.b;
        raised := None;
      } else {
        var e := VerboseTypeError;
        ShowError(now, e);
        raised := Some(e);
      }
    }

    /** `header(sys_stat=False, date=False, description="", display=0,
        version=True)`; the platform answers and the formatted date are inputs.
        The eight `display` branches of the source are the rows of `Echoed`. */
    method Header(now: Clock, info: PlatformInfo, dateText: string, sysStat: bool := false,
                  date: bool := false, description: string := "", display: int := 0,
                  version: bool := true)
      requires Valid() && ValidClock(now)
      modifies this`lines, this`console
      ensures Valid()
      ensures lines == old(lines) + Entries(HeaderCalls(sysStat, date, description, display, version, info, dateText))
      ensures console == old(console) + Echoes(HeaderCalls(sysStat, date, description, display, version, info, dateText))
    {
      var sysText := SystemText(info);
      var dateString := dateText + "\n";
      var (showSys, showDate, showDescription) := Echoed(display);
      ghost var lines0, console0 := lines, console;
      ghost var calls: seq<(string, bool)> := [];
      if 0 <= display <= 7 {
        if sysStat {
          calls := PlainStep(now, lines0, console0, calls, sysText, showSys);
        }
        assert calls == Part(sysStat, sysText, showSys);
        if date {
          calls := PlainStep(now, lines0, console0, calls, dateString, showDate);
        }
        assert calls == Part(sysStat, sysText, showSys) + Part(date, dateString, showDate);
        if description != "" {
          calls := PlainStep(now, lines0, console0, calls, description, showDescription);
        }
        assert calls == Part(sysStat, sysText, showSys) + Part(date, dateString, showDate)
          + Part(description != "", description, showDescription);
      }
      calls := PlainStep(now, lines0, console0, calls, GetVersion(true), version);
      assert calls == HeaderCalls(sysStat, date, description, display, version, info, dateText);
    }

    /** One very-plain call of `header`, keeping the buffer and the console in
        step with the list of calls made so far. */
    method PlainStep(now: Clock, ghost lines0: seq<string>, ghost console0: seq<string>,
                     ghost calls: seq<(string, bool)>, text: string, display: bool)
      returns (ghost calls': seq<(string, bool)>)
      requires Valid() && ValidClock(now)
      requires lines == lines0 + Entries(calls) && console == console0 + Echoes(calls)
      modifies this`lines, this`console
      ensures Valid()
      ensures calls' == calls + [(text, display)]
      ensures lines == lines0 + Entries(calls') && console == console0 + Echoes(calls')
    {
      Plain(now, text, display, veryPlain := true);
      assert Entry(context, verbose, VeryPlain, now, text) == text + "\n";
      assert Echo(context, VeryPlain, now, text) == text;
      assert lines == old(lines) + [text + "\n"];
      assert console == old(console) + if display then [text + "\n"] else [];
      calls' := calls + [(text, display)];
      EntriesAppend(calls, [(text, display)]);
      EchoesAppend(calls, [(text, display)]);
      EntriesPart(true, text, display);
      EchoesPart(true, text, display);
    }

    /** `clear()`: empties the buffer. */
    method Clear()
      requires Valid()
      modifies this`lines
      ensures Valid() && lines == []
    {
      lines := [];
    }

    /** `save()`: what `writelines` puts in the file named `filename`; the
        buffer is left as it is. */
    method Save() returns (written: string)
      requires Valid()
      ensures written == Concat(lines)
      ensures (forall i :: 0 <= i < |lines| ==> IsLine(lines[i])) ==> SplitLines(written) == lines
    {
      written := Concat(lines);
      if forall i :: 0 <= i < |lines| ==> IsLine(lines[i]) {
        SplitConcat(lines);
      }
    }

    /** `progress(x=0, description="", startx=0, maxx=100, mode="=", scale=10)`:
        the first call makes the renderer from the configuration (ignoring `x`);
        every later call only moves the existing renderer to `x`. */
    method ShowProgress(x: int := 0, description: string := "", startx: int := 0, maxx: int := 100,
                        mode: string := "=", scale: int := 10)
      returns (raised: Option<Exception>)
      requires Valid()
      modifies this`progress, progress
      ensures Valid()
      ensures old(progress) != null ==> raised == None && progress == old(progress) && progress.x == x
      ensures old(progress) == null && maxx == 0 ==> raised == Some(ZeroDivision) && progress == null
      ensures old(progress) == null && maxx != 0 ==>
        raised == None && progress != null && fresh(progress) && progress.x == startx
        && progress.description == description && progress.maxx == maxx
        && progress.mode == mode && progress.scale == scale
    {
      if progress != null {
        progress.Update(x);
        raised := None;
      } else if maxx == 0 {
        raised := Some(ZeroDivision);
      } else {
        progress := new Progress(description, startx, maxx, mode, scale);
        raised := None;
      }
    }
  }
}
