/** The pure half of the logger: how a context prefix is normalised, how each
    severity composes the line that is buffered (and the one echoed to the
    console), how exceptions are routed, and what the header writes. */
module LineFormat {
  import opened Wrappers
  import opened Text
  import opened Timestamps

  // ---------------------------------------------------------------------------
  // Version

  const Version: string := "1.3.0"

  /** `get_version(long=False)`: the bare version, or the banner that names it. */
  function GetVersion(long: bool := false): (r: string)
    ensures !long ==> r == Version
    ensures long ==> r == "This is fileloghelper on v" + GetVersion() + "!"
  {
    if long then "This is fileloghelper on v" + Version + "!" else Version
  }

  // ---------------------------------------------------------------------------
  // Context prefix

  /** A prefix `set_context` stores as it is given. */
  predicate Normalised(c: string) {
    c == "" || '[' in c || IsSubstring("] ", c)
  }

  /** `set_context(c)`: text that already looks bracketed is kept verbatim, a
      blank context (empty or one space) becomes empty, and anything else is
      wrapped as `[c] `. */
  function NormaliseContext(c: string): (r: string)
    ensures Normalised(r)
    ensures Normalised(c) ==> r == c
    ensures c == " " ==> r == ""
    ensures !Normalised(c) && c != " " ==> r == "[" + c + "] "
  {
    if '[' !in c && !IsSubstring("] ", c) then
      if c == "" || c == " " then "" else "[" + c + "] "
    else c
  }

  /** Setting the stored prefix again leaves it as it is. */
  lemma NormaliseIdempotent(c: string)
    ensures NormaliseContext(NormaliseContext(c)) == NormaliseContext(c)
  {
    var r := NormaliseContext(c);
    if !Normalised(c) && c != " " {
      assert r[0] == '[';
    }
  }

  /** The inputs kept verbatim are exactly the normalised ones. */
  lemma NormaliseFixpoints(c: string)
    ensures NormaliseContext(c) == c <==> Normalised(c)
  {
    if !Normalised(c) && c != " " {
      assert |NormaliseContext(c)| == |c| + 3;
    }
  }

  /** Text without `]` cannot contain `"] "`. */
  lemma {:induction false} NoCloseBracket(s: string)
    requires ']' !in s
    ensures !IsSubstring("] ", s)
  {
    if 2 <= |s| {
      assert s[0] != ']';
      assert ']' !in s[1..];
      NoCloseBracket(s[1..]);
    }
  }

  /** The examples the library documents, and the two-space edge case. */
  lemma NormaliseExamples()
    ensures NormaliseContext("foo") == "[foo] "
    ensures NormaliseContext("") == "" && NormaliseContext(" ") == ""
    ensures NormaliseContext("  ") == "[  ] "
    ensures NormaliseContext("[bar] extra") == "[bar] extra"
    ensures NormaliseContext("x] y") == "x] y"
  {
    NoCloseBracket("foo");
    assert !Normalised("foo") by {
      assert forall i :: 0 <= i < 3 ==> "foo"[i] != '[';
    }
    NoCloseBracket("  ");
    assert !Normalised("  ") by {
      assert forall i :: 0 <= i < 2 ==> "  "[i] != '[';
    }
    assert "[bar] extra"[0] == '[';
    assert IsSubstring("] ", "x] y") by {
      assert OccursAt("] ", "x] y", 1);
      SubstringAt("] ", "x] y");
    }
  }

  // ---------------------------------------------------------------------------
  // Severities and the buffered line

  /** Which method composed a line: the four severities (warnings and errors
      carry their `extra_context`), `plain` with its time format, and
      `plain(..., very_plain=True)`. */
  datatype Kind = Success | Debug | Warning(extra: string) | Error(extra: string)
                | Plain(extraLong: bool) | VeryPlain

  /** The bracketed tag that verbose mode inserts after the context. */
  function Tag(kind: Kind, verbose: bool): (r: string)
    ensures r == "" <==> !verbose || kind.Plain? || kind.VeryPlain?
    ensures r != "" ==> |r| >= 3 && r[0] == '[' && r[|r| - 2..] == "] "
  {
    if !verbose then ""
    else match kind
      case Success => "[SUCCESS] "
      case Debug => "[DEBUG] "
      case Warning(extra) => "[" + extra + "] "
      case Error(extra) => "[" + extra + "] "
      case _ => ""
  }

  /** Whether the line's timestamp has the microsecond part. */
  function LongStamp(kind: Kind): bool {
    kind.Plain? && kind.extraLong
  }

  /** The text in front of the timestamp. */
  function Prefix(context: string, verbose: bool, kind: Kind): string {
    context + Tag(kind, verbose)
  }

  /** The string a logging call composes for the buffer, before its newline:
      context, then the tag (verbose only), then the timestamp, a space and the
      text; `very_plain` keeps the bare text. */
  function Persisted(context: string, verbose: bool, kind: Kind, now: Clock, text: string): (r: string)
    requires ValidClock(now)
    ensures kind.VeryPlain? ==> r == text
    ensures !kind.VeryPlain? ==>
      |r| == |Prefix(context, verbose, kind)| + (if LongStamp(kind) then 17 else 10) + 1 + |text|
      && r[..|Prefix(context, verbose, kind)|] == Prefix(context, verbose, kind)
      && r[|r| - |text|..] == text
  {
    if kind.VeryPlain? then text
    else Prefix(context, verbose, kind) + Format(now, LongStamp(kind)) + " " + text
  }

  /** What one logging call appends to `lines`. */
  function Entry(context: string, verbose: bool, kind: Kind, now: Clock, text: string): (r: string)
    requires ValidClock(now)
    ensures |r| > 0 && r[|r| - 1] == '\n'
    ensures r[..|r| - 1] == Persisted(context, verbose, kind, now, text)
  {
    Persisted(context, verbose, kind, now, text) + "\n"
  }

  /** Reads a buffered entry back, given the prefix it was written with. */
  function DecodeEntry(prefix: string, extraLong: bool, entry: string): Option<(Clock, string)> {
    var w := if extraLong then 17 else 10;
    if |prefix| + w + 2 <= |entry| && entry[..|prefix|] == prefix
       && entry[|prefix| + w] == ' ' && entry[|entry| - 1] == '\n'
    then
      match Parse(entry[|prefix|..|prefix| + w])
      case Some((c, long)) => if long == extraLong then Some((c, entry[|prefix| + w + 1..|entry| - 1])) else None
      case None => None
    else None
  }

  /** Every framed entry carries its instant and its text recoverably: decoding
      with the prefix it was written with gives back exactly the text and the
      instant as far as the timestamp shows it. */
  lemma DecodeEntryRoundTrip(context: string, verbose: bool, kind: Kind, now: Clock, text: string)
    requires ValidClock(now) && !kind.VeryPlain?
    ensures DecodeEntry(Prefix(context, verbose, kind), LongStamp(kind), Entry(context, verbose, kind, now, text))
         == Some((Shown(now, LongStamp(kind)), text))
  {
    var p := Prefix(context, verbose, kind);
    var long := LongStamp(kind);
    var stamp := Format(now, long);
    var e := Entry(context, verbose, kind, now, text);
    assert e == p + stamp + " " + text + "\n";
    assert e[|p|..|p| + |stamp|] == stamp;
    ParseFormat(now, long);
  }

  /** `plain` never carries a tag: its line is what any severity writes with
      verbosity off. */
  lemma PlainIsUntagged(context: string, verbose: bool, kind: Kind, now: Clock, text: string)
    requires ValidClock(now) && !kind.VeryPlain? && !LongStamp(kind)
    ensures Persisted(context, verbose, Plain(false), now, text) == Persisted(context, false, kind, now, text)
  {
  }

  /** With verbosity on, success and debug lines never coincide, whatever their
      instants and texts. (A warning whose `extra_context` is `SUCCESS` does
      write the same line as a success.) */
  lemma VerboseSeparatesSeverities(context: string, now: Clock, now2: Clock, text: string, text2: string)
    requires ValidClock(now) && ValidClock(now2)
    ensures Persisted(context, true, Success, now, text) != Persisted(context, true, Debug, now2, text2)
  {
    var a := Persisted(context, true, Success, now, text);
    var b := Persisted(context, true, Debug, now2, text2);
    assert a[|context| + 1] == 'S';
    assert b[|context| + 1] == 'D';
  }

  // ---------------------------------------------------------------------------
  // Console echo

  const Esc: char := '\U{1B}'
  const OkBlue: string := [Esc] + "[94m"
  const OkGreen: string := [Esc] + "[92m"
  const WarningColour: string := [Esc] + "[93m"
  const Fail: string := [Esc] + "[91m"
  const EndColour: string := [Esc] + "[0m"

  /** The colour a severity's echo starts with: an ANSI escape sequence
      `ESC [ 9 n m`. `Echo` never colours the plain kinds; for them the value
      is the error colour and is not used. */
  function Colour(kind: Kind): (r: string)
    ensures |r| == 5 && r[0] == Esc && r[1..3] == "[9" && r[4] == 'm'
  {
    match kind
    case Success => OkGreen
    case Debug => OkBlue
    case Warning(_) => WarningColour
    case _ => Fail
  }

  /** What warnings and errors show between the timestamp and the text: their
      `extra_context` followed by `": "`; nothing for the other kinds. */
  function Detail(kind: Kind): (r: string)
    ensures r == "" <==> !(kind.Warning? || kind.Error?)
    ensures r != "" ==> |r| >= 2 && r[..|r| - 2] == kind.extra && r[|r| - 2..] == ": "
  {
    if kind.Warning? || kind.Error? then kind.extra + ": " else ""
  }

  /** The four severities are told apart by colour, except that warnings share
      one colour whatever their `extra_context`, and so do errors. */
  lemma ColoursDistinct(k1: Kind, k2: Kind)
    requires !k1.Plain? && !k1.VeryPlain? && !k2.Plain? && !k2.VeryPlain?
    ensures Colour(k1) == Colour(k2) <==>
      (k1.Success? && k2.Success?) || (k1.Debug? && k2.Debug?)
      || (k1.Warning? && k2.Warning?) || (k1.Error? && k2.Error?)
  {
    assert OkGreen[3] == '2' && OkBlue[3] == '4' && WarningColour[3] == '3' && Fail[3] == '1';
  }

  /** Where the pieces of a four-piece string sit. */
  lemma FourParts(a: string, b: string, c: string, d: string)
    ensures var r := a + b + c + d;
      r[..|a|] == a && r[|a|..|a| + |b|] == b && r[|a| + |b|..|a| + |b| + |c|] == c
      && r[|r| - |d|..] == d
  {
    var r := a + b + c + d;
    assert r == a + (b + c + d);
    assert (b + c + d)[..|b|] == b;
    assert r == (a + b) + (c + d) && (c + d)[..|c|] == c;
    assert r == (a + b + c) + d;
  }

  /** What a logging call prints when `display` is set (the `print` adds the
      newline). The severities colour the context and timestamp; warnings and
      errors also show `extra_context + ": "` before the text; `plain` prints
      its buffered string, which never has a tag. */
  function Echo(context: string, kind: Kind, now: Clock, text: string): (r: string)
    requires ValidClock(now)
    ensures kind.Plain? || kind.VeryPlain? ==> r == Persisted(context, false, kind, now, text)
    ensures !(kind.Plain? || kind.VeryPlain?) ==>
      |r| == 5 + |context| + 10 + 5 + |Detail(kind)| + |text|
      && r[..5] == Colour(kind)
      && r[5..5 + |context| + 10] == context + Format(now, false)
      && r[5 + |context| + 10..5 + |context| + 15] == EndColour + " "
      && r[|r| - |Detail(kind)| - |text|..] == Detail(kind) + text
  {
    if kind.Plain? || kind.VeryPlain? then Persisted(context, false, kind, now, text)
    else
      var framed := context + Format(now, false);
      var tail := Detail(kind) + text;
      FourParts(Colour(kind), framed, EndColour + " ", tail);
      Colour(kind) + framed + (EndColour + " ") + tail
  }

  /** Whenever a severity is echoed, the console shows the context and the
      timestamp together, behind the colour code. */
  lemma EchoShowsFrame(context: string, kind: Kind, now: Clock, text: string)
    requires ValidClock(now) && !(kind.Plain? || kind.VeryPlain?)
    ensures IsSubstring(context + Format(now, false), Echo(context, kind, now, text))
  {
    var r := Echo(context, kind, now, text);
    assert OccursAt(context + Format(now, false), r, 5);
    SubstringAt(context + Format(now, false), r);
  }

  /** The buffered line shows the same context and timestamp as the echo, with
      only the tag between them. */
  lemma PersistedShowsFrame(context: string, verbose: bool, kind: Kind, now: Clock, text: string)
    requires ValidClock(now) && !(kind.Plain? || kind.VeryPlain?)
    ensures IsSubstring(context, Persisted(context, verbose, kind, now, text))
    ensures IsSubstring(Format(now, false), Persisted(context, verbose, kind, now, text))
  {
    var stamp := Format(now, false);
    var pre := Prefix(context, verbose, kind);
    var p := Persisted(context, verbose, kind, now, text);
    assert p == pre + stamp + " " + text;
    assert p[..|context|] == context;
    assert OccursAt(context, p, 0);
    SubstringAt(context, p);
    assert p[|pre|..|pre| + 10] == stamp;
    assert OccursAt(stamp, p, |pre|);
    SubstringAt(stamp, p);
  }

  // ---------------------------------------------------------------------------
  // Exceptions

  /** A Python exception as the logger sees it: its class name, its `str()`, and
      whether `Warning` is among its ancestors. */
  datatype Exception = Exception(typeName: string, message: string, isWarning: bool)

  /** `handle_exception`: warnings go the warning path, everything else the
      error path, tagged with the exception's class name. */
  function Route(e: Exception): (k: Kind)
    ensures k.Warning? <==> e.isWarning
    ensures k.Warning? || k.Error?
    ensures k.extra == e.typeName
  {
    if e.isWarning then Warning(e.typeName) else Error(e.typeName)
  }

  /** The exception `set_verbose` raises (and logs) for a non-bool argument. */
  const VerboseTypeError: Exception := Exception("TypeError", "verbose is of type bool", false)

  // ---------------------------------------------------------------------------
  // Header

  /** The answers of the `platform` module that the header prints. */
  datatype PlatformInfo = PlatformInfo(system: string, machine: string, version: string,
                                       platform: string, processor: string)

  /** The system-information block: system and machine, version, platform and
      processor, each followed by a newline. */
  function SystemText(p: PlatformInfo): (r: string)
    ensures |r| > 0 && r[|r| - 1] == '\n'
  {
    p.system + " (" + p.machine + ")\n" + p.version + "\n" + p.platform + "\n" + p.processor + "\n"
  }

  /** How many of the three header parts a row of the mode table prints. */
  function PartsShown(r: (bool, bool, bool)): nat {
    (if r.0 then 1 else 0) + (if r.1 then 1 else 0) + (if r.2 then 1 else 0)
  }

  /** Which header parts `display` echoes to the console, as
      (system information, date, description). */
  function Echoed(display: int): (r: (bool, bool, bool))
    ensures !(0 <= display <= 7) ==> r == (false, false, false)
    ensures 0 <= display <= 7 ==>
      PartsShown(r) == if display == 0 then 0 else if display <= 3 then 1 else if display <= 6 then 2 else 3
  {
    match display
    case 1 => (false, false, true)
    case 2 => (false, true, false)
    case 3 => (true, false, false)
    case 4 => (false, true, true)
    case 5 => (true, false, true)
    case 6 => (true, true, false)
    case 7 => (true, true, true)
    case _ => (false, false, false)
  }

  /** The eight display modes select the eight combinations, each exactly once. */
  lemma EchoedIsBijective()
    ensures forall d, e :: 0 <= d <= 7 && 0 <= e <= 7 && Echoed(d) == Echoed(e) ==> d == e
    ensures forall s: bool, t: bool, u: bool :: exists d :: 0 <= d <= 7 && Echoed(d) == (s, t, u)
  {
    forall s: bool, t: bool, u: bool
      ensures exists d :: 0 <= d <= 7 && Echoed(d) == (s, t, u)
    {
      var d := if s then (if t then (if u then 7 else 6) else (if u then 5 else 3))
               else (if t then (if u then 4 else 2) else (if u then 1 else 0));
      assert Echoed(d) == (s, t, u);
    }
  }

  /** Modes 4, 5 and 6 print exactly the parts that modes 3, 2 and 1 keep quiet. */
  lemma EchoedComplement(d: int)
    requires 1 <= d <= 3
    ensures Echoed(7 - d) == (!Echoed(d).0, !Echoed(d).1, !Echoed(d).2)
  {
  }

  /** The mode table as the `header` docstring lists it: 1 description, 2 date,
      3 sys_stat, 4 description and date, 5 description and sys_stat, 6 date
      and sys_stat, 7 all three; 0 nothing. Rows are (sys_stat, date,
      description). */
  lemma EchoedDocstring()
    ensures Echoed(0) == (false, false, false)
    ensures Echoed(1) == (false, false, true) && Echoed(2) == (false, true, false)
    ensures Echoed(3) == (true, false, false) && Echoed(4) == (false, true, true)
    ensures Echoed(5) == (true, false, true) && Echoed(6) == (true, true, false)
    ensures Echoed(7) == (true, true, true)
  {
  }

  /** A part that was not selected, or was selected and is shown or not. */
  function Part(selected: bool, text: string, shown: bool): seq<(string, bool)> {
    if selected then [(text, shown)] else []
  }

  /** The `plain(..., very_plain=True, display=...)` calls `header` makes, in
      order, as (text, display) pairs. */
  function HeaderCalls(sysStat: bool, date: bool, description: string, display: int, version: bool,
                       info: PlatformInfo, dateText: string): (calls: seq<(string, bool)>)
    ensures 1 <= |calls| <= 4
    ensures calls[|calls| - 1] == (GetVersion(true), version)
  {
    var (showSys, showDate, showDescription) := Echoed(display);
    var parts :=
      if 0 <= display <= 7 then
        Part(sysStat, SystemText(info), showSys)
        + Part(date, dateText + "\n", showDate)
        + Part(description != "", description, showDescription)
      else [];
    parts + [(GetVersion(true), version)]
  }

  /** The entries a sequence of very-plain calls appends to the buffer. */
  function Entries(calls: seq<(string, bool)>): (r: seq<string>)
    ensures |r| == |calls|
  {
    if calls == [] then [] else [calls[0].0 + "\n"] + Entries(calls[1..])
  }

  /** What a sequence of very-plain calls prints: the displayed texts, in order. */
  function Echoes(calls: seq<(string, bool)>): (r: seq<string>)
    ensures |r| <= |calls|
  {
    if calls == [] then []
    else (if calls[0].1 then [calls[0].0 + "\n"] else []) + Echoes(calls[1..])
  }

  lemma {:induction false} EntriesAppend(a: seq<(string, bool)>, b: seq<(string, bool)>)
    ensures Entries(a + b) == Entries(a) + Entries(b)
  {
    if a != [] {
      assert (a + b)[0] == a[0];
      assert (a + b)[1..] == a[1..] + b;
      EntriesAppend(a[1..], b);
      var h := [a[0].0 + "\n"];
      calc {
        Entries(a + b);
        h + Entries(a[1..] + b);
        h + (Entries(a[1..]) + Entries(b));
        (h + Entries(a[1..])) + Entries(b);
        Entries(a) + Entries(b);
      }
    } else {
      assert a + b == b;
    }
  }

  lemma {:induction false} EchoesAppend(a: seq<(string, bool)>, b: seq<(string, bool)>)
    ensures Echoes(a + b) == Echoes(a) + Echoes(b)
  {
    if a != [] {
      assert (a + b)[0] == a[0];
      assert (a + b)[1..] == a[1..] + b;
      EchoesAppend(a[1..], b);
      var h := if a[0].1 then [a[0].0 + "\n"] else [];
      calc {
        Echoes(a + b);
        h + Echoes(a[1..] + b);
        h + (Echoes(a[1..]) + Echoes(b));
        (h + Echoes(a[1..])) + Echoes(b);
        Echoes(a) + Echoes(b);
      }
    } else {
      assert a + b == b;
    }
  }

  lemma EntriesFour(a: seq<(string, bool)>, b: seq<(string, bool)>, c: seq<(string, bool)>,
                    v: seq<(string, bool)>)
    ensures Entries(a + b + c + v) == Entries(a) + Entries(b) + Entries(c) + Entries(v)
  {
    EntriesAppend(a + b + c, v);
    EntriesAppend(a + b, c);
    EntriesAppend(a, b);
  }

  lemma EchoesFour(a: seq<(string, bool)>, b: seq<(string, bool)>, c: seq<(string, bool)>,
                   v: seq<(string, bool)>)
    ensures Echoes(a + b + c + v) == Echoes(a) + Echoes(b) + Echoes(c) + Echoes(v)
  {
    EchoesAppend(a + b + c, v);
    EchoesAppend(a + b, c);
    EchoesAppend(a, b);
  }

  lemma EntriesPart(selected: bool, text: string, shown: bool)
    ensures Entries(Part(selected, text, shown)) == if selected then [text + "\n"] else []
  {
    if selected {
      assert Part(selected, text, shown)[1..] == [];
    }
  }

  lemma EchoesPart(selected: bool, text: string, shown: bool)
    ensures Echoes(Part(selected, text, shown)) == if selected && shown then [text + "\n"] else []
  {
    if selected {
      assert Part(selected, text, shown)[1..] == [];
    }
  }

  /** For the modes 0..7 the header's calls are the three parts, then the banner. */
  lemma HeaderCallsInRange(sysStat: bool, date: bool, description: string, display: int, version: bool,
                           info: PlatformInfo, dateText: string)
    requires 0 <= display <= 7
    ensures HeaderCalls(sysStat, date, description, display, version, info, dateText)
         == Part(sysStat, SystemText(info), Echoed(display).0)
          + Part(date, dateText + "\n", Echoed(display).1)
          + Part(description != "", description, Echoed(display).2)
          + [(GetVersion(true), version)]
  {
  }

  lemma PartsEntries(p: bool, x: string, xs: bool, q: bool, y: string, ys: bool,
                     r: bool, z: string, zs: bool, w: string, ws: bool)
    ensures Entries(Part(p, x, xs) + Part(q, y, ys) + Part(r, z, zs) + [(w, ws)])
         == (if p then [x + "\n"] else []) + (if q then [y + "\n"] else [])
          + (if r then [z + "\n"] else []) + [w + "\n"]
  {
    EntriesFour(Part(p, x, xs), Part(q, y, ys), Part(r, z, zs), [(w, ws)]);
    EntriesPart(p, x, xs);
    EntriesPart(q, y, ys);
    EntriesPart(r, z, zs);
    EntriesPart(true, w, ws);
  }

  lemma PartsEchoes(p: bool, x: string, xs: bool, q: bool, y: string, ys: bool,
                    r: bool, z: string, zs: bool, w: string, ws: bool)
    ensures Echoes(Part(p, x, xs) + Part(q, y, ys) + Part(r, z, zs) + [(w, ws)])
         == (if p && xs then [x + "\n"] else []) + (if q && ys then [y + "\n"] else [])
          + (if r && zs then [z + "\n"] else []) + (if ws then [w + "\n"] else [])
  {
    EchoesFour(Part(p, x, xs), Part(q, y, ys), Part(r, z, zs), [(w, ws)]);
    EchoesPart(p, x, xs);
    EchoesPart(q, y, ys);
    EchoesPart(r, z, zs);
    EchoesPart(true, w, ws);
  }

  /** The buffered header does not depend on which of the modes 0..7 is chosen. */
  lemma HeaderBufferIgnoresDisplay(sysStat: bool, date: bool, description: string, d1: int, d2: int,
                                   v1: bool, v2: bool, info: PlatformInfo, dateText: string)
    requires 0 <= d1 <= 7 && 0 <= d2 <= 7
    ensures Entries(HeaderCalls(sysStat, date, description, d1, v1, info, dateText))
         == Entries(HeaderCalls(sysStat, date, description, d2, v2, info, dateText))
  {
    HeaderBufferContents(sysStat, date, description, d1, v1, info, dateText);
    HeaderBufferContents(sysStat, date, description, d2, v2, info, dateText);
  }

  /** The buffered header: the selected parts in the order system information,
      date, description (the last only when non-empty), then the version line. */
  lemma HeaderBufferContents(sysStat: bool, date: bool, description: string, display: int, version: bool,
                             info: PlatformInfo, dateText: string)
    requires 0 <= display <= 7
    ensures Entries(HeaderCalls(sysStat, date, description, display, version, info, dateText))
         == (if sysStat then [SystemText(info) + "\n"] else [])
          + (if date then [dateText + "\n" + "\n"] else [])
          + (if description != "" then [description + "\n"] else [])
          + [GetVersion(true) + "\n"]
  {
    var (s, t, u) := Echoed(display);
    HeaderCallsInRange(sysStat, date, description, display, version, info, dateText);
    PartsEntries(sysStat, SystemText(info), s, date, dateText + "\n", t,
                 description != "", description, u, GetVersion(true), version);
  }

  /** Outside 0..7 the header buffers the version line alone. */
  lemma HeaderOutOfRange(sysStat: bool, date: bool, description: string, display: int, version: bool,
                         info: PlatformInfo, dateText: string)
    requires display < 0 || display > 7
    ensures Entries(HeaderCalls(sysStat, date, description, display, version, info, dateText))
         == [GetVersion(true) + "\n"]
  {
    var v := [(GetVersion(true), version)];
    assert HeaderCalls(sysStat, date, description, display, version, info, dateText) == v;
    EntriesPart(true, GetVersion(true), version);
  }

  /** Outside 0..7 the header prints the version line alone, and only when
      `version` is set. */
  lemma HeaderOutOfRangeEchoes(sysStat: bool, date: bool, description: string, display: int, version: bool,
                               info: PlatformInfo, dateText: string)
    requires display < 0 || display > 7
    ensures Echoes(HeaderCalls(sysStat, date, description, display, version, info, dateText))
         == if version then [GetVersion(true) + "\n"] else []
  {
    assert HeaderCalls(sysStat, date, description, display, version, info, dateText)
        == [(GetVersion(true), version)];
    EchoesPart(true, GetVersion(true), version);
  }

  /** The banner the header always ends with. */
  lemma VersionBanner()
    ensures GetVersion(true) == "This is fileloghelper on v1.3.0!"
  {
  }

  /** A selected part is printed exactly when the mode's row says so; the
      version line is printed exactly when `version` is set. */
  lemma HeaderEchoes(sysStat: bool, date: bool, description: string, display: int, version: bool,
                     info: PlatformInfo, dateText: string)
    requires 0 <= display <= 7
    ensures var (s, t, u) := Echoed(display);
      Echoes(HeaderCalls(sysStat, date, description, display, version, info, dateText))
      == (if sysStat && s then [SystemText(info) + "\n"] else [])
       + (if date && t then [dateText + "\n" + "\n"] else [])
       + (if description != "" && u then [description + "\n"] else [])
       + (if version then [GetVersion(true) + "\n"] else [])
  {
    var (s, t, u) := Echoed(display);
    HeaderCallsInRange(sysStat, date, description, display, version, info, dateText);
    PartsEchoes(sysStat, SystemText(info), s, date, dateText + "\n", t,
                description != "", description, u, GetVersion(true), version);
  }
}
