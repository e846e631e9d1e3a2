/** A preprocessor by the standard (ISO/IEC 9899:1999 section 6.10), as far as it
    decides which lines are processed.  It reads lines its own way. */
module CPreprocessor {
  import opened Wrappers
  import opened IfdefLines

  // ----- Reading a line -----

  datatype Line =
    | PlainLine
    | OtherDirective
    | LineControl
    | Define(name: string)
    | Undef(name: string)
    | IfDefined(name: string)
    | IfNotDefined(name: string)
    | IfExpr
    | ElifExpr
    | ElseLine
    | EndifLine

  predicate IdentifierChar(c: char) {
    'a' <= c <= 'z' || 'A' <= c <= 'Z' || '0' <= c <= '9' || c == '_'
  }

  function Identifier(s: string): (w: string)
    ensures |w| <= |s|
  {
    if s == [] || !IdentifierChar(s[0]) then [] else [s[0]] + Identifier(s[1..])
  }

  /** The hash sign, or the digraph that stands for it, may be indented; the
      directive is named by a whole identifier, as is the macro after it. */
  function Read(line: string): Line {
    var p := SkipSpace(line);
    if !(['#'] <= p) && !("%:" <= p) then PlainLine
    else
      var q := SkipBlanks(if p[0] == '#' then p[1..] else p[2..]);
      var word := Identifier(q);
      Directed(word, Identifier(SkipBlanks(q[|word|..])))
  }

  function Directed(word: string, name: string): Line {
    if word == "ifdef" then IfDefined(name)
    else if word == "ifndef" then IfNotDefined(name)
    else if word == "if" then IfExpr
    else if word == "elif" then ElifExpr
    else if word == "else" then ElseLine
    else if word == "endif" then EndifLine
    else if word == "define" then Define(name)
    else if word == "undef" then Undef(name)
    else if word == "line" then LineControl
    else OtherDirective
  }

  predicate Begins(g: Line) {
    g.IfDefined? || g.IfNotDefined? || g.IfExpr?
  }

  /** Lines that need an open conditional. */
  predicate Inner(g: Line) {
    g.ElifExpr? || g.ElseLine? || g.EndifLine?
  }

  /** Lines that are processed when their group is. */
  predicate Ordinary(g: Line) {
    !Begins(g) && !Inner(g)
  }

  // ----- Nesting -----

  function Last<T>(s: seq<T>): T
    requires s != []
  {
    s[|s| - 1]
  }

  function Init<T>(s: seq<T>): seq<T>
    requires s != []
  {
    s[..|s| - 1]
  }

  /** `open` tells of each open conditional whether its #else has been passed. */
  predicate Proper(open: seq<bool>, g: Line) {
    && (Inner(g) ==> open != [])
    && (g.ElseLine? || g.ElifExpr? ==> !Last(open))
  }

  function Track(open: seq<bool>, g: Line): seq<bool>
    requires Proper(open, g)
  {
    if Begins(g) then open + [false]
    else if g.ElseLine? then Init(open) + [true]
    else if g.EndifLine? then Init(open)
    else open
  }

  /** Every conditional opened is closed, with at most one #else each, at its end. */
  predicate WellNested(open: seq<bool>, lines: seq<string>)
    decreases |lines|
  {
    if lines == [] then open == []
    else Proper(open, Read(lines[0])) && WellNested(Track(open, Read(lines[0])), lines[1..])
  }

  // ----- Which groups are processed -----

  /** What a file does not say itself: the names defined at its start, what other
      directives such as #include do to a name, and the values of expressions.
      The last two may depend on the directives processed so far. */
  datatype Env = Env(
    defined: string -> bool,
    alters: (seq<string>, string) -> Option<bool>,
    holds: (seq<string>, string) -> bool)

  /** Whether a name is defined after the directives `past`. */
  predicate Defined(env: Env, past: seq<string>, name: string)
    decreases |past|
  {
    if past == [] then env.defined(name)
    else
      match Read(Last(past))
      case Define(n) => n == name || Defined(env, Init(past), name)
      case Undef(n) => n != name && Defined(env, Init(past), name)
      case _ =>
        var change := env.alters(past, name);
        if change.Some? then change.value else Defined(env, Init(past), name)
  }

  /** An open conditional: whether an earlier group was taken, whether this one
      is, and whether it is the last. */
  datatype Frame = Frame(over: bool, taken: bool, elseSeen: bool)

  predicate AllTaken(frames: seq<Frame>) {
    frames == [] || (Last(frames).taken && AllTaken(Init(frames)))
  }

  function NextGroup(f: Frame, condition: bool, elseSeen: bool): Frame {
    Frame(f.over || f.taken, !f.over && !f.taken && condition, elseSeen)
  }

  function Enter(env: Env, past: seq<string>, frames: seq<Frame>, line: string, g: Line): seq<Frame>
    requires Inner(g) ==> frames != []
  {
    match g
    case IfDefined(name) => frames + [Frame(false, Defined(env, past, name), false)]
    case IfNotDefined(name) => frames + [Frame(false, !Defined(env, past, name), false)]
    case IfExpr => frames + [Frame(false, env.holds(past, line), false)]
    case ElifExpr => Init(frames) + [NextGroup(Last(frames), env.holds(past, line), Last(frames).elseSeen)]
    case ElseLine => Init(frames) + [NextGroup(Last(frames), true, true)]
    case EndifLine => Init(frames)
    case _ => frames
  }

  function Recall(past: seq<string>, frames: seq<Frame>, line: string, g: Line): seq<string> {
    if Ordinary(g) && !g.PlainLine? && AllTaken(frames) then past + [line] else past
  }

  /** The text and the directives that are processed, in order. */
  function Preprocess(env: Env, past: seq<string>, frames: seq<Frame>, lines: seq<string>): seq<string>
    decreases |lines|
  {
    if lines == [] then []
    else
      var line, g := lines[0], Read(lines[0]);
      if Inner(g) && frames == [] then []
      else
        (if Ordinary(g) && AllTaken(frames) then [line] else [])
        + Preprocess(env, Recall(past, frames, line, g), Enter(env, past, frames, line, g), lines[1..])
  }

  function Flags(frames: seq<Frame>): seq<bool> {
    if frames == [] then [] else Flags(Init(frames)) + [Last(frames).elseSeen]
  }

  /** The open conditionals are those of the nesting. */
  lemma TrackEnter(env: Env, past: seq<string>, frames: seq<Frame>, line: string, g: Line)
    requires Proper(Flags(frames), g)
    ensures Inner(g) ==> frames != []
    ensures g.ElseLine? || g.ElifExpr? ==> !Last(frames).elseSeen
    ensures Track(Flags(frames), g) == Flags(Enter(env, past, frames, line, g))
  {
    hide Defined;
    var f := Enter(env, past, frames, line, g);
    if Begins(g) || g.ElseLine? || g.ElifExpr? {
      assert Init(f) == if Begins(g) then frames else Init(frames);
    }
    if frames != [] {
      assert Init(Flags(frames)) == Flags(Init(frames));
      assert Flags(frames) == Flags(Init(frames)) + [Last(frames).elseSeen];
    }
  }
}
