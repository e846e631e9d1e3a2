/** The filter and line numbers: what -b and -l do for whoever reads the output. */
module IfdefNumbers {
  import opened Wrappers
  import opened IfdefLines
  import opened IfdefFilter
  import opened CPreprocessor
  import opened IfdefMeaning
  import opened IfdefWitnesses

  /** Everything printed for `lines` from state `m` on. */
  function Emitted(c: Config, m: Machine, lineno: nat, prline: nat, lines: seq<string>): seq<Out>
    decreases |lines|
  {
    if lines == [] || Misplaced(m, Classify(lines[0])) then []
    else
      var d := Classify(lines[0]);
      var (printed, pr) := Print(c.cut, Shown(c.known, c.striphash, m, d), lines[0], lineno + 1, prline);
      printed + Emitted(c, Advance(c.known, m, d), lineno + 1, pr, lines[1..])
  }

  lemma {:induction false} RunPrintsEmitted(c: Config, g: Progress, lines: seq<string>)
    requires g.status.Done?
    ensures RunLines(c, g, lines).out == g.out + Emitted(c, g.m, g.lineno, g.prline, lines)
    decreases |lines|
  {
    hide Classify, Shown, Advance, Print;
    if lines != [] {
      var h := StepLine(c, g, lines[0]);
      if h.status.Done? {
        RunPrintsEmitted(c, h, lines[1..]);
      }
    }
  }

  // ----- -b and -c: nothing moves -----

  /** The input lines among what is printed. */
  function RawLines(out: seq<Out>): seq<string> {
    if out == [] then []
    else (if out[0].Raw? then [out[0].line] else []) + RawLines(out[1..])
  }

  /** No #else or #endif stands outside every conditional, so the tool does not
      give up. */
  predicate Accepted(known: Known, m: Machine, lines: seq<string>)
    decreases |lines|
  {
    lines == [] ||
    (!Misplaced(m, Classify(lines[0])) && Accepted(known, Advance(known, m, Classify(lines[0])), lines[1..]))
  }

  /** With -b or -c each input line is answered by one output line, itself if the
      filter keeps it and otherwise a blank or a comment, so what survives keeps its
      place. */
  lemma {:induction false} PlacesKept(c: Config, m: Machine, lineno: nat, prline: nat, lines: seq<string>)
    requires (c.cut == BlankLines || c.cut == CommentOut) && !c.striphash && Accepted(c.known, m, lines)
    ensures var out := Emitted(c, m, lineno, prline, lines);
            && |out| == |lines|
            && (forall i :: 0 <= i < |lines| ==>
                  out[i] == Raw(lines[i]) || out[i] == if c.cut == BlankLines then Blank else Commented(lines[i]))
            && RawLines(out) == Kept(c.known, m, lines)
    decreases |lines|
  {
    hide Classify, Shown, Advance;
    if lines != [] {
      var d := Classify(lines[0]);
      PlacesKept(c, Advance(c.known, m, d), lineno + 1, prline, lines[1..]);
      var rest := Emitted(c, Advance(c.known, m, d), lineno + 1, prline, lines[1..]);
      var (printed, _) := Print(c.cut, Shown(c.known, false, m, d), lines[0], lineno + 1, prline);
      assert (printed + rest)[1..] == rest;
    }
  }

  // ----- -l: numbers come back -----

  datatype Numbered = Numbered(n: nat, line: string)

  /** The lines processed, with the numbers they stand on. */
  function Numbering(env: Env, past: seq<string>, frames: seq<Frame>, n: nat, lines: seq<string>): seq<Numbered>
    decreases |lines|
  {
    if lines == [] then []
    else
      var line, g := lines[0], Read(lines[0]);
      if Inner(g) && frames == [] then []
      else
        (if Ordinary(g) && AllTaken(frames) then [Numbered(n, line)] else [])
        + Numbering(env, Recall(past, frames, line, g), Enter(env, past, frames, line, g), n + 1, lines[1..])
  }

  /** The same for a compiler reading the filter's output: a line mark renumbers
      the line after it, provided it is not itself skipped (ISO/IEC 9899:1999
      section 6.10.4). */
  function ReadBack(env: Env, past: seq<string>, frames: seq<Frame>, n: nat, out: seq<Out>): seq<Numbered>
    decreases |out|
  {
    if out == [] then []
    else
      match out[0]
      case LineMark(k) => ReadBack(env, past, frames, if AllTaken(frames) then k else n + 1, out[1..])
      case Blank => ReadBack(env, past, frames, n + 1, out[1..])
      case Commented(_) => ReadBack(env, past, frames, n + 1, out[1..])
      case Raw(line) =>
        var g := Read(line);
        if Inner(g) && frames == [] then []
        else
          (if Ordinary(g) && AllTaken(frames) then [Numbered(n, line)] else [])
          + ReadBack(env, Recall(past, frames, line, g), Enter(env, past, frames, line, g), n + 1, out[1..])
  }

  /** Whether set_line prints a line mark. */
  predicate Marked(lineno: nat, prline: nat) {
    lineno != prline + 1 && lineno != prline + 2
  }

  /** Whether every line processed is read under its number.  `pending` says that
      a line mark was skipped, standing in a group not taken, and none has been
      honoured since; no line must be processed while it is. */
  predicate NeverMisread(known: Known, env: Env, past: seq<string>, m: Machine, left: seq<Frame>,
                         lineno: nat, prline: nat, pending: bool, lines: seq<string>)
    decreases |lines|
  {
    if lines == [] || Misplaced(m, Classify(lines[0])) then true
    else
      var line, d, g := lines[0], Classify(lines[0]), Read(lines[0]);
      var n := Advance(known, m, d);
      if !Shown(known, false, m, d) then
        NeverMisread(known, env, past, n, left, lineno + 1, prline, pending, lines[1..])
      else if Inner(g) && left == [] then true
      else
        var skipped := if Marked(lineno + 1, prline) then !AllTaken(left) else pending;
        && (Ordinary(g) && AllTaken(left) ==> !skipped)
        && NeverMisread(known, env, Recall(past, left, line, g), n, Enter(env, past, left, line, g),
                        lineno + 1, lineno + 1, skipped, lines[1..])
  }

  /** What the reader makes of one printed line and what set_line puts before it. */
  lemma PrintReads(env: Env, past: seq<string>, left: seq<Frame>, r: nat, prline: nat, n: nat, line: string,
                   rest: seq<Out>)
    requires prline < n && (Inner(Read(line)) ==> left != [])
    ensures var (printed, pr) := Print(HashLines, true, line, n, prline);
            var at := if !Marked(n, prline) then r + (n - prline - 1) else if AllTaken(left) then n else r + 1;
            && pr == n
            && ReadBack(env, past, left, r, printed + rest) ==
                 (if Ordinary(Read(line)) && AllTaken(left) then [Numbered(at, line)] else [])
                 + ReadBack(env, Recall(past, left, line, Read(line)), Enter(env, past, left, line, Read(line)),
                   at + 1, rest)
  {
    hide Read, Enter, Recall, AllTaken;
    var (printed, pr) := Print(HashLines, true, line, n, prline);
    assert ([Raw(line)] + rest)[1..] == rest;
    if |printed| == 2 {
      assert (printed + rest)[1..] == [Raw(line)] + rest;
    }
  }

  /** From any state in step.  The reader counts `r` where set_line would have
      it count `prline + 1`, and never counts ahead. */
  lemma {:induction false} NumbersFrom(c: Config, env: Env, past: seq<string>, m: Machine,
                                       all: seq<Frame>, left: seq<Frame>,
                                       lineno: nat, prline: nat, r: nat, lines: seq<string>)
    requires c.cut == HashLines && !c.striphash && r <= prline + 1 <= lineno + 1
    requires Agrees(env, c.known) && Told(env, c.known, past) && Sim(m, all, left)
    requires WellNested(Flags(all), lines) && Clean(c.known, m, lines) && Understood(c.known, m, lines)
    ensures ReadBack(env, past, left, r, Emitted(c, m, lineno, prline, lines)) ==
              Numbering(env, past, all, lineno + 1, lines)
            <==> NeverMisread(c.known, env, past, m, left, lineno, prline, r != prline + 1, lines)
    decreases |lines|
  {
    hide Classify, Read, Advance, Shown, Sim, Enter, AllTaken, Proper, Track, Told, Agrees, Recall, Understands;
    hide ReadBack, Print;
    SimLive(m, all, left);
    if lines == [] {
      NothingRead(env, past, left, r);
    } else {
      var line, d, g := lines[0], Classify(lines[0]), Read(lines[0]);
      TrackEnter(env, past, all, line, g);
      SimDepth(c.known, m, all, left, line);
      SimStep(c.known, env, past, m, all, left, line);
      TextShown(c.known, m, line);
      LiveIsSteady(c.known, m, all, left, line);
      ToldNext(env, c.known, past, all, line);
      RecallSame(past, all, left, line, g);
      var n := Advance(c.known, m, d);
      var all', past' := Enter(env, past, all, line, g), Recall(past, all, line, g);
      if Shown(c.known, false, m, d) {
        var left' := Enter(env, past, left, line, g);
        var rest := Emitted(c, n, lineno + 1, lineno + 1, lines[1..]);
        var at := if !Marked(lineno + 1, prline) then r + (lineno - prline)
          else if AllTaken(left) then lineno + 1 else r + 1;
        PrintReads(env, past, left, r, prline, lineno + 1, line, rest);
        NumbersFrom(c, env, past', n, all', left', lineno + 1, lineno + 1, at + 1, lines[1..]);
        Cancels(Numbered(at, line), ReadBack(env, past', left', at + 1, rest),
                Numbered(lineno + 1, line), Numbering(env, past', all', lineno + 2, lines[1..]));
      } else {
        NothingPrinted(line, lineno + 1, prline);
        assert [] + Emitted(c, n, lineno + 1, prline, lines[1..]) == Emitted(c, n, lineno + 1, prline, lines[1..]);
        NumbersFrom(c, env, past', n, all', left, lineno + 1, prline, r, lines[1..]);
      }
    }
  }

  lemma Cancels(a: Numbered, s: seq<Numbered>, b: Numbered, t: seq<Numbered>)
    ensures [a] + s == [b] + t <==> a == b && s == t
    ensures [] + s == s && [] + t == t
  {
    if [a] + s == [b] + t {
      assert ([a] + s)[0] == ([b] + t)[0];
      assert ([a] + s)[1..] == s && ([b] + t)[1..] == t;
    }
  }

  lemma NothingRead(env: Env, past: seq<string>, frames: seq<Frame>, n: nat)
    ensures ReadBack(env, past, frames, n, []) == []
  {
  }

  lemma NothingPrinted(line: string, lineno: nat, prline: nat)
    ensures Print(HashLines, false, line, lineno, prline) == ([], prline)
  {
  }

  /** A compiler that honours the blank lines and line marks of -l sees every
      line it processes under its original number exactly when it processes none
      between a mark it skips and the next one it honours, wherever its own count
      stood before.  (The file sets no line numbers itself.) */
  lemma {:induction false} LineNumbersComeBackIff(c: Config, env: Env, at: nat, lines: seq<string>)
    requires c.cut == HashLines && !c.striphash && forall i :: 0 <= i < |lines| ==> Read(lines[i]) != LineControl
    requires Agrees(env, c.known) && WellNested([], lines) && Clean(c.known, START, lines)
        && Understood(c.known, START, lines)
    ensures ReadBack(env, [], [], at, FilterFile(c, [], lines).out) == Numbering(env, [], [], 1, lines)
            <==> NeverMisread(c.known, env, [], START, [], 0, 0, false, lines)
  {
    hide RunLines, Emitted, Numbering, WellNested, Clean, Understood, NeverMisread, Agrees, Told, Classify, Read;
    var emitted := Emitted(c, START, 0, 0, lines);
    RunPrintsEmitted(c, Begin(c, []), lines);
    ToldFirst(env, c.known);
    NumbersFrom(c, env, [], START, [], [], 0, 0, 1, lines);
    assert FilterFile(c, [], lines).out == [LineMark(1)] + emitted;
    assert ([LineMark(1)] + emitted)[1..] == emitted;
    NoneTaken();
  }

  // ----- Files whose numbers always come back -----

  /** No line mark is printed while a conditional the filter cannot decide is open. */
  predicate QuietWhileOpen(known: Known, m: Machine, lineno: nat, prline: nat, lines: seq<string>)
    decreases |lines|
  {
    if lines == [] || Misplaced(m, Classify(lines[0])) then true
    else
      var d := Classify(lines[0]);
      var shown := Shown(known, false, m, d);
      && (shown && Marked(lineno + 1, prline) ==> Owed(m) == 0)
      && QuietWhileOpen(known, Advance(known, m, d), lineno + 1, if shown then lineno + 1 else prline, lines[1..])
  }

  lemma {:induction false} SimOwed(m: Machine, all: seq<Frame>, left: seq<Frame>)
    requires Sim(m, all, left)
    ensures Owed(m) == |left|
    decreases |all|
  {
    if all != [] {
      var inner := Machine(Last(m.stack), Init(m.stack));
      SimOwed(inner, Init(all), if m.keep & 2 != 0 then Init(left) else left);
    }
  }

  lemma {:induction false} QuietFrom(known: Known, env: Env, past: seq<string>, m: Machine,
                                     all: seq<Frame>, left: seq<Frame>, lineno: nat, prline: nat, lines: seq<string>)
    requires Agrees(env, known) && Told(env, known, past) && Sim(m, all, left)
    requires WellNested(Flags(all), lines) && Clean(known, m, lines) && Understood(known, m, lines)
    requires QuietWhileOpen(known, m, lineno, prline, lines)
    ensures NeverMisread(known, env, past, m, left, lineno, prline, false, lines)
    decreases |lines|
  {
    hide Classify, Read, Advance, Shown, Sim, Enter, AllTaken, Proper, Track, Told, Agrees, Recall, Understands, Owed;
    if lines != [] {
      var line, d, g := lines[0], Classify(lines[0]), Read(lines[0]);
      SimLive(m, all, left);
      SimOwed(m, all, left);
      NoneTaken();
      TrackEnter(env, past, all, line, g);
      SimDepth(known, m, all, left, line);
      SimStep(known, env, past, m, all, left, line);
      TextShown(known, m, line);
      LiveIsSteady(known, m, all, left, line);
      ToldNext(env, known, past, all, line);
      RecallSame(past, all, left, line, g);
      var shown := Shown(known, false, m, d);
      QuietFrom(known, env, Recall(past, all, line, g), Advance(known, m, d), Enter(env, past, all, line, g),
                if shown then Enter(env, past, left, line, g) else left,
                lineno + 1, if shown then lineno + 1 else prline, lines[1..]);
    }
  }

  lemma NoneTaken()
    ensures AllTaken([])
  {
  }

  /** What a user can check beforehand: then the numbers come back whatever is
      defined. */
  lemma {:induction false} QuietNumbersComeBack(c: Config, lines: seq<string>)
    requires c.cut == HashLines && !c.striphash && forall i :: 0 <= i < |lines| ==> Read(lines[i]) != LineControl
    requires WellNested([], lines) && Clean(c.known, START, lines) && Understood(c.known, START, lines)
    requires QuietWhileOpen(c.known, START, 0, 0, lines)
    ensures forall env, at: nat :: Agrees(env, c.known) ==>
              ReadBack(env, [], [], at, FilterFile(c, [], lines).out) == Numbering(env, [], [], 1, lines)
  {
    hide WellNested, Clean, Understood, QuietWhileOpen, Told, Agrees, FilterFile, Numbering, ReadBack;
    hide NeverMisread, Read;
    forall env, at: nat | Agrees(env, c.known)
      ensures ReadBack(env, [], [], at, FilterFile(c, [], lines).out) == Numbering(env, [], [], 1, lines)
    {
      ToldFirst(env, c.known);
      QuietFrom(c.known, env, [], START, [], [], 0, 0, lines);
      LineNumbersComeBackIff(c, env, at, lines);
    }
  }

  /** Every conditional of `lines` is one the filter can decide. */
  predicate Decided(known: Known, lines: seq<string>)
    decreases |lines|
  {
    lines == [] ||
    (&& (match Classify(lines[0])
         case Ifdef(name) => known.Lookup(name).Some?
         case Ifndef(name) => known.Lookup(name).Some?
         case If => false
         case _ => true)
     && Decided(known, lines[1..]))
  }

  lemma {:induction false} DecidedIsQuiet(known: Known, m: Machine, lineno: nat, prline: nat, lines: seq<string>)
    requires Decided(known, lines) && Owed(m) == 0
    ensures Clean(known, m, lines) && QuietWhileOpen(known, m, lineno, prline, lines)
    decreases |lines|
  {
    hide Classify, Advance, Shown, Owed;
    if lines != [] && !Misplaced(m, Classify(lines[0])) {
      var d := Classify(lines[0]);
      OwedNothing(known, m, d);
      DecidedIsQuiet(known, Advance(known, m, d), lineno + 1,
                     if Shown(known, false, m, d) then lineno + 1 else prline, lines[1..]);
    }
  }

  /** Deciding a conditional leaves nothing open. */
  lemma OwedNothing(known: Known, m: Machine, d: Directive)
    requires !Misplaced(m, d) && Owed(m) == 0
    requires match d
             case Ifdef(name) => known.Lookup(name).Some?
             case Ifndef(name) => known.Lookup(name).Some?
             case If => false
             case _ => true
    ensures Owed(Advance(known, m, d)) == 0
  {
    OwedStep(known, m, d);
    DecidedIsNotShown(known, m, d);
    hide Owed, Shown, Advance;
  }

  lemma DecidedIsNotShown(known: Known, m: Machine, d: Directive)
    requires d.Ifdef? || d.Ifndef? ==> known.Lookup(d.name).Some?
    requires !Misplaced(m, d) && !d.If?
    ensures Opens(d) ==> !Shown(known, false, m, d)
  {
  }

  /** With every conditional known, each line is seen under its original number. */
  lemma {:induction false} LineNumbersComeBack(c: Config, lines: seq<string>)
    requires c.cut == HashLines && !c.striphash && forall i :: 0 <= i < |lines| ==> Read(lines[i]) != LineControl
    requires WellNested([], lines) && Understood(c.known, START, lines) && Decided(c.known, lines)
    ensures forall env, at: nat :: Agrees(env, c.known) ==>
              ReadBack(env, [], [], at, FilterFile(c, [], lines).out) == Numbering(env, [], [], 1, lines)
  {
    hide WellNested, Clean, Understood, QuietWhileOpen, Agrees, FilterFile, Numbering, ReadBack, Decided, Read;
    DecidedIsQuiet(c.known, START, 0, 0, lines);
    QuietNumbersComeBack(c, lines);
  }

  // ----- A file whose numbers do not -----

  /** `mx` is the state inside #ifdef X, `ma` that inside #ifdef A. */
  predicate Undecided(known: Known, mx: Machine, ma: Machine) {
    && mx.stack != [] && ma.stack != []
    && Advance(known, START, Ifdef("X")) == mx && Shown(known, false, START, Ifdef("X"))
    && Advance(known, mx, Ifdef("A")) == ma && !Shown(known, false, mx, Ifdef("A"))
    && Advance(known, ma, Endif) == mx && !Shown(known, false, ma, Endif)
    && Advance(known, mx, Endif) == START && Shown(known, false, mx, Endif)
    && Advance(known, START, Text) == START && Shown(known, false, START, Text)
  }

  lemma UndecidedStates(known: Known) returns (mx: Machine, ma: Machine)
    requires known.Lookup("A") == Some(U) && known.Lookup("X") == None
    ensures Undecided(known, mx, ma)
  {
    mx, ma := Machine(3, [1]), Machine(0, [1, 3]);
    UndecidedOpens(known);
    UndecidedCloses(known);
  }

  lemma UndecidedOpens(known: Known)
    requires known.Lookup("A") == Some(U) && known.Lookup("X") == None
    ensures Advance(known, START, Ifdef("X")) == Machine(3, [1]) && Shown(known, false, START, Ifdef("X"))
    ensures Advance(known, Machine(3, [1]), Ifdef("A")) == Machine(0, [1, 3])
    ensures !Shown(known, false, Machine(3, [1]), Ifdef("A"))
    ensures Advance(known, START, Text) == START && Shown(known, false, START, Text)
  {
    assert [] + [START.keep] == [1];
  }

  lemma UndecidedCloses(known: Known)
    ensures Advance(known, Machine(0, [1, 3]), Endif) == Machine(3, [1])
    ensures !Shown(known, false, Machine(0, [1, 3]), Endif)
    ensures Advance(known, Machine(3, [1]), Endif) == START && Shown(known, false, Machine(3, [1]), Endif)
  {
    assert [1, 3][..1] == [1] && [1][..0] == [];
  }

  lemma EmitsOn(c: Config, m: Machine, lineno: nat, prline: nat, line: string, rest: seq<string>,
                printed: seq<Out>, pr: nat)
    requires !Misplaced(m, Classify(line))
    requires Print(c.cut, Shown(c.known, c.striphash, m, Classify(line)), line, lineno + 1, prline) == (printed, pr)
    ensures Emitted(c, m, lineno, prline, [line] + rest) ==
              printed + Emitted(c, Advance(c.known, m, Classify(line)), lineno + 1, pr, rest)
  {
    hide Classify, Advance, Shown, Print;
    assert ([line] + rest)[1..] == rest;
  }

  lemma UndecidedPrints(c: Config, mx: Machine, ma: Machine, ifdefX: string, ifdefA: string, endif: string,
                        text: string)
    requires c.cut == HashLines && !c.striphash && Undecided(c.known, mx, ma)
    requires Classify(ifdefX) == Ifdef("X") && Classify(ifdefA) == Ifdef("A")
    requires Classify(endif) == Endif && Classify(text) == Text
    ensures Emitted(c, START, 0, 0, [ifdefX] + ([ifdefA] + ([endif] + ([endif] + [text])))) ==
              [Raw(ifdefX)] + ([LineMark(4), Raw(endif)] + [Raw(text)])
  {
    PrintsAround(ifdefX, endif, text);
    hide Classify, Emitted, Advance, Shown, Print;
    var none: seq<string> := [];
    var l4 := [endif] + [text];
    var l3 := [endif] + l4;
    EmitsOn(c, START, 0, 0, ifdefX, [ifdefA] + l3, [Raw(ifdefX)], 1);
    EmitsOn(c, mx, 1, 1, ifdefA, l3, [], 1);
    EmitsOn(c, ma, 2, 1, endif, l4, [], 1);
    EmitsOn(c, mx, 3, 1, endif, [text], [LineMark(4), Raw(endif)], 4);
    EmitsOn(c, START, 4, 4, text, none, [Raw(text)], 5);
    EmitsNone(c, START, 5, 5);
    assert [text] + none == [text];
  }

  lemma PrintsAround(ifdefX: string, endif: string, text: string)
    ensures Print(HashLines, true, ifdefX, 1, 0) == ([Raw(ifdefX)], 1)
    ensures Print(HashLines, true, endif, 4, 1) == ([LineMark(4), Raw(endif)], 4)
    ensures Print(HashLines, true, text, 5, 4) == ([Raw(text)], 5)
    ensures forall line: string, n: nat :: Print(HashLines, false, line, n, 1) == ([], 1)
  {
  }

  lemma EmitsNone(c: Config, m: Machine, lineno: nat, prline: nat)
    ensures Emitted(c, m, lineno, prline, []) == []
  {
  }

  lemma NumbersOn(env: Env, frames: seq<Frame>, n: nat, line: string, rest: seq<string>)
    requires Begins(Read(line)) || (Read(line).EndifLine? && frames != [])
    ensures Numbering(env, [], frames, n, [line] + rest) ==
              Numbering(env, [], Enter(env, [], frames, line, Read(line)), n + 1, rest)
  {
    hide Read, Enter;
    assert ([line] + rest)[1..] == rest;
    assert [] + Numbering(env, [], Enter(env, [], frames, line, Read(line)), n + 1, rest) ==
           Numbering(env, [], Enter(env, [], frames, line, Read(line)), n + 1, rest);
  }

  lemma UndecidedGroups(env: Env, ifdefX: string, ifdefA: string, endif: string)
    ensures var x := [Frame(false, env.defined("X"), false)];
            var a := x + [Frame(false, env.defined("A"), false)];
            && Enter(env, [], [], ifdefX, IfDefined("X")) == x && Enter(env, [], x, ifdefA, IfDefined("A")) == a
            && Enter(env, [], a, endif, EndifLine) == x && Enter(env, [], x, endif, EndifLine) == []
            && AllTaken(x) == env.defined("X")
  {
    var x := [Frame(false, env.defined("X"), false)];
    assert Init(x) == [] && Init(x + [Frame(false, env.defined("A"), false)]) == x;
  }

  lemma UndecidedNumbering(env: Env, ifdefX: string, ifdefA: string, endif: string, text: string)
    requires Read(ifdefX) == IfDefined("X") && Read(ifdefA) == IfDefined("A")
    requires Read(endif) == EndifLine && Read(text) == PlainLine
    ensures Numbering(env, [], [], 1, [ifdefX] + ([ifdefA] + ([endif] + ([endif] + [text])))) == [Numbered(5, text)]
  {
    hide Read, Enter, Numbering;
    var x := [Frame(false, env.defined("X"), false)];
    var a := x + [Frame(false, env.defined("A"), false)];
    UndecidedGroups(env, ifdefX, ifdefA, endif);
    NumbersOn(env, [], 1, ifdefX, [ifdefA] + ([endif] + ([endif] + [text])));
    NumbersOn(env, x, 2, ifdefA, [endif] + ([endif] + [text]));
    NumbersOn(env, a, 3, endif, [endif] + [text]);
    NumbersOn(env, x, 4, endif, [text]);
    TextNumbered(env, 5, text);
  }

  lemma TextNumbered(env: Env, n: nat, text: string)
    requires Read(text) == PlainLine
    ensures Numbering(env, [], [], n, [text]) == [Numbered(n, text)] == ReadBack(env, [], [], n, [Raw(text)])
  {
    hide Read;
    assert [text][1..] == [] && [Raw(text)][1..] == [];
  }

  lemma ReadsRaw(env: Env, frames: seq<Frame>, n: nat, line: string, rest: seq<Out>)
    requires Begins(Read(line)) || (Read(line).EndifLine? && frames != [])
    ensures ReadBack(env, [], frames, n, [Raw(line)] + rest) ==
              ReadBack(env, [], Enter(env, [], frames, line, Read(line)), n + 1, rest)
  {
    hide Read, Enter;
    assert ([Raw(line)] + rest)[1..] == rest;
    assert [] + ReadBack(env, [], Enter(env, [], frames, line, Read(line)), n + 1, rest) ==
           ReadBack(env, [], Enter(env, [], frames, line, Read(line)), n + 1, rest);
  }

  lemma ReadsMark(env: Env, frames: seq<Frame>, n: nat, k: nat, rest: seq<Out>)
    ensures ReadBack(env, [], frames, n, [LineMark(k)] + rest) ==
              ReadBack(env, [], frames, if AllTaken(frames) then k else n + 1, rest)
  {
    assert ([LineMark(k)] + rest)[1..] == rest;
  }

  lemma UndecidedReading(env: Env, ifdefX: string, endif: string, text: string)
    requires Read(ifdefX) == IfDefined("X") && Read(endif) == EndifLine && Read(text) == PlainLine
    requires !env.defined("X")
    ensures ReadBack(env, [], [], 1, [Raw(ifdefX)] + ([LineMark(4), Raw(endif)] + [Raw(text)])) == [Numbered(4, text)]
  {
    hide Read, Enter, AllTaken, ReadBack;
    var x := [Frame(false, false, false)];
    UndecidedGroups(env, ifdefX, ifdefX, endif);
    ReadsRaw(env, [], 1, ifdefX, [LineMark(4)] + ([Raw(endif)] + [Raw(text)]));
    ReadsMark(env, x, 2, 4, [Raw(endif)] + [Raw(text)]);
    ReadsRaw(env, x, 3, endif, [Raw(text)]);
    TextNumbered(env, 4, text);
    assert [LineMark(4), Raw(endif)] + [Raw(text)] == [LineMark(4)] + ([Raw(endif)] + [Raw(text)]);
  }

  /** With X left open and undefined, the line mark before the outer #endif is
      skipped, and the text on line 5 is taken for line 4. */
  lemma {:induction false} UndecidedLosesNumbers(c: Config, env: Env)
    requires c.cut == HashLines && !c.striphash && c.known.Lookup("A") == Some(U) && c.known.Lookup("X") == None
    requires !env.defined("X")
    ensures var lines := ["#ifdef X\n", "#ifdef A\n", "#endif\n", "#endif\n", "x\n"];
            && ReadBack(env, [], [], 1, FilterFile(c, [], lines).out) == [Numbered(4, "x\n")]
            && Numbering(env, [], [], 1, lines) == [Numbered(5, "x\n")]
  {
    Literals();
    hide *;
    UndecidedFile(c, env, "#ifdef X\n", "#ifdef A\n", "#endif\n", "x\n");
    FiveLines("#ifdef X\n", "#ifdef A\n", "#endif\n", "#endif\n", "x\n");
  }

  lemma UndecidedFile(c: Config, env: Env, ifdefX: string, ifdefA: string, endif: string, text: string)
    requires c.cut == HashLines && !c.striphash && c.known.Lookup("A") == Some(U) && c.known.Lookup("X") == None
    requires Classify(ifdefX) == Ifdef("X") && Classify(ifdefA) == Ifdef("A")
    requires Classify(endif) == Endif && Classify(text) == Text
    requires Read(ifdefX) == IfDefined("X") && Read(ifdefA) == IfDefined("A")
    requires Read(endif) == EndifLine && Read(text) == PlainLine && !env.defined("X")
    ensures var lines := [ifdefX] + ([ifdefA] + ([endif] + ([endif] + [text])));
            && ReadBack(env, [], [], 1, FilterFile(c, [], lines).out) == [Numbered(4, text)]
            && Numbering(env, [], [], 1, lines) == [Numbered(5, text)]
  {
    hide Classify, Read, Emitted, Numbering, RunLines, ReadBack, AllTaken, Undecided;
    var lines := [ifdefX] + ([ifdefA] + ([endif] + ([endif] + [text])));
    RunPrintsEmitted(c, Begin(c, []), lines);
    var mx, ma := UndecidedStates(c.known);
    UndecidedPrints(c, mx, ma, ifdefX, ifdefA, endif, text);
    UndecidedReading(env, ifdefX, endif, text);
    UndecidedNumbering(env, ifdefX, ifdefA, endif, text);
    var emitted := Emitted(c, START, 0, 0, lines);
    assert FilterFile(c, [], lines).out == [LineMark(1)] + emitted;
    ReadsMark(env, [], 1, 1, emitted);
    NoneTaken();
  }
}
