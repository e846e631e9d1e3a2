/** How the tool ends, and what -h strips. */
module IfdefModes {
  import opened Wrappers
  import opened IfdefLines
  import opened IfdefFilter
  import opened CPreprocessor
  import opened IfdefMeaning
  import opened IfdefNumbers

  // ----- Done or fatal -----

  /** As many conditionals closed as opened, none before it was opened, and no
      #else outside. */
  predicate Balanced(depth: nat, lines: seq<string>)
    decreases |lines|
  {
    if lines == [] then depth == 0
    else
      match Classify(lines[0])
      case Ifdef(_) => Balanced(depth + 1, lines[1..])
      case Ifndef(_) => Balanced(depth + 1, lines[1..])
      case If => Balanced(depth + 1, lines[1..])
      case Else => depth > 0 && Balanced(depth, lines[1..])
      case Endif => depth > 0 && Balanced(depth - 1, lines[1..])
      case _ => Balanced(depth, lines[1..])
  }

  lemma StepDepth(c: Config, g: Progress, line: string)
    ensures var d, h := Classify(line), StepLine(c, g, line);
            if (d.Else? || d.Endif?) && g.m.stack == [] then h.status.Fatal?
            else
              && h.status == Done
              && |h.m.stack| == |g.m.stack| + (if Opens(d) then 1 else if d.Endif? then -1 else 0)
  {
    hide Classify, Shown, Print;
  }

  lemma {:induction false} RunBalanced(c: Config, g: Progress, lines: seq<string>)
    requires g.status.Done?
    ensures var r := RunLines(c, g, lines);
            r.status.Done? && r.m.stack == [] <==> Balanced(|g.m.stack|, lines)
    decreases |lines|
  {
    hide Classify, StepLine;
    if lines != [] {
      StepDepth(c, g, lines[0]);
      var h := StepLine(c, g, lines[0]);
      if h.status.Done? {
        RunBalanced(c, h, lines[1..]);
      }
    }
  }

  /** The tool ends well exactly when the conditionals it sees are balanced. */
  lemma {:induction false} EndsDoneIff(c: Config, out: seq<Out>, lines: seq<string>)
    ensures FilterFile(c, out, lines).status == Done <==> Balanced(0, lines)
  {
    hide RunLines, Balanced;
    RunBalanced(c, Begin(c, out), lines);
  }

  lemma {:induction false} NestedIsBalanced(open: seq<bool>, lines: seq<string>)
    requires WellNested(open, lines) && ReadAlike(lines)
    ensures Balanced(|open|, lines)
    decreases |lines|
  {
    hide Classify, Read;
    if lines != [] {
      assert Same(Classify(lines[0]), Read(lines[0]));
      NestedIsBalanced(Track(open, Read(lines[0])), lines[1..]);
    }
  }

  /** So it does on every well-nested file that it reads as the standard does. */
  lemma {:induction false} NestedEndsDone(c: Config, out: seq<Out>, lines: seq<string>)
    requires WellNested([], lines) && ReadAlike(lines)
    ensures FilterFile(c, out, lines).status == Done
  {
    hide FilterFile, WellNested, ReadAlike, Balanced;
    NestedIsBalanced([], lines);
    EndsDoneIff(c, out, lines);
  }

  /** The first directive outside every conditional ends the run with its own
      message, and so does a conditional left open. */
  lemma {:induction false} FatalTells(c: Config, out: seq<Out>, before: seq<string>, line: string, after: seq<string>)
    ensures Balanced(0, before) && Classify(line) == Else ==>
              FilterFile(c, out, before + ([line] + after)).status == Fatal("#else at top level")
    ensures Balanced(0, before) && Classify(line) == Endif ==>
              FilterFile(c, out, before + ([line] + after)).status == Fatal("Too many endif's")
  {
    hide RunLines, Balanced, StepLine, Classify;
    var g := Begin(c, out);
    RunBalanced(c, g, before);
    RunJoined(c, g, before, [line] + after);
    var b := RunLines(c, g, before);
    if Balanced(0, before) && (Classify(line) == Else || Classify(line) == Endif) {
      MisplacedStops(c, b, line, after);
    }
  }

  lemma MisplacedStops(c: Config, g: Progress, line: string, after: seq<string>)
    requires g.status.Done? && g.m.stack == [] && (Classify(line) == Else || Classify(line) == Endif)
    ensures var r := RunLines(c, g, [line] + after);
            r.status == Fatal(if Classify(line) == Else then "#else at top level" else "Too many endif's")
  {
    hide Classify;
    assert ([line] + after)[1..] == after;
  }

  lemma {:induction false} RunJoined(c: Config, g: Progress, a: seq<string>, b: seq<string>)
    ensures RunLines(c, g, a + b) == RunLines(c, RunLines(c, g, a), b)
    decreases |a|
  {
    hide StepLine;
    if a == [] {
      assert a + b == b;
    } else {
      assert (a + b)[1..] == a[1..] + b;
      RunJoined(c, StepLine(c, g, a[0]), a[1..], b);
    }
  }

  /** No directive stands outside every conditional. */
  predicate Inside(depth: nat, lines: seq<string>)
    decreases |lines|
  {
    if lines == [] then true
    else
      match Classify(lines[0])
      case Ifdef(_) => Inside(depth + 1, lines[1..])
      case Ifndef(_) => Inside(depth + 1, lines[1..])
      case If => Inside(depth + 1, lines[1..])
      case Else => depth > 0 && Inside(depth, lines[1..])
      case Endif => depth > 0 && Inside(depth - 1, lines[1..])
      case _ => Inside(depth, lines[1..])
  }

  lemma {:induction false} RunInside(c: Config, g: Progress, lines: seq<string>)
    requires g.status.Done? && Inside(|g.m.stack|, lines)
    ensures RunLines(c, g, lines).status.Done?
    decreases |lines|
  {
    hide Classify, StepLine;
    if lines != [] {
      StepDepth(c, g, lines[0]);
      RunInside(c, StepLine(c, g, lines[0]), lines[1..]);
    }
  }

  /** Lines that only leave conditionals open end with that message. */
  lemma {:induction false} OpenTells(c: Config, out: seq<Out>, lines: seq<string>)
    requires Inside(0, lines) && !Balanced(0, lines)
    ensures FilterFile(c, out, lines).status == Fatal("Not enough endif's")
  {
    hide RunLines, Balanced, Inside;
    RunInside(c, Begin(c, out), lines);
    RunBalanced(c, Begin(c, out), lines);
  }

  /** What a file prints follows what was printed before, under -l after a first
      mark, and does not depend on it. */
  lemma {:induction false} OutputFollows(c: Config, out: seq<Out>, lines: seq<string>)
    ensures FilterFile(c, out, lines).out ==
              out + (if c.cut == HashLines then [LineMark(1)] else []) + Emitted(c, Machine(1, []), 0, 0, lines)
    ensures c.cut == Delete && !c.striphash ==>
              FilterFile(c, out, lines).out == out + AsOut(Kept(c.known, Machine(1, []), lines))
  {
    hide RunLines, Emitted, Kept;
    RunPrintsEmitted(c, Begin(c, out), lines);
    if c.cut == Delete && !c.striphash {
      DeletePrintsKept(c, Begin(c, out), lines);
    }
    assert out + [] == out;
  }

  // ----- -h -----

  function TextOnly(lines: seq<string>): seq<string> {
    if lines == [] then []
    else (if Classify(lines[0]) == Text then [lines[0]] else []) + TextOnly(lines[1..])
  }

  /** The filter has left no conditional alone. */
  predicate NoneLeft(m: Machine) {
    m.keep & 2 == 0 && forall i :: 0 <= i < |m.stack| ==> m.stack[i] & 2 == 0
  }

  lemma StripStep(known: Known, m: Machine, d: Directive)
    requires !Misplaced(m, d) && NoneLeft(m) && !d.If?
    requires d.Ifdef? || d.Ifndef? ==> known.Lookup(d.name).Some?
    ensures NoneLeft(Advance(known, m, d))
    ensures Shown(known, true, m, d) <==> Shown(known, false, m, d) && d == Text
  {
  }

  /** With every conditional known, -h prints the text lines that are kept without
      it, and no line that starts with a hash sign. */
  lemma {:induction false} HashesStripped(c: Config, m: Machine, lineno: nat, prline: nat, lines: seq<string>)
    requires c.cut == Delete && c.striphash && Decided(c.known, lines) && NoneLeft(m)
    ensures RawLines(Emitted(c, m, lineno, prline, lines)) == TextOnly(Kept(c.known, m, lines))
    decreases |lines|
  {
    hide Classify, Shown, NoneLeft, Advance, Misplaced;
    if lines != [] && !Misplaced(m, Classify(lines[0])) {
      var d := Classify(lines[0]);
      StripStep(c.known, m, d);
      var n := Advance(c.known, m, d);
      var (printed, pr) := Print(c.cut, Shown(c.known, true, m, d), lines[0], lineno + 1, prline);
      HashesStripped(c, n, lineno + 1, pr, lines[1..]);
      var rest, kept := Emitted(c, n, lineno + 1, pr, lines[1..]), Kept(c.known, n, lines[1..]);
      assert ([Raw(lines[0])] + rest)[1..] == rest && [] + rest == rest;
      assert ([lines[0]] + kept)[1..] == kept && [] + kept == kept;
    }
  }
}
