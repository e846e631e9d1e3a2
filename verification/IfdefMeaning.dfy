/** The filter as a program transformation.  Its output, preprocessed by a
    preprocessor that reads lines by the standard, yields what the input yields
    (ISO/IEC 9899:1999 section 6.10.1). */
module IfdefMeaning {
  import opened Wrappers
  import opened IfdefLines
  import opened IfdefFilter
  import opened CPreprocessor

  // ----- The filter in delete mode -----

  /** The lines the filter keeps, started in state `m`. */
  function Kept(known: Known, m: Machine, lines: seq<string>): seq<string>
    decreases |lines|
  {
    if lines == [] || Misplaced(m, Classify(lines[0])) then []
    else
      var d := Classify(lines[0]);
      (if Shown(known, false, m, d) then [lines[0]] else []) + Kept(known, Advance(known, m, d), lines[1..])
  }

  function AsOut(lines: seq<string>): seq<Out> {
    seq(|lines|, i requires 0 <= i < |lines| => Raw(lines[i]))
  }

  lemma DeletesLine(c: Config, g: Progress, line: string)
    requires c.cut == Delete && !c.striphash
    ensures var d, h := Classify(line), StepLine(c, g, line);
            if Misplaced(g.m, d) then h.status.Fatal? && h.out == g.out
            else
              && h.status == Done && h.m == Advance(c.known, g.m, d)
              && h.out == g.out + if Shown(c.known, false, g.m, d) then [Raw(line)] else []
  {
    hide Classify, Shown, Advance;
  }

  /** What the tool prints in delete mode is what is kept. */
  lemma {:induction false} DeletePrintsKept(c: Config, g: Progress, lines: seq<string>)
    requires c.cut == Delete && !c.striphash && g.status.Done?
    ensures RunLines(c, g, lines).out == g.out + AsOut(Kept(c.known, g.m, lines))
    decreases |lines|
  {
    hide Classify, Shown, Advance, StepLine, Misplaced;
    if lines != [] {
      var h := StepLine(c, g, lines[0]);
      DeletesLine(c, g, lines[0]);
      if h.status.Done? {
        var rest := Kept(c.known, h.m, lines[1..]);
        DeletePrintsKept(c, h, lines[1..]);
        assert AsOut([lines[0]] + rest) == [Raw(lines[0])] + AsOut(rest);
        assert [] + rest == rest;
      }
    }
  }

  // ----- Where the two readers agree -----

  predicate Same(d: Directive, g: Line) {
    match d
    case Ifdef(name) => g == IfDefined(name)
    case Ifndef(name) => g == IfNotDefined(name)
    case If => g == IfExpr
    case Else => g == ElseLine
    case Endif => g == EndifLine
    case OtherHash => g.ElifExpr? || (Ordinary(g) && !g.PlainLine?)
    case Text => g == PlainLine
  }

  /** The line does not make a name what the filter was told it is not. */
  predicate Steady(known: Known, g: Line) {
    match g
    case Define(name) => known.Lookup(name) != Some(U)
    case Undef(name) => known.Lookup(name) != Some(D)
    case _ => true
  }

  /** The filter reads the line as the standard does.  An #elif, which it takes
      for some other directive, belongs to a conditional it leaves alone or drops
      as a whole, and names it was told about stay as they are. */
  predicate Understands(known: Known, m: Machine, line: string) {
    && Same(Classify(line), Read(line))
    && (Read(line).ElifExpr? ==> m.stack != [] && (m.keep & 2 != 0 || Last(m.stack) == 0))
    && (m.keep != 0 ==> Steady(known, Read(line)))
  }

  predicate Understood(known: Known, m: Machine, lines: seq<string>)
    decreases |lines|
  {
    lines == [] ||
    (&& Understands(known, m, lines[0])
     && (Misplaced(m, Classify(lines[0])) || Understood(known, Advance(known, m, Classify(lines[0])), lines[1..])))
  }

  /** No plain #if stands in a region the filter has already decided to drop. */
  predicate Clean(known: Known, m: Machine, lines: seq<string>)
    decreases |lines|
  {
    if lines == [] || Misplaced(m, Classify(lines[0])) then true
    else
      var d := Classify(lines[0]);
      (d.If? ==> m.keep != 0) && Clean(known, Advance(known, m, d), lines[1..])
  }

  /** What is told is true at the start, and no included file changes it. */
  ghost predicate Agrees(env: Env, known: Known) {
    && (forall name: string :: known.Lookup(name).Some? ==> env.defined(name) == known.Lookup(name).value.D?)
    && (forall past: seq<string>, name: string :: known.Lookup(name).Some? && env.alters(past, name).Some? ==>
          env.alters(past, name).value == known.Lookup(name).value.D?)
  }

  /** What is told is still true after `past`. */
  ghost predicate Told(env: Env, known: Known, past: seq<string>) {
    forall name: string :: known.Lookup(name).Some? ==> Defined(env, past, name) == known.Lookup(name).value.D?
  }

  lemma ToldFirst(env: Env, known: Known)
    requires Agrees(env, known)
    ensures Told(env, known, [])
  {
  }

  lemma ToldNext(env: Env, known: Known, past: seq<string>, frames: seq<Frame>, line: string)
    requires Agrees(env, known) && Told(env, known, past)
    requires AllTaken(frames) ==> Steady(known, Read(line))
    ensures Told(env, known, Recall(past, frames, line, Read(line)))
  {
    hide Read;
    assert Init(past + [line]) == past;
  }

  // ----- The filter's state against the preprocessor's -----

  /** `all` are the open conditionals of the input and `left` those of the
      output: the ones the filter could not decide. */
  predicate Sim(m: Machine, all: seq<Frame>, left: seq<Frame>)
    decreases |all|
  {
    if all == [] || m.stack == [] then all == [] && m.stack == [] && left == [] && m.keep == 1
    else
      var outer := Last(m.stack);
      if m.keep & 2 != 0 then
        && outer != 0
        && left != [] && Last(left) == Last(all)
        && Sim(Machine(outer, Init(m.stack)), Init(all), Init(left))
      else
        && (if outer == 0 then m.keep == 0
            else (m.keep == 1) == Last(all).taken && (Last(all).over ==> Last(all).elseSeen))
        && Sim(Machine(outer, Init(m.stack)), Init(all), left)
  }

  lemma {:induction false} SimLive(m: Machine, all: seq<Frame>, left: seq<Frame>)
    requires Sim(m, all, left)
    ensures if m.keep != 0 then AllTaken(all) == AllTaken(left) else !AllTaken(all)
    decreases |all|
  {
    if all != [] {
      var inner := Machine(Last(m.stack), Init(m.stack));
      if m.keep & 2 != 0 {
        SimLive(inner, Init(all), Init(left));
      } else {
        SimLive(inner, Init(all), left);
      }
    }
  }

  /** One line keeps the two in step. */
  lemma SimStep(known: Known, env: Env, past: seq<string>, m: Machine, all: seq<Frame>, left: seq<Frame>,
                line: string)
    requires Sim(m, all, left) && Told(env, known, past) && Understands(known, m, line)
    requires var g := Read(line); (Inner(g) ==> all != []) && (g.ElseLine? || g.ElifExpr? ==> !Last(all).elseSeen)
    requires Classify(line).If? ==> m.keep != 0
    ensures !Misplaced(m, Classify(line))
    ensures var d, g := Classify(line), Read(line);
            var shown := Shown(known, false, m, d);
            && (shown && Inner(g) ==> left != [] && Last(left) == Last(all))
            && Sim(Advance(known, m, d), Enter(env, past, all, line, g),
                   if shown then Enter(env, past, left, line, g) else left)
  {
    hide Classify, Read, Told, Sim, Advance, Shown, Enter, Steady;
    var d, g := Classify(line), Read(line);
    if Begins(g) {
      SimOpens(known, env, past, m, all, left, line, d, g);
    } else if Inner(g) {
      SimInner(known, env, past, m, all, left, line, d, g);
    } else {
      SimStays(known, env, past, m, all, left, line, d, g);
    }
  }

  lemma SimStays(known: Known, env: Env, past: seq<string>, m: Machine, all: seq<Frame>, left: seq<Frame>,
                 line: string, d: Directive, g: Line)
    requires Same(d, g) && Ordinary(g)
    ensures Advance(known, m, d) == m
    ensures Enter(env, past, all, line, g) == all && Enter(env, past, left, line, g) == left
  {
  }

  /** A conditional opened: decided, dropped with its surroundings, or left open. */
  lemma SimPush(m: Machine, all: seq<Frame>, left: seq<Frame>, keep: Keep, f: Frame)
    requires Sim(m, all, left) && !f.over
    requires if keep & 2 != 0 then m.keep != 0 else if m.keep == 0 then keep == 0 else (keep == 1) == f.taken
    ensures Sim(Machine(keep, m.stack + [m.keep]), all + [f], if keep & 2 != 0 then left + [f] else left)
  {
    assert Init(m.stack + [m.keep]) == m.stack && Init(all + [f]) == all && Init(left + [f]) == left;
  }

  lemma SimOpens(known: Known, env: Env, past: seq<string>, m: Machine, all: seq<Frame>, left: seq<Frame>,
                 line: string, d: Directive, g: Line)
    requires Sim(m, all, left) && Told(env, known, past) && Same(d, g) && Begins(g)
    requires d.If? ==> m.keep != 0
    ensures Sim(Advance(known, m, d), Enter(env, past, all, line, g),
                if Shown(known, false, m, d) then Enter(env, past, left, line, g) else left)
  {
    hide Defined, Sim;
    var n := Advance(known, m, d);
    SimPush(m, all, left, n.keep, Last(Enter(env, past, all, line, g)));
  }

  lemma SimInner(known: Known, env: Env, past: seq<string>, m: Machine, all: seq<Frame>, left: seq<Frame>,
                 line: string, d: Directive, g: Line)
    requires Sim(m, all, left) && Same(d, g) && Inner(g) && all != []
    requires g.ElseLine? || g.ElifExpr? ==> !Last(all).elseSeen
    requires g.ElifExpr? ==> m.keep & 2 != 0 || Last(m.stack) == 0
    ensures !Misplaced(m, d)
    ensures Shown(known, false, m, d) ==> left != [] && Last(left) == Last(all)
    ensures Sim(Advance(known, m, d), Enter(env, past, all, line, g),
                if Shown(known, false, m, d) then Enter(env, past, left, line, g) else left)
  {
    var all' := Enter(env, past, all, line, g);
    if !g.EndifLine? {
      assert Init(all') == Init(all);
      if left != [] {
        assert Init(Enter(env, past, left, line, g)) == Init(left);
      }
    }
  }

  lemma SameFlags(frames: seq<Frame>, other: seq<Frame>, g: Line)
    requires Proper(Flags(frames), g)
    requires Inner(g) ==> frames != [] && other != [] && Last(other) == Last(frames)
    ensures Proper(Flags(other), g)
  {
  }

  /** From any state in step, input and output mean the same. */
  lemma {:induction false} PreservesFrom(known: Known, env: Env, past: seq<string>, m: Machine,
                                         all: seq<Frame>, left: seq<Frame>, lines: seq<string>)
    requires Agrees(env, known) && Told(env, known, past) && Sim(m, all, left)
    requires WellNested(Flags(all), lines) && Clean(known, m, lines) && Understood(known, m, lines)
    ensures WellNested(Flags(left), Kept(known, m, lines))
    ensures Preprocess(env, past, left, Kept(known, m, lines)) == Preprocess(env, past, all, lines)
    decreases |lines|
  {
    hide Classify, Read, Advance, Shown, Sim, Enter, AllTaken, Proper, Track, Told, Agrees, Recall, Understands;
    SimLive(m, all, left);
    if lines == [] {
      SimEnds(m, all, left);
    } else {
      var line, d, g := lines[0], Classify(lines[0]), Read(lines[0]);
      TrackEnter(env, past, all, line, g);
      SimDepth(known, m, all, left, line);
      SimStep(known, env, past, m, all, left, line);
      TextShown(known, m, line);
      LiveIsSteady(known, m, all, left, line);
      ToldNext(env, known, past, all, line);
      var shown := Shown(known, false, m, d);
      var left' := if shown then Enter(env, past, left, line, g) else left;
      var rest := Kept(known, Advance(known, m, d), lines[1..]);
      PreservesFrom(known, env, Recall(past, all, line, g), Advance(known, m, d),
                    Enter(env, past, all, line, g), left', lines[1..]);
      RecallSame(past, all, left, line, g);
      if shown {
        SameFlags(all, left, g);
        TrackEnter(env, past, left, line, g);
        assert ([line] + rest)[1..] == rest;
      } else {
        assert [] + rest == rest;
      }
    }
  }

  lemma SimEnds(m: Machine, all: seq<Frame>, left: seq<Frame>)
    requires Sim(m, all, left) && Flags(all) == []
    ensures left == [] && m == START
  {
  }

  lemma SimDepth(known: Known, m: Machine, all: seq<Frame>, left: seq<Frame>, line: string)
    requires Sim(m, all, left) && Understands(known, m, line) && Proper(Flags(all), Read(line))
    ensures m.stack == [] <==> all == []
    ensures !Misplaced(m, Classify(line))
  {
    hide Classify, Read;
  }

  /** Ordinary lines are shown exactly when some text is wanted, and nothing is
      shown that ends a wanted region. */
  lemma TextShown(known: Known, m: Machine, line: string)
    requires Understands(known, m, line) && !Misplaced(m, Classify(line))
    ensures Ordinary(Read(line)) ==> Shown(known, false, m, Classify(line)) == (m.keep != 0)
  {
    hide Classify, Read;
  }

  lemma LiveIsSteady(known: Known, m: Machine, all: seq<Frame>, left: seq<Frame>, line: string)
    requires Sim(m, all, left) && Understands(known, m, line)
    ensures AllTaken(all) ==> Steady(known, Read(line))
  {
    hide Classify, Read;
    SimLive(m, all, left);
  }

  lemma RecallSame(past: seq<string>, all: seq<Frame>, left: seq<Frame>, line: string, g: Line)
    ensures AllTaken(all) == AllTaken(left) ==> Recall(past, all, line, g) == Recall(past, left, line, g)
    ensures !AllTaken(all) || !Ordinary(g) ==> Recall(past, all, line, g) == past
    ensures !Ordinary(g) ==> Recall(past, left, line, g) == past
  {
  }

  // ----- When the output is well nested -----

  /** Every line is the same directive to both readers, #elif being none to the filter. */
  predicate ReadAlike(lines: seq<string>) {
    forall i :: 0 <= i < |lines| ==> Same(Classify(lines[i]), Read(lines[i]))
  }

  lemma {:induction false} UnderstoodReadAlike(known: Known, m: Machine, open: seq<bool>, lines: seq<string>)
    requires WellNested(open, lines) && Understood(known, m, lines) && |open| == |m.stack|
    ensures ReadAlike(lines)
    decreases |lines|
  {
    hide Classify, Read;
    if lines != [] {
      var d := Classify(lines[0]);
      UnderstoodReadAlike(known, Advance(known, m, d), Track(open, Read(lines[0])), lines[1..]);
      assert forall i :: 0 < i < |lines| ==> lines[i] == lines[1..][i - 1];
    }
  }

  /** Conditionals opened less conditionals closed. */
  function Net(lines: seq<string>): int {
    if lines == [] then 0
    else
      var d := Classify(lines[0]);
      (if Opens(d) then 1 else if d.Endif? then -1 else 0) + Net(lines[1..])
  }

  lemma {:induction false} WellNestedNet(open: seq<bool>, lines: seq<string>)
    requires WellNested(open, lines) && ReadAlike(lines)
    ensures Net(lines) == -|open|
    decreases |lines|
  {
    hide Classify, Read;
    if lines != [] {
      assert Same(Classify(lines[0]), Read(lines[0]));
      WellNestedNet(Track(open, Read(lines[0])), lines[1..]);
    }
  }

  lemma NetCons(line: string, lines: seq<string>)
    ensures Net([line] + lines) == Net([line]) + Net(lines)
  {
    hide Classify;
    assert ([line] + lines)[1..] == lines;
    assert Net([line][1..]) == 0;
  }

  /** The open conditionals whose #endif the filter will keep. */
  function Owed(m: Machine): nat
    decreases |m.stack|
  {
    if m.stack == [] then 0
    else
      var outer := Last(m.stack);
      (if m.keep & 2 != 0 && outer != 0 then 1 else 0) + Owed(Machine(outer, Init(m.stack)))
  }

  /** The plain #if lines in regions already dropped. */
  function DroppedIfs(known: Known, m: Machine, lines: seq<string>): nat
    decreases |lines|
  {
    if lines == [] || Misplaced(m, Classify(lines[0])) then 0
    else
      var d := Classify(lines[0]);
      (if d.If? && m.keep == 0 then 1 else 0) + DroppedIfs(known, Advance(known, m, d), lines[1..])
  }

  lemma {:induction false} CleanMeansNone(known: Known, m: Machine, lines: seq<string>)
    ensures Clean(known, m, lines) <==> DroppedIfs(known, m, lines) == 0
    decreases |lines|
  {
    hide Classify, Advance;
    if lines != [] && !Misplaced(m, Classify(lines[0])) {
      CleanMeansNone(known, Advance(known, m, Classify(lines[0])), lines[1..]);
    }
  }

  lemma OwedStep(known: Known, m: Machine, d: Directive)
    requires !Misplaced(m, d)
    ensures var shown := Shown(known, false, m, d);
            Owed(Advance(known, m, d)) - Owed(m) ==
              (if shown && Opens(d) then 1 else if shown && d.Endif? then -1 else 0)
              - (if d.If? && m.keep == 0 then 1 else 0)
  {
    var n := Advance(known, m, d);
    if Opens(d) {
      assert Init(n.stack) == m.stack;
    }
  }

  /** Each #if in a dropped region is kept while its #endif is not. */
  lemma {:induction false} KeptNet(known: Known, m: Machine, open: seq<bool>, lines: seq<string>)
    requires WellNested(open, lines) && ReadAlike(lines) && |open| == |m.stack|
    ensures Net(Kept(known, m, lines)) == DroppedIfs(known, m, lines) - Owed(m)
    ensures ReadAlike(Kept(known, m, lines))
    decreases |lines|
  {
    hide Classify, Read, Shown, Owed;
    if lines == [] {
      assert Owed(m) == 0 by { OwedNone(m); }
    } else {
      var d := Classify(lines[0]);
      var n := Advance(known, m, d);
      var rest := Kept(known, n, lines[1..]);
      KeptNet(known, n, Track(open, Read(lines[0])), lines[1..]);
      OwedStep(known, m, d);
      NetCons(lines[0], rest);
      assert [] + rest == rest;
      assert Net([lines[0]][1..]) == 0;
    }
  }

  lemma OwedNone(m: Machine)
    requires m.stack == []
    ensures Owed(m) == 0
  {
  }

  /** On input the filter reads as the standard does, it preserves meaning exactly
      when no plain #if stands in a dropped region; otherwise its output is not
      even well nested. */
  lemma {:induction false} FilterPreservesMeaning(known: Known, lines: seq<string>)
    requires WellNested([], lines) && Understood(known, START, lines)
    ensures var kept := Kept(known, START, lines);
            Clean(known, START, lines) <==>
              && WellNested([], kept)
              && forall env :: Agrees(env, known) ==> Preprocess(env, [], [], kept) == Preprocess(env, [], [], lines)
  {
    hide Classify, Read, Advance, Shown, Preprocess, Kept, WellNested, Clean, Understood, Told;
    var kept := Kept(known, START, lines);
    if Clean(known, START, lines) {
      assert WellNested([], kept) by {
        var env := Env(name => known.Lookup(name) == Some(D), (_, _) => None, (_, _) => true);
        ToldFirst(env, known);
        PreservesFrom(known, env, [], START, [], [], lines);
      }
      forall env | Agrees(env, known)
        ensures Preprocess(env, [], [], kept) == Preprocess(env, [], [], lines)
      {
        ToldFirst(env, known);
        PreservesFrom(known, env, [], START, [], [], lines);
      }
    }
    if WellNested([], kept) {
      UnderstoodReadAlike(known, START, [], lines);
      KeptNet(known, START, [], lines);
      WellNestedNet([], kept);
      CleanMeansNone(known, START, lines);
    }
  }

  // ----- #elif in a conditional known to be true -----

  /** Some #elif belongs to a conditional the filter takes, with none open that it
      leaves alone. */
  predicate StrayElif(known: Known, m: Machine, lines: seq<string>)
    decreases |lines|
  {
    if lines == [] || Misplaced(m, Classify(lines[0])) then false
    else
      || (Read(lines[0]).ElifExpr? && m.stack != [] && m.keep == 1 && Owed(m) == 0)
      || StrayElif(known, Advance(known, m, Classify(lines[0])), lines[1..])
  }

  lemma {:induction false} StrayElifStands(known: Known, m: Machine, open: seq<bool>, lines: seq<string>)
    requires ReadAlike(lines) && Clean(known, m, lines) && StrayElif(known, m, lines) && |open| == Owed(m)
    ensures !WellNested(open, Kept(known, m, lines))
    decreases |lines|
  {
    hide Classify, Read, Shown, Advance, Owed;
    var line, d, g := lines[0], Classify(lines[0]), Read(lines[0]);
    var n := Advance(known, m, d);
    var rest := Kept(known, n, lines[1..]);
    assert Same(d, g);
    OwedStep(known, m, d);
    ElifShown(known, m, d);
    assert ([line] + rest)[1..] == rest && [] + rest == rest;
    if !(g.ElifExpr? && m.stack != [] && m.keep == 1 && Owed(m) == 0) {
      if !Shown(known, false, m, d) {
        StrayElifStands(known, n, open, lines[1..]);
      } else if Proper(open, g) {
        StrayElifStands(known, n, Track(open, g), lines[1..]);
      }
    }
  }

  lemma ElifShown(known: Known, m: Machine, d: Directive)
    requires !Misplaced(m, d)
    ensures d.OtherHash? ==> Advance(known, m, d) == m && Shown(known, false, m, d) == (m.keep != 0)
  {
  }

  /** Such an #elif always leaves output that is not well nested. */
  lemma {:induction false} StrayElifBreaks(known: Known, lines: seq<string>)
    requires WellNested([], lines) && ReadAlike(lines) && StrayElif(known, START, lines)
    ensures !WellNested([], Kept(known, START, lines))
  {
    hide Classify, Read, WellNested, StrayElif, ReadAlike, Kept, Clean, Advance, Shown;
    if Clean(known, START, lines) {
      StrayElifStands(known, START, [], lines);
    } else if WellNested([], Kept(known, START, lines)) {
      KeptNet(known, START, [], lines);
      WellNestedNet([], Kept(known, START, lines));
      CleanMeansNone(known, START, lines);
    }
  }
}
