/** Short files, spelled out, that the filter does not treat as a preprocessor
    would. */
module IfdefWitnesses {
  import opened Wrappers
  import opened IfdefLines
  import opened IfdefFilter
  import opened CPreprocessor
  import opened IfdefMeaning

  // ----- How literal lines are read -----

  predicate IsIdentifier(s: string) {
    s != [] && forall i :: 0 <= i < |s| ==> IdentifierChar(s[i])
  }

  lemma {:induction false} IdentifierEnds(word: string, tail: string)
    requires (forall i :: 0 <= i < |word| ==> IdentifierChar(word[i])) && (tail != [] ==> !IdentifierChar(tail[0]))
    ensures Identifier(word + tail) == word
    decreases |word|
  {
    if word == [] {
      assert word + tail == tail;
    } else {
      assert (word + tail)[1..] == word[1..] + tail;
      IdentifierEnds(word[1..], tail);
    }
  }

  /** A hash sign, a word and what follows. */
  function Spelled(word: string, tail: string): string {
    ['#'] + (word + tail)
  }

  /** The blank, the name and the newline after a directive. */
  function Name(name: string): string {
    [' '] + (name + ['\n'])
  }

  lemma HashFirst(p: string)
    requires p != [] && IdentifierChar(p[0])
    ensures SkipSpace(['#'] + p) == ['#'] + p && (['#'] + p)[1..] == p
    ensures SkipSpace(p) == p && SkipBlanks(p) == p
  {
  }

  lemma ReadsSpelled(word: string, tail: string)
    requires IsIdentifier(word) && (tail != [] ==> !IdentifierChar(tail[0]))
    ensures Read(Spelled(word, tail)) == Directed(word, Identifier(SkipBlanks(tail)))
    ensures Classify(Spelled(word, tail)) == Decode(word + tail)
  {
    hide Identifier, SkipBlanks, SkipSpace, Decode, Directed;
    var p := word + tail;
    assert p[0] == word[0] && IdentifierChar(word[0]);
    HashFirst(p);
    IdentifierEnds(word, tail);
    assert p[|word|..] == tail;
  }

  lemma ReadsName(name: string)
    requires IsIdentifier(name)
    ensures Identifier(SkipBlanks(Name(name))) == name && Word(SkipBlanks(Name(name))) == name
  {
    var rest := name + ['\n'];
    assert rest[0] == name[0] && IdentifierChar(name[0]);
    assert Name(name)[1..] == rest;
    HashFirst(rest);
    IdentifierEnds(name, ['\n']);
    WordEnds(name);
  }

  lemma {:induction false} WordEnds(word: string)
    requires IsIdentifier(word) || word == []
    ensures Word(word + ['\n']) == word
    decreases |word|
  {
    if word == [] {
      assert word + ['\n'] == ['\n'];
    } else {
      assert IdentifierChar(word[0]);
      assert (word + ['\n'])[1..] == word[1..] + ['\n'];
      WordEnds(word[1..]);
    }
  }

  /** Two texts that differ at a character do not start the same way. */
  lemma StartsOtherwise(s: string, keyword: string, i: nat)
    requires i < |keyword| && i < |s| && s[i] != keyword[i]
    ensures !StartsWith(s, keyword)
  {
  }

  lemma ReadsIfdef(name: string)
    requires IsIdentifier(name)
    ensures Classify(Spelled("ifdef", Name(name))) == Ifdef(name)
    ensures Read(Spelled("ifdef", Name(name))) == IfDefined(name)
  {
    hide Identifier, SkipBlanks, Word, Classify, Read;
    ReadsSpelled("ifdef", Name(name));
    ReadsName(name);
    assert After("ifdef" + Name(name), "ifdef") == Name(name);
  }

  lemma ReadsIf(name: string)
    requires IsIdentifier(name)
    ensures Classify(Spelled("if", Name(name))) == If
    ensures Read(Spelled("if", Name(name))) == IfExpr
  {
    hide Identifier, SkipBlanks, Word, Classify, Read;
    ReadsSpelled("if", Name(name));
    var p := "if" + Name(name);
    assert p[0] == 'i' && p[1] == 'f' && p[2] == ' ';
    StartsOtherwise(p, "ifdef", 2);
    StartsOtherwise(p, "ifndef", 2);
  }

  lemma ReadsElif(name: string)
    requires IsIdentifier(name)
    ensures Classify(Spelled("elif", Name(name))) == OtherHash
    ensures Read(Spelled("elif", Name(name))) == ElifExpr
  {
    hide Identifier, SkipBlanks, Word, Classify, Read;
    ReadsSpelled("elif", Name(name));
    NotTheFilters("elif" + Name(name));
    assert "elif"[2] == 'i';
  }

  lemma ReadsDefine(name: string)
    requires IsIdentifier(name)
    ensures Classify(Spelled("define", Name(name))) == OtherHash
    ensures Read(Spelled("define", Name(name))) == Define(name)
  {
    hide Identifier, SkipBlanks, Word, Classify, Read;
    ReadsSpelled("define", Name(name));
    ReadsName(name);
    NotTheFilters("define" + Name(name));
    assert "define"[0] == 'd';
  }

  /** A word that begins as no directive of the filter does. */
  lemma NotTheFilters(p: string)
    requires |p| > 2 && ((p[0] != 'i' && p[0] != 'e') || (p[0] == 'e' && p[1] == 'l' && p[2] == 'i'))
    ensures Decode(p) == OtherHash
  {
    hide After, Word, SkipBlanks;
    StartsOtherwise(p, "ifdef", 0);
    StartsOtherwise(p, "ifndef", 0);
    StartsOtherwise(p, "if", 0);
    StartsOtherwise(p, "else", if p[0] == 'e' then 2 else 0);
    StartsOtherwise(p, "endif", if p[0] == 'e' then 1 else 0);
  }

  lemma ReadsEndif()
    ensures Classify(Spelled("endif", "\n")) == Endif && Read(Spelled("endif", "\n")) == EndifLine
  {
    hide Identifier, SkipBlanks, Word, Classify, Read, After;
    ReadsSpelled("endif", "\n");
    var p := "endif" + "\n";
    assert p[0] == 'e' && p[1] == 'n';
    StartsOtherwise(p, "ifdef", 0);
    StartsOtherwise(p, "ifndef", 0);
    StartsOtherwise(p, "if", 0);
    StartsOtherwise(p, "else", 1);
    assert "endif"[0] == 'e' && "endif"[1] == 'n' && "elif"[1] == 'l' && "else"[1] == 'l';
  }

  lemma ReadsElse()
    ensures Classify(Spelled("else", "\n")) == Else && Read(Spelled("else", "\n")) == ElseLine
  {
    hide Identifier, SkipBlanks, Word, Classify, Read, After;
    ReadsSpelled("else", "\n");
    var p := "else" + "\n";
    assert p[0] == 'e' && p[1] == 'l';
    StartsOtherwise(p, "ifdef", 0);
    StartsOtherwise(p, "ifndef", 0);
    StartsOtherwise(p, "if", 0);
    assert "else"[0] == 'e' && "else"[2] == 's' && "elif"[2] == 'i';
  }

  lemma ReadsText(line: string)
    requires line != [] && line[0] != '#' && line[0] != '%' && !IsSpace(line[0])
    ensures Classify(line) == Text && Read(line) == PlainLine
  {
  }

  lemma ReadsParenthesis()
    ensures Classify(Spelled("if", "(X)\n")) == OtherHash
    ensures Read(Spelled("if", "(X)\n")) == IfExpr
  {
    hide Identifier, SkipBlanks, Word, Classify, Read, After;
    ReadsSpelled("if", "(X)\n");
    var p := "if" + "(X)\n";
    assert p[0] == 'i' && p[1] == 'f' && p[2] == '(';
    StartsOtherwise(p, "ifdef", 2);
    StartsOtherwise(p, "ifndef", 2);
    StartsOtherwise(p, "else", 0);
    StartsOtherwise(p, "endif", 0);
  }

  /** The lines the witnesses are made of. */
  lemma Literals()
    ensures Classify("#ifdef A\n") == Ifdef("A") && Read("#ifdef A\n") == IfDefined("A")
    ensures Classify("#ifdef B\n") == Ifdef("B") && Read("#ifdef B\n") == IfDefined("B")
    ensures Classify("#ifdef X\n") == Ifdef("X") && Read("#ifdef X\n") == IfDefined("X")
    ensures Classify("#if X\n") == If && Read("#if X\n") == IfExpr
    ensures Classify("#if(X)\n") == OtherHash && Read("#if(X)\n") == IfExpr
    ensures Classify("#elif B\n") == OtherHash && Read("#elif B\n") == ElifExpr
    ensures Classify("#define A\n") == OtherHash && Read("#define A\n") == Define("A")
    ensures Classify("#else\n") == Else && Read("#else\n") == ElseLine
    ensures Classify("#endif\n") == Endif && Read("#endif\n") == EndifLine
    ensures Classify("x\n") == Text && Read("x\n") == PlainLine
    ensures Classify("y\n") == Text && Read("y\n") == PlainLine
  {
    hide Classify, Read;
    ReadsIfdef("A");
    ReadsIfdef("B");
    ReadsIfdef("X");
    ReadsIf("X");
    ReadsParenthesis();
    ReadsElif("B");
    ReadsDefine("A");
    ReadsElse();
    ReadsEndif();
    ReadsText("x\n");
    ReadsText("y\n");
    assert "#ifdef B\n" == Spelled("ifdef", Name("B")) && "#else\n" == Spelled("else", "\n");
    assert "#ifdef A\n" == Spelled("ifdef", Name("A")) && "#ifdef X\n" == Spelled("ifdef", Name("X"));
    assert "#if X\n" == Spelled("if", Name("X")) && "#if(X)\n" == Spelled("if", "(X)\n");
    assert "#elif B\n" == Spelled("elif", Name("B")) && "#define A\n" == Spelled("define", Name("A"));
    assert "#endif\n" == Spelled("endif", "\n");
  }

  // ----- One line at a time -----

  lemma NestsOn(open: seq<bool>, line: string, rest: seq<string>)
    ensures WellNested(open, [line] + rest) <==> Proper(open, Read(line)) && WellNested(Track(open, Read(line)), rest)
  {
    hide Read;
    assert ([line] + rest)[1..] == rest;
  }

  lemma KeepsOn(known: Known, m: Machine, line: string, rest: seq<string>)
    requires !Misplaced(m, Classify(line))
    ensures Kept(known, m, [line] + rest) ==
              (if Shown(known, false, m, Classify(line)) then [line] else []) +
              Kept(known, Advance(known, m, Classify(line)), rest)
  {
    hide Classify, Shown, Advance;
    assert ([line] + rest)[1..] == rest;
  }

  lemma ReadsOn(env: Env, past: seq<string>, frames: seq<Frame>, line: string, rest: seq<string>)
    requires Inner(Read(line)) ==> frames != []
    ensures var g := Read(line);
            Preprocess(env, past, frames, [line] + rest) ==
              (if Ordinary(g) && AllTaken(frames) then [line] else []) +
              Preprocess(env, Recall(past, frames, line, g), Enter(env, past, frames, line, g), rest)
  {
    hide Read, Enter, AllTaken, Recall;
    assert ([line] + rest)[1..] == rest;
  }

  lemma CleanOn(known: Known, m: Machine, line: string, rest: seq<string>)
    requires !Misplaced(m, Classify(line)) && (Classify(line).If? ==> m.keep != 0)
    ensures Clean(known, m, [line] + rest) == Clean(known, Advance(known, m, Classify(line)), rest)
  {
    hide Classify, Advance;
    assert ([line] + rest)[1..] == rest;
  }

  lemma RunsOn(c: Config, g: Progress, line: string, rest: seq<string>)
    requires g.status.Done?
    ensures RunLines(c, g, [line] + rest) == RunLines(c, StepLine(c, g, line), rest)
  {
    hide StepLine;
    assert ([line] + rest)[1..] == rest;
  }

  const OUTSIDE := Machine(0, [1])   // inside one conditional known to fail

  lemma Fails(known: Known)
    requires known.Lookup("A") == Some(U)
    ensures Advance(known, START, Ifdef("A")) == OUTSIDE && !Shown(known, false, START, Ifdef("A"))
    ensures Advance(known, OUTSIDE, Endif) == START && !Shown(known, false, OUTSIDE, Endif)
    ensures Advance(known, OUTSIDE, If) == Machine(2, [1, 0]) && Shown(known, false, OUTSIDE, If)
    ensures Advance(known, Machine(2, [1, 0]), Endif) == OUTSIDE && !Shown(known, false, Machine(2, [1, 0]), Endif)
  {
    assert [1, 0][..1] == [1];
  }

  lemma Passes(known: Known)
    ensures forall m: Machine, d: Directive :: d.Text? || d.OtherHash? ==>
              Advance(known, m, d) == m && Shown(known, false, m, d) == (m.keep != 0)
  {
  }

  /** Opening one conditional, and a second, and closing them. */
  lemma Nests()
    ensures forall g: Line :: Begins(g) ==> Track([], g) == [false] && Track([false], g) == [false, false]
    ensures forall open: seq<bool>, g: Line :: Ordinary(g) ==> Proper(open, g) && Track(open, g) == open
    ensures Track([false], ElifExpr) == [false]
    ensures Track([false], EndifLine) == [] && Track([false, false], EndifLine) == [false]
    ensures forall open :: WellNested(open, []) <==> open == []
  {
    assert [] + [false] == [false] && [false, false][..1] == [false];
  }

  // ----- A plain #if in a dropped region -----

  lemma LeakNests(ifdefA: string, plainIf: string, endif: string)
    requires Read(ifdefA) == IfDefined("A") && Read(plainIf) == IfExpr && Read(endif) == EndifLine
    ensures WellNested([], [ifdefA] + ([plainIf] + ([endif] + [endif]))) && !WellNested([], [plainIf])
  {
    hide Read, WellNested, Track;
    Nests();
    var none: seq<string> := [];
    NestsOn([], ifdefA, [plainIf] + ([endif] + [endif]));
    NestsOn([false], plainIf, [endif] + [endif]);
    NestsOn([false, false], endif, [endif]);
    NestsOn([false], endif, none);
    NestsOn([], plainIf, none);
    assert [endif] + none == [endif] && [plainIf] + none == [plainIf];
  }

  lemma LeakKeeps(known: Known, ifdefA: string, plainIf: string, endif: string)
    requires known.Lookup("A") == Some(U)
    requires Classify(ifdefA) == Ifdef("A") && Classify(plainIf) == If && Classify(endif) == Endif
    ensures Kept(known, START, [ifdefA] + ([plainIf] + ([endif] + [endif]))) == [plainIf]
  {
    hide Classify, Kept, Advance, Shown;
    Fails(known);
    var none: seq<string> := [];
    KeepsOn(known, START, ifdefA, [plainIf] + ([endif] + [endif]));
    KeepsOn(known, OUTSIDE, plainIf, [endif] + [endif]);
    KeepsOn(known, Machine(2, [1, 0]), endif, [endif]);
    KeepsOn(known, OUTSIDE, endif, none);
    KeepsNone(known);
    assert [endif] + none == [endif];
  }

  lemma KeepsNone(known: Known)
    ensures Kept(known, START, []) == [] && Clean(known, START, [])
  {
  }

  /** With A undefined, the inner #if survives alone. */
  lemma {:induction false} DroppedIfLeaks(known: Known)
    requires known.Lookup("A") == Some(U)
    ensures var lines := ["#ifdef A\n", "#if X\n", "#endif\n", "#endif\n"];
            WellNested([], lines) && Kept(known, START, lines) == ["#if X\n"] && !WellNested([], ["#if X\n"])
  {
    Literals();
    hide *;
    LeakNests("#ifdef A\n", "#if X\n", "#endif\n");
    LeakKeeps(known, "#ifdef A\n", "#if X\n", "#endif\n");
    FourLines("#ifdef A\n", "#if X\n", "#endif\n", "#endif\n");
  }

  lemma FourLines(a: string, b: string, c: string, d: string)
    ensures [a, b, c, d] == [a] + ([b] + ([c] + [d]))
  {
  }

  // ----- #elif -----

  lemma ElifNests(ifdefA: string, x: string, elif: string, y: string, endif: string)
    requires Read(ifdefA) == IfDefined("A") && Read(elif) == ElifExpr && Read(endif) == EndifLine
    requires Read(x) == PlainLine && Read(y) == PlainLine
    ensures WellNested([], [ifdefA] + ([x] + ([elif] + ([y] + [endif]))))
  {
    hide Read, WellNested, Track;
    Nests();
    var none: seq<string> := [];
    NestsOn([], ifdefA, [x] + ([elif] + ([y] + [endif])));
    NestsOn([false], x, [elif] + ([y] + [endif]));
    NestsOn([false], elif, [y] + [endif]);
    NestsOn([false], y, [endif]);
    NestsOn([false], endif, none);
    assert [endif] + none == [endif];
  }

  lemma ElifKeeps(known: Known, ifdefA: string, x: string, elif: string, y: string, endif: string)
    requires known.Lookup("A") == Some(U)
    requires Classify(ifdefA) == Ifdef("A") && Classify(elif) == OtherHash && Classify(endif) == Endif
    requires Classify(x) == Text && Classify(y) == Text
    ensures Kept(known, START, [ifdefA] + ([x] + ([elif] + ([y] + [endif])))) == []
    ensures Clean(known, START, [ifdefA] + ([x] + ([elif] + ([y] + [endif]))))
  {
    hide Classify, Kept, Clean, Advance, Shown;
    Fails(known);
    Passes(known);
    KeepsNone(known);
    var none: seq<string> := [];
    var l4 := [endif];
    var l3 := [y] + l4;
    var l2 := [elif] + l3;
    var l1 := [x] + l2;
    KeepsOn(known, START, ifdefA, l1);
    KeepsOn(known, OUTSIDE, x, l2);
    KeepsOn(known, OUTSIDE, elif, l3);
    KeepsOn(known, OUTSIDE, y, l4);
    KeepsOn(known, OUTSIDE, endif, none);
    CleanOn(known, START, ifdefA, l1);
    CleanOn(known, OUTSIDE, x, l2);
    CleanOn(known, OUTSIDE, elif, l3);
    CleanOn(known, OUTSIDE, y, l4);
    CleanOn(known, OUTSIDE, endif, none);
    assert l4 + none == l4;
  }

  lemma ElifReads(env: Env, ifdefA: string, x: string, elif: string, y: string, endif: string)
    requires !env.defined("A") && env.holds([], elif)
    requires Read(ifdefA) == IfDefined("A") && Read(elif) == ElifExpr && Read(endif) == EndifLine
    requires Read(x) == PlainLine && Read(y) == PlainLine
    ensures Preprocess(env, [], [], [ifdefA] + ([x] + ([elif] + ([y] + [endif])))) == [y]
  {
    hide Read, Preprocess, AllTaken, Enter;
    var none: seq<string> := [];
    var l4 := [endif];
    var l3 := [y] + l4;
    var l2 := [elif] + l3;
    var failing, taken := [Frame(false, false, false)], [Frame(false, true, false)];
    Groups(env, [], ifdefA, elif, endif);
    ReadsOn(env, [], [], ifdefA, [x] + l2);
    ReadsOn(env, [], failing, x, l2);
    ReadsOn(env, [], failing, elif, l3);
    ReadsOn(env, [], taken, y, l4);
    ReadsOn(env, [], taken, endif, none);
    ReadsNone(env, []);
    assert l4 + none == l4;
  }

  lemma ReadsNone(env: Env, past: seq<string>)
    ensures Preprocess(env, past, [], []) == []
  {
  }

  lemma Groups(env: Env, past: seq<string>, ifdefA: string, elif: string, endif: string)
    ensures var failing, taken := [Frame(false, false, false)], [Frame(false, true, false)];
            && !AllTaken(failing) && AllTaken(taken) && AllTaken([])
            && Enter(env, past, [], ifdefA, IfDefined("A")) == (if Defined(env, past, "A") then taken else failing)
            && Enter(env, past, failing, elif, ElifExpr) == (if env.holds(past, elif) then taken else failing)
            && Enter(env, past, taken, endif, EndifLine) == []
    ensures forall frames: seq<Frame>, line: string :: Enter(env, past, frames, line, PlainLine) == frames
    ensures past == [] ==> Defined(env, past, "A") == env.defined("A")
  {
    var failing, taken := [Frame(false, false, false)], [Frame(false, true, false)];
    assert Init(taken) == [] && Init(failing) == [];
    assert forall f: Frame :: [] + [f] == [f];
  }

  lemma EntersNothing(env: Env, define: string)
    ensures Enter(env, [], [], define, Define("A")) == []
  {
  }

  /** With A undefined and B true, the text after #elif is lost. */
  lemma {:induction false} ElifIsLost(known: Known, env: Env)
    requires known.Lookup("A") == Some(U) && Agrees(env, known) && env.holds([], "#elif B\n")
    ensures var lines := ["#ifdef A\n", "x\n", "#elif B\n", "y\n", "#endif\n"];
            && WellNested([], lines) && Clean(known, START, lines)
            && Kept(known, START, lines) == [] && Preprocess(env, [], [], []) == []
            && Preprocess(env, [], [], lines) == ["y\n"]
  {
    Literals();
    assert !env.defined("A");
    hide *;
    ElifNests("#ifdef A\n", "x\n", "#elif B\n", "y\n", "#endif\n");
    ElifKeeps(known, "#ifdef A\n", "x\n", "#elif B\n", "y\n", "#endif\n");
    ElifReads(env, "#ifdef A\n", "x\n", "#elif B\n", "y\n", "#endif\n");
    ReadsNone(env, []);
    FiveLines("#ifdef A\n", "x\n", "#elif B\n", "y\n", "#endif\n");
  }

  lemma FiveLines(a: string, b: string, c: string, d: string, e: string)
    ensures [a, b, c, d, e] == [a] + ([b] + ([c] + ([d] + [e])))
  {
  }

  // ----- #if without a blank -----

  lemma ParenthesisNests(ifdefA: string, parenthesis: string, endif: string)
    requires Read(ifdefA) == IfDefined("A") && Read(parenthesis) == IfExpr && Read(endif) == EndifLine
    ensures WellNested([], [ifdefA] + ([parenthesis] + ([endif] + [endif])))
  {
    LeakNests(ifdefA, parenthesis, endif);
  }

  lemma ParenthesisRuns(c: Config, out: seq<Out>, ifdefA: string, parenthesis: string, endif: string)
    requires c.known.Lookup("A") == Some(U)
    requires Classify(ifdefA) == Ifdef("A") && Classify(parenthesis) == OtherHash && Classify(endif) == Endif
    ensures FilterFile(c, out, [ifdefA] + ([parenthesis] + ([endif] + [endif]))).status == Fatal("Too many endif's")
  {
    Fails(c.known);
    Passes(c.known);
    hide Classify, RunLines, Advance, Shown, Print, StepLine;
    var none: seq<string> := [];
    var g0 := Begin(c, out);
    var g1, g2 := StepLine(c, g0, ifdefA), StepLine(c, StepLine(c, g0, ifdefA), parenthesis);
    var g3, g4 := StepLine(c, g2, endif), StepLine(c, StepLine(c, g2, endif), endif);
    StepMachine(c, g0, ifdefA);
    StepMachine(c, g1, parenthesis);
    StepMachine(c, g2, endif);
    StepMachine(c, g3, endif);
    RunsOn(c, g0, ifdefA, [parenthesis] + ([endif] + [endif]));
    RunsOn(c, g1, parenthesis, [endif] + [endif]);
    RunsOn(c, g2, endif, [endif]);
    RunsOn(c, g3, endif, none);
    RunsNot(c, g4);
    assert [endif] + none == [endif];
  }

  /** What one line does to the state and the status. */
  lemma StepMachine(c: Config, g: Progress, line: string)
    ensures var d, h := Classify(line), StepLine(c, g, line);
            if Misplaced(g.m, d) then h.status == Complaint(d)
            else h.m == Advance(c.known, g.m, d) && h.status == Done
  {
    hide Classify, Advance, Shown, Print;
  }

  lemma RunsNot(c: Config, g: Progress)
    ensures RunLines(c, g, []) == g
  {
  }

  /** With A undefined, the tool gives up on a well-nested file, in every mode. */
  lemma {:induction false} ParenthesisIsMissed(c: Config, out: seq<Out>)
    requires c.known.Lookup("A") == Some(U)
    ensures var lines := ["#ifdef A\n", "#if(X)\n", "#endif\n", "#endif\n"];
            WellNested([], lines) && FilterFile(c, out, lines).status == Fatal("Too many endif's")
  {
    Literals();
    hide *;
    ParenthesisNests("#ifdef A\n", "#if(X)\n", "#endif\n");
    ParenthesisRuns(c, out, "#ifdef A\n", "#if(X)\n", "#endif\n");
    FourLines("#ifdef A\n", "#if(X)\n", "#endif\n", "#endif\n");
  }

  // ----- #define of a name the filter was told about -----

  lemma DefinitionNests(define: string, ifdefA: string, x: string, endif: string)
    requires Read(define) == Define("A") && Read(ifdefA) == IfDefined("A")
    requires Read(x) == PlainLine && Read(endif) == EndifLine
    ensures WellNested([], [define] + ([ifdefA] + ([x] + [endif])))
  {
    hide Read, WellNested, Track;
    Nests();
    var none: seq<string> := [];
    NestsOn([], define, [ifdefA] + ([x] + [endif]));
    NestsOn([], ifdefA, [x] + [endif]);
    NestsOn([false], x, [endif]);
    NestsOn([false], endif, none);
    assert [endif] + none == [endif];
  }

  lemma DefinitionKeeps(known: Known, define: string, ifdefA: string, x: string, endif: string)
    requires known.Lookup("A") == Some(U)
    requires Classify(define) == OtherHash && Classify(ifdefA) == Ifdef("A")
    requires Classify(x) == Text && Classify(endif) == Endif
    ensures Kept(known, START, [define] + ([ifdefA] + ([x] + [endif]))) == [define]
  {
    hide Classify, Kept, Advance, Shown;
    Fails(known);
    Passes(known);
    KeepsNone(known);
    var none: seq<string> := [];
    KeepsOn(known, START, define, [ifdefA] + ([x] + [endif]));
    KeepsOn(known, START, ifdefA, [x] + [endif]);
    KeepsOn(known, OUTSIDE, x, [endif]);
    KeepsOn(known, OUTSIDE, endif, none);
    assert [endif] + none == [endif];
  }

  lemma DefinitionReads(env: Env, define: string, ifdefA: string, x: string, endif: string)
    requires Read(define) == Define("A") && Read(ifdefA) == IfDefined("A")
    requires Read(x) == PlainLine && Read(endif) == EndifLine
    ensures Preprocess(env, [], [], [define]) == [define]
    ensures Preprocess(env, [], [], [define] + ([ifdefA] + ([x] + [endif]))) == [define] + [x]
  {
    hide Read, Preprocess, AllTaken, Enter;
    var none: seq<string> := [];
    var past, taken := [define], [Frame(false, true, false)];
    assert Defined(env, past, "A") by {
      assert Last(past) == define;
    }
    EntersNothing(env, define);
    Groups(env, past, ifdefA, define, endif);
    ReadsOn(env, [], [], define, [ifdefA] + ([x] + [endif]));
    ReadsOn(env, [], [], define, none);
    ReadsOn(env, past, [], ifdefA, [x] + [endif]);
    ReadsOn(env, past, taken, x, [endif]);
    ReadsOn(env, past, taken, endif, none);
    ReadsNone(env, past);
    assert [define] + none == past && [] + past == past && [endif] + none == [endif];
  }

  /** Told that A is undefined, the filter drops what the file's own #define makes live. */
  lemma {:induction false} DefinitionIsMissed(known: Known, env: Env)
    requires known.Lookup("A") == Some(U)
    ensures var lines := ["#define A\n", "#ifdef A\n", "x\n", "#endif\n"];
            && WellNested([], lines)
            && Kept(known, START, lines) == ["#define A\n"] == Preprocess(env, [], [], ["#define A\n"])
            && Preprocess(env, [], [], lines) == ["#define A\n"] + ["x\n"]
  {
    Literals();
    hide *;
    DefinitionNests("#define A\n", "#ifdef A\n", "x\n", "#endif\n");
    DefinitionKeeps(known, "#define A\n", "#ifdef A\n", "x\n", "#endif\n");
    DefinitionReads(env, "#define A\n", "#ifdef A\n", "x\n", "#endif\n");
    FourLines("#define A\n", "#ifdef A\n", "x\n", "#endif\n");
  }
}
