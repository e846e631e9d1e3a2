/** What conditionals do, group by group: first for the preprocessor, then for the
    filter. */
module IfdefGroups {
  import opened Wrappers
  import opened IfdefLines
  import opened IfdefFilter
  import opened CPreprocessor
  import opened IfdefMeaning
  import opened IfdefWitnesses
  import opened IfdefReading

  // ----- The preprocessor -----

  /** Some enclosing group is not taken. */
  predicate Dead(frames: seq<Frame>) {
    exists i :: 0 <= i < |frames| && !frames[i].taken
  }

  lemma {:induction false} DeadOrTaken(frames: seq<Frame>)
    ensures AllTaken(frames) <==> !Dead(frames)
    decreases |frames|
  {
    if frames != [] {
      DeadOrTaken(Init(frames));
      assert forall i :: 0 <= i < |frames| - 1 ==> frames[i] == Init(frames)[i];
    }
  }

  lemma EnterInside(env: Env, past: seq<string>, outer: seq<Frame>, inner: seq<Frame>, line: string)
    requires Inner(Read(line)) ==> inner != []
    ensures Enter(env, past, outer + inner, line, Read(line)) == outer + Enter(env, past, inner, line, Read(line))
  {
    hide Read, Defined;
    var g := Read(line);
    if Inner(g) {
      assert Last(outer + inner) == Last(inner) && Init(outer + inner) == outer + Init(inner);
    }
  }

  lemma FlagsNone(frames: seq<Frame>)
    ensures Flags(frames) == [] <==> frames == []
  {
  }

  /** Nothing inside a group not taken is processed, however it nests. */
  lemma {:induction false} DeadLines(env: Env, past: seq<string>, outer: seq<Frame>, inner: seq<Frame>,
                                     body: seq<string>, rest: seq<string>)
    requires Dead(outer) && WellNested(Flags(inner), body)
    ensures Preprocess(env, past, outer + inner, body + rest) == Preprocess(env, past, outer, rest)
    decreases |body|
  {
    hide Read, Enter, AllTaken, Flags, Proper, Track, Recall;
    FlagsNone(inner);
    if body == [] {
      assert outer + inner == outer && body + rest == rest;
    } else {
      var line, g := body[0], Read(body[0]);
      TrackEnter(env, past, inner, line, g);
      EnterInside(env, past, outer, inner, line);
      DeadOrTaken(outer + inner);
      var dead: nat :| dead < |outer| && !outer[dead].taken;
      assert !(outer + inner)[dead].taken;
      RecallDead(past, outer + inner, line, g);
      assert (body + rest)[0] == line && (body + rest)[1..] == body[1..] + rest;
      DeadLines(env, past, outer, Enter(env, past, inner, line, g), body[1..], rest);
      assert [] + Preprocess(env, past, outer, rest) == Preprocess(env, past, outer, rest);
    }
  }

  lemma RecallDead(past: seq<string>, frames: seq<Frame>, line: string, g: Line)
    ensures !AllTaken(frames) ==> Recall(past, frames, line, g) == past
  {
  }

  /** The directives processed by the end of some lines. */
  function PastAfter(env: Env, past: seq<string>, frames: seq<Frame>, lines: seq<string>): seq<string>
    decreases |lines|
  {
    if lines == [] then past
    else
      var line, g := lines[0], Read(lines[0]);
      if Inner(g) && frames == [] then past
      else PastAfter(env, Recall(past, frames, line, g), Enter(env, past, frames, line, g), lines[1..])
  }

  /** Inside groups that are all taken, lines are processed as they are outside. */
  lemma {:induction false} LiveLines(env: Env, past: seq<string>, outer: seq<Frame>, inner: seq<Frame>,
                                     body: seq<string>, rest: seq<string>)
    requires !Dead(outer) && WellNested(Flags(inner), body)
    ensures Preprocess(env, past, outer + inner, body + rest) ==
              Preprocess(env, past, inner, body) + Preprocess(env, PastAfter(env, past, inner, body), outer, rest)
    decreases |body|
  {
    hide Read, Enter, AllTaken, Flags, Proper, Track, Recall, Dead;
    FlagsNone(inner);
    if body == [] {
      assert outer + inner == outer && body + rest == rest;
    } else {
      var line, g := body[0], Read(body[0]);
      TrackEnter(env, past, inner, line, g);
      EnterInside(env, past, outer, inner, line);
      DeadOrTaken(outer + inner);
      DeadOrTaken(inner);
      DeadInside(outer, inner);
      RecallSame(past, outer + inner, inner, line, g);
      assert (body + rest)[0] == line && (body + rest)[1..] == body[1..] + rest;
      LiveLines(env, Recall(past, inner, line, g), outer, Enter(env, past, inner, line, g), body[1..], rest);
    }
  }

  lemma DeadInside(outer: seq<Frame>, inner: seq<Frame>)
    requires !Dead(outer)
    ensures Dead(outer + inner) <==> Dead(inner)
  {
    if Dead(inner) {
      var i: nat :| i < |inner| && !inner[i].taken;
      assert !(outer + inner)[|outer| + i].taken;
    }
    if Dead(outer + inner) {
      var i: nat :| i < |outer + inner| && !(outer + inner)[i].taken;
      assert i >= |outer| && !inner[i - |outer|].taken;
    }
  }

  /** Whether the condition of a line that opens a conditional is met. */
  predicate Met(env: Env, past: seq<string>, line: string) {
    match Read(line)
    case IfDefined(name) => Defined(env, past, name)
    case IfNotDefined(name) => !Defined(env, past, name)
    case _ => env.holds(past, line)
  }

  lemma OpensGroup(env: Env, past: seq<string>, line: string)
    requires Begins(Read(line))
    ensures Enter(env, past, [], line, Read(line)) == [Frame(false, Met(env, past, line), false)]
  {
    hide Read, Defined;
  }

  /** The second group is taken only if the first was not. */
  lemma SecondGroup(env: Env, past: seq<string>, taken: bool, line: string)
    requires Read(line) == ElseLine || Read(line) == ElifExpr
    ensures Enter(env, past, [Frame(false, taken, false)], line, Read(line)) ==
              [Frame(taken, !taken && (Read(line) == ElseLine || env.holds(past, line)), Read(line) == ElseLine)]
  {
    hide Read, Defined;
    var frames := [Frame(false, taken, false)];
    assert Init(frames) == [];
  }

  lemma ClosesGroup(env: Env, past: seq<string>, f: Frame, close: string)
    requires Read(close) == EndifLine
    ensures Preprocess(env, past, [f], [close]) == []
  {
    hide Read, Defined;
    assert Init([f]) == [] && [close][1..] == [];
    assert Preprocess(env, past, [], []) == [];
  }

  lemma DeadOne(f: Frame)
    ensures Dead([f]) <==> !f.taken
  {
    assert [f][0] == f;
  }

  /** A group and what follows it, inside one conditional. */
  lemma OneGroup(env: Env, past: seq<string>, f: Frame, body: seq<string>, rest: seq<string>)
    requires WellNested([], body)
    ensures Preprocess(env, past, [f], body + rest) ==
              if f.taken then
                Preprocess(env, past, [], body) + Preprocess(env, PastAfter(env, past, [], body), [f], rest)
              else Preprocess(env, past, [f], rest)
  {
    hide Dead, WellNested, Preprocess, PastAfter;
    DeadOne(f);
    FlagsNone([]);
    assert [f] + [] == [f];
    if f.taken {
      LiveLines(env, past, [f], [], body, rest);
    } else {
      DeadLines(env, past, [f], [], body, rest);
    }
  }

  /** A conditional means its first group when its condition is met, and otherwise
      its second: after #else always, after #elif when that condition holds. */
  lemma {:induction false} ConditionalMeans(env: Env, past: seq<string>, open: string, first: seq<string>,
                                            middle: string, second: seq<string>, close: string)
    requires Begins(Read(open)) && Read(close) == EndifLine && WellNested([], first) && WellNested([], second)
    requires Read(middle) == ElseLine || Read(middle) == ElifExpr
    ensures Preprocess(env, past, [], [open] + (first + ([middle] + (second + [close])))) ==
              if Met(env, past, open) then Preprocess(env, past, [], first)
              else if Read(middle) == ElseLine || env.holds(past, middle) then Preprocess(env, past, [], second)
              else []
  {
    hide Read, WellNested, Preprocess, Enter, Met, PastAfter;
    var met := Met(env, past, open);
    var f := Frame(false, met, false);
    var tail := second + [close];
    ReadsOn(env, past, [], open, first + ([middle] + tail));
    OpensGroup(env, past, open);
    OneGroup(env, past, f, first, [middle] + tail);
    var past' := if met then PastAfter(env, past, [], first) else past;
    ReadsOn(env, past', [f], middle, tail);
    SecondGroup(env, past', met, middle);
    var s := Enter(env, past', [f], middle, Read(middle))[0];
    OneGroup(env, past', s, second, [close]);
    ClosesGroup(env, past', s, close);
    ClosesGroup(env, PastAfter(env, past', [], second), s, close);
  }

  /** Lines that are no directives and open nothing come through as they are. */
  lemma {:induction false} TextMeansItself(env: Env, past: seq<string>, lines: seq<string>)
    requires forall i :: 0 <= i < |lines| ==> Read(lines[i]) == PlainLine
    ensures Preprocess(env, past, [], lines) == lines && WellNested([], lines)
    decreases |lines|
  {
    hide Read;
    if lines != [] {
      TextMeansItself(env, past, lines[1..]);
      assert Read(lines[0]) == PlainLine;
    }
  }

  /** What #define and #undef do to a name, and other names. */
  lemma DefinitionsCount(env: Env, past: seq<string>, line: string, name: string)
    requires Read(line) == Define(name) || Read(line) == Undef(name)
    ensures Defined(env, past + [line], name) == Read(line).Define?
    ensures forall other :: other != name ==> Defined(env, past + [line], other) == Defined(env, past, other)
    ensures Defined(env, [], name) == env.defined(name)
  {
    hide Read;
    assert Last(past + [line]) == line && Init(past + [line]) == past;
  }

  // ----- The filter -----

  lemma {:induction false} TextKept(known: Known, m: Machine, lines: seq<string>, rest: seq<string>)
    requires forall i :: 0 <= i < |lines| ==> Classify(lines[i]) == Text
    ensures Kept(known, m, lines + rest) == (if m.keep != 0 then lines else []) + Kept(known, m, rest)
    decreases |lines|
  {
    hide Classify, Kept, Advance, Shown;
    if lines == [] {
      assert lines + rest == rest;
    } else {
      var all := lines[1..] + rest;
      Passes(known);
      assert Classify(lines[0]) == Text;
      PassesText(m);
      KeepsOn(known, m, lines[0], all);
      assert lines + rest == [lines[0]] + all;
      TextKept(known, m, lines[1..], rest);
      assert lines == [lines[0]] + lines[1..];
    }
  }

  lemma PassesText(m: Machine)
    ensures !Misplaced(m, Text)
  {
  }

  /** The states inside a conditional: decided, or left open. */
  lemma Decides(known: Known, d: Directive, stat: Stat)
    requires (d.Ifdef? || d.Ifndef?) && known.Lookup(d.name) == Some(stat)
    ensures var taken := d.Ifdef? == (stat == D);
            var m, n := Machine(if taken then 1 else 0, [1]), Machine(if taken then 0 else 1, [1]);
            && Advance(known, START, d) == m && !Shown(known, false, START, d)
            && Advance(known, m, Else) == n && !Shown(known, false, m, Else)
            && Advance(known, n, Endif) == START && !Shown(known, false, n, Endif)
  {
    assert [START.keep] == [1] && [1][..0] == [];
  }

  lemma LeavesOpen(known: Known, d: Directive)
    requires d.If? || ((d.Ifdef? || d.Ifndef?) && d.name !in known.vars && known.others == None)
    ensures var m, n := Machine(3, [1]), Machine(2, [1]);
            && Advance(known, START, d) == m && Shown(known, false, START, d)
            && Advance(known, m, Else) == n && Shown(known, false, m, Else)
            && Advance(known, n, Endif) == START && Shown(known, false, n, Endif)
  {
    assert [START.keep] == [1] && [1][..0] == [];
  }

  lemma NothingKept(known: Known)
    ensures Kept(known, START, []) == []
  {
  }

  predicate AllText(lines: seq<string>) {
    forall i :: 0 <= i < |lines| ==> Classify(lines[i]) == Text
  }

  /** Of a conditional on a name it was told about, the filter keeps the group the
      name chooses and nothing else. */
  lemma {:induction false} KnownConditional(known: Known, open: string, first: seq<string>, other: string,
                                            second: seq<string>, close: string, stat: Stat)
    requires var d := Classify(open);
             && (d.Ifdef? || d.Ifndef?)
             && (if d.name in known.vars then Some(known.vars[d.name]) else known.others) == Some(stat)
    requires AllText(first) && AllText(second) && Classify(other) == Else && Classify(close) == Endif
    ensures Kept(known, START, [open] + (first + ([other] + (second + [close])))) ==
              if Classify(open).Ifdef? == (stat == D) then first else second
  {
    hide Kept, Advance, Shown, Classify;
    var d := Classify(open);
    Decides(known, d, stat);
    var taken := d.Ifdef? == (stat == D);
    var m, n := Machine(if taken then 1 else 0, [1]), Machine(if taken then 0 else 1, [1]);
    var none: seq<string> := [];
    KeepsOn(known, START, open, first + ([other] + (second + [close])));
    TextKept(known, m, first, [other] + (second + [close]));
    KeepsOn(known, m, other, second + [close]);
    TextKept(known, n, second, [close]);
    KeepsOn(known, n, close, none);
    NothingKept(known);
    assert [close] + none == [close];
    assert first + none == first && second + none == second;
  }

  /** Of one it was told nothing about, or of a plain #if, it keeps everything. */
  lemma {:induction false} UnknownConditional(known: Known, open: string, first: seq<string>, other: string,
                                              second: seq<string>, close: string)
    requires var d := Classify(open);
             d.If? || ((d.Ifdef? || d.Ifndef?) && d.name !in known.vars && known.others == None)
    requires AllText(first) && AllText(second) && Classify(other) == Else && Classify(close) == Endif
    ensures var lines := [open] + (first + ([other] + (second + [close])));
            Kept(known, START, lines) == lines
  {
    hide Kept, Advance, Shown, Classify;
    LeavesOpen(known, Classify(open));
    var m, n := Machine(3, [1]), Machine(2, [1]);
    var none: seq<string> := [];
    KeepsOn(known, START, open, first + ([other] + (second + [close])));
    TextKept(known, m, first, [other] + (second + [close]));
    KeepsOn(known, m, other, second + [close]);
    TextKept(known, n, second, [close]);
    KeepsOn(known, n, close, none);
    NothingKept(known);
    assert [close] + none == [close];
  }

  /** The whole way from the characters of the lines: told about a name, the filter
      keeps the #ifndef group exactly when the name is undefined, and the #else
      group exactly when it is defined; a preprocessor does the same by its own
      definitions.  With #ifdef it is the other way round. */
  lemma {:induction false} ConditionalAsWritten(known: Known, env: Env, ifndef: bool, indent: string, gap: string,
                                                blanks: string, name: string, end: string, stat: Stat,
                                                first: seq<string>, second: seq<string>)
    requires AllWhite(indent) && AllBlank(gap) && AllBlank(blanks) && blanks != [] && IsIdentifier(name) && Apart(end)
    requires (if name in known.vars then Some(known.vars[name]) else known.others) == Some(stat)
    requires forall line :: line in first + second ==> Classify(line) == Text && Read(line) == PlainLine
    ensures var open := Written(indent, gap, if ifndef then "ifndef" else "ifdef", Named(blanks, name, end));
            var other, close := Written(indent, gap, "else", end), Written(indent, gap, "endif", end);
            var lines := [open] + (first + ([other] + (second + [close])));
            && Kept(known, START, lines) == (if ifndef == (stat == U) then first else second)
            && Preprocess(env, [], [], lines) == (if ifndef != env.defined(name) then first else second)
  {
    hide Kept, Preprocess, Classify, Read, Written, Named, WellNested;
    var open := Written(indent, gap, if ifndef then "ifndef" else "ifdef", Named(blanks, name, end));
    if ifndef {
      IfndefAsWritten(indent, gap, blanks, name, end);
    } else {
      IfdefAsWritten(indent, gap, blanks, name, end);
    }
    ElseAsWritten(indent, gap, end);
    EndifAsWritten(indent, gap, end);
    assert forall i :: 0 <= i < |first| ==> first[i] in first + second;
    assert forall i :: 0 <= i < |second| ==> second[i] in first + second;
    KnownConditional(known, open, first, Written(indent, gap, "else", end), second,
                     Written(indent, gap, "endif", end), stat);
    TextMeansItself(env, [], first);
    TextMeansItself(env, [], second);
    ConditionalMeans(env, [], open, first, Written(indent, gap, "else", end), second,
                     Written(indent, gap, "endif", end));
    NamedAtFirst(env, name);
  }

  lemma NamedAtFirst(env: Env, name: string)
    ensures Defined(env, [], name) == env.defined(name)
  {
  }
}
