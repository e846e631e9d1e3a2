/** Filtering twice: knowledge may be supplied in instalments. */
module IfdefPasses {
  import opened Wrappers
  import opened IfdefLines
  import opened IfdefFilter
  import opened CPreprocessor
  import opened IfdefMeaning
  import opened IfdefWitnesses

  /** What is known after telling the filter `a` and, where that leaves a name
      open, `b`. */
  function Merge(a: Known, b: Known): (c: Known)
    ensures forall name :: c.Lookup(name) == if a.Lookup(name).Some? then a.Lookup(name) else b.Lookup(name)
  {
    if a.others.Some? then a else Known(b.vars + a.vars, b.others)
  }

  function Inside(m: Machine): Machine
    requires m.stack != []
  {
    Machine(Last(m.stack), Init(m.stack))
  }

  /** Every open conditional is one the filter cannot decide. */
  predicate AllOpen(m: Machine)
    decreases |m.stack|
  {
    if m.stack == [] then m.keep == 1 else m.keep & 2 != 0 && AllOpen(Inside(m))
  }

  /** The open conditionals whose directives stay. */
  function Levels(m: Machine): nat
    decreases |m.stack|
  {
    if m.stack == [] then 0 else (if m.keep & 2 != 0 then 1 else 0) + Levels(Inside(m))
  }

  /** The state `ma` of a filter knowing a, the state `mb` of a filter knowing b
      that reads what the first one keeps, and the state `mc` of one that knows
      both.  While b has decided nothing, the first and the third are in the same
      state; the second may then have more conditionals open, left over from
      dropped #ifs.  Conditionals the first filter decides never reach the second. */
  predicate InStep(ma: Machine, mb: Machine, mc: Machine)
    decreases |ma.stack|
  {
    if ma == mc then AllOpen(mb) && |mb.stack| >= Levels(ma) && Grounded(ma)
    else
      && ma.stack != [] && mc.stack != []
      && var oa, oc := Last(ma.stack), Last(mc.stack);
         if ma.keep & 2 != 0 then
           && oa != 0 && mb.stack != []
           && mc.keep & 2 == mb.keep & 2
           && (if mc.keep & 2 == 0 then mc.keep == mb.keep else Inside(ma) != Inside(mc))
           && InStep(Inside(ma), Inside(mb), Inside(mc))
         else
           && mc.keep & 2 == 0
           && mc.keep == (if oc == 0 then 0 else ma.keep)
           && (oa == 0 ==> ma.keep == 0)
           && InStep(Inside(ma), mb, Inside(mc))
  }

  lemma OpenLives(m: Machine)
    requires AllOpen(m)
    ensures m.keep != 0 && (m.stack != [] ==> Last(m.stack) != 0)
  {
  }

  lemma {:induction false} InStepLive(ma: Machine, mb: Machine, mc: Machine)
    requires InStep(ma, mb, mc)
    ensures mc.keep != 0 <==> ma.keep != 0 && mb.keep != 0
    ensures ma.stack == [] <==> mc.stack == []
    decreases |ma.stack|
  {
    if ma == mc {
      OpenLives(mb);
    } else if ma.keep & 2 != 0 {
      InStepLive(Inside(ma), Inside(mb), Inside(mc));
    } else {
      InStepLive(Inside(ma), mb, Inside(mc));
    }
  }

  // ----- One line -----

  function Push(m: Machine, keep: Keep): Machine {
    Machine(keep, m.stack + [m.keep])
  }

  lemma PushInside(m: Machine, keep: Keep)
    ensures Inside(Push(m, keep)) == m
  {
  }

  lemma InStepPush(ma: Machine, mb: Machine, mc: Machine, ka: Keep, kb: Keep, kc: Keep)
    requires InStep(ma, mb, mc)
    requires ma == mc && ka & 2 != 0 && kb & 2 != 0 ==> ka == kc
    requires if ka & 2 != 0 then
               && (ma.keep != 0 || ma == mc)
               && kc & 2 == kb & 2 && (kc & 2 == 0 ==> kc == kb && ma.keep != 0)
             else kc & 2 == 0 && kc == (if mc.keep == 0 then 0 else ka) && (ma.keep == 0 ==> ka == 0)
    ensures InStep(Push(ma, ka), if ka & 2 != 0 then Push(mb, kb) else mb, Push(mc, kc))
  {
    PushInside(ma, ka);
    PushInside(mb, kb);
    PushInside(mc, kc);
    if ma == mc && ka & 2 == 0 {
      assert kc == ka;
    }
  }

  /** Opening a conditional. */
  lemma InStepOpen(a: Known, b: Known, ma: Machine, mb: Machine, mc: Machine, d: Directive)
    requires InStep(ma, mb, mc) && Opens(d) && (d.If? && ma.keep == 0 ==> ma == mc)
    ensures InStep(Advance(a, ma, d), if Shown(a, false, ma, d) then Advance(b, mb, d) else mb,
                   Advance(Merge(a, b), mc, d))
    ensures Shown(Merge(a, b), false, mc, d) <==> Shown(a, false, ma, d) && Shown(b, false, mb, d)
  {
    hide InStep;
    InStepLive(ma, mb, mc);
    InStepPush(ma, mb, mc, Advance(a, ma, d).keep, Advance(b, mb, d).keep, Advance(Merge(a, b), mc, d).keep);
  }

  /** Flipping or closing one the first filter leaves alone, where b has decided nothing. */
  lemma SameInner(a: Known, b: Known, m: Machine, mb: Machine, d: Directive)
    requires InStep(m, mb, m) && m.stack != [] && (d.Else? || d.Endif?)
    ensures Shown(a, false, m, d) ==> mb.stack != [] && Shown(b, false, mb, d)
    ensures Advance(Merge(a, b), m, d) == Advance(a, m, d) && Grounded(Advance(a, m, d))
    ensures var mb' := if Shown(a, false, m, d) then Advance(b, mb, d) else mb;
            AllOpen(mb') && |mb'.stack| >= Levels(Advance(a, m, d))
  {
    OpenLives(mb);
    if mb.stack != [] {
      OpenLives(Inside(mb));
    }
    if d.Else? {
      assert Levels(Advance(a, m, d)) == Levels(m);
    }
  }

  /** Flipping or closing one that is not the same for both. */
  lemma OtherInner(a: Known, b: Known, ma: Machine, mb: Machine, mc: Machine, d: Directive)
    requires InStep(ma, mb, mc) && ma != mc && (d.Else? || d.Endif?)
    ensures ma.stack != [] && mc.stack != []
    ensures Shown(a, false, ma, d) ==> mb.stack != []
    ensures InStep(Advance(a, ma, d), if Shown(a, false, ma, d) then Advance(b, mb, d) else mb,
                   Advance(Merge(a, b), mc, d))
    ensures Shown(Merge(a, b), false, mc, d) <==> Shown(a, false, ma, d) && Shown(b, false, mb, d)
  {
    if ma.keep & 2 != 0 {
      InStepLive(Inside(ma), Inside(mb), Inside(mc));
    } else {
      InStepLive(Inside(ma), mb, Inside(mc));
    }
  }

  lemma TextKeeps(known: Known, m: Machine, d: Directive)
    requires IsText(d)
    ensures Advance(known, m, d) == m && Shown(known, false, m, d) == (m.keep != 0)
  {
  }

  lemma InStepNext(a: Known, b: Known, ma: Machine, mb: Machine, mc: Machine, d: Directive)
    requires InStep(ma, mb, mc) && !Misplaced(ma, d) && (d.If? && ma.keep == 0 ==> ma == mc)
    ensures !Misplaced(mc, d)
    ensures Shown(a, false, ma, d) ==> !Misplaced(mb, d)
    ensures InStep(Advance(a, ma, d), if Shown(a, false, ma, d) then Advance(b, mb, d) else mb,
                   Advance(Merge(a, b), mc, d))
    ensures Shown(Merge(a, b), false, mc, d) <==> Shown(a, false, ma, d) && Shown(b, false, mb, d)
  {
    InStepLive(ma, mb, mc);
    if Opens(d) {
      hide Advance, Shown, InStep, Merge;
      InStepOpen(a, b, ma, mb, mc, d);
    } else if IsText(d) {
      hide Advance, Shown, InStep, Merge;
      TextKeeps(a, ma, d);
      TextKeeps(b, mb, d);
      TextKeeps(Merge(a, b), mc, d);
    } else if ma == mc {
      hide Advance, Merge, AllOpen, Levels, Grounded;
      SameInner(a, b, ma, mb, d);
    } else {
      hide Advance, Shown, InStep, Merge;
      OtherInner(a, b, ma, mb, mc, d);
    }
  }

  // ----- Where two passes are one -----

  /** No plain #if is dropped by a inside a conditional that only b decides: at
      each, the filter knowing a and the one knowing both are in the same state. */
  predicate Foreseen(a: Known, b: Known, ma: Machine, mc: Machine, lines: seq<string>)
    decreases |lines|
  {
    if lines == [] || Misplaced(ma, Classify(lines[0])) || Misplaced(mc, Classify(lines[0])) then true
    else
      var d := Classify(lines[0]);
      && (d.If? && ma.keep == 0 ==> ma == mc)
      && Foreseen(a, b, Advance(a, ma, d), Advance(Merge(a, b), mc, d), lines[1..])
  }

  predicate PassesAgree(a: Known, b: Known, ma: Machine, mb: Machine, mc: Machine, lines: seq<string>) {
    Kept(b, mb, Kept(a, ma, lines)) == Kept(Merge(a, b), mc, lines)
  }

  lemma InStepDepth(ma: Machine, mb: Machine, mc: Machine, d: Directive)
    requires InStep(ma, mb, mc)
    ensures Misplaced(ma, d) == Misplaced(mc, d)
  {
    InStepLive(ma, mb, mc);
  }

  /** One line on either side. */
  lemma AgreesOn(a: Known, b: Known, ma: Machine, mb: Machine, mc: Machine, line: string, rest: seq<string>)
    requires var d := Classify(line); !Misplaced(ma, d) && !Misplaced(mc, d)
    requires Shown(a, false, ma, Classify(line)) ==> !Misplaced(mb, Classify(line))
    requires var d := Classify(line);
             Shown(Merge(a, b), false, mc, d) <==> Shown(a, false, ma, d) && Shown(b, false, mb, d)
    ensures var d := Classify(line);
            PassesAgree(a, b, ma, mb, mc, [line] + rest) <==>
              PassesAgree(a, b, Advance(a, ma, d), if Shown(a, false, ma, d) then Advance(b, mb, d) else mb,
                          Advance(Merge(a, b), mc, d), rest)
  {
    hide Kept, Classify, Shown, Advance, Merge;
    var d := Classify(line);
    var kept := Kept(a, Advance(a, ma, d), rest);
    KeepsOn(a, ma, line, rest);
    KeepsOn(Merge(a, b), mc, line, rest);
    var both := Kept(Merge(a, b), Advance(Merge(a, b), mc, d), rest);
    if Shown(a, false, ma, d) {
      KeepsOn(b, mb, line, kept);
      Cancel(line, Kept(b, Advance(b, mb, d), kept), both);
    } else {
      Cancel(line, kept, both);
    }
  }

  lemma Cancel(line: string, s: seq<string>, t: seq<string>)
    ensures [line] + s == [line] + t <==> s == t
    ensures [] + s == s && [] + t == t
  {
    assert ([line] + s)[1..] == s && ([line] + t)[1..] == t;
  }

  lemma {:induction false} TwoPassesFrom(a: Known, b: Known, ma: Machine, mb: Machine, mc: Machine, lines: seq<string>)
    requires InStep(ma, mb, mc) && Foreseen(a, b, ma, mc, lines)
    ensures PassesAgree(a, b, ma, mb, mc, lines)
    decreases |lines|
  {
    hide Classify, Advance, Shown, InStep, Merge, Misplaced, PassesAgree;
    if lines == [] {
      NothingAgrees(a, b, ma, mb, mc, lines);
    } else {
      var d := Classify(lines[0]);
      InStepDepth(ma, mb, mc, d);
      if Misplaced(ma, d) {
        NothingAgrees(a, b, ma, mb, mc, lines);
      } else {
        InStepNext(a, b, ma, mb, mc, d);
        TwoPassesFrom(a, b, Advance(a, ma, d), if Shown(a, false, ma, d) then Advance(b, mb, d) else mb,
                      Advance(Merge(a, b), mc, d), lines[1..]);
        AgreesOn(a, b, ma, mb, mc, lines[0], lines[1..]);
        assert lines == [lines[0]] + lines[1..];
      }
    }
  }

  lemma NothingAgrees(a: Known, b: Known, ma: Machine, mb: Machine, mc: Machine, lines: seq<string>)
    requires lines == [] || (Misplaced(ma, Classify(lines[0])) && Misplaced(mc, Classify(lines[0])))
    ensures PassesAgree(a, b, ma, mb, mc, lines)
  {
  }

  /** Filtering with `a` and then with `b` is filtering once with both. */
  lemma {:induction false} TwoPassesAreOne(a: Known, b: Known, lines: seq<string>)
    requires Foreseen(a, b, START, START, lines)
    ensures Kept(b, START, Kept(a, START, lines)) == Kept(Merge(a, b), START, lines)
  {
    hide Classify, Merge, Kept;
    TwoPassesFrom(a, b, START, START, START, lines);
  }

  lemma {:induction false} SameIsForeseen(known: Known, m: Machine, lines: seq<string>)
    requires Merge(known, known) == known
    ensures Foreseen(known, known, m, m, lines)
    decreases |lines|
  {
    hide Classify, Advance, Merge, Misplaced;
    if lines != [] && !Misplaced(m, Classify(lines[0])) {
      SameIsForeseen(known, Advance(known, m, Classify(lines[0])), lines[1..]);
    }
  }

  /** A second identical pass changes nothing, whatever the file. */
  lemma {:induction false} FilterIsIdempotent(known: Known, lines: seq<string>)
    ensures Kept(known, START, Kept(known, START, lines)) == Kept(known, START, lines)
  {
    hide Kept, Foreseen;
    assert Merge(known, known) == known by {
      assert known.vars + known.vars == known.vars;
    }
    SameIsForeseen(known, START, lines);
    TwoPassesAreOne(known, known, lines);
  }

  // ----- And where they need not be -----

  predicate NoPlainIf(lines: seq<string>) {
    forall i :: 0 <= i < |lines| ==> Classify(lines[i]) != If
  }

  /** What an #endif does where the first filter shows it, does not show it, and
      what a text line does. */
  lemma ClosesBoth(a: Known, b: Known, ma: Machine, m: Machine, k: Keep, mc: Machine)
    requires ma.stack != [] && mc.stack != []
    ensures Advance(a, ma, Endif) == Inside(ma) && Advance(Merge(a, b), mc, Endif) == Inside(mc)
    ensures Advance(b, Push(m, k), Endif) == m
    ensures Shown(a, false, ma, Endif) <==> ma.keep & 2 != 0 && Last(ma.stack) != 0
    ensures Shown(Merge(a, b), false, mc, Endif) <==> mc.keep & 2 != 0 && Last(mc.stack) != 0
    ensures Shown(b, false, Push(m, k), Endif) <==> k & 2 != 0 && m.keep != 0
  {
    PushInside(m, k);
  }

  lemma PushBack(m: Machine)
    requires m.stack != []
    ensures m == Push(Inside(m), m.keep)
  {
  }

  /** A line that one side shows and the other does not. */
  lemma OneShows(a: Known, b: Known, ma: Machine, mb: Machine, mc: Machine, line: string)
    requires var d := Classify(line); !Misplaced(ma, d) && !Misplaced(mc, d)
    requires Shown(a, false, ma, Classify(line)) && !Misplaced(mb, Classify(line))
    requires var d := Classify(line); Shown(Merge(a, b), false, mc, d) != Shown(b, false, mb, d)
    ensures !PassesAgree(a, b, ma, mb, mc, [line])
  {
    hide Classify, Shown, Advance, Merge;
    var d, none: seq<string> := Classify(line), [];
    KeepsOn(a, ma, line, none);
    KeepsOn(b, mb, line, none);
    KeepsOn(Merge(a, b), mc, line, none);
    assert [line] + none == [line];
  }

  /** With one conditional too many open in the second filter, of level `k`, and
      one that only b decides open in both, some #endifs and perhaps a text line
      tell the passes apart. */
  lemma {:induction false} Breaks(a: Known, b: Known, ma: Machine, mb: Machine, mc: Machine, k: Keep,
                                  endif: string, text: string) returns (rest: seq<string>)
    requires InStep(ma, mb, mc) && ma != mc && Classify(endif) == Endif && Classify(text) == Text
    requires k & 2 != 0 || (k == 0 && mb.keep == 0)
    ensures NoPlainIf(rest)
    ensures !PassesAgree(a, b, ma, Push(mb, k), mc, rest)
    decreases |ma.stack|
  {
    hide Classify, Advance, Shown, Merge, PassesAgree, Push;
    InStepLive(ma, mb, mc);
    ClosesBoth(a, b, ma, mb, k, mc);
    PushOpens(mb, k);
    var na, nc := Inside(ma), Inside(mc);
    if ma.keep & 2 == 0 {
      rest := Breaks(a, b, na, mb, nc, k, endif, text);
      AgreesOn(a, b, ma, Push(mb, k), mc, endif, rest);
      rest := [endif] + rest;
    } else {
      var nb := Inside(mb);
      PushBack(mb);
      InStepLive(na, nb, nc);
      if k & 2 != 0 && mb.keep != 0 && (mc.keep & 2 == 0 || nc.keep == 0) {
        rest := [endif];
        OneShows(a, b, ma, Push(mb, k), mc, endif);
      } else if mc.keep & 2 == 0 && nb.keep != 0 {
        TextTells(a, b, na, mb, nc, text);
        AgreesOn(a, b, ma, Push(mb, k), mc, endif, [text]);
        rest := [endif] + [text];
      } else {
        rest := Breaks(a, b, na, nb, nc, mb.keep, endif, text);
        AgreesOn(a, b, ma, Push(mb, k), mc, endif, rest);
        rest := [endif] + rest;
      }
    }
  }

  lemma PushOpens(m: Machine, k: Keep)
    ensures Push(m, k).stack != [] && Push(m, k).keep == k
  {
  }

  lemma TextTells(a: Known, b: Known, ma: Machine, mb: Machine, mc: Machine, text: string)
    requires Classify(text) == Text && ma.keep != 0 && mb.keep == 0 && mc.keep != 0
    ensures !PassesAgree(a, b, ma, mb, mc, [text])
  {
    hide Classify, Merge, PassesAgree;
    TextKeeps(a, ma, Text);
    TextKeeps(b, mb, Text);
    TextKeeps(Merge(a, b), mc, Text);
    OneShows(a, b, ma, mb, mc, text);
  }

  /** After a bad #if, its own #endif is shown by nobody. */
  lemma BadIf(a: Known, b: Known, ma: Machine, mb: Machine, mc: Machine)
    requires ma.keep == mc.keep == 0
    ensures Advance(a, ma, If) == Push(ma, 2) && Advance(b, mb, If) == Push(mb, mb.keep | 2)
    ensures Advance(Merge(a, b), mc, If) == Push(mc, 2)
    ensures Shown(a, false, ma, If) && Shown(b, false, mb, If) && Shown(Merge(a, b), false, mc, If)
    ensures Advance(a, Push(ma, 2), Endif) == ma && !Shown(a, false, Push(ma, 2), Endif)
    ensures Advance(Merge(a, b), Push(mc, 2), Endif) == mc && !Shown(Merge(a, b), false, Push(mc, 2), Endif)
    ensures (mb.keep | 2) & 2 != 0
  {
    PushInside(ma, 2);
    PushInside(mc, 2);
  }

  /** From the first #if that is not foreseen on, some ending breaks the agreement. */
  lemma {:induction false} UnforeseenBreaks(a: Known, b: Known, ma: Machine, mb: Machine, mc: Machine,
                                            lines: seq<string>, endif: string, text: string)
    returns (n: nat, rest: seq<string>)
    requires InStep(ma, mb, mc) && !Foreseen(a, b, ma, mc, lines)
    requires Classify(endif) == Endif && Classify(text) == Text
    ensures n <= |lines| && NoPlainIf(rest) && !PassesAgree(a, b, ma, mb, mc, lines[..n] + rest)
    decreases |lines|
  {
    hide Classify, Advance, Shown, InStep, Merge, PassesAgree, Push;
    var line, d := lines[0], Classify(lines[0]);
    InStepLive(ma, mb, mc);
    if d.If? && ma.keep == 0 && ma != mc {
      var more := Breaks(a, b, ma, mb, mc, mb.keep | 2, endif, text);
      n, rest := 1, [endif] + more;
      BadIf(a, b, ma, mb, mc);
      PushOpens(ma, 2);
      PushOpens(mc, 2);
      AgreesOn(a, b, Push(ma, 2), Push(mb, mb.keep | 2), Push(mc, 2), endif, more);
      AgreesOn(a, b, ma, mb, mc, line, rest);
      assert lines[..1] + rest == [line] + rest;
    } else {
      InStepNext(a, b, ma, mb, mc, d);
      var m;
      m, rest := UnforeseenBreaks(a, b, Advance(a, ma, d), if Shown(a, false, ma, d) then Advance(b, mb, d) else mb,
                                  Advance(Merge(a, b), mc, d), lines[1..], endif, text);
      n := m + 1;
      AgreesOn(a, b, ma, mb, mc, line, lines[1..][..m] + rest);
      assert lines[..n] + rest == [line] + (lines[1..][..m] + rest);
    }
  }

  lemma {:induction false} ForeseenBeginning(a: Known, b: Known, ma: Machine, mc: Machine, lines: seq<string>,
                                             n: nat, rest: seq<string>)
    requires n <= |lines| && Foreseen(a, b, ma, mc, lines) && NoPlainIf(rest)
    ensures Foreseen(a, b, ma, mc, lines[..n] + rest)
    decreases n + |rest|
  {
    hide Classify, Advance, Merge, Misplaced;
    var all := lines[..n] + rest;
    if all != [] && !Misplaced(ma, Classify(all[0])) && !Misplaced(mc, Classify(all[0])) {
      var d := Classify(all[0]);
      var na, nc := Advance(a, ma, d), Advance(Merge(a, b), mc, d);
      if n > 0 {
        assert all[1..] == lines[1..][..n - 1] + rest;
        ForeseenBeginning(a, b, na, nc, lines[1..], n - 1, rest);
      } else {
        var none: seq<string> := [];
        assert all == rest && none[..0] + rest[1..] == all[1..];
        assert NoPlainIf(rest[1..]);
        ForeseenBeginning(a, b, na, nc, none, 0, rest[1..]);
      }
    }
  }

  lemma EndAndText()
    ensures Classify("#endif\n") == Endif && Classify("x\n") == Text
  {
    Literals();
  }

  /** The condition is exact for files being written: it holds of the lines so far
      if and only if the passes agree on every beginning of them continued in any
      way without plain #ifs.  (A single complete file may still come out the same.) */
  lemma {:induction false} TwoPassesAreOneIff(a: Known, b: Known, lines: seq<string>)
    ensures Foreseen(a, b, START, START, lines)
            <==> forall n: nat, rest :: n <= |lines| && NoPlainIf(rest) ==>
                   PassesAgree(a, b, START, START, START, lines[..n] + rest)
  {
    hide Classify, Merge, PassesAgree, Foreseen, NoPlainIf;
    EndAndText();
    if Foreseen(a, b, START, START, lines) {
      forall n: nat, rest | n <= |lines| && NoPlainIf(rest)
        ensures PassesAgree(a, b, START, START, START, lines[..n] + rest)
      {
        ForeseenBeginning(a, b, START, START, lines, n, rest);
        TwoPassesFrom(a, b, START, START, START, lines[..n] + rest);
      }
    } else {
      var n, rest := UnforeseenBreaks(a, b, START, START, START, lines, "#endif\n", "x\n");
    }
  }

  /** Knowing that A is undefined, and then that B is defined. */
  lemma BothMerge()
    ensures var a, b := Known(map["A" := U], None), Known(map["B" := D], None);
            && a.Lookup("A") == Some(U) && a.Lookup("B") == None && b.Lookup("B") == Some(D)
            && Merge(a, b).Lookup("A") == Some(U) && Merge(a, b).Lookup("B") == Some(D)
  {
    assert "A"[0] != "B"[0];
  }

  lemma DropsInside(a: Known)
    requires a.Lookup("A") == Some(U) && a.Lookup("B") == None
    ensures var m1, m2, m3 := Machine(3, [1]), Machine(0, [1, 3]), Machine(2, [1, 3, 0]);
            && Advance(a, START, Ifdef("B")) == m1 && Shown(a, false, START, Ifdef("B"))
            && Advance(a, m1, Ifdef("A")) == m2 && !Shown(a, false, m1, Ifdef("A"))
            && Advance(a, m2, If) == m3 && Shown(a, false, m2, If)
            && Advance(a, m3, Endif) == m2 && !Shown(a, false, m3, Endif)
            && Advance(a, m2, Endif) == m1 && !Shown(a, false, m2, Endif)
            && Advance(a, m1, Else) == Machine(2, [1]) && Shown(a, false, m1, Else)
            && Advance(a, Machine(2, [1]), Text) == Machine(2, [1]) && Shown(a, false, Machine(2, [1]), Text)
            && Advance(a, Machine(2, [1]), Endif) == START && Shown(a, false, Machine(2, [1]), Endif)
  {
    assert [1, 3, 0][..2] == [1, 3] && [1, 3][..1] == [1] && [1][..0] == [];
  }

  lemma KeepsOneTooMany(b: Known)
    requires b.Lookup("B") == Some(D)
    ensures var m1, m2 := Machine(1, [1]), Machine(3, [1, 1]);
            && Advance(b, START, Ifdef("B")) == m1 && !Shown(b, false, START, Ifdef("B"))
            && Advance(b, m1, If) == m2 && Shown(b, false, m1, If)
            && Advance(b, m2, Else) == Machine(2, [1, 1]) && Shown(b, false, m2, Else)
            && Advance(b, Machine(2, [1, 1]), Text) == Machine(2, [1, 1]) && Shown(b, false, Machine(2, [1, 1]), Text)
            && Advance(b, Machine(2, [1, 1]), Endif) == m1 && Shown(b, false, Machine(2, [1, 1]), Endif)
  {
    assert [1, 1][..1] == [1];
  }

  lemma DropsAll(c: Known)
    requires c.Lookup("A") == Some(U) && c.Lookup("B") == Some(D)
    ensures var m1, m2, m3 := Machine(1, [1]), Machine(0, [1, 1]), Machine(2, [1, 1, 0]);
            && Advance(c, START, Ifdef("B")) == m1 && !Shown(c, false, START, Ifdef("B"))
            && Advance(c, m1, Ifdef("A")) == m2 && !Shown(c, false, m1, Ifdef("A"))
            && Advance(c, m2, If) == m3 && Shown(c, false, m2, If)
            && Advance(c, m3, Endif) == m2 && !Shown(c, false, m3, Endif)
            && Advance(c, m2, Endif) == m1 && !Shown(c, false, m2, Endif)
            && Advance(c, m1, Else) == Machine(0, [1]) && !Shown(c, false, m1, Else)
            && Advance(c, Machine(0, [1]), Text) == Machine(0, [1]) && !Shown(c, false, Machine(0, [1]), Text)
            && Advance(c, Machine(0, [1]), Endif) == START && !Shown(c, false, Machine(0, [1]), Endif)
  {
    assert [1, 1, 0][..2] == [1, 1] && [1, 1][..1] == [1] && [1][..0] == [];
  }

  // The files of the witness, told line by line.

  lemma FirstPass(a: Known, ifdefB: string, ifdefA: string, plainIf: string, rest: seq<string>,
                  other: string, text: string, endif: string)
    requires a.Lookup("A") == Some(U) && a.Lookup("B") == None
    requires Classify(ifdefB) == Ifdef("B") && Classify(ifdefA) == Ifdef("A") && Classify(plainIf) == If
    requires Classify(other) == Else && Classify(text) == Text && Classify(endif) == Endif
    requires rest == [other] + ([text] + [endif])
    ensures Kept(a, START, [ifdefB] + ([ifdefA] + ([plainIf] + ([endif] + ([endif] + rest))))) ==
              [ifdefB] + ([plainIf] + rest)
  {
    hide Classify, Kept, Advance, Shown;
    DropsInside(a);
    var none: seq<string> := [];
    KeepsOn(a, START, ifdefB, [ifdefA] + ([plainIf] + ([endif] + ([endif] + rest))));
    KeepsOn(a, Machine(3, [1]), ifdefA, [plainIf] + ([endif] + ([endif] + rest)));
    KeepsOn(a, Machine(0, [1, 3]), plainIf, [endif] + ([endif] + rest));
    KeepsOn(a, Machine(2, [1, 3, 0]), endif, [endif] + rest);
    KeepsOn(a, Machine(0, [1, 3]), endif, rest);
    KeepsOn(a, Machine(3, [1]), other, [text] + [endif]);
    KeepsOn(a, Machine(2, [1]), text, [endif]);
    KeepsOn(a, Machine(2, [1]), endif, none);
    NothingLeft(a, START);
    assert [endif] + none == [endif];
  }

  lemma SecondPass(b: Known, ifdefB: string, plainIf: string, other: string, text: string, endif: string)
    requires b.Lookup("B") == Some(D)
    requires Classify(ifdefB) == Ifdef("B") && Classify(plainIf) == If
    requires Classify(other) == Else && Classify(text) == Text && Classify(endif) == Endif
    ensures var once := [plainIf] + ([other] + ([text] + [endif]));
            Kept(b, START, [ifdefB] + once) == once
  {
    hide Classify, Kept, Advance, Shown;
    KeepsOneTooMany(b);
    var none: seq<string> := [];
    KeepsOn(b, START, ifdefB, [plainIf] + ([other] + ([text] + [endif])));
    KeepsOn(b, Machine(1, [1]), plainIf, [other] + ([text] + [endif]));
    KeepsOn(b, Machine(3, [1, 1]), other, [text] + [endif]);
    KeepsOn(b, Machine(2, [1, 1]), text, [endif]);
    KeepsOn(b, Machine(2, [1, 1]), endif, none);
    NothingLeft(b, Machine(1, [1]));
    assert [endif] + none == [endif];
  }

  lemma BothAtOnce(c: Known, ifdefB: string, ifdefA: string, plainIf: string, rest: seq<string>,
                   other: string, text: string, endif: string)
    requires c.Lookup("A") == Some(U) && c.Lookup("B") == Some(D)
    requires Classify(ifdefB) == Ifdef("B") && Classify(ifdefA) == Ifdef("A") && Classify(plainIf) == If
    requires Classify(other) == Else && Classify(text) == Text && Classify(endif) == Endif
    requires rest == [other] + ([text] + [endif])
    ensures Kept(c, START, [ifdefB] + ([ifdefA] + ([plainIf] + ([endif] + ([endif] + rest))))) == [plainIf]
  {
    hide Classify, Kept, Advance, Shown;
    DropsAll(c);
    var none: seq<string> := [];
    KeepsOn(c, START, ifdefB, [ifdefA] + ([plainIf] + ([endif] + ([endif] + rest))));
    KeepsOn(c, Machine(1, [1]), ifdefA, [plainIf] + ([endif] + ([endif] + rest)));
    KeepsOn(c, Machine(0, [1, 1]), plainIf, [endif] + ([endif] + rest));
    KeepsOn(c, Machine(2, [1, 1, 0]), endif, [endif] + rest);
    KeepsOn(c, Machine(0, [1, 1]), endif, rest);
    KeepsOn(c, Machine(1, [1]), other, [text] + [endif]);
    KeepsOn(c, Machine(0, [1]), text, [endif]);
    KeepsOn(c, Machine(0, [1]), endif, none);
    NothingLeft(c, START);
    assert [endif] + none == [endif];
  }

  lemma NothingLeft(known: Known, m: Machine)
    ensures Kept(known, m, []) == []
  {
  }

  /** The shortest kind of file that two passes and one treat differently: the #if
      dropped because A is undefined stands where only the second pass decides. */
  lemma {:induction false} TwoPassesDiffer()
    ensures var a, b := Known(map["A" := U], None), Known(map["B" := D], None);
            var lines := ["#ifdef B\n", "#ifdef A\n", "#if X\n", "#endif\n",
                          "#endif\n", "#else\n", "x\n", "#endif\n"];
            && WellNested([], lines)
            && Kept(b, START, Kept(a, START, lines)) == ["#if X\n", "#else\n", "x\n", "#endif\n"]
            && Kept(Merge(a, b), START, lines) == ["#if X\n"]
  {
    Literals();
    BothMerge();
    hide *;
    var a, b := Known(map["A" := U], None), Known(map["B" := D], None);
    var rest := ["#else\n"] + (["x\n"] + ["#endif\n"]);
    FirstPass(a, "#ifdef B\n", "#ifdef A\n", "#if X\n", rest, "#else\n", "x\n", "#endif\n");
    SecondPass(b, "#ifdef B\n", "#if X\n", "#else\n", "x\n", "#endif\n");
    BothAtOnce(Merge(a, b), "#ifdef B\n", "#ifdef A\n", "#if X\n", rest, "#else\n", "x\n", "#endif\n");
    DifferingNests("#ifdef B\n", "#ifdef A\n", "#if X\n", "#else\n", "x\n", "#endif\n");
    EightLines("#ifdef B\n", "#ifdef A\n", "#if X\n", "#endif\n", "#endif\n", "#else\n", "x\n", "#endif\n");
    FourLines("#if X\n", "#else\n", "x\n", "#endif\n");
  }

  lemma DifferingNests(ifdefB: string, ifdefA: string, plainIf: string, other: string, text: string, endif: string)
    requires Read(ifdefB) == IfDefined("B") && Read(ifdefA) == IfDefined("A") && Read(plainIf) == IfExpr
    requires Read(other) == ElseLine && Read(text) == PlainLine && Read(endif) == EndifLine
    ensures WellNested([], [ifdefB] + ([ifdefA] + ([plainIf] + ([endif] + ([endif] + ([other] + ([text] + [endif])))))))
  {
    hide Read, WellNested, Track, Proper;
    var none: seq<string> := [];
    var l7 := [text] + [endif];
    var l6 := [other] + l7;
    var l5 := [endif] + l6;
    var l4 := [endif] + l5;
    var o0: seq<bool> := [];
    var o1 := o0 + [false];
    var o2 := o1 + [false];
    TracksOn(o0, IfDefined("B"));
    TracksOn(o1, IfDefined("A"));
    TracksOn(o2, IfExpr);
    TracksOn(o0 + [true], PlainLine);
    NestsOn(o0, ifdefB, [ifdefA] + ([plainIf] + l4));
    NestsOn(o1, ifdefA, [plainIf] + l4);
    NestsOn(o2, plainIf, l4);
    NestsOn(o2 + [false], endif, l5);
    NestsOn(o2, endif, l6);
    NestsOn(o1, other, l7);
    NestsOn(o0 + [true], text, [endif]);
    NestsOn(o0 + [true], endif, none);
    Nests();
    assert [endif] + none == [endif];
  }

  lemma TracksOn(open: seq<bool>, g: Line)
    ensures Begins(g) || Ordinary(g) ==> Proper(open, g) && Track(open, g) == if Begins(g) then open + [false] else open
    ensures Proper(open + [false], ElseLine) && Track(open + [false], ElseLine) == open + [true]
    ensures forall x :: Proper(open + [x], EndifLine) && Track(open + [x], EndifLine) == open
  {
    assert forall x: bool :: Init(open + [x]) == open && Last(open + [x]) == x;
  }

  lemma EightLines(a: string, b: string, c: string, d: string, e: string, f: string, g: string, h: string)
    ensures [a, b, c, d, e, f, g, h] == [a] + ([b] + ([c] + ([d] + ([e] + ([f] + ([g] + [h]))))))
  {
  }
}
