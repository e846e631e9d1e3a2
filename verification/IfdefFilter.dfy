/** The ifdef filter: a two-bit state and a stack decide, line by line, what is
    printed.  First the machine as functions, then the tool that runs it. */
module IfdefFilter {
  import opened Wrappers
  import opened IfdefLines

  datatype Stat = D | U

  /** cuttype 0 to 3. */
  datatype Cut = BlankLines | HashLines | CommentOut | Delete

  /** What the command line says about names: -D and -U settings, and the
      assumption, if any, about all other names. */
  datatype Known = Known(vars: map<string, Stat>, others: Option<Stat>) {
    function Lookup(name: string): Option<Stat> {
      if name in vars then Some(vars[name]) else others
    }
  }

  datatype Config = Config(known: Known, cut: Cut, striphash: bool)

  /** Bit 0: text is wanted.  Bit 1: the innermost open conditional is one the
      filter cannot decide, so its directives stay. */
  type Keep = bv2

  datatype Machine = Machine(keep: Keep, stack: seq<Keep>)

  const START := Machine(1, [])

  datatype Status = Done | Fatal(msg: string)

  datatype Out = Raw(line: string) | Blank | Commented(line: string) | LineMark(n: nat)

  function Branch(m: Machine, known: Option<Stat>, which: Stat): Machine {
    Machine(if m.keep == 0 then 0
            else if known.None? then m.keep | 2
            else if known.value == which then 1 else 0,
            m.stack + [m.keep])
  }

  /** What the filter takes for text: it opens and closes nothing. */
  predicate IsText(d: Directive) {
    d.Text? || d.OtherHash?
  }

  predicate Misplaced(m: Machine, d: Directive) {
    (d.Else? || d.Endif?) && m.stack == []
  }

  function Complaint(d: Directive): Status {
    Fatal(if d.Else? then "#else at top level" else "Too many endif's")
  }

  function Advance(known: Known, m: Machine, d: Directive): Machine
    requires !Misplaced(m, d)
  {
    match d
    case Ifdef(name) => Branch(m, known.Lookup(name), D)
    case Ifndef(name) => Branch(m, known.Lookup(name), U)
    case If => Machine(m.keep | 2, m.stack + [m.keep])
    case Else => if m.stack[|m.stack| - 1] != 0 then m.(keep := m.keep ^ 1) else m
    case Endif => Machine(m.stack[|m.stack| - 1], m.stack[..|m.stack| - 1])
    case OtherHash => m
    case Text => m
  }

  /** The `flg` of do_hashcom: an #endif belongs to the conditional it closes. */
  function Flag(known: Known, m: Machine, d: Directive): Keep
    requires !Misplaced(m, d)
  {
    if d.Endif? then m.keep & 2 else Advance(known, m, d).keep & 2
  }

  /** Whether do_hashcom lets the line through to the text path. */
  predicate PassedOn(known: Known, striphash: bool, m: Machine, d: Directive)
    requires !Misplaced(m, d)
  {
    d.Text? || (d.OtherHash? && !striphash) || Flag(known, m, d) != 0
  }

  predicate Shown(known: Known, striphash: bool, m: Machine, d: Directive)
    requires !Misplaced(m, d)
  {
    PassedOn(known, striphash, m, d) && Advance(known, m, d).keep != 0
  }

  /** The base of the stack never changes. */
  predicate Grounded(m: Machine) {
    if m.stack == [] then m.keep == 1 else m.stack[0] == 1
  }

  /** What is printed for one line, and the number of the last line printed. */
  function Print(cut: Cut, shown: bool, line: string, lineno: nat, prline: nat): (seq<Out>, nat) {
    if shown then
      if cut != HashLines then ([Raw(line)], prline)
      else if prline + 2 == lineno then ([Blank, Raw(line)], lineno)
      else if prline + 1 != lineno then ([LineMark(lineno), Raw(line)], lineno)
      else ([Raw(line)], lineno)
    else
      match cut
      case BlankLines => ([Blank], prline)
      case CommentOut => ([Commented(line)], prline)
      case _ => ([], prline)
  }

  /** A run so far: the state, the input line number, the number of the last
      line printed, and standard output. */
  datatype Progress = Progress(m: Machine, lineno: nat, prline: nat, out: seq<Out>, status: Status)

  function StepLine(c: Config, g: Progress, line: string): Progress {
    var d := Classify(line);
    if Misplaced(g.m, d) then g.(lineno := g.lineno + 1, status := Complaint(d))
    else
      var (printed, prline) :=
        Print(c.cut, Shown(c.known, c.striphash, g.m, d), line, g.lineno + 1, g.prline);
      Progress(Advance(c.known, g.m, d), g.lineno + 1, prline, g.out + printed, Done)
  }

  function RunLines(c: Config, g: Progress, lines: seq<string>): Progress
    decreases |lines|
  {
    if g.status.Fatal? || lines == [] then g else RunLines(c, StepLine(c, g, lines[0]), lines[1..])
  }

  function Begin(c: Config, out: seq<Out>): Progress {
    Progress(START, 0, 0, if c.cut == HashLines then out + [LineMark(1)] else out, Done)
  }

  /** Filtering one file, on top of what has been printed before. */
  function FilterFile(c: Config, out: seq<Out>, lines: seq<string>): Progress {
    var g := RunLines(c, Begin(c, out), lines);
    if g.status.Done? && g.m.stack != [] then g.(status := Fatal("Not enough endif's")) else g
  }

  const MAX_DEPTH: nat := 15

  /** The conditionals of `lines` nest at most 15 deep. */
  predicate Fits(level: nat, lines: seq<string>)
    decreases |lines|
  {
    if lines == [] then true
    else
      match Classify(lines[0])
      case Endif => level > 0 ==> Fits(level - 1, lines[1..])
      case Else => level > 0 ==> Fits(level, lines[1..])
      case OtherHash => Fits(level, lines[1..])
      case Text => Fits(level, lines[1..])
      case _ => level < MAX_DEPTH && Fits(level + 1, lines[1..])
  }

  /** A line naming a macro ends in a newline; the last line of a file may lack
      one otherwise. */
  predicate Ended(line: string) {
    line != [] && (Names(Classify(line)) ==> line[|line| - 1] == '\n')
  }

  predicate Names(d: Directive) {
    d.Ifdef? || d.Ifndef?
  }

  // ----- The tool -----

  datatype VarRec = VarRec(name: string, state: Stat)

  /** The first record of a name is the one that counts. */
  function AsMap(vars: seq<VarRec>): map<string, Stat> {
    if vars == [] then map[] else AsMap(vars[1..])[vars[0].name := vars[0].state]
  }

  lemma {:induction false} AsMapFind(vars: seq<VarRec>, name: string, i: nat)
    requires i <= |vars| && forall j :: 0 <= j < i ==> vars[j].name != name
    ensures i < |vars| && vars[i].name == name ==> name in AsMap(vars) && AsMap(vars)[name] == vars[i].state
    ensures i == |vars| ==> name !in AsMap(vars)
    decreases |vars|
  {
    if i > 0 {
      AsMapFind(vars[1..], name, i - 1);
    }
  }

  lemma {:induction false} AsMapReplace(vars: seq<VarRec>, i: nat, state: Stat)
    requires i < |vars| && forall j :: 0 <= j < i ==> vars[j].name != vars[i].name
    ensures AsMap(vars[i := VarRec(vars[i].name, state)]) == AsMap(vars)[vars[i].name := state]
    decreases |vars|
  {
    var new_ := vars[i := VarRec(vars[i].name, state)];
    if i > 0 {
      AsMapReplace(vars[1..], i - 1, state);
      assert new_[1..] == vars[1..][i - 1 := VarRec(vars[i].name, state)];
    } else {
      assert new_[1..] == vars[1..];
    }
  }

  lemma {:induction false} AsMapAppend(vars: seq<VarRec>, v: VarRec)
    requires v.name !in AsMap(vars)
    ensures AsMap(vars + [v]) == AsMap(vars)[v.name := v.state]
    decreases |vars|
  {
    if vars != [] {
      AsMapAppend(vars[1..], v);
      assert (vars + [v])[1..] == vars[1..] + [v];
    }
  }

  class IfdefTool {
    var varlist: seq<VarRec>
    var unknownStat: Option<Stat>
    var cuttype: Cut
    var striphash: bool
    var keeptext: Keep
    var iflevel: nat
    const state: array<Keep>
    var lineno: nat
    var prline: nat
    var out: seq<Out>   // standard output

    ghost predicate Valid()
      reads this
    {
      && state.Length == MAX_DEPTH + 1 && iflevel <= MAX_DEPTH
      && forall i :: 0 <= i < |varlist| ==> Plain(varlist[i].name)
    }

    ghost function Conf(): Config
      reads this
    {
      Config(Known(AsMap(varlist), unknownStat), cuttype, striphash)
    }

    ghost function State(): Machine
      requires Valid()
      reads this, state
    {
      Machine(keeptext, state[..iflevel])
    }

    constructor (unknownStat: Option<Stat>, cuttype: Cut, striphash: bool)
      ensures Valid() && State() == START && out == [] && fresh(state)
      ensures Conf() == Config(Known(map[], unknownStat), cuttype, striphash)
    {
      this.unknownStat, this.cuttype, this.striphash := unknownStat, cuttype, striphash;
      varlist, out := [], [];
      keeptext, iflevel := 1, 0;
      state := new Keep[MAX_DEPTH + 1](_ => 0);
      lineno, prline := 0, 0;
    }

    method SaveName(name: string, stat: Stat)
      requires Valid() && Plain(name)
      modifies this`varlist
      ensures Valid() && AsMap(varlist) == old(AsMap(varlist))[name := stat]
    {
      var i := 0;
      while i < |varlist| && varlist[i].name != name
        invariant 0 <= i <= |varlist|
        invariant forall j :: 0 <= j < i ==> varlist[j].name != name
      {
        i := i + 1;
      }
      AsMapFind(varlist, name, i);
      if i == |varlist| {
        AsMapAppend(varlist, VarRec(name, stat));
        varlist := varlist + [VarRec(name, stat)];
      } else {
        AsMapReplace(varlist, i, stat);
        varlist := varlist[i := VarRec(name, stat)];
      }
    }

    method PushState()
      requires Valid() && iflevel < MAX_DEPTH
      modifies this`iflevel, state
      ensures Valid() && State() == Machine(keeptext, old(State().stack) + [keeptext])
    {
      state[iflevel] := keeptext;
      iflevel := iflevel + 1;
    }

    method PopState()
      requires Valid() && iflevel > 0
      modifies this`keeptext, this`iflevel
      ensures Valid()
      ensures State() == Machine(old(state[iflevel - 1]), old(state[..iflevel - 1]))
    {
      iflevel := iflevel - 1;
      keeptext := state[iflevel];
    }

    method DoIfdef(p: string, which: Stat)
      requires Valid() && iflevel < MAX_DEPTH && p != [] && p[|p| - 1] == '\n'
      modifies this`keeptext, this`iflevel, state
      ensures Valid()
      ensures State() == Branch(old(State()), Conf().known.Lookup(Word(SkipBlanks(p))), which)
    {
      ghost var before := State();
      SkipBlanksKeepsEnd(p);
      var nm := SkipBlanks(p);
      var curr := 0;
      while curr < |varlist| && !Matches(nm, varlist[curr].name)
        invariant 0 <= curr <= |varlist|
        invariant forall j :: 0 <= j < curr ==> varlist[j].name != Word(nm)
        modifies {}
      {
        MatchesWord(nm, varlist[curr].name);
        curr := curr + 1;
      }
      if curr < |varlist| {
        MatchesWord(nm, varlist[curr].name);
      }
      AsMapFind(varlist, Word(nm), curr);
      PushState();
      if curr == |varlist| {
        if unknownStat == None {
          if keeptext != 0 {
            keeptext := keeptext | 2;
          }
          return;
        }
        if keeptext != 0 {
          keeptext := if unknownStat.value == which then 1 else 0;
        }
        return;
      }
      if keeptext != 0 {
        keeptext := if varlist[curr].state == which then 1 else 0;
      }
    }

    /** The chain of tests in do_hashcom, on the text after the hash sign. */
    method Interpret(p: string) returns (status: Status, flg: Keep, other: bool)
      requires Valid() && (p != [] && Names(Decode(p)) ==> p[|p| - 1] == '\n')
      requires Opens(Decode(p)) ==> iflevel < MAX_DEPTH
      modifies this`keeptext, this`iflevel, state
      ensures Valid()
      ensures if Misplaced(old(State()), Decode(p)) then status == Complaint(Decode(p))
              else
                && status == Done
                && State() == Advance(Conf().known, old(State()), Decode(p))
                && flg == Flag(Conf().known, old(State()), Decode(p))
                && other == Decode(p).OtherHash?
    {
      hide StartsWith, After, Word, SkipBlanks, IsSpace, AsMap;
      status, flg, other := Done, keeptext & 2, false;
      if StartsWith(p, "ifdef") {
        AfterKeepsEnd(p, "ifdef");
        DoIfdef(After(p, "ifdef"), D);
        flg := keeptext & 2;
      } else if StartsWith(p, "ifndef") {
        AfterKeepsEnd(p, "ifndef");
        DoIfdef(After(p, "ifndef"), U);
        flg := keeptext & 2;
      } else if StartsWith(p, "if") && |p| > 2 && IsSpace(p[2]) {
        PushState();
        keeptext := keeptext | 2;
        flg := keeptext & 2;
      } else if StartsWith(p, "else") {
        if iflevel == 0 {
          return Fatal("#else at top level"), flg, other;
        }
        if state[iflevel - 1] != 0 {
          keeptext := keeptext ^ 1;
        }
        flg := keeptext & 2;
      } else if StartsWith(p, "endif") {
        if iflevel == 0 {
          return Fatal("Too many endif's"), flg, other;
        }
        PopState();
      } else {
        other := true;
      }
    }

    method DoHashcom(line: string) returns (status: Status, f: bool)
      requires Valid() && !Classify(line).Text?
      requires Ended(line)
      requires Opens(Classify(line)) ==> iflevel < MAX_DEPTH
      modifies this`keeptext, this`iflevel, this`out, state
      ensures Valid()
      ensures if Misplaced(old(State()), Classify(line)) then
                status == Complaint(Classify(line)) && out == old(out)
              else
                && status == Done
                && State() == Advance(Conf().known, old(State()), Classify(line))
                && f == PassedOn(Conf().known, striphash, old(State()), Classify(line))
                && out == old(out) + if f then [] else Print(cuttype, false, line, 0, 0).0
    {
      hide Decode, SkipSpace, AsMap, Advance, Flag;
      var p := SkipSpace(line);
      SkipSpaceKeepsEnd(line);
      SkipSpaceKeepsEnd(p[1..]);
      p := SkipSpace(p[1..]);
      var flg, other;
      f := true;
      status, flg, other := Interpret(p);
      if status.Fatal? || flg != 0 || (other && !striphash) {
        return;
      }
      if cuttype == BlankLines {
        out := out + [Blank];
      }
      if cuttype == CommentOut {
        out := out + [Commented(line)];
      }
      f := false;
    }

    method SetLine(lineno: nat)
      modifies this`out, this`prline
      ensures prline == lineno
      ensures out == old(out) + if old(prline) + 2 == lineno then [Blank]
                                else if old(prline) + 1 != lineno then [LineMark(lineno)] else []
    {
      if prline + 2 == lineno {
        out := out + [Blank];
      } else if prline + 1 != lineno {
        out := out + [LineMark(lineno)];
      }
      prline := lineno;
    }

    ghost function Run(status: Status): Progress
      requires Valid()
      reads this, state
    {
      Progress(State(), lineno, prline, out, status)
    }

    /** One turn of the loop of do_file. */
    method DoLine(linebuf: string) returns (status: Status)
      requires Valid() && Ended(linebuf)
      requires Opens(Classify(linebuf)) ==> iflevel < MAX_DEPTH
      modifies this`keeptext, this`iflevel, this`lineno, this`prline, this`out, state
      ensures Valid()
      ensures var g := StepLine(Conf(), old(Run(Done)), linebuf);
              status == g.status && out == g.out && lineno == g.lineno &&
              (status.Done? ==> Run(Done) == g)
    {
      hide SkipSpace, Decode, AsMap, Advance, Flag;
      var f := true;
      status := Done;
      lineno := lineno + 1;
      var p := SkipSpace(linebuf);
      if p != [] && p[0] == '#' {
        status, f := DoHashcom(linebuf);
        if status.Fatal? {
          return;
        }
      } else {
        TextStays(Conf().known, State());
      }
      if f {
        PrintLine(linebuf);
      }
    }

    /** The line itself when text is kept, and otherwise what stands for it. */
    method PrintLine(linebuf: string)
      modifies this`prline, this`out
      ensures var (printed, pr) := Print(cuttype, keeptext != 0, linebuf, lineno, old(prline));
              out == old(out) + printed && prline == pr
    {
      if keeptext != 0 {
        if cuttype == HashLines {
          SetLine(lineno);
        }
        out := out + [Raw(linebuf)];
      } else {
        if cuttype == BlankLines {
          out := out + [Blank];
        }
        if cuttype == CommentOut {
          out := out + [Commented(linebuf)];
        }
      }
    }

    /** Filters one file; a fatal error ends the program. */
    method DoFile(lines: seq<string>) returns (status: Status)
      requires Valid() && State() == START && Fits(0, lines)
      requires forall i :: 0 <= i < |lines| ==> Ended(lines[i])
      modifies this`keeptext, this`iflevel, this`lineno, this`prline, this`out, state
      ensures Valid()
      ensures var g := FilterFile(Conf(), old(out), lines);
              status == g.status && out == g.out && (status.Done? ==> State() == g.m == START)
    {
      hide StepLine, Classify, AsMap, Ended;
      prline, lineno := 0, 0;
      if cuttype == HashLines {
        out := out + [LineMark(1)];
      }
      status := Done;
      ghost var c, start := Conf(), Begin(Conf(), old(out));
      assert Run(Done) == start;
      var i := 0;
      while i < |lines|
        invariant 0 <= i <= |lines|
        invariant Valid() && Fits(iflevel, lines[i..]) && Grounded(State())
        invariant RunLines(c, Run(Done), lines[i..]) == RunLines(c, start, lines)
      {
        assert lines[i..][0] == lines[i] && lines[i..][1..] == lines[i + 1..];
        ghost var g := Run(Done);
        ghost var h := StepLine(c, g, lines[i]);
        assert RunLines(c, g, lines[i..]) == RunLines(c, h, lines[i + 1..]);
        status := DoLine(lines[i]);
        if status.Fatal? {
          assert RunLines(c, h, lines[i + 1..]) == h;
          return;
        }
        StepGrounded(c, g, lines[i]);
        i := i + 1;
      }
      status := if iflevel != 0 then Fatal("Not enough endif's") else Done;
    }
  }

  lemma TextStays(known: Known, m: Machine)
    ensures Advance(known, m, Text) == m
  {
  }

  lemma StepGrounded(c: Config, g: Progress, line: string)
    requires Grounded(g.m)
    ensures Grounded(StepLine(c, g, line).m)
    ensures var h := StepLine(c, g, line);
            h.status.Done? ==>
              match Classify(line)
              case Endif => |g.m.stack| > 0 && |h.m.stack| == |g.m.stack| - 1
              case Else => |g.m.stack| > 0 && |h.m.stack| == |g.m.stack|
              case OtherHash => h.m == g.m
              case Text => h.m == g.m
              case _ => |h.m.stack| == |g.m.stack| + 1
  {
  }
}
