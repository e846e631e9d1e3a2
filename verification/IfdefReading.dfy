/** Ordinary lines: the filter and the standard read them the same, and as written. */
module IfdefReading {
  import opened Wrappers
  import opened IfdefLines
  import opened CPreprocessor
  import opened IfdefWitnesses

  /** Blanks and tabs. */
  predicate AllBlank(s: string) {
    forall i :: 0 <= i < |s| ==> s[i] == ' ' || s[i] == '\t'
  }

  /** White space: the blank and the characters from tab to carriage return. */
  predicate White(c: char) {
    c as int == 32 || 9 <= c as int <= 13
  }

  predicate AllWhite(s: string) {
    forall i :: 0 <= i < |s| ==> White(s[i])
  }

  /** What may follow a directive's word or its name: nothing runs into either. */
  predicate Apart(s: string) {
    s != [] && White(s[0])
  }

  /** A directive as people write it: indented, with blanks after the hash sign. */
  function Written(indent: string, gap: string, word: string, rest: string): string {
    indent + (['#'] + (gap + (word + rest)))
  }

  /** The blanks, the name and the end of an #ifdef or #ifndef line. */
  function Named(blanks: string, name: string, end: string): string {
    blanks + (name + end)
  }

  lemma {:induction false} SkipsIndent(indent: string, p: string)
    requires AllBlank(indent) && p != [] && !IsSpace(p[0])
    ensures SkipSpace(indent + p) == p && SkipBlanks(indent + p) == p
    decreases |indent|
  {
    if indent == [] {
      assert indent + p == p;
    } else {
      assert (indent + p)[1..] == indent[1..] + p;
      SkipsIndent(indent[1..], p);
    }
  }

  lemma {:induction false} SkipsWhite(indent: string, p: string)
    requires AllWhite(indent) && p != [] && !IsSpace(p[0])
    ensures SkipSpace(indent + p) == p
    decreases |indent|
  {
    if indent == [] {
      assert indent + p == p;
    } else {
      assert (indent + p)[1..] == indent[1..] + p && White(indent[0]);
      SkipsWhite(indent[1..], p);
    }
  }

  lemma {:induction false} WordEndsAt(word: string, end: string)
    requires (forall i :: 0 <= i < |word| ==> IdentifierChar(word[i])) && Apart(end)
    ensures Word(word + end) == word
    decreases |word|
  {
    if word == [] {
      assert word + end == end;
    } else {
      assert (word + end)[1..] == word[1..] + end;
      WordEndsAt(word[1..], end);
    }
  }

  /** Both readers find the word and what follows it. */
  lemma ReadsWritten(indent: string, gap: string, word: string, rest: string)
    requires AllWhite(indent) && AllBlank(gap) && IsIdentifier(word) && (rest != [] ==> !IdentifierChar(rest[0]))
    ensures Read(Written(indent, gap, word, rest)) == Directed(word, Identifier(SkipBlanks(rest)))
    ensures Classify(Written(indent, gap, word, rest)) == Decode(word + rest)
  {
    hide Identifier, SkipBlanks, SkipSpace, Decode, Directed;
    var p := word + rest;
    assert p[0] == word[0] && IdentifierChar(word[0]);
    SkipsIndent(gap, p);
    var q := ['#'] + (gap + p);
    SkipsWhite(indent, q);
    assert q[1..] == gap + p;
    IdentifierEnds(word, rest);
    assert p[|word|..] == rest;
  }

  lemma ReadsNamed(blanks: string, name: string, end: string)
    requires AllBlank(blanks) && IsIdentifier(name) && Apart(end)
    ensures Identifier(SkipBlanks(Named(blanks, name, end))) == name
    ensures Word(SkipBlanks(Named(blanks, name, end))) == name
  {
    hide Identifier, SkipBlanks, SkipSpace, Word;
    var p := name + end;
    assert p[0] == name[0] && IdentifierChar(name[0]);
    SkipsIndent(blanks, p);
    IdentifierEnds(name, end);
    WordEndsAt(name, end);
  }

  /** #ifdef, with any blanks where they may stand. */
  lemma {:induction false} IfdefAsWritten(indent: string, gap: string, blanks: string, name: string, end: string)
    requires AllWhite(indent) && AllBlank(gap) && AllBlank(blanks) && blanks != [] && IsIdentifier(name) && Apart(end)
    ensures var line := Written(indent, gap, "ifdef", Named(blanks, name, end));
            Classify(line) == Ifdef(name) && Read(line) == IfDefined(name)
  {
    hide Identifier, SkipBlanks, Word, Classify, Read;
    var rest := Named(blanks, name, end);
    assert rest[0] == blanks[0];
    ReadsWritten(indent, gap, "ifdef", rest);
    ReadsNamed(blanks, name, end);
    assert After("ifdef" + rest, "ifdef") == rest;
  }

  /** #ifndef likewise. */
  lemma {:induction false} IfndefAsWritten(indent: string, gap: string, blanks: string, name: string, end: string)
    requires AllWhite(indent) && AllBlank(gap) && AllBlank(blanks) && blanks != [] && IsIdentifier(name) && Apart(end)
    ensures var line := Written(indent, gap, "ifndef", Named(blanks, name, end));
            Classify(line) == Ifndef(name) && Read(line) == IfNotDefined(name)
  {
    hide Identifier, SkipBlanks, Word, Classify, Read;
    var rest := Named(blanks, name, end);
    assert rest[0] == blanks[0];
    ReadsWritten(indent, gap, "ifndef", rest);
    ReadsNamed(blanks, name, end);
    var p := "ifndef" + rest;
    assert p[2] == 'n';
    StartsOtherwise(p, "ifdef", 2);
    assert After(p, "ifndef") == rest;
    assert "ifndef"[2] == 'n' && "ifdef"[2] == 'd';
  }

  /** #if with a blank after it. */
  lemma {:induction false} IfAsWritten(indent: string, gap: string, rest: string)
    requires AllWhite(indent) && AllBlank(gap) && Apart(rest)
    ensures var line := Written(indent, gap, "if", rest);
            Classify(line) == If && Read(line) == IfExpr
  {
    hide Identifier, SkipBlanks, Word, Classify, Read;
    ReadsWritten(indent, gap, "if", rest);
    var p := "if" + rest;
    assert p[0] == 'i' && p[1] == 'f' && p[2] == rest[0];
    StartsOtherwise(p, "ifdef", 2);
    StartsOtherwise(p, "ifndef", 2);
  }

  lemma {:induction false} ElseAsWritten(indent: string, gap: string, rest: string)
    requires AllWhite(indent) && AllBlank(gap) && Apart(rest)
    ensures var line := Written(indent, gap, "else", rest);
            Classify(line) == Else && Read(line) == ElseLine
  {
    hide Identifier, SkipBlanks, Word, Classify, Read, After;
    ReadsWritten(indent, gap, "else", rest);
    var p := "else" + rest;
    assert p[0] == 'e' && p[1] == 'l';
    StartsOtherwise(p, "ifdef", 0);
    StartsOtherwise(p, "ifndef", 0);
    StartsOtherwise(p, "if", 0);
    assert "else"[0] == 'e' && "else"[2] == 's' && "elif"[2] == 'i';
  }

  lemma {:induction false} EndifAsWritten(indent: string, gap: string, rest: string)
    requires AllWhite(indent) && AllBlank(gap) && Apart(rest)
    ensures var line := Written(indent, gap, "endif", rest);
            Classify(line) == Endif && Read(line) == EndifLine
  {
    hide Identifier, SkipBlanks, Word, Classify, Read, After;
    ReadsWritten(indent, gap, "endif", rest);
    var p := "endif" + rest;
    assert p[0] == 'e' && p[1] == 'n';
    StartsOtherwise(p, "ifdef", 0);
    StartsOtherwise(p, "ifndef", 0);
    StartsOtherwise(p, "if", 0);
    StartsOtherwise(p, "else", 1);
    assert "endif"[0] == 'e' && "endif"[1] == 'n' && "elif"[1] == 'l' && "else"[1] == 'l';
  }

  /** #define and #undef of a name, which the filter lets pass. */
  lemma {:induction false} DefinitionAsWritten(indent: string, gap: string, undef: bool, blanks: string, name: string,
                                               end: string)
    requires AllWhite(indent) && AllBlank(gap) && AllBlank(blanks) && blanks != [] && IsIdentifier(name) && Apart(end)
    ensures var line := Written(indent, gap, if undef then "undef" else "define", Named(blanks, name, end));
            Classify(line) == OtherHash && Read(line) == if undef then Undef(name) else Define(name)
  {
    hide Identifier, SkipBlanks, Word, Classify, Read;
    var rest := Named(blanks, name, end);
    assert rest[0] == blanks[0];
    assert "define"[0] == 'd' && "undef"[0] == 'u';
    ReadsNamed(blanks, name, end);
    if undef {
      ReadsWritten(indent, gap, "undef", rest);
      NotTheFilters("undef" + rest);
    } else {
      ReadsWritten(indent, gap, "define", rest);
      NotTheFilters("define" + rest);
    }
  }

  /** #elif, which the filter takes for some other directive. */
  lemma {:induction false} ElifAsWritten(indent: string, gap: string, rest: string)
    requires AllWhite(indent) && AllBlank(gap) && (rest != [] ==> !IdentifierChar(rest[0]))
    ensures var line := Written(indent, gap, "elif", rest);
            Classify(line) == OtherHash && Read(line) == ElifExpr
  {
    hide Identifier, SkipBlanks, Word, Classify, Read;
    ReadsWritten(indent, gap, "elif", rest);
    NotTheFilters("elif" + rest);
    assert "elif"[2] == 'i';
  }

  /** A line that starts, after its indentation, with anything but a hash sign or
      its digraph, or that is blank, is text. */
  lemma {:induction false} TextAsWritten(indent: string, rest: string)
    requires AllWhite(indent) && rest != [] && rest[0] != '#' && rest[0] != '%' && (!IsSpace(rest[0]) || rest == "\n")
    ensures Classify(indent + rest) == Text && Read(indent + rest) == PlainLine
  {
    if IsSpace(rest[0]) {
      SkipsBlankLine(indent);
    } else {
      SkipsWhite(indent, rest);
    }
  }

  lemma {:induction false} SkipsBlankLine(indent: string)
    requires AllWhite(indent)
    ensures SkipSpace(indent + "\n") == []
    decreases |indent|
  {
    if indent == [] {
      assert indent + "\n" == "\n";
    } else {
      assert (indent + "\n")[1..] == indent[1..] + "\n" && White(indent[0]);
      SkipsBlankLine(indent[1..]);
    }
  }
}
