/** How ifdef reads a line: which directive it is, and for which name. */
module IfdefLines {

  datatype Directive =
    | Ifdef(name: string)
    | Ifndef(name: string)
    | If
    | Else
    | Endif
    | OtherHash
    | Text

  predicate IsSpace(c: char) {
    c == ' ' || '\t' <= c <= '\r'
  }

  function SkipSpace(s: string): (r: string)
    ensures |r| <= |s|
  {
    if s != [] && IsSpace(s[0]) then SkipSpace(s[1..]) else s
  }

  function SkipBlanks(s: string): (r: string)
    ensures |r| <= |s|
  {
    if s != [] && (s[0] == ' ' || s[0] == '\t') then SkipBlanks(s[1..]) else s
  }

  /** The longest prefix without blanks or control characters. */
  function Word(s: string): (w: string)
    ensures w <= s && Plain(w)
    ensures |w| < |s| ==> s[|w|] <= ' '
  {
    if s == [] || s[0] <= ' ' then [] else [s[0]] + Word(s[1..])
  }

  predicate Plain(s: string) {
    forall i :: 0 <= i < |s| ==> s[i] > ' '
  }

  predicate StartsWith(s: string, keyword: string) {
    keyword <= s
  }

  function After(s: string, keyword: string): string {
    if |keyword| <= |s| then s[|keyword|..] else []
  }

  /** The directive that starts right after the hash sign and any spaces. */
  function Decode(p: string): (d: Directive)
    ensures !d.Text?
  {
    if StartsWith(p, "ifdef") then Ifdef(Word(SkipBlanks(After(p, "ifdef"))))
    else if StartsWith(p, "ifndef") then Ifndef(Word(SkipBlanks(After(p, "ifndef"))))
    else if StartsWith(p, "if") && |p| > 2 && IsSpace(p[2]) then If
    else if StartsWith(p, "else") then Else
    else if StartsWith(p, "endif") then Endif
    else OtherHash
  }

  function Classify(line: string): Directive {
    var p := SkipSpace(line);
    if p == [] || p[0] != '#' then Text else Decode(SkipSpace(p[1..]))
  }

  predicate Opens(d: Directive) {
    d.Ifdef? || d.Ifndef? || d.If?
  }

  /** The name comparison of do_ifdef: `name` stands at the start of `s` and a
      blank or control character follows it. */
  predicate Matches(s: string, name: string) {
    name <= s && |name| < |s| && s[|name|] <= ' '
  }

  /** On lines that end in a newline it compares whole words. */
  lemma MatchesWord(s: string, name: string)
    requires Plain(name) && s != [] && s[|s| - 1] == '\n'
    ensures Matches(s, name) <==> name == Word(s)
  {
    var w := Word(s);
    if |w| == |s| {
      assert false;
    }
    if Matches(s, name) {
      assert |name| == |w|;
      assert name == s[..|name|] == w;
    }
  }

  lemma SkipBlanksKeepsEnd(s: string)
    requires s != [] && s[|s| - 1] == '\n'
    ensures SkipBlanks(s) != [] && SkipBlanks(s)[|SkipBlanks(s)| - 1] == '\n'
  {
  }

  lemma SkipSpaceKeepsEnd(s: string)
    ensures var r := SkipSpace(s); r != [] ==> r[|r| - 1] == s[|s| - 1]
  {
  }

  lemma AfterKeepsEnd(s: string, keyword: string)
    requires StartsWith(s, keyword) && keyword != [] && keyword[|keyword| - 1] != '\n'
    requires s != [] ==> s[|s| - 1] == '\n'
    ensures After(s, keyword) != [] && After(s, keyword)[|After(s, keyword)| - 1] == '\n'
  {
    assert keyword[|keyword| - 1] == s[|keyword| - 1];
  }
}
