/**
 * HasOption and AddShaderLayout of engine/src/renderer/material/shader.cpp
 * and engine/src/renderer/gl/gl_context.cpp: the `#option` test, and the
 * automatic `layout(location = N)` for the `in` and `out` declarations
 * before `void main`, numbered separately per qualifier.
 *
 * std::istringstream with std::getline becomes Lines, the output stream
 * the concatenation of each line and "\n", and the two regular
 * expressions the deterministic scanners ParseDeclaration and LayoutAt
 * (their greedy runs are each followed by a character outside the run's
 * class, so no backtracking can change a match).
 */
module ShaderLayout {
  import opened Wrappers
  import opened ShaderText

  // ---------------------------------------------------------------------
  // HasOption
  // ---------------------------------------------------------------------

  /** HasOption: whether "#option " followed by the name occurs anywhere. */
  function HasOption(s: string, option: string): (r: bool)
    ensures r <==> Occurs(s, "#option " + option)
  {
    Contains(s, "#option " + option)
  }

  /** An option written anywhere in the text is found. */
  lemma {:induction false} OptionFound(before: string, option: string, after: string)
    ensures HasOption(before + "#option " + option + after, option)
  {
    var p := "#option " + option;
    assert before + "#option " + option + after == before + p + after;
    ContainsInfix(before, p, after);
  }

  /** A text without a '#' has no option. */
  lemma {:induction false} NoHashNoOption(s: string, option: string)
    requires forall k :: 0 <= k < |s| ==> s[k] != '#'
    ensures !HasOption(s, option)
  {
    var p := "#option " + option;
    forall j: nat
      ensures !OccursAt(s, p, j)
    {
      if j + |p| <= |s| {
        assert s[j..j + |p|][0] == s[j];
      }
    }
  }

  // ---------------------------------------------------------------------
  // std::getline
  // ---------------------------------------------------------------------

  predicate NoNewline(line: string)
  {
    forall k :: 0 <= k < |line| ==> NotNewline(line[k])
  }

  /** The lines std::getline reads: split at each '\n', with no empty line
   *  after a final '\n'. */
  function Lines(s: string): (ls: seq<string>)
    decreases |s|
    ensures forall k :: 0 <= k < |ls| ==> NoNewline(ls[k])
  {
    if s == [] then []
    else
      var e := RunEnd(s, 0, NonNewline);
      RunEndMembers(s, 0, NonNewline);
      if e == |s| then [s]
      else
        var rest := Lines(s[e + 1..]);
        assert forall k :: 0 <= k < |rest| ==> ([s[..e]] + rest)[k + 1] == rest[k];
        [s[..e]] + rest
  }

  /** Each line followed by "\n", as the output stream collects them. */
  function Unlines(ls: seq<string>): string
  {
    if ls == [] then [] else ls[0] + "\n" + Unlines(ls[1..])
  }

  /** Writing the lines back gives the text, with a final '\n' added when
   *  it had none. */
  lemma {:induction false} LinesThenUnlines(s: string)
    decreases |s|
    ensures Unlines(Lines(s)) == if s == [] || s[|s| - 1] == '\n' then s else s + "\n"
  {
    if s != [] {
      var e := RunEnd(s, 0, NonNewline);
      if e < |s| {
        var t := s[e + 1..];
        LinesThenUnlines(t);
        SplitAtNewline(s, e);
        NewlineSplit(s, e);
        UnlinesCons(s[..e], Lines(t));
        if t != [] {
          LastOfSuffix(s, e + 1);
        }
      }
    }
  }

  /** A text with a '\n' at the end of its first line: that line, then
   *  the lines of the rest. */
  lemma SplitAtNewline(s: string, e: nat)
    requires s != [] && e == RunEnd(s, 0, NonNewline) && e < |s|
    ensures Lines(s) == [s[..e]] + Lines(s[e + 1..])
  {
  }

  lemma NewlineSplit(s: string, e: nat)
    requires e < |s| && !NotNewline(s[e])
    ensures s == s[..e] + "\n" + s[e + 1..]
  {
  }

  lemma UnlinesCons(l: string, ls: seq<string>)
    ensures Unlines([l] + ls) == l + "\n" + Unlines(ls)
  {
    assert ([l] + ls)[1..] == ls;
  }

  lemma LastOfSuffix(s: string, i: nat)
    requires i < |s|
    ensures s[i..][|s[i..]| - 1] == s[|s| - 1]
  {
  }

  /** Reading back written lines that hold no '\n' gives the lines. */
  lemma {:induction false} UnlinesThenLines(ls: seq<string>)
    requires forall k :: 0 <= k < |ls| ==> NoNewline(ls[k])
    ensures Lines(Unlines(ls)) == ls
  {
    if ls != [] {
      LinesOfLineThen(ls[0], Unlines(ls[1..]));
      UnlinesThenLines(ls[1..]);
    }
  }

  /** A line without '\n', then '\n', then a rest: its first line is the
   *  line, and its remaining lines those of the rest. */
  lemma LinesOfLineThen(l: string, rest: string)
    requires NoNewline(l)
    ensures Lines(l + "\n" + rest) == [l] + Lines(rest)
  {
    var s := l + "\n" + rest;
    assert forall k :: 0 <= k < |l| ==> s[k] == l[k];
    RunEndIs(s, 0, NonNewline, |l|);
    assert s[..|l|] == l;
    assert s[|l| + 1..] == rest;
  }

  // ---------------------------------------------------------------------
  // The declaration `^\s*(in|out)\s+(\w+)\s+(\w+)\s*;\r?$`
  // ---------------------------------------------------------------------

  datatype Qualifier = In | Out

  function QualifierName(q: Qualifier): string
  {
    match q
    case In => "in"
    case Out => "out"
  }

  /** `[a-zA-Z_][a-zA-Z0-9_]*` */
  predicate IsIdentifier(s: string)
  {
    |s| >= 1 && IsIdentStart(s[0]) && forall k :: 1 <= k < |s| ==> IsWordChar(s[k])
  }

  datatype Declaration = Declaration(qualifier: Qualifier, varType: string, varName: string)

  /** The identifier starting at i, if one does, and where it ends. */
  function IdentifierAt(line: string, i: nat): (r: Option<nat>)
    requires i <= |line|
    ensures r.Some? ==> i < r.value <= |line| && IsIdentifier(line[i..r.value])
    ensures r.Some? ==> r.value == |line| || !IsWordChar(line[r.value])
  {
    var e := RunEnd(line, i, Word);
    if e == i || !IsIdentStart(line[i]) then None
    else
      RunEndMembers(line, i, Word);
      assert forall k :: 1 <= k < e - i ==> line[i..e][k] == line[i + k];
      Some(e)
  }

  /** The qualifier starting at i, if any. */
  function QualifierAt(line: string, i: nat): (r: Option<Qualifier>)
    ensures r.Some? ==> OccursAt(line, QualifierName(r.value), i)
  {
    if OccursAt(line, "out", i) then Some(Out)
    else if OccursAt(line, "in", i) then Some(In)
    else None
  }

  /** regex_match of the declaration pattern against a whole line. */
  function ParseDeclaration(line: string): (r: Option<Declaration>)
    ensures r.Some? ==> IsIdentifier(r.value.varType) && IsIdentifier(r.value.varName)
  {
    var a := RunEnd(line, 0, RegexSpace);
    match QualifierAt(line, a)
    case None => None
    case Some(q) =>
      var b := a + |QualifierName(q)|;
      var c := RunEnd(line, b, RegexSpace);
      if c == b then None
      else match IdentifierAt(line, c)
        case None => None
        case Some(d) =>
          var e := RunEnd(line, d, RegexSpace);
          if e == d then None
          else match IdentifierAt(line, e)
            case None => None
            case Some(f) =>
              var g := RunEnd(line, f, RegexSpace);
              if g < |line| && line[g] == ';' && (g + 1 == |line| || (g + 2 == |line| && line[g + 1] == '\r'))
              then Some(Declaration(q, line[c..d], line[e..f]))
              else None
  }

  /** The plainest spelling of a declaration. */
  function DeclarationText(d: Declaration): string
  {
    QualifierName(d.qualifier) + " " + d.varType + " " + d.varName + ";"
  }

  /** A declaration written plainly is read back. */
  lemma DeclarationRoundTrip(d: Declaration)
    requires IsIdentifier(d.varType) && IsIdentifier(d.varName)
    ensures ParseDeclaration(DeclarationText(d)) == Some(d)
  {
    DeclarationTextPieces(d);
    PlainDeclaration(DeclarationText(d), d);
  }

  /** Where the pieces of DeclarationText sit. */
  lemma DeclarationTextPieces(d: Declaration)
    ensures var line := DeclarationText(d);
      var c := |QualifierName(d.qualifier)| + 1;
      var e := c + |d.varType| + 1;
      |line| == e + |d.varName| + 1 &&
      line[..c - 1] == QualifierName(d.qualifier) && line[c - 1] == ' ' &&
      line[c..c + |d.varType|] == d.varType && line[e - 1] == ' ' &&
      line[e..e + |d.varName|] == d.varName && line[e + |d.varName|] == ';'
  {
    var q := QualifierName(d.qualifier);
    var line := DeclarationText(d);
    var c := |q| + 1;
    var e := c + |d.varType| + 1;
    assert line == q + " " + d.varType + " " + d.varName + ";";
    assert line[..c - 1] == q;
    assert line[c..c + |d.varType|] == d.varType;
    assert line[e..e + |d.varName|] == d.varName;
  }

  /** A line laid out as `q t n;` with single blanks is read as that declaration. */
  lemma PlainDeclaration(line: string, d: Declaration)
    requires IsIdentifier(d.varType) && IsIdentifier(d.varName)
    requires var c := |QualifierName(d.qualifier)| + 1;
      var e := c + |d.varType| + 1;
      |line| == e + |d.varName| + 1 &&
      line[..c - 1] == QualifierName(d.qualifier) && line[c - 1] == ' ' &&
      line[c..c + |d.varType|] == d.varType && line[e - 1] == ' ' &&
      line[e..e + |d.varName|] == d.varName && line[e + |d.varName|] == ';'
    ensures ParseDeclaration(line) == Some(d)
  {
    var c := |QualifierName(d.qualifier)| + 1;
    var e := c + |d.varType| + 1;
    var g := e + |d.varName|;
    QualifierPrefix(line, d.qualifier);
    PlainWords(line, c, d.varType, e, d.varName);
    ParseDeclarationSteps(line, d.qualifier, c, c + |d.varType|, e, g);
  }

  /** The scanner's stops in `q t n;` after the qualifier at c - 1. */
  lemma PlainWords(line: string, c: nat, t: string, e: nat, n: string)
    requires IsIdentifier(t) && IsIdentifier(n) && 0 < c && e == c + |t| + 1
    requires |line| == e + |n| + 1 && line[c - 1] == ' ' && line[c..c + |t|] == t &&
      line[e - 1] == ' ' && line[e..e + |n|] == n && line[e + |n|] == ';'
    ensures RunEnd(line, c - 1, RegexSpace) == c && IdentifierAt(line, c) == Some(c + |t|)
    ensures RunEnd(line, c + |t|, RegexSpace) == e && IdentifierAt(line, e) == Some(e + |n|)
    ensures RunEnd(line, e + |n|, RegexSpace) == e + |n|
  {
    SemicolonEnd(line, e + |n|);
    BlankThenWord(line, c, t);
    BlankThenWord(line, e, n);
  }

  lemma SemicolonEnd(line: string, g: nat)
    requires g < |line| && line[g] == ';'
    ensures RunEnd(line, g, RegexSpace) == g
  {
    EmptyRun(line, g, RegexSpace);
  }

  /** A single blank at c - 1, then an identifier ended by a non-word character. */
  lemma BlankThenWord(line: string, c: nat, t: string)
    requires IsIdentifier(t) && 0 < c && c + |t| < |line|
    requires line[c - 1] == ' ' && line[c..c + |t|] == t && !IsWordChar(line[c + |t|])
    ensures RunEnd(line, c - 1, RegexSpace) == c && IdentifierAt(line, c) == Some(c + |t|)
  {
    assert line[c] == t[0];
    SpaceThen(line, c - 1);
    IdentifierThen(line, c, t);
  }

  /** A line starting with a qualifier's name and a blank is read from that qualifier. */
  lemma QualifierPrefix(line: string, q: Qualifier)
    requires |QualifierName(q)| < |line| && line[..|QualifierName(q)|] == QualifierName(q)
    ensures RunEnd(line, 0, RegexSpace) == 0 && QualifierAt(line, 0) == Some(q)
  {
    assert line[0] == QualifierName(q)[0];
    EmptyRun(line, 0, RegexSpace);
    assert line[0..|QualifierName(q)|] == QualifierName(q);
    if q == In {
      assert !OccursAt(line, "out", 0);
    }
  }

  /** A single blank at i, followed by a non-blank. */
  lemma SpaceThen(line: string, i: nat)
    requires i + 1 < |line| && line[i] == ' ' && !IsRegexSpace(line[i + 1])
    ensures RunEnd(line, i, RegexSpace) == i + 1
  {
    RunEndIs(line, i, RegexSpace, i + 1);
  }

  /** An identifier at i, ended by a non-word character. */
  lemma IdentifierThen(line: string, i: nat, id: string)
    requires i + |id| < |line| && line[i..i + |id|] == id && IsIdentifier(id) && !IsWordChar(line[i + |id|])
    ensures IdentifierAt(line, i) == Some(i + |id|)
  {
    assert forall k :: 0 <= k < |id| ==> line[i + k] == id[k];
    RunEndIs(line, i, Word, i + |id|);
  }

  /** ParseDeclaration in terms of the positions its scanner stops at. */
  lemma ParseDeclarationSteps(line: string, q: Qualifier, c: nat, d: nat, e: nat, g: nat)
    requires RunEnd(line, 0, RegexSpace) == 0 && QualifierAt(line, 0) == Some(q)
    requires |QualifierName(q)| < c <= |line| && RunEnd(line, |QualifierName(q)|, RegexSpace) == c
    requires IdentifierAt(line, c) == Some(d) && d < e <= |line| && RunEnd(line, d, RegexSpace) == e
    requires IdentifierAt(line, e) == Some(g) && RunEnd(line, g, RegexSpace) == g
    requires g + 1 == |line| && line[g] == ';'
    ensures ParseDeclaration(line) == Some(Declaration(q, line[c..d], line[e..g]))
  {
  }

  // ---------------------------------------------------------------------
  // The custom layout `layout\s*\(\s*location\s*=\s*\d+\s*\)`
  // ---------------------------------------------------------------------

  /** Whether a custom layout qualifier starts at i. */
  predicate LayoutAt(line: string, i: nat)
    requires i <= |line|
  {
    OccursAt(line, "layout", i) &&
    var a := RunEnd(line, i + 6, RegexSpace);
    a < |line| && line[a] == '(' &&
    var b := RunEnd(line, a + 1, RegexSpace);
    OccursAt(line, "location", b) &&
    var c := RunEnd(line, b + 8, RegexSpace);
    c < |line| && line[c] == '=' &&
    var d := RunEnd(line, c + 1, RegexSpace);
    var e := RunEnd(line, d, Digit);
    e > d &&
    var f := RunEnd(line, e, RegexSpace);
    f < |line| && line[f] == ')'
  }

  /** regex_search of the layout pattern from position i on. */
  function SearchLayout(line: string, i: nat): (r: bool)
    requires i <= |line|
    decreases |line| - i
    ensures r <==> exists j :: i <= j <= |line| && LayoutAt(line, j)
  {
    if LayoutAt(line, i) then true
    else if i == |line| then false
    else SearchLayout(line, i + 1)
  }

  predicate HasLayout(line: string)
  {
    SearchLayout(line, 0)
  }

  /** The line AddShaderLayout writes for a declaration. */
  function LayoutLine(location: nat, d: Declaration): string
  {
    "layout(location = " + NatToString(location) + ") " + DeclarationText(d)
  }

  /** A written layout line carries a custom layout itself. */
  lemma LayoutLineHasLayout(location: nat, d: Declaration)
    ensures HasLayout(LayoutLine(location, d))
  {
    var digits := NatToString(location);
    var line := LayoutLine(location, d);
    assert line == "layout(location = " + digits + (") " + DeclarationText(d));
    assert line[..18] == "layout(location = ";
    assert line[18..18 + |digits|] == digits;
    assert line[18 + |digits|] == ')';
    LayoutPrefix(line, |digits|);
  }

  /** A line starting `layout(location = <digits>)` matches the layout pattern at 0. */
  lemma LayoutPrefix(line: string, width: nat)
    requires 18 + width < |line| && width >= 1
    requires line[..18] == "layout(location = " && line[18 + width] == ')'
    requires forall k :: 18 <= k < 18 + width ==> IsDigit(line[k])
    ensures LayoutAt(line, 0)
  {
    var e := 18 + width;
    assert line[0..6] == line[..18][0..6] == "layout";
    assert line[7..15] == line[..18][7..15] == "location";
    assert line[6] == '(' && line[15] == ' ' && line[16] == '=' && line[17] == ' ';
    EmptyRun(line, 6, RegexSpace);
    EmptyRun(line, 7, RegexSpace);
    RunEndIs(line, 15, RegexSpace, 16);
    RunEndIs(line, 17, RegexSpace, 18);
    RunEndIs(line, 18, Digit, e);
    EmptyRun(line, e, RegexSpace);
  }

  /** A written layout line is not a declaration any more. */
  lemma LayoutLineIsNoDeclaration(location: nat, d: Declaration)
    ensures ParseDeclaration(LayoutLine(location, d)) == None
  {
    var line := LayoutLine(location, d);
    assert line[0] == 'l';
    EmptyRun(line, 0, RegexSpace);
  }

  // ---------------------------------------------------------------------
  // AddShaderLayout
  // ---------------------------------------------------------------------

  /** A custom layout before `void main`, which the layout assertion
   *  rejects. */
  datatype LayoutError = CustomLayout(line: string)

  predicate IsMainLine(line: string)
  {
    Contains(line, "void main")
  }

  /** What the loop body asks of a line: whether it holds "void main",
   *  whether it has a custom layout, and the declaration it makes. */
  datatype LineInfo = LineInfo(main: bool, custom: bool, decl: Option<Declaration>)

  function Info(line: string): LineInfo
  {
    LineInfo(IsMainLine(line), HasLayout(line), ParseDeclaration(line))
  }

  /** The information of the first n lines. */
  function Infos(lines: seq<string>, n: nat): (r: seq<LineInfo>)
    requires n <= |lines|
    ensures |r| == n
  {
    if n == 0 then [] else Infos(lines, n - 1) + [Info(lines[n - 1])]
  }

  lemma {:induction false} InfoAt(lines: seq<string>, n: nat, j: nat)
    requires j < n <= |lines|
    ensures Infos(lines, n)[j] == Info(lines[j])
  {
    if j < n - 1 {
      InfoAt(lines, n - 1, j);
    }
  }

  /** The first line at or after i holding "void main", or |infos|. */
  function MainFrom(infos: seq<LineInfo>, i: nat): (r: nat)
    requires i <= |infos|
    decreases |infos| - i
    ensures i <= r <= |infos|
    ensures forall j :: i <= j < r ==> !infos[j].main
    ensures r < |infos| ==> infos[r].main
  {
    if i == |infos| || infos[i].main then i else MainFrom(infos, i + 1)
  }

  function MainIndex(infos: seq<LineInfo>): nat
  {
    MainFrom(infos, 0)
  }

  predicate DeclaresWith(info: LineInfo, q: Qualifier)
  {
    info.decl.Some? && info.decl.value.qualifier == q
  }

  /** How many of the first n lines declare a variable with qualifier q. */
  function CountDeclarations(infos: seq<LineInfo>, n: nat, q: Qualifier): (r: nat)
    requires n <= |infos|
    ensures r <= n
  {
    if n == 0 then 0
    else CountDeclarations(infos, n - 1, q) + if DeclaresWith(infos[n - 1], q) then 1 else 0
  }

  /** What line j becomes: lines from `void main` on and lines that declare
   *  nothing are kept; a declaration gets as its location the number of
   *  earlier declarations with the same qualifier. */
  function LaidOut(lines: seq<string>, infos: seq<LineInfo>, j: nat): string
    requires |infos| == |lines| && j < |lines|
  {
    if MainIndex(infos) <= j then lines[j]
    else match infos[j].decl
      case None => lines[j]
      case Some(d) => LayoutLine(CountDeclarations(infos, j, d.qualifier), d)
  }

  /** The first n lines, laid out. */
  function LaidOutLines(lines: seq<string>, infos: seq<LineInfo>, n: nat): (r: seq<string>)
    requires |infos| == |lines| && n <= |lines|
    ensures |r| == n
  {
    if n == 0 then [] else LaidOutLines(lines, infos, n - 1) + [LaidOut(lines, infos, n - 1)]
  }

  /** The first line from i on, before `void main`, with a custom layout. */
  function FirstCustomLayout(infos: seq<LineInfo>, i: nat): (r: Option<nat>)
    requires i <= |infos|
    decreases |infos| - i
    ensures r.Some? ==> i <= r.value < MainIndex(infos) && infos[r.value].custom
    ensures r.Some? ==> forall j :: i <= j < r.value ==> !infos[j].custom
    ensures r.None? ==> forall j :: i <= j < MainIndex(infos) ==> !infos[j].custom
  {
    if i >= MainIndex(infos) then None
    else if infos[i].custom then Some(i)
    else FirstCustomLayout(infos, i + 1)
  }

  /** AddShaderLayout's result described line by line: the first custom
   *  layout before `void main` is an error, otherwise every line laid
   *  out. */
  function LayoutResult(lines: seq<string>, infos: seq<LineInfo>): Result<string, LayoutError>
    requires |infos| == |lines|
  {
    match FirstCustomLayout(infos, 0)
    case Some(j) => Err(CustomLayout(lines[j]))
    case None => Ok(Unlines(LaidOutLines(lines, infos, |lines|)))
  }

  /** The getline loop from line i on, with its `in_main` flag, its two
   *  location counters and the output so far. */
  function LayoutFrom(lines: seq<string>, infos: seq<LineInfo>, i: nat, inMain: bool, nextIn: nat, nextOut: nat,
                      output: string): Result<string, LayoutError>
    requires |infos| == |lines| && i <= |lines|
    decreases |lines| - i
  {
    if i == |lines| then Ok(output)
    else
      var line := lines[i];
      if inMain || infos[i].main then
        LayoutFrom(lines, infos, i + 1, true, nextIn, nextOut, output + line + "\n")
      else if infos[i].custom then Err(CustomLayout(line))
      else match infos[i].decl
        case None => LayoutFrom(lines, infos, i + 1, false, nextIn, nextOut, output + line + "\n")
        case Some(d) =>
          if d.qualifier == In then
            LayoutFrom(lines, infos, i + 1, false, nextIn + 1, nextOut, output + LayoutLine(nextIn, d) + "\n")
          else
            LayoutFrom(lines, infos, i + 1, false, nextIn, nextOut + 1, output + LayoutLine(nextOut, d) + "\n")
  }

  function AddShaderLayoutSpec(source: string): Result<string, LayoutError>
  {
    var lines := Lines(source);
    LayoutFrom(lines, Infos(lines, |lines|), 0, false, 0, 0, [])
  }

  /** AddShaderLayout: the getline loop over the source's lines. */
  method AddShaderLayout(source: string) returns (r: Result<string, LayoutError>)
    ensures r == AddShaderLayoutSpec(source)
  {
    var lines := Lines(source);
    ghost var infos := Infos(lines, |lines|);
    var output: string := [];
    var inMain := false;
    var nextIn := 0;
    var nextOut := 0;
    var i := 0;
    while i < |lines|
      invariant i <= |lines|
      invariant LayoutFrom(lines, infos, i, inMain, nextIn, nextOut, output) == AddShaderLayoutSpec(source)
    {
      var line := lines[i];
      InfoAt(lines, |lines|, i);
      if !inMain && IsMainLine(line) {
        inMain := true;
      }
      if inMain {
        output := output + line + "\n";
      } else {
        if HasLayout(line) {
          return Err(CustomLayout(line));
        }
        var d := ParseDeclaration(line);
        if d.None? {
          output := output + line + "\n";
        } else {
          var location;
          if d.value.qualifier == In {
            location := nextIn;
            nextIn := nextIn + 1;
          } else {
            location := nextOut;
            nextOut := nextOut + 1;
          }
          output := output + LayoutLine(location, d.value) + "\n";
        }
      }
      i := i + 1;
    }
    return Ok(output);
  }

  lemma {:induction false} UnlinesAppend(ls: seq<string>, l: string)
    ensures Unlines(ls + [l]) == Unlines(ls) + l + "\n"
  {
    if ls != [] {
      assert (ls + [l])[1..] == ls[1..] + [l];
      UnlinesAppend(ls[1..], l);
    }
  }

  /** The loop invariant: the flag, the counters and the output agree
   *  with the line-by-line description of the first i lines. */
  ghost predicate LoopState(lines: seq<string>, infos: seq<LineInfo>, i: nat, inMain: bool, nextIn: nat, nextOut: nat,
                            output: string)
    requires |infos| == |lines| && i <= |lines|
  {
    (inMain <==> MainIndex(infos) < i) &&
    (!inMain ==> nextIn == CountDeclarations(infos, i, In) && nextOut == CountDeclarations(infos, i, Out)) &&
    FirstCustomLayout(infos, 0) == FirstCustomLayout(infos, i) &&
    output == Unlines(LaidOutLines(lines, infos, i))
  }

  /** From the loop invariant on, the loop yields the line-by-line result. */
  lemma {:induction false} LayoutFromIsResult(lines: seq<string>, infos: seq<LineInfo>, i: nat, inMain: bool,
                                              nextIn: nat, nextOut: nat, output: string)
    requires |infos| == |lines| && i <= |lines| && LoopState(lines, infos, i, inMain, nextIn, nextOut, output)
    decreases |lines| - i, 1
    ensures LayoutFrom(lines, infos, i, inMain, nextIn, nextOut, output) == LayoutResult(lines, infos)
  {
    if i < |lines| {
      UnlinesAppend(LaidOutLines(lines, infos, i), LaidOut(lines, infos, i));
      if inMain || infos[i].main {
        MainLineStep(lines, infos, i, nextIn, nextOut, output);
      } else if !infos[i].custom {
        BodyLineStep(lines, infos, i, nextIn, nextOut, output);
      }
    }
  }

  /** A line from `void main` on is copied. */
  lemma {:induction false} MainLineStep(lines: seq<string>, infos: seq<LineInfo>, i: nat, nextIn: nat, nextOut: nat,
                                        output: string)
    requires |infos| == |lines| && i < |lines| && MainIndex(infos) <= i
    requires FirstCustomLayout(infos, 0) == FirstCustomLayout(infos, i)
    requires Unlines(LaidOutLines(lines, infos, i + 1)) == output + LaidOut(lines, infos, i) + "\n"
    decreases |lines| - i, 0
    ensures LayoutFrom(lines, infos, i + 1, true, nextIn, nextOut, output + lines[i] + "\n") == LayoutResult(lines, infos)
  {
    LayoutFromIsResult(lines, infos, i + 1, true, nextIn, nextOut, output + lines[i] + "\n");
  }

  /** A line before `void main` without a custom layout is laid out. */
  lemma {:induction false} BodyLineStep(lines: seq<string>, infos: seq<LineInfo>, i: nat, nextIn: nat, nextOut: nat,
                                        output: string)
    requires |infos| == |lines| && i < MainIndex(infos) && !infos[i].custom
    requires nextIn == CountDeclarations(infos, i, In) && nextOut == CountDeclarations(infos, i, Out)
    requires FirstCustomLayout(infos, 0) == FirstCustomLayout(infos, i)
    requires Unlines(LaidOutLines(lines, infos, i + 1)) == output + LaidOut(lines, infos, i) + "\n"
    decreases |lines| - i, 0
    ensures LayoutFrom(lines, infos, i, false, nextIn, nextOut, output) == LayoutResult(lines, infos)
  {
    var in' := CountDeclarations(infos, i + 1, In);
    var out' := CountDeclarations(infos, i + 1, Out);
    var output' := output + LaidOut(lines, infos, i) + "\n";
    BodyLineUnfold(lines, infos, i, output);
    assert FirstCustomLayout(infos, i) == FirstCustomLayout(infos, i + 1);
    LayoutFromIsResult(lines, infos, i + 1, false, in', out', output');
  }

  /** One step of the loop on a line before `void main` without a custom layout. */
  lemma BodyLineUnfold(lines: seq<string>, infos: seq<LineInfo>, i: nat, output: string)
    requires |infos| == |lines| && i < MainIndex(infos) && !infos[i].custom
    ensures LayoutFrom(lines, infos, i, false, CountDeclarations(infos, i, In), CountDeclarations(infos, i, Out), output)
         == LayoutFrom(lines, infos, i + 1, false, CountDeclarations(infos, i + 1, In),
                       CountDeclarations(infos, i + 1, Out), output + LaidOut(lines, infos, i) + "\n")
  {
    assert !infos[i].main;
  }

  /** AddShaderLayout fails on the first custom layout before `void main`,
   *  and otherwise writes each line laid out, followed by "\n". */
  lemma LayoutClosedForm(source: string)
    ensures var lines := Lines(source);
            AddShaderLayoutSpec(source) == LayoutResult(lines, Infos(lines, |lines|))
  {
    var lines := Lines(source);
    LayoutFromIsResult(lines, Infos(lines, |lines|), 0, false, 0, 0, []);
  }

  /** Line j of the output is line j laid out. */
  lemma {:induction false} LaidOutLineAt(lines: seq<string>, infos: seq<LineInfo>, n: nat, j: nat)
    requires |infos| == |lines| && j < n <= |lines|
    ensures LaidOutLines(lines, infos, n)[j] == LaidOut(lines, infos, j)
  {
    var pre := LaidOutLines(lines, infos, n - 1);
    AppendIndex(pre, LaidOut(lines, infos, n - 1), j);
    if j < n - 1 {
      LaidOutLineAt(lines, infos, n - 1, j);
    }
  }

  lemma AppendIndex(a: seq<string>, x: string, j: nat)
    requires j <= |a|
    ensures (a + [x])[j] == if j < |a| then a[j] else x
  {
  }

  /** Later declarations of a qualifier get higher locations, so the
   *  declarations of one qualifier get the locations 0, 1, 2, ... */
  lemma {:induction false} LocationsIncrease(infos: seq<LineInfo>, i: nat, j: nat, q: Qualifier)
    requires i < j <= |infos| && DeclaresWith(infos[i], q)
    ensures CountDeclarations(infos, i, q) < CountDeclarations(infos, j, q)
  {
    if j > i + 1 {
      LocationsIncrease(infos, i, j - 1, q);
    }
  }

  /** A source whose lines before `void main` hold no declaration and no
   *  custom layout comes back as it was read. */
  lemma {:induction false} NothingToLayOut(source: string)
    requires var lines := Lines(source);
             forall j :: 0 <= j < |lines| && j < MainIndex(Infos(lines, |lines|)) ==>
               ParseDeclaration(lines[j]).None? && !HasLayout(lines[j])
    ensures AddShaderLayoutSpec(source) == Ok(Unlines(Lines(source)))
  {
    var lines := Lines(source);
    var infos := Infos(lines, |lines|);
    LayoutClosedForm(source);
    forall j | 0 <= j < |lines|
      ensures LaidOutLines(lines, infos, |lines|)[j] == lines[j] && !(j < MainIndex(infos) && infos[j].custom)
    {
      LaidOutLineAt(lines, infos, |lines|, j);
      InfoAt(lines, |lines|, j);
    }
    assert LaidOutLines(lines, infos, |lines|) == lines;
  }
}
