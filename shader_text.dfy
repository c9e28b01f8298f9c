/**
 * The shader source text processing of engine/src/renderer/material/shader.cpp
 * and engine/src/renderer/gl/gl_context.cpp, which hold the same static
 * helpers: whitespace trimming, raw string literal unwrapping, splitting a
 * file into `#type` blocks, the `#option` test, automatic layout locations,
 * the texture switch block and token substitution.
 *
 * std::string::find and rfind, std::getline, std::format of an integer and
 * the three regular expressions are modelled by the functions below; the
 * regular expressions' `\s` is the six ASCII whitespace characters.
 */
module ShaderText {
  import opened Wrappers

  // ---------------------------------------------------------------------
  // Characters
  // ---------------------------------------------------------------------

  /** The characters TrimWhitespace removes: " \n\r\t". */
  predicate IsBlank(c: char)
  {
    c == ' ' || c == '\n' || c == '\r' || c == '\t'
  }

  predicate AllBlank(s: string)
  {
    forall i :: 0 <= i < |s| ==> IsBlank(s[i])
  }

  /** `\s` of the ECMAScript regular expressions. */
  predicate IsRegexSpace(c: char)
  {
    c == ' ' || c == '\t' || c == '\n' || c == '\r' || c == '\U{000B}' || c == '\U{000C}'
  }

  /** `\w`, which is also the character class of an identifier's tail. */
  predicate IsWordChar(c: char)
  {
    ('a' <= c <= 'z') || ('A' <= c <= 'Z') || ('0' <= c <= '9') || c == '_'
  }

  predicate IsIdentStart(c: char)
  {
    ('a' <= c <= 'z') || ('A' <= c <= 'Z') || c == '_'
  }

  predicate IsDigit(c: char)
  {
    '0' <= c <= '9'
  }

  predicate NotNewline(c: char)
  {
    c != '\n'
  }

  /** The character classes the scanners take runs of. */
  datatype CharClass = RegexSpace | Word | Digit | NonNewline

  predicate InClass(cls: CharClass, c: char)
  {
    match cls
    case RegexSpace => IsRegexSpace(c)
    case Word => IsWordChar(c)
    case Digit => IsDigit(c)
    case NonNewline => NotNewline(c)
  }

  // ---------------------------------------------------------------------
  // TrimWhitespace
  // ---------------------------------------------------------------------

  /** find_first_not_of(" \n\r\t"), or |s| when every character is blank. */
  function FirstKept(s: string): (r: nat)
    ensures r <= |s| && AllBlank(s[..r]) && (r < |s| ==> !IsBlank(s[r]))
  {
    if |s| == 0 || !IsBlank(s[0]) then 0
    else
      var k := FirstKept(s[1..]);
      assert s[..1 + k] == [s[0]] + s[1..][..k];
      1 + k
  }

  /** find_last_not_of(" \n\r\t") of a string that is not all blank. */
  function LastKept(s: string): (r: nat)
    requires !AllBlank(s)
    ensures r < |s| && !IsBlank(s[r]) && AllBlank(s[r + 1..])
  {
    if !IsBlank(s[|s| - 1]) then |s| - 1
    else
      var t := s[..|s| - 1];
      assert !AllBlank(t) by {
        var i :| 0 <= i < |s| && !IsBlank(s[i]);
        assert t[i] == s[i];
      }
      var k := LastKept(t);
      assert s[k + 1..] == t[k + 1..] + [s[|s| - 1]];
      k
  }

  /** FirstKept is the only index with blanks before it and a kept
   *  character (or the end) at it. */
  lemma FirstKeptUnique(s: string, k: nat)
    requires k <= |s| && AllBlank(s[..k]) && (k < |s| ==> !IsBlank(s[k]))
    ensures FirstKept(s) == k
  {
    var f := FirstKept(s);
    assert forall i :: 0 <= i < k ==> s[..k][i] == s[i];
    assert forall i :: 0 <= i < f ==> s[..f][i] == s[i];
  }

  lemma LastKeptUnique(s: string, k: nat)
    requires k < |s| && !IsBlank(s[k]) && AllBlank(s[k + 1..])
    ensures !AllBlank(s) && LastKept(s) == k
  {
    assert !IsBlank(s[k]);
    var l := LastKept(s);
    assert forall i :: k < i < |s| ==> s[k + 1..][i - k - 1] == s[i];
    assert forall i :: l < i < |s| ==> s[l + 1..][i - l - 1] == s[i];
  }

  /** TrimWhitespace: the text between the first and the last character
   *  that is not one of " \n\r\t"; "" when there is none. */
  function TrimWhitespace(s: string): (r: string)
    ensures r == [] <==> AllBlank(s)
    ensures r != [] ==> !IsBlank(r[0]) && !IsBlank(r[|r| - 1])
    ensures FirstKept(s) + |r| <= |s| && r == s[FirstKept(s)..FirstKept(s) + |r|]
    ensures AllBlank(s[FirstKept(s) + |r|..])
  {
    var start := FirstKept(s);
    if start == |s| then
      assert s[..start] == s;
      []
    else
      assert !AllBlank(s) by { assert !IsBlank(s[start]); }
      var end := LastKept(s);
      assert forall i :: 0 <= i < start ==> s[..start][i] == s[i];
      s[start..end + 1]
  }

  /** Trimming twice is trimming once. */
  lemma {:induction false} TrimIdempotent(s: string)
    ensures TrimWhitespace(TrimWhitespace(s)) == TrimWhitespace(s)
  {
    var t := TrimWhitespace(s);
    if t != [] {
      FirstKeptUnique(t, 0);
      LastKeptUnique(t, |t| - 1);
      assert t[0..|t|] == t;
    }
  }

  /** Only the four blank characters are stripped, and only from the ends:
   *  padding a text that starts and ends with another character and
   *  trimming gives the text back. */
  lemma {:induction false} TrimStripsPadding(front: string, text: string, back: string)
    requires AllBlank(front) && AllBlank(back)
    requires text != [] && !IsBlank(text[0]) && !IsBlank(text[|text| - 1])
    ensures TrimWhitespace(front + text + back) == text
  {
    var s := front + text + back;
    assert s[..|front|] == front;
    FirstKeptUnique(s, |front|);
    assert s[|front| + |text|..] == back;
    LastKeptUnique(s, |front| + |text| - 1);
    assert s[|front|..|front| + |text|] == text;
  }

  /** A vertical tab or a form feed is kept, since it is not one of the
   *  stripped characters. */
  lemma TrimKeepsOtherWhitespace()
    ensures TrimWhitespace(" \U{000B}x\U{000C}\n") == "\U{000B}x\U{000C}"
  {
    TrimStripsPadding(" ", "\U{000B}x\U{000C}", "\n");
    assert " " + "\U{000B}x\U{000C}" + "\n" == " \U{000B}x\U{000C}\n";
  }

  // ---------------------------------------------------------------------
  // find and rfind
  // ---------------------------------------------------------------------

  predicate OccursAt(s: string, p: string, i: nat)
  {
    i + |p| <= |s| && s[i..i + |p|] == p
  }

  ghost predicate Occurs(s: string, p: string)
  {
    exists i: nat :: OccursAt(s, p, i)
  }

  /** std::string::find(p, from): the first occurrence at or after from. */
  function Find(s: string, p: string, from: nat): (r: Option<nat>)
    decreases |s| - from
    ensures r.Some? ==> from <= r.value && OccursAt(s, p, r.value)
  {
    if from + |p| > |s| then None
    else if OccursAt(s, p, from) then Some(from)
    else Find(s, p, from + 1)
  }

  /** Find misses no occurrence: none lies between from and the one
   *  found, and none at all from `from` on when nothing is found. */
  lemma {:induction false} FindFirst(s: string, p: string, from: nat)
    decreases |s| - from
    ensures var r := Find(s, p, from);
            (r.Some? ==> forall j: nat :: from <= j < r.value ==> !OccursAt(s, p, j)) &&
            (r.None? ==> forall j: nat :: from <= j ==> !OccursAt(s, p, j))
  {
    if from + |p| <= |s| && !OccursAt(s, p, from) {
      FindFirst(s, p, from + 1);
    }
  }

  /** Find's answer is determined by those three properties. */
  lemma FindIs(s: string, p: string, from: nat, i: nat)
    requires from <= i && OccursAt(s, p, i)
    requires forall j: nat :: from <= j < i ==> !OccursAt(s, p, j)
    ensures Find(s, p, from) == Some(i)
  {
    FindFirst(s, p, from);
  }

  /** A search result moved right by n. */
  function Shift(n: nat, r: Option<nat>): Option<nat>
  {
    match r case None => None case Some(i) => Some(n + i)
  }

  /** Searching a string from n + k finds what searching its suffix from
   *  n finds from k, moved right by n. */
  lemma {:induction false} FindShift(s: string, n: nat, p: string, k: nat)
    requires n <= |s|
    decreases |s| - n - k
    ensures Find(s, p, n + k) == Shift(n, Find(s[n..], p, k))
  {
    if k + |p| <= |s| - n {
      OccursShift(s, n, p, k);
      if !OccursAt(s[n..], p, k) {
        FindShift(s, n, p, k + 1);
      }
    }
  }

  lemma OccursShift(s: string, n: nat, p: string, k: nat)
    requires n <= |s|
    ensures OccursAt(s, p, n + k) <==> OccursAt(s[n..], p, k)
  {
    if n + k + |p| <= |s| {
      assert s[n + k..n + k + |p|] == s[n..][k..k + |p|];
    }
  }

  /** std::string::rfind(p) looking no further right than k. */
  function RFindUpTo(s: string, p: string, k: nat): (r: Option<nat>)
    ensures r.Some? ==> r.value <= k && OccursAt(s, p, r.value)
    ensures r.Some? ==> forall j: nat :: r.value < j <= k ==> !OccursAt(s, p, j)
    ensures r.None? ==> forall j: nat :: j <= k ==> !OccursAt(s, p, j)
  {
    if OccursAt(s, p, k) then Some(k)
    else if k == 0 then None
    else RFindUpTo(s, p, k - 1)
  }

  /** std::string::rfind(p): the last occurrence. */
  function RFind(s: string, p: string): (r: Option<nat>)
    ensures r.Some? ==> OccursAt(s, p, r.value) && forall j: nat :: r.value < j ==> !OccursAt(s, p, j)
    ensures r.None? ==> forall j: nat :: !OccursAt(s, p, j)
  {
    RFindUpTo(s, p, |s|)
  }

  /** string.find(p) != npos. */
  function Contains(s: string, p: string): (r: bool)
    ensures r <==> Occurs(s, p)
  {
    var f := Find(s, p, 0);
    FindFirst(s, p, 0);
    assert f.Some? ==> OccursAt(s, p, f.value);
    f.Some?
  }

  /** An occurrence anywhere is found. */
  lemma ContainsInfix(a: string, p: string, b: string)
    ensures Contains(a + p + b, p)
  {
    assert (a + p + b)[|a|..|a| + |p|] == p;
    assert OccursAt(a + p + b, p, |a|);
  }

  // ---------------------------------------------------------------------
  // TrimRawStringLiteral
  // ---------------------------------------------------------------------

  const RawOpen: string := "R\"("
  const RawClose: string := ")\""

  ghost predicate FirstOccurrence(s: string, p: string, i: nat)
  {
    OccursAt(s, p, i) && forall j: nat :: j < i ==> !OccursAt(s, p, j)
  }

  ghost predicate LastOccurrence(s: string, p: string, i: nat)
  {
    OccursAt(s, p, i) && forall j: nat :: i < j ==> !OccursAt(s, p, j)
  }

  /** TrimRawStringLiteral: the text between the first `R"(` and the last
   *  `)"` when the second lies beyond the first; otherwise the content is
   *  kept whole. */
  function TrimRawStringLiteral(content: string): (r: string)
    ensures !Occurs(content, RawOpen) || !Occurs(content, RawClose) ==> r == content
    ensures forall a: nat, b: nat {:trigger FirstOccurrence(content, RawOpen, a), LastOccurrence(content, RawClose, b)} ::
              FirstOccurrence(content, RawOpen, a) && LastOccurrence(content, RawClose, b) ==>
              r == if b > a + |RawOpen| then content[a + |RawOpen|..b] else content
  {
    var start := Find(content, RawOpen, 0);
    FindFirst(content, RawOpen, 0);
    var end := RFind(content, RawClose);
    if start.Some? && end.Some? && end.value > start.value + |RawOpen| then
      assert OccursAt(content, RawClose, end.value);
      content[start.value + |RawOpen|..end.value]
    else content
  }

  /** A literal is unwrapped, text without one is kept, and an empty
   *  literal is kept whole because its end is not beyond its start. */
  lemma RawLiteralExamples()
    ensures TrimRawStringLiteral("R\"(void main)\"") == "void main"
    ensures TrimRawStringLiteral("#type vertex") == "#type vertex"
    ensures TrimRawStringLiteral("R\"()\"") == "R\"()\""
  {
    var s := "R\"(void main)\"";
    assert OccursAt(s, RawOpen, 0);
    assert FirstOccurrence(s, RawOpen, 0);
    assert s[12..14] == RawClose;
    assert LastOccurrence(s, RawClose, 12);
    assert s[3..12] == "void main";
    var t := "#type vertex";
    assert forall k :: 0 <= k < |t| ==> t[k] != 'R';
    forall j: nat
      ensures !OccursAt(t, RawOpen, j)
    {
      if j + 3 <= |t| {
        assert t[j..j + 3][0] == t[j];
      }
    }
    var u := "R\"()\"";
    assert FirstOccurrence(u, RawOpen, 0);
    assert u[3..5] == RawClose;
    assert LastOccurrence(u, RawClose, 3);
  }

  // ---------------------------------------------------------------------
  // Decimal numbers (std::format("{}", n) and std::to_string)
  // ---------------------------------------------------------------------

  function DigitChar(d: nat): (c: char)
    requires d < 10
    ensures IsDigit(c) && c as int - '0' as int == d
  {
    (d + '0' as int) as char
  }

  /** The decimal digits of n, without leading zeros. */
  function NatToString(n: nat): (r: string)
    ensures |r| >= 1 && forall i :: 0 <= i < |r| ==> IsDigit(r[i])
    ensures r[0] == '0' ==> n == 0
  {
    if n < 10 then [DigitChar(n)] else NatToString(n / 10) + [DigitChar(n % 10)]
  }

  /** The value of a string of decimal digits. */
  function DecimalValue(s: string): nat
    requires forall i :: 0 <= i < |s| ==> IsDigit(s[i])
  {
    if s == [] then 0
    else
      assert IsDigit(s[|s| - 1]);
      DecimalValue(s[..|s| - 1]) * 10 + (s[|s| - 1] as int - '0' as int)
  }

  /** Reading the digits back gives the number. */
  lemma {:induction false} DecimalRoundTrip(n: nat)
    ensures DecimalValue(NatToString(n)) == n
  {
    if n >= 10 {
      var r := NatToString(n);
      assert r[..|r| - 1] == NatToString(n / 10);
      DecimalRoundTrip(n / 10);
    }
  }

  lemma NatToStringInjective(m: nat, n: nat)
    requires NatToString(m) == NatToString(n)
    ensures m == n
  {
    DecimalRoundTrip(m);
    DecimalRoundTrip(n);
  }

  /** Two digit strings each followed by a non-digit are equal when the
   *  whole texts are. */
  lemma DigitPrefix(d: string, x: string, e: string, y: string)
    requires forall i :: 0 <= i < |d| ==> IsDigit(d[i])
    requires forall i :: 0 <= i < |e| ==> IsDigit(e[i])
    requires x != [] && !IsDigit(x[0]) && y != [] && !IsDigit(y[0])
    requires d + x == e + y
    ensures d == e && x == y
  {
    assert d == (d + x)[..|d|] && e == (e + y)[..|e|];
    assert x == (d + x)[|d|..] && y == (e + y)[|e|..];
  }

  // ---------------------------------------------------------------------
  // Runs of a character class
  // ---------------------------------------------------------------------

  /** The end of the longest run of characters of a class starting at i:
   *  what a greedy `\s*`, `\w*` or `\d*` consumes. */
  function RunEnd(s: string, i: nat, cls: CharClass): (r: nat)
    requires i <= |s|
    decreases |s| - i
    ensures i <= r <= |s|
    ensures r < |s| ==> !InClass(cls, s[r])
  {
    if i < |s| && InClass(cls, s[i]) then RunEnd(s, i + 1, cls) else i
  }

  /** Every character of the run is a member. */
  lemma {:induction false} RunEndMembers(s: string, i: nat, cls: CharClass)
    requires i <= |s|
    decreases |s| - i
    ensures forall k :: i <= k < RunEnd(s, i, cls) ==> InClass(cls, s[k])
  {
    if i < |s| && InClass(cls, s[i]) {
      RunEndMembers(s, i + 1, cls);
    }
  }

  /** The run end is the only index with members before it and a
   *  non-member (or the end) at it. */
  lemma {:induction false} RunEndIs(s: string, i: nat, cls: CharClass, r: nat)
    requires i <= r <= |s|
    requires forall k :: i <= k < r ==> InClass(cls, s[k])
    requires r < |s| ==> !InClass(cls, s[r])
    decreases r - i
    ensures RunEnd(s, i, cls) == r
  {
    if i < r {
      RunEndIs(s, i + 1, cls, r);
    }
  }

  /** A run that stops where it starts. */
  lemma EmptyRun(s: string, i: nat, cls: CharClass)
    requires i < |s| && !InClass(cls, s[i])
    ensures RunEnd(s, i, cls) == i
  {
  }

  // ---------------------------------------------------------------------
  // GetShaderType
  // ---------------------------------------------------------------------

  datatype ShaderKind = Vertex | Fragment

  function KindName(kind: ShaderKind): string
  {
    match kind
    case Vertex => "vertex"
    case Fragment => "fragment"
  }

  /** GetShaderType: only "fragment" and "vertex" name a shader type; any
   *  other name is the error of the unknown type. */
  function GetShaderType(name: string): (r: Result<ShaderKind, string>)
    ensures r.Ok? <==> name == "fragment" || name == "vertex"
    ensures r.Ok? ==> KindName(r.value) == name
    ensures r.Err? ==> r.error == name
  {
    if name == "fragment" then Ok(Fragment)
    else if name == "vertex" then Ok(Vertex)
    else Err(name)
  }

  /** Each kind's name is read back as that kind. */
  lemma ShaderTypeOfName(kind: ShaderKind)
    ensures GetShaderType(KindName(kind)) == Ok(kind)
  {
  }

  // ---------------------------------------------------------------------
  // The `#type\s+(\w+)` markers
  // ---------------------------------------------------------------------

  const TypeKeyword: string := "#type"

  /** One match of `#type\s+(\w+)`: where it starts, the captured name,
   *  where the name starts and where the match ends. */
  datatype TypeMarker = TypeMarker(pos: nat, name: string, nameStart: nat, end: nat)

  /** The shape of a match in a text of length n: `#type`, at least one
   *  space, then the captured name, which is at least one character. */
  predicate MarkerBounds(m: TypeMarker, n: nat)
  {
    m.pos + |TypeKeyword| < m.nameStart < m.end <= n && |m.name| == m.end - m.nameStart
  }

  /** The match of `#type\s+(\w+)` starting at i, if any. The greedy runs
   *  leave no choice: one or more spaces, then one or more word
   *  characters. */
  function MatchTypeAt(s: string, i: nat): (r: Option<TypeMarker>)
    requires i <= |s|
    ensures r.Some? ==> r.value.pos == i && MarkerBounds(r.value, |s|)
  {
    if !OccursAt(s, TypeKeyword, i) then None
    else
      var nameStart := RunEnd(s, i + |TypeKeyword|, RegexSpace);
      if nameStart == i + |TypeKeyword| then None
      else
        var end := RunEnd(s, nameStart, Word);
        if end == nameStart then None
        else Some(TypeMarker(i, s[nameStart..end], nameStart, end))
  }

  /** A match is `#type`, at least one space, and the longest run of at
   *  least one word character, which is the captured name. */
  lemma MatchTypeShape(s: string, i: nat)
    requires i <= |s| && MatchTypeAt(s, i).Some?
    ensures var m := MatchTypeAt(s, i).value;
            OccursAt(s, TypeKeyword, i) &&
            (forall k :: i + |TypeKeyword| <= k < m.nameStart ==> IsRegexSpace(s[k])) &&
            m.name == s[m.nameStart..m.end] &&
            (forall k :: m.nameStart <= k < m.end ==> IsWordChar(s[k])) &&
            (m.end == |s| || !IsWordChar(s[m.end]))
  {
    var m := MatchTypeAt(s, i).value;
    RunEndMembers(s, i + |TypeKeyword|, RegexSpace);
    RunEndMembers(s, m.nameStart, Word);
  }

  /** Matches in a text of length n, in order and without overlap. */
  predicate OrderedMarkers(ms: seq<TypeMarker>, n: nat)
  {
    (forall k :: 0 <= k < |ms| ==> MarkerBounds(ms[k], n)) &&
    (forall k :: 0 <= k < |ms| - 1 ==> ms[k].end <= ms[k + 1].pos)
  }

  /** A match that ends before an ordered list starts extends it. */
  lemma ConsOrdered(m: TypeMarker, rest: seq<TypeMarker>, n: nat)
    requires MarkerBounds(m, n) && OrderedMarkers(rest, n)
    requires rest == [] || m.end <= rest[0].pos
    ensures OrderedMarkers([m] + rest, n)
    ensures forall k :: 0 <= k < |[m] + rest| ==> ([m] + rest)[k] == if k == 0 then m else rest[k - 1]
  {
  }

  /** The matches std::sregex_iterator visits from `from` on: the leftmost
   *  match, then the leftmost one after its end, and so on. */
  function Markers(s: string, from: nat): (ms: seq<TypeMarker>)
    requires from <= |s|
    decreases |s| - from
    ensures OrderedMarkers(ms, |s|)
    ensures forall k :: 0 <= k < |ms| ==> from <= ms[k].pos
  {
    if from == |s| then []
    else match MatchTypeAt(s, from)
      case Some(m) =>
        var rest := Markers(s, m.end);
        ConsOrdered(m, rest, |s|);
        [m] + rest
      case None =>
        Markers(s, from + 1)
  }

  /** Every marker is a match at its own position. */
  lemma {:induction false} MarkersMatch(s: string, from: nat, k: nat)
    requires from <= |s| && k < |Markers(s, from)|
    decreases |s| - from
    ensures var m := Markers(s, from)[k]; MatchTypeAt(s, m.pos) == Some(m)
  {
    if from < |s| {
      match MatchTypeAt(s, from)
      case Some(m) =>
        if k > 0 {
          MarkersMatch(s, m.end, k - 1);
        }
      case None =>
        MarkersMatch(s, from + 1, k);
    }
  }

  /** No match is skipped before the first marker. */
  lemma {:induction false} NoMatchBeforeMarkers(s: string, from: nat, q: nat)
    requires from <= q <= |s|
    requires var ms := Markers(s, from); ms == [] || q < ms[0].pos
    decreases |s| - from
    ensures MatchTypeAt(s, q).None?
  {
    if from < |s| && q > from {
      match MatchTypeAt(s, from)
      case Some(m) =>
      case None =>
        NoMatchBeforeMarkers(s, from + 1, q);
    }
  }

  /** No match is skipped after a marker: none starts between its end and
   *  the next marker, or the end of the text after the last one. */
  lemma {:induction false} NoMatchAfterMarker(s: string, from: nat, k: nat, q: nat)
    requires from <= |s|
    requires var ms := Markers(s, from);
             k < |ms| && ms[k].end <= q <= |s| && (k + 1 == |ms| || q < ms[k + 1].pos)
    decreases |s| - from
    ensures MatchTypeAt(s, q).None?
  {
    var ms := Markers(s, from);
    assert from < |s|;
    match MatchTypeAt(s, from)
    case Some(m) =>
      var rest := Markers(s, m.end);
      MarkersAtMatch(s, from, m, k);
      if k == 0 {
        NoMatchBeforeMarkers(s, m.end, q);
      } else {
        NoMatchAfterMarker(s, m.end, k - 1, q);
      }
    case None =>
      MarkersAtMiss(s, from);
      NoMatchAfterMarker(s, from + 1, k, q);
  }

  /** A match at `from` is the first marker, and the markers after its end follow. */
  lemma MarkersAtMatch(s: string, from: nat, m: TypeMarker, k: nat)
    requires from < |s| && MatchTypeAt(s, from) == Some(m) && k < |Markers(s, from)|
    ensures var ms := Markers(s, from); var rest := Markers(s, m.end);
            |ms| == |rest| + 1 && ms[0] == m &&
            (k > 0 ==> rest[k - 1] == ms[k]) && (k + 1 < |ms| ==> rest[k] == ms[k + 1])
  {
    assert Markers(s, from) == [m] + Markers(s, m.end);
  }

  /** Without a match at `from`, the markers are those from the next position. */
  lemma MarkersAtMiss(s: string, from: nat)
    requires from < |s| && MatchTypeAt(s, from).None?
    ensures Markers(s, from) == Markers(s, from + 1)
  {
  }

  // ---------------------------------------------------------------------
  // ParseShaderSources
  // ---------------------------------------------------------------------

  /** A shader source of one type, with the file name it came from. */
  datatype TypedSource = TypedSource(kind: ShaderKind, code: string, name: string)

  /** ParseShaderSources' assertions and PTGN_ERROR, as results. */
  datatype ParseError = NoTypeDeclaration | UnknownShaderType(typeName: string) | DuplicateShaderType(kind: ShaderKind)

  /** Where a block's code ends: at the next marker, or the end of input. */
  function BlockEnd(input: string, ms: seq<TypeMarker>, i: nat): nat
    requires i < |ms|
  {
    if i + 1 < |ms| then ms[i + 1].pos else |input|
  }

  /** The code of a block starts where its marker's match ends. */
  function CodeStart(m: TypeMarker): nat
  {
    m.end
  }

  /** As written, the code starts `#type ` plus the name's length after the
   *  marker, which assumes exactly one space after `#type`. */
  function CodeStartAsWritten(m: TypeMarker): nat
  {
    m.pos + |"#type "| + |m.name|
  }

  /** The two code starts agree exactly when one character separates
   *  `#type` from the name. */
  lemma CodeStartsAgree(s: string, m: TypeMarker)
    requires MarkerBounds(m, |s|)
    ensures CodeStartAsWritten(m) == CodeStart(m) <==> m.nameStart == m.pos + |TypeKeyword| + 1
    ensures CodeStartAsWritten(m) <= CodeStart(m)
  {
  }

  /** Whether a source of the kind was already found. */
  predicate HasKind(sources: seq<TypedSource>, kind: ShaderKind)
  {
    exists k :: 0 <= k < |sources| && sources[k].kind == kind
  }

  /** Block i's code: from its code start to the next marker, trimmed. */
  function BlockCode(input: string, ms: seq<TypeMarker>, i: nat, asWritten: bool): string
    requires OrderedMarkers(ms, |input|) && i < |ms|
  {
    var start := if asWritten then CodeStartAsWritten(ms[i]) else CodeStart(ms[i]);
    TrimWhitespace(input[start..BlockEnd(input, ms, i)])
  }

  /** The code of every block, in marker order. */
  function BlockCodes(input: string, ms: seq<TypeMarker>, asWritten: bool): (codes: seq<string>)
    requires OrderedMarkers(ms, |input|)
    ensures |codes| == |ms|
    ensures forall k :: 0 <= k < |ms| ==> codes[k] == BlockCode(input, ms, k, asWritten)
  {
    seq(|ms|, k requires 0 <= k < |ms| => BlockCode(input, ms, k, asWritten))
  }

  /** The blocks from marker i on, with their codes, appended to `found`:
   *  each marker's type name must be known and not already found. */
  function SourcesFrom(ms: seq<TypeMarker>, codes: seq<string>, name: string, i: nat,
                       found: seq<TypedSource>): Result<seq<TypedSource>, ParseError>
    requires |codes| == |ms| && i <= |ms|
    decreases |ms| - i
  {
    if i == |ms| then Ok(found)
    else match GetShaderType(ms[i].name)
      case Err(_) => Err(UnknownShaderType(ms[i].name))
      case Ok(kind) =>
        if HasKind(found, kind) then Err(DuplicateShaderType(kind))
        else SourcesFrom(ms, codes, name, i + 1, found + [TypedSource(kind, codes[i], name)])
  }

  /** The header before the first marker and the typed blocks. */
  type Parsed = (string, seq<TypedSource>)

  /** The parse of an unwrapped input with its markers. */
  function ParseMarked(input: string, ms: seq<TypeMarker>, name: string, asWritten: bool): Result<Parsed, ParseError>
    requires OrderedMarkers(ms, |input|)
  {
    if ms == [] then Err(NoTypeDeclaration)
    else match SourcesFrom(ms, BlockCodes(input, ms, asWritten), name, 0, [])
      case Err(e) => Err(e)
      case Ok(sources) => Ok((TrimWhitespace(input[..ms[0].pos]), sources))
  }

  function ParseWith(source: string, name: string, asWritten: bool): Result<Parsed, ParseError>
  {
    var input := TrimRawStringLiteral(source);
    ParseMarked(input, Markers(input, 0), name, asWritten)
  }

  /** ParseShaderSources: the header is the trimmed text before the first
   *  `#type`, and each block's code runs from the end of its marker's
   *  match to the next marker. */
  function ParseShaderSourcesSpec(source: string, name: string): Result<Parsed, ParseError>
  {
    ParseWith(source, name, false)
  }

  /** ParseShaderSources as written: each block's code starts `#type `
   *  plus the type name's length after its marker. */
  function ParseShaderSourcesAsWritten(source: string, name: string): Result<Parsed, ParseError>
  {
    ParseWith(source, name, true)
  }

  /** contains_type: a linear search of the sources found so far. */
  method ContainsType(sources: seq<TypedSource>, kind: ShaderKind) returns (found: bool)
    ensures found == HasKind(sources, kind)
  {
    var j := 0;
    while j < |sources|
      invariant j <= |sources|
      invariant forall k :: 0 <= k < j ==> sources[k].kind != kind
    {
      if sources[j].kind == kind {
        return true;
      }
      j := j + 1;
    }
    return false;
  }

  /** The two loops of ParseShaderSources: the matches are collected, then
   *  each block is typed, cut out, trimmed and checked against the kinds
   *  already found. Each block's code starts at the end of its marker's
   *  match, the corrected start; ParseShaderSourcesAsWritten has the
   *  source's `#type ` plus name length. */
  method ParseShaderSources(source: string, name: string) returns (r: Result<Parsed, ParseError>)
    ensures r == ParseShaderSourcesSpec(source, name)
  {
    var input := TrimRawStringLiteral(source);
    var ms := Markers(input, 0);
    if ms == [] {
      return Err(NoTypeDeclaration);
    }
    var header := TrimWhitespace(input[..ms[0].pos]);
    ghost var codes := BlockCodes(input, ms, false);
    var sources: seq<TypedSource> := [];
    var i := 0;
    while i < |ms|
      invariant i <= |ms|
      invariant SourcesFrom(ms, codes, name, i, sources) == SourcesFrom(ms, codes, name, 0, [])
    {
      var kind := GetShaderType(ms[i].name);
      if kind.Err? {
        return Err(UnknownShaderType(ms[i].name));
      }
      var code := BlockCode(input, ms, i, false);
      var duplicate := ContainsType(sources, kind.value);
      if duplicate {
        return Err(DuplicateShaderType(kind.value));
      }
      sources := sources + [TypedSource(kind.value, code, name)];
      i := i + 1;
    }
    return Ok((header, sources));
  }

  /** A parse without a `#type` marker is the missing-declaration error,
   *  and only such a parse is. */
  lemma NoTypeDeclarationIff(source: string, name: string)
    ensures ParseShaderSourcesSpec(source, name) == Err(NoTypeDeclaration) <==>
            Markers(TrimRawStringLiteral(source), 0) == []
  {
    var input := TrimRawStringLiteral(source);
    var ms := Markers(input, 0);
    if ms != [] {
      SourcesFromNeverMissing(ms, BlockCodes(input, ms, false), name, 0, []);
    }
  }

  /** The block loop fails only with an unknown or a duplicate type. */
  lemma {:induction false} SourcesFromNeverMissing(ms: seq<TypeMarker>, codes: seq<string>, name: string, i: nat,
                                                   found: seq<TypedSource>)
    requires |codes| == |ms| && i <= |ms|
    decreases |ms| - i
    ensures SourcesFrom(ms, codes, name, i, found) != Err(NoTypeDeclaration)
  {
    if i < |ms| {
      match GetShaderType(ms[i].name)
      case Err(_) =>
      case Ok(kind) =>
        if !HasKind(found, kind) {
          SourcesFromNeverMissing(ms, codes, name, i + 1, found + [TypedSource(kind, codes[i], name)]);
        }
    }
  }

  /** The names of the markers from i on are known shader types, none
   *  already found and no two alike. */
  ghost predicate AcceptableFrom(ms: seq<TypeMarker>, i: nat, found: seq<TypedSource>)
  {
    (forall k :: i <= k < |ms| ==> GetShaderType(ms[k].name).Ok?) &&
    (forall k, j :: i <= k < |ms| && 0 <= j < |found| ==> KindName(found[j].kind) != ms[k].name) &&
    (forall a, b :: i <= a < b < |ms| ==> ms[a].name != ms[b].name)
  }

  /** The block loop succeeds exactly when the names are acceptable. */
  lemma {:induction false} SourcesFromOkIff(ms: seq<TypeMarker>, codes: seq<string>, name: string, i: nat,
                                            found: seq<TypedSource>)
    requires |codes| == |ms| && i <= |ms|
    decreases |ms| - i
    ensures SourcesFrom(ms, codes, name, i, found).Ok? <==> AcceptableFrom(ms, i, found)
  {
    if i < |ms| {
      match GetShaderType(ms[i].name)
      case Err(_) =>
      case Ok(kind) =>
        if HasKind(found, kind) {
          var j :| 0 <= j < |found| && found[j].kind == kind;
          assert KindName(found[j].kind) == ms[i].name;
        } else {
          var t := TypedSource(kind, codes[i], name);
          SourcesFromOkIff(ms, codes, name, i + 1, found + [t]);
          assert forall j :: 0 <= j < |found| ==> (found + [t])[j] == found[j];
          assert (found + [t])[|found|] == t;
          if AcceptableFrom(ms, i, found) {
            assert AcceptableFrom(ms, i + 1, found + [t]);
          }
          if AcceptableFrom(ms, i + 1, found + [t]) {
            forall j | 0 <= j < |found|
              ensures KindName(found[j].kind) != ms[i].name
            {
              if KindName(found[j].kind) == ms[i].name {
                ShaderTypeOfName(found[j].kind);
              }
            }
            assert AcceptableFrom(ms, i, found);
          }
        }
    }
  }

  /** A successful block loop returns the sources found before, then one
   *  source per marker from i on. */
  lemma {:induction false} SourcesFromLength(ms: seq<TypeMarker>, codes: seq<string>, name: string, i: nat,
                                             found: seq<TypedSource>)
    requires |codes| == |ms| && i <= |ms|
    requires SourcesFrom(ms, codes, name, i, found).Ok?
    decreases |ms| - i
    ensures var r := SourcesFrom(ms, codes, name, i, found).value;
            |r| == |found| + |ms| - i && r[..|found|] == found
  {
    if i < |ms| {
      var t := TypedSource(GetShaderType(ms[i].name).value, codes[i], name);
      SourcesFromLength(ms, codes, name, i + 1, found + [t]);
      var r := SourcesFrom(ms, codes, name, i + 1, found + [t]).value;
      assert r[..|found|] == r[..|found| + 1][..|found|];
    }
  }

  /** The source of marker k has its marker's type, its block's code and
   *  the file name. */
  lemma {:induction false} SourcesFromEntry(ms: seq<TypeMarker>, codes: seq<string>, name: string, i: nat,
                                            found: seq<TypedSource>, k: nat)
    requires |codes| == |ms| && i <= k < |ms|
    requires SourcesFrom(ms, codes, name, i, found).Ok?
    decreases |ms| - i
    ensures var r := SourcesFrom(ms, codes, name, i, found).value;
            |found| + k - i < |r| &&
            KindName(r[|found| + k - i].kind) == ms[k].name &&
            r[|found| + k - i].code == codes[k] &&
            r[|found| + k - i].name == name
  {
    var t := TypedSource(GetShaderType(ms[i].name).value, codes[i], name);
    SourcesFromLength(ms, codes, name, i + 1, found + [t]);
    if k == i {
      var r := SourcesFrom(ms, codes, name, i + 1, found + [t]).value;
      assert r[|found|] == r[..|found| + 1][|found|];
    } else {
      SourcesFromEntry(ms, codes, name, i + 1, found + [t], k);
    }
  }

  /** ParseShaderSources succeeds exactly when there is a marker and the
   *  markers name distinct known types. */
  lemma ParseOkIff(source: string, name: string)
    ensures var ms := Markers(TrimRawStringLiteral(source), 0);
            ParseShaderSourcesSpec(source, name).Ok? <==> ms != [] && AcceptableFrom(ms, 0, [])
  {
    var input := TrimRawStringLiteral(source);
    var ms := Markers(input, 0);
    if ms != [] {
      SourcesFromOkIff(ms, BlockCodes(input, ms, false), name, 0, []);
    }
  }

  /** A successful parse returns the trimmed header and one source per
   *  marker, with the marker's type, the file name and the code between
   *  the marker's match and the next marker, trimmed. */
  lemma ParseOkSources(source: string, name: string)
    requires ParseShaderSourcesSpec(source, name).Ok?
    ensures var input := TrimRawStringLiteral(source);
            var ms := Markers(input, 0);
            var r := ParseShaderSourcesSpec(source, name).value;
            ms != [] &&
            r.0 == TrimWhitespace(input[..ms[0].pos]) &&
            |r.1| == |ms| &&
            (forall k :: 0 <= k < |ms| ==>
              KindName(r.1[k].kind) == ms[k].name &&
              r.1[k].code == TrimWhitespace(input[ms[k].end..BlockEnd(input, ms, k)]) &&
              r.1[k].name == name)
  {
    var input := TrimRawStringLiteral(source);
    var ms := Markers(input, 0);
    assert ParseShaderSourcesSpec(source, name) == ParseMarked(input, ms, name, false);
    ParseMarkedOk(input, ms, name);
  }

  /** ParseOkSources over the unwrapped input and its markers. */
  lemma ParseMarkedOk(input: string, ms: seq<TypeMarker>, name: string)
    requires OrderedMarkers(ms, |input|) && ParseMarked(input, ms, name, false).Ok?
    ensures var r := ParseMarked(input, ms, name, false).value;
            ms != [] &&
            r.0 == TrimWhitespace(input[..ms[0].pos]) &&
            |r.1| == |ms| &&
            (forall k :: 0 <= k < |ms| ==>
              KindName(r.1[k].kind) == ms[k].name &&
              r.1[k].code == TrimWhitespace(input[ms[k].end..BlockEnd(input, ms, k)]) &&
              r.1[k].name == name)
  {
    var codes := BlockCodes(input, ms, false);
    var r := SourcesFrom(ms, codes, name, 0, []).value;
    SourcesFromLength(ms, codes, name, 0, []);
    forall k | 0 <= k < |ms|
      ensures KindName(r[k].kind) == ms[k].name && r[k].code == codes[k] && r[k].name == name
    {
      SourcesFromEntry(ms, codes, name, 0, [], k);
    }
  }

  /** A successful parse has at most one source of each type. */
  lemma ParseOkDistinct(source: string, name: string)
    requires ParseShaderSourcesSpec(source, name).Ok?
    ensures var r := ParseShaderSourcesSpec(source, name).value.1;
            forall a, b :: 0 <= a < b < |r| ==> r[a].kind != r[b].kind
  {
    ParseOkIff(source, name);
    ParseOkSources(source, name);
  }

  /** A block whose `#type` is followed by two spaces. */
  const TwoSpaces: string := "#type  vertex\nA"

  const TwoSpacesMarker: TypeMarker := TypeMarker(0, "vertex", 7, 13)

  lemma TwoSpacesMarkers()
    ensures TrimRawStringLiteral(TwoSpaces) == TwoSpaces
    ensures Markers(TwoSpaces, 0) == [TwoSpacesMarker]
  {
    var s := TwoSpaces;
    assert s[5] == ' ' && s[6] == ' ' && s[7] == 'v' && s[8] == 'e' && s[9] == 'r' && s[10] == 't';
    assert s[11] == 'e' && s[12] == 'x' && s[13] == '\n' && s[14] == 'A' && |s| == 15;
    forall j: nat
      ensures !OccursAt(s, RawOpen, j)
    {
      if j + 3 <= |s| {
        assert s[j..j + 3][0] == s[j];
      }
    }
    assert s[0..5] == TypeKeyword;
    RunEndIs(s, 5, RegexSpace, 7);
    RunEndIs(s, 7, Word, 13);
    assert s[7..13] == "vertex";
    assert MatchTypeAt(s, 0) == Some(TwoSpacesMarker);
    assert Markers(s, 14) == [];
    assert Markers(s, 13) == [];
  }

  lemma TwoSpacesCodes()
    ensures OrderedMarkers([TwoSpacesMarker], |TwoSpaces|)
    ensures BlockCode(TwoSpaces, [TwoSpacesMarker], 0, true) == "x\nA"
    ensures BlockCode(TwoSpaces, [TwoSpacesMarker], 0, false) == "A"
  {
    TwoSpacesTail();
    SingleBlockCode(TwoSpaces, TwoSpacesMarker, 12, true);
    SingleBlockCode(TwoSpaces, TwoSpacesMarker, 13, false);
    TrimmedTails();
  }

  lemma TrimmedTails()
    ensures TrimWhitespace("" + "x\nA") == "x\nA" && TrimWhitespace("\n" + "A") == "A"
  {
    TrimmedWord("x\nA");
    TrimmedNewlineWord("A");
  }

  lemma TrimmedWord(t: string)
    requires t != [] && !IsBlank(t[0]) && !IsBlank(t[|t| - 1])
    ensures TrimWhitespace("" + t) == t
  {
    TrimOf("" + t, "", t);
  }

  lemma TrimmedNewlineWord(t: string)
    requires t != [] && !IsBlank(t[0]) && !IsBlank(t[|t| - 1])
    ensures TrimWhitespace("\n" + t) == t
  {
    TrimOf("\n" + t, "\n", t);
  }

  lemma TwoSpacesTail()
    ensures |TwoSpaces| == 15 && TwoSpaces[12..] == "" + "x\nA" && TwoSpaces[13..] == "\n" + "A"
  {
    var s := TwoSpaces;
    assert s[12] == 'x' && s[13] == '\n' && s[14] == 'A';
  }

  /** With a single marker, the block runs from its code start to the end. */
  lemma SingleBlockCode(input: string, m: TypeMarker, start: nat, asWritten: bool)
    requires MarkerBounds(m, |input|)
    requires start == (if asWritten then CodeStartAsWritten(m) else CodeStart(m)) && start <= |input|
    ensures OrderedMarkers([m], |input|)
    ensures BlockCode(input, [m], 0, asWritten) == TrimWhitespace(input[start..])
  {
    assert OrderedMarkers([m], |input|);
    assert BlockEnd(input, [m], 0) == |input|;
    assert input[start..|input|] == input[start..];
  }

  /** The trimmed text of a string written as blanks then a word. */
  lemma TrimOf(s: string, front: string, text: string)
    requires s == front + text && AllBlank(front)
    requires text != [] && !IsBlank(text[0]) && !IsBlank(text[|text| - 1])
    ensures TrimWhitespace(s) == text
  {
    TrimStripsPadding(front, text, "");
    assert front + text + "" == s;
  }

  /** The parse of a text with a single marker. */
  lemma ParseOneBlock(input: string, name: string, asWritten: bool, m: TypeMarker, kind: ShaderKind, code: string)
    requires OrderedMarkers([m], |input|)
    requires GetShaderType(m.name) == Ok(kind) && BlockCode(input, [m], 0, asWritten) == code
    ensures ParseMarked(input, [m], name, asWritten) == Ok((TrimWhitespace(input[..m.pos]), [TypedSource(kind, code, name)]))
  {
    var codes := BlockCodes(input, [m], asWritten);
    var t := TypedSource(kind, codes[0], name);
    assert [m][0] == m && !HasKind([], kind) && [] + [t] == [t];
    assert SourcesFrom([m], codes, name, 0, []) == SourcesFrom([m], codes, name, 1, [t]);
  }

  /** Two spaces after `#type`: as written, the block's code starts one
   *  character early, inside the type name, so the code of
   *  "#type  vertex\nA" is "x\nA" instead of "A". */
  lemma TwoSpacesAsWritten()
    ensures ParseShaderSourcesAsWritten(TwoSpaces, "s") == Ok(("", [TypedSource(Vertex, "x\nA", "s")]))
    ensures ParseShaderSourcesSpec(TwoSpaces, "s") == Ok(("", [TypedSource(Vertex, "A", "s")]))
  {
    TwoSpacesMarkers();
    TwoSpacesCodes();
    assert ParseShaderSourcesAsWritten(TwoSpaces, "s") == ParseMarked(TwoSpaces, [TwoSpacesMarker], "s", true);
    assert ParseShaderSourcesSpec(TwoSpaces, "s") == ParseMarked(TwoSpaces, [TwoSpacesMarker], "s", false);
    ParseOneBlock(TwoSpaces, "s", true, TwoSpacesMarker, Vertex, "x\nA");
    ParseOneBlock(TwoSpaces, "s", false, TwoSpacesMarker, Vertex, "A");
    assert TwoSpaces[..0] == "";
  }
}
