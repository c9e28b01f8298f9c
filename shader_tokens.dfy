/**
 * The token substitution run over shader sources before they are
 * compiled: the texture switch block generated for a number of texture
 * slots, ReplaceAll, and SubstituteShaderTokens, which puts the slot
 * count and the switch block in place of their tokens.
 */
module ShaderTokens {
  import opened Wrappers
  import opened ShaderText

  // ---------------------------------------------------------------------
  // GenerateTextureSwitchBlock
  // ---------------------------------------------------------------------

  /** The block that samples texture slot i. */
  function SlotBlock(i: nat): string
  {
    "    if (v_TexIndex == " + (NatToString(i) + SlotTail(i))
  }

  /** What follows the first slot number in its block. */
  function SlotTail(i: nat): string
  {
    ".0f) {" + ("\n        texColor *= texture(u_Texture[" + NatToString(i) + "], v_TexCoord);\n    }\n")
  }

  /** f(0) + f(1) + ... + f(n - 1). */
  function Concat(f: nat -> string, n: nat): string
  {
    if n == 0 then "" else Concat(f, n - 1) + f(n - 1)
  }

  /** The blocks of slots 0 to n - 1, in order. */
  function SwitchBlock(n: nat): string
  {
    Concat(SlotBlock, n)
  }

  /** GenerateTextureSwitchBlock: one block per slot, written in a loop. */
  method GenerateTextureSwitchBlock(maxTextureSlots: nat) returns (r: string)
    ensures r == SwitchBlock(maxTextureSlots)
  {
    r := "";
    for i := 0 to maxTextureSlots
      invariant r == Concat(SlotBlock, i)
    {
      r := r + SlotBlock(i);
    }
  }

  /** The first m pieces are a prefix of the first n. */
  lemma {:induction false} ConcatPrefix(f: nat -> string, m: nat, n: nat)
    requires m <= n
    decreases n - m
    ensures |Concat(f, m)| <= |Concat(f, n)| && Concat(f, n)[..|Concat(f, m)|] == Concat(f, m)
  {
    if m < n {
      ConcatPrefix(f, m + 1, n);
      PrefixOfPrefix(Concat(f, n), Concat(f, m), f(m));
    }
  }

  /** A prefix of a prefix. */
  lemma PrefixOfPrefix(big: string, pre: string, piece: string)
    requires |pre + piece| <= |big| && big[..|pre + piece|] == pre + piece
    ensures big[..|pre|] == pre
  {
    assert big[..|pre|] == big[..|pre + piece|][..|pre|];
  }

  /** Piece i sits right after pieces 0 to i - 1. */
  lemma ConcatPiece(f: nat -> string, i: nat, n: nat)
    requires i < n
    ensures var start := |Concat(f, i)|;
            start + |f(i)| <= |Concat(f, n)| && Concat(f, n)[start..start + |f(i)|] == f(i)
  {
    ConcatPrefix(f, i + 1, n);
    PrefixSlice(Concat(f, n), Concat(f, i), f(i));
  }

  /** A block that ends a prefix is a slice of the whole. */
  lemma PrefixSlice(big: string, pre: string, block: string)
    requires |pre + block| <= |big| && big[..|pre + block|] == pre + block
    ensures big[|pre|..|pre| + |block|] == block
  {
    assert big[|pre|..|pre| + |block|] == big[..|pre + block|][|pre|..];
  }

  /** The blocks for fewer slots are a prefix of the blocks for more. */
  lemma SwitchBlockPrefix(m: nat, n: nat)
    requires m <= n
    ensures |SwitchBlock(m)| <= |SwitchBlock(n)| && SwitchBlock(n)[..|SwitchBlock(m)|] == SwitchBlock(m)
  {
    ConcatPrefix(SlotBlock, m, n);
  }

  /** Slot i's block sits right after the blocks of slots 0 to i - 1. */
  lemma SwitchBlockSlot(i: nat, n: nat)
    requires i < n
    ensures var start := |SwitchBlock(i)|;
            start + |SlotBlock(i)| <= |SwitchBlock(n)| &&
            SwitchBlock(n)[start..start + |SlotBlock(i)|] == SlotBlock(i)
  {
    ConcatPiece(SlotBlock, i, n);
  }

  /** Different slots get different blocks. */
  lemma SlotBlockInjective(i: nat, j: nat)
    requires SlotBlock(i) == SlotBlock(j)
    ensures i == j
  {
    CancelPrefix("    if (v_TexIndex == ", NatToString(i) + SlotTail(i), NatToString(j) + SlotTail(j));
    SlotTailStart(i);
    SlotTailStart(j);
    DigitPrefix(NatToString(i), SlotTail(i), NatToString(j), SlotTail(j));
    NatToStringInjective(i, j);
  }

  lemma CancelPrefix(h: string, x: string, y: string)
    requires h + x == h + y
    ensures x == y
  {
    assert x == (h + x)[|h|..];
  }

  lemma SlotTailStart(i: nat)
    ensures SlotTail(i) != [] && SlotTail(i)[0] == '.'
  {
    assert ".0f) {"[0] == '.';
  }

  // ---------------------------------------------------------------------
  // ReplaceAll
  // ---------------------------------------------------------------------

  /** ReplaceAll's loop from scan position pos on: find `from` at or after
   *  pos, replace it by `to`, and go on after the replacement. */
  function ReplaceLoop(str: string, from: string, to: string, pos: nat): string
    requires |from| > 0 && pos <= |str|
    decreases |str| - pos
  {
    match Find(str, from, pos)
    case None => str
    case Some(i) => ReplaceLoop(str[..i] + to + str[i + |from|..], from, to, i + |to|)
  }

  /** ReplaceAll: an empty `from` leaves the string as it is. */
  function ReplaceAllSpec(s: string, from: string, to: string): string
  {
    if from == [] then s else ReplaceLoop(s, from, to, 0)
  }

  /** ReplaceAll, replacing in place. */
  method ReplaceAll(s: string, from: string, to: string) returns (r: string)
    ensures r == ReplaceAllSpec(s, from, to)
  {
    if from == [] {
      return s;
    }
    var str := s;
    var pos: nat := 0;
    var found := Find(str, from, pos);
    while found.Some?
      invariant pos <= |str| && found == Find(str, from, pos)
      invariant ReplaceLoop(str, from, to, pos) == ReplaceAllSpec(s, from, to)
      decreases |str| - pos
    {
      var i := found.value;
      ReplaceStep(str, from, to, pos, i);
      str := str[..i] + to + str[i + |from|..];
      pos := i + |to|;
      found := Find(str, from, pos);
    }
    r := str;
  }

  /** One replacement: the scan goes on right after the replacement text. */
  lemma ReplaceStep(str: string, from: string, to: string, pos: nat, i: nat)
    requires |from| > 0 && pos <= |str| && Find(str, from, pos) == Some(i)
    ensures i + |from| <= |str|
    ensures var next := str[..i] + to + str[i + |from|..];
            i + |to| <= |next| && |next| - (i + |to|) < |str| - pos &&
            ReplaceLoop(str, from, to, pos) == ReplaceLoop(next, from, to, i + |to|)
  {
  }

  /** Replacing `from` by itself changes nothing; a scan that did not go
   *  on past each replacement would never end here. */
  lemma {:induction false} ReplaceByItself(s: string, from: string, pos: nat)
    requires |from| > 0 && pos <= |s|
    decreases |s| - pos
    ensures ReplaceLoop(s, from, from, pos) == s
  {
    match Find(s, from, pos)
    case None =>
    case Some(i) =>
      SelfStep(s, from, pos, i);
      ReplaceByItself(s, from, i + |from|);
  }

  /** Replacing an occurrence by itself gives the same string back. */
  lemma SelfStep(s: string, from: string, pos: nat, i: nat)
    requires |from| > 0 && pos <= |s| && Find(s, from, pos) == Some(i)
    ensures i + |from| <= |s| && ReplaceLoop(s, from, from, pos) == ReplaceLoop(s, from, from, i + |from|)
  {
    ReplaceStep(s, from, from, pos, i);
    SpliceSame(s, from, i);
  }

  /** Putting an occurrence back in its place. */
  lemma SpliceSame(s: string, from: string, i: nat)
    requires OccursAt(s, from, i)
    ensures s[..i] + from + s[i + |from|..] == s
  {
    assert s == s[..i] + s[i..i + |from|] + s[i + |from|..];
  }

  /** An occurrence at the start is replaced, and the scan goes on after
   *  the replacement text, which is not searched again. */
  lemma ReplacementNotRescanned(from: string, to: string, s: string)
    requires |from| > 0
    ensures ReplaceAllSpec(from + s, from, to) == ReplaceLoop(to + s, from, to, |to|)
  {
    var str := from + s;
    assert OccursAt(str, from, 0);
    assert Find(str, from, 0) == Some(0);
    ReplaceStep(str, from, to, 0, 0);
    SpliceFront(from, to, s);
  }

  lemma SpliceFront(from: string, to: string, s: string)
    ensures (from + s)[..0] + to + (from + s)[|from|..] == to + s
  {
    assert (from + s)[|from|..] == s;
  }

  /** A string without `from` is left as it is. */
  lemma ReplaceAbsent(s: string, from: string, to: string)
    requires forall j: nat :: !OccursAt(s, from, j)
    ensures ReplaceAllSpec(s, from, to) == s
  {
    if from != [] {
      assert Find(s, from, 0).None?;
    }
  }

  /** No character of one string occurs in the other. */
  predicate Disjoint(a: string, b: string)
  {
    forall x, y :: 0 <= x < |a| && 0 <= y < |b| ==> a[x] != b[y]
  }

  /** No occurrence of p starts before position n. */
  predicate NoneBefore(s: string, p: string, n: nat)
  {
    forall j: nat :: j < n ==> !OccursAt(s, p, j)
  }

  /** When `to` is nonempty and shares no character with `from`, no
   *  occurrence of `from` is left. */
  lemma {:induction false} ReplaceLoopRemoves(str: string, from: string, to: string, pos: nat)
    requires |from| > 0 && |to| > 0 && Disjoint(from, to) && pos <= |str| && NoneBefore(str, from, pos)
    decreases |str| - pos
    ensures forall j: nat :: !OccursAt(ReplaceLoop(str, from, to, pos), from, j)
  {
    FindFirst(str, from, pos);
    match Find(str, from, pos)
    case None =>
    case Some(i) =>
      ReplaceStep(str, from, to, pos, i);
      var next := str[..i] + to + str[i + |from|..];
      forall j: nat | j < i + |to|
        ensures !OccursAt(next, from, j)
      {
        ReplacedNoneAt(str, from, to, pos, i, j);
      }
      ReplaceLoopRemoves(next, from, to, i + |to|);
  }

  /** The case split of ReplaceLoopRemoves for one position j before the
   *  new scan position: an occurrence would lie before the old scan
   *  position, between it and the occurrence found, or overlap the
   *  replacement. */
  lemma ReplacedNoneAt(str: string, from: string, to: string, pos: nat, i: nat, j: nat)
    requires |from| > 0 && |to| > 0 && Disjoint(from, to) && pos <= i && i + |from| <= |str|
    requires NoneBefore(str, from, i)
    requires j < i + |to|
    ensures !OccursAt(str[..i] + to + str[i + |from|..], from, j)
  {
    var r := str[..i] + to + str[i + |from|..];
    var n := |from|;
    if j + n <= i {
      assert r[j..j + n] == str[j..j + n];
      assert !OccursAt(str, from, j);
    } else if j + n <= |r| {
      var p := if j < i then i else j;
      assert r[p] == to[p - i];
      assert r[p] != from[p - j];
    }
  }

  // ---------------------------------------------------------------------
  // SubstituteShaderTokens
  // ---------------------------------------------------------------------

  const SlotsToken := "{MAX_TEXTURE_SLOTS}"
  const SwitchToken := "{TEXTURE_SWITCH_BLOCK}"

  /** A source's code with the slot count and the switch block in place
   *  of their tokens. */
  function Substituted(code: string, maxTextureSlots: nat): string
  {
    ReplaceAllSpec(ReplaceAllSpec(code, SlotsToken, NatToString(maxTextureSlots)), SwitchToken,
                   SwitchBlock(maxTextureSlots))
  }

  /** SubstituteShaderTokens: fails for zero slots, and otherwise replaces
   *  both tokens in every source, keeping its type and name. */
  method SubstituteShaderTokens(sources: array<TypedSource>, maxTextureSlots: nat) returns (ok: bool)
    modifies sources
    ensures ok <==> maxTextureSlots > 0
    ensures !ok ==> sources[..] == old(sources[..])
    ensures ok ==> forall k :: 0 <= k < sources.Length ==>
      sources[k] == old(sources[k]).(code := Substituted(old(sources[k]).code, maxTextureSlots))
  {
    if maxTextureSlots == 0 {
      return false;
    }
    var switchBlock := GenerateTextureSwitchBlock(maxTextureSlots);
    var slots := NatToString(maxTextureSlots);
    for k := 0 to sources.Length
      invariant forall j :: 0 <= j < k ==>
        sources[j] == old(sources[j]).(code := Substituted(old(sources[j]).code, maxTextureSlots))
      invariant forall j :: k <= j < sources.Length ==> sources[j] == old(sources[j])
    {
      var code := ReplaceAll(sources[k].code, SlotsToken, slots);
      code := ReplaceAll(code, SwitchToken, switchBlock);
      sources[k] := sources[k].(code := code);
    }
    return true;
  }

  /** After the first replacement no slot-count token is left, since the
   *  count is written in digits. */
  lemma SlotsTokenReplaced(code: string, maxTextureSlots: nat)
    ensures forall j: nat :: !OccursAt(ReplaceAllSpec(code, SlotsToken, NatToString(maxTextureSlots)), SlotsToken, j)
  {
    var digits := NatToString(maxTextureSlots);
    assert forall y :: 0 <= y < |SlotsToken| ==> !IsDigit(SlotsToken[y]);
    ReplaceLoopRemoves(code, SlotsToken, digits, 0);
  }
}
