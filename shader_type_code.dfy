/**
 * The 64-bit shader data-type code of the shader unit test: a size in bits
 * 48..63, a component count in bits 32..47 and a GL type in bits 0..31,
 * packed with shifts and ors and unpacked with shifts and masks.
 *
 * The std::uint16_t and std::uint32_t inputs are 64-bit patterns bounded
 * by their width, so the static_cast to std::uint64_t is the identity.
 */
module ShaderTypeCode {

  type U16 = x: bv64 | x < 0x1_0000
  type U32 = x: bv64 | x < 0x1_0000_0000

  // The GL type identifiers the test compares the engine's constants with.
  const GlByte: U32 := 0x1400
  const GlUnsignedByte: U32 := 0x1401
  const GlShort: U32 := 0x1402
  const GlUnsignedShort: U32 := 0x1403
  const GlInt: U32 := 0x1404
  const GlUnsignedInt: U32 := 0x1405
  const GlFloat: U32 := 0x1406
  const GlDouble: U32 := 0x140A

  datatype Fields = Fields(size: U16, count: U16, glType: U32)

  /** `size << 48 | (count << 32 | type)`. */
  function Encode(f: Fields): bv64
  {
    (f.size << 48) | ((f.count << 32) | f.glType)
  }

  /** The three masks of EncodeAndExtract. */
  function Extract(code: bv64): (f: Fields)
  {
    Fields((code >> 48) & 0xFFFF, (code >> 32) & 0xFFFF, code & 0xFFFF_FFFF)
  }

  /** Unpacking a packed code gives back the three inputs. */
  lemma ExtractEncode(f: Fields)
    ensures Extract(Encode(f)) == f
  {
    SizeField(f.size, f.count, f.glType);
    CountField(f.size, f.count, f.glType);
    TypeField(f.size, f.count, f.glType);
  }

  lemma SizeField(size: U16, count: U16, glType: U32)
    ensures (((size << 48) | ((count << 32) | glType)) >> 48) & 0xFFFF == size
  {
  }

  lemma CountField(size: U16, count: U16, glType: U32)
    ensures (((size << 48) | ((count << 32) | glType)) >> 32) & 0xFFFF == count
  {
  }

  lemma TypeField(size: U16, count: U16, glType: U32)
    ensures ((size << 48) | ((count << 32) | glType)) & 0xFFFF_FFFF == glType
  {
  }

  /** Every 64-bit code is the packing of its three fields, so packing is
   *  a bijection between field triples and codes. */
  lemma EncodeExtract(code: bv64)
    ensures Encode(Extract(code)) == code
  {
    Repack(code);
  }

  lemma Repack(code: bv64)
    ensures (((code >> 48) & 0xFFFF) << 48) | ((((code >> 32) & 0xFFFF) << 32) | (code & 0xFFFF_FFFF)) == code
  {
  }

  lemma EncodeInjective(f: Fields, g: Fields)
    ensures Encode(f) == Encode(g) <==> f == g
  {
    ExtractEncode(f);
    ExtractEncode(g);
  }

  /** EncodeAndExtract: the code joins `codes`, and the three asserted
   *  round trips hold. */
  function EncodeAndExtract(f: Fields, codes: set<bv64>): (r: set<bv64>)
    ensures Extract(Encode(f)) == f
    ensures Encode(f) in r && codes <= r && |r - codes| <= 1
  {
    ExtractEncode(f);
    codes + {Encode(f)}
  }

  // ---------------------------------------------------------------------
  // TestShader: eight GL types, each with its byte size, and counts 1..4.

  const Sizes: seq<U16> := [1, 1, 2, 2, 4, 4, 4, 8]
  const Types: seq<U32> :=
    [GlByte, GlUnsignedByte, GlShort, GlUnsignedShort, GlInt, GlUnsignedInt, GlFloat, GlDouble]
  const Counts: seq<U16> := [1, 2, 3, 4]

  /** The k-th EncodeAndExtract call of TestShader. */
  function Combination(k: nat): Fields
    requires k < 32
  {
    Fields(Sizes[k / 4], Counts[k % 4], Types[k / 4])
  }

  /** The first n calls, in order. */
  function Calls(n: nat): (r: seq<Fields>)
    requires n <= 32
    ensures |r| == n
  {
    if n == 0 then [] else Calls(n - 1) + [Combination(n - 1)]
  }

  lemma {:induction false} CallAt(n: nat, k: nat)
    requires k < n <= 32
    ensures Calls(n)[k] == Combination(k)
  {
    if k < n - 1 {
      CallAt(n - 1, k);
    }
  }

  /** The set after EncodeAndExtract on each of the fields in turn. */
  function CodesOf(fs: seq<Fields>): set<bv64>
  {
    if |fs| == 0 then {} else EncodeAndExtract(fs[|fs| - 1], CodesOf(fs[..|fs| - 1]))
  }

  /** The set after the first n calls. */
  function TestCodes(n: nat): set<bv64>
    requires n <= 32
  {
    CodesOf(Calls(n))
  }

  lemma TypesDistinct(i: nat, j: nat)
    requires i < 8 && j < 8 && i != j
    ensures Types[i] != Types[j]
  {
  }

  lemma CombinationsDistinct(k: nat, m: nat)
    requires k < 32 && m < 32 && k != m
    ensures Combination(k) != Combination(m)
  {
    if k / 4 != m / 4 {
      TypesDistinct(k / 4, m / 4);
    } else {
      assert k % 4 != m % 4;
    }
  }

  /** A code whose fields differ from each of the list's is not in the
   *  list's set. */
  lemma {:induction false} CodeNotIn(fs: seq<Fields>, f: Fields)
    requires forall i :: 0 <= i < |fs| ==> fs[i] != f
    ensures Encode(f) !in CodesOf(fs)
  {
    if |fs| > 0 {
      var init := fs[..|fs| - 1];
      CodeNotIn(init, f);
      EncodeInjective(fs[|fs| - 1], f);
    }
  }

  /** Pairwise different fields give as many codes as calls. */
  lemma {:induction false} CodesOfCount(fs: seq<Fields>)
    requires forall i, j :: 0 <= i < j < |fs| ==> fs[i] != fs[j]
    ensures |CodesOf(fs)| == |fs|
  {
    if |fs| > 0 {
      var init := fs[..|fs| - 1];
      CodesOfCount(init);
      CodeNotIn(init, fs[|fs| - 1]);
      assert CodesOf(fs) == CodesOf(init) + {Encode(fs[|fs| - 1])};
    }
  }

  /** Each of the first n calls contributes its own code. */
  lemma TestCodesCount(n: nat)
    requires n <= 32
    ensures |TestCodes(n)| == n
  {
    var fs := Calls(n);
    forall i, j | 0 <= i < j < |fs| ensures fs[i] != fs[j] {
      CallAt(n, i);
      CallAt(n, j);
      CombinationsDistinct(i, j);
    }
    CodesOfCount(fs);
  }

  /** The final assert of the packing test: 32 distinct codes. */
  lemma TestShaderCodesUnique()
    ensures |TestCodes(32)| == 32
  {
    TestCodesCount(32);
  }
}
