/** A model of three native stubs for OCaml's foreign-function interface:
    counting a character in a string, repeating a string, and summing an
    int array. OCaml strings are byte arrays with an explicit length, OCaml
    ints are plain integers kept inside the 63-bit OCaml range, and the C
    accumulators are newtypes of the native width, so every arithmetic step
    of the loops is checked for overflow. */
module Stubs {

  /** C `int` (32 bits), the type of the counter in caml_count_char. */
  newtype CInt = x: int | -0x8000_0000 <= x < 0x8000_0000

  /** `intnat` (64 bits), the type of `times` and of the sum accumulator. */
  newtype Intnat = x: int | -0x8000_0000_0000_0000 <= x < 0x8000_0000_0000_0000

  /** `mlsize_t` (64 bits, unsigned), the type of lengths. */
  newtype Mlsize = x: int | 0 <= x < 0x1_0000_0000_0000_0000

  const INT_MAX: int := 0x7fff_ffff
  const MLSIZE_MAX: int := 0xffff_ffff_ffff_ffff
  const INTNAT_MIN: int := -0x8000_0000_0000_0000
  const INTNAT_MAX: int := 0x7fff_ffff_ffff_ffff
  /** OCaml ints are 63 bits wide: the range `Val_int` can encode. */
  const OCAML_INT_MIN: int := -0x4000_0000_0000_0000
  const OCAML_INT_MAX: int := 0x3fff_ffff_ffff_ffff

  predicate IsOCamlInt(x: int) { OCAML_INT_MIN <= x <= OCAML_INT_MAX }

  predicate IsIntnat(x: int) { INTNAT_MIN <= x <= INTNAT_MAX }

  // ---------------------------------------------------------------------
  // caml_count_char : string -> char -> int
  // ---------------------------------------------------------------------

  /** Number of bytes of `s` equal to `want`, accumulated from the front as
      the scan does. */
  function Occurrences(s: seq<bv8>, want: bv8): (r: nat)
    ensures r <= |s|
  {
    if s == [] then 0
    else Occurrences(s[..|s| - 1], want) + (if s[|s| - 1] == want then 1 else 0)
  }

  /** The positions of `s` that hold `want`. */
  ghost function MatchingIndices(s: seq<bv8>, want: bv8): set<int>
  {
    set i | 0 <= i < |s| && s[i] == want
  }

  /** The count is exactly the number of indices below the length whose
      byte equals `want`. */
  lemma {:induction false} OccurrencesCountsIndices(s: seq<bv8>, want: bv8)
    ensures Occurrences(s, want) == |MatchingIndices(s, want)|
  {
    if s == [] {
      assert MatchingIndices(s, want) == {};
    } else {
      var n := |s| - 1;
      var p := s[..n];
      OccurrencesCountsIndices(p, want);
      if s[n] == want {
        assert MatchingIndices(s, want) == MatchingIndices(p, want) + {n};
        assert n !in MatchingIndices(p, want);
      } else {
        assert MatchingIndices(s, want) == MatchingIndices(p, want);
      }
    }
  }

  /** Counting distributes over concatenation. */
  lemma {:induction false} OccurrencesAppend(a: seq<bv8>, b: seq<bv8>, want: bv8)
    ensures Occurrences(a + b, want) == Occurrences(a, want) + Occurrences(b, want)
    decreases |b|
  {
    if b == [] {
      assert a + b == a;
    } else {
      var n := |b| - 1;
      assert (a + b)[..|a + b| - 1] == a + b[..n];
      OccurrencesAppend(a, b[..n], want);
    }
  }

  /** The scan runs over the whole length: a zero byte is compared like any
      other byte and the bytes after it are still counted. */
  lemma CountsPastZeroByte(a: seq<bv8>, b: seq<bv8>, want: bv8)
    ensures Occurrences(a + [0] + b, want)
         == Occurrences(a, want) + (if want == 0 then 1 else 0) + Occurrences(b, want)
  {
    OccurrencesAppend(a + [0], b, want);
    OccurrencesAppend(a, [0], want);
    assert [0 as bv8][..0] == [];
  }

  /** caml_count_char: scan all `s.Length` bytes and count those equal to
      `want`. The 32-bit counter cannot overflow as long as no more than
      INT_MAX bytes match, however long the string is. */
  method CountChar(s: array<bv8>, want: bv8) returns (count: int)
    requires Occurrences(s[..], want) <= INT_MAX
    ensures count == Occurrences(s[..], want)
    ensures count == |MatchingIndices(s[..], want)|
    ensures 0 <= count <= s.Length
    ensures s.Length == 0 ==> count == 0
  {
    var cnt: CInt := 0;
    var i := 0;
    while i < s.Length
      invariant 0 <= i <= s.Length
      invariant cnt as int == Occurrences(s[..i], want)
    {
      OccurrencesAppend(s[..i + 1], s[i + 1..], want);
      assert s[..i + 1] + s[i + 1..] == s[..];
      assert s[..i + 1][..i] == s[..i];
      if s[i] == want {
        cnt := cnt + 1;
      }
      i := i + 1;
    }
    assert s[..i] == s[..];
    OccurrencesCountsIndices(s[..], want);
    count := cnt as int;
  }

  // ---------------------------------------------------------------------
  // caml_str_repeat : string -> int -> string
  // ---------------------------------------------------------------------

  /** `times` back-to-back copies of `s`; no copies when `times <= 0`. */
  function Repeat(s: seq<bv8>, times: int): (r: seq<bv8>)
    ensures |r| == if times <= 0 then 0 else |s| * times
    decreases times
  {
    if times <= 0 then [] else Repeat(s, times - 1) + s
  }

  /** The result is empty exactly when `times <= 0` or the source is empty. */
  lemma {:induction false} RepeatEmptyIff(s: seq<bv8>, times: int)
    ensures Repeat(s, times) == [] <==> times <= 0 || s == []
  {
    if times > 0 && s != [] {
      assert |s| * times >= |s| * 1 by { MulMonotone(|s|, 1, times); }
    }
  }

  /** Block `k` of the result, bytes `[k*|s|, (k+1)*|s|)`, is the source. */
  lemma {:induction false} RepeatBlock(s: seq<bv8>, times: int, k: int)
    requires 0 <= k < times
    ensures (k + 1) * |s| <= |Repeat(s, times)|
    ensures Repeat(s, times)[k * |s| .. (k + 1) * |s|] == s
    decreases times
  {
    var prev := Repeat(s, times - 1);
    assert Repeat(s, times) == prev + s;
    assert |prev| == (times - 1) * |s|;
    if k == times - 1 {
      assert (prev + s)[|prev|..] == s;
    } else {
      RepeatBlock(s, times - 1, k);
      MulMonotone(|s|, k + 1, times - 1);
      assert (prev + s)[k * |s| .. (k + 1) * |s|] == prev[k * |s| .. (k + 1) * |s|];
    }
  }

  /** Byte `i` of block `k` of the result is byte `i` of the source. */
  lemma {:induction false} RepeatAt(s: seq<bv8>, times: int, k: int, i: int)
    requires 0 <= k < times && 0 <= i < |s|
    ensures k * |s| + i < |Repeat(s, times)|
    ensures Repeat(s, times)[k * |s| + i] == s[i]
  {
    RepeatBlock(s, times, k);
    assert Repeat(s, times)[k * |s| .. (k + 1) * |s|][i] == s[i];
  }

  /** Bytes `[k*|s|, (k+1)*|s|)` of `r` exist and hold `s`. */
  ghost predicate HasBlock(r: seq<bv8>, s: seq<bv8>, k: int)
  {
    0 <= k && (k + 1) * |s| <= |r| && r[k * |s| .. (k + 1) * |s|] == s
  }

  /** The converse of RepeatBlock: a sequence of length `|s|*times` whose
      every block is `s` is the repetition. */
  lemma {:induction false} RepeatUnique(s: seq<bv8>, times: int, r: seq<bv8>)
    requires times >= 0
    requires |r| == |s| * times
    requires forall k :: 0 <= k < times ==> HasBlock(r, s, k)
    ensures r == Repeat(s, times)
    decreases times
  {
    if times > 0 {
      var m := (times - 1) * |s|;
      var p := r[..m];
      forall k | 0 <= k < times - 1
        ensures HasBlock(p, s, k)
      {
        MulMonotone(|s|, k + 1, times - 1);
        assert HasBlock(r, s, k);
        assert p[k * |s| .. (k + 1) * |s|] == r[k * |s| .. (k + 1) * |s|];
      }
      RepeatUnique(s, times - 1, p);
      assert HasBlock(r, s, times - 1);
      assert r == p + r[m..];
    }
  }

  lemma MulMonotone(n: nat, a: int, b: int)
    requires a <= b
    ensures n * a <= n * b
  {
  }

  /** memcpy(dst + at, src, src.Length): the block is overwritten with the
      source bytes and the rest of `dst` is left alone. */
  method CopyBlock(dst: array<bv8>, at: nat, src: array<bv8>)
    requires dst != src
    requires at + src.Length <= dst.Length
    modifies dst
    ensures dst[..at] == old(dst[..at])
    ensures dst[at .. at + src.Length] == src[..]
    ensures dst[at + src.Length ..] == old(dst[at + src.Length ..])
  {
    forall j | 0 <= j < src.Length {
      dst[at + j] := src[j];
    }
  }

  /** caml_str_repeat: an empty string when `times <= 0` or the source is
      empty; otherwise a freshly allocated buffer of `src.Length * times`
      bytes, filled one copy of the source at a time. The destination is
      obtained after the allocation and the source is only read. */
  method StrRepeat(src: array<bv8>, times: int) returns (result: array<bv8>)
    requires IsOCamlInt(times)
    requires times <= 0 || src.Length * times <= MLSIZE_MAX
    ensures fresh(result)
    ensures unchanged(src)
    ensures result[..] == Repeat(src[..], times)
  {
    var srcLen := src.Length;
    if times <= 0 || srcLen == 0 {
      result := new bv8[0];
      return;
    }
    MulMonotone(srcLen, 1, times);
    var dstLen: Mlsize := srcLen as Mlsize * times as Mlsize;
    result := new bv8[dstLen];
    var i := 0;
    while i < times
      invariant 0 <= i <= times
      invariant result.Length == srcLen * times
      invariant i * srcLen <= result.Length
      invariant result[..i * srcLen] == Repeat(src[..], i)
    {
      MulMonotone(srcLen, i + 1, times);
      assert (i + 1) * srcLen == i * srcLen + srcLen;
      CopyBlock(result, i * srcLen, src);
      assert result[..(i + 1) * srcLen] == result[..i * srcLen] + result[i * srcLen .. (i + 1) * srcLen];
      i := i + 1;
    }
    assert result[..i * srcLen] == result[..];
  }

  // ---------------------------------------------------------------------
  // caml_sum_int_array : int array -> int
  // ---------------------------------------------------------------------

  /** Sum of `s`, added in ascending index order. */
  function Sum(s: seq<int>): (r: int)
    ensures (forall i :: 0 <= i < |s| ==> 0 <= s[i]) ==> 0 <= r
  {
    if s == [] then 0 else Sum(s[..|s| - 1]) + s[|s| - 1]
  }

  /** Reference definition: the textbook sum, taken from the front. */
  function SumFromFront(s: seq<int>): int
  {
    if s == [] then 0 else s[0] + SumFromFront(s[1..])
  }

  /** Summing distributes over concatenation. */
  lemma {:induction false} SumAppend(a: seq<int>, b: seq<int>)
    ensures Sum(a + b) == Sum(a) + Sum(b)
    decreases |b|
  {
    if b == [] {
      assert a + b == a;
    } else {
      var n := |b| - 1;
      assert (a + b)[..|a + b| - 1] == a + b[..n];
      SumAppend(a, b[..n]);
    }
  }

  /** Adding in ascending index order gives the arithmetic sum. */
  lemma {:induction false} SumFromFrontAgrees(s: seq<int>)
    ensures Sum(s) == SumFromFront(s)
    decreases |s|
  {
    if s != [] {
      SumFromFrontAgrees(s[1..]);
      SumAppend([s[0]], s[1..]);
      assert [s[0]] + s[1..] == s;
      assert [s[0]][..0] == [];
    }
  }

  /** Element bounds give bounds on the sum. */
  lemma {:induction false} SumBounds(s: seq<int>, lo: int, hi: int)
    requires forall i :: 0 <= i < |s| ==> lo <= s[i] <= hi
    ensures lo * |s| <= Sum(s) <= hi * |s|
    decreases |s|
  {
    if s != [] {
      var n := |s| - 1;
      var p := s[..n];
      assert forall i :: 0 <= i < |p| ==> p[i] == s[i];
      SumBounds(p, lo, hi);
      assert Sum(s) == Sum(p) + s[n];
      MulSucc(lo, n);
      MulSucc(hi, n);
    }
  }

  lemma MulSucc(a: int, n: nat)
    ensures a * (n + 1) == a * n + a
  {
  }

  /** caml_sum_int_array: add the elements in ascending index order in a
      64-bit accumulator. Every partial sum fits the accumulator and the
      total fits an OCaml int, so neither the additions nor the final tagging
      lose bits. */
  method SumIntArray(a: array<int>) returns (sum: int)
    requires forall i :: 0 <= i < a.Length ==> IsOCamlInt(a[i])
    requires forall k :: 0 <= k <= a.Length ==> IsIntnat(Sum(a[..k]))
    requires IsOCamlInt(Sum(a[..]))
    ensures sum == Sum(a[..])
    ensures sum == SumFromFront(a[..])
    ensures a.Length == 0 ==> sum == 0
  {
    var acc: Intnat := 0;
    var i := 0;
    while i < a.Length
      invariant 0 <= i <= a.Length
      invariant acc as int == Sum(a[..i])
    {
      assert a[..i + 1][..i] == a[..i];
      assert IsIntnat(Sum(a[..i + 1]));
      acc := acc + a[i] as Intnat;
      i := i + 1;
    }
    assert a[..i] == a[..];
    SumFromFrontAgrees(a[..]);
    sum := acc as int;
  }
}

/** Example calls of the stubs, checked against the contracts of the
    model. */
module StubsExamples {
  import opened Stubs

  lemma MississippiHasFourS()
    ensures Occurrences([0x6d, 0x69, 0x73, 0x73, 0x69, 0x73, 0x73, 0x69, 0x70, 0x70, 0x69], 0x73) == 4
  {
    var m: seq<bv8> := [0x6d, 0x69, 0x73, 0x73, 0x69, 0x73, 0x73, 0x69, 0x70, 0x70, 0x69];
    assert Occurrences(m[..0], 0x73) == 0;
    assert Occurrences(m[..1], 0x73) == 0 by { assert m[..1][..0] == m[..0]; }
    assert Occurrences(m[..2], 0x73) == 0 by { assert m[..2][..1] == m[..1]; }
    assert Occurrences(m[..3], 0x73) == 1 by { assert m[..3][..2] == m[..2]; }
    assert Occurrences(m[..4], 0x73) == 2 by { assert m[..4][..3] == m[..3]; }
    assert Occurrences(m[..5], 0x73) == 2 by { assert m[..5][..4] == m[..4]; }
    assert Occurrences(m[..6], 0x73) == 3 by { assert m[..6][..5] == m[..5]; }
    assert Occurrences(m[..7], 0x73) == 4 by { assert m[..7][..6] == m[..6]; }
    assert Occurrences(m[..8], 0x73) == 4 by { assert m[..8][..7] == m[..7]; }
    assert Occurrences(m[..9], 0x73) == 4 by { assert m[..9][..8] == m[..8]; }
    assert Occurrences(m[..10], 0x73) == 4 by { assert m[..10][..9] == m[..9]; }
    assert Occurrences(m[..11], 0x73) == 4 by { assert m[..11][..10] == m[..10]; }
    assert m[..11] == m;
  }

  method CountCharExamples()
  {
    var text := new bv8[11] [0x6d, 0x69, 0x73, 0x73, 0x69, 0x73, 0x73, 0x69, 0x70, 0x70, 0x69];
    var c := CountChar(text, 0x73);
    assert text[..] == [0x6d, 0x69, 0x73, 0x73, 0x69, 0x73, 0x73, 0x69, 0x70, 0x70, 0x69];
    MississippiHasFourS();
    assert c == 4;

    var empty := new bv8[0];
    c := CountChar(empty, 0x78);
    assert c == 0;
  }

  method StrRepeatExamples()
  {
    var ab := new bv8[2] [0x61, 0x62];
    var r := StrRepeat(ab, 3);
    assert ab[..] == [0x61, 0x62];
    assert r[..] == [0x61, 0x62, 0x61, 0x62, 0x61, 0x62];
    r := StrRepeat(ab, 0);
    assert r.Length == 0;
  }

  method SumIntArrayExamples()
  {
    var xs := new int[5] [1, 2, 3, 4, 5];
    assert xs[..] == [1, 2, 3, 4, 5];
    assert xs[..0] == [] && xs[..1] == [1] && xs[..2] == [1, 2];
    assert xs[..3] == [1, 2, 3] && xs[..4] == [1, 2, 3, 4] && xs[..5] == xs[..];
    assert Sum([1]) == 1 by { assert [1][..0] == []; }
    assert Sum([1, 2]) == 3 by { assert [1, 2][..1] == [1]; }
    assert Sum([1, 2, 3]) == 6 by { assert [1, 2, 3][..2] == [1, 2]; }
    assert Sum([1, 2, 3, 4]) == 10 by { assert [1, 2, 3, 4][..3] == [1, 2, 3]; }
    assert Sum([1, 2, 3, 4, 5]) == 15 by { assert [1, 2, 3, 4, 5][..4] == [1, 2, 3, 4]; }
    var total := SumIntArray(xs);
    assert total == 15;

    var none := new int[0];
    total := SumIntArray(none);
    assert total == 0;
  }
}
