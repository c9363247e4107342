# OCaml FFI stubs: counting, repeating, summing

A Dafny model of the three C stubs in `exercises/chapter14/lib/stubs.c`, the
native side of an OCaml foreign-function interface example:

- `caml_count_char : string -> char -> int` counts the bytes of a string equal
  to a character, scanning the string's explicit length (OCaml strings are not
  NUL-terminated);
- `caml_str_repeat : string -> int -> string` returns `n` back-to-back copies
  of a string in a freshly allocated buffer, or the empty string when `n <= 0`
  or the source is empty;
- `caml_sum_int_array : int array -> int` adds the elements of an int array in
  ascending index order.

Everything lives in `stubs.dfy`. Module `Stubs` holds the three stubs as
methods with loops (`CountChar`, `StrRepeat`, `SumIntArray`), each proved
against a specification function (`Occurrences`, `Repeat`, `Sum`), and the
lemmas that say what those functions mean. OCaml strings are `array<bv8>`,
the int array is `array<int>`, and the C accumulators have their native
widths as newtypes (`CInt` for the 32-bit `int cnt`, `Intnat` for the 64-bit
`sum`, `Mlsize` for the unsigned `dst_len`), so the verifier checks that no
addition or multiplication in the loops overflows. The `memcpy` of each copy
is the method `CopyBlock`. Module `StubsExamples` calls the stubs on a few
example inputs (`"mississippi"` has four `'s'`, `"ab"` three times is
`"ababab"`, `[1;2;3;4;5]` sums to 15, the empty cases give 0 or `""`).

Of the garbage-collector discipline only its observable trace is kept:
`StrRepeat` returns a `fresh` array, obtained before any byte is written,
and leaves the source `unchanged`.

## Model

| member | source | states |
|---|---|---|
| `Stubs.Occurrences` | exercises/chapter14/lib/stubs.c:66-68 | the count of matching bytes never exceeds the string's length |
| `Stubs.OccurrencesCountsIndices` | exercises/chapter14/lib/stubs.c:67-68 | the count equals the number of indices `i < len` with `s[i] == want` |
| `Stubs.OccurrencesAppend` | exercises/chapter14/lib/stubs.c:67-68 | counting the concatenation of two strings adds their counts |
| `Stubs.CountsPastZeroByte` | exercises/chapter14/lib/stubs.c:64-68 | a zero byte inside the string is compared like any other byte and the bytes after it are still counted: the scan is bounded by the length, not by a terminator |
| `Stubs.CountChar` | exercises/chapter14/lib/stubs.c:61-70 | the loop returns exactly the number of bytes equal to `want` among all `len` bytes, between 0 and `len`, and 0 for the empty string; the 32-bit counter never overflows as long as at most `INT_MAX` bytes match |
| `Stubs.Repeat` | exercises/chapter14/lib/stubs.c:107-114 | the repetition has length `src_len * times`, and 0 when `times <= 0` |
| `Stubs.RepeatEmptyIff` | exercises/chapter14/lib/stubs.c:102-105 | the result is empty if and only if `times <= 0` or the source is empty |
| `Stubs.RepeatBlock` | exercises/chapter14/lib/stubs.c:113-114 | for every `k` in `[0, times)` the bytes `[k*src_len, (k+1)*src_len)` of the result are the source |
| `Stubs.RepeatAt` | exercises/chapter14/lib/stubs.c:113-114 | byte `i` of copy `k` of the result is byte `i` of the source |
| `Stubs.RepeatUnique` | exercises/chapter14/lib/stubs.c:107-114 | conversely, any byte string of length `src_len * times` whose every block is the source is the repetition |
| `Stubs.CopyBlock` | exercises/chapter14/lib/stubs.c:114 | one `memcpy`: the block at the offset becomes the source bytes and the rest of the destination is untouched |
| `Stubs.StrRepeat` | exercises/chapter14/lib/stubs.c:95-117 | the result is a fresh buffer holding `times` copies of the source (empty when `times <= 0` or the source is empty); the source is unchanged; `dst_len` fits `mlsize_t` |
| `Stubs.Sum` | exercises/chapter14/lib/stubs.c:139-140 | the sum of the elements added in ascending index order, the value the accumulator holds after the loop; a sum of non-negative elements is non-negative |
| `Stubs.SumAppend` | exercises/chapter14/lib/stubs.c:139-140 | summing a concatenation adds the sums of its parts |
| `Stubs.SumFromFrontAgrees` | exercises/chapter14/lib/stubs.c:139-140 | adding in ascending index order gives the same value as the ordinary sum taken from the front |
| `Stubs.SumBounds` | exercises/chapter14/lib/stubs.c:137-141 | if every element lies in `[lo, hi]` the sum lies in `[lo*len, hi*len]` |
| `Stubs.SumIntArray` | exercises/chapter14/lib/stubs.c:135-142 | the loop returns the sum of all elements taken in ascending index order, 0 for the empty array, without changing the array; the 64-bit accumulator never overflows |

## Left out

- Root registration (`CAMLparam*`, `CAMLlocal1`, `CAMLreturn`) and the relocation of heap blocks by `caml_alloc_string`: runtime internals whose headers (`caml/memory.h`, `caml/alloc.h`) are not part of this model. Allocation is Dafny's `new`; the "take pointers after allocating" rule survives only as `fresh(result)` and `unchanged(src)`.
- Tagged-integer encoding and block accessors (`Int_val`, `Val_int`, `String_val`, `Bytes_val`, `Field`, `Wosize_val`): `caml/mlvalues.h` is not part of this model. Inputs and results are plain integers, byte arrays and int arrays.
- CountChar: the character argument is taken as a byte `bv8`; the cast of `Int_val(ch)` to a signed `char` is not modelled, since only equality of bytes matters.
- CountChar: requires at most `INT_MAX` bytes to match, so the 32-bit `int cnt` cannot overflow; the source does not check this.
- StrRepeat: requires `src_len * times` to fit `mlsize_t`; the source's unsigned product would wrap silently and `memcpy` would then overrun the buffer. The size limit `caml_alloc_string` itself enforces is not modelled.
- StrRepeat: requires `times` to be an OCaml int (63 bits), which the OCaml type system guarantees.
- SumIntArray: requires every partial sum to fit the 64-bit `intnat` accumulator and the total to fit an OCaml int, so neither the signed additions nor the tagging by `Val_int` lose bits; the source does not check either.
- A 64-bit platform is assumed: `intnat` and `mlsize_t` are 64 bits wide and OCaml ints 63 bits. On a 32-bit platform they are 32, 32 and 31 bits, which this model does not cover.
- CopyBlock: `memcpy` is modelled by its effect, a parallel byte assignment, not as a call into libc.
