/** Machine words, their little-endian bytes, and concatenations of byte cells. */
module Bytes {

  type Byte = b: int | 0 <= b < 256
  type U32 = n: int | 0 <= n < 0x1_0000_0000
  type U64 = n: int | 0 <= n < 0x1_0000_0000_0000_0000
  type I32 = n: int | -0x8000_0000 <= n < 0x8000_0000

  type I64 = n: int | -0x8000_0000_0000_0000 <= n < 0x8000_0000_0000_0000

  const TWO_32: nat := 0x1_0000_0000
  const TWO_63: nat := 0x8000_0000_0000_0000
  const TWO_64: nat := 0x1_0000_0000_0000_0000

  datatype Option<+T> = None | Some(value: T)

  /** Unsigned 64-bit addition, which wraps. */
  function Add64(a: U64, b: U64): U64 {
    (a + b) % TWO_64
  }

  /** Unsigned 64-bit subtraction, which wraps. */
  function Sub64(a: nat, b: nat): U64 {
    (a - b) % TWO_64
  }

  /** Tests one bit; `mask` is a power of two. */
  predicate HasBit(x: nat, mask: nat)
    requires mask > 0
  {
    (x / mask) % 2 == 1
  }

  /** Clears one bit; `mask` is a power of two. */
  function ClearBit(x: U32, mask: nat): (r: U32)
    requires mask > 0
    ensures r <= x
  {
    if HasBit(x, mask) then
      assert 1 <= x / mask;
      x - mask
    else x
  }

  // ----- little-endian words -----

  function Pow256(n: nat): (p: nat)
    ensures p > 0
  {
    if n == 0 then 1 else 256 * Pow256(n - 1)
  }

  lemma {:induction false} PowWords()
    ensures Pow256(4) == TWO_32 && Pow256(8) == TWO_64
  {
    assert Pow256(1) == 256;
    assert Pow256(2) == 0x1_0000;
    assert Pow256(3) == 0x100_0000;
    assert Pow256(4) == TWO_32;
    assert Pow256(5) == 0x100_0000_0000;
    assert Pow256(6) == 0x1_0000_0000_0000;
    assert Pow256(7) == 0x100_0000_0000_0000;
  }

  function Le(x: nat, width: nat): (s: seq<Byte>)
    ensures |s| == width
  {
    if width == 0 then [] else [x % 256] + Le(x / 256, width - 1)
  }

  function UnLe(s: seq<Byte>): (x: nat)
    ensures x < Pow256(|s|)
  {
    if s == [] then 0 else s[0] + 256 * UnLe(s[1..])
  }

  lemma {:induction false} UnLeLe(x: nat, width: nat)
    requires x < Pow256(width)
    ensures UnLe(Le(x, width)) == x
  {
    if width == 0 {
    } else {
      UnLeLe(x / 256, width - 1);
      assert Le(x, width)[1..] == Le(x / 256, width - 1);
    }
  }

  function U32At(s: seq<Byte>, at: nat): U32
    requires at + 4 <= |s|
  {
    PowWords();
    UnLe(s[at..at + 4])
  }

  function U64At(s: seq<Byte>, at: nat): U64
    requires at + 8 <= |s|
  {
    PowWords();
    UnLe(s[at..at + 8])
  }

  /** The two's complement image of a signed 32-bit number. */
  function Unsigned(x: I32): U32 {
    if x < 0 then x + TWO_32 else x
  }

  function Signed(x: U32): I32 {
    if x < 0x8000_0000 then x else x - TWO_32
  }

  lemma {:induction false} WordAt(s: seq<Byte>, at: nat, width: nat, x: nat)
    requires width == 4 || width == 8
    requires x < (if width == 4 then TWO_32 else TWO_64)
    requires at + width <= |s| && s[at..at + width] == Le(x, width)
    ensures width == 4 ==> U32At(s, at) == x
    ensures width == 8 ==> U64At(s, at) == x
  {
    PowWords();
    UnLeLe(x, width);
  }

  // ----- cells -----

  function Concat(cells: seq<seq<Byte>>): seq<Byte>
  {
    if cells == [] then [] else Concat(cells[..|cells| - 1]) + cells[|cells| - 1]
  }

  /** Where cell `k` starts. */
  function CellStart(cells: seq<seq<Byte>>, k: nat): nat
    requires k <= |cells|
  {
    if k == 0 then 0 else CellStart(cells, k - 1) + |cells[k - 1]|
  }

  lemma {:induction false} ConcatPrefix(cells: seq<seq<Byte>>, k: nat)
    requires k <= |cells|
    ensures |Concat(cells[..k])| == CellStart(cells, k)
    ensures Concat(cells[..k]) <= Concat(cells)
    decreases |cells|, k
  {
    if k == |cells| {
      assert cells[..k] == cells;
      if k > 0 {
        ConcatPrefix(cells, k - 1);
      }
    } else {
      var shorter := cells[..|cells| - 1];
      assert shorter[..k] == cells[..k];
      ConcatPrefix(shorter, k);
      SameStart(cells, shorter, k);
    }
  }

  lemma {:induction false} SameStart(cells: seq<seq<Byte>>, shorter: seq<seq<Byte>>, k: nat)
    requires k <= |shorter| && shorter <= cells
    ensures CellStart(cells, k) == CellStart(shorter, k)
  {
    if k > 0 {
      SameStart(cells, shorter, k - 1);
    }
  }

  /** Every cell is found again at its start. */
  lemma {:induction false} CellAt(cells: seq<seq<Byte>>, k: nat)
    requires k < |cells|
    ensures CellStart(cells, k) + |cells[k]| <= |Concat(cells)|
    ensures Concat(cells)[CellStart(cells, k)..CellStart(cells, k) + |cells[k]|] == cells[k]
  {
    ConcatPrefix(cells, k);
    ConcatPrefix(cells, k + 1);
    assert cells[..k + 1][..k] == cells[..k];
    assert Concat(cells[..k + 1]) == Concat(cells[..k]) + cells[k];
  }

  lemma {:induction false} ConcatLength(cells: seq<seq<Byte>>)
    ensures |Concat(cells)| == CellStart(cells, |cells|)
  {
    assert cells[..|cells|] == cells;
    ConcatPrefix(cells, |cells|);
  }

  lemma {:induction false} UniformStart(cells: seq<seq<Byte>>, width: nat, k: nat)
    requires k <= |cells|
    requires forall i :: 0 <= i < |cells| ==> |cells[i]| == width
    ensures CellStart(cells, k) == width * k
  {
    if k > 0 {
      UniformStart(cells, width, k - 1);
      assert width * k == width * (k - 1) + width;
    }
  }

  // ----- C strings -----

  predicate NoNul(s: seq<Byte>) {
    forall i :: 0 <= i < |s| ==> s[i] != 0
  }

  /** `text` is stored NUL-terminated at `at`. */
  predicate StringAt(pool: seq<Byte>, at: nat, text: seq<Byte>) {
    at + |text| < |pool| && pool[at..at + |text|] == text && pool[at + |text|] == 0 && NoNul(text)
  }

  function Zeros(n: nat): seq<Byte> {
    seq(n, _ => 0)
  }

  /** What a reader sees of a character array: everything before the first NUL. */
  function UpToNul(s: seq<Byte>): (r: seq<Byte>)
    ensures NoNul(r) && r <= s && (|r| < |s| ==> s[|r|] == 0)
  {
    if s == [] || s[0] == 0 then [] else [s[0]] + UpToNul(s[1..])
  }

  lemma {:induction false} UpToNulStops(text: seq<Byte>, rest: seq<Byte>)
    requires NoNul(text) && (rest == [] || rest[0] == 0)
    ensures UpToNul(text + rest) == text
  {
    if text == [] {
    } else {
      UpToNulStops(text[1..], rest);
      assert (text + rest)[1..] == text[1..] + rest;
    }
  }

  // ----- bytes as text -----

  /** The bytes are the characters of a text. */
  predicate Spells(bytes: seq<Byte>, text: string) {
    |bytes| == |text| && forall i :: 0 <= i < |text| ==> bytes[i] == text[i] as int
  }

  /** The bytes begin with the characters of a text. */
  predicate Begins(bytes: seq<Byte>, text: string) {
    |bytes| >= |text| && forall i :: 0 <= i < |text| ==> bytes[i] == text[i] as int
  }

  /** The bytes end with the characters of a text. */
  predicate Ends(bytes: seq<Byte>, text: string) {
    |bytes| >= |text| && forall i :: 0 <= i < |text| ==> bytes[|bytes| - |text| + i] == text[i] as int
  }

  /** Bytes written out as numbers and as characters are the same name. */
  lemma {:induction false} SameName(name: seq<Byte>, text: string, bytes: seq<Byte>)
    requires Spells(name, text)
    ensures Spells(bytes, text) <==> bytes == name
    ensures Begins(bytes, text) <==> name <= bytes
  {
    if Begins(bytes, text) {
      forall i | 0 <= i < |name| ensures name[i] == bytes[i] {
        assert name[i] == text[i] as int;
      }
      assert name == bytes[..|name|];
    }
    if name <= bytes {
      forall i | 0 <= i < |text| ensures bytes[i] == text[i] as int {
        assert name[i] == bytes[i];
      }
    }
  }

  lemma {:induction false} SameEnding(name: seq<Byte>, text: string, bytes: seq<Byte>)
    requires Spells(name, text) && |bytes| >= |name|
    ensures Ends(bytes, text) <==> bytes[|bytes| - |name|..] == name
  {
    var last := bytes[|bytes| - |name|..];
    SameName(name, text, last);
    forall i | 0 <= i < |text| ensures last[i] == bytes[|bytes| - |text| + i] {
    }
  }
}
