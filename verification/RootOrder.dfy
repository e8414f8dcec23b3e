/** Roots are compared in three ways: as bytes, as hexadecimal text and, in this model, as numbers. The three orders are
    one. */
module RootOrder {
  import opened Blocks

  type byte = x: int | 0 <= x < 256

  const ROOT_LENGTH: nat := 32

  function Pow256(n: nat): (r: nat)
    ensures r >= 1
  {
    if n == 0 then 1 else 256 * Pow256(n - 1)
  }

  /** The last n bytes of a number, most significant first. */
  function BytesOf(value: nat, n: nat): (r: seq<byte>)
    ensures |r| == n
  {
    if n == 0 then [] else BytesOf(value / 256, n - 1) + [value % 256]
  }

  function RootBytes(root: Root): (r: seq<byte>)
    ensures |r| == ROOT_LENGTH
  {
    BytesOf(root, ROOT_LENGTH)
  }

  /** Go's bytes.Compare. */
  function CompareBytes(a: seq<byte>, b: seq<byte>): int {
    if a == [] && b == [] then 0
    else if a == [] then -1
    else if b == [] then 1
    else if a[0] < b[0] then -1
    else if a[0] > b[0] then 1
    else CompareBytes(a[1..], b[1..])
  }

  /** Go's strings.Compare. */
  function CompareStrings(a: string, b: string): int {
    if a == [] && b == [] then 0
    else if a == [] then -1
    else if b == [] then 1
    else if a[0] < b[0] then -1
    else if a[0] > b[0] then 1
    else CompareStrings(a[1..], b[1..])
  }

  function HexDigit(n: int): char
    requires 0 <= n < 16
  {
    if n < 10 then '0' + n as char else 'a' + (n - 10) as char
  }

  function HexText(bytes: seq<byte>): string {
    if bytes == [] then [] else [HexDigit(bytes[0] / 16), HexDigit(bytes[0] % 16)] + HexText(bytes[1..])
  }

  function CompareInts(a: int, b: int): int {
    if a < b then -1 else if a > b then 1 else 0
  }

  /** compareRoot: the comparison by hexadecimal text. */
  function CompareRoot(a: Root, b: Root): int {
    CompareStrings(HexText(RootBytes(a)), HexText(RootBytes(b)))
  }

  lemma DigitsKeepOrder(x: byte, y: byte)
    ensures x < y <==>
      HexDigit(x / 16) < HexDigit(y / 16)
      || (HexDigit(x / 16) == HexDigit(y / 16) && HexDigit(x % 16) < HexDigit(y % 16))
    ensures x == y <==> HexDigit(x / 16) == HexDigit(y / 16) && HexDigit(x % 16) == HexDigit(y % 16)
  {
  }

  /** Hexadecimal text of equal length sorts like the bytes it spells. */
  lemma {:induction false} HexKeepsOrder(a: seq<byte>, b: seq<byte>)
    requires |a| == |b|
    ensures CompareStrings(HexText(a), HexText(b)) == CompareBytes(a, b)
  {
    if a != [] {
      DigitsKeepOrder(a[0], b[0]);
      var s, t := HexText(a), HexText(b);
      assert s[1..][1..] == HexText(a[1..]) && t[1..][1..] == HexText(b[1..]);
      HexKeepsOrder(a[1..], b[1..]);
    }
  }

  lemma {:induction false} CompareAppend(a: seq<byte>, b: seq<byte>, x: byte, y: byte)
    requires |a| == |b|
    ensures CompareBytes(a + [x], b + [y]) == if CompareBytes(a, b) != 0 then CompareBytes(a, b) else CompareInts(x, y)
  {
    if a == [] {
      assert a + [x] == [x] && b + [y] == [y];
    } else {
      assert (a + [x])[1..] == a[1..] + [x] && (b + [y])[1..] == b[1..] + [y];
      CompareAppend(a[1..], b[1..], x, y);
    }
  }

  /** Big-endian bytes sort like the numbers they spell. */
  lemma {:induction false} BytesKeepOrder(a: nat, b: nat, n: nat)
    requires a < Pow256(n) && b < Pow256(n)
    ensures CompareBytes(BytesOf(a, n), BytesOf(b, n)) == CompareInts(a, b)
  {
    if n > 0 {
      BytesKeepOrder(a / 256, b / 256, n - 1);
      CompareAppend(BytesOf(a / 256, n - 1), BytesOf(b / 256, n - 1), a % 256, b % 256);
    }
  }

  lemma RootsFit(root: Root)
    ensures root < Pow256(ROOT_LENGTH)
  {
    assert Pow256(8) == 0x1_0000000000000000;
    assert Pow256(16) == 0x1_0000000000000000_0000000000000000;
    assert Pow256(24) == 0x1_0000000000000000_0000000000000000_0000000000000000;
    assert Pow256(32) == ROOTS;
  }

  /** All three comparisons of roots agree, so sorting by any of them gives one order, and only equal roots compare
      equal. */
  lemma RootOrdersAgree(a: Root, b: Root)
    ensures CompareBytes(RootBytes(a), RootBytes(b)) == CompareInts(a, b)
    ensures CompareRoot(a, b) == CompareInts(a, b)
  {
    RootsFit(a);
    RootsFit(b);
    BytesKeepOrder(a, b, ROOT_LENGTH);
    HexKeepsOrder(RootBytes(a), RootBytes(b));
  }
}
