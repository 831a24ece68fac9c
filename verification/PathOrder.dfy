/**
 The sort key of the channel list: a path of sibling numbers, printed as
 fixed-width hexadecimal.  Comparing the strings compares the paths.
 */
module PathOrder {
  /** The order of binary collation: character by character, a prefix first. */
  ghost predicate StringLess(a: string, b: string) {
    b != "" && (a == "" || a[0] < b[0] || (a[0] == b[0] && StringLess(a[1..], b[1..])))
  }

  /** The same order on paths of numbers. */
  ghost predicate PathLess(a: seq<nat>, b: seq<nat>) {
    b != [] && (a == [] || a[0] < b[0] || (a[0] == b[0] && PathLess(a[1..], b[1..])))
  }

  function HexDigit(d: nat): char
    requires d < 16
  {
    if d < 10 then ('0' as int + d) as char else ('A' as int + (d - 10)) as char
  }

  /** `n` in hexadecimal with `width` digits. */
  function Hex(n: nat, width: nat): (s: string)
    ensures |s| == width
  {
    if width == 0 then "" else Hex(n / 16, width - 1) + [HexDigit(n % 16)]
  }

  function Pow16(w: nat): nat {
    if w == 0 then 1 else 16 * Pow16(w - 1)
  }

  const PATH_NUMBERS: nat := 0x1_0000_0000

  /** printf("%08p") of each number, separated by blanks. */
  function PathString(path: seq<nat>): string {
    if path == [] then ""
    else Hex(path[0], 8) + if |path| == 1 then "" else " " + PathString(path[1..])
  }

  predicate InWidth(path: seq<nat>) {
    forall i :: 0 <= i < |path| ==> path[i] < PATH_NUMBERS
  }

  lemma CompareFirst(c: char, d: char, x: string, y: string)
    ensures StringLess([c] + x, [d] + y) <==> c < d || (c == d && StringLess(x, y))
  {
    assert ([c] + x)[1..] == x && ([d] + y)[1..] == y;
  }

  /** Numbers of the same width compare as numbers, and what follows decides only if they are equal. */
  lemma {:induction false} HexOrder(n: nat, m: nat, w: nat, x: string, y: string)
    requires n < Pow16(w) && m < Pow16(w)
    ensures StringLess(Hex(n, w) + x, Hex(m, w) + y) <==> n < m || (n == m && StringLess(x, y))
    decreases w
  {
    if w == 0 {
      assert Hex(n, 0) + x == x && Hex(m, 0) + y == y;
    } else {
      var c, d := HexDigit(n % 16), HexDigit(m % 16);
      assert Hex(n, w) + x == Hex(n / 16, w - 1) + ([c] + x);
      assert Hex(m, w) + y == Hex(m / 16, w - 1) + ([d] + y);
      HexOrder(n / 16, m / 16, w - 1, [c] + x, [d] + y);
      CompareFirst(c, d, x, y);
    }
  }

  lemma EightDigits()
    ensures Pow16(8) == PATH_NUMBERS
  {
    assert Pow16(4) == 65536;
    assert Pow16(6) == 256 * Pow16(4);
  }

  /** Comparing printed paths is comparing paths. */
  lemma {:induction false} PathStringOrder(a: seq<nat>, b: seq<nat>)
    requires a != [] && b != [] && InWidth(a) && InWidth(b)
    ensures StringLess(PathString(a), PathString(b)) <==> PathLess(a, b)
    decreases |a|
  {
    var x := if |a| == 1 then "" else " " + PathString(a[1..]);
    var y := if |b| == 1 then "" else " " + PathString(b[1..]);
    hide Hex;
    EightDigits();
    HexOrder(a[0], b[0], 8, x, y);
    if |a| > 1 && |b| > 1 {
      CompareFirst(' ', ' ', PathString(a[1..]), PathString(b[1..]));
      PathStringOrder(a[1..], b[1..]);
    }
  }

  lemma {:induction false} PathLessTotal(a: seq<nat>, b: seq<nat>)
    ensures a == b || PathLess(a, b) || PathLess(b, a)
    ensures !(PathLess(a, b) && PathLess(b, a)) && !PathLess(a, a)
    decreases |a|
  {
    if a != [] && b != [] && a[0] == b[0] {
      PathLessTotal(a[1..], b[1..]);
      if a[1..] == b[1..] {
        assert a == [a[0]] + a[1..] && b == [b[0]] + b[1..];
      }
    }
    if a != [] {
      PathLessTotal(a[1..], a[1..]);
    }
  }

  /** Below a common prefix the rest decides. */
  lemma {:induction false} PathLessPrefix(base: seq<nat>, a: seq<nat>, b: seq<nat>)
    ensures PathLess(base + a, base + b) <==> PathLess(a, b)
  {
    if base == [] {
      assert base + a == a && base + b == b;
    } else {
      assert (base + a)[1..] == base[1..] + a && (base + b)[1..] == base[1..] + b;
      PathLessPrefix(base[1..], a, b);
    }
  }
}
