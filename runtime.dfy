/**
 * The parts of the Kotlin/Android runtime the view models lean on:
 * 32-bit `Int`, UTF-16 string lengths, and character classification.
 *
 * Unicode classification (`Char.isWhitespace`, `isUpperCase`, `isLowerCase`,
 * `isDigit`) and Android's `Patterns.EMAIL_ADDRESS` are not defined here: they
 * are fields of a `Platform` value that every rule takes as a parameter, so the
 * results hold for whatever tables the platform ships.
 */
module Runtime {

  /** Kotlin's `Int`. */
  newtype Int32 = x: int | -0x8000_0000 <= x < 0x8000_0000

  const Int32Max: Int32 := 0x7fff_ffff
  const Int32Min: Int32 := -0x8000_0000

  /** The value `AtomicInteger.getAndIncrement` leaves behind: two's-complement successor. */
  function WrappingSucc(c: Int32): (r: Int32)
    ensures (r as int - c as int - 1) % 0x1_0000_0000 == 0
    ensures c < Int32Max <==> c < r
  {
    if c == Int32Max then Int32Min else c + 1
  }

  /** Character classification and the e-mail pattern of the platform. */
  datatype Platform = Platform(
    isWhitespace: char -> bool,
    isUpperCase: char -> bool,
    isLowerCase: char -> bool,
    isDigit: char -> bool,
    emailAddress: string -> bool)

  /** A code point that is one UTF-16 unit (a Kotlin `Char`). */
  predicate InBmp(c: char) {
    c as int < 0x1_0000
  }

  /**
   * A Kotlin `Char` predicate applied while iterating a string: a code point
   * outside the BMP is seen as two surrogate units, which no classifier
   * (whitespace, letter case, digit) accepts.
   */
  predicate UnitIs(cls: char -> bool, c: char) {
    InBmp(c) && cls(c)
  }

  /** `s.all { cls(it) }` */
  predicate AllUnits(cls: char -> bool, s: string) {
    forall i :: 0 <= i < |s| ==> UnitIs(cls, s[i])
  }

  /** `s.any { cls(it) }` */
  predicate AnyUnit(cls: char -> bool, s: string) {
    exists i :: 0 <= i < |s| && UnitIs(cls, s[i])
  }

  /** `CharSequence.isBlank()`: every unit is whitespace (so the empty string is blank). */
  predicate IsBlank(p: Platform, s: string) {
    AllUnits(p.isWhitespace, s)
  }

  /** `String.length`, which counts UTF-16 units. */
  function Utf16Length(s: string): (n: nat)
    ensures |s| <= n <= 2 * |s|
    ensures (forall i :: 0 <= i < |s| ==> InBmp(s[i])) <==> n == |s|
  {
    if s == [] then 0 else (if InBmp(s[0]) then 1 else 2) + Utf16Length(s[1..])
  }

  /** Positions of the code points that take two UTF-16 units. */
  ghost function NonBmpPositions(s: string): set<int> {
    set i | 0 <= i < |s| && !InBmp(s[i])
  }

  lemma {:induction false} Utf16LengthAppend(a: string, b: string)
    ensures Utf16Length(a + b) == Utf16Length(a) + Utf16Length(b)
  {
    if a == [] {
      assert a + b == b;
    } else {
      assert (a + b)[1..] == a[1..] + b;
      Utf16LengthAppend(a[1..], b);
    }
  }

  /** `String.length` is the code-point count plus one for every code point outside the BMP. */
  lemma {:induction false} Utf16LengthCountsUnits(s: string)
    ensures Utf16Length(s) == |s| + |NonBmpPositions(s)|
  {
    if s != [] {
      var init, last := s[..|s| - 1], s[|s| - 1];
      assert s == init + [last];
      Utf16LengthCountsUnits(init);
      Utf16LengthAppend(init, [last]);
      assert Utf16Length([last]) == if InBmp(last) then 1 else 2 by {
        assert [last][1..] == [];
      }
      var before := NonBmpPositions(init);
      assert |init| !in before;
      if InBmp(last) {
        assert NonBmpPositions(s) == before;
      } else {
        assert NonBmpPositions(s) == before + {|init|};
      }
    }
  }

  /** `String.endsWith(suffix)` */
  predicate EndsWith(s: string, suffix: string) {
    |suffix| <= |s| && s[|s| - |suffix|..] == suffix
  }

  /**
   * What every Unicode-conformant platform agrees on for ASCII: the letter
   * cases, the ten digits and the JVM's ASCII whitespace (tab, line feed,
   * vertical tab, form feed, carriage return, the four separators 0x1C-0x1F
   * and space). Used only by the worked examples.
   */
  ghost predicate AgreesWithAscii(p: Platform) {
    && (forall c: char :: c as int < 128 ==> (p.isUpperCase(c) <==> 'A' <= c <= 'Z'))
    && (forall c: char :: c as int < 128 ==> (p.isLowerCase(c) <==> 'a' <= c <= 'z'))
    && (forall c: char :: c as int < 128 ==> (p.isDigit(c) <==> '0' <= c <= '9'))
    && (forall c: char :: c as int < 128 ==>
          (p.isWhitespace(c) <==> (9 <= c as int <= 13 || 28 <= c as int <= 32)))
  }
}
