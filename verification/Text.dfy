/** Strings as the bridge treats them: trimming, letter case, and the byte order that
    Go's `<` gives, which on valid UTF-8 is the order of code points. */
module Text {

  predicate IsSpace(c: char) {
    || c in {' ', '\t', '\n', '\U{0B}', '\U{0C}', '\r', '\U{85}', '\U{A0}', '\U{1680}'}
    || c in {'\U{2028}', '\U{2029}', '\U{202F}', '\U{205F}', '\U{3000}'}
    || '\U{2000}' <= c <= '\U{200A}'
  }

  predicate Trimmed(s: string) {
    s != [] ==> !IsSpace(s[0]) && !IsSpace(s[|s| - 1])
  }

  function TrimSpace(s: string): (t: string)
    ensures Trimmed(t)
    ensures Trimmed(s) ==> t == s
    decreases |s|
  {
    if s == [] then []
    else if IsSpace(s[0]) then TrimSpace(s[1..])
    else if IsSpace(s[|s| - 1]) then TrimSpace(s[..|s| - 1])
    else s
  }

  /** White space, by code points. */
  lemma SpacePoints(c: char)
    ensures IsSpace(c) <==>
              var point := c as int;
              || 9 <= point <= 13 || 8192 <= point <= 8202
              || point in {32, 133, 160, 5760, 8232, 8233, 8239, 8287, 12288}
  {
  }

  /** Lower case, exact wherever the result is ASCII: besides A to Z, only the Kelvin sign and
      the dotted capital I have an ASCII lower case. */
  function Lower(c: char): char {
    if 'A' <= c <= 'Z' then ((c as int) + 32) as char
    else if c == '\U{212A}' then 'k'
    else if c == '\U{130}' then 'i'
    else c
  }

  /** Upper case, exact wherever the result is ASCII (the dotless i and the long s included). */
  function Upper(c: char): char {
    if 'a' <= c <= 'z' then ((c as int) - 32) as char
    else if c == '\U{131}' then 'I'
    else if c == '\U{17F}' then 'S'
    else c
  }

  function ToUpper(s: string): string {
    if s == [] then [] else [Upper(s[0])] + ToUpper(s[1..])
  }

  /** Upper case changes the small letters of ASCII, and the two others whose upper case is one. */
  lemma {:induction false} ToUpperMeaning(s: string, i: nat)
    requires i < |s|
    ensures |ToUpper(s)| == |s|
    ensures 'a' <= s[i] <= 'z' ==> ToUpper(s)[i] as int == s[i] as int - 32
    ensures s[i] == '\U{131}' ==> ToUpper(s)[i] == 'I'
    ensures s[i] == '\U{17F}' ==> ToUpper(s)[i] == 'S'
    ensures !('a' <= s[i] <= 'z') && s[i] !in {'\U{131}', '\U{17F}'} ==> ToUpper(s)[i] == s[i]
  {
    if |s| > 1 { ToUpperMeaning(s[1..], if i > 0 then i - 1 else 0); }
  }

  /** The first argument that is not blank, unchanged; "" when all are blank. */
  function FirstNonEmpty(a: string, b: string): string {
    if TrimSpace(a) != "" then a else if TrimSpace(b) != "" then b else ""
  }

  predicate HasPrefix(s: string, prefix: string) {
    prefix <= s
  }

  /** Decimal notation, as strconv.Itoa writes it. */
  function Itoa(n: int): string
    decreases n < 0, if n < 0 then -n else n
  {
    if n < 0 then "-" + Itoa(-n)
    else if n < 10 then [('0' as int + n) as char]
    else Itoa(n / 10) + [('0' as int + n % 10) as char]
  }

  /** Strict lexicographic order of strings. */
  predicate Below(a: string, b: string) {
    b != [] && (a == [] || a[0] < b[0] || (a[0] == b[0] && Below(a[1..], b[1..])))
  }

  lemma {:induction false} BelowTransitive(a: string, b: string, c: string)
    requires Below(a, b) && Below(b, c)
    ensures Below(a, c)
  {
    if a != [] && a[0] == b[0] == c[0] {
      BelowTransitive(a[1..], b[1..], c[1..]);
    }
  }

  /** Exactly one of a < b, b < a and a == b holds. */
  lemma {:induction false} BelowTrichotomy(a: string, b: string)
    ensures a == b <==> !Below(a, b) && !Below(b, a)
    ensures !(Below(a, b) && Below(b, a))
  {
    if a != [] && b != [] && a[0] == b[0] {
      BelowTrichotomy(a[1..], b[1..]);
      assert a == [a[0]] + a[1..] && b == [b[0]] + b[1..];
    }
  }

  /** The strings agree up to position i, where the first one ends or has the smaller character. */
  predicate SplitAt(a: string, b: string, i: int) {
    && 0 <= i <= |a| && i < |b| && a[..i] == b[..i]
    && (i == |a| || a[i] < b[i])
  }

  /** The order is the lexicographic one. */
  lemma {:induction false} BelowMeaning(a: string, b: string)
    ensures Below(a, b) <==> exists i :: SplitAt(a, b, i)
  {
    if a != [] && b != [] && a[0] == b[0] {
      BelowMeaning(a[1..], b[1..]);
      if i :| SplitAt(a[1..], b[1..], i) {
        assert a[..i + 1] == [a[0]] + a[1..][..i] && b[..i + 1] == [b[0]] + b[1..][..i];
        assert SplitAt(a, b, i + 1);
      }
      if i :| SplitAt(a, b, i) {
        if i > 0 {
          assert a[1..][..i - 1] == a[..i][1..] && b[1..][..i - 1] == b[..i][1..];
          assert SplitAt(a[1..], b[1..], i - 1);
        }
      }
    } else if Below(a, b) {
      assert SplitAt(a, b, 0);
    } else {
      forall i ensures !SplitAt(a, b, i) {
        if 0 < i <= |a| && i < |b| { assert a[..i][0] == a[0] && b[..i][0] == b[0]; }
      }
    }
  }

  /** The number that a string of decimal digits stands for. */
  function Digits(s: string): int {
    if s == "" then 0 else 10 * Digits(s[..|s| - 1]) + (s[|s| - 1] as int - '0' as int)
  }

  /** The decimal notation of a natural number: digits only, no zero in front, and its value. */
  lemma {:induction false} ItoaMeaning(n: nat)
    ensures Digits(Itoa(n)) == n
    ensures forall i | 0 <= i < |Itoa(n)| :: '0' <= Itoa(n)[i] <= '9'
    ensures Itoa(n) != "" && (n > 0 ==> Itoa(n)[0] != '0')
  {
    if n >= 10 {
      ItoaMeaning(n / 10);
      var s, last := Itoa(n / 10), ('0' as int + n % 10) as char;
      assert (s + [last])[..|s|] == s;
    } else {
      assert Itoa(n)[..0] == "";
    }
  }
}
