/** ASCII text operations, as the standard library defines them. */
module Text {
  import opened Core

  // ----- Case and whitespace -----

  function LowerChar(c: char): char {
    if 'A' <= c <= 'Z' then ((c as int) + 32) as char else c
  }

  function Lower(s: string): (r: string)
    ensures |r| == |s| && forall i | 0 <= i < |s| :: r[i] == LowerChar(s[i])
  {
    seq(|s|, i requires 0 <= i < |s| => LowerChar(s[i]))
  }

  predicate EqualsIgnoringCase(a: string, b: string) {
    Lower(a) == Lower(b)
  }

  const UPPER_LETTERS := "ABCDEFGHIJKLMNOPQRSTUVWXYZ"
  const LOWER_LETTERS := "abcdefghijklmnopqrstuvwxyz"

  /** The characters are the same letter of the alphabet in either case, or the same character. */
  predicate SameLetter(c: char, d: char) {
    c == d ||
    exists i | 0 <= i < 26 :: UPPER_LETTERS[i] in [c, d] && LOWER_LETTERS[i] in [c, d]
  }

  /** Lowering replaces each upper-case letter by its lower-case one and nothing else. */
  lemma LowerFoldsLetters(c: char)
    ensures forall i | 0 <= i < 26 :: LowerChar(UPPER_LETTERS[i]) == LOWER_LETTERS[i]
    ensures c !in UPPER_LETTERS ==> LowerChar(c) == c
  {
    AlphabetIsConsecutive();
    if 'A' <= c <= 'Z' { assert UPPER_LETTERS[c as int - 'A' as int] == c; }
  }

  lemma AlphabetIsConsecutive()
    ensures forall i | 0 <= i < 26 :: UPPER_LETTERS[i] as int == 'A' as int + i
    ensures forall i | 0 <= i < 26 :: LOWER_LETTERS[i] as int == 'a' as int + i
  {
  }

  /** Two texts are equal up to case when they are the same, letter by letter. */
  lemma EqualsLetterByLetter(a: string, b: string)
    ensures EqualsIgnoringCase(a, b) <==> |a| == |b| && forall i | 0 <= i < |a| :: SameLetter(a[i], b[i])
  {
    hide SameLetter, LowerChar;
    if |a| == |b| {
      forall i | 0 <= i < |a| { SameWhenLowered(a[i], b[i]); }
      if EqualsIgnoringCase(a, b) {
        assert forall i | 0 <= i < |a| :: Lower(a)[i] == Lower(b)[i];
      }
    } else {
      assert |Lower(a)| != |Lower(b)|;
    }
  }

  lemma SameWhenLowered(c: char, d: char)
    ensures LowerChar(c) == LowerChar(d) <==> SameLetter(c, d)
  {
    AlphabetIsConsecutive();
    if c != d && LowerChar(c) == LowerChar(d) {
      var i := LowerChar(c) as int - 'a' as int;
      assert UPPER_LETTERS[i] in [c, d] && LOWER_LETTERS[i] in [c, d];
    }
  }

  predicate IsSpace(c: char) {
    c == ' ' || ('\t' <= c <= '\r')
  }

  /** Whitespace is the space, the tab, the line feed, the vertical tab, the form feed and the carriage return. */
  lemma WhitespaceIs(c: char)
    ensures IsSpace(c) <==> c in [' ', '\t', '\n', '\U{B}', '\U{C}', '\r']
  {
  }

  predicate AllSpace(s: string) {
    forall i | 0 <= i < |s| :: IsSpace(s[i])
  }

  /** The text neither begins nor ends with whitespace. */
  predicate IsTight(s: string) {
    s == [] || (!IsSpace(s[0]) && !IsSpace(s[|s| - 1]))
  }

  function TrimStart(s: string): string {
    if s != [] && IsSpace(s[0]) then TrimStart(s[1..]) else s
  }

  function TrimEnd(s: string): string {
    if s != [] && IsSpace(s[|s| - 1]) then TrimEnd(s[..|s| - 1]) else s
  }

  function Trim(s: string): string {
    TrimEnd(TrimStart(s))
  }

  /** Trimming removes the whitespace around a text, and nothing of the text. */
  lemma TrimRemovesSpaces(head: string, core: string, tail: string)
    requires AllSpace(head) && AllSpace(tail) && IsTight(core)
    ensures Trim(head + core + tail) == core
  {
    assert head + core + tail == head + (core + tail);
    TrimStartSkips(head, core + tail);
    if core == [] {
      assert core + tail == tail + [];
      TrimStartSkips(tail, []);
    } else {
      assert (core + tail)[0] == core[0];
    }
    TrimEndSkips(core, tail);
  }

  lemma {:induction false} TrimStartSkips(spaces: string, s: string)
    requires AllSpace(spaces)
    ensures TrimStart(spaces + s) == TrimStart(s)
  {
    if spaces == [] {
      assert spaces + s == s;
    } else {
      assert (spaces + s)[1..] == spaces[1..] + s;
      TrimStartSkips(spaces[1..], s);
    }
  }

  lemma {:induction false} TrimEndSkips(s: string, spaces: string)
    requires AllSpace(spaces)
    ensures TrimEnd(s + spaces) == TrimEnd(s)
  {
    if spaces == [] {
      assert s + spaces == s;
    } else {
      var n := |spaces| - 1;
      assert (s + spaces)[..|s| + n] == s + spaces[..n];
      TrimEndSkips(s, spaces[..n]);
    }
  }

  /** Every text is a trimmed one between whitespace. */
  lemma {:induction false} TrimSplitsText(s: string) returns (head: string, tail: string)
    ensures s == head + Trim(s) + tail && AllSpace(head) && AllSpace(tail) && IsTight(Trim(s))
    decreases |s|
  {
    if s == [] {
      head, tail := [], [];
    } else if IsSpace(s[0]) {
      head, tail := TrimSplitsText(s[1..]);
      head := [s[0]] + head;
    } else if IsSpace(s[|s| - 1]) {
      var init := s[..|s| - 1];
      head, tail := TrimSplitsText(init);
      assert TrimStart(init) == init;
      tail := tail + [s[|s| - 1]];
    } else {
      head, tail := [], [];
    }
  }

  // ----- Splitting -----

  /** The length of the longest prefix without whitespace. */
  function WordLength(s: string): (n: nat)
    ensures n <= |s| && (n < |s| ==> IsSpace(s[n]))
    ensures forall i | 0 <= i < n :: !IsSpace(s[i])
  {
    if s == [] || IsSpace(s[0]) then 0 else 1 + WordLength(s[1..])
  }

  function SplitWhitespace(s: string): seq<string>
    decreases |s|
  {
    if s == [] then []
    else if IsSpace(s[0]) then SplitWhitespace(s[1..])
    else [s[..WordLength(s)]] + SplitWhitespace(s[WordLength(s)..])
  }

  /** The first position of `c`, or the length of the text. */
  function IndexOf(s: string, c: char): (n: nat)
    ensures n <= |s| && (n < |s| ==> s[n] == c)
    ensures forall i | 0 <= i < n :: s[i] != c
  {
    if s == [] || s[0] == c then 0 else 1 + IndexOf(s[1..], c)
  }

  function SplitOnce(s: string, c: char): Option<(string, string)> {
    var n := IndexOf(s, c);
    if n < |s| then Some((s[..n], s[n + 1..])) else None
  }

  function Split(s: string, c: char): (parts: seq<string>)
    ensures parts != []
    decreases |s|
  {
    var n := IndexOf(s, c);
    if n < |s| then [s[..n]] + Split(s[n + 1..], c) else [s]
  }

  // ----- Searching -----

  predicate StartsWith(s: string, t: string) {
    |t| <= |s| && s[..|t|] == t
  }

  predicate EndsWith(s: string, t: string) {
    |t| <= |s| && s[|s| - |t|..] == t
  }

  predicate Contains(s: string, t: string) {
    exists i | 0 <= i <= |s| :: StartsWith(s[i..], t)
  }

  /** A text begins, ends or goes on with another one when it is that text with more before or after it. */
  lemma PartsAreFound(a: string, t: string, b: string)
    ensures StartsWith(t + b, t) && EndsWith(a + t, t) && Contains(a + t + b, t)
  {
    assert a + t + b == a + (t + b);
    assert (a + (t + b))[|a|..] == t + b && StartsWith(t + b, t);
  }

  /** Nothing else is found: a text that is found is a part. */
  lemma FoundIsPart(s: string, t: string)
    ensures StartsWith(s, t) ==> exists b :: s == t + b
    ensures EndsWith(s, t) ==> exists a :: s == a + t
    ensures Contains(s, t) ==> exists a, b :: s == a + t + b
  {
    hide Contains;
    if StartsWith(s, t) { assert s == t + s[|t|..]; }
    if EndsWith(s, t) { assert s == s[..|s| - |t|] + t; }
    if Contains(s, t) { var a, b := PartsAround(s, t); }
  }

  lemma PartsAround(s: string, t: string) returns (a: string, b: string)
    requires Contains(s, t)
    ensures s == a + t + b
  {
    var i :| 0 <= i <= |s| && StartsWith(s[i..], t);
    ThreeParts(s, t, i);
    a, b := s[..i], s[i..][|t|..];
  }

  lemma ThreeParts(s: string, t: string, i: nat)
    requires i <= |s| && StartsWith(s[i..], t)
    ensures s == s[..i] + t + s[i..][|t|..]
  {
  }

  // ----- Decimal numbers -----

  function Digit(d: nat): char
    requires d < 10
  {
    ('0' as int + d) as char
  }

  /** The canonical decimal text of a number. */
  function Decimal(n: nat): (s: string)
    ensures s != [] && AreDigits(s) && DigitsValue(s) == n && (|s| > 1 ==> s[0] != '0')
  {
    if n < 10 then [Digit(n)]
    else
      assert (Decimal(n / 10) + [Digit(n % 10)])[..|Decimal(n / 10)|] == Decimal(n / 10);
      Decimal(n / 10) + [Digit(n % 10)]
  }

  predicate AreDigits(s: string) {
    forall i | 0 <= i < |s| :: '0' <= s[i] <= '9'
  }

  function DigitsValue(s: string): nat
    requires AreDigits(s)
  {
    if s == [] then 0 else 10 * DigitsValue(s[..|s| - 1]) + (s[|s| - 1] as int - '0' as int)
  }

  /** Parsing allows one leading plus sign and leading zeros; anything above 65535 is rejected. */
  function ParseU16(s: string): Option<u16> {
    var digits := if s != [] && s[0] == '+' then s[1..] else s;
    if digits != [] && AreDigits(digits) && DigitsValue(digits) <= U16_MAX then Some(DigitsValue(digits)) else None
  }

  lemma ParseInvertsDecimal(n: u16)
    ensures ParseU16(Decimal(n)) == Some(n)
  {
  }

  predicate AreZeros(s: string) {
    forall i | 0 <= i < |s| :: s[i] == '0'
  }

  /** A number parses exactly when it is the canonical text behind zeros and at most one plus sign. */
  lemma ParsedTexts(s: string, n: u16)
    ensures ParseU16(s) == Some(n)
       <==> exists sign, zeros :: (sign == "" || sign == "+") && AreZeros(zeros) && s == sign + zeros + Decimal(n)
  {
    if ParseU16(s) == Some(n) { var sign, zeros := ParsedIsPadded(s, n); }
    if sign, zeros :| (sign == "" || sign == "+") && AreZeros(zeros) && s == sign + zeros + Decimal(n) {
      PaddedParses(sign, zeros, n);
    }
  }

  lemma ParsedIsPadded(s: string, n: u16) returns (sign: string, zeros: string)
    requires ParseU16(s) == Some(n)
    ensures (sign == "" || sign == "+") && AreZeros(zeros) && s == sign + zeros + Decimal(n)
  {
    hide Decimal, DigitsValue, ParseU16, AreZeros;
    var digits;
    sign, digits := ParsedDigits(s, n);
    zeros := LeadingZeros(digits);
    assert sign + (zeros + Decimal(n)) == sign + zeros + Decimal(n);
  }

  lemma ParsedDigits(s: string, n: u16) returns (sign: string, digits: string)
    requires ParseU16(s) == Some(n)
    ensures (sign == "" || sign == "+") && s == sign + digits
    ensures digits != [] && AreDigits(digits) && DigitsValue(digits) == n
  {
    hide DigitsValue;
    sign, digits := if s[0] == '+' then "+" else "", if s[0] == '+' then s[1..] else s;
  }

  lemma PaddedParses(sign: string, zeros: string, n: u16)
    requires (sign == "" || sign == "+") && AreZeros(zeros)
    ensures ParseU16(sign + zeros + Decimal(n)) == Some(n)
  {
    hide Decimal, DigitsValue;
    var s, digits := sign + zeros + Decimal(n), zeros + Decimal(n);
    ZerosAddNothing(zeros, Decimal(n));
    assert s == sign + digits;
    if sign == "+" {
      assert s[1..] == digits;
    } else {
      assert s == digits && '0' <= digits[0] <= '9';
    }
  }

  lemma {:induction false} ZerosAddNothing(zeros: string, digits: string)
    requires AreZeros(zeros) && AreDigits(digits)
    ensures AreDigits(zeros + digits) && DigitsValue(zeros + digits) == DigitsValue(digits)
  {
    if digits != [] {
      var n := |digits| - 1;
      assert (zeros + digits)[..|zeros| + n] == zeros + digits[..n];
      ZerosAddNothing(zeros, digits[..n]);
    } else if zeros != [] {
      var n := |zeros| - 1;
      assert zeros + digits == zeros && zeros[..n] + [] == zeros[..n];
      ZerosAddNothing(zeros[..n], []);
    }
  }

  lemma {:induction false} LeadingZeros(digits: string) returns (zeros: string)
    requires digits != [] && AreDigits(digits)
    ensures AreZeros(zeros) && digits == zeros + Decimal(DigitsValue(digits))
  {
    hide Decimal, DigitsValue, AreDigits, Digit;
    var init := digits[..|digits| - 1];
    var last := LastDigit(digits);
    if init == [] {
      zeros := "";
      DecimalAppends(0, last);
    } else {
      zeros := LeadingZeros(init);
      DecimalAppends(DigitsValue(init), last);
      if DigitsValue(init) == 0 {
        DecimalAppends(0, 0);
        zeros := zeros + [Digit(0)];
      }
    }
  }

  lemma LastDigit(digits: string) returns (last: nat)
    requires digits != [] && AreDigits(digits)
    ensures var init := digits[..|digits| - 1];
            && last < 10 && digits == init + [Digit(last)] && Digit(0) == '0'
            && AreDigits(init) && DigitsValue(digits) == 10 * DigitsValue(init) + last
            && (init == [] ==> DigitsValue(init) == 0)
  {
    last := digits[|digits| - 1] as int - '0' as int;
  }

  /** One more digit goes behind the others, except that nothing goes before the first. */
  lemma DecimalAppends(value: nat, last: nat)
    requires last < 10
    ensures Decimal(10 * value + last) == (if value == 0 then [] else Decimal(value)) + [Digit(last)]
  {
  }

  // ----- Laws -----

  /** Whitespace splitting turns a joining whitespace character into concatenation. */
  lemma {:induction false} SplitJoined(f: string, c: char, g: string)
    requires IsSpace(c)
    ensures SplitWhitespace(f + [c] + g) == SplitWhitespace(f) + SplitWhitespace(g)
    decreases |f|
  {
    hide IsSpace;
    var joined := f + [c] + g;
    if f == [] {
      assert joined[1..] == g;
    } else if IsSpace(f[0]) {
      assert joined[1..] == f[1..] + [c] + g;
      SplitJoined(f[1..], c, g);
    } else {
      var n := WordLength(f);
      WordLengthIs(joined, n);
      assert joined[..n] == f[..n];
      assert joined[n..] == f[n..] + [c] + g;
      SplitJoined(f[n..], c, g);
    }
  }

  lemma WordLengthIs(s: string, n: nat)
    requires n <= |s| && (n < |s| ==> IsSpace(s[n])) && forall i | 0 <= i < n :: !IsSpace(s[i])
    ensures WordLength(s) == n
  {
    var m := WordLength(s);
    assert !(m < n) && !(n < m);
  }

  lemma {:induction false} SplitLowered(s: string)
    ensures var words, lowered := SplitWhitespace(s), SplitWhitespace(Lower(s));
            |lowered| == |words| && forall i | 0 <= i < |words| :: lowered[i] == Lower(words[i])
    decreases |s|
  {
    hide LowerChar, IsSpace;
    var l := Lower(s);
    LoweredSpaces(s);
    if s == [] {
    } else if IsSpace(s[0]) {
      assert l[1..] == Lower(s[1..]);
      SplitLowered(s[1..]);
    } else {
      var n := WordLength(s);
      WordLengthIs(l, n);
      assert l[..n] == Lower(s[..n]);
      assert l[n..] == Lower(s[n..]);
      SplitLowered(s[n..]);
    }
  }

  lemma LoweredSpaces(s: string)
    ensures forall i | 0 <= i < |s| :: IsSpace(Lower(s)[i]) == IsSpace(s[i])
  {
  }

  /** A text without whitespace is its own single word; blank text has none. */
  lemma SplitSingle(s: string)
    requires s != [] && forall i | 0 <= i < |s| :: !IsSpace(s[i])
    ensures SplitWhitespace(s) == [s]
  {
    WordLengthIs(s, |s|);
    assert s[..|s|] == s && s[|s|..] == [];
  }

  lemma {:induction false} BlankHasNoWords(s: string)
    requires Trim(s) == []
    ensures SplitWhitespace(s) == []
    decreases |s|
  {
    if s != [] {
      if IsSpace(s[0]) {
        BlankHasNoWords(s[1..]);
      } else {
        TrimEndKeepsFirst(s);
      }
    }
  }

  lemma {:induction false} TrimEndKeepsFirst(s: string)
    requires s != [] && !IsSpace(s[0])
    ensures TrimEnd(s) != []
  {
    if |s| > 1 { TrimEndKeepsFirst(s[..|s| - 1]); }
  }

  lemma {:induction false} SplitOnceLowered(s: string)
    ensures SplitOnce(Lower(s), ':') ==
            match SplitOnce(s, ':')
            case None => None
            case Some((key, value)) => Some((Lower(key), Lower(value)))
  {
    var n, l := IndexOf(s, ':'), Lower(s);
    IndexOfIs(l, ':', n);
    if n < |s| {
      assert l[..n] == Lower(s[..n]);
      assert l[n + 1..] == Lower(s[n + 1..]);
    }
  }

  lemma IndexOfIs(s: string, c: char, n: nat)
    requires n <= |s| && (n < |s| ==> s[n] == c) && forall i | 0 <= i < n :: s[i] != c
    ensures IndexOf(s, c) == n
  {
    var m := IndexOf(s, c);
    assert !(m < n) && !(n < m);
  }

  /** Splitting once takes the text before and after the first separator, if there is one. */
  lemma SplitOnceAtFirst(before: string, c: char, after: string)
    requires c !in before
    ensures SplitOnce(before + [c] + after, c) == Some((before, after))
    ensures SplitOnce(before, c) == None
  {
    var s := before + [c] + after;
    IndexOfIs(s, c, |before|);
    assert s[..|before|] == before && s[|before| + 1..] == after;
  }

  lemma SplitWithoutSeparator(s: string, c: char)
    requires c !in s
    ensures Split(s, c) == [s]
  {
    assert IndexOf(s, c) == |s|;
  }

  /** Separator splitting turns a joining separator into concatenation. */
  lemma {:induction false} SplitSeparated(f: string, g: string, c: char)
    ensures Split(f + [c] + g, c) == Split(f, c) + Split(g, c)
    decreases |f|
  {
    hide IndexOf;
    var n, joined := IndexOf(f, c), f + [c] + g;
    IndexOfIs(joined, c, n);
    if n < |f| {
      assert joined[..n] == f[..n];
      assert joined[n + 1..] == f[n + 1..] + [c] + g;
      SplitSeparated(f[n + 1..], g, c);
      assert Split(joined, c) == [f[..n]] + (Split(f[n + 1..], c) + Split(g, c));
    } else {
      assert joined[..n] == f && joined[n + 1..] == g;
      assert Split(joined, c) == [f] + Split(g, c);
    }
  }

  /**
   When an address ends in a colon and digits, only those digits follow the last colon: no other
   colon-free suffix matches, whatever stands before it.
   */
  lemma SuffixAfterColon(address: string, head: string, digits: string, value: string)
    requires address == head + ":" + digits && AreDigits(digits)
    requires forall i | 0 <= i < |value| :: value[i] != ':'
    ensures EndsWith(address, ":" + value) <==> value == digits
  {
    if EndsWith(address, ":" + value) {
      var at := |address| - |value| - 1;
      assert address[at..][0] == ':';
      assert address[at..] == ":" + value;
      assert forall i | 0 <= i < |value| :: address[at..][i + 1] == value[i];
      assert address[|head|] == ':' && forall i | |head| < i < |address| :: address[i] == digits[i - |head| - 1];
      assert at == |head|;
      assert address[|head| + 1..] == digits && address[at..][1..] == value;
      assert address[at..][1..] == address[at + 1..];
    }
    if value == digits {
      assert address[|head|..] == ":" + digits;
    }
  }
}
