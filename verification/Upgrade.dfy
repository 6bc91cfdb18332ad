/** Detection of upgrade requests from the Connection header of an HTTP/1.1 request. */
module Upgrade {
  import opened Core
  import opened Text

  /** A header value is a sequence of bytes; it decodes as text when all are visible ASCII, spaces or tabs. */
  type Byte = b: int | 0 <= b < 256

  predicate IsText(value: seq<Byte>) {
    forall i | 0 <= i < |value| :: value[i] == 9 || 32 <= value[i] < 127
  }

  function Decode(value: seq<Byte>): Option<string> {
    if IsText(value) then Some(seq(|value|, i requires 0 <= i < |value| => value[i] as char)) else None
  }

  predicate IsUpgradeToken(token: string) {
    EqualsIgnoringCase(Trim(token), "upgrade")
  }

  predicate HasUpgradeToken(line: string) {
    exists token | token in Split(line, ',') :: IsUpgradeToken(token)
  }

  /** Some line that decodes as text lists the token. */
  predicate ConnectionListsUpgrade(values: seq<seq<Byte>>) {
    exists i | 0 <= i < |values| :: Decode(values[i]).Some? && HasUpgradeToken(Decode(values[i]).value)
  }

  predicate IsUpgradeRequest(hasUpgradeHeader: bool, connectionValues: seq<seq<Byte>>) {
    hasUpgradeHeader && ConnectionListsUpgrade(connectionValues)
  }

  const COMMA: Byte := 44

  /** Optional whitespace: spaces and tabs. */
  predicate IsOws(ows: seq<Byte>) {
    forall i | 0 <= i < |ows| :: ows[i] == 32 || ows[i] == 9
  }

  /** Several field lines combined into one, separated by a comma and optional whitespace. */
  function Combined(values: seq<seq<Byte>>, ows: seq<Byte>): seq<Byte> {
    if values == [] then []
    else if |values| == 1 then values[0]
    else Combined(values[..|values| - 1], ows) + [COMMA] + ows + values[|values| - 1]
  }

  /**
   Combining the Connection lines as section 5.3 of RFC 9110 allows gives the same answer exactly when no line
   is lost in the process: there is no Upgrade header to begin with, every Connection line decodes as text, or
   no decodable one lists the token anyway.
   */
  lemma CombiningLinesKeepsUpgrade(hasUpgradeHeader: bool, values: seq<seq<Byte>>, ows: seq<Byte>)
    requires IsOws(ows)
    ensures IsUpgradeRequest(hasUpgradeHeader, [Combined(values, ows)]) == IsUpgradeRequest(hasUpgradeHeader, values)
       <==> || !hasUpgradeHeader
            || (forall i | 0 <= i < |values| :: IsText(values[i]))
            || (forall i | 0 <= i < |values| && IsText(values[i]) :: !HasUpgradeToken(Decode(values[i]).value))
  {
    hide HasUpgradeToken;
    CombiningLinesKeepsToken(values, ows);
  }

  lemma CombiningLinesKeepsToken(values: seq<seq<Byte>>, ows: seq<Byte>)
    requires IsOws(ows)
    ensures ConnectionListsUpgrade([Combined(values, ows)]) == ConnectionListsUpgrade(values)
       <==> (forall i | 0 <= i < |values| :: IsText(values[i])) || !ConnectionListsUpgrade(values)
  {
    var line := Combined(values, ows);
    CombinedIsText(values, ows);
    assert ConnectionListsUpgrade([line]) <==> IsText(line) && HasUpgradeToken(Decode(line).value) by {
      assert [line][0] == line;
    }
    if IsText(line) {
      CombinedTokens(values, ows);
    }
  }

  /** A line that does not decode hides the others once they are combined. */
  lemma BinaryLineHidesUpgrade()
    ensures var upgrade := [117, 112, 103, 114, 97, 100, 101];
            && IsUpgradeRequest(true, [upgrade, [255]])
            && !IsUpgradeRequest(true, [Combined([upgrade, [255]], [])])
  {
    hide HasUpgradeToken, Combined, IsText, Decode;
    var upgrade: seq<Byte> := [117, 112, 103, 114, 97, 100, 101];
    var values := [upgrade, [255]];
    PlainBytesDecode();
    PlainTokenIsListed();
    assert values[0] == upgrade && ConnectionListsUpgrade(values);
    CombinedIsText(values, []);
    assert values[1] == [255];
    UndecodedLineListsNothing(Combined(values, []));
  }

  lemma UndecodedLineListsNothing(line: seq<Byte>)
    requires !IsText(line)
    ensures !ConnectionListsUpgrade([line])
  {
  }

  lemma PlainBytesDecode()
    ensures Decode([117, 112, 103, 114, 97, 100, 101]) == Some("upgrade") && !IsText([255])
  {
    var upgrade: seq<Byte> := [117, 112, 103, 114, 97, 100, 101];
    assert Decode(upgrade).value == "upgrade";
    var high: seq<Byte> := [255];
    assert high[0] == 255;
  }

  lemma PlainTokenIsListed()
    ensures HasUpgradeToken("upgrade")
  {
    IndexOfIs("upgrade", ',', 7);
    TokensFromFirst("upgrade");
    assert "upgrade"[..7] == "upgrade" && Trim("upgrade") == "upgrade";
  }

  lemma {:induction false} CombinedIsText(values: seq<seq<Byte>>, ows: seq<Byte>)
    requires IsOws(ows)
    ensures IsText(Combined(values, ows)) <==> forall i | 0 <= i < |values| :: IsText(values[i])
  {
    if |values| > 1 {
      var before, last := values[..|values| - 1], values[|values| - 1];
      CombinedIsText(before, ows);
      TextConcat(Combined(before, ows), [COMMA] + ows + last);
      TextConcat([COMMA] + ows, last);
      assert Combined(before, ows) + [COMMA] + ows + last == Combined(before, ows) + ([COMMA] + ows + last);
    }
  }

  lemma TextConcat(a: seq<Byte>, b: seq<Byte>)
    ensures IsText(a + b) <==> IsText(a) && IsText(b)
    ensures IsText(a + b) ==> Decode(a + b).value == Decode(a).value + Decode(b).value
  {
    assert forall i | 0 <= i < |a| :: (a + b)[i] == a[i];
    assert forall i | 0 <= i < |b| :: (a + b)[|a| + i] == b[i];
  }

  lemma {:induction false} CombinedTokens(values: seq<seq<Byte>>, ows: seq<Byte>)
    requires IsOws(ows) && forall i | 0 <= i < |values| :: IsText(values[i])
    requires IsText(Combined(values, ows))
    ensures HasUpgradeToken(Decode(Combined(values, ows)).value) <==> ConnectionListsUpgrade(values)
  {
    hide HasUpgradeToken;
    if values == [] {
      NoTokenInNothing();
      assert Decode([]).value == "";
    } else if |values| == 1 {
      assert ConnectionListsUpgrade(values) <==> HasUpgradeToken(Decode(values[0]).value);
    } else {
      var before, last := values[..|values| - 1], values[|values| - 1];
      CombinedIsText(before, ows);
      CombinedTokens(before, ows);
      var head, tail := Combined(before, ows), ows + last;
      assert Combined(values, ows) == head + [COMMA] + tail;
      TextConcat(head + [COMMA], tail);
      TextConcat(head, [COMMA]);
      TextConcat(ows, last);
      assert Decode([COMMA]).value == [','];
      TokensConcat(Decode(head).value, Decode(tail).value);
      LeadingSpaceIsIgnored(Decode(ows).value, Decode(last).value);
      ListsSnoc(before, last);
      assert values == before + [last];
    }
  }

  lemma ListsSnoc(before: seq<seq<Byte>>, last: seq<Byte>)
    requires IsText(last)
    ensures ConnectionListsUpgrade(before + [last])
       <==> ConnectionListsUpgrade(before) || HasUpgradeToken(Decode(last).value)
  {
    hide HasUpgradeToken;
    var values := before + [last];
    assert forall i | 0 <= i < |before| :: before[i] == values[i];
    assert values[|before|] == last;
  }

  lemma NoTokenInNothing()
    ensures !HasUpgradeToken("")
  {
    assert Split("", ',') == [""];
    assert Trim("") == "" && |Lower("")| != |Lower("upgrade")|;
  }

  lemma TokensConcat(f: string, g: string)
    ensures HasUpgradeToken(f + [','] + g) <==> HasUpgradeToken(f) || HasUpgradeToken(g)
  {
    SplitSeparated(f, g, ',');
  }

  /** Whitespace after the comma belongs to the first token, where trimming removes it. */
  lemma LeadingSpaceIsIgnored(spaces: string, line: string)
    requires forall i | 0 <= i < |spaces| :: spaces[i] == ' ' || spaces[i] == '\t'
    ensures HasUpgradeToken(spaces + line) <==> HasUpgradeToken(line)
  {
    hide IsUpgradeToken, HasUpgradeToken;
    var n, padded := IndexOf(line, ','), spaces + line;
    IndexOfIs(padded, ',', |spaces| + n);
    TokensFromFirst(padded);
    TokensFromFirst(line);
    TokenSkipsSpaces(spaces, line[..n]);
    assert padded[..|spaces| + n] == spaces + line[..n];
    if n < |line| {
      assert padded[|spaces| + n + 1..] == line[n + 1..];
    }
  }

  lemma TokensFromFirst(line: string)
    ensures var n := IndexOf(line, ',');
            HasUpgradeToken(line)
            <==> IsUpgradeToken(line[..n]) || (n < |line| && HasUpgradeToken(line[n + 1..]))
  {
    hide IsUpgradeToken;
    assert IndexOf(line, ',') == |line| ==> line[..|line|] == line;
  }

  lemma TokenSkipsSpaces(spaces: string, s: string)
    requires forall i | 0 <= i < |spaces| :: IsSpace(spaces[i])
    ensures IsUpgradeToken(spaces + s) == IsUpgradeToken(s)
  {
    TrimStartSkips(spaces, s);
  }

  // ----- What counts as an upgrade, letter by letter -----

  /** A value decodes when its bytes are tabs and the characters from space to tilde; it then reads as they do. */
  lemma DecodedReadsAsBytes(value: seq<Byte>)
    ensures Decode(value).Some?
       <==> forall i | 0 <= i < |value| :: value[i] == '\t' as int || ' ' as int <= value[i] <= '~' as int
    ensures Decode(value).Some? ==>
              var text := Decode(value).value;
              |text| == |value| && forall i | 0 <= i < |value| :: text[i] as int == value[i]
  {
  }

  /** The word, in some mixture of cases. */
  predicate SpellsUpgrade(word: string) {
    |word| == 7 && forall i | 0 <= i < 7 :: word[i] in ["upgrade"[i], "UPGRADE"[i]]
  }

  /** The word stands at `at`, with nothing but whitespace around it. */
  predicate IsWordAt(token: string, at: int) {
    && 0 <= at && at + 7 <= |token|
    && AllSpace(token[..at]) && SpellsUpgrade(token[at..at + 7]) && AllSpace(token[at + 7..])
  }

  /** From `lo` to `hi` the line holds the word and whitespace, between commas or the ends of the line. */
  predicate ListsAt(line: string, lo: int, hi: int, at: int) {
    && 0 <= lo <= hi <= |line| && IsWordAt(line[lo..hi], at)
    && (lo == 0 || line[lo - 1] == ',') && (hi == |line| || line[hi] == ',')
  }

  lemma SpellingIgnoresCase(word: string)
    ensures EqualsIgnoringCase(word, "upgrade") <==> SpellsUpgrade(word)
    ensures SpellsUpgrade(word) ==> forall i | 0 <= i < 7 :: !IsSpace(word[i]) && word[i] != ','
  {
    hide EqualsIgnoringCase, SameLetter;
    EqualsLetterByLetter(word, "upgrade");
    forall i | 0 <= i < 7 && |word| == 7
      ensures SameLetter(word[i], "upgrade"[i]) <==> word[i] in ["upgrade"[i], "UPGRADE"[i]]
    {
      LetterOfUpgrade(word[i], i);
    }
  }

  lemma LetterOfUpgrade(c: char, i: nat)
    requires i < 7
    ensures SameLetter(c, "upgrade"[i]) <==> c in ["upgrade"[i], "UPGRADE"[i]]
  {
    hide SameLetter;
    SameWhenLowered(c, "upgrade"[i]);
  }

  lemma TokenIsWord(token: string)
    ensures IsUpgradeToken(token) <==> exists at :: IsWordAt(token, at)
  {
    hide EqualsIgnoringCase, SpellsUpgrade, Trim;
    if IsUpgradeToken(token) {
      var head, tail := TrimSplitsText(token);
      SpellingIgnoresCase(Trim(token));
      assert |Trim(token)| == 7 by { SpellingHasSeven(Trim(token)); }
      var at := |head|;
      assert token[..at] == head && token[at..at + 7] == Trim(token) && token[at + 7..] == tail;
      assert IsWordAt(token, at);
    }
    if at :| IsWordAt(token, at) {
      var word := token[at..at + 7];
      SpellingIgnoresCase(word);
      assert token == token[..at] + word + token[at + 7..];
      TrimRemovesSpaces(token[..at], word, token[at + 7..]);
    }
  }

  lemma SpellingHasSeven(word: string)
    requires SpellsUpgrade(word)
    ensures |word| == 7
  {
  }

  /**
   A line lists the token exactly when, between two commas or ends of the line, it holds the word upgrade in
   some mixture of cases and otherwise only whitespace.
   */
  lemma {:induction false} UpgradeIsListedExactly(line: string)
    ensures HasUpgradeToken(line) <==> exists lo, hi, at :: ListsAt(line, lo, hi, at)
    decreases |line|
  {
    hide HasUpgradeToken, IsUpgradeToken, IsWordAt, ListsAt, IndexOf;
    var n := IndexOf(line, ',');
    TokensFromFirst(line);
    TokenIsWord(line[..n]);
    var first := line[..n];
    if n < |line| {
      var rest := line[n + 1..];
      UpgradeIsListedExactly(rest);
      if lo, hi, at :| ListsAt(rest, lo, hi, at) { ListedAfterComma(line, n, lo, hi, at); }
    }
    if at :| IsWordAt(first, at) { ListedFirst(line, n, at); }
    if lo, hi, at :| ListsAt(line, lo, hi, at) { ListedFirstOrAfter(line, lo, hi, at); }
  }

  lemma ListedFirst(line: string, n: nat, at: int)
    requires n <= |line| && (n < |line| ==> line[n] == ',') && IsWordAt(line[..n], at)
    ensures ListsAt(line, 0, n, at)
  {
    hide IsWordAt;
    assert line[0..n] == line[..n];
  }

  lemma ListedAfterComma(line: string, n: nat, lo: int, hi: int, at: int)
    requires n < |line| && line[n] == ',' && ListsAt(line[n + 1..], lo, hi, at)
    ensures ListsAt(line, lo + n + 1, hi + n + 1, at)
  {
    hide IsWordAt;
    assert line[lo + n + 1..hi + n + 1] == line[n + 1..][lo..hi];
  }

  lemma ListedFirstOrAfter(line: string, lo: int, hi: int, at: int)
    requires ListsAt(line, lo, hi, at)
    ensures var n := IndexOf(line, ',');
            if lo == 0 then IsWordAt(line[..n], at)
            else n < |line| && ListsAt(line[n + 1..], lo - n - 1, hi - n - 1, at)
  {
    hide IsWordAt, IndexOf;
    var n := IndexOf(line, ',');
    WordHasNoComma(line[lo..hi], at);
    assert forall i | lo <= i < hi :: line[i] == line[lo..hi][i - lo];
    if lo == 0 {
      assert hi == n && line[0..n] == line[..n];
    } else {
      assert line[n + 1..][lo - n - 1..hi - n - 1] == line[lo..hi];
    }
  }

  lemma WordHasNoComma(token: string, at: int)
    requires IsWordAt(token, at)
    ensures ',' !in token
  {
    hide SpellsUpgrade;
    var word := token[at..at + 7];
    SpellingIgnoresCase(word);
    forall i | 0 <= i < |token| ensures token[i] != ',' {
      if i < at { assert token[..at][i] == token[i]; }
      else if i < at + 7 { assert word[i - at] == token[i]; }
      else { assert token[at + 7..][i - at - 7] == token[i]; }
    }
  }

  /** A request asks for an upgrade exactly when it has the header and a Connection line of text spells the token. */
  lemma UpgradeRequestIsSpelled(hasUpgradeHeader: bool, values: seq<seq<Byte>>)
    ensures IsUpgradeRequest(hasUpgradeHeader, values)
       <==> hasUpgradeHeader
            && exists i, lo, hi, at ::
                 0 <= i < |values| && Decode(values[i]).Some? && ListsAt(Decode(values[i]).value, lo, hi, at)
  {
    hide HasUpgradeToken, ListsAt, Decode;
    forall i | 0 <= i < |values| && Decode(values[i]).Some? {
      UpgradeIsListedExactly(Decode(values[i]).value);
    }
  }
}
