/** The filter language of the event table. */
module Filter {
  import opened Core
  import opened Text
  import opened Domain

  datatype FilterKey = ByProcess | ByHost | ByMethod | ByStatus | ByProtocol | ByIp | ByPort | ByJa4 | NoSuchKey

  function KeyNamed(name: string): FilterKey {
    if name == "process" then ByProcess
    else if name == "host" then ByHost
    else if name == "method" then ByMethod
    else if name == "status" then ByStatus
    else if name == "protocol" then ByProtocol
    else if name == "ip" then ByIp
    else if name == "port" then ByPort
    else if name == "ja4" then ByJa4
    else NoSuchKey
  }

  datatype Verdict = Valid | UnknownFilter(key: string) | NotANumber(key: string, value: string)

  function ValidateToken(token: string): Verdict {
    match SplitOnce(token, ':')
    case None => Valid
    case Some((key, value)) =>
      var known := KeyNamed(Lower(key));
      if known == NoSuchKey then UnknownFilter(key)
      else if (known == ByStatus || known == ByPort) && ParseU16(value).None? then NotANumber(key, value)
      else Valid
  }

  /** The verdict on the first token that has a fault. */
  function ValidateTokens(tokens: seq<string>): Verdict {
    if tokens == [] then Valid
    else if ValidateToken(tokens[0]).Valid? then ValidateTokens(tokens[1..])
    else ValidateToken(tokens[0])
  }

  function ValidateFilter(filter: string): Verdict {
    ValidateTokens(SplitWhitespace(filter))
  }

  predicate MatchesKey(row: Row, key: FilterKey, value: string) {
    match key
    case ByProcess => Contains(Lower(row.process), value)
    case ByHost => Contains(Lower(row.host), value)
    case ByMethod => Lower(row.method_) == value
    case ByStatus => row.status.Some? && Decimal(row.status.value) == value
    case ByProtocol => Contains(Lower(Label(row.kind)), value)
    case ByIp => Contains(row.local, value) || Contains(row.remote, value)
    case ByPort => EndsWith(row.local, ":" + value) || EndsWith(row.remote, ":" + value)
    case ByJa4 => row.ja4.Some? && Contains(row.ja4.value, value)
    case NoSuchKey => false
  }

  predicate MatchesToken(row: Row, token: string) {
    match SplitOnce(Lower(token), ':')
    case None => Contains(SearchText(row), Lower(token))
    case Some((key, value)) => MatchesKey(row, KeyNamed(key), value)
  }

  predicate MatchesFilter(row: Row, filter: string) {
    Trim(filter) == [] || forall token | token in SplitWhitespace(filter) :: MatchesToken(row, token)
  }

  // ----- The visible rows -----

  datatype ProcessTab = Applications | Processes

  /** Everything but the filter that decides which rows are shown. */
  datatype View = View(
    events: seq<Row>, processes: seq<Process>, selectedPid: Option<u32>, processTab: ProcessTab,
    httpsOnly: bool, showJa4Differences: bool)

  function FindProcess(processes: seq<Process>, pid: u32): Option<Process> {
    if processes == [] then None
    else if processes[0].pid == pid then Some(processes[0])
    else FindProcess(processes[1..], pid)
  }

  predicate MatchesSelectedProcess(view: View, row: Row) {
    view.selectedPid.None? ||
    (var pid := view.selectedPid.value;
     row.pid == Some(pid) ||
     (view.processTab == Applications &&
      (var process := FindProcess(view.processes, pid);
       process.Some? && EqualsIgnoringCase(row.process, process.value.name))))
  }

  predicate Shows(view: View, filter: string, row: Row) {
    && MatchesSelectedProcess(view, row)
    && (!view.httpsOnly || row.kind == Https)
    && (view.showJa4Differences || !row.ja4Outlier)
    && MatchesFilter(row, filter)
  }

  /** The indices below `n` of the rows that pass every test, in order. */
  function PassingIndices(view: View, filter: string, n: nat): seq<nat>
    requires n <= |view.events|
  {
    if n == 0 then []
    else PassingIndices(view, filter, n - 1) + if Shows(view, filter, view.events[n - 1]) then [n - 1] else []
  }

  function VisibleEventIndices(view: View, filter: string): seq<nat> {
    if !ValidateFilter(filter).Valid? then [] else PassingIndices(view, filter, |view.events|)
  }

  // ----- Laws -----

  /** Joining two filters by a space conjoins them: the verdict is the first fault, a match needs both. */
  lemma JoinedFiltersConjoin(row: Row, f: string, g: string)
    ensures ValidateFilter(f + " " + g) == if ValidateFilter(f).Valid? then ValidateFilter(g) else ValidateFilter(f)
    ensures MatchesFilter(row, f + " " + g) <==> MatchesFilter(row, f) && MatchesFilter(row, g)
  {
    SplitJoined(f, ' ', g);
    assert f + " " + g == f + [' '] + g;
    ValidateConcat(SplitWhitespace(f), SplitWhitespace(g));
    TrimIsRedundant(row, f);
    TrimIsRedundant(row, g);
    TrimIsRedundant(row, f + " " + g);
  }

  /** The early exit for a blank filter agrees with the general rule. */
  lemma TrimIsRedundant(row: Row, filter: string)
    ensures MatchesFilter(row, filter) <==> forall token | token in SplitWhitespace(filter) :: MatchesToken(row, token)
  {
    if Trim(filter) == [] { BlankHasNoWords(filter); }
  }

  lemma {:induction false} ValidateConcat(xs: seq<string>, ys: seq<string>)
    ensures ValidateTokens(xs + ys) == if ValidateTokens(xs).Valid? then ValidateTokens(ys) else ValidateTokens(xs)
  {
    if xs == [] {
      assert xs + ys == ys;
    } else {
      assert (xs + ys)[1..] == xs[1..] + ys;
      ValidateConcat(xs[1..], ys);
    }
  }

  /** Process `i` is the first one listed with this pid. */
  predicate IsFirstListed(processes: seq<Process>, pid: u32, i: int) {
    0 <= i < |processes| && processes[i].pid == pid && forall j | 0 <= j < i :: processes[j].pid != pid
  }

  lemma {:induction false} FindProcessIsFirst(processes: seq<Process>, pid: u32)
    ensures FindProcess(processes, pid).Some? <==> exists i :: IsFirstListed(processes, pid, i)
    ensures forall i | IsFirstListed(processes, pid, i) :: FindProcess(processes, pid) == Some(processes[i])
  {
    if processes != [] {
      FindProcessIsFirst(processes[1..], pid);
      assert forall i | 1 <= i < |processes| :: processes[i] == processes[1..][i - 1];
      if processes[0].pid == pid {
        assert IsFirstListed(processes, pid, 0);
      } else {
        forall i ensures IsFirstListed(processes, pid, i) <==> IsFirstListed(processes[1..], pid, i - 1) {}
        if i :| IsFirstListed(processes[1..], pid, i) { assert IsFirstListed(processes, pid, i + 1); }
      }
    }
  }

  /**
   The row belongs to the selection: nothing is selected, it has the selected pid, or on the Applications tab
   it has the name, in any case, of the process listed first under that pid.
   */
  ghost predicate IsSelected(row: Row, selectedPid: Option<u32>, processTab: ProcessTab, processes: seq<Process>) {
    selectedPid.Some? && row.pid != selectedPid ==>
      && processTab == Applications
      && exists i :: IsFirstListed(processes, selectedPid.value, i)
                     && EqualsIgnoringCase(row.process, processes[i].name)
  }

  /**
   The visible indices are strictly increasing, and are exactly those of the selected rows that match a valid
   filter, are decoded HTTPS if only that is wanted, and are no outliers if those are hidden.
   */
  lemma VisibleIsExact(view: View, filter: string)
    ensures var visible := VisibleEventIndices(view, filter);
            && (forall i, j | 0 <= i < j < |visible| :: visible[i] < visible[j])
            && (forall n: nat :: n in visible <==>
                  && n < |view.events| && ValidateFilter(filter).Valid? && MatchesFilter(view.events[n], filter)
                  && IsSelected(view.events[n], view.selectedPid, view.processTab, view.processes)
                  && (view.httpsOnly ==> view.events[n].kind == Https)
                  && (view.events[n].ja4Outlier ==> view.showJa4Differences))
  {
    hide MatchesSelectedProcess, IsSelected;
    PassingIsExact(view, filter, |view.events|);
    forall n: nat | n < |view.events| { SelectionIsExact(view, view.events[n]); }
  }

  lemma SelectionIsExact(view: View, row: Row)
    ensures MatchesSelectedProcess(view, row) <==> IsSelected(row, view.selectedPid, view.processTab, view.processes)
  {
    hide EqualsIgnoringCase;
    if view.selectedPid.Some? { FindProcessIsFirst(view.processes, view.selectedPid.value); }
  }

  lemma {:induction false} PassingIsExact(view: View, filter: string, n: nat)
    requires n <= |view.events|
    ensures var passing := PassingIndices(view, filter, n);
            && (forall i, j | 0 <= i < j < |passing| :: passing[i] < passing[j])
            && (forall m: nat :: m in passing <==> m < n && Shows(view, filter, view.events[m]))
  {
    hide Shows;
    if n > 0 {
      PassingIsExact(view, filter, n - 1);
      if Shows(view, filter, view.events[n - 1]) { AppendedIndex(PassingIndices(view, filter, n - 1), n - 1); }
    }
  }

  /** A larger index behind increasing ones keeps them increasing and adds itself alone. */
  lemma AppendedIndex(indices: seq<nat>, n: nat)
    requires forall i, j | 0 <= i < j < |indices| :: indices[i] < indices[j]
    requires forall m | m in indices :: m < n
    ensures forall i, j | 0 <= i < j < |indices| + 1 :: (indices + [n])[i] < (indices + [n])[j]
    ensures forall m: nat :: m in indices + [n] <==> m in indices || m == n
  {
    forall i | 0 <= i < |indices| ensures indices[i] < n { assert indices[i] in indices; }
  }

  /** Joined filters show exactly the rows that both show. */
  lemma JoinedFiltersIntersect(view: View, f: string, g: string)
    ensures (set n | n in VisibleEventIndices(view, f + " " + g))
         == (set n | n in VisibleEventIndices(view, f)) * (set n | n in VisibleEventIndices(view, g))
  {
    VisibleIsExact(view, f + " " + g);
    VisibleIsExact(view, f);
    VisibleIsExact(view, g);
    forall row { JoinedFiltersConjoin(row, f, g); }
  }

  /** A token is in order when its key is known and a numeric value parses. */
  predicate IsOrderly(token: string) {
    match SplitOnce(token, ':')
    case None => true
    case Some((key, value)) =>
      && Lower(key) in ["process", "host", "method", "status", "protocol", "ip", "port", "ja4"]
      && (Lower(key) in ["status", "port"] ==> ParseU16(value).Some?)
  }

  lemma KeysAreKnown(name: string)
    ensures KeyNamed(name) != NoSuchKey
       <==> name in ["process", "host", "method", "status", "protocol", "ip", "port", "ja4"]
    ensures KeyNamed(name) in {ByStatus, ByPort} <==> name in ["status", "port"]
  {
  }

  /**
   A filter is valid exactly when every token is in order, so matching a validated filter never falls
   through to the unknown-key branch.
   */
  lemma ValidatedKeysAreKnown(filter: string)
    ensures ValidateFilter(filter).Valid? <==> forall token | token in SplitWhitespace(filter) :: IsOrderly(token)
    ensures ValidateFilter(filter).Valid? ==>
              forall token | token in SplitWhitespace(filter) && SplitOnce(Lower(token), ':').Some? ::
                KeyNamed(SplitOnce(Lower(token), ':').value.0) != NoSuchKey
  {
    hide ValidateTokens, SplitWhitespace, ParseU16, SplitOnce, KeyNamed;
    ValidMeansOrderly(SplitWhitespace(filter));
    forall token | token in SplitWhitespace(filter) && SplitOnce(Lower(token), ':').Some? && IsOrderly(token)
      ensures KeyNamed(SplitOnce(Lower(token), ':').value.0) != NoSuchKey
    {
      SplitOnceLowered(token);
      KeysAreKnown(Lower(SplitOnce(token, ':').value.0));
    }
  }

  lemma {:induction false} ValidMeansOrderly(tokens: seq<string>)
    ensures ValidateTokens(tokens).Valid? <==> forall token | token in tokens :: IsOrderly(token)
  {
    if tokens != [] {
      ValidMeansOrderly(tokens[1..]);
      OrderlyTokenIsValid(tokens[0]);
      assert tokens == [tokens[0]] + tokens[1..];
    }
  }

  lemma OrderlyTokenIsValid(token: string)
    ensures IsOrderly(token) <==> ValidateToken(token).Valid?
  {
    hide SplitOnce, ParseU16, KeyNamed;
    if SplitOnce(token, ':').Some? { KeysAreKnown(Lower(SplitOnce(token, ':').value.0)); }
  }

  /** Filters that differ only in case validate and match alike. */
  lemma FilterIgnoresCase(row: Row, f: string, g: string)
    requires EqualsIgnoringCase(f, g)
    ensures MatchesFilter(row, f) <==> MatchesFilter(row, g)
    ensures ValidateFilter(f).Valid? <==> ValidateFilter(g).Valid?
  {
    hide MatchesToken, IsOrderly, MatchesFilter, ValidateFilter;
    TrimIsRedundant(row, f);
    TrimIsRedundant(row, g);
    ValidatedKeysAreKnown(f);
    ValidatedKeysAreKnown(g);
    SplitLowered(f);
    SplitLowered(g);
    var fs, gs := SplitWhitespace(f), SplitWhitespace(g);
    assert |fs| == |gs|;
    forall i | 0 <= i < |fs|
      ensures MatchesToken(row, fs[i]) == MatchesToken(row, gs[i]) && IsOrderly(fs[i]) == IsOrderly(gs[i])
    {
      TokenIgnoresCase(row, fs[i], gs[i]);
    }
  }

  lemma TokenIgnoresCase(row: Row, a: string, b: string)
    requires Lower(a) == Lower(b)
    ensures MatchesToken(row, a) == MatchesToken(row, b)
    ensures IsOrderly(a) == IsOrderly(b)
  {
    OrderIgnoresCase(a, b);
  }

  lemma OrderIgnoresCase(a: string, b: string)
    requires Lower(a) == Lower(b)
    ensures IsOrderly(a) == IsOrderly(b)
  {
    SplitOnceLowered(a);
    SplitOnceLowered(b);
    if SplitOnce(a, ':').Some? {
      ParseIgnoresCase(SplitOnce(a, ':').value.1);
      ParseIgnoresCase(SplitOnce(b, ':').value.1);
    }
  }

  lemma ParseIgnoresCase(s: string)
    ensures ParseU16(Lower(s)) == ParseU16(s)
  {
    if AreDigits(s) || AreDigits(Lower(s)) { assert Lower(s) == s; }
    if s != [] && s[0] == '+' && (AreDigits(s[1..]) || AreDigits(Lower(s)[1..])) {
      assert Lower(s)[1..] == s[1..];
    }
  }

  // ----- One key and one value -----

  predicate HasNoSpace(text: string) {
    forall i | 0 <= i < |text| :: !IsSpace(text[i])
  }

  /**
   A filter of one known key and a value without whitespace is one token, and matching lowercases the value
   before it is compared with the field.
   */
  lemma KeyFilterIsExact(row: Row, name: string, value: string)
    requires forall i | 0 <= i < |name| :: 'a' <= name[i] <= 'z' || '0' <= name[i] <= '9'
    requires KeyNamed(name) != NoSuchKey && HasNoSpace(value)
    ensures MatchesFilter(row, name + ":" + value) <==> MatchesKey(row, KeyNamed(name), Lower(value))
    ensures ValidateFilter(name + ":" + value).Valid?
       <==> (KeyNamed(name) in {ByStatus, ByPort} ==> ParseU16(value).Some?)
  {
    hide KeyNamed, MatchesKey, ParseU16, MatchesFilter, ValidateFilter;
    var token := name + ":" + value;
    SplitSingle(token);
    TrimIsRedundant(row, token);
    assert Lower(name) == name;
    IndexOfIs(token, ':', |name|);
    assert token[..|name|] == name && token[|name| + 1..] == value;
    assert SplitOnce(token, ':') == Some((name, value));
    SplitOnceLowered(token);
    ValidatedKeysAreKnown(token);
    KeysAreKnown(name);
  }

  /**
   The verdict on a filter of one key and one value names the fault: an unknown key as it was typed, or the
   value of a numeric key that is no number.
   */
  lemma FaultIsNamed(key: string, value: string)
    requires HasNoSpace(key) && HasNoSpace(value) && ':' !in key
    ensures ValidateFilter(key + ":" + value)
         == if Lower(key) !in ["process", "host", "method", "status", "protocol", "ip", "port", "ja4"]
            then UnknownFilter(key)
            else if Lower(key) in ["status", "port"] && ParseU16(value).None? then NotANumber(key, value)
            else Valid
  {
    hide KeyNamed, ParseU16, SplitOnce;
    var token := key + ":" + value;
    SplitSingle(token);
    assert token == key + [':'] + value;
    SplitOnceAtFirst(key, ':', value);
    KeysAreKnown(Lower(key));
    assert ValidateTokens([token]) == ValidateToken(token);
  }

  /** A filter of nothing but whitespace is valid and matches every row. */
  lemma BlankFilterMatchesAll(row: Row, filter: string)
    requires AllSpace(filter)
    ensures ValidateFilter(filter).Valid? && MatchesFilter(row, filter)
  {
    hide MatchesToken, ValidateToken;
    TrimRemovesSpaces(filter, [], []);
    assert filter + [] + [] == filter;
    BlankHasNoWords(filter);
  }

  // ----- Free text and parts of fields -----

  /** The texts that a word without a colon is searched in. */
  function FieldsOf(row: Row): seq<string> {
    [row.process, row.method_, row.host, row.path,
     if row.status.Some? then Decimal(row.status.value) else "---",
     Label(row.kind), row.local, row.remote, if row.ja4.Some? then row.ja4.value else ""]
  }

  /** A word without a colon matches exactly the rows one of whose fields contains it, whatever the case. */
  lemma FreeTextIsExact(row: Row, word: string)
    requires word != "" && HasNoSpace(word) && ':' !in word
    ensures ValidateFilter(word).Valid?
    ensures MatchesFilter(row, word)
       <==> exists field | field in FieldsOf(row) :: Contains(Lower(field), Lower(word))
  {
    hide Contains, SearchText, FieldsOf;
    SplitSingle(word);
    TrimIsRedundant(row, word);
    SplitOnceAtFirst(word, ':', []);
    SplitOnceLowered(word);
    assert ValidateTokens([word]) == ValidateToken(word);
    SearchTextJoins(row);
    assert forall i | 0 <= i < |word| :: Lower(word)[i] != ' ';
    JoinedContains(FieldsOf(row), Lower(word));
    assert MatchesFilter(row, word) <==> MatchesToken(row, word) by { assert [word][0] == word; }
  }

  /** The fields with a space between any two. */
  function Joined(fields: seq<string>): string {
    if fields == [] then ""
    else if |fields| == 1 then fields[0]
    else Joined(fields[..|fields| - 1]) + " " + fields[|fields| - 1]
  }

  lemma SearchTextJoins(row: Row)
    ensures SearchText(row) == Lower(Joined(FieldsOf(row))) && FieldsOf(row) != []
  {
    hide Lower, Decimal, Label;
    var f := FieldsOf(row);
    assert f[..9] == f && Joined(f[..1]) == f[0];
    assert Joined(f[..2]) == Joined(f[..1]) + " " + f[1] by { assert f[..2][..1] == f[..1]; }
    assert Joined(f[..3]) == Joined(f[..2]) + " " + f[2] by { assert f[..3][..2] == f[..2]; }
    assert Joined(f[..4]) == Joined(f[..3]) + " " + f[3] by { assert f[..4][..3] == f[..3]; }
    assert Joined(f[..5]) == Joined(f[..4]) + " " + f[4] by { assert f[..5][..4] == f[..4]; }
    assert Joined(f[..6]) == Joined(f[..5]) + " " + f[5] by { assert f[..6][..5] == f[..5]; }
    assert Joined(f[..7]) == Joined(f[..6]) + " " + f[6] by { assert f[..7][..6] == f[..6]; }
    assert Joined(f[..8]) == Joined(f[..7]) + " " + f[7] by { assert f[..8][..7] == f[..7]; }
    assert Joined(f[..9]) == Joined(f[..8]) + " " + f[8] by { assert f[..9][..8] == f[..8]; }
  }

  lemma {:induction false} JoinedContains(fields: seq<string>, word: string)
    requires fields != [] && ' ' !in word
    ensures Contains(Lower(Joined(fields)), word) <==> exists field | field in fields :: Contains(Lower(field), word)
  {
    hide Contains, Lower;
    var n := |fields| - 1;
    assert fields == fields[..n] + [fields[n]];
    if n > 0 {
      JoinedContains(fields[..n], word);
      LowerConcat(Joined(fields[..n]) + " ", fields[n]);
      LowerConcat(Joined(fields[..n]), " ");
      assert Lower(" ") == " " by { LowerSpace(); }
      ContainsAcrossSpace(Lower(Joined(fields[..n])), Lower(fields[n]), word);
    }
  }

  lemma LowerSpace()
    ensures Lower(" ") == " "
  {
  }

  lemma LowerConcat(a: string, b: string)
    ensures Lower(a + b) == Lower(a) + Lower(b)
  {
  }

  lemma ContainsAcrossSpace(a: string, b: string, word: string)
    requires ' ' !in word
    ensures Contains(a + " " + b, word) <==> Contains(a, word) || Contains(b, word)
  {
    hide Contains;
    var s := a + " " + b;
    assert s == [] + a + (" " + b) && s == a + " " + b + [];
    if Contains(a, word) { PartStaysPart([], a, " " + b, word); }
    if Contains(b, word) { PartStaysPart(a + " ", b, [], word); }
    if Contains(s, word) {
      FoundIsPart(s, word);
      var head, tail :| s == head + word + tail;
      WordLiesOnOneSide(a, b, head, word, tail);
    }
  }

  /** A word without a space that is found in two texts with a space between them is found in one of them. */
  lemma WordLiesOnOneSide(a: string, b: string, head: string, word: string, tail: string)
    requires a + " " + b == head + word + tail && ' ' !in word
    ensures Contains(a, word) || Contains(b, word)
  {
    hide Contains;
    var s := a + " " + b;
    assert s == head + word + tail && s[|a|] == ' ';
    forall k | |head| <= k < |head| + |word| ensures s[k] != ' ' { assert s[k] == word[k - |head|]; }
    if |head| + |word| <= |a| {
      var rest := a[|head| + |word|..];
      assert a == s[..|a|] && s[..|head| + |word|] == head + word;
      assert a == head + word + rest;
      PartsAreFound(head, word, rest);
    } else if |head| > |a| {
      var rest := head[|a| + 1..];
      assert b == s[|a| + 1..] && s[|a| + 1..] == rest + word + tail;
      PartsAreFound(rest, word, tail);
    }
  }

  lemma PartStaysPart(head: string, s: string, tail: string, word: string)
    requires Contains(s, word)
    ensures Contains(head + s + tail, word)
  {
    hide Contains;
    FoundIsPart(s, word);
    var a, b :| s == a + word + b;
    assert head + s + tail == (head + a) + word + (b + tail);
    PartsAreFound(head + a, word, b + tail);
  }

  /** Any part of its host or process, in any case, finds a row by its key; so does any lower-case part of an end. */
  lemma PartOfFieldFinds(row: Row, a: string, part: string, b: string)
    requires HasNoSpace(part)
    ensures row.host == a + part + b ==> MatchesFilter(row, "host:" + part)
    ensures row.process == a + part + b ==> MatchesFilter(row, "process:" + part)
    ensures a + part + b in [row.local, row.remote] && Lower(part) == part ==> MatchesFilter(row, "ip:" + part)
  {
    hide Contains, MatchesFilter, ValidateFilter, Lower;
    var whole := a + part + b;
    LowerConcat(a + part, b);
    LowerConcat(a, part);
    PartsAreFound(Lower(a), Lower(part), Lower(b));
    PartsAreFound(a, part, b);
    TextFilterIsExact(row, "host", part);
    TextFilterIsExact(row, "process", part);
    TextFilterIsExact(row, "ip", part);
    assert "host" + ":" + part == "host:" + part && "process" + ":" + part == "process:" + part;
    assert "ip" + ":" + part == "ip:" + part;
  }

  // ----- Port and status filters -----

  /** The value of a numeric filter holds digits and at most a plus sign. */
  lemma NumberText(value: string)
    requires ParseU16(value).Some?
    ensures forall i | 0 <= i < |value| :: '0' <= value[i] <= '9' || value[i] == '+'
  {
    if value[0] == '+' {
      assert forall i | 0 < i < |value| :: value[1..][i - 1] == value[i];
    }
  }

  /** A filter of one key and a number is one token with that key and value. */
  lemma NumberToken(row: Row, name: string, value: string)
    requires forall i | 0 <= i < |name| :: 'a' <= name[i] <= 'z'
    requires KeyNamed(name) != NoSuchKey && ParseU16(value).Some?
    ensures ValidateFilter(name + ":" + value).Valid?
    ensures MatchesFilter(row, name + ":" + value) <==> MatchesKey(row, KeyNamed(name), value)
  {
    hide KeyNamed, MatchesKey, ParseU16, MatchesFilter, ValidateFilter;
    NumberText(value);
    assert Lower(value) == value;
    KeyFilterIsExact(row, name, value);
  }

  /**
   A validated port filter shows a row exactly when its value is the canonical text of the local or the
   remote port, even when IPv6 text holds the same digits after a colon; and then it parses to that port.
   */
  lemma PortFilterIsExact(row: Row, local: SocketAddr, remote: SocketAddr, value: string)
    requires row.local == SocketText(local) && row.remote == SocketText(remote)
    requires ParseU16(value).Some?
    ensures ValidateFilter("port:" + value).Valid?
    ensures MatchesFilter(row, "port:" + value) <==> value == Decimal(local.port) || value == Decimal(remote.port)
    ensures MatchesFilter(row, "port:" + value) ==> ParseU16(value).value in {local.port, remote.port}
    ensures forall n: u16 | value == Decimal(n) ::
              MatchesFilter(row, "port:" + value) <==> n == local.port || n == remote.port
  {
    PortToken(row, value);
    hide MatchesFilter, ValidateFilter, SocketText, EndsWith, ParseU16, Decimal;
    NumberText(value);
    PortSuffix(local, value);
    PortSuffix(remote, value);
    ParseInvertsDecimal(local.port);
    ParseInvertsDecimal(remote.port);
    forall n: u16 { ParseInvertsDecimal(n); }
  }

  lemma PortToken(row: Row, value: string)
    requires ParseU16(value).Some?
    ensures ValidateFilter("port:" + value).Valid?
    ensures MatchesFilter(row, "port:" + value)
       <==> EndsWith(row.local, ":" + value) || EndsWith(row.remote, ":" + value)
  {
    hide KeyNamed, MatchesKey, MatchesFilter, ValidateFilter, EndsWith, ParseU16;
    NumericKeys(row, value);
    NumberToken(row, "port", value);
    assert "port" + ":" + value == "port:" + value;
  }

  lemma NumericKeys(row: Row, value: string)
    ensures KeyNamed("port") == ByPort && KeyNamed("status") == ByStatus
    ensures MatchesKey(row, ByPort, value) <==> EndsWith(row.local, ":" + value) || EndsWith(row.remote, ":" + value)
    ensures MatchesKey(row, ByStatus, value) <==> row.status.Some? && Decimal(row.status.value) == value
  {
    hide EndsWith, Decimal;
  }

  lemma PortSuffix(address: SocketAddr, value: string)
    requires forall i | 0 <= i < |value| :: value[i] != ':'
    ensures EndsWith(SocketText(address), ":" + value) <==> value == Decimal(address.port)
  {
    SuffixAfterColon(SocketText(address), Host(address.ip), Decimal(address.port), value);
  }

  /** A validated status filter shows a row exactly when its value is the canonical text of the status. */
  lemma StatusFilterIsExact(row: Row, value: string)
    requires ParseU16(value).Some?
    ensures ValidateFilter("status:" + value).Valid?
    ensures MatchesFilter(row, "status:" + value) <==> row.status.Some? && value == Decimal(row.status.value)
    ensures MatchesFilter(row, "status:" + value) ==> ParseU16(value) == row.status
    ensures forall n: u16 | value == Decimal(n) :: MatchesFilter(row, "status:" + value) <==> row.status == Some(n)
  {
    StatusToken(row, value);
    hide MatchesFilter, ValidateFilter, ParseU16, Decimal;
    forall n: u16 { ParseInvertsDecimal(n); }
  }

  lemma StatusToken(row: Row, value: string)
    requires ParseU16(value).Some?
    ensures ValidateFilter("status:" + value).Valid?
    ensures MatchesFilter(row, "status:" + value) <==> row.status.Some? && Decimal(row.status.value) == value
  {
    hide KeyNamed, MatchesKey, MatchesFilter, ValidateFilter, Decimal, ParseU16;
    NumericKeys(row, value);
    NumberToken(row, "status", value);
    assert "status" + ":" + value == "status:" + value;
  }

  // ----- Addresses and own fields -----

  /** IPv4 text holds digits and dots only. */
  predicate IsCanonical(ip: IpAddr) {
    ip.V4? ==> forall i | 0 <= i < |ip.text| :: '0' <= ip.text[i] <= '9' || ip.text[i] == '.'
  }

  /** The address text on a row names one socket address. */
  lemma SocketTextIsInjective(a: SocketAddr, b: SocketAddr)
    requires IsCanonical(a.ip) && IsCanonical(b.ip)
    requires SocketText(a) == SocketText(b)
    ensures a == b
  {
    SameTextSamePort(a, b);
    var tail := ":" + Decimal(a.port);
    assert SocketText(a) == Host(a.ip) + tail && SocketText(b) == Host(b.ip) + tail;
    assert (Host(a.ip) + tail)[..|Host(a.ip)|] == Host(a.ip) && (Host(b.ip) + tail)[..|Host(b.ip)|] == Host(b.ip);
    assert Host(a.ip) == Host(b.ip);
    HostIsInjective(a.ip, b.ip);
  }

  function Host(ip: IpAddr): string {
    match ip
    case V4(text) => text
    case V6(text) => "[" + text + "]"
  }

  lemma HostIsInjective(a: IpAddr, b: IpAddr)
    requires IsCanonical(a) && IsCanonical(b) && Host(a) == Host(b)
    ensures a == b
  {
    assert a.V6? ==> Host(a)[0] == '[' && Host(a)[1..|Host(a)| - 1] == a.text;
    assert b.V6? ==> Host(b)[0] == '[' && Host(b)[1..|Host(b)| - 1] == b.text;
  }

  lemma SameTextSamePort(a: SocketAddr, b: SocketAddr)
    requires SocketText(a) == SocketText(b)
    ensures a.port == b.port
  {
    hide SocketText, EndsWith, ParseU16;
    NumberTextOfPort(b.port);
    PortSuffix(a, Decimal(b.port));
    PortSuffix(b, Decimal(b.port));
    ParseInvertsDecimal(a.port);
    ParseInvertsDecimal(b.port);
  }

  lemma NumberTextOfPort(port: u16)
    ensures forall i | 0 <= i < |Decimal(port)| :: Decimal(port)[i] != ':'
  {
    assert AreDigits(Decimal(port));
  }

  /** The text keys of the filter language. */
  predicate IsTextKey(name: string) {
    name in ["process", "host", "method", "protocol", "ip", "ja4"]
  }

  /** Each text key is valid with any value, and compares the lowercased value with its own field. */
  lemma TextFilterIsExact(row: Row, name: string, value: string)
    requires IsTextKey(name) && HasNoSpace(value)
    ensures ValidateFilter(name + ":" + value).Valid?
    ensures MatchesFilter(row, name + ":" + value) <==>
              (name == "process" && Contains(Lower(row.process), Lower(value)))
              || (name == "host" && Contains(Lower(row.host), Lower(value)))
              || (name == "method" && Lower(row.method_) == Lower(value))
              || (name == "protocol" && Contains(Lower(Label(row.kind)), Lower(value)))
              || (name == "ip" && (Contains(row.local, Lower(value)) || Contains(row.remote, Lower(value))))
              || (name == "ja4" && row.ja4.Some? && Contains(row.ja4.value, Lower(value)))
  {
    hide Contains, MatchesFilter, ValidateFilter, Label;
    TextKeyIsKnown(name);
    KeyFilterIsExact(row, name, value);
  }

  lemma TextKeyIsKnown(name: string)
    requires IsTextKey(name)
    ensures KeyNamed(name) !in {NoSuchKey, ByStatus, ByPort}
    ensures forall i | 0 <= i < |name| :: 'a' <= name[i] <= 'z' || '0' <= name[i] <= '9'
  {
  }

  /**
   A row is always found by its own process, host and method.  Fingerprints and addresses are compared
   without folding the field's case, so a row is found by its own fingerprint exactly when that has no
   upper-case letter, and by its own address if that has none.
   */
  lemma RowMatchesOwnFields(row: Row)
    ensures HasNoSpace(row.process) ==> MatchesFilter(row, "process:" + row.process)
    ensures HasNoSpace(row.host) ==> MatchesFilter(row, "host:" + row.host)
    ensures HasNoSpace(row.method_) ==> MatchesFilter(row, "method:" + row.method_)
    ensures HasNoSpace(row.local) && Lower(row.local) == row.local ==> MatchesFilter(row, "ip:" + row.local)
    ensures HasNoSpace(row.remote) && Lower(row.remote) == row.remote ==> MatchesFilter(row, "ip:" + row.remote)
    ensures row.ja4.Some? && HasNoSpace(row.ja4.value) ==>
              (MatchesFilter(row, "ja4:" + row.ja4.value) <==> Lower(row.ja4.value) == row.ja4.value)
  {
    hide MatchesFilter, Contains;
    OwnText(row, "process", row.process);
    OwnText(row, "host", row.host);
    OwnText(row, "method", row.method_);
    OwnText(row, "ip", row.local);
    OwnText(row, "ip", row.remote);
    assert "process" + ":" + row.process == "process:" + row.process;
    assert "host" + ":" + row.host == "host:" + row.host;
    assert "method" + ":" + row.method_ == "method:" + row.method_;
    assert "ip" + ":" + row.local == "ip:" + row.local;
    assert "ip" + ":" + row.remote == "ip:" + row.remote;
    if row.ja4.Some? {
      OwnText(row, "ja4", row.ja4.value);
      assert "ja4" + ":" + row.ja4.value == "ja4:" + row.ja4.value;
    }
  }

  /** The own-field cases of the text filters. */
  lemma OwnText(row: Row, name: string, value: string)
    requires IsTextKey(name)
    ensures HasNoSpace(value) && ((name == "process" && value == row.process) || (name == "host" && value == row.host)
                                  || (name == "method" && value == row.method_))
            ==> MatchesFilter(row, name + ":" + value)
    ensures HasNoSpace(value) && name == "ip" && value in [row.local, row.remote] && Lower(value) == value
            ==> MatchesFilter(row, name + ":" + value)
    ensures HasNoSpace(value) && name == "ja4" && row.ja4 == Some(value)
            ==> (MatchesFilter(row, name + ":" + value) <==> Lower(value) == value)
  {
    hide MatchesFilter, Contains, IsTextKey;
    if HasNoSpace(value) { TextFilterIsExact(row, name, value); }
    ContainsOfSameLength(value, value);
    ContainsOfSameLength(value, Lower(value));
    ContainsOfSameLength(Lower(value), Lower(value));
  }

  lemma ContainsOfSameLength(s: string, t: string)
    requires |s| == |t|
    ensures Contains(s, t) <==> s == t
  {
    assert s[0..] == s;
    if i :| 0 <= i <= |s| && StartsWith(s[i..], t) {
      assert i == 0 && s[..|t|] == s;
    }
  }

  /** The last two characters of the first part come from the protocol name offered in the handshake. */
  const UPPER_CASE_FINGERPRINT: string := "t13d1516H2_8daaf6152771_02713d6af862"

  /** A fingerprint with an upper-case letter is not found by the valid filter that spells it out. */
  lemma UpperCaseFingerprintIsMissed(row: Row)
    requires row.ja4 == Some(UPPER_CASE_FINGERPRINT)
    ensures ValidateFilter("ja4:" + UPPER_CASE_FINGERPRINT).Valid?
    ensures !MatchesFilter(row, "ja4:" + UPPER_CASE_FINGERPRINT)
  {
    hide MatchesFilter, ValidateFilter, HasNoSpace, Lower;
    FingerprintHasUpperCase();
    MissedFingerprint(row, UPPER_CASE_FINGERPRINT);
  }

  lemma FingerprintHasUpperCase()
    ensures HasNoSpace(UPPER_CASE_FINGERPRINT) && Lower(UPPER_CASE_FINGERPRINT) != UPPER_CASE_FINGERPRINT
  {
    assert UPPER_CASE_FINGERPRINT[8] == 'H';
  }

  lemma MissedFingerprint(row: Row, ja4: string)
    requires row.ja4 == Some(ja4) && HasNoSpace(ja4) && Lower(ja4) != ja4
    ensures ValidateFilter("ja4:" + ja4).Valid? && !MatchesFilter(row, "ja4:" + ja4)
  {
    hide MatchesFilter, ValidateFilter, Contains;
    RowMatchesOwnFields(row);
    TextFilterIsExact(row, "ja4", ja4);
    assert "ja4" + ":" + ja4 == "ja4:" + ja4;
  }

  // ----- Which numbers are found -----

  /** A row with the port that a valid value parses to is shown exactly when the value is its canonical text. */
  lemma PortIsFoundByCanonicalText(row: Row, local: SocketAddr, remote: SocketAddr, value: string)
    requires row.local == SocketText(local) && row.remote == SocketText(remote)
    requires ParseU16(value).Some? && ParseU16(value).value in {local.port, remote.port}
    ensures MatchesFilter(row, "port:" + value) <==> value == Decimal(ParseU16(value).value)
  {
    hide MatchesFilter, SocketText, ParseU16, Decimal;
    PortFilterIsExact(row, local, remote, value);
    ParseInvertsDecimal(local.port);
    ParseInvertsDecimal(remote.port);
  }

  /** A row with the status that a valid value parses to is shown exactly when the value is its canonical text. */
  lemma StatusIsFoundByCanonicalText(row: Row, value: string)
    requires ParseU16(value).Some? && row.status == ParseU16(value)
    ensures MatchesFilter(row, "status:" + value) <==> value == Decimal(ParseU16(value).value)
  {
    hide MatchesFilter, ParseU16, Decimal;
    StatusFilterIsExact(row, value);
  }

  /** A plus sign makes a valid port filter miss a row of that very port. */
  lemma PlusSignMissesPort(row: Row, local: SocketAddr, remote: SocketAddr)
    requires row.local == SocketText(local) && row.remote == SocketText(remote) && remote.port == 443
    ensures ValidateFilter("port:+443").Valid? && !MatchesFilter(row, "port:+443")
  {
    hide MatchesFilter, ValidateFilter, SocketText;
    var value := "+443";
    DigitsOf443();
    assert value[1..] == "443" && ParseU16(value) == Some(443);
    PortFilterIsExact(row, local, remote, value);
    PortIsFoundByCanonicalText(row, local, remote, value);
    assert AreDigits(Decimal(443));
    assert "port:" + value == "port:+443";
  }

  lemma DigitsOf443()
    ensures AreDigits("443") && DigitsValue("443") == 443
  {
    assert "443"[..2] == "44" && "44"[..1] == "4" && "4"[..0] == "";
  }

  /** A leading zero makes a valid status filter miss a row of that very status. */
  lemma LeadingZeroMissesStatus(row: Row)
    requires row.status == Some(200)
    ensures ValidateFilter("status:0200").Valid? && !MatchesFilter(row, "status:0200")
  {
    hide MatchesFilter, ValidateFilter;
    var value := "0200";
    DigitsOf200();
    assert ParseU16(value) == Some(200);
    StatusFilterIsExact(row, value);
    StatusIsFoundByCanonicalText(row, value);
    assert "status:" + value == "status:0200";
  }

  lemma DigitsOf200()
    ensures AreDigits("0200") && DigitsValue("0200") == 200
    ensures |Decimal(200)| == 3
  {
    assert "0200"[..3] == "020" && "020"[..2] == "02" && "02"[..1] == "0" && "0"[..0] == "";
    assert |Decimal(2)| == 1 && |Decimal(20)| == 2;
  }
}
