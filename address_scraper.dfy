/**
 * `GetMongoServerAddressFromTimeoutException`: the server address reported
 * with a store timeout, scraped from the exception's message with the regular
 * expression `((?<![\w\d])localhost(?![\w\d])(\:(\d+)))`, first match wins,
 * `"<unspecified>"` when nothing matches. The one pattern is hand-coded; the
 * character classes `\w` and `\d` are parameters.
 */
module AddressScraper {
  import opened Results

  const Host: string := "localhost"
  const Unspecified: string := "<unspecified>"

  /** The class `[\w\d]` of the look-behind and the look-ahead. */
  predicate InWordClass(c: char, word: char -> bool, digit: char -> bool)
  {
    word(c) || digit(c)
  }

  /**
   * The pattern matches at index `i`: `localhost` with no `[\w\d]` character
   * on either side, then `:` and at least one digit.
   */
  predicate MatchesAt(s: string, i: nat, word: char -> bool, digit: char -> bool)
  {
    && i + |Host| + 2 <= |s|
    && s[i .. i + |Host|] == Host
    && (i == 0 || !InWordClass(s[i - 1], word, digit))
    && !InWordClass(s[i + |Host|], word, digit)
    && s[i + |Host|] == ':'
    && digit(s[i + |Host| + 1])
  }

  /** The length of the longest run of digits starting at index `j`. */
  function DigitRun(s: string, j: nat, digit: char -> bool): (n: nat)
    requires j <= |s|
    ensures j + n <= |s|
    ensures forall k :: j <= k < j + n ==> digit(s[k])
    ensures j + n == |s| || !digit(s[j + n])
    decreases |s| - j
  {
    if j < |s| && digit(s[j]) then 1 + DigitRun(s, j + 1, digit) else 0
  }

  /** The text of a match at `i`: `localhost:` and every digit after it, since `\d+` is greedy. */
  function MatchText(s: string, i: nat, digit: char -> bool): string
    requires i + |Host| + 1 <= |s|
  {
    s[i .. i + |Host| + 1 + DigitRun(s, i + |Host| + 1, digit)]
  }

  /** The leftmost index at or after `i` where the pattern matches. */
  function FirstMatchFrom(s: string, i: nat, word: char -> bool, digit: char -> bool): (r: Option<nat>)
    requires i <= |s|
    ensures r.Some? ==> i <= r.value && MatchesAt(s, r.value, word, digit)
    ensures r.Some? ==> forall j :: i <= j < r.value ==> !MatchesAt(s, j, word, digit)
    ensures r.None? ==> forall j :: i <= j ==> !MatchesAt(s, j, word, digit)
    decreases |s| - i
  {
    if i == |s| then None
    else if MatchesAt(s, i, word, digit) then Some(i)
    else FirstMatchFrom(s, i + 1, word, digit)
  }

  /**
   * The address reported for a timeout whose message is `message`: the
   * leftmost match, or `"<unspecified>"` exactly when there is none.
   */
  function ServerAddress(message: string, word: char -> bool, digit: char -> bool): (address: string)
    ensures address == Unspecified <==> forall i: nat :: !MatchesAt(message, i, word, digit)
    ensures address != Unspecified ==>
      exists i: nat :: && MatchesAt(message, i, word, digit)
                  && address == MatchText(message, i, digit)
                  && forall j :: 0 <= j < i ==> !MatchesAt(message, j, word, digit)
    ensures address != Unspecified ==>
      && |Host| + 2 <= |address|
      && address[.. |Host| + 1] == Host + ":"
      && forall k :: |Host| + 1 <= k < |address| ==> digit(address[k])
  {
    match FirstMatchFrom(message, 0, word, digit)
    case None => Unspecified
    case Some(i) =>
      var text := MatchText(message, i, digit);
      assert text[.. |Host| + 1] == message[i .. i + |Host| + 1] == Host + ":";
      assert text[0] == Host[0] != Unspecified[0];
      text
  }

  /** `\w` restricted to ASCII: letters, digits and the underscore. */
  predicate AsciiWord(c: char)
  {
    ('a' <= c <= 'z') || ('A' <= c <= 'Z') || ('0' <= c <= '9') || c == '_'
  }

  /** `\d` restricted to ASCII. */
  predicate AsciiDigit(c: char)
  {
    '0' <= c <= '9'
  }

  /** A timeout message naming the default MongoDB port. */
  const PortMessage: string := "at localhost:27017"

  /** In `PortMessage` the leftmost match starts at index 3. */
  lemma PortMessageMatchesAtThree()
    ensures FirstMatchFrom(PortMessage, 0, AsciiWord, AsciiDigit) == Some(3)
  {
    var s := PortMessage;
    assert !MatchesAt(s, 0, AsciiWord, AsciiDigit) by { assert s[0 .. 9][0] != Host[0]; }
    assert !MatchesAt(s, 1, AsciiWord, AsciiDigit) by { assert s[1 .. 10][0] != Host[0]; }
    assert !MatchesAt(s, 2, AsciiWord, AsciiDigit) by { assert s[2 .. 11][0] != Host[0]; }
    assert MatchesAt(s, 3, AsciiWord, AsciiDigit) by { assert s[3 .. 12] == Host; }
    assert FirstMatchFrom(s, 2, AsciiWord, AsciiDigit) == Some(3);
    assert FirstMatchFrom(s, 1, AsciiWord, AsciiDigit) == Some(3);
  }

  /** The port in `PortMessage` is five digits long. */
  lemma PortMessageHasFiveDigits()
    ensures DigitRun(PortMessage, 13, AsciiDigit) == 5
  {
  }

  /** A port after `localhost:` is reported with the host. */
  lemma ScrapesHostAndPort()
    ensures ServerAddress(PortMessage, AsciiWord, AsciiDigit) == "localhost:27017"
  {
    PortMessageMatchesAtThree();
    PortMessageHasFiveDigits();
    assert MatchText(PortMessage, 3, AsciiDigit) == PortMessage[3 .. 18];
  }

  /** A `localhost` glued to a word character is not a match; nothing else matches either. */
  lemma RejectsEmbeddedHost()
    ensures ServerAddress("xlocalhost:1", AsciiWord, AsciiDigit) == Unspecified
  {
  }
}
