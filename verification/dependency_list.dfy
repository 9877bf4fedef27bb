/**
 * The dependency field's text format: comma-separated decimal ids such as "1,3,5".
 * Parsing keeps, in order and with repetitions, the comma-separated tokens whose
 * whitespace-stripped form is a non-empty run of decimal digits; every other token
 * ("", "-1", "a", "1.5") is dropped silently.
 */
module DependencyList {

  /** The characters Python's str.strip() removes when called without arguments. */
  predicate IsWhitespace(c: char) {
    || ('\U{0009}' <= c <= '\U{000D}')
    || ('\U{001C}' <= c <= '\U{001F}')
    || c == ' ' || c == '\U{0085}' || c == '\U{00A0}' || c == '\U{1680}'
    || ('\U{2000}' <= c <= '\U{200A}')
    || c == '\U{2028}' || c == '\U{2029}' || c == '\U{202F}' || c == '\U{205F}' || c == '\U{3000}'
  }

  predicate IsDigit(c: char) {
    '0' <= c <= '9'
  }

  /** str.isdigit(): at least one character, and all of them digits. */
  predicate IsDigits(s: string) {
    |s| > 0 && forall i :: 0 <= i < |s| ==> IsDigit(s[i])
  }

  predicate AllDigits(s: string) {
    forall i :: 0 <= i < |s| ==> IsDigit(s[i])
  }

  function DigitValue(c: char): (v: nat)
    requires IsDigit(c)
    ensures v < 10
  {
    (c as int) - ('0' as int)
  }

  function DigitChar(d: nat): (c: char)
    requires d < 10
    ensures IsDigit(c) && DigitValue(c) == d
  {
    (('0' as int) + d) as char
  }

  /** int() of a run of decimal digits, read most significant digit first. */
  function DigitsValue(s: string): nat
    requires AllDigits(s)
  {
    if |s| == 0 then 0 else DigitsValue(s[..|s| - 1]) * 10 + DigitValue(s[|s| - 1])
  }

  /** The shortest decimal text of n, the inverse of DigitsValue. */
  function ShowNat(n: nat): (s: string)
    ensures IsDigits(s)
  {
    if n < 10 then [DigitChar(n)] else ShowNat(n / 10) + [DigitChar(n % 10)]
  }

  lemma {:induction false} ShowNatRoundTrip(n: nat)
    ensures DigitsValue(ShowNat(n)) == n
  {
    if n >= 10 {
      var s := ShowNat(n);
      assert s[..|s| - 1] == ShowNat(n / 10);
      ShowNatRoundTrip(n / 10);
    }
  }

  /** str.lstrip(): drops the leading whitespace and nothing else. */
  function StripLeft(s: string): (r: string)
    ensures |r| <= |s| && r == s[|s| - |r|..]
    ensures forall k :: 0 <= k < |s| - |r| ==> IsWhitespace(s[k])
    ensures |r| > 0 ==> !IsWhitespace(r[0])
  {
    if |s| > 0 && IsWhitespace(s[0]) then StripLeft(s[1..]) else s
  }

  /** str.rstrip(): drops the trailing whitespace and nothing else. */
  function StripRight(s: string): (r: string)
    ensures |r| <= |s| && r == s[..|r|]
    ensures forall k :: |r| <= k < |s| ==> IsWhitespace(s[k])
    ensures |r| > 0 ==> !IsWhitespace(r[|r| - 1])
  {
    if |s| > 0 && IsWhitespace(s[|s| - 1]) then StripRight(s[..|s| - 1]) else s
  }

  /** str.strip(). */
  function Strip(s: string): (r: string)
    ensures |r| > 0 ==> !IsWhitespace(r[0]) && !IsWhitespace(r[|r| - 1])
    ensures r == [] <==> forall k :: 0 <= k < |s| ==> IsWhitespace(s[k])
    ensures exists i :: TrimmedAt(s, i, r)
  {
    var l := StripLeft(s);
    var r := StripRight(l);
    assert |r| > 0 ==> r[0] == l[0];
    TrimmedSlice(s, l, r);
    r
  }

  /** Dropping a whitespace prefix and then a whitespace suffix leaves a trimmed slice. */
  lemma TrimmedSlice(s: string, l: string, r: string)
    requires |l| <= |s| && l == s[|s| - |l|..]
    requires forall k :: 0 <= k < |s| - |l| ==> IsWhitespace(s[k])
    requires |r| <= |l| && r == l[..|r|]
    requires forall k :: |r| <= k < |l| ==> IsWhitespace(l[k])
    ensures TrimmedAt(s, |s| - |l|, r)
  {
    var i := |s| - |l|;
    assert r == s[i..i + |r|];
    forall k | i + |r| <= k < |s|
      ensures IsWhitespace(s[k])
    {
      assert s[k] == l[k - i];
    }
  }

  /** r is the slice of s starting at i, and everything of s outside that slice is whitespace. */
  predicate TrimmedAt(s: string, i: int, r: string) {
    && 0 <= i <= |s| - |r|
    && r == s[i..i + |r|]
    && (forall k :: 0 <= k < i ==> IsWhitespace(s[k]))
    && (forall k :: i + |r| <= k < |s| ==> IsWhitespace(s[k]))
  }

  /** A string with no whitespace at either end is its own strip. */
  lemma StripTrimmed(s: string)
    requires |s| > 0 ==> !IsWhitespace(s[0]) && !IsWhitespace(s[|s| - 1])
    ensures Strip(s) == s
  {
  }

  /** str.split(","): always at least one token, and no token holds a comma. */
  function Split(s: string): (r: seq<string>)
    ensures |r| >= 1
    ensures forall k :: 0 <= k < |r| ==> ',' !in r[k]
  {
    if |s| == 0 then [""]
    else
      var rest := Split(s[1..]);
      if s[0] == ',' then [""] + rest
      else [[s[0]] + rest[0]] + rest[1..]
  }

  /** ",".join(tokens). */
  function Join(tokens: seq<string>): string {
    if |tokens| == 0 then ""
    else if |tokens| == 1 then tokens[0]
    else tokens[0] + "," + Join(tokens[1..])
  }

  /** Joining the pieces of a split gives back the text. */
  lemma {:induction false} JoinSplit(s: string)
    ensures Join(Split(s)) == s
  {
    if |s| > 0 {
      var rest := Split(s[1..]);
      JoinSplit(s[1..]);
      if s[0] == ',' {
        assert Split(s) == [""] + rest;
        assert ([""] + rest)[1..] == rest;
      } else {
        assert Split(s) == [[s[0]] + rest[0]] + rest[1..];
        if |rest| > 1 {
          assert ([[s[0]] + rest[0]] + rest[1..])[1..] == rest[1..];
          assert Join(rest) == rest[0] + "," + Join(rest[1..]);
        }
      }
      assert s == [s[0]] + s[1..];
    }
  }

  lemma {:induction false} SplitWithoutComma(a: string)
    requires ',' !in a
    ensures Split(a) == [a]
  {
    if |a| > 0 {
      assert ',' !in a[1..];
      SplitWithoutComma(a[1..]);
      assert [a[0]] + a[1..] == a;
    }
  }

  lemma {:induction false} SplitAfterToken(a: string, rest: string)
    requires ',' !in a
    ensures Split(a + "," + rest) == [a] + Split(rest)
  {
    if |a| == 0 {
      assert a + "," + rest == [','] + rest;
      assert (a + "," + rest)[1..] == rest;
    } else {
      assert ',' !in a[1..];
      SplitAfterToken(a[1..], rest);
      assert (a + "," + rest)[1..] == a[1..] + "," + rest;
      assert [a[0]] + a[1..] == a;
    }
  }

  /** Splitting a join of comma-free tokens gives back the tokens. */
  lemma {:induction false} SplitJoin(tokens: seq<string>)
    requires |tokens| >= 1
    requires forall k :: 0 <= k < |tokens| ==> ',' !in tokens[k]
    ensures Split(Join(tokens)) == tokens
  {
    if |tokens| == 1 {
      SplitWithoutComma(tokens[0]);
    } else {
      SplitJoin(tokens[1..]);
      SplitAfterToken(tokens[0], Join(tokens[1..]));
      assert [tokens[0]] + tokens[1..] == tokens;
    }
  }

  /** One token's contribution: its id when the stripped token is all digits, else nothing. */
  function TokenIds(token: string): (r: seq<nat>)
    ensures |r| <= 1
  {
    var t := Strip(token);
    if IsDigits(t) then [DigitsValue(t)] else []
  }

  /** Concatenates what f yields for each element, in order. */
  function ConcatMap<T>(f: T -> seq<nat>, xs: seq<T>): seq<nat> {
    if |xs| == 0 then [] else f(xs[0]) + ConcatMap(f, xs[1..])
  }

  lemma {:induction false} ConcatMapAtMostOne<T>(f: T -> seq<nat>, xs: seq<T>)
    requires forall k :: 0 <= k < |xs| ==> |f(xs[k])| <= 1
    ensures |ConcatMap(f, xs)| <= |xs|
  {
    if |xs| > 0 {
      ConcatMapAtMostOne(f, xs[1..]);
    }
  }

  /** The ids of a token list, token by token and in order. */
  function ParseTokens(tokens: seq<string>): (r: seq<nat>)
    ensures |r| <= |tokens|
  {
    ConcatMapAtMostOne(TokenIds, tokens);
    ConcatMap(TokenIds, tokens)
  }

  /** The list comprehension over dependencies.split(",") used by the forward count. */
  function ParseIds(s: string): seq<nat> {
    ParseTokens(Split(s))
  }

  /** The parser of the backward resolver: an empty or blank string short-cuts to []. */
  function ParseIdsGuarded(s: string): seq<nat> {
    if |s| == 0 || Strip(s) == "" then [] else ParseTokens(Split(s))
  }

  /** The blank short-cut changes nothing: both parsers agree on every string. */
  lemma ParsersAgree(s: string)
    ensures ParseIdsGuarded(s) == ParseIds(s)
  {
    if |s| > 0 && Strip(s) == "" {
      assert ',' !in s;
      SplitWithoutComma(s);
      assert Strip(s) == "";
      assert ParseTokens([s]) == TokenIds(s) + ParseTokens([]);
    }
  }

  /** The text a list of ids is stored as. */
  function FormatIds(ids: seq<nat>): string {
    Join(ShowTokens(ids))
  }

  function ShowTokens(ids: seq<nat>): (r: seq<string>)
    ensures |r| == |ids|
    ensures forall k :: 0 <= k < |r| ==> r[k] == ShowNat(ids[k])
  {
    if |ids| == 0 then [] else [ShowNat(ids[0])] + ShowTokens(ids[1..])
  }

  /** The decimal text of n, as a token, yields n. */
  lemma ShownToken(n: nat)
    ensures TokenIds(ShowNat(n)) == [n]
  {
    var t := ShowNat(n);
    StripTrimmed(t);
    ShowNatRoundTrip(n);
  }

  /** The shown tokens of an id list parse back to the list. */
  lemma ParseShownTokens(ids: seq<nat>)
    ensures ParseTokens(ShowTokens(ids)) == ids
  {
    var tokens := ShowTokens(ids);
    forall k | 0 <= k < |tokens|
      ensures TokenIds(tokens[k]) == [ids[k]]
    {
      ShownToken(ids[k]);
    }
    ConcatMapSingletons(TokenIds, tokens, ids);
  }

  /** When each element yields exactly its own id, the concatenation is the id list. */
  lemma {:induction false} ConcatMapSingletons<T>(f: T -> seq<nat>, xs: seq<T>, ids: seq<nat>)
    requires |xs| == |ids|
    requires forall k :: 0 <= k < |xs| ==> f(xs[k]) == [ids[k]]
    ensures ConcatMap(f, xs) == ids
  {
    if |xs| > 0 {
      ConcatMapSingletons(f, xs[1..], ids[1..]);
      assert [ids[0]] + ids[1..] == ids;
    }
  }

  /** Parsing the stored text of an id list gives back the list, in order and with duplicates. */
  lemma ParseFormatRoundTrip(ids: seq<nat>)
    ensures ParseIds(FormatIds(ids)) == ids
  {
    var tokens := ShowTokens(ids);
    if |ids| == 0 {
      assert FormatIds(ids) == "";
      assert ParseTokens([""]) == TokenIds("") + ParseTokens([]);
    } else {
      forall k | 0 <= k < |tokens|
        ensures ',' !in tokens[k]
      {
        assert IsDigits(tokens[k]);
      }
      SplitJoin(tokens);
      ParseShownTokens(ids);
    }
  }

  lemma {:induction false} StripLeftWhitespacePrefix(pre: string, rest: string)
    requires forall k :: 0 <= k < |pre| ==> IsWhitespace(pre[k])
    requires |rest| > 0 ==> !IsWhitespace(rest[0])
    ensures StripLeft(pre + rest) == rest
  {
    if |pre| > 0 {
      assert (pre + rest)[0] == pre[0];
      assert (pre + rest)[1..] == pre[1..] + rest;
      StripLeftWhitespacePrefix(pre[1..], rest);
    }
  }

  lemma {:induction false} StripRightWhitespaceSuffix(body: string, post: string)
    requires forall k :: 0 <= k < |post| ==> IsWhitespace(post[k])
    requires |body| > 0 ==> !IsWhitespace(body[|body| - 1])
    ensures StripRight(body + post) == body
  {
    if |post| > 0 {
      var n := |post| - 1;
      assert (body + post)[|body + post| - 1] == post[n];
      assert (body + post)[..|body + post| - 1] == body + post[..n];
      StripRightWhitespaceSuffix(body, post[..n]);
    } else {
      assert body + post == body;
    }
  }

  lemma DigitIsNotWhitespace(c: char)
    requires IsDigit(c)
    ensures !IsWhitespace(c)
  {
  }

  /** A run of digits padded with whitespace on either side yields its value. */
  lemma PaddedDigitsToken(pre: string, digits: string, post: string)
    requires forall k :: 0 <= k < |pre| ==> IsWhitespace(pre[k])
    requires forall k :: 0 <= k < |post| ==> IsWhitespace(post[k])
    requires IsDigits(digits)
    ensures TokenIds(pre + digits + post) == [DigitsValue(digits)]
  {
    var token := pre + digits + post;
    assert token == pre + (digits + post);
    assert (digits + post)[0] == digits[0];
    DigitIsNotWhitespace(digits[0]);
    StripLeftWhitespacePrefix(pre, digits + post);
    DigitIsNotWhitespace(digits[|digits| - 1]);
    StripRightWhitespaceSuffix(digits, post);
    assert Strip(token) == digits;
  }

  /** A token holding any character that is neither whitespace nor a digit yields nothing. */
  lemma ForeignCharDropsToken(token: string, k: int)
    requires 0 <= k < |token|
    requires !IsWhitespace(token[k]) && !IsDigit(token[k])
    ensures TokenIds(token) == []
  {
    var l := StripLeft(token);
    var offset := |token| - |l|;
    assert offset <= k;
    assert l[k - offset] == token[k];
    var r := StripRight(l);
    assert k - offset < |r|;
    assert r[k - offset] == token[k];
  }

  lemma SingleDigitToken(a: char)
    requires IsDigit(a)
    ensures TokenIds([a]) == [DigitValue(a)]
  {
    assert "" + [a] + "" == [a];
    PaddedDigitsToken("", [a], "");
    assert DigitsValue([a]) == DigitValue(a);
  }

  lemma JoinThree(a: string, b: string, c: string)
    ensures Join([a, b, c]) == a + "," + b + "," + c
  {
    assert [a, b, c][1..] == [b, c];
    assert [b, c][1..] == [c];
    assert Join([b, c]) == b + "," + c;
    assert Join([a, b, c]) == a + "," + (b + "," + c);
  }

  lemma EmptyToken()
    ensures TokenIds("") == []
  {
  }

  /** ConcatMap distributes over concatenation. */
  lemma {:induction false} ConcatMapAppend<T>(f: T -> seq<nat>, xs: seq<T>, ys: seq<T>)
    ensures ConcatMap(f, xs + ys) == ConcatMap(f, xs) + ConcatMap(f, ys)
  {
    if |xs| > 0 {
      assert (xs + ys)[0] == xs[0];
      assert (xs + ys)[1..] == xs[1..] + ys;
      ConcatMapAppend(f, xs[1..], ys);
    } else {
      assert xs + ys == ys;
    }
  }

  lemma ConcatMapOne<T>(f: T -> seq<nat>, x: T)
    ensures ConcatMap(f, [x]) == f(x)
  {
    assert [x][1..] == [];
  }

  lemma ConcatMapThree<T>(f: T -> seq<nat>, a: T, b: T, c: T)
    ensures ConcatMap(f, [a, b, c]) == f(a) + f(b) + f(c)
  {
    assert [a, b, c] == [a] + [b] + [c];
    ConcatMapAppend(f, [a] + [b], [c]);
    ConcatMapAppend(f, [a], [b]);
    ConcatMapOne(f, a);
    ConcatMapOne(f, b);
    ConcatMapOne(f, c);
  }

  /** Three single-digit ids separated by commas parse to their values. */
  lemma ParseThreeDigits(a: char, b: char, c: char)
    requires IsDigit(a) && IsDigit(b) && IsDigit(c)
    ensures ParseIds([a, ',', b, ',', c]) == [DigitValue(a), DigitValue(b), DigitValue(c)]
  {
    JoinThree([a], [b], [c]);
    assert [a] + "," + [b] + "," + [c] == [a, ',', b, ',', c];
    SplitJoin([[a], [b], [c]]);
    ConcatMapThree(TokenIds, [a], [b], [c]);
    SingleDigitToken(a);
    SingleDigitToken(b);
    SingleDigitToken(c);
  }

  /** The documented example: "1,3,5" is [1, 3, 5]. */
  lemma ParseExampleList()
    ensures ParseIds("1,3,5") == [1, 3, 5]
  {
    ParseThreeDigits('1', '3', '5');
    assert "1,3,5" == ['1', ',', '3', ',', '5'];
  }

  /** An empty field holds no ids. */
  lemma ParseExampleEmpty()
    ensures ParseIds("") == []
  {
    assert ParseTokens([""]) == TokenIds("") + ParseTokens([]);
  }

  lemma SingleDigitValue(d: char)
    requires IsDigit(d)
    ensures DigitsValue([d]) == DigitValue(d)
  {
    assert [d][..0] == [];
  }

  /** One digit between two whitespace characters. */
  lemma PaddedDigitToken(w: char, d: char)
    requires IsWhitespace(w) && IsDigit(d)
    ensures TokenIds([w, d, w]) == [DigitValue(d)]
  {
    var pad := [w];
    assert [w, d, w] == pad + [d] + pad;
    assert forall k :: 0 <= k < |pad| ==> IsWhitespace(pad[k]);
    assert IsDigits([d]);
    PaddedDigitsToken(pad, [d], pad);
    SingleDigitValue(d);
  }

  /** Of five elements only the first and the last yield anything. */
  lemma OnlyOuterYield<T>(f: T -> seq<nat>, a: T, b: T, c: T, d: T, e: T)
    requires f(b) == [] && f(c) == [] && f(d) == []
    ensures ConcatMap(f, [a, b, c, d, e]) == f(a) + f(e)
  {
    var xs := [a, b, c, d, e];
    assert ConcatMap(f, xs[4..]) == f(e) by {
      assert xs[4..][1..] == [];
    }
    assert ConcatMap(f, xs[3..]) == f(e) by {
      assert xs[3..][1..] == xs[4..];
    }
    assert ConcatMap(f, xs[2..]) == f(e) by {
      assert xs[2..][1..] == xs[3..];
    }
    assert ConcatMap(f, xs[1..]) == f(e) by {
      assert xs[1..][1..] == xs[2..];
    }
  }

  /** Five tokens of which only the first and the last may carry an id. */
  lemma OuterTokensSurvive(a: string, b: string, c: string, d: string, e: string)
    requires TokenIds(b) == [] && TokenIds(c) == [] && TokenIds(d) == []
    ensures ParseTokens([a, b, c, d, e]) == TokenIds(a) + TokenIds(e)
  {
    OnlyOuterYield(TokenIds, a, b, c, d, e);
  }

  /** Five tokens of which the first and the last carry one id each and the rest none. */
  lemma TwoTokensSurvive(a: string, b: string, c: string, d: string, e: string, x: nat, y: nat)
    requires TokenIds(a) == [x] && TokenIds(e) == [y]
    requires TokenIds(b) == [] && TokenIds(c) == [] && TokenIds(d) == []
    ensures ParseTokens([a, b, c, d, e]) == [x, y]
  {
    OuterTokensSurvive(a, b, c, d, e);
  }

  /** Joining a token to a non-empty list puts one comma between them. */
  lemma JoinCons(a: string, rest: seq<string>)
    requires |rest| > 0
    ensures Join([a] + rest) == a + "," + Join(rest)
  {
    assert ([a] + rest)[1..] == rest;
  }

  lemma JoinFive(a: string, b: string, c: string, d: string, e: string)
    ensures Join([a, b, c, d, e]) == a + "," + b + "," + c + "," + d + "," + e
  {
    JoinCons(d, [e]);
    assert [d, e] == [d] + [e];
    JoinCons(c, [d, e]);
    assert [c, d, e] == [c] + [d, e];
    JoinCons(b, [c, d, e]);
    assert [b, c, d, e] == [b] + [c, d, e];
    JoinCons(a, [b, c, d, e]);
    assert [a, b, c, d, e] == [a] + [b, c, d, e];
  }

  /** The entries of the malformed example list, as the splitter sees them. */
  function MalformedTokens(w: char, two: char, sign: char, one: char, letter: char, seven: char): seq<string> {
    [[w, two, w], [w, sign, one], [letter], [], [seven]]
  }

  /** The malformed example list splits at its four commas into its five entries. */
  lemma MalformedListSplits(w: char, two: char, sign: char, one: char, letter: char, seven: char)
    requires sign != ',' && letter != ',' && w != ',' && two != ',' && one != ',' && seven != ','
    ensures Split([w, two, w, ',', w, sign, one, ',', letter, ',', ',', seven])
      == MalformedTokens(w, two, sign, one, letter, seven)
  {
    var tokens := MalformedTokens(w, two, sign, one, letter, seven);
    JoinFive(tokens[0], tokens[1], tokens[2], tokens[3], tokens[4]);
    assert Join(tokens) == [w, two, w, ',', w, sign, one, ',', letter, ',', ',', seven];
    assert forall k :: 0 <= k < |tokens| ==> ',' !in tokens[k];
    SplitJoin(tokens);
  }

  /** A sign in front of a digit makes the entry malformed. */
  lemma SignedTokenDropped(w: char, sign: char, one: char)
    requires !IsWhitespace(sign) && !IsDigit(sign)
    ensures TokenIds([w, sign, one]) == []
  {
    ForeignCharDropsToken([w, sign, one], 1);
  }

  /** A lone non-digit is no id. */
  lemma LetterTokenDropped(letter: char)
    requires !IsWhitespace(letter) && !IsDigit(letter)
    ensures TokenIds([letter]) == []
  {
    ForeignCharDropsToken([letter], 0);
  }

  /** Of the five entries only the padded digit and the final digit yield an id. */
  lemma MalformedTokensYield(w: char, two: char, sign: char, one: char, letter: char, seven: char)
    requires IsWhitespace(w)
    requires IsDigit(two) && IsDigit(one) && IsDigit(seven)
    requires !IsWhitespace(sign) && !IsDigit(sign)
    requires !IsWhitespace(letter) && !IsDigit(letter)
    ensures ParseTokens(MalformedTokens(w, two, sign, one, letter, seven))
      == [DigitValue(two), DigitValue(seven)]
  {
    var padded, signed, lone, last := [w, two, w], [w, sign, one], [letter], [seven];
    PaddedDigitToken(w, two);
    SignedTokenDropped(w, sign, one);
    LetterTokenDropped(letter);
    EmptyToken();
    SingleDigitToken(seven);
    TwoTokensSurvive(padded, signed, lone, [], last, DigitValue(two), DigitValue(seven));
  }

  /**
   * A list mixing a padded id, a signed number, a letter and an empty entry keeps only the
   * padded id and the final plain id.
   */
  lemma MalformedEntriesDropped(w: char, two: char, sign: char, one: char, letter: char, seven: char)
    requires IsWhitespace(w)
    requires IsDigit(two) && IsDigit(one) && IsDigit(seven)
    requires !IsWhitespace(sign) && !IsDigit(sign) && sign != ','
    requires !IsWhitespace(letter) && !IsDigit(letter) && letter != ','
    ensures ParseIds([w, two, w, ',', w, sign, one, ',', letter, ',', ',', seven])
      == [DigitValue(two), DigitValue(seven)]
  {
    MalformedListSplits(w, two, sign, one, letter, seven);
    MalformedTokensYield(w, two, sign, one, letter, seven);
  }

  /** Signed, alphabetic and empty tokens vanish; padded digit tokens survive. */
  lemma ParseExampleMalformed()
    ensures ParseIds(" 2 , -1,a,,7") == [2, 7]
  {
    MalformedEntriesDropped(' ', '2', '-', '1', 'a', '7');
    assert " 2 , -1,a,,7" == [' ', '2', ' ', ',', ' ', '-', '1', ',', 'a', ',', ',', '7'];
  }
}
