/** Values and string helpers shared by every part of the model: the PHP notions
    of "empty", trim(), SQL LIKE, strip_tags() and integer
    formatting, each stated over Dafny strings (sequences of characters). */
module Common {

  datatype Option<+T> = None | Some(value: T) {
    /** PHP's `$x ?? $default`. */
    function GetOr(default: T): T {
      if Some? then value else default
    }
  }

  /** The outcome of a web service call: its value, or the exception it
      raises, by its language string. */
  datatype Outcome<+T> = Done(value: T) | Raised(exception: string)

  /** PHP's empty() on a string: the empty string and the string "0" are empty. */
  predicate IsEmptyStr(s: string) {
    s == "" || s == "0"
  }

  /** The characters PHP's trim() strips by default: space, tab, line feed,
      carriage return, NUL and vertical tab. */
  predicate IsTrimChar(c: char) {
    c == ' ' || c == '\t' || c == '\n' || c == '\r' || c == '\0' || c == '\U{B}'
  }

  /** The index of the first character at or after `i` that is not a trim
      character, |s| when there is none. */
  function SkipLeading(s: string, i: nat): (n: nat)
    requires i <= |s|
    ensures i <= n <= |s|
    ensures forall k :: i <= k < n ==> IsTrimChar(s[k])
    ensures n < |s| ==> !IsTrimChar(s[n])
    decreases |s| - i
  {
    if i < |s| && IsTrimChar(s[i]) then SkipLeading(s, i + 1) else i
  }

  /** The end of `s[lo..j]` once its trailing trim characters are cut off. */
  function SkipTrailing(s: string, lo: nat, j: nat): (n: nat)
    requires lo <= j <= |s|
    ensures lo <= n <= j
    ensures forall k :: n <= k < j ==> IsTrimChar(s[k])
    ensures n > lo ==> !IsTrimChar(s[n - 1])
  {
    if j > lo && IsTrimChar(s[j - 1]) then SkipTrailing(s, lo, j - 1) else j
  }

  /** PHP's trim(). */
  function Trim(s: string): string
  {
    var i := SkipLeading(s, 0);
    s[i..SkipTrailing(s, i, |s|)]
  }

  /** A trimmed string is the piece of its input that starts after the leading
      trim characters; only trim characters are cut off on either side, and
      neither end of the result is a trim character. */
  lemma TrimShape(s: string)
    ensures var r, i := Trim(s), SkipLeading(s, 0);
      && i + |r| <= |s| && r == s[i..i + |r|]
      && (forall k :: 0 <= k < i ==> IsTrimChar(s[k]))
      && (forall k :: i + |r| <= k < |s| ==> IsTrimChar(s[k]))
    ensures IsTrimmed(Trim(s))
  {
    var i := SkipLeading(s, 0);
    var j := SkipTrailing(s, i, |s|);
    var r := s[i..j];
    assert |r| == j - i;
    if r != [] {
      assert r[0] == s[i] && r[|r| - 1] == s[j - 1];
    }
  }

  /** Neither end of `s` is a trim character. */
  predicate IsTrimmed(s: string) {
    s == [] || (!IsTrimChar(s[0]) && !IsTrimChar(s[|s| - 1]))
  }

  /** Trimming a trimmed string changes nothing; in particular trim() is idempotent. */
  lemma {:induction false} TrimOfTrimmed(s: string)
    requires IsTrimmed(s)
    ensures Trim(s) == s
  {
    assert SkipLeading(s, 0) == 0;
    assert SkipTrailing(s, 0, |s|) == |s|;
  }

  lemma TrimIdempotent(s: string)
    ensures Trim(Trim(s)) == Trim(s)
  {
    TrimShape(s);
    TrimOfTrimmed(Trim(s));
  }

  /** SQL `s LIKE p` as the database evaluates it: `%` matches any run of
      characters, `_` any single character, `\` makes the next pattern
      character literal (a trailing `\` stands for itself), and every other
      pattern character matches a character that the column's collation
      `fold` maps to the same value (the identity under a binary collation,
      a case folding under a case-insensitive one). */
  predicate Like(s: string, p: string, fold: char -> char)
    decreases |s| + |p|
  {
    if p == [] then s == []
    else if p[0] == '%' then Like(s, p[1..], fold) || (s != [] && Like(s[1..], p, fold))
    else if p[0] == '_' then s != [] && Like(s[1..], p[1..], fold)
    else if p[0] == '\\' && |p| >= 2 then s != [] && fold(s[0]) == fold(p[1]) && Like(s[1..], p[2..], fold)
    else s != [] && fold(s[0]) == fold(p[0]) && Like(s[1..], p[1..], fold)
  }

  /** A search term without wildcards and without the escape character. */
  predicate IsPlainTerm(t: string) {
    forall i :: 0 <= i < |t| ==> t[i] != '%' && t[i] != '_' && t[i] != '\\'
  }

  /** `t` is a prefix of `s` under the collation `fold`. */
  predicate StartsWithUnder(s: string, t: string, fold: char -> char) {
    |t| <= |s| && forall i :: 0 <= i < |t| ==> fold(s[i]) == fold(t[i])
  }

  /** `t` occurs in `s` under the collation `fold`: what `s LIKE '%t%'` is
      meant to ask for a plain term. */
  predicate ContainsUnder(s: string, t: string, fold: char -> char) {
    exists k :: 0 <= k <= |s| && StartsWithUnder(s[k..], t, fold)
  }

  /** `%` alone matches every string. */
  lemma {:induction false} LikeAnyRest(s: string, fold: char -> char)
    ensures Like(s, "%", fold)
    decreases |s|
  {
    if s != [] {
      LikeAnyRest(s[1..], fold);
    }
  }

  /** A plain term followed by `%` matches exactly the strings it begins. */
  lemma {:induction false} LikeTermThenAny(s: string, t: string, fold: char -> char)
    requires IsPlainTerm(t)
    ensures Like(s, t + "%", fold) <==> StartsWithUnder(s, t, fold)
    decreases |t|
  {
    if t == [] {
      assert t + "%" == "%";
      LikeAnyRest(s, fold);
    } else {
      var p := t + "%";
      assert p[0] == t[0] && p[1..] == t[1..] + "%";
      assert IsPlainTerm(t[1..]) by {
        forall i | 0 <= i < |t[1..]|
          ensures t[1..][i] != '%' && t[1..][i] != '_' && t[1..][i] != '\\'
        {
          assert t[1..][i] == t[i + 1];
        }
      }
      if s != [] {
        LikeTermThenAny(s[1..], t[1..], fold);
        if fold(s[0]) == fold(t[0]) && StartsWithUnder(s[1..], t[1..], fold) {
          forall i | 0 <= i < |t|
            ensures fold(s[i]) == fold(t[i])
          {
            if i > 0 {
              assert s[1..][i - 1] == s[i] && t[1..][i - 1] == t[i];
            }
          }
        }
        if StartsWithUnder(s, t, fold) {
          forall i | 0 <= i < |t[1..]|
            ensures fold(s[1..][i]) == fold(t[1..][i])
          {
            assert s[1..][i] == s[i + 1] && t[1..][i] == t[i + 1];
          }
        }
      }
    }
  }

  /** A leading `%` lets the rest of the pattern match any suffix. */
  lemma {:induction false} LikeAnyThen(s: string, q: string, fold: char -> char)
    ensures Like(s, "%" + q, fold) <==> exists k :: 0 <= k <= |s| && Like(s[k..], q, fold)
    decreases |s|
  {
    var p := "%" + q;
    assert p[0] == '%' && p[1..] == q;
    assert s[0..] == s;
    if s != [] {
      LikeAnyThen(s[1..], q, fold);
      if exists k :: 0 <= k <= |s| && Like(s[k..], q, fold) {
        var k :| 0 <= k <= |s| && Like(s[k..], q, fold);
        if k > 0 {
          assert s[1..][k - 1..] == s[k..];
        }
      }
      if exists k :: 0 <= k <= |s[1..]| && Like(s[1..][k..], q, fold) {
        var k :| 0 <= k <= |s[1..]| && Like(s[1..][k..], q, fold);
        assert s[1..][k..] == s[k + 1..];
      }
    }
  }

  /** For a plain term, `s LIKE '%t%'` holds exactly when `t` occurs in `s`
      under the collation. */
  lemma LikeSubstring(s: string, t: string, fold: char -> char)
    requires IsPlainTerm(t)
    ensures Like(s, "%" + t + "%", fold) <==> ContainsUnder(s, t, fold)
  {
    assert "%" + t + "%" == "%" + (t + "%");
    LikeAnyThen(s, t + "%", fold);
    forall k | 0 <= k <= |s|
      ensures Like(s[k..], t + "%", fold) <==> StartsWithUnder(s[k..], t, fold)
    {
      LikeTermThenAny(s[k..], t, fold);
    }
  }

  /** An unescaped `_` in the term is a wildcard: `%_%` matches every
      non-empty string, whatever it contains. */
  lemma UnderscoreMatchesAny(s: string, fold: char -> char)
    ensures Like(s, "%" + "_" + "%", fold) <==> s != []
  {
    assert "%" + "_" + "%" == "%" + "_%";
    LikeAnyThen(s, "_%", fold);
    var p := "_%";
    assert p[0] == '_' && p[1..] == "%";
    if s != [] {
      LikeAnyRest(s[1..], fold);
      assert s[0..] == s;
    }
  }

  /** The first `n` elements of `s`, or all of them when there are fewer
      (PHP's array_slice($s, 0, n) and substr($s, 0, n)). */
  function Take<T>(s: seq<T>, n: nat): (r: seq<T>)
    ensures |r| == if n < |s| then n else |s|
    ensures r == s[..|r|]
  {
    if n < |s| then s[..n] else s
  }

  /** `f` applied to each element, in order. */
  function MapSeq<A, B>(s: seq<A>, f: A -> B): (r: seq<B>)
    ensures |r| == |s|
    ensures forall k :: 0 <= k < |s| ==> r[k] == f(s[k])
  {
    if s == [] then [] else MapSeq(s[..|s| - 1], f) + [f(s[|s| - 1])]
  }

  /** `$m[$k] = value($k)` for each key in turn: later repeats overwrite
      earlier ones with the same value. */
  function MapOver<K, V>(keys: seq<K>, value: K -> V): map<K, V> {
    if keys == [] then map[] else MapOver(keys[..|keys| - 1], value)[keys[|keys| - 1] := value(keys[|keys| - 1])]
  }

  /** The keys of MapOver are exactly the listed keys, each mapped to its value. */
  lemma {:induction false} MapOverIff<K, V>(keys: seq<K>, value: K -> V, k: K)
    ensures k in MapOver(keys, value) <==> k in keys
    ensures k in MapOver(keys, value) ==> MapOver(keys, value)[k] == value(k)
  {
    if keys != [] {
      var init := keys[..|keys| - 1];
      MapOverIff(init, value, k);
      assert keys == init + [keys[|keys| - 1]];
    }
  }

  /** The `limit` elements of `s` starting at `offset`, fewer at the end of
      `s` (SQL OFFSET/LIMIT and PHP's array_slice($s, offset, limit)). */
  function Slice<T>(s: seq<T>, offset: nat, limit: nat): (r: seq<T>)
    ensures |r| == if offset >= |s| then 0 else if limit < |s| - offset then limit else |s| - offset
    ensures forall k :: 0 <= k < |r| ==> r[k] == s[offset + k]
  {
    if offset >= |s| then [] else Take(s[offset..], limit)
  }

  function DigitChar(d: nat): (c: char)
    requires d < 10
    ensures '0' <= c <= '9'
  {
    "0123456789"[d]
  }

  /** Decimal rendering of a count, as PHP's string interpolation of an int. */
  function NatToString(n: nat): (r: string)
    ensures r != []
    ensures forall k :: 0 <= k < |r| ==> '0' <= r[k] <= '9'
    ensures |r| > 1 ==> r[0] != '0'
  {
    if n < 10 then [DigitChar(n)] else NatToString(n / 10) + [DigitChar(n % 10)]
  }

  /** The number a string of decimal digits denotes. */
  function DigitsValue(s: string): nat
    requires forall k :: 0 <= k < |s| ==> '0' <= s[k] <= '9'
  {
    if s == [] then 0 else 10 * DigitsValue(s[..|s| - 1]) + (s[|s| - 1] as int - '0' as int)
  }

  /** Reading back a rendered count gives the count. */
  lemma {:induction false} NatToStringRoundTrip(n: nat)
    ensures DigitsValue(NatToString(n)) == n
  {
    if n >= 10 {
      NatToStringRoundTrip(n / 10);
      var r := NatToString(n);
      assert r[..|r| - 1] == NatToString(n / 10);
    }
  }

  /** C's isspace() in the "C" locale. */
  predicate IsCSpace(c: char) {
    c == ' ' || c == '\t' || c == '\n' || c == '\r' || c == 11 as char || c == 12 as char
  }

  /** Where strip_tags() is while it scans: in text, or inside a tag with
      the depth of nested '<' and the open quote, if any. */
  datatype TagScan = InText | InTag(depth: nat, quote: Option<char>)

  /** No '<' opens a tag: each one is followed by whitespace. */
  predicate NoTagOpener(r: string) {
    forall k :: 0 <= k < |r| && r[k] == '<' ==> k + 1 < |r| && IsCSpace(r[k + 1])
  }

  predicate NoNul(r: string) {
    forall k :: 0 <= k < |r| ==> r[k] != '\0'
  }

  /** PHP's strip_tags() without allowed tags: NUL characters are dropped; a
      '<' followed by whitespace is text; any other '<' opens a tag, which
      ends at the '>' that is neither inside quotes nor closes a nested '<'. */
  function StripTags(s: string): (r: string)
    ensures |r| <= |s|
    ensures NoNul(r) && NoTagOpener(r)
  {
    StripFrom(s, InText)
  }

  function StripFrom(s: string, st: TagScan): (r: string)
    ensures |r| <= |s|
    ensures NoNul(r) && NoTagOpener(r)
    ensures st.InText? && s != [] && s[0] != '\0' && s[0] != '<' ==> r != [] && r[0] == s[0]
    decreases |s|
  {
    if s == [] then []
    else
      var c, rest := s[0], s[1..];
      var spaceNext := |s| > 1 && IsCSpace(s[1]);
      match st
      case InText =>
        if c == '\0' then StripFrom(rest, InText)
        else if c == '<' && !spaceNext then StripFrom(rest, InTag(0, None))
        else [c] + StripFrom(rest, InText)
      case InTag(depth, quote) =>
        if c == '\0' then StripFrom(rest, st)
        else if c == '<' then
          if quote.Some? || spaceNext then StripFrom(rest, st) else StripFrom(rest, InTag(depth + 1, quote))
        else if c == '>' then
          if depth > 0 then StripFrom(rest, InTag(depth - 1, quote))
          else if quote.Some? then StripFrom(rest, st)
          else StripFrom(rest, InText)
        else if c == '"' || c == '\'' then
          if quote.None? then StripFrom(rest, InTag(depth, Some(c)))
          else if quote.value == c then StripFrom(rest, InTag(depth, None))
          else StripFrom(rest, st)
        else StripFrom(rest, st)
  }

  /** Text that strip_tags() leaves as it is: no NUL, and no '<' that opens
      a tag. */
  predicate TagFree(s: string) {
    NoNul(s) && NoTagOpener(s)
  }

  /** strip_tags() changes a text exactly when the text holds a NUL or a
      '<' that opens a tag; so it is idempotent. */
  lemma StripTagsFixedIff(s: string)
    ensures StripTags(s) == s <==> TagFree(s)
    ensures StripTags(StripTags(s)) == StripTags(s)
  {
    if TagFree(s) {
      StripFromTagFree(s);
    }
    StripFromTagFree(StripTags(s));
  }

  lemma {:induction false} StripFromTagFree(s: string)
    requires TagFree(s)
    ensures StripFrom(s, InText) == s
    decreases |s|
  {
    if s != [] {
      assert TagFree(s[1..]) by {
        forall k | 0 <= k < |s[1..]| && s[1..][k] == '<'
          ensures k + 1 < |s[1..]| && IsCSpace(s[1..][k + 1])
        {
          assert s[k + 1] == '<';
        }
      }
      StripFromTagFree(s[1..]);
    }
  }

  /** A '<' before a space survives: comparisons in prose are kept. */
  lemma LessThanBeforeSpaceKept()
    ensures StripTags("Revenue < 5% of target") == "Revenue < 5% of target"
  {
    StripFromTagFree("Revenue < 5% of target");
  }

  /** Inside a tag, a body free of '<', '>', quotes and NUL is skipped up to
      the '>' that closes it. */
  lemma {:induction false} TagBodySkipped(t: string, rest: string)
    requires forall k :: 0 <= k < |t| ==> t[k] !in {'<', '>', '"', '\'', '\0'}
    ensures StripFrom(t + ">" + rest, InTag(0, None)) == StripFrom(rest, InText)
    decreases |t|
  {
    if t == [] {
      assert t + ">" + rest == [">"[0]] + rest;
    } else {
      assert (t + ">" + rest)[1..] == t[1..] + ">" + rest;
      TagBodySkipped(t[1..], rest);
    }
  }

  /** Text that strip_tags() keeps passes through ahead of whatever follows. */
  lemma {:induction false} TagFreePrefixKept(x: string, y: string)
    requires TagFree(x)
    ensures StripFrom(x + y, InText) == x + StripFrom(y, InText)
    decreases |x|
  {
    if x != [] {
      assert (x + y)[1..] == x[1..] + y;
      assert (x + y)[0] == x[0];
      if x[0] == '<' {
        assert (x + y)[1] == x[1];
      }
      assert TagFree(x[1..]) by {
        forall k | 0 <= k < |x[1..]| && x[1..][k] == '<'
          ensures k + 1 < |x[1..]| && IsCSpace(x[1..][k + 1])
        {
          assert x[k + 1] == '<';
        }
      }
      TagFreePrefixKept(x[1..], y);
      assert x[0] != '\0';
      assert x[0] == '<' ==> 1 < |x| && IsCSpace(x[1]);
      assert StripFrom(x + y, InText) == [x[0]] + StripFrom(x[1..] + y, InText);
      assert x == [x[0]] + x[1..];
      assert [x[0]] + (x[1..] + StripFrom(y, InText)) == x + StripFrom(y, InText);
    } else {
      assert x + y == y;
    }
  }

  /** A simple tag pair is removed and the text between kept. */
  lemma TagPairRemoved(open: string, text: string, close: string)
    requires open != [] && !IsCSpace(open[0]) && close != [] && !IsCSpace(close[0])
    requires forall k :: 0 <= k < |open| ==> open[k] !in {'<', '>', '"', '\'', '\0'}
    requires forall k :: 0 <= k < |close| ==> close[k] !in {'<', '>', '"', '\'', '\0'}
    requires TagFree(text)
    ensures StripTags("<" + open + ">" + text + "<" + close + ">") == text
  {
    var tail := "<" + close + ">";
    var s := "<" + open + ">" + text + tail;
    assert s == "<" + open + ">" + text + "<" + close + ">";
    assert s[0] == '<' && s[1] == open[0];
    assert StripTags(s) == StripFrom(s[1..], InTag(0, None));
    assert s[1..] == open + ">" + (text + tail);
    TagBodySkipped(open, text + tail);
    TagFreePrefixKept(text, tail);
    assert tail[0] == '<' && tail[1] == close[0];
    assert tail[1..] == close + ">" + [];
    TagBodySkipped(close, []);
    assert StripFrom(tail, InText) == StripFrom(tail[1..], InTag(0, None));
    assert text + [] == text;
  }

  /** A character PARAM_ALPHA keeps: an ASCII letter. */
  predicate IsAsciiLetter(c: char) {
    'a' <= c <= 'z' || 'A' <= c <= 'Z'
  }

  /** clean_param() for PARAM_ALPHA: every character but the ASCII letters is removed. */
  function CleanAlpha(s: string): (r: string)
    ensures |r| <= |s|
    ensures forall k :: 0 <= k < |r| ==> IsAsciiLetter(r[k])
  {
    if s == [] then [] else (if IsAsciiLetter(s[0]) then [s[0]] else []) + CleanAlpha(s[1..])
  }

  /** clean_param() for PARAM_TEXT: strip_tags() (see "Left out" for the
      multilang exemption and the UTF-8 repair). */
  function CleanText(s: string): (r: string)
    ensures |r| <= |s| && TagFree(r)
  {
    StripTags(s)
  }

  /** validate_parameters() accepts a PARAM_ALPHA value only when cleaning leaves it unchanged. */
  predicate AlphaParamOk(s: string) {
    CleanAlpha(s) == s
  }

  /** validate_parameters() accepts a PARAM_TEXT value only when cleaning leaves it unchanged. */
  predicate TextParamOk(s: string) {
    CleanText(s) == s
  }

  /** A PARAM_ALPHA value is accepted iff it consists of ASCII letters. */
  lemma {:induction false} AlphaParamOkIff(s: string)
    ensures AlphaParamOk(s) <==> forall k :: 0 <= k < |s| ==> IsAsciiLetter(s[k])
  {
    if s != [] {
      AlphaParamOkIff(s[1..]);
      if forall k :: 0 <= k < |s| ==> IsAsciiLetter(s[k]) {
        assert forall k :: 0 <= k < |s[1..]| ==> IsAsciiLetter(s[1..][k]);
        assert CleanAlpha(s) == [s[0]] + s[1..];
      }
    }
  }

  /** A PARAM_TEXT value is accepted iff it has no NUL and no '<' that opens a tag. */
  lemma TextParamOkIff(s: string)
    ensures TextParamOk(s) <==> TagFree(s)
  {
    StripTagsFixedIff(s);
  }

  /** A value wrapped in a tag is refused as PARAM_TEXT. */
  lemma TaggedTextRefused()
    ensures !TextParamOk("<b>Acme</b>")
  {
    var s := "<b>Acme</b>";
    TextParamOkIff(s);
    assert s[0] == '<' && !IsCSpace(s[1]);
  }

  /** A lone '<' before a space is accepted as PARAM_TEXT. */
  lemma LessThanTextAccepted()
    ensures TextParamOk("Revenue < 5% of target")
  {
    LessThanBeforeSpaceKept();
  }

  /** Hyphens and underscores are refused as PARAM_ALPHA. */
  lemma NonLetterAlphaRefused()
    ensures !AlphaParamOk("on-hold") && !AlphaParamOk("business_goal")
  {
    AlphaParamOkIff("on-hold");
    assert "on-hold"[2] == '-';
    AlphaParamOkIff("business_goal");
    assert "business_goal"[8] == '_';
  }

  /** Number of elements of `s` satisfying `p`. */
  function CountWhere<T>(s: seq<T>, p: T -> bool): (n: nat)
    ensures n <= |s|
  {
    if s == [] then 0 else CountWhere(s[..|s| - 1], p) + (if p(s[|s| - 1]) then 1 else 0)
  }

  /** The elements of `s` satisfying `p`, in order. */
  function Filter<T>(s: seq<T>, p: T -> bool): (r: seq<T>)
    ensures |r| <= |s|
    ensures forall x :: x in r ==> x in s && p(x)
  {
    if s == [] then [] else Filter(s[..|s| - 1], p) + (if p(s[|s| - 1]) then [s[|s| - 1]] else [])
  }

  lemma FilterSnoc<T>(s: seq<T>, x: T, p: T -> bool)
    ensures Filter(s + [x], p) == Filter(s, p) + (if p(x) then [x] else [])
  {
    assert (s + [x])[..|s|] == s;
  }

  /** `sub` is an order-preserving subsequence of `s`. */
  ghost predicate IsSubsequence<T>(sub: seq<T>, s: seq<T>)
    decreases |s|
  {
    sub == [] || (s != [] &&
      ((sub[|sub| - 1] == s[|s| - 1] && IsSubsequence(sub[..|sub| - 1], s[..|s| - 1]))
       || IsSubsequence(sub, s[..|s| - 1])))
  }

  /** Filtering keeps an order-preserving subsequence of its input. */
  lemma {:induction false} FilterIsSubsequence<T>(s: seq<T>, p: T -> bool)
    ensures IsSubsequence(Filter(s, p), s)
  {
    if s != [] {
      var init, last := s[..|s| - 1], s[|s| - 1];
      var f, fi := Filter(s, p), Filter(init, p);
      FilterIsSubsequence(init, p);
      if p(last) {
        assert f == fi + [last];
        assert f[..|f| - 1] == fi;
        assert f[|f| - 1] == last;
      } else {
        assert f == fi;
      }
    }
  }

  /** Filtering drops nothing that satisfies the predicate. */
  lemma {:induction false} FilterKeeps<T>(s: seq<T>, p: T -> bool, x: T)
    requires x in s && p(x)
    ensures x in Filter(s, p)
  {
    var init, last := s[..|s| - 1], s[|s| - 1];
    assert s == init + [last];
    if x != last {
      FilterKeeps(init, p, x);
    }
  }

  /** Filtering a sequence none of whose elements qualifies leaves nothing. */
  lemma {:induction false} FilterNone<T>(s: seq<T>, p: T -> bool)
    requires forall x :: x in s ==> !p(x)
    ensures Filter(s, p) == []
  {
    if s != [] {
      var init := s[..|s| - 1];
      assert forall x :: x in init ==> x in s;
      FilterNone(init, p);
    }
  }

  lemma {:induction false} FilterCountWhere<T>(s: seq<T>, p: T -> bool)
    ensures |Filter(s, p)| == CountWhere(s, p)
  {
    if s != [] {
      FilterCountWhere(s[..|s| - 1], p);
    }
  }

  /** Filter commutes with concatenation. */
  lemma {:induction false} FilterAppend<T>(a: seq<T>, b: seq<T>, p: T -> bool)
    ensures Filter(a + b, p) == Filter(a, p) + Filter(b, p)
    decreases |b|
  {
    if b == [] {
      assert a + b == a;
    } else {
      var b' := b[..|b| - 1];
      assert (a + b)[..|a + b| - 1] == a + b';
      FilterAppend(a, b', p);
    }
  }

  /** The set of values a sequence holds has at most as many elements as the sequence. */
  lemma {:induction false} SeqSetCard<T>(s: seq<T>)
    ensures |set x | x in s| <= |s|
  {
    if s != [] {
      var init := s[..|s| - 1];
      SeqSetCard(init);
      assert (set x | x in s) == (set x | x in init) + {s[|s| - 1]};
    }
  }

  /** A sequence without repeated elements has exactly as many elements as its set. */
  lemma {:induction false} DistinctSeqSetCard<T>(s: seq<T>)
    requires forall i, j :: 0 <= i < j < |s| ==> s[i] != s[j]
    ensures |set x | x in s| == |s|
  {
    if s != [] {
      var init := s[..|s| - 1];
      DistinctSeqSetCard(init);
      assert (set x | x in s) == (set x | x in init) + {s[|s| - 1]};
      assert s[|s| - 1] !in init;
    }
  }
}
