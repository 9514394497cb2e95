/// The Python string built-ins the converter relies on, over `string`
/// (a sequence of Unicode scalar values): strip, split, replace, the `in`
/// operator, rsplit, upper and int.
module PyText {
  import opened Results

  /** Python's str.isspace for one character: what str.strip() removes and
      what str.split() without arguments splits on. */
  predicate IsSpace(c: char) {
    c == ' ' || ('\t' <= c <= '\r') || ('\U{1C}' <= c <= '\U{1F}')
    || c == '\U{85}' || c == '\U{A0}' || c == '\U{1680}'
    || ('\U{2000}' <= c <= '\U{200A}') || c == '\U{2028}' || c == '\U{2029}'
    || c == '\U{202F}' || c == '\U{205F}' || c == '\U{3000}'
  }

  /** The character sets the converter strips: white space (strip()) and the
      comma (strip(",")). */
  datatype Chars = Spaces | Commas

  predicate Drops(chars: Chars, c: char) {
    match chars
    case Spaces => IsSpace(c)
    case Commas => c == ','
  }

  /** s.lstrip(chars) */
  function TrimLeft(s: string, chars: Chars): string
    decreases |s|
  {
    if s != [] && Drops(chars, s[0]) then TrimLeft(s[1..], chars) else s
  }

  /** lstrip removes a prefix of dropped characters and stops at the first
      character it keeps. */
  lemma {:induction false} TrimLeftFacts(s: string, chars: Chars)
    ensures var r := TrimLeft(s, chars);
      && |r| <= |s| && r == s[|s| - |r|..]
      && (r == [] || !Drops(chars, r[0]))
      && forall i :: 0 <= i < |s| - |r| ==> Drops(chars, s[i])
    decreases |s|
  {
    if s != [] && Drops(chars, s[0]) {
      TrimLeftFacts(s[1..], chars);
    }
  }

  /** s.rstrip(chars) */
  function TrimRight(s: string, chars: Chars): string
    decreases |s|
  {
    if s != [] && Drops(chars, s[|s| - 1]) then TrimRight(s[..|s| - 1], chars) else s
  }

  /** rstrip removes a suffix of dropped characters and stops at the last
      character it keeps. */
  lemma {:induction false} TrimRightFacts(s: string, chars: Chars)
    ensures var r := TrimRight(s, chars);
      && |r| <= |s| && r == s[..|r|]
      && (r == [] || !Drops(chars, r[|r| - 1]))
      && forall i :: |r| <= i < |s| ==> Drops(chars, s[i])
    decreases |s|
  {
    if s != [] && Drops(chars, s[|s| - 1]) {
      TrimRightFacts(s[..|s| - 1], chars);
    }
  }

  /** s.strip(chars). */
  function Trim(s: string, chars: Chars): string {
    TrimRight(TrimLeft(s, chars), chars)
  }

  /** s.strip() */
  function Strip(s: string): string {
    Trim(s, Spaces)
  }

  /** s.strip(",") */
  function StripCommas(s: string): string {
    Trim(s, Commas)
  }

  /** Trimming leaves a string alone when neither end is to be dropped. */
  lemma TrimKeeps(s: string, chars: Chars)
    requires s == [] || (!Drops(chars, s[0]) && !Drops(chars, s[|s| - 1]))
    ensures Trim(s, chars) == s
  {
    TrimLeftFacts(s, chars);
    TrimRightFacts(s, chars);
  }

  /** The result of a trim has neither end in the dropped set. */
  lemma TrimEnds(s: string, chars: Chars)
    ensures var r := Trim(s, chars); r == [] || (!Drops(chars, r[0]) && !Drops(chars, r[|r| - 1]))
  {
    var l := TrimLeft(s, chars);
    var r := TrimRight(l, chars);
    TrimLeftFacts(s, chars);
    TrimRightFacts(l, chars);
    if r != [] {
      assert r[0] == l[0];
    }
  }

  /** s.startswith(p) */
  predicate StartsWith(s: string, p: string) {
    p <= s
  }

  /** p occurs in s starting at position i. */
  predicate OccursAt(s: string, p: string, i: int) {
    0 <= i && i + |p| <= |s| && s[i..i + |p|] == p
  }

  /** `p in s` for two strings. */
  predicate Contains(s: string, p: string) {
    exists i :: 0 <= i <= |s| - |p| && OccursAt(s, p, i)
  }

  /** A token of str.split(): non-empty and free of white space. */
  predicate IsWord(t: string) {
    t != [] && forall i :: 0 <= i < |t| ==> !IsSpace(t[i])
  }

  /** The length of the run of non-space characters that starts s. */
  function WordLength(s: string): (n: nat)
    ensures n <= |s|
    ensures forall i :: 0 <= i < n ==> !IsSpace(s[i])
    ensures n == |s| || IsSpace(s[n])
  {
    if s == [] || IsSpace(s[0]) then 0 else 1 + WordLength(s[1..])
  }

  /** s.split() without arguments: the maximal runs of non-space characters. */
  function Tokens(s: string): (r: seq<string>)
    ensures forall k :: 0 <= k < |r| ==> IsWord(r[k])
    decreases |s|
  {
    if s == [] then []
    else if IsSpace(s[0]) then Tokens(s[1..])
    else
      var n := WordLength(s);
      [s[..n]] + Tokens(s[n..])
  }

  /** Stripping a token of str.split() changes nothing. */
  lemma StripWord(t: string)
    requires IsWord(t)
    ensures Strip(t) == t
  {
    TrimKeeps(t, Spaces);
  }

  /** A word followed by nothing or by white space is read as one whole run. */
  lemma {:induction false} WordLengthOfWord(w: string, rest: string)
    requires IsWord(w) && (rest == [] || IsSpace(rest[0]))
    ensures WordLength(w + rest) == |w|
    decreases |w|
  {
    var s := w + rest;
    if |w| > 1 {
      assert s[1..] == w[1..] + rest;
      WordLengthOfWord(w[1..], rest);
    } else {
      assert s[1..] == rest;
    }
  }

  /** A word followed by nothing or by white space is the first token. */
  lemma TokensCons(w: string, rest: string)
    requires IsWord(w) && (rest == [] || IsSpace(rest[0]))
    ensures Tokens(w + rest) == [w] + Tokens(rest)
  {
    WordLengthOfWord(w, rest);
    var s := w + rest;
    assert s[..|w|] == w && s[|w|..] == rest;
  }

  /** Splitting words joined by single spaces gives the words back. */
  lemma {:induction false} TokensJoin(ws: seq<string>)
    requires forall k :: 0 <= k < |ws| ==> IsWord(ws[k])
    ensures Tokens(Join(ws, " ")) == ws
    decreases |ws|
  {
    if |ws| == 1 {
      TokensCons(ws[0], []);
      assert ws[0] + [] == ws[0];
    } else if |ws| > 1 {
      var rest := Join(ws[1..], " ");
      TokensJoin(ws[1..]);
      assert ws[0] + " " + rest == ws[0] + (" " + rest);
      TokensCons(ws[0], " " + rest);
      assert (" " + rest)[1..] == rest;
    }
  }

  /** A word with a comma appended is still a word. */
  lemma WordComma(w: string)
    requires IsWord(w)
    ensures IsWord(w + ",")
  {
    assert forall i :: 0 <= i < |w| ==> (w + ",")[i] == w[i];
  }

  /** Stripping a word preceded by one space gives the word. */
  lemma StripSpaceWord(w: string)
    requires IsWord(w)
    ensures Strip(" " + w) == w
  {
    var s := " " + w;
    assert s[1..] == w;
    assert TrimLeft(s, Spaces) == TrimLeft(w, Spaces);
    TrimKeeps(w, Spaces);
  }

  /** Four words joined by single spaces. */
  lemma JoinFour(a: string, b: string, c: string, d: string)
    ensures Join([a, b, c, d], " ") == a + " " + b + " " + c + " " + d
  {
    var ws := [a, b, c, d];
    assert ws[1..] == [b, c, d] && [b, c, d][1..] == [c, d] && [c, d][1..] == [d];
    assert Join([c, d], " ") == c + " " + d;
    assert Join([b, c, d], " ") == b + " " + (c + " " + d);
  }

  /** s.split(sep) for a one-character separator. */
  function SplitOn(s: string, sep: char): (r: seq<string>)
    ensures |r| >= 1
    ensures forall k :: 0 <= k < |r| ==> sep !in r[k]
    decreases |s|
  {
    if s == [] then [[]]
    else
      var rest := SplitOn(s[1..], sep);
      if s[0] == sep then [[]] + rest else [[s[0]] + rest[0]] + rest[1..]
  }

  /** A text without the separator is one piece. */
  lemma {:induction false} SplitOnAbsent(s: string, sep: char)
    requires sep !in s
    ensures SplitOn(s, sep) == [s]
    decreases |s|
  {
    if s != [] {
      SplitOnAbsent(s[1..], sep);
      assert [s[0]] + s[1..] == s;
    }
  }

  /** The first separator ends the first piece. */
  lemma {:induction false} SplitOnFirst(a: string, sep: char, b: string)
    requires sep !in a
    ensures SplitOn(a + [sep] + b, sep) == [a] + SplitOn(b, sep)
    decreases |a|
  {
    var s := a + [sep] + b;
    if a == [] {
      assert s[1..] == b;
    } else {
      assert s[1..] == a[1..] + [sep] + b;
      SplitOnFirst(a[1..], sep, b);
      assert [a[0]] + a[1..] == a;
    }
  }

  /** sep.join(parts) */
  function Join(parts: seq<string>, sep: string): string
  {
    if parts == [] then []
    else if |parts| == 1 then parts[0]
    else parts[0] + sep + Join(parts[1..], sep)
  }

  /** The number of occurrences of c in s. */
  function CountChar(s: string, c: char): nat {
    if s == [] then 0 else (if s[0] == c then 1 else 0) + CountChar(s[1..], c)
  }

  lemma {:induction false} CountCharConcat(a: string, b: string, c: char)
    ensures CountChar(a + b, c) == CountChar(a, c) + CountChar(b, c)
    decreases |a|
  {
    if a != [] {
      CountCharConcat(a[1..], b, c);
      assert (a + b)[0] == a[0];
      assert (a + b)[1..] == a[1..] + b;
    } else {
      assert a + b == b;
    }
  }

  lemma {:induction false} CountCharAbsent(s: string, c: char)
    requires c !in s
    ensures CountChar(s, c) == 0
    decreases |s|
  {
    if s != [] {
      CountCharAbsent(s[1..], c);
    }
  }

  /** Splitting on a separator and joining with it again gives back the text,
      and there is one more piece than there are separators. */
  lemma {:induction false} SplitOnJoin(s: string, sep: char)
    ensures Join(SplitOn(s, sep), [sep]) == s
    ensures |SplitOn(s, sep)| == CountChar(s, sep) + 1
    decreases |s|
  {
    if s != [] {
      SplitOnJoin(s[1..], sep);
      var rest := SplitOn(s[1..], sep);
      if s[0] == sep {
        assert [[]] + rest == [[]] + rest[..];
        assert ([[]] + rest)[1..] == rest;
      } else if |rest| == 1 {
        assert Join(rest, [sep]) == rest[0];
      } else {
        assert ([[s[0]] + rest[0]] + rest[1..])[1..] == rest[1..];
        assert Join(rest, [sep]) == rest[0] + [sep] + Join(rest[1..], [sep]);
      }
    }
  }

  /** The last position at or before k where p occurs in s. */
  function LastIndexFrom(s: string, p: string, k: int): (r: Option<nat>)
    requires k <= |s| - |p|
    ensures r.Some? ==> r.value <= k && OccursAt(s, p, r.value)
    ensures forall j :: (if r.Some? then r.value else -1) < j <= k ==> !OccursAt(s, p, j)
    decreases k + 1
  {
    if k < 0 then None
    else if OccursAt(s, p, k) then Some(k)
    else LastIndexFrom(s, p, k - 1)
  }

  /** s.rfind(p), with None for -1. */
  function LastIndex(s: string, p: string): (r: Option<nat>)
    ensures r.Some? <==> Contains(s, p)
    ensures r.Some? ==> OccursAt(s, p, r.value)
    ensures r.Some? ==> forall j :: r.value < j <= |s| - |p| ==> !OccursAt(s, p, j)
  {
    LastIndexFrom(s, p, |s| - |p|)
  }

  /** s.rsplit(sep, 1) when sep occurs: the text before and after its last
      occurrence. */
  function RSplitOnce(s: string, sep: string): (r: Option<(string, string)>)
    requires sep != []
    ensures r.Some? <==> Contains(s, sep)
    ensures r.Some? ==> r.value.0 + sep + r.value.1 == s && !Contains(r.value.1, sep)
  {
    match LastIndex(s, sep)
    case None => None
    case Some(k) =>
      var after := s[k + |sep|..];
      assert !Contains(after, sep) by {
        forall j | 0 <= j <= |after| - |sep|
          ensures !OccursAt(after, sep, j)
        {
          assert after[j..j + |sep|] == s[k + |sep| + j..k + |sep| + j + |sep|];
          assert !OccursAt(s, sep, k + |sep| + j);
        }
      }
      assert s[..k] + sep + after == s;
      Some((s[..k], after))
  }

  /** s.replace(p, "") for a non-empty p: occurrences are removed left to right
      without overlapping. */
  function RemoveAll(s: string, p: string): (r: string)
    requires p != []
    ensures |r| <= |s|
    decreases |s|
  {
    if s == [] then []
    else if p <= s then RemoveAll(s[|p|..], p)
    else [s[0]] + RemoveAll(s[1..], p)
  }

  /** Removing a single character removes every copy of it and nothing else. */
  lemma {:induction false} RemoveAllChar(s: string, c: char)
    ensures c !in RemoveAll(s, [c])
    ensures forall d :: d != c ==> multiset(RemoveAll(s, [c]))[d] == multiset(s)[d]
    decreases |s|
  {
    if s != [] {
      RemoveAllChar(s[1..], c);
      assert s == [s[0]] + s[1..];
      if [c] <= s {
        assert s[1..] == s[|[c]|..];
      }
    }
  }

  /** Removing one character from a concatenation removes it from each part. */
  lemma {:induction false} RemoveAllCharConcat(a: string, b: string, c: char)
    ensures RemoveAll(a + b, [c]) == RemoveAll(a, [c]) + RemoveAll(b, [c])
    decreases |a|
  {
    if a != [] {
      RemoveAllCharConcat(a[1..], b, c);
      assert (a + b)[1..] == a[1..] + b;
      assert [c] <= a + b <==> [c] <= a;
    } else {
      assert a + b == b;
    }
  }

  /** Removing a character that does not occur changes nothing. */
  lemma {:induction false} RemoveAllAbsent(s: string, c: char)
    requires c !in s
    ensures RemoveAll(s, [c]) == s
    decreases |s|
  {
    if s != [] {
      RemoveAllAbsent(s[1..], c);
      assert [s[0]] + s[1..] == s;
    }
  }

  /** A string of digits holds no character that is not a digit. */
  lemma DigitsExclude(d: string, c: char)
    requires IsDigits(d) && !IsDigit(c)
    ensures c !in d
  {
    forall i | 0 <= i < |d| ensures d[i] != c {
      assert IsDigit(d[i]);
    }
  }

  /** Removing a character from a one-character string. */
  lemma RemoveAllSingle(x: char, c: char)
    ensures RemoveAll([x], [c]) == if x == c then [] else [x]
  {
    assert [x][1..] == [];
    if x != c {
      assert [x][0] != [c][0];
    }
  }

  lemma RemoveAround(l: char, d: string, r: char, c: char)
    requires c !in d
    ensures RemoveAll([l] + d + [r], [c]) == (if l == c then [] else [l]) + d + (if r == c then [] else [r])
  {
    RemoveAllCharConcat([l] + d, [r], c);
    RemoveAllCharConcat([l], d, c);
    RemoveAllAbsent(d, c);
    RemoveAllSingle(l, c);
    RemoveAllSingle(r, c);
  }

  /** strip(",") of a comma-free text with one comma appended. */
  lemma StripCommasComma(a: string)
    requires a != [] && ',' !in a
    ensures StripCommas(a + ",") == a
  {
    var s := a + ",";
    assert s[0] == a[0];
    assert TrimLeft(s, Commas) == s;
    assert s[..|s| - 1] == a;
    TrimKeeps(a, Commas);
    assert TrimLeft(a, Commas) == a;
  }

  /** rsplit at an occurrence with none after it. */
  lemma RSplitOnceAt(s: string, sep: string, k: nat)
    requires sep != [] && OccursAt(s, sep, k)
    requires forall j :: k < j <= |s| - |sep| ==> !OccursAt(s, sep, j)
    ensures RSplitOnce(s, sep) == Some((s[..k], s[k + |sep|..]))
  {
    assert Contains(s, sep);
    var r := LastIndex(s, sep);
    assert r.value == k;
  }

  /** upper() leaves text without lower-case ASCII letters alone. */
  lemma UpperKeeps(s: string)
    requires forall i :: 0 <= i < |s| ==> !('a' <= s[i] <= 'z')
    ensures Upper(s) == s
  {
  }

  /** Removing a pattern that does not occur changes nothing. */
  lemma {:induction false} RemoveAllMissing(s: string, p: string)
    requires p != [] && !Contains(s, p)
    ensures RemoveAll(s, p) == s
    decreases |s|
  {
    if s != [] {
      assert !(p <= s) by {
        if p <= s { assert OccursAt(s, p, 0); }
      }
      assert !Contains(s[1..], p) by {
        if Contains(s[1..], p) {
          var i :| 0 <= i <= |s[1..]| - |p| && OccursAt(s[1..], p, i);
          assert s[1..][i..i + |p|] == s[i + 1..i + 1 + |p|];
          assert OccursAt(s, p, i + 1);
        }
      }
      RemoveAllMissing(s[1..], p);
      assert [s[0]] + s[1..] == s;
    }
  }

  /** A pattern not in s and not starting with a space is not in " " + s. */
  lemma ContainsAfterSpace(s: string, p: string)
    requires p != [] && p[0] != ' ' && !Contains(s, p)
    ensures !Contains(" " + s, p)
  {
    var t := " " + s;
    if Contains(t, p) {
      var i :| 0 <= i <= |t| - |p| && OccursAt(t, p, i);
      assert i != 0 by { assert t[i] == p[0]; }
      assert t[i..i + |p|] == s[i - 1..i - 1 + |p|];
      assert OccursAt(s, p, i - 1);
    }
  }

  /** A pattern holding a character that s lacks does not occur in s. */
  /** One differing character rules out an occurrence. */
  lemma Mismatch(s: string, p: string, i: nat, j: nat)
    requires i + |p| <= |s| && j < |p| && s[i + j] != p[j]
    ensures !OccursAt(s, p, i)
  {
    assert s[i..i + |p|][j] == s[i + j];
  }

  lemma MissingChar(s: string, p: string, c: char)
    requires c in p && c !in s
    ensures !Contains(s, p)
  {
    forall i | 0 <= i <= |s| - |p|
      ensures !OccursAt(s, p, i)
    {
      var w := s[i..i + |p|];
      assert forall k :: 0 <= k < |w| ==> w[k] == s[i + k];
      assert c !in w;
    }
  }

  /** Stripping one leading space from text with non-space ends. */
  lemma StripAfterSpace(x: string)
    requires x != [] && !IsSpace(x[0]) && !IsSpace(x[|x| - 1])
    ensures Strip(" " + x) == x
  {
    assert (" " + x)[1..] == x;
    assert TrimLeft(" " + x, Spaces) == TrimLeft(x, Spaces);
    StripKeeps(x);
  }

  /** Stripping twice strips nothing more. */
  lemma StripStripped(s: string)
    ensures Strip(Strip(s)) == Strip(s)
  {
    TrimEnds(s, Spaces);
    TrimKeeps(Strip(s), Spaces);
  }

  /** strip() only removes characters: each character it keeps was in the
      text. */
  lemma StripWithin(s: string)
    ensures forall i :: 0 <= i < |Strip(s)| ==> Strip(s)[i] in s
  {
    var l := TrimLeft(s, Spaces);
    TrimLeftFacts(s, Spaces);
    TrimRightFacts(l, Spaces);
    forall i | 0 <= i < |Strip(s)|
      ensures Strip(s)[i] in s
    {
      assert Strip(s)[i] == l[i] == s[|s| - |l| + i];
    }
  }

  /** Joining pieces that do not hold the separator and splitting again gives
      the pieces back. */
  lemma {:induction false} JoinSplitOn(parts: seq<string>, sep: char)
    requires parts != []
    requires forall k :: 0 <= k < |parts| ==> sep !in parts[k]
    ensures SplitOn(Join(parts, [sep]), sep) == parts
    decreases |parts|
  {
    if |parts| == 1 {
      SplitOnAbsent(parts[0], sep);
    } else {
      JoinSplitOn(parts[1..], sep);
      SplitOnFirst(parts[0], sep, Join(parts[1..], [sep]));
      assert [parts[0]] + parts[1..] == parts;
    }
  }

  /** Concatenation regrouped, stated once so that proofs about long
      concatenations do not search for it. */
  lemma ConcatAssoc<T>(a: seq<T>, b: seq<T>, c: seq<T>)
    ensures (a + b) + c == a + (b + c)
  {
  }

  /** Python's str.upper() on ASCII letters. */
  function UpperChar(c: char): char {
    if 'a' <= c <= 'z' then (c as int - 'a' as int + 'A' as int) as char else c
  }

  function Upper(s: string): (r: string)
    ensures |r| == |s|
  {
    seq(|s|, i requires 0 <= i < |s| => UpperChar(s[i]))
  }

  /** upper() leaves no lower-case ASCII letter, keeps every other
      character, and is idempotent. */
  lemma UpperFacts(s: string)
    ensures forall i :: 0 <= i < |s| ==> !('a' <= Upper(s)[i] <= 'z')
    ensures forall i :: 0 <= i < |s| && !('a' <= s[i] <= 'z') ==> Upper(s)[i] == s[i]
    ensures Upper(Upper(s)) == Upper(s)
  {
  }

  predicate IsDigit(c: char) {
    '0' <= c <= '9'
  }

  predicate IsDigits(t: string) {
    t != [] && forall i :: 0 <= i < |t| ==> IsDigit(t[i])
  }

  /** The value of a string of decimal digits, most significant first. */
  function DigitsValue(t: string): int
    requires forall i :: 0 <= i < |t| ==> IsDigit(t[i])
  {
    if t == [] then 0 else DigitsValue(t[..|t| - 1]) * 10 + (t[|t| - 1] as int - '0' as int)
  }

  /** Python's int(s) on ASCII decimal text: white space around, an optional
      sign, then one or more digits; anything else raises ValueError (None). */
  function ParseInt(s: string): Option<int> {
    var t := Strip(s);
    if t != [] && (t[0] == '+' || t[0] == '-') && IsDigits(t[1..]) then
      Some(if t[0] == '-' then -DigitsValue(t[1..]) else DigitsValue(t[1..]))
    else if IsDigits(t) then Some(DigitsValue(t))
    else None
  }

  function DigitChar(d: nat): char
    requires d < 10
  {
    ('0' as int + d) as char
  }

  /** str(n) for a natural number. */
  function DecimalString(n: nat): (r: string)
    ensures IsDigits(r)
  {
    if n < 10 then [DigitChar(n)] else DecimalString(n / 10) + [DigitChar(n % 10)]
  }

  lemma {:induction false} DecimalStringValue(n: nat)
    ensures DigitsValue(DecimalString(n)) == n
  {
    var r := DecimalString(n);
    if n >= 10 {
      DecimalStringValue(n / 10);
      assert r[..|r| - 1] == DecimalString(n / 10);
    } else {
      assert r[..|r| - 1] == [];
    }
  }

  /** A string whose two ends are not white space is its own strip. */
  lemma StripKeeps(t: string)
    requires t != [] && !IsSpace(t[0]) && !IsSpace(t[|t| - 1])
    ensures Strip(t) == t
  {
    TrimKeeps(t, Spaces);
  }

  /** int(t) of a string of digits is their decimal value. */
  lemma ParseIntDigits(t: string)
    requires IsDigits(t)
    ensures ParseInt(t) == Some(DigitsValue(t))
  {
    StripKeeps(t);
  }

  /** int(str(n)) == n, and so is int("+" + str(n)); int("-" + str(n)) == -n. */
  lemma ParseIntDecimal(n: nat)
    ensures ParseInt(DecimalString(n)) == Some(n)
    ensures ParseInt("+" + DecimalString(n)) == Some(n)
    ensures ParseInt("-" + DecimalString(n)) == Some(-(n as int))
  {
    DecimalStringValue(n);
    var d := DecimalString(n);
    ParseIntDigits(d);
    ParseIntSigned(d, "+");
    ParseIntSigned(d, "-");
  }

  /** int() of a sign followed by digits. */
  lemma ParseIntSigned(d: string, sign: string)
    requires IsDigits(d) && (sign == "+" || sign == "-")
    ensures ParseInt(sign + d) == Some(if sign == "-" then -DigitsValue(d) else DigitsValue(d))
  {
    var s := sign + d;
    assert s[0] == sign[0] && s[|s| - 1] == d[|d| - 1];
    StripKeeps(s);
    assert s[1..] == d;
  }
}
