/** Splitting and joining, and addresses as text. */
module Text {
  import opened Types

  // ---------------------------------------------------------------------------
  // split and join
  // ---------------------------------------------------------------------------

  /** The parts of `s` between separators; there is always at least one. */
  function Split<T(==)>(s: seq<T>, separator: T): (parts: seq<seq<T>>)
    ensures |parts| >= 1
  {
    if s == [] then [[]]
    else
      var rest := Split(s[1..], separator);
      if s[0] == separator then [[]] + rest else [[s[0]] + rest[0]] + rest[1..]
  }

  function Join<T>(parts: seq<seq<T>>, separator: T): seq<T>
    requires |parts| >= 1
  {
    if |parts| == 1 then parts[0] else parts[0] + [separator] + Join(parts[1..], separator)
  }

  ghost predicate SeparatorFree<T>(parts: seq<seq<T>>, separator: T) {
    forall part <- parts :: separator !in part
  }

  lemma {:induction false} SplitJoins<T>(s: seq<T>, separator: T)
    ensures Join(Split(s, separator), separator) == s
    ensures SeparatorFree(Split(s, separator), separator)
  {
    if s != [] {
      var rest := Split(s[1..], separator);
      var parts := Split(s, separator);
      assert parts == if s[0] == separator then [[]] + rest else [[s[0]] + rest[0]] + rest[1..];
      SplitJoins(s[1..], separator);
      if s[0] == separator {
        assert parts[1..] == rest;
      } else {
        assert parts[1..] == rest[1..];
        assert rest[0] in rest;
      }
      assert s == [s[0]] + s[1..];
    }
  }

  lemma {:induction false} JoinSplits<T>(parts: seq<seq<T>>, separator: T)
    requires |parts| >= 1 && SeparatorFree(parts, separator)
    ensures Split(Join(parts, separator), separator) == parts
    decreases |parts|, |parts[0]|
  {
    var s := Join(parts, separator);
    if parts[0] == [] {
      if |parts| > 1 {
        assert s[1..] == Join(parts[1..], separator);
        JoinSplits(parts[1..], separator);
      }
    } else {
      var shorter := [parts[0][1..]] + parts[1..];
      assert parts[0] in parts;
      forall part <- shorter ensures separator !in part {
        if part == parts[0][1..] {
        } else {
          assert part in parts;
        }
      }
      assert shorter[1..] == parts[1..];
      assert s[1..] == Join(shorter, separator);
      JoinSplits(shorter, separator);
      assert [parts[0][0]] + parts[0][1..] == parts[0];
      assert s[0] != separator;
      assert Split(s, separator) == [parts[0]] + parts[1..];
    }
  }

  /** Splitting is the one inverse of joining separator-free parts. */
  lemma {:induction false} SplitExact<T>(s: seq<T>, separator: T, parts: seq<seq<T>>)
    ensures Split(s, separator) == parts <==>
      |parts| >= 1 && SeparatorFree(parts, separator) && Join(parts, separator) == s
  {
    SplitJoins(s, separator);
    if |parts| >= 1 && SeparatorFree(parts, separator) {
      JoinSplits(parts, separator);
    }
  }

  // ---------------------------------------------------------------------------
  // IPv4 addresses in dotted decimal
  // ---------------------------------------------------------------------------

  function Digit(d: nat): char
    requires d < 10
  {
    ('0' as int + d) as char
  }

  predicate IsDigit(c: char) { '0' <= c <= '9' }

  function DigitValue(c: char): (d: nat)
    requires IsDigit(c)
    ensures d < 10
  {
    c as int - '0' as int
  }

  function ShowOctet(n: byte): string {
    if n < 10 then [Digit(n)]
    else if n < 100 then [Digit(n / 10), Digit(n % 10)]
    else [Digit(n / 100), Digit(n / 10 % 10), Digit(n % 10)]
  }

  function DecimalValue(s: string): nat
    requires forall c <- s :: IsDigit(c)
  {
    if s == [] then 0 else 10 * DecimalValue(s[..|s| - 1]) + DigitValue(s[|s| - 1])
  }

  /** One to three digits, no leading zero, at most 255. */
  function ParseOctet(s: string): Option<byte> {
    if |s| == 0 || |s| > 3 || exists c <- s :: !IsDigit(c) then None
    else if |s| > 1 && s[0] == '0' then None
    else if DecimalValue(s) > 255 then None
    else Some(DecimalValue(s))
  }

  function ShowV4(o: Octets4): string {
    Join([ShowOctet(o[0]), ShowOctet(o[1]), ShowOctet(o[2]), ShowOctet(o[3])], '.')
  }

  function ParseV4(s: string): Option<Octets4> {
    var parts := Split(s, '.');
    if |parts| != 4 then None
    else
      match (ParseOctet(parts[0]), ParseOctet(parts[1]), ParseOctet(parts[2]), ParseOctet(parts[3]))
      case (Some(a), Some(b), Some(c), Some(d)) => Some([a, b, c, d])
      case _ => None
  }

  lemma DecimalDigits(n: nat, a: nat, b: nat, c: nat)
    requires a < 10 && b < 10 && c < 10 && n == 100 * a + 10 * b + c
    ensures n / 100 == a && n / 10 % 10 == b && n % 10 == c && n / 10 == 10 * a + b
  {
    assert n / 10 == 10 * a + b;
  }

  lemma DecimalAppend(s: string, c: char)
    requires (forall d <- s :: IsDigit(d)) && IsDigit(c)
    ensures DecimalValue(s + [c]) == 10 * DecimalValue(s) + DigitValue(c)
  {
    assert (s + [c])[..|s|] == s;
  }

  lemma DecimalValues(x: char, y: char, z: char)
    requires IsDigit(x) && IsDigit(y) && IsDigit(z)
    ensures DecimalValue([x]) == DigitValue(x)
    ensures DecimalValue([x, y]) == 10 * DigitValue(x) + DigitValue(y)
    ensures DecimalValue([x, y, z]) == 100 * DigitValue(x) + 10 * DigitValue(y) + DigitValue(z)
  {
    DecimalAppend([], x);
    DecimalAppend([x], y);
    DecimalAppend([x, y], z);
    assert [] + [x] == [x] && [x] + [y] == [x, y] && [x, y] + [z] == [x, y, z];
  }

  lemma DigitInverse(c: char)
    requires IsDigit(c)
    ensures Digit(DigitValue(c)) == c
  {
  }

  lemma OctetOfDigits(n: byte, a: nat, b: nat, c: nat)
    requires a < 10 && b < 10 && c < 10 && n == 100 * a + 10 * b + c
    ensures ShowOctet(n) ==
      if n < 10 then [Digit(c)] else if n < 100 then [Digit(b), Digit(c)] else [Digit(a), Digit(b), Digit(c)]
  {
    DecimalDigits(n, a, b, c);
  }

  /** The value of one to three digits, read and not too large. */
  lemma DigitsParse(s: string, n: byte)
    requires 1 <= |s| <= 3 && (forall c <- s :: IsDigit(c)) && DecimalValue(s) == n
    requires |s| > 1 ==> s[0] != '0'
    ensures ParseOctet(s) == Some(n)
  {
  }

  lemma ShowOctetParses(n: byte)
    ensures ParseOctet(ShowOctet(n)) == Some(n)
  {
    if n < 10 {
      DecimalValues(Digit(n), '0', '0');
      DigitsParse([Digit(n)], n);
    } else if n < 100 {
      var b, c := n / 10, n % 10;
      DecimalValues(Digit(b), Digit(c), '0');
      DigitsParse([Digit(b), Digit(c)], n);
    } else {
      var a, b, c := n / 100, n / 10 % 10, n % 10;
      DecimalValues(Digit(a), Digit(b), Digit(c));
      DigitsParse([Digit(a), Digit(b), Digit(c)], n);
    }
  }

  lemma ParsedOctetShows(s: string)
    requires ParseOctet(s).Some?
    ensures ShowOctet(ParseOctet(s).value) == s
  {
    if |s| == 1 {
      DigitsShow(s, '0', '0', s[0]);
    } else if |s| == 2 {
      DigitsShow(s, '0', s[0], s[1]);
    } else {
      DigitsShow(s, s[0], s[1], s[2]);
    }
  }

  lemma DigitsShow(s: string, x: char, y: char, z: char)
    requires IsDigit(x) && IsDigit(y) && IsDigit(z)
    requires
      || (s == [z] && x == '0' && y == '0') || (s == [y, z] && x == '0' && y != '0') || (s == [x, y, z] && x != '0')
    requires DecimalValue(s) < 256
    ensures ShowOctet(DecimalValue(s)) == s
  {
    DecimalValues(z, '0', '0');
    DecimalValues(y, z, '0');
    DecimalValues(x, y, z);
    DigitInverse(x);
    DigitInverse(y);
    DigitInverse(z);
    OctetOfDigits(DecimalValue(s), DigitValue(x), DigitValue(y), DigitValue(z));
  }

  lemma ParseOctetExact(s: string, n: byte)
    ensures ParseOctet(s) == Some(n) <==> s == ShowOctet(n)
  {
    ShowOctetParses(n);
    if ParseOctet(s) == Some(n) {
      ParsedOctetShows(s);
    }
  }

  lemma ShownOctetChars(n: byte)
    ensures ShowOctet(n) != [] && forall c <- ShowOctet(n) :: IsDigit(c)
  {
  }

  lemma ShownPartsAreDotFree(o: Octets4)
    ensures SeparatorFree([ShowOctet(o[0]), ShowOctet(o[1]), ShowOctet(o[2]), ShowOctet(o[3])], '.')
  {
    ShownOctetChars(o[0]);
    ShownOctetChars(o[1]);
    ShownOctetChars(o[2]);
    ShownOctetChars(o[3]);
  }

  /** Dotted decimal is read back exactly, and nothing but dotted decimal is read. */
  lemma ParseV4Exact(s: string, o: Octets4)
    ensures ParseV4(s) == Some(o) <==> s == ShowV4(o)
  {
    var shown := [ShowOctet(o[0]), ShowOctet(o[1]), ShowOctet(o[2]), ShowOctet(o[3])];
    var parts := Split(s, '.');
    ShownPartsAreDotFree(o);
    SplitExact(s, '.', shown);
    SplitExact(s, '.', parts);
    if |parts| == 4 {
      ParseOctetExact(parts[0], o[0]);
      ParseOctetExact(parts[1], o[1]);
      ParseOctetExact(parts[2], o[2]);
      ParseOctetExact(parts[3], o[3]);
      assert parts == [parts[0], parts[1], parts[2], parts[3]];
    }
    assert o == [o[0], o[1], o[2], o[3]];
  }

  // ---------------------------------------------------------------------------
  // Words
  // ---------------------------------------------------------------------------

  /** The characters with the Unicode property White_Space. */
  predicate IsSpace(c: char) {
    var u := c as int;
    || 0x09 <= u <= 0x0D || u == 0x20 || u == 0x85 || u == 0xA0 || u == 0x1680
    || 0x2000 <= u <= 0x200A || u == 0x2028 || u == 0x2029 || u == 0x202F || u == 0x205F || u == 0x3000
  }

  /** The 25 code points with that property. */
  lemma SpacesExact(c: char)
    ensures IsSpace(c) <==>
      c as int in {
        0x09, 0x0A, 0x0B, 0x0C, 0x0D, 0x20, 0x85, 0xA0, 0x1680, 0x2000, 0x2001, 0x2002, 0x2003, 0x2004, 0x2005,
        0x2006, 0x2007, 0x2008, 0x2009, 0x200A, 0x2028, 0x2029, 0x202F, 0x205F, 0x3000}
  {
  }

  function WordLength(s: string): (n: nat)
    ensures n <= |s|
    ensures forall i :: 0 <= i < n ==> !IsSpace(s[i])
    ensures n < |s| ==> IsSpace(s[n])
  {
    if s == [] || IsSpace(s[0]) then 0 else 1 + WordLength(s[1..])
  }

  /** The maximal runs of non-space characters. */
  function Words(s: string): seq<string> {
    if s == [] then []
    else if IsSpace(s[0]) then Words(s[1..])
    else [s[..WordLength(s)]] + Words(s[WordLength(s)..])
  }

  predicate IsWord(s: string) {
    s != [] && forall c <- s :: !IsSpace(c)
  }

  /** A word before a space, or at the end, comes out first and whole. */
  lemma {:induction false} WordsTakesWord(word: string, rest: string)
    requires IsWord(word)
    requires rest == [] || IsSpace(rest[0])
    ensures Words(word + rest) == [word] + Words(rest)
  {
    var s := word + rest;
    var n := WordLength(s);
    assert forall i :: 0 <= i < |word| ==> s[i] == word[i] && word[i] in word && !IsSpace(s[i]);
    assert rest != [] ==> s[|word|] == rest[0];
    assert n == |word|;
    assert s[..n] == word && s[n..] == rest;
  }

  lemma WordsSkipsSpace(space: char, rest: string)
    requires IsSpace(space)
    ensures Words([space] + rest) == Words(rest)
  {
    assert ([space] + rest)[1..] == rest;
  }

  ghost predicate AllSpace(s: string) {
    forall c <- s :: IsSpace(c)
  }

  /** The words with the gaps before, between and behind them. */
  function Weave(gaps: seq<string>, words: seq<string>): string
    requires |gaps| == |words| + 1
  {
    if words == [] then gaps[0] else gaps[0] + words[0] + Weave(gaps[1..], words[1..])
  }

  /** Words of non-space characters, and gaps of space characters; only the outer gaps may be empty. */
  ghost predicate IsLayout(gaps: seq<string>, words: seq<string>) {
    && |gaps| == |words| + 1
    && (forall gap <- gaps :: AllSpace(gap)) && (forall word <- words :: IsWord(word))
    && forall i | 0 < i < |words| :: gaps[i] != []
  }

  lemma {:induction false} GapIsSkipped(gap: string, rest: string)
    requires AllSpace(gap)
    ensures Words(gap + rest) == Words(rest)
  {
    if gap == [] {
      assert gap + rest == rest;
    } else {
      assert gap + rest == [gap[0]] + (gap[1..] + rest);
      WordsSkipsSpace(gap[0], gap[1..] + rest);
      GapIsSkipped(gap[1..], rest);
    }
  }

  lemma LayoutRest(gaps: seq<string>, words: seq<string>)
    requires IsLayout(gaps, words) && words != []
    ensures IsLayout(gaps[1..], words[1..])
    ensures Weave(gaps[1..], words[1..]) == [] || IsSpace(Weave(gaps[1..], words[1..])[0])
  {
    assert gaps[1] in gaps;
    forall gap <- gaps[1..] ensures gap in gaps {}
    forall word <- words[1..] ensures word in words {}
  }

  lemma {:induction false} LayoutIsRead(gaps: seq<string>, words: seq<string>)
    requires IsLayout(gaps, words)
    ensures Words(Weave(gaps, words)) == words
    decreases |words|
  {
    assert gaps[0] in gaps;
    if words == [] {
      GapIsSkipped(gaps[0], []);
      assert gaps[0] + [] == gaps[0];
    } else {
      var rest := Weave(gaps[1..], words[1..]);
      assert words[0] in words;
      LayoutRest(gaps, words);
      LayoutIsRead(gaps[1..], words[1..]);
      assert gaps[0] + words[0] + rest == gaps[0] + (words[0] + rest);
      GapIsSkipped(gaps[0], words[0] + rest);
      WordsTakesWord(words[0], rest);
    }
  }

  lemma WidenGap(c: char, gaps: seq<string>, words: seq<string>) returns (wider: seq<string>)
    requires IsSpace(c) && IsLayout(gaps, words)
    ensures IsLayout(wider, words) && Weave(wider, words) == [c] + Weave(gaps, words)
  {
    wider := [[c] + gaps[0]] + gaps[1..];
    assert gaps[0] in gaps && wider[1..] == gaps[1..];
    forall gap <- wider ensures AllSpace(gap) {
      if gap != wider[0] {
        assert gap in gaps;
      }
    }
  }

  lemma PrependWord(word: string, gaps: seq<string>, words: seq<string>) returns (more: seq<string>)
    requires IsWord(word) && IsLayout(gaps, words)
    requires Weave(gaps, words) == [] || IsSpace(Weave(gaps, words)[0])
    ensures IsLayout(more, [word] + words) && Weave(more, [word] + words) == word + Weave(gaps, words)
  {
    more := [[]] + gaps;
    var all := [word] + words;
    assert more[1..] == gaps && all[1..] == words;
    if words != [] {
      assert words[0] in words;
    }
  }

  lemma {:induction false} ReadIsLayout(s: string) returns (gaps: seq<string>)
    ensures IsLayout(gaps, Words(s)) && Weave(gaps, Words(s)) == s
    decreases |s|
  {
    if s == [] {
      gaps := [[]];
    } else if IsSpace(s[0]) {
      var rest := ReadIsLayout(s[1..]);
      gaps := WidenGap(s[0], rest, Words(s[1..]));
      assert [s[0]] + s[1..] == s;
    } else {
      var n := WordLength(s);
      var rest := ReadIsLayout(s[n..]);
      assert n < |s| ==> s[n..][0] == s[n];
      gaps := PrependWord(s[..n], rest, Words(s[n..]));
      assert s[..n] + s[n..] == s;
    }
  }

  /** The words of a text are what stands between its white space: no word is split, joined or lost. */
  lemma WordsExact(s: string, words: seq<string>)
    ensures Words(s) == words <==> exists gaps :: IsLayout(gaps, words) && Weave(gaps, words) == s
  {
    if Words(s) == words {
      var gaps := ReadIsLayout(s);
    }
    forall gaps | IsLayout(gaps, words) && Weave(gaps, words) == s ensures Words(s) == words {
      LayoutIsRead(gaps, words);
    }
  }
}
